/** The discovery feed: who it may show. */
module Discovery {
  import opened Base
  import opened Query
  import opened Schema
  import opened Requests
  import opened Safety
  import opened Guarantees

  const FEED_SIZE: nat := 20

  /** The first read of `getDiscoveryFeed`. */
  function SwipedBy(db: Db, u: Id): set<Id> {
    set p | p in db.swipes && p.0 == u :: p.1
  }

  /** Accounts with a profile that are neither the reader nor on the exclusion list. */
  function Pool(db: Db, u: Id, excluded: set<Id>): set<Id> {
    set v | v in db.users && v in db.profiles && v != u && v !in excluded
  }

  function Eligible(db: Db, u: Id): set<Id> {
    Pool(db, u, SwipedBy(db, u))
  }

  /** `rows` is a possible feed: the exclusion list was read from `first`, the cards from `second`. */
  ghost predicate Feed(first: Db, second: Db, u: Id, rows: seq<Id>) {
    Top(Pool(second, u, SwipedBy(first, u)), second.users, FEED_SIZE, rows)
  }

  /** Somebody the feed may show: another account with a profile, without a swipe record by the reader. */
  predicate Candidate(first: Db, second: Db, u: Id, v: Id) {
    v in second.users && v in second.profiles && v != u && (u, v) !in first.swipes
  }

  /** A feed shows candidates only, each once, newest account first, at most 20; and it is full unless it shows them all,
      in which case nobody left out is newer than anybody shown. */
  lemma FeedMeaning(first: Db, second: Db, u: Id, rows: seq<Id>)
    requires Feed(first, second, u, rows)
    ensures forall v :: v in rows ==> Candidate(first, second, u, v)
    ensures forall i, j :: 0 <= i < j < |rows| ==>
              rows[i] != rows[j] && second.users[rows[i]] >= second.users[rows[j]]
    ensures |rows| <= 20
    ensures |rows| < 20 ==> forall v :: Candidate(first, second, u, v) ==> v in rows
    ensures forall v, w :: Candidate(first, second, u, v) && v !in rows && w in rows ==> second.users[v] <= second.users[w]
  {
    var pool := Pool(second, u, SwipedBy(first, u));
    forall v ensures v in pool <==> Candidate(first, second, u, v) {
      assert (u, v) in first.swipes <==> v in SwipedBy(first, u) by {
        assert (u, v) in first.swipes ==> v in SwipedBy(first, u);
      }
    }
    TopLeaves(pool, second.users, FEED_SIZE, rows);
    assert forall v :: v in rows <==> v in Elements(rows);
  }

  /** The feed never looks at matches, yet shows nobody the reader was matched with when the exclusion list was
      read; a match partner can appear only if the reader swiped on them between the two reads. */
  lemma FeedOmitsPartners(ls: seq<Label>, between: seq<Label>, u: Id, rows: seq<Id>, v: Id)
    requires var s := Run(INITIAL, ls); Feed(s.db, Run(s, between).db, u, rows) && v in rows
    ensures var s := Run(INITIAL, ls);
            var t := Run(s, between);
            && v != u && v in t.db.users && v in t.db.profiles
            && (u, v) !in s.db.swipes
            && !Matched(s.db, u, v)
            && (Matched(t.db, u, v) ==> (u, v) in t.db.swipes)
            && (between == [] ==> !Matched(t.db, u, v))
  {
    ReachableIsSound(ls);
    var s := Run(INITIAL, ls);
    var t := Run(s, between);
    RunKeepsInv(s, between);
    assert v in Elements(rows);
    assert (u, v) in s.db.swipes ==> v in SwipedBy(s.db, u);
    forall db, m | Consistent(db) && MatchOf(db, m, u, v) ensures (u, v) in db.swipes {
      assert SoundMatch(db, db.matches[m]);
    }
  }

  /** Exactly when a partner can be on the feed: the reader had not swiped on them when the exclusion list was read, so
      the match fell between the two reads. */
  lemma PartnerOnFeedIff(ls: seq<Label>, between: seq<Label>, u: Id, v: Id)
    requires Matched(Run(Run(INITIAL, ls), between).db, u, v)
    ensures var s := Run(INITIAL, ls);
            var t := Run(s, between);
            v in Pool(t.db, u, SwipedBy(s.db, u)) <==> (u, v) !in s.db.swipes && v in t.db.profiles
  {
    var s := Run(INITIAL, ls);
    var t := Run(s, between);
    ReachableIsSound(ls);
    RunKeepsInv(s, between);
    var m :| MatchOf(t.db, m, u, v);
    assert SoundMatch(t.db, t.db.matches[m]);
    assert (u, v) in s.db.swipes <==> v in SwipedBy(s.db, u) by {
      assert (u, v) in s.db.swipes ==> v in SwipedBy(s.db, u);
    }
  }
}
