/** The listings: what a user reads about matches and chats on any reachable store. */
module Views {
  import opened Base
  import opened Query
  import opened Schema
  import opened Requests
  import opened Safety
  import opened Guarantees

  // ---- matches ----

  datatype MatchCard = MatchCard(id: Id, createdAt: Time, other: Id)

  datatype MatchAnswer = Shown(card: MatchCard) | Refused(error: Error)

  function OtherUser(row: Match, u: Id): Id {
    if row.user1 == u then row.user2 else row.user1
  }

  function CardOfMatch(db: Db, m: Id, u: Id): MatchCard
    requires m in db.matches
  {
    MatchCard(m, db.matches[m].createdAt, OtherUser(db.matches[m], u))
  }

  function MatchesOf(db: Db, u: Id): set<Id> {
    set m | m in db.matches && (db.matches[m].user1 == u || db.matches[m].user2 == u)
  }

  function MatchTimes(db: Db): map<Id, Time> {
    map m | m in db.matches :: db.matches[m].createdAt
  }

  /** `getMyMatches` on the rows the store returned. */
  function MyMatches(db: Db, u: Id, rows: seq<Id>): seq<MatchCard>
    requires forall m :: m in rows ==> m in db.matches
  {
    seq(|rows|, k requires 0 <= k < |rows| => CardOfMatch(db, rows[k], u))
  }

  function MatchById(db: Db, m: Id, u: Id): MatchAnswer {
    if m !in db.matches then Refused(NotFound)
    else if db.matches[m].user1 != u && db.matches[m].user2 != u then Refused(Forbidden)
    else Shown(CardOfMatch(db, m, u))
  }

  /** The card carries the id and the time of the match it describes, and names the other user. */
  predicate CardDescribes(db: Db, card: MatchCard, u: Id) {
    && card.id in db.matches && card.createdAt == db.matches[card.id].createdAt
    && {u, card.other} == {db.matches[card.id].user1, db.matches[card.id].user2}
  }

  lemma MatchCardMeaning(db: Db, m: Id, u: Id)
    requires MatchesOk(db) && m in MatchesOf(db, u)
    ensures CardOfMatch(db, m, u).other != u && MatchOf(db, m, u, CardOfMatch(db, m, u).other)
    ensures CardOfMatch(db, m, u).id == m && CardDescribes(db, CardOfMatch(db, m, u), u)
  {
    assert SoundMatch(db, db.matches[m]);
    BeforeIsTotal(db.matches[m].user1, db.matches[m].user2);
  }

  ghost predicate MatchesInOrder(cards: seq<MatchCard>) {
    forall j, k :: 0 <= j < k < |cards| ==> cards[j].other != cards[k].other && cards[j].createdAt >= cards[k].createdAt
  }

  lemma OneMatchPerPair(db: Db, m: Id, n: Id, a: Id, b: Id)
    requires MatchesOk(db) && MatchOf(db, m, a, b)
    ensures MatchOf(db, n, a, b) ==> m == n
  {
    if MatchOf(db, n, a, b) {
      assert SoundMatch(db, db.matches[m]) && SoundMatch(db, db.matches[n]);
      BeforeIsTotal(a, b);
    }
  }

  lemma MatchRowsInOrder(db: Db, u: Id, rows: seq<Id>)
    requires MatchesOk(db) && Elements(rows) == MatchesOf(db, u) && Distinct(rows)
    requires (forall m :: m in rows ==> m in db.matches) && Descending(MatchTimes(db), rows)
    ensures MatchesInOrder(MyMatches(db, u, rows))
    ensures forall k :: 0 <= k < |rows| ==> CardDescribes(db, MyMatches(db, u, rows)[k], u)
  {
    var cards := MyMatches(db, u, rows);
    forall k | 0 <= k < |rows| ensures CardDescribes(db, cards[k], u) {
      assert rows[k] in Elements(rows);
      MatchCardMeaning(db, rows[k], u);
    }
    forall j, k | 0 <= j < k < |cards|
      ensures cards[j].other != cards[k].other && cards[j].createdAt >= cards[k].createdAt
    {
      assert rows[j] in Elements(rows) && rows[k] in Elements(rows);
      MatchCardMeaning(db, rows[j], u);
      MatchCardMeaning(db, rows[k], u);
      OneMatchPerPair(db, rows[j], rows[k], u, cards[j].other);
      assert MatchTimes(db)[rows[j]] >= MatchTimes(db)[rows[k]];
    }
  }

  lemma MatchRowsName(db: Db, u: Id, rows: seq<Id>, v: Id)
    requires MatchesOk(db) && Elements(rows) == MatchesOf(db, u) && forall m :: m in rows ==> m in db.matches
    ensures Matched(db, u, v) <==> exists k :: 0 <= k < |rows| && MyMatches(db, u, rows)[k].other == v
  {
    var cards := MyMatches(db, u, rows);
    if Matched(db, u, v) {
      var m :| MatchOf(db, m, u, v);
      assert m in Elements(rows);
      var k :| 0 <= k < |rows| && rows[k] == m;
      MatchCardMeaning(db, m, u);
      assert cards[k].other == v;
    }
    if k :| 0 <= k < |rows| && cards[k].other == v {
      assert rows[k] in Elements(rows);
      MatchCardMeaning(db, rows[k], u);
    }
  }

  /** The match list names every match partner exactly once and nobody else, newest match first. */
  lemma MatchListMeaning(ls: seq<Label>, u: Id, rows: seq<Id>)
    requires var db := Run(INITIAL, ls).db; Top(MatchesOf(db, u), MatchTimes(db), |MatchesOf(db, u)|, rows)
    ensures var db := Run(INITIAL, ls).db;
            && (forall m :: m in rows ==> m in db.matches)
            && (forall k :: 0 <= k < |rows| ==> CardDescribes(db, MyMatches(db, u, rows)[k], u))
            && MatchesInOrder(MyMatches(db, u, rows))
            && (forall v :: Matched(db, u, v) <==> exists k :: 0 <= k < |rows| && MyMatches(db, u, rows)[k].other == v)
  {
    ReachableIsSound(ls);
    var db := Run(INITIAL, ls).db;
    TopLeaves(MatchesOf(db, u), MatchTimes(db), |MatchesOf(db, u)|, rows);
    assert forall m :: m in rows ==> m in Elements(rows);
    MatchRowsInOrder(db, u, rows);
    forall v ensures Matched(db, u, v) <==> exists k :: 0 <= k < |rows| && MyMatches(db, u, rows)[k].other == v {
      MatchRowsName(db, u, rows, v);
    }
  }

  /** A match is shown to its two users only, and shows each of them the other. */
  lemma MatchByIdMeaning(ls: seq<Label>, m: Id, u: Id)
    ensures var db := Run(INITIAL, ls).db;
            var answer := MatchById(db, m, u);
            && (answer.Shown? <==> exists v :: MatchOf(db, m, u, v))
            && (answer.Shown? ==>
                  && answer.card.id == m && CardDescribes(db, answer.card, u)
                  && answer.card.other != u && MatchOf(db, m, u, answer.card.other)
                  && MatchById(db, m, answer.card.other) == Shown(answer.card.(other := u)))
            && (!answer.Shown? ==> answer == Refused(if m in db.matches then Forbidden else NotFound))
  {
    ReachableIsSound(ls);
    var db := Run(INITIAL, ls).db;
    if m in db.matches {
      assert SoundMatch(db, db.matches[m]);
      BeforeIsTotal(db.matches[m].user1, db.matches[m].user2);
      assert m in MatchesOf(db, u) ==> MatchById(db, m, u).Shown?;
      assert MatchById(db, m, u).Shown? ==> MatchOf(db, m, u, OtherUser(db.matches[m], u));
    }
  }

  // ---- chats ----

  datatype ChatCard = ChatCard(id: Id, matchId: Option<Id>, updatedAt: Time, lastMessage: Option<Id>, other: Option<Id>)

  function ChatsOf(db: Db, u: Id): set<Id> {
    set p | p in db.participants && p.1 == u :: p.0
  }

  function Activity(db: Db): map<Id, Time> {
    map c | c in db.chats :: db.chats[c].updatedAt
  }

  function MessagesOf(db: Db, c: Id): set<Id> {
    set m | m in db.messages && db.messages[m].chatId == c
  }

  function MessageTimes(db: Db): map<Id, Time> {
    map m | m in db.messages :: db.messages[m].createdAt
  }

  /** `participants.find(p => p.userId !== userId)`. */
  function FindOther(seats: seq<Id>, u: Id): Option<Id> {
    if seats == [] then None
    else if seats[0] != u then Some(seats[0])
    else FindOther(seats[1..], u)
  }

  /** One entry of `getMyChats`, from the participants and newest messages the store returned with the chat. */
  function CardOfChat(db: Db, c: Id, u: Id, seats: seq<Id>, newest: seq<Id>): ChatCard
    requires c in db.chats
  {
    ChatCard(c, db.chats[c].matchId, db.chats[c].updatedAt, if newest == [] then None else Some(newest[0]), FindOther(seats, u))
  }

  lemma {:induction false} FindOtherFinds(seats: seq<Id>, u: Id)
    ensures FindOther(seats, u).Some? ==> FindOther(seats, u).value in Elements(seats) && FindOther(seats, u).value != u
    ensures FindOther(seats, u).None? <==> forall v :: v in Elements(seats) ==> v == u
  {
    if seats != [] {
      FindOtherFinds(seats[1..], u);
      assert Elements(seats) == {seats[0]} + Elements(seats[1..]);
    }
  }

  /** Whoever sits in a chat sits there with the match partner, or alone once the match is gone. */
  lemma SeatedWithPartner(db: Db, c: Id, u: Id)
    requires Consistent(db) && c in ChatsOf(db, u)
    ensures c in db.chats && u in Members(db, c)
    ensures match db.chats[c].matchId
            case Some(m) => exists v :: v != u && MatchOf(db, m, u, v) && Members(db, c) == {u, v}
            case None => Members(db, c) == {u}
  {
    assert (c, u) in db.participants;
    var f := db.founded[c];
    assert SoundChat(db, db.chats[c], f);
    match db.chats[c].matchId
    case Some(m) =>
      OpenChatMembers(db, c, m);
      var v := if f.user1 == u then f.user2 else f.user1;
      assert MatchOf(db, m, u, v) && Members(db, c) == {u, v};
    case None =>
      forall v | v in Members(db, c) ensures v == u {
        assert (c, v) in db.participants;
      }
  }

  /** The second statement of `getMyChats`: the chats whose ids the first one read. */
  function Picked(db: Db, ids: set<Id>): set<Id> {
    set c | c in db.chats && c in ids
  }

  /** A seat read by the first statement is still a seat when the second runs, or its account is gone by then and with it
      the match. */
  lemma SeatBetweenReads(db: Db, later: Db, c: Id, u: Id)
    requires Consistent(db) && Consistent(later) && Later(db, later) && c in ChatsOf(db, u)
    ensures c in db.chats && c in later.chats
    ensures u !in later.gone ==> c in ChatsOf(later, u)
    ensures u in later.gone ==> later.chats[c].matchId.None?
  {
    assert (c, u) in db.participants && Founder(db.founded[c], u);
    assert SoundChat(later, later.chats[c], later.founded[c]);
    assert later.chats[c].matchId.Some? ==> SoundMatch(later, later.matches[later.chats[c].matchId.value]);
  }

  lemma NewestMessage(db: Db, c: Id, newest: seq<Id>)
    requires Top(MessagesOf(db, c), MessageTimes(db), 1, newest)
    ensures newest == [] <==> MessagesOf(db, c) == {}
    ensures newest != [] ==>
              && newest[0] in MessagesOf(db, c)
              && forall m :: m in MessagesOf(db, c) ==> db.messages[m].createdAt <= db.messages[newest[0]].createdAt
  {
    TopLeaves(MessagesOf(db, c), MessageTimes(db), 1, newest);
    if newest != [] {
      assert newest[0] in Elements(newest);
      assert forall m :: m in newest ==> m == newest[0];
    }
  }

  /** A card, read when its chat was already on the user's list: a match means that the other participant is the match
      partner, no match means that there is no other, unless the reader was deleted between the two reads; the last message
      is missing exactly when the chat is empty, and otherwise is a newest one. */
  lemma ChatCardMeaning(ls: seq<Label>, between: seq<Label>, c: Id, u: Id, seats: seq<Id>, newest: seq<Id>)
    requires var s := Run(INITIAL, ls);
             var db := Run(s, between).db;
             c in ChatsOf(s.db, u) && Elements(seats) == Members(db, c) && Top(MessagesOf(db, c), MessageTimes(db), 1, newest)
    ensures var db := Run(Run(INITIAL, ls), between).db;
            && c in db.chats
            && var card := CardOfChat(db, c, u, seats, newest);
               && card.id == c && card.matchId == db.chats[c].matchId && card.updatedAt == db.chats[c].updatedAt
               && (card.matchId.Some? ==> card.other.Some? && MatchOf(db, card.matchId.value, u, card.other.value))
               && (card.matchId.None? ==> card.other.None? || u in db.gone)
               && (card.lastMessage.None? <==> MessagesOf(db, c) == {})
               && (card.lastMessage.Some? ==>
                     && card.lastMessage.value in MessagesOf(db, c)
                     && forall m :: m in MessagesOf(db, c) ==>
                          db.messages[m].createdAt <= db.messages[card.lastMessage.value].createdAt)
  {
    ReachableIsSound(ls);
    var s := Run(INITIAL, ls);
    RunIsLater(s, between);
    RunKeepsInv(s, between);
    var db := Run(s, between).db;
    SeatBetweenReads(s.db, db, c, u);
    if u !in db.gone {
      SeatedWithPartner(db, c, u);
      FindOtherFinds(seats, u);
    }
    NewestMessage(db, c, newest);
  }

  /** Any seat at the second read in a chat that existed at the first was a seat at the first. */
  lemma SeatsAreOld(db: Db, later: Db, c: Id, u: Id)
    requires Consistent(db) && Consistent(later) && Later(db, later) && c in db.chats && u in Members(later, c)
    ensures u in Members(db, c)
  {
    assert (c, u) in later.participants && Founder(db.founded[c], u) && u !in db.gone;
    assert Seated(db, c, db.founded[c].user1) && Seated(db, c, db.founded[c].user2);
  }

  lemma RowsDescend(db: Db, picked: set<Id>, rows: seq<Id>)
    requires picked <= db.chats.Keys && Elements(rows) <= picked && Distinct(rows)
    requires (forall c :: c in rows ==> c in Activity(db)) && Descending(Activity(db), rows)
    ensures forall j, k :: 0 <= j < k < |rows| ==>
              rows[j] != rows[k] && rows[j] in db.chats && rows[k] in db.chats
              && db.chats[rows[j]].updatedAt >= db.chats[rows[k]].updatedAt
  {
    forall j, k | 0 <= j < k < |rows|
      ensures rows[j] in db.chats && rows[k] in db.chats && db.chats[rows[j]].updatedAt >= db.chats[rows[k]].updatedAt
    {
      assert rows[j] in Elements(rows) && rows[k] in Elements(rows);
      assert Activity(db)[rows[j]] >= Activity(db)[rows[k]];
    }
  }

  lemma PickedAreSeats(db: Db, later: Db, u: Id, rows: seq<Id>)
    requires Consistent(db) && Consistent(later) && Later(db, later)
    requires Elements(rows) == Picked(later, ChatsOf(db, u))
    ensures forall c :: c in rows <==> u in Members(db, c)
    ensures u !in later.gone ==> forall c :: c in rows ==> u in Members(later, c)
    ensures forall c :: u in Members(later, c) && c !in rows ==> c !in db.chats
  {
    forall c
      ensures c in rows <==> u in Members(db, c)
      ensures c in rows && u !in later.gone ==> u in Members(later, c)
    {
      assert c in rows <==> c in Elements(rows);
      assert u in Members(db, c) <==> (c, u) in db.participants;
      if c in ChatsOf(db, u) {
        SeatBetweenReads(db, later, c, u);
      }
    }
    forall c | u in Members(later, c) && c in db.chats ensures c in rows {
      SeatsAreOld(db, later, c, u);
    }
  }

  /** The chat list, read in two statements: exactly the chats the user sat in at the first read, each once, most recent
      activity at the second read first. The user still sits in all of them, unless deleted in between, and misses only
      chats founded in between. */
  lemma ChatListMeaning(ls: seq<Label>, between: seq<Label>, u: Id, rows: seq<Id>)
    requires var s := Run(INITIAL, ls);
             var db := Run(s, between).db;
             var picked := Picked(db, ChatsOf(s.db, u));
             Top(picked, Activity(db), |picked|, rows)
    ensures var s := Run(INITIAL, ls);
            var db := Run(s, between).db;
            && (forall c :: c in rows <==> u in Members(s.db, c))
            && (u !in db.gone ==> forall c :: c in rows ==> u in Members(db, c))
            && (forall c :: u in Members(db, c) && c !in rows ==> c !in s.db.chats)
            && (forall j, k :: 0 <= j < k < |rows| ==>
                  rows[j] != rows[k] && rows[j] in db.chats && rows[k] in db.chats
                  && db.chats[rows[j]].updatedAt >= db.chats[rows[k]].updatedAt)
  {
    ReachableIsSound(ls);
    var s := Run(INITIAL, ls);
    RunIsLater(s, between);
    RunKeepsInv(s, between);
    var db := Run(s, between).db;
    var picked := Picked(db, ChatsOf(s.db, u));
    TopLeaves(picked, Activity(db), |picked|, rows);
    PickedAreSeats(s.db, db, u, rows);
    RowsDescend(db, picked, rows);
  }

}
