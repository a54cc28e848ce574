/** How swiping drains the discovery feed: every swipe on a card commits, so a round takes exactly its cards. */
module Drain {
  import opened Base
  import opened Query
  import opened Schema
  import opened Requests
  import opened Safety
  import opened Discovery
  import Alone
  import Promises

  // ---- what other requests leave alone ----

  predicate NobodyMoves(l: Label) {
    !l.Register? && !l.AddProfile? && !l.Delete?
  }

  predicate Stores(pc: Pc, u: Id, v: Id) {
    pc.SwipeInsert? && pc.u == u && pc.t == v
  }

  lemma CreateMatchWrites(db: Db, m: Id, user1: Id, user2: Id, now: Time)
    ensures var after := CreateMatch(db, m, user1, user2, now);
            after.Some? ==>
              after.value.users == db.users && after.value.profiles == db.profiles && after.value.swipes == db.swipes
  {
  }

  lemma MatchWrites(db: Db, rooms: set<(Socket, Id)>, pc: Pc, env: Env)
    requires pc.MatchInsert?
    ensures var after := ExecSwipe(db, rooms, pc, env).db;
            after.users == db.users && after.profiles == db.profiles && after.swipes == db.swipes
  {
    CreateMatchWrites(db, env.id, Sorted(pc.u, pc.t).0, Sorted(pc.u, pc.t).1, env.now);
  }

  lemma SwipeWrites(db: Db, rooms: set<(Socket, Id)>, pc: Pc, env: Env)
    requires IsSwipe(pc)
    ensures var after := ExecSwipe(db, rooms, pc, env).db;
            && after.users == db.users && after.profiles == db.profiles
            && (after.swipes == db.swipes
                || (pc.SwipeInsert? && (pc.u, pc.t) !in db.swipes && after.swipes == db.swipes[(pc.u, pc.t) := pc.action]))
  {
    if pc.MatchInsert? {
      MatchWrites(db, rooms, pc, env);
    }
  }

  lemma OpenWrites(db: Db, rooms: set<(Socket, Id)>, pc: Pc, env: Env)
    requires IsOpen(pc)
    ensures var after := ExecOpen(db, rooms, pc, env).db;
            after.users == db.users && after.profiles == db.profiles && after.swipes == db.swipes
  {
  }

  lemma SendWrites(db: Db, rooms: set<(Socket, Id)>, pc: Pc, env: Env)
    requires IsSend(pc)
    ensures var after := ExecSend(db, rooms, pc, env).db;
            after.users == db.users && after.profiles == db.profiles && after.swipes == db.swipes
  {
  }

  /** No request touches accounts or profiles, and only a swipe's own record write touches the swipes. */
  lemma ExecWrites(db: Db, rooms: set<(Socket, Id)>, pc: Pc, env: Env)
    ensures var after := Exec(db, rooms, pc, env).db;
            && after.users == db.users && after.profiles == db.profiles && db.swipes.Keys <= after.swipes.Keys
            && forall p: (Id, Id) :: !Stores(pc, p.0, p.1) ==>
                 (p in after.swipes <==> p in db.swipes) && (p in db.swipes ==> after.swipes[p] == db.swipes[p])
  {
    if IsSwipe(pc) {
      SwipeWrites(db, rooms, pc, env);
    } else if IsOpen(pc) {
      OpenWrites(db, rooms, pc, env);
    } else if IsSend(pc) {
      SendWrites(db, rooms, pc, env);
    }
  }

  lemma StepKeepsAccounts(s: State, l: Label)
    requires NobodyMoves(l)
    ensures var db := Step(s, l).db; db.users == s.db.users && db.profiles == s.db.profiles && s.db.swipes.Keys <= db.swipes.Keys
  {
    if l.Advance? && l.i in s.inflight {
      ExecWrites(s.db, s.rooms, s.inflight[l.i], l.env);
    }
  }

  // ---- one swipe on one card ----

  /** The reader's request `i` swipes card `v`. */
  datatype Swipe = Swipe(i: nat, v: Id, action: Action)

  predicate Pending(pc: Pc, u: Id) {
    (pc.SwipeLookup? || pc.SwipeInsert?) && pc.u == u
  }

  predicate PendingFor(pc: Pc, u: Id, w: Swipe) {
    pc == SwipeLookup(u, w.v, w.action) || pc == SwipeInsert(u, w.v, w.action)
  }

  predicate Recorded(db: Db, u: Id, w: Swipe) {
    (u, w.v) in db.swipes && db.swipes[(u, w.v)] == w.action
  }

  /** The record is missing until the request has passed its own write, and stored from then on. */
  predicate Progress(s: State, u: Id, w: Swipe) {
    if w.i in s.inflight && PendingFor(s.inflight[w.i], u, w) then
      w.i !in s.replies && (u, w.v) !in s.db.swipes
    else if w.i in s.inflight then
      Recorded(s.db, u, w) && IsSwipe(s.inflight[w.i]) && !s.inflight[w.i].SwipeLookup? && !s.inflight[w.i].SwipeInsert?
    else if w.i in s.replies then Recorded(s.db, u, w)
    else (u, w.v) !in s.db.swipes
  }

  lemma RecordCommits(s: State, u: Id, w: Swipe, env: Env)
    requires w.i in s.inflight && s.inflight[w.i] == SwipeInsert(u, w.v, w.action) && Fresh(s.db, env.id)
    requires (u, w.v) !in s.db.swipes && u in s.db.users && w.v in s.db.users
    ensures Progress(Step(s, Advance(w.i, env)), u, w)
  {
    var after := s.db.(swipes := s.db.swipes[(u, w.v) := w.action]);
    assert ExecSwipe(s.db, s.rooms, s.inflight[w.i], env) ==
           Still(after, s.rooms, if w.action == Like then Goto(ReadBack(u, w.v)) else Done(Reply.Swiped(None)));
  }

  lemma LaterStepsKeepRecord(s: State, u: Id, w: Swipe, env: Env)
    requires Progress(s, u, w) && w.i in s.inflight && !PendingFor(s.inflight[w.i], u, w) && Fresh(s.db, env.id)
    ensures Progress(Step(s, Advance(w.i, env)), u, w)
  {
    var pc := s.inflight[w.i];
    SwipeWrites(s.db, s.rooms, pc, env);
    var next := ExecSwipe(s.db, s.rooms, pc, env).next;
    assert next.pc.Some? ==> next.pc.value.MatchInsert? || next.pc.value.Announce?;
    assert next.pc.None? ==> next.reply.Some?;
  }

  /** The lookup of a card passes and its insert commits; no later statement of the request undoes that. */
  lemma OwnStepProgresses(s: State, u: Id, w: Swipe, env: Env)
    requires Progress(s, u, w) && w.i in s.inflight && Fresh(s.db, env.id)
    requires u != w.v && u in s.db.users && w.v in s.db.users
    ensures Progress(Step(s, Advance(w.i, env)), u, w)
  {
    var pc := s.inflight[w.i];
    if pc == SwipeLookup(u, w.v, w.action) {
      assert ExecSwipe(s.db, s.rooms, pc, env) == Still(s.db, s.rooms, Goto(SwipeInsert(u, w.v, w.action)));
    } else if pc == SwipeInsert(u, w.v, w.action) {
      RecordCommits(s, u, w, env);
    } else {
      LaterStepsKeepRecord(s, u, w, env);
    }
  }

  lemma OthersKeepProgress(s: State, u: Id, w: Swipe, l: Label)
    requires Progress(s, u, w) && NobodyMoves(l)
    requires l.Advance? && l.i in s.inflight ==> l.i != w.i && !Stores(s.inflight[l.i], u, w.v)
    requires l.Arrive? && l.i == w.i ==> l.pc == SwipeLookup(u, w.v, w.action)
    ensures Progress(Step(s, l), u, w)
  {
    if l.Advance? && l.i in s.inflight {
      ExecWrites(s.db, s.rooms, s.inflight[l.i], l.env);
      assert !Stores(s.inflight[l.i], (u, w.v).0, (u, w.v).1);
    }
  }

  // ---- the reader's swipes among everybody else's requests ----

  /** Arrivals among `ls` that swipe for `u`, or use one of the request numbers, are exactly the listed swipes. */
  predicate Announced(l: Label, u: Id, swipes: seq<Swipe>) {
    l.Arrive? && (Pending(l.pc, u) || exists k :: 0 <= k < |swipes| && swipes[k].i == l.i) ==>
      exists k :: 0 <= k < |swipes| && l == Arrive(swipes[k].i, SwipeLookup(u, swipes[k].v, swipes[k].action))
  }

  predicate Separate(swipes: seq<Swipe>) {
    forall j, k :: 0 <= j < k < |swipes| ==> swipes[j].i != swipes[k].i && swipes[j].v != swipes[k].v
  }

  predicate OnCard(swipes: seq<Swipe>, v: Id) {
    exists k :: 0 <= k < |swipes| && swipes[k].v == v
  }

  predicate ListedRequest(i: nat, pc: Pc, u: Id, swipes: seq<Swipe>) {
    exists k :: 0 <= k < |swipes| && swipes[k].i == i && PendingFor(pc, u, swipes[k])
  }

  ghost predicate UnderWay(start: Db, s: State, u: Id, swipes: seq<Swipe>) {
    && s.db.users == start.users
    && (forall k :: 0 <= k < |swipes| ==> Progress(s, u, swipes[k]))
    && (forall i :: i in s.inflight && Pending(s.inflight[i], u) ==> ListedRequest(i, s.inflight[i], u, swipes))
    && (forall v :: (u, v) in s.db.swipes ==> (u, v) in start.swipes || OnCard(swipes, v))
  }

  predicate CanSwipe(db: Db, u: Id, swipes: seq<Swipe>) {
    u in db.users && forall k :: 0 <= k < |swipes| ==> swipes[k].v in db.users && swipes[k].v != u
  }

  lemma StepProgresses(start: Db, s: State, l: Label, u: Id, swipes: seq<Swipe>, k: nat)
    requires UnderWay(start, s, u, swipes) && CanSwipe(start, u, swipes) && Separate(swipes)
    requires NobodyMoves(l) && Announced(l, u, swipes) && k < |swipes|
    ensures Progress(Step(s, l), u, swipes[k])
  {
    var w := swipes[k];
    if l.Advance? && l.i in s.inflight && l.i == w.i {
      if Fresh(s.db, l.env.id) {
        OwnStepProgresses(s, u, w, l.env);
      }
    } else {
      OthersKeepProgress(s, u, w, l);
    }
  }

  /** A request is about to store only what it was about to look up. */
  lemma PendingBefore(db: Db, rooms: set<(Socket, Id)>, pc: Pc, env: Env, u: Id)
    requires var next := Exec(db, rooms, pc, env).next.pc; next.Some? && Pending(next.value, u)
    ensures pc.SwipeLookup? && pc.u == u
    ensures Exec(db, rooms, pc, env).next.pc.value == SwipeInsert(u, pc.t, pc.action)
  {
  }

  lemma StepKeepsListed(start: Db, s: State, l: Label, u: Id, swipes: seq<Swipe>, i: nat)
    requires UnderWay(start, s, u, swipes) && NobodyMoves(l) && Announced(l, u, swipes)
    requires var t := Step(s, l); i in t.inflight && Pending(t.inflight[i], u)
    ensures ListedRequest(i, Step(s, l).inflight[i], u, swipes)
  {
    if l.Advance? && l.i == i && i in s.inflight && Fresh(s.db, l.env.id) {
      PendingBefore(s.db, s.rooms, s.inflight[i], l.env, u);
      var k :| 0 <= k < |swipes| && swipes[k].i == i && PendingFor(s.inflight[i], u, swipes[k]);
      assert PendingFor(Step(s, l).inflight[i], u, swipes[k]);
    } else if i in s.inflight {
      assert Step(s, l).inflight[i] == s.inflight[i];
    } else {
      var k :| 0 <= k < |swipes| && l == Arrive(swipes[k].i, SwipeLookup(u, swipes[k].v, swipes[k].action));
      assert PendingFor(l.pc, u, swipes[k]);
    }
  }

  lemma StepStoresACard(start: Db, s: State, l: Label, u: Id, swipes: seq<Swipe>, v: Id)
    requires UnderWay(start, s, u, swipes) && NobodyMoves(l)
    requires (u, v) !in s.db.swipes && (u, v) in Step(s, l).db.swipes
    ensures OnCard(swipes, v)
  {
    ExecWrites(s.db, s.rooms, s.inflight[l.i], l.env);
    assert !Stores(s.inflight[l.i], (u, v).0, (u, v).1) ==> false;
    var k :| 0 <= k < |swipes| && swipes[k].i == l.i && PendingFor(s.inflight[l.i], u, swipes[k]);
  }

  lemma StepKeepsUnderWay(start: Db, s: State, l: Label, u: Id, swipes: seq<Swipe>)
    requires UnderWay(start, s, u, swipes) && CanSwipe(start, u, swipes) && Separate(swipes)
    requires NobodyMoves(l) && Announced(l, u, swipes)
    ensures UnderWay(start, Step(s, l), u, swipes)
  {
    var t := Step(s, l);
    StepKeepsAccounts(s, l);
    forall k | 0 <= k < |swipes| ensures Progress(t, u, swipes[k]) {
      StepProgresses(start, s, l, u, swipes, k);
    }
    forall i | i in t.inflight && Pending(t.inflight[i], u) ensures ListedRequest(i, t.inflight[i], u, swipes) {
      StepKeepsListed(start, s, l, u, swipes, i);
    }
    forall v | (u, v) in t.db.swipes ensures (u, v) in start.swipes || OnCard(swipes, v) {
      if (u, v) !in s.db.swipes {
        StepStoresACard(start, s, l, u, swipes, v);
      }
    }
  }

  lemma {:induction false} RunKeepsUnderWay(start: Db, s: State, ls: seq<Label>, u: Id, swipes: seq<Swipe>)
    requires UnderWay(start, s, u, swipes) && CanSwipe(start, u, swipes) && Separate(swipes)
    requires forall l :: l in ls ==> NobodyMoves(l) && Announced(l, u, swipes)
    ensures UnderWay(start, Run(s, ls), u, swipes)
    ensures Run(s, ls).db.profiles == s.db.profiles && s.db.swipes.Keys <= Run(s, ls).db.swipes.Keys
    decreases |ls|
  {
    if ls != [] {
      assert ls[0] in ls;
      StepKeepsUnderWay(start, s, ls[0], u, swipes);
      StepKeepsAccounts(s, ls[0]);
      RunKeepsUnderWay(start, Step(s, ls[0]), ls[1..], u, swipes);
    }
  }

  // ---- rounds ----

  /** One round: the reader, with no swipe of theirs pending, gets a feed and sends one swipe request per card, with any
      actions. Everybody's steps interleave in `ls`, anybody may do anything except join, leave or gain a profile, and
      in the end the reader's requests have been answered, whatever the answers. */
  ghost predicate Round(s: State, ls: seq<Label>, u: Id, cards: seq<Id>, swipes: seq<Swipe>) {
    && u in s.db.users
    && Feed(s.db, s.db, u, cards)
    && (forall i :: i in s.inflight ==> !Pending(s.inflight[i], u))
    && |swipes| == |cards| && Separate(swipes)
    && (forall k :: 0 <= k < |swipes| ==>
          swipes[k].v == cards[k] && swipes[k].i !in s.inflight && swipes[k].i !in s.replies
          && swipes[k].i in Run(s, ls).replies)
    && (forall l :: l in ls ==> NobodyMoves(l) && Announced(l, u, swipes))
  }

  lemma FeedIsEligible(db: Db, u: Id, cards: seq<Id>)
    requires Feed(db, db, u, cards)
    ensures Elements(cards) <= Eligible(db, u) && Distinct(cards) && |cards| == Min(FEED_SIZE, |Eligible(db, u)|)
    ensures forall v :: v in cards ==> v in db.users && v != u && (u, v) !in db.swipes
  {
    forall v | v in cards ensures v in db.users && v != u && (u, v) !in db.swipes {
      assert v in Elements(cards);
      assert (u, v) in db.swipes ==> v in SwipedBy(db, u);
    }
  }

  /** Every swipe of a round commits, with the action the reader chose, and nothing else is recorded for the reader. */
  lemma SwipesCommit(s: State, ls: seq<Label>, u: Id, cards: seq<Id>, swipes: seq<Swipe>)
    requires Round(s, ls, u, cards, swipes)
    ensures var db := Run(s, ls).db;
            && db.users == s.db.users && db.profiles == s.db.profiles && s.db.swipes.Keys <= db.swipes.Keys
            && (forall k :: 0 <= k < |swipes| ==> Recorded(db, u, swipes[k]))
            && (forall v :: (u, v) in db.swipes && (u, v) !in s.db.swipes <==> v in cards)
  {
    var db := Run(s, ls).db;
    FeedIsEligible(s.db, u, cards);
    forall k | 0 <= k < |swipes| ensures swipes[k].v in s.db.users && swipes[k].v != u && Progress(s, u, swipes[k]) {
      assert cards[k] in cards;
    }
    RunKeepsUnderWay(s.db, s, ls, u, swipes);
    forall k | 0 <= k < |swipes| ensures Recorded(db, u, swipes[k]) {
      assert Progress(Run(s, ls), u, swipes[k]);
    }
    forall v ensures (u, v) in db.swipes && (u, v) !in s.db.swipes <==> v in cards {
      if v in cards {
        var k :| 0 <= k < |cards| && cards[k] == v;
        assert Recorded(db, u, swipes[k]);
      }
    }
  }

  lemma RoundTakesItsCards(s: State, ls: seq<Label>, u: Id, cards: seq<Id>, swipes: seq<Swipe>)
    requires Round(s, ls, u, cards, swipes)
    ensures Eligible(Run(s, ls).db, u) == Eligible(s.db, u) - Elements(cards)
    ensures Elements(cards) <= Eligible(s.db, u) && Distinct(cards) && |cards| == Min(FEED_SIZE, |Eligible(s.db, u)|)
  {
    FeedIsEligible(s.db, u, cards);
    SwipesCommit(s, ls, u, cards, swipes);
    var db, after := s.db, Run(s, ls).db;
    forall v ensures v in SwipedBy(db, u) <==> (u, v) in db.swipes {
    }
    forall v ensures v in SwipedBy(after, u) <==> (u, v) in after.swipes {
    }
    assert forall v :: v in Elements(cards) <==> v in cards;
  }

  /** Consecutive rounds: `states[k]` is where the k-th feed is read. */
  ghost predicate Rounds(states: seq<State>, runs: seq<seq<Label>>, u: Id, feeds: seq<seq<Id>>, swipes: seq<seq<Swipe>>) {
    && |runs| == |feeds| && |swipes| == |feeds| && |states| == |feeds| + 1
    && forall k :: 0 <= k < |feeds| ==>
         states[k + 1] == Run(states[k], runs[k]) && Round(states[k], runs[k], u, feeds[k], swipes[k])
  }

  ghost function Pools(states: seq<State>, u: Id): seq<set<Id>> {
    seq(|states|, k requires 0 <= k < |states| => Eligible(states[k].db, u))
  }

  lemma RoundsDrainPools(states: seq<State>, runs: seq<seq<Label>>, u: Id, feeds: seq<seq<Id>>, swipes: seq<seq<Swipe>>)
    requires Rounds(states, runs, u, feeds, swipes)
    ensures Draining(Pools(states, u), feeds, FEED_SIZE)
  {
    forall k | 0 <= k < |feeds| ensures Takes(Pools(states, u)[k], Pools(states, u)[k + 1], feeds[k], FEED_SIZE) {
      RoundTakesItsCards(states[k], runs[k], u, feeds[k], swipes[k]);
    }
  }

  lemma EligibleMeaning(db: Db, u: Id)
    ensures Eligible(db, u) == set v | v in db.users && v in db.profiles && v != u && (u, v) !in db.swipes
  {
    forall v ensures v in SwipedBy(db, u) <==> (u, v) in db.swipes {
    }
  }

  /** After r rounds the reader has seen min(n, 20 r) of the n users eligible at first, none twice; so everybody has
      been shown exactly once as soon as 20 r >= n. The k-th feed, counting from zero, is empty exactly when
      20 k >= n, so the first empty one comes after exactly ceil(n / 20) rounds. */
  lemma FeedDrains(states: seq<State>, runs: seq<seq<Label>>, u: Id, feeds: seq<seq<Id>>, swipes: seq<seq<Swipe>>)
    requires Rounds(states, runs, u, feeds, swipes)
    ensures var db := states[0].db;
            var pool := set v | v in db.users && v in db.profiles && v != u && (u, v) !in db.swipes;
            && (forall j, k :: 0 <= j < k < |Flat(feeds)| ==> Flat(feeds)[j] != Flat(feeds)[k])
            && (forall v :: v in Flat(feeds) ==> v in pool)
            && |Flat(feeds)| == (if |pool| <= 20 * |feeds| then |pool| else 20 * |feeds|)
            && (|pool| <= 20 * |feeds| ==> forall v :: v in pool ==> v in Flat(feeds))
            && (forall k :: 0 <= k < |feeds| ==> (feeds[k] == [] <==> |pool| <= 20 * k))
  {
    EligibleMeaning(states[0].db, u);
    RoundsDrainPools(states, runs, u, feeds, swipes);
    assert forall v :: v in Flat(feeds) <==> v in Elements(Flat(feeds));
    DrainsInOrder(Pools(states, u), feeds, FEED_SIZE);
    forall k | 0 <= k < |feeds| ensures feeds[k] == [] <==> |Pools(states, u)[0]| <= FEED_SIZE * k {
      PoolAfter(Pools(states, u), feeds, FEED_SIZE, k);
      assert Takes(Pools(states, u)[k], Pools(states, u)[k + 1], feeds[k], FEED_SIZE);
    }
  }

  // ---- such runs exist ----

  /** A swipe sent and stepped on its own: it is answered, and has the effect of the undisturbed call. */
  lemma SwipeRun(s: State, i: nat, u: Id, t: Id, action: Action, env: Env, later: Env) returns (ls: seq<Label>)
    requires i !in s.inflight && i !in s.replies && Fresh(s.db, env.id) && Alone.FreshAfter(s.db, env, later)
    ensures Run(s, ls) == Alone.Finish(s, i, Alone.SwipeAlone(s.db, u, t, action, env))
    ensures forall l :: l in ls ==> l == Arrive(i, SwipeLookup(u, t, action)) || StepOf(l, i)
  {
    var entry := Arrive(i, SwipeLookup(u, t, action));
    var arrived := Step(s, entry);
    var envs := [env, env, env, env, later];
    var steps := seq(|envs|, k requires 0 <= k < |envs| => Advance(i, envs[k]));
    ls := [entry] + steps;
    Alone.SwipeIsItsSteps(arrived, i, u, t, action, env, env, env, env, later);
    Alone.PlayIsARun(arrived, i, envs);
    assert ls[1..] == steps;
    assert arrived.inflight - {i} == s.inflight - {i};
  }

  lemma {:induction false} RunKeepsReplies(s: State, ls: seq<Label>, i: nat)
    requires i in s.replies
    ensures i in Run(s, ls).replies
    decreases |ls|
  {
    if ls != [] {
      RunKeepsReplies(Step(s, ls[0]), ls[1..], i);
    }
  }

  ghost predicate Supply(db: Db, ids: seq<Id>) {
    Distinct(ids) && forall k :: 0 <= k < |ids| ==> Fresh(db, ids[k])
  }

  lemma SwipeUsesOneId(s: State, i: nat, u: Id, t: Id, action: Action, env: Env, ids: seq<Id>)
    requires Supply(s.db, ids) && env.id !in ids
    ensures Supply(Alone.SwipeAlone(s.db, u, t, action, env).db, ids)
  {
  }

  predicate Unused(s: State, swipes: seq<Swipe>) {
    forall k :: 0 <= k < |swipes| ==> swipes[k].i !in s.inflight && swipes[k].i !in s.replies
  }

  predicate SwipesOnly(ls: seq<Label>, u: Id, swipes: seq<Swipe>) {
    forall l :: l in ls ==>
      l.Advance? || exists k :: 0 <= k < |swipes| && l == Arrive(swipes[k].i, SwipeLookup(u, swipes[k].v, swipes[k].action))
  }

  /** The swipes sent one after another, each answered before the next. */
  lemma {:induction false} SwipeAll(s: State, u: Id, swipes: seq<Swipe>, ids: seq<Id>) returns (ls: seq<Label>)
    requires Unused(s, swipes) && Separate(swipes) && Supply(s.db, ids) && |ids| == 2 * |swipes|
    ensures SwipesOnly(ls, u, swipes)
    ensures forall k :: 0 <= k < |swipes| ==> swipes[k].i in Run(s, ls).replies
    decreases |swipes|
  {
    if swipes == [] {
      ls := [];
    } else {
      var w, env, later := swipes[0], Env(ids[0], 0, 0, ""), Env(ids[1], 0, 0, "");
      var first := SwipeRun(s, w.i, u, w.v, w.action, env, later);
      var s' := Run(s, first);
      assert Supply(s.db, ids[2..]) && env.id !in ids[2..];
      SwipeUsesOneId(s, w.i, u, w.v, w.action, env, ids[2..]);
      assert Unused(s', swipes[1..]);
      var rest := SwipeAll(s', u, swipes[1..], ids[2..]);
      ls := first + rest;
      RunJoins(s, first, rest);
      RunKeepsReplies(s', rest, w.i);
      forall k | 0 <= k < |swipes| ensures swipes[k].i in Run(s, ls).replies {
        assert k > 0 ==> swipes[k] == swipes[1..][k - 1];
      }
      forall l | l in ls
        ensures l.Advance? || exists k :: 0 <= k < |swipes| && l == Arrive(swipes[k].i, SwipeLookup(u, swipes[k].v, swipes[k].action))
      {
        if l in rest && !l.Advance? {
          var k :| 0 <= k < |swipes[1..]| && l == Arrive(swipes[1..][k].i, SwipeLookup(u, swipes[1..][k].v, swipes[1..][k].action));
          assert swipes[k + 1] == swipes[1..][k];
        }
      }
    }
  }

  /** Whatever the feed shows and whatever the reader chooses, there is a round. */
  lemma RoundExists(s: State, u: Id, cards: seq<Id>, swipes: seq<Swipe>, ids: seq<Id>) returns (ls: seq<Label>)
    requires u in s.db.users && Feed(s.db, s.db, u, cards) && forall i :: i in s.inflight ==> !Pending(s.inflight[i], u)
    requires |swipes| == |cards| && forall k :: 0 <= k < |cards| ==> swipes[k].v == cards[k]
    requires forall j, k :: 0 <= j < k < |swipes| ==> swipes[j].i != swipes[k].i
    requires Unused(s, swipes) && Supply(s.db, ids) && |ids| == 2 * |swipes|
    ensures Round(s, ls, u, cards, swipes)
  {
    FeedIsEligible(s.db, u, cards);
    ls := SwipeAll(s, u, swipes, ids);
  }

  /** The store of two users, the second with a profile and a like for the first. */
  function LikedBack(u: Id, v: Id): Db {
    EMPTY.(users := map[u := 0, v := 0], profiles := map[v := ""], swipes := map[(v, u) := Like])
  }

  lemma LikesBack(u: Id, v: Id) returns (ls: seq<Label>)
    requires u != v
    ensures Run(INITIAL, ls).db == LikedBack(u, v) && Run(INITIAL, ls).inflight == map[]
    ensures 1 !in Run(INITIAL, ls).replies
  {
    var joined := [Register(u, 0), Register(v, 0)];
    var s0 := INITIAL.(db := LikedBack(u, v).(swipes := map[]));
    TwoSteps(INITIAL, joined[0], joined[1]);
    RunExtends(INITIAL, joined, AddProfile(v, ""));
    assert Run(INITIAL, joined + [AddProfile(v, "")]) == s0;
    var env := Env("m", 0, 0, "");
    var likesBack := SwipeRun(s0, 0, v, u, Like, env, Env("n", 0, 0, ""));
    ls := joined + [AddProfile(v, "")] + likesBack;
    RunJoins(INITIAL, joined + [AddProfile(v, "")], likesBack);
    assert Alone.SwipeAlone(s0.db, v, u, Like, env).db == LikedBack(u, v);
  }

  lemma LikeKeepsAccounts(db: Db, u: Id, v: Id, env: Env)
    ensures var after := Alone.LikeAlone(db, u, v, env).db; after.users == db.users && after.profiles == db.profiles
  {
    CreateMatchWrites(db, env.id, Sorted(u, v).0, Sorted(u, v).1, env.now);
  }

  lemma LikingMatches(u: Id, v: Id, env: Env)
    requires u != v
    ensures var after := Alone.SwipeAlone(LikedBack(u, v), u, v, Like, env).db;
            && Matched(after, u, v)
            && after.users == LikedBack(u, v).users && after.profiles == LikedBack(u, v).profiles
  {
    var db := LikedBack(u, v);
    var liked := db.(swipes := db.swipes[(u, v) := Like]);
    assert Alone.SwipeAlone(db, u, v, Like, env) == Alone.LikeAlone(liked, u, v, env);
    Promises.AfterLike(liked, u, v, env);
    LikeKeepsAccounts(liked, u, v, env);
  }

  lemma OnlyTheOther(u: Id, v: Id, after: Db)
    requires u != v && after.users == LikedBack(u, v).users && after.profiles == LikedBack(u, v).profiles
    ensures Feed(LikedBack(u, v), after, u, [v])
  {
    assert Pool(after, u, SwipedBy(LikedBack(u, v), u)) == {v};
    assert Elements([v]) == {v};
  }

  /** The two reads of the feed can straddle a match: for any two users there is a run whose feed shows a match
      partner. */
  lemma PartnerIsShown(u: Id, v: Id) returns (ls: seq<Label>, between: seq<Label>)
    requires u != v
    ensures var s := Run(INITIAL, ls);
            var t := Run(s, between);
            Matched(t.db, u, v) && Feed(s.db, t.db, u, [v])
  {
    var env := Env("m", 0, 0, "");
    ls := LikesBack(u, v);
    between := SwipeRun(Run(INITIAL, ls), 1, u, v, Like, env, Env("n", 0, 0, ""));
    LikingMatches(u, v, env);
    OnlyTheOther(u, v, Run(Run(INITIAL, ls), between).db);
  }
}
