/** Why "no lost match" needs requests to run to completion: what a process crash between the record write and
    the match write of a swipe leaves behind, for good. */
module Crash {
  import opened Base
  import opened Schema
  import opened Requests
  import opened Safety

  /** A crash forgets every request in flight and disconnects every socket; the store survives. */
  function Restart(s: State): State {
    s.(inflight := map[], rooms := {})
  }

  /** The two like each other, or one of them is gone, and nothing is under way to match them. */
  ghost predicate Stranded(s: State, a: Id, b: Id) {
    a != b && !Matched(s.db, a, b) && !SomeoneDecides(s, a, b) && (Mutual(s.db, a, b) || Lost(s.db, a, b))
  }

  /** Only the request deciding a pair can create its match. */
  lemma OtherMatchesStayOut(db: Db, rooms: set<(Socket, Id)>, pc: Pc, env: Env, a: Id, b: Id)
    requires pc.MatchInsert? && !Deciding(pc, a, b) && !Matched(db, a, b)
    ensures !Matched(ExecSwipe(db, rooms, pc, env).db, a, b)
  {
    SortedForgetsOrder(pc.u, pc.t);
    var after := ExecSwipe(db, rooms, pc, env).db;
    forall m ensures !MatchOf(after, m, a, b) {
      assert !MatchOf(db, m, a, b);
    }
  }

  lemma OthersStayOthers(db: Db, rooms: set<(Socket, Id)>, pc: Pc, env: Env)
    requires !IsSwipe(pc)
    ensures var next := Exec(db, rooms, pc, env).next.pc; next.Some? ==> !IsSwipe(next.value)
  {
  }

  /** "Already swiped" refuses the retry: both record writes fail, so no step starts deciding the pair. */
  lemma NobodyStartsDeciding(db: Db, rooms: set<(Socket, Id)>, pc: Pc, env: Env, a: Id, b: Id)
    requires UsersOk(db) && !Deciding(pc, a, b) && (Mutual(db, a, b) || Lost(db, a, b))
    ensures var next := Exec(db, rooms, pc, env).next.pc; next.Some? ==> !Deciding(next.value, a, b)
  {
    if !IsSwipe(pc) {
      OthersStayOthers(db, rooms, pc, env);
    }
  }

  lemma NobodyCreatesTheMatch(db: Db, rooms: set<(Socket, Id)>, pc: Pc, env: Env, a: Id, b: Id)
    requires !Deciding(pc, a, b) && !Matched(db, a, b)
    ensures !Matched(Exec(db, rooms, pc, env).db, a, b)
  {
    if pc.MatchInsert? {
      OtherMatchesStayOut(db, rooms, pc, env, a, b);
    } else if IsSwipe(pc) {
      assert forall m :: MatchOf(ExecSwipe(db, rooms, pc, env).db, m, a, b) <==> MatchOf(db, m, a, b);
    } else {
      OthersKeepLikes(db, rooms, pc, env);
      LikesUnchanged(db, Exec(db, rooms, pc, env).db, a, b);
    }
  }

  lemma StableMutual(db: Db, later: Db, a: Id, b: Id)
    requires Later(db, later) && (Mutual(db, a, b) || Lost(db, a, b))
    ensures Mutual(later, a, b) || Lost(later, a, b)
  {
  }

  lemma AdvanceKeepsStranded(s: State, i: nat, env: Env, a: Id, b: Id)
    requires EachOk(s) && Stranded(s, a, b) && i in s.inflight && Fresh(s.db, env.id)
    ensures Stranded(Step(s, Advance(i, env)), a, b)
  {
    var pc := s.inflight[i];
    var s' := Step(s, Advance(i, env));
    ExecIsSound(s.db, s.rooms, pc, env);
    NobodyStartsDeciding(s.db, s.rooms, pc, env, a, b);
    NobodyCreatesTheMatch(s.db, s.rooms, pc, env, a, b);
    StableMutual(s.db, s'.db, a, b);
    forall j | j in s'.inflight ensures !Deciding(s'.inflight[j], a, b) {
      assert j != i ==> j in s.inflight && s'.inflight[j] == s.inflight[j];
    }
  }

  lemma FewerMatches(db: Db, after: Db, a: Id, b: Id)
    requires AddsNoLikes(db, after) && !Matched(db, a, b)
    ensures !Matched(after, a, b)
  {
    assert forall m :: MatchOf(after, m, a, b) ==> MatchOf(db, m, a, b);
  }

  lemma StoreKeepsStranded(s: State, after: Db, a: Id, b: Id)
    requires EachOk(s) && Stranded(s, a, b) && Sound(s.db, after) && AddsNoLikes(s.db, after)
    ensures EachOk(s.(db := after)) && Stranded(s.(db := after), a, b)
  {
    SoundKeepsEach(s, after);
    StableMutual(s.db, after, a, b);
    FewerMatches(s.db, after, a, b);
    var s' := s.(db := after);
    assert SomeoneDecides(s', a, b) ==> SomeoneDecides(s, a, b);
  }

  lemma ArriveKeepsStranded(s: State, i: nat, pc: Pc, a: Id, b: Id)
    requires Stranded(s, a, b)
    ensures Stranded(Step(s, Arrive(i, pc)), a, b)
  {
    var s' := Step(s, Arrive(i, pc));
    assert forall j :: j in s'.inflight && Deciding(s'.inflight[j], a, b) ==> j in s.inflight && Deciding(s.inflight[j], a, b);
  }

  lemma StepKeepsStranded(s: State, l: Label, a: Id, b: Id)
    requires EachOk(s) && Stranded(s, a, b)
    ensures EachOk(Step(s, l)) && Stranded(Step(s, l), a, b)
  {
    match l
    case Arrive(i, pc) =>
      ArriveKeepsEach(s, i, pc);
      ArriveKeepsStranded(s, i, pc, a, b);
    case Advance(i, env) =>
      if i in s.inflight && Fresh(s.db, env.id) {
        AdvanceKeepsEach(s, i, env);
        AdvanceKeepsStranded(s, i, env, a, b);
      }
    case Register(u, now) =>
      if CreateUser(s.db, u, now).Some? {
        CreateUserIsSound(s.db, u, now);
        StoreKeepsStranded(s, CreateUser(s.db, u, now).value, a, b);
      }
    case AddProfile(u, name) =>
      if CreateProfile(s.db, u, name).Some? {
        CreateProfileIsSound(s.db, u, name);
        StoreKeepsStranded(s, CreateProfile(s.db, u, name).value, a, b);
      }
    case Delete(u) =>
      if DeleteUser(s.db, u).Some? {
        DeleteUserIsSound(s.db, u);
        StoreKeepsStranded(s, DeleteUser(s.db, u).value, a, b);
      }
    case Disconnect(socket) =>
      assert Step(s, l).inflight == s.inflight;
      assert SomeoneDecides(Step(s, l), a, b) ==> SomeoneDecides(s, a, b);
  }

  lemma {:induction false} RunKeepsStranded(s: State, ls: seq<Label>, a: Id, b: Id)
    requires EachOk(s) && Stranded(s, a, b)
    ensures Stranded(Run(s, ls), a, b)
    decreases |ls|
  {
    if ls != [] {
      StepKeepsStranded(s, ls[0], a, b);
      RunKeepsStranded(Step(s, ls[0]), ls[1..], a, b);
    }
  }

  /** After a crash a mutual like becomes a match in some continuation if and only if it was one already. */
  lemma CrashStrandsLikes(before: seq<Label>, a: Id, b: Id)
    requires Mutual(Run(INITIAL, before).db, a, b)
    ensures var s := Restart(Run(INITIAL, before));
            (exists after :: Matched(Run(s, after).db, a, b)) <==> Matched(s.db, a, b)
  {
    ReachableIsSound(before);
    var s := Restart(Run(INITIAL, before));
    if Matched(s.db, a, b) {
      assert Run(s, []) == s;
    } else {
      assert EachOk(s);
      forall after ensures !Matched(Run(s, after).db, a, b) {
        RunKeepsStranded(s, after, a, b);
      }
    }
  }

  // ---- a crash that strands a like ----

  /** Two opposite likes whose records are both written before either request reads the other's. */
  lemma BothRecordsFirst(s: State, i: nat, j: nat, a: Id, b: Id, x: Env, y: Env)
    requires Inv(s) && a in s.db.users && b in s.db.users && (a, b) !in s.db.swipes && (b, a) !in s.db.swipes
    requires i != j && i in s.inflight && j in s.inflight
    requires s.inflight[i] == SwipeInsert(a, b, Like) && s.inflight[j] == SwipeInsert(b, a, Like)
    requires Fresh(s.db, x.id) && Fresh(s.db, y.id)
    ensures var both := Step(Step(s, Advance(i, x)), Advance(j, y)); Mutual(both.db, a, b) && !Matched(both.db, a, b)
  {
    assert PcOk(s.db, s.inflight[i]);
    var one := Step(s, Advance(i, x));
    var both := Step(one, Advance(j, y));
    assert one.db == s.db.(swipes := s.db.swipes[(a, b) := Like]);
    assert both.db == one.db.(swipes := one.db.swipes[(b, a) := Like]);
    forall m ensures !MatchOf(both.db, m, a, b) {
      assert MatchOf(s.db, m, a, b) ==> SoundMatch(s.db, s.db.matches[m]);
    }
  }

  /** A swipe that arrives and looks: nothing was recorded before, so its own record comes next. */
  lemma SwipeReachesInsert(s: State, i: nat, u: Id, t: Id, env: Env)
    requires i !in s.inflight && i !in s.replies && Fresh(s.db, env.id) && u != t && (u, t) !in s.db.swipes
    ensures Step(Step(s, Arrive(i, SwipeLookup(u, t, Like))), Advance(i, env)) ==
            s.(inflight := s.inflight[i := SwipeInsert(u, t, Like)])
  {
    var arrived := Step(s, Arrive(i, SwipeLookup(u, t, Like)));
    assert arrived.inflight[i := SwipeInsert(u, t, Like)] == s.inflight[i := SwipeInsert(u, t, Like)];
    assert arrived.events + multiset{} == s.events;
  }

  /** For any two users there is a run after which a crash strands their likes for good. */
  lemma CrashCanStrand(a: Id, b: Id) returns (before: seq<Label>)
    requires a != b
    ensures Mutual(Run(INITIAL, before).db, a, b)
    ensures forall after :: !Matched(Run(Restart(Run(INITIAL, before)), after).db, a, b)
  {
    var env := Env("", 0, 0, "");
    var joined := [Register(a, 0), Register(b, 0)];
    var ofA := [Arrive(0, SwipeLookup(a, b, Like)), Advance(0, env)];
    var ofB := [Arrive(1, SwipeLookup(b, a, Like)), Advance(1, env)];
    var records := [Advance(0, env), Advance(1, env)];
    before := joined + ofA + ofB + records;

    var s0 := Run(INITIAL, joined);
    TwoSteps(INITIAL, Register(a, 0), Register(b, 0));
    assert s0 == INITIAL.(db := EMPTY.(users := map[a := 0][b := 0]));
    SwipeReachesInsert(s0, 0, a, b, env);
    TwoSteps(s0, ofA[0], ofA[1]);
    var s1 := s0.(inflight := s0.inflight[0 := SwipeInsert(a, b, Like)]);
    SwipeReachesInsert(s1, 1, b, a, env);
    TwoSteps(s1, ofB[0], ofB[1]);
    var s2 := s1.(inflight := s1.inflight[1 := SwipeInsert(b, a, Like)]);
    TwoSteps(s2, records[0], records[1]);
    RunJoins(INITIAL, joined, ofA);
    RunJoins(INITIAL, joined + ofA, ofB);
    RunJoins(INITIAL, joined + ofA + ofB, records);
    ReachableIsSound(joined + ofA + ofB);
    BothRecordsFirst(s2, 0, 1, a, b, env, env);
    CrashStrandsLikes(before, a, b);
  }
}
