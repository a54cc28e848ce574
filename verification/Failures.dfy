/** What a request that answers with a failure has done: when a call that opens a chat loses the create race, and which
    failed requests left something behind. */
module Failures {
  import opened Base
  import opened Schema
  import opened Requests
  import opened Safety
  import opened Guarantees

  // ---- writes that come too late ----

  /** A swipe's record write fails exactly if the record is there already or an account is missing. */
  lemma RecordFailsIff(db: Db, rooms: set<(Socket, Id)>, u: Id, t: Id, action: Action, env: Env)
    ensures Exec(db, rooms, SwipeInsert(u, t, action), env).next == Fail(KeyViolation)
            <==> (u, t) in db.swipes || u !in db.users || t !in db.users
  {
  }

  /** A match write fails exactly if the two are matched already or an account is gone. */
  lemma MatchWriteFailsIff(ls: seq<Label>, i: nat, env: Env)
    requires var s := Run(INITIAL, ls); i in s.inflight && s.inflight[i].MatchInsert? && Fresh(s.db, env.id)
    ensures var s := Run(INITIAL, ls);
            var pc := s.inflight[i];
            Exec(s.db, s.rooms, pc, env).next == Fail(KeyViolation)
            <==> Matched(s.db, pc.u, pc.t) || pc.u !in s.db.users || pc.t !in s.db.users
  {
    ReachableIsSound(ls);
    var s := Run(INITIAL, ls);
    var pc := s.inflight[i];
    assert PcOk(s.db, pc);
    if !Lost(s.db, pc.u, pc.t) {
      MatchInsertSettles(s.db, s.rooms, pc, env);
    } else {
      SortedForgetsOrder(pc.u, pc.t);
    }
  }

  /** A message write that passed its membership check fails exactly if the sender's account is gone. */
  lemma SendFailsIff(ls: seq<Label>, i: nat, env: Env)
    requires var s := Run(INITIAL, ls); i in s.inflight && s.inflight[i].SendInsert? && Fresh(s.db, env.id)
    ensures var s := Run(INITIAL, ls);
            Exec(s.db, s.rooms, s.inflight[i], env).next == Fail(KeyViolation) <==> s.inflight[i].u in s.db.gone
  {
    ReachableIsSound(ls);
    var s := Run(INITIAL, ls);
    assert PcOk(s.db, s.inflight[i]);
  }

  // ---- opening a chat under races ----

  /** Once a call found no chat, its insert fails exactly if a chat was founded since, or the match is gone. */
  lemma OpenLosesIff(ls: seq<Label>, i: nat, env: Env)
    requires var s := Run(INITIAL, ls); i in s.inflight && s.inflight[i].OpenInsert? && Fresh(s.db, env.id)
    ensures var s := Run(INITIAL, ls);
            var pc := s.inflight[i];
            Exec(s.db, s.rooms, pc, env).next == Fail(KeyViolation) <==> ChatKeyTaken(s.db, pc.m) || pc.m !in s.db.matches
  {
    ReachableIsSound(ls);
    var s := Run(INITIAL, ls);
    var pc := s.inflight[i];
    assert PcOk(s.db, pc);
    if pc.m in s.db.matches {
      assert SoundMatch(s.db, s.db.matches[pc.m]);
      BeforeIsTotal(pc.row.user1, pc.row.user2);
    }
  }

  /** A user of a match without a chat passes both lookups. */
  lemma OpenReachesInsert(s: State, i: nat, m: Id, u: Id, env: Env)
    requires i in s.inflight && s.inflight[i] == OpenLookup(m, u) && Fresh(s.db, env.id)
    requires m in s.db.matches && !ChatKeyTaken(s.db, m)
    requires u == s.db.matches[m].user1 || u == s.db.matches[m].user2
    ensures Step(Step(s, Advance(i, env)), Advance(i, env)) ==
            s.(inflight := s.inflight[i := OpenInsert(m, s.db.matches[m])])
  {
    var looked := Step(s, Advance(i, env));
    assert looked == s.(inflight := s.inflight[i := OpenFind(m, s.db.matches[m])]);
    assert looked.inflight[i := OpenInsert(m, s.db.matches[m])] == s.inflight[i := OpenInsert(m, s.db.matches[m])];
  }

  /** An insert for a match without a chat opens one. */
  lemma InsertOpens(s: State, i: nat, m: Id, row: Match, env: Env)
    requires Consistent(s.db) && m in s.db.matches && row == s.db.matches[m] && !ChatKeyTaken(s.db, m)
    requires i in s.inflight && s.inflight[i] == OpenInsert(m, row) && Fresh(s.db, env.id)
    ensures var after := CreateChat(s.db, env.id, m, row.user1, row.user2, env.touched);
            && after.Some? && ChatOfMatch(after.value, env.id, m)
            && Step(s, Advance(i, env)) == State(after.value, s.rooms, s.events, s.inflight - {i},
                                                 s.replies[i := ChatOpened(env.id, m, {row.user1, row.user2})])
  {
    assert SoundMatch(s.db, row);
    BeforeIsTotal(row.user1, row.user2);
  }

  /** An insert for a match with a chat fails and changes nothing else. */
  lemma InsertLoses(s: State, j: nat, m: Id, row: Match, env: Env)
    requires ChatKeyTaken(s.db, m) && j in s.inflight && s.inflight[j] == OpenInsert(m, row) && Fresh(s.db, env.id)
    ensures Step(s, Advance(j, env)) == s.(inflight := s.inflight - {j}, replies := s.replies[j := Failed(KeyViolation)])
  {
  }

  /** Two inserts for one match: the first opens the chat, the second fails. */
  lemma SecondInsertLoses(s: State, i: nat, j: nat, m: Id, row: Match, a: Env, b: Env)
    requires Consistent(s.db) && m in s.db.matches && row == s.db.matches[m] && !ChatKeyTaken(s.db, m)
    requires i != j && i in s.inflight && j in s.inflight
    requires s.inflight[i] == OpenInsert(m, row) && s.inflight[j] == OpenInsert(m, row)
    requires Fresh(s.db, a.id) && Fresh(s.db, b.id) && a.id != b.id
    ensures var won := Step(s, Advance(i, a));
            var lost := Step(won, Advance(j, b));
            && ChatOfMatch(won.db, a.id, m)
            && lost.db == won.db && lost.rooms == won.rooms && lost.events == won.events
            && lost.replies == s.replies[i := ChatOpened(a.id, m, {row.user1, row.user2})][j := Failed(KeyViolation)]
  {
    InsertOpens(s, i, m, row, a);
    InsertLoses(Step(s, Advance(i, a)), j, m, row, b);
  }

  /** So opening is not idempotent under races: from any consistent store with a match that has no chat, two calls of its
      users can interleave so that one opens the chat and the other fails. */
  lemma OpenRaceLoses(s: State, i: nat, j: nat, m: Id, u: Id, v: Id, a: Env, b: Env)
    requires Consistent(s.db) && m in s.db.matches && !ChatKeyTaken(s.db, m)
    requires u == s.db.matches[m].user1 || u == s.db.matches[m].user2
    requires v == s.db.matches[m].user1 || v == s.db.matches[m].user2
    requires i != j && i in s.inflight && j in s.inflight
    requires s.inflight[i] == OpenLookup(m, u) && s.inflight[j] == OpenLookup(m, v)
    requires Fresh(s.db, a.id) && Fresh(s.db, b.id) && a.id != b.id
    ensures var looked := Step(Step(Step(Step(s, Advance(i, a)), Advance(i, a)), Advance(j, b)), Advance(j, b));
            var done := Step(Step(looked, Advance(i, a)), Advance(j, b));
            var row := s.db.matches[m];
            && ChatOfMatch(done.db, a.id, m)
            && done.replies == s.replies[i := ChatOpened(a.id, m, {row.user1, row.user2})][j := Failed(KeyViolation)]
  {
    var row := s.db.matches[m];
    OpenReachesInsert(s, i, m, u, a);
    var one := s.(inflight := s.inflight[i := OpenInsert(m, row)]);
    OpenReachesInsert(one, j, m, v, b);
    var both := one.(inflight := one.inflight[j := OpenInsert(m, row)]);
    SecondInsertLoses(both, i, j, m, row, a, b);
  }

  // ---- what a failed request leaves behind ----

  predicate Changes(before: State, after: State) {
    before.db != after.db || before.rooms != after.rooms || before.events != after.events
  }

  /** Some step of request `i` changed the store, a room or the events. */
  ghost predicate Wrote(ls: seq<Label>, i: nat) {
    ls != [] &&
    var front := ls[..|ls| - 1];
    Wrote(front, i) || (StepOf(ls[|ls| - 1], i) && Changes(Run(INITIAL, front), Run(INITIAL, ls)))
  }

  /** The step `l` is the match write of request `i` for the like of `t` by `u`, and it fails. */
  ghost predicate LosesCreate(s: State, l: Label, i: nat, u: Id, t: Id) {
    && StepOf(l, i) && i in s.inflight && s.inflight[i] == MatchInsert(u, t)
    && var replies := Step(s, l).replies; i in replies && replies[i].Failed?
  }

  ghost predicate LosesSome(s: State, l: Label, i: nat) {
    exists u, t :: LosesCreate(s, l, i, u, t)
  }

  /** Some match write of request `i` for the like of `t` by `u` failed. */
  ghost predicate LostCreate(ls: seq<Label>, i: nat, u: Id, t: Id) {
    ls != [] &&
    var front := ls[..|ls| - 1];
    LostCreate(front, i, u, t) || LosesCreate(Run(INITIAL, front), ls[|ls| - 1], i, u, t)
  }

  ghost predicate LostSome(ls: seq<Label>, i: nat) {
    exists u, t :: LostCreate(ls, i, u, t)
  }

  /** Between its own record and its announcement, a swipe has written and not answered. */
  predicate HasRecord(pc: Pc) {
    pc.ReadBack? || pc.MatchInsert? || pc.Announce?
  }

  /** What a request's progress says about what it wrote and whether it lost a match write. */
  predicate TrailOk(s: State, i: nat, wrote: bool, lost: bool) {
    && (i in s.inflight && HasRecord(s.inflight[i]) ==> wrote && i !in s.replies)
    && (i in s.inflight && s.inflight[i].SendEmit? ==> i !in s.replies)
    && (i in s.inflight && s.inflight[i].NotifyPartner? ==> i in s.replies && s.replies[i].Sent?)
    && (i in s.inflight && !HasRecord(s.inflight[i]) && !s.inflight[i].SendEmit? && !s.inflight[i].NotifyPartner? ==>
          !wrote && i !in s.replies)
    && (i !in s.inflight && i !in s.replies ==> !wrote)
    && (lost ==> i in s.replies && s.replies[i].Failed?)
    && (i in s.replies && s.replies[i].Failed? ==> (wrote <==> lost))
  }

  /** A failure ends its request, and only requests that have neither written nor answered, and match writes, fail. */
  lemma FailureEnds(db: Db, rooms: set<(Socket, Id)>, pc: Pc, env: Env)
    requires var r := Exec(db, rooms, pc, env).next.reply; r.Some? && r.value.Failed?
    ensures Exec(db, rooms, pc, env).next.pc.None?
    ensures !pc.ReadBack? && !pc.Announce? && !pc.SendEmit? && !pc.NotifyPartner?
  {
  }

  /** A step that answers with a failure leaves the trail as it was. */
  lemma FailingStepKeepsTrail(s: State, i: nat, env: Env, wrote: bool, lost: bool)
    requires TrailOk(s, i, wrote, lost) && i in s.inflight && Fresh(s.db, env.id)
    requires var r := Exec(s.db, s.rooms, s.inflight[i], env).next.reply; r.Some? && r.value.Failed?
    ensures var t := Step(s, Advance(i, env));
            TrailOk(t, i, wrote || Changes(s, t), lost || (s.inflight[i].MatchInsert? && i in t.replies && t.replies[i].Failed?))
  {
    var pc := s.inflight[i];
    var t := Step(s, Advance(i, env));
    FailureWritesNothing(s.db, s.rooms, pc, env);
    FailureEnds(s.db, s.rooms, pc, env);
    assert s.events + multiset{} == s.events;
    assert !Changes(s, t) && i !in t.inflight && t.replies[i].Failed?;
  }

  lemma SwipeStepKeepsTrail(s: State, i: nat, env: Env, wrote: bool, lost: bool)
    requires TrailOk(s, i, wrote, lost) && i in s.inflight && Fresh(s.db, env.id)
    requires IsSwipe(s.inflight[i])
    requires var r := Exec(s.db, s.rooms, s.inflight[i], env).next.reply; r.Some? ==> !r.value.Failed?
    ensures var t := Step(s, Advance(i, env));
            TrailOk(t, i, wrote || Changes(s, t), lost || (s.inflight[i].MatchInsert? && i in t.replies && t.replies[i].Failed?))
  {
    var pc := s.inflight[i];
    var t := Step(s, Advance(i, env));
    if pc.SwipeInsert? {
      assert (pc.u, pc.t) in t.db.swipes && (pc.u, pc.t) !in s.db.swipes;
    }
  }

  lemma SendStepKeepsTrail(s: State, i: nat, env: Env, wrote: bool, lost: bool)
    requires TrailOk(s, i, wrote, lost) && i in s.inflight && Fresh(s.db, env.id)
    requires IsSend(s.inflight[i])
    requires var r := Exec(s.db, s.rooms, s.inflight[i], env).next.reply; r.Some? ==> !r.value.Failed?
    ensures var t := Step(s, Advance(i, env));
            TrailOk(t, i, wrote || Changes(s, t), lost)
  {
  }

  lemma OtherStepKeepsTrail(s: State, i: nat, env: Env, wrote: bool, lost: bool)
    requires TrailOk(s, i, wrote, lost) && i in s.inflight && Fresh(s.db, env.id)
    requires !IsSwipe(s.inflight[i]) && !IsSend(s.inflight[i])
    requires var r := Exec(s.db, s.rooms, s.inflight[i], env).next.reply; r.Some? ==> !r.value.Failed?
    ensures var t := Step(s, Advance(i, env));
            TrailOk(t, i, wrote || Changes(s, t), lost)
  {
  }

  lemma OwnStepKeepsTrail(s: State, i: nat, env: Env, wrote: bool, lost: bool)
    requires TrailOk(s, i, wrote, lost) && i in s.inflight && Fresh(s.db, env.id)
    ensures var t := Step(s, Advance(i, env));
            TrailOk(t, i, wrote || Changes(s, t), lost || (s.inflight[i].MatchInsert? && i in t.replies && t.replies[i].Failed?))
  {
    var r := Exec(s.db, s.rooms, s.inflight[i], env).next.reply;
    if r.Some? && r.value.Failed? {
      FailingStepKeepsTrail(s, i, env, wrote, lost);
    } else if IsSwipe(s.inflight[i]) {
      SwipeStepKeepsTrail(s, i, env, wrote, lost);
    } else if IsSend(s.inflight[i]) {
      SendStepKeepsTrail(s, i, env, wrote, lost);
    } else {
      OtherStepKeepsTrail(s, i, env, wrote, lost);
    }
  }

  lemma StepKeepsTrail(s: State, l: Label, i: nat, wrote: bool, lost: bool)
    requires TrailOk(s, i, wrote, lost)
    ensures var t := Step(s, l);
            TrailOk(t, i, wrote || (StepOf(l, i) && Changes(s, t)), lost || LosesSome(s, l, i))
  {
    if StepOf(l, i) && i in s.inflight && Fresh(s.db, l.env.id) {
      OwnStepKeepsTrail(s, i, l.env, wrote, lost);
      var pc := s.inflight[i];
      assert pc.MatchInsert? && i in Step(s, l).replies && Step(s, l).replies[i].Failed? ==> LosesCreate(s, l, i, pc.u, pc.t);
    }
  }

  lemma {:induction false} RunKeepsTrail(ls: seq<Label>, i: nat)
    ensures TrailOk(Run(INITIAL, ls), i, Wrote(ls, i), LostSome(ls, i))
  {
    if ls != [] {
      var front, l := ls[..|ls| - 1], ls[|ls| - 1];
      var s := Run(INITIAL, front);
      RunKeepsTrail(front, i);
      assert ls == front + [l];
      RunExtends(INITIAL, front, l);
      StepKeepsTrail(s, l, i, Wrote(front, i), LostSome(front, i));
      assert forall u, t :: LostCreate(ls, i, u, t) <==> LostCreate(front, i, u, t) || LosesCreate(s, l, i, u, t);
      assert LostSome(ls, i) <==> LostSome(front, i) || LosesSome(s, l, i);
    }
  }

  /** The like is stored and the pair is matched, or an account is gone. */
  ghost predicate Settled(db: Db, u: Id, t: Id) {
    Lost(db, u, t) || (Likes(db, u, t) && Matched(db, u, t))
  }

  lemma SettledStays(db: Db, later: Db, u: Id, t: Id)
    requires Later(db, later) && Settled(db, u, t)
    ensures Settled(later, u, t)
  {
    if Matched(db, u, t) {
      var m :| MatchOf(db, m, u, t);
      assert MatchOf(later, m, u, t) || Lost(later, u, t);
    }
  }

  /** Losing the match write settles the pair. */
  lemma LosingSettles(s: State, l: Label, i: nat, u: Id, t: Id)
    requires Inv(s) && i !in s.replies && LosesCreate(s, l, i, u, t)
    ensures Settled(Step(s, l).db, u, t)
  {
    var pc := s.inflight[i];
    assert PcOk(s.db, pc);
    if !Lost(s.db, u, t) {
      MatchInsertSettles(s.db, s.rooms, pc, l.env);
    }
    FailureWritesNothing(s.db, s.rooms, pc, l.env);
  }

  lemma {:induction false} LostCreatesAreSettled(ls: seq<Label>, i: nat, u: Id, t: Id)
    requires LostCreate(ls, i, u, t)
    ensures Settled(Run(INITIAL, ls).db, u, t)
  {
    var front, l := ls[..|ls| - 1], ls[|ls| - 1];
    var s := Run(INITIAL, front);
    assert ls == front + [l];
    RunExtends(INITIAL, front, l);
    ReachableIsSound(front);
    if LostCreate(front, i, u, t) {
      LostCreatesAreSettled(front, i, u, t);
      StepIsLater(s, l);
      SettledStays(s.db, Step(s, l).db, u, t);
    } else {
      RunKeepsTrail(front, i);
      LosingSettles(s, l, i, u, t);
    }
  }

  /** Over any run, a request that answered with a failure wrote nothing in any of its steps, with one exception: a
      swipe that lost its match write. That one has stored its own like, and its pair is matched or an account is gone. */
  lemma FailedRequests(ls: seq<Label>, i: nat)
    requires var replies := Run(INITIAL, ls).replies; i in replies && replies[i].Failed?
    ensures Wrote(ls, i) <==> LostSome(ls, i)
    ensures forall u, t :: LostCreate(ls, i, u, t) ==> Settled(Run(INITIAL, ls).db, u, t)
  {
    RunKeepsTrail(ls, i);
    forall u, t | LostCreate(ls, i, u, t) ensures Settled(Run(INITIAL, ls).db, u, t) {
      LostCreatesAreSettled(ls, i, u, t);
    }
  }
}
