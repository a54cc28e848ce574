/** Friendship rows: what holds for requests that interleave, and what holds for one operation after another. */
module Friendships {
  import opened Base
  import Query

  datatype Status = Pending | Accepted | Blocked

  datatype Error = BadRequest | NotFound | Forbidden | Conflict | KeyViolation | RowMissing

  /** `lookedUp`, `created` and `changed` record the step at which the creating request looked for an existing row, at
      which the row was created, and at which its status was last written. */
  datatype Row = Row(initiator: Id, receiver: Id, status: Status, lookedUp: nat, created: nat, changed: nat)

  type Rows = map<Id, Row>

  predicate Between(row: Row, a: Id, b: Id) {
    (row.initiator == a && row.receiver == b) || (row.initiator == b && row.receiver == a)
  }

  predicate Takes(row: Row, u: Id) {
    row.initiator == u || row.receiver == u
  }

  predicate PairTaken(rows: Rows, a: Id, b: Id) {
    exists f :: f in rows && Between(rows[f], a, b)
  }

  /** The unique key is on (initiator, receiver), in that order. */
  predicate KeyTaken(rows: Rows, initiator: Id, receiver: Id) {
    exists f :: f in rows && rows[f].initiator == initiator && rows[f].receiver == receiver
  }

  /** A request before its lookup, or between its lookup at step `at` and its write. */
  datatype Pc =
    | RequestLookup(u: Id, v: Id)
    | RequestInsert(u: Id, v: Id, at: nat)
    | AcceptLookup(f: Id, u: Id)
    | AcceptWrite(f: Id, at: nat)
    | BlockLookup(f: Id, u: Id)
    | BlockWrite(f: Id)
    | RemoveLookup(f: Id, u: Id)
    | RemoveWrite(f: Id)

  datatype Next = Goto(pc: Pc) | Answer(error: Option<Error>)

  datatype State = State(users: set<Id>, rows: Rows, used: set<Id>, inflight: map<nat, Pc>, answers: map<nat, Option<Error>>, clock: nat)

  const INITIAL := State({}, map[], {}, map[], map[], 0)

  datatype Label =
    | Arrive(i: nat, pc: Pc)
    | Advance(i: nat, id: Id)
    | Register(u: Id)
    | Delete(u: Id)

  datatype Outcome = Outcome(rows: Rows, next: Next)

  function Refuse(rows: Rows, e: Error): Outcome {
    Outcome(rows, Answer(Some(e)))
  }

  function SetStatus(rows: Rows, f: Id, status: Status, clock: nat): Outcome {
    if f !in rows then Refuse(rows, RowMissing)
    else Outcome(rows[f := rows[f].(status := status, changed := clock)], Answer(None))
  }

  /** One statement of a request. */
  function Exec(users: set<Id>, rows: Rows, pc: Pc, id: Id, clock: nat): Outcome {
    match pc
    case RequestLookup(u, v) =>
      if u == v then Refuse(rows, BadRequest)
      else if PairTaken(rows, u, v) then Refuse(rows, Conflict)
      else Outcome(rows, Goto(RequestInsert(u, v, clock)))
    case RequestInsert(u, v, at) =>
      if KeyTaken(rows, u, v) || u !in users || v !in users then Refuse(rows, KeyViolation)
      else Outcome(rows[id := Row(u, v, Pending, at, clock, clock)], Answer(None))
    case AcceptLookup(f, u) =>
      if f !in rows then Refuse(rows, NotFound)
      else if rows[f].receiver != u then Refuse(rows, Forbidden)
      else if rows[f].status != Pending then Refuse(rows, BadRequest)
      else Outcome(rows, Goto(AcceptWrite(f, clock)))
    case AcceptWrite(f, at) => SetStatus(rows, f, Accepted, clock)
    case BlockLookup(f, u) =>
      if f !in rows then Refuse(rows, NotFound)
      else if !Takes(rows[f], u) then Refuse(rows, Forbidden)
      else Outcome(rows, Goto(BlockWrite(f)))
    case BlockWrite(f) => SetStatus(rows, f, Blocked, clock)
    case RemoveLookup(f, u) =>
      if f !in rows then Refuse(rows, NotFound)
      else if !Takes(rows[f], u) then Refuse(rows, Forbidden)
      else Outcome(rows, Goto(RemoveWrite(f)))
    case RemoveWrite(f) =>
      if f !in rows then Refuse(rows, RowMissing) else Outcome(rows - {f}, Answer(None))
  }

  predicate IsEntry(pc: Pc) {
    pc.RequestLookup? || pc.AcceptLookup? || pc.BlockLookup? || pc.RemoveLookup?
  }

  function Apply(s: State, i: nat, id: Id, o: Outcome): State {
    s.(rows := o.rows, used := s.used + {id}, clock := s.clock + 1,
       inflight := if o.next.Goto? then s.inflight[i := o.next.pc] else s.inflight - {i},
       answers := if o.next.Goto? then s.answers else s.answers[i := o.next.error])
  }

  /** A fresh row id is never one used before. */
  function Step(s: State, l: Label): State {
    match l
    case Arrive(i, pc) =>
      if i in s.inflight || i in s.answers || !IsEntry(pc) then s else s.(inflight := s.inflight[i := pc])
    case Advance(i, id) =>
      if i !in s.inflight || id in s.used then s
      else Apply(s, i, id, Exec(s.users, s.rows, s.inflight[i], id, s.clock + 1))
    case Register(u) => s.(users := s.users + {u})
    case Delete(u) =>
      s.(users := s.users - {u}, rows := map f | f in s.rows && !Takes(s.rows[f], u) :: s.rows[f])
  }

  function Run(s: State, ls: seq<Label>): State
    decreases |ls|
  {
    if ls == [] then s else Run(Step(s, ls[0]), ls[1..])
  }

  // ---- interleaved requests ----

  predicate RowOk(row: Row, clock: nat) {
    row.initiator != row.receiver && row.lookedUp < row.created <= row.changed <= clock
  }

  predicate SameKey(x: Row, y: Row) {
    x.initiator == y.initiator && x.receiver == y.receiver
  }

  /** Of two rows of one pair, the later request had looked before the earlier row existed. */
  predicate Overlapped(x: Row, y: Row) {
    x.created < y.created ==> y.lookedUp < x.created
  }

  ghost predicate RowsOk(s: State) {
    && s.rows.Keys <= s.used
    && (forall f :: f in s.rows ==> RowOk(s.rows[f], s.clock))
    && (forall f, g :: f in s.rows && g in s.rows && SameKey(s.rows[f], s.rows[g]) ==> f == g)
    && (forall f, g :: f in s.rows && g in s.rows && Between(s.rows[f], s.rows[g].initiator, s.rows[g].receiver) ==>
          Overlapped(s.rows[f], s.rows[g]))
  }

  /** What a request may still rely on after its lookup. */
  ghost predicate PcOk(s: State, pc: Pc) {
    match pc
    case RequestInsert(u, v, at) =>
      u != v && at <= s.clock
      && forall f :: f in s.rows && Between(s.rows[f], u, v) ==> at < s.rows[f].created
    case AcceptWrite(f, at) =>
      at <= s.clock && f in s.used
      && (f in s.rows && s.rows[f].status != Pending ==> at < s.rows[f].changed)
    case BlockWrite(f) => f in s.used
    case RemoveWrite(f) => f in s.used
    case _ => true
  }

  ghost predicate Inv(s: State) {
    RowsOk(s) && forall i :: i in s.inflight ==> PcOk(s, s.inflight[i])
  }

  lemma InsertKeepsRows(s: State, i: nat, id: Id)
    requires Inv(s) && i in s.inflight && id !in s.used && s.inflight[i].RequestInsert?
    ensures RowsOk(Step(s, Advance(i, id)))
  {
    var s' := Step(s, Advance(i, id));
    var pc := s.inflight[i];
    forall f, g | f in s'.rows && g in s'.rows && Between(s'.rows[f], s'.rows[g].initiator, s'.rows[g].receiver)
      ensures Overlapped(s'.rows[f], s'.rows[g])
    {
      if f in s.rows && g == id {
        assert Between(s.rows[f], pc.u, pc.v);
      }
    }
  }

  /** Writing a status leaves keys and creation steps alone. */
  lemma StatusKeepsRows(s: State, s': State, f: Id, status: Status)
    requires RowsOk(s) && f in s.rows && s'.clock == s.clock + 1 && s.used <= s'.used
    requires s'.rows == s.rows[f := s.rows[f].(status := status, changed := s'.clock)]
    ensures RowsOk(s')
  {
    forall g, h | g in s'.rows && h in s'.rows && Between(s'.rows[g], s'.rows[h].initiator, s'.rows[h].receiver)
      ensures Overlapped(s'.rows[g], s'.rows[h])
    {
      assert Between(s.rows[g], s.rows[h].initiator, s.rows[h].receiver);
    }
    forall g, h | g in s'.rows && h in s'.rows && SameKey(s'.rows[g], s'.rows[h]) ensures g == h {
      assert SameKey(s.rows[g], s.rows[h]);
    }
  }

  lemma FewerRowsOk(s: State, s': State)
    requires RowsOk(s) && s.clock <= s'.clock && s.used <= s'.used
    requires forall f :: f in s'.rows ==> f in s.rows && s'.rows[f] == s.rows[f]
    ensures RowsOk(s')
  {
  }

  predicate WritesStatus(pc: Pc, rows: Rows) {
    (pc.AcceptWrite? || pc.BlockWrite?) && pc.f in rows
  }

  /** Every statement but the insert and the status writes only drops rows. */
  lemma OthersOnlyDrop(s: State, i: nat, id: Id)
    requires i in s.inflight && id !in s.used
    requires !s.inflight[i].RequestInsert? && !WritesStatus(s.inflight[i], s.rows)
    ensures var s' := Step(s, Advance(i, id));
            && s.clock <= s'.clock && s.used <= s'.used
            && forall f :: f in s'.rows ==> f in s.rows && s'.rows[f] == s.rows[f]
  {
  }

  lemma ExecKeepsRows(s: State, i: nat, id: Id)
    requires Inv(s) && i in s.inflight && id !in s.used
    ensures RowsOk(Step(s, Advance(i, id)))
  {
    var s' := Step(s, Advance(i, id));
    var pc := s.inflight[i];
    if pc.RequestInsert? {
      InsertKeepsRows(s, i, id);
    } else if WritesStatus(pc, s.rows) {
      StatusKeepsRows(s, s', pc.f, if pc.AcceptWrite? then Accepted else Blocked);
    } else {
      OthersOnlyDrop(s, i, id);
      FewerRowsOk(s, s');
    }
  }

  /** How one step changes the rows: some go, a status is written, one comes with the step's own id. */
  ghost predicate Moved(s: State, s': State, id: Id) {
    && s.used <= s'.used && s'.clock == s.clock + 1 && id !in s.used
    && (forall f :: f in s'.rows ==> f in s.rows || f == id)
    && (forall f :: f in s'.rows && f in s.rows ==>
          s'.rows[f] == s.rows[f]
          || (SameKey(s.rows[f], s'.rows[f]) && s'.rows[f].created == s.rows[f].created && s'.rows[f].changed == s'.clock))
    && (id in s'.rows ==> s'.rows[id].created == s'.clock)
  }

  lemma StepMoves(s: State, i: nat, id: Id)
    requires i in s.inflight && id !in s.used && s.rows.Keys <= s.used
    ensures Moved(s, Step(s, Advance(i, id)), id)
  {
  }

  /** What a request relies on survives the steps of the others. */
  lemma PcStable(s: State, s': State, id: Id, pc: Pc)
    requires Moved(s, s', id) && PcOk(s, pc)
    ensures PcOk(s', pc)
  {
  }

  lemma OwnPcOk(s: State, i: nat, id: Id)
    requires Inv(s) && i in s.inflight && id !in s.used
    ensures var s' := Step(s, Advance(i, id)); i in s'.inflight ==> PcOk(s', s'.inflight[i])
  {
  }

  lemma ExecKeepsPcs(s: State, i: nat, id: Id)
    requires Inv(s) && i in s.inflight && id !in s.used
    ensures var s' := Step(s, Advance(i, id)); forall j :: j in s'.inflight ==> PcOk(s', s'.inflight[j])
  {
    var s' := Step(s, Advance(i, id));
    StepMoves(s, i, id);
    forall j | j in s'.inflight ensures PcOk(s', s'.inflight[j]) {
      if j == i {
        OwnPcOk(s, i, id);
      } else {
        PcStable(s, s', id, s.inflight[j]);
      }
    }
  }

  lemma StepKeepsInv(s: State, l: Label)
    requires Inv(s)
    ensures Inv(Step(s, l))
  {
    if l.Advance? && l.i in s.inflight && l.id !in s.used {
      ExecKeepsRows(s, l.i, l.id);
      ExecKeepsPcs(s, l.i, l.id);
    }
  }

  lemma {:induction false} RunKeepsInv(s: State, ls: seq<Label>)
    requires Inv(s)
    ensures Inv(Run(s, ls))
    decreases |ls|
  {
    if ls != [] {
      StepKeepsInv(s, ls[0]);
      RunKeepsInv(Step(s, ls[0]), ls[1..]);
    }
  }

  /** No user befriends themselves, each direction has at most one row, so each pair at most two; and a second row means
      that its request looked before the first row existed. */
  lemma RowsUnderInterleaving(ls: seq<Label>, a: Id, b: Id, f: Id, g: Id, h: Id)
    requires var rows := Run(INITIAL, ls).rows;
             f in rows && g in rows && h in rows && Between(rows[f], a, b) && Between(rows[g], a, b) && Between(rows[h], a, b)
    ensures var rows := Run(INITIAL, ls).rows;
            && a != b
            && (f == g || g == h || f == h)
            && (f != g ==> rows[f].initiator == rows[g].receiver && rows[f].receiver == rows[g].initiator)
            && (rows[f].created < rows[g].created ==> rows[g].lookedUp < rows[f].created)
  {
    RunKeepsInv(INITIAL, ls);
    var rows := Run(INITIAL, ls).rows;
    assert Between(rows[f], rows[g].initiator, rows[g].receiver);
  }

  /** A write after its lookup: an insert fails exactly if the asker's own direction is taken by then or an account is
      missing, any other write exactly if the row is gone by then; a failure changes nothing. */
  lemma LateWriteAnswers(users: set<Id>, rows: Rows, pc: Pc, id: Id, clock: nat)
    requires !IsEntry(pc) && id !in rows
    ensures var o := Exec(users, rows, pc, id, clock);
            && o.next.Answer?
            && (pc.RequestInsert? ==>
                  (o.next.error == Some(KeyViolation) <==>
                     (exists f :: f in rows && rows[f].initiator == pc.u && rows[f].receiver == pc.v)
                     || pc.u !in users || pc.v !in users)
                  && (o.next.error.None? ==>
                        && id in o.rows && o.rows[id].initiator == pc.u && o.rows[id].receiver == pc.v
                        && o.rows[id].status == Pending && o.rows - {id} == rows))
            && (!pc.RequestInsert? ==> (o.next.error == Some(RowMissing) <==> pc.f !in rows))
            && (o.next.error.Some? ==> o.rows == rows && (o.next.error.value == KeyViolation || o.next.error.value == RowMissing))
            && (!pc.RequestInsert? && pc.f in rows ==>
                  && (pc.f in o.rows <==> !pc.RemoveWrite?)
                  && (pc.AcceptWrite? ==> o.rows[pc.f].status == Accepted) && (pc.BlockWrite? ==> o.rows[pc.f].status == Blocked)
                  && o.rows - {pc.f} == rows - {pc.f})
  {
    var o := Exec(users, rows, pc, id, clock);
    assert pc.RequestInsert? && o.next.error.None? ==> o.rows - {id} == rows;
    assert !pc.RequestInsert? && pc.f in rows ==> o.rows - {pc.f} == rows - {pc.f};
  }

  /** What one statement may do to one row. */
  lemma ExecStatus(users: set<Id>, rows: Rows, pc: Pc, id: Id, clock: nat, f: Id)
    requires id !in rows && f in rows && f in Exec(users, rows, pc, id, clock).rows
    ensures var before, after := rows[f], Exec(users, rows, pc, id, clock).rows[f];
            && SameKey(before, after)
            && (after.status != before.status ==>
                  (after.status == Accepted && pc.AcceptWrite? && pc.f == f) || (after.status == Blocked && pc == BlockWrite(f)))
  {
  }

  /** How one step may change a row: nothing returns to PENDING, and BLOCKED becomes ACCEPTED only through an accept that
      had read PENDING before the block was written. */
  lemma StatusSteps(ls: seq<Label>, l: Label, f: Id)
    requires f in Run(INITIAL, ls).rows && f in Step(Run(INITIAL, ls), l).rows
    ensures var s := Run(INITIAL, ls);
            var before, after := s.rows[f], Step(s, l).rows[f];
            && SameKey(before, after)
            && (after.status == Pending ==> before.status == Pending)
            && (after.status == Accepted && before.status != Accepted ==>
                  && l.Advance? && l.i in s.inflight && s.inflight[l.i].AcceptWrite? && s.inflight[l.i].f == f
                  && (before.status == Blocked ==> s.inflight[l.i].at < before.changed <= s.clock))
            && (after.status == Blocked && before.status != Blocked ==>
                  l.Advance? && l.i in s.inflight && s.inflight[l.i] == BlockWrite(f))
  {
    RunKeepsInv(INITIAL, ls);
    var s := Run(INITIAL, ls);
    assert RowOk(s.rows[f], s.clock);
    if l.Advance? && l.i in s.inflight && l.id !in s.used {
      ExecStatus(s.users, s.rows, s.inflight[l.i], l.id, s.clock + 1, f);
      assert PcOk(s, s.inflight[l.i]);
    }
  }

  /** The receiver's accept of a PENDING row gets past its lookup. */
  lemma AcceptReads(s: State, f: Id, i: nat, x: Id)
    requires f in s.rows && s.rows[f].status == Pending && i !in s.inflight && i !in s.answers && x !in s.used
    ensures Step(Step(s, Arrive(i, AcceptLookup(f, s.rows[f].receiver))), Advance(i, x)) ==
            s.(used := s.used + {x}, clock := s.clock + 1, inflight := s.inflight[i := AcceptWrite(f, s.clock + 1)])
  {
    var pc := AcceptLookup(f, s.rows[f].receiver);
    assert s.inflight[i := pc][i := AcceptWrite(f, s.clock + 1)] == s.inflight[i := AcceptWrite(f, s.clock + 1)];
  }

  /** So does a block by either user of any row. */
  lemma BlockReads(s: State, f: Id, j: nat, y: Id)
    requires f in s.rows && j !in s.inflight && j !in s.answers && y !in s.used
    ensures Step(Step(s, Arrive(j, BlockLookup(f, s.rows[f].initiator))), Advance(j, y)) ==
            s.(used := s.used + {y}, clock := s.clock + 1, inflight := s.inflight[j := BlockWrite(f)])
  {
    var pc := BlockLookup(f, s.rows[f].initiator);
    assert s.inflight[j := pc][j := BlockWrite(f)] == s.inflight[j := BlockWrite(f)];
  }

  /** The race is real: an accept that read PENDING before a block was written overwrites the block, and both calls
      report success. */
  lemma BlockCanBeOverwritten(s: State, f: Id, i: nat, j: nat, x: Id, y: Id, z: Id, w: Id)
    requires f in s.rows && s.rows[f].status == Pending
    requires i != j && i !in s.inflight && i !in s.answers && j !in s.inflight && j !in s.answers
    requires x !in s.used && y !in s.used + {x} && z !in s.used + {x, y} && w !in s.used + {x, y, z}
    ensures var row := s.rows[f];
            var reading := Step(Step(s, Arrive(i, AcceptLookup(f, row.receiver))), Advance(i, x));
            var blocking := Step(Step(reading, Arrive(j, BlockLookup(f, row.initiator))), Advance(j, y));
            var blocked := Step(blocking, Advance(j, z));
            var accepted := Step(blocked, Advance(i, w));
            && f in blocked.rows && blocked.rows[f].status == Blocked
            && f in accepted.rows && accepted.rows[f].status == Accepted
            && accepted.answers == s.answers[j := None][i := None]
  {
    var row := s.rows[f];
    AcceptReads(s, f, i, x);
    var reading := Step(Step(s, Arrive(i, AcceptLookup(f, row.receiver))), Advance(i, x));
    BlockReads(reading, f, j, y);
    var blocking := Step(Step(reading, Arrive(j, BlockLookup(f, row.initiator))), Advance(j, y));
    assert blocking.inflight[j] == BlockWrite(f) && blocking.inflight[i] == AcceptWrite(f, s.clock + 1);
  }

  /** Two opposite requests that look before either writes both find nothing ... */
  lemma BothLookupsCanPass(s: State, a: Id, b: Id, i: nat, j: nat, x: Id, y: Id)
    requires a != b && !PairTaken(s.rows, a, b) && x !in s.used && y !in s.used && x != y
    requires i != j && i in s.inflight && s.inflight[i] == RequestLookup(a, b)
    requires j in s.inflight && s.inflight[j] == RequestLookup(b, a)
    ensures var looked := Step(Step(s, Advance(i, x)), Advance(j, y));
            && looked.rows == s.rows && looked.users == s.users
            && looked.inflight == s.inflight[i := RequestInsert(a, b, s.clock + 1)][j := RequestInsert(b, a, s.clock + 2)]
  {
    assert forall f :: f in s.rows && Between(s.rows[f], b, a) ==> Between(s.rows[f], a, b);
    var one := Step(s, Advance(i, x));
    assert one.rows == s.rows && one.used == s.used + {x};
  }

  /** ... and then both inserts succeed, in either order, leaving two rows for the pair. */
  lemma BothDirectionsCanArise(s: State, a: Id, b: Id, i: nat, j: nat, x: Id, y: Id)
    requires Inv(s) && a != b && a in s.users && b in s.users && !PairTaken(s.rows, a, b)
    requires i != j && i in s.inflight && s.inflight[i].RequestInsert? && s.inflight[i].u == a && s.inflight[i].v == b
    requires j in s.inflight && s.inflight[j].RequestInsert? && s.inflight[j].u == b && s.inflight[j].v == a
    requires x !in s.used && y !in s.used && x != y
    ensures var both := Step(Step(s, Advance(i, x)), Advance(j, y));
            && x in both.rows && y in both.rows
            && both.rows[x].initiator == a && both.rows[x].receiver == b
            && both.rows[y].initiator == b && both.rows[y].receiver == a
            && both.answers == s.answers[i := None][j := None]
  {
    assert forall f :: f in s.rows ==> !Between(s.rows[f], a, b);
    assert !KeyTaken(s.rows, a, b);
    var one := Step(s, Advance(i, x));
    assert one.rows == s.rows[x := Row(a, b, Pending, s.inflight[i].at, s.clock + 1, s.clock + 1)];
    assert one.inflight == s.inflight - {i} && one.used == s.used + {x};
    assert !KeyTaken(one.rows, b, a);
  }

  // ---- one operation after another ----

  datatype Op =
    | Request(u: Id, v: Id, f: Id)
    | Accept(f: Id, u: Id)
    | Block(f: Id, u: Id)
    | Remove(f: Id, u: Id)
    | Register(u: Id)
    | DeleteAccount(u: Id)

  datatype Effect = Effect(rows: Rows, error: Option<Error>)

  /** The whole effect of an undisturbed operation; `clock` numbers the operation. */
  function Perform(users: set<Id>, rows: Rows, op: Op, clock: nat): Effect {
    match op
    case Request(u, v, f) =>
      if u == v then Effect(rows, Some(BadRequest))
      else if PairTaken(rows, u, v) then Effect(rows, Some(Conflict))
      else if u !in users || v !in users then Effect(rows, Some(KeyViolation))
      else Effect(rows[f := Row(u, v, Pending, clock, clock + 1, clock + 1)], None)
    case Accept(f, u) =>
      if f !in rows then Effect(rows, Some(NotFound))
      else if rows[f].receiver != u then Effect(rows, Some(Forbidden))
      else if rows[f].status != Pending then Effect(rows, Some(BadRequest))
      else Effect(rows[f := rows[f].(status := Accepted, changed := clock + 1)], None)
    case Block(f, u) =>
      if f !in rows then Effect(rows, Some(NotFound))
      else if !Takes(rows[f], u) then Effect(rows, Some(Forbidden))
      else Effect(rows[f := rows[f].(status := Blocked, changed := clock + 1)], None)
    case Remove(f, u) =>
      if f !in rows then Effect(rows, Some(NotFound))
      else if !Takes(rows[f], u) then Effect(rows, Some(Forbidden))
      else Effect(rows - {f}, None)
    case Register(_) => Effect(rows, None)
    case DeleteAccount(u) => Effect(map f | f in rows && !Takes(rows[f], u) :: rows[f], None)
  }

  predicate OnRows(op: Op) {
    !op.Register? && !op.DeleteAccount?
  }

  function Entry(op: Op): Pc
    requires OnRows(op)
  {
    match op
    case Request(u, v, _) => RequestLookup(u, v)
    case Accept(f, u) => AcceptLookup(f, u)
    case Block(f, u) => BlockLookup(f, u)
    case Remove(f, u) => RemoveLookup(f, u)
  }

  /** Two turns of one request: a refused lookup ends it, otherwise the write does. */
  lemma TwoTurns(s: State, i: nat, pc: Pc, x: Id, y: Id)
    requires i in s.inflight && s.inflight[i] == pc && IsEntry(pc) && x !in s.used && y !in s.used + {x}
    ensures var first := Exec(s.users, s.rows, pc, x, s.clock + 1);
            var last := if first.next.Goto? then Exec(s.users, s.rows, first.next.pc, y, s.clock + 2) else first;
            var s' := Step(Step(s, Advance(i, x)), Advance(i, y));
            && last.next.Answer?
            && s'.rows == last.rows && s'.answers == s.answers[i := last.next.error]
            && s'.inflight == s.inflight - {i} && s'.users == s.users
  {
    var first := Exec(s.users, s.rows, pc, x, s.clock + 1);
    var looked := Step(s, Advance(i, x));
    assert first.rows == s.rows;
    if first.next.Goto? {
      assert looked.inflight[i] == first.next.pc && looked.inflight - {i} == s.inflight - {i};
    } else {
      assert Step(looked, Advance(i, y)) == looked;
    }
  }

  /** An undisturbed request is its lookup and its write, nothing more. */
  lemma PerformIsTwoSteps(s: State, i: nat, op: Op, x: Id, y: Id)
    requires OnRows(op) && i in s.inflight && i !in s.answers && s.inflight[i] == Entry(op)
    requires x !in s.used && y !in s.used + {x} && (op.Request? ==> op.f == y)
    ensures var e := Perform(s.users, s.rows, op, s.clock + 1);
            var s' := Step(Step(s, Advance(i, x)), Advance(i, y));
            s'.rows == e.rows && s'.answers == s.answers[i := e.error] && s'.inflight == s.inflight - {i} && s'.users == s.users
  {
    TwoTurns(s, i, Entry(op), x, y);
    if op.Request? && !PairTaken(s.rows, op.u, op.v) {
      assert forall f :: f in s.rows ==> !Between(s.rows[f], op.u, op.v);
      assert !KeyTaken(s.rows, op.u, op.v);
    }
  }

  ghost predicate OneRowPerPair(rows: Rows) {
    && (forall f :: f in rows ==> rows[f].initiator != rows[f].receiver)
    && (forall f, g :: f in rows && g in rows && Between(rows[f], rows[g].initiator, rows[g].receiver) ==> f == g)
  }

  function Rank(status: Status): nat {
    match status
    case Pending => 0
    case Accepted => 1
    case Blocked => 2
  }

  lemma PerformKeepsOneRow(users: set<Id>, rows: Rows, op: Op, clock: nat)
    requires OneRowPerPair(rows) && (op.Request? ==> op.f !in rows)
    ensures OneRowPerPair(Perform(users, rows, op, clock).rows)
  {
    var after := Perform(users, rows, op, clock).rows;
    forall f, g | f in after && g in after && Between(after[f], after[g].initiator, after[g].receiver) ensures f == g {
      if f in rows && g in rows {
        assert Between(rows[f], rows[g].initiator, rows[g].receiver);
      }
    }
  }

  lemma KeyIsInPair(rows: Rows, u: Id, v: Id)
    ensures KeyTaken(rows, u, v) ==> PairTaken(rows, u, v)
  {
    assert forall f :: f in rows && rows[f].initiator == u && rows[f].receiver == v ==> Between(rows[f], u, v);
  }

  lemma PerformKeepsRowOk(users: set<Id>, rows: Rows, op: Op, clock: nat)
    requires (forall f :: f in rows ==> RowOk(rows[f], clock)) && (op.Request? ==> op.f !in rows)
    ensures var after := Perform(users, rows, op, clock).rows; forall f :: f in after ==> RowOk(after[f], clock + 1)
  {
  }

  /** One operation moves a status only from PENDING over ACCEPTED to BLOCKED; only the receiver accepts, only the two
      users block or remove, and a row appears only as the PENDING row of a request. */
  lemma PerformOrder(users: set<Id>, rows: Rows, op: Op, clock: nat, f: Id)
    requires op.Request? ==> op.f !in rows
    ensures var after := Perform(users, rows, op, clock).rows;
            && (f in rows && f in after ==>
                  && SameKey(rows[f], after[f])
                  && Rank(rows[f].status) <= Rank(after[f].status)
                  && (after[f].status == Accepted && rows[f].status != Accepted ==> op == Accept(f, rows[f].receiver))
                  && (after[f].status == Blocked && rows[f].status != Blocked ==> op.Block? && op.f == f && Takes(rows[f], op.u)))
            && (f in rows && f !in after ==> Takes(rows[f], op.u) && (op.DeleteAccount? || (op.Remove? && op.f == f)))
            && (f in after && f !in rows ==> op.Request? && op.f == f && after[f].status == Pending)
  {
  }

  /** A request succeeds exactly between two living, distinct users without a row in either direction, and then adds a
      PENDING row from the asker to the asked. Otherwise it fails for the reason there is, and nothing changes. */
  lemma RequestAnswers(users: set<Id>, rows: Rows, u: Id, v: Id, f: Id, clock: nat)
    requires f !in rows
    ensures var e := Perform(users, rows, Request(u, v, f), clock);
            var related := exists g :: g in rows && {rows[g].initiator, rows[g].receiver} == {u, v};
            && e.error == (if u == v then Some(BadRequest) else if related then Some(Conflict)
                           else if u !in users || v !in users then Some(KeyViolation) else None)
            && (e.error.Some? ==> e.rows == rows)
            && (e.error.None? ==>
                  && f in e.rows && e.rows - {f} == rows
                  && e.rows[f].initiator == u && e.rows[f].receiver == v && e.rows[f].status == Pending)
  {
    if u != v {
      assert forall g :: g in rows ==> (Between(rows[g], u, v) <==> {rows[g].initiator, rows[g].receiver} == {u, v});
      var e := Perform(users, rows, Request(u, v, f), clock);
      assert e.error.None? ==> e.rows - {f} == rows;
    }
  }

  /** `after` is `rows` with the status of `f` set. */
  ghost predicate OnlyStatus(rows: Rows, after: Rows, f: Id, status: Status) {
    && after.Keys == rows.Keys && f in rows
    && after[f].initiator == rows[f].initiator && after[f].receiver == rows[f].receiver && after[f].status == status
    && forall g :: g in rows && g != f ==> after[g] == rows[g]
  }

  /** The receiver, and nobody else, can accept a PENDING row, and nothing but its status changes. */
  lemma AcceptAnswers(users: set<Id>, rows: Rows, f: Id, u: Id, clock: nat)
    ensures var e := Perform(users, rows, Accept(f, u), clock);
            && e.error == (if f !in rows then Some(NotFound) else if u != rows[f].receiver then Some(Forbidden)
                           else if rows[f].status != Pending then Some(BadRequest) else None)
            && (if e.error.None? then OnlyStatus(rows, e.rows, f, Accepted) else e.rows == rows)
  {
  }

  /** Either user, and nobody else, can block a row of any status, and nothing but its status changes. */
  lemma BlockAnswers(users: set<Id>, rows: Rows, f: Id, u: Id, clock: nat)
    ensures var e := Perform(users, rows, Block(f, u), clock);
            && e.error == (if f !in rows then Some(NotFound)
                           else if u != rows[f].initiator && u != rows[f].receiver then Some(Forbidden) else None)
            && (if e.error.None? then OnlyStatus(rows, e.rows, f, Blocked) else e.rows == rows)
  {
  }

  /** Either user, and nobody else, can remove a row of any status: it is gone, and every other row stays as it was. */
  lemma RemoveAnswers(users: set<Id>, rows: Rows, f: Id, u: Id, clock: nat)
    ensures var e := Perform(users, rows, Remove(f, u), clock);
            && e.error == (if f !in rows then Some(NotFound)
                           else if u != rows[f].initiator && u != rows[f].receiver then Some(Forbidden) else None)
            && (e.error.None? ==>
                  && f !in e.rows
                  && forall g :: g != f ==> (g in e.rows <==> g in rows) && (g in rows ==> e.rows[g] == rows[g]))
            && (e.error.Some? ==> e.rows == rows)
  {
  }

  /** Once the only row of two living users is removed, whatever its status, either can ask the other again. */
  lemma RemovedCanAskAgain(users: set<Id>, rows: Rows, f: Id, u: Id, clock: nat, a: Id, b: Id, g: Id, later: nat)
    requires OneRowPerPair(rows) && f in rows && (u == rows[f].initiator || u == rows[f].receiver)
    requires {a, b} == {rows[f].initiator, rows[f].receiver} && a != b && a in users && b in users
    requires g !in Perform(users, rows, Remove(f, u), clock).rows
    ensures Perform(users, Perform(users, rows, Remove(f, u), clock).rows, Request(a, b, g), later).error == None
  {
    RemoveAnswers(users, rows, f, u, clock);
    var left := Perform(users, rows, Remove(f, u), clock).rows;
    RequestAnswers(users, left, a, b, g, later);
    assert forall h :: h in left ==> h in rows && left[h] == rows[h];
    assert forall h :: h in left ==> !Between(rows[f], rows[h].initiator, rows[h].receiver);
  }

  /** Deleting an account removes exactly the rows it takes part in. */
  lemma DeletionRemovesRows(users: set<Id>, rows: Rows, u: Id, clock: nat, f: Id)
    ensures var after := Perform(users, rows, DeleteAccount(u), clock).rows;
            && (f in after <==> f in rows && rows[f].initiator != u && rows[f].receiver != u)
            && (f in after ==> after[f] == rows[f])
  {
  }

  /** So does a deletion among interleaved requests, and a new request of any kind starts. */
  lemma LabelsAct(s: State, u: Id, f: Id, i: nat, pc: Pc)
    ensures u in Step(s, Label.Register(u)).users
    ensures var after := Step(s, Delete(u));
            && u !in after.users && after.inflight == s.inflight && after.answers == s.answers
            && (f in after.rows <==> f in s.rows && s.rows[f].initiator != u && s.rows[f].receiver != u)
            && (f in after.rows ==> after.rows[f] == s.rows[f])
    ensures i !in s.inflight && i !in s.answers
              && (pc.RequestLookup? || pc.AcceptLookup? || pc.BlockLookup? || pc.RemoveLookup?) ==>
              Step(s, Arrive(i, pc)) == s.(inflight := s.inflight[i := pc])
  {
  }

  /** The accounts, the rows, and the row ids ever used. */
  datatype World = World(users: set<Id>, rows: Rows, used: set<Id>)

  /** One operation of a run. Row ids are never used twice; `clock` numbers its lookup. */
  function After(w: World, op: Op, clock: nat): World {
    if op.Request? && op.f in w.used then w
    else
      World(if op.Register? then w.users + {op.u} else if op.DeleteAccount? then w.users - {op.u} else w.users,
            Perform(w.users, w.rows, op, clock).rows,
            if op.Request? then w.used + {op.f} else w.used)
  }

  function Play(ops: seq<Op>): World {
    if ops == [] then World({}, map[], {})
    else After(Play(ops[..|ops| - 1]), ops[|ops| - 1], 2 * |ops|)
  }

  ghost predicate WorldOk(w: World) {
    && OneRowPerPair(w.rows)
    && w.rows.Keys <= w.used
    && forall f :: f in w.rows ==> w.rows[f].initiator in w.users && w.rows[f].receiver in w.users
  }

  lemma AfterKeepsWorld(w: World, op: Op, clock: nat)
    requires WorldOk(w)
    ensures WorldOk(After(w, op, clock))
  {
    if !(op.Request? && op.f in w.used) {
      PerformKeepsOneRow(w.users, w.rows, op, clock);
    }
  }

  /** One after another, an unordered pair never has two rows, and every row is between two living accounts. */
  lemma {:induction false} PlayKeepsOneRow(ops: seq<Op>)
    ensures WorldOk(Play(ops))
  {
    if ops != [] {
      PlayKeepsOneRow(ops[..|ops| - 1]);
      AfterKeepsWorld(Play(ops[..|ops| - 1]), ops[|ops| - 1], 2 * |ops|);
    }
  }

  /** The later of two points in the history of row `f`. */
  ghost predicate Follows(w: World, later: World, f: Id) {
    && w.used <= later.used
    && (f in w.rows && f in later.rows ==>
          SameKey(w.rows[f], later.rows[f]) && Rank(w.rows[f].status) <= Rank(later.rows[f].status))
    && (f in w.used && f !in w.rows ==> f !in later.rows)
  }

  lemma AfterFollows(w: World, op: Op, clock: nat, f: Id)
    requires w.rows.Keys <= w.used
    ensures Follows(w, After(w, op, clock), f)
  {
    if !(op.Request? && op.f in w.used) {
      PerformOrder(w.users, w.rows, op, clock, f);
    }
  }

  /** Over any sequential run, each row's history is PENDING, then optionally ACCEPTED, then BLOCKED until it is removed,
      and a removed row never comes back. */
  lemma {:induction false} RowHistory(ops: seq<Op>, more: seq<Op>, f: Id)
    ensures Follows(Play(ops), Play(ops + more), f)
    decreases |more|
  {
    if more == [] {
      assert ops + more == ops;
    } else {
      var front := more[..|more| - 1];
      RowHistory(ops, front, f);
      PlayKeepsOneRow(ops);
      PlayKeepsOneRow(ops + front);
      assert (ops + more)[..|ops + more| - 1] == ops + front;
      AfterFollows(Play(ops + front), more[|more| - 1], 2 * |ops + more|, f);
    }
  }

  // ---- the listing ----

  function OtherParty(row: Row, u: Id): Id {
    if row.initiator == u then row.receiver else row.initiator
  }

  /** The rows `findAll` selects, optionally for one status. */
  function Listed(rows: Rows, u: Id, status: Option<Status>): set<Id> {
    set f | f in rows && Takes(rows[f], u) && (status.Some? ==> rows[f].status == status.value)
  }

  /** `u` and `v` have a row that the filter lets through. */
  ghost predicate Related(rows: Rows, u: Id, v: Id, status: Option<Status>) {
    exists f :: f in rows && {rows[f].initiator, rows[f].receiver} == {u, v} && (status.Some? ==> rows[f].status == status.value)
  }

  lemma ListedMeaning(rows: Rows, u: Id, f: Id, status: Option<Status>)
    requires f in Listed(rows, u, status) && rows[f].initiator != rows[f].receiver
    ensures OtherParty(rows[f], u) != u && Between(rows[f], u, OtherParty(rows[f], u))
  {
  }

  /** One after another, nobody is listed twice. */
  lemma ListedOnce(rows: Rows, u: Id, status: Option<Status>, f: Id, g: Id)
    requires OneRowPerPair(rows) && f in Listed(rows, u, status) && g in Listed(rows, u, status)
    requires OtherParty(rows[f], u) == OtherParty(rows[g], u)
    ensures f == g
  {
    assert Between(rows[f], rows[g].initiator, rows[g].receiver);
  }

  lemma ListNames(rows: Rows, u: Id, v: Id, status: Option<Status>, list: seq<Id>)
    requires OneRowPerPair(rows) && Query.Elements(list) == Listed(rows, u, status)
    requires forall k :: 0 <= k < |list| ==> list[k] in rows
    ensures Related(rows, u, v, status) <==> exists k :: 0 <= k < |list| && OtherParty(rows[list[k]], u) == v
  {
    if Related(rows, u, v, status) {
      var f :| f in rows && {rows[f].initiator, rows[f].receiver} == {u, v} && (status.Some? ==> rows[f].status == status.value);
      assert f in Query.Elements(list);
      var k :| 0 <= k < |list| && list[k] == f;
      assert OtherParty(rows[list[k]], u) == v;
    }
    if k :| 0 <= k < |list| && OtherParty(rows[list[k]], u) == v {
      assert list[k] in Query.Elements(list);
      ListedMeaning(rows, u, list[k], status);
    }
  }

  /** After any sequential run the list, in any tie order of the creation times, names exactly the users related to the
      reader, each once, never the reader, newest row first. */
  lemma FriendListMeaning(ops: seq<Op>, u: Id, status: Option<Status>, times: map<Id, Time>, list: seq<Id>)
    requires var s := Listed(Play(ops).rows, u, status); Query.Top(s, times, |s|, list)
    ensures var rows := Play(ops).rows;
            && (forall k :: 0 <= k < |list| ==> list[k] in rows && list[k] in times)
            && (forall k :: 0 <= k < |list| ==> OtherParty(rows[list[k]], u) != u)
            && (forall j, k :: 0 <= j < k < |list| ==>
                  OtherParty(rows[list[j]], u) != OtherParty(rows[list[k]], u) && times[list[j]] >= times[list[k]])
            && (forall v :: Related(rows, u, v, status) <==>
                  exists k :: 0 <= k < |list| && OtherParty(rows[list[k]], u) == v)
  {
    PlayKeepsOneRow(ops);
    var rows := Play(ops).rows;
    var s := Listed(rows, u, status);
    Query.TopLeaves(s, times, |s|, list);
    forall k | 0 <= k < |list| ensures list[k] in s && OtherParty(rows[list[k]], u) != u {
      assert list[k] in Query.Elements(list);
      ListedMeaning(rows, u, list[k], status);
    }
    forall j, k | 0 <= j < k < |list| ensures OtherParty(rows[list[j]], u) != OtherParty(rows[list[k]], u) {
      if OtherParty(rows[list[j]], u) == OtherParty(rows[list[k]], u) {
        ListedOnce(rows, u, status, list[j], list[k]);
      }
    }
    forall v ensures Related(rows, u, v, status) <==> exists k :: 0 <= k < |list| && OtherParty(rows[list[k]], u) == v {
      ListNames(rows, u, v, status, list);
    }
  }
}
