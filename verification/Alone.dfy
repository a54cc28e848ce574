/** Each operation as one call that nobody interrupts: its whole effect, stated at once, and the proof that this is
    what its steps do when no other request runs in between. */
module Alone {
  import opened Base
  import opened Schema
  import opened Requests
  import opened Safety

  datatype Whole = Whole(db: Db, events: multiset<Event>, reply: Reply)

  function Refuse(db: Db, e: Error): Whole {
    Whole(db, multiset{}, Failed(e))
  }

  /** What a like leads to once its own record is stored. */
  function LikeAlone(db: Db, u: Id, t: Id, env: Env): Whole {
    if !Likes(db, t, u) then Whole(db, multiset{}, Swiped(None))
    else
      match CreateMatch(db, env.id, Sorted(u, t).0, Sorted(u, t).1, env.now)
      case None => Refuse(db, KeyViolation)
      case Some(matched) => Whole(matched, MatchNews(u, t), Swiped(Some(env.id)))
  }

  /** A swipe: its own record, then the match if the other user already liked back. */
  function SwipeAlone(db: Db, u: Id, t: Id, action: Action, env: Env): Whole {
    if u == t then Refuse(db, BadRequest)
    else if (u, t) in db.swipes then Refuse(db, Conflict)
    else if u !in db.users || t !in db.users then Refuse(db, KeyViolation)
    else
      var swiped := db.(swipes := db.swipes[(u, t) := action]);
      if action == Pass then Whole(swiped, multiset{}, Swiped(None)) else LikeAlone(swiped, u, t, env)
  }

  ghost function OpenAlone(db: Db, m: Id, u: Id, env: Env): Whole {
    if m !in db.matches then Refuse(db, NotFound)
    else
      var row := db.matches[m];
      if u != row.user1 && u != row.user2 then Refuse(db, Forbidden)
      else
        match FindChat(db, m)
        case Some(c) => Whole(db, multiset{}, ChatOpened(c, m, Members(db, c)))
        case None =>
          match CreateChat(db, env.id, m, row.user1, row.user2, env.touched)
          case None => Refuse(db, KeyViolation)
          case Some(after) => Whole(after, multiset{}, ChatOpened(env.id, m, {row.user1, row.user2}))
  }

  function Others(db: Db, c: Id, u: Id): set<Id> {
    Members(db, c) - {u}
  }

  /** Whom `findFirst` may find: anybody else in the chat. */
  ghost predicate FirstOther(db: Db, c: Id, u: Id, first: Option<Id>) {
    if first.Some? then first.value in Others(db, c, u) else Others(db, c, u) == {}
  }

  function PartnerNews(path: Path, c: Id, u: Id, first: Option<Id>): multiset<Event> {
    if first.None? then multiset{} else MessageNews(path, first.value, c, u)
  }

  /** Appending a message, by any path: the message and the chat's activity, or nothing. */
  function AppendAlone(db: Db, c: Id, u: Id, content: string, kind: MessageType, env: Env): (Db, Reply) {
    if (c, u) !in db.participants then (db, Failed(Forbidden))
    else
      match AppendMessage(db, env.id, Message(c, u, content, kind, env.now), env.touched)
      case None => (db, Failed(KeyViolation))
      case Some(after) => (after, Sent(env.id))
  }

  function SendAlone(path: Path, db: Db, c: Id, u: Id, content: string, kind: MessageType, env: Env, first: Option<Id>): Whole {
    var (after, reply) := AppendAlone(db, c, u, content, kind, env);
    if reply.Failed? then Whole(after, multiset{}, reply)
    else
      var room := if path == Live then multiset{NewMessage(c, env.id, Message(c, u, content, kind, env.now))} else multiset{};
      Whole(after, room + PartnerNews(path, c, u, first), reply)
  }

  // ---- the same effect, step by step ----

  /** Request `i` runs one step per entry of `envs`, alone. */
  ghost function Play(s: State, i: nat, envs: seq<Env>): State
    decreases |envs|
  {
    if envs == [] then s else Play(Step(s, Advance(i, envs[0])), i, envs[1..])
  }

  lemma {:induction false} PlayIsARun(s: State, i: nat, envs: seq<Env>)
    ensures Play(s, i, envs) == Run(s, seq(|envs|, k requires 0 <= k < |envs| => Advance(i, envs[k])))
    decreases |envs|
  {
    var ls := seq(|envs|, k requires 0 <= k < |envs| => Advance(i, envs[k]));
    if envs != [] {
      PlayIsARun(Step(s, Advance(i, envs[0])), i, envs[1..]);
      var rest := seq(|envs[1..]|, k requires 0 <= k < |envs[1..]| => Advance(i, envs[1..][k]));
      assert ls[1..] == rest;
    }
  }

  function Finish(s: State, i: nat, w: Whole): State {
    State(w.db, s.rooms, s.events + w.events, s.inflight - {i}, s.replies[i := w.reply])
  }

  predicate Ready(s: State, i: nat, pc: Pc, env: Env) {
    i in s.inflight && s.inflight[i] == pc && i !in s.replies && Fresh(s.db, env.id)
  }

  /** What a step after the one that uses up the id of `env` may be supplied with. */
  predicate FreshAfter(db: Db, env: Env, later: Env) {
    Fresh(db, later.id) && later.id != env.id
  }

  /** A finished request ignores further turns. */
  lemma {:induction false} PlayIdle(s: State, i: nat, envs: seq<Env>)
    requires i !in s.inflight
    ensures Play(s, i, envs) == s
    decreases |envs|
  {
    if envs != [] {
      PlayIdle(s, i, envs[1..]);
    }
  }

  lemma PlayOne(s: State, i: nat, env: Env, rest: seq<Env>)
    ensures Play(s, i, [env] + rest) == Play(Step(s, Advance(i, env)), i, rest)
  {
    assert ([env] + rest)[1..] == rest;
  }

  /** One step that answers. */
  lemma PlayEnds(s: State, i: nat, pc: Pc, env: Env, rest: seq<Env>, o: Outcome)
    requires i in s.inflight && s.inflight[i] == pc && Fresh(s.db, env.id)
    requires o == Exec(s.db, s.rooms, pc, env) && o.next.pc.None? && o.next.reply.Some? && o.rooms == s.rooms
    ensures Play(s, i, [env] + rest) == Finish(s, i, Whole(o.db, o.events, o.next.reply.value))
  {
    var s' := Step(s, Advance(i, env));
    PlayOne(s, i, env, rest);
    PlayIdle(s', i, rest);
  }

  /** The state in which a request has moved on to its next statement. */
  function Moved(s: State, i: nat, db: Db, pc: Pc): State {
    State(db, s.rooms, s.events, s.inflight[i := pc], s.replies)
  }

  /** One step that goes on. */
  lemma PlayGoesOn(s: State, i: nat, pc: Pc, env: Env, rest: seq<Env>, o: Outcome)
    requires i in s.inflight && s.inflight[i] == pc && Fresh(s.db, env.id)
    requires o == Exec(s.db, s.rooms, pc, env) && o.next.pc.Some? && o.next.reply.None?
    requires o.rooms == s.rooms && o.events == multiset{}
    ensures Play(s, i, [env] + rest) == Play(Moved(s, i, o.db, o.next.pc.value), i, rest)
  {
    PlayOne(s, i, env, rest);
    assert Step(s, Advance(i, env)) == Moved(s, i, o.db, o.next.pc.value);
  }

  lemma MovedFinishes(s: State, i: nat, db: Db, pc: Pc, w: Whole)
    ensures Finish(Moved(s, i, db, pc), i, w) == Finish(s, i, w)
  {
  }

  lemma MatchIsItsSteps(s: State, i: nat, u: Id, t: Id, env: Env, later: Env)
    requires Ready(s, i, MatchInsert(u, t), env) && FreshAfter(s.db, env, later) && Likes(s.db, t, u)
    ensures Play(s, i, [env] + [later]) == Finish(s, i, LikeAlone(s.db, u, t, env))
  {
    var pc := MatchInsert(u, t);
    var o := ExecSwipe(s.db, s.rooms, pc, env);
    if o.next.pc.None? {
      PlayEnds(s, i, pc, env, [later], o);
    } else {
      PlayGoesOn(s, i, pc, env, [later], o);
      var s' := Moved(s, i, o.db, o.next.pc.value);
      var o' := ExecSwipe(o.db, s.rooms, o.next.pc.value, later);
      PlayEnds(s', i, o.next.pc.value, later, [], o');
      assert [later] + [] == [later];
      MovedFinishes(s, i, o.db, o.next.pc.value, Whole(o'.db, o'.events, o'.next.reply.value));
    }
  }

  lemma ReadBackIsItsSteps(s: State, i: nat, u: Id, t: Id, e: Env, env: Env, later: Env)
    requires Ready(s, i, ReadBack(u, t), e) && Fresh(s.db, env.id) && FreshAfter(s.db, env, later)
    ensures Play(s, i, [e] + ([env] + [later])) == Finish(s, i, LikeAlone(s.db, u, t, env))
  {
    var pc := ReadBack(u, t);
    var o := ExecSwipe(s.db, s.rooms, pc, e);
    if o.next.pc.None? {
      PlayEnds(s, i, pc, e, [env] + [later], o);
    } else {
      PlayGoesOn(s, i, pc, e, [env] + [later], o);
      MatchIsItsSteps(Moved(s, i, o.db, o.next.pc.value), i, u, t, env, later);
      MovedFinishes(s, i, o.db, o.next.pc.value, LikeAlone(s.db, u, t, env));
    }
  }

  lemma InsertIsItsSteps(s: State, i: nat, u: Id, t: Id, action: Action, e: Env, f: Env, env: Env, later: Env)
    requires Ready(s, i, SwipeInsert(u, t, action), e) && u != t && (u, t) !in s.db.swipes
    requires Fresh(s.db, f.id) && Fresh(s.db, env.id) && FreshAfter(s.db, env, later)
    ensures Play(s, i, [e] + ([f] + ([env] + [later]))) == Finish(s, i, SwipeAlone(s.db, u, t, action, env))
  {
    var pc := SwipeInsert(u, t, action);
    var rest := [f] + ([env] + [later]);
    var o := ExecSwipe(s.db, s.rooms, pc, e);
    if o.next.pc.None? {
      PlayEnds(s, i, pc, e, rest, o);
    } else {
      PlayGoesOn(s, i, pc, e, rest, o);
      ReadBackIsItsSteps(Moved(s, i, o.db, o.next.pc.value), i, u, t, f, env, later);
      MovedFinishes(s, i, o.db, o.next.pc.value, LikeAlone(o.db, u, t, env));
    }
  }

  /** A swipe run without interference has the effect of `SwipeAlone`; each step has a clock of its own. */
  lemma SwipeIsItsSteps(s: State, i: nat, u: Id, t: Id, action: Action, d: Env, e: Env, f: Env, env: Env, later: Env)
    requires Ready(s, i, SwipeLookup(u, t, action), d)
    requires Fresh(s.db, e.id) && Fresh(s.db, f.id) && Fresh(s.db, env.id) && FreshAfter(s.db, env, later)
    ensures Play(s, i, [d, e, f, env, later]) == Finish(s, i, SwipeAlone(s.db, u, t, action, env))
  {
    var pc := SwipeLookup(u, t, action);
    var rest := [e] + ([f] + ([env] + [later]));
    var o := ExecSwipe(s.db, s.rooms, pc, d);
    assert [d, e, f, env, later] == [d] + rest;
    if o.next.pc.None? {
      PlayEnds(s, i, pc, d, rest, o);
    } else {
      PlayGoesOn(s, i, pc, d, rest, o);
      InsertIsItsSteps(Moved(s, i, o.db, o.next.pc.value), i, u, t, action, e, f, env, later);
      MovedFinishes(s, i, o.db, o.next.pc.value, SwipeAlone(s.db, u, t, action, env));
    }
  }

  lemma OpenTail(s: State, i: nat, m: Id, row: Match, e: Env, env: Env)
    requires Ready(s, i, OpenFind(m, row), e) && Fresh(s.db, env.id) && m in s.db.matches && row == s.db.matches[m]
    ensures Play(s, i, [e] + [env]) == Finish(s, i, OpenAlone(s.db, m, row.user1, env))
  {
    var pc := OpenFind(m, row);
    var o := ExecOpen(s.db, s.rooms, pc, e);
    if o.next.pc.None? {
      PlayEnds(s, i, pc, e, [env], o);
    } else {
      PlayGoesOn(s, i, pc, e, [env], o);
      var s' := Moved(s, i, o.db, o.next.pc.value);
      var o' := ExecOpen(o.db, s.rooms, o.next.pc.value, env);
      assert [env] + [] == [env];
      PlayEnds(s', i, o.next.pc.value, env, [], o');
      MovedFinishes(s, i, o.db, o.next.pc.value, Whole(o'.db, o'.events, o'.next.reply.value));
    }
  }

  /** An `openChat` run without interference has the effect of `OpenAlone`. */
  lemma OpenIsItsSteps(s: State, i: nat, m: Id, u: Id, d: Env, e: Env, env: Env)
    requires Ready(s, i, OpenLookup(m, u), d) && Fresh(s.db, e.id) && Fresh(s.db, env.id)
    ensures Play(s, i, [d, e, env]) == Finish(s, i, OpenAlone(s.db, m, u, env))
  {
    var pc := OpenLookup(m, u);
    var o := ExecOpen(s.db, s.rooms, pc, d);
    assert [d, e, env] == [d] + ([e] + [env]);
    if o.next.pc.None? {
      PlayEnds(s, i, pc, d, [e] + [env], o);
    } else {
      PlayGoesOn(s, i, pc, d, [e] + [env], o);
      OpenTail(Moved(s, i, o.db, o.next.pc.value), i, m, s.db.matches[m], e, env);
      MovedFinishes(s, i, o.db, o.next.pc.value, OpenAlone(s.db, m, u, env));
    }
  }

  lemma MessageTail(s: State, i: nat, path: Path, c: Id, u: Id, first: Option<Id>, later: Env)
    requires i in s.inflight && s.inflight[i] == NotifyPartner(path, c, u) && Fresh(s.db, later.id)
    requires FirstOther(s.db, c, u, first) && (first.Some? ==> later.first == first.value)
    ensures Play(s, i, [later]) == State(s.db, s.rooms, s.events + PartnerNews(path, c, u, first), s.inflight - {i}, s.replies)
  {
    PlayOne(s, i, later, []);
    assert [later] + [] == [later];
    assert Members(s.db, c) - {u} == Others(s.db, c, u);
  }

  lemma AppendKeepsSeats(db: Db, id: Id, msg: Message, touched: Time)
    requires AppendMessage(db, id, msg, touched).Some?
    ensures AppendMessage(db, id, msg, touched).value.participants == db.participants
    ensures forall c, u, first :: FirstOther(db, c, u, first) ==>
              FirstOther(AppendMessage(db, id, msg, touched).value, c, u, first)
  {
    forall c ensures Members(AppendMessage(db, id, msg, touched).value, c) == Members(db, c) {
    }
  }

  lemma AppendKeepsFirst(db: Db, id: Id, msg: Message, touched: Time, first: Option<Id>)
    requires AppendMessage(db, id, msg, touched).Some? && FirstOther(db, msg.chatId, msg.senderId, first)
    ensures FirstOther(AppendMessage(db, id, msg, touched).value, msg.chatId, msg.senderId, first)
  {
    AppendKeepsSeats(db, id, msg, touched);
  }

  function Answered(s: State, i: nat, db: Db, r: Reply, next: Pc): State {
    State(db, s.rooms, s.events, s.inflight[i := next], s.replies[i := r])
  }

  /** One step that answers and goes on in the background. */
  lemma PlayAnswers(s: State, i: nat, pc: Pc, env: Env, rest: seq<Env>, o: Outcome, r: Reply, next: Pc)
    requires i in s.inflight && s.inflight[i] == pc && Fresh(s.db, env.id)
    requires o == Exec(s.db, s.rooms, pc, env) && o.next == Next(Some(r), Some(next))
    requires o.rooms == s.rooms && o.events == multiset{}
    ensures Play(s, i, [env] + rest) == Play(Answered(s, i, o.db, r, next), i, rest)
  {
    PlayOne(s, i, env, rest);
    assert Step(s, Advance(i, env)) == Answered(s, i, o.db, r, next);
  }

  lemma HttpNotify(s: State, i: nat, path: Path, c: Id, u: Id, db: Db, r: Reply, first: Option<Id>, later: Env)
    requires Fresh(db, later.id) && FirstOther(db, c, u, first) && (first.Some? ==> later.first == first.value)
    ensures Play(Answered(s, i, db, r, NotifyPartner(path, c, u)), i, [later]) ==
            Finish(s, i, Whole(db, PartnerNews(path, c, u, first), r))
  {
    var s' := Answered(s, i, db, r, NotifyPartner(path, c, u));
    MessageTail(s', i, path, c, u, first, later);
    assert s'.inflight - {i} == s.inflight - {i};
  }

  lemma HttpTail(s: State, i: nat, path: Path, c: Id, u: Id, content: string, kind: MessageType, env: Env, first: Option<Id>, later: Env)
    requires Ready(s, i, SendInsert(path, c, u, content, kind), env) && FreshAfter(s.db, env, later) && path != Live
    requires (c, u) in s.db.participants && FirstOther(s.db, c, u, first) && (first.Some? ==> later.first == first.value)
    ensures Play(s, i, [env] + [later]) == Finish(s, i, SendAlone(path, s.db, c, u, content, kind, env, first))
  {
    var msg := Message(c, u, content, kind, env.now);
    var pc := SendInsert(path, c, u, content, kind);
    var after := AppendMessage(s.db, env.id, msg, env.touched);
    if after.None? {
      PlayEnds(s, i, pc, env, [later], ExecSend(s.db, s.rooms, pc, env));
    } else {
      AppendKeepsFirst(s.db, env.id, msg, env.touched, first);
      PlayAnswers(s, i, pc, env, [later], ExecSend(s.db, s.rooms, pc, env), Sent(env.id), NotifyPartner(path, c, u));
      HttpNotify(s, i, path, c, u, after.value, Sent(env.id), first, later);
    }
  }

  /** Sending over HTTP or by upload, without interference, has the effect of `SendAlone`. */
  lemma HttpSendIsItsSteps(s: State, i: nat, path: Path, c: Id, u: Id, content: string, kind: MessageType,
                           e: Env, env: Env, first: Option<Id>, later: Env)
    requires Ready(s, i, SendCheck(path, c, u, content, kind), e) && path != Live
    requires Fresh(s.db, env.id) && FreshAfter(s.db, env, later)
    requires FirstOther(s.db, c, u, first) && (first.Some? ==> later.first == first.value)
    ensures Play(s, i, [e, env, later]) == Finish(s, i, SendAlone(path, s.db, c, u, content, kind, env, first))
  {
    var pc := SendCheck(path, c, u, content, kind);
    var o := ExecSend(s.db, s.rooms, pc, e);
    assert [e, env, later] == [e] + ([env] + [later]);
    if o.next.pc.None? {
      PlayEnds(s, i, pc, e, [env] + [later], o);
    } else {
      PlayGoesOn(s, i, pc, e, [env] + [later], o);
      HttpTail(Moved(s, i, o.db, o.next.pc.value), i, path, c, u, content, kind, env, first, later);
      MovedFinishes(s, i, o.db, o.next.pc.value, SendAlone(path, s.db, c, u, content, kind, env, first));
    }
  }

  function Emitted(s: State, i: nat, id: Id, msg: Message): State {
    State(s.db, s.rooms, s.events + multiset{NewMessage(msg.chatId, id, msg)},
          s.inflight[i := NotifyPartner(Live, msg.chatId, msg.senderId)], s.replies[i := Sent(id)])
  }

  lemma EmitStep(s: State, i: nat, id: Id, msg: Message, env: Env)
    requires i in s.inflight && s.inflight[i] == SendEmit(id, msg) && Fresh(s.db, env.id)
    ensures Step(s, Advance(i, env)) == Emitted(s, i, id, msg)
  {
  }

  lemma AddTwice(a: multiset<Event>, b: multiset<Event>, c: multiset<Event>)
    ensures a + b + c == a + (b + c)
  {
  }

  lemma EmittedFinishes(s: State, i: nat, id: Id, msg: Message, news: multiset<Event>)
    ensures var s' := Emitted(s, i, id, msg);
            State(s'.db, s'.rooms, s'.events + news, s'.inflight - {i}, s'.replies) ==
            Finish(s, i, Whole(s.db, multiset{NewMessage(msg.chatId, id, msg)} + news, Sent(id)))
  {
    AddTwice(s.events, multiset{NewMessage(msg.chatId, id, msg)}, news);
    assert Emitted(s, i, id, msg).inflight - {i} == s.inflight - {i};
  }

  lemma EmitTail(s: State, i: nat, id: Id, msg: Message, first: Option<Id>, e: Env, later: Env)
    requires i in s.inflight && s.inflight[i] == SendEmit(id, msg) && Fresh(s.db, e.id) && Fresh(s.db, later.id)
    requires FirstOther(s.db, msg.chatId, msg.senderId, first) && (first.Some? ==> later.first == first.value)
    ensures Play(s, i, [e] + [later]) ==
            Finish(s, i, Whole(s.db, multiset{NewMessage(msg.chatId, id, msg)}
                                     + PartnerNews(Live, msg.chatId, msg.senderId, first), Sent(id)))
  {
    var s' := Emitted(s, i, id, msg);
    EmitStep(s, i, id, msg, e);
    PlayOne(s, i, e, [later]);
    MessageTail(s', i, Live, msg.chatId, msg.senderId, first, later);
    EmittedFinishes(s, i, id, msg, PartnerNews(Live, msg.chatId, msg.senderId, first));
  }

  lemma SocketInsert(s: State, i: nat, msg: Message, env: Env, rest: seq<Env>)
    requires Ready(s, i, SendInsert(Live, msg.chatId, msg.senderId, msg.content, msg.kind), env) && msg.createdAt == env.now
    requires AppendMessage(s.db, env.id, msg, env.touched).Some?
    ensures Play(s, i, [env] + rest) ==
            Play(Moved(s, i, AppendMessage(s.db, env.id, msg, env.touched).value, SendEmit(env.id, msg)), i, rest)
  {
    var pc := SendInsert(Live, msg.chatId, msg.senderId, msg.content, msg.kind);
    PlayGoesOn(s, i, pc, env, rest, ExecSend(s.db, s.rooms, pc, env));
  }

  lemma SocketTail(s: State, i: nat, c: Id, u: Id, content: string, kind: MessageType, env: Env, first: Option<Id>, e: Env, later: Env)
    requires Ready(s, i, SendInsert(Live, c, u, content, kind), env) && FreshAfter(s.db, env, e) && FreshAfter(s.db, env, later)
    requires (c, u) in s.db.participants && FirstOther(s.db, c, u, first) && (first.Some? ==> later.first == first.value)
    ensures Play(s, i, [env] + ([e] + [later])) == Finish(s, i, SendAlone(Live, s.db, c, u, content, kind, env, first))
  {
    var msg := Message(c, u, content, kind, env.now);
    var pc := SendInsert(Live, c, u, content, kind);
    var after := AppendMessage(s.db, env.id, msg, env.touched);
    if after.None? {
      PlayEnds(s, i, pc, env, [e] + [later], ExecSend(s.db, s.rooms, pc, env));
    } else {
      AppendKeepsFirst(s.db, env.id, msg, env.touched, first);
      SocketInsert(s, i, msg, env, [e] + [later]);
      var s' := Moved(s, i, after.value, SendEmit(env.id, msg));
      EmitTail(s', i, env.id, msg, first, e, later);
      MovedFinishes(s, i, after.value, SendEmit(env.id, msg), SendAlone(Live, s.db, c, u, content, kind, env, first));
    }
  }

  /** Sending over a socket, without interference, has the effect of `SendAlone`. */
  lemma SocketSendIsItsSteps(s: State, i: nat, c: Id, u: Id, content: string, kind: MessageType,
                             d: Env, env: Env, first: Option<Id>, e: Env, later: Env)
    requires Ready(s, i, SendCheck(Live, c, u, content, kind), d)
    requires Fresh(s.db, env.id) && FreshAfter(s.db, env, e) && FreshAfter(s.db, env, later)
    requires FirstOther(s.db, c, u, first) && (first.Some? ==> later.first == first.value)
    ensures Play(s, i, [d, env, e, later]) == Finish(s, i, SendAlone(Live, s.db, c, u, content, kind, env, first))
  {
    var pc := SendCheck(Live, c, u, content, kind);
    var o := ExecSend(s.db, s.rooms, pc, d);
    var rest := [env] + ([e] + [later]);
    assert [d, env, e, later] == [d] + rest;
    if o.next.pc.None? {
      PlayEnds(s, i, pc, d, rest, o);
    } else {
      PlayGoesOn(s, i, pc, d, rest, o);
      SocketTail(Moved(s, i, o.db, o.next.pc.value), i, c, u, content, kind, env, first, e, later);
      MovedFinishes(s, i, o.db, o.next.pc.value, SendAlone(Live, s.db, c, u, content, kind, env, first));
    }
  }

  /** The membership check of joining and leaving. */
  lemma RoomLookupStep(s: State, i: nat, socket: Socket, c: Id, joins: bool, env: Env)
    requires i in s.inflight && Fresh(s.db, env.id)
    requires s.inflight[i] == if joins then JoinLookup(socket, c) else LeaveLookup(socket, c)
    ensures Step(s, Advance(i, env)) ==
            if (c, socket.userId) in s.db.participants
            then Moved(s, i, s.db, if joins then JoinEnter(socket, c) else LeaveExit(socket, c))
            else Finish(s, i, Refuse(s.db, Forbidden))
  {
  }

  /** The change itself. */
  lemma RoomChangeStep(s: State, i: nat, socket: Socket, c: Id, joins: bool, env: Env)
    requires i in s.inflight && Fresh(s.db, env.id)
    requires s.inflight[i] == if joins then JoinEnter(socket, c) else LeaveExit(socket, c)
    ensures Step(s, Advance(i, env)) ==
            State(s.db, if joins then s.rooms + {(socket, c)} else s.rooms - {(socket, c)}, s.events,
                  s.inflight - {i}, s.replies[i := if joins then Joined else Left])
  {
  }

  /** Joining or leaving a room, without interference: one lookup decides, then the room changes. */
  lemma RoomChangeIsItsSteps(s: State, i: nat, socket: Socket, c: Id, joins: bool, e: Env, env: Env)
    requires i in s.inflight && i !in s.replies && Fresh(s.db, e.id) && Fresh(s.db, env.id)
    requires s.inflight[i] == if joins then JoinLookup(socket, c) else LeaveLookup(socket, c)
    ensures var seated := socket.userId in Members(s.db, c);
            var rooms := if !seated then s.rooms else if joins then s.rooms + {(socket, c)} else s.rooms - {(socket, c)};
            var reply := if !seated then Failed(Forbidden) else if joins then Joined else Left;
            Play(s, i, [e, env]) == State(s.db, rooms, s.events, s.inflight - {i}, s.replies[i := reply])
  {
    assert socket.userId in Members(s.db, c) <==> (c, socket.userId) in s.db.participants;
    var next := Step(s, Advance(i, e));
    assert [e, env] == [e] + [env] && [env] == [env] + [];
    PlayOne(s, i, e, [env]);
    RoomLookupStep(s, i, socket, c, joins, e);
    if socket.userId in Members(s.db, c) {
      PlayOne(next, i, env, []);
      RoomChangeStep(next, i, socket, c, joins, env);
      assert next.inflight - {i} == s.inflight - {i};
    } else {
      PlayIdle(next, i, [env]);
    }
  }
}
