/** What the answer to a request says about the request that was made, and who is behind a notification, over whole runs. */
module Answers {
  import opened Base
  import opened Schema
  import opened Requests
  import opened Safety
  import opened Guarantees
  import opened Failures

  /** The request that arrived under number `i`. */
  ghost function Asked(ls: seq<Label>, i: nat): Option<Pc> {
    if ls == [] then None
    else
      var before := Asked(ls[..|ls| - 1], i);
      var l := ls[|ls| - 1];
      if before.None? && l.Arrive? && l.i == i && IsEntry(l.pc) then Some(l.pc) else before
  }

  ghost predicate HasWritten(db: Db, c: Id, u: Id) {
    u in db.gone || exists id :: id in db.messages && db.messages[id].chatId == c && db.messages[id].senderId == u
  }

  predicate Stored(db: Db, u: Id, t: Id, action: Action) {
    ((u, t) in db.swipes && db.swipes[(u, t)] == action) || Lost(db, u, t)
  }

  /** `id` is the match of the two, unless an account is gone. */
  predicate Matches(db: Db, id: Id, u: Id, t: Id) {
    MatchOf(db, id, u, t) || Lost(db, u, t)
  }

  predicate SaysIt(msg: Message, c: Id, u: Id, content: string, kind: MessageType) {
    msg.chatId == c && msg.senderId == u && msg.content == content && msg.kind == kind
  }

  /** `id` is a stored message with that sender, chat and content, unless the sender is gone. */
  predicate IsMessage(db: Db, id: Id, c: Id, u: Id, content: string, kind: MessageType) {
    (id in db.messages && SaysIt(db.messages[id], c, u, content, kind)) || u in db.gone
  }

  /** How far a request may have come. */
  ghost predicate PcFits(db: Db, asked: Pc, pc: Pc) {
    match asked
    case SwipeLookup(u, t, action) =>
      || pc == asked
      || (pc == SwipeInsert(u, t, action) && u != t)
      || (u != t && action == Like && Stored(db, u, t, Like)
          && (pc == ReadBack(u, t) || pc == MatchInsert(u, t)
              || (pc.Announce? && pc == Announce(u, t, pc.m) && Matches(db, pc.m, u, t))))
    case OpenLookup(m, u) =>
      || pc == asked
      || ((pc.OpenFind? || pc.OpenInsert?) && pc.m == m && (u == pc.row.user1 || u == pc.row.user2))
    case SendCheck(path, c, u, content, kind) =>
      || pc == asked
      || pc == SendInsert(path, c, u, content, kind)
      || (path == Live && pc.SendEmit? && SaysIt(pc.msg, c, u, content, kind) && IsMessage(db, pc.id, c, u, content, kind))
      || (pc == NotifyPartner(path, c, u) && HasWritten(db, c, u))
    case JoinLookup(socket, c) => pc == asked || pc == JoinEnter(socket, c)
    case LeaveLookup(socket, c) => pc == asked || (pc == LeaveExit(socket, c) && Present(db, socket.userId, c))
    case _ => false
  }

  /** What may be answered to a request. */
  ghost predicate ReplyFits(db: Db, asked: Pc, reply: Reply) {
    match asked
    case SwipeLookup(u, t, action) =>
      if reply.Failed? then
        && (reply.error == BadRequest <==> u == t)
        && (reply.error == BadRequest || reply.error == Conflict || reply.error == KeyViolation)
        && (reply.error == Conflict ==> Stored(db, u, t, Like) || Stored(db, u, t, Pass))
      else
        && reply.Swiped? && u != t && Stored(db, u, t, action)
        && (reply.matchId.Some? ==> action == Like && Matches(db, reply.matchId.value, u, t))
    case OpenLookup(m, u) =>
      if reply.Failed? then reply.error == NotFound || reply.error == Forbidden || reply.error == KeyViolation
      else reply.ChatOpened? && reply.m == m && u in reply.who && reply.c in db.founded && db.founded[reply.c].matchId == m
    case SendCheck(_, c, u, content, kind) =>
      if reply.Failed? then reply.error == Forbidden || reply.error == KeyViolation
      else reply.Sent? && IsMessage(db, reply.id, c, u, content, kind)
    case JoinLookup(socket, c) =>
      reply == Failed(Forbidden) || (reply == Joined && Present(db, socket.userId, c))
    case LeaveLookup(socket, c) =>
      reply == Failed(Forbidden) || (reply == Left && Present(db, socket.userId, c))
    case _ => false
  }

  // ---- stable under what others do ----

  lemma WrittenStays(db: Db, later: Db, c: Id, u: Id)
    requires Later(db, later) && HasWritten(db, c, u)
    ensures HasWritten(later, c, u)
  {
    if u !in later.gone {
      var id :| id in db.messages && db.messages[id].chatId == c && db.messages[id].senderId == u;
      assert id in later.messages && later.messages[id] == db.messages[id];
    }
  }

  lemma PcFitsStays(db: Db, later: Db, asked: Pc, pc: Pc)
    requires Later(db, later) && PcFits(db, asked, pc)
    ensures PcFits(later, asked, pc)
  {
    if asked.SendCheck? && HasWritten(db, asked.c, asked.u) {
      WrittenStays(db, later, asked.c, asked.u);
    }
  }

  lemma ReplyFitsStays(db: Db, later: Db, asked: Pc, reply: Reply)
    requires Later(db, later) && ReplyFits(db, asked, reply)
    ensures ReplyFits(later, asked, reply)
  {
  }

  // ---- one step of the request itself ----

  ghost predicate NextFits(db: Db, asked: Pc, next: Next) {
    && (next.pc.Some? ==> PcFits(db, asked, next.pc.value))
    && (next.reply.Some? ==> ReplyFits(db, asked, next.reply.value))
  }

  lemma MatchInsertFits(db: Db, rooms: set<(Socket, Id)>, asked: Pc, pc: Pc, env: Env)
    requires pc.MatchInsert? && asked.SwipeLookup? && PcFits(db, asked, pc)
    ensures var o := ExecSwipe(db, rooms, pc, env); NextFits(o.db, asked, o.next)
  {
    SortedForgetsOrder(pc.u, pc.t);
    var (user1, user2) := Sorted(pc.u, pc.t);
    var after := CreateMatch(db, env.id, user1, user2, env.now);
    if after.Some? {
      assert MatchOf(after.value, env.id, pc.u, pc.t) && after.value.swipes == db.swipes && after.value.gone == db.gone;
    }
  }

  lemma InsertFits(db: Db, rooms: set<(Socket, Id)>, asked: Pc, pc: Pc, env: Env)
    requires pc.SwipeInsert? && PcFits(db, asked, pc)
    ensures var o := ExecSwipe(db, rooms, pc, env); NextFits(o.db, asked, o.next)
  {
    var after := CreateSwipe(db, pc.u, pc.t, pc.action);
    assert after.Some? ==> Stored(after.value, pc.u, pc.t, pc.action);
  }

  lemma ReadFits(db: Db, rooms: set<(Socket, Id)>, asked: Pc, pc: Pc, env: Env)
    requires (pc.SwipeLookup? || pc.ReadBack? || pc.Announce?) && PcFits(db, asked, pc)
    ensures var o := ExecSwipe(db, rooms, pc, env); NextFits(o.db, asked, o.next)
  {
  }

  lemma SwipeFits(db: Db, rooms: set<(Socket, Id)>, asked: Pc, pc: Pc, env: Env)
    requires IsSwipe(pc) && Consistent(db) && PcOk(db, pc) && PcFits(db, asked, pc)
    ensures var o := ExecSwipe(db, rooms, pc, env); NextFits(o.db, asked, o.next)
  {
    if pc.MatchInsert? {
      MatchInsertFits(db, rooms, asked, pc, env);
    } else if pc.SwipeInsert? {
      InsertFits(db, rooms, asked, pc, env);
    } else {
      ReadFits(db, rooms, asked, pc, env);
    }
  }

  lemma FindFits(db: Db, rooms: set<(Socket, Id)>, asked: Pc, pc: Pc, env: Env)
    requires pc.OpenFind? && asked.OpenLookup? && Consistent(db) && PcOk(db, pc) && PcFits(db, asked, pc)
    ensures var o := ExecOpen(db, rooms, pc, env); NextFits(o.db, asked, o.next)
  {
    if FindChat(db, pc.m).Some? {
      var c := FindChat(db, pc.m).value;
      OpenChatMembers(db, c, pc.m);
      assert SoundChat(db, db.chats[c], db.founded[c]);
    }
  }

  lemma OpenFits(db: Db, rooms: set<(Socket, Id)>, asked: Pc, pc: Pc, env: Env)
    requires IsOpen(pc) && Consistent(db) && PcOk(db, pc) && PcFits(db, asked, pc)
    ensures var o := ExecOpen(db, rooms, pc, env); NextFits(o.db, asked, o.next)
  {
    if pc.OpenFind? {
      FindFits(db, rooms, asked, pc, env);
    }
  }

  lemma SendFits(db: Db, rooms: set<(Socket, Id)>, asked: Pc, pc: Pc, env: Env)
    requires IsSend(pc) && PcFits(db, asked, pc)
    ensures var o := ExecSend(db, rooms, pc, env); NextFits(o.db, asked, o.next)
  {
    var o := ExecSend(db, rooms, pc, env);
    if pc.SendInsert? && !(o.next.reply.Some? && o.next.reply.value.Failed?) {
      assert env.id in o.db.messages && SaysIt(o.db.messages[env.id], asked.c, asked.u, asked.content, asked.kind);
    }
  }

  lemma RoomFits(db: Db, rooms: set<(Socket, Id)>, asked: Pc, pc: Pc)
    requires IsRoom(pc) && PcOk(db, pc) && PcFits(db, asked, pc)
    ensures var o := ExecRoom(db, rooms, pc); NextFits(o.db, asked, o.next)
  {
  }

  lemma ExecFits(db: Db, rooms: set<(Socket, Id)>, asked: Pc, pc: Pc, env: Env)
    requires Consistent(db) && PcOk(db, pc) && PcFits(db, asked, pc)
    ensures var o := Exec(db, rooms, pc, env); NextFits(o.db, asked, o.next)
  {
    if IsSwipe(pc) {
      SwipeFits(db, rooms, asked, pc, env);
    } else if IsOpen(pc) {
      OpenFits(db, rooms, asked, pc, env);
    } else if IsSend(pc) {
      SendFits(db, rooms, asked, pc, env);
    } else {
      RoomFits(db, rooms, asked, pc);
    }
  }

  // ---- whole runs ----

  /** Request `i` has come no further, and been answered nothing else, than fits what was asked. */
  ghost predicate Fits(s: State, i: nat, asked: Option<Pc>) {
    && (i in s.inflight ==> asked.Some? && PcFits(s.db, asked.value, s.inflight[i]))
    && (i in s.replies ==> asked.Some? && ReplyFits(s.db, asked.value, s.replies[i]))
    && (asked.Some? ==> i in s.inflight || i in s.replies)
  }

  /** A request leaves only after its answer. */
  lemma OnlyNotifyEndsSilently(db: Db, rooms: set<(Socket, Id)>, pc: Pc, env: Env)
    requires !pc.NotifyPartner?
    ensures var next := Exec(db, rooms, pc, env).next; next.pc.Some? || next.reply.Some?
  {
  }

  lemma OwnStepFits(s: State, i: nat, env: Env, asked: Option<Pc>)
    requires Inv(s) && Fits(s, i, asked) && i in s.inflight && Fresh(s.db, env.id)
    requires s.inflight[i].NotifyPartner? ==> i in s.replies
    ensures Fits(Step(s, Advance(i, env)), i, asked)
  {
    var t := Step(s, Advance(i, env));
    ExecFits(s.db, s.rooms, asked.value, s.inflight[i], env);
    StepIsLater(s, Advance(i, env));
    if i in s.replies {
      ReplyFitsStays(s.db, t.db, asked.value, s.replies[i]);
    }
    if !s.inflight[i].NotifyPartner? {
      OnlyNotifyEndsSilently(s.db, s.rooms, s.inflight[i], env);
    }
  }

  /** Steps of others leave a request where it is; only an arrival under its number starts it. */
  lemma OthersLeaveRequest(s: State, i: nat, l: Label)
    requires !StepOf(l, i)
    ensures var t := Step(s, l);
            && (i in s.replies <==> i in t.replies) && (i in s.replies ==> t.replies[i] == s.replies[i])
            && (i in s.inflight ==> i in t.inflight && t.inflight[i] == s.inflight[i])
            && (i in t.inflight && i !in s.inflight ==>
                  l.Arrive? && l.i == i && IsEntry(l.pc) && t.inflight[i] == l.pc && i !in s.replies)
            && (l.Arrive? && l.i == i && IsEntry(l.pc) ==> i in t.inflight || i in t.replies)
  {
  }

  lemma OtherStepFits(s: State, i: nat, l: Label, asked: Option<Pc>)
    requires Inv(s) && Fits(s, i, asked) && !StepOf(l, i)
    ensures var asked' := if asked.None? && l.Arrive? && l.i == i && IsEntry(l.pc) then Some(l.pc) else asked;
            Fits(Step(s, l), i, asked')
  {
    var t := Step(s, l);
    StepIsLater(s, l);
    OthersLeaveRequest(s, i, l);
    if i in s.inflight {
      PcFitsStays(s.db, t.db, asked.value, s.inflight[i]);
    }
    if i in s.replies {
      ReplyFitsStays(s.db, t.db, asked.value, s.replies[i]);
    }
  }

  lemma {:induction false} RunFits(ls: seq<Label>, i: nat)
    ensures Fits(Run(INITIAL, ls), i, Asked(ls, i))
  {
    if ls != [] {
      var front, l := ls[..|ls| - 1], ls[|ls| - 1];
      var s := Run(INITIAL, front);
      RunFits(front, i);
      ReachableIsSound(front);
      assert ls == front + [l];
      RunExtends(INITIAL, front, l);
      if !StepOf(l, i) {
        OtherStepFits(s, i, l, Asked(front, i));
      } else if i in s.inflight && Fresh(s.db, l.env.id) {
        RunKeepsTrail(front, i);
        OwnStepFits(s, i, l.env, Asked(front, i));
      }
    }
  }

  /** Over any run, every answer belongs to the request that was made: a swipe is answered with the match of its own pair,
      opening a chat with the chat of the requested match, which the asker is in, sending with the id of the very message,
      and a room change only to a participant. Whatever was answered still holds, unless an account is gone. */
  lemma AnswersFit(ls: seq<Label>, i: nat)
    requires i in Run(INITIAL, ls).replies
    ensures Asked(ls, i).Some? && ReplyFits(Run(INITIAL, ls).db, Asked(ls, i).value, Run(INITIAL, ls).replies[i])
  {
    RunFits(ls, i);
  }

  /** A like answered with a match id stays the id of a chat to open: it names a match of the two as long as both live. */
  lemma SwipeAnswerNamesTheMatch(ls: seq<Label>, i: nat, u: Id, t: Id, action: Action, m: Id)
    requires Asked(ls, i) == Some(SwipeLookup(u, t, action))
    requires var replies := Run(INITIAL, ls).replies; i in replies && replies[i] == Swiped(Some(m))
    ensures var db := Run(INITIAL, ls).db;
            u in db.users && t in db.users ==>
              && m in db.matches && {db.matches[m].user1, db.matches[m].user2} == {u, t}
              && (u, t) in db.swipes && db.swipes[(u, t)] == Like && action == Like
  {
    AnswersFit(ls, i);
    ReachableIsSound(ls);
  }

  // ---- who is behind a notification ----

  ghost predicate WrittenBehind(db: Db, e: Event) {
    && (e.MessagePush? ==> HasWritten(db, e.c, e.from))
    && (e.ChatUpdated? ==> HasWritten(db, e.c, e.from))
  }

  ghost predicate SendersWrote(s: State) {
    forall e :: e in s.events ==> WrittenBehind(s.db, e)
  }

  /** Only the last step of a send tells the other participant, about the sender who made it. */
  lemma ExecNotifies(db: Db, rooms: set<(Socket, Id)>, pc: Pc, env: Env, e: Event)
    requires e in Exec(db, rooms, pc, env).events && (e.MessagePush? || e.ChatUpdated?)
    ensures pc.NotifyPartner? && e.c == pc.c && e.from == pc.sender && e.to != pc.sender && (pc.c, e.to) in db.participants
  {
  }

  ghost predicate NotifierWrote(db: Db, pc: Pc) {
    pc.NotifyPartner? ==> HasWritten(db, pc.c, pc.sender)
  }

  lemma WrittenBehindStays(db: Db, later: Db, e: Event)
    requires Later(db, later) && WrittenBehind(db, e)
    ensures WrittenBehind(later, e)
  {
    if e.MessagePush? || e.ChatUpdated? {
      WrittenStays(db, later, e.c, e.from);
    }
  }

  lemma StepKeepsSenders(s: State, l: Label)
    requires Inv(s) && SendersWrote(s) && forall i :: i in s.inflight ==> NotifierWrote(s.db, s.inflight[i])
    ensures SendersWrote(Step(s, l))
  {
    var t := Step(s, l);
    StepIsLater(s, l);
    forall e | e in t.events ensures WrittenBehind(t.db, e) {
      if e !in s.events {
        assert l.Advance? && e in Exec(s.db, s.rooms, s.inflight[l.i], l.env).events;
        if e.MessagePush? || e.ChatUpdated? {
          ExecNotifies(s.db, s.rooms, s.inflight[l.i], l.env, e);
          assert NotifierWrote(s.db, s.inflight[l.i]);
        }
      }
      WrittenBehindStays(s.db, t.db, e);
    }
  }

  lemma NotifiersWrote(ls: seq<Label>)
    ensures var s := Run(INITIAL, ls); forall i :: i in s.inflight ==> NotifierWrote(s.db, s.inflight[i])
  {
    var s := Run(INITIAL, ls);
    forall i | i in s.inflight ensures NotifierWrote(s.db, s.inflight[i]) {
      RunFits(ls, i);
    }
  }

  lemma {:induction false} RunSendersWrote(ls: seq<Label>)
    ensures SendersWrote(Run(INITIAL, ls))
  {
    if ls != [] {
      var front, l := ls[..|ls| - 1], ls[|ls| - 1];
      var s := Run(INITIAL, front);
      RunSendersWrote(front);
      ReachableIsSound(front);
      assert ls == front + [l];
      RunExtends(INITIAL, front, l);
      NotifiersWrote(front);
      StepKeepsSenders(s, l);
    }
  }

  /** Over any run, whoever a push or a chat-list event names as the writer has a message stored in that chat, or is gone;
      the one told is another participant, or is gone. */
  lemma NotificationsAreAboutMessages(ls: seq<Label>, to: Id, c: Id, from: Id)
    requires var s := Run(INITIAL, ls); MessagePush(to, c, from) in s.events || ChatUpdated(to, c, from) in s.events
    ensures var db := Run(INITIAL, ls).db;
            && (from in db.gone || exists id :: id in db.messages && db.messages[id].chatId == c && db.messages[id].senderId == from)
            && to != from && ((c, to) in db.participants || to in db.gone)
  {
    var s := Run(INITIAL, ls);
    RunSendersWrote(ls);
    ReachableIsSound(ls);
    assert WrittenBehind(s.db, MessagePush(to, c, from)) || WrittenBehind(s.db, ChatUpdated(to, c, from));
    assert EventOk(s.db, MessagePush(to, c, from)) || EventOk(s.db, ChatUpdated(to, c, from));
    assert Seated(s.db, c, s.db.founded[c].user1) && Seated(s.db, c, s.db.founded[c].user2);
  }
}
