/** Requests in flight over one store. A request is a program counter; every awaited statement is one
    atomic step, and steps of different requests, account deletions and registrations interleave freely. */
module Requests {
  import opened Base
  import opened Schema

  /** A connection whose token was accepted; `userId` is written once, when it connects. */
  datatype Socket = Socket(id: Id, userId: Id)

  /** The three ways a message is appended: HTTP, WebSocket, image upload. */
  datatype Path = Rest | Live | Upload

  datatype Error = BadRequest | NotFound | Forbidden | Conflict | KeyViolation

  datatype Pc =
    // swipe: the statement about to run
    | SwipeLookup(u: Id, t: Id, action: Action)
    | SwipeInsert(u: Id, t: Id, action: Action)
    | ReadBack(u: Id, t: Id)
    | MatchInsert(u: Id, t: Id)
    | Announce(u: Id, t: Id, m: Id)
    // openChat
    | OpenLookup(m: Id, u: Id)
    | OpenFind(m: Id, row: Match)
    | OpenInsert(m: Id, row: Match)
    // sendMessage, handleSendMessage, uploadChatImage
    | SendCheck(path: Path, c: Id, u: Id, content: string, kind: MessageType)
    | SendInsert(path: Path, c: Id, u: Id, content: string, kind: MessageType)
    | SendEmit(id: Id, msg: Message)
    | NotifyPartner(path: Path, c: Id, sender: Id)
    // handleJoinChat, handleLeaveChat
    | JoinLookup(socket: Socket, c: Id)
    | JoinEnter(socket: Socket, c: Id)
    | LeaveLookup(socket: Socket, c: Id)
    | LeaveExit(socket: Socket, c: Id)

  datatype Reply =
    | Failed(error: Error)
    | Swiped(matchId: Option<Id>)
    | ChatOpened(c: Id, m: Id, who: set<Id>)
    | Sent(id: Id)
    | Joined
    | Left

  datatype Event =
    | NewMatch(to: Id, withUser: Id)
    | MatchPush(to: Id, about: Id)
    | NewMessage(room: Id, id: Id, msg: Message)
    | ChatUpdated(to: Id, c: Id, from: Id)
    | MessagePush(to: Id, c: Id, from: Id)

  /** What the outside supplies to a step: a fresh id, the store's clock, the server's clock, and
      which row an unordered `findFirst` returns. */
  datatype Env = Env(id: Id, now: Time, touched: Time, first: Id)

  datatype Next = Next(reply: Option<Reply>, pc: Option<Pc>)

  datatype Outcome = Outcome(db: Db, rooms: set<(Socket, Id)>, events: multiset<Event>, next: Next)

  function Goto(pc: Pc): Next { Next(None, Some(pc)) }

  function Done(r: Reply): Next { Next(Some(r), None) }

  function Fail(e: Error): Next { Done(Failed(e)) }

  predicate IsEntry(pc: Pc) {
    pc.SwipeLookup? || pc.OpenLookup? || pc.SendCheck? || pc.JoinLookup? || pc.LeaveLookup?
  }

  /** The chat of a match, if it has one. */
  ghost function FindChat(db: Db, m: Id): Option<Id> {
    if ChatKeyTaken(db, m) then
      var c :| c in db.chats && db.chats[c].matchId == Some(m);
      Some(c)
    else None
  }

  /** The events of `notifyMatch`: each user hears about the other. */
  function MatchNews(u: Id, t: Id): multiset<Event> {
    multiset{NewMatch(u, t), NewMatch(t, u), MatchPush(u, t), MatchPush(t, u)}
  }

  /** Only the WebSocket path also refreshes the recipient's chat list. */
  function MessageNews(path: Path, to: Id, c: Id, from: Id): multiset<Event> {
    if path == Live then multiset{ChatUpdated(to, c, from), MessagePush(to, c, from)}
    else multiset{MessagePush(to, c, from)}
  }

  function Still(db: Db, rooms: set<(Socket, Id)>, next: Next): Outcome {
    Outcome(db, rooms, multiset{}, next)
  }

  /** A violated key ends the request and leaves the store as it was. */
  function Commit(db: Db, rooms: set<(Socket, Id)>, after: Option<Db>, next: Next): Outcome {
    if after.None? then Still(db, rooms, Fail(KeyViolation)) else Still(after.value, rooms, next)
  }

  predicate IsSwipe(pc: Pc) {
    pc.SwipeLookup? || pc.SwipeInsert? || pc.ReadBack? || pc.MatchInsert? || pc.Announce?
  }

  function ExecSwipe(db: Db, rooms: set<(Socket, Id)>, pc: Pc, env: Env): Outcome
    requires IsSwipe(pc)
  {
    match pc
    case SwipeLookup(u, t, action) =>
      Still(db, rooms, if u == t then Fail(BadRequest)
                       else if (u, t) in db.swipes then Fail(Conflict)
                       else Goto(SwipeInsert(u, t, action)))
    case SwipeInsert(u, t, action) =>
      Commit(db, rooms, CreateSwipe(db, u, t, action),
             if action == Like then Goto(ReadBack(u, t)) else Done(Swiped(None)))
    case ReadBack(u, t) =>
      Still(db, rooms, if Likes(db, t, u) then Goto(MatchInsert(u, t)) else Done(Swiped(None)))
    case MatchInsert(u, t) =>
      var (user1, user2) := Sorted(u, t);
      Commit(db, rooms, CreateMatch(db, env.id, user1, user2, env.now), Goto(Announce(u, t, env.id)))
    case Announce(u, t, m) =>
      Outcome(db, rooms, MatchNews(u, t), Done(Swiped(Some(m))))
  }

  predicate IsOpen(pc: Pc) {
    pc.OpenLookup? || pc.OpenFind? || pc.OpenInsert?
  }

  ghost function ExecOpen(db: Db, rooms: set<(Socket, Id)>, pc: Pc, env: Env): Outcome
    requires IsOpen(pc)
  {
    match pc
    case OpenLookup(m, u) =>
      Still(db, rooms, if m !in db.matches then Fail(NotFound)
                       else if db.matches[m].user1 != u && db.matches[m].user2 != u then Fail(Forbidden)
                       else Goto(OpenFind(m, db.matches[m])))
    case OpenFind(m, row) =>
      var found := FindChat(db, m);
      Still(db, rooms, if found.None? then Goto(OpenInsert(m, row))
                       else Done(ChatOpened(found.value, m, Members(db, found.value))))
    case OpenInsert(m, row) =>
      Commit(db, rooms, CreateChat(db, env.id, m, row.user1, row.user2, env.touched),
             Done(ChatOpened(env.id, m, {row.user1, row.user2})))
  }

  predicate IsSend(pc: Pc) {
    pc.SendCheck? || pc.SendInsert? || pc.SendEmit? || pc.NotifyPartner?
  }

  function ExecSend(db: Db, rooms: set<(Socket, Id)>, pc: Pc, env: Env): Outcome
    requires IsSend(pc)
  {
    match pc
    case SendCheck(path, c, u, content, kind) =>
      Still(db, rooms, if (c, u) !in db.participants then Fail(Forbidden)
                       else Goto(SendInsert(path, c, u, content, kind)))
    case SendInsert(path, c, u, content, kind) =>
      var msg := Message(c, u, content, kind, env.now);
      Commit(db, rooms, AppendMessage(db, env.id, msg, env.touched),
             if path == Live then Goto(SendEmit(env.id, msg))
             else Next(Some(Sent(env.id)), Some(NotifyPartner(path, c, u))))
    case SendEmit(id, msg) =>
      Outcome(db, rooms, multiset{NewMessage(msg.chatId, id, msg)},
              Next(Some(Sent(id)), Some(NotifyPartner(Live, msg.chatId, msg.senderId))))
    case NotifyPartner(path, c, sender) =>
      var others := Members(db, c) - {sender};
      if others == {} then Still(db, rooms, Next(None, None))
      else if env.first in others then
        Outcome(db, rooms, MessageNews(path, env.first, c, sender), Next(None, None))
      else Still(db, rooms, Goto(pc))
  }

  predicate IsRoom(pc: Pc) {
    pc.JoinLookup? || pc.JoinEnter? || pc.LeaveLookup? || pc.LeaveExit?
  }

  function ExecRoom(db: Db, rooms: set<(Socket, Id)>, pc: Pc): Outcome
    requires IsRoom(pc)
  {
    match pc
    case JoinLookup(socket, c) =>
      Still(db, rooms, if (c, socket.userId) !in db.participants then Fail(Forbidden) else Goto(JoinEnter(socket, c)))
    case JoinEnter(socket, c) => Still(db, rooms + {(socket, c)}, Done(Joined))
    case LeaveLookup(socket, c) =>
      Still(db, rooms, if (c, socket.userId) !in db.participants then Fail(Forbidden) else Goto(LeaveExit(socket, c)))
    case LeaveExit(socket, c) => Still(db, rooms - {(socket, c)}, Done(Left))
  }

  /** One statement of a request and everything the service does before its next await. */
  ghost function Exec(db: Db, rooms: set<(Socket, Id)>, pc: Pc, env: Env): Outcome {
    if IsSwipe(pc) then ExecSwipe(db, rooms, pc, env)
    else if IsOpen(pc) then ExecOpen(db, rooms, pc, env)
    else if IsSend(pc) then ExecSend(db, rooms, pc, env)
    else ExecRoom(db, rooms, pc)
  }

  datatype State = State(
    db: Db,
    rooms: set<(Socket, Id)>,
    events: multiset<Event>,
    inflight: map<nat, Pc>,
    replies: map<nat, Reply>)

  const INITIAL := State(EMPTY, {}, multiset{}, map[], map[])

  datatype Label =
    | Arrive(i: nat, pc: Pc)
    | Advance(i: nat, env: Env)
    | Register(u: Id, now: Time)
    | AddProfile(u: Id, name: string)
    | Delete(u: Id)
    | Disconnect(socket: Socket)

  predicate StepOf(l: Label, i: nat) {
    l.Advance? && l.i == i
  }

  function Apply(s: State, i: nat, o: Outcome): State {
    State(o.db, o.rooms, s.events + o.events,
          if o.next.pc.Some? then s.inflight[i := o.next.pc.value] else s.inflight - {i},
          if o.next.reply.Some? then s.replies[i := o.next.reply.value] else s.replies)
  }

  function WithDb(s: State, after: Option<Db>): State {
    if after.Some? then s.(db := after.value) else s
  }

  predicate Fresh(db: Db, id: Id) {
    id !in db.usedMatches && id !in db.founded && id !in db.messages
  }

  /** A label that is not enabled leaves the state as it was. */
  ghost function Step(s: State, l: Label): State {
    match l
    case Arrive(i, pc) =>
      if i in s.inflight || i in s.replies || !IsEntry(pc) then s else s.(inflight := s.inflight[i := pc])
    case Advance(i, env) =>
      if i !in s.inflight || !Fresh(s.db, env.id) then s
      else Apply(s, i, Exec(s.db, s.rooms, s.inflight[i], env))
    case Register(u, now) => WithDb(s, CreateUser(s.db, u, now))
    case AddProfile(u, name) => WithDb(s, CreateProfile(s.db, u, name))
    case Delete(u) => WithDb(s, DeleteUser(s.db, u))
    case Disconnect(socket) => s.(rooms := set r | r in s.rooms && r.0 != socket)
  }

  ghost function Run(s: State, ls: seq<Label>): State
    decreases |ls|
  {
    if ls == [] then s else Run(Step(s, ls[0]), ls[1..])
  }
}
