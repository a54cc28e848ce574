/** The services as objects: one method per operation, awaiting one statement after another, with nobody else running.
    Each method is tied to the effect stated for it in `Alone`, `Paging` or `Discovery`. */
module Services {
  import opened Base
  import opened Query
  import opened Schema
  import opened Requests
  import opened Safety
  import Alone
  import Promises
  import Paging
  import Discovery

  /** The database client. A write answers whether it committed. */
  class PrismaService {
    var db: Db

    ghost predicate Valid()
      reads this
    {
      Consistent(db)
    }

    constructor ()
      ensures db == EMPTY && Valid()
    {
      db := EMPTY;
    }

    method FindSwipe(u: Id, t: Id) returns (found: Option<Action>)
      ensures found == if (u, t) in db.swipes then Some(db.swipes[(u, t)]) else None
    {
      if (u, t) in db.swipes {
        return Some(db.swipes[(u, t)]);
      }
      return None;
    }

    method CreateSwipeRecord(u: Id, t: Id, action: Action) returns (ok: bool)
      modifies this
      ensures var after := CreateSwipe(old(db), u, t, action);
              ok == after.Some? && db == if ok then after.value else old(db)
    {
      var after := CreateSwipe(db, u, t, action);
      ok := after.Some?;
      if ok {
        db := after.value;
      }
    }

    method CreateMatchRow(m: Id, user1: Id, user2: Id, now: Time) returns (ok: bool)
      modifies this
      ensures var after := CreateMatch(old(db), m, user1, user2, now);
              ok == after.Some? && db == if ok then after.value else old(db)
    {
      var after := CreateMatch(db, m, user1, user2, now);
      ok := after.Some?;
      if ok {
        db := after.value;
      }
    }

    method FindMatch(m: Id) returns (row: Option<Match>)
      ensures row == if m in db.matches then Some(db.matches[m]) else None
    {
      if m in db.matches {
        return Some(db.matches[m]);
      }
      return None;
    }

    method FindChatOfMatch(m: Id) returns (c: Option<Id>)
      requires Valid()
      ensures c == FindChat(db, m)
    {
      if ChatKeyTaken(db, m) {
        var d :| d in db.chats && db.chats[d].matchId == Some(m);
        Promises.OpenedChat(db, d, m);
        return Some(d);
      }
      return None;
    }

    method CreateChatRow(c: Id, m: Id, user1: Id, user2: Id, now: Time) returns (ok: bool)
      modifies this
      ensures var after := CreateChat(old(db), c, m, user1, user2, now);
              ok == after.Some? && db == if ok then after.value else old(db)
    {
      var after := CreateChat(db, c, m, user1, user2, now);
      ok := after.Some?;
      if ok {
        db := after.value;
      }
    }

    method IsParticipant(c: Id, u: Id) returns (seated: bool)
      ensures seated == ((c, u) in db.participants)
    {
      seated := (c, u) in db.participants;
    }

    method FindFirstOther(c: Id, u: Id) returns (first: Option<Id>)
      ensures Alone.FirstOther(db, c, u, first)
    {
      var others := Alone.Others(db, c, u);
      if others == {} {
        return None;
      }
      var v :| v in others;
      return Some(v);
    }

    method Append(id: Id, msg: Message, touched: Time) returns (ok: bool)
      modifies this
      ensures var after := AppendMessage(old(db), id, msg, touched);
              ok == after.Some? && db == if ok then after.value else old(db)
    {
      var after := AppendMessage(db, id, msg, touched);
      ok := after.Some?;
      if ok {
        db := after.value;
      }
    }

    method FindMessage(id: Id) returns (msg: Option<Message>)
      ensures msg == if id in db.messages then Some(db.messages[id]) else None
    {
      if id in db.messages {
        return Some(db.messages[id]);
      }
      return None;
    }

    method FindMessages(c: Id, before: Option<Time>, take: nat) returns (rows: seq<Id>)
      ensures Top(Paging.Visible(db.messages, c, before), Paging.Times(db.messages), take, rows)
    {
      rows := FindTop(Paging.Visible(db.messages, c, before), Paging.Times(db.messages), take);
    }

    method DeleteUserRow(u: Id) returns (ok: bool)
      modifies this
      ensures var after := DeleteUser(old(db), u);
              ok == after.Some? && db == if ok then after.value else old(db)
    {
      var after := DeleteUser(db, u);
      ok := after.Some?;
      if ok {
        db := after.value;
      }
    }
  }

  /** What has left the server: socket events and push notifications. */
  class Outbox {
    var sent: multiset<Event>

    constructor ()
      ensures sent == multiset{}
    {
      sent := multiset{};
    }

    method Send(events: multiset<Event>)
      modifies this
      ensures sent == old(sent) + events
    {
      sent := sent + events;
    }
  }

  class MatchesService {
    const prisma: PrismaService
    const outbox: Outbox

    constructor (prisma: PrismaService, outbox: Outbox)
      ensures this.prisma == prisma && this.outbox == outbox
    {
      this.prisma := prisma;
      this.outbox := outbox;
    }

    method Swipe(userId: Id, targetId: Id, action: Action, env: Env) returns (r: Reply)
      modifies prisma, outbox
      ensures var w := Alone.SwipeAlone(old(prisma.db), userId, targetId, action, env);
              prisma.db == w.db && outbox.sent == old(outbox.sent) + w.events && r == w.reply
      ensures r.Swiped? && r.matchId.Some? ==> MatchOf(prisma.db, r.matchId.value, userId, targetId)
    {
      SortedForgetsOrder(userId, targetId);
      if userId == targetId {
        return Failed(BadRequest);
      }
      var existing := prisma.FindSwipe(userId, targetId);
      if existing.Some? {
        return Failed(Conflict);
      }
      var created := prisma.CreateSwipeRecord(userId, targetId, action);
      if !created {
        return Failed(KeyViolation);
      }
      var matchId := None;
      if action == Like {
        var mutualLike := prisma.FindSwipe(targetId, userId);
        if mutualLike == Some(Like) {
          var (user1, user2) := Sorted(userId, targetId);
          created := prisma.CreateMatchRow(env.id, user1, user2, env.now);
          if !created {
            return Failed(KeyViolation);
          }
          matchId := Some(env.id);
          NotifyMatch(userId, targetId);
        }
      }
      return Swiped(matchId);
    }

    method NotifyMatch(userA: Id, userB: Id)
      modifies outbox
      ensures outbox.sent == old(outbox.sent)
                + multiset{NewMatch(userA, userB), NewMatch(userB, userA), MatchPush(userA, userB), MatchPush(userB, userA)}
    {
      outbox.Send(multiset{NewMatch(userA, userB)});
      outbox.Send(multiset{NewMatch(userB, userA)});
      outbox.Send(multiset{MatchPush(userA, userB), MatchPush(userB, userA)});
    }
  }

  datatype PageAnswer = PageFound(page: Paging.Page) | PageRefused(error: Error)

  class ChatService {
    const prisma: PrismaService
    const outbox: Outbox

    constructor (prisma: PrismaService, outbox: Outbox)
      ensures this.prisma == prisma && this.outbox == outbox
    {
      this.prisma := prisma;
      this.outbox := outbox;
    }

    method OpenChat(matchId: Id, userId: Id, env: Env) returns (r: Reply)
      requires prisma.Valid()
      modifies prisma
      ensures var w := Alone.OpenAlone(old(prisma.db), matchId, userId, env);
              prisma.db == w.db && w.events == multiset{} && r == w.reply
    {
      var row := prisma.FindMatch(matchId);
      if row.None? {
        return Failed(NotFound);
      }
      if row.value.user1 != userId && row.value.user2 != userId {
        return Failed(Forbidden);
      }
      var existing := prisma.FindChatOfMatch(matchId);
      if existing.Some? {
        return ChatOpened(existing.value, matchId, Members(prisma.db, existing.value));
      }
      var created := prisma.CreateChatRow(env.id, matchId, row.value.user1, row.value.user2, env.touched);
      if !created {
        return Failed(KeyViolation);
      }
      return ChatOpened(env.id, matchId, {row.value.user1, row.value.user2});
    }

    /** A page is refused to non-participants and otherwise is one of the possible answers to the cursor. */
    method GetMessages(chatId: Id, userId: Id, cursor: Option<Id>, pageSize: Option<nat>) returns (r: PageAnswer)
      requires pageSize.Some? ==> 1 <= pageSize.value <= 100
      ensures r == PageRefused(Forbidden) <==> userId !in Members(prisma.db, chatId)
      ensures r.PageFound? ==>
                Paging.Answers(prisma.db.messages, chatId, cursor, if pageSize.Some? then pageSize.value else 20, r.page)
      ensures r.PageFound? ==>
                Paging.IsPage(prisma.db.messages, chatId, cursor, if pageSize.Some? then pageSize.value else 20, r.page)
    {
      assert userId in Members(prisma.db, chatId) <==> (chatId, userId) in prisma.db.participants;
      var seated := prisma.IsParticipant(chatId, userId);
      if !seated {
        return PageRefused(Forbidden);
      }
      var limit := if pageSize.Some? then pageSize.value else 20;
      var cursorFilter: Option<Time> := None;
      if cursor.Some? {
        var cursorMsg := prisma.FindMessage(cursor.value);
        if cursorMsg.Some? {
          cursorFilter := Some(cursorMsg.value.createdAt);
        }
      }
      var messages := prisma.FindMessages(chatId, cursorFilter, limit + 1);
      var hasMore := |messages| > limit;
      var data := if hasMore then messages[..limit] else messages;
      var nextCursor := if hasMore then Some(data[|data| - 1]) else None;
      assert Paging.Page(data, nextCursor) == Paging.Trim(messages, limit);
      Paging.RowsMakeAPage(prisma.db.messages, chatId, cursor, limit, messages);
      return PageFound(Paging.Page(data, nextCursor));
    }

    method SendMessage(chatId: Id, userId: Id, content: string, kind: Option<MessageType>, env: Env)
      returns (r: Reply, ghost first: Option<Id>)
      modifies prisma, outbox
      ensures Alone.FirstOther(old(prisma.db), chatId, userId, first)
      ensures var w := Alone.SendAlone(Rest, old(prisma.db), chatId, userId, content,
                                       if kind.Some? then kind.value else Text, env, first);
              prisma.db == w.db && outbox.sent == old(outbox.sent) + w.events && r == w.reply
    {
      var seated := prisma.IsParticipant(chatId, userId);
      if !seated {
        first := prisma.FindFirstOther(chatId, userId);
        return Failed(Forbidden), first;
      }
      var msg := Message(chatId, userId, content, if kind.Some? then kind.value else Text, env.now);
      label before:
      var stored := prisma.Append(env.id, msg, env.touched);
      if !stored {
        first := prisma.FindFirstOther(chatId, userId);
        return Failed(KeyViolation), first;
      }
      Alone.AppendKeepsSeats(old@before(prisma.db), env.id, msg, env.touched);
      first := NotifyMessageRecipient(chatId, userId);
      return Sent(env.id), first;
    }

    method NotifyMessageRecipient(chatId: Id, senderId: Id) returns (ghost first: Option<Id>)
      modifies outbox
      ensures Alone.FirstOther(prisma.db, chatId, senderId, first)
      ensures first.Some? ==> first.value != senderId && (chatId, first.value) in prisma.db.participants
      ensures outbox.sent == old(outbox.sent)
                + if first.Some? then multiset{MessagePush(first.value, chatId, senderId)} else multiset{}
    {
      var other := prisma.FindFirstOther(chatId, senderId);
      first := other;
      if other.Some? {
        outbox.Send(multiset{MessagePush(other.value, chatId, senderId)});
      }
    }
  }

  class ChatGateway {
    const prisma: PrismaService
    const outbox: Outbox
    var rooms: set<(Socket, Id)>

    /** Whoever is in a chat's room sits in the chat, or has deleted the account. */
    ghost predicate Valid()
      reads this, prisma
    {
      prisma.Valid() && RoomsOk(prisma.db, rooms)
    }

    constructor (prisma: PrismaService, outbox: Outbox)
      requires prisma.Valid()
      ensures this.prisma == prisma && this.outbox == outbox && rooms == {} && Valid()
    {
      this.prisma := prisma;
      this.outbox := outbox;
      this.rooms := {};
    }

    method HandleJoinChat(socket: Socket, chatId: Id) returns (r: Reply)
      requires Valid()
      modifies this`rooms
      ensures Valid()
      ensures r == if socket.userId in Members(prisma.db, chatId) then Joined else Failed(Forbidden)
      ensures rooms == if r == Joined then old(rooms) + {(socket, chatId)} else old(rooms)
    {
      assert socket.userId in Members(prisma.db, chatId) <==> (chatId, socket.userId) in prisma.db.participants;
      var participant := prisma.IsParticipant(chatId, socket.userId);
      if !participant {
        return Failed(Forbidden);
      }
      rooms := rooms + {(socket, chatId)};
      return Joined;
    }

    method HandleLeaveChat(socket: Socket, chatId: Id) returns (r: Reply)
      requires Valid()
      modifies this`rooms
      ensures Valid()
      ensures r == if socket.userId in Members(prisma.db, chatId) then Left else Failed(Forbidden)
      ensures rooms == if r == Left then old(rooms) - {(socket, chatId)} else old(rooms)
    {
      assert socket.userId in Members(prisma.db, chatId) <==> (chatId, socket.userId) in prisma.db.participants;
      var participant := prisma.IsParticipant(chatId, socket.userId);
      if !participant {
        return Failed(Forbidden);
      }
      rooms := rooms - {(socket, chatId)};
      return Left;
    }

    method HandleSendMessage(socket: Socket, chatId: Id, content: string, kind: Option<MessageType>, env: Env)
      returns (r: Reply, ghost first: Option<Id>)
      modifies prisma, outbox
      ensures Alone.FirstOther(old(prisma.db), chatId, socket.userId, first)
      ensures var w := Alone.SendAlone(Live, old(prisma.db), chatId, socket.userId, content,
                                       if kind.Some? then kind.value else Text, env, first);
              prisma.db == w.db && outbox.sent == old(outbox.sent) + w.events && r == w.reply
      ensures rooms == old(rooms)
    {
      var userId := socket.userId;
      var participant := prisma.IsParticipant(chatId, userId);
      if !participant {
        first := prisma.FindFirstOther(chatId, userId);
        return Failed(Forbidden), first;
      }
      var msg := Message(chatId, userId, content, if kind.Some? then kind.value else Text, env.now);
      label before:
      var stored := prisma.Append(env.id, msg, env.touched);
      if !stored {
        first := prisma.FindFirstOther(chatId, userId);
        return Failed(KeyViolation), first;
      }
      Alone.AppendKeepsSeats(old@before(prisma.db), env.id, msg, env.touched);
      outbox.Send(multiset{NewMessage(chatId, env.id, msg)});
      first := NotifyRecipient(chatId, userId);
      return Sent(env.id), first;
    }

    method NotifyRecipient(chatId: Id, senderId: Id) returns (ghost first: Option<Id>)
      modifies outbox
      ensures Alone.FirstOther(prisma.db, chatId, senderId, first)
      ensures first.Some? ==> first.value != senderId && (chatId, first.value) in prisma.db.participants
      ensures outbox.sent == old(outbox.sent)
                + if first.Some? then multiset{ChatUpdated(first.value, chatId, senderId), MessagePush(first.value, chatId, senderId)}
                  else multiset{}
    {
      var other := prisma.FindFirstOther(chatId, senderId);
      first := other;
      if other.Some? {
        outbox.Send(multiset{ChatUpdated(other.value, chatId, senderId)});
        outbox.Send(multiset{MessagePush(other.value, chatId, senderId)});
      }
    }
  }

  // ---- uploads ----

  datatype File = File(mimetype: string, size: int)

  const ALLOWED_MIMETYPES := ["image/jpeg", "image/jpg", "image/png", "image/webp"]
  const MAX_SIZE_BYTES := 5 * 1024 * 1024

  predicate IsImage(mimetype: string) {
    mimetype == "image/jpeg" || mimetype == "image/jpg" || mimetype == "image/png" || mimetype == "image/webp"
  }

  datatype UploadAnswer = Uploaded(reply: Reply) | UnprocessableEntity | PayloadTooLarge

  class FilesService {
    const prisma: PrismaService
    const outbox: Outbox

    constructor (prisma: PrismaService, outbox: Outbox)
      ensures this.prisma == prisma && this.outbox == outbox
    {
      this.prisma := prisma;
      this.outbox := outbox;
    }

    method ValidateFile(file: Option<File>) returns (refused: Option<UploadAnswer>)
      ensures refused.None? <==> file.Some? && IsImage(file.value.mimetype) && file.value.size <= 5242880
      ensures refused == Some(PayloadTooLarge) <==> file.Some? && IsImage(file.value.mimetype) && file.value.size > 5242880
      ensures refused.Some? ==> refused.value == PayloadTooLarge || refused.value == UnprocessableEntity
    {
      if file.None? {
        return Some(UnprocessableEntity);
      }
      if file.value.mimetype !in ALLOWED_MIMETYPES {
        return Some(UnprocessableEntity);
      }
      if file.value.size > MAX_SIZE_BYTES {
        return Some(PayloadTooLarge);
      }
      return None;
    }

    /** `url` is where the upload put the file. A refused file changes nothing; any other upload is an append. */
    method UploadChatImage(chatId: Id, userId: Id, file: Option<File>, url: string, env: Env)
      returns (r: UploadAnswer, ghost first: Option<Id>)
      modifies prisma, outbox
      ensures Alone.FirstOther(old(prisma.db), chatId, userId, first)
      ensures r.Uploaded? <==> file.Some? && IsImage(file.value.mimetype) && file.value.size <= 5242880
      ensures !r.Uploaded? ==> r == (if file.Some? && IsImage(file.value.mimetype) then PayloadTooLarge else UnprocessableEntity)
      ensures !r.Uploaded? ==> prisma.db == old(prisma.db) && outbox.sent == old(outbox.sent)
      ensures r.Uploaded? ==>
                var w := Alone.SendAlone(Upload, old(prisma.db), chatId, userId, url, Image, env, first);
                prisma.db == w.db && outbox.sent == old(outbox.sent) + w.events && r.reply == w.reply
    {
      var refused := ValidateFile(file);
      first := prisma.FindFirstOther(chatId, userId);
      if refused.Some? {
        return refused.value, first;
      }
      var participant := prisma.IsParticipant(chatId, userId);
      if !participant {
        return Uploaded(Failed(Forbidden)), first;
      }
      var msg := Message(chatId, userId, url, Image, env.now);
      label before:
      var stored := prisma.Append(env.id, msg, env.touched);
      if !stored {
        return Uploaded(Failed(KeyViolation)), first;
      }
      Alone.AppendKeepsSeats(old@before(prisma.db), env.id, msg, env.touched);
      first := NotifyImageRecipient(chatId, userId);
      return Uploaded(Sent(env.id)), first;
    }

    method NotifyImageRecipient(chatId: Id, senderId: Id) returns (ghost first: Option<Id>)
      modifies outbox
      ensures Alone.FirstOther(prisma.db, chatId, senderId, first)
      ensures first.Some? ==> first.value != senderId && (chatId, first.value) in prisma.db.participants
      ensures outbox.sent == old(outbox.sent)
                + if first.Some? then multiset{MessagePush(first.value, chatId, senderId)} else multiset{}
    {
      var other := prisma.FindFirstOther(chatId, senderId);
      first := other;
      if other.Some? {
        outbox.Send(multiset{MessagePush(other.value, chatId, senderId)});
      }
    }
  }

  class UsersService {
    const prisma: PrismaService

    constructor (prisma: PrismaService)
      ensures this.prisma == prisma
    {
      this.prisma := prisma;
    }

    /** Deleting an account removes it and everything that hangs on it, and keeps everything else. */
    method DeleteAccount(userId: Id) returns (ok: bool)
      requires prisma.Valid()
      modifies prisma
      ensures prisma.Valid() && Later(old(prisma.db), prisma.db)
      ensures ok <==> userId in old(prisma.db).users
      ensures prisma.db == if ok then DeleteUser(old(prisma.db), userId).value else old(prisma.db)
    {
      LaterIsReflexive(prisma.db);
      if DeleteUser(prisma.db, userId).Some? {
        DeleteUserIsSound(prisma.db, userId);
      }
      ok := prisma.DeleteUserRow(userId);
    }
  }

  class DiscoveryService {
    const prisma: PrismaService

    constructor (prisma: PrismaService)
      ensures this.prisma == prisma
    {
      this.prisma := prisma;
    }

    method GetDiscoveryFeed(userId: Id) returns (cards: seq<Id>)
      ensures Discovery.Feed(prisma.db, prisma.db, userId, cards)
      ensures |cards| <= 20 && forall v :: v in cards ==> Discovery.Candidate(prisma.db, prisma.db, userId, v)
      ensures |cards| < 20 ==> forall v :: Discovery.Candidate(prisma.db, prisma.db, userId, v) ==> v in cards
    {
      var swipedIds := Discovery.SwipedBy(prisma.db, userId);
      cards := FindTop(Discovery.Pool(prisma.db, userId, swipedIds), prisma.db.users, Discovery.FEED_SIZE);
      Discovery.FeedMeaning(prisma.db, prisma.db, userId, cards);
    }
  }
}
