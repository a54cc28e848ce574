/** The tables behind swiping, matching and chatting, and the statements run against them.
    A statement is atomic: it either commits, or it meets a unique or foreign key and changes nothing. */
module Schema {
  import opened Base

  datatype Action = Like | Pass
  datatype MessageType = Text | Image
  datatype Match = Match(user1: Id, user2: Id, createdAt: Time)
  datatype Chat = Chat(matchId: Option<Id>, updatedAt: Time)
  datatype Message = Message(chatId: Id, senderId: Id, content: string, kind: MessageType, createdAt: Time)

  /** The match a chat was created for, remembered after the match itself is gone. */
  datatype Founding = Founding(matchId: Id, user1: Id, user2: Id)

  /** `users` holds creation times and `profiles` display names. `gone`, `usedMatches` and `founded`
      are bookkeeping about ids issued in the past; no statement's outcome depends on them except that
      a fresh id is one never issued before. */
  datatype Db = Db(
    users: map<Id, Time>,
    profiles: map<Id, string>,
    swipes: map<(Id, Id), Action>,
    matches: map<Id, Match>,
    chats: map<Id, Chat>,
    participants: set<(Id, Id)>,
    messages: map<Id, Message>,
    gone: set<Id>,
    usedMatches: set<Id>,
    founded: map<Id, Founding>)

  const EMPTY := Db(map[], map[], map[], map[], map[], {}, map[], {}, {}, map[])

  // ---- reads ----

  predicate Likes(db: Db, a: Id, b: Id) {
    (a, b) in db.swipes && db.swipes[(a, b)] == Like
  }

  /** `m` is a match row of the unordered pair {a, b}. */
  predicate MatchOf(db: Db, m: Id, a: Id, b: Id) {
    && m in db.matches
    && var row := db.matches[m];
    (row.user1 == a && row.user2 == b) || (row.user1 == b && row.user2 == a)
  }

  ghost predicate Matched(db: Db, a: Id, b: Id) {
    exists m :: MatchOf(db, m, a, b)
  }

  predicate ChatOfMatch(db: Db, c: Id, m: Id) {
    c in db.chats && db.chats[c].matchId == Some(m)
  }

  /** One of the two accounts was deleted. */
  predicate Lost(db: Db, a: Id, b: Id) {
    a in db.gone || b in db.gone
  }

  function Members(db: Db, c: Id): set<Id> {
    set p | p in db.participants && p.0 == c :: p.1
  }

  // ---- writes: None is a violated key ----

  function CreateUser(db: Db, u: Id, now: Time): Option<Db> {
    if u in db.users || u in db.gone then None
    else Some(db.(users := db.users[u := now]))
  }

  function CreateProfile(db: Db, u: Id, name: string): Option<Db> {
    if u in db.profiles || u !in db.users then None
    else Some(db.(profiles := db.profiles[u := name]))
  }

  function CreateSwipe(db: Db, u: Id, t: Id, a: Action): Option<Db> {
    if (u, t) in db.swipes || u !in db.users || t !in db.users then None
    else Some(db.(swipes := db.swipes[(u, t) := a]))
  }

  predicate MatchKeyTaken(db: Db, user1: Id, user2: Id) {
    exists m :: m in db.matches && db.matches[m].user1 == user1 && db.matches[m].user2 == user2
  }

  /** The unique key is on the ordered pair (user1, user2). */
  function CreateMatch(db: Db, m: Id, user1: Id, user2: Id, now: Time): Option<Db> {
    if m in db.usedMatches || MatchKeyTaken(db, user1, user2) || user1 !in db.users || user2 !in db.users then None
    else Some(db.(matches := db.matches[m := Match(user1, user2, now)], usedMatches := db.usedMatches + {m}))
  }

  predicate ChatKeyTaken(db: Db, m: Id) {
    exists c :: c in db.chats && db.chats[c].matchId == Some(m)
  }

  /** A chat with its two participants is one nested create. */
  function CreateChat(db: Db, c: Id, m: Id, user1: Id, user2: Id, now: Time): Option<Db> {
    if c in db.founded || c in db.chats || ChatKeyTaken(db, m) || m !in db.matches
       || user1 == user2 || user1 !in db.users || user2 !in db.users then None
    else Some(db.(chats := db.chats[c := Chat(Some(m), now)],
                  participants := db.participants + {(c, user1), (c, user2)},
                  founded := db.founded[c := Founding(m, user1, user2)]))
  }

  /** The two-statement transaction that stores a message and touches its chat. */
  function AppendMessage(db: Db, id: Id, msg: Message, touched: Time): Option<Db> {
    if id in db.messages || msg.chatId !in db.chats || msg.senderId !in db.users then None
    else Some(db.(messages := db.messages[id := msg],
                  chats := db.chats[msg.chatId := db.chats[msg.chatId].(updatedAt := touched)]))
  }

  function Unmatch(chat: Chat, kept: map<Id, Match>): Chat {
    if chat.matchId.Some? && chat.matchId.value !in kept then chat.(matchId := None) else chat
  }

  /** Deleting an account cascades through every table that refers to it; a chat outlives its match. */
  function DeleteUser(db: Db, u: Id): Option<Db> {
    if u !in db.users then None
    else
      var kept := map m | m in db.matches && db.matches[m].user1 != u && db.matches[m].user2 != u :: db.matches[m];
      Some(db.(users := db.users - {u},
               profiles := db.profiles - {u},
               swipes := (map p | p in db.swipes && p.0 != u && p.1 != u :: db.swipes[p]),
               matches := kept,
               chats := (map c | c in db.chats :: Unmatch(db.chats[c], kept)),
               participants := (set p | p in db.participants && p.1 != u),
               messages := (map m | m in db.messages && db.messages[m].senderId != u :: db.messages[m]),
               gone := db.gone + {u}))
  }

  // ---- what every reachable store satisfies ----

  ghost predicate UsersOk(db: Db) {
    && db.users.Keys !! db.gone
    && db.profiles.Keys <= db.users.Keys
    && (forall p :: p in db.swipes ==> p.0 in db.users && p.1 in db.users && p.0 != p.1)
  }

  predicate SamePair(x: Match, y: Match) {
    x.user1 == y.user1 && x.user2 == y.user2
  }

  /** Both users live, stored in sorted order, and both liked each other. */
  ghost predicate SoundMatch(db: Db, row: Match) {
    && row.user1 in db.users && row.user2 in db.users
    && Before(row.user1, row.user2)
    && Likes(db, row.user1, row.user2) && Likes(db, row.user2, row.user1)
  }

  ghost predicate MatchesOk(db: Db) {
    && db.matches.Keys <= db.usedMatches
    && (forall m :: m in db.matches ==> SoundMatch(db, db.matches[m]))
    && (forall m, n :: m in db.matches && n in db.matches && SamePair(db.matches[m], db.matches[n]) ==> m == n)
  }

  predicate Founder(f: Founding, u: Id) {
    u == f.user1 || u == f.user2
  }

  /** A chat with a match belongs to exactly that match; a chat without one has lost a founder. */
  ghost predicate SoundChat(db: Db, chat: Chat, f: Founding) {
    && f.user1 != f.user2
    && f.matchId in db.usedMatches
    && match chat.matchId
       case Some(m) =>
         f.matchId == m && m in db.matches && db.matches[m].user1 == f.user1 && db.matches[m].user2 == f.user2
       case None =>
         f.matchId !in db.matches && Lost(db, f.user1, f.user2)
  }

  ghost predicate ChatsOk(db: Db) {
    && db.chats.Keys == db.founded.Keys
    && (forall c :: c in db.chats ==> SoundChat(db, db.chats[c], db.founded[c]))
    && (forall c, d :: c in db.founded && d in db.founded && db.founded[c].matchId == db.founded[d].matchId ==> c == d)
  }

  predicate Seated(db: Db, c: Id, u: Id) {
    (c, u) in db.participants || u in db.gone
  }

  /** The participants are exactly the founders whose accounts still exist. */
  ghost predicate ParticipantsOk(db: Db) {
    && (forall p :: p in db.participants ==> p.0 in db.founded && Founder(db.founded[p.0], p.1) && p.1 in db.users)
    && (forall c :: c in db.founded ==> Seated(db, c, db.founded[c].user1) && Seated(db, c, db.founded[c].user2))
  }

  ghost predicate MessagesOk(db: Db) {
    forall m :: m in db.messages ==> (db.messages[m].chatId, db.messages[m].senderId) in db.participants
  }

  ghost predicate Consistent(db: Db) {
    UsersOk(db) && MatchesOk(db) && ChatsOk(db) && ParticipantsOk(db) && MessagesOk(db)
  }

  // ---- what no statement ever undoes ----

  /** `later` can follow `db`: rows disappear only together with an account they depend on. */
  ghost predicate Later(db: Db, later: Db) {
    && db.gone <= later.gone
    && db.usedMatches <= later.usedMatches
    && (forall u :: u in db.users ==> u in later.users || u in later.gone)
    && (forall u :: u in db.profiles ==> u in later.profiles || u in later.gone)
    && (forall p :: p in db.swipes ==>
          (p in later.swipes && later.swipes[p] == db.swipes[p]) || Lost(later, p.0, p.1))
    && (forall m :: m in db.matches ==>
          (m in later.matches && later.matches[m] == db.matches[m])
          || (m !in later.matches && Lost(later, db.matches[m].user1, db.matches[m].user2)))
    && (forall m :: m in later.matches && m !in db.matches ==> m !in db.usedMatches)
    && (forall c :: c in db.founded ==> c in later.founded && later.founded[c] == db.founded[c])
    && (forall p :: p in db.participants ==> p in later.participants || p.1 in later.gone)
    && (forall m :: m in db.messages ==>
          (m in later.messages && later.messages[m] == db.messages[m]) || db.messages[m].senderId in later.gone)
  }

  ghost predicate Sound(before: Db, after: Db) {
    Consistent(after) && Later(before, after)
  }

  lemma LaterIsReflexive(db: Db)
    ensures Later(db, db)
  {
  }

  // ---- statements that only add ----

  /** `after` holds everything `db` holds, and the same chats with the same seats. */
  ghost predicate Extends(db: Db, after: Db) {
    && after.gone == db.gone && after.founded == db.founded && after.participants == db.participants
    && db.users.Keys <= after.users.Keys && db.profiles.Keys <= after.profiles.Keys
    && db.usedMatches <= after.usedMatches
    && (forall p :: p in db.swipes ==> p in after.swipes && after.swipes[p] == db.swipes[p])
    && (forall m :: m in db.matches ==> m in after.matches && after.matches[m] == db.matches[m])
    && (forall m :: m in after.matches && m !in db.matches ==> m !in db.usedMatches)
    && after.chats.Keys == db.chats.Keys
    && (forall c :: c in db.chats ==> after.chats[c].matchId == db.chats[c].matchId)
    && (forall m :: m in db.messages ==> m in after.messages && after.messages[m] == db.messages[m])
  }

  lemma ExtendsIsLater(db: Db, after: Db)
    requires Extends(db, after)
    ensures Later(db, after)
  {
  }

  lemma ExtendsKeepsChats(db: Db, after: Db)
    requires ChatsOk(db) && ParticipantsOk(db) && Extends(db, after)
    ensures ChatsOk(after) && ParticipantsOk(after)
  {
    forall c | c in after.chats ensures SoundChat(after, after.chats[c], after.founded[c]) {
      assert SoundChat(db, db.chats[c], db.founded[c]);
    }
    forall c | c in after.founded
      ensures Seated(after, c, after.founded[c].user1) && Seated(after, c, after.founded[c].user2)
    {
      assert Seated(db, c, db.founded[c].user1) && Seated(db, c, db.founded[c].user2);
    }
  }

  lemma ExtendsIsSound(db: Db, after: Db)
    requires Consistent(db) && Extends(db, after)
    requires UsersOk(after) && MatchesOk(after) && MessagesOk(after)
    ensures Sound(db, after)
  {
    ExtendsIsLater(db, after);
    ExtendsKeepsChats(db, after);
  }

  lemma SameMatchesOk(db: Db, after: Db)
    requires MatchesOk(db) && Extends(db, after) && after.matches == db.matches
    ensures MatchesOk(after)
  {
    forall m | m in after.matches ensures SoundMatch(after, after.matches[m]) {
      assert SoundMatch(db, db.matches[m]);
    }
  }

  /** Registration adds the one account with its time; every other row and table stays. */
  lemma CreateUserAdds(db: Db, u: Id, now: Time)
    ensures CreateUser(db, u, now).Some? <==> u !in db.users && u !in db.gone
    ensures CreateUser(db, u, now).Some? ==>
              var after := CreateUser(db, u, now).value;
              && u in after.users && after.users[u] == now && after.users - {u} == db.users
              && after.(users := db.users) == db
  {
    assert CreateUser(db, u, now).Some? ==> CreateUser(db, u, now).value.users - {u} == db.users;
  }

  /** A profile is added for a living account without one; every other row and table stays. */
  lemma CreateProfileAdds(db: Db, u: Id, name: string)
    ensures CreateProfile(db, u, name).Some? <==> u in db.users && u !in db.profiles
    ensures CreateProfile(db, u, name).Some? ==>
              var after := CreateProfile(db, u, name).value;
              && u in after.profiles && after.profiles[u] == name && after.profiles - {u} == db.profiles
              && after.(profiles := db.profiles) == db
  {
    assert CreateProfile(db, u, name).Some? ==> CreateProfile(db, u, name).value.profiles - {u} == db.profiles;
  }

  lemma CreateUserIsSound(db: Db, u: Id, now: Time)
    requires Consistent(db) && CreateUser(db, u, now).Some?
    ensures Sound(db, CreateUser(db, u, now).value)
  {
    var after := CreateUser(db, u, now).value;
    SameMatchesOk(db, after);
    ExtendsIsSound(db, after);
  }

  lemma CreateProfileIsSound(db: Db, u: Id, name: string)
    requires Consistent(db) && CreateProfile(db, u, name).Some?
    ensures Sound(db, CreateProfile(db, u, name).value)
  {
    var after := CreateProfile(db, u, name).value;
    SameMatchesOk(db, after);
    ExtendsIsSound(db, after);
  }

  lemma CreateSwipeIsSound(db: Db, u: Id, t: Id, a: Action)
    requires Consistent(db) && u != t && CreateSwipe(db, u, t, a).Some?
    ensures Sound(db, CreateSwipe(db, u, t, a).value)
  {
    var after := CreateSwipe(db, u, t, a).value;
    SameMatchesOk(db, after);
    ExtendsIsSound(db, after);
  }

  lemma AppendMessageExtends(db: Db, id: Id, msg: Message, touched: Time)
    requires UsersOk(db) && MessagesOk(db) && AppendMessage(db, id, msg, touched).Some?
    requires (msg.chatId, msg.senderId) in db.participants || msg.senderId in db.gone
    ensures var after := AppendMessage(db, id, msg, touched).value;
            Extends(db, after) && UsersOk(after) && MessagesOk(after)
  {
  }

  lemma AppendMessageIsSound(db: Db, id: Id, msg: Message, touched: Time)
    requires Consistent(db) && AppendMessage(db, id, msg, touched).Some?
    requires (msg.chatId, msg.senderId) in db.participants || msg.senderId in db.gone
    ensures Sound(db, AppendMessage(db, id, msg, touched).value)
  {
    var after := AppendMessage(db, id, msg, touched).value;
    AppendMessageExtends(db, id, msg, touched);
    SameMatchesOk(db, after);
    ExtendsIsSound(db, after);
  }

  lemma CreateMatchKeepsMatches(db: Db, m: Id, u: Id, t: Id, now: Time)
    requires UsersOk(db) && MatchesOk(db) && u != t
    requires CreateMatch(db, m, Sorted(u, t).0, Sorted(u, t).1, now).Some?
    requires (Likes(db, u, t) && Likes(db, t, u)) || Lost(db, u, t)
    ensures var after := CreateMatch(db, m, Sorted(u, t).0, Sorted(u, t).1, now).value;
            UsersOk(after) && MatchesOk(after) && MatchOf(after, m, u, t)
  {
    SortedForgetsOrder(u, t);
    var (user1, user2) := Sorted(u, t);
    var after := CreateMatch(db, m, user1, user2, now).value;
    forall n | n in after.matches ensures SoundMatch(after, after.matches[n]) {
      assert n != m ==> SoundMatch(db, db.matches[n]);
    }
  }

  lemma CreateMatchIsSound(db: Db, m: Id, u: Id, t: Id, now: Time)
    requires Consistent(db) && u != t && CreateMatch(db, m, Sorted(u, t).0, Sorted(u, t).1, now).Some?
    requires (Likes(db, u, t) && Likes(db, t, u)) || Lost(db, u, t)
    ensures var after := CreateMatch(db, m, Sorted(u, t).0, Sorted(u, t).1, now).value;
            Sound(db, after) && MatchOf(after, m, u, t)
  {
    CreateMatchKeepsMatches(db, m, u, t, now);
    ExtendsIsSound(db, CreateMatch(db, m, Sorted(u, t).0, Sorted(u, t).1, now).value);
  }

  // ---- statements that seat or unseat users ----

  lemma CreateChatKeepsChats(db: Db, c: Id, m: Id, user1: Id, user2: Id, now: Time)
    requires MatchesOk(db) && ChatsOk(db) && CreateChat(db, c, m, user1, user2, now).Some?
    requires db.matches[m].user1 == user1 && db.matches[m].user2 == user2
    ensures ChatsOk(CreateChat(db, c, m, user1, user2, now).value)
  {
    var after := CreateChat(db, c, m, user1, user2, now).value;
    forall d | d in db.founded ensures db.founded[d].matchId != m {
      assert SoundChat(db, db.chats[d], db.founded[d]);
    }
    forall d | d in after.chats ensures SoundChat(after, after.chats[d], after.founded[d]) {
      assert d != c ==> SoundChat(db, db.chats[d], db.founded[d]);
    }
  }

  lemma CreateChatKeepsSeats(db: Db, c: Id, m: Id, user1: Id, user2: Id, now: Time)
    requires ParticipantsOk(db) && MessagesOk(db) && CreateChat(db, c, m, user1, user2, now).Some?
    ensures var after := CreateChat(db, c, m, user1, user2, now).value; ParticipantsOk(after) && MessagesOk(after)
  {
    var after := CreateChat(db, c, m, user1, user2, now).value;
    forall d | d in after.founded
      ensures Seated(after, d, after.founded[d].user1) && Seated(after, d, after.founded[d].user2)
    {
      assert d != c ==> Seated(db, d, db.founded[d].user1) && Seated(db, d, db.founded[d].user2);
    }
  }

  lemma CreateChatKeepsMatches(db: Db, c: Id, m: Id, user1: Id, user2: Id, now: Time)
    requires UsersOk(db) && MatchesOk(db) && CreateChat(db, c, m, user1, user2, now).Some?
    ensures var after := CreateChat(db, c, m, user1, user2, now).value; UsersOk(after) && MatchesOk(after)
  {
    var after := CreateChat(db, c, m, user1, user2, now).value;
    forall n | n in after.matches ensures SoundMatch(after, after.matches[n]) {
      assert SoundMatch(db, db.matches[n]);
    }
  }

  lemma CreateChatIsLater(db: Db, c: Id, m: Id, user1: Id, user2: Id, now: Time)
    requires CreateChat(db, c, m, user1, user2, now).Some?
    ensures Later(db, CreateChat(db, c, m, user1, user2, now).value)
  {
  }

  lemma CreateChatIsSound(db: Db, c: Id, m: Id, user1: Id, user2: Id, now: Time)
    requires Consistent(db) && CreateChat(db, c, m, user1, user2, now).Some?
    requires db.matches[m].user1 == user1 && db.matches[m].user2 == user2
    ensures Sound(db, CreateChat(db, c, m, user1, user2, now).value)
  {
    CreateChatIsLater(db, c, m, user1, user2, now);
    CreateChatKeepsMatches(db, c, m, user1, user2, now);
    CreateChatKeepsChats(db, c, m, user1, user2, now);
    CreateChatKeepsSeats(db, c, m, user1, user2, now);
  }

  lemma DeleteUserKeepsMatches(db: Db, u: Id)
    requires UsersOk(db) && MatchesOk(db) && DeleteUser(db, u).Some?
    ensures var after := DeleteUser(db, u).value; UsersOk(after) && MatchesOk(after)
  {
    var after := DeleteUser(db, u).value;
    forall m | m in after.matches ensures SoundMatch(after, after.matches[m]) {
      assert SoundMatch(db, db.matches[m]);
    }
  }

  lemma DeleteUserKeepsChats(db: Db, u: Id)
    requires MatchesOk(db) && ChatsOk(db) && DeleteUser(db, u).Some?
    ensures ChatsOk(DeleteUser(db, u).value)
  {
    var after := DeleteUser(db, u).value;
    forall c | c in after.chats ensures SoundChat(after, after.chats[c], after.founded[c]) {
      assert SoundChat(db, db.chats[c], db.founded[c]);
    }
  }

  lemma DeleteUserKeepsSeats(db: Db, u: Id)
    requires ParticipantsOk(db) && MessagesOk(db) && DeleteUser(db, u).Some?
    ensures var after := DeleteUser(db, u).value; ParticipantsOk(after) && MessagesOk(after)
  {
    var after := DeleteUser(db, u).value;
    forall c | c in after.founded
      ensures Seated(after, c, after.founded[c].user1) && Seated(after, c, after.founded[c].user2)
    {
      assert Seated(db, c, db.founded[c].user1) && Seated(db, c, db.founded[c].user2);
    }
  }

  lemma DeleteUserIsSound(db: Db, u: Id)
    requires Consistent(db) && DeleteUser(db, u).Some?
    ensures Sound(db, DeleteUser(db, u).value)
  {
    DeleteUserKeepsMatches(db, u);
    DeleteUserKeepsChats(db, u);
    DeleteUserKeepsSeats(db, u);
  }

  /** What is left of a chat: its activity, and its match unless that is gone. */
  ghost predicate ChatAfterDeletion(before: Db, after: Db, c: Id)
    requires c in before.chats && c in after.chats
  {
    && after.chats[c].updatedAt == before.chats[c].updatedAt
    && after.chats[c].matchId ==
       if before.chats[c].matchId.Some? && before.chats[c].matchId.value in after.matches then before.chats[c].matchId else None
  }

  /** A deletion removes the account, its profile, and exactly the swipes, matches, seats and messages that name it. Chats
      stay, without the matches that went; everything else stays as it was. */
  lemma DeleteUserRemoves(db: Db, u: Id)
    requires Consistent(db)
    ensures DeleteUser(db, u).Some? <==> u in db.users
    ensures u in db.users ==>
              var after := DeleteUser(db, u).value;
              && (forall v :: v in after.users <==> v in db.users && v != u)
              && (forall v :: v in after.users ==> after.users[v] == db.users[v])
              && (forall v :: v in after.profiles <==> v in db.profiles && v != u)
              && (forall v :: v in after.profiles ==> after.profiles[v] == db.profiles[v])
              && (forall p :: p in after.swipes <==> p in db.swipes && u != p.0 && u != p.1)
              && (forall p :: p in after.swipes ==> after.swipes[p] == db.swipes[p])
              && (forall m :: m in after.matches <==> m in db.matches && u != db.matches[m].user1 && u != db.matches[m].user2)
              && (forall m :: m in after.matches ==> after.matches[m] == db.matches[m])
              && (forall p :: p in after.participants <==> p in db.participants && u != p.1)
              && (forall m :: m in after.messages <==> m in db.messages && u != db.messages[m].senderId)
              && (forall m :: m in after.messages ==> after.messages[m] == db.messages[m])
              && after.chats.Keys == db.chats.Keys
              && (forall c :: c in db.chats ==> ChatAfterDeletion(db, after, c))
  {
  }
}
