/** What every run of interleaved requests guarantees, read off the invariant. */
module Guarantees {
  import opened Base
  import opened Schema
  import opened Requests
  import opened Safety

  /** Once no request is in flight, two users have a match exactly when each likes the other. Until then a
      mutual like without a match has a request that is still between its record and its match. */
  lemma MutualLikesMatch(ls: seq<Label>, a: Id, b: Id)
    ensures var s := Run(INITIAL, ls);
            var mutual := (a, b) in s.db.swipes && s.db.swipes[(a, b)] == Like && (b, a) in s.db.swipes && s.db.swipes[(b, a)] == Like;
            && (Matched(s.db, a, b) ==> mutual)
            && (mutual ==> Matched(s.db, a, b) || SomeoneDecides(s, a, b))
            && (s.inflight == map[] ==> (Matched(s.db, a, b) <==> mutual))
  {
    ReachableIsSound(ls);
    var s := Run(INITIAL, ls);
    if Matched(s.db, a, b) {
      var m :| MatchOf(s.db, m, a, b);
      assert SoundMatch(s.db, s.db.matches[m]);
    }
  }

  /** Matches are sorted, mutual, between living users, and unique per unordered pair. */
  lemma MatchesAreSound(ls: seq<Label>, m: Id, n: Id, a: Id, b: Id)
    requires var db := Run(INITIAL, ls).db; MatchOf(db, m, a, b)
    ensures var db := Run(INITIAL, ls).db;
            && Before(db.matches[m].user1, db.matches[m].user2)
            && a in db.users && b in db.users
            && (a, b) in db.swipes && db.swipes[(a, b)] == Like && (b, a) in db.swipes && db.swipes[(b, a)] == Like
            && (MatchOf(db, n, a, b) ==> m == n)
  {
    ReachableIsSound(ls);
    var db := Run(INITIAL, ls).db;
    assert SoundMatch(db, db.matches[m]);
    if MatchOf(db, n, a, b) {
      assert SoundMatch(db, db.matches[n]);
      BeforeIsTotal(a, b);
    }
  }

  /** A chat with a match seats exactly that match's two users, a chat without one at most one user,
      and every stored message was written by somebody who still sits in its chat. */
  lemma ChatIntegrity(ls: seq<Label>, c: Id)
    requires c in Run(INITIAL, ls).db.chats
    ensures var db := Run(INITIAL, ls).db;
            && (match db.chats[c].matchId
                case Some(m) =>
                  && m in db.matches
                  && db.matches[m].user1 != db.matches[m].user2
                  && Members(db, c) == {db.matches[m].user1, db.matches[m].user2}
                case None =>
                  forall u, v :: u in Members(db, c) && v in Members(db, c) ==> u == v)
            && (forall id :: id in db.messages && db.messages[id].chatId == c ==>
                  db.messages[id].senderId in Members(db, c))
  {
    ReachableIsSound(ls);
    var db := Run(INITIAL, ls).db;
    assert SoundChat(db, db.chats[c], db.founded[c]);
    if db.chats[c].matchId.Some? {
      var m := db.chats[c].matchId.value;
      OpenChatMembers(db, c, m);
    } else {
      forall u | u in Members(db, c) ensures Founder(db.founded[c], u) && u in db.users {
        assert (c, u) in db.participants;
      }
    }
  }

  /** All successful `openChat` calls for one match, by either user and at any time, name one chat; while both
      accounts live they also name the same two participants. */
  lemma OpenChatAgrees(ls: seq<Label>, i: nat, j: nat)
    requires var s := Run(INITIAL, ls);
             && i in s.replies && j in s.replies && s.replies[i].ChatOpened? && s.replies[j].ChatOpened?
             && s.replies[i].m == s.replies[j].m
    ensures var s := Run(INITIAL, ls);
            && s.replies[i].c == s.replies[j].c
            && var m := s.replies[i].m;
            m in s.db.matches ==>
              s.replies[i].who == s.replies[j].who == {s.db.matches[m].user1, s.db.matches[m].user2}
  {
    ReachableIsSound(ls);
    var s := Run(INITIAL, ls);
    assert ReplyOk(s.db, s.replies[i]) && ReplyOk(s.db, s.replies[j]);
    var c := s.replies[i].c;
    assert SoundChat(s.db, s.db.chats[c], s.db.founded[c]);
  }

  /** At most one chat is ever founded for a match, whatever became of the match. */
  lemma OneChatPerMatch(ls: seq<Label>, c: Id, d: Id)
    requires var db := Run(INITIAL, ls).db;
             c in db.founded && d in db.founded && db.founded[c].matchId == db.founded[d].matchId
    ensures c == d
  {
    ReachableIsSound(ls);
  }

  /** A step that answers with a failure, the loser of a create race included, changes nothing. */
  lemma FailureWritesNothing(db: Db, rooms: set<(Socket, Id)>, pc: Pc, env: Env)
    requires var r := Exec(db, rooms, pc, env).next.reply; r.Some? && r.value.Failed?
    ensures var o := Exec(db, rooms, pc, env); o.db == db && o.rooms == rooms && o.events == multiset{}
  {
  }

  /** Over a whole run a pair is announced at most once, to both or to neither; a matched pair with no request
      still on its way to the announcement has been announced exactly once to each. */
  lemma OneAnnouncementPerPair(ls: seq<Label>, a: Id, b: Id)
    ensures var s := Run(INITIAL, ls);
            && s.events[NewMatch(a, b)] == s.events[NewMatch(b, a)] == s.events[MatchPush(a, b)]
            && s.events[NewMatch(a, b)] <= 1
            && (SomeoneAnnounces(s, a, b) ==> s.events[NewMatch(a, b)] == 0)
            && (Matched(s.db, a, b) && !SomeoneAnnounces(s, a, b) ==> s.events[NewMatch(a, b)] == 1)
            && (a == b ==> s.events[NewMatch(a, b)] == 0)
  {
    ReachableIsSound(ls);
    var s := Run(INITIAL, ls);
    assert ToldTogether(s, a, b) && ToldTogether(s, b, a);
    assert NewMatch(a, b) in s.events ==> EventOk(s.db, NewMatch(a, b));
  }

  /** A socket in a chat room belongs to a participant of that chat, or to a deleted account. */
  lemma RoomSafety(ls: seq<Label>, socket: Socket, c: Id)
    requires (socket, c) in Run(INITIAL, ls).rooms
    ensures var db := Run(INITIAL, ls).db; socket.userId in Members(db, c) || socket.userId in db.gone
  {
    ReachableIsSound(ls);
    var db := Run(INITIAL, ls).db;
    assert Present(db, socket.userId, c);
  }

  /** A `new_message` event goes to the room of its message's chat and describes a stored message, unless the
      sender's account was deleted since. */
  lemma RoomEventsAreCommitted(ls: seq<Label>, room: Id, id: Id, msg: Message)
    requires NewMessage(room, id, msg) in Run(INITIAL, ls).events
    ensures var db := Run(INITIAL, ls).db;
            && room == msg.chatId && room in db.chats
            && ((id in db.messages && db.messages[id] == msg) || msg.senderId in db.gone)
  {
    ReachableIsSound(ls);
    var s := Run(INITIAL, ls);
    assert EventOk(s.db, NewMessage(room, id, msg));
  }

  /** Whoever is told about a message is the sender's match partner, never the sender. */
  lemma RecipientIsThePartner(ls: seq<Label>, to: Id, c: Id, from: Id)
    requires var s := Run(INITIAL, ls); ChatUpdated(to, c, from) in s.events || MessagePush(to, c, from) in s.events
    ensures var db := Run(INITIAL, ls).db;
            && to != from && c in db.chats
            && (match db.chats[c].matchId
                case Some(m) => MatchOf(db, m, to, from)
                case None => to in db.gone || from in db.gone)
  {
    ReachableIsSound(ls);
    var s := Run(INITIAL, ls);
    assert EventOk(s.db, ChatUpdated(to, c, from)) || EventOk(s.db, MessagePush(to, c, from));
    assert SoundChat(s.db, s.db.chats[c], s.db.founded[c]);
  }

  /** What the labels outside of requests do: an account comes, gains a profile or goes, ... */
  lemma AccountsComeAndGo(s: State, u: Id, now: Time, name: string)
    requires UsersOk(s.db)
    ensures u !in s.db.gone ==> u in Step(s, Register(u, now)).db.users
    ensures u in s.db.users ==> u in Step(s, AddProfile(u, name)).db.profiles
    ensures var after := Step(s, Delete(u)).db;
            u !in after.users && forall v :: v in s.db.users && v != u ==> v in after.users
  {
  }

  /** ... and a new request of any kind starts. */
  lemma RequestsStart(s: State, i: nat, pc: Pc)
    requires i !in s.inflight && i !in s.replies
    requires pc.SwipeLookup? || pc.OpenLookup? || pc.SendCheck? || pc.JoinLookup? || pc.LeaveLookup?
    ensures Step(s, Arrive(i, pc)) == s.(inflight := s.inflight[i := pc])
  {
  }

  // ---- two points of one run ----

  lemma LaterIsTransitive(a: Db, b: Db, c: Db)
    requires Consistent(a) && Consistent(b) && Later(a, b) && Later(b, c)
    ensures Later(a, c)
  {
  }

  lemma StepIsLater(s: State, l: Label)
    requires Inv(s)
    ensures Later(s.db, Step(s, l).db)
  {
    LaterIsReflexive(s.db);
    match l
    case Advance(i, env) =>
      if i in s.inflight {
        ExecIsSound(s.db, s.rooms, s.inflight[i], env);
      }
    case Register(u, now) =>
      if CreateUser(s.db, u, now).Some? {
        CreateUserIsSound(s.db, u, now);
      }
    case AddProfile(u, name) =>
      if CreateProfile(s.db, u, name).Some? {
        CreateProfileIsSound(s.db, u, name);
      }
    case Delete(u) =>
      if DeleteUser(s.db, u).Some? {
        DeleteUserIsSound(s.db, u);
      }
    case _ =>
  }

  /** Swipes, matches, seats and messages vanish over a run only together with an account they depend on. */
  lemma {:induction false} RunIsLater(s: State, ls: seq<Label>)
    requires Inv(s)
    ensures Later(s.db, Run(s, ls).db)
    decreases |ls|
  {
    if ls == [] {
      LaterIsReflexive(s.db);
    } else {
      var s' := Step(s, ls[0]);
      StepIsLater(s, ls[0]);
      StepKeepsInv(s, ls[0]);
      RunIsLater(s', ls[1..]);
      RunKeepsInv(s', ls[1..]);
      LaterIsTransitive(s.db, s'.db, Run(s', ls[1..]).db);
    }
  }
}
