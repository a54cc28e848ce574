/** The inductive invariant of the step system: what each request may rely on while others run, why a mutual
    like is never lost, and why a match is announced exactly once. */
module Safety {
  import opened Base
  import opened Schema
  import opened Requests

  // ---- what holds of each request, reply, event and room on its own ----

  ghost predicate Present(db: Db, u: Id, c: Id) {
    (c, u) in db.participants || u in db.gone
  }

  ghost predicate Committed(db: Db, id: Id, msg: Message) {
    && msg.chatId in db.founded && Founder(db.founded[msg.chatId], msg.senderId)
    && ((id in db.messages && db.messages[id] == msg) || msg.senderId in db.gone)
  }

  /** `row` is what match `m` says, if the match still exists. */
  ghost predicate Remembers(db: Db, m: Id, row: Match) {
    m in db.usedMatches && (m in db.matches ==> db.matches[m] == row)
  }

  /** `to` and `from` are the two users chat `c` was created for. */
  ghost predicate Partners(db: Db, c: Id, to: Id, from: Id) {
    c in db.founded && to != from && Founder(db.founded[c], to) && Founder(db.founded[c], from)
  }

  ghost predicate PcOk(db: Db, pc: Pc) {
    match pc
    case SwipeInsert(u, t, _) => u != t
    case ReadBack(u, t) => u != t && (Likes(db, u, t) || Lost(db, u, t))
    case MatchInsert(u, t) => u != t && ((Likes(db, u, t) && Likes(db, t, u)) || Lost(db, u, t))
    case Announce(u, t, m) => u != t && (MatchOf(db, m, u, t) || Lost(db, u, t))
    case OpenFind(m, row) => Remembers(db, m, row)
    case OpenInsert(m, row) => Remembers(db, m, row)
    case SendInsert(_, c, u, _, _) => Present(db, u, c)
    case SendEmit(id, msg) => Committed(db, id, msg)
    case NotifyPartner(_, c, sender) => c in db.founded && Founder(db.founded[c], sender)
    case JoinEnter(socket, c) => Present(db, socket.userId, c)
    case _ => true
  }

  ghost predicate ReplyOk(db: Db, r: Reply) {
    r.ChatOpened? ==>
      && r.c in db.founded
      && db.founded[r.c].matchId == r.m
      && (r.m in db.matches ==> r.who == {db.founded[r.c].user1, db.founded[r.c].user2})
  }

  ghost predicate EventOk(db: Db, e: Event) {
    match e
    case NewMatch(to, other) => to != other && (Matched(db, to, other) || Lost(db, to, other))
    case MatchPush(_, _) => true
    case NewMessage(room, id, msg) => room == msg.chatId && Committed(db, id, msg)
    case ChatUpdated(to, c, from) => Partners(db, c, to, from)
    case MessagePush(to, c, from) => Partners(db, c, to, from)
  }

  ghost predicate RoomsOk(db: Db, rooms: set<(Socket, Id)>) {
    forall r :: r in rooms ==> Present(db, r.0.userId, r.1)
  }

  lemma PcStable(db: Db, later: Db, pc: Pc)
    requires Later(db, later) && PcOk(db, pc)
    ensures PcOk(later, pc)
  {
  }

  lemma ReplyStable(db: Db, later: Db, r: Reply)
    requires ChatsOk(db) && Later(db, later) && ReplyOk(db, r)
    ensures ReplyOk(later, r)
  {
  }

  lemma EventStable(db: Db, later: Db, e: Event)
    requires Later(db, later) && EventOk(db, e)
    ensures EventOk(later, e)
  {
    if e.NewMatch? && Matched(db, e.to, e.withUser) {
      var m :| MatchOf(db, m, e.to, e.withUser);
      assert MatchOf(later, m, e.to, e.withUser) || Lost(later, e.to, e.withUser);
    }
  }

  /** A chat found by its match id has both users of the match as participants. */
  lemma OpenChatMembers(db: Db, c: Id, m: Id)
    requires Consistent(db) && ChatOfMatch(db, c, m)
    ensures c in db.founded && db.founded[c].matchId == m && m in db.matches
    ensures Members(db, c) == {db.founded[c].user1, db.founded[c].user2}
  {
    assert SoundChat(db, db.chats[c], db.founded[c]);
    assert SoundMatch(db, db.matches[m]);
    assert Seated(db, c, db.founded[c].user1) && Seated(db, c, db.founded[c].user2);
  }

  ghost predicate NextOk(db: Db, next: Next) {
    && (next.pc.Some? ==> PcOk(db, next.pc.value))
    && (next.reply.Some? ==> ReplyOk(db, next.reply.value))
  }

  ghost predicate OutcomeOk(db: Db, o: Outcome) {
    && Sound(db, o.db)
    && RoomsOk(o.db, o.rooms)
    && NextOk(o.db, o.next)
    && (forall e :: e in o.events ==> EventOk(o.db, e))
  }

  lemma StillIsSound(db: Db, rooms: set<(Socket, Id)>, events: multiset<Event>, next: Next)
    requires Consistent(db) && RoomsOk(db, rooms) && NextOk(db, next)
    requires forall e :: e in events ==> EventOk(db, e)
    ensures OutcomeOk(db, Outcome(db, rooms, events, next))
  {
    LaterIsReflexive(db);
  }

  lemma CommitIsSound(db: Db, rooms: set<(Socket, Id)>, after: Option<Db>, next: Next)
    requires Consistent(db) && RoomsOk(db, rooms)
    requires after.Some? ==> Sound(db, after.value) && NextOk(after.value, next)
    ensures OutcomeOk(db, Commit(db, rooms, after, next))
  {
    LaterIsReflexive(db);
  }

  lemma SwipeIsSound(db: Db, rooms: set<(Socket, Id)>, pc: Pc, env: Env)
    requires IsSwipe(pc) && Consistent(db) && PcOk(db, pc) && RoomsOk(db, rooms)
    ensures OutcomeOk(db, ExecSwipe(db, rooms, pc, env))
  {
    var o := ExecSwipe(db, rooms, pc, env);
    match pc
    case SwipeLookup(u, t, a) => StillIsSound(db, rooms, o.events, o.next);
    case SwipeInsert(u, t, a) =>
      if CreateSwipe(db, u, t, a).Some? {
        CreateSwipeIsSound(db, u, t, a);
      }
      CommitIsSound(db, rooms, CreateSwipe(db, u, t, a), if a == Like then Goto(ReadBack(u, t)) else Done(Swiped(None)));
    case ReadBack(u, t) => StillIsSound(db, rooms, o.events, o.next);
    case MatchInsert(u, t) =>
      var after := CreateMatch(db, env.id, Sorted(u, t).0, Sorted(u, t).1, env.now);
      if after.Some? {
        CreateMatchIsSound(db, env.id, u, t, env.now);
      }
      CommitIsSound(db, rooms, after, Goto(Announce(u, t, env.id)));
    case Announce(u, t, m) =>
      assert MatchOf(db, m, u, t) ==> MatchOf(db, m, t, u);
      StillIsSound(db, rooms, o.events, o.next);
  }

  lemma OpenIsSound(db: Db, rooms: set<(Socket, Id)>, pc: Pc, env: Env)
    requires IsOpen(pc) && Consistent(db) && PcOk(db, pc) && RoomsOk(db, rooms)
    ensures OutcomeOk(db, ExecOpen(db, rooms, pc, env))
  {
    var o := ExecOpen(db, rooms, pc, env);
    match pc
    case OpenLookup(_, _) => StillIsSound(db, rooms, o.events, o.next);
    case OpenFind(m, row) =>
      var found := FindChat(db, m);
      if found.Some? {
        OpenChatMembers(db, found.value, m);
      }
      StillIsSound(db, rooms, o.events, o.next);
    case OpenInsert(m, row) =>
      var after := CreateChat(db, env.id, m, row.user1, row.user2, env.touched);
      if after.Some? {
        CreateChatIsSound(db, env.id, m, row.user1, row.user2, env.touched);
      }
      CommitIsSound(db, rooms, after, Done(ChatOpened(env.id, m, {row.user1, row.user2})));
  }

  lemma SendInsertIsSound(db: Db, id: Id, msg: Message, touched: Time)
    requires Consistent(db) && Present(db, msg.senderId, msg.chatId)
    requires AppendMessage(db, id, msg, touched).Some?
    ensures Sound(db, AppendMessage(db, id, msg, touched).value)
    ensures Committed(AppendMessage(db, id, msg, touched).value, id, msg)
  {
    AppendMessageIsSound(db, id, msg, touched);
  }

  lemma NotifyTellsPartners(db: Db, rooms: set<(Socket, Id)>, pc: Pc, env: Env)
    requires pc.NotifyPartner? && ParticipantsOk(db) && PcOk(db, pc)
    ensures forall e :: e in ExecSend(db, rooms, pc, env).events ==> EventOk(db, e)
  {
    forall u | u in Members(db, pc.c) - {pc.sender} ensures Partners(db, pc.c, u, pc.sender) {
      assert (pc.c, u) in db.participants;
    }
  }

  lemma NotifyIsSound(db: Db, rooms: set<(Socket, Id)>, pc: Pc, env: Env)
    requires pc.NotifyPartner? && Consistent(db) && PcOk(db, pc) && RoomsOk(db, rooms)
    ensures OutcomeOk(db, ExecSend(db, rooms, pc, env))
  {
    NotifyTellsPartners(db, rooms, pc, env);
    var o := ExecSend(db, rooms, pc, env);
    StillIsSound(db, rooms, o.events, o.next);
  }

  lemma SendCommitIsSound(db: Db, rooms: set<(Socket, Id)>, pc: Pc, env: Env)
    requires pc.SendInsert? && Consistent(db) && PcOk(db, pc) && RoomsOk(db, rooms)
    ensures OutcomeOk(db, ExecSend(db, rooms, pc, env))
  {
    var msg := Message(pc.c, pc.u, pc.content, pc.kind, env.now);
    var after := AppendMessage(db, env.id, msg, env.touched);
    if after.Some? {
      SendInsertIsSound(db, env.id, msg, env.touched);
    }
    CommitIsSound(db, rooms, after, if pc.path == Live then Goto(SendEmit(env.id, msg))
                                    else Next(Some(Sent(env.id)), Some(NotifyPartner(pc.path, pc.c, pc.u))));
  }

  lemma SendIsSound(db: Db, rooms: set<(Socket, Id)>, pc: Pc, env: Env)
    requires (pc.SendCheck? || pc.SendEmit?) && Consistent(db) && PcOk(db, pc) && RoomsOk(db, rooms)
    ensures OutcomeOk(db, ExecSend(db, rooms, pc, env))
  {
    var o := ExecSend(db, rooms, pc, env);
    StillIsSound(db, rooms, o.events, o.next);
  }

  lemma RoomIsSound(db: Db, rooms: set<(Socket, Id)>, pc: Pc)
    requires IsRoom(pc) && Consistent(db) && PcOk(db, pc) && RoomsOk(db, rooms)
    ensures OutcomeOk(db, ExecRoom(db, rooms, pc))
  {
    var o := ExecRoom(db, rooms, pc);
    StillIsSound(db, o.rooms, o.events, o.next);
  }

  lemma ExecIsSound(db: Db, rooms: set<(Socket, Id)>, pc: Pc, env: Env)
    requires Consistent(db) && PcOk(db, pc) && RoomsOk(db, rooms)
    ensures OutcomeOk(db, Exec(db, rooms, pc, env))
  {
    if IsSwipe(pc) {
      SwipeIsSound(db, rooms, pc, env);
    } else if IsOpen(pc) {
      OpenIsSound(db, rooms, pc, env);
    } else if pc.SendInsert? {
      SendCommitIsSound(db, rooms, pc, env);
    } else if pc.NotifyPartner? {
      NotifyIsSound(db, rooms, pc, env);
    } else if IsSend(pc) {
      SendIsSound(db, rooms, pc, env);
    } else {
      RoomIsSound(db, rooms, pc);
    }
  }

  // ---- the invariant ----

  /** Everything that concerns one request, reply, event or room at a time. */
  ghost predicate EachOk(s: State) {
    && Consistent(s.db)
    && RoomsOk(s.db, s.rooms)
    && (forall i :: i in s.inflight ==> PcOk(s.db, s.inflight[i]))
    && (forall i :: i in s.replies ==> ReplyOk(s.db, s.replies[i]))
    && (forall e :: e in s.events ==> EventOk(s.db, e))
  }

  /** A swipe between its record write and its match write, in either direction. */
  predicate Deciding(pc: Pc, a: Id, b: Id) {
    pc == ReadBack(a, b) || pc == ReadBack(b, a) || pc == MatchInsert(a, b) || pc == MatchInsert(b, a)
  }

  ghost predicate SomeoneDecides(s: State, a: Id, b: Id) {
    exists i :: i in s.inflight && Deciding(s.inflight[i], a, b)
  }

  predicate Mutual(db: Db, a: Id, b: Id) {
    Likes(db, a, b) && Likes(db, b, a)
  }

  ghost predicate NoLostMatch(s: State) {
    forall a, b :: Mutual(s.db, a, b) ==> Matched(s.db, a, b) || SomeoneDecides(s, a, b)
  }

  predicate Announcing(pc: Pc, a: Id, b: Id) {
    pc.Announce? && ((pc.u == a && pc.t == b) || (pc.u == b && pc.t == a))
  }

  ghost predicate SomeoneAnnounces(s: State, a: Id, b: Id) {
    exists i :: i in s.inflight && Announcing(s.inflight[i], a, b)
  }

  /** The four events of one announcement go out together, at most once, ... */
  ghost predicate ToldTogether(s: State, a: Id, b: Id) {
    && s.events[NewMatch(a, b)] <= 1
    && s.events[NewMatch(b, a)] == s.events[NewMatch(a, b)]
    && s.events[MatchPush(a, b)] == s.events[NewMatch(a, b)]
  }

  /** ... never before their request reaches the announcement, ... */
  ghost predicate NotYetTold(s: State) {
    forall i, a, b :: i in s.inflight && Announcing(s.inflight[i], a, b) ==> NewMatch(a, b) !in s.events
  }

  /** ... which one request per pair does, ... */
  ghost predicate OneAnnouncer(s: State) {
    forall i, j, a, b | i in s.inflight && j in s.inflight
      :: Announcing(s.inflight[i], a, b) && Announcing(s.inflight[j], a, b) ==> i == j
  }

  /** ... and no match stays silent. */
  ghost predicate NoSilentMatch(s: State) {
    forall a, b :: Matched(s.db, a, b) ==> SomeoneAnnounces(s, a, b) || NewMatch(a, b) in s.events
  }

  ghost predicate AnnouncedOnce(s: State) {
    && (forall a, b :: ToldTogether(s, a, b))
    && NotYetTold(s) && OneAnnouncer(s) && NoSilentMatch(s)
  }

  ghost predicate Inv(s: State) {
    EachOk(s) && NoLostMatch(s) && AnnouncedOnce(s)
  }

  /** A store statement outside any request keeps what concerns each request. */
  lemma SoundKeepsEach(s: State, after: Db)
    requires EachOk(s) && Sound(s.db, after)
    ensures EachOk(s.(db := after))
  {
    forall i | i in s.inflight ensures PcOk(after, s.inflight[i]) { PcStable(s.db, after, s.inflight[i]); }
    forall i | i in s.replies ensures ReplyOk(after, s.replies[i]) { ReplyStable(s.db, after, s.replies[i]); }
    forall e | e in s.events ensures EventOk(after, e) { EventStable(s.db, after, e); }
  }

  lemma AdvanceKeepsEach(s: State, i: nat, env: Env)
    requires EachOk(s) && i in s.inflight
    ensures EachOk(Step(s, Advance(i, env)))
  {
    var o := Exec(s.db, s.rooms, s.inflight[i], env);
    ExecIsSound(s.db, s.rooms, s.inflight[i], env);
    SoundKeepsEach(s, o.db);
  }

  lemma MatchedIsSymmetric(db: Db, a: Id, b: Id)
    ensures Matched(db, a, b) <==> Matched(db, b, a)
  {
    assert forall m :: MatchOf(db, m, a, b) <==> MatchOf(db, m, b, a);
  }

  lemma MatchedMeansTaken(db: Db, a: Id, b: Id)
    requires MatchesOk(db)
    ensures Matched(db, a, b) <==> MatchKeyTaken(db, Sorted(a, b).0, Sorted(a, b).1)
  {
    SortedForgetsOrder(a, b);
    BeforeIsTotal(a, b);
    if Matched(db, a, b) {
      var m :| MatchOf(db, m, a, b);
      assert SoundMatch(db, db.matches[m]);
    }
    if MatchKeyTaken(db, Sorted(a, b).0, Sorted(a, b).1) {
      var m :| m in db.matches && db.matches[m].user1 == Sorted(a, b).0 && db.matches[m].user2 == Sorted(a, b).1;
      assert MatchOf(db, m, a, b);
    }
  }

  /** Whether it wins or loses the create, a match write leaves a match behind, unless an account is gone. */
  lemma MatchInsertSettles(db: Db, rooms: set<(Socket, Id)>, pc: Pc, env: Env)
    requires Consistent(db) && pc.MatchInsert? && PcOk(db, pc) && Fresh(db, env.id)
    requires Likes(db, pc.u, pc.t)
    ensures Matched(Exec(db, rooms, pc, env).db, pc.u, pc.t)
    ensures Exec(db, rooms, pc, env).next == Fail(KeyViolation) <==> Matched(db, pc.u, pc.t)
  {
    SortedForgetsOrder(pc.u, pc.t);
    MatchedMeansTaken(db, pc.u, pc.t);
    var (user1, user2) := Sorted(pc.u, pc.t);
    if CreateMatch(db, env.id, user1, user2, env.now).Some? {
      CreateMatchIsSound(db, env.id, pc.u, pc.t, env.now);
    }
  }

  /** Once a store write of `pc` is known to keep likes and matches, a mutual pair is old or being decided. */
  lemma InsertKeepsPair(db: Db, u: Id, t: Id, action: Action, a: Id, b: Id)
    requires CreateSwipe(db, u, t, action).Some?
    requires Mutual(CreateSwipe(db, u, t, action).value, a, b)
    ensures Matched(db, a, b) ==> Matched(CreateSwipe(db, u, t, action).value, a, b)
    ensures Mutual(db, a, b) || (action == Like && ((u, t) == (a, b) || (u, t) == (b, a)))
  {
    var after := CreateSwipe(db, u, t, action).value;
    if Matched(db, a, b) {
      var m :| MatchOf(db, m, a, b);
      assert MatchOf(after, m, a, b);
    }
  }

  lemma MatchInsertKeepsPair(db: Db, rooms: set<(Socket, Id)>, pc: Pc, env: Env, a: Id, b: Id)
    requires Consistent(db) && pc.MatchInsert? && PcOk(db, pc) && Fresh(db, env.id) && Mutual(db, a, b)
    ensures Deciding(pc, a, b) || Matched(db, a, b) ==> Matched(ExecSwipe(db, rooms, pc, env).db, a, b)
  {
    var after := ExecSwipe(db, rooms, pc, env).db;
    if Deciding(pc, a, b) {
      MatchInsertSettles(db, rooms, pc, env);
      var m :| MatchOf(after, m, pc.u, pc.t);
      assert MatchOf(after, m, a, b);
    } else if Matched(db, a, b) {
      var m :| MatchOf(db, m, a, b);
      assert MatchOf(after, m, a, b);
    }
  }

  lemma OthersKeepLikes(db: Db, rooms: set<(Socket, Id)>, pc: Pc, env: Env)
    requires !IsSwipe(pc)
    ensures var after := Exec(db, rooms, pc, env).db; after.matches == db.matches && after.swipes == db.swipes
  {
    if IsOpen(pc) {
      assert ExecOpen(db, rooms, pc, env).db.matches == db.matches;
    } else if IsSend(pc) {
      assert ExecSend(db, rooms, pc, env).db.matches == db.matches;
    }
  }

  lemma LikesUnchanged(db: Db, after: Db, a: Id, b: Id)
    requires after.swipes == db.swipes && after.matches == db.matches
    ensures Mutual(after, a, b) <==> Mutual(db, a, b)
    ensures Matched(after, a, b) <==> Matched(db, a, b)
  {
    assert forall m :: MatchOf(after, m, a, b) <==> MatchOf(db, m, a, b);
  }

  /** One step of one swipe, seen by one pair of users. */
  lemma SwipeKeepsPair(db: Db, rooms: set<(Socket, Id)>, pc: Pc, env: Env, a: Id, b: Id)
    requires IsSwipe(pc) && Consistent(db) && PcOk(db, pc) && Fresh(db, env.id)
    requires Mutual(ExecSwipe(db, rooms, pc, env).db, a, b)
    ensures var o := ExecSwipe(db, rooms, pc, env);
            || Matched(o.db, a, b)
            || (o.next.pc.Some? && Deciding(o.next.pc.value, a, b))
            || (Mutual(db, a, b) && !Matched(db, a, b) && !Deciding(pc, a, b))
  {
    if pc.SwipeInsert? && CreateSwipe(db, pc.u, pc.t, pc.action).Some? {
      InsertKeepsPair(db, pc.u, pc.t, pc.action, a, b);
    } else if pc.MatchInsert? {
      MatchInsertKeepsPair(db, rooms, pc, env, a, b);
    }
  }

  lemma ExecKeepsPair(db: Db, rooms: set<(Socket, Id)>, pc: Pc, env: Env, a: Id, b: Id)
    requires Consistent(db) && PcOk(db, pc) && Fresh(db, env.id)
    requires Mutual(Exec(db, rooms, pc, env).db, a, b)
    ensures var o := Exec(db, rooms, pc, env);
            || Matched(o.db, a, b)
            || (o.next.pc.Some? && Deciding(o.next.pc.value, a, b))
            || (Mutual(db, a, b) && !Matched(db, a, b) && !Deciding(pc, a, b))
  {
    if IsSwipe(pc) {
      SwipeKeepsPair(db, rooms, pc, env, a, b);
    } else {
      OthersKeepLikes(db, rooms, pc, env);
      LikesUnchanged(db, Exec(db, rooms, pc, env).db, a, b);
    }
  }

  lemma AdvanceKeepsNoLost(s: State, i: nat, env: Env)
    requires EachOk(s) && NoLostMatch(s) && i in s.inflight && Fresh(s.db, env.id)
    ensures NoLostMatch(Step(s, Advance(i, env)))
  {
    var o := Exec(s.db, s.rooms, s.inflight[i], env);
    var s' := Step(s, Advance(i, env));
    forall a, b | Mutual(s'.db, a, b) ensures Matched(s'.db, a, b) || SomeoneDecides(s', a, b) {
      ExecKeepsPair(s.db, s.rooms, s.inflight[i], env, a, b);
      if o.next.pc.Some? && Deciding(o.next.pc.value, a, b) {
        assert i in s'.inflight && Deciding(s'.inflight[i], a, b);
      } else if !Matched(s'.db, a, b) {
        var j :| j in s.inflight && Deciding(s.inflight[j], a, b);
        assert j in s'.inflight && Deciding(s'.inflight[j], a, b);
      }
    }
  }

  lemma OthersStayQuiet(db: Db, rooms: set<(Socket, Id)>, pc: Pc, env: Env)
    requires !pc.Announce?
    ensures var o := Exec(db, rooms, pc, env);
            forall a, b :: o.events[NewMatch(a, b)] == 0 && o.events[MatchPush(a, b)] == 0
    ensures var o := Exec(db, rooms, pc, env);
            o.next.pc.Some? && o.next.pc.value.Announce? ==>
              pc.MatchInsert? && o.next.pc.value == Announce(pc.u, pc.t, env.id)
  {
  }

  /** A successful match write starts the first and only announcement of its pair. */
  lemma NewMatchIsNew(s: State, i: nat, env: Env)
    requires EachOk(s) && i in s.inflight && s.inflight[i].MatchInsert? && Fresh(s.db, env.id)
    requires Exec(s.db, s.rooms, s.inflight[i], env).next.pc.Some?
    ensures var pc := s.inflight[i];
            && !SomeoneAnnounces(s, pc.u, pc.t)
            && NewMatch(pc.u, pc.t) !in s.events && NewMatch(pc.t, pc.u) !in s.events
  {
    var pc := s.inflight[i];
    MatchedMeansTaken(s.db, pc.u, pc.t);
    SortedForgetsOrder(pc.u, pc.t);
    assert !Lost(s.db, pc.u, pc.t) && !Matched(s.db, pc.u, pc.t);
    forall j | j in s.inflight && s.inflight[j].Announce? ensures !Announcing(s.inflight[j], pc.u, pc.t) {
      assert PcOk(s.db, s.inflight[j]);
    }
    MatchedIsSymmetric(s.db, pc.u, pc.t);
    assert !EventOk(s.db, NewMatch(pc.u, pc.t)) && !EventOk(s.db, NewMatch(pc.t, pc.u));
  }

  /** The matches after a step are the old ones and the one being announced. */
  lemma NewMatchesAreAnnounced(db: Db, rooms: set<(Socket, Id)>, pc: Pc, env: Env, a: Id, b: Id)
    requires Matched(Exec(db, rooms, pc, env).db, a, b) && !Matched(db, a, b)
    ensures var o := Exec(db, rooms, pc, env); o.next.pc.Some? && Announcing(o.next.pc.value, a, b)
  {
    var o := Exec(db, rooms, pc, env);
    var m :| MatchOf(o.db, m, a, b);
    assert !MatchOf(db, m, a, b);
    if IsSwipe(pc) {
      SortedForgetsOrder(pc.u, pc.t);
    } else {
      OthersKeepLikes(db, rooms, pc, env);
    }
  }

  lemma SilentStepKeepsTold(s: State, i: nat, env: Env)
    requires i in s.inflight && Fresh(s.db, env.id) && !s.inflight[i].Announce?
    ensures var s' := Step(s, Advance(i, env));
            forall a, b :: (ToldTogether(s', a, b) <==> ToldTogether(s, a, b))
                           && s'.events[NewMatch(a, b)] == s.events[NewMatch(a, b)]
  {
    OthersStayQuiet(s.db, s.rooms, s.inflight[i], env);
  }

  /** After a silent step, only the stepping request can be a new announcer, and then nobody else was one. */
  lemma SilentStepAnnouncers(s: State, i: nat, env: Env, j: nat, a: Id, b: Id)
    requires EachOk(s) && i in s.inflight && Fresh(s.db, env.id) && !s.inflight[i].Announce?
    requires var s' := Step(s, Advance(i, env)); j in s'.inflight && Announcing(s'.inflight[j], a, b)
    ensures j != i ==> j in s.inflight && Announcing(s.inflight[j], a, b)
    ensures j == i ==> !SomeoneAnnounces(s, a, b) && NewMatch(a, b) !in s.events
  {
    if j == i {
      OthersStayQuiet(s.db, s.rooms, s.inflight[i], env);
      NewMatchIsNew(s, i, env);
      var pc := s.inflight[i];
      assert (a, b) == (pc.u, pc.t) || (a, b) == (pc.t, pc.u);
      assert forall k :: k in s.inflight && Announcing(s.inflight[k], a, b) ==> Announcing(s.inflight[k], pc.u, pc.t);
    }
  }

  lemma SilentStepKeepsAnnouncer(s: State, i: nat, env: Env)
    requires EachOk(s) && NotYetTold(s) && OneAnnouncer(s)
    requires i in s.inflight && Fresh(s.db, env.id) && !s.inflight[i].Announce?
    ensures var s' := Step(s, Advance(i, env)); NotYetTold(s') && OneAnnouncer(s')
  {
    var s' := Step(s, Advance(i, env));
    SilentStepKeepsTold(s, i, env);
    forall j, a, b | j in s'.inflight && Announcing(s'.inflight[j], a, b) ensures NewMatch(a, b) !in s'.events {
      SilentStepAnnouncers(s, i, env, j, a, b);
    }
    forall j, k, a, b | j in s'.inflight && k in s'.inflight
      && Announcing(s'.inflight[j], a, b) && Announcing(s'.inflight[k], a, b)
      ensures j == k
    {
      SilentStepAnnouncers(s, i, env, j, a, b);
      SilentStepAnnouncers(s, i, env, k, a, b);
    }
  }

  lemma SilentStepKeepsMatches(s: State, i: nat, env: Env)
    requires NoSilentMatch(s) && i in s.inflight && Fresh(s.db, env.id) && !s.inflight[i].Announce?
    ensures NoSilentMatch(Step(s, Advance(i, env)))
  {
    var pc := s.inflight[i];
    var s' := Step(s, Advance(i, env));
    SilentStepKeepsTold(s, i, env);
    forall a, b | Matched(s'.db, a, b) ensures SomeoneAnnounces(s', a, b) || NewMatch(a, b) in s'.events {
      if !Matched(s.db, a, b) {
        NewMatchesAreAnnounced(s.db, s.rooms, pc, env, a, b);
        assert i in s'.inflight && Announcing(s'.inflight[i], a, b);
      } else if SomeoneAnnounces(s, a, b) {
        var j :| j in s.inflight && Announcing(s.inflight[j], a, b);
        assert j in s'.inflight && Announcing(s'.inflight[j], a, b);
      }
    }
  }

  lemma AnnounceKeepsTold(s: State, i: nat, env: Env)
    requires NotYetTold(s) && (forall a, b :: ToldTogether(s, a, b))
    requires i in s.inflight && Fresh(s.db, env.id) && s.inflight[i].Announce? && PcOk(s.db, s.inflight[i])
    ensures forall a, b :: ToldTogether(Step(s, Advance(i, env)), a, b)
  {
    var pc := s.inflight[i];
    var s' := Step(s, Advance(i, env));
    assert s'.events == s.events + MatchNews(pc.u, pc.t);
    assert Announcing(pc, pc.u, pc.t) && Announcing(pc, pc.t, pc.u);
    forall a, b ensures ToldTogether(s', a, b) {
      assert ToldTogether(s, a, b);
    }
  }

  lemma AnnounceKeepsAnnouncer(s: State, i: nat, env: Env)
    requires NotYetTold(s) && OneAnnouncer(s)
    requires i in s.inflight && Fresh(s.db, env.id) && s.inflight[i].Announce?
    ensures var s' := Step(s, Advance(i, env)); NotYetTold(s') && OneAnnouncer(s')
  {
    var pc := s.inflight[i];
    var s' := Step(s, Advance(i, env));
    assert s'.events == s.events + MatchNews(pc.u, pc.t) && s'.inflight == s.inflight - {i};
    forall j, a, b | j in s'.inflight && Announcing(s'.inflight[j], a, b) ensures NewMatch(a, b) !in s'.events {
      assert Announcing(s.inflight[j], a, b) && !Announcing(pc, a, b);
    }
  }

  lemma AnnounceKeepsMatches(s: State, i: nat, env: Env)
    requires NoSilentMatch(s) && i in s.inflight && Fresh(s.db, env.id) && s.inflight[i].Announce?
    ensures NoSilentMatch(Step(s, Advance(i, env)))
  {
    var pc := s.inflight[i];
    var s' := Step(s, Advance(i, env));
    assert s'.db == s.db && s'.events == s.events + MatchNews(pc.u, pc.t) && s'.inflight == s.inflight - {i};
    forall a, b | Matched(s'.db, a, b) ensures SomeoneAnnounces(s', a, b) || NewMatch(a, b) in s'.events {
      if SomeoneAnnounces(s, a, b) {
        var j :| j in s.inflight && Announcing(s.inflight[j], a, b);
        assert j != i ==> j in s'.inflight && Announcing(s'.inflight[j], a, b);
      }
    }
  }

  lemma AdvanceKeepsAnnounced(s: State, i: nat, env: Env)
    requires EachOk(s) && AnnouncedOnce(s) && i in s.inflight && Fresh(s.db, env.id)
    ensures AnnouncedOnce(Step(s, Advance(i, env)))
  {
    if s.inflight[i].Announce? {
      AnnounceKeepsTold(s, i, env);
      AnnounceKeepsAnnouncer(s, i, env);
      AnnounceKeepsMatches(s, i, env);
    } else {
      SilentStepKeepsTold(s, i, env);
      SilentStepKeepsAnnouncer(s, i, env);
      SilentStepKeepsMatches(s, i, env);
    }
  }

  ghost predicate AddsNoLikes(db: Db, after: Db) {
    && (forall p :: p in after.swipes ==> p in db.swipes && after.swipes[p] == db.swipes[p])
    && (forall m :: m in after.matches ==> m in db.matches && after.matches[m] == db.matches[m])
  }

  lemma StoreKeepsNoLost(s: State, after: Db)
    requires NoLostMatch(s) && UsersOk(after) && Later(s.db, after) && AddsNoLikes(s.db, after)
    ensures NoLostMatch(s.(db := after))
  {
    var s' := s.(db := after);
    forall a, b | Mutual(after, a, b) ensures Matched(after, a, b) || SomeoneDecides(s', a, b) {
      assert Mutual(s.db, a, b);
      if Matched(s.db, a, b) {
        var m :| MatchOf(s.db, m, a, b);
        assert MatchOf(after, m, a, b);
      } else {
        assert SomeoneDecides(s, a, b);
      }
    }
  }

  lemma StoreKeepsAnnounced(s: State, after: Db)
    requires AnnouncedOnce(s) && AddsNoLikes(s.db, after)
    ensures AnnouncedOnce(s.(db := after))
  {
    var s' := s.(db := after);
    forall a, b ensures ToldTogether(s', a, b) {
      assert ToldTogether(s, a, b);
    }
    forall a, b | Matched(after, a, b) ensures SomeoneAnnounces(s', a, b) || NewMatch(a, b) in s'.events {
      var m :| MatchOf(after, m, a, b);
      assert MatchOf(s.db, m, a, b);
      assert SomeoneAnnounces(s, a, b) ==> SomeoneAnnounces(s', a, b);
    }
  }

  /** A store statement that adds neither likes nor matches keeps the whole invariant. */
  lemma StoreKeepsInv(s: State, after: Db)
    requires Inv(s) && Sound(s.db, after) && AddsNoLikes(s.db, after)
    ensures Inv(s.(db := after))
  {
    SoundKeepsEach(s, after);
    StoreKeepsNoLost(s, after);
    StoreKeepsAnnounced(s, after);
  }

  lemma ArriveKeepsEach(s: State, i: nat, pc: Pc)
    requires EachOk(s)
    ensures EachOk(Step(s, Arrive(i, pc)))
  {
    var s' := Step(s, Arrive(i, pc));
    assert s'.db == s.db && s'.events == s.events && s'.replies == s.replies && s'.rooms == s.rooms;
    assert s'.inflight == s.inflight || (IsEntry(pc) && s'.inflight == s.inflight[i := pc]);
  }

  lemma ArrivalKeepsCounts(s: State, s': State, i: nat)
    requires NoLostMatch(s) && AnnouncedOnce(s)
    requires i !in s.inflight && i in s'.inflight && IsEntry(s'.inflight[i])
    requires s'.db == s.db && s'.events == s.events && s'.inflight == s.inflight[i := s'.inflight[i]]
    ensures NoLostMatch(s') && AnnouncedOnce(s')
  {
    forall a, b | SomeoneDecides(s, a, b) ensures SomeoneDecides(s', a, b) {
      var j :| j in s.inflight && Deciding(s.inflight[j], a, b);
      assert j in s'.inflight && Deciding(s'.inflight[j], a, b);
    }
    forall a, b ensures ToldTogether(s', a, b) && (SomeoneAnnounces(s, a, b) ==> SomeoneAnnounces(s', a, b)) {
      assert ToldTogether(s, a, b);
      if SomeoneAnnounces(s, a, b) {
        var j :| j in s.inflight && Announcing(s.inflight[j], a, b);
        assert j in s'.inflight && Announcing(s'.inflight[j], a, b);
      }
    }
  }

  lemma ArriveKeepsInv(s: State, i: nat, pc: Pc)
    requires Inv(s)
    ensures Inv(Step(s, Arrive(i, pc)))
  {
    var s' := Step(s, Arrive(i, pc));
    if s' != s {
      ArriveKeepsEach(s, i, pc);
      ArrivalKeepsCounts(s, s', i);
    }
  }

  lemma DisconnectKeepsInv(s: State, socket: Socket)
    requires Inv(s)
    ensures Inv(Step(s, Disconnect(socket)))
  {
    var s' := Step(s, Disconnect(socket));
    assert s'.db == s.db && s'.events == s.events && s'.inflight == s.inflight;
    forall a, b ensures ToldTogether(s', a, b) && (SomeoneAnnounces(s, a, b) ==> SomeoneAnnounces(s', a, b)) {
      assert ToldTogether(s, a, b);
    }
    forall a, b | SomeoneDecides(s, a, b) ensures SomeoneDecides(s', a, b) {
    }
  }

  /** Every label keeps the invariant. */
  lemma StepKeepsInv(s: State, l: Label)
    requires Inv(s)
    ensures Inv(Step(s, l))
  {
    match l
    case Arrive(i, pc) => ArriveKeepsInv(s, i, pc);
    case Advance(i, env) =>
      if i in s.inflight && Fresh(s.db, env.id) {
        AdvanceKeepsEach(s, i, env);
        AdvanceKeepsNoLost(s, i, env);
        AdvanceKeepsAnnounced(s, i, env);
      }
    case Register(u, now) =>
      if CreateUser(s.db, u, now).Some? {
        CreateUserIsSound(s.db, u, now);
        StoreKeepsInv(s, CreateUser(s.db, u, now).value);
      }
    case AddProfile(u, name) =>
      if CreateProfile(s.db, u, name).Some? {
        CreateProfileIsSound(s.db, u, name);
        StoreKeepsInv(s, CreateProfile(s.db, u, name).value);
      }
    case Delete(u) =>
      if DeleteUser(s.db, u).Some? {
        DeleteUserIsSound(s.db, u);
        StoreKeepsInv(s, DeleteUser(s.db, u).value);
      }
    case Disconnect(socket) => DisconnectKeepsInv(s, socket);
  }

  lemma {:induction false} RunKeepsInv(s: State, ls: seq<Label>)
    requires Inv(s)
    ensures Inv(Run(s, ls))
    decreases |ls|
  {
    if ls != [] {
      StepKeepsInv(s, ls[0]);
      RunKeepsInv(Step(s, ls[0]), ls[1..]);
    }
  }

  lemma {:induction false} RunJoins(s: State, xs: seq<Label>, ys: seq<Label>)
    ensures Run(s, xs + ys) == Run(Run(s, xs), ys)
    decreases |xs|
  {
    if xs == [] {
      assert xs + ys == ys;
    } else {
      assert (xs + ys)[1..] == xs[1..] + ys;
      RunJoins(Step(s, xs[0]), xs[1..], ys);
    }
  }

  lemma RunExtends(s: State, ls: seq<Label>, l: Label)
    ensures Run(s, ls + [l]) == Step(Run(s, ls), l)
  {
    RunJoins(s, ls, [l]);
    assert [l][1..] == [];
  }

  lemma TwoSteps(s: State, l: Label, k: Label)
    ensures Run(s, [l, k]) == Step(Step(s, l), k)
  {
    RunExtends(s, [], l);
    RunExtends(s, [l], k);
    assert [] + [l] == [l] && [l] + [k] == [l, k];
  }

  lemma ReachableIsSound(ls: seq<Label>)
    ensures Inv(Run(INITIAL, ls))
  {
    RunKeepsInv(INITIAL, ls);
  }
}
