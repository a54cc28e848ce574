/** What a caller gets from an operation that nobody interrupts, in terms of the rows before and after it. */
module Promises {
  import opened Base
  import opened Schema
  import opened Requests
  import opened Safety
  import opened Alone
  import Paging

  // ---- swipe ----

  lemma MatchedIsMutual(db: Db, a: Id, b: Id)
    requires MatchesOk(db)
    ensures Matched(db, a, b) ==> Mutual(db, a, b)
  {
    if Matched(db, a, b) {
      var m :| MatchOf(db, m, a, b);
      assert SoundMatch(db, db.matches[m]);
    }
  }

  /** Nothing is under way for the pair, so before the swipe there is no match without a mutual like, and no mutual
      like without a match. */
  lemma BeforeSwipe(s: State, u: Id, t: Id)
    requires Inv(s) && !SomeoneDecides(s, u, t) && (u, t) !in s.db.swipes
    ensures !Matched(s.db, u, t) && !MatchKeyTaken(s.db, Sorted(u, t).0, Sorted(u, t).1)
  {
    MatchedMeansTaken(s.db, u, t);
    MatchedIsMutual(s.db, u, t);
  }

  /** `w` is `db` with one more match, between `u` and `t`, announced to both. */
  ghost predicate NewMatchRow(db: Db, w: Whole, u: Id, t: Id, env: Env) {
    && env.id !in db.matches && MatchOf(w.db, env.id, u, t)
    && w.db.matches == db.matches[env.id := w.db.matches[env.id]] && w.db.matches[env.id].createdAt == env.now
    && w.db.(matches := db.matches, usedMatches := db.usedMatches) == db
    && w.events == multiset{NewMatch(u, t), NewMatch(t, u), MatchPush(u, t), MatchPush(t, u)}
  }

  /** A like that is not answered by one creates nothing; otherwise it creates the match whose id it answers with, stored
      for both users in sorted order, and tells each of them about the other. */
  lemma AfterLike(db: Db, u: Id, t: Id, env: Env)
    requires Likes(db, u, t) && !MatchKeyTaken(db, Sorted(u, t).0, Sorted(u, t).1) && !Matched(db, u, t)
    requires u in db.users && t in db.users && Fresh(db, env.id) && db.matches.Keys <= db.usedMatches
    ensures var w := LikeAlone(db, u, t, env);
            && w.reply == Swiped(if Likes(db, t, u) then Some(env.id) else None)
            && (Matched(w.db, u, t) <==> Likes(db, t, u))
            && (Likes(db, t, u) ==> NewMatchRow(db, w, u, t, env))
            && (!Likes(db, t, u) ==> w.db == db && w.events == multiset{})
  {
    SortedForgetsOrder(u, t);
    var w := LikeAlone(db, u, t, env);
    if Likes(db, t, u) {
      assert MatchOf(w.db, env.id, u, t);
    }
  }

  /** With nothing under way for the pair, a swipe is refused for exactly the reason there is; otherwise it stores its
      record, and answers with the id of a new match of the two, announced to both, exactly when both now like each other. */
  lemma SwipeAlonePromise(s: State, u: Id, t: Id, action: Action, env: Env)
    requires Inv(s) && !SomeoneDecides(s, u, t) && Fresh(s.db, env.id)
    ensures var w := SwipeAlone(s.db, u, t, action, env);
            var both := action == Like && (t, u) in s.db.swipes && s.db.swipes[(t, u)] == Like;
            var recorded := s.db.(swipes := s.db.swipes[(u, t) := action]);
            && (w.reply.Swiped? <==> u != t && (u, t) !in s.db.swipes && u in s.db.users && t in s.db.users)
            && (w.reply.Swiped? ==>
                  && w.reply.matchId == (if both then Some(env.id) else None)
                  && (both <==> Matched(w.db, u, t))
                  && (both ==> NewMatchRow(recorded, w, u, t, env))
                  && (!both ==> w.db == recorded && w.events == multiset{}))
            && (!w.reply.Swiped? ==>
                  && w.db == s.db && w.events == multiset{}
                  && w.reply == Failed(if u == t then BadRequest else if (u, t) in s.db.swipes then Conflict else KeyViolation))
  {
    if u != t && (u, t) !in s.db.swipes && u in s.db.users && t in s.db.users {
      BeforeSwipe(s, u, t);
      var swiped := s.db.(swipes := s.db.swipes[(u, t) := action]);
      assert forall m :: MatchOf(swiped, m, u, t) <==> MatchOf(s.db, m, u, t);
      if action == Like {
        AfterLike(swiped, u, t, env);
      }
    }
  }

  // ---- openChat ----

  lemma OpenedChat(db: Db, c: Id, m: Id)
    requires Consistent(db) && ChatOfMatch(db, c, m)
    ensures m in db.matches && Members(db, c) == {db.matches[m].user1, db.matches[m].user2}
    ensures FindChat(db, m) == Some(c)
  {
    OpenChatMembers(db, c, m);
    OpenChatMembers(db, FindChat(db, m).value, m);
    assert SoundChat(db, db.chats[c], db.founded[c]);
  }

  /** `openChat` answers exactly the two users of an existing match with the match's chat and both of them, and refuses
      everybody else for the reason there is. It tells nobody. */
  lemma OpenAlonePromise(db: Db, m: Id, u: Id, env: Env)
    requires Consistent(db) && Fresh(db, env.id)
    ensures var w := OpenAlone(db, m, u, env);
            && (w.reply.ChatOpened? <==> m in db.matches && (u == db.matches[m].user1 || u == db.matches[m].user2))
            && (w.reply.ChatOpened? ==>
                  && ChatOfMatch(w.db, w.reply.c, m) && w.reply.m == m && Consistent(w.db)
                  && w.reply.who == Members(w.db, w.reply.c) == {db.matches[m].user1, db.matches[m].user2}
                  && (ChatKeyTaken(db, m) || w.reply.c == env.id)
                  && w.db.matches == db.matches)
            && (!w.reply.ChatOpened? ==> w.db == db && w.reply == Failed(if m in db.matches then Forbidden else NotFound))
            && w.events == multiset{}
  {
    var w := OpenAlone(db, m, u, env);
    if m in db.matches {
      assert SoundMatch(db, db.matches[m]);
    }
    if w.reply.ChatOpened? {
      if FindChat(db, m).None? {
        CreateChatIsSound(db, env.id, m, db.matches[m].user1, db.matches[m].user2, env.touched);
      }
      OpenedChat(w.db, w.reply.c, m);
    }
  }

  lemma CreateChatLeaves(db: Db, id: Id, m: Id, user1: Id, user2: Id, now: Time)
    requires CreateChat(db, id, m, user1, user2, now).Some?
    ensures var after := CreateChat(db, id, m, user1, user2, now).value;
            forall c :: c in db.chats ==> c in after.chats && after.chats[c] == db.chats[c] && Members(after, c) == Members(db, c)
  {
    var after := CreateChat(db, id, m, user1, user2, now).value;
    forall c | c in db.chats ensures Members(after, c) == Members(db, c) {
    }
  }

  /** Opening leaves every other chat and every other table alone, and everything once the chat exists; a new chat shows
      the time it was opened. */
  lemma OpenAloneLeaves(db: Db, m: Id, u: Id, env: Env)
    requires ChatsOk(db) && Fresh(db, env.id)
    ensures var after := OpenAlone(db, m, u, env).db;
            && (ChatKeyTaken(db, m) ==> after == db)
            && (forall c :: c in db.chats ==> c in after.chats && after.chats[c] == db.chats[c] && Members(after, c) == Members(db, c))
            && (forall c :: c in after.chats && c !in db.chats ==> after.chats[c] == Chat(Some(m), env.touched))
            && after.(chats := db.chats, participants := db.participants, founded := db.founded) == db
  {
    if m in db.matches && CreateChat(db, env.id, m, db.matches[m].user1, db.matches[m].user2, env.touched).Some? {
      CreateChatLeaves(db, env.id, m, db.matches[m].user1, db.matches[m].user2, env.touched);
    }
  }

  /** Opening is idempotent: whichever of the two users asks again gets the same answer and nothing changes. */
  lemma OpenAloneIsIdempotent(db: Db, m: Id, u: Id, v: Id, env: Env, again: Env)
    requires Consistent(db) && Fresh(db, env.id)
    requires OpenAlone(db, m, u, env).reply.ChatOpened? && v in OpenAlone(db, m, u, env).reply.who
    ensures var w := OpenAlone(db, m, u, env); OpenAlone(w.db, m, v, again) == Whole(w.db, multiset{}, w.reply)
  {
    OpenAlonePromise(db, m, u, env);
    var w := OpenAlone(db, m, u, env);
    OpenedChat(w.db, w.reply.c, m);
  }

  lemma MatchingIsSound(db: Db, u: Id, t: Id, env: Env)
    requires Consistent(db) && SwipeAlone(db, u, t, Like, env).reply.Swiped?
    ensures Consistent(SwipeAlone(db, u, t, Like, env).db)
  {
    CreateSwipeIsSound(db, u, t, Like);
    var liked := CreateSwipe(db, u, t, Like).value;
    if Likes(liked, t, u) {
      CreateMatchIsSound(liked, env.id, u, t, env.now);
    }
  }

  /** A swipe that answers with a match id gives both users the id that opens their chat. */
  lemma AnsweredMatchOpens(s: State, u: Id, t: Id, action: Action, env: Env, who: Id, later: Env)
    requires Inv(s) && !SomeoneDecides(s, u, t) && Fresh(s.db, env.id) && (who == u || who == t)
    requires var w := SwipeAlone(s.db, u, t, action, env);
             w.reply.Swiped? && w.reply.matchId.Some? && Fresh(w.db, later.id)
    ensures var w := SwipeAlone(s.db, u, t, action, env);
            var answer := OpenAlone(w.db, w.reply.matchId.value, who, later);
            answer.reply.ChatOpened? && answer.reply.who == {u, t}
  {
    SwipeAlonePromise(s, u, t, action, env);
    MatchingIsSound(s.db, u, t, env);
    var w := SwipeAlone(s.db, u, t, action, env);
    OpenAlonePromise(w.db, w.reply.matchId.value, who, later);
  }

  // ---- appending a message ----

  /** Appending succeeds exactly for participants, answers with the new message's id, adds that one message, touches its
      chat, and leaves every other chat and every other table alone. */
  lemma AppendAlonePromise(db: Db, c: Id, u: Id, content: string, kind: MessageType, env: Env)
    requires Consistent(db) && Fresh(db, env.id)
    ensures var (after, reply) := AppendAlone(db, c, u, content, kind, env);
            && reply == (if (c, u) in db.participants then Sent(env.id) else Failed(Forbidden))
            && (reply.Sent? ==>
                  && env.id !in db.messages
                  && after.messages == db.messages[env.id := Message(c, u, content, kind, env.now)]
                  && c in db.chats && after.chats.Keys == db.chats.Keys
                  && after.chats[c] == Chat(db.chats[c].matchId, env.touched)
                  && (forall d :: d in db.chats && d != c ==> after.chats[d] == db.chats[d])
                  && after.(messages := db.messages, chats := db.chats) == db)
            && (reply.Failed? ==> after == db)
  {
  }

  /** A message newer than everything else in its chat heads the first page, and whoever was in the chat may read it. */
  lemma SentHeadsThePage(db: Db, c: Id, u: Id, content: string, kind: MessageType, env: Env, limit: nat, page: Paging.Page)
    requires Consistent(db) && Fresh(db, env.id) && (c, u) in db.participants && limit > 0
    requires forall m :: m in db.messages && db.messages[m].chatId == c ==> db.messages[m].createdAt < env.now
    requires Paging.Answers(AppendAlone(db, c, u, content, kind, env).0.messages, c, None, limit, page)
    ensures var after := AppendAlone(db, c, u, content, kind, env).0;
            && page.data != [] && page.data[0] == env.id
            && after.messages[env.id] == Message(c, u, content, kind, env.now)
            && Members(after, c) == Members(db, c)
  {
    AppendAlonePromise(db, c, u, content, kind, env);
    Paging.NewestHeadsPage(AppendAlone(db, c, u, content, kind, env).0.messages, c, limit, page, env.id);
  }

  /** Nobody else sits in a chat than the sender and at most one other. */
  lemma OneOther(db: Db, c: Id, u: Id, v: Id, w: Id)
    requires Consistent(db) && (c, u) in db.participants && (c, v) in db.participants && (c, w) in db.participants
    requires v != u && w != u
    ensures v == w
  {
  }

  /** A push to another participant, about a message by `u` in `c`. */
  predicate Pushes(db: Db, c: Id, u: Id, e: Event) {
    e.MessagePush? && e.to != u && (c, e.to) in db.participants && e.c == c && e.from == u
  }

  predicate Refreshes(db: Db, c: Id, u: Id, e: Event) {
    e.ChatUpdated? && e.to != u && (c, e.to) in db.participants && e.c == c && e.from == u
  }

  /** `first` is the only other participant, if there is one. */
  lemma FirstIsTheOther(db: Db, c: Id, u: Id, first: Option<Id>)
    requires Consistent(db) && (c, u) in db.participants && FirstOther(db, c, u, first)
    ensures forall v :: v != u && (c, v) in db.participants <==> first == Some(v)
  {
    forall v ensures v != u && (c, v) in db.participants <==> first == Some(v) {
      assert v in Others(db, c, u) <==> v != u && (c, v) in db.participants;
      if first.Some? && v != u && (c, v) in db.participants {
        assert (c, first.value) in db.participants;
        OneOther(db, c, u, v, first.value);
      }
    }
  }

  lemma NewsReachTheOther(path: Path, db: Db, c: Id, u: Id, first: Option<Id>)
    requires forall v :: v != u && (c, v) in db.participants <==> first == Some(v)
    ensures forall e :: PartnerNews(path, c, u, first)[e] ==
              if Pushes(db, c, u, e) || (path == Live && Refreshes(db, c, u, e)) then 1 else 0
  {
  }

  /** The sender's own append, whatever the path: each other participant is sent exactly one push about a message by the
      sender, the sender none; over a socket the same holds of chat-list events, and the room gets the message itself.
      Nothing else is sent, and nothing at all for a refused message. */
  lemma SendAlonePromise(path: Path, db: Db, c: Id, u: Id, content: string, kind: MessageType, env: Env, first: Option<Id>)
    requires Consistent(db) && Fresh(db, env.id) && FirstOther(db, c, u, first)
    ensures var w := SendAlone(path, db, c, u, content, kind, env, first);
            && (w.db, w.reply) == AppendAlone(db, c, u, content, kind, env)
            && (forall e :: w.events[e] ==
                  if w.reply.Sent? && (Pushes(db, c, u, e) || (path == Live && (Refreshes(db, c, u, e)
                     || e == NewMessage(c, env.id, Message(c, u, content, kind, env.now)))))
                  then 1 else 0)
  {
    var w := SendAlone(path, db, c, u, content, kind, env, first);
    AppendAlonePromise(db, c, u, content, kind, env);
    if w.reply.Sent? {
      FirstIsTheOther(db, c, u, first);
      NewsReachTheOther(path, db, c, u, first);
    }
  }
}
