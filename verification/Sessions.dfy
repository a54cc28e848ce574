/** What a run of account operations, one after another, says about refresh tokens and codes. */
module Sessions {
  import opened Base
  import opened Codes
  import opened Auth

  datatype Op =
    | Register(u: Id, email: string, password: string, code: NewCode, now: Time)
    | Login(email: string, password: string, now: Time)
    | Refresh(p: Presented, now: Time)
    | Logout(u: Id)
    | VerifyEmail(email: string, guess: string, now: Time)
    | Resend(email: string, code: NewCode)
    | Forgot(email: string, code: NewCode)
    | ResetPassword(email: string, guess: string, newPassword: string, now: Time)
    | ChangePassword(u: Id, current: string, newPassword: string)
    | ChangeEmail(u: Id, email: string)
    | DeleteAccount(u: Id)

  ghost function Perform(users: Users, op: Op): Effect {
    match op
    case Register(u, email, password, code, now) =>
      if u in users then Refuse(users, RowMissing) else RegisterAlone(users, u, email, password, code, now)
    case Login(email, password, now) => LoginAlone(users, email, password, now)
    case Refresh(p, now) => RefreshAlone(users, p, now)
    case Logout(u) => LogoutAlone(users, u)
    case VerifyEmail(email, guess, now) => VerifyAlone(users, email, guess, now)
    case Resend(email, code) => ResendAlone(users, email, code)
    case Forgot(email, code) => ForgotAlone(users, email, code)
    case ResetPassword(email, guess, newPassword, now) => ResetAlone(users, email, guess, newPassword, now)
    case ChangePassword(u, current, newPassword) => ChangePasswordAlone(users, u, current, newPassword)
    case ChangeEmail(u, email) => ChangeEmailAlone(users, u, email)
    case DeleteAccount(u) => DeleteAlone(users, u)
  }

  /** An answer that handed a user a refresh token, or ended the user's session. */
  datatype SessionEvent = SessionEvent(u: Id, token: Option<Token>)

  /** Read off an operation and its answer alone. */
  function Events(op: Op, answer: Answer): seq<SessionEvent> {
    if answer.Tokens? then [SessionEvent(answer.refresh.sub, Some(answer.refresh))]
    else if answer.Done? && answer.u.Some? && (op.Logout? || op.ResetPassword? || op.DeleteAccount?)
    then [SessionEvent(answer.u.value, None)]
    else []
  }

  datatype History = History(users: Users, events: seq<SessionEvent>)

  ghost function Play(ops: seq<Op>): History {
    if ops == [] then History(map[], [])
    else
      var h := Play(ops[..|ops| - 1]);
      var op := ops[|ops| - 1];
      var e := Perform(h.users, op);
      History(e.users, h.events + Events(op, e.answer))
  }

  /** The token a user was last given, unless the session was ended since. */
  function LastToken(events: seq<SessionEvent>, u: Id): Option<Token> {
    if events == [] then None
    else if events[|events| - 1].u == u then events[|events| - 1].token
    else LastToken(events[..|events| - 1], u)
  }

  lemma LastTokenExtends(events: seq<SessionEvent>, e: SessionEvent, u: Id)
    ensures LastToken(events + [e], u) == if e.u == u then e.token else LastToken(events, u)
  {
    assert (events + [e])[..|events|] == events;
  }

  /** A stored token is a refresh token minted for its row's user. */
  predicate Minted(u: Id, t: Token) {
    t.secret == RefreshSecret && t.sub == u && t.exp == t.iat + REFRESH_LIFETIME
  }

  function Stored(users: Users, u: Id): Option<Token> {
    if u in users then users[u].refreshToken else None
  }

  ghost predicate InStep(h: History) {
    && UniqueEmails(h.users)
    && (forall u :: Stored(h.users, u) == LastToken(h.events, u))
    && (forall u :: Stored(h.users, u).Some? ==> Minted(u, Stored(h.users, u).value))
  }

  ghost predicate Announced(users: Users, op: Op, v: Id) {
    var e := Perform(users, op);
    var events := Events(op, e.answer);
    && |events| <= 1
    && Stored(e.users, v) == (if events != [] && events[0].u == v then events[0].token else Stored(users, v))
    && (events != [] && events[0].token.Some? ==> Minted(events[0].u, events[0].token.value))
  }

  predicate OpensSession(op: Op) {
    op.Register? || op.Login? || op.Refresh?
  }

  lemma SessionsAreAnnounced(users: Users, op: Op, v: Id)
    requires OpensSession(op)
    ensures Announced(users, op, v)
  {
  }

  lemma OthersAreAnnounced(users: Users, op: Op, v: Id)
    requires !OpensSession(op)
    ensures Announced(users, op, v)
  {
  }

  /** What an operation does to stored tokens is what its answer announces. */
  lemma PerformAnnounces(users: Users, op: Op, v: Id)
    ensures Announced(users, op, v)
  {
    if OpensSession(op) {
      SessionsAreAnnounced(users, op, v);
    } else {
      OthersAreAnnounced(users, op, v);
    }
  }

  lemma PerformKeepsEmails(users: Users, op: Op)
    requires UniqueEmails(users)
    ensures UniqueEmails(Perform(users, op).users)
  {
  }

  lemma {:induction false} PlayIsInStep(ops: seq<Op>)
    ensures InStep(Play(ops))
  {
    if ops != [] {
      var h := Play(ops[..|ops| - 1]);
      var op := ops[|ops| - 1];
      var e := Perform(h.users, op);
      var events := Events(op, e.answer);
      PlayIsInStep(ops[..|ops| - 1]);
      PerformKeepsEmails(h.users, op);
      forall u
        ensures Stored(e.users, u) == LastToken(h.events + events, u)
        ensures Stored(e.users, u).Some? ==> Minted(u, Stored(e.users, u).value)
      {
        PerformAnnounces(h.users, op, u);
        if events == [] {
          assert h.events + events == h.events;
        } else {
          assert events == [events[0]];
          LastTokenExtends(h.events, events[0], u);
        }
      }
    }
  }

  /** A refresh succeeds exactly when the token verifies, has not expired, and is the last one its user was given, with
      no logout, password reset or deletion since. */
  lemma RefreshNeedsLastToken(ops: seq<Op>, p: Presented, now: Time)
    ensures RefreshAlone(Play(ops).users, p, now).answer.Tokens?
            <==> p.Signed? && p.token.secret == RefreshSecret && now / 1000 < p.token.exp
                 && LastToken(Play(ops).events, p.token.sub) == Some(p.token)
  {
    PlayIsInStep(ops);
    if p.Signed? {
      assert Stored(Play(ops).users, p.token.sub) == LastToken(Play(ops).events, p.token.sub);
    }
  }

  lemma SameTokenIffSameSecond(token: Token, u: Id, email: string, t: Time)
    requires Minted(u, token)
    ensures token == Mint(RefreshSecret, u, email, t) <==> token.iat == t / SECOND && token.email == email
  {
  }

  /** Rotation replaces the presented token unless both were minted in the same second for the same address: tokens
      carry nothing else, so only then is the "new" token the old one. */
  lemma RotationReplaces(ops: seq<Op>, p: Presented, t: Time, now: Time)
    requires RefreshAlone(Play(ops).users, p, t).answer.Tokens?
    ensures var users := Play(ops).users;
            var after := RefreshAlone(users, p, t).users;
            RefreshAlone(after, p, now).answer.Tokens?
            <==> Verifies(p, now) && p.token.iat == t / SECOND && p.token.email == users[p.token.sub].email
  {
    PlayIsInStep(ops);
    var users := Play(ops).users;
    assert Stored(users, p.token.sub) == Some(p.token);
    SameTokenIffSameSecond(p.token, p.token.sub, users[p.token.sub].email, t);
  }

  /** Operations whose tokens, if any, are signed in second `sec` or later. */
  predicate SignsFrom(op: Op, sec: int) {
    match op
    case Register(_, _, _, _, now) => now / SECOND >= sec
    case Login(_, _, now) => now / SECOND >= sec
    case Refresh(_, now) => now / SECOND >= sec
    case _ => true
  }

  lemma SignsLate(users: Users, op: Op, sec: int)
    requires SignsFrom(op, sec)
    ensures var answer := Perform(users, op).answer; answer.Tokens? ==> answer.refresh.iat >= sec
  {
  }

  lemma {:induction false} LaterTokensOnly(ops: seq<Op>, more: seq<Op>, u: Id, sec: int)
    requires Stored(Play(ops).users, u).Some? ==> Stored(Play(ops).users, u).value.iat >= sec
    requires forall op :: op in more ==> SignsFrom(op, sec)
    ensures Stored(Play(ops + more).users, u).Some? ==> Stored(Play(ops + more).users, u).value.iat >= sec
    decreases |more|
  {
    if more == [] {
      assert ops + more == ops;
    } else {
      var front, op := more[..|more| - 1], more[|more| - 1];
      LaterTokensOnly(ops, front, u, sec);
      assert (ops + more)[..|ops + more| - 1] == ops + front;
      var users := Play(ops + front).users;
      assert Play(ops + more).users == Perform(users, op).users;
      PerformAnnounces(users, op, u);
      SignsLate(users, op, sec);
    }
  }

  /** Once a session was rotated in second `sec`, every token of the user from an earlier second is refused for good,
      whatever happens later, as long as the clock does not run backwards. */
  lemma RotationRetires(ops: seq<Op>, p: Presented, t: Time, more: seq<Op>, earlier: Token, now: Time)
    requires RefreshAlone(Play(ops).users, p, t).answer.Tokens?
    requires forall op :: op in more ==> SignsFrom(op, t / SECOND)
    requires earlier.sub == p.token.sub && earlier.iat < t / SECOND
    ensures RefreshAlone(Play(ops + [Refresh(p, t)] + more).users, Signed(earlier), now).answer == Failed(Unauthorized)
  {
    var rotated := ops + [Refresh(p, t)];
    assert rotated[..|rotated| - 1] == ops;
    LaterTokensOnly(rotated, more, p.token.sub, t / SECOND);
  }

  /** Verifying, asking for codes, changing the address and changing the password all leave every session as it was. */
  lemma SessionsSurvive(users: Users, op: Op, p: Presented, now: Time)
    requires op.VerifyEmail? || op.Resend? || op.Forgot? || op.ChangePassword? || op.ChangeEmail?
    ensures var after := Perform(users, op).users;
            RefreshAlone(after, p, now).answer.Tokens? <==> RefreshAlone(users, p, now).answer.Tokens?
  {
  }

  /** A reset ends the session it finds, no token of that user refreshes, and the code is spent: no second reset
      succeeds, whatever is presented. */
  lemma ResetEndsSession(users: Users, email: string, guess: string, newPassword: string, t: Time,
                         p: Presented, now: Time, again: string)
    requires ResetAlone(users, email, guess, newPassword, t).answer.Done? && p.Signed? && UniqueEmails(users)
    requires ByEmail(users, email) == Some(p.token.sub)
    ensures var after := ResetAlone(users, email, guess, newPassword, t).users;
            && RefreshAlone(after, p, now).answer == Failed(Unauthorized)
            && ResetAlone(after, email, again, newPassword, now) == Effect(after, Failed(BadRequest))
            && after[p.token.sub].password == newPassword
  {
    var u := p.token.sub;
    var after := ResetAlone(users, email, guess, newPassword, t).users;
    assert after[u].email == email;
    assert ByEmail(after, email) == Some(u);
  }

  // ---- what a caller can do with an answer ----

  /** A login opens a session exactly for the address and password of a verified account; the answered token is the
      account's, refreshes until it expires, and no other row changes. */
  lemma LoginOpensSession(users: Users, email: string, password: string, now: Time, later: Time)
    requires UniqueEmails(users)
    ensures var e := LoginAlone(users, email, password, now);
            && (e.answer.Tokens? <==> exists u :: u in users && HasCredentials(users[u], email, password) && users[u].verified)
            && (e.answer.Tokens? ==>
                  && e.answer.refresh.sub in users && users[e.answer.refresh.sub].email == email
                  && (RefreshAlone(e.users, Signed(e.answer.refresh), later).answer.Tokens?
                      <==> later / 1000 < now / 1000 + 2592000)
                  && forall v :: v != e.answer.refresh.sub ==> (v in e.users <==> v in users) && (v in users ==> e.users[v] == users[v]))
            && (!e.answer.Tokens? ==> e.users == users)
  {
    var e := LoginAlone(users, email, password, now);
    if u :| u in users && HasCredentials(users[u], email, password) && users[u].verified {
      assert ByEmail(users, email) == Some(u);
    }
  }

  /** A reset code asked for resets the password exactly if it is presented in time; no code issued before does. */
  lemma ForgotThenReset(users: Users, email: string, code: NewCode, guess: string, newPassword: string, now: Time)
    requires UniqueEmails(users) && EmailTaken(users, email)
    ensures var asked := ForgotAlone(users, email, code).users;
            ResetAlone(asked, email, guess, newPassword, now).answer.Done? <==> guess == code.digits && now <= code.at + 900000
  {
    var u := ByEmail(users, email).value;
    var asked := ForgotAlone(users, email, code).users;
    assert asked[u].email == email;
    assert ByEmail(asked, email) == Some(u);
  }

  /** The same for a verification code, while the address is unverified. */
  lemma ResendThenVerify(users: Users, u: Id, code: NewCode, guess: string, now: Time)
    requires UniqueEmails(users) && u in users && !users[u].verified
    ensures var email := users[u].email;
            var asked := ResendAlone(users, email, code).users;
            VerifyAlone(asked, email, guess, now).answer.Done? <==> guess == code.digits && now <= code.at + 900000
  {
    var email := users[u].email;
    var asked := ResendAlone(users, email, code).users;
    assert ByEmail(users, email) == Some(u);
    assert asked[u].email == email;
    assert ByEmail(asked, email) == Some(u);
  }

  /** After a password change exactly the new password logs the account in, if it is verified, and the logins of every
      other account are what they were. */
  lemma ChangeThenLogin(users: Users, u: Id, current: string, newPassword: string, v: Id, password: string, now: Time)
    requires UniqueEmails(users) && ChangePasswordAlone(users, u, current, newPassword).answer.Done? && v in users
    ensures var after := ChangePasswordAlone(users, u, current, newPassword).users;
            LoginAlone(after, users[v].email, password, now).answer.Tokens? <==>
              users[v].verified && password == (if v == u then newPassword else users[v].password)
  {
    var after := ChangePasswordAlone(users, u, current, newPassword).users;
    assert after[v].email == users[v].email;
    assert ByEmail(after, users[v].email) == Some(v);
  }

  // ---- codes and passwords: one call is its two steps ----

  predicate SameVerification(user: User, d: Desk) {
    d.kind == Verification && d.live && user.verified == d.verified
    && user.verifySlot == d.slot && user.verifyAttempts == d.attempts
  }

  predicate SameReset(user: User, d: Desk) {
    d.kind == Reset && d.live && user.resetSlot == d.slot && user.resetAttempts == d.attempts && user.password == d.password
  }

  lemma VerifyIsItsSteps(users: Users, u: Id, email: string, guess: string, now: Time, d: Desk)
    requires WellFormed(d) && ByEmail(users, email) == Some(u) && SameVerification(users[u], d)
    ensures var after := VerifyAlone(users, email, guess, now).users;
            && u in after && SameVerification(after[u], PresentAlone(d, guess, now, ""))
            && InFlight(PresentAlone(d, guess, now, "")) == InFlight(d)
  {
    PresentAloneOutcome(d, guess, now, "");
  }

  lemma ResetIsItsSteps(users: Users, u: Id, email: string, guess: string, newPassword: string, now: Time, d: Desk)
    requires WellFormed(d) && ByEmail(users, email) == Some(u) && SameReset(users[u], d)
    ensures var after := ResetAlone(users, email, guess, newPassword, now).users;
            && u in after && SameReset(after[u], PresentAlone(d, guess, now, newPassword))
            && InFlight(PresentAlone(d, guess, now, newPassword)) == InFlight(d)
  {
    PresentAloneOutcome(d, guess, now, newPassword);
  }

  /** Registration opens both desks of the new account, and issues the first verification code. */
  lemma RegisterIsItsSteps(users: Users, u: Id, email: string, password: string, code: NewCode, now: Time)
    requires !EmailTaken(users, email) && code.gen == 0
    ensures var after := RegisterAlone(users, u, email, password, code, now).users;
            && u in after
            && SameVerification(after[u], IssueAlone(NewDesk(Verification, password), Issue(code.digits, code.at)))
            && SameReset(after[u], NewDesk(Reset, password))
  {
    IssueAloneOutcome(NewDesk(Verification, password), Issue(code.digits, code.at));
  }

  /** `gen` numbers the codes issued for the account. */
  lemma ResendIsItsSteps(users: Users, u: Id, email: string, code: NewCode, d: Desk)
    requires WellFormed(d) && ByEmail(users, email) == Some(u) && SameVerification(users[u], d) && code.gen == |d.issued|
    ensures var after := ResendAlone(users, email, code).users;
            && u in after && SameVerification(after[u], IssueAlone(d, Issue(code.digits, code.at)))
            && InFlight(IssueAlone(d, Issue(code.digits, code.at))) == InFlight(d)
  {
    IssueAloneOutcome(d, Issue(code.digits, code.at));
  }

  lemma ForgotIsItsSteps(users: Users, u: Id, email: string, code: NewCode, d: Desk)
    requires WellFormed(d) && ByEmail(users, email) == Some(u) && SameReset(users[u], d) && code.gen == |d.issued|
    ensures var after := ForgotAlone(users, email, code).users;
            && u in after && SameReset(after[u], IssueAlone(d, Issue(code.digits, code.at)))
            && InFlight(IssueAlone(d, Issue(code.digits, code.at))) == InFlight(d)
  {
    IssueAloneOutcome(d, Issue(code.digits, code.at));
  }

  lemma ChangePasswordIsItsSteps(users: Users, u: Id, current: string, newPassword: string, d: Desk)
    requires WellFormed(d) && u in users && SameReset(users[u], d)
    ensures var e := ChangePasswordAlone(users, u, current, newPassword);
            var d' := ChangeAlone(d, current, newPassword);
            && u in e.users && SameReset(e.users[u], d') && InFlight(d') == InFlight(d)
            && d'.passwords == d.passwords + (if e.answer.Done? then [ByChange(Change(current, current, newPassword))] else [])
  {
    ChangeAloneOutcome(d, current, newPassword);
  }
}
