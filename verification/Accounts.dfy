/** What each account operation achieves, and what it leaves alone, one operation after another. */
module Accounts {
  import opened Base
  import opened Codes
  import opened Auth
  import opened Sessions

  // ---- nothing else changes ----

  /** `guess` is the code of the slot, presented in time and with fewer than five wrong guesses counted. */
  predicate Opens(slot: Slot, attempts: nat, guess: string, now: Time) {
    slot.Holding? && now <= slot.expiry && attempts < 5 && guess == slot.code
  }

  /** The operation presents the account's verification code. */
  predicate Verifying(user: User, op: Op) {
    op.VerifyEmail? && op.email == user.email && Opens(user.verifySlot, user.verifyAttempts, op.guess, op.now)
  }

  predicate Resetting(user: User, op: Op) {
    op.ResetPassword? && op.email == user.email && Opens(user.resetSlot, user.resetAttempts, op.guess, op.now)
  }

  predicate ChangingPassword(v: Id, user: User, op: Op) {
    op.ChangePassword? && op.u == v && op.current == user.password
  }

  /** Whose row changes, how, and by which operation. */
  ghost predicate Explained(v: Id, x: User, y: User, op: Op, answer: Answer) {
    && (y.email != x.email ==> op == ChangeEmail(v, y.email))
    && (y.password != x.password ==>
          (ChangingPassword(v, x, op) || Resetting(x, op)) && y.password == op.newPassword)
    && (y.verified != x.verified ==> y.verified && Verifying(x, op))
    && (y.refreshToken != x.refreshToken ==>
          if y.refreshToken.None? then op == Logout(v) || Resetting(x, op)
          else answer.Tokens? && answer.refresh.sub == v && y.refreshToken == Some(answer.refresh))
    && (y.verifySlot != x.verifySlot ==> !x.verified && (Verifying(x, op) || (op.Resend? && op.email == x.email)))
    && (y.verifyAttempts != x.verifyAttempts ==> !x.verified && (op.VerifyEmail? || op.Resend?) && op.email == x.email)
    && (y.resetSlot != x.resetSlot ==> Resetting(x, op) || (op.Forgot? && op.email == x.email))
    && (y.resetAttempts != x.resetAttempts ==> (op.ResetPassword? || op.Forgot?) && op.email == x.email)
  }

  lemma SessionsExplained(users: Users, op: Op, v: Id)
    requires OpensSession(op) && v in users && (op.Register? ==> op.u !in users)
    ensures var e := Perform(users, op); v in e.users && Explained(v, users[v], e.users[v], op, e.answer)
  {
  }

  lemma CodesExplained(users: Users, op: Op, v: Id)
    requires (op.VerifyEmail? || op.Resend? || op.Forgot? || op.ResetPassword?) && v in users
    ensures var e := Perform(users, op); v in e.users && Explained(v, users[v], e.users[v], op, e.answer)
  {
  }

  lemma RowsExplained(users: Users, op: Op, v: Id)
    requires (op.Logout? || op.ChangePassword? || op.ChangeEmail? || op.DeleteAccount?) && v in users && op != DeleteAccount(v)
    ensures var e := Perform(users, op); v in e.users && Explained(v, users[v], e.users[v], op, e.answer)
  {
  }

  /** An address, a password, the verified flag, a session or a code changes only by the operation meant to change it, with
      the credentials it demands; no other account is touched, and accounts come and go only by registration and deletion. */
  lemma NothingElseChanges(users: Users, op: Op, v: Id)
    requires op.Register? ==> op.u !in users
    ensures var e := Perform(users, op);
            && (v in users && op != DeleteAccount(v) ==> v in e.users && Explained(v, users[v], e.users[v], op, e.answer))
            && (v in users && op == DeleteAccount(v) ==> v !in e.users && e.answer == Done(Some(v)))
            && (v !in users && v in e.users ==> op.Register? && op.u == v)
  {
    if v in users && op != DeleteAccount(v) {
      if OpensSession(op) {
        SessionsExplained(users, op, v);
      } else if op.VerifyEmail? || op.Resend? || op.Forgot? || op.ResetPassword? {
        CodesExplained(users, op, v);
      } else {
        RowsExplained(users, op, v);
      }
    }
  }

  /** The two tokens of a session opened in second `sec`: fifteen minutes and thirty days. */
  predicate TokenPair(answer: Answer, u: Id, email: string, sec: int) {
    answer == Tokens(Token(AccessSecret, u, email, sec, sec + 900), Token(RefreshSecret, u, email, sec, sec + 2592000))
  }

  /** Registration is refused for a taken address only; otherwise it adds an unverified account with that address and
      password, no reset code, and an open session. */
  lemma RegistersUnverified(users: Users, u: Id, email: string, password: string, code: NewCode, now: Time)
    ensures var e := RegisterAlone(users, u, email, password, code, now);
            if exists v :: v in users && users[v].email == email then e == Effect(users, Failed(Conflict))
            else
              && TokenPair(e.answer, u, email, now / 1000)
              && u in e.users
              && var user := e.users[u];
                 && user.email == email && user.password == password && !user.verified
                 && user.refreshToken == Some(e.answer.refresh) && user.resetSlot == Empty
                 && user.verifySlot == Holding(code.gen, code.digits, code.at + 900000)
                 && user.verifyAttempts == 0 && user.resetAttempts == 0
  {
  }

  ghost predicate VerifiedAt(ops: seq<Op>, k: nat, v: Id)
    requires k < |ops|
  {
    var users := Play(ops[..k]).users;
    v in users && !users[v].verified && Verifying(users[v], ops[k])
  }

  /** Registered accounts bring ids of their own. */
  ghost predicate FreshIds(ops: seq<Op>) {
    forall k :: 0 <= k < |ops| && ops[k].Register? ==> ops[k].u !in Play(ops[..k]).users
  }

  /** Over any sequential run an account is verified only if some operation presented its code, in time and before the fifth
      wrong guess, while it was unverified. */
  lemma {:induction false} OnlyItsCodeVerifies(ops: seq<Op>, v: Id)
    requires FreshIds(ops) && v in Play(ops).users && Play(ops).users[v].verified
    ensures exists k :: 0 <= k < |ops| && VerifiedAt(ops, k, v)
  {
    var n := |ops| - 1;
    var front, op := ops[..n], ops[n];
    var users := Play(front).users;
    NothingElseChanges(users, op, v);
    assert Play(ops).users == Perform(users, op).users;
    if v in users && users[v].verified {
      assert forall k :: 0 <= k < n ==> front[..k] == ops[..k];
      OnlyItsCodeVerifies(front, v);
      var k :| 0 <= k < |front| && VerifiedAt(front, k, v);
      assert VerifiedAt(ops, k, v);
    } else if v in users {
      assert VerifiedAt(ops, n, v);
    } else {
      RegistersUnverified(users, op.u, op.email, op.password, op.code, op.now);
    }
  }

  // ---- what succeeds ----

  /** A new account cannot log in; once it has presented its code in time, it can. */
  lemma RegisterVerifyLogin(users: Users, u: Id, email: string, password: string, code: NewCode, now: Time, between: Time, later: Time)
    requires UniqueEmails(users) && u !in users && !EmailTaken(users, email) && between <= code.at + 900000
    ensures var registered := RegisterAlone(users, u, email, password, code, now).users;
            var verified := VerifyAlone(registered, email, code.digits, between);
            && LoginAlone(registered, email, password, later).answer == Failed(Forbidden)
            && verified.answer == Done(Some(u))
            && TokenPair(LoginAlone(verified.users, email, password, later).answer, u, email, later / 1000)
  {
    var registered := RegisterAlone(users, u, email, password, code, now).users;
    assert registered[u].email == email && ByEmail(registered, email) == Some(u);
    var verified := VerifyAlone(registered, email, code.digits, between).users;
    assert verified[u].email == email && ByEmail(verified, email) == Some(u);
  }

  /** A login answers the account's two tokens, or the reason of its refusal. */
  lemma LoginAnswers(users: Users, u: Id, password: string, now: Time)
    requires UniqueEmails(users) && u in users
    ensures var answer := LoginAlone(users, users[u].email, password, now).answer;
            if password != users[u].password then answer == Failed(Unauthorized)
            else if !users[u].verified then answer == Failed(Forbidden)
            else TokenPair(answer, u, users[u].email, now / 1000)
  {
    assert ByEmail(users, users[u].email) == Some(u);
  }

  /** The stored refresh token, while it lasts, is exchanged for two new tokens, of which the second is then stored; any
      other is refused. */
  lemma RefreshAnswers(users: Users, p: Presented, now: Time)
    ensures var e := RefreshAlone(users, p, now);
            if p.Signed? && p.token.secret == RefreshSecret && now / 1000 < p.token.exp
               && p.token.sub in users && users[p.token.sub].refreshToken == Some(p.token)
            then
              && TokenPair(e.answer, p.token.sub, users[p.token.sub].email, now / 1000)
              && p.token.sub in e.users && e.users[p.token.sub].refreshToken == Some(e.answer.refresh)
            else e == Effect(users, Failed(Unauthorized))
  {
  }

  /** Logging out ends the account's session: no token of its refreshes. */
  lemma LogoutEnds(users: Users, u: Id, p: Presented, now: Time)
    requires p.Signed? && p.token.sub == u
    ensures var e := LogoutAlone(users, u);
            && RefreshAlone(e.users, p, now).answer == Failed(Unauthorized)
            && e.answer == (if u in users then Done(Some(u)) else Failed(RowMissing))
  {
  }

  /** A code verifies its unverified account exactly if it is the stored one, in time, with fewer than five wrong guesses
      counted; a wrong one in those circumstances is counted; anything else changes nothing. */
  lemma VerifyAnswers(users: Users, u: Id, guess: string, now: Time)
    requires UniqueEmails(users) && u in users
    ensures var user := users[u];
            var e := VerifyAlone(users, user.email, guess, now);
            if !user.verified && Opens(user.verifySlot, user.verifyAttempts, guess, now) then
              && e.answer == Done(Some(u))
              && e.users[u].verified && e.users[u].verifySlot == Empty && e.users[u].verifyAttempts == 0
            else
              && e.answer == Failed(BadRequest)
              && e.users == (if !user.verified && user.verifySlot.Holding? && now <= user.verifySlot.expiry && user.verifyAttempts < 5
                             then users[u := user.(verifyAttempts := user.verifyAttempts + 1)] else users)
  {
    assert ByEmail(users, users[u].email) == Some(u);
  }

  /** The same for a reset code, which sets the new password and ends the session. */
  lemma ResetAnswers(users: Users, u: Id, guess: string, newPassword: string, now: Time)
    requires UniqueEmails(users) && u in users
    ensures var user := users[u];
            var e := ResetAlone(users, user.email, guess, newPassword, now);
            if Opens(user.resetSlot, user.resetAttempts, guess, now) then
              && e.answer == Done(Some(u))
              && e.users[u].password == newPassword && e.users[u].refreshToken == None
              && e.users[u].resetSlot == Empty && e.users[u].resetAttempts == 0
            else
              && e.answer == Failed(BadRequest)
              && e.users == (if user.resetSlot.Holding? && now <= user.resetSlot.expiry && user.resetAttempts < 5
                             then users[u := user.(resetAttempts := user.resetAttempts + 1)] else users)
  {
    assert ByEmail(users, users[u].email) == Some(u);
  }

  /** Codes for an address without an account are refused, and asking for one changes nothing. */
  lemma UnknownAddress(users: Users, email: string, guess: string, newPassword: string, now: Time, code: NewCode)
    requires forall v :: v in users ==> users[v].email != email
    ensures VerifyAlone(users, email, guess, now) == Effect(users, Failed(BadRequest))
    ensures ResetAlone(users, email, guess, newPassword, now) == Effect(users, Failed(BadRequest))
    ensures LoginAlone(users, email, guess, now) == Effect(users, Failed(Unauthorized))
    ensures ResendAlone(users, email, code) == ForgotAlone(users, email, code) == Effect(users, Done(None))
  {
  }

  /** A password change succeeds exactly with the current password. */
  lemma ChangePasswordAnswers(users: Users, u: Id, current: string, newPassword: string)
    ensures var e := ChangePasswordAlone(users, u, current, newPassword);
            if u !in users then e == Effect(users, Failed(NotFound))
            else if current != users[u].password then e == Effect(users, Failed(Unauthorized))
            else e.answer == Done(Some(u)) && u in e.users && e.users[u].password == newPassword
  {
  }

  /** A new address is taken over unless another account has it; then the account logs in with it, and no longer with the
      old one. */
  lemma ChangeEmailThenLogin(users: Users, u: Id, email: string, password: string, now: Time)
    requires UniqueEmails(users)
    ensures var e := ChangeEmailAlone(users, u, email);
            if exists v :: v in users && v != u && users[v].email == email then e == Effect(users, Failed(Conflict))
            else if u !in users then e == Effect(users, Failed(RowMissing))
            else
              && e.answer == Done(Some(u))
              && (LoginAlone(e.users, email, password, now).answer.Tokens? <==> users[u].verified && password == users[u].password)
              && (email != users[u].email ==> LoginAlone(e.users, users[u].email, password, now).answer == Failed(Unauthorized))
  {
    var e := ChangeEmailAlone(users, u, email);
    if e.answer.Done? {
      assert e.users[u].email == email;
      assert ByEmail(e.users, email) == Some(u);
      assert email != users[u].email ==> forall v :: v in e.users ==> e.users[v].email != users[u].email;
    }
  }

  // ---- mistyped codes ----

  datatype Try = Try(guess: string, at: Time)

  /** Presented in time. */
  function Counted(tries: seq<Try>, deadline: Time): nat {
    if tries == [] then 0
    else Counted(tries[..|tries| - 1], deadline) + if tries[|tries| - 1].at <= deadline then 1 else 0
  }

  ghost function VerifyTries(users: Users, email: string, tries: seq<Try>): Users {
    if tries == [] then users
    else VerifyAlone(VerifyTries(users, email, tries[..|tries| - 1]), email, tries[|tries| - 1].guess, tries[|tries| - 1].at).users
  }

  ghost function ResetTries(users: Users, email: string, tries: seq<Try>): Users {
    if tries == [] then users
    else ResetAlone(ResetTries(users, email, tries[..|tries| - 1]), email, tries[|tries| - 1].guess, "", tries[|tries| - 1].at).users
  }

  function AtMostFive(n: nat): nat {
    if n < 5 then n else 5
  }

  lemma OneMoreVerifies(users: Users, u: Id, n: nat, t: Try)
    requires UniqueEmails(users) && u in users && !users[u].verified && n <= 5
    requires users[u].verifySlot.Holding? && t.guess != users[u].verifySlot.code
    ensures VerifyAlone(users[u := users[u].(verifyAttempts := n)], users[u].email, t.guess, t.at).users ==
            users[u := users[u].(verifyAttempts := AtMostFive(n + if t.at <= users[u].verifySlot.expiry then 1 else 0))]
  {
    var before := users[u := users[u].(verifyAttempts := n)];
    assert UniqueEmails(before);
    VerifyAnswers(before, u, t.guess, t.at);
    assert before[u := before[u].(verifyAttempts := n + 1)] == users[u := users[u].(verifyAttempts := n + 1)];
  }

  /** Wrong guesses in time are counted up to five, and nothing else changes. */
  lemma {:induction false} WrongVerifies(users: Users, u: Id, tries: seq<Try>)
    requires UniqueEmails(users) && u in users && !users[u].verified
    requires users[u].verifySlot.Holding? && users[u].verifyAttempts == 0
    requires forall t :: t in tries ==> t.guess != users[u].verifySlot.code
    ensures VerifyTries(users, users[u].email, tries) ==
            users[u := users[u].(verifyAttempts := AtMostFive(Counted(tries, users[u].verifySlot.expiry)))]
  {
    if tries == [] {
      assert users == users[u := users[u].(verifyAttempts := 0)];
    } else {
      var front, last := tries[..|tries| - 1], tries[|tries| - 1];
      WrongVerifies(users, u, front);
      assert last in tries;
      OneMoreVerifies(users, u, AtMostFive(Counted(front, users[u].verifySlot.expiry)), last);
    }
  }

  lemma OneMoreResets(users: Users, u: Id, n: nat, t: Try)
    requires UniqueEmails(users) && u in users && n <= 5
    requires users[u].resetSlot.Holding? && t.guess != users[u].resetSlot.code
    ensures ResetAlone(users[u := users[u].(resetAttempts := n)], users[u].email, t.guess, "", t.at).users ==
            users[u := users[u].(resetAttempts := AtMostFive(n + if t.at <= users[u].resetSlot.expiry then 1 else 0))]
  {
    var before := users[u := users[u].(resetAttempts := n)];
    assert UniqueEmails(before);
    ResetAnswers(before, u, t.guess, "", t.at);
    assert before[u := before[u].(resetAttempts := n + 1)] == users[u := users[u].(resetAttempts := n + 1)];
  }

  lemma {:induction false} WrongResets(users: Users, u: Id, tries: seq<Try>)
    requires UniqueEmails(users) && u in users
    requires users[u].resetSlot.Holding? && users[u].resetAttempts == 0
    requires forall t :: t in tries ==> t.guess != users[u].resetSlot.code
    ensures ResetTries(users, users[u].email, tries) ==
            users[u := users[u].(resetAttempts := AtMostFive(Counted(tries, users[u].resetSlot.expiry)))]
  {
    if tries == [] {
      assert users == users[u := users[u].(resetAttempts := 0)];
    } else {
      var front, last := tries[..|tries| - 1], tries[|tries| - 1];
      WrongResets(users, u, front);
      assert last in tries;
      OneMoreResets(users, u, AtMostFive(Counted(front, users[u].resetSlot.expiry)), last);
    }
  }

  /** After a code was sent and any wrong guesses, the right code in time verifies the account exactly if fewer than five of
      the guesses came in time. */
  lemma MistypingVerifies(users: Users, u: Id, code: NewCode, tries: seq<Try>, now: Time)
    requires UniqueEmails(users) && u in users && !users[u].verified
    requires forall t :: t in tries ==> t.guess != code.digits
    ensures var email := users[u].email;
            var after := VerifyTries(ResendAlone(users, email, code).users, email, tries);
            VerifyAlone(after, email, code.digits, now).answer.Done? <==>
              Counted(tries, code.at + 900000) < 5 && now <= code.at + 900000
  {
    var email := users[u].email;
    assert ByEmail(users, email) == Some(u);
    var asked := ResendAlone(users, email, code).users;
    assert asked[u].email == email && asked[u].verifySlot.code == code.digits;
    WrongVerifies(asked, u, tries);
    VerifyAnswers(VerifyTries(asked, email, tries), u, code.digits, now);
  }

  lemma MistypingResets(users: Users, u: Id, code: NewCode, tries: seq<Try>, newPassword: string, now: Time)
    requires UniqueEmails(users) && u in users
    requires forall t :: t in tries ==> t.guess != code.digits
    ensures var email := users[u].email;
            var after := ResetTries(ForgotAlone(users, email, code).users, email, tries);
            ResetAlone(after, email, code.digits, newPassword, now).answer.Done? <==>
              Counted(tries, code.at + 900000) < 5 && now <= code.at + 900000
  {
    var email := users[u].email;
    assert ByEmail(users, email) == Some(u);
    var asked := ForgotAlone(users, email, code).users;
    assert asked[u].email == email && asked[u].resetSlot.code == code.digits;
    WrongResets(asked, u, tries);
    ResetAnswers(ResetTries(asked, email, tries), u, code.digits, newPassword, now);
  }
}
