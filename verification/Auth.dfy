/** Accounts and sessions, one operation after another: registration, login, refresh-token rotation, logout,
    one-time codes, and password changes. Hashing is ideal (a comparison succeeds on the same input only), and a
    signed token is its claims together with the secret that signed it. */
module Auth {
  import opened Base
  import opened Codes

  const SECOND: Time := 1000
  const ACCESS_LIFETIME: int := 15 * 60
  const REFRESH_LIFETIME: int := 30 * 24 * 60 * 60

  datatype Secret = AccessSecret | RefreshSecret

  /** Whole-second issue and expiry times. */
  datatype Token = Token(secret: Secret, sub: Id, email: string, iat: int, exp: int)

  /** Anything a client may send as a token. */
  datatype Presented = Signed(token: Token) | Garbage

  function Mint(secret: Secret, sub: Id, email: string, now: Time): Token {
    var iat := now / SECOND;
    Token(secret, sub, email, iat, iat + if secret == AccessSecret then ACCESS_LIFETIME else REFRESH_LIFETIME)
  }

  /** What the token library accepts as a refresh token. */
  predicate Verifies(p: Presented, now: Time) {
    p.Signed? && p.token.secret == RefreshSecret && now / SECOND < p.token.exp
  }

  datatype User = User(
    email: string, password: string, verified: bool, refreshToken: Option<Token>,
    verifySlot: Slot, verifyAttempts: nat, resetSlot: Slot, resetAttempts: nat)

  type Users = map<Id, User>

  datatype Error = Conflict | Unauthorized | Forbidden | BadRequest | NotFound | RowMissing

  /** `Done` names the account whose row an operation changed, if any. */
  datatype Answer = Tokens(access: Token, refresh: Token) | Done(u: Option<Id>) | Failed(error: Error)

  datatype Effect = Effect(users: Users, answer: Answer)

  function Refuse(users: Users, e: Error): Effect {
    Effect(users, Failed(e))
  }

  predicate EmailTaken(users: Users, email: string) {
    exists u :: u in users && users[u].email == email
  }

  ghost function ByEmail(users: Users, email: string): Option<Id> {
    if EmailTaken(users, email) then
      var u :| u in users && users[u].email == email;
      Some(u)
    else None
  }

  ghost predicate UniqueEmails(users: Users) {
    forall u, v :: u in users && v in users && users[u].email == users[v].email ==> u == v
  }

  /** `generateTokens` and `updateRefreshToken`: both tokens carry the same second, the stored one replaces the last. */
  function OpenSession(users: Users, u: Id, now: Time): Effect
    requires u in users
  {
    var renewed := Mint(RefreshSecret, u, users[u].email, now);
    Effect(users[u := users[u].(refreshToken := Some(renewed))],
           Tokens(Mint(AccessSecret, u, users[u].email, now), renewed))
  }

  /** A code about to be issued: which issue it is, its digits, and the time its expiry counts from. */
  datatype NewCode = NewCode(gen: nat, digits: string, at: Time)

  function Hold(c: NewCode): Slot {
    Holding(c.gen, c.digits, c.at + CODE_LIFETIME)
  }

  function RegisterAlone(users: Users, u: Id, email: string, password: string, code: NewCode, now: Time): Effect {
    if EmailTaken(users, email) then Refuse(users, Conflict)
    else OpenSession(users[u := User(email, password, false, None, Hold(code), 0, Empty, 0)], u, now)
  }

  predicate HasCredentials(user: User, email: string, password: string) {
    user.email == email && user.password == password
  }

  ghost function LoginAlone(users: Users, email: string, password: string, now: Time): Effect {
    match ByEmail(users, email)
    case None => Refuse(users, Unauthorized)
    case Some(u) =>
      if users[u].password != password then Refuse(users, Unauthorized)
      else if !users[u].verified then Refuse(users, Forbidden)
      else OpenSession(users, u, now)
  }

  function RefreshAlone(users: Users, p: Presented, now: Time): Effect {
    if !Verifies(p, now) || p.token.sub !in users || users[p.token.sub].refreshToken != Some(p.token)
    then Refuse(users, Unauthorized)
    else OpenSession(users, p.token.sub, now)
  }

  function LogoutAlone(users: Users, u: Id): Effect {
    if u !in users then Refuse(users, RowMissing)
    else Effect(users[u := users[u].(refreshToken := None)], Done(Some(u)))
  }

  ghost function VerifyAlone(users: Users, email: string, guess: string, now: Time): Effect {
    match ByEmail(users, email)
    case None => Refuse(users, BadRequest)
    case Some(u) =>
      if users[u].verified then Refuse(users, BadRequest)
      else
        match Judge(users[u].verifySlot, users[u].verifyAttempts, guess, now)
        case Right => Effect(users[u := users[u].(verified := true, verifySlot := Empty, verifyAttempts := 0)], Done(Some(u)))
        case Wrong => Refuse(users[u := users[u].(verifyAttempts := users[u].verifyAttempts + 1)], BadRequest)
        case _ => Refuse(users, BadRequest)
  }

  ghost function ResendAlone(users: Users, email: string, code: NewCode): Effect {
    match ByEmail(users, email)
    case None => Effect(users, Done(None))
    case Some(u) =>
      if users[u].verified then Effect(users, Done(None))
      else Effect(users[u := users[u].(verifySlot := Hold(code), verifyAttempts := 0)], Done(Some(u)))
  }

  ghost function ForgotAlone(users: Users, email: string, code: NewCode): Effect {
    match ByEmail(users, email)
    case None => Effect(users, Done(None))
    case Some(u) => Effect(users[u := users[u].(resetSlot := Hold(code), resetAttempts := 0)], Done(Some(u)))
  }

  ghost function ResetAlone(users: Users, email: string, guess: string, newPassword: string, now: Time): Effect {
    match ByEmail(users, email)
    case None => Refuse(users, BadRequest)
    case Some(u) =>
      match Judge(users[u].resetSlot, users[u].resetAttempts, guess, now)
      case Right =>
        Effect(users[u := users[u].(password := newPassword, resetSlot := Empty, resetAttempts := 0, refreshToken := None)],
               Done(Some(u)))
      case Wrong => Refuse(users[u := users[u].(resetAttempts := users[u].resetAttempts + 1)], BadRequest)
      case _ => Refuse(users, BadRequest)
  }

  function ChangePasswordAlone(users: Users, u: Id, current: string, newPassword: string): Effect {
    if u !in users then Refuse(users, NotFound)
    else if users[u].password != current then Refuse(users, Unauthorized)
    else Effect(users[u := users[u].(password := newPassword)], Done(Some(u)))
  }

  function ChangeEmailAlone(users: Users, u: Id, email: string): Effect {
    if exists v :: v in users && users[v].email == email && v != u then Refuse(users, Conflict)
    else if u !in users then Refuse(users, RowMissing)
    else Effect(users[u := users[u].(email := email)], Done(Some(u)))
  }

  function DeleteAlone(users: Users, u: Id): Effect {
    if u !in users then Refuse(users, RowMissing) else Effect(users - {u}, Done(Some(u)))
  }

  // ---- the services, statement by statement ----

  /** `AuthService` and the account part of `UsersService` over the user table. */
  class AuthService {
    var users: Users

    ghost predicate Valid()
      reads this
    {
      UniqueEmails(users)
    }

    constructor ()
      ensures users == map[] && Valid()
    {
      users := map[];
    }

    method FindByEmail(email: string) returns (u: Option<Id>)
      requires Valid()
      ensures u == ByEmail(users, email)
    {
      if EmailTaken(users, email) {
        var v :| v in users && users[v].email == email;
        return Some(v);
      }
      return None;
    }

    method GenerateTokens(u: Id, email: string, now: Time) returns (access: Token, refresh: Token)
      ensures access == Mint(AccessSecret, u, email, now) && refresh == Mint(RefreshSecret, u, email, now)
    {
      access, refresh := Mint(AccessSecret, u, email, now), Mint(RefreshSecret, u, email, now);
    }

    method UpdateRefreshToken(u: Id, token: Token)
      requires u in users
      modifies this
      ensures users == old(users)[u := old(users)[u].(refreshToken := Some(token))]
    {
      users := users[u := users[u].(refreshToken := Some(token))];
    }

    method Register(u: Id, email: string, password: string, code: NewCode, now: Time) returns (r: Answer)
      requires Valid() && u !in users
      modifies this
      ensures Valid()
      ensures Effect(users, r) == RegisterAlone(old(users), u, email, password, code, now)
    {
      var existing := FindByEmail(email);
      if existing.Some? {
        return Failed(Conflict);
      }
      users := users[u := User(email, password, false, None, Empty, 0, Empty, 0)];
      users := users[u := users[u].(verifySlot := Hold(code), verifyAttempts := 0)];
      var access, refresh := GenerateTokens(u, email, now);
      UpdateRefreshToken(u, refresh);
      return Tokens(access, refresh);
    }

    method Login(email: string, password: string, now: Time) returns (r: Answer)
      requires Valid()
      modifies this
      ensures Valid()
      ensures Effect(users, r) == LoginAlone(old(users), email, password, now)
      ensures r.Tokens? <==> exists u :: u in old(users) && HasCredentials(old(users)[u], email, password) && old(users)[u].verified
      ensures r == Failed(Forbidden) <==>
              exists u :: u in old(users) && HasCredentials(old(users)[u], email, password) && !old(users)[u].verified
      ensures r.Tokens? ==>
                && r.refresh.sub in old(users) && old(users)[r.refresh.sub].email == email
                && users == old(users)[r.refresh.sub := old(users)[r.refresh.sub].(refreshToken := Some(r.refresh))]
      ensures !r.Tokens? ==> users == old(users)
    {
      var user := FindByEmail(email);
      if user.None? {
        return Failed(Unauthorized);
      }
      var u := user.value;
      if password != users[u].password {
        return Failed(Unauthorized);
      }
      if !users[u].verified {
        return Failed(Forbidden);
      }
      var access, refresh := GenerateTokens(u, users[u].email, now);
      UpdateRefreshToken(u, refresh);
      return Tokens(access, refresh);
    }

    method RefreshTokens(p: Presented, now: Time) returns (r: Answer)
      requires Valid()
      modifies this
      ensures Valid()
      ensures Effect(users, r) == RefreshAlone(old(users), p, now)
    {
      if !Verifies(p, now) {
        return Failed(Unauthorized);
      }
      var u := p.token.sub;
      if u !in users || users[u].refreshToken.None? {
        return Failed(Unauthorized);
      }
      if users[u].refreshToken.value != p.token {
        return Failed(Unauthorized);
      }
      var access, refresh := GenerateTokens(u, users[u].email, now);
      UpdateRefreshToken(u, refresh);
      return Tokens(access, refresh);
    }

    method Logout(u: Id) returns (r: Answer)
      requires Valid()
      modifies this
      ensures Valid()
      ensures Effect(users, r) == LogoutAlone(old(users), u)
    {
      if u !in users {
        return Failed(RowMissing);
      }
      users := users[u := users[u].(refreshToken := None)];
      return Done(Some(u));
    }

    method VerifyEmail(email: string, code: string, now: Time) returns (r: Answer)
      requires Valid()
      modifies this
      ensures Valid()
      ensures Effect(users, r) == VerifyAlone(old(users), email, code, now)
    {
      var user := FindByEmail(email);
      if user.None? {
        return Failed(BadRequest);
      }
      var u := user.value;
      if users[u].verified {
        return Failed(BadRequest);
      }
      if users[u].verifySlot.Empty? {
        return Failed(BadRequest);
      }
      if users[u].verifySlot.expiry < now {
        return Failed(BadRequest);
      }
      if users[u].verifyAttempts >= MAX_ATTEMPTS {
        return Failed(BadRequest);
      }
      if code != users[u].verifySlot.code {
        users := users[u := users[u].(verifyAttempts := users[u].verifyAttempts + 1)];
        return Failed(BadRequest);
      }
      users := users[u := users[u].(verified := true, verifySlot := Empty, verifyAttempts := 0)];
      return Done(Some(u));
    }

    method ResendVerification(email: string, code: NewCode) returns (r: Answer)
      requires Valid()
      modifies this
      ensures Valid()
      ensures Effect(users, r) == ResendAlone(old(users), email, code)
    {
      var user := FindByEmail(email);
      if user.None? || users[user.value].verified {
        return Done(None);
      }
      var u := user.value;
      users := users[u := users[u].(verifySlot := Hold(code), verifyAttempts := 0)];
      return Done(user);
    }

    method ForgotPassword(email: string, code: NewCode) returns (r: Answer)
      requires Valid()
      modifies this
      ensures Valid()
      ensures Effect(users, r) == ForgotAlone(old(users), email, code)
    {
      var user := FindByEmail(email);
      if user.None? {
        return Done(None);
      }
      var u := user.value;
      users := users[u := users[u].(resetSlot := Hold(code), resetAttempts := 0)];
      return Done(user);
    }

    method ResetPassword(email: string, code: string, newPassword: string, now: Time) returns (r: Answer)
      requires Valid()
      modifies this
      ensures Valid()
      ensures Effect(users, r) == ResetAlone(old(users), email, code, newPassword, now)
    {
      var user := FindByEmail(email);
      if user.None? {
        return Failed(BadRequest);
      }
      var u := user.value;
      if users[u].resetSlot.Empty? {
        return Failed(BadRequest);
      }
      if users[u].resetSlot.expiry < now {
        return Failed(BadRequest);
      }
      if users[u].resetAttempts >= MAX_ATTEMPTS {
        return Failed(BadRequest);
      }
      if code != users[u].resetSlot.code {
        users := users[u := users[u].(resetAttempts := users[u].resetAttempts + 1)];
        return Failed(BadRequest);
      }
      users := users[u := users[u].(password := newPassword, resetSlot := Empty, resetAttempts := 0, refreshToken := None)];
      return Done(user);
    }

    method ChangePassword(u: Id, current: string, newPassword: string) returns (r: Answer)
      requires Valid()
      modifies this
      ensures Valid()
      ensures Effect(users, r) == ChangePasswordAlone(old(users), u, current, newPassword)
    {
      if u !in users {
        return Failed(NotFound);
      }
      if current != users[u].password {
        return Failed(Unauthorized);
      }
      users := users[u := users[u].(password := newPassword)];
      return Done(Some(u));
    }

    method UpdateUserEmail(u: Id, email: string) returns (r: Answer)
      requires Valid()
      modifies this
      ensures Valid()
      ensures Effect(users, r) == ChangeEmailAlone(old(users), u, email)
    {
      var existing := FindByEmail(email);
      if existing.Some? && existing.value != u {
        return Failed(Conflict);
      }
      if u !in users {
        return Failed(RowMissing);
      }
      users := users[u := users[u].(email := email)];
      return Done(Some(u));
    }
  }
}
