/** The account service (src/services/auth.ts): sign-up with a one-time
    code, verification, code resend, the password-reset code and token,
    password change, and sign-in.

    The user collection is a map from phone number to user document (the
    schema makes `phonenumber` unique, src/models/user.ts:10-14). Password
    hashing is the function `hash` the service is built with; salts, the
    clock and the identity decoded from a JSON web token are parameters. */
module Auth {
  import opened Wrappers

  /** The code every new account is sent. */
  const SignUpCode: string := "111111"
  /** The code a password reset sets. */
  const ResetCode: string := "222222"
  /** How long a sign-up code is meant to stay valid: five minutes. */
  const CodeLifetimeMillis: int := 5 * 60 * 1000
  /** The lifetime of a sign-in token: sixty days. */
  const SessionLifetimeMillis: int := 60 * 24 * 60 * 60 * 1000
  /** The lifetime of a password-reset token: thirty minutes. */
  const ResetLifetimeMillis: int := 30 * 60 * 1000
  /** The schema's default role. */
  const DefaultRole: string := "user"

  /** The one-time code and its expiry, in milliseconds since the epoch. */
  datatype VerifyCode = VerifyCode(code: string, expireTime: int)

  datatype UserRecord = UserRecord(
    id: nat,
    name: string,
    phonenumber: string,
    password: string,
    salt: string,
    role: string,
    verify: bool,
    verifyCode: VerifyCode)

  datatype SignUpInput = SignUpInput(phonenumber: string, password: string, name: string)

  /** A user as returned to the client: `password`, `salt` and `verifyCode`
      deleted. */
  datatype PublicUser = PublicUser(id: nat, name: string, phonenumber: string, role: string, verify: bool)

  /** The claims of a sign-in token; `exp` is in seconds. */
  datatype SessionToken = SessionToken(userId: nat, role: string, name: string, exp: real)

  /** The claims of a password-reset token; `exp` is in seconds. */
  datatype ResetToken = ResetToken(userId: nat, exp: real)

  datatype AuthError =
    | NotRegistered
    | AlreadyVerified
    | InvalidCode
    | NotVerified
    | NotFound
    | InvalidPassword
    | DuplicatePhone  // the unique index on `phonenumber` rejects the insert
    | InvalidToken    // `jwt.verify` rejects the token

  /** The message each error is thrown with. */
  function Message(e: AuthError): string
  {
    match e
    case NotRegistered => "User not registered"
    case AlreadyVerified => "User already verified"
    case InvalidCode => "Code is not valid or expired"
    case NotVerified => "User not verified"
    case NotFound => "User not found"
    case InvalidPassword => "Invalid Password"
    case DuplicatePhone => "E11000 duplicate key error"
    case InvalidToken => "invalid token"
  }

  /** Each error is thrown with its own message, so a client can tell them
      apart. */
  lemma MessagesIdentifyErrors(e: AuthError, f: AuthError)
    ensures Message(e) == Message(f) ==> e == f
  {
  }

  /** A stored user without its secrets. */
  function Public(u: UserRecord): (p: PublicUser)
    ensures p.id == u.id && p.phonenumber == u.phonenumber && p.name == u.name
    ensures p.role == u.role && p.verify == u.verify
  {
    PublicUser(u.id, u.name, u.phonenumber, u.role, u.verify)
  }

  /** Where an account stands. */
  datatype Stage = Unregistered | Unverified | Verified

  /** `generateToken`: the user's id, role and name, expiring sixty days
      after `now` (milliseconds), as seconds. */
  function SessionFor(u: UserRecord, now: int): (t: SessionToken)
    ensures t.userId == u.id && t.role == u.role && t.name == u.name
    ensures t.exp * 1000.0 == (now + SessionLifetimeMillis) as real
  {
    SessionToken(u.id, u.role, u.name, (now + SessionLifetimeMillis) as real / 1000.0)
  }

  /** `generateTokenForResetPassword`: the user's id, expiring thirty
      minutes after `now`, as seconds. */
  function ResetTokenFor(u: UserRecord, now: int): (t: ResetToken)
    ensures t.userId == u.id
    ensures t.exp * 1000.0 == (now + ResetLifetimeMillis) as real
  {
    ResetToken(u.id, (now + ResetLifetimeMillis) as real / 1000.0)
  }

  /** A reset token runs out long before a sign-in token issued at the same
      time. */
  lemma ResetTokenExpiresFirst(u: UserRecord, now: int)
    ensures ResetTokenFor(u, now).exp < SessionFor(u, now).exp
  {
  }

  class AuthService {
    /** The user collection, by phone number. */
    var users: map<string, UserRecord>
    /** The `_id` the next new user gets. */
    var nextId: nat
    /** `argon2.hash(password, { salt })`, as a function of the password and
        the salt. */
    const hash: (string, string) -> string

    /** Every document is filed under its own phone number, and ids are
        unique and below `nextId`. */
    ghost predicate Valid()
      reads this
    {
      && (forall p :: p in users ==> users[p].phonenumber == p && users[p].id < nextId)
      && (forall p, q :: p in users && q in users && p != q ==> users[p].id != users[q].id)
    }

    ghost function StageOf(phone: string): Stage
      reads this
    {
      if phone !in users then Unregistered
      else if users[phone].verify then Verified
      else Unverified
    }

    constructor (hash: (string, string) -> string)
      ensures Valid() && users == map[] && nextId == 0 && this.hash == hash
    {
      users := map[];
      nextId := 0;
      this.hash := hash;
    }

    /** `SignUp`: store an unverified user with the hashed password, the
        sign-up code and an expiry five minutes after `now`; return the user
        without its secrets. A phone number already in use is rejected by
        the unique index. */
    method SignUp(input: SignUpInput, salt: string, now: int) returns (r: Result<PublicUser, AuthError>)
      requires Valid()
      modifies this
      ensures Valid()
      ensures input.phonenumber in old(users) ==> r == Err(DuplicatePhone)
      ensures r.Ok? <==> input.phonenumber !in old(users)
      ensures r.Err? ==> users == old(users) && nextId == old(nextId)
      ensures r.Ok? ==>
                var u := UserRecord(old(nextId), input.name, input.phonenumber, hash(input.password, salt), salt,
                                    DefaultRole, false, VerifyCode(SignUpCode, now + CodeLifetimeMillis));
                && users == old(users)[input.phonenumber := u]
                && nextId == old(nextId) + 1
                && r.value == Public(u)
                && StageOf(input.phonenumber) == Unverified
    {
      if input.phonenumber in users {
        return Err(DuplicatePhone);
      }
      var u := UserRecord(nextId, input.name, input.phonenumber, hash(input.password, salt), salt,
                          DefaultRole, false, VerifyCode(SignUpCode, now + CodeLifetimeMillis));
      users := users[input.phonenumber := u];
      nextId := nextId + 1;
      r := Ok(Public(u));
    }

    /** `Verify`: fails for an unknown phone number, then for a verified
        user, then for a wrong code; otherwise only `verify` becomes true.
        The code's expiry is never looked at. */
    method Verify(phone: string, code: string) returns (r: Outcome<AuthError>)
      requires Valid()
      modifies this
      ensures Valid() && nextId == old(nextId)
      ensures phone !in old(users) ==> r == Fail(NotRegistered)
      ensures phone in old(users) && old(users)[phone].verify ==> r == Fail(AlreadyVerified)
      ensures phone in old(users) && !old(users)[phone].verify && old(users)[phone].verifyCode.code != code ==> r == Fail(InvalidCode)
      ensures r.Pass? <==> phone in old(users) && !old(users)[phone].verify && old(users)[phone].verifyCode.code == code
      ensures r.Fail? ==> users == old(users)
      ensures r.Pass? ==> users == old(users)[phone := old(users)[phone].(verify := true)] && StageOf(phone) == Verified
    {
      if phone !in users {
        return Fail(NotRegistered);
      }
      if users[phone].verify {
        return Fail(AlreadyVerified);
      }
      if users[phone].verifyCode.code != code {
        return Fail(InvalidCode);
      }
      users := users[phone := users[phone].(verify := true)];
      r := Pass;
    }

    /** `ResendCode`: fails for an unknown or already verified user;
        otherwise only the expiry moves to five minutes after `now`, and
        the code stays what it was. */
    method ResendCode(phone: string, now: int) returns (r: Outcome<AuthError>)
      requires Valid()
      modifies this
      ensures Valid() && nextId == old(nextId)
      ensures phone !in old(users) ==> r == Fail(NotRegistered)
      ensures phone in old(users) && old(users)[phone].verify ==> r == Fail(AlreadyVerified)
      ensures r.Pass? <==> phone in old(users) && !old(users)[phone].verify
      ensures r.Fail? ==> users == old(users)
      ensures r.Pass? ==>
                users == old(users)[phone := old(users)[phone].(verifyCode := old(users)[phone].verifyCode.(expireTime := now + CodeLifetimeMillis))]
    {
      if phone !in users {
        return Fail(NotRegistered);
      }
      if users[phone].verify {
        return Fail(AlreadyVerified);
      }
      var u := users[phone];
      users := users[phone := u.(verifyCode := u.verifyCode.(expireTime := now + CodeLifetimeMillis))];
      r := Pass;
    }

    /** `ResetPasswordLinkGenerator`: fails for an unknown or unverified
        user; otherwise only the code becomes the reset code. */
    method ResetPasswordLinkGenerator(phone: string) returns (r: Outcome<AuthError>)
      requires Valid()
      modifies this
      ensures Valid() && nextId == old(nextId)
      ensures phone !in old(users) ==> r == Fail(NotRegistered)
      ensures phone in old(users) && !old(users)[phone].verify ==> r == Fail(NotVerified)
      ensures r.Pass? <==> phone in old(users) && old(users)[phone].verify
      ensures r.Fail? ==> users == old(users)
      ensures r.Pass? ==>
                users == old(users)[phone := old(users)[phone].(verifyCode := old(users)[phone].verifyCode.(code := ResetCode))]
    {
      if phone !in users {
        return Fail(NotRegistered);
      }
      if !users[phone].verify {
        return Fail(NotVerified);
      }
      var u := users[phone];
      users := users[phone := u.(verifyCode := u.verifyCode.(code := ResetCode))];
      r := Pass;
    }

    /** `VerifyPasswordChange`: the user must match both the phone number
        and the code, else 'User not found'; then it must be verified; it
        gets a reset token expiring thirty minutes after `now`. Nothing is
        written. */
    method VerifyPasswordChange(phone: string, code: string, now: int) returns (r: Result<ResetToken, AuthError>)
      requires Valid()
      ensures !(phone in users && users[phone].verifyCode.code == code) ==> r == Err(NotFound)
      ensures phone in users && users[phone].verifyCode.code == code && !users[phone].verify ==> r == Err(NotVerified)
      ensures r.Ok? <==> phone in users && users[phone].verifyCode.code == code && users[phone].verify
      ensures r.Ok? ==> r.value.userId == users[phone].id && r.value.exp * 1000.0 == (now + ResetLifetimeMillis) as real
    {
      if phone !in users || users[phone].verifyCode.code != code {
        return Err(NotFound);
      }
      if !users[phone].verify {
        return Err(NotVerified);
      }
      r := Ok(ResetTokenFor(users[phone], now));
    }

    /** `ChangePassword`: the token must decode to the id of a stored,
        verified user; then only that user's salt and password change. */
    method ChangePassword(password: string, decoded: Option<nat>, salt: string) returns (r: Outcome<AuthError>)
      requires Valid()
      modifies this
      ensures Valid() && nextId == old(nextId)
      ensures decoded.None? ==> r == Fail(InvalidToken)
      ensures decoded.Some? && (forall p :: p in old(users) ==> old(users)[p].id != decoded.value) ==> r == Fail(NotRegistered)
      ensures decoded.Some? && (exists p :: p in old(users) && old(users)[p].id == decoded.value && !old(users)[p].verify) ==> r == Fail(NotVerified)
      ensures r.Fail? ==> users == old(users)
      ensures r.Pass? <==> decoded.Some? && exists p :: p in old(users) && old(users)[p].id == decoded.value && old(users)[p].verify
      ensures r.Pass? ==>
                exists p :: p in old(users) && old(users)[p].id == decoded.value
                  && users == old(users)[p := old(users)[p].(salt := salt, password := hash(password, salt))]
    {
      if decoded.None? {
        return Fail(InvalidToken);
      }
      var id := decoded.value;
      if !exists p :: p in users && users[p].id == id {
        return Fail(NotRegistered);
      }
      var p :| p in users && users[p].id == id;
      if !users[p].verify {
        return Fail(NotVerified);
      }
      users := users[p := users[p].(salt := salt, password := hash(password, salt))];
      r := Pass;
    }

    /** `SignIn`: fails for an unknown user, then an unverified one, then a
        password that does not hash to the stored one; otherwise returns the
        user without its secrets and a sixty-day token. Nothing is written. */
    method SignIn(phone: string, password: string, now: int) returns (r: Result<(PublicUser, SessionToken), AuthError>)
      requires Valid()
      ensures phone !in users ==> r == Err(NotRegistered)
      ensures phone in users && !users[phone].verify ==> r == Err(NotVerified)
      ensures phone in users && users[phone].verify && hash(password, users[phone].salt) != users[phone].password ==> r == Err(InvalidPassword)
      ensures r.Ok? <==> phone in users && users[phone].verify && hash(password, users[phone].salt) == users[phone].password
      ensures r.Ok? ==>
                && r.value.0 == Public(users[phone])
                && r.value.1 == SessionFor(users[phone], now)
    {
      if phone !in users {
        return Err(NotRegistered);
      }
      var u := users[phone];
      if !u.verify {
        return Err(NotVerified);
      }
      if hash(password, u.salt) != u.password {
        return Err(InvalidPassword);
      }
      r := Ok((Public(u), SessionFor(u, now)));
    }
  }

  /** A new account, verified with the code it was sent, signs in with its
      password, however late the code is entered. */
  method SignUpThenSignIn(s: AuthService, input: SignUpInput, salt: string, signedUpAt: int, verifiedAt: int)
    returns (r: Result<(PublicUser, SessionToken), AuthError>)
    requires s.Valid() && input.phonenumber !in s.users
    modifies s
    ensures s.Valid()
    ensures r.Ok? && r.value.0.phonenumber == input.phonenumber && r.value.0.verify
  {
    var created := s.SignUp(input, salt, signedUpAt);
    var verified := s.Verify(input.phonenumber, SignUpCode);
    r := s.SignIn(input.phonenumber, input.password, verifiedAt);
  }

  /** The reset flow: a verified user asks for a reset, proves the reset
      code, changes the password with the token, and signs in with the new
      password. */
  method ResetThenSignIn(s: AuthService, phone: string, newPassword: string, salt: string, now: int)
    returns (r: Result<(PublicUser, SessionToken), AuthError>)
    requires s.Valid() && phone in s.users && s.users[phone].verify
    modifies s
    ensures s.Valid()
    ensures r.Ok? && r.value.0.phonenumber == phone
  {
    var requested := s.ResetPasswordLinkGenerator(phone);
    var token := s.VerifyPasswordChange(phone, ResetCode, now);
    var changed := s.ChangePassword(newPassword, Some(token.value.userId), salt);
    r := s.SignIn(phone, newPassword, now);
  }
}
