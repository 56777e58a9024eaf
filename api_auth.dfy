/**
 * The credential endpoints of the FastAPI backend (backend/main.py):
 * register, login, the bearer-header check behind `get_current_user`, the
 * one-time-code request, the reset by code, and the authenticated password
 * change. The users table is a map from e-mail (a unique column) to row,
 * `otp_store` a map from e-mail to code and expiry. Time is an integer count
 * of microseconds, the resolution of `datetime`.
 */
module ApiAuth {
  import opened Wrappers
  import opened Text
  import opened Decimal
  import opened Crypt

  datatype HttpError = HttpError(status: int, detail: string)

  /** A row of the `users` table; `password` holds the hash. */
  datatype User = User(id: int, name: string, mobile: string, email: string, password: string, role: string)

  /** The body of `POST /register`. */
  datatype UserCreate = UserCreate(name: string, mobile: string, email: string, password: string, confirmPassword: string)

  /** An `otp_store` entry. */
  datatype OtpEntry = OtpEntry(otp: string, expires: int)

  /** The claims a token is issued with; the JWT signature itself is not modelled. */
  datatype Claims = Claims(sub: string, role: string)

  datatype TokenResponse = TokenResponse(accessToken: Claims, tokenType: string, user: User)

  /** What `jwt.decode` yields for a token: a failure, or the `sub` claim if there is one. */
  datatype Decoded = JwtError | Decoded(sub: Option<string>)

  /** The default of the `role` column. */
  const DefaultRole: string := "user"

  /** `timedelta(minutes=10)` in microseconds. */
  const OtpLifetime: int := 10 * 60 * 1000000

  /** Python truthiness of an optional string field: present and non-empty. */
  predicate Given(field: Option<string>) {
    field.Some? && field.value != ""
  }

  /**
   * `POST /login`: the row with that e-mail, if its hash verifies the
   * password; `Invalid credentials` (401) otherwise.
   */
  function Login(users: map<string, User>, email: string, password: string): (r: Result<TokenResponse, HttpError>)
    ensures r.Ok? <==> email in users && Verify(password, users[email].password)
    ensures r.Ok? ==> r.value.user == users[email] && r.value.tokenType == "bearer"
                      && r.value.accessToken == Claims(users[email].email, users[email].role)
    ensures r.Err? ==> r.error == HttpError(401, "Invalid credentials")
  {
    if email !in users || !Verify(password, users[email].password) then Err(HttpError(401, "Invalid credentials"))
    else Ok(TokenResponse(Claims(users[email].email, users[email].role), "bearer", users[email]))
  }

  /**
   * The header check of `get_current_user`: a missing or empty header is
   * `Not authenticated`; otherwise the header must split on whitespace into
   * exactly two parts, the first `bearer` in any case, and the second is the
   * token.
   */
  function BearerToken(authorization: Option<string>): (r: Result<string, HttpError>)
    ensures authorization.None? || authorization.value == "" ==> r == Err(HttpError(401, "Not authenticated"))
    ensures r.Ok? <==> Given(authorization) && |Words(authorization.value)| == 2
                       && Lower(Words(authorization.value)[0]) == "bearer"
    ensures r.Ok? ==> r.value == Words(authorization.value)[1] && IsWord(r.value)
  {
    if !Given(authorization) then Err(HttpError(401, "Not authenticated"))
    else
      var parts := Words(authorization.value);
      if |parts| != 2 || Lower(parts[0]) != "bearer" then Err(HttpError(401, "Invalid token format"))
      else Ok(parts[1])
  }

  /** The header `Bearer <token>`, whatever the case of the scheme, is accepted and yields the token. */
  lemma BearerRoundTrip(scheme: string, token: string)
    requires Lower(scheme) == "bearer" && IsWord(token)
    ensures BearerToken(Some(scheme + " " + token)) == Ok(token)
  {
    assert IsWord(scheme) by {
      assert |scheme| == 6;
      forall i | 0 <= i < |scheme| ensures !IsPySpace(scheme[i]) {
        assert LowerChar(scheme[i]) == "bearer"[i];
      }
    }
    WordsOfPair(scheme, token);
  }

  /**
   * `get_current_user`: the header check, then the token's `sub` claim
   * (`decode` stands for `jwt.decode` with the server's key), then the row
   * with that e-mail; every failure is a 401.
   */
  function CurrentUser(users: map<string, User>, authorization: Option<string>, decode: string -> Decoded): (r: Result<User, HttpError>)
    ensures r.Ok? <==> BearerToken(authorization).Ok? && decode(BearerToken(authorization).value).Decoded?
                       && Given(decode(BearerToken(authorization).value).sub)
                       && decode(BearerToken(authorization).value).sub.value in users
    ensures r.Ok? ==> r.value == users[decode(BearerToken(authorization).value).sub.value]
    ensures r.Err? ==> r.error.status == 401
  {
    match BearerToken(authorization)
    case Err(e) => Err(e)
    case Ok(token) =>
      match decode(token)
      case JwtError => Err(HttpError(401, "Invalid token"))
      case Decoded(sub) =>
        if !Given(sub) then Err(HttpError(401, "Invalid token"))
        else if sub.value !in users then Err(HttpError(401, "User not found"))
        else Ok(users[sub.value])
  }

  /** The reset check of `reset_password`: the code matches and the expiry has not passed; the expiry instant itself is still accepted. */
  predicate OtpAccepts(entry: OtpEntry, otp: string, now: int) {
    entry.otp == otp && !(now > entry.expires)
  }

  /** A code issued at `issued` is accepted up to and including `issued + OtpLifetime`, and refused after. */
  lemma OtpWindow(code: nat, issued: int, now: int)
    ensures OtpAccepts(OtpEntry(Digits(code), issued + OtpLifetime), Digits(code), now) <==> now <= issued + OtpLifetime
  {
  }

  /** A different code is refused at any time. */
  lemma OtpWrongCode(code: nat, guess: nat, expires: int, now: int)
    requires guess != code
    ensures !OtpAccepts(OtpEntry(Digits(code), expires), Digits(guess), now)
  {
    if Digits(code) == Digits(guess) {
      DigitsInjective(code, guess);
    }
  }

  /** Every row is stored under its own e-mail, with an id below the next one to assign. */
  ghost predicate UsersWellFormed(users: map<string, User>, nextId: int) {
    1 <= nextId && forall e | e in users :: users[e].email == e && 1 <= users[e].id < nextId
  }

  class AuthServer {
    var users: map<string, User>
    var otpStore: map<string, OtpEntry>
    var nextUserId: int

    ghost predicate Valid()
      reads this
    {
      UsersWellFormed(users, nextUserId)
    }

    /** A server with the given users table and an empty `otp_store`. */
    constructor (users: map<string, User>, nextUserId: int)
      requires UsersWellFormed(users, nextUserId)
      ensures Valid() && this.users == users && this.nextUserId == nextUserId && otpStore == map[]
    {
      this.users := users;
      this.nextUserId := nextUserId;
      otpStore := map[];
    }

    /**
     * `POST /register`: refused with 400 when the passwords differ or the
     * e-mail is taken (exact match), leaving the table unchanged; otherwise
     * adds a row with the hashed password and role `user`.
     */
    method Register(form: UserCreate) returns (r: Result<User, HttpError>)
      requires Valid()
      modifies this`users, this`nextUserId
      ensures Valid()
      ensures r.Ok? <==> form.password == form.confirmPassword && form.email !in old(users)
      ensures form.password != form.confirmPassword ==> r == Err(HttpError(400, "Passwords do not match"))
      ensures form.password == form.confirmPassword && form.email in old(users) ==> r == Err(HttpError(400, "Email already registered"))
      ensures r.Ok? ==> r.value == User(old(nextUserId), form.name, form.mobile, form.email, Hash(form.password), DefaultRole)
                        && users == old(users)[form.email := r.value]
      ensures r.Err? ==> users == old(users)
    {
      if form.password != form.confirmPassword {
        return Err(HttpError(400, "Passwords do not match"));
      }
      if form.email in users {
        return Err(HttpError(400, "Email already registered"));
      }
      var user := User(nextUserId, form.name, form.mobile, form.email, Hash(form.password), DefaultRole);
      users := users[form.email := user];
      nextUserId := nextUserId + 1;
      r := Ok(user);
    }

    /**
     * `POST /request-otp`: 400 without an e-mail, 404 for an unknown one;
     * otherwise stores the rendering of the drawn code with an expiry ten
     * minutes from now, replacing any earlier entry for that e-mail.
     */
    method RequestOtp(email: Option<string>, now: int, draw: int) returns (r: Result<string, HttpError>)
      requires 100000 <= draw <= 999999
      modifies this`otpStore
      ensures !Given(email) ==> r == Err(HttpError(400, "Email is required"))
      ensures Given(email) && email.value !in users ==> r == Err(HttpError(404, "Email not found"))
      ensures r.Ok? <==> Given(email) && email.value in users
      ensures r.Ok? ==> otpStore == old(otpStore)[email.value := OtpEntry(Digits(draw), now + OtpLifetime)]
      ensures r.Err? ==> otpStore == old(otpStore)
    {
      if !Given(email) {
        return Err(HttpError(400, "Email is required"));
      }
      if email.value !in users {
        return Err(HttpError(404, "Email not found"));
      }
      otpStore := otpStore[email.value := OtpEntry(Digits(draw), now + OtpLifetime)];
      r := Ok("OTP sent to email");
    }

    /**
     * `POST /reset-password`: 400 unless e-mail, code and new password are
     * all given; 400 when there is no entry, the code differs or the entry
     * has expired (`now > expires`); 404 without a user. On success the
     * password is replaced and the entry removed, so the code cannot be used
     * again. The new password may equal the old one.
     */
    method ResetPassword(email: Option<string>, otp: Option<string>, newPassword: Option<string>, now: int)
      returns (r: Result<string, HttpError>)
      requires Valid()
      modifies this`users, this`otpStore
      ensures Valid()
      ensures !(Given(email) && Given(otp) && Given(newPassword)) ==> r == Err(HttpError(400, "email, otp and new_password required"))
      ensures Given(email) && Given(otp) && Given(newPassword)
              && (email.value !in old(otpStore) || !OtpAccepts(old(otpStore)[email.value], otp.value, now))
              ==> r == Err(HttpError(400, "Invalid or expired OTP"))
      ensures Given(email) && Given(otp) && Given(newPassword)
              && email.value in old(otpStore) && OtpAccepts(old(otpStore)[email.value], otp.value, now)
              && email.value !in old(users)
              ==> r == Err(HttpError(404, "User not found"))
      ensures r.Ok? <==> Given(email) && Given(otp) && Given(newPassword)
                         && email.value in old(otpStore) && OtpAccepts(old(otpStore)[email.value], otp.value, now)
                         && email.value in old(users)
      ensures r.Ok? ==> users == old(users)[email.value := old(users)[email.value].(password := Hash(newPassword.value))]
                        && otpStore == old(otpStore) - {email.value}
      ensures r.Err? ==> users == old(users) && otpStore == old(otpStore)
    {
      if !Given(email) || !Given(otp) || !Given(newPassword) {
        return Err(HttpError(400, "email, otp and new_password required"));
      }
      if email.value !in otpStore || !OtpAccepts(otpStore[email.value], otp.value, now) {
        return Err(HttpError(400, "Invalid or expired OTP"));
      }
      if email.value !in users {
        return Err(HttpError(404, "User not found"));
      }
      var user := users[email.value];
      users := users[email.value := user.(password := Hash(newPassword.value))];
      otpStore := otpStore - {email.value};
      r := Ok("Password reset successful");
    }

    /**
     * `POST /change-password`: the caller is authenticated first (401 from
     * `get_current_user`); then 400 unless both passwords are given, 401 if
     * the old one does not verify; otherwise the caller's hash is replaced.
     */
    method ChangePassword(authorization: Option<string>, decode: string -> Decoded,
                          oldPassword: Option<string>, newPassword: Option<string>)
      returns (r: Result<string, HttpError>)
      requires Valid()
      modifies this`users
      ensures Valid()
      ensures CurrentUser(old(users), authorization, decode).Err? ==> r == Err(CurrentUser(old(users), authorization, decode).error)
      ensures CurrentUser(old(users), authorization, decode).Ok? && !(Given(oldPassword) && Given(newPassword))
              ==> r == Err(HttpError(400, "old_password and new_password required"))
      ensures CurrentUser(old(users), authorization, decode).Ok? && Given(oldPassword) && Given(newPassword)
              && !Verify(oldPassword.value, CurrentUser(old(users), authorization, decode).value.password)
              ==> r == Err(HttpError(401, "Invalid old password"))
      ensures r.Ok? <==> CurrentUser(old(users), authorization, decode).Ok? && Given(oldPassword) && Given(newPassword)
                         && Verify(oldPassword.value, CurrentUser(old(users), authorization, decode).value.password)
      ensures r.Ok? ==> var u := CurrentUser(old(users), authorization, decode).value;
                        users == old(users)[u.email := u.(password := Hash(newPassword.value))]
      ensures r.Err? ==> users == old(users)
    {
      var current := CurrentUser(users, authorization, decode);
      if current.Err? {
        return Err(current.error);
      }
      var u := current.value;
      if !Given(oldPassword) || !Given(newPassword) {
        return Err(HttpError(400, "old_password and new_password required"));
      }
      if !Verify(oldPassword.value, u.password) {
        return Err(HttpError(401, "Invalid old password"));
      }
      users := users[u.email := u.(password := Hash(newPassword.value))];
      r := Ok("Password changed successfully");
    }
  }

  /** After a registration, logging in with the registered e-mail and password succeeds and gives role `user`. */
  lemma LoginAfterRegister(users: map<string, User>, u: User, password: string)
    requires u.password == Hash(password)
    ensures Login(users[u.email := u], u.email, password).Ok?
    ensures Login(users[u.email := u], u.email, password).value.user.role == u.role
  {
    VerifyHash(password, password);
  }

  /** After a password is replaced, the new password logs in and any other is refused. */
  lemma LoginAfterPasswordChange(users: map<string, User>, email: string, newPassword: string, other: string)
    requires email in users && other != newPassword
    ensures Login(users[email := users[email].(password := Hash(newPassword))], email, newPassword).Ok?
    ensures Login(users[email := users[email].(password := Hash(newPassword))], email, other).Err?
  {
    VerifyHash(newPassword, newPassword);
    VerifyHash(other, newPassword);
  }

  /**
   * The end-to-end flow on a fresh server: register, log in, request a code,
   * reset with it; afterwards the old password is refused, the new one
   * accepted, and the same code cannot be used a second time.
   */
  method ResetFlow(email: string, oldPassword: string, newPassword: string, draw: int, issued: int, later: int)
    returns (firstLogin: bool, reset: bool, oldLogin: bool, newLogin: bool, replay: bool)
    requires email != "" && oldPassword != newPassword && newPassword != ""
    requires 100000 <= draw <= 999999 && issued <= later <= issued + OtpLifetime
    ensures firstLogin && reset && !oldLogin && newLogin && !replay
  {
    var server := new AuthServer(map[], 1);
    var registered := server.Register(UserCreate("Alice", "555", email, oldPassword, oldPassword));
    VerifyHash(oldPassword, oldPassword);
    firstLogin := Login(server.users, email, oldPassword).Ok?;
    var requested := server.RequestOtp(Some(email), issued, draw);
    var code := Digits(draw);
    var r1 := server.ResetPassword(Some(email), Some(code), Some(newPassword), later);
    reset := r1.Ok?;
    LoginAfterPasswordChange(map[email := registered.value], email, newPassword, oldPassword);
    oldLogin := Login(server.users, email, oldPassword).Ok?;
    newLogin := Login(server.users, email, newPassword).Ok?;
    var r2 := server.ResetPassword(Some(email), Some(code), Some(newPassword), later);
    replay := r2.Ok?;
  }
}
