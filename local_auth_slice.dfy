/**
 * The Redux authentication slice of the first client
 * (src/redux/authSlice.js). Its thunks read the users from the store's
 * state and write local storage; its reducers update the state from the
 * thunks' results. The class holds both: the slice state (`token`, `role`,
 * `currentUserEmail`, `users`, `otp`) and the storage keys the thunks write
 * (`storedUsers`, `storedSession`, `otpStore`). `now` stands for
 * `Date.now()` and `draw` for the random six-digit code.
 */
module LocalAuthSlice {
  import opened Wrappers
  import opened Decimal
  import opened LocalUsers

  const DummyToken: string := "dummy-token"

  /** What `loginAsync` resolves with. */
  datatype LoginPayload = LoginPayload(email: string, role: string, id: int)

  /** The three session keys in storage, token, role and e-mail, each `None` while the key is absent. */
  datatype StoredSession = StoredSession(token: Option<string>, role: Option<string>, email: Option<string>)

  const NoStoredSession: StoredSession := StoredSession(None, None, None)

  /** Storage's `|| null`: an empty string reads as absent. */
  function OrNull(stored: Option<string>): (r: Option<string>)
    ensures r.Some? <==> stored.Some? && stored.value != ""
    ensures r.Some? ==> r == stored
  {
    if stored.Some? && stored.value != "" then stored else None
  }

  class AuthSlice {
    var token: Option<string>
    var role: Option<string>
    var currentUserEmail: Option<string>
    var users: seq<LocalUser>
    var otp: Option<int>
    var storedUsers: Option<seq<LocalUser>>
    var storedSession: StoredSession
    var otpStore: map<string, LocalOtp>

    /** `initialState`, read from storage; the seed users when storage holds none. */
    constructor (storedUsers: Option<seq<LocalUser>>, storedToken: Option<string>, storedRole: Option<string>,
                 storedEmail: Option<string>, otpStore: map<string, LocalOtp>)
      ensures token == OrNull(storedToken) && role == OrNull(storedRole) && currentUserEmail == OrNull(storedEmail)
      ensures users == (if storedUsers.Some? then storedUsers.value else SeedUsers) && otp.None?
      ensures this.storedUsers == storedUsers && this.otpStore == otpStore
      ensures storedSession == StoredSession(storedToken, storedRole, storedEmail)
    {
      token := OrNull(storedToken);
      role := OrNull(storedRole);
      currentUserEmail := OrNull(storedEmail);
      users := if storedUsers.Some? then storedUsers.value else SeedUsers;
      otp := None;
      this.storedUsers := storedUsers;
      storedSession := StoredSession(storedToken, storedRole, storedEmail);
      this.otpStore := otpStore;
    }

    /** `loginAsync`: rejects unless a user matches both fields exactly; otherwise stores the session and resolves with it. */
    method LoginThunk(email: string, password: string) returns (r: Result<LoginPayload, string>)
      modifies this`storedSession
      ensures r.Err? <==> FindCredentials(users, email, password).None?
      ensures r.Err? ==> r.error == "Invalid email or password" && storedSession == old(storedSession)
      ensures r.Ok? ==> var u := users[FindCredentials(users, email, password).value];
                        r.value == LoginPayload(u.email, u.role, u.id)
                        && storedSession == StoredSession(Some(DummyToken), Some(u.role), Some(u.email))
    {
      var found := FindCredentials(users, email, password);
      if found.None? {
        return Err("Invalid email or password");
      }
      var u := users[found.value];
      storedSession := StoredSession(Some(DummyToken), Some(u.role), Some(u.email));
      r := Ok(LoginPayload(u.email, u.role, u.id));
    }

    /** `loginAsync.fulfilled`. */
    method LoginFulfilled(payload: LoginPayload)
      modifies this`token, this`role, this`currentUserEmail
      ensures token == Some(DummyToken) && role == Some(payload.role) && currentUserEmail == Some(payload.email)
    {
      token := Some(DummyToken);
      role := Some(payload.role);
      currentUserEmail := Some(payload.email);
    }

    /**
     * `registerAsync`: rejects a taken e-mail; otherwise stores the users
     * with the new one appended and a session for it, and resolves with the
     * new user (role `User`).
     */
    method RegisterThunk(email: string, password: string, now: int) returns (r: Result<LocalUser, string>)
      modifies this`storedUsers, this`storedSession
      ensures r.Err? <==> FindEmail(users, email).Some?
      ensures r.Err? ==> r.error == "Email already registered"
                         && storedUsers == old(storedUsers) && storedSession == old(storedSession)
      ensures r.Ok? ==> r.value == LocalUser(now, email, password, UserRole)
                        && storedUsers == Some(users + [r.value])
                        && storedSession == StoredSession(Some(DummyToken), Some(UserRole), Some(email))
    {
      if FindEmail(users, email).Some? {
        return Err("Email already registered");
      }
      var user := LocalUser(now, email, password, UserRole);
      storedUsers := Some(users + [user]);
      storedSession := StoredSession(Some(DummyToken), Some(user.role), Some(user.email));
      r := Ok(user);
    }

    /** `registerAsync.fulfilled`: logs the new user in and appends it to the state's users. */
    method RegisterFulfilled(user: LocalUser)
      modifies this`token, this`role, this`currentUserEmail, this`users
      ensures token == Some(DummyToken) && role == Some(user.role) && currentUserEmail == Some(user.email)
      ensures users == old(users) + [user]
    {
      token := Some(DummyToken);
      role := Some(user.role);
      currentUserEmail := Some(user.email);
      users := users + [user];
    }

    /** `requestOtpAsync`: rejects an unknown e-mail; otherwise stores the code as a string with a ten-minute expiry, resolving with the number. */
    method RequestOtpThunk(email: string, now: int, draw: int) returns (r: Result<int, string>)
      requires 100000 <= draw <= 999999
      modifies this`otpStore
      ensures r.Err? <==> FindEmail(users, email).None?
      ensures r.Err? ==> r.error == "Email not found" && otpStore == old(otpStore)
      ensures r.Ok? ==> r.value == draw && otpStore == old(otpStore)[email := LocalOtp(Digits(draw), now + OtpLifetimeMs)]
    {
      if FindEmail(users, email).None? {
        return Err("Email not found");
      }
      otpStore := otpStore[email := LocalOtp(Digits(draw), now + OtpLifetimeMs)];
      r := Ok(draw);
    }

    /** `requestOtpAsync.fulfilled`. */
    method RequestOtpFulfilled(code: int)
      modifies this`otp
      ensures otp == Some(code)
    {
      otp := Some(code);
    }

    /**
     * `resetPasswordAsync`: checks neither the code nor the old password;
     * stores the state's users with that e-mail's password rewritten and
     * deletes the e-mail's code entry.
     */
    method ResetPasswordThunk(email: string, newPassword: string) returns (r: bool)
      modifies this`storedUsers, this`otpStore
      ensures r
      ensures storedUsers == Some(WithPassword(users, email, newPassword))
      ensures otpStore == old(otpStore) - {email}
    {
      storedUsers := Some(WithPassword(users, email, newPassword));
      otpStore := otpStore - {email};
      r := true;
    }

    /** `resetPasswordAsync.fulfilled` as written: only the pending code is cleared; the state's users keep the old password. */
    method ResetPasswordFulfilled()
      modifies this`otp
      ensures otp.None?
    {
      otp := None;
    }

    /** The evidently intended `resetPasswordAsync.fulfilled`: the state's users take the new password too. */
    method ResetPasswordFulfilledSynced(email: string, newPassword: string)
      modifies this`otp, this`users
      ensures otp.None? && users == WithPassword(old(users), email, newPassword)
    {
      otp := None;
      users := WithPassword(users, email, newPassword);
    }

    /** `changePassword`: rejects unless a user matches e-mail and old password; otherwise stores the users with the password rewritten. */
    method ChangePasswordThunk(email: string, oldPassword: string, newPassword: string) returns (r: Result<bool, string>)
      modifies this`storedUsers
      ensures r.Err? <==> FindCredentials(users, email, oldPassword).None?
      ensures r.Err? ==> r.error == "Old password is incorrect" && storedUsers == old(storedUsers)
      ensures r.Ok? ==> storedUsers == Some(WithPassword(users, email, newPassword))
    {
      if FindCredentials(users, email, oldPassword).None? {
        return Err("Old password is incorrect");
      }
      storedUsers := Some(WithPassword(users, email, newPassword));
      r := Ok(true);
    }

    /** The evidently intended reducer for a fulfilled `changePassword`, which as written has none: the state's users take the new password. */
    method ChangePasswordFulfilledSynced(email: string, newPassword: string)
      modifies this`users
      ensures users == WithPassword(old(users), email, newPassword)
    {
      users := WithPassword(users, email, newPassword);
    }

    /** `logout`: the session fields and stored session go; users stay. */
    method Logout()
      modifies this`token, this`role, this`currentUserEmail, this`storedSession
      ensures token.None? && role.None? && currentUserEmail.None? && storedSession == NoStoredSession
    {
      token := None;
      role := None;
      currentUserEmail := None;
      storedSession := NoStoredSession;
    }
  }

  /**
   * Reset as written: after `resetPasswordAsync` and its fulfilled
   * reducer, logging in with the new password in the same session is
   * refused, and the old password still works, because the login thunk
   * reads the state's users, which were never updated.
   */
  method StaleResetFlow(newPassword: string) returns (newLogin: bool, oldLogin: bool)
    requires newPassword != "123456"
    ensures !newLogin && oldLogin
  {
    var slice := new AuthSlice(None, None, None, None, map[]);
    var email := "user@gmail.com";
    var done := slice.ResetPasswordThunk(email, newPassword);
    slice.ResetPasswordFulfilled();
    var withNew := slice.LoginThunk(email, newPassword);
    newLogin := withNew.Ok?;
    var withOld := slice.LoginThunk(email, "123456");
    oldLogin := withOld.Ok?;
  }

  /** Reset with the synced reducer: the new password logs in and the old one is refused. */
  method SyncedResetFlow(newPassword: string) returns (newLogin: bool, oldLogin: bool)
    requires newPassword != "123456"
    ensures newLogin && !oldLogin
  {
    var slice := new AuthSlice(None, None, None, None, map[]);
    var email := "user@gmail.com";
    var done := slice.ResetPasswordThunk(email, newPassword);
    slice.ResetPasswordFulfilledSynced(email, newPassword);
    assert FindEmail(SeedUsers, email) == Some(1);
    LoginAfterWithPassword(SeedUsers, email, newPassword, "123456");
    var withNew := slice.LoginThunk(email, newPassword);
    newLogin := withNew.Ok?;
    var withOld := slice.LoginThunk(email, "123456");
    oldLogin := withOld.Ok?;
  }

  /** Registration followed by its reducer leaves the new user able to log in with the chosen password. */
  method RegisterThenLogin(email: string, password: string, now: int) returns (registered: bool, loggedIn: bool)
    requires email != "admin@gmail.com" && email != "user@gmail.com"
    ensures registered && loggedIn
  {
    var slice := new AuthSlice(None, None, None, None, map[]);
    var r := slice.RegisterThunk(email, password, now);
    registered := r.Ok?;
    LoginAfterAppend(SeedUsers, r.value);
    slice.RegisterFulfilled(r.value);
    var login := slice.LoginThunk(email, password);
    loggedIn := login.Ok?;
  }

  /**
   * Change as written: `changePassword` has no fulfilled reducer, so after
   * it succeeds the state's users keep the old password; logging in with the
   * new one is refused and the old one still works.
   */
  method StaleChangeFlow(newPassword: string) returns (changed: bool, newLogin: bool, oldLogin: bool)
    requires newPassword != "123456"
    ensures changed && !newLogin && oldLogin
  {
    var slice := new AuthSlice(None, None, None, None, map[]);
    var email := "user@gmail.com";
    assert FindCredentials(SeedUsers, email, "123456") == Some(1);
    var r := slice.ChangePasswordThunk(email, "123456", newPassword);
    changed := r.Ok?;
    var withNew := slice.LoginThunk(email, newPassword);
    newLogin := withNew.Ok?;
    var withOld := slice.LoginThunk(email, "123456");
    oldLogin := withOld.Ok?;
  }

  /** Change with the synced reducer: the new password logs in and the old one is refused. */
  method SyncedChangeFlow(newPassword: string) returns (changed: bool, newLogin: bool, oldLogin: bool)
    requires newPassword != "123456"
    ensures changed && newLogin && !oldLogin
  {
    var slice := new AuthSlice(None, None, None, None, map[]);
    var email := "user@gmail.com";
    assert FindCredentials(SeedUsers, email, "123456") == Some(1);
    var r := slice.ChangePasswordThunk(email, "123456", newPassword);
    changed := r.Ok?;
    slice.ChangePasswordFulfilledSynced(email, newPassword);
    assert FindEmail(SeedUsers, email) == Some(1);
    LoginAfterWithPassword(SeedUsers, email, newPassword, "123456");
    var withNew := slice.LoginThunk(email, newPassword);
    newLogin := withNew.Ok?;
    var withOld := slice.LoginThunk(email, "123456");
    oldLogin := withOld.Ok?;
  }
}
