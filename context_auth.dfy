/**
 * The React authentication provider of the first client
 * (src/context/AuthContext.jsx): a users list and a session (`token`,
 * `role`, and the stored `currentUserEmail`) held as state, and an
 * `otpStore` object kept in local storage. `now` stands for `Date.now()`
 * and `draw` for the random six-digit code.
 */
module ContextAuth {
  import opened Wrappers
  import opened Decimal
  import opened LocalUsers
  import ApiAuth

  /** The token every successful login sets. */
  const DummyToken: string := "dummy-token"

  /** `verifyOtp`: an entry exists, its code matches, and the expiry lies strictly ahead. */
  predicate OtpValid(store: map<string, LocalOtp>, email: string, code: string, now: int) {
    email in store && store[email].code == code && now < store[email].expiresAt
  }

  /**
   * The outcome `resetPassword` reports: the last user with that e-mail
   * exists and its password differs from the new one.
   */
  predicate ResetApplies(users: seq<LocalUser>, email: string, newPassword: string) {
    LastEmail(users, email).Some? && users[LastEmail(users, email).value].password != newPassword
  }

  /**
   * The outcome `changePassword` reports: the last user with that e-mail
   * exists, its password is the old one, and the new one differs.
   */
  predicate ChangeApplies(users: seq<LocalUser>, email: string, oldPassword: string, newPassword: string) {
    LastEmail(users, email).Some? && users[LastEmail(users, email).value].password == oldPassword
    && oldPassword != newPassword
  }

  /** `users.map` in `changePassword`: a matching user whose password is the old one gets the new one. */
  function ChangedUsers(users: seq<LocalUser>, email: string, oldPassword: string, newPassword: string): (r: seq<LocalUser>)
    ensures |r| == |users|
    ensures forall j | 0 <= j < |r| :: r[j].email == users[j].email && r[j].id == users[j].id && r[j].role == users[j].role
    ensures forall j | 0 <= j < |r| && users[j].email != email :: r[j] == users[j]
    ensures forall j | 0 <= j < |r| && users[j].email == email ::
              r[j].password == if users[j].password == oldPassword then newPassword else users[j].password
  {
    seq(|users|, j requires 0 <= j < |users| =>
      if users[j].email == email && users[j].password == oldPassword then users[j].(password := newPassword) else users[j])
  }

  class AuthProvider {
    var token: Option<string>
    var role: Option<string>
    var currentUserEmail: Option<string>
    var users: seq<LocalUser>
    var otpStore: map<string, LocalOtp>

    ghost predicate Valid()
      reads this
    {
      DistinctEmails(users)
    }

    /** The state as first read: the stored users or the seed, and the stored session and codes. */
    constructor (storedUsers: Option<seq<LocalUser>>, storedToken: Option<string>, storedRole: Option<string>,
                 storedEmail: Option<string>, storedOtp: map<string, LocalOtp>)
      ensures users == (if storedUsers.Some? then storedUsers.value else SeedUsers)
      ensures token == storedToken && role == storedRole && currentUserEmail == storedEmail && otpStore == storedOtp
      ensures storedUsers.None? || DistinctEmails(storedUsers.value) ==> Valid()
    {
      users := if storedUsers.Some? then storedUsers.value else SeedUsers;
      token := storedToken;
      role := storedRole;
      currentUserEmail := storedEmail;
      otpStore := storedOtp;
    }

    /** `login`: true iff some user has exactly that e-mail and password; only then is the session set, from the first such user. */
    method Login(email: string, password: string) returns (ok: bool)
      modifies this`token, this`role, this`currentUserEmail
      ensures ok <==> FindCredentials(users, email, password).Some?
      ensures ok ==> var u := users[FindCredentials(users, email, password).value];
                     token == Some(DummyToken) && role == Some(u.role) && currentUserEmail == Some(u.email)
      ensures !ok ==> token == old(token) && role == old(role) && currentUserEmail == old(currentUserEmail)
    {
      var found := FindCredentials(users, email, password);
      if found.None? {
        return false;
      }
      var u := users[found.value];
      token := Some(DummyToken);
      role := Some(u.role);
      currentUserEmail := Some(u.email);
      ok := true;
    }

    /** `register`: false with users unchanged for a taken e-mail; otherwise exactly one user is appended, with role `User`. */
    method Register(email: string, password: string, now: int) returns (ok: bool)
      requires Valid()
      modifies this`users
      ensures Valid()
      ensures ok <==> FindEmail(old(users), email).None?
      ensures ok ==> users == old(users) + [LocalUser(now, email, password, UserRole)]
      ensures !ok ==> users == old(users)
    {
      if FindEmail(users, email).Some? {
        return false;
      }
      AppendDistinct(users, LocalUser(now, email, password, UserRole));
      users := users + [LocalUser(now, email, password, UserRole)];
      ok := true;
    }

    /** `requestOtp`: false for an unknown e-mail; otherwise the code and an expiry ten minutes ahead replace any earlier entry. */
    method RequestOtp(email: string, now: int, draw: int) returns (ok: bool)
      requires 100000 <= draw <= 999999
      modifies this`otpStore
      ensures ok <==> FindEmail(users, email).Some?
      ensures ok ==> otpStore == old(otpStore)[email := LocalOtp(Digits(draw), now + OtpLifetimeMs)]
      ensures !ok ==> otpStore == old(otpStore)
    {
      if FindEmail(users, email).None? {
        return false;
      }
      otpStore := otpStore[email := LocalOtp(Digits(draw), now + OtpLifetimeMs)];
      ok := true;
    }

    /** `verifyOtp`, which reads the store and leaves it as it is. */
    predicate VerifyOtp(email: string, code: string, now: int)
      reads this
    {
      OtpValid(otpStore, email, code, now)
    }

    /**
     * `resetPassword`: walks the users, giving each one with that e-mail the
     * new password unless it already has it, and records whether the last
     * such user changed; only then is the e-mail's code entry deleted. The
     * code itself is not checked here.
     */
    method ResetPassword(email: string, newPassword: string) returns (updated: bool)
      requires Valid()
      modifies this`users, this`otpStore
      ensures Valid()
      ensures updated <==> ResetApplies(old(users), email, newPassword)
      ensures users == WithPassword(old(users), email, newPassword)
      ensures updated ==> otpStore == old(otpStore) - {email}
      ensures !updated ==> otpStore == old(otpStore) && users == old(users)
    {
      var next: seq<LocalUser> := [];
      updated := false;
      var i := 0;
      while i < |users|
        invariant 0 <= i <= |users|
        invariant |next| == i
        invariant forall j | 0 <= j < i :: next[j] == if users[j].email == email then users[j].(password := newPassword) else users[j]
        invariant updated <==> ResetApplies(users[..i], email, newPassword)
      {
        var u := users[i];
        assert users[..i + 1][..i] == users[..i];
        if u.email == email {
          if u.password == newPassword {
            updated := false;
            next := next + [u];
          } else {
            updated := true;
            next := next + [u.(password := newPassword)];
          }
        } else {
          next := next + [u];
        }
        i := i + 1;
      }
      assert users[..i] == users;
      if !updated {
        WithPasswordUnchanged(users, email, newPassword);
      }
      WithPasswordDistinct(users, email, newPassword);
      users := next;
      if updated {
        otpStore := otpStore - {email};
      }
    }

    /**
     * `changePassword`: the same walk, refusing a user whose password is not
     * the old one or already equals the new one; other users are untouched.
     */
    method ChangePassword(email: string, oldPassword: string, newPassword: string) returns (updated: bool)
      requires Valid()
      modifies this`users
      ensures Valid()
      ensures updated <==> ChangeApplies(old(users), email, oldPassword, newPassword)
      ensures updated ==> users == WithPassword(old(users), email, newPassword)
      ensures !updated ==> users == old(users)
    {
      var next: seq<LocalUser> := [];
      updated := false;
      var i := 0;
      while i < |users|
        invariant 0 <= i <= |users|
        invariant next == ChangedUsers(users[..i], email, oldPassword, newPassword)
        invariant updated <==> ChangeApplies(users[..i], email, oldPassword, newPassword)
      {
        var u := users[i];
        assert users[..i + 1][..i] == users[..i];
        if u.email == email {
          if u.password != oldPassword {
            updated := false;
            next := next + [u];
          } else if u.password == newPassword {
            updated := false;
            next := next + [u];
          } else {
            updated := true;
            next := next + [u.(password := newPassword)];
          }
        } else {
          next := next + [u];
        }
        i := i + 1;
      }
      assert users[..i] == users;
      ChangedUsersDistinct(users, email, oldPassword, newPassword, updated);
      users := next;
    }

    /** `logout`: the session returns to unauthenticated; users and codes stay. */
    method Logout()
      modifies this`token, this`role, this`currentUserEmail
      ensures token.None? && role.None? && currentUserEmail.None?
    {
      token := None;
      role := None;
      currentUserEmail := None;
    }
  }

  /** With distinct e-mails, the change walk alters exactly the one user it reports, or nothing. */
  lemma ChangedUsersDistinct(users: seq<LocalUser>, email: string, oldPassword: string, newPassword: string, updated: bool)
    requires DistinctEmails(users)
    requires updated <==> ChangeApplies(users, email, oldPassword, newPassword)
    ensures DistinctEmails(ChangedUsers(users, email, oldPassword, newPassword))
    ensures updated ==> ChangedUsers(users, email, oldPassword, newPassword) == WithPassword(users, email, newPassword)
    ensures !updated ==> ChangedUsers(users, email, oldPassword, newPassword) == users
  {
    var r := ChangedUsers(users, email, oldPassword, newPassword);
    FirstIsLast(users, email);
    if updated {
      var w := WithPassword(users, email, newPassword);
      forall j | 0 <= j < |users| ensures r[j] == w[j] {
        if users[j].email == email {
          assert j == LastEmail(users, email).value;
        }
      }
    } else {
      forall j | 0 <= j < |users| ensures r[j] == users[j] {
        if users[j].email == email {
          assert j == LastEmail(users, email).value;
        }
      }
    }
  }

  /** A code is valid until one millisecond before its expiry: at the expiry instant it is refused. */
  lemma OtpWindow(store: map<string, LocalOtp>, email: string, code: nat, issued: int, now: int)
    requires store == map[email := LocalOtp(Digits(code), issued + OtpLifetimeMs)]
    ensures OtpValid(store, email, Digits(code), now) <==> now < issued + OtpLifetimeMs
  {
  }

  /**
   * The two implementations disagree at the expiry instant: the backend
   * still accepts a code whose expiry equals the current time, this
   * provider refuses it.
   */
  lemma ExpiryBoundaryDiffers(email: string, code: string, expires: int)
    ensures ApiAuth.OtpAccepts(ApiAuth.OtpEntry(code, expires), code, expires)
    ensures !OtpValid(map[email := LocalOtp(code, expires)], email, code, expires)
  {
  }

  /**
   * The reset flow of the reset page on a fresh provider holding the seed
   * users: request a code, check it, reset to a new password. Afterwards the
   * new password logs in, the old one does not, and the code no longer
   * verifies; resetting again to the same password is refused.
   */
  method ResetFlow(draw: int, issued: int, later: int, newPassword: string)
    returns (verified: bool, reset: bool, newLogin: bool, oldLogin: bool, replay: bool, again: bool)
    requires 100000 <= draw <= 999999 && issued <= later < issued + OtpLifetimeMs && newPassword != "123456"
    ensures verified && reset && newLogin && !oldLogin && !replay && !again
  {
    var provider := new AuthProvider(None, None, None, None, map[]);
    var email := "user@gmail.com";
    var requested := provider.RequestOtp(email, issued, draw);
    verified := provider.VerifyOtp(email, Digits(draw), later);
    reset := provider.ResetPassword(email, newPassword);
    assert FindEmail(SeedUsers, email) == Some(1);
    LoginAfterWithPassword(SeedUsers, email, newPassword, "123456");
    newLogin := provider.Login(email, newPassword);
    oldLogin := provider.Login(email, "123456");
    replay := provider.VerifyOtp(email, Digits(draw), later);
    again := provider.ResetPassword(email, newPassword);
  }
}
