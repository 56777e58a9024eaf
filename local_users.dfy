/**
 * The user records and one-time-code entries that the two local-storage
 * variants of the client (src/context/AuthContext.jsx and
 * src/redux/authSlice.js) keep: plain-text passwords, a list searched with
 * `find`, and an `otpStore` object keyed by e-mail.
 */
module LocalUsers {
  import opened Wrappers

  datatype LocalUser = LocalUser(id: int, email: string, password: string, role: string)

  /** An `otpStore` entry: the code as a string and an expiry in milliseconds. */
  datatype LocalOtp = LocalOtp(code: string, expiresAt: int)

  /** The users both variants start with when storage holds none. */
  const SeedUsers: seq<LocalUser> :=
    [LocalUser(1, "admin@gmail.com", "123456", "Admin"), LocalUser(2, "user@gmail.com", "123456", "User")]

  /** The role a registration gives. */
  const UserRole: string := "User"

  /** `10 * 60 * 1000` milliseconds. */
  const OtpLifetimeMs: int := 10 * 60 * 1000

  /** `users.find(u => u.email === email && u.password === password)`, as a position. */
  function FindCredentials(users: seq<LocalUser>, email: string, password: string): (r: Option<nat>)
    ensures r.Some? ==> r.value < |users| && users[r.value].email == email && users[r.value].password == password
    ensures r.Some? ==> forall j | 0 <= j < r.value :: !(users[j].email == email && users[j].password == password)
    ensures r.None? <==> forall j | 0 <= j < |users| :: !(users[j].email == email && users[j].password == password)
  {
    if users == [] then None
    else if users[0].email == email && users[0].password == password then Some(0)
    else match FindCredentials(users[1..], email, password)
      case None => None
      case Some(k) => Some(k + 1)
  }

  /** `users.find(u => u.email === email)`, as a position. */
  function FindEmail(users: seq<LocalUser>, email: string): (r: Option<nat>)
    ensures r.Some? ==> r.value < |users| && users[r.value].email == email
    ensures r.Some? ==> forall j | 0 <= j < r.value :: users[j].email != email
    ensures r.None? <==> forall j | 0 <= j < |users| :: users[j].email != email
  {
    if users == [] then None
    else if users[0].email == email then Some(0)
    else match FindEmail(users[1..], email)
      case None => None
      case Some(k) => Some(k + 1)
  }

  /** The position of the last user with that e-mail. */
  function LastEmail(users: seq<LocalUser>, email: string): (r: Option<nat>)
    ensures r.Some? ==> r.value < |users| && users[r.value].email == email
    ensures r.Some? ==> forall j | r.value < j < |users| :: users[j].email != email
    ensures r.None? <==> forall j | 0 <= j < |users| :: users[j].email != email
  {
    if users == [] then None
    else if users[|users| - 1].email == email then Some(|users| - 1)
    else LastEmail(users[..|users| - 1], email)
  }

  /** `users.map(u => u.email === email ? { ...u, password } : u)`. */
  function WithPassword(users: seq<LocalUser>, email: string, password: string): (r: seq<LocalUser>)
    ensures |r| == |users|
    ensures forall j | 0 <= j < |r| :: r[j] == if users[j].email == email then users[j].(password := password) else users[j]
  {
    seq(|users|, j requires 0 <= j < |users| => if users[j].email == email then users[j].(password := password) else users[j])
  }

  /** No two users share an e-mail. */
  ghost predicate DistinctEmails(users: seq<LocalUser>) {
    forall i, j | 0 <= i < j < |users| :: users[i].email != users[j].email
  }

  /** With distinct e-mails, the first and the last user with an e-mail are the same one. */
  lemma FirstIsLast(users: seq<LocalUser>, email: string)
    requires DistinctEmails(users)
    ensures FindEmail(users, email) == LastEmail(users, email)
  {
  }

  /** Rewriting an e-mail's password changes nothing when that e-mail is absent or already has it. */
  lemma WithPasswordUnchanged(users: seq<LocalUser>, email: string, password: string)
    requires DistinctEmails(users)
    requires FindEmail(users, email).None? || users[FindEmail(users, email).value].password == password
    ensures WithPassword(users, email, password) == users
  {
    var r := WithPassword(users, email, password);
    forall j | 0 <= j < |users| ensures r[j] == users[j] {
      if users[j].email == email {
        var k := FindEmail(users, email).value;
        assert j == k;
      }
    }
  }

  /** After a password rewrite, that e-mail logs in with the new password and with no other. */
  lemma LoginAfterWithPassword(users: seq<LocalUser>, email: string, password: string, other: string)
    requires FindEmail(users, email).Some? && other != password
    ensures FindCredentials(WithPassword(users, email, password), email, password).Some?
    ensures FindCredentials(WithPassword(users, email, password), email, other).None?
  {
    var k := FindEmail(users, email).value;
    assert WithPassword(users, email, password)[k].password == password;
  }

  /** A user appended under a new e-mail is found by that e-mail and password. */
  lemma {:induction false} LoginAfterAppend(users: seq<LocalUser>, user: LocalUser)
    requires FindEmail(users, user.email).None?
    ensures FindCredentials(users + [user], user.email, user.password) == Some(|users|)
    ensures FindEmail(users + [user], user.email) == Some(|users|)
  {
    if users == [] {
      assert [] + [user] == [user];
    } else {
      assert (users + [user])[1..] == users[1..] + [user];
      assert users[0].email != user.email;
      LoginAfterAppend(users[1..], user);
    }
  }

  /** Appending a user under a new e-mail keeps e-mails distinct. */
  lemma AppendDistinct(users: seq<LocalUser>, user: LocalUser)
    requires DistinctEmails(users) && FindEmail(users, user.email).None?
    ensures DistinctEmails(users + [user])
  {
  }

  /** Rewriting passwords keeps e-mails distinct. */
  lemma WithPasswordDistinct(users: seq<LocalUser>, email: string, password: string)
    requires DistinctEmails(users)
    ensures DistinctEmails(WithPassword(users, email, password))
  {
  }
}
