/**
 * The session reducers of the second client's authentication slice
 * (frontend/src/redux/authSlice.js). The thunks only forward requests to the
 * backend (modelled in `ApiAuth`); the reducers record or clear the
 * logged-in identity and the last error. Local storage is a map from key to
 * stored string.
 */
module SessionSlice {
  import opened Wrappers
  import opened Decimal
  import ApiAuth
  import LocalAuthSlice

  /** The `user` part of the login response; `id` may be missing. */
  datatype PayloadUser = PayloadUser(id: Option<int>, email: string, name: string, mobile: string, role: string)

  /** What `loginAsync` resolves with. */
  datatype LoginPayload = LoginPayload(accessToken: string, user: PayloadUser)

  /** The six session fields of the slice. */
  datatype Identity = Identity(
    token: Option<string>,
    role: Option<string>,
    currentUserEmail: Option<string>,
    currentUserName: Option<string>,
    currentUserMobile: Option<string>,
    currentUserId: Option<int>)

  const SignedOut: Identity := Identity(None, None, None, None, None, None)

  /**
   * The payload the login thunk resolves with for a backend response, given
   * the string the backend's token claims are encoded as.
   */
  function PayloadOf(response: ApiAuth.TokenResponse, encoded: string): (p: LoginPayload)
    ensures p.user.id == Some(response.user.id) && p.user.email == response.user.email && p.user.role == response.user.role
    ensures p.accessToken == encoded
  {
    var u := response.user;
    LoginPayload(encoded, PayloadUser(Some(u.id), u.email, u.name, u.mobile, u.role))
  }

  /** `localStorage.getItem(key)`: the stored string, or null. */
  function GetItem(storage: map<string, string>, key: string): Option<string> {
    if key in storage then Some(storage[key]) else None
  }

  /**
   * `initialState`'s id: null unless a non-empty string is stored, which is
   * then read with `Number`.
   */
  function StoredId(storage: map<string, string>): Option<int> {
    match LocalAuthSlice.OrNull(GetItem(storage, "currentUserId"))
    case None => None
    case Some(text) => ParseInt(text)
  }

  class Session {
    var identity: Identity
    var error: Option<string>
    var storage: map<string, string>

    /** `initialState`: each field read from storage, an empty string as null; no error. */
    constructor (storage: map<string, string>)
      ensures identity.token == LocalAuthSlice.OrNull(GetItem(storage, "token"))
      ensures identity.role == LocalAuthSlice.OrNull(GetItem(storage, "role"))
      ensures identity.currentUserEmail == LocalAuthSlice.OrNull(GetItem(storage, "currentUserEmail"))
      ensures identity.currentUserName == LocalAuthSlice.OrNull(GetItem(storage, "currentUserName"))
      ensures identity.currentUserMobile == LocalAuthSlice.OrNull(GetItem(storage, "currentUserMobile"))
      ensures identity.currentUserId == StoredId(storage)
      ensures error.None? && this.storage == storage
    {
      identity := Identity(LocalAuthSlice.OrNull(GetItem(storage, "token")),
                           LocalAuthSlice.OrNull(GetItem(storage, "role")),
                           LocalAuthSlice.OrNull(GetItem(storage, "currentUserEmail")),
                           LocalAuthSlice.OrNull(GetItem(storage, "currentUserName")),
                           LocalAuthSlice.OrNull(GetItem(storage, "currentUserMobile")),
                           StoredId(storage));
      error := None;
      this.storage := storage;
    }

    /** `logout`: all six fields become null and storage is cleared. */
    method Logout()
      modifies this`identity, this`storage
      ensures identity == SignedOut && storage == map[]
    {
      identity := SignedOut;
      storage := map[];
    }

    /** `clearError`. */
    method ClearError()
      modifies this`error
      ensures error.None?
    {
      error := None;
    }

    /**
     * `loginAsync.fulfilled`: token, role, e-mail, name and mobile come from
     * the payload, the id only when the payload has one; the error is
     * cleared and the fields are written to storage.
     */
    method LoginFulfilled(payload: LoginPayload)
      modifies this`identity, this`error, this`storage
      ensures identity == Identity(Some(payload.accessToken), Some(payload.user.role), Some(payload.user.email),
                                   Some(payload.user.name), Some(payload.user.mobile),
                                   if payload.user.id.Some? then payload.user.id else old(identity).currentUserId)
      ensures error.None?
      ensures storage == (if payload.user.id.Some? then old(storage)["currentUserId" := IntToString(payload.user.id.value)] else old(storage))
                           ["token" := payload.accessToken]["role" := payload.user.role]
                           ["currentUserEmail" := payload.user.email]["currentUserName" := payload.user.name]
                           ["currentUserMobile" := payload.user.mobile]
    {
      var u := payload.user;
      var id := identity.currentUserId;
      if u.id.Some? {
        id := u.id;
        storage := storage["currentUserId" := IntToString(u.id.value)];
      }
      identity := Identity(Some(payload.accessToken), Some(u.role), Some(u.email), Some(u.name), Some(u.mobile), id);
      storage := storage["token" := payload.accessToken]["role" := u.role]["currentUserEmail" := u.email]
                        ["currentUserName" := u.name]["currentUserMobile" := u.mobile];
      error := None;
    }

    /** `registerAsync.fulfilled`: clears the error and establishes no session. */
    method RegisterFulfilled()
      modifies this`error
      ensures error.None?
    {
      error := None;
    }

    /** Every `rejected` case: the payload becomes the error; the session is left alone. */
    method Rejected(payload: string)
      modifies this`error
      ensures error == Some(payload)
    {
      error := Some(payload);
    }
  }

  /** Logging out twice leaves the same state as logging out once. */
  method LogoutIdempotent(storage: map<string, string>) returns (once: Identity, twice: Identity)
    ensures once == twice == SignedOut
  {
    var s := new Session(storage);
    s.Logout();
    once := s.identity;
    s.Logout();
    twice := s.identity;
  }

  /** After a successful backend login and its reducer, the session names that user, by id. */
  method LoginSession(users: map<string, ApiAuth.User>, email: string, password: string, encoded: string)
    returns (r: Option<Identity>)
    ensures r.Some? <==> ApiAuth.Login(users, email, password).Ok?
    ensures r.Some? ==> var u := ApiAuth.Login(users, email, password).value.user;
                        r.value.currentUserId == Some(u.id) && r.value.currentUserEmail == Some(u.email)
                        && r.value.role == Some(u.role) && r.value.token == Some(encoded)
  {
    var s := new Session(map[]);
    var response := ApiAuth.Login(users, email, password);
    if response.Err? {
      s.Rejected(response.error.detail);
      return None;
    }
    s.LoginFulfilled(PayloadOf(response.value, encoded));
    r := Some(s.identity);
  }

  /**
   * A page reload after a login restores the identity the reducer set, when
   * the payload carries an id and none of its strings is empty.
   */
  method ReloadAfterLogin(storage: map<string, string>, payload: LoginPayload) returns (loggedIn: Identity, reloaded: Identity)
    requires payload.user.id.Some?
    requires payload.accessToken != "" && payload.user.role != "" && payload.user.email != ""
    requires payload.user.name != "" && payload.user.mobile != ""
    ensures loggedIn.token == Some(payload.accessToken) && loggedIn.currentUserId == payload.user.id
    ensures reloaded == loggedIn
  {
    var s := new Session(storage);
    s.LoginFulfilled(payload);
    loggedIn := s.identity;
    ParseIntOfIntToString(payload.user.id.value);
    var t := new Session(s.storage);
    reloaded := t.identity;
  }
}
