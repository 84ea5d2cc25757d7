/**
 * The token state of the Google Identity Services implicit-grant flow (lib/gmail/auth.ts):
 * the in-memory access token and its expiry, mirrored into sessionStorage, the token
 * client, and the handlers of a pending sign-in.
 *
 * Each operation is a function on `AuthState`; the class `GoogleAuth` holds the module's
 * variables as fields, and each of its methods is proved to change them as that function
 * says. The clock is the parameter `now` (milliseconds); the GIS calls are parameters or
 * outputs.
 */
module GmailAuth {
  import opened Wrappers
  import opened Text

  const TokenKey: string := "myinboxreport_token"
  const TokenExpiryKey: string := "myinboxreport_token_expiry"

  /** A token is treated as expired this many milliseconds early. */
  const ExpiryBuffer: int := 60_000

  const NotInitialized: string := "Google Auth not initialized. Call initGoogleAuth() first."
  const ClientIdMissing: string := "NEXT_PUBLIC_GOOGLE_CLIENT_ID is not set"
  const ScriptFailed: string := "Failed to load Google Identity Services"

  /** What GIS passes to the token client's callback; `expiresIn` is in seconds. */
  datatype TokenResponse = TokenResponse(
    accessToken: string,
    tokenType: string,
    expiresIn: int,
    scope: string,
    error: Option<string>,
    errorDescription: Option<string>)

  /** sessionStorage: its items, and whether it can be used at all (it throws otherwise). */
  datatype Storage = Storage(items: map<string, string>, usable: bool)

  /**
   * The module-level variables, with sessionStorage, and whether the GIS script has loaded
   * (the global `google` is defined); only `initGoogleAuth()` loads it.
   */
  datatype AuthState = AuthState(
    accessToken: Option<string>,
    tokenExpiresAt: int,
    tokenClient: bool,
    pendingResolve: bool,
    pendingReject: bool,
    storage: Storage,
    gisLoaded: bool)

  /** How a pending sign-in promise was settled. */
  datatype Settled = Resolved(response: TokenResponse) | Rejected(message: string)

  // ---- Queries -----------------------------------------------------------------------------

  /** `isTokenValid()` at instant `now`. */
  predicate IsTokenValid(st: AuthState, now: int) {
    st.accessToken.Some? && st.accessToken.value != "" && now < st.tokenExpiresAt - ExpiryBuffer
  }

  /** `getAccessToken()` at instant `now`. */
  function GetAccessToken(st: AuthState, now: int): (r: Option<string>)
    ensures r.Some? <==> IsTokenValid(st, now)
    ensures r.Some? ==> r == st.accessToken
  {
    if st.accessToken.None? || st.accessToken.value == "" || !IsTokenValid(st, now) then None
    else st.accessToken
  }

  // ---- Transitions -------------------------------------------------------------------------

  /** The token client, the pending handlers and the GIS flag are the same in both states. */
  predicate SameClient(a: AuthState, b: AuthState) {
    a.tokenClient == b.tokenClient && a.pendingResolve == b.pendingResolve
    && a.pendingReject == b.pendingReject && a.gisLoaded == b.gisLoaded
  }

  /**
   * `persistToken(token, expiresAt)`: memory always, storage when it can be used; a storage
   * that throws is left as it was.
   */
  function Persisted(st: AuthState, token: string, expiresAt: int): (r: AuthState)
    ensures r.accessToken == Some(token) && r.tokenExpiresAt == expiresAt
    ensures r.storage.usable == st.storage.usable && SameClient(r, st)
    ensures r.storage.usable ==> r.storage.items == st.storage.items[TokenKey := token][TokenExpiryKey := IntToString(expiresAt)]
    ensures !st.storage.usable ==> r.storage == st.storage
  {
    var storage := if st.storage.usable
      then st.storage.(items := st.storage.items[TokenKey := token][TokenExpiryKey := IntToString(expiresAt)])
      else st.storage;
    st.(accessToken := Some(token), tokenExpiresAt := expiresAt, storage := storage)
  }

  /**
   * `clearPersistedToken()`: the token is null and its expiry 0, so no instant finds it valid;
   * both keys leave a usable storage, and nothing else does; a storage that throws is left as
   * it was.
   */
  function Cleared(st: AuthState): (r: AuthState)
    ensures r.accessToken.None? && r.tokenExpiresAt == 0
    ensures forall now :: !IsTokenValid(r, now)
    ensures r.storage.usable == st.storage.usable && SameClient(r, st)
    ensures r.storage.usable ==> TokenKey !in r.storage.items && TokenExpiryKey !in r.storage.items
    ensures r.storage.usable ==> forall k :: k != TokenKey && k != TokenExpiryKey ==>
      (k in r.storage.items <==> k in st.storage.items) && (k in r.storage.items ==> r.storage.items[k] == st.storage.items[k])
    ensures !st.storage.usable ==> r.storage == st.storage
  {
    var storage := if st.storage.usable
      then st.storage.(items := st.storage.items - {TokenKey, TokenExpiryKey})
      else st.storage;
    st.(accessToken := None, tokenExpiresAt := 0, storage := storage)
  }

  /** `restoreToken()` at instant `now`. */
  function Restored(st: AuthState, now: int): (r: AuthState)
    ensures SameClient(r, st) && r.storage.usable == st.storage.usable
  {
    var items := st.storage.items;
    if !st.storage.usable then st
    else if TokenKey in items && items[TokenKey] != "" && TokenExpiryKey in items && items[TokenExpiryKey] != "" then
      Adopted(st, items[TokenKey], StringToNumber(items[TokenExpiryKey]), now)
    else st
  }

  /** A stored token with its parsed expiry: kept while valid at `now`, otherwise cleared. */
  function Adopted(st: AuthState, token: string, expiresAt: Option<int>, now: int): (r: AuthState)
    ensures SameClient(r, st) && r.storage.usable == st.storage.usable
    ensures expiresAt.Some? && now < expiresAt.value - ExpiryBuffer ==>
      r.accessToken == Some(token) && r.tokenExpiresAt == expiresAt.value && r.storage == st.storage
    ensures !(expiresAt.Some? && now < expiresAt.value - ExpiryBuffer) ==> forall n :: !IsTokenValid(r, n)
  {
    match expiresAt
    case Some(e) =>
      if now < e - ExpiryBuffer then st.(accessToken := Some(token), tokenExpiresAt := e)
      else Cleared(st)
    case None => Cleared(st)
  }

  /**
   * The state when the module is loaded at instant `now`: nothing in memory and no GIS script,
   * then `restoreToken()`.
   */
  function Loaded(storage: Storage, now: int): AuthState {
    Restored(AuthState(None, 0, false, false, false, storage, false), now)
  }

  /**
   * `initGoogleAuth()`: the client id must be set; the GIS script, unless already loaded,
   * must load (`scriptLoads` is whether it would); then the script is loaded and the token
   * client exists.
   */
  function AfterInit(st: AuthState, clientId: Option<string>, scriptLoads: bool): (r: (AuthState, Option<string>))
    ensures r.1.None? <==> clientId.Some? && clientId.value != "" && (st.gisLoaded || scriptLoads)
    ensures r.1.None? ==> r.0 == st.(tokenClient := true, gisLoaded := true)
    ensures r.1.Some? ==> r.0 == st
  {
    if clientId.None? || clientId.value == "" then (st, Some(ClientIdMissing))
    else if !st.gisLoaded && !scriptLoads then (st, Some(ScriptFailed))
    else (st.(tokenClient := true, gisLoaded := true), None)
  }

  /** The message a failed token response rejects with: `error_description ?? error`. */
  function ErrorMessage(response: TokenResponse): string
    requires response.error.Some?
  {
    response.errorDescription.GetOr(response.error.value)
  }

  /**
   * The token client's callback at instant `now`: an error rejects the pending sign-in and
   * leaves the token alone; otherwise the token, valid for `expires_in` seconds, is persisted
   * and the pending sign-in resolves. Either way the handlers are cleared.
   */
  function AfterCallback(st: AuthState, response: TokenResponse, now: int): (r: (AuthState, Option<Settled>))
    ensures !r.0.pendingResolve && !r.0.pendingReject && r.0.tokenClient == st.tokenClient
    ensures response.error.Some? && response.error.value != "" ==>
      r.0.accessToken == st.accessToken && r.0.tokenExpiresAt == st.tokenExpiresAt && r.0.storage == st.storage
      && r.1 == if st.pendingReject then Some(Rejected(ErrorMessage(response))) else None
    ensures !(response.error.Some? && response.error.value != "") ==>
      r.0.accessToken == Some(response.accessToken) && r.0.tokenExpiresAt == now + response.expiresIn * 1000
      && r.1 == if st.pendingResolve then Some(Resolved(response)) else None
    ensures response.error.Some? && response.error.value != "" ==>
      r.0 == st.(pendingResolve := false, pendingReject := false)
    ensures !(response.error.Some? && response.error.value != "") ==>
      r.0 == Persisted(st, response.accessToken, now + response.expiresIn * 1000).(pendingResolve := false, pendingReject := false)
    ensures r.0.gisLoaded == st.gisLoaded && r.0.storage.usable == st.storage.usable
  {
    if response.error.Some? && response.error.value != "" then
      (st.(pendingResolve := false, pendingReject := false), if st.pendingReject then Some(Rejected(ErrorMessage(response))) else None)
    else
      var expiresAt := now + response.expiresIn * 1000;
      (Persisted(st, response.accessToken, expiresAt).(pendingResolve := false, pendingReject := false),
       if st.pendingResolve then Some(Resolved(response)) else None)
  }

  /**
   * `signIn()`: rejected at once without a token client; otherwise its handlers become the
   * pending ones and the consent screen is requested (the result is `None`).
   */
  function AfterSignIn(st: AuthState): (r: (AuthState, Option<string>))
    ensures r.1.None? <==> st.tokenClient
    ensures r.1.Some? ==> r == (st, Some(NotInitialized))
    ensures r.1.None? ==> r.0 == st.(pendingResolve := true, pendingReject := true)
  {
    if !st.tokenClient then (st, Some(NotInitialized))
    else (st.(pendingResolve := true, pendingReject := true), None)
  }

  /**
   * `signOut()`: a truthy token is revoked (the second component), then the state is cleared.
   * Before the GIS script has loaded `google` is undefined, so revoking throws a ReferenceError
   * (the third component is true) before anything is cleared.
   */
  function AfterSignOut(st: AuthState): (r: (AuthState, Option<string>, bool))
    ensures r.2 <==> st.accessToken.Some? && st.accessToken.value != "" && !st.gisLoaded
    ensures r.2 ==> r.0 == st && r.1.None?
    ensures !r.2 ==> forall now :: GetAccessToken(r.0, now).None?
    ensures !r.2 ==> (r.1.Some? <==> st.accessToken.Some? && st.accessToken.value != "")
    ensures r.1.Some? ==> r.1 == st.accessToken
  {
    if st.accessToken.Some? && st.accessToken.value != "" then
      if st.gisLoaded then (Cleared(st), st.accessToken, false) else (st, None, true)
    else (Cleared(st), None, false)
  }

  // ---- Properties --------------------------------------------------------------------------

  /** A persisted token is valid exactly while it is non-empty and more than a minute from expiry. */
  lemma PersistedValidity(st: AuthState, token: string, expiresAt: int, now: int)
    ensures IsTokenValid(Persisted(st, token, expiresAt), now) <==> token != "" && now < expiresAt - ExpiryBuffer
  {
  }

  /** Both keys are stored, non-empty, in a storage that can be used. */
  predicate HasStoredPair(s: Storage) {
    s.usable && TokenKey in s.items && s.items[TokenKey] != "" && TokenExpiryKey in s.items && s.items[TokenExpiryKey] != ""
  }

  /**
   * What restoring does with each storage: a stored pair whose expiry parses to a number more
   * than a minute after `now` is adopted and the storage kept; any other stored pair is cleared
   * from memory and storage; without a stored pair nothing changes.
   */
  lemma RestoreOutcomes(st: AuthState, now: int)
    ensures var r := Restored(st, now);
      var e := if HasStoredPair(st.storage) then StringToNumber(st.storage.items[TokenExpiryKey]) else None;
      (HasStoredPair(st.storage) && e.Some? && now < e.value - ExpiryBuffer ==>
         r == st.(accessToken := Some(st.storage.items[TokenKey]), tokenExpiresAt := e.value))
      && (HasStoredPair(st.storage) && !(e.Some? && now < e.value - ExpiryBuffer) ==>
         r.accessToken.None? && r.tokenExpiresAt == 0 && SameClient(r, st) && r.storage.usable
         && TokenKey !in r.storage.items && TokenExpiryKey !in r.storage.items)
      && (!HasStoredPair(st.storage) ==> r == st)
  {
    if HasStoredPair(st.storage) {
      var items := st.storage.items;
      var e := StringToNumber(items[TokenExpiryKey]);
      if !(e.Some? && now < e.value - ExpiryBuffer) {
        assert Restored(st, now) == Cleared(st);
      }
    }
  }

  /** Restoring does nothing when either stored value is missing or empty. */
  lemma RestoreNeedsBothValues(st: AuthState, now: int)
    requires !(TokenKey in st.storage.items && st.storage.items[TokenKey] != "")
      || !(TokenExpiryKey in st.storage.items && st.storage.items[TokenExpiryKey] != "")
    ensures Restored(st, now) == st
  {
  }

  /**
   * A token persisted to working storage survives a reload: the freshly loaded module has it
   * back while it is valid, and has cleared it once it is not.
   */
  lemma PersistThenReload(st: AuthState, token: string, expiresAt: int, now: int)
    requires st.storage.usable && token != ""
    ensures var r := Loaded(Persisted(st, token, expiresAt).storage, now);
      (now < expiresAt - ExpiryBuffer ==> r.accessToken == Some(token) && r.tokenExpiresAt == expiresAt && IsTokenValid(r, now))
      && (now >= expiresAt - ExpiryBuffer ==> r.accessToken == None && TokenKey !in r.storage.items)
  {
    var items := Persisted(st, token, expiresAt).storage.items;
    assert items[TokenKey] == token;
    StringToNumberOfIntToString(expiresAt);
    assert items[TokenExpiryKey] == IntToString(expiresAt);
  }

  /**
   * A sign-in followed by a successful callback resolves that sign-in with the response, and
   * the new token is valid until a minute before it expires.
   */
  lemma SignInThenGranted(st: AuthState, response: TokenResponse, now: int, later: int)
    requires st.tokenClient && response.error.None?
    ensures var signedIn := AfterSignIn(st);
      var done := AfterCallback(signedIn.0, response, now);
      signedIn.1.None? && done.1 == Some(Resolved(response))
      && (IsTokenValid(done.0, later) <==> response.accessToken != "" && later < now + response.expiresIn * 1000 - ExpiryBuffer)
  {
    var signedIn := AfterSignIn(st);
    PersistedValidity(signedIn.0, response.accessToken, now + response.expiresIn * 1000, later);
  }

  /** A sign-in followed by a failed callback rejects that sign-in and keeps the token as it was. */
  lemma SignInThenDenied(st: AuthState, response: TokenResponse, now: int, later: int)
    requires st.tokenClient && response.error.Some? && response.error.value != ""
    ensures var done := AfterCallback(AfterSignIn(st).0, response, now);
      done.1 == Some(Rejected(ErrorMessage(response)))
      && (IsTokenValid(done.0, later) <==> IsTokenValid(st, later))
  {
  }

  /**
   * A session restored at load survives a sign-out attempted before `initGoogleAuth()` has
   * loaded the GIS script: the revoke throws and the token stays valid.
   */
  lemma SignOutBeforeInitKeepsSession(storage: Storage, now: int)
    requires IsTokenValid(Loaded(storage, now), now)
    ensures var st := Loaded(storage, now);
      var r := AfterSignOut(st);
      r.2 && GetAccessToken(r.0, now) == st.accessToken && r.0.storage == storage
  {
    var st := Loaded(storage, now);
    assert !st.gisLoaded;
  }

  /** Once `initGoogleAuth()` has succeeded, a sign-out always clears the token. */
  lemma SignOutAfterInitClears(st: AuthState, clientId: Option<string>, scriptLoads: bool, now: int)
    requires AfterInit(st, clientId, scriptLoads).1.None?
    ensures var r := AfterSignOut(AfterInit(st, clientId, scriptLoads).0);
      !r.2 && GetAccessToken(r.0, now).None?
  {
  }

  // ---- The module's variables --------------------------------------------------------------

  class GoogleAuth {
    var accessToken: Option<string>
    var tokenExpiresAt: int
    var tokenClient: bool
    var pendingResolve: bool
    var pendingReject: bool
    var storage: Storage
    var gisLoaded: bool

    function State(): AuthState
      reads this
    {
      AuthState(accessToken, tokenExpiresAt, tokenClient, pendingResolve, pendingReject, storage, gisLoaded)
    }

    /** Loading the module at instant `now`, over the tab's sessionStorage. */
    constructor (storage: Storage, now: int)
      ensures State() == Loaded(storage, now)
    {
      accessToken := None;
      tokenExpiresAt := 0;
      tokenClient := false;
      pendingResolve := false;
      pendingReject := false;
      this.storage := storage;
      gisLoaded := false;
      new;
      RestoreToken(now);
    }

    method PersistToken(token: string, expiresAt: int)
      modifies this
      ensures State() == Persisted(old(State()), token, expiresAt)
    {
      accessToken := Some(token);
      tokenExpiresAt := expiresAt;
      if storage.usable {
        storage := storage.(items := storage.items[TokenKey := token][TokenExpiryKey := IntToString(expiresAt)]);
      }
    }

    method ClearPersistedToken()
      modifies this
      ensures State() == Cleared(old(State()))
    {
      accessToken := None;
      tokenExpiresAt := 0;
      if storage.usable {
        storage := storage.(items := storage.items - {TokenKey, TokenExpiryKey});
      }
    }

    method RestoreToken(now: int)
      modifies this
      ensures State() == Restored(old(State()), now)
    {
      if !storage.usable {
        return;
      }
      var items := storage.items;
      var token := if TokenKey in items then items[TokenKey] else "";
      var expiry := if TokenExpiryKey in items then items[TokenExpiryKey] else "";
      if token != "" && expiry != "" {
        var expiresAt := StringToNumber(expiry);
        AdoptToken(token, expiresAt, now);
      }
    }

    /** Keeps `token` in memory when its expiry is valid at `now`, and clears it otherwise. */
    method AdoptToken(token: string, expiresAt: Option<int>, now: int)
      modifies this
      ensures State() == Adopted(old(State()), token, expiresAt, now)
    {
      if expiresAt.Some? && now < expiresAt.value - ExpiryBuffer {
        accessToken := Some(token);
        tokenExpiresAt := expiresAt.value;
      } else {
        ClearPersistedToken();
      }
    }

    method InitGoogleAuth(clientId: Option<string>, scriptLoads: bool) returns (err: Option<string>)
      modifies this
      ensures (State(), err) == AfterInit(old(State()), clientId, scriptLoads)
    {
      if clientId.None? || clientId.value == "" {
        return Some(ClientIdMissing);
      }
      if !gisLoaded {
        if !scriptLoads {
          return Some(ScriptFailed);
        }
        gisLoaded := true;
      }
      tokenClient := true;
      err := None;
    }

    /** The callback given to `initTokenClient`; the result is how the pending sign-in was settled. */
    method Callback(response: TokenResponse, now: int) returns (settled: Option<Settled>)
      modifies this
      ensures (State(), settled) == AfterCallback(old(State()), response, now)
    {
      if response.error.Some? && response.error.value != "" {
        settled := if pendingReject then Some(Rejected(ErrorMessage(response))) else None;
        pendingResolve := false;
        pendingReject := false;
        return;
      }
      var expiresAt := now + response.expiresIn * 1000;
      PersistToken(response.accessToken, expiresAt);
      settled := if pendingResolve then Some(Resolved(response)) else None;
      pendingResolve := false;
      pendingReject := false;
    }

    method SignIn() returns (rejected: Option<string>)
      modifies this
      ensures (State(), rejected) == AfterSignIn(old(State()))
    {
      if !tokenClient {
        return Some(NotInitialized);
      }
      pendingResolve := true;
      pendingReject := true;
      rejected := None;
    }

    /** `revoked` is the token handed to `revoke`, if any; `threw` is whether that call threw. */
    method SignOut() returns (revoked: Option<string>, threw: bool)
      modifies this
      ensures (State(), revoked, threw) == AfterSignOut(old(State()))
    {
      revoked, threw := None, false;
      if accessToken.Some? && accessToken.value != "" {
        if !gisLoaded {
          return None, true;
        }
        revoked := accessToken;
      }
      ClearPersistedToken();
    }
  }
}
