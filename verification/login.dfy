/**
 * Login completion (`FinishLogin` in internal/users/users.go) and its three
 * parts: `getAPIUser`, `connectExistingUser` and `addNewUser`. Every remote,
 * credential-store and `User` call is an oracle outcome given up front.
 */
module Login {
  import opened Wrappers
  import opened Accounts
  import opened Attempts
  import opened Lookup

  /** The remote user record (`pmapi.User`): its ID and its name. */
  datatype ApiUser = ApiUser(id: UserId, name: string)

  /** Outcomes of the handshake client's salt, the passphrase hash, unlock and current-user calls. */
  datatype Handshake = Handshake(
    salt: Outcome<Error>,
    hash: Result<string, Error>,
    unlock: Outcome<Error>,
    user: Result<ApiUser, Error>)

  /** What `getAPIUser` hands back on success. */
  datatype Unlocked = Unlocked(user: ApiUser, hashed: string)

  function HashedOr(h: Handshake): string {
    if h.hash.Ok? then h.hash.value else ""
  }

  /** The calls of `getAPIUser` in source order; none of its errors is wrapped. */
  function HandshakeAttempts(h: Handshake): seq<Attempt> {
    [ Attempt(AuthSalt, h.salt, None),
      Attempt(HashPassphrase, h.hash.ToOutcome(), None),
      Attempt(Unlock(HashedOr(h)), h.unlock, None),
      Attempt(FetchUser, h.user.ToOutcome(), None) ]
  }

  /** `getAPIUser`: salt, hash, unlock, current user; the first failure is returned as is. */
  function GetAPIUser(h: Handshake): (r: Traced<Result<Unlocked, Error>>)
    ensures r.result.Ok? <==> h.salt.Pass? && h.hash.Ok? && h.unlock.Pass? && h.user.Ok?
    ensures r.result.Ok? ==> r.result.value == Unlocked(h.user.value, h.hash.value)
    ensures NoCleanup(r.trace)
  {
    if h.salt.Fail? then
      Traced(Err(h.salt.error), [AuthSalt])
    else if h.hash.Err? then
      Traced(Err(h.hash.error), [AuthSalt, HashPassphrase])
    else if h.unlock.Fail? then
      Traced(Err(h.unlock.error), [AuthSalt, HashPassphrase, Unlock(h.hash.value)])
    else if h.user.Err? then
      Traced(Err(h.user.error), [AuthSalt, HashPassphrase, Unlock(h.hash.value), FetchUser])
    else
      Traced(Ok(Unlocked(h.user.value, h.hash.value)), [AuthSalt, HashPassphrase, Unlock(h.hash.value), FetchUser])
  }

  /** `getAPIUser` makes its calls in source order, stops at the first failure and returns that error unwrapped. */
  lemma GetAPIUserFollowsAttempts(h: Handshake)
    ensures GetAPIUser(h).trace == Performed(HandshakeAttempts(h))
    ensures GetAPIUser(h).result.Err? ==> Verdict(HandshakeAttempts(h)) == Some(GetAPIUser(h).result.error)
    ensures GetAPIUser(h).result.Ok? ==> Verdict(HandshakeAttempts(h)) == None
  {
    var a := HandshakeAttempts(h);
    if h.salt.Fail? {
      FailsAt(a, 0);
    } else if h.hash.Err? {
      FailsAt(a, 1);
    } else if h.unlock.Fail? {
      FailsAt(a, 2);
    } else if h.user.Err? {
      FailsAt(a, 3);
    } else {
      AllPass(a);
    }
  }

  /** Outcomes of the credential-store and API calls `connectExistingUser` makes. */
  datatype Reconnect = Reconnect(
    updatePassword: Outcome<Error>,
    refresh: Result<Token, Error>,
    updateToken: Outcome<Error>,
    init: Outcome<Error>)

  function TokenOr(r: Result<Token, Error>): Token {
    if r.Ok? then r.value else ""
  }

  /** The calls of `connectExistingUser` in source order, each wrapped on failure. */
  function ReconnectAttempts(id: UserId, auth: Token, hashed: string, o: Reconnect): seq<Attempt> {
    [ Attempt(UpdatePassword(id, hashed), o.updatePassword, Some(UpdatePasswordFailed)),
      Attempt(AuthRefresh(id, auth), o.refresh.ToOutcome(), Some(RefreshExistingFailed)),
      Attempt(UpdateToken(id, TokenOr(o.refresh)), o.updateToken, Some(UpdateTokenFailed)),
      Attempt(Init(id), o.init, Some(InitFailed)) ]
  }

  /**
   * `connectExistingUser` on the account at index `i`: refuses a connected
   * account outright; otherwise updates the password, refreshes and stores
   * the token and initialises the account, stopping at the first failure.
   * The list keeps its length, order and membership.
   */
  function ConnectExistingUser(u: Users, i: nat, auth: Token, hashed: string, o: Reconnect): (r: Step<Option<Error>>)
    requires i < |u.accounts|
    ensures SameRoster(u.accounts, r.users.accounts)
    ensures forall k :: 0 <= k < |u.accounts| && k != i ==> r.users.accounts[k] == u.accounts[k]
    ensures r.users.credentials == u.credentials && r.users.appOutdated == u.appOutdated
    ensures u.accounts[i].connected ==> r == Step(u, Some(AlreadyConnected), [])
    ensures r.result.None? <==>
      !u.accounts[i].connected && o.updatePassword.Pass? && o.refresh.Ok? && o.updateToken.Pass? && o.init.Pass?
    ensures r.result.Some? ==> r.users == u
    ensures r.result.None? ==> r.users.accounts[i].connected
    ensures r.result.Some? ==> r.result.value == AlreadyConnected || r.result.value.Wrapped?
    ensures NoCleanup(r.trace)
  {
    var user := u.accounts[i];
    if user.connected then
      Step(u, Some(AlreadyConnected), [])
    else if o.updatePassword.Fail? then
      Step(u, Some(Wrapped(UpdatePasswordFailed, o.updatePassword.error)),
        [UpdatePassword(user.id, hashed)])
    else if o.refresh.Err? then
      Step(u, Some(Wrapped(RefreshExistingFailed, o.refresh.error)),
        [UpdatePassword(user.id, hashed), AuthRefresh(user.id, auth)])
    else if o.updateToken.Fail? then
      Step(u, Some(Wrapped(UpdateTokenFailed, o.updateToken.error)),
        [UpdatePassword(user.id, hashed), AuthRefresh(user.id, auth), UpdateToken(user.id, o.refresh.value)])
    else if o.init.Fail? then
      Step(u, Some(Wrapped(InitFailed, o.init.error)),
        [UpdatePassword(user.id, hashed), AuthRefresh(user.id, auth), UpdateToken(user.id, o.refresh.value), Init(user.id)])
    else
      Step(u.(accounts := u.accounts[i := user.(connected := true)]), None,
        [UpdatePassword(user.id, hashed), AuthRefresh(user.id, auth), UpdateToken(user.id, o.refresh.value), Init(user.id)])
  }

  /**
   * Reconnecting a disconnected account makes its calls in the order
   * UpdatePassword, AuthRefresh, UpdateToken, init, stops at the first
   * failure and returns that failure wrapped with its context.
   */
  lemma ConnectFollowsAttempts(u: Users, i: nat, auth: Token, hashed: string, o: Reconnect)
    requires i < |u.accounts| && !u.accounts[i].connected
    ensures ConnectExistingUser(u, i, auth, hashed, o).trace == Performed(ReconnectAttempts(u.accounts[i].id, auth, hashed, o))
    ensures ConnectExistingUser(u, i, auth, hashed, o).result == Verdict(ReconnectAttempts(u.accounts[i].id, auth, hashed, o))
  {
    var a := ReconnectAttempts(u.accounts[i].id, auth, hashed, o);
    if o.updatePassword.Fail? {
      FailsAt(a, 0);
    } else if o.refresh.Err? {
      FailsAt(a, 1);
    } else if o.updateToken.Fail? {
      FailsAt(a, 2);
    } else if o.init.Fail? {
      FailsAt(a, 3);
    } else {
      AllPass(a);
    }
  }

  /**
   * Outcomes of the calls `addNewUser` makes: token refresh, re-fetch of the
   * remote user, the active addresses (a call that cannot fail), credential
   * `Add`, `newUser` and `init`.
   */
  datatype Enrol = Enrol(
    refresh: Result<Token, Error>,
    refetch: Result<ApiUser, Error>,
    emails: seq<string>,
    add: Outcome<Error>,
    build: Outcome<Error>,
    init: Outcome<Error>)

  function RefetchedOr(o: Enrol): ApiUser {
    if o.refetch.Ok? then o.refetch.value else ApiUser("", "")
  }

  /**
   * The calls of `addNewUser` in source order. The client is the one for the
   * handshake's user ID; the record is stored under the re-fetched user's ID.
   */
  function AddAttempts(clientId: UserId, auth: Token, hashed: string, o: Enrol): seq<Attempt> {
    var latest := RefetchedOr(o);
    [ Attempt(AuthRefresh(clientId, auth), o.refresh.ToOutcome(), Some(RefreshNewFailed)),
      Attempt(RefetchUser(clientId), o.refetch.ToOutcome(), Some(UpdateApiUserFailed)),
      Attempt(AddCredentials(latest.id, latest.name, TokenOr(o.refresh), hashed, o.emails), o.add, Some(AddCredentialsFailed)),
      Attempt(NewUser(latest.id), o.build, Some(CreateUserFailed)),
      Attempt(Init(latest.id), o.init, Some(InitFailed)) ]
  }

  /**
   * `addNewUser`: on success the list gains exactly one connected account at
   * its end; on any failure the list is exactly what it was (an `init`
   * failure undoes the append). A credential record stays once `Add` passed.
   */
  function AddNewUser(u: Users, apiUser: ApiUser, auth: Token, hashed: string, o: Enrol): (r: Step<Option<Error>>)
    ensures r.result.None? <==> o.refresh.Ok? && o.refetch.Ok? && o.add.Pass? && o.build.Pass? && o.init.Pass?
    ensures r.result.Some? ==> r.users.accounts == u.accounts
    ensures r.result.None? ==>
      && o.refetch.Ok?
      && r.users.accounts == u.accounts + [Account(o.refetch.value.id, o.refetch.value.name, o.emails, true)]
    ensures r.users.credentials ==
      if o.refresh.Ok? && o.refetch.Ok? && o.add.Pass? then u.credentials + {o.refetch.value.id} else u.credentials
    ensures r.users.appOutdated == u.appOutdated
    ensures r.result.Some? ==> r.result.value.Wrapped?
    ensures NoCleanup(r.trace)
  {
    if o.refresh.Err? then
      Step(u, Some(Wrapped(RefreshNewFailed, o.refresh.error)), [AuthRefresh(apiUser.id, auth)])
    else if o.refetch.Err? then
      Step(u, Some(Wrapped(UpdateApiUserFailed, o.refetch.error)),
        [AuthRefresh(apiUser.id, auth), RefetchUser(apiUser.id)])
    else
      var latest := o.refetch.value;
      var stored := [AuthRefresh(apiUser.id, auth), RefetchUser(apiUser.id),
                     AddCredentials(latest.id, latest.name, o.refresh.value, hashed, o.emails)];
      if o.add.Fail? then
        Step(u, Some(Wrapped(AddCredentialsFailed, o.add.error)), stored)
      else
        var recorded := u.(credentials := u.credentials + {latest.id});
        if o.build.Fail? then
          Step(recorded, Some(Wrapped(CreateUserFailed, o.build.error)), stored + [NewUser(latest.id)])
        else
          var added := Account(latest.id, latest.name, o.emails, false);
          var appended := recorded.accounts + [added];
          if o.init.Fail? then
            Step(recorded.(accounts := appended[..|appended| - 1]), Some(Wrapped(InitFailed, o.init.error)),
              stored + [NewUser(latest.id), Init(latest.id)])
          else
            Step(recorded.(accounts := appended[|appended| - 1 := added.(connected := true)]), None,
              stored + [NewUser(latest.id), Init(latest.id)])
  }

  /** `addNewUser` makes its calls in source order, stops at the first failure and returns it wrapped. */
  lemma AddFollowsAttempts(u: Users, apiUser: ApiUser, auth: Token, hashed: string, o: Enrol)
    ensures AddNewUser(u, apiUser, auth, hashed, o).trace == Performed(AddAttempts(apiUser.id, auth, hashed, o))
    ensures AddNewUser(u, apiUser, auth, hashed, o).result == Verdict(AddAttempts(apiUser.id, auth, hashed, o))
  {
    var a := AddAttempts(apiUser.id, auth, hashed, o);
    if o.refresh.Err? {
      FailsAt(a, 0);
    } else if o.refetch.Err? {
      FailsAt(a, 1);
    } else if o.add.Fail? {
      FailsAt(a, 2);
    } else if o.build.Fail? {
      FailsAt(a, 3);
    } else if o.init.Fail? {
      FailsAt(a, 4);
    } else {
      AllPass(a);
    }
  }

  /** Everything `FinishLogin` needs from its collaborators. */
  datatype LoginOracle = LoginOracle(handshake: Handshake, reconnect: Reconnect, enrol: Enrol)

  /** Go's pair of named results `(user *User, err error)`; both may be set. */
  datatype LoginResult = LoginResult(user: Option<Account>, err: Option<Error>)

  /** The remote user ID never is the query that makes `GetUser` panic. */
  predicate NotCrashing(o: LoginOracle) {
    o.handshake.user.Ok? ==> o.handshake.user.value.id != CrashQuery
  }

  /** The calls only the deferred cleanup of `FinishLogin` makes. */
  predicate IsCleanup(e: Effect) {
    e.EmitUpgrade? || e.DeleteAuth? || e.HandshakeLogout?
  }

  predicate NoCleanup(trace: seq<Effect>) {
    forall k :: 0 <= k < |trace| ==> !IsCleanup(trace[k])
  }

  /** The success tail of `FinishLogin`: emit the refresh event, then return `GetUser(id)`. */
  function Refreshed(users: Users, id: UserId, trace: seq<Effect>): (r: Step<LoginResult>)
    requires id != CrashQuery
    ensures r.users == users && |r.trace| == |trace| + 1 && r.trace[..|trace|] == trace
    ensures r.trace[|trace|] == EmitUserRefresh(id)
    ensures r.result.user.Some? != r.result.err.Some?
    ensures r.result.err.Some? ==> r.result.err.value == NotFound(id)
  {
    var found := GetUser(users.accounts, id);
    var result := if found.Ok? then LoginResult(Some(found.value), None) else LoginResult(None, Some(found.error));
    Step(users, result, trace + [EmitUserRefresh(id)])
  }

  /** The body of `FinishLogin`, up to the point where its deferred cleanup runs. */
  function LoginSteps(u: Users, auth: Token, o: LoginOracle): (r: Step<LoginResult>)
    requires NotCrashing(o)
    ensures NoCleanup(r.trace)
    ensures r.result.err.None? ==> r.result.user.Some?
    ensures r.users.appOutdated == u.appOutdated
  {
    var got := GetAPIUser(o.handshake);
    match got.result
    case Err(e) => Step(u, LoginResult(None, Some(e)), got.trace)
    case Ok(unlocked) =>
      var apiUser := unlocked.user;
      match HasUser(u.accounts, apiUser.id)
      case Some(i) =>
        var c := ConnectExistingUser(u, i, auth, unlocked.hashed, o.reconnect);
        if c.result.Some? then
          Step(c.users, LoginResult(Some(c.users.accounts[i]), c.result), got.trace + c.trace)
        else
          Refreshed(c.users, apiUser.id, got.trace + c.trace)
      case None =>
        var a := AddNewUser(u, apiUser, auth, unlocked.hashed, o.enrol);
        if a.result.Some? then
          Step(a.users, LoginResult(None, a.result), got.trace + a.trace)
        else
          Refreshed(a.users, apiUser.id, got.trace + a.trace)
  }

  /** The deferred function of `FinishLogin`: upgrade event, auth deletion, handshake logout. */
  function Deferred(err: Option<Error>): seq<Effect> {
    (if err == Some(UpgradeApplication) then [EmitUpgrade] else [])
    + (if err.Some? then [DeleteAuth] else [])
    + [HandshakeLogout]
  }

  /** The deferred calls themselves: one logout, one deletion on error, one upgrade event on the bare sentinel, in that order from the back. */
  lemma DeferredCalls(err: Option<Error>)
    ensures var d := Deferred(err);
      && multiset(d)[HandshakeLogout] == 1
      && multiset(d)[DeleteAuth] == (if err.Some? then 1 else 0)
      && multiset(d)[EmitUpgrade] == (if err == Some(UpgradeApplication) then 1 else 0)
      && d[|d| - 1] == HandshakeLogout
      && (err.Some? ==> |d| >= 2 && d[|d| - 2] == DeleteAuth)
      && (err == Some(UpgradeApplication) ==> |d| == 3 && d[0] == EmitUpgrade)
  {
    var d := Deferred(err);
    if err == Some(UpgradeApplication) {
      assert d == [EmitUpgrade, DeleteAuth, HandshakeLogout];
    } else if err.Some? {
      assert d == [DeleteAuth, HandshakeLogout];
    } else {
      assert d == [HandshakeLogout];
    }
  }

  /** A trace without cleanup calls holds none of the three. */
  lemma NoCleanupCounts(body: seq<Effect>)
    requires NoCleanup(body)
    ensures multiset(body)[HandshakeLogout] == 0 && multiset(body)[DeleteAuth] == 0 && multiset(body)[EmitUpgrade] == 0
  {
    assert HandshakeLogout !in body && DeleteAuth !in body && EmitUpgrade !in body by {
      forall k | 0 <= k < |body| ensures !IsCleanup(body[k]) { }
    }
  }

  /** Appending the deferred calls to a body that makes none of them gives each the intended count and place. */
  lemma DeferredTail(body: seq<Effect>, err: Option<Error>)
    requires NoCleanup(body)
    ensures var t := body + Deferred(err);
      && t[|t| - 1] == HandshakeLogout
      && multiset(t)[HandshakeLogout] == 1
      && multiset(t)[DeleteAuth] == (if err.Some? then 1 else 0)
      && multiset(t)[EmitUpgrade] == (if err == Some(UpgradeApplication) then 1 else 0)
      && (err.Some? ==> t[|t| - 2] == DeleteAuth)
      && (err == Some(UpgradeApplication) ==> t[|t| - 3] == EmitUpgrade)
  {
    NoCleanupCounts(body);
    DeferredCalls(err);
    var d := Deferred(err);
    assert multiset(body + d) == multiset(body) + multiset(d);
  }

  /**
   * `FinishLogin`: unlock, then reconnect the known account or add the new
   * one, then emit the refresh event and look the account up; the deferred
   * cleanup runs on every exit path and the handshake client is logged out last.
   */
  function FinishLogin(u: Users, auth: Token, o: LoginOracle): (r: Step<LoginResult>)
    requires NotCrashing(o)
    ensures |r.trace| >= 1 && r.trace[|r.trace| - 1] == HandshakeLogout
    ensures r.result.err.None? ==> r.result.user.Some?
    ensures r.users.appOutdated == u.appOutdated
  {
    var s := LoginSteps(u, auth, o);
    Step(s.users, s.result, s.trace + Deferred(s.result.err))
  }

  /**
   * On every exit path of `FinishLogin` the handshake client is logged out
   * exactly once, last; the auth session is deleted exactly when an error is
   * returned, just before; the upgrade event is emitted exactly when that
   * error is the bare upgrade sentinel, before both.
   */
  lemma CleanupOnEveryPath(u: Users, auth: Token, o: LoginOracle)
    requires NotCrashing(o)
    ensures var r := FinishLogin(u, auth, o);
      && multiset(r.trace)[HandshakeLogout] == 1
      && multiset(r.trace)[DeleteAuth] == (if r.result.err.Some? then 1 else 0)
      && multiset(r.trace)[EmitUpgrade] == (if r.result.err == Some(UpgradeApplication) then 1 else 0)
      && (r.result.err.Some? ==> r.trace[|r.trace| - 2] == DeleteAuth)
      && (r.result.err == Some(UpgradeApplication) ==> r.trace[|r.trace| - 3] == EmitUpgrade)
  {
    var s := LoginSteps(u, auth, o);
    DeferredTail(s.trace, s.result.err);
  }
}
