/** Properties of `FinishLogin` that relate its result to the account list it started from. */
module LoginProperties {
  import opened Wrappers
  import opened Accounts
  import opened Lookup
  import opened Login
  import opened Invariants

  /** The user `addNewUser` re-fetches is the one `getAPIUser` found (same ID). */
  predicate SameIdentity(o: LoginOracle) {
    o.handshake.user.Ok? && o.enrol.refetch.Ok? ==> o.enrol.refetch.value.id == o.handshake.user.value.id
  }

  /** If unlocking fails at any step, that error is returned unwrapped, no account is returned and the list is untouched. */
  lemma HandshakeFailureLeavesUsers(u: Users, auth: Token, o: LoginOracle)
    requires NotCrashing(o)
    requires GetAPIUser(o.handshake).result.Err?
    ensures FinishLogin(u, auth, o).users == u
    ensures FinishLogin(u, auth, o).result == LoginResult(None, Some(GetAPIUser(o.handshake).result.error))
    ensures FinishLogin(u, auth, o).trace[..|GetAPIUser(o.handshake).trace|] == GetAPIUser(o.handshake).trace
  {
    var s := LoginSteps(u, auth, o);
    assert s.users == u && s.trace == GetAPIUser(o.handshake).trace;
  }

  /** A successful login emits the refresh event for the remote user's ID right before the handshake logout. */
  lemma SuccessEmitsRefresh(u: Users, auth: Token, o: LoginOracle)
    requires NotCrashing(o)
    requires FinishLogin(u, auth, o).result.err.None?
    ensures GetAPIUser(o.handshake).result.Ok?
    ensures var t := FinishLogin(u, auth, o).trace;
      |t| >= 2 && t[|t| - 2] == EmitUserRefresh(o.handshake.user.value.id)
  {
    var got := GetAPIUser(o.handshake);
    var s := LoginSteps(u, auth, o);
    assert s.result.err.None?;
    assert got.result.Ok?;
    var unlocked := got.result.value;
    var id := unlocked.user.id;
    match HasUser(u.accounts, id)
    case Some(i) =>
      var c := ConnectExistingUser(u, i, auth, unlocked.hashed, o.reconnect);
      assert s == Refreshed(c.users, id, got.trace + c.trace);
    case None =>
      var a := AddNewUser(u, unlocked.user, auth, unlocked.hashed, o.enrol);
      assert s == Refreshed(a.users, id, got.trace + a.trace);
  }

  /**
   * The upgrade event is emitted only for an upgrade error raised while
   * unlocking: the errors of the later steps reach the deferred check
   * wrapped, and a wrapped error is not the bare sentinel.
   */
  lemma UpgradeOnlyFromHandshake(u: Users, auth: Token, o: LoginOracle)
    requires NotCrashing(o)
    requires FinishLogin(u, auth, o).result.err == Some(UpgradeApplication)
    ensures GetAPIUser(o.handshake).result == Err(UpgradeApplication)
    ensures FinishLogin(u, auth, o).users == u
  {
    var s := LoginSteps(u, auth, o);
    assert s.result.err == Some(UpgradeApplication);
  }

  /**
   * Logging in to an account that is already connected fails with
   * "already connected" before any credential-store or refresh call; the
   * list is unchanged and the account is still handed back with the error.
   */
  lemma AlreadyConnectedRefused(u: Users, auth: Token, o: LoginOracle, i: nat)
    requires NotCrashing(o)
    requires GetAPIUser(o.handshake).result.Ok?
    requires HasUser(u.accounts, o.handshake.user.value.id) == Some(i)
    requires u.accounts[i].connected
    ensures FinishLogin(u, auth, o).users == u
    ensures FinishLogin(u, auth, o).result == LoginResult(Some(u.accounts[i]), Some(AlreadyConnected))
    ensures FinishLogin(u, auth, o).trace == GetAPIUser(o.handshake).trace + [DeleteAuth, HandshakeLogout]
  {
  }

  /**
   * Logging in to a known account never changes the list's length, order or
   * membership: at most that account's connection flag changes.
   */
  lemma ReconnectKeepsRoster(u: Users, auth: Token, o: LoginOracle, i: nat)
    requires NotCrashing(o)
    requires GetAPIUser(o.handshake).result.Ok?
    requires HasUser(u.accounts, o.handshake.user.value.id) == Some(i)
    ensures var after := FinishLogin(u, auth, o).users;
      && SameRoster(u.accounts, after.accounts)
      && (forall k :: 0 <= k < |u.accounts| && k != i ==> after.accounts[k] == u.accounts[k])
      && after.credentials == u.credentials
      && after.appOutdated == u.appOutdated
  {
    var got := GetAPIUser(o.handshake);
    var c := ConnectExistingUser(u, i, auth, got.result.value.hashed, o.reconnect);
    assert LoginSteps(u, auth, o).users == c.users;
  }

  /**
   * Logging in to an unknown account either leaves the list exactly as it was
   * (every failure, including a rolled-back `init`) or appends exactly the
   * new, connected account.
   */
  lemma NewAccountAppendedOrRolledBack(u: Users, auth: Token, o: LoginOracle)
    requires NotCrashing(o)
    requires GetAPIUser(o.handshake).result.Ok?
    requires !Listed(u.accounts, o.handshake.user.value.id)
    ensures var e := o.enrol;
      var after := FinishLogin(u, auth, o).users.accounts;
      if e.refresh.Ok? && e.refetch.Ok? && e.add.Pass? && e.build.Pass? && e.init.Pass?
      then after == u.accounts + [Account(e.refetch.value.id, e.refetch.value.name, e.emails, true)]
      else after == u.accounts && FinishLogin(u, auth, o).result.err.Some?
  {
    var got := GetAPIUser(o.handshake);
    var a := AddNewUser(u, got.result.value.user, auth, got.result.value.hashed, o.enrol);
    assert LoginSteps(u, auth, o).users == a.users;
  }

  /** Under `SameIdentity`, login keeps the IDs distinct and every listed account backed by a credential record. */
  lemma FinishLoginPreservesValid(u: Users, auth: Token, o: LoginOracle)
    requires NotCrashing(o) && SameIdentity(o)
    requires Valid(u)
    ensures Valid(FinishLogin(u, auth, o).users)
  {
    var got := GetAPIUser(o.handshake);
    var after := FinishLogin(u, auth, o).users;
    assert after == LoginSteps(u, auth, o).users;
    if got.result.Ok? {
      var apiUser := got.result.value.user;
      match HasUser(u.accounts, apiUser.id)
      case Some(i) =>
        var c := ConnectExistingUser(u, i, auth, got.result.value.hashed, o.reconnect);
        assert after == c.users;
        SameRosterKeepsValid(u, c.users);
      case None =>
        var a := AddNewUser(u, apiUser, auth, got.result.value.hashed, o.enrol);
        assert after == a.users;
        if a.result.None? {
          AppendFreshKeepsValid(u, a.users, a.users.accounts[|u.accounts|]);
        }
    }
  }

  /**
   * Without `SameIdentity` the list can end up holding two accounts with one
   * ID: the handshake finds the unknown ID "b", the re-fetch reports the
   * known ID "a", and "a" is appended a second time. The login even reports
   * an error, because the final `GetUser("b")` finds nothing.
   */
  lemma RefetchedIdentityMatters(u: Users, o: LoginOracle)
    requires u == Users([Account("a", "alice", [], false)], {"a"}, false)
    requires o == LoginOracle(
      Handshake(Pass, Ok("h"), Pass, Ok(ApiUser("b", "bob"))),
      Reconnect(Pass, Ok("t"), Pass, Pass),
      Enrol(Ok("t"), Ok(ApiUser("a", "alice")), [], Pass, Pass, Pass))
    ensures Valid(u)
    ensures !DistinctIds(FinishLogin(u, "tok", o).users.accounts)
    ensures FinishLogin(u, "tok", o).result == LoginResult(None, Some(NotFound("b")))
  {
    assert GetAPIUser(o.handshake).result == Ok(Unlocked(ApiUser("b", "bob"), "h"));
    assert HasUser(u.accounts, "b") == None;
    var a := AddNewUser(u, ApiUser("b", "bob"), "tok", "h", o.enrol);
    var after := a.users.accounts;
    assert after == [Account("a", "alice", [], false), Account("a", "alice", [], true)];
    assert !EqualFold("a", "b") by {
      assert FoldAscii("a"[0]) != FoldAscii("b"[0]);
    }
    assert !Matches(after[0], "b") && !Matches(after[1], "b");
    assert GetUser(after, "b") == Err(NotFound("b"));
    var s := LoginSteps(u, "tok", o);
    assert s.users == a.users && s.result == LoginResult(None, Some(NotFound("b")));
  }

  /**
   * A successful login under `SameIdentity` hands back the connected account
   * with the remote user's ID, provided no other account's username or
   * address folds to that ID (the final lookup is a case-folded `GetUser`).
   */
  lemma FinishLoginReturnsLoggedInAccount(u: Users, auth: Token, o: LoginOracle)
    requires NotCrashing(o) && SameIdentity(o) && Valid(u)
    requires o.handshake.user.Ok?
    requires forall j :: 0 <= j < |u.accounts| && u.accounts[j].id != o.handshake.user.value.id ==>
      !Matches(u.accounts[j], o.handshake.user.value.id)
    requires FinishLogin(u, auth, o).result.err.None?
    ensures FinishLogin(u, auth, o).result.user.value.id == o.handshake.user.value.id
    ensures FinishLogin(u, auth, o).result.user.value.connected
  {
    var id := o.handshake.user.value.id;
    var got := GetAPIUser(o.handshake);
    var after := FinishLogin(u, auth, o).users.accounts;
    match HasUser(u.accounts, id)
    case Some(i) =>
      var c := ConnectExistingUser(u, i, auth, got.result.value.hashed, o.reconnect);
      assert after == c.users.accounts;
      forall j | 0 <= j < i ensures !Matches(after[j], id) {
        assert after[j] == u.accounts[j];
      }
      GetUserById(after, id, i);
    case None =>
      var a := AddNewUser(u, got.result.value.user, auth, got.result.value.hashed, o.enrol);
      assert after == a.users.accounts;
      var n := |u.accounts|;
      forall j | 0 <= j < n ensures !Matches(after[j], id) {
        assert after[j] == u.accounts[j];
      }
      GetUserById(after, id, n);
  }
}
