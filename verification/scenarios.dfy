/**
 * The login scenarios of internal/bridge/bridge_login_test.go, stated for
 * every passphrase hash and token the collaborators may produce.
 */
module Scenarios {
  import opened Wrappers
  import opened Accounts
  import opened Lookup
  import opened Login

  /** A wrong mailbox passphrase: unlock fails, the session is deleted, the handshake client logged out, nothing else. */
  lemma BadMailboxPassword(u: Users, auth: Token, h: string, e: Error, o: LoginOracle)
    requires e != UpgradeApplication
    requires o.handshake == Handshake(Pass, Ok(h), Fail(e), Err(Remote(0)))
    ensures FinishLogin(u, auth, o).users == u
    ensures FinishLogin(u, auth, o).result == LoginResult(None, Some(e))
    ensures FinishLogin(u, auth, o).trace == [AuthSalt, HashPassphrase, Unlock(h), DeleteAuth, HandshakeLogout]
  {
    var s := LoginSteps(u, auth, o);
    assert s == Step(u, LoginResult(None, Some(e)), [AuthSalt, HashPassphrase, Unlock(h)]);
    assert Deferred(Some(e)) == [DeleteAuth, HandshakeLogout];
  }

  /** Unlock reports that the application must be upgraded: the upgrade event comes first, then the cleanup. */
  lemma UpgradeDuringUnlock(u: Users, auth: Token, h: string, o: LoginOracle)
    requires o.handshake == Handshake(Pass, Ok(h), Fail(UpgradeApplication), Err(Remote(0)))
    ensures FinishLogin(u, auth, o).users == u
    ensures FinishLogin(u, auth, o).result == LoginResult(None, Some(UpgradeApplication))
    ensures FinishLogin(u, auth, o).trace == [AuthSalt, HashPassphrase, Unlock(h), EmitUpgrade, DeleteAuth, HandshakeLogout]
  {
    assert LoginSteps(u, auth, o).trace == [AuthSalt, HashPassphrase, Unlock(h)];
  }

  /** The mocked handshake unlocks "user" with the calls in the tests' order. */
  lemma UnlocksUser(h: string, handshake: Handshake)
    requires handshake == Handshake(Pass, Ok(h), Pass, Ok(ApiUser("user", "username")))
    ensures GetAPIUser(handshake) == Traced(Ok(Unlocked(ApiUser("user", "username"), h)), [AuthSalt, HashPassphrase, Unlock(h), FetchUser])
  {
  }

  /** Enrolling "user" into the empty manager with every step passing. */
  lemma EnrolsUser(auth: Token, h: string, t: Token, e: Enrol)
    requires e == Enrol(Ok(t), Ok(ApiUser("user", "username")), ["a@x"], Pass, Pass, Pass)
    ensures AddNewUser(Users([], {}, false), ApiUser("user", "username"), auth, h, e)
         == Step(Users([Account("user", "username", ["a@x"], true)], {"user"}, false), None,
                 [AuthRefresh("user", auth), RefetchUser("user"),
                  AddCredentials("user", "username", t, h, ["a@x"]), NewUser("user"), Init("user")])
  {
  }

  /** Reconnecting the disconnected "user" with every step passing. */
  lemma ReconnectsUser(auth: Token, h: string, t: Token, o: Reconnect)
    requires o == Reconnect(Pass, Ok(t), Pass, Pass)
    ensures var u := Users([Account("user", "username", ["a@x"], false)], {"user"}, false);
      ConnectExistingUser(u, 0, auth, h, o)
      == Step(u.(accounts := [Account("user", "username", ["a@x"], true)]), None,
              [UpdatePassword("user", h), AuthRefresh("user", auth), UpdateToken("user", t), Init("user")])
  {
  }

  /**
   * First login of "user" on an empty list: the account is stored, appended
   * and connected, the refresh event follows, the handshake client is logged
   * out last, and the account can be found by its address.
   */
  lemma NewUserOnEmptyList(auth: Token, h: string, t: Token, o: LoginOracle)
    requires o.handshake == Handshake(Pass, Ok(h), Pass, Ok(ApiUser("user", "username")))
    requires o.enrol == Enrol(Ok(t), Ok(ApiUser("user", "username")), ["a@x"], Pass, Pass, Pass)
    ensures var added := Account("user", "username", ["a@x"], true);
      var r := FinishLogin(Users([], {}, false), auth, o);
      && r.users == Users([added], {"user"}, false)
      && r.result == LoginResult(Some(added), None)
      && r.trace == [AuthSalt, HashPassphrase, Unlock(h), FetchUser,
                     AuthRefresh("user", auth), RefetchUser("user"),
                     AddCredentials("user", "username", t, h, ["a@x"]), NewUser("user"), Init("user"),
                     EmitUserRefresh("user"), HandshakeLogout]
      && GetUser(r.users.accounts, "a@x") == Ok(added)
  {
    var added := Account("user", "username", ["a@x"], true);
    var u := Users([], {}, false);
    var got := GetAPIUser(o.handshake);
    UnlocksUser(h, o.handshake);
    assert HasUser(u.accounts, "user") == None;
    var a := AddNewUser(u, ApiUser("user", "username"), auth, h, o.enrol);
    EnrolsUser(auth, h, t, o.enrol);
    FoundByIdAndAddress(added);
    var s := LoginSteps(u, auth, o);
    assert s == Refreshed(a.users, "user", got.trace + a.trace);
    assert Deferred(None) == [HandshakeLogout];
    var r := FinishLogin(u, auth, o);
    assert r == Step(s.users, s.result, s.trace + [HandshakeLogout]);
    assert r.users == Users([added], {"user"}, false);
    assert r.result == LoginResult(Some(added), None);
  }

  lemma FoundByIdAndAddress(added: Account)
    requires added == Account("user", "username", ["a@x"], true)
    ensures GetUser([added], "user") == Ok(added)
    ensures GetUser([added], "a@x") == Ok(added)
  {
    assert EqualFold(added.id, "user");
    assert EqualFold(added.addresses[0], "a@x");
  }

  /**
   * A known but disconnected "user" logs in again: password and token are
   * stored, the account is initialised in place, and the list keeps its one entry.
   */
  lemma ExistingDisconnectedUser(auth: Token, h: string, t: Token, o: LoginOracle)
    requires o.handshake == Handshake(Pass, Ok(h), Pass, Ok(ApiUser("user", "username")))
    requires o.reconnect == Reconnect(Pass, Ok(t), Pass, Pass)
    ensures var u := Users([Account("user", "username", ["a@x"], false)], {"user"}, false);
      var r := FinishLogin(u, auth, o);
      && r.users == u.(accounts := [Account("user", "username", ["a@x"], true)])
      && r.result == LoginResult(Some(Account("user", "username", ["a@x"], true)), None)
      && r.trace == [AuthSalt, HashPassphrase, Unlock(h), FetchUser,
                     UpdatePassword("user", h), AuthRefresh("user", auth), UpdateToken("user", t), Init("user"),
                     EmitUserRefresh("user"), HandshakeLogout]
  {
    var u := Users([Account("user", "username", ["a@x"], false)], {"user"}, false);
    var connected := Account("user", "username", ["a@x"], true);
    var got := GetAPIUser(o.handshake);
    UnlocksUser(h, o.handshake);
    assert HasUser(u.accounts, "user") == Some(0);
    var c := ConnectExistingUser(u, 0, auth, h, o.reconnect);
    ReconnectsUser(auth, h, t, o.reconnect);
    FoundByIdAndAddress(connected);
    var s := LoginSteps(u, auth, o);
    assert s == Refreshed(c.users, "user", got.trace + c.trace);
    assert Deferred(None) == [HandshakeLogout];
    var r := FinishLogin(u, auth, o);
    assert r == Step(s.users, s.result, s.trace + [HandshakeLogout]);
    assert r.users == u.(accounts := [connected]);
    assert r.result == LoginResult(Some(connected), None);
  }

  /**
   * Logging in again as the already connected "user" is refused with the
   * account and the error; only the handshake calls and the cleanup happen.
   */
  lemma ConnectedUserRefused(auth: Token, h: string, o: LoginOracle)
    requires o.handshake == Handshake(Pass, Ok(h), Pass, Ok(ApiUser("user", "username")))
    ensures var u := Users([Account("user", "username", ["a@x"], true)], {"user"}, false);
      var r := FinishLogin(u, auth, o);
      && r.users == u
      && r.result == LoginResult(Some(Account("user", "username", ["a@x"], true)), Some(AlreadyConnected))
      && r.trace == [AuthSalt, HashPassphrase, Unlock(h), FetchUser, DeleteAuth, HandshakeLogout]
  {
    var u := Users([Account("user", "username", ["a@x"], true)], {"user"}, false);
    var got := GetAPIUser(o.handshake);
    UnlocksUser(h, o.handshake);
    assert HasUser(u.accounts, "user") == Some(0);
    var c := ConnectExistingUser(u, 0, auth, h, o.reconnect);
    assert c == Step(u, Some(AlreadyConnected), []);
    var s := LoginSteps(u, auth, o);
    assert s == Step(u, LoginResult(Some(u.accounts[0]), Some(AlreadyConnected)), got.trace);
    assert Deferred(Some(AlreadyConnected)) == [DeleteAuth, HandshakeLogout];
  }
}
