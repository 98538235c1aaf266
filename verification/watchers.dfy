/** The per-event bodies of the two background watchers (`watchAPIAuths`, `watchAppOutdated`). */
module Watchers {
  import opened Wrappers
  import opened Accounts
  import opened Lookup

  /** An auth update from the client manager: a fresh token, or `None` for "session invalid". */
  datatype AuthEvent = AuthEvent(userId: UserId, auth: Option<Token>)

  /**
   * One auth update: ignored for an ID the manager does not list; a fresh
   * token is forwarded to the account; an invalidation logs the account out,
   * and a failing logout is swallowed. No account is added or removed.
   */
  function OnAuthUpdate(u: Users, ev: AuthEvent, logout: Outcome<Error>): (r: Step<()>)
    ensures !Listed(u.accounts, ev.userId) ==> r == Step(u, (), [])
    ensures ev.auth.Some? ==> r.users == u
    ensures SameRoster(u.accounts, r.users.accounts)
    ensures r.users.credentials == u.credentials && r.users.appOutdated == u.appOutdated
    ensures forall i :: IsFirstWithId(u.accounts, ev.userId, i) ==>
      && r.trace == (if ev.auth.Some? then [UpdateAuthToken(ev.userId, ev.auth.value)] else [SessionLogout(ev.userId)])
      && r.users.accounts == u.accounts[i := if ev.auth.Some? then u.accounts[i] else Disconnect(u.accounts[i], logout)]
  {
    match HasUser(u.accounts, ev.userId)
    case None => Step(u, (), [])
    case Some(i) =>
      if ev.auth.Some? then
        Step(u, (), [UpdateAuthToken(ev.userId, ev.auth.value)])
      else
        Step(u.(accounts := u.accounts[i := Disconnect(u.accounts[i], logout)]), (), [SessionLogout(ev.userId)])
  }

  /**
   * One "upgrade required" signal: the outdated flag is raised (it is never
   * lowered anywhere) and every account's connections are closed, in list
   * order; the accounts themselves stay.
   */
  method OnUpgradeRequired(u: Users) returns (r: Step<()>)
    ensures r.users == u.(appOutdated := true)
    ensures |r.trace| == |u.accounts|
    ensures forall k :: 0 <= k < |u.accounts| ==> r.trace[k] == CloseAllConnections(u.accounts[k].id)
  {
    var trace := [];
    for k := 0 to |u.accounts|
      invariant |trace| == k
      invariant forall j :: 0 <= j < k ==> trace[j] == CloseAllConnections(u.accounts[j].id)
    {
      trace := trace + [CloseAllConnections(u.accounts[k].id)];
    }
    return Step(u.(appOutdated := true), (), trace);
  }
}
