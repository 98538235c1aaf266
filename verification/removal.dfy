/** Account removal (`DeleteUser`) and bulk cleanup (`ClearData`). */
module Removal {
  import opened Wrappers
  import opened Accounts
  import opened Lookup

  /** Outcomes of the account's logout, store close, store clear, and the credential `Delete`. */
  datatype Teardown = Teardown(logout: Outcome<Error>, close: Outcome<Error>, clear: Outcome<Error>, delete: Outcome<Error>)

  /**
   * `DeleteUser`: for the first account with that exact ID, logs out, closes
   * and (only when asked) clears its store whatever those return, then
   * deletes its credential record. Only a failed `Delete` aborts, with the
   * account still listed; otherwise exactly that index is spliced out.
   */
  function DeleteUser(u: Users, id: UserId, clearStore: bool, o: Teardown): (r: Step<Option<Error>>)
    ensures !Listed(u.accounts, id) ==> r == Step(u, Some(NotFound(id)), [])
    ensures Listed(u.accounts, id) ==> r.result == if o.delete.Fail? then Some(o.delete.error) else None
    ensures r.result.None? ==>
      exists i :: IsFirstWithId(u.accounts, id, i) && r.users.accounts == u.accounts[..i] + u.accounts[i + 1..]
    ensures r.result.None? ==> r.users.credentials == u.credentials - {id}
    ensures r.result.Some? ==> SameRoster(u.accounts, r.users.accounts) && r.users.credentials == u.credentials
    ensures r.users.appOutdated == u.appOutdated
    ensures DeleteCredentials(id) in r.trace <==> Listed(u.accounts, id)
    ensures ClearStore(id) in r.trace <==> Listed(u.accounts, id) && clearStore
    ensures Listed(u.accounts, id) ==>
      r.trace == [Logout(id), CloseStore(id)] + (if clearStore then [ClearStore(id)] else []) + [DeleteCredentials(id)]
    ensures r.result.Some? && Listed(u.accounts, id) ==>
      exists i :: IsFirstWithId(u.accounts, id, i) && r.users.accounts == u.accounts[i := Disconnect(u.accounts[i], o.logout)]
  {
    match HasUser(u.accounts, id)
    case None => Step(u, Some(NotFound(id)), [])
    case Some(i) =>
      var loggedOut := u.accounts[i := Disconnect(u.accounts[i], o.logout)];
      var trace := [Logout(id), CloseStore(id)] + (if clearStore then [ClearStore(id)] else []) + [DeleteCredentials(id)];
      if o.delete.Fail? then
        Step(u.(accounts := loggedOut), Some(o.delete.error), trace)
      else
        Step(u.(accounts := loggedOut[..i] + loggedOut[i + 1..], credentials := u.credentials - {id}), None, trace)
  }

  /** Outcomes of one account's logout and store close during `ClearData`. */
  datatype Shutdown = Shutdown(logout: Outcome<Error>, close: Outcome<Error>)

  function ShutdownErrors(s: Shutdown): seq<Error> {
    (if s.logout.Fail? then [s.logout.error] else []) + (if s.close.Fail? then [s.close.error] else [])
  }

  /** Every failure of the per-account steps, in the order they happened. */
  function Failures(steps: seq<Shutdown>): (errs: seq<Error>)
    ensures |errs| == 0 <==> forall k :: 0 <= k < |steps| ==> steps[k].logout.Pass? && steps[k].close.Pass?
  {
    if |steps| == 0 then []
    else Failures(steps[..|steps| - 1]) + ShutdownErrors(steps[|steps| - 1])
  }

  /** The calls `ClearData` makes per account: every account is logged out and then its store closed. */
  function ShutdownCalls(accounts: seq<Account>): seq<Effect> {
    if |accounts| == 0 then []
    else
      var n := |accounts| - 1;
      ShutdownCalls(accounts[..n]) + [Logout(accounts[n].id), CloseStore(accounts[n].id)]
  }

  /** No account is skipped: the k-th account is logged out at call 2k and its store closed at call 2k+1. */
  lemma {:induction false} ShutdownVisitsEveryAccount(accounts: seq<Account>)
    ensures |ShutdownCalls(accounts)| == 2 * |accounts|
    ensures forall k :: 0 <= k < |accounts| ==>
      ShutdownCalls(accounts)[2 * k] == Logout(accounts[k].id) && ShutdownCalls(accounts)[2 * k + 1] == CloseStore(accounts[k].id)
  {
    if |accounts| > 0 {
      var n := |accounts| - 1;
      ShutdownVisitsEveryAccount(accounts[..n]);
      var before := ShutdownCalls(accounts[..n]);
      assert ShutdownCalls(accounts) == before + [Logout(accounts[n].id), CloseStore(accounts[n].id)];
      forall k | 0 <= k < |accounts|
        ensures ShutdownCalls(accounts)[2 * k] == Logout(accounts[k].id)
        ensures ShutdownCalls(accounts)[2 * k + 1] == CloseStore(accounts[k].id)
      {
        if k < n {
          assert accounts[..n][k] == accounts[k];
        }
      }
    }
  }

  /** One more account extends both the collected failures and the calls by that account's part. */
  lemma ShutdownPrefix(accounts: seq<Account>, steps: seq<Shutdown>, k: nat)
    requires k < |accounts| && k < |steps|
    ensures Failures(steps[..k + 1]) == Failures(steps[..k]) + ShutdownErrors(steps[k])
    ensures ShutdownCalls(accounts[..k + 1]) == ShutdownCalls(accounts[..k]) + [Logout(accounts[k].id), CloseStore(accounts[k].id)]
  {
    assert steps[..k + 1][..k] == steps[..k];
    assert accounts[..k + 1][..k] == accounts[..k];
  }

  /** One account's part of `ClearData`: log out, then close the store, keeping every error. */
  method ShutdownAccount(user: Account, s: Shutdown) returns (after: Account, errs: seq<Error>, calls: seq<Effect>)
    ensures after == Disconnect(user, s.logout)
    ensures errs == ShutdownErrors(s)
    ensures calls == [Logout(user.id), CloseStore(user.id)]
  {
    after := user;
    errs := [];
    calls := [Logout(user.id)];
    if s.logout.Fail? {
      errs := errs + [s.logout.error];
    } else {
      after := user.(connected := false);
    }
    calls := calls + [CloseStore(user.id)];
    if s.close.Fail? {
      errs := errs + [s.close.error];
    }
  }

  /**
   * `ClearData`: logs out and closes every account whatever fails, then
   * clears the configuration; returns every failure, in order, as one
   * aggregate, or nothing when all succeeded. The list keeps its accounts.
   */
  method ClearData(u: Users, steps: seq<Shutdown>, config: Outcome<Error>) returns (r: Step<Option<Error>>)
    requires |steps| == |u.accounts|
    ensures var errs := Failures(steps) + (if config.Fail? then [config.error] else []);
      r.result == if |errs| == 0 then None else Some(Multi(errs))
    ensures r.result.None? <==> config.Pass? && forall k :: 0 <= k < |steps| ==> steps[k].logout.Pass? && steps[k].close.Pass?
    ensures r.trace == ShutdownCalls(u.accounts) + [ClearConfig]
    ensures |r.users.accounts| == |u.accounts|
    ensures forall k :: 0 <= k < |u.accounts| ==> r.users.accounts[k] == Disconnect(u.accounts[k], steps[k].logout)
    ensures r.users.credentials == u.credentials && r.users.appOutdated == u.appOutdated
  {
    var errs: seq<Error> := [];
    var accounts := u.accounts;
    var trace := [];
    for k := 0 to |u.accounts|
      invariant errs == Failures(steps[..k])
      invariant trace == ShutdownCalls(u.accounts[..k])
      invariant |accounts| == |u.accounts|
      invariant forall j :: 0 <= j < k ==> accounts[j] == Disconnect(u.accounts[j], steps[j].logout)
      invariant forall j :: k <= j < |u.accounts| ==> accounts[j] == u.accounts[j]
    {
      ShutdownPrefix(u.accounts, steps, k);
      var after, failed, calls := ShutdownAccount(accounts[k], steps[k]);
      accounts := accounts[k := after];
      errs := errs + failed;
      trace := trace + calls;
    }
    assert steps[..|steps|] == steps;
    assert u.accounts[..|u.accounts|] == u.accounts;
    trace := trace + [ClearConfig];
    if config.Fail? {
      errs := errs + [config.error];
    }
    assert errs == Failures(steps) + (if config.Fail? then [config.error] else []);
    var result := if |errs| == 0 then None else Some(Multi(errs));
    return Step(u.(accounts := accounts), result, trace);
  }
}
