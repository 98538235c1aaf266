/**
 * Start-up load (`loadUsersFromCredentialsStore`): every ID the credential
 * store lists becomes an account unless building it fails; an account whose
 * `init` fails is kept, disconnected.
 */
module Startup {
  import opened Wrappers
  import opened Accounts

  /** The username and addresses `newUser` reads from an account's credential record. */
  datatype Profile = Profile(username: string, addresses: seq<string>)

  /** One listed ID with the outcomes of `newUser` (building the account) and `init`. */
  datatype Stored = Stored(id: UserId, profile: Result<Profile, Error>, init: Outcome<Error>)

  function FromStored(e: Stored): (a: Account)
    requires e.profile.Ok?
    ensures a.id == e.id && a.connected == e.init.Pass?
  {
    Account(e.id, e.profile.value.username, e.profile.value.addresses, e.init.Pass?)
  }

  /** The accounts a load appends: one per listed ID that could be built, in listed order. */
  function Loaded(entries: seq<Stored>): seq<Account> {
    if |entries| == 0 then []
    else
      var last := entries[|entries| - 1];
      Loaded(entries[..|entries| - 1]) + if last.profile.Ok? then [FromStored(last)] else []
  }

  /** The calls a load makes per listed ID: build it, and initialise it if it was built. */
  function LoadCalls(entries: seq<Stored>): seq<Effect> {
    if |entries| == 0 then []
    else
      var last := entries[|entries| - 1];
      LoadCalls(entries[..|entries| - 1]) + [NewUser(last.id)] + if last.profile.Ok? then [Init(last.id)] else []
  }

  /** One listed ID: build the account (skip it if that fails), append it, then initialise it. */
  method LoadOne(accounts: seq<Account>, e: Stored) returns (after: seq<Account>, calls: seq<Effect>)
    ensures after == accounts + if e.profile.Ok? then [FromStored(e)] else []
    ensures calls == [NewUser(e.id)] + if e.profile.Ok? then [Init(e.id)] else []
  {
    calls := [NewUser(e.id)];
    if e.profile.Err? {
      return accounts, calls;
    }
    var user := Account(e.id, e.profile.value.username, e.profile.value.addresses, false);
    after := accounts + [user];
    calls := calls + [Init(e.id)];
    if e.init.Pass? {
      after := after[|after| - 1 := user.(connected := true)];
    }
  }

  /**
   * `loadUsersFromCredentialsStore`: when `List` fails the list is untouched
   * and its error is returned; otherwise the built accounts are appended in
   * listed order and no error is returned, whatever failed per account.
   */
  method LoadUsersFromCredentialsStore(u: Users, listed: Result<seq<Stored>, Error>) returns (r: Step<Option<Error>>)
    ensures listed.Err? ==> r == Step(u, Some(listed.error), [ListCredentials])
    ensures listed.Ok? ==> r.result.None? && r.users == u.(accounts := u.accounts + Loaded(listed.value))
    ensures listed.Ok? ==> r.trace == [ListCredentials] + LoadCalls(listed.value)
  {
    if listed.Err? {
      return Step(u, Some(listed.error), [ListCredentials]);
    }
    var entries := listed.value;
    var accounts := u.accounts;
    var trace := [ListCredentials];
    for k := 0 to |entries|
      invariant accounts == u.accounts + Loaded(entries[..k])
      invariant trace == [ListCredentials] + LoadCalls(entries[..k])
    {
      assert entries[..k + 1][..k] == entries[..k];
      var added, calls := LoadOne(accounts, entries[k]);
      accounts := added;
      trace := trace + calls;
    }
    assert entries[..|entries|] == entries;
    return Step(u.(accounts := accounts), None, trace);
  }

  /** An account is loaded exactly when some listed ID with that record was built. */
  lemma {:induction false} LoadedMembership(entries: seq<Stored>, a: Account)
    ensures a in Loaded(entries) <==>
      exists k :: 0 <= k < |entries| && entries[k].profile.Ok? && FromStored(entries[k]) == a
  {
    if |entries| > 0 {
      var n := |entries| - 1;
      var prefix := entries[..n];
      LoadedMembership(prefix, a);
      if a in Loaded(entries) && !(a in Loaded(prefix)) {
        assert entries[n].profile.Ok? && FromStored(entries[n]) == a;
      }
      if exists k :: 0 <= k < |entries| && entries[k].profile.Ok? && FromStored(entries[k]) == a {
        var k :| 0 <= k < |entries| && entries[k].profile.Ok? && FromStored(entries[k]) == a;
        if k < n {
          assert prefix[k] == entries[k];
        }
      }
    }
  }

  /** Loading a prefix of the listed IDs yields a prefix of the accounts: list order is kept. */
  lemma {:induction false} LoadedKeepsOrder(entries: seq<Stored>, k: nat)
    requires k <= |entries|
    ensures Loaded(entries[..k]) <= Loaded(entries)
  {
    if k < |entries| {
      var n := |entries| - 1;
      assert entries[..n][..k] == entries[..k];
      LoadedKeepsOrder(entries[..n], k);
    } else {
      assert entries[..k] == entries;
    }
  }

  /** Listed IDs that are distinct yield accounts with distinct IDs. */
  lemma {:induction false} LoadedDistinct(entries: seq<Stored>)
    requires forall i, j :: 0 <= i < j < |entries| ==> entries[i].id != entries[j].id
    ensures DistinctIds(Loaded(entries))
    ensures forall i :: 0 <= i < |Loaded(entries)| ==> exists k :: 0 <= k < |entries| && entries[k].id == Loaded(entries)[i].id
  {
    if |entries| > 0 {
      var n := |entries| - 1;
      var prefix := entries[..n];
      LoadedDistinct(prefix);
      var before := Loaded(prefix);
      var after := Loaded(entries);
      forall i | 0 <= i < |after|
        ensures exists k :: 0 <= k < |entries| && entries[k].id == after[i].id
      {
        if i < |before| {
          var k :| 0 <= k < |prefix| && prefix[k].id == before[i].id;
          assert entries[k].id == after[i].id;
        } else {
          assert entries[n].id == after[i].id;
        }
      }
      forall i, j | 0 <= i < j < |after| ensures after[i].id != after[j].id {
        if j >= |before| {
          var k :| 0 <= k < |prefix| && prefix[k].id == before[i].id;
          assert entries[k].id != entries[n].id;
        }
      }
    }
  }
}
