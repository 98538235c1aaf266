/**
 * The manager's list invariant (`Accounts.Valid`: distinct IDs, each backed
 * by a credential record) and the operations that keep it.
 */
module Invariants {
  import opened Wrappers
  import opened Accounts
  import opened Startup
  import opened Watchers
  import opened Lookup
  import opened Removal

  /** Changing only connection flags keeps the invariant (reconnect, logout, `ClearData`, watchers). */
  lemma SameRosterKeepsValid(u: Users, v: Users)
    requires Valid(u)
    requires SameRoster(u.accounts, v.accounts) && v.credentials == u.credentials
    ensures Valid(v)
  {
    forall i, j | 0 <= i < j < |v.accounts| ensures v.accounts[i].id != v.accounts[j].id {
      assert v.accounts[i].id == u.accounts[i].id && v.accounts[j].id == u.accounts[j].id;
    }
    forall i | 0 <= i < |v.accounts| ensures v.accounts[i].id in v.credentials {
      assert v.accounts[i].id == u.accounts[i].id;
    }
  }

  /** Appending an account whose ID is new and recorded keeps the invariant (`addNewUser`). */
  lemma AppendFreshKeepsValid(u: Users, v: Users, added: Account)
    requires Valid(u)
    requires v.accounts == u.accounts + [added]
    requires !Listed(u.accounts, added.id)
    requires v.credentials == u.credentials + {added.id}
    ensures Valid(v)
  {
  }

  /**
   * Loading keeps the invariant when the listed IDs are distinct, come from
   * the credential store and are not listed yet (at start-up the list is empty).
   */
  lemma LoadPreservesValid(u: Users, entries: seq<Stored>)
    requires Valid(u)
    requires forall i, j :: 0 <= i < j < |entries| ==> entries[i].id != entries[j].id
    requires forall k :: 0 <= k < |entries| ==> entries[k].id in u.credentials
    requires forall k :: 0 <= k < |entries| ==> !Listed(u.accounts, entries[k].id)
    ensures Valid(u.(accounts := u.accounts + Loaded(entries)))
  {
    LoadedDistinct(entries);
    var added := Loaded(entries);
    var all := u.accounts + added;
    forall i | 0 <= i < |added|
      ensures added[i].id in u.credentials
      ensures !Listed(u.accounts, added[i].id)
    {
      var k :| 0 <= k < |entries| && entries[k].id == added[i].id;
    }
  }

  /** An auth update keeps the invariant. */
  lemma AuthUpdatePreservesValid(u: Users, ev: AuthEvent, logout: Outcome<Error>)
    requires Valid(u)
    ensures Valid(OnAuthUpdate(u, ev, logout).users)
  {
    SameRosterKeepsValid(u, OnAuthUpdate(u, ev, logout).users);
  }

  /** Splicing out an account and dropping its ID from the credential store keeps the invariant, and the ID is gone. */
  lemma SpliceKeepsValid(u: Users, i: nat)
    requires Valid(u) && i < |u.accounts|
    ensures var v := u.(accounts := u.accounts[..i] + u.accounts[i + 1..], credentials := u.credentials - {u.accounts[i].id});
      Valid(v) && !Listed(v.accounts, u.accounts[i].id)
  {
    var id := u.accounts[i].id;
    var after := u.accounts[..i] + u.accounts[i + 1..];
    forall j | 0 <= j < |after| ensures after[j].id != id && after[j].id in u.credentials {
      if j < i {
        assert after[j] == u.accounts[j];
      } else {
        assert after[j] == u.accounts[j + 1];
      }
    }
    forall j, k | 0 <= j < k < |after| ensures after[j].id != after[k].id {
      var j' := if j < i then j else j + 1;
      var k' := if k < i then k else k + 1;
      assert after[j] == u.accounts[j'] && after[k] == u.accounts[k'];
    }
  }

  /** Deletion keeps the invariant, and a successful one leaves no account with that ID. */
  lemma DeleteUserPreservesValid(u: Users, id: UserId, clearStore: bool, o: Teardown)
    requires Valid(u)
    ensures Valid(DeleteUser(u, id, clearStore, o).users)
    ensures DeleteUser(u, id, clearStore, o).result.None? ==> !Listed(DeleteUser(u, id, clearStore, o).users.accounts, id)
  {
    var r := DeleteUser(u, id, clearStore, o);
    match HasUser(u.accounts, id)
    case None =>
    case Some(i) =>
      if o.delete.Fail? {
        SameRosterKeepsValid(u, r.users);
      } else {
        SpliceKeepsValid(u, i);
      }
  }
}
