/** Account lookup: `GetUser` (case-folded, ID/username/address) and `hasUser` (exact ID). */
module Lookup {
  import opened Wrappers
  import opened Accounts

  /** The query that makes the source panic on purpose (a fault-injection hook). */
  const CrashQuery: string := "crash@bandicoot"

  /** ASCII case folding; stands for the Unicode simple folding of `strings.EqualFold`. */
  function FoldAscii(c: char): (f: char)
    ensures 'A' <= c <= 'Z' ==> 'a' <= f <= 'z'
    ensures !('A' <= c <= 'Z') ==> f == c
  {
    if 'A' <= c <= 'Z' then (c as int + 32) as char else c
  }

  predicate EqualFold(a: string, b: string) {
    |a| == |b| && forall k :: 0 <= k < |a| ==> FoldAscii(a[k]) == FoldAscii(b[k])
  }

  /** The query names the account: its ID, its username or one of its addresses, up to case. */
  predicate Matches(a: Account, query: string) {
    || EqualFold(a.id, query)
    || EqualFold(a.username, query)
    || exists k :: 0 <= k < |a.addresses| && EqualFold(a.addresses[k], query)
  }

  predicate IsFirstMatch(accounts: seq<Account>, query: string, i: int) {
    && 0 <= i < |accounts|
    && Matches(accounts[i], query)
    && forall j :: 0 <= j < i ==> !Matches(accounts[j], query)
  }

  /** The earliest account in list order that the query names. */
  function FirstMatch(accounts: seq<Account>, query: string): (r: Option<nat>)
    ensures r.Some? ==> IsFirstMatch(accounts, query, r.value)
    ensures r.None? <==> forall j :: 0 <= j < |accounts| ==> !Matches(accounts[j], query)
  {
    if |accounts| == 0 then None
    else if Matches(accounts[0], query) then Some(0)
    else match FirstMatch(accounts[1..], query)
      case None => None
      case Some(k) => Some(k + 1)
  }

  /** `GetUser`: the first account the query names, or a "not found" error. */
  function GetUser(accounts: seq<Account>, query: string): (r: Result<Account, Error>)
    requires query != CrashQuery
    ensures r.Ok? <==> exists i :: 0 <= i < |accounts| && Matches(accounts[i], query)
    ensures r.Ok? ==> exists i :: IsFirstMatch(accounts, query, i) && r.value == accounts[i]
    ensures r.Err? ==> r.error == NotFound(query)
  {
    match FirstMatch(accounts, query)
    case Some(i) => Ok(accounts[i])
    case None => Err(NotFound(query))
  }

  /** Only the first match satisfies `IsFirstMatch`. */
  lemma FirstMatchUnique(accounts: seq<Account>, query: string, i: int, j: int)
    requires IsFirstMatch(accounts, query, i) && IsFirstMatch(accounts, query, j)
    ensures i == j
  {
  }

  /**
   * The scan `GetUser` performs: accounts in order, for each the ID and the
   * username first, then its addresses in order; returns on the first hit.
   */
  method ScanUsers(accounts: seq<Account>, query: string) returns (r: Result<Account, Error>)
    requires query != CrashQuery
    ensures r == GetUser(accounts, query)
  {
    var i := 0;
    while i < |accounts|
      invariant 0 <= i <= |accounts|
      invariant forall j :: 0 <= j < i ==> !Matches(accounts[j], query)
    {
      var user := accounts[i];
      if EqualFold(user.id, query) || EqualFold(user.username, query) {
        FirstMatchUnique(accounts, query, i, FirstMatch(accounts, query).value);
        return Ok(user);
      }
      var k := 0;
      while k < |user.addresses|
        invariant 0 <= k <= |user.addresses|
        invariant forall m :: 0 <= m < k ==> !EqualFold(user.addresses[m], query)
      {
        if EqualFold(user.addresses[k], query) {
          FirstMatchUnique(accounts, query, i, FirstMatch(accounts, query).value);
          return Ok(user);
        }
        k := k + 1;
      }
      i := i + 1;
    }
    return Err(NotFound(query));
  }

  predicate IsFirstWithId(accounts: seq<Account>, id: UserId, i: int) {
    && 0 <= i < |accounts|
    && accounts[i].id == id
    && forall j :: 0 <= j < i ==> accounts[j].id != id
  }

  /** `hasUser`: the index of the first account whose ID is exactly `id`. */
  function HasUser(accounts: seq<Account>, id: UserId): (r: Option<nat>)
    ensures r.Some? ==> IsFirstWithId(accounts, id, r.value)
    ensures r.None? <==> !Listed(accounts, id)
  {
    if |accounts| == 0 then None
    else if accounts[0].id == id then Some(0)
    else match HasUser(accounts[1..], id)
      case None => None
      case Some(k) => Some(k + 1)
  }

  /**
   * Looking an account up by its own ID with `GetUser` yields that account
   * provided no earlier account's ID, username or address folds to the same
   * string (`GetUser` also compares usernames and addresses, up to case).
   */
  lemma {:induction false} GetUserById(accounts: seq<Account>, id: UserId, i: nat)
    requires id != CrashQuery
    requires IsFirstWithId(accounts, id, i)
    requires forall j :: 0 <= j < i ==> !Matches(accounts[j], id)
    ensures GetUser(accounts, id) == Ok(accounts[i])
  {
    assert EqualFold(accounts[i].id, id);
    assert IsFirstMatch(accounts, id, i);
    FirstMatchUnique(accounts, id, i, FirstMatch(accounts, id).value);
  }
}
