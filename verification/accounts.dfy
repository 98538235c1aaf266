/**
 * The data model of the multi-account session manager (`Users` in
 * internal/users/users.go): the accounts it keeps, the errors it returns and
 * the side effects it performs on its collaborators.
 */
module Accounts {
  import opened Wrappers

  type UserId = string
  type Token = string

  /**
   * One known account. `connected` stands for `User.IsConnected`; the
   * username and addresses are the ones recorded in the credential store.
   */
  datatype Account = Account(id: UserId, username: string, addresses: seq<string>, connected: bool)

  /**
   * The manager's state: the ordered account list, the identifiers that have
   * a record in the credential store, and the process-wide "application is
   * outdated" flag.
   */
  datatype Users = Users(accounts: seq<Account>, credentials: set<UserId>, appOutdated: bool)

  /** The context string each `errors.Wrap` call site adds. */
  datatype Context =
    | UpdatePasswordFailed
    | RefreshExistingFailed
    | UpdateTokenFailed
    | InitFailed
    | RefreshNewFailed
    | UpdateApiUserFailed
    | AddCredentialsFailed
    | CreateUserFailed

  datatype Error =
    | UpgradeApplication                      // the API's distinguished "upgrade required" sentinel
    | AlreadyConnected                        // connectExistingUser on a connected account
    | NotFound(query: string)                 // GetUser / DeleteUser miss
    | Remote(code: nat)                       // any other failure of a foreign collaborator
    | Wrapped(context: Context, cause: Error) // errors.Wrap: no longer equal to its cause
    | Multi(errors: seq<Error>)               // a multierror aggregate

  /** Calls on collaborators, in the order the manager makes them. */
  datatype Effect =
    | ListCredentials
    | NewUser(id: UserId)
    | Init(id: UserId)
    | AuthSalt
    | HashPassphrase
    | Unlock(hashed: string)
    | FetchUser
    | UpdatePassword(id: UserId, hashed: string)
    | AuthRefresh(id: UserId, token: Token)
    | UpdateToken(id: UserId, token: Token)
    | RefetchUser(id: UserId)
    | AddCredentials(id: UserId, name: string, token: Token, hashed: string, emails: seq<string>)
    | EmitUserRefresh(id: UserId)
    | EmitUpgrade
    | DeleteAuth
    | HandshakeLogout
    | Logout(id: UserId)         // the exported `User.Logout`
    | SessionLogout(id: UserId)  // the internal `User.logout` the auth watcher calls
    | CloseStore(id: UserId)
    | ClearStore(id: UserId)
    | DeleteCredentials(id: UserId)
    | ClearConfig
    | UpdateAuthToken(id: UserId, token: Token)
    | CloseAllConnections(id: UserId)

  /** What one atomic entry point leaves behind. */
  datatype Step<R> = Step(users: Users, result: R, trace: seq<Effect>)

  /** What a stateless helper returns. */
  datatype Traced<R> = Traced(result: R, trace: seq<Effect>)

  function Ids(accounts: seq<Account>): (ids: seq<UserId>)
    ensures |ids| == |accounts|
    ensures forall i :: 0 <= i < |accounts| ==> ids[i] == accounts[i].id
  {
    seq(|accounts|, i requires 0 <= i < |accounts| => accounts[i].id)
  }

  /** Appending an account appends its ID. */
  lemma IdsAppend(accounts: seq<Account>, added: Account)
    ensures Ids(accounts + [added]) == Ids(accounts) + [added.id]
  {
    assert forall i :: 0 <= i < |accounts| ==> (accounts + [added])[i] == accounts[i];
  }

  /** Some account in the list has this exact identifier. */
  predicate Listed(accounts: seq<Account>, id: UserId) {
    exists j :: 0 <= j < |accounts| && accounts[j].id == id
  }

  /** At most one account per identifier. */
  predicate DistinctIds(accounts: seq<Account>) {
    forall i, j :: 0 <= i < j < |accounts| ==> accounts[i].id != accounts[j].id
  }

  /** The in-memory list reflects the credential store: every listed account has a record. */
  predicate Reflected(u: Users) {
    forall i :: 0 <= i < |u.accounts| ==> u.accounts[i].id in u.credentials
  }

  predicate Valid(u: Users) {
    DistinctIds(u.accounts) && Reflected(u)
  }

  /** `after` keeps the accounts of `before`, in order, except that their connection flag may differ. */
  predicate SameRoster(before: seq<Account>, after: seq<Account>) {
    && |after| == |before|
    && forall k :: 0 <= k < |before| ==> after[k] == before[k].(connected := after[k].connected)
  }

  function Disconnect(a: Account, logout: Outcome<Error>): (b: Account)
    ensures b == a.(connected := b.connected)
    ensures b.connected <==> a.connected && logout.Fail?
  {
    if logout.Pass? then a.(connected := false) else a
  }
}
