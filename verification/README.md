# Multi-account session manager (`Users`) — a Dafny model

This project models the account-list state machine of the bridge's
multi-account session manager, `internal/users/users.go`. The manager
holds three things:

- an ordered list of accounts;
- the set of account IDs in the credential store;
- the global "application outdated" flag.

Five pieces of logic change that state:

- the start-up load from the credential store;
- login completion (`FinishLogin` with `getAPIUser`, `connectExistingUser`, `addNewUser` and the deferred cleanup);
- lookup (`GetUser`, `hasUser`);
- removal (`DeleteUser`);
- bulk clean-up (`ClearData`) and the per-event bodies of the auth and upgrade watchers.

The model is functional. Each operation takes the state `Users(accounts, credentials, appOutdated)` as input. Every call into code the model cannot see is an argument holding an outcome chosen by the caller (`Pass`/`Fail(e)`, `Ok(v)`/`Err(e)`). That covers the remote API client, the credential store, `newUser`, `User.init`/`Logout`/`closeStore`/`clearStore`, the config and the passphrase hash. Each operation returns a `Step` with three parts:

- the new state;
- the Go result;
- the ordered trace of side effects it performed (calls out, events emitted).

Modules:

- `Wrappers` — `Option`, `Result`, `Outcome`.
- `Accounts` — `Account`, `Users`, errors, effects and the list invariant `Valid`.
  - An error wrapped with `errors.Wrap` is a distinct value `Wrapped(context, cause)`. This keeps Go's error identity: the deferred `err == ErrUpgradeApplication` check sees only unwrapped errors.
  - `Valid` means the IDs are distinct and every listed ID is in the credential store.
- `Attempts` — a reference semantics for Go's "do a step; on error, wrap it and return" chains: the calls made are the prefix up to and including the first failure, and the error is that failure's, wrapped with the step's context when it has one (`getAPIUser` returns its errors unwrapped).
- `Lookup` — `GetUser` and `hasUser`.
- `Login` — `getAPIUser`, `connectExistingUser`, `addNewUser`, `FinishLogin`.
- `LoginProperties` and `Sessions` — properties of login, one call and many calls.
- `Startup` — `loadUsersFromCredentialsStore`.
- `Removal` — `DeleteUser`, `ClearData`.
- `Watchers` — the per-event bodies of `watchAPIAuths` and `watchAppOutdated`.
- `Invariants` — preservation of `Valid`.
- `Scenarios` — the login tests of `internal/bridge/bridge_login_test.go`, replayed on concrete inputs.

The foreign `User` object is abstracted as an `Account`:

- its ID, username, addresses and `IsConnected` flag;
- a successful `init` makes it connected;
- a successful `logout`/`Logout` makes it disconnected;
- a failed call leaves the flag as it was.

## Model

| member | source | states |
|---|---|---|
| Attempts.FirstFailure | internal/users/users.go:258-276 | the index returned is the first failing step of a chain; none is returned exactly when every step passes |
| Attempts.Performed | internal/users/users.go:258-276 | the calls a chain makes form a prefix of all its calls, ending at the first failure when there is one |
| Attempts.FailsAt | internal/users/users.go:286-311 | if step k is the first to fail, the chain makes exactly the calls up to and including k and returns step k's error, wrapped with its context when it has one |
| Attempts.AllPass | internal/users/users.go:258-276 | if every step passes, the chain makes all its calls and returns no error |
| Accounts.Disconnect | internal/users/users.go:378-383 | after a logout the account is connected exactly when it was connected and the logout failed; identity, username and addresses are kept |
| Lookup.FirstMatch | internal/users/users.go:360-369 | the index found is the first account whose ID or username equals the query under case folding, or one of whose addresses does; none is found exactly when no account matches |
| Lookup.GetUser | internal/users/users.go:354-372 | returns an account exactly when one matches, and then it is the first match in list order; otherwise returns "user <query> not found"; the magic crash query is excluded by the precondition |
| Lookup.FirstMatchUnique | internal/users/users.go:360-369 | the first match in list order is unique |
| Lookup.ScanUsers | internal/users/users.go:360-371 | the nested loop over accounts and their addresses returns the same verdict as `GetUser` |
| Lookup.HasUser | internal/users/users.go:479-488 | finds the first account whose ID equals the query exactly, and finds none exactly when no account has that ID |
| Lookup.GetUserById | internal/users/users.go:246 | when no account before the first one with ID `id` matches `id` under folding, looking up `id` returns that account |
| Login.GetAPIUser | internal/users/users.go:318-343 | unlocking yields the current user and the hashed passphrase exactly when salt, hash, unlock and the user fetch all succeed; it never performs cleanup calls |
| Login.GetAPIUserFollowsAttempts | internal/users/users.go:318-343 | unlocking stops at the first failing step, and that step's error is returned unwrapped |
| Login.ConnectExistingUser | internal/users/users.go:250-277 | an already connected account is refused with "already connected" before any call, leaving everything unchanged; otherwise it succeeds exactly when all four steps pass; it never changes the list's length, order, IDs, names or addresses, nor the credential set; only the reconnected account becomes connected, and only on success |
| Login.ConnectFollowsAttempts | internal/users/users.go:258-276 | the effects run in the order update password, refresh, update token, init; they stop at the first failure, whose error is wrapped with that step's message |
| Login.AddNewUser | internal/users/users.go:280-316 | succeeds exactly when refresh, re-fetch, credential add, newUser and init all pass; on success the list becomes the old list plus the re-fetched account, connected; on any failure, including init after the append, the list is exactly the old one; the credential store gains the re-fetched ID exactly when refresh, re-fetch and add succeeded |
| Login.AddFollowsAttempts | internal/users/users.go:286-311 | the effects run in the order refresh, re-fetch, credential add, newUser, init; they stop at the first failure, whose error is wrapped with that step's message |
| Login.FinishLogin | internal/users/users.go:208-247 | every exit path ends with the handshake client's logout; no error implies an account is returned; the outdated flag is untouched |
| Login.DeferredTail | internal/users/users.go:209-221 | the deferred block adds one logout, one auth deletion exactly when there is an error, and the upgrade event exactly when the error is the upgrade error, in the order event, deletion, logout |
| Login.DeferredCalls | internal/users/users.go:209-221 | the deferred block alone makes one logout, last; one auth deletion, just before it, exactly on error; and one upgrade event, first, exactly on the bare upgrade error |
| Login.CleanupOnEveryPath | internal/users/users.go:209-221 | a login calls logout exactly once, deletes the auth session exactly when it fails, and emits the upgrade event exactly when its error is the upgrade error, in that order, at the end of the trace |
| LoginProperties.HandshakeFailureLeavesUsers | internal/users/users.go:223-227 | when unlocking fails, the login returns that error and no account, the state is unchanged, and the trace begins with the unlocking calls |
| LoginProperties.SuccessEmitsRefresh | internal/users/users.go:244-246 | a login without an error got past unlocking, and emits the refresh event for the remote user's ID just before the handshake logout |
| LoginProperties.UpgradeOnlyFromHandshake | internal/users/users.go:210-212 | the upgrade error can only reach the caller from unlocking (errors from later steps are wrapped), and then the state is unchanged |
| LoginProperties.AlreadyConnectedRefused | internal/users/users.go:231-236 | logging in to an account that is already connected leaves the state unchanged, returns that account with "already connected", and calls only the unlocking steps, the auth deletion and the logout |
| LoginProperties.ReconnectKeepsRoster | internal/users/users.go:232-236 | logging in to a listed account never changes the list's length, order, IDs, names or addresses, nor the credential set |
| LoginProperties.NewAccountAppendedOrRolledBack | internal/users/users.go:237-242 | logging in to an unlisted account appends the re-fetched account exactly when every enrolment step passes; otherwise the list is unchanged and an error is returned |
| LoginProperties.FinishLoginPreservesValid | internal/users/users.go:231-246 | distinct listed IDs that are all in the credential store stay so across a login, provided the re-fetched ID equals the handshake ID |
| LoginProperties.RefetchedIdentityMatters | internal/users/users.go:290-300 | without that proviso a login can list a duplicate ID and then fail the final lookup: a concrete example |
| LoginProperties.FinishLoginReturnsLoggedInAccount | internal/users/users.go:244-246 | when no other account matches the remote ID under folding, a successful login returns the connected account with that ID |
| Sessions.AdmittedOnlyCalled | internal/users/users.go:237-242 | an ID that no call names is never among the admitted ones |
| Sessions.FreshLogin | internal/users/users.go:237-242 | one login for an unlisted ID appends that ID exactly when unlocking and enrolment pass |
| Sessions.LastLogin | internal/users/users.go:237-242 | the last of several logins, for an ID not listed when it runs, extends the listed IDs by exactly what it adds to the admitted IDs |
| Sessions.NotYetListed | internal/users/users.go:479-488 | an ID that is neither listed at the start nor named by an earlier call is not found by `hasUser` |
| Sessions.DistinctLoginsAppendInOrder | internal/users/users.go:208-247 | logins for pairwise distinct new IDs leave the IDs of the start list followed by the IDs of the admitted logins, in call order |
| Startup.LoadUsersFromCredentialsStore | internal/users/users.go:107-133 | if listing fails, the error is returned and only the list call happens; otherwise the accounts built from the listed IDs are appended in listing order, IDs whose build fails are skipped, IDs whose init fails are kept disconnected, and each kept ID is built and then initialised |
| Startup.LoadOne | internal/users/users.go:116-130 | one listed ID: it is always built; when that fails nothing is appended and init is not called, otherwise the account is appended and initialised |
| Startup.FromStored | internal/users/users.go:125-129 | a loaded account has the stored ID, and is connected exactly when its init passed |
| Startup.LoadedMembership | internal/users/users.go:116-130 | an account is loaded exactly when its listed ID was built successfully |
| Startup.LoadedKeepsOrder | internal/users/users.go:116-125 | the accounts loaded from a prefix of the listing are a prefix of those loaded from the whole listing |
| Startup.LoadedDistinct | internal/users/users.go:116-125 | a listing without repeated IDs loads accounts with distinct IDs |
| Removal.DeleteUser | internal/users/users.go:393-427 | an unknown ID gives "not found" with no calls and no change; otherwise the calls are logout, store close, store clear only when asked, then the credential delete, in that order; logout, close and clear failures never abort, and the credential delete decides the result; on success exactly the first account with that ID is spliced out with the others kept in order, and the ID leaves the credential set; on failure the list is unchanged except that this account is logged out when its logout passed |
| Invariants.DeleteUserPreservesValid | internal/users/users.go:399-426 | deletion keeps IDs distinct and listed IDs in the credential store, and a successful deletion leaves the ID unlisted |
| Removal.Failures | internal/users/users.go:377-384 | the collected shutdown errors are empty exactly when every logout and close passed |
| Removal.ShutdownVisitsEveryAccount | internal/users/users.go:377-384 | clean-up calls logout and then close for each account in list order |
| Removal.ShutdownAccount | internal/users/users.go:377-384 | one account's part of clean-up: logout then close, keeping each error in order; the account becomes disconnected when the logout passed and keeps its flag otherwise |
| Removal.ClearData | internal/users/users.go:375-389 | every error from logout, close and the config clean-up is collected in order without stopping; the result is empty exactly when all passed; the config is cleared last; the list keeps its roster, and each account becomes disconnected when its logout passed and keeps its flag otherwise |
| Watchers.OnAuthUpdate | internal/users/users.go:159-171 | an auth for an unknown ID is ignored with no calls; a token is forwarded to the first account with that ID and changes no state; a missing token logs that account out through the internal `logout` (a call distinct from the exported `Logout`); the roster and credential set never change |
| Watchers.OnUpgradeRequired | internal/users/users.go:142-144 | the outdated flag becomes true, and every account's connections are closed in list order; every other operation keeps the flag as it was |
| Invariants.SameRosterKeepsValid | internal/users/users.go:250-277 | changing only connected flags keeps the list valid |
| Invariants.AppendFreshKeepsValid | internal/users/users.go:296-306 | appending an account with a new ID that is also added to the credential store keeps the list valid |
| Invariants.SpliceKeepsValid | internal/users/users.go:417-422 | splicing one account out and deleting its credential record keeps the list valid and leaves no account with that ID |
| Invariants.LoadPreservesValid | internal/users/users.go:111-130 | loading distinct stored IDs that are not yet listed keeps the list valid |
| Invariants.AuthUpdatePreservesValid | internal/users/users.go:159-171 | handling an auth event keeps the list valid |
| Scenarios.BadMailboxPassword | internal/bridge/bridge_login_test.go:32-48 | a wrong mailbox password returns the unlock error and no account, leaves the list empty, and deletes the auth session before logging out |
| Scenarios.UpgradeDuringUnlock | internal/bridge/bridge_login_test.go:50-68 | the upgrade error during unlock emits the upgrade event, deletes the auth session and logs out, in that order |
| Scenarios.NewUserOnEmptyList | internal/bridge/bridge_login_test.go:84-134 | a new user on an empty list is enrolled with the test's calls restricted to the modelled effects, in the test's order, and ends up as the single connected account |
| Scenarios.FoundByIdAndAddress | internal/bridge/bridge_login_test.go:84-134 | the enrolled account is found both by its ID and by its address |
| Scenarios.ExistingDisconnectedUser | internal/bridge/bridge_login_test.go:136-192 | a known disconnected user is reconnected in place with the test's calls restricted to the modelled effects, in the test's order |
| Scenarios.ConnectedUserRefused | internal/bridge/bridge_login_test.go:194-217 | a known connected user is refused with "already connected"; only unlocking, the auth deletion and the logout happen |

## Left out

- Goroutines, channels, the `RWMutex` and `StopWatchers`. Each entry point is an atomic sequential step. `hasUser` is called at users.go:232 without the lock, so no claim is made that concurrent logins create at most one session.
- The watcher loops themselves. Only their per-event bodies are modelled.
- `Login`, `SendMetric`, logging, `AllowProxy`/`DisallowProxy`/`CheckConnection` and `GetIMAPUpdatesChannel`. These are I/O or thin wrappers around the client manager.
- `GetUsers`, which returns the list itself. The aliasing this creates with the in-place splice in `DeleteUser` is not modelled.
- Constructing the manager (`New`) and wiring its collaborators.
- The internals of the API client, the credential store, the store factory, `newUser`, `User.init`/`Logout`/`closeStore`/`clearStore`/`updateAuthToken`/`closeAllConnections` and `HashMailboxPassword`. Each is an outcome given by the caller, not a computation. The credential store is abstracted to the set of stored IDs; passwords, tokens and addresses written to it are recorded only in the trace.
- `Addresses().ActiveEmails()` in `addNewUser`. It is an input value and not a traced call.
- The `crashBandicoot` panic. It is the precondition that the looked-up string is not `crash@bandicoot`.
- `Lookup.GetUser`: `strings.EqualFold` is modelled with ASCII case folding only; full Unicode simple folding is left out.
- `Removal.ClearData`: `multierror` is a flat list of the collected errors. Its formatting and flattening of nested multierrors are left out.
- `Login.FinishLogin`: its final `GetUser(apiUser.ID)` is a case-folded lookup that also matches usernames and addresses, so it may in principle return a different account. `LoginProperties.FinishLoginReturnsLoggedInAccount` claims the logged-in account only when no other account matches that ID.
- `LoginProperties.FinishLoginPreservesValid`: it holds only when the user re-fetched in `addNewUser` has the ID that `hasUser` checked. `LoginProperties.RefetchedIdentityMatters` shows a duplicate without that proviso.
- `Removal.ClearData` and `Watchers.OnUpgradeRequired`: preservation of `Valid` is not stated separately. Both keep the roster and the credential set, so it follows from `Invariants.SameRosterKeepsValid`.
