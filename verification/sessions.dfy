/**
 * Several logins in a row: with distinct remote IDs, the list grows by
 * exactly the accounts whose login went through, in call order.
 */
module Sessions {
  import opened Wrappers
  import opened Accounts
  import opened Lookup
  import opened Login
  import opened LoginProperties

  /** One `FinishLogin` call: the handshake's auth token and the collaborators' outcomes. */
  datatype LoginCall = LoginCall(auth: Token, oracle: LoginOracle)

  function CallId(c: LoginCall): UserId
    requires c.oracle.handshake.user.Ok?
  {
    c.oracle.handshake.user.value.id
  }

  /** Unlocking and every enrolment step succeed. */
  predicate Admitted(c: LoginCall) {
    var e := c.oracle.enrol;
    GetAPIUser(c.oracle.handshake).result.Ok?
    && e.refresh.Ok? && e.refetch.Ok? && e.add.Pass? && e.build.Pass? && e.init.Pass?
  }

  /** The manager after the calls, one after the other. */
  function LoginAll(u: Users, calls: seq<LoginCall>): Users
    requires forall k :: 0 <= k < |calls| ==> NotCrashing(calls[k].oracle)
  {
    if |calls| == 0 then u
    else
      var n := |calls| - 1;
      FinishLogin(LoginAll(u, calls[..n]), calls[n].auth, calls[n].oracle).users
  }

  /** The IDs of the admitted calls, in call order. */
  function AdmittedIds(calls: seq<LoginCall>): seq<UserId>
    requires forall k :: 0 <= k < |calls| ==> calls[k].oracle.handshake.user.Ok?
  {
    if |calls| == 0 then []
    else
      var n := |calls| - 1;
      AdmittedIds(calls[..n]) + if Admitted(calls[n]) then [CallId(calls[n])] else []
  }

  /** An ID that no call names is not among the admitted ones. */
  lemma {:induction false} AdmittedOnlyCalled(calls: seq<LoginCall>, x: UserId)
    requires forall k :: 0 <= k < |calls| ==> calls[k].oracle.handshake.user.Ok?
    requires forall k :: 0 <= k < |calls| ==> CallId(calls[k]) != x
    ensures x !in AdmittedIds(calls)
  {
    if |calls| > 0 {
      var n := |calls| - 1;
      assert forall k :: 0 <= k < n ==> calls[..n][k] == calls[k];
      AdmittedOnlyCalled(calls[..n], x);
    }
  }

  /** One login for an ID that is not listed appends its account exactly when the call is admitted. */
  lemma FreshLogin(v: Users, c: LoginCall)
    requires NotCrashing(c.oracle) && SameIdentity(c.oracle) && c.oracle.handshake.user.Ok?
    requires !Listed(v.accounts, CallId(c))
    ensures Ids(FinishLogin(v, c.auth, c.oracle).users.accounts)
         == Ids(v.accounts) + if Admitted(c) then [CallId(c)] else []
  {
    var e := c.oracle.enrol;
    if GetAPIUser(c.oracle.handshake).result.Err? {
      HandshakeFailureLeavesUsers(v, c.auth, c.oracle);
    } else {
      NewAccountAppendedOrRolledBack(v, c.auth, c.oracle);
      if Admitted(c) {
        IdsAppend(v.accounts, Account(e.refetch.value.id, e.refetch.value.name, e.emails, true));
      }
    }
  }

  /** An ID that is neither listed at the start nor named by an earlier call is not listed. */
  lemma NotYetListed(u: Users, v: Users, prefix: seq<LoginCall>, x: UserId)
    requires forall k :: 0 <= k < |prefix| ==> prefix[k].oracle.handshake.user.Ok?
    requires Ids(v.accounts) == Ids(u.accounts) + AdmittedIds(prefix)
    requires forall k :: 0 <= k < |prefix| ==> CallId(prefix[k]) != x
    requires !Listed(u.accounts, x)
    ensures !Listed(v.accounts, x)
  {
    AdmittedOnlyCalled(prefix, x);
    assert x !in Ids(u.accounts);
    assert x !in Ids(v.accounts);
  }

  /** Every call names its remote user, never the crash query, and enrols that same user. */
  predicate Identified(calls: seq<LoginCall>) {
    forall k :: 0 <= k < |calls| ==>
      NotCrashing(calls[k].oracle) && calls[k].oracle.handshake.user.Ok? && SameIdentity(calls[k].oracle)
  }

  /** The calls name pairwise distinct IDs, none of them listed at the start. */
  predicate FreshIds(u: Users, calls: seq<LoginCall>)
    requires Identified(calls)
  {
    && (forall i, j :: 0 <= i < j < |calls| ==> CallId(calls[i]) != CallId(calls[j]))
    && (forall k :: 0 <= k < |calls| ==> !Listed(u.accounts, CallId(calls[k])))
  }

  /** Both conditions carry over to a proper prefix, whose IDs all differ from the next call's. */
  lemma PrefixStaysFresh(u: Users, calls: seq<LoginCall>, n: nat)
    requires Identified(calls) && FreshIds(u, calls) && n < |calls|
    ensures Identified(calls[..n]) && FreshIds(u, calls[..n])
    ensures forall k :: 0 <= k < n ==> CallId(calls[..n][k]) != CallId(calls[n])
    ensures !Listed(u.accounts, CallId(calls[n]))
  {
  }

  /** The last of several logins, for an ID not listed before it, appends that ID exactly when it is admitted. */
  lemma LastLogin(u: Users, calls: seq<LoginCall>)
    requires Identified(calls) && |calls| > 0
    requires !Listed(LoginAll(u, calls[..|calls| - 1]).accounts, CallId(calls[|calls| - 1]))
    ensures Ids(LoginAll(u, calls).accounts) == Ids(LoginAll(u, calls[..|calls| - 1]).accounts) + AdmittedIds(calls)[|AdmittedIds(calls[..|calls| - 1])|..]
  {
    var n := |calls| - 1;
    FreshLogin(LoginAll(u, calls[..n]), calls[n]);
    assert AdmittedIds(calls) == AdmittedIds(calls[..n]) + if Admitted(calls[n]) then [CallId(calls[n])] else [];
  }

  /** Splitting the admitted IDs at the length of an earlier prefix of them. */
  lemma PrefixPlusRest(start: seq<UserId>, before: seq<UserId>, all: seq<UserId>)
    requires before <= all
    ensures start + before + all[|before|..] == start + all
  {
    assert before == all[..|before|];
  }

  /**
   * Logins for pairwise distinct IDs that are not listed yet append exactly
   * the admitted accounts, in call order; nothing else changes the IDs.
   */
  lemma {:induction false} DistinctLoginsAppendInOrder(u: Users, calls: seq<LoginCall>)
    requires Identified(calls) && FreshIds(u, calls)
    ensures Ids(LoginAll(u, calls).accounts) == Ids(u.accounts) + AdmittedIds(calls)
  {
    if |calls| > 0 {
      var n := |calls| - 1;
      PrefixStaysFresh(u, calls, n);
      DistinctLoginsAppendInOrder(u, calls[..n]);
      assert !Listed(LoginAll(u, calls[..n]).accounts, CallId(calls[n])) by {
        NotYetListed(u, LoginAll(u, calls[..n]), calls[..n], CallId(calls[n]));
      }
      LastLogin(u, calls);
      PrefixPlusRest(Ids(u.accounts), AdmittedIds(calls[..n]), AdmittedIds(calls));
    }
  }
}
