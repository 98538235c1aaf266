/**
 * The shape shared by getAPIUser, connectExistingUser and addNewUser: a fixed
 * sequence of foreign calls, each followed by "on error, return it (maybe
 * wrapped)". This module gives that shape an independent reference meaning.
 */
module Attempts {
  import opened Wrappers
  import opened Accounts

  /** One call, the outcome the collaborator gives it, and the wrap context on failure. */
  datatype Attempt = Attempt(call: Effect, outcome: Outcome<Error>, context: Option<Context>)

  function Calls(attempts: seq<Attempt>): (calls: seq<Effect>)
    ensures |calls| == |attempts|
    ensures forall k :: 0 <= k < |attempts| ==> calls[k] == attempts[k].call
  {
    seq(|attempts|, k requires 0 <= k < |attempts| => attempts[k].call)
  }

  /** The index of the first failing call, if any. */
  function FirstFailure(attempts: seq<Attempt>): (r: Option<nat>)
    ensures r.Some? ==> r.value < |attempts| && attempts[r.value].outcome.Fail?
    ensures r.Some? ==> forall j :: 0 <= j < r.value ==> attempts[j].outcome.Pass?
    ensures r.None? <==> forall j :: 0 <= j < |attempts| ==> attempts[j].outcome.Pass?
  {
    if |attempts| == 0 then None
    else if attempts[0].outcome.Fail? then Some(0)
    else match FirstFailure(attempts[1..])
      case None => None
      case Some(k) => Some(k + 1)
  }

  /** The error the failing call surfaces to the caller. */
  function Raised(a: Attempt): Error
    requires a.outcome.Fail?
  {
    match a.context
    case None => a.outcome.error
    case Some(c) => Wrapped(c, a.outcome.error)
  }

  /** The calls actually made: all of them, or up to and including the first failing one. */
  function Performed(attempts: seq<Attempt>): (calls: seq<Effect>)
    ensures calls <= Calls(attempts)
    ensures FirstFailure(attempts).None? ==> calls == Calls(attempts)
    ensures FirstFailure(attempts).Some? ==> |calls| == FirstFailure(attempts).value + 1
  {
    match FirstFailure(attempts)
    case None => Calls(attempts)
    case Some(k) => Calls(attempts)[..k + 1]
  }

  /** The error the sequence returns: none, or the first failing call's error. */
  function Verdict(attempts: seq<Attempt>): (r: Option<Error>)
    ensures r.None? <==> forall j :: 0 <= j < |attempts| ==> attempts[j].outcome.Pass?
  {
    match FirstFailure(attempts)
    case None => None
    case Some(k) => Some(Raised(attempts[k]))
  }

  /** When the call at index `k` is the first to fail, exactly the calls up to it are made and its error is returned. */
  lemma {:induction false} FailsAt(attempts: seq<Attempt>, k: nat)
    requires k < |attempts| && attempts[k].outcome.Fail?
    requires forall j :: 0 <= j < k ==> attempts[j].outcome.Pass?
    ensures FirstFailure(attempts) == Some(k)
    ensures Performed(attempts) == Calls(attempts[..k + 1])
    ensures Verdict(attempts) == Some(Raised(attempts[k]))
  {
    if k > 0 {
      FailsAt(attempts[1..], k - 1);
    }
    assert Calls(attempts)[..k + 1] == Calls(attempts[..k + 1]);
  }

  /** When no call fails, every call is made and no error is returned. */
  lemma AllPass(attempts: seq<Attempt>)
    requires forall j :: 0 <= j < |attempts| ==> attempts[j].outcome.Pass?
    ensures Performed(attempts) == Calls(attempts)
    ensures Verdict(attempts) == None
  {
  }
}
