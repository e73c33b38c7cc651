/** Which error of a chain decides about its retry. */
module RetryDecisions {
  import opened Basics
  import opened Failures
  import opened FailureContents
  import opened Retryable

  predicate IsFinal(e: Error) {
    if e.Leaf? then e.leaf.Terminated? || e.leaf.WorkflowPanic? else e.kind.Canceled?
  }

  predicate IsTimeout(e: Error) {
    e.Wrapping? && e.kind.Timeout?
  }

  predicate IsApplication(e: Error) {
    e.Wrapping? && e.kind.Application?
  }

  /** The errors before position `k` are none of the kind. */
  ghost predicate NoneBefore(chain: seq<Error>, k: nat, kind: Error -> bool)
    requires k <= |chain|
  {
    forall j | 0 <= j < k :: !kind(chain[j])
  }

  ghost predicate NoneOf(chain: seq<Error>, kind: Error -> bool) {
    NoneBefore(chain, |chain|, kind)
  }

  /** Position `k` holds the first error of the kind. */
  ghost predicate FirstOf(chain: seq<Error>, k: nat, kind: Error -> bool) {
    k < |chain| && kind(chain[k]) && NoneBefore(chain, k, kind)
  }

  lemma ChainTail(e: Error)
    requires Unwrap(e).Some?
    ensures Chain(e)[1..] == Chain(Unwrap(e).value) && |Chain(e)| == |Chain(Unwrap(e).value)| + 1
  {}

  /** The first of a kind is the head, or the first of the rest. */
  lemma FirstInTail(e: Error, k: nat, kind: Error -> bool)
    requires FirstOf(Chain(e), k, kind) && k > 0
    ensures !kind(e) && Unwrap(e).Some? && FirstOf(Chain(Unwrap(e).value), k - 1, kind)
  {
    assert !kind(Chain(e)[0]);
    if Unwrap(e).Some? {
      ChainTail(e);
      var tail := Chain(Unwrap(e).value);
      assert forall j | 0 <= j < |tail| :: tail[j] == Chain(e)[j + 1];
    }
  }

  lemma NoneInTail(e: Error, kind: Error -> bool)
    requires NoneOf(Chain(e), kind)
    ensures !kind(e) && (Unwrap(e).Some? ==> NoneOf(Chain(Unwrap(e).value), kind))
  {
    assert !kind(Chain(e)[0]);
    if Unwrap(e).Some? {
      ChainTail(e);
      var tail := Chain(Unwrap(e).value);
      assert forall j | 0 <= j < |tail| :: tail[j] == Chain(e)[j + 1];
    }
  }

  lemma {:induction false} FinalFound(e: Error, k: nat)
    requires FirstOf(Chain(e), k, IsFinal)
    ensures HasFinal(e)
    decreases k
  {
    if k > 0 {
      FirstInTail(e, k, IsFinal);
      FinalFound(Unwrap(e).value, k - 1);
    }
  }

  lemma {:induction false} NoFinalFound(e: Error)
    requires NoneOf(Chain(e), IsFinal)
    ensures !HasFinal(e)
  {
    NoneInTail(e, IsFinal);
    if Unwrap(e).Some? {
      NoFinalFound(Unwrap(e).value);
    }
  }

  lemma {:induction false} TimeoutFound(e: Error, k: nat)
    requires FirstOf(Chain(e), k, IsTimeout)
    ensures FirstTimeout(e) == Some(Chain(e)[k].kind.timeoutType)
    decreases k
  {
    if k > 0 {
      FirstInTail(e, k, IsTimeout);
      ChainTail(e);
      TimeoutFound(Unwrap(e).value, k - 1);
    }
  }

  lemma {:induction false} NoTimeoutFound(e: Error)
    requires NoneOf(Chain(e), IsTimeout)
    ensures FirstTimeout(e).None?
  {
    NoneInTail(e, IsTimeout);
    if Unwrap(e).Some? {
      NoTimeoutFound(Unwrap(e).value);
    }
  }

  lemma {:induction false} ApplicationFound(e: Error, k: nat)
    requires FirstOf(Chain(e), k, IsApplication)
    ensures FirstApplication(e) == Some((Chain(e)[k].kind.nonRetryable, Chain(e)[k].kind.errType))
    decreases k
  {
    if k > 0 {
      FirstInTail(e, k, IsApplication);
      ChainTail(e);
      ApplicationFound(Unwrap(e).value, k - 1);
    }
  }

  lemma {:induction false} NoApplicationFound(e: Error)
    requires NoneOf(Chain(e), IsApplication)
    ensures FirstApplication(e).None?
  {
    NoneInTail(e, IsApplication);
    if Unwrap(e).Some? {
      NoApplicationFound(Unwrap(e).value);
    }
  }

  /** A cancelation, a termination or a workflow panic anywhere in the chain is never retried. */
  lemma FinalIsNotRetried(e: Error, k: nat, types: seq<string>)
    requires FirstOf(Chain(e), k, IsFinal)
    ensures !IsRetryable(e, types)
  {
    FinalFound(e, k);
  }

  /** Otherwise the first timeout of the chain decides: only start-to-close and heartbeat timeouts are
      retried, whatever the types listed. */
  lemma TimeoutDecides(e: Error, k: nat, types: seq<string>)
    requires NoneOf(Chain(e), IsFinal) && FirstOf(Chain(e), k, IsTimeout)
    ensures IsRetryable(e, types) <==> Chain(e)[k].kind.timeoutType in {StartToClose, Heartbeat}
  {
    NoFinalFound(e);
    TimeoutFound(e, k);
  }

  /** Without a timeout the first application error decides, by its flag and its type. */
  lemma ApplicationDecides(e: Error, k: nat, types: seq<string>)
    requires NoneOf(Chain(e), IsFinal) && NoneOf(Chain(e), IsTimeout) && FirstOf(Chain(e), k, IsApplication)
    ensures IsRetryable(e, types) <==> !Chain(e)[k].kind.nonRetryable && Chain(e)[k].kind.errType !in types
  {
    NoFinalFound(e);
    NoTimeoutFound(e);
    ApplicationFound(e, k);
  }

  /** The Go type name of an error that is neither final, nor a timeout, nor an application error. */
  function OutermostName(e: Error): string {
    if e.Leaf? then "PanicError"
    else if e.kind.GoError? then e.kind.errType
    else if e.kind.Server? then "ServerError"
    else if e.kind.Activity? then "ActivityError"
    else if e.kind.ChildWorkflow? then "ChildWorkflowExecutionError"
    else "NexusOperationError"
  }

  /** Without either, the type name of the outermost error decides. */
  lemma NameDecides(e: Error, types: seq<string>)
    requires NoneOf(Chain(e), IsFinal) && NoneOf(Chain(e), IsTimeout) && NoneOf(Chain(e), IsApplication)
    ensures IsRetryable(e, types) <==> OutermostName(e) !in types
  {
    NoFinalFound(e);
    NoTimeoutFound(e);
    NoApplicationFound(e);
    NoneInTail(e, IsFinal);
    NoneInTail(e, IsTimeout);
    NoneInTail(e, IsApplication);
  }
}
