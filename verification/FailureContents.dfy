/** What a reader of the Failure message finds in it: the server, which decides about retries, or an
    SDK in another language. */
module FailureContents {
  import opened Basics
  import opened Failures

  /** The errors of a chain, outermost first. */
  function Chain(e: Error): (chain: seq<Error>)
    ensures chain != [] && chain[0] == e
  {
    [e] + match Unwrap(e) case Some(c) => Chain(c) case None => []
  }

  /** A Failure and its causes, outermost first. */
  function Causes(f: Failure): (causes: seq<Failure>)
    ensures causes != [] && causes[0] == f
  {
    [f] + match f.cause case Some(c) => Causes(c) case None => []
  }

  predicate SaysNonRetryable(f: Failure) {
    (f.info.ApplicationInfo? || f.info.ServerInfo?) && f.info.nonRetryable
  }

  predicate IsPanic(e: Error) {
    e.Leaf? && (e.leaf.Panic? || e.leaf.WorkflowPanic?)
  }

  /** The retry decision: only a panic of the workflow code and errors that ask for it are final. */
  predicate RetryConveyed(e: Error, f: Failure) {
    && (SaysNonRetryable(f) <==>
          || (e.Leaf? && e.leaf.WorkflowPanic?)
          || (e.Wrapping? && (e.kind.Application? || e.kind.Server?) && e.kind.nonRetryable))
    && (f.info.ApplicationInfo? ==>
          f.info.nextRetryDelay ==
            if e.Wrapping? && e.kind.Application? && e.kind.nextRetryDelay != 0 then Some(e.kind.nextRetryDelay)
            else None)
  }

  /** Which info the Failure carries, and the type name that retry policies match. */
  predicate TypeConveyed(e: Error, f: Failure) {
    && (f.info.ApplicationInfo? <==> IsPanic(e) || (e.Wrapping? && (e.kind.Application? || e.kind.GoError?)))
    && (f.info.ApplicationInfo? ==> f.info.errType == if IsPanic(e) then "PanicError" else e.kind.errType)
    && (f.info.TerminatedInfo? <==> e.Leaf? && e.leaf.Terminated?)
    && (f.info.CanceledInfo? <==> e.Wrapping? && e.kind.Canceled?)
    && (f.info.TimeoutInfo? <==> e.Wrapping? && e.kind.Timeout?)
    && (f.info.TimeoutInfo? ==> f.info.timeoutType == e.kind.timeoutType)
    && (f.info.ServerInfo? <==> e.Wrapping? && e.kind.Server?)
    && (f.info.ActivityInfo? <==> e.Wrapping? && e.kind.Activity?)
    && (f.info.ChildWorkflowInfo? <==> e.Wrapping? && e.kind.ChildWorkflow?)
    && (f.info.NexusOperationInfo? <==> e.Wrapping? && e.kind.NexusOperation?)
  }

  /** The IDs of what failed. */
  predicate IdentityConveyed(e: Error, f: Failure) {
    && (e.Wrapping? && e.kind.Activity? && f.info.ActivityInfo? ==>
          && f.info.scheduledEventID == e.kind.scheduledEventID && f.info.startedEventID == e.kind.startedEventID
          && f.info.identity == e.kind.identity && f.info.activityType == e.kind.activityType
          && f.info.activityID == e.kind.activityID && f.info.retryState == e.kind.retryState)
    && (e.Wrapping? && e.kind.ChildWorkflow? && f.info.ChildWorkflowInfo? ==>
          && f.info.namespace == e.kind.namespace && f.info.workflowID == e.kind.workflowID
          && f.info.runID == e.kind.runID && f.info.workflowType == e.kind.workflowType
          && f.info.initiatedEventID == e.kind.initiatedEventID && f.info.startedEventID == e.kind.startedEventID
          && f.info.retryState == e.kind.retryState)
    && (e.Wrapping? && e.kind.NexusOperation? && f.info.NexusOperationInfo? ==>
          && f.info.scheduledEventID == e.kind.scheduledEventID && f.info.endpoint == e.kind.endpoint
          && f.info.service == e.kind.service && f.info.operation == e.kind.operation
          && f.info.token == f.info.operationID == e.kind.token)
  }

  /** The details of an error are attached and decode to the values given. */
  predicate DetailsConveyed(dc: Converter, e: Error, f: Failure) {
    && (e.Wrapping? && (e.kind.Application? || e.kind.Canceled? || e.kind.Timeout?)
        && (f.info.ApplicationInfo? || f.info.CanceledInfo? || f.info.TimeoutInfo?) ==>
          match e.kind.details
          case Values(values) => dc.fromPayloads(f.info.details) == values
          case Encoded(payloads) => f.info.details == payloads)
    && (f.info.ApplicationInfo? ==>
          f.info.category == if e.Wrapping? && e.kind.Application? then e.kind.category else 0)
  }

  /** The text for a reader: the error's own message, without the texts of its causes where it has one. */
  function ReadableText(dc: Converter, e: Error): string {
    if e.Leaf? then
      if e.leaf.Terminated? then "terminated" else e.leaf.value
    else if e.kind.Activity? then "activity error"
    else if e.kind.ChildWorkflow? then "child workflow execution error"
    else if e.kind.GoError? then e.kind.text
    else if e.kind.NexusOperation? then
      e.kind.msg + " (" + dc.describe(e.kind) + ")" + if e.cause.None? then "" else ": " + Text(dc, e.cause.value)
    else e.kind.msg
  }

  function ReadableTrace(e: Error): string {
    if IsPanic(e) then e.leaf.stackTrace else ""
  }

  /** With encoded attributes, message and stack trace leave the Failure and only the payload holds them. */
  predicate TextConveyed(dc: Converter, e: Error, f: Failure) {
    && f.source == "GoSDK"
    && (f.attributes.Some? <==> dc.encodeCommonAttributes)
    && if f.attributes.Some? then
         && f.message == "Encoded failure" && f.stackTrace == ""
         && dc.fromPayload(f.attributes.value) == Some((ReadableText(dc, e), ReadableTrace(e)))
       else f.message == ReadableText(dc, e) && f.stackTrace == ReadableTrace(e)
  }

  predicate Conveyed(dc: Converter, e: Error, f: Failure) {
    && RetryConveyed(e, f) && TypeConveyed(e, f) && IdentityConveyed(e, f) && DetailsConveyed(dc, e, f)
    && TextConveyed(dc, e, f)
  }

  lemma ErrorConveyed(dc: Converter, e: Error)
    requires dc.Lawful() && Stored(e).None?
    ensures Conveyed(dc, e, ErrorToFailure(dc, e))
  {
    var f := ErrorToFailure(dc, e);
    assert f.info == InfoOf(dc, e);
    TextIs(dc, e);
    assert TextConveyed(dc, e, f);
  }

  lemma TextIs(dc: Converter, e: Error)
    ensures Message(dc, e) == ReadableText(dc, e) && StackTraceOf(e) == ReadableTrace(e)
  {}

  /** Every error of a chain is conveyed, up to the first one that holds a Failure; that Failure is
      passed on unchanged, with the causes it came with. */
  lemma {:induction false} ChainConveyed(dc: Converter, e: Error, k: nat)
    requires dc.Lawful() && k < |Chain(e)| && forall j | 0 <= j < k :: Stored(Chain(e)[j]).None?
    ensures var causes := Causes(ErrorToFailure(dc, e));
            && k < |causes|
            && (match Stored(Chain(e)[k])
                case Some(f) => causes[k..] == Causes(f)
                case None => Conveyed(dc, Chain(e)[k], causes[k])
                             && (|causes| == k + 1 <==> |Chain(e)| == k + 1))
    decreases k
  {
    if k == 0 {
      if Stored(e).None? {
        ErrorConveyed(dc, e);
      }
    } else {
      assert Stored(Chain(e)[0]).None?;
      var cause := Unwrap(e).value;
      forall j | 0 <= j < k - 1 ensures Stored(Chain(cause)[j]).None? {
        assert Chain(cause)[j] == Chain(e)[j + 1];
      }
      ChainConveyed(dc, cause, k - 1);
      assert Causes(ErrorToFailure(dc, e))[1..] == Causes(ErrorToFailure(dc, cause));
    }
  }
}
