/** Conversion between Go errors and Failure messages, over cause chains of any length. */
module Failures {
  import opened Basics

  // Application values and payloads are carried along unread.
  type Value = int
  type Payload = int
  type Payloads = seq<Payload>

  /** Error details: values not encoded yet, or payloads not decoded yet. */
  datatype Details = Values(values: seq<Value>) | Encoded(payloads: Payloads)

  /** The data converter, and the part of an error text that formats its fields. */
  datatype Converter = Converter(
    toPayloads: seq<Value> -> Payloads,
    fromPayloads: Payloads -> seq<Value>,
    toPayload: ((string, string)) -> Payload,
    fromPayload: Payload -> Option<(string, string)>,
    describe: Kind -> string,
    encodeCommonAttributes: bool)
  {
    ghost predicate Lawful() {
      && (forall v :: fromPayloads(toPayloads(v)) == v)
      && (forall a :: fromPayload(toPayload(a)) == Some(a))
    }
  }

  /** The error kinds that can have a cause; `GoError` is any error that is not the SDK's, with the
      type name found by reflection and its text. */
  datatype Kind =
    | Application(msg: string, errType: string, nonRetryable: bool, details: Details, nextRetryDelay: int,
                  category: int)
    | Canceled(msg: string, details: Details)
    | Timeout(msg: string, timeoutType: TimeoutType, details: Details)
    | Server(msg: string, nonRetryable: bool)
    | Activity(scheduledEventID: int, startedEventID: int, identity: string, activityType: string, activityID: string,
               retryState: int)
    | ChildWorkflow(namespace: string, workflowID: string, runID: string, workflowType: string, initiatedEventID: int,
                    startedEventID: int, retryState: int)
    | NexusOperation(msg: string, scheduledEventID: int, endpoint: string, service: string, operation: string,
                     token: string)
    | GoError(errType: string, text: string)

  datatype LeafKind =
    | Terminated
    | Panic(value: string, stackTrace: string)
    | WorkflowPanic(value: string, stackTrace: string)

  datatype TimeoutType = StartToClose | ScheduleToStart | ScheduleToClose | Heartbeat | Unspecified

  /** An error with its cause chain; `original` is the Failure it was converted from, if any. */
  datatype Error =
    | Leaf(leaf: LeafKind, original: Option<Failure>)
    | Wrapping(kind: Kind, cause: Option<Error>, original: Option<Failure>)

  datatype Info =
    | ApplicationInfo(errType: string, nonRetryable: bool, details: Payloads, nextRetryDelay: Option<int>,
                      category: int)
    | CanceledInfo(details: Payloads)
    | TimeoutInfo(timeoutType: TimeoutType, details: Payloads)
    | TerminatedInfo
    | ServerInfo(nonRetryable: bool)
    | ResetWorkflowInfo(details: Payloads)
    | ActivityInfo(scheduledEventID: int, startedEventID: int, identity: string, activityType: string,
                   activityID: string, retryState: int)
    | ChildWorkflowInfo(namespace: string, workflowID: string, runID: string, workflowType: string,
                        initiatedEventID: int, startedEventID: int, retryState: int)
    | NexusOperationInfo(scheduledEventID: int, endpoint: string, service: string, operation: string,
                         operationID: string, token: string)
    | NoInfo

  datatype Failure = Failure(
    source: string, message: string, stackTrace: string, attributes: Option<Payload>, info: Info,
    cause: Option<Failure>)

  const PANIC_TYPE := "PanicError"

  // ---------------------------------------------------------------- errors to failures

  function Unwrap(e: Error): (cause: Option<Error>)
    ensures cause.Some? ==> cause.value < e
  {
    if e.Wrapping? then e.cause else None
  }

  /** The Failure held by the error kinds that can hold one. */
  function Stored(e: Error): Option<Failure> {
    match e
    case Leaf(leaf, original) => if leaf.WorkflowPanic? then None else original
    case Wrapping(kind, _, original) => if kind.GoError? then None else original
  }

  /** The `Error()` text. */
  function Text(dc: Converter, e: Error): string {
    match e
    case Leaf(Terminated, _) => "terminated"
    case Leaf(Panic(value, _), _) => value
    case Leaf(WorkflowPanic(value, _), _) => value
    case Wrapping(Canceled(msg, _), _, _) => msg
    case Wrapping(GoError(_, text), _, _) => text
    case Wrapping(kind, cause, _) =>
      var head := (match kind
                   case Application(msg, _, _, _, _, _) => msg
                   case Timeout(msg, _, _) => msg
                   case Server(msg, _) => msg
                   case NexusOperation(msg, _, _, _, _, _) => msg + " (" + dc.describe(kind) + ")"
                   case _ => "")
                  + (if kind.NexusOperation? || kind.Server? then "" else dc.describe(kind));
      if cause.None? then head else head + ": " + Text(dc, cause.value)
  }

  /** The message put into the Failure: `message()` where the error has one, else its text. */
  function Message(dc: Converter, e: Error): string {
    match e
    case Wrapping(Application(msg, _, _, _, _, _), _, _) => msg
    case Wrapping(Canceled(msg, _), _, _) => msg
    case Wrapping(Timeout(msg, _, _), _, _) => msg
    case Wrapping(Server(msg, _), _, _) => msg
    case Wrapping(Activity(_, _, _, _, _, _), _, _) => "activity error"
    case Wrapping(ChildWorkflow(_, _, _, _, _, _, _), _, _) => "child workflow execution error"
    case _ => Text(dc, e)
  }

  function ToPayloads(dc: Converter, d: Details): Payloads {
    match d
    case Values(values) => dc.toPayloads(values)
    case Encoded(payloads) => payloads
  }

  function InfoOf(dc: Converter, e: Error): Info {
    match e
    case Leaf(Terminated, _) => TerminatedInfo
    case Leaf(Panic(_, _), _) => ApplicationInfo(PANIC_TYPE, false, [], None, 0)
    case Leaf(WorkflowPanic(_, _), _) => ApplicationInfo(PANIC_TYPE, true, [], None, 0)
    case Wrapping(kind, _, _) =>
      match kind
      case Application(_, errType, nonRetryable, details, delay, category) =>
        ApplicationInfo(errType, nonRetryable, ToPayloads(dc, details), if delay == 0 then None else Some(delay),
                        category)
      case Canceled(_, details) => CanceledInfo(ToPayloads(dc, details))
      case Timeout(_, timeoutType, details) => TimeoutInfo(timeoutType, ToPayloads(dc, details))
      case Server(_, nonRetryable) => ServerInfo(nonRetryable)
      case Activity(scheduled, started, identity, activityType, activityID, retryState) =>
        ActivityInfo(scheduled, started, identity, activityType, activityID, retryState)
      case ChildWorkflow(namespace, workflowID, runID, workflowType, initiated, started, retryState) =>
        ChildWorkflowInfo(namespace, workflowID, runID, workflowType, initiated, started, retryState)
      case NexusOperation(_, scheduled, endpoint, service, operation, token) =>
        NexusOperationInfo(scheduled, endpoint, service, operation, token, token)
      case GoError(errType, _) => ApplicationInfo(errType, false, [], None, 0)
  }

  function StackTraceOf(e: Error): string {
    match e
    case Leaf(Panic(_, stackTrace), _) => stackTrace
    case Leaf(WorkflowPanic(_, stackTrace), _) => stackTrace
    case _ => ""
  }

  /** `EncodeCommonFailureAttributes`. */
  function EncodeAttributes(dc: Converter, f: Failure): Failure {
    if dc.encodeCommonAttributes then
      f.(attributes := Some(dc.toPayload((f.message, f.stackTrace))), message := "Encoded failure", stackTrace := "")
    else f
  }

  function ErrorToFailure(dc: Converter, e: Error): Failure {
    match Stored(e)
    case Some(f) => f
    case None =>
      var cause := match Unwrap(e) case Some(c) => Some(ErrorToFailure(dc, c)) case None => None;
      EncodeAttributes(dc, Failure("GoSDK", Message(dc, e), StackTraceOf(e), None, InfoOf(dc, e), cause))
  }

  // ---------------------------------------------------------------- failures to errors

  /** `DecodeCommonFailureAttributes`: message and stack trace. */
  function Attributes(dc: Converter, f: Failure): (string, string) {
    if f.attributes.Some? && dc.fromPayload(f.attributes.value).Some? then dc.fromPayload(f.attributes.value).value
    else (f.message, f.stackTrace)
  }

  /** The error kind for a Failure that is not turned into a leaf. */
  function KindOf(info: Info, message: string): Kind {
    match info
    case ApplicationInfo(errType, nonRetryable, details, delay, category) =>
      Application(message, errType, nonRetryable, Encoded(details), if delay.Some? then delay.value else 0, category)
    case CanceledInfo(details) => Canceled(if message == "" then "canceled" else message, Encoded(details))
    case TimeoutInfo(timeoutType, details) => Timeout(message, timeoutType, Encoded(details))
    case ServerInfo(nonRetryable) => Server(message, nonRetryable)
    case ResetWorkflowInfo(details) => Application(message, "", true, Encoded(details), 0, 0)
    case ActivityInfo(scheduled, started, identity, activityType, activityID, retryState) =>
      Activity(scheduled, started, identity, activityType, activityID, retryState)
    case ChildWorkflowInfo(namespace, workflowID, runID, workflowType, initiated, started, retryState) =>
      ChildWorkflow(namespace, workflowID, runID, workflowType, initiated, started, retryState)
    case NexusOperationInfo(scheduled, endpoint, service, operation, operationID, token) =>
      NexusOperation(message, scheduled, endpoint, service, operation, if token == "" then operationID else token)
    case _ => Application(message, "", false, Values([]), 0, 0)
  }

  function FailureToError(dc: Converter, f: Failure): Error {
    var (message, stackTrace) := Attributes(dc, f);
    if f.info.ApplicationInfo? && f.info.errType == PANIC_TYPE then Leaf(LeafKind.Panic(message, stackTrace), Some(f))
    else if f.info.TerminatedInfo? then Leaf(Terminated, Some(f))
    else
      var cause := match f.cause case Some(c) => Some(FailureToError(dc, c)) case None => None;
      Wrapping(KindOf(f.info, message), cause, Some(f))
  }

  /** What arrives at the other side. */
  function RoundTrip(dc: Converter, e: Error): Error {
    FailureToError(dc, ErrorToFailure(dc, e))
  }
}
