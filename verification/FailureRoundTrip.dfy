/** What survives the way from an error to a Failure and back. */
module FailureRoundTrip {
  import opened Basics
  import opened Failures

  /** No error of the chain holds a Failure from an earlier conversion. */
  predicate NothingStored(e: Error) {
    Stored(e).None? && match Unwrap(e) case Some(c) => NothingStored(c) case None => true
  }

  function PlainDetails(dc: Converter, d: Details): Details {
    match d
    case Values(_) => d
    case Encoded(payloads) => Values(dc.fromPayloads(payloads))
  }

  function PlainKind(dc: Converter, k: Kind): Kind {
    if k.Application? || k.Canceled? || k.Timeout? then k.(details := PlainDetails(dc, k.details)) else k
  }

  /** The error as a program can observe it: details decoded, held Failures ignored. */
  function Plain(dc: Converter, e: Error): Error {
    match e
    case Leaf(leaf, _) => Leaf(leaf, None)
    case Wrapping(kind, cause, _) =>
      Wrapping(PlainKind(dc, kind), match cause case Some(c) => Some(Plain(dc, c)) case None => None, None)
  }

  predicate PanicTyped(k: Kind) {
    (k.Application? || k.GoError?) && k.errType == PANIC_TYPE
  }

  function ArrivingKind(dc: Converter, e: Error): Kind
    requires e.Wrapping?
  {
    match e.kind
    case GoError(errType, text) => Application(text, errType, false, Values(dc.fromPayloads([])), 0, 0)
    case Canceled("", details) => Canceled("canceled", PlainDetails(dc, details))
    case NexusOperation(_, _, _, _, _, _) => e.kind.(msg := Text(dc, e))
    case _ => PlainKind(dc, e.kind)
  }

  /** What each error of a chain arrives as. */
  function Arrives(dc: Converter, e: Error): Error {
    match e
    case Leaf(WorkflowPanic(value, stackTrace), _) => Leaf(LeafKind.Panic(value, stackTrace), None)
    case Leaf(leaf, _) => Leaf(leaf, None)
    case Wrapping(kind, cause, _) =>
      if PanicTyped(kind) then Leaf(LeafKind.Panic(Message(dc, e), ""), None)
      else Wrapping(ArrivingKind(dc, e), match cause case Some(c) => Some(Arrives(dc, c)) case None => None, None)
  }

  lemma KindArrives(dc: Converter, e: Error)
    requires dc.Lawful() && e.Wrapping? && !PanicTyped(e.kind)
    ensures PlainKind(dc, KindOf(InfoOf(dc, e), Message(dc, e))) == ArrivingKind(dc, e)
  {}

  lemma FailureParts(dc: Converter, e: Error)
    requires dc.Lawful() && Stored(e).None?
    ensures var f := ErrorToFailure(dc, e);
            && Attributes(dc, f) == (Message(dc, e), StackTraceOf(e)) && f.info == InfoOf(dc, e)
            && f.cause == match Unwrap(e) case Some(c) => Some(ErrorToFailure(dc, c)) case None => None
  {}

  /** Chains of any length arrive, node by node, as described. */
  lemma {:induction false} ChainArrives(dc: Converter, e: Error)
    requires dc.Lawful() && NothingStored(e)
    ensures Plain(dc, RoundTrip(dc, e)) == Arrives(dc, e)
  {
    FailureParts(dc, e);
    if e.Wrapping? {
      if !PanicTyped(e.kind) {
        KindArrives(dc, e);
        if e.cause.Some? {
          ChainArrives(dc, e.cause.value);
        }
      }
    }
  }

  /** No panic that changes kind, no foreign error, no empty cancel message, no Nexus error. */
  predicate Survives(e: Error) {
    match e
    case Leaf(leaf, _) => !leaf.WorkflowPanic?
    case Wrapping(kind, cause, _) =>
      && !PanicTyped(kind) && !kind.GoError? && !kind.NexusOperation? && !(kind.Canceled? && kind.msg == "")
      && match cause case Some(c) => Survives(c) case None => true
  }

  lemma NexusTextDiffers(dc: Converter, e: Error)
    requires e.Wrapping? && e.kind.NexusOperation?
    ensures |Text(dc, e)| > |e.kind.msg|
  {}

  /** Kind, fields, details and message of every error of the chain come back, with or without encoded
      attributes, exactly when every error of the chain is of a surviving kind. */
  lemma {:induction false} RoundTripIff(dc: Converter, e: Error)
    requires dc.Lawful() && NothingStored(e)
    ensures Plain(dc, RoundTrip(dc, e)) == Plain(dc, e) <==> Survives(e)
  {
    ChainArrives(dc, e);
    ArrivesIff(dc, e);
  }

  lemma {:induction false} ArrivesIff(dc: Converter, e: Error)
    ensures Arrives(dc, e) == Plain(dc, e) <==> Survives(e)
  {
    if e.Wrapping? {
      if e.cause.Some? {
        ArrivesIff(dc, e.cause.value);
      }
      if e.kind.NexusOperation? {
        NexusTextDiffers(dc, e);
      }
    }
  }

  /** A Nexus operation error arrives with its whole text as its message. */
  lemma NexusMessageGrows(dc: Converter)
    requires dc.Lawful()
    ensures var kind := NexusOperation("failed", 5, "endpoint", "service", "operation", "token");
            var e := Wrapping(kind, None, None);
            Plain(dc, RoundTrip(dc, e))
            == Wrapping(kind.(msg := "failed" + " (" + dc.describe(kind) + ")"), None, None)
  {
    ChainArrives(dc, Wrapping(NexusOperation("failed", 5, "endpoint", "service", "operation", "token"), None, None));
  }

  /** An empty cancel message arrives filled in. */
  lemma EmptyCancelMessageIsFilledIn(dc: Converter)
    requires dc.Lawful()
    ensures Plain(dc, RoundTrip(dc, Wrapping(Canceled("", Values([])), None, None)))
         == Wrapping(Canceled("canceled", Values([])), None, None)
  {
    ChainArrives(dc, Wrapping(Canceled("", Values([])), None, None));
  }

  /** An application error with the type name of a panic arrives as a panic, without its cause. */
  lemma PanicTypeArrivesAsPanic(dc: Converter, cause: Error)
    requires dc.Lawful() && NothingStored(cause)
    ensures var e := Wrapping(Application("m", PANIC_TYPE, true, Values([]), 0, 0), Some(cause), None);
            Plain(dc, RoundTrip(dc, e)) == Leaf(LeafKind.Panic("m", ""), None)
  {
    ChainArrives(dc, Wrapping(Application("m", PANIC_TYPE, true, Values([]), 0, 0), Some(cause), None));
  }

  /** A foreign error arrives as an application error of its type name. */
  lemma ForeignArrivesAsApplication(dc: Converter)
    requires dc.Lawful()
    ensures Plain(dc, RoundTrip(dc, Wrapping(GoError("MyError", "text"), None, None)))
         == Wrapping(Application("text", "MyError", false, Values(dc.fromPayloads([])), 0, 0), None, None)
  {
    ChainArrives(dc, Wrapping(GoError("MyError", "text"), None, None));
  }

  /** Failures that no error of this SDK makes: a reset arrives as an application error that is not to be
      retried, one without info as one that is, and an operation of an old server is known by its ID. */
  lemma OtherFailuresArrive(dc: Converter, f: Failure)
    requires f.info.ResetWorkflowInfo? || f.info.NoInfo? || f.info.NexusOperationInfo?
    ensures var e := FailureToError(dc, f);
            && e.Wrapping? && e.original == Some(f) && (e.cause.Some? <==> f.cause.Some?)
            && (e.kind.NexusOperation? <==> f.info.NexusOperationInfo?)
            && (e.kind.Application? <==> f.info.ResetWorkflowInfo? || f.info.NoInfo?)
            && (e.kind.Application? ==> e.kind.errType == "" && (e.kind.nonRetryable <==> f.info.ResetWorkflowInfo?))
            && (f.info.ResetWorkflowInfo? ==> e.kind.details == Encoded(f.info.details))
            && (e.kind.NexusOperation? ==>
                  && e.kind.scheduledEventID == f.info.scheduledEventID && e.kind.endpoint == f.info.endpoint
                  && e.kind.service == f.info.service && e.kind.operation == f.info.operation
                  && e.kind.token == if f.info.token != "" then f.info.token else f.info.operationID)
  {}
}
