/** `IsRetryable`, before and after an error crosses the wire. */
module Retryable {
  import opened Basics
  import opened Failures
  import opened FailureRoundTrip

  /** `errors.As` for the kinds that are never retried. */
  predicate HasFinal(e: Error) {
    match e
    case Leaf(leaf, _) => leaf.Terminated? || leaf.WorkflowPanic?
    case Wrapping(kind, cause, _) => kind.Canceled? || (cause.Some? && HasFinal(cause.value))
  }

  /** `errors.As` for a TimeoutError. */
  function FirstTimeout(e: Error): Option<TimeoutType> {
    match e
    case Leaf(_, _) => None
    case Wrapping(kind, cause, _) =>
      if kind.Timeout? then Some(kind.timeoutType) else if cause.Some? then FirstTimeout(cause.value) else None
  }

  /** `errors.As` for an ApplicationError: whether it is non-retryable, and its type. */
  function FirstApplication(e: Error): Option<(bool, string)> {
    match e
    case Leaf(_, _) => None
    case Wrapping(kind, cause, _) =>
      if kind.Application? then Some((kind.nonRetryable, kind.errType))
      else if cause.Some? then FirstApplication(cause.value) else None
  }

  /** `getErrType`. */
  function TypeName(e: Error): string {
    match e
    case Leaf(Terminated, _) => "TerminatedError"
    case Leaf(Panic(_, _), _) => PANIC_TYPE
    case Leaf(WorkflowPanic(_, _), _) => "workflowPanicError"
    case Wrapping(kind, _, _) =>
      match kind
      case Application(_, _, _, _, _, _) => "ApplicationError"
      case Canceled(_, _) => "CanceledError"
      case Timeout(_, _, _) => "TimeoutError"
      case Server(_, _) => "ServerError"
      case Activity(_, _, _, _, _, _) => "ActivityError"
      case ChildWorkflow(_, _, _, _, _, _, _) => "ChildWorkflowExecutionError"
      case NexusOperation(_, _, _, _, _, _) => "NexusOperationError"
      case GoError(errType, _) => errType
  }

  function IsRetryable(e: Error, nonRetryableTypes: seq<string>): bool {
    if HasFinal(e) then false
    else
      match FirstTimeout(e)
      case Some(timeoutType) => Retried(timeoutType)
      case None =>
        match FirstApplication(e)
        case Some((nonRetryable, errType)) => !nonRetryable && errType !in nonRetryableTypes
        case None => TypeName(e) !in nonRetryableTypes
  }

  /** No error of the chain has the type name of a panic. */
  predicate NoPanicTypes(e: Error) {
    e.Leaf? || (!PanicTyped(e.kind) && (e.cause.None? || NoPanicTypes(e.cause.value)))
  }

  /** The final errors that arrive as such: cancelations and terminations. */
  predicate HasLastingFinal(e: Error) {
    match e
    case Leaf(leaf, _) => leaf.Terminated?
    case Wrapping(kind, cause, _) => kind.Canceled? || (cause.Some? && HasLastingFinal(cause.value))
  }

  /** The chain ends in a workflow panic, which is final before the wire and a plain panic after it. */
  predicate EndsInWorkflowPanic(e: Error) {
    match e
    case Leaf(leaf, _) => leaf.WorkflowPanic?
    case Wrapping(_, cause, _) => cause.Some? && EndsInWorkflowPanic(cause.value)
  }

  predicate Retried(timeoutType: TimeoutType) {
    timeoutType.StartToClose? || timeoutType.Heartbeat?
  }

  /** The type name of the first foreign error that comes before any ApplicationError. */
  function FirstForeign(e: Error): Option<string> {
    match e
    case Leaf(_, _) => None
    case Wrapping(kind, cause, _) =>
      if kind.GoError? then Some(kind.errType)
      else if kind.Application? || cause.None? then None
      else FirstForeign(cause.value)
  }

  /** A cancelation or termination decides in any case.  A workflow panic, which decides before, must be
      confirmed by what decides after: a timeout that is not retried, or a non-retryable application error
      with no foreign error before it.  Otherwise a timeout decides, or no foreign error comes before the
      first application error, or that foreign error has the type that decides before. */
  predicate RetryStable(e: Error) {
    if HasLastingFinal(e) then true
    else if EndsInWorkflowPanic(e) then
      match FirstTimeout(e)
      case Some(timeoutType) => !Retried(timeoutType)
      case None => FirstForeign(e).None? && FirstApplication(e).Some? && FirstApplication(e).value.0
    else if FirstTimeout(e).Some? || FirstForeign(e).None? then true
    else match FirstApplication(e)
         case Some((nonRetryable, errType)) => !nonRetryable && errType == FirstForeign(e).value
         case None => TypeName(e) == FirstForeign(e).value
  }

  lemma {:induction false} FinalsSplit(e: Error)
    ensures HasFinal(e) <==> HasLastingFinal(e) || EndsInWorkflowPanic(e)
  {
    if e.Wrapping? && e.cause.Some? {
      FinalsSplit(e.cause.value);
    }
  }

  /** The arriving chain read with `errors.As`. */
  lemma {:induction false} ArrivingChain(dc: Converter, e: Error)
    requires NoPanicTypes(e)
    ensures var r := Arrives(dc, e);
            && HasFinal(r) == HasLastingFinal(e) && FirstTimeout(r) == FirstTimeout(e)
            && FirstApplication(r) == match FirstForeign(e)
                                      case Some(errType) => Some((false, errType))
                                      case None => FirstApplication(e)
  {
    if e.Wrapping? && e.cause.Some? {
      ArrivingChain(dc, e.cause.value);
    }
  }

  lemma {:induction false} PlainReadsAlike(dc: Converter, e: Error)
    ensures HasFinal(Plain(dc, e)) == HasFinal(e) && FirstTimeout(Plain(dc, e)) == FirstTimeout(e)
    ensures FirstApplication(Plain(dc, e)) == FirstApplication(e)
  {
    if e.Wrapping? && e.cause.Some? {
      PlainReadsAlike(dc, e.cause.value);
    }
  }

  /** What is read off the arrived chain. */
  lemma ArrivedChain(dc: Converter, e: Error)
    requires dc.Lawful() && NothingStored(e) && NoPanicTypes(e)
    ensures var r := RoundTrip(dc, e);
            && HasFinal(r) == HasLastingFinal(e) && FirstTimeout(r) == FirstTimeout(e)
            && FirstApplication(r) == (match FirstForeign(e)
                                       case Some(errType) => Some((false, errType))
                                       case None => FirstApplication(e))
            && (FirstForeign(e).None? && !e.Leaf? ==> TypeName(r) == TypeName(e))
            && (e.Leaf? ==> TypeName(r) == if e.leaf.Terminated? then TypeName(e) else PANIC_TYPE)
  {
    ChainArrives(dc, e);
    ArrivingChain(dc, e);
    PlainReadsAlike(dc, RoundTrip(dc, e));
    assert TypeName(RoundTrip(dc, e)) == TypeName(Arrives(dc, e));
  }

  /** Two errors are retried alike for every list of types. */
  ghost predicate RetriedAlike(a: Error, b: Error) {
    forall types :: IsRetryable(a, types) == IsRetryable(b, types)
  }

  /** A chain that is never retried before is stable when it is never retried after. */
  lemma NeverBefore(r: Error, e: Error)
    requires HasFinal(e) && !HasFinal(r)
    ensures RetriedAlike(r, e) <==>
              match FirstTimeout(r)
              case Some(timeoutType) => !Retried(timeoutType)
              case None => FirstApplication(r).Some? && FirstApplication(r).value.0
  {
    assert !IsRetryable(e, []);
    if FirstTimeout(r).None? && FirstApplication(r).None? {
      assert IsRetryable(r, []);
    } else if FirstTimeout(r).None? && !FirstApplication(r).value.0 {
      assert IsRetryable(r, []);
    } else if FirstTimeout(r).Some? && Retried(FirstTimeout(r).value) {
      assert IsRetryable(r, []);
    }
  }

  /** A foreign error that comes first decides after; before, what comes behind it or the outermost type. */
  lemma ForeignFirst(r: Error, e: Error, foreign: string)
    requires !HasFinal(e) && !HasFinal(r) && FirstTimeout(e).None? && FirstTimeout(r).None?
    requires FirstApplication(r) == Some((false, foreign))
    ensures RetriedAlike(r, e) <==>
              match FirstApplication(e)
              case Some((nonRetryable, errType)) => !nonRetryable && errType == foreign
              case None => TypeName(e) == foreign
  {
    assert forall types :: IsRetryable(r, types) == (foreign !in types);
    if FirstApplication(e).Some? {
      var (nonRetryable, errType) := FirstApplication(e).value;
      assert IsRetryable(r, []) && (nonRetryable ==> !IsRetryable(e, []));
      assert !nonRetryable ==> !IsRetryable(e, [errType]);
      assert foreign != errType ==> IsRetryable(r, [errType]);
    } else {
      assert !IsRetryable(e, [TypeName(e)]);
      assert foreign != TypeName(e) ==> IsRetryable(r, [TypeName(e)]);
    }
  }

  /** Crossing the wire changes no retry decision, for any list of non-retryable types, exactly when
      the chain is retry-stable. */
  lemma RetryAgreesIff(dc: Converter, e: Error)
    requires dc.Lawful() && NothingStored(e) && NoPanicTypes(e)
    ensures RetriedAlike(RoundTrip(dc, e), e) <==> RetryStable(e)
  {
    var r := RoundTrip(dc, e);
    ArrivedChain(dc, e);
    FinalsSplit(e);
    if !HasLastingFinal(e) {
      if EndsInWorkflowPanic(e) {
        NeverBefore(r, e);
      } else if FirstTimeout(e).None? && FirstForeign(e).Some? {
        ForeignFirst(r, e, FirstForeign(e).value);
      }
    }
  }

  // ---------------------------------------------------------------- chains with panic types

  /** What `IsRetryable` comes to for one error, over all lists of types. */
  datatype Decision = Never | Always | Unless(errType: string)

  function Decide(final: bool, timeout: Option<TimeoutType>, application: Option<(bool, string)>, name: string)
    : Decision
  {
    if final then Never
    else if timeout.Some? then (if Retried(timeout.value) then Always else Never)
    else match application
         case Some((nonRetryable, errType)) => if nonRetryable then Never else Unless(errType)
         case None => Unless(name)
  }

  function DecisionOf(e: Error): Decision {
    Decide(HasFinal(e), FirstTimeout(e), FirstApplication(e), TypeName(e))
  }

  /** The part of a chain that arrives: an error with the type name of a panic cuts it off. */
  function Visible(e: Error): Error {
    match e
    case Leaf(_, _) => e
    case Wrapping(kind, cause, original) =>
      if PanicTyped(kind) then Leaf(LeafKind.Panic("", ""), None)
      else Wrapping(kind, match cause case Some(c) => Some(Visible(c)) case None => None, original)
  }

  /** The decision after the wire, read off the visible part before it: workflow panics no longer count,
      and foreign errors count as application errors. */
  function ArrivingDecision(e: Error): Decision {
    var v := Visible(e);
    var application :=
      match FirstForeign(v) case Some(errType) => Some((false, errType)) case None => FirstApplication(v);
    var name := if v.Leaf? && !v.leaf.Terminated? then PANIC_TYPE else TypeName(v);
    Decide(HasLastingFinal(v), FirstTimeout(v), application, name)
  }

  lemma SameDecision(a: Error, b: Error)
    ensures RetriedAlike(a, b) <==> DecisionOf(a) == DecisionOf(b)
  {
    var x, y := DecisionOf(a), DecisionOf(b);
    assert IsRetryable(a, []) == !x.Never? && IsRetryable(b, []) == !y.Never?;
    if x.Unless? {
      assert !IsRetryable(a, [x.errType]) && (y != x && !y.Never? ==> IsRetryable(b, [x.errType]));
    }
    if y.Unless? {
      assert !IsRetryable(b, [y.errType]) && (x != y && !x.Never? ==> IsRetryable(a, [y.errType]));
    }
  }

  lemma {:induction false} VisibleArrives(dc: Converter, e: Error)
    ensures NoPanicTypes(Visible(e))
    ensures var r := Arrives(dc, e);
            && HasFinal(r) == HasLastingFinal(Visible(e)) && FirstTimeout(r) == FirstTimeout(Visible(e))
            && FirstApplication(r) == match FirstForeign(Visible(e))
                                      case Some(errType) => Some((false, errType))
                                      case None => FirstApplication(Visible(e))
  {
    if e.Wrapping? && e.cause.Some? {
      VisibleArrives(dc, e.cause.value);
    }
  }

  lemma {:induction false} VisiblePart(e: Error)
    ensures HasLastingFinal(Visible(e)) ==> HasFinal(e)
    ensures FirstTimeout(Visible(e)).Some? ==> FirstTimeout(e) == FirstTimeout(Visible(e))
    ensures FirstApplication(Visible(e)).Some? ==> FirstApplication(e) == FirstApplication(Visible(e))
  {
    if e.Wrapping? && e.cause.Some? {
      VisiblePart(e.cause.value);
    }
  }

  /** The name by which the outermost error is known after the wire. */
  function ArrivingName(e: Error): string {
    if e.Wrapping? && PanicTyped(e.kind) then PANIC_TYPE else TypeName(e)
  }

  /** Any chain, of which only the part before the first panic type arrives.  A cancelation or termination
      in that part decides in any case.  A timeout in it decides too, unless it is retried and the chain
      holds an error that never is.  Otherwise, if the whole chain holds such an error or a timeout, that
      must be one that is not retried, and a non-retryable application error of the part, with no foreign
      error before it, must confirm it.  Otherwise the first application error of the part decides, unless
      a foreign error comes before it or there is none: then the type of that foreign error, or the name
      of the chain, has to be the type that decides before. */
  predicate StableChain(e: Error) {
    var v := Visible(e);
    if HasLastingFinal(v) then true
    else if FirstTimeout(v).Some? then !HasFinal(e) || !Retried(FirstTimeout(v).value)
    else if HasFinal(e) || FirstTimeout(e).Some? then
      && (HasFinal(e) || !Retried(FirstTimeout(e).value))
      && FirstForeign(v).None? && FirstApplication(v).Some? && FirstApplication(v).value.0
    else if FirstForeign(v).None? && FirstApplication(v).Some? then true
    else
      var errType := match FirstForeign(v) case Some(foreign) => foreign case None => ArrivingName(e);
      match FirstApplication(e)
      case Some((nonRetryable, before)) => !nonRetryable && before == errType
      case None => TypeName(e) == errType
  }

  lemma StableDecision(e: Error)
    ensures ArrivingDecision(e) == DecisionOf(e) <==> StableChain(e)
  {
    VisiblePart(e);
    FinalsSplit(Visible(e));
  }

  /** For any chain, panic types included: crossing the wire changes no retry decision, for any list of
      non-retryable types, exactly when the chain is stable. */
  lemma RetryAgreesForAnyChain(dc: Converter, e: Error)
    requires dc.Lawful() && NothingStored(e)
    ensures RetriedAlike(RoundTrip(dc, e), e) <==> StableChain(e)
  {
    var r := RoundTrip(dc, e);
    ChainArrives(dc, e);
    VisibleArrives(dc, e);
    PlainReadsAlike(dc, r);
    assert TypeName(r) == TypeName(Arrives(dc, e));
    assert DecisionOf(r) == ArrivingDecision(e);
    SameDecision(r, e);
    StableDecision(e);
  }

  /** An SDK error whose chain comes back unchanged is retried exactly as before. */
  lemma SurvivorsRetryAlike(dc: Converter, e: Error, types: seq<string>)
    requires dc.Lawful() && NothingStored(e) && Survives(e)
    ensures IsRetryable(RoundTrip(dc, e), types) == IsRetryable(e, types)
  {
    RoundTripIff(dc, e);
    PlainReadsAlike(dc, e);
    PlainReadsAlike(dc, RoundTrip(dc, e));
    assert TypeName(Plain(dc, e)) == TypeName(e);
  }

  /** A Go error around a non-retryable ApplicationError is not retried before, and retried after. */
  lemma WrappedNonRetryableIsRetriedAfter(dc: Converter)
    requires dc.Lawful()
    ensures var inner := Wrapping(Application("no", "Fatal", true, Values([]), 0, 0), None, None);
            var e := Wrapping(GoError("wrapError", "context: no"), Some(inner), None);
            !IsRetryable(e, []) && IsRetryable(RoundTrip(dc, e), [])
  {
    var inner := Wrapping(Application("no", "Fatal", true, Values([]), 0, 0), None, None);
    var e := Wrapping(GoError("wrapError", "context: no"), Some(inner), None);
    ChainArrives(dc, e);
    PlainReadsAlike(dc, RoundTrip(dc, e));
    ArrivingChain(dc, e);
  }

  /** A workflow panic is not retried before; it arrives as a PanicError, which is. */
  lemma WorkflowPanicIsRetriedAfter(dc: Converter, value: string, stackTrace: string)
    requires dc.Lawful()
    ensures var e := Leaf(WorkflowPanic(value, stackTrace), None);
            !IsRetryable(e, []) && IsRetryable(RoundTrip(dc, e), [])
  {
    var e := Leaf(WorkflowPanic(value, stackTrace), None);
    ChainArrives(dc, e);
  }
}
