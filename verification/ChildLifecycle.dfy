/** A child workflow against a lawful server: which event orders the state machine survives, and
    when it leaves the indexes. */
module ChildLifecycle {
  import opened Basics
  import opened CommandMachine
  import opened HelperState
  import opened Invariants

  /** Where the server stands with the child. */
  datatype Phase = NotSent | StartInFlight | Scheduled | Running | Ended

  /** The request to cancel the child: none, waiting to be sent, sent, recorded, and answered. */
  datatype Request = NoRequest | Asked | RequestInFlight | Recorded | Accepted | Rejected

  /** The machine (`None` once it left the indexes) and the server's view. */
  datatype Life = Life(machine: Option<CommandState>, phase: Phase, request: Request)

  const NEW_CHILD := Life(Some(Created), NotSent, NoRequest)

  datatype ChildStep =
    | CancelCall
    | Send
    | InitiatedEvent
    | StartFailedEvent
    | StartedEvent
    | ClosedEvent
    | CanceledEvent
    | CancelInitiatedEvent
    | CancelAcceptedEvent
    | CancelFailedEvent

  function MachineEventOf(step: ChildStep): MachineEvent {
    match step
    case CancelCall => EvCancel
    case Send => EvSent
    case InitiatedEvent => EvInitiated
    case StartFailedEvent => EvInitiationFailed
    case StartedEvent => EvStarted
    case ClosedEvent => EvCompletion
    case CanceledEvent => EvCanceled
    case CancelInitiatedEvent => EvCancelInitiated
    case CancelAcceptedEvent => EvExternalCancelRequested
    case CancelFailedEvent => EvCancelFailed
  }

  /** The order that the server keeps; workflow code may cancel at any time and more than once.  A
      response is sent when everything sent before was recorded, and the event that records a command
      comes before anything else that concerns the child. */
  predicate Lawful(l: Life, step: ChildStep) {
    match step
    case CancelCall => true
    case Send => Quiet(l)
    case InitiatedEvent => l.phase == StartInFlight
    case StartFailedEvent | StartedEvent => l.phase == Scheduled
    case ClosedEvent | CanceledEvent => l.phase == Running && Quiet(l)
    case CancelInitiatedEvent => l.request == RequestInFlight
    case CancelAcceptedEvent | CancelFailedEvent => l.request == Recorded
  }

  predicate Quiet(l: Life) {
    l.phase != StartInFlight && l.request != RequestInFlight
  }

  /** The server's view after a step; a sent command is in flight.  A child cancelled before it was sent
      is not sent at all, and a cancellation is sent once the child runs. */
  function Observe(l: Life, step: ChildStep): Life {
    match step
    case CancelCall => if l.request == NoRequest || l.request == Rejected then l.(request := Asked) else l
    case Send =>
      if l.phase == NotSent && l.request == NoRequest then l.(phase := StartInFlight)
      else if l.phase == Running && l.request == Asked then l.(request := RequestInFlight)
      else l
    case InitiatedEvent => l.(phase := Scheduled)
    case StartedEvent => l.(phase := Running)
    case StartFailedEvent | ClosedEvent | CanceledEvent =>
      l.(phase := Ended, request := if l.request == Asked then NoRequest else l.request)
    case CancelInitiatedEvent => l.(request := Recorded)
    case CancelAcceptedEvent => l.(request := Accepted)
    case CancelFailedEvent => l.(request := Rejected)
  }

  /** An event for a machine that left the indexes panics, like an illegal transition. */
  function LifeStep(l: Life, step: ChildStep): Result<Life> {
    match l.machine
    case None => if step.Send? then Ok(l) else Panic
    case Some(s) =>
      match MoveOf(ChildType, s, MachineEventOf(step))
      case Illegal => Panic
      case Stay => Ok(Observe(l, step))
      case To(s') => Ok(Observe(l, step).(machine := if s' == Completed then None else Some(s')))
  }

  function LifeRun(l: Life, steps: seq<ChildStep>): Result<Life>
    decreases |steps|
  {
    if steps == [] then Ok(l)
    else
      var l' :- LifeStep(l, steps[0]);
      LifeRun(l', steps[1..])
  }

  /** Every step of the run is lawful, as far as the run gets. */
  predicate LawfulRun(l: Life, steps: seq<ChildStep>)
    decreases |steps|
  {
    steps == [] ||
    (Lawful(l, steps[0]) && (LifeStep(l, steps[0]).Ok? ==> LawfulRun(LifeStep(l, steps[0]).value, steps[1..])))
  }

  /** The child ended and no cancel request is outstanding. */
  predicate Settled(l: Life) {
    l.phase == Ended && l.request in {NoRequest, Accepted, Rejected}
  }

  /** What the machine's state says about the server. */
  predicate Consistent(l: Life) {
    match l.machine
    case None => Settled(l)
    case Some(s) =>
      match s
      case Created => l.phase == NotSent && l.request == NoRequest
      case CanceledBeforeSent => l.phase == NotSent && l.request == Asked
      case CommandSent => l.phase == StartInFlight && l.request == NoRequest
      case Initiated => l.phase == Scheduled && l.request == NoRequest
      case CanceledAfterInitiated => l.phase == Scheduled && l.request == Asked
      case Started => l.phase == Running && l.request in {NoRequest, Rejected}
      case CanceledAfterStarted => l.phase == Running && l.request == Asked
      case CancellationCommandSent =>
        || (l.phase == StartInFlight && l.request == Asked)
        || (l.phase == Running && l.request in {RequestInFlight, Recorded})
      case CancellationCommandAccepted => l.phase == Running && l.request == Accepted
      case CompletedAfterCancellationCommandSent => l.phase == Ended && l.request == Recorded
      case _ => false
  }

  /** What a child does not survive: a failed start, or the record of its start, while its cancellation
      waits to be sent; and a cancellation when it was taken back or waits to be sent, when an earlier
      one was accepted, or when the child is no longer listed. */
  predicate Breaks(l: Life, step: ChildStep) {
    match step
    case StartFailedEvent => l.request == Asked
    case InitiatedEvent => l.request == Asked
    case CancelCall => Settled(l) || l.request == Accepted || (l.request == Asked && l.phase in {NotSent, Running})
    case _ => false
  }

  lemma LawfulStep(l: Life, step: ChildStep)
    requires Consistent(l) && Lawful(l, step)
    ensures LifeStep(l, step).Panic? <==> Breaks(l, step)
    ensures LifeStep(l, step).Ok? ==> Consistent(LifeStep(l, step).value)
  {
  }

  /** Under a lawful server a run panics exactly where a step breaks the child.  Every other order,
      including both orders of closing and answering the cancel request, and a second cancellation after
      a rejected one, is legal, and the machine is listed exactly until the child ended and no request
      is outstanding. */
  lemma {:induction false} ChildSurvivesIff(l: Life, steps: seq<ChildStep>)
    requires Consistent(l) && LawfulRun(l, steps)
    ensures LifeRun(l, steps).Panic? <==>
              exists j | 0 <= j < |steps| ::
                LifeRun(l, steps[..j]).Ok? && Breaks(LifeRun(l, steps[..j]).value, steps[j])
    ensures LifeRun(l, steps).Ok? ==>
              Consistent(LifeRun(l, steps).value) &&
              (LifeRun(l, steps).value.machine.None? <==> Settled(LifeRun(l, steps).value))
    decreases |steps|
  {
    if steps != [] {
      LawfulStep(l, steps[0]);
      assert LifeRun(l, steps[..0]) == Ok(l);
      if LifeStep(l, steps[0]).Ok? {
        var l' := LifeStep(l, steps[0]).value;
        ChildSurvivesIff(l', steps[1..]);
        forall j | 1 <= j <= |steps| ensures LifeRun(l, steps[..j]) == LifeRun(l', steps[1..][..j - 1]) {
          assert steps[..j][1..] == steps[1..][..j - 1];
        }
        assert forall j | 0 <= j < |steps| - 1 :: steps[1..][j] == steps[j + 1];
      }
    }
  }

  /** Started, recorded, cancelled, and then the start fails: an illegal transition. */
  lemma FailedStartAfterCancelPanics()
    ensures LifeRun(NEW_CHILD, [Send, InitiatedEvent] + [CancelCall, StartFailedEvent]).Panic?
  {
    var tail := [CancelCall, StartFailedEvent];
    var steps := [Send, InitiatedEvent] + tail;
    var l1 := Life(Some(CommandSent), StartInFlight, NoRequest);
    var l2 := Life(Some(Initiated), Scheduled, NoRequest);
    var l3 := Life(Some(CanceledAfterInitiated), Scheduled, Asked);
    assert steps[1..][1..] == tail && tail[1..] == [StartFailedEvent];
    assert LifeRun(l3, tail[1..]).Panic?;
    assert LifeRun(l2, tail).Panic?;
    assert LifeRun(l1, steps[1..]).Panic?;
  }

  // ---------------------------------------------------------------- in the helper

  predicate Closes(event: Event, w: string) {
    event == ChildClosed(w) || event == ChildCanceled(w)
  }

  predicate Answers(event: Event, e: int, w: string) {
    event == ExternalCancelRequested(e, w) || event == ExternalCancelFailed(e, w)
  }

  /** Once the cancel command was sent, closing the child and answering the request commute: both
      orders are legal, lead to the same helper, and remove the child at the second event. */
  lemma CancelConfluence(h: Helper, w: string, e: int, close: Event, answer: Event)
    requires Inv(h) && e !in h.cancellationIDs && Closes(close, w) && Answers(answer, e, w)
    requires Find(h.machines, ChildID(w)).Some?
    requires h.machines[Find(h.machines, ChildID(w)).value].state == CancellationCommandSent
    ensures var gone := h.(machines := RemoveAt(h.machines, Find(h.machines, ChildID(w)).value));
            && OnEvent(h, close).Ok? && Find(OnEvent(h, close).value.machines, ChildID(w)).Some?
            && OnEvent(h, answer).Ok? && Find(OnEvent(h, answer).value.machines, ChildID(w)).Some?
            && OnEvent(OnEvent(h, close).value, answer) == Ok(gone)
            && OnEvent(OnEvent(h, answer).value, close) == Ok(gone)
            && Find(gone.machines, ChildID(w)).None?
  {
    var i := Find(h.machines, ChildID(w)).value;
    InOrder(h, w, e, i, close, answer);
    InOrder(h, w, e, i, answer, close);
    RemoveEffect(h.machines, i);
    forall j | 0 <= j < |RemoveAt(h.machines, i)| ensures RemoveAt(h.machines, i)[j].id != ChildID(w) {
      assert RemoveAt(h.machines, i)[j] in RemoveAt(h.machines, i);
    }
  }

  function ChildEventOf(event: Event): MachineEvent
    requires event.ChildClosed? || event.ChildCanceled? || event.ExternalCancelRequested? || event.ExternalCancelFailed?
  {
    match event
    case ChildClosed(_) => EvCompletion
    case ChildCanceled(_) => EvCanceled
    case ExternalCancelRequested(_, _) => EvExternalCancelRequested
    case ExternalCancelFailed(_, _) => EvCancelFailed
  }

  lemma ChildEventFires(h: Helper, w: string, e: int, event: Event)
    requires e !in h.cancellationIDs && (Closes(event, w) || Answers(event, e, w))
    ensures OnEvent(h, event) == FireOn(h, ChildID(w), ChildEventOf(event))
  {
  }

  lemma InOrder(h: Helper, w: string, e: int, i: nat, first: Event, second: Event)
    requires e !in h.cancellationIDs && Find(h.machines, ChildID(w)) == Some(i)
    requires h.machines[i].state == CancellationCommandSent
    requires (Closes(first, w) && Answers(second, e, w)) || (Answers(first, e, w) && Closes(second, w))
    ensures OnEvent(h, first).Ok? && Find(OnEvent(h, first).value.machines, ChildID(w)).Some?
    ensures OnEvent(OnEvent(h, first).value, second) == Ok(h.(machines := RemoveAt(h.machines, i)))
  {
    var e1, e2 := ChildEventOf(first), ChildEventOf(second);
    var s := PairMoves(e1, e2);
    var h1 := h.(machines := h.machines[i := h.machines[i].(state := s)]);
    FireTwice(h, ChildID(w), i, e1, e2, s);
    ChildEventFires(h, w, e, first);
    ChildEventFires(h1, w, e, second);
  }

  lemma PairMoves(e1: MachineEvent, e2: MachineEvent) returns (s: CommandState)
    requires var close, answer := {EvCompletion, EvCanceled}, {EvExternalCancelRequested, EvCancelFailed};
             (e1 in close && e2 in answer) || (e1 in answer && e2 in close)
    ensures MoveOf(ChildType, CancellationCommandSent, e1) == To(s) && s != Completed
    ensures MoveOf(ChildType, s, e2) == To(Completed)
  {
    s := MoveOf(ChildType, CancellationCommandSent, e1).state;
  }

  lemma FireTwice(h: Helper, id: CommandID, i: nat, e1: MachineEvent, e2: MachineEvent, s: CommandState)
    requires Find(h.machines, id) == Some(i) && s != Completed
    requires MoveOf(id.ctype, h.machines[i].state, e1) == To(s) && MoveOf(id.ctype, s, e2) == To(Completed)
    ensures var h1 := h.(machines := h.machines[i := h.machines[i].(state := s)]);
            && FireOn(h, id, e1) == Ok(h1) && Find(h1.machines, id) == Some(i)
            && FireOn(h1, id, e2) == Ok(h.(machines := RemoveAt(h.machines, i)))
  {
    TwoEvents(h, id, i, s);
  }

  /** Moving the machine leaves it where it was, so removing it later removes the same one. */
  lemma TwoEvents(h: Helper, id: CommandID, i: nat, s: CommandState)
    requires Find(h.machines, id) == Some(i)
    ensures Find(h.machines[i := h.machines[i].(state := s)], id) == Some(i)
    ensures RemoveAt(h.machines[i := h.machines[i].(state := s)], i) == RemoveAt(h.machines, i)
  {
    FindUpdate(h.machines, i, h.machines[i].(state := s), id);
  }

  lemma {:induction false} FindUpdate(ms: seq<Machine>, i: nat, x: Machine, id: CommandID)
    requires i < |ms| && x.id == ms[i].id
    ensures Find(ms[i := x], id) == Find(ms, id)
  {
    if i == 0 {
      assert ms[i := x][1..] == ms[1..];
    } else {
      assert ms[i := x][1..] == ms[1..][i - 1 := x];
      FindUpdate(ms[1..], i - 1, x, id);
    }
  }
}
