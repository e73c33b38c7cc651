/** What each history event does to the machine that it is about: when it is accepted, and what becomes
    of the machine. */
module EventOutcomes {
  import opened Basics
  import opened CommandMachine
  import opened HelperState
  import opened Invariants
  import opened MachineRuns

  /** The machine that an event is about, if the lookups know it. */
  function Subject(h: Helper, event: Event): Option<CommandID>
    requires Routed(event)
  {
    match event
    case ActivityScheduled(a, e) => if e in h.activityIDs then Some(ActivityID(a)) else None
    case ActivityClosed(e) => if e in h.activityIDs then Some(ActivityID(h.activityIDs[e])) else None
    case ActivityCancelRequested(e) => if e in h.activityIDs then Some(ActivityID(h.activityIDs[e])) else None
    case ActivityCanceled(e) => if e in h.activityIDs then Some(ActivityID(h.activityIDs[e])) else None
    case TimerStarted(t) => Some(TimerID(t))
    case TimerFired(t) => Some(TimerID(t))
    case TimerCanceled(t) => Some(TimerID(t))
    case ChildInitiated(w) => Some(ChildID(w))
    case ChildStartFailed(w) => Some(ChildID(w))
    case ChildStarted(w) => Some(ChildID(w))
    case ChildClosed(w) => Some(ChildID(w))
    case ChildCanceled(w) => Some(ChildID(w))
    case ExternalCancelInitiated(_, w, c) => Some(if c == "" then ChildID(w) else CancellationID(c))
    case ExternalCancelRequested(e, w) => Some(Requested(h, e, w))
    case ExternalCancelFailed(e, w) => Some(Requested(h, e, w))
    case SignalInitiated(_, s) => Some(SignalID(s))
    case SignalClosed(e) => if e in h.signalIDs then Some(SignalID(h.signalIDs[e])) else None
    case NexusStarted(e) => if e in h.nexusIDs then Some(h.nexusIDs[e]) else None
    case NexusCompleted(e) => if e in h.nexusIDs then Some(h.nexusIDs[e]) else None
  }

  /** What a request to cancel another workflow was for. */
  function Requested(h: Helper, eventID: int, workflowID: string): CommandID {
    if eventID in h.cancellationIDs then CancellationID(h.cancellationIDs[eventID]) else ChildID(workflowID)
  }

  /** The event panics, or the machine leaves the list, or it is in this state afterwards. */
  datatype Outcome = Refused | Leaves | Turns(state: CommandState)

  /** A command that was sent is recorded.  A timer or activity that was cancelled before may have been
      sent together with its cancel command, or have its cancel command still to be sent. */
  function WhenRecorded(s: CommandState): Outcome {
    if s == CommandSent then Turns(Initiated)
    else if s == CanceledBeforeSent || s == CancellationCommandSent then Turns(CanceledAfterInitiated)
    else Refused
  }

  /** A timer fires or an activity closes. */
  function WhenClosed(s: CommandState): Outcome {
    if s == Initiated || s == CanceledAfterInitiated then Leaves
    else if s == CancellationCommandSent then Turns(CompletedAfterCancellationCommandSent)
    else Refused
  }

  /** A child closes: it may be cancelled, and waits for the answer to a cancel request. */
  function WhenChildClosed(s: CommandState): Outcome {
    if s == CancellationCommandSent then Turns(CompletedAfterCancellationCommandSent)
    else if s in {Created, CommandSent, CanceledBeforeSent} then Refused
    else Leaves
  }

  /** A child ends as cancelled, which it can be without a request of this workflow. */
  function WhenChildCanceled(s: CommandState): Outcome {
    if s == CancellationCommandSent then Turns(CompletedAfterCancellationCommandSent)
    else if s in {Started, CanceledAfterInitiated, CanceledAfterStarted, CancellationCommandAccepted} then Leaves
    else Refused
  }

  /** A request to cancel is recorded. */
  function WhenRequested(s: CommandState): Outcome {
    if s == Initiated then Turns(CanceledAfterInitiated)
    else if s == CanceledAfterInitiated || s == CancellationCommandSent then Turns(s)
    else Refused
  }

  /** What an event does to a machine of type `t` in state `s`. */
  function Expected(event: Event, t: CommandType, s: CommandState): Outcome
    requires Routed(event)
  {
    match event
    case ActivityScheduled(_, _) => WhenRecorded(s)
    case TimerStarted(_) => WhenRecorded(s)
    case ActivityClosed(_) => WhenClosed(s)
    case TimerFired(_) => WhenClosed(s)
    case ActivityCancelRequested(_) => WhenRequested(s)
    case ActivityCanceled(_) => if s in {CanceledAfterInitiated, CancellationCommandSent} then Leaves else Refused
    case TimerCanceled(_) => if s in {CanceledAfterInitiated, CancellationCommandSent} then Leaves else Refused
    case ChildInitiated(_) => if s == CancellationCommandSent then Refused else WhenRecorded(s)
    case ChildStartFailed(_) => if s in {CommandSent, Initiated, CancellationCommandSent} then Leaves else Refused
    case ChildStarted(_) =>
      if s == Initiated then Turns(Started)
      else if s == CanceledAfterInitiated then Turns(CanceledAfterStarted)
      else Turns(s)
    case ChildClosed(_) => WhenChildClosed(s)
    case ChildCanceled(_) => WhenChildCanceled(s)
    case ExternalCancelInitiated(_, _, _) =>
      if t == ChildType then WhenRequested(s) else if s == CommandSent then Turns(Initiated) else Refused
    case ExternalCancelRequested(_, _) =>
      if t != ChildType then (if s == Initiated then Leaves else Refused)
      else if s == CompletedAfterCancellationCommandSent then Leaves
      else Turns(CancellationCommandAccepted)
    case ExternalCancelFailed(_, _) =>
      if t != ChildType then (if s == Initiated then Leaves else Refused)
      else if s == CompletedAfterCancellationCommandSent then Leaves
      else if s == CancellationCommandSent then Turns(Started)
      else Refused
    case SignalInitiated(_, _) => if s == CommandSent then Turns(Initiated) else Refused
    case SignalClosed(_) => if s == Initiated then Leaves else Refused
    case NexusStarted(_) => if s == Initiated then Turns(Started) else Refused
    case NexusCompleted(_) => if s == Initiated || s == Started then Leaves else Refused
  }

  predicate Refuses(event: Event, t: CommandType, s: CommandState)
    requires Routed(event)
  {
    Expected(event, t, s).Refused?
  }

  /** The state after the event, if the machine is still listed. */
  function Afterwards(event: Event, t: CommandType, s: CommandState): Option<CommandState>
    requires Routed(event)
  {
    match Expected(event, t, s)
    case Turns(s') => Some(s')
    case _ => None
  }

  lemma SubjectRouted(h: Helper, event: Event)
    requires Routed(event)
    ensures Route(h, event).Ok? <==> Subject(h, event).Some?
    ensures Route(h, event).Ok? ==> Route(h, event).value.0 == Subject(h, event).value
  {}

  /** The method that the event calls moves a machine as expected. */
  predicate AsExpected(h: Helper, event: Event, s: CommandState)
    requires Routed(event) && Route(h, event).Ok?
  {
    var r := Route(h, event).value;
    && (MoveOf(r.0.ctype, s, r.1).Illegal? <==> Refuses(event, r.0.ctype, s))
    && (!Refuses(event, r.0.ctype, s) ==>
          AfterEvent(r.0.ctype, Some(s), Some(r.1)) == Afterwards(event, r.0.ctype, s))
  }

  predicate OfTimer(event: Event) {
    event.TimerStarted? || event.TimerFired? || event.TimerCanceled?
  }

  predicate OfActivity(event: Event) {
    || event.ActivityScheduled? || event.ActivityClosed?
    || event.ActivityCancelRequested? || event.ActivityCanceled?
  }

  predicate OfChild(event: Event) {
    || event.ChildInitiated? || event.ChildStartFailed? || event.ChildStarted?
    || event.ChildClosed? || event.ChildCanceled?
  }

  lemma TimerExpected(h: Helper, event: Event, s: CommandState)
    requires OfTimer(event) && Route(h, event).Ok? && Possible(Route(h, event).value.0.ctype, s)
    ensures AsExpected(h, event, s)
  {}

  lemma ActivityExpected(h: Helper, event: Event, s: CommandState)
    requires OfActivity(event) && Route(h, event).Ok? && Possible(Route(h, event).value.0.ctype, s)
    ensures AsExpected(h, event, s)
  {}

  lemma ChildExpected(h: Helper, event: Event, s: CommandState)
    requires OfChild(event) && Route(h, event).Ok? && Possible(Route(h, event).value.0.ctype, s)
    ensures AsExpected(h, event, s)
  {}

  predicate OfExternal(event: Event) {
    || event.ExternalCancelInitiated? || event.ExternalCancelRequested? || event.ExternalCancelFailed?
    || event.SignalInitiated? || event.SignalClosed?
  }

  lemma ExternalExpected(h: Helper, event: Event, s: CommandState)
    requires OfExternal(event) && Route(h, event).Ok? && Possible(Route(h, event).value.0.ctype, s)
    ensures AsExpected(h, event, s)
  {}

  lemma NexusExpected(h: Helper, event: Event, s: CommandState)
    requires Inv(h) && (event.NexusStarted? || event.NexusCompleted?)
    requires Route(h, event).Ok? && Possible(Route(h, event).value.0.ctype, s)
    ensures AsExpected(h, event, s)
  {
    assert HasOpen(h.machines, h.nexusIDs[event.eventID]);
  }

  lemma MoveExpected(h: Helper, event: Event, s: CommandState)
    requires Inv(h) && Routed(event) && Route(h, event).Ok? && Possible(Route(h, event).value.0.ctype, s)
    ensures AsExpected(h, event, s)
  {
    if OfTimer(event) {
      TimerExpected(h, event, s);
    } else if OfActivity(event) {
      ActivityExpected(h, event, s);
    } else if OfChild(event) {
      ChildExpected(h, event, s);
    } else if OfExternal(event) {
      ExternalExpected(h, event, s);
    } else {
      NexusExpected(h, event, s);
    }
  }

  lemma ListedPossible(h: Helper, id: CommandID)
    requires Inv(h) && StateOf(h.machines, id).Some?
    ensures Possible(id.ctype, StateOf(h.machines, id).value)
  {
    var m := h.machines[Find(h.machines, id).value];
    assert m in h.machines && Sound(m, h.nextSerial);
  }

  lemma DeliverIff(h: Helper, event: Event)
    requires Routed(event) && Route(h, event).Ok?
    ensures OnEvent(h, event).Ok? <==>
              FireOn(Prepare(h, event), Route(h, event).value.0, Route(h, event).value.1).Ok?
  {}

  lemma FireIff(h: Helper, id: CommandID, e: MachineEvent)
    ensures FireOn(h, id, e).Ok? <==>
              StateOf(h.machines, id).Some? && !MoveOf(id.ctype, StateOf(h.machines, id).value, e).Illegal?
  {}

  /** In any reachable state, an event that is about one machine is accepted exactly when the lookups know
      that machine and it is listed in a state that expects the event. */
  lemma AcceptedIff(h: Helper, event: Event)
    requires Inv(h) && Routed(event)
    ensures OnEvent(h, event).Ok? <==>
              && Subject(h, event).Some?
              && StateOf(h.machines, Subject(h, event).value).Some?
              && var id := Subject(h, event).value;
                 !Refuses(event, id.ctype, StateOf(h.machines, id).value)
  {
    SubjectRouted(h, event);
    if Subject(h, event).Some? {
      var r := Route(h, event).value;
      RouteDelivers(h, event);
      PrepareProjects(h, event, r.0);
      DeliverIff(h, event);
      FireIff(Prepare(h, event), r.0, r.1);
      if StateOf(h.machines, r.0).Some? {
        ListedPossible(h, r.0);
        MoveExpected(h, event, StateOf(h.machines, r.0).value);
      }
    }
  }

  /** What becomes of the machine that an accepted event is about. */
  lemma OutcomeIs(h: Helper, event: Event)
    requires Inv(h) && Routed(event) && OnEvent(h, event).Ok?
    ensures Subject(h, event).Some? && StateOf(h.machines, Subject(h, event).value).Some?
    ensures var id := Subject(h, event).value;
            StateOf(OnEvent(h, event).value.machines, id)
            == Afterwards(event, id.ctype, StateOf(h.machines, id).value)
  {
    RouteOk(h, event);
    var id := Route(h, event).value.0;
    SubjectRouted(h, event);
    RouteDelivers(h, event);
    DeliveredTo(h, event, id);
    ListedPossible(h, id);
    MoveExpected(h, event, StateOf(h.machines, id).value);
  }

  /** All other machines stay as they are, save for the cancel command of a timer or activity that is
      over. */
  lemma OthersStay(h: Helper, event: Event, other: CommandID)
    requires Inv(h) && Routed(event) && OnEvent(h, event).Ok? && Subject(h, event) != Some(other)
    requires other.ctype !in {CancelTimerType, CancelActivityType}
    ensures StateOf(OnEvent(h, event).value.machines, other) == StateOf(h.machines, other)
  {
    RouteOk(h, event);
    SubjectRouted(h, event);
    DeliveredTo(h, event, other);
  }

  /** The lookups after an event that was accepted: an entry goes with the activity or operation that it
      names, and one is made for a signal or cancellation that is recorded. */
  lemma LookupsAfter(h: Helper, event: Event)
    requires Routed(event) && OnEvent(h, event).Ok?
    ensures var h' := OnEvent(h, event).value;
            && h'.activityIDs == (if event.ActivityClosed? || event.ActivityCanceled?
                                  then h.activityIDs - {event.eventID} else h.activityIDs)
            && h'.nexusIDs == (if event.NexusCompleted? then h.nexusIDs - {event.eventID} else h.nexusIDs)
            && h'.signalIDs == (if event.SignalInitiated?
                                then h.signalIDs[event.eventID := event.signalID] else h.signalIDs)
            && h'.cancellationIDs == (if event.ExternalCancelInitiated? && event.cancellationID != ""
                                      then h.cancellationIDs[event.eventID := event.cancellationID]
                                      else h.cancellationIDs)
            && h'.counter == h.counter && h'.nextSerial == h.nextSerial && h'.unscheduledNexus == h.unscheduledNexus
  {
    DeliverFires(h, event);
  }

  // ---------------------------------------------------------------- events of Nexus operations

  /** The listed request to cancel the operation that was scheduled with this event, if any. */
  function RequestOf(h: Helper, eventID: int): Option<nat> {
    if eventID !in h.nexusIDs then None
    else match Find(h.machines, h.nexusIDs[eventID])
         case None => None
         case Some(i) =>
           match h.machines[i].cancelation
           case None => None
           case Some(serial) => FindSerial(h.machines, serial)
  }

  /** A cancel request is recorded exactly when it was sent. */
  lemma RequestRecordedIff(h: Helper, e: int)
    requires Inv(h)
    ensures OnEvent(h, NexusCancelRequested(e)).Ok? <==>
              RequestOf(h, e).Some? && h.machines[RequestOf(h, e).value].state == CommandSent
    ensures OnEvent(h, NexusCancelRequested(e)).Ok? ==>
              var i := RequestOf(h, e).value;
              OnEvent(h, NexusCancelRequested(e))
              == Ok(h.(machines := h.machines[i := h.machines[i].(state := Initiated)]))
  {
    RequestType(h, e);
  }

  /** It is delivered exactly when it was recorded, or made without being sent, and leaves the list. */
  lemma RequestDeliveredIff(h: Helper, e: int)
    requires Inv(h)
    ensures OnEvent(h, NexusCancelDelivered(e)).Ok? <==>
              RequestOf(h, e).Some? && h.machines[RequestOf(h, e).value].state in {Created, Initiated}
    ensures OnEvent(h, NexusCancelDelivered(e)).Ok? ==>
              OnEvent(h, NexusCancelDelivered(e)) == Ok(h.(machines := RemoveAt(h.machines, RequestOf(h, e).value)))
  {
    RequestType(h, e);
  }

  lemma RequestType(h: Helper, e: int)
    requires Inv(h)
    ensures RequestOf(h, e).Some? ==> h.machines[RequestOf(h, e).value].id.ctype == CancelNexusType
  {
    if RequestOf(h, e).Some? {
      var m, c := h.machines[Find(h.machines, h.nexusIDs[e]).value], h.machines[RequestOf(h, e).value];
      assert m in h.machines && c in h.machines;
    }
  }

  /** A Scheduled event is accepted exactly when the first operation that waits for one was in a response,
      and goes to it. */
  lemma ScheduledIff(h: Helper, e: int)
    requires Inv(h)
    ensures h.unscheduledNexus != [] ==> FindSerial(h.machines, h.unscheduledNexus[0]).Some?
    ensures OnEvent(h, NexusScheduled(e)).Ok? <==>
              && h.unscheduledNexus != []
              && h.machines[FindSerial(h.machines, h.unscheduledNexus[0]).value].state == CommandSent
    ensures OnEvent(h, NexusScheduled(e)).Ok? ==>
              var i := FindSerial(h.machines, h.unscheduledNexus[0]).value;
              OnEvent(h, NexusScheduled(e))
              == Ok(h.(machines := h.machines[i := h.machines[i].(scheduledID := e, state := Initiated)],
                       unscheduledNexus := h.unscheduledNexus[1..],
                       nexusIDs := h.nexusIDs[e := h.machines[i].id]))
  {
    if h.unscheduledNexus != [] {
      assert HasWaiting(h.machines, h.unscheduledNexus[0]);
      var i := FindSerial(h.machines, h.unscheduledNexus[0]).value;
      WaitingAt(h.machines, h.unscheduledNexus[0], h.nextSerial, i);
      var m := h.machines[i].(scheduledID := e);
      assert h.machines[i := m][i := m.(state := Initiated)] == h.machines[i := m.(state := Initiated)];
    }
  }

  lemma WaitingAt(ms: seq<Machine>, serial: nat, n: nat, i: nat)
    requires Core(ms, n) && HasWaiting(ms, serial) && FindSerial(ms, serial) == Some(i)
    ensures Waiting(ms[i])
  {
    var m :| m in ms && m.serial == serial && Waiting(m);
    var j :| 0 <= j < |ms| && ms[j] == m;
  }
}
