/** The value of `commandsHelper` and the effect of each of its operations on it. */
module HelperState {
  import opened Basics
  import opened CommandMachine
  import opened EventCounter

  /** A state machine.  `serial` is the identity of the machine object, `scheduledID` the schedule
      ID of an activity or the scheduled event ID of a Nexus operation (0 until it is known), and
      `cancelation` the machine that requests the cancellation of a Nexus operation.  */
  datatype Machine = Machine(
    serial: nat,
    id: CommandID,
    state: CommandState,
    scheduledID: int,
    cancelation: Option<nat>)

  /** The fields of `commandsHelper`.  `nexusIDs` maps a scheduled event ID to the operation whose
      sequence number the source stores, and `unscheduledNexus` lists machines by serial. */
  datatype Helper = Helper(
    counter: Counter,
    machines: seq<Machine>,
    nextSerial: nat,
    activityIDs: map<int, string>,
    cancellationIDs: map<int, string>,
    signalIDs: map<int, string>,
    nexusIDs: map<int, CommandID>,
    unscheduledNexus: seq<nat>)

  const EMPTY_HELPER := Helper(Counter(0, map[]), [], 0, map[], map[], map[], map[], [])

  function ActivityID(activityID: string): CommandID { CommandID(ActivityType, Text(activityID)) }
  function CancelActivityID(eventID: int): CommandID { CommandID(CancelActivityType, Number(eventID)) }
  function TimerID(timerID: string): CommandID { CommandID(TimerType, Text(timerID)) }
  function CancelTimerID(timerID: Name): CommandID { CommandID(CancelTimerType, timerID) }
  function ChildID(workflowID: string): CommandID { CommandID(ChildType, Text(workflowID)) }
  function CancellationID(id: string): CommandID { CommandID(CancellationType, Text(id)) }
  function SignalID(id: string): CommandID { CommandID(SignalType, Text(id)) }
  function NexusID(seqNo: int): CommandID { CommandID(NexusType, Number(seqNo)) }
  function CancelNexusID(eventID: int): CommandID { CommandID(CancelNexusType, Number(eventID)) }

  // ---------------------------------------------------------------- the ordered list

  function Find(ms: seq<Machine>, id: CommandID): (r: Option<nat>)
    ensures r.Some? ==> r.value < |ms| && ms[r.value].id == id
    ensures r.None? ==> forall i | 0 <= i < |ms| :: ms[i].id != id
  {
    if ms == [] then None
    else if ms[0].id == id then Some(0)
    else match Find(ms[1..], id) case None => None case Some(i) => Some(i + 1)
  }

  function FindSerial(ms: seq<Machine>, serial: nat): (r: Option<nat>)
    ensures r.Some? ==> r.value < |ms| && ms[r.value].serial == serial
    ensures r.None? ==> forall i | 0 <= i < |ms| :: ms[i].serial != serial
  {
    if ms == [] then None
    else if ms[0].serial == serial then Some(0)
    else match FindSerial(ms[1..], serial) case None => None case Some(i) => Some(i + 1)
  }

  /** The state of the machine with this ID, if it is listed. */
  function StateOf(ms: seq<Machine>, id: CommandID): Option<CommandState> {
    match Find(ms, id)
    case Some(i) => Some(ms[i].state)
    case None => None
  }

  function RemoveAt(ms: seq<Machine>, i: nat): seq<Machine>
    requires i < |ms|
  {
    ms[..i] + ms[i + 1..]
  }

  function RemoveID(ms: seq<Machine>, id: CommandID): seq<Machine> {
    match Find(ms, id)
    case None => ms
    case Some(i) => RemoveAt(ms, i)
  }

  /** `moveState`: a machine that completes leaves both indexes. */
  function Settle(ms: seq<Machine>, i: nat, s: CommandState): seq<Machine>
    requires i < |ms|
  {
    if s == Completed then RemoveAt(ms, i) else ms[i := ms[i].(state := s)]
  }

  function FireAt(ms: seq<Machine>, i: nat, e: MachineEvent): Result<seq<Machine>>
    requires i < |ms|
  {
    match MoveOf(ms[i].id.ctype, ms[i].state, e)
    case Illegal => Panic
    case Stay => Ok(ms)
    case To(s) => Ok(Settle(ms, i, s))
  }

  /** `getCommand(id)` followed by one of the event methods. */
  function Fire(ms: seq<Machine>, id: CommandID, e: MachineEvent): Result<seq<Machine>> {
    match Find(ms, id)
    case None => Panic
    case Some(i) => FireAt(ms, i, e)
  }

  /** An event method called through a pointer; a machine outside the list has completed. */
  function FireSerial(ms: seq<Machine>, serial: nat, e: MachineEvent): Result<seq<Machine>> {
    match FindSerial(ms, serial)
    case None => Panic
    case Some(i) => FireAt(ms, i, e)
  }

  // ---------------------------------------------------------------- commands sent to the server

  datatype Command =
    | ScheduleActivityTask(name: Name)
    | RequestCancelActivityTask(name: Name)
    | StartTimerCommand(name: Name)
    | CancelTimerCommand(name: Name)
    | StartChildWorkflowExecution(name: Name)
    | RequestCancelExternalWorkflowExecution(name: Name)
    | RequestCancelChildWorkflow(name: Name)
    | SignalExternalWorkflowExecution(name: Name)
    | RecordMarkerCommand(name: Name)
    | UpsertWorkflowSearchAttributes(name: Name)
    | ModifyWorkflowProperties(name: Name)
    | ProtocolMessage(name: Name)
    | ScheduleNexusOperation(name: Name)
    | RequestCancelNexusOperation(name: Name)

  /** `getCommand`: the command to send in the current state, if any. */
  function CommandOf(m: Machine): Option<Command> {
    var n := m.id.name;
    match m.id.ctype
    case ActivityType =>
      if m.state in {Created, CanceledBeforeSent} then Some(ScheduleActivityTask(n)) else None
    case TimerType =>
      if m.state in {Created, CanceledBeforeSent} then Some(StartTimerCommand(n)) else None
    case ChildType =>
      if m.state == Created then Some(StartChildWorkflowExecution(n))
      else if m.state == CanceledAfterStarted then Some(RequestCancelChildWorkflow(n))
      else None
    case NexusType =>
      if m.state == Created && m.cancelation.None? then Some(ScheduleNexusOperation(n)) else None
    case t => if m.state == Created then Some(PlainCommand(t, n)) else None
  }

  function PlainCommand(t: CommandType, n: Name): Command
    requires t !in {ActivityType, TimerType, ChildType, NexusType}
  {
    match t
    case CancellationType => RequestCancelExternalWorkflowExecution(n)
    case MarkerType => RecordMarkerCommand(n)
    case SignalType => SignalExternalWorkflowExecution(n)
    case UpsertType => UpsertWorkflowSearchAttributes(n)
    case CancelTimerType => CancelTimerCommand(n)
    case CancelActivityType => RequestCancelActivityTask(n)
    case ModifyPropertiesType => ModifyWorkflowProperties(n)
    case ProtocolMessageType => ProtocolMessage(n)
    case CancelNexusType => RequestCancelNexusOperation(n)
  }

  predicate Emittable(m: Machine) {
    CommandOf(m).Some?
  }

  /** The machines with a command to send, in list order. */
  function Emitted(ms: seq<Machine>): seq<Machine> {
    if ms == [] then []
    else if Emittable(ms[0]) then [ms[0]] + Emitted(ms[1..])
    else Emitted(ms[1..])
  }

  /** What `getCommands` returns. */
  function Commands(ms: seq<Machine>): seq<Command> {
    if ms == [] then []
    else match CommandOf(ms[0])
         case Some(c) => [c] + Commands(ms[1..])
         case None => Commands(ms[1..])
  }

  /** The list after `getCommands`: `handleCommandSent` on every machine when the commands are
      marked as sent, then completed machines are dropped. */
  function AfterGet(ms: seq<Machine>, markAsSent: bool): seq<Machine> {
    if ms == [] then []
    else
      var m := Got(ms[0], markAsSent);
      if m.state == Completed then AfterGet(ms[1..], markAsSent)
      else [m] + AfterGet(ms[1..], markAsSent)
  }

  function Got(m: Machine, markAsSent: bool): Machine {
    if markAsSent then m.(state := SentState(m)) else m
  }

  function SentState(m: Machine): CommandState {
    match MoveOf(m.id.ctype, m.state, EvSent)
    case To(s) => s
    case _ => m.state
  }

  // ---------------------------------------------------------------- operations

  /** Calls from workflow code. */
  datatype Call =
    | GetNextID
    | ScheduleActivity(scheduleID: int, activityID: string)
    | CancelActivity(activityID: string)
    | StartTimer(timerID: string)
    | CancelTimer(timerID: string)
    | StartChild(workflowID: string)
    | CancelChild(workflowID: string)
    | CancelExternal(cancellationID: string)
    | SignalExternal(signalID: string)
    | RecordMarker(markerID: string)
    | UpsertSearchAttributes(upsertID: string)
    | ModifyProperties(changeID: string)
    | AddProtocolMessage(messageID: string)
    | ScheduleNexus(seqNo: int)
    | CancelNexus(seqNo: int)

  /** History events, with the attributes that the helper reads. */
  datatype Event =
    | WorkflowTaskStarted(eventID: int)
    | VersionMarkerRecorded(eventID: int, marker: VersionMarker)
    | ActivityScheduled(activityID: string, eventID: int)
    | ActivityClosed(eventID: int)
    | ActivityCancelRequested(eventID: int)
    | ActivityCanceled(eventID: int)
    | TimerStarted(timerID: string)
    | TimerFired(timerID: string)
    | TimerCanceled(timerID: string)
    | ChildInitiated(workflowID: string)
    | ChildStartFailed(workflowID: string)
    | ChildStarted(workflowID: string)
    | ChildClosed(workflowID: string)
    | ChildCanceled(workflowID: string)
    | ExternalCancelInitiated(eventID: int, workflowID: string, cancellationID: string)
    | ExternalCancelRequested(eventID: int, workflowID: string)
    | ExternalCancelFailed(eventID: int, workflowID: string)
    | SignalInitiated(eventID: int, signalID: string)
    | SignalClosed(eventID: int)
    | NexusScheduled(eventID: int)
    | NexusStarted(eventID: int)
    | NexusCompleted(eventID: int)
    | NexusCancelRequested(eventID: int)
    | NexusCancelDelivered(eventID: int)

  datatype Op = Invoke(call: Call) | Apply(event: Event) | GetCommands(markAsSent: bool)

  function NewMachine(h: Helper, id: CommandID, scheduledID: int): Machine {
    Machine(h.nextSerial, id, Created, scheduledID, None)
  }

  /** `addCommand` on a new machine. */
  function AddCommand(h: Helper, id: CommandID, scheduledID: int): Result<Helper> {
    if Find(h.machines, id).Some? then Panic
    else Ok(h.(machines := h.machines + [NewMachine(h, id, scheduledID)],
               nextSerial := h.nextSerial + 1,
               counter := h.counter.Add()))
  }

  function FireOn(h: Helper, id: CommandID, e: MachineEvent): Result<Helper> {
    var ms :- Fire(h.machines, id, e);
    Ok(h.(machines := ms))
  }

  /** `cancel` of a timer or activity: the first one adds the cancel command. */
  function CancelWithCommand(h: Helper, id: CommandID, cancelID: CommandID, scheduledID: int): Result<Helper> {
    match Find(h.machines, id)
    case None => Panic
    case Some(i) =>
      if h.machines[i].state in {Created, CommandSent, Initiated} then
        var h' :- AddCommand(h, cancelID, scheduledID);
        FireOn(h', id, EvCancel)
      else
        FireOn(h, id, EvCancel)
  }

  function CancelActivityNamed(h: Helper, id: CommandID): Result<Helper> {
    match Find(h.machines, id)
    case None => Panic
    case Some(i) =>
      var eventID := h.machines[i].scheduledID;
      CancelWithCommand(h, id, CancelActivityID(eventID), eventID)
  }

  /** `cancel` of a child: a started child moves to the back of the list and counts as a new command. */
  function CancelChildNamed(h: Helper, id: CommandID): Result<Helper> {
    match Find(h.machines, id)
    case None => Panic
    case Some(i) =>
      if h.machines[i].state == Started then
        Ok(h.(machines := RemoveAt(h.machines, i) + [h.machines[i].(state := CanceledAfterStarted)],
              counter := h.counter.Bump()))
      else
        FireOn(h, id, EvCancel)
  }

  /** `cancel` of a Nexus operation: adds a cancel command, which completes on the spot when the
      operation itself was not sent.  The operation stays among the unscheduled ones. */
  function CancelNexusAt(h: Helper, i: nat): Result<Helper>
    requires i < |h.machines|
  {
    var m := h.machines[i];
    if m.cancelation.Some? || m.state == Completed then Ok(h)
    else
      var h1 :- AddCommand(h, CancelNexusID(m.scheduledID), m.scheduledID);
      var h2 := h1.(machines := h1.machines[i := m.(cancelation := Some(h.nextSerial))]);
      if m.state == Created then FireOn(h2, CancelNexusID(m.scheduledID), EvCompletion) else Ok(h2)
  }

  function ScheduleNexusNamed(h: Helper, seqNo: int): Result<Helper> {
    AddCommand(h.(unscheduledNexus := h.unscheduledNexus + [h.nextSerial]), NexusID(seqNo), 0)
  }

  /** `handleNexusOperationScheduled`: the event goes to the first operation without an event ID. */
  function BindNexus(h: Helper, eventID: int): Result<Helper> {
    if h.unscheduledNexus == [] then Panic
    else
      match FindSerial(h.machines, h.unscheduledNexus[0])
      case None => Panic
      case Some(i) =>
        var m := h.machines[i];
        var ms :- FireAt(h.machines[i := m.(scheduledID := eventID)], i, EvInitiated);
        Ok(h.(machines := ms,
              unscheduledNexus := h.unscheduledNexus[1..],
              nexusIDs := h.nexusIDs[eventID := m.id]))
  }

  /** An event for the cancel request of a Nexus operation. */
  function FireCancelation(h: Helper, eventID: int, e: MachineEvent): Result<Helper> {
    if eventID !in h.nexusIDs then Panic
    else
      match Find(h.machines, h.nexusIDs[eventID])
      case None => Panic
      case Some(i) =>
        match h.machines[i].cancelation
        case None => Panic
        case Some(serial) =>
          var ms :- FireSerial(h.machines, serial, e);
          Ok(h.(machines := ms))
  }

  /** The calls that do nothing but add a command, and the command's ID. */
  function PlainID(call: Call): Option<CommandID> {
    match call
    case StartTimer(t) => Some(TimerID(t))
    case SignalExternal(s) => Some(SignalID(s))
    case RecordMarker(m) => Some(CommandID(MarkerType, Text(m)))
    case UpsertSearchAttributes(u) => Some(CommandID(UpsertType, Text(u)))
    case ModifyProperties(c) => Some(CommandID(ModifyPropertiesType, Text(c)))
    case AddProtocolMessage(m) => Some(CommandID(ProtocolMessageType, Text(m)))
    case CancelExternal(c) => Some(CancellationID(c))
    case _ => None
  }

  function OnCall(h: Helper, call: Call): Result<Helper> {
    match call
    case GetNextID =>
      var c :- h.counter.NextID();
      Ok(h.(counter := c))
    case ScheduleActivity(scheduleID, a) =>
      AddCommand(h.(activityIDs := h.activityIDs[scheduleID := a]), ActivityID(a), scheduleID)
    case CancelActivity(a) => CancelActivityNamed(h, ActivityID(a))
    case CancelTimer(t) => CancelWithCommand(h, TimerID(t), CancelTimerID(Text(t)), 0)
    case StartChild(w) => if Find(h.machines, ChildID(w)).Some? then Ok(h) else AddCommand(h, ChildID(w), 0)
    case CancelChild(w) => CancelChildNamed(h, ChildID(w))
    case ScheduleNexus(n) => ScheduleNexusNamed(h, n)
    case CancelNexus(n) =>
      (match Find(h.machines, NexusID(n))
       case None => Panic
       case Some(i) => CancelNexusAt(h, i))
    case _ => if call == CancelExternal("") then Panic else AddCommand(h, PlainID(call).value, 0)
  }

  /** The machine that a history event is for and the method it calls; the lookups must know it. */
  function Route(h: Helper, event: Event): Result<(CommandID, MachineEvent)>
    requires Routed(event)
  {
    match event
    case ActivityScheduled(a, e) => if e !in h.activityIDs then Panic else Ok((ActivityID(a), EvInitiated))
    case ActivityClosed(e) =>
      if e !in h.activityIDs then Panic else Ok((ActivityID(h.activityIDs[e]), EvCompletion))
    case ActivityCancelRequested(e) =>
      if e !in h.activityIDs then Panic else Ok((ActivityID(h.activityIDs[e]), EvCancelInitiated))
    case ActivityCanceled(e) =>
      if e !in h.activityIDs then Panic else Ok((ActivityID(h.activityIDs[e]), EvCanceled))
    case TimerStarted(t) => Ok((TimerID(t), EvInitiated))
    case TimerFired(t) => Ok((TimerID(t), EvCompletion))
    case TimerCanceled(t) => Ok((TimerID(t), EvCanceled))
    case ChildInitiated(w) => Ok((ChildID(w), EvInitiated))
    case ChildStartFailed(w) => Ok((ChildID(w), EvInitiationFailed))
    case ChildStarted(w) => Ok((ChildID(w), EvStarted))
    case ChildClosed(w) => Ok((ChildID(w), EvCompletion))
    case ChildCanceled(w) => Ok((ChildID(w), EvCanceled))
    case ExternalCancelInitiated(e, w, c) =>
      if c == "" then Ok((ChildID(w), EvCancelInitiated)) else Ok((CancellationID(c), EvInitiated))
    case ExternalCancelRequested(e, w) =>
      if e in h.cancellationIDs then Ok((CancellationID(h.cancellationIDs[e]), EvCompletion))
      else Ok((ChildID(w), EvExternalCancelRequested))
    case ExternalCancelFailed(e, w) =>
      if e in h.cancellationIDs then Ok((CancellationID(h.cancellationIDs[e]), EvCompletion))
      else Ok((ChildID(w), EvCancelFailed))
    case SignalInitiated(e, s) => Ok((SignalID(s), EvInitiated))
    case SignalClosed(e) => if e !in h.signalIDs then Panic else Ok((SignalID(h.signalIDs[e]), EvCompletion))
    case NexusStarted(e) => if e !in h.nexusIDs then Panic else Ok((h.nexusIDs[e], EvStarted))
    case NexusCompleted(e) => if e !in h.nexusIDs then Panic else Ok((h.nexusIDs[e], EvCompletion))
  }

  /** The events that go to one machine, found by command ID. */
  predicate Routed(event: Event) {
    && !event.WorkflowTaskStarted? && !event.VersionMarkerRecorded?
    && !event.NexusScheduled? && !event.NexusCancelRequested? && !event.NexusCancelDelivered?
  }

  /** What a handler does before the machine sees the event.  A closed activity or timer no longer
      needs the cancel command that may be waiting for it. */
  function Prepare(h: Helper, event: Event): Helper {
    match event
    case ActivityClosed(e) => h.(machines := RemoveID(h.machines, CancelActivityID(e)))
    case TimerFired(t) => h.(machines := RemoveID(h.machines, CancelTimerID(Text(t))))
    case ExternalCancelInitiated(e, w, c) =>
      if c == "" then h else h.(cancellationIDs := h.cancellationIDs[e := c])
    case SignalInitiated(e, s) => h.(signalIDs := h.signalIDs[e := s])
    case _ => h
  }

  /** The lookup entry that an event makes obsolete. */
  function Forget(h: Helper, event: Event): Helper {
    match event
    case ActivityClosed(e) => h.(activityIDs := h.activityIDs - {e})
    case ActivityCanceled(e) => h.(activityIDs := h.activityIDs - {e})
    case NexusCompleted(e) => h.(nexusIDs := h.nexusIDs - {e})
    case _ => h
  }

  function Deliver(h: Helper, event: Event): Result<Helper>
    requires Routed(event)
  {
    var r :- Route(h, event);
    var h' :- FireOn(Prepare(h, event), r.0, r.1);
    Ok(Forget(h', event))
  }

  function OnEvent(h: Helper, event: Event): Result<Helper> {
    match event
    case WorkflowTaskStarted(e) =>
      Ok(h.(counter := h.counter.(next := e + 2 + |Commands(h.machines)|)))
    case VersionMarkerRecorded(e, marker) =>
      var c :- h.counter.Load(e, marker);
      Ok(h.(counter := c))
    case NexusScheduled(e) => BindNexus(h, e)
    case NexusCancelRequested(e) => FireCancelation(h, e, EvInitiated)
    case NexusCancelDelivered(e) => FireCancelation(h, e, EvCompletion)
    case _ => Deliver(h, event)
  }

  function Step(h: Helper, op: Op): Result<Helper> {
    match op
    case Invoke(call) => OnCall(h, call)
    case Apply(event) => OnEvent(h, event)
    case GetCommands(markAsSent) => Ok(h.(machines := AfterGet(h.machines, markAsSent)))
  }

  /** A run of operations; it ends at the first panic. */
  function Run(h: Helper, ops: seq<Op>): Result<Helper>
    decreases |ops|
  {
    if ops == [] then Ok(h)
    else
      var h' :- Step(h, ops[0]);
      Run(h', ops[1..])
  }
}
