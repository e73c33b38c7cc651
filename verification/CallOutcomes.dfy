/** When the helper panics: for every call and every event, and over whole runs. */
module CallOutcomes {
  import opened Basics
  import opened CommandMachine
  import opened HelperState
  import opened Invariants
  import opened MachineRuns
  import opened EventOutcomes

  predicate Listed(h: Helper, id: CommandID) {
    Find(h.machines, id).Some?
  }

  /** A timer or activity cannot be cancelled when it is unknown, when it was cancelled before it was sent,
      or when an earlier cancel command with the same ID is listed. */
  predicate CancelRefused(h: Helper, id: CommandID, cancelID: CommandID) {
    match StateOf(h.machines, id)
    case None => true
    case Some(s) => s == CanceledBeforeSent || (s in {Created, CommandSent, Initiated} && Listed(h, cancelID))
  }

  /** A child cannot be cancelled when it is unknown, or when an earlier cancellation was taken back, waits
      to be sent after the start, or was accepted. */
  predicate ChildCancelRefused(h: Helper, id: CommandID) {
    match StateOf(h.machines, id)
    case None => true
    case Some(s) => s in {CanceledBeforeSent, CanceledAfterStarted, CancellationCommandAccepted}
  }

  /** A Nexus operation cannot be cancelled when it is unknown, or when its first cancel request has the ID
      of one that is listed. */
  predicate OperationCancelRefused(h: Helper, id: CommandID) {
    match Find(h.machines, id)
    case None => true
    case Some(i) => h.machines[i].cancelation.None? && Listed(h, CancelNexusID(h.machines[i].scheduledID))
  }

  /** The calls that panic: no event ID is known yet, a command ID is taken or missing, or nothing is left
      to cancel. */
  predicate CallRefused(h: Helper, call: Call) {
    match call
    case GetNextID => h.counter.Skip().next == 0
    case ScheduleActivity(_, a) => Listed(h, ActivityID(a))
    case StartTimer(t) => Listed(h, TimerID(t))
    case StartChild(_) => false
    case ScheduleNexus(n) => Listed(h, NexusID(n))
    case CancelExternal(c) => c == "" || Listed(h, CancellationID(c))
    case SignalExternal(signalID) => Listed(h, SignalID(signalID))
    case RecordMarker(m) => Listed(h, CommandID(MarkerType, Text(m)))
    case UpsertSearchAttributes(u) => Listed(h, CommandID(UpsertType, Text(u)))
    case ModifyProperties(c) => Listed(h, CommandID(ModifyPropertiesType, Text(c)))
    case AddProtocolMessage(m) => Listed(h, CommandID(ProtocolMessageType, Text(m)))
    case CancelTimer(t) => CancelRefused(h, TimerID(t), CancelTimerID(Text(t)))
    case CancelActivity(a) =>
      !Listed(h, ActivityID(a)) ||
      var m := h.machines[Find(h.machines, ActivityID(a)).value];
      CancelRefused(h, ActivityID(a), CancelActivityID(m.scheduledID))
    case CancelChild(w) => ChildCancelRefused(h, ChildID(w))
    case CancelNexus(n) => OperationCancelRefused(h, NexusID(n))
  }

  /** The events that panic. */
  predicate EventRefused(h: Helper, event: Event) {
    match event
    case WorkflowTaskStarted(_) => false
    case VersionMarkerRecorded(e, _) => e in h.counter.markers
    case NexusScheduled(_) =>
      h.unscheduledNexus == [] ||
      (match FindSerial(h.machines, h.unscheduledNexus[0])
       case None => true
       case Some(i) => h.machines[i].state != CommandSent)
    case NexusCancelRequested(e) =>
      RequestOf(h, e).None? || h.machines[RequestOf(h, e).value].state != CommandSent
    case NexusCancelDelivered(e) =>
      RequestOf(h, e).None? || h.machines[RequestOf(h, e).value].state !in {Created, Initiated}
    case _ =>
      match Subject(h, event)
      case None => true
      case Some(id) =>
        match StateOf(h.machines, id)
        case None => true
        case Some(s) => Refuses(event, id.ctype, s)
  }

  lemma CancelIff(h: Helper, id: CommandID, cancelID: CommandID, scheduledID: int)
    requires Inv(h) && id.ctype in {TimerType, ActivityType} && cancelID != id
    ensures CancelWithCommand(h, id, cancelID, scheduledID).Panic? <==> CancelRefused(h, id, cancelID)
  {
    if StateOf(h.machines, id).Some? {
      ListedPossible(h, id);
      if !Listed(h, cancelID) {
        AddedKeeps(h, cancelID, scheduledID, id);
        FireIff(AddCommand(h, cancelID, scheduledID).value, id, EvCancel);
      }
      FireIff(h, id, EvCancel);
    }
  }

  lemma AddedKeeps(h: Helper, added: CommandID, scheduledID: int, id: CommandID)
    requires Inv(h) && !Listed(h, added) && id != added
    ensures StateOf(AddCommand(h, added, scheduledID).value.machines, id) == StateOf(h.machines, id)
  {
    AddProjects(h, added, scheduledID, id);
  }

  lemma CancelChildIff(h: Helper, id: CommandID)
    requires Inv(h) && id.ctype == ChildType
    ensures CancelChildNamed(h, id).Panic? <==> ChildCancelRefused(h, id)
  {
    if StateOf(h.machines, id).Some? {
      ListedPossible(h, id);
      FireIff(h, id, EvCancel);
    }
  }

  lemma CancelOperationIff(h: Helper, i: nat)
    requires Inv(h) && i < |h.machines| && h.machines[i].id.ctype == NexusType
    ensures CancelNexusAt(h, i).Panic? <==>
              h.machines[i].cancelation.None? && Listed(h, CancelNexusID(h.machines[i].scheduledID))
  {
    var m := h.machines[i];
    assert m in h.machines && Sound(m, h.nextSerial);
    if m.cancelation.None? && !Listed(h, CancelNexusID(m.scheduledID)) {
      NewRequestCompletes(h, i, CancelNexusID(m.scheduledID), m.scheduledID, m.(cancelation := Some(h.nextSerial)));
    }
  }

  /** A cancel request that was just added can complete on the spot. */
  lemma NewRequestCompletes(h: Helper, i: nat, id: CommandID, scheduledID: int, m': Machine)
    requires i < |h.machines| && !Listed(h, id) && id.ctype == CancelNexusType && m'.id == h.machines[i].id
    ensures AddCommand(h, id, scheduledID).Ok?
    ensures var h1 := AddCommand(h, id, scheduledID).value;
            FireOn(h1.(machines := h1.machines[i := m']), id, EvCompletion).Ok?
  {
    var h1 := AddCommand(h, id, scheduledID).value;
    var h2 := h1.(machines := h1.machines[i := m']);
    NotListed(h.machines, id);
    forall j | 0 <= j < |h2.machines| - 1 ensures h2.machines[j].id != id {
      assert h.machines[j] in h.machines;
    }
    FindsLast(h2.machines, id);
    FireIff(h2, id, EvCompletion);
  }

  lemma FindsLast(ms: seq<Machine>, id: CommandID)
    requires ms != [] && ms[|ms| - 1].id == id && ms[|ms| - 1].state == Created
    requires forall j | 0 <= j < |ms| - 1 :: ms[j].id != id
    ensures StateOf(ms, id) == Some(Created)
  {}

  /** In any reachable state a call panics exactly when the table says so. */
  lemma CallPanicsIff(h: Helper, call: Call)
    requires Inv(h)
    ensures OnCall(h, call).Panic? <==> CallRefused(h, call)
  {
    if call.CancelTimer? {
      CancelIff(h, TimerID(call.timerID), CancelTimerID(Text(call.timerID)), 0);
    } else if call.CancelActivity? {
      if Listed(h, ActivityID(call.activityID)) {
        var e := h.machines[Find(h.machines, ActivityID(call.activityID)).value].scheduledID;
        CancelIff(h, ActivityID(call.activityID), CancelActivityID(e), e);
      }
    } else if call.CancelChild? {
      CancelChildIff(h, ChildID(call.workflowID));
    } else if call.CancelNexus? {
      if Listed(h, NexusID(call.seqNo)) {
        CancelOperationIff(h, Find(h.machines, NexusID(call.seqNo)).value);
      }
    }
  }

  /** And so does an event. */
  lemma EventPanicsIff(h: Helper, event: Event)
    requires Inv(h)
    ensures OnEvent(h, event).Panic? <==> EventRefused(h, event)
  {
    if Routed(event) {
      AcceptedIff(h, event);
    } else if event.NexusScheduled? {
      ScheduledIff(h, event.eventID);
    } else if event.NexusCancelRequested? {
      RequestRecordedIff(h, event.eventID);
    } else if event.NexusCancelDelivered? {
      RequestDeliveredIff(h, event.eventID);
    }
  }

  predicate OpRefused(h: Helper, op: Op) {
    match op
    case Invoke(call) => CallRefused(h, call)
    case Apply(event) => EventRefused(h, event)
    case GetCommands(_) => false
  }

  lemma RunRest(h: Helper, ops: seq<Op>, j: nat)
    requires j < |ops| && Step(h, ops[0]).Ok?
    ensures Run(h, ops[..j + 1]) == Run(Step(h, ops[0]).value, ops[1..][..j])
  {
    assert ops[..j + 1][1..] == ops[1..][..j];
  }

  /** A run of the helper panics exactly when it comes to an operation that the tables refuse. */
  lemma {:induction false} RunPanicsIff(h: Helper, ops: seq<Op>)
    requires Inv(h)
    ensures Run(h, ops).Panic? <==>
              exists j | 0 <= j < |ops| && Run(h, ops[..j]).Ok? :: OpRefused(Run(h, ops[..j]).value, ops[j])
    decreases |ops|
  {
    if ops != [] {
      assert ops[..0] == [];
      StepPanicsIff(h, ops[0]);
      if Step(h, ops[0]).Ok? {
        var h' := Step(h, ops[0]).value;
        StepKeepsInv(h, ops[0]);
        RunPanicsIff(h', ops[1..]);
        forall j | 0 <= j < |ops[1..]| ensures Run(h, ops[..j + 1]) == Run(h', ops[1..][..j]) {
          RunRest(h, ops, j);
        }
        if j :| 0 <= j < |ops| && Run(h, ops[..j]).Ok? && OpRefused(Run(h, ops[..j]).value, ops[j]) {
          if j > 0 { RunRest(h, ops, j - 1); }
        }
      }
    }
  }

  lemma StepPanicsIff(h: Helper, op: Op)
    requires Inv(h)
    ensures Step(h, op).Panic? <==> OpRefused(h, op)
  {
    match op
    case Invoke(call) => CallPanicsIff(h, call);
    case Apply(event) => EventPanicsIff(h, event);
    case GetCommands(_) =>
  }
}
