/** Every timer, activity and child of a helper run sees exactly the events addressed to it, so what is
    proved about one machine and its server holds inside the helper. */
module MachineRuns {
  import opened Basics
  import opened CommandMachine
  import opened HelperState
  import opened Invariants
  import T = TimerLifecycle
  import C = ChildLifecycle

  predicate Watched(id: CommandID) {
    id.ctype in {TimerType, ActivityType, ChildType}
  }

  /** The event method that the operation calls on the machine with this ID. */
  function Addressed(h: Helper, op: Op, id: CommandID): Option<MachineEvent> {
    match op
    case GetCommands(markAsSent) => if markAsSent then Some(EvSent) else None
    case Invoke(CancelTimer(t)) => if id == TimerID(t) then Some(EvCancel) else None
    case Invoke(CancelActivity(a)) => if id == ActivityID(a) then Some(EvCancel) else None
    case Invoke(CancelChild(w)) => if id == ChildID(w) then Some(EvCancel) else None
    case Invoke(_) => None
    case Apply(event) =>
      if Routed(event) && Route(h, event).Ok? && Route(h, event).value.0 == id then Some(Route(h, event).value.1)
      else None
  }

  predicate Creates(op: Op, id: CommandID) {
    match op
    case Invoke(StartTimer(t)) => id == TimerID(t)
    case Invoke(ScheduleActivity(_, a)) => id == ActivityID(a)
    case Invoke(StartChild(w)) => id == ChildID(w)
    case _ => false
  }

  /** What an event method does to a listed machine; `None` once it is no longer listed. */
  function AfterEvent(t: CommandType, s: Option<CommandState>, e: Option<MachineEvent>): Option<CommandState> {
    if s.None? || e.None? then s
    else match MoveOf(t, s.value, e.value)
         case To(s') => if s' == Completed then None else Some(s')
         case _ => s
  }

  /** The method is legal: the machine is listed and expects it, or it is the sending of commands. */
  predicate Legal(t: CommandType, s: Option<CommandState>, e: Option<MachineEvent>) {
    e.Some? ==> if s.Some? then !MoveOf(t, s.value, e.value).Illegal? else e.value == EvSent
  }

  // ---------------------------------------------------------------- one operation

  lemma StateMember(ms: seq<Machine>, m: Machine)
    requires Distinct(ms) && m in ms
    ensures StateOf(ms, m.id) == Some(m.state)
  {
    var i :| 0 <= i < |ms| && ms[i] == m;
    var j := Find(ms, m.id).value;
    assert ms[j].id == ms[i].id;
  }

  lemma NotListed(ms: seq<Machine>, id: CommandID)
    ensures StateOf(ms, id).None? <==> forall m | m in ms :: m.id != id
  {
    assert forall i | 0 <= i < |ms| :: ms[i] in ms;
  }

  lemma SameMachines(ms: seq<Machine>, ms': seq<Machine>, id: CommandID)
    requires Distinct(ms) && Distinct(ms') && forall m: Machine | m.id == id :: m in ms <==> m in ms'
    ensures StateOf(ms', id) == StateOf(ms, id)
  {
    if Find(ms, id).Some? {
      var m := ms[Find(ms, id).value];
      assert m in ms && m in ms';
      StateMember(ms', m);
    } else {
      NotListed(ms, id);
      NotListed(ms', id);
    }
  }

  lemma ReplacedProjects(ms: seq<Machine>, m: Machine, r: Option<Machine>, ms': seq<Machine>, id: CommandID)
    requires Distinct(ms) && Distinct(ms') && m in ms && Replaced(ms, m, r, ms') && (r.Some? ==> r.value.id == m.id)
    ensures StateOf(ms', id)
         == if m.id != id then StateOf(ms, id) else match r case Some(x) => Some(x.state) case None => None
  {
    if m.id != id {
      SameMachines(ms, ms', id);
    } else if r.Some? {
      assert r.value in ms';
      StateMember(ms', r.value);
    } else {
      forall x | x in ms' ensures x.id != id {
        var i, j :| 0 <= i < |ms| && ms[i] == m && 0 <= j < |ms| && ms[j] == x;
      }
      NotListed(ms', id);
    }
  }

  /** A fired machine moves; all others stay. */
  lemma FireProjects(ms: seq<Machine>, n: nat, target: CommandID, e: MachineEvent, id: CommandID)
    requires Core(ms, n) && Delivered(target.ctype, e) && Fire(ms, target, e).Ok?
    ensures var s := StateOf(ms, id);
            && StateOf(Fire(ms, target, e).value, id)
               == (if target == id then AfterEvent(id.ctype, s, Some(e)) else s)
            && Legal(target.ctype, StateOf(ms, target), Some(e))
  {
    var m := FireEffect(ms, n, target, e);
    StateMember(ms, m);
    ReplacedProjects(ms, m, Moved(m, e), Fire(ms, target, e).value, id);
  }

  lemma AddProjects(h: Helper, target: CommandID, scheduledID: int, id: CommandID)
    requires Core(h.machines, h.nextSerial) && AddCommand(h, target, scheduledID).Ok? && target != id
    ensures StateOf(AddCommand(h, target, scheduledID).value.machines, id) == StateOf(h.machines, id)
  {
    AddEffect(h, target, scheduledID);
    SameMachines(h.machines, AddCommand(h, target, scheduledID).value.machines, id);
  }

  lemma CancelProjects(h: Helper, target: CommandID, cancelID: CommandID, scheduledID: int, id: CommandID)
    requires Core(h.machines, h.nextSerial) && Watched(id) && !Watched(cancelID)
    requires target.ctype in {TimerType, ActivityType} && CancelWithCommand(h, target, cancelID, scheduledID).Ok?
    ensures var ms' := CancelWithCommand(h, target, cancelID, scheduledID).value.machines;
            var s := StateOf(h.machines, id);
            && StateOf(ms', id) == (if target == id then AfterEvent(id.ctype, s, Some(EvCancel)) else s)
            && (target == id ==> Legal(id.ctype, s, Some(EvCancel)))
  {
    if h.machines[Find(h.machines, target).value].state in {Created, CommandSent, Initiated} {
      AddEffect(h, cancelID, scheduledID);
      AddProjects(h, cancelID, scheduledID, id);
      AddProjects(h, cancelID, scheduledID, target);
      var h1 := AddCommand(h, cancelID, scheduledID).value;
      FireProjects(h1.machines, h1.nextSerial, target, EvCancel, id);
    } else {
      FireProjects(h.machines, h.nextSerial, target, EvCancel, id);
    }
  }

  lemma CancelChildProjects(h: Helper, target: CommandID, id: CommandID)
    requires Core(h.machines, h.nextSerial) && target.ctype == ChildType && CancelChildNamed(h, target).Ok?
    ensures var s := StateOf(h.machines, id);
            && StateOf(CancelChildNamed(h, target).value.machines, id)
               == (if target == id then AfterEvent(id.ctype, s, Some(EvCancel)) else s)
            && (target == id ==> Legal(id.ctype, s, Some(EvCancel)))
  {
    var i := Find(h.machines, target).value;
    var m := h.machines[i];
    assert m in h.machines;
    if m.state == Started {
      var x := m.(state := CanceledAfterStarted);
      MoveToBackEffect(h.machines, h.nextSerial, i, x);
      StateMember(h.machines, m);
      ReplacedProjects(h.machines, m, Some(x), RemoveAt(h.machines, i) + [x], id);
    } else {
      FireProjects(h.machines, h.nextSerial, target, EvCancel, id);
    }
  }

  lemma CancelNexusProjects(h: Helper, i: nat, id: CommandID)
    requires Core(h.machines, h.nextSerial) && i < |h.machines| && h.machines[i].id.ctype == NexusType
    requires Watched(id) && CancelNexusAt(h, i).Ok?
    ensures StateOf(CancelNexusAt(h, i).value.machines, id) == StateOf(h.machines, id)
  {
    var m := h.machines[i];
    if !(m.cancelation.Some? || m.state == Completed) {
      var c := CancelNexusID(m.scheduledID);
      var h1 := AddCommand(h, c, m.scheduledID).value;
      var m' := m.(cancelation := Some(h.nextSerial));
      var h2 := h1.(machines := h1.machines[i := m']);
      assert m in h.machines;
      AddEffect(h, c, m.scheduledID);
      AddProjects(h, c, m.scheduledID, id);
      UpdateEffect(h1.machines, i, m');
      ReplacedProjects(h1.machines, m, Some(m'), h2.machines, id);
      if m.state == Created {
        NewCancelationSound(h, h1, h2, m, m', c);
        FireProjects(h2.machines, h2.nextSerial, c, EvCompletion, id);
      }
    }
  }

  lemma CallProjects(h: Helper, call: Call, id: CommandID)
    requires Inv(h) && Watched(id) && OnCall(h, call).Ok?
    requires Creates(Invoke(call), id) ==> StateOf(h.machines, id).Some?
    ensures var s, e := StateOf(h.machines, id), Addressed(h, Invoke(call), id);
            StateOf(OnCall(h, call).value.machines, id) == AfterEvent(id.ctype, s, e) && Legal(id.ctype, s, e)
  {
    if call.CancelTimer? {
      CancelProjects(h, TimerID(call.timerID), CancelTimerID(Text(call.timerID)), 0, id);
    } else if call.CancelActivity? {
      var e := h.machines[Find(h.machines, ActivityID(call.activityID)).value].scheduledID;
      CancelProjects(h, ActivityID(call.activityID), CancelActivityID(e), e, id);
    } else if call.CancelChild? {
      CancelChildProjects(h, ChildID(call.workflowID), id);
    } else if call.CancelNexus? {
      CancelNexusProjects(h, Find(h.machines, NexusID(call.seqNo)).value, id);
    } else {
      AddCallProjects(h, call, id);
    }
  }

  lemma AddCallProjects(h: Helper, call: Call, id: CommandID)
    requires Inv(h) && Watched(id) && OnCall(h, call).Ok? && !IsCancel(call)
    requires Creates(Invoke(call), id) ==> StateOf(h.machines, id).Some?
    ensures StateOf(OnCall(h, call).value.machines, id) == StateOf(h.machines, id)
  {
    if call.ScheduleActivity? {
      var h' := h.(activityIDs := h.activityIDs[call.scheduleID := call.activityID]);
      AddProjects(h', ActivityID(call.activityID), call.scheduleID, id);
    } else if call.ScheduleNexus? {
      AddProjects(h.(unscheduledNexus := h.unscheduledNexus + [h.nextSerial]), NexusID(call.seqNo), 0, id);
    } else if call.StartChild? && Find(h.machines, ChildID(call.workflowID)).None? {
      AddProjects(h, ChildID(call.workflowID), 0, id);
    } else if PlainID(call).Some? {
      AddProjects(h, PlainID(call).value, 0, id);
    }
  }

  lemma PrepareProjects(h: Helper, event: Event, id: CommandID)
    requires Inv(h) && id.ctype !in {CancelTimerType, CancelActivityType}
    ensures StateOf(Prepare(h, event).machines, id) == StateOf(h.machines, id)
    ensures Core(Prepare(h, event).machines, Prepare(h, event).nextSerial)
  {
    if event.ActivityClosed? {
      RemoveIDEffect(h.machines, h.nextSerial, CancelActivityID(event.eventID));
      SameMachines(h.machines, Prepare(h, event).machines, id);
    } else if event.TimerFired? {
      RemoveIDEffect(h.machines, h.nextSerial, CancelTimerID(Text(event.timerID)));
      SameMachines(h.machines, Prepare(h, event).machines, id);
    }
  }

  lemma RouteOk(h: Helper, event: Event)
    requires Routed(event) && OnEvent(h, event).Ok?
    ensures Route(h, event).Ok? && OnEvent(h, event) == Deliver(h, event)
  {}

  /** The machines after an event that was accepted. */
  lemma DeliveredTo(h: Helper, event: Event, id: CommandID)
    requires Inv(h) && Routed(event) && Deliver(h, event).Ok? && id.ctype !in {CancelTimerType, CancelActivityType}
    ensures Route(h, event).Ok?
    ensures var r := Route(h, event).value;
            var s := StateOf(h.machines, id);
            && StateOf(Deliver(h, event).value.machines, id)
               == (if r.0 == id then AfterEvent(id.ctype, s, Some(r.1)) else s)
            && (r.0 == id ==> Legal(id.ctype, s, Some(r.1)) && r.1 != EvSent)
  {
    DeliverFires(h, event);
    RouteDelivers(h, event);
    PrepareProjects(h, event, id);
    FireProjects(Prepare(h, event).machines, Prepare(h, event).nextSerial,
                 Route(h, event).value.0, Route(h, event).value.1, id);
  }

  lemma DeliverProjects(h: Helper, event: Event, id: CommandID)
    requires Inv(h) && Watched(id) && Routed(event) && Deliver(h, event).Ok?
    ensures var s, e := StateOf(h.machines, id), Addressed(h, Apply(event), id);
            StateOf(Deliver(h, event).value.machines, id) == AfterEvent(id.ctype, s, e) && Legal(id.ctype, s, e)
  {
    DeliveredTo(h, event, id);
  }

  lemma BindProjects(h: Helper, e: int, id: CommandID)
    requires Inv(h) && Watched(id) && BindNexus(h, e).Ok?
    ensures StateOf(BindNexus(h, e).value.machines, id) == StateOf(h.machines, id)
  {
    var m := BindNexusEffect(h, e);
    ReplacedProjects(h.machines, m, Some(m.(scheduledID := e, state := Initiated)), BindNexus(h, e).value.machines, id);
  }

  lemma CancelationProjects(h: Helper, eventID: int, e: MachineEvent, id: CommandID)
    requires Inv(h) && Watched(id) && FireCancelation(h, eventID, e).Ok? && e in {EvInitiated, EvCompletion}
    ensures StateOf(FireCancelation(h, eventID, e).value.machines, id) == StateOf(h.machines, id)
  {
    var m := h.machines[Find(h.machines, h.nexusIDs[eventID]).value];
    var i := FindSerial(h.machines, m.cancelation.value).value;
    var c := h.machines[i];
    assert m in h.machines && c in h.machines;
    assert c.id.ctype == CancelNexusType;
    FireAtEffect(h.machines, h.nextSerial, i, e);
    ReplacedProjects(h.machines, c, Moved(c, e), FireCancelation(h, eventID, e).value.machines, id);
  }

  lemma EventProjects(h: Helper, event: Event, id: CommandID)
    requires Inv(h) && Watched(id) && OnEvent(h, event).Ok?
    ensures var s, e := StateOf(h.machines, id), Addressed(h, Apply(event), id);
            StateOf(OnEvent(h, event).value.machines, id) == AfterEvent(id.ctype, s, e) && Legal(id.ctype, s, e)
  {
    if event.NexusScheduled? {
      BindProjects(h, event.eventID, id);
    } else if event.NexusCancelRequested? {
      CancelationProjects(h, event.eventID, EvInitiated, id);
    } else if event.NexusCancelDelivered? {
      CancelationProjects(h, event.eventID, EvCompletion, id);
    } else if Routed(event) {
      DeliverProjects(h, event, id);
    }
  }

  lemma SendProjects(h: Helper, mark: bool, id: CommandID)
    requires Inv(h) && !CompletesOnSend(id.ctype)
    ensures var s := StateOf(h.machines, id);
            StateOf(AfterGet(h.machines, mark), id) == AfterEvent(id.ctype, s, if mark then Some(EvSent) else None)
  {
    AfterGetEffect(h.machines, h.nextSerial, mark);
    var ms' := AfterGet(h.machines, mark);
    if Find(h.machines, id).Some? {
      var m := h.machines[Find(h.machines, id).value];
      assert m in h.machines;
      GotSound(m, h.nextSerial, mark);
      assert Got(m, mark) in ms';
      StateMember(ms', Got(m, mark));
    } else {
      NotListed(h.machines, id);
      NotListed(ms', id);
    }
  }

  /** One operation of the helper does to a timer, activity or child exactly what the event method
      addressed to it does, which is legal; without one, nothing. */
  lemma StepProjects(h: Helper, op: Op, id: CommandID)
    requires Inv(h) && Watched(id) && Step(h, op).Ok? && (Creates(op, id) ==> StateOf(h.machines, id).Some?)
    ensures var s, e := StateOf(h.machines, id), Addressed(h, op, id);
            StateOf(Step(h, op).value.machines, id) == AfterEvent(id.ctype, s, e) && Legal(id.ctype, s, e)
  {
    match op
    case Invoke(call) => CallProjects(h, call, id);
    case Apply(event) => EventProjects(h, event, id);
    case GetCommands(mark) => SendProjects(h, mark, id);
  }

  // ---------------------------------------------------------------- whole runs

  /** The event methods that a run calls on the machine with this ID, in order. */
  function Events(h: Helper, ops: seq<Op>, id: CommandID): seq<MachineEvent>
    requires Run(h, ops).Ok?
    decreases |ops|
  {
    if ops == [] then []
    else
      var rest := Events(Step(h, ops[0]).value, ops[1..], id);
      match Addressed(h, ops[0], id)
      case Some(e) => [e] + rest
      case None => rest
  }

  predicate NeverCreated(ops: seq<Op>, id: CommandID) {
    forall i | 0 <= i < |ops| :: !Creates(ops[i], id)
  }

  function AfterEvents(t: CommandType, s: Option<CommandState>, es: seq<MachineEvent>): Option<CommandState>
    decreases |es|
  {
    if es == [] then s else AfterEvents(t, AfterEvent(t, s, Some(es[0])), es[1..])
  }

  predicate AllLegal(t: CommandType, s: Option<CommandState>, es: seq<MachineEvent>)
    decreases |es|
  {
    es == [] || (Legal(t, s, Some(es[0])) && AllLegal(t, AfterEvent(t, s, Some(es[0])), es[1..]))
  }

  /** Over a run that does not make it anew, a timer, activity or child goes through exactly the events
      addressed to it, all of them legal. */
  lemma {:induction false} RunProjects(h: Helper, ops: seq<Op>, id: CommandID)
    requires Inv(h) && Watched(id) && Run(h, ops).Ok? && NeverCreated(ops, id)
    ensures var s, es := StateOf(h.machines, id), Events(h, ops, id);
            StateOf(Run(h, ops).value.machines, id) == AfterEvents(id.ctype, s, es) && AllLegal(id.ctype, s, es)
    decreases |ops|
  {
    if ops != [] {
      var h1 := Step(h, ops[0]).value;
      StepKeepsInv(h, ops[0]);
      StepProjects(h, ops[0], id);
      assert forall i | 0 <= i < |ops| - 1 :: ops[1..][i] == ops[i + 1];
      RunProjects(h1, ops[1..], id);
      var e := Addressed(h, ops[0], id);
      if e.Some? {
        assert Events(h, ops, id)[1..] == Events(h1, ops[1..], id);
      }
    }
  }

  // ---------------------------------------------------------------- lives inside the helper

  /** The step of a timer's or activity's life that an operation is, if any. */
  function TimerStep(h: Helper, op: Op, id: CommandID): Option<T.LifeEvent> {
    match op
    case GetCommands(markAsSent) => if markAsSent then Some(T.Send) else None
    case Invoke(call) => if Cancels(call, id) then Some(T.CancelCall) else None
    case Apply(event) => if Concerns(h, event, id) then TimerEvent(event) else None
  }

  predicate Cancels(call: Call, id: CommandID) {
    match call
    case CancelTimer(t) => id == TimerID(t)
    case CancelActivity(a) => id == ActivityID(a)
    case CancelChild(w) => id == ChildID(w)
    case _ => false
  }

  /** The event is about this timer, activity or child. */
  predicate Concerns(h: Helper, event: Event, id: CommandID) {
    match event
    case ActivityScheduled(a, _) => id == ActivityID(a)
    case ActivityClosed(e) => e in h.activityIDs && id == ActivityID(h.activityIDs[e])
    case ActivityCancelRequested(e) => e in h.activityIDs && id == ActivityID(h.activityIDs[e])
    case ActivityCanceled(e) => e in h.activityIDs && id == ActivityID(h.activityIDs[e])
    case TimerStarted(t) => id == TimerID(t)
    case TimerFired(t) => id == TimerID(t)
    case TimerCanceled(t) => id == TimerID(t)
    case ChildInitiated(w) => id == ChildID(w)
    case ChildStartFailed(w) => id == ChildID(w)
    case ChildStarted(w) => id == ChildID(w)
    case ChildClosed(w) => id == ChildID(w)
    case ChildCanceled(w) => id == ChildID(w)
    case ExternalCancelInitiated(_, w, c) => c == "" && id == ChildID(w)
    case ExternalCancelRequested(e, w) => e !in h.cancellationIDs && id == ChildID(w)
    case ExternalCancelFailed(e, w) => e !in h.cancellationIDs && id == ChildID(w)
    case _ => false
  }

  function TimerEvent(event: Event): Option<T.LifeEvent> {
    match event
    case ActivityScheduled(_, _) => Some(T.InitiatedEvent)
    case TimerStarted(_) => Some(T.InitiatedEvent)
    case ActivityCancelRequested(_) => Some(T.CancelRequestedEvent)
    case ActivityClosed(_) => Some(T.ClosedEvent)
    case TimerFired(_) => Some(T.ClosedEvent)
    case ActivityCanceled(_) => Some(T.CanceledEvent)
    case TimerCanceled(_) => Some(T.CanceledEvent)
    case _ => None
  }

  function ChildEvent(event: Event): Option<C.ChildStep> {
    match event
    case ChildInitiated(_) => Some(C.InitiatedEvent)
    case ChildStartFailed(_) => Some(C.StartFailedEvent)
    case ChildStarted(_) => Some(C.StartedEvent)
    case ChildClosed(_) => Some(C.ClosedEvent)
    case ChildCanceled(_) => Some(C.CanceledEvent)
    case ExternalCancelInitiated(_, _, _) => Some(C.CancelInitiatedEvent)
    case ExternalCancelRequested(_, _) => Some(C.CancelAcceptedEvent)
    case ExternalCancelFailed(_, _) => Some(C.CancelFailedEvent)
    case _ => None
  }

  function ChildStep(h: Helper, op: Op, id: CommandID): Option<C.ChildStep> {
    match op
    case GetCommands(markAsSent) => if markAsSent then Some(C.Send) else None
    case Invoke(call) => if Cancels(call, id) then Some(C.CancelCall) else None
    case Apply(event) => if Concerns(h, event, id) then ChildEvent(event) else None
  }

  /** The life that a run makes a timer or activity, or a child, go through. */
  function TimerSteps(h: Helper, ops: seq<Op>, id: CommandID): seq<T.LifeEvent>
    requires Run(h, ops).Ok?
    decreases |ops|
  {
    if ops == [] then []
    else
      var rest := TimerSteps(Step(h, ops[0]).value, ops[1..], id);
      match TimerStep(h, ops[0], id)
      case Some(x) => [x] + rest
      case None => rest
  }

  function ChildSteps(h: Helper, ops: seq<Op>, id: CommandID): seq<C.ChildStep>
    requires Run(h, ops).Ok?
    decreases |ops|
  {
    if ops == [] then []
    else
      var rest := ChildSteps(Step(h, ops[0]).value, ops[1..], id);
      match ChildStep(h, ops[0], id)
      case Some(x) => [x] + rest
      case None => rest
  }

  function TimerMethod(x: Option<T.LifeEvent>): Option<MachineEvent> {
    match x case Some(step) => Some(T.MachineEventOf(step)) case None => None
  }

  function ChildMethod(x: Option<C.ChildStep>): Option<MachineEvent> {
    match x case Some(step) => Some(C.MachineEventOf(step)) case None => None
  }

  lemma NexusEventAddressed(h: Helper, event: Event, id: CommandID)
    requires Inv(h) && Watched(id) && (event.NexusStarted? || event.NexusCompleted?) && Route(h, event).Ok?
    ensures Addressed(h, Apply(event), id) == None
  {
    assert HasOpen(h.machines, h.nexusIDs[event.eventID]);
  }

  lemma TimerEventAddressed(h: Helper, event: Event, id: CommandID)
    requires Routed(event) && Route(h, event).Ok? && id.ctype in {TimerType, ActivityType}
    requires !event.NexusStarted? && !event.NexusCompleted?
    ensures Addressed(h, Apply(event), id) == TimerMethod(TimerStep(h, Apply(event), id))
  {}

  lemma ChildEventAddressed(h: Helper, event: Event, id: CommandID)
    requires Routed(event) && Route(h, event).Ok? && id.ctype == ChildType
    requires !event.NexusStarted? && !event.NexusCompleted?
    ensures Addressed(h, Apply(event), id) == ChildMethod(ChildStep(h, Apply(event), id))
  {}

  lemma TimerStepAddressed(h: Helper, op: Op, id: CommandID)
    requires Inv(h) && Step(h, op).Ok? && id.ctype in {TimerType, ActivityType}
    ensures Addressed(h, op, id) == TimerMethod(TimerStep(h, op, id))
  {
    if op.Apply? && Routed(op.event) {
      RouteOk(h, op.event);
      if op.event.NexusStarted? || op.event.NexusCompleted? {
        NexusEventAddressed(h, op.event, id);
      } else {
        TimerEventAddressed(h, op.event, id);
      }
    }
  }

  lemma ChildStepAddressed(h: Helper, op: Op, id: CommandID)
    requires Inv(h) && Step(h, op).Ok? && id.ctype == ChildType
    ensures Addressed(h, op, id) == ChildMethod(ChildStep(h, op, id))
  {
    if op.Apply? && Routed(op.event) {
      RouteOk(h, op.event);
      if op.event.NexusStarted? || op.event.NexusCompleted? {
        NexusEventAddressed(h, op.event, id);
      } else {
        ChildEventAddressed(h, op.event, id);
      }
    }
  }

  function TimerEvents(steps: seq<T.LifeEvent>): seq<MachineEvent> {
    seq(|steps|, i requires 0 <= i < |steps| => T.MachineEventOf(steps[i]))
  }

  function ChildEvents(steps: seq<C.ChildStep>): seq<MachineEvent> {
    seq(|steps|, i requires 0 <= i < |steps| => C.MachineEventOf(steps[i]))
  }

  lemma TimerEventsFirst(x: T.LifeEvent, rest: seq<T.LifeEvent>)
    ensures TimerEvents([x] + rest) == [T.MachineEventOf(x)] + TimerEvents(rest)
  {}

  lemma ChildEventsFirst(x: C.ChildStep, rest: seq<C.ChildStep>)
    ensures ChildEvents([x] + rest) == [C.MachineEventOf(x)] + ChildEvents(rest)
  {}

  lemma {:induction false} TimerStepsAddressed(h: Helper, ops: seq<Op>, id: CommandID)
    requires Inv(h) && Run(h, ops).Ok? && id.ctype in {TimerType, ActivityType}
    ensures Events(h, ops, id) == TimerEvents(TimerSteps(h, ops, id))
    decreases |ops|
  {
    if ops != [] {
      var h1, x := Step(h, ops[0]).value, TimerStep(h, ops[0], id);
      StepKeepsInv(h, ops[0]);
      TimerStepAddressed(h, ops[0], id);
      TimerStepsAddressed(h1, ops[1..], id);
      if x.Some? { TimerEventsFirst(x.value, TimerSteps(h1, ops[1..], id)); }
    }
  }

  lemma {:induction false} ChildStepsAddressed(h: Helper, ops: seq<Op>, id: CommandID)
    requires Inv(h) && Run(h, ops).Ok? && id.ctype == ChildType
    ensures Events(h, ops, id) == ChildEvents(ChildSteps(h, ops, id))
    decreases |ops|
  {
    if ops != [] {
      var h1, x := Step(h, ops[0]).value, ChildStep(h, ops[0], id);
      StepKeepsInv(h, ops[0]);
      ChildStepAddressed(h, ops[0], id);
      ChildStepsAddressed(h1, ops[1..], id);
      if x.Some? { ChildEventsFirst(x.value, ChildSteps(h1, ops[1..], id)); }
    }
  }

  lemma {:induction false} TimerLifeFollows(kind: T.Kind, l: T.Life, steps: seq<T.LifeEvent>)
    requires AllLegal(kind.Type(), l.machine, TimerEvents(steps))
    ensures T.LifeRun(kind, l, steps).Ok?
    ensures T.LifeRun(kind, l, steps).value.machine == AfterEvents(kind.Type(), l.machine, TimerEvents(steps))
    decreases |steps|
  {
    if steps != [] {
      assert TimerEvents(steps)[1..] == TimerEvents(steps[1..]);
      TimerLifeFollows(kind, T.LifeStep(kind, l, steps[0]).value, steps[1..]);
    }
  }

  lemma {:induction false} ChildLifeFollows(l: C.Life, steps: seq<C.ChildStep>)
    requires AllLegal(ChildType, l.machine, ChildEvents(steps))
    ensures C.LifeRun(l, steps).Ok?
    ensures C.LifeRun(l, steps).value.machine == AfterEvents(ChildType, l.machine, ChildEvents(steps))
    decreases |steps|
  {
    if steps != [] {
      assert ChildEvents(steps)[1..] == ChildEvents(steps[1..]);
      ChildLifeFollows(C.LifeStep(l, steps[0]).value, steps[1..]);
    }
  }

  /** A timer or activity of a helper whose run keeps the server's order never cancels in vain, and is
      listed at the end exactly when the server is not done with it or it closed too late. */
  lemma TimerInHelper(h: Helper, ops: seq<Op>, id: CommandID, kind: T.Kind)
    requires Inv(h) && id.ctype == kind.Type() && Run(h, ops).Ok? && NeverCreated(ops, id)
    requires StateOf(h.machines, id) == Some(Created) && T.LawfulRun(kind, T.NEW_LIFE, TimerSteps(h, ops, id))
    ensures var steps := TimerSteps(h, ops, id);
            && T.LifeRun(kind, T.NEW_LIFE, steps).Ok?
            && StateOf(Run(h, ops).value.machines, id) == T.LifeRun(kind, T.NEW_LIFE, steps).value.machine
            && (Find(Run(h, ops).value.machines, id).Some?
                <==> T.LifeRun(kind, T.NEW_LIFE, steps).value.phase != T.Ended || T.ClosedTooLate(steps))
  {
    var steps := TimerSteps(h, ops, id);
    TimerStepsAddressed(h, ops, id);
    RunProjects(h, ops, id);
    TimerLifeFollows(kind, T.NEW_LIFE, steps);
    T.ListedIff(kind, steps);
  }

  /** A child of a helper whose run keeps the server's order meets no step that breaks it, and is listed
      at the end exactly when it has not ended or a cancel request is outstanding. */
  lemma ChildInHelper(h: Helper, ops: seq<Op>, id: CommandID)
    requires Inv(h) && id.ctype == ChildType && Run(h, ops).Ok? && NeverCreated(ops, id)
    requires StateOf(h.machines, id) == Some(Created) && C.LawfulRun(C.NEW_CHILD, ChildSteps(h, ops, id))
    ensures var steps := ChildSteps(h, ops, id);
            && C.LifeRun(C.NEW_CHILD, steps).Ok?
            && StateOf(Run(h, ops).value.machines, id) == C.LifeRun(C.NEW_CHILD, steps).value.machine
            && (Find(Run(h, ops).value.machines, id).None? <==> C.Settled(C.LifeRun(C.NEW_CHILD, steps).value))
  {
    var steps := ChildSteps(h, ops, id);
    ChildStepsAddressed(h, ops, id);
    RunProjects(h, ops, id);
    ChildLifeFollows(C.NEW_CHILD, steps);
    C.ChildSurvivesIff(C.NEW_CHILD, steps);
  }
}
