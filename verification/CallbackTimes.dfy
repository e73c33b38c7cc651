/** Which callbacks of activities and Nexus operations each step calls. */
module CallbackTimes {
  import opened Basics
  import opened CommandMachine
  import opened HelperState
  import opened Invariants
  import opened MachineRuns
  import opened EventOutcomes
  import opened Environment

  /** The serial of a listed machine. */
  function SerialOf(h: Helper, id: CommandID): Option<nat> {
    match Find(h.machines, id)
    case None => None
    case Some(i) => Some(h.machines[i].serial)
  }

  // ---------------------------------------------------------------- what calls a callback

  /** The activity whose end the operation reports. */
  function ClosedBy(h: Helper, op: EnvOp): Option<nat> {
    if op.HandleEvent? && (op.event.ActivityClosed? || op.event.ActivityCanceled?)
       && op.event.eventID in h.activityIDs
    then SerialOf(h, ActivityID(h.activityIDs[op.event.eventID]))
    else None
  }

  /** The activity that the workflow cancels. */
  function CancelledBy(h: Helper, op: EnvOp): Option<nat> {
    if op.RequestCancelActivity? then SerialOf(h, ActivityID(op.activityID)) else None
  }

  /** The server ended the activity after its cancel command was sent. */
  predicate EndedWhileCancelled(h: Helper, serial: nat) {
    match FindSerial(h.machines, serial)
    case None => false
    case Some(i) => h.machines[i].state == CompletedAfterCancellationCommandSent
  }

  /** A cancel delivers the result of an activity that does not wait for its cancellation. */
  predicate Delivers(env: Env, op: EnvOp, serial: nat) {
    || ClosedBy(env.helper, op) == Some(serial)
    || (&& CancelledBy(env.helper, op) == Some(serial) && serial in env.activities
        && (!env.activities[serial].waitForCancelRequest || EndedWhileCancelled(env.helper, serial)))
  }

  /** The operation that a Nexus event is about. */
  function OperationOf(h: Helper, event: Event): Option<nat> {
    if NexusProgress(event) && event != NexusCancelDelivered(0) && event.eventID in h.nexusIDs
    then SerialOf(h, h.nexusIDs[event.eventID])
    else None
  }

  predicate Starts(h: Helper, op: EnvOp, serial: nat) {
    op.HandleEvent? && op.event.NexusStarted? && OperationOf(h, op.event) == Some(serial)
  }

  /** What ends the wait for an operation that was executed with this cancellation mode. */
  predicate Ends(h: Helper, op: EnvOp, serial: nat, mode: CancellationMode) {
    match op
    case HandleEvent(NexusCompleted(e)) => OperationOf(h, op.event) == Some(serial)
    case HandleEvent(NexusCancelRequested(e)) => mode == TryCancel && OperationOf(h, op.event) == Some(serial)
    case HandleEvent(NexusCancelDelivered(e)) => mode == WaitRequested && OperationOf(h, op.event) == Some(serial)
    case RequestCancelNexusOperation(n) =>
      SerialOf(h, NexusID(n)) == Some(serial) && StateOf(h.machines, NexusID(n)) in {Some(Created), Some(CommandSent)}
    case _ => false
  }

  /** The command that the operation is about, for callbacks. */
  function Concerned(h: Helper, op: EnvOp): Option<nat> {
    match op
    case RequestCancelActivity(_) => CancelledBy(h, op)
    case RequestCancelNexusOperation(n) => SerialOf(h, NexusID(n))
    case HandleEvent(event) =>
      if event.ActivityClosed? || event.ActivityCanceled? then ClosedBy(h, op) else OperationOf(h, event)
    case _ => None
  }

  /** The callbacks that a step calls, in order. */
  function Fires(env: Env, op: EnvOp): seq<Firing> {
    match Concerned(env.helper, op)
    case None => []
    case Some(s) =>
      if Delivers(env, op, s) then
        if ActivityResult(s) in env.fired then [] else [ActivityResult(s)]
      else if s in env.operations then
        PendingFires(s, env.operations[s], Starts(env.helper, op, s), Ends(env.helper, op, s, env.operations[s].mode))
      else []
  }

  /** The pending callbacks of an operation that starts or ends, the started one first. */
  function PendingFires(serial: nat, data: OperationData, starts: bool, ends: bool): seq<Firing> {
    (if data.startedPending && (starts || ends) then [OperationStarted(serial)] else [])
    + (if data.completedPending && ends then [OperationCompleted(serial)] else [])
  }

  // ---------------------------------------------------------------- one step

  lemma NamedIs(h: Helper, id: CommandID)
    requires Find(h.machines, id).Some?
    ensures MachineNamed(h, id).Ok? && SerialOf(h, id) == Some(MachineNamed(h, id).value.serial)
    ensures StateOf(h.machines, id) == Some(MachineNamed(h, id).value.state)
    ensures MachineNamed(h, id).value in h.machines && MachineNamed(h, id).value.id == id
  {}

  /** A listed machine is found by its serial as by its ID. */
  lemma SerialFinds(ms: seq<Machine>, m: Machine)
    requires Distinct(ms) && m in ms
    ensures FindSerial(ms, m.serial).Some? && ms[FindSerial(ms, m.serial).value] == m
    ensures Find(ms, m.id).Some? && ms[Find(ms, m.id).value] == m
  {
    var i :| 0 <= i < |ms| && ms[i] == m;
  }

  lemma SameSerial(h: Helper, h': Helper, x: Machine, m: Machine, t: Option<CommandType>)
    requires Inv(h) && Keeps(h, h') && NewAre(h'.machines, h.nextSerial, t)
    requires m in h.machines && x in h'.machines && x.id == m.id && Some(x.id.ctype) != t
    ensures x.serial == m.serial
  {
    var y :| y in h.machines && Follows(y, x);
    SerialFinds(h.machines, m);
    SerialFinds(h.machines, y);
  }

  /** Whether a machine that stays listed is done is told by its state. */
  lemma DoneByState(h: Helper, h': Helper, m: Machine, t: Option<CommandType>)
    requires Inv(h) && Keeps(h, h') && NewAre(h'.machines, h.nextSerial, t)
    requires m in h.machines && Some(m.id.ctype) != t && StateOf(h'.machines, m.id).Some?
    ensures Done(h'.machines, m.serial) <==> StateOf(h'.machines, m.id) == Some(CompletedAfterCancellationCommandSent)
  {
    var x := h'.machines[Find(h'.machines, m.id).value];
    SameSerial(h, h', x, m, t);
    SerialFinds(h'.machines, x);
  }

  lemma CancelledState(h: Helper, a: string)
    requires Inv(h) && OnCall(h, CancelActivity(a)).Ok? && StateOf(h.machines, ActivityID(a)).Some?
    ensures StateOf(OnCall(h, CancelActivity(a)).value.machines, ActivityID(a)).Some?
    ensures StateOf(OnCall(h, CancelActivity(a)).value.machines, ActivityID(a))
            == Some(CompletedAfterCancellationCommandSent)
            <==> StateOf(h.machines, ActivityID(a)) == Some(CompletedAfterCancellationCommandSent)
  {
    ListedPossible(h, ActivityID(a));
    CallProjects(h, CancelActivity(a), ActivityID(a));
  }

  /** Whether a listed activity is done after its cancel call is decided by its state before the call. */
  lemma DoneAfterCancel(h: Helper, a: string)
    requires Inv(h) && OnCall(h, CancelActivity(a)).Ok? && SerialOf(h, ActivityID(a)).Some?
    ensures var s := SerialOf(h, ActivityID(a)).value;
            Done(OnCall(h, CancelActivity(a)).value.machines, s) <==> EndedWhileCancelled(h, s)
  {
    NamedIs(h, ActivityID(a));
    var m := MachineNamed(h, ActivityID(a)).value;
    SerialFinds(h.machines, m);
    CancelledState(h, a);
    CallKeepsInv(h, CancelActivity(a));
    CallAdds(h, CancelActivity(a));
    DoneByState(h, OnCall(h, CancelActivity(a)).value, m, Some(CancelActivityType));
  }

  lemma CancelFires(env: Env, a: string)
    requires EnvInv(env) && EnvStep(env, RequestCancelActivity(a)).Ok?
    ensures EnvStep(env, RequestCancelActivity(a)).value.fired == env.fired + Fires(env, RequestCancelActivity(a))
  {
    NamedIs(env.helper, ActivityID(a));
    DoneAfterCancel(env.helper, a);
  }

  lemma CloseFires(env: Env, event: Event)
    requires EnvInv(env) && (event.ActivityClosed? || event.ActivityCanceled?) && OnHistory(env, event).Ok?
    ensures OnHistory(env, event).value.fired == env.fired + Fires(env, HandleEvent(event))
  {
    var id := ActivityID(env.helper.activityIDs[event.eventID]);
    NamedIs(env.helper, id);
    if event.ActivityCanceled? {
      CanceledIsDone(env.helper, event.eventID);
    }
    CloseHandles(env, event, id);
    ClosingFires(env, event, MachineNamed(env.helper, id).value.serial);
  }

  lemma ClosingFires(env: Env, event: Event, s: nat)
    requires (event.ActivityClosed? || event.ActivityCanceled?) && ClosedBy(env.helper, HandleEvent(event)) == Some(s)
    ensures Fires(env, HandleEvent(event)) == if ActivityResult(s) in env.fired then [] else [ActivityResult(s)]
  {}

  lemma CloseHandles(env: Env, event: Event, id: CommandID)
    requires CloseActivity(env, event, id).Ok? && Tracked(env)
    requires var s := MachineNamed(env.helper, id).value.serial;
             event.ActivityCanceled? ==> Done(OnEvent(env.helper, event).value.machines, s)
    ensures var s := MachineNamed(env.helper, id).value.serial;
            CloseActivity(env, event, id).value.fired
            == env.fired + if ActivityResult(s) in env.fired then [] else [ActivityResult(s)]
  {}

  lemma NexusFires(env: Env, event: Event)
    requires EnvInv(env) && NexusProgress(event) && event != NexusCancelDelivered(0) && OnHistory(env, event).Ok?
    ensures OnHistory(env, event).value.fired == env.fired + Fires(env, HandleEvent(event))
  {
    NamedIs(env.helper, env.helper.nexusIDs[event.eventID]);
    NexusEventIs(env, event);
    var m := MachineNamed(env.helper, env.helper.nexusIDs[event.eventID]).value;
    CallbacksFire(env.(helper := OnEvent(env.helper, event).value), env.helper, event, m.serial);
  }

  /** The callbacks of a Nexus event, in terms of the helper `h` before it. */
  lemma CallbacksFire(env: Env, h: Helper, event: Event, serial: nat)
    requires serial in env.operations && OperationOf(h, event) == Some(serial)
    ensures NexusCallbacks(env, event, serial).fired
         == env.fired + Fires(env.(helper := h), HandleEvent(event))
  {
    UnblockFires(env, serial);
    StartedFires(env, serial);
    assert !Delivers(env.(helper := h), HandleEvent(event), serial);
  }

  lemma UnblockFires(env: Env, serial: nat)
    requires serial in env.operations
    ensures Unblock(env, serial).fired == env.fired + PendingFires(serial, env.operations[serial], false, true)
  {}

  lemma StartedFires(env: Env, serial: nat)
    requires serial in env.operations
    ensures CallStarted(env, serial).fired == env.fired + PendingFires(serial, env.operations[serial], true, false)
  {}

  lemma CancelOperationFires(env: Env, n: int)
    requires EnvInv(env) && CancelOperationCall(env, n).Ok?
    ensures CancelOperationCall(env, n).value.fired == env.fired + Fires(env, EnvOp.RequestCancelNexusOperation(n))
  {
    NamedIs(env.helper, NexusID(n));
  }

  /** A step calls exactly the callbacks that the table gives for it. */
  lemma StepFires(env: Env, op: EnvOp)
    requires EnvInv(env) && EnvStep(env, op).Ok?
    ensures EnvStep(env, op).value.fired == env.fired + Fires(env, op)
  {
    if op.RequestCancelActivity? {
      CancelFires(env, op.activityID);
    } else if op.RequestCancelNexusOperation? {
      CancelOperationFires(env, op.seqNo);
    } else if op.HandleEvent? && (op.event.ActivityClosed? || op.event.ActivityCanceled?) {
      CloseFires(env, op.event);
    } else if op.HandleEvent? && NexusProgress(op.event) && op.event != NexusCancelDelivered(0) {
      NexusFires(env, op.event);
    } else {
      SilentStep(env, op);
    }
  }

  lemma SilentStep(env: Env, op: EnvOp)
    requires EnvStep(env, op).Ok? && !op.RequestCancelActivity? && !op.RequestCancelNexusOperation?
    requires op.HandleEvent? ==>
               && !op.event.ActivityClosed? && !op.event.ActivityCanceled?
               && (NexusProgress(op.event) ==> op.event == NexusCancelDelivered(0))
    ensures EnvStep(env, op).value.fired == env.fired && Concerned(env.helper, op).None?
  {}

  /** After a cancel call on a listed activity whose result is outstanding, the result is delivered
      exactly when the activity was executed without waiting or had ended already. */
  lemma CancelDeliversIff(env: Env, a: string)
    requires EnvInv(env) && Find(env.helper.machines, ActivityID(a)).Some? && CancelActivityCall(env, a).Ok?
    ensures var m := env.helper.machines[Find(env.helper.machines, ActivityID(a)).value];
            m.serial in env.activities &&
            (ActivityResult(m.serial) !in env.fired ==>
               (ActivityResult(m.serial) in CancelActivityCall(env, a).value.fired <==>
                  || !env.activities[m.serial].waitForCancelRequest
                  || m.state == CompletedAfterCancellationCommandSent))
  {
    var op := RequestCancelActivity(a);
    NamedIs(env.helper, ActivityID(a));
    SerialFinds(env.helper.machines, MachineNamed(env.helper, ActivityID(a)).value);
    CancelFires(env, a);
  }
}
