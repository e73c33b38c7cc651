/** The workflow environment on top of the helper: result callbacks of activities and the started
    and completed callbacks of Nexus operations. */
module Environment {
  import opened Basics
  import opened CommandMachine
  import opened HelperState
  import opened Invariants

  /** `scheduledActivity`. */
  datatype ActivityData = ActivityData(handled: bool, waitForCancelRequest: bool)

  datatype CancellationMode = Abandon | TryCancel | WaitRequested | WaitCompleted

  /** `scheduledNexusOperation`; a callback is pending until it is called or dropped. */
  datatype OperationData = OperationData(startedPending: bool, completedPending: bool, mode: CancellationMode)

  /** A callback call, by the serial of the machine it belongs to. */
  datatype Firing = ActivityResult(serial: nat) | OperationStarted(serial: nat) | OperationCompleted(serial: nat)

  datatype Env = Env(
    helper: Helper,
    activities: map<nat, ActivityData>,
    operations: map<nat, OperationData>,
    fired: seq<Firing>)

  const NEW_ENV := Env(EMPTY_HELPER, map[], map[], [])

  datatype EnvOp =
    | ExecuteActivity(scheduleID: int, activityID: string, waitForCancelRequest: bool)
    | RequestCancelActivity(activityID: string)
    | ExecuteNexusOperation(seqNo: int, mode: CancellationMode)
    | RequestCancelNexusOperation(seqNo: int)
    | AbandonNexusOperation(seqNo: int)
    | HandleEvent(event: Event)
    | OtherCall(call: Call)
    | Respond

  /** `scheduledActivity.handle`: a second call panics. */
  function HandleActivity(env: Env, serial: nat): Result<Env> {
    if serial !in env.activities || env.activities[serial].handled then Panic
    else Ok(env.(activities := env.activities[serial := env.activities[serial].(handled := true)],
                 fired := env.fired + [ActivityResult(serial)]))
  }

  function CallStarted(env: Env, serial: nat): Env
    requires serial in env.operations
  {
    var data := env.operations[serial];
    if !data.startedPending then env
    else env.(operations := env.operations[serial := data.(startedPending := false)],
              fired := env.fired + [OperationStarted(serial)])
  }

  function CallCompleted(env: Env, serial: nat): Env
    requires serial in env.operations
  {
    var data := env.operations[serial];
    if !data.completedPending then env
    else env.(operations := env.operations[serial := data.(completedPending := false)],
              fired := env.fired + [OperationCompleted(serial)])
  }

  /** Both callbacks, the started one first. */
  function Unblock(env: Env, serial: nat): Env
    requires serial in env.operations
  {
    CallCompleted(CallStarted(env, serial), serial)
  }

  /** `isDone` of an activity's machine, which is Completed once it left the list. */
  predicate Done(ms: seq<Machine>, serial: nat) {
    match FindSerial(ms, serial)
    case None => true
    case Some(i) => ms[i].state == CompletedAfterCancellationCommandSent
  }

  function MachineNamed(h: Helper, id: CommandID): Result<Machine> {
    match Find(h.machines, id)
    case None => Panic
    case Some(i) => Ok(h.machines[i])
  }

  /** An event that closes an activity: the callback is skipped only if it was called before. */
  function CloseActivity(env: Env, event: Event, id: CommandID): Result<Env> {
    var m :- MachineNamed(env.helper, id);
    var h' :- OnEvent(env.helper, event);
    var env' := env.(helper := h');
    if m.serial !in env.activities then Panic
    else if env.activities[m.serial].handled then Ok(env')
    else if event.ActivityCanceled? && !Done(h'.machines, m.serial) && env.activities[m.serial].waitForCancelRequest
    then Ok(env')
    else HandleActivity(env', m.serial)
  }

  /** The events of a Nexus operation known by its scheduled event ID. */
  predicate NexusProgress(event: Event) {
    event.NexusStarted? || event.NexusCompleted? || event.NexusCancelRequested? || event.NexusCancelDelivered?
  }

  function OnNexusEvent(env: Env, event: Event): Result<Env>
    requires NexusProgress(event)
  {
    if event.eventID !in env.helper.nexusIDs then Panic
    else
      var m :- MachineNamed(env.helper, env.helper.nexusIDs[event.eventID]);
      var h' :- OnEvent(env.helper, event);
      var env' := env.(helper := h');
      if m.serial !in env.operations then Panic else Ok(NexusCallbacks(env', event, m.serial))
  }

  /** The event unblocks the futures of a Nexus operation: its completion, or what the caller waits for. */
  predicate Unblocks(event: Event, mode: CancellationMode) {
    || event.NexusCompleted?
    || (event.NexusCancelRequested? && mode == TryCancel)
    || (event.NexusCancelDelivered? && mode == WaitRequested)
  }

  /** The callbacks that an event of a Nexus operation triggers. */
  function NexusCallbacks(env: Env, event: Event, serial: nat): Env
    requires serial in env.operations
  {
    if event.NexusStarted? then CallStarted(env, serial)
    else if Unblocks(event, env.operations[serial].mode) then Unblock(env, serial)
    else env
  }

  function OnHistory(env: Env, event: Event): Result<Env> {
    if event.ActivityClosed? || event.ActivityCanceled? then
      if event.eventID !in env.helper.activityIDs then Panic
      else CloseActivity(env, event, ActivityID(env.helper.activityIDs[event.eventID]))
    else if event == NexusCancelDelivered(0) then Ok(env)
    else if NexusProgress(event) then OnNexusEvent(env, event)
    else
      var h' :- OnEvent(env.helper, event);
      Ok(env.(helper := h'))
  }

  /** `RequestCancelActivity`. */
  function CancelActivityCall(env: Env, a: string): Result<Env> {
    var m :- MachineNamed(env.helper, ActivityID(a));
    var h' :- OnCall(env.helper, CancelActivity(a));
    var env' := env.(helper := h');
    if m.serial !in env.activities then Panic
    else if env.activities[m.serial].handled then Ok(env')
    else if Done(h'.machines, m.serial) || !env.activities[m.serial].waitForCancelRequest
    then HandleActivity(env', m.serial)
    else Ok(env')
  }

  /** `RequestCancelNexusOperation`: unblocks the futures of an operation the server has not recorded. */
  function CancelOperationCall(env: Env, n: int): Result<Env> {
    var m :- MachineNamed(env.helper, NexusID(n));
    var h' :- OnCall(env.helper, CancelNexus(n));
    var env' := env.(helper := h');
    if m.serial !in env.operations then Panic
    else if m.state in {Created, CommandSent} then Ok(Unblock(env', m.serial))
    else Ok(env')
  }

  function AbandonCall(env: Env, n: int): Result<Env> {
    var m :- MachineNamed(env.helper, NexusID(n));
    if m.serial !in env.operations then Panic
    else
      var data := env.operations[m.serial].(startedPending := false, completedPending := false);
      Ok(env.(operations := env.operations[m.serial := data]))
  }

  /** The remaining calls have no callback; activities and Nexus operations go through their own. */
  function OtherStep(h: Helper, call: Call): Result<Helper> {
    if call.ScheduleActivity? || call.CancelActivity? || call.ScheduleNexus? || call.CancelNexus? then Panic
    else OnCall(h, call)
  }

  function EnvStep(env: Env, op: EnvOp): Result<Env> {
    var h := env.helper;
    match op
    case ExecuteActivity(s, a, wait) =>
      var h' :- OnCall(h, ScheduleActivity(s, a));
      Ok(env.(helper := h', activities := env.activities[h.nextSerial := ActivityData(false, wait)]))
    case RequestCancelActivity(a) => CancelActivityCall(env, a)
    case ExecuteNexusOperation(n, mode) =>
      var h' :- OnCall(h, ScheduleNexus(n));
      Ok(env.(helper := h', operations := env.operations[h.nextSerial := OperationData(true, true, mode)]))
    case RequestCancelNexusOperation(n) => CancelOperationCall(env, n)
    case AbandonNexusOperation(n) => AbandonCall(env, n)
    case HandleEvent(event) => OnHistory(env, event)
    case OtherCall(call) =>
      var h' :- OtherStep(h, call);
      Ok(env.(helper := h'))
    case Respond => Ok(env.(helper := Step(h, GetCommands(true)).value))
  }

  function EnvRun(env: Env, ops: seq<EnvOp>): Result<Env>
    decreases |ops|
  {
    if ops == [] then Ok(env)
    else
      var env' :- EnvStep(env, ops[0]);
      EnvRun(env', ops[1..])
  }

  // ---------------------------------------------------------------- invariant

  /** Every callback was called at most once, and a completion only after the start. */
  ghost predicate Ordered(fired: seq<Firing>) {
    && (forall i, j | 0 <= i < j < |fired| :: fired[i] != fired[j])
    && (forall k | 0 <= k < |fired| && fired[k].OperationCompleted? :: OperationStarted(fired[k].serial) in fired[..k])
  }

  /** Every activity and every Nexus operation in the list has its data. */
  ghost predicate Registered(env: Env) {
    forall m | m in env.helper.machines ::
      (m.id.ctype == ActivityType ==> m.serial in env.activities) &&
      (m.id.ctype == NexusType ==> m.serial in env.operations)
  }

  ghost predicate Tracked(env: Env) {
    && (forall s | s in env.activities :: env.activities[s].handled <==> ActivityResult(s) in env.fired)
    && (forall s | s in env.operations ::
          && (env.operations[s].startedPending ==> OperationStarted(s) !in env.fired)
          && (env.operations[s].completedPending ==> OperationCompleted(s) !in env.fired)
          && (env.operations[s].completedPending && !env.operations[s].startedPending ==>
                OperationStarted(s) in env.fired))
    && (forall f | f in env.fired :: f.serial < env.helper.nextSerial)
  }

  ghost predicate EnvInv(env: Env) {
    Inv(env.helper) && Ordered(env.fired) && Registered(env) && Tracked(env)
  }

  lemma AppendOrdered(fired: seq<Firing>, f: Firing)
    requires Ordered(fired) && f !in fired
    requires f.OperationCompleted? ==> OperationStarted(f.serial) in fired
    ensures Ordered(fired + [f])
  {
    var r := fired + [f];
    forall k | 0 <= k < |r| && r[k].OperationCompleted? ensures OperationStarted(r[k].serial) in r[..k] {
      if k < |fired| { assert r[..k] == fired[..k]; } else { assert r[..k] == fired; }
    }
  }

  lemma HandleActivityKeeps(env: Env, serial: nat)
    requires EnvInv(env) && serial in env.activities && !env.activities[serial].handled
    requires serial < env.helper.nextSerial
    ensures HandleActivity(env, serial).Ok? && EnvInv(HandleActivity(env, serial).value)
  {
    AppendOrdered(env.fired, ActivityResult(serial));
  }

  lemma CallStartedKeeps(env: Env, serial: nat)
    requires EnvInv(env) && serial in env.operations && serial < env.helper.nextSerial
    ensures EnvInv(CallStarted(env, serial)) && !CallStarted(env, serial).operations[serial].startedPending
  {
    if env.operations[serial].startedPending {
      AppendOrdered(env.fired, OperationStarted(serial));
    }
  }

  lemma CallCompletedKeeps(env: Env, serial: nat)
    requires EnvInv(env) && serial in env.operations && serial < env.helper.nextSerial
    requires !env.operations[serial].startedPending
    ensures EnvInv(CallCompleted(env, serial))
  {
    if env.operations[serial].completedPending {
      AppendOrdered(env.fired, OperationCompleted(serial));
    }
  }

  lemma UnblockKeeps(env: Env, serial: nat)
    requires EnvInv(env) && serial in env.operations && serial < env.helper.nextSerial
    ensures EnvInv(Unblock(env, serial))
  {
    CallStartedKeeps(env, serial);
    CallCompletedKeeps(CallStarted(env, serial), serial);
  }

  // ---------------------------------------------------------------- every step

  /** What an environment operation does to the helper. */
  function HelperStep(h: Helper, op: EnvOp): Result<Helper> {
    match op
    case ExecuteActivity(s, a, _) => OnCall(h, ScheduleActivity(s, a))
    case RequestCancelActivity(a) => OnCall(h, CancelActivity(a))
    case ExecuteNexusOperation(n, _) => OnCall(h, ScheduleNexus(n))
    case RequestCancelNexusOperation(n) => OnCall(h, CancelNexus(n))
    case AbandonNexusOperation(n) => if Find(h.machines, NexusID(n)).None? then Panic else Ok(h)
    case HandleEvent(event) => if event == NexusCancelDelivered(0) then Ok(h) else OnEvent(h, event)
    case OtherCall(call) => OtherStep(h, call)
    case Respond => Step(h, GetCommands(true))
  }

  /** The types of the machines that a call may add. */
  function AddedType(call: Call): Option<CommandType> {
    match call
    case ScheduleActivity(_, _) => Some(ActivityType)
    case ScheduleNexus(_) => Some(NexusType)
    case CancelActivity(_) => Some(CancelActivityType)
    case CancelTimer(_) => Some(CancelTimerType)
    case StartChild(_) => Some(ChildType)
    case CancelNexus(_) => Some(CancelNexusType)
    case _ => if PlainID(call).Some? then Some(PlainID(call).value.ctype) else None
  }

  /** The machines of `ms` numbered `n` or more are all of type `t`. */
  ghost predicate NewAre(ms: seq<Machine>, n: nat, t: Option<CommandType>) {
    forall m | m in ms && n <= m.serial :: Some(m.id.ctype) == t
  }

  lemma AddAdds(h: Helper, id: CommandID, scheduledID: int)
    requires Inv(h) && AddCommand(h, id, scheduledID).Ok?
    ensures NewAre(AddCommand(h, id, scheduledID).value.machines, h.nextSerial, Some(id.ctype))
  {
    AddEffect(h, id, scheduledID);
  }

  lemma FireAdds(h: Helper, id: CommandID, e: MachineEvent, n: nat, t: Option<CommandType>)
    requires Core(h.machines, h.nextSerial) && NewAre(h.machines, n, t) && Delivered(id.ctype, e)
    requires FireOn(h, id, e).Ok?
    ensures NewAre(FireOn(h, id, e).value.machines, n, t)
  {
    var m := FireEffect(h.machines, h.nextSerial, id, e);
  }

  lemma CancelAdds(h: Helper, id: CommandID, cancelID: CommandID, scheduledID: int)
    requires Inv(h) && id.ctype in {ActivityType, TimerType} && cancelID != id
    requires CancelWithCommand(h, id, cancelID, scheduledID).Ok?
    ensures NewAre(CancelWithCommand(h, id, cancelID, scheduledID).value.machines, h.nextSerial, Some(cancelID.ctype))
  {
    if h.machines[Find(h.machines, id).value].state in {Created, CommandSent, Initiated} {
      AddAdds(h, cancelID, scheduledID);
      AddEffect(h, cancelID, scheduledID);
      FireAdds(AddCommand(h, cancelID, scheduledID).value, id, EvCancel, h.nextSerial, Some(cancelID.ctype));
    } else {
      FireAdds(h, id, EvCancel, h.nextSerial, Some(cancelID.ctype));
    }
  }

  lemma CancelChildAdds(h: Helper, id: CommandID, t: Option<CommandType>)
    requires Inv(h) && id.ctype == ChildType && CancelChildNamed(h, id).Ok?
    ensures NewAre(CancelChildNamed(h, id).value.machines, h.nextSerial, t)
  {
    var i := Find(h.machines, id).value;
    if h.machines[i].state != Started {
      FireAdds(h, id, EvCancel, h.nextSerial, t);
    } else {
      var m := h.machines[i].(state := CanceledAfterStarted);
      assert h.machines[i] in h.machines;
      MoveToBackEffect(h.machines, h.nextSerial, i, m);
      forall x | x in CancelChildNamed(h, id).value.machines ensures x.serial < h.nextSerial {
        assert Sound(x, h.nextSerial);
      }
    }
  }

  lemma CancelNexusAdds(h: Helper, i: nat)
    requires Inv(h) && i < |h.machines| && h.machines[i].id.ctype == NexusType && CancelNexusAt(h, i).Ok?
    ensures NewAre(CancelNexusAt(h, i).value.machines, h.nextSerial, Some(CancelNexusType))
  {
    var m := h.machines[i];
    assert m in h.machines;
    if !(m.cancelation.Some? || m.state == Completed) {
      var id := CancelNexusID(m.scheduledID);
      var h1 := AddCommand(h, id, m.scheduledID).value;
      AddAdds(h, id, m.scheduledID);
      AddEffect(h, id, m.scheduledID);
      var m' := m.(cancelation := Some(h.nextSerial));
      var h2 := h1.(machines := h1.machines[i := m']);
      UpdateEffect(h1.machines, i, m');
      if m.state == Created {
        NewCancelationSound(h, h1, h2, m, m', id);
        FireAdds(h2, id, EvCompletion, h.nextSerial, Some(CancelNexusType));
      }
    }
  }

  lemma CallAdds(h: Helper, call: Call)
    requires Inv(h) && OnCall(h, call).Ok?
    ensures NewAre(OnCall(h, call).value.machines, h.nextSerial, AddedType(call))
  {
    match call
    case GetNextID =>
    case ScheduleActivity(s, a) => AddAdds(h, ActivityID(a), s);
    case CancelActivity(a) =>
      var e := h.machines[Find(h.machines, ActivityID(a)).value].scheduledID;
      CancelAdds(h, ActivityID(a), CancelActivityID(e), e);
    case CancelTimer(t) => CancelAdds(h, TimerID(t), CancelTimerID(Text(t)), 0);
    case StartChild(w) => if Find(h.machines, ChildID(w)).None? { AddAdds(h, ChildID(w), 0); }
    case CancelChild(w) => CancelChildAdds(h, ChildID(w), AddedType(call));
    case ScheduleNexus(n) => AddAdds(h, NexusID(n), 0);
    case CancelNexus(n) => CancelNexusAdds(h, Find(h.machines, NexusID(n)).value);
    case _ => AddAdds(h, PlainID(call).value, 0);
  }

  lemma EventSerial(h: Helper, event: Event)
    requires OnEvent(h, event).Ok?
    ensures OnEvent(h, event).value.nextSerial == h.nextSerial
  {
    if Routed(event) {
      PrepareSerial(h, event);
    }
  }

  lemma PrepareSerial(h: Helper, event: Event)
    ensures Prepare(h, event).nextSerial == h.nextSerial
  {
  }

  /** A step that adds neither activities nor operations leaves every callback alone. */
  lemma FrameKeepsEnv(env: Env, h': Helper, t: Option<CommandType>)
    requires EnvInv(env) && Keeps(env.helper, h') && NewAre(h'.machines, env.helper.nextSerial, t)
    requires t != Some(ActivityType) && t != Some(NexusType)
    ensures EnvInv(env.(helper := h'))
  {
    forall x | x in h'.machines && x.serial < env.helper.nextSerial
      ensures (x.id.ctype == ActivityType ==> x.serial in env.activities)
              && (x.id.ctype == NexusType ==> x.serial in env.operations)
    {
      var m :| m in env.helper.machines && Follows(m, x);
    }
  }

  lemma EventKeepsEnv(env: Env, event: Event)
    requires EnvInv(env) && OnEvent(env.helper, event).Ok?
    ensures EnvInv(env.(helper := OnEvent(env.helper, event).value))
  {
    var h' := OnEvent(env.helper, event).value;
    EventKeepsInv(env.helper, event);
    EventSerial(env.helper, event);
    assert NewAre(h'.machines, env.helper.nextSerial, None) by {
      forall m | m in h'.machines ensures m.serial < env.helper.nextSerial {
        assert Sound(m, h'.nextSerial);
      }
    }
    FrameKeepsEnv(env, h', None);
  }

  lemma CallKeepsEnv(env: Env, call: Call)
    requires EnvInv(env) && OnCall(env.helper, call).Ok? && !call.ScheduleActivity? && !call.ScheduleNexus?
    ensures EnvInv(env.(helper := OnCall(env.helper, call).value))
  {
    CallKeepsInv(env.helper, call);
    CallAdds(env.helper, call);
    FrameKeepsEnv(env, OnCall(env.helper, call).value, AddedType(call));
  }

  lemma ActivityAdded(env: Env, h': Helper, wait: bool)
    requires EnvInv(env) && Keeps(env.helper, h') && h'.nextSerial == env.helper.nextSerial + 1
    requires NewAre(h'.machines, env.helper.nextSerial, Some(ActivityType))
    ensures EnvInv(env.(helper := h', activities := env.activities[env.helper.nextSerial := ActivityData(false, wait)]))
  {
    forall x | x in h'.machines
      ensures x.id.ctype == ActivityType ==> x.serial in env.activities || x.serial == env.helper.nextSerial
      ensures x.id.ctype == NexusType ==> x.serial in env.operations
    {
      assert Sound(x, h'.nextSerial);
      if x.serial < env.helper.nextSerial {
        var m :| m in env.helper.machines && Follows(m, x);
      }
    }
  }

  lemma OperationAdded(env: Env, h': Helper, mode: CancellationMode)
    requires EnvInv(env) && Keeps(env.helper, h') && h'.nextSerial == env.helper.nextSerial + 1
    requires NewAre(h'.machines, env.helper.nextSerial, Some(NexusType))
    ensures var data := OperationData(true, true, mode);
            EnvInv(env.(helper := h', operations := env.operations[env.helper.nextSerial := data]))
  {
    forall x | x in h'.machines
      ensures x.id.ctype == ActivityType ==> x.serial in env.activities
      ensures x.id.ctype == NexusType ==> x.serial in env.operations || x.serial == env.helper.nextSerial
    {
      assert Sound(x, h'.nextSerial);
      if x.serial < env.helper.nextSerial {
        var m :| m in env.helper.machines && Follows(m, x);
      }
    }
  }

  lemma ExecuteActivityKeepsEnv(env: Env, s: int, a: string, wait: bool)
    requires EnvInv(env) && EnvStep(env, ExecuteActivity(s, a, wait)).Ok?
    ensures EnvInv(EnvStep(env, ExecuteActivity(s, a, wait)).value)
  {
    CallKeepsInv(env.helper, ScheduleActivity(s, a));
    CallAdds(env.helper, ScheduleActivity(s, a));
    ActivityAdded(env, OnCall(env.helper, ScheduleActivity(s, a)).value, wait);
  }

  lemma ExecuteOperationKeepsEnv(env: Env, n: int, mode: CancellationMode)
    requires EnvInv(env) && EnvStep(env, ExecuteNexusOperation(n, mode)).Ok?
    ensures EnvInv(EnvStep(env, ExecuteNexusOperation(n, mode)).value)
  {
    CallKeepsInv(env.helper, ScheduleNexus(n));
    CallAdds(env.helper, ScheduleNexus(n));
    OperationAdded(env, OnCall(env.helper, ScheduleNexus(n)).value, mode);
  }

  /** `already handled` and missing data are unreachable: the environment panics only where the
      helper does. */
  lemma StepKeepsEnv(env: Env, op: EnvOp)
    requires EnvInv(env)
    ensures EnvStep(env, op).Ok? <==> HelperStep(env.helper, op).Ok?
    ensures EnvStep(env, op).Ok? ==> EnvInv(EnvStep(env, op).value)
  {
    match op
    case ExecuteActivity(s, a, wait) =>
      if EnvStep(env, op).Ok? { ExecuteActivityKeepsEnv(env, s, a, wait); }
    case RequestCancelActivity(a) => CancelActivityKeepsEnv(env, a);
    case ExecuteNexusOperation(n, mode) =>
      if EnvStep(env, op).Ok? { ExecuteOperationKeepsEnv(env, n, mode); }
    case RequestCancelNexusOperation(n) => CancelOperationKeepsEnv(env, n);
    case AbandonNexusOperation(n) => AbandonKeepsEnv(env, n);
    case HandleEvent(event) => HistoryKeepsEnv(env, event);
    case OtherCall(call) => if OtherStep(env.helper, call).Ok? { CallKeepsEnv(env, call); }
    case Respond =>
      var h' := Step(env.helper, GetCommands(true)).value;
      StepKeepsInv(env.helper, GetCommands(true));
      assert NewAre(h'.machines, env.helper.nextSerial, None) by {
        forall m | m in h'.machines ensures m.serial < env.helper.nextSerial {
          assert Sound(m, h'.nextSerial);
        }
      }
      FrameKeepsEnv(env, h', None);
  }

  lemma CancelActivityIs(env: Env, a: string)
    requires OnCall(env.helper, CancelActivity(a)).Ok? && Find(env.helper.machines, ActivityID(a)).Some?
    ensures var m := env.helper.machines[Find(env.helper.machines, ActivityID(a)).value];
            var env' := env.(helper := OnCall(env.helper, CancelActivity(a)).value);
            m.serial in env.activities ==>
              CancelActivityCall(env, a) == Ok(env')
              || (!env.activities[m.serial].handled && CancelActivityCall(env, a) == HandleActivity(env', m.serial))
  {}

  lemma CancelActivityKeepsEnv(env: Env, a: string)
    requires EnvInv(env)
    ensures CancelActivityCall(env, a).Ok? <==> OnCall(env.helper, CancelActivity(a)).Ok?
    ensures CancelActivityCall(env, a).Ok? ==> EnvInv(CancelActivityCall(env, a).value)
  {
    if OnCall(env.helper, CancelActivity(a)).Ok? {
      var m := env.helper.machines[Find(env.helper.machines, ActivityID(a)).value];
      assert m in env.helper.machines && Sound(m, env.helper.nextSerial);
      CancelActivityIs(env, a);
      CallKeepsEnv(env, CancelActivity(a));
      if !env.activities[m.serial].handled {
        HandleActivityKeeps(env.(helper := OnCall(env.helper, CancelActivity(a)).value), m.serial);
      }
    }
  }

  lemma CancelOperationKeepsEnv(env: Env, n: int)
    requires EnvInv(env)
    ensures CancelOperationCall(env, n).Ok? <==> OnCall(env.helper, CancelNexus(n)).Ok?
    ensures CancelOperationCall(env, n).Ok? ==> EnvInv(CancelOperationCall(env, n).value)
  {
    if OnCall(env.helper, CancelNexus(n)).Ok? {
      var m := env.helper.machines[Find(env.helper.machines, NexusID(n)).value];
      assert m in env.helper.machines && Sound(m, env.helper.nextSerial);
      CallKeepsEnv(env, CancelNexus(n));
      UnblockKeeps(env.(helper := OnCall(env.helper, CancelNexus(n)).value), m.serial);
    }
  }

  lemma AbandonKeepsEnv(env: Env, n: int)
    requires EnvInv(env)
    ensures EnvStep(env, AbandonNexusOperation(n)).Ok? <==> Find(env.helper.machines, NexusID(n)).Some?
    ensures EnvStep(env, AbandonNexusOperation(n)).Ok? ==> EnvInv(EnvStep(env, AbandonNexusOperation(n)).value)
  {
    match Find(env.helper.machines, NexusID(n))
    case None =>
    case Some(i) => assert env.helper.machines[i] in env.helper.machines;
  }

  lemma CloseActivityKeepsEnv(env: Env, event: Event)
    requires EnvInv(env) && (event.ActivityClosed? || event.ActivityCanceled?)
    requires event.eventID in env.helper.activityIDs
    ensures var id := ActivityID(env.helper.activityIDs[event.eventID]);
            && (CloseActivity(env, event, id).Ok? <==> OnEvent(env.helper, event).Ok?)
            && (CloseActivity(env, event, id).Ok? ==> EnvInv(CloseActivity(env, event, id).value))
  {
    var id := ActivityID(env.helper.activityIDs[event.eventID]);
    assert HasActivity(env.helper.machines, env.helper.activityIDs[event.eventID]);
    if OnEvent(env.helper, event).Ok? {
      var m := env.helper.machines[Find(env.helper.machines, id).value];
      assert m in env.helper.machines && Sound(m, env.helper.nextSerial);
      EventKeepsEnv(env, event);
      EventSerial(env.helper, event);
      if !env.activities[m.serial].handled {
        HandleActivityKeeps(env.(helper := OnEvent(env.helper, event).value), m.serial);
      }
    }
  }

  lemma NexusEventIs(env: Env, event: Event)
    requires NexusProgress(event) && event.eventID in env.helper.nexusIDs
    requires Find(env.helper.machines, env.helper.nexusIDs[event.eventID]).Some?
    ensures var m := env.helper.machines[Find(env.helper.machines, env.helper.nexusIDs[event.eventID]).value];
            m.serial in env.operations && OnEvent(env.helper, event).Ok? ==>
              OnNexusEvent(env, event)
              == Ok(NexusCallbacks(env.(helper := OnEvent(env.helper, event).value), event, m.serial))
  {}

  lemma NexusEventKeepsEnv(env: Env, event: Event)
    requires EnvInv(env)
    requires NexusProgress(event)
    ensures OnNexusEvent(env, event).Ok? <==> OnEvent(env.helper, event).Ok?
    ensures OnNexusEvent(env, event).Ok? ==> EnvInv(OnNexusEvent(env, event).value)
  {
    if event.eventID in env.helper.nexusIDs && OnEvent(env.helper, event).Ok? {
      var id := env.helper.nexusIDs[event.eventID];
      assert HasOpen(env.helper.machines, id);
      var m := env.helper.machines[Find(env.helper.machines, id).value];
      assert m in env.helper.machines && Sound(m, env.helper.nextSerial);
      NexusEventIs(env, event);
      EventKeepsEnv(env, event);
      EventSerial(env.helper, event);
      NexusCallbacksKeep(env.(helper := OnEvent(env.helper, event).value), event, m.serial);
    }
  }

  lemma NexusCallbacksKeep(env: Env, event: Event, serial: nat)
    requires EnvInv(env) && serial in env.operations && serial < env.helper.nextSerial
    ensures EnvInv(NexusCallbacks(env, event, serial))
  {
    CallStartedKeeps(env, serial);
    UnblockKeeps(env, serial);
  }

  lemma HistoryKeepsEnv(env: Env, event: Event)
    requires EnvInv(env)
    ensures OnHistory(env, event).Ok? <==> HelperStep(env.helper, HandleEvent(event)).Ok?
    ensures OnHistory(env, event).Ok? ==> EnvInv(OnHistory(env, event).value)
  {
    if event.ActivityClosed? || event.ActivityCanceled? {
      ActivityHistoryKeepsEnv(env, event);
    } else if NexusProgress(event) {
      if event != NexusCancelDelivered(0) { NexusEventKeepsEnv(env, event); }
    } else {
      PlainHistoryKeepsEnv(env, event);
    }
  }

  lemma ActivityHistoryKeepsEnv(env: Env, event: Event)
    requires EnvInv(env) && (event.ActivityClosed? || event.ActivityCanceled?)
    ensures OnHistory(env, event).Ok? <==> OnEvent(env.helper, event).Ok?
    ensures OnHistory(env, event).Ok? ==> EnvInv(OnHistory(env, event).value)
  {
    if event.eventID in env.helper.activityIDs {
      CloseActivityKeepsEnv(env, event);
    } else {
      assert Route(env.helper, event).Panic?;
    }
  }

  lemma PlainHistoryKeepsEnv(env: Env, event: Event)
    requires EnvInv(env) && !event.ActivityClosed? && !event.ActivityCanceled? && !NexusProgress(event)
    ensures OnHistory(env, event).Ok? <==> OnEvent(env.helper, event).Ok?
    ensures OnHistory(env, event).Ok? ==> EnvInv(OnHistory(env, event).value)
  {
    if OnEvent(env.helper, event).Ok? {
      EventKeepsEnv(env, event);
    }
  }

  lemma {:induction false} RunKeepsEnv(env: Env, ops: seq<EnvOp>)
    requires EnvInv(env) && EnvRun(env, ops).Ok?
    ensures EnvInv(EnvRun(env, ops).value)
    decreases |ops|
  {
    if ops != [] {
      StepKeepsEnv(env, ops[0]);
      RunKeepsEnv(EnvStep(env, ops[0]).value, ops[1..]);
    }
  }

  /** Over any run every callback is called at most once, and a Nexus completion is delivered only
      after the start was. */
  lemma CallbacksAtMostOnce(ops: seq<EnvOp>)
    requires EnvRun(NEW_ENV, ops).Ok?
    ensures var fired := EnvRun(NEW_ENV, ops).value.fired;
            && (forall i, j | 0 <= i < j < |fired| :: fired[i] != fired[j])
            && (forall k | 0 <= k < |fired| && fired[k].OperationCompleted? ::
                  OperationStarted(fired[k].serial) in fired[..k])
  {
    assert EnvInv(NEW_ENV);
    RunKeepsEnv(NEW_ENV, ops);
  }

  lemma RunRest(env: Env, ops: seq<EnvOp>, j: nat)
    requires j < |ops| && EnvStep(env, ops[0]).Ok?
    ensures EnvRun(env, ops[..j + 1]) == EnvRun(EnvStep(env, ops[0]).value, ops[1..][..j])
  {
    assert ops[..j + 1][1..] == ops[1..][..j];
  }

  /** A run panics only where the helper alone would: "already handled" is unreachable. */
  lemma {:induction false} PanicsOnlyInHelper(env: Env, ops: seq<EnvOp>)
    requires EnvInv(env) && EnvRun(env, ops).Panic?
    ensures exists j | 0 <= j < |ops| ::
              EnvRun(env, ops[..j]).Ok? && HelperStep(EnvRun(env, ops[..j]).value.helper, ops[j]).Panic?
    decreases |ops|
  {
    StepKeepsEnv(env, ops[0]);
    if EnvStep(env, ops[0]).Ok? {
      var next := EnvStep(env, ops[0]).value;
      PanicsOnlyInHelper(next, ops[1..]);
      var j :| 0 <= j < |ops[1..]| && EnvRun(next, ops[1..][..j]).Ok?
               && HelperStep(EnvRun(next, ops[1..][..j]).value.helper, ops[1..][j]).Panic?;
      RunRest(env, ops, j);
    } else {
      assert EnvRun(env, ops[..0]) == Ok(env);
    }
  }

  /** Once the server closes an activity its result was delivered, whatever was cancelled before. */
  lemma ClosedActivityIsDelivered(env: Env, event: Event)
    requires EnvInv(env) && (event.ActivityClosed? || event.ActivityCanceled?)
    requires OnHistory(env, event).Ok?
    ensures var id := ActivityID(env.helper.activityIDs[event.eventID]);
            var serial := env.helper.machines[Find(env.helper.machines, id).value].serial;
            ActivityResult(serial) in OnHistory(env, event).value.fired
  {
    var id := ActivityID(env.helper.activityIDs[event.eventID]);
    var m := env.helper.machines[Find(env.helper.machines, id).value];
    assert m in env.helper.machines;
    if event.ActivityCanceled? {
      CanceledIsDone(env.helper, event.eventID);
    }
  }

  lemma CanceledIsDone(h: Helper, e: int)
    requires Inv(h) && e in h.activityIDs && OnEvent(h, ActivityCanceled(e)).Ok?
    ensures var i := Find(h.machines, ActivityID(h.activityIDs[e])).value;
            Done(OnEvent(h, ActivityCanceled(e)).value.machines, h.machines[i].serial)
  {
    var i := Find(h.machines, ActivityID(h.activityIDs[e])).value;
    assert MoveOf(ActivityType, h.machines[i].state, EvCanceled) == To(Completed);
    RemoveEffect(h.machines, i);
    var ms' := OnEvent(h, ActivityCanceled(e)).value.machines;
    assert ms' == RemoveAt(h.machines, i);
    forall j | 0 <= j < |ms'| ensures ms'[j].serial != h.machines[i].serial {
      assert ms'[j] in ms';
    }
  }
}
