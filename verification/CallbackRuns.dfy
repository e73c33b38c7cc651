/** When callbacks are called over whole runs, and that none is lost. */
module CallbackRuns {
  import opened Basics
  import opened CommandMachine
  import opened HelperState
  import opened Invariants
  import opened MachineRuns
  import opened EventOutcomes
  import opened Environment
  import opened CallbackTimes

  // ---------------------------------------------------------------- what a run keeps

  /** The flag given to each activity that was executed. */
  function Waits(env: Env): map<nat, bool> {
    map s | s in env.activities :: env.activities[s].waitForCancelRequest
  }

  /** The cancellation mode given to each operation that was executed. */
  function Modes(env: Env): map<nat, CancellationMode> {
    map s | s in env.operations :: env.operations[s].mode
  }

  /** Flags and modes stay as they were given. */
  ghost predicate SameData(env: Env, env': Env) {
    Waits(env') == Waits(env) && Modes(env') == Modes(env)
  }

  ghost predicate SerialsUsed(env: Env) {
    && (forall s | s in env.activities :: s < env.helper.nextSerial)
    && (forall s | s in env.operations :: s < env.helper.nextSerial)
  }

  predicate EndedActivity(m: Machine) {
    m.id.ctype == ActivityType && m.state == CompletedAfterCancellationCommandSent
  }

  /** The result of an activity that ended was delivered. */
  ghost predicate EndedDelivered(env: Env) {
    forall m | m in env.helper.machines && EndedActivity(m) :: ActivityResult(m.serial) in env.fired
  }

  ghost predicate TimesInv(env: Env) {
    EnvInv(env) && SerialsUsed(env) && EndedDelivered(env)
  }

  /** What the operation asks of the helper. */
  function HelperOp(op: EnvOp): Option<Op> {
    match op
    case ExecuteActivity(s, a, _) => Some(Invoke(ScheduleActivity(s, a)))
    case RequestCancelActivity(a) => Some(Invoke(CancelActivity(a)))
    case ExecuteNexusOperation(n, _) => Some(Invoke(ScheduleNexus(n)))
    case RequestCancelNexusOperation(n) => Some(Invoke(CancelNexus(n)))
    case AbandonNexusOperation(_) => None
    case HandleEvent(event) => if event == NexusCancelDelivered(0) then None else Some(Apply(event))
    case OtherCall(call) => Some(Invoke(call))
    case Respond => Some(GetCommands(true))
  }

  lemma HelperAfter(env: Env, op: EnvOp)
    requires EnvStep(env, op).Ok?
    ensures match HelperOp(op)
            case None => EnvStep(env, op).value.helper == env.helper
            case Some(o) => Step(env.helper, o) == Ok(EnvStep(env, op).value.helper)
  {}

  lemma HandleData(env: Env, serial: nat)
    requires HandleActivity(env, serial).Ok?
    ensures SameData(env, HandleActivity(env, serial).value)
  {}

  lemma UnblockData(env: Env, serial: nat)
    requires serial in env.operations
    ensures SameData(env, CallStarted(env, serial)) && SameData(env, Unblock(env, serial))
  {}

  lemma CancelActivityData(env: Env, a: string)
    requires CancelActivityCall(env, a).Ok?
    ensures SameData(env, CancelActivityCall(env, a).value)
  {
    NamedIs(env.helper, ActivityID(a));
    CancelActivityIs(env, a);
    var env' := env.(helper := OnCall(env.helper, CancelActivity(a)).value);
    var s := MachineNamed(env.helper, ActivityID(a)).value.serial;
    if HandleActivity(env', s).Ok? { HandleData(env', s); }
  }

  lemma CloseData(env: Env, event: Event, id: CommandID)
    requires CloseActivity(env, event, id).Ok?
    ensures SameData(env, CloseActivity(env, event, id).value)
  {
    var env' := env.(helper := OnEvent(env.helper, event).value);
    var s := MachineNamed(env.helper, id).value.serial;
    if HandleActivity(env', s).Ok? { HandleData(env', s); }
  }

  lemma NexusData(env: Env, event: Event)
    requires NexusProgress(event) && OnNexusEvent(env, event).Ok?
    ensures SameData(env, OnNexusEvent(env, event).value)
  {
    var s := MachineNamed(env.helper, env.helper.nexusIDs[event.eventID]).value.serial;
    UnblockData(env.(helper := OnEvent(env.helper, event).value), s);
  }

  lemma CancelOperationData(env: Env, n: int)
    requires CancelOperationCall(env, n).Ok?
    ensures SameData(env, CancelOperationCall(env, n).value)
  {
    var s := MachineNamed(env.helper, NexusID(n)).value.serial;
    UnblockData(env.(helper := OnCall(env.helper, CancelNexus(n)).value), s);
  }

  lemma AbandonData(env: Env, n: int)
    requires AbandonCall(env, n).Ok?
    ensures SameData(env, AbandonCall(env, n).value)
  {}

  /** A step keeps every flag and mode; an execution adds its own. */
  lemma DataAfter(env: Env, op: EnvOp)
    requires EnvStep(env, op).Ok?
    ensures var env', n := EnvStep(env, op).value, env.helper.nextSerial;
            && Waits(env') == (if op.ExecuteActivity? then Waits(env)[n := op.waitForCancelRequest] else Waits(env))
            && Modes(env') == (if op.ExecuteNexusOperation? then Modes(env)[n := op.mode] else Modes(env))
  {
    if op.RequestCancelActivity? {
      CancelActivityData(env, op.activityID);
    } else if op.RequestCancelNexusOperation? {
      CancelOperationData(env, op.seqNo);
    } else if op.AbandonNexusOperation? {
      AbandonData(env, op.seqNo);
    } else if op.HandleEvent? && (op.event.ActivityClosed? || op.event.ActivityCanceled?) {
      CloseData(env, op.event, ActivityID(env.helper.activityIDs[op.event.eventID]));
    } else if op.HandleEvent? && NexusProgress(op.event) && op.event != NexusCancelDelivered(0) {
      NexusData(env, op.event);
    }
  }

  /** An activity that ended after its cancel command was sent did so before, unless the server ends it now. */
  lemma EndsByEvent(h: Helper, op: Op, id: CommandID)
    requires Inv(h) && Step(h, op).Ok? && id.ctype == ActivityType && StateOf(h.machines, id).Some?
    requires StateOf(Step(h, op).value.machines, id) == Some(CompletedAfterCancellationCommandSent)
    ensures || StateOf(h.machines, id) == Some(CompletedAfterCancellationCommandSent)
            || (op.Apply? && op.event.ActivityClosed? && Subject(h, op.event) == Some(id))
  {
    if op.Apply? && Routed(op.event) {
      EventEnds(h, op.event, id);
    } else {
      StepProjects(h, op, id);
      assert Addressed(h, op, id) in {None, Some(EvCancel), Some(EvSent)};
    }
  }

  lemma AboutActivity(h: Helper, event: Event)
    requires Inv(h) && Routed(event) && Subject(h, event).Some?
    ensures Subject(h, event).value.ctype == ActivityType ==> OfActivity(event)
  {
    if event.NexusStarted? || event.NexusCompleted? {
      assert HasOpen(h.machines, h.nexusIDs[event.eventID]);
    }
  }

  lemma OnlyClosingEnds(event: Event, s: CommandState)
    requires OfActivity(event)
    ensures Afterwards(event, ActivityType, s) == Some(CompletedAfterCancellationCommandSent) ==> event.ActivityClosed?
  {}

  lemma EventEnds(h: Helper, event: Event, id: CommandID)
    requires Inv(h) && Routed(event) && OnEvent(h, event).Ok? && id.ctype == ActivityType
    requires StateOf(OnEvent(h, event).value.machines, id) == Some(CompletedAfterCancellationCommandSent)
    ensures || StateOf(h.machines, id) == Some(CompletedAfterCancellationCommandSent)
            || (event.ActivityClosed? && Subject(h, event) == Some(id))
  {
    if Subject(h, event) == Some(id) {
      OutcomeIs(h, event);
      AboutActivity(h, event);
      OnlyClosingEnds(event, StateOf(h.machines, id).value);
    } else {
      OthersStay(h, event, id);
    }
  }

  /** The helper's list holds the ended activity with this serial. */
  ghost predicate HasEnded(h: Helper, serial: nat) {
    exists m | m in h.machines :: m.serial == serial && EndedActivity(m)
  }

  lemma EndedBefore(h: Helper, op: Op, x: Machine)
    requires Inv(h) && Step(h, op).Ok? && x in Step(h, op).value.machines
    requires EndedActivity(x) && x.serial < h.nextSerial
    ensures HasEnded(h, x.serial) || (op.Apply? && ClosedBy(h, HandleEvent(op.event)) == Some(x.serial))
  {
    StepKeepsInv(h, op);
    var y :| y in h.machines && Follows(y, x);
    SerialFinds(h.machines, y);
    SerialFinds(Step(h, op).value.machines, x);
    EndsByEvent(h, op, x.id);
  }

  lemma StepEnded(env: Env, op: EnvOp, x: Machine)
    requires TimesInv(env) && EnvStep(env, op).Ok?
    requires x in EnvStep(env, op).value.helper.machines && EndedActivity(x) && x.serial < env.helper.nextSerial
    ensures ActivityResult(x.serial) in EnvStep(env, op).value.fired
  {
    HelperAfter(env, op);
    StepFires(env, op);
    if HelperOp(op).Some? {
      EndedBefore(env.helper, HelperOp(op).value, x);
      if !HasEnded(env.helper, x.serial) {
        assert ClosedBy(env.helper, op) == Some(x.serial);
        assert Delivers(env, op, x.serial);
      }
    }
  }

  lemma StepTimes(env: Env, op: EnvOp)
    requires TimesInv(env) && EnvStep(env, op).Ok?
    ensures TimesInv(EnvStep(env, op).value)
  {
    var env' := EnvStep(env, op).value;
    StepKeepsEnv(env, op);
    SerialsAfter(env, op);
    forall x | x in env'.helper.machines && EndedActivity(x) ensures ActivityResult(x.serial) in env'.fired {
      if x.serial < env.helper.nextSerial {
        StepEnded(env, op, x);
      } else {
        NewIsNotEnded(env, op, x);
      }
    }
  }

  lemma SerialsAfter(env: Env, op: EnvOp)
    requires EnvInv(env) && SerialsUsed(env) && EnvStep(env, op).Ok?
    ensures SerialsUsed(EnvStep(env, op).value)
  {
    var env' := EnvStep(env, op).value;
    HelperAfter(env, op);
    DataAfter(env, op);
    if HelperOp(op).Some? {
      StepKeepsInv(env.helper, HelperOp(op).value);
    }
    forall s | s in env'.activities ensures s < env'.helper.nextSerial {
      assert s in Waits(env');
    }
    forall s | s in env'.operations ensures s < env'.helper.nextSerial {
      assert s in Modes(env');
    }
  }

  lemma NewIsNotEnded(env: Env, op: EnvOp, x: Machine)
    requires EnvInv(env) && EnvStep(env, op).Ok?
    requires x in EnvStep(env, op).value.helper.machines && env.helper.nextSerial <= x.serial
    ensures !EndedActivity(x)
  {
    HelperAfter(env, op);
    if HelperOp(op).Some? {
      NewIsNew(env.helper, HelperOp(op).value, x);
    }
  }

  lemma NewIsNew(h: Helper, op: Op, x: Machine)
    requires Inv(h) && Step(h, op).Ok? && x in Step(h, op).value.machines && h.nextSerial <= x.serial
    ensures !EndedActivity(x)
  {
    StepKeepsInv(h, op);
    assert Sound(x, Step(h, op).value.nextSerial);
    if op.Invoke? {
      CallAdds(h, op.call);
    } else if op.Apply? {
      EventSerial(h, op.event);
    }
  }

  // ---------------------------------------------------------------- whole runs

  /** The state before operation `j` of a run. */
  function At(env: Env, ops: seq<EnvOp>, j: nat): Result<Env>
    requires j <= |ops|
  {
    EnvRun(env, ops[..j])
  }

  lemma AtNext(env: Env, ops: seq<EnvOp>, j: nat)
    requires ops != [] && EnvStep(env, ops[0]).Ok? && j < |ops|
    ensures At(env, ops, j + 1) == At(EnvStep(env, ops[0]).value, ops[1..], j)
  {
    RunRest(env, ops, j);
  }

  ghost predicate DataKept(env: Env, env': Env) {
    && (forall s | s in Waits(env) :: s in Waits(env') && Waits(env')[s] == Waits(env)[s])
    && (forall s | s in Modes(env) :: s in Modes(env') && Modes(env')[s] == Modes(env)[s])
  }

  lemma StepKeepsData(env: Env, op: EnvOp)
    requires SerialsUsed(env) && EnvStep(env, op).Ok?
    ensures DataKept(env, EnvStep(env, op).value)
  {
    DataAfter(env, op);
  }

  /** Flags and modes are final once given. */
  lemma {:induction false} RunKeepsData(env: Env, ops: seq<EnvOp>)
    requires TimesInv(env) && EnvRun(env, ops).Ok?
    ensures TimesInv(EnvRun(env, ops).value) && DataKept(env, EnvRun(env, ops).value)
    decreases |ops|
  {
    if ops != [] {
      var next := EnvStep(env, ops[0]).value;
      StepTimes(env, ops[0]);
      StepKeepsData(env, ops[0]);
      RunKeepsData(next, ops[1..]);
    }
  }

  /** Every callback that a run calls is called at a step whose table lists it. */
  lemma {:induction false} FiredAt(env: Env, ops: seq<EnvOp>, f: Firing) returns (j: nat)
    requires TimesInv(env) && EnvRun(env, ops).Ok? && f in EnvRun(env, ops).value.fired && f !in env.fired
    ensures j < |ops| && At(env, ops, j).Ok? && TimesInv(At(env, ops, j).value)
    ensures f in Fires(At(env, ops, j).value, ops[j])
    ensures DataKept(At(env, ops, j).value, EnvRun(env, ops).value)
    decreases |ops|
  {
    var next := EnvStep(env, ops[0]).value;
    StepTimes(env, ops[0]);
    StepFires(env, ops[0]);
    if f in next.fired {
      j := 0;
      RunKeepsData(env, ops);
      assert At(env, ops, 0) == Ok(env);
    } else {
      var k := FiredAt(next, ops[1..], f);
      AtNext(env, ops, k);
      j := k + 1;
    }
  }

  lemma NewTimes()
    ensures TimesInv(NEW_ENV)
  {
    assert EnvInv(NEW_ENV);
  }

  /** The result of an activity is delivered when the server ends it.  Only an activity that was executed
      without waiting for its cancellation has it delivered by a cancel call. */
  lemma ResultTimes(ops: seq<EnvOp>, s: nat)
    requires EnvRun(NEW_ENV, ops).Ok? && ActivityResult(s) in EnvRun(NEW_ENV, ops).value.fired
    ensures exists j | 0 <= j < |ops| && At(NEW_ENV, ops, j).Ok? ::
              var env := At(NEW_ENV, ops, j).value;
              || ClosedBy(env.helper, ops[j]) == Some(s)
              || (&& CancelledBy(env.helper, ops[j]) == Some(s) && s in EnvRun(NEW_ENV, ops).value.activities
                  && !EnvRun(NEW_ENV, ops).value.activities[s].waitForCancelRequest)
  {
    NewTimes();
    var j := FiredAt(NEW_ENV, ops, ActivityResult(s));
    var env := At(NEW_ENV, ops, j).value;
    ResultCause(env, ops[j], s);
    if ClosedBy(env.helper, ops[j]) != Some(s) {
      assert s in Waits(env) && s in Waits(EnvRun(NEW_ENV, ops).value);
    }
  }

  lemma ResultCause(env: Env, op: EnvOp, s: nat)
    requires TimesInv(env) && ActivityResult(s) in Fires(env, op)
    ensures || ClosedBy(env.helper, op) == Some(s)
            || (&& CancelledBy(env.helper, op) == Some(s) && s in env.activities
                && !env.activities[s].waitForCancelRequest)
  {
    assert Delivers(env, op, s) && ActivityResult(s) !in env.fired;
    if ClosedBy(env.helper, op) != Some(s) && EndedWhileCancelled(env.helper, s) {
      NamedIs(env.helper, ActivityID(op.activityID));
      var m := MachineNamed(env.helper, ActivityID(op.activityID)).value;
      SerialFinds(env.helper.machines, m);
      assert EndedActivity(m);
    }
  }

  lemma CompletionCause(env: Env, op: EnvOp, s: nat, env': Env)
    requires OperationCompleted(s) in Fires(env, op) && DataKept(env, env')
    ensures s in env'.operations && Ends(env.helper, op, s, env'.operations[s].mode)
  {
    assert s in Modes(env) && s in Modes(env');
  }

  lemma StartCause(env: Env, op: EnvOp, s: nat, env': Env)
    requires OperationStarted(s) in Fires(env, op) && DataKept(env, env')
    ensures s in env'.operations
    ensures Starts(env.helper, op, s) || Ends(env.helper, op, s, env'.operations[s].mode)
  {
    assert s in Modes(env) && s in Modes(env');
  }

  /** The wait for an operation ends at its completion event, or at what its cancellation mode waits for,
      or when it is cancelled before the server recorded it. */
  lemma CompletionTimes(ops: seq<EnvOp>, s: nat)
    requires EnvRun(NEW_ENV, ops).Ok? && OperationCompleted(s) in EnvRun(NEW_ENV, ops).value.fired
    ensures s in EnvRun(NEW_ENV, ops).value.operations
    ensures exists j | 0 <= j < |ops| && At(NEW_ENV, ops, j).Ok? ::
              Ends(At(NEW_ENV, ops, j).value.helper, ops[j], s, EnvRun(NEW_ENV, ops).value.operations[s].mode)
  {
    NewTimes();
    var j := FiredAt(NEW_ENV, ops, OperationCompleted(s));
    CompletionCause(At(NEW_ENV, ops, j).value, ops[j], s, EnvRun(NEW_ENV, ops).value);
  }

  /** The start of an operation is delivered at its Started event or when the wait for it ends. */
  lemma StartTimes(ops: seq<EnvOp>, s: nat)
    requires EnvRun(NEW_ENV, ops).Ok? && OperationStarted(s) in EnvRun(NEW_ENV, ops).value.fired
    ensures s in EnvRun(NEW_ENV, ops).value.operations
    ensures exists j | 0 <= j < |ops| && At(NEW_ENV, ops, j).Ok? ::
              || Starts(At(NEW_ENV, ops, j).value.helper, ops[j], s)
              || Ends(At(NEW_ENV, ops, j).value.helper, ops[j], s, EnvRun(NEW_ENV, ops).value.operations[s].mode)
  {
    NewTimes();
    var j := FiredAt(NEW_ENV, ops, OperationStarted(s));
    StartCause(At(NEW_ENV, ops, j).value, ops[j], s, EnvRun(NEW_ENV, ops).value);
  }

  /** The flag found later is the one given by the call that executed the activity. */
  lemma {:induction false} ExecutedWaiting(env: Env, ops: seq<EnvOp>, s: nat)
    requires TimesInv(env) && EnvRun(env, ops).Ok? && s in Waits(EnvRun(env, ops).value) && s !in Waits(env)
    ensures exists j | 0 <= j < |ops| && At(env, ops, j).Ok? ::
              && ops[j].ExecuteActivity? && At(env, ops, j).value.helper.nextSerial == s
              && ops[j].waitForCancelRequest == Waits(EnvRun(env, ops).value)[s]
    decreases |ops|
  {
    var next := EnvStep(env, ops[0]).value;
    StepTimes(env, ops[0]);
    DataAfter(env, ops[0]);
    if s in Waits(next) {
      RunKeepsData(next, ops[1..]);
      assert At(env, ops, 0) == Ok(env);
    } else {
      ExecutedWaiting(next, ops[1..], s);
      var j :| 0 <= j < |ops[1..]| && At(next, ops[1..], j).Ok?
               && ops[1..][j].ExecuteActivity? && At(next, ops[1..], j).value.helper.nextSerial == s
               && ops[1..][j].waitForCancelRequest == Waits(EnvRun(env, ops).value)[s];
      AtNext(env, ops, j);
    }
  }

  /** The mode found later is the one given by the call that executed the operation. */
  lemma {:induction false} ExecutedInMode(env: Env, ops: seq<EnvOp>, s: nat)
    requires TimesInv(env) && EnvRun(env, ops).Ok? && s in Modes(EnvRun(env, ops).value) && s !in Modes(env)
    ensures exists j | 0 <= j < |ops| && At(env, ops, j).Ok? ::
              && ops[j].ExecuteNexusOperation? && At(env, ops, j).value.helper.nextSerial == s
              && ops[j].mode == Modes(EnvRun(env, ops).value)[s]
    decreases |ops|
  {
    var next := EnvStep(env, ops[0]).value;
    StepTimes(env, ops[0]);
    DataAfter(env, ops[0]);
    if s in Modes(next) {
      RunKeepsData(next, ops[1..]);
      assert At(env, ops, 0) == Ok(env);
    } else {
      ExecutedInMode(next, ops[1..], s);
      var j :| 0 <= j < |ops[1..]| && At(next, ops[1..], j).Ok?
               && ops[1..][j].ExecuteNexusOperation? && At(next, ops[1..], j).value.helper.nextSerial == s
               && ops[1..][j].mode == Modes(EnvRun(env, ops).value)[s];
      AtNext(env, ops, j);
    }
  }

  // ---------------------------------------------------------------- outstanding callbacks

  /** The workflow gives up on the operation: its callbacks are dropped. */
  predicate Abandons(h: Helper, op: EnvOp, serial: nat) {
    op.AbandonNexusOperation? && SerialOf(h, NexusID(op.seqNo)) == Some(serial)
  }

  /** A callback of an operation stays outstanding until it is called or dropped. */
  ghost predicate PendingKept(env: Env, op: EnvOp, env': Env, s: nat)
    requires s in env.operations && s in env'.operations
  {
    && (env'.operations[s].startedPending <==>
          env.operations[s].startedPending && OperationStarted(s) !in Fires(env, op) && !Abandons(env.helper, op, s))
    && (env'.operations[s].completedPending <==>
          env.operations[s].completedPending && OperationCompleted(s) !in Fires(env, op)
          && !Abandons(env.helper, op, s))
  }

  /** The callbacks called are no longer outstanding, the others are. */
  lemma CalledIsSettled(env: Env, serial: nat, s: nat)
    requires serial in env.operations && s in env.operations
    ensures var env' := CallStarted(env, serial);
            s in env'.operations
            && env'.operations[s] == env.operations[s].(startedPending := env'.operations[s].startedPending)
            && (env'.operations[s].startedPending <==> env.operations[s].startedPending && s != serial)
    ensures var env' := Unblock(env, serial);
            s in env'.operations
            && (env'.operations[s].startedPending <==> env.operations[s].startedPending && s != serial)
            && (env'.operations[s].completedPending <==> env.operations[s].completedPending && s != serial)
  {}

  lemma NexusPending(env: Env, event: Event, s: nat)
    requires EnvInv(env) && NexusProgress(event) && event != NexusCancelDelivered(0) && OnHistory(env, event).Ok?
    requires s in env.operations
    ensures s in OnHistory(env, event).value.operations
            && PendingKept(env, HandleEvent(event), OnHistory(env, event).value, s)
  {
    NamedIs(env.helper, env.helper.nexusIDs[event.eventID]);
    NexusEventIs(env, event);
    var m := MachineNamed(env.helper, env.helper.nexusIDs[event.eventID]).value;
    CallbacksPending(env.(helper := OnEvent(env.helper, event).value), env.helper, event, m.serial, s);
  }

  lemma CallbacksPending(env: Env, h: Helper, event: Event, serial: nat, s: nat)
    requires serial in env.operations && OperationOf(h, event) == Some(serial) && s in env.operations
    ensures s in NexusCallbacks(env, event, serial).operations
    ensures PendingKept(env.(helper := h), HandleEvent(event), NexusCallbacks(env, event, serial), s)
  {
    CalledIsSettled(env, serial, s);
    assert !Delivers(env.(helper := h), HandleEvent(event), serial);
    if Unblocks(event, env.operations[serial].mode) {
      assert Ends(h, HandleEvent(event), serial, env.operations[serial].mode);
    } else {
      assert !Ends(h, HandleEvent(event), serial, env.operations[serial].mode);
    }
  }

  lemma CancelOperationPending(env: Env, n: int, s: nat)
    requires EnvInv(env) && CancelOperationCall(env, n).Ok? && s in env.operations
    ensures s in CancelOperationCall(env, n).value.operations
            && PendingKept(env, EnvOp.RequestCancelNexusOperation(n), CancelOperationCall(env, n).value, s)
  {
    var op := EnvOp.RequestCancelNexusOperation(n);
    NamedIs(env.helper, NexusID(n));
    var m := MachineNamed(env.helper, NexusID(n)).value;
    CalledIsSettled(env.(helper := OnCall(env.helper, CancelNexus(n)).value), m.serial, s);
    assert Ends(env.helper, op, m.serial, env.operations[m.serial].mode) <==> m.state in {Created, CommandSent};
    assert !Delivers(env, op, m.serial) && !Starts(env.helper, op, m.serial) && !Abandons(env.helper, op, s);
  }

  lemma NoOperationFires(env: Env, op: EnvOp, s: nat)
    requires !op.RequestCancelNexusOperation?
    requires op.HandleEvent? ==> (NexusProgress(op.event) ==> op.event == NexusCancelDelivered(0))
    ensures OperationStarted(s) !in Fires(env, op) && OperationCompleted(s) !in Fires(env, op)
  {}

  /** A step leaves the other callbacks outstanding. */
  lemma PendingAfter(env: Env, op: EnvOp, s: nat)
    requires EnvInv(env) && EnvStep(env, op).Ok? && s in env.operations && s < env.helper.nextSerial
    ensures s in EnvStep(env, op).value.operations && PendingKept(env, op, EnvStep(env, op).value, s)
  {
    if op.RequestCancelNexusOperation? {
      CancelOperationPending(env, op.seqNo, s);
    } else if op.HandleEvent? && NexusProgress(op.event) && op.event != NexusCancelDelivered(0) {
      NexusPending(env, op.event, s);
    } else {
      NoOperationFires(env, op, s);
      OperationsStay(env, op, s);
    }
  }

  lemma OperationsStay(env: Env, op: EnvOp, s: nat)
    requires EnvStep(env, op).Ok? && !op.RequestCancelNexusOperation? && s in env.operations
    requires s < env.helper.nextSerial
    requires op.HandleEvent? ==> (NexusProgress(op.event) ==> op.event == NexusCancelDelivered(0))
    ensures s in EnvStep(env, op).value.operations
    ensures EnvStep(env, op).value.operations[s] ==
              if Abandons(env.helper, op, s) then env.operations[s].(startedPending := false, completedPending := false)
              else env.operations[s]
  {}

  /** The run abandons the operation. */
  ghost predicate AbandonedIn(env: Env, ops: seq<EnvOp>, s: nat) {
    exists j | 0 <= j < |ops| && At(env, ops, j).Ok? :: Abandons(At(env, ops, j).value.helper, ops[j], s)
  }

  lemma AbandonedFirst(env: Env, ops: seq<EnvOp>, s: nat)
    requires ops != [] && EnvStep(env, ops[0]).Ok?
    ensures AbandonedIn(env, ops, s) <==>
              || Abandons(env.helper, ops[0], s)
              || AbandonedIn(EnvStep(env, ops[0]).value, ops[1..], s)
  {
    var next := EnvStep(env, ops[0]).value;
    assert At(env, ops, 0) == Ok(env);
    forall j | 0 <= j < |ops[1..]| ensures At(env, ops, j + 1) == At(next, ops[1..], j) && ops[j + 1] == ops[1..][j] {
      AtNext(env, ops, j);
    }
    if AbandonedIn(env, ops, s) && !Abandons(env.helper, ops[0], s) {
      var j :| 0 <= j < |ops| && At(env, ops, j).Ok? && Abandons(At(env, ops, j).value.helper, ops[j], s);
      assert At(next, ops[1..], j - 1) == At(env, ops, j - 1 + 1);
    }
  }

  lemma {:induction false} RunFires(env: Env, ops: seq<EnvOp>)
    requires TimesInv(env) && EnvRun(env, ops).Ok?
    ensures env.fired <= EnvRun(env, ops).value.fired
    decreases |ops|
  {
    if ops != [] {
      StepTimes(env, ops[0]);
      StepFires(env, ops[0]);
      RunFires(EnvStep(env, ops[0]).value, ops[1..]);
    }
  }

  /** Outstanding, where an operation that is yet to be executed counts as such. */
  predicate StartDue(env: Env, s: nat) {
    s in env.operations ==> env.operations[s].startedPending
  }

  predicate CompletionDue(env: Env, s: nat) {
    s in env.operations ==> env.operations[s].completedPending
  }

  /** From `env` to `env'` a callback stays outstanding exactly when it was neither called nor dropped. */
  ghost predicate Accounted(env: Env, env': Env, s: nat, abandoned: bool) {
    && (StartDue(env', s) <==> StartDue(env, s) && OperationStarted(s) !in env'.fired && !abandoned)
    && (CompletionDue(env', s) <==> CompletionDue(env, s) && OperationCompleted(s) !in env'.fired && !abandoned)
  }

  lemma StepAccounted(env: Env, op: EnvOp, s: nat)
    requires TimesInv(env) && EnvStep(env, op).Ok?
    ensures var env' := EnvStep(env, op).value;
            && (StartDue(env', s) <==>
                  StartDue(env, s) && OperationStarted(s) !in Fires(env, op) && !Abandons(env.helper, op, s))
            && (CompletionDue(env', s) <==>
                  CompletionDue(env, s) && OperationCompleted(s) !in Fires(env, op) && !Abandons(env.helper, op, s))
  {
    if s in env.operations {
      PendingAfter(env, op, s);
    } else {
      NotYetExecuted(env, op, s);
    }
  }

  lemma NotYetExecuted(env: Env, op: EnvOp, s: nat)
    requires EnvStep(env, op).Ok? && s !in env.operations
    ensures OperationStarted(s) !in Fires(env, op) && OperationCompleted(s) !in Fires(env, op)
    ensures !Abandons(env.helper, op, s)
    ensures StartDue(EnvStep(env, op).value, s) && CompletionDue(EnvStep(env, op).value, s)
  {
    DataAfter(env, op);
    var env' := EnvStep(env, op).value;
    assert s in Modes(env') ==> op.ExecuteNexusOperation?;
    assert s in env'.operations ==> s in Modes(env');
  }

  lemma AccountedFirst(env: Env, op: EnvOp, next: Env, env': Env, s: nat, abandoned: bool)
    requires next.fired == env.fired + Fires(env, op) && next.fired <= env'.fired
    requires StartDue(next, s) <==>
               StartDue(env, s) && OperationStarted(s) !in Fires(env, op) && !Abandons(env.helper, op, s)
    requires CompletionDue(next, s) <==>
               CompletionDue(env, s) && OperationCompleted(s) !in Fires(env, op) && !Abandons(env.helper, op, s)
    requires Accounted(next, env', s, abandoned)
    ensures Accounted(env, env', s, Abandons(env.helper, op, s) || abandoned)
  {
    forall f | f in Fires(env, op) ensures f in env'.fired {
      assert f in next.fired;
    }
  }

  lemma {:induction false} RunAccounted(env: Env, ops: seq<EnvOp>, s: nat)
    requires TimesInv(env) && EnvRun(env, ops).Ok?
    requires StartDue(env, s) ==> OperationStarted(s) !in env.fired
    requires CompletionDue(env, s) ==> OperationCompleted(s) !in env.fired
    ensures Accounted(env, EnvRun(env, ops).value, s, AbandonedIn(env, ops, s))
    decreases |ops|
  {
    if ops != [] {
      var next := EnvStep(env, ops[0]).value;
      StepTimes(env, ops[0]);
      StepFires(env, ops[0]);
      StepAccounted(env, ops[0], s);
      AbandonedFirst(env, ops, s);
      RunFires(next, ops[1..]);
      RunAccounted(next, ops[1..], s);
      AccountedFirst(env, ops[0], next, EnvRun(env, ops).value, s, AbandonedIn(next, ops[1..], s));
    }
  }

  /** Callbacks of an operation are never lost: over any run each of them was called, or dropped because
      the operation was abandoned, or is outstanding. */
  lemma CallbacksAccounted(ops: seq<EnvOp>, s: nat)
    requires EnvRun(NEW_ENV, ops).Ok? && s in EnvRun(NEW_ENV, ops).value.operations
    ensures var env := EnvRun(NEW_ENV, ops).value;
            && (env.operations[s].startedPending <==>
                  OperationStarted(s) !in env.fired && !AbandonedIn(NEW_ENV, ops, s))
            && (env.operations[s].completedPending <==>
                  OperationCompleted(s) !in env.fired && !AbandonedIn(NEW_ENV, ops, s))
  {
    NewTimes();
    RunAccounted(NEW_ENV, ops, s);
  }

  /** Once the server reports the completion of an operation, the workflow has it, unless it abandoned
      the operation. */
  lemma CompletedIsDelivered(ops: seq<EnvOp>, e: int, s: nat)
    requires EnvRun(NEW_ENV, ops).Ok? && OperationOf(EnvRun(NEW_ENV, ops).value.helper, NexusCompleted(e)) == Some(s)
    requires EnvStep(EnvRun(NEW_ENV, ops).value, HandleEvent(NexusCompleted(e))).Ok?
    ensures || OperationCompleted(s) in EnvStep(EnvRun(NEW_ENV, ops).value, HandleEvent(NexusCompleted(e))).value.fired
            || AbandonedIn(NEW_ENV, ops, s)
  {
    NewTimes();
    RunKeepsData(NEW_ENV, ops);
    var env := EnvRun(NEW_ENV, ops).value;
    StepFires(env, HandleEvent(NexusCompleted(e)));
    ReportedIsExecuted(env, e, s);
    CallbacksAccounted(ops, s);
  }

  lemma ReportedIsExecuted(env: Env, e: int, s: nat)
    requires EnvInv(env) && OperationOf(env.helper, NexusCompleted(e)) == Some(s)
    ensures s in env.operations
    ensures env.operations[s].completedPending ==> OperationCompleted(s) in Fires(env, HandleEvent(NexusCompleted(e)))
  {
    assert HasOpen(env.helper.machines, env.helper.nexusIDs[e]);
    NamedIs(env.helper, env.helper.nexusIDs[e]);
    ReportFires(env, e, s);
  }

  lemma ReportFires(env: Env, e: int, s: nat)
    requires OperationOf(env.helper, NexusCompleted(e)) == Some(s)
    ensures s in env.operations && env.operations[s].completedPending ==>
              OperationCompleted(s) in Fires(env, HandleEvent(NexusCompleted(e)))
  {
    assert !Delivers(env, HandleEvent(NexusCompleted(e)), s);
  }
}
