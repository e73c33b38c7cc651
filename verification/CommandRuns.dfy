/** Whole-run consequences: index agreement, sending, and cancellation of timers and activities. */
module CommandRuns {
  import opened Basics
  import opened CommandMachine
  import opened HelperState
  import opened Invariants

  lemma InvResolves(h: Helper)
    requires Inv(h)
    ensures forall e | e in h.activityIDs :: Find(h.machines, ActivityID(h.activityIDs[e])).Some?
    ensures forall e | e in h.nexusIDs :: Find(h.machines, h.nexusIDs[e]).Some?
    ensures forall m | m in h.machines :: m.state != CanceledBeforeInitiated && m.state != Completed
  {
    forall e | e in h.activityIDs ensures Find(h.machines, ActivityID(h.activityIDs[e])).Some? {
      assert HasActivity(h.machines, h.activityIDs[e]);
    }
    forall e | e in h.nexusIDs ensures Find(h.machines, h.nexusIDs[e]).Some? {
      assert HasOpen(h.machines, h.nexusIDs[e]);
    }
    forall m | m in h.machines ensures m.state != CanceledBeforeInitiated && m.state != Completed {
      assert Sound(m, h.nextSerial);
    }
  }

  /** After any run from a new helper there is one machine per command ID, no lookup dangles, and no
      machine is in a state that its type cannot reach, `CanceledBeforeInitiated` among them. */
  lemma RunFromEmpty(ops: seq<Op>)
    requires Run(EMPTY_HELPER, ops).Ok?
    ensures var h := Run(EMPTY_HELPER, ops).value;
            && Inv(h)
            && (forall e | e in h.activityIDs :: Find(h.machines, ActivityID(h.activityIDs[e])).Some?)
            && (forall e | e in h.nexusIDs :: Find(h.machines, h.nexusIDs[e]).Some?)
            && (forall m | m in h.machines :: m.state != CanceledBeforeInitiated && m.state != Completed)
  {
    RunKeepsInv(EMPTY_HELPER, ops);
    InvResolves(Run(EMPTY_HELPER, ops).value);
  }

  /** Sending leaves no machine in `Created` and none of a type that completes when sent.  What can
      be emitted a second time is exactly what was cancelled before it was sent. */
  lemma SendLeavesNothingNew(h: Helper)
    requires Inv(h)
    ensures var h' := Step(h, GetCommands(true)).value;
            && (forall m | m in h'.machines :: m.state != Created && !CompletesOnSend(m.id.ctype))
            && (forall x :: x in Emitted(h'.machines) <==> x in h.machines && Resendable(x))
  {
    var ms' := AfterGet(h.machines, true);
    AfterGetMembers(h.machines, true);
    forall x | x in ms' ensures x.state != Created && !CompletesOnSend(x.id.ctype)
                                && (Emittable(x) ==> x in h.machines && Resendable(x))
    {
      var m :| m in h.machines && x == Got(m, true) && x.state != Completed;
      SentMachine(m, h.nextSerial);
    }
    forall x | x in h.machines && Resendable(x) ensures x in ms' && Emittable(x) {
      SentMachine(x, h.nextSerial);
    }
    EmittedMembers(ms');
  }

  predicate Resendable(m: Machine) {
    m.state == CanceledBeforeSent && (m.id.ctype == TimerType || m.id.ctype == ActivityType)
  }

  lemma SentMachine(m: Machine, n: nat)
    requires Sound(m, n)
    ensures var x := Got(m, true);
            && x.state != Created
            && (x.state != Completed ==> !CompletesOnSend(x.id.ctype))
            && (Emittable(x) ==> x == m && Resendable(m))
            && (Resendable(m) ==> x == m && Emittable(m))
  {
  }

  lemma {:induction false} EmittedMembers(ms: seq<Machine>)
    ensures forall x :: x in Emitted(ms) <==> x in ms && Emittable(x)
  {
    if ms != [] {
      EmittedMembers(ms[1..]);
      assert ms == [ms[0]] + ms[1..];
    }
  }

  /** `getCommands` returns the command of each machine that has one, in list order. */
  lemma {:induction false} CommandsOfEmitted(ms: seq<Machine>)
    ensures |Commands(ms)| == |Emitted(ms)|
    ensures forall k | 0 <= k < |Commands(ms)| :: CommandOf(Emitted(ms)[k]) == Some(Commands(ms)[k])
  {
    if ms != [] {
      CommandsOfEmitted(ms[1..]);
    }
  }

  // ---------------------------------------------------------------- cancellation

  /** The timer or activity that an operation asks to cancel. */
  function CancelTarget(h: Helper, op: Op): Option<Machine> {
    match op
    case Invoke(CancelTimer(t)) =>
      (match Find(h.machines, TimerID(t)) case Some(i) => Some(h.machines[i]) case None => None)
    case Invoke(CancelActivity(a)) =>
      (match Find(h.machines, ActivityID(a)) case Some(i) => Some(h.machines[i]) case None => None)
    case _ => None
  }

  /** The operation adds a cancel command for the machine with this serial. */
  predicate AddsCancel(h: Helper, op: Op, serial: nat)
    requires Step(h, op).Ok?
  {
    && CancelTarget(h, op).Some?
    && CancelTarget(h, op).value.serial == serial
    && Step(h, op).value.nextSerial > h.nextSerial
  }

  /** How many cancel commands a run adds for the machine with this serial. */
  function CancelsAdded(h: Helper, ops: seq<Op>, serial: nat): nat
    requires Run(h, ops).Ok?
    decreases |ops|
  {
    if ops == [] then 0
    else (if AddsCancel(h, ops[0], serial) then 1 else 0)
         + CancelsAdded(Step(h, ops[0]).value, ops[1..], serial)
  }

  ghost predicate GoneOrCancelled(h: Helper, serial: nat) {
    serial < h.nextSerial && forall m | m in h.machines && m.serial == serial :: Cancelled(m)
  }

  /** Cancellation is monotone: whatever happens afterwards, a cancelled timer or activity never
      returns to `Created`, `CommandSent` or `Initiated`. */
  lemma CancelledForever(h: Helper, ops: seq<Op>, serial: nat)
    requires Inv(h) && Run(h, ops).Ok? && GoneOrCancelled(h, serial)
    ensures GoneOrCancelled(Run(h, ops).value, serial)
  {
    RunKeepsInv(h, ops);
    var h' := Run(h, ops).value;
    forall x | x in h'.machines && x.serial == serial ensures Cancelled(x) {
      var m :| m in h.machines && Follows(m, x);
    }
  }

  /** A run adds at most one cancel command for each timer and each activity. */
  lemma {:induction false} AtMostOneCancel(h: Helper, ops: seq<Op>, serial: nat)
    requires Inv(h) && Run(h, ops).Ok?
    ensures CancelsAdded(h, ops, serial) <= 1
    ensures GoneOrCancelled(h, serial) ==> CancelsAdded(h, ops, serial) == 0
    decreases |ops|
  {
    if ops != [] {
      var h1 := Step(h, ops[0]).value;
      StepKeepsInv(h, ops[0]);
      AtMostOneCancel(h1, ops[1..], serial);
      if AddsCancel(h, ops[0], serial) {
        CancelMarks(h, ops[0], serial);
      }
      if GoneOrCancelled(h, serial) {
        assert Run(h, ops[..1]) == Step(h, ops[0]) by { assert ops[..1][1..] == []; }
        CancelledForever(h, ops[..1], serial);
      }
    }
  }

  lemma CancelMarks(h: Helper, op: Op, serial: nat)
    requires Inv(h) && Step(h, op).Ok? && AddsCancel(h, op, serial)
    ensures !GoneOrCancelled(h, serial) && GoneOrCancelled(Step(h, op).value, serial)
  {
    var m := CancelTarget(h, op).value;
    assert m in h.machines;
    if op.call.CancelTimer? {
      CancelWithCommandMarks(h, m, CancelTimerID(Text(op.call.timerID)), 0);
    } else {
      CancelWithCommandMarks(h, m, CancelActivityID(m.scheduledID), m.scheduledID);
    }
  }

  lemma CancelWithCommandMarks(h: Helper, m: Machine, cancelID: CommandID, scheduledID: int)
    requires Core(h.machines, h.nextSerial) && m in h.machines && Find(h.machines, m.id).Some?
    requires m == h.machines[Find(h.machines, m.id).value]
    requires m.id.ctype in {TimerType, ActivityType} && cancelID != m.id
    requires CancelWithCommand(h, m.id, cancelID, scheduledID).Ok?
    requires CancelWithCommand(h, m.id, cancelID, scheduledID).value.nextSerial > h.nextSerial
    ensures !Cancelled(m) && GoneOrCancelled(CancelWithCommand(h, m.id, cancelID, scheduledID).value, m.serial)
  {
    var h1 := AddCommand(h, cancelID, scheduledID).value;
    AddEffect(h, cancelID, scheduledID);
    var m1 := FireEffect(h1.machines, h1.nextSerial, m.id, EvCancel);
    SameMachine(h1.machines, m, m1);
    CancelMoves(m);
    ReplacedBySerial(h1.machines, m, Moved(m, EvCancel),
                     CancelWithCommand(h, m.id, cancelID, scheduledID).value.machines);
  }

  lemma CancelMoves(m: Machine)
    requires m.id.ctype in {TimerType, ActivityType} && !Cancelled(m)
    ensures Moved(m, EvCancel).Some? && Cancelled(Moved(m, EvCancel).value)
  {
  }

  lemma ReplacedBySerial(ms: seq<Machine>, m: Machine, r: Option<Machine>, ms': seq<Machine>)
    requires Distinct(ms) && m in ms && Replaced(ms, m, r, ms')
    ensures forall x | x in ms' && x.serial == m.serial :: r == Some(x)
  {
    forall x | x in ms && x.serial == m.serial ensures x == m {
      SameSerial(ms, x, m);
    }
  }

  lemma SameMachine(ms: seq<Machine>, a: Machine, b: Machine)
    requires Distinct(ms) && a in ms && b in ms && a.id == b.id
    ensures a == b
  {
  }

  lemma SameSerial(ms: seq<Machine>, a: Machine, b: Machine)
    requires Distinct(ms) && a in ms && b in ms && a.serial == b.serial
    ensures a == b
  {
  }

  /** `cancel` of a timer panics exactly when the timer is unknown, was cancelled before it was sent,
      or when an earlier cancel command with the same ID is still in the list. */
  lemma CancelTimerPanicsIff(h: Helper, t: string)
    requires Inv(h)
    ensures OnCall(h, CancelTimer(t)).Panic? <==>
              match Find(h.machines, TimerID(t))
              case None => true
              case Some(i) =>
                || h.machines[i].state == CanceledBeforeSent
                || (!Cancelled(h.machines[i]) && Find(h.machines, CancelTimerID(Text(t))).Some?)
  {
    var id, cancelID := TimerID(t), CancelTimerID(Text(t));
    if Find(h.machines, id).Some? {
      var i := Find(h.machines, id).value;
      assert h.machines[i] in h.machines && Sound(h.machines[i], h.nextSerial);
      if Cancelled(h.machines[i]) {
        TimerCancelLegal(h.machines, i);
      } else if Find(h.machines, cancelID).None? {
        FindAppend(h.machines, NewMachine(h, cancelID, 0), id);
        TimerCancelLegal(h.machines + [NewMachine(h, cancelID, 0)], i);
      }
    }
  }

  /** The timer itself rejects a cancellation only when it was cancelled before it was sent. */
  lemma TimerCancelLegal(ms: seq<Machine>, i: nat)
    requires i < |ms| && ms[i].id.ctype == TimerType && Possible(TimerType, ms[i].state)
    ensures FireAt(ms, i, EvCancel).Ok? <==> ms[i].state != CanceledBeforeSent
  {}

  lemma {:induction false} FindAppend(ms: seq<Machine>, x: Machine, id: CommandID)
    requires Find(ms, id).Some?
    ensures Find(ms + [x], id) == Find(ms, id)
  {
    assert (ms + [x])[0] == ms[0];
    if ms[0].id != id {
      assert (ms + [x])[1..] == ms[1..] + [x];
      FindAppend(ms[1..], x, id);
    }
  }

  lemma ActivityClosedFires(h: Helper, e: int)
    requires e in h.activityIDs
    ensures OnEvent(h, ActivityClosed(e)).Panic? <==>
              Fire(RemoveID(h.machines, CancelActivityID(e)), ActivityID(h.activityIDs[e]), EvCompletion).Panic?
  {}

  /** In a reachable state an activity event for a known scheduled event is illegal only because of
      the activity's state, never because the machine is missing. */
  lemma ActivityClosedPanicsIff(h: Helper, e: int)
    requires Inv(h) && e in h.activityIDs
    ensures var found := Find(h.machines, ActivityID(h.activityIDs[e]));
            found.Some? &&
            (OnEvent(h, ActivityClosed(e)).Panic? <==>
               h.machines[found.value].state !in {Initiated, CanceledAfterInitiated, CancellationCommandSent})
  {
    var id := ActivityID(h.activityIDs[e]);
    assert HasActivity(h.machines, h.activityIDs[e]);
    var m := h.machines[Find(h.machines, id).value];
    var ms := RemoveID(h.machines, CancelActivityID(e));
    RemoveIDEffect(h.machines, h.nextSerial, CancelActivityID(e));
    assert m in h.machines && m in ms;
    SameMachine(ms, m, ms[Find(ms, id).value]);
    ActivityCompletion(m.state);
    ActivityClosedFires(h, e);
  }

  lemma ActivityCompletion(s: CommandState)
    ensures MoveOf(ActivityType, s, EvCompletion).Illegal? <==>
              s !in {Initiated, CanceledAfterInitiated, CancellationCommandSent}
  {
  }

  /** A timer that fired, or an activity that closed, takes the cancel command waiting for it along:
      the response will not cancel what is over. */
  lemma ResolvedLeavesNoCancel(h: Helper, event: Event)
    requires Inv(h) && OnEvent(h, event).Ok? && (event.TimerFired? || event.ActivityClosed?)
    ensures var cancelID :=
              if event.TimerFired? then CancelTimerID(Text(event.timerID)) else CancelActivityID(event.eventID);
            Find(OnEvent(h, event).value.machines, cancelID).None?
  {
    var cancelID := if event.TimerFired? then CancelTimerID(Text(event.timerID)) else CancelActivityID(event.eventID);
    var r := Route(h, event).value;
    RouteDelivers(h, event);
    RemoveIDEffect(h.machines, h.nextSerial, cancelID);
    var ms := RemoveID(h.machines, cancelID);
    assert OnEvent(h, event).value.machines == Fire(ms, r.0, r.1).value;
    StaysOut(ms, h.nextSerial, r.0, r.1, cancelID);
  }

  lemma StaysOut(ms: seq<Machine>, n: nat, id: CommandID, e: MachineEvent, other: CommandID)
    requires Core(ms, n) && Delivered(id.ctype, e) && Fire(ms, id, e).Ok? && forall x | x in ms :: x.id != other
    ensures Find(Fire(ms, id, e).value, other).None?
  {
    var m := FireEffect(ms, n, id, e);
    var r := Fire(ms, id, e).value;
    forall i | 0 <= i < |r| ensures r[i].id != other {
      assert r[i] in r;
    }
  }
}
