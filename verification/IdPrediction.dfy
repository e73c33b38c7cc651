/** The event ID that the SDK predicts for a command is the one the server assigns to it. */
module IdPrediction {
  import opened Basics
  import opened CommandMachine
  import opened EventCounter
  import opened HelperState
  import opened Invariants
  import CommandRuns

  /** The server writes WorkflowTaskCompleted after the WorkflowTaskStarted event, and then one event
      for each command of the response, in order. */
  function ServerEventID(started: int, index: nat): int {
    started + 2 + index
  }

  /** All version markers still in the table lie behind the counter, as in any live task. */
  predicate NoPending(c: Counter) {
    forall k | k in c.markers :: k < c.next
  }

  /** The helper when a workflow task starts. */
  function AtStart(h: Helper, started: int): Helper {
    OnEvent(h, WorkflowTaskStarted(started)).value
  }

  /** Workflow code runs: no event is applied and nothing is sent. */
  function RunCalls(h: Helper, calls: seq<Call>): Result<Helper>
    decreases |calls|
  {
    if calls == [] then Ok(h)
    else
      var h' :- OnCall(h, calls[0]);
      RunCalls(h', calls[1..])
  }

  /** By how much a call makes the counter run ahead of the commands: cancelling a child or a Nexus
      operation that was not sent takes its command back, but not its number. */
  function Loss(h: Helper, call: Call): nat {
    match call
    case CancelChild(w) =>
      (match Find(h.machines, ChildID(w))
       case Some(i) => if h.machines[i].state == Created then 1 else 0
       case None => 0)
    case CancelNexus(n) =>
      (match Find(h.machines, NexusID(n))
       case Some(i) => if h.machines[i].state == Created && h.machines[i].cancelation.None? then 2 else 0
       case None => 0)
    case _ => 0
  }

  function TotalLoss(h: Helper, calls: seq<Call>): nat
    requires RunCalls(h, calls).Ok?
    decreases |calls|
  {
    if calls == [] then 0 else Loss(h, calls[0]) + TotalLoss(OnCall(h, calls[0]).value, calls[1..])
  }

  /** The counter after some calls of a workflow task. */
  lemma CounterAt(h0: Helper, started: int, before: seq<Call>)
    requires Inv(h0) && (forall k | k in h0.counter.markers :: k < started + 2)
    requires RunCalls(AtStart(h0, started), before).Ok?
    ensures var a := RunCalls(AtStart(h0, started), before).value;
            && Inv(a) && NoPending(a.counter)
            && a.counter.next
               == ServerEventID(started, |Commands(a.machines)|) + TotalLoss(AtStart(h0, started), before)
  {
    EventKeepsInv(h0, WorkflowTaskStarted(started));
    Drift(AtStart(h0, started), before);
  }

  /** At the end of the workflow task the counter has run ahead of the response by exactly the total loss. */
  lemma {:induction false} Drift(h: Helper, calls: seq<Call>)
    requires Inv(h) && NoPending(h.counter) && RunCalls(h, calls).Ok?
    ensures var f := RunCalls(h, calls).value;
            && Inv(f) && NoPending(f.counter)
            && f.counter.next - |Commands(f.machines)|
               == h.counter.next - |Commands(h.machines)| + TotalLoss(h, calls)
            && (TotalLoss(h, calls) == 0 ==> Commands(h.machines) <= Commands(f.machines))
    decreases |calls|
  {
    if calls != [] {
      CallEffect(h, calls[0]);
      CallKeepsInv(h, calls[0]);
      Drift(OnCall(h, calls[0]).value, calls[1..]);
    }
  }

  /** Start a child and cancel it at once: no command is left, so the next one will be event 12, but
      is predicted to be event 13. */
  lemma PredictionFailsAfterEarlyChildCancel()
    ensures var h := EMPTY_HELPER.(counter := Counter(12, map[]));
            var r := RunCalls(h, [StartChild("c"), CancelChild("c")]);
            r.Ok? && r.value.counter.next == 13 && Commands(r.value.machines) == []
  {
    var h := EMPTY_HELPER.(counter := Counter(12, map[]));
    var c := NewMachine(h, ChildID("c"), 0);
    var h1 := h.(machines := [c], nextSerial := 1, counter := Counter(13, map[]));
    assert h.machines + [c] == [c];
    assert h.counter.Skip() == h.counter;
    assert OnCall(h, StartChild("c")) == Ok(h1);
    var h2 := h1.(machines := [c.(state := CanceledBeforeSent)]);
    assert Find(h1.machines, ChildID("c")) == Some(0);
    assert h1.machines[0 := c.(state := CanceledBeforeSent)] == h2.machines;
    assert OnCall(h1, CancelChild("c")) == Ok(h2);
    var calls := [StartChild("c"), CancelChild("c")];
    assert calls[1..] == [CancelChild("c")] && calls[1..][1..] == [];
    assert RunCalls(h1, calls[1..]) == Ok(h2);
  }

  /** Schedule a Nexus operation and cancel it at once: no command is left, and the counter has moved
      from 12 to 14. */
  lemma PredictionFailsAfterEarlyNexusCancel()
    ensures var h := EMPTY_HELPER.(counter := Counter(12, map[]));
            var r := RunCalls(h, [ScheduleNexus(5), CancelNexus(5)]);
            r.Ok? && r.value.counter.next == 14 && Commands(r.value.machines) == []
  {
    var h := EMPTY_HELPER.(counter := Counter(12, map[]));
    var m := Machine(0, NexusID(5), Created, 0, None);
    var h1 := ScheduledAlone(h, m);
    var h2 := CancelledAlone(h1, m);
    var calls := [ScheduleNexus(5), CancelNexus(5)];
    assert calls[1..] == [CancelNexus(5)] && calls[1..][1..] == [];
    assert Find(h1.machines, NexusID(5)) == Some(0) && Find(h1.machines, CancelNexusID(0)) == None;
    assert OnCall(h1, CancelNexus(5)) == Ok(h2);
    assert RunCalls(h1, calls[1..]) == Ok(h2);
  }

  lemma ScheduledAlone(h: Helper, m: Machine) returns (h1: Helper)
    requires h == EMPTY_HELPER.(counter := Counter(12, map[])) && m == Machine(0, NexusID(5), Created, 0, None)
    ensures OnCall(h, ScheduleNexus(5)) == Ok(h1)
    ensures h1.machines == [m] && h1.nextSerial == 1 && h1.counter == Counter(13, map[])
  {
    assert h.machines + [m] == [m] && h.counter.Skip() == h.counter && Counter(13, map[]).Skip() == Counter(13, map[]);
    h1 := OnCall(h, ScheduleNexus(5)).value;
  }

  lemma CancelledAlone(h1: Helper, m: Machine) returns (h2: Helper)
    requires m == Machine(0, NexusID(5), Created, 0, None) && h1.machines == [m] && h1.nextSerial == 1
    requires h1.counter == Counter(13, map[])
    ensures CancelNexusAt(h1, 0) == Ok(h2) && h2.counter.next == 14 && Commands(h2.machines) == []
  {
    var c := NewMachine(h1, CancelNexusID(0), 0);
    var m' := m.(cancelation := Some(1));
    assert ([m] + [c])[0 := m'] == [m', c] && [m', c][1..] == [c];
    assert Find([m], CancelNexusID(0)) == None by { assert [m][1..] == []; }
    assert Find([c], CancelNexusID(0)) == Some(0);
    assert Find([m', c], CancelNexusID(0)) == Some(1);
    assert RemoveAt([m', c], 1) == [m'];
    assert h1.counter.Skip() == h1.counter;
    h2 := h1.(machines := [m'], nextSerial := 2, counter := Counter(14, map[]));
    assert [m'][1..] == [];
  }

  // ---------------------------------------------------------------- one call

  lemma {:induction false} CommandsAppend(a: seq<Machine>, b: seq<Machine>)
    ensures Commands(a + b) == Commands(a) + Commands(b)
  {
    if a == [] {
      assert a + b == b;
    } else {
      assert (a + b)[0] == a[0] && (a + b)[1..] == a[1..] + b;
      CommandsAppend(a[1..], b);
    }
  }

  lemma CommandsSingle(m: Machine)
    ensures Commands([m]) == match CommandOf(m) case Some(c) => [c] case None => []
  {
    assert [m][1..] == [];
  }

  lemma CommandsSplit(ms: seq<Machine>, i: nat, x: Machine)
    requires i < |ms|
    ensures Commands(ms[i := x]) == Commands(ms[..i]) + Commands([x]) + Commands(ms[i + 1..])
  {
    assert ms[i := x] == ms[..i] + [x] + ms[i + 1..];
    CommandsAppend(ms[..i] + [x], ms[i + 1..]);
    CommandsAppend(ms[..i], [x]);
  }

  lemma CommandsUpdate(ms: seq<Machine>, i: nat, x: Machine)
    requires i < |ms|
    ensures CommandOf(x) == CommandOf(ms[i]) ==> Commands(ms[i := x]) == Commands(ms)
    ensures CommandOf(x).None? && CommandOf(ms[i]).Some? ==> |Commands(ms[i := x])| == |Commands(ms)| - 1
  {
    CommandsSplit(ms, i, x);
    CommandsSplit(ms, i, ms[i]);
    assert ms[i := ms[i]] == ms;
    CommandsSingle(x);
    CommandsSingle(ms[i]);
  }

  lemma CommandsRemove(ms: seq<Machine>, i: nat)
    requires i < |ms| && CommandOf(ms[i]).None?
    ensures Commands(RemoveAt(ms, i)) == Commands(ms)
  {
    CommandsSplit(ms, i, ms[i]);
    assert ms[i := ms[i]] == ms;
    CommandsSingle(ms[i]);
    assert Commands(ms) == Commands(ms[..i]) + Commands(ms[i + 1..]);
    CommandsAppend(ms[..i], ms[i + 1..]);
  }

  lemma AddEmits(h: Helper, id: CommandID, scheduledID: int)
    requires AddCommand(h, id, scheduledID).Ok? && NoPending(h.counter)
    ensures var h' := AddCommand(h, id, scheduledID).value;
            && Commands(h'.machines) == Commands(h.machines) + Commands([NewMachine(h, id, scheduledID)])
            && |Commands([NewMachine(h, id, scheduledID)])| == 1
            && h'.counter == h.counter.Bump()
  {
    var m := NewMachine(h, id, scheduledID);
    CommandsAppend(h.machines, [m]);
    CommandsSingle(m);
  }

  lemma CancelEmits(h: Helper, id: CommandID, cancelID: CommandID, scheduledID: int)
    requires CancelWithCommand(h, id, cancelID, scheduledID).Ok? && NoPending(h.counter)
    requires id.ctype in {TimerType, ActivityType}
    ensures var h' := CancelWithCommand(h, id, cancelID, scheduledID).value;
            && NoPending(h'.counter)
            && Commands(h.machines) <= Commands(h'.machines)
            && h'.counter.next - |Commands(h'.machines)| == h.counter.next - |Commands(h.machines)|
            && |Commands(h'.machines)| <= |Commands(h.machines)| + 1
  {
    var i := Find(h.machines, id).value;
    if h.machines[i].state in {Created, CommandSent, Initiated} {
      var h1 := AddCommand(h, cancelID, scheduledID).value;
      AddEmits(h, cancelID, scheduledID);
      CommandRuns.FindAppend(h.machines, NewMachine(h, cancelID, scheduledID), id);
      FireCancelEmits(h1.machines, i);
    } else {
      FireCancelEmits(h.machines, i);
    }
  }

  /** Cancelling a timer or an activity changes its state, but not the command it sends. */
  lemma CancelKeepsCommand(m: Machine)
    requires m.id.ctype in {TimerType, ActivityType}
    ensures match MoveOf(m.id.ctype, m.state, EvCancel)
            case To(s) => s != Completed && CommandOf(m.(state := s)) == CommandOf(m)
            case _ => true
  {}

  lemma FireCancelEmits(ms: seq<Machine>, i: nat)
    requires i < |ms| && ms[i].id.ctype in {TimerType, ActivityType} && FireAt(ms, i, EvCancel).Ok?
    ensures Commands(FireAt(ms, i, EvCancel).value) == Commands(ms)
  {
    CancelKeepsCommand(ms[i]);
    match MoveOf(ms[i].id.ctype, ms[i].state, EvCancel)
    case To(s) => CommandsUpdate(ms, i, ms[i].(state := s));
    case Stay =>
  }

  /** Taking a machine without a command to the back, with one. */
  lemma ToBackEmits(ms: seq<Machine>, i: nat, x: Machine)
    requires i < |ms| && CommandOf(ms[i]).None? && CommandOf(x).Some?
    ensures Commands(RemoveAt(ms, i) + [x]) == Commands(ms) + [CommandOf(x).value]
  {
    CommandsRemove(ms, i);
    CommandsAppend(RemoveAt(ms, i), [x]);
    CommandsSingle(x);
  }

  lemma FireChildCancelEmits(ms: seq<Machine>, i: nat)
    requires i < |ms| && ms[i].id.ctype == ChildType && FireAt(ms, i, EvCancel).Ok? && ms[i].state != Started
    ensures var cs := Commands(FireAt(ms, i, EvCancel).value);
            if ms[i].state == Created then |cs| == |Commands(ms)| - 1 else cs == Commands(ms)
  {
    match MoveOf(ChildType, ms[i].state, EvCancel)
    case To(s) => CommandsUpdate(ms, i, ms[i].(state := s));
    case Stay =>
  }

  lemma CancelChildEmits(h: Helper, id: CommandID)
    requires CancelChildNamed(h, id).Ok? && id.ctype == ChildType
    ensures var h' := CancelChildNamed(h, id).value;
            var loss := if h.machines[Find(h.machines, id).value].state == Created then 1 else 0;
            && (NoPending(h.counter) ==> NoPending(h'.counter))
            && (loss == 0 ==> Commands(h.machines) <= Commands(h'.machines))
            && h'.counter.next - |Commands(h'.machines)| == h.counter.next - |Commands(h.machines)| + loss
            && |Commands(h'.machines)| <= |Commands(h.machines)| + 1
  {
    var i := Find(h.machines, id).value;
    if h.machines[i].state == Started {
      ToBackEmits(h.machines, i, h.machines[i].(state := CanceledAfterStarted));
    } else {
      FireChildCancelEmits(h.machines, i);
    }
  }

  lemma {:induction false} FindLast(ms: seq<Machine>, x: Machine)
    requires Find(ms, x.id).None?
    ensures Find(ms + [x], x.id) == Some(|ms|)
  {
    if ms != [] {
      assert (ms + [x])[0] == ms[0] && (ms + [x])[1..] == ms[1..] + [x];
      FindLast(ms[1..], x);
    }
  }

  lemma {:induction false} SameIDs(ms: seq<Machine>, i: nat, m: Machine, id: CommandID)
    requires i < |ms| && m.id == ms[i].id && Find(ms, id).None?
    ensures Find(ms[i := m], id).None?
  {
    if i != 0 {
      assert ms[i := m][1..] == ms[1..][i - 1 := m];
      SameIDs(ms[1..], i - 1, m, id);
    } else {
      assert ms[i := m][1..] == ms[1..];
    }
  }

  /** The list after a cancel request: the operation is marked, and the request is at the end unless it
      completed at once. */
  lemma CancelledNexusList(h: Helper, j: nat)
    requires j < |h.machines| && CancelNexusAt(h, j).Ok?
    requires h.machines[j].cancelation.None? && h.machines[j].state != Completed
    ensures var m := h.machines[j];
            var marked := h.machines[j := m.(cancelation := Some(h.nextSerial))];
            CancelNexusAt(h, j).value.machines
            == if m.state == Created then marked
               else marked + [NewMachine(h, CancelNexusID(m.scheduledID), m.scheduledID)]
  {
    var ms := h.machines;
    var m := ms[j];
    var c := NewMachine(h, CancelNexusID(m.scheduledID), m.scheduledID);
    var m' := m.(cancelation := Some(h.nextSerial));
    var ms2 := (ms + [c])[j := m'];
    assert ms2 == ms[j := m'] + [c];
    if m.state == Created {
      SameIDs(ms, j, m', c.id);
      FindLast(ms[j := m'], c);
      assert RemoveAt(ms2, |ms|) == ms[j := m'];
    }
  }

  lemma CancelNexusEmits(h: Helper, i: nat)
    requires i < |h.machines| && h.machines[i].id.ctype == NexusType && CancelNexusAt(h, i).Ok?
    requires NoPending(h.counter) && h.machines[i].state != Completed
    ensures var h' := CancelNexusAt(h, i).value;
            var loss := if h.machines[i].state == Created && h.machines[i].cancelation.None? then 2 else 0;
            && NoPending(h'.counter)
            && (loss == 0 ==> Commands(h.machines) <= Commands(h'.machines))
            && h'.counter.next - |Commands(h'.machines)| == h.counter.next - |Commands(h.machines)| + loss
            && |Commands(h'.machines)| <= |Commands(h.machines)| + 1
  {
    var m := h.machines[i];
    if m.cancelation.None? {
      var m' := m.(cancelation := Some(h.nextSerial));
      CancelledNexusList(h, i);
      MarkedCommand(m, m');
      CommandsUpdate(h.machines, i, m');
      if m.state != Created {
        var c := NewMachine(h, CancelNexusID(m.scheduledID), m.scheduledID);
        CommandsAppend(h.machines[i := m'], [c]);
        CommandsSingle(c);
      }
    }
  }

  /** A marked operation no longer sends its command if it has not done so. */
  lemma MarkedCommand(m: Machine, m': Machine)
    requires m.id.ctype == NexusType && m.cancelation.None? && m'.cancelation.Some?
    requires m' == m.(cancelation := m'.cancelation)
    ensures if m.state == Created then CommandOf(m).Some? && CommandOf(m').None? else CommandOf(m') == CommandOf(m)
  {}

  lemma CallEffect(h: Helper, call: Call)
    requires Inv(h) && NoPending(h.counter) && OnCall(h, call).Ok?
    ensures var h' := OnCall(h, call).value;
            && NoPending(h'.counter)
            && (Loss(h, call) == 0 ==> Commands(h.machines) <= Commands(h'.machines))
            && h'.counter.next - |Commands(h'.machines)|
               == h.counter.next - |Commands(h.machines)| + Loss(h, call)
            && |Commands(h'.machines)| <= |Commands(h.machines)| + 1
  {
    match call
    case GetNextID =>
    case ScheduleActivity(s, a) => AddEmits(h.(activityIDs := h.activityIDs[s := a]), ActivityID(a), s);
    case CancelActivity(a) =>
      var e := h.machines[Find(h.machines, ActivityID(a)).value].scheduledID;
      CancelEmits(h, ActivityID(a), CancelActivityID(e), e);
    case CancelTimer(t) => CancelEmits(h, TimerID(t), CancelTimerID(Text(t)), 0);
    case StartChild(w) => if Find(h.machines, ChildID(w)).None? { AddEmits(h, ChildID(w), 0); }
    case CancelChild(w) => CancelChildEmits(h, ChildID(w));
    case ScheduleNexus(n) =>
      AddEmits(h.(unscheduledNexus := h.unscheduledNexus + [h.nextSerial]), NexusID(n), 0);
    case CancelNexus(n) =>
      var i := Find(h.machines, NexusID(n)).value;
      assert Sound(h.machines[i], h.nextSerial);
      CancelNexusEmits(h, i);
    case _ => AddEmits(h, PlainID(call).value, 0);
  }
}
