/** Which Nexus operation a NexusOperationScheduled event is bound to. */
module NexusMatching {
  import opened Basics
  import opened CommandMachine
  import opened HelperState
  import opened Invariants
  import CommandRuns

  /** A helper together with the history of its Nexus operations, by serial: scheduled by workflow
      code, sent to the server, bound to a Scheduled event, and lost, that is, cancelled before
      being sent. */
  datatype Traced = Traced(h: Helper, scheduled: seq<nat>, sent: seq<nat>, bound: seq<nat>, lost: set<nat>)

  const NEW_TRACE := Traced(EMPTY_HELPER, [], [], [], {})

  predicate Pending(m: Machine) {
    m.id.ctype == NexusType && Emittable(m)
  }

  /** The operations whose command goes into the next response, in list order. */
  function PendingOps(ms: seq<Machine>): seq<nat> {
    if ms == [] then []
    else if Pending(ms[0]) then [ms[0].serial] + PendingOps(ms[1..])
    else PendingOps(ms[1..])
  }

  /** The operation that a call takes back. */
  function LostBy(h: Helper, op: Op): set<nat> {
    match op
    case Invoke(CancelNexus(n)) =>
      (match Find(h.machines, NexusID(n))
       case Some(i) => if Pending(h.machines[i]) then {h.machines[i].serial} else {}
       case None => {})
    case _ => {}
  }

  function TraceStep(t: Traced, op: Op): Result<Traced> {
    var h' :- Step(t.h, op);
    Ok(Traced(
         h',
         if op.Invoke? && op.call.ScheduleNexus? then t.scheduled + [t.h.nextSerial] else t.scheduled,
         if op == GetCommands(true) then t.sent + PendingOps(t.h.machines) else t.sent,
         if op.Apply? && op.event.NexusScheduled? && t.h.unscheduledNexus != []
         then t.bound + [t.h.unscheduledNexus[0]] else t.bound,
         t.lost + LostBy(t.h, op)))
  }

  function TraceRun(t: Traced, ops: seq<Op>): Result<Traced>
    decreases |ops|
  {
    if ops == [] then Ok(t)
    else
      var t' :- TraceStep(t, ops[0]);
      TraceRun(t', ops[1..])
  }

  /** The server answers each sent operation with a Scheduled event, in the order sent.  Every event
      goes to the operation it is for exactly when none of the operations bound so far was cancelled
      before it was sent. */
  lemma MatchingExact(ops: seq<Op>)
    requires TraceRun(NEW_TRACE, ops).Ok?
    ensures var t := TraceRun(NEW_TRACE, ops).value;
            && |t.bound| <= |t.scheduled|
            && (|t.bound| <= |t.sent| ==>
              (t.bound == t.sent[..|t.bound|] <==> forall k | 0 <= k < |t.bound| :: t.scheduled[k] !in t.lost))
  {
    var t := TraceRun(NEW_TRACE, ops).value;
    NewTraceInv();
    RunKeepsTrace(NEW_TRACE, ops);
    var n := |t.bound|;
    assert t.bound == t.scheduled[..n];
    if n <= |t.sent| {
      PrefixExact(t.scheduled, t.lost, t.sent, PendingOps(t.h.machines), n);
    }
  }

  /** The first `n` scheduled operations are the first `n` sent ones exactly when none was lost. */
  lemma PrefixExact(scheduled: seq<nat>, lost: set<nat>, sent: seq<nat>, pending: seq<nat>, n: nat)
    requires sent + pending == NotLost(scheduled, lost) && n <= |sent| && n <= |scheduled|
    ensures scheduled[..n] == sent[..n] <==> forall k | 0 <= k < n :: scheduled[k] !in lost
  {
    var kept := NotLost(scheduled, lost);
    assert sent[..n] == kept[..n];
    if forall k | 0 <= k < n :: scheduled[k] !in lost {
      KeptPrefix(scheduled, lost, n);
    }
    if scheduled[..n] == sent[..n] {
      NotLostMembers(scheduled, lost);
      forall k | 0 <= k < n ensures scheduled[k] !in lost {
        assert scheduled[k] == scheduled[..n][k] == sent[..n][k] == kept[k];
        assert kept[k] in kept;
      }
    }
  }

  /** The k-th Scheduled event is always bound to the k-th scheduled operation, sent or not. */
  lemma BoundInScheduleOrder(ops: seq<Op>)
    requires TraceRun(NEW_TRACE, ops).Ok?
    ensures var t := TraceRun(NEW_TRACE, ops).value;
            t.scheduled == t.bound + t.h.unscheduledNexus
  {
    NewTraceInv();
    RunKeepsTrace(NEW_TRACE, ops);
  }

  lemma NewTraceInv()
    ensures TraceInv(NEW_TRACE)
  {}

  /** Two operations are scheduled and the first is cancelled before anything is sent.  Only the
      second is sent, yet its Scheduled event is bound to the first. */
  lemma CancelledOperationStealsTheEvent()
    ensures var ops := [Invoke(ScheduleNexus(5)), Invoke(ScheduleNexus(6)), Invoke(CancelNexus(5)),
                        GetCommands(true), Apply(NexusScheduled(7))];
            var r := TraceRun(NEW_TRACE, ops);
            r.Ok? && r.value.scheduled == [0, 1] && r.value.sent == [1] && r.value.bound == [0]
  {
    var a, b := Machine(0, NexusID(5), Created, 0, None), Machine(1, NexusID(6), Created, 0, None);
    var h1, h2 := StealSchedule(a, b);
    var h3 := StealCancel(h2, a, b);
    var h4, h5 := StealBind(h3, a.(cancelation := Some(2)), b);
    assert [a.(cancelation := Some(2)), b][1..] == [b] && [b][1..] == [];
    assert PendingOps([b]) == [1];
    StealTrace(h1, h2, h3, h4, h5);
  }

  lemma StealSchedule(a: Machine, b: Machine) returns (h1: Helper, h2: Helper)
    requires a == Machine(0, NexusID(5), Created, 0, None) && b == Machine(1, NexusID(6), Created, 0, None)
    ensures h1.nextSerial == 1 && h2.machines == [a, b] && h2.nextSerial == 2 && h2.unscheduledNexus == [0, 1]
    ensures Step(EMPTY_HELPER, Invoke(ScheduleNexus(5))) == Ok(h1) && Step(h1, Invoke(ScheduleNexus(6))) == Ok(h2)
  {
    var h := EMPTY_HELPER;
    h1 := h.(machines := [a], nextSerial := 1, counter := h.counter.Add(), unscheduledNexus := [0]);
    assert h.machines + [a] == [a] && h.unscheduledNexus + [0] == [0];
    assert Step(h, Invoke(ScheduleNexus(5))) == Ok(h1);
    h2 := h1.(machines := [a, b], nextSerial := 2, counter := h1.counter.Add(), unscheduledNexus := [0, 1]);
    assert Find([a], NexusID(6)) == None && [a] + [b] == [a, b] && [0] + [1] == [0 as nat, 1];
    assert Step(h1, Invoke(ScheduleNexus(6))) == Ok(h2);
  }

  lemma StealBind(h3: Helper, a: Machine, b: Machine) returns (h4: Helper, h5: Helper)
    requires h3.machines == [a, b] && h3.unscheduledNexus == [0, 1]
    requires a == Machine(0, NexusID(5), Created, 0, Some(2)) && b == Machine(1, NexusID(6), Created, 0, None)
    ensures Step(h3, GetCommands(true)) == Ok(h4) && h4.unscheduledNexus == [0, 1]
    ensures Step(h4, Apply(NexusScheduled(7))) == Ok(h5)
  {
    var sent := [a.(state := CommandSent), b.(state := CommandSent)];
    h4 := h3.(machines := sent);
    assert [a, b][1..] == [b] && [b][1..] == [];
    assert AfterGet([b], true) == [b.(state := CommandSent)];
    assert AfterGet(h3.machines, true) == [a.(state := CommandSent)] + AfterGet([b], true) == sent;
    assert FindSerial(sent, 0) == Some(0);
    h5 := Step(h4, Apply(NexusScheduled(7))).value;
  }

  lemma StealFinds(a: Machine, b: Machine, c: Machine)
    requires a.id == NexusID(5) && b.id == NexusID(6) && c.id == CancelNexusID(0)
    ensures Find([a, b], NexusID(5)) == Some(0) && Find([a, b], CancelNexusID(0)) == None
    ensures Find([a, b, c], CancelNexusID(0)) == Some(2)
  {
    assert [a, b][1..] == [b] && [b][1..] == [];
    assert [a, b, c][1..] == [b, c] && [b, c][1..] == [c];
    assert Find([c], CancelNexusID(0)) == Some(0);
    assert Find([b, c], CancelNexusID(0)) == Some(1);
  }

  lemma StealCancel(h2: Helper, a: Machine, b: Machine) returns (h3: Helper)
    requires a == Machine(0, NexusID(5), Created, 0, None) && b == Machine(1, NexusID(6), Created, 0, None)
    requires h2.machines == [a, b] && h2.nextSerial == 2
    ensures h3 == h2.(machines := [a.(cancelation := Some(2)), b], nextSerial := 3, counter := h2.counter.Add())
    ensures Step(h2, Invoke(CancelNexus(5))) == Ok(h3)
  {
    var a' := a.(cancelation := Some(2));
    var c := Machine(2, CancelNexusID(0), Created, 0, None);
    h3 := h2.(machines := [a', b], nextSerial := 3, counter := h2.counter.Add());
    StealFinds(a, b, c);
    StealFinds(a', b, c);
    var ms := [a', b, c];
    assert ([a, b] + [c])[0 := a'] == ms;
    assert RemoveAt(ms, 2) == [a', b];
    assert Fire(ms, CancelNexusID(0), EvCompletion) == Ok([a', b]);
  }

  lemma StealTrace(h1: Helper, h2: Helper, h3: Helper, h4: Helper, h5: Helper)
    requires EMPTY_HELPER.nextSerial == 0 && h1.nextSerial == 1 && h4.unscheduledNexus == [0, 1]
    requires Step(EMPTY_HELPER, Invoke(ScheduleNexus(5))) == Ok(h1) && Step(h1, Invoke(ScheduleNexus(6))) == Ok(h2)
    requires Step(h2, Invoke(CancelNexus(5))) == Ok(h3) && Step(h3, GetCommands(true)) == Ok(h4)
    requires Step(h4, Apply(NexusScheduled(7))) == Ok(h5) && PendingOps(h3.machines) == [1]
    ensures var ops := [Invoke(ScheduleNexus(5)), Invoke(ScheduleNexus(6)), Invoke(CancelNexus(5)),
                        GetCommands(true), Apply(NexusScheduled(7))];
            var r := TraceRun(NEW_TRACE, ops);
            r.Ok? && r.value.scheduled == [0, 1] && r.value.sent == [1] && r.value.bound == [0]
  {
    var ops := [Invoke(ScheduleNexus(5)), Invoke(ScheduleNexus(6)), Invoke(CancelNexus(5)),
                GetCommands(true), Apply(NexusScheduled(7))];
    var t1 := TraceStep(NEW_TRACE, ops[0]).value;
    var t2 := TraceStep(t1, ops[1]).value;
    var t3 := TraceStep(t2, ops[2]).value;
    var t4 := TraceStep(t3, ops[3]).value;
    var t5 := TraceStep(t4, ops[4]).value;
    assert ops[1..] == [ops[1], ops[2], ops[3], ops[4]] && ops[1..][1..] == [ops[2], ops[3], ops[4]];
    assert [ops[2], ops[3], ops[4]][1..] == [ops[3], ops[4]] && [ops[3], ops[4]][1..] == [ops[4]];
    assert [ops[4]][1..] == [];
    assert TraceRun(t4, [ops[4]]) == Ok(t5);
    assert TraceRun(t3, [ops[3], ops[4]]) == Ok(t5);
    assert TraceRun(t2, [ops[2], ops[3], ops[4]]) == Ok(t5);
    assert TraceRun(t1, ops[1..]) == Ok(t5);
  }

  // ---------------------------------------------------------------- invariant

  function NotLost(s: seq<nat>, lost: set<nat>): seq<nat> {
    if s == [] then []
    else if s[0] in lost then NotLost(s[1..], lost)
    else [s[0]] + NotLost(s[1..], lost)
  }

  ghost predicate Increasing(s: seq<nat>) {
    forall i, j | 0 <= i < j < |s| :: s[i] < s[j]
  }

  ghost predicate TraceInv(t: Traced) {
    && Inv(t.h)
    && Increasing(t.scheduled) && (forall s | s in t.scheduled :: s < t.h.nextSerial)
    && t.scheduled == t.bound + t.h.unscheduledNexus
    && t.sent + PendingOps(t.h.machines) == NotLost(t.scheduled, t.lost)
    && (forall s | s in t.lost :: s < t.h.nextSerial)
  }

  lemma {:induction false} NotLostMembers(s: seq<nat>, lost: set<nat>)
    ensures forall x :: x in NotLost(s, lost) <==> x in s && x !in lost
  {
    if s != [] {
      NotLostMembers(s[1..], lost);
      assert s == [s[0]] + s[1..];
    }
  }

  lemma {:induction false} NotLostAppend(a: seq<nat>, b: seq<nat>, lost: set<nat>)
    ensures NotLost(a + b, lost) == NotLost(a, lost) + NotLost(b, lost)
  {
    if a == [] {
      assert a + b == b;
    } else {
      assert (a + b)[0] == a[0] && (a + b)[1..] == a[1..] + b;
      NotLostAppend(a[1..], b, lost);
    }
  }

  lemma {:induction false} NotLostTwice(s: seq<nat>, lost: set<nat>, more: set<nat>)
    ensures NotLost(NotLost(s, lost), more) == NotLost(s, lost + more)
  {
    if s != [] {
      NotLostTwice(s[1..], lost, more);
    }
  }

  lemma {:induction false} NothingLost(s: seq<nat>, lost: set<nat>)
    requires forall x | x in s :: x !in lost
    ensures NotLost(s, lost) == s
  {
    if s != [] {
      NothingLost(s[1..], lost);
    }
  }

  lemma IncreasingCons(x: nat, s: seq<nat>)
    requires Increasing(s) && forall y | y in s :: x < y
    ensures Increasing([x] + s)
  {
    var r := [x] + s;
    forall i, j | 0 <= i < j < |r| ensures r[i] < r[j] {
      assert r[j] == s[j - 1] && s[j - 1] in s;
      if i != 0 { assert r[i] == s[i - 1]; }
    }
  }

  lemma IncreasingSnoc(s: seq<nat>, x: nat)
    requires Increasing(s) && forall y | y in s :: y < x
    ensures Increasing(s + [x])
  {
    var r := s + [x];
    forall i, j | 0 <= i < j < |r| ensures r[i] < r[j] {
      assert r[i] == s[i] && s[i] in s;
      if j != |s| { assert r[j] == s[j]; }
    }
  }

  lemma {:induction false} NotLostIncreasing(s: seq<nat>, lost: set<nat>)
    requires Increasing(s)
    ensures Increasing(NotLost(s, lost))
  {
    if s != [] {
      NotLostIncreasing(s[1..], lost);
      NotLostMembers(s[1..], lost);
      forall x | x in s[1..] ensures s[0] < x {
        var i :| 0 <= i < |s[1..]| && s[1..][i] == x;
        assert s[i + 1] == x;
      }
      IncreasingCons(s[0], NotLost(s[1..], lost));
    }
  }

  lemma KeptPrefix(s: seq<nat>, lost: set<nat>, n: nat)
    requires n <= |s| && forall k | 0 <= k < n :: s[k] !in lost
    ensures n <= |NotLost(s, lost)| && NotLost(s, lost)[..n] == s[..n]
  {
    assert s == s[..n] + s[n..];
    NotLostAppend(s[..n], s[n..], lost);
    NothingLost(s[..n], lost);
  }

  // ---------------------------------------------------------------- the list of pending operations

  lemma {:induction false} PendingAppend(a: seq<Machine>, b: seq<Machine>)
    ensures PendingOps(a + b) == PendingOps(a) + PendingOps(b)
  {
    if a == [] {
      assert a + b == b;
    } else {
      assert (a + b)[0] == a[0] && (a + b)[1..] == a[1..] + b;
      PendingAppend(a[1..], b);
    }
  }

  lemma PendingSplit(ms: seq<Machine>, i: nat, x: Machine)
    requires i < |ms|
    ensures PendingOps(ms[i := x])
         == PendingOps(ms[..i]) + (if Pending(x) then [x.serial] else []) + PendingOps(ms[i + 1..])
  {
    assert ms[i := x] == ms[..i] + [x] + ms[i + 1..];
    assert [x][1..] == [];
    PendingAppend(ms[..i] + [x], ms[i + 1..]);
    PendingAppend(ms[..i], [x]);
  }

  lemma PendingUpdate(ms: seq<Machine>, i: nat, x: Machine)
    requires i < |ms| && Pending(x) == Pending(ms[i]) && x.serial == ms[i].serial
    ensures PendingOps(ms[i := x]) == PendingOps(ms)
  {
    PendingSplit(ms, i, x);
    PendingSplit(ms, i, ms[i]);
    assert ms[i := ms[i]] == ms;
  }

  lemma PendingRemove(ms: seq<Machine>, i: nat)
    requires i < |ms| && !Pending(ms[i])
    ensures PendingOps(RemoveAt(ms, i)) == PendingOps(ms)
  {
    PendingSplit(ms, i, ms[i]);
    assert ms[i := ms[i]] == ms;
    PendingAppend(ms[..i], ms[i + 1..]);
  }

  lemma {:induction false} PendingSerials(ms: seq<Machine>)
    ensures forall s | s in PendingOps(ms) :: exists m | m in ms :: m.serial == s
  {
    if ms != [] {
      PendingSerials(ms[1..]);
      assert ms == [ms[0]] + ms[1..];
    }
  }

  /** Cancelling a pending operation takes it out of the pending ones. */
  lemma PendingCancelled(ms: seq<Machine>, i: nat, x: Machine)
    requires Distinct(ms) && i < |ms| && Pending(ms[i]) && !Pending(x)
    ensures PendingOps(ms[i := x]) == NotLost(PendingOps(ms), {ms[i].serial})
    ensures ms[i].serial in PendingOps(ms)
  {
    var s := ms[i].serial;
    PendingSplit(ms, i, x);
    PendingSplit(ms, i, ms[i]);
    assert ms[i := ms[i]] == ms;
    var a, b := PendingOps(ms[..i]), PendingOps(ms[i + 1..]);
    PendingSerials(ms[..i]);
    PendingSerials(ms[i + 1..]);
    NothingLost(a, {s});
    NothingLost(b, {s});
    NotLostAppend(a + [s], b, {s});
    NotLostAppend(a, [s], {s});
    assert NotLost([s], {s}) == [] by { assert [s][1..] == []; }
  }

  lemma FirePending(ms: seq<Machine>, n: nat, i: nat, e: MachineEvent)
    requires Core(ms, n) && i < |ms| && Delivered(ms[i].id.ctype, e) && e != EvSent && FireAt(ms, i, e).Ok?
    ensures PendingOps(FireAt(ms, i, e).value) == PendingOps(ms)
  {
    match MoveOf(ms[i].id.ctype, ms[i].state, e)
    case To(s) =>
      if s == Completed { PendingRemove(ms, i); } else { PendingUpdate(ms, i, ms[i].(state := s)); }
    case Stay =>
  }

  lemma AddPending(h: Helper, id: CommandID, scheduledID: int)
    requires AddCommand(h, id, scheduledID).Ok?
    ensures PendingOps(AddCommand(h, id, scheduledID).value.machines)
         == PendingOps(h.machines) + (if id.ctype == NexusType then [h.nextSerial] else [])
  {
    var m := NewMachine(h, id, scheduledID);
    PendingAppend(h.machines, [m]);
    assert [m][1..] == [];
  }

  lemma CancelPending(h: Helper, id: CommandID, cancelID: CommandID, scheduledID: int)
    requires Inv(h) && id.ctype in {ActivityType, TimerType} && cancelID.ctype in {CancelActivityType, CancelTimerType}
    requires CancelWithCommand(h, id, cancelID, scheduledID).Ok?
    ensures PendingOps(CancelWithCommand(h, id, cancelID, scheduledID).value.machines) == PendingOps(h.machines)
  {
    var i := Find(h.machines, id).value;
    if h.machines[i].state in {Created, CommandSent, Initiated} {
      var h1 := AddCommand(h, cancelID, scheduledID).value;
      AddPending(h, cancelID, scheduledID);
      AddEffect(h, cancelID, scheduledID);
      FirePending(h1.machines, h1.nextSerial, Find(h1.machines, id).value, EvCancel);
    } else {
      FirePending(h.machines, h.nextSerial, i, EvCancel);
    }
  }

  lemma CancelChildPending(h: Helper, id: CommandID)
    requires Inv(h) && id.ctype == ChildType && CancelChildNamed(h, id).Ok?
    ensures PendingOps(CancelChildNamed(h, id).value.machines) == PendingOps(h.machines)
  {
    var i := Find(h.machines, id).value;
    if h.machines[i].state == Started {
      var x := h.machines[i].(state := CanceledAfterStarted);
      PendingRemove(h.machines, i);
      PendingAppend(RemoveAt(h.machines, i), [x]);
      assert [x][1..] == [];
    } else {
      FirePending(h.machines, h.nextSerial, i, EvCancel);
    }
  }

  lemma CancelNexusPending(h: Helper, i: nat)
    requires Inv(h) && i < |h.machines| && h.machines[i].id.ctype == NexusType && CancelNexusAt(h, i).Ok?
    ensures var m := h.machines[i];
            PendingOps(CancelNexusAt(h, i).value.machines)
            == if Pending(m) then NotLost(PendingOps(h.machines), {m.serial}) else PendingOps(h.machines)
    ensures Pending(h.machines[i]) ==> h.machines[i].serial in PendingOps(h.machines)
  {
    var m := h.machines[i];
    assert Sound(m, h.nextSerial);
    if m.cancelation.None? {
      var m' := m.(cancelation := Some(h.nextSerial));
      CancelRequestPending(h, i, m');
      if Pending(m) {
        PendingCancelled(h.machines, i, m');
      } else {
        PendingUpdate(h.machines, i, m');
      }
    }
  }

  lemma CancelRequestPending(h: Helper, i: nat, m': Machine)
    requires i < |h.machines| && m' == h.machines[i].(cancelation := Some(h.nextSerial))
    requires h.machines[i].cancelation.None? && h.machines[i].state != Completed && CancelNexusAt(h, i).Ok?
    ensures PendingOps(CancelNexusAt(h, i).value.machines) == PendingOps(h.machines[i := m'])
  {
    var m := h.machines[i];
    var id := CancelNexusID(m.scheduledID);
    var c := NewMachine(h, id, m.scheduledID);
    var ms2 := (h.machines + [c])[i := m'];
    assert ms2 == h.machines[i := m'] + [c];
    PendingAppend(h.machines[i := m'], [c]);
    assert [c][1..] == [] && PendingOps([c]) == [];
    if m.state == Created {
      RequestDonePending(ms2, id);
    }
  }

  lemma RequestDonePending(ms: seq<Machine>, id: CommandID)
    requires id.ctype == CancelNexusType && Fire(ms, id, EvCompletion).Ok?
    ensures PendingOps(Fire(ms, id, EvCompletion).value) == PendingOps(ms)
  {
    var i := Find(ms, id).value;
    match MoveOf(CancelNexusType, ms[i].state, EvCompletion)
    case To(s) =>
      if s == Completed { PendingRemove(ms, i); } else { PendingUpdate(ms, i, ms[i].(state := s)); }
    case Stay =>
  }

  lemma CallPending(h: Helper, call: Call)
    requires Inv(h) && OnCall(h, call).Ok?
    ensures PendingOps(OnCall(h, call).value.machines)
         == if call.ScheduleNexus? then PendingOps(h.machines) + [h.nextSerial]
            else NotLost(PendingOps(h.machines), LostBy(h, Invoke(call)))
    ensures LostBy(h, Invoke(call)) <= (set s | s in PendingOps(h.machines))
  {
    if IsCancel(call) {
      CancelCallPending(h, call);
    } else {
      NothingLost(PendingOps(h.machines), {});
      AddCallPending(h, call);
    }
  }

  lemma CancelCallPending(h: Helper, call: Call)
    requires Inv(h) && OnCall(h, call).Ok? && IsCancel(call)
    ensures PendingOps(OnCall(h, call).value.machines) == NotLost(PendingOps(h.machines), LostBy(h, Invoke(call)))
    ensures LostBy(h, Invoke(call)) <= (set s | s in PendingOps(h.machines))
  {
    NothingLost(PendingOps(h.machines), {});
    if call.CancelActivity? {
      var e := h.machines[Find(h.machines, ActivityID(call.activityID)).value].scheduledID;
      CancelPending(h, ActivityID(call.activityID), CancelActivityID(e), e);
    } else if call.CancelTimer? {
      CancelPending(h, TimerID(call.timerID), CancelTimerID(Text(call.timerID)), 0);
    } else if call.CancelChild? {
      CancelChildPending(h, ChildID(call.workflowID));
    } else {
      CancelNexusPending(h, Find(h.machines, NexusID(call.seqNo)).value);
    }
  }

  lemma AddCallPending(h: Helper, call: Call)
    requires OnCall(h, call).Ok? && !IsCancel(call)
    ensures PendingOps(OnCall(h, call).value.machines)
         == PendingOps(h.machines) + if call.ScheduleNexus? then [h.nextSerial] else []
  {
    if call.ScheduleActivity? {
      var h' := h.(activityIDs := h.activityIDs[call.scheduleID := call.activityID]);
      AddPending(h', ActivityID(call.activityID), call.scheduleID);
    } else if call.ScheduleNexus? {
      AddPending(h.(unscheduledNexus := h.unscheduledNexus + [h.nextSerial]), NexusID(call.seqNo), 0);
    } else if call.StartChild? && Find(h.machines, ChildID(call.workflowID)).None? {
      AddPending(h, ChildID(call.workflowID), 0);
    } else if PlainID(call).Some? {
      AddPending(h, PlainID(call).value, 0);
    }
  }

  lemma DeliverPending(h: Helper, event: Event)
    requires Inv(h) && Routed(event) && Deliver(h, event).Ok?
    ensures PendingOps(Deliver(h, event).value.machines) == PendingOps(h.machines)
  {
    var r := Route(h, event).value;
    var h1 := Prepare(h, event);
    DeliverFires(h, event);
    RouteDelivers(h, event);
    PrepareKeepsInv(h, event);
    PreparePending(h, event);
    FirePending(h1.machines, h1.nextSerial, Find(h1.machines, r.0).value, r.1);
  }

  lemma PreparePending(h: Helper, event: Event)
    ensures PendingOps(Prepare(h, event).machines) == PendingOps(h.machines)
  {
    if event.ActivityClosed? {
      var found := Find(h.machines, CancelActivityID(event.eventID));
      if found.Some? { PendingRemove(h.machines, found.value); }
    } else if event.TimerFired? {
      var found := Find(h.machines, CancelTimerID(Text(event.timerID)));
      if found.Some? { PendingRemove(h.machines, found.value); }
    }
  }

  lemma EventPending(h: Helper, event: Event)
    requires Inv(h) && OnEvent(h, event).Ok?
    ensures PendingOps(OnEvent(h, event).value.machines) == PendingOps(h.machines)
  {
    match event
    case WorkflowTaskStarted(_) | VersionMarkerRecorded(_, _) =>
    case NexusScheduled(e) => BindPending(h, e);
    case NexusCancelRequested(e) => CancelationPending(h, e, EvInitiated);
    case NexusCancelDelivered(e) => CancelationPending(h, e, EvCompletion);
    case _ => DeliverPending(h, event);
  }

  lemma BindPending(h: Helper, e: int)
    requires Inv(h) && BindNexus(h, e).Ok?
    ensures PendingOps(BindNexus(h, e).value.machines) == PendingOps(h.machines)
  {
    assert HasWaiting(h.machines, h.unscheduledNexus[0]);
    var i := FindSerial(h.machines, h.unscheduledNexus[0]).value;
    var m := h.machines[i];
    assert Waiting(m);
    var ms1 := h.machines[i := m.(scheduledID := e)];
    PendingUpdate(h.machines, i, m.(scheduledID := e));
    UpdateEffect(h.machines, i, m.(scheduledID := e));
    assert Core(ms1, h.nextSerial);
    FirePending(ms1, h.nextSerial, i, EvInitiated);
  }

  lemma CancelationPending(h: Helper, eventID: int, e: MachineEvent)
    requires Inv(h) && FireCancelation(h, eventID, e).Ok? && e in {EvInitiated, EvCompletion}
    ensures PendingOps(FireCancelation(h, eventID, e).value.machines) == PendingOps(h.machines)
  {
    var m := h.machines[Find(h.machines, h.nexusIDs[eventID]).value];
    var i := FindSerial(h.machines, m.cancelation.value).value;
    assert m in h.machines && h.machines[i] in h.machines;
    FirePending(h.machines, h.nextSerial, i, e);
  }

  lemma {:induction false} NoPending(ms: seq<Machine>)
    requires forall m | m in ms :: m.state != Created
    ensures PendingOps(ms) == []
  {
    if ms != [] {
      NoPending(ms[1..]);
    }
  }

  lemma {:induction false} UnmarkedGet(ms: seq<Machine>)
    requires forall m | m in ms :: m.state != Completed
    ensures AfterGet(ms, false) == ms
  {
    if ms != [] {
      UnmarkedGet(ms[1..]);
      assert ms[0] in ms;
    }
  }

  lemma CallUnscheduled(h: Helper, call: Call)
    requires OnCall(h, call).Ok? && !call.ScheduleNexus?
    ensures OnCall(h, call).value.unscheduledNexus == h.unscheduledNexus
  {
  }

  lemma EventUnscheduled(h: Helper, event: Event)
    requires OnEvent(h, event).Ok? && !event.NexusScheduled?
    ensures OnEvent(h, event).value.unscheduledNexus == h.unscheduledNexus
  {
    if Routed(event) {
      PrepareUnscheduled(h, event);
    }
  }

  lemma PrepareUnscheduled(h: Helper, event: Event)
    ensures Prepare(h, event).unscheduledNexus == h.unscheduledNexus
  {
  }

  lemma StepKeepsTrace(t: Traced, op: Op)
    requires TraceInv(t) && TraceStep(t, op).Ok?
    ensures TraceInv(TraceStep(t, op).value)
  {
    match op
    case Invoke(call) => CallKeepsTrace(t, call);
    case Apply(event) => EventKeepsTrace(t, event);
    case GetCommands(mark) => GetKeepsTrace(t, mark);
  }

  lemma FrameKeepsTrace(t: Traced, t': Traced)
    requires TraceInv(t) && Inv(t'.h) && t.h.nextSerial <= t'.h.nextSerial
    requires t'.scheduled == t.scheduled && t'.sent == t.sent && t'.lost == t.lost
    requires t'.bound + t'.h.unscheduledNexus == t.bound + t.h.unscheduledNexus
    requires PendingOps(t'.h.machines) == PendingOps(t.h.machines)
    ensures TraceInv(t')
  {
  }

  lemma EventKeepsTrace(t: Traced, event: Event)
    requires TraceInv(t) && TraceStep(t, Apply(event)).Ok?
    ensures TraceInv(TraceStep(t, Apply(event)).value)
  {
    var t' := TraceStep(t, Apply(event)).value;
    EventKeepsInv(t.h, event);
    EventPending(t.h, event);
    if event.NexusScheduled? {
      BindTakesFirst(t.h, event.eventID);
      FirstMoves(t.bound, t.h.unscheduledNexus);
    } else {
      EventUnscheduled(t.h, event);
    }
    FrameKeepsTrace(t, t');
  }

  lemma BindTakesFirst(h: Helper, e: int)
    requires BindNexus(h, e).Ok?
    ensures h.unscheduledNexus != [] && BindNexus(h, e).value.unscheduledNexus == h.unscheduledNexus[1..]
  {
  }

  lemma FirstMoves(a: seq<nat>, b: seq<nat>)
    requires b != []
    ensures (a + [b[0]]) + b[1..] == a + b
  {
  }

  lemma GetKeepsTrace(t: Traced, mark: bool)
    requires TraceInv(t)
    ensures TraceInv(TraceStep(t, GetCommands(mark)).value)
  {
    var t' := TraceStep(t, GetCommands(mark)).value;
    StepKeepsInv(t.h, GetCommands(mark));
    assert t'.lost == t.lost;
    if mark {
      CommandRuns.SendLeavesNothingNew(t.h);
      NoPending(t'.h.machines);
      assert t'.sent + PendingOps(t'.h.machines) == t.sent + PendingOps(t.h.machines);
    } else {
      forall m | m in t.h.machines ensures m.state != Completed {
        assert Sound(m, t.h.nextSerial);
      }
      UnmarkedGet(t.h.machines);
    }
  }

  lemma CallKeepsTrace(t: Traced, call: Call)
    requires TraceInv(t) && TraceStep(t, Invoke(call)).Ok?
    ensures TraceInv(TraceStep(t, Invoke(call)).value)
  {
    var t' := TraceStep(t, Invoke(call)).value;
    CallPending(t.h, call);
    CallKeepsInv(t.h, call);
    if call.ScheduleNexus? {
      ScheduleKeepsTrace(t, t');
    } else {
      CallUnscheduled(t.h, call);
      PendingBelow(t.h);
      LossKeepsFilter(t.scheduled, t.sent, PendingOps(t.h.machines), t.lost, LostBy(t.h, Invoke(call)));
    }
  }

  lemma ScheduleKeepsTrace(t: Traced, t': Traced)
    requires TraceInv(t) && Inv(t'.h) && t.h.nextSerial < t'.h.nextSerial
    requires t'.scheduled == t.scheduled + [t.h.nextSerial]
    requires t'.sent == t.sent && t'.lost == t.lost && t'.bound == t.bound
    requires t'.h.unscheduledNexus == t.h.unscheduledNexus + [t.h.nextSerial]
    requires PendingOps(t'.h.machines) == PendingOps(t.h.machines) + [t.h.nextSerial]
    ensures TraceInv(t')
  {
    IncreasingSnoc(t.scheduled, t.h.nextSerial);
    ScheduleKeepsFilter(t.scheduled, t.sent, PendingOps(t.h.machines), t.lost, t.h.nextSerial);
    assert t'.scheduled == t'.bound + t'.h.unscheduledNexus;
  }

  lemma ScheduleKeepsFilter(scheduled: seq<nat>, sent: seq<nat>, p: seq<nat>, lost: set<nat>, n: nat)
    requires sent + p == NotLost(scheduled, lost) && n !in lost
    ensures sent + (p + [n]) == NotLost(scheduled + [n], lost)
  {
    NotLostAppend(scheduled, [n], lost);
    NothingLost([n], lost);
    assert sent + (p + [n]) == (sent + p) + [n];
  }

  lemma LossKeepsFilter(scheduled: seq<nat>, sent: seq<nat>, p: seq<nat>, lost: set<nat>, more: set<nat>)
    requires Increasing(scheduled) && sent + p == NotLost(scheduled, lost) && more <= (set s | s in p)
    ensures sent + NotLost(p, more) == NotLost(scheduled, lost + more)
  {
    NotLostTwice(scheduled, lost, more);
    NotLostAppend(sent, p, more);
    NotLostIncreasing(scheduled, lost);
    forall i, j | 0 <= i < |sent| && 0 <= j < |p| ensures sent[i] != p[j] {
      assert (sent + p)[i] < (sent + p)[|sent| + j];
    }
    NothingLost(sent, more);
  }

  lemma PendingBelow(h: Helper)
    requires Inv(h)
    ensures forall s | s in PendingOps(h.machines) :: s < h.nextSerial
  {
    PendingSerials(h.machines);
  }

  lemma {:induction false} RunKeepsTrace(t: Traced, ops: seq<Op>)
    requires TraceInv(t) && TraceRun(t, ops).Ok?
    ensures TraceInv(TraceRun(t, ops).value)
    decreases |ops|
  {
    if ops != [] {
      StepKeepsTrace(t, ops[0]);
      RunKeepsTrace(TraceStep(t, ops[0]).value, ops[1..]);
    }
  }
}
