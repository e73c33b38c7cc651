/** Where a command ends up in the response, whatever workflow code does after adding it. */
module IdPosition {
  import opened Basics
  import opened CommandMachine
  import opened HelperState
  import opened Invariants
  import CommandRuns
  import opened IdPrediction

  /** The states of a machine whose command the workflow task issued. */
  predicate InHand(m: Machine) {
    || m.state == Created || m.state == CanceledBeforeSent
    || (m.id.ctype == ChildType && m.state == CanceledAfterStarted)
  }

  /** The call takes back the command of a machine that is listed before position `i`. */
  function EarlierLoss(h: Helper, call: Call, i: nat): nat {
    match call
    case CancelChild(w) =>
      (match Find(h.machines, ChildID(w))
       case Some(j) => if j < i && h.machines[j].state == Created then 1 else 0
       case None => 0)
    case CancelNexus(n) =>
      (match Find(h.machines, NexusID(n))
       case Some(j) => if j < i && h.machines[j].state == Created && h.machines[j].cancelation.None? then 1 else 0
       case None => 0)
    case _ => 0
  }

  /** `ms'[k]` is the machine that was `ms[i]`, with `loss` commands fewer before it. */
  ghost predicate Stays(ms: seq<Machine>, i: nat, ms': seq<Machine>, k: nat, loss: nat) {
    && i < |ms| && k < |ms'| && ms'[k].serial == ms[i].serial && InHand(ms'[k])
    && |Commands(ms'[..k])| == |Commands(ms[..i])| - loss
  }

  lemma AppendFollows(ms: seq<Machine>, m: Machine, i: nat)
    requires i < |ms| && InHand(ms[i])
    ensures Stays(ms, i, ms + [m], i, 0)
  {
    assert (ms + [m])[..i] == ms[..i];
  }

  lemma UpdateFollows(ms: seq<Machine>, j: nat, x: Machine, i: nat)
    requires i < |ms| && InHand(ms[i]) && j < |ms| && x.serial == ms[j].serial && (j == i ==> InHand(x))
    requires CommandOf(x) == CommandOf(ms[j]) || (CommandOf(x).None? && CommandOf(ms[j]).Some?)
    ensures Stays(ms, i, ms[j := x], i, if j < i && CommandOf(x) != CommandOf(ms[j]) then 1 else 0)
  {
    if j < i {
      assert ms[j := x][..i] == ms[..i][j := x];
      CommandsUpdate(ms[..i], j, x);
    } else {
      assert ms[j := x][..i] == ms[..i];
    }
  }

  lemma CancelFollows(ms: seq<Machine>, j: nat, i: nat)
    requires i < |ms| && InHand(ms[i]) && j < |ms| && FireAt(ms, j, EvCancel).Ok?
    requires ms[j].id.ctype in {TimerType, ActivityType} || (ms[j].id.ctype == ChildType && ms[j].state != Started)
    ensures Stays(ms, i, FireAt(ms, j, EvCancel).value, i,
                    if j < i && ms[j].id.ctype == ChildType && ms[j].state == Created then 1 else 0)
  {
    match MoveOf(ms[j].id.ctype, ms[j].state, EvCancel)
    case To(s) => UpdateFollows(ms, j, ms[j].(state := s), i);
    case Stay =>
  }

  lemma BackFollows(ms: seq<Machine>, j: nat, x: Machine, i: nat) returns (k: nat)
    requires i < |ms| && InHand(ms[i]) && j < |ms| && j != i && CommandOf(ms[j]).None?
    ensures Stays(ms, i, RemoveAt(ms, j) + [x], k, 0)
  {
    var r := RemoveAt(ms, j) + [x];
    if j < i {
      k := i - 1;
      assert r[..k] == RemoveAt(ms[..i], j);
      CommandsRemove(ms[..i], j);
    } else {
      k := i;
      assert r[..k] == ms[..i];
    }
  }

  lemma NexusFollows(h: Helper, j: nat, i: nat)
    requires i < |h.machines| && InHand(h.machines[i]) && j < |h.machines| && h.machines[j].id.ctype == NexusType
    requires CancelNexusAt(h, j).Ok?
    ensures Stays(h.machines, i, CancelNexusAt(h, j).value.machines, i, EarlierLossAt(h, j, i))
  {
    var m := h.machines[j];
    if !(m.cancelation.Some? || m.state == Completed) {
      CancelledNexusList(h, j);
      var m' := m.(cancelation := Some(h.nextSerial));
      MarkedCommand(m, m');
      UpdateFollows(h.machines, j, m', i);
      if m.state != Created {
        AppendFollows(h.machines[j := m'], NewMachine(h, CancelNexusID(m.scheduledID), m.scheduledID), i);
      }
    }
  }

  function EarlierLossAt(h: Helper, j: nat, i: nat): nat
    requires j < |h.machines|
  {
    if j < i && h.machines[j].state == Created && h.machines[j].cancelation.None? then 1 else 0
  }

  lemma CancelTimerFollows(h: Helper, id: CommandID, cancelID: CommandID, scheduledID: int, i: nat)
    requires CancelWithCommand(h, id, cancelID, scheduledID).Ok? && id.ctype in {TimerType, ActivityType}
    requires i < |h.machines| && InHand(h.machines[i])
    ensures Stays(h.machines, i, CancelWithCommand(h, id, cancelID, scheduledID).value.machines, i, 0)
  {
    var ms := h.machines;
    var j := Find(ms, id).value;
    if ms[j].state in {Created, CommandSent, Initiated} {
      var c := NewMachine(h, cancelID, scheduledID);
      AppendFollows(ms, c, i);
      CommandRuns.FindAppend(ms, c, id);
      CancelFollows(ms + [c], j, i);
    } else {
      CancelFollows(ms, j, i);
    }
  }

  /** One call keeps the machine in the list and moves its command forward by what it takes back. */
  lemma CallFollows(h: Helper, call: Call, i: nat) returns (k: nat)
    requires OnCall(h, call).Ok? && i < |h.machines| && InHand(h.machines[i])
    ensures Stays(h.machines, i, OnCall(h, call).value.machines, k, EarlierLoss(h, call, i))
  {
    k := i;
    var ms := h.machines;
    if call.CancelChild? {
      var j := Find(ms, ChildID(call.workflowID)).value;
      if ms[j].state == Started {
        k := BackFollows(ms, j, ms[j].(state := CanceledAfterStarted), i);
      } else {
        CancelFollows(ms, j, i);
      }
    } else if call.CancelNexus? {
      NexusFollows(h, Find(ms, NexusID(call.seqNo)).value, i);
    } else if call.CancelTimer? {
      CancelTimerFollows(h, TimerID(call.timerID), CancelTimerID(Text(call.timerID)), 0, i);
    } else if call.CancelActivity? {
      var e := ms[Find(ms, ActivityID(call.activityID)).value].scheduledID;
      CancelTimerFollows(h, ActivityID(call.activityID), CancelActivityID(e), e, i);
    } else if OnCall(h, call).value.machines != ms {
      AppendFollows(ms, OnCall(h, call).value.machines[|ms|], i);
    }
  }

  /** Over many calls; the position follows the machine through the list. */
  function EarlierLosses(h: Helper, calls: seq<Call>, serial: nat): nat
    requires RunCalls(h, calls).Ok?
    decreases |calls|
  {
    if calls == [] then 0
    else
      var here := match FindSerial(h.machines, serial) case Some(i) => EarlierLoss(h, calls[0], i) case None => 0;
      here + EarlierLosses(OnCall(h, calls[0]).value, calls[1..], serial)
  }

  lemma SerialAt(ms: seq<Machine>, i: nat)
    requires Distinct(ms) && i < |ms|
    ensures FindSerial(ms, ms[i].serial) == Some(i)
  {}

  lemma {:induction false} CallsFollow(h: Helper, calls: seq<Call>, i: nat) returns (k: nat)
    requires Inv(h) && RunCalls(h, calls).Ok? && i < |h.machines| && InHand(h.machines[i])
    ensures Inv(RunCalls(h, calls).value)
    ensures Stays(h.machines, i, RunCalls(h, calls).value.machines, k, EarlierLosses(h, calls, h.machines[i].serial))
    decreases |calls|
  {
    k := i;
    if calls != [] {
      var h1 := OnCall(h, calls[0]).value;
      SerialAt(h.machines, i);
      var j := CallFollows(h, calls[0], i);
      CallKeepsInv(h, calls[0]);
      k := CallsFollow(h1, calls[1..], j);
    }
  }

  lemma PlainFollows(ms: seq<Machine>, c: Machine)
    requires InHand(c)
    ensures Stays(ms + [c], |ms|, ms + [c], |ms|, 0)
  {}

  lemma CancelAdded(h: Helper, id: CommandID, cancelID: CommandID, scheduledID: int)
    requires CancelWithCommand(h, id, cancelID, scheduledID).Ok? && id.ctype in {TimerType, ActivityType}
    requires h.machines[Find(h.machines, id).value].state in {Created, CommandSent, Initiated}
    ensures Stays(h.machines + [NewMachine(h, cancelID, scheduledID)], |h.machines|,
                    CancelWithCommand(h, id, cancelID, scheduledID).value.machines, |h.machines|, 0)
  {
    var c := NewMachine(h, cancelID, scheduledID);
    CommandRuns.FindAppend(h.machines, c, id);
    CancelFollows(h.machines + [c], Find(h.machines, id).value, |h.machines|);
  }

  lemma RequestAdded(h: Helper, j: nat)
    requires j < |h.machines| && h.machines[j].id.ctype == NexusType && CancelNexusAt(h, j).Ok?
    requires h.machines[j].cancelation.None? && h.machines[j].state !in {Created, Completed}
    ensures var c := NewMachine(h, CancelNexusID(h.machines[j].scheduledID), h.machines[j].scheduledID);
            Stays(h.machines + [c], |h.machines|, CancelNexusAt(h, j).value.machines, |h.machines|, 0)
  {
    var ms := h.machines;
    var m := ms[j];
    var c := NewMachine(h, CancelNexusID(m.scheduledID), m.scheduledID);
    var m' := m.(cancelation := Some(h.nextSerial));
    CancelledNexusList(h, j);
    assert (ms + [c])[j := m'] == ms[j := m'] + [c];
    UpdateFollows(ms + [c], j, m', |ms|);
  }

  /** The machine whose command a call issues, if any: a new one, or a started child that is cancelled. */
  function Issued(h: Helper, call: Call): (r: Option<Machine>)
    requires OnCall(h, call).Ok?
    ensures r.Some? ==> InHand(r.value)
  {
    match call
    case CancelActivity(a) =>
      var m := h.machines[Find(h.machines, ActivityID(a)).value];
      if m.state in {Created, CommandSent, Initiated}
      then Some(NewMachine(h, CancelActivityID(m.scheduledID), m.scheduledID))
      else None
    case CancelTimer(t) =>
      if h.machines[Find(h.machines, TimerID(t)).value].state in {Created, CommandSent, Initiated}
      then Some(NewMachine(h, CancelTimerID(Text(t)), 0)) else None
    case CancelNexus(n) =>
      var m := h.machines[Find(h.machines, NexusID(n)).value];
      if m.cancelation.None? && m.state !in {Created, Completed}
      then Some(NewMachine(h, CancelNexusID(m.scheduledID), m.scheduledID)) else None
    case ScheduleActivity(s, a) => Some(NewMachine(h, ActivityID(a), s))
    case ScheduleNexus(n) => Some(NewMachine(h, NexusID(n), 0))
    case StartChild(w) => if Find(h.machines, ChildID(w)).None? then Some(NewMachine(h, ChildID(w), 0)) else None
    case GetNextID => None
    case CancelChild(w) =>
      var m := h.machines[Find(h.machines, ChildID(w)).value];
      if m.state == Started then Some(m.(state := CanceledAfterStarted)) else None
    case _ => Some(NewMachine(h, PlainID(call).value, 0))
  }

  /** A started child that is cancelled goes behind all others. */
  lemma BackAdded(ms: seq<Machine>, j: nat, x: Machine)
    requires j < |ms| && CommandOf(ms[j]).None? && InHand(x)
    ensures Stays(ms + [x], |ms|, RemoveAt(ms, j) + [x], |ms| - 1, 0)
  {
    assert (ms + [x])[..|ms|] == ms && (RemoveAt(ms, j) + [x])[..|ms| - 1] == RemoveAt(ms, j);
    CommandsRemove(ms, j);
  }

  /** A call that issues a command puts it behind all others. */
  lemma IssuedFollows(h: Helper, call: Call) returns (k: nat)
    requires Inv(h) && OnCall(h, call).Ok? && Issued(h, call).Some?
    ensures Stays(h.machines + [Issued(h, call).value], |h.machines|, OnCall(h, call).value.machines, k, 0)
  {
    var ms := h.machines;
    k := |ms|;
    if call.CancelTimer? {
      CancelAdded(h, TimerID(call.timerID), CancelTimerID(Text(call.timerID)), 0);
    } else if call.CancelActivity? {
      var e := ms[Find(ms, ActivityID(call.activityID)).value].scheduledID;
      CancelAdded(h, ActivityID(call.activityID), CancelActivityID(e), e);
    } else if call.CancelNexus? {
      RequestAdded(h, Find(ms, NexusID(call.seqNo)).value);
    } else if call.CancelChild? {
      k := |ms| - 1;
      BackAdded(ms, Find(ms, ChildID(call.workflowID)).value, Issued(h, call).value);
    } else {
      PlainFollows(ms, Issued(h, call).value);
    }
  }

  lemma IssuedLast(h: Helper, call: Call) returns (k: nat)
    requires Inv(h) && OnCall(h, call).Ok? && Issued(h, call).Some?
    ensures var b := OnCall(h, call).value;
            && Inv(b) && k < |b.machines| && b.machines[k].serial == Issued(h, call).value.serial
            && InHand(b.machines[k])
            && |Commands(b.machines[..k])| == |Commands(h.machines)|
  {
    k := IssuedFollows(h, call);
    CallKeepsInv(h, call);
    assert (h.machines + [Issued(h, call).value])[..|h.machines|] == h.machines;
  }

  lemma CommandAt(ms: seq<Machine>, i: nat)
    requires i < |ms| && CommandOf(ms[i]).Some?
    ensures |Commands(ms[..i])| < |Commands(ms)| && Commands(ms)[|Commands(ms[..i])|] == CommandOf(ms[i]).value
  {
    assert ms == ms[..i] + [ms[i]] + ms[i + 1..];
    CommandsAppend(ms[..i] + [ms[i]], ms[i + 1..]);
    CommandsAppend(ms[..i], [ms[i]]);
    CommandsSingle(ms[i]);
  }

  lemma SentAt(b: Helper, after: seq<Call>, i: nat) returns (k: nat)
    requires Inv(b) && RunCalls(b, after).Ok? && i < |b.machines| && InHand(b.machines[i])
    ensures var ms := RunCalls(b, after).value.machines;
            && k < |ms| && ms[k].serial == b.machines[i].serial
            && (CommandOf(ms[k]).Some? ==>
                  |Commands(ms[..k])| < |Commands(ms)| && Commands(ms)[|Commands(ms[..k])|] == CommandOf(ms[k]).value)
            && |Commands(ms[..k])| == |Commands(b.machines[..i])| - EarlierLosses(b, after, b.machines[i].serial)
  {
    k := CallsFollow(b, after, i);
    var ms := RunCalls(b, after).value.machines;
    if CommandOf(ms[k]).Some? {
      CommandAt(ms, k);
    }
  }

  /** Where a command that `call` issues is sent, after any further calls. */
  lemma WhereSent(a: Helper, call: Call, after: seq<Call>) returns (k: nat)
    requires Inv(a) && OnCall(a, call).Ok? && Issued(a, call).Some? && RunCalls(OnCall(a, call).value, after).Ok?
    ensures var b := OnCall(a, call).value;
            var ms := RunCalls(b, after).value.machines;
            var serial := Issued(a, call).value.serial;
            && k < |ms| && ms[k].serial == serial
            && (CommandOf(ms[k]).Some? ==>
                  |Commands(ms[..k])| < |Commands(ms)| && Commands(ms)[|Commands(ms[..k])|] == CommandOf(ms[k]).value)
            && |Commands(ms[..k])| == |Commands(a.machines)| - EarlierLosses(b, after, serial)
  {
    var i := IssuedLast(a, call);
    k := SentAt(OnCall(a, call).value, after, i);
  }

  /** A whole workflow task: event `started`, the calls `before`, a call that issues a command, any calls
      `after`, and the response.  If the command is sent, it is the one at position |Commands(ms[..k])|
      of the response, and the ID predicted for it is the ID the server gives to that position exactly
      when no call before it took back a command and no call after it took back an earlier one. */
  lemma PredictedWhereSent(h0: Helper, started: int, before: seq<Call>, call: Call, after: seq<Call>) returns (k: nat)
    requires Inv(h0) && (forall m | m in h0.counter.markers :: m < started + 2)
    requires RunCalls(AtStart(h0, started), before).Ok?
    requires var a := RunCalls(AtStart(h0, started), before).value;
             OnCall(a, call).Ok? && Issued(a, call).Some? && RunCalls(OnCall(a, call).value, after).Ok?
    ensures var a := RunCalls(AtStart(h0, started), before).value;
            var b := OnCall(a, call).value;
            var ms := RunCalls(b, after).value.machines;
            var serial := Issued(a, call).value.serial;
            && k < |ms| && ms[k].serial == serial
            && (CommandOf(ms[k]).Some? ==>
                  |Commands(ms[..k])| < |Commands(ms)| && Commands(ms)[|Commands(ms[..k])|] == CommandOf(ms[k]).value)
            && (a.counter.next == ServerEventID(started, |Commands(ms[..k])|) <==>
                  TotalLoss(AtStart(h0, started), before) == 0 && EarlierLosses(b, after, serial) == 0)
  {
    CounterAt(h0, started, before);
    k := WhereSent(RunCalls(AtStart(h0, started), before).value, call, after);
  }
}
