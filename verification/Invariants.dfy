/** What every operation of the helper keeps, and what follows for whole runs. */
module Invariants {
  import opened Basics
  import opened CommandMachine
  import opened HelperState

  // ---------------------------------------------------------------- definitions

  /** The events that the helper delivers to each type of machine. */
  predicate Delivered(t: CommandType, e: MachineEvent) {
    e == EvSent ||
    match t
    case ActivityType => e in {EvCancel, EvInitiated, EvCompletion, EvCancelInitiated, EvCanceled}
    case TimerType => e in {EvCancel, EvInitiated, EvCompletion, EvCanceled}
    case ChildType => true
    case CancellationType | SignalType | CancelNexusType => e in {EvInitiated, EvCompletion}
    case NexusType => e in {EvInitiated, EvStarted, EvCompletion}
    case _ => false
  }

  /** The states in which a machine of type `t` can be found in the list. */
  predicate Possible(t: CommandType, s: CommandState) {
    match t
    case ActivityType | TimerType =>
      s in {Created, CommandSent, Initiated, CanceledBeforeSent, CanceledAfterInitiated,
            CancellationCommandSent, CompletedAfterCancellationCommandSent}
    case ChildType => s != Completed && s != CanceledBeforeInitiated
    case CancellationType | SignalType | CancelNexusType => s in {Created, CommandSent, Initiated}
    case NexusType => s in {Created, CommandSent, Initiated, Started}
    case CancelTimerType | CancelActivityType => s in {Created, CommandSent}
    case _ => s == Created
  }

  /** One machine per command ID and per serial. */
  ghost predicate Distinct(ms: seq<Machine>) {
    forall i, j | 0 <= i < j < |ms| :: ms[i].id != ms[j].id && ms[i].serial != ms[j].serial
  }

  ghost predicate Sound(m: Machine, nextSerial: nat) {
    && m.serial < nextSerial
    && Possible(m.id.ctype, m.state)
    && (m.cancelation.Some? ==> m.cancelation.value < nextSerial)
  }

  ghost predicate Core(ms: seq<Machine>, nextSerial: nat) {
    && Distinct(ms)
    && (forall m | m in ms :: Sound(m, nextSerial))
    && (forall m, c | m in ms && c in ms && m.cancelation == Some(c.serial) :: c.id.ctype == CancelNexusType)
  }

  ghost predicate HasActivity(ms: seq<Machine>, a: string) {
    exists m | m in ms :: m.id == ActivityID(a)
  }

  /** Every entry of the activity lookup names an activity in the list, and no two the same one. */
  ghost predicate ActivitiesBound(h: Helper) {
    && (forall e | e in h.activityIDs :: HasActivity(h.machines, h.activityIDs[e]))
    && (forall e, f | e in h.activityIDs && f in h.activityIDs && h.activityIDs[e] == h.activityIDs[f] :: e == f)
  }

  predicate Waiting(m: Machine) {
    m.id.ctype == NexusType && (m.state == Created || m.state == CommandSent)
  }

  predicate Open(m: Machine) {
    m.id.ctype == NexusType && (m.state == Initiated || m.state == Started)
  }

  ghost predicate HasWaiting(ms: seq<Machine>, serial: nat) {
    exists m | m in ms :: m.serial == serial && Waiting(m)
  }

  ghost predicate HasOpen(ms: seq<Machine>, id: CommandID) {
    exists m | m in ms :: m.id == id && Open(m)
  }

  /** The unscheduled list holds waiting operations, oldest first; every entry of the event lookup
      names an open operation, and no two the same one. */
  ghost predicate NexusBound(h: Helper) {
    && (forall k | 0 <= k < |h.unscheduledNexus| :: HasWaiting(h.machines, h.unscheduledNexus[k]))
    && (forall j, k | 0 <= j < k < |h.unscheduledNexus| :: h.unscheduledNexus[j] < h.unscheduledNexus[k])
    && (forall e | e in h.nexusIDs :: HasOpen(h.machines, h.nexusIDs[e]))
    && (forall e, f | e in h.nexusIDs && f in h.nexusIDs && h.nexusIDs[e] == h.nexusIDs[f] :: e == f)
  }

  ghost predicate Inv(h: Helper) {
    Core(h.machines, h.nextSerial) && ActivitiesBound(h) && NexusBound(h)
  }

  /** A timer or activity whose cancellation was requested. */
  predicate Cancelled(m: Machine) {
    m.id.ctype in {ActivityType, TimerType} && m.state !in {Created, CommandSent, Initiated}
  }

  /** `x` is a later version of machine `m`: a cancelled timer or activity stays cancelled, and no machine
      becomes new again. */
  predicate Follows(m: Machine, x: Machine) {
    && m.serial == x.serial && m.id == x.id
    && (Cancelled(m) ==> Cancelled(x)) && (x.state == Created ==> m.state == Created)
  }

  /** Every machine of `ms'` numbered below `n` is a later version of a machine of `ms`. */
  ghost predicate Evolves(ms: seq<Machine>, ms': seq<Machine>, n: nat) {
    forall x | x in ms' && x.serial < n :: exists m | m in ms :: Follows(m, x)
  }

  ghost predicate Keeps(h: Helper, h': Helper) {
    Inv(h') && h.nextSerial <= h'.nextSerial && Evolves(h.machines, h'.machines, h.nextSerial)
  }

  // ---------------------------------------------------------------- edits of the list

  /** `ms'` is `ms` with `m` replaced by `r`, or taken out when `r` is None. */
  ghost predicate Replaced(ms: seq<Machine>, m: Machine, r: Option<Machine>, ms': seq<Machine>) {
    forall x :: x in ms' <==> (x in ms && x != m) || r == Some(x)
  }

  function Moved(m: Machine, e: MachineEvent): Option<Machine> {
    match MoveOf(m.id.ctype, m.state, e)
    case To(s) => if s == Completed then None else Some(m.(state := s))
    case _ => Some(m)
  }

  lemma RemoveEffect(ms: seq<Machine>, i: nat)
    requires i < |ms| && Distinct(ms)
    ensures Distinct(RemoveAt(ms, i)) && Replaced(ms, ms[i], None, RemoveAt(ms, i))
  {
    var r := RemoveAt(ms, i);
    forall x ensures x in r <==> x in ms && x != ms[i] {
      if x in ms && x != ms[i] {
        var j :| 0 <= j < |ms| && ms[j] == x;
        assert r[if j < i then j else j - 1] == x;
      }
    }
  }

  lemma UpdateEffect(ms: seq<Machine>, i: nat, x: Machine)
    requires i < |ms| && Distinct(ms) && x.id == ms[i].id && x.serial == ms[i].serial
    ensures Distinct(ms[i := x]) && Replaced(ms, ms[i], Some(x), ms[i := x])
  {
    var r := ms[i := x];
    forall y ensures y in r <==> (y in ms && y != ms[i]) || y == x {
      if y in ms && y != ms[i] {
        var j :| 0 <= j < |ms| && ms[j] == y;
        assert r[j] == y;
      }
      assert r[i] == x;
    }
  }

  lemma MovedSound(m: Machine, n: nat, e: MachineEvent)
    requires Sound(m, n) && Delivered(m.id.ctype, e)
    ensures Moved(m, e).Some? ==> Sound(Moved(m, e).value, n) && Follows(m, Moved(m, e).value)
  {}

  lemma FireAtEffect(ms: seq<Machine>, n: nat, i: nat, e: MachineEvent)
    requires Core(ms, n) && i < |ms| && Delivered(ms[i].id.ctype, e) && FireAt(ms, i, e).Ok?
    ensures Core(FireAt(ms, i, e).value, n)
    ensures Replaced(ms, ms[i], Moved(ms[i], e), FireAt(ms, i, e).value)
    ensures Moved(ms[i], e).Some? ==> Follows(ms[i], Moved(ms[i], e).value)
  {
    assert ms[i] in ms && Sound(ms[i], n);
    MovedSound(ms[i], n, e);
    match MoveOf(ms[i].id.ctype, ms[i].state, e)
    case To(s) =>
      if s == Completed { RemoveEffect(ms, i); } else { UpdateEffect(ms, i, ms[i].(state := s)); }
    case Stay =>
  }

  lemma FireEffect(ms: seq<Machine>, n: nat, id: CommandID, e: MachineEvent) returns (m: Machine)
    requires Core(ms, n) && Delivered(id.ctype, e) && Fire(ms, id, e).Ok?
    ensures m in ms && m.id == id
    ensures Core(Fire(ms, id, e).value, n)
    ensures Replaced(ms, m, Moved(m, e), Fire(ms, id, e).value)
    ensures Moved(m, e).Some? ==> Follows(m, Moved(m, e).value)
  {
    var i := Find(ms, id).value;
    m := ms[i];
    FireAtEffect(ms, n, i, e);
  }

  lemma RemoveIDEffect(ms: seq<Machine>, n: nat, id: CommandID)
    requires Core(ms, n)
    ensures Core(RemoveID(ms, id), n)
    ensures forall x :: x in RemoveID(ms, id) <==> x in ms && x.id != id
  {
    if Find(ms, id).Some? {
      RemoveEffect(ms, Find(ms, id).value);
    }
  }

  lemma AddEffect(h: Helper, id: CommandID, scheduledID: int)
    requires Core(h.machines, h.nextSerial) && AddCommand(h, id, scheduledID).Ok?
    ensures var h' := AddCommand(h, id, scheduledID).value;
            && Core(h'.machines, h'.nextSerial)
            && (forall x :: x in h'.machines <==> x in h.machines || x == NewMachine(h, id, scheduledID))
  {
    var ms := h.machines;
    var n := NewMachine(h, id, scheduledID);
    forall i | 0 <= i < |ms| ensures ms[i].id != id && ms[i].serial < h.nextSerial {
      assert ms[i] in ms && Sound(ms[i], h.nextSerial);
    }
    assert Distinct(ms + [n]);
    forall x | x in ms + [n] ensures Sound(x, h.nextSerial + 1) {
      assert x in ms ==> Sound(x, h.nextSerial);
    }
    forall x, c | x in ms + [n] && c in ms + [n] && x.cancelation == Some(c.serial)
      ensures c.id.ctype == CancelNexusType
    {
      assert x in ms && Sound(x, h.nextSerial);
      assert c != n && c in ms;
    }
  }

  lemma {:induction false} AfterGetMembers(ms: seq<Machine>, mark: bool)
    ensures forall x | x in AfterGet(ms, mark) :: exists m | m in ms :: x == Got(m, mark) && x.state != Completed
    ensures forall m | m in ms :: Got(m, mark).state != Completed ==> Got(m, mark) in AfterGet(ms, mark)
  {
    if ms != [] {
      AfterGetMembers(ms[1..], mark);
      assert ms == [ms[0]] + ms[1..];
    }
  }

  lemma {:induction false} AfterGetDistinct(ms: seq<Machine>, mark: bool)
    requires Distinct(ms)
    ensures Distinct(AfterGet(ms, mark))
  {
    if ms != [] {
      AfterGetDistinct(ms[1..], mark);
      AfterGetMembers(ms[1..], mark);
      var rest := AfterGet(ms[1..], mark);
      forall x | x in rest ensures x.id != ms[0].id && x.serial != ms[0].serial {
        var m :| m in ms[1..] && x == Got(m, mark);
      }
    }
  }

  lemma GotSound(m: Machine, n: nat, mark: bool)
    requires Sound(m, n)
    ensures Got(m, mark).state != Completed ==> Sound(Got(m, mark), n)
    ensures !CompletesOnSend(m.id.ctype) ==> Got(m, mark).state != Completed
    ensures mark && CompletesOnSend(m.id.ctype) ==> Got(m, mark).state == Completed
    ensures mark ==> Got(m, mark).state != Created
  {
  }

  lemma AfterGetEffect(ms: seq<Machine>, n: nat, mark: bool)
    requires Core(ms, n)
    ensures Core(AfterGet(ms, mark), n)
    ensures forall x | x in AfterGet(ms, mark) :: exists m | m in ms :: x == Got(m, mark)
    ensures forall m | m in ms && !CompletesOnSend(m.id.ctype) :: Got(m, mark) in AfterGet(ms, mark)
  {
    AfterGetMembers(ms, mark);
    AfterGetDistinct(ms, mark);
    var r := AfterGet(ms, mark);
    forall x | x in r ensures Sound(x, n) {
      var m :| m in ms && x == Got(m, mark);
      GotSound(m, n, mark);
    }
    forall x, c | x in r && c in r && x.cancelation == Some(c.serial) ensures c.id.ctype == CancelNexusType {
      var m :| m in ms && x == Got(m, mark);
      var d :| d in ms && c == Got(d, mark);
      assert m.cancelation == Some(d.serial);
    }
    forall m | m in ms && !CompletesOnSend(m.id.ctype) ensures Got(m, mark) in r {
      GotSound(m, n, mark);
    }
  }

  // ---------------------------------------------------------------- every operation keeps the invariant

  /** Whatever the lookups may name in `ms` they may also name in `ms'`. */
  ghost predicate Supports(ms: seq<Machine>, ms': seq<Machine>) {
    && (forall a :: HasActivity(ms, a) ==> HasActivity(ms', a))
    && (forall s :: HasWaiting(ms, s) ==> HasWaiting(ms', s))
    && (forall id :: HasOpen(ms, id) ==> HasOpen(ms', id))
  }

  lemma SupportReplaced(ms: seq<Machine>, m: Machine, r: Option<Machine>, ms': seq<Machine>)
    requires Replaced(ms, m, r, ms') && m in ms
    requires r.Some? ==> r.value.id == m.id && r.value.serial == m.serial
    requires r.None? ==> m.id.ctype != ActivityType && m.id.ctype != NexusType
    requires r.Some? ==> (Waiting(m) ==> Waiting(r.value)) && (Open(m) ==> Open(r.value))
    ensures Supports(ms, ms')
  {
    forall a | HasActivity(ms, a) ensures HasActivity(ms', a) {
      var x :| x in ms && x.id == ActivityID(a);
      if x == m { assert r.value in ms'; } else { assert x in ms'; }
    }
    forall k | HasWaiting(ms, k) ensures HasWaiting(ms', k) {
      var x :| x in ms && x.serial == k && Waiting(x);
      if x == m { assert r.value in ms'; } else { assert x in ms'; }
    }
    forall id | HasOpen(ms, id) ensures HasOpen(ms', id) {
      var x :| x in ms && x.id == id && Open(x);
      if x == m { assert r.value in ms'; } else { assert x in ms'; }
    }
  }

  lemma SupportSuperset(ms: seq<Machine>, ms': seq<Machine>)
    requires forall x | x in ms && x.id.ctype in {ActivityType, NexusType} :: x in ms'
    ensures Supports(ms, ms')
  {
    forall a | HasActivity(ms, a) ensures HasActivity(ms', a) {
      var x :| x in ms && x.id == ActivityID(a);
      assert x in ms';
    }
    forall k | HasWaiting(ms, k) ensures HasWaiting(ms', k) {
      var x :| x in ms && x.serial == k && Waiting(x);
      assert x in ms';
    }
    forall id | HasOpen(ms, id) ensures HasOpen(ms', id) {
      var x :| x in ms && x.id == id && Open(x);
      assert x in ms';
    }
  }

  lemma GotKept(m: Machine, mark: bool)
    requires m.id.ctype in {ActivityType, NexusType}
    ensures !CompletesOnSend(m.id.ctype) && Got(m, mark).id == m.id && Got(m, mark).serial == m.serial
    ensures (Waiting(m) ==> Waiting(Got(m, mark))) && (Open(m) ==> Open(Got(m, mark)))
  {}

  lemma SupportAfterGet(ms: seq<Machine>, n: nat, mark: bool)
    requires Core(ms, n)
    ensures Supports(ms, AfterGet(ms, mark))
  {
    AfterGetEffect(ms, n, mark);
    var ms' := AfterGet(ms, mark);
    forall a | HasActivity(ms, a) ensures HasActivity(ms', a) {
      var x :| x in ms && x.id == ActivityID(a);
      GotKept(x, mark);
      assert Got(x, mark) in ms';
    }
    forall k | HasWaiting(ms, k) ensures HasWaiting(ms', k) {
      var x :| x in ms && x.serial == k && Waiting(x);
      GotKept(x, mark);
      assert Got(x, mark) in ms';
    }
    forall id | HasOpen(ms, id) ensures HasOpen(ms', id) {
      var x :| x in ms && x.id == id && Open(x);
      GotKept(x, mark);
      assert Got(x, mark) in ms';
    }
  }

  /** Most operations change the list and leave the lookups alone. */
  lemma SupportedKeepsInv(h: Helper, h': Helper)
    requires Inv(h) && Core(h'.machines, h'.nextSerial) && Supports(h.machines, h'.machines)
    requires h'.activityIDs == h.activityIDs && h'.nexusIDs == h.nexusIDs
    requires h'.unscheduledNexus == h.unscheduledNexus
    requires h.nextSerial <= h'.nextSerial && Evolves(h.machines, h'.machines, h.nextSerial)
    ensures Keeps(h, h')
  {
  }

  lemma EvolvesTransitive(a: seq<Machine>, b: seq<Machine>, c: seq<Machine>, n: nat, k: nat)
    requires Evolves(a, b, n) && Evolves(b, c, k) && n <= k
    ensures Evolves(a, c, n)
  {
    forall x | x in c && x.serial < n ensures exists m | m in a :: Follows(m, x) {
      var y :| y in b && Follows(y, x);
      var m :| m in a && Follows(m, y);
      assert Follows(m, x);
    }
  }

  lemma KeepsTransitive(a: Helper, b: Helper, c: Helper)
    requires Keeps(a, b) && Keeps(b, c)
    ensures Keeps(a, c)
  {
    EvolvesTransitive(a.machines, b.machines, c.machines, a.nextSerial, b.nextSerial);
  }

  lemma EvolvesReplaced(ms: seq<Machine>, m: Machine, r: Option<Machine>, ms': seq<Machine>, n: nat)
    requires Replaced(ms, m, r, ms') && m in ms && (r.Some? ==> Follows(m, r.value))
    ensures Evolves(ms, ms', n)
  {
    forall x | x in ms' ensures exists y | y in ms :: Follows(y, x) {
      if x in ms { assert Follows(x, x); } else { assert Follows(m, x); }
    }
  }

  lemma EvolvesSubset(ms: seq<Machine>, ms': seq<Machine>, n: nat)
    requires forall x | x in ms' && x.serial < n :: x in ms
    ensures Evolves(ms, ms', n)
  {
    forall x | x in ms' && x.serial < n ensures exists y | y in ms :: Follows(y, x) {
      assert Follows(x, x);
    }
  }

  lemma FireKeepsInv(h: Helper, id: CommandID, e: MachineEvent)
    requires Inv(h) && FireOn(h, id, e).Ok? && Delivered(id.ctype, e) && id.ctype != NexusType
    requires id.ctype == ActivityType ==> e in {EvCancel, EvInitiated, EvCancelInitiated}
    ensures Keeps(h, FireOn(h, id, e).value)
  {
    var h' := FireOn(h, id, e).value;
    var m := FireEffect(h.machines, h.nextSerial, id, e);
    SupportReplaced(h.machines, m, Moved(m, e), h'.machines);
    EvolvesReplaced(h.machines, m, Moved(m, e), h'.machines, h.nextSerial);
    SupportedKeepsInv(h, h');
  }

  lemma AddKeepsInv(h: Helper, id: CommandID, scheduledID: int)
    requires Inv(h) && AddCommand(h, id, scheduledID).Ok?
    ensures Keeps(h, AddCommand(h, id, scheduledID).value)
  {
    var h' := AddCommand(h, id, scheduledID).value;
    AddEffect(h, id, scheduledID);
    SupportSuperset(h.machines, h'.machines);
    EvolvesSubset(h.machines, h'.machines, h.nextSerial);
    SupportedKeepsInv(h, h');
  }

  lemma ScheduleActivityKeepsInv(h: Helper, scheduleID: int, a: string)
    requires Inv(h) && OnCall(h, ScheduleActivity(scheduleID, a)).Ok?
    ensures Keeps(h, OnCall(h, ScheduleActivity(scheduleID, a)).value)
  {
    var h' := OnCall(h, ScheduleActivity(scheduleID, a)).value;
    AddKeepsInv(h, ActivityID(a), scheduleID);
    assert h'.machines[|h.machines|] in h'.machines;
    assert HasActivity(h'.machines, a);
    forall e | e in h.activityIDs ensures h.activityIDs[e] != a {
      assert HasActivity(h.machines, h.activityIDs[e]);
    }
  }

  lemma QueueGrows(h: Helper, h': Helper, serial: nat)
    requires NexusBound(h) && h' == h.(unscheduledNexus := h.unscheduledNexus + [serial])
    requires HasWaiting(h.machines, serial)
    requires forall k | 0 <= k < |h.unscheduledNexus| :: h.unscheduledNexus[k] < serial
    ensures NexusBound(h')
  {}

  lemma ScheduleNexusKeepsInv(h: Helper, seqNo: int)
    requires Inv(h) && ScheduleNexusNamed(h, seqNo).Ok?
    ensures Keeps(h, ScheduleNexusNamed(h, seqNo).value)
  {
    var h' := ScheduleNexusNamed(h, seqNo).value;
    var h1 := AddCommand(h, NexusID(seqNo), 0).value;
    AddKeepsInv(h, NexusID(seqNo), 0);
    var m := h1.machines[|h.machines|];
    assert m in h1.machines && Waiting(m);
    forall k | 0 <= k < |h.unscheduledNexus| ensures h.unscheduledNexus[k] < h.nextSerial {
      assert HasWaiting(h.machines, h.unscheduledNexus[k]);
    }
    QueueGrows(h1, h', h.nextSerial);
  }

  lemma CancelWithCommandKeepsInv(h: Helper, id: CommandID, cancelID: CommandID, scheduledID: int)
    requires Inv(h) && id.ctype in {ActivityType, TimerType} && cancelID != id
    requires CancelWithCommand(h, id, cancelID, scheduledID).Ok?
    ensures Keeps(h, CancelWithCommand(h, id, cancelID, scheduledID).value)
  {
    var i := Find(h.machines, id).value;
    if h.machines[i].state in {Created, CommandSent, Initiated} {
      var h1 := AddCommand(h, cancelID, scheduledID).value;
      AddKeepsInv(h, cancelID, scheduledID);
      FireKeepsInv(h1, id, EvCancel);
      KeepsTransitive(h, h1, FireOn(h1, id, EvCancel).value);
    } else {
      FireKeepsInv(h, id, EvCancel);
    }
  }

  lemma MoveToBackEffect(ms: seq<Machine>, n: nat, i: nat, m: Machine)
    requires Core(ms, n) && i < |ms| && m == ms[i].(state := m.state) && Sound(m, n)
    ensures Core(RemoveAt(ms, i) + [m], n)
    ensures Replaced(ms, ms[i], Some(m), RemoveAt(ms, i) + [m])
  {
    RemoveEffect(ms, i);
    var r := RemoveAt(ms, i);
    forall x | x in r ensures x.id != m.id && x.serial != m.serial {
      assert x in ms && x != ms[i];
    }
    forall x | x in r + [m] ensures x == m || x in ms {
    }
  }

  lemma CancelChildKeepsInv(h: Helper, id: CommandID)
    requires Inv(h) && id.ctype == ChildType && CancelChildNamed(h, id).Ok?
    ensures Keeps(h, CancelChildNamed(h, id).value)
  {
    var i := Find(h.machines, id).value;
    if h.machines[i].state == Started {
      var h' := CancelChildNamed(h, id).value;
      var m := h.machines[i].(state := CanceledAfterStarted);
      assert h.machines[i] in h.machines;
      MoveToBackEffect(h.machines, h.nextSerial, i, m);
      SupportReplaced(h.machines, h.machines[i], Some(m), h'.machines);
      EvolvesReplaced(h.machines, h.machines[i], Some(m), h'.machines, h.nextSerial);
      SupportedKeepsInv(h, h');
    } else {
      FireKeepsInv(h, id, EvCancel);
    }
  }

  lemma CancelNexusKeepsInv(h: Helper, i: nat)
    requires Inv(h) && i < |h.machines| && h.machines[i].id.ctype == NexusType && CancelNexusAt(h, i).Ok?
    ensures Keeps(h, CancelNexusAt(h, i).value)
  {
    var m := h.machines[i];
    if !(m.cancelation.Some? || m.state == Completed) {
      var id := CancelNexusID(m.scheduledID);
      AddKeepsInv(h, id, m.scheduledID);
      var h1 := AddCommand(h, id, m.scheduledID).value;
      AddEffect(h, id, m.scheduledID);
      var m' := m.(cancelation := Some(h.nextSerial));
      var h2 := h1.(machines := h1.machines[i := m']);
      UpdateEffect(h1.machines, i, m');
      SupportReplaced(h1.machines, m, Some(m'), h2.machines);
      EvolvesReplaced(h1.machines, m, Some(m'), h2.machines, h1.nextSerial);
      NewCancelationSound(h, h1, h2, m, m', id);
      SupportedKeepsInv(h1, h2);
      KeepsTransitive(h, h1, h2);
      if m.state == Created {
        FireKeepsInv(h2, id, EvCompletion);
        KeepsTransitive(h, h2, FireOn(h2, id, EvCompletion).value);
      }
    } else {
      EvolvesSubset(h.machines, h.machines, h.nextSerial);
    }
  }

  lemma NewCancelationSound(h: Helper, h1: Helper, h2: Helper, m: Machine, m': Machine, id: CommandID)
    requires Core(h.machines, h.nextSerial) && Core(h1.machines, h1.nextSerial)
    requires h1.nextSerial == h2.nextSerial == h.nextSerial + 1 && id.ctype == CancelNexusType
    requires forall x :: x in h1.machines <==> x in h.machines || x == NewMachine(h, id, m.scheduledID)
    requires m in h.machines && m' == m.(cancelation := Some(h.nextSerial))
    requires Replaced(h1.machines, m, Some(m'), h2.machines) && Distinct(h2.machines)
    ensures Core(h2.machines, h2.nextSerial)
  {
    forall x, c | x in h2.machines && c in h2.machines && x.cancelation == Some(c.serial)
      ensures c.id.ctype == CancelNexusType
    {
      assert x == m' || (x in h.machines && x.serial != m.serial) || x == NewMachine(h, id, m.scheduledID);
      if x == m' {
        assert c.serial == h.nextSerial;
      } else if c == m' {
        assert m in h1.machines && x in h1.machines && x.cancelation == Some(m.serial);
      }
    }
  }

  lemma ScheduledAtKeepsCore(ms: seq<Machine>, n: nat, i: nat, eventID: int)
    requires Core(ms, n) && i < |ms| && Waiting(ms[i])
    ensures var m := ms[i].(scheduledID := eventID);
            Core(ms[i := m], n) && Replaced(ms, ms[i], Some(m), ms[i := m])
  {
    assert ms[i] in ms && Sound(ms[i], n);
    UpdateEffect(ms, i, ms[i].(scheduledID := eventID));
  }

  lemma ReplacedTwice(ms: seq<Machine>, m: Machine, m1: Machine, ms1: seq<Machine>, r: Option<Machine>,
                      ms2: seq<Machine>)
    requires Distinct(ms) && m in ms && m1.id == m.id
    requires Replaced(ms, m, Some(m1), ms1) && Replaced(ms1, m1, r, ms2)
    ensures Replaced(ms, m, r, ms2)
  {
    forall x | x in ms && x != m ensures x != m1 {
      assert x.id != m.id;
    }
  }

  lemma BindNexusEffect(h: Helper, eventID: int) returns (m: Machine)
    requires Inv(h) && BindNexus(h, eventID).Ok?
    ensures var h' := BindNexus(h, eventID).value;
            && m in h.machines && m.serial == h.unscheduledNexus[0] && Waiting(m)
            && h'.nexusIDs == h.nexusIDs[eventID := m.id]
            && Core(h'.machines, h.nextSerial)
            && Replaced(h.machines, m, Some(m.(scheduledID := eventID, state := Initiated)), h'.machines)
  {
    assert HasWaiting(h.machines, h.unscheduledNexus[0]);
    var i := FindSerial(h.machines, h.unscheduledNexus[0]).value;
    m := h.machines[i];
    assert Waiting(m);
    var ms := h.machines[i := m.(scheduledID := eventID)];
    ScheduledAtKeepsCore(h.machines, h.nextSerial, i, eventID);
    FireAtEffect(ms, h.nextSerial, i, EvInitiated);
    ReplacedTwice(h.machines, m, ms[i], ms, Moved(ms[i], EvInitiated), BindNexus(h, eventID).value.machines);
  }

  /** What a waiting operation that becomes open does to the other machines: nothing. */
  lemma OpenedSupports(ms: seq<Machine>, m: Machine, m': Machine, ms': seq<Machine>)
    requires Distinct(ms) && m in ms && Replaced(ms, m, Some(m'), ms') && Waiting(m) && Open(m')
    ensures forall a | HasActivity(ms, a) :: HasActivity(ms', a)
    ensures forall k | HasWaiting(ms, k) && k != m.serial :: HasWaiting(ms', k)
    ensures forall id | HasOpen(ms, id) :: HasOpen(ms', id) && id != m.id
  {
    forall a | HasActivity(ms, a) ensures HasActivity(ms', a) {
      var x :| x in ms && x.id == ActivityID(a);
      assert x in ms';
    }
    forall k | HasWaiting(ms, k) && k != m.serial ensures HasWaiting(ms', k) {
      var x :| x in ms && x.serial == k && Waiting(x);
      assert x in ms';
    }
    forall id | HasOpen(ms, id) ensures HasOpen(ms', id) && id != m.id {
      var x :| x in ms && x.id == id && Open(x);
      assert x in ms';
    }
  }

  lemma BindNexusKeepsInv(h: Helper, eventID: int)
    requires Inv(h) && BindNexus(h, eventID).Ok?
    ensures Keeps(h, BindNexus(h, eventID).value)
  {
    var h' := BindNexus(h, eventID).value;
    var m := BindNexusEffect(h, eventID);
    var m' := m.(scheduledID := eventID, state := Initiated);
    EvolvesReplaced(h.machines, m, Some(m'), h'.machines, h.nextSerial);
    OpenedSupports(h.machines, m, m', h'.machines);
    assert ActivitiesBound(h');
    BoundNexusBound(h, h', eventID, m, m');
  }

  /** Taking the oldest operation off the unscheduled list and entering it into the event lookup. */
  lemma BoundNexusBound(h: Helper, h': Helper, eventID: int, m: Machine, m': Machine)
    requires NexusBound(h) && h.unscheduledNexus != [] && m.serial == h.unscheduledNexus[0]
    requires h'.unscheduledNexus == h.unscheduledNexus[1..]
    requires h'.nexusIDs == h.nexusIDs[eventID := m.id]
    requires m' in h'.machines && m'.id == m.id && Open(m')
    requires forall k | HasWaiting(h.machines, k) && k != m.serial :: HasWaiting(h'.machines, k)
    requires forall id | HasOpen(h.machines, id) :: HasOpen(h'.machines, id) && id != m.id
    ensures NexusBound(h')
  {
    assert HasOpen(h'.machines, m.id);
    forall k | 0 <= k < |h'.unscheduledNexus| ensures HasWaiting(h'.machines, h'.unscheduledNexus[k]) {
      assert h'.unscheduledNexus[k] == h.unscheduledNexus[k + 1] && HasWaiting(h.machines, h.unscheduledNexus[k + 1]);
    }
    forall e | e in h.nexusIDs ensures HasOpen(h'.machines, h.nexusIDs[e]) && h.nexusIDs[e] != m.id {
      assert HasOpen(h.machines, h.nexusIDs[e]);
    }
  }

  lemma NexusStartedKeepsInv(h: Helper, eventID: int)
    requires Inv(h) && eventID in h.nexusIDs && FireOn(h, h.nexusIDs[eventID], EvStarted).Ok?
    ensures Keeps(h, FireOn(h, h.nexusIDs[eventID], EvStarted).value)
  {
    var id := h.nexusIDs[eventID];
    assert HasOpen(h.machines, id);
    var h' := FireOn(h, id, EvStarted).value;
    var m := FireEffect(h.machines, h.nextSerial, id, EvStarted);
    SupportReplaced(h.machines, m, Moved(m, EvStarted), h'.machines);
    EvolvesReplaced(h.machines, m, Moved(m, EvStarted), h'.machines, h.nextSerial);
    SupportedKeepsInv(h, h');
  }

  lemma NexusCompletedKeepsInv(h: Helper, eventID: int)
    requires Inv(h) && eventID in h.nexusIDs && FireOn(h, h.nexusIDs[eventID], EvCompletion).Ok?
    ensures var h' := FireOn(h, h.nexusIDs[eventID], EvCompletion).value;
            Keeps(h, h'.(nexusIDs := h'.nexusIDs - {eventID}))
  {
    var id := h.nexusIDs[eventID];
    assert HasOpen(h.machines, id);
    var h' := FireOn(h, id, EvCompletion).value;
    var m := FireEffect(h.machines, h.nextSerial, id, EvCompletion);
    EvolvesReplaced(h.machines, m, Moved(m, EvCompletion), h'.machines, h.nextSerial);
    forall f | f in h.nexusIDs && f != eventID ensures HasOpen(h'.machines, h.nexusIDs[f]) {
      var x :| x in h.machines && x.id == h.nexusIDs[f] && Open(x);
      assert x != m && x in h'.machines;
    }
    forall k | HasWaiting(h.machines, k) ensures HasWaiting(h'.machines, k) {
      var x :| x in h.machines && x.serial == k && Waiting(x);
      assert x != m && x in h'.machines;
    }
    forall a | HasActivity(h.machines, a) ensures HasActivity(h'.machines, a) {
      var x :| x in h.machines && x.id == ActivityID(a);
      assert x != m && x in h'.machines;
    }
  }

  lemma FireCancelationKeepsInv(h: Helper, eventID: int, e: MachineEvent)
    requires Inv(h) && FireCancelation(h, eventID, e).Ok? && e in {EvInitiated, EvCompletion}
    ensures Keeps(h, FireCancelation(h, eventID, e).value)
  {
    var h' := FireCancelation(h, eventID, e).value;
    var m := h.machines[Find(h.machines, h.nexusIDs[eventID]).value];
    var i := FindSerial(h.machines, m.cancelation.value).value;
    var c := h.machines[i];
    assert m in h.machines && c in h.machines;
    assert c.id.ctype == CancelNexusType;
    FireAtEffect(h.machines, h.nextSerial, i, e);
    SupportReplaced(h.machines, c, Moved(c, e), h'.machines);
    EvolvesReplaced(h.machines, c, Moved(c, e), h'.machines, h.nextSerial);
    SupportedKeepsInv(h, h');
  }

  lemma DropCancelKeepsInv(h: Helper, cancelID: CommandID)
    requires Inv(h) && cancelID.ctype in {CancelTimerType, CancelActivityType}
    ensures Keeps(h, h.(machines := RemoveID(h.machines, cancelID)))
  {
    RemoveIDEffect(h.machines, h.nextSerial, cancelID);
    SupportSuperset(h.machines, RemoveID(h.machines, cancelID));
    EvolvesSubset(h.machines, RemoveID(h.machines, cancelID), h.nextSerial);
    SupportedKeepsInv(h, h.(machines := RemoveID(h.machines, cancelID)));
  }

  /** Whatever happens to one activity, the other activities and all operations stay. */
  lemma OneActivitySupports(ms: seq<Machine>, m: Machine, r: Option<Machine>, ms': seq<Machine>)
    requires Replaced(ms, m, r, ms') && m.id.ctype == ActivityType
    ensures forall a | HasActivity(ms, a) && ActivityID(a) != m.id :: HasActivity(ms', a)
    ensures forall k | HasWaiting(ms, k) :: HasWaiting(ms', k)
    ensures forall id | HasOpen(ms, id) :: HasOpen(ms', id)
  {
    forall a | HasActivity(ms, a) && ActivityID(a) != m.id ensures HasActivity(ms', a) {
      var x :| x in ms && x.id == ActivityID(a);
      assert x in ms';
    }
    forall k | HasWaiting(ms, k) ensures HasWaiting(ms', k) {
      var x :| x in ms && x.serial == k && Waiting(x);
      assert x in ms';
    }
    forall id | HasOpen(ms, id) ensures HasOpen(ms', id) {
      var x :| x in ms && x.id == id && Open(x);
      assert x in ms';
    }
  }

  /** Closing an activity may remove its machine, and always removes its lookup entry. */
  lemma CloseActivityKeepsInv(h: Helper, eventID: int, e: MachineEvent)
    requires Inv(h) && eventID in h.activityIDs && e in {EvCompletion, EvCanceled}
    requires FireOn(h, ActivityID(h.activityIDs[eventID]), e).Ok?
    ensures var h' := FireOn(h, ActivityID(h.activityIDs[eventID]), e).value;
            Keeps(h, h'.(activityIDs := h'.activityIDs - {eventID}))
  {
    var id := ActivityID(h.activityIDs[eventID]);
    var h' := FireOn(h, id, e).value;
    var h'' := h'.(activityIDs := h'.activityIDs - {eventID});
    var m := FireEffect(h.machines, h.nextSerial, id, e);
    EvolvesReplaced(h.machines, m, Moved(m, e), h'.machines, h.nextSerial);
    OneActivitySupports(h.machines, m, Moved(m, e), h'.machines);
    forall f | f in h''.activityIDs ensures HasActivity(h''.machines, h''.activityIDs[f]) {
      assert HasActivity(h.machines, h.activityIDs[f]) && h.activityIDs[f] != h.activityIDs[eventID];
    }
    assert NexusBound(h'');
  }

  lemma CancelActivityKeepsInv(h: Helper, id: CommandID)
    requires Inv(h) && id.ctype == ActivityType && CancelActivityNamed(h, id).Ok?
    ensures Keeps(h, CancelActivityNamed(h, id).value)
  {
    var e := h.machines[Find(h.machines, id).value].scheduledID;
    CancelWithCommandKeepsInv(h, id, CancelActivityID(e), e);
  }

  predicate IsCancel(call: Call) {
    call.CancelActivity? || call.CancelTimer? || call.CancelChild? || call.CancelNexus?
  }

  lemma CancelKeepsInv(h: Helper, call: Call)
    requires Inv(h) && OnCall(h, call).Ok? && IsCancel(call)
    ensures Keeps(h, OnCall(h, call).value)
  {
    if call.CancelActivity? {
      CancelActivityKeepsInv(h, ActivityID(call.activityID));
    } else if call.CancelTimer? {
      CancelWithCommandKeepsInv(h, TimerID(call.timerID), CancelTimerID(Text(call.timerID)), 0);
    } else if call.CancelChild? {
      CancelChildKeepsInv(h, ChildID(call.workflowID));
    } else {
      CancelNexusKeepsInv(h, Find(h.machines, NexusID(call.seqNo)).value);
    }
  }

  /** Calls that add a command and do nothing else. */
  lemma PlainKeepsInv(h: Helper, call: Call)
    requires Inv(h) && OnCall(h, call).Ok? && PlainID(call).Some?
    ensures Keeps(h, OnCall(h, call).value)
  {
    AddKeepsInv(h, PlainID(call).value, 0);
    assert OnCall(h, call) == AddCommand(h, PlainID(call).value, 0);
  }

  /** Only the list matters when nothing but the counter and the other lookups change. */
  lemma SameListKeeps(h: Helper, h': Helper)
    requires Inv(h) && h'.machines == h.machines && h'.nextSerial == h.nextSerial
    requires h'.activityIDs == h.activityIDs && h'.nexusIDs == h.nexusIDs && h'.unscheduledNexus == h.unscheduledNexus
    ensures Keeps(h, h')
  {
    EvolvesSubset(h.machines, h.machines, h.nextSerial);
  }

  lemma CallKeepsInv(h: Helper, call: Call)
    requires Inv(h) && OnCall(h, call).Ok?
    ensures Keeps(h, OnCall(h, call).value)
  {
    if IsCancel(call) {
      CancelKeepsInv(h, call);
    } else if PlainID(call).Some? {
      PlainKeepsInv(h, call);
    } else if call.ScheduleActivity? {
      ScheduleActivityKeepsInv(h, call.scheduleID, call.activityID);
    } else if call.ScheduleNexus? {
      ScheduleNexusKeepsInv(h, call.seqNo);
    } else if call.StartChild? && Find(h.machines, ChildID(call.workflowID)).None? {
      AddKeepsInv(h, ChildID(call.workflowID), 0);
    } else {
      SameListKeeps(h, OnCall(h, call).value);
    }
  }

  lemma PrepareLookups(h: Helper, event: Event)
    ensures var h' := Prepare(h, event);
            && h'.nextSerial == h.nextSerial && h'.activityIDs == h.activityIDs
            && h'.nexusIDs == h.nexusIDs && h'.unscheduledNexus == h.unscheduledNexus
            && (!event.ActivityClosed? && !event.TimerFired? ==> h'.machines == h.machines)
  {}

  lemma PrepareKeepsInv(h: Helper, event: Event)
    requires Inv(h)
    ensures Keeps(h, Prepare(h, event))
    ensures Prepare(h, event).activityIDs == h.activityIDs && Prepare(h, event).nexusIDs == h.nexusIDs
  {
    PrepareLookups(h, event);
    if event.ActivityClosed? {
      DropCancelKeepsInv(h, CancelActivityID(event.eventID));
    } else if event.TimerFired? {
      DropCancelKeepsInv(h, CancelTimerID(Text(event.timerID)));
    } else {
      SameListKeeps(h, Prepare(h, event));
    }
  }

  /** Each history event calls a method that its machine expects. */
  lemma RouteDelivers(h: Helper, event: Event)
    requires Inv(h) && Routed(event) && Route(h, event).Ok?
    ensures var r := Route(h, event).value;
            && Delivered(r.0.ctype, r.1)
            && (r.0.ctype == NexusType <==> event.NexusStarted? || event.NexusCompleted?)
            && (r.0.ctype == ActivityType ==>
                  r.1 in {EvInitiated, EvCancelInitiated} || event.ActivityClosed? || event.ActivityCanceled?)
  {
    if event.NexusStarted? || event.NexusCompleted? {
      assert HasOpen(h.machines, h.nexusIDs[event.eventID]);
    }
  }

  /** Delivery changes the list as the event method does. */
  lemma DeliverFires(h: Helper, event: Event)
    requires Routed(event) && Deliver(h, event).Ok?
    ensures Route(h, event).Ok? && Route(h, event).value.1 != EvSent
    ensures var r := Route(h, event).value;
            && FireOn(Prepare(h, event), r.0, r.1).Ok?
            && Deliver(h, event).value == Forget(FireOn(Prepare(h, event), r.0, r.1).value, event)
            && Deliver(h, event).value.machines == Fire(Prepare(h, event).machines, r.0, r.1).value
  {}

  /** The events after which a lookup entry is obsolete, and the start of a Nexus operation. */
  predicate ByLookup(event: Event) {
    event.ActivityClosed? || event.ActivityCanceled? || event.NexusStarted? || event.NexusCompleted?
  }

  lemma LookupEventKeepsInv(h: Helper, event: Event)
    requires Inv(h) && Routed(event) && ByLookup(event) && Route(h, event).Ok?
    requires FireOn(h, Route(h, event).value.0, Route(h, event).value.1).Ok?
    ensures Keeps(h, Forget(FireOn(h, Route(h, event).value.0, Route(h, event).value.1).value, event))
  {
    if event.ActivityClosed? {
      CloseActivityKeepsInv(h, event.eventID, EvCompletion);
    } else if event.ActivityCanceled? {
      CloseActivityKeepsInv(h, event.eventID, EvCanceled);
    } else if event.NexusStarted? {
      NexusStartedKeepsInv(h, event.eventID);
    } else {
      NexusCompletedKeepsInv(h, event.eventID);
    }
  }

  lemma PreparedRoute(h: Helper, event: Event)
    requires Routed(event) && ByLookup(event)
    ensures Route(Prepare(h, event), event) == Route(h, event)
  {}

  lemma PreparedDeliverKeeps(h: Helper, event: Event)
    requires Inv(h) && Inv(Prepare(h, event)) && Routed(event) && Deliver(h, event).Ok?
    ensures Keeps(Prepare(h, event), Deliver(h, event).value)
  {
    DeliverFires(h, event);
    if ByLookup(event) {
      PreparedRoute(h, event);
      LookupEventKeepsInv(Prepare(h, event), event);
    } else {
      RouteDelivers(h, event);
      FireKeepsInv(Prepare(h, event), Route(h, event).value.0, Route(h, event).value.1);
    }
  }

  lemma DeliverKeepsInv(h: Helper, event: Event)
    requires Inv(h) && Routed(event) && Deliver(h, event).Ok?
    ensures Keeps(h, Deliver(h, event).value)
  {
    PrepareKeepsInv(h, event);
    PreparedDeliverKeeps(h, event);
    KeepsTransitive(h, Prepare(h, event), Deliver(h, event).value);
  }

  lemma EventKeepsInv(h: Helper, event: Event)
    requires Inv(h) && OnEvent(h, event).Ok?
    ensures Keeps(h, OnEvent(h, event).value)
  {
    if event.WorkflowTaskStarted? || event.VersionMarkerRecorded? {
      SameListKeeps(h, OnEvent(h, event).value);
    } else if event.NexusScheduled? {
      BindNexusKeepsInv(h, event.eventID);
    } else if event.NexusCancelRequested? {
      FireCancelationKeepsInv(h, event.eventID, EvInitiated);
    } else if event.NexusCancelDelivered? {
      FireCancelationKeepsInv(h, event.eventID, EvCompletion);
    } else {
      DeliverKeepsInv(h, event);
    }
  }

  /** Sending changes the state of a machine and nothing else, and no cancelled one comes back. */
  lemma GotFollows(m: Machine, mark: bool)
    ensures Follows(m, Got(m, mark))
  {}

  lemma EvolvesAfterGet(ms: seq<Machine>, n: nat, mark: bool)
    ensures Evolves(ms, AfterGet(ms, mark), n)
  {
    AfterGetMembers(ms, mark);
    forall x | x in AfterGet(ms, mark) ensures exists m | m in ms :: Follows(m, x) {
      var m :| m in ms && x == Got(m, mark) && x.state != Completed;
      GotFollows(m, mark);
    }
  }

  /** Every operation of the helper keeps the two indexes and all lookups consistent. */
  lemma StepKeepsInv(h: Helper, op: Op)
    requires Inv(h) && Step(h, op).Ok?
    ensures Keeps(h, Step(h, op).value)
  {
    match op
    case Invoke(call) => CallKeepsInv(h, call);
    case Apply(event) => EventKeepsInv(h, event);
    case GetCommands(mark) =>
      AfterGetEffect(h.machines, h.nextSerial, mark);
      SupportAfterGet(h.machines, h.nextSerial, mark);
      EvolvesAfterGet(h.machines, h.nextSerial, mark);
      SupportedKeepsInv(h, h.(machines := AfterGet(h.machines, mark)));
  }

  /** Index agreement over whole runs: from an empty helper, after any sequence of operations. */
  lemma {:induction false} RunKeepsInv(h: Helper, ops: seq<Op>)
    requires Inv(h) && Run(h, ops).Ok?
    ensures Keeps(h, Run(h, ops).value)
    decreases |ops|
  {
    if ops == [] {
      EvolvesSubset(h.machines, h.machines, h.nextSerial);
    } else {
      var h1 := Step(h, ops[0]).value;
      StepKeepsInv(h, ops[0]);
      RunKeepsInv(h1, ops[1..]);
      KeepsTransitive(h, h1, Run(h, ops).value);
    }
  }
}
