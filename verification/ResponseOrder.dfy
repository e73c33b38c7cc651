/** The response of a workflow task, command by command: what was pending, then what the task issued, in
    order, without what it took back. */
module ResponseOrder {
  import opened Basics
  import opened CommandMachine
  import opened EventCounter
  import opened HelperState
  import opened Invariants
  import CommandRuns
  import opened IdPrediction
  import opened IdPosition

  /** What workflow code does in a live workflow task: a call to the helper, a first `GetVersion` call for
      a change ID, or a `MutableSideEffect` call that finds its value unchanged. */
  datatype Act = Do(call: Call) | GetVersion(marker: VersionMarker, upsertID: string) | Unchanged

  /** The ID of the marker command of a `GetVersion` call. */
  function VersionID(marker: VersionMarker): string {
    "Version_" + marker.changeID
  }

  function OnAct(h: Helper, act: Act): Result<Helper> {
    match act
    case Do(call) => OnCall(h, call)
    case GetVersion(marker, upsertID) =>
      var h' :- OnCall(h, RecordMarker(VersionID(marker)));
      if marker.searchAttrUpdated then OnCall(h', UpsertSearchAttributes(upsertID)) else Ok(h')
    case Unchanged => Ok(h)
  }

  function RunActs(h: Helper, acts: seq<Act>): Result<Helper>
    decreases |acts|
  {
    if acts == [] then Ok(h)
    else
      var h' :- OnAct(h, acts[0]);
      RunActs(h', acts[1..])
  }

  /** The serial of a machine and the command that it sends. */
  type Tag = (nat, Command)

  function TagOf(m: Machine): Tag
    requires Emittable(m)
  {
    (m.serial, CommandOf(m).value)
  }

  /** The machines with a command to send, in list order. */
  function Tags(ms: seq<Machine>): seq<Tag> {
    if ms == [] then []
    else if Emittable(ms[0]) then [TagOf(ms[0])] + Tags(ms[1..])
    else Tags(ms[1..])
  }

  /** The machine whose command a call takes back. */
  function TakenBy(h: Helper, call: Call): Option<nat> {
    match call
    case CancelChild(w) =>
      (match Find(h.machines, ChildID(w))
       case Some(i) => if h.machines[i].state == Created then Some(h.machines[i].serial) else None
       case None => None)
    case CancelNexus(n) =>
      (match Find(h.machines, NexusID(n))
       case Some(i) =>
         if h.machines[i].state == Created && h.machines[i].cancelation.None? then Some(h.machines[i].serial) else None
       case None => None)
    case _ => None
  }

  function TakenAt(h: Helper, act: Act): Option<nat> {
    if act.Do? then TakenBy(h, act.call) else None
  }

  /** The task takes back the command of this machine. */
  predicate TakenIn(h: Helper, acts: seq<Act>, serial: nat)
    requires RunActs(h, acts).Ok?
    decreases |acts|
  {
    acts != []
    && (TakenAt(h, acts[0]) == Some(serial) || TakenIn(OnAct(h, acts[0]).value, acts[1..], serial))
  }

  function Without(ts: seq<Tag>, gone: Option<nat>): seq<Tag> {
    if ts == [] then []
    else if Some(ts[0].0) == gone then Without(ts[1..], gone)
    else [ts[0]] + Without(ts[1..], gone)
  }

  /** What the task leaves of these commands. */
  function Left(h: Helper, acts: seq<Act>, ts: seq<Tag>): seq<Tag>
    requires RunActs(h, acts).Ok?
    decreases |ts|
  {
    if ts == [] then []
    else if TakenIn(h, acts, ts[0].0) then Left(h, acts, ts[1..])
    else [ts[0]] + Left(h, acts, ts[1..])
  }

  function VersionTags(h: Helper, marker: VersionMarker, upsertID: string): seq<Tag> {
    var m := (h.nextSerial, RecordMarkerCommand(Text(VersionID(marker))));
    if marker.searchAttrUpdated then [m, (h.nextSerial + 1, UpsertWorkflowSearchAttributes(Text(upsertID)))] else [m]
  }

  /** A timer or activity whose cancellation was not requested yet. */
  predicate Cancellable(h: Helper, id: CommandID) {
    StateOf(h.machines, id) in {Some(Created), Some(CommandSent), Some(Initiated)}
  }

  function Found(h: Helper, id: CommandID): Machine
    requires Find(h.machines, id).Some?
  {
    h.machines[Find(h.machines, id).value]
  }

  /** The command that the server is to get for a call, if any. */
  function CommandFor(h: Helper, call: Call): Option<Command>
    requires OnCall(h, call).Ok?
  {
    match call
    case GetNextID => None
    case ScheduleActivity(_, a) => Some(ScheduleActivityTask(Text(a)))
    case StartTimer(t) => Some(StartTimerCommand(Text(t)))
    case StartChild(w) =>
      if Find(h.machines, ChildID(w)).Some? then None else Some(StartChildWorkflowExecution(Text(w)))
    case ScheduleNexus(n) => Some(ScheduleNexusOperation(Number(n)))
    case CancelActivity(a) =>
      if Cancellable(h, ActivityID(a))
      then Some(RequestCancelActivityTask(Number(Found(h, ActivityID(a)).scheduledID))) else None
    case CancelTimer(t) => if Cancellable(h, TimerID(t)) then Some(CancelTimerCommand(Text(t))) else None
    case CancelChild(w) =>
      if StateOf(h.machines, ChildID(w)) == Some(Started) then Some(RequestCancelChildWorkflow(Text(w))) else None
    case CancelNexus(n) =>
      if Found(h, NexusID(n)).cancelation.None? && Found(h, NexusID(n)).state in {CommandSent, Initiated, Started}
      then Some(RequestCancelNexusOperation(Number(Found(h, NexusID(n)).scheduledID))) else None
    case CancelExternal(c) => Some(RequestCancelExternalWorkflowExecution(Text(c)))
    case SignalExternal(signalID) => Some(SignalExternalWorkflowExecution(Text(signalID)))
    case RecordMarker(m) => Some(RecordMarkerCommand(Text(m)))
    case UpsertSearchAttributes(u) => Some(UpsertWorkflowSearchAttributes(Text(u)))
    case ModifyProperties(c) => Some(ModifyWorkflowProperties(Text(c)))
    case AddProtocolMessage(m) => Some(ProtocolMessage(Text(m)))
  }

  function IssuedBy(h: Helper, call: Call): seq<Tag>
    requires OnCall(h, call).Ok?
  {
    match CommandFor(h, call)
    case None => []
    case Some(c) => [(if call.CancelChild? then Found(h, ChildID(call.workflowID)).serial else h.nextSerial, c)]
  }

  function IssuedTags(h: Helper, act: Act): seq<Tag>
    requires OnAct(h, act).Ok?
  {
    match act
    case Do(call) => IssuedBy(h, call)
    case GetVersion(marker, upsertID) => VersionTags(h, marker, upsertID)
    case Unchanged => []
  }

  /** What the task issues and does not take back. */
  function SentBy(h: Helper, acts: seq<Act>): seq<Tag>
    requires RunActs(h, acts).Ok?
    decreases |acts|
  {
    if acts == [] then []
    else
      var h' := OnAct(h, acts[0]).value;
      Left(h', acts[1..], IssuedTags(h, acts[0])) + SentBy(h', acts[1..])
  }

  // ---------------------------------------------------------------- the list of tags

  lemma {:induction false} TagsAppend(a: seq<Machine>, b: seq<Machine>)
    ensures Tags(a + b) == Tags(a) + Tags(b)
  {
    if a == [] {
      assert a + b == b;
    } else {
      assert (a + b)[0] == a[0] && (a + b)[1..] == a[1..] + b;
      TagsAppend(a[1..], b);
    }
  }

  lemma TagsSingle(m: Machine)
    ensures Tags([m]) == if Emittable(m) then [TagOf(m)] else []
  {
    assert [m][1..] == [];
  }

  lemma TagsSplit(ms: seq<Machine>, i: nat, x: Machine)
    requires i < |ms|
    ensures Tags(ms[i := x]) == Tags(ms[..i]) + Tags([x]) + Tags(ms[i + 1..])
  {
    assert ms[i := x] == ms[..i] + [x] + ms[i + 1..];
    TagsAppend(ms[..i] + [x], ms[i + 1..]);
    TagsAppend(ms[..i], [x]);
  }

  lemma {:induction false} WithoutAppend(a: seq<Tag>, b: seq<Tag>, gone: Option<nat>)
    ensures Without(a + b, gone) == Without(a, gone) + Without(b, gone)
  {
    if a == [] {
      assert a + b == b;
    } else {
      assert (a + b)[0] == a[0] && (a + b)[1..] == a[1..] + b;
      WithoutAppend(a[1..], b, gone);
    }
  }

  lemma {:induction false} WithoutNone(ts: seq<Tag>)
    ensures Without(ts, None) == ts
  {
    if ts != [] { WithoutNone(ts[1..]); }
  }

  lemma {:induction false} WithoutOther(ms: seq<Machine>, serial: nat)
    requires forall i | 0 <= i < |ms| :: ms[i].serial != serial
    ensures Without(Tags(ms), Some(serial)) == Tags(ms)
  {
    if ms != [] { WithoutOther(ms[1..], serial); }
  }

  /** A machine stops sending its command. */
  lemma TagsDrop(ms: seq<Machine>, i: nat, x: Machine)
    requires i < |ms| && Distinct(ms) && Emittable(ms[i]) && !Emittable(x)
    ensures Tags(ms[i := x]) == Without(Tags(ms), Some(ms[i].serial))
  {
    var s := Some(ms[i].serial);
    TagsSplit(ms, i, x);
    TagsSplit(ms, i, ms[i]);
    assert ms[i := ms[i]] == ms;
    TagsSingle(x);
    TagsSingle(ms[i]);
    WithoutAppend(Tags(ms[..i]) + Tags([ms[i]]), Tags(ms[i + 1..]), s);
    WithoutAppend(Tags(ms[..i]), Tags([ms[i]]), s);
    WithoutOther(ms[..i], ms[i].serial);
    WithoutOther(ms[i + 1..], ms[i].serial);
    assert Without([TagOf(ms[i])], s) == [] by { assert [TagOf(ms[i])][1..] == []; }
  }

  lemma TagsKeep(ms: seq<Machine>, i: nat, x: Machine)
    requires i < |ms| && x.serial == ms[i].serial && CommandOf(x) == CommandOf(ms[i])
    ensures Tags(ms[i := x]) == Tags(ms)
  {
    TagsSplit(ms, i, x);
    TagsSplit(ms, i, ms[i]);
    assert ms[i := ms[i]] == ms;
    TagsSingle(x);
    TagsSingle(ms[i]);
  }

  lemma TagsRemove(ms: seq<Machine>, i: nat)
    requires i < |ms| && !Emittable(ms[i])
    ensures Tags(RemoveAt(ms, i)) == Tags(ms)
  {
    TagsSplit(ms, i, ms[i]);
    assert ms[i := ms[i]] == ms;
    TagsSingle(ms[i]);
    assert Tags(ms) == Tags(ms[..i]) + Tags(ms[i + 1..]);
    TagsAppend(ms[..i], ms[i + 1..]);
  }

  lemma TagsLast(ms: seq<Machine>, m: Machine)
    requires Emittable(m)
    ensures Tags(ms + [m]) == Tags(ms) + [TagOf(m)]
  {
    TagsAppend(ms, [m]);
    TagsSingle(m);
  }

  // ---------------------------------------------------------------- one call

  ghost predicate Sends(h: Helper, call: Call)
    requires OnCall(h, call).Ok?
  {
    Tags(OnCall(h, call).value.machines) == Without(Tags(h.machines), TakenBy(h, call)) + IssuedBy(h, call)
  }

  lemma FireCancelKeeps(ms: seq<Machine>, i: nat)
    requires i < |ms| && ms[i].id.ctype in {TimerType, ActivityType} && FireAt(ms, i, EvCancel).Ok?
    ensures Tags(FireAt(ms, i, EvCancel).value) == Tags(ms)
  {
    CancelKeepsCommand(ms[i]);
    match MoveOf(ms[i].id.ctype, ms[i].state, EvCancel)
    case To(s) => TagsKeep(ms, i, ms[i].(state := s));
    case Stay =>
  }

  predicate Untouched(s: CommandState) {
    s == Created || s == CommandSent || s == Initiated
  }

  lemma FirstCancelSends(h: Helper, i: nat, cancelID: CommandID, scheduledID: int)
    requires i < |h.machines| && h.machines[i].id.ctype in {TimerType, ActivityType} && Untouched(h.machines[i].state)
    requires Find(h.machines, h.machines[i].id) == Some(i)
    requires CancelWithCommand(h, h.machines[i].id, cancelID, scheduledID).Ok?
    requires cancelID.ctype in {CancelTimerType, CancelActivityType}
    ensures Tags(CancelWithCommand(h, h.machines[i].id, cancelID, scheduledID).value.machines)
         == Tags(h.machines) + [(h.nextSerial, PlainCommand(cancelID.ctype, cancelID.name))]
  {
    var c := NewMachine(h, cancelID, scheduledID);
    CommandRuns.FindAppend(h.machines, c, h.machines[i].id);
    TagsLast(h.machines, c);
    FireCancelKeeps(h.machines + [c], i);
  }

  lemma CancelWithSends(h: Helper, id: CommandID, cancelID: CommandID, scheduledID: int)
    requires CancelWithCommand(h, id, cancelID, scheduledID).Ok? && id.ctype in {TimerType, ActivityType}
    requires cancelID.ctype in {CancelTimerType, CancelActivityType}
    ensures Tags(CancelWithCommand(h, id, cancelID, scheduledID).value.machines)
         == Tags(h.machines)
            + if StateOf(h.machines, id) in {Some(Created), Some(CommandSent), Some(Initiated)}
              then [(h.nextSerial, PlainCommand(cancelID.ctype, cancelID.name))] else []
  {
    var i := Find(h.machines, id).value;
    if Untouched(h.machines[i].state) {
      FirstCancelSends(h, i, cancelID, scheduledID);
    } else {
      FireCancelKeeps(h.machines, i);
    }
  }

  lemma StartedChildSends(h: Helper, w: string)
    requires OnCall(h, CancelChild(w)).Ok? && StateOf(h.machines, ChildID(w)) == Some(Started)
    ensures Sends(h, CancelChild(w))
  {
    var i := Find(h.machines, ChildID(w)).value;
    WithoutNone(Tags(h.machines));
    TagsRemove(h.machines, i);
    TagsLast(RemoveAt(h.machines, i), h.machines[i].(state := CanceledAfterStarted));
  }

  lemma ChildCancelMove(m: Machine)
    requires m.id.ctype == ChildType && m.state != Started && MoveOf(ChildType, m.state, EvCancel).To?
    ensures var s := MoveOf(ChildType, m.state, EvCancel).state;
            && s != Completed
            && (m.state == Created ==> Emittable(m) && !Emittable(m.(state := s)))
            && (m.state != Created ==> CommandOf(m) == CommandOf(m.(state := s)))
  {}

  lemma FireChildSends(ms: seq<Machine>, i: nat)
    requires Distinct(ms) && i < |ms| && ms[i].id.ctype == ChildType && ms[i].state != Started
    requires FireAt(ms, i, EvCancel).Ok?
    ensures Tags(FireAt(ms, i, EvCancel).value)
         == if ms[i].state == Created then Without(Tags(ms), Some(ms[i].serial)) else Tags(ms)
  {
    var move := MoveOf(ChildType, ms[i].state, EvCancel);
    if move.To? {
      ChildCancelMove(ms[i]);
      if ms[i].state == Created {
        TagsDrop(ms, i, ms[i].(state := move.state));
      } else {
        TagsKeep(ms, i, ms[i].(state := move.state));
      }
    }
  }

  lemma CancelChildSends(h: Helper, w: string)
    requires Inv(h) && OnCall(h, CancelChild(w)).Ok?
    ensures Sends(h, CancelChild(w))
  {
    var i := Find(h.machines, ChildID(w)).value;
    if h.machines[i].state == Started {
      StartedChildSends(h, w);
    } else {
      WithoutNone(Tags(h.machines));
      FireChildSends(h.machines, i);
    }
  }

  lemma EarlyNexusSends(h: Helper, i: nat)
    requires Inv(h) && i < |h.machines| && h.machines[i].id.ctype == NexusType && CancelNexusAt(h, i).Ok?
    requires h.machines[i].cancelation.None? && h.machines[i].state == Created
    ensures Tags(CancelNexusAt(h, i).value.machines) == Without(Tags(h.machines), Some(h.machines[i].serial))
  {
    var m' := h.machines[i].(cancelation := Some(h.nextSerial));
    CancelledNexusList(h, i);
    MarkedCommand(h.machines[i], m');
    TagsDrop(h.machines, i, m');
  }

  lemma LateNexusSends(h: Helper, i: nat)
    requires i < |h.machines| && h.machines[i].id.ctype == NexusType && CancelNexusAt(h, i).Ok?
    requires h.machines[i].cancelation.None? && h.machines[i].state !in {Created, Completed}
    ensures Tags(CancelNexusAt(h, i).value.machines)
         == Tags(h.machines) + [(h.nextSerial, RequestCancelNexusOperation(Number(h.machines[i].scheduledID)))]
  {
    var m := h.machines[i];
    var m' := m.(cancelation := Some(h.nextSerial));
    CancelledNexusList(h, i);
    MarkedCommand(m, m');
    TagsKeep(h.machines, i, m');
    TagsLast(h.machines[i := m'], NewMachine(h, CancelNexusID(m.scheduledID), m.scheduledID));
  }

  lemma NexusTable(h: Helper, n: int)
    requires OnCall(h, CancelNexus(n)).Ok?
    ensures var m := Found(h, NexusID(n));
            && OnCall(h, CancelNexus(n)) == CancelNexusAt(h, Find(h.machines, NexusID(n)).value)
            && TakenBy(h, CancelNexus(n))
               == (if m.state == Created && m.cancelation.None? then Some(m.serial) else None)
            && IssuedBy(h, CancelNexus(n))
               == if m.cancelation.None? && m.state in {CommandSent, Initiated, Started}
                  then [(h.nextSerial, RequestCancelNexusOperation(Number(m.scheduledID)))] else []
  {}

  lemma CancelNexusSends(h: Helper, n: int)
    requires Inv(h) && OnCall(h, CancelNexus(n)).Ok?
    ensures Sends(h, CancelNexus(n))
  {
    var i := Find(h.machines, NexusID(n)).value;
    var m := h.machines[i];
    assert m in h.machines && Sound(m, h.nextSerial);
    NexusTable(h, n);
    WithoutNone(Tags(h.machines));
    if m.cancelation.None? {
      if m.state == Created {
        EarlyNexusSends(h, i);
      } else {
        LateNexusSends(h, i);
      }
    }
  }

  lemma CancelTimerSends(h: Helper, t: string)
    requires OnCall(h, CancelTimer(t)).Ok?
    ensures Sends(h, CancelTimer(t))
  {
    WithoutNone(Tags(h.machines));
    CancelWithSends(h, TimerID(t), CancelTimerID(Text(t)), 0);
  }

  lemma CancelActivitySends(h: Helper, a: string)
    requires OnCall(h, CancelActivity(a)).Ok?
    ensures Sends(h, CancelActivity(a))
  {
    var e := Found(h, ActivityID(a)).scheduledID;
    WithoutNone(Tags(h.machines));
    CancelWithSends(h, ActivityID(a), CancelActivityID(e), e);
  }

  predicate Cancels(call: Call) {
    call.CancelChild? || call.CancelNexus? || call.CancelTimer? || call.CancelActivity?
  }

  lemma PlainTable(h: Helper, call: Call)
    requires OnCall(h, call).Ok? && !Cancels(call)
    ensures TakenBy(h, call).None?
    ensures match Issued(h, call)
            case None => IssuedBy(h, call) == [] && OnCall(h, call).value.machines == h.machines
            case Some(m) => Emittable(m) && IssuedBy(h, call) == [TagOf(m)]
                            && OnCall(h, call).value.machines == h.machines + [m]
  {}

  lemma PlainSends(h: Helper, call: Call)
    requires OnCall(h, call).Ok? && !Cancels(call)
    ensures Sends(h, call)
  {
    WithoutNone(Tags(h.machines));
    PlainTable(h, call);
    if Issued(h, call).Some? {
      TagsLast(h.machines, Issued(h, call).value);
    }
  }

  /** A call takes at most one command back, and puts at most one at the end. */
  lemma CallSends(h: Helper, call: Call)
    requires Inv(h) && OnCall(h, call).Ok?
    ensures Sends(h, call)
  {
    if call.CancelChild? {
      CancelChildSends(h, call.workflowID);
    } else if call.CancelNexus? {
      CancelNexusSends(h, call.seqNo);
    } else if call.CancelTimer? {
      CancelTimerSends(h, call.timerID);
    } else if call.CancelActivity? {
      CancelActivitySends(h, call.activityID);
    } else {
      PlainSends(h, call);
    }
  }

  lemma ActSends(h: Helper, act: Act)
    requires Inv(h) && OnAct(h, act).Ok?
    ensures var h' := OnAct(h, act).value;
            && Keeps(h, h')
            && Tags(h'.machines) == Without(Tags(h.machines), TakenAt(h, act)) + IssuedTags(h, act)
  {
    match act
    case Do(call) =>
      CallKeepsInv(h, call);
      CallSends(h, call);
    case GetVersion(marker, upsertID) =>
      WithoutNone(Tags(h.machines));
      VersionKeeps(h, marker, upsertID);
      VersionSends(h, marker, upsertID);
    case Unchanged =>
      WithoutNone(Tags(h.machines));
      SameListKeeps(h, h);
  }

  lemma AddSends(h: Helper, id: CommandID)
    requires AddCommand(h, id, 0).Ok? && id.ctype in {MarkerType, UpsertType}
    ensures Tags(AddCommand(h, id, 0).value.machines)
         == Tags(h.machines) + [(h.nextSerial, PlainCommand(id.ctype, id.name))]
  {
    TagsLast(h.machines, NewMachine(h, id, 0));
  }

  lemma TwoMore(ts: seq<Tag>, x: Tag, y: Tag)
    ensures ts + [x] + [y] == ts + [x, y]
  {}

  lemma VersionAdds(h: Helper, marker: VersionMarker, upsertID: string)
    ensures OnAct(h, GetVersion(marker, upsertID))
         == match AddCommand(h, CommandID(MarkerType, Text(VersionID(marker))), 0)
            case Panic => Panic
            case Ok(h1) =>
              if marker.searchAttrUpdated then AddCommand(h1, CommandID(UpsertType, Text(upsertID)), 0) else Ok(h1)
  {}

  lemma VersionKeeps(h: Helper, marker: VersionMarker, upsertID: string)
    requires Inv(h) && OnAct(h, GetVersion(marker, upsertID)).Ok?
    ensures Keeps(h, OnAct(h, GetVersion(marker, upsertID)).value)
  {
    var id, upsert := CommandID(MarkerType, Text(VersionID(marker))), CommandID(UpsertType, Text(upsertID));
    VersionAdds(h, marker, upsertID);
    AddKeepsInv(h, id, 0);
    if marker.searchAttrUpdated {
      var h1 := AddCommand(h, id, 0).value;
      AddKeepsInv(h1, upsert, 0);
      KeepsTransitive(h, h1, AddCommand(h1, upsert, 0).value);
    }
  }

  lemma VersionSends(h: Helper, marker: VersionMarker, upsertID: string)
    requires OnAct(h, GetVersion(marker, upsertID)).Ok?
    ensures Tags(OnAct(h, GetVersion(marker, upsertID)).value.machines)
         == Tags(h.machines) + VersionTags(h, marker, upsertID)
  {
    var id, upsert := CommandID(MarkerType, Text(VersionID(marker))), CommandID(UpsertType, Text(upsertID));
    VersionAdds(h, marker, upsertID);
    AddSends(h, id);
    if marker.searchAttrUpdated {
      AddSends(AddCommand(h, id, 0).value, upsert);
      TwoMore(Tags(h.machines), (h.nextSerial, RecordMarkerCommand(id.name)),
              (h.nextSerial + 1, UpsertWorkflowSearchAttributes(upsert.name)));
    }
  }

  // ---------------------------------------------------------------- whole tasks

  lemma {:induction false} LeftAppend(h: Helper, acts: seq<Act>, a: seq<Tag>, b: seq<Tag>)
    requires RunActs(h, acts).Ok?
    ensures Left(h, acts, a + b) == Left(h, acts, a) + Left(h, acts, b)
    decreases |a|
  {
    if a == [] {
      assert a + b == b;
    } else {
      assert (a + b)[0] == a[0] && (a + b)[1..] == a[1..] + b;
      LeftAppend(h, acts, a[1..], b);
    }
  }

  lemma {:induction false} LeftStep(h: Helper, acts: seq<Act>, ts: seq<Tag>)
    requires RunActs(h, acts).Ok? && acts != []
    ensures Left(h, acts, ts) == Left(OnAct(h, acts[0]).value, acts[1..], Without(ts, TakenAt(h, acts[0])))
    decreases |ts|
  {
    if ts != [] { LeftStep(h, acts, ts[1..]); }
  }

  lemma {:induction false} LeftAll(h: Helper, ts: seq<Tag>)
    ensures Left(h, [], ts) == ts
    decreases |ts|
  {
    if ts != [] { LeftAll(h, ts[1..]); }
  }

  lemma Regrouped(a: seq<Tag>, b: seq<Tag>, c: seq<Tag>)
    ensures a + b + c == a + (b + c)
  {}

  lemma InOrderStep(h: Helper, acts: seq<Act>, ts: seq<Tag>)
    requires Inv(h) && RunActs(h, acts).Ok? && acts != []
    requires var h' := OnAct(h, acts[0]).value;
             ts == Left(h', acts[1..], Tags(h'.machines)) + SentBy(h', acts[1..])
    ensures ts == Left(h, acts, Tags(h.machines)) + SentBy(h, acts)
  {
    var h', rest := OnAct(h, acts[0]).value, acts[1..];
    var kept, issued := Without(Tags(h.machines), TakenAt(h, acts[0])), IssuedTags(h, acts[0]);
    ActSends(h, acts[0]);
    LeftAppend(h', rest, kept, issued);
    LeftStep(h, acts, Tags(h.machines));
    Regrouped(Left(h', rest, kept), Left(h', rest, issued), SentBy(h', rest));
  }

  /** After whatever a workflow task does, the response holds what was pending and then what the task
      issued, in order, each without what the task took back. */
  lemma {:induction false} ResponseInOrder(h: Helper, acts: seq<Act>)
    requires Inv(h) && RunActs(h, acts).Ok?
    ensures Tags(RunActs(h, acts).value.machines) == Left(h, acts, Tags(h.machines)) + SentBy(h, acts)
    decreases |acts|
  {
    if acts == [] {
      LeftAll(h, Tags(h.machines));
    } else {
      ActSends(h, acts[0]);
      ResponseInOrder(OnAct(h, acts[0]).value, acts[1..]);
      InOrderStep(h, acts, Tags(RunActs(h, acts).value.machines));
    }
  }

  /** Only the command of a child or a Nexus operation that is new can be taken back. */
  ghost predicate Safe(ms: seq<Machine>, serial: nat) {
    forall m | m in ms && m.serial == serial :: m.state != Created || m.id.ctype !in {ChildType, NexusType}
  }

  lemma SafeStays(h: Helper, h': Helper, serial: nat)
    requires Keeps(h, h') && serial < h.nextSerial && Safe(h.machines, serial)
    ensures Safe(h'.machines, serial)
  {
    forall x | x in h'.machines && x.serial == serial
      ensures x.state != Created || x.id.ctype !in {ChildType, NexusType}
    {
      var m :| m in h.machines && Follows(m, x);
    }
  }

  lemma SafeNotTaken(h: Helper, act: Act, serial: nat)
    requires Safe(h.machines, serial)
    ensures TakenAt(h, act) != Some(serial)
  {}

  lemma {:induction false} NeverTaken(h: Helper, acts: seq<Act>, serial: nat)
    requires Inv(h) && RunActs(h, acts).Ok? && serial < h.nextSerial && Safe(h.machines, serial)
    ensures !TakenIn(h, acts, serial)
    decreases |acts|
  {
    if acts != [] {
      SafeNotTaken(h, acts[0], serial);
      ActSends(h, acts[0]);
      SafeStays(h, OnAct(h, acts[0]).value, serial);
      NeverTaken(OnAct(h, acts[0]).value, acts[1..], serial);
    }
  }

  /** The response is the commands of the tags. */
  lemma {:induction false} CommandsOfTags(ms: seq<Machine>)
    ensures |Commands(ms)| == |Tags(ms)|
    ensures forall k | 0 <= k < |Tags(ms)| :: Commands(ms)[k] == Tags(ms)[k].1
  {
    if ms != [] {
      CommandsOfTags(ms[1..]);
    }
  }

  /** A call that asks the server for something adds exactly that command at the end of the response, and
      a call that neither asks nor takes back leaves the response as it was. */
  lemma CallAddsCommand(h: Helper, call: Call)
    requires Inv(h) && OnCall(h, call).Ok? && TakenBy(h, call).None?
    ensures Commands(OnCall(h, call).value.machines)
         == Commands(h.machines) + match CommandFor(h, call) case Some(c) => [c] case None => []
  {
    CallSends(h, call);
    WithoutNone(Tags(h.machines));
    CommandsOfTags(h.machines);
    CommandsOfTags(OnCall(h, call).value.machines);
  }

  lemma WithoutAt(ms: seq<Machine>, i: nat) returns (k: nat)
    requires i < |ms| && Distinct(ms) && Emittable(ms[i])
    ensures k < |Tags(ms)| && Tags(ms)[k] == TagOf(ms[i])
    ensures Without(Tags(ms), Some(ms[i].serial)) == Tags(ms)[..k] + Tags(ms)[k + 1..]
  {
    var s := Some(ms[i].serial);
    k := |Tags(ms[..i])|;
    TagsSplit(ms, i, ms[i]);
    assert ms[i := ms[i]] == ms;
    TagsSingle(ms[i]);
    WithoutAppend(Tags(ms[..i]) + Tags([ms[i]]), Tags(ms[i + 1..]), s);
    WithoutAppend(Tags(ms[..i]), Tags([ms[i]]), s);
    WithoutOther(ms[..i], ms[i].serial);
    WithoutOther(ms[i + 1..], ms[i].serial);
    assert Without([TagOf(ms[i])], s) == [] by { assert [TagOf(ms[i])][1..] == []; }
  }

  lemma CommandsWithout(ms: seq<Machine>, ms': seq<Machine>, k: nat)
    requires k < |Tags(ms)| && Tags(ms') == Tags(ms)[..k] + Tags(ms)[k + 1..]
    ensures |Commands(ms)| == |Tags(ms)| && Commands(ms)[k] == Tags(ms)[k].1
    ensures Commands(ms') == Commands(ms)[..k] + Commands(ms)[k + 1..]
  {
    CommandsOfTags(ms);
    CommandsOfTags(ms');
    var left := Commands(ms)[..k] + Commands(ms)[k + 1..];
    forall j | 0 <= j < |left| ensures Commands(ms')[j] == left[j] {
      assert Tags(ms')[j] == Tags(ms)[if j < k then j else j + 1];
    }
  }

  /** The machine of the child or operation that a call cancels. */
  function CancelTarget(call: Call): CommandID
    requires call.CancelChild? || call.CancelNexus?
  {
    if call.CancelChild? then ChildID(call.workflowID) else NexusID(call.seqNo)
  }

  lemma TakenIsNew(h: Helper, call: Call)
    requires TakenBy(h, call).Some?
    ensures call.CancelChild? || call.CancelNexus?
    ensures Find(h.machines, CancelTarget(call)).Some?
    ensures var m := Found(h, CancelTarget(call));
            && TakenBy(h, call) == Some(m.serial) && Emittable(m)
            && CommandOf(m).value == if call.CancelChild? then StartChildWorkflowExecution(Text(call.workflowID))
                                     else ScheduleNexusOperation(Number(call.seqNo))
  {}

  lemma TakingAsksNothing(h: Helper, call: Call)
    requires OnCall(h, call).Ok? && TakenBy(h, call).Some?
    ensures CommandFor(h, call).None?
  {}

  /** A cancel that comes before the send takes exactly the command of its child or operation out of the
      response. */
  lemma CallTakesCommand(h: Helper, call: Call) returns (k: nat)
    requires Inv(h) && OnCall(h, call).Ok? && TakenBy(h, call).Some?
    ensures call.CancelChild? || call.CancelNexus?
    ensures k < |Commands(h.machines)|
    ensures Commands(h.machines)[k] == if call.CancelChild? then StartChildWorkflowExecution(Text(call.workflowID))
                                       else ScheduleNexusOperation(Number(call.seqNo))
    ensures Commands(OnCall(h, call).value.machines)
         == Commands(h.machines)[..k] + Commands(h.machines)[k + 1..]
  {
    TakenIsNew(h, call);
    TakingAsksNothing(h, call);
    CallSends(h, call);
    k := WithoutAt(h.machines, Find(h.machines, CancelTarget(call)).value);
    CommandsWithout(h.machines, OnCall(h, call).value.machines, k);
  }
}
