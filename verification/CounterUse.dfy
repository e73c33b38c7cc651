/** The calls of the replay model are what a live workflow task does to the helper's counter, and its
    events those that the server writes for the response. */
module CounterUse {
  import opened Basics
  import opened EventCounter
  import opened CommandMachine
  import opened HelperState
  import opened Invariants
  import opened IdPrediction
  import opened ResponseOrder
  import R = ReplayAgreement
  import opened ReplayTasks

  /** What an act does to the counter, if anything, given what the task does after it.  A command is taken
      back if the task later cancels the child or Nexus operation while it is new, and so is the request
      that cancels such an operation. */
  function Use(h: Helper, act: Act, rest: seq<Act>): seq<R.Call>
    requires OnAct(h, act).Ok? && RunActs(OnAct(h, act).value, rest).Ok?
  {
    match act
    case GetVersion(marker, _) => [R.Version(marker)]
    case Unchanged => [R.Recall]
    case Do(call) =>
      if call.GetNextID? then [R.Peek]
      else if call.CancelChild? then
        if StateOf(h.machines, ChildID(call.workflowID)) == Some(Started) then [R.CancelStartedChild] else []
      else if TakenBy(h, call).Some? then [R.TakenBack]
      else if IssuedBy(h, call) == [] then []
      else if TakenIn(OnAct(h, act).value, rest, IssuedBy(h, call)[0].0) then [R.TakenBack]
      else [R.Issue]
  }

  function Uses(h: Helper, acts: seq<Act>): seq<R.Call>
    requires RunActs(h, acts).Ok?
    decreases |acts|
  {
    if acts == [] then [] else Use(h, acts[0], acts[1..]) + Uses(OnAct(h, acts[0]).value, acts[1..])
  }

  // ---------------------------------------------------------------- the counter

  lemma {:induction false} AftersConcat(c: Counter, a: seq<R.Call>, b: seq<R.Call>)
    ensures R.Afters(c, a + b, R.LiveRun) == R.Afters(R.Afters(c, a, R.LiveRun), b, R.LiveRun)
    decreases |a|
  {
    if a == [] {
      assert a + b == b;
    } else {
      assert (a + b)[1..] == a[1..] + b;
      AftersConcat(R.After(c, a[0], R.LiveRun), a[1..], b);
    }
  }

  lemma AftersOne(c: Counter, call: R.Call)
    ensures R.Afters(c, [call], R.LiveRun) == R.After(c, call, R.LiveRun)
  {
    assert [call][1..] == [];
  }

  lemma CancelNexusCounts(h: Helper, n: int)
    requires Inv(h) && OnCall(h, CancelNexus(n)).Ok?
    ensures OnCall(h, CancelNexus(n)).value.counter
         == if TakenBy(h, CancelNexus(n)).Some? || CommandFor(h, CancelNexus(n)).Some? then h.counter.Add()
            else h.counter
  {
    var m := h.machines[Find(h.machines, NexusID(n)).value];
    assert m in h.machines && Sound(m, h.nextSerial);
  }

  lemma CancelWithCounts(h: Helper, id: CommandID, cancelID: CommandID, scheduledID: int)
    requires CancelWithCommand(h, id, cancelID, scheduledID).Ok?
    ensures CancelWithCommand(h, id, cancelID, scheduledID).value.counter
         == if StateOf(h.machines, id) in {Some(Created), Some(CommandSent), Some(Initiated)}
            then h.counter.Add() else h.counter
  {}

  /** Every call but a cancelled child adds to the counter exactly when it issues a command or takes one back. */
  lemma CallCounts(h: Helper, call: Call)
    requires Inv(h) && OnCall(h, call).Ok? && !call.GetNextID? && !call.CancelChild?
    ensures OnCall(h, call).value.counter
         == if TakenBy(h, call).Some? || CommandFor(h, call).Some? then h.counter.Add() else h.counter
  {
    if call.CancelNexus? {
      CancelNexusCounts(h, call.seqNo);
    } else if call.CancelTimer? {
      CancelWithCounts(h, TimerID(call.timerID), CancelTimerID(Text(call.timerID)), 0);
    } else if call.CancelActivity? {
      var e := h.machines[Find(h.machines, ActivityID(call.activityID)).value].scheduledID;
      CancelWithCounts(h, ActivityID(call.activityID), CancelActivityID(e), e);
    }
  }

  lemma CancelChildCounts(h: Helper, w: string)
    requires OnCall(h, CancelChild(w)).Ok?
    ensures OnCall(h, CancelChild(w)).value.counter
         == if StateOf(h.machines, ChildID(w)) == Some(Started) then h.counter.Bump() else h.counter
  {}

  lemma VersionCounts(h: Helper, marker: VersionMarker, upsertID: string)
    requires OnAct(h, GetVersion(marker, upsertID)).Ok?
    ensures OnAct(h, GetVersion(marker, upsertID)).value.counter == R.After(h.counter, R.Version(marker), R.LiveRun)
  {
    VersionAdds(h, marker, upsertID);
  }

  lemma ActCounts(h: Helper, act: Act, rest: seq<Act>)
    requires Inv(h) && OnAct(h, act).Ok? && RunActs(OnAct(h, act).value, rest).Ok?
    ensures OnAct(h, act).value.counter == R.Afters(h.counter, Use(h, act, rest), R.LiveRun)
  {
    var u := Use(h, act, rest);
    if u != [] { AftersOne(h.counter, u[0]); }
    if act.GetVersion? {
      VersionCounts(h, act.marker, act.upsertID);
    } else if act.Do? {
      if act.call.CancelChild? {
        CancelChildCounts(h, act.call.workflowID);
      } else if !act.call.GetNextID? {
        CallCounts(h, act.call);
      }
    }
  }

  /** Whatever a live workflow task does, the helper's counter follows the replay model. */
  lemma {:induction false} CounterFollowsUses(h: Helper, acts: seq<Act>)
    requires Inv(h) && RunActs(h, acts).Ok?
    ensures RunActs(h, acts).value.counter == R.Afters(h.counter, Uses(h, acts), R.LiveRun)
    decreases |acts|
  {
    if acts != [] {
      var h' := OnAct(h, acts[0]).value;
      ActCounts(h, acts[0], acts[1..]);
      ActSends(h, acts[0]);
      CounterFollowsUses(h', acts[1..]);
      AftersConcat(h.counter, Use(h, acts[0], acts[1..]), Uses(h', acts[1..]));
    }
  }

  // ---------------------------------------------------------------- the events

  /** The commands that these tags stand for cause these events. */
  predicate Causes(ts: seq<Tag>, events: seq<R.Entry>) {
    && |ts| == |events|
    && forall k | 0 <= k < |ts| ::
         && (events[k].Marked? ==> ts[k].1 == RecordMarkerCommand(Text(VersionID(events[k].marker))))
         && (events[k].Upserted? ==> ts[k].1.UpsertWorkflowSearchAttributes?)
  }

  lemma {:induction false} HistoryConcat(a: seq<R.Call>, b: seq<R.Call>)
    ensures R.History(a + b) == R.History(a) + R.History(b)
    decreases |a|
  {
    if a == [] {
      assert a + b == b;
    } else {
      assert (a + b)[0] == a[0] && (a + b)[1..] == a[1..] + b;
      HistoryConcat(a[1..], b);
    }
  }

  lemma HistoryOne(call: R.Call)
    ensures R.History([call]) == R.EntriesOf(call)
  {
    assert [call][1..] == [];
  }

  lemma LeftOne(h: Helper, acts: seq<Act>, t: Tag)
    requires RunActs(h, acts).Ok?
    ensures Left(h, acts, [t]) == if TakenIn(h, acts, t.0) then [] else [t]
  {
    assert [t][1..] == [];
  }

  lemma VersionCauses(h: Helper, marker: VersionMarker, upsertID: string, rest: seq<Act>)
    requires var act := GetVersion(marker, upsertID);
             Inv(h) && OnAct(h, act).Ok? && RunActs(OnAct(h, act).value, rest).Ok?
    ensures var h' := OnAct(h, GetVersion(marker, upsertID)).value;
            Left(h', rest, VersionTags(h, marker, upsertID)) == VersionTags(h, marker, upsertID)
    ensures Causes(VersionTags(h, marker, upsertID), R.EntriesOf(R.Version(marker)))
  {
    var h' := OnAct(h, GetVersion(marker, upsertID)).value;
    var ts := VersionTags(h, marker, upsertID);
    VersionKeeps(h, marker, upsertID);
    VersionAdds(h, marker, upsertID);
    VersionSafe(h, marker, upsertID);
    NeverTaken(h', rest, h.nextSerial);
    if marker.searchAttrUpdated {
      NeverTaken(h', rest, h.nextSerial + 1);
      LeftOne(h', rest, ts[1]);
      assert ts[1..] == [ts[1]];
    } else {
      LeftOne(h', rest, ts[0]);
    }
  }

  lemma VersionSafe(h: Helper, marker: VersionMarker, upsertID: string)
    requires Inv(h) && OnAct(h, GetVersion(marker, upsertID)).Ok?
    ensures var h' := OnAct(h, GetVersion(marker, upsertID)).value;
            && Safe(h'.machines, h.nextSerial)
            && h'.nextSerial == h.nextSerial + marker.Width()
            && (marker.searchAttrUpdated ==> Safe(h'.machines, h.nextSerial + 1))
  {
    VersionAdds(h, marker, upsertID);
    forall m | m in h.machines ensures m.serial < h.nextSerial {
      assert Sound(m, h.nextSerial);
    }
  }

  lemma BackSafe(ms: seq<Machine>, i: nat, x: Machine)
    requires Distinct(ms) && i < |ms| && x.state != Created
    ensures Safe(RemoveAt(ms, i) + [x], ms[i].serial)
  {
    forall m | m in RemoveAt(ms, i) ensures m.serial != ms[i].serial {
      var j :| 0 <= j < |RemoveAt(ms, i)| && RemoveAt(ms, i)[j] == m;
      assert m == ms[if j < i then j else j + 1];
    }
  }

  lemma StartedChildSafe(h: Helper, w: string)
    requires Inv(h) && OnCall(h, CancelChild(w)).Ok? && StateOf(h.machines, ChildID(w)) == Some(Started)
    ensures var m := h.machines[Find(h.machines, ChildID(w)).value];
            m.serial < h.nextSerial && Safe(OnCall(h, CancelChild(w)).value.machines, m.serial)
  {
    var i := Find(h.machines, ChildID(w)).value;
    assert h.machines[i] in h.machines && Sound(h.machines[i], h.nextSerial);
    BackSafe(h.machines, i, h.machines[i].(state := CanceledAfterStarted));
  }

  lemma StartedChildCauses(h: Helper, w: string, rest: seq<Act>)
    requires Inv(h) && OnCall(h, CancelChild(w)).Ok? && RunActs(OnCall(h, CancelChild(w)).value, rest).Ok?
    requires StateOf(h.machines, ChildID(w)) == Some(Started)
    ensures Causes(Left(OnCall(h, CancelChild(w)).value, rest, IssuedBy(h, CancelChild(w))), [R.Plain])
  {
    var t := IssuedBy(h, CancelChild(w))[0];
    StartedChildSafe(h, w);
    CallKeepsInv(h, CancelChild(w));
    NeverTaken(OnCall(h, CancelChild(w)).value, rest, t.0);
    LeftOne(OnCall(h, CancelChild(w)).value, rest, t);
  }

  lemma IssueCauses(h: Helper, call: Call, rest: seq<Act>)
    requires OnCall(h, call).Ok? && RunActs(OnCall(h, call).value, rest).Ok?
    requires !call.CancelChild? && IssuedBy(h, call) != []
    ensures Causes(Left(OnCall(h, call).value, rest, IssuedBy(h, call)), R.History(Use(h, Do(call), rest)))
  {
    HistoryOne(Use(h, Do(call), rest)[0]);
    LeftOne(OnCall(h, call).value, rest, IssuedBy(h, call)[0]);
  }

  /** What is left of the command that a call issues, and the event of its use. */
  lemma CallCauses(h: Helper, call: Call, rest: seq<Act>)
    requires Inv(h) && OnCall(h, call).Ok? && RunActs(OnCall(h, call).value, rest).Ok?
    ensures Causes(Left(OnCall(h, call).value, rest, IssuedBy(h, call)), R.History(Use(h, Do(call), rest)))
  {
    if IssuedBy(h, call) == [] {
      var u := Use(h, Do(call), rest);
      if u != [] { HistoryOne(u[0]); }
    } else if call.CancelChild? {
      HistoryOne(R.CancelStartedChild);
      StartedChildCauses(h, call.workflowID, rest);
    } else {
      IssueCauses(h, call, rest);
    }
  }

  lemma ActCauses(h: Helper, act: Act, rest: seq<Act>)
    requires Inv(h) && OnAct(h, act).Ok? && RunActs(OnAct(h, act).value, rest).Ok?
    ensures Causes(Left(OnAct(h, act).value, rest, IssuedTags(h, act)), R.History(Use(h, act, rest)))
  {
    match act
    case Do(call) => CallCauses(h, call, rest);
    case GetVersion(marker, upsertID) =>
      HistoryOne(R.Version(marker));
      VersionCauses(h, marker, upsertID, rest);
    case Unchanged => HistoryOne(R.Recall);
  }

  lemma CausesConcat(a: seq<Tag>, x: seq<R.Entry>, b: seq<Tag>, y: seq<R.Entry>)
    requires Causes(a, x) && Causes(b, y)
    ensures Causes(a + b, x + y)
  {}

  lemma {:induction false} UsesCause(h: Helper, acts: seq<Act>)
    requires Inv(h) && RunActs(h, acts).Ok?
    ensures Causes(SentBy(h, acts), R.History(Uses(h, acts)))
    decreases |acts|
  {
    if acts != [] {
      var h', rest := OnAct(h, acts[0]).value, acts[1..];
      ActCauses(h, acts[0], rest);
      ActSends(h, acts[0]);
      UsesCause(h', rest);
      HistoryConcat(Use(h, acts[0], rest), Uses(h', rest));
      CausesConcat(Left(h', rest, IssuedTags(h, acts[0])), R.History(Use(h, acts[0], rest)),
                   SentBy(h', rest), R.History(Uses(h', rest)));
    }
  }

  // ---------------------------------------------------------------- a live task as a task of the replay model

  /** The commands that were pending when the task started and that it sends. */
  function Pending(h: Helper, acts: seq<Act>): seq<Tag>
    requires RunActs(h, acts).Ok?
  {
    Left(h, acts, Tags(h.machines))
  }

  lemma {:induction false} LeftShorter(h: Helper, acts: seq<Act>, ts: seq<Tag>)
    requires RunActs(h, acts).Ok?
    ensures |Left(h, acts, ts)| <= |ts|
    decreases |ts|
  {
    if ts != [] { LeftShorter(h, acts, ts[1..]); }
  }

  /** The task that starts with event `started`: the events of its own commands come behind those of the
      pending ones, and the counter starts ahead of them by the pending commands that it takes back. */
  function TaskOf(h0: Helper, started: int, acts: seq<Act>): Task
    requires RunActs(AtStart(h0, started), acts).Ok?
  {
    var h := AtStart(h0, started);
    LeftShorter(h, acts, Tags(h.machines));
    var pending := |Pending(h, acts)|;
    Task(ServerEventID(started, pending), |Tags(h.machines)| - pending, Uses(h, acts))
  }

  /** The events of the calls are those that the server writes for the response. */
  ghost predicate Written(cs: seq<Command>, started: int, first: int, calls: seq<R.Call>) {
    && R.UpperBound(first, calls) == ServerEventID(started, |cs|)
    && forall e | e in R.MarkerEvents(first, calls) ::
         && ServerEventID(started, 0) <= e < ServerEventID(started, |cs|)
         && cs[e - ServerEventID(started, 0)]
            == RecordMarkerCommand(Text(VersionID(R.MarkerEvents(first, calls)[e])))
  }

  /** Behind the pending commands, the version marker commands are where the events of the calls say. */
  predicate Placed(cs: seq<Command>, pending: nat, events: seq<R.Entry>) {
    && |cs| == pending + |events|
    && forall k | 0 <= k < |events| && events[k].Marked? ::
         cs[pending + k] == RecordMarkerCommand(Text(VersionID(events[k].marker)))
  }

  lemma PlacedWritten(cs: seq<Command>, started: int, pending: nat, calls: seq<R.Call>)
    requires Placed(cs, pending, R.History(calls))
    ensures Written(cs, started, ServerEventID(started, pending), calls)
  {
    var first := ServerEventID(started, pending);
    var ms := R.MarkerEvents(first, calls);
    R.HistoryMarkers(first, calls);
    forall e | e in ms ensures R.History(calls)[e - first] == R.Marked(ms[e]) {
      assert R.Alike(ms, first, R.History(calls), e);
    }
  }

  lemma UsesPlaced(h: Helper, acts: seq<Act>)
    requires Inv(h) && RunActs(h, acts).Ok?
    ensures Placed(Commands(RunActs(h, acts).value.machines), |Pending(h, acts)|, R.History(Uses(h, acts)))
  {
    var pending, own := Pending(h, acts), SentBy(h, acts);
    ResponseInOrder(h, acts);
    UsesCause(h, acts);
    CommandsOfTags(RunActs(h, acts).value.machines);
    assert forall k | 0 <= k < |own| :: (pending + own)[|pending| + k] == own[k];
  }

  /** In the replay model of a live workflow task the counter starts where the helper's does, the task has
      the events that the server writes for the response, and its markers are at the events of the
      response's version marker commands. */
  lemma TaskMatches(h0: Helper, started: int, acts: seq<Act>)
    requires Inv(h0) && RunActs(AtStart(h0, started), acts).Ok?
    ensures var t := TaskOf(h0, started, acts);
            && AtStart(h0, started).counter == LiveStart(h0.counter, t)
            && Written(Commands(RunActs(AtStart(h0, started), acts).value.machines), started, t.first, t.calls)
  {
    var h := AtStart(h0, started);
    EventKeepsInv(h0, WorkflowTaskStarted(started));
    UsesPlaced(h, acts);
    PlacedWritten(Commands(RunActs(h, acts).value.machines), started, |Pending(h, acts)|, Uses(h, acts));
    CommandsOfTags(h0.machines);
  }

  /** The IDs that the helper predicts for the commands of a live task that are sent, save for cancels of
      started children. */
  function PredictedIDs(h: Helper, acts: seq<Act>): seq<int>
    requires RunActs(h, acts).Ok?
    decreases |acts|
  {
    if acts == [] then []
    else
      var later := PredictedIDs(OnAct(h, acts[0]).value, acts[1..]);
      if Use(h, acts[0], acts[1..]) == [R.Issue] then [h.counter.Skip().next] + later else later
  }

  lemma IssuedConcat(c: Counter, u: seq<R.Call>, later: seq<R.Call>)
    requires |u| <= 1
    ensures R.IssuedIDs(c, u + later, R.LiveRun)
         == (if u == [R.Issue] then [c.Skip().next] else [])
            + R.IssuedIDs(R.Afters(c, u, R.LiveRun), later, R.LiveRun)
  {
    if u == [] {
      assert u + later == later;
    } else {
      assert u == [u[0]] && (u + later)[0] == u[0] && (u + later)[1..] == later;
      AftersOne(c, u[0]);
    }
  }

  lemma {:induction false} PredictedAreIssued(h: Helper, acts: seq<Act>)
    requires Inv(h) && RunActs(h, acts).Ok?
    ensures PredictedIDs(h, acts) == R.IssuedIDs(h.counter, Uses(h, acts), R.LiveRun)
    decreases |acts|
  {
    if acts != [] {
      var h', u := OnAct(h, acts[0]).value, Use(h, acts[0], acts[1..]);
      ActSends(h, acts[0]);
      ActCounts(h, acts[0], acts[1..]);
      PredictedAreIssued(h', acts[1..]);
      IssuedConcat(h.counter, u, Uses(h', acts[1..]));
    }
  }

  /** A live workflow task on any reachable helper: replay with the response's markers loaded, whatever old
      markers its own table holds, predicts the same IDs exactly when the walk over the task's events
      comes out right. */
  lemma LiveTaskReplaysIff(h0: Helper, started: int, acts: seq<Act>, r: Counter)
    requires Inv(h0) && RunActs(AtStart(h0, started), acts).Ok?
    requires Below(h0.counter, ServerEventID(started, 0)) && Below(r, ServerEventID(started, 0))
    ensures var t := TaskOf(h0, started, acts);
            (PredictedIDs(AtStart(h0, started), acts) == R.IssuedIDs(ReplayStart(r, t), t.calls, R.ReplayRun)
             <==> R.TaskWalks(t.calls, t.lead))
  {
    var t := TaskOf(h0, started, acts);
    EventKeepsInv(h0, WorkflowTaskStarted(started));
    PredictedAreIssued(AtStart(h0, started), acts);
    TaskMatches(h0, started, acts);
    TaskAgreesIff(h0.counter, r, t);
  }

  lemma NewestFound(h: Helper, id: CommandID)
    requires AddCommand(h, id, 0).Ok?
    ensures Find(AddCommand(h, id, 0).value.machines, id) == Some(|h.machines|)
  {
    FindLast(h.machines, NewMachine(h, id, 0));
  }

  lemma UsesOfTwo(h: Helper, a: Act, b: Act, rest: seq<Act>)
    requires RunActs(h, [a, b] + rest).Ok?
    ensures OnAct(h, a).Ok? && OnAct(OnAct(h, a).value, b).Ok? && RunActs(OnAct(h, a).value, [b] + rest).Ok?
    ensures RunActs(OnAct(OnAct(h, a).value, b).value, rest).Ok?
    ensures var h1 := OnAct(h, a).value;
            Uses(h, [a, b] + rest) == Use(h, a, [b] + rest) + (Use(h1, b, rest) + Uses(OnAct(h1, b).value, rest))
  {
    assert ([a, b] + rest)[1..] == [b] + rest && ([b] + rest)[1..] == rest;
    assert Uses(OnAct(h, a).value, [b] + rest)
        == Use(OnAct(h, a).value, b, rest) + Uses(OnAct(OnAct(h, a).value, b).value, rest);
  }

  /** A Nexus operation that is scheduled and cancelled at once is two commands taken back. */
  lemma CancelledOperationIsTakenBack(h: Helper, n: int, rest: seq<Act>)
    requires RunActs(h, [Do(ScheduleNexus(n)), Do(CancelNexus(n))] + rest).Ok?
    ensures var a, b := Do(ScheduleNexus(n)), Do(CancelNexus(n));
            && OnAct(h, a).Ok? && OnAct(OnAct(h, a).value, b).Ok?
            && RunActs(OnAct(OnAct(h, a).value, b).value, rest).Ok?
            && Uses(h, [a, b] + rest)
               == [R.TakenBack] + ([R.TakenBack] + Uses(OnAct(OnAct(h, a).value, b).value, rest))
  {
    var a, b := Do(ScheduleNexus(n)), Do(CancelNexus(n));
    UsesOfTwo(h, a, b, rest);
    NewestFound(h.(unscheduledNexus := h.unscheduledNexus + [h.nextSerial]), NexusID(n));
    assert TakenBy(OnAct(h, a).value, CancelNexus(n)) == Some(h.nextSerial);
    assert ([b] + rest)[0] == b;
  }

  /** A new child that is started and cancelled at once is one. */
  lemma CancelledChildIsTakenBack(h: Helper, w: string, rest: seq<Act>)
    requires Find(h.machines, ChildID(w)).None? && RunActs(h, [Do(StartChild(w)), Do(CancelChild(w))] + rest).Ok?
    ensures var a, b := Do(StartChild(w)), Do(CancelChild(w));
            && OnAct(h, a).Ok? && OnAct(OnAct(h, a).value, b).Ok?
            && RunActs(OnAct(OnAct(h, a).value, b).value, rest).Ok?
            && Uses(h, [a, b] + rest) == [R.TakenBack] + Uses(OnAct(OnAct(h, a).value, b).value, rest)
  {
    var a, b := Do(StartChild(w)), Do(CancelChild(w));
    UsesOfTwo(h, a, b, rest);
    NewestFound(h, ChildID(w));
    assert TakenBy(OnAct(h, a).value, CancelChild(w)) == Some(h.nextSerial);
    assert ([b] + rest)[0] == b;
    assert [] + Uses(OnAct(OnAct(h, a).value, b).value, rest) == Uses(OnAct(OnAct(h, a).value, b).value, rest);
  }
}
