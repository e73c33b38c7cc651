/** Replay of a whole history: workflow task by workflow task, with the counter set anew at each start
    and the markers of a task loaded before its calls. */
module ReplayTasks {
  import opened EventCounter
  import opened ReplayAgreement
  import opened ReplaySlips

  /** A workflow task: its first event, by how much the counter starts ahead of it, and what workflow
      code does. */
  datatype Task = Task(first: int, lead: nat, calls: seq<Call>)

  /** The counter at the start of the live task, and of the replayed one. */
  function LiveStart(c: Counter, t: Task): Counter {
    c.(next := t.first + t.lead)
  }

  function ReplayStart(c: Counter, t: Task): Counter {
    Counter(t.first + t.lead, c.markers + MarkerEvents(t.first, t.calls))
  }

  function LiveIDs(c: Counter, tasks: seq<Task>): seq<seq<int>>
    decreases |tasks|
  {
    if tasks == [] then []
    else
      var s := LiveStart(c, tasks[0]);
      [IssuedIDs(s, tasks[0].calls, LiveRun)] + LiveIDs(Afters(s, tasks[0].calls, LiveRun), tasks[1..])
  }

  function ReplayIDs(c: Counter, tasks: seq<Task>): seq<seq<int>>
    decreases |tasks|
  {
    if tasks == [] then []
    else
      var s := ReplayStart(c, tasks[0]);
      [IssuedIDs(s, tasks[0].calls, ReplayRun)] + ReplayIDs(Afters(s, tasks[0].calls, ReplayRun), tasks[1..])
  }

  /** Each task starts behind the events that the one before it wrote. */
  predicate Ordered(n: int, tasks: seq<Task>)
    decreases |tasks|
  {
    tasks == [] || (n <= tasks[0].first && Ordered(UpperBound(tasks[0].first, tasks[0].calls), tasks[1..]))
  }

  predicate Below(c: Counter, n: int) {
    forall k | k in c.markers :: k < n
  }

  lemma {:induction false} AftersBelow(c: Counter, calls: seq<Call>, mode: Mode, n: int)
    requires Below(c, n)
    ensures Below(Afters(c, calls, mode), n)
    decreases |calls|
  {
    if calls != [] {
      AftersBelow(After(c, calls[0], mode), calls[1..], mode, n);
    }
  }

  /** One task, with whatever old markers the two tables still hold. */
  lemma TaskAgreesIff(l: Counter, r: Counter, t: Task)
    requires Below(l, t.first) && Below(r, t.first)
    ensures IssuedIDs(LiveStart(l, t), t.calls, LiveRun) == IssuedIDs(ReplayStart(r, t), t.calls, ReplayRun)
       <==> TaskWalks(t.calls, t.lead)
    ensures Below(Afters(LiveStart(l, t), t.calls, LiveRun), UpperBound(t.first, t.calls))
    ensures Below(Afters(ReplayStart(r, t), t.calls, ReplayRun), UpperBound(t.first, t.calls))
  {
    var h, m := History(t.calls), MarkerEvents(t.first, t.calls);
    var start := ReplayStart(r, t);
    HistoryMarkers(t.first, t.calls);
    forall k | start.next <= k ensures Alike(start.markers, t.first, h, k) {
      assert Alike(m, t.first, h, k);
    }
    WalkFollows(LiveStart(l, t), start, t.first, h, t.calls, Start(t.lead));
    AftersBelow(LiveStart(l, t), t.calls, LiveRun, UpperBound(t.first, t.calls));
    AftersBelow(start, t.calls, ReplayRun, UpperBound(t.first, t.calls));
  }

  /** Over any number of workflow tasks, replay gives every command of every task its live ID exactly
      when the walk over each task's own events comes out right. */
  lemma {:induction false} ReplayAgreesOverTasks(l: Counter, r: Counter, n: int, tasks: seq<Task>)
    requires Below(l, n) && Below(r, n) && Ordered(n, tasks)
    ensures LiveIDs(l, tasks) == ReplayIDs(r, tasks)
       <==> forall k | 0 <= k < |tasks| :: TaskWalks(tasks[k].calls, tasks[k].lead)
    decreases |tasks|
  {
    if tasks != [] {
      var t := tasks[0];
      TaskAgreesIff(l, r, t);
      var l', r' := Afters(LiveStart(l, t), t.calls, LiveRun), Afters(ReplayStart(r, t), t.calls, ReplayRun);
      ReplayAgreesOverTasks(l', r', UpperBound(t.first, t.calls), tasks[1..]);
      assert LiveIDs(l, tasks)[1..] == LiveIDs(l', tasks[1..]);
      assert ReplayIDs(r, tasks)[1..] == ReplayIDs(r', tasks[1..]);
      assert forall k | 1 <= k < |tasks| :: tasks[k] == tasks[1..][k - 1];
      assert forall k | 0 <= k < |tasks| - 1 :: tasks[1..][k] == tasks[k + 1];
    }
  }

  /** It does so if no task slips; and only then, when all tasks are settled. */
  lemma ReplaySlipsOverTasks(l: Counter, r: Counter, n: int, tasks: seq<Task>)
    requires Below(l, n) && Below(r, n) && Ordered(n, tasks)
    ensures (forall k | 0 <= k < |tasks| :: !TaskSlips(tasks[k].calls, tasks[k].lead))
        ==> LiveIDs(l, tasks) == ReplayIDs(r, tasks)
    ensures (forall k | 0 <= k < |tasks| :: Settled(tasks[k].calls, tasks[k].lead)) ==>
              (LiveIDs(l, tasks) == ReplayIDs(r, tasks)
               <==> forall k | 0 <= k < |tasks| :: !TaskSlips(tasks[k].calls, tasks[k].lead))
  {
    ReplayAgreesOverTasks(l, r, n, tasks);
    forall k | 0 <= k < |tasks|
      ensures !TaskSlips(tasks[k].calls, tasks[k].lead) ==> TaskWalks(tasks[k].calls, tasks[k].lead)
      ensures Settled(tasks[k].calls, tasks[k].lead) ==>
                (TaskWalks(tasks[k].calls, tasks[k].lead) <==> !TaskSlips(tasks[k].calls, tasks[k].lead))
    {
      TaskSlipsIff(tasks[k].calls, tasks[k].lead);
    }
  }
}
