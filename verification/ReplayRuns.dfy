/** Workflow tasks on which replay gets out of step, or just does not. */
module ReplayRuns {
  import opened EventCounter
  import opened ReplayAgreement
  import opened ReplaySlips

  const NARROW := VersionMarker("change", false)
  const LAST := [Issue, Version(NARROW)]

  /** GetVersion, cancel a started child, issue a command: live the command is event 12, in replay 11. */
  lemma ReplayDisagreesAfterChildCancel()
    ensures var calls := [Version(NARROW), CancelStartedChild, Issue];
            && IssuedIDs(Counter(10, map[]), calls, LiveRun) == [12]
            && IssuedIDs(Counter(10, MarkerEvents(10, calls)), calls, ReplayRun) == [11]
  {
    var calls := [Version(NARROW), CancelStartedChild, Issue];
    var live := Counter(10, map[]);
    assert calls[1..] == [CancelStartedChild, Issue] && calls[1..][1..] == [Issue];
    assert MarkerEvents(12, [Issue]) == map[] by { assert [Issue][1..] == []; }
    assert MarkerEvents(11, calls[1..]) == map[];
    assert MarkerEvents(10, calls) == map[10 := NARROW];
    var replay := Counter(10, map[10 := NARROW]);
    assert replay.Bump().Skip() == replay.Bump();
    assert IssuedIDs(replay.Bump(), [Issue], ReplayRun) == [11];
    assert live.Add() == Counter(11, map[]) && live.Add().Bump().Skip().next == 12;
    assert IssuedIDs(live.Add().Bump(), [Issue], LiveRun) == [12];
    assert IssuedIDs(live, calls, LiveRun) == IssuedIDs(live.Add(), calls[1..], LiveRun);
    assert IssuedIDs(replay, calls, ReplayRun) == IssuedIDs(replay, calls[1..], ReplayRun);
  }

  /** Issue a command and call GetVersion, at the end of a task. */
  lemma LastIssued(c: Counter, mode: Mode)
    ensures IssuedIDs(c, LAST, mode) == [c.Skip().next]
  {
    assert LAST[1..] == [Version(NARROW)] && [Version(NARROW)][1..] == [];
    assert IssuedIDs(c.Add(), LAST[1..], mode) == [];
  }

  /** Take back two commands, issue one, call GetVersion: live the command is event 14, in replay 15. */
  lemma ReplayDisagreesAfterTakenBack()
    ensures var calls := [TakenBack, TakenBack] + LAST;
            && IssuedIDs(Counter(12, map[]), calls, LiveRun) == [14]
            && IssuedIDs(Counter(12, MarkerEvents(12, calls)), calls, ReplayRun) == [15]
  {
    var calls := [TakenBack, TakenBack] + LAST;
    var live, replay := Counter(12, map[]), Counter(12, map[13 := NARROW]);
    assert calls[1..] == [TakenBack] + LAST && calls[1..][1..] == LAST;
    assert MarkerEvents(12, LAST) == map[13 := NARROW] by {
      assert LAST[1..] == [Version(NARROW)] && [Version(NARROW)][1..] == [];
      assert MarkerEvents(13, LAST[1..]) == map[13 := NARROW];
    }
    assert MarkerEvents(12, calls) == MarkerEvents(12, calls[1..]) == map[13 := NARROW];
    assert live.Add() == Counter(13, map[]) && live.Add().Add() == Counter(14, map[]);
    assert replay.Add() == Counter(13, map[13 := NARROW]);
    assert replay.Add().Skip() == Counter(14, map[]) by {
      assert map[13 := NARROW] - {13} == map[] && Counter(14, map[]).Skip() == Counter(14, map[]);
    }
    LastIssued(live.Add().Add(), LiveRun);
    LastIssued(replay.Add().Add(), ReplayRun);
    assert IssuedIDs(live.Add(), calls[1..], LiveRun) == [14];
    assert IssuedIDs(replay.Add(), calls[1..], ReplayRun) == [15];
  }

  /** GetVersion, an unchanged MutableSideEffect, cancel a started child, issue a command: the ID that
      replay reads in between takes it over the marker. */
  lemma RecallKeepsStep()
    ensures var calls := [Version(NARROW), Recall, CancelStartedChild, Issue];
            !TaskSlips(calls, 0) && TaskWalks(calls, 0)
  {
    var calls := [Version(NARROW), Recall, CancelStartedChild, Issue];
    var tail := [CancelStartedChild, Issue];
    assert calls[1..] == [Recall, CancelStartedChild, Issue] && calls[1..][1..] == tail;
    assert tail[1..] == [Issue] && [Issue][1..] == [];
    assert !Slips([Issue], 0, Clean);
    assert !Slips(tail, 0, Read);
    assert !Slips(calls[1..], 0, Unread);
    TaskSlipsIff(calls, 0);
  }

  const FIRST := [Version(NARROW), CancelStartedChild, TakenBack, TakenBack]

  lemma FirstTails()
    ensures (FIRST + LAST)[1..][1..][1..][1..] == LAST
  {
    assert (FIRST + LAST)[4..] == LAST;
  }

  lemma LastHistory()
    ensures History(FIRST + LAST) == [Marked(NARROW), Plain, Plain, Marked(NARROW)]
  {
    var calls := FIRST + LAST;
    FirstTails();
    assert LAST[1..] == [Version(NARROW)] && [Version(NARROW)][1..] == [];
    assert History(LAST[1..]) == [Marked(NARROW)];
    assert History(LAST) == [Plain, Marked(NARROW)];
    assert History(calls[1..][1..]) == History(LAST);
    assert History(calls[1..]) == [Plain, Plain, Marked(NARROW)];
  }

  lemma LastTrails()
    ensures Trailing(FIRST + LAST)
  {
    var calls := FIRST + LAST;
    FirstTails();
    assert LAST[1..] == [Version(NARROW)] && [Version(NARROW)][1..] == [];
    assert Trailing(LAST[1..]);
    assert Trailing(LAST);
    assert Trailing(calls[1..][1..]);
  }

  /** A marker that a child took can be made up for by one that the task writes last: replay slips, and
      still its only command agrees. */
  lemma LastVersionMakesUp()
    ensures var calls := FIRST + LAST;
            TaskSlips(calls, 0) && TaskWalks(calls, 0) && !Settled(calls, 0)
  {
    var calls, h := FIRST + LAST, [Marked(NARROW), Plain, Plain, Marked(NARROW)];
    FirstTails();
    LastHistory();
    LastTrails();
    assert calls[1..][1..][2].Issue?;
    assert SlipsHere(calls[1..], 0, Unread);
    assert LAST[1..] == [Version(NARROW)] && [Version(NARROW)][1..] == [];
    assert Jump(h, 1) == 1 && Jump(h, 2) == 2 && Jump(h, 3) == 4;
    assert Walks(h, LAST, Place(3, 2, 2));
    assert Walks(h, calls[1..][1..][1..], Place(2, 2, 1));
    assert Walks(h, calls[1..][1..], Place(1, 2, 0));
    assert Walks(h, calls[1..], Place(0, 1, 0));
    assert calls[2] == TakenBack && calls[1] == CancelStartedChild;
  }
}
