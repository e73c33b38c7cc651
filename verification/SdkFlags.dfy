/** SDK flags: what a live run may use, and what replay of it then may. */
module SdkFlags {
  import opened Basics

  type Flag = int

  /** Whether the server keeps SDK metadata, and the table of allowed flags. */
  datatype Capability = Capability(sdkMetadata: bool, allowed: set<Flag>) {
    predicate Grants(flag: Flag) {
      sdkMetadata && flag in allowed
    }
  }

  /** `currentFlags` and `newFlags`. */
  datatype Flags = Flags(current: set<Flag>, unsent: set<Flag>) {
    predicate Has(flag: Flag) {
      flag in current || flag in unsent
    }
  }

  function Answer(cap: Capability, s: Flags, flag: Flag, record: bool): bool {
    s.Has(flag) || (record && cap.Grants(flag))
  }

  function Use(cap: Capability, s: Flags, flag: Flag, record: bool): Flags {
    if !s.Has(flag) && record && cap.Grants(flag) then s.(unsent := s.unsent + {flag}) else s
  }

  /** The answers of one workflow task, and the state after it. */
  function Answers(cap: Capability, s: Flags, uses: seq<Flag>, record: bool): seq<bool>
    decreases |uses|
  {
    if uses == [] then []
    else [Answer(cap, s, uses[0], record)] + Answers(cap, Use(cap, s, uses[0], record), uses[1..], record)
  }

  function UseAll(cap: Capability, s: Flags, uses: seq<Flag>, record: bool): Flags
    decreases |uses|
  {
    if uses == [] then s else UseAll(cap, Use(cap, s, uses[0], record), uses[1..], record)
  }

  function Sent(s: Flags): Flags {
    Flags(s.current + s.unsent, {})
  }

  /** A live run: each task uses flags, its new flags are gathered, and marked as sent. */
  function LiveAnswers(cap: Capability, s: Flags, tasks: seq<seq<Flag>>): seq<seq<bool>>
    decreases |tasks|
  {
    if tasks == [] then []
    else [Answers(cap, s, tasks[0], true)] + LiveAnswers(cap, Sent(UseAll(cap, s, tasks[0], true)), tasks[1..])
  }

  function Gathered(cap: Capability, s: Flags, tasks: seq<seq<Flag>>): seq<set<Flag>>
    decreases |tasks|
  {
    if tasks == [] then []
    else
      var t := UseAll(cap, s, tasks[0], true);
      [t.unsent] + Gathered(cap, Sent(t), tasks[1..])
  }

  /** Replay: the flags gathered in a task are set before it, and nothing is recorded. */
  function ReplayAnswers(cap: Capability, s: Flags, tasks: seq<seq<Flag>>, gathered: seq<set<Flag>>): seq<seq<bool>>
    requires |gathered| == |tasks|
    decreases |tasks|
  {
    if tasks == [] then []
    else
      var t := s.(current := s.current + gathered[0]);
      [Answers(cap, t, tasks[0], false)]
      + ReplayAnswers(cap, UseAll(cap, t, tasks[0], false), tasks[1..], gathered[1..])
  }

  lemma {:induction false} LiveTask(cap: Capability, s: Flags, uses: seq<Flag>)
    ensures |Answers(cap, s, uses, true)| == |uses|
    ensures forall i | 0 <= i < |uses| :: Answers(cap, s, uses, true)[i] == (s.Has(uses[i]) || cap.Grants(uses[i]))
    ensures var t := UseAll(cap, s, uses, true);
            && t.current == s.current && s.unsent <= t.unsent
            && (forall f | f in t.unsent - s.unsent :: f !in s.current && cap.Grants(f))
            && (forall i | 0 <= i < |uses| :: t.Has(uses[i]) <==> s.Has(uses[i]) || cap.Grants(uses[i]))
    decreases |uses|
  {
    if uses != [] {
      var s1 := Use(cap, s, uses[0], true);
      LiveTask(cap, s1, uses[1..]);
      forall i | 0 < i < |uses|
        ensures Answers(cap, s, uses, true)[i] == (s.Has(uses[i]) || cap.Grants(uses[i]))
        ensures UseAll(cap, s, uses, true).Has(uses[i]) <==> s.Has(uses[i]) || cap.Grants(uses[i])
      {
        assert uses[i] == uses[1..][i - 1];
        assert s1.Has(uses[i]) || cap.Grants(uses[i]) <==> s.Has(uses[i]) || cap.Grants(uses[i]);
      }
    }
  }

  /** Without recording, using flags changes nothing. */
  lemma {:induction false} ReplayTask(cap: Capability, s: Flags, uses: seq<Flag>)
    ensures UseAll(cap, s, uses, false) == s && |Answers(cap, s, uses, false)| == |uses|
    ensures forall i | 0 <= i < |uses| :: Answers(cap, s, uses, false)[i] == s.Has(uses[i])
    decreases |uses|
  {
    if uses != [] {
      ReplayTask(cap, s, uses[1..]);
    }
  }

  /** The flags after the tasks of a live run, and after their replay. */
  function LiveEnd(cap: Capability, s: Flags, tasks: seq<seq<Flag>>): Flags
    decreases |tasks|
  {
    if tasks == [] then s else LiveEnd(cap, Sent(UseAll(cap, s, tasks[0], true)), tasks[1..])
  }

  function ReplayEnd(cap: Capability, s: Flags, tasks: seq<seq<Flag>>, gathered: seq<set<Flag>>): Flags
    requires |gathered| == |tasks|
    decreases |tasks|
  {
    if tasks == [] then s
    else ReplayEnd(cap, UseAll(cap, s.(current := s.current + gathered[0]), tasks[0], false), tasks[1..], gathered[1..])
  }

  /** Replay that sets what the live run gathered gives the live answers, task by task, and leaves the
      flags of the live run, whatever the capability of the worker that replays. */
  lemma {:induction false} ReplayAnswersLive(cap: Capability, other: Capability, s: Flags, tasks: seq<seq<Flag>>)
    requires s.unsent == {}
    ensures |Gathered(cap, s, tasks)| == |tasks|
    ensures ReplayAnswers(other, s, tasks, Gathered(cap, s, tasks)) == LiveAnswers(cap, s, tasks)
    ensures ReplayEnd(other, s, tasks, Gathered(cap, s, tasks)) == LiveEnd(cap, s, tasks)
    decreases |tasks|
  {
    if tasks != [] {
      var live := UseAll(cap, s, tasks[0], true);
      var replay := s.(current := s.current + live.unsent);
      LiveTask(cap, s, tasks[0]);
      ReplayTask(other, replay, tasks[0]);
      ReplayAnswersLive(cap, other, Sent(live), tasks[1..]);
      assert replay == Sent(live);
      assert Answers(other, replay, tasks[0], false) == Answers(cap, s, tasks[0], true);
    }
  }

  lemma {:induction false} LiveConcat(cap: Capability, s: Flags, a: seq<seq<Flag>>, b: seq<seq<Flag>>)
    ensures LiveAnswers(cap, s, a + b) == LiveAnswers(cap, s, a) + LiveAnswers(cap, LiveEnd(cap, s, a), b)
    ensures Gathered(cap, s, a + b) == Gathered(cap, s, a) + Gathered(cap, LiveEnd(cap, s, a), b)
    decreases |a|
  {
    if a == [] {
      assert a + b == b;
    } else {
      assert (a + b)[0] == a[0] && (a + b)[1..] == a[1..] + b;
      LiveConcat(cap, Sent(UseAll(cap, s, a[0], true)), a[1..], b);
    }
  }

  /** A worker that replays the tasks `done`, with any capability, and goes on live with `rest` gives the
      answers, and gathers the flags, of a worker that never stopped. */
  lemma RestartAnswersLive(cap: Capability, other: Capability, s: Flags, done: seq<seq<Flag>>, rest: seq<seq<Flag>>)
    requires s.unsent == {}
    ensures |Gathered(cap, s, done)| == |done|
    ensures var restarted := ReplayEnd(other, s, done, Gathered(cap, s, done));
            && ReplayAnswers(other, s, done, Gathered(cap, s, done)) + LiveAnswers(cap, restarted, rest)
               == LiveAnswers(cap, s, done + rest)
            && Gathered(cap, s, done) + Gathered(cap, restarted, rest) == Gathered(cap, s, done + rest)
  {
    ReplayAnswersLive(cap, other, s, done);
    LiveConcat(cap, s, done, rest);
  }

  /** Whatever came before, a live run gives each flag one answer in all tasks. */
  lemma {:induction false} LiveAnswersConstant(cap: Capability, s: Flags, tasks: seq<seq<Flag>>, t: nat, i: nat)
    requires s.unsent == {} && t < |tasks| && i < |tasks[t]|
    ensures |LiveAnswers(cap, s, tasks)| == |tasks| && |LiveAnswers(cap, s, tasks)[t]| == |tasks[t]|
    ensures LiveAnswers(cap, s, tasks)[t][i] <==>
              tasks[t][i] in s.current || (cap.sdkMetadata && tasks[t][i] in cap.allowed)
    decreases t
  {
    LiveTask(cap, s, tasks[0]);
    LiveLength(cap, s, tasks);
    if t != 0 {
      var next := Sent(UseAll(cap, s, tasks[0], true));
      LiveAnswersConstant(cap, next, tasks[1..], t - 1, i);
      var f := tasks[t][i];
      assert f in next.current || cap.Grants(f) <==> f in s.current || cap.Grants(f);
    }
  }

  lemma {:induction false} LiveLength(cap: Capability, s: Flags, tasks: seq<seq<Flag>>)
    ensures |LiveAnswers(cap, s, tasks)| == |Gathered(cap, s, tasks)| == |tasks|
    decreases |tasks|
  {
    if tasks != [] {
      LiveLength(cap, Sent(UseAll(cap, s, tasks[0], true)), tasks[1..]);
    }
  }

  lemma {:induction false} GatheredNew(cap: Capability, s: Flags, tasks: seq<seq<Flag>>, t: nat)
    requires s.unsent == {} && t < |tasks|
    ensures |Gathered(cap, s, tasks)| == |tasks| && Gathered(cap, s, tasks)[t] !! s.current
    decreases t
  {
    LiveLength(cap, s, tasks);
    LiveTask(cap, s, tasks[0]);
    if t == 0 {
      var live := UseAll(cap, s, tasks[0], true);
      forall f | f in live.unsent ensures f !in s.current {
        assert f in live.unsent - s.unsent;
      }
    } else {
      GatheredNew(cap, Sent(UseAll(cap, s, tasks[0], true)), tasks[1..], t - 1);
    }
  }

  /** A flag is gathered in at most one task. */
  lemma {:induction false} GatheredOnce(cap: Capability, s: Flags, tasks: seq<seq<Flag>>, t: nat, u: nat)
    requires s.unsent == {} && t < u < |tasks|
    ensures |Gathered(cap, s, tasks)| == |tasks|
    ensures Gathered(cap, s, tasks)[t] !! Gathered(cap, s, tasks)[u]
    decreases t
  {
    LiveLength(cap, s, tasks);
    var next := Sent(UseAll(cap, s, tasks[0], true));
    if t == 0 {
      GatheredNew(cap, next, tasks[1..], u - 1);
    } else {
      GatheredOnce(cap, next, tasks[1..], t - 1, u - 1);
    }
  }

  /** The flag set as the program keeps it. */
  class FlagSet {
    const cap: Capability
    var currentFlags: set<Flag>
    var newFlags: set<Flag>

    ghost function View(): Flags
      reads this
    {
      Flags(currentFlags, newFlags)
    }

    constructor (cap: Capability)
      ensures this.cap == cap && View() == Flags({}, {})
    {
      this.cap, currentFlags, newFlags := cap, {}, {};
    }

    method TryUse(flag: Flag, record: bool) returns (usable: bool)
      modifies this`newFlags
      ensures usable == Answer(cap, old(View()), flag, record) && View() == Use(cap, old(View()), flag, record)
    {
      if flag in currentFlags || flag in newFlags {
        return true;
      }
      if !cap.sdkMetadata || !record || flag !in cap.allowed {
        return false;
      }
      newFlags := newFlags + {flag};
      return true;
    }

    method Set(flags: seq<Flag>)
      modifies this`currentFlags
      ensures currentFlags == old(currentFlags) + set f | f in flags
    {
      for i := 0 to |flags|
        invariant currentFlags == old(currentFlags) + set f | f in flags[..i]
      {
        currentFlags := currentFlags + {flags[i]};
      }
      assert flags[..|flags|] == flags;
    }

    method MarkSent()
      modifies this
      ensures View() == Sent(old(View()))
    {
      var todo := newFlags;
      while todo != {}
        invariant todo <= newFlags == old(newFlags)
        invariant currentFlags == old(currentFlags) + (newFlags - todo)
      {
        ghost var any := AnyElement(todo);
        var flag: Flag :| flag in todo;
        currentFlags := currentFlags + {flag};
        todo := todo - {flag};
      }
      newFlags := {};
    }

    method GatherNew() returns (flags: seq<Flag>)
      ensures (set f | f in flags) == newFlags && |flags| == |newFlags|
    {
      flags := [];
      var todo := newFlags;
      while todo != {}
        invariant todo <= newFlags && (set f | f in flags) == newFlags - todo && |flags| + |todo| == |newFlags|
      {
        ghost var any := AnyElement(todo);
        var flag: Flag :| flag in todo;
        assert (set f | f in flags + [flag]) == (set f | f in flags) + {flag};
        flags := flags + [flag];
        todo := todo - {flag};
      }
    }
  }
}
