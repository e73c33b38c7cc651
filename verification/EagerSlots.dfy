/** Eager activity execution: slots reserved for a workflow task and what becomes of them. */
module EagerSlots {
  import opened Basics

  datatype Config = Config(disabled: bool, hasWorker: bool, taskQueue: string, maxConcurrent: int, maxPerTask: int)

  datatype Command = ScheduleActivity(taskQueue: string, eager: bool) | OtherCommand

  predicate Requests(cfg: Config, c: Command) {
    !cfg.disabled && cfg.hasWorker && c.ScheduleActivity? && c.eager && c.taskQueue == cfg.taskQueue
  }

  predicate HasRoom(cfg: Config, held: int) {
    cfg.maxConcurrent <= 0 || held < cfg.maxConcurrent
  }

  /** Which commands stay flagged: one that asks for it does when the request has not used up its share,
      there is room, and the worker has a slot (`grants`, one answer per position). */
  function Flags(cfg: Config, cs: seq<Command>, grants: seq<bool>, held: int, used: nat): seq<bool>
    requires |grants| == |cs|
    decreases |cs|
  {
    if cs == [] then []
    else
      var flag := Granted(cfg, cs[0], used, held, grants[0]);
      var n := if flag then 1 else 0;
      [flag] + Flags(cfg, cs[1..], grants[1..], held + n, used + n)
  }

  function Count(flags: seq<bool>): nat {
    if flags == [] then 0 else (if flags[0] then 1 else 0) + Count(flags[1..])
  }

  function WithFlag(c: Command, flag: bool): Command {
    if c.ScheduleActivity? then c.(eager := flag) else c
  }

  function Granted(cfg: Config, c: Command, used: nat, held: int, granted: bool): bool {
    Requests(cfg, c) && used < cfg.maxPerTask && HasRoom(cfg, held) && granted
  }

  /** With `used` of the first `i` commands flagged, the rest of `flags` is still to come. */
  ghost predicate OnTrack(cfg: Config, cs: seq<Command>, grants: seq<bool>, held: int, used: nat, flags: seq<bool>,
                          i: nat)
  {
    && |grants| == |cs| == |flags| && i <= |cs|
    && flags[i..] == Flags(cfg, cs[i..], grants[i..], held, used) && Count(flags[..i]) == used
  }

  lemma TrackStart(cfg: Config, cs: seq<Command>, grants: seq<bool>, held: int)
    requires |grants| == |cs|
    ensures OnTrack(cfg, cs, grants, held, 0, Flags(cfg, cs, grants, held, 0), 0)
  {
    var flags := Flags(cfg, cs, grants, held, 0);
    FlagsLength(cfg, cs, grants, held, 0);
    assert cs[0..] == cs && grants[0..] == grants && flags[0..] == flags && flags[..0] == [];
  }

  lemma TrackEnd(cfg: Config, cs: seq<Command>, grants: seq<bool>, held: int, used: nat, flags: seq<bool>)
    requires OnTrack(cfg, cs, grants, held, used, flags, |cs|)
    ensures Count(flags) == used
  {
    assert flags[..|cs|] == flags;
  }

  lemma FlagsStep(cfg: Config, cs: seq<Command>, grants: seq<bool>, held: int, used: nat, flags: seq<bool>, i: nat)
    requires OnTrack(cfg, cs, grants, held, used, flags, i) && i < |cs|
    ensures flags[i] == Granted(cfg, cs[i], used, held, grants[i])
    ensures var n := if flags[i] then 1 else 0; OnTrack(cfg, cs, grants, held + n, used + n, flags, i + 1)
  {
    assert flags[i..][0] == flags[i] && flags[i..][1..] == flags[i + 1..];
    assert cs[i..][1..] == cs[i + 1..] && grants[i..][1..] == grants[i + 1..];
    assert flags[..i + 1] == flags[..i] + [flags[i]];
    CountSnoc(flags[..i], flags[i]);
  }

  lemma {:induction false} CountSnoc(flags: seq<bool>, b: bool)
    ensures Count(flags + [b]) == Count(flags) + if b then 1 else 0
  {
    if flags == [] {
      assert [b][1..] == [];
    } else {
      assert (flags + [b])[1..] == flags[1..] + [b];
      CountSnoc(flags[1..], b);
    }
  }

  /** At most `maxPerTask` commands stay flagged, the held slots stay within the maximum, and a flagged
      command asked for it. */
  lemma {:induction false} FlagsWithinLimits(cfg: Config, cs: seq<Command>, grants: seq<bool>, held: int, used: nat)
    requires |grants| == |cs| && used <= cfg.maxPerTask && (cfg.maxConcurrent > 0 ==> held <= cfg.maxConcurrent)
    ensures |Flags(cfg, cs, grants, held, used)| == |cs|
    ensures used + Count(Flags(cfg, cs, grants, held, used)) <= cfg.maxPerTask
    ensures cfg.maxConcurrent > 0 ==> held + Count(Flags(cfg, cs, grants, held, used)) <= cfg.maxConcurrent
    ensures forall i | 0 <= i < |cs| :: Flags(cfg, cs, grants, held, used)[i] ==>
              grants[i] && cs[i] == ScheduleActivity(cfg.taskQueue, true) && cfg.hasWorker && !cfg.disabled
    decreases |cs|
  {
    if cs != [] {
      var flag := Flags(cfg, cs, grants, held, used)[0];
      var n := if flag then 1 else 0;
      FlagsWithinLimits(cfg, cs[1..], grants[1..], held + n, used + n);
    }
  }

  lemma AtMostPerTask(cfg: Config, cs: seq<Command>, grants: seq<bool>, held: int)
    requires |grants| == |cs| && 0 <= cfg.maxPerTask && (cfg.maxConcurrent > 0 ==> held <= cfg.maxConcurrent)
    ensures |Flags(cfg, cs, grants, held, 0)| == |cs| && Count(Flags(cfg, cs, grants, held, 0)) <= cfg.maxPerTask
  {
    FlagsWithinLimits(cfg, cs, grants, held, 0);
  }

  /** The first `i` commands have their flags, the others are as they were. */
  ghost predicate Marked(cs: seq<Command>, now: seq<Command>, flags: seq<bool>, i: nat) {
    && |now| == |cs| == |flags| && i <= |cs|
    && (forall k | 0 <= k < i :: now[k] == WithFlag(cs[k], flags[k])) && (forall k | i <= k < |cs| :: now[k] == cs[k])
  }

  lemma MarkedNext(cs: seq<Command>, now: seq<Command>, flags: seq<bool>, i: nat)
    requires Marked(cs, now, flags, i) && i < |cs|
    ensures now[i] == cs[i] && Marked(cs, now[i := WithFlag(cs[i], flags[i])], flags, i + 1)
  {}

  /** A command that asked is turned down only when a limit was reached or the worker had no slot. */
  lemma {:induction false} RefusedForCause(cfg: Config, cs: seq<Command>, grants: seq<bool>, held: int, used: nat,
                                           i: nat)
    requires |grants| == |cs| && i < |cs| && cs[i] == ScheduleActivity(cfg.taskQueue, true) && grants[i]
    requires cfg.hasWorker && !cfg.disabled
    ensures |Flags(cfg, cs, grants, held, used)| == |cs|
    ensures var before := Count(Flags(cfg, cs, grants, held, used)[..i]);
            Flags(cfg, cs, grants, held, used)[i] <==>
              used + before < cfg.maxPerTask && (cfg.maxConcurrent > 0 ==> held + before < cfg.maxConcurrent)
    decreases |cs|
  {
    var flags := Flags(cfg, cs, grants, held, used);
    var n := if flags[0] then 1 else 0;
    FlagsLength(cfg, cs[1..], grants[1..], held + n, used + n);
    if i != 0 {
      RefusedForCause(cfg, cs[1..], grants[1..], held + n, used + n, i - 1);
      assert flags[..i] == [flags[0]] + flags[1..][..i - 1];
    }
  }

  lemma {:induction false} FlagsLength(cfg: Config, cs: seq<Command>, grants: seq<bool>, held: int, used: nat)
    requires |grants| == |cs|
    ensures |Flags(cfg, cs, grants, held, used)| == |cs|
    decreases |cs|
  {
    if cs != [] {
      var n := if Flags(cfg, cs, grants, held, used)[0] then 1 else 0;
      FlagsLength(cfg, cs[1..], grants[1..], held + n, used + n);
    }
  }

  /** The permits handed out between two states of the permit counter. */
  function Permits(first: nat, next: nat): seq<nat>
    requires first <= next
  {
    seq(next - first, i requires 0 <= i => first + i)
  }

  ghost function Elements(s: seq<nat>): set<nat> {
    if s == [] then {} else {s[0]} + Elements(s[1..])
  }

  ghost predicate Distinct(s: seq<nat>) {
    forall i, j | 0 <= i < j < |s| :: s[i] != s[j]
  }

  lemma {:induction false} ElementsIn(s: seq<nat>, x: nat)
    ensures x in Elements(s) <==> x in s
  {
    if s != [] {
      ElementsIn(s[1..], x);
    }
  }

  lemma TailElements(s: seq<nat>, i: nat)
    requires i < |s| && Distinct(s)
    ensures Elements(s[i..]) == Elements(s[i + 1..]) + {s[i]}
    ensures s[i] in Elements(s) && s[i] !in Elements(s[i + 1..])
    ensures Reversed(s[i..]) == Reversed(s[i + 1..]) + [s[i]]
  {
    assert s[i..] == [s[i]] + s[i + 1..];
    ElementsIn(s, s[i]);
    ElementsIn(s[i + 1..], s[i]);
  }

  lemma {:induction false} ElementsSnoc(s: seq<nat>, x: nat)
    ensures Elements(s + [x]) == Elements(s) + {x}
  {
    if s == [] {
      assert s + [x] == [x] && [x][1..] == [];
    } else {
      assert (s + [x])[1..] == s[1..] + [x];
      ElementsSnoc(s[1..], x);
    }
  }

  lemma PermitsSnoc(first: nat, next: nat)
    requires first <= next
    ensures Permits(first, next + 1) == Permits(first, next) + [next]
    ensures Elements(Permits(first, next + 1)) == Elements(Permits(first, next)) + {next}
  {
    assert Permits(first, next + 1) == Permits(first, next) + [next];
    ElementsSnoc(Permits(first, next), next);
  }

  /** The executor; permits are numbered, and `outstanding` are those not released yet. */
  class Executor {
    const cfg: Config
    var heldSlotCount: int
    var nextPermit: nat
    var pushed: seq<(int, nat)>
    var released: seq<nat>
    ghost var outstanding: set<nat>

    ghost predicate Valid()
      reads this
    {
      && cfg.maxPerTask > 0
      && heldSlotCount == |outstanding| && (cfg.maxConcurrent > 0 ==> heldSlotCount <= cfg.maxConcurrent)
      && forall p | p in outstanding :: p < nextPermit
    }

    constructor (cfg: Config)
      requires cfg.maxPerTask > 0
      ensures Valid() && this.cfg == cfg && outstanding == {}
    {
      this.cfg := cfg;
      heldSlotCount, nextPermit, pushed, released, outstanding := 0, 0, [], [], {};
    }

    /** `reserveOnePendingSlot`; `granted` is the worker's answer. */
    method ReserveOnePendingSlot(granted: bool) returns (permit: Option<nat>)
      requires Valid()
      modifies this`heldSlotCount, this`nextPermit, this`outstanding
      ensures Valid() && (permit.Some? <==> HasRoom(cfg, old(heldSlotCount)) && granted)
      ensures permit.Some? ==> permit.value == old(nextPermit) && nextPermit == old(nextPermit) + 1
      ensures permit.Some? ==> outstanding == old(outstanding) + {permit.value}
      ensures permit.None? ==> outstanding == old(outstanding) && nextPermit == old(nextPermit)
    {
      if cfg.maxConcurrent > 0 && heldSlotCount >= cfg.maxConcurrent {
        return None;
      }
      if !granted {
        return None;
      }
      permit := Some(nextPermit);
      outstanding := outstanding + {nextPermit};
      nextPermit := nextPermit + 1;
      heldSlotCount := heldSlotCount + 1;
    }

    /** `releaseSlot` of the worker, which runs the callback set at reservation. */
    method ReleaseSlot(permit: nat)
      requires Valid() && permit in outstanding
      modifies this`heldSlotCount, this`released, this`outstanding
      ensures Valid() && outstanding == old(outstanding) - {permit} && released == old(released) + [permit]
    {
      released := released + [permit];
      outstanding := outstanding - {permit};
      heldSlotCount := heldSlotCount - 1;
    }

    /** The permits were handed out since the permit counter was `first`, and are outstanding. */
    ghost predicate Reserved(first: nat, before: set<nat>, permits: seq<nat>)
      reads this
    {
      first <= nextPermit && permits == Permits(first, nextPermit) && outstanding == before + Elements(permits)
    }

    /** One command of a request, with the permits reserved so far. */
    method ApplyToCommand(c: Command, granted: bool, permits: seq<nat>, ghost first: nat, ghost before: set<nat>)
      returns (r: Command, extended: seq<nat>)
      requires Valid() && Reserved(first, before, permits)
      modifies this`heldSlotCount, this`nextPermit, this`outstanding
      ensures Valid() && Reserved(first, before, extended)
      ensures var flag := Granted(cfg, c, |permits|, old(heldSlotCount), granted);
              var n := if flag then 1 else 0;
              && r == WithFlag(c, flag)
              && heldSlotCount == old(heldSlotCount) + n && |extended| == |permits| + n
    {
      r, extended := c, permits;
      if c.ScheduleActivity? {
        if cfg.disabled || !c.eager || !cfg.hasWorker || cfg.taskQueue != c.taskQueue || |permits| >= cfg.maxPerTask {
          r := c.(eager := false);
        } else {
          PermitsSnoc(first, nextPermit);
          var permit := ReserveOnePendingSlot(granted);
          if permit.Some? {
            extended := permits + [permit.value];
          }
          r := c.(eager := permit.Some?);
        }
      }
    }

    /** A request of which the first `i` commands are done: they have their flags, and each flag its permit. */
    ghost predicate Ongoing(cs: seq<Command>, now: seq<Command>, grants: seq<bool>, flags: seq<bool>,
                            permits: seq<nat>, first: nat, before: set<nat>, i: nat)
      reads this
    {
      && Valid() && OnTrack(cfg, cs, grants, heldSlotCount, |permits|, flags, i) && Marked(cs, now, flags, i)
      && Reserved(first, before, permits)
    }

    /** The next command of a request, in place. */
    method ApplyAt(commands: array<Command>, grants: seq<bool>, i: nat, permits: seq<nat>, ghost cs: seq<Command>,
                   ghost flags: seq<bool>, ghost first: nat, ghost before: set<nat>)
      returns (extended: seq<nat>)
      requires i < commands.Length == |grants| && Ongoing(cs, commands[..], grants, flags, permits, first, before, i)
      modifies this`heldSlotCount, this`nextPermit, this`outstanding, commands
      ensures Ongoing(cs, commands[..], grants, flags, extended, first, before, i + 1)
    {
      ghost var now := commands[..];
      FlagsStep(cfg, cs, grants, heldSlotCount, |permits|, flags, i);
      MarkedNext(cs, now, flags, i);
      var c;
      c, extended := ApplyToCommand(commands[i], grants[i], permits, first, before);
      commands[i] := c;
      assert commands[..] == now[i := c];
    }

    /** `applyToRequest`: one new permit for each command left flagged, and no more. */
    method ApplyToRequest(commands: array<Command>, grants: seq<bool>) returns (permits: seq<nat>)
      requires Valid() && |grants| == commands.Length
      modifies this`heldSlotCount, this`nextPermit, this`outstanding, commands
      ensures Valid() && Reserved(old(nextPermit), old(outstanding), permits)
      ensures var flags := Flags(cfg, old(commands[..]), grants, old(heldSlotCount), 0);
              && Marked(old(commands[..]), commands[..], flags, commands.Length)
              && |permits| == Count(flags) <= cfg.maxPerTask
    {
      ghost var cs, first, before := commands[..], nextPermit, outstanding;
      ghost var flags := Flags(cfg, cs, grants, heldSlotCount, 0);
      AtMostPerTask(cfg, cs, grants, heldSlotCount);
      TrackStart(cfg, cs, grants, heldSlotCount);
      permits := [];
      for i := 0 to commands.Length
        invariant Ongoing(cs, commands[..], grants, flags, permits, first, before, i)
      {
        permits := ApplyAt(commands, grants, i, permits, cs, flags, first, before);
      }
      TrackEnd(cfg, cs, grants, heldSlotCount, |permits|, flags);
    }

    /** The permits from position `i` on were released, the last one first. */
    ghost predicate Released(permits: seq<nat>, i: nat, before: set<nat>, earlier: seq<nat>)
      requires i <= |permits|
      reads this
    {
      released == earlier + Reversed(permits[i..]) && outstanding == before - Elements(permits[i..])
    }

    /** Releases the last permit that is left. */
    method ReleaseLast(left: seq<nat>, ghost permits: seq<nat>, ghost before: set<nat>, ghost earlier: seq<nat>)
      requires left != [] && left <= permits && Distinct(permits) && Elements(permits) <= before
      requires Valid() && Released(permits, |left|, before, earlier)
      modifies this`heldSlotCount, this`released, this`outstanding
      ensures Valid() && Released(permits, |left| - 1, before, earlier)
    {
      var i := |left| - 1;
      TailElements(permits, i);
      ReleaseSlot(left[i]);
      assert released == earlier + (Reversed(permits[i + 1..]) + [permits[i]]);
    }

    /** Releases the permits after the first `n`. */
    method ReleaseFrom(permits: seq<nat>, n: nat) returns (left: seq<nat>)
      requires Valid() && n <= |permits| && Elements(permits) <= outstanding && Distinct(permits)
      modifies this`heldSlotCount, this`released, this`outstanding
      ensures Valid() && left == permits[..n] && Released(permits, n, old(outstanding), old(released))
    {
      ghost var before, earlier := outstanding, released;
      left := permits;
      while |left| > n
        invariant n <= |left| && left <= permits && Valid() && Released(permits, |left|, before, earlier)
      {
        ReleaseLast(left, permits, before, earlier);
        left := left[..|left| - 1];
      }
    }

    /** `handleResponse`: returns false for more tasks than permits, which panics.  Otherwise every
        permit is used exactly once: the first ones go to the returned activities in order, the rest are released
        from the back. */
    method HandleResponse(tasks: seq<int>, permits: seq<nat>) returns (ok: bool)
      requires Valid() && Elements(permits) <= outstanding
      requires Distinct(permits)
      modifies this
      ensures Valid()
      ensures ok <==> !cfg.hasWorker || cfg.disabled || |tasks| <= |permits|
      ensures ok && cfg.hasWorker && !cfg.disabled ==>
                && pushed == old(pushed) + Attached(tasks, permits[..|tasks|])
                && released == old(released) + Reversed(permits[|tasks|..])
                && outstanding == old(outstanding) - Elements(permits[|tasks|..])
      ensures !ok || !cfg.hasWorker || cfg.disabled ==>
                pushed == old(pushed) && released == old(released) && outstanding == old(outstanding)
    {
      if !cfg.hasWorker || cfg.disabled || (|tasks| == 0 && |permits| == 0) {
        return true;
      }
      if |tasks| > |permits| {
        return false;
      }
      var left := ReleaseFrom(permits, |tasks|);
      label Released:
      for i := 0 to |tasks|
        invariant pushed == old(pushed) + Attached(tasks[..i], permits[..i])
        invariant unchanged@Released(`heldSlotCount, `released, `outstanding, `nextPermit)
      {
        pushed := pushed + [(tasks[i], left[i])];
      }
      assert tasks[..|tasks|] == tasks;
      return true;
    }
  }

  function Reversed(s: seq<nat>): seq<nat> {
    if s == [] then [] else Reversed(s[1..]) + [s[0]]
  }

  function Attached(tasks: seq<int>, permits: seq<nat>): seq<(int, nat)>
    requires |tasks| == |permits|
  {
    seq(|tasks|, i requires 0 <= i < |tasks| => (tasks[i], permits[i]))
  }
}
