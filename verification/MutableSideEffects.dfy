/** `MutableSideEffect`: recorded values by call count, garbage collected at every lookup. */
module MutableSideEffects {
  import opened Basics

  /** The recorded payloads of one side effect ID and how often it was called. */
  datatype Cell<P> = Cell(log: map<int, P>, count: nat)

  /** The latest call at or before `c` with a recorded value. */
  function LatestKey<P>(log: map<int, P>, c: int): (k: Option<int>)
    ensures k.Some? ==> 0 <= k.value <= c && k.value in log
    decreases c + 1
  {
    if c < 0 then None else if c in log then Some(c) else LatestKey(log, c - 1)
  }

  function Latest<P>(log: map<int, P>, c: int): Option<P> {
    match LatestKey(log, c)
    case Some(k) => Some(log[k])
    case None => None
  }

  /** Nothing is recorded after the latest key. */
  lemma {:induction false} LatestIsLast<P>(log: map<int, P>, c: int)
    ensures forall j | 0 <= j <= c && j in log :: LatestKey(log, c).Some? && j <= LatestKey(log, c).value
    decreases c + 1
  {
    if 0 <= c && c !in log {
      LatestIsLast(log, c - 1);
    }
  }

  /** What the garbage collection keeps: the entry just found and everything still to come. */
  function Prune<P>(log: map<int, P>, c: int): map<int, P> {
    var found := match LatestKey(log, c) case Some(k) => k case None => -1;
    map k | k in log && (k > c || k == found) :: log[k]
  }

  /** A marker read from history, a call in a live task, or a call in replay.  `recorded` says that
      the history has a marker for the next command ID, so that replay repeats the command. */
  datatype Action<P> = Load(hint: int, value: P) | LiveCall(computed: P) | ReplayCall(recorded: bool)

  /** The values returned so far, and the call counts of the marker commands recorded so far. */
  datatype Outcome<P> = Outcome(cell: Cell<P>, returned: seq<P>, markers: seq<int>)

  /** One action; `gc` switches the garbage collection.  In replay a call without a value panics. */
  function Act<P>(c: Cell<P>, a: Action<P>, equals: (P, P) -> bool, gc: bool): Result<Outcome<P>> {
    match a
    case Load(hint, value) => Ok(Outcome(c.(log := c.log[hint := value]), [], []))
    case LiveCall(computed) =>
      var n := c.count + 1;
      var log := if gc then Prune(c.log, n) else c.log;
      (match Latest(c.log, n)
       case Some(v) =>
         if equals(computed, v) then Ok(Outcome(Cell(log, n), [v], []))
         else Ok(Outcome(Cell(log[n := computed], n), [computed], [n]))
       case None => Ok(Outcome(Cell(log[n := computed], n), [computed], [n])))
    case ReplayCall(recorded) =>
      var n := c.count + 1;
      var log := if gc then Prune(c.log, n) else c.log;
      (match Latest(c.log, n)
       case Some(v) =>
         if recorded then Ok(Outcome(Cell(log[n := v], n), [v], [n])) else Ok(Outcome(Cell(log, n), [v], []))
       case None => Panic)
  }

  function Acts<P>(c: Cell<P>, actions: seq<Action<P>>, equals: (P, P) -> bool, gc: bool): Result<Outcome<P>>
    decreases |actions|
  {
    if actions == [] then Ok(Outcome(c, [], []))
    else
      var first :- Act(c, actions[0], equals, gc);
      var rest :- Acts(first.cell, actions[1..], equals, gc);
      Ok(rest.(returned := first.returned + rest.returned, markers := first.markers + rest.markers))
  }

  // ---------------------------------------------------------------- garbage collection

  /** Two logs that no lookup from call `c` on can tell apart. */
  ghost predicate Alike<P>(p: map<int, P>, q: map<int, P>, c: int) {
    && LatestKey(p, c) == LatestKey(q, c) && Latest(p, c) == Latest(q, c)
    && (forall k | c < k :: (k in p <==> k in q) && (k in p ==> p[k] == q[k]))
  }

  lemma AlikeNext<P>(p: map<int, P>, q: map<int, P>, c: nat)
    requires Alike(p, q, c)
    ensures Alike(p, q, c + 1)
  {
  }

  lemma PruneAlike<P>(p: map<int, P>, q: map<int, P>, c: nat)
    requires Alike(p, q, c)
    ensures Alike(Prune(p, c), q, c)
  {
    PruneLatest(p, c, c);
  }

  lemma {:induction false} PruneLatest<P>(p: map<int, P>, c: int, d: int)
    requires d <= c && LatestKey(p, c) == LatestKey(p, d)
    ensures LatestKey(Prune(p, c), d) == LatestKey(p, d)
    decreases d + 1
  {
    if 0 <= d && d !in p {
      PruneLatest(p, c, d - 1);
    }
  }

  lemma StoreAlike<P>(p: map<int, P>, q: map<int, P>, c: nat, k: int, v: P)
    requires Alike(p, q, c)
    ensures Alike(p[k := v], q[k := v], c)
  {
    LatestStored(p, c, k, v);
    LatestStored(q, c, k, v);
  }

  lemma {:induction false} LatestStored<P>(p: map<int, P>, c: int, k: int, v: P)
    ensures LatestKey(p[k := v], c) ==
              if 0 <= k <= c && (LatestKey(p, c).None? || LatestKey(p, c).value < k) then Some(k) else LatestKey(p, c)
    decreases c + 1
  {
    if 0 <= c && c !in p[k := v] {
      LatestStored(p, c - 1, k, v);
    }
  }

  /** Garbage collection is invisible: whatever is loaded, called live or called in replay, every
      call returns what it would return from the full log, and records a marker where it would. */
  lemma {:induction false} CollectionIsInvisible<P>(c: Cell<P>, d: Cell<P>, actions: seq<Action<P>>,
                                                    equals: (P, P) -> bool)
    requires c.count == d.count && Alike(c.log, d.log, c.count)
    ensures var x, y := Acts(c, actions, equals, true), Acts(d, actions, equals, false);
            && x.Ok? == y.Ok?
            && (x.Ok? ==> x.value.returned == y.value.returned && x.value.markers == y.value.markers)
    decreases |actions|
  {
    if actions != [] {
      ActAlike(c, d, actions[0], equals);
      if Act(c, actions[0], equals, true).Ok? {
        CollectionIsInvisible(Act(c, actions[0], equals, true).value.cell,
                              Act(d, actions[0], equals, false).value.cell, actions[1..], equals);
      }
    }
  }

  lemma ActAlike<P>(c: Cell<P>, d: Cell<P>, a: Action<P>, equals: (P, P) -> bool)
    requires c.count == d.count && Alike(c.log, d.log, c.count)
    ensures var x, y := Act(c, a, equals, true), Act(d, a, equals, false);
            && x.Ok? == y.Ok?
            && (x.Ok? ==> && x.value.returned == y.value.returned && x.value.markers == y.value.markers
                          && x.value.cell.count == y.value.cell.count
                          && Alike(x.value.cell.log, y.value.cell.log, x.value.cell.count))
  {
    if a.Load? {
      StoreAlike(c.log, d.log, c.count, a.hint, a.value);
    } else {
      var n := c.count + 1;
      AlikeNext(c.log, d.log, c.count);
      PruneAlike(c.log, d.log, n);
      if a.LiveCall? {
        StoreAlike(Prune(c.log, n), d.log, n, n, a.computed);
      } else if Latest(c.log, n).Some? {
        StoreAlike(Prune(c.log, n), d.log, n, n, Latest(c.log, n).value);
      }
    }
  }

  // ---------------------------------------------------------------- replay

  /** The live run, without garbage collection: one call per computed value. */
  function Live<P>(c: Cell<P>, computed: seq<P>, equals: (P, P) -> bool): Outcome<P>
    decreases |computed|
  {
    if computed == [] then Outcome(c, [], [])
    else
      var first := Act(c, LiveCall(computed[0]), equals, false).value;
      var rest := Live(first.cell, computed[1..], equals);
      rest.(returned := first.returned + rest.returned, markers := first.markers + rest.markers)
  }

  /** A replay of the calls of a live run that left `log`: only markers of later calls are loaded,
      and the marker of a call, if there is one, is loaded before the call. */
  predicate Faithful<P(==)>(log: map<int, P>, loaded: set<int>, count: nat, script: seq<Action<P>>)
    decreases |script|
  {
    script == [] ||
    match script[0]
    case Load(hint, value) =>
      count < hint && hint in log && log[hint] == value && Faithful(log, loaded + {hint}, count, script[1..])
    case LiveCall(_) => false
    case ReplayCall(_) =>
      (count + 1 in log ==> count + 1 in loaded) && Faithful(log, loaded, count + 1, script[1..])
  }

  function CallsIn<P>(script: seq<Action<P>>): nat {
    if script == [] then 0 else (if script[0].ReplayCall? then 1 else 0) + CallsIn(script[1..])
  }

  /** The history has a marker for a replayed call exactly when the live run recorded one. */
  predicate Marked<P>(log: map<int, P>, count: nat, script: seq<Action<P>>)
    decreases |script|
  {
    script == [] ||
    match script[0]
    case ReplayCall(recorded) => (recorded <==> count + 1 in log) && Marked(log, count + 1, script[1..])
    case Load(_, _) => Marked(log, count, script[1..])
    case LiveCall(_) => false
  }

  /** The recorded calls among `n` calls after the first `count`, in order. */
  function MarkersOf<P>(log: map<int, P>, count: nat, n: nat): seq<int>
    decreases n
  {
    if n == 0 then []
    else (if count + 1 in log then [count + 1] else []) + MarkersOf(log, count + 1, n - 1)
  }

  /** Replay returns at every call what the live run returned there, whichever calls were recorded
      and whichever markers replay repeats, with the garbage collection on.  A replay of all calls that
      finds the markers of the live run in the history repeats exactly the marker commands of that run. */
  lemma ReplayReturnsLive<P>(computed: seq<P>, script: seq<Action<P>>, equals: (P, P) -> bool)
    requires var live := Live(Cell(map[], 0), computed, equals);
             Faithful(live.cell.log, {}, 0, script) && CallsIn(script) <= |computed|
    ensures var live := Live(Cell(map[], 0), computed, equals);
            var replay := Acts(Cell(map[], 0), script, equals, true);
            && |live.returned| == |computed| && replay.Ok?
            && replay.value.returned == live.returned[..CallsIn(script)]
            && (Marked(live.cell.log, 0, script) && CallsIn(script) == |computed| ==>
                  replay.value.markers == live.markers)
  {
    var empty: Cell<P> := Cell(map[], 0);
    var live := Live(empty, computed, equals);
    LiveReturns(empty, computed, equals);
    LiveMarks(empty, computed, equals);
    ReplayFollows(live.cell.log, {}, empty, script, equals, live.returned);
    CollectionIsInvisible(empty, empty, script, equals);
    if Marked(live.cell.log, 0, script) {
      ReplayMarks(live.cell.log, empty, script, equals);
    }
  }

  /** The logs agree on the calls up to `n`. */
  ghost predicate AgreeUpTo<P>(p: map<int, P>, q: map<int, P>, n: int) {
    forall k | k <= n :: (k in p <==> k in q) && (k in q ==> p[k] == q[k])
  }

  ghost predicate KeysWithin<P>(log: map<int, P>, n: int) {
    forall k | k in log :: 0 < k <= n
  }

  /** From call `n` on, the log answers with these values. */
  ghost predicate Answers<P>(log: map<int, P>, n: int, returned: seq<P>) {
    forall i | 0 <= i < |returned| :: Latest(log, n + i) == Some(returned[i])
  }

  lemma AnswersCons<P>(log: map<int, P>, n: int, v: P, rest: seq<P>)
    requires Latest(log, n) == Some(v) && Answers(log, n + 1, rest)
    ensures Answers(log, n, [v] + rest)
  {
    forall i | 0 <= i < |[v] + rest| ensures Latest(log, n + i) == Some(([v] + rest)[i]) {
      if i > 0 {
        assert Latest(log, n + 1 + (i - 1)) == Some(rest[i - 1]);
      }
    }
  }

  lemma AnswersTail<P>(log: map<int, P>, n: int, returned: seq<P>)
    requires returned != [] && Answers(log, n, returned)
    ensures Latest(log, n) == Some(returned[0]) && Answers(log, n + 1, returned[1..])
  {
    assert Latest(log, n + 0) == Some(returned[0]);
    forall i | 0 <= i < |returned[1..]| ensures Latest(log, n + 1 + i) == Some(returned[1..][i]) {
      assert Latest(log, n + (i + 1)) == Some(returned[i + 1]);
    }
  }

  /** One live call returns the latest value of its log and leaves earlier calls alone. */
  lemma LiveCallEffect<P>(c: Cell<P>, computed: P, equals: (P, P) -> bool)
    requires KeysWithin(c.log, c.count) && (c.count > 0 ==> Latest(c.log, c.count).Some?)
    ensures var first := Act(c, LiveCall(computed), equals, false).value;
            && |first.returned| == 1 && first.cell.count == c.count + 1
            && KeysWithin(first.cell.log, first.cell.count) && AgreeUpTo(first.cell.log, c.log, c.count)
            && Latest(first.cell.log, first.cell.count) == Some(first.returned[0])
            && first.markers == if first.cell.count in first.cell.log then [first.cell.count] else []
  {}

  /** Live calls return the latest value of the log they leave behind. */
  lemma {:induction false} LiveReturns<P>(c: Cell<P>, computed: seq<P>, equals: (P, P) -> bool)
    requires KeysWithin(c.log, c.count) && (c.count > 0 ==> Latest(c.log, c.count).Some?)
    ensures var live := Live(c, computed, equals);
            && |live.returned| == |computed| && live.cell.count == c.count + |computed|
            && AgreeUpTo(live.cell.log, c.log, c.count) && KeysWithin(live.cell.log, live.cell.count)
            && Answers(live.cell.log, c.count + 1, live.returned)
    decreases |computed|
  {
    if computed != [] {
      var first := Act(c, LiveCall(computed[0]), equals, false).value;
      LiveCallEffect(c, computed[0], equals);
      LiveReturns(first.cell, computed[1..], equals);
      var rest := Live(first.cell, computed[1..], equals);
      SameUpTo(rest.cell.log, first.cell.log, c.count + 1);
      AnswersCons(rest.cell.log, c.count + 1, first.returned[0], rest.returned);
      assert first.returned == [first.returned[0]];
    }
  }

  // ---------------------------------------------------------------- what a live run records

  /** What call `i` of a run is compared with: the value returned by the call before it. */
  function Before<P>(c: Cell<P>, returned: seq<P>, i: nat): Option<P>
    requires i <= |returned|
  {
    if i == 0 then Latest(c.log, c.count) else Some(returned[i - 1])
  }

  predicate Fresh<P>(before: Option<P>, computed: P, equals: (P, P) -> bool) {
    before.None? || !equals(computed, before.value)
  }

  /** Call `i` returns and records its computed value if that is new, and else repeats the value before. */
  ghost predicate CallKept<P>(c: Cell<P>, computed: seq<P>, equals: (P, P) -> bool, live: Outcome<P>, i: nat)
    requires i < |computed| == |live.returned|
  {
    var before := Before(c, live.returned, i);
    var isNew := Fresh(before, computed[i], equals);
    && live.returned[i] == (if isNew then computed[i] else before.value)
    && (c.count + 1 + i in live.cell.log <==> isNew)
    && (isNew ==> live.cell.log[c.count + 1 + i] == computed[i])
  }

  lemma FirstKept<P>(c: Cell<P>, computed: P, equals: (P, P) -> bool)
    requires KeysWithin(c.log, c.count)
    ensures CallKept(c, [computed], equals, Act(c, LiveCall(computed), equals, false).value, 0)
  {}

  /** The call stays as it was when more calls follow it. */
  lemma KeptByRest<P>(c: Cell<P>, computed: seq<P>, equals: (P, P) -> bool, first: Outcome<P>, live: Outcome<P>)
    requires |computed| == |live.returned| > 0 && |first.returned| == 1 && live.returned[0] == first.returned[0]
    requires CallKept(c, [computed[0]], equals, first, 0)
    requires AgreeUpTo(live.cell.log, first.cell.log, c.count + 1)
    ensures CallKept(c, computed, equals, live, 0)
  {}

  /** Call `i` of the run is call `i - 1` of its rest. */
  lemma KeptInRest<P>(c: Cell<P>, computed: seq<P>, equals: (P, P) -> bool, d: Cell<P>, rest: Outcome<P>,
                      live: Outcome<P>, i: nat)
    requires 0 < i < |computed| == |live.returned| == |rest.returned| + 1
    requires d.count == c.count + 1 && Latest(d.log, d.count) == Some(live.returned[0])
    requires live.cell == rest.cell && live.returned[1..] == rest.returned
    requires CallKept(d, computed[1..], equals, rest, i - 1)
    ensures CallKept(c, computed, equals, live, i)
  {
    assert Before(c, live.returned, i) == Before(d, rest.returned, i - 1);
    assert live.returned[1..][i - 1] == live.returned[i];
  }

  lemma {:induction false} LiveKept<P>(c: Cell<P>, computed: seq<P>, equals: (P, P) -> bool)
    requires KeysWithin(c.log, c.count) && (c.count > 0 ==> Latest(c.log, c.count).Some?)
    ensures var live := Live(c, computed, equals);
            |live.returned| == |computed| && forall i | 0 <= i < |computed| :: CallKept(c, computed, equals, live, i)
    decreases |computed|
  {
    if computed != [] {
      var first := Act(c, LiveCall(computed[0]), equals, false).value;
      var live, rest := Live(c, computed, equals), Live(first.cell, computed[1..], equals);
      LiveCallEffect(c, computed[0], equals);
      FirstKept(c, computed[0], equals);
      LiveReturns(first.cell, computed[1..], equals);
      LiveKept(first.cell, computed[1..], equals);
      assert live.returned == [first.returned[0]] + rest.returned;
      KeptByRest(c, computed, equals, first, live);
      forall i | 0 < i < |computed| ensures CallKept(c, computed, equals, live, i) {
        KeptInRest(c, computed, equals, first.cell, rest, live, i);
      }
    }
  }

  /** The outcome of a run from the empty log, read call by call. */
  lemma KeptFromEmpty<P>(computed: seq<P>, equals: (P, P) -> bool, live: Outcome<P>, i: nat)
    requires i < |computed| == |live.returned| && CallKept(Cell(map[], 0), computed, equals, live, i)
    ensures live.returned[i] ==
              if i > 0 && equals(computed[i], live.returned[i - 1]) then live.returned[i - 1] else computed[i]
    ensures i + 1 in live.cell.log <==> i == 0 || !equals(computed[i], live.returned[i - 1])
    ensures i + 1 in live.cell.log ==> live.cell.log[i + 1] == computed[i]
  {}

  /** Each call returns its computed value if it is the first or differs, in the sense of `equals`, from
      the value returned before, and else that value; an entry is recorded at exactly those calls. */
  ghost predicate RecordsChanges<P>(computed: seq<P>, equals: (P, P) -> bool, returned: seq<P>, log: map<int, P>) {
    && |returned| == |computed| && (computed != [] ==> returned[0] == computed[0])
    && (forall i | 0 < i < |computed| ::
          returned[i] == if equals(computed[i], returned[i - 1]) then returned[i - 1] else computed[i])
    && (forall i | 0 <= i < |computed| :: i + 1 in log <==> i == 0 || !equals(computed[i], returned[i - 1]))
    && (forall k | k in log :: 0 < k <= |computed| && log[k] == computed[k - 1])
  }

  lemma KeptRecordsChanges<P>(computed: seq<P>, equals: (P, P) -> bool, live: Outcome<P>)
    requires |live.returned| == |computed| && KeysWithin(live.cell.log, |computed|)
    requires forall i | 0 <= i < |computed| :: CallKept(Cell(map[], 0), computed, equals, live, i)
    ensures RecordsChanges(computed, equals, live.returned, live.cell.log)
  {
    if computed != [] {
      KeptFromEmpty(computed, equals, live, 0);
    }
    forall i | 0 < i < |computed|
      ensures live.returned[i] == if equals(computed[i], live.returned[i - 1]) then live.returned[i - 1]
                                  else computed[i]
    {
      KeptFromEmpty(computed, equals, live, i);
    }
    forall i | 0 <= i < |computed|
      ensures i + 1 in live.cell.log <==> i == 0 || !equals(computed[i], live.returned[i - 1])
    {
      KeptFromEmpty(computed, equals, live, i);
    }
    forall k | k in live.cell.log ensures live.cell.log[k] == computed[k - 1] {
      KeptFromEmpty(computed, equals, live, k - 1);
    }
  }

  /** A live run returns and records what is new, and nothing else. */
  lemma LiveRecordsChanges<P>(computed: seq<P>, equals: (P, P) -> bool)
    ensures var live := Live(Cell(map[], 0), computed, equals);
            RecordsChanges(computed, equals, live.returned, live.cell.log)
  {
    var empty: Cell<P> := Cell(map[], 0);
    LiveReturns(empty, computed, equals);
    LiveKept(empty, computed, equals);
    KeptRecordsChanges(computed, equals, Live(empty, computed, equals));
  }

  function LiveCalls<P>(computed: seq<P>): seq<Action<P>> {
    seq(|computed|, i requires 0 <= i < |computed| => LiveCall(computed[i]))
  }

  lemma {:induction false} LiveIsActs<P>(c: Cell<P>, computed: seq<P>, equals: (P, P) -> bool)
    ensures Acts(c, LiveCalls(computed), equals, false) == Ok(Live(c, computed, equals))
    decreases |computed|
  {
    if computed != [] {
      assert LiveCalls(computed)[1..] == LiveCalls(computed[1..]);
      LiveIsActs(Act(c, LiveCall(computed[0]), equals, false).value.cell, computed[1..], equals);
    }
  }

  /** The run with the garbage collection on returns the same values. */
  lemma CollectedRunIsLive<P>(computed: seq<P>, equals: (P, P) -> bool)
    ensures var r := Acts(Cell(map[], 0), LiveCalls(computed), equals, true);
            r.Ok? && r.value.returned == Live(Cell(map[], 0), computed, equals).returned
  {
    var empty: Cell<P> := Cell(map[], 0);
    LiveIsActs(empty, computed, equals);
    CollectionIsInvisible(empty, empty, LiveCalls(computed), equals);
  }

  lemma {:induction false} LiveMarks<P>(c: Cell<P>, computed: seq<P>, equals: (P, P) -> bool)
    requires KeysWithin(c.log, c.count) && (c.count > 0 ==> Latest(c.log, c.count).Some?)
    ensures var live := Live(c, computed, equals);
            live.markers == MarkersOf(live.cell.log, c.count, |computed|)
    decreases |computed|
  {
    if computed != [] {
      var first := Act(c, LiveCall(computed[0]), equals, false).value;
      LiveCallEffect(c, computed[0], equals);
      LiveReturns(first.cell, computed[1..], equals);
      LiveMarks(first.cell, computed[1..], equals);
    }
  }

  lemma {:induction false} SameUpTo<P>(p: map<int, P>, q: map<int, P>, c: int)
    requires forall k | 0 <= k <= c :: (k in p <==> k in q) && (k in q ==> p[k] == q[k])
    ensures LatestKey(p, c) == LatestKey(q, c) && Latest(p, c) == Latest(q, c)
    decreases c + 1
  {
    if 0 <= c && c !in p {
      SameUpTo(p, q, c - 1);
    }
  }

  /** A replayed cell knows the loaded markers of later calls and the value of the current one. */
  ghost predicate Tracks<P>(log: map<int, P>, loaded: set<int>, c: Cell<P>) {
    && (forall k | c.count < k :: (k in c.log <==> k in loaded) && (k in c.log ==> k in log && c.log[k] == log[k]))
    && Latest(c.log, c.count) == Latest(log, c.count)
  }

  lemma LoadTracks<P>(log: map<int, P>, loaded: set<int>, c: Cell<P>, hint: int)
    requires Tracks(log, loaded, c) && c.count < hint && hint in log
    ensures Tracks(log, loaded + {hint}, c.(log := c.log[hint := log[hint]]))
  {
    LatestStored(c.log, c.count, hint, log[hint]);
  }

  lemma CallTracks<P>(log: map<int, P>, loaded: set<int>, c: Cell<P>, recorded: bool, v: P, equals: (P, P) -> bool)
    requires Tracks(log, loaded, c) && Latest(log, c.count + 1) == Some(v)
    requires c.count + 1 in log ==> c.count + 1 in loaded
    ensures var r := Act(c, ReplayCall(recorded), equals, false);
            r.Ok? && r.value.returned == [v] && r.value.cell.count == c.count + 1 && Tracks(log, loaded, r.value.cell)
  {
    NextLatest(c.log, log, c.count);
    LatestStored(c.log, c.count + 1, c.count + 1, v);
  }

  lemma {:induction false} ReplayMarks<P>(log: map<int, P>, c: Cell<P>, script: seq<Action<P>>,
                                          equals: (P, P) -> bool)
    requires Marked(log, c.count, script) && Acts(c, script, equals, false).Ok?
    ensures Acts(c, script, equals, false).value.markers == MarkersOf(log, c.count, CallsIn(script))
    decreases |script|
  {
    if script != [] {
      ReplayMarks(log, Act(c, script[0], equals, false).value.cell, script[1..], equals);
    }
  }

  /** What is left of a replay still answers as the live run did. */
  ghost predicate Ready<P>(log: map<int, P>, loaded: set<int>, c: Cell<P>, script: seq<Action<P>>, returned: seq<P>) {
    && Faithful(log, loaded, c.count, script) && CallsIn(script) <= |returned| && Tracks(log, loaded, c)
    && Answers(log, c.count + 1, returned)
  }

  lemma ReplayStep<P>(log: map<int, P>, loaded: set<int>, c: Cell<P>, script: seq<Action<P>>,
                      equals: (P, P) -> bool, returned: seq<P>) returns (loaded': set<int>, returned': seq<P>)
    requires script != [] && Ready(log, loaded, c, script, returned)
    ensures var r := Act(c, script[0], equals, false);
            && r.Ok? && Ready(log, loaded', r.value.cell, script[1..], returned')
            && returned[..CallsIn(script)] == r.value.returned + returned'[..CallsIn(script[1..])]
  {
    var a := script[0];
    loaded', returned' := loaded, returned;
    if a.Load? {
      LoadTracks(log, loaded, c, a.hint);
      loaded' := loaded + {a.hint};
    } else {
      AnswersTail(log, c.count + 1, returned);
      CallTracks(log, loaded, c, a.recorded, returned[0], equals);
      returned' := returned[1..];
      assert returned[..CallsIn(script)] == [returned[0]] + returned[1..][..CallsIn(script[1..])];
    }
  }

  /** Replay against the log of the live run, without garbage collection. */
  lemma {:induction false} ReplayFollows<P>(log: map<int, P>, loaded: set<int>, c: Cell<P>, script: seq<Action<P>>,
                                            equals: (P, P) -> bool, returned: seq<P>)
    requires Ready(log, loaded, c, script, returned)
    ensures var replay := Acts(c, script, equals, false);
            replay.Ok? && replay.value.returned == returned[..CallsIn(script)]
    decreases |script|
  {
    if script != [] {
      var loaded', returned' := ReplayStep(log, loaded, c, script, equals, returned);
      ReplayFollows(log, loaded', Act(c, script[0], equals, false).value.cell, script[1..], equals, returned');
    }
  }

  lemma NextLatest<P>(p: map<int, P>, q: map<int, P>, c: nat)
    requires Latest(p, c) == Latest(q, c) && (c + 1 in p <==> c + 1 in q) && (c + 1 in p ==> p[c + 1] == q[c + 1])
    ensures Latest(p, c + 1) == Latest(q, c + 1)
  {
  }

  // ---------------------------------------------------------------- in place

  /** The first pass of a lookup, over a map in no particular order. */
  method FindLatest<P>(log: map<int, P>, current: nat) returns (payloads: Option<P>, payloadIndex: int)
    ensures payloads == Latest(log, current)
    ensures payloadIndex == match LatestKey(log, current) case Some(k) => k case None => -1
  {
    payloads, payloadIndex := None, -1;
    var todo: set<int> := log.Keys;
    while todo != {}
      invariant todo <= log.Keys && -1 <= payloadIndex <= current
      invariant payloadIndex == -1 ==> payloads == None
      invariant payloadIndex != -1 ==> payloadIndex in log && payloads == Some(log[payloadIndex])
      invariant forall k | k in log && k !in todo && k <= current :: k <= payloadIndex
      decreases todo
    {
      ghost var any := AnyElement(todo);
      var k: int :| k in todo;
      todo := todo - {k};
      if k <= current && k > payloadIndex {
        payloads, payloadIndex := Some(log[k]), k;
      }
    }
    LatestIsLast(log, current);
  }

  /** The second pass: deletes the entries that no later lookup can return. */
  method Collect<P>(log: map<int, P>, current: nat, payloadIndex: int) returns (kept: map<int, P>)
    requires payloadIndex == match LatestKey(log, current) case Some(k) => k case None => -1
    ensures kept == Prune(log, current)
  {
    kept := log;
    var todo: set<int> := log.Keys;
    while todo != {}
      invariant todo <= kept.Keys <= log.Keys && forall k | k in kept :: kept[k] == log[k]
      invariant forall k | k in log && k !in todo :: k in kept <==> (k > current || k == payloadIndex)
      decreases todo
    {
      ghost var any := AnyElement(todo);
      var k: int :| k in todo;
      todo := todo - {k};
      if k <= current && k != payloadIndex {
        kept := kept - {k};
      }
    }
    assert kept.Keys == Prune(log, current).Keys;
  }

  function Tagged(id: string, hints: seq<int>): seq<(string, int)> {
    seq(|hints|, i requires 0 <= i < |hints| => (id, hints[i]))
  }

  /** The fields of the workflow environment, for every side effect ID. */
  class SideEffects<P(==)> {
    var mutableSideEffect: map<string, map<int, P>>
    var mutableSideEffectCallCounter: map<string, nat>
    /** The marker commands recorded, by side effect ID and call count. */
    var markers: seq<(string, int)>

    constructor ()
      ensures markers == [] && forall id :: CellOf(id) == Cell(map[], 0)
    {
      mutableSideEffect, mutableSideEffectCallCounter, markers := map[], map[], [];
    }

    function CellOf(id: string): Cell<P>
      reads this
    {
      Cell(if id in mutableSideEffect then mutableSideEffect[id] else map[],
           if id in mutableSideEffectCallCounter then mutableSideEffectCallCounter[id] else 0)
    }

    /** `lookupMutableSideEffect`: two passes over the recorded calls. */
    method Lookup(id: string) returns (payloads: Option<P>)
      modifies this`mutableSideEffect
      ensures payloads == Latest(old(CellOf(id)).log, CellOf(id).count)
      ensures CellOf(id) == old(CellOf(id)).(log := Prune(old(CellOf(id)).log, CellOf(id).count))
      ensures forall other | other != id :: CellOf(other) == old(CellOf(other))
    {
      var log := CellOf(id).log;
      var current := CellOf(id).count;
      if log == map[] {
        assert Prune(log, current) == map[];
        return None;
      }
      var payloadIndex;
      payloads, payloadIndex := FindLatest(log, current);
      var kept := Collect(log, current, payloadIndex);
      mutableSideEffect := mutableSideEffect[id := kept];
    }

    /** `MutableSideEffect`: `computed` is the encoded value the user function would produce. */
    method Call(id: string, isReplay: bool, recorded: bool, computed: P, equals: (P, P) -> bool) returns (r: Result<P>)
      modifies this
      ensures var action := if isReplay then ReplayCall(recorded) else LiveCall(computed);
              var spec := Act(old(CellOf(id)), action, equals, true);
              && r.Ok? == spec.Ok?
              && (r.Ok? ==> CellOf(id) == spec.value.cell && [r.value] == spec.value.returned)
              && markers == old(markers) + if r.Ok? then Tagged(id, spec.value.markers) else []
      ensures forall other | other != id :: CellOf(other) == old(CellOf(other))
    {
      var count := CellOf(id).count + 1;
      mutableSideEffectCallCounter := mutableSideEffectCallCounter[id := count];
      var found := Lookup(id);
      match found
      case Some(v) =>
        if isReplay {
          if recorded {
            Record(id, count, v);
          }
          return Ok(v);
        }
        if equals(computed, v) {
          return Ok(v);
        }
        Record(id, count, computed);
        r := Ok(computed);
      case None =>
        if isReplay {
          return Result.Panic;
        }
        Record(id, count, computed);
        r := Ok(computed);
    }

    /** `recordMutableSideEffect`: a marker command and its entry in the map. */
    method Record(id: string, hint: int, value: P)
      modifies this`mutableSideEffect, this`markers
      ensures CellOf(id) == old(CellOf(id)).(log := old(CellOf(id)).log[hint := value])
      ensures markers == old(markers) + [(id, hint)]
      ensures forall other | other != id :: CellOf(other) == old(CellOf(other))
    {
      markers := markers + [(id, hint)];
      Store(id, hint, value);
    }

    /** The entry that a marker, new or read from history, leaves in the map. */
    method Store(id: string, hint: int, value: P)
      modifies this`mutableSideEffect
      ensures CellOf(id) == old(CellOf(id)).(log := old(CellOf(id)).log[hint := value])
      ensures forall other | other != id :: CellOf(other) == old(CellOf(other))
    {
      if id !in mutableSideEffect {
        mutableSideEffect := mutableSideEffect[id := map[]];
      }
      mutableSideEffect := mutableSideEffect[id := mutableSideEffect[id][hint := value]];
    }
  }
}
