/** Live run and replay of one workflow task: the live run writes version markers into the history,
    replay loads them up front and jumps over them. */
module ReplayAgreement {
  import opened Basics
  import opened EventCounter

  /** What workflow code does to the counter within one workflow task.  `Peek` reads an ID without
      adding a command (`GenerateSequence`).  `Recall` is a `MutableSideEffect` call that finds its value
      unchanged: only replay reads an ID.  `Issue` adds a command that is sent, and `TakenBack` one that
      the task cancels before it is sent.  `Version` is a first-time `GetVersion` call and
      `CancelStartedChild` cancels a started child workflow. */
  datatype Call = Peek | Recall | Issue | TakenBack | Version(marker: VersionMarker) | CancelStartedChild {
    /** A command that the server answers with an event. */
    predicate Sent() {
      Issue? || CancelStartedChild?
    }

    /** How many events the server writes for it. */
    function Events(): nat {
      if Version? then marker.Width() else if Sent() then 1 else 0
    }

    /** How many numbers it takes without an event. */
    function Lost(): nat {
      if TakenBack? then 1 else 0
    }
  }

  datatype Mode = LiveRun | ReplayRun

  /** The counter after one call.  A live `GetVersion` records a marker and, unless the search
      attribute is too large, an upsert; in replay the version is already known. */
  function After(c: Counter, call: Call, mode: Mode): Counter {
    match call
    case Peek => c.Skip()
    case Recall => if mode.ReplayRun? then c.Skip() else c
    case Issue => c.Add()
    case TakenBack => c.Add()
    case Version(marker) =>
      if mode.ReplayRun? then c
      else if marker.searchAttrUpdated then c.Add().Add()
      else c.Add()
    case CancelStartedChild => c.Bump()
  }

  /** The counter after the calls. */
  function Afters(c: Counter, calls: seq<Call>, mode: Mode): Counter
    decreases |calls|
  {
    if calls == [] then c else Afters(After(c, calls[0], mode), calls[1..], mode)
  }

  /** The IDs given to the issued commands, in order. */
  function IssuedIDs(c: Counter, calls: seq<Call>, mode: Mode): seq<int>
    decreases |calls|
  {
    if calls == [] then []
    else
      var later := IssuedIDs(After(c, calls[0], mode), calls[1..], mode);
      if calls[0].Issue? then [c.Skip().next] + later else later
  }

  /** The version marker events of the task, whose first event is `n`. */
  function MarkerEvents(n: int, calls: seq<Call>): map<int, VersionMarker>
    decreases |calls|
  {
    if calls == [] then map[]
    else if calls[0].Version? then MarkerEvents(n + calls[0].Events(), calls[1..])[n := calls[0].marker]
    else MarkerEvents(n + calls[0].Events(), calls[1..])
  }

  /** The event ID behind the last event of the task. */
  function UpperBound(n: int, calls: seq<Call>): int
    decreases |calls|
  {
    if calls == [] then n else UpperBound(n + calls[0].Events(), calls[1..])
  }

  // ---------------------------------------------------------------- replay as a walk over the history

  /** The events of a workflow task: a command other than GetVersion's, a version marker, its upsert. */
  datatype Entry = Plain | Marked(marker: VersionMarker) | Upserted

  function EntriesOf(call: Call): seq<Entry> {
    if call.Version? then
      if call.marker.searchAttrUpdated then [Marked(call.marker), Upserted] else [Marked(call.marker)]
    else if call.Sent() then [Plain]
    else []
  }

  /** The events that the server writes for the task. */
  function History(calls: seq<Call>): seq<Entry> {
    if calls == [] then [] else EntriesOf(calls[0]) + History(calls[1..])
  }

  /** The first event from `p` on that is not part of a version marker. */
  function Jump(history: seq<Entry>, p: nat): nat
    decreases |history| - p
  {
    if p < |history| && history[p].Marked? then Jump(history, p + history[p].marker.Width()) else p
  }

  /** Replay of a task has reached the event `p` of the task, where the live run had written `written`
      events and taken back `lost` commands. */
  datatype Place = Place(p: nat, written: nat, lost: nat)

  /** Where replay stands after a call: a command takes the next event that is not part of a marker, but
      a cancelled child whatever event comes next. */
  function Reached(history: seq<Entry>, p: nat, call: Call): nat {
    if call.Peek? || call.Recall? then Jump(history, p)
    else if call.Issue? || call.TakenBack? then Jump(history, p) + 1
    else if call.Version? then p
    else p + 1
  }

  function Next(history: seq<Entry>, at: Place, call: Call): Place {
    Place(Reached(history, at.p, call), at.written + call.Events(), at.lost + call.Lost())
  }

  /** Replay as a walk over the events of the task: each issued command has to come to the number that
      it had live. */
  predicate Walks(history: seq<Entry>, calls: seq<Call>, at: Place)
    decreases |calls|
  {
    calls == []
    || ((calls[0].Issue? ==> Jump(history, at.p) == at.written + at.lost)
        && Walks(history, calls[1..], Next(history, at, calls[0])))
  }

  /** The counter of a new task may be ahead of its first event, by the commands that were pending when
      it started and that it takes back. */
  function Start(lead: nat): Place {
    Place(lead, 0, lead)
  }

  predicate TaskWalks(calls: seq<Call>, lead: nat) {
    Walks(History(calls), calls, Start(lead))
  }

  /** Replay gives every command the ID it had in the live run, exactly when the walk over the task's
      own events comes to its number each time. */
  lemma ReplayAgreesIff(c: Counter, first: int, calls: seq<Call>)
    requires first <= c.next && forall k | k in c.markers :: k < c.next
    ensures var loaded := c.(markers := c.markers + MarkerEvents(first, calls));
            (IssuedIDs(c, calls, LiveRun) == IssuedIDs(loaded, calls, ReplayRun)
             <==> TaskWalks(calls, c.next - first))
  {
    var loaded := c.(markers := c.markers + MarkerEvents(first, calls));
    HistoryMarkers(first, calls);
    forall k | c.next <= k ensures Alike(loaded.markers, first, History(calls), k) {
      assert Alike(MarkerEvents(first, calls), first, History(calls), k);
    }
    WalkFollows(c, loaded, first, History(calls), calls, Start(c.next - first));
  }

  /** The table and the history, whose first event is `n`, have the same marker at event `k`, or none. */
  predicate Alike(markers: map<int, VersionMarker>, n: int, history: seq<Entry>, k: int)
    requires n <= k
  {
    if k - n < |history| && history[k - n].Marked?
    then k in markers && markers[k] == history[k - n].marker
    else k !in markers
  }

  /** The table knows the history from the counter's event on. */
  ghost predicate Reads(r: Counter, n: int, history: seq<Entry>) {
    n <= r.next && forall k | r.next <= k :: Alike(r.markers, n, history, k)
  }

  lemma {:induction false} HistoryMarkers(n: int, calls: seq<Call>)
    ensures UpperBound(n, calls) == n + |History(calls)|
    ensures Reads(Counter(n, MarkerEvents(n, calls)), n, History(calls))
    ensures forall k | k in MarkerEvents(n, calls) :: n <= k < UpperBound(n, calls)
    decreases |calls|
  {
    if calls != [] {
      HistoryMarkers(n + calls[0].Events(), calls[1..]);
      HistoryStep(n, calls);
    }
  }

  lemma HistoryStep(n: int, calls: seq<Call>)
    requires calls != []
    requires var c := Counter(n + calls[0].Events(), MarkerEvents(n + calls[0].Events(), calls[1..]));
             Reads(c, c.next, History(calls[1..])) && forall k | k in c.markers :: c.next <= k
    ensures |History(calls)| == calls[0].Events() + |History(calls[1..])|
    ensures Reads(Counter(n, MarkerEvents(n, calls)), n, History(calls))
  {
    var d, rest := calls[0].Events(), History(calls[1..]);
    assert History(calls) == EntriesOf(calls[0]) + rest && |EntriesOf(calls[0])| == d;
    forall k | n <= k ensures Alike(MarkerEvents(n, calls), n, History(calls), k) {
      if n + d <= k {
        assert Alike(MarkerEvents(n + d, calls[1..]), n + d, rest, k);
        assert k - n < |History(calls)| ==> History(calls)[k - n] == rest[k - n - d];
      } else {
        assert History(calls)[k - n] == EntriesOf(calls[0])[k - n];
      }
    }
  }

  lemma {:induction false} SkipJumps(r: Counter, n: int, history: seq<Entry>)
    requires Reads(r, n, history)
    ensures Reads(r.Skip(), n, history) && r.Skip().next == n + Jump(history, r.next - n)
    decreases |r.markers|
  {
    assert Alike(r.markers, n, history, r.next);
    if r.next in r.markers {
      var r' := Counter(r.next + r.markers[r.next].Width(), r.markers - {r.next});
      RemoveShrinks(r.markers, r.next);
      forall k | r'.next <= k ensures Alike(r'.markers, n, history, k) {
        assert Alike(r.markers, n, history, k);
      }
      SkipJumps(r', n, history);
    }
  }

  lemma LiveStep(l: Counter, call: Call)
    requires forall k | k in l.markers :: k < l.next
    ensures l.Skip() == l && After(l, call, LiveRun) == l.(next := l.next + call.Events() + call.Lost())
  {}

  lemma ReplayStep(r: Counter, n: int, history: seq<Entry>, call: Call)
    requires Reads(r, n, history)
    ensures var r' := After(r, call, ReplayRun);
            && Reads(r', n, history) && r'.next == n + Reached(history, r.next - n, call)
            && r.Skip().next == n + Jump(history, r.next - n)
  {
    SkipJumps(r, n, history);
  }

  lemma SameIDs(l: Counter, r: Counter, calls: seq<Call>)
    requires calls != []
    ensures IssuedIDs(l, calls, LiveRun) == IssuedIDs(r, calls, ReplayRun)
       <==> (calls[0].Issue? ==> l.Skip().next == r.Skip().next)
            && IssuedIDs(After(l, calls[0], LiveRun), calls[1..], LiveRun)
               == IssuedIDs(After(r, calls[0], ReplayRun), calls[1..], ReplayRun)
  {
    var a := IssuedIDs(After(l, calls[0], LiveRun), calls[1..], LiveRun);
    var b := IssuedIDs(After(r, calls[0], ReplayRun), calls[1..], ReplayRun);
    var x, y := l.Skip().next, r.Skip().next;
    assert ([x] + a)[0] == x && ([x] + a)[1..] == a;
    assert ([y] + b)[0] == y && ([y] + b)[1..] == b;
  }

  lemma {:induction false} WalkFollows(l: Counter, r: Counter, n: int, history: seq<Entry>, calls: seq<Call>,
                                       at: Place)
    requires forall k | k in l.markers :: k < l.next
    requires l.next == n + at.written + at.lost && r.next == n + at.p && Reads(r, n, history)
    ensures IssuedIDs(l, calls, LiveRun) == IssuedIDs(r, calls, ReplayRun) <==> Walks(history, calls, at)
    decreases |calls|
  {
    if calls != [] {
      LiveStep(l, calls[0]);
      ReplayStep(r, n, history, calls[0]);
      SameIDs(l, r, calls);
      WalkFollows(After(l, calls[0], LiveRun), After(r, calls[0], ReplayRun), n, history, calls[1..],
                  Next(history, at, calls[0]));
    }
  }

  // ---------------------------------------------------------------- loading the markers

  /** The version marker events in history order. */
  function MarkerList(n: int, calls: seq<Call>): seq<(int, VersionMarker)>
    decreases |calls|
  {
    if calls == [] then []
    else if calls[0].Version? then [(n, calls[0].marker)] + MarkerList(n + calls[0].Events(), calls[1..])
    else MarkerList(n + calls[0].Events(), calls[1..])
  }

  /** `handleVersionMarker` for one event after the other. */
  function LoadAll(c: Counter, events: seq<(int, VersionMarker)>): Result<Counter>
    decreases |events|
  {
    if events == [] then Ok(c)
    else
      var c' :- c.Load(events[0].0, events[0].1);
      LoadAll(c', events[1..])
  }

  /** Loading the marker events of a live run, one after the other, never meets a duplicate, and leaves
      exactly these markers in the table besides the old ones. */
  lemma {:induction false} LoadingNeverPanics(c: Counter, n: int, calls: seq<Call>)
    requires forall k | k in c.markers :: k < n
    ensures LoadAll(c, MarkerList(n, calls)) == Ok(c.(markers := c.markers + MarkerEvents(n, calls)))
    decreases |calls|
  {
    if calls == [] {
      assert c.markers + map[] == c.markers;
    } else if calls[0].Version? {
      var d := calls[0].Events();
      var c' := c.(markers := c.markers[n := calls[0].marker]);
      LoadingNeverPanics(c', n + d, calls[1..]);
      HistoryMarkers(n + d, calls[1..]);
      assert c'.markers + MarkerEvents(n + d, calls[1..]) == c.markers + MarkerEvents(n, calls);
    } else {
      LoadingNeverPanics(c, n + calls[0].Events(), calls[1..]);
    }
  }
}
