/** When replay of a workflow task gets out of step, read off the calls alone. */
module ReplaySlips {
  import opened EventCounter
  import opened ReplayAgreement

  predicate HasIssue(calls: seq<Call>) {
    exists i | 0 <= i < |calls| :: calls[i].Issue?
  }

  /** A `GetVersion` call comes after at most `t` commands that are sent. */
  predicate VersionWithin(calls: seq<Call>, t: nat) {
    calls != [] &&
    if calls[0].Version? then true
    else if calls[0].Sent() then t > 0 && VersionWithin(calls[1..], t - 1)
    else VersionWithin(calls[1..], t)
  }

  /** A `GetVersion` call comes after exactly `t` commands that are sent. */
  predicate VersionAfter(calls: seq<Call>, t: nat) {
    calls != [] &&
    if calls[0].Version? then t == 0 || VersionAfter(calls[1..], t)
    else if calls[0].Sent() then t > 0 && VersionAfter(calls[1..], t - 1)
    else VersionAfter(calls[1..], t)
  }

  /** What happened since the last command: nothing, unread version markers, or an ID was read. */
  datatype Window = Clean | Unread | Read

  function Turn(call: Call, lost: nat, w: Window): Window {
    match call
    case Peek => Read
    case Recall => Read
    case Version(_) => if w.Read? || lost > 0 then w else Unread
    case _ => Clean
  }

  /** Replay gets out of step at the first of the calls, with `lost` commands taken back before.  Each of
      them puts the counter one event ahead of the history.  A command then jumps markers that the live
      run had yet to write, if a GetVersion call follows within `lost` commands.  The cancel of a started
      child jumps no markers; it takes the event of one for its own if the GetVersion call of that marker
      is `lost` commands away and no ID was read since the last command. */
  predicate SlipsHere(calls: seq<Call>, lost: nat, w: Window)
    requires calls != []
  {
    match calls[0]
    case Issue => VersionWithin(calls, lost)
    case CancelStartedChild =>
      HasIssue(calls[1..]) && if lost == 0 then w.Unread? else !w.Read? && VersionAfter(calls, lost)
    case _ => false
  }

  predicate Slips(calls: seq<Call>, lost: nat, w: Window)
    decreases |calls|
  {
    calls != []
    && (SlipsHere(calls, lost, w) || Slips(calls[1..], lost + calls[0].Lost(), Turn(calls[0], lost, w)))
  }

  /** A task that takes back `lead` commands which were pending when it started. */
  predicate TaskSlips(calls: seq<Call>, lead: nat) {
    (lead > 0 && HasIssue(calls) && VersionWithin(calls, lead - 1)) || Slips(calls, lead, Clean)
  }

  /** A `GetVersion` call comes after the last issued command. */
  predicate Trailing(calls: seq<Call>) {
    calls != [] && ((calls[0].Version? && !HasIssue(calls[1..])) || Trailing(calls[1..]))
  }

  /** No command is taken back, no started child is cancelled, or no `GetVersion` call comes last. */
  predicate Settled(calls: seq<Call>, lead: nat) {
    !Trailing(calls) || (lead == 0 && (TakenBack !in calls || CancelStartedChild !in calls))
  }

  // ---------------------------------------------------------------- ranks

  predicate IsMarker(h: seq<Entry>, x: nat) {
    x < |h| && h[x].Marked?
  }

  /** `x` is not the upsert event of a marker. */
  predicate Boundary(h: seq<Entry>, x: nat) {
    x < |h| ==> !h[x].Upserted?
  }

  predicate Wide(h: seq<Entry>, x: nat) {
    IsMarker(h, x) && h[x].marker.searchAttrUpdated
  }

  /** An upsert comes exactly behind each marker that has one. */
  ghost predicate WellFormed(h: seq<Entry>) {
    && (|h| > 0 ==> !h[0].Upserted?)
    && forall i: nat | i < |h| :: Wide(h, i) <==> i + 1 < |h| && h[i + 1].Upserted?
  }

  /** Total width of the markers from `x` on. */
  function Weight(h: seq<Entry>, x: nat): nat
    decreases |h| - x
  {
    if |h| <= x then 0
    else (if h[x].Marked? then h[x].marker.Width() else 0) + Weight(h, x + 1)
  }

  /** Grows by one over each event of an ordinary command and stays put over a version marker and
      its upsert: the measure by which live run and replay are compared. */
  function Rank(h: seq<Entry>, x: nat): nat {
    x + Weight(h, x)
  }

  lemma RankOver(h: seq<Entry>, x: nat)
    requires WellFormed(h)
    ensures IsMarker(h, x) ==>
              var y := x + h[x].marker.Width();
              Rank(h, y) == Rank(h, x) && Boundary(h, x) && Boundary(h, y) && Rank(h, x + 1) <= Rank(h, x)
    ensures !IsMarker(h, x) ==> Rank(h, x + 1) == Rank(h, x) + 1 && Boundary(h, x + 1)
  {
    if IsMarker(h, x) {
      assert Wide(h, x) <==> x + 1 < |h| && h[x + 1].Upserted?;
      assert x > 0 ==> (Wide(h, x - 1) <==> h[x].Upserted?);
      if Wide(h, x) {
        assert Wide(h, x + 1) <==> x + 2 < |h| && h[x + 2].Upserted?;
      }
    } else if x < |h| {
      assert Wide(h, x) <==> x + 1 < |h| && h[x + 1].Upserted?;
    }
  }

  lemma {:induction false} JumpKeepsRank(h: seq<Entry>, p: nat)
    requires WellFormed(h)
    ensures Rank(h, Jump(h, p)) == Rank(h, p) && !IsMarker(h, Jump(h, p))
    ensures Boundary(h, p) ==> Boundary(h, Jump(h, p))
    decreases |h| - p
  {
    if IsMarker(h, p) {
      RankOver(h, p);
      JumpKeepsRank(h, p + h[p].marker.Width());
    }
  }

  lemma {:induction false} RankMonotone(h: seq<Entry>, x: nat, y: nat)
    requires WellFormed(h) && x <= y && Boundary(h, x) && Boundary(h, y)
    ensures Rank(h, x) <= Rank(h, y)
    ensures x < y && !IsMarker(h, x) ==> Rank(h, x) < Rank(h, y)
    decreases y - x
  {
    if x < y {
      RankOver(h, x);
      assert Wide(h, x) ==> h[x + 1].Upserted?;
      RankMonotone(h, if IsMarker(h, x) then x + h[x].marker.Width() else x + 1, y);
    }
  }

  lemma SameRankSamePlace(h: seq<Entry>, x: nat, y: nat)
    requires WellFormed(h) && Boundary(h, x) && Boundary(h, y) && !IsMarker(h, x) && !IsMarker(h, y)
    requires Rank(h, x) == Rank(h, y)
    ensures x == y
  {
    if x < y { RankMonotone(h, x, y); } else { RankMonotone(h, y, x); }
  }

  /** The weight falls exactly over markers. */
  lemma {:induction false} WeightFalls(h: seq<Entry>, x: nat, y: nat)
    requires x <= y
    ensures Weight(h, y) <= Weight(h, x)
    ensures Weight(h, y) == Weight(h, x) <==> forall k | x <= k < y :: !IsMarker(h, k)
    decreases y - x
  {
    if x < y {
      WeightFalls(h, x + 1, y);
      assert Weight(h, x) == Weight(h, x + 1) <==> !IsMarker(h, x);
    }
  }

  // ---------------------------------------------------------------- the events still to come

  /** The live run has written the first `written` events, and the calls write the others. */
  ghost predicate Ahead(h: seq<Entry>, calls: seq<Call>, written: nat) {
    WellFormed(h) && Boundary(h, written) && written <= |h| && h[written..] == History(calls)
  }

  lemma AheadStep(h: seq<Entry>, calls: seq<Call>, written: nat)
    requires Ahead(h, calls, written) && calls != []
    ensures Ahead(h, calls[1..], written + calls[0].Events())
    ensures calls[0].Version? ==> IsMarker(h, written) && h[written].marker == calls[0].marker
    ensures calls[0].Sent() ==> !IsMarker(h, written) && written < |h|
    ensures Rank(h, written + calls[0].Events()) == Rank(h, written) + if calls[0].Sent() then 1 else 0
  {
    var entries, rest := EntriesOf(calls[0]), History(calls[1..]);
    assert h[written..] == entries + rest && |entries| == calls[0].Events();
    assert h[written + |entries|..] == h[written..][|entries|..] == rest;
    if entries != [] {
      assert h[written] == h[written..][0] == entries[0];
    }
    RankOver(h, written);
  }

  /** The next events of the live run hold a marker at most `t` places away. */
  lemma {:induction false} WithinIff(h: seq<Entry>, calls: seq<Call>, written: nat, t: nat)
    requires Ahead(h, calls, written)
    ensures VersionWithin(calls, t) <==> exists k | written <= k <= written + t :: IsMarker(h, k)
    decreases |calls|
  {
    if calls != [] {
      AheadStep(h, calls, written);
      if !calls[0].Version? && (calls[0].Events() == 0 || t > 0) {
        WithinIff(h, calls[1..], written + calls[0].Events(), t - calls[0].Events());
      }
    }
  }

  /** A marker of rank `r` lies at `x` or behind. */
  ghost predicate MarkerOf(h: seq<Entry>, x: nat, r: nat) {
    exists k: nat | x <= k :: IsMarker(h, k) && Rank(h, k) == r
  }

  lemma MarkerOfStep(h: seq<Entry>, x: nat, r: nat)
    requires WellFormed(h) && Boundary(h, x)
    ensures IsMarker(h, x) ==>
              (MarkerOf(h, x, r) <==> Rank(h, x) == r || MarkerOf(h, x + h[x].marker.Width(), r))
    ensures !IsMarker(h, x) ==> (MarkerOf(h, x, r) <==> MarkerOf(h, x + 1, r))
    ensures !IsMarker(h, x) && MarkerOf(h, x, r) ==> Rank(h, x) < r
  {
    RankOver(h, x);
    if IsMarker(h, x) {
      assert Wide(h, x) ==> h[x + 1].Upserted?;
      if MarkerOf(h, x, r) && Rank(h, x) != r {
        var k: nat :| x <= k && IsMarker(h, k) && Rank(h, k) == r;
        assert k >= x + h[x].marker.Width();
      }
    } else if MarkerOf(h, x, r) {
      var k: nat :| x <= k && IsMarker(h, k) && Rank(h, k) == r;
      RankOver(h, k);
      RankMonotone(h, x, k);
    }
  }

  /** They hold a marker exactly `t` commands away. */
  lemma {:induction false} AfterIff(h: seq<Entry>, calls: seq<Call>, written: nat, t: nat)
    requires Ahead(h, calls, written)
    ensures VersionAfter(calls, t) <==> MarkerOf(h, written, Rank(h, written) + t)
    decreases |calls|
  {
    if calls != [] {
      AheadStep(h, calls, written);
      MarkerOfStep(h, written, Rank(h, written) + t);
      if !calls[0].Sent() {
        AfterIff(h, calls[1..], written + calls[0].Events(), t);
      } else if t > 0 {
        AfterIff(h, calls[1..], written + 1, t - 1);
      }
    }
  }

  // ---------------------------------------------------------------- out of step

  lemma HasIssueTail(calls: seq<Call>)
    requires calls != []
    ensures HasIssue(calls) <==> calls[0].Issue? || HasIssue(calls[1..])
  {
    if HasIssue(calls) && !calls[0].Issue? {
      var i :| 0 <= i < |calls| && calls[i].Issue?;
      assert calls[1..][i - 1].Issue?;
    }
  }

  lemma {:induction false} NothingToCompare(h: seq<Entry>, calls: seq<Call>, at: Place, lost: nat, w: Window)
    requires !HasIssue(calls)
    ensures Walks(h, calls, at) && !Slips(calls, lost, w)
    decreases |calls|
  {
    if calls != [] {
      HasIssueTail(calls);
      NothingToCompare(h, calls[1..], Next(h, at, calls[0]), lost + calls[0].Lost(), Turn(calls[0], lost, w));
    }
  }

  /** Without issued commands at the end, no marker is left. */
  lemma {:induction false} NothingTrails(h: seq<Entry>, calls: seq<Call>, written: nat)
    requires Ahead(h, calls, written) && !HasIssue(calls) && !Trailing(calls)
    ensures Weight(h, written) == 0
    decreases |calls|
  {
    if calls != [] {
      HasIssueTail(calls);
      AheadStep(h, calls, written);
      NothingTrails(h, calls[1..], written + calls[0].Events());
      RankOver(h, written);
    }
  }

  lemma RankReached(h: seq<Entry>, p: nat, call: Call)
    requires WellFormed(h)
    ensures Rank(h, Reached(h, p, call)) <= Rank(h, p) + if call.Sent() then 1 else call.Lost()
  {
    JumpKeepsRank(h, p);
    RankOver(h, Jump(h, p));
    RankOver(h, p);
  }

  ghost predicate FallenBehind(h: seq<Entry>, at: Place) {
    Rank(h, at.p) < Rank(h, at.written) + at.lost
  }

  lemma BehindStep(h: seq<Entry>, calls: seq<Call>, at: Place)
    requires Ahead(h, calls, at.written) && FallenBehind(h, at) && calls != []
    ensures Ahead(h, calls[1..], at.written + calls[0].Events()) && FallenBehind(h, Next(h, at, calls[0]))
  {
    AheadStep(h, calls, at.written);
    RankReached(h, at.p, calls[0]);
  }

  lemma LastDisagrees(h: seq<Entry>, calls: seq<Call>, at: Place)
    requires Ahead(h, calls, at.written) && FallenBehind(h, at)
    requires calls != [] && calls[0].Issue? && !HasIssue(calls[1..]) && (!Trailing(calls) || at.lost == 0)
    ensures Jump(h, at.p) != at.written + at.lost
  {
    AheadStep(h, calls, at.written);
    JumpKeepsRank(h, at.p);
    if !Trailing(calls) {
      NothingTrails(h, calls[1..], at.written + 1);
      RankOver(h, at.written);
    }
  }

  /** Behind the live run, replay never catches up: the last issued command disagrees, if not before. */
  lemma {:induction false} Behind(h: seq<Entry>, calls: seq<Call>, at: Place)
    requires Ahead(h, calls, at.written) && FallenBehind(h, at) && HasIssue(calls)
    requires !Trailing(calls) || (at.lost == 0 && TakenBack !in calls)
    ensures !Walks(h, calls, at)
    decreases |calls|
  {
    HasIssueTail(calls);
    if HasIssue(calls[1..]) {
      BehindStep(h, calls, at);
      Behind(h, calls[1..], Next(h, at, calls[0]));
    } else {
      LastDisagrees(h, calls, at);
    }
  }

  // ---------------------------------------------------------------- in step

  /** The event before `p` is that of a command. */
  predicate Fresh(h: seq<Entry>, p: nat) {
    p > 0 && (p - 1 < |h| ==> h[p - 1].Plain?)
  }

  predicate InWindow(h: seq<Entry>, at: Place, w: Window) {
    if w.Read? then !IsMarker(h, at.p)
    else if at.lost > 0 then Fresh(h, at.p)
    else if w.Unread? then IsMarker(h, at.p)
    else at.p == at.written
  }

  ghost predicate InStep(h: seq<Entry>, at: Place, w: Window) {
    Boundary(h, at.p) && Rank(h, at.p) == Rank(h, at.written) + at.lost && InWindow(h, at, w)
  }

  /** Just behind a command, replay is at a marker if any marker has its rank. */
  lemma FreshIff(h: seq<Entry>, p: nat, x: nat)
    requires WellFormed(h) && Boundary(h, p) && Fresh(h, p) && Boundary(h, x) && Rank(h, x) < Rank(h, p)
    ensures IsMarker(h, p) <==> MarkerOf(h, x, Rank(h, p))
  {
    if IsMarker(h, p) {
      if p < x { RankMonotone(h, p, x); }
    } else if MarkerOf(h, x, Rank(h, p)) {
      var k: nat :| x <= k && IsMarker(h, k) && Rank(h, k) == Rank(h, p);
      RankOver(h, k);
      if k < p {
        RankOver(h, p - 1);
        RankMonotone(h, k, p - 1);
      } else {
        RankMonotone(h, p, k);
      }
    }
  }

  lemma {:induction false} BoundaryBehind(h: seq<Entry>, x: nat, y: nat)
    requires WellFormed(h) && x <= y && Boundary(h, x) && forall k | x <= k < y :: !IsMarker(h, k)
    ensures Boundary(h, y)
    decreases y - x
  {
    if x < y {
      RankOver(h, x);
      BoundaryBehind(h, x + 1, y);
    }
  }

  /** A command has its live number unless a marker lies between the event that the live run writes and
      the one that it numbers. */
  lemma NumberIff(h: seq<Entry>, calls: seq<Call>, at: Place, w: Window)
    requires Ahead(h, calls, at.written) && InStep(h, at, w) && calls != [] && calls[0].Issue?
    ensures Jump(h, at.p) == at.written + at.lost <==> !VersionWithin(calls, at.lost)
  {
    var x := at.written + at.lost;
    JumpKeepsRank(h, at.p);
    WithinIff(h, calls, at.written, at.lost);
    WeightFalls(h, at.written, x);
    if !VersionWithin(calls, at.lost) {
      assert !IsMarker(h, x);
      BoundaryBehind(h, at.written, x);
      SameRankSamePlace(h, Jump(h, at.p), x);
    }
  }

  lemma IssueInStep(h: seq<Entry>, calls: seq<Call>, at: Place, w: Window)
    requires Ahead(h, calls, at.written) && InStep(h, at, w) && calls != [] && calls[0].Issue?
    ensures InStep(h, Place(Jump(h, at.p) + 1, at.written + 1, at.lost), Clean)
  {
    AheadStep(h, calls, at.written);
    JumpKeepsRank(h, at.p);
    RankOver(h, Jump(h, at.p));
    if at.lost == 0 { SameRankSamePlace(h, Jump(h, at.p), at.written); }
  }

  /** The cancel of a started child finds a marker exactly as described. */
  lemma TakesIff(h: seq<Entry>, calls: seq<Call>, at: Place, w: Window)
    requires Ahead(h, calls, at.written) && InStep(h, at, w) && calls != [] && calls[0].CancelStartedChild?
    ensures IsMarker(h, at.p) <==> if at.lost == 0 then w.Unread? else !w.Read? && VersionAfter(calls, at.lost)
  {
    if at.lost > 0 {
      AfterIff(h, calls, at.written, at.lost);
      if !w.Read? { FreshIff(h, at.p, at.written); }
    } else {
      AheadStep(h, calls, at.written);
    }
  }

  lemma CancelInStep(h: seq<Entry>, calls: seq<Call>, at: Place, w: Window)
    requires Ahead(h, calls, at.written) && InStep(h, at, w) && calls != [] && calls[0].CancelStartedChild?
    requires !IsMarker(h, at.p)
    ensures InStep(h, Place(at.p + 1, at.written + 1, at.lost), Clean)
  {
    AheadStep(h, calls, at.written);
    RankOver(h, at.p);
    if at.lost == 0 { SameRankSamePlace(h, at.p, at.written); }
  }

  lemma ReadInStep(h: seq<Entry>, at: Place, w: Window)
    requires WellFormed(h) && InStep(h, at, w)
    ensures InStep(h, at.(p := Jump(h, at.p)), Read)
  {
    JumpKeepsRank(h, at.p);
  }

  lemma TakenBackInStep(h: seq<Entry>, at: Place, w: Window)
    requires WellFormed(h) && InStep(h, at, w)
    ensures InStep(h, Place(Jump(h, at.p) + 1, at.written, at.lost + 1), Clean)
  {
    JumpKeepsRank(h, at.p);
    RankOver(h, Jump(h, at.p));
  }

  lemma VersionInStep(h: seq<Entry>, calls: seq<Call>, at: Place, w: Window)
    requires Ahead(h, calls, at.written) && InStep(h, at, w) && calls != [] && calls[0].Version?
    ensures InStep(h, at.(written := at.written + calls[0].Events()), if w.Read? || at.lost > 0 then w else Unread)
  {
    AheadStep(h, calls, at.written);
  }

  lemma OtherInStep(h: seq<Entry>, calls: seq<Call>, at: Place, w: Window)
    requires Ahead(h, calls, at.written) && InStep(h, at, w) && calls != [] && !calls[0].Sent()
    ensures InStep(h, Next(h, at, calls[0]), Turn(calls[0], at.lost, w))
  {
    if calls[0].TakenBack? {
      TakenBackInStep(h, at, w);
    } else if calls[0].Version? {
      VersionInStep(h, calls, at, w);
    } else {
      ReadInStep(h, at, w);
    }
  }

  /** Nothing can make up for a marker that the cancel of a child took. */
  predicate Decided(calls: seq<Call>, lost: nat) {
    !Trailing(calls) || (lost == 0 && TakenBack !in calls) || CancelStartedChild !in calls
  }

  lemma DecidedTail(calls: seq<Call>, lost: nat)
    requires Decided(calls, lost) && calls != []
    ensures Decided(calls[1..], lost + calls[0].Lost())
  {}

  /** Replay agrees unless it slips; if it slips it disagrees, when nothing can make up for it. */
  predicate Told(h: seq<Entry>, calls: seq<Call>, at: Place, w: Window) {
    && (!Slips(calls, at.lost, w) ==> Walks(h, calls, at))
    && (Decided(calls, at.lost) && Slips(calls, at.lost, w) ==> !Walks(h, calls, at))
  }

  lemma ToldByTail(h: seq<Entry>, calls: seq<Call>, at: Place, w: Window)
    requires calls != [] && Told(h, calls[1..], Next(h, at, calls[0]), Turn(calls[0], at.lost, w))
    requires calls[0].Issue? ==> (Jump(h, at.p) == at.written + at.lost <==> !VersionWithin(calls, at.lost))
    requires calls[0].Issue? || !SlipsHere(calls, at.lost, w)
    ensures Told(h, calls, at, w)
  {
    if Decided(calls, at.lost) { DecidedTail(calls, at.lost); }
  }

  /** One call that takes no marker keeps replay in step. */
  lemma StepInStep(h: seq<Entry>, calls: seq<Call>, at: Place, w: Window)
    requires Ahead(h, calls, at.written) && InStep(h, at, w) && calls != []
    requires !(calls[0].CancelStartedChild? && IsMarker(h, at.p))
    ensures InStep(h, Next(h, at, calls[0]), Turn(calls[0], at.lost, w))
  {
    if !calls[0].Sent() {
      OtherInStep(h, calls, at, w);
    } else if calls[0].Issue? {
      IssueInStep(h, calls, at, w);
      assert Next(h, at, calls[0]) == Place(Jump(h, at.p) + 1, at.written + 1, at.lost);
    } else {
      CancelInStep(h, calls, at, w);
      assert Next(h, at, calls[0]) == Place(at.p + 1, at.written + 1, at.lost);
    }
  }

  lemma {:induction false} SlipsIff(h: seq<Entry>, calls: seq<Call>, at: Place, w: Window)
    requires Ahead(h, calls, at.written) && InStep(h, at, w)
    ensures Told(h, calls, at, w)
    decreases |calls|
  {
    if calls != [] {
      if calls[0].Issue? {
        NumberIff(h, calls, at, w);
      } else if calls[0].CancelStartedChild? {
        TakesIff(h, calls, at, w);
      }
      if calls[0].CancelStartedChild? && IsMarker(h, at.p) {
        Fallen(h, calls, at, w);
      } else {
        AheadStep(h, calls, at.written);
        StepInStep(h, calls, at, w);
        SlipsIff(h, calls[1..], Next(h, at, calls[0]), Turn(calls[0], at.lost, w));
        ToldByTail(h, calls, at, w);
      }
    }
  }

  /** The cancel of a started child takes a marker for its own event. */
  lemma Fallen(h: seq<Entry>, calls: seq<Call>, at: Place, w: Window)
    requires Ahead(h, calls, at.written) && InStep(h, at, w) && IsMarker(h, at.p)
    requires calls != [] && calls[0].CancelStartedChild?
    requires HasIssue(calls[1..]) ==> SlipsHere(calls, at.lost, w)
    ensures Told(h, calls, at, w)
  {
    HasIssueTail(calls);
    if !HasIssue(calls[1..]) {
      NothingToCompare(h, calls, at, at.lost, w);
    } else if Decided(calls, at.lost) {
      AheadStep(h, calls, at.written);
      RankOver(h, at.p);
      Behind(h, calls[1..], Next(h, at, calls[0]));
    }
  }

  // ---------------------------------------------------------------- whole tasks

  lemma {:induction false} HistoryWellFormed(calls: seq<Call>)
    ensures WellFormed(History(calls))
  {
    if calls != [] {
      HistoryWellFormed(calls[1..]);
      WellFormedAppend(EntriesOf(calls[0]), History(calls[1..]));
    }
  }

  lemma WellFormedAppend(a: seq<Entry>, b: seq<Entry>)
    requires WellFormed(a) && WellFormed(b)
    ensures WellFormed(a + b)
  {
    forall i: nat | i < |a + b| ensures Wide(a + b, i) <==> i + 1 < |a + b| && (a + b)[i + 1].Upserted? {
      if i < |a| {
        assert Wide(a, i) <==> i + 1 < |a| && a[i + 1].Upserted?;
      } else {
        assert Wide(b, i - |a|) <==> i - |a| + 1 < |b| && b[i - |a| + 1].Upserted?;
      }
    }
  }

  /** Replay of a task stays in step if it does not slip; and it slips exactly when the walk goes wrong,
      unless commands are taken back, started children are cancelled and the task ends with GetVersion. */
  lemma TaskSlipsIff(calls: seq<Call>, lead: nat)
    ensures !TaskSlips(calls, lead) ==> TaskWalks(calls, lead)
    ensures Settled(calls, lead) ==> (TaskWalks(calls, lead) <==> !TaskSlips(calls, lead))
  {
    var h := History(calls);
    HistoryWellFormed(calls);
    assert Ahead(h, calls, 0);
    WeightFalls(h, 0, lead);
    if lead == 0 {
      SlipsIff(h, calls, Start(0), Clean);
    } else {
      WithinIff(h, calls, 0, lead - 1);
      if !VersionWithin(calls, lead - 1) {
        BoundaryBehind(h, 0, lead - 1);
        RankOver(h, lead - 1);
        SlipsIff(h, calls, Start(lead), Clean);
      } else if HasIssue(calls) {
        if !Trailing(calls) { Behind(h, calls, Start(lead)); }
      } else {
        NothingToCompare(h, calls, Start(lead), lead, Clean);
      }
    }
  }

  /** The IDs of a live run, and those of its replay with the markers of the task loaded. */
  predicate SameIssued(c: Counter, first: int, calls: seq<Call>) {
    IssuedIDs(c, calls, LiveRun)
    == IssuedIDs(c.(markers := c.markers + MarkerEvents(first, calls)), calls, ReplayRun)
  }

  /** Replay gives every command its live ID if it does not slip, and, in a settled task, only then. */
  lemma ReplayAgreesUnlessItSlips(c: Counter, first: int, calls: seq<Call>)
    requires first <= c.next && forall k | k in c.markers :: k < c.next
    ensures !TaskSlips(calls, c.next - first) ==> SameIssued(c, first, calls)
    ensures Settled(calls, c.next - first) ==>
              (SameIssued(c, first, calls) <==> !TaskSlips(calls, c.next - first))
  {
    ReplayAgreesIff(c, first, calls);
    TaskSlipsIff(calls, c.next - first);
  }

  predicate HasVersion(calls: seq<Call>) {
    exists k | 0 <= k < |calls| :: calls[k].Version?
  }

  /** A command is issued, and `GetVersion` called after it. */
  predicate IssueThenVersion(calls: seq<Call>) {
    exists j | 0 <= j < |calls| :: calls[j].Issue? && HasVersion(calls[j + 1..])
  }

  /** A command is taken back, one is issued after it, and `GetVersion` called after that. */
  predicate Interleaved(calls: seq<Call>) {
    exists i | 0 <= i < |calls| :: calls[i].TakenBack? && IssueThenVersion(calls[i + 1..])
  }

  lemma PatternTail(calls: seq<Call>)
    requires calls != []
    ensures HasVersion(calls) <==> calls[0].Version? || HasVersion(calls[1..])
    ensures IssueThenVersion(calls) <==> (calls[0].Issue? && HasVersion(calls[1..])) || IssueThenVersion(calls[1..])
    ensures Interleaved(calls) <==> (calls[0].TakenBack? && IssueThenVersion(calls[1..])) || Interleaved(calls[1..])
  {
    assert forall i | 0 < i < |calls| :: calls[i] == calls[1..][i - 1] && calls[i + 1..] == calls[1..][i..];
    assert forall i | 0 <= i < |calls| - 1 :: calls[1..][i] == calls[i + 1] && calls[1..][i + 1..] == calls[i + 2..];
  }

  lemma {:induction false} VersionFirst(calls: seq<Call>, t: nat)
    requires CancelStartedChild !in calls
    ensures VersionWithin(calls, t) ==> HasVersion(calls)
    ensures HasVersion(calls) && !IssueThenVersion(calls) ==> VersionWithin(calls, t)
    decreases |calls|
  {
    if calls != [] {
      PatternTail(calls);
      VersionFirst(calls[1..], if calls[0].Sent() && t > 0 then t - 1 else t);
    }
  }

  lemma {:induction false} SlipsWithoutCancels(calls: seq<Call>, lost: nat, w: Window)
    requires CancelStartedChild !in calls
    ensures Slips(calls, lost, w) <==> Interleaved(calls) || (lost > 0 && IssueThenVersion(calls))
    decreases |calls|
  {
    if calls != [] {
      PatternTail(calls);
      SlipsWithoutCancels(calls[1..], lost + calls[0].Lost(), Turn(calls[0], lost, w));
      if calls[0].Issue? && lost > 0 { VersionFirst(calls[1..], lost - 1); }
      InterleavedPart(calls[1..]);
    }
  }

  lemma InterleavedPart(calls: seq<Call>)
    ensures Interleaved(calls) ==> IssueThenVersion(calls)
  {
    if Interleaved(calls) {
      var i :| 0 <= i < |calls| && calls[i].TakenBack? && IssueThenVersion(calls[i + 1..]);
      var j :| 0 <= j < |calls[i + 1..]| && calls[i + 1..][j].Issue? && HasVersion(calls[i + 1..][j + 1..]);
      assert calls[i + 1..][j + 1..] == calls[i + 1 + j + 1..];
      assert calls[i + 1 + j].Issue?;
    }
  }

  /** Without cancels of started children, replay gives every command its live ID exactly when no command
      is taken back with another one issued and GetVersion called after it. */
  lemma ReplayAgreesWithoutCancels(c: Counter, calls: seq<Call>)
    requires (forall k | k in c.markers :: k < c.next) && CancelStartedChild !in calls
    ensures SameIssued(c, c.next, calls) <==> !Interleaved(calls)
  {
    ReplayAgreesUnlessItSlips(c, c.next, calls);
    SlipsWithoutCancels(calls, 0, Clean);
  }
}
