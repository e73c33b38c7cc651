/** `GetVersion`: what live workflow code gets, and what replay of it gets. */
module Versions {
  import opened Basics

  type Version = int

  const DEFAULT_VERSION: Version := -1

  /** What the provider prefers, and whether to clamp it to the supported range. */
  datatype Preference = Preference(version: Version, clamp: bool)

  /** A `GetVersion` call with what the environment answers it: the provider's preference, and whether
      the search attribute can be serialized. */
  datatype VersionCall = VersionCall(
    changeID: string, min: Version, max: Version, preference: Option<Preference>, serializes: bool)

  type ChangeVersions = map<string, Version>

  /** `resolvePreferredVersion`: a preference outside the range is clamped or panics. */
  function Preferred(c: VersionCall): Result<Version> {
    match c.preference
    case None => Ok(c.max)
    case Some(p) =>
      if c.min <= p.version <= c.max then Ok(p.version)
      else if !p.clamp then Panic
      else if p.version < c.min then Ok(c.min)
      else Ok(c.max)
  }

  /** The version before validation. */
  function Candidate(versions: ChangeVersions, c: VersionCall, isReplay: bool): Result<Version> {
    if c.changeID in versions then Ok(versions[c.changeID])
    else if isReplay then Ok(DEFAULT_VERSION)
    else Preferred(c)
  }

  function GetVersion(versions: ChangeVersions, c: VersionCall, isReplay: bool): Result<Version> {
    var v :- Candidate(versions, c, isReplay);
    if c.min <= v <= c.max then Ok(v) else Panic
  }

  /** The versions that a sequence of calls returns. */
  function Returned(versions: ChangeVersions, calls: seq<VersionCall>, isReplay: bool): Result<seq<Version>>
    decreases |calls|
  {
    if calls == [] then Ok([])
    else
      var v :- GetVersion(versions, calls[0], isReplay);
      var rest :- Returned(versions[calls[0].changeID := v], calls[1..], isReplay);
      Ok([v] + rest)
  }

  function Distance(v: Version, w: Version): nat {
    if v < w then w - v else v - w
  }

  predicate Supports(c: VersionCall, v: Version) {
    c.min <= v <= c.max
  }

  /** What a first call may return: in replay the default version, live the latest supported version or
      the supported version nearest to the one preferred. */
  ghost predicate Chosen(c: VersionCall, isReplay: bool, v: Version) {
    if isReplay then v == DEFAULT_VERSION
    else match c.preference
         case None => v == c.max
         case Some(p) =>
           && (Supports(c, p.version) || p.clamp)
           && forall w | Supports(c, w) :: Distance(v, p.version) <= Distance(w, p.version)
  }

  /** Some version may be chosen: the range is not empty, and the preference is in it or to be clamped. */
  predicate CanChoose(c: VersionCall, isReplay: bool) {
    if isReplay then Supports(c, DEFAULT_VERSION)
    else c.min <= c.max && (c.preference.Some? ==> Supports(c, c.preference.value.version) || c.preference.value.clamp)
  }

  /** A call returns the version known for its change, or a chosen one, and panics exactly when that is not
      supported or cannot be chosen. */
  lemma CallReturns(versions: ChangeVersions, c: VersionCall, isReplay: bool)
    ensures var r := GetVersion(versions, c, isReplay);
            && (r.Ok? <==> if c.changeID in versions then Supports(c, versions[c.changeID]) else CanChoose(c, isReplay))
            && (r.Ok? ==> Supports(c, r.value)
                          && if c.changeID in versions then r.value == versions[c.changeID]
                             else Chosen(c, isReplay, r.value))
  {}

  /** No call before position `i` is about the same change. */
  ghost predicate FirstAbout(versions: ChangeVersions, calls: seq<VersionCall>, i: nat)
    requires i < |calls|
  {
    calls[i].changeID !in versions && forall j | 0 <= j < i :: calls[j].changeID != calls[i].changeID
  }

  /** Over a run every change has one version, which every call about it supports and the first call chose. */
  lemma {:induction false} OneVersionPerChange(versions: ChangeVersions, calls: seq<VersionCall>, isReplay: bool,
                                               i: nat)
    requires i < |calls| && Returned(versions, calls, isReplay).Ok?
    ensures var r := Returned(versions, calls, isReplay).value;
            && |r| == |calls| && Supports(calls[i], r[i])
            && (calls[i].changeID in versions ==> r[i] == versions[calls[i].changeID])
            && (forall j | 0 <= j < i && calls[j].changeID == calls[i].changeID :: r[j] == r[i])
            && (FirstAbout(versions, calls, i) ==> Chosen(calls[i], isReplay, r[i]))
    decreases |calls|
  {
    var c := calls[0];
    CallReturns(versions, c, isReplay);
    var later := versions[c.changeID := GetVersion(versions, c, isReplay).value];
    if i > 0 {
      OneVersionPerChange(later, calls[1..], isReplay, i - 1);
      var r := Returned(versions, calls, isReplay).value;
      forall j | 0 <= j < i && calls[j].changeID == calls[i].changeID ensures r[j] == r[i] {
        if j > 0 {
          assert calls[1..][j - 1].changeID == calls[1..][i - 1].changeID;
        }
      }
    } else if calls[1..] != [] {
      OneVersionPerChange(later, calls[1..], isReplay, 0);
    }
  }

  predicate FirstCall(versions: ChangeVersions, c: VersionCall) {
    c.changeID !in versions
  }

  /** The version markers that a live run leaves in the history. */
  function Markers(versions: ChangeVersions, calls: seq<VersionCall>): ChangeVersions
    requires Returned(versions, calls, false).Ok?
    decreases |calls|
  {
    if calls == [] then map[]
    else
      var c := calls[0];
      var v := GetVersion(versions, c, false).value;
      var rest := Markers(versions[c.changeID := v], calls[1..]);
      if FirstCall(versions, c) && c.serializes then rest[c.changeID := v] else rest
  }

  /** Some first call got another version than the default, and its marker could not be written. */
  predicate Unrecorded(versions: ChangeVersions, calls: seq<VersionCall>)
    requires Returned(versions, calls, false).Ok?
    decreases |calls|
  {
    calls != [] &&
    var c := calls[0];
    var v := GetVersion(versions, c, false).value;
    || (FirstCall(versions, c) && !c.serializes && v != DEFAULT_VERSION)
    || Unrecorded(versions[c.changeID := v], calls[1..])
  }

  lemma {:induction false} MarkersAreNew(versions: ChangeVersions, calls: seq<VersionCall>)
    requires Returned(versions, calls, false).Ok?
    ensures Markers(versions, calls).Keys !! versions.Keys
    decreases |calls|
  {
    if calls != [] {
      MarkersAreNew(versions[calls[0].changeID := GetVersion(versions, calls[0], false).value], calls[1..]);
    }
  }

  /** Replay with the markers of the live run loaded returns at every call what the live run returned,
      exactly when no non-default version went unrecorded. */
  lemma {:induction false} VersionsReplayIff(versions: ChangeVersions, calls: seq<VersionCall>)
    requires Returned(versions, calls, false).Ok?
    ensures Returned(versions + Markers(versions, calls), calls, true) == Returned(versions, calls, false)
       <==> !Unrecorded(versions, calls)
    decreases |calls|
  {
    if calls != [] {
      var c := calls[0];
      var loaded := versions + Markers(versions, calls);
      var v := GetVersion(versions, c, false).value;
      var later := versions[c.changeID := v];
      MarkersAreNew(versions, calls);
      MarkersAreNew(later, calls[1..]);
      VersionsReplayIff(later, calls[1..]);
      if FirstCall(versions, c) && !c.serializes && v != DEFAULT_VERSION {
        FirstDiffers(versions, calls);
      } else {
        assert GetVersion(loaded, c, true) == Ok(v);
        assert loaded[c.changeID := v] == later + Markers(later, calls[1..]);
        SameHead(versions, loaded, calls);
      }
    }
  }

  lemma FirstDiffers(versions: ChangeVersions, calls: seq<VersionCall>)
    requires calls != [] && Returned(versions, calls, false).Ok?
    requires FirstCall(versions, calls[0]) && !calls[0].serializes
    requires GetVersion(versions, calls[0], false).value != DEFAULT_VERSION
    ensures Returned(versions + Markers(versions, calls), calls, true) != Returned(versions, calls, false)
  {
    var c := calls[0];
    MarkersAreNew(versions[c.changeID := GetVersion(versions, c, false).value], calls[1..]);
    var replay := Returned(versions + Markers(versions, calls), calls, true);
    if replay.Ok? {
      assert replay.value[0] == DEFAULT_VERSION;
      assert Returned(versions, calls, false).value[0] != DEFAULT_VERSION;
    }
  }

  lemma SameHead(versions: ChangeVersions, loaded: ChangeVersions, calls: seq<VersionCall>)
    requires calls != [] && Returned(versions, calls, false).Ok?
    requires GetVersion(loaded, calls[0], true) == GetVersion(versions, calls[0], false)
    ensures var v := GetVersion(versions, calls[0], false).value;
            var id := calls[0].changeID;
            (Returned(loaded, calls, true) == Returned(versions, calls, false)
             <==> Returned(loaded[id := v], calls[1..], true) == Returned(versions[id := v], calls[1..], false))
  {
    var v := GetVersion(versions, calls[0], false).value;
    var id := calls[0].changeID;
    var live, replay := Returned(versions[id := v], calls[1..], false), Returned(loaded[id := v], calls[1..], true);
    assert live.Ok?;
    if replay.Ok? {
      assert ([v] + live.value)[1..] == live.value && ([v] + replay.value)[1..] == replay.value;
    }
  }

  /** A first call that supports versions up to 1 and whose search attribute cannot be serialized: the live
      run gets version 1, and replay of it the default version. */
  lemma UnserializableVersionIsLost()
    ensures var c := VersionCall("change", DEFAULT_VERSION, 1, None, false);
            var none: ChangeVersions := map[];
            && Returned(none, [c], false) == Ok([1]) && Markers(none, [c]) == map[]
            && Returned(none, [c], true) == Ok([DEFAULT_VERSION])
  {
    var c := VersionCall("change", DEFAULT_VERSION, 1, None, false);
    var none: ChangeVersions := map[];
    assert [c][1..] == [];
    assert GetVersion(none, c, false) == Ok(1) && GetVersion(none, c, true) == Ok(DEFAULT_VERSION);
    assert Returned(none["change" := 1], [c][1..], false) == Ok([]);
    assert Returned(none["change" := DEFAULT_VERSION], [c][1..], true) == Ok([]);
    assert [1] + [] == [1] && [DEFAULT_VERSION] + [] == [DEFAULT_VERSION];
  }

  /** `changeVersions` as the program keeps it. */
  class VersionTable {
    var changeVersions: ChangeVersions

    constructor ()
      ensures changeVersions == map[]
    {
      changeVersions := map[];
    }

    /** `GetVersion`: returns the version or panics, and says whether a marker was recorded. */
    method Get(c: VersionCall, isReplay: bool) returns (version: Result<Version>, recorded: bool)
      modifies this
      ensures version == GetVersion(old(changeVersions), c, isReplay)
      ensures changeVersions
           == if version.Ok? then old(changeVersions)[c.changeID := version.value] else old(changeVersions)
      ensures recorded <==> FirstCall(old(changeVersions), c) && !isReplay && Preferred(c).Ok? && c.serializes
    {
      recorded := false;
      var v;
      if c.changeID in changeVersions {
        v := changeVersions[c.changeID];
      } else if isReplay {
        v := DEFAULT_VERSION;
      } else {
        var preferred := Preferred(c);
        if preferred.Panic? {
          return Panic, false;
        }
        v := preferred.value;
        recorded := c.serializes;
      }
      if v < c.min || v > c.max {
        return Panic, recorded;
      }
      changeVersions := changeVersions[c.changeID := v];
      version := Ok(v);
    }
  }
}
