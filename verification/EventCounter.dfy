/** The predicted-event-ID counter of `commandsHelper` and its table of version markers. */
module EventCounter {
  import opened Basics

  datatype VersionMarker = VersionMarker(changeID: string, searchAttrUpdated: bool) {
    /** How many history events the GetVersion call behind this marker produced. */
    function Width(): nat {
      if searchAttrUpdated then 2 else 1
    }
  }

  /** `nextCommandEventID` and `versionMarkerLookup`. */
  datatype Counter = Counter(next: int, markers: map<int, VersionMarker>) {

    function Bump(): Counter {
      this.(next := next + 1)
    }

    /** `incrementNextCommandEventIDIfVersionMarker`: jumps over every version marker found at the
        counter; it terminates because each jump takes one marker out of the table. */
    function Skip(): (c: Counter)
      ensures c.next !in c.markers && next <= c.next
      ensures forall k | next <= c.next <= k :: k in c.markers <==> k in markers
      ensures forall k | k in c.markers :: k in markers && c.markers[k] == markers[k]
      decreases |markers|
    {
      if next in markers then
        assert |markers - {next}| < |markers| by { RemoveShrinks(markers, next); }
        Counter(next + markers[next].Width(), markers - {next}).Skip()
      else
        this
    }

    /** `getNextID`: panics before the first WorkflowTaskStarted event. */
    function NextID(): Result<Counter> {
      var c := Skip();
      if c.next == 0 then Panic else Ok(c)
    }

    /** The counter part of `addCommand`. */
    function Add(): Counter {
      Skip().Bump()
    }

    /** `handleVersionMarker`. */
    function Load(eventID: int, marker: VersionMarker): Result<Counter> {
      if eventID in markers then Panic else Ok(this.(markers := markers[eventID := marker]))
    }
  }

  lemma RemoveShrinks<K, V>(m: map<K, V>, k: K)
    requires k in m
    ensures |m - {k}| < |m|
  {
    assert (m - {k}).Keys == m.Keys - {k};
  }
}
