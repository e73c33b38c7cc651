/** Timers and activities against a lawful server: which runs the state machine survives, and when it
    leaves the indexes. */
module TimerLifecycle {
  import opened Basics
  import opened CommandMachine

  datatype Kind = Timer | Activity {
    function Type(): CommandType {
      if this == Timer then TimerType else ActivityType
    }
  }

  /** Where the server stands with the timer or activity. */
  datatype Phase = NotSent | StartInFlight | Scheduled | Ended

  /** The cancel command: none, waiting to be sent, sent, or (for an activity) recorded. */
  datatype Request = NoRequest | Asked | RequestInFlight | Recorded

  datatype Life = Life(machine: Option<CommandState>, phase: Phase, request: Request)

  const NEW_LIFE := Life(Some(Created), NotSent, NoRequest)

  datatype LifeEvent = CancelCall | Send | InitiatedEvent | CancelRequestedEvent | ClosedEvent | CanceledEvent

  function MachineEventOf(step: LifeEvent): MachineEvent {
    match step
    case CancelCall => EvCancel
    case Send => EvSent
    case InitiatedEvent => EvInitiated
    case CancelRequestedEvent => EvCancelInitiated
    case ClosedEvent => EvCompletion
    case CanceledEvent => EvCanceled
  }

  predicate Quiet(l: Life) {
    l.phase != StartInFlight && l.request != RequestInFlight
  }

  /** The order that the server keeps; workflow code may cancel at any time.  A response is sent when
      everything sent before was recorded.  The server records a start first.  It cancels a timer instead
      of recording the request, and never fires it then; an activity may close or be canceled once the
      request is recorded.  Both may also fire or close while a cancel command waits to be sent. */
  predicate Lawful(kind: Kind, l: Life, step: LifeEvent) {
    match step
    case CancelCall => true
    case Send => Quiet(l)
    case InitiatedEvent => l.phase == StartInFlight
    case CancelRequestedEvent => kind == Activity && l.phase == Scheduled && l.request == RequestInFlight
    case ClosedEvent => l.phase == Scheduled && l.request != RequestInFlight
    case CanceledEvent =>
      l.phase == Scheduled && l.request == if kind == Timer then RequestInFlight else Recorded
  }

  /** The server's view after a step: sending puts the start and the cancel command in flight, and a
      cancel command that still waits when its target closes is dropped. */
  function Observe(l: Life, step: LifeEvent): Life {
    match step
    case CancelCall => if l.request == NoRequest then l.(request := Asked) else l
    case Send =>
      l.(phase := if l.phase == NotSent then StartInFlight else l.phase,
         request := if l.request == Asked then RequestInFlight else l.request)
    case InitiatedEvent => l.(phase := Scheduled)
    case CancelRequestedEvent => l.(request := Recorded)
    case ClosedEvent => l.(phase := Ended, request := if l.request == Asked then NoRequest else l.request)
    case CanceledEvent => l.(phase := Ended)
  }

  /** An event for a machine that left the indexes panics, like an illegal transition. */
  function LifeStep(kind: Kind, l: Life, step: LifeEvent): Result<Life> {
    match l.machine
    case None => if step.Send? then Ok(l) else Panic
    case Some(s) =>
      match MoveOf(kind.Type(), s, MachineEventOf(step))
      case Illegal => Panic
      case Stay => Ok(Observe(l, step))
      case To(s') => Ok(Observe(l, step).(machine := if s' == Completed then None else Some(s')))
  }

  function LifeRun(kind: Kind, l: Life, steps: seq<LifeEvent>): Result<Life>
    decreases |steps|
  {
    if steps == [] then Ok(l)
    else
      var l' :- LifeStep(kind, l, steps[0]);
      LifeRun(kind, l', steps[1..])
  }

  predicate LawfulRun(kind: Kind, l: Life, steps: seq<LifeEvent>)
    decreases |steps|
  {
    steps == [] ||
    (Lawful(kind, l, steps[0])
     && (LifeStep(kind, l, steps[0]).Ok? ==> LawfulRun(kind, LifeStep(kind, l, steps[0]).value, steps[1..])))
  }

  /** What the machine's state says about the server. */
  predicate Consistent(kind: Kind, l: Life) {
    (kind == Timer ==> l.request != Recorded) &&
    match l.machine
    case None => l.phase == Ended
    case Some(s) =>
      match s
      case Created => l.phase == NotSent && l.request == NoRequest
      case CanceledBeforeSent =>
        || (l.phase == NotSent && l.request == Asked)
        || (l.phase == StartInFlight && l.request == RequestInFlight)
      case CommandSent => l.phase == StartInFlight && l.request == NoRequest
      case Initiated => l.phase == Scheduled && l.request == NoRequest
      case CanceledAfterInitiated => l.phase == Scheduled && l.request != NoRequest
      case CancellationCommandSent =>
        || (l.phase == StartInFlight && l.request == Asked)
        || (l.phase == Scheduled && (l.request == RequestInFlight || l.request == Recorded))
      case CompletedAfterCancellationCommandSent => kind == Activity && l.phase == Ended && l.request == Recorded
      case _ => false
  }

  /** The workflow cancels again what it cancelled before the start command was sent, while the start is
      not recorded; or it cancels a timer or activity that is no longer listed. */
  predicate CancelsInVain(l: Life, step: LifeEvent) {
    step == CancelCall
    && (l.machine.None?
        || (l.phase == NotSent && l.request == Asked)
        || (l.phase == StartInFlight && l.request == RequestInFlight))
  }

  lemma LawfulStep(kind: Kind, l: Life, step: LifeEvent)
    requires Consistent(kind, l) && Lawful(kind, l, step)
    ensures LifeStep(kind, l, step).Panic? <==> CancelsInVain(l, step)
    ensures LifeStep(kind, l, step).Ok? ==> Consistent(kind, LifeStep(kind, l, step).value)
  {}

  /** A run of a lawful server panics exactly where the workflow cancels in vain. */
  lemma {:induction false} SurvivesIff(kind: Kind, l: Life, steps: seq<LifeEvent>)
    requires Consistent(kind, l) && LawfulRun(kind, l, steps)
    ensures LifeRun(kind, l, steps).Panic? <==>
              exists j | 0 <= j < |steps| ::
                LifeRun(kind, l, steps[..j]).Ok? && CancelsInVain(LifeRun(kind, l, steps[..j]).value, steps[j])
    ensures LifeRun(kind, l, steps).Ok? ==> Consistent(kind, LifeRun(kind, l, steps).value)
    decreases |steps|
  {
    if steps != [] {
      LawfulStep(kind, l, steps[0]);
      assert LifeRun(kind, l, steps[..0]) == Ok(l);
      if LifeStep(kind, l, steps[0]).Ok? {
        var l' := LifeStep(kind, l, steps[0]).value;
        SurvivesIff(kind, l', steps[1..]);
        forall j | 1 <= j <= |steps| ensures LifeRun(kind, l, steps[..j]) == LifeRun(kind, l', steps[1..][..j - 1]) {
          assert steps[..j][1..] == steps[1..][..j - 1];
        }
        assert forall j | 0 <= j < |steps| - 1 :: steps[1..][j] == steps[j + 1];
      }
    }
  }

  // ---------------------------------------------------------------- what stays listed

  /** A response was sent after both the start was recorded and the workflow had cancelled. */
  ghost predicate SentWhileCancelled(steps: seq<LifeEvent>) {
    exists k | 0 <= k < |steps| :: steps[k] == Send && InitiatedEvent in steps[..k] && CancelCall in steps[..k]
  }

  /** It closed after such a response. */
  ghost predicate ClosedTooLate(steps: seq<LifeEvent>) {
    exists c | 0 <= c < |steps| :: steps[c] == ClosedEvent && SentWhileCancelled(steps[..c])
  }

  lemma {:induction false} RunSnoc(kind: Kind, l: Life, steps: seq<LifeEvent>, x: LifeEvent)
    ensures LifeRun(kind, l, steps + [x])
         == match LifeRun(kind, l, steps) case Ok(r) => LifeStep(kind, r, x) case Panic => Panic
    decreases |steps|
  {
    if steps == [] {
      assert steps + [x] == [x] && [x][1..] == [];
    } else {
      assert (steps + [x])[1..] == steps[1..] + [x];
      if LifeStep(kind, l, steps[0]).Ok? {
        RunSnoc(kind, LifeStep(kind, l, steps[0]).value, steps[1..], x);
      }
    }
  }

  lemma {:induction false} LawfulPrefix(kind: Kind, l: Life, steps: seq<LifeEvent>, x: LifeEvent)
    requires LawfulRun(kind, l, steps + [x])
    ensures LawfulRun(kind, l, steps)
    ensures LifeRun(kind, l, steps).Ok? ==> Lawful(kind, LifeRun(kind, l, steps).value, x)
    decreases |steps|
  {
    if steps == [] {
      assert steps + [x] == [x];
    } else {
      assert (steps + [x])[1..] == steps[1..] + [x];
      if LifeStep(kind, l, steps[0]).Ok? {
        LawfulPrefix(kind, LifeStep(kind, l, steps[0]).value, steps[1..], x);
      }
    }
  }

  lemma SentSnoc(steps: seq<LifeEvent>, x: LifeEvent)
    ensures SentWhileCancelled(steps + [x])
       <==> SentWhileCancelled(steps) || (x == Send && InitiatedEvent in steps && CancelCall in steps)
  {
    var all := steps + [x];
    assert all[..|steps|] == steps;
    assert forall k | 0 <= k <= |steps| :: all[..k] == steps[..k];
    if SentWhileCancelled(steps) {
      var k :| 0 <= k < |steps| && steps[k] == Send && InitiatedEvent in steps[..k] && CancelCall in steps[..k];
      assert all[k] == Send;
    }
    if x == Send && InitiatedEvent in steps && CancelCall in steps {
      assert all[|steps|] == Send;
    }
  }

  lemma ClosedSnoc(steps: seq<LifeEvent>, x: LifeEvent)
    ensures ClosedTooLate(steps + [x]) <==> ClosedTooLate(steps) || (x == ClosedEvent && SentWhileCancelled(steps))
  {
    var all := steps + [x];
    assert all[..|steps|] == steps;
    assert forall k | 0 <= k <= |steps| :: all[..k] == steps[..k];
    if ClosedTooLate(steps) {
      var c :| 0 <= c < |steps| && steps[c] == ClosedEvent && SentWhileCancelled(steps[..c]);
      assert all[c] == ClosedEvent;
    }
    if x == ClosedEvent && SentWhileCancelled(steps) {
      assert all[|steps|] == ClosedEvent;
    }
  }

  /** What the machine's state says about the steps taken: whether the start was recorded, whether the
      workflow cancelled, and the two predicates above. */
  predicate Known(r: Life, started: bool, cancelled: bool, sent: bool, late: bool) {
    && (started <==> r.phase == Scheduled || r.phase == Ended)
    && (r.phase != Ended ==> r.machine.Some? && !late)
    && (r.phase == NotSent || r.phase == StartInFlight ==> !sent)
    && (r.phase != Ended && r.machine.Some? ==>
          (cancelled <==> r.machine.value !in {Created, CommandSent, Initiated}))
    && (r.phase == Scheduled && r.machine.Some? ==> (r.machine.value == CancellationCommandSent <==> sent))
    && (r.phase == Ended ==> (r.machine.Some? <==> late))
  }

  ghost predicate Remembers(r: Life, steps: seq<LifeEvent>) {
    Known(r, InitiatedEvent in steps, CancelCall in steps, SentWhileCancelled(steps), ClosedTooLate(steps))
  }

  lemma StepKnown(kind: Kind, r: Life, x: LifeEvent, started: bool, cancelled: bool, sent: bool, late: bool)
    requires Consistent(kind, r) && Lawful(kind, r, x) && LifeStep(kind, r, x).Ok?
    requires Known(r, started, cancelled, sent, late)
    ensures Known(LifeStep(kind, r, x).value, started || x == InitiatedEvent, cancelled || x == CancelCall,
                  sent || (x == Send && started && cancelled), late || (x == ClosedEvent && sent))
  {}

  lemma StepRemembers(kind: Kind, r: Life, steps: seq<LifeEvent>, x: LifeEvent)
    requires Consistent(kind, r) && Lawful(kind, r, x) && LifeStep(kind, r, x).Ok? && Remembers(r, steps)
    ensures Remembers(LifeStep(kind, r, x).value, steps + [x])
  {
    SentSnoc(steps, x);
    ClosedSnoc(steps, x);
    StepKnown(kind, r, x,
              InitiatedEvent in steps, CancelCall in steps, SentWhileCancelled(steps), ClosedTooLate(steps));
  }

  lemma {:induction false} RunRemembers(kind: Kind, steps: seq<LifeEvent>)
    requires LawfulRun(kind, NEW_LIFE, steps) && LifeRun(kind, NEW_LIFE, steps).Ok?
    ensures Consistent(kind, LifeRun(kind, NEW_LIFE, steps).value)
    ensures Remembers(LifeRun(kind, NEW_LIFE, steps).value, steps)
    decreases |steps|
  {
    if steps != [] {
      var before, x := steps[..|steps| - 1], steps[|steps| - 1];
      assert steps == before + [x];
      RunSnoc(kind, NEW_LIFE, before, x);
      LawfulPrefix(kind, NEW_LIFE, before, x);
      RunRemembers(kind, before);
      LawfulStep(kind, LifeRun(kind, NEW_LIFE, before).value, x);
      StepRemembers(kind, LifeRun(kind, NEW_LIFE, before).value, before, x);
    }
  }

  /** In a run of a lawful server the machine is listed until the server is done with it.  Afterwards it
      is listed exactly when it closed after a response that was sent when both the start was recorded
      and the workflow had cancelled; it is then an activity. */
  lemma ListedIff(kind: Kind, steps: seq<LifeEvent>)
    requires LawfulRun(kind, NEW_LIFE, steps) && LifeRun(kind, NEW_LIFE, steps).Ok?
    ensures var r := LifeRun(kind, NEW_LIFE, steps).value;
            && (r.machine.Some? <==> r.phase != Ended || ClosedTooLate(steps))
            && (r.phase == Ended && r.machine.Some? ==>
                  kind == Activity && r.machine == Some(CompletedAfterCancellationCommandSent))
  {
    RunRemembers(kind, steps);
  }

  /** An activity that closes after its cancel command was sent on its own stays listed for good. */
  lemma ClosedAfterCancelStays()
    ensures LifeRun(Activity, NEW_LIFE, [Send, InitiatedEvent, CancelCall] + [Send, CancelRequestedEvent, ClosedEvent])
         == Ok(Life(Some(CompletedAfterCancellationCommandSent), Ended, Recorded))
  {
    var tail := [Send, CancelRequestedEvent, ClosedEvent];
    var steps := [Send, InitiatedEvent, CancelCall] + tail;
    var l1 := Life(Some(CommandSent), StartInFlight, NoRequest);
    var l2 := Life(Some(Initiated), Scheduled, NoRequest);
    var l3 := Life(Some(CanceledAfterInitiated), Scheduled, Asked);
    assert steps[1..][1..][1..] == tail;
    CancelledThenClosed();
    assert LifeRun(Activity, l2, steps[1..][1..]) == LifeRun(Activity, l3, tail);
    assert LifeRun(Activity, l1, steps[1..]) == LifeRun(Activity, l3, tail);
  }

  lemma CancelledThenClosed()
    ensures LifeRun(Activity, Life(Some(CanceledAfterInitiated), Scheduled, Asked),
                    [Send, CancelRequestedEvent, ClosedEvent])
         == Ok(Life(Some(CompletedAfterCancellationCommandSent), Ended, Recorded))
  {
    var steps := [Send, CancelRequestedEvent, ClosedEvent];
    var l4 := Life(Some(CancellationCommandSent), Scheduled, RequestInFlight);
    var l5 := l4.(request := Recorded);
    assert steps[1..] == [CancelRequestedEvent, ClosedEvent] && steps[1..][1..] == [ClosedEvent];
    assert LifeRun(Activity, l5, [ClosedEvent])
        == Ok(Life(Some(CompletedAfterCancellationCommandSent), Ended, Recorded)) by {
      assert [ClosedEvent][1..] == [];
    }
    assert LifeRun(Activity, l4, steps[1..]) == LifeRun(Activity, l5, [ClosedEvent]);
  }

  /** Cancelled before it was sent, the same activity leaves the list when it closes. */
  lemma ClosedAfterEarlyCancelLeaves()
    ensures LifeRun(Activity, NEW_LIFE, [CancelCall, Send] + [InitiatedEvent, CancelRequestedEvent, ClosedEvent])
         == Ok(Life(None, Ended, Recorded))
  {
    var tail := [InitiatedEvent, CancelRequestedEvent, ClosedEvent];
    var steps := [CancelCall, Send] + tail;
    assert steps[1..][1..] == tail;
    StartedThenClosed();
    assert LifeRun(Activity, Life(Some(CanceledBeforeSent), NotSent, Asked), steps[1..])
        == Ok(Life(None, Ended, Recorded));
  }

  lemma StartedThenClosed()
    ensures LifeRun(Activity, Life(Some(CanceledBeforeSent), StartInFlight, RequestInFlight),
                    [InitiatedEvent, CancelRequestedEvent, ClosedEvent])
         == Ok(Life(None, Ended, Recorded))
  {
    var steps := [InitiatedEvent, CancelRequestedEvent, ClosedEvent];
    var l := Life(Some(CanceledAfterInitiated), Scheduled, Recorded);
    assert steps[1..][1..] == [ClosedEvent] && [ClosedEvent][1..] == [];
    assert LifeRun(Activity, l, [ClosedEvent]) == Ok(Life(None, Ended, Recorded));
    assert LifeRun(Activity, l.(request := RequestInFlight), steps[1..]) == LifeRun(Activity, l, [ClosedEvent]);
  }
}
