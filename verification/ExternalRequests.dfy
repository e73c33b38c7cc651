/** Signals to, and cancellations of, other workflows: the event that records the request decides
    which machine its answer goes to. */
module ExternalRequests {
  import opened Basics
  import opened CommandMachine
  import opened HelperState
  import ChildLifecycle

  /** A sent signal survives its two events, and both lookups lead to it: afterwards exactly its machine
      is gone. */
  lemma SignalAnswered(h: Helper, e: int, s: string, i: nat)
    requires Find(h.machines, SignalID(s)) == Some(i) && h.machines[i].state == CommandSent
    ensures var h' := h.(signalIDs := h.signalIDs[e := s]);
            && OnEvent(h, SignalInitiated(e, s)).Ok?
            && OnEvent(OnEvent(h, SignalInitiated(e, s)).value, SignalClosed(e))
               == Ok(h'.(machines := RemoveAt(h.machines, i)))
  {
    var h' := h.(signalIDs := h.signalIDs[e := s]);
    ChildLifecycle.FireTwice(h', SignalID(s), i, EvInitiated, EvCompletion, Initiated);
    var h1 := h'.(machines := h.machines[i := h.machines[i].(state := Initiated)]);
    assert OnEvent(h, SignalInitiated(e, s)) == Ok(h1);
  }

  /** A sent cancellation of an external workflow, whether accepted or rejected; a child with the same
      workflow ID is not touched. */
  lemma CancellationAnswered(h: Helper, e: int, w: string, c: string, i: nat, accepted: bool)
    requires c != "" && Find(h.machines, CancellationID(c)) == Some(i) && h.machines[i].state == CommandSent
    ensures var h' := h.(cancellationIDs := h.cancellationIDs[e := c]);
            var answer := if accepted then ExternalCancelRequested(e, w) else ExternalCancelFailed(e, w);
            && OnEvent(h, ExternalCancelInitiated(e, w, c)).Ok?
            && OnEvent(OnEvent(h, ExternalCancelInitiated(e, w, c)).value, answer)
               == Ok(h'.(machines := RemoveAt(h.machines, i)))
  {
    var h' := h.(cancellationIDs := h.cancellationIDs[e := c]);
    ChildLifecycle.FireTwice(h', CancellationID(c), i, EvInitiated, EvCompletion, Initiated);
    var h1 := h'.(machines := h.machines[i := h.machines[i].(state := Initiated)]);
    assert OnEvent(h, ExternalCancelInitiated(e, w, c)) == Ok(h1);
  }
}
