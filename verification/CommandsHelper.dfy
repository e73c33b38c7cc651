/** `commandsHelper` as the source has it: machine objects behind pointers, an ordered list of
    pointers and a map from command IDs, all updated in place.  Every method is proved to have the
    effect that HelperState gives it on the plain list of machines. */
module CommandsHelper {
  import opened Basics
  import opened CommandIndex
  import opened CommandMachine
  import opened EventCounter
  import opened HelperState
  import opened Invariants

  /** An event method called on the machine at position `i`. */
  function FireIndex(h: Helper, i: nat, e: MachineEvent): Result<Helper>
    requires i < |h.machines|
  {
    var ms :- FireAt(h.machines, i, e);
    Ok(h.(machines := ms))
  }

  class CommandsHelper {
    var nextCommandEventID: int
    var versionMarkerLookup: map<int, VersionMarker>
    var objects: map<nat, Machine>
    var nextSerial: nat
    var orderedCommands: seq<nat>
    var commands: map<CommandID, nat>
    var activityIDs: map<int, string>
    var cancellationIDs: map<int, string>
    var signalIDs: map<int, string>
    var nexusIDs: map<int, CommandID>
    var unscheduledNexus: seq<nat>

    ghost predicate Indexed()
      reads this
    {
      Agree(objects, orderedCommands, commands, nextSerial)
    }

    ghost function View(): Helper
      requires Indexed()
      reads this
    {
      Helper(Counter(nextCommandEventID, versionMarkerLookup), Resolve(orderedCommands, objects), nextSerial,
             activityIDs, cancellationIDs, signalIDs, nexusIDs, unscheduledNexus)
    }

    ghost predicate Valid()
      reads this
    {
      Indexed() && Inv(View())
    }

    /** The method ended as `r` says: with a panic, or with `r`'s value as the new state. */
    ghost predicate Became(r: Result<Helper>, ok: bool)
      reads this
    {
      ok == r.Ok? && (ok ==> Indexed() && View() == r.value)
    }

    constructor ()
      ensures Valid() && View() == EMPTY_HELPER
    {
      nextCommandEventID, versionMarkerLookup := 0, map[];
      objects, nextSerial := map[], 0;
      orderedCommands, commands := [], map[];
      activityIDs, cancellationIDs, signalIDs, nexusIDs := map[], map[], map[], map[];
      unscheduledNexus := [];
    }

    /** `getCommand`: looks a machine up by command ID. */
    method Lookup(id: CommandID) returns (r: Option<nat>)
      requires Indexed()
      ensures r.None? <==> Find(View().machines, id).None?
      ensures r.Some? ==> Find(View().machines, id).Some?
                          && orderedCommands[Find(View().machines, id).value] == r.value
    {
      FindAgrees(objects, orderedCommands, commands, nextSerial, id);
      r := if id in commands then Some(commands[id]) else None;
    }

    /** Takes a completed machine out of the list and the map. */
    method Drop(p: nat, ghost i: nat)
      requires Indexed() && i < |orderedCommands| && p == orderedCommands[i] && objects[p].state == Completed
      modifies this`orderedCommands, this`commands
      ensures Indexed() && View() == old(View()).(machines := RemoveAt(old(View().machines), i))
      ensures orderedCommands == old(orderedCommands)[..i] + old(orderedCommands)[i + 1..]
    {
      AgreeRemove(objects, orderedCommands, commands, nextSerial, i);
      var id := objects[p].id;
      if id in commands {
        orderedCommands := Unlink(orderedCommands, commands[id]);
        commands := commands - {id};
      }
    }

    /** `moveState` of the listed machine at position `i`. */
    method MoveState(p: nat, s: CommandState, ghost i: nat)
      requires Indexed() && i < |orderedCommands| && p == orderedCommands[i]
      modifies this`objects, this`orderedCommands, this`commands
      ensures Indexed()
      ensures View() == old(View()).(machines := Settle(old(View().machines), i, s))
      ensures objects == old(objects)[p := old(objects)[p].(state := s)]
      ensures orderedCommands
           == if s == Completed then old(orderedCommands)[..i] + old(orderedCommands)[i + 1..] else old(orderedCommands)
    {
      AgreeUpdate(objects, orderedCommands, commands, nextSerial, i, objects[p].(state := s));
      objects := objects[p := objects[p].(state := s)];
      assert View() == old(View()).(machines := old(View().machines)[i := old(objects)[p].(state := s)]);
      if s == Completed {
        Drop(p, i);
      }
    }

    /** An event method called through the pointer of a listed machine. */
    method Handle(p: nat, e: MachineEvent, ghost i: nat) returns (ok: bool)
      requires Indexed() && i < |orderedCommands| && p == orderedCommands[i]
      modifies this`objects, this`orderedCommands, this`commands
      ensures Became(FireIndex(old(View()), i, e), ok)
    {
      match MoveOf(objects[p].id.ctype, objects[p].state, e)
      case Illegal => ok := false;
      case Stay => ok := true;
      case To(s) =>
        MoveState(p, s, i);
        ok := true;
    }

    /** `getCommand(id)` and an event method. */
    method HandleByID(id: CommandID, e: MachineEvent) returns (ok: bool)
      requires Indexed()
      modifies this`objects, this`orderedCommands, this`commands
      ensures Became(FireOn(old(View()), id, e), ok)
    {
      var r := Lookup(id);
      match r
      case None => ok := false;
      case Some(p) => ok := Handle(p, e, Find(View().machines, id).value);
    }

    /** `incrementNextCommandEventIDIfVersionMarker`. */
    method SkipVersionMarkers()
      requires Indexed()
      modifies this`nextCommandEventID, this`versionMarkerLookup
      ensures Indexed() && View() == old(View()).(counter := old(View().counter).Skip())
    {
      while nextCommandEventID in versionMarkerLookup
        invariant Indexed() && View() == old(View()).(counter := View().counter)
        invariant View().counter.Skip() == old(View().counter).Skip()
        decreases |versionMarkerLookup|
      {
        var marker := versionMarkerLookup[nextCommandEventID];
        RemoveShrinks(versionMarkerLookup, nextCommandEventID);
        versionMarkerLookup := versionMarkerLookup - {nextCommandEventID};
        nextCommandEventID := nextCommandEventID + 1;
        if marker.searchAttrUpdated {
          nextCommandEventID := nextCommandEventID + 1;
        }
      }
    }

    /** `getNextID`. */
    method GetNextID() returns (ok: bool, id: int)
      requires Indexed()
      modifies this`nextCommandEventID, this`versionMarkerLookup
      ensures Became(OnCall(old(View()), HelperState.GetNextID), ok)
      ensures ok ==> id == View().counter.next
    {
      SkipVersionMarkers();
      ok, id := nextCommandEventID != 0, nextCommandEventID;
    }

    /** Puts a new machine into both indexes. */
    method PushBack(id: CommandID, scheduledID: int)
      requires Indexed() && id !in commands
      modifies this`objects, this`orderedCommands, this`commands, this`nextSerial
      ensures Indexed()
      ensures View() == old(View()).(machines := old(View().machines) + [NewMachine(old(View()), id, scheduledID)],
                                     nextSerial := old(nextSerial) + 1)
      ensures orderedCommands == old(orderedCommands) + [old(nextSerial)]
      ensures objects == old(objects)[old(nextSerial) := NewMachine(old(View()), id, scheduledID)]
    {
      var m := Machine(nextSerial, id, Created, scheduledID, None);
      AgreeAppend(objects, orderedCommands, commands, nextSerial, m);
      objects := objects[nextSerial := m];
      orderedCommands := orderedCommands + [nextSerial];
      commands := commands[id := nextSerial];
      nextSerial := nextSerial + 1;
    }

    /** `addCommand` on a new machine. */
    method Add(id: CommandID, scheduledID: int) returns (ok: bool)
      requires Indexed()
      modifies this`objects, this`orderedCommands, this`commands, this`nextSerial
      modifies this`nextCommandEventID, this`versionMarkerLookup
      ensures Became(AddCommand(old(View()), id, scheduledID), ok)
      ensures ok ==> orderedCommands == old(orderedCommands) + [old(nextSerial)]
      ensures ok ==> objects == old(objects)[old(nextSerial) := NewMachine(old(View()), id, scheduledID)]
    {
      FindAgrees(objects, orderedCommands, commands, nextSerial, id);
      if id in commands {
        return false;
      }
      PushBack(id, scheduledID);
      ghost var h := View();
      SkipVersionMarkers();
      assert View() == h.(counter := h.counter.Skip());
      nextCommandEventID := nextCommandEventID + 1;
      ok := true;
    }

    /** `removeCancelOfResolvedCommand`. */
    method RemoveCancel(id: CommandID)
      requires Indexed() && id.ctype in {CancelTimerType, CancelActivityType}
      modifies this`orderedCommands, this`commands
      ensures Indexed() && View() == old(View()).(machines := RemoveID(old(View().machines), id))
    {
      FindAgrees(objects, orderedCommands, commands, nextSerial, id);
      if id in commands {
        AgreeRemove(objects, orderedCommands, commands, nextSerial, Find(View().machines, id).value);
        orderedCommands := Unlink(orderedCommands, commands[id]);
        commands := commands - {id};
      }
    }

    /** `moveCommandToBack`. */
    method MoveToBack(p: nat, ghost i: nat)
      requires Indexed() && i < |orderedCommands| && p == orderedCommands[i]
      modifies this`orderedCommands
      ensures Indexed()
      ensures View() == old(View()).(machines := RemoveAt(old(View().machines), i) + [old(View().machines)[i]])
    {
      AgreeBack(objects, orderedCommands, commands, nextSerial, i);
      orderedCommands := Unlink(orderedCommands, p) + [p];
    }

    /** `cancel` of a timer or an activity. */
    method CancelAndAdd(id: CommandID, cancelID: CommandID, scheduledID: int) returns (ok: bool)
      requires Indexed()
      modifies this
      ensures Became(CancelWithCommand(old(View()), id, cancelID, scheduledID), ok)
    {
      var r := Lookup(id);
      if r.None? {
        return false;
      }
      if objects[r.value].state in {Created, CommandSent, Initiated} {
        ok := Add(cancelID, scheduledID);
        if !ok {
          return;
        }
      }
      ok := HandleByID(id, EvCancel);
    }

    /** A started child becomes cancelled, goes to the back of the list and counts as a new command. */
    method CancelStartedChild(p: nat, ghost i: nat)
      requires Indexed() && i < |orderedCommands| && p == orderedCommands[i] && objects[p].state == Started
      modifies this
      ensures Indexed()
      ensures var m := old(View().machines[i]).(state := CanceledAfterStarted);
              View() == old(View()).(machines := RemoveAt(old(View().machines), i) + [m],
                                     counter := old(View().counter).Bump())
    {
      MoveState(p, CanceledAfterStarted, i);
      MoveToBack(p, i);
      nextCommandEventID := nextCommandEventID + 1;
    }

    /** `cancel` of a child workflow. */
    method CancelChildWorkflow(id: CommandID) returns (ok: bool)
      requires Indexed()
      modifies this
      ensures Became(CancelChildNamed(old(View()), id), ok)
    {
      var r := Lookup(id);
      if r.None? {
        return false;
      }
      if objects[r.value].state == Started {
        CancelStartedChild(r.value, Find(View().machines, id).value);
        ok := true;
      } else {
        ok := HandleByID(id, EvCancel);
      }
    }

    /** `cancel` of a Nexus operation. */
    method CancelNexusOperation(id: CommandID) returns (ok: bool)
      requires Indexed()
      modifies this
      ensures Became(match Find(old(View().machines), id)
                     case None => Panic
                     case Some(i) => CancelNexusAt(old(View()), i), ok)
    {
      var r := Lookup(id);
      if r.None? {
        return false;
      }
      var p := r.value;
      ghost var i := Find(View().machines, id).value;
      var m := objects[p];
      if m.cancelation.Some? || m.state == Completed {
        return true;
      }
      var cancelPtr := nextSerial;
      ok := Add(CancelNexusID(m.scheduledID), m.scheduledID);
      if ok {
        LinkCancelation(p, m, cancelPtr, i);
        if m.state == Created {
          ok := HandleByID(CancelNexusID(m.scheduledID), EvCompletion);
        }
      }
    }

    /** `sm.cancelation = cancelCmd`. */
    method LinkCancelation(p: nat, m: Machine, cancelPtr: nat, ghost i: nat)
      requires Indexed() && i < |orderedCommands| && p == orderedCommands[i] && objects[p] == m
      requires cancelPtr in objects && objects[cancelPtr].id.ctype == CancelNexusType
      modifies this`objects
      ensures Indexed()
      ensures View() == old(View()).(machines := old(View().machines)[i := m.(cancelation := Some(cancelPtr))])
    {
      AgreeUpdate(objects, orderedCommands, commands, nextSerial, i, m.(cancelation := Some(cancelPtr)));
      objects := objects[p := m.(cancelation := Some(cancelPtr))];
    }

    /** `handleNexusOperationScheduled`. */
    method BindNexusOperation(eventID: int) returns (ok: bool)
      requires Indexed() && (unscheduledNexus != [] ==> unscheduledNexus[0] in orderedCommands)
      modifies this
      ensures Became(BindNexus(old(View()), eventID), ok)
    {
      if unscheduledNexus == [] {
        return false;
      }
      var p := unscheduledNexus[0];
      FindSerialAgrees(objects, orderedCommands, commands, nextSerial, p);
      ghost var i := FindSerial(View().machines, p).value;
      unscheduledNexus := unscheduledNexus[1..];
      SetScheduledID(p, eventID, i);
      nexusIDs := nexusIDs[eventID := objects[p].id];
      ok := Handle(p, EvInitiated, i);
    }

    method SetScheduledID(p: nat, eventID: int, ghost i: nat)
      requires Indexed() && i < |orderedCommands| && p == orderedCommands[i]
      modifies this`objects
      ensures Indexed()
      ensures var m := old(View().machines)[i].(scheduledID := eventID);
              View() == old(View()).(machines := old(View().machines)[i := m])
    {
      AgreeUpdate(objects, orderedCommands, commands, nextSerial, i, objects[p].(scheduledID := eventID));
      objects := objects[p := objects[p].(scheduledID := eventID)];
    }

    lemma ListedWaiting()
      requires Valid() && unscheduledNexus != []
      ensures unscheduledNexus[0] in orderedCommands
    {
      var p := unscheduledNexus[0];
      assert HasWaiting(View().machines, p);
      var m :| m in View().machines && m.serial == p;
      var i :| 0 <= i < |orderedCommands| && View().machines[i] == m;
      assert orderedCommands[i] in orderedCommands;
    }

    /** An event method called through a pointer. */
    method HandlePointer(c: nat, e: MachineEvent) returns (ok: bool)
      requires Indexed() && c in objects && (c in orderedCommands || objects[c].state == Completed)
      requires e in {EvInitiated, EvCompletion}
      modifies this`objects, this`orderedCommands, this`commands
      ensures ok == FireSerial(old(View().machines), c, e).Ok?
      ensures ok ==> Indexed() && View() == old(View()).(machines := FireSerial(old(View().machines), c, e).value)
    {
      FindSerialAgrees(objects, orderedCommands, commands, nextSerial, c);
      if c in orderedCommands {
        ok := Handle(c, e, FindSerial(View().machines, c).value);
      } else {
        ok := !MoveOf(CancelNexusType, objects[c].state, e).Illegal?;
      }
    }

    /** An event for the cancel request of a Nexus operation, called through its pointer. */
    method HandleCancelation(eventID: int, e: MachineEvent) returns (ok: bool)
      requires Indexed() && e in {EvInitiated, EvCompletion}
      modifies this`objects, this`orderedCommands, this`commands
      ensures Became(FireCancelation(old(View()), eventID, e), ok)
    {
      if eventID !in nexusIDs {
        return false;
      }
      var r := Lookup(nexusIDs[eventID]);
      if r.None? || objects[r.value].cancelation.None? {
        return false;
      }
      var c := objects[r.value].cancelation.value;
      ok := HandlePointer(c, e);
    }

    /** `setCurrentWorkflowTaskStartedEventID`: counts the commands that are already waiting. */
    method SetWorkflowTaskStarted(eventID: int)
      requires Indexed()
      modifies this`nextCommandEventID
      ensures Indexed()
      ensures View() == old(View()).(counter := Counter(eventID + 2 + |Commands(old(View().machines))|,
                                                        versionMarkerLookup))
    {
      var uncounted := 0;
      for i := 0 to |orderedCommands|
        invariant uncounted == |Commands(View().machines[..i])|
      {
        assert View().machines[..i + 1] == View().machines[..i] + [View().machines[i]];
        CommandsSnoc(View().machines[..i], View().machines[i]);
        if CommandOf(objects[orderedCommands[i]]).Some? {
          uncounted := uncounted + 1;
        }
      }
      assert View().machines[..|orderedCommands|] == View().machines;
      nextCommandEventID := eventID + 2 + uncounted;
    }

    /** `getCommands`: walks the list while sent machines may leave it. */
    method GetCommands(markAsSent: bool) returns (result: seq<Command>)
      requires Indexed()
      modifies this`objects, this`orderedCommands, this`commands
      ensures result == Commands(old(View().machines))
      ensures Indexed() && View() == old(View()).(machines := AfterGet(old(View().machines), markAsSent))
    {
      result := [];
      var i := 0;
      ghost var h := View();
      ghost var k := 0;
      while i < |orderedCommands|
        invariant Indexed() && i <= |orderedCommands| && k <= |h.machines|
        invariant View() == h.(machines := AfterGet(h.machines[..k], markAsSent) + h.machines[k..])
        invariant |AfterGet(h.machines[..k], markAsSent)| == i && |orderedCommands| - i == |h.machines| - k
        invariant result == Commands(h.machines[..k])
        decreases |h.machines| - k
      {
        var p := orderedCommands[i];
        WalkStep(h.machines, k, View().machines, i, markAsSent);
        match CommandOf(objects[p]) {
          case Some(c) => result := result + [c];
          case None =>
        }
        var kept := SendOne(p, markAsSent, i);
        assert |orderedCommands| == |View().machines|;
        if kept {
          i := i + 1;
        }
        k := k + 1;
      }
      assert h.machines[..k] == h.machines;
    }

    /** One round of the walk: `handleCommandSent`, then completed machines leave the indexes. */
    method SendOne(p: nat, markAsSent: bool, ghost i: nat) returns (kept: bool)
      requires Indexed() && i < |orderedCommands| && p == orderedCommands[i]
      modifies this`objects, this`orderedCommands, this`commands
      ensures Indexed()
      ensures var m := Got(old(View().machines)[i], markAsSent);
              && kept == (m.state != Completed)
              && View() == old(View()).(machines := if kept then old(View().machines)[i := m]
                                                    else RemoveAt(old(View().machines), i))
    {
      var s := objects[p].state;
      if markAsSent {
        match MoveOf(objects[p].id.ctype, s, EvSent) {
          case To(s') => s := s';
          case _ =>
        }
      }
      kept := s != Completed;
      if s != objects[p].state || !kept {
        MoveState(p, s, i);
      }
    }

    /** `requestCancelActivityTask`: the cancel command is named by the activity's scheduled event. */
    method CancelActivityTask(id: CommandID) returns (ok: bool)
      requires Indexed()
      modifies this
      ensures Became(CancelActivityNamed(old(View()), id), ok)
    {
      var r := Lookup(id);
      if r.None? {
        return false;
      }
      var e := objects[r.value].scheduledID;
      ok := CancelAndAdd(id, CancelActivityID(e), e);
    }

    /** A cancellation from workflow code. */
    method InvokeCancel(call: Call) returns (ok: bool)
      requires Indexed() && (call.CancelActivity? || call.CancelTimer? || call.CancelChild? || call.CancelNexus?)
      modifies this
      ensures Became(OnCall(old(View()), call), ok)
    {
      if call.CancelActivity? {
        ok := CancelActivityTask(ActivityID(call.activityID));
      } else if call.CancelTimer? {
        ok := CancelAndAdd(TimerID(call.timerID), CancelTimerID(Text(call.timerID)), 0);
      } else if call.CancelChild? {
        ok := CancelChildWorkflow(ChildID(call.workflowID));
      } else {
        ok := CancelNexusOperation(NexusID(call.seqNo));
      }
    }

    /** A call from workflow code. */
    method Invoke(call: Call) returns (ok: bool)
      requires Indexed()
      modifies this
      ensures Became(OnCall(old(View()), call), ok)
    {
      if call.GetNextID? {
        var id;
        ok, id := GetNextID();
      } else if call.ScheduleActivity? {
        activityIDs := activityIDs[call.scheduleID := call.activityID];
        ok := Add(ActivityID(call.activityID), call.scheduleID);
      } else if call.ScheduleNexus? {
        unscheduledNexus := unscheduledNexus + [nextSerial];
        ok := Add(NexusID(call.seqNo), 0);
      } else if call.StartChild? {
        var r := Lookup(ChildID(call.workflowID));
        if r.Some? {
          return true;
        }
        ok := Add(ChildID(call.workflowID), 0);
      } else if call.CancelActivity? || call.CancelTimer? || call.CancelChild? || call.CancelNexus? {
        ok := InvokeCancel(call);
      } else if call == CancelExternal("") {
        ok := false;
      } else {
        ok := Add(PlainID(call).value, 0);
      }
    }

    /** The lookups, without the machines. */
    function Lookups(): Helper
      reads this
    {
      Helper(Counter(0, map[]), [], nextSerial, activityIDs, cancellationIDs, signalIDs, nexusIDs, unscheduledNexus)
    }

    lemma RouteByLookups(event: Event)
      requires Indexed() && Routed(event)
      ensures Route(Lookups(), event) == Route(View(), event)
    {
    }

    method PrepareFor(event: Event)
      requires Indexed()
      modifies this
      ensures Indexed() && View() == Prepare(old(View()), event)
    {
      if event.ActivityClosed? {
        RemoveCancel(CancelActivityID(event.eventID));
      } else if event.TimerFired? {
        RemoveCancel(CancelTimerID(Text(event.timerID)));
      } else if event.ExternalCancelInitiated? && event.cancellationID != "" {
        cancellationIDs := cancellationIDs[event.eventID := event.cancellationID];
      } else if event.SignalInitiated? {
        signalIDs := signalIDs[event.eventID := event.signalID];
      }
    }

    method ForgetAfter(event: Event)
      requires Indexed()
      modifies this`activityIDs, this`nexusIDs
      ensures Indexed() && View() == Forget(old(View()), event)
    {
      if event.ActivityClosed? || event.ActivityCanceled? {
        activityIDs := activityIDs - {event.eventID};
      } else if event.NexusCompleted? {
        nexusIDs := nexusIDs - {event.eventID};
      }
    }

    /** An event for one machine. */
    method DeliverEvent(event: Event) returns (ok: bool)
      requires Indexed() && Routed(event)
      modifies this
      ensures Became(Deliver(old(View()), event), ok)
    {
      RouteByLookups(event);
      var r := Route(Lookups(), event);
      if r.Panic? {
        return false;
      }
      PrepareFor(event);
      ok := HandleByID(r.value.0, r.value.1);
      if ok {
        ForgetAfter(event);
      }
    }

    /** `handleVersionMarker`. */
    method LoadVersionMarker(eventID: int, marker: VersionMarker) returns (ok: bool)
      requires Indexed()
      modifies this`versionMarkerLookup
      ensures ok == old(View().counter).Load(eventID, marker).Ok?
      ensures ok ==> Indexed() && View() == old(View()).(counter := old(View().counter).Load(eventID, marker).value)
    {
      ok := eventID !in versionMarkerLookup;
      if ok {
        versionMarkerLookup := versionMarkerLookup[eventID := marker];
      }
    }

    /** A history event. */
    method Apply(event: Event) returns (ok: bool)
      requires Indexed() && (unscheduledNexus != [] ==> unscheduledNexus[0] in orderedCommands)
      modifies this
      ensures Became(OnEvent(old(View()), event), ok)
    {
      if event.WorkflowTaskStarted? {
        SetWorkflowTaskStarted(event.eventID);
        ok := true;
      } else if event.VersionMarkerRecorded? {
        ok := LoadVersionMarker(event.eventID, event.marker);
      } else if event.NexusScheduled? {
        ok := BindNexusOperation(event.eventID);
      } else if event.NexusCancelRequested? {
        ok := HandleCancelation(event.eventID, EvInitiated);
      } else if event.NexusCancelDelivered? {
        ok := HandleCancelation(event.eventID, EvCompletion);
      } else {
        ok := DeliverEvent(event);
      }
    }

    /** Any operation: the helper takes the step that HelperState describes, returns the commands to
        send, and keeps both indexes and all lookups consistent. */
    method Perform(op: Op) returns (ok: bool, response: seq<Command>)
      requires Valid()
      modifies this
      ensures Became(Step(old(View()), op), ok)
      ensures ok ==> Valid()
      ensures response == if op.GetCommands? then Commands(old(View().machines)) else []
    {
      ghost var h := View();
      if unscheduledNexus != [] {
        ListedWaiting();
      }
      response := [];
      match op {
        case Invoke(call) => ok := Invoke(call);
        case Apply(event) => ok := Apply(event);
        case GetCommands(markAsSent) =>
          response := GetCommands(markAsSent);
          ok := true;
      }
      if ok {
        StepKeepsInv(h, op);
      }
    }
  }
}
