/** A command from the call that issues it to the event that ends it: every event in between finds its
    machine, and afterwards nothing is left of it. */
module CommandTrips {
  import opened Basics
  import opened CommandMachine
  import opened HelperState
  import opened Invariants
  import opened MachineRuns
  import opened EventOutcomes

  /** The helper after a response. */
  function Responded(h: Helper): Helper {
    h.(machines := AfterGet(h.machines, true))
  }

  lemma Forgotten<V>(m: map<int, V>, k: int, v: V)
    ensures m[k := v] - {k} == m - {k}
  {}

  lemma AddedState(h: Helper, id: CommandID, scheduledID: int)
    requires Inv(h) && AddCommand(h, id, scheduledID).Ok?
    ensures StateOf(AddCommand(h, id, scheduledID).value.machines, id) == Some(Created)
  {
    var h' := AddCommand(h, id, scheduledID).value;
    AddEffect(h, id, scheduledID);
    assert h'.machines[|h.machines|] in h'.machines;
    StateMember(h'.machines, h'.machines[|h.machines|]);
  }

  /** The commands that stay listed when they are sent. */
  predicate Answered(t: CommandType) {
    t in {ActivityType, TimerType, ChildType, NexusType}
  }

  lemma SendingNew(t: CommandType)
    requires Answered(t)
    ensures !CompletesOnSend(t) && AfterEvent(t, Some(Created), Some(EvSent)) == Some(CommandSent)
  {}

  lemma SentState(h: Helper, id: CommandID)
    requires Inv(h) && StateOf(h.machines, id) == Some(Created) && Answered(id.ctype)
    ensures Inv(Responded(h)) && StateOf(Responded(h).machines, id) == Some(CommandSent)
  {
    SendingNew(id.ctype);
    SendProjects(h, true, id);
    GetKeepsInv(h);
  }

  lemma GetKeepsInv(h: Helper)
    requires Inv(h)
    ensures Inv(Responded(h))
  {
    StepKeepsInv(h, GetCommands(true));
  }

  /** A new command is added and sent. */
  lemma AddAndSend(h: Helper, id: CommandID, scheduledID: int)
    requires Inv(h) && AddCommand(h, id, scheduledID).Ok? && Answered(id.ctype)
    ensures var h2 := Responded(AddCommand(h, id, scheduledID).value);
            Inv(h2) && StateOf(h2.machines, id) == Some(CommandSent)
  {
    AddKeepsInv(h, id, scheduledID);
    AddedState(h, id, scheduledID);
    SentState(AddCommand(h, id, scheduledID).value, id);
  }

  /** The event is about this machine, and moves it from state `s` to `s'`. */
  predicate Moves(h: Helper, event: Event, id: CommandID, s: CommandState, s': Option<CommandState>) {
    && Routed(event) && Subject(h, event) == Some(id)
    && !Refuses(event, id.ctype, s) && Afterwards(event, id.ctype, s) == s'
  }

  lemma Accept(h: Helper, event: Event, id: CommandID, s: CommandState, s': Option<CommandState>) returns (h': Helper)
    requires Inv(h) && Moves(h, event, id, s, s') && StateOf(h.machines, id) == Some(s)
    ensures OnEvent(h, event) == Ok(h') && Inv(h') && StateOf(h'.machines, id) == s'
  {
    AcceptedIff(h, event);
    h' := OnEvent(h, event).value;
    OutcomeIs(h, event);
    EventKeepsInv(h, event);
  }

  /** Two events in turn, which name the machine themselves. */
  lemma AcceptBoth(h: Helper, e1: Event, e2: Event, id: CommandID, s: CommandState, s1: CommandState,
                   s2: Option<CommandState>)
    returns (h': Helper, h'': Helper)
    requires Inv(h) && StateOf(h.machines, id) == Some(s)
    requires forall x :: Moves(x, e1, id, s, Some(s1)) && Moves(x, e2, id, s1, s2)
    ensures OnEvent(h, e1) == Ok(h') && OnEvent(h', e2) == Ok(h'') && Inv(h'') && StateOf(h''.machines, id) == s2
  {
    h' := Accept(h, e1, id, s, Some(s1));
    h'' := Accept(h', e2, id, s1, s2);
  }

  lemma TimerMoves(t: string)
    ensures forall x :: Moves(x, TimerStarted(t), TimerID(t), CommandSent, Some(Initiated))
    ensures forall x :: Moves(x, TimerFired(t), TimerID(t), Initiated, None)
  {}

  lemma ActivityMoves(h: Helper, s: int, a: string)
    requires s in h.activityIDs && h.activityIDs[s] == a
    ensures Moves(h, ActivityScheduled(a, s), ActivityID(a), CommandSent, Some(Initiated))
    ensures Moves(h, ActivityClosed(s), ActivityID(a), Initiated, None)
  {}

  lemma ChildMoves(w: string)
    ensures forall x :: Moves(x, ChildInitiated(w), ChildID(w), CommandSent, Some(Initiated))
    ensures forall x :: Moves(x, ChildStarted(w), ChildID(w), Initiated, Some(Started))
    ensures forall x :: Moves(x, ChildClosed(w), ChildID(w), Started, None)
  {}

  lemma ActivitySent(h: Helper, s: int, a: string) returns (h2: Helper)
    requires Inv(h) && Find(h.machines, ActivityID(a)).None?
    ensures OnCall(h, ScheduleActivity(s, a)).Ok? && h2 == Responded(OnCall(h, ScheduleActivity(s, a)).value)
    ensures Inv(h2) && StateOf(h2.machines, ActivityID(a)) == Some(CommandSent)
    ensures h2.activityIDs == h.activityIDs[s := a]
  {
    h2 := Responded(OnCall(h, ScheduleActivity(s, a)).value);
    CallKeepsInv(h, ScheduleActivity(s, a));
    GetKeepsInv(OnCall(h, ScheduleActivity(s, a)).value);
    AddAndSend(h, ActivityID(a), s);
  }

  lemma ActivityRecorded(h: Helper, s: int, a: string) returns (h': Helper)
    requires Inv(h) && StateOf(h.machines, ActivityID(a)) == Some(CommandSent)
    requires s in h.activityIDs && h.activityIDs[s] == a
    ensures OnEvent(h, ActivityScheduled(a, s)) == Ok(h') && Inv(h')
    ensures StateOf(h'.machines, ActivityID(a)) == Some(Initiated) && h'.activityIDs == h.activityIDs
  {
    ActivityMoves(h, s, a);
    h' := Accept(h, ActivityScheduled(a, s), ActivityID(a), CommandSent, Some(Initiated));
    LookupsAfter(h, ActivityScheduled(a, s));
  }

  lemma ActivityOver(h: Helper, s: int, a: string) returns (h': Helper)
    requires Inv(h) && StateOf(h.machines, ActivityID(a)) == Some(Initiated)
    requires s in h.activityIDs && h.activityIDs[s] == a
    ensures OnEvent(h, ActivityClosed(s)) == Ok(h')
    ensures StateOf(h'.machines, ActivityID(a)) == None && h'.activityIDs == h.activityIDs - {s}
  {
    ActivityMoves(h, s, a);
    h' := Accept(h, ActivityClosed(s), ActivityID(a), Initiated, None);
    LookupsAfter(h, ActivityClosed(s));
  }

  /** An activity that is scheduled, sent, recorded and closed leaves the list and the lookup. */
  lemma ActivityTrip(h: Helper, s: int, a: string) returns (h2: Helper, h3: Helper, h4: Helper)
    requires Inv(h) && Find(h.machines, ActivityID(a)).None?
    ensures OnCall(h, ScheduleActivity(s, a)).Ok? && h2 == Responded(OnCall(h, ScheduleActivity(s, a)).value)
    ensures OnEvent(h2, ActivityScheduled(a, s)) == Ok(h3) && OnEvent(h3, ActivityClosed(s)) == Ok(h4)
    ensures StateOf(h4.machines, ActivityID(a)) == None && h4.activityIDs == h.activityIDs - {s}
  {
    h2 := ActivitySent(h, s, a);
    h3 := ActivityRecorded(h2, s, a);
    h4 := ActivityOver(h3, s, a);
    Forgotten(h.activityIDs, s, a);
  }

  lemma StartsAdd(h: Helper, t: string, w: string)
    ensures OnCall(h, StartTimer(t)) == AddCommand(h, TimerID(t), 0)
    ensures Find(h.machines, ChildID(w)).None? ==> OnCall(h, StartChild(w)) == AddCommand(h, ChildID(w), 0)
  {}

  lemma TimerSent(h: Helper, t: string) returns (h2: Helper)
    requires Inv(h) && Find(h.machines, TimerID(t)).None?
    ensures OnCall(h, StartTimer(t)).Ok? && h2 == Responded(OnCall(h, StartTimer(t)).value)
    ensures Inv(h2) && StateOf(h2.machines, TimerID(t)) == Some(CommandSent)
  {
    StartsAdd(h, t, t);
    h2 := Responded(AddCommand(h, TimerID(t), 0).value);
    AddAndSend(h, TimerID(t), 0);
  }

  lemma ChildSent(h: Helper, w: string) returns (h2: Helper)
    requires Inv(h) && Find(h.machines, ChildID(w)).None?
    ensures OnCall(h, StartChild(w)).Ok? && h2 == Responded(OnCall(h, StartChild(w)).value)
    ensures Inv(h2) && StateOf(h2.machines, ChildID(w)) == Some(CommandSent)
  {
    StartsAdd(h, w, w);
    h2 := Responded(AddCommand(h, ChildID(w), 0).value);
    AddAndSend(h, ChildID(w), 0);
  }

  /** A timer that is started, sent, recorded and fires leaves the list. */
  lemma TimerTrip(h: Helper, t: string) returns (h2: Helper, h3: Helper, h4: Helper)
    requires Inv(h) && Find(h.machines, TimerID(t)).None?
    ensures OnCall(h, StartTimer(t)).Ok? && h2 == Responded(OnCall(h, StartTimer(t)).value)
    ensures OnEvent(h2, TimerStarted(t)) == Ok(h3) && OnEvent(h3, TimerFired(t)) == Ok(h4)
    ensures StateOf(h4.machines, TimerID(t)) == None
  {
    h2 := TimerSent(h, t);
    TimerMoves(t);
    h3, h4 := AcceptBoth(h2, TimerStarted(t), TimerFired(t), TimerID(t), CommandSent, Initiated, None);
  }

  /** So does a child that is started, sent, recorded, started by the server and closed. */
  lemma ChildTrip(h: Helper, w: string) returns (h2: Helper, h3: Helper, h4: Helper, h5: Helper)
    requires Inv(h) && Find(h.machines, ChildID(w)).None?
    ensures OnCall(h, StartChild(w)).Ok? && h2 == Responded(OnCall(h, StartChild(w)).value)
    ensures OnEvent(h2, ChildInitiated(w)) == Ok(h3) && OnEvent(h3, ChildStarted(w)) == Ok(h4)
    ensures OnEvent(h4, ChildClosed(w)) == Ok(h5) && StateOf(h5.machines, ChildID(w)) == None
  {
    h2 := ChildSent(h, w);
    ChildMoves(w);
    h3, h4 := AcceptBoth(h2, ChildInitiated(w), ChildStarted(w), ChildID(w), CommandSent, Initiated, Some(Started));
    h5 := Accept(h4, ChildClosed(w), ChildID(w), Started, None);
  }

  lemma ScheduleNexusIs(h: Helper, n: int)
    requires Find(h.machines, NexusID(n)).None? && h.unscheduledNexus == []
    ensures OnCall(h, ScheduleNexus(n))
         == Ok(AddCommand(h, NexusID(n), 0).value.(unscheduledNexus := [h.nextSerial]))
  {
    assert h.unscheduledNexus + [h.nextSerial] == [h.nextSerial];
  }

  lemma NewSerial(h: Helper, id: CommandID)
    requires Inv(h) && AddCommand(h, id, 0).Ok?
    ensures forall m | m in Responded(AddCommand(h, id, 0).value).machines && m.id == id :: m.serial == h.nextSerial
  {
    var h1 := AddCommand(h, id, 0).value;
    AfterGetMembers(h1.machines, true);
    forall m | m in Responded(h1).machines && m.id == id ensures m.serial == h.nextSerial {
      var x :| x in h1.machines && m == Got(x, true);
      var i :| 0 <= i < |h1.machines| && h1.machines[i] == x;
      assert i == |h.machines|;
    }
  }

  lemma NexusSent(h: Helper, n: int) returns (h2: Helper)
    requires Inv(h) && Find(h.machines, NexusID(n)).None? && h.unscheduledNexus == []
    ensures OnCall(h, ScheduleNexus(n)).Ok? && h2 == Responded(OnCall(h, ScheduleNexus(n)).value)
    ensures Inv(h2) && StateOf(h2.machines, NexusID(n)) == Some(CommandSent)
    ensures h2.machines[Find(h2.machines, NexusID(n)).value].serial == h.nextSerial
    ensures h2.unscheduledNexus == [h.nextSerial] && h2.nexusIDs == h.nexusIDs
  {
    ScheduleNexusIs(h, n);
    h2 := Responded(OnCall(h, ScheduleNexus(n)).value);
    CallKeepsInv(h, ScheduleNexus(n));
    GetKeepsInv(OnCall(h, ScheduleNexus(n)).value);
    AddAndSend(h, NexusID(n), 0);
    NewSerial(h, NexusID(n));
    assert h2.machines[Find(h2.machines, NexusID(n)).value] in h2.machines;
  }

  /** The Scheduled event goes to the operation that is alone in waiting for one. */
  lemma NexusBound(h: Helper, n: int, e: int) returns (h': Helper)
    requires Inv(h) && StateOf(h.machines, NexusID(n)) == Some(CommandSent) && |h.unscheduledNexus| == 1
    requires h.machines[Find(h.machines, NexusID(n)).value].serial == h.unscheduledNexus[0]
    ensures OnEvent(h, NexusScheduled(e)) == Ok(h') && Inv(h')
    ensures StateOf(h'.machines, NexusID(n)) == Some(Initiated) && h'.nexusIDs == h.nexusIDs[e := NexusID(n)]
  {
    var i := Find(h.machines, NexusID(n)).value;
    ScheduledIff(h, e);
    assert FindSerial(h.machines, h.machines[i].serial) == Some(i);
    h' := OnEvent(h, NexusScheduled(e)).value;
    EventKeepsInv(h, NexusScheduled(e));
    assert h'.machines[i] in h'.machines;
    StateMember(h'.machines, h'.machines[i]);
  }

  lemma NexusMoves(h: Helper, n: int, e: int)
    requires e in h.nexusIDs && h.nexusIDs[e] == NexusID(n)
    ensures Moves(h, NexusStarted(e), NexusID(n), Initiated, Some(Started))
    ensures Moves(h, NexusCompleted(e), NexusID(n), Started, None)
  {}

  lemma NexusOver(h: Helper, n: int, e: int) returns (h': Helper, h'': Helper)
    requires Inv(h) && StateOf(h.machines, NexusID(n)) == Some(Initiated)
    requires e in h.nexusIDs && h.nexusIDs[e] == NexusID(n)
    ensures OnEvent(h, NexusStarted(e)) == Ok(h') && OnEvent(h', NexusCompleted(e)) == Ok(h'')
    ensures StateOf(h''.machines, NexusID(n)) == None && h''.nexusIDs == h.nexusIDs - {e}
  {
    NexusMoves(h, n, e);
    h' := Accept(h, NexusStarted(e), NexusID(n), Initiated, Some(Started));
    LookupsAfter(h, NexusStarted(e));
    NexusMoves(h', n, e);
    h'' := Accept(h', NexusCompleted(e), NexusID(n), Started, None);
    LookupsAfter(h', NexusCompleted(e));
  }

  /** A Nexus operation, alone in waiting, that is scheduled, sent, recorded, started and completed leaves
      the list and the lookup. */
  lemma NexusTrip(h: Helper, n: int, e: int) returns (h2: Helper, h3: Helper, h4: Helper, h5: Helper)
    requires Inv(h) && Find(h.machines, NexusID(n)).None? && h.unscheduledNexus == []
    ensures OnCall(h, ScheduleNexus(n)).Ok? && h2 == Responded(OnCall(h, ScheduleNexus(n)).value)
    ensures OnEvent(h2, NexusScheduled(e)) == Ok(h3) && OnEvent(h3, NexusStarted(e)) == Ok(h4)
    ensures OnEvent(h4, NexusCompleted(e)) == Ok(h5)
    ensures StateOf(h5.machines, NexusID(n)) == None && h5.nexusIDs == h.nexusIDs - {e}
  {
    h2 := NexusSent(h, n);
    h3 := NexusBound(h2, n, e);
    h4, h5 := NexusOver(h3, n, e);
    Forgotten(h.nexusIDs, e, NexusID(n));
  }
}
