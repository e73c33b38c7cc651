/** The environment as the program keeps it: the helper object, and per command the data whose
    flags and callbacks are updated in place.  Every method has the effect that Environment gives it. */
module WorkflowEnvironment {
  import opened Basics
  import opened CommandIndex
  import opened CommandMachine
  import opened HelperState
  import opened Environment
  import C = CommandsHelper

  class WorkflowEnvironment {
    const helper: C.CommandsHelper
    var activities: map<nat, ActivityData>
    var operations: map<nat, OperationData>
    var fired: seq<Firing>

    ghost function View(): Env
      requires helper.Indexed()
      reads this, helper
    {
      Env(helper.View(), activities, operations, fired)
    }

    ghost predicate Valid()
      reads this, helper
    {
      helper.Indexed() && EnvInv(View())
    }

    /** The method ended as `r` says: with a panic, or with `r`'s value as the new state. */
    ghost predicate Became(r: Result<Env>, ok: bool)
      reads this, helper
    {
      ok == r.Ok? && (ok ==> helper.Indexed() && View() == r.value)
    }

    constructor ()
      ensures fresh(helper) && Valid() && View() == NEW_ENV
    {
      helper := new C.CommandsHelper();
      activities, operations, fired := map[], map[], [];
    }

    /** `scheduledActivity.handle`. */
    method HandleActivity(p: nat) returns (ok: bool)
      requires helper.Indexed()
      modifies this`activities, this`fired
      ensures Became(Environment.HandleActivity(old(View()), p), ok)
    {
      if p !in activities || activities[p].handled {
        return false;
      }
      activities := activities[p := activities[p].(handled := true)];
      fired := fired + [ActivityResult(p)];
      ok := true;
    }

    method CallStarted(p: nat)
      requires helper.Indexed() && p in operations
      modifies this`operations, this`fired
      ensures View() == Environment.CallStarted(old(View()), p)
    {
      if operations[p].startedPending {
        fired := fired + [OperationStarted(p)];
        operations := operations[p := operations[p].(startedPending := false)];
      }
    }

    /** Both callbacks of an operation, the started one first. */
    method Unblock(p: nat)
      requires helper.Indexed() && p in operations
      modifies this`operations, this`fired
      ensures View() == Environment.Unblock(old(View()), p)
    {
      CallStarted(p);
      if operations[p].completedPending {
        fired := fired + [OperationCompleted(p)];
        operations := operations[p := operations[p].(completedPending := false)];
      }
    }

    /** `isDone` through the pointer of a machine that may have left the list. */
    method IsDone(p: nat) returns (done: bool)
      requires helper.Indexed()
      ensures done == Done(helper.View().machines, p)
    {
      FindSerialAgrees(helper.objects, helper.orderedCommands, helper.commands, helper.nextSerial, p);
      done := p !in helper.orderedCommands || helper.objects[p].state == CompletedAfterCancellationCommandSent;
    }

    /** `getCommand`: the pointer of a listed machine. */
    method Pointer(id: CommandID) returns (r: Option<nat>)
      requires helper.Indexed()
      ensures r.Some? <==> MachineNamed(helper.View(), id).Ok?
      ensures r.Some? ==> r.value in helper.objects && MachineNamed(helper.View(), id).value == helper.objects[r.value]
                          && helper.objects[r.value].serial == r.value
    {
      r := helper.Lookup(id);
    }

    /** Applies a history event to the helper. */
    method ApplyToHelper(event: Event) returns (ok: bool)
      requires Valid()
      modifies helper
      ensures helper.Became(OnEvent(old(helper.View()), event), ok)
    {
      if helper.unscheduledNexus != [] {
        helper.ListedWaiting();
      }
      ok := helper.Apply(event);
    }

    /** The handlers of activity closed and canceled events. */
    method CloseActivity(event: Event, id: CommandID) returns (ok: bool)
      requires Valid()
      modifies this, helper
      ensures Became(Environment.CloseActivity(old(View()), event, id), ok)
    {
      var r := Pointer(id);
      if r.None? {
        return false;
      }
      var p := r.value;
      ok := ApplyToHelper(event);
      if !ok {
        return;
      }
      if p !in activities {
        return false;
      }
      if activities[p].handled {
        return true;
      }
      if event.ActivityCanceled? && activities[p].waitForCancelRequest {
        var done := IsDone(p);
        if !done {
          return true;
        }
      }
      ok := HandleActivity(p);
    }

    method DeliverNexusEvent(event: Event, p: nat) returns (ok: bool)
      requires Valid() && NexusProgress(event)
      modifies this, helper
      ensures ok <==> OnEvent(old(helper.View()), event).Ok? && p in old(operations)
      ensures ok ==>
                && helper.Indexed()
                && View() == NexusCallbacks(old(View()).(helper := OnEvent(old(helper.View()), event).value), event, p)
    {
      ok := ApplyToHelper(event);
      if ok {
        if p !in operations {
          return false;
        }
        CallBack(event, p);
      }
    }

    /** The handlers of Nexus operation events. */
    method HandleNexusEvent(event: Event) returns (ok: bool)
      requires Valid() && NexusProgress(event)
      modifies this, helper
      ensures Became(OnNexusEvent(old(View()), event), ok)
    {
      if event.eventID !in helper.nexusIDs {
        return false;
      }
      var r := Pointer(helper.nexusIDs[event.eventID]);
      if r.None? {
        return false;
      }
      ok := DeliverNexusEvent(event, r.value);
    }

    /** The callbacks that an event of an operation triggers. */
    method CallBack(event: Event, p: nat)
      requires helper.Indexed() && p in operations
      modifies this`operations, this`fired
      ensures View() == NexusCallbacks(old(View()), event, p)
    {
      if event.NexusStarted? {
        CallStarted(p);
      } else if Unblocks(event, operations[p].mode) {
        Unblock(p);
      }
    }

    method HandleHistory(event: Event) returns (ok: bool)
      requires Valid()
      modifies this, helper
      ensures Became(OnHistory(old(View()), event), ok)
    {
      if event.ActivityClosed? || event.ActivityCanceled? {
        if event.eventID !in helper.activityIDs {
          return false;
        }
        ok := CloseActivity(event, ActivityID(helper.activityIDs[event.eventID]));
      } else if event == NexusCancelDelivered(0) {
        ok := true;
      } else if NexusProgress(event) {
        ok := HandleNexusEvent(event);
      } else {
        ok := ApplyToHelper(event);
      }
    }

    method ExecuteActivity(scheduleID: int, activityID: string, waitForCancelRequest: bool) returns (ok: bool)
      requires Valid()
      modifies this, helper
      ensures Became(EnvStep(old(View()), EnvOp.ExecuteActivity(scheduleID, activityID, waitForCancelRequest)), ok)
    {
      var p := helper.nextSerial;
      ok := helper.Invoke(ScheduleActivity(scheduleID, activityID));
      if ok {
        activities := activities[p := ActivityData(false, waitForCancelRequest)];
      }
    }

    method RequestCancelActivity(activityID: string) returns (ok: bool)
      requires Valid()
      modifies this, helper
      ensures Became(CancelActivityCall(old(View()), activityID), ok)
    {
      var r := Pointer(ActivityID(activityID));
      if r.None? {
        return false;
      }
      var p := r.value;
      ok := helper.Invoke(CancelActivity(activityID));
      if !ok {
        return;
      }
      if p !in activities {
        return false;
      }
      if activities[p].handled {
        return true;
      }
      var done := IsDone(p);
      if done || !activities[p].waitForCancelRequest {
        ok := HandleActivity(p);
      }
    }

    method ExecuteNexusOperation(seqNo: int, mode: CancellationMode) returns (ok: bool)
      requires Valid()
      modifies this, helper
      ensures Became(EnvStep(old(View()), EnvOp.ExecuteNexusOperation(seqNo, mode)), ok)
    {
      var p := helper.nextSerial;
      ok := helper.Invoke(ScheduleNexus(seqNo));
      if ok {
        operations := operations[p := OperationData(true, true, mode)];
      }
    }

    method RequestCancelNexusOperation(seqNo: int) returns (ok: bool)
      requires Valid()
      modifies this, helper
      ensures Became(CancelOperationCall(old(View()), seqNo), ok)
    {
      var r := Pointer(NexusID(seqNo));
      if r.None? {
        return false;
      }
      var p := r.value;
      var state := helper.objects[p].state;
      ok := helper.Invoke(CancelNexus(seqNo));
      if !ok {
        return;
      }
      if p !in operations {
        return false;
      }
      if state == Created || state == CommandSent {
        Unblock(p);
      }
    }

    method AbandonNexusOperation(seqNo: int) returns (ok: bool)
      requires Valid()
      modifies this
      ensures Became(AbandonCall(old(View()), seqNo), ok)
    {
      var r := Pointer(NexusID(seqNo));
      if r.None? || r.value !in operations {
        return false;
      }
      operations := operations[r.value := operations[r.value].(startedPending := false, completedPending := false)];
      ok := true;
    }

    method CallOther(call: Call) returns (ok: bool)
      requires helper.Indexed()
      modifies helper
      ensures helper.Became(OtherStep(old(helper.View()), call), ok)
    {
      if call.ScheduleActivity? || call.CancelActivity? || call.ScheduleNexus? || call.CancelNexus? {
        return false;
      }
      ok := helper.Invoke(call);
    }

    method Dispatch(op: EnvOp) returns (ok: bool)
      requires Valid()
      modifies this, helper
      ensures Became(EnvStep(old(View()), op), ok)
    {
      match op
      case ExecuteActivity(s, a, wait) => ok := ExecuteActivity(s, a, wait);
      case RequestCancelActivity(a) => ok := RequestCancelActivity(a);
      case ExecuteNexusOperation(n, mode) => ok := ExecuteNexusOperation(n, mode);
      case RequestCancelNexusOperation(n) => ok := RequestCancelNexusOperation(n);
      case AbandonNexusOperation(n) => ok := AbandonNexusOperation(n);
      case HandleEvent(event) => ok := HandleHistory(event);
      case OtherCall(call) => ok := CallOther(call);
      case Respond =>
        var commands := helper.GetCommands(true);
        ok := true;
    }

    /** Any operation: the environment takes the step that Environment describes, and panics only when
        the helper does. */
    method Perform(op: EnvOp) returns (ok: bool)
      requires Valid()
      modifies this, helper
      ensures Became(EnvStep(old(View()), op), ok)
      ensures ok ==> Valid()
      ensures ok == HelperStep(old(View().helper), op).Ok?
    {
      StepKeepsEnv(View(), op);
      ok := Dispatch(op);
    }
  }
}
