/**
 * The decision rules of the workflow view
 * (app/dashboard/component/workflowVisualization.tsx): the status shown for
 * a step, the action offered on it, and the events listed under it.
 */
module WorkflowVisualization {
  import opened Types
  import opened Strings
  import StepManager

  /** The five statuses the view shows a step in. */
  datatype DisplayStatus = Completed | InProgress | WaitingShown | PendingShown | FailedShown

  /** `workflow.currentStepIndex || 0` */
  function Cursor(wf: Workflow): int {
    wf.currentStepIndex.GetOr(0)
  }

  /** `getStepStatus` for the step drawn at position `index`. */
  function GetStepStatus(wf: Workflow, step: Step, index: nat): (r: DisplayStatus)
    ensures step.failedAt.Some? ==> r == FailedShown
    ensures step.failedAt.None? && step.state == StepState.Done ==> r == Completed
    ensures step.failedAt.None? && step.state != StepState.Done && step.kind == StepKind.Auto ==>
      (r == Completed <==> index <= Cursor(wf)) && (r != Completed ==> r == PendingShown)
    ensures step.failedAt.None? && step.state != StepState.Done && step.kind == StepKind.Human ==>
      r == (if index == Cursor(wf) && wf.state != WorkflowState.WaitingApproval then InProgress else WaitingShown)
  {
    if step.failedAt.Some? then FailedShown
    else if step.state == StepState.Done then Completed
    else if step.kind.Auto? then (if index <= Cursor(wf) then Completed else PendingShown)
    else if index == Cursor(wf) then
      (if wf.state == WorkflowState.WaitingApproval then WaitingShown
       else if step.failedAt.Some? then assert false; FailedShown
       else InProgress)
    else if step.kind.Human? then WaitingShown
    else assert false; PendingShown
  }

  datatype StepAction = StepAction(title: string, description: string)

  const ReplayLabel := "🔁 Replay From Here"

  function ReplayDescription(index: nat): string {
    "Replay from step " + NatToString(index + 1) + ". All subsequent steps will be reset."
  }

  function ExecuteDescription(index: nat): string {
    "Execute step " + NatToString(index + 1) + " now."
  }

  /** `getStepActions`: the single replay-or-execute action, offered on executable completed steps. */
  function GetStepActions(wf: Workflow, step: Step, index: nat): (r: seq<StepAction>)
    ensures |r| <= 1
    ensures |r| == 1 <==> step.canExecute && GetStepStatus(wf, step, index) == Completed
    ensures |r| == 1 ==> r[0].title == ReplayLabel
    ensures |r| == 1 ==> (r[0].description == ReplayDescription(index) <==> index < Cursor(wf))
    ensures |r| == 1 ==> (r[0].description == ExecuteDescription(index) <==> !(index < Cursor(wf)))
  {
    if step.canExecute && GetStepStatus(wf, step, index) == Completed then
      var description := if index < Cursor(wf) then ReplayDescription(index) else ExecuteDescription(index);
      assert ReplayDescription(index)[0] != ExecuteDescription(index)[0];
      [StepAction(ReplayLabel, description)]
    else []
  }

  /**
   * For a stored step (whose `idx` is its position), the view promises a
   * replay exactly when the step manager will replay.
   */
  lemma ActionMatchesDispatch(wf: Workflow, step: Step, index: nat)
    requires step.idx == index
    requires GetStepActions(wf, step, index) != []
    ensures GetStepActions(wf, step, index)[0].description == ReplayDescription(index)
        <==> StepManager.IsReplay(wf.currentStepIndex, step.idx)
  {
  }

  /** The view offers nothing on a failed step, and nothing on a waiting step. */
  lemma NoActionOnFailedOrWaiting(wf: Workflow, step: Step, index: nat)
    requires step.failedAt.Some? || (step.kind == StepKind.Human && step.state != StepState.Done)
    ensures GetStepActions(wf, step, index) == []
  {
  }

  /**
   * The payload test of `getStepEvents`.  With no step at `stepIndex`
   * the id comparison is against `undefined`, so it holds for every event
   * whose payload has no step id.
   */
  predicate ForStep(steps: seq<Step>, stepIndex: nat, e: Event) {
    || e.payload.stepIndex == Some(stepIndex)
    || (if stepIndex < |steps| then e.payload.stepId == Some(steps[stepIndex].id) else e.payload.stepId.None?)
  }

  /** `getStepEvents`: the events whose payload points at the step, in log order. */
  function GetStepEvents(events: seq<Event>, steps: seq<Step>, stepIndex: nat): (r: seq<Event>)
    ensures |r| <= |events|
    ensures forall e :: e in r <==> e in events && ForStep(steps, stepIndex, e)
  {
    if |events| == 0 then []
    else (if ForStep(steps, stepIndex, events[0]) then [events[0]] else [])
         + GetStepEvents(events[1..], steps, stepIndex)
  }

  /** Filtering a log in two pieces gives the two filtered pieces in order. */
  lemma {:induction false} StepEventsAppend(a: seq<Event>, b: seq<Event>, steps: seq<Step>, stepIndex: nat)
    ensures GetStepEvents(a + b, steps, stepIndex) == GetStepEvents(a, steps, stepIndex) + GetStepEvents(b, steps, stepIndex)
  {
    if |a| > 0 {
      assert (a + b)[1..] == a[1..] + b;
      StepEventsAppend(a[1..], b, steps, stepIndex);
    } else {
      assert a + b == b;
    }
  }

  /** An event logged later about the step is listed after everything listed before it. */
  lemma NewEventListedLast(events: seq<Event>, steps: seq<Step>, stepIndex: nat, e: Event)
    requires ForStep(steps, stepIndex, e)
    ensures GetStepEvents(events + [e], steps, stepIndex) == GetStepEvents(events, steps, stepIndex) + [e]
  {
    StepEventsAppend(events, [e], steps, stepIndex);
    assert GetStepEvents([e], steps, stepIndex) == [e] + GetStepEvents([], steps, stepIndex);
  }
}
