# Human-in-the-loop orchestration engine, modelled in Dafny

This project models the core of a workflow orchestration service in which
some steps run automatically and others wait for a person's approval.
The core is a store of five tables:

- workflow definitions (versioned step templates);
- workflows, each with its step rows;
- approval requests;
- an append-only event log;
- a replay history.

Sequential operations move workflows, steps and approvals through small
state machines. The model covers:

- **The engine** (`app/lib/workflow-engine.ts`):
  - creating a workflow from the latest active definition;
  - the execution loop, which skips DONE steps and stops after the first step that waits;
  - one step run, covering the AUTO `validate_data` rule, the HUMAN approval request, the failure path and compensation;
  - the workflow-state derivation with its fixed precedence;
  - cancel, retry and replay with its execute-from loop;
  - definition validation and versioning;
  - the expiry sweep and resend.
- **Replay and manual execution** (`app/lib/step-manager.ts`):
  - the choice of operation by cursor;
  - the replay transaction;
  - manual execution and the chain walk.
- **Approval settlement** (`workers/approval-worker.ts`), including its idempotency guard.
- **Notification channel selection** (`workers/notification-worker.ts`).
- **Step-list editing** in the definition form (`app/dashboard/component/createDefinitionForm.tsx`).
- **Step status and action rules** of the workflow view (`app/dashboard/component/workflowVisualization.tsx`).
- **The POST handler** for definitions (`app/api/workflow-definitions/route.ts`).

## Layout

| file | module | contents |
|---|---|---|
| `types.dfy` | `Types` | Records and enumerations: Step, Workflow, Approval, Event, Definition, StepDef, and the Outcome and Result error datatypes. |
| `strings.dfy` | `Strings` | Decimal rendering, `includes` and the message facts used by the definitions route. |
| `workflow_rules.dfy` | `WorkflowRules` | Pure decision rules and the reference semantics of the stateful operations, over a `Ledger`. |
| `store.dfy` | `Persistence` | `class Store`, the database, with its tables as fields. |
| `engine.dfy` | `WorkflowEngine` | The engine's operations as methods on the store, each proved against `WorkflowRules`. |
| `step_manager.dfy` | `StepManager` | Replay, manual execution and the chain walk. |
| `approval_worker.dfy` | `ApprovalWorker` | The settlement handler. |
| `notification_worker.dfy` | `NotificationWorker` | Channel selection and the notification job result. |
| `definition_form.dfy` | `DefinitionForm` | The step-list edits. |
| `workflow_visualization.dfy` | `WorkflowVisualization` | The view's decision rules. |
| `definitions_route.dfy` | `DefinitionsRoute` | The POST handler, as written and as intended. |

A `Ledger` is one workflow record together with the approval and event tables.

### How the methods are proved

Every method that changes the store ensures two things:

- `db.Holds(old(db.workflows), wid, Spec(old(db.LedgerOf(wid)), …))`: the store now holds exactly the ledger a reference function computes, every other workflow is untouched, and the approval and event tables are exactly that ledger's tables;
- that untouched tables (definitions, replays) are unchanged.

The behavioural properties are then lemmas about those reference functions. The main ones are:

- `RunWorkflowShape`: a closed form of the execution loop;
- `RunFromSteps` / `RunFromApprovals`: the closed form of the execute-from loop;
- `WalkEffects`: the closed form of the chain walk.

### Parameters for the outside world

- The clock is the parameter `now`, a time in milliseconds.
- Freshly generated approval tokens are parameters: `token`, `nextToken`, `newToken`, and `tokens(i)` for the i-th step of a replay.
- Fresh workflow ids are the parameter `wid`.
- The outcome of a compensating action is the parameter `comp`.
- The outcome of each notification delivery is the function `deliver`.
- Whether a resent Slack approval's webhook post succeeded is the parameter `slackPosted`.

### Quirks of the source that the model keeps

- `executeWorkflow` never moves `currentStepIndex`.
- A failing step re-throws before the state is recomputed.
- Settlement marks the approval's step DONE even when the decision is a rejection.
- `cancelWorkflow` writes REJECTED directly.
- The engine's `executeFromStep` runs every later step without stopping at HUMAN steps.

## Model

| member | source | states |
|---|---|---|
| Types.FindStep | app/lib/step-manager.ts:23-24 | the position returned holds the id and no earlier position does; None means no step has the id |
| WorkflowRules.AnyRejected | app/lib/workflow-engine.ts:348 | true iff some approval of the list is `rejected` |
| WorkflowRules.AnyStep | app/lib/workflow-engine.ts:353 | true iff some step is in the given state |
| WorkflowRules.EveryStep | app/lib/workflow-engine.ts:357 | true iff every step is in the given state |
| WorkflowRules.DeriveState | app/lib/workflow-engine.ts:345-367 | each of the six workflow states holds iff its condition holds and every higher-precedence condition fails: rejected approval, failed step, all done, waiting step, ready step, else PENDING |
| WorkflowRules.ApprovalsOf | app/lib/workflow-engine.ts:334-340 | an approval is in the result iff it is in the table and belongs to the workflow |
| WorkflowRules.RejectionWins | app/lib/workflow-engine.ts:347-351 | one rejected approval of the workflow makes the derived state REJECTED, whatever the steps are |
| WorkflowRules.ValidateDataRule | app/lib/workflow-engine.ts:191-202 | an AUTO action fails iff it is `validate_data` and the amount exceeds 10000 or the description is missing; an amount of exactly 10000 passes; any other action never fails |
| WorkflowRules.ParseKind | app/lib/workflow-engine.ts:591 | a kind parses as AUTO iff it is "AUTO", and as HUMAN iff it is "HUMAN" |
| WorkflowRules.StepShapeError | app/lib/workflow-engine.ts:588-599 | no error iff the template has a kind in {AUTO, HUMAN}, a channel when HUMAN, and an idx that is absent or equal to its position |
| WorkflowRules.FirstShapeErrorIsFirst | app/lib/workflow-engine.ts:587-600 | the scan finds no error iff every template is well shaped; otherwise it reports the error of the first ill-shaped template |
| WorkflowRules.ValidateWorkflowSteps | app/lib/workflow-engine.ts:578-601 | passes iff the field is a non-empty array of well-shaped templates; otherwise the error is "not an array", then "no steps", then the first offending template's error |
| WorkflowRules.LatestActive | app/lib/workflow-engine.ts:32-43 | the result is an active definition of the name with the highest version among the active ones; None iff the name has no active definition |
| WorkflowRules.LatestVersion | app/lib/workflow-engine.ts:556-559 | the highest stored version of the name, active or not; None iff the name has no row |
| WorkflowRules.NextVersion | app/lib/workflow-engine.ts:561 | one more than the latest version of the name, so above every stored version of it, or 1 when the name is new |
| WorkflowRules.NewDefinitionIsLatest | app/lib/workflow-engine.ts:561-571 | a newly stored, active, next-version definition is the one that `getWorkflowDefinition` then resolves the name to |
| WorkflowRules.Instantiate | app/lib/workflow-engine.ts:64-72 | one step row per template with idx equal to position, state READY, config defaulting to `{}` and compensation defaulting to null; None iff some kind is not AUTO or HUMAN |
| WorkflowRules.CompensationOnlyWithDescriptor | app/lib/workflow-engine.ts:394-433 | compensation logs exactly one event when the step has a descriptor and none otherwise; a failing compensation is logged as COMPENSATION_FAILED and is not re-thrown |
| WorkflowRules.Locate | app/lib/workflow-engine.ts:516-521 | a step found by id lies in its workflow and carries that id |
| WorkflowRules.LocateIndexed | app/lib/workflow-engine.ts:516-521 | in a store whose steps are in index order, a step id is found exactly at its position |
| WorkflowRules.RunStepEffects | app/lib/workflow-engine.ts:124-183 | one `executeStep` changes only that step: AUTO ends DONE or FAILED, HUMAN ends WAITING; it fails iff the step is AUTO and its action fails; a HUMAN step appends exactly one pending approval |
| WorkflowRules.RunWorkflowUnfold | app/lib/workflow-engine.ts:104-118 | one iteration of the loop at a step that is not DONE: run the step, stop on an error or a WAITING step, otherwise continue |
| WorkflowRules.RecomputeIsIdempotent | app/lib/workflow-engine.ts:333-391 | recomputing the state twice is the same as once; the recomputation appends one WORKFLOW_STATE_CHANGED event iff the state changed |
| WorkflowRules.HaltIndex | app/lib/workflow-engine.ts:104-118 | the first position from `from` on whose step is not DONE and is HUMAN or a failing AUTO step; every step before it would pass |
| WorkflowRules.HaltedSkipsDone | app/lib/workflow-engine.ts:105-108 | passing over a DONE step keeps the loop equal to its closed form |
| WorkflowRules.HaltedPassesOn | app/lib/workflow-engine.ts:110-118 | a step that runs without stopping keeps the loop equal to its closed form |
| WorkflowRules.RunWorkflowStops | app/lib/workflow-engine.ts:114-117 | at a halting step the loop ends with that step's outcome, equal to its closed form |
| WorkflowRules.RunWorkflowShape | app/lib/workflow-engine.ts:104-118 | the execution loop equals its closed form: steps before the halting one end DONE, the halting step ends WAITING (HUMAN) or FAILED (AUTO), later steps are untouched |
| WorkflowRules.ExecuteStepEffects | app/lib/workflow-engine.ts:93-121 | after `executeWorkflow`, DONE steps are unchanged, steps before the halting one end DONE, steps after it are untouched, and the metadata and cursor never change |
| WorkflowRules.ExecuteHaltEffects | app/lib/workflow-engine.ts:93-183 | a HUMAN halt: the step ends WAITING with exactly one new pending approval, expiring now + 24h, on channel config.channel or 'web'. An AUTO halt: the step ends FAILED, one STEP_FAILED event plus the compensation events are logged, the error is re-thrown and the state is not recomputed. Old approvals are kept. On success the state equals the derived state |
| WorkflowRules.SuspendedWorkflowWaits | app/lib/workflow-engine.ts:104-120 | a run that stops at a HUMAN step, with no rejection and no failed step, leaves the workflow WAITING_APPROVAL |
| WorkflowRules.AllPassingStepsFinish | app/lib/workflow-engine.ts:104-120 | a run in which no step stops, with no rejection, leaves the workflow DONE |
| WorkflowRules.ApprovalsAppend | app/lib/workflow-engine.ts:244-253 | appending an approval adds it to its own workflow's approvals and to no other workflow's |
| WorkflowRules.FailIndex | app/lib/workflow-engine.ts:965-968 | the first AUTO step from `from` on whose action fails; no step before it fails |
| WorkflowRules.RunsFromStepsFail | app/lib/workflow-engine.ts:967 | a failing step ends the execute-from loop on its own |
| WorkflowRules.RunsFromStepsPass | app/lib/workflow-engine.ts:965-968 | a passing step hands over to the loop from the next position |
| WorkflowRules.RunFromSteps | app/lib/workflow-engine.ts:958-969 | `executeFromStep` runs every step from the start position up to the first failing AUTO step, HUMAN steps included, with no stop at WAITING; it passes iff no AUTO step fails; nothing else of the workflow changes |
| WorkflowRules.RunsFromApprovalsFail | app/lib/workflow-engine.ts:967 | the failing step adds no approval |
| WorkflowRules.RunsFromApprovalsPass | app/lib/workflow-engine.ts:965-968 | a passing step's approval comes before those of the rest of the loop |
| WorkflowRules.RunFromApprovals | app/lib/workflow-engine.ts:958-969 | `executeFromStep` keeps every old approval and appends exactly one pending 24-hour approval per HUMAN step it ran |
| WorkflowRules.Swept | app/lib/workflow-engine.ts:798-817 | the sweep keeps the size of the approval table |
| WorkflowRules.ExpiryEventsCount | app/lib/workflow-engine.ts:812-816 | the sweep logs one APPROVAL_EXPIRED event per approval it expires, so the returned count equals the number of events |
| WorkflowRules.SweepIsIdempotent | app/lib/workflow-engine.ts:798-817 | after a sweep nothing is overdue, so a second sweep at the same time changes nothing and counts 0 |
| WorkflowRules.NoneOverdueCountsZero | app/lib/workflow-engine.ts:799-803 | with nothing pending and past its deadline, the sweep counts 0 |
| WorkflowRules.SweepSelectsOverdue | app/lib/workflow-engine.ts:799-814 | exactly the approvals that are pending and past their deadline become expired; every other row is unchanged; tokens and deadlines are never touched |
| WorkflowRules.MapOverwrite | app/lib/workflow-engine.ts:128-131 | a second write of a workflow record supersedes the first |
| Persistence.Store.constructor | app/lib/workflow-engine.ts:4 | the shared database client every operation goes through, with empty tables; it is valid |
| Persistence.Store.UpdateStep | app/lib/workflow-engine.ts:128-131 | updating one step row changes only that row of that workflow and keeps the store valid |
| Persistence.Store.PutWorkflow | app/lib/workflow-engine.ts:497-500 | writing a workflow record changes only that record |
| Persistence.Store.Log | app/lib/workflow-engine.ts:77-87 | logging appends exactly one event and changes nothing else |
| WorkflowEngine.CreateWorkflow | app/lib/workflow-engine.ts:53-90 | with no active definition it fails with "not found" and changes nothing. Otherwise the workflow is stored PENDING at cursor 0 with the steps `Instantiate` builds from the highest-version active definition, and one WORKFLOW_CREATED event is logged with version and step count. An invalid kind is refused by the store |
| WorkflowEngine.CreateApprovalRequest | app/lib/workflow-engine.ts:240-275 | appends one pending approval (channel config.channel or 'web', now + 24h) and one APPROVAL_REQUESTED event naming it |
| WorkflowEngine.ExecuteCompensation | app/lib/workflow-engine.ts:394-433 | logs the compensation events and nothing else |
| WorkflowEngine.FailStep | app/lib/workflow-engine.ts:156-182 | the catch block: the step becomes FAILED, one STEP_FAILED event is logged, then compensation runs |
| WorkflowEngine.ExecuteAutoBranch | app/lib/workflow-engine.ts:133-141 | the AUTO branch leaves the store as `RunStep` says: DONE on success, otherwise the catch block with the error returned |
| WorkflowEngine.ExecuteHumanBranch | app/lib/workflow-engine.ts:143-151 | the HUMAN branch leaves the store as `RunStep` says: one approval request, and the step WAITING |
| WorkflowEngine.ExecuteStep | app/lib/workflow-engine.ts:124-183 | the store afterwards is exactly `RunStep` of the old ledger, and the result is its outcome |
| WorkflowEngine.UpdateWorkflowState | app/lib/workflow-engine.ts:333-391 | stores the derived state and logs a change event iff the state changed; an unknown workflow fails with 'workflow not found' |
| WorkflowEngine.RunStepsOnce | app/lib/workflow-engine.ts:104-118 | one round of the loop over the snapshot agrees with `RunWorkflow` from that position |
| WorkflowEngine.RunSteps | app/lib/workflow-engine.ts:104-118 | the loop over the step snapshot leaves the store exactly as `RunWorkflow` from 0 |
| WorkflowEngine.ExecuteWorkflow | app/lib/workflow-engine.ts:93-121 | an unknown workflow fails and nothing changes; otherwise the store equals `ExecuteSpec`: the loop, then the state recomputation only if no step threw |
| WorkflowEngine.CancelWorkflow | app/lib/workflow-engine.ts:490-512 | the state becomes REJECTED directly, with no derivation, and one WORKFLOW_CANCELLED event with the reason is logged; an unknown workflow fails |
| WorkflowEngine.RetryStep | app/lib/workflow-engine.ts:515-544 | an unknown step fails, and a step that is not FAILED fails with "Can only retry failed steps", both without change; a FAILED step is set READY, one STEP_RETRY event is logged and the workflow is executed again |
| WorkflowEngine.CreateWorkflowDefinition | app/lib/workflow-engine.ts:547-575 | invalid steps store nothing and return the validator's error; valid steps are stored as an active definition at the next version |
| WorkflowEngine.HandleExpiredApproval | app/lib/workflow-engine.ts:820-843 | the approval becomes expired and one APPROVAL_EXPIRED event is logged |
| WorkflowEngine.CheckExpiredApprovals | app/lib/workflow-engine.ts:798-817 | the approval table becomes `Swept`; one event is logged per expired row; the count returned is the number of overdue rows; steps and workflows are untouched |
| WorkflowEngine.DeliveryEvents | app/lib/workflow-engine.ts:283-300 | sending a request writes at most one event: SLACK_MESSAGE_SENT for the approval, exactly when its channel is 'slack' and the webhook post succeeded |
| WorkflowEngine.ResendApproval | app/lib/workflow-engine.ts:846-898 | an unknown approval, or one that is not expired, is refused without change. Otherwise the approval gets the new token, expires at now + 24h and is pending again. The request is sent again, which logs SLACK_MESSAGE_SENT for a Slack approval whose post succeeded, and then one APPROVAL_RESENT event is logged with the old and new tokens |
| WorkflowEngine.ExecuteFromStepOnce | app/lib/workflow-engine.ts:966-967 | one round of the execute-from loop agrees with `RunFrom` from that position |
| WorkflowEngine.ExecuteFromStep | app/lib/workflow-engine.ts:958-969 | the store afterwards equals `RunFrom` of the old ledger from the start position |
| WorkflowEngine.ReplayStep | app/lib/workflow-engine.ts:910-956 | an unknown step, and a step that cannot be replayed, are refused without change. Otherwise one history row is recorded, naming the actor or 'system' when none is given, the step is reset (READY, failure cleared, replay count + 1), the workflow becomes RUNNING at the step's idx and the steps are executed from it on; a step error is passed on |
| StepManager.IsReplay | app/lib/step-manager.ts:26-36 | replay iff idx < currentStepIndex, where a missing cursor counts as 0 |
| StepManager.Walk | app/lib/step-manager.ts:239-315 | the chain walk keeps the number of steps |
| StepManager.FirstHuman | app/lib/step-manager.ts:253-255 | the first HUMAN position from `from` on; everything before it is AUTO |
| StepManager.WalkEffects | app/lib/step-manager.ts:239-315 | the AUTO steps from the start up to the first HUMAN one end DONE, that HUMAN step ends WAITING, and every other step and the approvals are untouched. The workflow becomes DONE with one WORKFLOW_COMPLETED event iff no HUMAN step follows |
| StepManager.ExecuteSingleStep | app/lib/step-manager.ts:239-284 | the store afterwards equals `Walk` from the step |
| StepManager.MoveToNextStep | app/lib/step-manager.ts:286-315 | continues the walk at the next index, or, past the last step, sets the workflow DONE and logs WORKFLOW_COMPLETED |
| StepManager.ExpireFor | app/lib/step-manager.ts:79-85 | the table keeps its size; a row changes only if it was pending and belongs to one of the steps; no row of those steps is left pending; step references and tokens are kept |
| StepManager.ExpireForTwice | app/lib/step-manager.ts:79-127 | the transaction's two expiry updates equal one update over the union of their step sets |
| StepManager.PendAfter | app/lib/step-manager.ts:100-112 | the step count is kept |
| StepManager.ReplayedSteps | app/lib/step-manager.ts:66-112 | the step count is kept |
| StepManager.ExpireApprovals | app/lib/step-manager.ts:118-127 | only the approval table changes, to `ExpireFor` |
| StepManager.ResetLaterSteps | app/lib/step-manager.ts:99-112 | every step after the target becomes PENDING with no stamps; nothing else changes |
| StepManager.ResetFromStep | app/lib/step-manager.ts:66-128 | the step rows become `ReplayedSteps`, and the approvals become `ExpireFor` over the target (when it is HUMAN with approvals) and the later steps |
| StepManager.RunReplayTransaction | app/lib/step-manager.ts:65-161 | the whole transaction, as one atomic method: the ledger becomes `ReplayTransaction`, and one replay row is added with reason defaulting to 'Manual replay' |
| StepManager.ReplayStep | app/lib/step-manager.ts:40-170 | an unknown workflow or step, or a step that cannot be replayed, fails before any change. Otherwise the transaction runs, then the walk from the step; one history row is added |
| StepManager.ReplayEffects | app/lib/step-manager.ts:65-164 | after a replay: earlier steps are unchanged; the target's replay count is + 1 and its failure cleared; AUTO steps up to the next HUMAN one are DONE and that one is WAITING; later steps are PENDING with no stamps; the cursor is on the target; the workflow is RUNNING, or DONE when the walk ran off the end |
| StepManager.ReplayRetiresApprovals | app/lib/step-manager.ts:67-127 | a replay adds no approval row. A pending approval becomes expired with its deadline set to now exactly when it belongs to a later step, or to the replayed step when that step is HUMAN and has approvals. Every other row is unchanged, so no approval of a later step is left pending |
| StepManager.ManualExecutionError | app/lib/step-manager.ts:191-202 | manual execution is allowed iff the step can execute and, when HUMAN, has an approved approval |
| StepManager.ManualExecuteStep | app/lib/step-manager.ts:173-236 | any refusal happens before any change. Otherwise the step becomes READY with `executedAt` stamped and `failedAt` cleared, one STEP_MANUAL_EXECUTION event is logged, and the chain walk runs from the step |
| StepManager.ExecuteOrReplayStep | app/lib/step-manager.ts:8-37 | an unknown workflow or step fails without change. A step before the cursor is replayed, with exactly the replay's effects and history row; any other step is manually executed, with its effects and no history row |
| StepManager.FreshCursorNeverReplays | app/lib/step-manager.ts:26-29 | since `executeWorkflow` leaves the cursor at 0, a workflow that has only been created and executed dispatches every step to manual execution |
| ApprovalWorker.JobIdIdentifiesToken | app/lib/workflow-engine.ts:312 | two decisions share a queue job id iff they carry the same token |
| ApprovalWorker.FindByToken | workers/approval-worker.ts:15-23 | the row found holds the token and no earlier row does; None iff no row holds it |
| ApprovalWorker.FindByTokenStable | workers/approval-worker.ts:15-23 | while the rows up to the found one keep their tokens, the lookup keeps finding it |
| ApprovalWorker.ProcessApproval | workers/approval-worker.ts:10-72 | an unknown token fails with "Approval not found" and changes nothing; a settled approval is skipped with `already_processed` and changes nothing. A pending approval takes the decision's status, its step becomes DONE for both decisions, and one APPROVAL_APPROVED or APPROVAL_REJECTED event is logged. Then an approval resumes the workflow and a rejection only recomputes its state; the result names the workflow and the decision |
| ApprovalWorker.ResumeKeepsApprovals | workers/approval-worker.ts:62-69 | resuming only appends approvals |
| ApprovalWorker.ResumeKeepsSettled | workers/approval-worker.ts:62-69 | resuming keeps DONE steps as they are |
| ApprovalWorker.SettlementIsFinal | workers/approval-worker.ts:26-44 | after a settlement the token still finds the same approval, which is no longer pending, so a second delivery is skipped; the settled step is still DONE |
| ApprovalWorker.RejectionSettlesRejected | workers/approval-worker.ts:66-69 | after a rejection the workflow's derived state is REJECTED |
| ApprovalWorker.DeliverTwice | workers/approval-worker.ts:26-58 | the second delivery of a job for a pending approval is skipped whatever the first did. This includes a first delivery that failed after writing the status, which is the case the queue retries |
| NotificationWorker.GetChannelsFromStep | workers/notification-worker.ts:53-62 | a channel is listed iff its flag is set, in the order email, slack, sms, whatsapp; with no flag the list is exactly ['email']; the list is never empty; every element is one of the four names |
| NotificationWorker.ChannelsAreDistinct | workers/notification-worker.ts:53-62 | no channel is listed twice |
| NotificationWorker.SendToChannel | workers/notification-worker.ts:64-79 | a known channel passes on its delivery's outcome; any other name fails with "Unknown channel" |
| NotificationWorker.SendToAll | workers/notification-worker.ts:33-51 | one settled outcome per channel, in order |
| NotificationWorker.NotificationJob | workers/notification-worker.ts:8-16 | the job reports success with `channels` equal to `GetChannelsFromStep` of the step, whatever the deliveries returned; each delivery goes to a known channel, so none fails from the dispatch itself |
| DefinitionForm.Renumber | app/dashboard/component/createDefinitionForm.tsx:94 | every template keeps its fields and gets idx equal to its position |
| DefinitionForm.AddStep | app/dashboard/component/createDefinitionForm.tsx:53-63 | appends one template at idx = old length and keeps the rest. AUTO gets `{action: 'validate_data'}`; HUMAN gets `{channel: 'web', title: 'Approval Required'}` |
| DefinitionForm.UpdateStep | app/dashboard/component/createDefinitionForm.tsx:65-72 | the update is merged into position `index` only; the length and every other element are unchanged |
| DefinitionForm.UpdateKeepsNumbering | app/dashboard/component/createDefinitionForm.tsx:65-72 | an update that does not touch idx keeps the list numbered |
| DefinitionForm.RemoveStep | app/dashboard/component/createDefinitionForm.tsx:74-78 | exactly position `index` is removed, so the length drops by 1, and the rest are renumbered to their positions |
| DefinitionForm.SpliceIsSwap | app/dashboard/component/createDefinitionForm.tsx:88-91 | taking a step out and splicing it back at its neighbour's position exchanges the two |
| DefinitionForm.MoveStep | app/dashboard/component/createDefinitionForm.tsx:80-95 | a no-op for 'up' at 0 and for 'down' at the last index; otherwise the renumbered list with `index` and its neighbour exchanged |
| DefinitionForm.Unnumbered | app/dashboard/component/createDefinitionForm.tsx:88-94 | every template with its idx erased |
| DefinitionForm.SwapKeepsMultiset | app/dashboard/component/createDefinitionForm.tsx:89-91 | an exchange keeps the multiset of elements |
| DefinitionForm.UnnumberedSwap | app/dashboard/component/createDefinitionForm.tsx:88-94 | renumbering after an exchange differs from the exchange only in idx |
| DefinitionForm.MoveKeepsSteps | app/dashboard/component/createDefinitionForm.tsx:80-95 | moving keeps the length and the multiset of templates, up to idx |
| DefinitionForm.AddKeepsFormBuilt | app/dashboard/component/createDefinitionForm.tsx:53-63 | adding keeps a form-built list form-built: numbered, every template as `addStep` makes it |
| DefinitionForm.RenumberKeepsTemplates | app/dashboard/component/createDefinitionForm.tsx:76 | renumbering templates as `addStep` makes them gives a form-built list |
| DefinitionForm.RemoveKeepsFormBuilt | app/dashboard/component/createDefinitionForm.tsx:74-78 | removing keeps a form-built list form-built |
| DefinitionForm.MoveKeepsFormBuilt | app/dashboard/component/createDefinitionForm.tsx:80-95 | moving keeps a form-built list form-built |
| DefinitionForm.SubmittedFormPassesValidation | app/dashboard/component/createDefinitionForm.tsx:274 | when submit is enabled (not loading, steps non-empty, name non-empty), a form-built list passes `validateWorkflowSteps` |
| WorkflowVisualization.GetStepStatus | app/dashboard/component/workflowVisualization.tsx:70-83 | "failed" whenever `failedAt` is set; otherwise a DONE step is "completed". A non-DONE AUTO step is "completed" iff index <= cursor, else "pending". A non-DONE HUMAN step is "in-progress" at the cursor unless the workflow is WAITING_APPROVAL, and "waiting" otherwise |
| WorkflowVisualization.GetStepActions | app/dashboard/component/workflowVisualization.tsx:170-191 | at most one action, present iff the step can execute and shows "completed"; its description is the replay text iff index < cursor, and the execute text otherwise |
| WorkflowVisualization.ActionMatchesDispatch | app/dashboard/component/workflowVisualization.tsx:176-180 | for a stored step the view offers "replay" exactly when `executeOrReplayStep` replays |
| WorkflowVisualization.NoActionOnFailedOrWaiting | app/dashboard/component/workflowVisualization.tsx:170-191 | no action on a failed step or a HUMAN step that is not DONE |
| WorkflowVisualization.GetStepEvents | app/dashboard/component/workflowVisualization.tsx:56-68 | an event is listed iff its payload's stepIndex equals the index or its stepId equals that step's id |
| WorkflowVisualization.StepEventsAppend | app/dashboard/component/workflowVisualization.tsx:57-67 | the filter keeps log order: filtering two pieces concatenates the filtered pieces |
| WorkflowVisualization.NewEventListedLast | app/dashboard/component/workflowVisualization.tsx:57-67 | a new event about the step is listed after everything listed before |
| DefinitionsRoute.ErrorResponse | app/api/workflow-definitions/route.ts:65-80 | 400 iff the message contains "validation", otherwise 500 |
| DefinitionsRoute.Post | app/api/workflow-definitions/route.ts:25-81 | responds as `PostOutcome` and stores the new definition iff the response is 201; nothing else changes |
| DefinitionsRoute.CreatedIffValid | app/api/workflow-definitions/route.ts:34-64 | 201 iff name and steps are present and the validator accepts; the created definition is active, carries the steps and has a version above every stored version of the name (1 if new), so it becomes the latest; missing fields give 400 |
| DefinitionsRoute.InvalidKindMentionsValidation | app/lib/workflow-engine.ts:591-593 | the invalid-kind message mentions "validation" iff the offending kind does |
| DefinitionsRoute.ShapeErrorMentionsValidation | app/lib/workflow-engine.ts:587-599 | a template's error mentions "validation" only for an invalid kind that itself contains the word |
| DefinitionsRoute.StepErrorsAnsweredAsServerErrors | app/api/workflow-definitions/route.ts:69-79 | as written, rejected steps get 400 only if some invalid kind contains "validation"; every other step error is 500 |
| DefinitionsRoute.EmptyStepsAnswered500 | app/api/workflow-definitions/route.ts:34-79 | a named request with an empty step list is answered 500 "Internal Server Error" |
| DefinitionsRoute.IntendedRejectsAsClientErrors | app/api/workflow-definitions/route.ts:69-74 | the corrected handler answers every malformed request 400 with the validator's message; it differs from the written one exactly on step errors that do not mention "validation" |

## Left out

- Outbound delivery is not modelled: the Slack, email, SMS and WhatsApp calls themselves and the message texts. They are network I/O. Two exceptions are kept. A delivery's outcome is a parameter of `NotificationWorker.NotificationJob`. The one store write delivery makes, SLACK_MESSAGE_SENT after a successful Slack post on resend, is modelled through the parameter `slackPosted` of `WorkflowEngine.ResendApproval`.
- `createApprovalRequest` hands the notification to a queue (`notification-${id}` job); the enqueue is left out as queue plumbing and writes nothing to the store.
- Queue and worker plumbing is not modelled: queue options, priorities, concurrency and event hooks. It is a foreign library and concurrency. Only the job id of `handleApproval` is kept, as `ApprovalWorker.ApprovalJobId`.
- `Promise.allSettled` in `sendToMultipleChannels` runs the deliveries in parallel; the model settles them in channel order.
- The un-awaited `engine.executeStep` inside `executeSingleStep` is left out. It is a fire-and-forget promise whose effects race with the caller. Only the awaited writes are modelled.
- The catch blocks of `executeSingleStep` and of the step manager's chain are left out. Their writes (FAILED with `failedAt`, and a STEP_FAILED event) run only when a store write throws, and store failures are not modelled.
- Store failures in general are not modelled: connection errors and rejected writes. This includes the STEP_FAILED write of `executeStep`'s catch block, which also passes the `workflow` record as a field. The schema is not part of this model, so whether the store accepts that write cannot be decided here; `WorkflowEngine.FailStep` takes the write as succeeding. There is one exception: the settlement handler's update of a step row that does not exist, which is modelled as `StepRowMissing`.
- Token generation (`Math.random`, `Date.now`), cuid ids and clock reads are left out. Tokens, ids and `now` are parameters. A step id is modelled as the pair of workflow id and position.
- Token uniqueness is not modelled; in the model a token finds the first approval holding it.
- The simulated `setTimeout` delays of AUTO actions and compensation are no-ops.
- Logging (`console.log`) is left out.
- The list of available types appended to the "definition not found" message is left out; the message ends at "not found". It comes from a separate database read.
- The store's own error text for a step kind outside the enum is a fixed placeholder, `InvalidStepKind`.
- JSON parsing of request bodies and of the raw step editor is a foreign call, so it is left out. The `steps` field is modelled as absent, not an array, or an array of templates.
- Non-integer amounts are left out; the metadata amount is an optional integer.
- Read-only queries and formatting helpers are left out: `getWorkflowWithDetails`, `getWorkflow`, `getAvailableWorkflowTypes`, `getAllWorkflowDefinitions` and `deactivateWorkflowDefinition`.
- The workflow routes, other than the definitions POST, are left out.
- UI rendering and JSX are left out.
- Record defaults are taken as the schema gives them: `canReplay` and `canExecute` are true, and the replay count starts at 0.
- The `createdAt` and `updatedAt` timestamps are left out, and so is the `step.Approval` include, which the model reads from the approval table instead.
- DefinitionForm.MoveStep: requires an index within the list, because the form only calls it with positions of rendered steps. For an index past the end, JavaScript's splice would insert `undefined`.
- DefinitionForm.MoveStep: `moveStep` splices a local copy of the array in place, but the model is on sequences. The result is the same list, and the in-place steps are folded into `SpliceIsSwap`.
- ApprovalWorker.SettlementIsFinal: its clause that the settled step is still DONE is stated only when the approval's step belongs to the approval's own workflow, which is how the engine creates approvals.

## Findings

| source | as written | input that shows it | evidently intended | confidence | as-written member | corrected member |
|---|---|---|---|---|---|---|
| app/api/workflow-definitions/route.ts:69-79 | A thrown error gets 400 only if its message contains "validation". None of the validator's messages at app/lib/workflow-engine.ts:580-598 contains that word, so malformed steps are answered 500 "Internal Server Error". | name "onboarding", steps `[]` | 400 with "Invalid workflow steps: …" and the validator's message | not executed | DefinitionsRoute.EmptyStepsAnswered500 | DefinitionsRoute.IntendedRejectsAsClientErrors |
