/**
 * Records and enumerations of the orchestration engine: the database
 * rows (workflow, step, approval, event, replay history, definition) and
 * the free-form JSON blobs they carry, reduced to the fields the engine
 * reads.  Times are milliseconds since the epoch.
 */
module Types {

  datatype Option<T> = None | Some(value: T) {
    function GetOr(default: T): T {
      match this
      case Some(v) => v
      case None => default
    }
  }

  /** A value or the message of the error the source throws. */
  datatype Result<T> = Ok(value: T) | Err(error: string)

  /** Success or the message of the error the source throws. */
  datatype Outcome = Pass | Fail(error: string)

  type Time = int

  /** Approval time-to-live: 24 hours in milliseconds. */
  const ApprovalTtl: int := 24 * 60 * 60 * 1000

  datatype StepKind = Auto | Human
  datatype StepState = Ready | Waiting | Done | Failed | Pending
  datatype WorkflowState = Pending | Running | WaitingApproval | Done | Failed | Rejected
  datatype ApprovalStatus = Pending | Approved | Rejected | Expired | Cancelled

  /** The decision carried by an approval job: 'approved' or 'rejected'. */
  datatype Decision = Approve | Reject {
    function Status(): ApprovalStatus {
      match this
      case Approve => ApprovalStatus.Approved
      case Reject => ApprovalStatus.Rejected
    }
  }

  /** JavaScript truthiness of an optional string: present and non-empty. */
  predicate Truthy(s: Option<string>) {
    s.Some? && s.value != ""
  }

  /**
   * The keys of a step's `config` object that the core reads: the AUTO
   * action, the HUMAN channel and title, and the notification flags.
   */
  datatype StepConfig = StepConfig(
    action: Option<string>,
    channel: Option<string>,
    title: Option<string>,
    email: bool,
    slack: bool,
    sms: bool,
    whatsapp: bool)

  /** The `{}` config a step gets when its template has none. */
  const EmptyConfig := StepConfig(None, None, None, false, false, false, false)

  /**
   * A step template as stored in a definition's JSON `steps` array.  The
   * kind is the raw string ("" when absent), the index may be absent.
   */
  datatype StepDef = StepDef(
    idx: Option<int>,
    kind: string,
    config: Option<StepConfig>,
    compensating: Option<string>)

  /** The `steps` field of a request body: falsy, some non-array value, or an array. */
  datatype StepsField = Absent | NotAnArray | Items(items: seq<StepDef>)

  datatype Definition = Definition(
    name: string,
    version: int,
    description: Option<string>,
    steps: seq<StepDef>,
    isActive: bool)

  /** The metadata keys the AUTO actions read. */
  datatype Metadata = Metadata(amount: Option<int>, description: Option<string>)

  /** A step's identity: the owning workflow and the step's position. */
  datatype StepId = StepId(workflow: string, position: nat)

  datatype Step = Step(
    id: StepId,
    idx: nat,
    kind: StepKind,
    state: StepState,
    config: StepConfig,
    compensating: Option<string>,
    replayCount: nat,
    canReplay: bool,
    canExecute: bool,
    failedAt: Option<Time>,
    executedAt: Option<Time>)

  datatype Workflow = Workflow(
    typeName: string,
    state: WorkflowState,
    metadata: Metadata,
    currentStepIndex: Option<int>,
    steps: seq<Step>)

  /** An approval row; its id is its position in the store's approval table. */
  datatype Approval = Approval(
    workflowId: string,
    stepId: StepId,
    channel: string,
    token: string,
    status: ApprovalStatus,
    expiresAt: Time)

  /** The two payload keys the dashboard matches events on. */
  datatype Payload = Payload(stepId: Option<StepId>, stepIndex: Option<int>)

  const NoPayload := Payload(None, None)

  /** Event types with the payload data that is not a step reference. */
  datatype EventKind =
    | WorkflowCreated(definitionType: string, definitionVersion: int, stepsCount: nat)
    | WorkflowStateChanged(from: WorkflowState, to: WorkflowState)
    | WorkflowCancelled(reason: Option<string>)
    | WorkflowCompleted(completedAt: Time)
    | StepFailed(stepIdx: Option<int>, error: string)
    | StepRetry(stepIdx: Option<int>)
    | StepReplayInitiated(reason: Option<string>, replayedBy: string)
    | StepManualExecution(reason: Option<string>, executedBy: string)
    | CompensationExecuted(compensation: string)
    | CompensationFailed(error: string)
    | ApprovalRequested(approvalId: nat, channel: string, token: string)
    | ApprovalApproved(approvalId: nat, feedback: Option<string>)
    | ApprovalRejected(approvalId: nat, feedback: Option<string>)
    | ApprovalExpired(approvalId: nat)
    | ApprovalResent(approvalId: nat, oldToken: string, newToken: string)
    | SlackMessageSent(approvalId: nat)

  datatype Event = Event(workflowId: string, kind: EventKind, payload: Payload)

  /** A row of the append-only replay history. */
  datatype StepReplay = StepReplay(stepId: StepId, reason: Option<string>, replayedBy: string, at: Time)

  /** Steps stored in index order: position, idx and id agree. */
  predicate Indexed(wid: string, steps: seq<Step>) {
    forall i | 0 <= i < |steps| :: steps[i].idx == i && steps[i].id == StepId(wid, i)
  }

  /** The position of the first step with the given id, as `steps.find(s => s.id === id)`. */
  function FindStep(steps: seq<Step>, id: StepId): (r: Option<nat>)
    ensures r.Some? ==> r.value < |steps| && steps[r.value].id == id
    ensures r.Some? ==> forall j | 0 <= j < r.value :: steps[j].id != id
    ensures r.None? ==> forall j | 0 <= j < |steps| :: steps[j].id != id
  {
    if |steps| == 0 then None
    else if steps[0].id == id then Some(0)
    else match FindStep(steps[1..], id)
      case None => None
      case Some(k) => Some(k + 1)
  }

  lemma {:induction false} FindIndexedStep(wid: string, steps: seq<Step>, i: nat)
    requires Indexed(wid, steps)
    ensures FindStep(steps, StepId(wid, i)) == if i < |steps| then Some(i) else None
  {
    var r := FindStep(steps, StepId(wid, i));
    if i < |steps| {
      assert steps[i].id == StepId(wid, i);
      assert r.Some?;
    } else {
      assert forall j | 0 <= j < |steps| :: steps[j].id == StepId(wid, j);
    }
  }
}
