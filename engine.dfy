/**
 * The stateful operations of the workflow engine
 * (app/lib/workflow-engine.ts) on the store.  Each method is proved to
 * leave the store exactly as the reference functions of WorkflowRules
 * say; the behavioural properties are lemmas about those functions.
 * Tokens, the clock and the outcome of compensating actions are
 * parameters.
 */
module WorkflowEngine {
  import opened Types
  import opened Strings
  import opened WorkflowRules
  import opened Persistence

  const WorkflowNotFound := "Workflow not found"
  const StepNotFound := "Step not found"
  const InvalidStepKind := "Invalid value for argument `kind`. Expected StepKind."

  function DefinitionNotFound(typeName: string): string {
    "Workflow definition '" + typeName + "' not found"
  }

  function ReplayedMessage(idx: nat): string {
    "Step " + NatToString(idx + 1) + " replayed successfully"
  }

  // ---------------------------------------------------------------------
  // Creation
  // ---------------------------------------------------------------------

  /**
   * `createWorkflow`: the latest active definition of the type becomes a
   * PENDING workflow at step 0 with one READY step per template, and a
   * WORKFLOW_CREATED event.  `wid` is the fresh id the store assigns.
   */
  method CreateWorkflow(db: Store, wid: string, typeName: string, metadata: Metadata) returns (r: Result<Workflow>)
    requires db.Valid() && wid !in db.workflows
    modifies db
    ensures db.Valid()
    ensures db.definitions == old(db.definitions) && db.approvals == old(db.approvals) && db.replays == old(db.replays)
    ensures LatestActive(old(db.definitions), typeName).None? ==>
      r == Err(DefinitionNotFound(typeName)) && db.workflows == old(db.workflows) && db.events == old(db.events)
    ensures
      var d := LatestActive(old(db.definitions), typeName);
      d.Some? && Instantiate(wid, d.value.steps).None? ==>
        r == Err(InvalidStepKind) && db.workflows == old(db.workflows) && db.events == old(db.events)
    ensures
      var d := LatestActive(old(db.definitions), typeName);
      d.Some? && Instantiate(wid, d.value.steps).Some? ==>
        && r == Ok(Workflow(typeName, WorkflowState.Pending, metadata, Some(0), Instantiate(wid, d.value.steps).value))
        && db.workflows == old(db.workflows)[wid := r.value]
        && db.events == old(db.events) + [Event(wid, WorkflowCreated(typeName, d.value.version, |d.value.steps|), NoPayload)]
  {
    var d := LatestActive(db.definitions, typeName);
    if d.None? {
      return Err(DefinitionNotFound(typeName));
    }
    var steps := Instantiate(wid, d.value.steps);
    if steps.None? {
      return Err(InvalidStepKind);
    }
    var wf := Workflow(typeName, WorkflowState.Pending, metadata, Some(0), steps.value);
    db.PutWorkflow(wid, wf);
    db.Log(Event(wid, WorkflowCreated(typeName, d.value.version, |d.value.steps|), NoPayload));
    r := Ok(wf);
  }

  // ---------------------------------------------------------------------
  // Execution
  // ---------------------------------------------------------------------

  /** `createApprovalRequest`: a pending approval for 24 hours and an APPROVAL_REQUESTED event. */
  method CreateApprovalRequest(db: Store, wid: string, s: Step, token: string, now: Time) returns (id: nat)
    modifies db
    ensures id == |old(db.approvals)|
    ensures db.approvals == old(db.approvals) + [NewApproval(wid, s, token, now)]
    ensures db.events == old(db.events) + [ApprovalRequestedEvent(wid, s, id, NewApproval(wid, s, token, now))]
    ensures db.workflows == old(db.workflows) && db.definitions == old(db.definitions) && db.replays == old(db.replays)
  {
    var a := NewApproval(wid, s, token, now);
    id := |db.approvals|;
    db.approvals := db.approvals + [a];
    db.Log(ApprovalRequestedEvent(wid, s, id, a));
  }

  /** `executeCompensation` */
  method ExecuteCompensation(db: Store, wid: string, s: Step, comp: Outcome)
    modifies db
    ensures db.events == old(db.events) + CompensationEvents(wid, s, comp)
    ensures db.workflows == old(db.workflows) && db.approvals == old(db.approvals)
    ensures db.definitions == old(db.definitions) && db.replays == old(db.replays)
  {
    if !Truthy(s.compensating) {
      return;
    }
    match comp {
      case Pass =>
        db.Log(Event(wid, CompensationExecuted(s.compensating.value), Payload(Some(s.id), None)));
      case Fail(e) =>
        db.Log(Event(wid, CompensationFailed(e), Payload(Some(s.id), None)));
    }
  }

  /**
   * The catch block of `executeStep`: the step is marked FAILED, a
   * STEP_FAILED event is logged and compensation runs.
   */
  method FailStep(db: Store, wid: string, i: nat, s: Step, msg: string, comp: Outcome)
    requires db.Valid() && wid in db.workflows && i < |db.workflows[wid].steps|
    requires s.id == db.workflows[wid].steps[i].id && s.idx == db.workflows[wid].steps[i].idx
    modifies db
    ensures db.Valid()
    ensures db.workflows == old(db.workflows)[wid := old(db.workflows[wid]).(steps := old(db.workflows[wid]).steps[i := s.(state := StepState.Failed)])]
    ensures db.events == old(db.events) + [StepFailedEvent(wid, s, msg)] + CompensationEvents(wid, s, comp)
    ensures db.approvals == old(db.approvals) && db.definitions == old(db.definitions) && db.replays == old(db.replays)
  {
    db.UpdateStep(wid, i, s.(state := StepState.Failed));
    db.Log(StepFailedEvent(wid, s, msg));
    ExecuteCompensation(db, wid, s, comp);
  }

  /**
   * The AUTO branch of `executeStep`, entered with the step already READY:
   * the action's outcome decides between DONE and the catch block.
   */
  method ExecuteAutoBranch(db: Store, wid: string, i: nat, s: Step, token: string, now: Time, comp: Outcome,
                           ghost l0: Ledger, ghost before: map<string, Workflow>) returns (o: Outcome)
    requires db.Valid() && wid in db.workflows && i < |db.workflows[wid].steps| && i < |l0.wf.steps|
    requires s == l0.wf.steps[i] && s.kind.Auto?
    requires db.workflows == before[wid := l0.wf.(steps := l0.wf.steps[i := l0.wf.steps[i].(state := StepState.Ready)])]
    requires db.approvals == l0.approvals && db.events == l0.events
    modifies db
    ensures db.Valid()
    ensures db.Holds(before, wid, RunStep(l0, wid, i, token, now, comp).0)
    ensures o == RunStep(l0, wid, i, token, now, comp).1
    ensures db.definitions == old(db.definitions) && db.replays == old(db.replays)
  {
    var wf := db.workflows[wid];
    ghost var ready := wf.steps;
    var err := AutoError(s.config.action, wf.metadata);
    if err.None? {
      db.UpdateStep(wid, i, s.(state := StepState.Done));
      ghost var l1 := SetStep(l0, i, s.(state := StepState.Done));
      assert ready[i := s.(state := StepState.Done)] == l1.wf.steps;
      assert db.workflows == before[wid := l1.wf];
      o := Pass;
    } else {
      FailStep(db, wid, i, s, err.value, comp);
      ghost var l1 := SetStep(l0, i, s.(state := StepState.Failed));
      assert ready[i := s.(state := StepState.Failed)] == l1.wf.steps;
      assert db.workflows == before[wid := l1.wf];
      o := Fail(err.value);
    }
  }

  /** The HUMAN branch of `executeStep`, entered with the step already READY. */
  method ExecuteHumanBranch(db: Store, wid: string, i: nat, s: Step, token: string, now: Time, comp: Outcome,
                            ghost l0: Ledger, ghost before: map<string, Workflow>) returns (o: Outcome)
    requires db.Valid() && wid in db.workflows && i < |db.workflows[wid].steps| && i < |l0.wf.steps|
    requires s == l0.wf.steps[i] && s.kind.Human?
    requires db.workflows == before[wid := l0.wf.(steps := l0.wf.steps[i := l0.wf.steps[i].(state := StepState.Ready)])]
    requires db.approvals == l0.approvals && db.events == l0.events
    modifies db
    ensures db.Valid()
    ensures db.Holds(before, wid, RunStep(l0, wid, i, token, now, comp).0)
    ensures o == RunStep(l0, wid, i, token, now, comp).1
    ensures db.definitions == old(db.definitions) && db.replays == old(db.replays)
  {
    ghost var ready := db.workflows[wid].steps;
    var _ := CreateApprovalRequest(db, wid, s, token, now);
    db.UpdateStep(wid, i, s.(state := StepState.Waiting));
    ghost var l1 := SetStep(l0, i, s.(state := StepState.Waiting));
    assert ready[i := s.(state := StepState.Waiting)] == l1.wf.steps;
    assert db.workflows == before[wid := l1.wf];
    o := Pass;
  }

  /** `executeStep` on the step at position `i` of workflow `wid`. */
  method ExecuteStep(db: Store, wid: string, i: nat, token: string, now: Time, comp: Outcome) returns (o: Outcome)
    requires db.Valid() && wid in db.workflows && i < |db.workflows[wid].steps|
    modifies db
    ensures db.Valid()
    ensures db.Holds(old(db.workflows), wid, RunStep(old(db.LedgerOf(wid)), wid, i, token, now, comp).0)
    ensures o == RunStep(old(db.LedgerOf(wid)), wid, i, token, now, comp).1
    ensures db.definitions == old(db.definitions) && db.replays == old(db.replays)
  {
    ghost var l0 := db.LedgerOf(wid);
    ghost var before := db.workflows;
    var s := db.workflows[wid].steps[i];
    db.UpdateStep(wid, i, s.(state := StepState.Ready));
    match s.kind {
      case Auto =>
        o := ExecuteAutoBranch(db, wid, i, s, token, now, comp, l0, before);
      case Human =>
        o := ExecuteHumanBranch(db, wid, i, s, token, now, comp, l0, before);
    }
  }

  /** `updateWorkflowState`: store the derived state, logging a change. */
  method UpdateWorkflowState(db: Store, wid: string) returns (o: Outcome)
    requires db.Valid()
    modifies db
    ensures db.Valid()
    ensures wid !in old(db.workflows) ==> o == Fail("workflow not found") && db.workflows == old(db.workflows) && db.events == old(db.events)
    ensures wid in old(db.workflows) ==> o == Pass && db.Holds(old(db.workflows), wid, UpdateStateSpec(old(db.LedgerOf(wid)), wid))
    ensures db.definitions == old(db.definitions) && db.replays == old(db.replays) && db.approvals == old(db.approvals)
  {
    if wid !in db.workflows {
      return Fail("workflow not found");
    }
    var wf := db.workflows[wid];
    var ns := DeriveState(wf.steps, ApprovalsOf(db.approvals, wid));
    db.PutWorkflow(wid, wf.(state := ns));
    if wf.state != ns {
      db.Log(Event(wid, WorkflowStateChanged(wf.state, ns), NoPayload));
    }
    o := Pass;
  }

  /**
   * One round of the loop of `executeWorkflow` on the snapshot's step at
   * position `i`, stated against the reference run from `i`: a DONE
   * step is skipped, any other is executed; `waiting` says that the step
   * now waits for an approval, which ends the loop.
   */
  method RunStepsOnce(db: Store, wid: string, snapshot: seq<Step>, i: nat, token: string, now: Time, comp: Outcome,
                      ghost before: map<string, Workflow>, ghost target: (Ledger, Outcome))
    returns (o: Outcome, waiting: bool)
    requires db.Valid() && wid in db.workflows && i < |db.workflows[wid].steps| == |snapshot|
    requires forall j | i <= j < |snapshot| :: db.workflows[wid].steps[j] == snapshot[j]
    requires db.workflows == before[wid := db.workflows[wid]]
    requires RunWorkflow(db.LedgerOf(wid), wid, i, token, now, comp) == target
    modifies db
    ensures db.Valid() && wid in db.workflows && |db.workflows[wid].steps| == |snapshot|
    ensures forall j | i + 1 <= j < |snapshot| :: db.workflows[wid].steps[j] == snapshot[j]
    ensures db.workflows == before[wid := db.workflows[wid]]
    ensures db.definitions == old(db.definitions) && db.replays == old(db.replays)
    ensures o.Fail? || waiting ==> db.LedgerOf(wid) == target.0 && o == target.1
    ensures o.Pass? && !waiting ==> RunWorkflow(db.LedgerOf(wid), wid, i + 1, token, now, comp) == target
  {
    if snapshot[i].state == StepState.Done {
      return Pass, false;
    }
    ghost var w0 := db.workflows;
    ghost var lb := db.LedgerOf(wid);
    RunStepEffects(lb, wid, i, token, now, comp);
    RunWorkflowUnfold(lb, wid, i, token, now, comp);
    o := ExecuteStep(db, wid, i, token, now, comp);
    assert (db.LedgerOf(wid), o) == RunStep(lb, wid, i, token, now, comp);
    MapOverwrite(before, wid, w0[wid], db.workflows[wid]);
    waiting := db.workflows[wid].steps[i].state == StepState.Waiting;
  }

  /**
   * The loop of `executeWorkflow` over a snapshot of the steps: skip DONE
   * steps, run the others, stop after one that ends WAITING and re-throw
   * the error of one that fails.
   */
  method RunSteps(db: Store, wid: string, token: string, now: Time, comp: Outcome) returns (o: Outcome)
    requires db.Valid() && wid in db.workflows
    modifies db
    ensures db.Valid()
    ensures db.Holds(old(db.workflows), wid, RunWorkflow(old(db.LedgerOf(wid)), wid, 0, token, now, comp).0)
    ensures o == RunWorkflow(old(db.LedgerOf(wid)), wid, 0, token, now, comp).1
    ensures db.definitions == old(db.definitions) && db.replays == old(db.replays)
  {
    ghost var target := RunWorkflow(db.LedgerOf(wid), wid, 0, token, now, comp);
    var snapshot := db.workflows[wid].steps;
    var i := 0;
    while i < |snapshot|
      invariant 0 <= i <= |snapshot|
      invariant db.Valid() && wid in db.workflows
      invariant |db.workflows[wid].steps| == |snapshot|
      invariant forall j | i <= j < |snapshot| :: db.workflows[wid].steps[j] == snapshot[j]
      invariant db.workflows == old(db.workflows)[wid := db.workflows[wid]]
      invariant db.definitions == old(db.definitions) && db.replays == old(db.replays)
      invariant RunWorkflow(db.LedgerOf(wid), wid, i, token, now, comp) == target
    {
      var st, waiting := RunStepsOnce(db, wid, snapshot, i, token, now, comp, old(db.workflows), target);
      if st.Fail? || waiting {
        return st;
      }
      i := i + 1;
    }
    o := Pass;
  }

  /**
   * `executeWorkflow`: run the steps in index order, skipping DONE ones,
   * stopping after a step that ends WAITING; a failing step re-throws
   * before the state is recomputed.
   */
  method ExecuteWorkflow(db: Store, wid: string, token: string, now: Time, comp: Outcome) returns (o: Outcome)
    requires db.Valid()
    modifies db
    ensures db.Valid()
    ensures wid !in old(db.workflows) ==>
      o == Fail(WorkflowNotFound) && db.workflows == old(db.workflows) && db.approvals == old(db.approvals) && db.events == old(db.events)
    ensures wid in old(db.workflows) ==>
      && db.Holds(old(db.workflows), wid, ExecuteSpec(old(db.LedgerOf(wid)), wid, token, now, comp).0)
      && o == ExecuteSpec(old(db.LedgerOf(wid)), wid, token, now, comp).1
    ensures db.definitions == old(db.definitions) && db.replays == old(db.replays)
  {
    if wid !in db.workflows {
      return Fail(WorkflowNotFound);
    }
    o := RunSteps(db, wid, token, now, comp);
    if o.Fail? {
      return;
    }
    o := UpdateWorkflowState(db, wid);
  }

  // ---------------------------------------------------------------------
  // Cancel and retry
  // ---------------------------------------------------------------------

  /** `cancelWorkflow`: the state becomes REJECTED directly and a WORKFLOW_CANCELLED event is logged. */
  method CancelWorkflow(db: Store, wid: string, reason: Option<string>) returns (r: Result<Workflow>)
    requires db.Valid()
    modifies db
    ensures db.Valid()
    ensures wid !in old(db.workflows) ==> r == Err(WorkflowNotFound) && db.workflows == old(db.workflows) && db.events == old(db.events)
    ensures wid in old(db.workflows) ==>
      && r == Ok(old(db.workflows[wid]).(state := WorkflowState.Rejected))
      && db.workflows == old(db.workflows)[wid := r.value]
      && db.events == old(db.events) + [Event(wid, WorkflowCancelled(reason), NoPayload)]
    ensures db.definitions == old(db.definitions) && db.replays == old(db.replays) && db.approvals == old(db.approvals)
  {
    if wid !in db.workflows {
      return Err(WorkflowNotFound);
    }
    var wf := db.workflows[wid].(state := WorkflowState.Rejected);
    db.PutWorkflow(wid, wf);
    db.Log(Event(wid, WorkflowCancelled(reason), NoPayload));
    r := Ok(wf);
  }

  /** The ledger `retryStep` hands to `executeWorkflow`: the failed step READY again, a STEP_RETRY event. */
  function RetryReset(l: Ledger, wid: string, pos: nat): Ledger
    requires pos < |l.wf.steps|
  {
    var s := l.wf.steps[pos];
    SetStep(l, pos, s.(state := StepState.Ready))
      .(events := l.events + [Event(wid, StepRetry(Some(s.idx)), Payload(Some(s.id), None))])
  }

  /** `retryStep`: only a FAILED step can be retried; it is reset and the workflow executed again. */
  method RetryStep(db: Store, id: StepId, token: string, now: Time, comp: Outcome) returns (o: Outcome)
    requires db.Valid()
    modifies db
    ensures db.Valid()
    ensures Locate(old(db.workflows), id).None? ==>
      o == Fail(StepNotFound) && db.workflows == old(db.workflows) && db.events == old(db.events) && db.approvals == old(db.approvals)
    ensures
      var p := Locate(old(db.workflows), id);
      p.Some? && old(db.workflows)[id.workflow].steps[p.value].state != StepState.Failed ==>
        o == Fail("Can only retry failed steps") && db.workflows == old(db.workflows)
        && db.events == old(db.events) && db.approvals == old(db.approvals)
    ensures
      var p := Locate(old(db.workflows), id);
      p.Some? && old(db.workflows)[id.workflow].steps[p.value].state == StepState.Failed ==>
        var (l', out) := ExecuteSpec(RetryReset(old(db.LedgerOf(id.workflow)), id.workflow, p.value), id.workflow, token, now, comp);
        db.Holds(old(db.workflows), id.workflow, l') && o == out
    ensures db.definitions == old(db.definitions) && db.replays == old(db.replays)
  {
    var p := Locate(db.workflows, id);
    if p.None? {
      return Fail(StepNotFound);
    }
    var wid := id.workflow;
    var s := db.workflows[wid].steps[p.value];
    if s.state != StepState.Failed {
      return Fail("Can only retry failed steps");
    }
    db.UpdateStep(wid, p.value, s.(state := StepState.Ready));
    db.Log(Event(wid, StepRetry(Some(s.idx)), Payload(Some(s.id), None)));
    o := ExecuteWorkflow(db, wid, token, now, comp);
  }

  // ---------------------------------------------------------------------
  // Definitions
  // ---------------------------------------------------------------------

  /** `createWorkflowDefinition`: validated templates stored as a new active version. */
  method CreateWorkflowDefinition(db: Store, name: string, steps: StepsField, description: Option<string>)
    returns (r: Result<Definition>)
    modifies db
    ensures ValidateWorkflowSteps(steps).Fail? ==>
      r == Err(ValidateWorkflowSteps(steps).error) && db.definitions == old(db.definitions)
    ensures ValidateWorkflowSteps(steps).Pass? ==>
      && r == Ok(NewDefinition(old(db.definitions), name, description, steps.items))
      && db.definitions == old(db.definitions) + [r.value]
    ensures db.workflows == old(db.workflows) && db.approvals == old(db.approvals)
    ensures db.events == old(db.events) && db.replays == old(db.replays)
  {
    var v := ValidateWorkflowSteps(steps);
    if v.Fail? {
      return Err(v.error);
    }
    var d := NewDefinition(db.definitions, name, description, steps.items);
    db.definitions := db.definitions + [d];
    r := Ok(d);
  }

  // ---------------------------------------------------------------------
  // Expiry and resend
  // ---------------------------------------------------------------------

  /** `handleExpiredApproval`: the approval becomes expired and an APPROVAL_EXPIRED event is logged. */
  method HandleExpiredApproval(db: Store, k: nat)
    requires k < |db.approvals|
    modifies db
    ensures db.approvals == old(db.approvals)[k := old(db.approvals[k]).(status := ApprovalStatus.Expired)]
    ensures db.events == old(db.events) + [ExpiryEvent(old(db.approvals), k)]
    ensures db.workflows == old(db.workflows) && db.definitions == old(db.definitions) && db.replays == old(db.replays)
  {
    var a := db.approvals[k];
    var e := ExpiryEvent(db.approvals, k);
    db.approvals := db.approvals[k := a.(status := ApprovalStatus.Expired)];
    db.Log(e);
  }

  /** `checkExpiredApprovals`: expire every pending approval past its deadline; returns how many. */
  method CheckExpiredApprovals(db: Store, now: Time) returns (count: nat)
    modifies db
    ensures db.approvals == Swept(old(db.approvals), now)
    ensures db.events == old(db.events) + ExpiryEvents(old(db.approvals), now)
    ensures count == OverdueCount(old(db.approvals), now)
    ensures db.workflows == old(db.workflows) && db.definitions == old(db.definitions) && db.replays == old(db.replays)
  {
    ghost var a0 := db.approvals;
    var k := 0;
    count := 0;
    while k < |db.approvals|
      invariant 0 <= k <= |db.approvals| == |a0|
      invariant forall j | 0 <= j < k :: db.approvals[j] == Swept(a0, now)[j]
      invariant forall j | k <= j < |a0| :: db.approvals[j] == a0[j]
      invariant db.events == old(db.events) + ExpiryEvents(a0[..k], now)
      invariant count == OverdueCount(a0[..k], now)
      invariant db.workflows == old(db.workflows) && db.definitions == old(db.definitions) && db.replays == old(db.replays)
    {
      assert a0[..k + 1][..k] == a0[..k];
      if Overdue(db.approvals[k], now) {
        assert ExpiryEvent(db.approvals, k) == ExpiryEvent(a0[..k + 1], k);
        HandleExpiredApproval(db, k);
        count := count + 1;
      }
      k := k + 1;
    }
    assert a0[..k] == a0;
  }

  /**
   * The events `sendApprovalRequest` writes for an approval: a Slack
   * approval whose webhook post succeeded (`slackPosted`: the webhook is
   * configured and answered OK) logs SLACK_MESSAGE_SENT; email and web
   * deliveries write nothing.
   */
  function DeliveryEvents(a: Approval, id: nat, slackPosted: bool): (r: seq<Event>)
    ensures |r| <= 1
    ensures |r| == 1 <==> a.channel == "slack" && slackPosted
    ensures r != [] ==> r[0].workflowId == a.workflowId && r[0].kind == SlackMessageSent(id)
  {
    if a.channel == "slack" && slackPosted then [Event(a.workflowId, SlackMessageSent(id), NoPayload)] else []
  }

  /**
   * `resendApproval`: an expired approval gets a new token and deadline
   * and is pending again; the request is sent again on its channel.
   */
  method ResendApproval(db: Store, id: nat, newToken: string, now: Time, slackPosted: bool) returns (r: Result<(string, Time)>)
    modifies db
    ensures id >= |old(db.approvals)| ==> r == Err("Approval not found") && db.approvals == old(db.approvals) && db.events == old(db.events)
    ensures id < |old(db.approvals)| && old(db.approvals[id]).status != ApprovalStatus.Expired ==>
      r == Err("Can only resend expired approvals") && db.approvals == old(db.approvals) && db.events == old(db.events)
    ensures id < |old(db.approvals)| && old(db.approvals[id]).status == ApprovalStatus.Expired ==>
      var a := old(db.approvals[id]);
      && r == Ok((newToken, now + ApprovalTtl))
      && db.approvals == old(db.approvals)[id := a.(token := newToken, expiresAt := now + ApprovalTtl, status := ApprovalStatus.Pending)]
      && db.events == old(db.events) + DeliveryEvents(a, id, slackPosted) + [Event(a.workflowId, ApprovalResent(id, a.token, newToken), NoPayload)]
    ensures db.workflows == old(db.workflows) && db.definitions == old(db.definitions) && db.replays == old(db.replays)
  {
    if id >= |db.approvals| {
      return Err("Approval not found");
    }
    var a := db.approvals[id];
    if a.status != ApprovalStatus.Expired {
      return Err("Can only resend expired approvals");
    }
    var expiry := now + ApprovalTtl;
    db.approvals := db.approvals[id := a.(token := newToken, expiresAt := expiry, status := ApprovalStatus.Pending)];
    if a.channel == "slack" && slackPosted {
      db.Log(Event(a.workflowId, SlackMessageSent(id), NoPayload));
    }
    db.Log(Event(a.workflowId, ApprovalResent(id, a.token, newToken), NoPayload));
    r := Ok((newToken, expiry));
  }

  // ---------------------------------------------------------------------
  // Replay
  // ---------------------------------------------------------------------

  /** The ledger the engine's `replayStep` hands to `executeFromStep`. */
  function EngineReplayReset(l: Ledger, pos: nat): Ledger
    requires pos < |l.wf.steps|
  {
    var s := l.wf.steps[pos];
    var l1 := SetStep(l, pos, s.(state := StepState.Ready, failedAt := None, replayCount := s.replayCount + 1));
    l1.(wf := l1.wf.(state := WorkflowState.Running, currentStepIndex := Some(s.idx)))
  }

  /** One round of the `executeFromStep` loop, stated against the reference run from `i`. */
  method ExecuteFromStepOnce(db: Store, wid: string, i: nat, tokens: nat -> string, now: Time, comp: Outcome,
                             ghost before: map<string, Workflow>, ghost target: (Ledger, Outcome))
    returns (o: Outcome)
    requires db.Valid() && wid in db.workflows && i < |db.workflows[wid].steps|
    requires db.workflows == before[wid := db.workflows[wid]]
    requires RunFrom(db.LedgerOf(wid), wid, i, tokens, now, comp) == target
    modifies db
    ensures db.Valid() && wid in db.workflows && |db.workflows[wid].steps| == old(|db.workflows[wid].steps|)
    ensures db.workflows == before[wid := db.workflows[wid]]
    ensures db.definitions == old(db.definitions) && db.replays == old(db.replays)
    ensures o.Fail? ==> db.LedgerOf(wid) == target.0 && o == target.1
    ensures o.Pass? ==> RunFrom(db.LedgerOf(wid), wid, i + 1, tokens, now, comp) == target
  {
    ghost var w0 := db.workflows;
    ghost var step := RunStep(db.LedgerOf(wid), wid, i, tokens(i), now, comp);
    o := ExecuteStep(db, wid, i, tokens(i), now, comp);
    assert db.LedgerOf(wid) == step.0;
    MapOverwrite(before, wid, w0[wid], db.workflows[wid]);
  }

  /** `executeFromStep`: `executeStep` on every position from `from` to the end; a failure stops it. */
  method ExecuteFromStep(db: Store, wid: string, from: nat, tokens: nat -> string, now: Time, comp: Outcome) returns (o: Outcome)
    requires db.Valid() && wid in db.workflows && from <= |db.workflows[wid].steps|
    modifies db
    ensures db.Valid()
    ensures db.Holds(old(db.workflows), wid, RunFrom(old(db.LedgerOf(wid)), wid, from, tokens, now, comp).0)
    ensures o == RunFrom(old(db.LedgerOf(wid)), wid, from, tokens, now, comp).1
    ensures db.definitions == old(db.definitions) && db.replays == old(db.replays)
  {
    ghost var target := RunFrom(db.LedgerOf(wid), wid, from, tokens, now, comp);
    var n := |db.workflows[wid].steps|;
    var i := from;
    while i < n
      invariant from <= i <= n
      invariant db.Valid() && wid in db.workflows && |db.workflows[wid].steps| == n
      invariant db.workflows == old(db.workflows)[wid := db.workflows[wid]]
      invariant db.definitions == old(db.definitions) && db.replays == old(db.replays)
      invariant RunFrom(db.LedgerOf(wid), wid, i, tokens, now, comp) == target
    {
      var st := ExecuteFromStepOnce(db, wid, i, tokens, now, comp, old(db.workflows), target);
      if st.Fail? {
        return st;
      }
      i := i + 1;
    }
    o := Pass;
  }

  /**
   * The engine's `replayStep`: record the replay, reset the step, point
   * the workflow at it as RUNNING, and execute every step from it on.
   */
  /** `replayedBy = 'system'`: the default applies when the caller passes no actor. */
  const DefaultReplayedBy := "system"

  function ReplayActor(replayedBy: Option<string>): string {
    if replayedBy.Some? then replayedBy.value else DefaultReplayedBy
  }

  method ReplayStep(db: Store, id: StepId, reason: Option<string>, replayedBy: Option<string>, now: Time,
                    tokens: nat -> string, comp: Outcome) returns (r: Result<string>)
    requires db.Valid()
    modifies db
    ensures db.Valid()
    ensures Locate(old(db.workflows), id).None? ==>
      r == Err(StepNotFound) && db.workflows == old(db.workflows) && db.events == old(db.events)
      && db.approvals == old(db.approvals) && db.replays == old(db.replays)
    ensures
      var p := Locate(old(db.workflows), id);
      p.Some? && !old(db.workflows)[id.workflow].steps[p.value].canReplay ==>
        r == Err("This step cannot be replayed") && db.workflows == old(db.workflows) && db.events == old(db.events)
        && db.approvals == old(db.approvals) && db.replays == old(db.replays)
    ensures
      var p := Locate(old(db.workflows), id);
      p.Some? && old(db.workflows)[id.workflow].steps[p.value].canReplay ==>
        var l1 := EngineReplayReset(old(db.LedgerOf(id.workflow)), p.value);
        var (l', o) := RunFrom(l1, id.workflow, old(db.workflows)[id.workflow].steps[p.value].idx, tokens, now, comp);
        && db.Holds(old(db.workflows), id.workflow, l')
        && db.replays == old(db.replays) + [StepReplay(id, reason, ReplayActor(replayedBy), now)]
        && r == (if o.Pass? then Ok(ReplayedMessage(old(db.workflows)[id.workflow].steps[p.value].idx)) else Err(o.error))
    ensures db.definitions == old(db.definitions)
  {
    var p := Locate(db.workflows, id);
    if p.None? {
      return Err(StepNotFound);
    }
    var wid := id.workflow;
    var s := db.workflows[wid].steps[p.value];
    if !s.canReplay {
      return Err("This step cannot be replayed");
    }
    ghost var l1 := EngineReplayReset(db.LedgerOf(wid), p.value);
    ghost var before := db.workflows;
    db.replays := db.replays + [StepReplay(id, reason, ReplayActor(replayedBy), now)];
    db.UpdateStep(wid, p.value, s.(state := StepState.Ready, failedAt := None, replayCount := s.replayCount + 1));
    var wf := db.workflows[wid];
    db.PutWorkflow(wid, wf.(state := WorkflowState.Running, currentStepIndex := Some(s.idx)));
    assert db.LedgerOf(wid) == l1;
    MapOverwrite(before, wid, wf, l1.wf);
    var o := ExecuteFromStep(db, wid, s.idx, tokens, now, comp);
    MapOverwrite(before, wid, l1.wf, db.workflows[wid]);
    r := if o.Pass? then Ok(ReplayedMessage(s.idx)) else Err(o.error);
  }
}
