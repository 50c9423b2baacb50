/**
 * The approval queue's job handler (workers/approval-worker.ts): settle
 * a pending approval by token, mark its step DONE, log the decision, and
 * resume the workflow (approve) or recompute its state (reject).  An
 * approval that is no longer pending is skipped, which makes a repeated
 * delivery of the same job harmless.
 */
module ApprovalWorker {
  import opened Types
  import opened WorkflowRules
  import opened Persistence
  import opened Strings
  import WorkflowEngine

  /** The queue job id of a decision, which keeps one job per token. */
  function ApprovalJobId(token: string): string {
    "approval-" + token
  }

  /** Two decisions share a job id exactly when they carry the same token. */
  lemma JobIdIdentifiesToken(t1: string, t2: string)
    ensures ApprovalJobId(t1) == ApprovalJobId(t2) <==> t1 == t2
  {
    if ApprovalJobId(t1) == ApprovalJobId(t2) {
      PrefixInjective("approval-", t1, t2);
    }
  }

  datatype JobResult = Skipped(reason: string) | Settled(workflowId: string, decision: Decision)

  const ApprovalNotFound := "Approval not found"
  const AlreadyProcessed := "already_processed"
  /** The store's error when the step row to update does not exist. */
  const StepRowMissing := "Record to update not found."

  /** `prisma.approval.findUnique({ where: { token } })`: the row holding the token. */
  function FindByToken(approvals: seq<Approval>, token: string): (r: Option<nat>)
    ensures r.Some? ==> r.value < |approvals| && approvals[r.value].token == token
    ensures r.Some? ==> forall j | 0 <= j < r.value :: approvals[j].token != token
    ensures r.None? ==> forall j | 0 <= j < |approvals| :: approvals[j].token != token
  {
    if |approvals| == 0 then None
    else if approvals[0].token == token then Some(0)
    else match FindByToken(approvals[1..], token)
      case None => None
      case Some(k) => Some(k + 1)
  }

  /** The rows before a row holding the token keep their tokens: the lookup still finds it. */
  lemma FindByTokenStable(a: seq<Approval>, b: seq<Approval>, token: string, k: nat)
    requires FindByToken(a, token) == Some(k)
    requires k < |b| && b[k].token == token
    requires forall j | 0 <= j < k :: b[j].token == a[j].token
    ensures FindByToken(b, token) == Some(k)
  {
    var r := FindByToken(b, token);
    assert r.Some?;
  }

  function DecisionEvent(a: Approval, k: nat, decision: Decision, feedback: Option<string>): Event {
    Event(a.workflowId,
          if decision == Decision.Approve then ApprovalApproved(k, feedback) else ApprovalRejected(k, feedback),
          Payload(Some(a.stepId), None))
  }

  datatype Tables = Tables(workflows: map<string, Workflow>, approvals: seq<Approval>, events: seq<Event>)

  /**
   * The three writes of a settlement: the approval's status, its step
   * DONE whatever the decision, the decision event; None when the step row
   * does not exist (the store rejects the update after the first write).
   */
  function Recorded(t: Tables, k: nat, decision: Decision, feedback: Option<string>): Option<Tables>
    requires k < |t.approvals|
  {
    var a := t.approvals[k];
    match Locate(t.workflows, a.stepId)
    case None => None
    case Some(p) =>
      var sw := a.stepId.workflow;
      var wf := t.workflows[sw];
      Some(Tables(t.workflows[sw := wf.(steps := wf.steps[p := wf.steps[p].(state := StepState.Done)])],
                  t.approvals[k := a.(status := decision.Status())],
                  t.events + [DecisionEvent(a, k, decision, feedback)]))
  }

  /** The continuation: execute the workflow when approved, recompute its state when rejected. */
  function Resume(l: Ledger, wid: string, decision: Decision, token: string, now: Time, comp: Outcome): (Ledger, Outcome) {
    if decision == Decision.Approve then ExecuteSpec(l, wid, token, now, comp)
    else (UpdateStateSpec(l, wid), Pass)
  }

  /**
   * The job handler.  `token` selects the approval; `nextToken` is the
   * token an approval created while resuming would get.
   */
  method ProcessApproval(db: Store, token: string, decision: Decision, feedback: Option<string>,
                         nextToken: string, now: Time, comp: Outcome) returns (r: Result<JobResult>)
    requires db.Valid()
    modifies db
    ensures db.Valid()
    ensures FindByToken(old(db.approvals), token).None? ==> r == Err(ApprovalNotFound) && unchanged(db)
    ensures
      var kk := FindByToken(old(db.approvals), token);
      kk.Some? && old(db.approvals)[kk.value].status != ApprovalStatus.Pending ==>
        r == Ok(Skipped(AlreadyProcessed)) && unchanged(db)
    ensures
      var kk := FindByToken(old(db.approvals), token);
      kk.Some? && old(db.approvals)[kk.value].status == ApprovalStatus.Pending ==>
        var k := kk.value;
        var a := old(db.approvals)[k];
        var t := Recorded(Tables(old(db.workflows), old(db.approvals), old(db.events)), k, decision, feedback);
        && (t.None? ==> r == Err(StepRowMissing) && db.workflows == old(db.workflows) && db.events == old(db.events)
                        && db.approvals == old(db.approvals)[k := a.(status := decision.Status())])
        && (t.Some? && a.workflowId !in t.value.workflows ==>
              && r == Err(if decision == Decision.Approve then WorkflowEngine.WorkflowNotFound else "workflow not found")
              && db.workflows == t.value.workflows && db.approvals == t.value.approvals && db.events == t.value.events)
        && (t.Some? && a.workflowId in t.value.workflows ==>
              var l1 := Ledger(t.value.workflows[a.workflowId], t.value.approvals, t.value.events);
              var (l', o) := Resume(l1, a.workflowId, decision, nextToken, now, comp);
              && db.Holds(t.value.workflows, a.workflowId, l')
              && r == (if o.Pass? then Ok(Settled(a.workflowId, decision)) else Err(o.error)))
    ensures db.definitions == old(db.definitions) && db.replays == old(db.replays)
  {
    var kk := FindByToken(db.approvals, token);
    if kk.None? {
      return Err(ApprovalNotFound);
    }
    var k := kk.value;
    var a := db.approvals[k];
    if a.status != ApprovalStatus.Pending {
      return Ok(Skipped(AlreadyProcessed));
    }
    db.approvals := db.approvals[k := a.(status := decision.Status())];
    var p := Locate(db.workflows, a.stepId);
    if p.None? {
      return Err(StepRowMissing);
    }
    var sw := a.stepId.workflow;
    var s := db.workflows[sw].steps[p.value];
    db.UpdateStep(sw, p.value, s.(state := StepState.Done));
    db.Log(DecisionEvent(a, k, decision, feedback));
    var o: Outcome;
    if decision == Decision.Approve {
      o := WorkflowEngine.ExecuteWorkflow(db, a.workflowId, nextToken, now, comp);
    } else {
      o := WorkflowEngine.UpdateWorkflowState(db, a.workflowId);
    }
    r := if o.Pass? then Ok(Settled(a.workflowId, decision)) else Err(o.error);
  }

  /** Resuming only appends approvals. */
  lemma ResumeKeepsApprovals(l: Ledger, wid: string, decision: Decision, token: string, now: Time, comp: Outcome)
    ensures
      var l' := Resume(l, wid, decision, token, now, comp).0;
      && |l'.approvals| >= |l.approvals|
      && (forall j | 0 <= j < |l.approvals| :: l'.approvals[j] == l.approvals[j])
  {
    var l' := Resume(l, wid, decision, token, now, comp).0;
    if decision == Decision.Approve {
      ExecuteStepEffects(l, wid, token, now, comp);
      ExecuteHaltEffects(l, wid, token, now, comp);
      forall j | 0 <= j < |l.approvals| ensures l'.approvals[j] == l.approvals[j] {
        assert l'.approvals[..|l.approvals|][j] == l.approvals[j];
      }
    }
  }

  /** Resuming keeps DONE steps as they are. */
  lemma ResumeKeepsSettled(l: Ledger, wid: string, decision: Decision, token: string, now: Time, comp: Outcome, p: nat)
    requires p < |l.wf.steps| && l.wf.steps[p].state == StepState.Done
    ensures
      var l' := Resume(l, wid, decision, token, now, comp).0;
      && |l'.wf.steps| == |l.wf.steps|
      && l'.wf.steps[p] == l.wf.steps[p]
  {
    if decision == Decision.Approve {
      ExecuteStepEffects(l, wid, token, now, comp);
      ExecuteHaltEffects(l, wid, token, now, comp);
    }
  }

  /**
   * After a settlement, the same token finds the same approval and it is
   * no longer pending, so a repeated delivery is skipped; the settled
   * step of the resumed workflow is still DONE.
   */
  lemma SettlementIsFinal(t0: Tables, token: string, k: nat, decision: Decision, feedback: Option<string>,
                          nextToken: string, now: Time, comp: Outcome)
    requires FindByToken(t0.approvals, token) == Some(k)
    requires t0.approvals[k].status == ApprovalStatus.Pending
    requires Recorded(t0, k, decision, feedback).Some?
    requires t0.approvals[k].workflowId in Recorded(t0, k, decision, feedback).value.workflows
    ensures
      var a := t0.approvals[k];
      var t := Recorded(t0, k, decision, feedback).value;
      var l' := Resume(Ledger(t.workflows[a.workflowId], t.approvals, t.events), a.workflowId, decision, nextToken, now, comp).0;
      var p := Locate(t0.workflows, a.stepId).value;
      && FindByToken(l'.approvals, token) == Some(k)
      && l'.approvals[k].status == decision.Status()
      && l'.approvals[k].status != ApprovalStatus.Pending
      && (a.stepId.workflow == a.workflowId ==> p < |l'.wf.steps| && l'.wf.steps[p].state == StepState.Done)
  {
    var a := t0.approvals[k];
    var t := Recorded(t0, k, decision, feedback).value;
    var p := Locate(t0.workflows, a.stepId).value;
    var l1 := Ledger(t.workflows[a.workflowId], t.approvals, t.events);
    ResumeKeepsApprovals(l1, a.workflowId, decision, nextToken, now, comp);
    if a.stepId.workflow == a.workflowId {
      assert l1.wf.steps[p].state == StepState.Done;
      ResumeKeepsSettled(l1, a.workflowId, decision, nextToken, now, comp, p);
    }
    var l' := Resume(l1, a.workflowId, decision, nextToken, now, comp).0;
    assert l'.approvals[k] == l1.approvals[k];
    forall j | 0 <= j < k ensures l'.approvals[j].token == t0.approvals[j].token {
      assert l'.approvals[j] == l1.approvals[j];
    }
    FindByTokenStable(t0.approvals, l'.approvals, token, k);
  }

  /** A rejection always leaves the approval's workflow REJECTED. */
  lemma RejectionSettlesRejected(t0: Tables, k: nat, feedback: Option<string>, nextToken: string, now: Time, comp: Outcome)
    requires k < |t0.approvals|
    requires Recorded(t0, k, Decision.Reject, feedback).Some?
    ensures
      var a := t0.approvals[k];
      var t := Recorded(t0, k, Decision.Reject, feedback).value;
      a.workflowId in t.workflows ==>
        Resume(Ledger(t.workflows[a.workflowId], t.approvals, t.events), a.workflowId, Decision.Reject, nextToken, now, comp).0.wf.state
          == WorkflowState.Rejected
  {
    var a := t0.approvals[k];
    var t := Recorded(t0, k, Decision.Reject, feedback).value;
    if a.workflowId in t.workflows {
      RejectionWins(t.workflows[a.workflowId].steps, t.approvals, a.workflowId, k);
    }
  }

  /**
   * The same job delivered twice: whatever the first delivery did, even
   * when it failed after writing the approval's status (which is when
   * the queue retries), the second is skipped.
   */
  method DeliverTwice(db: Store, token: string, decision: Decision, feedback: Option<string>,
                      nextToken: string, now: Time, comp: Outcome) returns (first: Result<JobResult>, second: Result<JobResult>)
    requires db.Valid()
    requires var kk := FindByToken(db.approvals, token); kk.Some? && db.approvals[kk.value].status == ApprovalStatus.Pending
    modifies db
    ensures second == Ok(Skipped(AlreadyProcessed))
  {
    ghost var t0 := Tables(db.workflows, db.approvals, db.events);
    ghost var k := FindByToken(db.approvals, token).value;
    ghost var t := Recorded(t0, k, decision, feedback);
    first := ProcessApproval(db, token, decision, feedback, nextToken, now, comp);
    if t.None? || t0.approvals[k].workflowId !in t.value.workflows {
      FindByTokenStable(t0.approvals, db.approvals, token, k);
    } else {
      SettlementIsFinal(t0, token, k, decision, feedback, nextToken, now, comp);
    }
    second := ProcessApproval(db, token, decision, feedback, nextToken, now, comp);
  }
}
