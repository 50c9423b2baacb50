/**
 * The operator-facing step operations (app/lib/step-manager.ts): the
 * choice between replay and manual execution, the replay transaction
 * that resets a step and everything after it, the manual execution, and
 * the chain that walks forward from a step.
 */
module StepManager {
  import opened Types
  import opened Strings
  import opened WorkflowRules
  import opened Persistence

  const ReplayedBy := "user"
  const DefaultReplayReason := "Manual replay"

  /** `executeOrReplayStep`'s choice: replay a step strictly before the cursor (`currentStepIndex || 0`). */
  function IsReplay(cursor: Option<int>, idx: nat): (r: bool)
    ensures cursor.None? ==> !r
    ensures cursor.Some? ==> (r <==> idx < cursor.value)
  {
    idx < cursor.GetOr(0)
  }

  // ---------------------------------------------------------------------
  // The chain walk
  // ---------------------------------------------------------------------

  /**
   * Reference semantics of `executeSingleStep` at position `k` over the
   * step snapshot: a HUMAN step becomes WAITING and the chain ends; an
   * AUTO step becomes DONE and the chain moves on; past the last step the
   * workflow becomes DONE with a WORKFLOW_COMPLETED event.
   */
  function Walk(l: Ledger, wid: string, snapshot: seq<Step>, k: nat, now: Time): (r: Ledger)
    requires k < |snapshot| == |l.wf.steps|
    ensures |r.wf.steps| == |l.wf.steps|
    decreases |snapshot| - k
  {
    var human := snapshot[k].kind == StepKind.Human;
    var l1 := SetStep(l, k, l.wf.steps[k].(state := if human then StepState.Waiting else StepState.Done));
    if human then l1
    else if k + 1 < |snapshot| then Walk(l1, wid, snapshot, k + 1, now)
    else l1.(wf := l1.wf.(state := WorkflowState.Done),
             events := l1.events + [Event(wid, WorkflowCompleted(now), NoPayload)])
  }

  /** The first HUMAN position at or after `from`, or the step count. */
  function FirstHuman(snapshot: seq<Step>, from: nat): (w: nat)
    requires from <= |snapshot|
    ensures from <= w <= |snapshot|
    ensures forall j | from <= j < w :: snapshot[j].kind == StepKind.Auto
    ensures w < |snapshot| ==> snapshot[w].kind == StepKind.Human
    decreases |snapshot| - from
  {
    if from == |snapshot| then from
    else if snapshot[from].kind.Human? then from
    else FirstHuman(snapshot, from + 1)
  }

  /**
   * The walk from `k` marks every AUTO step up to the first HUMAN one DONE
   * and that HUMAN step WAITING, leaves every other step and the approvals
   * alone, and completes the workflow exactly when no HUMAN step follows.
   */
  lemma {:induction false} WalkEffects(l: Ledger, wid: string, snapshot: seq<Step>, k: nat, now: Time)
    requires k < |snapshot| == |l.wf.steps|
    ensures
      var r := Walk(l, wid, snapshot, k, now);
      var w := FirstHuman(snapshot, k);
      var n := |snapshot|;
      && r.approvals == l.approvals
      && r.wf.metadata == l.wf.metadata && r.wf.currentStepIndex == l.wf.currentStepIndex
      && (forall j | 0 <= j < k :: r.wf.steps[j] == l.wf.steps[j])
      && (forall j | k <= j < w :: r.wf.steps[j] == l.wf.steps[j].(state := StepState.Done))
      && (w < n ==> r.wf.steps[w] == l.wf.steps[w].(state := StepState.Waiting))
      && (forall j | w < j < n :: r.wf.steps[j] == l.wf.steps[j])
      && (w < n ==> r.wf.state == l.wf.state && r.events == l.events)
      && (w == n ==> r.wf.state == WorkflowState.Done
                     && r.events == l.events + [Event(wid, WorkflowCompleted(now), NoPayload)])
    decreases |snapshot| - k
  {
    var human := snapshot[k].kind == StepKind.Human;
    var l1 := SetStep(l, k, l.wf.steps[k].(state := if human then StepState.Waiting else StepState.Done));
    if !human && k + 1 < |snapshot| {
      WalkEffects(l1, wid, snapshot, k + 1, now);
    }
  }

  /** `executeSingleStep` */
  method ExecuteSingleStep(db: Store, wid: string, snapshot: seq<Step>, k: nat, now: Time)
    requires db.Valid() && wid in db.workflows
    requires Indexed(wid, snapshot) && k < |snapshot| == |db.workflows[wid].steps|
    modifies db
    ensures db.Valid()
    ensures db.Holds(old(db.workflows), wid, Walk(old(db.LedgerOf(wid)), wid, snapshot, k, now))
    ensures db.definitions == old(db.definitions) && db.replays == old(db.replays)
    decreases |snapshot| - k, 1
  {
    var human := snapshot[k].kind == StepKind.Human;
    var s := db.workflows[wid].steps[k];
    db.UpdateStep(wid, k, s.(state := if human then StepState.Waiting else StepState.Done));
    if human {
      return;
    }
    MoveToNextStep(db, wid, snapshot, k, now);
  }

  /** `moveToNextStep`: the step with the next index, or completion past the last one. */
  method MoveToNextStep(db: Store, wid: string, snapshot: seq<Step>, k: nat, now: Time)
    requires db.Valid() && wid in db.workflows
    requires Indexed(wid, snapshot) && k < |snapshot| == |db.workflows[wid].steps|
    modifies db
    ensures db.Valid()
    ensures k + 1 < |snapshot| ==>
      db.Holds(old(db.workflows), wid, Walk(old(db.LedgerOf(wid)), wid, snapshot, k + 1, now))
    ensures k + 1 == |snapshot| ==>
      var l := old(db.LedgerOf(wid));
      db.Holds(old(db.workflows), wid, l.(wf := l.wf.(state := WorkflowState.Done),
                                         events := l.events + [Event(wid, WorkflowCompleted(now), NoPayload)]))
    ensures db.definitions == old(db.definitions) && db.replays == old(db.replays)
    decreases |snapshot| - k, 0
  {
    var next := k + 1;
    if next < |snapshot| {
      ExecuteSingleStep(db, wid, snapshot, next, now);
    } else {
      var wf := db.workflows[wid];
      db.PutWorkflow(wid, wf.(state := WorkflowState.Done));
      db.Log(Event(wid, WorkflowCompleted(now), NoPayload));
    }
  }

  // ---------------------------------------------------------------------
  // Replay
  // ---------------------------------------------------------------------

  /** `updateMany({ where: { stepId in ids, status: 'pending' }, data: { status: 'expired', expiresAt: now } })` */
  function ExpireFor(approvals: seq<Approval>, ids: set<StepId>, now: Time): (r: seq<Approval>)
    ensures |r| == |approvals|
    ensures forall k | 0 <= k < |r| :: r[k] != approvals[k] ==> approvals[k].status == ApprovalStatus.Pending && approvals[k].stepId in ids
    ensures forall k | 0 <= k < |r| :: approvals[k].stepId in ids ==> r[k].status != ApprovalStatus.Pending
    ensures forall k | 0 <= k < |r| :: r[k].stepId == approvals[k].stepId && r[k].token == approvals[k].token
  {
    seq(|approvals|, k requires 0 <= k < |approvals| =>
      if approvals[k].status == ApprovalStatus.Pending && approvals[k].stepId in ids
      then approvals[k].(status := ApprovalStatus.Expired, expiresAt := now)
      else approvals[k])
  }

  lemma ExpireForTwice(approvals: seq<Approval>, a: set<StepId>, b: set<StepId>, now: Time)
    ensures ExpireFor(ExpireFor(approvals, a, now), b, now) == ExpireFor(approvals, a + b, now)
  {
  }

  /** The step has at least one approval row (`step.Approval.length > 0`). */
  predicate HasApproval(approvals: seq<Approval>, id: StepId) {
    exists k | 0 <= k < |approvals| :: approvals[k].stepId == id
  }

  /** The ids of the steps after position `pos`. */
  function LaterIds(steps: seq<Step>, pos: nat): set<StepId> {
    set j | pos < j < |steps| :: steps[j].id
  }

  /** The step ids whose pending approvals the replay transaction expires. */
  function RetiredIds(l: Ledger, pos: nat): set<StepId>
    requires pos < |l.wf.steps|
  {
    var s := l.wf.steps[pos];
    (if s.kind == StepKind.Human && HasApproval(l.approvals, s.id) then {s.id} else {})
    + (if pos < |l.wf.steps| - 1 then LaterIds(l.wf.steps, pos) else {})
  }

  /** The steps after `updateMany({ where: { idx: { gt: pos } } })`: later steps PENDING without stamps. */
  function PendAfter(steps: seq<Step>, pos: nat): (r: seq<Step>)
    ensures |r| == |steps|
  {
    seq(|steps|, j requires 0 <= j < |steps| =>
      if j > pos then steps[j].(state := StepState.Pending, failedAt := None, executedAt := None) else steps[j])
  }

  /** The steps after the replay transaction: the target READY, every later step PENDING. */
  function ReplayedSteps(steps: seq<Step>, pos: nat): (r: seq<Step>)
    requires pos < |steps|
    ensures |r| == |steps|
  {
    seq(|steps|, j requires 0 <= j < |steps| =>
      if j == pos then steps[j].(state := StepState.Ready, failedAt := None, replayCount := steps[j].replayCount + 1)
      else if j > pos then steps[j].(state := StepState.Pending, failedAt := None, executedAt := None)
      else steps[j])
  }

  /** The ledger after the replay transaction of `replayStep`. */
  function ReplayTransaction(l: Ledger, wid: string, pos: nat, reason: Option<string>, now: Time): Ledger
    requires pos < |l.wf.steps|
  {
    var s := l.wf.steps[pos];
    Ledger(
      l.wf.(steps := ReplayedSteps(l.wf.steps, pos), state := WorkflowState.Running, currentStepIndex := Some(s.idx)),
      ExpireFor(l.approvals, RetiredIds(l, pos), now),
      l.events + [Event(wid, StepReplayInitiated(reason, ReplayedBy), Payload(Some(s.id), Some(s.idx)))])
  }

  function ReplayRecord(id: StepId, reason: Option<string>, now: Time): StepReplay {
    StepReplay(id, if Truthy(reason) then reason else Some(DefaultReplayReason), ReplayedBy, now)
  }

  function ReplayMessage(idx: nat): string {
    "Step " + NatToString(idx + 1) + " replayed successfully. Subsequent steps set to pending."
  }

  /** `updateMany` on the approvals: the pending ones of the given steps expire now. */
  method ExpireApprovals(db: Store, ids: set<StepId>, now: Time)
    modifies db
    ensures db.approvals == ExpireFor(old(db.approvals), ids, now)
    ensures db.workflows == old(db.workflows) && db.events == old(db.events)
    ensures db.definitions == old(db.definitions) && db.replays == old(db.replays)
  {
    db.approvals := ExpireFor(db.approvals, ids, now);
  }

  /** `updateMany` on the steps with `idx > pos`. */
  method ResetLaterSteps(db: Store, wid: string, pos: nat)
    requires db.Valid() && wid in db.workflows
    modifies db
    ensures db.Valid()
    ensures db.workflows == old(db.workflows)[wid := old(db.workflows[wid]).(steps := PendAfter(old(db.workflows[wid]).steps, pos))]
    ensures db.approvals == old(db.approvals) && db.events == old(db.events)
    ensures db.definitions == old(db.definitions) && db.replays == old(db.replays)
  {
    var wf := db.workflows[wid];
    db.PutWorkflow(wid, wf.(steps := PendAfter(wf.steps, pos)));
  }

  /** Steps 1 and 2 of the replay transaction: reset the step rows and expire their pending approvals. */
  method ResetFromStep(db: Store, wid: string, pos: nat, now: Time)
    requires db.Valid() && wid in db.workflows && pos < |db.workflows[wid].steps|
    modifies db
    ensures db.Valid()
    ensures db.workflows == old(db.workflows)[wid := old(db.workflows[wid]).(steps := ReplayedSteps(old(db.workflows[wid]).steps, pos))]
    ensures db.approvals == ExpireFor(old(db.approvals), RetiredIds(old(db.LedgerOf(wid)), pos), now)
    ensures db.events == old(db.events) && db.definitions == old(db.definitions) && db.replays == old(db.replays)
  {
    ghost var l0 := db.LedgerOf(wid);
    var snapshot := db.workflows[wid].steps;
    var s := snapshot[pos];
    var reset := s.(state := StepState.Ready, failedAt := None, replayCount := s.replayCount + 1);
    db.UpdateStep(wid, pos, reset);
    var own: set<StepId> := {};
    if s.kind == StepKind.Human && HasApproval(db.approvals, s.id) {
      own := {s.id};
      ExpireApprovals(db, own, now);
    }
    assert db.approvals == ExpireFor(l0.approvals, own, now);
    var later: set<StepId> := {};
    if pos < |snapshot| - 1 {
      ResetLaterSteps(db, wid, pos);
      later := LaterIds(snapshot, pos);
      ExpireApprovals(db, later, now);
      assert PendAfter(snapshot[pos := reset], pos) == ReplayedSteps(snapshot, pos);
    } else {
      assert snapshot[pos := reset] == ReplayedSteps(snapshot, pos);
    }
    ExpireForTwice(l0.approvals, own, later, now);
  }

  /** The `$transaction` of `replayStep`, on the step at position `pos`. */
  method RunReplayTransaction(db: Store, wid: string, pos: nat, reason: Option<string>, now: Time)
    requires db.Valid() && wid in db.workflows && pos < |db.workflows[wid].steps|
    modifies db
    ensures db.Valid()
    ensures db.Holds(old(db.workflows), wid, ReplayTransaction(old(db.LedgerOf(wid)), wid, pos, reason, now))
    ensures db.replays == old(db.replays) + [ReplayRecord(old(db.workflows[wid].steps[pos].id), reason, now)]
    ensures db.definitions == old(db.definitions)
  {
    var s := db.workflows[wid].steps[pos];
    // 1. and 2.: the replayed step, every later step, and their pending approvals
    ResetFromStep(db, wid, pos, now);
    // 3. the workflow restarts from the step
    var wf := db.workflows[wid];
    db.PutWorkflow(wid, wf.(state := WorkflowState.Running, currentStepIndex := Some(s.idx)));
    // 4. the replay record and 5. the event
    db.replays := db.replays + [ReplayRecord(s.id, reason, now)];
    db.Log(Event(wid, StepReplayInitiated(reason, ReplayedBy), Payload(Some(s.id), Some(s.idx))));
  }

  /**
   * `replayStep` in the step manager: the lookups, one transaction that
   * resets the step and every later one and expires their pending
   * approvals, then the chain walk from the step.
   */
  method ReplayStep(db: Store, wid: string, id: StepId, reason: Option<string>, now: Time) returns (r: Result<string>)
    requires db.Valid()
    modifies db
    ensures db.Valid()
    ensures wid !in old(db.workflows) ==> r == Err("Workflow not found") && unchanged(db)
    ensures wid in old(db.workflows) && FindStep(old(db.workflows[wid].steps), id).None? ==>
      r == Err("Step not found") && unchanged(db)
    ensures
      wid in old(db.workflows) && FindStep(old(db.workflows[wid].steps), id).Some? &&
      !old(db.workflows[wid].steps)[FindStep(old(db.workflows[wid].steps), id).value].canReplay ==>
        r == Err("This step cannot be replayed") && unchanged(db)
    ensures
      wid in old(db.workflows) && FindStep(old(db.workflows[wid].steps), id).Some? &&
      old(db.workflows[wid].steps)[FindStep(old(db.workflows[wid].steps), id).value].canReplay ==>
        var pos := FindStep(old(db.workflows[wid].steps), id).value;
        var l1 := ReplayTransaction(old(db.LedgerOf(wid)), wid, pos, reason, now);
        && db.Holds(old(db.workflows), wid, Walk(l1, wid, old(db.workflows[wid].steps), pos, now))
        && db.replays == old(db.replays) + [ReplayRecord(id, reason, now)]
        && r == Ok(ReplayMessage(pos))
    ensures db.definitions == old(db.definitions)
  {
    if wid !in db.workflows {
      return Err("Workflow not found");
    }
    var snapshot := db.workflows[wid].steps;
    var p := FindStep(snapshot, id);
    if p.None? {
      return Err("Step not found");
    }
    var pos := p.value;
    if !snapshot[pos].canReplay {
      return Err("This step cannot be replayed");
    }
    RunReplayTransaction(db, wid, pos, reason, now);
    ExecuteSingleStep(db, wid, snapshot, pos, now);
    r := Ok(ReplayMessage(pos));
  }

  /**
   * The steps a replay leaves behind: earlier steps untouched; the
   * replayed step counted and cleared of its failure; the AUTO steps from
   * it up to the next HUMAN one DONE, that HUMAN step WAITING and every
   * step after it PENDING with no stamps; the cursor on the replayed step;
   * the workflow RUNNING, or DONE when the walk ran off the end.
   */
  lemma ReplayEffects(l: Ledger, wid: string, pos: nat, reason: Option<string>, now: Time)
    requires Indexed(wid, l.wf.steps) && pos < |l.wf.steps|
    ensures
      var r := Walk(ReplayTransaction(l, wid, pos, reason, now), wid, l.wf.steps, pos, now);
      var steps := l.wf.steps;
      var n := |steps|;
      var w := FirstHuman(steps, pos);
      && |r.wf.steps| == n
      && (forall j | 0 <= j < pos :: r.wf.steps[j] == steps[j])
      && r.wf.steps[pos].replayCount == steps[pos].replayCount + 1
      && r.wf.steps[pos].failedAt.None?
      && (forall j | pos <= j < w :: r.wf.steps[j].state == StepState.Done)
      && (w < n ==> r.wf.steps[w].state == StepState.Waiting)
      && (forall j | w < j < n :: r.wf.steps[j].state == StepState.Pending)
      && (forall j | pos < j < n :: r.wf.steps[j].failedAt.None? && r.wf.steps[j].executedAt.None?)
      && r.wf.currentStepIndex == Some(pos)
      && r.wf.state == (if w < n then WorkflowState.Running else WorkflowState.Done)
  {
    WalkEffects(ReplayTransaction(l, wid, pos, reason, now), wid, l.wf.steps, pos, now);
  }

  /** The approval rows a replay retires: pending rows of a later step, and of the replayed step when it is HUMAN. */
  predicate Retired(l: Ledger, wid: string, pos: nat, a: Approval)
    requires pos < |l.wf.steps|
  {
    && a.status == ApprovalStatus.Pending
    && ((a.stepId == StepId(wid, pos) && l.wf.steps[pos].kind == StepKind.Human && HasApproval(l.approvals, StepId(wid, pos)))
        || (a.stepId.workflow == wid && pos < a.stepId.position < |l.wf.steps|))
  }

  /**
   * A replay adds no approval row; exactly the retired rows become
   * expired with their deadline set to now, every other row is left as it
   * was, and no approval of a later step is left pending.
   */
  lemma ReplayRetiresApprovals(l: Ledger, wid: string, pos: nat, reason: Option<string>, now: Time)
    requires Indexed(wid, l.wf.steps) && pos < |l.wf.steps|
    ensures
      var r := Walk(ReplayTransaction(l, wid, pos, reason, now), wid, l.wf.steps, pos, now);
      && |r.approvals| == |l.approvals|
      && (forall k | 0 <= k < |l.approvals| ::
            r.approvals[k] == if Retired(l, wid, pos, l.approvals[k])
                              then l.approvals[k].(status := ApprovalStatus.Expired, expiresAt := now)
                              else l.approvals[k])
      && (forall k | 0 <= k < |l.approvals| && l.approvals[k].stepId.workflow == wid && pos < l.approvals[k].stepId.position < |l.wf.steps| ::
            r.approvals[k].status != ApprovalStatus.Pending)
  {
    var l1 := ReplayTransaction(l, wid, pos, reason, now);
    WalkEffects(l1, wid, l.wf.steps, pos, now);
    var n := |l.wf.steps|;
    assert l.wf.steps[pos].id == StepId(wid, pos);
    forall k | 0 <= k < |l.approvals|
      ensures l1.approvals[k] == if Retired(l, wid, pos, l.approvals[k])
                                 then l.approvals[k].(status := ApprovalStatus.Expired, expiresAt := now)
                                 else l.approvals[k]
    {
      var id := l.approvals[k].stepId;
      if id.workflow == wid && pos < id.position < n {
        assert l.wf.steps[id.position].id == id;
        assert id in LaterIds(l.wf.steps, pos);
      }
      if id in LaterIds(l.wf.steps, pos) {
        var j :| pos < j < n && l.wf.steps[j].id == id;
      }
    }
  }

  // ---------------------------------------------------------------------
  // Manual execution
  // ---------------------------------------------------------------------

  /** The step has an approved approval (`step.Approval.some(a => a.status === 'approved')`). */
  predicate HasApproved(approvals: seq<Approval>, id: StepId) {
    exists k | 0 <= k < |approvals| :: approvals[k].stepId == id && approvals[k].status == ApprovalStatus.Approved
  }

  /** Why a manual execution is refused, if it is. */
  function ManualExecutionError(s: Step, approvals: seq<Approval>): (r: Option<string>)
    ensures r.None? <==> s.canExecute && (s.kind == StepKind.Human ==> HasApproved(approvals, s.id))
  {
    if !s.canExecute then Some("Step execution is disabled")
    else if s.kind == StepKind.Human && !HasApproved(approvals, s.id) then
      Some("Step has pending approvals - use force=true to override")
    else None
  }

  /** The ledger after the manual-execution bookkeeping, before the walk. */
  function ManualStart(l: Ledger, wid: string, pos: nat, reason: Option<string>, now: Time): Ledger
    requires pos < |l.wf.steps|
  {
    var s := l.wf.steps[pos];
    SetStep(l, pos, s.(state := StepState.Ready, executedAt := Some(now), failedAt := None))
      .(events := l.events + [Event(wid, StepManualExecution(reason, ReplayedBy), Payload(Some(s.id), Some(s.idx)))])
  }

  function ExecutedMessage(idx: nat): string {
    "Step " + NatToString(idx + 1) + " executed successfully"
  }

  /** `executeStep` in the step manager: guarded manual execution, then the chain walk. */
  method ManualExecuteStep(db: Store, wid: string, id: StepId, reason: Option<string>, now: Time) returns (r: Result<string>)
    requires db.Valid()
    modifies db
    ensures db.Valid()
    ensures wid !in old(db.workflows) ==> r == Err("Workflow not found") && unchanged(db)
    ensures wid in old(db.workflows) && FindStep(old(db.workflows[wid].steps), id).None? ==>
      r == Err("Step not found") && unchanged(db)
    ensures
      wid in old(db.workflows) && FindStep(old(db.workflows[wid].steps), id).Some? ==>
        var pos := FindStep(old(db.workflows[wid].steps), id).value;
        var s := old(db.workflows[wid].steps)[pos];
        var err := ManualExecutionError(s, old(db.approvals));
        && (err.Some? ==> r == Err(err.value) && unchanged(db))
        && (err.None? ==>
              && db.Holds(old(db.workflows), wid,
                          Walk(ManualStart(old(db.LedgerOf(wid)), wid, pos, reason, now), wid, old(db.workflows[wid].steps), pos, now))
              && r == Ok(ExecutedMessage(pos)))
    ensures db.definitions == old(db.definitions) && db.replays == old(db.replays)
  {
    if wid !in db.workflows {
      return Err("Workflow not found");
    }
    var snapshot := db.workflows[wid].steps;
    var p := FindStep(snapshot, id);
    if p.None? {
      return Err("Step not found");
    }
    var pos := p.value;
    var s := snapshot[pos];
    if !s.canExecute {
      return Err("Step execution is disabled");
    }
    if s.kind == StepKind.Human && !HasApproved(db.approvals, s.id) {
      return Err("Step has pending approvals - use force=true to override");
    }
    db.UpdateStep(wid, pos, s.(state := StepState.Ready, executedAt := Some(now), failedAt := None));
    db.Log(Event(wid, StepManualExecution(reason, ReplayedBy), Payload(Some(s.id), Some(s.idx))));
    ExecuteSingleStep(db, wid, snapshot, pos, now);
    r := Ok(ExecutedMessage(pos));
  }

  /**
   * `executeOrReplayStep`: a step strictly before the cursor is replayed,
   * any other is executed manually; only a replay adds a history row.
   */
  method ExecuteOrReplayStep(db: Store, wid: string, id: StepId, reason: Option<string>, now: Time) returns (r: Result<string>)
    requires db.Valid()
    modifies db
    ensures db.Valid()
    ensures wid !in old(db.workflows) ==> r == Err("Workflow not found") && unchanged(db)
    ensures wid in old(db.workflows) && FindStep(old(db.workflows[wid].steps), id).None? ==>
      r == Err("Step not found") && unchanged(db)
    ensures
      wid in old(db.workflows) && FindStep(old(db.workflows[wid].steps), id).Some? ==>
        var snapshot := old(db.workflows[wid].steps);
        var pos := FindStep(snapshot, id).value;
        var s := snapshot[pos];
        && (IsReplay(old(db.workflows[wid].currentStepIndex), s.idx) && !s.canReplay ==>
              r == Err("This step cannot be replayed") && unchanged(db))
        && (IsReplay(old(db.workflows[wid].currentStepIndex), s.idx) && s.canReplay ==>
              && db.Holds(old(db.workflows), wid,
                          Walk(ReplayTransaction(old(db.LedgerOf(wid)), wid, pos, reason, now), wid, snapshot, pos, now))
              && db.replays == old(db.replays) + [ReplayRecord(id, reason, now)]
              && r == Ok(ReplayMessage(pos)))
        && (!IsReplay(old(db.workflows[wid].currentStepIndex), s.idx) ==>
              var err := ManualExecutionError(s, old(db.approvals));
              && db.replays == old(db.replays)
              && (err.Some? ==> r == Err(err.value) && unchanged(db))
              && (err.None? ==>
                    && db.Holds(old(db.workflows), wid, Walk(ManualStart(old(db.LedgerOf(wid)), wid, pos, reason, now), wid, snapshot, pos, now))
                    && r == Ok(ExecutedMessage(pos))))
    ensures db.definitions == old(db.definitions)
  {
    if wid !in db.workflows {
      return Err("Workflow not found");
    }
    var wf := db.workflows[wid];
    var p := FindStep(wf.steps, id);
    if p.None? {
      return Err("Step not found");
    }
    if IsReplay(wf.currentStepIndex, wf.steps[p.value].idx) {
      r := ReplayStep(db, wid, id, reason, now);
    } else {
      r := ManualExecuteStep(db, wid, id, reason, now);
    }
  }

  /**
   * Since `executeWorkflow` never moves the cursor off 0, every step of a
   * workflow that has only been created and executed is dispatched to
   * manual execution, never to replay.
   */
  lemma FreshCursorNeverReplays(l: Ledger, wid: string, token: string, now: Time, comp: Outcome, idx: nat)
    requires l.wf.currentStepIndex == Some(0)
    ensures !IsReplay(ExecuteSpec(l, wid, token, now, comp).0.wf.currentStepIndex, idx)
  {
    ExecuteStepEffects(l, wid, token, now, comp);
  }
}
