/**
 * The decision rules of the workflow engine (app/lib/workflow-engine.ts)
 * as functions: state derivation, the `validate_data` action, step-shape
 * validation, definition versions, and the reference semantics of one
 * step run, of the execution loop and of the expiry sweep, over a
 * `Ledger` (one workflow record plus the approval and event tables).
 * The methods of module WorkflowEngine are proved against these.
 */
module WorkflowRules {
  import opened Types
  import opened Strings

  // ---------------------------------------------------------------------
  // State derivation
  // ---------------------------------------------------------------------

  ghost predicate SomeRejected(approvals: seq<Approval>) {
    exists k | 0 <= k < |approvals| :: approvals[k].status == ApprovalStatus.Rejected
  }

  ghost predicate SomeStepIn(steps: seq<Step>, st: StepState) {
    exists i | 0 <= i < |steps| :: steps[i].state == st
  }

  ghost predicate AllStepsIn(steps: seq<Step>, st: StepState) {
    forall i | 0 <= i < |steps| :: steps[i].state == st
  }

  /** `approvals.some(a => a.status === 'rejected')` */
  function AnyRejected(approvals: seq<Approval>): (r: bool)
    ensures r <==> SomeRejected(approvals)
  {
    if |approvals| == 0 then false
    else if approvals[0].status == ApprovalStatus.Rejected then true
    else
      var r := AnyRejected(approvals[1..]);
      assert SomeRejected(approvals) ==> SomeRejected(approvals[1..]) by {
        if SomeRejected(approvals) {
          var k :| 0 <= k < |approvals| && approvals[k].status == ApprovalStatus.Rejected;
          assert approvals[1..][k - 1] == approvals[k];
        }
      }
      assert SomeRejected(approvals[1..]) ==> SomeRejected(approvals) by {
        if SomeRejected(approvals[1..]) {
          var k :| 0 <= k < |approvals| - 1 && approvals[1..][k].status == ApprovalStatus.Rejected;
          assert approvals[k + 1] == approvals[1..][k];
        }
      }
      r
  }

  /** `steps.some(s => s.state === st)` */
  function AnyStep(steps: seq<Step>, st: StepState): (r: bool)
    ensures r <==> SomeStepIn(steps, st)
  {
    if |steps| == 0 then false
    else if steps[0].state == st then true
    else
      var r := AnyStep(steps[1..], st);
      assert SomeStepIn(steps, st) ==> SomeStepIn(steps[1..], st) by {
        if SomeStepIn(steps, st) {
          var k :| 0 <= k < |steps| && steps[k].state == st;
          assert steps[1..][k - 1] == steps[k];
        }
      }
      assert SomeStepIn(steps[1..], st) ==> SomeStepIn(steps, st) by {
        if SomeStepIn(steps[1..], st) {
          var k :| 0 <= k < |steps| - 1 && steps[1..][k].state == st;
          assert steps[k + 1] == steps[1..][k];
        }
      }
      r
  }

  /** `steps.every(s => s.state === st)` */
  function EveryStep(steps: seq<Step>, st: StepState): (r: bool)
    ensures r <==> AllStepsIn(steps, st)
  {
    if |steps| == 0 then true
    else if steps[0].state != st then false
    else
      var r := EveryStep(steps[1..], st);
      assert AllStepsIn(steps[1..], st) ==> AllStepsIn(steps, st) by {
        if AllStepsIn(steps[1..], st) {
          forall k | 0 < k < |steps| ensures steps[k].state == st {
            assert steps[k] == steps[1..][k - 1];
          }
        }
      }
      r
  }

  /**
   * The workflow state derived from step and approval facts, highest
   * precedence first: a rejected approval, a failed step, all steps done,
   * a waiting step, a ready step, otherwise pending.
   */
  function DeriveState(steps: seq<Step>, approvals: seq<Approval>): (r: WorkflowState)
    ensures r == WorkflowState.Rejected <==> SomeRejected(approvals)
    ensures r == WorkflowState.Failed <==>
      !SomeRejected(approvals) && SomeStepIn(steps, StepState.Failed)
    ensures r == WorkflowState.Done <==>
      !SomeRejected(approvals) && !SomeStepIn(steps, StepState.Failed) && AllStepsIn(steps, StepState.Done)
    ensures r == WorkflowState.WaitingApproval <==>
      !SomeRejected(approvals) && !SomeStepIn(steps, StepState.Failed) && !AllStepsIn(steps, StepState.Done)
      && SomeStepIn(steps, StepState.Waiting)
    ensures r == WorkflowState.Running <==>
      !SomeRejected(approvals) && !SomeStepIn(steps, StepState.Failed) && !AllStepsIn(steps, StepState.Done)
      && !SomeStepIn(steps, StepState.Waiting) && SomeStepIn(steps, StepState.Ready)
    ensures r == WorkflowState.Pending <==>
      !SomeRejected(approvals) && !SomeStepIn(steps, StepState.Failed) && !AllStepsIn(steps, StepState.Done)
      && !SomeStepIn(steps, StepState.Waiting) && !SomeStepIn(steps, StepState.Ready)
  {
    if AnyRejected(approvals) then WorkflowState.Rejected
    else if AnyStep(steps, StepState.Failed) then WorkflowState.Failed
    else if EveryStep(steps, StepState.Done) then WorkflowState.Done
    else if AnyStep(steps, StepState.Waiting) then WorkflowState.WaitingApproval
    else if AnyStep(steps, StepState.Ready) then WorkflowState.Running
    else WorkflowState.Pending
  }

  /** The approvals of one workflow (`include: { approvals: true }`), in table order. */
  function ApprovalsOf(all: seq<Approval>, wid: string): (r: seq<Approval>)
    ensures forall a :: a in r <==> a in all && a.workflowId == wid
    decreases |all|
  {
    if |all| == 0 then []
    else
      var init := all[..|all| - 1];
      var last := all[|all| - 1];
      assert all == init + [last];
      ApprovalsOf(init, wid) + (if last.workflowId == wid then [last] else [])
  }

  /** A rejected approval of the workflow makes its derived state REJECTED. */
  lemma RejectionWins(steps: seq<Step>, all: seq<Approval>, wid: string, k: nat)
    requires k < |all| && all[k].workflowId == wid && all[k].status == ApprovalStatus.Rejected
    ensures DeriveState(steps, ApprovalsOf(all, wid)) == WorkflowState.Rejected
  {
    var mine := ApprovalsOf(all, wid);
    assert all[k] in mine;
    var j :| 0 <= j < |mine| && mine[j] == all[k];
    assert SomeRejected(mine);
  }

  // ---------------------------------------------------------------------
  // The AUTO action 'validate_data'
  // ---------------------------------------------------------------------

  const AmountLimit: int := 10000

  /**
   * The error an AUTO step's action throws, if any: only 'validate_data'
   * can fail, on an amount above the limit or a missing description.
   */
  function AutoError(action: Option<string>, m: Metadata): Option<string> {
    if action == Some("validate_data") then
      if m.amount.Some? && m.amount.value > AmountLimit then Some("Amount exceeds maximum limit of $10,000")
      else if !Truthy(m.description) then Some("Description is required")
      else None
    else None
  }

  /** The 'validate_data' rule: fails exactly on amount > 10000 or a missing description. */
  lemma ValidateDataRule(action: Option<string>, m: Metadata)
    ensures AutoError(action, m).Some? <==>
      action == Some("validate_data") && ((m.amount.Some? && m.amount.value > 10000) || !Truthy(m.description))
    ensures action == Some("validate_data") && m.amount == Some(10000) && Truthy(m.description) ==>
      AutoError(action, m).None?
    ensures action != Some("validate_data") ==> AutoError(action, m).None?
  {
  }

  // ---------------------------------------------------------------------
  // Step-shape validation
  // ---------------------------------------------------------------------

  function ParseKind(k: string): (r: Option<StepKind>)
    ensures r == Some(StepKind.Auto) <==> k == "AUTO"
    ensures r == Some(StepKind.Human) <==> k == "HUMAN"
  {
    if k == "AUTO" then Some(StepKind.Auto)
    else if k == "HUMAN" then Some(StepKind.Human)
    else None
  }

  /** A template meets every shape rule for position `index`. */
  predicate StepShapeOk(step: StepDef, index: nat) {
    && ParseKind(step.kind).Some?
    && (step.kind == "HUMAN" ==> step.config.Some? && Truthy(step.config.value.channel))
    && (step.idx.None? || step.idx.value == index)
  }

  function KindMissingMessage(index: nat): string {
    "Step " + NatToString(index) + " must have a 'kind' property (AUTO or HUMAN)"
  }

  function InvalidKindMessage(index: nat, kind: string): string {
    "Step " + NatToString(index) + " has invalid kind: " + kind + ". Must be AUTO or HUMAN"
  }

  function ChannelMissingMessage(index: nat): string {
    "Step " + NatToString(index) + " (HUMAN) must have a channel in config"
  }

  function IndexMismatchMessage(index: nat, idx: int): string {
    "Step index mismatch: expected " + NatToString(index) + ", got " + IntToString(idx)
  }

  const NotArrayMessage := "Workflow steps must be an array"
  const NoStepsMessage := "Workflow must have at least one step"

  /** The first shape check a template fails, in the order the validator applies them. */
  function StepShapeError(step: StepDef, index: nat): (r: Option<string>)
    ensures r.None? <==> StepShapeOk(step, index)
  {
    if step.kind == "" then Some(KindMissingMessage(index))
    else if ParseKind(step.kind).None? then Some(InvalidKindMessage(index, step.kind))
    else if step.kind == "HUMAN" && !(step.config.Some? && Truthy(step.config.value.channel)) then
      Some(ChannelMissingMessage(index))
    else if step.idx.Some? && step.idx.value != index then Some(IndexMismatchMessage(index, step.idx.value))
    else None
  }

  /** The `forEach` over the templates: the error of the first offending position. */
  function FirstShapeError(steps: seq<StepDef>, from: nat): Option<string>
    requires from <= |steps|
    decreases |steps| - from
  {
    if from == |steps| then None
    else match StepShapeError(steps[from], from)
      case Some(e) => Some(e)
      case None => FirstShapeError(steps, from + 1)
  }

  /** The scan finds no error exactly when every template from `from` on is well shaped, else the first one's. */
  lemma {:induction false} FirstShapeErrorIsFirst(steps: seq<StepDef>, from: nat)
    requires from <= |steps|
    ensures var r := FirstShapeError(steps, from);
      && (r.None? <==> forall i | from <= i < |steps| :: StepShapeOk(steps[i], i))
      && (r.Some? ==> exists i | from <= i < |steps| ::
            r == StepShapeError(steps[i], i) && forall j | from <= j < i :: StepShapeOk(steps[j], j))
    decreases |steps| - from
  {
    if from < |steps| && StepShapeError(steps[from], from).None? {
      FirstShapeErrorIsFirst(steps, from + 1);
      var r := FirstShapeError(steps, from);
      if r.Some? {
        var i :| from + 1 <= i < |steps| && r == StepShapeError(steps[i], i) && forall j | from + 1 <= j < i :: StepShapeOk(steps[j], j);
        assert forall j | from <= j < i :: StepShapeOk(steps[j], j);
      }
    }
  }

  /**
   * `validateWorkflowSteps`: an array, non-empty, every element with a
   * kind in {AUTO, HUMAN}, a channel when HUMAN, and an idx that is absent
   * or equal to its position; otherwise the first error.
   */
  function ValidateWorkflowSteps(steps: StepsField): (r: Outcome)
    ensures r.Pass? <==>
      steps.Items? && |steps.items| > 0 && forall i | 0 <= i < |steps.items| :: StepShapeOk(steps.items[i], i)
    ensures !steps.Items? ==> r == Fail(NotArrayMessage)
    ensures steps == Items([]) ==> r == Fail(NoStepsMessage)
    ensures steps.Items? && |steps.items| > 0 && r.Fail? ==>
      exists i | 0 <= i < |steps.items| ::
        Some(r.error) == StepShapeError(steps.items[i], i) && forall j | 0 <= j < i :: StepShapeOk(steps.items[j], j)
  {
    match steps
    case Items(items) =>
      FirstShapeErrorIsFirst(items, 0);
      if |items| == 0 then Fail(NoStepsMessage)
      else (match FirstShapeError(items, 0)
        case None => Pass
        case Some(e) => Fail(e))
    case _ => Fail(NotArrayMessage)
  }

  // ---------------------------------------------------------------------
  // Definitions and versions
  // ---------------------------------------------------------------------

  /** The active definition of the highest version for a name (`findFirst ... orderBy version desc`). */
  function LatestActive(defs: seq<Definition>, name: string): (r: Option<Definition>)
    ensures r.Some? ==> r.value in defs && r.value.name == name && r.value.isActive
    ensures r.Some? ==> forall d | d in defs && d.name == name && d.isActive :: d.version <= r.value.version
    ensures r.None? <==> forall d | d in defs :: !(d.name == name && d.isActive)
    decreases |defs|
  {
    if |defs| == 0 then None
    else
      var init := defs[..|defs| - 1];
      var d := defs[|defs| - 1];
      assert defs == init + [d];
      var rest := LatestActive(init, name);
      if d.name == name && d.isActive && (rest.None? || d.version > rest.value.version) then Some(d) else rest
  }

  /** The highest stored version for a name, active or not. */
  function LatestVersion(defs: seq<Definition>, name: string): (r: Option<int>)
    ensures r.Some? ==> exists d | d in defs :: d.name == name && d.version == r.value
    ensures r.Some? ==> forall d | d in defs && d.name == name :: d.version <= r.value
    ensures r.None? <==> forall d | d in defs :: d.name != name
    decreases |defs|
  {
    if |defs| == 0 then None
    else
      var init := defs[..|defs| - 1];
      var d := defs[|defs| - 1];
      assert defs == init + [d];
      var rest := LatestVersion(init, name);
      if d.name == name && (rest.None? || d.version > rest.value) then Some(d.version) else rest
  }

  /** `existing ? existing.version + 1 : 1` */
  function NextVersion(defs: seq<Definition>, name: string): (v: int)
    ensures forall d | d in defs && d.name == name :: d.version < v
    ensures (forall d | d in defs :: d.name != name) ==> v == 1
    ensures (exists d | d in defs :: d.name == name) ==>
      exists d | d in defs && d.name == name :: v == d.version + 1
  {
    match LatestVersion(defs, name)
    case None => 1
    case Some(latest) => latest + 1
  }

  /** A newly stored active definition is the one later workflow creation resolves to. */
  lemma NewDefinitionIsLatest(defs: seq<Definition>, d: Definition)
    requires d.isActive && d.version == NextVersion(defs, d.name)
    ensures LatestActive(defs + [d], d.name) == Some(d)
  {
    var all := defs + [d];
    assert all[..|all| - 1] == defs;
    var rest := LatestActive(defs, d.name);
    if rest.Some? {
      assert rest.value in defs;
    }
  }

  /** Definition row for a stored name, as the creation code builds it. */
  function NewDefinition(defs: seq<Definition>, name: string, description: Option<string>, steps: seq<StepDef>): Definition {
    Definition(name, NextVersion(defs, name), description, steps, true)
  }

  // ---------------------------------------------------------------------
  // Workflow instantiation
  // ---------------------------------------------------------------------

  /** One step row built from a template; replay and execute are allowed, nothing stamped. */
  function InstantiateStep(wid: string, def: StepDef, i: nat, kind: StepKind): Step {
    Step(StepId(wid, i), i, kind, StepState.Ready, def.config.GetOr(EmptyConfig),
         if Truthy(def.compensating) then def.compensating else None, 0, true, true, None, None)
  }

  /**
   * The step rows of a new workflow, one per template, or None when a
   * template's kind is not a StepKind (the store refuses the row).
   */
  function Instantiate(wid: string, defs: seq<StepDef>): (r: Option<seq<Step>>)
    ensures r.Some? <==> forall i | 0 <= i < |defs| :: ParseKind(defs[i].kind).Some?
    ensures r.Some? ==> |r.value| == |defs| && Indexed(wid, r.value)
    ensures r.Some? ==> forall i | 0 <= i < |defs| ::
      && Some(r.value[i].kind) == ParseKind(defs[i].kind)
      && r.value[i].state == StepState.Ready
      && r.value[i].config == defs[i].config.GetOr(EmptyConfig)
      && r.value[i].compensating == (if Truthy(defs[i].compensating) then defs[i].compensating else None)
  {
    if forall i | 0 <= i < |defs| :: ParseKind(defs[i].kind).Some? then
      Some(seq(|defs|, i requires 0 <= i < |defs| => InstantiateStep(wid, defs[i], i, ParseKind(defs[i].kind).value)))
    else None
  }

  // ---------------------------------------------------------------------
  // One workflow with the approval and event tables
  // ---------------------------------------------------------------------

  datatype Ledger = Ledger(wf: Workflow, approvals: seq<Approval>, events: seq<Event>)

  function SetStep(l: Ledger, i: nat, s: Step): Ledger
    requires i < |l.wf.steps|
  {
    l.(wf := l.wf.(steps := l.wf.steps[i := s]))
  }

  /** `config?.channel || 'web'` */
  function ChannelFor(c: StepConfig): string {
    if Truthy(c.channel) then c.channel.value else "web"
  }

  /** The pending approval `createApprovalRequest` stores for a HUMAN step. */
  function NewApproval(wid: string, s: Step, token: string, now: Time): Approval {
    Approval(wid, s.id, ChannelFor(s.config), token, ApprovalStatus.Pending, now + ApprovalTtl)
  }

  function ApprovalRequestedEvent(wid: string, s: Step, approvalId: nat, a: Approval): Event {
    Event(wid, ApprovalRequested(approvalId, a.channel, a.token), Payload(Some(s.id), None))
  }

  function StepFailedEvent(wid: string, s: Step, msg: string): Event {
    Event(wid, StepFailed(Some(s.idx), msg), Payload(Some(s.id), None))
  }

  /**
   * `executeCompensation`: nothing without a descriptor; otherwise the
   * outcome of the compensating action decides between the two events.
   */
  function CompensationEvents(wid: string, s: Step, comp: Outcome): seq<Event> {
    if !Truthy(s.compensating) then []
    else match comp
      case Pass => [Event(wid, CompensationExecuted(s.compensating.value), Payload(Some(s.id), None))]
      case Fail(e) => [Event(wid, CompensationFailed(e), Payload(Some(s.id), None))]
  }

  /**
   * Compensation adds exactly one event when a descriptor exists and none
   * otherwise; a failing compensation is recorded, never re-thrown.
   */
  lemma CompensationOnlyWithDescriptor(wid: string, s: Step, comp: Outcome)
    ensures |CompensationEvents(wid, s, comp)| == if Truthy(s.compensating) then 1 else 0
    ensures Truthy(s.compensating) && comp.Fail? ==>
      CompensationEvents(wid, s, comp)[0].kind == CompensationFailed(comp.error)
    ensures Truthy(s.compensating) && comp.Pass? ==>
      CompensationEvents(wid, s, comp)[0].kind == CompensationExecuted(s.compensating.value)
  {
  }

  /** A second update of the same key overrides the first. */
  lemma MapOverwrite<K, V>(m: map<K, V>, k: K, a: V, b: V)
    ensures m[k := a][k := b] == m[k := b]
  {
  }

  /** The position of the step with id `id` in its workflow, if the step exists. */
  function Locate(workflows: map<string, Workflow>, id: StepId): (r: Option<nat>)
    ensures r.Some? ==> id.workflow in workflows && r.value < |workflows[id.workflow].steps|
    ensures r.Some? ==> workflows[id.workflow].steps[r.value].id == id
  {
    if id.workflow in workflows then FindStep(workflows[id.workflow].steps, id) else None
  }

  /** In a store whose steps are in index order, a step id names its workflow and position. */
  lemma LocateIndexed(workflows: map<string, Workflow>, id: StepId)
    requires forall wid | wid in workflows :: Indexed(wid, workflows[wid].steps)
    ensures Locate(workflows, id) ==
      if id.workflow in workflows && id.position < |workflows[id.workflow].steps| then Some(id.position) else None
  {
    if id.workflow in workflows {
      FindIndexedStep(id.workflow, workflows[id.workflow].steps, id.position);
      assert id == StepId(id.workflow, id.position);
    }
  }

  /** Reference semantics of `executeStep` on the step at position `i`. */
  function RunStep(l: Ledger, wid: string, i: nat, token: string, now: Time, comp: Outcome): (r: (Ledger, Outcome))
    requires i < |l.wf.steps|
    ensures |r.0.wf.steps| == |l.wf.steps|
  {
    var s := l.wf.steps[i];
    match s.kind
    case Auto =>
      (match AutoError(s.config.action, l.wf.metadata)
       case None => (SetStep(l, i, s.(state := StepState.Done)), Pass)
       case Some(msg) =>
         (SetStep(l, i, s.(state := StepState.Failed))
            .(events := l.events + [StepFailedEvent(wid, s, msg)] + CompensationEvents(wid, s, comp)),
          Fail(msg)))
    case Human =>
      var a := NewApproval(wid, s, token, now);
      (SetStep(l, i, s.(state := StepState.Waiting))
         .(approvals := l.approvals + [a],
           events := l.events + [ApprovalRequestedEvent(wid, s, |l.approvals|, a)]),
       Pass)
  }

  /** Reference semantics of the loop of `executeWorkflow`, from position `i` on. */
  function RunWorkflow(l: Ledger, wid: string, i: nat, token: string, now: Time, comp: Outcome): (r: (Ledger, Outcome))
    requires i <= |l.wf.steps|
    decreases |l.wf.steps| - i
  {
    if i == |l.wf.steps| then (l, Pass)
    else if l.wf.steps[i].state == StepState.Done then RunWorkflow(l, wid, i + 1, token, now, comp)
    else
      var (l1, o) := RunStep(l, wid, i, token, now, comp);
      if o.Fail? then (l1, o)
      else if l1.wf.steps[i].state == StepState.Waiting then (l1, Pass)
      else RunWorkflow(l1, wid, i + 1, token, now, comp)
  }

  /** One iteration of the execution loop at a step that is not DONE. */
  lemma RunWorkflowUnfold(l: Ledger, wid: string, i: nat, token: string, now: Time, comp: Outcome)
    requires i < |l.wf.steps| && l.wf.steps[i].state != StepState.Done
    ensures
      var (l1, o) := RunStep(l, wid, i, token, now, comp);
      RunWorkflow(l, wid, i, token, now, comp) ==
        if o.Fail? then (l1, o)
        else if l1.wf.steps[i].state == StepState.Waiting then (l1, Pass)
        else RunWorkflow(l1, wid, i + 1, token, now, comp)
  {
  }

  /** Reference semantics of `updateWorkflowState`. */
  function UpdateStateSpec(l: Ledger, wid: string): Ledger {
    var ns := DeriveState(l.wf.steps, ApprovalsOf(l.approvals, wid));
    l.(wf := l.wf.(state := ns),
       events := l.events + if l.wf.state != ns then [Event(wid, WorkflowStateChanged(l.wf.state, ns), NoPayload)] else [])
  }

  /** Reference semantics of `executeWorkflow`: the loop, then the state recomputation unless a step threw. */
  function ExecuteSpec(l: Ledger, wid: string, token: string, now: Time, comp: Outcome): (Ledger, Outcome) {
    var (l1, o) := RunWorkflow(l, wid, 0, token, now, comp);
    if o.Fail? then (l1, o) else (UpdateStateSpec(l1, wid), Pass)
  }

  /** Recomputing the state a second time changes nothing and logs nothing. */
  lemma RecomputeIsIdempotent(l: Ledger, wid: string)
    ensures UpdateStateSpec(UpdateStateSpec(l, wid), wid) == UpdateStateSpec(l, wid)
    ensures |UpdateStateSpec(l, wid).events| == |l.events| + (if l.wf.state != UpdateStateSpec(l, wid).wf.state then 1 else 0)
  {
  }

  // ---------------------------------------------------------------------
  // Closed form of the execution loop
  // ---------------------------------------------------------------------

  /** A step the loop stops at: not DONE, and HUMAN or an AUTO step whose action fails. */
  predicate Halts(s: Step, m: Metadata) {
    s.state != StepState.Done && (s.kind == StepKind.Human || AutoError(s.config.action, m).Some?)
  }

  /** The first position at or after `from` where the loop stops, or the step count. */
  function HaltIndex(steps: seq<Step>, m: Metadata, from: nat): (h: nat)
    requires from <= |steps|
    ensures from <= h <= |steps|
    ensures forall j | from <= j < h :: !Halts(steps[j], m)
    ensures h < |steps| ==> Halts(steps[h], m)
    decreases |steps| - from
  {
    if from == |steps| then from
    else if Halts(steps[from], m) then from
    else HaltIndex(steps, m, from + 1)
  }

  lemma {:induction false} HaltIndexFrame(s1: seq<Step>, s2: seq<Step>, m: Metadata, from: nat)
    requires from <= |s1| == |s2|
    requires forall j | from <= j < |s1| :: s1[j] == s2[j]
    ensures HaltIndex(s1, m, from) == HaltIndex(s2, m, from)
    decreases |s1| - from
  {
    if from < |s1| {
      HaltIndexFrame(s1, s2, m, from + 1);
    }
  }

  /**
   * The steps after the loop: positions from..h-1 DONE, the halting step
   * WAITING (HUMAN) or FAILED (AUTO), every other step as it was.
   */
  function Executed(steps: seq<Step>, from: nat, h: nat): (r: seq<Step>)
    requires from <= h <= |steps|
    ensures |r| == |steps|
  {
    seq(|steps|, j requires 0 <= j < |steps| =>
      if from <= j < h then steps[j].(state := StepState.Done)
      else if j == h then steps[j].(state := if steps[j].kind == StepKind.Human then StepState.Waiting else StepState.Failed)
      else steps[j])
  }

  /** The whole ledger after the loop from `from`, in closed form. */
  function Halted(l: Ledger, wid: string, from: nat, token: string, now: Time, comp: Outcome): (r: (Ledger, Outcome))
    requires from <= |l.wf.steps|
  {
    var steps := l.wf.steps;
    var h := HaltIndex(steps, l.wf.metadata, from);
    var wf := l.wf.(steps := Executed(steps, from, h));
    if h == |steps| then (Ledger(wf, l.approvals, l.events), Pass)
    else
      var s := steps[h];
      match s.kind
      case Human =>
        var a := NewApproval(wid, s, token, now);
        (Ledger(wf, l.approvals + [a], l.events + [ApprovalRequestedEvent(wid, s, |l.approvals|, a)]), Pass)
      case Auto =>
        var msg := AutoError(s.config.action, l.wf.metadata).value;
        (Ledger(wf, l.approvals, l.events + [StepFailedEvent(wid, s, msg)] + CompensationEvents(wid, s, comp)), Fail(msg))
  }

  /** Skipping a DONE step leaves the closed form unchanged. */
  lemma HaltedSkipsDone(l: Ledger, wid: string, i: nat, token: string, now: Time, comp: Outcome)
    requires i < |l.wf.steps| && l.wf.steps[i].state == StepState.Done
    requires RunWorkflow(l, wid, i + 1, token, now, comp) == Halted(l, wid, i + 1, token, now, comp)
    ensures RunWorkflow(l, wid, i, token, now, comp) == Halted(l, wid, i, token, now, comp)
  {
    var steps := l.wf.steps;
    var h := HaltIndex(steps, l.wf.metadata, i);
    assert h == HaltIndex(steps, l.wf.metadata, i + 1);
    assert Executed(steps, i, h) == Executed(steps, i + 1, h);
  }

  /** A step the loop runs without stopping ends DONE and the loop goes on from the next. */
  lemma HaltedPassesOn(l: Ledger, wid: string, i: nat, token: string, now: Time, comp: Outcome)
    requires i < |l.wf.steps| && l.wf.steps[i].state != StepState.Done && !Halts(l.wf.steps[i], l.wf.metadata)
    requires var l1 := RunStep(l, wid, i, token, now, comp).0;
      RunWorkflow(l1, wid, i + 1, token, now, comp) == Halted(l1, wid, i + 1, token, now, comp)
    ensures RunWorkflow(l, wid, i, token, now, comp) == Halted(l, wid, i, token, now, comp)
  {
    var steps := l.wf.steps;
    var m := l.wf.metadata;
    var l1 := RunStep(l, wid, i, token, now, comp).0;
    assert l1 == SetStep(l, i, steps[i].(state := StepState.Done));
    HaltIndexFrame(steps, l1.wf.steps, m, i + 1);
    var h := HaltIndex(steps, m, i);
    assert h == HaltIndex(l1.wf.steps, m, i + 1);
    assert Executed(steps, i, h) == Executed(l1.wf.steps, i + 1, h);
  }

  /** The execution loop equals its closed form. */
  lemma {:induction false} RunWorkflowShape(l: Ledger, wid: string, i: nat, token: string, now: Time, comp: Outcome)
    requires i <= |l.wf.steps|
    ensures RunWorkflow(l, wid, i, token, now, comp) == Halted(l, wid, i, token, now, comp)
    decreases |l.wf.steps| - i
  {
    if i == |l.wf.steps| {
      assert Executed(l.wf.steps, i, i) == l.wf.steps;
    } else if l.wf.steps[i].state == StepState.Done {
      RunWorkflowShape(l, wid, i + 1, token, now, comp);
      HaltedSkipsDone(l, wid, i, token, now, comp);
    } else if !Halts(l.wf.steps[i], l.wf.metadata) {
      RunWorkflowShape(RunStep(l, wid, i, token, now, comp).0, wid, i + 1, token, now, comp);
      HaltedPassesOn(l, wid, i, token, now, comp);
    } else {
      RunWorkflowStops(l, wid, i, token, now, comp);
    }
  }

  /** At a halting step the loop ends with that step's outcome. */
  lemma RunWorkflowStops(l: Ledger, wid: string, i: nat, token: string, now: Time, comp: Outcome)
    requires i < |l.wf.steps| && Halts(l.wf.steps[i], l.wf.metadata)
    ensures RunWorkflow(l, wid, i, token, now, comp) == Halted(l, wid, i, token, now, comp)
  {
    var steps := l.wf.steps;
    var s := steps[i];
    assert HaltIndex(steps, l.wf.metadata, i) == i;
    var st := if s.kind == StepKind.Human then StepState.Waiting else StepState.Failed;
    assert Executed(steps, i, i) == steps[i := s.(state := st)];
    RunStepEffects(l, wid, i, token, now, comp);
  }

  /**
   * The steps after one `executeWorkflow`: DONE steps are left as they
   * are, every step before the halting one ends DONE, later steps are
   * untouched, and the metadata and the cursor never change.
   */
  lemma ExecuteStepEffects(l: Ledger, wid: string, token: string, now: Time, comp: Outcome)
    ensures
      var l' := ExecuteSpec(l, wid, token, now, comp).0;
      var steps := l.wf.steps;
      var n := |steps|;
      var h := HaltIndex(steps, l.wf.metadata, 0);
      && |l'.wf.steps| == n
      && (forall j | 0 <= j < n && steps[j].state == StepState.Done :: l'.wf.steps[j] == steps[j])
      && (forall j | 0 <= j < h :: l'.wf.steps[j] == steps[j].(state := StepState.Done))
      && (forall j | h < j < n :: l'.wf.steps[j] == steps[j])
      && l'.wf.metadata == l.wf.metadata
      && l'.wf.currentStepIndex == l.wf.currentStepIndex
  {
    RunWorkflowShape(l, wid, 0, token, now, comp);
  }

  /**
   * The halting step of one `executeWorkflow`: it ends WAITING with
   * exactly one new pending approval (24h, channel from the config or
   * 'web') or FAILED with the error re-thrown; old approvals are
   * untouched, and the state is recomputed only when no step threw.
   */
  lemma ExecuteHaltEffects(l: Ledger, wid: string, token: string, now: Time, comp: Outcome)
    ensures
      var (l', o) := ExecuteSpec(l, wid, token, now, comp);
      var steps := l.wf.steps;
      var n := |steps|;
      var h := HaltIndex(steps, l.wf.metadata, 0);
      && |l'.wf.steps| == n
      && |l'.approvals| >= |l.approvals|
      && l'.approvals[..|l.approvals|] == l.approvals
      && (h < n && steps[h].kind == StepKind.Human ==>
            && l'.wf.steps[h] == steps[h].(state := StepState.Waiting)
            && l'.approvals == l.approvals + [NewApproval(wid, steps[h], token, now)]
            && l'.approvals[|l.approvals|].status == ApprovalStatus.Pending
            && l'.approvals[|l.approvals|].expiresAt == now + ApprovalTtl
            && l'.approvals[|l.approvals|].channel == ChannelFor(steps[h].config)
            && o.Pass?)
      && (h < n && steps[h].kind == StepKind.Auto ==>
            && l'.wf.steps[h] == steps[h].(state := StepState.Failed)
            && l'.approvals == l.approvals
            && l'.wf.state == l.wf.state
            && o == Fail(AutoError(steps[h].config.action, l.wf.metadata).value)
            && l'.events == l.events + [StepFailedEvent(wid, steps[h], o.error)] + CompensationEvents(wid, steps[h], comp))
      && (h == n ==> l'.approvals == l.approvals && o.Pass?)
      && (o.Pass? ==> l'.wf.state == DeriveState(l'.wf.steps, ApprovalsOf(l'.approvals, wid)))
  {
    RunWorkflowShape(l, wid, 0, token, now, comp);
    var l1 := RunWorkflow(l, wid, 0, token, now, comp).0;
    assert l1.approvals[..|l.approvals|] == l.approvals;
  }

  /** A run that stops at a HUMAN step leaves the workflow WAITING_APPROVAL (no rejection, no failure before). */
  lemma SuspendedWorkflowWaits(l: Ledger, wid: string, token: string, now: Time, comp: Outcome)
    requires var h := HaltIndex(l.wf.steps, l.wf.metadata, 0); h < |l.wf.steps| && l.wf.steps[h].kind == StepKind.Human
    requires !SomeRejected(ApprovalsOf(l.approvals, wid))
    requires forall j | 0 <= j < |l.wf.steps| :: l.wf.steps[j].state != StepState.Failed
    ensures ExecuteSpec(l, wid, token, now, comp).0.wf.state == WorkflowState.WaitingApproval
  {
    ExecuteStepEffects(l, wid, token, now, comp);
    ExecuteHaltEffects(l, wid, token, now, comp);
    var (l', o) := ExecuteSpec(l, wid, token, now, comp);
    var h := HaltIndex(l.wf.steps, l.wf.metadata, 0);
    var a := NewApproval(wid, l.wf.steps[h], token, now);
    assert l'.approvals == l.approvals + [a];
    ApprovalsAppend(l.approvals, a, wid);
    assert !SomeRejected(ApprovalsOf(l'.approvals, wid)) by {
      var mine := ApprovalsOf(l'.approvals, wid);
      forall k | 0 <= k < |mine| ensures mine[k].status != ApprovalStatus.Rejected {
        if k < |ApprovalsOf(l.approvals, wid)| {
          assert mine[k] == ApprovalsOf(l.approvals, wid)[k];
        }
      }
    }
    assert l'.wf.steps[h].state == StepState.Waiting;
    assert !SomeStepIn(l'.wf.steps, StepState.Failed) by {
      forall j | 0 <= j < |l'.wf.steps| ensures l'.wf.steps[j].state != StepState.Failed {
        if j < h { } else if j == h { } else { assert l'.wf.steps[j] == l.wf.steps[j]; }
      }
    }
  }

  /** A run in which no step stops ends DONE when no approval is rejected. */
  lemma AllPassingStepsFinish(l: Ledger, wid: string, token: string, now: Time, comp: Outcome)
    requires HaltIndex(l.wf.steps, l.wf.metadata, 0) == |l.wf.steps|
    requires !SomeRejected(ApprovalsOf(l.approvals, wid))
    ensures ExecuteSpec(l, wid, token, now, comp).0.wf.state == WorkflowState.Done
    ensures ExecuteSpec(l, wid, token, now, comp).1 == Pass
  {
    ExecuteStepEffects(l, wid, token, now, comp);
    ExecuteHaltEffects(l, wid, token, now, comp);
    var l' := ExecuteSpec(l, wid, token, now, comp).0;
    assert AllStepsIn(l'.wf.steps, StepState.Done);
    assert !SomeStepIn(l'.wf.steps, StepState.Failed) by {
      forall j | 0 <= j < |l'.wf.steps| ensures l'.wf.steps[j].state != StepState.Failed {
        assert l'.wf.steps[j].state == StepState.Done;
      }
    }
  }

  lemma ApprovalsAppend(all: seq<Approval>, a: Approval, wid: string)
    ensures ApprovalsOf(all + [a], wid) == ApprovalsOf(all, wid) + if a.workflowId == wid then [a] else []
  {
    var s := all + [a];
    assert s[..|s| - 1] == all;
  }

  // ---------------------------------------------------------------------
  // executeFromStep: every step from a position on, with no suspension
  // ---------------------------------------------------------------------

  /** Reference semantics of the engine's `executeFromStep` loop. */
  function RunFrom(l: Ledger, wid: string, i: nat, tokens: nat -> string, now: Time, comp: Outcome): (r: (Ledger, Outcome))
    requires i <= |l.wf.steps|
    ensures |r.0.wf.steps| == |l.wf.steps|
    decreases |l.wf.steps| - i
  {
    if i == |l.wf.steps| then (l, Pass)
    else
      var (l1, o) := RunStep(l, wid, i, tokens(i), now, comp);
      if o.Fail? then (l1, o) else RunFrom(l1, wid, i + 1, tokens, now, comp)
  }

  predicate AutoFails(s: Step, m: Metadata) {
    s.kind == StepKind.Auto && AutoError(s.config.action, m).Some?
  }

  /** The first position at or after `from` holding an AUTO step whose action fails. */
  function FailIndex(steps: seq<Step>, m: Metadata, from: nat): (f: nat)
    requires from <= |steps|
    ensures from <= f <= |steps|
    ensures forall j | from <= j < f :: !AutoFails(steps[j], m)
    ensures f < |steps| ==> AutoFails(steps[f], m)
    decreases |steps| - from
  {
    if from == |steps| then from
    else if AutoFails(steps[from], m) then from
    else FailIndex(steps, m, from + 1)
  }

  lemma {:induction false} FailIndexFrame(s1: seq<Step>, s2: seq<Step>, m: Metadata, from: nat)
    requires from <= |s1| == |s2|
    requires forall j | from <= j < |s1| :: s1[j] == s2[j]
    ensures FailIndex(s1, m, from) == FailIndex(s2, m, from)
    decreases |s1| - from
  {
    if from < |s1| {
      FailIndexFrame(s1, s2, m, from + 1);
    }
  }

  /** The number of HUMAN steps in positions lo..hi-1. */
  function HumanCount(steps: seq<Step>, lo: nat, hi: nat): nat
    requires lo <= hi <= |steps|
    decreases hi - lo
  {
    if lo == hi then 0
    else (if steps[lo].kind == StepKind.Human then 1 else 0) + HumanCount(steps, lo + 1, hi)
  }

  lemma {:induction false} HumanCountFrame(s1: seq<Step>, s2: seq<Step>, lo: nat, hi: nat)
    requires lo <= hi <= |s1| == |s2|
    requires forall j | lo <= j < hi :: s1[j].kind == s2[j].kind
    ensures HumanCount(s1, lo, hi) == HumanCount(s2, lo, hi)
    decreases hi - lo
  {
    if lo < hi {
      HumanCountFrame(s1, s2, lo + 1, hi);
    }
  }

  /** The state one `executeStep` leaves a step in. */
  function RunState(s: Step, m: Metadata): StepState {
    if s.kind == StepKind.Human then StepState.Waiting
    else if AutoError(s.config.action, m).Some? then StepState.Failed
    else StepState.Done
  }

  /**
   * One `executeStep`: the step, and nothing else of the workflow, takes
   * its run state; it fails exactly when it is an AUTO step whose action
   * fails; a HUMAN step adds exactly one pending approval.
   */
  lemma RunStepEffects(l: Ledger, wid: string, i: nat, token: string, now: Time, comp: Outcome)
    requires i < |l.wf.steps|
    ensures
      var (l1, o) := RunStep(l, wid, i, token, now, comp);
      var s := l.wf.steps[i];
      && l1.wf == l.wf.(steps := l.wf.steps[i := s.(state := RunState(s, l.wf.metadata))])
      && (o.Fail? <==> AutoFails(s, l.wf.metadata))
      && l1.approvals == l.approvals + (if s.kind == StepKind.Human then [NewApproval(wid, s, token, now)] else [])
  {
  }

  /** The steps after `executeFromStep` from `from`: positions from..f ran, the rest as they were. */
  function FromExecuted(steps: seq<Step>, m: Metadata, from: nat, f: nat): (r: seq<Step>)
    requires from <= f <= |steps|
    ensures |r| == |steps|
  {
    seq(|steps|, j requires 0 <= j < |steps| =>
      if from <= j <= f then steps[j].(state := RunState(steps[j], m)) else steps[j])
  }

  /** Running no position but `i` is setting step `i` to its run state. */
  lemma FromExecutedHead(steps: seq<Step>, m: Metadata, i: nat)
    requires i < |steps|
    ensures FromExecuted(steps, m, i, i) == steps[i := steps[i].(state := RunState(steps[i], m))]
  {
  }

  /** Running position `i` first and then `i + 1..f` is running `i..f`. */
  lemma FromExecutedShift(steps: seq<Step>, m: Metadata, i: nat, f: nat)
    requires i < f <= |steps|
    ensures FromExecuted(steps[i := steps[i].(state := RunState(steps[i], m))], m, i + 1, f) == FromExecuted(steps, m, i, f)
  {
  }

  /**
   * What `executeFromStep` from `i` does to the workflow: positions
   * `i..f` take their run state, where `f` is the first failing AUTO step,
   * and the run passes exactly when there is none.
   */
  predicate RunsFromSteps(l: Ledger, wid: string, i: nat, tokens: nat -> string, now: Time, comp: Outcome)
    requires i <= |l.wf.steps|
  {
    var r := RunFrom(l, wid, i, tokens, now, comp);
    var f := FailIndex(l.wf.steps, l.wf.metadata, i);
    && r.0.wf == l.wf.(steps := FromExecuted(l.wf.steps, l.wf.metadata, i, f))
    && (r.1.Pass? <==> f == |l.wf.steps|)
  }

  /** The failing step ends the run on its own. */
  lemma RunsFromStepsFail(l: Ledger, wid: string, i: nat, tokens: nat -> string, now: Time, comp: Outcome)
    requires i < |l.wf.steps| && RunStep(l, wid, i, tokens(i), now, comp).1.Fail?
    ensures RunsFromSteps(l, wid, i, tokens, now, comp)
  {
    RunStepEffects(l, wid, i, tokens(i), now, comp);
    assert FailIndex(l.wf.steps, l.wf.metadata, i) == i;
    FromExecutedHead(l.wf.steps, l.wf.metadata, i);
  }

  /** A passing step hands over to the run from the next position. */
  lemma RunsFromStepsPass(l: Ledger, wid: string, i: nat, tokens: nat -> string, now: Time, comp: Outcome)
    requires i < |l.wf.steps| && RunStep(l, wid, i, tokens(i), now, comp).1.Pass?
    requires RunsFromSteps(RunStep(l, wid, i, tokens(i), now, comp).0, wid, i + 1, tokens, now, comp)
    ensures RunsFromSteps(l, wid, i, tokens, now, comp)
  {
    var steps := l.wf.steps;
    var m := l.wf.metadata;
    RunStepEffects(l, wid, i, tokens(i), now, comp);
    var l1 := RunStep(l, wid, i, tokens(i), now, comp).0;
    FailIndexFrame(steps, l1.wf.steps, m, i + 1);
    var f := FailIndex(steps, m, i);
    assert f == FailIndex(l1.wf.steps, m, i + 1);
    FromExecutedShift(steps, m, i, f);
  }

  /**
   * `executeFromStep` runs every step from `i` whatever its state: AUTO
   * steps end DONE and HUMAN steps end WAITING without stopping the loop,
   * until the first AUTO step whose action fails, which ends FAILED and
   * stops it with its error; nothing else of the workflow changes.
   */
  lemma {:induction false} RunFromSteps(l: Ledger, wid: string, i: nat, tokens: nat -> string, now: Time, comp: Outcome)
    requires i <= |l.wf.steps|
    ensures RunsFromSteps(l, wid, i, tokens, now, comp)
    decreases |l.wf.steps| - i
  {
    if i == |l.wf.steps| {
      assert FromExecuted(l.wf.steps, l.wf.metadata, i, i) == l.wf.steps;
    } else if RunStep(l, wid, i, tokens(i), now, comp).1.Fail? {
      RunsFromStepsFail(l, wid, i, tokens, now, comp);
    } else {
      RunFromSteps(RunStep(l, wid, i, tokens(i), now, comp).0, wid, i + 1, tokens, now, comp);
      RunsFromStepsPass(l, wid, i, tokens, now, comp);
    }
  }

  /**
   * The approvals `executeFromStep` from `i` adds: one per HUMAN step it
   * ran, after the old rows, which stay as they were, each pending with
   * the 24-hour deadline.
   */
  predicate RunsFromApprovals(l: Ledger, wid: string, i: nat, tokens: nat -> string, now: Time, comp: Outcome)
    requires i <= |l.wf.steps|
  {
    var l' := RunFrom(l, wid, i, tokens, now, comp).0;
    && |l'.approvals| == |l.approvals| + HumanCount(l.wf.steps, i, FailIndex(l.wf.steps, l.wf.metadata, i))
    && l'.approvals[..|l.approvals|] == l.approvals
    && forall k | |l.approvals| <= k < |l'.approvals| ::
         l'.approvals[k].status == ApprovalStatus.Pending && l'.approvals[k].expiresAt == now + ApprovalTtl
  }

  /** The failing step adds no approval. */
  lemma RunsFromApprovalsFail(l: Ledger, wid: string, i: nat, tokens: nat -> string, now: Time, comp: Outcome)
    requires i < |l.wf.steps| && RunStep(l, wid, i, tokens(i), now, comp).1.Fail?
    ensures RunsFromApprovals(l, wid, i, tokens, now, comp)
  {
    RunStepEffects(l, wid, i, tokens(i), now, comp);
    assert FailIndex(l.wf.steps, l.wf.metadata, i) == i;
  }

  /** A passing step adds its own approval, if any, before those of the rest of the run. */
  lemma RunsFromApprovalsPass(l: Ledger, wid: string, i: nat, tokens: nat -> string, now: Time, comp: Outcome)
    requires i < |l.wf.steps| && RunStep(l, wid, i, tokens(i), now, comp).1.Pass?
    requires RunsFromApprovals(RunStep(l, wid, i, tokens(i), now, comp).0, wid, i + 1, tokens, now, comp)
    ensures RunsFromApprovals(l, wid, i, tokens, now, comp)
  {
    var steps := l.wf.steps;
    var m := l.wf.metadata;
    RunStepEffects(l, wid, i, tokens(i), now, comp);
    var l1 := RunStep(l, wid, i, tokens(i), now, comp).0;
    var f := FailIndex(steps, m, i);
    FailIndexFrame(steps, l1.wf.steps, m, i + 1);
    HumanCountFrame(steps, l1.wf.steps, i + 1, f);
    var l' := RunFrom(l1, wid, i + 1, tokens, now, comp).0;
    assert RunFrom(l, wid, i, tokens, now, comp).0 == l';
    assert l1.approvals[..|l.approvals|] == l.approvals;
    assert l'.approvals[..|l.approvals|] == l'.approvals[..|l1.approvals|][..|l.approvals|];
    forall k | |l.approvals| <= k < |l1.approvals|
      ensures l'.approvals[k].status == ApprovalStatus.Pending && l'.approvals[k].expiresAt == now + ApprovalTtl
    {
      assert l'.approvals[k] == l'.approvals[..|l1.approvals|][k];
    }
  }

  /** `executeFromStep` only appends approval rows, one pending row per HUMAN step it ran. */
  lemma {:induction false} RunFromApprovals(l: Ledger, wid: string, i: nat, tokens: nat -> string, now: Time, comp: Outcome)
    requires i <= |l.wf.steps|
    ensures RunsFromApprovals(l, wid, i, tokens, now, comp)
    decreases |l.wf.steps| - i
  {
    if i == |l.wf.steps| {
    } else if RunStep(l, wid, i, tokens(i), now, comp).1.Fail? {
      RunsFromApprovalsFail(l, wid, i, tokens, now, comp);
    } else {
      RunFromApprovals(RunStep(l, wid, i, tokens(i), now, comp).0, wid, i + 1, tokens, now, comp);
      RunsFromApprovalsPass(l, wid, i, tokens, now, comp);
    }
  }

  // ---------------------------------------------------------------------
  // Expiry sweep
  // ---------------------------------------------------------------------

  /** What the sweep's query selects: pending and past its deadline. */
  predicate Overdue(a: Approval, now: Time) {
    a.status == ApprovalStatus.Pending && a.expiresAt < now
  }

  /** The approval table after the sweep: every overdue row expired. */
  function Swept(approvals: seq<Approval>, now: Time): (r: seq<Approval>)
    ensures |r| == |approvals|
  {
    seq(|approvals|, k requires 0 <= k < |approvals| =>
      if Overdue(approvals[k], now) then approvals[k].(status := ApprovalStatus.Expired) else approvals[k])
  }

  function ExpiryEvent(approvals: seq<Approval>, k: nat): Event
    requires k < |approvals|
  {
    Event(approvals[k].workflowId, ApprovalExpired(k), Payload(Some(approvals[k].stepId), None))
  }

  /** The APPROVAL_EXPIRED events of a sweep, in table order. */
  function ExpiryEvents(approvals: seq<Approval>, now: Time): seq<Event>
    decreases |approvals|
  {
    if |approvals| == 0 then []
    else
      var k := |approvals| - 1;
      ExpiryEvents(approvals[..k], now) + if Overdue(approvals[k], now) then [ExpiryEvent(approvals, k)] else []
  }

  function OverdueCount(approvals: seq<Approval>, now: Time): nat
    decreases |approvals|
  {
    if |approvals| == 0 then 0
    else
      var k := |approvals| - 1;
      OverdueCount(approvals[..k], now) + if Overdue(approvals[k], now) then 1 else 0
  }

  lemma {:induction false} ExpiryEventsCount(approvals: seq<Approval>, now: Time)
    ensures |ExpiryEvents(approvals, now)| == OverdueCount(approvals, now)
    decreases |approvals|
  {
    if |approvals| > 0 {
      ExpiryEventsCount(approvals[..|approvals| - 1], now);
    }
  }

  /** Once swept, nothing is overdue: a second sweep at the same time expires nothing. */
  lemma {:induction false} SweepIsIdempotent(approvals: seq<Approval>, now: Time)
    ensures forall k | 0 <= k < |approvals| :: !Overdue(Swept(approvals, now)[k], now)
    ensures Swept(Swept(approvals, now), now) == Swept(approvals, now)
    ensures OverdueCount(Swept(approvals, now), now) == 0
  {
    NoneOverdueCountsZero(Swept(approvals, now), now);
  }

  lemma {:induction false} NoneOverdueCountsZero(approvals: seq<Approval>, now: Time)
    requires forall k | 0 <= k < |approvals| :: !Overdue(approvals[k], now)
    ensures OverdueCount(approvals, now) == 0
    decreases |approvals|
  {
    if |approvals| > 0 {
      NoneOverdueCountsZero(approvals[..|approvals| - 1], now);
    }
  }

  /** The sweep selects exactly the overdue rows: the others are left as they were. */
  lemma SweepSelectsOverdue(approvals: seq<Approval>, now: Time, k: nat)
    requires k < |approvals|
    ensures Overdue(approvals[k], now) ==> Swept(approvals, now)[k].status == ApprovalStatus.Expired
    ensures !Overdue(approvals[k], now) ==> Swept(approvals, now)[k] == approvals[k]
    ensures Swept(approvals, now)[k].token == approvals[k].token
    ensures Swept(approvals, now)[k].expiresAt == approvals[k].expiresAt
  {
  }
}
