/**
 * The step-list editor of the definition form
 * (app/dashboard/component/createDefinitionForm.tsx): each edit maps the
 * current list of step templates to the next one.  Adding, removing and
 * moving keep every `idx` equal to its position, which is the index rule
 * the engine's validator later checks.
 */
module DefinitionForm {
  import opened Types
  import opened WorkflowRules

  /** Config of a new AUTO step. */
  const AutoTemplate := StepConfig(Some("validate_data"), None, None, false, false, false, false)
  /** Config of a new HUMAN step. */
  const HumanTemplate := StepConfig(None, Some("web"), Some("Approval Required"), false, false, false, false)

  function KindName(k: StepKind): string {
    if k == StepKind.Auto then "AUTO" else "HUMAN"
  }

  /** Every template's `idx` is its position. */
  predicate Numbered(steps: seq<StepDef>) {
    forall i | 0 <= i < |steps| :: steps[i].idx == Some(i)
  }

  /** `.map((step, i) => ({ ...step, idx: i }))` */
  function Renumber(steps: seq<StepDef>): (r: seq<StepDef>)
    ensures |r| == |steps| && Numbered(r)
    ensures forall i | 0 <= i < |steps| :: r[i] == steps[i].(idx := Some(i))
  {
    seq(|steps|, i requires 0 <= i < |steps| => steps[i].(idx := Some(i)))
  }

  /** `addStep`: append a template of the given kind at index `|steps|`. */
  function AddStep(steps: seq<StepDef>, kind: StepKind): (r: seq<StepDef>)
    ensures |r| == |steps| + 1 && r[..|steps|] == steps
    ensures r[|steps|].idx == Some(|steps|) && r[|steps|].kind == KindName(kind)
    ensures r[|steps|].config == Some(if kind == StepKind.Auto then AutoTemplate else HumanTemplate)
  {
    steps + [StepDef(Some(|steps|), KindName(kind), Some(if kind == StepKind.Auto then AutoTemplate else HumanTemplate), None)]
  }

  /** A `Partial<WorkflowStepDefinition>`: the fields present in an update. */
  datatype Patch = Patch(idx: Option<Option<int>>, kind: Option<string>, config: Option<Option<StepConfig>>,
                         compensating: Option<Option<string>>)

  /** `{ ...step, ...updates }` */
  function Merge(step: StepDef, p: Patch): StepDef {
    StepDef(p.idx.GetOr(step.idx), p.kind.GetOr(step.kind), p.config.GetOr(step.config), p.compensating.GetOr(step.compensating))
  }

  /** `updateStep`: merge the update into position `index` only (any other index changes nothing). */
  function UpdateStep(steps: seq<StepDef>, index: int, p: Patch): (r: seq<StepDef>)
    ensures |r| == |steps|
    ensures forall i | 0 <= i < |steps| && i != index :: r[i] == steps[i]
    ensures 0 <= index < |steps| ==> r[index] == Merge(steps[index], p)
  {
    seq(|steps|, i requires 0 <= i < |steps| => if i == index then Merge(steps[i], p) else steps[i])
  }

  /** An update that leaves `idx` alone keeps the list numbered. */
  lemma UpdateKeepsNumbering(steps: seq<StepDef>, index: int, p: Patch)
    requires Numbered(steps) && p.idx.None?
    ensures Numbered(UpdateStep(steps, index, p))
  {
    var r := UpdateStep(steps, index, p);
    forall i | 0 <= i < |r| ensures r[i].idx == Some(i) {
      if i == index {
        assert r[i] == Merge(steps[i], p);
      }
    }
  }

  /** `.filter((_, i) => i !== index)` */
  function Without(steps: seq<StepDef>, index: int): seq<StepDef> {
    if 0 <= index < |steps| then steps[..index] + steps[index + 1..] else steps
  }

  /** `removeStep`: drop position `index` and renumber. */
  function RemoveStep(steps: seq<StepDef>, index: int): (r: seq<StepDef>)
    ensures Numbered(r)
    ensures 0 <= index < |steps| ==>
      && |r| == |steps| - 1
      && (forall i | 0 <= i < index :: r[i] == steps[i].(idx := Some(i)))
      && (forall i | index <= i < |r| :: r[i] == steps[i + 1].(idx := Some(i)))
    ensures !(0 <= index < |steps|) ==> |r| == |steps| && forall i | 0 <= i < |r| :: r[i] == steps[i].(idx := Some(i))
  {
    Renumber(Without(steps, index))
  }

  datatype Direction = Up | Down

  /** `splice(index, 0, item)` on an index within the array. */
  function Insert(steps: seq<StepDef>, index: nat, item: StepDef): seq<StepDef>
    requires index <= |steps|
  {
    steps[..index] + [item] + steps[index..]
  }

  function Swap(steps: seq<StepDef>, i: nat, j: nat): seq<StepDef>
    requires i < |steps| && j < |steps|
  {
    steps[i := steps[j]][j := steps[i]]
  }

  /** Taking an element out and putting it back next door exchanges it with its neighbour. */
  lemma SpliceIsSwap(steps: seq<StepDef>, i: nat, j: nat)
    requires i < |steps| && j < |steps| && (j == i + 1 || i == j + 1)
    ensures Insert(Without(steps, i), j, steps[i]) == Swap(steps, i, j)
  {
    var w := Without(steps, i);
    var m := Insert(w, j, steps[i]);
    assert |m| == |steps|;
    forall k | 0 <= k < |steps| ensures m[k] == Swap(steps, i, j)[k] {
      if j == i + 1 {
        if k < i { assert m[k] == w[k]; }
        else if k == i { assert m[k] == w[i] == steps[i + 1]; }
        else if k > j { assert m[k] == w[k - 1] == steps[k]; }
      } else {
        if k < j { assert m[k] == w[k]; }
        else if k == i { assert m[k] == w[k - 1] == steps[k - 1]; }
        else if k > i { assert m[k] == w[k - 1] == steps[k]; }
      }
    }
  }

  /**
   * `moveStep`: nothing at the ends of the list; otherwise splice the step
   * out, back in at its neighbour's position, and renumber.
   */
  function MoveStep(steps: seq<StepDef>, index: int, d: Direction): (r: seq<StepDef>)
    requires 0 <= index < |steps|
    ensures (d == Up && index == 0) || (d == Down && index == |steps| - 1) ==> r == steps
    ensures !((d == Up && index == 0) || (d == Down && index == |steps| - 1)) ==>
      var j := if d == Up then index - 1 else index + 1;
      0 <= j < |steps| && r == Renumber(Swap(steps, index, j))
  {
    if (d == Up && index == 0) || (d == Down && index == |steps| - 1) then steps
    else
      assert d == Down ==> index + 1 < |steps|;
      var j: nat := if d == Up then index - 1 else index + 1;
      SpliceIsSwap(steps, index, j);
      Renumber(Insert(Without(steps, index), j, steps[index]))
  }

  /** A template with its index erased. */
  function Unnumbered(steps: seq<StepDef>): (r: seq<StepDef>)
    ensures |r| == |steps|
    ensures forall i | 0 <= i < |steps| :: r[i] == steps[i].(idx := None)
  {
    seq(|steps|, i requires 0 <= i < |steps| => steps[i].(idx := None))
  }

  /** Exchanging two positions keeps the multiset of elements. */
  lemma SwapKeepsMultiset(u: seq<StepDef>, i: nat, j: nat)
    requires i < |u| && j < |u|
    ensures multiset(Swap(u, i, j)) == multiset(u)
  {
    var v := u[i := u[j]];
    assert multiset(v) == multiset(u) - multiset{u[i]} + multiset{u[j]};
    assert multiset(v[j := u[i]]) == multiset(v) - multiset{v[j]} + multiset{u[i]};
  }

  /** Erasing the numbers of a renumbered swap is swapping the erased list. */
  lemma UnnumberedSwap(steps: seq<StepDef>, i: nat, j: nat)
    requires i < |steps| && j < |steps|
    ensures Unnumbered(Renumber(Swap(steps, i, j))) == Swap(Unnumbered(steps), i, j)
  {
    var l := Unnumbered(Renumber(Swap(steps, i, j)));
    var r := Swap(Unnumbered(steps), i, j);
    forall k | 0 <= k < |steps| ensures l[k] == r[k] {
      assert l[k] == Swap(steps, i, j)[k].(idx := None);
    }
  }

  /** Moving keeps the same templates, only their order and numbers change. */
  lemma MoveKeepsSteps(steps: seq<StepDef>, index: int, d: Direction)
    requires 0 <= index < |steps|
    ensures |MoveStep(steps, index, d)| == |steps|
    ensures multiset(Unnumbered(MoveStep(steps, index, d))) == multiset(Unnumbered(steps))
  {
    if !((d == Up && index == 0) || (d == Down && index == |steps| - 1)) {
      var j: nat := if d == Up then index - 1 else index + 1;
      UnnumberedSwap(steps, index, j);
      SwapKeepsMultiset(Unnumbered(steps), index, j);
    }
  }

  /** `disabled={loading || steps.length === 0 || !formData.name}`, negated. */
  predicate SubmitEnabled(loading: bool, steps: seq<StepDef>, name: string) {
    !loading && |steps| > 0 && name != ""
  }

  /** A template exactly as `addStep` creates it. */
  predicate FromTemplate(d: StepDef) {
    && d.compensating.None?
    && ((d.kind == "AUTO" && d.config == Some(AutoTemplate)) || (d.kind == "HUMAN" && d.config == Some(HumanTemplate)))
  }

  /** A list that adding, removing and moving alone could have produced. */
  predicate FormBuilt(steps: seq<StepDef>) {
    Numbered(steps) && forall i | 0 <= i < |steps| :: FromTemplate(steps[i])
  }

  /** Adding a step keeps a form-built list form-built. */
  lemma AddKeepsFormBuilt(steps: seq<StepDef>, kind: StepKind)
    requires FormBuilt(steps)
    ensures FormBuilt(AddStep(steps, kind))
  {
    var a := AddStep(steps, kind);
    forall i | 0 <= i < |a| ensures a[i].idx == Some(i) && FromTemplate(a[i]) {
      if i < |steps| { assert a[i] == a[..|steps|][i]; }
    }
  }

  /** Renumbering keeps every template's kind, config and compensation. */
  lemma RenumberKeepsTemplates(steps: seq<StepDef>)
    requires forall i | 0 <= i < |steps| :: FromTemplate(steps[i])
    ensures FormBuilt(Renumber(steps))
  {
    var r := Renumber(steps);
    forall i | 0 <= i < |r| ensures FromTemplate(r[i]) {
      assert r[i] == steps[i].(idx := Some(i));
    }
  }

  /** Removing a step keeps a form-built list form-built. */
  lemma RemoveKeepsFormBuilt(steps: seq<StepDef>, index: int)
    requires FormBuilt(steps)
    ensures FormBuilt(RemoveStep(steps, index))
  {
    var w := Without(steps, index);
    forall i | 0 <= i < |w| ensures FromTemplate(w[i]) {
      if 0 <= index < |steps| {
        assert w[i] == if i < index then steps[i] else steps[i + 1];
      }
    }
    RenumberKeepsTemplates(w);
  }

  /** Moving a step keeps a form-built list form-built. */
  lemma MoveKeepsFormBuilt(steps: seq<StepDef>, index: int, d: Direction)
    requires FormBuilt(steps) && 0 <= index < |steps|
    ensures FormBuilt(MoveStep(steps, index, d))
  {
    if !((d == Up && index == 0) || (d == Down && index == |steps| - 1)) {
      var j: nat := if d == Up then index - 1 else index + 1;
      var sw := Swap(steps, index, j);
      forall i | 0 <= i < |sw| ensures FromTemplate(sw[i]) {
        assert sw[i] == if i == j then steps[index] else if i == index then steps[j] else steps[i];
      }
      RenumberKeepsTemplates(sw);
    }
  }

  /** The submit button being enabled on such a list means the validator will accept its steps. */
  lemma SubmittedFormPassesValidation(loading: bool, steps: seq<StepDef>, name: string)
    requires FormBuilt(steps) && SubmitEnabled(loading, steps, name)
    ensures ValidateWorkflowSteps(Items(steps)) == Pass
  {
    forall i | 0 <= i < |steps| ensures StepShapeOk(steps[i], i) {
      assert FromTemplate(steps[i]);
    }
  }
}
