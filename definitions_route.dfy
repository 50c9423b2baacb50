/**
 * The POST handler of the definitions endpoint
 * (app/api/workflow-definitions/route.ts): required fields, step
 * validation before any storage, the next version for the name, and the
 * mapping of a thrown error to an HTTP status.
 */
module DefinitionsRoute {
  import opened Types
  import opened Strings
  import opened WorkflowRules
  import opened Persistence

  datatype Body = CreatedBody(definition: Definition) | ErrorBody(message: string)
  datatype Response = Response(status: int, body: Body)

  const RequiredFieldsMessage := "Name and steps are required fields"
  const InternalError := "Internal Server Error"

  /** `if (!name || !steps)`: an empty name or a falsy steps value. */
  predicate MissingFields(name: string, steps: StepsField) {
    name == "" || steps.Absent?
  }

  /** The catch block: an error mentioning "validation" is the client's fault, anything else the server's. */
  function ErrorResponse(message: string): (r: Response)
    ensures r.status == 400 <==> Contains(message, "validation")
    ensures r.status == 400 || r.status == 500
  {
    if Contains(message, "validation") then Response(400, ErrorBody("Invalid workflow steps: " + message))
    else Response(500, ErrorBody(InternalError))
  }

  /** The handler as written, on the definitions table it reads. */
  function PostOutcome(defs: seq<Definition>, name: string, steps: StepsField, description: Option<string>): Response {
    if MissingFields(name, steps) then Response(400, ErrorBody(RequiredFieldsMessage))
    else match ValidateWorkflowSteps(steps)
      case Fail(e) => ErrorResponse(e)
      case Pass => Response(201, CreatedBody(NewDefinition(defs, name, description, steps.items)))
  }

  /** `POST`: respond, and store the new definition only when the response is 201. */
  method Post(db: Store, name: string, steps: StepsField, description: Option<string>) returns (resp: Response)
    modifies db
    ensures resp == PostOutcome(old(db.definitions), name, steps, description)
    ensures db.definitions == if resp.status == 201 then old(db.definitions) + [resp.body.definition] else old(db.definitions)
    ensures db.workflows == old(db.workflows) && db.approvals == old(db.approvals)
    ensures db.events == old(db.events) && db.replays == old(db.replays)
  {
    if name == "" || steps.Absent? {
      return Response(400, ErrorBody(RequiredFieldsMessage));
    }
    var v := ValidateWorkflowSteps(steps);
    if v.Fail? {
      return ErrorResponse(v.error);
    }
    var version := NextVersion(db.definitions, name);
    var d := Definition(name, version, description, steps.items, true);
    db.definitions := db.definitions + [d];
    resp := Response(201, CreatedBody(d));
  }

  /**
   * A definition is created exactly for a named request whose steps the
   * validator accepts; it is active, one version past the name's latest
   * (or version 1), and becomes the one new workflows of that name use.
   */
  lemma CreatedIffValid(defs: seq<Definition>, name: string, steps: StepsField, description: Option<string>)
    ensures var r := PostOutcome(defs, name, steps, description);
      && (r.status == 201 <==> !MissingFields(name, steps) && ValidateWorkflowSteps(steps).Pass?)
      && (r.status == 201 ==>
            && r.body.CreatedBody?
            && r.body.definition.name == name && r.body.definition.isActive
            && r.body.definition.steps == steps.items
            && (forall d | d in defs && d.name == name :: d.version < r.body.definition.version)
            && ((forall d | d in defs :: d.name != name) ==> r.body.definition.version == 1)
            && LatestActive(defs + [r.body.definition], name) == Some(r.body.definition))
      && (MissingFields(name, steps) ==> r == Response(400, ErrorBody(RequiredFieldsMessage)))
  {
    var r := PostOutcome(defs, name, steps, description);
    if r.status == 201 {
      NewDefinitionIsLatest(defs, r.body.definition);
    }
  }

  lemma KindMissingTailLacksL()
    ensures 'l' !in " must have a 'kind' property (AUTO or HUMAN)"
  {
  }

  lemma ChannelMissingTailLacksD()
    ensures 'd' !in " (HUMAN) must have a channel in config"
  {
  }

  lemma KindMissingLacksValidation(index: nat)
    ensures !Contains(KindMissingMessage(index), "validation")
  {
    NaturalHasNoLetter(index, 'l');
    KindMissingTailLacksL();
    AbsentFromConcat("Step ", NatToString(index), " must have a 'kind' property (AUTO or HUMAN)", 'l');
    MissingCharNotContained(KindMissingMessage(index), "validation", 'l');
  }

  lemma ChannelMissingLacksValidation(index: nat)
    ensures !Contains(ChannelMissingMessage(index), "validation")
  {
    NaturalHasNoLetter(index, 'd');
    ChannelMissingTailLacksD();
    AbsentFromConcat("Step ", NatToString(index), " (HUMAN) must have a channel in config", 'd');
    MissingCharNotContained(ChannelMissingMessage(index), "validation", 'd');
  }

  lemma IndexMismatchPartsLackV()
    ensures 'v' !in "Step index mismatch: expected " && 'v' !in ", got "
  {
  }

  lemma IndexMismatchLacksValidation(index: nat, idx: int)
    ensures !Contains(IndexMismatchMessage(index, idx), "validation")
  {
    var a := "Step index mismatch: expected ";
    var b := ", got ";
    NaturalHasNoLetter(index, 'v');
    NumberHasNoLetter(idx, 'v');
    IndexMismatchPartsLackV();
    AbsentFromConcat(a, NatToString(index), b, 'v');
    AbsentFromPair(a + NatToString(index) + b, IntToString(idx), 'v');
    MissingCharNotContained(IndexMismatchMessage(index, idx), "validation", 'v');
  }

  function InvalidKindHead(index: nat): string {
    "Step " + NatToString(index) + " has invalid kind: "
  }

  const InvalidKindTail := ". Must be AUTO or HUMAN"

  /** The text before the kind ends in a blank and does not mention "validation". */
  lemma InvalidKindHeadFacts(index: nat)
    ensures var p := InvalidKindHead(index); |p| > 0 && p[|p| - 1] !in "validation" && !Contains(p, "validation")
  {
    var p := InvalidKindHead(index);
    assert 'o' !in " has invalid kind: ";
    NaturalHasNoLetter(index, 'o');
    AbsentFromConcat("Step ", NatToString(index), " has invalid kind: ", 'o');
    MissingCharNotContained(p, "validation", 'o');
    assert p[|p| - 1] == ' ';
  }

  /** The text after the kind starts with a full stop and does not mention "validation". */
  lemma InvalidKindTailFacts()
    ensures |InvalidKindTail| > 0 && InvalidKindTail[0] !in "validation" && !Contains(InvalidKindTail, "validation")
  {
    assert 'l' !in InvalidKindTail;
    MissingCharNotContained(InvalidKindTail, "validation", 'l');
  }

  /** The invalid-kind message mentions "validation" exactly when the offending kind does. */
  lemma InvalidKindMentionsValidation(index: nat, kind: string)
    ensures Contains(InvalidKindMessage(index, kind), "validation") <==> Contains(kind, "validation")
  {
    var p := InvalidKindHead(index);
    assert InvalidKindMessage(index, kind) == p + kind + InvalidKindTail;
    InvalidKindHeadFacts(index);
    InvalidKindTailFacts();
    if Contains(InvalidKindMessage(index, kind), "validation") {
      ContainedBetween(p, kind, InvalidKindTail, "validation");
    } else if Contains(kind, "validation") {
      ContainedInConcat(p, kind, InvalidKindTail, "validation");
    }
  }

  lemma ArrayMessagesLackD()
    ensures 'd' !in NotArrayMessage && 'd' !in NoStepsMessage
  {
  }

  /** Whether a single template's first shape error mentions "validation". */
  lemma ShapeErrorMentionsValidation(step: StepDef, index: nat)
    requires StepShapeError(step, index).Some?
    ensures Contains(StepShapeError(step, index).value, "validation") <==>
      step.kind != "" && ParseKind(step.kind).None? && Contains(step.kind, "validation")
  {
    if step.kind == "" {
      KindMissingLacksValidation(index);
    } else if ParseKind(step.kind).None? {
      InvalidKindMentionsValidation(index, step.kind);
    } else if step.kind == "HUMAN" && !(step.config.Some? && Truthy(step.config.value.channel)) {
      ChannelMissingLacksValidation(index);
    } else {
      IndexMismatchLacksValidation(index, step.idx.value);
    }
  }

  /**
   * As written, a request whose steps the validator rejects gets 400 only
   * when some template's invalid kind itself contains "validation"; every
   * other step error is answered 500.
   */
  lemma StepErrorsAnsweredAsServerErrors(defs: seq<Definition>, name: string, steps: StepsField, description: Option<string>)
    requires !MissingFields(name, steps) && ValidateWorkflowSteps(steps).Fail?
    ensures var r := PostOutcome(defs, name, steps, description);
      r.status == 400 ==> steps.Items? && exists i | 0 <= i < |steps.items| ::
        ParseKind(steps.items[i].kind).None? && Contains(steps.items[i].kind, "validation")
    ensures PostOutcome(defs, name, steps, description).status in {400, 500}
  {
    var e := ValidateWorkflowSteps(steps).error;
    ArrayMessagesLackD();
    if steps.NotAnArray? {
      MissingCharNotContained(NotArrayMessage, "validation", 'd');
    } else if steps.items == [] {
      MissingCharNotContained(NoStepsMessage, "validation", 'd');
    } else {
      var i :| 0 <= i < |steps.items| && Some(e) == StepShapeError(steps.items[i], i)
        && forall j | 0 <= j < i :: StepShapeOk(steps.items[j], j);
      ShapeErrorMentionsValidation(steps.items[i], i);
    }
  }

  /** An empty step list passes the required-field test (an array is truthy) and is answered 500. */
  lemma EmptyStepsAnswered500(defs: seq<Definition>, description: Option<string>)
    ensures PostOutcome(defs, "onboarding", Items([]), description) == Response(500, ErrorBody(InternalError))
  {
    ArrayMessagesLackD();
    MissingCharNotContained(NoStepsMessage, "validation", 'd');
  }

  /** The handler as evidently intended: a rejected step list is the client's error. */
  function PostOutcomeIntended(defs: seq<Definition>, name: string, steps: StepsField, description: Option<string>): Response {
    if MissingFields(name, steps) then Response(400, ErrorBody(RequiredFieldsMessage))
    else match ValidateWorkflowSteps(steps)
      case Fail(e) => Response(400, ErrorBody("Invalid workflow steps: " + e))
      case Pass => Response(201, CreatedBody(NewDefinition(defs, name, description, steps.items)))
  }

  /**
   * The intended handler answers every malformed request 400 with the
   * validator's message and creates exactly what the written one creates;
   * the two differ exactly on step errors that do not mention "validation".
   */
  lemma IntendedRejectsAsClientErrors(defs: seq<Definition>, name: string, steps: StepsField, description: Option<string>)
    ensures var r := PostOutcomeIntended(defs, name, steps, description);
      && (r.status == 201 || r.status == 400)
      && (!MissingFields(name, steps) && ValidateWorkflowSteps(steps).Fail? ==>
            r == Response(400, ErrorBody("Invalid workflow steps: " + ValidateWorkflowSteps(steps).error)))
    ensures PostOutcomeIntended(defs, name, steps, description) != PostOutcome(defs, name, steps, description) <==>
      !MissingFields(name, steps) && ValidateWorkflowSteps(steps).Fail? && !Contains(ValidateWorkflowSteps(steps).error, "validation")
  {
  }
}
