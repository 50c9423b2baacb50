/**
 * The database the engine works on: the definition, workflow (with its
 * steps), approval, event and replay-history tables.  Approval ids are
 * positions in the approval table; workflows are keyed by their id.
 */
module Persistence {
  import opened Types
  import opened WorkflowRules

  class Store {
    var definitions: seq<Definition>
    var workflows: map<string, Workflow>
    var approvals: seq<Approval>
    var events: seq<Event>
    var replays: seq<StepReplay>

    /** Every workflow's steps are stored in index order under ids of that workflow. */
    ghost predicate Valid()
      reads this
    {
      forall wid | wid in workflows :: Indexed(wid, workflows[wid].steps)
    }

    constructor ()
      ensures Valid()
      ensures definitions == [] && workflows == map[] && approvals == [] && events == [] && replays == []
    {
      definitions := [];
      workflows := map[];
      approvals := [];
      events := [];
      replays := [];
    }

    /** One workflow together with the approval and event tables. */
    function LedgerOf(wid: string): Ledger
      reads this
      requires wid in workflows
    {
      Ledger(workflows[wid], approvals, events)
    }

    /** The store holds ledger `l` for `wid`, other workflows as in `before`. */
    predicate Holds(before: map<string, Workflow>, wid: string, l: Ledger)
      reads this
    {
      workflows == before[wid := l.wf] && approvals == l.approvals && events == l.events
    }

    /** `prisma.steps.update` of one step that keeps its id and index. */
    method UpdateStep(wid: string, i: nat, s: Step)
      requires Valid()
      requires wid in workflows && i < |workflows[wid].steps|
      requires s.id == workflows[wid].steps[i].id && s.idx == workflows[wid].steps[i].idx
      modifies this
      ensures Valid()
      ensures workflows == old(workflows)[wid := old(workflows[wid]).(steps := old(workflows[wid]).steps[i := s])]
      ensures definitions == old(definitions) && approvals == old(approvals)
      ensures events == old(events) && replays == old(replays)
    {
      var wf := workflows[wid];
      workflows := workflows[wid := wf.(steps := wf.steps[i := s])];
    }

    /** `prisma.workflow.update`/`create` of a record whose steps are in index order. */
    method PutWorkflow(wid: string, wf: Workflow)
      requires Valid() && Indexed(wid, wf.steps)
      modifies this
      ensures Valid()
      ensures workflows == old(workflows)[wid := wf]
      ensures definitions == old(definitions) && approvals == old(approvals)
      ensures events == old(events) && replays == old(replays)
    {
      workflows := workflows[wid := wf];
    }

    /** `prisma.event.create` */
    method Log(e: Event)
      modifies this
      ensures events == old(events) + [e]
      ensures definitions == old(definitions) && workflows == old(workflows)
      ensures approvals == old(approvals) && replays == old(replays)
    {
      events := events + [e];
    }
  }
}
