/**
 What the agent remembers of a deleted policy: its records stay unless a change was listed, and the
 policy's return is compared with them.
 */
module AgentRecords {
  import opened AgentRuns
  import opened AgentState
  import opened Compliance

  /** A step that concerns other policies, and sends and reports nothing that deltas depend on. */
  predicate Elsewhere(step: Step, p: string) {
    || (step.Update? && step.policy != p) || (step.Delete? && step.policy != p) || step.SyncFull?
  }

  /** The same is remembered and listed of a policy. */
  predicate SameRecords(d: Changes, e: Changes, p: string) {
    && (p in d.records <==> p in e.records) && (p in d.records ==> d.records[p] == e.records[p])
    && (p in d.pending <==> p in e.pending)
  }

  lemma OtherStepKeepsRecords(a: Agent, step: Step, p: string)
    requires Elsewhere(step, p)
    ensures SameRecords(Next(a, step).delta, a.delta, p)
  {
    hide Changed, UpdateComplete, UpdateFull, Lookup;
  }

  lemma {:induction false} OthersKeepRecords(a: Agent, steps: seq<Step>, p: string)
    requires forall k :: 0 <= k < |steps| ==> Elsewhere(steps[k], p)
    ensures SameRecords(Run(a, steps).delta, a.delta, p)
    decreases |steps|
  {
    hide Next, Elsewhere;
    if steps != [] {
      OthersKeepRecords(a, steps[..|steps| - 1], p);
      OtherStepKeepsRecords(Run(a, steps[..|steps| - 1]), steps[|steps| - 1], p);
    }
  }

  /** The statuses of a report that are not as remembered. */
  function Differing(held: map<string, Status>, st: map<string, Status>): map<string, Status> {
    map c | c in st && (c !in held || held[c] != st[c]) :: st[c]
  }

  lemma DeletedRecords(a: Agent, p: string)
    requires p in a.delta.pending ==> p in a.delta.records
    ensures var d := Next(a, Delete(p)).delta;
            && p !in d.pending
            && (p in d.records <==> p in a.delta.records && p !in a.delta.pending)
            && (p in d.records ==> d.records[p] == a.delta.records[p])
  {
    hide DeleteFull, DeleteComplete;
  }

  lemma ReturnedRecords(a: Agent, p: string, st: Statuses)
    requires p !in a.delta.pending
    ensures var d := Next(a, Update(p, st)).delta;
            if p in a.delta.records && Differing(a.delta.records[p], st) != map[] then
              && p in d.pending && d.pending[p] == Differing(a.delta.records[p], st)
              && d.generation == a.delta.generation + 1
            else p !in d.pending && d.generation == a.delta.generation
  {
    if p in a.delta.records {
      assert Changed(a.delta.records[p], st) == Differing(a.delta.records[p], st);
      assert map[] + Differing(a.delta.records[p], st) == Differing(a.delta.records[p], st);
    }
    hide Changed, Differing, UpdateComplete, UpdateFull;
  }

  lemma PendingIsRecorded(a: Agent, p: string)
    requires Inv(a) && p in a.delta.pending
    ensures p in a.delta.records
  {
  }

  /**
   A policy is deleted and comes back. If it was recorded and nothing of it was listed, exactly the
   clusters whose status is not the recorded one from before become pending; otherwise nothing does.
   */
  lemma ReturningPolicyIsCompared(start: Agent, first: seq<Step>, p: string, between: seq<Step>, st: Statuses)
    requires Initial(start) && forall k :: 0 <= k < |between| ==> Elsewhere(between[k], p)
    ensures var a := Run(start, first);
            var gone := Run(Next(a, Delete(p)), between);
            var back := Next(gone, Update(p, st));
            if p in a.delta.records && p !in a.delta.pending then
              var differing := Differing(a.delta.records[p], st);
              && back.delta.generation == gone.delta.generation + (if differing == map[] then 0 else 1)
              && if differing == map[] then p !in back.delta.pending
                 else p in back.delta.pending && back.delta.pending[p] == differing
            else
              p !in back.delta.pending && back.delta.generation == gone.delta.generation
  {
    hide Differing, Run, Inv, Next, Elsewhere;
    var a := Run(start, first);
    InitialInv(start);
    EveryRunKeepsInv(start, first);
    if p in a.delta.pending {
      PendingIsRecorded(a, p);
    }
    DeletedRecords(a, p);
    OthersKeepRecords(Next(a, Delete(p)), between, p);
    ReturnedRecords(Run(Next(a, Delete(p)), between), p, st);
  }

  // ---------------------------------------------------------------- reports without news

  lemma SameReport(a: Agent, p: string)
    requires Inv(a) && p in a.full.view
    ensures Next(a, Update(p, a.full.view[p])) == a
  {
    var st := a.full.view[p];
    assert a.full.view[p := st] == a.full.view;
    assert Changed(a.delta.records[p], st) == map[];
    assert Lookup(a.complete.view, p) == NotCompliant(st);
    hide Changed, NotCompliant, Lookup;
  }

  /** Over every run: reporting a policy again as it is known changes no bundle, so nothing becomes due. */
  lemma ReportingAgainChangesNothing(start: Agent, steps: seq<Step>, p: string)
    requires Initial(start) && p in Run(start, steps).full.view
    ensures var a := Run(start, steps); Next(a, Update(p, a.full.view[p])) == a
  {
    hide Run, Next, Inv;
    InitialInv(start);
    EveryRunKeepsInv(start, steps);
    SameReport(Run(start, steps), p);
  }
}
