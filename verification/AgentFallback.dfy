/**
 What a failure does to the agent: it leads back to complete mode, no delta follows before the line is
 opened again, and a change whose delta was refused is in the complete bundle that is sent next.
 */
module AgentFallback {
  import opened AgentRuns
  import opened AgentState
  import opened Compliance
  import opened EndToEnd

  // ---------------------------------------------------------------- back to complete mode

  /** The delta is refused, or a delivery failed. */
  predicate Fails(a: Agent, step: Step) {
    (step == SyncDelta(false) && SendsDelta(a)) || step == DeliveryFailure
  }

  /** A complete bundle is handed over, or a success is reported: the ways out of complete mode. */
  predicate OpensLine(a: Agent, step: Step) {
    a.hybrid.mode == CompleteState && ((step == SyncComplete(true) && SendsComplete(a)) || step == DeliverySuccess)
  }

  lemma FailureFallsBack(a: Agent, step: Step)
    requires Fails(a, step)
    ensures Next(a, step).hybrid.mode == CompleteState && Sent(a, step) == []
  {
  }

  /** Complete mode ends exactly by opening a line, and nothing else sends while it lasts but full bundles. */
  lemma ModeChangesIff(a: Agent, step: Step)
    requires a.hybrid.mode == CompleteState
    ensures Next(a, step).hybrid.mode == DeltaState <==> OpensLine(a, step)
    ensures forall m :: m in Sent(a, step) ==> !m.DeltaMessage?
  {
  }

  /** The first delta after a failure is sent only once a line was opened. */
  lemma {:induction false} NoDeltaBeforeLine(a: Agent, steps: seq<Step>)
    requires a.hybrid.mode == CompleteState
    requires forall k :: 0 <= k < |steps| ==> !OpensLine(Run(a, steps[..k]), steps[k])
    ensures Run(a, steps).hybrid.mode == CompleteState
    ensures forall m :: m in AllSent(a, steps) ==> !m.DeltaMessage?
    decreases |steps|
  {
    hide Next, Sent, OpensLine;
    if steps != [] {
      var front, last := steps[..|steps| - 1], steps[|steps| - 1];
      assert forall k :: 0 <= k < |front| ==> front[..k] == steps[..k];
      NoDeltaBeforeLine(a, front);
      ModeChangesIff(Run(a, front), last);
      assert !OpensLine(Run(a, steps[..|front|]), steps[|front|]);
    }
  }

  /** Over every run: after a failure the next delta on the wire follows a complete bundle or a reported success. */
  lemma DeltaAfterFailureFollowsLine(start: Agent, first: seq<Step>, failure: Step, more: seq<Step>)
    requires Initial(start) && Fails(Run(start, first), failure)
    ensures var a := Next(Run(start, first), failure);
            && a.hybrid.mode == CompleteState
            && ((exists m :: m in AllSent(a, more) && m.DeltaMessage?) ==>
                  exists k :: 0 <= k < |more| && OpensLine(Run(a, more[..k]), more[k]))
  {
    hide Run, AllSent, Next, OpensLine;
    FailureFallsBack(Run(start, first), failure);
    var a := Next(Run(start, first), failure);
    if forall k :: 0 <= k < |more| ==> !OpensLine(Run(a, more[..k]), more[k]) {
      NoDeltaBeforeLine(a, more);
    }
  }

  /** A generation not sent yet is sent next, and opens a line on it. */
  lemma NextCompleteIsSent(a: Agent)
    requires a.hybrid.mode == CompleteState && a.complete.generation > a.sentComplete
    ensures Sent(a, SyncComplete(true)) == [CompleteNow(a)]
    ensures var n := Next(a, SyncComplete(true));
            n.hybrid.mode == DeltaState && n.delta.base == a.complete.generation && n.delta.pending == map[]
  {
  }

  // ---------------------------------------------------------------- the refused change

  lemma ChangedStatusIsListed(full: Statuses, records: Statuses, st: Statuses)
    requires full.Keys == st.Keys && Changed(records, st) != map[]
    requires forall c :: c in full ==> c in records && records[c] == full[c]
    ensures NotCompliant(st) != NotCompliant(full)
  {
    var c :| c in Changed(records, st);
    assert st[c] != full[c];
    assert c in NotCompliant(st) <==> st[c] != Compliant;
    assert c in NotCompliant(full) <==> full[c] != Compliant;
  }

  /** What becomes pending is also new in the complete or in the full bundle. */
  lemma PendingIsCounted(a: Agent, step: Step)
    requires Inv(a)
    ensures var n := Next(a, step);
            n.delta.pending != map[] ==>
              || a.delta.pending != map[]
              || n.complete.generation > a.complete.generation || n.full.generation > a.full.generation
  {
    if step.Update? {
      var p, st := step.policy, step.statuses;
      UpdatedIsCounted(a, p, st);
    }
  }

  lemma UpdatedIsCounted(a: Agent, p: string, st: Statuses)
    requires Inv(a)
    ensures var n := Next(a, Update(p, st));
            n.delta.pending != map[] ==>
              || a.delta.pending != map[]
              || n.complete.generation > a.complete.generation || n.full.generation > a.full.generation
  {
    hide Changed, NotCompliant, Lookup;
    if p in a.full.view && a.full.view[p].Keys == st.Keys && Changed(a.delta.records[p], st) != map[] {
      ChangedStatusIsListed(a.full.view[p], a.delta.records[p], st);
    }
  }

  /** The generation remembered as sent is no newer than the bundle. */
  predicate SentIsOld(a: Agent) {
    a.sentComplete <= a.complete.generation
  }

  lemma {:induction false} EveryRunSentIsOld(a: Agent, steps: seq<Step>)
    requires SentIsOld(a)
    ensures SentIsOld(Run(a, steps))
    decreases |steps|
  {
    if steps != [] {
      EveryRunSentIsOld(a, steps[..|steps| - 1]);
      StepSentIsOld(Run(a, steps[..|steps| - 1]), steps[|steps| - 1]);
      hide Next;
    }
  }

  lemma StepSentIsOld(a: Agent, step: Step)
    requires SentIsOld(a)
    ensures SentIsOld(Next(a, step))
    ensures a.hybrid.mode == DeltaState ==> Next(a, step).sentComplete == a.sentComplete
  {
  }

  /** The run stays in delta mode. */
  predicate StaysInDelta(a: Agent, steps: seq<Step>) {
    forall k :: 0 <= k <= |steps| ==> Run(a, steps[..k]).hybrid.mode == DeltaState
  }

  lemma {:induction false} UnsentChangeIsCounted(a: Agent, steps: seq<Step>)
    requires Inv(a) && SentIsOld(a) && StaysInDelta(a, steps) && a.delta.pending == map[]
    ensures var r := Run(a, steps);
            && Inv(r) && r.sentComplete == a.sentComplete
            && (r.delta.pending != map[] ==>
                  r.complete.generation > a.complete.generation || r.full.generation > a.full.generation)
    decreases |steps|
  {
    hide Next, Inv;
    EveryRunKeepsInv(a, steps);
    if steps != [] {
      var front, last := steps[..|steps| - 1], steps[|steps| - 1];
      assert forall k :: 0 <= k <= |front| ==> front[..k] == steps[..k];
      UnsentChangeIsCounted(a, front);
      assert Run(a, steps[..|front|]).hybrid.mode == DeltaState;
      GenerationsGrow(a, front);
      FullGenerationCounts(Run(a, front), last);
      PendingIsCounted(Run(a, front), last);
      EveryRunSentIsOld(a, front);
      StepSentIsOld(Run(a, front), last);
    }
  }

  /**
   Nothing was pending after `first`; while the full generation stands, changes become pending and their
   delta is refused. Then the change is not lost: a complete bundle is due, which stands for all live
   statuses and opens a line on itself.
   */
  lemma RefusedChangeIsInNextComplete(start: Agent, first: seq<Step>, second: seq<Step>)
    requires Initial(start)
    requires var a := Run(start, first); var r := Run(a, second);
             && StaysInDelta(a, second) && a.delta.pending == map[]
             && r.delta.pending != map[] && r.full.generation == a.full.generation && SendsDelta(r)
    ensures var r := Run(Run(start, first), second);
            var f := Next(r, SyncDelta(false));
            && f.hybrid.mode == CompleteState && Sent(r, SyncDelta(false)) == []
            && Sent(f, SyncComplete(true)) == [CompleteNow(f)]
            && Implied(Live(Run(start, first)), Flatten(f.complete.view)) == Live(r) == Live(f)
            && Next(f, SyncComplete(true)).hybrid.mode == DeltaState
            && Next(f, SyncComplete(true)).delta.base == f.complete.generation
  {
    hide Run, Inv, StaysInDelta, Flatten, Implied;
    InitialInv(start);
    EveryRunKeepsInv(start, first);
    EveryRunSentIsOld(start, first);
    var a := Run(start, first);
    var r := Run(a, second);
    UnsentChangeIsCounted(a, second);
    CompleteBundleDecodes(a, second);
    NextCompleteIsSent(Next(r, SyncDelta(false)));
  }
}
