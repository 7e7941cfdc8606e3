/**
 From the leaf hub's live policies to the global hub's table: what a full bundle, a complete
 bundle based on it and the deltas based on that one, written in this order, leave in the table.
 */
module EndToEnd {
  import opened AgentRuns
  import opened AgentState
  import opened Compliance
  import opened DeltaMerge
  import opened Versions

  /** The rows that the leaf hub's policies have now. */
  function Live(a: Agent): Table {
    Flatten(a.full.view)
  }

  /** The deltas among the messages that are based on the given complete bundle, in order. */
  function DeltasOn(messages: seq<Message>, base: Version): seq<Delta>
    decreases |messages|
  {
    if messages == [] then []
    else
      var front, last := DeltasOn(messages[..|messages| - 1], base), messages[|messages| - 1];
      if last.DeltaMessage? && last.delta.base == base then front + [last.delta] else front
  }

  lemma {:induction false} DeltasOnConcat(a: seq<Message>, b: seq<Message>, base: Version)
    ensures DeltasOn(a + b, base) == DeltasOn(a, base) + DeltasOn(b, base)
    decreases |b|
  {
    if b == [] {
      assert a + b == a;
    } else {
      assert (a + b)[..|a + b| - 1] == a + b[..|b| - 1];
      DeltasOnConcat(a, b[..|b| - 1], base);
    }
  }

  // ---------------------------------------------------------------- same generation, same clusters

  /** Policies and clusters are the same, statuses may differ. */
  predicate SameClusters(m: PolicyMap, n: PolicyMap) {
    m.Keys == n.Keys && forall p :: p in m ==> m[p].Keys == n[p].Keys
  }

  lemma FullGenerationCounts(a: Agent, step: Step)
    ensures Next(a, step).full.generation >= a.full.generation && Next(a, step).incarnation == a.incarnation
    ensures Next(a, step).complete.generation >= a.complete.generation
    ensures Next(a, step).full.generation == a.full.generation ==> SameClusters(a.full.view, Next(a, step).full.view)
  {
  }

  lemma {:induction false} GenerationsGrow(a: Agent, steps: seq<Step>)
    ensures var r := Run(a, steps);
            && r.full.generation >= a.full.generation && r.complete.generation >= a.complete.generation
            && r.incarnation == a.incarnation
            && (r.full.generation == a.full.generation ==> SameClusters(a.full.view, r.full.view))
    decreases |steps|
  {
    if steps != [] {
      GenerationsGrow(a, steps[..|steps| - 1]);
      FullGenerationCounts(Run(a, steps[..|steps| - 1]), steps[|steps| - 1]);
      hide Next;
    }
  }

  lemma ListedStatus(full: PolicyMap, complete: PolicyMap, row: Row)
    requires ListsNotCompliant(full, complete)
    ensures row in Flatten(complete) <==> row in Flatten(full) && Flatten(full)[row] != Compliant
    ensures row in Flatten(complete) ==> Flatten(complete)[row] == Flatten(full)[row]
  {
    FlattenAt(full, row);
    FlattenAt(complete, row);
    assert row.0 in complete ==> row.0 in full;
    if row.0 in full {
      assert Lookup(complete, row.0) == NotCompliant(full[row.0]);
      assert row.1 in Lookup(complete, row.0) <==> row.1 in full[row.0] && full[row.0][row.1] != Compliant;
    }
    hide Flatten, ListsNotCompliant;
  }

  lemma SameRows(m: PolicyMap, n: PolicyMap, row: Row)
    requires SameClusters(m, n)
    ensures row in Flatten(m) <==> row in Flatten(n)
  {
    FlattenAt(m, row);
    FlattenAt(n, row);
    hide Flatten;
    assert row.0 in m ==> m[row.0].Keys == n[row.0].Keys;
  }

  /** What is listed and implied together are the live statuses. */
  lemma ImpliedIsLive(base: PolicyMap, full: PolicyMap, complete: PolicyMap)
    requires SameClusters(base, full) && ListsNotCompliant(full, complete)
    ensures Implied(Flatten(base), Flatten(complete)) == Flatten(full)
  {
    hide Flatten, ListsNotCompliant, SameClusters;
    forall row
      ensures row in Flatten(base) <==> row in Flatten(full)
      ensures row in Flatten(full) ==> Implied(Flatten(base), Flatten(complete))[row] == Flatten(full)[row]
    {
      SameRows(base, full, row);
      ListedStatus(full, complete, row);
    }
  }

  /**
   A complete bundle decodes: after the full bundle it is based on, it leaves exactly the live
   statuses of the moment it was sent, though compliant clusters and policies are not in it.
   */
  lemma CompleteBundleDecodes(a: Agent, steps: seq<Step>)
    requires Inv(a) && Run(a, steps).full.generation == a.full.generation
    ensures Implied(Live(a), Flatten(Run(a, steps).complete.view)) == Live(Run(a, steps))
  {
    GenerationsGrow(a, steps);
    EveryRunKeepsInv(a, steps);
    ImpliedIsLive(a.full.view, Run(a, steps).full.view, Run(a, steps).complete.view);
  }

  // ---------------------------------------------------------------- deltas

  lemma PendingAgreesAt(a: Agent, row: Row)
    requires Inv(a) && row in Live(a) && row in Flatten(a.delta.pending)
    ensures Flatten(a.delta.pending)[row] == Live(a)[row]
  {
    FlattenAt(a.full.view, row);
    FlattenAt(a.delta.pending, row);
    var d := a.delta;
    assert AccountsFor(d.since[row.0], Lookup(d.pending, row.0), d.records[row.0]);
    assert d.records[row.0][row.1] == a.full.view[row.0][row.1];
    hide Flatten, Inv;
  }

  /** Pending changes agree with the live statuses. */
  lemma PendingAgrees(a: Agent)
    requires Inv(a)
    ensures Write(Live(a), Flatten(a.delta.pending)) == Live(a)
  {
    hide Flatten, Inv;
    forall row | row in Live(a) && row in Flatten(a.delta.pending)
      ensures Flatten(a.delta.pending)[row] == Live(a)[row]
    {
      PendingAgreesAt(a, row);
    }
  }

  lemma UpdatedRow(full: PolicyMap, recorded: Statuses, p: string, st: Statuses, row: Row)
    requires p in full && forall c :: c in full[p] <==> c in st
    requires forall c :: c in full[p] ==> c in recorded && recorded[c] == full[p][c]
    ensures row in Flatten(full) <==> row in Flatten(full[p := st])
    ensures row in Flatten(full) ==>
      Write(Flatten(full), PolicyRows(p, Changed(recorded, st)))[row] == Flatten(full[p := st])[row]
  {
    FlattenAt(full, row);
    FlattenAt(full[p := st], row);
    hide Flatten;
    assert row == (row.0, row.1);
  }

  /** An update that keeps the cluster list is what the changed clusters say, written over the old statuses. */
  lemma UpdateIsWritten(full: PolicyMap, recorded: Statuses, p: string, st: Statuses)
    requires p in full && forall c :: c in full[p] <==> c in st
    requires forall c :: c in full[p] ==> c in recorded && recorded[c] == full[p][c]
    ensures Write(Flatten(full), PolicyRows(p, Changed(recorded, st))) == Flatten(full[p := st])
  {
    hide Flatten, PolicyRows, Changed;
    forall row
      ensures row in Flatten(full) <==> row in Flatten(full[p := st])
      ensures row in Flatten(full) ==>
        Write(Flatten(full), PolicyRows(p, Changed(recorded, st)))[row] == Flatten(full[p := st])[row]
    {
      UpdatedRow(full, recorded, p, st, row);
    }
  }

  lemma PendingPutAt(pending: PolicyMap, p: string, changed: Statuses, row: Row)
    ensures var left, right :=
            Flatten(pending[p := Lookup(pending, p) + changed]), Flatten(pending) + PolicyRows(p, changed);
            (row in left <==> row in right) && (row in left ==> left[row] == right[row])
  {
    FlattenAt(pending, row);
    FlattenAt(pending[p := Lookup(pending, p) + changed], row);
    hide Flatten;
    assert row == (row.0, row.1);
    if row.0 == p {
      assert row.1 in Lookup(pending, p) + changed <==> row.1 in Lookup(pending, p) || row.1 in changed;
    }
  }

  lemma PendingPut(pending: PolicyMap, p: string, changed: Statuses)
    ensures Flatten(pending[p := Lookup(pending, p) + changed]) == Flatten(pending) + PolicyRows(p, changed)
  {
    hide Flatten, PolicyRows, Lookup;
    var left, right := Flatten(pending[p := Lookup(pending, p) + changed]), Flatten(pending) + PolicyRows(p, changed);
    forall row
      ensures (row in left <==> row in right) && (row in left ==> left[row] == right[row])
    {
      PendingPutAt(pending, p, changed, row);
    }
  }

  /** `a` sends a complete bundle; `r` is reached later, having sent `deltas` based on that bundle. */
  ghost predicate OnLine(a: Agent, r: Agent, deltas: seq<Delta>) {
    && Inv(r) && r.incarnation == a.incarnation
    && r.full.generation >= a.full.generation && r.complete.generation >= a.complete.generation
    && (r.full.generation == a.full.generation && r.complete.generation == a.complete.generation ==>
          r.full.view == a.full.view && WriteAll(Live(a), deltas) == Live(a))
    && (r.full.generation == a.full.generation && r.delta.base == a.complete.generation ==>
          Write(WriteAll(Live(a), deltas), Flatten(r.delta.pending)) == Live(r))
  }

  lemma SameNotCompliant(before: Statuses, st: Statuses)
    requires before.Keys == st.Keys && NotCompliant(before) == NotCompliant(st)
    ensures before == st
  {
    forall c | c in st
      ensures st[c] == before[c]
    {
      assert c in NotCompliant(st) <==> st[c] != Compliant;
      assert c in NotCompliant(before) <==> before[c] != Compliant;
    }
  }

  /** Without a new generation of either bundle, nothing changed. */
  lemma UnchangedUpdate(r: Agent, p: string, st: Statuses)
    requires Inv(r)
    requires UpdateFull(r.full, p, st).generation == r.full.generation
    requires UpdateComplete(r.complete, p, st).generation == r.complete.generation
    ensures UpdateFull(r.full, p, st).view == r.full.view
  {
    assert Lookup(r.complete.view, p) == NotCompliant(r.full.view[p]);
    hide Inv, NotCompliant, Lookup;
    SameNotCompliant(r.full.view[p], st);
  }

  lemma UpdateKeepsPendingLive(r: Agent, p: string, st: Statuses, written: Table)
    requires Inv(r) && UpdateFull(r.full, p, st).generation == r.full.generation
    requires Write(written, Flatten(r.delta.pending)) == Live(r)
    ensures Write(written, Flatten(Next(r, Update(p, st)).delta.pending)) == Live(Next(r, Update(p, st)))
  {
    var recorded := r.delta.records[p];
    var changed := Changed(recorded, st);
    assert forall c :: c in r.full.view[p] <==> c in st;
    UpdateIsWritten(r.full.view, recorded, p, st);
    hide Flatten, PolicyRows, Changed, Write, Inv, Lookup;
    if changed == map[] {
      NothingWritten(Live(r), p);
    } else {
      PendingPut(r.delta.pending, p, changed);
      WriteTwice(written, Flatten(r.delta.pending), PolicyRows(p, changed));
    }
  }

  lemma NothingWritten(t: Table, p: string)
    ensures Write(t, PolicyRows(p, map[])) == t && Write(t, Flatten(map[])) == t
  {
    assert PolicyRows(p, map[]) == map[] && Flatten(map[]) == map[];
  }

  lemma UpdateShape(r: Agent, p: string, st: Statuses)
    ensures var n := Next(r, Update(p, st));
            && n.full == UpdateFull(r.full, p, st) && n.complete == UpdateComplete(r.complete, p, st)
            && n.delta.base == r.delta.base && n.incarnation == r.incarnation
  {
    hide UpdateFull, UpdateComplete, Changed;
  }

  lemma UpdateStaysOnLine(a: Agent, r: Agent, deltas: seq<Delta>, p: string, st: Statuses)
    requires OnLine(a, r, deltas)
    ensures OnLine(a, Next(r, Update(p, st)), deltas)
  {
    UpdateKeepsInv(r, p, st);
    FullGenerationCounts(r, Update(p, st));
    UpdateShape(r, p, st);
    hide Inv, Next, UpdateFull, UpdateComplete, WriteAll, Write, Flatten;
    var n := Next(r, Update(p, st));
    if n.full.generation == a.full.generation {
      if n.complete.generation == a.complete.generation {
        UnchangedUpdate(r, p, st);
      }
      if r.delta.base == a.complete.generation {
        UpdateKeepsPendingLive(r, p, st, WriteAll(Live(a), deltas));
      }
    }
  }

  lemma DeleteStaysOnLine(a: Agent, r: Agent, deltas: seq<Delta>, p: string)
    requires OnLine(a, r, deltas)
    ensures OnLine(a, Next(r, Delete(p)), deltas)
  {
    DeleteKeepsInv(r, p);
    FullGenerationCounts(r, Delete(p));
    assert p !in r.full.view ==> p !in r.delta.pending;
    hide Inv, Live, WriteAll, Write;
  }

  /** A switch drops what is pending; on this line that is possible only while nothing changed. */
  lemma SwitchStaysOnLine(a: Agent, r: Agent, deltas: seq<Delta>)
    requires OnLine(a, r, deltas)
    ensures OnLine(a, SwitchToDelta(r), deltas)
  {
    SwitchKeepsInv(r);
    NothingWritten(Live(a), "");
    hide Inv, Live, WriteAll, Write, Flatten;
  }

  /** Only the mode or the counters differ. */
  predicate SameBundles(r: Agent, n: Agent) {
    n.full == r.full && n.complete == r.complete && n.incarnation == r.incarnation
  }

  lemma ModeIsIrrelevant(a: Agent, r: Agent, n: Agent, deltas: seq<Delta>)
    requires OnLine(a, r, deltas) && Inv(n) && SameBundles(r, n) && n.delta == r.delta
    ensures OnLine(a, n, deltas)
  {
    hide Inv, WriteAll, Write, Flatten;
  }

  /** The message just sent joins the line if it is based on its complete bundle. */
  lemma DeltaSentOnLine(a: Agent, r: Agent, deltas: seq<Delta>)
    requires OnLine(a, r, deltas)
    ensures OnLine(a, r, if r.delta.base == a.complete.generation then deltas + [DeltaNow(r)] else deltas)
  {
    if r.delta.base == a.complete.generation {
      PendingAgrees(r);
      var d := DeltaNow(r);
      WriteAllSplit(Live(a), deltas, [d]);
      WriteOne(WriteAll(Live(a), deltas), d);
      hide Inv, Live, Write, WriteAll, Flatten;
    }
  }

  /** After a message was sent, dropping what was pending leaves what was written. */
  lemma ResetStaysOnLine(a: Agent, r: Agent, n: Agent, deltas: seq<Delta>)
    requires OnLine(a, r, deltas) && Inv(n) && SameBundles(r, n) && n.delta == Reset(r.delta)
    requires r.delta.base == a.complete.generation ==> deltas != [] && deltas[|deltas| - 1] == DeltaNow(r)
    ensures OnLine(a, n, deltas)
  {
    if r.delta.base == a.complete.generation && r.full.generation == a.full.generation {
      LastDeltaIsWritten(Live(a), deltas);
      NothingWritten(WriteAll(Live(a), deltas), "");
    }
    hide Inv, Write, WriteAll, Flatten;
  }

  /** Writing the last delta again changes nothing. */
  lemma LastDeltaIsWritten(t: Table, deltas: seq<Delta>)
    requires deltas != []
    ensures Write(WriteAll(t, deltas), deltas[|deltas| - 1].effect) == WriteAll(t, deltas)
  {
    var n := |deltas|;
    assert deltas == deltas[..n - 1] + [deltas[n - 1]];
    WriteAllSplit(t, deltas[..n - 1], [deltas[n - 1]]);
    var before, last := WriteAll(t, deltas[..n - 1]), deltas[n - 1];
    WriteOne(before, last);
    WriteTwice(before, last.effect, last.effect);
    assert last.effect + last.effect == last.effect;
    hide Write, WriteAll;
  }

  lemma OneDelta(d: Delta, base: Version)
    ensures DeltasOn([DeltaMessage(d)], base) == if d.base == base then [d] else []
    ensures DeltasOn([], base) == []
  {
    assert [DeltaMessage(d)][..0] == [];
  }

  lemma OneOther(m: Message, base: Version)
    requires !m.DeltaMessage?
    ensures DeltasOn([m], base) == [] && DeltasOn([], base) == []
  {
    assert [m][..0] == [];
  }

  lemma NoDeltaSent(r: Agent, step: Step, base: Version)
    requires !step.SyncDelta?
    ensures DeltasOn(Sent(r, step), base) == []
  {
    var messages := Sent(r, step);
    if messages != [] {
      assert messages == [messages[0]];
      OneOther(messages[0], base);
    }
  }

  lemma SyncDeltaStaysOnLine(a: Agent, r: Agent, deltas: seq<Delta>, handedOver: bool)
    requires OnLine(a, r, deltas)
    ensures OnLine(a, Next(r, SyncDelta(handedOver)),
                   deltas + DeltasOn(Sent(r, SyncDelta(handedOver)), Version(a.incarnation, a.complete.generation)))
  {
    var base, n := Version(a.incarnation, a.complete.generation), Next(r, SyncDelta(handedOver));
    StepKeepsInv(r, SyncDelta(handedOver));
    OneDelta(DeltaNow(r), base);
    hide OnLine, Inv, Reset, SwitchToDelta;
    if SendsDelta(r) && handedOver {
      var now := if r.delta.base == a.complete.generation then deltas + [DeltaNow(r)] else deltas;
      DeltaSentOnLine(a, r, deltas);
      SameIncarnation(a, r, deltas);
      assert now == deltas + DeltasOn(Sent(r, SyncDelta(handedOver)), base);
      if n.delta == r.delta {
        ModeIsIrrelevant(a, r, n, now);
      } else {
        ResetStaysOnLine(a, r, n, now);
      }
    } else {
      assert deltas + [] == deltas;
      ModeIsIrrelevant(a, r, n, deltas);
    }
  }

  lemma SameIncarnation(a: Agent, r: Agent, deltas: seq<Delta>)
    requires OnLine(a, r, deltas)
    ensures r.incarnation == a.incarnation
  {
  }

  lemma SyncCompleteStaysOnLine(a: Agent, r: Agent, deltas: seq<Delta>, step: Step)
    requires OnLine(a, r, deltas) && !step.Update? && !step.Delete? && !step.SyncDelta?
    ensures OnLine(a, Next(r, step), deltas)
  {
    var n := Next(r, step);
    StepKeepsInv(r, step);
    SwitchStaysOnLine(a, r, deltas);
    hide OnLine, Inv, Reset, SyncState;
    if n.delta == r.delta {
      ModeIsIrrelevant(a, r, n, deltas);
    } else {
      ModeIsIrrelevant(a, SwitchToDelta(r), n, deltas);
    }
  }

  lemma StepStaysOnLine(a: Agent, r: Agent, deltas: seq<Delta>, step: Step)
    requires OnLine(a, r, deltas)
    ensures OnLine(a, Next(r, step), deltas + DeltasOn(Sent(r, step), Version(a.incarnation, a.complete.generation)))
  {
    var base := Version(a.incarnation, a.complete.generation);
    assert DeltasOn([], base) == [] && deltas + [] == deltas;
    match step
    case Update(p, st) => UpdateStaysOnLine(a, r, deltas, p, st);
    case Delete(p) => DeleteStaysOnLine(a, r, deltas, p);
    case SyncDelta(handedOver) => SyncDeltaStaysOnLine(a, r, deltas, handedOver);
    case _ =>
      SyncCompleteStaysOnLine(a, r, deltas, step);
      NoDeltaSent(r, step, base);
      hide OnLine, Next;
  }

  /**
   Over any run after a complete bundle: as long as the full bundle's generation stands and the
   deltas are still based on that complete bundle, writing its deltas and what is pending over
   the statuses of then gives the statuses of now.
   */
  lemma {:induction false} DeltasFollowLive(a: Agent, steps: seq<Step>)
    requires Inv(a)
    ensures OnLine(a, Run(a, steps), DeltasOn(AllSent(a, steps), Version(a.incarnation, a.complete.generation)))
    decreases |steps|
  {
    var base := Version(a.incarnation, a.complete.generation);
    if steps == [] {
      PendingAgrees(a);
    } else {
      var front, last := steps[..|steps| - 1], steps[|steps| - 1];
      DeltasFollowLive(a, front);
      StepStaysOnLine(a, Run(a, front), DeltasOn(AllSent(a, front), base), last);
      DeltasOnConcat(AllSent(a, front), Sent(Run(a, front), last), base);
      hide OnLine, Next, Sent, DeltasOn;
    }
  }

  // ---------------------------------------------------------------- deltas sent before their complete bundle

  /** All rows say compliant and none is listed in the complete bundle. */
  predicate Harmless(effect: Table, listed: Table) {
    forall row :: row in effect ==> effect[row] == Compliant && row !in listed
  }

  /** While the complete bundle is as it was when the deltas were based on it, they only confirm compliance. */
  predicate Quiet(a: Agent) {
    a.delta.base == a.complete.generation ==> Harmless(Flatten(a.delta.pending), Flatten(a.complete.view))
  }

  lemma PendingAfterUpdate(d: Changes, p: string, st: Statuses, full: PolicyMap)
    ensures var pending := Flatten(UpdateChanges(d, p, st, full).pending);
            || pending == Flatten(d.pending)
            || (p in d.records && pending == Flatten(d.pending) + PolicyRows(p, Changed(d.records[p], st)))
    ensures UpdateChanges(d, p, st, full).base == d.base
  {
    if p in d.records {
      PendingPut(d.pending, p, Changed(d.records[p], st));
    }
    hide Flatten, PolicyRows, Changed, Lookup;
  }

  lemma HarmlessPlus(effect: Table, more: Table, listed: Table)
    requires Harmless(effect, listed) && Harmless(more, listed)
    ensures Harmless(effect + more, listed)
  {
  }

  lemma UpdateKeepsQuiet(a: Agent, p: string, st: Statuses)
    requires Inv(a) && Quiet(a)
    ensures Quiet(Next(a, Update(p, st)))
  {
    var n := Next(a, Update(p, st));
    PendingAfterUpdate(a.delta, p, st, n.full.view);
    assert a.delta.base <= a.complete.generation;
    hide Inv, Flatten, PolicyRows, Changed, NotCompliant, Lookup, UpdateFull, UpdateChanges, Harmless;
    if n.delta.base == n.complete.generation {
      assert n.complete == a.complete;
      if p in a.delta.records {
        ChangedIsHarmless(a, p, st);
        HarmlessPlus(Flatten(a.delta.pending), PolicyRows(p, Changed(a.delta.records[p], st)),
                     Flatten(a.complete.view));
      }
    }
  }

  lemma ListedIsRecorded(a: Agent, p: string, c: string)
    requires Inv(a) && p in a.delta.records && c in Lookup(a.complete.view, p)
    ensures c in a.delta.records[p] && a.delta.records[p][c] == Lookup(a.complete.view, p)[c]
  {
    assert p in a.full.view && Lookup(a.complete.view, p) == NotCompliant(a.full.view[p]);
    assert c in NotCompliant(a.full.view[p]);
  }

  lemma ChangedIsHarmless(a: Agent, p: string, st: Statuses)
    requires Inv(a) && p in a.delta.records && UpdateComplete(a.complete, p, st) == a.complete
    ensures Harmless(PolicyRows(p, Changed(a.delta.records[p], st)), Flatten(a.complete.view))
  {
    var changed, listed := Changed(a.delta.records[p], st), Lookup(a.complete.view, p);
    assert listed == NotCompliant(st);
    forall c | c in changed
      ensures changed[c] == Compliant && (p, c) !in Flatten(a.complete.view)
    {
      FlattenAt(a.complete.view, (p, c));
      assert c !in listed by {
        if c in listed {
          ListedIsRecorded(a, p, c);
        }
      }
      hide Inv, Flatten;
    }
  }

  lemma DeleteKeepsQuiet(a: Agent, p: string)
    requires Quiet(a)
    ensures Quiet(Next(a, Delete(p)))
    ensures forall row :: row in Flatten(Next(a, Delete(p)).complete.view) ==> row in Flatten(a.complete.view)
  {
    var n := Next(a, Delete(p));
    forall row
      ensures row in Flatten(n.complete.view) ==> row in Flatten(a.complete.view)
      ensures row in Flatten(n.delta.pending) ==> row in Flatten(a.delta.pending)
      ensures row in Flatten(n.delta.pending) ==> Flatten(n.delta.pending)[row] == Flatten(a.delta.pending)[row]
    {
      FlattenAt(a.complete.view, row);
      FlattenAt(n.complete.view, row);
      FlattenAt(a.delta.pending, row);
      FlattenAt(n.delta.pending, row);
      hide Flatten;
    }
    hide Flatten;
  }

  lemma SyncKeepsQuiet(a: Agent, step: Step)
    requires Quiet(a) && !step.Update? && !step.Delete?
    ensures Quiet(Next(a, step))
  {
    NothingFlat();
    hide Flatten;
  }

  lemma NothingFlat()
    ensures Flatten(map[]) == map[]
  {
  }

  lemma StepKeepsQuiet(a: Agent, step: Step)
    requires Inv(a) && Quiet(a)
    ensures Quiet(Next(a, step))
  {
    hide Inv, Quiet, Next;
    match step
    case Update(p, st) => UpdateKeepsQuiet(a, p, st);
    case Delete(p) => DeleteKeepsQuiet(a, p);
    case _ => SyncKeepsQuiet(a, step);
  }

  lemma SyncKeepsComplete(a: Agent, step: Step)
    requires !step.Update? && !step.Delete?
    ensures Next(a, step).complete == a.complete
  {
  }

  lemma RemovedRow(view: PolicyMap, p: string, row: Row)
    ensures row in Flatten(view - {p}) ==> row in Flatten(view)
  {
    FlattenAt(view, row);
    FlattenAt(view - {p}, row);
    hide Flatten;
  }

  /** Within one generation the complete bundle only loses rows, with their policies. */
  lemma ListedShrinks(a: Agent, step: Step)
    requires Next(a, step).complete.generation == a.complete.generation
    ensures forall row :: row in Flatten(Next(a, step).complete.view) ==> row in Flatten(a.complete.view)
  {
    hide Flatten;
    match step
    case Update(p, st) =>
      assert UpdateComplete(a.complete, p, st) == a.complete;
    case Delete(p) =>
      forall row
        ensures row in Flatten(a.complete.view - {p}) ==> row in Flatten(a.complete.view)
      {
        RemovedRow(a.complete.view, p, row);
      }
    case _ =>
      SyncKeepsComplete(a, step);
  }

  ghost predicate AllHarmless(deltas: seq<Delta>, listed: Table) {
    forall i :: 0 <= i < |deltas| ==> Harmless(deltas[i].effect, listed)
  }

  /** A delta based on a generation not yet reached cannot have been sent. */
  ghost predicate SentEarly(a: Agent, deltas: seq<Delta>, generation: nat) {
    a.complete.generation <= generation ==>
      && (a.complete.generation < generation ==> deltas == [])
      && AllHarmless(deltas, Flatten(a.complete.view))
  }

  /** What a delta sync adds to the deltas on a base. */
  function DeltaSent(a: Agent, handedOver: bool, generation: nat): seq<Delta> {
    if SendsDelta(a) && handedOver && a.delta.base == generation then [DeltaNow(a)] else []
  }

  lemma DeltaSentIsOnBase(a: Agent, handedOver: bool, generation: nat)
    ensures DeltasOn(Sent(a, SyncDelta(handedOver)), Version(a.incarnation, generation)) ==
            DeltaSent(a, handedOver, generation)
  {
    OneDelta(DeltaNow(a), Version(a.incarnation, generation));
    hide DeltasOn;
  }

  lemma DeltaSentEarly(a: Agent, deltas: seq<Delta>, more: seq<Delta>, generation: nat)
    requires Quiet(a) && SentEarly(a, deltas, generation) && a.delta.base <= a.complete.generation
    requires more == [] || (more == [DeltaNow(a)] && a.delta.base == generation)
    ensures SentEarly(a, deltas + more, generation)
  {
    hide Flatten, Harmless;
  }

  lemma SyncDeltaSendsEarly(a: Agent, handedOver: bool, deltas: seq<Delta>, generation: nat)
    requires Inv(a) && Quiet(a) && SentEarly(a, deltas, generation)
    ensures SentEarly(Next(a, SyncDelta(handedOver)),
                      deltas + DeltasOn(Sent(a, SyncDelta(handedOver)), Version(a.incarnation, generation)), generation)
  {
    assert a.delta.base <= a.complete.generation;
    SyncKeepsComplete(a, SyncDelta(handedOver));
    DeltaSentIsOnBase(a, handedOver, generation);
    DeltaSentEarly(a, deltas, DeltaSent(a, handedOver, generation), generation);
    hide Inv, Flatten, Harmless, AllHarmless, Next, Quiet, DeltasOn, Sent;
  }

  lemma StepSendsEarly(a: Agent, step: Step, deltas: seq<Delta>, generation: nat)
    requires Inv(a) && Quiet(a) && SentEarly(a, deltas, generation)
    ensures SentEarly(Next(a, step), deltas + DeltasOn(Sent(a, step), Version(a.incarnation, generation)), generation)
  {
    if step.SyncDelta? {
      SyncDeltaSendsEarly(a, step.handedOver, deltas, generation);
    } else {
      NoDeltaSent(a, step, Version(a.incarnation, generation));
      FullGenerationCounts(a, step);
      assert deltas + [] == deltas;
      if Next(a, step).complete.generation == a.complete.generation {
        ListedShrinks(a, step);
      }
      hide Inv, Flatten, Next, DeltasOn, Sent;
    }
  }

  /** As long as the complete bundle has this generation, all deltas sent on it so far are harmless. */
  lemma {:induction false} EarlyDeltasAreHarmless(a: Agent, steps: seq<Step>, generation: nat)
    requires Inv(a) && Quiet(a)
    ensures Inv(Run(a, steps)) && Quiet(Run(a, steps)) && Run(a, steps).incarnation == a.incarnation
    ensures SentEarly(Run(a, steps), DeltasOn(AllSent(a, steps), Version(a.incarnation, generation)), generation)
    decreases |steps|
  {
    if steps != [] {
      var base, front, last := Version(a.incarnation, generation), steps[..|steps| - 1], steps[|steps| - 1];
      var r := Run(a, front);
      EarlyDeltasAreHarmless(a, front, generation);
      StepSendsEarly(r, last, DeltasOn(AllSent(a, front), base), generation);
      StepKeepsInv(r, last);
      StepKeepsQuiet(r, last);
      FullGenerationCounts(r, last);
      DeltasOnConcat(AllSent(a, front), Sent(r, last), base);
      hide Inv, Quiet, SentEarly, Next, Sent, DeltasOn;
    }
  }

  lemma HarmlessWrite(full: PolicyMap, complete: PolicyMap, effect: Table)
    requires ListsNotCompliant(full, complete) && Harmless(effect, Flatten(complete))
    ensures Write(Flatten(full), effect) == Flatten(full)
  {
    hide ListsNotCompliant, Flatten;
    forall row | row in Flatten(full)
      ensures row in effect ==> effect[row] == Flatten(full)[row]
    {
      ListedStatus(full, complete, row);
    }
  }

  /** Harmless deltas leave the statuses that the complete bundle describes. */
  lemma {:induction false} HarmlessWrites(full: PolicyMap, complete: PolicyMap, deltas: seq<Delta>)
    requires ListsNotCompliant(full, complete) && AllHarmless(deltas, Flatten(complete))
    ensures WriteAll(Flatten(full), deltas) == Flatten(full)
    decreases |deltas|
  {
    hide ListsNotCompliant, Flatten, Harmless, Write;
    if deltas != [] {
      HarmlessWrite(full, complete, deltas[0].effect);
      assert forall i :: 0 <= i < |deltas[1..]| ==> deltas[1..][i] == deltas[i + 1];
      HarmlessWrites(full, complete, deltas[1..]);
    }
  }

  // ---------------------------------------------------------------- the whole pipeline

  lemma {:induction false} RunConcat(a: Agent, s: seq<Step>, t: seq<Step>)
    ensures Run(a, s + t) == Run(Run(a, s), t)
    ensures AllSent(a, s + t) == AllSent(a, s) + AllSent(Run(a, s), t)
    decreases |t|
  {
    hide Run, AllSent, Next, Sent;
    if t == [] {
      RunNothing(Run(a, s));
      assert s + t == s;
    } else {
      var front, last := t[..|t| - 1], t[|t| - 1];
      assert s + t == s + front + [last] && t == front + [last];
      RunConcat(a, s, front);
      RunSnoc(a, s + front, last);
      RunSnoc(Run(a, s), front, last);
    }
  }

  /**
   End to end. An agent runs from its start: `first`, then `second`, then `third`. The global hub
   writes the full bundle as it was after `first`, the complete bundle as it was after `second` and
   based on the same full generation, and all deltas ever sent on that complete bundle, merged into
   packs in any way. As long as neither the full bundle nor the base of the deltas has moved on,
   the table then lacks exactly what is still pending at the leaf hub.
   */
  lemma TableFollowsLeafHub(start: Agent, first: seq<Step>, second: seq<Step>, third: seq<Step>, packs: seq<seq<Delta>>)
    requires Initial(start)
    requires forall i :: 0 <= i < |packs| ==> packs[i] != []
    requires var a := Run(start, first); var b := Run(a, second); var c := Run(b, third);
             && b.full.generation == a.full.generation == c.full.generation
             && c.delta.base == b.complete.generation
             && Concat(packs) == DeltasOn(AllSent(start, first + second + third),
                                          Version(start.incarnation, b.complete.generation))
    ensures var a := Run(start, first); var b := Run(a, second); var c := Run(b, third);
            var table := WriteAll(Implied(Live(a), Flatten(b.complete.view)), PackAll(packs));
            && Write(table, Flatten(c.delta.pending)) == Live(c)
            && (c.delta.pending == map[] ==> table == Live(c))
  {
    var a := Run(start, first);
    var b := Run(a, second);
    var c := Run(b, third);
    var base := Version(start.incarnation, b.complete.generation);
    StartIsQuiet(start);
    EarlyDeltasAreHarmless(start, first, 0);
    RunConcat(start, first, second);
    EarlyDeltasAreHarmless(start, first + second, b.complete.generation);
    var early, late := DeltasOn(AllSent(start, first + second), base), DeltasOn(AllSent(b, third), base);
    RunConcat(start, first + second, third);
    DeltasOnConcat(AllSent(start, first + second), AllSent(b, third), base);
    CompleteBundleDecodes(a, second);
    DeltasFollowLive(b, third);
    assert WriteAll(Live(b), early) == Live(b) by {
      HarmlessWrites(b.full.view, b.complete.view, early);
    }
    assert Concat(packs) == early + late;
    WriteAllSplit(Live(b), early, late);
    DeltasShareBase(AllSent(start, first + second + third), base);
    ConflationPreservesMeaning(Live(b), packs);
    NothingWritten(WriteAll(Live(b), late), "");
    hide Inv, Quiet, Run, AllSent, DeltasOn, Flatten, Write, WriteAll, PackAll;
  }

  lemma StartIsQuiet(start: Agent)
    requires Initial(start)
    ensures Inv(start) && Quiet(start)
  {
    NothingFlat();
    hide Flatten;
  }

  lemma {:induction false} DeltasShareBase(messages: seq<Message>, base: Version)
    ensures OneBase(DeltasOn(messages, base))
    ensures forall d :: d in DeltasOn(messages, base) ==> d.base == base
    decreases |messages|
  {
    if messages != [] {
      DeltasShareBase(messages[..|messages| - 1], base);
    }
  }
}
