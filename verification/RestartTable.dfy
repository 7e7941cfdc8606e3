/**
 The table after a restart: a new unit over the table that the last one left reads the deltas again
 from some point on, while their full and complete bundles were written and committed before.
 */
module RestartTable {
  import opened AgentState
  import opened Compliance
  import opened Conflation
  import opened ConflationDeltas
  import opened ConflationLine
  import opened ConflationTable
  import opened DeltaMerge
  import opened EndToEnd
  import opened PipelineRuns
  import opened Versions
  import Hub = ConflationRuns
  import Leaf = AgentRuns

  // ---------------------------------------------------------------- writing again

  lemma {:induction false} EffectsConcat(a: seq<Delta>, b: seq<Delta>)
    ensures Effects(a + b) == Effects(a) + Effects(b)
    decreases |b|
  {
    if b == [] {
      assert a + b == a;
    } else {
      var front := b[..|b| - 1];
      assert (a + b)[..|a + b| - 1] == a + front;
      EffectsConcat(a, front);
      assert Effects(a) + Effects(front) + b[|b| - 1].effect == Effects(a) + (Effects(front) + b[|b| - 1].effect);
    }
  }

  /** Writing a part twice in a row is writing it once. */
  lemma WriteAgain(table: Table, part: seq<Delta>)
    ensures WriteAll(WriteAll(table, part), part) == WriteAll(table, part)
  {
    hide WriteAll, Write, Effects;
    WriteAllIsWrite(table, part);
    WriteAllIsWrite(WriteAll(table, part), part);
    WriteTwice(table, Effects(part), Effects(part));
    assert Effects(part) + Effects(part) == Effects(part);
  }

  /** Deltas that are read again from a point that was written leave what each of them once would. */
  lemma RereadIsHarmless(table: Table, deltas: seq<Delta>, l: nat, w: nat)
    requires l <= w <= |deltas|
    ensures WriteAll(WriteAll(table, deltas[..w]), deltas[l..]) == WriteAll(table, deltas)
  {
    hide WriteAll;
    var a, b, c := deltas[..l], deltas[l..w], deltas[w..];
    assert deltas[..w] == a + b && deltas[l..] == b + c && deltas == a + b + c;
    WriteAllSplit(table, a, b);
    WriteAllSplit(WriteAll(table, a + b), b, c);
    WriteAgain(WriteAll(table, a), b);
    WriteAllSplit(table, a + b, c);
  }

  /** Deltas that are neither written nor read again are lost, unless later ones or the table say the same. */
  lemma SkippedAreLostIff(table: Table, deltas: seq<Delta>, l: nat, w: nat)
    requires w <= l <= |deltas|
    ensures WriteAll(WriteAll(table, deltas[..w]), deltas[l..]) == WriteAll(table, deltas) <==>
            !Lost(WriteAll(table, deltas[..w]), Effects(deltas[w..l]), Effects(deltas[l..]))
  {
    hide WriteAll, Write, Effects, Lost;
    var written, skipped, read := deltas[..w], deltas[w..l], deltas[l..];
    var t := WriteAll(table, written);
    assert deltas == written + (skipped + read);
    WriteAllSplit(table, written, skipped + read);
    WriteAllSplit(t, skipped, read);
    WriteAllIsWrite(t, skipped);
    WriteAllIsWrite(WriteAll(t, skipped), read);
    WriteAllIsWrite(t, read);
    LostIff(t, Effects(skipped), Effects(read));
  }

  // ---------------------------------------------------------------- the unit after the restart

  ghost predicate NoneArrives(work: seq<Hub.Step>, i: nat) {
    Arriving(work, i, b => false)
  }

  predicate AllOn(deltas: seq<Delta>, g: Version) {
    forall d :: d in deltas ==> d.base == g
  }

  lemma SameElements(s: Hub.State, step: Hub.Step)
    requires Hub.Valid(s) && Hub.Enabled(s, step)
    ensures |Hub.Next(s, step).unit.elements| == |s.unit.elements|
  {
    hide Stored, Reported, Dispatch;
    if step.Report? {
      assert s.flights[step.flight] in s.flights;
    }
  }

  lemma {:induction false} QuietOnOneBase(s: Hub.State, work: seq<Hub.Step>, i: nat, g: Version)
    requires Hub.Valid(s) && Hub.RunEnabled(s, work) && i < |s.unit.elements| && QuietFailures(s, work, i)
    requires AllOn(Offers(work, i), g)
    ensures QuietRun(s, work, i, g)
    decreases |work|
  {
    if work != [] {
      SameElements(s, work[0]);
      hide Hub.Next;
      QuietOnOneBase(Hub.Next(s, work[0]), work[1..], i, g);
    }
  }

  lemma {:induction false} NothingOfType(written: seq<Hub.Flight>, i: nat)
    requires LastOf(written, i).None?
    ensures Since(written, i) == written && forall f :: f in written ==> f.priority != i
    decreases |written|
  {
    if written != [] {
      NothingOfType(written[..|written| - 1], i);
      assert written == written[..|written| - 1] + [written[|written| - 1]];
    }
  }

  /** With deltas only, the table is the old one with the packs written over it. */
  lemma OnlyPacksWritten(written: seq<Hub.Flight>, t: Table, k: Types, x: Contents)
    requires TableLine(written, t, k, x) && LastOf(written, k.full).None? && LastOf(written, k.complete).None?
    ensures AllDeltaBundles(WritesOf(written, k.delta))
    ensures TableOf(written, t, k, x) == WriteAll(t, DeltasOf(WritesOf(written, k.delta)))
  {
    hide TableOf, WritesOf, LastOf, Since, WriteAll;
    NothingOfType(written, k.full);
    NothingOfType(written, k.complete);
  }

  lemma NothingIsWritten(s: Hub.State, work: seq<Hub.Step>, i: nat)
    requires Hub.Initial(s) && Hub.RunEnabled(s, work) && i < |s.unit.elements| && s.unit.elements[i].info.CompleteInfo?
    requires NoneArrives(work, i)
    ensures LastOf(Hub.Run(s, work).written, i).None?
  {
    hide Hub.Run, LastOf, Arriving;
    var last := LastOf(Hub.Run(s, work).written, i);
    if last.Some? {
      LastWrittenArrived(s, work, i, b => false, last.value);
    }
  }

  /** What the unit still holds. */
  ghost function Rest(v: View): seq<Bundle> {
    (if v.flying.Some? then [v.flying.value] else []) + (if v.pending.Some? then [v.pending.value] else [])
  }

  lemma RestIsLeft(v: View)
    ensures Outcome(v) == v.writes + Rest(v)
  {
  }

  /** A new unit that reads deltas of one base only writes, or still holds, exactly these over the old table. */
  lemma TableOfDeltasRead(s: Hub.State, work: seq<Hub.Step>, t: Table, k: Types, x: Contents, g: Version)
    requires Hub.Initial(s) && Wired(s.unit, k) && Hub.RunEnabled(s, work) && QuietFailures(s, work, k.delta)
    requires NoneArrives(work, k.full) && NoneArrives(work, k.complete)
    requires Ordered(Offers(work, k.delta), g) && AllOn(Offers(work, k.delta), g)
    ensures var r := Hub.Run(s, work);
            && Hub.Safe(r) && k.delta < |r.unit.elements| && r.unit.elements[k.delta].info.DeltaInfo?
            && AllDeltaBundles(Rest(ViewOf(r, k.delta)))
            && WriteAll(TableOf(r.written, t, k, x), DeltasOf(Rest(ViewOf(r, k.delta)))) ==
               WriteAll(t, Offers(work, k.delta))
  {
    hide Hub.Initial, Hub.InFlight, Hub.NoWorkLeft, Hub.InOrder, Hub.Run, Hub.RunEnabled, QuietFailures, Wired, ViewOf;
    hide TableOf, LastOf, WritesOf, UpTo, Ordered, Offers, LineConserved, WriteAll, DeltasOf, Deltas, TableLine;
    hide Outcome;
    hide Processed, RunCut, NoneArrives, QuietRun, AllOn, Rest;
    var i := k.delta;
    StartIsTabled(s, t, k, x);
    StartHasTypes(s, k);
    StartWired(s, k);
    EveryRunIsTabled(s, work, t, k, x);
    NothingIsWritten(s, work, k.full);
    NothingIsWritten(s, work, k.complete);
    OnlyPacksWritten(Hub.Run(s, work).written, t, k, x);
    StartIsFollowed(s, i, g);
    assert [] + Offers(work, i) == Offers(work, i);
    EveryRunIsFollowed(s, work, i, g, Cut([], [], []), []);
    QuietOnOneBase(s, work, i, g);
    NoDeltaIsLost(s, work, i, g, t);
    var v := ViewOf(Hub.Run(s, work), i);
    ViewWrites(Hub.Run(s, work), i);
    RestIsLeft(v);
    assert forall q :: 0 <= q < |Rest(v)| ==> Rest(v)[q] == Outcome(v)[|v.writes| + q];
    WriteAllMore(t, v.writes, Rest(v));
  }

  // ---------------------------------------------------------------- and the leaf hub

  lemma {:induction false} OrderedOnBase(deltas: seq<Delta>, g: Version)
    requires Ordered(deltas, g)
    ensures Ordered(DeltasOnBase(deltas, g), g) && AllOn(DeltasOnBase(deltas, g), g)
    ensures forall d :: d in DeltasOnBase(deltas, g) ==> d in deltas
    decreases |deltas|
  {
    if deltas != [] {
      var front, last := deltas[..|deltas| - 1], deltas[|deltas| - 1];
      assert deltas == front + [last];
      OrderedPrefix(front, [last], g);
      OrderedOnBase(front, g);
      LastIsNewest(front, last, g);
      if last.base == g {
        OrderedSnoc(DeltasOnBase(front, g), last, g);
      }
    }
  }

  lemma LastIsNewest(front: seq<Delta>, last: Delta, g: Version)
    requires Ordered(front + [last], g)
    ensures last.version.NewerThan(NO_VERSION) && !last.base.NewerThan(g)
    ensures forall d :: d in front ==> last.version.NewerThan(d.version) && !d.base.NewerThan(last.base)
  {
    var all := front + [last];
    assert all[|front|] == last;
    forall d | d in front
      ensures last.version.NewerThan(d.version) && !d.base.NewerThan(last.base)
    {
      var i :| 0 <= i < |front| && front[i] == d;
      assert all[i] == d;
    }
  }

  lemma OrderedSnoc(deltas: seq<Delta>, last: Delta, g: Version)
    requires Ordered(deltas, g) && last.version.NewerThan(NO_VERSION) && !last.base.NewerThan(g)
    requires forall d :: d in deltas ==> last.version.NewerThan(d.version) && !d.base.NewerThan(last.base)
    ensures Ordered(deltas + [last], g)
  {
  }

  lemma AllOnSuffix(deltas: seq<Delta>, g: Version, l: nat)
    requires AllOn(deltas, g) && l <= |deltas|
    ensures AllOn(deltas[l..], g)
  {
  }

  /**
   A restart while deltas are sent: the old table has the full bundle sent at `i`, the complete bundle
   based on it sent at `j` and the first `w` deltas on that. A new unit reads the deltas again from the
   `l`-th on, in every interleaving. If none is skipped, its table lacks what it still holds and what is
   pending at the leaf hub.
   */
  lemma RestartKeepsTable(start: Agent, steps: seq<Leaf.Step>, i: nat, j: nat, s: Hub.State, work: seq<Hub.Step>,
                          k: Types, x: Contents, t: Table, l: nat, w: nat)
    requires Leaf.Initial(start) && i < |steps| && j < |steps|
    requires var a, b, c := Leaf.Run(start, steps[..i]), Leaf.Run(start, steps[..j]), Leaf.Run(start, steps);
             && a.full.generation == b.full.generation == c.full.generation && c.delta.base == b.complete.generation
    requires var a, b := Leaf.Run(start, steps[..i]), Leaf.Run(start, steps[..j]);
             var deltas := DeltasOn(Leaf.AllSent(start, steps), Version(start.incarnation, b.complete.generation));
             && l <= w <= |deltas| && Offers(work, k.delta) == deltas[l..]
             && t == WriteAll(Implied(Live(a), Flatten(b.complete.view)), deltas[..w])
    requires Hub.Initial(s) && Wired(s.unit, k) && Hub.RunEnabled(s, work) && QuietFailures(s, work, k.delta)
    requires NoneArrives(work, k.full) && NoneArrives(work, k.complete)
    ensures var c, r := Leaf.Run(start, steps), Hub.Run(s, work);
            && Hub.Safe(r) && k.delta < |r.unit.elements| && r.unit.elements[k.delta].info.DeltaInfo?
            && AllDeltaBundles(Rest(ViewOf(r, k.delta)))
            && Write(WriteAll(TableOf(r.written, t, k, x), DeltasOf(Rest(ViewOf(r, k.delta)))),
                     Flatten(c.delta.pending)) == Live(c)
  {
    hide Leaf.Run, Leaf.AllSent, Leaf.Initial, Hub.Run, Hub.RunEnabled, Hub.InFlight, QuietFailures, Wired, NoneArrives;
    hide Flatten, Implied, Write, WriteAll, DeltasOn, DeltasOnBase, DeltasOf, Rest, TableOf, LastOf, ViewOf, AllOn;
    hide Ordered, Offers, DeltasIn;
    var a, b := Leaf.Run(start, steps[..i]), Leaf.Run(start, steps[..j]);
    var g, messages := Version(start.incarnation, b.complete.generation), Leaf.AllSent(start, steps);
    var deltas := DeltasOn(messages, g);
    SameIncarnations(start, steps);
    EveryRunSendsInOrder(start, steps);
    DeltasInOnBase(messages, g);
    OrderedOnBase(DeltasIn(messages), g);
    OrderedSuffix(deltas, l, g);
    AllOnSuffix(deltas, g, l);
    TableOfDeltasRead(s, work, t, k, x, g);
    RereadIsHarmless(Implied(Live(a), Flatten(b.complete.view)), deltas, l, w);
    WrittenIsLive(start, steps, i, j);
  }
}
