/**
 The table that a conflation unit's reported writes leave, in every interleaving: full bundles,
 complete bundles that depend on them and deltas that depend on those.
 */
module ConflationTable {
  import opened Compliance
  import opened Conflation
  import opened ConflationDeltas
  import opened ConflationRuns
  import opened DeltaMerge
  import opened Options
  import opened Versions

  /** The elements of the three types. */
  datatype Types = Types(full: nat, complete: nat, delta: nat)

  /** What the bundles of a version say: all rows, or the rows that are not compliant and the base. */
  datatype Contents = Contents(full: Version -> Table, listed: Version -> Table, base: Version -> Version)

  // ---------------------------------------------------------------- the table

  /** The table after the writes, in their order. */
  function TableOf(written: seq<Flight>, t: Table, k: Types, x: Contents): Table
    decreases |written|
  {
    if written == [] then t
    else
      var before, last := TableOf(written[..|written| - 1], t, k, x), written[|written| - 1];
      if last.priority == k.full then x.full(last.bundle.Version())
      else if last.priority == k.complete then Implied(before, x.listed(last.bundle.Version()))
      else if last.priority == k.delta && last.bundle.DeltaBundle? then Write(before, last.bundle.delta.effect)
      else before
  }

  function LastOf(written: seq<Flight>, i: nat): Option<Bundle>
    decreases |written|
  {
    if written == [] then None
    else if written[|written| - 1].priority == i then Some(written[|written| - 1].bundle)
    else LastOf(written[..|written| - 1], i)
  }

  function VersionOf(b: Option<Bundle>): Version {
    if b.Some? then b.value.Version() else NO_VERSION
  }

  predicate AllDeltaBundles(writes: seq<Bundle>) {
    forall k :: 0 <= k < |writes| ==> writes[k].DeltaBundle?
  }

  /** The packs among the writes that are based on a complete bundle. */
  function PacksOn(writes: seq<Bundle>, g: Version): (r: seq<Bundle>)
    ensures AllDeltaBundles(r)
    decreases |writes|
  {
    if writes == [] then []
    else
      var front, last := PacksOn(writes[..|writes| - 1], g), writes[|writes| - 1];
      if last.DeltaBundle? && last.delta.base == g then front + [last] else front
  }

  /** The writes after the last one of type `i`. */
  function Since(written: seq<Flight>, i: nat): seq<Flight>
    decreases |written|
  {
    if written == [] || written[|written| - 1].priority == i then []
    else Since(written[..|written| - 1], i) + [written[|written| - 1]]
  }

  /** The writes up to the last one of type `i`. */
  function Before(written: seq<Flight>, i: nat): seq<Flight>
    decreases |written|
  {
    if written == [] || written[|written| - 1].priority == i then written
    else Before(written[..|written| - 1], i)
  }

  /** The packs written since the last complete bundle. */
  function LinePacks(written: seq<Flight>, k: Types): seq<Bundle> {
    WritesOf(Since(written, k.complete), k.delta)
  }

  /** The packs on the last complete bundle that were written before it. */
  function EarlyPacks(written: seq<Flight>, k: Types): (r: seq<Bundle>)
    ensures AllDeltaBundles(r)
  {
    PacksOn(WritesOf(Before(written, k.complete), k.delta), VersionOf(LastOf(written, k.complete)))
  }

  /** The last complete bundle was written after the last full one. */
  predicate FullFirst(written: seq<Flight>, k: Types) {
    forall f :: f in Since(written, k.complete) ==> f.priority != k.full
  }

  /** The rows of the last full bundle, or those from the start. */
  function FullTable(written: seq<Flight>, t: Table, k: Types, x: Contents): Table {
    var y := LastOf(written, k.full);
    if y.Some? then x.full(y.value.Version()) else t
  }

  /** What the last full and the last complete bundle say together. */
  function BaseTable(written: seq<Flight>, t: Table, k: Types, x: Contents): Table {
    var full, z := FullTable(written, t, k, x), LastOf(written, k.complete);
    if z.Some? then Implied(full, x.listed(z.value.Version())) else full
  }

  /** All packs since the last complete bundle are based on it. */
  ghost predicate OnLast(written: seq<Flight>, k: Types) {
    var z := LastOf(written, k.complete);
    && AllDeltaBundles(WritesOf(written, k.delta)) && AllDeltaBundles(LinePacks(written, k))
    && (z.Some? ==> z.value.Version() != NO_VERSION
                    && forall w :: w in LinePacks(written, k) ==> w.delta.base == z.value.Version())
  }

  /**
   The rows are those of the last full bundle. If the last complete bundle was written after it, the
   table is what these two and the packs since then say.
   */
  ghost predicate TableLine(written: seq<Flight>, t: Table, k: Types, x: Contents) {
    && OnLast(written, k)
    && TableOf(written, t, k, x).Keys == FullTable(written, t, k, x).Keys
    && (FullFirst(written, k) ==>
          TableOf(written, t, k, x) == WriteAll(BaseTable(written, t, k, x), DeltasOf(LinePacks(written, k))))
  }

  lemma WrittenSnoc(written: seq<Flight>, q: Flight)
    ensures (written + [q])[..|written|] == written
    ensures forall i :: LastOf(written + [q], i) == if q.priority == i then Some(q.bundle) else LastOf(written, i)
    ensures forall i :: Since(written + [q], i) == if q.priority == i then [] else Since(written, i) + [q]
    ensures forall i :: Before(written + [q], i) == if q.priority == i then written + [q] else Before(written, i)
  {
    assert (written + [q])[..|written|] == written;
  }

  lemma LinePacksSnoc(written: seq<Flight>, q: Flight, k: Types)
    ensures LinePacks(written + [q], k) ==
            if q.priority == k.complete then []
            else if q.priority == k.delta then LinePacks(written, k) + [q.bundle] else LinePacks(written, k)
    ensures WritesOf(written + [q], k.delta) ==
            if q.priority == k.delta then WritesOf(written, k.delta) + [q.bundle] else WritesOf(written, k.delta)
  {
    WrittenSnoc(written, q);
    WritesSnoc(written, q, k.delta);
    WritesSnoc(Since(written, k.complete), q, k.delta);
  }

  lemma ImpliedByKeys(t: Table, u: Table, listed: Table)
    requires t.Keys == u.Keys
    ensures Implied(t, listed) == Implied(u, listed)
  {
  }

  lemma PacksOnSnoc(writes: seq<Bundle>, w: Bundle, g: Version)
    ensures PacksOn(writes + [w], g) ==
            if w.DeltaBundle? && w.delta.base == g then PacksOn(writes, g) + [w] else PacksOn(writes, g)
  {
    assert (writes + [w])[..|writes|] == writes;
  }

  lemma FullWritten(written: seq<Flight>, q: Flight, t: Table, k: Types, x: Contents)
    requires TableLine(written, t, k, x) && q.priority == k.full && k.full != k.complete && k.full != k.delta
    ensures TableLine(written + [q], t, k, x)
  {
    hide WritesOf, LastOf, Since, Before, LinePacks, BaseTable, AllDeltaBundles;
    WrittenSnoc(written, q);
    LinePacksSnoc(written, q, k);
    assert q in Since(written + [q], k.complete);
  }

  lemma CompleteWritten(written: seq<Flight>, q: Flight, t: Table, k: Types, x: Contents)
    requires TableLine(written, t, k, x) && q.priority == k.complete && k.full != k.complete && k.complete != k.delta
    requires q.bundle.Version() != NO_VERSION
    ensures TableLine(written + [q], t, k, x)
  {
    hide WritesOf, LastOf, Since, Before, LinePacks, Implied, WriteAll, DeltasOf;
    WrittenSnoc(written, q);
    LinePacksSnoc(written, q, k);
    var before, listed := TableOf(written, t, k, x), x.listed(q.bundle.Version());
    ImpliedByKeys(before, FullTable(written, t, k, x), listed);
    NothingMore(FullTable(written, t, k, x), listed);
  }

  lemma NothingMore(t: Table, listed: Table)
    ensures WriteAll(Implied(t, listed), DeltasOf([])) == Implied(t, listed)
    ensures Implied(t, listed).Keys == t.Keys
  {
  }

  lemma DeltaWritten(written: seq<Flight>, q: Flight, t: Table, k: Types, x: Contents)
    requires TableLine(written, t, k, x) && q.priority == k.delta && k.full != k.delta && k.complete != k.delta
    requires q.bundle.DeltaBundle?
    requires LastOf(written, k.complete).Some? ==> q.bundle.delta.base == LastOf(written, k.complete).value.Version()
    ensures TableLine(written + [q], t, k, x)
  {
    hide WritesOf, LastOf, Since, Before, LinePacks, Implied, WriteAll, DeltasOf, Write;
    WrittenSnoc(written, q);
    LinePacksSnoc(written, q, k);
    DeltaKeepsRows(TableOf(written, t, k, x), q.bundle.delta.effect);
    OnePackMoreWritten(BaseTable(written, t, k, x), LinePacks(written, k), q.bundle);
    assert FullFirst(written + [q], k) ==> FullFirst(written, k) by {
      assert forall f :: f in Since(written, k.complete) ==> f in Since(written + [q], k.complete);
    }
  }

  lemma DeltaKeepsRows(t: Table, effect: Table)
    ensures Write(t, effect).Keys == t.Keys
  {
  }

  lemma OnePackMoreWritten(start: Table, packs: seq<Bundle>, w: Bundle)
    requires AllDeltaBundles(packs) && w.DeltaBundle?
    ensures AllDeltaBundles(packs + [w])
    ensures WriteAll(start, DeltasOf(packs + [w])) == Write(WriteAll(start, DeltasOf(packs)), w.delta.effect)
  {
    hide Write, WriteAll;
    assert DeltasOf(packs + [w]) == DeltasOf(packs) + [w.delta];
    WriteAllSplit(start, DeltasOf(packs), [w.delta]);
    WriteOne(WriteAll(start, DeltasOf(packs)), w.delta);
  }

  lemma OtherWritten(written: seq<Flight>, q: Flight, t: Table, k: Types, x: Contents)
    requires TableLine(written, t, k, x)
    requires q.priority != k.full && q.priority != k.complete && q.priority != k.delta
    ensures TableLine(written + [q], t, k, x)
  {
    hide WritesOf, LastOf, Since, Before, LinePacks, AllDeltaBundles;
    WrittenSnoc(written, q);
    LinePacksSnoc(written, q, k);
    assert FullFirst(written + [q], k) ==> FullFirst(written, k) by {
      assert forall f :: f in Since(written, k.complete) ==> f in Since(written + [q], k.complete);
    }
  }

  // ---------------------------------------------------------------- the unit writes in this order

  /** The three types as policies register them. */
  ghost predicate Wired(u: Unit, k: Types)
    requires u.Valid()
  {
    && k.full < |u.elements| && k.complete < |u.elements| && k.delta < |u.elements|
    && k.full != k.complete && k.full != k.delta && k.complete != k.delta
    && u.elements[k.full].info.CompleteInfo? && u.elements[k.complete].info.CompleteInfo?
    && u.elements[k.delta].info.DeltaInfo? && u.elements[k.full].dependency.None?
    && u.elements[k.complete].dependency == Some(Dependency(k.full, true))
    && u.elements[k.delta].dependency == Some(Dependency(k.complete, true))
  }

  /** The last processed version of a complete-state type is that of its last written bundle. */
  ghost predicate Processed(s: State, i: nat)
    requires Valid(s)
  {
    i < |s.unit.elements| && s.unit.elements[i].lastProcessed == VersionOf(LastOf(s.written, i))
  }

  lemma StaysWired(s: State, step: Step, k: Types)
    requires Valid(s) && Enabled(s, step) && Wired(s.unit, k)
    ensures Wired(Next(s, step).unit, k)
  {
    match step
    case Arrive(i, b, partition, offset) =>
    case GetNext =>
    case Report(n, success) =>
      assert s.flights[n] in s.flights;
  }

  /** What a report does not touch, and what it writes. */
  lemma ReportShape(s: State, success: bool)
    requires Safe(s) && s.flights != []
    ensures var f, r := s.flights[0], Next(s, Report(0, success));
            && s.flights == [f] && FlightValid(s.unit, f) && FlightHolds(s.unit, f) && DeltaRecoverable(s.unit, f)
            && r.unit.elements == Reported(s.unit, f.meta, success).elements && r.flights == []
            && r.written == (if success then s.written + [f] else s.written)
            && |r.unit.elements| == |s.unit.elements|
            && forall i :: 0 <= i < |s.unit.elements| && i != f.priority ==> r.unit.elements[i] == s.unit.elements[i]
  {
    assert s.flights[0] in s.flights;
    assert PendingNamed(s.unit, s.flights[0].priority);
    ReportedTouches(s.unit, s.flights[0], success);
    hide Reported, DependencyHolds, AnyReady, AnyInProcess;
  }

  lemma ArriveWritesNothing(s: State, j: nat, b: Bundle, partition: int, offset: int)
    requires Safe(s) && j < |s.unit.elements|
    ensures var r := Next(s, Arrive(j, b, partition, offset));
            && r.written == s.written && |r.unit.elements| == |s.unit.elements| && r.flights == s.flights
            && forall i :: 0 <= i < |s.unit.elements| ==>
                 r.unit.elements[i].lastProcessed == s.unit.elements[i].lastProcessed
  {
    if Accepts(s.unit, j, b) {
      StoredTouches(s.unit, j, b, partition, offset);
      assert Stored(s.unit, j, b, partition, offset).elements[j].lastProcessed == s.unit.elements[j].lastProcessed;
    }
    hide Safe, UpdateInfo, Accepts, AnyReady, AnyInProcess;
  }

  /** Nothing is written and nothing counts as processed. */
  lemma NothingWritten(s: State, step: Step, i: nat)
    requires Safe(s) && Enabled(s, step) && i < |s.unit.elements| && !(step.Report? && step.success)
    ensures Next(s, step).written == s.written && i < |Next(s, step).unit.elements|
    ensures Next(s, step).unit.elements[i].lastProcessed == s.unit.elements[i].lastProcessed
  {
    match step
    case Arrive(j, b, partition, offset) => ArriveWritesNothing(s, j, b, partition, offset);
    case GetNext =>
    case Report(n, _) =>
      assert s.flights[n] in s.flights && n == 0;
      ReportShape(s, false);
      assert Reported(s.unit, s.flights[0].meta, false).elements[s.flights[0].priority].lastProcessed ==
             s.unit.elements[s.flights[0].priority].lastProcessed;
      hide Safe, DeltaRecoverable, FlightHolds, AnyReady, AnyInProcess;
  }

  /** A successful report writes the bundle in flight, which is newer than all of its type before. */
  lemma FlightWritten(s: State, q: Flight, i: nat)
    requires Safe(s) && InOrder(s) && s.flights == [q] && i < |s.unit.elements| && s.unit.elements[i].info.CompleteInfo?
    ensures var r := Next(s, Report(0, true));
            && r.written == s.written + [q] && i < |r.unit.elements|
            && r.unit.elements[i].lastProcessed ==
               (if q.priority == i then q.bundle.Version() else s.unit.elements[i].lastProcessed)
    ensures q.priority == i ==> q.bundle.Version().NewerThan(s.unit.elements[i].lastProcessed)
  {
    assert s.flights[0] == q && q in s.flights;
    assert FlightHolds(s.unit, q) && Fresh(s, i);
    hide DependencyHolds, PendingNamed, DeltaRecoverable, ChainInProcess;
  }

  /** A pack in flight is based on the complete bundle processed last, if there is one. */
  lemma FlightDepends(s: State, q: Flight, k: Types)
    requires Safe(s) && s.flights == [q] && Wired(s.unit, k) && q.priority == k.delta
    ensures q.bundle.DeltaBundle?
    ensures s.unit.elements[k.complete].lastProcessed != NO_VERSION ==>
      q.bundle.delta.base == s.unit.elements[k.complete].lastProcessed
  {
    hide PendingNamed, ChainInProcess;
    assert s.flights[0] == q && q in s.flights;
    assert FlightHolds(s.unit, q) && DeltaRecoverable(s.unit, q);
  }

  ghost predicate Tabled(s: State, t: Table, k: Types, x: Contents)
    requires Valid(s)
  {
    Wired(s.unit, k) && Processed(s, k.full) && Processed(s, k.complete) && TableLine(s.written, t, k, x)
  }

  lemma WriteKeepsProcessed(s: State, q: Flight, i: nat)
    requires Safe(s) && InOrder(s) && s.flights == [q] && Processed(s, i) && s.unit.elements[i].info.CompleteInfo?
    ensures Processed(Next(s, Report(0, true)), i)
    ensures Next(s, Report(0, true)).written == s.written + [q]
    ensures q.priority == i ==> q.bundle.Version().NewerThan(VersionOf(LastOf(s.written, i)))
  {
    FlightWritten(s, q, i);
    assert (s.written + [q])[..|s.written|] == s.written;
    hide Safe, InOrder, Next;
  }

  lemma WriteKeepsTabled(s: State, q: Flight, t: Table, k: Types, x: Contents)
    requires Safe(s) && InOrder(s) && s.flights == [q] && Tabled(s, t, k, x)
    ensures Tabled(Next(s, Report(0, true)), t, k, x)
  {
    StaysWired(s, Report(0, true), k);
    WriteKeepsProcessed(s, q, k.full);
    WriteKeepsProcessed(s, q, k.complete);
    if q.priority == k.delta {
      FlightDepends(s, q, k);
    }
    hide Safe, InOrder, Next, TableOf, LastOf, FullTable, BaseTable, LinePacks, FullFirst;
    if q.priority == k.full {
      FullWritten(s.written, q, t, k, x);
    } else if q.priority == k.complete {
      CompleteWritten(s.written, q, t, k, x);
    } else if q.priority == k.delta {
      DeltaWritten(s.written, q, t, k, x);
    } else {
      OtherWritten(s.written, q, t, k, x);
    }
  }

  lemma StepKeepsTabled(s: State, step: Step, t: Table, k: Types, x: Contents)
    requires Safe(s) && InOrder(s) && Enabled(s, step) && Tabled(s, t, k, x)
    ensures Tabled(Next(s, step), t, k, x)
  {
    if step.Report? && step.success {
      assert s.flights == [s.flights[0]] && step == Report(0, true);
      WriteKeepsTabled(s, s.flights[0], t, k, x);
    } else {
      StaysWired(s, step, k);
      NothingWritten(s, step, k.full);
      NothingWritten(s, step, k.complete);
      hide Safe, InOrder, Next, TableLine, LastOf;
    }
  }

  // ---------------------------------------------------------------- every run

  lemma StepIsInOrder(s: State, step: Step)
    requires Safe(s) && InOrder(s) && Enabled(s, step)
    ensures InOrder(Next(s, step))
  {
    match step
    case Arrive(i, b, partition, offset) => ArriveInOrder(s, i, b, partition, offset);
    case GetNext => GetNextInOrder(s);
    case Report(n, success) => ReportInOrder(s, n, success);
  }

  /** What the reported writes leave in the table, in every interleaving. */
  lemma {:induction false} EveryRunIsTabled(s: State, steps: seq<Step>, t: Table, k: Types, x: Contents)
    requires Safe(s) && NoWorkLeft(s) && InOrder(s) && RunEnabled(s, steps) && Tabled(s, t, k, x)
    ensures Tabled(Run(s, steps), t, k, x)
    decreases |steps|
  {
    hide InFlight, NoWorkLeft, InOrder, Tabled, Next;
    if steps != [] {
      StepIsSafe(s, steps[0]);
      StepIsInOrder(s, steps[0]);
      StepKeepsTabled(s, steps[0], t, k, x);
      EveryRunIsTabled(Next(s, steps[0]), steps[1..], t, k, x);
    }
  }

  lemma StartIsTabled(s: State, t: Table, k: Types, x: Contents)
    requires Initial(s) && Wired(s.unit, k)
    ensures Safe(s) && NoWorkLeft(s) && InOrder(s) && Tabled(s, t, k, x)
  {
    InitialIsSafe(s);
  }

  // ---------------------------------------------------------------- what is written has arrived

  /** Everything of a complete-state type in the unit, and everything written of it, is one of these bundles. */
  ghost predicate Brought(s: State, i: nat, p: Bundle -> bool)
    requires Valid(s) && i < |s.unit.elements|
  {
    && (s.unit.elements[i].info.bundle.Some? ==> p(s.unit.elements[i].info.bundle.value))
    && (forall f :: f in s.flights && f.priority == i ==> p(f.bundle))
    && (LastOf(s.written, i).Some? ==> p(LastOf(s.written, i).value))
  }

  lemma StoredIsBrought(u: Unit, j: nat, b: Bundle, partition: int, offset: int, i: nat)
    requires u.Valid() && i < |u.elements| && j < |u.elements| && Accepts(u, j, b) && u.elements[i].info.CompleteInfo?
    ensures Stored(u, j, b, partition, offset).elements[i].info.bundle ==
            if i == j then Some(b) else u.elements[i].info.bundle
  {
  }

  lemma ArriveBrings(s: State, j: nat, b: Bundle, partition: int, offset: int, i: nat, p: Bundle -> bool)
    requires Safe(s) && j < |s.unit.elements| && i < |s.unit.elements| && s.unit.elements[i].info.CompleteInfo?
    requires Brought(s, i, p) && (j == i ==> p(b))
    ensures Brought(Next(s, Arrive(j, b, partition, offset)), i, p)
  {
    if Accepts(s.unit, j, b) {
      StoredIsBrought(s.unit, j, b, partition, offset, i);
      var r := Next(s, Arrive(j, b, partition, offset));
      assert r.unit.elements == Stored(s.unit, j, b, partition, offset).elements;
    }
    hide Stored, InFlight, LastOf;
  }

  lemma ReportBrings(s: State, success: bool, i: nat, p: Bundle -> bool)
    requires Safe(s) && s.flights != [] && i < |s.unit.elements| && s.unit.elements[i].info.CompleteInfo?
    requires Brought(s, i, p)
    ensures Brought(Next(s, Report(0, success)), i, p)
  {
    var f := s.flights[0];
    ReportShape(s, success);
    assert f in s.flights && (s.written + [f])[..|s.written|] == s.written;
    var e := Reported(s.unit, f.meta, success).elements[f.priority];
    assert f.priority == i ==> e.info.bundle.Some? ==> e.info.bundle == s.unit.elements[i].info.bundle;
    hide InFlight, DeltaRecoverable, FlightHolds, Next;
  }

  lemma StepBrings(s: State, step: Step, i: nat, p: Bundle -> bool)
    requires Safe(s) && Enabled(s, step) && i < |s.unit.elements| && s.unit.elements[i].info.CompleteInfo?
    requires Brought(s, i, p) && (step.Arrive? && step.priority == i ==> p(step.bundle))
    ensures var r := Next(s, step);
            i < |r.unit.elements| && r.unit.elements[i].info.CompleteInfo? && Brought(r, i, p)
  {
    match step
    case Arrive(j, b, partition, offset) => ArriveBrings(s, j, b, partition, offset, i, p);
    case GetNext =>
    case Report(n, success) =>
      assert n == 0;
      ReportBrings(s, success, i, p);
  }

  ghost predicate Arriving(steps: seq<Step>, i: nat, p: Bundle -> bool) {
    forall n :: 0 <= n < |steps| && steps[n].Arrive? && steps[n].priority == i ==> p(steps[n].bundle)
  }

  lemma {:induction false} EveryRunBrings(s: State, steps: seq<Step>, i: nat, p: Bundle -> bool)
    requires Safe(s) && NoWorkLeft(s) && RunEnabled(s, steps) && i < |s.unit.elements|
    requires s.unit.elements[i].info.CompleteInfo? && Brought(s, i, p) && Arriving(steps, i, p)
    ensures i < |Run(s, steps).unit.elements| && Brought(Run(s, steps), i, p)
    decreases |steps|
  {
    hide InFlight, NoWorkLeft, Brought, Next;
    if steps != [] {
      StepIsSafe(s, steps[0]);
      StepBrings(s, steps[0], i, p);
      assert forall n :: 0 <= n < |steps[1..]| ==> steps[1..][n] == steps[n + 1];
      EveryRunBrings(Next(s, steps[0]), steps[1..], i, p);
    }
  }

  /** From a new unit on, the last bundle written of a complete-state type is one that arrived. */
  lemma LastWrittenArrived(s: State, steps: seq<Step>, i: nat, p: Bundle -> bool, b: Bundle)
    requires Initial(s) && RunEnabled(s, steps) && i < |s.unit.elements| && s.unit.elements[i].info.CompleteInfo?
    requires Arriving(steps, i, p) && LastOf(Run(s, steps).written, i) == Some(b)
    ensures p(b)
  {
    InitialIsSafe(s);
    EveryRunBrings(s, steps, i, p);
  }
}
