/**
 Conservation of deltas in a conflation unit: whatever the interleaving, the packs written so
 far, a pack in flight and a pending pack cut the accepted deltas into consecutive pieces.
 */
module ConflationDeltas {
  import opened Compliance
  import opened Conflation
  import opened ConflationRuns
  import opened DeltaMerge
  import opened Options
  import opened Versions

  // ---------------------------------------------------------------- logs of one element

  function ArrivalsOf(log: seq<Arrival>, i: nat): (r: seq<Arrival>)
    ensures forall a :: a in r ==> a in log && a.priority == i
    decreases |log|
  {
    if log == [] then []
    else
      var front := ArrivalsOf(log[..|log| - 1], i);
      if log[|log| - 1].priority == i then front + [log[|log| - 1]] else front
  }

  function WritesOf(log: seq<Flight>, i: nat): seq<Bundle>
    decreases |log|
  {
    if log == [] then []
    else
      var front := WritesOf(log[..|log| - 1], i);
      if log[|log| - 1].priority == i then front + [log[|log| - 1].bundle] else front
  }

  lemma ArrivalsSnoc(log: seq<Arrival>, a: Arrival, i: nat)
    ensures ArrivalsOf(log + [a], i) == if a.priority == i then ArrivalsOf(log, i) + [a] else ArrivalsOf(log, i)
  {
    assert (log + [a])[..|log|] == log;
  }

  lemma WritesSnoc(log: seq<Flight>, f: Flight, i: nat)
    ensures WritesOf(log + [f], i) == if f.priority == i then WritesOf(log, i) + [f.bundle] else WritesOf(log, i)
  {
    assert (log + [f])[..|log|] == log;
  }

  predicate AllDeltas(arrivals: seq<Arrival>) {
    forall a :: a in arrivals ==> a.bundle.DeltaBundle?
  }

  function Deltas(arrivals: seq<Arrival>): (r: seq<Delta>)
    requires AllDeltas(arrivals)
    ensures |r| == |arrivals|
  {
    seq(|arrivals|, k requires 0 <= k < |arrivals| => assert arrivals[k] in arrivals; arrivals[k].bundle.delta)
  }

  lemma PackSnoc(arrivals: seq<Arrival>, a: Arrival)
    requires arrivals != [] && AllDeltas(arrivals) && a.bundle.DeltaBundle?
    ensures AllDeltas(arrivals + [a])
    ensures Pack(Deltas(arrivals + [a])) == Inherit(a.bundle.delta, Some(Pack(Deltas(arrivals))))
  {
    assert Deltas(arrivals + [a])[..|arrivals|] == Deltas(arrivals);
  }

  function Flat(pieces: seq<seq<Arrival>>): seq<Arrival>
    decreases |pieces|
  {
    if pieces == [] then [] else Flat(pieces[..|pieces| - 1]) + pieces[|pieces| - 1]
  }

  lemma FlatSnoc(pieces: seq<seq<Arrival>>, p: seq<Arrival>)
    ensures Flat(pieces + [p]) == Flat(pieces) + p
  {
    assert (pieces + [p])[..|pieces|] == pieces;
  }

  // ---------------------------------------------------------------- the partition

  datatype Cut = Cut(packs: seq<seq<Arrival>>, flying: seq<Arrival>, pending: seq<Arrival>)

  ghost predicate WellCut(cut: Cut, arrivals: seq<Arrival>) {
    && AllDeltas(arrivals) && AllDeltas(cut.flying) && AllDeltas(cut.pending)
    && arrivals == Flat(cut.packs) + cut.flying + cut.pending
    && (forall k :: 0 <= k < |cut.packs| ==> cut.packs[k] != [] && AllDeltas(cut.packs[k]))
  }

  ghost predicate PacksWritten(cut: Cut, writes: seq<Bundle>)
    requires forall k :: 0 <= k < |cut.packs| ==> cut.packs[k] != [] && AllDeltas(cut.packs[k])
  {
    && |writes| == |cut.packs|
    && forall k :: 0 <= k < |writes| ==> writes[k] == DeltaBundle(Pack(Deltas(cut.packs[k])))
  }

  /** All that a delta element's transitions depend on, with what has been accepted and written. */
  datatype View = View(
    pending: Option<Bundle>, pendingTransport: nat, lineHead: Option<Version>,
    flying: Option<Bundle>, lowestPending: Option<nat>,
    arrivals: seq<Arrival>, writes: seq<Bundle>)

  ghost function ViewOf(s: State, i: nat): View
    requires Safe(s) && i < |s.unit.elements| && s.unit.elements[i].info.DeltaInfo?
  {
    var info := s.unit.elements[i].info;
    View(info.bundle, if info.bundle.Some? then s.unit.store.metas[info.meta.value].transport else 0, info.lineHead,
         if s.flights != [] && s.flights[0].priority == i then Some(s.flights[0].bundle) else None, info.lowestPending,
         ArrivalsOf(s.accepted, i), WritesOf(s.written, i))
  }

  /** A delta on a newer base starts a line, also while older content is pending, which it replaces. */
  function ArriveView(v: View, a: Arrival): View {
    if v.pending.None? || !a.bundle.DeltaBundle? || !v.pending.value.DeltaBundle?
       || a.bundle.delta.base.NewerThan(v.pending.value.delta.base) then
      v.(pending := Some(a.bundle), pendingTransport := a.transport, lineHead := Some(a.bundle.Version()),
         arrivals := v.arrivals + [a])
    else
      v.(pending := Some(DeltaBundle(Inherit(a.bundle.delta, Some(v.pending.value.delta)))),
         arrivals := v.arrivals + [a])
  }

  function DispatchView(v: View): View {
    v.(pending := None, pendingTransport := 0, flying := v.pending, lowestPending := Some(v.pendingTransport))
  }

  function SuccessView(v: View): View
    requires v.flying.Some?
  {
    v.(flying := None, lowestPending := None, writes := v.writes + [v.flying.value])
  }

  /** The failed pack is pending again, with the transport metadata of its earliest contributor. */
  function QuietFailureView(v: View): View
    requires v.lowestPending.Some?
  {
    v.(pending := v.flying, pendingTransport := v.lowestPending.value, flying := None, lowestPending := None)
  }

  ghost predicate Conserved(v: View, base: Version, cut: Cut) {
    && WellCut(cut, v.arrivals) && PacksWritten(cut, v.writes)
    && (forall a :: a in v.arrivals ==> a.bundle.delta.base == base)
    && (cut.flying != [] <==> v.flying.Some?)
    && (cut.flying != [] ==>
          v.flying == Some(DeltaBundle(Pack(Deltas(cut.flying)))) && v.lowestPending == Some(cut.flying[0].transport))
    && (cut.pending != [] <==> v.pending.Some?)
    && (cut.pending != [] ==>
          v.pending == Some(DeltaBundle(Pack(Deltas(cut.pending)))) && v.pendingTransport == cut.pending[0].transport)
    // the line's head is not newer than what is pending or what a quiet failure would restore
    && (v.pending.Some? ==> v.pending.value.DeltaBundle? && v.pending.value.delta.base == base
                            && v.lineHead.Some? && !v.lineHead.value.NewerThan(v.pending.value.Version()))
    && (v.flying.Some? ==> v.flying.value.DeltaBundle? && v.flying.value.delta.base == base)
    && (v.flying.Some? && v.pending.None? ==>
          v.lineHead.Some? && !v.lineHead.value.NewerThan(v.flying.value.Version()))
  }

  lemma ArriveConserves(v: View, base: Version, cut: Cut, a: Arrival)
    requires Conserved(v, base, cut) && a.bundle.DeltaBundle? && a.bundle.delta.base == base
    requires v.pending.Some? ==> a.bundle.Version().NewerThan(v.pending.value.Version())
    ensures Conserved(ArriveView(v, a), base, cut.(pending := cut.pending + [a]))
  {
    var after := cut.(pending := cut.pending + [a]);
    assert Flat(cut.packs) + cut.flying + cut.pending + [a] == Flat(after.packs) + after.flying + after.pending;
    if cut.pending != [] {
      PackSnoc(cut.pending, a);
    } else {
      assert Deltas(after.pending) == [a.bundle.delta];
    }
  }

  lemma DispatchConserves(v: View, base: Version, cut: Cut)
    requires Conserved(v, base, cut) && v.pending.Some? && v.flying.None?
    ensures Conserved(DispatchView(v), base, Cut(cut.packs, cut.pending, []))
  {
    assert Flat(cut.packs) + cut.flying + cut.pending == Flat(cut.packs) + cut.pending + [];
  }

  lemma SuccessConserves(v: View, base: Version, cut: Cut)
    requires Conserved(v, base, cut) && v.flying.Some?
    ensures Conserved(SuccessView(v), base, Cut(cut.packs + [cut.flying], [], cut.pending))
  {
    FlatSnoc(cut.packs, cut.flying);
    assert Flat(cut.packs) + cut.flying + cut.pending == Flat(cut.packs + [cut.flying]) + [] + cut.pending;
  }

  lemma QuietFailureConserves(v: View, base: Version, cut: Cut)
    requires Conserved(v, base, cut) && v.flying.Some? && v.pending.None?
    ensures Conserved(QuietFailureView(v), base, Cut(cut.packs, [], cut.flying))
  {
    assert Flat(cut.packs) + cut.flying + cut.pending == Flat(cut.packs) + [] + cut.flying;
  }

  // ---------------------------------------------------------------- the unit's steps, seen by one delta element

  lemma StoredDelta(u: Unit, i: nat, b: Bundle, partition: int, offset: int)
    requires u.Valid() && i < |u.elements| && u.elements[i].info.DeltaInfo? && Accepts(u, i, b)
    ensures var before, r := u.elements[i].info, Stored(u, i, b, partition, offset);
            var info := r.elements[i].info;
            && info.DeltaInfo? && info.lowestPending == before.lowestPending
            && if before.bundle.None? || b.delta.base.NewerThan(before.bundle.value.delta.base) then
                 && info.bundle == Some(b) && info.lineHead == Some(b.Version())
                 && r.store.metas[info.meta.value].transport == |u.store.transports|
               else
                 && info.bundle == Some(DeltaBundle(Inherit(b.delta, Some(before.bundle.value.delta))))
                 && info.lineHead == before.lineHead
                 && r.store.metas[info.meta.value].transport == u.store.metas[before.meta.value].transport
  {
  }

  lemma ArriveSeen(s: State, i: nat, j: nat, b: Bundle, partition: int, offset: int)
    requires Safe(s) && i < |s.unit.elements| && j < |s.unit.elements| && s.unit.elements[i].info.DeltaInfo?
    ensures Safe(Next(s, Arrive(j, b, partition, offset)))
    ensures ViewOf(Next(s, Arrive(j, b, partition, offset)), i) ==
            if j == i && Accepts(s.unit, i, b) then ArriveView(ViewOf(s, i), Arrival(i, b, |s.unit.store.transports|))
            else ViewOf(s, i)
  {
    ArriveIsSafe(s, j, b, partition, offset);
    if Accepts(s.unit, j, b) {
      var r := Next(s, Arrive(j, b, partition, offset));
      var stored := Stored(s.unit, j, b, partition, offset);
      ArrivalsSnoc(s.accepted, Arrival(j, b, |s.unit.store.transports|), i);
      StoredTouches(s.unit, j, b, partition, offset);
      if j == i {
        StoredDelta(s.unit, i, b, partition, offset);
      }
      hide Safe, Stored, Accepts;
      assert r.unit.elements == stored.elements && r.unit.store == stored.store;
    }
  }

  lemma GetNextSeen(s: State, i: nat)
    requires Safe(s) && s.tickets > 0 && i < |s.unit.elements| && s.unit.elements[i].info.DeltaInfo?
    ensures Safe(Next(s, GetNext))
    ensures ViewOf(Next(s, GetNext), i) ==
            if NextReady(s.unit, 0) == Some(i) then DispatchView(ViewOf(s, i)) else ViewOf(s, i)
    ensures NextReady(s.unit, 0) == Some(i) ==> ViewOf(s, i).pending.Some? && ViewOf(s, i).flying.None?
  {
    GetNextIsSafe(s);
    var next := NextReady(s.unit, 0);
    if next.Some? {
      assert PendingNamed(s.unit, next.value);
      DispatchTouches(s.unit, next.value);
    }
  }

  lemma ReportSeen(s: State, i: nat, k: nat, success: bool)
    requires Safe(s) && k < |s.flights| && i < |s.unit.elements| && s.unit.elements[i].info.DeltaInfo?
    requires var info := s.unit.elements[i].info;
             s.flights[k].priority == i && !success ==>
               && info.bundle.None? && info.lowestPending.Some? && info.lineHead.Some?
               && !info.lineHead.value.NewerThan(s.flights[k].bundle.Version())
    ensures Safe(Next(s, Report(k, success)))
    ensures s.flights[k].priority == i ==> ViewOf(s, i).flying == Some(s.flights[k].bundle)
    ensures ViewOf(Next(s, Report(k, success)), i) ==
            if s.flights[k].priority != i then ViewOf(s, i)
            else if success then SuccessView(ViewOf(s, i)) else QuietFailureView(ViewOf(s, i))
  {
    hide DependencyHolds, ChainInProcess, AnyReady, AnyInProcess;
    var f := s.flights[k];
    assert k == 0 && f in s.flights;
    assert FlightHolds(s.unit, f) && DeltaRecoverable(s.unit, f) && PendingNamed(s.unit, f.priority);
    ReportIsSafe(s, k, success);
    ReportedTouches(s.unit, f, success);
    WritesSnoc(s.written, f, i);
    assert Next(s, Report(k, success)).flights == [];
  }

  // ---------------------------------------------------------------- every run

  /** Deltas of one base only, and no arrival while a pack that fails is being processed. */
  ghost predicate QuietStep(s: State, step: Step, i: nat, base: Version)
    requires Valid(s) && Enabled(s, step) && i < |s.unit.elements|
  {
    match step
    case Arrive(j, b, _, _) => j == i && b.DeltaBundle? ==> b.delta.base == base
    case GetNext => true
    case Report(k, success) => s.flights[k].priority == i && !success ==> s.unit.elements[i].info.bundle.None?
  }

  ghost predicate QuietRun(s: State, steps: seq<Step>, i: nat, base: Version)
    requires Valid(s) && RunEnabled(s, steps) && i < |s.unit.elements|
    decreases |steps|
  {
    steps == [] || (QuietStep(s, steps[0], i, base) && QuietRun(Next(s, steps[0]), steps[1..], i, base))
  }

  /** What the element has to show for an arrival to be accepted. */
  lemma AcceptedIsNewer(s: State, i: nat, b: Bundle)
    requires Safe(s) && i < |s.unit.elements| && s.unit.elements[i].info.DeltaInfo? && Accepts(s.unit, i, b)
    ensures b.DeltaBundle?
    ensures ViewOf(s, i).pending.Some? ==> b.Version().NewerThan(ViewOf(s, i).pending.value.Version())
    ensures ViewOf(s, i).arrivals == ArrivalsOf(s.accepted, i)
  {
  }

  /** What a report on a failed pack finds while nothing newer is pending. */
  lemma FailingPackFound(s: State, i: nat, base: Version, cut: Cut)
    requires Safe(s) && s.flights != [] && i < |s.unit.elements| && s.unit.elements[i].info.DeltaInfo?
    requires s.flights[0].priority == i && s.unit.elements[i].info.bundle.None? && Conserved(ViewOf(s, i), base, cut)
    ensures var info := s.unit.elements[i].info;
            && info.lowestPending.Some? && info.lineHead.Some?
            && !info.lineHead.value.NewerThan(s.flights[0].bundle.Version())
            && ViewOf(s, i).pending.None?
  {
    hide WellCut, PacksWritten, InFlight, Pack, Deltas;
  }

  lemma StepConserves(s: State, step: Step, i: nat, base: Version, cut: Cut) returns (after: Cut)
    requires Safe(s) && Enabled(s, step) && i < |s.unit.elements| && s.unit.elements[i].info.DeltaInfo?
    requires QuietStep(s, step, i, base) && Conserved(ViewOf(s, i), base, cut)
    ensures Safe(Next(s, step)) && i < |Next(s, step).unit.elements| && Next(s, step).unit.elements[i].info.DeltaInfo?
    ensures Conserved(ViewOf(Next(s, step), i), base, after)
  {
    hide InFlight, ViewOf, Conserved, ArriveView, DispatchView, SuccessView, QuietFailureView, Accepts;
    after := cut;
    match step
    case Arrive(j, b, partition, offset) =>
      ArriveSeen(s, i, j, b, partition, offset);
      if j == i && Accepts(s.unit, i, b) {
        AcceptedIsNewer(s, i, b);
        var a := Arrival(i, b, |s.unit.store.transports|);
        ArriveConserves(ViewOf(s, i), base, cut, a);
        after := cut.(pending := cut.pending + [a]);
      }
    case GetNext =>
      GetNextSeen(s, i);
      if NextReady(s.unit, 0) == Some(i) {
        DispatchConserves(ViewOf(s, i), base, cut);
        after := Cut(cut.packs, cut.pending, []);
      }
    case Report(k, success) =>
      assert k == 0;
      if s.flights[0].priority == i && !success {
        FailingPackFound(s, i, base, cut);
      }
      ReportSeen(s, i, 0, success);
      if s.flights[0].priority == i {
        if success {
          SuccessConserves(ViewOf(s, i), base, cut);
          after := Cut(cut.packs + [cut.flying], [], cut.pending);
        } else {
          QuietFailureConserves(ViewOf(s, i), base, cut);
          after := Cut(cut.packs, [], cut.flying);
        }
      }
  }

  /**
   Over every run with one base and quiet failures: the accepted deltas, in order, are the
   written packs, then one in flight, then the pending one, each merged from a
   consecutive piece; and the pending pack carries its earliest contributor's transport
   metadata, also after a failure restored it.
   */
  lemma {:induction false} EveryRunConserves(s: State, steps: seq<Step>, i: nat, base: Version, cut: Cut)
    returns (after: Cut)
    requires Safe(s) && RunEnabled(s, steps) && i < |s.unit.elements| && s.unit.elements[i].info.DeltaInfo?
    requires QuietRun(s, steps, i, base) && Conserved(ViewOf(s, i), base, cut)
    ensures Safe(Run(s, steps)) && i < |Run(s, steps).unit.elements| && Run(s, steps).unit.elements[i].info.DeltaInfo?
    ensures Conserved(ViewOf(Run(s, steps), i), base, after)
    decreases |steps|
  {
    after := cut;
    if steps != [] {
      after := StepConserves(s, steps[0], i, base, cut);
      after := EveryRunConserves(Next(s, steps[0]), steps[1..], i, base, after);
    }
  }

  // ---------------------------------------------------------------- what the database sees

  function DeltasOf(bundles: seq<Bundle>): (r: seq<Delta>)
    requires forall k :: 0 <= k < |bundles| ==> bundles[k].DeltaBundle?
    ensures |r| == |bundles|
  {
    seq(|bundles|, k requires 0 <= k < |bundles| => bundles[k].delta)
  }

  /** What has been written, is being written and waits to be written, in that order. */
  ghost function Outcome(v: View): seq<Bundle> {
    v.writes + (if v.flying.Some? then [v.flying.value] else []) + (if v.pending.Some? then [v.pending.value] else [])
  }

  ghost function Pieces(cut: Cut): seq<seq<Arrival>> {
    cut.packs + (if cut.flying != [] then [cut.flying] else []) + (if cut.pending != [] then [cut.pending] else [])
  }

  lemma {:induction false} FlatIsConcat(pieces: seq<seq<Arrival>>, deltas: seq<seq<Delta>>)
    requires |deltas| == |pieces| && AllDeltas(Flat(pieces))
    requires forall k :: 0 <= k < |pieces| ==> AllDeltas(pieces[k]) && deltas[k] == Deltas(pieces[k])
    ensures Concat(deltas) == Deltas(Flat(pieces))
    decreases |pieces|
  {
    if pieces != [] {
      var n := |pieces| - 1;
      FlatIsConcat(pieces[..n], deltas[..n]);
      assert deltas == deltas[..n] + [deltas[n]];
      ConcatSnoc(deltas[..n], deltas[n]);
    }
  }

  lemma {:induction false} ConcatSnoc(packs: seq<seq<Delta>>, p: seq<Delta>)
    ensures Concat(packs + [p]) == Concat(packs) + p
    decreases |packs|
  {
    if packs == [] {
      assert Concat([p]) == p + Concat([p][1..]);
    } else {
      assert (packs + [p])[1..] == packs[1..] + [p];
      ConcatSnoc(packs[1..], p);
    }
  }

  lemma PiecesAreFlat(cut: Cut)
    ensures Flat(Pieces(cut)) == Flat(cut.packs) + cut.flying + cut.pending
  {
    var withFlying := if cut.flying != [] then cut.packs + [cut.flying] else cut.packs;
    FlatSnoc(cut.packs, cut.flying);
    FlatSnoc(withFlying, cut.pending);
    assert Pieces(cut) == if cut.pending != [] then withFlying + [cut.pending] else withFlying;
  }

  function PiecesAsDeltas(pieces: seq<seq<Arrival>>): (r: seq<seq<Delta>>)
    requires forall k :: 0 <= k < |pieces| ==> AllDeltas(pieces[k])
    ensures |r| == |pieces|
  {
    seq(|pieces|, k requires 0 <= k < |pieces| => Deltas(pieces[k]))
  }

  lemma OutcomeIsPacked(v: View, base: Version, cut: Cut)
    requires Conserved(v, base, cut)
    ensures forall k :: 0 <= k < |Pieces(cut)| ==> Pieces(cut)[k] != [] && AllDeltas(Pieces(cut)[k])
    ensures |Outcome(v)| == |Pieces(cut)|
    ensures forall k :: 0 <= k < |Outcome(v)| ==> Outcome(v)[k] == DeltaBundle(Pack(Deltas(Pieces(cut)[k])))
  {
    hide Pack, Deltas, Flat;
  }

  /** Writing the outcome leaves the table that writing every accepted delta would have left. */
  lemma ConservedMeansSameTable(v: View, base: Version, cut: Cut, table: Table)
    requires Conserved(v, base, cut)
    ensures AllDeltas(v.arrivals)
    ensures forall k :: 0 <= k < |Outcome(v)| ==> Outcome(v)[k].DeltaBundle?
    ensures WriteAll(table, DeltasOf(Outcome(v))) == WriteAll(table, Deltas(v.arrivals))
  {
    OutcomeIsPacked(v, base, cut);
    PiecesAreFlat(cut);
    OneBaseOfArrivals(v.arrivals, base);
    SameTableByPieces(Outcome(v), Pieces(cut), v.arrivals, table);
  }

  lemma OneBaseOfArrivals(arrivals: seq<Arrival>, base: Version)
    requires AllDeltas(arrivals) && forall a :: a in arrivals ==> a.bundle.delta.base == base
    ensures OneBase(Deltas(arrivals))
  {
    assert forall k :: 0 <= k < |arrivals| ==> arrivals[k] in arrivals && Deltas(arrivals)[k].base == base;
  }

  lemma SameTableByPieces(outcome: seq<Bundle>, pieces: seq<seq<Arrival>>, arrivals: seq<Arrival>, table: Table)
    requires |outcome| == |pieces| && AllDeltas(arrivals) && Flat(pieces) == arrivals && OneBase(Deltas(arrivals))
    requires forall k :: 0 <= k < |pieces| ==> pieces[k] != [] && AllDeltas(pieces[k])
    requires forall k :: 0 <= k < |pieces| ==> outcome[k] == DeltaBundle(Pack(Deltas(pieces[k])))
    ensures WriteAll(table, DeltasOf(outcome)) == WriteAll(table, Deltas(arrivals))
  {
    var packs := PiecesAsDeltas(pieces);
    FlatIsConcat(pieces, packs);
    ConflationPreservesMeaning(table, packs);
    assert DeltasOf(outcome) == PackAll(packs);
  }

  lemma StartIsConserved(s: State, i: nat, base: Version)
    requires Initial(s) && i < |s.unit.elements| && s.unit.elements[i].info.DeltaInfo?
    ensures Safe(s) && Conserved(ViewOf(s, i), base, Cut([], [], []))
  {
    InitialIsSafe(s);
  }

  /**
   From a new unit on, over every run with one base and quiet failures: what was written, what is
   in flight and what is pending, written in this order, leave the same table as every accepted
   delta on its own.
   */
  lemma NoDeltaIsLost(s: State, steps: seq<Step>, i: nat, base: Version, table: Table)
    requires Initial(s) && i < |s.unit.elements| && s.unit.elements[i].info.DeltaInfo?
    requires RunEnabled(s, steps) && QuietRun(s, steps, i, base)
    ensures var r := Run(s, steps);
            && Safe(r) && i < |r.unit.elements| && r.unit.elements[i].info.DeltaInfo?
            && AllDeltas(ViewOf(r, i).arrivals)
            && (forall k :: 0 <= k < |Outcome(ViewOf(r, i))| ==> Outcome(ViewOf(r, i))[k].DeltaBundle?)
            && WriteAll(table, DeltasOf(Outcome(ViewOf(r, i)))) == WriteAll(table, Deltas(ViewOf(r, i).arrivals))
  {
    StartIsConserved(s, i, base);
    hide Initial, Safe, Run, Conserved, QuietRun, RunEnabled, ViewOf;
    var cut := EveryRunConserves(s, steps, i, base, Cut([], [], []));
    ConservedMeansSameTable(ViewOf(Run(s, steps), i), base, cut, table);
  }

  // ---------------------------------------------------------------- failures that are not quiet

  /**
   A failed pack is kept exactly when the guard of handleFailure lets it through, or when what
   arrived meanwhile covers every row of it anyway.
   */
  lemma FailureKeepsPackIff(s: State, f: Flight)
    requires Safe(s) && s.flights == [f] && f.priority < |s.unit.elements|
    requires var info := s.unit.elements[f.priority].info;
             && info.DeltaInfo? && f.bundle.DeltaBundle? && info.lineHead.Some?
             && (info.bundle.Some? ==>
                   info.bundle.value.DeltaBundle? && info.bundle.value.delta.base == f.bundle.delta.base)
    ensures var before := s.unit.elements[f.priority].info;
            var after := Next(s, Report(0, false)).unit.elements[f.priority].info;
            PendingEffect(after) == f.bundle.delta.effect + PendingEffect(before) <==>
              (!before.lineHead.value.NewerThan(f.bundle.Version())
               || f.bundle.delta.effect.Keys <= PendingEffect(before).Keys)
  {
    assert s.flights[0] == f && f in s.flights;
    assert FlightHolds(s.unit, f) && DeltaRecoverable(s.unit, f);
    var before := s.unit.elements[f.priority].info;
    var reported := Reported(s.unit, f.meta, false);
    assert Next(s, Report(0, false)).unit.elements == reported.elements;
    OverlayAbsorbsIff(f.bundle.delta.effect, PendingEffect(before));
    assert f.bundle.delta.effect + map[] == f.bundle.delta.effect;
  }

  function PendingEffect(info: Info): Table {
    if info.bundle.Some? && info.bundle.value.DeltaBundle? then info.bundle.value.delta.effect else map[]
  }

  lemma OverlayAbsorbsIff(a: Table, b: Table)
    ensures b == a + b <==> a.Keys <= b.Keys
  {
    if b == a + b {
      assert (a + b).Keys == a.Keys + b.Keys;
    }
  }
}
