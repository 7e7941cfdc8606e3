/**
 The deltas of a conflation unit over several bases: in every interleaving, what was written on the
 newest base, what is in flight and what is pending are consecutive pieces of what was sent on it;
 and with that, the table that the unit's reported writes leave.
 */
module ConflationLine {
  import opened Compliance
  import opened Conflation
  import opened ConflationDeltas
  import opened ConflationRuns
  import opened ConflationTable
  import opened DeltaMerge
  import opened Options
  import opened Versions

  // ---------------------------------------------------------------- deltas of one base

  /** The accepted deltas that are based on a complete bundle. */
  function OnBase(arrivals: seq<Arrival>, g: Version): (r: seq<Arrival>)
    ensures AllDeltas(r) && forall a :: a in r ==> a in arrivals && a.bundle.delta.base == g
    decreases |arrivals|
  {
    if arrivals == [] then []
    else
      var front, last := OnBase(arrivals[..|arrivals| - 1], g), arrivals[|arrivals| - 1];
      if last.bundle.DeltaBundle? && last.bundle.delta.base == g then front + [last] else front
  }

  lemma OnBaseSnoc(arrivals: seq<Arrival>, a: Arrival, g: Version)
    ensures OnBase(arrivals + [a], g) ==
            if a.bundle.DeltaBundle? && a.bundle.delta.base == g then OnBase(arrivals, g) + [a] else OnBase(arrivals, g)
  {
    assert (arrivals + [a])[..|arrivals|] == arrivals;
  }

  /** Bases do not go back, and none is newer than this one. */
  ghost predicate BasesGrow(arrivals: seq<Arrival>, g: Version) {
    && AllDeltas(arrivals)
    && (forall i :: 0 <= i < |arrivals| ==> !BaseOf(arrivals[i]).NewerThan(g))
    && forall i, j :: 0 <= i < j < |arrivals| ==> !BaseOf(arrivals[i]).NewerThan(BaseOf(arrivals[j]))
  }

  function BaseOf(a: Arrival): Version {
    if a.bundle.DeltaBundle? then a.bundle.delta.base else NO_VERSION
  }

  /** The pieces of one pack, or none if the pack is of another base. */
  ghost predicate PackIs(b: Option<Bundle>, piece: seq<Arrival>, g: Version)
    requires AllDeltas(piece)
  {
    && (b.Some? ==> b.value.DeltaBundle?)
    && if b.Some? && b.value.delta.base == g then piece != [] && b.value == DeltaBundle(Pack(Deltas(piece)))
       else piece == []
  }

  /** A bundle that everything accepted last is in, with the line's head not newer. */
  ghost predicate IsLast(b: Option<Bundle>, v: View) {
    b.Some? ==>
      && b.value.DeltaBundle? && v.arrivals != [] && b.value.delta.base == BaseOf(v.arrivals[|v.arrivals| - 1])
      && v.lineHead.Some? && !v.lineHead.value.NewerThan(b.value.Version())
  }

  /** The deltas on one base, and no newer one, are cut into consecutive packs. */
  ghost predicate LineConserved(v: View, g: Version, cut: Cut) {
    && BasesGrow(v.arrivals, g) && AllDeltaBundles(v.writes)
    && WellCut(cut, OnBase(v.arrivals, g)) && PacksWritten(cut, PacksOn(v.writes, g))
    && PackIs(v.flying, cut.flying, g) && PackIs(v.pending, cut.pending, g)
    && IsLast(v.pending, v) && (v.pending.None? ==> IsLast(v.flying, v))
    && (v.flying.Some? ==> v.lowestPending.Some?)
  }

  lemma GrowsWith(arrivals: seq<Arrival>, a: Arrival, g: Version)
    requires BasesGrow(arrivals, g) && a.bundle.DeltaBundle? && !a.bundle.delta.base.NewerThan(g)
    requires arrivals != [] ==> !BaseOf(arrivals[|arrivals| - 1]).NewerThan(a.bundle.delta.base)
    ensures BasesGrow(arrivals + [a], g)
  {
    forall i, j | 0 <= i < j < |arrivals + [a]|
      ensures !BaseOf((arrivals + [a])[i]).NewerThan(BaseOf((arrivals + [a])[j]))
    {
      if j == |arrivals| && i < j - 1 {
        assert !BaseOf(arrivals[i]).NewerThan(BaseOf(arrivals[j - 1]));
      }
    }
  }

  lemma PackOfOneArrival(a: Arrival)
    requires a.bundle.DeltaBundle?
    ensures AllDeltas([a]) && Pack(Deltas([a])) == a.bundle.delta
  {
    assert Deltas([a]) == [a.bundle.delta];
  }

  /** What an accepted delta does to the pending pack, seen from one base. */
  lemma ArrivePending(v: View, g: Version, piece: seq<Arrival>, a: Arrival)
    requires AllDeltas(piece) && PackIs(v.pending, piece, g) && IsLast(v.pending, v) && a.bundle.DeltaBundle?
    requires !a.bundle.delta.base.NewerThan(g)
    requires v.arrivals != [] ==> !BaseOf(v.arrivals[|v.arrivals| - 1]).NewerThan(a.bundle.delta.base)
    requires v.pending.Some? ==> a.bundle.Version().NewerThan(v.pending.value.Version())
    ensures var after := if a.bundle.delta.base == g then piece + [a] else [];
            && AllDeltas(after) && PackIs(ArriveView(v, a).pending, after, g)
            && IsLast(ArriveView(v, a).pending, ArriveView(v, a))
            && (a.bundle.delta.base != g ==> piece == [])
  {
    PackOfOneArrival(a);
    if v.pending.Some? && v.pending.value.delta.base == a.bundle.delta.base && piece != [] {
      PackSnoc(piece, a);
    }
    hide Pack, Deltas;
  }

  lemma WellCutMore(cut: Cut, arrivals: seq<Arrival>, a: Arrival)
    requires WellCut(cut, arrivals) && a.bundle.DeltaBundle?
    ensures WellCut(cut.(pending := cut.pending + [a]), arrivals + [a])
  {
    hide Flat;
    assert Flat(cut.packs) + cut.flying + cut.pending + [a] == Flat(cut.packs) + cut.flying + (cut.pending + [a]);
  }

  lemma ArriveConservesLine(v: View, g: Version, cut: Cut, a: Arrival)
    requires LineConserved(v, g, cut) && a.bundle.DeltaBundle? && !a.bundle.delta.base.NewerThan(g)
    requires v.arrivals != [] ==> !BaseOf(v.arrivals[|v.arrivals| - 1]).NewerThan(a.bundle.delta.base)
    requires v.pending.Some? ==> a.bundle.Version().NewerThan(v.pending.value.Version())
    ensures LineConserved(ArriveView(v, a), g,
                          cut.(pending := if a.bundle.delta.base == g then cut.pending + [a] else []))
  {
    GrowsWith(v.arrivals, a, g);
    OnBaseSnoc(v.arrivals, a, g);
    ArrivePending(v, g, cut.pending, a);
    ArriveShape(v, a);
    if a.bundle.delta.base == g {
      WellCutMore(cut, OnBase(v.arrivals, g), a);
    } else {
      assert cut.(pending := []) == cut;
    }
    hide BasesGrow, OnBase, PackIs, IsLast, PacksWritten, PacksOn, WellCut, ArriveView, AllDeltas, AllDeltaBundles;
  }

  lemma ArriveShape(v: View, a: Arrival)
    ensures var r := ArriveView(v, a);
            && r.flying == v.flying && r.lowestPending == v.lowestPending && r.writes == v.writes
            && r.arrivals == v.arrivals + [a] && r.pending.Some?
  {
  }

  lemma DispatchConservesLine(v: View, g: Version, cut: Cut)
    requires LineConserved(v, g, cut) && v.pending.Some? && v.flying.None?
    ensures LineConserved(DispatchView(v), g, Cut(cut.packs, cut.pending, []))
  {
    hide BasesGrow, OnBase, Flat, Pack, Deltas;
    assert Flat(cut.packs) + cut.flying + cut.pending == Flat(cut.packs) + cut.pending + [];
  }

  lemma PackBase(piece: seq<Arrival>, g: Version)
    requires AllDeltas(piece) && piece != [] && forall a :: a in piece ==> a.bundle.delta.base == g
    ensures Pack(Deltas(piece)).base == g
  {
    PackWritesItsTrailingLine(map[], Deltas(piece));
    assert piece[|piece| - 1] in piece;
  }

  lemma FlyingLands(cut: Cut, arrivals: seq<Arrival>, writes: seq<Bundle>, w: Bundle)
    requires WellCut(cut, arrivals) && PacksWritten(cut, writes) && cut.flying != []
    requires w == DeltaBundle(Pack(Deltas(cut.flying)))
    ensures var after := Cut(cut.packs + [cut.flying], [], cut.pending);
            WellCut(after, arrivals) && PacksWritten(after, writes + [w])
  {
    hide Flat, Pack, Deltas;
    FlatSnoc(cut.packs, cut.flying);
    assert Flat(cut.packs) + cut.flying + cut.pending == Flat(cut.packs + [cut.flying]) + [] + cut.pending;
  }

  lemma PackLands(b: Option<Bundle>, piece: seq<Arrival>, g: Version)
    requires AllDeltas(piece) && PackIs(b, piece, g) && b.Some?
    ensures b.value.DeltaBundle? && (piece != [] <==> b.value.delta.base == g)
    ensures piece != [] ==> b.value == DeltaBundle(Pack(Deltas(piece)))
    ensures AllDeltas([]) && PackIs(None, [], g)
  {
    hide Pack, Deltas;
  }

  lemma SuccessShape(v: View)
    requires v.flying.Some?
    ensures var r := SuccessView(v);
            && r.flying.None? && r.pending == v.pending && r.arrivals == v.arrivals
            && r.writes == v.writes + [v.flying.value]
            && (IsLast(v.pending, v) ==> IsLast(v.pending, r)) && IsLast(None, r)
  {
  }

  lemma OneBundleMore(writes: seq<Bundle>, w: Bundle)
    requires AllDeltaBundles(writes) && w.DeltaBundle?
    ensures AllDeltaBundles(writes + [w])
  {
  }

  lemma SuccessConservesLine(v: View, g: Version, cut: Cut)
    requires LineConserved(v, g, cut) && v.flying.Some?
    ensures var after := if cut.flying != [] then Cut(cut.packs + [cut.flying], [], cut.pending) else cut;
            LineConserved(SuccessView(v), g, after)
  {
    var w := v.flying.value;
    PackLands(v.flying, cut.flying, g);
    SuccessShape(v);
    PacksOnSnoc(v.writes, w, g);
    OneBundleMore(v.writes, w);
    if cut.flying != [] {
      FlyingLands(cut, OnBase(v.arrivals, g), PacksOn(v.writes, g), w);
    }
    hide BasesGrow, OnBase, WellCut, PacksWritten, Pack, Deltas, AllDeltaBundles, PacksOn, AllDeltas;
    hide PackIs, IsLast, SuccessView;
  }

  lemma QuietFailureConservesLine(v: View, g: Version, cut: Cut)
    requires LineConserved(v, g, cut) && v.flying.Some? && v.pending.None?
    ensures LineConserved(QuietFailureView(v), g, Cut(cut.packs, [], cut.flying))
  {
    hide BasesGrow, OnBase, Flat, Pack, Deltas;
    assert Flat(cut.packs) + cut.flying + cut.pending == Flat(cut.packs) + [] + cut.flying;
  }

  // ---------------------------------------------------------------- every run

  /** Accepted deltas do not go back to an older base nor beyond `g`, and packs fail only with nothing pending. */
  ghost predicate LineStep(s: State, step: Step, i: nat, g: Version)
    requires Valid(s) && Enabled(s, step) && i < |s.unit.elements|
  {
    match step
    case Arrive(j, b, _, _) => j == i && b.DeltaBundle? && Accepts(s.unit, i, b) ==>
      !b.delta.base.NewerThan(g) && !LastBase(ArrivalsOf(s.accepted, i)).NewerThan(b.delta.base)
    case GetNext => true
    case Report(k, success) => s.flights[k].priority == i && !success ==> s.unit.elements[i].info.bundle.None?
  }

  /** The base of the delta accepted last. */
  function LastBase(arrivals: seq<Arrival>): Version {
    if arrivals == [] then NO_VERSION else BaseOf(arrivals[|arrivals| - 1])
  }

  /** How a step moves the cut. */
  ghost function CutAfter(s: State, step: Step, i: nat, g: Version, cut: Cut): Cut
    requires Valid(s) && Enabled(s, step) && i < |s.unit.elements|
  {
    match step
    case Arrive(j, b, _, _) =>
      if j != i || !Accepts(s.unit, i, b) then cut
      else cut.(pending := if b.DeltaBundle? && b.delta.base == g
                           then cut.pending + [Arrival(i, b, |s.unit.store.transports|)] else [])
    case GetNext => if NextReady(s.unit, 0) == Some(i) then Cut(cut.packs, cut.pending, []) else cut
    case Report(n, success) =>
      if s.flights[n].priority != i then cut
      else if !success then Cut(cut.packs, [], cut.flying)
      else if cut.flying != [] then Cut(cut.packs + [cut.flying], [], cut.pending)
      else cut
  }

  lemma ArriveKeepsLine(s: State, i: nat, g: Version, cut: Cut, j: nat, b: Bundle, partition: int, offset: int)
    requires var step := Arrive(j, b, partition, offset);
             && Safe(s) && Enabled(s, step) && i < |s.unit.elements| && s.unit.elements[i].info.DeltaInfo?
             && LineStep(s, step, i, g) && LineConserved(ViewOf(s, i), g, cut)
    ensures var step := Arrive(j, b, partition, offset);
            var r := Next(s, step);
            && Safe(r) && i < |r.unit.elements| && r.unit.elements[i].info.DeltaInfo?
            && LineConserved(ViewOf(r, i), g, CutAfter(s, step, i, g, cut))
  {
    hide InFlight, ViewOf, LineConserved, ArriveView, ArrivalsOf, Accepts;
    ArriveSeen(s, i, j, b, partition, offset);
    if j == i && Accepts(s.unit, i, b) {
      AcceptedIsNewer(s, i, b);
      ArriveConservesLine(ViewOf(s, i), g, cut, Arrival(i, b, |s.unit.store.transports|));
    }
  }

  lemma GetNextKeepsLine(s: State, i: nat, g: Version, cut: Cut)
    requires Safe(s) && s.tickets > 0 && i < |s.unit.elements| && s.unit.elements[i].info.DeltaInfo?
    requires LineConserved(ViewOf(s, i), g, cut)
    ensures var r := Next(s, GetNext);
            && Safe(r) && i < |r.unit.elements| && r.unit.elements[i].info.DeltaInfo?
            && LineConserved(ViewOf(r, i), g, CutAfter(s, GetNext, i, g, cut))
  {
    hide InFlight, ViewOf, LineConserved, DispatchView, NextReady;
    GetNextSeen(s, i);
    if NextReady(s.unit, 0) == Some(i) {
      DispatchConservesLine(ViewOf(s, i), g, cut);
    }
  }

  /** What a report on a failed delta pack finds. */
  lemma FailingPackSeen(s: State, i: nat, g: Version, cut: Cut)
    requires Safe(s) && s.flights != [] && i < |s.unit.elements| && s.unit.elements[i].info.DeltaInfo?
    requires s.flights[0].priority == i && s.unit.elements[i].info.bundle.None? && LineConserved(ViewOf(s, i), g, cut)
    ensures var info := s.unit.elements[i].info;
            && info.lowestPending.Some? && info.lineHead.Some?
            && !info.lineHead.value.NewerThan(s.flights[0].bundle.Version())
            && ViewOf(s, i).pending.None?
  {
    hide BasesGrow, OnBase, WellCut, PacksWritten, PackIs, AllDeltaBundles, InFlight;
  }

  lemma ReportKeepsLine(s: State, i: nat, g: Version, cut: Cut, success: bool)
    requires Safe(s) && s.flights != [] && i < |s.unit.elements| && s.unit.elements[i].info.DeltaInfo?
    requires LineStep(s, Report(0, success), i, g) && LineConserved(ViewOf(s, i), g, cut)
    ensures var r := Next(s, Report(0, success));
            && Safe(r) && i < |r.unit.elements| && r.unit.elements[i].info.DeltaInfo?
            && LineConserved(ViewOf(r, i), g, CutAfter(s, Report(0, success), i, g, cut))
  {
    hide InFlight, ViewOf, LineConserved, SuccessView, QuietFailureView;
    if s.flights[0].priority == i && !success {
      FailingPackSeen(s, i, g, cut);
    }
    ReportSeen(s, i, 0, success);
    if s.flights[0].priority == i {
      if success {
        SuccessConservesLine(ViewOf(s, i), g, cut);
      } else {
        QuietFailureConservesLine(ViewOf(s, i), g, cut);
      }
    }
  }

  lemma StepKeepsLine(s: State, step: Step, i: nat, g: Version, cut: Cut)
    requires Safe(s) && Enabled(s, step) && i < |s.unit.elements| && s.unit.elements[i].info.DeltaInfo?
    requires LineStep(s, step, i, g) && LineConserved(ViewOf(s, i), g, cut)
    ensures Safe(Next(s, step)) && i < |Next(s, step).unit.elements| && Next(s, step).unit.elements[i].info.DeltaInfo?
    ensures LineConserved(ViewOf(Next(s, step), i), g, CutAfter(s, step, i, g, cut))
  {
    hide ViewOf, LineConserved;
    match step
    case Arrive(j, b, partition, offset) =>
      ArriveKeepsLine(s, i, g, cut, j, b, partition, offset);
    case GetNext =>
      GetNextKeepsLine(s, i, g, cut);
    case Report(n, success) =>
      assert n == 0;
      ReportKeepsLine(s, i, g, cut, success);
  }

  // ---------------------------------------------------------------- deltas offered in the order they were sent

  /** The deltas that arrive for element `i`, accepted or not. */
  function Offers(steps: seq<Step>, i: nat): seq<Delta> {
    if steps == [] then []
    else if steps[0].Arrive? && steps[0].priority == i && steps[0].bundle.DeltaBundle? then
      [steps[0].bundle.delta] + Offers(steps[1..], i)
    else Offers(steps[1..], i)
  }

  /** Versions increase, bases do not go back, and none is newer than `g`. */
  ghost predicate Ordered(deltas: seq<Delta>, g: Version) {
    && (forall i :: 0 <= i < |deltas| ==> deltas[i].version.NewerThan(NO_VERSION) && !deltas[i].base.NewerThan(g))
    && forall i, j :: 0 <= i < j < |deltas| ==>
         deltas[j].version.NewerThan(deltas[i].version) && !deltas[i].base.NewerThan(deltas[j].base)
  }

  /** Packs fail only while nothing newer of their type is pending. */
  ghost predicate QuietFailures(s: State, steps: seq<Step>, i: nat)
    requires Valid(s) && RunEnabled(s, steps) && i < |s.unit.elements|
    decreases |steps|
  {
    steps != [] ==>
      && (steps[0].Report? && s.flights[steps[0].flight].priority == i && !steps[0].success ==>
            s.unit.elements[i].info.bundle.None?)
      && QuietFailures(Next(s, steps[0]), steps[1..], i)
  }

  /** Nothing in the element is newer than `v`. */
  ghost predicate UpTo(s: State, i: nat, v: Version)
    requires Valid(s) && i < |s.unit.elements|
  {
    && !s.unit.elements[i].lastProcessed.NewerThan(v)
    && (s.unit.elements[i].info.bundle.Some? ==> !s.unit.elements[i].info.bundle.value.Version().NewerThan(v))
    && forall f :: f in s.flights && f.priority == i ==> !f.bundle.Version().NewerThan(v)
  }

  lemma NewerOffersAreAccepted(s: State, i: nat, v: Version, d: Delta)
    requires Valid(s) && i < |s.unit.elements| && UpTo(s, i, v) && d.version.NewerThan(v)
    ensures Accepts(s.unit, i, DeltaBundle(d))
  {
  }

  lemma StoredVersion(u: Unit, i: nat, b: Bundle, partition: int, offset: int, j: nat)
    requires u.Valid() && i < |u.elements| && j < |u.elements| && Accepts(u, i, b) && u.elements[j].info.DeltaInfo?
    ensures var before, after := u.elements[j], Stored(u, i, b, partition, offset).elements[j];
            && after.lastProcessed == before.lastProcessed && after.info.DeltaInfo?
            && if i == j then after.info.bundle.Some? && after.info.bundle.value.Version() == b.Version()
               else after == before
  {
  }

  lemma ArriveUpTo(s: State, i: nat, v: Version, j: nat, b: Bundle, partition: int, offset: int)
    requires Safe(s) && j < |s.unit.elements| && i < |s.unit.elements| && s.unit.elements[i].info.DeltaInfo?
    requires UpTo(s, i, v) && (j == i && b.DeltaBundle? ==> b.Version().NewerThan(v))
    ensures UpTo(Next(s, Arrive(j, b, partition, offset)), i, if j == i && b.DeltaBundle? then b.Version() else v)
  {
    var r := Next(s, Arrive(j, b, partition, offset));
    if Accepts(s.unit, j, b) {
      StoredVersion(s.unit, j, b, partition, offset, i);
      assert r.unit.elements == Stored(s.unit, j, b, partition, offset).elements && r.flights == s.flights;
      hide Stored, Safe;
    } else if j == i && b.DeltaBundle? {
      NewerOffersAreAccepted(s, i, v, b.delta);
    }
  }

  lemma GetNextUpTo(s: State, i: nat, v: Version)
    requires Safe(s) && s.tickets > 0 && i < |s.unit.elements| && UpTo(s, i, v)
    ensures UpTo(Next(s, GetNext), i, v)
  {
  }

  /** A failed pack that is restored or merged, and a pack that counts as processed, are not newer. */
  lemma ReportedUpTo(u: Unit, f: Flight, success: bool, v: Version)
    requires u.Valid() && FlightValid(u, f) && u.elements[f.priority].info.DeltaInfo?
    requires u.store.metas[f.meta].version == f.bundle.Version() && DeltaRecoverable(u, f)
    requires !f.bundle.Version().NewerThan(v)
    requires var e := u.elements[f.priority];
             !e.lastProcessed.NewerThan(v) && (e.info.bundle.Some? ==> !e.info.bundle.value.Version().NewerThan(v))
    ensures var e := Reported(u, f.meta, success).elements[f.priority];
            !e.lastProcessed.NewerThan(v) && (e.info.bundle.Some? ==> !e.info.bundle.value.Version().NewerThan(v))
  {
  }

  lemma ReportUpTo(s: State, i: nat, v: Version, success: bool)
    requires Safe(s) && s.flights != [] && i < |s.unit.elements| && s.unit.elements[i].info.DeltaInfo? && UpTo(s, i, v)
    ensures UpTo(Next(s, Report(0, success)), i, v)
  {
    var f := s.flights[0];
    ReportShape(s, success);
    assert f in s.flights;
    if f.priority == i {
      ReportedUpTo(s.unit, f, success, v);
    }
    hide Safe, Next, Reported, DeltaRecoverable;
  }

  lemma StepUpTo(s: State, step: Step, i: nat, v: Version)
    requires Safe(s) && Enabled(s, step) && i < |s.unit.elements| && s.unit.elements[i].info.DeltaInfo? && UpTo(s, i, v)
    requires step.Arrive? && step.priority == i && step.bundle.DeltaBundle? ==> step.bundle.Version().NewerThan(v)
    ensures UpTo(Next(s, step), i,
                 if step.Arrive? && step.priority == i && step.bundle.DeltaBundle? then step.bundle.Version() else v)
  {
    match step
    case Arrive(j, b, partition, offset) => ArriveUpTo(s, i, v, j, b, partition, offset);
    case GetNext => GetNextUpTo(s, i, v);
    case Report(n, success) =>
      assert n == 0;
      ReportUpTo(s, i, v, success);
  }

  function Offered(step: Step, i: nat): seq<Delta> {
    if step.Arrive? && step.priority == i && step.bundle.DeltaBundle? then [step.bundle.delta] else []
  }

  function LastVersion(deltas: seq<Delta>): Version {
    if deltas == [] then NO_VERSION else deltas[|deltas| - 1].version
  }

  /** All deltas that were offered have been accepted, and those of the last base are cut into packs. */
  ghost predicate Followed(s: State, i: nat, g: Version, cut: Cut, offered: seq<Delta>) {
    && Safe(s) && i < |s.unit.elements| && s.unit.elements[i].info.DeltaInfo?
    && LineConserved(ViewOf(s, i), g, cut) && UpTo(s, i, LastVersion(offered))
    && AllDeltas(ViewOf(s, i).arrivals) && Deltas(ViewOf(s, i).arrivals) == offered
  }

  lemma NextInOrder(arrivals: seq<Arrival>, offered: seq<Delta>, d: Delta, g: Version)
    requires AllDeltas(arrivals) && Deltas(arrivals) == offered && Ordered(offered + [d], g)
    ensures d.version.NewerThan(LastVersion(offered))
    ensures !d.base.NewerThan(g) && !LastBase(arrivals).NewerThan(d.base)
  {
    var n := |offered|;
    assert (offered + [d])[n] == d;
    if n > 0 {
      assert arrivals[n - 1] in arrivals;
      assert (offered + [d])[n - 1] == offered[n - 1] == arrivals[n - 1].bundle.delta;
    }
  }

  lemma OneArrivalMore(arrivals: seq<Arrival>, offered: seq<Delta>, a: Arrival)
    requires AllDeltas(arrivals) && Deltas(arrivals) == offered && a.bundle.DeltaBundle?
    ensures AllDeltas(arrivals + [a]) && Deltas(arrivals + [a]) == offered + [a.bundle.delta]
  {
  }

  lemma ArrivalsAfter(s: State, step: Step, i: nat)
    requires Safe(s) && Enabled(s, step) && i < |s.unit.elements| && s.unit.elements[i].info.DeltaInfo?
    requires Safe(Next(s, step)) && i < |Next(s, step).unit.elements| && Next(s, step).unit.elements[i].info.DeltaInfo?
    ensures ViewOf(Next(s, step), i).arrivals ==
            if step.Arrive? && step.priority == i && Accepts(s.unit, i, step.bundle) then
              ViewOf(s, i).arrivals + [Arrival(i, step.bundle, |s.unit.store.transports|)]
            else ViewOf(s, i).arrivals
    ensures ViewOf(s, i).arrivals == ArrivalsOf(s.accepted, i)
  {
    if step.Arrive? && Accepts(s.unit, step.priority, step.bundle) {
      ArrivalsSnoc(s.accepted, Arrival(step.priority, step.bundle, |s.unit.store.transports|), i);
    }
    hide Safe, Accepts, Insert, ArrivalsOf, WritesOf;
  }

  /** What is offered next is accepted, and keeps to the line. */
  lemma OfferIsAccepted(s: State, step: Step, i: nat, g: Version, offered: seq<Delta>)
    requires Safe(s) && Enabled(s, step) && i < |s.unit.elements| && s.unit.elements[i].info.DeltaInfo?
    requires UpTo(s, i, LastVersion(offered)) && Ordered(offered + Offered(step, i), g)
    requires AllDeltas(ViewOf(s, i).arrivals) && Deltas(ViewOf(s, i).arrivals) == offered
    requires step.Report? && s.flights[step.flight].priority == i && !step.success ==>
      s.unit.elements[i].info.bundle.None?
    ensures LineStep(s, step, i, g)
    ensures step.Arrive? && step.priority == i ==> (Accepts(s.unit, i, step.bundle) <==> step.bundle.DeltaBundle?)
    ensures step.Arrive? && step.priority == i && step.bundle.DeltaBundle? ==>
      step.bundle.Version().NewerThan(LastVersion(offered))
  {
    hide InFlight, Deltas, Ordered, AllDeltas;
    if Offered(step, i) != [] {
      NextInOrder(ViewOf(s, i).arrivals, offered, step.bundle.delta, g);
      NewerOffersAreAccepted(s, i, LastVersion(offered), step.bundle.delta);
    }
  }

  lemma ArrivalsFollow(s: State, step: Step, i: nat, offered: seq<Delta>)
    requires Safe(s) && Enabled(s, step) && i < |s.unit.elements| && s.unit.elements[i].info.DeltaInfo?
    requires Safe(Next(s, step)) && i < |Next(s, step).unit.elements| && Next(s, step).unit.elements[i].info.DeltaInfo?
    requires AllDeltas(ViewOf(s, i).arrivals) && Deltas(ViewOf(s, i).arrivals) == offered
    requires step.Arrive? && step.priority == i ==> (Accepts(s.unit, i, step.bundle) <==> step.bundle.DeltaBundle?)
    ensures var arrivals := ViewOf(Next(s, step), i).arrivals;
            AllDeltas(arrivals) && Deltas(arrivals) == offered + Offered(step, i)
  {
    hide Safe, ViewOf, Accepts, Next, AllDeltas, Deltas;
    ArrivalsAfter(s, step, i);
    if Offered(step, i) != [] {
      OneArrivalMore(ViewOf(s, i).arrivals, offered, Arrival(i, step.bundle, |s.unit.store.transports|));
    } else {
      assert offered + [] == offered;
    }
  }

  lemma LastOffered(offered: seq<Delta>, step: Step, i: nat)
    ensures LastVersion(offered + Offered(step, i)) ==
            if step.Arrive? && step.priority == i && step.bundle.DeltaBundle? then step.bundle.Version()
            else LastVersion(offered)
  {
  }

  lemma StepIsFollowed(s: State, step: Step, i: nat, g: Version, cut: Cut, offered: seq<Delta>)
    requires Followed(s, i, g, cut, offered) && Enabled(s, step)
    requires step.Report? && s.flights[step.flight].priority == i && !step.success ==>
      s.unit.elements[i].info.bundle.None?
    requires Ordered(offered + Offered(step, i), g)
    ensures Followed(Next(s, step), i, g, CutAfter(s, step, i, g, cut), offered + Offered(step, i))
  {
    hide InFlight, LineConserved, UpTo, Ordered, Next, ViewOf, AllDeltas, Deltas, LineStep, Accepts, Offered;
    hide LastVersion, CutAfter;
    OfferIsAccepted(s, step, i, g, offered);
    StepKeepsLine(s, step, i, g, cut);
    StepUpTo(s, step, i, LastVersion(offered));
    ArrivalsFollow(s, step, i, offered);
    LastOffered(offered, step, i);
  }

  lemma OrderedPrefix(deltas: seq<Delta>, more: seq<Delta>, g: Version)
    requires Ordered(deltas + more, g)
    ensures Ordered(deltas, g)
  {
    assert forall i :: 0 <= i < |deltas| ==> deltas[i] == (deltas + more)[i];
  }

  lemma OffersFirst(steps: seq<Step>, i: nat, offered: seq<Delta>)
    requires steps != []
    ensures offered + Offers(steps, i) == offered + Offered(steps[0], i) + Offers(steps[1..], i)
  {
  }

  lemma FollowedIsValid(s: State, i: nat, g: Version, cut: Cut, offered: seq<Delta>)
    requires Followed(s, i, g, cut, offered)
    ensures Safe(s) && Valid(s) && i < |s.unit.elements|
  {
    hide LineConserved, UpTo, ViewOf;
  }

  ghost function RunCut(s: State, steps: seq<Step>, i: nat, g: Version, cut: Cut): Cut
    requires Valid(s) && RunEnabled(s, steps) && i < |s.unit.elements|
    decreases |steps|
  {
    if steps == [] then cut
    else RunCut(Next(s, steps[0]), steps[1..], i, g, CutAfter(s, steps[0], i, g, cut))
  }

  /** If deltas arrive in the order in which they were sent, all are accepted, in every interleaving. */
  lemma {:induction false} EveryRunIsFollowed(s: State, steps: seq<Step>, i: nat, g: Version, cut: Cut,
                                              offered: seq<Delta>)
    requires Followed(s, i, g, cut, offered) && RunEnabled(s, steps) && QuietFailures(s, steps, i)
    requires Ordered(offered + Offers(steps, i), g)
    ensures Followed(Run(s, steps), i, g, RunCut(s, steps, i, g, cut), offered + Offers(steps, i))
    decreases |steps|
  {
    hide Followed, Ordered, Next, Offers, Offered, Safe, Valid, CutAfter;
    FollowedIsValid(s, i, g, cut, offered);
    if steps == [] {
      assert Offers([], i) == [] && offered + [] == offered by {
        NoOffers(i);
      }
    } else {
      var now := offered + Offered(steps[0], i);
      OffersFirst(steps, i, offered);
      OrderedPrefix(now, Offers(steps[1..], i), g);
      StepIsFollowed(s, steps[0], i, g, cut, offered);
      EveryRunIsFollowed(Next(s, steps[0]), steps[1..], i, g, CutAfter(s, steps[0], i, g, cut), now);
    }
  }

  lemma NoOffers(i: nat)
    ensures Offers([], i) == []
  {
  }

  lemma StartIsFollowed(s: State, i: nat, g: Version)
    requires Initial(s) && i < |s.unit.elements| && s.unit.elements[i].info.DeltaInfo?
    ensures Followed(s, i, g, Cut([], [], []), [])
  {
    hide LineConserved, ViewOf, Safe, AllDeltas, Deltas;
    InitialIsSafe(s);
    StartView(s, i);
    NothingConserved(ViewOf(s, i), g);
  }

  lemma StartView(s: State, i: nat)
    requires Initial(s) && Safe(s) && i < |s.unit.elements| && s.unit.elements[i].info.DeltaInfo?
    ensures var v := ViewOf(s, i);
            v.pending.None? && v.flying.None? && v.arrivals == [] && v.writes == []
  {
    hide InFlight;
  }

  lemma NothingConserved(v: View, g: Version)
    requires v.pending.None? && v.flying.None? && v.arrivals == [] && v.writes == []
    ensures LineConserved(v, g, Cut([], [], [])) && AllDeltas([]) && Deltas([]) == []
  {
  }

  // ---------------------------------------------------------------- what the database sees

  /** The packs on one base that are not written yet. */
  ghost function Unwritten(v: View, g: Version): (r: seq<Bundle>)
    ensures AllDeltaBundles(r)
  {
    PacksOn((if v.flying.Some? then [v.flying.value] else []) + (if v.pending.Some? then [v.pending.value] else []), g)
  }

  function DeltasOnBase(deltas: seq<Delta>, g: Version): seq<Delta>
    decreases |deltas|
  {
    if deltas == [] then []
    else
      var front, last := DeltasOnBase(deltas[..|deltas| - 1], g), deltas[|deltas| - 1];
      if last.base == g then front + [last] else front
  }

  lemma {:induction false} OnBaseDeltas(arrivals: seq<Arrival>, g: Version)
    requires AllDeltas(arrivals)
    ensures Deltas(OnBase(arrivals, g)) == DeltasOnBase(Deltas(arrivals), g)
    decreases |arrivals|
  {
    if arrivals != [] {
      var front, last := arrivals[..|arrivals| - 1], arrivals[|arrivals| - 1];
      assert last in arrivals && AllDeltas(front);
      OnBaseDeltas(front, g);
      assert Deltas(arrivals)[..|arrivals| - 1] == Deltas(front);
      if last.bundle.delta.base == g {
        OneArrivalMore(OnBase(front, g), Deltas(OnBase(front, g)), last);
      }
    }
  }

  lemma PackOfOneBundle(b: Option<Bundle>, piece: seq<Arrival>, g: Version)
    requires AllDeltas(piece) && PackIs(b, piece, g)
    ensures PacksOn(if b.Some? then [b.value] else [], g) ==
            if piece != [] then [DeltaBundle(Pack(Deltas(piece)))] else []
  {
    hide Pack, Deltas;
    if b.Some? {
      assert [b.value][..0] == [];
    }
  }

  lemma {:induction false} PacksOnConcat(a: seq<Bundle>, b: seq<Bundle>, g: Version)
    ensures PacksOn(a + b, g) == PacksOn(a, g) + PacksOn(b, g)
    decreases |b|
  {
    if b == [] {
      assert a + b == a;
    } else {
      assert (a + b)[..|a + b| - 1] == a + b[..|b| - 1];
      PacksOnConcat(a, b[..|b| - 1], g);
    }
  }

  lemma UnwrittenIs(v: View, g: Version, cut: Cut)
    requires LineConserved(v, g, cut)
    ensures Unwritten(v, g) ==
            (if cut.flying != [] then [DeltaBundle(Pack(Deltas(cut.flying)))] else [])
            + (if cut.pending != [] then [DeltaBundle(Pack(Deltas(cut.pending)))] else [])
  {
    PackOfOneBundle(v.flying, cut.flying, g);
    PackOfOneBundle(v.pending, cut.pending, g);
    PacksOnConcat(if v.flying.Some? then [v.flying.value] else [], if v.pending.Some? then [v.pending.value] else [],
                  g);
    hide Pack, Deltas, PackIs, PacksOn, BasesGrow, WellCut, PacksWritten, IsLast;
  }

  lemma PiecesOfCut(cut: Cut, arrivals: seq<Arrival>, writes: seq<Bundle>, unwritten: seq<Bundle>)
    requires WellCut(cut, arrivals) && PacksWritten(cut, writes)
    requires unwritten == (if cut.flying != [] then [DeltaBundle(Pack(Deltas(cut.flying)))] else [])
                          + (if cut.pending != [] then [DeltaBundle(Pack(Deltas(cut.pending)))] else [])
    ensures var outcome, pieces := writes + unwritten, Pieces(cut);
            && |outcome| == |pieces| && Flat(pieces) == arrivals && AllDeltas(arrivals)
            && (forall k :: 0 <= k < |pieces| ==> pieces[k] != [] && AllDeltas(pieces[k]))
            && forall k :: 0 <= k < |pieces| ==> outcome[k] == DeltaBundle(Pack(Deltas(pieces[k])))
  {
    hide Pack, Deltas, Flat;
    PiecesAreFlat(cut);
  }

  /** What was written on a base and what is not written yet leave the table of every delta accepted on it. */
  lemma LineMeansSameTable(v: View, g: Version, cut: Cut, table: Table)
    requires LineConserved(v, g, cut)
    ensures AllDeltas(v.arrivals) && AllDeltaBundles(v.writes)
    ensures WriteAll(table, DeltasOf(PacksOn(v.writes, g) + Unwritten(v, g))) ==
            WriteAll(table, DeltasOnBase(Deltas(v.arrivals), g))
  {
    hide Pack, Deltas, Flat, WriteAll, DeltasOf, WellCut, PacksWritten, PackIs, IsLast, OnBase, PacksOn, Unwritten;
    hide Pieces, DeltasOnBase;
    UnwrittenIs(v, g, cut);
    PiecesOfCut(cut, OnBase(v.arrivals, g), PacksOn(v.writes, g), Unwritten(v, g));
    OneBaseOfArrivals(OnBase(v.arrivals, g), g);
    OnBaseDeltas(v.arrivals, g);
    SameTableByPieces(PacksOn(v.writes, g) + Unwritten(v, g), Pieces(cut), OnBase(v.arrivals, g), table);
  }

  lemma WriteAllMore(table: Table, a: seq<Bundle>, b: seq<Bundle>)
    requires AllDeltaBundles(a) && AllDeltaBundles(b)
    ensures AllDeltaBundles(a + b)
    ensures WriteAll(WriteAll(table, DeltasOf(a)), DeltasOf(b)) == WriteAll(table, DeltasOf(a + b))
  {
    assert DeltasOf(a + b) == DeltasOf(a) + DeltasOf(b);
    WriteAllSplit(table, DeltasOf(a), DeltasOf(b));
  }

  // ---------------------------------------------------------------- early packs

  lemma PacksOnAll(packs: seq<Bundle>, g: Version)
    requires AllDeltaBundles(packs) && forall w :: w in packs ==> w.delta.base == g
    ensures PacksOn(packs, g) == packs
    decreases |packs|
  {
    if packs != [] {
      var front := packs[..|packs| - 1];
      assert packs == front + [packs[|packs| - 1]] && packs[|packs| - 1] in packs;
      assert forall w :: w in front ==> w in packs;
      PacksOnAll(front, g);
    }
  }

  lemma {:induction false} WritesConcat(a: seq<Flight>, b: seq<Flight>, i: nat)
    ensures WritesOf(a + b, i) == WritesOf(a, i) + WritesOf(b, i)
    decreases |b|
  {
    if b == [] {
      assert a + b == a;
    } else {
      assert (a + b)[..|a + b| - 1] == a + b[..|b| - 1];
      WritesConcat(a, b[..|b| - 1], i);
    }
  }

  lemma {:induction false} WrittenInTwo(written: seq<Flight>, i: nat)
    ensures written == Before(written, i) + Since(written, i)
    decreases |written|
  {
    if written != [] && written[|written| - 1].priority != i {
      WrittenInTwo(written[..|written| - 1], i);
    }
  }

  /** What was written on the last complete bundle: the early packs, then those since. */
  lemma EarlyThenLine(written: seq<Flight>, k: Types, z: Bundle)
    requires OnLast(written, k) && LastOf(written, k.complete) == Some(z)
    ensures PacksOn(WritesOf(written, k.delta), z.Version()) == EarlyPacks(written, k) + LinePacks(written, k)
  {
    hide Before, Since, WritesOf, LastOf, PacksOn;
    var a, b := Before(written, k.complete), Since(written, k.complete);
    WrittenInTwo(written, k.complete);
    WritesConcat(a, b, k.delta);
    PacksOnConcat(WritesOf(a, k.delta), WritesOf(b, k.delta), z.Version());
    PacksOnAll(LinePacks(written, k), z.Version());
  }

  /** What deltas say together, the later one winning. */
  function Effects(deltas: seq<Delta>): Table
    decreases |deltas|
  {
    if deltas == [] then map[] else Effects(deltas[..|deltas| - 1]) + deltas[|deltas| - 1].effect
  }

  lemma {:induction false} WriteAllIsWrite(table: Table, deltas: seq<Delta>)
    ensures WriteAll(table, deltas) == Write(table, Effects(deltas))
    decreases |deltas|
  {
    hide Write, WriteAll;
    if deltas == [] {
      WriteNothing(table);
    } else {
      var front, last := deltas[..|deltas| - 1], deltas[|deltas| - 1];
      assert deltas == front + [last];
      WriteAllIsWrite(table, front);
      WriteAllSplit(table, front, [last]);
      WriteOne(WriteAll(table, front), last);
      WriteTwice(table, Effects(front), last.effect);
    }
  }

  lemma WriteNothing(table: Table)
    ensures Write(table, map[]) == table && WriteAll(table, []) == table
  {
  }

  /** A row that an early pack changes and no later one names. */
  ghost predicate Lost(table: Table, early: Table, line: Table) {
    exists row :: row in table && row in early && row !in line && early[row] != table[row]
  }

  lemma LostIff(table: Table, early: Table, line: Table)
    ensures Write(Write(table, early), line) == Write(table, line) <==> !Lost(table, early, line)
  {
    var all, some := Write(Write(table, early), line), Write(table, line);
    forall row | row in table
      ensures all[row] == some[row] <==> !(row in early && row !in line && early[row] != table[row])
    {
    }
    if all == some {
      assert forall row :: row in table ==> all[row] == some[row];
    }
  }

  /**
   Packs written before their complete bundle are overwritten by it: that loses something exactly when
   one of their rows is not what the bundle says and no later pack names it.
   */
  lemma EarlyPacksAreLostIff(table: Table, early: seq<Bundle>, line: seq<Bundle>)
    requires AllDeltaBundles(early) && AllDeltaBundles(line)
    ensures WriteAll(table, DeltasOf(early + line)) == WriteAll(table, DeltasOf(line)) <==>
            !Lost(table, Effects(DeltasOf(early)), Effects(DeltasOf(line)))
  {
    hide WriteAll, Write, Effects, DeltasOf, Lost;
    WriteAllMore(table, early, line);
    WriteAllIsWrite(table, DeltasOf(early));
    WriteAllIsWrite(WriteAll(table, DeltasOf(early)), DeltasOf(line));
    WriteAllIsWrite(table, DeltasOf(line));
    LostIff(table, Effects(DeltasOf(early)), Effects(DeltasOf(line)));
  }

  /** The packs on the last complete bundle that are written since then or still held. */
  ghost function Later(s: State, k: Types, z: Bundle): (r: seq<Bundle>)
    requires Safe(s) && k.delta < |s.unit.elements| && s.unit.elements[k.delta].info.DeltaInfo? && OnLast(s.written, k)
    ensures AllDeltaBundles(r)
  {
    LinePacks(s.written, k) + Unwritten(ViewOf(s, k.delta), z.Version())
  }

  /**
   In every interleaving of arrivals, dispatches and reports, with or without initial checks, over
   any table, with deltas that arrive in the order in which they were sent and packs that fail only
   while nothing newer is pending: let the last complete bundle that was written follow the last full
   one. Writing what the unit still holds on it gives what the two and the packs on it since then say.
   That is what all deltas sent on it say, unless a pack written before it changed a row for good.
   */
  lemma TableOfEveryRun(s: State, steps: seq<Step>, t: Table, k: Types, x: Contents, z: Bundle)
    requires Initial(s) && Wired(s.unit, k) && RunEnabled(s, steps) && QuietFailures(s, steps, k.delta)
    requires var r := Run(s, steps); LastOf(r.written, k.complete) == Some(z) && FullFirst(r.written, k)
    requires Ordered(Offers(steps, k.delta), z.Version())
    ensures var r := Run(s, steps);
            && Safe(r) && k.delta < |r.unit.elements| && r.unit.elements[k.delta].info.DeltaInfo?
                 && OnLast(r.written, k)
            && var base, early, later := BaseTable(r.written, t, k, x), EarlyPacks(r.written, k), Later(r, k, z);
               var held := WriteAll(TableOf(r.written, t, k, x), DeltasOf(Unwritten(ViewOf(r, k.delta), z.Version())));
               var sent := WriteAll(base, DeltasOnBase(Offers(steps, k.delta), z.Version()));
               && held == WriteAll(base, DeltasOf(later))
               && (held == sent <==> !Lost(base, Effects(DeltasOf(early)), Effects(DeltasOf(later))))
  {
    hide Initial, Safe, NoWorkLeft, InOrder, Run, RunEnabled, QuietFailures, Wired, ViewOf, TableOf, LastOf, WritesOf;
    hide UpTo, Ordered, Offers, LineConserved, WriteAll, BaseTable, DeltasOf, DeltasOnBase, Deltas, PacksOn, Unwritten;
    hide AllDeltas, AllDeltaBundles, OnLast, Processed, FullFirst, FullTable, EarlyPacks, LinePacks, RunCut, Lost;
    hide Effects;
    var g, i := z.Version(), k.delta;
    StartWired(s, k);
    StartIsTabled(s, t, k, x);
    EveryRunIsTabled(s, steps, t, k, x);
    StartIsFollowed(s, i, g);
    assert [] + Offers(steps, i) == Offers(steps, i);
    EveryRunIsFollowed(s, steps, i, g, Cut([], [], []), []);
    var r := Run(s, steps);
    var base, early, line := BaseTable(r.written, t, k, x), EarlyPacks(r.written, k), LinePacks(r.written, k);
    var held := Unwritten(ViewOf(r, i), g);
    LinePacksAreDeltas(r.written, k);
    WriteAllMore(base, line, held);
    LineMeansSameTable(ViewOf(r, i), g, RunCut(s, steps, i, g, Cut([], [], [])), base);
    ViewWrites(r, i);
    EarlyThenLine(r.written, k, z);
    assert early + line + held == early + (line + held);
    EarlyPacksAreLostIff(base, early, line + held);
  }

  lemma LinePacksAreDeltas(written: seq<Flight>, k: Types)
    requires OnLast(written, k)
    ensures AllDeltaBundles(LinePacks(written, k))
  {
  }

  lemma StartWired(s: State, k: Types)
    requires Initial(s) && Wired(s.unit, k)
    ensures k.delta < |s.unit.elements| && s.unit.elements[k.delta].info.DeltaInfo?
  {
  }

  lemma ViewWrites(s: State, i: nat)
    requires Safe(s) && i < |s.unit.elements| && s.unit.elements[i].info.DeltaInfo?
    ensures ViewOf(s, i).writes == WritesOf(s.written, i)
  {
  }
}
