/**
 What the order of arrival guarantees: if a full bundle arrives before the complete bundle based on
 it, the latter is written only after the former, and every delta pack written before the complete
 bundle holds only deltas that arrived before it.
 */
module ConflationOrder {
  import opened Compliance
  import opened Conflation
  import opened ConflationDeltas
  import opened ConflationLine
  import opened ConflationRuns
  import opened ConflationTable
  import opened DeltaMerge
  import opened Options
  import opened Versions

  // ---------------------------------------------------------------- the two complete-state types

  /** A complete-state element: what is pending and what was processed last. */
  datatype Side = Side(pending: Option<Bundle>, processed: Version) {
    function Newest(): Version {
      if pending.Some? then pending.value.Version() else processed
    }
  }

  datatype Front = Front(full: Side, complete: Side, flight: Option<(nat, Bundle)>)

  ghost function SideOf(s: State, i: nat): Side
    requires i < |s.unit.elements|
  {
    Side(s.unit.elements[i].info.bundle, s.unit.elements[i].lastProcessed)
  }

  ghost function FrontOf(s: State, k: Types): Front
    requires Valid(s) && Wired(s.unit, k)
  {
    Front(SideOf(s, k.full), SideOf(s, k.complete),
          if s.flights != [] then Some((s.flights[0].priority, s.flights[0].bundle)) else None)
  }

  function WithOffer(d: Side, b: Bundle): Side {
    if b.Version().NewerThan(d.processed) && (d.pending.Some? ==> b.Version().NewerThan(d.pending.value.Version()))
    then Side(Some(b), d.processed) else d
  }

  function Settled(d: Side, b: Bundle): Side {
    Side(if d.pending.Some? && d.pending.value.Version() == b.Version() then None else d.pending, b.Version())
  }

  function ArriveFront(v: Front, k: Types, j: nat, b: Bundle): Front {
    if j == k.full then v.(full := WithOffer(v.full, b))
    else if j == k.complete then v.(complete := WithOffer(v.complete, b))
    else v
  }

  function ReportFront(v: Front, k: Types, success: bool): Front
    requires v.flight.Some?
  {
    var f := v.flight.value;
    var landed := v.(flight := None);
    if success && f.0 == k.full then landed.(full := Settled(v.full, f.1))
    else if success && f.0 == k.complete then landed.(complete := Settled(v.complete, f.1))
    else landed
  }

  lemma StoredSide(u: Unit, j: nat, b: Bundle, partition: int, offset: int, i: nat)
    requires u.Valid() && i < |u.elements| && j < |u.elements| && Accepts(u, j, b) && u.elements[i].info.CompleteInfo?
    ensures var e := Stored(u, j, b, partition, offset).elements[i];
            && e.lastProcessed == u.elements[i].lastProcessed
            && e.info.bundle == if i == j then Some(b) else u.elements[i].info.bundle
  {
  }

  lemma ArriveSide(s: State, j: nat, b: Bundle, partition: int, offset: int, i: nat)
    requires Safe(s) && i < |s.unit.elements| && j < |s.unit.elements| && s.unit.elements[i].info.CompleteInfo?
    ensures var r := Next(s, Arrive(j, b, partition, offset));
            && r.flights == s.flights && i < |r.unit.elements|
            && SideOf(r, i) == if i == j then WithOffer(SideOf(s, i), b) else SideOf(s, i)
  {
    hide InFlight;
    if Accepts(s.unit, j, b) {
      StoredSide(s.unit, j, b, partition, offset, i);
      hide Stored;
      var r := Next(s, Arrive(j, b, partition, offset));
      assert r.unit.elements == Stored(s.unit, j, b, partition, offset).elements;
    }
  }

  lemma ArriveFrontSeen(s: State, k: Types, j: nat, b: Bundle, partition: int, offset: int)
    requires Safe(s) && Wired(s.unit, k) && j < |s.unit.elements|
    ensures var r := Next(s, Arrive(j, b, partition, offset));
            Wired(r.unit, k) && FrontOf(r, k) == ArriveFront(FrontOf(s, k), k, j, b)
  {
    hide InFlight, Next;
    StaysWired(s, Arrive(j, b, partition, offset), k);
    ArriveSide(s, j, b, partition, offset, k.full);
    ArriveSide(s, j, b, partition, offset, k.complete);
  }

  /** What a dispatch takes, and what it says about the elements before it. */
  ghost predicate Takes(v: Front, k: Types, i: nat, r: Front) {
    && v.flight.None? && r.flight.Some? && r.flight.value.0 == i && r == v.(flight := r.flight)
    && (i == k.complete ==>
          && v.full.pending.None? && v.complete.pending == Some(r.flight.value.1)
          && (r.flight.value.1.Dependency() == Some(v.full.processed) || v.full.processed == NO_VERSION))
    && (i == k.delta ==>
          && v.full.pending.None?
          && (v.complete.pending.Some? ==> v.complete.pending.value.Dependency() != Some(v.full.processed)))
  }

  lemma NotReadyMeans(u: Unit, k: Types)
    requires u.Valid() && Wired(u, k) && !AnyInProcess(u)
    ensures !Ready(u, k.full) ==> u.elements[k.full].info.bundle.None?
    ensures !Ready(u, k.complete) && u.elements[k.complete].info.bundle.Some? ==>
      u.elements[k.complete].info.bundle.value.Dependency() != Some(u.elements[k.full].lastProcessed)
    ensures Ready(u, k.complete) ==>
      && u.elements[k.complete].info.bundle.Some?
      && (u.elements[k.complete].info.bundle.value.Dependency() == Some(u.elements[k.full].lastProcessed)
          || u.elements[k.full].lastProcessed == NO_VERSION)
  {
    assert !u.elements[k.full].inProcess && !u.elements[k.complete].inProcess;
    assert !ChainInProcess(u, k.full) && !ChainInProcess(u, k.complete);
  }

  lemma QueuedMeansIdle(s: State)
    requires Safe(s) && s.tickets > 0
    ensures s.flights == [] && !AnyInProcess(s.unit)
  {
  }

  lemma GetNextFrontSeen(s: State, k: Types)
    requires Safe(s) && s.tickets > 0 && Wired(s.unit, k)
    ensures var r := Next(s, GetNext);
            && Wired(r.unit, k)
            && match NextReady(s.unit, 0)
               case None => FrontOf(r, k) == FrontOf(s, k)
               case Some(i) => Takes(FrontOf(s, k), k, i, FrontOf(r, k))
  {
    hide InFlight, ChainInProcess, DependencyHolds, Dispatch;
    StaysWired(s, GetNext, k);
    QueuedMeansIdle(s);
    NotReadyMeans(s.unit, k);
    assert k.full < k.complete < k.delta;
    var next := NextReady(s.unit, 0);
    if next.Some? {
      DispatchSides(s.unit, next.value, k);
    }
  }

  lemma DispatchSides(u: Unit, i: nat, k: Types)
    requires u.Valid() && Wired(u, k) && i < |u.elements| && u.elements[i].info.bundle.Some?
    ensures forall j :: (j == k.full || j == k.complete) ==>
      && Dispatch(u, i).elements[j].info.bundle == u.elements[j].info.bundle
      && Dispatch(u, i).elements[j].lastProcessed == u.elements[j].lastProcessed
  {
  }

  /** The element of the flight afterwards. */
  lemma ReportedSide(u: Unit, f: Flight, success: bool)
    requires u.Valid() && FlightValid(u, f) && u.elements[f.priority].info.CompleteInfo?
    requires u.store.metas[f.meta].version == f.bundle.Version() && PendingNamed(u, f.priority)
    requires f.bundle.Version().NewerThan(u.elements[f.priority].lastProcessed)
    ensures var e, r := u.elements[f.priority], Reported(u, f.meta, success).elements[f.priority];
            var d := Side(e.info.bundle, e.lastProcessed);
            Side(r.info.bundle, r.lastProcessed) == if success then Settled(d, f.bundle) else d
  {
  }

  lemma ReportSide(s: State, success: bool, i: nat)
    requires Safe(s) && InOrder(s) && s.flights != [] && i < |s.unit.elements| && s.unit.elements[i].info.CompleteInfo?
    ensures var r, f := Next(s, Report(0, success)), s.flights[0];
            && r.flights == [] && i < |r.unit.elements|
            && SideOf(r, i) == if f.priority == i && success then Settled(SideOf(s, i), f.bundle) else SideOf(s, i)
  {
    var f := s.flights[0];
    ReportShape(s, success);
    if f.priority == i {
      assert f in s.flights && PendingNamed(s.unit, i) && Fresh(s, i);
      ReportedSide(s.unit, f, success);
    }
    hide InFlight, DeltaRecoverable, Next, Reported, PendingNamed, DependencyHolds, WrittenInOrder;
  }

  lemma ReportFrontSeen(s: State, k: Types, success: bool)
    requires Safe(s) && InOrder(s) && s.flights != [] && Wired(s.unit, k)
    ensures var r := Next(s, Report(0, success));
            Wired(r.unit, k) && FrontOf(r, k) == ReportFront(FrontOf(s, k), k, success)
  {
    hide InFlight, InOrder, Next;
    StaysWired(s, Report(0, success), k);
    ReportSide(s, success, k.full);
    ReportSide(s, success, k.complete);
  }

  /** What is pending or in flight is newer than what was processed. */
  ghost predicate FreshSide(d: Side, i: nat, flight: Option<(nat, Bundle)>) {
    && (d.pending.Some? ==> d.pending.value.Version().NewerThan(d.processed))
    && (flight.Some? && flight.value.0 == i ==>
          && flight.value.1.Version().NewerThan(d.processed) && d.pending.Some?
          && (d.pending.value == flight.value.1 || d.pending.value.Version().NewerThan(flight.value.1.Version())))
  }

  ghost predicate FreshFront(v: Front, k: Types) {
    FreshSide(v.full, k.full, v.flight) && FreshSide(v.complete, k.complete, v.flight)
  }

  lemma FrontIsFresh(s: State, k: Types)
    requires Safe(s) && InOrder(s) && Wired(s.unit, k)
    ensures FreshFront(FrontOf(s, k), k)
  {
    hide InFlight, WrittenInOrder;
    assert Fresh(s, k.full) && Fresh(s, k.complete);
    if s.flights != [] {
      assert s.flights[0] in s.flights;
    }
  }

  // ---------------------------------------------------------------- waiting for one complete bundle

  ghost predicate Pends(v: Front, g: Version) {
    v.complete.pending.Some? && v.complete.pending.value.Version() == g
  }

  ghost predicate Flies(v: Front, k: Types, g: Version) {
    v.flight.Some? && v.flight.value.0 == k.complete && v.flight.value.1.Version() == g
  }

  /** The complete bundle `g`, which is based on the full bundle `h`, will not be written any more. */
  ghost predicate Gone(v: Front, k: Types, g: Version, h: Version) {
    && !Flies(v, k, g)
    && (v.full.processed.NewerThan(h) || v.complete.processed.NewerThan(g) || v.complete.Newest().NewerThan(g))
  }

  /** Bundles of this version are based on `h`. */
  ghost predicate BasedOn(v: Front, k: Types, g: Version, h: Version) {
    && (Pends(v, g) ==> v.complete.pending.value.Dependency() == Some(h))
    && (Flies(v, k, g) ==> v.flight.value.1.Dependency() == Some(h))
  }

  /**
   The full bundle has arrived and the complete one too, which is not written yet: it pends, or flies
   after its base, and no delta has left too late; or it is gone.
   */
  ghost predicate Waiting(v: Front, k: Types, g: Version, h: Version, late: bool) {
    && v.complete.processed != g && !h.NewerThan(v.full.Newest())
    && (Gone(v, k, g, h) || (!late && (Pends(v, g) || Flies(v, k, g))))
    && (Flies(v, k, g) ==> v.full.processed == h)
  }

  lemma WaitingAtArrival(v: Front, k: Types, j: nat, b: Bundle, g: Version, h: Version, late: bool)
    requires k.full != k.complete && FreshFront(v, k) && Waiting(v, k, g, h, late)
    ensures Waiting(ArriveFront(v, k, j, b), k, g, h, late)
  {
  }

  /** Nothing of a delta type is dispatched while the complete bundle still waits. */
  lemma WaitingAtDispatch(v: Front, k: Types, i: nat, r: Front, g: Version, h: Version, late: bool)
    requires k.full < k.complete < k.delta && FreshFront(v, k) && BasedOn(v, k, g, h)
    requires Takes(v, k, i, r) && Waiting(v, k, g, h, late)
    ensures Waiting(r, k, g, h, late || i == k.delta)
  {
  }

  lemma WaitingAtReport(v: Front, k: Types, success: bool, g: Version, h: Version, late: bool)
    requires k.full != k.complete && v.flight.Some? && FreshFront(v, k) && Waiting(v, k, g, h, late)
    requires !(success && Flies(v, k, g))
    ensures Waiting(ReportFront(v, k, success), k, g, h, late)
  {
  }

  /** The complete bundle arrives, for the first time, after its base. */
  lemma WaitingBegins(v: Front, k: Types, b: Bundle, g: Version, h: Version)
    requires FreshFront(v, k) && k.full != k.complete && b.Version() == g && !h.NewerThan(v.full.Newest())
    requires !Pends(v, g) && !Flies(v, k, g) && v.complete.processed != g
    ensures Waiting(ArriveFront(v, k, k.complete, b), k, g, h, false)
  {
  }

  // ---------------------------------------------------------------- packs that left early

  /** How many deltas have left on the base. */
  ghost function Left(cut: Cut): nat {
    |Flat(cut.packs)| + |cut.flying|
  }

  /** The complete bundle is written, after its base; packs before it hold some of the first `n` deltas on it. */
  ghost predicate Landed(s: State, k: Types, h: Version, cut: Cut, n: nat)
    requires Valid(s) && Wired(s.unit, k)
  {
    var full := s.unit.elements[k.full].lastProcessed;
    && !h.NewerThan(full) && (FullFirst(s.written, k) || full.NewerThan(h))
    && EarlyWithin(s.written, k, cut.packs, n)
  }

  ghost predicate EarlyWithin(written: seq<Flight>, k: Types, packs: seq<seq<Arrival>>, n: nat) {
    |EarlyPacks(written, k)| <= |packs| && |Flat(packs[..|EarlyPacks(written, k)|])| <= n
  }

  ghost predicate Early(s: State, k: Types, g: Version, h: Version, cut: Cut, n: nat)
    requires Valid(s)
  {
    && Wired(s.unit, k)
    && if s.unit.elements[k.complete].lastProcessed == g then Landed(s, k, h, cut, n)
       else Waiting(FrontOf(s, k), k, g, h, Left(cut) > n)
  }

  /** What every step finds. */
  ghost predicate Sound(s: State, k: Types, g: Version, h: Version, cut: Cut)
    requires Valid(s)
  {
    && Safe(s) && InOrder(s) && Wired(s.unit, k) && Processed(s, k.full) && Processed(s, k.complete)
    && BasedOn(FrontOf(s, k), k, g, h) && g != NO_VERSION
    && |cut.packs| == |PacksOn(WritesOf(s.written, k.delta), g)|
  }

  lemma ArriveKeepsEarly(s: State, k: Types, g: Version, h: Version, cut: Cut, n: nat, j: nat, b: Bundle,
                         partition: int, offset: int)
    requires Valid(s) && Sound(s, k, g, h, cut) && Early(s, k, g, h, cut, n) && j < |s.unit.elements|
    ensures var step := Arrive(j, b, partition, offset);
            Early(Next(s, step), k, g, h, CutAfter(s, step, k.delta, g, cut), n)
  {
    hide InFlight, InOrder, Next, EarlyWithin, FullFirst, Waiting, Wired, Flat;
    WiredTypes(s.unit, k);
    FrontIsFresh(s, k);
    ArriveFrontSeen(s, k, j, b, partition, offset);
    ArriveWritesNothing(s, j, b, partition, offset);
    if s.unit.elements[k.complete].lastProcessed != g {
      WaitingAtArrival(FrontOf(s, k), k, j, b, g, h, Left(cut) > n);
    }
  }

  lemma WiredTypes(u: Unit, k: Types)
    requires u.Valid() && Wired(u, k)
    ensures k.full < k.complete < k.delta < |u.elements|
    ensures u.elements[k.full].info.CompleteInfo? && u.elements[k.complete].info.CompleteInfo?
    ensures u.elements[k.delta].info.DeltaInfo?
  {
  }

  lemma GetNextKeepsEarly(s: State, k: Types, g: Version, h: Version, cut: Cut, n: nat)
    requires Valid(s) && Sound(s, k, g, h, cut) && Early(s, k, g, h, cut, n) && s.tickets > 0
    ensures Early(Next(s, GetNext), k, g, h, CutAfter(s, GetNext, k.delta, g, cut), n)
  {
    hide InFlight, InOrder, Next, EarlyWithin, FullFirst, Waiting, Wired, Flat, NextReady, Takes;
    WiredTypes(s.unit, k);
    FrontIsFresh(s, k);
    GetNextFrontSeen(s, k);
    NothingWritten(s, GetNext, k.full);
    NothingWritten(s, GetNext, k.complete);
    var next := NextReady(s.unit, 0);
    if next.Some? && s.unit.elements[k.complete].lastProcessed != g {
      WaitingAtDispatch(FrontOf(s, k), k, next.value, FrontOf(Next(s, GetNext), k), g, h, Left(cut) > n);
      WaitingEither(FrontOf(Next(s, GetNext), k), k, g, h, Left(cut) > n || next.value == k.delta,
                    Left(CutAfter(s, GetNext, k.delta, g, cut)) > n);
    }
  }

  lemma WaitingEither(v: Front, k: Types, g: Version, h: Version, late: bool, now: bool)
    requires Waiting(v, k, g, h, late) && (now ==> late)
    ensures Waiting(v, k, g, h, now)
  {
  }

  lemma LeftAfterReport(s: State, k: Types, g: Version, cut: Cut, success: bool)
    requires Valid(s) && s.flights != [] && k.delta < |s.unit.elements|
    ensures Left(CutAfter(s, Report(0, success), k.delta, g, cut)) <= Left(cut)
  {
    FlatSnoc(cut.packs, cut.flying);
    hide Flat;
  }

  lemma PacksStay(s: State, k: Types, g: Version, cut: Cut, success: bool, m: nat)
    requires Valid(s) && s.flights != [] && k.delta < |s.unit.elements| && m <= |cut.packs|
    ensures var after := CutAfter(s, Report(0, success), k.delta, g, cut);
            m <= |after.packs| && after.packs[..m] == cut.packs[..m]
  {
  }

  lemma EarlyPacksSnoc(written: seq<Flight>, q: Flight, k: Types)
    ensures EarlyPacks(written + [q], k) ==
            if q.priority == k.complete then PacksOn(WritesOf(written + [q], k.delta), q.bundle.Version())
            else EarlyPacks(written, k)
    ensures FullFirst(written + [q], k) <==> q.priority == k.complete || (FullFirst(written, k) && q.priority != k.full)
  {
    hide Before, Since, PacksOn, WritesOf, LastOf;
    WrittenSnoc(written, q);
    if q.priority != k.complete {
      assert q in Since(written + [q], k.complete);
      assert forall f :: f in Since(written + [q], k.complete) <==> f in Since(written, k.complete) || f == q;
    }
  }

  /** The complete bundle lands: all packs on it so far were early. */
  lemma LandingIsEarly(s: State, k: Types, g: Version, h: Version, cut: Cut, n: nat)
    requires Valid(s) && Sound(s, k, g, h, cut) && Early(s, k, g, h, cut, n) && s.flights != []
    requires Flies(FrontOf(s, k), k, g)
    ensures Early(Next(s, Report(0, true)), k, g, h, CutAfter(s, Report(0, true), k.delta, g, cut), n)
  {
    hide InFlight, InOrder, Next, FullFirst, Wired, Flat, EarlyPacks, WritesOf, PacksOn, CutAfter;
    WiredTypes(s.unit, k);
    FrontIsFresh(s, k);
    var q := s.flights[0];
    ReportShape(s, true);
    ReportFrontSeen(s, k, true);
    EarlyPacksSnoc(s.written, q, k);
    WritesSnoc(s.written, q, k.delta);
    NoDeltaLands(s, k, g, cut);
    assert cut.packs[..|cut.packs|] == cut.packs;
  }

  lemma NoDeltaLands(s: State, k: Types, g: Version, cut: Cut)
    requires Valid(s) && s.flights != [] && s.flights[0].priority == k.complete && k.complete < k.delta
    requires k.delta < |s.unit.elements|
    ensures CutAfter(s, Report(0, true), k.delta, g, cut) == cut
  {
  }

  /** A complete bundle that landed is replaced by a newer one: it will not be written again. */
  lemma ReplacedIsGone(v: Front, k: Types, g: Version, h: Version, late: bool)
    requires k.full != k.complete && v.flight.Some? && v.flight.value.0 == k.complete && FreshFront(v, k)
    requires v.complete.processed == g && !h.NewerThan(v.full.processed)
    ensures Waiting(ReportFront(v, k, true), k, g, h, late)
  {
  }

  lemma FullReported(v: Front, k: Types, h: Version)
    requires k.full != k.complete && v.flight.Some? && v.flight.value.0 == k.full && FreshFront(v, k)
    requires !h.NewerThan(v.full.processed)
    ensures ReportFront(v, k, true).full.processed.NewerThan(h)
    ensures ReportFront(v, k, true).complete == v.complete
  {
  }

  /** After it landed. */
  lemma LandedAtReport(s: State, k: Types, g: Version, h: Version, cut: Cut, n: nat)
    requires Valid(s) && Sound(s, k, g, h, cut) && Early(s, k, g, h, cut, n) && s.flights != []
    requires s.unit.elements[k.complete].lastProcessed == g
    ensures Early(Next(s, Report(0, true)), k, g, h, CutAfter(s, Report(0, true), k.delta, g, cut), n)
  {
    hide InFlight, InOrder, Next, FullFirst, Wired, Flat, EarlyPacks, WritesOf, PacksOn, CutAfter, Waiting, FreshFront;
    WiredTypes(s.unit, k);
    FrontIsFresh(s, k);
    var q, v := s.flights[0], FrontOf(s, k);
    ReportShape(s, true);
    ReportFrontSeen(s, k, true);
    EarlyPacksSnoc(s.written, q, k);
    if q.priority == k.complete {
      ReplacedIsGone(v, k, g, h, Left(CutAfter(s, Report(0, true), k.delta, g, cut)) > n);
      ReportedIsNewer(v, k);
    } else {
      PacksStay(s, k, g, cut, true, |EarlyPacks(s.written, k)|);
      if q.priority == k.full {
        FullReported(v, k, h);
      }
    }
  }

  lemma ReportedIsNewer(v: Front, k: Types)
    requires k.full != k.complete && v.flight.Some? && v.flight.value.0 == k.complete && FreshFront(v, k)
    ensures ReportFront(v, k, true).complete.processed.NewerThan(v.complete.processed)
  {
  }

  lemma FailureKeepsEarly(s: State, k: Types, g: Version, h: Version, cut: Cut, n: nat)
    requires Valid(s) && Sound(s, k, g, h, cut) && Early(s, k, g, h, cut, n) && s.flights != []
    ensures Early(Next(s, Report(0, false)), k, g, h, CutAfter(s, Report(0, false), k.delta, g, cut), n)
  {
    hide InFlight, InOrder, Next, FullFirst, Wired, Flat, EarlyPacks, WritesOf, PacksOn, CutAfter, Waiting, FreshFront;
    WiredTypes(s.unit, k);
    FrontIsFresh(s, k);
    ReportShape(s, false);
    ReportFrontSeen(s, k, false);
    LeftAfterReport(s, k, g, cut, false);
    if s.unit.elements[k.complete].lastProcessed == g {
      PacksStay(s, k, g, cut, false, |EarlyPacks(s.written, k)|);
    } else {
      WaitingAtReport(FrontOf(s, k), k, false, g, h, Left(cut) > n);
      WaitingEither(ReportFront(FrontOf(s, k), k, false), k, g, h, Left(cut) > n,
                    Left(CutAfter(s, Report(0, false), k.delta, g, cut)) > n);
      WaitingIsUnwritten(ReportFront(FrontOf(s, k), k, false), k, g, h, Left(cut) > n);
    }
  }

  lemma WaitingIsUnwritten(v: Front, k: Types, g: Version, h: Version, late: bool)
    requires Waiting(v, k, g, h, late)
    ensures v.complete.processed != g
  {
  }

  lemma SuccessKeepsEarly(s: State, k: Types, g: Version, h: Version, cut: Cut, n: nat)
    requires Valid(s) && Sound(s, k, g, h, cut) && Early(s, k, g, h, cut, n) && s.flights != []
    ensures Early(Next(s, Report(0, true)), k, g, h, CutAfter(s, Report(0, true), k.delta, g, cut), n)
  {
    hide InFlight, InOrder, Next, FullFirst, Flat, EarlyPacks, WritesOf, PacksOn, CutAfter, Waiting, FreshFront, Flies;
    if s.unit.elements[k.complete].lastProcessed == g {
      LandedAtReport(s, k, g, h, cut, n);
    } else if Flies(FrontOf(s, k), k, g) {
      LandingIsEarly(s, k, g, h, cut, n);
    } else {
      WiredTypes(s.unit, k);
      FrontIsFresh(s, k);
      ReportFrontSeen(s, k, true);
      LeftAfterReport(s, k, g, cut, true);
      WaitingAtReport(FrontOf(s, k), k, true, g, h, Left(cut) > n);
      WaitingEither(ReportFront(FrontOf(s, k), k, true), k, g, h, Left(cut) > n,
                    Left(CutAfter(s, Report(0, true), k.delta, g, cut)) > n);
      WaitingIsUnwritten(ReportFront(FrontOf(s, k), k, true), k, g, h, Left(cut) > n);
    }
  }

  // ---------------------------------------------------------------- every run

  ghost predicate DependsOn(b: Bundle, g: Version, h: Version) {
    b.Version() == g ==> b.Dependency() == Some(h)
  }

  /** What every run keeps of a unit. */
  ghost predicate Steady(s: State, k: Types, g: Version, h: Version, cut: Cut, offered: seq<Delta>) {
    && Followed(s, k.delta, g, cut, offered) && NoWorkLeft(s) && InOrder(s)
    && Wired(s.unit, k) && Processed(s, k.full) && Processed(s, k.complete)
    && Brought(s, k.complete, b => DependsOn(b, g, h))
  }

  lemma StepKeepsProcessed(s: State, step: Step, i: nat)
    requires Safe(s) && InOrder(s) && Enabled(s, step) && Processed(s, i) && s.unit.elements[i].info.CompleteInfo?
    ensures Processed(Next(s, step), i)
  {
    hide InFlight, InOrder, LastOf;
    if step.Report? && step.success {
      assert s.flights == [s.flights[0]] && step == Report(0, true);
      WriteKeepsProcessed(s, s.flights[0], i);
    } else {
      NothingWritten(s, step, i);
    }
  }

  lemma StepKeepsSteady(s: State, step: Step, k: Types, g: Version, h: Version, cut: Cut, offered: seq<Delta>)
    requires Steady(s, k, g, h, cut, offered) && Enabled(s, step)
    requires Ordered(offered + ConflationLine.Offered(step, k.delta), g)
    requires step.Report? && s.flights[step.flight].priority == k.delta && !step.success ==>
      s.unit.elements[k.delta].info.bundle.None?
    requires step.Arrive? && step.priority == k.complete ==> DependsOn(step.bundle, g, h)
    ensures Steady(Next(s, step), k, g, h, CutAfter(s, step, k.delta, g, cut),
                   offered + ConflationLine.Offered(step, k.delta))
  {
    hide InFlight, InOrder, NoWorkLeft, Next, Wired, Followed, Processed, Brought, Ordered, CutAfter, DependsOn;
    FollowedIsValid(s, k.delta, g, cut, offered);
    WiredTypes(s.unit, k);
    StepIsSafe(s, step);
    StepIsInOrder(s, step);
    StaysWired(s, step, k);
    StepKeepsProcessed(s, step, k.full);
    StepKeepsProcessed(s, step, k.complete);
    StepBrings(s, step, k.complete, b => DependsOn(b, g, h));
    StepIsFollowed(s, step, k.delta, g, cut, offered);
  }

  lemma CutCountsPacks(v: View, g: Version, cut: Cut)
    requires LineConserved(v, g, cut)
    ensures |cut.packs| == |PacksOn(v.writes, g)| && Left(cut) <= |OnBase(v.arrivals, g)|
  {
    hide BasesGrow, OnBase, PackIs, IsLast, Flat, Pack, Deltas;
  }

  lemma SteadyIsSound(s: State, k: Types, g: Version, h: Version, cut: Cut, offered: seq<Delta>)
    requires Steady(s, k, g, h, cut, offered) && g != NO_VERSION
    ensures Safe(s) && Sound(s, k, g, h, cut) && k.delta < |s.unit.elements|
    ensures Left(cut) <= |DeltasOnBase(offered, g)|
  {
    hide InFlight, InOrder, NoWorkLeft, Wired, Processed, LineConserved, UpTo, OnBase, DeltasOnBase, Flat, LastOf;
    CutCountsPacks(ViewOf(s, k.delta), g, cut);
    ViewWrites(s, k.delta);
    OnBaseDeltas(ViewOf(s, k.delta).arrivals, g);
    WiredTypes(s.unit, k);
    if s.flights != [] {
      assert s.flights[0] in s.flights;
    }
  }

  lemma StepKeepsEarly(s: State, step: Step, k: Types, g: Version, h: Version, cut: Cut, n: nat)
    requires Valid(s) && Sound(s, k, g, h, cut) && Early(s, k, g, h, cut, n) && Enabled(s, step)
    ensures Early(Next(s, step), k, g, h, CutAfter(s, step, k.delta, g, cut), n)
  {
    hide InFlight, InOrder, Wired, Processed, BasedOn, Early, Next, CutAfter;
    match step
    case Arrive(j, b, partition, offset) => ArriveKeepsEarly(s, k, g, h, cut, n, j, b, partition, offset);
    case GetNext => GetNextKeepsEarly(s, k, g, h, cut, n);
    case Report(q, success) =>
      assert q == 0;
      if success {
        SuccessKeepsEarly(s, k, g, h, cut, n);
      } else {
        FailureKeepsEarly(s, k, g, h, cut, n);
      }
  }

  lemma {:induction false} RunKeepsEarly(s: State, steps: seq<Step>, k: Types, g: Version, h: Version, cut: Cut,
                                         offered: seq<Delta>, n: nat)
    requires Steady(s, k, g, h, cut, offered) && RunEnabled(s, steps) && QuietFailures(s, steps, k.delta)
    requires Arriving(steps, k.complete, b => DependsOn(b, g, h)) && Ordered(offered + Offers(steps, k.delta), g)
    requires g != NO_VERSION && Early(s, k, g, h, cut, n)
    ensures var cut', offered' := RunCut(s, steps, k.delta, g, cut), offered + Offers(steps, k.delta);
            Steady(Run(s, steps), k, g, h, cut', offered') && Early(Run(s, steps), k, g, h, cut', n)
    decreases |steps|
  {
    hide Steady, Early, Sound, Ordered, Next, Offers, ConflationLine.Offered, CutAfter, DependsOn, Valid;
    SteadyIsSound(s, k, g, h, cut, offered);
    if steps == [] {
      NoOffers(k.delta);
      assert offered + [] == offered;
    } else {
      var now, after := offered + ConflationLine.Offered(steps[0], k.delta), CutAfter(s, steps[0], k.delta, g, cut);
      OffersFirst(steps, k.delta, offered);
      OrderedPrefix(now, Offers(steps[1..], k.delta), g);
      StepKeepsSteady(s, steps[0], k, g, h, cut, offered);
      StepKeepsEarly(s, steps[0], k, g, h, cut, n);
      assert forall l :: 0 <= l < |steps[1..]| ==> steps[1..][l] == steps[l + 1];
      RunKeepsEarly(Next(s, steps[0]), steps[1..], k, g, h, after, now, n);
    }
  }

  // ---------------------------------------------------------------- the complete bundle arrives

  predicate IsOther(b: Bundle, g: Version) {
    b.Version() != g
  }

  /** A bundle of this version arrives for the element. */
  predicate Brings(step: Step, i: nat, v: Version) {
    step.Arrive? && step.priority == i && step.bundle.Version() == v
  }

  /** Step `m` brings the complete bundle `g` for the first time, after its base `h`. */
  ghost predicate ArrivesAt(steps: seq<Step>, k: Types, g: Version, h: Version, m: nat) {
    && m < |steps| && Brings(steps[m], k.complete, g)
    && (forall l :: 0 <= l < m ==> !Brings(steps[l], k.complete, g))
    && exists l :: 0 <= l < m && Brings(steps[l], k.full, h)
  }

  /** The base is known, or will be before step `m`. */
  ghost predicate BaseComes(s: State, steps: seq<Step>, k: Types, g: Version, h: Version, m: nat)
    requires Valid(s) && Wired(s.unit, k)
  {
    && m < |steps| && Brings(steps[m], k.complete, g)
    && (forall l :: 0 <= l < m ==> !Brings(steps[l], k.complete, g))
    && (!h.NewerThan(SideOf(s, k.full).Newest()) || exists l :: 0 <= l < m && Brings(steps[l], k.full, h))
  }

  lemma OfferedGrows(d: Side, b: Bundle, h: Version)
    requires d.pending.Some? ==> d.pending.value.Version().NewerThan(d.processed)
    ensures !h.NewerThan(d.Newest()) || b.Version() == h ==> !h.NewerThan(WithOffer(d, b).Newest())
  {
  }

  lemma SettledGrows(d: Side, b: Bundle, h: Version)
    requires FreshSide(d, 0, Some((0, b)))
    ensures !h.NewerThan(d.Newest()) ==> !h.NewerThan(Settled(d, b).Newest())
  {
  }

  lemma StepKeepsBase(s: State, step: Step, k: Types, h: Version)
    requires Safe(s) && InOrder(s) && Wired(s.unit, k) && Enabled(s, step)
    ensures Wired(Next(s, step).unit, k)
    ensures !h.NewerThan(SideOf(s, k.full).Newest()) || Brings(step, k.full, h) ==>
      !h.NewerThan(SideOf(Next(s, step), k.full).Newest())
  {
    hide InFlight, InOrder, Wired, Next, NextReady, Takes;
    WiredTypes(s.unit, k);
    StaysWired(s, step, k);
    match step
    case Arrive(j, b, partition, offset) =>
      ArriveSide(s, j, b, partition, offset, k.full);
      FrontIsFresh(s, k);
      OfferedGrows(SideOf(s, k.full), b, h);
    case GetNext =>
      GetNextFrontSeen(s, k);
      TakesKeepFull(s, k);
    case Report(q, success) =>
      assert q == 0;
      ReportSide(s, success, k.full);
      if success && s.flights[0].priority == k.full {
        FrontIsFresh(s, k);
        SettledGrows(SideOf(s, k.full), s.flights[0].bundle, h);
      }
  }

  lemma TakesKeepFull(s: State, k: Types)
    requires Safe(s) && s.tickets > 0 && Wired(s.unit, k) && Wired(Next(s, GetNext).unit, k)
    requires NextReady(s.unit, 0).Some? ==>
             Takes(FrontOf(s, k), k, NextReady(s.unit, 0).value, FrontOf(Next(s, GetNext), k))
    ensures SideOf(Next(s, GetNext), k.full) == SideOf(s, k.full)
  {
    hide InFlight, Wired;
  }

  /** The step that brings the complete bundle. */
  lemma ArrivalIsEarly(s: State, step: Step, k: Types, g: Version, h: Version, cut: Cut, offered: seq<Delta>)
    requires Steady(s, k, g, h, cut, offered) && Enabled(s, step) && Brings(step, k.complete, g) && g != NO_VERSION
    requires Brought(s, k.complete, b => IsOther(b, g)) && !h.NewerThan(SideOf(s, k.full).Newest())
    ensures CutAfter(s, step, k.delta, g, cut) == cut
    ensures Early(Next(s, step), k, g, h, cut, |DeltasOnBase(offered, g)|)
  {
    hide InFlight, InOrder, Next, Wired, Waiting, FreshFront, Followed, DeltasOnBase, LastOf, EarlyWithin;
    SteadyIsSound(s, k, g, h, cut, offered);
    WiredTypes(s.unit, k);
    FrontIsFresh(s, k);
    ArriveFrontSeen(s, k, step.priority, step.bundle, step.partition, step.offset);
    NotBroughtYet(s, k, g);
    WaitingBegins(FrontOf(s, k), k, step.bundle, g, h);
    WaitingEither(FrontOf(Next(s, step), k), k, g, h, false, Left(cut) > |DeltasOnBase(offered, g)|);
    WaitingIsUnwritten(FrontOf(Next(s, step), k), k, g, h, false);
  }

  lemma NotBroughtYet(s: State, k: Types, g: Version)
    requires Valid(s) && Wired(s.unit, k) && Processed(s, k.complete) && g != NO_VERSION
    requires Brought(s, k.complete, b => IsOther(b, g))
    ensures var v := FrontOf(s, k); !Pends(v, g) && !Flies(v, k, g) && v.complete.processed != g
  {
    hide LastOf;
    if s.flights != [] {
      assert s.flights[0] in s.flights;
    }
  }

  lemma {:induction false} RunIsEarly(s: State, steps: seq<Step>, k: Types, g: Version, h: Version, cut: Cut,
                                      offered: seq<Delta>, m: nat)
    requires Steady(s, k, g, h, cut, offered) && RunEnabled(s, steps) && QuietFailures(s, steps, k.delta)
    requires Arriving(steps, k.complete, b => DependsOn(b, g, h)) && Ordered(offered + Offers(steps, k.delta), g)
    requires g != NO_VERSION && BaseComes(s, steps, k, g, h, m) && Brought(s, k.complete, b => IsOther(b, g))
    ensures var cut', offered' := RunCut(s, steps, k.delta, g, cut), offered + Offers(steps, k.delta);
            && Steady(Run(s, steps), k, g, h, cut', offered')
            && Early(Run(s, steps), k, g, h, cut', |DeltasOnBase(offered + Offers(steps[..m], k.delta), g)|)
    decreases |steps|
  {
    hide Steady, Early, Sound, Ordered, Next, Offers, ConflationLine.Offered, CutAfter, DependsOn, Valid, Brought;
    hide InOrder;
    hide DeltasOnBase, Wired;
    SteadyIsSound(s, k, g, h, cut, offered);
    var step, rest := steps[0], steps[1..];
    var now, after := offered + ConflationLine.Offered(step, k.delta), CutAfter(s, step, k.delta, g, cut);
    OffersFirst(steps, k.delta, offered);
    OrderedPrefix(now, Offers(rest, k.delta), g);
    StepKeepsSteady(s, step, k, g, h, cut, offered);
    assert forall l :: 0 <= l < |rest| ==> rest[l] == steps[l + 1];
    if m == 0 {
      ArrivalIsEarly(s, step, k, g, h, cut, offered);
      NoOffers(k.delta);
      assert steps[..0] == [] && offered + [] == offered;
      RunKeepsEarly(Next(s, step), rest, k, g, h, after, now, |DeltasOnBase(offered, g)|);
    } else {
      SoundParts(s, k, g, h, cut);
      StepKeepsBase(s, step, k, h);
      StepBrings(s, step, k.complete, b => IsOther(b, g));
      assert steps[..m][1..] == rest[..m - 1] && steps[..m][0] == step;
      OffersFirst(steps[..m], k.delta, offered);
      RunIsEarly(Next(s, step), rest, k, g, h, after, now, m - 1);
    }
  }

  lemma SoundParts(s: State, k: Types, g: Version, h: Version, cut: Cut)
    requires Valid(s) && Sound(s, k, g, h, cut)
    ensures Safe(s) && InOrder(s) && Wired(s.unit, k) && k.complete < |s.unit.elements|
    ensures s.unit.elements[k.complete].info.CompleteInfo?
  {
    hide InFlight, InOrder;
  }

  // ---------------------------------------------------------------- the table

  lemma {:induction false} FlatConcat(a: seq<seq<Arrival>>, b: seq<seq<Arrival>>)
    ensures Flat(a + b) == Flat(a) + Flat(b)
    decreases |b|
  {
    if b == [] {
      assert a + b == a;
    } else {
      var front, last := b[..|b| - 1], b[|b| - 1];
      assert (a + b)[..|a + b| - 1] == a + front;
      FlatConcat(a, front);
      assert Flat(a) + Flat(front) + last == Flat(a) + (Flat(front) + last);
    }
  }

  lemma DeltasFrom(arrivals: seq<Arrival>, j: nat)
    requires AllDeltas(arrivals) && j <= |arrivals|
    ensures AllDeltas(arrivals[j..]) && Deltas(arrivals[j..]) == Deltas(arrivals)[j..]
  {
  }

  /** Without its first pieces, what was written and is held leaves the table of the remaining deltas. */
  lemma TrailingPieces(outcome: seq<Bundle>, pieces: seq<seq<Arrival>>, arrivals: seq<Arrival>, e: nat, table: Table)
    requires |outcome| == |pieces| && e <= |pieces| && AllDeltas(arrivals) && Flat(pieces) == arrivals
    requires OneBase(Deltas(arrivals))
    requires forall q :: 0 <= q < |pieces| ==> pieces[q] != [] && AllDeltas(pieces[q])
    requires forall q :: 0 <= q < |pieces| ==> outcome[q] == DeltaBundle(Pack(Deltas(pieces[q])))
    ensures |Flat(pieces[..e])| <= |arrivals|
    ensures WriteAll(table, DeltasOf(outcome[e..])) == WriteAll(table, Deltas(arrivals)[|Flat(pieces[..e])|..])
  {
    hide Flat, Pack, WriteAll, Deltas;
    assert pieces == pieces[..e] + pieces[e..];
    FlatConcat(pieces[..e], pieces[e..]);
    var j := |Flat(pieces[..e])|;
    assert arrivals[j..] == Flat(pieces[e..]);
    DeltasFrom(arrivals, j);
    assert OneBase(Deltas(arrivals)[j..]);
    SameTableByPieces(outcome[e..], pieces[e..], arrivals[j..], table);
  }

  /** The packs since the last complete bundle and what is held, seen as pieces. */
  lemma LaterPieces(v: View, g: Version, cut: Cut, early: seq<Bundle>, line: seq<Bundle>, table: Table)
    requires LineConserved(v, g, cut) && PacksOn(v.writes, g) == early + line
    requires AllDeltaBundles(line)
    ensures |early| <= |cut.packs| && AllDeltas(v.arrivals)
    ensures var j := |Flat(cut.packs[..|early|])|;
            && j <= |DeltasOnBase(Deltas(v.arrivals), g)|
            && WriteAll(table, DeltasOf(line + Unwritten(v, g))) ==
                 WriteAll(table, DeltasOnBase(Deltas(v.arrivals), g)[j..])
  {
    hide Pack, Deltas, Flat, WriteAll, DeltasOf, WellCut, PackIs, IsLast, OnBase, PacksOn, Unwritten, DeltasOnBase;
    var arrivals, e := OnBase(v.arrivals, g), |early|;
    CutCountsPacks(v, g, cut);
    UnwrittenIs(v, g, cut);
    PiecesOfCut(cut, arrivals, PacksOn(v.writes, g), Unwritten(v, g));
    OneBaseOfArrivals(arrivals, g);
    OnBaseDeltas(v.arrivals, g);
    assert Pieces(cut)[..e] == cut.packs[..e];
    TrailingPieces(PacksOn(v.writes, g) + Unwritten(v, g), Pieces(cut), arrivals, e, table);
    assert (early + line + Unwritten(v, g))[e..] == line + Unwritten(v, g);
    SameLength(arrivals);
  }

  lemma SameLength(arrivals: seq<Arrival>)
    requires AllDeltas(arrivals)
    ensures |Deltas(arrivals)| == |arrivals|
  {
  }

  /** The complete bundle written last has landed. */
  lemma LastHasLanded(s: State, k: Types, g: Version, h: Version, cut: Cut, n: nat, y: Bundle, z: Bundle)
    requires Valid(s) && Early(s, k, g, h, cut, n) && Wired(s.unit, k) && Processed(s, k.full)
    requires Processed(s, k.complete)
    requires LastOf(s.written, k.full) == Some(y) && LastOf(s.written, k.complete) == Some(z)
    requires y.Version() == h && z.Version() == g
    ensures FullFirst(s.written, k) && EarlyWithin(s.written, k, cut.packs, n)
  {
    hide LastOf, FullFirst, EarlyWithin, Waiting;
  }

  lemma LastIsNewer(written: seq<Flight>, k: Types, z: Bundle)
    requires OnLast(written, k) && LastOf(written, k.complete) == Some(z)
    ensures z.Version() != NO_VERSION
  {
  }

  lemma StartIsSteady(s: State, k: Types, g: Version, h: Version)
    requires Initial(s) && Wired(s.unit, k)
    ensures Steady(s, k, g, h, Cut([], [], []), []) && Brought(s, k.complete, b => IsOther(b, g))
  {
    hide Followed;
    WiredTypes(s.unit, k);
    StartIsFollowed(s, k.delta, g);
    InitialIsSafe(s);
  }

  /**
   In every interleaving, with or without initial checks, over any table: if the last complete bundle
   that was written arrived after its base and that is the last full bundle that was written, the
   table lacks what the unit still holds on it and at most some of the first deltas on it, which
   arrived before it.
   */
  lemma TableInOrder(s: State, steps: seq<Step>, t: Table, k: Types, x: Contents, y: Bundle, z: Bundle, m: nat)
    returns (j: nat)
    requires Initial(s) && Wired(s.unit, k) && RunEnabled(s, steps) && QuietFailures(s, steps, k.delta)
    requires var r := Run(s, steps);
             LastOf(r.written, k.full) == Some(y) && LastOf(r.written, k.complete) == Some(z)
    requires ArrivesAt(steps, k, z.Version(), y.Version(), m)
    requires Arriving(steps, k.complete, b => DependsOn(b, z.Version(), y.Version()))
    requires Ordered(Offers(steps, k.delta), z.Version())
    ensures var r, g := Run(s, steps), z.Version();
            && j <= |DeltasOnBase(Offers(steps[..m], k.delta), g)| && j <= |DeltasOnBase(Offers(steps, k.delta), g)|
            && Safe(r) && k.delta < |r.unit.elements| && r.unit.elements[k.delta].info.DeltaInfo?
            && WriteAll(TableOf(r.written, t, k, x), DeltasOf(Unwritten(ViewOf(r, k.delta), g))) ==
               WriteAll(Implied(x.full(y.Version()), x.listed(g)), DeltasOnBase(Offers(steps, k.delta), g)[j..])
  {
    hide Initial, InFlight, NoWorkLeft, InOrder, Run, RunEnabled, QuietFailures, Wired, ViewOf, TableOf, LastOf;
    hide WritesOf;
    hide UpTo, Ordered, Offers, LineConserved, WriteAll, Implied, DeltasOf, DeltasOnBase, Deltas, PacksOn, Unwritten;
    hide AllDeltas, AllDeltaBundles, OnLast, Processed, FullFirst, EarlyPacks, LinePacks, RunCut, Brought, Early, Flat;
    var g, h, i := z.Version(), y.Version(), k.delta;
    StartIsTabled(s, t, k, x);
    WiredTypes(s.unit, k);
    EveryRunIsTabled(s, steps, t, k, x);
    var cut, r := RunCut(s, steps, i, g, Cut([], [], [])), Run(s, steps);
    LastIsNewer(r.written, k, z);
    StartIsSteady(s, k, g, h);
    assert [] + Offers(steps, i) == Offers(steps, i) && [] + Offers(steps[..m], i) == Offers(steps[..m], i);
    RunIsEarly(s, steps, k, g, h, Cut([], [], []), [], m);
    LastHasLanded(r, k, g, h, cut, |DeltasOnBase(Offers(steps[..m], i), g)|, y, z);
    var base, line := BaseTable(r.written, t, k, x), LinePacks(r.written, k);
    LinePacksAreDeltas(r.written, k);
    WriteAllMore(base, line, Unwritten(ViewOf(r, i), g));
    ViewWrites(r, i);
    EarlyThenLine(r.written, k, z);
    LaterPieces(ViewOf(r, i), g, cut, EarlyPacks(r.written, k), line, base);
    j := |Flat(cut.packs[..|EarlyPacks(r.written, k)|])|;
  }
}
