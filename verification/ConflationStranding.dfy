/**
 A concrete run that strands a unit: three bundle types in a chain, as policies register them
 (clusters per policy, complete compliance, delta compliance), every dependant naming the
 newest version of its base that was offered.
 */
module ConflationStranding {
  import opened Conflation
  import opened ConflationProgress
  import opened ConflationRuns
  import opened DeltaMerge
  import opened Options
  import opened Versions

  const V1 := Version(1, 1)
  const V2 := Version(1, 2)

  function FullState(v: Version): Bundle { StateBundle(v, None) }
  function CompleteState(v: Version, base: Version): Bundle { StateBundle(v, Some(base)) }
  function DeltaState(v: Version, base: Version): Bundle { DeltaBundle(Delta(v, base, map[])) }

  const CHAIN := State(
    Unit([Element(CompleteInfo(None, None), None, false, NO_VERSION),
          Element(CompleteInfo(None, None), Some(Dependency(0, true)), false, NO_VERSION),
          Element(DeltaInfo(None, None, None, None, None, None), Some(Dependency(1, true)), false, NO_VERSION)],
         Store([], []), false, false),
    0, [], [], [])

  /**
   Full and complete state v1 are processed and a delta on them waits. Full state v2 overtakes
   complete state v2, which then waits for a base that is gone; the next delta, on complete
   state v2, replaces the only bundle that was ready.
   */
  const STRANDING_RUN: seq<Step> :=
    [Arrive(0, FullState(V1), 0, 0), GetNext, Report(0, true),
     Arrive(1, CompleteState(V1, V1), 0, 1), GetNext, Report(0, true),
     Arrive(2, DeltaState(V1, V1), 0, 2), Arrive(1, CompleteState(V2, V1), 0, 3), Arrive(0, FullState(V2), 0, 4),
     GetNext, Report(0, true),
     Arrive(2, DeltaState(V2, V2), 0, 5), GetNext]

  /** What decides readiness: per element the pending version with its base, and the processed version. */
  datatype Slot = Slot(pending: Option<(Version, Option<Version>)>, processed: Version)

  function SlotOf(e: Element): Slot {
    Slot(if e.info.bundle.Some? then Some((e.info.bundle.value.Version(), e.info.bundle.value.Dependency())) else None,
         e.lastProcessed)
  }

  ghost predicate Shape(s: State, a: Slot, b: Slot, c: Slot) {
    && Healthy(s)
    && |s.unit.elements| == 3 && !s.unit.requireInitialChecks
    && (var e := s.unit.elements;
        && e[0].dependency == None && e[1].dependency == Some(Dependency(0, true))
        && e[2].dependency == Some(Dependency(1, true))
        && e[0].info.CompleteInfo? && e[1].info.CompleteInfo? && e[2].info.DeltaInfo?
        && SlotOf(e[0]) == a && SlotOf(e[1]) == b && SlotOf(e[2]) == c)
  }

  /** A pending bundle names the processed base, or no base was processed yet. */
  predicate BaseReady(slot: Slot, base: Version) {
    slot.pending.Some? && slot.pending.value.1.Some? && (base == NO_VERSION || slot.pending.value.1.value == base)
  }

  predicate SlotReady(slots: (Slot, Slot, Slot), i: nat) {
    if i == 0 then slots.0.pending.Some?
    else if i == 1 then BaseReady(slots.1, slots.0.processed)
    else i == 2 && BaseReady(slots.2, slots.1.processed)
  }

  lemma ReadyBySlots(s: State, a: Slot, b: Slot, c: Slot)
    requires Shape(s, a, b, c) && s.flights == []
    ensures forall i :: 0 <= i < 3 ==> (Ready(s.unit, i) <==> SlotReady((a, b, c), i))
    ensures s.tickets == 1 <==> s.unit.isInReadyQueue
    ensures s.unit.isInReadyQueue <==> exists i :: 0 <= i < 3 && SlotReady((a, b, c), i)
  {
    assert !AnyInProcess(s.unit);
    IdleChain(s.unit, 0);
    IdleChain(s.unit, 1);
    IdleChain(s.unit, 2);
  }

  ghost predicate Healthy(s: State) {
    Safe(s) && NoWorkLeft(s) && InOrder(s) && Serviceable(s)
  }

  lemma ArriveKeepsHealthy(s: State, i: nat, x: Bundle, offset: int)
    requires Healthy(s) && i < |s.unit.elements|
    requires s.unit.isInReadyQueue ==> KeepsReady(s.unit, i, x)
    ensures Healthy(Next(s, Arrive(i, x, 0, offset)))
  {
    var step := Arrive(i, x, 0, offset);
    StepIsSafe(s, step);
    ArriveInOrder(s, i, x, 0, offset);
    StepKeepsServiceableIff(s, step);
    hide Next, KeepsReady, InFlight;
  }

  lemma ArriveShape(s: State, a: Slot, b: Slot, c: Slot, i: nat, x: Bundle, offset: int)
    requires Shape(s, a, b, c) && i < 3 && (i == 2 ==> x.DeltaBundle?) && s.flights == []
    requires var slot := SlotOf(s.unit.elements[i]);
             && x.Version().NewerThan(slot.processed)
             && (slot.pending.Some? ==> x.Version().NewerThan(slot.pending.value.0))
    requires s.unit.isInReadyQueue ==> KeepsReady(s.unit, i, x)
    ensures var r, y := Next(s, Arrive(i, x, 0, offset)), Some((x.Version(), x.Dependency()));
            && r.flights == []
            && Shape(r, if i == 0 then a.(pending := y) else a, if i == 1 then b.(pending := y) else b,
                     if i == 2 then c.(pending := y) else c)
  {
    hide InFlight, NoWorkLeft, InOrder, Serviceable, Stored, Ready, AnyReady, KeepsReady;
    ArriveKeepsHealthy(s, i, x, offset);
    StoredSlots(s.unit, i, x, 0, offset);
  }

  lemma StoredSlots(u: Unit, i: nat, x: Bundle, partition: int, offset: int)
    requires u.Valid() && i < |u.elements| && Accepts(u, i, x)
    ensures var r := Stored(u, i, x, partition, offset);
            && SlotOf(r.elements[i]) == SlotOf(u.elements[i]).(pending := Some((x.Version(), x.Dependency())))
            && forall j :: 0 <= j < |u.elements| && j != i ==> r.elements[j] == u.elements[j]
  {
  }

  lemma DispatchedSlots(u: Unit, i: nat)
    requires u.Valid() && i < |u.elements| && u.elements[i].info.CompleteInfo? && u.elements[i].info.bundle.Some?
    ensures var r := Dispatch(u, i);
            && SlotOf(r.elements[i]) == SlotOf(u.elements[i])
            && forall j :: 0 <= j < |u.elements| && j != i ==> r.elements[j] == u.elements[j]
  {
  }

  lemma ReportedSlots(u: Unit, f: Flight)
    requires u.Valid() && FlightValid(u, f) && u.elements[f.priority].info.CompleteInfo?
    requires u.store.metas[f.meta].version == f.bundle.Version()
    requires u.elements[f.priority].info.meta == Some(f.meta)
    requires f.bundle.Version().NewerThan(u.elements[f.priority].lastProcessed)
    ensures var r := Reported(u, f.meta, true);
            && SlotOf(r.elements[f.priority]) == Slot(None, f.bundle.Version())
            && forall j :: 0 <= j < |u.elements| && j != f.priority ==> r.elements[j] == u.elements[j]
  {
  }

  /** A dispatch of element `i`. */
  lemma DispatchShape(s: State, a: Slot, b: Slot, c: Slot, i: nat)
    requires Shape(s, a, b, c) && s.flights == []
    requires i < 2 && SlotReady((a, b, c), i) && forall j :: 0 <= j < i ==> !SlotReady((a, b, c), j)
    ensures s.tickets > 0 && Enabled(Next(s, GetNext), Report(0, true))
    ensures var d := Next(s, GetNext);
            && Shape(d, a, b, c) && |d.flights| == 1
            && d.flights[0].priority == i && d.unit.elements[i].info.meta == Some(d.flights[0].meta)
            && Some((d.flights[0].bundle.Version(), d.flights[0].bundle.Dependency())) ==
               SlotOf(s.unit.elements[i]).pending
  {
    ReadyBySlots(s, a, b, c);
    assert NextReady(s.unit, 0) == Some(i);
    StepIsSafe(s, GetNext);
    GetNextInOrder(s);
    StepKeepsServiceableIff(s, GetNext);
    DispatchedSlots(s.unit, i);
    hide Safe, NoWorkLeft, InOrder, Serviceable, Ready, SlotReady;
  }

  /** The success of the bundle of element `i`, the newest one. */
  lemma ReportShape(d: State, a: Slot, b: Slot, c: Slot, i: nat)
    requires Shape(d, a, b, c) && |d.flights| == 1 && i < 2
    requires d.flights[0].priority == i && d.unit.elements[i].info.meta == Some(d.flights[0].meta)
    ensures var r, v := Next(d, Report(0, true)), d.flights[0].bundle.Version();
            && r.flights == []
            && Shape(r, if i == 0 then Slot(None, v) else a, if i == 1 then Slot(None, v) else b, c)
  {
    var f := d.flights[0];
    assert f in d.flights && FlightHolds(d.unit, f) && Fresh(d, i);
    StepIsSafe(d, Report(0, true));
    ReportInOrder(d, 0, true);
    StepKeepsServiceableIff(d, Report(0, true));
    ReportedSlots(d.unit, f);
    hide Safe, NoWorkLeft, InOrder, Serviceable;
  }

  /** A dispatch of element `i` followed by success. */
  lemma ProcessShape(s: State, a: Slot, b: Slot, c: Slot, i: nat)
    requires Shape(s, a, b, c) && s.flights == []
    requires i < 2 && SlotReady((a, b, c), i) && forall j :: 0 <= j < i ==> !SlotReady((a, b, c), j)
    ensures s.tickets > 0 && Enabled(Next(s, GetNext), Report(0, true))
    ensures var r := Next(Next(s, GetNext), Report(0, true));
            && r.flights == []
            && Shape(r, if i == 0 then Slot(None, a.pending.value.0) else a,
                     if i == 1 then Slot(None, b.pending.value.0) else b, c)
  {
    DispatchShape(s, a, b, c, i);
    ReportShape(Next(s, GetNext), a, b, c, i);
    assert SlotOf(s.unit.elements[i]) == if i == 0 then a else b;
    hide Next, Safe, NoWorkLeft, InOrder, Serviceable;
  }

  ghost predicate StrandsFrom(s: State, k: nat)
    requires k <= |STRANDING_RUN|
  {
    && Valid(s) && RunEnabled(s, STRANDING_RUN[k..]) && WellNamedRun(s, STRANDING_RUN[k..])
    && Stranded(Run(s, STRANDING_RUN[k..]))
  }

  lemma Strands(s: State, k: nat)
    requires Valid(s) && k < |STRANDING_RUN| && Enabled(s, STRANDING_RUN[k])
    requires var step := STRANDING_RUN[k]; step.Arrive? ==> NamesNewestBase(s.unit, step.priority, step.bundle)
    requires if k + 1 == |STRANDING_RUN| then Stranded(Next(s, STRANDING_RUN[k]))
             else StrandsFrom(Next(s, STRANDING_RUN[k]), k + 1)
    ensures StrandsFrom(s, k)
  {
    assert STRANDING_RUN[k..][1..] == STRANDING_RUN[k + 1..];
    assert STRANDING_RUN[k..][0] == STRANDING_RUN[k];
  }

  const NONE := Slot(None, NO_VERSION)
  const DONE1 := Slot(None, V1)
  const DONE2 := Slot(None, V2)
  const DELTA1 := Slot(Some((V1, Some(V1))), NO_VERSION)
  const WAITING := Slot(Some((V2, Some(V1))), V1)

  /** Nothing in flight, and the slots are these. */
  ghost predicate At(s: State, slots: (Slot, Slot, Slot)) {
    Shape(s, slots.0, slots.1, slots.2) && s.flights == []
  }

  function SlotAt(slots: (Slot, Slot, Slot), i: nat): Slot {
    if i == 0 then slots.0 else if i == 1 then slots.1 else slots.2
  }

  function Put(slots: (Slot, Slot, Slot), i: nat, slot: Slot): (Slot, Slot, Slot) {
    if i == 0 then (slot, slots.1, slots.2) else if i == 1 then (slots.0, slot, slots.2) else (slots.0, slots.1, slot)
  }

  function NewestIn(slot: Slot): Version {
    if slot.pending.Some? then slot.pending.value.0 else slot.processed
  }

  /** Arrival `k` of the run, naming the newest base, which is also the one processed last. */
  lemma ArriveAt(s: State, slots: (Slot, Slot, Slot), k: nat) returns (r: State)
    requires k < |STRANDING_RUN| && STRANDING_RUN[k].Arrive? && At(s, slots)
    requires var i, x := STRANDING_RUN[k].priority, STRANDING_RUN[k].bundle;
             && i < 3 && (i == 2 ==> x.DeltaBundle?) && STRANDING_RUN[k].partition == 0
             && x.Version().NewerThan(NewestIn(SlotAt(slots, i))) && x.Version().NewerThan(SlotAt(slots, i).processed)
             && (i > 0 ==> x.Dependency() == Some(NewestIn(SlotAt(slots, i - 1))))
             && (i > 0 ==> x.Dependency() == Some(SlotAt(slots, i - 1).processed))
    ensures At(r, Put(slots, STRANDING_RUN[k].priority,
                      SlotAt(slots, STRANDING_RUN[k].priority).(pending :=
                        Some((STRANDING_RUN[k].bundle.Version(), STRANDING_RUN[k].bundle.Dependency())))))
    ensures StrandsFrom(r, k + 1) ==> StrandsFrom(s, k)
  {
    var i, x := STRANDING_RUN[k].priority, STRANDING_RUN[k].bundle;
    ReadyBySlots(s, slots.0, slots.1, slots.2);
    assert i > 0 ==> SlotOf(s.unit.elements[i - 1]) == SlotAt(slots, i - 1);
    assert KeepsReady(s.unit, i, x);
    ArriveShape(s, slots.0, slots.1, slots.2, i, x, STRANDING_RUN[k].offset);
    r := Next(s, STRANDING_RUN[k]);
    assert SlotOf(s.unit.elements[i]) == SlotAt(slots, i);
    if i > 0 {
      assert SlotOf(s.unit.elements[i - 1]) == SlotAt(slots, i - 1);
      assert NamesNewestBase(s.unit, i, x);
    }
    if StrandsFrom(r, k + 1) {
      Strands(s, k);
    }
  }

  lemma ShapeIsValid(s: State, a: Slot, b: Slot, c: Slot)
    requires Shape(s, a, b, c)
    ensures Valid(s)
  {
  }

  lemma SafeIsValid(s: State)
    requires Safe(s)
    ensures Valid(s)
  {
  }

  lemma StepWithoutArrival(s: State, k: nat)
    requires Valid(s) && k + 1 < |STRANDING_RUN| && !STRANDING_RUN[k].Arrive? && Enabled(s, STRANDING_RUN[k])
    requires StrandsFrom(Next(s, STRANDING_RUN[k]), k + 1)
    ensures StrandsFrom(s, k)
  {
    hide Next, StrandsFrom;
    Strands(s, k);
  }

  lemma ProcessAt(s: State, slots: (Slot, Slot, Slot), i: nat, k: nat) returns (r: State)
    requires k + 1 < |STRANDING_RUN| && STRANDING_RUN[k] == GetNext && STRANDING_RUN[k + 1] == Report(0, true)
    requires At(s, slots)
    requires i < 2 && SlotReady(slots, i) && forall j :: 0 <= j < i ==> !SlotReady(slots, j)
    ensures At(r, Put(slots, i, Slot(None, SlotAt(slots, i).pending.value.0)))
    ensures StrandsFrom(r, k + 2) ==> StrandsFrom(s, k)
  {
    hide Shape, Next, SlotReady, NamesNewestBase, StrandsFrom;
    ProcessShape(s, slots.0, slots.1, slots.2, i);
    ShapeIsValid(s, slots.0, slots.1, slots.2);
    r := Next(Next(s, GetNext), Report(0, true));
    if StrandsFrom(r, k + 2) {
      StepWithoutArrival(Next(s, GetNext), k + 1);
      StepWithoutArrival(s, k);
    }
  }

  /** The delta that was ready is replaced by one that is not. */
  lemma ReplacedLeavesNothing(s: State)
    requires At(s, (DONE2, WAITING, DELTA1))
    ensures Valid(s) && Enabled(s, STRANDING_RUN[11]) && NamesNewestBase(s.unit, 2, STRANDING_RUN[11].bundle)
    ensures var t := Next(s, STRANDING_RUN[11]);
            Safe(t) && t.tickets > 0 && !AnyReady(t.unit)
  {
    ReadyBySlots(s, DONE2, WAITING, DELTA1);
    assert SlotReady((DONE2, WAITING, DELTA1), 2);
    QueuedArrivalKeepsReadyIff(s, 2, DeltaState(V2, V2), 0, 5);
    StepIsSafe(s, STRANDING_RUN[11]);
    hide InOrder, NoWorkLeft, Settle, Stored;
  }

  lemma ReplacedDelta(s: State)
    requires At(s, (DONE2, WAITING, DELTA1))
    ensures StrandsFrom(s, 11)
  {
    hide At, Next, Safe, AnyReady, NamesNewestBase;
    ReplacedLeavesNothing(s);
    StrandedIff(Next(s, STRANDING_RUN[11]));
    SafeIsValid(Next(s, STRANDING_RUN[11]));
    Strands(Next(s, STRANDING_RUN[11]), 12);
    Strands(s, 11);
  }

  /** The run: every arrival names the newest base, yet the dispatcher finds the queued unit empty. */
  lemma NamingTheNewestBaseDoesNotSufficeForThreeLinks()
    ensures Initial(CHAIN) && RunEnabled(CHAIN, STRANDING_RUN) && WellNamedRun(CHAIN, STRANDING_RUN)
    ensures Stranded(Run(CHAIN, STRANDING_RUN))
  {
    InitialIsSafe(CHAIN);
    assert At(CHAIN, (NONE, NONE, NONE));
    StrandsFromTheStart(CHAIN);
    assert STRANDING_RUN[0..] == STRANDING_RUN;
  }

  lemma StrandsFromTheStart(s: State)
    requires At(s, (NONE, NONE, NONE))
    ensures StrandsFrom(s, 0)
  {
    hide At, StrandsFrom;
    var s1 := ArriveAt(s, (NONE, NONE, NONE), 0);
    var s3 := ProcessAt(s1, (Slot(Some((V1, None)), NO_VERSION), NONE, NONE), 0, 1);
    var s4 := ArriveAt(s3, (DONE1, NONE, NONE), 3);
    var s6 := ProcessAt(s4, (DONE1, Slot(Some((V1, Some(V1))), NO_VERSION), NONE), 1, 4);
    StrandsOnceProcessed(s6);
  }

  /** From when full and complete state v1 are processed. */
  lemma StrandsOnceProcessed(s: State)
    requires At(s, (DONE1, DONE1, NONE))
    ensures StrandsFrom(s, 6)
  {
    hide At, StrandsFrom;
    var s7 := ArriveAt(s, (DONE1, DONE1, NONE), 6);
    var s8 := ArriveAt(s7, (DONE1, DONE1, DELTA1), 7);
    var s9 := ArriveAt(s8, (DONE1, WAITING, DELTA1), 8);
    var s11 := ProcessAt(s9, (Slot(Some((V2, None)), V1), WAITING, DELTA1), 0, 9);
    ReplacedDelta(s11);
  }
}
