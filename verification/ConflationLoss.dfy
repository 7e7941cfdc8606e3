/** A concrete run in which a failed delta pack is lost because a delta arrived while it was being processed. */
module ConflationLoss {
  import opened Compliance
  import opened Conflation
  import opened ConflationDeltas
  import opened ConflationRuns
  import opened DeltaMerge
  import opened Options
  import opened Versions

  const V1 := Version(1, 1)
  const V2 := Version(1, 2)
  const BASE := Version(1, 7)
  const FIRST := Delta(V1, BASE, map[("policy", "cluster1") := NonCompliant])
  const SECOND := Delta(V2, BASE, map[("policy", "cluster2") := NonCompliant])

  /** A complete-state element and the delta element that depends on it, without initial checks. */
  function TwoElements(info: Info, inProcess: bool, store: Store, queued: bool): Unit {
    Unit([Element(CompleteInfo(None, None), None, false, NO_VERSION),
          Element(info, Some(Dependency(0, true)), inProcess, NO_VERSION)], store, false, queued)
  }

  const LOSING_RUN: seq<Step> :=
    [Arrive(1, DeltaBundle(FIRST), 0, 0), GetNext, Arrive(1, DeltaBundle(SECOND), 0, 1), Report(0, false)]

  const ARRIVED1 := [Arrival(1, DeltaBundle(FIRST), 0)]
  const ARRIVED2 := ARRIVED1 + [Arrival(1, DeltaBundle(SECOND), 1)]

  const ONE := Store([Metadata(1, V1, 0)], [Transport(0, 0, false)])
  const TWO := Store([Metadata(1, V1, 0), Metadata(1, V2, 1)], [Transport(0, 0, false), Transport(0, 1, false)])

  const EMPTY := State(
    TwoElements(DeltaInfo(None, None, None, None, None, None), false, Store([], []), false), 0, [], [], [])

  const PENDING := State(
    TwoElements(DeltaInfo(Some(DeltaBundle(FIRST)), Some(0), None, None, Some(0), Some(V1)), false, ONE, true),
    1, [], ARRIVED1, [])

  const FLYING := State(
    TwoElements(DeltaInfo(None, Some(0), Some(DeltaBundle(FIRST)), Some(0), Some(0), Some(V1)), true, ONE, false),
    0, [Flight(1, 0, DeltaBundle(FIRST))], ARRIVED1, [])

  /** The second delta starts a new pack while the first one is being processed. */
  const JOINED := State(
    TwoElements(DeltaInfo(Some(DeltaBundle(SECOND)), Some(1), Some(DeltaBundle(FIRST)), Some(0), Some(1), Some(V2)),
                true, TWO, false),
    0, [Flight(1, 0, DeltaBundle(FIRST))], ARRIVED2, [])

  const FAILED := State(
    TwoElements(DeltaInfo(Some(DeltaBundle(SECOND)), Some(1), None, None, Some(1), Some(V2)), false, TWO, true),
    1, [], ARRIVED2, [])

  /** The delta element is ready whatever its base: no complete state was processed yet. */
  lemma DeltaIsReady(info: Info, store: Store, queued: bool)
    requires var u := TwoElements(info, false, store, queued);
             u.Valid() && info.DeltaInfo? && info.bundle.Some?
    ensures var u := TwoElements(info, false, store, queued);
            !AnyInProcess(u) && AnyReady(u) && NextReady(u, 0) == Some(1)
  {
    var u := TwoElements(info, false, store, queued);
    assert !ChainInProcess(u, 0) && !ChainInProcess(u, 1);
    assert Ready(u, 1) && !Ready(u, 0);
    assert NextReady(u, 1) == Some(1);
  }

  lemma FirstIsStored()
    ensures Valid(EMPTY) && Accepts(EMPTY.unit, 1, DeltaBundle(FIRST))
    ensures Stored(EMPTY.unit, 1, DeltaBundle(FIRST), 0, 0) == PENDING.unit.(isInReadyQueue := false)
  {
  }

  lemma FirstArrives()
    ensures Valid(EMPTY) && Next(EMPTY, LOSING_RUN[0]) == PENDING
  {
    hide Stored, Accepts, Ready, NextReady;
    FirstIsStored();
    DeltaIsReady(PENDING.unit.elements[1].info, ONE, false);
  }

  lemma FirstIsDispatched()
    ensures Valid(PENDING) && Next(PENDING, GetNext) == FLYING
  {
    DeltaIsReady(PENDING.unit.elements[1].info, ONE, true);
    assert Dispatch(PENDING.unit, 1) == FLYING.unit;
  }

  lemma SecondArrives()
    ensures Valid(FLYING) && Next(FLYING, LOSING_RUN[2]) == JOINED
  {
    var u := Stored(FLYING.unit, 1, DeltaBundle(SECOND), 0, 1);
    assert u == JOINED.unit;
    assert u.elements[1].inProcess;
  }

  /** The failed pack is older than the head of the line, so it is dropped. */
  lemma FirstFails()
    ensures Valid(JOINED) && Next(JOINED, Report(0, false)) == FAILED
  {
    var u := Reported(JOINED.unit, 0, false);
    assert u == FAILED.unit.(isInReadyQueue := false);
    DeltaIsReady(FAILED.unit.elements[1].info, TWO, false);
    assert Without(JOINED.flights, 0) == [];
  }

  /** Both deltas are accepted and none is written, yet the first one's row is pending nowhere. */
  lemma AnArrivalDuringAFailureLosesThePack()
    ensures Initial(EMPTY) && Leads(EMPTY, LOSING_RUN, FAILED)
    ensures FAILED.accepted == [Arrival(1, DeltaBundle(FIRST), 0), Arrival(1, DeltaBundle(SECOND), 1)]
    ensures FAILED.flights == [] && FAILED.written == []
    ensures ("policy", "cluster1") in FIRST.effect
    ensures forall e :: e in FAILED.unit.elements ==> ("policy", "cluster1") !in PendingEffect(e.info)
  {
    hide Next, Leads;
    FirstArrives();
    FirstIsDispatched();
    SecondArrives();
    FirstFails();
    var run := LOSING_RUN;
    assert Leads(FAILED, [], FAILED) by {
      LeadsNowhere();
    }
    LeadsBy(JOINED, run[3], [], FAILED);
    LeadsBy(FLYING, run[2], [run[3]] + [], FAILED);
    LeadsBy(PENDING, run[1], [run[2]] + ([run[3]] + []), FAILED);
    LeadsBy(EMPTY, run[0], [run[1]] + ([run[2]] + ([run[3]] + [])), FAILED);
    assert run == [run[0]] + ([run[1]] + ([run[2]] + ([run[3]] + [])));
    assert "cluster1" != "cluster2";
  }

  lemma LeadsNowhere()
    ensures Leads(FAILED, [], FAILED)
  {
  }
}
