/**
 Concrete runs in which a round of commits passes what a restart would have to read again: a fragment
 that is still open, the first message of an assembled bundle, and a delta whose pack is in process.
 */
module RestartLoss {
  import opened Committer
  import Compliance
  import opened Conflation
  import opened ConflationRuns
  import opened DeltaMerge
  import opened Fragments
  import opened Options
  import opened RestartSafety
  import opened Versions
  import Assembly = MessageAssembly

  const HUB := "h"
  const KEY := "k"
  const V1 := Version(0, 1)
  const V2 := Version(0, 2)

  /** The two halves of a payload of two bytes, under one key, and a whole message. */
  const FIRST_HALF := Assembly.FragmentInfo(KEY, Fragment(2, 0, 1, [0]), Assembly.KafkaMessage(0, 5, []))
  const SECOND_HALF := Assembly.FragmentInfo(KEY, Fragment(2, 1, 1, [0]), Assembly.KafkaMessage(0, 6, []))
  const WHOLE := Assembly.KafkaMessage(0, 6, [])
  const BUNDLE := StateBundle(V1, None)

  // ---------------------------------------------------------------- one bundle in one unit

  function OneElement(info: Info, store: Store): Unit {
    Unit([Element(info, None, false, NO_VERSION)], store, false, false)
  }

  const NEW := State(OneElement(CompleteInfo(None, None), Store([], [])), 0, [], [], [])

  /** The bundle is pending, in process and written, with this offset. */
  function PendingAt(o: int): State {
    State(OneElement(CompleteInfo(Some(BUNDLE), Some(0)), Store([Metadata(0, V1, 0)], [Transport(0, o, false)]))
          .(isInReadyQueue := true), 1, [], [Arrival(0, BUNDLE, 0)], [])
  }

  function FlyingAt(o: int): State {
    var u := PendingAt(o).unit;
    PendingAt(o).(unit := u.(elements := [u.elements[0].(inProcess := true)], isInReadyQueue := false), tickets := 0,
                  flights := [Flight(0, 0, BUNDLE)])
  }

  function WrittenAt(o: int): State {
    State(Unit([Element(CompleteInfo(None, Some(0)), None, false, V1)],
               Store([Metadata(0, V1, 0)], [Transport(0, o, true)]), false, false),
          0, [], [Arrival(0, BUNDLE, 0)], [Flight(0, 0, BUNDLE)])
  }

  lemma BundleArrives(o: int)
    ensures ConflationRuns.Valid(NEW) && ConflationRuns.Next(NEW, Arrive(0, BUNDLE, 0, o)) == PendingAt(o)
    ensures Conflation.Accepts(NEW.unit, 0, BUNDLE)
  {
    var u := Stored(NEW.unit, 0, BUNDLE, 0, o);
    assert u == PendingAt(o).unit.(isInReadyQueue := false);
    assert !u.elements[0].inProcess && !AnyInProcess(u);
    assert Ready(u, 0) && AnyReady(u);
  }

  lemma BundleIsDispatched(o: int)
    ensures ConflationRuns.Valid(PendingAt(o)) && ConflationRuns.Next(PendingAt(o), GetNext) == FlyingAt(o)
  {
    var u := PendingAt(o).unit;
    assert !ChainInProcess(u, 0) && Ready(u, 0) && NextReady(u, 0) == Some(0);
    assert Dispatch(u, 0).elements == FlyingAt(o).unit.elements;
  }

  lemma BundleIsWritten(o: int)
    ensures ConflationRuns.Valid(FlyingAt(o)) && ConflationRuns.Next(FlyingAt(o), Report(0, true)) == WrittenAt(o)
  {
    var r := Reported(FlyingAt(o).unit, 0, true);
    assert r.elements == WrittenAt(o).unit.elements && r.store.transports == [Transport(0, o, true)];
    assert !Ready(r, 0) && !AnyReady(r);
    assert Without(FlyingAt(o).flights, 0) == [];
  }

  // ---------------------------------------------------------------- runs of the system

  ghost predicate Leads(s: System, events: seq<Event>, r: System) {
    RestartSafety.Valid(s) && RestartSafety.RunEnabled(s, events) && RestartSafety.Run(s, events) == r
  }

  lemma LeadsNowhere(s: System)
    requires RestartSafety.Valid(s)
    ensures Leads(s, [], s)
  {
  }

  lemma LeadsBy(s: System, e: Event, rest: seq<Event>, r: System)
    requires RestartSafety.Valid(s) && RestartSafety.Enabled(s, e) && Leads(RestartSafety.Next(s, e), rest, r)
    ensures Leads(s, [e] + rest, r)
  {
    assert ([e] + rest)[1..] == rest;
  }

  // ---------------------------------------------------------------- an open fragment

  const NOTHING_OPEN := Assembly.Assembler(map[], map[])
  const HALF_OPEN := Assembly.Assembler(map[(0, KEY) := Assembly.StartedBy(FIRST_HALF)], map[0 := 5])

  function With(unit: State, origins: seq<Origin>, a: Assembly.Assembler, committed: map<int, int>, seen: map<int, int>)
    : System
  {
    System(map[HUB := unit], map[HUB := origins], a, committed, seen)
  }

  lemma UnitIsCreated(unit: State)
    requires Initial(unit)
    ensures RestartSafety.Valid(START) && RestartSafety.Enabled(START, CreateUnit(HUB, unit))
    ensures RestartSafety.Next(START, CreateUnit(HUB, unit)) == With(unit, [], NOTHING_OPEN, map[], map[])
  {
  }

  /** The first half opens a collection and nothing is passed on. */
  lemma FirstHalfIsRead()
    ensures FIRST_HALF.WellFormed() && Assembly.CaseOf(NOTHING_OPEN, FIRST_HALF) == Assembly.Started
    ensures Assembly.StartedBy(FIRST_HALF).lowestOffset == 5 == Assembly.StartedBy(FIRST_HALF).highestOffset
    ensures Assembly.StartedBy(FIRST_HALF).offsets == {5} && !Assembly.StartedBy(FIRST_HALF).collected.Complete()
    ensures Assembly.Process(NOTHING_OPEN, FIRST_HALF) == HALF_OPEN
  {
  }

  lemma FirstHalfReceived()
    ensures var s, e :=
            With(NEW, [], NOTHING_OPEN, map[], map[]), Receive(Assembly.FragmentOf(FIRST_HALF), HUB, 0, BUNDLE);
            && RestartSafety.Valid(s) && RestartSafety.Enabled(s, e)
            && RestartSafety.Next(s, e) == With(NEW, [], HALF_OPEN, map[], map[0 := 5])
  {
    FirstHalfIsRead();
    hide Assembly.StartedBy, Assembly.Process;
  }

  /** A message that lets the bundle be passed on with this offset. */
  lemma BundleReceived(a: Assembly.Assembler, seen: map<int, int>, input: Assembly.Input, o: int)
    requires Assembly.Arrives(seen, input) && Assembly.EmittedOffset(a, input) == Some(o)
    requires input.Message().partition == 0
    ensures var s, e := With(NEW, [], a, map[], seen), Receive(input, HUB, 0, BUNDLE);
            && RestartSafety.Valid(s) && RestartSafety.Enabled(s, e)
            && RestartSafety.Next(s, e) ==
               With(PendingAt(o), [OriginOf(a, input)], Assembly.Next(a, input), map[], Assembly.Seen(seen, input))
  {
    hide ConflationRuns.Next, PendingAt, Assembly.Next, Assembly.Seen, Assembly.EmittedOffset, OriginOf;
    hide Assembly.Arrives;
    BundleArrives(o);
    OriginsPartition(a, input);
    var s, origin := With(NEW, [], a, map[], seen), OriginOf(a, input);
    assert map[HUB := NEW][HUB := PendingAt(o)] == map[HUB := PendingAt(o)];
    assert [] + [origin] == [origin] && map[HUB := []][HUB := [origin]] == map[HUB := [origin]];
    assert s.units[HUB] == NEW && s.origins[HUB] == [];
    assert RestartSafety.Arrive(s, HUB, 0, BUNDLE, o, origin) == With(PendingAt(o), [origin], a, map[], seen);
  }

  lemma OriginsPartition(a: Assembly.Assembler, input: Assembly.Input)
    requires Assembly.EmittedOffset(a, input).Some?
    ensures OriginOf(a, input).partition == input.Message().partition
  {
  }

  lemma UnitMoves(unit: State, step: Step, r: State, origins: seq<Origin>, a: Assembly.Assembler, seen: map<int, int>)
    requires ConflationRuns.Valid(unit) && ConflationRuns.Enabled(unit, step) && !step.Arrive?
    requires ConflationRuns.Next(unit, step) == r
    ensures var s := With(unit, origins, a, map[], seen);
            && RestartSafety.Valid(s) && RestartSafety.Enabled(s, UnitStep(HUB, step))
            && RestartSafety.Next(s, UnitStep(HUB, step)) == With(r, origins, a, map[], seen)
  {
    hide ConflationRuns.Next, ConflationRuns.Valid, ConflationRuns.Enabled;
  }

  /** Of the unit's elements only this one has metadata. */
  ghost predicate OnlyOffers(unit: State, i: nat) {
    && ConflationRuns.Valid(unit) && i < |unit.unit.elements|
    && forall j :: 0 <= j < |unit.unit.elements| ==> (unit.unit.elements[j].info.meta.Some? <==> i == j)
  }

  lemma OfferedIsEntry(unit: State, i: nat)
    requires OnlyOffers(unit, i)
    ensures OfferedAt(unit, i) < |unit.unit.store.transports|
  {
  }

  /** What the only unit offers. */
  lemma SnapshotOfOne(unit: State, i: nat, origins: seq<Origin>, a: Assembly.Assembler, seen: map<int, int>)
    requires OnlyOffers(unit, i)
    ensures RestartSafety.Valid(With(unit, origins, a, map[], seen))
    ensures OfferedAt(unit, i) < |unit.unit.store.transports|
    ensures Snapshot(With(unit, origins, a, map[], seen)) == {unit.unit.store.transports[OfferedAt(unit, i)]}
  {
    hide ConflationRuns.Valid, OfferedAt;
    OfferedIsEntry(unit, i);
    var s, t := With(unit, origins, a, map[], seen), unit.unit.store.transports[OfferedAt(unit, i)];
    assert HUB in s.units && s.units[HUB] == unit && t in Snapshot(s);
  }

  /** A round that moves the partition to its commit point. */
  lemma RoundCommits(unit: State, i: nat, origins: seq<Origin>, a: Assembly.Assembler, seen: map<int, int>,
                     t: Transport,
                     c: int)
    requires OnlyOffers(unit, i) && OfferedAt(unit, i) < |unit.unit.store.transports|
    requires unit.unit.store.transports[OfferedAt(unit, i)] == t && t.partition == 0
    requires c == if t.processed then t.offset + 1 else t.offset
    ensures var s := With(unit, origins, a, map[], seen);
            && RestartSafety.Valid(s) && RestartSafety.Enabled(s, Commit(map[0 := c]))
            && RestartSafety.Next(s, Commit(map[0 := c])) == s.(committed := map[0 := c])
  {
    hide ConflationRuns.Valid, OfferedAt, Snapshot;
    SnapshotOfOne(unit, i, origins, a, seen);
    CommitPointOfOne(t);
  }

  lemma CommitPointOfOne(t: Transport)
    ensures CommitPoint({t}, t.partition, if t.processed then t.offset + 1 else t.offset)
  {
    assert t in {t};
    if !t.processed {
      assert HasPending({t}, t.partition) && LowestPending({t}, t.partition, t.offset);
    } else {
      assert !HasPending({t}, t.partition) && HighestProcessed({t}, t.partition, t.offset);
    }
  }

  /**
   A fragment is open at offset 5. A whole message read at 6 is passed on as 5 and written, and the
   round that follows commits 6: a restart does not read the fragment again.
   */
  const OPEN_FRAGMENT_RUN: seq<Event> :=
    [CreateUnit(HUB, NEW), Receive(Assembly.FragmentOf(FIRST_HALF), HUB, 0, BUNDLE),
     Receive(Assembly.Plain(WHOLE), HUB, 0, BUNDLE), UnitStep(HUB, GetNext), UnitStep(HUB, Report(0, true)),
     Commit(map[0 := 6])]

  lemma WholeReceived()
    ensures var s, e := With(NEW, [], HALF_OPEN, map[], map[0 := 5]), Receive(Assembly.Plain(WHOLE), HUB, 0, BUNDLE);
            && RestartSafety.Valid(s) && RestartSafety.Enabled(s, e)
            && RestartSafety.Next(s, e) == With(PendingAt(5), [Origin(0, 6, 6)], HALF_OPEN, map[], map[0 := 6])
  {
    hide Assembly.StartedBy, PendingAt, RestartSafety.Next, RestartSafety.Valid, RestartSafety.Enabled;
    BundleReceived(HALF_OPEN, map[0 := 5], Assembly.Plain(WHOLE), 5);
  }

  lemma RoundPassesAnOpenFragment() returns (r: System)
    ensures Leads(START, OPEN_FRAGMENT_RUN, r)
    ensures OpenFragment(r.assembler, 0, 5) && !WillBeReadAgain(r.committed, 0, 5)
  {
    hide RestartSafety.Next, RestartSafety.Valid, RestartSafety.Enabled, ConflationRuns.Next, ConflationRuns.Valid;
    hide Leads;
    hide Assembly.StartedBy, PendingAt, FlyingAt, WrittenAt, Initial;
    var a, origins, e := HALF_OPEN, [Origin(0, 6, 6)], OPEN_FRAGMENT_RUN;
    var s1, s2 := With(NEW, [], NOTHING_OPEN, map[], map[]), With(NEW, [], a, map[], map[0 := 5]);
    var s3, s4 := With(PendingAt(5), origins, a, map[], map[0 := 6]), With(FlyingAt(5), origins, a, map[], map[0 := 6]);
    var s5 := With(WrittenAt(5), origins, a, map[], map[0 := 6]);
    r := s5.(committed := map[0 := 6]);
    NewIsInitial();
    UnitIsCreated(NEW);
    FirstHalfReceived();
    WholeReceived();
    BundleIsDispatched(5);
    BundleIsWritten(5);
    UnitSteps(5);
    UnitMoves(PendingAt(5), GetNext, FlyingAt(5), origins, a, map[0 := 6]);
    UnitMoves(FlyingAt(5), Report(0, true), WrittenAt(5), origins, a, map[0 := 6]);
    RoundCommits(WrittenAt(5), 0, origins, a, map[0 := 6], Transport(0, 5, true), 6);
    CommittedIsValid(s5, map[0 := 6]);
    LeadsNowhere(r);
    LeadsBy(s5, e[5], [], r);
    LeadsBy(s4, e[4], [e[5]] + [], r);
    LeadsBy(s3, e[3], [e[4]] + ([e[5]] + []), r);
    LeadsBy(s2, e[2], [e[3]] + ([e[4]] + ([e[5]] + [])), r);
    LeadsBy(s1, e[1], [e[2]] + ([e[3]] + ([e[4]] + ([e[5]] + []))), r);
    LeadsBy(START, e[0], [e[1]] + ([e[2]] + ([e[3]] + ([e[4]] + ([e[5]] + [])))), r);
    assert e == [e[0]] + ([e[1]] + ([e[2]] + ([e[3]] + ([e[4]] + ([e[5]] + [])))));
    FirstHalfIsRead();
    assert (0, KEY) in a.open && 5 in a.open[(0, KEY)].offsets;
  }

  lemma NewIsInitial()
    ensures Initial(NEW)
  {
  }

  lemma CommittedIsValid(s: System, committed: map<int, int>)
    requires RestartSafety.Valid(s)
    ensures RestartSafety.Valid(s.(committed := committed))
  {
  }

  /** What the unit's steps need and leave. */
  lemma UnitSteps(o: int)
    ensures PendingAt(o).tickets > 0 && |FlyingAt(o).flights| == 1 && |WrittenAt(o).unit.elements| == 1
    ensures OnlyOffers(PendingAt(o), 0) && OnlyOffers(WrittenAt(o), 0)
    ensures PendingAt(o).unit.store.transports == [Transport(0, o, false)] && OfferedAt(PendingAt(o), 0) == 0
    ensures WrittenAt(o).unit.store.transports == [Transport(0, o, true)] && OfferedAt(WrittenAt(o), 0) == 0
  {
  }

  // ---------------------------------------------------------------- an assembled bundle

  /**
   A bundle is assembled from messages at 5 and 6 and passed on as 6. While it is pending a round
   commits 6: a restart reads its second half only.
   */
  const FIRST_MESSAGE_RUN: seq<Event> :=
    [CreateUnit(HUB, NEW), Receive(Assembly.FragmentOf(FIRST_HALF), HUB, 0, BUNDLE),
     Receive(Assembly.FragmentOf(SECOND_HALF), HUB, 0, BUNDLE), Commit(map[0 := 6])]

  lemma SecondHalfCompletes()
    ensures SECOND_HALF.WellFormed() && Assembly.CaseOf(HALF_OPEN, SECOND_HALF) == Assembly.Completed
    ensures Assembly.EmittedOffset(HALF_OPEN, Assembly.FragmentOf(SECOND_HALF)) == Some(6)
    ensures OriginOf(HALF_OPEN, Assembly.FragmentOf(SECOND_HALF)) == Origin(0, 5, 6)
  {
    FirstHalfIsRead();
  }

  lemma RoundPassesAFirstMessage() returns (r: System)
    ensures Leads(START, FIRST_MESSAGE_RUN, r)
    ensures RestartSafety.Valid(r) && HUB in r.units && RestartSafety.Pending(r.units[HUB], 0)
    ensures r.origins[HUB] == [Origin(0, 5, 6)] && !WillBeReadAgain(r.committed, 0, 5)
  {
    hide RestartSafety.Next, RestartSafety.Valid, RestartSafety.Enabled, ConflationRuns.Next, ConflationRuns.Valid;
    hide Leads;
    hide Assembly.StartedBy, PendingAt, Initial, Assembly.EmittedOffset, OriginOf, Assembly.Next, Pending;
    var e, input := FIRST_MESSAGE_RUN, Assembly.FragmentOf(SECOND_HALF);
    var s1, s2 := With(NEW, [], NOTHING_OPEN, map[], map[]), With(NEW, [], HALF_OPEN, map[], map[0 := 5]);
    SecondHalfCompletes();
    var a, origins := Assembly.Next(HALF_OPEN, input), [Origin(0, 5, 6)];
    var s3 := With(PendingAt(6), origins, a, map[], map[0 := 6]);
    r := s3.(committed := map[0 := 6]);
    NewIsInitial();
    UnitIsCreated(NEW);
    FirstHalfReceived();
    BundleReceived(HALF_OPEN, map[0 := 5], input, 6);
    assert Assembly.Seen(map[0 := 5], input) == map[0 := 6];
    UnitSteps(6);
    RoundCommits(PendingAt(6), 0, origins, a, map[0 := 6], Transport(0, 6, false), 6);
    CommittedIsValid(s3, map[0 := 6]);
    LeadsNowhere(r);
    LeadsBy(s3, e[3], [], r);
    LeadsBy(s2, e[2], [e[3]] + [], r);
    LeadsBy(s1, e[1], [e[2]] + ([e[3]] + []), r);
    LeadsBy(START, e[0], [e[1]] + ([e[2]] + ([e[3]] + [])), r);
    assert e == [e[0]] + ([e[1]] + ([e[2]] + ([e[3]] + [])));
    PendingIsPending(6);
  }

  lemma PendingIsPending(o: int)
    ensures ConflationRuns.Valid(PendingAt(o)) && RestartSafety.Pending(PendingAt(o), 0)
  {
  }

  // ---------------------------------------------------------------- a delta in process

  const BASE := Version(0, 7)
  const DELTA1 := Delta(V1, BASE, map[("p", "c") := Compliance.NonCompliant])
  const DELTA2 := Delta(V2, BASE, map[("p", "d") := Compliance.NonCompliant])
  const PACK := DeltaBundle(Inherit(DELTA2, Some(DELTA1)))

  /** A complete-state element and a delta element that depends on it, without initial checks. */
  function TwoElements(info: Info, inProcess: bool, store: Store): Unit {
    Unit([Element(CompleteInfo(None, None), None, false, NO_VERSION),
          Element(info, Some(Dependency(0, true)), inProcess, NO_VERSION)], store, false, false)
  }

  const NO_DELTAS :=
    State(TwoElements(DeltaInfo(None, None, None, None, None, None), false, Store([], [])), 0, [], [], [])

  const ARRIVED1 := [Arrival(1, DeltaBundle(DELTA1), 0)]
  const ARRIVED2 := ARRIVED1 + [Arrival(1, DeltaBundle(DELTA2), 1)]

  const ONE_DELTA := State(
    TwoElements(DeltaInfo(Some(DeltaBundle(DELTA1)), Some(0), None, None, Some(0), Some(V1)), false,
                Store([Metadata(1, V1, 0)], [Transport(0, 5, false)])).(isInReadyQueue := true),
    1, [], ARRIVED1, [])

  /** The pack has the metadata of its first delta while it is pending. */
  const TWO_DELTAS := State(
    TwoElements(DeltaInfo(Some(PACK), Some(0), None, None, Some(1), Some(V1)), false,
                Store([Metadata(1, V2, 0)], [Transport(0, 5, false), Transport(0, 6, false)])).(isInReadyQueue := true),
    1, [], ARRIVED2, [])

  /** And of its last one while it is in process. */
  const FLYING_DELTAS := State(
    TwoElements(DeltaInfo(None, Some(0), Some(PACK), Some(0), Some(1), Some(V1)), true,
                Store([Metadata(1, V2, 1)], [Transport(0, 5, false), Transport(0, 6, false)])),
    0, [Flight(1, 0, PACK)], ARRIVED2, [])

  lemma FirstDeltaArrives()
    ensures ConflationRuns.Valid(NO_DELTAS) && Conflation.Accepts(NO_DELTAS.unit, 1, DeltaBundle(DELTA1))
    ensures ConflationRuns.Next(NO_DELTAS, Arrive(1, DeltaBundle(DELTA1), 0, 5)) == ONE_DELTA
  {
    var u := Stored(NO_DELTAS.unit, 1, DeltaBundle(DELTA1), 0, 5);
    assert u == ONE_DELTA.unit.(isInReadyQueue := false);
    assert !u.elements[0].inProcess && !u.elements[1].inProcess && !AnyInProcess(u);
    assert !ChainInProcess(u, 0) && !ChainInProcess(u, 1) && Ready(u, 1) && AnyReady(u);
  }

  lemma SecondDeltaArrives()
    ensures ConflationRuns.Valid(ONE_DELTA) && Conflation.Accepts(ONE_DELTA.unit, 1, DeltaBundle(DELTA2))
    ensures ConflationRuns.Next(ONE_DELTA, Arrive(1, DeltaBundle(DELTA2), 0, 6)) == TWO_DELTAS
  {
    var u := Stored(ONE_DELTA.unit, 1, DeltaBundle(DELTA2), 0, 6);
    assert u == TWO_DELTAS.unit;
  }

  lemma PackIsDispatched()
    ensures ConflationRuns.Valid(TWO_DELTAS) && ConflationRuns.Next(TWO_DELTAS, GetNext) == FLYING_DELTAS
  {
    var u := TWO_DELTAS.unit;
    assert !ChainInProcess(u, 0) && !ChainInProcess(u, 1) && Ready(u, 1) && !Ready(u, 0);
    assert NextReady(u, 1) == Some(1) && NextReady(u, 0) == Some(1);
    assert Dispatch(u, 1).elements == FLYING_DELTAS.unit.elements && Dispatch(u, 1).store == FLYING_DELTAS.unit.store;
  }

  /** A delta read as a whole message while nothing is open. */
  lemma DeltaReceived(unit: State, r: State, origins: seq<Origin>, d: Delta, o: int, seen: map<int, int>)
    requires ConflationRuns.Valid(unit) && 1 < |unit.unit.elements| && Conflation.Accepts(unit.unit, 1, DeltaBundle(d))
    requires ConflationRuns.Next(unit, Arrive(1, DeltaBundle(d), 0, o)) == r && o >= 0
    requires 0 in seen ==> seen[0] < o
    ensures var s, input :=
            With(unit, origins, NOTHING_OPEN, map[], seen), Assembly.Plain(Assembly.KafkaMessage(0, o, []));
            var e := Receive(input, HUB, 1, DeltaBundle(d));
            && RestartSafety.Valid(s) && RestartSafety.Enabled(s, e)
            && RestartSafety.Next(s, e) == With(r, origins + [Origin(0, o, o)], NOTHING_OPEN, map[], seen[0 := o])
  {
    hide ConflationRuns.Next, Conflation.Accepts, ConflationRuns.Valid;
    var s := With(unit, origins, NOTHING_OPEN, map[], seen);
    assert s.units[HUB] == unit && s.origins[HUB] == origins;
    assert map[HUB := unit][HUB := r] == map[HUB := r];
    assert map[HUB := origins][HUB := origins + [Origin(0, o, o)]] == map[HUB := origins + [Origin(0, o, o)]];
  }

  /**
   Deltas at 5 and 6 are merged and in process, and a round commits 6: the first one is neither written
   nor read again.
   */
  const DELTA_RUN: seq<Event> :=
    [CreateUnit(HUB, NO_DELTAS), Receive(Assembly.Plain(Assembly.KafkaMessage(0, 5, [])), HUB, 1, DeltaBundle(DELTA1)),
     Receive(Assembly.Plain(Assembly.KafkaMessage(0, 6, [])), HUB, 1, DeltaBundle(DELTA2)), UnitStep(HUB, GetNext),
     Commit(map[0 := 6])]

  lemma FlyingDeltasOffer()
    ensures OnlyOffers(FLYING_DELTAS, 1) && OfferedAt(FLYING_DELTAS, 1) == 1 && TWO_DELTAS.tickets > 0
    ensures FLYING_DELTAS.unit.store.transports[1] == Transport(0, 6, false) && Initial(NO_DELTAS)
  {
  }

  lemma RoundPassesADeltaInProcess() returns (r: System)
    ensures Leads(START, DELTA_RUN, r)
    ensures HUB in r.units && r.units[HUB].accepted == ARRIVED2 && r.units[HUB].written == []
    ensures r.origins[HUB] == [Origin(0, 5, 5), Origin(0, 6, 6)] && !WillBeReadAgain(r.committed, 0, 5)
  {
    hide RestartSafety.Next, RestartSafety.Valid, RestartSafety.Enabled, ConflationRuns.Next, ConflationRuns.Valid;
    hide Leads;
    hide Initial, Conflation.Accepts, OnlyOffers, OfferedAt;
    var e, seen := DELTA_RUN, map[0 := 6];
    var o1, o2 := [Origin(0, 5, 5)], [Origin(0, 5, 5), Origin(0, 6, 6)];
    var s1 := With(NO_DELTAS, [], NOTHING_OPEN, map[], map[]);
    var s2 := With(ONE_DELTA, o1, NOTHING_OPEN, map[], map[0 := 5]);
    var s3, s4 := With(TWO_DELTAS, o2, NOTHING_OPEN, map[], seen), With(FLYING_DELTAS, o2, NOTHING_OPEN, map[], seen);
    r := s4.(committed := map[0 := 6]);
    FlyingDeltasOffer();
    UnitIsCreated(NO_DELTAS);
    FirstDeltaArrives();
    SecondDeltaArrives();
    DeltaReceived(NO_DELTAS, ONE_DELTA, [], DELTA1, 5, map[]);
    assert [] + [Origin(0, 5, 5)] == o1 && map[][0 := 5] == map[0 := 5];
    DeltaReceived(ONE_DELTA, TWO_DELTAS, o1, DELTA2, 6, map[0 := 5]);
    assert o1 + [Origin(0, 6, 6)] == o2 && map[0 := 5][0 := 6] == seen;
    PackIsDispatched();
    UnitMoves(TWO_DELTAS, GetNext, FLYING_DELTAS, o2, NOTHING_OPEN, seen);
    RoundCommits(FLYING_DELTAS, 1, o2, NOTHING_OPEN, seen, Transport(0, 6, false), 6);
    CommittedIsValid(s4, map[0 := 6]);
    LeadsNowhere(r);
    LeadsBy(s4, e[4], [], r);
    LeadsBy(s3, e[3], [e[4]] + [], r);
    LeadsBy(s2, e[2], [e[3]] + ([e[4]] + []), r);
    LeadsBy(s1, e[1], [e[2]] + ([e[3]] + ([e[4]] + [])), r);
    LeadsBy(START, e[0], [e[1]] + ([e[2]] + ([e[3]] + ([e[4]] + []))), r);
    assert e == [e[0]] + ([e[1]] + ([e[2]] + ([e[3]] + ([e[4]] + []))));
  }
}
