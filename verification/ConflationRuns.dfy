/**
 Runs of a conflation unit: bundles arrive, the dispatcher takes the unit from the ready
 queue and asks for a bundle, a worker reports a result, in any order.

 A ticket is one appearance of the unit in the ready queue or in the dispatcher's hand.
 `accepted` and `written` record what has happened and decide nothing.
 */
module ConflationRuns {
  import opened Conflation
  import opened Options
  import opened Versions

  /** A bundle given to a worker together with its metadata object. */
  datatype Flight = Flight(priority: nat, meta: nat, bundle: Bundle)

  datatype Arrival = Arrival(priority: nat, bundle: Bundle, transport: nat)

  datatype State = State(
    unit: Unit, tickets: nat, flights: seq<Flight>, accepted: seq<Arrival>, written: seq<Flight>)

  datatype Step =
    | Arrive(priority: nat, bundle: Bundle, partition: int, offset: int)
    | GetNext
    | Report(flight: nat, success: bool)

  /** A new unit: no bundles, nothing processed. */
  ghost predicate Initial(s: State) {
    && s.unit.Valid()
    && s.unit.store == Store([], []) && !s.unit.isInReadyQueue
    && (forall i :: 0 <= i < |s.unit.elements| ==>
          var e := s.unit.elements[i];
          !e.inProcess && e.lastProcessed == NO_VERSION && e.info.bundle.None? && e.info.meta.None?)
    && s.tickets == 0 && s.flights == [] && s.accepted == [] && s.written == []
  }

  ghost predicate FlightValid(u: Unit, f: Flight) {
    && f.priority < |u.elements|
    && f.meta < |u.store.metas| && u.store.metas[f.meta].priority == f.priority
    && u.elements[f.priority].info.meta.Some?
  }

  ghost predicate Valid(s: State) {
    s.unit.Valid() && forall f :: f in s.flights ==> FlightValid(s.unit, f)
  }

  ghost predicate Enabled(s: State, step: Step) {
    match step
    case Arrive(i, _, _, _) => i < |s.unit.elements|
    case GetNext => s.tickets > 0
    case Report(k, _) => k < |s.flights|
  }

  function Enqueued(before: Unit, after: Unit): nat {
    if !before.isInReadyQueue && after.isInReadyQueue then 1 else 0
  }

  function Without(flights: seq<Flight>, k: nat): (r: seq<Flight>)
    requires k < |flights|
    ensures forall f :: f in r ==> f in flights
    ensures |r| == |flights| - 1
  {
    flights[..k] + flights[k + 1..]
  }

  ghost function Next(s: State, step: Step): (r: State)
    requires Valid(s) && Enabled(s, step)
    ensures Valid(r)
  {
    match step
    case Arrive(i, b, partition, offset) =>
      var u := Insert(s.unit, i, b, partition, offset);
      s.(unit := u, tickets := s.tickets + Enqueued(s.unit, u),
         accepted := if Accepts(s.unit, i, b) then s.accepted + [Arrival(i, b, |s.unit.store.transports|)]
                     else s.accepted)
    case GetNext =>
      var next := NextReady(s.unit, 0);
      if next.None? then s.(tickets := s.tickets - 1)
      else
        var info := s.unit.elements[next.value].info;
        s.(unit := Dispatch(s.unit, next.value), tickets := s.tickets - 1,
           flights := s.flights + [Flight(next.value, info.meta.value, info.bundle.value)])
    case Report(k, success) =>
      var f := s.flights[k];
      assert f in s.flights;
      var u := Conflation.Report(s.unit, f.meta, success);
      s.(unit := u, tickets := s.tickets + Enqueued(s.unit, u),
         flights := Without(s.flights, k),
         written := if success then s.written + [f] else s.written)
  }

  ghost function Run(s: State, steps: seq<Step>): (r: State)
    requires Valid(s) && RunEnabled(s, steps)
    ensures Valid(r)
    decreases |steps|
  {
    if steps == [] then s else Run(Next(s, steps[0]), steps[1..])
  }

  ghost predicate RunEnabled(s: State, steps: seq<Step>)
    requires Valid(s)
    decreases |steps|
  {
    steps == [] || (Enabled(s, steps[0]) && RunEnabled(Next(s, steps[0]), steps[1..]))
  }

  ghost predicate Leads(s: State, steps: seq<Step>, r: State) {
    Valid(s) && RunEnabled(s, steps) && Run(s, steps) == r
  }

  lemma LeadsBy(s: State, step: Step, rest: seq<Step>, r: State)
    requires Valid(s) && Enabled(s, step) && Leads(Next(s, step), rest, r)
    ensures Leads(s, [step] + rest, r)
  {
    assert ([step] + rest)[1..] == rest;
  }

  // ---------------------------------------------------------------- dispatch safety

  /** Pending metadata names the pending bundle's version. */
  ghost predicate PendingNamed(u: Unit, i: nat)
    requires u.Valid() && i < |u.elements|
  {
    var info := u.elements[i].info;
    info.bundle.Some? ==> u.store.metas[info.meta.value].version == info.bundle.value.Version()
  }

  /** A dispatched bundle's metadata still names it, and its dependency is where it must be. */
  ghost predicate FlightHolds(u: Unit, f: Flight)
    requires u.Valid() && FlightValid(u, f)
  {
    u.store.metas[f.meta].version == f.bundle.Version() && DependencyHolds(u, f.priority, f.bundle)
  }

  /**
   While a delta pack is in flight its element keeps it for recovery; if nothing arrived since,
   the element's metadata is still the one handed out.
   */
  ghost predicate DeltaRecoverable(u: Unit, f: Flight)
    requires u.Valid() && FlightValid(u, f)
  {
    var info := u.elements[f.priority].info;
    info.DeltaInfo? ==>
      && info.dispatched == Some(f.bundle)
      && (info.bundle.None? ==> info.meta == Some(f.meta))
  }

  ghost predicate Safe(s: State) {
    && Valid(s)
    && s.tickets <= 1 && (s.tickets == 1 ==> s.unit.isInReadyQueue)
    && |s.flights| <= 1 && (s.unit.isInReadyQueue ==> s.flights == [])
    && InFlight(s.unit, s.flights)
  }

  /** Exactly the elements of the flights are in process, and everything named is what it was. */
  ghost predicate InFlight(u: Unit, flights: seq<Flight>)
    requires u.Valid() && forall f :: f in flights ==> FlightValid(u, f)
  {
    && (forall i :: 0 <= i < |u.elements| ==>
          (u.elements[i].inProcess <==> flights != [] && flights[0].priority == i))
    && (forall f :: f in flights ==> FlightHolds(u, f) && DeltaRecoverable(u, f))
    && (forall i :: 0 <= i < |u.elements| ==> PendingNamed(u, i))
  }

  lemma SettleKeepsFlights(u: Unit, flights: seq<Flight>)
    requires u.Valid() && (forall f :: f in flights ==> FlightValid(u, f)) && InFlight(u, flights)
    ensures Settle(u).Valid() && (forall f :: f in flights ==> FlightValid(Settle(u), f))
    ensures InFlight(Settle(u), flights)
  {
    var settled := Settle(u);
    forall f | f in flights
      ensures FlightValid(settled, f) && FlightHolds(settled, f) && DeltaRecoverable(settled, f)
    {
      assert FlightHolds(u, f) && DeltaRecoverable(u, f);
    }
    forall i | 0 <= i < |u.elements|
      ensures PendingNamed(settled, i)
    {
      assert PendingNamed(u, i);
    }
  }

  lemma InitialIsSafe(s: State)
    requires Initial(s)
    ensures Safe(s)
  {
  }

  /** Only the metadata of element `i` may have changed, and only that element. */
  ghost predicate OnlyTouches(before: Unit, after: Unit, i: nat)
    requires before.Valid() && after.Valid() && Evolves(before, after) && i < |before.elements|
  {
    && (forall j :: 0 <= j < |before.elements| && j != i ==> after.elements[j] == before.elements[j])
    && (forall m :: 0 <= m < |before.store.metas| && before.store.metas[m].priority != i ==>
          after.store.metas[m] == before.store.metas[m])
  }

  lemma OthersStayNamed(before: Unit, after: Unit, i: nat, j: nat)
    requires before.Valid() && after.Valid() && Evolves(before, after) && i < |before.elements|
    requires OnlyTouches(before, after, i) && j < |before.elements| && j != i
    requires PendingNamed(before, j)
    ensures PendingNamed(after, j)
  {
  }

  lemma StoredTouches(u: Unit, i: nat, b: Bundle, partition: int, offset: int)
    requires u.Valid() && i < |u.elements| && Accepts(u, i, b)
    ensures OnlyTouches(u, Stored(u, i, b, partition, offset), i)
    ensures PendingNamed(Stored(u, i, b, partition, offset), i)
    ensures u.elements[i].inProcess ==>
      forall m :: 0 <= m < |u.store.metas| ==> Stored(u, i, b, partition, offset).store.metas[m] == u.store.metas[m]
  {
  }

  lemma StoredKeepsFlights(u: Unit, flights: seq<Flight>, i: nat, b: Bundle, partition: int, offset: int)
    requires u.Valid() && i < |u.elements| && Accepts(u, i, b) && |flights| <= 1
    requires (forall f :: f in flights ==> FlightValid(u, f)) && InFlight(u, flights)
    ensures var r := Stored(u, i, b, partition, offset);
            (forall f :: f in flights ==> FlightValid(r, f)) && InFlight(r, flights)
  {
    var stored := Stored(u, i, b, partition, offset);
    StoredTouches(u, i, b, partition, offset);
    forall j | 0 <= j < |u.elements|
      ensures PendingNamed(stored, j)
    {
      if j != i {
        OthersStayNamed(u, stored, i, j);
      }
    }
    forall f | f in flights
      ensures FlightValid(stored, f) && FlightHolds(stored, f) && DeltaRecoverable(stored, f)
    {
      assert FlightValid(u, f) && FlightHolds(u, f) && flights[0] == f;
    }
  }

  lemma ArriveIsSafe(s: State, i: nat, b: Bundle, partition: int, offset: int)
    requires Safe(s) && i < |s.unit.elements|
    ensures Safe(Next(s, Arrive(i, b, partition, offset)))
  {
    if Accepts(s.unit, i, b) {
      var stored := Stored(s.unit, i, b, partition, offset);
      StoredKeepsFlights(s.unit, s.flights, i, b, partition, offset);
      SettleKeepsFlights(stored, s.flights);
      assert s.flights != [] ==> AnyInProcess(stored) by {
        if s.flights != [] {
          assert s.flights[0] in s.flights;
          assert stored.elements[s.flights[0].priority].inProcess;
        }
      }
      hide Stored, InFlight, Accepts, AnyReady;
    }
  }

  lemma DispatchTouches(u: Unit, i: nat)
    requires u.Valid() && i < |u.elements| && u.elements[i].info.bundle.Some? && PendingNamed(u, i)
    ensures OnlyTouches(u, Dispatch(u, i), i)
    ensures PendingNamed(Dispatch(u, i), i)
    ensures forall m :: 0 <= m < |u.store.metas| ==> Dispatch(u, i).store.metas[m].version == u.store.metas[m].version
  {
  }

  lemma DispatchedInFlight(u: Unit, i: nat)
    requires u.Valid() && InFlight(u, []) && i < |u.elements| && Ready(u, i)
    ensures var f, r := Flight(i, u.elements[i].info.meta.value, u.elements[i].info.bundle.value), Dispatch(u, i);
            FlightValid(r, f) && InFlight(r, [f])
  {
    var dispatched := Dispatch(u, i);
    DispatchTouches(u, i);
    forall j | 0 <= j < |u.elements|
      ensures PendingNamed(dispatched, j)
    {
      if j != i {
        OthersStayNamed(u, dispatched, i, j);
      }
    }
    var f := Flight(i, u.elements[i].info.meta.value, u.elements[i].info.bundle.value);
    assert PendingNamed(u, i);
    assert DependencyHolds(dispatched, i, f.bundle);
  }

  lemma GetNextIsSafe(s: State)
    requires Safe(s) && s.tickets > 0
    ensures Safe(Next(s, GetNext))
  {
    var next := NextReady(s.unit, 0);
    if next.Some? {
      DispatchedInFlight(s.unit, next.value);
      hide InFlight, Dispatch, Ready;
    }
  }

  lemma ReportedTouches(u: Unit, f: Flight, success: bool)
    requires u.Valid() && FlightValid(u, f) && FlightHolds(u, f) && PendingNamed(u, f.priority)
    requires u.elements[f.priority].info.DeltaInfo? && u.elements[f.priority].info.bundle.None? ==>
      DeltaRecoverable(u, f)
    ensures OnlyTouches(u, Reported(u, f.meta, success), f.priority)
    ensures PendingNamed(Reported(u, f.meta, success), f.priority)
  {
  }

  lemma ReportIsSafe(s: State, k: nat, success: bool)
    requires Safe(s) && k < |s.flights|
    ensures Safe(Next(s, Report(k, success)))
  {
    var u, f := s.unit, s.flights[k];
    assert f in s.flights;
    var reported := Reported(u, f.meta, success);
    ReportedTouches(u, f, success);
    forall j | 0 <= j < |u.elements|
      ensures PendingNamed(reported, j)
    {
      if j != f.priority {
        OthersStayNamed(u, reported, f.priority, j);
      }
    }
    SettleKeepsFlights(reported, []);
    assert Next(s, Report(k, success)).flights == [];
  }

  /** An idle, unqueued unit has nothing ready. */
  ghost predicate NoWorkLeft(s: State)
    requires Valid(s)
  {
    !s.unit.isInReadyQueue && s.flights == [] ==> !AnyReady(s.unit)
  }

  lemma StepIsSafe(s: State, step: Step)
    requires Safe(s) && NoWorkLeft(s) && Enabled(s, step)
    ensures Safe(Next(s, step)) && NoWorkLeft(Next(s, step))
  {
    match step
    case Arrive(i, b, partition, offset) =>
      ArriveIsSafe(s, i, b, partition, offset);
    case GetNext =>
      GetNextIsSafe(s);
    case Report(k, success) =>
      ReportIsSafe(s, k, success);
  }

  /**
   In every interleaving: at most one ticket, none while a bundle is in process; at most one
   bundle in process; a dispatched bundle's dependency holds until it is reported; and an
   idle unit that is not queued has nothing left to do.
   */
  lemma {:induction false} EveryRunIsSafe(s: State, steps: seq<Step>)
    requires Safe(s) && NoWorkLeft(s) && RunEnabled(s, steps)
    ensures Safe(Run(s, steps)) && NoWorkLeft(Run(s, steps))
    decreases |steps|
  {
    if steps != [] {
      StepIsSafe(s, steps[0]);
      EveryRunIsSafe(Next(s, steps[0]), steps[1..]);
    }
  }

  // ---------------------------------------------------------------- version order

  /** For a complete-state element: what is pending or in flight is newer than what was processed. */
  ghost predicate Fresh(s: State, i: nat)
    requires Valid(s) && i < |s.unit.elements|
  {
    var e := s.unit.elements[i];
    e.info.CompleteInfo? ==>
      && (e.info.bundle.Some? ==> e.info.bundle.value.Version().NewerThan(e.lastProcessed))
      && (forall f :: f in s.flights && f.priority == i ==>
            && f.bundle.Version().NewerThan(e.lastProcessed) && e.info.bundle.Some?
            && if e.info.meta == Some(f.meta) then e.info.bundle.value == f.bundle
               else e.info.bundle.value.Version().NewerThan(f.bundle.Version()))
  }

  /** The versions written for element `i` increase strictly, up to the last processed one. */
  ghost predicate WrittenInOrder(s: State, i: nat)
    requires Valid(s) && i < |s.unit.elements|
  {
    && (forall a, b :: 0 <= a < b < |s.written| && s.written[a].priority == i && s.written[b].priority == i ==>
          s.written[b].bundle.Version().NewerThan(s.written[a].bundle.Version()))
    && (forall a :: 0 <= a < |s.written| && s.written[a].priority == i ==>
          !s.written[a].bundle.Version().NewerThan(s.unit.elements[i].lastProcessed))
  }

  ghost predicate InOrder(s: State)
    requires Valid(s)
  {
    forall i :: 0 <= i < |s.unit.elements| && s.unit.elements[i].info.CompleteInfo? ==>
      Fresh(s, i) && WrittenInOrder(s, i)
  }

  /** The element that stores the bundle: while it is in process it names new metadata. */
  lemma StoredInOrder(u: Unit, i: nat, b: Bundle, partition: int, offset: int)
    requires u.Valid() && i < |u.elements| && Accepts(u, i, b) && u.elements[i].info.CompleteInfo?
    ensures var e := Stored(u, i, b, partition, offset).elements[i];
            && e.info.CompleteInfo? && e.lastProcessed == u.elements[i].lastProcessed && e.info.bundle == Some(b)
            && (u.elements[i].inProcess ==> e.info.meta == Some(|u.store.metas|))
  {
  }

  lemma ArriveInOrderAt(s: State, i: nat, b: Bundle, partition: int, offset: int, j: nat)
    requires Safe(s) && i < |s.unit.elements| && j < |s.unit.elements| && Accepts(s.unit, i, b)
    requires s.unit.elements[j].info.CompleteInfo? && Fresh(s, j) && WrittenInOrder(s, j)
    ensures Fresh(Next(s, Arrive(i, b, partition, offset)), j)
    ensures WrittenInOrder(Next(s, Arrive(i, b, partition, offset)), j)
  {
    hide DependencyHolds, ChainInProcess, PendingNamed, Stored, AnyReady, AnyInProcess;
    var r := Next(s, Arrive(i, b, partition, offset));
    var stored := Stored(s.unit, i, b, partition, offset);
    StoredTouches(s.unit, i, b, partition, offset);
    assert r.unit.elements == stored.elements && r.flights == s.flights && r.written == s.written;
    if j == i {
      StoredInOrder(s.unit, i, b, partition, offset);
      forall f | f in s.flights && f.priority == j
        ensures b.Version().NewerThan(f.bundle.Version()) && stored.elements[j].info.meta != Some(f.meta)
      {
        assert FlightValid(s.unit, f) && s.flights[0] == f;
      }
    }
  }

  lemma ArriveInOrder(s: State, i: nat, b: Bundle, partition: int, offset: int)
    requires Safe(s) && InOrder(s) && i < |s.unit.elements|
    ensures InOrder(Next(s, Arrive(i, b, partition, offset)))
  {
    var r := Next(s, Arrive(i, b, partition, offset));
    if Accepts(s.unit, i, b) {
      forall j | 0 <= j < |s.unit.elements| && r.unit.elements[j].info.CompleteInfo?
        ensures Fresh(r, j) && WrittenInOrder(r, j)
      {
        ArriveInOrderAt(s, i, b, partition, offset, j);
      }
    }
  }

  lemma GetNextInOrder(s: State)
    requires Safe(s) && InOrder(s) && s.tickets > 0
    ensures InOrder(Next(s, GetNext))
  {
    var r := Next(s, GetNext);
    var next := NextReady(s.unit, 0);
    if next.Some? {
      DispatchTouches(s.unit, next.value);
      forall j | 0 <= j < |s.unit.elements| && r.unit.elements[j].info.CompleteInfo?
        ensures Fresh(r, j) && WrittenInOrder(r, j)
      {
        assert Fresh(s, j) && WrittenInOrder(s, j);
      }
    }
  }

  /** The element whose bundle was reported. */
  lemma ReportedInOrder(s: State, k: nat, success: bool)
    requires Safe(s) && k < |s.flights| && FlightValid(s.unit, s.flights[k])
    requires s.unit.elements[s.flights[k].priority].info.CompleteInfo?
    requires Fresh(s, s.flights[k].priority) && WrittenInOrder(s, s.flights[k].priority)
    ensures Fresh(Next(s, Report(k, success)), s.flights[k].priority)
    ensures WrittenInOrder(Next(s, Report(k, success)), s.flights[k].priority)
  {
    hide DependencyHolds, ChainInProcess, AnyReady, PendingNamed;
    var r := Next(s, Report(k, success));
    var f := s.flights[k];
    assert f in s.flights && FlightHolds(s.unit, f);
    assert r.flights == [];
  }

  lemma ReportInOrder(s: State, k: nat, success: bool)
    requires Safe(s) && InOrder(s) && k < |s.flights|
    ensures InOrder(Next(s, Report(k, success)))
  {
    hide DependencyHolds, ChainInProcess, AnyReady, PendingNamed;
    var r := Next(s, Report(k, success));
    var f := s.flights[k];
    assert f in s.flights;
    forall j | 0 <= j < |s.unit.elements| && r.unit.elements[j].info.CompleteInfo?
      ensures Fresh(r, j) && WrittenInOrder(r, j)
    {
      assert Fresh(s, j) && WrittenInOrder(s, j);
      if j == f.priority {
        ReportedInOrder(s, k, success);
      } else {
        OthersInOrder(s, k, success, j);
      }
    }
  }

  lemma OthersInOrder(s: State, k: nat, success: bool, j: nat)
    requires Safe(s) && k < |s.flights| && j < |s.unit.elements| && j != s.flights[k].priority
    requires Fresh(s, j) && WrittenInOrder(s, j)
    ensures Fresh(Next(s, Report(k, success)), j) && WrittenInOrder(Next(s, Report(k, success)), j)
  {
    hide DependencyHolds, ChainInProcess, AnyReady, PendingNamed;
    var r := Next(s, Report(k, success));
    assert s.flights[k] in s.flights;
    assert r.unit.elements[j] == s.unit.elements[j] && r.flights == [];
  }

  /**
   Over every run, the versions written for a complete-state bundle type increase strictly and
   whatever is pending is newer than all of them, also when it arrived during processing.
   */
  lemma {:induction false} EveryRunIsInOrder(s: State, steps: seq<Step>)
    requires Safe(s) && NoWorkLeft(s) && InOrder(s) && RunEnabled(s, steps)
    ensures InOrder(Run(s, steps))
    decreases |steps|
  {
    if steps != [] {
      var step := steps[0];
      StepIsSafe(s, step);
      match step {
        case Arrive(i, b, partition, offset) => ArriveInOrder(s, i, b, partition, offset);
        case GetNext => GetNextInOrder(s);
        case Report(k, success) => ReportInOrder(s, k, success);
      }
      EveryRunIsInOrder(Next(s, step), steps[1..]);
    }
  }
}
