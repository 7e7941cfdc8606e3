/**
 When a queued conflation unit still has something to process once the dispatcher asks.

 A unit queues itself when a bundle is ready, but a later arrival may replace that bundle by
 one whose dependency is missing. `GetNext` then finds nothing and the unit, still flagged as
 queued, never queues itself again.
 */
module ConflationProgress {
  import opened Conflation
  import opened ConflationRuns
  import opened DeltaMerge
  import opened Options
  import opened Versions

  /** Queued once, with something to process. */
  ghost predicate Serviceable(s: State)
    requires Valid(s)
  {
    s.unit.isInReadyQueue ==> s.tickets == 1 && AnyReady(s.unit)
  }

  /** The dispatcher took the unit and found nothing. */
  ghost predicate Stranded(s: State) {
    s.unit.isInReadyQueue && s.tickets == 0
  }

  lemma {:induction false} IdleChain(u: Unit, i: nat)
    requires u.Valid() && i < |u.elements| && !AnyInProcess(u)
    ensures !ChainInProcess(u, i)
    decreases i
  {
    if u.elements[i].dependency.Some? {
      IdleChain(u, u.elements[i].dependency.value.index);
    }
  }

  lemma QueuedIsIdle(s: State)
    requires Safe(s) && s.unit.isInReadyQueue
    ensures !AnyInProcess(s.unit)
  {
  }

  /** Which arrivals leave a queued unit with something to process: exactly these. */
  ghost predicate KeepsReady(u: Unit, i: nat, b: Bundle)
    requires u.Valid() && i < |u.elements|
  {
    || !Accepts(u, i, b)
    || DependencyHolds(u, i, b)
    || exists j :: 0 <= j < |u.elements| && j != i && Ready(u, j)
  }

  lemma StoredReadiness(u: Unit, i: nat, b: Bundle, partition: int, offset: int, j: nat)
    requires u.Valid() && i < |u.elements| && j < |u.elements| && !AnyInProcess(u) && Accepts(u, i, b)
    ensures Ready(Stored(u, i, b, partition, offset), j) <==> if j == i then DependencyHolds(u, i, b) else Ready(u, j)
  {
    var stored := Stored(u, i, b, partition, offset);
    StoredTouches(u, i, b, partition, offset);
    IdleChain(u, j);
    assert !AnyInProcess(stored);
    IdleChain(stored, j);
    assert stored.elements[i].info.bundle.value.Dependency() == b.Dependency();
    assert forall k :: 0 <= k < |u.elements| ==> stored.elements[k].lastProcessed == u.elements[k].lastProcessed;
  }

  lemma QueuedArrivalKeepsReadyIff(s: State, i: nat, b: Bundle, partition: int, offset: int)
    requires Safe(s) && s.unit.isInReadyQueue && AnyReady(s.unit) && i < |s.unit.elements|
    ensures AnyReady(Next(s, Arrive(i, b, partition, offset)).unit) <==> KeepsReady(s.unit, i, b)
  {
    QueuedIsIdle(s);
    if Accepts(s.unit, i, b) {
      var stored := Stored(s.unit, i, b, partition, offset);
      forall j | 0 <= j < |s.unit.elements|
        ensures Ready(stored, j) <==> if j == i then DependencyHolds(s.unit, i, b) else Ready(s.unit, j)
      {
        StoredReadiness(s.unit, i, b, partition, offset, j);
      }
      assert Next(s, Arrive(i, b, partition, offset)).unit == stored;
    }
  }

  lemma SettledIsServiceable(u: Unit)
    requires u.Valid() && !u.isInReadyQueue
    ensures Settle(u).isInReadyQueue ==> AnyReady(Settle(u))
  {
    var settled := Settle(u);
    if settled.isInReadyQueue {
      var i :| 0 <= i < |u.elements| && Ready(u, i);
      QueueFlagIsIrrelevant(u, i);
      assert Ready(settled, i);
    }
  }

  lemma QueueFlagIsIrrelevant(u: Unit, i: nat)
    requires u.Valid() && i < |u.elements|
    ensures u.(isInReadyQueue := true).Valid()
    ensures Ready(u, i) <==> Ready(u.(isInReadyQueue := true), i)
  {
    SameChain(u, i);
  }

  lemma {:induction false} SameChain(u: Unit, i: nat)
    requires u.Valid() && i < |u.elements|
    ensures u.(isInReadyQueue := true).Valid()
    ensures ChainInProcess(u, i) <==> ChainInProcess(u.(isInReadyQueue := true), i)
    decreases i
  {
    if u.elements[i].dependency.Some? {
      SameChain(u, u.elements[i].dependency.value.index);
    }
  }

  ghost predicate GuardedStep(s: State, step: Step)
    requires Valid(s) && Enabled(s, step)
  {
    step.Arrive? && s.unit.isInReadyQueue ==> KeepsReady(s.unit, step.priority, step.bundle)
  }

  /** One step keeps the unit serviceable exactly when the arrival, if any, meets the guard. */
  lemma StepKeepsServiceableIff(s: State, step: Step)
    requires Safe(s) && NoWorkLeft(s) && Serviceable(s) && Enabled(s, step)
    ensures Serviceable(Next(s, step)) <==> GuardedStep(s, step)
  {
    match step
    case Arrive(i, b, partition, offset) =>
      if s.unit.isInReadyQueue {
        QueuedArrivalKeepsReadyIff(s, i, b, partition, offset);
      } else if Accepts(s.unit, i, b) {
        SettledIsServiceable(Stored(s.unit, i, b, partition, offset));
      }
    case GetNext =>
    case Report(k, success) =>
      assert s.flights[k] in s.flights;
      SettledIsServiceable(Reported(s.unit, s.flights[k].meta, success));
  }

  // ---------------------------------------------------------------- a stranded unit stays so

  /** A stranded unit is never dispatched again, whatever happens. */
  lemma {:induction false} StrandedForever(s: State, steps: seq<Step>)
    requires Safe(s) && NoWorkLeft(s) && Stranded(s) && RunEnabled(s, steps)
    ensures Stranded(Run(s, steps)) && Run(s, steps).written == s.written
    decreases |steps|
  {
    if steps != [] {
      StepIsSafe(s, steps[0]);
      assert steps[0].Arrive?;
      StrandedForever(Next(s, steps[0]), steps[1..]);
    }
  }

  lemma StrandedIff(s: State)
    requires Safe(s) && s.tickets > 0
    ensures Stranded(Next(s, GetNext)) <==> !AnyReady(s.unit)
  {
  }

  // ---------------------------------------------------------------- chains of one link

  /** Dependencies are on elements that have none themselves. */
  ghost predicate OneLink(u: Unit)
    requires u.Valid()
  {
    forall i :: 0 <= i < |u.elements| && u.elements[i].dependency.Some? ==>
      u.elements[u.elements[i].dependency.value.index].dependency.None?
  }

  /** The newest version element `j` knows of. */
  function Newest(u: Unit, j: nat): Version
    requires j < |u.elements|
  {
    var e := u.elements[j];
    if e.info.bundle.Some? then e.info.bundle.value.Version() else e.lastProcessed
  }

  function Max(a: Version, b: Version): Version {
    if b.NewerThan(a) then b else a
  }

  lemma StoredNewest(u: Unit, i: nat, b: Bundle, partition: int, offset: int, j: nat)
    requires u.Valid() && i < |u.elements| && j < |u.elements| && Accepts(u, i, b)
    requires u.elements[j].info.CompleteInfo?
    requires u.elements[j].info.bundle.Some? ==>
      u.elements[j].info.bundle.value.Version().NewerThan(u.elements[j].lastProcessed)
    ensures Newest(Stored(u, i, b, partition, offset), j) ==
            if i == j then Max(Newest(u, j), b.Version()) else Newest(u, j)
  {
  }

  lemma ReportedNewest(s: State, f: Flight, success: bool, j: nat)
    requires Safe(s) && s.flights == [f] && j < |s.unit.elements| && s.unit.elements[j].info.CompleteInfo?
    requires Fresh(s, j)
    ensures Newest(Reported(s.unit, f.meta, success), j) == Newest(s.unit, j)
  {
    assert f in s.flights && FlightHolds(s.unit, f) && PendingNamed(s.unit, f.priority);
    hide InFlight, DeltaRecoverable, DependencyHolds;
  }

  lemma FreshIsNewer(s: State, j: nat)
    requires Valid(s) && InOrder(s) && j < |s.unit.elements| && s.unit.elements[j].info.CompleteInfo?
    ensures var e := s.unit.elements[j];
            e.info.bundle.Some? ==> e.info.bundle.value.Version().NewerThan(e.lastProcessed)
  {
    assert Fresh(s, j);
  }

  /** For a complete-state element that is the newest version offered so far, accepted or not. */
  lemma NewestFollowsOffers(s: State, step: Step, j: nat)
    requires Safe(s) && InOrder(s) && Enabled(s, step) && j < |s.unit.elements|
    requires s.unit.elements[j].info.CompleteInfo?
    ensures Newest(Next(s, step).unit, j) ==
            if step.Arrive? && step.priority == j then Max(Newest(s.unit, j), step.bundle.Version())
            else Newest(s.unit, j)
  {
    hide Stored, Reported, InFlight, Fresh, WrittenInOrder;
    match step
    case Arrive(i, b, partition, offset) =>
      FreshIsNewer(s, j);
      if Accepts(s.unit, i, b) {
        StoredNewest(s.unit, i, b, partition, offset, j);
      }
    case GetNext =>
    case Report(k, success) =>
      assert s.flights == [s.flights[k]];
      ReportedNewest(s, s.flights[k], success, j);
  }

  /** A dependant names the newest version offered of its base. */
  ghost predicate NamesNewestBase(u: Unit, i: nat, b: Bundle)
    requires u.Valid() && i < |u.elements|
  {
    var d := u.elements[i].dependency;
    d.Some? ==> b.Dependency() == Some(Newest(u, d.value.index))
  }

  lemma NamingNewestKeepsReady(s: State, i: nat, b: Bundle)
    requires Safe(s) && s.unit.isInReadyQueue && i < |s.unit.elements|
    requires OneLink(s.unit) && NamesNewestBase(s.unit, i, b)
    ensures KeepsReady(s.unit, i, b)
  {
    QueuedIsIdle(s);
    var d := s.unit.elements[i].dependency;
    if d.Some? && s.unit.elements[d.value.index].info.bundle.Some? {
      IdleChain(s.unit, d.value.index);
      assert Ready(s.unit, d.value.index);
    }
  }

  ghost predicate WellNamedRun(s: State, steps: seq<Step>)
    requires Valid(s) && RunEnabled(s, steps)
    decreases |steps|
  {
    steps == [] ||
    ((steps[0].Arrive? ==> NamesNewestBase(s.unit, steps[0].priority, steps[0].bundle))
     && WellNamedRun(Next(s, steps[0]), steps[1..]))
  }

  /** With one-link chains and well-named dependants, the dispatcher never finds a queued unit empty. */
  lemma {:induction false} OneLinkRunsAreServiceable(s: State, steps: seq<Step>)
    requires Safe(s) && NoWorkLeft(s) && Serviceable(s) && OneLink(s.unit)
    requires RunEnabled(s, steps) && WellNamedRun(s, steps)
    ensures Serviceable(Run(s, steps))
    decreases |steps|
  {
    if steps != [] {
      var step := steps[0];
      if step.Arrive? && s.unit.isInReadyQueue {
        NamingNewestKeepsReady(s, step.priority, step.bundle);
      }
      StepKeepsServiceableIff(s, step);
      StepIsSafe(s, step);
      OneLinkRunsAreServiceable(Next(s, step), steps[1..]);
    }
  }
}
