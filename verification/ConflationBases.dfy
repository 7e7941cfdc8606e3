/**
 What every written bundle was written after: the version of its base that it names, or any version
 that is not older, for bundles whose type asks for no more.
 */
module ConflationBases {
  import opened Conflation
  import opened ConflationOrder
  import opened ConflationRuns
  import opened ConflationTable
  import opened Options
  import opened Versions

  /** The element depends on a complete-state element. */
  ghost predicate DependsOnComplete(u: Unit, i: nat)
    requires u.Valid()
  {
    && i < |u.elements| && u.elements[i].dependency.Some?
    && u.elements[u.elements[i].dependency.value.index].info.CompleteInfo?
  }

  /**
   A bundle may follow these writes: with an exact dependency the last base written is the one it names,
   otherwise it is not older. Without initial checks any bundle may come before the first base.
   */
  predicate MayFollow(written: seq<Flight>, b: Bundle, d: Dependency, requireInitialChecks: bool) {
    var base := VersionOf(LastOf(written, d.index));
    && b.Dependency().Some?
    && if base == Version(0, 0) && !requireInitialChecks then true
       else if d.exactMatch then b.Dependency().value == base
       else b.Dependency().value == base || base.NewerThan(b.Dependency().value)
  }

  /** Every write of the element came after what its dependency asks for. */
  ghost predicate FollowsBases(written: seq<Flight>, i: nat, d: Dependency, requireInitialChecks: bool) {
    forall n :: 0 <= n < |written| && written[n].priority == i ==>
      MayFollow(written[..n], written[n].bundle, d, requireInitialChecks)
  }

  ghost predicate Kept(s: State, i: nat, d: Dependency, requireInitialChecks: bool) {
    && Safe(s) && NoWorkLeft(s) && InOrder(s)
    && DependsOnComplete(s.unit, i) && s.unit.elements[i].dependency == Some(d)
    && s.unit.requireInitialChecks == requireInitialChecks
    && FollowsBases(s.written, i, d, requireInitialChecks) && Processed(s, d.index)
  }

  lemma FlightMayFollow(s: State, i: nat, d: Dependency, requireInitialChecks: bool)
    requires Kept(s, i, d, requireInitialChecks) && s.flights != [] && s.flights[0].priority == i
    ensures MayFollow(s.written, s.flights[0].bundle, d, requireInitialChecks)
  {
    var f := s.flights[0];
    assert f in s.flights && FlightHolds(s.unit, f) && DependencyHolds(s.unit, i, f.bundle);
    var base := s.unit.elements[d.index].lastProcessed;
    NewerThanIsStrictTotalOrder(base, f.bundle.Dependency().value, base);
    hide InFlight, NoWorkLeft, InOrder, LastOf;
  }

  lemma StepKeepsShape(s: State, step: Step, i: nat)
    requires Safe(s) && Enabled(s, step) && DependsOnComplete(s.unit, i)
    ensures var r := Next(s, step);
            && DependsOnComplete(r.unit, i) && r.unit.elements[i].dependency == s.unit.elements[i].dependency
            && r.unit.requireInitialChecks == s.unit.requireInitialChecks
  {
    if step.Report? {
      assert s.flights[step.flight] in s.flights;
    }
    hide InFlight, Stored, Reported, Dispatch, AnyReady;
  }

  lemma StepFollowsBases(s: State, step: Step, i: nat, d: Dependency, requireInitialChecks: bool)
    requires Kept(s, i, d, requireInitialChecks) && Enabled(s, step)
    ensures Kept(Next(s, step), i, d, requireInitialChecks)
  {
    hide InFlight, NoWorkLeft, InOrder, Next, Processed, MayFollow;
    var r := Next(s, step);
    StepIsSafe(s, step);
    StepIsInOrder(s, step);
    StepKeepsShape(s, step, i);
    StepKeepsProcessed(s, step, d.index);
    if step.Report? && step.success {
      ReportShape(s, true);
      var f := s.flights[0];
      assert r.written == s.written + [f];
      if f.priority == i {
        FlightMayFollow(s, i, d, requireInitialChecks);
      }
      assert forall n :: 0 <= n < |s.written| ==> r.written[..n] == s.written[..n] && r.written[n] == s.written[n];
      assert r.written[..|s.written|] == s.written;
    } else {
      NothingWritten(s, step, i);
    }
  }

  lemma {:induction false} EveryRunFollowsBases(s: State, steps: seq<Step>, i: nat, d: Dependency,
                                                requireInitialChecks: bool)
    requires Kept(s, i, d, requireInitialChecks) && RunEnabled(s, steps)
    ensures Kept(Run(s, steps), i, d, requireInitialChecks)
    decreases |steps|
  {
    hide Kept, Next;
    if steps != [] {
      KeptIsValid(s, i, d, requireInitialChecks);
      StepFollowsBases(s, steps[0], i, d, requireInitialChecks);
      EveryRunFollowsBases(Next(s, steps[0]), steps[1..], i, d, requireInitialChecks);
    }
  }

  lemma KeptIsValid(s: State, i: nat, d: Dependency, requireInitialChecks: bool)
    requires Kept(s, i, d, requireInitialChecks)
    ensures Valid(s) && FollowsBases(s.written, i, d, requireInitialChecks)
  {
  }

  lemma StartIsKept(s: State, i: nat)
    requires Initial(s) && DependsOnComplete(s.unit, i)
    ensures Kept(s, i, s.unit.elements[i].dependency.value, s.unit.requireInitialChecks)
  {
    InitialIsSafe(s);
  }

  /**
   In every interleaving from a new unit on, for every type that depends on a complete-state type:
   each bundle reported as processed came after what its dependency asks for.
   */
  lemma EveryWriteFollowsItsBase(s: State, steps: seq<Step>, i: nat)
    requires Initial(s) && RunEnabled(s, steps) && DependsOnComplete(s.unit, i)
    ensures FollowsBases(Run(s, steps).written, i, s.unit.elements[i].dependency.value, s.unit.requireInitialChecks)
  {
    hide Kept, Initial, Run, RunEnabled, FollowsBases;
    StartIsKept(s, i);
    KeptIsValid(s, i, s.unit.elements[i].dependency.value, s.unit.requireInitialChecks);
    EveryRunFollowsBases(s, steps, i, s.unit.elements[i].dependency.value, s.unit.requireInitialChecks);
    KeptIsValid(Run(s, steps), i, s.unit.elements[i].dependency.value, s.unit.requireInitialChecks);
  }
}
