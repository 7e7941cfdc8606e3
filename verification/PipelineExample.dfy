/**
 One run of the whole pipeline: a policy is reported, sent in full and as a complete bundle, and
 changes; the delta follows, and the conflation unit writes the three bundles as they arrive.
 */
module PipelineExample {
  import opened AgentState
  import opened Compliance
  import opened Conflation
  import opened ConflationLine
  import opened ConflationOrder
  import opened ConflationRuns
  import opened ConflationTable
  import opened EndToEnd
  import opened Options
  import opened PipelineRuns
  import opened Versions
  import opened ConflationProgress
  import ConflationStranding
  import SyncModes
  import Leaf = AgentRuns

  // ---------------------------------------------------------------- a bundle passes an idle unit

  /** Nothing is pending, queued or in process. */
  ghost predicate Quiet(s: State) {
    && Safe(s) && NoWorkLeft(s) && s.tickets == 0 && s.flights == [] && !s.unit.isInReadyQueue
    && forall j :: 0 <= j < |s.unit.elements| ==> s.unit.elements[j].info.bundle.None?
  }

  /** Only element `i` has a bundle, `b`, and the unit is queued for it. */
  ghost predicate Holds(s: State, i: nat, b: Bundle) {
    && Safe(s) && NoWorkLeft(s) && s.tickets == 1 && s.flights == [] && s.unit.isInReadyQueue && i < |s.unit.elements|
    && s.unit.elements[i].info.bundle == Some(b) && DependencyHolds(s.unit, i, b)
    && forall j :: 0 <= j < |s.unit.elements| && j != i ==> s.unit.elements[j].info.bundle.None?
  }

  /** Only element `i` is in process, with `b`, and nothing is pending. */
  ghost predicate Processes(s: State, i: nat, b: Bundle) {
    && Safe(s) && NoWorkLeft(s) && s.tickets == 0 && !s.unit.isInReadyQueue && i < |s.unit.elements|
    && |s.flights| == 1 && s.flights[0].priority == i && s.flights[0].bundle == b
    && s.unit.elements[i].info.meta == Some(s.flights[0].meta)
    && (s.unit.elements[i].info.CompleteInfo? ==> s.unit.elements[i].info.bundle == Some(b))
    && (s.unit.elements[i].info.DeltaInfo? ==> s.unit.elements[i].info.bundle.None?)
    && forall j :: 0 <= j < |s.unit.elements| && j != i ==> s.unit.elements[j].info.bundle.None?
  }

  /** What a step on element `i` leaves of the rest. */
  ghost predicate OnlyMoves(s: State, r: State, i: nat) {
    && |r.unit.elements| == |s.unit.elements| && r.unit.requireInitialChecks == s.unit.requireInitialChecks
    && (forall j :: 0 <= j < |s.unit.elements| ==> r.unit.elements[j].dependency == s.unit.elements[j].dependency
                                                   && (r.unit.elements[j].info.DeltaInfo? <==>
                                                       s.unit.elements[j].info.DeltaInfo?))
    && forall j :: 0 <= j < |s.unit.elements| && j != i ==>
         r.unit.elements[j].lastProcessed == s.unit.elements[j].lastProcessed
  }

  lemma BundleArrives(s: State, i: nat, b: Bundle, o: int)
    requires Quiet(s) && i < |s.unit.elements| && Accepts(s.unit, i, b) && DependencyHolds(s.unit, i, b)
    ensures var t := Next(s, Arrive(i, b, 0, o));
            && Holds(t, i, b) && t.written == s.written && OnlyMoves(s, t, i)
            && t.unit.elements[i].lastProcessed == s.unit.elements[i].lastProcessed
  {
    StepIsSafe(s, Arrive(i, b, 0, o));
    var u := Stored(s.unit, i, b, 0, o);
    assert u.elements[i].info.bundle == Some(b);
    assert !AnyInProcess(s.unit) && !AnyInProcess(u);
    ConflationProgress.IdleChain(u, i);
    assert Ready(u, i) && AnyReady(u);
    hide InFlight, NoWorkLeft;
  }

  lemma BundleIsDispatched(s: State, i: nat, b: Bundle)
    requires Holds(s, i, b)
    ensures var t := Next(s, GetNext);
            && Processes(t, i, b) && t.written == s.written && OnlyMoves(s, t, i)
            && t.unit.elements[i].lastProcessed == s.unit.elements[i].lastProcessed
  {
    StepIsSafe(s, GetNext);
    assert !AnyInProcess(s.unit);
    IdleChain(s.unit, i);
    assert Ready(s.unit, i) && forall j :: 0 <= j < i ==> !Ready(s.unit, j);
    assert NextReady(s.unit, 0) == Some(i);
    hide InFlight, NoWorkLeft, DependencyHolds;
  }

  lemma BundleIsWritten(s: State, i: nat, b: Bundle)
    requires Processes(s, i, b) && b.Version().NewerThan(s.unit.elements[i].lastProcessed)
    ensures var t := Next(s, Report(0, true));
            && Quiet(t) && t.written == s.written + s.flights && OnlyMoves(s, t, i)
            && t.unit.elements[i].lastProcessed == b.Version()
  {
    hide DependencyHolds, ChainInProcess;
    StepIsSafe(s, Report(0, true));
    var f := s.flights[0];
    assert f in s.flights && FlightHolds(s.unit, f);
    var u := Reported(s.unit, f.meta, true);
    assert forall j :: 0 <= j < |u.elements| ==> u.elements[j].info.bundle.None?;
    assert !AnyReady(u);
    assert s.flights == [f];
    hide InFlight, NoWorkLeft;
  }

  /** The bundle passes the unit: it arrives, is dispatched and is written. */
  lemma BundlePasses(s: State, i: nat, b: Bundle, o: int) returns (r: State, m: nat)
    requires Quiet(s) && i < |s.unit.elements| && Accepts(s.unit, i, b) && DependencyHolds(s.unit, i, b)
    ensures Leads(s, [Arrive(i, b, 0, o), GetNext, Report(0, true)], r)
    ensures Quiet(r) && OnlyMoves(s, r, i) && r.unit.elements[i].lastProcessed == b.Version()
    ensures r.written == s.written + [Flight(i, m, b)]
  {
    hide DependencyHolds, Next, InFlight, NoWorkLeft;
    BundleArrives(s, i, b, o);
    var s1 := Next(s, Arrive(i, b, 0, o));
    BundleIsDispatched(s1, i, b);
    var s2 := Next(s1, GetNext);
    BundleIsWritten(s2, i, b);
    r, m := Next(s2, Report(0, true)), s2.flights[0].meta;
    assert s2.flights == [Flight(i, m, b)];
    PassesBy(s, s1, s2, r, Arrive(i, b, 0, o));
  }

  lemma PassesBy(s: State, s1: State, s2: State, r: State, arrival: Step)
    requires Valid(s) && Enabled(s, arrival) && Next(s, arrival) == s1
    requires Valid(s1) && Enabled(s1, GetNext) && Next(s1, GetNext) == s2
    requires Valid(s2) && Enabled(s2, Report(0, true)) && Next(s2, Report(0, true)) == r
    ensures Leads(s, [arrival, GetNext, Report(0, true)], r)
  {
    hide Next;
    assert Leads(r, [], r);
    LeadsBy(s2, Report(0, true), [], r);
    LeadsBy(s1, GetNext, [Report(0, true)] + [], r);
    LeadsBy(s, arrival, [GetNext] + ([Report(0, true)] + []), r);
    assert [arrival, GetNext, Report(0, true)] == [arrival] + ([GetNext] + ([Report(0, true)] + []));
  }

  lemma {:induction false} LeadsConcat(s: State, a: seq<Step>, t: State, b: seq<Step>, r: State)
    requires Leads(s, a, t) && Leads(t, b, r)
    ensures Leads(s, a + b, r)
    decreases |a|
  {
    hide Next;
    if a == [] {
      assert a + b == b;
    } else {
      LeadsConcat(Next(s, a[0]), a[1..], t, b, r);
      LeadsBy(s, a[0], a[1..] + b, r);
      assert a + b == [a[0]] + (a[1..] + b);
    }
  }

  // ---------------------------------------------------------------- the agent's side

  const SENDING: seq<Leaf.Step> :=
    [Leaf.Update(SyncModes.POLICY, SyncModes.ONE), Leaf.SyncFull, Leaf.SyncComplete(true),
     Leaf.Update(SyncModes.POLICY, SyncModes.OTHER), Leaf.SyncDelta(true)]

  const START := SyncModes.Start(2)
  const BEFORE: PolicyMap := map[SyncModes.POLICY := SyncModes.ONE]
  const AFTER: PolicyMap := map[SyncModes.POLICY := SyncModes.OTHER]

  const REPORTED := Agent(0, 2, Full(BEFORE, 1), Complete(BEFORE, 1), Changes(map[], BEFORE, BEFORE, 0, 0, 0),
                          Hybrid(CompleteState, 0), 0, 0, 0)
  const SENT_FULL := REPORTED.(sentFull := 1)
  const SENT_COMPLETE := SENT_FULL.(delta := Changes(map[], BEFORE, BEFORE, 1, 0, 0), hybrid := Hybrid(DeltaState, 0),
                                    sentComplete := 1)
  const CHANGED := SENT_COMPLETE.(full := Full(AFTER, 1), complete := Complete(AFTER, 2),
                                  delta := Changes(AFTER, AFTER, BEFORE, 1, 1, 0))
  const SENT_DELTA := CHANGED.(delta := Changes(map[], AFTER, AFTER, 1, 1, 1), hybrid := Hybrid(DeltaState, 1),
                               sentDelta := 1)

  const V := Version(0, 1)
  const DELTA := Leaf.DeltaNow(CHANGED)
  const MESSAGES := [Leaf.FullMessage(V, BEFORE), Leaf.CompleteMessage(V, V, BEFORE), Leaf.DeltaMessage(DELTA)]

  lemma AgentSends()
    ensures Leaf.Next(START, SENDING[0]) == REPORTED && Leaf.Sent(START, SENDING[0]) == []
    ensures Leaf.Next(REPORTED, SENDING[1]) == SENT_FULL && Leaf.Sent(REPORTED, SENDING[1]) == [MESSAGES[0]]
    ensures Leaf.Next(SENT_FULL, SENDING[2]) == SENT_COMPLETE && Leaf.Sent(SENT_FULL, SENDING[2]) == [MESSAGES[1]]
  {
    SyncModes.Listed();
    hide NotCompliant, Changed, Flatten;
  }

  lemma AgentSendsChange()
    ensures Leaf.Next(SENT_COMPLETE, SENDING[3]) == CHANGED && Leaf.Sent(SENT_COMPLETE, SENDING[3]) == []
    ensures Leaf.Next(CHANGED, SENDING[4]) == SENT_DELTA && Leaf.Sent(CHANGED, SENDING[4]) == [MESSAGES[2]]
  {
    SyncModes.Listed();
    hide NotCompliant, Changed, Flatten;
    assert SyncModes.ONE + SyncModes.OTHER == SyncModes.OTHER && map[] + SyncModes.OTHER == SyncModes.OTHER;
  }

  lemma AgentRunsToComplete()
    ensures Leaf.Run(START, SENDING[..3]) == SENT_COMPLETE && Leaf.AllSent(START, SENDING[..3]) == MESSAGES[..2]
  {
    hide Leaf.Run, Leaf.AllSent, Leaf.Next, Leaf.Sent;
    AgentSends();
    SyncModes.TwoSteps(START, SENDING[0], SENDING[1]);
    Leaf.RunSnoc(START, [SENDING[0], SENDING[1]], SENDING[2]);
    assert SENDING[..3] == [SENDING[0], SENDING[1]] + [SENDING[2]];
    assert MESSAGES[..2] == [] + [MESSAGES[0]] + [MESSAGES[1]];
  }

  lemma AgentRuns()
    ensures Leaf.Initial(START) && Leaf.Run(START, SENDING) == SENT_DELTA && Leaf.AllSent(START, SENDING) == MESSAGES
  {
    hide Leaf.Run, Leaf.AllSent, Leaf.Next, Leaf.Sent;
    AgentRunsToComplete();
    AgentSendsChange();
    SyncModes.TwoSteps(SENT_COMPLETE, SENDING[3], SENDING[4]);
    RunConcat(START, SENDING[..3], [SENDING[3], SENDING[4]]);
    assert SENDING == SENDING[..3] + [SENDING[3], SENDING[4]];
    assert MESSAGES == MESSAGES[..2] + ([] + [MESSAGES[2]]);
  }

  // ---------------------------------------------------------------- the unit's side

  const TYPES := Types(0, 1, 2)
  const FULL := StateBundle(V, None)
  const COMPLETE := StateBundle(V, Some(V))

  function Passing(i: nat, b: Bundle, o: int): seq<Step> {
    [Arrive(i, b, 0, o), GetNext, Report(0, true)]
  }

  const WORK: seq<Step> := Passing(0, FULL, 0) + (Passing(1, COMPLETE, 1) + Passing(2, DeltaBundle(DELTA), 2))

  lemma UnitRuns() returns (r: State, m0: nat, m1: nat, m2: nat)
    ensures Initial(ConflationStranding.CHAIN) && Wired(ConflationStranding.CHAIN.unit, TYPES)
    ensures Leads(ConflationStranding.CHAIN, WORK, r) && Quiet(r)
    ensures r.written == [Flight(0, m0, FULL), Flight(1, m1, COMPLETE), Flight(2, m2, DeltaBundle(DELTA))]
  {
    hide Next, Leads, InFlight, NoWorkLeft, Flatten;
    var s := ConflationStranding.CHAIN;
    ChainIsQuiet();
    var s1, s2;
    s1, m0 := BundlePasses(s, 0, FULL, 0);
    s2, m1 := BundlePasses(s1, 1, COMPLETE, 1);
    r, m2 := BundlePasses(s2, 2, DeltaBundle(DELTA), 2);
    LeadsConcat(s1, Passing(1, COMPLETE, 1), s2, Passing(2, DeltaBundle(DELTA), 2), r);
    LeadsConcat(s, Passing(0, FULL, 0), s1, Passing(1, COMPLETE, 1) + Passing(2, DeltaBundle(DELTA), 2), r);
  }

  lemma ChainIsQuiet()
    ensures Quiet(ConflationStranding.CHAIN)
  {
    InitialIsSafe(ConflationStranding.CHAIN);
  }

  // ---------------------------------------------------------------- both

  lemma {:induction false} SuccessesAreQuiet(s: State, steps: seq<Step>, i: nat)
    requires Valid(s) && RunEnabled(s, steps) && i < |s.unit.elements|
    requires forall n :: 0 <= n < |steps| && steps[n].Report? ==> steps[n].success
    ensures QuietFailures(s, steps, i)
    decreases |steps|
  {
    hide Next;
    if steps != [] {
      NextKeepsElements(s, steps[0]);
      SuccessesAreQuiet(Next(s, steps[0]), steps[1..], i);
    }
  }

  lemma NextKeepsElements(s: State, step: Step)
    requires Valid(s) && Enabled(s, step)
    ensures |Next(s, step).unit.elements| == |s.unit.elements|
  {
  }

  lemma WorkOffers()
    ensures Offers(WORK, 2) == [DELTA] && DeltasIn(MESSAGES) == [DELTA] && Offers(WORK[..3], 2) == []
  {
    hide Flatten;
    OffersConcat(Passing(0, FULL, 0), Passing(1, COMPLETE, 1) + Passing(2, DeltaBundle(DELTA), 2), 2);
    OffersConcat(Passing(1, COMPLETE, 1), Passing(2, DeltaBundle(DELTA), 2), 2);
    OffersOfOne(0, FULL, 0);
    OffersOfOne(1, COMPLETE, 1);
    OffersOfOne(2, DeltaBundle(DELTA), 2);
    assert WORK[..3] == Passing(0, FULL, 0);
    assert MESSAGES == ([MESSAGES[0]] + [MESSAGES[1]]) + [MESSAGES[2]];
    DeltasInConcat([MESSAGES[0]] + [MESSAGES[1]], [MESSAGES[2]]);
    DeltasInConcat([MESSAGES[0]], [MESSAGES[1]]);
    DeltasInOne(MESSAGES[0]);
    DeltasInOne(MESSAGES[1]);
    DeltasInOne(MESSAGES[2]);
  }

  lemma OffersOfOne(i: nat, b: Bundle, o: int)
    ensures Offers(Passing(i, b, o), 2) == if i == 2 && b.DeltaBundle? then [b.delta] else []
  {
    var work := Passing(i, b, o);
    assert work[1..] == [GetNext, Report(0, true)] && work[1..][1..] == [Report(0, true)] && work[1..][1..][1..] == [];
    assert Offers(work[1..][1..], 2) == Offers([], 2) == [];
  }

  lemma DeltasInOne(m: Leaf.Message)
    ensures DeltasIn([m]) == if m.DeltaMessage? then [m.delta] else []
  {
    assert [m][..0] == [] && DeltasIn([]) == [];
  }

  lemma WorkIsDelivered()
    ensures Delivered(WORK, TYPES, MESSAGES, 0) && KeepsOrder(WORK, TYPES, MESSAGES, V, V, 0, 3, 1)
  {
    hide Flatten, Offers, DeltasIn;
    WorkOffers();
    assert MESSAGES[0] in MESSAGES && MESSAGES[1] in MESSAGES;
    assert IsFull(FULL, MESSAGES) && IsComplete(COMPLETE, MESSAGES);
    assert Brings(WORK[0], 0, V) && Brings(WORK[3], 1, V);
    assert forall n :: 0 <= n < |WORK| && WORK[n].Arrive? && WORK[n].priority == 0 ==> n == 0;
    assert forall n :: 0 <= n < |WORK| && WORK[n].Arrive? && WORK[n].priority == 1 ==> n == 3;
  }

  /** The run meets all that the theorem on every interleaving asks for, and its table is what is live. */
  lemma TableIsLive(t: Table) returns (x: Contents, r: State)
    ensures Leaf.Initial(START) && Describes(x, Leaf.AllSent(START, SENDING))
    ensures Initial(ConflationStranding.CHAIN) && Leads(ConflationStranding.CHAIN, WORK, r)
    ensures Delivered(WORK, TYPES, Leaf.AllSent(START, SENDING), 0)
    ensures KeepsOrder(WORK, TYPES, Leaf.AllSent(START, SENDING), V, V, 0, 3, 1)
    ensures |r.written| == 3 && TableOf(r.written, t, TYPES, x) == Live(Leaf.Run(START, SENDING))
  {
    hide Next, Run, Leaf.Run, Leaf.AllSent, Leaf.Sent, InFlight, NoWorkLeft, Flatten, Delivered, KeepsOrder, Describes;
    var s := ConflationStranding.CHAIN;
    AgentRuns();
    x := ContentsExist(START, SENDING);
    WorkIsDelivered();
    var m0, m1, m2;
    r, m0, m1, m2 := UnitRuns();
    WrittenLast(r.written, Flight(0, m0, FULL), Flight(1, m1, COMPLETE), Flight(2, m2, DeltaBundle(DELTA)));
    SuccessesAreQuiet(s, WORK, 2);
    TableInEveryInterleaving(START, SENDING, s, WORK, TYPES, x, t, FULL, COMPLETE, 0, 3, 1);
    hide TableOf;
  }

  lemma WrittenLast(written: seq<Flight>, f: Flight, g: Flight, h: Flight)
    requires written == [f, g, h] && f.priority == 0 && g.priority == 1 && h.priority == 2
    ensures LastOf(written, 0) == Some(f.bundle) && LastOf(written, 1) == Some(g.bundle)
  {
    assert written[..2] == [f, g] && [f, g][..1] == [f];
    assert LastOf([f, g], 1) == Some(g.bundle) && LastOf([f], 0) == Some(f.bundle);
    assert LastOf([f, g], 0) == LastOf([f], 0);
  }

  // ---------------------------------------------------------------- a delta that overtakes its complete bundle

  /**
   One partition keeps the order of what is produced unless a failed message is produced again later.
   Here that puts the complete bundle behind its delta, which is written first: no complete bundle
   was processed yet.
   */
  const OVERTAKING: seq<Step> := Passing(2, DeltaBundle(DELTA), 0) + (Passing(0, FULL, 1) + Passing(1, COMPLETE, 2))

  lemma UnitRunsOvertaken() returns (r: State, m0: nat, m1: nat, m2: nat)
    ensures Leads(ConflationStranding.CHAIN, OVERTAKING, r)
    ensures r.written == [Flight(2, m2, DeltaBundle(DELTA)), Flight(0, m0, FULL), Flight(1, m1, COMPLETE)]
  {
    hide Next, Leads, InFlight, NoWorkLeft, Flatten;
    var s := ConflationStranding.CHAIN;
    ChainIsQuiet();
    var s1, s2;
    s1, m2 := BundlePasses(s, 2, DeltaBundle(DELTA), 0);
    s2, m0 := BundlePasses(s1, 0, FULL, 1);
    r, m1 := BundlePasses(s2, 1, COMPLETE, 2);
    LeadsConcat(s1, Passing(0, FULL, 1), s2, Passing(1, COMPLETE, 2), r);
    LeadsConcat(s, Passing(2, DeltaBundle(DELTA), 0), s1, Passing(0, FULL, 1) + Passing(1, COMPLETE, 2), r);
  }

  lemma TableOfOvertaken(written: seq<Flight>, t: Table, x: Contents, f: Flight, g: Flight, h: Flight)
    requires written == [f, g, h] && f.priority == 2 && g.priority == 0 && h.priority == 1
    ensures TableOf(written, t, TYPES, x) == Implied(x.full(g.bundle.Version()), x.listed(h.bundle.Version()))
  {
    assert written[..2] == [f, g];
  }

  lemma MessagesDescribed(x: Contents)
    requires Describes(x, MESSAGES)
    ensures x.full(V) == Flatten(BEFORE) && x.listed(V) == Flatten(BEFORE)
  {
    assert MESSAGES[0] in MESSAGES && MESSAGES[1] in MESSAGES;
    hide Flatten;
  }

  lemma ChangeShows()
    ensures Flatten(AFTER) != Flatten(BEFORE)
  {
    SyncModes.Listed();
    SyncModes.PutDiffersIff(BEFORE, SyncModes.POLICY, SyncModes.OTHER);
    assert BEFORE[SyncModes.POLICY := SyncModes.OTHER] == AFTER;
    hide Flatten;
  }

  /** All three bundles are written, and the change that the delta brought is lost: the order of arrival matters. */
  lemma OvertakingDeltaIsLost(t: Table) returns (x: Contents, r: State)
    ensures Leaf.Initial(START) && Describes(x, Leaf.AllSent(START, SENDING))
    ensures Leads(ConflationStranding.CHAIN, OVERTAKING, r) && |r.written| == 3
    ensures TableOf(r.written, t, TYPES, x) == Flatten(BEFORE) != Live(Leaf.Run(START, SENDING))
  {
    hide Leaf.Run, Leaf.AllSent, Flatten, Leads, Describes, TableOf, Implied;
    AgentRuns();
    x := ContentsExist(START, SENDING);
    MessagesDescribed(x);
    var m0, m1, m2;
    r, m0, m1, m2 := UnitRunsOvertaken();
    TableOfOvertaken(r.written, t, x, Flight(2, m2, DeltaBundle(DELTA)), Flight(0, m0, FULL), Flight(1, m1, COMPLETE));
    ImpliedByItself(Flatten(BEFORE));
    ChangeShows();
  }

  lemma ImpliedByItself(t: Table)
    ensures Implied(t, t) == t
  {
  }
}
