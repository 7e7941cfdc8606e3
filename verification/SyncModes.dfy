/**
 The two modes of the hybrid sync manager: what holds between switches, and what the
 transport's delayed reports can do.
 */
module SyncModes {
  import opened AgentRuns
  import opened AgentState
  import opened Compliance
  import opened DeltaMerge
  import opened EndToEnd
  import opened Versions

  // ---------------------------------------------------------------- between two switches

  /** The manager is in delta mode before and after each of these steps. */
  ghost predicate StaysInDeltaMode(a: Agent, steps: seq<Step>) {
    forall k :: 0 <= k <= |steps| ==> Run(a, steps[..k]).hybrid.mode == DeltaState
  }

  lemma StepBetweenSwitches(a: Agent, step: Step)
    requires a.hybrid.mode == DeltaState && Next(a, step).hybrid.mode == DeltaState
    ensures Next(a, step).delta.base == a.delta.base
    ensures Next(a, step).hybrid.sentDeltas ==
            a.hybrid.sentDeltas + |DeltasOn(Sent(a, step), Version(a.incarnation, a.delta.base))|
    ensures forall m :: m in Sent(a, step) && m.DeltaMessage? ==> m.delta.base == Version(a.incarnation, a.delta.base)
  {
    if step.SyncDelta? {
      OneDelta(DeltaNow(a), Version(a.incarnation, a.delta.base));
    } else {
      NoDeltaSent(a, step, Version(a.incarnation, a.delta.base));
    }
    hide DeltasOn, Flatten;
  }

  /**
   Between two switches all deltas carry the complete bundle's generation read at the first,
   even if that bundle has moved on, and fewer than the switch factor are sent.
   */
  lemma {:induction false} LineKeepsItsBase(a: Agent, steps: seq<Step>)
    requires Inv(a) && StaysInDeltaMode(a, steps)
    ensures Run(a, steps).delta.base == a.delta.base && Run(a, steps).incarnation == a.incarnation
    ensures forall m :: m in AllSent(a, steps) && m.DeltaMessage? ==>
            m.delta.base == Version(a.incarnation, a.delta.base)
    ensures a.hybrid.sentDeltas + |DeltasOn(AllSent(a, steps), Version(a.incarnation, a.delta.base))|
            == Run(a, steps).hybrid.sentDeltas < a.factor
    decreases |steps|
  {
    EveryRunKeepsInv(a, steps);
    assert steps[..|steps|] == steps;
    SameFactor(a, steps);
    if steps != [] {
      var front, last, base := steps[..|steps| - 1], steps[|steps| - 1], Version(a.incarnation, a.delta.base);
      assert forall k :: 0 <= k <= |front| ==> front[..k] == steps[..k];
      LineKeepsItsBase(a, front);
      StepBetweenSwitches(Run(a, front), last);
      FullGenerationCounts(Run(a, front), last);
      DeltasOnConcat(AllSent(a, front), Sent(Run(a, front), last), base);
      hide Inv, Next, Sent, DeltasOn;
    }
  }

  /**
   From a switch on, until the next one, every delta carries the complete bundle's generation at
   that switch, and the number of deltas is the manager's count, below the factor.
   */
  lemma LineCarriesSwitchGeneration(a: Agent, step: Step, steps: seq<Step>)
    requires Inv(a) && a.hybrid.mode == CompleteState
    requires Next(a, step).hybrid.mode == DeltaState && StaysInDeltaMode(Next(a, step), steps)
    ensures var base, sent := Version(a.incarnation, a.complete.generation), AllSent(Next(a, step), steps);
            && (forall m :: m in sent && m.DeltaMessage? ==> m.delta.base == base)
            && |DeltasOn(sent, base)| == Run(Next(a, step), steps).hybrid.sentDeltas < a.factor
  {
    hide Inv, Next, DeltasOn, AllSent, Run, StaysInDeltaMode;
    StepKeepsInv(a, step);
    SwitchShape(a, step);
    LineKeepsItsBase(Next(a, step), steps);
  }

  lemma SwitchShape(a: Agent, step: Step)
    requires a.hybrid.mode == CompleteState && Next(a, step).hybrid.mode == DeltaState
    ensures var n := Next(a, step);
            && n.delta.base == a.complete.generation && n.hybrid.sentDeltas == 0
            && n.factor == a.factor && n.incarnation == a.incarnation
  {
    hide Flatten;
  }

  lemma {:induction false} SameFactor(a: Agent, steps: seq<Step>)
    ensures Run(a, steps).factor == a.factor
    decreases |steps|
  {
    if steps != [] {
      SameFactor(a, steps[..|steps| - 1]);
    }
  }

  // ---------------------------------------------------------------- delivery reports

  ghost predicate CompleteWasSent(messages: seq<Message>, version: Version) {
    exists m :: m in messages && m.CompleteMessage? && m.version == version
  }

  /** The generation of the complete bundle that the transport took last, zero if it took none. */
  function LastHandedOver(a: Agent, steps: seq<Step>): nat
    decreases |steps|
  {
    if steps == [] then 0
    else
      var front, last := steps[..|steps| - 1], steps[|steps| - 1];
      if last == SyncComplete(true) && SendsComplete(Run(a, front)) then Run(a, front).complete.generation
      else LastHandedOver(a, front)
  }

  /** What was handed over last is the newest complete bundle among the messages. */
  ghost predicate Recorded(a: Agent, last: nat, messages: seq<Message>) {
    && last <= a.sentComplete <= a.complete.generation
    && (last > 0 ==> CompleteWasSent(messages, Version(a.incarnation, last)))
    && forall m :: m in messages && m.CompleteMessage? ==>
         m.version.incarnation == a.incarnation && 0 < m.version.generation <= last
  }

  lemma StepKeepsRecorded(a: Agent, step: Step, last: nat, messages: seq<Message>)
    requires Recorded(a, last, messages)
    ensures Recorded(Next(a, step),
                     if step == SyncComplete(true) && SendsComplete(a) then a.complete.generation else last,
                     messages + Sent(a, step))
  {
    var all := messages + Sent(a, step);
    assert forall m :: m in messages ==> m in all;
    FullGenerationCounts(a, step);
    if step.SyncComplete? && SendsComplete(a) {
      SyncKeepsComplete(a, step);
      if step.handedOver {
        assert CompleteNow(a) in all;
      }
    }
    hide SwitchToDelta, Flatten;
  }

  lemma {:induction false} EveryRunIsRecorded(start: Agent, steps: seq<Step>)
    requires Initial(start)
    ensures Recorded(Run(start, steps), LastHandedOver(start, steps), AllSent(start, steps))
    decreases |steps|
  {
    if steps != [] {
      var front, last := steps[..|steps| - 1], steps[|steps| - 1];
      EveryRunIsRecorded(start, front);
      StepKeepsRecorded(Run(start, front), last, LastHandedOver(start, front), AllSent(start, front));
      hide Next, Sent, Recorded;
    }
  }

  lemma RecordedBase(a: Agent, last: nat, messages: seq<Message>)
    requires Recorded(a, last, messages) && a.hybrid.mode == CompleteState
    ensures var n := Next(a, DeliverySuccess);
            && n.hybrid.mode == DeltaState && n.delta.base == a.complete.generation
            && (CompleteWasSent(messages, Version(a.incarnation, a.complete.generation)) <==>
                0 < a.complete.generation == last)
  {
  }

  /**
   A success report in complete mode starts a line of deltas at once. In every run its base is a
   complete bundle that was sent exactly when the transport took one and it has not changed since;
   otherwise the global hub holds these deltas back for a bundle it may never get.
   */
  lemma SuccessNamesSentBundleIff(start: Agent, steps: seq<Step>)
    requires Initial(start) && Run(start, steps).hybrid.mode == CompleteState
    ensures var a := Run(start, steps);
            var n := Next(a, DeliverySuccess);
            && n.hybrid.mode == DeltaState
            && (CompleteWasSent(AllSent(start, steps), Version(a.incarnation, n.delta.base)) <==>
                0 < a.complete.generation == LastHandedOver(start, steps))
  {
    hide Run, AllSent, Next, CompleteWasSent, Recorded, LastHandedOver;
    EveryRunIsRecorded(start, steps);
    RecordedBase(Run(start, steps), LastHandedOver(start, steps), AllSent(start, steps));
  }

  /** Every success report in complete mode finds the complete bundle as it was handed over last. */
  ghost predicate Guarded(start: Agent, steps: seq<Step>) {
    forall k ::
      0 <= k < |steps| && steps[k] == DeliverySuccess && Run(start, steps[..k]).hybrid.mode == CompleteState ==>
      0 < Run(start, steps[..k]).complete.generation == LastHandedOver(start, steps[..k])
  }

  ghost predicate BasesWereSent(a: Agent, messages: seq<Message>) {
    && (a.hybrid.mode == DeltaState ==> CompleteWasSent(messages, Version(a.incarnation, a.delta.base)))
    && forall i :: 0 <= i < |messages| && messages[i].DeltaMessage? ==>
         CompleteWasSent(messages[..i], messages[i].delta.base)
  }

  lemma SentBefore(messages: seq<Message>, more: seq<Message>, version: Version)
    requires CompleteWasSent(messages, version)
    ensures CompleteWasSent(messages + more, version)
  {
    var m :| m in messages && m.CompleteMessage? && m.version == version;
    assert m in messages + more;
  }

  lemma StepKeepsBases(a: Agent, step: Step, messages: seq<Message>)
    requires BasesWereSent(a, messages)
    requires step == DeliverySuccess && a.hybrid.mode == CompleteState ==>
      CompleteWasSent(messages, Version(a.incarnation, a.complete.generation))
    ensures BasesWereSent(Next(a, step), messages + Sent(a, step))
  {
    var n, sent := Next(a, step), Sent(a, step);
    var all := messages + sent;
    hide Flatten;
    if n.hybrid.mode == DeltaState {
      if a.hybrid.mode == DeltaState {
        StepBetweenSwitches(a, step);
        SentBefore(messages, sent, Version(a.incarnation, a.delta.base));
      } else if step == DeliverySuccess {
        SentBefore(messages, sent, Version(a.incarnation, a.complete.generation));
      } else {
        assert CompleteNow(a) in all;
      }
    }
    forall i | 0 <= i < |all| && all[i].DeltaMessage?
      ensures CompleteWasSent(all[..i], all[i].delta.base)
    {
      if i < |messages| {
        assert all[..i] == messages[..i];
      } else {
        assert all[..i] == messages;
      }
    }
  }

  /** In a guarded run every delta names a complete bundle that was sent before it. */
  lemma {:induction false} GuardedRunsNameSentBundles(start: Agent, steps: seq<Step>)
    requires Initial(start) && Guarded(start, steps)
    ensures BasesWereSent(Run(start, steps), AllSent(start, steps))
    decreases |steps|
  {
    if steps != [] {
      var front, last := steps[..|steps| - 1], steps[|steps| - 1];
      assert forall k :: 0 <= k < |front| ==> front[..k] == steps[..k];
      GuardedRunsNameSentBundles(start, front);
      EveryRunIsRecorded(start, front);
      if last == DeliverySuccess && Run(start, front).hybrid.mode == CompleteState {
        RecordedBase(Run(start, front), LastHandedOver(start, front), AllSent(start, front));
      }
      StepKeepsBases(Run(start, front), last, AllSent(start, front));
      hide Next, Sent, BasesWereSent, Recorded;
    }
  }

  // ---------------------------------------------------------------- two runs that start deltas on nothing

  const POLICY := "p"
  const ONE: Statuses := map["c" := NonCompliant]
  const OTHER: Statuses := map["c" := Unknown]

  /**
   The complete bundle is sent and changes; one delta is the last before the switch back. The report on
   the complete bundle is still to come.
   */
  const OVERTAKEN: seq<Step> := [Update(POLICY, ONE), SyncComplete(true), Update(POLICY, OTHER), SyncDelta(true)]

  /** After that, the transport refuses the changed complete bundle. */
  const REFUSED: seq<Step> := OVERTAKEN + [SyncComplete(false)]

  function Start(factor: nat): Agent {
    Agent(0, factor, Full(map[], 0), Complete(map[], 0), Changes(map[], map[], map[], 0, 0, 0),
          Hybrid(CompleteState, 0), 0, 0, 0)
  }

  lemma Listed()
    ensures NotCompliant(ONE) == ONE != map[] && NotCompliant(OTHER) == OTHER != map[] && ONE != OTHER
    ensures Changed(ONE, OTHER) == OTHER
  {
    assert "c" in ONE && "c" in OTHER && ONE["c"] != OTHER["c"];
  }

  lemma TwoSteps(a: Agent, s: Step, t: Step)
    ensures Run(a, [s, t]) == Next(Next(a, s), t) && AllSent(a, [s, t]) == Sent(a, s) + Sent(Next(a, s), t)
  {
    hide Run, AllSent, Next, Sent;
    var one := [s];
    assert one == [] + [s] && [s, t] == one + [t];
    RunNothing(a);
    RunSnoc(a, [], s);
    RunSnoc(a, one, t);
  }

  /** The agent after one policy was reported. */
  const REPORTED := Agent(0, 1, Full(map[POLICY := ONE], 1), Complete(map[POLICY := ONE], 1),
                          Changes(map[], map[POLICY := ONE], map[POLICY := ONE], 0, 0, 0),
                          Hybrid(CompleteState, 0), 0, 0, 0)

  /** Its complete bundle was taken, and deltas are based on it. */
  const TAKEN := REPORTED.(delta := REPORTED.delta.(base := 1), hybrid := Hybrid(DeltaState, 0), sentComplete := 1)

  /** The policy changed, and one delta was the last before the switch. */
  const CHANGED := TAKEN.(full := Full(map[POLICY := OTHER], 1), complete := Complete(map[POLICY := OTHER], 2),
                          delta := TAKEN.delta.(pending := map[POLICY := OTHER], records := map[POLICY := OTHER],
                                                generation := 1))
  const SWITCHED := CHANGED.(hybrid := Hybrid(CompleteState, 1), sentDelta := 1)

  lemma FirstHalf()
    ensures Next(Start(1), OVERTAKEN[0]) == REPORTED && Sent(Start(1), OVERTAKEN[0]) == []
    ensures Next(REPORTED, OVERTAKEN[1]) == TAKEN && Sent(REPORTED, OVERTAKEN[1]) == [CompleteNow(REPORTED)]
  {
    Listed();
    hide NotCompliant, Changed;
  }

  lemma SecondHalf()
    ensures Next(TAKEN, OVERTAKEN[2]) == CHANGED && Sent(TAKEN, OVERTAKEN[2]) == []
    ensures Next(CHANGED, OVERTAKEN[3]) == SWITCHED && Sent(CHANGED, OVERTAKEN[3]) == [DeltaMessage(DeltaNow(CHANGED))]
  {
    Listed();
    hide NotCompliant, Changed, Flatten;
    assert ONE + OTHER == OTHER && map[] + OTHER == OTHER;
  }

  lemma OvertakenRun() returns (m: Message, d: Message)
    ensures Run(Start(1), OVERTAKEN) == SWITCHED && AllSent(Start(1), OVERTAKEN) == [m, d]
    ensures m.CompleteMessage? && m.version == Version(0, 1) && !d.CompleteMessage?
    ensures SWITCHED.hybrid.mode == CompleteState && SWITCHED.sentComplete == 1 && SWITCHED.complete.generation == 2
  {
    hide Run, AllSent, Sent, Next;
    m, d := CompleteNow(REPORTED), DeltaMessage(DeltaNow(CHANGED));
    var s := OVERTAKEN;
    FirstHalf();
    SecondHalf();
    TwoSteps(Start(1), s[0], s[1]);
    TwoSteps(TAKEN, s[2], s[3]);
    RunConcat(Start(1), [s[0], s[1]], [s[2], s[3]]);
    assert s == [s[0], s[1]] + [s[2], s[3]];
  }

  lemma SuccessTakesGeneration(a: Agent)
    requires a.hybrid.mode == CompleteState
    ensures Next(a, DeliverySuccess).delta.base == a.complete.generation
  {
  }

  lemma OnlyOneWasSent(m: Message, d: Message)
    requires m.CompleteMessage? && !d.CompleteMessage?
    ensures forall version :: CompleteWasSent([m, d], version) <==> m.version == version
    ensures CompletesIn([m, d]) == 1
  {
    assert [m, d][0] == m;
    CompletesSnoc([], m);
    CompletesSnoc([m], d);
    assert [] + [m] == [m] && [m] + [d] == [m, d];
  }

  // ---------------------------------------------------------------- reports on messages that were sent

  function CompletesIn(messages: seq<Message>): nat
    decreases |messages|
  {
    if messages == [] then 0
    else CompletesIn(messages[..|messages| - 1]) + if messages[|messages| - 1].CompleteMessage? then 1 else 0
  }

  lemma CompletesSnoc(messages: seq<Message>, m: Message)
    ensures CompletesIn([]) == 0
    ensures CompletesIn(messages + [m]) == CompletesIn(messages) + if m.CompleteMessage? then 1 else 0
  {
    assert (messages + [m])[..|messages|] == messages;
  }

  function ReportsIn(steps: seq<Step>): nat
    decreases |steps|
  {
    if steps == [] then 0
    else
      var last := steps[|steps| - 1];
      ReportsIn(steps[..|steps| - 1]) + if last.DeliverySuccess? || last.DeliveryFailure? then 1 else 0
  }

  /**
   Reports reach the manager under the key of the complete bundle only, once for each message that was
   handed over: every report is on a complete bundle that was sent before and not reported yet.
   */
  predicate RealReports(start: Agent, steps: seq<Step>)
    decreases |steps|
  {
    steps == [] ||
    (var front, last := steps[..|steps| - 1], steps[|steps| - 1];
     && RealReports(start, front)
     && (last.DeliverySuccess? || last.DeliveryFailure? ==> ReportsIn(front) < CompletesIn(AllSent(start, front))))
  }

  /** Without reports so far, the first one is real once a complete bundle was sent. */
  lemma {:induction false} NoReportsAreReal(start: Agent, steps: seq<Step>)
    requires forall i :: 0 <= i < |steps| ==> !steps[i].DeliverySuccess? && !steps[i].DeliveryFailure?
    ensures ReportsIn(steps) == 0 && RealReports(start, steps)
    decreases |steps|
  {
    hide AllSent;
    if steps != [] {
      NoReportsAreReal(start, steps[..|steps| - 1]);
    }
  }

  lemma FirstReportIsReal(start: Agent, steps: seq<Step>)
    requires forall i :: 0 <= i < |steps| ==> !steps[i].DeliverySuccess? && !steps[i].DeliveryFailure?
    requires CompletesIn(AllSent(start, steps)) > 0
    ensures RealReports(start, steps + [DeliverySuccess])
  {
    hide AllSent, CompletesIn;
    NoReportsAreReal(start, steps);
    assert (steps + [DeliverySuccess])[..|steps|] == steps;
  }

  /** The bundle changed after it was sent, so its late success starts deltas on a generation never sent. */
  lemma OvertakenBundleStartsDeltas()
    ensures Initial(Start(1)) && RealReports(Start(1), OVERTAKEN + [DeliverySuccess])
    ensures var a := Run(Start(1), OVERTAKEN);
            && a.hybrid.mode == CompleteState && 0 < LastHandedOver(Start(1), OVERTAKEN) < a.complete.generation
            && CompleteWasSent(AllSent(Start(1), OVERTAKEN), Version(a.incarnation, a.sentComplete))
            && !CompleteWasSent(AllSent(Start(1), OVERTAKEN),
                                Version(a.incarnation, Next(a, DeliverySuccess).delta.base))
  {
    hide Run, AllSent, Next, CompleteWasSent, CompletesIn, LastHandedOver;
    var m, d := OvertakenRun();
    OnlyOneWasSent(m, d);
    SuccessTakesGeneration(SWITCHED);
    FirstReportIsReal(Start(1), OVERTAKEN);
    LastWasTaken(OVERTAKEN, m, d);
  }

  lemma LastWasTaken(steps: seq<Step>, m: Message, d: Message)
    requires AllSent(Start(1), steps) == [m, d] && m.CompleteMessage? && !d.CompleteMessage?
    requires m.version == Version(0, 1)
    ensures LastHandedOver(Start(1), steps) == 1
  {
    hide Run, AllSent, LastHandedOver;
    EveryRunIsRecorded(Start(1), steps);
    assert [m, d][0] == m;
    OnlyOneWasSent(m, d);
  }

  lemma RefusalIsRemembered()
    ensures Next(SWITCHED, SyncComplete(false)) == SWITCHED.(sentComplete := 2)
    ensures Sent(SWITCHED, SyncComplete(false)) == []
  {
  }

  /**
   The changed bundle is refused but counts as sent. The late success of the first one starts deltas
   on the refused one, which nobody got.
   */
  lemma RefusedBundleStartsDeltas()
    ensures RealReports(Start(1), REFUSED + [DeliverySuccess])
    ensures var a := Run(Start(1), REFUSED);
            && a.hybrid.mode == CompleteState
            && 0 < LastHandedOver(Start(1), REFUSED) < a.complete.generation == a.sentComplete
            && !CompleteWasSent(AllSent(Start(1), REFUSED), Version(a.incarnation, Next(a, DeliverySuccess).delta.base))
  {
    hide Run, AllSent, Next, Sent, CompleteWasSent, CompletesIn, LastHandedOver;
    var m, d := OvertakenRun();
    OnlyOneWasSent(m, d);
    RunSnoc(Start(1), OVERTAKEN, SyncComplete(false));
    RefusalIsRemembered();
    assert [m, d] + [] == [m, d];
    SuccessTakesGeneration(SWITCHED.(sentComplete := 2));
    FirstReportIsReal(Start(1), REFUSED);
    LastWasTaken(REFUSED, m, d);
  }

  // ---------------------------------------------------------------- a report inside an update

  /**
   Updates hold the controller's lock, reports do not: a success report can arrive after the full
   bundle took a policy's statuses and before the two others did.
   */
  function InterruptedUpdate(a: Agent, p: string, st: Statuses): Agent {
    var switched := Succeeded(a.(full := UpdateFull(a.full, p, st)));
    switched.(complete := UpdateComplete(switched.complete, p, st),
              delta := UpdateChanges(switched.delta, p, st, switched.full.view))
  }

  lemma NothingChanged(st: Statuses)
    ensures Changed(st, st) == map[]
  {
  }

  lemma InterruptedShape(a: Agent, p: string, st: Statuses)
    requires a.hybrid.mode == CompleteState
    ensures var r := InterruptedUpdate(a, p, st);
            && r.delta.base == a.complete.generation && r.delta.pending == map[]
            && r.full == UpdateFull(a.full, p, st)
  {
    NothingChanged(st);
    hide Changed, UpdateComplete;
  }

  lemma PutDiffersIff(m: PolicyMap, p: string, st: Statuses)
    requires p in m && m[p].Keys == st.Keys
    ensures Flatten(m[p := st]) == Flatten(m) <==> st == m[p]
  {
    hide Flatten;
    if Flatten(m[p := st]) == Flatten(m) {
      forall c | c in st
        ensures st[c] == m[p][c]
      {
        FlattenAt(m, (p, c));
        FlattenAt(m[p := st], (p, c));
      }
      assert st == m[p];
    }
    if st == m[p] {
      assert m[p := st] == m;
    }
  }

  /**
   Then the deltas are based on the complete bundle from before, but do not contain the change.
   Without a new full bundle, what is written and pending is wrong exactly when the policy is known,
   keeps its clusters and changes a status.
   */
  lemma InterruptedUpdateIsLostIff(a: Agent, p: string, st: Statuses)
    requires a.hybrid.mode == CompleteState
    ensures var r := InterruptedUpdate(a, p, st);
            && r.delta.base == a.complete.generation && r.delta.pending == map[]
            && (r.full.generation == a.full.generation && Write(Live(a), Flatten(r.delta.pending)) != Live(r) <==>
                p in a.full.view && a.full.view[p].Keys == st.Keys && st != a.full.view[p])
  {
    InterruptedShape(a, p, st);
    NothingWritten(Live(a), p);
    if p in a.full.view && a.full.view[p].Keys == st.Keys {
      PutDiffersIff(a.full.view, p, st);
    }
    hide InterruptedUpdate, Flatten, Write;
  }

  /**
   The policy changes back in the overtaken run while the late report comes in: the deltas that follow
   start without the change.
   */
  lemma InterruptedUpdateIsLost()
    ensures RealReports(Start(1), OVERTAKEN + [DeliverySuccess])
    ensures var a := Run(Start(1), OVERTAKEN);
            var r := InterruptedUpdate(a, POLICY, ONE);
            && a.hybrid.mode == CompleteState && r.full.generation == a.full.generation
            && Write(Live(a), Flatten(r.delta.pending)) != Live(r)
  {
    hide Run, RealReports, InterruptedUpdate, Write, Live, Flatten;
    OvertakenBundleStartsDeltas();
    var m, d := OvertakenRun();
    Listed();
    assert POLICY in SWITCHED.full.view && SWITCHED.full.view[POLICY] == OTHER && OTHER.Keys == ONE.Keys;
    InterruptedUpdateIsLostIff(SWITCHED, POLICY, ONE);
  }

  /** A report between the complete and the delta bundle loses nothing: it acts as one after the update. */
  lemma LaterInterruptionIsHarmless(a: Agent, p: string, st: Statuses)
    requires a.hybrid.mode == CompleteState
    ensures var full := UpdateFull(a.full, p, st);
            var switched := Succeeded(a.(full := full, complete := UpdateComplete(a.complete, p, st)));
            var r := switched.(delta := UpdateChanges(switched.delta, p, st, full.view));
            var after := Succeeded(Next(a, Update(p, st)));
            r == after.(delta := after.delta.(generation := r.delta.generation))
  {
    NothingChanged(st);
    hide Changed, UpdateComplete;
    var full := UpdateFull(a.full, p, st);
    var d := UpdateChanges(a.delta, p, st, full.view);
    assert SyncState(Reset(d), full.view, 0).since == SyncState(Reset(a.delta), full.view, 0).since;
  }
}
