/**
 The whole way of a leaf hub's status: the agent sends, the bundles arrive at the conflation unit,
 which dispatches them in any interleaving, and what is reported as processed has been written.
 */
module PipelineRuns {
  import opened AgentState
  import opened Compliance
  import opened Conflation
  import opened ConflationDeltas
  import opened ConflationLine
  import opened ConflationOrder
  import opened ConflationTable
  import opened DeltaMerge
  import opened EndToEnd
  import opened Options
  import opened Versions
  import Hub = ConflationRuns
  import Leaf = AgentRuns

  // ---------------------------------------------------------------- what the agent sends

  function DeltasIn(messages: seq<Leaf.Message>): seq<Delta>
    decreases |messages|
  {
    if messages == [] then []
    else
      var front, last := DeltasIn(messages[..|messages| - 1]), messages[|messages| - 1];
      if last.DeltaMessage? then front + [last.delta] else front
  }

  lemma {:induction false} DeltasInConcat(a: seq<Leaf.Message>, b: seq<Leaf.Message>)
    ensures DeltasIn(a + b) == DeltasIn(a) + DeltasIn(b)
    decreases |b|
  {
    if b == [] {
      assert a + b == a;
    } else {
      assert (a + b)[..|a + b| - 1] == a + b[..|b| - 1];
      DeltasInConcat(a, b[..|b| - 1]);
    }
  }

  lemma {:induction false} DeltasInOnBase(messages: seq<Leaf.Message>, g: Version)
    ensures DeltasOnBase(DeltasIn(messages), g) == DeltasOn(messages, g)
    decreases |messages|
  {
    if messages != [] {
      var front, last := messages[..|messages| - 1], messages[|messages| - 1];
      DeltasInOnBase(front, g);
      if last.DeltaMessage? {
        assert (DeltasIn(front) + [last.delta])[..|DeltasIn(front)|] == DeltasIn(front);
      }
    }
  }

  /** All deltas were sent in the order of their versions and bases, none ahead of the agent. */
  ghost predicate SentInOrder(a: Agent, deltas: seq<Delta>) {
    && a.delta.base <= a.complete.generation
    && Ordered(deltas, Version(a.incarnation, a.delta.base))
    && forall i :: 0 <= i < |deltas| ==>
         deltas[i].version.incarnation == a.incarnation && deltas[i].version.generation <= a.sentDelta
  }

  /** Bases and sent generations only grow. */
  lemma StepMovesOn(a: Agent, step: Leaf.Step)
    requires a.delta.base <= a.complete.generation
    ensures var n := Leaf.Next(a, step);
            && n.incarnation == a.incarnation && a.sentDelta <= n.sentDelta
            && a.delta.base <= n.delta.base <= n.complete.generation
  {
  }

  lemma OrderedByNewerBase(deltas: seq<Delta>, g: Version, h: Version)
    requires Ordered(deltas, g) && !g.NewerThan(h)
    ensures Ordered(deltas, h)
  {
    forall i | 0 <= i < |deltas|
      ensures !deltas[i].base.NewerThan(h)
    {
      assert !deltas[i].base.NewerThan(g);
    }
  }

  lemma DeltaIsNext(a: Agent, deltas: seq<Delta>)
    requires SentInOrder(a, deltas) && Leaf.SendsDelta(a)
    ensures Ordered(deltas + [Leaf.DeltaNow(a)], Version(a.incarnation, a.delta.base))
  {
    hide Flatten;
    var d := Leaf.DeltaNow(a);
    forall i | 0 <= i < |deltas|
      ensures d.version.NewerThan(deltas[i].version) && !deltas[i].base.NewerThan(d.base)
    {
    }
  }

  lemma SentDeltas(a: Agent, step: Leaf.Step)
    ensures DeltasIn(Leaf.Sent(a, step)) ==
            if step == Leaf.SyncDelta(true) && Leaf.SendsDelta(a) then [Leaf.DeltaNow(a)] else []
  {
    hide Flatten;
    var messages := Leaf.Sent(a, step);
    if messages != [] {
      assert messages[..0] == [];
    }
  }

  lemma StepSendsInOrder(a: Agent, step: Leaf.Step, deltas: seq<Delta>)
    requires SentInOrder(a, deltas)
    ensures SentInOrder(Leaf.Next(a, step), deltas + DeltasIn(Leaf.Sent(a, step)))
  {
    SentDeltas(a, step);
    StepMovesOn(a, step);
    var n, more := Leaf.Next(a, step), DeltasIn(Leaf.Sent(a, step));
    if more != [] {
      DeltaIsNext(a, deltas);
    } else {
      assert deltas + more == deltas;
    }
    hide Ordered, Leaf.Sent;
    OrderedByNewerBase(deltas + more, Version(a.incarnation, a.delta.base), Version(n.incarnation, n.delta.base));
  }

  /** The agent sends its deltas in the order that the conflation unit accepts. */
  lemma {:induction false} EveryRunSendsInOrder(start: Agent, steps: seq<Leaf.Step>)
    requires Leaf.Initial(start)
    ensures SentInOrder(Leaf.Run(start, steps), DeltasIn(Leaf.AllSent(start, steps)))
    decreases |steps|
  {
    if steps != [] {
      var front, last := steps[..|steps| - 1], steps[|steps| - 1];
      EveryRunSendsInOrder(start, front);
      StepSendsInOrder(Leaf.Run(start, front), last, DeltasIn(Leaf.AllSent(start, front)));
      DeltasInConcat(Leaf.AllSent(start, front), Leaf.Sent(Leaf.Run(start, front), last));
      hide SentInOrder, Leaf.Next, Leaf.Sent, DeltasIn;
    }
  }

  lemma LastSent(start: Agent, steps: seq<Leaf.Step>, m: Leaf.Message)
    requires m in Leaf.AllSent(start, steps)
    ensures steps != []
    ensures || m in Leaf.Sent(Leaf.Run(start, steps[..|steps| - 1]), steps[|steps| - 1])
            || m in Leaf.AllSent(start, steps[..|steps| - 1])
  {
    hide Leaf.Sent, Leaf.Run;
  }

  lemma {:induction false} MessageSentAt(start: Agent, steps: seq<Leaf.Step>, m: Leaf.Message) returns (j: nat)
    requires m in Leaf.AllSent(start, steps)
    ensures j < |steps| && m in Leaf.Sent(Leaf.Run(start, steps[..j]), steps[j])
    decreases |steps|
  {
    hide Leaf.Sent, Leaf.Run, Leaf.AllSent;
    LastSent(start, steps, m);
    j := |steps| - 1;
    if m !in Leaf.Sent(Leaf.Run(start, steps[..j]), steps[j]) {
      var front := steps[..j];
      j := MessageSentAt(start, front, m);
      assert front[..j] == steps[..j];
    }
  }

  lemma SplitRun(start: Agent, steps: seq<Leaf.Step>, i: nat, j: nat)
    requires i <= j <= |steps|
    ensures Leaf.Run(start, steps[..j]) == Leaf.Run(Leaf.Run(start, steps[..i]), steps[i..j])
  {
    assert steps[..j] == steps[..i] + steps[i..j];
    RunConcat(start, steps[..i], steps[i..j]);
  }

  /** While the full bundle's generation stands, its rows do. */
  lemma SameGenerationSameRows(start: Agent, steps: seq<Leaf.Step>, i: nat, j: nat)
    requires i <= j <= |steps|
    requires Leaf.Run(start, steps[..i]).full.generation == Leaf.Run(start, steps[..j]).full.generation
    ensures Live(Leaf.Run(start, steps[..i])).Keys == Live(Leaf.Run(start, steps[..j])).Keys
  {
    hide Leaf.Run, Flatten;
    SplitRun(start, steps, i, j);
    var a, b := Leaf.Run(start, steps[..i]), Leaf.Run(start, steps[..j]);
    GenerationsGrow(a, steps[i..j]);
    forall row
      ensures row in Live(a) <==> row in Live(b)
    {
      SameRows(a.full.view, b.full.view, row);
    }
  }

  // ---------------------------------------------------------------- what arrives and what it says

  predicate IsFull(b: Bundle, messages: seq<Leaf.Message>) {
    exists m :: m in messages && m.FullMessage? && m.version == b.Version()
  }

  predicate IsComplete(b: Bundle, messages: seq<Leaf.Message>) {
    exists m :: m in messages && m.CompleteMessage? && m.version == b.Version() && Some(m.base) == b.Dependency()
  }

  /**
   What arrives was sent. After the first `l` deltas, which a restarted consumer does not read again,
   deltas arrive once and in the order of sending; full and complete bundles may be lost, overtaken
   and repeated.
   */
  ghost predicate Delivered(work: seq<Hub.Step>, k: Types, messages: seq<Leaf.Message>, l: nat) {
    && l <= |DeltasIn(messages)| && Offers(work, k.delta) == DeltasIn(messages)[l..]
    && Arriving(work, k.full, b => IsFull(b, messages))
    && Arriving(work, k.complete, b => IsComplete(b, messages))
  }

  /** What the messages of a version say. */
  ghost predicate Describes(x: Contents, messages: seq<Leaf.Message>) {
    forall m :: m in messages ==>
      && (m.FullMessage? ==> x.full(m.version) == Flatten(m.view))
      && (m.CompleteMessage? ==> x.listed(m.version) == Flatten(m.view) && x.base(m.version) == m.base)
  }

  /** No message is ahead of what the agent remembers as sent. */
  ghost predicate Remembered(a: Agent, messages: seq<Leaf.Message>) {
    forall m :: m in messages ==>
      && (m.FullMessage? ==> m.version.incarnation == a.incarnation && m.version.generation <= a.sentFull)
      && (m.CompleteMessage? ==> m.version.incarnation == a.incarnation && m.version.generation <= a.sentComplete)
  }

  function Extended(x: Contents, sent: seq<Leaf.Message>): Contents {
    if sent != [] && sent[0].FullMessage? then
      x.(full := v => if v == sent[0].version then Flatten(sent[0].view) else x.full(v))
    else if sent != [] && sent[0].CompleteMessage? then
      x.(listed := v => if v == sent[0].version then Flatten(sent[0].view) else x.listed(v),
         base := v => if v == sent[0].version then sent[0].base else x.base(v))
    else x
  }

  lemma StepIsDescribed(a: Agent, step: Leaf.Step, messages: seq<Leaf.Message>, x: Contents)
    requires Remembered(a, messages) && Describes(x, messages)
    ensures Remembered(Leaf.Next(a, step), messages + Leaf.Sent(a, step))
    ensures Describes(Extended(x, Leaf.Sent(a, step)), messages + Leaf.Sent(a, step))
  {
    hide Flatten;
    StepMovesOnSending(a, step);
    var sent, y := Leaf.Sent(a, step), Extended(x, Leaf.Sent(a, step));
    forall m | m in messages + sent
      ensures m.FullMessage? ==> y.full(m.version) == Flatten(m.view)
      ensures m.CompleteMessage? ==> y.listed(m.version) == Flatten(m.view) && y.base(m.version) == m.base
    {
      assert m in messages || m == sent[0];
    }
  }

  lemma StepMovesOnSending(a: Agent, step: Leaf.Step)
    ensures var n, sent := Leaf.Next(a, step), Leaf.Sent(a, step);
            && n.incarnation == a.incarnation && a.sentFull <= n.sentFull && a.sentComplete <= n.sentComplete
            && |sent| <= 1
            && (sent != [] && sent[0].FullMessage? ==> sent[0].version == Version(a.incarnation, n.sentFull)
                                                       && a.sentFull < n.sentFull)
            && (sent != [] && sent[0].CompleteMessage? ==> sent[0].version == Version(a.incarnation, n.sentComplete)
                                                           && a.sentComplete < n.sentComplete)
  {
    hide Flatten;
  }

  /** No version is sent twice, so every run's messages are described by some contents. */
  lemma {:induction false} ContentsExist(start: Agent, steps: seq<Leaf.Step>) returns (x: Contents)
    ensures Describes(x, Leaf.AllSent(start, steps)) && Remembered(Leaf.Run(start, steps), Leaf.AllSent(start, steps))
    decreases |steps|
  {
    hide Describes, Remembered, Leaf.Next, Leaf.Sent, Extended;
    if steps == [] {
      x := Contents(v => map[], v => map[], v => v);
      NothingSent(start, x);
      Leaf.RunNothing(start);
    } else {
      var front, last := steps[..|steps| - 1], steps[|steps| - 1];
      x := ContentsExist(start, front);
      StepIsDescribed(Leaf.Run(start, front), last, Leaf.AllSent(start, front), x);
      x := Extended(x, Leaf.Sent(Leaf.Run(start, front), last));
    }
  }

  lemma NothingSent(a: Agent, x: Contents)
    ensures Describes(x, []) && Remembered(a, [])
  {
  }

  lemma FullSentAt(start: Agent, steps: seq<Leaf.Step>, b: Bundle, x: Contents) returns (i: nat)
    requires IsFull(b, Leaf.AllSent(start, steps)) && Describes(x, Leaf.AllSent(start, steps))
    ensures i < |steps|
    ensures var a := Leaf.Run(start, steps[..i]);
            b.Version() == Version(a.incarnation, a.full.generation) && x.full(b.Version()) == Live(a)
  {
    hide Flatten, Leaf.Run, Leaf.AllSent;
    var m :| m in Leaf.AllSent(start, steps) && m.FullMessage? && m.version == b.Version();
    i := MessageSentAt(start, steps, m);
  }

  lemma {:induction false} MessageIndexAt(start: Agent, steps: seq<Leaf.Step>, q: nat) returns (j: nat)
    requires q < |Leaf.AllSent(start, steps)|
    ensures j < |steps| && Leaf.AllSent(start, steps[..j]) == Leaf.AllSent(start, steps)[..q]
    ensures Leaf.AllSent(start, steps)[q] in Leaf.Sent(Leaf.Run(start, steps[..j]), steps[j])
    decreases |steps|
  {
    hide Leaf.Sent, Leaf.Run, Leaf.AllSent;
    SomethingSent(start, steps, q);
    var front, last := steps[..|steps| - 1], steps[|steps| - 1];
    assert steps == front + [last];
    Leaf.RunSnoc(start, front, last);
    StepMovesOnSending(Leaf.Run(start, front), last);
    if q < |Leaf.AllSent(start, front)| {
      j := MessageIndexAt(start, front, q);
      assert front[..j] == steps[..j];
    } else {
      j := |steps| - 1;
    }
  }

  lemma SomethingSent(start: Agent, steps: seq<Leaf.Step>, q: nat)
    requires q < |Leaf.AllSent(start, steps)|
    ensures steps != []
  {
  }

  lemma CompleteSentAt(start: Agent, steps: seq<Leaf.Step>, q: nat, x: Contents) returns (j: nat)
    requires q < |Leaf.AllSent(start, steps)| && Leaf.AllSent(start, steps)[q].CompleteMessage?
    requires Describes(x, Leaf.AllSent(start, steps))
    ensures j < |steps| && Leaf.AllSent(start, steps[..j]) == Leaf.AllSent(start, steps)[..q]
    ensures var a, m := Leaf.Run(start, steps[..j]), Leaf.AllSent(start, steps)[q];
            && m.version == Version(a.incarnation, a.complete.generation)
            && x.base(m.version) == Version(a.incarnation, a.full.generation)
            && x.listed(m.version) == Flatten(a.complete.view)
  {
    hide Flatten, Leaf.Run, Leaf.AllSent;
    j := MessageIndexAt(start, steps, q);
    assert Leaf.AllSent(start, steps)[q] in Leaf.AllSent(start, steps);
  }

  lemma ArrivingDepends(work: seq<Hub.Step>, i: nat, messages: seq<Leaf.Message>, x: Contents, g: Version)
    requires Arriving(work, i, b => IsComplete(b, messages)) && Describes(x, messages)
    ensures Arriving(work, i, b => DependsOn(b, g, x.base(g)))
  {
    forall l | 0 <= l < |work| && work[l].Arrive? && work[l].priority == i
      ensures DependsOn(work[l].bundle, g, x.base(g))
    {
      CompleteDepends(work[l].bundle, messages, x);
    }
  }

  lemma CompleteDepends(b: Bundle, messages: seq<Leaf.Message>, x: Contents)
    requires IsComplete(b, messages) && Describes(x, messages)
    ensures b.Dependency() == Some(x.base(b.Version()))
  {
  }

  // ---------------------------------------------------------------- the table

  function Alone(deltas: seq<Delta>): (r: seq<seq<Delta>>)
    ensures |r| == |deltas| && forall k :: 0 <= k < |r| ==> r[k] == [deltas[k]]
  {
    seq(|deltas|, k requires 0 <= k < |deltas| => [deltas[k]])
  }

  lemma {:induction false} AloneIsConcat(deltas: seq<Delta>)
    ensures Concat(Alone(deltas)) == deltas
    decreases |deltas|
  {
    if deltas != [] {
      assert Alone(deltas)[1..] == Alone(deltas[1..]);
      AloneIsConcat(deltas[1..]);
    }
  }

  lemma AloneIsPacked(deltas: seq<Delta>)
    ensures PackAll(Alone(deltas)) == deltas
  {
    assert forall k :: 0 <= k < |deltas| ==> PackAll(Alone(deltas))[k] == deltas[k];
  }

  /** The full bundle, the complete bundle based on it, all deltas on that and what is pending are what is live. */
  lemma WrittenIsLive(start: Agent, steps: seq<Leaf.Step>, i: nat, j: nat)
    requires Leaf.Initial(start) && i < |steps| && j < |steps|
    requires var a, b, c := Leaf.Run(start, steps[..i]), Leaf.Run(start, steps[..j]), Leaf.Run(start, steps);
             && a.full.generation == b.full.generation == c.full.generation
             && c.delta.base == b.complete.generation
    ensures var a, b, c := Leaf.Run(start, steps[..i]), Leaf.Run(start, steps[..j]), Leaf.Run(start, steps);
            var deltas := DeltasOn(Leaf.AllSent(start, steps), Version(start.incarnation, b.complete.generation));
            Write(WriteAll(Implied(Live(a), Flatten(b.complete.view)), deltas), Flatten(c.delta.pending)) == Live(c)
  {
    hide Leaf.Run, Leaf.AllSent, Flatten, Implied, Write, WriteAll, DeltasOn, PackAll, Concat;
    var a, b := Leaf.Run(start, steps[..i]), Leaf.Run(start, steps[..j]);
    if i <= j {
      SameGenerationSameRows(start, steps, i, j);
    } else {
      SameGenerationSameRows(start, steps, j, i);
    }
    ImpliedByKeys(Live(a), Live(b), Flatten(b.complete.view));
    var deltas := DeltasOn(Leaf.AllSent(start, steps), Version(start.incarnation, b.complete.generation));
    AloneIsConcat(deltas);
    AloneIsPacked(deltas);
    Leaf.RunNothing(b);
    assert steps[..j] + [] + steps[j..] == steps;
    SplitRun(start, steps, j, |steps|);
    assert steps[..|steps|] == steps;
    TableFollowsLeafHub(start, steps[..j], [], steps[j..], Alone(deltas));
  }

  /** In an idle unit nothing is left to write. */
  lemma IdleHoldsNothing(s: Hub.State, i: nat, g: Version)
    requires Hub.Safe(s) && i < |s.unit.elements| && s.unit.elements[i].info.DeltaInfo?
    requires s.flights == [] && s.unit.elements[i].info.bundle.None?
    ensures Unwritten(ViewOf(s, i), g) == []
  {
  }

  /**
   Message `q` is the complete bundle `z`. Step `m` brings it for the first time, after its base `y`;
   no delta sent after it has come before it or is not read at all.
   */
  ghost predicate KeepsOrder(work: seq<Hub.Step>, k: Types, messages: seq<Leaf.Message>, y: Version, z: Version,
                             l: nat, m: nat, q: nat)
  {
    && ArrivesAt(work, k, z, y, m)
    && q < |messages| && messages[q].CompleteMessage? && messages[q].version == z
    && l + |Offers(work[..m], k.delta)| <= |DeltasIn(messages[..q])|
  }

  lemma OrderedSuffix(deltas: seq<Delta>, l: nat, g: Version)
    requires Ordered(deltas, g) && l <= |deltas|
    ensures Ordered(deltas[l..], g)
  {
  }

  lemma {:induction false} OffersConcat(a: seq<Hub.Step>, b: seq<Hub.Step>, i: nat)
    ensures Offers(a + b, i) == Offers(a, i) + Offers(b, i)
    decreases |a|
  {
    if a == [] {
      assert a + b == b;
    } else {
      assert (a + b)[1..] == a[1..] + b;
      OffersConcat(a[1..], b, i);
    }
  }

  lemma {:induction false} OnBaseConcat(a: seq<Delta>, b: seq<Delta>, g: Version)
    ensures DeltasOnBase(a + b, g) == DeltasOnBase(a, g) + DeltasOnBase(b, g)
    decreases |b|
  {
    if b == [] {
      assert a + b == a;
    } else {
      assert (a + b)[..|a + b| - 1] == a + b[..|b| - 1];
      OnBaseConcat(a, b[..|b| - 1], g);
    }
  }

  /** What came before the complete bundle, or was not read, was sent before it. */
  lemma EarlyWereSentEarly(work: seq<Hub.Step>, k: Types, messages: seq<Leaf.Message>, g: Version, l: nat, m: nat,
                           q: nat, j: nat)
    returns (e: nat)
    requires l <= |DeltasIn(messages)| && Offers(work, k.delta) == DeltasIn(messages)[l..]
    requires m <= |work| && q <= |messages| && l + |Offers(work[..m], k.delta)| <= |DeltasIn(messages[..q])|
    requires j <= |DeltasOnBase(Offers(work[..m], k.delta), g)| && j <= |DeltasOnBase(Offers(work, k.delta), g)|
    ensures e <= |DeltasOn(messages[..q], g)| && DeltasOn(messages[..q], g) <= DeltasOn(messages, g)
    ensures DeltasOnBase(Offers(work, k.delta), g)[j..] == DeltasOn(messages, g)[e..]
  {
    hide Offers, DeltasIn, DeltasOnBase, DeltasOn;
    assert work == work[..m] + work[m..] && messages == messages[..q] + messages[q..];
    OffersConcat(work[..m], work[m..], k.delta);
    DeltasInConcat(messages[..q], messages[q..]);
    var all, sent := DeltasIn(messages), DeltasIn(messages[..q]);
    var skipped, read, early := all[..l], Offers(work, k.delta), Offers(work[..m], k.delta);
    assert all == skipped + read && early == read[..|early|];
    assert sent == all[..|sent|] && skipped + early == all[..l + |early|];
    assert sent == skipped + early + sent[l + |early|..];
    OnBaseConcat(skipped, read, g);
    OnBaseConcat(skipped, early, g);
    OnBaseConcat(skipped + early, sent[l + |early|..], g);
    OnBaseConcat(sent, DeltasIn(messages[q..]), g);
    DeltasInOnBase(messages[..q], g);
    DeltasInOnBase(messages, g);
    e := |DeltasOnBase(skipped, g)| + j;
  }

  lemma HarmlessLeavesImplied(full: Table, listed: Table, effect: Table)
    requires Harmless(effect, listed)
    ensures Write(Implied(full, listed), effect) == Implied(full, listed)
  {
  }

  /** Deltas that only confirm what the complete bundle implies change nothing after it. */
  lemma {:induction false} HarmlessLeaveImplied(full: Table, listed: Table, deltas: seq<Delta>)
    requires AllHarmless(deltas, listed)
    ensures WriteAll(Implied(full, listed), deltas) == Implied(full, listed)
    decreases |deltas|
  {
    hide Implied, Write, Harmless;
    if deltas != [] {
      HarmlessLeavesImplied(full, listed, deltas[0].effect);
      assert forall i :: 0 <= i < |deltas[1..]| ==> deltas[1..][i] == deltas[i + 1];
      HarmlessLeaveImplied(full, listed, deltas[1..]);
    }
  }

  /** The first deltas on a complete bundle, if they were sent before it, may as well be left out. */
  lemma EarlyMayBeLeftOut(start: Agent, steps: seq<Leaf.Step>, i: nat, full: Table, deltas: seq<Delta>, j: nat)
    requires Leaf.Initial(start) && i <= |steps|
    requires var b := Leaf.Run(start, steps[..i]);
             var early := DeltasOn(Leaf.AllSent(start, steps[..i]), Version(start.incarnation, b.complete.generation));
             j <= |early| && early <= deltas
    ensures var listed := Flatten(Leaf.Run(start, steps[..i]).complete.view);
            j <= |deltas| && WriteAll(Implied(full, listed), deltas[j..]) == WriteAll(Implied(full, listed), deltas)
  {
    hide Leaf.Run, Leaf.AllSent, Flatten, Implied, WriteAll, DeltasOn, Harmless;
    var b := Leaf.Run(start, steps[..i]);
    StartIsQuiet(start);
    EarlyDeltasAreHarmless(start, steps[..i], b.complete.generation);
    var early := DeltasOn(Leaf.AllSent(start, steps[..i]), Version(start.incarnation, b.complete.generation));
    assert deltas[..j] == early[..j];
    HarmlessLeaveImplied(full, Flatten(b.complete.view), deltas[..j]);
    assert deltas == deltas[..j] + deltas[j..];
    WriteAllSplit(Implied(full, Flatten(b.complete.view)), deltas[..j], deltas[j..]);
  }

  /**
   From the agent to the table, in every interleaving of the agent's steps, of arrivals, of dispatches
   and of reports, with or without initial dependency checks, for a unit that is new or restarted over
   any table, with packs that fail only while nothing newer is pending. Let the last full and the last
   complete bundle that were written be of the agent's current full generation and of the base of its
   deltas, and let neither this complete bundle overtake its base nor a later delta overtake it. Then the
   table lacks what the unit still holds on that base and, after that, what is pending at the leaf hub;
   with nothing left there, it is what is live.
   */
  lemma TableInEveryInterleaving(
    start: Agent, steps: seq<Leaf.Step>, s: Hub.State, work: seq<Hub.Step>, k: Types, x: Contents, t: Table, y: Bundle,
    z: Bundle, l: nat, m: nat, q: nat)
    requires Leaf.Initial(start) && Describes(x, Leaf.AllSent(start, steps))
    requires Hub.Initial(s) && Wired(s.unit, k) && Hub.RunEnabled(s, work) && QuietFailures(s, work, k.delta)
    requires Delivered(work, k, Leaf.AllSent(start, steps), l)
    requires var c, r := Leaf.Run(start, steps), Hub.Run(s, work);
             && LastOf(r.written, k.full) == Some(y) && LastOf(r.written, k.complete) == Some(z)
             && y.Version() == Version(start.incarnation, c.full.generation)
             && z.Version() == Version(start.incarnation, c.delta.base) && z.Dependency() == Some(y.Version())
    requires KeepsOrder(work, k, Leaf.AllSent(start, steps), y.Version(), z.Version(), l, m, q)
    ensures var c, r := Leaf.Run(start, steps), Hub.Run(s, work);
            && Hub.Safe(r) && k.delta < |r.unit.elements| && r.unit.elements[k.delta].info.DeltaInfo?
            && var held := DeltasOf(Unwritten(ViewOf(r, k.delta), z.Version()));
               Write(WriteAll(TableOf(r.written, t, k, x), held), Flatten(c.delta.pending)) == Live(c)
    ensures var c, r := Leaf.Run(start, steps), Hub.Run(s, work);
            r.flights == [] && r.unit.elements[k.delta].info.bundle.None? && c.delta.pending == map[] ==>
              TableOf(r.written, t, k, x) == Live(c)
  {
    hide Leaf.Run, Leaf.AllSent, Leaf.Initial, Hub.Run, Hub.RunEnabled, Hub.InFlight, QuietFailures, Wired, ArrivesAt;
    hide Flatten, Implied, Write, WriteAll, DeltasOn, DeltasOnBase, DeltasOf, Unwritten, TableOf, LastOf, ViewOf;
    hide IsFull, IsComplete, Arriving, Ordered, Offers, DeltasIn, Describes;
    var messages, g := Leaf.AllSent(start, steps), z.Version();
    StartHasTypes(s, k);
    LastWrittenArrived(s, work, k.full, b => IsFull(b, messages), y);
    LastWrittenArrived(s, work, k.complete, b => IsComplete(b, messages), z);
    CompleteDepends(z, messages, x);
    ArrivingDepends(work, k.complete, messages, x, g);
    SameIncarnations(start, steps);
    EveryRunSendsInOrder(start, steps);
    OrderedSuffix(DeltasIn(messages), l, g);
    var j := TableInOrder(s, work, t, k, x, y, z, m);
    var i := FullSentAt(start, steps, y, x);
    var n := CompleteSentAt(start, steps, q, x);
    FirstArrivalFits(work, k, g, y.Version(), m);
    var e := EarlyWereSentEarly(work, k, messages, g, l, m, q, j);
    EarlyMayBeLeftOut(start, steps, n, x.full(y.Version()), DeltasOn(messages, g), e);
    WrittenIsLive(start, steps, i, n);
    var r := Hub.Run(s, work);
    if r.flights == [] && r.unit.elements[k.delta].info.bundle.None? {
      IdleHoldsNothing(r, k.delta, g);
      NothingHeld(TableOf(r.written, t, k, x));
    }
  }

  lemma FirstArrivalFits(work: seq<Hub.Step>, k: Types, g: Version, h: Version, m: nat)
    requires ArrivesAt(work, k, g, h, m)
    ensures m < |work|
  {
  }

  lemma NothingHeld(t: Table)
    ensures WriteAll(t, DeltasOf([])) == t && Write(t, Flatten(map[])) == t
  {
    EndToEnd.NothingWritten(t, "");
  }

  lemma StartHasTypes(s: Hub.State, k: Types)
    requires Hub.Initial(s) && Wired(s.unit, k)
    ensures k.full < |s.unit.elements| && k.complete < |s.unit.elements|
    ensures s.unit.elements[k.full].info.CompleteInfo? && s.unit.elements[k.complete].info.CompleteInfo?
  {
  }

  lemma SameIncarnations(start: Agent, steps: seq<Leaf.Step>)
    ensures forall i :: 0 <= i <= |steps| ==> Leaf.Run(start, steps[..i]).incarnation == start.incarnation
    ensures Leaf.Run(start, steps).incarnation == start.incarnation
  {
    hide Leaf.Run;
    forall i | 0 <= i <= |steps|
      ensures Leaf.Run(start, steps[..i]).incarnation == start.incarnation
    {
      GenerationsGrow(start, steps[..i]);
    }
    GenerationsGrow(start, steps);
  }
}
