/**
 Committed offsets against what a restart has to read again: the fragment assembler, the
 conflation units and the committer of one manager.

 The assembler passes messages on with offsets that are lower than their own, and repeats them;
 what matters for a restart is where a message really was.
 */
module RestartSafety {
  import opened Committer
  import opened Conflation
  import opened ConflationLedger
  import opened ConflationRuns
  import opened Options
  import Assembly = MessageAssembly

  /** Where an accepted bundle came from: the offsets of its first and last message. */
  datatype Origin = Origin(partition: int, first: int, last: int)

  /**
   One unit per leaf hub with the origins of what it accepted, the assembler, the committed
   offsets, and the highest offset read per partition.
   */
  datatype System = System(
    units: map<string, State>, origins: map<string, seq<Origin>>, assembler: Assembly.Assembler,
    committed: map<int, int>, seen: map<int, int>)

  /** If a message that is read lets one be passed on, its bundle goes to the unit of a leaf hub. */
  datatype Event =
    | Receive(input: Assembly.Input, hub: string, priority: nat, bundle: Bundle)
    | UnitStep(hub: string, step: Step)
    | CreateUnit(hub: string, unit: State)
    | Commit(committed: map<int, int>)

  ghost predicate Valid(s: System) {
    && s.units.Keys == s.origins.Keys
    && forall hub :: hub in s.units ==> ConflationRuns.Valid(s.units[hub])
  }

  /** Which transport entry an element offers for committing. */
  ghost function OfferedAt(u: State, i: nat): nat
    requires ConflationRuns.Valid(u) && i < |u.unit.elements| && u.unit.elements[i].info.meta.Some?
  {
    u.unit.store.metas[u.unit.elements[i].info.meta.value].transport
  }

  ghost predicate Offers(u: State, t: Transport)
    requires ConflationRuns.Valid(u)
  {
    exists i :: 0 <= i < |u.unit.elements| && u.unit.elements[i].info.meta.Some?
      && t == u.unit.store.transports[OfferedAt(u, i)]
  }

  /** The transport metadata of all elements of all units, taken in one step. */
  ghost function Snapshot(s: System): set<Transport>
    requires Valid(s)
  {
    set hub, i | hub in s.units && 0 <= i < |s.units[hub].unit.elements|
      && s.units[hub].unit.elements[i].info.meta.Some? ::
      s.units[hub].unit.store.transports[OfferedAt(s.units[hub], i)]
  }

  function OriginOf(a: Assembly.Assembler, input: Assembly.Input): Origin
    requires Assembly.EmittedOffset(a, input).Some?
  {
    var m := input.Message();
    Origin(m.partition, if input.Plain? then m.offset else a.open[input.info.Place()].lowestOffset, m.offset)
  }

  /** Messages of a partition are read in the order of their offsets. */
  ghost predicate Enabled(s: System, e: Event)
    requires Valid(s)
  {
    match e
    case Receive(input, hub, priority, _) =>
      && Assembly.Arrives(s.seen, input)
      && (Assembly.EmittedOffset(s.assembler, input).Some? ==>
            hub in s.units && priority < |s.units[hub].unit.elements|)
    case UnitStep(hub, step) => hub in s.units && !step.Arrive? && ConflationRuns.Enabled(s.units[hub], step)
    case CreateUnit(hub, unit) => hub !in s.units && Initial(unit)
    case Commit(committed) => Advances(Snapshot(s), s.committed, committed)
  }

  ghost function Arrive(s: System, hub: string, i: nat, b: Bundle, emitted: int, origin: Origin): (r: System)
    requires Valid(s) && hub in s.units && i < |s.units[hub].unit.elements|
    ensures Valid(r)
  {
    var u := s.units[hub];
    var accepted := Accepts(u.unit, i, b);
    s.(units := s.units[hub := ConflationRuns.Next(u, Step.Arrive(i, b, origin.partition, emitted))],
       origins := s.origins[hub := if accepted then s.origins[hub] + [origin] else s.origins[hub]])
  }

  /** The message that lets one be passed on, if it does. */
  ghost function Passed(s: System, input: Assembly.Input, hub: string, i: nat, b: Bundle): (r: System)
    requires Valid(s) && Enabled(s, Receive(input, hub, i, b))
    ensures Valid(r)
  {
    var emitted := Assembly.EmittedOffset(s.assembler, input);
    if emitted.None? then s else Arrive(s, hub, i, b, emitted.value, OriginOf(s.assembler, input))
  }

  ghost function Next(s: System, e: Event): (r: System)
    requires Valid(s) && Enabled(s, e)
    ensures Valid(r)
  {
    match e
    case Receive(input, hub, priority, bundle) =>
      Passed(s, input, hub, priority, bundle).(assembler := Assembly.Next(s.assembler, input),
                                               seen := Assembly.Seen(s.seen, input))
    case UnitStep(hub, step) => s.(units := s.units[hub := ConflationRuns.Next(s.units[hub], step)])
    case CreateUnit(hub, unit) => s.(units := s.units[hub := unit], origins := s.origins[hub := []])
    case Commit(committed) => s.(committed := committed)
  }

  // ---------------------------------------------------------------- restart safety

  /** Not committed past: reading the partition again from the committed offset finds this one. */
  predicate WillBeReadAgain(committed: map<int, int>, partition: int, offset: int) {
    partition in committed ==> committed[partition] <= offset
  }

  ghost predicate LatestComplete(u: State, x: nat) {
    IsLatest(u.accepted, x) && IsComplete(u.unit, u.accepted[x].priority)
  }

  /**
   The newest accepted bundle of every leaf hub and complete-state type was written, or the last
   message it came from, the only one unless it was assembled, will be read again.
   */
  ghost predicate RestartSafe(s: System) {
    forall hub, x: nat :: hub in s.units && LatestComplete(s.units[hub], x) ==>
      && hub in s.origins && x < |s.origins[hub]|
      && NotLost(s.units[hub], x, s.committed, s.origins[hub][x].partition, s.origins[hub][x].last)
  }

  ghost predicate NotLost(u: State, x: nat, committed: map<int, int>, partition: int, offset: int) {
    x < |u.accepted| &&
    (WrittenVersion(u.written, u.accepted[x].priority, u.accepted[x].bundle.Version())
     || WillBeReadAgain(committed, partition, offset))
  }

  /** A complete-state element offers an entry that is not processed. */
  ghost predicate Pending(u: State, i: nat)
    requires ConflationRuns.Valid(u)
  {
    && IsComplete(u.unit, i) && u.unit.elements[i].info.meta.Some?
    && !u.unit.store.transports[OfferedAt(u, i)].processed
  }

  /** What pending complete-state elements need is not committed past. */
  ghost predicate PendingCovered(u: State, origins: seq<Origin>, committed: map<int, int>, first: bool) {
    && ConflationRuns.Valid(u) && |origins| == |u.unit.store.transports|
    && forall i: nat :: Pending(u, i) ==>
         WillBeReadAgain(committed, origins[OfferedAt(u, i)].partition, Needed(origins[OfferedAt(u, i)], first))
  }

  function Needed(o: Origin, first: bool): int {
    if first then o.first else o.last
  }

  /** Entries carry the partition of their origin, and an offset that had been read. */
  ghost predicate Sourced(u: State, origins: seq<Origin>, seen: map<int, int>) {
    && |origins| == |u.unit.store.transports|
    && forall x :: 0 <= x < |origins| ==> SourcedAt(u.unit.store.transports[x], origins[x], seen)
  }

  predicate SourcedAt(t: Transport, o: Origin, seen: map<int, int>) {
    && t.partition == o.partition && o.first <= o.last && t.offset <= o.last
    && o.partition in seen && o.last <= seen[o.partition]
  }

  ghost predicate UnitCovered(u: State, origins: seq<Origin>, committed: map<int, int>, seen: map<int, int>) {
    Ledger(u) && Sourced(u, origins, seen) && PendingCovered(u, origins, committed, false)
  }

  predicate CommittedSeen(committed: map<int, int>, seen: map<int, int>) {
    forall p :: p in committed ==> p in seen && committed[p] <= seen[p] + 1
  }

  ghost predicate Inv(s: System) {
    && Valid(s) && Assembly.Inv(s.assembler, s.seen) && CommittedSeen(s.committed, s.seen)
    && forall hub :: hub in s.units ==> UnitCovered(s.units[hub], s.origins[hub], s.committed, s.seen)
  }

  lemma LatestIsOffered(u: State, x: nat)
    requires Ledger(u) && LatestComplete(u, x)
    ensures var i := u.accepted[x].priority;
            && i < |u.unit.elements| && u.unit.elements[i].info.meta.Some? && OfferedAt(u, i) == x
            && x < |u.unit.store.transports|
            && (!Pending(u, i) ==> WrittenVersion(u.written, i, u.accepted[x].bundle.Version()))
  {
    var i := u.accepted[x].priority;
    assert IsComplete(u.unit, i) && u.unit.elements[i].info.meta.Some?;
    assert IsLatest(u.accepted, OfferedAt(u, i));
    hide Safe;
  }

  lemma InvMeansRestartSafe(s: System)
    requires Inv(s)
    ensures RestartSafe(s)
  {
    hide Ledger, Pending, Assembly.Inv;
    forall hub, x: nat | hub in s.units && LatestComplete(s.units[hub], x)
      ensures x < |s.origins[hub]|
      ensures NotLost(s.units[hub], x, s.committed, s.origins[hub][x].partition, s.origins[hub][x].last)
    {
      assert UnitCovered(s.units[hub], s.origins[hub], s.committed, s.seen);
      LatestIsOffered(s.units[hub], x);
    }
  }

  // ---------------------------------------------------------------- the units' steps

  /** No entry comes or moves, and nothing becomes pending. */
  ghost predicate OnlySettles(u: State, r: State) {
    && ConflationRuns.Valid(u) && ConflationRuns.Valid(r)
    && |r.unit.store.transports| == |u.unit.store.transports|
    && (forall x :: 0 <= x < |u.unit.store.transports| ==>
          && r.unit.store.transports[x].partition == u.unit.store.transports[x].partition
          && r.unit.store.transports[x].offset == u.unit.store.transports[x].offset)
    && forall i: nat :: Pending(r, i) ==> Pending(u, i) && OfferedAt(r, i) == OfferedAt(u, i)
  }

  lemma DispatchSettles(u: State, r: State, i: nat)
    requires ConflationRuns.Valid(u) && ConflationRuns.Valid(r) && i < |u.unit.elements|
    requires Dispatches(u.unit, r.unit, i)
    ensures OnlySettles(u, r)
  {
  }

  lemma ReportSettles(u: State, r: State, f: Flight, success: bool)
    requires ConflationRuns.Valid(u) && ConflationRuns.Valid(r) && FlightValid(u.unit, f)
    requires Marks(u.unit, r.unit, f, success)
    ensures OnlySettles(u, r)
  {
  }

  lemma StepSettles(u: State, step: Step)
    requires Ledger(u) && ConflationRuns.Enabled(u, step) && !step.Arrive?
    ensures OnlySettles(u, ConflationRuns.Next(u, step)) && Ledger(ConflationRuns.Next(u, step))
  {
    var r := ConflationRuns.Next(u, step);
    match step
    case GetNext =>
      GetNextKeepsBooks(u);
      var next := NextReady(u.unit, 0);
      if next.Some? {
        DispatchDispatches(u.unit, next.value);
        hide Ledger, Dispatches;
        DispatchSettles(u, r, next.value);
      }
    case Report(k, success) =>
      ReportKeepsBooks(u, k, success);
      var f := u.flights[k];
      assert f in u.flights;
      ReportedMarks(u.unit, f, success);
      SameUnit(u, r, f, success, k);
      hide Ledger, Marks, ConflationRuns.Next;
      ReportSettles(u, r, f, success);
  }

  lemma SameUnit(u: State, r: State, f: Flight, success: bool, k: nat)
    requires ConflationRuns.Valid(u) && k < |u.flights| && f == u.flights[k] && f in u.flights
    requires r == ConflationRuns.Next(u, Report(k, success))
    requires Marks(u.unit, Reported(u.unit, f.meta, success), f, success)
    ensures Marks(u.unit, r.unit, f, success)
  {
    assert r.unit.elements == Reported(u.unit, f.meta, success).elements;
    assert r.unit.store == Reported(u.unit, f.meta, success).store;
    hide Reported;
  }

  lemma SettledIsSourced(u: State, r: State, origins: seq<Origin>, seen: map<int, int>)
    requires OnlySettles(u, r) && Sourced(u, origins, seen)
    ensures Sourced(r, origins, seen)
  {
    hide Pending;
    forall x | 0 <= x < |origins|
      ensures SourcedAt(r.unit.store.transports[x], origins[x], seen)
    {
      assert SourcedAt(u.unit.store.transports[x], origins[x], seen);
    }
  }

  lemma SettledIsCovered(u: State, r: State, origins: seq<Origin>, committed: map<int, int>, first: bool)
    requires OnlySettles(u, r) && PendingCovered(u, origins, committed, first)
    ensures PendingCovered(r, origins, committed, first)
  {
    hide Pending, WillBeReadAgain;
  }

  // ---------------------------------------------------------------- arrivals

  /** The new entry is the last one; its element offers it, the others what they offered. */
  ghost predicate Adds(u: State, r: State, i: nat, t: Transport) {
    && ConflationRuns.Valid(u) && ConflationRuns.Valid(r)
    && r.unit.store.transports == u.unit.store.transports + [t]
    && forall j: nat :: Pending(r, j) ==>
         || (Pending(u, j) && OfferedAt(r, j) == OfferedAt(u, j))
         || (j == i && OfferedAt(r, j) == |u.unit.store.transports|)
  }

  lemma StoresAdds(u: State, r: State, i: nat, b: Bundle, partition: int, offset: int)
    requires ConflationRuns.Valid(u) && ConflationRuns.Valid(r) && Stores(u.unit, r.unit, i, b, partition, offset)
    ensures Adds(u, r, i, Transport(partition, offset, false))
  {
  }

  lemma ArriveStores(u: State, i: nat, b: Bundle, partition: int, offset: int)
    requires Ledger(u) && i < |u.unit.elements| && Accepts(u.unit, i, b)
    ensures Stores(u.unit, ConflationRuns.Next(u, Step.Arrive(i, b, partition, offset)).unit, i, b, partition, offset)
  {
    StoredStores(u.unit, i, b, partition, offset);
    SettleKeepsStores(u.unit, Stored(u.unit, i, b, partition, offset), i, b, partition, offset);
    hide Stored, Stores, Accepts;
  }

  lemma SettleKeepsStores(u: Unit, r: Unit, i: nat, b: Bundle, partition: int, offset: int)
    requires u.Valid() && r.Valid() && Stores(u, r, i, b, partition, offset)
    ensures Settle(r).Valid() && Stores(u, Settle(r), i, b, partition, offset)
  {
    hide AnyReady, AnyInProcess;
  }

  lemma ArriveAdds(u: State, i: nat, b: Bundle, partition: int, offset: int)
    requires Ledger(u) && i < |u.unit.elements|
    ensures var r := ConflationRuns.Next(u, Step.Arrive(i, b, partition, offset));
            && Ledger(r)
            && if Accepts(u.unit, i, b) then Adds(u, r, i, Transport(partition, offset, false)) else r == u
  {
    ArriveKeepsBooks(u, i, b, partition, offset);
    if Accepts(u.unit, i, b) {
      ArriveStores(u, i, b, partition, offset);
      StoresAdds(u, ConflationRuns.Next(u, Step.Arrive(i, b, partition, offset)), i, b, partition, offset);
    }
    hide Stored, Stores, Accepts;
  }

  lemma AddedIsSourced(u: State, r: State, i: nat, t: Transport, origins: seq<Origin>, o: Origin, seen: map<int, int>)
    requires Adds(u, r, i, t) && Sourced(u, origins, seen) && SourcedAt(t, o, seen)
    ensures Sourced(r, origins + [o], seen)
  {
    hide Pending;
    forall x | 0 <= x < |origins + [o]|
      ensures SourcedAt(r.unit.store.transports[x], (origins + [o])[x], seen)
    {
      if x < |origins| {
        assert SourcedAt(u.unit.store.transports[x], origins[x], seen);
      }
    }
  }

  lemma AddedIsCovered(u: State, r: State, i: nat, t: Transport, origins: seq<Origin>, o: Origin,
                       committed: map<int, int>, first: bool)
    requires Adds(u, r, i, t) && PendingCovered(u, origins, committed, first)
    requires WillBeReadAgain(committed, o.partition, Needed(o, first))
    ensures PendingCovered(r, origins + [o], committed, first)
  {
    hide WillBeReadAgain;
    forall j: nat | Pending(r, j)
      ensures OfferedAt(r, j) < |origins + [o]|
      ensures WillBeReadAgain(committed, (origins + [o])[OfferedAt(r, j)].partition,
                              Needed((origins + [o])[OfferedAt(r, j)], first))
    {
      if OfferedAt(r, j) < |origins| {
        assert Pending(u, j) && OfferedAt(r, j) == OfferedAt(u, j);
        assert (origins + [o])[OfferedAt(r, j)] == origins[OfferedAt(u, j)];
      }
    }
  }

  // ---------------------------------------------------------------- every run

  lemma SeeMore(u: State, origins: seq<Origin>, seen: map<int, int>, p: int, offset: int)
    requires Sourced(u, origins, seen) && (p in seen ==> seen[p] < offset)
    ensures Sourced(u, origins, seen[p := offset])
  {
    forall x | 0 <= x < |origins|
      ensures SourcedAt(u.unit.store.transports[x], origins[x], seen[p := offset])
    {
      assert SourcedAt(u.unit.store.transports[x], origins[x], seen);
    }
  }

  lemma ArriveCovered(u: State, i: nat, b: Bundle, emitted: int, origins: seq<Origin>, o: Origin,
                      committed: map<int, int>, seen: map<int, int>)
    requires UnitCovered(u, origins, committed, seen) && i < |u.unit.elements|
    requires SourcedAt(Transport(o.partition, emitted, false), o, seen)
    requires WillBeReadAgain(committed, o.partition, o.last)
    ensures UnitCovered(ConflationRuns.Next(u, Step.Arrive(i, b, o.partition, emitted)),
                        if Accepts(u.unit, i, b) then origins + [o] else origins, committed, seen)
  {
    ArriveAdds(u, i, b, o.partition, emitted);
    var r := ConflationRuns.Next(u, Step.Arrive(i, b, o.partition, emitted));
    hide Ledger, ConflationRuns.Next, Sourced, PendingCovered, Accepts;
    if Accepts(u.unit, i, b) {
      var t := Transport(o.partition, emitted, false);
      AddedIsSourced(u, r, i, t, origins, o, seen);
      AddedIsCovered(u, r, i, t, origins, o, committed, false);
    }
  }

  lemma StepCovered(u: State, step: Step, origins: seq<Origin>, committed: map<int, int>, seen: map<int, int>)
    requires UnitCovered(u, origins, committed, seen) && ConflationRuns.Enabled(u, step) && !step.Arrive?
    ensures UnitCovered(ConflationRuns.Next(u, step), origins, committed, seen)
  {
    StepSettles(u, step);
    var r := ConflationRuns.Next(u, step);
    hide Ledger, ConflationRuns.Next, Sourced, PendingCovered;
    SettledIsSourced(u, r, origins, seen);
    SettledIsCovered(u, r, origins, committed, false);
  }

  ghost predicate UnitsCovered(s: System, seen: map<int, int>) {
    && s.units.Keys == s.origins.Keys
    && forall hub :: hub in s.units ==> UnitCovered(s.units[hub], s.origins[hub], s.committed, seen)
  }

  lemma ArriveKeepsUnits(s: System, hub: string, i: nat, b: Bundle, emitted: int, o: Origin, seen: map<int, int>)
    requires Valid(s) && hub in s.units && i < |s.units[hub].unit.elements| && UnitsCovered(s, seen)
    requires SourcedAt(Transport(o.partition, emitted, false), o, seen)
    requires WillBeReadAgain(s.committed, o.partition, o.last)
    ensures UnitsCovered(Arrive(s, hub, i, b, emitted, o), seen)
  {
    ArriveCovered(s.units[hub], i, b, emitted, s.origins[hub], o, s.committed, seen);
    hide UnitCovered, ConflationRuns.Next, Accepts;
  }

  lemma AllSeeMore(s: System, p: int, offset: int)
    requires Inv(s) && (p in s.seen ==> s.seen[p] < offset)
    ensures UnitsCovered(s, s.seen[p := offset])
  {
    forall hub | hub in s.units
      ensures UnitCovered(s.units[hub], s.origins[hub], s.committed, s.seen[p := offset])
    {
      UnitSeesMore(s.units[hub], s.origins[hub], s.committed, s.seen, p, offset);
    }
    hide UnitCovered, Assembly.Inv;
  }

  lemma PassedKeepsUnits(s: System, input: Assembly.Input, hub: string, i: nat, b: Bundle)
    requires Inv(s) && Enabled(s, Receive(input, hub, i, b))
    ensures UnitsCovered(Passed(s, input, hub, i, b), Assembly.Seen(s.seen, input))
    ensures Passed(s, input, hub, i, b).committed == s.committed
  {
    hide UnitsCovered, Assembly.Inv, Assembly.EmittedOffset;
    var emitted, seen := Assembly.EmittedOffset(s.assembler, input), Assembly.Seen(s.seen, input);
    AllSeeMore(s, input.Message().partition, input.Message().offset);
    if emitted.Some? {
      Assembly.EmittedWasRead(s.assembler, s.seen, input);
      ArriveKeepsUnits(s, hub, i, b, emitted.value, OriginOf(s.assembler, input), seen);
    }
  }

  lemma CommittedSeesMore(committed: map<int, int>, seen: map<int, int>, input: Assembly.Input)
    requires CommittedSeen(committed, seen) && Assembly.Arrives(seen, input)
    ensures CommittedSeen(committed, Assembly.Seen(seen, input))
  {
  }

  lemma PartsOfInv(s: System, a: Assembly.Assembler, seen: map<int, int>)
    requires Valid(s) && UnitsCovered(s, seen) && Assembly.Inv(a, seen) && CommittedSeen(s.committed, seen)
    ensures Inv(s.(assembler := a, seen := seen))
  {
    hide UnitCovered, Assembly.Inv, CommittedSeen, ConflationRuns.Valid;
  }

  lemma ReceiveKeepsInv(s: System, input: Assembly.Input, hub: string, priority: nat, bundle: Bundle)
    requires Inv(s) && Enabled(s, Receive(input, hub, priority, bundle))
    ensures Inv(Next(s, Receive(input, hub, priority, bundle)))
  {
    Assembly.StepKeepsInv(s.assembler, s.seen, input);
    PassedKeepsUnits(s, input, hub, priority, bundle);
    CommittedSeesMore(s.committed, s.seen, input);
    PartsOfInv(Passed(s, input, hub, priority, bundle), Assembly.Next(s.assembler, input),
               Assembly.Seen(s.seen, input));
    hide Inv, Assembly.Next, Passed, Assembly.Seen;
  }

  lemma UnitSeesMore(u: State, origins: seq<Origin>, committed: map<int, int>, seen: map<int, int>, p: int, offset: int)
    requires UnitCovered(u, origins, committed, seen) && (p in seen ==> seen[p] < offset)
    ensures UnitCovered(u, origins, committed, seen[p := offset])
  {
    SeeMore(u, origins, seen, p, offset);
    hide Ledger, Sourced, PendingCovered;
  }

  /** Whatever is pending holds commits back to its own offset. */
  lemma CommitKeepsCovered(s: System, committed: map<int, int>, hub: string)
    requires Inv(s) && Advances(Snapshot(s), s.committed, committed) && hub in s.units
    ensures UnitCovered(s.units[hub], s.origins[hub], committed, s.seen)
  {
    var u, ts, origins := s.units[hub], Snapshot(s), s.origins[hub];
    assert UnitCovered(u, s.origins[hub], s.committed, s.seen);
    hide Ledger, Assembly.Inv, CommittedSeen;
    forall i: nat | Pending(u, i)
      ensures WillBeReadAgain(committed, origins[OfferedAt(u, i)].partition, origins[OfferedAt(u, i)].last)
    {
      var x := OfferedAt(u, i);
      var t := u.unit.store.transports[x];
      assert SourcedAt(t, origins[x], s.seen);
      assert t in ts;
      assert HasPending(ts, t.partition);
    }
  }

  lemma SnapshotWasRead(s: System, t: Transport)
    requires Inv(s) && t in Snapshot(s)
    ensures t.partition in s.seen && t.offset <= s.seen[t.partition]
  {
    hide Ledger, PendingCovered;
    var hub, i :|
      && hub in s.units && 0 <= i < |s.units[hub].unit.elements| && s.units[hub].unit.elements[i].info.meta.Some?
      && t == s.units[hub].unit.store.transports[OfferedAt(s.units[hub], i)];
    assert UnitCovered(s.units[hub], s.origins[hub], s.committed, s.seen);
    assert SourcedAt(t, s.origins[hub][OfferedAt(s.units[hub], i)], s.seen);
  }

  lemma CommitKeepsInv(s: System, committed: map<int, int>)
    requires Inv(s) && Enabled(s, Commit(committed))
    ensures Inv(Next(s, Commit(committed)))
  {
    forall t | t in Snapshot(s)
      ensures t.partition in s.seen && t.offset <= s.seen[t.partition]
    {
      SnapshotWasRead(s, t);
    }
    forall hub | hub in s.units
      ensures UnitCovered(s.units[hub], s.origins[hub], committed, s.seen)
    {
      CommitKeepsCovered(s, committed, hub);
    }
    hide UnitCovered, Snapshot, Assembly.Inv;
  }

  lemma CreateKeepsInv(s: System, hub: string, unit: State)
    requires Inv(s) && hub !in s.units && Initial(unit)
    ensures Inv(Next(s, CreateUnit(hub, unit)))
  {
    InitialIsSafe(unit);
    assert UnitCovered(unit, [], s.committed, s.seen);
    hide UnitCovered, Assembly.Inv;
  }

  lemma UnitStepKeepsInv(s: System, hub: string, step: Step)
    requires Inv(s) && Enabled(s, UnitStep(hub, step))
    ensures Inv(Next(s, UnitStep(hub, step)))
  {
    StepCovered(s.units[hub], step, s.origins[hub], s.committed, s.seen);
    hide UnitCovered, Assembly.Inv, ConflationRuns.Next;
  }

  lemma EventKeepsInv(s: System, e: Event)
    requires Inv(s) && Enabled(s, e)
    ensures Inv(Next(s, e))
  {
    hide Inv, Next;
    match e
    case Receive(input, hub, priority, bundle) => ReceiveKeepsInv(s, input, hub, priority, bundle);
    case UnitStep(hub, step) => UnitStepKeepsInv(s, hub, step);
    case CreateUnit(hub, unit) => CreateKeepsInv(s, hub, unit);
    case Commit(committed) => CommitKeepsInv(s, committed);
  }

  ghost predicate RunEnabled(s: System, events: seq<Event>)
    requires Valid(s)
    decreases |events|
  {
    events == [] || (Enabled(s, events[0]) && RunEnabled(Next(s, events[0]), events[1..]))
  }

  ghost function Run(s: System, events: seq<Event>): (r: System)
    requires Valid(s) && RunEnabled(s, events)
    ensures Valid(r)
    decreases |events|
  {
    if events == [] then s else Run(Next(s, events[0]), events[1..])
  }

  const START := System(map[], map[], Assembly.Assembler(map[], map[]), map[], map[])

  /** Committed offsets never go back, and only a round of commits moves them. */
  lemma {:induction false} CommitsNeverGoBack(s: System, events: seq<Event>)
    requires Valid(s) && RunEnabled(s, events)
    ensures forall p :: p in s.committed ==>
      p in Run(s, events).committed && s.committed[p] <= Run(s, events).committed[p]
    ensures (forall e :: e in events ==> !e.Commit?) ==> Run(s, events).committed == s.committed
    decreases |events|
  {
    if events != [] {
      StepCommits(s, events[0]);
      hide Next, Enabled;
      CommitsNeverGoBack(Next(s, events[0]), events[1..]);
      assert events[0] in events && forall e :: e in events[1..] ==> e in events;
    }
  }

  lemma StepCommits(s: System, e: Event)
    requires Valid(s) && Enabled(s, e)
    ensures forall p :: p in s.committed ==> p in Next(s, e).committed && s.committed[p] <= Next(s, e).committed[p]
    ensures !e.Commit? ==> Next(s, e).committed == s.committed
  {
    hide CommitPoint, Snapshot;
  }

  /**
   From a start without units, fragments or commits, with messages read in the order of their
   offsets but passed on with the assembler's, every reachable state is restart safe.
   */
  lemma EveryRunIsRestartSafe(events: seq<Event>)
    requires RunEnabled(START, events)
    ensures RestartSafe(Run(START, events))
  {
    EveryRunKeepsInv(START, events);
    InvMeansRestartSafe(Run(START, events));
  }

  lemma {:induction false} EveryRunKeepsInv(s: System, events: seq<Event>)
    requires Inv(s) && RunEnabled(s, events)
    ensures Inv(Run(s, events))
    decreases |events|
  {
    if events != [] {
      EventKeepsInv(s, events[0]);
      EveryRunKeepsInv(Next(s, events[0]), events[1..]);
    }
  }

  // ---------------------------------------------------------------- fragments and assembled messages

  /** Passed on with an offset that is not above the first message it came from. */
  predicate Lowered(t: Transport, o: Origin) {
    t.offset <= o.first
  }

  ghost predicate AllLowered(u: State, origins: seq<Origin>) {
    && |origins| == |u.unit.store.transports|
    && forall x :: 0 <= x < |origins| ==> Lowered(u.unit.store.transports[x], origins[x])
  }

  ghost predicate OpenFragment(a: Assembly.Assembler, partition: int, offset: int) {
    exists k :: k in a.open && k.0 == partition && offset in a.open[k].offsets
  }

  ghost predicate Moves(before: map<int, int>, after: map<int, int>, p: int) {
    p in after && (p !in before || before[p] != after[p])
  }

  /** The commit point lies past an offset: all that is pending is above it, or something processed is not below. */
  ghost predicate Past(ts: set<Transport>, p: int, offset: int) {
    if HasPending(ts, p) then forall t :: t in ts && t.partition == p && !t.processed ==> t.offset > offset
    else exists t :: t in ts && t.partition == p && t.processed && t.offset >= offset
  }

  /** When a round of commits passes an offset, be it that of an open fragment or of a bundle's first message. */
  lemma PassesIff(ts: set<Transport>, before: map<int, int>, committed: map<int, int>, p: int, offset: int)
    requires Advances(ts, before, committed) && WillBeReadAgain(before, p, offset)
    ensures !WillBeReadAgain(committed, p, offset) <==> Moves(before, committed, p) && Past(ts, p, offset)
  {
    if Moves(before, committed, p) {
      assert CommitPoint(ts, p, committed[p]);
      if HasPending(ts, p) {
        assert LowestPending(ts, p, committed[p]);
      } else {
        assert HighestProcessed(ts, p, committed[p] - 1);
      }
    }
  }

  /**
   A round of commits passes an open fragment exactly when it moves the partition and everything
   pending there lies above the fragment, or nothing is pending and a processed entry is not below it.
   */
  lemma RoundPassesOpenFragmentIff(s: System, committed: map<int, int>, p: int, offset: int)
    requires Valid(s) && Enabled(s, Commit(committed))
    requires OpenFragment(s.assembler, p, offset) && WillBeReadAgain(s.committed, p, offset)
    ensures !WillBeReadAgain(committed, p, offset) <==>
            Moves(s.committed, committed, p) && Past(Snapshot(s), p, offset)
  {
    hide Snapshot, OpenFragment;
    PassesIff(Snapshot(s), s.committed, committed, p, offset);
  }

  /** What the newest bundles and the open collections need first will be read again. */
  ghost predicate Rebuildable(s: System) {
    && OpenCovered(s.assembler, s.committed)
    && forall hub, x: nat :: hub in s.units && LatestComplete(s.units[hub], x) ==>
         hub in s.origins && x < |s.origins[hub]|
         && NotLost(s.units[hub], x, s.committed, s.origins[hub][x].partition, s.origins[hub][x].first)
  }

  /** Nothing is passed on above its first message, and no round meets the condition above. */
  ghost predicate Spares(s: System, e: Event)
    requires Valid(s) && Enabled(s, e)
  {
    match e
    case Receive(input, _, _, _) =>
      Assembly.EmittedOffset(s.assembler, input).Some? ==>
        Assembly.EmittedOffset(s.assembler, input).value <= OriginOf(s.assembler, input).first
    case Commit(committed) =>
      forall p, o :: OpenFragment(s.assembler, p, o) && Moves(s.committed, committed, p) ==>
        !Past(Snapshot(s), p, o)
    case _ => true
  }

  ghost predicate OpenCovered(a: Assembly.Assembler, committed: map<int, int>) {
    forall p, o :: OpenFragment(a, p, o) ==> WillBeReadAgain(committed, p, o)
  }

  ghost predicate UnitFirst(u: State, origins: seq<Origin>, committed: map<int, int>) {
    AllLowered(u, origins) && PendingCovered(u, origins, committed, true)
  }

  ghost predicate FirstCovered(s: System) {
    && Valid(s) && OpenCovered(s.assembler, s.committed)
    && forall hub :: hub in s.units ==> UnitFirst(s.units[hub], s.origins[hub], s.committed)
  }

  lemma FirstCoveredMeansRebuildable(s: System)
    requires Inv(s) && FirstCovered(s)
    ensures Rebuildable(s)
  {
    hide Ledger, Pending, Assembly.Inv, OpenFragment;
    forall hub, x: nat | hub in s.units && LatestComplete(s.units[hub], x)
      ensures x < |s.origins[hub]|
      ensures NotLost(s.units[hub], x, s.committed, s.origins[hub][x].partition, s.origins[hub][x].first)
    {
      assert UnitCovered(s.units[hub], s.origins[hub], s.committed, s.seen);
      assert UnitFirst(s.units[hub], s.origins[hub], s.committed);
      LatestIsOffered(s.units[hub], x);
    }
  }

  lemma CommitKeepsOpen(s: System, committed: map<int, int>)
    requires Inv(s) && FirstCovered(s) && Enabled(s, Commit(committed)) && Spares(s, Commit(committed))
    ensures OpenCovered(s.assembler, committed)
  {
    hide Inv, OpenFragment, Past, Snapshot, UnitFirst, Valid, Advances;
    forall p, o | OpenFragment(s.assembler, p, o)
      ensures WillBeReadAgain(committed, p, o)
    {
      RoundPassesOpenFragmentIff(s, committed, p, o);
    }
  }

  lemma CommitKeepsFirst(s: System, committed: map<int, int>)
    requires Inv(s) && FirstCovered(s) && Enabled(s, Commit(committed)) && Spares(s, Commit(committed))
    ensures FirstCovered(Next(s, Commit(committed)))
  {
    CommitKeepsOpen(s, committed);
    forall hub | hub in s.units
      ensures UnitFirst(s.units[hub], s.origins[hub], committed)
    {
      CommitKeepsPendingFirst(s, committed, hub);
      assert UnitFirst(s.units[hub], s.origins[hub], s.committed);
    }
    hide Inv, UnitFirst, OpenCovered, Spares, Snapshot;
  }

  /** A pending entry holds commits back to its own offset, so to its first message if it is lowered. */
  lemma PendingHoldsBack(u: State, origins: seq<Origin>, i: nat, ts: set<Transport>,
                         before: map<int, int>, committed: map<int, int>)
    requires ConflationRuns.Valid(u) && Pending(u, i) && |origins| == |u.unit.store.transports|
    requires u.unit.store.transports[OfferedAt(u, i)] in ts && Advances(ts, before, committed)
    requires var o := origins[OfferedAt(u, i)];
             && u.unit.store.transports[OfferedAt(u, i)].partition == o.partition
             && Lowered(u.unit.store.transports[OfferedAt(u, i)], o) && WillBeReadAgain(before, o.partition, o.first)
    ensures WillBeReadAgain(committed, origins[OfferedAt(u, i)].partition, origins[OfferedAt(u, i)].first)
  {
    var t := u.unit.store.transports[OfferedAt(u, i)];
    assert HasPending(ts, t.partition);
    hide ConflationRuns.Valid, Pending, OfferedAt;
  }

  lemma CommitKeepsPendingFirst(s: System, committed: map<int, int>, hub: string)
    requires Inv(s) && FirstCovered(s) && Enabled(s, Commit(committed)) && hub in s.units
    ensures PendingCovered(s.units[hub], s.origins[hub], committed, true)
  {
    var u, ts, origins := s.units[hub], Snapshot(s), s.origins[hub];
    assert UnitCovered(u, origins, s.committed, s.seen) && UnitFirst(u, origins, s.committed);
    hide Ledger, Inv, CommittedSeen, OpenCovered, Advances, WillBeReadAgain, FirstCovered;
    forall i: nat | Pending(u, i)
      ensures WillBeReadAgain(committed, origins[OfferedAt(u, i)].partition, origins[OfferedAt(u, i)].first)
    {
      var x := OfferedAt(u, i);
      assert SourcedAt(u.unit.store.transports[x], origins[x], s.seen)
             && Lowered(u.unit.store.transports[x], origins[x]);
      assert u.unit.store.transports[x] in ts;
      PendingHoldsBack(u, origins, i, ts, s.committed, committed);
    }
  }

  lemma PendingIsOffered(s: System, hub: string, i: nat)
    requires Inv(s) && hub in s.units && Pending(s.units[hub], i)
    ensures OfferedAt(s.units[hub], i) < |s.origins[hub]|
    ensures HasPending(Snapshot(s), s.origins[hub][OfferedAt(s.units[hub], i)].partition)
  {
    var u, x := s.units[hub], OfferedAt(s.units[hub], i);
    assert UnitCovered(u, s.origins[hub], s.committed, s.seen);
    assert SourcedAt(u.unit.store.transports[x], s.origins[hub][x], s.seen);
    assert u.unit.store.transports[x] in Snapshot(s);
    hide Inv, UnitCovered, Snapshot;
  }

  /**
   A bundle passed on above its first message, as an assembled one may be: a round passes that
   message exactly when it moves the partition and everything pending there lies above it.
   */
  lemma RoundPassesFirstMessageIff(s: System, committed: map<int, int>, hub: string, i: nat)
    requires Inv(s) && Enabled(s, Commit(committed)) && hub in s.units && Pending(s.units[hub], i)
    ensures OfferedAt(s.units[hub], i) < |s.origins[hub]|
    ensures var o := s.origins[hub][OfferedAt(s.units[hub], i)];
            WillBeReadAgain(s.committed, o.partition, o.first) ==>
              (!WillBeReadAgain(committed, o.partition, o.first) <==>
               && Moves(s.committed, committed, o.partition)
               && forall t :: t in Snapshot(s) && t.partition == o.partition && !t.processed ==> t.offset > o.first)
  {
    PendingIsOffered(s, hub, i);
    var o := s.origins[hub][OfferedAt(s.units[hub], i)];
    hide Snapshot, Pending, OfferedAt, ConflationRuns.Valid, HasPending, Moves;
    if WillBeReadAgain(s.committed, o.partition, o.first) {
      PassesIff(Snapshot(s), s.committed, committed, o.partition, o.first);
    }
  }

  lemma AddedIsLowered(u: State, r: State, i: nat, t: Transport, origins: seq<Origin>, o: Origin)
    requires Adds(u, r, i, t) && AllLowered(u, origins) && Lowered(t, o)
    ensures AllLowered(r, origins + [o])
  {
    hide Pending;
  }

  lemma UnitArrivesFirst(u: State, i: nat, b: Bundle, emitted: int, origins: seq<Origin>, o: Origin,
                         committed: map<int, int>)
    requires Ledger(u) && UnitFirst(u, origins, committed) && i < |u.unit.elements|
    requires emitted <= o.first && WillBeReadAgain(committed, o.partition, o.first)
    ensures UnitFirst(ConflationRuns.Next(u, Step.Arrive(i, b, o.partition, emitted)),
                      if Accepts(u.unit, i, b) then origins + [o] else origins, committed)
  {
    hide ConflationRuns.Next, AllLowered, PendingCovered, Accepts, Adds;
    var t := Transport(o.partition, emitted, false);
    ArriveAdds(u, i, b, o.partition, emitted);
    if Accepts(u.unit, i, b) {
      var r := ConflationRuns.Next(u, Step.Arrive(i, b, o.partition, emitted));
      AddedIsLowered(u, r, i, t, origins, o);
      AddedIsCovered(u, r, i, t, origins, o, committed, true);
    }
  }

  ghost predicate UnitsFirst(s: System) {
    && s.units.Keys == s.origins.Keys
    && forall hub :: hub in s.units ==> UnitFirst(s.units[hub], s.origins[hub], s.committed)
  }

  /** The arrival of a lowered message whose first part will be read again. */
  lemma ArriveKeepsFirst(s: System, hub: string, i: nat, b: Bundle, emitted: int, o: Origin)
    requires Inv(s) && UnitsFirst(s) && hub in s.units && i < |s.units[hub].unit.elements|
    requires emitted <= o.first && WillBeReadAgain(s.committed, o.partition, o.first)
    ensures UnitsFirst(Arrive(s, hub, i, b, emitted, o))
  {
    hide UnitFirst, Ledger, ConflationRuns.Next, Accepts;
    assert UnitCovered(s.units[hub], s.origins[hub], s.committed, s.seen);
    UnitArrivesFirst(s.units[hub], i, b, emitted, s.origins[hub], o, s.committed);
  }

  lemma NextOpenIsCovered(s: System, input: Assembly.Input)
    requires Inv(s) && Assembly.Arrives(s.seen, input) && OpenCovered(s.assembler, s.committed)
    ensures OpenCovered(Assembly.Next(s.assembler, input), s.committed)
  {
    var n := Assembly.Next(s.assembler, input);
    hide Assembly.Next, Assembly.Inv, UnitCovered;
    forall p, o | OpenFragment(n, p, o)
      ensures WillBeReadAgain(s.committed, p, o)
    {
      var k :| k in n.open && k.0 == p && o in n.open[k].offsets;
      Assembly.NextOffsets(s.assembler, input, k, o);
      if k in s.assembler.open && o in s.assembler.open[k].offsets {
        assert OpenFragment(s.assembler, p, o);
      }
    }
  }

  lemma OriginIsCovered(s: System, input: Assembly.Input)
    requires Inv(s) && Assembly.Arrives(s.seen, input) && Assembly.EmittedOffset(s.assembler, input).Some?
    requires OpenCovered(s.assembler, s.committed)
    ensures var o := OriginOf(s.assembler, input); WillBeReadAgain(s.committed, o.partition, o.first)
  {
    if input.FragmentOf? {
      var k := input.info.Place();
      assert Assembly.Bounded(s.assembler.open[k]);
      assert s.assembler.open[k].lowestOffset in s.assembler.open[k].offsets;
      assert OpenFragment(s.assembler, k.0, s.assembler.open[k].lowestOffset);
    }
    hide UnitCovered;
  }

  /** A sparing message is passed on at an offset that is not above its first one, which will be read again. */
  lemma SparedIsLowered(s: System, input: Assembly.Input, hub: string, i: nat, b: Bundle)
    requires Inv(s) && FirstCovered(s) && Enabled(s, Receive(input, hub, i, b)) && Spares(s, Receive(input, hub, i, b))
    requires Assembly.EmittedOffset(s.assembler, input).Some?
    ensures var emitted, o := Assembly.EmittedOffset(s.assembler, input).value, OriginOf(s.assembler, input);
            && emitted <= o.first && WillBeReadAgain(s.committed, o.partition, o.first)
            && hub in s.units && i < |s.units[hub].unit.elements|
  {
    hide UnitCovered, Assembly.Inv, OpenCovered, UnitFirst;
    OriginIsCovered(s, input);
  }

  lemma PassedKeepsFirst(s: System, input: Assembly.Input, hub: string, i: nat, b: Bundle)
    requires Inv(s) && FirstCovered(s) && Enabled(s, Receive(input, hub, i, b)) && Spares(s, Receive(input, hub, i, b))
    ensures UnitsFirst(Passed(s, input, hub, i, b)) && Passed(s, input, hub, i, b).committed == s.committed
  {
    hide Inv, UnitFirst, OpenCovered, Spares, Assembly.EmittedOffset, Assembly.Arrives, OriginOf;
    if Assembly.EmittedOffset(s.assembler, input).Some? {
      SparedIsLowered(s, input, hub, i, b);
      ArriveKeepsFirst(s, hub, i, b, Assembly.EmittedOffset(s.assembler, input).value, OriginOf(s.assembler, input));
    }
  }

  lemma ReceiveKeepsFirst(s: System, input: Assembly.Input, hub: string, i: nat, b: Bundle)
    requires Inv(s) && FirstCovered(s) && Enabled(s, Receive(input, hub, i, b)) && Spares(s, Receive(input, hub, i, b))
    ensures FirstCovered(Next(s, Receive(input, hub, i, b)))
  {
    NextOpenIsCovered(s, input);
    PassedKeepsFirst(s, input, hub, i, b);
    hide Inv, UnitFirst, OpenCovered, Assembly.Next, Passed, Spares, Assembly.EmittedOffset;
  }

  lemma SettledIsLowered(u: State, r: State, origins: seq<Origin>)
    requires OnlySettles(u, r) && AllLowered(u, origins)
    ensures AllLowered(r, origins)
  {
    hide Pending;
  }

  lemma StepKeepsUnitFirst(u: State, step: Step, origins: seq<Origin>, committed: map<int, int>)
    requires Ledger(u) && UnitFirst(u, origins, committed) && ConflationRuns.Enabled(u, step) && !step.Arrive?
    ensures UnitFirst(ConflationRuns.Next(u, step), origins, committed)
  {
    hide ConflationRuns.Next, AllLowered, PendingCovered, OnlySettles;
    StepSettles(u, step);
    var r := ConflationRuns.Next(u, step);
    SettledIsLowered(u, r, origins);
    SettledIsCovered(u, r, origins, committed, true);
  }

  lemma UnitStepKeepsFirst(s: System, hub: string, step: Step)
    requires Inv(s) && FirstCovered(s) && Enabled(s, UnitStep(hub, step))
    ensures FirstCovered(Next(s, UnitStep(hub, step)))
  {
    assert UnitCovered(s.units[hub], s.origins[hub], s.committed, s.seen);
    StepKeepsUnitFirst(s.units[hub], step, s.origins[hub], s.committed);
    hide Inv, UnitFirst, UnitCovered, OpenCovered, ConflationRuns.Next;
  }

  lemma CreateKeepsFirst(s: System, hub: string, unit: State)
    requires FirstCovered(s) && Enabled(s, CreateUnit(hub, unit))
    ensures FirstCovered(Next(s, CreateUnit(hub, unit)))
  {
    assert UnitFirst(unit, [], s.committed);
    hide UnitFirst, OpenCovered;
  }

  lemma EventKeepsFirst(s: System, e: Event)
    requires Inv(s) && FirstCovered(s) && Enabled(s, e) && Spares(s, e)
    ensures FirstCovered(Next(s, e))
  {
    hide Inv, FirstCovered, Next, Spares;
    match e
    case Receive(input, hub, priority, bundle) => ReceiveKeepsFirst(s, input, hub, priority, bundle);
    case UnitStep(hub, step) => UnitStepKeepsFirst(s, hub, step);
    case CreateUnit(hub, unit) => CreateKeepsFirst(s, hub, unit);
    case Commit(committed) => CommitKeepsFirst(s, committed);
  }

  ghost predicate SparingRun(s: System, events: seq<Event>)
    requires Valid(s) && RunEnabled(s, events)
    decreases |events|
  {
    events == [] || (Spares(s, events[0]) && SparingRun(Next(s, events[0]), events[1..]))
  }

  lemma {:induction false} SparingRunsKeepFirst(s: System, events: seq<Event>)
    requires Inv(s) && FirstCovered(s) && RunEnabled(s, events) && SparingRun(s, events)
    ensures Inv(Run(s, events)) && FirstCovered(Run(s, events))
    decreases |events|
  {
    if events != [] {
      EventKeepsInv(s, events[0]);
      EventKeepsFirst(s, events[0]);
      SparingRunsKeepFirst(Next(s, events[0]), events[1..]);
    }
  }

  /**
   In a run in which no message is passed on above its first part and no round of commits meets the
   condition for passing an open fragment, a restart finds everything: the newest bundles from
   their first messages on, assembled or not, and every open fragment.
   */
  lemma SparingRunsAreRebuildable(events: seq<Event>)
    requires RunEnabled(START, events) && SparingRun(START, events)
    ensures Rebuildable(Run(START, events))
  {
    SparingRunsKeepFirst(START, events);
    FirstCoveredMeansRebuildable(Run(START, events));
  }
}
