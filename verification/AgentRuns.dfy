/**
 Runs of a leaf hub's agent: policies are updated and deleted, bundles are sent in any order,
 the transport reports delivery at any time.
 */
module AgentRuns {
  import opened AgentState
  import opened Compliance
  import opened DeltaMerge
  import opened Versions

  datatype Message =
    | FullMessage(version: Version, view: PolicyMap)
    | CompleteMessage(version: Version, base: Version, view: PolicyMap)
    | DeltaMessage(delta: Delta)

  /** A sync step handles one bundle of the collection; `handedOver` tells whether the transport took the message. */
  datatype Step =
    | Update(policy: string, statuses: Statuses)
    | Delete(policy: string)
    | SyncFull
    | SyncComplete(handedOver: bool)
    | SyncDelta(handedOver: bool)
    | DeliverySuccess
    | DeliveryFailure

  predicate Initial(a: Agent) {
    && a.factor > 0
    && a.full == Full(map[], 0) && a.complete == Complete(map[], 0)
    && a.delta == Changes(map[], map[], map[], 0, 0, 0) && a.hybrid == Hybrid(CompleteState, 0)
    && a.sentFull == 0 && a.sentComplete == 0 && a.sentDelta == 0
  }

  /** A bundle is sent in its mode, when it is newer than what was sent last. */
  predicate SendsComplete(a: Agent) {
    a.hybrid.mode == CompleteState && a.complete.generation > a.sentComplete
  }

  predicate SendsDelta(a: Agent) {
    a.hybrid.mode == DeltaState && a.delta.generation > a.sentDelta
  }

  function CompleteNow(a: Agent): Message {
    CompleteMessage(Version(a.incarnation, a.complete.generation), Version(a.incarnation, a.full.generation),
                    a.complete.view)
  }

  function DeltaNow(a: Agent): Delta {
    Delta(Version(a.incarnation, a.delta.generation), Version(a.incarnation, a.delta.base), Flatten(a.delta.pending))
  }

  /** What a sync remembers as sent, whether or not the transport took it. */
  function Next(a: Agent, step: Step): Agent {
    match step
    case Update(p, st) =>
      var full := UpdateFull(a.full, p, st);
      a.(full := full, complete := UpdateComplete(a.complete, p, st), delta := UpdateChanges(a.delta, p, st, full.view))
    case Delete(p) =>
      a.(full := DeleteFull(a.full, p), complete := DeleteComplete(a.complete, p), delta := DeleteChanges(a.delta, p))
    case SyncFull => if a.full.generation > a.sentFull then a.(sentFull := a.full.generation) else a
    case SyncComplete(handedOver) =>
      if !SendsComplete(a) then a
      else (if handedOver then Attempted(a) else Failed(a)).(sentComplete := a.complete.generation)
    case SyncDelta(handedOver) =>
      if !SendsDelta(a) then a
      else (if handedOver then Attempted(a) else Failed(a)).(sentDelta := a.delta.generation)
    case DeliverySuccess => Succeeded(a)
    case DeliveryFailure => Failed(a)
  }

  /** The message a step hands to the transport, if any. */
  function Sent(a: Agent, step: Step): seq<Message> {
    match step
    case SyncFull =>
      if a.full.generation > a.sentFull then [FullMessage(Version(a.incarnation, a.full.generation), a.full.view)]
      else []
    case SyncComplete(handedOver) => if SendsComplete(a) && handedOver then [CompleteNow(a)] else []
    case SyncDelta(handedOver) => if SendsDelta(a) && handedOver then [DeltaMessage(DeltaNow(a))] else []
    case _ => []
  }

  function Run(a: Agent, steps: seq<Step>): Agent
    decreases |steps|
  {
    if steps == [] then a else Next(Run(a, steps[..|steps| - 1]), steps[|steps| - 1])
  }

  function AllSent(a: Agent, steps: seq<Step>): seq<Message>
    decreases |steps|
  {
    if steps == [] then []
    else AllSent(a, steps[..|steps| - 1]) + Sent(Run(a, steps[..|steps| - 1]), steps[|steps| - 1])
  }

  lemma RunSnoc(a: Agent, steps: seq<Step>, last: Step)
    ensures Run(a, steps + [last]) == Next(Run(a, steps), last)
    ensures AllSent(a, steps + [last]) == AllSent(a, steps) + Sent(Run(a, steps), last)
  {
    assert (steps + [last])[..|steps|] == steps;
    hide Next, Sent;
  }

  lemma RunNothing(a: Agent)
    ensures Run(a, []) == a && AllSent(a, []) == []
  {
  }

  // ---------------------------------------------------------------- what every run keeps

  /** Everything recorded about a live policy is its current status. */
  predicate RecordsLive(full: PolicyMap, records: PolicyMap) {
    forall p :: p in full ==>
      p in records && forall c :: c in full[p] ==> c in records[p] && records[p][c] == full[p][c]
  }

  /**
   A pending cluster has exactly its recorded status, and a cluster that is not pending still has
   the status recorded at the last reset or sync, or when the policy's entry was created.
   */
  ghost predicate PendingSince(d: Changes) {
    && (forall p :: p in d.since <==> p in d.records)
    && (forall p :: p in d.pending ==> p in d.records)
    && forall p :: p in d.records ==> AccountsFor(d.since[p], Lookup(d.pending, p), d.records[p])
  }

  predicate AccountsFor(since: Statuses, pending: Statuses, recorded: Statuses) {
    recorded == since + pending
  }

  predicate ListsNotCompliant(full: PolicyMap, complete: PolicyMap) {
    && (forall p :: p in complete ==> p in full && complete[p] != map[])
    && (forall p :: p in full ==> Lookup(complete, p) == NotCompliant(full[p]))
  }

  ghost predicate Inv(a: Agent) {
    && a.factor > 0
    && ListsNotCompliant(a.full.view, a.complete.view)
    && RecordsLive(a.full.view, a.delta.records)
    && PendingSince(a.delta) && a.delta.pending.Keys <= a.full.view.Keys
    && a.delta.base <= a.complete.generation
    && (a.hybrid.mode == DeltaState ==> a.hybrid.sentDeltas < a.factor)
  }

  lemma UpdateKeepsComplete(full: PolicyMap, f: Complete, p: string, st: Statuses)
    requires ListsNotCompliant(full, f.view)
    ensures ListsNotCompliant(full[p := st], UpdateComplete(f, p, st).view)
  {
    hide NotCompliant, Lookup;
    var listed := NotCompliant(st);
    LookupNothing(f.view, p);
    forall q | q in full[p := st]
      ensures Lookup(UpdateComplete(f, p, st).view, q) == NotCompliant(full[p := st][q])
    {
      LookupPut(f.view, p, listed, q);
      if q == p {
        LookupNothing(f.view - {p}, p);
      } else {
        LookupWithout(f.view, p, q);
      }
    }
  }

  lemma LookupNothing(m: PolicyMap, p: string)
    ensures p !in m ==> Lookup(m, p) == map[]
    ensures p in m ==> Lookup(m, p) == m[p]
  {
  }

  lemma ChangedCovers(recorded: Statuses, st: Statuses)
    ensures forall c :: c in st ==>
            c in recorded + Changed(recorded, st) && (recorded + Changed(recorded, st))[c] == st[c]
  {
  }

  lemma PlusAssociates(a: Statuses, b: Statuses, c: Statuses)
    ensures a + (b + c) == (a + b) + c
  {
  }

  lemma UpdateKeepsRecords(full: PolicyMap, d: Changes, p: string, st: Statuses)
    requires RecordsLive(full, d.records)
    ensures RecordsLive(full[p := st], UpdateChanges(d, p, st, full[p := st]).records)
  {
    if p in d.records {
      ChangedCovers(d.records[p], st);
      if Changed(d.records[p], st) == map[] {
        assert d.records[p] + map[] == d.records[p];
      }
      hide Changed;
    }
  }

  lemma LookupPut(m: PolicyMap, p: string, st: Statuses, q: string)
    ensures Lookup(m[p := st], q) == if q == p then st else Lookup(m, q)
  {
  }

  lemma AccountsForMore(d: Changes, p: string, changed: Statuses, q: string)
    requires PendingSince(d) && p in d.records && q in d.records
    ensures AccountsFor(d.since[q], Lookup(d.pending[p := Lookup(d.pending, p) + changed], q),
                        d.records[p := d.records[p] + changed][q])
  {
    assert AccountsFor(d.since[q], Lookup(d.pending, q), d.records[q]);
    LookupPut(d.pending, p, Lookup(d.pending, p) + changed, q);
    hide Lookup, PendingSince;
    if q == p {
      PlusAssociates(d.since[p], Lookup(d.pending, p), changed);
    }
  }

  lemma PendingSinceMore(d: Changes, p: string, changed: Statuses)
    requires PendingSince(d) && p in d.records
    ensures PendingSince(d.(pending := d.pending[p := Lookup(d.pending, p) + changed],
                            records := d.records[p := d.records[p] + changed], generation := d.generation + 1))
  {
    hide Lookup, AccountsFor;
    forall q | q in d.records
      ensures AccountsFor(d.since[q], Lookup(d.pending[p := Lookup(d.pending, p) + changed], q),
                          d.records[p := d.records[p] + changed][q])
    {
      AccountsForMore(d, p, changed, q);
    }
  }

  lemma PendingSinceNew(d: Changes, p: string, st: Statuses)
    requires PendingSince(d) && p !in d.records
    ensures PendingSince(d.(records := d.records[p := st], since := d.since[p := st]))
  {
    assert AccountsFor(st, map[], st);
    hide AccountsFor;
  }

  lemma UpdateKeepsPending(full: PolicyMap, d: Changes, p: string, st: Statuses)
    requires PendingSince(d) && d.pending.Keys <= full.Keys
    ensures var r := UpdateChanges(d, p, st, full[p := st]);
            PendingSince(r) && r.pending.Keys <= full[p := st].Keys
  {
    if p in d.records {
      PendingSinceMore(d, p, Changed(d.records[p], st));
    } else {
      PendingSinceNew(d, p, st);
    }
    hide Changed, PendingSince;
  }

  lemma UpdateKeepsChanges(full: PolicyMap, d: Changes, p: string, st: Statuses)
    requires RecordsLive(full, d.records) && PendingSince(d) && d.pending.Keys <= full.Keys
    ensures var r := UpdateChanges(d, p, st, full[p := st]);
            RecordsLive(full[p := st], r.records) && PendingSince(r) && r.pending.Keys <= full[p := st].Keys
  {
    UpdateKeepsRecords(full, d, p, st);
    UpdateKeepsPending(full, d, p, st);
    hide RecordsLive, PendingSince, UpdateChanges;
  }

  lemma DeleteKeepsChanges(full: PolicyMap, d: Changes, p: string)
    requires RecordsLive(full, d.records) && PendingSince(d) && d.pending.Keys <= full.Keys
    ensures var r := DeleteChanges(d, p);
            RecordsLive(full - {p}, r.records) && PendingSince(r) && r.pending.Keys <= (full - {p}).Keys
  {
  }

  lemma ResetKeepsChanges(full: PolicyMap, d: Changes)
    requires RecordsLive(full, d.records) && PendingSince(d)
    ensures RecordsLive(full, Reset(d).records) && PendingSince(Reset(d)) && Reset(d).pending == map[]
  {
    forall p | p in d.records
      ensures AccountsFor(d.records[p], map[], d.records[p])
    {
      assert d.records[p] + map[] == d.records[p];
    }
    hide AccountsFor;
  }

  lemma SyncKeepsChanges(full: PolicyMap, d: Changes, generation: nat)
    ensures var r := SyncState(Reset(d), full, generation);
            RecordsLive(full, r.records) && PendingSince(r) && r.pending == map[] && r.base == generation
  {
    var r := SyncState(Reset(d), full, generation);
    forall p | p in full
      ensures AccountsFor(full[p], Lookup(r.pending, p), full[p])
    {
      assert full[p] + map[] == full[p];
    }
    hide AccountsFor, Lookup;
  }

  lemma SwitchKeepsInv(a: Agent)
    requires Inv(a)
    ensures Inv(SwitchToDelta(a))
  {
    SyncKeepsChanges(a.full.view, a.delta, a.complete.generation);
    hide RecordsLive, PendingSince, ListsNotCompliant, SyncState, Reset;
  }

  lemma AttemptKeepsInv(a: Agent)
    requires Inv(a)
    ensures Inv(Attempted(a)) && Inv(Succeeded(a)) && Inv(Failed(a))
  {
    SwitchKeepsInv(a);
    ResetKeepsChanges(a.full.view, a.delta);
    hide RecordsLive, PendingSince, ListsNotCompliant;
  }

  lemma UpdateKeepsInv(a: Agent, p: string, st: Statuses)
    requires Inv(a)
    ensures Inv(Next(a, Update(p, st)))
  {
    UpdateKeepsComplete(a.full.view, a.complete, p, st);
    UpdateKeepsChanges(a.full.view, a.delta, p, st);
    hide RecordsLive, PendingSince, ListsNotCompliant;
  }

  lemma LookupWithout(m: PolicyMap, p: string, q: string)
    requires q != p
    ensures Lookup(m - {p}, q) == Lookup(m, q)
  {
  }

  lemma DeleteKeepsComplete(full: Full, f: Complete, p: string)
    requires ListsNotCompliant(full.view, f.view)
    ensures ListsNotCompliant(DeleteFull(full, p).view, DeleteComplete(f, p).view)
    ensures DeleteFull(full, p).view == full.view - {p}
  {
    hide NotCompliant, Lookup;
    assert p !in full.view ==> full.view - {p} == full.view;
    forall q | q in full.view && q != p
      ensures Lookup(f.view - {p}, q) == NotCompliant(full.view[q])
    {
      LookupWithout(f.view, p, q);
    }
  }

  lemma DeleteKeepsInv(a: Agent, p: string)
    requires Inv(a)
    ensures Inv(Next(a, Delete(p)))
  {
    DeleteKeepsChanges(a.full.view, a.delta, p);
    DeleteKeepsComplete(a.full, a.complete, p);
    hide RecordsLive, PendingSince, ListsNotCompliant, DeleteFull;
  }

  lemma StepKeepsInv(a: Agent, step: Step)
    requires Inv(a)
    ensures Inv(Next(a, step))
  {
    AttemptKeepsInv(a);
    match step
    case Update(p, st) => UpdateKeepsInv(a, p, st);
    case Delete(p) => DeleteKeepsInv(a, p);
    case _ => hide RecordsLive, PendingSince, ListsNotCompliant, Attempted, Succeeded, Failed;
  }

  /** Every reachable agent: both encodings describe the live state, deltas count below the factor. */
  lemma {:induction false} EveryRunKeepsInv(a: Agent, steps: seq<Step>)
    requires Inv(a)
    ensures Inv(Run(a, steps))
    decreases |steps|
  {
    if steps != [] {
      EveryRunKeepsInv(a, steps[..|steps| - 1]);
      StepKeepsInv(Run(a, steps[..|steps| - 1]), steps[|steps| - 1]);
    }
  }

  lemma InitialInv(a: Agent)
    requires Initial(a)
    ensures Inv(a)
  {
  }
}
