/**
 The leaf hub's policy bundles and their sync manager, as values: full state, complete
 compliance and delta compliance, all fed with the same policy events.
 */
module AgentState {
  import opened Compliance

  type Statuses = map<string, Status>

  // ---------------------------------------------------------------- clusters per policy

  /** The full state; its generation counts changes of policies or of a policy's cluster list. */
  datatype Full = Full(view: PolicyMap, generation: nat)

  function UpdateFull(f: Full, p: string, st: Statuses): Full {
    Full(f.view[p := st],
         if p !in f.view || f.view[p].Keys != st.Keys then f.generation + 1 else f.generation)
  }

  function DeleteFull(f: Full, p: string): Full {
    if p in f.view then Full(f.view - {p}, f.generation + 1) else f
  }

  // ---------------------------------------------------------------- complete compliance

  /** Only clusters that are not compliant, and only policies that have some. */
  datatype Complete = Complete(view: PolicyMap, generation: nat)

  function NotCompliant(st: Statuses): Statuses {
    map c | c in st && st[c] != Compliant :: st[c]
  }

  function UpdateComplete(f: Complete, p: string, st: Statuses): Complete {
    var listed := NotCompliant(st);
    if Lookup(f.view, p) == listed then f
    else Complete(if listed == map[] then f.view - {p} else f.view[p := listed], f.generation + 1)
  }

  /** No new generation: the full state tells that the policy is gone. */
  function DeleteComplete(f: Complete, p: string): Complete {
    Complete(f.view - {p}, f.generation)
  }

  // ---------------------------------------------------------------- delta compliance

  /**
   What changed since the last reset, and every policy's recorded statuses. `since` are the
   records as of the last reset or sync, or of the creation of the entry; it decides nothing.
   */
  datatype Changes = Changes(
    pending: PolicyMap, records: PolicyMap, since: PolicyMap, base: nat, generation: nat, transportId: nat)

  function Changed(recorded: Statuses, st: Statuses): Statuses {
    map c | c in st && !(c in recorded && recorded[c] == st[c]) :: st[c]
  }

  function UpdateChanges(d: Changes, p: string, st: Statuses, full: PolicyMap): Changes {
    if p !in d.records then
      if p in full then d.(records := d.records[p := full[p]], since := d.since[p := full[p]]) else d
    else
      var changed := Changed(d.records[p], st);
      if changed == map[] then d
      else d.(pending := d.pending[p := Lookup(d.pending, p) + changed],
              records := d.records[p := d.records[p] + changed],
              generation := d.generation + 1)
  }

  /** Records are dropped only together with a pending change. */
  function DeleteChanges(d: Changes, p: string): Changes {
    if p in d.pending then d.(pending := d.pending - {p}, records := d.records - {p}, since := d.since - {p}) else d
  }

  function Reset(d: Changes): Changes {
    d.(pending := map[], since := d.records, transportId := d.transportId + 1)
  }

  function SyncState(d: Changes, full: PolicyMap, completeGeneration: nat): Changes {
    d.(base := completeGeneration, records := full, since := full, transportId := 0)
  }

  // ---------------------------------------------------------------- the sync manager

  datatype Mode = CompleteState | DeltaState

  /** The active mode and the number of deltas attempted since it became delta. */
  datatype Hybrid = Hybrid(mode: Mode, sentDeltas: nat)

  datatype Agent = Agent(
    incarnation: nat, factor: nat, full: Full, complete: Complete, delta: Changes, hybrid: Hybrid,
    sentFull: nat, sentComplete: nat, sentDelta: nat)

  function SwitchToDelta(a: Agent): Agent {
    a.(hybrid := Hybrid(DeltaState, 0), delta := SyncState(Reset(a.delta), a.full.view, a.complete.generation))
  }

  function SwitchToComplete(a: Agent): Agent {
    a.(hybrid := a.hybrid.(mode := CompleteState))
  }

  /** A message was handed to the transport. When the last delta before a switch was sent, nothing is reset. */
  function Attempted(a: Agent): Agent {
    if a.hybrid.mode == CompleteState then SwitchToDelta(a)
    else
      var counted := a.(hybrid := a.hybrid.(sentDeltas := a.hybrid.sentDeltas + 1));
      if counted.hybrid.sentDeltas == a.factor then SwitchToComplete(counted)
      else counted.(delta := Reset(a.delta))
  }

  function Succeeded(a: Agent): Agent {
    if a.hybrid.mode == DeltaState then a else SwitchToDelta(a)
  }

  function Failed(a: Agent): Agent {
    if a.hybrid.mode == CompleteState then a else SwitchToComplete(a)
  }
}
