/**
 Concurrent writers of one cluster's label row: patch requests, each retried a number of times,
 and the trimmer. Every write is conditional on the version that was read.
 */
module LabelRace {
  import opened Labels
  import opened Options

  datatype LabelRow = LabelRow(change: Change, version: nat)

  /** A write that took effect. */
  datatype Write = PatchedBy(client: int, request: Change) | TrimmedBy(status: LabelMap)

  datatype Phase = Ready | HasRead(snapshot: Option<LabelRow>) | Succeeded | Failed

  /** A patch request with the attempts it has left, or the trimmer. */
  datatype Client = Patcher(request: Change, attempts: nat, phase: Phase) | Trimmer(phase: Phase)

  /** `history` records the writes in the order they took effect and decides nothing. */
  datatype State = State(row: Option<LabelRow>, clients: map<int, Client>, history: seq<Write>)

  datatype Step =
    | Read(client: int)
    | TryWrite(client: int)
    | TryTrim(client: int, status: LabelMap)
    | Interrupt(client: int)

  predicate Empty(request: Change) {
    request.labels == map[] && request.deleted == {}
  }

  predicate Enabled(s: State, step: Step) {
    && step.client in s.clients
    && var c := s.clients[step.client];
       match step
       case Read(_) => c.phase.Ready?
       case TryWrite(_) => c.Patcher? && c.phase.HasRead?
       case TryTrim(_, _) => c.Trimmer? && c.phase.HasRead? && c.phase.snapshot.Some?
       case Interrupt(_) => c.phase.HasRead?
  }

  /** An attempt failed: try again unless it was the last. */
  function Retried(c: Client): Client {
    if c.Trimmer? then Trimmer(Ready)
    else if c.attempts <= 1 then Patcher(c.request, 0, Failed)
    else Patcher(c.request, c.attempts - 1, Ready)
  }

  function WithPhase(c: Client, phase: Phase): Client {
    if c.Trimmer? then Trimmer(phase) else Patcher(c.request, c.attempts, phase)
  }

  /** The row after a write, whoever makes it. */
  function Written(row: Option<LabelRow>, w: Write): Option<LabelRow> {
    match w
    case PatchedBy(_, request) =>
      if row.None? then Some(LabelRow(request, 0))
      else Some(LabelRow(Merged(row.value.change, request), row.value.version + 1))
    case TrimmedBy(status) =>
      if row.None? then None else Some(LabelRow(Trimmed(row.value.change, status), row.value.version + 1))
  }

  /** An INSERT needs the row to be missing, an UPDATE the version that was read. */
  predicate Unchanged(row: Option<LabelRow>, snapshot: Option<LabelRow>) {
    if snapshot.None? then row.None? else row.Some? && row.value.version == snapshot.value.version
  }

  /** The writer computes the new row from what it read. */
  function Next(s: State, step: Step): State
    requires Enabled(s, step)
  {
    var i, c := step.client, s.clients[step.client];
    match step
    case Read(_) =>
      s.(clients := s.clients[i := WithPhase(c, if c.Patcher? && Empty(c.request) then Succeeded else HasRead(s.row))])
    case TryWrite(_) =>
      if Unchanged(s.row, c.phase.snapshot)
      then State(Written(c.phase.snapshot, PatchedBy(i, c.request)), s.clients[i := WithPhase(c, Succeeded)],
                 s.history + [PatchedBy(i, c.request)])
      else s.(clients := s.clients[i := Retried(c)])
    case TryTrim(_, status) =>
      if Unchanged(s.row, c.phase.snapshot)
      then State(Written(c.phase.snapshot, TrimmedBy(status)), s.clients[i := Trimmer(Ready)],
                 s.history + [TrimmedBy(status)])
      else s.(clients := s.clients[i := Trimmer(Ready)])
    case Interrupt(_) => s.(clients := s.clients[i := Retried(c)])
  }

  // ---------------------------------------------------------------- serialization

  function Replay(history: seq<Write>): Option<LabelRow>
    decreases |history|
  {
    if history == [] then None else Written(Replay(history[..|history| - 1]), history[|history| - 1])
  }

  function WritesOf(history: seq<Write>, client: int): nat
    decreases |history|
  {
    if history == [] then 0
    else
      WritesOf(history[..|history| - 1], client)
      + if history[|history| - 1].PatchedBy? && history[|history| - 1].client == client then 1 else 0
  }

  /** A snapshot of the current version is the current row. */
  predicate SnapshotFits(row: Option<LabelRow>, c: Client) {
    c.phase.HasRead? && c.phase.snapshot.Some? ==>
      && row.Some? && c.phase.snapshot.value.version <= row.value.version
      && (c.phase.snapshot.value.version == row.value.version ==> c.phase.snapshot == row)
  }

  /** A request took effect exactly once if it succeeded, and never otherwise. */
  predicate TookEffect(history: seq<Write>, i: int, c: Client) {
    WritesOf(history, i) == if c.Patcher? && c.phase.Succeeded? && !Empty(c.request) then 1 else 0
  }

  /** The row is what the writes, one after the other, make of it. */
  ghost predicate Serialized(s: State) {
    && s.row == Replay(s.history)
    && (s.row.Some? ==> s.row.value.version + 1 == |s.history|)
    && (s.row.None? ==> s.history == [])
    && (forall i :: i in s.clients ==> SnapshotFits(s.row, s.clients[i]) && TookEffect(s.history, i, s.clients[i]))
    && (forall i :: i in s.clients && s.clients[i].Patcher? && s.clients[i].phase.HasRead? ==>
          !Empty(s.clients[i].request))
  }

  predicate Initial(s: State) {
    && s.row.None? && s.history == []
    && forall i :: i in s.clients ==> s.clients[i].phase.Ready?
  }

  lemma HistorySnoc(history: seq<Write>, w: Write)
    ensures Replay(history + [w]) == Written(Replay(history), w)
    ensures forall i :: WritesOf(history + [w], i) ==
                        WritesOf(history, i) + if w.PatchedBy? && w.client == i then 1 else 0
  {
    assert (history + [w])[..|history|] == history;
  }

  lemma WriteKeepsSerialized(s: State, i: int, c: Client, w: Write)
    requires Serialized(s) && i in s.clients && c.Trimmer? == s.clients[i].Trimmer? && c.phase != s.clients[i].phase
    requires !c.phase.HasRead? && s.clients[i].phase.HasRead? && Unchanged(s.row, s.clients[i].phase.snapshot)
    requires w.PatchedBy? <==> c.Patcher?
    requires w.PatchedBy? ==> w.client == i && c.phase.Succeeded? && c.request == s.clients[i].request
    requires w.TrimmedBy? ==> s.clients[i].phase.snapshot.Some?
    ensures Serialized(State(Written(s.clients[i].phase.snapshot, w), s.clients[i := c], s.history + [w]))
  {
    assert SnapshotFits(s.row, s.clients[i]) && TookEffect(s.history, i, s.clients[i]);
    HistorySnoc(s.history, w);
    hide Merged, Trimmed, WritesOf, Replay;
  }

  lemma StepKeepsSerialized(s: State, step: Step)
    requires Serialized(s) && Enabled(s, step)
    ensures Serialized(Next(s, step))
  {
    var i, c := step.client, s.clients[step.client];
    assert SnapshotFits(s.row, c) && TookEffect(s.history, i, c);
    if step.TryWrite? && Unchanged(s.row, c.phase.snapshot) {
      WriteKeepsSerialized(s, i, WithPhase(c, Succeeded), PatchedBy(i, c.request));
    } else if step.TryTrim? && Unchanged(s.row, c.phase.snapshot) {
      WriteKeepsSerialized(s, i, Trimmer(Ready), TrimmedBy(step.status));
    }
    hide Written, WritesOf, Replay;
  }

  function Run(s: State, steps: seq<Step>): State
    requires RunEnabled(s, steps)
    decreases |steps|
  {
    if steps == [] then s else Run(Next(s, steps[0]), steps[1..])
  }

  predicate RunEnabled(s: State, steps: seq<Step>)
    decreases |steps|
  {
    steps == [] || (Enabled(s, steps[0]) && RunEnabled(Next(s, steps[0]), steps[1..]))
  }

  /**
   In every interleaving the row equals the successful writes applied one after the other in the
   order of their versions, each request taking effect once if it succeeded and not at all if it failed.
   */
  lemma {:induction false} EveryRunIsSerialized(s: State, steps: seq<Step>)
    requires Serialized(s) && RunEnabled(s, steps)
    ensures Serialized(Run(s, steps))
    decreases |steps|
  {
    if steps != [] {
      StepKeepsSerialized(s, steps[0]);
      EveryRunIsSerialized(Next(s, steps[0]), steps[1..]);
    }
  }

  lemma InitialIsSerialized(s: State)
    requires Initial(s)
    ensures Serialized(s)
  {
  }

  // ---------------------------------------------------------------- what clusters see

  /** The requests applied to a cluster's labels one after the other, trimming ignored. */
  function ApplyAll(history: seq<Write>, m: LabelMap): LabelMap
    decreases |history|
  {
    if history == [] then m
    else
      var before, last := ApplyAll(history[..|history| - 1], m), history[|history| - 1];
      if last.PatchedBy? then Apply(last.request, before) else before
  }

  /** The keys that trimming took out of the row. */
  function TrimmedKeys(history: seq<Write>): set<string>
    decreases |history|
  {
    if history == [] then {}
    else
      var front, last := history[..|history| - 1], history[|history| - 1];
      var row := Replay(front);
      TrimmedKeys(front) + if last.TrimmedBy? && row.Some? then row.value.change.deleted - last.status.Keys else {}
  }

  predicate DisjointRequests(history: seq<Write>) {
    forall w :: w in history && w.PatchedBy? ==> Disjointed(w.request)
  }

  /**
   The row keeps its parts disjoint and acts on a cluster as all successful requests in order,
   on every cluster that carries none of the trimmed keys.
   */
  lemma {:induction false} RowActsAsRequests(history: seq<Write>, m: LabelMap)
    requires DisjointRequests(history) && Replay(history).Some? && m.Keys !! TrimmedKeys(history)
    ensures Disjointed(Replay(history).value.change)
    ensures Apply(Replay(history).value.change, m) == ApplyAll(history, m)
    decreases |history|
  {
    var front, last := history[..|history| - 1], history[|history| - 1];
    assert last in history && forall w :: w in front ==> w in history;
    var row := Replay(front);
    if row.Some? {
      RowActsAsRequests(front, m);
      if last.PatchedBy? {
        MergedComposes(row.value.change, last.request, m);
      } else {
        TrimmingIsInvisibleIff(row.value.change, last.status, m);
      }
      hide Merged, Trimmed, Apply, Disjointed;
    } else {
      NoRowNoWrites(front, m);
    }
  }

  lemma {:induction false} NoRowNoWrites(history: seq<Write>, m: LabelMap)
    requires Replay(history).None?
    ensures ApplyAll(history, m) == m
    decreases |history|
  {
    if history != [] {
      NoRowNoWrites(history[..|history| - 1], m);
    }
  }
}
