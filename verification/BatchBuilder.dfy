/**
 The SQL batch that carries the row changes of one handled bundle.

 Statements are token lists in which a placeholder stands for its number; rows are collected
 as flat argument lists and flushed into a statement before they reach the protocol's limit.
 */
module BatchBuilder {
  import opened Compliance
  import opened HubDatabase

  datatype Arg = Text(text: string) | State(status: Status) | Slice(args: seq<Arg>)

  datatype Token = Sql(text: string) | Param(index: nat)

  datatype Kind = InsertRows | UpdatePolicies | UpdateClusters | DeletePolicies | DeleteClusters

  /** A query with its arguments, as recorded when flushed or as queued in the batch. */
  datatype Statement = Statement(kind: Kind, query: seq<Token>, arguments: seq<Arg>)

  const MAX_COLUMNS := 65536
  const ERROR_NONE := "none"

  // ---------------------------------------------------------------- placeholders

  /** The placeholder numbers of a query, in order. */
  function Params(query: seq<Token>): seq<nat>
    decreases |query|
  {
    if query == [] then []
    else
      var front, last := Params(query[..|query| - 1]), query[|query| - 1];
      if last.Param? then front + [last.index] else front
  }

  /** `count` numbers from `start` on. */
  function Range(start: nat, count: nat): seq<nat> {
    seq(count, k requires 0 <= k < count => start + k)
  }

  lemma {:induction false} ParamsConcat(a: seq<Token>, b: seq<Token>)
    ensures Params(a + b) == Params(a) + Params(b)
    decreases |b|
  {
    if b == [] {
      assert a + b == a;
    } else {
      assert (a + b)[..|a + b| - 1] == a + b[..|b| - 1];
      ParamsConcat(a, b[..|b| - 1]);
    }
  }

  lemma ParamsOfText(text: string)
    ensures Params([Sql(text)]) == []
  {
    assert [Sql(text)][..0] == [];
  }

  lemma RangeConcat(start: nat, a: nat, b: nat)
    ensures Range(start, a) + Range(start + a, b) == Range(start, a + b)
  {
  }

  /** Numbered placeholders from `startingIndex` on; special columns carry a type. */
  method GenerateArgsList(argsCount: nat, startingIndex: nat, specialArgs: map<nat, string>) returns (query: seq<Token>)
    ensures Params(query) == Range(startingIndex, argsCount)
    ensures argsCount > 0 ==> query != [] && query[0] == Param(startingIndex)
  {
    query := [];
    assert Params(query) == Range(startingIndex, 0);
    hide Params;
    for index := 0 to argsCount
      invariant Params(query) == Range(startingIndex, index)
      invariant if index == 0 then query == [] else query != [] && query[0] == Param(startingIndex)
    {
      query := AppendParam(query, index + startingIndex);
      assert query[0] == Param(startingIndex);
      if index + 1 in specialArgs {
        query := AppendText(query, "::" + specialArgs[index + 1]);
      }
      if index < argsCount - 1 {
        query := AppendText(query, ", ");
      }
    }
  }

  method AppendText(query: seq<Token>, text: string) returns (r: seq<Token>)
    ensures Params(r) == Params(query) && r == query + [Sql(text)]
  {
    ParamsConcat(query, [Sql(text)]);
    ParamsOfText(text);
    r := query + [Sql(text)];
  }

  method AppendParam(query: seq<Token>, index: nat) returns (r: seq<Token>)
    ensures Params(r) == Params(query) + [index] && r == query + [Param(index)]
  {
    ParamsConcat(query, [Param(index)]);
    assert Params([Param(index)]) == [index];
    r := query + [Param(index)];
  }

  /** One parenthesised group per row. */
  method GenerateInsertOrUpdateArgs(rowsCount: nat, columnsCount: nat, specialColumns: map<nat, string>)
    returns (query: seq<Token>)
    ensures Params(query) == Range(1, rowsCount * columnsCount)
  {
    query := [];
    assert Params([]) == Range(1, 0 * columnsCount);
    hide Params, Range;
    for i := 0 to rowsCount
      invariant Params(query) == Range(1, i * columnsCount)
    {
      var group := GenerateArgsList(columnsCount, i * columnsCount + 1, specialColumns);
      ghost var before := query;
      query := AppendText(query, "(");
      ParamsConcat(query, group);
      query := AppendText(query + group, ")");
      RangeConcat(1, i * columnsCount, columnsCount);
      assert (i + 1) * columnsCount == i * columnsCount + columnsCount;
      if i < rowsCount - 1 {
        query := AppendText(query, ", ");
      }
    }
  }

  // ---------------------------------------------------------------- what a query says

  predicate StartsWith(query: seq<Token>, tokens: seq<Token>) {
    |tokens| <= |query| && query[..|tokens|] == tokens
  }

  predicate EndsWith(query: seq<Token>, tokens: seq<Token>) {
    |tokens| <= |query| && query[|query| - |tokens|..] == tokens
  }

  /**
   Which table and columns the arguments are for: lists name the columns in the order of the values, and
   each condition names the column of the placeholder after it.
   */
  predicate Worded(kind: Kind, table: string, query: seq<Token>) {
    match kind
    case InsertRows => StartsWith(query, [Sql("INSERT into " + table + " values ")])
    case UpdatePolicies =>
      && StartsWith(query, [Sql("UPDATE " + table + " AS old SET compliance=new.compliance FROM (values ")])
      && EndsWith(query, [Sql(") AS new(id,leaf_hub_name,compliance) "),
                          Sql("WHERE old.id=new.id AND old.leaf_hub_name=new.leaf_hub_name")])
    case UpdateClusters =>
      && StartsWith(query, [Sql("UPDATE " + table + " AS old SET compliance=new.compliance FROM (values ")])
      && EndsWith(query, [Sql(") AS new(id,cluster_name,leaf_hub_name,compliance) "),
                          Sql("WHERE old.id=new.id AND old.leaf_hub_name=new.leaf_hub_name "),
                          Sql("AND old.cluster_name=new.cluster_name")])
    case DeletePolicies =>
      StartsWith(query,
                 [Sql("DELETE from " + table + " WHERE leaf_hub_name="), Param(1), Sql(" AND id IN ("), Param(2)])
    case DeleteClusters =>
      StartsWith(query, [Sql("DELETE from " + table + " WHERE id="), Param(1), Sql(" AND leaf_hub_name="), Param(2),
                         Sql(" AND cluster_name IN ("), Param(3)])
  }

  lemma TailWorded(query: seq<Token>, tail: seq<Token>)
    ensures EndsWith(query + tail, tail)
  {
  }

  lemma HeadWorded(head: seq<Token>, query: seq<Token>)
    ensures StartsWith(head + query, head)
  {
  }

  lemma PolicyDeleteWorded(table: string, ids: seq<Token>)
    requires ids != [] && ids[0] == Param(2)
    ensures Worded(DeletePolicies, table,
                   [Sql("DELETE from " + table + " WHERE leaf_hub_name="), Param(1), Sql(" AND id IN (")] + ids
                   + [Sql(")")])
  {
    var head := [Sql("DELETE from " + table + " WHERE leaf_hub_name="), Param(1), Sql(" AND id IN (")];
    HeadWorded(head + [Param(2)], ids[1..] + [Sql(")")]);
    assert head + ids + [Sql(")")] == (head + [Param(2)]) + (ids[1..] + [Sql(")")]);
    assert head + [Param(2)] ==
           [Sql("DELETE from " + table + " WHERE leaf_hub_name="), Param(1), Sql(" AND id IN ("), Param(2)];
    hide StartsWith;
  }

  lemma ClusterDeleteWorded(table: string, clusters: seq<Token>)
    requires clusters != [] && clusters[0] == Param(3)
    ensures Worded(DeleteClusters, table,
                   [Sql("DELETE from " + table + " WHERE id="), Param(1), Sql(" AND leaf_hub_name="), Param(2),
                    Sql(" AND cluster_name IN (")] + clusters + [Sql(")")])
  {
    var head := [Sql("DELETE from " + table + " WHERE id="), Param(1), Sql(" AND leaf_hub_name="), Param(2),
                 Sql(" AND cluster_name IN (")];
    HeadWorded(head + [Param(3)], clusters[1..] + [Sql(")")]);
    assert head + clusters + [Sql(")")] == (head + [Param(3)]) + (clusters[1..] + [Sql(")")]);
    assert head + [Param(3)] ==
           [Sql("DELETE from " + table + " WHERE id="), Param(1), Sql(" AND leaf_hub_name="), Param(2),
            Sql(" AND cluster_name IN ("), Param(3)];
    hide StartsWith;
  }

  lemma PolicyUpdateWorded(table: string, rows: seq<Token>)
    ensures Worded(UpdatePolicies, table,
                   [Sql("UPDATE " + table + " AS old SET compliance=new.compliance FROM (values ")] + rows
                   + [Sql(") AS new(id,leaf_hub_name,compliance) ")]
                   + [Sql("WHERE old.id=new.id AND old.leaf_hub_name=new.leaf_hub_name")])
  {
    var head := [Sql("UPDATE " + table + " AS old SET compliance=new.compliance FROM (values ")];
    var a, b :=
      Sql(") AS new(id,leaf_hub_name,compliance) "), Sql("WHERE old.id=new.id AND old.leaf_hub_name=new.leaf_hub_name");
    HeadWorded(head, rows + [a, b]);
    TailWorded(head + rows, [a, b]);
    assert head + rows + [a] + [b] == head + (rows + [a, b]) == head + rows + [a, b];
    hide StartsWith, EndsWith;
  }

  lemma ClusterUpdateWorded(table: string, rows: seq<Token>)
    ensures Worded(UpdateClusters, table,
                   [Sql("UPDATE " + table + " AS old SET compliance=new.compliance FROM (values ")] + rows
                   + [Sql(") AS new(id,cluster_name,leaf_hub_name,compliance) ")]
                   + [Sql("WHERE old.id=new.id AND old.leaf_hub_name=new.leaf_hub_name ")]
                   + [Sql("AND old.cluster_name=new.cluster_name")])
  {
    var head := [Sql("UPDATE " + table + " AS old SET compliance=new.compliance FROM (values ")];
    var a, b, c :=
      Sql(") AS new(id,cluster_name,leaf_hub_name,compliance) "),
      Sql("WHERE old.id=new.id AND old.leaf_hub_name=new.leaf_hub_name "), Sql("AND old.cluster_name=new.cluster_name");
    HeadWorded(head, rows + [a, b, c]);
    TailWorded(head + rows, [a, b, c]);
    assert head + rows + [a] + [b] + [c] == head + (rows + [a, b, c]) == head + rows + [a, b, c];
    hide StartsWith, EndsWith;
  }

  lemma SameText(before: string, schema: string, tableName: string, after: string)
    ensures before + schema + "." + tableName + after == before + (schema + "." + tableName) + after
  {
    assert before + schema + "." + tableName == before + (schema + "." + tableName);
  }

  // ---------------------------------------------------------------- what the calls ask for

  datatype Change = Change(policy: string, cluster: string, status: Status) {
    function Row(): Row { (policy, cluster) }
  }

  datatype PolicyChange = PolicyChange(policy: string, status: Status)

  /** The calls made on a builder, by kind. */
  datatype Log = Log(
    inserts: seq<Change>, policyUpdates: seq<PolicyChange>, clusterUpdates: seq<Change>,
    policyDeletes: seq<string>, clusterDeletes: map<string, seq<string>>)

  const NOTHING := Log([], [], [], [], map[])

  /** The table after inserting rows one by one. */
  function Inserted(t: Table, rows: seq<Change>): Table
    decreases |rows|
  {
    if rows == [] then t
    else
      var last := rows[|rows| - 1];
      Inserted(t, rows[..|rows| - 1])[last.Row() := last.status]
  }

  function ClustersUpdated(t: Table, rows: seq<Change>): Table
    decreases |rows|
  {
    if rows == [] then t
    else
      var last := rows[|rows| - 1];
      var r := ClustersUpdated(t, rows[..|rows| - 1]);
      if last.Row() in r then r[last.Row() := last.status] else r
  }

  function PoliciesUpdated(t: Table, policies: seq<PolicyChange>): Table
    decreases |policies|
  {
    if policies == [] then t
    else
      var last := policies[|policies| - 1];
      var r := PoliciesUpdated(t, policies[..|policies| - 1]);
      map row | row in r :: if row.0 == last.policy then last.status else r[row]
  }

  function PoliciesDeleted(t: Table, policies: seq<string>): Table {
    map row | row in t && row.0 !in policies :: t[row]
  }

  function ClustersDeleted(t: Table, deletes: map<string, seq<string>>): Table {
    map row | row in t && !(row.0 in deletes && row.1 in deletes[row.0]) :: t[row]
  }

  /** What the logged calls do to a table when the batch runs. */
  function Apply(log: Log, t: Table): Table {
    var inserted := Inserted(PoliciesDeleted(t, log.policyDeletes), log.inserts);
    ClustersUpdated(ClustersDeleted(PoliciesUpdated(inserted, log.policyUpdates), log.clusterDeletes),
                    log.clusterUpdates)
  }

  // ---------------------------------------------------------------- running a batch

  function TextOf(a: Arg): string { if a.Text? then a.text else "" }
  function StatusOf(a: Arg): Status { if a.State? then a.status else Compliant }

  function Texts(s: seq<string>): seq<Arg> { seq(|s|, i requires 0 <= i < |s| => Text(s[i])) }
  function TextsOf(args: seq<Arg>): seq<string> { seq(|args|, i requires 0 <= i < |args| => TextOf(args[i])) }

  /** A row change with the leaf hub that its arguments name. */
  datatype HubChange = HubChange(hub: string, change: Change) {
    function Key(): Key { (hub, change.policy, change.cluster) }
  }

  datatype HubPolicyChange = HubPolicyChange(hub: string, change: PolicyChange)

  /** The rows of an INSERT's flat argument list: id, cluster, leaf hub, error, status. */
  function InsertRowsOf(args: seq<Arg>): seq<HubChange>
    decreases |args|
  {
    var n := |args| - 5;
    if n < 0 then []
    else
      InsertRowsOf(args[..n])
      + [HubChange(TextOf(args[n + 2]), Change(TextOf(args[n]), TextOf(args[n + 1]), StatusOf(args[n + 4])))]
  }

  /** The rows of a cluster UPDATE: id, cluster, leaf hub, status. */
  function UpdateRowsOf(args: seq<Arg>): seq<HubChange>
    decreases |args|
  {
    var n := |args| - 4;
    if n < 0 then []
    else
      UpdateRowsOf(args[..n])
      + [HubChange(TextOf(args[n + 2]), Change(TextOf(args[n]), TextOf(args[n + 1]), StatusOf(args[n + 3])))]
  }

  /** The rows of a policy UPDATE: id, leaf hub, status. */
  function PolicyRowsOf(args: seq<Arg>): seq<HubPolicyChange>
    decreases |args|
  {
    var n := |args| - 3;
    if n < 0 then []
    else
      PolicyRowsOf(args[..n])
      + [HubPolicyChange(TextOf(args[n + 1]), PolicyChange(TextOf(args[n]), StatusOf(args[n + 2])))]
  }

  function RowsInserted(d: Database, rows: seq<HubChange>): Database
    decreases |rows|
  {
    if rows == [] then d
    else
      var last := rows[|rows| - 1];
      RowsInserted(d, rows[..|rows| - 1])[last.Key() := last.change.status]
  }

  function RowsUpdated(d: Database, rows: seq<HubChange>): Database
    decreases |rows|
  {
    if rows == [] then d
    else
      var last := rows[|rows| - 1];
      var r := RowsUpdated(d, rows[..|rows| - 1]);
      if last.Key() in r then r[last.Key() := last.change.status] else r
  }

  function PolicyUpdated(d: Database, hub: string, policy: string, status: Status): Database {
    map key | key in d :: if key.0 == hub && key.1 == policy then status else d[key]
  }

  function PolicyRowsUpdated(d: Database, rows: seq<HubPolicyChange>): Database
    decreases |rows|
  {
    if rows == [] then d
    else
      var last := rows[|rows| - 1];
      PolicyUpdated(PolicyRowsUpdated(d, rows[..|rows| - 1]), last.hub, last.change.policy, last.change.status)
  }

  function PolicyRowsDeleted(d: Database, hub: string, policies: seq<string>): Database {
    map key | key in d && !(key.0 == hub && key.1 in policies) :: d[key]
  }

  function ClusterRowsDeleted(d: Database, hub: string, policy: string, clusters: seq<string>): Database {
    map key | key in d && !(key.0 == hub && key.1 == policy && key.2 in clusters) :: d[key]
  }

  /** A statement run on a table with the rows of all leaf hubs, if it names that table and the columns. */
  function Execute(st: Statement, table: string, d: Database): Database {
    if !Worded(st.kind, table, st.query) then d
    else
    match st.kind
    case InsertRows => RowsInserted(d, InsertRowsOf(st.arguments))
    case UpdatePolicies => PolicyRowsUpdated(d, PolicyRowsOf(st.arguments))
    case UpdateClusters => RowsUpdated(d, UpdateRowsOf(st.arguments))
    case DeletePolicies =>
      if |st.arguments| < 1 then d
      else PolicyRowsDeleted(d, TextOf(st.arguments[0]), TextsOf(st.arguments[1..]))
    case DeleteClusters =>
      if |st.arguments| < 2 then d
      else
        ClusterRowsDeleted(d, TextOf(st.arguments[1]), TextOf(st.arguments[0]), TextsOf(st.arguments[2..]))
  }

  function ExecuteAll(queue: seq<Statement>, table: string, d: Database): Database
    decreases |queue|
  {
    if queue == [] then d
    else Execute(queue[|queue| - 1], table, ExecuteAll(queue[..|queue| - 1], table, d))
  }

  /** As many arguments as placeholders, and no more than the protocol can number. */
  predicate Accepted(st: Statement) {
    |st.arguments| == |Params(st.query)| < MAX_COLUMNS
  }

  predicate AllAccepted(queue: seq<Statement>) {
    forall st :: st in queue ==> Accepted(st)
  }

  /** A batch is one transaction: it runs as a whole or not at all. */
  function Send(queue: seq<Statement>, table: string, d: Database): (r: (bool, Database)) {
    if AllAccepted(queue) then (true, ExecuteAll(queue, table, d)) else (false, d)
  }

  /** How many rows one statement of each kind holds, and how many clusters of one policy one DELETE. */
  const INSERT_LIMIT := 13107
  const POLICY_LIMIT := 21845
  const CLUSTER_LIMIT := 16383
  const DELETE_LIMIT := 65534
  const CLUSTER_DELETE_LIMIT := 65533

  predicate WithinLimits(log: Log) {
    && |log.inserts| <= INSERT_LIMIT && |log.policyUpdates| <= POLICY_LIMIT
    && |log.clusterUpdates| <= CLUSTER_LIMIT && |log.policyDeletes| <= DELETE_LIMIT
    && forall p :: p in log.clusterDeletes ==> |log.clusterDeletes[p]| <= CLUSTER_DELETE_LIMIT
  }

  // ---------------------------------------------------------------- recorded rows

  function InsertArgs(hub: string, rows: seq<Change>): seq<Arg>
    decreases |rows|
  {
    if rows == [] then []
    else
      var last := rows[|rows| - 1];
      InsertArgs(hub, rows[..|rows| - 1])
      + [Text(last.policy), Text(last.cluster), Text(hub), Text(ERROR_NONE), State(last.status)]
  }

  function UpdateArgs(hub: string, rows: seq<Change>): seq<Arg>
    decreases |rows|
  {
    if rows == [] then []
    else
      var last := rows[|rows| - 1];
      UpdateArgs(hub, rows[..|rows| - 1]) + [Text(last.policy), Text(last.cluster), Text(hub), State(last.status)]
  }

  function PolicyArgs(hub: string, rows: seq<PolicyChange>): seq<Arg>
    decreases |rows|
  {
    if rows == [] then []
    else
      var last := rows[|rows| - 1];
      PolicyArgs(hub, rows[..|rows| - 1]) + [Text(last.policy), Text(hub), State(last.status)]
  }

  /** The rows with their leaf hub. */
  function Of(hub: string, rows: seq<Change>): seq<HubChange> {
    seq(|rows|, i requires 0 <= i < |rows| => HubChange(hub, rows[i]))
  }

  function PoliciesOf(hub: string, rows: seq<PolicyChange>): seq<HubPolicyChange> {
    seq(|rows|, i requires 0 <= i < |rows| => HubPolicyChange(hub, rows[i]))
  }

  lemma {:induction false} InsertArgsDecode(hub: string, rows: seq<Change>)
    ensures |InsertArgs(hub, rows)| == 5 * |rows| && InsertRowsOf(InsertArgs(hub, rows)) == Of(hub, rows)
    decreases |rows|
  {
    if rows != [] {
      InsertArgsDecode(hub, rows[..|rows| - 1]);
      var args := InsertArgs(hub, rows);
      assert args[..|args| - 5] == InsertArgs(hub, rows[..|rows| - 1]);
    }
  }

  lemma UpdateRowsSnoc(args: seq<Arg>, policy: string, cluster: string, hub: string, status: Status)
    ensures UpdateRowsOf(args + [Text(policy), Text(cluster), Text(hub), State(status)]) ==
            UpdateRowsOf(args) + [HubChange(hub, Change(policy, cluster, status))]
  {
    var all := args + [Text(policy), Text(cluster), Text(hub), State(status)];
    assert all[..|all| - 4] == args;
  }

  lemma {:induction false} UpdateArgsDecode(hub: string, rows: seq<Change>)
    ensures |UpdateArgs(hub, rows)| == 4 * |rows| && UpdateRowsOf(UpdateArgs(hub, rows)) == Of(hub, rows)
    decreases |rows|
  {
    hide UpdateRowsOf;
    if rows == [] {
      NoUpdateRows();
    } else {
      var front, last := rows[..|rows| - 1], rows[|rows| - 1];
      UpdateArgsDecode(hub, front);
      UpdateRowsSnoc(UpdateArgs(hub, front), last.policy, last.cluster, hub, last.status);
    }
  }

  lemma NoUpdateRows()
    ensures UpdateRowsOf([]) == []
  {
  }

  lemma {:induction false} PolicyArgsDecode(hub: string, rows: seq<PolicyChange>)
    ensures |PolicyArgs(hub, rows)| == 3 * |rows| && PolicyRowsOf(PolicyArgs(hub, rows)) == PoliciesOf(hub, rows)
    decreases |rows|
  {
    if rows != [] {
      PolicyArgsDecode(hub, rows[..|rows| - 1]);
      var args := PolicyArgs(hub, rows);
      assert args[..|args| - 3] == PolicyArgs(hub, rows[..|rows| - 1]);
    }
  }

  lemma ArgsSnoc(hub: string, rows: seq<Change>, row: Change, policies: seq<PolicyChange>, policy: PolicyChange)
    ensures InsertArgs(hub, rows + [row]) ==
            InsertArgs(hub, rows)
            + [Text(row.policy), Text(row.cluster), Text(hub), Text(ERROR_NONE), State(row.status)]
    ensures UpdateArgs(hub, rows + [row]) ==
            UpdateArgs(hub, rows) + [Text(row.policy), Text(row.cluster), Text(hub), State(row.status)]
    ensures PolicyArgs(hub, policies + [policy]) ==
            PolicyArgs(hub, policies) + [Text(policy.policy), Text(hub), State(policy.status)]
  {
    assert (rows + [row])[..|rows|] == rows && (policies + [policy])[..|policies|] == policies;
  }

  lemma TextsDecode(s: seq<string>)
    ensures TextsOf(Texts(s)) == s
  {
  }

  /** The row arguments of the flushed statements of one kind, in order. */
  function Flushed(items: seq<Statement>, kind: Kind): seq<Arg>
    decreases |items|
  {
    if items == [] then []
    else
      var front, last := Flushed(items[..|items| - 1], kind), items[|items| - 1];
      if last.kind != kind then front
      else front + if kind == DeletePolicies && last.arguments != [] then last.arguments[1..] else last.arguments
  }

  predicate HasKind(items: seq<Statement>, kind: Kind) {
    exists st :: st in items && st.kind == kind
  }

  /** Placeholders $1..$n once each and in order, one per argument, more than one, within the limit. */
  predicate Sound(st: Statement) {
    Params(st.query) == Range(1, |st.arguments|) && 1 < |st.arguments| < MAX_COLUMNS
  }

  predicate AllSound(items: seq<Statement>) {
    forall st :: st in items ==> Sound(st)
  }

  predicate ItemsHold(items: seq<Statement>, kinds: set<Kind>) {
    AllSound(items) && forall st :: st in items ==> st.kind in kinds
  }

  lemma ItemsHoldSnoc(items: seq<Statement>, kinds: set<Kind>, kind: Kind, query: seq<Token>, arguments: seq<Arg>)
    requires ItemsHold(items, kinds) && kind in kinds
    requires Params(query) == Range(1, |arguments|) && 1 < |arguments| < MAX_COLUMNS
    ensures ItemsHold(items + [Statement(kind, query, arguments)], kinds)
  {
  }

  lemma FlushedSnoc(items: seq<Statement>, st: Statement)
    ensures Flushed(items + [st], st.kind) ==
            Flushed(items, st.kind)
            + if st.kind == DeletePolicies && st.arguments != [] then st.arguments[1..] else st.arguments
    ensures forall kind :: kind != st.kind ==> Flushed(items + [st], kind) == Flushed(items, kind)
    ensures AllSound(items) && Sound(st) ==> AllSound(items + [st])
    ensures HasKind(items + [st], st.kind)
    ensures forall kind :: kind != st.kind ==> (HasKind(items + [st], kind) <==> HasKind(items, kind))
  {
    assert (items + [st])[..|items|] == items;
    assert st in items + [st];
    forall kind | kind != st.kind
      ensures HasKind(items + [st], kind) <==> HasKind(items, kind)
    {
      if HasKind(items, kind) {
        var other :| other in items && other.kind == kind;
        assert other in items + [st];
      }
    }
  }

  /** Flushed statements and trailing arguments together hold the rows of all calls of one kind. */
  predicate Buffered(items: seq<Statement>, kind: Kind, trailing: seq<Arg>, rows: nat, arity: nat,
                     encoded: seq<Arg>, total: nat, limit: nat)
  {
    && Flushed(items, kind) + trailing == encoded
    && |trailing| == arity * rows && rows <= limit
    && if HasKind(items, kind) then rows > 0 && total > limit else rows == total
  }

  lemma BufferSize(items: seq<Statement>, kind: Kind, trailing: seq<Arg>, rows: nat, arity: nat,
                   encoded: seq<Arg>, total: nat, limit: nat)
    requires Buffered(items, kind, trailing, rows, arity, encoded, total, limit)
    ensures |trailing| == arity * rows && rows <= limit
  {
  }

  /** One more row joins the trailing ones. */
  lemma RowAppended(items: seq<Statement>, kind: Kind, trailing: seq<Arg>, rows: nat, arity: nat,
                    encoded: seq<Arg>, total: nat, limit: nat, row: seq<Arg>)
    requires Buffered(items, kind, trailing, rows, arity, encoded, total, limit) && |row| == arity && rows < limit
    ensures Buffered(items, kind, trailing + row, rows + 1, arity, encoded + row, total + 1, limit)
  {
    assert Flushed(items, kind) + (trailing + row) == encoded + row;
    assert arity * (rows + 1) == arity * rows + arity;
  }

  /** The trailing rows, as many as one statement holds, are flushed before the next row. */
  lemma RowsFlushed(items: seq<Statement>, st: Statement, trailing: seq<Arg>, rows: nat, arity: nat,
                    encoded: seq<Arg>, total: nat, limit: nat, row: seq<Arg>)
    requires Buffered(items, st.kind, trailing, rows, arity, encoded, total, limit) && |row| == arity
    requires rows == limit > 0
    requires trailing == if st.kind == DeletePolicies && st.arguments != [] then st.arguments[1..] else st.arguments
    ensures Buffered(items + [st], st.kind, row, 1, arity, encoded + row, total + 1, limit)
  {
    FlushedSnoc(items, st);
    assert Flushed(items + [st], st.kind) + row == encoded + row;
  }

  lemma OtherKindsUnchanged(items: seq<Statement>, st: Statement, kind: Kind, trailing: seq<Arg>, rows: nat, arity: nat,
                            encoded: seq<Arg>, total: nat, limit: nat)
    requires Buffered(items, kind, trailing, rows, arity, encoded, total, limit) && kind != st.kind
    ensures Buffered(items + [st], kind, trailing, rows, arity, encoded, total, limit)
  {
    FlushedSnoc(items, st);
  }

  function WithDelete(deletes: map<string, seq<string>>, policyID: string, clusterName: string)
    : map<string, seq<string>>
  {
    deletes[policyID := (if policyID in deletes then deletes[policyID] else []) + [clusterName]]
  }

  /** Per policy the policy, the leaf hub and the clusters to delete. */
  predicate DeletesEncoded(hub: string, args: map<string, seq<Arg>>, deletes: map<string, seq<string>>) {
    && args.Keys == deletes.Keys
    && forall p :: p in args ==> deletes[p] != [] && args[p] == [Text(p), Text(hub)] + Texts(deletes[p])
  }

  lemma WithDeleteEncoded(hub: string, args: map<string, seq<Arg>>, deletes: map<string, seq<string>>,
                          p: string, cluster: string)
    requires DeletesEncoded(hub, args, deletes)
    ensures DeletesEncoded(hub, args[p := (if p in args then args[p] else [Text(p), Text(hub)]) + [Text(cluster)]],
                           WithDelete(deletes, p, cluster))
  {
    var clusters := if p in deletes then deletes[p] else [];
    assert Texts(clusters + [cluster]) == Texts(clusters) + [Text(cluster)];
  }

  // ---------------------------------------------------------------- the batch as built

  /** Flushed statements are queued with their argument list as a single argument. */
  function Wrapped(items: seq<Statement>): seq<Statement> {
    seq(|items|, i requires 0 <= i < |items| => Statement(items[i].kind, items[i].query, [Slice(items[i].arguments)]))
  }

  lemma WrappedIsRefused(items: seq<Statement>)
    requires AllSound(items)
    ensures AllAccepted(Wrapped(items)) <==> items == []
  {
    if items != [] {
      assert items[0] in items;
      assert Wrapped(items)[0] in Wrapped(items);
    }
  }

  /** The statement for trailing rows, if there are any. */
  predicate Trailing(part: seq<Statement>, kind: Kind, table: string, args: seq<Arg>, rows: nat) {
    if rows == 0 then part == []
    else
      && |part| == 1 && part[0].kind == kind && part[0].arguments == args
      && Params(part[0].query) == Range(1, |args|) && Worded(kind, table, part[0].query)
  }

  /** One statement per policy with clusters to delete. */
  ghost predicate DeletesClusters(part: seq<Statement>, table: string, hub: string, deletes: map<string, seq<string>>) {
    && (forall d :: ExecuteAll(part, table, d) == WithRows(d, hub, ClustersDeleted(RowsOf(d, hub), deletes)))
    && (AllAccepted(part) <==> forall p :: p in deletes ==> |deletes[p]| <= CLUSTER_DELETE_LIMIT)
    && (part == [] <==> deletes == map[])
  }

  lemma {:induction false} ExecuteConcat(a: seq<Statement>, b: seq<Statement>, table: string, d: Database)
    ensures ExecuteAll(a + b, table, d) == ExecuteAll(b, table, ExecuteAll(a, table, d))
    decreases |b|
  {
    if b == [] {
      assert a + b == a;
    } else {
      assert (a + b)[..|a + b| - 1] == a + b[..|b| - 1];
      ExecuteConcat(a, b[..|b| - 1], table, d);
    }
  }

  lemma ExecuteFive(a: seq<Statement>, b: seq<Statement>, c: seq<Statement>, d: seq<Statement>, e: seq<Statement>,
                    table: string, before: Database)
    ensures ExecuteAll(a + b + c + d + e, table, before) ==
            ExecuteAll(e, table,
                       ExecuteAll(d, table, ExecuteAll(c, table, ExecuteAll(b, table, ExecuteAll(a, table, before)))))
  {
    hide ExecuteAll;
    ExecuteConcat(a, b, table, before);
    ExecuteConcat(a + b, c, table, before);
    ExecuteConcat(a + b + c, d, table, before);
    ExecuteConcat(a + b + c + d, e, table, before);
  }

  lemma ExecuteOne(st: Statement, table: string, d: Database)
    ensures ExecuteAll([st], table, d) == Execute(st, table, d)
  {
    assert [st][..0] == [];
  }

  lemma AcceptedConcat(a: seq<Statement>, b: seq<Statement>)
    ensures AllAccepted(a + b) <==> AllAccepted(a) && AllAccepted(b)
  {
    assert forall st :: st in a + b <==> st in a || st in b;
  }

  lemma TrailingAccepted(part: seq<Statement>, kind: Kind, table: string, args: seq<Arg>, rows: nat)
    requires Trailing(part, kind, table, args, rows) && |args| < MAX_COLUMNS
    ensures AllAccepted(part)
  {
    hide Worded;
  }

  // ---------------------------------------------------------------- statements that name one leaf hub

  lemma {:induction false} InsertsOfHub(d: Database, hub: string, rows: seq<Change>)
    ensures RowsInserted(d, Of(hub, rows)) == WithRows(d, hub, Inserted(RowsOf(d, hub), rows))
    decreases |rows|
  {
    hide RowsOf, WithRows;
    if rows == [] {
      KeepsRows(d, hub);
    } else {
      var front, last := rows[..|rows| - 1], rows[|rows| - 1];
      InsertsOfHub(d, hub, front);
      assert Of(hub, rows)[..|rows| - 1] == Of(hub, front);
      PutRow(d, hub, Inserted(RowsOf(d, hub), front), last.Row(), last.status);
    }
  }

  lemma PutRow(d: Database, hub: string, t: Table, row: Row, status: Status)
    ensures (hub, row.0, row.1) in WithRows(d, hub, t) <==> row in t
    ensures WithRows(d, hub, t)[(hub, row.0, row.1) := status] == WithRows(d, hub, t[row := status])
  {
    hide WithRows;
    var r, s := WithRows(d, hub, t)[(hub, row.0, row.1) := status], WithRows(d, hub, t[row := status]);
    WithRowsAt(d, hub, t, (hub, row.0, row.1));
    forall key: Key
      ensures (key in r <==> key in s) && (key in r ==> r[key] == s[key])
    {
      WithRowsAt(d, hub, t, key);
      WithRowsAt(d, hub, t[row := status], key);
    }
    SameDatabase(r, s);
  }

  lemma {:induction false} UpdatesOfHub(d: Database, hub: string, rows: seq<Change>)
    ensures RowsUpdated(d, Of(hub, rows)) == WithRows(d, hub, ClustersUpdated(RowsOf(d, hub), rows))
    decreases |rows|
  {
    hide RowsOf, WithRows;
    if rows == [] {
      KeepsRows(d, hub);
    } else {
      var front, last := rows[..|rows| - 1], rows[|rows| - 1];
      UpdatesOfHub(d, hub, front);
      assert Of(hub, rows)[..|rows| - 1] == Of(hub, front);
      PutRow(d, hub, ClustersUpdated(RowsOf(d, hub), front), last.Row(), last.status);
    }
  }

  lemma PolicyUpdateOfHub(d: Database, hub: string, t: Table, policy: string, status: Status)
    ensures PolicyUpdated(WithRows(d, hub, t), hub, policy, status) ==
            WithRows(d, hub, map row | row in t :: if row.0 == policy then status else t[row])
  {
    hide WithRows;
    var u: Table := map row | row in t :: if row.0 == policy then status else t[row];
    var r, s := PolicyUpdated(WithRows(d, hub, t), hub, policy, status), WithRows(d, hub, u);
    forall key: Key
      ensures (key in r <==> key in s) && (key in r ==> r[key] == s[key])
    {
      WithRowsAt(d, hub, t, key);
      WithRowsAt(d, hub, u, key);
    }
    SameDatabase(r, s);
  }

  lemma {:induction false} PolicyUpdatesOfHub(d: Database, hub: string, rows: seq<PolicyChange>)
    ensures PolicyRowsUpdated(d, PoliciesOf(hub, rows)) == WithRows(d, hub, PoliciesUpdated(RowsOf(d, hub), rows))
    decreases |rows|
  {
    hide RowsOf, WithRows, PolicyUpdated;
    if rows == [] {
      KeepsRows(d, hub);
    } else {
      var front, last := rows[..|rows| - 1], rows[|rows| - 1];
      PolicyUpdatesOfHub(d, hub, front);
      assert PoliciesOf(hub, rows)[..|rows| - 1] == PoliciesOf(hub, front);
      PolicyUpdateOfHub(d, hub, PoliciesUpdated(RowsOf(d, hub), front), last.policy, last.status);
    }
  }

  lemma PolicyDeletesOfHub(d: Database, hub: string, policies: seq<string>)
    ensures PolicyRowsDeleted(d, hub, policies) == WithRows(d, hub, PoliciesDeleted(RowsOf(d, hub), policies))
  {
    hide RowsOf, WithRows;
    var u := PoliciesDeleted(RowsOf(d, hub), policies);
    var r, s := PolicyRowsDeleted(d, hub, policies), WithRows(d, hub, u);
    forall key: Key
      ensures (key in r <==> key in s) && (key in r ==> r[key] == s[key])
    {
      WithRowsAt(d, hub, u, key);
      RowsOfAt(d, hub, (key.1, key.2));
    }
    SameDatabase(r, s);
  }

  lemma ClusterDeletesOfHub(d: Database, hub: string, t: Table, policy: string, clusters: seq<string>)
    ensures ClusterRowsDeleted(WithRows(d, hub, t), hub, policy, clusters) ==
            WithRows(d, hub, ClustersDeleted(t, map[policy := clusters]))
  {
    hide WithRows;
    var u := ClustersDeleted(t, map[policy := clusters]);
    var r, s := ClusterRowsDeleted(WithRows(d, hub, t), hub, policy, clusters), WithRows(d, hub, u);
    forall key: Key
      ensures (key in r <==> key in s) && (key in r ==> r[key] == s[key])
    {
      WithRowsAt(d, hub, t, key);
      WithRowsAt(d, hub, u, key);
    }
    SameDatabase(r, s);
  }

  lemma TrailingInserts(part: seq<Statement>, table: string, hub: string, rows: seq<Change>, d: Database)
    requires Trailing(part, InsertRows, table, InsertArgs(hub, rows), |rows|)
    ensures ExecuteAll(part, table, d) == WithRows(d, hub, Inserted(RowsOf(d, hub), rows))
  {
    hide RowsOf, WithRows, InsertArgs, InsertRowsOf, RowsInserted, Worded;
    InsertsOfHub(d, hub, rows);
    if rows == [] {
      KeepsRows(d, hub);
    } else {
      assert part == [part[0]];
      ExecuteOne(part[0], table, d);
      InsertArgsDecode(hub, rows);
    }
  }

  lemma TrailingClusterUpdates(part: seq<Statement>, table: string, hub: string, rows: seq<Change>, d: Database)
    requires Trailing(part, UpdateClusters, table, UpdateArgs(hub, rows), |rows|)
    ensures ExecuteAll(part, table, d) == WithRows(d, hub, ClustersUpdated(RowsOf(d, hub), rows))
  {
    hide RowsOf, WithRows, UpdateArgs, UpdateRowsOf, RowsUpdated, Worded;
    UpdatesOfHub(d, hub, rows);
    if rows == [] {
      KeepsRows(d, hub);
    } else {
      assert part == [part[0]];
      ExecuteOne(part[0], table, d);
      UpdateArgsDecode(hub, rows);
    }
  }

  lemma TrailingPolicyUpdates(part: seq<Statement>, table: string, hub: string, rows: seq<PolicyChange>, d: Database)
    requires Trailing(part, UpdatePolicies, table, PolicyArgs(hub, rows), |rows|)
    ensures ExecuteAll(part, table, d) == WithRows(d, hub, PoliciesUpdated(RowsOf(d, hub), rows))
  {
    hide RowsOf, WithRows, PolicyArgs, PolicyRowsOf, PolicyRowsUpdated, Worded;
    PolicyUpdatesOfHub(d, hub, rows);
    if rows == [] {
      KeepsRows(d, hub);
    } else {
      assert part == [part[0]];
      ExecuteOne(part[0], table, d);
      PolicyArgsDecode(hub, rows);
    }
  }

  lemma TrailingPolicyDeletes(part: seq<Statement>, table: string, hub: string, args: seq<Arg>, policies: seq<string>,
                              d: Database)
    requires args == [Text(hub)] + Texts(policies) && Trailing(part, DeletePolicies, table, args, |policies|)
    ensures ExecuteAll(part, table, d) == WithRows(d, hub, PoliciesDeleted(RowsOf(d, hub), policies))
  {
    hide RowsOf, WithRows, PolicyRowsDeleted, Worded;
    TextsDecode(policies);
    assert args[1..] == Texts(policies);
    PolicyDeletesOfHub(d, hub, policies);
    if policies == [] {
      assert PoliciesDeleted(RowsOf(d, hub), []) == RowsOf(d, hub);
      KeepsRows(d, hub);
    } else {
      assert part == [part[0]];
      ExecuteOne(part[0], table, d);
    }
  }

  lemma NothingDeleted(table: string, hub: string)
    ensures DeletesClusters([], table, hub, map[])
  {
    hide RowsOf, WithRows;
    forall d
      ensures ExecuteAll([], table, d) == WithRows(d, hub, ClustersDeleted(RowsOf(d, hub), map[]))
    {
      assert ClustersDeleted(RowsOf(d, hub), map[]) == RowsOf(d, hub);
      KeepsRows(d, hub);
    }
  }

  lemma NothingIsWrapped()
    ensures Wrapped([]) == []
  {
  }

  /** One statement of each kind, run in the order of the batch, is what the calls amount to on the hub's rows. */
  lemma PartsApply(deletes: seq<Statement>, inserts: seq<Statement>, updates: seq<Statement>,
                   clusterDeletes: seq<Statement>, clusterUpdates: seq<Statement>, table: string, hub: string, log: Log,
                   d: Database)
    requires Trailing(deletes, DeletePolicies, table, [Text(hub)] + Texts(log.policyDeletes), |log.policyDeletes|)
    requires Trailing(inserts, InsertRows, table, InsertArgs(hub, log.inserts), |log.inserts|)
    requires Trailing(updates, UpdatePolicies, table, PolicyArgs(hub, log.policyUpdates), |log.policyUpdates|)
    requires DeletesClusters(clusterDeletes, table, hub, log.clusterDeletes)
    requires Trailing(clusterUpdates, UpdateClusters, table, UpdateArgs(hub, log.clusterUpdates), |log.clusterUpdates|)
    ensures ExecuteAll(deletes + inserts + updates + clusterDeletes + clusterUpdates, table, d) ==
            WithRows(d, hub, Apply(log, RowsOf(d, hub)))
  {
    hide ExecuteAll, Trailing, Inserted, ClustersUpdated, PoliciesUpdated, PoliciesDeleted, ClustersDeleted;
    hide AllAccepted, Texts, InsertArgs, UpdateArgs, PolicyArgs, RowsOf, WithRows;
    ExecuteFive(deletes, inserts, updates, clusterDeletes, clusterUpdates, table, d);
    var t1 := PoliciesDeleted(RowsOf(d, hub), log.policyDeletes);
    TrailingPolicyDeletes(deletes, table, hub, [Text(hub)] + Texts(log.policyDeletes), log.policyDeletes, d);
    var t2 := Inserted(t1, log.inserts);
    TrailingInserts(inserts, table, hub, log.inserts, WithRows(d, hub, t1));
    var t3 := PoliciesUpdated(t2, log.policyUpdates);
    TrailingPolicyUpdates(updates, table, hub, log.policyUpdates, WithRows(d, hub, t2));
    var t4 := ClustersDeleted(t3, log.clusterDeletes);
    TrailingClusterUpdates(clusterUpdates, table, hub, log.clusterUpdates, WithRows(d, hub, t4));
    RowsTwice(d, hub, t1, t2);
    RowsTwice(d, hub, t2, t3);
    RowsTwice(d, hub, t3, t4);
    RowsTwice(d, hub, t4, ClustersUpdated(t4, log.clusterUpdates));
  }

  lemma RowsTwice(d: Database, hub: string, t: Table, u: Table)
    ensures RowsOf(WithRows(d, hub, t), hub) == t
    ensures WithRows(WithRows(d, hub, t), hub, u) == WithRows(d, hub, u)
  {
    RowsOfWithRows(d, hub, t);
    RowsReplaced(d, hub, t, u);
    hide RowsOf, WithRows;
  }

  lemma DeletedOneMore(t: Table, deletes: map<string, seq<string>>, p: string, clusters: seq<string>)
    requires p !in deletes
    ensures ClustersDeleted(ClustersDeleted(t, deletes), map[p := clusters]) ==
            ClustersDeleted(t, deletes[p := clusters])
  {
  }

  lemma LimitsOneMore(deletes: map<string, seq<string>>, p: string, clusters: seq<string>)
    requires p !in deletes
    ensures var more := deletes[p := clusters];
            (forall q :: q in more ==> |more[q]| <= CLUSTER_DELETE_LIMIT) <==>
            ((forall q :: q in deletes ==> |deletes[q]| <= CLUSTER_DELETE_LIMIT) && |clusters| <= CLUSTER_DELETE_LIMIT)
  {
    var more := deletes[p := clusters];
    assert forall q :: q in deletes ==> more[q] == deletes[q];
    assert more[p] == clusters;
  }

  /** One more policy's clusters are deleted. */
  lemma DeletesOneMore(part: seq<Statement>, deletes: map<string, seq<string>>, table: string, hub: string,
                       p: string, clusters: seq<string>, st: Statement)
    requires DeletesClusters(part, table, hub, deletes) && p !in deletes
    requires st.kind == DeleteClusters && st.arguments == [Text(p), Text(hub)] + Texts(clusters)
    requires Params(st.query) == Range(1, |st.arguments|) && Worded(DeleteClusters, table, st.query)
    ensures DeletesClusters(part + [st], table, hub, deletes[p := clusters])
  {
    hide RowsOf, WithRows, ClusterRowsDeleted, ClustersDeleted, Worded;
    TextsDecode(clusters);
    assert st.arguments[2..] == Texts(clusters);
    forall d
      ensures ExecuteAll(part + [st], table, d) ==
              WithRows(d, hub, ClustersDeleted(RowsOf(d, hub), deletes[p := clusters]))
    {
      ExecuteConcat(part, [st], table, d);
      ExecuteOne(st, table, ExecuteAll(part, table, d));
      ClusterDeletesOfHub(d, hub, ClustersDeleted(RowsOf(d, hub), deletes), p, clusters);
      DeletedOneMore(RowsOf(d, hub), deletes, p, clusters);
    }
    AcceptedConcat(part, [st]);
    assert |Params(st.query)| == |st.arguments| == |clusters| + 2;
    assert st in [st];
    LimitsOneMore(deletes, p, clusters);
  }

  /** Collects the row changes of one leaf hub and builds the batch. */
  class PoliciesBatchBuilder {
    const schema: string
    const tableName: string
    const leafHubName: string
    var deleteItems: seq<Statement>
    var insertItems: seq<Statement>
    var updateItems: seq<Statement>
    var insertArgs: seq<Arg>
    var insertRows: nat
    var updateArgs: seq<Arg>
    var updateRows: nat
    var deleteArgs: seq<Arg>
    var deleteRows: nat
    var clusterArgs: seq<Arg>
    var clusterRows: nat
    var clusterDeleteArgs: map<string, seq<Arg>>
    ghost var log: Log

    function FullName(): string { schema + "." + tableName }

    ghost predicate Valid()
      reads this
    {
      && ValidItems()
      && Buffered(insertItems, InsertRows, insertArgs, insertRows, 5, InsertArgs(leafHubName, log.inserts),
                  |log.inserts|, INSERT_LIMIT)
      && Buffered(updateItems, UpdatePolicies, updateArgs, updateRows, 3, PolicyArgs(leafHubName, log.policyUpdates),
                  |log.policyUpdates|, POLICY_LIMIT)
      && Buffered(updateItems, UpdateClusters, clusterArgs, clusterRows, 4, UpdateArgs(leafHubName, log.clusterUpdates),
                  |log.clusterUpdates|, CLUSTER_LIMIT)
      && ValidDeletes()
    }

    ghost predicate ValidItems()
      reads this
    {
      && ItemsHold(insertItems, {InsertRows})
      && ItemsHold(updateItems, {UpdatePolicies, UpdateClusters})
      && ItemsHold(deleteItems, {DeletePolicies})
    }

    ghost predicate ValidDeletes()
      reads this
    {
      && deleteArgs != [] && deleteArgs[0] == Text(leafHubName)
      && Buffered(deleteItems, DeletePolicies, deleteArgs[1..], deleteRows, 1, Texts(log.policyDeletes),
                  |log.policyDeletes|, DELETE_LIMIT)
      && DeletesEncoded(leafHubName, clusterDeleteArgs, log.clusterDeletes)
    }

    constructor (schema: string, tableName: string, leafHubName: string)
      ensures Valid() && log == NOTHING && this.leafHubName == leafHubName && FullName() == schema + "." + tableName
    {
      this.schema, this.tableName, this.leafHubName := schema, tableName, leafHubName;
      deleteItems, insertItems, updateItems := [], [], [];
      insertArgs, insertRows := [], 0;
      updateArgs, updateRows := [], 0;
      deleteArgs, deleteRows := [Text(leafHubName)], 0; // the leaf hub is the first argument of a DELETE
      clusterArgs, clusterRows := [], 0;
      clusterDeleteArgs := map[];
      log := NOTHING;
    }

    method Insert(policyID: string, clusterName: string, compliance: Status)
      requires Valid()
      modifies this
      ensures Valid() && log == old(log).(inserts := old(log.inserts) + [Change(policyID, clusterName, compliance)])
    {
      hide Buffered, InsertArgs, UpdateArgs, PolicyArgs, DeletesEncoded, ItemsHold, Params, Range, Worded;
      var row := [Text(policyID), Text(clusterName), Text(leafHubName), Text(ERROR_NONE), State(compliance)];
      ghost var change := Change(policyID, clusterName, compliance);
      ArgsSnoc(leafHubName, log.inserts, change, [], PolicyChange(policyID, compliance));
      ghost var encoded, total := InsertArgs(leafHubName, log.inserts), |log.inserts|;
      BufferSize(insertItems, InsertRows, insertArgs, insertRows, 5, encoded, total, INSERT_LIMIT);
      if |insertArgs| + |row| >= MAX_COLUMNS {
        var query := GenerateInsertStatement();
        RowsFlushed(insertItems, Statement(InsertRows, query, insertArgs), insertArgs, insertRows, 5, encoded, total,
                    INSERT_LIMIT, row);
        ItemsHoldSnoc(insertItems, {InsertRows}, InsertRows, query, insertArgs);
        insertItems := insertItems + [Statement(InsertRows, query, insertArgs)];
        insertArgs, insertRows := [], 0;
        assert [] + row == row;
      } else {
        RowAppended(insertItems, InsertRows, insertArgs, insertRows, 5, encoded, total, INSERT_LIMIT, row);
      }
      insertArgs := insertArgs + row;
      insertRows := insertRows + 1;
      log := log.(inserts := log.inserts + [change]);
    }

    method UpdatePolicyCompliance(policyID: string, compliance: Status)
      requires Valid()
      modifies this
      ensures Valid()
      ensures log == old(log).(policyUpdates := old(log.policyUpdates) + [PolicyChange(policyID, compliance)])
    {
      hide Buffered, InsertArgs, UpdateArgs, PolicyArgs, DeletesEncoded, ItemsHold, Params, Range, Worded;
      var row := [Text(policyID), Text(leafHubName), State(compliance)];
      ghost var change := PolicyChange(policyID, compliance);
      ArgsSnoc(leafHubName, [], Change(policyID, "", compliance), log.policyUpdates, change);
      ghost var encoded, total := PolicyArgs(leafHubName, log.policyUpdates), |log.policyUpdates|;
      BufferSize(updateItems, UpdatePolicies, updateArgs, updateRows, 3, encoded, total, POLICY_LIMIT);
      if |updateArgs| + |row| >= MAX_COLUMNS {
        var query := GenerateUpdatePolicyComplianceStatement();
        ghost var st := Statement(UpdatePolicies, query, updateArgs);
        RowsFlushed(updateItems, st, updateArgs, updateRows, 3, encoded, total, POLICY_LIMIT, row);
        OtherKindsUnchanged(updateItems, st, UpdateClusters, clusterArgs, clusterRows, 4,
                            UpdateArgs(leafHubName, log.clusterUpdates), |log.clusterUpdates|, CLUSTER_LIMIT);
        ItemsHoldSnoc(updateItems, {UpdatePolicies, UpdateClusters}, UpdatePolicies, query, updateArgs);
        updateItems := updateItems + [Statement(UpdatePolicies, query, updateArgs)];
        updateArgs, updateRows := [], 0;
        assert [] + row == row;
      } else {
        RowAppended(updateItems, UpdatePolicies, updateArgs, updateRows, 3, encoded, total, POLICY_LIMIT, row);
      }
      updateArgs := updateArgs + row;
      updateRows := updateRows + 1;
      log := log.(policyUpdates := log.policyUpdates + [change]);
    }

    /** Flushed cluster updates share the item list of the policy updates. */
    method UpdateClusterCompliance(policyID: string, clusterName: string, compliance: Status)
      requires Valid()
      modifies this
      ensures Valid()
      ensures log == old(log).(clusterUpdates := old(log.clusterUpdates) + [Change(policyID, clusterName, compliance)])
    {
      hide Buffered, InsertArgs, UpdateArgs, PolicyArgs, DeletesEncoded, ItemsHold, Params, Range, Worded;
      var row := [Text(policyID), Text(clusterName), Text(leafHubName), State(compliance)];
      ghost var change := Change(policyID, clusterName, compliance);
      ArgsSnoc(leafHubName, log.clusterUpdates, change, [], PolicyChange(policyID, compliance));
      ghost var encoded, total := UpdateArgs(leafHubName, log.clusterUpdates), |log.clusterUpdates|;
      BufferSize(updateItems, UpdateClusters, clusterArgs, clusterRows, 4, encoded, total, CLUSTER_LIMIT);
      if |clusterArgs| + |row| >= MAX_COLUMNS {
        var query := GenerateUpdateClusterComplianceStatement();
        ghost var st := Statement(UpdateClusters, query, clusterArgs);
        RowsFlushed(updateItems, st, clusterArgs, clusterRows, 4, encoded, total, CLUSTER_LIMIT, row);
        OtherKindsUnchanged(updateItems, st, UpdatePolicies, updateArgs, updateRows, 3,
                            PolicyArgs(leafHubName, log.policyUpdates), |log.policyUpdates|, POLICY_LIMIT);
        ItemsHoldSnoc(updateItems, {UpdatePolicies, UpdateClusters}, UpdateClusters, query, clusterArgs);
        updateItems := updateItems + [Statement(UpdateClusters, query, clusterArgs)];
        clusterArgs, clusterRows := [], 0;
        assert [] + row == row;
      } else {
        RowAppended(updateItems, UpdateClusters, clusterArgs, clusterRows, 4, encoded, total, CLUSTER_LIMIT, row);
      }
      clusterArgs := clusterArgs + row;
      clusterRows := clusterRows + 1;
      log := log.(clusterUpdates := log.clusterUpdates + [change]);
    }

    method DeletePolicy(policyID: string)
      requires Valid()
      modifies this
      ensures Valid() && log == old(log).(policyDeletes := old(log.policyDeletes) + [policyID])
    {
      hide Buffered, InsertArgs, UpdateArgs, PolicyArgs, DeletesEncoded, ItemsHold, Params, Range, Worded;
      var row := [Text(policyID)];
      ghost var encoded, total := Texts(log.policyDeletes), |log.policyDeletes|;
      assert Texts(log.policyDeletes + [policyID]) == encoded + row;
      BufferSize(deleteItems, DeletePolicies, deleteArgs[1..], deleteRows, 1, encoded, total, DELETE_LIMIT);
      if |deleteArgs| + |row| >= MAX_COLUMNS {
        var query := GenerateDeleteStatement();
        RowsFlushed(deleteItems, Statement(DeletePolicies, query, deleteArgs), deleteArgs[1..], deleteRows, 1,
                    encoded, total, DELETE_LIMIT, row);
        ItemsHoldSnoc(deleteItems, {DeletePolicies}, DeletePolicies, query, deleteArgs);
        deleteItems := deleteItems + [Statement(DeletePolicies, query, deleteArgs)];
        deleteArgs, deleteRows := [Text(leafHubName)], 0;
        assert ([Text(leafHubName)] + row)[1..] == row;
      } else {
        RowAppended(deleteItems, DeletePolicies, deleteArgs[1..], deleteRows, 1, encoded, total, DELETE_LIMIT, row);
        assert (deleteArgs + row)[1..] == deleteArgs[1..] + row;
      }
      deleteArgs := deleteArgs + row;
      deleteRows := deleteRows + 1;
      log := log.(policyDeletes := log.policyDeletes + [policyID]);
    }

    /** Nothing is flushed here: all clusters of one policy go into one statement. */
    method DeleteClusterStatus(policyID: string, clusterName: string)
      requires Valid()
      modifies this
      ensures Valid() && log == old(log).(clusterDeletes := old(WithDelete(log.clusterDeletes, policyID, clusterName)))
    {
      hide Buffered, ItemsHold, DeletesEncoded;
      ghost var before := clusterDeleteArgs;
      if policyID !in clusterDeleteArgs {
        clusterDeleteArgs := clusterDeleteArgs[policyID := [Text(policyID), Text(leafHubName)]];
      }
      clusterDeleteArgs := clusterDeleteArgs[policyID := clusterDeleteArgs[policyID] + [Text(clusterName)]];
      assert clusterDeleteArgs == before[policyID :=
        (if policyID in before then before[policyID] else [Text(policyID), Text(leafHubName)]) + [Text(clusterName)]];
      WithDeleteEncoded(leafHubName, before, log.clusterDeletes, policyID, clusterName);
      log := log.(clusterDeletes := WithDelete(log.clusterDeletes, policyID, clusterName));
    }

    /** Flushed and trailing rows of each kind are the calls made for the leaf hub, in order, none lost or repeated. */
    lemma RecordedRowsAreTheCalls()
      requires Valid()
      ensures InsertRowsOf(Flushed(insertItems, InsertRows) + insertArgs) == Of(leafHubName, log.inserts)
      ensures PolicyRowsOf(Flushed(updateItems, UpdatePolicies) + updateArgs) ==
              PoliciesOf(leafHubName, log.policyUpdates)
      ensures UpdateRowsOf(Flushed(updateItems, UpdateClusters) + clusterArgs) == Of(leafHubName, log.clusterUpdates)
      ensures TextsOf(Flushed(deleteItems, DeletePolicies) + deleteArgs[1..]) == log.policyDeletes
      ensures AllSound(insertItems) && AllSound(updateItems) && AllSound(deleteItems)
    {
      InsertArgsDecode(leafHubName, log.inserts);
      PolicyArgsDecode(leafHubName, log.policyUpdates);
      UpdateArgsDecode(leafHubName, log.clusterUpdates);
      TextsDecode(log.policyDeletes);
    }

    /** Nothing was flushed exactly when the calls stay within one statement per kind. */
    lemma NothingFlushedIff()
      requires Valid()
      ensures insertItems == [] <==> |log.inserts| <= INSERT_LIMIT
      ensures deleteItems == [] <==> |log.policyDeletes| <= DELETE_LIMIT
      ensures updateItems == [] <==> |log.policyUpdates| <= POLICY_LIMIT && |log.clusterUpdates| <= CLUSTER_LIMIT
    {
      if insertItems != [] {
        assert insertItems[0] in insertItems;
      }
      if deleteItems != [] {
        assert deleteItems[0] in deleteItems;
      }
      if updateItems != [] {
        assert updateItems[0] in updateItems;
      }
    }

    /**
     Deletes, inserts, updates, then what only policies have. PostgreSQL accepts the batch exactly
     when nothing had to be flushed and no policy loses too many clusters; then it does what was asked
     to the rows of the leaf hub, and nothing to those of any other.
     */
    method Build() returns (queue: seq<Statement>)
      requires Valid()
      ensures AllAccepted(queue) <==> WithinLimits(log)
      ensures WithinLimits(log) ==>
        forall d :: ExecuteAll(queue, FullName(), d) == WithRows(d, leafHubName, Apply(log, RowsOf(d, leafHubName)))
      ensures queue == [] <==> log == NOTHING
    {
      hide Worded, RowsOf, WithRows, ExecuteAll, AllAccepted, ItemsHold, DeletesEncoded;
      var deletes, inserts, updates := BuildBase();
      queue := Wrapped(deleteItems) + deletes + Wrapped(insertItems) + inserts + Wrapped(updateItems) + updates;
      var clusterDeletes := BuildClusterDeletes();
      queue := queue + clusterDeletes;
      var clusterUpdates := [];
      if clusterRows > 0 {
        var query := GenerateUpdateClusterComplianceStatement();
        clusterUpdates := [Statement(UpdateClusters, query, clusterArgs)];
      }
      queue := queue + clusterUpdates;
      BuiltAccepted(deletes, inserts, updates, clusterDeletes, clusterUpdates);
      BuiltIsEmpty(deletes, inserts, updates, clusterDeletes, clusterUpdates);
      if WithinLimits(log) {
        forall d
          ensures ExecuteAll(queue, FullName(), d) == WithRows(d, leafHubName, Apply(log, RowsOf(d, leafHubName)))
        {
          BuiltApplies(deletes, inserts, updates, clusterDeletes, clusterUpdates, d);
        }
      }
    }

    /** The trailing rows as statements. */
    method BuildBase() returns (deletes: seq<Statement>, inserts: seq<Statement>, updates: seq<Statement>)
      requires Valid()
      ensures Trailing(deletes, DeletePolicies, FullName(), deleteArgs, deleteRows)
      ensures Trailing(inserts, InsertRows, FullName(), insertArgs, insertRows)
      ensures Trailing(updates, UpdatePolicies, FullName(), updateArgs, updateRows)
    {
      hide Worded;
      deletes, inserts, updates := [], [], [];
      if deleteRows > 0 {
        var query := GenerateDeleteStatement();
        deletes := [Statement(DeletePolicies, query, deleteArgs)];
      }
      if insertRows > 0 {
        var query := GenerateInsertStatement();
        inserts := [Statement(InsertRows, query, insertArgs)];
      }
      if updateRows > 0 {
        var query := GenerateUpdatePolicyComplianceStatement();
        updates := [Statement(UpdatePolicies, query, updateArgs)];
      }
    }

    /** The policies come in no particular order. */
    method BuildClusterDeletes() returns (part: seq<Statement>)
      requires Valid()
      ensures DeletesClusters(part, FullName(), leafHubName, log.clusterDeletes)
    {
      part := [];
      ghost var done: map<string, seq<string>> := map[];
      var left := clusterDeleteArgs.Keys;
      NothingDeleted(FullName(), leafHubName);
      while left != {}
        invariant left <= clusterDeleteArgs.Keys && done.Keys == clusterDeleteArgs.Keys - left
        invariant forall p :: p in done ==> done[p] == log.clusterDeletes[p]
        invariant DeletesClusters(part, FullName(), leafHubName, done)
        decreases left
      {
        hide DeletesClusters, Buffered, AllSound, Range, Worded;
        var policyID :| policyID in left;
        var query := GenerateDeleteClusterComplianceStatement(policyID);
        var st := Statement(DeleteClusters, query, clusterDeleteArgs[policyID]);
        DeletesOneMore(part, done, FullName(), leafHubName, policyID, log.clusterDeletes[policyID], st);
        part := part + [st];
        done := done[policyID := log.clusterDeletes[policyID]];
        left := left - {policyID};
      }
      assert done == log.clusterDeletes;
    }

    ghost predicate Built(deletes: seq<Statement>, inserts: seq<Statement>, updates: seq<Statement>,
                          clusterDeletes: seq<Statement>, clusterUpdates: seq<Statement>)
      reads this
    {
      && Trailing(deletes, DeletePolicies, FullName(), deleteArgs, deleteRows)
      && Trailing(inserts, InsertRows, FullName(), insertArgs, insertRows)
      && Trailing(updates, UpdatePolicies, FullName(), updateArgs, updateRows)
      && DeletesClusters(clusterDeletes, FullName(), leafHubName, log.clusterDeletes)
      && Trailing(clusterUpdates, UpdateClusters, FullName(), clusterArgs, clusterRows)
    }

    ghost function Queue(deletes: seq<Statement>, inserts: seq<Statement>, updates: seq<Statement>,
                         clusterDeletes: seq<Statement>, clusterUpdates: seq<Statement>): seq<Statement>
      reads this
    {
      Wrapped(deleteItems) + deletes + Wrapped(insertItems) + inserts + Wrapped(updateItems) + updates
      + clusterDeletes + clusterUpdates
    }

    lemma BuiltAccepted(deletes: seq<Statement>, inserts: seq<Statement>, updates: seq<Statement>,
                        clusterDeletes: seq<Statement>, clusterUpdates: seq<Statement>)
      requires Valid() && Built(deletes, inserts, updates, clusterDeletes, clusterUpdates)
      ensures AllAccepted(Queue(deletes, inserts, updates, clusterDeletes, clusterUpdates)) <==> WithinLimits(log)
    {
      WrappedIsRefused(deleteItems);
      WrappedIsRefused(insertItems);
      WrappedIsRefused(updateItems);
      NothingFlushedIff();
      TrailingAccepted(deletes, DeletePolicies, FullName(), deleteArgs, deleteRows);
      TrailingAccepted(inserts, InsertRows, FullName(), insertArgs, insertRows);
      TrailingAccepted(updates, UpdatePolicies, FullName(), updateArgs, updateRows);
      TrailingAccepted(clusterUpdates, UpdateClusters, FullName(), clusterArgs, clusterRows);
      hide AllAccepted, Trailing, Buffered, AllSound, Wrapped;
      var a := Wrapped(deleteItems);
      AcceptedConcat(a, deletes);
      AcceptedConcat(a + deletes, Wrapped(insertItems));
      AcceptedConcat(a + deletes + Wrapped(insertItems), inserts);
      AcceptedConcat(a + deletes + Wrapped(insertItems) + inserts, Wrapped(updateItems));
      AcceptedConcat(a + deletes + Wrapped(insertItems) + inserts + Wrapped(updateItems), updates);
      AcceptedConcat(a + deletes + Wrapped(insertItems) + inserts + Wrapped(updateItems) + updates, clusterDeletes);
      AcceptedConcat(a + deletes + Wrapped(insertItems) + inserts + Wrapped(updateItems) + updates + clusterDeletes,
                     clusterUpdates);
    }

    lemma BuiltIsEmpty(deletes: seq<Statement>, inserts: seq<Statement>, updates: seq<Statement>,
                       clusterDeletes: seq<Statement>, clusterUpdates: seq<Statement>)
      requires Valid() && Built(deletes, inserts, updates, clusterDeletes, clusterUpdates)
      ensures Queue(deletes, inserts, updates, clusterDeletes, clusterUpdates) == [] <==> log == NOTHING
    {
      NothingFlushedIff();
      hide AllSound, Range, DeletesEncoded;
    }

    lemma BuiltParts(deletes: seq<Statement>, inserts: seq<Statement>, updates: seq<Statement>,
                     clusterDeletes: seq<Statement>, clusterUpdates: seq<Statement>)
      requires Valid() && Built(deletes, inserts, updates, clusterDeletes, clusterUpdates) && WithinLimits(log)
      ensures Queue(deletes, inserts, updates, clusterDeletes, clusterUpdates) ==
              deletes + inserts + updates + clusterDeletes + clusterUpdates
      ensures deleteArgs == [Text(leafHubName)] + Texts(log.policyDeletes)
      ensures insertArgs == InsertArgs(leafHubName, log.inserts)
      ensures updateArgs == PolicyArgs(leafHubName, log.policyUpdates)
      ensures clusterArgs == UpdateArgs(leafHubName, log.clusterUpdates)
      ensures deleteRows == |log.policyDeletes| && insertRows == |log.inserts|
      ensures updateRows == |log.policyUpdates| && clusterRows == |log.clusterUpdates|
    {
      hide InsertArgs, UpdateArgs, PolicyArgs, DeletesEncoded, ItemsHold, Trailing, DeletesClusters, Texts;
      NothingFlushedIff();
      NothingIsWrapped();
    }

    lemma BuiltApplies(deletes: seq<Statement>, inserts: seq<Statement>, updates: seq<Statement>,
                       clusterDeletes: seq<Statement>, clusterUpdates: seq<Statement>, d: Database)
      requires Valid() && Built(deletes, inserts, updates, clusterDeletes, clusterUpdates) && WithinLimits(log)
      ensures ExecuteAll(Queue(deletes, inserts, updates, clusterDeletes, clusterUpdates), FullName(), d) ==
              WithRows(d, leafHubName, Apply(log, RowsOf(d, leafHubName)))
    {
      hide Valid, Queue, Trailing, WithinLimits, DeletesClusters, ExecuteAll, Apply, Texts, InsertArgs, UpdateArgs;
      hide PolicyArgs, RowsOf, WithRows;
      BuiltParts(deletes, inserts, updates, clusterDeletes, clusterUpdates);
      PartsApply(deletes, inserts, updates, clusterDeletes, clusterUpdates, FullName(), leafHubName, log, d);
    }

    method GenerateInsertStatement() returns (query: seq<Token>)
      requires insertRows > 0 && |insertArgs| == 5 * insertRows
      ensures Params(query) == Range(1, |insertArgs|) && Worded(InsertRows, FullName(), query)
    {
      assert Params([]) == [];
      hide Params, Range;
      SameText("INSERT into ", schema, tableName, " values ");
      query := AppendText([], "INSERT into " + schema + "." + tableName + " values ");
      ghost var first := query;
      var columnsCount := |insertArgs| / insertRows;
      assert columnsCount == 5;
      var rows := GenerateInsertOrUpdateArgs(insertRows, columnsCount, map[1 := "uuid"]);
      ParamsConcat(query, rows);
      query := query + rows;
      HeadWorded(first, rows);
    }

    method GenerateUpdatePolicyComplianceStatement() returns (query: seq<Token>)
      requires updateRows > 0 && |updateArgs| == 3 * updateRows
      ensures Params(query) == Range(1, |updateArgs|) && Worded(UpdatePolicies, FullName(), query)
    {
      assert Params([]) == [];
      hide Params, Range, Worded;
      SameText("UPDATE ", schema, tableName, " AS old SET compliance=new.compliance FROM (values ");
      query :=
        AppendText([], "UPDATE " + schema + "." + tableName + " AS old SET compliance=new.compliance FROM (values ");
      ghost var first := query;
      var numberOfColumns := |updateArgs| / updateRows;
      assert numberOfColumns == 3;
      var rows := GenerateInsertOrUpdateArgs(updateRows, numberOfColumns,
                                             map[1 := "uuid", 3 := schema + ".compliance_type"]);
      ParamsConcat(query, rows);
      query := AppendText(query + rows, ") AS new(id,leaf_hub_name,compliance) ");
      query := AppendText(query, "WHERE old.id=new.id AND old.leaf_hub_name=new.leaf_hub_name");
      assert first == [Sql("UPDATE " + FullName() + " AS old SET compliance=new.compliance FROM (values ")];
      PolicyUpdateWorded(FullName(), rows);
    }

    method GenerateUpdateClusterComplianceStatement() returns (query: seq<Token>)
      requires clusterRows > 0 && |clusterArgs| == 4 * clusterRows
      ensures Params(query) == Range(1, |clusterArgs|) && Worded(UpdateClusters, FullName(), query)
    {
      assert Params([]) == [];
      hide Params, Range, Worded;
      SameText("UPDATE ", schema, tableName, " AS old SET compliance=new.compliance FROM (values ");
      query :=
        AppendText([], "UPDATE " + schema + "." + tableName + " AS old SET compliance=new.compliance FROM (values ");
      ghost var first := query;
      var columnCount := |clusterArgs| / clusterRows;
      assert columnCount == 4;
      var rows := GenerateInsertOrUpdateArgs(clusterRows, columnCount,
                                             map[1 := "uuid", 4 := schema + ".compliance_type"]);
      ParamsConcat(query, rows);
      query := AppendText(query + rows, ") AS new(id,cluster_name,leaf_hub_name,compliance) ");
      query := AppendText(query, "WHERE old.id=new.id AND old.leaf_hub_name=new.leaf_hub_name ");
      query := AppendText(query, "AND old.cluster_name=new.cluster_name");
      assert first == [Sql("UPDATE " + FullName() + " AS old SET compliance=new.compliance FROM (values ")];
      ClusterUpdateWorded(FullName(), rows);
    }

    method GenerateDeleteStatement() returns (query: seq<Token>)
      requires |deleteArgs| == deleteRows + 1 && deleteRows > 0
      ensures Params(query) == Range(1, |deleteArgs|) && Worded(DeletePolicies, FullName(), query)
    {
      hide Worded;
      SameText("DELETE from ", schema, tableName, " WHERE leaf_hub_name=");
      query := AppendText([], "DELETE from " + schema + "." + tableName + " WHERE leaf_hub_name=");
      query := AppendParam(query, 1);
      query := AppendText(query, " AND id IN (");
      assert query == [Sql("DELETE from " + FullName() + " WHERE leaf_hub_name="), Param(1), Sql(" AND id IN (")];
      var ids := GenerateArgsList(deleteRows, 2, map[]);
      ParamsConcat(query, ids);
      query := AppendText(query + ids, ")");
      RangeConcat(1, 1, deleteRows);
      PolicyDeleteWorded(FullName(), ids);
    }

    method GenerateDeleteClusterComplianceStatement(policyID: string) returns (query: seq<Token>)
      requires policyID in clusterDeleteArgs && |clusterDeleteArgs[policyID]| > 2
      ensures Params(query) == Range(1, |clusterDeleteArgs[policyID]|) && Worded(DeleteClusters, FullName(), query)
    {
      hide Worded;
      SameText("DELETE from ", schema, tableName, " WHERE id=");
      var deletedClustersCount := |clusterDeleteArgs[policyID]| - 2;
      query := AppendText([], "DELETE from " + schema + "." + tableName + " WHERE id=");
      query := AppendParam(query, 1);
      query := AppendText(query, " AND leaf_hub_name=");
      query := AppendParam(query, 2);
      query := AppendText(query, " AND cluster_name IN (");
      assert query == [Sql("DELETE from " + FullName() + " WHERE id="), Param(1), Sql(" AND leaf_hub_name="), Param(2),
                       Sql(" AND cluster_name IN (")];
      var clusters := GenerateArgsList(deletedClustersCount, 3, map[]);
      ParamsConcat(query, clusters);
      query := AppendText(query + clusters, ")");
      RangeConcat(1, 2, deletedClustersCount);
      ClusterDeleteWorded(FullName(), clusters);
    }
  }
}
