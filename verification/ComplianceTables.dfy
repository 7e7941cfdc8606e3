/**
 The compliance table in the global hub's database, as the status syncers see it: one leaf hub's
 rows are read as sets of clusters per policy, and changed by batches.
 */
module ComplianceTables {
  import opened BatchBuilder
  import opened Compliance
  import opened HubDatabase

  // ---------------------------------------------------------------- lists of row changes

  predicate NoRepeats(rows: seq<Change>) {
    forall i, j :: 0 <= i < j < |rows| ==> rows[i].Row() != rows[j].Row()
  }

  /** The changes set exactly these rows to these statuses, each row once. */
  predicate Lists(rows: seq<Change>, m: Table) {
    NoRepeats(rows) && Inserted(map[], rows) == m
  }

  lemma {:induction false} InsertedKey(rows: seq<Change>, row: Row)
    ensures row in Inserted(map[], rows) <==> exists i :: 0 <= i < |rows| && rows[i].Row() == row
    decreases |rows|
  {
    if rows != [] {
      var front := rows[..|rows| - 1];
      InsertedKey(front, row);
      assert forall i :: 0 <= i < |front| ==> front[i] == rows[i];
    }
  }

  lemma ListsSnoc(rows: seq<Change>, m: Table, change: Change)
    requires Lists(rows, m) && change.Row() !in m
    ensures Lists(rows + [change], m[change.Row() := change.status])
  {
    assert (rows + [change])[..|rows|] == rows;
    InsertedKey(rows, change.Row());
  }

  lemma {:induction false} ListsCount(rows: seq<Change>, m: Table)
    requires Lists(rows, m)
    ensures |rows| == |m|
    decreases |rows|
  {
    if rows != [] {
      var front, last := rows[..|rows| - 1], rows[|rows| - 1];
      var before := Inserted(map[], front);
      InsertedKey(front, last.Row());
      ListsCount(front, before);
      assert last.Row() !in before;
      assert m.Keys == before.Keys + {last.Row()};
      assert |m.Keys| == |before.Keys| + 1;
    }
  }

  lemma NotYetInserted(rows: seq<Change>, k: nat)
    requires NoRepeats(rows) && k < |rows|
    ensures rows[k].Row() !in Inserted(map[], rows[..k])
  {
    InsertedKey(rows[..k], rows[k].Row());
  }

  lemma {:induction false} InsertedAdds(t: Table, rows: seq<Change>)
    ensures Inserted(t, rows) == t + Inserted(map[], rows)
    decreases |rows|
  {
    if rows != [] {
      InsertedAdds(t, rows[..|rows| - 1]);
    }
  }

  lemma {:induction false} ClustersUpdatedWrites(t: Table, rows: seq<Change>)
    ensures ClustersUpdated(t, rows) == Write(t, Inserted(map[], rows))
    decreases |rows|
  {
    if rows != [] {
      ClustersUpdatedWrites(t, rows[..|rows| - 1]);
    }
  }

  // ---------------------------------------------------------------- cluster sets per policy

  /** The clusters of one policy by status. */
  class PolicyClusterSets {
    var complianceToSet: map<Status, set<string>>

    constructor ()
      ensures Valid() && forall s :: complianceToSet[s] == {}
    {
      complianceToSet := map[Compliant := {}, NonCompliant := {}, Unknown := {}];
      new;
      forall s: Status
        ensures s in complianceToSet && complianceToSet[s] == {}
      {
        assert s == Compliant || s == NonCompliant || s == Unknown;
      }
    }

    ghost predicate Valid()
      reads this
    {
      forall s: Status :: s in complianceToSet
    }

    method AddCluster(clusterName: string, status: Status)
      requires Valid()
      modifies this
      ensures Valid() && complianceToSet == old(complianceToSet)[status := old(complianceToSet)[status] + {clusterName}]
    {
      complianceToSet := complianceToSet[status := complianceToSet[status] + {clusterName}];
    }

    function GetAllClusters(): set<string>
      requires Valid()
      reads this
    {
      complianceToSet[Compliant] + complianceToSet[NonCompliant] + complianceToSet[Unknown]
    }

    function GetClusters(status: Status): set<string>
      requires Valid()
      reads this
    {
      complianceToSet[status]
    }
  }

  /** A policy's clusters of one status in a table. */
  function ClustersWith(t: Table, p: string, status: Status): set<string> {
    set row | row in t && row.0 == p && t[row] == status :: row.1
  }

  predicate HasPolicy(t: Table, p: string) {
    exists row :: row in t && row.0 == p
  }

  ghost predicate Describes(sets: PolicyClusterSets, t: Table, p: string)
    reads sets
  {
    sets.Valid() && forall s :: sets.complianceToSet[s] == ClustersWith(t, p, s)
  }

  /** One entry per policy that has rows, holding its clusters by status. */
  ghost predicate DescribesAll(byPolicy: map<string, PolicyClusterSets>, t: Table)
    reads byPolicy.Values
  {
    && (forall p :: p in byPolicy <==> HasPolicy(t, p))
    && (forall p :: p in byPolicy ==> Describes(byPolicy[p], t, p))
    && (forall p, q :: p in byPolicy && q in byPolicy && p != q ==> byPolicy[p] != byPolicy[q])
  }

  lemma OneRowMore(t: Table, row: Row, status: Status, p: string)
    requires row !in t
    ensures forall s :: ClustersWith(t[row := status], p, s) ==
                        ClustersWith(t, p, s) + if p == row.0 && s == status then {row.1} else {}
    ensures HasPolicy(t[row := status], p) <==> HasPolicy(t, p) || p == row.0
  {
    var more := t[row := status];
    assert row in more;
    forall s
      ensures ClustersWith(more, p, s) == ClustersWith(t, p, s) + if p == row.0 && s == status then {row.1} else {}
    {
      forall c
        ensures c in ClustersWith(more, p, s) <==>
                c in ClustersWith(t, p, s) + if p == row.0 && s == status then {row.1} else {}
      {
        assert c in ClustersWith(more, p, s) <==> (p, c) in more && more[(p, c)] == s;
        assert c in ClustersWith(t, p, s) <==> (p, c) in t && t[(p, c)] == s;
      }
    }
    if HasPolicy(t, p) {
      var other :| other in t && other.0 == p;
      assert other in more;
    }
  }

  // ---------------------------------------------------------------- the database

  const COMPLIANCE := "status.compliance"

  lemma ComplianceName()
    ensures "status" + "." + "compliance" == COMPLIANCE
  {
  }

  /** The rows of all leaf hubs; `batches` records what was sent. */
  class ComplianceTable {
    var rows: Database
    ghost var batches: seq<seq<Statement>>

    /** All rows of a leaf hub, or those that are not compliant, in no particular order. */
    method Select(leafHub: string, onlyNonCompliant: bool) returns (result: seq<Change>)
      ensures Lists(result, if onlyNonCompliant then NonCompliantRows(RowsOf(rows, leafHub)) else RowsOf(rows, leafHub))
    {
      result := [];
      var left := rows.Keys;
      ghost var wanted :=
        if onlyNonCompliant then NonCompliantRows(RowsOf(rows, leafHub)) else RowsOf(rows, leafHub);
      ghost var done: Table := map[];
      NothingSelected(rows, leafHub, wanted);
      while left != {}
        invariant left <= rows.Keys && Selected(left, leafHub, wanted, done)
        invariant Lists(result, done)
        decreases left
      {
        hide Lists, Selected, RowsOf;
        var key :| key in left;
        RowsOfAt(rows, leafHub, (key.1, key.2));
        SelectedMore(left, leafHub, wanted, done, key);
        if key.0 == leafHub && (!onlyNonCompliant || rows[key] != Compliant) {
          ListsSnoc(result, done, Change(key.1, key.2, rows[key]));
          result := result + [Change(key.1, key.2, rows[key])];
          done := done[(key.1, key.2) := rows[key]];
        }
        left := left - {key};
      }
      AllSelected(leafHub, wanted, done);
    }

    /** Reads the rows into sets of clusters per policy. */
    method BuildClusterSets(selected: seq<Change>, ghost t: Table) returns (byPolicy: map<string, PolicyClusterSets>)
      requires Lists(selected, t)
      ensures fresh(byPolicy.Values) && DescribesAll(byPolicy, t)
    {
      byPolicy := map[];
      ghost var done: Table := map[];
      assert DescribesAll(byPolicy, done);
      for k := 0 to |selected|
        invariant NoRepeats(selected) && done == Inserted(map[], selected[..k])
        invariant fresh(byPolicy.Values) && DescribesAll(byPolicy, done)
      {
        hide NoRepeats, DescribesAll;
        NotYetInserted(selected, k);
        assert selected[..k + 1][..k] == selected[..k];
        byPolicy := AddRow(byPolicy, done, selected[k]);
        done := done[selected[k].Row() := selected[k].status];
      }
      assert selected[..|selected|] == selected;
    }

    method AddRow(before: map<string, PolicyClusterSets>, ghost t: Table, change: Change)
      returns (byPolicy: map<string, PolicyClusterSets>)
      requires DescribesAll(before, t) && change.Row() !in t
      modifies before.Values
      ensures DescribesAll(byPolicy, t[change.Row() := change.status]) && fresh(byPolicy.Values - before.Values)
    {
      hide ClustersWith, HasPolicy;
      ghost var p := change.policy;
      byPolicy := before;
      if change.policy !in byPolicy {
        NoPolicyNoClusters(t, p);
        var created := new PolicyClusterSets();
        assert Describes(created, t, p);
        byPolicy := byPolicy[change.policy := created];
      }
      var sets := byPolicy[change.policy];
      assert Describes(sets, t, p) && sets in byPolicy.Values;
      sets.AddCluster(change.cluster, change.status);
      ghost var more := t[change.Row() := change.status];
      assert Describes(sets, more, p) by {
        OneRowMore(t, change.Row(), change.status, p);
      }
      forall q
        ensures q in byPolicy <==> HasPolicy(more, q)
        ensures q in byPolicy ==> Describes(byPolicy[q], more, q)
      {
        OneRowMore(t, change.Row(), change.status, q);
        assert q in before && q != p ==> before[q] != sets;
      }
    }

    /** Runs a batch as one transaction. */
    method SendBatch(queue: seq<Statement>) returns (ok: bool)
      modifies this
      ensures (ok, rows) == Send(queue, COMPLIANCE, old(rows)) && batches == old(batches) + [queue]
    {
      batches := batches + [queue];
      var sent := Send(queue, COMPLIANCE, rows);
      ok, rows := sent.0, sent.1;
    }
  }

  /** The wanted rows outside `left`. */
  ghost predicate Selected(left: set<Key>, leafHub: string, wanted: Table, done: Table) {
    && (forall row :: row in done <==> row in wanted && (leafHub, row.0, row.1) !in left)
    && forall row :: row in done ==> done[row] == wanted[row]
  }

  lemma NothingSelected(d: Database, leafHub: string, wanted: Table)
    requires wanted.Keys <= RowsOf(d, leafHub).Keys
    ensures Selected(d.Keys, leafHub, wanted, map[])
  {
    hide RowsOf;
    forall row | row in wanted
      ensures (leafHub, row.0, row.1) in d
    {
      RowsOfAt(d, leafHub, row);
    }
  }

  lemma SelectedMore(left: set<Key>, leafHub: string, wanted: Table, done: Table, key: Key)
    requires Selected(left, leafHub, wanted, done) && key in left
    ensures var row: Row := (key.1, key.2);
            && Selected(left - {key}, leafHub, wanted,
                        if key.0 == leafHub && row in wanted then done[row := wanted[row]] else done)
            && (key.0 == leafHub ==> row !in done)
  {
  }

  lemma AllSelected(leafHub: string, wanted: Table, done: Table)
    requires Selected({}, leafHub, wanted, done)
    ensures done == wanted
  {
  }

  lemma NoPolicyNoClusters(t: Table, p: string)
    requires !HasPolicy(t, p)
    ensures forall s :: ClustersWith(t, p, s) == {}
  {
  }

  function NonCompliantRows(t: Table): Table {
    map row | row in t && t[row] != Compliant :: t[row]
  }
}
