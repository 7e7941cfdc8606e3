/**
 The handler of clusters-per-policy bundles: the difference between the compliance table and
 the bundle becomes a batch of inserts, updates and deletes.
 */
module FullStateSync {
  import opened BatchBuilder
  import opened Compliance
  import opened ComplianceTables
  import opened HubDatabase

  // ---------------------------------------------------------------- what differs

  function NewRows(t: Table, target: Table): Table {
    map row | row in target && row !in t :: target[row]
  }

  function ChangedRows(t: Table, target: Table): Table {
    map row | row in target && row in t && t[row] != target[row] :: target[row]
  }

  /** Clusters of a policy that only the table has. */
  function Gone(t: Table, target: Table, p: string): set<string> {
    set row | row in t && row.0 == p && row !in target :: row.1
  }

  /** Policies that only the table has. */
  function Vanished(t: Table, ids: set<string>): set<string> {
    set row | row in t && row.0 !in ids :: row.0
  }

  predicate ListsRows(log: Log, t: Table, target: Table) {
    && Lists(log.inserts, NewRows(t, target)) && Lists(log.clusterUpdates, ChangedRows(t, target))
    && log.policyUpdates == []
  }

  ghost predicate ListsGone(deletes: map<string, seq<string>>, t: Table, target: Table, ids: set<string>) {
    forall p ::
      && (p in deletes <==> p in ids && Gone(t, target, p) != {})
      && (p in deletes ==> Distinct(deletes[p]) && Elements(deletes[p]) == Gone(t, target, p))
  }

  /** The log is exactly the difference, every row named once. */
  ghost predicate IsDifference(log: Log, t: Table, target: Table, ids: set<string>) {
    && ListsRows(log, t, target)
    && ListsGone(log.clusterDeletes, t, target, ids)
    && Distinct(log.policyDeletes) && Elements(log.policyDeletes) == Vanished(t, ids)
  }

  /** All rows of the target belong to its policies. */
  predicate Covers(ids: set<string>, target: Table) {
    forall row :: row in target ==> row.0 in ids
  }

  lemma ListsGoneAt(deletes: map<string, seq<string>>, t: Table, target: Table, ids: set<string>, row: Row)
    requires ListsGone(deletes, t, target, ids)
    ensures row.0 in deletes && row.1 in deletes[row.0] <==> row in t && row.0 in ids && row !in target
  {
    var p := row.0;
    assert row.1 in Gone(t, target, p) <==> row in t && row !in target;
    if p in deletes {
      assert row.1 in deletes[p] <==> row.1 in Elements(deletes[p]);
    }
  }

  lemma VanishedAt(log: Log, t: Table, target: Table, ids: set<string>, row: Row)
    requires IsDifference(log, t, target, ids) && row in t
    ensures row.0 in log.policyDeletes <==> row.0 !in ids
  {
    assert row.0 in Elements(log.policyDeletes) <==> row.0 in Vanished(t, ids);
  }

  /** Running the difference leaves exactly the target. */
  lemma DifferenceIsExact(log: Log, t: Table, target: Table, ids: set<string>)
    requires IsDifference(log, t, target, ids) && Covers(ids, target)
    ensures Apply(log, t) == target
  {
    InsertedAdds(PoliciesDeleted(t, log.policyDeletes), log.inserts);
    var t2 := PoliciesDeleted(t, log.policyDeletes) + NewRows(t, target);
    assert PoliciesUpdated(t2, []) == t2;
    var t3 := ClustersDeleted(t2, log.clusterDeletes);
    ClustersUpdatedWrites(t3, log.clusterUpdates);
    var result := Apply(log, t);
    assert result == Write(t3, ChangedRows(t, target));
    assert ListsGone(log.clusterDeletes, t, target, ids);
    hide IsDifference, ListsGone, Apply, PoliciesUpdated, ClustersUpdated, Inserted;
    forall row
      ensures row in result <==> row in target
      ensures row in target ==> result[row] == target[row]
    {
      ListsGoneAt(log.clusterDeletes, t, target, ids, row);
      if row in t {
        VanishedAt(log, t, target, ids, row);
      }
    }
  }

  lemma SameRowsDiffer(t: Table, ids: set<string>)
    requires Covers(ids, t)
    ensures NewRows(t, t) == map[] && ChangedRows(t, t) == map[] && Vanished(t, ids) == {}
    ensures forall p :: Gone(t, t, p) == {}
  {
  }

  lemma NoRowsListed(log: Log, t: Table, ids: set<string>)
    requires IsDifference(log, t, t, ids) && Covers(ids, t)
    ensures log == NOTHING
  {
    hide Lists, Distinct, NewRows, ChangedRows, Gone, Vanished;
    SameRowsDiffer(t, ids);
    ListsCount(log.inserts, NewRows(t, t));
    ListsCount(log.clusterUpdates, ChangedRows(t, t));
    DistinctCount(log.policyDeletes);
  }

  lemma NoDifferenceIff(log: Log, t: Table, target: Table, ids: set<string>)
    requires IsDifference(log, t, target, ids) && Covers(ids, target)
    ensures log == NOTHING <==> t == target
  {
    hide IsDifference, Covers;
    if log == NOTHING {
      DifferenceIsExact(log, t, target, ids);
      NothingApplied(t);
    }
    if t == target {
      NoRowsListed(log, t, ids);
    }
  }

  lemma NothingApplied(t: Table)
    ensures Apply(NOTHING, t) == t
  {
    assert ClustersDeleted(t, map[]) == t && PoliciesDeleted(t, []) == t;
  }

  /** Whether the difference fits one statement of each kind. */
  predicate Fits(t: Table, target: Table, ids: set<string>) {
    && |NewRows(t, target)| <= INSERT_LIMIT && |ChangedRows(t, target)| <= CLUSTER_LIMIT
    && |Vanished(t, ids)| <= DELETE_LIMIT
    && forall p :: p in ids ==> |Gone(t, target, p)| <= CLUSTER_DELETE_LIMIT
  }

  /** What was taken out of a set so far, and what is left of it. */
  predicate Taken<T(==)>(all: set<T>, left: set<T>, taken: seq<T>) {
    left <= all && Distinct(taken) && Elements(taken) == all - left
  }

  lemma TakeAnother<T>(all: set<T>, left: set<T>, taken: seq<T>, x: T)
    requires Taken(all, left, taken) && x in left
    ensures Taken(all, left - {x}, taken + [x])
  {
    DistinctSnoc(taken, x);
  }

  lemma FitsIff(log: Log, t: Table, target: Table, ids: set<string>)
    requires IsDifference(log, t, target, ids)
    ensures WithinLimits(log) <==> Fits(t, target, ids)
  {
    ListsCount(log.inserts, NewRows(t, target));
    ListsCount(log.clusterUpdates, ChangedRows(t, target));
    DistinctCount(log.policyDeletes);
    forall p | p in ids
      ensures p in log.clusterDeletes ==> |log.clusterDeletes[p]| == |Gone(t, target, p)|
      ensures p !in log.clusterDeletes ==> |Gone(t, target, p)| == 0
    {
      if p in log.clusterDeletes {
        DistinctCount(log.clusterDeletes[p]);
      }
    }
    assert forall p :: p in log.clusterDeletes ==> p in ids;
    hide Lists, Gone, Vanished;
  }

  // ---------------------------------------------------------------- the handler

  /** The target with all of these clusters of a policy in one status. */
  function Labelled(target: Table, p: string, clusters: seq<string>, status: Status): Table
    decreases |clusters|
  {
    if clusters == [] then target
    else Labelled(target, p, clusters[..|clusters| - 1], status)[(p, clusters[|clusters| - 1]) := status]
  }

  lemma {:induction false} LabelledRows(target: Table, p: string, clusters: seq<string>, status: Status)
    ensures forall row :: row in Labelled(target, p, clusters, status) <==>
                          row in target || (row.0 == p && row.1 in clusters)
    ensures forall row :: row in Labelled(target, p, clusters, status) ==>
      Labelled(target, p, clusters, status)[row] == if row.0 == p && row.1 in clusters then status else target[row]
    decreases |clusters|
  {
    if clusters != [] {
      LabelledRows(target, p, clusters[..|clusters| - 1], status);
    }
  }

  /** What handling one row of the bundle logs. */
  function WithRow(log: Log, t: Table, change: Change): Log {
    if change.Row() !in t then log.(inserts := log.inserts + [change])
    else if t[change.Row()] != change.status then log.(clusterUpdates := log.clusterUpdates + [change])
    else log
  }

  lemma WithRowListsRows(log: Log, t: Table, target: Table, change: Change)
    requires ListsRows(log, t, target) && change.Row() !in target
    ensures ListsRows(WithRow(log, t, change), t, target[change.Row() := change.status])
  {
    var row, more := change.Row(), target[change.Row() := change.status];
    assert NewRows(t, more) == if row in t then NewRows(t, target) else NewRows(t, target)[row := change.status];
    assert ChangedRows(t, more) ==
           if row in t && t[row] != change.status then ChangedRows(t, target)[row := change.status]
           else ChangedRows(t, target);
    hide Lists;
    if row !in t {
      ListsSnoc(log.inserts, NewRows(t, target), change);
    } else if t[row] != change.status {
      ListsSnoc(log.clusterUpdates, ChangedRows(t, target), change);
    }
  }

  lemma NotYetLabelled(target: Table, p: string, clusters: seq<string>, k: nat, status: Status)
    requires Distinct(clusters) && k < |clusters| && (p, clusters[k]) !in target
    ensures (p, clusters[k]) !in Labelled(target, p, clusters[..k], status)
    ensures Labelled(target, p, clusters[..k + 1], status) ==
            Labelled(target, p, clusters[..k], status)[(p, clusters[k]) := status]
  {
    LabelledRows(target, p, clusters[..k], status);
    assert clusters[..k + 1][..k] == clusters[..k];
  }

  lemma TakeOneMore(clusters: seq<string>, k: nat)
    requires Distinct(clusters) && k < |clusters|
    ensures Elements(clusters[..k + 1]) == Elements(clusters[..k]) + {clusters[k]}
    ensures clusters[k] !in Elements(clusters[..k])
  {
    assert clusters[..k + 1] == clusters[..k] + [clusters[k]];
  }

  /** The sets say which of these clusters have rows, and which have the right ones; none is handled yet. */
  predicate Consistent(p: string, clusters: seq<string>, all: set<string>, typed: set<string>, status: Status,
                       t: Table, target: Table)
  {
    forall c :: c in clusters ==>
      && (p, c) !in target
      && (c in all <==> (p, c) in t)
      && (c in typed <==> (p, c) in t && t[(p, c)] == status)
  }

  lemma StaysConsistent(p: string, clusters: seq<string>, all: set<string>, typed: set<string>, status: Status,
                        t: Table, target: Table, done: seq<string>, doneStatus: Status)
    requires Consistent(p, clusters, all, typed, status, t, target) && Disjoint(done, clusters)
    ensures Consistent(p, clusters, all - Elements(done), typed, status, t, Labelled(target, p, done, doneStatus))
  {
    LabelledRows(target, p, done, doneStatus);
    hide Labelled;
  }

  lemma NothingLabelled(target: Table, p: string, status: Status)
    ensures Labelled(target, p, [], status) == target && Elements<string>([]) == {}
  {
  }

  /** The clusters of one policy that the bundle lists under one status; returns those not yet handled. */
  method HandleClustersWithSpecificCompliance(
      builder: PoliciesBatchBuilder, policyID: string, clusters: seq<string>, allFromDB: set<string>,
      typedFromDB: set<string>, status: Status, ghost t: Table, ghost target: Table)
    returns (rest: set<string>)
    requires builder.Valid() && ListsRows(builder.log, t, target) && Distinct(clusters)
    requires Consistent(policyID, clusters, allFromDB, typedFromDB, status, t, target)
    modifies builder
    ensures builder.Valid() && rest == allFromDB - Elements(clusters)
    ensures ListsRows(builder.log, t, Labelled(target, policyID, clusters, status))
    ensures builder.log.clusterDeletes == old(builder.log.clusterDeletes)
    ensures builder.log.policyDeletes == old(builder.log.policyDeletes)
  {
    hide Labelled, ListsRows, Distinct, Elements, PoliciesBatchBuilder.Valid;
    NothingLabelled(target, policyID, status);
    rest := allFromDB;
    for k := 0 to |clusters|
      invariant builder.Valid() && rest == allFromDB - Elements(clusters[..k])
      invariant ListsRows(builder.log, t, Labelled(target, policyID, clusters[..k], status))
      invariant builder.log.clusterDeletes == old(builder.log.clusterDeletes)
      invariant builder.log.policyDeletes == old(builder.log.policyDeletes)
    {
      var clusterName := clusters[k];
      assert clusterName in clusters;
      ghost var log := builder.log;
      TakeOneMore(clusters, k);
      NotYetLabelled(target, policyID, clusters, k, status);
      WithRowListsRows(log, t, Labelled(target, policyID, clusters[..k], status),
                       Change(policyID, clusterName, status));
      if clusterName !in rest {
        builder.Insert(policyID, clusterName, status);
      } else {
        if clusterName !in typedFromDB {
          builder.UpdateClusterCompliance(policyID, clusterName, status);
        }
        rest := rest - {clusterName};
      }
      assert builder.log == WithRow(log, t, Change(policyID, clusterName, status));
    }
    assert clusters[..|clusters|] == clusters;
  }

  lemma AllThreeLabels(o: PolicyStatus, target: Table)
    requires WellFormedPolicy(o)
    ensures Labelled(Labelled(Labelled(target, o.id, o.compliant, Compliant), o.id, o.nonCompliant, NonCompliant),
                     o.id, o.unknown, Unknown)
            == target + PolicyRows(o.id, StatusesOf(o))
  {
    var l1 := Labelled(target, o.id, o.compliant, Compliant);
    var l2 := Labelled(l1, o.id, o.nonCompliant, NonCompliant);
    var l3 := Labelled(l2, o.id, o.unknown, Unknown);
    LabelledRows(target, o.id, o.compliant, Compliant);
    LabelledRows(l1, o.id, o.nonCompliant, NonCompliant);
    LabelledRows(l2, o.id, o.unknown, Unknown);
    hide Distinct, Labelled;
    var after := target + PolicyRows(o.id, StatusesOf(o));
    forall row
      ensures row in l3 <==> row in after
      ensures row in l3 ==> l3[row] == after[row]
    {
    }
  }

  lemma FromDB(sets: PolicyClusterSets, t: Table, p: string)
    requires Describes(sets, t, p)
    ensures forall c :: c in sets.GetAllClusters() <==> (p, c) in t
    ensures forall c, s :: c in sets.GetClusters(s) <==> (p, c) in t && t[(p, c)] == s
  {
    forall c, s
      ensures c in sets.GetClusters(s) <==> (p, c) in t && t[(p, c)] == s
    {
      assert c in ClustersWith(t, p, s) <==> (p, c) in t && t[(p, c)] == s;
    }
    hide ClustersWith;
    forall c
      ensures c in sets.GetAllClusters() <==> (p, c) in t
    {
      if (p, c) in t {
        assert c in sets.GetClusters(t[(p, c)]);
      }
    }
  }

  lemma GoneElsewhere(t: Table, target: Table, p: string, statuses: map<string, Status>, q: string)
    requires q != p
    ensures Gone(t, target + PolicyRows(p, statuses), q) == Gone(t, target, q)
  {
    forall row: Row | row.0 == q
      ensures row in target + PolicyRows(p, statuses) <==> row in target
    {
    }
  }

  lemma GoneHere(t: Table, target: Table, p: string, statuses: map<string, Status>, gone: set<string>)
    requires forall row :: row in target ==> row.0 != p
    requires forall c :: c in gone <==> (p, c) in t && c !in statuses
    ensures Gone(t, target + PolicyRows(p, statuses), p) == gone
  {
    forall row: Row | row.0 == p
      ensures row in target + PolicyRows(p, statuses) <==> row.1 in statuses
    {
    }
  }

  lemma OnePolicyMore(deletes: map<string, seq<string>>, more: map<string, seq<string>>, t: Table, target: Table,
                      ids: set<string>, p: string, statuses: map<string, Status>, gone: seq<string>)
    requires ListsGone(deletes, t, target, ids) && p !in ids && Covers(ids, target)
    requires Distinct(gone) && forall c :: c in Elements(gone) <==> (p, c) in t && c !in statuses
    requires more == if gone == [] then deletes else deletes[p := gone]
    ensures ListsGone(more, t, target + PolicyRows(p, statuses), ids + {p})
    ensures Covers(ids + {p}, target + PolicyRows(p, statuses))
  {
    var after := target + PolicyRows(p, statuses);
    GoneHere(t, target, p, statuses, Elements(gone));
    assert gone != [] ==> gone[0] in Elements(gone);
    forall q
      ensures q in more <==> q in ids + {p} && Gone(t, after, q) != {}
      ensures q in more ==> Distinct(more[q]) && Elements(more[q]) == Gone(t, after, q)
    {
      if q != p {
        GoneElsewhere(t, target, p, statuses, q);
      }
      hide Gone, Distinct, PolicyRows, Covers;
    }
  }

  function WithGone(deletes: map<string, seq<string>>, p: string, gone: seq<string>): map<string, seq<string>> {
    if gone == [] then deletes else deletes[p := gone]
  }

  lemma OneGoneMore(deletes: map<string, seq<string>>, p: string, gone: seq<string>, cluster: string)
    requires p !in deletes
    ensures WithDelete(WithGone(deletes, p, gone), p, cluster) == WithGone(deletes, p, gone + [cluster])
  {
    assert gone == [] ==> gone + [cluster] == [cluster];
  }

  /** Deletes the clusters that are left, in no particular order. */
  method DeleteClusters(builder: PoliciesBatchBuilder, policyID: string, clusters: set<string>)
    returns (ghost gone: seq<string>)
    requires builder.Valid() && policyID !in builder.log.clusterDeletes
    modifies builder
    ensures builder.Valid() && Distinct(gone) && Elements(gone) == clusters
    ensures builder.log ==
            old(builder.log).(clusterDeletes := WithGone(old(builder.log.clusterDeletes), policyID, gone))
  {
    gone := [];
    var left := clusters;
    ghost var log := builder.log;
    while left != {}
      invariant builder.Valid() && Taken(clusters, left, gone)
      invariant builder.log == log.(clusterDeletes := WithGone(log.clusterDeletes, policyID, gone))
      decreases left
    {
      hide Taken, WithGone, WithDelete, PoliciesBatchBuilder.Valid;
      var clusterName :| clusterName in left;
      TakeAnother(clusters, left, gone, clusterName);
      OneGoneMore(log.clusterDeletes, policyID, gone, clusterName);
      builder.DeleteClusterStatus(policyID, clusterName);
      gone := gone + [clusterName];
      left := left - {clusterName};
    }
  }

  /** The log after some of the bundle's policies were handled. */
  ghost predicate Handled(log: Log, t: Table, target: Table, ids: set<string>) {
    && ListsRows(log, t, target) && ListsGone(log.clusterDeletes, t, target, ids)
    && log.policyDeletes == [] && Covers(ids, target)
  }

  method HandleClusterPerPolicy(builder: PoliciesBatchBuilder, o: PolicyStatus, sets: PolicyClusterSets,
                                ghost t: Table, ghost target: Table, ghost ids: set<string>)
    requires builder.Valid() && WellFormedPolicy(o) && Describes(sets, t, o.id)
    requires Handled(builder.log, t, target, ids) && o.id !in ids
    modifies builder
    ensures builder.Valid() && Handled(builder.log, t, target + PolicyRows(o.id, StatusesOf(o)), ids + {o.id})
  {
    FromDB(sets, t, o.id);
    assert forall c :: (o.id, c) !in target;
    assert o.id !in builder.log.clusterDeletes;
    ghost var log := builder.log;
    assert ListsGone(log.clusterDeletes, t, target, ids) && Covers(ids, target);
    var all := HandleStatuses(builder, o, sets, t, target);
    hide ListsRows, ListsGone, PoliciesBatchBuilder.Valid, Distinct, ClustersWith, PolicyRows, Covers;
    ghost var before := builder.log;
    ghost var gone := DeleteClusters(builder, o.id, all);
    OnePolicyMore(log.clusterDeletes, builder.log.clusterDeletes, t, target, ids, o.id, StatusesOf(o), gone);
    SameRows(before, builder.log, t, target + PolicyRows(o.id, StatusesOf(o)));
  }

  /** Each list of a policy finds what the lists before it left. */
  lemma ListsAreConsistent(o: PolicyStatus, t: Table, target: Table, all: set<string>, compliant: set<string>,
                           nonCompliant: set<string>, unknown: set<string>)
    requires WellFormedPolicy(o) && forall c :: (o.id, c) !in target
    requires forall c :: c in all <==> (o.id, c) in t
    requires forall c :: c in compliant <==> (o.id, c) in t && t[(o.id, c)] == Compliant
    requires forall c :: c in nonCompliant <==> (o.id, c) in t && t[(o.id, c)] == NonCompliant
    requires forall c :: c in unknown <==> (o.id, c) in t && t[(o.id, c)] == Unknown
    ensures Distinct(o.compliant) && Distinct(o.nonCompliant) && Distinct(o.unknown)
    ensures var l1 := Labelled(target, o.id, o.compliant, Compliant);
            var l2 := Labelled(l1, o.id, o.nonCompliant, NonCompliant);
            && Consistent(o.id, o.compliant, all, compliant, Compliant, t, target)
            && Consistent(o.id, o.nonCompliant, all - Elements(o.compliant), nonCompliant, NonCompliant, t, l1)
            && Consistent(o.id, o.unknown, all - Elements(o.compliant) - Elements(o.nonCompliant), unknown, Unknown, t,
                          l2)
  {
    hide Labelled, Distinct, Elements;
    var l1 := Labelled(target, o.id, o.compliant, Compliant);
    StaysConsistent(o.id, o.nonCompliant, all, nonCompliant, NonCompliant, t, target, o.compliant, Compliant);
    StaysConsistent(o.id, o.unknown, all, unknown, Unknown, t, target, o.compliant, Compliant);
    StaysConsistent(o.id, o.unknown, all - Elements(o.compliant), unknown, Unknown, t, l1, o.nonCompliant,
                    NonCompliant);
  }

  lemma UnlistedAre(o: PolicyStatus, all: set<string>)
    ensures forall c :: c in all - Elements(o.compliant) - Elements(o.nonCompliant) - Elements(o.unknown) <==>
                        c in all && c !in StatusesOf(o)
  {
  }

  /** The three lists of a policy; returns the clusters in the database that none of them names. */
  method HandleStatuses(builder: PoliciesBatchBuilder, o: PolicyStatus, sets: PolicyClusterSets,
                        ghost t: Table, ghost target: Table)
    returns (all: set<string>)
    requires builder.Valid() && WellFormedPolicy(o) && Describes(sets, t, o.id)
    requires ListsRows(builder.log, t, target) && forall c :: (o.id, c) !in target
    modifies builder
    ensures builder.Valid() && ListsRows(builder.log, t, target + PolicyRows(o.id, StatusesOf(o)))
    ensures builder.log.clusterDeletes == old(builder.log.clusterDeletes)
    ensures builder.log.policyDeletes == old(builder.log.policyDeletes)
    ensures forall c :: c in all <==> (o.id, c) in t && c !in StatusesOf(o)
  {
    hide Labelled, ListsRows, Distinct, ClustersWith, PolicyRows, PoliciesBatchBuilder.Valid, Consistent, Elements;
    hide WellFormedPolicy, StatusesOf;
    FromDB(sets, t, o.id);
    ghost var l1 := Labelled(target, o.id, o.compliant, Compliant);
    ghost var l2 := Labelled(l1, o.id, o.nonCompliant, NonCompliant);
    ListsAreConsistent(o, t, target, sets.GetAllClusters(), sets.GetClusters(Compliant), sets.GetClusters(NonCompliant),
                       sets.GetClusters(Unknown));
    AllThreeLabels(o, target);
    UnlistedAre(o, sets.GetAllClusters());
    all := sets.GetAllClusters();
    all := HandleClustersWithSpecificCompliance(builder, o.id, o.compliant, all, sets.GetClusters(Compliant), Compliant,
                                                t, target);
    all := HandleClustersWithSpecificCompliance(builder, o.id, o.nonCompliant, all, sets.GetClusters(NonCompliant),
                                                NonCompliant, t, l1);
    all :=
      HandleClustersWithSpecificCompliance(builder, o.id, o.unknown, all, sets.GetClusters(Unknown), Unknown, t, l2);
  }

  lemma SameRows(before: Log, after: Log, t: Table, target: Table)
    requires ListsRows(before, t, target)
    requires after.inserts == before.inserts && after.clusterUpdates == before.clusterUpdates
    requires after.policyUpdates == before.policyUpdates
    ensures ListsRows(after, t, target)
  {
  }

  lemma NewId(objects: seq<PolicyStatus>, k: nat)
    requires UniqueIds(objects) && k < |objects|
    ensures objects[k].id !in ByPolicy(objects[..k])
  {
    ByPolicyKeys(objects[..k], objects[k].id);
    hide ByPolicy;
  }

  /** What the handler of one object does to the rows described so far. */
  lemma OneObjectMore(objects: seq<PolicyStatus>, k: nat)
    requires UniqueIds(objects) && k < |objects|
    ensures Rows(objects[..k + 1]) == Rows(objects[..k]) + PolicyRows(objects[k].id, StatusesOf(objects[k]))
    ensures ByPolicy(objects[..k + 1]).Keys == ByPolicy(objects[..k]).Keys + {objects[k].id}
    ensures objects[k].id !in ByPolicy(objects[..k])
  {
    hide ByPolicy, Flatten, PolicyRows, StatusesOf;
    NewId(objects, k);
    assert objects[..k + 1] == objects[..k] + [objects[k]];
    ByPolicySnoc(objects[..k], objects[k]);
    FlattenPut(ByPolicy(objects[..k]), objects[k].id, StatusesOf(objects[k]));
  }

  /** Sending the batch of the difference. */
  lemma DifferenceSent(queue: seq<Statement>, log: Log, d: Database, hub: string, target: Table, ids: set<string>)
    requires IsDifference(log, RowsOf(d, hub), target, ids) && Covers(ids, target)
    requires AllAccepted(queue) <==> WithinLimits(log)
    requires WithinLimits(log) ==>
      forall r :: ExecuteAll(queue, COMPLIANCE, r) == WithRows(r, hub, Apply(log, RowsOf(r, hub)))
    requires queue == [] <==> log == NOTHING
    ensures Send(queue, COMPLIANCE, d) ==
            if Fits(RowsOf(d, hub), target, ids) then (true, WithRows(d, hub, target)) else (false, d)
    ensures queue == [] <==> RowsOf(d, hub) == target
  {
    var t := RowsOf(d, hub);
    DifferenceIsExact(log, t, target, ids);
    NoDifferenceIff(log, t, target, ids);
    FitsIff(log, t, target, ids);
    hide Fits, WithinLimits, IsDifference, Apply, AllAccepted, ExecuteAll, Covers, RowsOf, WithRows;
  }

  /**
   Handles a bundle: the batch fits exactly when each kind of difference fits one statement;
   then the leaf hub's rows are the bundle's and nothing else, otherwise they are left as they were.
   No other leaf hub's rows change. Nothing is sent when the rows already are the bundle's.
   */
  method HandleClustersPerPolicyBundle(db: ComplianceTable, leafHub: string, objects: seq<PolicyStatus>)
    returns (ok: bool)
    requires WellFormed(objects)
    modifies db
    ensures ok <==> Fits(RowsOf(old(db.rows), leafHub), Rows(objects), ByPolicy(objects).Keys)
    ensures db.rows == if ok then WithRows(old(db.rows), leafHub, Rows(objects)) else old(db.rows)
    ensures |db.batches| == |old(db.batches)| + 1
    ensures db.batches[|old(db.batches)|] == [] <==> RowsOf(old(db.rows), leafHub) == Rows(objects)
  {
    ghost var t := RowsOf(db.rows, leafHub);
    hide Lists, DescribesAll, PoliciesBatchBuilder.Valid, IsDifference, Covers, Fits, Rows, ByPolicy, WellFormed;
    hide RowsOf, WithRows;
    var selected := db.Select(leafHub, false);
    var fromDB := db.BuildClusterSets(selected, t);
    var builder := new PoliciesBatchBuilder("status", "compliance", leafHub);
    ComplianceName();
    HandleObjects(builder, objects, fromDB, t);
    var queue := builder.Build();
    DifferenceSent(queue, builder.log, db.rows, leafHub, Rows(objects), ByPolicy(objects).Keys);
    hide Send, WithinLimits, AllAccepted, ExecuteAll, Apply;
    ok := db.SendBatch(queue);
  }

  /** Handling the same bundle again succeeds and sends nothing. */
  method HandleAgain(db: ComplianceTable, leafHub: string, objects: seq<PolicyStatus>) returns (ok: bool)
    requires WellFormed(objects)
    modifies db
    ensures ok ==> db.rows == WithRows(old(db.rows), leafHub, Rows(objects))
    ensures ok ==> |db.batches| >= 2 && db.batches[|db.batches| - 1] == []
    ensures ok <==> Fits(RowsOf(old(db.rows), leafHub), Rows(objects), ByPolicy(objects).Keys)
  {
    hide RowsOf, WithRows;
    RowsOfWithRows(db.rows, leafHub, Rows(objects));
    RowsReplaced(db.rows, leafHub, Rows(objects), Rows(objects));
    ok := HandleClustersPerPolicyBundle(db, leafHub, objects);
    if ok {
      NothingFits(Rows(objects), ByPolicy(objects).Keys) by {
        RowsAreCovered(objects);
      }
      hide Fits, Rows, WellFormed;
      var again := HandleClustersPerPolicyBundle(db, leafHub, objects);
      assert again;
    }
  }

  lemma NothingFits(t: Table, ids: set<string>)
    requires Covers(ids, t)
    ensures Fits(t, t, ids)
  {
    assert NewRows(t, t) == map[] && ChangedRows(t, t) == map[] && Vanished(t, ids) == {};
    assert forall p :: Gone(t, t, p) == {};
  }

  lemma RowsAreCovered(objects: seq<PolicyStatus>)
    ensures Covers(ByPolicy(objects).Keys, Rows(objects))
  {
    forall row | row in Rows(objects)
      ensures row.0 in ByPolicy(objects)
    {
      FlattenAt(ByPolicy(objects), row);
    }
  }

  method HandleObjects(builder: PoliciesBatchBuilder, objects: seq<PolicyStatus>,
                       fromDB: map<string, PolicyClusterSets>, ghost t: Table)
    requires WellFormed(objects) && builder.Valid() && builder.log == NOTHING && DescribesAll(fromDB, t)
    modifies builder
    ensures builder.Valid() && IsDifference(builder.log, t, Rows(objects), ByPolicy(objects).Keys)
    ensures Covers(ByPolicy(objects).Keys, Rows(objects))
  {
    hide Handled, Rows, PoliciesBatchBuilder.Valid, DescribesAll, ByPolicy, PolicyRows, StatusesOf;
    var left := fromDB.Keys;
    NothingHandled(t);
    assert objects[..0] == [];
    for k := 0 to |objects|
      invariant builder.Valid() && Handled(builder.log, t, Rows(objects[..k]), ByPolicy(objects[..k]).Keys)
      invariant left == fromDB.Keys - ByPolicy(objects[..k]).Keys
    {
      OneObjectMore(objects, k);
      var o := objects[k];
      assert WellFormedPolicy(o);
      hide WellFormed, WellFormedPolicy;
      var sets := SetsOrNone(fromDB, o.id, t);
      HandleClusterPerPolicy(builder, o, sets, t, Rows(objects[..k]), ByPolicy(objects[..k]).Keys);
      left := left - {o.id};
    }
    assert objects[..|objects|] == objects;
    VanishedPolicies(fromDB, t, ByPolicy(objects).Keys);
    ghost var before := builder.log;
    assert before.policyDeletes == [] by {
      HandledDeletesNoPolicy(before, t, Rows(objects), ByPolicy(objects).Keys);
    }
    DeletePolicies(builder, left);
    HandledIsDifference(before, builder.log, t, Rows(objects), ByPolicy(objects).Keys);
  }

  lemma NothingHandled(t: Table)
    ensures Handled(NOTHING, t, Rows([]), ByPolicy([]).Keys) && ByPolicy([]) == map[]
  {
    NoObjects();
    hide Rows, ByPolicy;
    assert NewRows(t, map[]) == map[] && ChangedRows(t, map[]) == map[];
    assert Lists([], map[]);
    assert ListsGone(map[], t, map[], {});
    hide NewRows, ChangedRows, Lists, ListsGone;
  }

  lemma HandledDeletesNoPolicy(log: Log, t: Table, target: Table, ids: set<string>)
    requires Handled(log, t, target, ids)
    ensures log.policyDeletes == []
  {
  }

  lemma HandledIsDifference(before: Log, log: Log, t: Table, target: Table, ids: set<string>)
    requires Handled(before, t, target, ids) && log == before.(policyDeletes := log.policyDeletes)
    requires Distinct(log.policyDeletes) && Elements(log.policyDeletes) == Vanished(t, ids)
    ensures IsDifference(log, t, target, ids) && Covers(ids, target)
  {
    hide Lists, Gone, Distinct;
  }

  lemma VanishedPolicies(fromDB: map<string, PolicyClusterSets>, t: Table, ids: set<string>)
    requires DescribesAll(fromDB, t)
    ensures fromDB.Keys - ids == Vanished(t, ids)
  {
    forall p
      ensures p in fromDB.Keys - ids <==> p in Vanished(t, ids)
    {
      assert HasPolicy(t, p) && p !in ids <==> p in Vanished(t, ids);
    }
  }

  /** The sets read from the database, or empty ones. */
  method SetsOrNone(fromDB: map<string, PolicyClusterSets>, p: string, ghost t: Table) returns (sets: PolicyClusterSets)
    requires DescribesAll(fromDB, t)
    ensures Describes(sets, t, p)
  {
    if p in fromDB {
      sets := fromDB[p];
    } else {
      sets := new PolicyClusterSets();
      NoPolicyNoClusters(t, p);
    }
  }

  /** Deletes the policies that were not in the bundle, in no particular order. */
  method DeletePolicies(builder: PoliciesBatchBuilder, policies: set<string>)
    requires builder.Valid() && builder.log.policyDeletes == []
    modifies builder
    ensures builder.Valid() && builder.log == old(builder.log).(policyDeletes := builder.log.policyDeletes)
    ensures Distinct(builder.log.policyDeletes) && Elements(builder.log.policyDeletes) == policies
  {
    var left := policies;
    while left != {}
      invariant builder.Valid() && Taken(policies, left, builder.log.policyDeletes)
      invariant builder.log == old(builder.log).(policyDeletes := builder.log.policyDeletes)
      decreases left
    {
      hide PoliciesBatchBuilder.Valid, Taken;
      var policyID :| policyID in left;
      TakeAnother(policies, left, builder.log.policyDeletes, policyID);
      builder.DeletePolicy(policyID);
      left := left - {policyID};
    }
  }
}
