/**
 The handlers of complete-state and delta compliance bundles: only rows that exist change,
 and in a complete bundle every row not listed is compliant.
 */
module StatusSync {
  import opened BatchBuilder
  import opened Compliance
  import opened ComplianceTables
  import opened FullStateSync
  import opened HubDatabase

  // ---------------------------------------------------------------- complete state

  /** Listed rows that the table does not already have that way. */
  function ListedUpdates(t: Table, target: Table): Table {
    map row | row in target && !(row in t && t[row] == target[row]) :: target[row]
  }

  /** Rows of the bundle's policies that it does not list and that are not compliant yet. */
  function Reverted(t: Table, target: Table, ids: set<string>): Table {
    map row | row in t && t[row] != Compliant && row.0 in ids && row !in target :: Compliant
  }

  /** Policies outside the bundle with a row that is not compliant. */
  function Stale(t: Table, ids: set<string>): set<string> {
    set row | row in t && t[row] != Compliant && row.0 !in ids :: row.0
  }

  function CompliantPolicies(policies: seq<string>): seq<PolicyChange> {
    seq(|policies|, i requires 0 <= i < |policies| => PolicyChange(policies[i], Compliant))
  }

  predicate UpdatesOnly(log: Log) {
    log.inserts == [] && log.policyDeletes == [] && log.clusterDeletes == map[]
  }

  /** The log makes the implied changes, each row and each policy named once. */
  ghost predicate Implies(log: Log, t: Table, target: Table, ids: set<string>, policies: seq<string>) {
    && UpdatesOnly(log)
    && Lists(log.clusterUpdates, ListedUpdates(t, target) + Reverted(t, target, ids))
    && log.policyUpdates == CompliantPolicies(policies)
    && Distinct(policies) && Elements(policies) == Stale(t, ids)
  }

  lemma {:induction false} PoliciesUpdatedAll(t: Table, policies: seq<string>)
    ensures PoliciesUpdated(t, CompliantPolicies(policies)) ==
            map row | row in t :: if row.0 in policies then Compliant else t[row]
    decreases |policies|
  {
    if policies != [] {
      var front := policies[..|policies| - 1];
      assert CompliantPolicies(policies)[..|policies| - 1] == CompliantPolicies(front);
      PoliciesUpdatedAll(t, front);
      assert policies == front + [policies[|policies| - 1]];
    }
  }

  lemma ImpliedIsApplied(log: Log, t: Table, target: Table, ids: set<string>, policies: seq<string>)
    requires Implies(log, t, target, ids, policies) && Covers(ids, target)
    ensures Apply(log, t) == Implied(t, target)
  {
    assert PoliciesDeleted(t, []) == t;
    PoliciesUpdatedAll(t, policies);
    var t1 := PoliciesUpdated(t, CompliantPolicies(policies));
    assert ClustersDeleted(t1, map[]) == t1;
    ClustersUpdatedWrites(t1, log.clusterUpdates);
    var result := Apply(log, t);
    assert result == Write(t1, ListedUpdates(t, target) + Reverted(t, target, ids));
    hide Apply, Implies, PoliciesUpdated, ClustersUpdated, Inserted, Lists, CompliantPolicies;
    ImpliedRows(t, t1, target, ids, policies);
  }

  lemma ImpliedRows(t: Table, t1: Table, target: Table, ids: set<string>, policies: seq<string>)
    requires t1 == map row | row in t :: if row.0 in policies then Compliant else t[row]
    requires Covers(ids, target) && Elements(policies) == Stale(t, ids)
    ensures Write(t1, ListedUpdates(t, target) + Reverted(t, target, ids)) == Implied(t, target)
  {
    forall row | row in t
      ensures row.0 in policies <==> row.0 in Stale(t, ids)
      ensures t[row] != Compliant && row.0 !in ids ==> row.0 in Stale(t, ids)
    {
      assert row.0 in policies <==> row.0 in Elements(policies);
    }
    hide Stale;
  }

  /** Whether the changes fit one statement of each kind. */
  predicate ImpliedFits(t: Table, target: Table, ids: set<string>) {
    && |ListedUpdates(t, target) + Reverted(t, target, ids)| <= CLUSTER_LIMIT
    && |Stale(t, ids)| <= POLICY_LIMIT
  }

  lemma ImpliedFitsIff(log: Log, t: Table, target: Table, ids: set<string>, policies: seq<string>)
    requires Implies(log, t, target, ids, policies)
    ensures WithinLimits(log) <==> ImpliedFits(t, target, ids)
    ensures log == NOTHING <==> ListedUpdates(t, target) + Reverted(t, target, ids) == map[] && Stale(t, ids) == {}
  {
    ListsCount(log.clusterUpdates, ListedUpdates(t, target) + Reverted(t, target, ids));
    DistinctCount(policies);
    hide Lists, Distinct;
  }

  /** Nothing needs to change exactly when all listed rows exist and the table is as implied. */
  lemma NothingImpliedIff(t: Table, target: Table, ids: set<string>)
    requires Covers(ids, target)
    ensures ListedUpdates(t, target) + Reverted(t, target, ids) == map[] && Stale(t, ids) == {} <==>
            t == Implied(t, target) && target.Keys <= t.Keys
  {
    var updates := ListedUpdates(t, target) + Reverted(t, target, ids);
    if t == Implied(t, target) && target.Keys <= t.Keys {
      forall row | row in t
        ensures row !in updates && (t[row] == Compliant || row.0 in ids)
      {
        assert t[row] == Implied(t, target)[row];
      }
      assert updates == map[];
      assert Stale(t, ids) == {};
    }
    if updates == map[] && Stale(t, ids) == {} {
      NothingToChange(t, target, ids);
    }
  }

  lemma NothingToChange(t: Table, target: Table, ids: set<string>)
    requires Covers(ids, target)
    requires ListedUpdates(t, target) + Reverted(t, target, ids) == map[] && Stale(t, ids) == {}
    ensures t == Implied(t, target) && target.Keys <= t.Keys
  {
    forall row
      ensures row !in ListedUpdates(t, target) && row !in Reverted(t, target, ids)
    {
      assert row !in ListedUpdates(t, target) + Reverted(t, target, ids);
    }
    forall row | row in t
      ensures t[row] == Implied(t, target)[row]
    {
      assert row !in ListedUpdates(t, target) && row !in Reverted(t, target, ids);
      assert t[row] != Compliant && row.0 !in ids ==> row.0 in Stale(t, ids);
    }
    forall row | row in target
      ensures row in t
    {
      assert row !in ListedUpdates(t, target);
    }
  }

  /** Handling a complete bundle again changes nothing; it sends nothing iff every listed row exists. */
  lemma HandlingCompleteAgain(t: Table, target: Table, ids: set<string>)
    requires Covers(ids, target)
    ensures var r := Implied(t, target);
            && Implied(r, target) == r
            && (ListedUpdates(r, target) + Reverted(r, target, ids) == map[] && Stale(r, ids) == {}
                <==> target.Keys <= t.Keys)
  {
    NothingImpliedIff(Implied(t, target), target, ids);
  }

  // ---------------------------------------------------------------- the complete-state handler

  lemma OneListedMore(t: Table, target: Table, row: Row, status: Status)
    requires row !in target
    ensures ListedUpdates(t, target[row := status]) ==
            if row in t && t[row] == status then ListedUpdates(t, target) else ListedUpdates(t, target)[row := status]
  {
  }

  /** Rows logged for the lists of a policy while earlier policies are settled in `base`. */
  predicate ListsListed(log: Log, base: Table, t: Table, target: Table) {
    Lists(log.clusterUpdates, base + ListedUpdates(t, target))
  }

  function WithListed(log: Log, t: Table, change: Change): Log {
    if change.Row() in t && t[change.Row()] == change.status then log
    else log.(clusterUpdates := log.clusterUpdates + [change])
  }

  lemma WithListedLists(log: Log, base: Table, t: Table, target: Table, change: Change)
    requires ListsListed(log, base, t, target) && change.Row() !in target && change.Row() !in base
    ensures ListsListed(WithListed(log, t, change), base, t, target[change.Row() := change.status])
  {
    var row := change.Row();
    OneListedMore(t, target, row, change.status);
    var listed := base + ListedUpdates(t, target);
    if !(row in t && t[row] == change.status) {
      assert row !in listed;
      assert listed[row := change.status] == base + ListedUpdates(t, target)[row := change.status];
      ListsSnoc(log.clusterUpdates, listed, change);
    }
  }

  predicate Unhandled(p: string, clusters: seq<string>, base: Table, target: Table) {
    forall c :: c in clusters ==> (p, c) !in target && (p, c) !in base
  }

  /** The set holds the policy's clusters of one status. */
  ghost predicate HaveStatus(clusters: set<string>, t: Table, p: string, status: Status) {
    forall c :: c in clusters <==> (p, c) in t && t[(p, c)] == status
  }

  lemma StaysUnhandled(p: string, clusters: seq<string>, base: Table, target: Table, done: seq<string>, status: Status)
    requires Unhandled(p, clusters, base, target) && Disjoint(done, clusters)
    ensures Unhandled(p, clusters, base, Labelled(target, p, done, status))
  {
    LabelledRows(target, p, done, status);
    hide Labelled;
  }

  /** Updates the clusters that the bundle lists under one status and the database does not. */
  method HandleListed(builder: PoliciesBatchBuilder, policyID: string, clusters: seq<string>, fromDB: set<string>,
                      typedFromDB: set<string>, status: Status, ghost base: Table, ghost t: Table, ghost target: Table)
    returns (rest: set<string>)
    requires builder.Valid() && ListsListed(builder.log, base, t, target) && Distinct(clusters)
    requires Unhandled(policyID, clusters, base, target) && HaveStatus(typedFromDB, t, policyID, status)
    modifies builder
    ensures builder.Valid() && rest == fromDB - Elements(clusters)
    ensures ListsListed(builder.log, base, t, Labelled(target, policyID, clusters, status))
    ensures builder.log == old(builder.log).(clusterUpdates := builder.log.clusterUpdates)
  {
    rest := fromDB;
    for k := 0 to |clusters|
      invariant builder.Valid() && rest == fromDB - Elements(clusters[..k])
      invariant ListsListed(builder.log, base, t, Labelled(target, policyID, clusters[..k], status))
      invariant builder.log == old(builder.log).(clusterUpdates := builder.log.clusterUpdates)
    {
      var clusterName := clusters[k];
      assert clusterName in clusters;
      ghost var log := builder.log;
      TakeOneMore(clusters, k);
      NotYetLabelled(target, policyID, clusters, k, status);
      WithListedLists(log, base, t, Labelled(target, policyID, clusters[..k], status),
                      Change(policyID, clusterName, status));
      hide Labelled, ListsListed, Distinct, Elements, PoliciesBatchBuilder.Valid;
      if clusterName !in typedFromDB {
        builder.UpdateClusterCompliance(policyID, clusterName, status);
      }
      rest := rest - {clusterName};
      assert builder.log == WithListed(log, t, Change(policyID, clusterName, status));
    }
    assert clusters[..|clusters|] == clusters;
  }

  lemma LabelledMore(m: Table, p: string, clusters: seq<string>, c: string, status: Status)
    ensures Labelled(m, p, clusters + [c], status) == Labelled(m, p, clusters, status)[(p, c) := status]
  {
    assert (clusters + [c])[..|clusters|] == clusters;
  }

  /** The clusters left in the database's sets become compliant, in no particular order. */
  method UpdateToCompliant(builder: PoliciesBatchBuilder, policyID: string, clusters: set<string>, ghost before: Table)
    returns (ghost taken: seq<string>)
    requires builder.Valid() && Lists(builder.log.clusterUpdates, before)
    requires forall c :: c in clusters ==> (policyID, c) !in before
    modifies builder
    ensures builder.Valid() && Distinct(taken) && Elements(taken) == clusters
    ensures Lists(builder.log.clusterUpdates, Labelled(before, policyID, taken, Compliant))
    ensures builder.log == old(builder.log).(clusterUpdates := builder.log.clusterUpdates)
  {
    taken := [];
    var left := clusters;
    while left != {}
      invariant builder.Valid() && Taken(clusters, left, taken)
      invariant Lists(builder.log.clusterUpdates, Labelled(before, policyID, taken, Compliant))
      invariant builder.log == old(builder.log).(clusterUpdates := builder.log.clusterUpdates)
      decreases left
    {
      var clusterName :| clusterName in left;
      assert clusterName in clusters && clusterName !in taken by {
        assert clusterName !in Elements(taken);
      }
      LabelledRows(before, policyID, taken, Compliant);
      hide Taken, Labelled, Lists, PoliciesBatchBuilder.Valid;
      TakeAnother(clusters, left, taken, clusterName);
      LabelledMore(before, policyID, taken, clusterName, Compliant);
      ListsSnoc(builder.log.clusterUpdates, Labelled(before, policyID, taken, Compliant),
                Change(policyID, clusterName, Compliant));
      builder.UpdateClusterCompliance(policyID, clusterName, Compliant);
      taken := taken + [clusterName];
      left := left - {clusterName};
    }
  }

  /** The log after some of the bundle's policies were handled. */
  ghost predicate HandledListed(log: Log, t: Table, target: Table, ids: set<string>) {
    && UpdatesOnly(log) && log.policyUpdates == []
    && Lists(log.clusterUpdates, ListedUpdates(t, target) + Reverted(t, target, ids))
    && Covers(ids, target)
  }

  lemma TwoLabels(o: CompleteStatus, target: Table)
    requires WellFormedPolicy(AsPolicy(o))
    ensures Labelled(Labelled(target, o.id, o.nonCompliant, NonCompliant), o.id, o.unknown, Unknown)
            == target + PolicyRows(o.id, StatusesOf(AsPolicy(o)))
  {
    AllThreeLabels(AsPolicy(o), target);
    assert Labelled(target, o.id, [], Compliant) == target;
    hide Labelled;
  }

  lemma PolicySettledAt(t: Table, target: Table, ids: set<string>, p: string, statuses: map<string, Status>,
                        taken: seq<string>, row: Row)
    requires Covers(ids, target) && p !in ids
    requires row.1 in taken <==> (p, row.1) in t && t[(p, row.1)] != Compliant && row.1 !in statuses
    ensures var after := target + PolicyRows(p, statuses);
            var left := Labelled(Reverted(t, target, ids) + ListedUpdates(t, after), p, taken, Compliant);
            var right := ListedUpdates(t, after) + Reverted(t, after, ids + {p});
            (row in left <==> row in right) && (row in left ==> left[row] == right[row])
  {
    var after := target + PolicyRows(p, statuses);
    LabelledRows(Reverted(t, target, ids) + ListedUpdates(t, after), p, taken, Compliant);
    assert row == (row.0, row.1);
    assert row in after <==> row in target || (row.0 == p && row.1 in statuses);
    hide Labelled, PolicyRows;
  }

  /** One policy settled: its listed rows, and its other rows that were not compliant. */
  lemma CoversOneMore(ids: set<string>, target: Table, p: string, statuses: map<string, Status>)
    requires Covers(ids, target)
    ensures Covers(ids + {p}, target + PolicyRows(p, statuses))
  {
  }

  lemma PolicySettled(t: Table, target: Table, ids: set<string>, p: string, statuses: map<string, Status>,
                      taken: seq<string>)
    requires Covers(ids, target) && p !in ids
    requires forall c :: c in taken <==> (p, c) in t && t[(p, c)] != Compliant && c !in statuses
    ensures var after := target + PolicyRows(p, statuses);
            && Labelled(Reverted(t, target, ids) + ListedUpdates(t, after), p, taken, Compliant)
               == ListedUpdates(t, after) + Reverted(t, after, ids + {p})
            && Covers(ids + {p}, after)
  {
    hide Labelled, Reverted, ListedUpdates, PolicyRows, Covers;
    var after := target + PolicyRows(p, statuses);
    CoversOneMore(ids, target, p, statuses);
    var left := Labelled(Reverted(t, target, ids) + ListedUpdates(t, after), p, taken, Compliant);
    var right := ListedUpdates(t, after) + Reverted(t, after, ids + {p});
    forall row
      ensures (row in left <==> row in right) && (row in left ==> left[row] == right[row])
    {
      PolicySettledAt(t, target, ids, p, statuses, taken, row);
    }
  }

  /** Nothing of the next policy is logged yet. */
  lemma NextPolicy(log: Log, t: Table, target: Table, ids: set<string>, p: string)
    requires HandledListed(log, t, target, ids) && p !in ids
    ensures forall c :: (p, c) !in target && (p, c) !in Reverted(t, target, ids)
    ensures ListsListed(log, Reverted(t, target, ids), t, target) && UpdatesOnly(log) && log.policyUpdates == []
    ensures Covers(ids, target)
  {
    hide Lists;
    assert Reverted(t, target, ids) + ListedUpdates(t, target) == ListedUpdates(t, target) + Reverted(t, target, ids);
  }

  lemma ListsListedMeans(log: Log, base: Table, t: Table, target: Table)
    requires ListsListed(log, base, t, target)
    ensures Lists(log.clusterUpdates, base + ListedUpdates(t, target))
  {
  }

  lemma ElementsAre(s: seq<string>)
    ensures forall c :: c in s <==> c in Elements(s)
  {
  }

  lemma HandledIs(log: Log, t: Table, target: Table, ids: set<string>)
    requires UpdatesOnly(log) && log.policyUpdates == [] && Covers(ids, target)
    requires Lists(log.clusterUpdates, ListedUpdates(t, target) + Reverted(t, target, ids))
    ensures HandledListed(log, t, target, ids)
  {
  }

  method HandlePolicyCompleteStatus(builder: PoliciesBatchBuilder, o: CompleteStatus, nonCompliantFromDB: set<string>,
                                    unknownFromDB: set<string>, ghost t: Table, ghost target: Table,
                                    ghost ids: set<string>)
    requires builder.Valid() && WellFormedPolicy(AsPolicy(o)) && o.id !in ids
    requires HaveStatus(nonCompliantFromDB, t, o.id, NonCompliant) && HaveStatus(unknownFromDB, t, o.id, Unknown)
    requires HandledListed(builder.log, t, target, ids)
    modifies builder
    ensures builder.Valid()
    ensures HandledListed(builder.log, t, target + PolicyRows(o.id, StatusesOf(AsPolicy(o))), ids + {o.id})
  {
    hide Lists, ListsListed, Distinct, PoliciesBatchBuilder.Valid, Reverted, ListedUpdates, PolicyRows, StatusesOf;
    hide WellFormedPolicy, HaveStatus, Covers, Elements, HandledListed;
    ghost var base, after := Reverted(t, target, ids), target + PolicyRows(o.id, StatusesOf(AsPolicy(o)));
    NextPolicy(builder.log, t, target, ids, o.id);
    var left := HandleBothLists(builder, o, nonCompliantFromDB, unknownFromDB, base, t, target);
    RestIsUnlisted(t, o, left, after, base, target);
    ListsListedMeans(builder.log, base, t, after);
    ghost var taken := UpdateToCompliant(builder, o.id, left, base + ListedUpdates(t, after));
    ElementsAre(taken);
    PolicySettled(t, target, ids, o.id, StatusesOf(AsPolicy(o)), taken);
    HandledIs(builder.log, t, after, ids + {o.id});
  }

  /** Both lists of a policy; returns its clusters in the database that are not compliant and not listed. */
  method HandleBothLists(builder: PoliciesBatchBuilder, o: CompleteStatus, nonCompliantFromDB: set<string>,
                         unknownFromDB: set<string>, ghost base: Table, ghost t: Table, ghost target: Table)
    returns (left: set<string>)
    requires builder.Valid() && WellFormedPolicy(AsPolicy(o))
    requires HaveStatus(nonCompliantFromDB, t, o.id, NonCompliant) && HaveStatus(unknownFromDB, t, o.id, Unknown)
    requires ListsListed(builder.log, base, t, target) && forall c :: (o.id, c) !in target && (o.id, c) !in base
    modifies builder
    ensures builder.Valid() && ListsListed(builder.log, base, t, target + PolicyRows(o.id, StatusesOf(AsPolicy(o))))
    ensures builder.log == old(builder.log).(clusterUpdates := builder.log.clusterUpdates)
    ensures forall c :: c in left <==> (o.id, c) in t && t[(o.id, c)] != Compliant && c !in StatusesOf(AsPolicy(o))
  {
    assert Unhandled(o.id, o.nonCompliant, base, target) && Unhandled(o.id, o.unknown, base, target);
    StaysUnhandled(o.id, o.unknown, base, target, o.nonCompliant, NonCompliant);
    TwoLabels(o, target);
    WhatIsLeft(o, nonCompliantFromDB, unknownFromDB, t);
    assert Distinct(o.nonCompliant) && Distinct(o.unknown);
    hide Labelled, ListsListed, Distinct, PoliciesBatchBuilder.Valid, StatusesOf, WellFormedPolicy, HaveStatus;
    hide Unhandled;
    left := nonCompliantFromDB + unknownFromDB;
    left := HandleListed(builder, o.id, o.nonCompliant, left, nonCompliantFromDB, NonCompliant, base, t, target);
    left := HandleListed(builder, o.id, o.unknown, left, unknownFromDB, Unknown, base, t,
                         Labelled(target, o.id, o.nonCompliant, NonCompliant));
  }

  lemma WhatIsLeft(o: CompleteStatus, nonCompliantFromDB: set<string>, unknownFromDB: set<string>, t: Table)
    requires HaveStatus(nonCompliantFromDB, t, o.id, NonCompliant) && HaveStatus(unknownFromDB, t, o.id, Unknown)
    ensures forall c :: c in nonCompliantFromDB + unknownFromDB - Elements(o.nonCompliant) - Elements(o.unknown) <==>
                        (o.id, c) in t && t[(o.id, c)] != Compliant && c !in StatusesOf(AsPolicy(o))
  {
    assert forall c :: c in StatusesOf(AsPolicy(o)) <==> c in o.nonCompliant || c in o.unknown;
    hide StatusesOf;
  }

  /** What is left has a row that is not compliant and is not listed, so it is not logged yet. */
  lemma RestIsUnlisted(t: Table, o: CompleteStatus, rest: set<string>, after: Table, base: Table, target: Table)
    requires after == target + PolicyRows(o.id, StatusesOf(AsPolicy(o)))
    requires forall c :: c in rest ==> c !in StatusesOf(AsPolicy(o))
    requires forall c :: (o.id, c) !in target && (o.id, c) !in base
    ensures forall c :: c in rest ==> (o.id, c) !in base + ListedUpdates(t, after)
  {
    forall c | c in rest
      ensures (o.id, c) !in after
    {
    }
  }

  /** The policies that are not in the bundle become compliant as a whole, in no particular order. */
  method UpdatePolicies(builder: PoliciesBatchBuilder, policies: set<string>) returns (ghost taken: seq<string>)
    requires builder.Valid() && builder.log.policyUpdates == []
    modifies builder
    ensures builder.Valid() && Distinct(taken) && Elements(taken) == policies
    ensures builder.log == old(builder.log).(policyUpdates := CompliantPolicies(taken))
  {
    taken := [];
    var left := policies;
    while left != {}
      invariant builder.Valid() && Taken(policies, left, taken)
      invariant builder.log == old(builder.log).(policyUpdates := CompliantPolicies(taken))
      decreases left
    {
      hide PoliciesBatchBuilder.Valid, Taken;
      var policyID :| policyID in left;
      TakeAnother(policies, left, taken, policyID);
      assert CompliantPolicies(taken + [policyID]) == CompliantPolicies(taken) + [PolicyChange(policyID, Compliant)];
      builder.UpdatePolicyCompliance(policyID, Compliant);
      taken := taken + [policyID];
      left := left - {policyID};
    }
  }

  lemma NonCompliantSets(sets: PolicyClusterSets, t: Table, p: string)
    requires Describes(sets, NonCompliantRows(t), p)
    ensures HaveStatus(sets.GetClusters(NonCompliant), t, p, NonCompliant)
    ensures HaveStatus(sets.GetClusters(Unknown), t, p, Unknown)
  {
    FromDB(sets, NonCompliantRows(t), p);
    hide Describes, PolicyClusterSets.GetClusters, PolicyClusterSets.GetAllClusters;
  }

  lemma StalePolicies(fromDB: map<string, PolicyClusterSets>, t: Table, ids: set<string>)
    requires DescribesAll(fromDB, NonCompliantRows(t))
    ensures fromDB.Keys - ids == Stale(t, ids)
  {
    VanishedPolicies(fromDB, NonCompliantRows(t), ids);
    hide DescribesAll;
  }

  method HandleCompleteObjects(builder: PoliciesBatchBuilder, objects: seq<CompleteStatus>,
                               fromDB: map<string, PolicyClusterSets>, ghost t: Table)
    returns (ghost policies: seq<string>)
    requires WellFormed(AsPolicies(objects)) && builder.Valid() && builder.log == NOTHING
    requires DescribesAll(fromDB, NonCompliantRows(t))
    modifies builder
    ensures builder.Valid()
    ensures Implies(builder.log, t, Rows(AsPolicies(objects)), ByPolicy(AsPolicies(objects)).Keys, policies)
    ensures Covers(ByPolicy(AsPolicies(objects)).Keys, Rows(AsPolicies(objects)))
  {
    hide HandledListed, Rows, PoliciesBatchBuilder.Valid, DescribesAll, ByPolicy, PolicyRows, StatusesOf, AsPolicy;
    ghost var listed := AsPolicies(objects);
    var left := fromDB.Keys;
    NothingListed(t);
    assert listed[..0] == [];
    for k := 0 to |objects|
      invariant builder.Valid() && HandledListed(builder.log, t, Rows(listed[..k]), ByPolicy(listed[..k]).Keys)
      invariant left == fromDB.Keys - ByPolicy(listed[..k]).Keys
    {
      OneObjectMore(listed, k);
      var o := objects[k];
      assert listed[k] == AsPolicy(o) && WellFormedPolicy(listed[k]) && listed[k].id == o.id by {
        SameId(o);
      }
      hide WellFormed, WellFormedPolicy;
      var sets := SetsOrNone(fromDB, o.id, NonCompliantRows(t));
      NonCompliantSets(sets, t, o.id);
      HandlePolicyCompleteStatus(builder, o, sets.GetClusters(NonCompliant), sets.GetClusters(Unknown),
                                 t, Rows(listed[..k]), ByPolicy(listed[..k]).Keys);
      left := left - {o.id};
    }
    assert listed[..|objects|] == listed;
    StalePolicies(fromDB, t, ByPolicy(listed).Keys);
    ghost var before := builder.log;
    HandledHasNoPolicy(before, t, Rows(listed), ByPolicy(listed).Keys);
    policies := UpdatePolicies(builder, left);
    HandledImplies(before, builder.log, t, Rows(listed), ByPolicy(listed).Keys, policies);
  }

  lemma SameId(o: CompleteStatus)
    ensures AsPolicy(o).id == o.id
  {
  }

  lemma NothingListed(t: Table)
    ensures HandledListed(NOTHING, t, Rows([]), ByPolicy([]).Keys) && ByPolicy([]) == map[]
  {
    NoObjects();
    hide Rows, ByPolicy;
    assert ListedUpdates(t, map[]) + Reverted(t, map[], {}) == map[];
    assert Lists([], map[]);
    hide ListedUpdates, Reverted, Lists;
  }

  lemma HandledHasNoPolicy(log: Log, t: Table, target: Table, ids: set<string>)
    requires HandledListed(log, t, target, ids)
    ensures log.policyUpdates == []
  {
  }

  lemma HandledImplies(before: Log, log: Log, t: Table, target: Table, ids: set<string>, policies: seq<string>)
    requires HandledListed(before, t, target, ids) && log == before.(policyUpdates := CompliantPolicies(policies))
    requires Distinct(policies) && Elements(policies) == Stale(t, ids)
    ensures Implies(log, t, target, ids, policies) && Covers(ids, target)
  {
    hide Lists, Distinct, Stale, ListedUpdates, Reverted;
  }

  /**
   Handles a complete-state bundle: the batch is accepted exactly when the changes fit one
   statement of each kind; then every row of the leaf hub is as listed, or compliant, and no other
   leaf hub's rows change. It is empty exactly when the rows already are as implied and every listed
   row exists.
   */
  method HandleCompleteComplianceBundle(db: ComplianceTable, leafHub: string, objects: seq<CompleteStatus>)
    returns (ok: bool)
    requires WellFormed(AsPolicies(objects))
    modifies db
    ensures var target, ids := Rows(AsPolicies(objects)), ByPolicy(AsPolicies(objects)).Keys;
            var t := RowsOf(old(db.rows), leafHub);
            && (ok <==> ImpliedFits(t, target, ids))
            && db.rows == (if ok then WithRows(old(db.rows), leafHub, Implied(t, target)) else old(db.rows))
            && |db.batches| == |old(db.batches)| + 1
            && (db.batches[|old(db.batches)|] == [] <==> t == Implied(t, target) && target.Keys <= t.Keys)
  {
    hide ImpliedFits, Rows, ByPolicy, WellFormed, Implied, AsPolicies, Send, RowsOf, WithRows;
    var queue := BuildCompleteBatch(db, leafHub, objects);
    ok := db.SendBatch(queue);
  }

  method BuildCompleteBatch(db: ComplianceTable, leafHub: string, objects: seq<CompleteStatus>)
    returns (queue: seq<Statement>)
    requires WellFormed(AsPolicies(objects))
    ensures var t, target, ids :=
              RowsOf(db.rows, leafHub), Rows(AsPolicies(objects)), ByPolicy(AsPolicies(objects)).Keys;
            && Send(queue, COMPLIANCE, db.rows) ==
               (if ImpliedFits(t, target, ids) then (true, WithRows(db.rows, leafHub, Implied(t, target)))
                else (false, db.rows))
            && (queue == [] <==> t == Implied(t, target) && target.Keys <= t.Keys)
  {
    hide Lists, DescribesAll, PoliciesBatchBuilder.Valid, Implies, Covers, ImpliedFits, Rows, ByPolicy, WellFormed;
    hide Implied, RowsOf, WithRows;
    hide NonCompliantRows, CompliantPolicies, Send, WithinLimits, AllAccepted, ExecuteAll, Apply, AsPolicies;
    ghost var t := RowsOf(db.rows, leafHub);
    var selected := db.Select(leafHub, true);
    var fromDB := db.BuildClusterSets(selected, NonCompliantRows(t));
    var builder := new PoliciesBatchBuilder("status", "compliance", leafHub);
    ComplianceName();
    ghost var policies := HandleCompleteObjects(builder, objects, fromDB, t);
    queue := builder.Build();
    ImpliedSent(queue, builder.log, db.rows, leafHub, Rows(AsPolicies(objects)), ByPolicy(AsPolicies(objects)).Keys,
                policies);
  }

  lemma ImpliedSent(queue: seq<Statement>, log: Log, d: Database, hub: string, target: Table, ids: set<string>,
                    policies: seq<string>)
    requires Implies(log, RowsOf(d, hub), target, ids, policies) && Covers(ids, target)
    requires AllAccepted(queue) <==> WithinLimits(log)
    requires WithinLimits(log) ==>
      forall r :: ExecuteAll(queue, COMPLIANCE, r) == WithRows(r, hub, Apply(log, RowsOf(r, hub)))
    requires queue == [] <==> log == NOTHING
    ensures var t := RowsOf(d, hub);
            && Send(queue, COMPLIANCE, d) ==
               (if ImpliedFits(t, target, ids) then (true, WithRows(d, hub, Implied(t, target))) else (false, d))
            && (queue == [] <==> t == Implied(t, target) && target.Keys <= t.Keys)
  {
    var t := RowsOf(d, hub);
    ImpliedIsApplied(log, t, target, ids, policies);
    ImpliedFitsIff(log, t, target, ids, policies);
    NothingImpliedIff(t, target, ids);
    hide Implies, WithinLimits, ImpliedFits, Apply, AllAccepted, ExecuteAll, Covers, Implied, RowsOf, WithRows;
  }

  // ---------------------------------------------------------------- deltas

  /** Updates as they come: rows that do not exist are not created. */
  method UpdateAll(builder: PoliciesBatchBuilder, policyID: string, clusters: seq<string>, status: Status,
                   ghost target: Table)
    requires builder.Valid() && Lists(builder.log.clusterUpdates, target) && Distinct(clusters)
    requires forall c :: c in clusters ==> (policyID, c) !in target
    modifies builder
    ensures builder.Valid() && Lists(builder.log.clusterUpdates, Labelled(target, policyID, clusters, status))
    ensures builder.log == old(builder.log).(clusterUpdates := builder.log.clusterUpdates)
  {
    for k := 0 to |clusters|
      invariant builder.Valid() && Lists(builder.log.clusterUpdates, Labelled(target, policyID, clusters[..k], status))
      invariant builder.log == old(builder.log).(clusterUpdates := builder.log.clusterUpdates)
    {
      assert clusters[k] in clusters;
      NotYetLabelled(target, policyID, clusters, k, status);
      ListsSnoc(builder.log.clusterUpdates, Labelled(target, policyID, clusters[..k], status),
                Change(policyID, clusters[k], status));
      hide Labelled, Lists, Distinct, PoliciesBatchBuilder.Valid;
      builder.UpdateClusterCompliance(policyID, clusters[k], status);
    }
    assert clusters[..|clusters|] == clusters;
  }

  lemma StaysUnlabelled(p: string, clusters: seq<string>, target: Table, done: seq<string>, status: Status)
    requires Disjoint(done, clusters) && forall c :: c in clusters ==> (p, c) !in target
    ensures forall c :: c in clusters ==> (p, c) !in Labelled(target, p, done, status)
  {
    LabelledRows(target, p, done, status);
    hide Labelled;
  }

  method HandleDeltaPolicy(builder: PoliciesBatchBuilder, o: PolicyStatus, ghost target: Table)
    requires builder.Valid() && WellFormedPolicy(o) && Lists(builder.log.clusterUpdates, target)
    requires forall c :: (o.id, c) !in target
    modifies builder
    ensures builder.Valid() && Lists(builder.log.clusterUpdates, target + PolicyRows(o.id, StatusesOf(o)))
    ensures builder.log == old(builder.log).(clusterUpdates := builder.log.clusterUpdates)
  {
    ghost var l1 := Labelled(target, o.id, o.compliant, Compliant);
    ghost var l2 := Labelled(l1, o.id, o.nonCompliant, NonCompliant);
    AllThreeLabels(o, target);
    StaysUnlabelled(o.id, o.nonCompliant, target, o.compliant, Compliant);
    StaysUnlabelled(o.id, o.unknown, target, o.compliant, Compliant);
    StaysUnlabelled(o.id, o.unknown, l1, o.nonCompliant, NonCompliant);
    hide Labelled, Lists, Distinct, PoliciesBatchBuilder.Valid, PolicyRows, StatusesOf, Disjoint;
    UpdateAll(builder, o.id, o.compliant, Compliant, target);
    UpdateAll(builder, o.id, o.nonCompliant, NonCompliant, l1);
    UpdateAll(builder, o.id, o.unknown, Unknown, l2);
  }

  lemma CoveredByPolicies(objects: seq<PolicyStatus>, p: string)
    requires p !in ByPolicy(objects)
    ensures forall c :: (p, c) !in Rows(objects)
  {
    forall c
      ensures (p, c) !in Rows(objects)
    {
      FlattenAt(ByPolicy(objects), (p, c));
    }
  }

  /** The log of a delta: its rows, each once, and nothing else. */
  predicate ListsDelta(log: Log, effect: Table) {
    Lists(log.clusterUpdates, effect) && UpdatesOnly(log) && log.policyUpdates == []
  }

  /**
   Handles a delta bundle: accepted exactly when its rows fit one statement; then the rows of the
   leaf hub that exist take its statuses, and no other leaf hub's do. The table is never read.
   */
  method HandleDeltaComplianceBundle(db: ComplianceTable, leafHub: string, objects: seq<PolicyStatus>)
    returns (ok: bool)
    requires WellFormed(objects)
    modifies db
    ensures ok <==> |Rows(objects)| <= CLUSTER_LIMIT
    ensures db.rows == if ok then WithRows(old(db.rows), leafHub, Write(RowsOf(old(db.rows), leafHub), Rows(objects)))
                       else old(db.rows)
  {
    hide RowsOf, WithRows, Write;
    hide Rows, WellFormed, PoliciesBatchBuilder.Valid, ListsDelta, Send, WithinLimits, AllAccepted, ExecuteAll, Apply;
    var builder := new PoliciesBatchBuilder("status", "compliance", leafHub);
    ComplianceName();
    HandleDeltaObjects(builder, objects);
    var queue := builder.Build();
    DeltaSent(queue, builder.log, db.rows, leafHub, Rows(objects));
    ok := db.SendBatch(queue);
  }

  lemma NoDelta()
    ensures Rows([]) == map[] && ListsDelta(NOTHING, Rows([]))
  {
  }

  lemma ObjectIsWellFormed(objects: seq<PolicyStatus>, k: nat)
    requires WellFormed(objects) && k < |objects|
    ensures WellFormedPolicy(objects[k]) && UniqueIds(objects)
  {
  }

  method HandleDeltaObjects(builder: PoliciesBatchBuilder, objects: seq<PolicyStatus>)
    requires WellFormed(objects) && builder.Valid() && builder.log == NOTHING
    modifies builder
    ensures builder.Valid() && ListsDelta(builder.log, Rows(objects))
  {
    hide WellFormed, WellFormedPolicy, Rows, ByPolicy, PolicyRows, StatusesOf, Lists;
    hide PoliciesBatchBuilder.Valid;
    NoDelta();
    assert objects[..0] == [];
    for k := 0 to |objects|
      invariant builder.Valid() && ListsDelta(builder.log, Rows(objects[..k]))
    {
      ObjectIsWellFormed(objects, k);
      OneObjectMore(objects, k);
      CoveredByPolicies(objects[..k], objects[k].id);
      HandleDeltaPolicy(builder, objects[k], Rows(objects[..k]));
    }
    assert objects[..|objects|] == objects;
  }

  lemma DeltaSent(queue: seq<Statement>, log: Log, d: Database, hub: string, effect: Table)
    requires ListsDelta(log, effect)
    requires AllAccepted(queue) <==> WithinLimits(log)
    requires WithinLimits(log) ==>
      forall r :: ExecuteAll(queue, COMPLIANCE, r) == WithRows(r, hub, Apply(log, RowsOf(r, hub)))
    ensures Send(queue, COMPLIANCE, d) ==
            if |effect| <= CLUSTER_LIMIT then (true, WithRows(d, hub, Write(RowsOf(d, hub), effect))) else (false, d)
  {
    hide RowsOf, WithRows;
    var t := RowsOf(d, hub);
    ListsCount(log.clusterUpdates, effect);
    ClustersUpdatedWrites(t, log.clusterUpdates);
    assert PoliciesDeleted(t, []) == t && ClustersDeleted(t, map[]) == t;
    hide AllAccepted, ExecuteAll, ClustersUpdated;
  }
}
