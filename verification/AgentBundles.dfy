/**
 The leaf hub's policy bundles as the agent keeps them: lists of objects updated in place.
 Every method is proved to perform the corresponding change of module AgentState.
 */
module AgentBundles {
  import opened AgentState
  import opened Compliance
  import opened Options

  /** A cluster's compliance as the policy reports it; any other state counts as unknown. */
  datatype ClusterStatus = ClusterStatus(cluster: string, state: Status)

  /** A policy with the identifier of its origin, if it carries one. */
  datatype Policy = Policy(originId: Option<string>, statuses: seq<ClusterStatus>) {
    /** A cluster is reported once. */
    predicate Valid() {
      forall i, j :: 0 <= i < j < |statuses| ==> statuses[i].cluster != statuses[j].cluster
    }

    function Statuses(): Statuses {
      StatusMap(statuses)
    }
  }

  function StatusMap(reported: seq<ClusterStatus>): Statuses
    decreases |reported|
  {
    if reported == [] then map[]
    else
      var last := reported[|reported| - 1];
      StatusMap(reported[..|reported| - 1])[last.cluster := last.state]
  }

  lemma {:induction false} StatusMapKeys(reported: seq<ClusterStatus>, c: string)
    ensures c in StatusMap(reported) <==> exists i :: 0 <= i < |reported| && reported[i].cluster == c
    decreases |reported|
  {
    if reported != [] {
      var front := reported[..|reported| - 1];
      StatusMapKeys(front, c);
      assert forall i :: 0 <= i < |front| ==> front[i] == reported[i];
    }
  }

  /** The next report is about a cluster not seen before. */
  lemma NextReport(policy: Policy, k: nat)
    requires policy.Valid() && k < |policy.statuses|
    ensures var report := policy.statuses[k];
            && report.cluster !in StatusMap(policy.statuses[..k])
            && StatusMap(policy.statuses[..k + 1]) == StatusMap(policy.statuses[..k])[report.cluster := report.state]
  {
    StatusMapKeys(policy.statuses[..k], policy.statuses[k].cluster);
    assert policy.statuses[..k + 1][..k] == policy.statuses[..k];
  }

  // ---------------------------------------------------------------- lists by status

  /** Three lists that say the same as a status map, each cluster once. */
  predicate ListsStatuses(compliant: seq<string>, nonCompliant: seq<string>, unknown: seq<string>, st: Statuses) {
    && WellFormedPolicy(PolicyStatus("", compliant, nonCompliant, unknown))
    && StatusesOf(PolicyStatus("", compliant, nonCompliant, unknown)) == st
  }

  function WithCluster(clusters: seq<string>, c: string, state: Status, status: Status): seq<string> {
    if state == status then clusters + [c] else clusters
  }

  lemma ListsOneMore(compliant: seq<string>, nonCompliant: seq<string>, unknown: seq<string>, st: Statuses,
                     c: string, state: Status)
    requires ListsStatuses(compliant, nonCompliant, unknown, st) && c !in st
    ensures ListsStatuses(WithCluster(compliant, c, state, Compliant),
                          WithCluster(nonCompliant, c, state, NonCompliant),
                          WithCluster(unknown, c, state, Unknown), st[c := state])
  {
    assert c !in compliant && c !in nonCompliant && c !in unknown by {
      assert forall x :: x in StatusesOf(PolicyStatus("", compliant, nonCompliant, unknown)) <==>
                         x in Elements(compliant) + Elements(nonCompliant) + Elements(unknown);
    }
    DistinctSnoc(if state == Compliant then compliant else if state == NonCompliant then nonCompliant else unknown, c);
    hide Distinct;
  }

  lemma SameObject(id: string, compliant: seq<string>, nonCompliant: seq<string>, unknown: seq<string>, st: Statuses)
    requires ListsStatuses(compliant, nonCompliant, unknown, st)
    ensures WellFormedPolicy(PolicyStatus(id, compliant, nonCompliant, unknown))
    ensures StatusesOf(PolicyStatus(id, compliant, nonCompliant, unknown)) == st
  {
  }

  /** Sorts the reported clusters by status; `all` keeps their order. */
  method GetClusterStatuses(policy: Policy)
    returns (compliant: seq<string>, nonCompliant: seq<string>, unknown: seq<string>, all: seq<string>)
    requires policy.Valid()
    ensures ListsStatuses(compliant, nonCompliant, unknown, policy.Statuses())
    ensures Distinct(all) && Elements(all) == policy.Statuses().Keys
  {
    compliant, nonCompliant, unknown, all := [], [], [], [];
    var reported := policy.statuses;
    for k := 0 to |reported|
      invariant ListsStatuses(compliant, nonCompliant, unknown, StatusMap(reported[..k]))
      invariant Distinct(all) && Elements(all) == StatusMap(reported[..k]).Keys
    {
      var c, state := reported[k].cluster, reported[k].state;
      NextReport(policy, k);
      ListsOneMore(compliant, nonCompliant, unknown, StatusMap(reported[..k]), c, state);
      assert c !in Elements(all);
      DistinctSnoc(all, c);
      hide ListsStatuses, StatusMap, Distinct, Elements;
      match state {
        case Compliant => compliant := compliant + [c];
        case NonCompliant => nonCompliant := nonCompliant + [c];
        case Unknown => unknown := unknown + [c];
      }
      all := all + [c];
    }
    assert reported[..|reported|] == reported;
  }

  // ---------------------------------------------------------------- lists of objects

  lemma ObjectReplaced(objects: seq<PolicyStatus>, i: nat, o: PolicyStatus)
    requires WellFormed(objects) && i < |objects| && o.id == objects[i].id && WellFormedPolicy(o)
    ensures WellFormed(objects[i := o])
    ensures ByPolicy(objects[i := o]) == ByPolicy(objects)[o.id := StatusesOf(o)]
  {
    hide ByPolicy, StatusesOf, WellFormedPolicy;
    ByPolicySplit(objects, i);
    ByPolicySplit(objects[i := o], i);
    assert objects[i := o][..i] == objects[..i] && objects[i := o][i + 1..] == objects[i + 1..];
  }

  lemma ObjectRemoved(objects: seq<PolicyStatus>, i: nat)
    requires WellFormed(objects) && i < |objects|
    ensures WellFormed(objects[..i] + objects[i + 1..])
    ensures ByPolicy(objects[..i] + objects[i + 1..]) == ByPolicy(objects) - {objects[i].id}
  {
    hide ByPolicy, StatusesOf, WellFormedPolicy;
    ByPolicySplit(objects, i);
    ByPolicyConcat(objects[..i], objects[i + 1..]);
  }

  lemma OtherIds(objects: seq<PolicyStatus>, i: nat)
    requires UniqueIds(objects) && i < |objects|
    ensures objects[i].id !in ByPolicy(objects[..i]) && objects[i].id !in ByPolicy(objects[i + 1..])
  {
    ByPolicyKeys(objects[..i], objects[i].id);
    ByPolicyKeys(objects[i + 1..], objects[i].id);
    hide ByPolicy;
  }

  lemma ByPolicySplit(objects: seq<PolicyStatus>, i: nat)
    requires UniqueIds(objects) && i < |objects|
    ensures ByPolicy(objects) ==
            ByPolicy(objects[..i]) + map[objects[i].id := StatusesOf(objects[i])] + ByPolicy(objects[i + 1..])
    ensures objects[i].id !in ByPolicy(objects[..i]) && objects[i].id !in ByPolicy(objects[i + 1..])
  {
    hide ByPolicy, StatusesOf, UniqueIds;
    OtherIds(objects, i);
    var a, o, b := objects[..i], objects[i], objects[i + 1..];
    assert objects == a + [o] + b;
    ByPolicyConcat(a + [o], b);
    ByPolicySnoc(a, o);
    assert ByPolicy(a)[o.id := StatusesOf(o)] == ByPolicy(a) + map[o.id := StatusesOf(o)];
  }

  lemma ObjectAppended(objects: seq<PolicyStatus>, o: PolicyStatus)
    requires WellFormed(objects) && o.id !in ByPolicy(objects) && WellFormedPolicy(o)
    ensures WellFormed(objects + [o])
    ensures ByPolicy(objects + [o]) == ByPolicy(objects)[o.id := StatusesOf(o)]
  {
    ByPolicySnoc(objects, o);
    ByPolicyKeys(objects, o.id);
    hide ByPolicy, StatusesOf, WellFormedPolicy;
  }

  /** The index of a policy's object, if it has one. */
  method GetObjectIndexByUID(objects: seq<PolicyStatus>, id: string) returns (index: Option<nat>)
    requires UniqueIds(objects)
    ensures index.Some? <==> id in ByPolicy(objects)
    ensures index.Some? ==> index.value < |objects| && objects[index.value].id == id
                            && ByPolicy(objects)[id] == StatusesOf(objects[index.value])
  {
    ByPolicyKeys(objects, id);
    for i := 0 to |objects|
      invariant forall j :: 0 <= j < i ==> objects[j].id != id
    {
      if objects[i].id == id {
        ByPolicyAt(objects, i);
        return Some(i);
      }
    }
    return None;
  }

  // ---------------------------------------------------------------- clusters per policy

  class ClustersPerPolicyBundle {
    var objects: seq<PolicyStatus>
    var generation: nat

    constructor ()
      ensures Valid() && Value() == Full(map[], 0)
    {
      objects, generation := [], 0;
    }

    ghost predicate Valid()
      reads this
    {
      WellFormed(objects)
    }

    ghost function Value(): Full
      reads this
    {
      Full(ByPolicy(objects), generation)
    }

    method UpdateObject(policy: Policy)
      requires Valid() && policy.Valid()
      modifies this
      ensures Valid()
      ensures Value() == if policy.originId.None? then old(Value())
                         else UpdateFull(old(Value()), policy.originId.value, policy.Statuses())
    {
      if policy.originId.None? {
        return;
      }
      hide ByPolicy, StatusesOf, WellFormedPolicy, ListsStatuses, Distinct, Elements;
      var id := policy.originId.value;
      var index := GetObjectIndexByUID(objects, id);
      var compliant, nonCompliant, unknown, all := GetClusterStatuses(policy);
      SameObject(id, compliant, nonCompliant, unknown, policy.Statuses());
      var o := PolicyStatus(id, compliant, nonCompliant, unknown);
      if index.None? {
        ObjectAppended(objects, o);
        objects := objects + [o];
        generation := generation + 1;
        return;
      }
      var changed := ClusterListChanged(objects[index.value], all);
      ObjectReplaced(objects, index.value, o);
      objects := objects[index.value := o];
      if changed {
        generation := generation + 1;
      }
    }

    method DeleteObject(policy: Policy)
      requires Valid()
      modifies this
      ensures Valid()
      ensures Value() == if policy.originId.None? then old(Value()) else DeleteFull(old(Value()), policy.originId.value)
    {
      if policy.originId.None? {
        return;
      }
      hide ByPolicy, StatusesOf, WellFormedPolicy;
      var index := GetObjectIndexByUID(objects, policy.originId.value);
      if index.None? {
        return;
      }
      ObjectRemoved(objects, index.value);
      objects := objects[..index.value] + objects[index.value + 1..];
      generation := generation + 1;
    }
  }

  /** Whether a cluster was added or removed: a difference in number, or an old one missing. */
  method ClusterListChanged(o: PolicyStatus, newClusters: seq<string>) returns (changed: bool)
    requires WellFormedPolicy(o) && Distinct(newClusters)
    ensures changed <==> StatusesOf(o).Keys != Elements(newClusters)
  {
    var c := ClusterListContains(o.compliant, newClusters);
    var n := ClusterListContains(o.nonCompliant, newClusters);
    var u := ClusterListContains(o.unknown, newClusters);
    changed := |o.compliant| + |o.nonCompliant| + |o.unknown| != |newClusters| || !c || !n || !u;
    CountsAndContents(o, newClusters);
  }

  method ClusterListContains(subset: seq<string>, all: seq<string>) returns (r: bool)
    ensures r <==> Elements(subset) <= Elements(all)
  {
    for i := 0 to |subset|
      invariant forall j :: 0 <= j < i ==> subset[j] in all
    {
      if subset[i] !in all {
        assert subset[i] in Elements(subset);
        return false;
      }
    }
    return true;
  }

  lemma SubsetOfSameSize<T>(a: set<T>, b: set<T>)
    requires a <= b && |a| == |b|
    ensures a == b
  {
    assert a + (b - a) == b;
    assert |b - a| == 0;
  }

  lemma CountsAndContents(o: PolicyStatus, newClusters: seq<string>)
    requires WellFormedPolicy(o) && Distinct(newClusters)
    ensures StatusesOf(o).Keys == Elements(newClusters) <==>
            && |o.compliant| + |o.nonCompliant| + |o.unknown| == |newClusters|
            && Elements(o.compliant) <= Elements(newClusters)
            && Elements(o.nonCompliant) <= Elements(newClusters) && Elements(o.unknown) <= Elements(newClusters)
  {
    var c, n, u, all := Elements(o.compliant), Elements(o.nonCompliant), Elements(o.unknown), Elements(newClusters);
    DistinctCount(o.compliant);
    DistinctCount(o.nonCompliant);
    DistinctCount(o.unknown);
    DistinctCount(newClusters);
    assert c !! n && c !! u && n !! u;
    assert |c + n + u| == |c| + |n| + |u|;
    assert StatusesOf(o).Keys == c + n + u;
    hide Elements, Distinct, StatusesOf;
    if c <= all && n <= all && u <= all && |c + n + u| == |all| {
      SubsetOfSameSize(c + n + u, all);
    }
  }

  // ---------------------------------------------------------------- complete compliance

  lemma ListedReport(policy: Policy, k: nat)
    requires policy.Valid() && k < |policy.statuses|
    ensures var report, before := policy.statuses[k], StatusMap(policy.statuses[..k]);
            && report.cluster !in NotCompliant(before)
            && NotCompliant(StatusMap(policy.statuses[..k + 1])) ==
               if report.state == Compliant then NotCompliant(before)
               else NotCompliant(before)[report.cluster := report.state]
  {
    NextReport(policy, k);
    hide StatusMap;
  }

  method GetNonCompliantAndUnknownClusters(policy: Policy) returns (nonCompliant: seq<string>, unknown: seq<string>)
    requires policy.Valid()
    ensures ListsStatuses([], nonCompliant, unknown, NotCompliant(policy.Statuses()))
  {
    nonCompliant, unknown := [], [];
    var reported := policy.statuses;
    assert NotCompliant(map[]) == map[];
    for k := 0 to |reported|
      invariant ListsStatuses([], nonCompliant, unknown, NotCompliant(StatusMap(reported[..k])))
    {
      var c, state := reported[k].cluster, reported[k].state;
      ListedReport(policy, k);
      hide ListsStatuses, StatusMap, NotCompliant;
      if state == Compliant {
        continue;
      }
      ListsOneMore([], nonCompliant, unknown, NotCompliant(StatusMap(reported[..k])), c, state);
      if state == NonCompliant {
        nonCompliant := nonCompliant + [c];
      } else {
        unknown := unknown + [c];
      }
    }
    assert reported[..|reported|] == reported;
  }

  method ClusterListsEqual(oldClusters: seq<string>, newClusters: seq<string>) returns (r: bool)
    requires Distinct(oldClusters) && Distinct(newClusters)
    ensures r <==> Elements(oldClusters) == Elements(newClusters)
  {
    DistinctCount(oldClusters);
    DistinctCount(newClusters);
    if |oldClusters| != |newClusters| {
      return false;
    }
    r := ClusterListContains(newClusters, oldClusters);
    if r {
      SubsetOfSameSize(Elements(newClusters), Elements(oldClusters));
    }
  }

  lemma SameListsIff(nonCompliant: seq<string>, unknown: seq<string>, st: Statuses,
                     newNonCompliant: seq<string>, newUnknown: seq<string>, newSt: Statuses)
    requires ListsStatuses([], nonCompliant, unknown, st) && ListsStatuses([], newNonCompliant, newUnknown, newSt)
    ensures st == newSt <==>
            Elements(nonCompliant) == Elements(newNonCompliant) && Elements(unknown) == Elements(newUnknown)
    ensures newSt == map[] <==> newNonCompliant == [] && newUnknown == []
  {
    StatusSets(nonCompliant, unknown, st);
    StatusSets(newNonCompliant, newUnknown, newSt);
    assert newNonCompliant != [] ==> newNonCompliant[0] in Elements(newNonCompliant);
    assert newUnknown != [] ==> newUnknown[0] in Elements(newUnknown);
    hide ListsStatuses;
    if Elements(nonCompliant) == Elements(newNonCompliant) && Elements(unknown) == Elements(newUnknown) {
      assert st == newSt;
    }
    if newNonCompliant == [] && newUnknown == [] {
      assert newSt == map[];
    }
  }

  lemma StatusSets(nonCompliant: seq<string>, unknown: seq<string>, st: Statuses)
    requires ListsStatuses([], nonCompliant, unknown, st)
    ensures forall c :: c in Elements(nonCompliant) <==> c in st && st[c] == NonCompliant
    ensures forall c :: c in Elements(unknown) <==> c in st && st[c] == Unknown
    ensures forall c :: c in st ==> st[c] != Compliant
  {
  }

  lemma AsPoliciesChange(objects: seq<CompleteStatus>, i: nat, o: CompleteStatus)
    ensures i < |objects| ==> AsPolicies(objects[i := o]) == AsPolicies(objects)[i := AsPolicy(o)]
    ensures i < |objects| ==>
            AsPolicies(objects[..i] + objects[i + 1..]) == AsPolicies(objects)[..i] + AsPolicies(objects)[i + 1..]
    ensures AsPolicies(objects + [o]) == AsPolicies(objects) + [AsPolicy(o)]
  {
  }

  class ComplianceStatusBundle {
    var objects: seq<CompleteStatus>
    var generation: nat

    constructor ()
      ensures Valid() && Value() == Complete(map[], 0)
    {
      objects, generation := [], 0;
    }

    ghost predicate Valid()
      reads this
    {
      WellFormed(AsPolicies(objects))
    }

    ghost function Value(): Complete
      reads this
    {
      Complete(ByPolicy(AsPolicies(objects)), generation)
    }

    method UpdateObject(policy: Policy)
      requires Valid() && policy.Valid()
      modifies this
      ensures Valid()
      ensures Value() == if policy.originId.None? then old(Value())
                         else UpdateComplete(old(Value()), policy.originId.value, policy.Statuses())
    {
      if policy.originId.None? {
        return;
      }
      hide ByPolicy, StatusesOf, WellFormedPolicy, ListsStatuses, Distinct, Elements, NotCompliant, AsPolicies;
      var id := policy.originId.value;
      var index := IndexByUID(objects, id);
      var nonCompliant, unknown := GetNonCompliantAndUnknownClusters(policy);
      ghost var listed := NotCompliant(policy.Statuses());
      SameObject(id, [], nonCompliant, unknown, listed);
      var o := CompleteStatus(id, nonCompliant, unknown);
      SameListsIff([], [], map[], nonCompliant, unknown, listed) by {
        NothingListed();
      }
      if index.None? {
        // a policy with compliant clusters only is not sent
        if |unknown| != 0 || |nonCompliant| != 0 {
          AsPoliciesChange(objects, 0, o);
          ObjectAppended(AsPolicies(objects), AsPolicy(o));
          objects := objects + [o];
          generation := generation + 1;
        }
        return;
      }
      var changed := ListsChanged(objects[index.value], nonCompliant, unknown, listed);
      if !changed {
        return;
      }
      AsPoliciesChange(objects, index.value, o);
      if |unknown| == 0 && |nonCompliant| == 0 {
        ObjectRemoved(AsPolicies(objects), index.value);
        assert AsPolicies(objects)[index.value].id == id;
        objects := objects[..index.value] + objects[index.value + 1..];
      } else {
        ObjectReplaced(AsPolicies(objects), index.value, AsPolicy(o));
        objects := objects[index.value := o];
      }
      generation := generation + 1;
    }

    /** No new generation when a policy goes away. */
    method DeleteObject(policy: Policy)
      requires Valid()
      modifies this
      ensures Valid()
      ensures Value() ==
              if policy.originId.None? then old(Value()) else DeleteComplete(old(Value()), policy.originId.value)
    {
      if policy.originId.None? {
        return;
      }
      hide ByPolicy, StatusesOf, WellFormedPolicy, AsPolicies;
      var index := IndexByUID(objects, policy.originId.value);
      if index.None? {
        assert ByPolicy(AsPolicies(objects)) - {policy.originId.value} == ByPolicy(AsPolicies(objects));
        return;
      }
      AsPoliciesChange(objects, index.value, objects[index.value]);
      ObjectRemoved(AsPolicies(objects), index.value);
      objects := objects[..index.value] + objects[index.value + 1..];
    }
  }

  lemma NothingListed()
    ensures ListsStatuses([], [], [], map[])
  {
  }

  method IndexByUID(objects: seq<CompleteStatus>, id: string) returns (index: Option<nat>)
    requires UniqueIds(AsPolicies(objects))
    ensures index.Some? <==> id in ByPolicy(AsPolicies(objects))
    ensures index.Some? ==> index.value < |objects| == |AsPolicies(objects)| && objects[index.value].id == id
                            && AsPolicies(objects)[index.value] == AsPolicy(objects[index.value])
                            && ByPolicy(AsPolicies(objects))[id] == StatusesOf(AsPolicy(objects[index.value]))
  {
    ByPolicyKeys(AsPolicies(objects), id);
    for i := 0 to |objects|
      invariant forall j :: 0 <= j < i ==> AsPolicies(objects)[j].id != id
    {
      if objects[i].id == id {
        ByPolicyAt(AsPolicies(objects), i);
        return Some(i);
      }
    }
    return None;
  }

  /** Whether the listed clusters differ; a compliant cluster coming or going is no change. */
  method ListsChanged(o: CompleteStatus, nonCompliant: seq<string>, unknown: seq<string>, ghost listed: Statuses)
    returns (changed: bool)
    requires WellFormedPolicy(AsPolicy(o)) && ListsStatuses([], nonCompliant, unknown, listed)
    ensures changed <==> StatusesOf(AsPolicy(o)) != listed
  {
    assert ListsStatuses([], o.nonCompliant, o.unknown, StatusesOf(AsPolicy(o)));
    SameListsIff(o.nonCompliant, o.unknown, StatusesOf(AsPolicy(o)), nonCompliant, unknown, listed);
    hide StatusesOf, Elements, Distinct;
    var sameNonCompliant := ClusterListsEqual(o.nonCompliant, nonCompliant);
    var sameUnknown := ClusterListsEqual(o.unknown, unknown);
    return !sameNonCompliant || !sameUnknown;
  }
}
