/**
 The delta compliance bundle as the agent keeps it: the changed clusters per policy, and a
 cache of every policy's recorded statuses. Every method is proved to perform the
 corresponding change of module AgentState.
 */
module AgentDeltaBundle {
  import opened AgentBundles
  import opened AgentState
  import opened Compliance
  import opened Maps
  import opened Options

  /** One policy's recorded clusters by status; a cluster is in one set at most. */
  class PolicyRecords {
    var compliant: set<string>
    var nonCompliant: set<string>
    var unknown: set<string>

    constructor (o: PolicyStatus)
      requires WellFormedPolicy(o)
      ensures Valid() && Value() == StatusesOf(o)
    {
      compliant, nonCompliant, unknown := Elements(o.compliant), Elements(o.nonCompliant), Elements(o.unknown);
    }

    ghost predicate Valid()
      reads this
    {
      compliant !! nonCompliant && compliant !! unknown && nonCompliant !! unknown
    }

    ghost function Value(): Statuses
      reads this
    {
      StatusesOfSets(compliant, nonCompliant, unknown)
    }

    /** Whether the cluster is recorded with this status. */
    function Has(c: string, status: Status): (r: bool)
      requires Valid()
      reads this
      ensures r <==> c in Value() && Value()[c] == status
    {
      match status
      case Compliant => c in compliant
      case NonCompliant => c in nonCompliant
      case Unknown => c in unknown
    }

    /** The cluster moves to the set of its status. */
    method Record(c: string, status: Status)
      requires Valid()
      modifies this
      ensures Valid() && Value() == old(Value())[c := status]
    {
      match status {
        case Compliant =>
          compliant, nonCompliant, unknown := compliant + {c}, nonCompliant - {c}, unknown - {c};
        case NonCompliant =>
          compliant, nonCompliant, unknown := compliant - {c}, nonCompliant + {c}, unknown - {c};
        case Unknown =>
          compliant, nonCompliant, unknown := compliant - {c}, nonCompliant - {c}, unknown + {c};
      }
    }
  }

  /** One more report: whether it differs is judged by the records as they were before the update. */
  lemma ChangedOneMore(recorded: Statuses, policy: Policy, k: nat)
    requires policy.Valid() && k < |policy.statuses|
    ensures var report, before := policy.statuses[k], Changed(recorded, StatusMap(policy.statuses[..k]));
            && report.cluster !in before
            && Changed(recorded, StatusMap(policy.statuses[..k + 1])) ==
               if report.cluster in recorded && recorded[report.cluster] == report.state then before
               else before[report.cluster := report.state]
  {
    NextReport(policy, k);
    hide StatusMap;
  }

  lemma PlusOne(recorded: Statuses, changed: Statuses, c: string, state: Status)
    ensures recorded + changed[c := state] == (recorded + changed)[c := state]
    ensures c !in changed ==> (c in recorded + changed <==> c in recorded)
    ensures c !in changed && c in recorded ==> (recorded + changed)[c] == recorded[c]
  {
  }

  /** Records every reported status and lists the clusters whose status differs from the records. */
  method GetChangedClusters(records: PolicyRecords, policy: Policy)
    returns (compliant: seq<string>, nonCompliant: seq<string>, unknown: seq<string>)
    requires records.Valid() && policy.Valid()
    modifies records
    ensures records.Valid()
    ensures records.Value() == old(records.Value()) + Changed(old(records.Value()), policy.Statuses())
    ensures ListsStatuses(compliant, nonCompliant, unknown, Changed(old(records.Value()), policy.Statuses()))
  {
    compliant, nonCompliant, unknown := [], [], [];
    ghost var before := records.Value();
    var reported := policy.statuses;
    NothingChangedYet(before);
    for k := 0 to |reported|
      invariant records.Valid()
      invariant records.Value() == before + Changed(before, StatusMap(reported[..k]))
      invariant ListsStatuses(compliant, nonCompliant, unknown, Changed(before, StatusMap(reported[..k])))
    {
      var c, state := reported[k].cluster, reported[k].state;
      ghost var changed := Changed(before, StatusMap(reported[..k]));
      ChangedOneMore(before, policy, k);
      PlusOne(before, changed, c, state);
      hide ListsStatuses, StatusMap, Changed, StatusesOfSets;
      if records.Has(c, state) {
        continue;
      }
      records.Record(c, state);
      ListsOneMore(compliant, nonCompliant, unknown, changed, c, state);
      match state {
        case Compliant => compliant := compliant + [c];
        case NonCompliant => nonCompliant := nonCompliant + [c];
        case Unknown => unknown := unknown + [c];
      }
    }
    assert reported[..|reported|] == reported;
  }

  lemma NothingChangedYet(before: Statuses)
    ensures Changed(before, StatusMap([])) == map[] && before + map[] == before
    ensures ListsStatuses([], [], [], map[])
  {
  }

  // ---------------------------------------------------------------- merging into a listed object

  /** The state with all of these clusters in one status. */
  function Put(state: Statuses, clusters: seq<string>, status: Status): Statuses
    decreases |clusters|
  {
    if clusters == [] then state
    else Put(state, clusters[..|clusters| - 1], status)[clusters[|clusters| - 1] := status]
  }

  lemma {:induction false} PutAt(state: Statuses, clusters: seq<string>, status: Status)
    ensures forall c :: c in Put(state, clusters, status) <==> c in state || c in clusters
    ensures forall c :: c in Put(state, clusters, status) ==>
      Put(state, clusters, status)[c] == if c in clusters then status else state[c]
    decreases |clusters|
  {
    if clusters != [] {
      PutAt(state, clusters[..|clusters| - 1], status);
    }
  }

  lemma PutAll(state: Statuses, o: PolicyStatus)
    requires WellFormedPolicy(o)
    ensures Put(Put(Put(state, o.compliant, Compliant), o.nonCompliant, NonCompliant), o.unknown, Unknown)
            == state + StatusesOf(o)
  {
    var s1 := Put(state, o.compliant, Compliant);
    var s2 := Put(s1, o.nonCompliant, NonCompliant);
    PutAt(state, o.compliant, Compliant);
    PutAt(s1, o.nonCompliant, NonCompliant);
    PutAt(s2, o.unknown, Unknown);
    hide Put, Distinct;
  }

  method PutClusters(state: Statuses, clusters: seq<string>, status: Status) returns (r: Statuses)
    ensures r == Put(state, clusters, status)
  {
    r := state;
    for k := 0 to |clusters|
      invariant r == Put(state, clusters[..k], status)
    {
      assert clusters[..k + 1][..k] == clusters[..k];
      r := r[clusters[k] := status];
    }
    assert clusters[..|clusters|] == clusters;
  }

  /** Cluster to status, as the object lists it. */
  method GetExistingPolicyState(o: PolicyStatus) returns (state: Statuses)
    requires WellFormedPolicy(o)
    ensures state == StatusesOf(o)
  {
    state := UpdateState(map[], o);
    assert map[] + StatusesOf(o) == StatusesOf(o);
  }

  method UpdateState(state: Statuses, o: PolicyStatus) returns (r: Statuses)
    requires WellFormedPolicy(o)
    ensures r == state + StatusesOf(o)
  {
    r := PutClusters(state, o.compliant, Compliant);
    r := PutClusters(r, o.nonCompliant, NonCompliant);
    r := PutClusters(r, o.unknown, Unknown);
    PutAll(state, o);
  }

  /** The state as lists, in no particular order. */
  method ListsOf(state: Statuses) returns (compliant: seq<string>, nonCompliant: seq<string>, unknown: seq<string>)
    ensures ListsStatuses(compliant, nonCompliant, unknown, state)
  {
    compliant, nonCompliant, unknown := [], [], [];
    var left := state.Keys;
    ghost var done: Statuses := map[];
    NothingChangedYet(map[]);
    while left != {}
      invariant left <= state.Keys && done.Keys == state.Keys - left
      invariant forall c :: c in done ==> done[c] == state[c]
      invariant ListsStatuses(compliant, nonCompliant, unknown, done)
      decreases left
    {
      hide ListsStatuses;
      var c :| c in left;
      ListsOneMore(compliant, nonCompliant, unknown, done, c, state[c]);
      match state[c] {
        case Compliant => compliant := compliant + [c];
        case NonCompliant => nonCompliant := nonCompliant + [c];
        case Unknown => unknown := unknown + [c];
      }
      done := done[c := state[c]];
      left := left - {c};
    }
    assert done == state;
  }

  /** An object's lists after the newer ones were put over them. */
  method UpdatePolicyComplianceStatus(o: PolicyStatus, newer: PolicyStatus) returns (r: PolicyStatus)
    requires WellFormedPolicy(o) && WellFormedPolicy(newer)
    ensures r.id == o.id && WellFormedPolicy(r) && StatusesOf(r) == StatusesOf(o) + StatusesOf(newer)
  {
    var state := GetExistingPolicyState(o);
    state := UpdateState(state, newer);
    var compliant, nonCompliant, unknown := ListsOf(state);
    SameObject(o.id, compliant, nonCompliant, unknown, state);
    r := PolicyStatus(o.id, compliant, nonCompliant, unknown);
  }

  // ---------------------------------------------------------------- the bundle

  class DeltaComplianceStatusBundle {
    const baseBundle: ComplianceStatusBundle
    const clustersPerPolicy: ClustersPerPolicyBundle
    var objects: seq<PolicyStatus>
    var base: nat
    var generation: nat
    var transportId: nat
    var records: map<string, PolicyRecords>
    ghost var since: PolicyMap

    constructor (baseBundle: ComplianceStatusBundle, clustersPerPolicy: ClustersPerPolicyBundle)
      ensures Valid() && Value() == Changes(map[], map[], map[], baseBundle.generation, 0, 0) && fresh(records.Values)
      ensures this.baseBundle == baseBundle && this.clustersPerPolicy == clustersPerPolicy
    {
      this.baseBundle, this.clustersPerPolicy := baseBundle, clustersPerPolicy;
      objects, base, generation, transportId := [], baseBundle.generation, 0, 0;
      records := map[];
      since := map[];
    }

    ghost predicate Valid()
      reads this, records.Values
    {
      WellFormed(objects) && ValidRecords()
    }

    ghost predicate ValidRecords()
      reads this`records, records.Values
    {
      (forall p :: p in records ==> records[p].Valid()) && Injective(records)
    }

    ghost function Records(): PolicyMap
      reads this`records, records.Values
    {
      map p | p in records :: records[p].Value()
    }

    ghost function Value(): Changes
      reads this, records.Values
    {
      Changes(ByPolicy(objects), Records(), since, base, generation, transportId)
    }

    method UpdateObject(policy: Policy)
      requires Valid() && policy.Valid() && clustersPerPolicy.Valid()
      modifies this, records.Values
      ensures Valid() && fresh(records.Values - old(records.Values))
      ensures Value() == if policy.originId.None? then old(Value())
                         else UpdateChanges(old(Value()), policy.originId.value, policy.Statuses(),
                                            ByPolicy(old(clustersPerPolicy.objects)))
    {
      if policy.originId.None? {
        return;
      }
      hide ByPolicy, StatusesOf, Changed, StatusMap, WellFormed, StatusesOfSets, Injective;
      var id := policy.originId.value;
      if id !in records {
        UpdateSpecificPolicyRecordsFromBase(id);
      } else {
        UpdateRecorded(id, policy);
      }
    }

    method UpdateRecorded(id: string, policy: Policy)
      requires Valid() && policy.Valid() && id in records
      modifies this`objects, this`generation, records.Values
      ensures Valid()
      ensures var changed, before := Changed(old(Records()[id]), policy.Statuses()), old(Value());
              Value() == if changed == map[] then before
                         else before.(pending := before.pending[id := Lookup(before.pending, id) + changed],
                                      records := before.records[id := before.records[id] + changed],
                                      generation := before.generation + 1)
    {
      hide ByPolicy, StatusesOf, ListsStatuses, Changed, StatusMap;
      hide WellFormed, StatusesOfSets, Injective, WellFormedPolicy, Lookup, ValidRecords;
      ghost var changed := Changed(records[id].Value(), policy.Statuses());
      var compliant, nonCompliant, unknown := GetAndRecordChanges(id, policy);
      NothingListedIff(compliant, nonCompliant, unknown, changed);
      if |compliant| + |nonCompliant| + |unknown| == 0 {
        return; // the records already had it
      }
      SameObject(id, compliant, nonCompliant, unknown, changed);
      ListChanges(PolicyStatus(id, compliant, nonCompliant, unknown));
    }

    method GetAndRecordChanges(id: string, policy: Policy)
      returns (compliant: seq<string>, nonCompliant: seq<string>, unknown: seq<string>)
      requires ValidRecords() && policy.Valid() && id in records
      modifies records.Values
      ensures ValidRecords()
      ensures var changed := Changed(old(records[id].Value()), policy.Statuses());
              && Records() ==
                   (if changed == map[] then old(Records()) else old(Records())[id := old(Records()[id]) + changed])
              && ListsStatuses(compliant, nonCompliant, unknown, changed)
    {
      hide ListsStatuses, Changed, StatusesOfSets, StatusMap, WellFormed;
      ghost var before := records[id].Value();
      compliant, nonCompliant, unknown := GetChangedClusters(records[id], policy);
      assert before + map[] == before;
      assert forall p :: p in records && p != id ==> records[p] != records[id];
    }

    /** The changes of one policy join what is listed. */
    method ListChanges(o: PolicyStatus)
      requires WellFormed(objects) && WellFormedPolicy(o)
      modifies this`objects, this`generation
      ensures WellFormed(objects)
      ensures ByPolicy(objects) == old(ByPolicy(objects))[o.id := Lookup(old(ByPolicy(objects)), o.id) + StatusesOf(o)]
      ensures generation == old(generation) + 1
    {
      hide ByPolicy, StatusesOf, WellFormedPolicy, WellFormed;
      assert UniqueIds(objects) by {
        WellFormedIds(objects);
      }
      var index := GetObjectIndexByUID(objects, o.id);
      if index.None? {
        ObjectAppended(objects, o);
        assert map[] + StatusesOf(o) == StatusesOf(o);
        objects := objects + [o];
        generation := generation + 1;
        return;
      }
      WellFormedAt(objects, index.value);
      var merged := UpdatePolicyComplianceStatus(objects[index.value], o);
      ObjectReplaced(objects, index.value, merged);
      objects := objects[index.value := merged];
      generation := generation + 1;
    }

    method DeleteObject(policy: Policy)
      requires Valid()
      modifies this
      ensures Valid() && records.Values <= old(records.Values)
      ensures Value() ==
              if policy.originId.None? then old(Value()) else DeleteChanges(old(Value()), policy.originId.value)
    {
      if policy.originId.None? {
        return;
      }
      hide ByPolicy, StatusesOf, WellFormedPolicy, WellFormed, StatusesOfSets, Injective, ValidRecords, Records;
      WellFormedIds(objects);
      var id := policy.originId.value;
      var index := GetObjectIndexByUID(objects, id);
      if index.None? {
        return;
      }
      ghost var before := Value();
      RemoveObject(index.value, id);
      RemoveRecords(id);
      assert Value() ==
             before.(pending := before.pending - {id}, records := before.records - {id}, since := before.since - {id});
    }

    method RemoveObject(index: nat, id: string)
      requires WellFormed(objects) && index < |objects| && objects[index].id == id
      modifies this`objects
      ensures WellFormed(objects) && ByPolicy(objects) == old(ByPolicy(objects)) - {id}
    {
      ObjectRemoved(objects, index);
      objects := objects[..index] + objects[index + 1..];
    }

    method RemoveRecords(id: string)
      requires ValidRecords()
      modifies this`records, this`since
      ensures ValidRecords() && records.Values <= old(records.Values)
      ensures Records() == old(Records()) - {id} && since == old(since) - {id}
    {
      hide WellFormed, StatusesOfSets, Injective;
      EntryRemoved(records, id);
      records := records - {id};
      since := since - {id};
    }

    /** Copies one policy's statuses from the full bundle, if it is there. */
    method UpdateSpecificPolicyRecordsFromBase(id: string)
      requires Valid() && clustersPerPolicy.Valid() && id !in records
      modifies this
      ensures Valid() && fresh(records.Values - old(records.Values))
      ensures var full := ByPolicy(old(clustersPerPolicy.objects));
              Value() == if id !in full then old(Value())
                         else old(Value()).(records := old(Records())[id := full[id]],
                                            since := old(since)[id := full[id]])
    {
      hide ByPolicy, WellFormed, StatusesOf, WellFormedPolicy, StatusesOfSets;
      var full := clustersPerPolicy.objects;
      WellFormedIds(full);
      var index := GetObjectIndexByUID(full, id);
      if index.Some? {
        WellFormedAt(full, index.value);
        SyncGenericStatus(full[index.value]);
      }
    }

    method SyncGenericStatus(o: PolicyStatus)
      requires ValidRecords() && WellFormedPolicy(o)
      modifies this`records, this`since
      ensures ValidRecords() && fresh(records.Values - old(records.Values))
      ensures Records() == old(Records())[o.id := StatusesOf(o)] && since == old(since)[o.id := StatusesOf(o)]
    {
      hide WellFormed, StatusesOf, WellFormedPolicy, StatusesOfSets, PolicyRecords.Valid;
      var created := new PolicyRecords(o);
      records := records[o.id := created];
      since := since[o.id := StatusesOf(o)];
    }

    /** Forgets all records and takes over the full bundle; the base is the complete bundle as it is now. */
    method SyncState()
      requires Valid() && clustersPerPolicy.Valid()
      modifies this
      ensures Valid() && fresh(records.Values)
      ensures Value() ==
              AgentState.SyncState(old(Value()), ByPolicy(old(clustersPerPolicy.objects)), old(baseBundle.generation))
    {
      hide ByPolicy, Rows, WellFormed, StatusesOf, WellFormedPolicy, StatusesOfSets;
      base := baseBundle.generation;
      records := map[];
      since := map[];
      var full := clustersPerPolicy.objects;
      NoObjects();
      for k := 0 to |full|
        invariant Valid() && fresh(records.Values)
        invariant Records() == ByPolicy(full[..k]) == since
        invariant objects == old(objects) && base == old(baseBundle.generation) && generation == old(generation)
      {
        WellFormedAt(full, k);
        assert full[..k + 1] == full[..k] + [full[k]];
        ByPolicySnoc(full[..k], full[k]);
        SyncGenericStatus(full[k]);
      }
      assert full[..|full|] == full;
      transportId := 0;
    }

    /** Flushes the listed changes after they were sent. */
    method Reset()
      requires Valid()
      modifies this
      ensures Valid() && records == old(records)
      ensures Value() == AgentState.Reset(old(Value()))
    {
      objects := [];
      transportId := transportId + 1;
      since := Records();
    }
  }

  lemma WellFormedIds(objects: seq<PolicyStatus>)
    requires WellFormed(objects)
    ensures UniqueIds(objects)
  {
  }

  lemma WellFormedAt(objects: seq<PolicyStatus>, i: nat)
    requires WellFormed(objects) && i < |objects|
    ensures WellFormedPolicy(objects[i])
  {
  }

  lemma NothingListedIff(compliant: seq<string>, nonCompliant: seq<string>, unknown: seq<string>, st: Statuses)
    requires ListsStatuses(compliant, nonCompliant, unknown, st)
    ensures st == map[] <==> |compliant| + |nonCompliant| + |unknown| == 0
  {
    var all := Elements(compliant) + Elements(nonCompliant) + Elements(unknown);
    assert st.Keys == all;
    assert compliant != [] ==> compliant[0] in all;
    assert nonCompliant != [] ==> nonCompliant[0] in all;
    assert unknown != [] ==> unknown[0] in all;
  }
}
