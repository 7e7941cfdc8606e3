/**
 Merging of delta bundles on the global hub.

 A delta lists the clusters whose status changed since a complete bundle (its base).
 Deltas that wait for the database are merged into one, the newer being the source of
 truth. The end of this file shows that merging never changes what is written.
 */
module DeltaMerge {
  import opened Compliance
  import opened Options
  import opened Versions

  /** The cluster sets of one policy while two deltas are being merged. */
  datatype PolicySets = PolicySets(compliant: set<string>, nonCompliant: set<string>, unknown: set<string>) {

    predicate Contains(cluster: string) {
      cluster in unknown || cluster in nonCompliant || cluster in compliant
    }

    predicate Disjointed() {
      compliant !! nonCompliant && compliant !! unknown && nonCompliant !! unknown
    }

    function Statuses(): map<string, Status> {
      StatusesOfSets(compliant, nonCompliant, unknown)
    }
  }

  function NewPolicySets(p: PolicyStatus): (s: PolicySets)
    ensures s.Statuses() == StatusesOf(p)
    ensures WellFormedPolicy(p) ==> s.Disjointed()
  {
    PolicySets(Elements(p.compliant), Elements(p.nonCompliant), Elements(p.unknown))
  }

  /** Adds the clusters of an older delta's policy that are not mapped yet. */
  method AppendNewClusters(sets: PolicySets, older: PolicyStatus) returns (r: PolicySets)
    requires sets.Disjointed() && WellFormedPolicy(older)
    ensures r.Disjointed()
    ensures r.Statuses() == StatusesOf(older) + sets.Statuses()
  {
    var compliant, nonCompliant, unknown := sets.compliant, sets.nonCompliant, sets.unknown;
    for i := 0 to |older.compliant|
      invariant compliant == sets.compliant + set c | c in older.compliant[..i] && !sets.Contains(c)
    {
      if !PolicySets(compliant, nonCompliant, unknown).Contains(older.compliant[i]) {
        compliant := compliant + {older.compliant[i]};
      }
    }
    for i := 0 to |older.nonCompliant|
      invariant nonCompliant == sets.nonCompliant + set c | c in older.nonCompliant[..i] && !sets.Contains(c)
      invariant forall c :: c in compliant <==> c in sets.compliant || (c in older.compliant && !sets.Contains(c))
    {
      if !PolicySets(compliant, nonCompliant, unknown).Contains(older.nonCompliant[i]) {
        nonCompliant := nonCompliant + {older.nonCompliant[i]};
      }
    }
    for i := 0 to |older.unknown|
      invariant unknown == sets.unknown + set c | c in older.unknown[..i] && !sets.Contains(c)
      invariant forall c :: c in compliant <==> c in sets.compliant || (c in older.compliant && !sets.Contains(c))
      invariant forall c :: c in nonCompliant <==>
                c in sets.nonCompliant || (c in older.nonCompliant && !sets.Contains(c))
    {
      if !PolicySets(compliant, nonCompliant, unknown).Contains(older.unknown[i]) {
        unknown := unknown + {older.unknown[i]};
      }
    }
    r := PolicySets(compliant, nonCompliant, unknown);
    assert older.compliant[..|older.compliant|] == older.compliant;
    assert older.nonCompliant[..|older.nonCompliant|] == older.nonCompliant;
    assert older.unknown[..|older.unknown|] == older.unknown;
  }

  /** A set's elements in some order, each once. */
  method SliceFromSet(s: set<string>) returns (r: seq<string>)
    ensures Distinct(r) && Elements(r) == s
  {
    r := [];
    var rest := s;
    while rest != {}
      invariant Distinct(r) && Elements(r) + rest == s && Elements(r) !! rest
    {
      var x :| x in rest;
      rest := rest - {x};
      r := r + [x];
    }
  }

  /** Lists for merged sets, in some order. */
  method PolicyStatusFromSets(id: string, sets: PolicySets) returns (r: PolicyStatus)
    requires sets.Disjointed()
    ensures r.id == id && WellFormedPolicy(r) && StatusesOf(r) == sets.Statuses()
  {
    var compliant := SliceFromSet(sets.compliant);
    var nonCompliant := SliceFromSet(sets.nonCompliant);
    var unknown := SliceFromSet(sets.unknown);
    r := PolicyStatus(id, compliant, nonCompliant, unknown);
    assert forall x :: x in compliant <==> x in Elements(compliant);
    assert forall x :: x in nonCompliant <==> x in Elements(nonCompliant);
    assert forall x :: x in unknown <==> x in Elements(unknown);
  }

  class DeltaComplianceStatusBundle {
    var objects: seq<PolicyStatus>
    const baseVersion: Version
    const version: Version

    constructor (objects: seq<PolicyStatus>, baseVersion: Version, version: Version)
      ensures this.objects == objects && this.baseVersion == baseVersion && this.version == version
    {
      this.objects := objects;
      this.baseVersion := baseVersion;
      this.version := version;
    }

    /** What this bundle amounts to. */
    ghost function Value(): Delta
      reads this
    {
      Delta(version, baseVersion, Rows(objects))
    }

    /** Updates this bundle with the content of an older one; this bundle is the source of truth. */
    method InheritEvents(older: DeltaComplianceStatusBundle?)
      requires WellFormed(objects)
      requires older != null ==> WellFormed(older.objects)
      modifies this
      ensures WellFormed(objects)
      ensures Value() == Inherit(old(Value()), if older == null then None else Some(old(older.Value())))
    {
      if older == null {
        return;
      }
      if older.baseVersion != baseVersion {
        return; // older content is covered by a complete-state baseline
      }
      InheritObjects(older.objects);
      FlattenOverlay(old(ByPolicy(older.objects)), old(ByPolicy(objects)));
    }

    method InheritObjects(oldObjects: seq<PolicyStatus>)
      requires WellFormed(objects) && WellFormed(oldObjects)
      modifies this
      ensures WellFormed(objects)
      ensures ByPolicy(objects) == Overlay(ByPolicy(oldObjects), old(ByPolicy(objects)))
    {
      ghost var mine := objects;
      var policies := NewPoliciesMap(objects);
      var surviving;
      policies, surviving := InheritInto(policies, oldObjects, mine);
      // turn the merged sets back into lists
      for i := 0 to |objects|
        invariant |objects| == |mine|
        invariant forall j :: 0 <= j < |mine| ==> objects[j].id == mine[j].id && WellFormedPolicy(objects[j])
        invariant forall j :: 0 <= j < i ==> Updated(ByPolicy(oldObjects), mine[j], objects[j])
      {
        assert MergedInto(policies, ByPolicy(oldObjects), mine[i]);
        var p := PolicyStatusFromSets(objects[i].id, policies[objects[i].id]);
        objects := objects[i := p];
      }
      SurvivorsThenUpdated(oldObjects, mine, surviving, objects);
      objects := surviving + objects;
    }
  }

  method NewPoliciesMap(objects: seq<PolicyStatus>) returns (policies: map<string, PolicySets>)
    requires WellFormed(objects)
    ensures policies.Keys == Ids(objects)
    ensures forall q :: q in objects ==> MergedInto(policies, map[], q)
  {
    hide StatusesOfSets;
    policies := map[];
    for i := 0 to |objects|
      invariant policies.Keys == Ids(objects[..i])
      invariant forall j :: 0 <= j < i ==> MergedInto(policies, map[], objects[j])
    {
      policies := policies[objects[i].id := NewPolicySets(objects[i])];
      assert objects[..i + 1] == objects[..i] + [objects[i]];
      assert MergedInto(policies, map[], objects[i]);
    }
    assert objects[..|objects|] == objects;
  }

  /** Older policies that are mapped give their missing clusters, the others survive whole. */
  method InheritInto(mapped: map<string, PolicySets>, oldObjects: seq<PolicyStatus>, ghost mine: seq<PolicyStatus>)
    returns (policies: map<string, PolicySets>, surviving: seq<PolicyStatus>)
    requires WellFormed(oldObjects) && UniqueIds(mine) && mapped.Keys == Ids(mine)
    requires forall q :: q in mine ==> MergedInto(mapped, map[], q)
    ensures forall q :: q in mine ==> MergedInto(policies, ByPolicy(oldObjects), q)
    ensures WellFormed(surviving) && ByPolicy(surviving) == ByPolicy(oldObjects) - Ids(mine)
  {
    policies, surviving := mapped, [];
    for k := 0 to |oldObjects|
      invariant Inheriting(policies, surviving, ByPolicy(oldObjects[..k]), mine)
    {
      hide Inheriting, WellFormed, StatusesOf;
      var p := oldObjects[k];
      NotListedBefore(oldObjects, k);
      assert oldObjects[..k + 1] == oldObjects[..k] + [p];
      ByPolicySnoc(oldObjects[..k], p);
      if p.id !in policies {
        PolicySurvives(policies, surviving, ByPolicy(oldObjects[..k]), mine, p);
        surviving := surviving + [p];
      } else {
        MappedIsDisjointed(policies, surviving, ByPolicy(oldObjects[..k]), mine, p.id);
        var merged := AppendNewClusters(policies[p.id], p);
        PolicyMerges(policies, surviving, ByPolicy(oldObjects[..k]), mine, p, merged);
        policies := policies[p.id := merged];
      }
    }
    assert oldObjects[..|oldObjects|] == oldObjects;
  }

  /** `older` has been inherited into the mapped policies `mine` and the surviving ones. */
  ghost predicate Inheriting(policies: map<string, PolicySets>, surviving: seq<PolicyStatus>,
                             older: PolicyMap, mine: seq<PolicyStatus>)
  {
    && policies.Keys == Ids(mine)
    && (forall q :: q in mine ==> MergedInto(policies, older, q))
    && WellFormed(surviving) && ByPolicy(surviving) == older - Ids(mine)
  }

  lemma MappedIsDisjointed(policies: map<string, PolicySets>, surviving: seq<PolicyStatus>,
                           older: PolicyMap, mine: seq<PolicyStatus>, id: string)
    requires Inheriting(policies, surviving, older, mine) && id in policies
    ensures policies[id].Disjointed()
  {
    var q :| q in mine && q.id == id;
    assert MergedInto(policies, older, q);
  }

  lemma PolicySurvives(policies: map<string, PolicySets>, surviving: seq<PolicyStatus>,
                       older: PolicyMap, mine: seq<PolicyStatus>, p: PolicyStatus)
    requires Inheriting(policies, surviving, older, mine)
    requires p.id !in policies && p.id !in older && WellFormedPolicy(p)
    ensures Inheriting(policies, surviving + [p], older[p.id := StatusesOf(p)], mine)
  {
    hide StatusesOf;
    SurviveOne(surviving, p);
    forall q | q in mine
      ensures MergedInto(policies, older[p.id := StatusesOf(p)], q)
    {
      assert MergedInto(policies, older, q);
      assert q.id in policies;
    }
  }

  lemma PolicyMergesAt(policies: map<string, PolicySets>, older: PolicyMap, p: PolicyStatus, merged: PolicySets,
                       q: PolicyStatus)
    requires MergedInto(policies, older, q) && p.id in policies && p.id !in older && merged.Disjointed()
    requires merged.Statuses() == StatusesOf(p) + policies[p.id].Statuses()
    ensures MergedInto(policies[p.id := merged], older[p.id := StatusesOf(p)], q)
  {
    hide StatusesOf, PolicySets.Statuses, PolicySets.Disjointed;
    assert StatusesOf(p) + (map[] + StatusesOf(q)) == StatusesOf(p) + StatusesOf(q);
  }

  lemma OthersSurvive(older: PolicyMap, id: string, statuses: map<string, Status>, mine: seq<PolicyStatus>,
                      ids: set<string>)
    requires ids == Ids(mine) && id in ids
    ensures older[id := statuses] - Ids(mine) == older - Ids(mine)
  {
  }

  lemma PolicyMerges(policies: map<string, PolicySets>, surviving: seq<PolicyStatus>,
                     older: PolicyMap, mine: seq<PolicyStatus>, p: PolicyStatus, merged: PolicySets)
    requires Inheriting(policies, surviving, older, mine)
    requires p.id in policies && p.id !in older && merged.Disjointed()
    requires merged.Statuses() == StatusesOf(p) + policies[p.id].Statuses()
    ensures Inheriting(policies[p.id := merged], surviving, older[p.id := StatusesOf(p)], mine)
  {
    hide StatusesOf, PolicySets.Statuses, WellFormed, ByPolicy, Ids, MergedInto;
    forall q | q in mine
      ensures MergedInto(policies[p.id := merged], older[p.id := StatusesOf(p)], q)
    {
      PolicyMergesAt(policies, older, p, merged, q);
    }
    OthersSurvive(older, p.id, StatusesOf(p), mine, policies.Keys);
  }

  function Ids(objects: seq<PolicyStatus>): set<string> {
    set p | p in objects :: p.id
  }

  lemma SurviveOne(surviving: seq<PolicyStatus>, p: PolicyStatus)
    requires WellFormed(surviving) && WellFormedPolicy(p) && p.id !in ByPolicy(surviving)
    ensures WellFormed(surviving + [p])
    ensures ByPolicy(surviving + [p]) == ByPolicy(surviving)[p.id := StatusesOf(p)]
  {
    ByPolicySnoc(surviving, p);
    ByPolicyKeys(surviving, p.id);
  }

  ghost predicate Updated(older: PolicyMap, p: PolicyStatus, q: PolicyStatus) {
    q.id == p.id && StatusesOf(q) == Lookup(older, p.id) + StatusesOf(p)
  }

  /** The sets kept for policy `p` hold its own clusters and the older ones it does not list. */
  ghost predicate MergedInto(policies: map<string, PolicySets>, older: PolicyMap, p: PolicyStatus) {
    && p.id in policies
    && policies[p.id].Disjointed()
    && policies[p.id].Statuses() == Lookup(older, p.id) + StatusesOf(p)
  }

  lemma NotListedBefore(objects: seq<PolicyStatus>, k: nat)
    requires WellFormed(objects) && k < |objects|
    ensures WellFormedPolicy(objects[k])
    ensures objects[k].id !in ByPolicy(objects[..k])
  {
    ByPolicyKeys(objects[..k], objects[k].id);
  }

  lemma SurvivorsAreOthers(oldObjects: seq<PolicyStatus>, mine: seq<PolicyStatus>,
                           surviving: seq<PolicyStatus>, updated: seq<PolicyStatus>)
    requires WellFormed(mine) && WellFormed(surviving) && |updated| == |mine|
    requires ByPolicy(surviving) == ByPolicy(oldObjects) - Ids(mine)
    requires forall j :: 0 <= j < |mine| ==> updated[j].id == mine[j].id && WellFormedPolicy(updated[j])
    ensures forall i, j :: 0 <= i < |surviving| && 0 <= j < |updated| ==> surviving[i].id != updated[j].id
    ensures WellFormed(updated) && WellFormed(surviving + updated)
  {
    hide ByPolicy, WellFormedPolicy;
    forall i, j | 0 <= i < |surviving| && 0 <= j < |updated|
      ensures surviving[i].id != updated[j].id
    {
      ByPolicyAt(surviving, i);
      assert mine[j] in mine;
    }
  }

  lemma SurvivorsThenUpdated(oldObjects: seq<PolicyStatus>, mine: seq<PolicyStatus>,
                             surviving: seq<PolicyStatus>, updated: seq<PolicyStatus>)
    requires WellFormed(mine) && WellFormed(surviving)
    requires ByPolicy(surviving) == ByPolicy(oldObjects) - Ids(mine)
    requires |updated| == |mine|
    requires forall j :: 0 <= j < |mine| ==> updated[j].id == mine[j].id && WellFormedPolicy(updated[j])
    requires forall j :: 0 <= j < |mine| ==> Updated(ByPolicy(oldObjects), mine[j], updated[j])
    ensures WellFormed(surviving + updated)
    ensures ByPolicy(surviving + updated) == Overlay(ByPolicy(oldObjects), ByPolicy(mine))
  {
    hide ByPolicy, Overlay, OverMine, Updated, WellFormedPolicy;
    SurvivorsAreOthers(oldObjects, mine, surviving, updated);
    ByPolicyConcat(surviving, updated);
    UpdatedObjects(ByPolicy(oldObjects), mine, updated);
    IdsAreKeys(mine);
    OverlaySplit(ByPolicy(oldObjects), ByPolicy(mine));
  }

  lemma IdsAreKeys(objects: seq<PolicyStatus>)
    ensures ByPolicy(objects).Keys == Ids(objects)
  {
    forall id
      ensures id in ByPolicy(objects) <==> id in Ids(objects)
    {
      ByPolicyKeys(objects, id);
    }
  }

  function OverMine(older: PolicyMap, mine: PolicyMap): PolicyMap {
    map id | id in mine :: Lookup(older, id) + mine[id]
  }

  lemma OverlaySplit(older: PolicyMap, mine: PolicyMap)
    ensures (older - mine.Keys) + OverMine(older, mine) == Overlay(older, mine)
  {
    assert forall m: map<string, Status> :: m + map[] == m;
  }

  lemma {:induction false} UpdatedObjects(older: PolicyMap, mine: seq<PolicyStatus>, updated: seq<PolicyStatus>)
    requires |updated| == |mine|
    requires forall j :: 0 <= j < |mine| ==> Updated(older, mine[j], updated[j])
    ensures ByPolicy(updated) == OverMine(older, ByPolicy(mine))
    decreases |mine|
  {
    if mine != [] {
      UpdatedObjects(older, mine[..|mine| - 1], updated[..|mine| - 1]);
    }
  }

  // ---------------------------------------------------------------- meaning of deltas

  /** A delta bundle up to the order of its lists. */
  datatype Delta = Delta(version: Version, base: Version, effect: Table)

  /** The newer delta after it inherited an older one. */
  function Inherit(newer: Delta, older: Option<Delta>): Delta {
    if older.None? || older.value.base != newer.base then newer
    else newer.(effect := older.value.effect + newer.effect)
  }

  function WriteAll(table: Table, deltas: seq<Delta>): Table {
    if deltas == [] then table
    else WriteAll(Write(table, deltas[0].effect), deltas[1..])
  }

  /** A pack: deltas merged in order of arrival, none being written in between. */
  function Pack(deltas: seq<Delta>): Delta
    requires deltas != []
    decreases |deltas|
  {
    var last := deltas[|deltas| - 1];
    if |deltas| == 1 then last
    else Inherit(last, Some(Pack(deltas[..|deltas| - 1])))
  }

  function Concat(packs: seq<seq<Delta>>): seq<Delta> {
    if packs == [] then [] else packs[0] + Concat(packs[1..])
  }

  predicate OneBase(deltas: seq<Delta>) {
    forall i, j :: 0 <= i < |deltas| && 0 <= j < |deltas| ==> deltas[i].base == deltas[j].base
  }

  /** The deltas at the end that share the base of the last one. */
  function TrailingLine(deltas: seq<Delta>): (line: seq<Delta>)
    requires deltas != []
    ensures line != [] && OneBase(line) && line[|line| - 1] == deltas[|deltas| - 1]
    decreases |deltas|
  {
    var n := |deltas|;
    if n > 1 && deltas[n - 2].base == deltas[n - 1].base
    then TrailingLine(deltas[..n - 1]) + [deltas[n - 1]]
    else [deltas[n - 1]]
  }

  lemma WriteTwice(table: Table, first: Table, second: Table)
    ensures Write(Write(table, first), second) == Write(table, first + second)
  {
  }

  lemma {:induction false} WriteAllSplit(table: Table, a: seq<Delta>, b: seq<Delta>)
    ensures WriteAll(table, a + b) == WriteAll(WriteAll(table, a), b)
    decreases |a|
  {
    if a == [] {
      assert a + b == b;
    } else {
      assert (a + b)[1..] == a[1..] + b;
      WriteAllSplit(Write(table, a[0].effect), a[1..], b);
    }
  }

  /**
   Merging a pack of any deltas, whatever their bases, is the same as writing one by one
   those of the last line; everything before belongs to lines a complete bundle covers.
   */
  lemma {:induction false} PackWritesItsTrailingLine(table: Table, deltas: seq<Delta>)
    requires deltas != []
    ensures Pack(deltas).base == deltas[|deltas| - 1].base
    ensures Pack(deltas).version == deltas[|deltas| - 1].version
    ensures Write(table, Pack(deltas).effect) == WriteAll(table, TrailingLine(deltas))
    decreases |deltas|
  {
    var n := |deltas|;
    var last := deltas[n - 1];
    if n == 1 {
      WriteOne(table, last);
    } else {
      var front := deltas[..n - 1];
      PackWritesItsTrailingLine(table, front);
      if deltas[n - 2].base == last.base {
        WriteAllSplit(table, TrailingLine(front), [last]);
        WriteOne(Write(table, Pack(front).effect), last);
        WriteTwice(table, Pack(front).effect, last.effect);
      } else {
        WriteOne(table, last);
      }
    }
  }

  lemma WriteOne(table: Table, d: Delta)
    ensures WriteAll(table, [d]) == Write(table, d.effect)
  {
    assert WriteAll(Write(table, d.effect), [d][1..]) == Write(table, d.effect);
  }

  lemma {:induction false} TrailingLineOfOneBase(deltas: seq<Delta>)
    requires deltas != [] && OneBase(deltas)
    ensures TrailingLine(deltas) == deltas
    decreases |deltas|
  {
    if |deltas| > 1 {
      TrailingLineOfOneBase(deltas[..|deltas| - 1]);
    }
  }

  function PackAll(packs: seq<seq<Delta>>): seq<Delta>
    requires forall i :: 0 <= i < |packs| ==> packs[i] != []
  {
    seq(|packs|, i requires 0 <= i < |packs| => Pack(packs[i]))
  }

  /**
   Conflation preserves meaning: deltas of one line, cut into packs in any way, leave the
   same table whether the merged packs or the single deltas are written.
   */
  lemma {:induction false} ConflationPreservesMeaning(table: Table, packs: seq<seq<Delta>>)
    requires forall i :: 0 <= i < |packs| ==> packs[i] != []
    requires OneBase(Concat(packs))
    ensures WriteAll(table, PackAll(packs)) == WriteAll(table, Concat(packs))
    decreases |packs|
  {
    if packs != [] {
      var first, rest := packs[0], packs[1..];
      assert forall i :: 0 <= i < |first| ==> Concat(packs)[i] == first[i];
      assert forall i :: 0 <= i < |Concat(rest)| ==> Concat(packs)[|first| + i] == Concat(rest)[i];
      PackWritesItsTrailingLine(table, first);
      TrailingLineOfOneBase(first);
      assert PackAll(packs)[1..] == PackAll(rest);
      ConflationPreservesMeaning(WriteAll(table, first), rest);
      WriteAllSplit(table, first, Concat(rest));
    }
  }
}
