/**
 Policy compliance as bundles list it and as the global hub's table stores it.

 A bundle lists, per policy, the clusters of each status. What those lists mean is a map
 from clusters to statuses; the compliance table of one leaf hub is a map from
 (policy, cluster) rows to statuses.
 */
module Compliance {

  datatype Status = Compliant | NonCompliant | Unknown

  type Row = (string, string)
  type Table = map<Row, Status>
  /** Policy, then cluster, then status; a policy may have no cluster. */
  type PolicyMap = map<string, map<string, Status>>

  /** Full or delta state of one policy. */
  datatype PolicyStatus = PolicyStatus(
    id: string, compliant: seq<string>, nonCompliant: seq<string>, unknown: seq<string>)

  /** State of one policy where every cluster not listed is compliant. */
  datatype CompleteStatus = CompleteStatus(id: string, nonCompliant: seq<string>, unknown: seq<string>)

  /** What such an object says about the clusters it lists. */
  function AsPolicy(o: CompleteStatus): PolicyStatus {
    PolicyStatus(o.id, [], o.nonCompliant, o.unknown)
  }

  function AsPolicies(objects: seq<CompleteStatus>): seq<PolicyStatus> {
    seq(|objects|, i requires 0 <= i < |objects| => AsPolicy(objects[i]))
  }

  /** The table under implicit compliance: what is listed, and all other rows compliant. */
  function Implied(table: Table, listed: Table): Table {
    map row | row in table :: if row in listed then listed[row] else Compliant
  }

  predicate Distinct<T(==)>(s: seq<T>) {
    forall i, j :: 0 <= i < j < |s| ==> s[i] != s[j]
  }

  predicate Disjoint<T(==)>(s: seq<T>, t: seq<T>) {
    forall x :: x in s ==> x !in t
  }

  /** Each cluster is listed once, under one status. */
  predicate WellFormedPolicy(p: PolicyStatus) {
    && Distinct(p.compliant) && Distinct(p.nonCompliant) && Distinct(p.unknown)
    && Disjoint(p.compliant, p.nonCompliant)
    && Disjoint(p.compliant, p.unknown)
    && Disjoint(p.nonCompliant, p.unknown)
  }

  predicate UniqueIds(objects: seq<PolicyStatus>) {
    forall i, j :: 0 <= i < j < |objects| ==> objects[i].id != objects[j].id
  }

  predicate WellFormed(objects: seq<PolicyStatus>) {
    && UniqueIds(objects)
    && forall i :: 0 <= i < |objects| ==> WellFormedPolicy(objects[i])
  }

  function Elements<T>(s: seq<T>): set<T> {
    set x | x in s
  }

  lemma DistinctSnoc<T>(s: seq<T>, x: T)
    requires Distinct(s) && x !in Elements(s)
    ensures Distinct(s + [x]) && Elements(s + [x]) == Elements(s) + {x}
  {
  }

  lemma {:induction false} DistinctCount<T>(s: seq<T>)
    requires Distinct(s)
    ensures |s| == |Elements(s)|
  {
    if s != [] {
      var front, last := s[..|s| - 1], s[|s| - 1];
      DistinctCount(front);
      assert Elements(s) == Elements(front) + {last};
    }
  }

  /** The statuses given by three cluster sets. */
  function StatusesOfSets(compliant: set<string>, nonCompliant: set<string>, unknown: set<string>)
    : map<string, Status>
  {
    map c | c in compliant + nonCompliant + unknown ::
      if c in compliant then Compliant else if c in nonCompliant then NonCompliant else Unknown
  }

  /** What the lists of one policy say about each cluster. */
  function StatusesOf(p: PolicyStatus): map<string, Status> {
    StatusesOfSets(Elements(p.compliant), Elements(p.nonCompliant), Elements(p.unknown))
  }

  /** What a bundle's objects say. */
  function ByPolicy(objects: seq<PolicyStatus>): PolicyMap
    decreases |objects|
  {
    if objects == [] then map[]
    else
      var last := objects[|objects| - 1];
      ByPolicy(objects[..|objects| - 1])[last.id := StatusesOf(last)]
  }

  function Lookup(m: PolicyMap, id: string): map<string, Status> {
    if id in m then m[id] else map[]
  }

  /** Two descriptions combined, the newer one winning wherever both list a cluster. */
  function Overlay(older: PolicyMap, newer: PolicyMap): PolicyMap {
    map id | id in older.Keys + newer.Keys :: Lookup(older, id) + Lookup(newer, id)
  }

  function Flatten(m: PolicyMap): Table {
    map p, c | p in m && c in m[p] :: (p, c) := m[p][c]
  }

  /** The rows a bundle's objects describe. */
  function Rows(objects: seq<PolicyStatus>): Table {
    Flatten(ByPolicy(objects))
  }

  lemma NoObjects()
    ensures ByPolicy([]) == map[] && Rows([]) == map[]
  {
  }

  /** The table after new statuses are written: only existing rows take them. */
  function Write(table: Table, effect: Table): Table {
    map row | row in table :: if row in effect then effect[row] else table[row]
  }

  lemma ByPolicySnoc(objects: seq<PolicyStatus>, p: PolicyStatus)
    ensures ByPolicy(objects + [p]) == ByPolicy(objects)[p.id := StatusesOf(p)]
  {
    assert (objects + [p])[..|objects|] == objects;
  }

  lemma {:induction false} ByPolicyKeys(objects: seq<PolicyStatus>, id: string)
    ensures id in ByPolicy(objects) <==> exists i :: 0 <= i < |objects| && objects[i].id == id
    decreases |objects|
  {
    if objects != [] {
      var front := objects[..|objects| - 1];
      ByPolicyKeys(front, id);
      assert forall i :: 0 <= i < |front| ==> front[i] == objects[i];
    }
  }

  lemma {:induction false} ByPolicyAt(objects: seq<PolicyStatus>, i: nat)
    requires UniqueIds(objects) && i < |objects|
    ensures objects[i].id in ByPolicy(objects)
    ensures ByPolicy(objects)[objects[i].id] == StatusesOf(objects[i])
    decreases |objects|
  {
    if i < |objects| - 1 {
      ByPolicyAt(objects[..|objects| - 1], i);
    }
  }

  lemma {:induction false} ByPolicyConcat(a: seq<PolicyStatus>, b: seq<PolicyStatus>)
    ensures ByPolicy(a + b) == ByPolicy(a) + ByPolicy(b)
    decreases |b|
  {
    if b == [] {
      assert a + b == a;
      assert ByPolicy(b) == map[];
    } else {
      var front, last := b[..|b| - 1], b[|b| - 1];
      assert a + b == (a + front) + [last] && b == front + [last];
      ByPolicyConcat(a, front);
      ByPolicySnoc(a + front, last);
      ByPolicySnoc(front, last);
      hide ByPolicy, StatusesOf;
    }
  }

  lemma FlattenAt(m: PolicyMap, row: Row)
    ensures row in Flatten(m) <==> row.0 in m && row.1 in m[row.0]
    ensures row in Flatten(m) ==> Flatten(m)[row] == m[row.0][row.1]
  {
    assert row == (row.0, row.1);
  }

  lemma FlattenOverlayAt(older: PolicyMap, newer: PolicyMap, row: Row)
    ensures row in Flatten(Overlay(older, newer)) <==> row in Flatten(older) + Flatten(newer)
    ensures row in Flatten(Overlay(older, newer)) ==>
      Flatten(Overlay(older, newer))[row] == (Flatten(older) + Flatten(newer))[row]
  {
    FlattenAt(Overlay(older, newer), row);
    FlattenAt(older, row);
    FlattenAt(newer, row);
    hide Flatten;
  }

  lemma FlattenOverlay(older: PolicyMap, newer: PolicyMap)
    ensures Flatten(Overlay(older, newer)) == Flatten(older) + Flatten(newer)
  {
    hide Flatten, Overlay;
    var a, b := Flatten(Overlay(older, newer)), Flatten(older) + Flatten(newer);
    forall row
      ensures row in a <==> row in b
      ensures row in a ==> a[row] == b[row]
    {
      FlattenOverlayAt(older, newer, row);
    }
  }

  /** The rows of one policy, given some of its clusters' statuses. */
  function PolicyRows(p: string, statuses: map<string, Status>): Table {
    map c | c in statuses :: (p, c) := statuses[c]
  }

  lemma FlattenPutAt(m: PolicyMap, p: string, statuses: map<string, Status>, row: Row)
    requires p !in m
    ensures row in Flatten(m[p := statuses]) <==> row in Flatten(m) + PolicyRows(p, statuses)
    ensures row in Flatten(m[p := statuses]) ==>
      Flatten(m[p := statuses])[row] == (Flatten(m) + PolicyRows(p, statuses))[row]
  {
    FlattenAt(m, row);
    FlattenAt(m[p := statuses], row);
    hide Flatten;
    assert row == (row.0, row.1);
  }

  lemma FlattenPut(m: PolicyMap, p: string, statuses: map<string, Status>)
    requires p !in m
    ensures Flatten(m[p := statuses]) == Flatten(m) + PolicyRows(p, statuses)
  {
    hide Flatten, PolicyRows;
    forall row
      ensures row in Flatten(m[p := statuses]) <==> row in Flatten(m) + PolicyRows(p, statuses)
      ensures row in Flatten(m[p := statuses]) ==>
        Flatten(m[p := statuses])[row] == (Flatten(m) + PolicyRows(p, statuses))[row]
    {
      FlattenPutAt(m, p, statuses, row);
    }
  }
}
