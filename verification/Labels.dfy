/**
 Label patches of managed clusters: JSON patches become keys to add and keys to remove, which
 are merged into the cluster's row and applied to its labels by the leaf hub's agent.
 */
module Labels {
  import opened Compliance

  type LabelMap = map<string, string>

  /** Labels to set and keys to delete; the row of a cluster and one request have the same form. */
  datatype Change = Change(labels: LabelMap, deleted: set<string>)

  predicate Disjointed(c: Change) {
    c.labels.Keys !! c.deleted
  }

  /** What the agent does to a cluster's labels: set, then delete. */
  function Apply(c: Change, m: LabelMap): LabelMap {
    (m + c.labels) - c.deleted
  }

  // ---------------------------------------------------------------- reading patches

  const PREFIX := "/metadata/labels/"

  datatype Patch = Patch(op: string, path: string, value: string)

  datatype Error = OnlyPatchOfLabels | OnlyAddOrRemove

  datatype Result<T> = Ok(value: T) | Err(error: Error)

  predicate HasPrefix(s: string, prefix: string) {
    |prefix| <= |s| && s[..|prefix|] == prefix
  }

  function TrimPrefix(s: string, prefix: string): string {
    if HasPrefix(s, prefix) then s[|prefix|..] else s
  }

  /** The first "~1" of a path becomes a slash. */
  function LabelOf(raw: string): string {
    if |raw| < 2 then raw
    else if raw[0] == '~' && raw[1] == '1' then "/" + raw[2..]
    else [raw[0]] + LabelOf(raw[1..])
  }

  /** The unescaping of section 4 of RFC 6901: every "~1" and every "~0". */
  function Unescaped(raw: string): string {
    if |raw| < 2 then raw
    else if raw[0] == '~' && raw[1] == '1' then "/" + Unescaped(raw[2..])
    else if raw[0] == '~' && raw[1] == '0' then "~" + Unescaped(raw[2..])
    else [raw[0]] + Unescaped(raw[1..])
  }

  function Escapes(raw: string): nat {
    if |raw| < 2 then 0
    else if raw[0] == '~' && (raw[1] == '1' || raw[1] == '0') then 1 + Escapes(raw[2..])
    else Escapes(raw[1..])
  }

  predicate HasSlash(raw: string) {
    |raw| >= 2 && ((raw[0] == '~' && raw[1] == '1') || HasSlash(raw[1..]))
  }

  lemma {:induction false} UnescapedLength(raw: string)
    ensures |Unescaped(raw)| == |raw| - Escapes(raw)
    ensures Escapes(raw) == 0 ==> Unescaped(raw) == raw
  {
    if |raw| >= 2 {
      if raw[0] == '~' && (raw[1] == '1' || raw[1] == '0') {
        UnescapedLength(raw[2..]);
      } else {
        UnescapedLength(raw[1..]);
      }
    }
  }

  lemma {:induction false} LabelLength(raw: string)
    ensures |LabelOf(raw)| == |raw| - if HasSlash(raw) then 1 else 0
    ensures HasSlash(raw) ==> Escapes(raw) > 0
    ensures !HasSlash(raw) ==> LabelOf(raw) == raw
  {
    if |raw| >= 2 && !(raw[0] == '~' && raw[1] == '1') {
      LabelLength(raw[1..]);
      if raw[0] == '~' && raw[1] == '0' && |raw| >= 3 {
        assert raw[1..][0] == '0';
        assert raw[1..][1..] == raw[2..];
      }
    }
  }

  lemma {:induction false} OneSlash(raw: string)
    requires HasSlash(raw) && Escapes(raw) == 1
    ensures LabelOf(raw) == Unescaped(raw)
  {
    if raw[0] == '~' && raw[1] == '1' {
      UnescapedLength(raw[2..]);
    } else {
      if raw[0] == '~' && raw[1] == '0' {
        LabelLength(raw[1..]);
        assert raw[1..][1..] == raw[2..];
        LabelLength(raw[2..]);
      }
      OneSlash(raw[1..]);
    }
  }

  /** The key is read as the standard says exactly when it has at most one escape, and that is a slash. */
  lemma LabelIsUnescapedIff(raw: string)
    ensures LabelOf(raw) == Unescaped(raw) <==> Escapes(raw) == if HasSlash(raw) then 1 else 0
  {
    UnescapedLength(raw);
    LabelLength(raw);
    if HasSlash(raw) && Escapes(raw) == 1 {
      OneSlash(raw);
    }
  }

  /** A key with two slashes: the second one stays escaped. */
  lemma SecondSlashStaysEscaped()
    ensures LabelOf("a~1b~1c") == "a/b~1c" && Unescaped("a~1b~1c") == "a/b/c"
  {
    assert "a~1b~1c" == "a" + ("~1" + ("b" + ("~1" + "c")));
  }

  /** One patch on a key map; removing a missing key changes nothing. */
  function PatchOne(m: LabelMap, p: Patch): LabelMap {
    var key := LabelOf(TrimPrefix(p.path, PREFIX));
    if p.op == "add" then m[key := p.value] else m - {key}
  }

  function PatchAll(m: LabelMap, patches: seq<Patch>): LabelMap
    decreases |patches|
  {
    if patches == [] then m else PatchOne(PatchAll(m, patches[..|patches| - 1]), patches[|patches| - 1])
  }

  function ErrorOf(p: Patch): (e: seq<Error>) {
    if !HasPrefix(p.path, PREFIX) then [OnlyPatchOfLabels]
    else if p.op != "add" && p.op != "remove" then [OnlyAddOrRemove]
    else []
  }

  predicate Supported(patches: seq<Patch>) {
    forall i :: 0 <= i < |patches| ==> ErrorOf(patches[i]) == []
  }

  /** A change stands for a list of patches if it has the same effect on every key map. */
  ghost predicate StandsFor(c: Change, patches: seq<Patch>) {
    Disjointed(c) && forall m :: Apply(c, m) == PatchAll(m, patches)
  }

  lemma OnePatchMore(c: Change, patches: seq<Patch>, p: Patch)
    requires StandsFor(c, patches) && ErrorOf(p) == []
    ensures var key := LabelOf(TrimPrefix(p.path, PREFIX));
            StandsFor(if p.op == "add" then Change(c.labels[key := p.value], c.deleted - {key})
                      else Change(c.labels - {key}, c.deleted + {key}), patches + [p])
  {
    var key := LabelOf(TrimPrefix(p.path, PREFIX));
    var more := if p.op == "add" then Change(c.labels[key := p.value], c.deleted - {key})
                else Change(c.labels - {key}, c.deleted + {key});
    assert (patches + [p])[..|patches|] == patches;
    forall m
      ensures Apply(more, m) == PatchAll(m, patches + [p])
    {
      assert Apply(c, m) == PatchAll(m, patches);
      hide LabelOf, TrimPrefix, StandsFor;
    }
  }

  /**
   Collects the keys to add and to remove, the last patch of a key deciding. The first patch that
   is not supported is an error; otherwise the result has the effect of the patches one by one.
   */
  method GetLabels(patches: seq<Patch>) returns (r: Result<Change>)
    ensures r.Ok? <==> Supported(patches)
    ensures r.Ok? ==> StandsFor(r.value, patches)
    ensures r.Err? ==> exists i :: 0 <= i < |patches| && Supported(patches[..i]) && ErrorOf(patches[i]) == [r.error]
  {
    var labelsToAdd: LabelMap := map[];
    var labelsToRemove: set<string> := {};
    NothingToDo();
    for k := 0 to |patches|
      invariant Supported(patches[..k]) && StandsFor(Change(labelsToAdd, labelsToRemove), patches[..k])
    {
      var p := patches[k];
      var rawLabel := TrimPrefix(p.path, PREFIX);
      RawEqualsPathIff(p.path);
      hide StandsFor, LabelOf, TrimPrefix, HasPrefix;
      if rawLabel == p.path {
        assert ErrorOf(patches[k]) == [OnlyPatchOfLabels];
        return Err(OnlyPatchOfLabels);
      }
      var key := LabelOf(rawLabel);
      ghost var c := Change(labelsToAdd, labelsToRemove);
      assert patches[..k + 1] == patches[..k] + [p];
      if p.op == "add" {
        OnePatchMore(c, patches[..k], p);
        labelsToRemove := labelsToRemove - {key};
        labelsToAdd := labelsToAdd[key := p.value];
      } else if p.op == "remove" {
        OnePatchMore(c, patches[..k], p);
        labelsToAdd := labelsToAdd - {key};
        labelsToRemove := labelsToRemove + {key};
      } else {
        assert ErrorOf(patches[k]) == [OnlyAddOrRemove];
        return Err(OnlyAddOrRemove);
      }
    }
    assert patches[..|patches|] == patches;
    return Ok(Change(labelsToAdd, labelsToRemove));
  }

  lemma NothingToDo()
    ensures StandsFor(Change(map[], {}), [])
  {
    assert forall m: LabelMap :: Apply(Change(map[], {}), m) == m;
  }

  lemma RawEqualsPathIff(path: string)
    ensures TrimPrefix(path, PREFIX) == path <==> !HasPrefix(path, PREFIX)
  {
  }

  // ---------------------------------------------------------------- merging into the row

  /** A row after a request: what the request says wins. */
  function Merged(row: Change, request: Change): Change {
    Change((row.labels - request.deleted) + request.labels, (row.deleted - request.labels.Keys) + request.deleted)
  }

  /** The merged row keeps its parts disjoint and acts as the old row followed by the request. */
  lemma MergedComposes(row: Change, request: Change, m: LabelMap)
    requires Disjointed(row) && Disjointed(request)
    ensures Disjointed(Merged(row, request))
    ensures Apply(Merged(row, request), m) == Apply(request, Apply(row, m))
  {
    var left, right := Apply(Merged(row, request), m), Apply(request, Apply(row, m));
    forall k
      ensures k in left <==> k in right
      ensures k in left ==> left[k] == right[k]
    {
    }
  }

  /** A request of patches, merged into a row, acts as the old row followed by the patches one by one. */
  lemma MergedPatches(row: Change, request: Change, patches: seq<Patch>, m: LabelMap)
    requires Disjointed(row) && StandsFor(request, patches)
    ensures Apply(Merged(row, request), m) == PatchAll(Apply(row, m), patches)
  {
    MergedComposes(row, request, m);
    assert Apply(request, Apply(row, m)) == PatchAll(Apply(row, m), patches);
  }

  /** Computes the row's new labels and deleted keys, entry by entry. */
  method MergeRow(labelsToAdd: LabelMap, currentLabels: LabelMap, labelsToRemove: set<string>,
                  currentRemoved: seq<string>)
    returns (newLabels: LabelMap, newRemoved: set<string>)
    ensures Change(newLabels, newRemoved) ==
            Merged(Change(currentLabels, Elements(currentRemoved)), Change(labelsToAdd, labelsToRemove))
  {
    newRemoved := {};
    for k := 0 to |currentRemoved|
      invariant newRemoved == Elements(currentRemoved[..k]) - labelsToAdd.Keys
    {
      assert currentRemoved[..k + 1] == currentRemoved[..k] + [currentRemoved[k]];
      if currentRemoved[k] !in labelsToAdd {
        newRemoved := newRemoved + {currentRemoved[k]};
      }
    }
    assert currentRemoved[..|currentRemoved|] == currentRemoved;
    newRemoved := newRemoved + labelsToRemove;
    newLabels := map[];
    var left := currentLabels.Keys;
    while left != {}
      invariant left <= currentLabels.Keys
      invariant newLabels == map k | k in currentLabels && k !in left && k !in labelsToRemove :: currentLabels[k]
      decreases left
    {
      var key :| key in left;
      if key !in labelsToRemove {
        newLabels := newLabels[key := currentLabels[key]];
      }
      left := left - {key};
    }
    assert newLabels == currentLabels - labelsToRemove;
    newLabels := PutAll(newLabels, labelsToAdd);
  }

  /** Sets every key, in no particular order. */
  method PutAll(labels: LabelMap, more: LabelMap) returns (r: LabelMap)
    ensures r == labels + more
  {
    r := labels;
    var left := more.Keys;
    while left != {}
      invariant left <= more.Keys && r == labels + (map k | k in more && k !in left :: more[k])
      decreases left
    {
      var key :| key in left;
      r := r[key := more[key]];
      left := left - {key};
    }
    assert (map k | k in more && k !in left :: more[k]) == more;
  }

  /** The agent enforces a row on the labels of a cluster. */
  method ApplyToCluster(clusterLabels: LabelMap, labels: LabelMap, deletedKeys: seq<string>) returns (r: LabelMap)
    ensures r == Apply(Change(labels, Elements(deletedKeys)), clusterLabels)
  {
    r := PutAll(clusterLabels, labels);
    for k := 0 to |deletedKeys|
      invariant r == (clusterLabels + labels) - Elements(deletedKeys[..k])
    {
      assert deletedKeys[..k + 1] == deletedKeys[..k] + [deletedKeys[k]];
      r := r - {deletedKeys[k]};
    }
    assert deletedKeys[..|deletedKeys|] == deletedKeys;
  }

  // ---------------------------------------------------------------- trimming

  /** A row without the deleted keys that the cluster no longer carries. */
  function Trimmed(row: Change, status: LabelMap): Change {
    Change(row.labels, row.deleted * status.Keys)
  }

  /** Trimming is invisible exactly to clusters that carry none of the trimmed keys. */
  lemma TrimmingIsInvisibleIff(row: Change, status: LabelMap, m: LabelMap)
    requires Disjointed(row)
    ensures Disjointed(Trimmed(row, status))
    ensures Apply(Trimmed(row, status), m) == Apply(row, m) <==> m.Keys !! (row.deleted - status.Keys)
  {
    var left, right := Apply(Trimmed(row, status), m), Apply(row, m);
    if m.Keys !! (row.deleted - status.Keys) {
      forall k
        ensures k in left <==> k in right
        ensures k in left ==> left[k] == right[k]
      {
      }
      assert left == right;
    } else {
      var k :| k in m.Keys && k in row.deleted - status.Keys;
      assert k in left && k !in right;
    }
  }

  /** The deleted keys that still appear in the status; an unchanged list needs no write. */
  method TrimDeletedKeys(deletedKeys: seq<string>, status: LabelMap) returns (changed: bool, kept: seq<string>)
    requires Distinct(deletedKeys)
    ensures Distinct(kept) && Elements(kept) == Elements(deletedKeys) * status.Keys
    ensures changed <==> Elements(kept) != Elements(deletedKeys)
  {
    kept := [];
    for i := 0 to |deletedKeys|
      invariant Distinct(kept) && Elements(kept) == Elements(deletedKeys[..i]) * status.Keys
      invariant |kept| <= i && (|kept| == i <==> Elements(kept) == Elements(deletedKeys[..i]))
    {
      var key := deletedKeys[i];
      assert key !in Elements(deletedKeys[..i])
             && Elements(deletedKeys[..i + 1]) == Elements(deletedKeys[..i]) + {key} by {
        assert deletedKeys[..i + 1] == deletedKeys[..i] + [key];
      }
      DistinctSnoc(kept, key);
      hide Distinct, Elements;
      if key in status {
        kept := kept + [key];
      }
    }
    assert deletedKeys[..|deletedKeys|] == deletedKeys;
    changed := |kept| != |deletedKeys|;
  }
}
