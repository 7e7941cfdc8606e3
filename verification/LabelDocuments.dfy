/**
 Label patches against the standard: paths lead into a cluster's document, and patches are
 evaluated on that document one after the other.
 */
module LabelDocuments {
  import opened Labels
  import opened Options

  // ---------------------------------------------------------------- which patches are read as label patches

  /** A path under the labels, with a key that has no escapes, names exactly that key. */
  lemma LabelPatchIsRead(key: string, value: string, m: LabelMap)
    requires Escapes(key) == 0
    ensures var path := "/metadata/labels/" + key;
            && ErrorOf(Patch("add", path, value)) == [] == ErrorOf(Patch("remove", path, value))
            && PatchOne(m, Patch("add", path, value)) == m[key := value]
            && PatchOne(m, Patch("remove", path, value)) == m - {key}
  {
    PathIsTrimmed(key);
    LabelIsUnescapedIff(key);
    LabelLength(key);
    UnescapedLength(key);
    hide LabelOf, TrimPrefix, HasPrefix;
  }

  lemma PathIsTrimmed(raw: string)
    ensures var path := "/metadata/labels/" + raw;
            HasPrefix(path, "/metadata/labels/") && HasPrefix(path, PREFIX) && TrimPrefix(path, PREFIX) == raw
  {
  }

  /** Which patches are refused, and how. */
  lemma RefusedPatches(p: Patch)
    ensures !HasPrefix(p.path, "/metadata/labels/") ==> ErrorOf(p) == [OnlyPatchOfLabels]
    ensures HasPrefix(p.path, "/metadata/labels/") && p.op != "add" && p.op != "remove" ==>
            ErrorOf(p) == [OnlyAddOrRemove]
    ensures HasPrefix(p.path, "/metadata/labels/") && (p.op == "add" || p.op == "remove") ==> ErrorOf(p) == []
  {
    assert PREFIX == "/metadata/labels/";
  }

  // ---------------------------------------------------------------- the standard

  datatype Document = Leaf(text: string) | Node(members: map<string, Document>)

  /** The parts of a text between slashes. */
  function Segments(s: string): (r: seq<string>)
    ensures r != []
  {
    if s == "" then [""]
    else
      var rest := Segments(s[1..]);
      if s[0] == '/' then [""] + rest else [[s[0]] + rest[0]] + rest[1..]
  }

  /** The keys that a path leads through (section 3 of RFC 6901). */
  function KeyPath(path: string): Option<seq<string>> {
    if path == "" then Some([])
    else if path[0] != '/' then None
    else
      var parts := Segments(path[1..]);
      Some(seq(|parts|, i requires 0 <= i < |parts| => Unescaped(parts[i])))
  }

  /** Adds a member or replaces it; the object that holds it must exist (section 4.1 of RFC 6902). */
  function AddAt(d: Document, keys: seq<string>, value: Document): Option<Document>
    decreases |keys|
  {
    if keys == [] then Some(value)
    else if d.Leaf? || (|keys| > 1 && keys[0] !in d.members) then None
    else if |keys| == 1 then Some(Node(d.members[keys[0] := value]))
    else
      var child := AddAt(d.members[keys[0]], keys[1..], value);
      if child.None? then None else Some(Node(d.members[keys[0] := child.value]))
  }

  /** Removes a member, which must exist (section 4.2 of RFC 6902). */
  function RemoveAt(d: Document, keys: seq<string>): Option<Document>
    decreases |keys|
  {
    if keys == [] || d.Leaf? || keys[0] !in d.members then None
    else if |keys| == 1 then Some(Node(d.members - {keys[0]}))
    else
      var child := RemoveAt(d.members[keys[0]], keys[1..]);
      if child.None? then None else Some(Node(d.members[keys[0] := child.value]))
  }

  /** One operation; others than these two are not considered. */
  function Evaluate(d: Document, p: Patch): Option<Document> {
    var keys := KeyPath(p.path);
    if keys.None? then None
    else if p.op == "add" then AddAt(d, keys.value, Leaf(p.value))
    else if p.op == "remove" then RemoveAt(d, keys.value)
    else None
  }

  /** All operations in order, up to the first that fails. */
  function EvaluateAll(d: Document, patches: seq<Patch>): Option<Document>
    decreases |patches|
  {
    if patches == [] then Some(d)
    else
      var before := EvaluateAll(d, patches[..|patches| - 1]);
      if before.None? then None else Evaluate(before.value, patches[|patches| - 1])
  }

  // ---------------------------------------------------------------- labels in a document

  predicate HasMetadata(d: Document) {
    d.Node? && "metadata" in d.members && d.members["metadata"].Node?
  }

  function LabelNode(m: LabelMap): Document {
    Node(map k | k in m :: Leaf(m[k]))
  }

  /** The document with these labels and nothing else changed. */
  function WithLabels(d: Document, m: LabelMap): Document
    requires HasMetadata(d)
  {
    Node(d.members["metadata" := Node(d.members["metadata"].members["labels" := LabelNode(m)])])
  }

  lemma LabelsReplaced(d: Document, m: LabelMap, n: LabelMap)
    requires HasMetadata(d)
    ensures HasMetadata(WithLabels(d, m)) && WithLabels(WithLabels(d, m), n) == WithLabels(d, n)
  {
    hide LabelNode;
    var meta := d.members["metadata"].members;
    assert meta["labels" := LabelNode(m)]["labels" := LabelNode(n)] == meta["labels" := LabelNode(n)];
    var x, y := Node(meta["labels" := LabelNode(m)]), Node(meta["labels" := LabelNode(n)]);
    assert d.members["metadata" := x]["metadata" := y] == d.members["metadata" := y];
  }

  lemma {:induction false} OneSegment(s: string)
    requires '/' !in s
    ensures Segments(s) == [s]
  {
    if s != "" {
      assert s == [s[0]] + s[1..];
      OneSegment(s[1..]);
    }
  }

  lemma {:induction false} FirstSegment(s: string, rest: string)
    requires '/' !in s
    ensures Segments(s + "/" + rest) == [s] + Segments(rest)
  {
    var all := s + "/" + rest;
    if s == "" {
      assert all[1..] == rest;
    } else {
      assert s == [s[0]] + s[1..];
      assert all[1..] == s[1..] + "/" + rest;
      FirstSegment(s[1..], rest);
    }
  }

  lemma NotEscaped(s: string)
    requires '~' !in s
    ensures Unescaped(s) == s
  {
    NoEscapes(s);
    UnescapedLength(s);
  }

  lemma {:induction false} NoEscapes(s: string)
    requires '~' !in s
    ensures Escapes(s) == 0
  {
    if |s| >= 2 {
      NoEscapes(s[1..]);
    }
  }

  lemma PathParts(raw: string)
    ensures var path := "/metadata/labels/" + raw;
            path[0] == '/' && path[1..] == "metadata" + "/" + ("labels" + "/" + raw)
  {
  }

  lemma NoSlashOrTilde()
    ensures '/' !in "metadata" && '~' !in "metadata" && '/' !in "labels" && '~' !in "labels"
  {
  }

  /** The keys of a label's path. */
  lemma LabelPath(raw: string)
    requires '/' !in raw
    ensures KeyPath("/metadata/labels/" + raw) == Some(["metadata", "labels", Unescaped(raw)])
  {
    hide Segments, Unescaped;
    NoSlashOrTilde();
    NotEscaped("metadata");
    NotEscaped("labels");
    FirstSegment("metadata", "labels" + "/" + raw);
    FirstSegment("labels", raw);
    OneSegment(raw);
    PathParts(raw);
    PathOfThree("/metadata/labels/" + raw, "metadata", "labels", raw);
  }

  lemma PathOfThree(path: string, a: string, b: string, c: string)
    requires path != "" && path[0] == '/' && Segments(path[1..]) == [a] + ([b] + [c])
    ensures KeyPath(path) == Some([Unescaped(a), Unescaped(b), Unescaped(c)])
  {
    hide Segments, Unescaped;
    var parts := Segments(path[1..]);
    assert |parts| == 3 && parts[0] == a && parts[1] == b && parts[2] == c;
    assert KeyPath(path).value == [Unescaped(a), Unescaped(b), Unescaped(c)];
  }

  // ---------------------------------------------------------------- patches of labels

  /** A path under the labels whose key has no slash and is read as the standard says. */
  predicate NamesLabel(p: Patch, raw: string) {
    p.path == "/metadata/labels/" + raw && '/' !in raw && Escapes(raw) == if HasSlash(raw) then 1 else 0
  }

  /** The label that a patch is read to name. */
  function KeyOf(p: Patch): string {
    LabelOf(TrimPrefix(p.path, PREFIX))
  }

  lemma NamedLabel(p: Patch, raw: string)
    requires NamesLabel(p, raw)
    ensures HasPrefix(p.path, "/metadata/labels/") && KeyPath(p.path) == Some(["metadata", "labels", KeyOf(p)])
  {
    hide KeyPath, LabelOf, TrimPrefix, HasPrefix;
    PathIsTrimmed(raw);
    LabelPath(raw);
    LabelIsUnescapedIff(raw);
  }

  lemma AddedLabel(d: Document, m: LabelMap, key: string, value: string)
    requires HasMetadata(d)
    ensures AddAt(WithLabels(d, m), ["metadata", "labels", key], Leaf(value)) == Some(WithLabels(d, m[key := value]))
  {
    var keys := ["metadata", "labels", key];
    assert keys[1..] == ["labels", key] && keys[1..][1..] == [key];
    assert AddAt(LabelNode(m), [key], Leaf(value)) == Some(LabelNode(m[key := value])) by {
      assert LabelNode(m).members[key := Leaf(value)] == LabelNode(m[key := value]).members;
    }
    hide LabelNode;
    var meta := WithLabels(d, m).members["metadata"];
    assert AddAt(meta, ["labels", key], Leaf(value)) ==
           Some(Node(meta.members["labels" := LabelNode(m[key := value])]));
    LabelsReplaced(d, m, m[key := value]);
  }

  lemma RemovedLabel(d: Document, m: LabelMap, key: string)
    requires HasMetadata(d)
    ensures RemoveAt(WithLabels(d, m), ["metadata", "labels", key]) ==
            if key in m then Some(WithLabels(d, m - {key})) else None
  {
    var keys := ["metadata", "labels", key];
    assert keys[1..] == ["labels", key] && keys[1..][1..] == [key];
    assert RemoveAt(LabelNode(m), [key]) == if key in m then Some(LabelNode(m - {key})) else None by {
      assert LabelNode(m).members - {key} == LabelNode(m - {key}).members;
    }
    hide LabelNode;
    var meta := WithLabels(d, m).members["metadata"];
    assert RemoveAt(meta, ["labels", key]) ==
           if key in m then Some(Node(meta.members["labels" := LabelNode(m - {key})])) else None;
    LabelsReplaced(d, m, m - {key});
  }

  /** Some patch removes a label that is not there when its turn comes. */
  ghost predicate RemovesMissing(m: LabelMap, patches: seq<Patch>) {
    exists k :: 0 <= k < |patches| && patches[k].op == "remove" && KeyOf(patches[k]) !in PatchAll(m, patches[..k])
  }

  ghost predicate AllNameLabels(patches: seq<Patch>) {
    forall p :: p in patches ==> (p.op == "add" || p.op == "remove") && exists raw :: NamesLabel(p, raw)
  }

  lemma OnePatchEvaluated(d: Document, m: LabelMap, p: Patch, raw: string)
    requires HasMetadata(d) && (p.op == "add" || p.op == "remove") && NamesLabel(p, raw)
    ensures ErrorOf(p) == []
    ensures Evaluate(WithLabels(d, m), p) ==
            if p.op == "remove" && KeyOf(p) !in m then None else Some(WithLabels(d, PatchOne(m, p)))
  {
    hide WithLabels, KeyPath, LabelOf, TrimPrefix, HasPrefix, AddAt, RemoveAt;
    NamedLabel(p, raw);
    RefusedPatches(p);
    AddedLabel(d, m, KeyOf(p), p.value);
    RemovedLabel(d, m, KeyOf(p));
  }

  lemma RemovesMissingMore(m: LabelMap, front: seq<Patch>, last: Patch)
    ensures RemovesMissing(m, front + [last]) <==>
            RemovesMissing(m, front) || (last.op == "remove" && KeyOf(last) !in PatchAll(m, front))
  {
    hide KeyOf, PatchAll;
    var all := front + [last];
    assert forall k :: 0 <= k < |front| ==> all[k] == front[k] && all[..k] == front[..k];
    assert all[..|front|] == front && all[|front|] == last;
    if RemovesMissing(m, front) {
      var k :| 0 <= k < |front| && front[k].op == "remove" && KeyOf(front[k]) !in PatchAll(m, front[..k]);
      assert all[k].op == "remove" && KeyOf(all[k]) !in PatchAll(m, all[..k]);
    }
    if last.op == "remove" && KeyOf(last) !in PatchAll(m, front) {
      assert all[|front|].op == "remove" && KeyOf(all[|front|]) !in PatchAll(m, all[..|front|]);
    }
  }

  /**
   Patches of labels are all supported, and the standard, evaluated on the cluster's whole document,
   changes its labels as the key map is changed and nothing else, unless a missing label is removed,
   which the standard refuses and the code does not.
   */
  lemma {:induction false} PatchesFollowStandard(d: Document, m: LabelMap, patches: seq<Patch>)
    requires HasMetadata(d) && AllNameLabels(patches)
    ensures Supported(patches)
    ensures EvaluateAll(WithLabels(d, m), patches) ==
            if RemovesMissing(m, patches) then None else Some(WithLabels(d, PatchAll(m, patches)))
    decreases |patches|
  {
    hide WithLabels, Evaluate, KeyOf, RemovesMissing, ErrorOf;
    if patches == [] {
      NothingMissing(m);
    } else {
      var front, last := patches[..|patches| - 1], patches[|patches| - 1];
      assert patches == front + [last];
      PatchesFollowStandard(d, m, front);
      assert last in patches;
      var raw :| NamesLabel(last, raw);
      OnePatchEvaluated(d, PatchAll(m, front), last, raw);
      RemovesMissingMore(m, front, last);
      assert forall i :: 0 <= i < |front| ==> patches[i] == front[i];
    }
  }

  lemma NothingMissing(m: LabelMap)
    ensures !RemovesMissing(m, [])
  {
  }
}
