/**
 The handler of patch requests: read the row, merge, write if nobody else did, and try again a
 number of times. What other writers do between reading and writing is given from outside.
 */
module LabelPatches {
  import opened Compliance
  import opened LabelRace
  import opened Labels
  import opened Options

  /** The row of one cluster; `history` records the writes. */
  class LabelsTable {
    var row: Option<LabelRow>
    ghost var history: seq<Write>

    constructor ()
      ensures Valid() && row.None? && history == []
    {
      row, history := None, [];
    }

    ghost predicate Valid()
      reads this
    {
      && row == Replay(history)
      && (row.None? ==> history == [])
      && (row.Some? ==> row.value.version + 1 == |history|)
    }

    method Record(w: Write)
      requires Valid() && (w.TrimmedBy? ==> row.Some?)
      modifies this
      ensures Valid() && history == old(history) + [w]
    {
      HistorySnoc(history, w);
      row := Written(row, w);
      history := history + [w];
    }

    /** Other writers; a trimmer finds nothing to trim while there is no row. */
    method Interfere(others: seq<Write>)
      requires Valid()
      modifies this
      ensures Valid() && |old(history)| <= |history| && history[..|old(history)|] == old(history)
      ensures forall k :: |old(history)| <= k < |history| ==> history[k] in others
      ensures others == [] ==> history == old(history)
    {
      for k := 0 to |others|
        invariant Valid() && |old(history)| <= |history| && history[..|old(history)|] == old(history)
        invariant forall j :: |old(history)| <= j < |history| ==> history[j] in others
        invariant k == 0 ==> history == old(history)
      {
        if others[k].PatchedBy? || row.Some? {
          Record(others[k]);
        }
      }
    }
  }

  /** The elements in no particular order. */
  method GetKeys(keys: set<string>) returns (r: seq<string>)
    ensures Elements(r) == keys && Distinct(r)
  {
    r := [];
    var left := keys;
    while left != {}
      invariant left <= keys && Elements(r) == keys - left && Distinct(r)
      decreases left
    {
      var key :| key in left;
      assert key !in Elements(r);
      DistinctSnoc(r, key);
      r := r + [key];
      left := left - {key};
    }
  }

  /** What a request adds to the history: others' writes, and its own last if it succeeded. */
  ghost predicate Attempted(before: seq<Write>, after: seq<Write>, client: int, request: Change, ok: bool) {
    && |before| <= |after| && after[..|before|] == before
    && if ok && !Empty(request)
       then |before| < |after| && after[|after| - 1] == PatchedBy(client, request)
            && forall k :: |before| <= k < |after| - 1 ==> !IsBy(after[k], client)
       else forall k :: |before| <= k < |after| ==> !IsBy(after[k], client)
  }

  predicate IsBy(w: Write, client: int) {
    w.PatchedBy? && w.client == client
  }

  predicate NoneBy(writes: seq<Write>, client: int) {
    forall w :: w in writes ==> !IsBy(w, client)
  }

  /** What an attempt meets: writes of others between reading and writing, and errors of the database. */
  datatype Trouble = Trouble(others: seq<Write>, readFails: bool, writeFails: bool) {
    predicate None() { others == [] && !readFails && !writeFails }
  }

  /** One attempt; it fails only if another writer came in between or the database failed. */
  method UpdateLabels(table: LabelsTable, client: int, request: Change, trouble: Trouble) returns (ok: bool)
    requires table.Valid() && NoneBy(trouble.others, client)
    modifies table
    ensures table.Valid() && Attempted(old(table.history), table.history, client, request, ok)
    ensures trouble.None() ==> ok
  {
    if |request.labels| == 0 && |request.deleted| == 0 {
      return true;
    }
    if trouble.readFails {
      return false;
    }
    var snapshot := table.row;
    table.Interfere(trouble.others);
    if trouble.writeFails {
      return false; // before it takes effect
    }
    if snapshot.None? {
      if table.row.Some? {
        return false; // the INSERT violates the key
      }
    } else {
      var currentRemoved := GetKeys(snapshot.value.change.deleted);
      var labels, removed := MergeRow(request.labels, snapshot.value.change.labels, request.deleted, currentRemoved);
      if table.row.value.version != snapshot.value.version {
        return false; // no row is affected
      }
      SameVersionSameRow(table.history, old(table.history));
      assert Change(labels, removed) == Merged(table.row.value.change, request);
    }
    table.Record(PatchedBy(client, request));
    return true;
  }

  lemma SameVersionSameRow(history: seq<Write>, before: seq<Write>)
    requires |history| == |before| && history[..|before|] == before
    ensures history == before
  {
    assert history[..|before|] == history;
  }

  /**
   A patch request with its retries. It takes effect at most once, exactly once if it reports
   success, and it fails only if every attempt was overtaken by another writer or met an error.
   */
  method PatchLabels(table: LabelsTable, client: int, request: Change, attempts: nat, troubles: seq<Trouble>)
    returns (ok: bool)
    requires table.Valid() && attempts > 0 && |troubles| == attempts
    requires forall k :: 0 <= k < attempts ==> NoneBy(troubles[k].others, client)
    modifies table
    ensures table.Valid() && Attempted(old(table.history), table.history, client, request, ok)
    ensures !ok ==> forall k :: 0 <= k < attempts ==> !troubles[k].None()
  {
    ok := false;
    var retryAttempts := attempts;
    while retryAttempts > 0
      invariant retryAttempts <= attempts && !ok
      invariant table.Valid() && Attempted(old(table.history), table.history, client, request, false)
      invariant forall k :: 0 <= k < attempts - retryAttempts ==> !troubles[k].None()
    {
      ok := UpdateLabels(table, client, request, troubles[attempts - retryAttempts]);
      if ok {
        break;
      }
      retryAttempts := retryAttempts - 1;
    }
  }
}
