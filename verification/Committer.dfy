/** Which transport offsets are committed, given the metadata of pending and processed bundles. */
module Committer {
  import opened Conflation

  ghost predicate HasPending(ts: set<Transport>, partition: int) {
    exists t :: t in ts && t.partition == partition && !t.processed
  }

  ghost predicate LowestPending(ts: set<Transport>, partition: int, offset: int) {
    && (exists t :: t in ts && t.partition == partition && !t.processed && t.offset == offset)
    && (forall t :: t in ts && t.partition == partition && !t.processed ==> offset <= t.offset)
  }

  ghost predicate HighestProcessed(ts: set<Transport>, partition: int, offset: int) {
    && (exists t :: t in ts && t.partition == partition && t.processed && t.offset == offset)
    && (forall t :: t in ts && t.partition == partition && t.processed ==> t.offset <= offset)
  }

  /** The offset to commit: the lowest pending one or else the one after the highest processed. */
  ghost predicate CommitPoint(ts: set<Transport>, partition: int, offset: int) {
    if HasPending(ts, partition) then LowestPending(ts, partition, offset)
    else HighestProcessed(ts, partition, offset - 1)
  }

  /** What a round of commits may do: some partitions move forward, to their commit point. */
  ghost predicate Advances(ts: set<Transport>, before: map<int, int>, after: map<int, int>) {
    && before.Keys <= after.Keys
    && forall p :: p in after ==>
      || (p in before && after[p] == before[p])
      || (CommitPoint(ts, p, after[p]) && (p in before ==> before[p] < after[p]))
  }

  /** An element of a set, whichever comes first. */
  method AnyOf<T(==)>(s: set<T>) returns (x: T)
    requires s != {}
    ensures x in s
  {
    x :| x in s;
  }

  /** Every partition has got at least to its commit point. */
  ghost predicate Reached(ts: set<Transport>, committed: map<int, int>) {
    forall p, o :: CommitPoint(ts, p, o) ==> p in committed && o <= committed[p]
  }

  class OffsetCommitter {
    var commitsMap: map<int, int>

    constructor ()
      ensures commitsMap == map[]
    {
      commitsMap := map[];
    }

    method FilterMetadataPerPartition(metadata: seq<Transport>)
      returns (pending: map<int, int>, processed: map<int, int>)
      ensures var ts := set t | t in metadata;
              && (forall p :: p in pending <==> HasPending(ts, p))
              && (forall p :: p in pending ==> LowestPending(ts, p, pending[p]))
              && (forall t :: t in ts && t.processed ==> t.partition in processed)
              && (forall p :: p in processed ==> HighestProcessed(ts, p, processed[p] - 1))
    {
      pending := map[];
      var highest: map<int, int> := map[];
      for k := 0 to |metadata|
        invariant forall t :: t in metadata[..k] && !t.processed ==>
                  t.partition in pending && pending[t.partition] <= t.offset
        invariant forall p :: p in pending ==>
          exists t :: t in metadata[..k] && t.partition == p && !t.processed && t.offset == pending[p]
        invariant forall t :: t in metadata[..k] && t.processed ==>
                  t.partition in highest && t.offset <= highest[t.partition]
        invariant forall p :: p in highest ==>
          exists t :: t in metadata[..k] && t.partition == p && t.processed && t.offset == highest[p]
      {
        var t := metadata[k];
        assert metadata[..k + 1] == metadata[..k] + [t];
        if !t.processed {
          if !(t.partition in pending && t.offset >= pending[t.partition]) {
            pending := pending[t.partition := t.offset];
          }
        } else {
          if !(t.partition in highest && t.offset <= highest[t.partition]) {
            highest := highest[t.partition := t.offset];
          }
        }
      }
      assert metadata[..|metadata|] == metadata;
      processed := AddOne(highest);
    }

    /** Processed offsets are incremented so that they are not read again. */
    static method AddOne(offsets: map<int, int>) returns (r: map<int, int>)
      ensures r.Keys == offsets.Keys && forall p :: p in offsets ==> r[p] == offsets[p] + 1
    {
      r := offsets;
      var rest: set<int> := offsets.Keys;
      while rest != {}
        invariant rest <= offsets.Keys && r.Keys == offsets.Keys
        invariant forall p :: p in offsets ==> r[p] == if p in rest then offsets[p] else offsets[p] + 1
      {
        var p := AnyOf(rest);
        r := r[p := r[p] + 1];
        rest := rest - {p};
      }
    }

    /** One round: a partition with both kinds gets the pending offset. The transport may refuse partitions. */
    method PeriodicCommit(metadata: seq<Transport>, refused: set<int>)
      modifies this
      ensures Advances((set t | t in metadata), old(commitsMap), commitsMap)
      ensures refused == {} ==> Reached((set t | t in metadata), commitsMap)
    {
      ghost var ts := set t | t in metadata;
      var pending, processed := FilterMetadataPerPartition(metadata);
      var offsets := processed + pending;
      assert forall p :: p in offsets ==> CommitPoint(ts, p, offsets[p]);
      CommitOffsets(offsets, refused);
      forall p, o | refused == {} && CommitPoint(ts, p, o)
        ensures p in commitsMap && o <= commitsMap[p]
      {
        assert p in offsets && offsets[p] == o;
      }
    }

    /** Commits partition by partition, in any order, until one is refused. */
    method CommitOffsets(offsets: map<int, int>, refused: set<int>)
      modifies this
      ensures old(commitsMap).Keys <= commitsMap.Keys
      ensures forall p :: p in commitsMap ==>
        || (p in old(commitsMap) && commitsMap[p] == old(commitsMap)[p])
        || (p in offsets && commitsMap[p] == offsets[p] && (p in old(commitsMap) ==> old(commitsMap)[p] < offsets[p]))
      ensures refused == {} ==> forall p :: p in offsets ==> p in commitsMap && offsets[p] <= commitsMap[p]
    {
      var rest: set<int> := offsets.Keys;
      while rest != {}
        invariant rest <= offsets.Keys
        invariant old(commitsMap).Keys <= commitsMap.Keys
        invariant forall p :: p in commitsMap ==>
          || (p in old(commitsMap) && commitsMap[p] == old(commitsMap)[p])
          || (p in offsets && p !in rest && commitsMap[p] == offsets[p]
              && (p in old(commitsMap) ==> old(commitsMap)[p] < offsets[p]))
        invariant forall p :: p in offsets && p !in rest ==> p in commitsMap && offsets[p] <= commitsMap[p]
      {
        var p := AnyOf(rest);
        if p in commitsMap && commitsMap[p] >= offsets[p] {
          rest := rest - {p};
          continue;
        }
        if p in refused {
          return;
        }
        commitsMap := commitsMap[p := offsets[p]];
        rest := rest - {p};
      }
    }
  }
}
