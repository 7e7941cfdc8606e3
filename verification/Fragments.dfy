/**
 Splitting a large payload into fragments, and collecting the fragments again.

 Sizes and offsets travel as 32-bit headers and are added in 32 bits.
 */
module Fragments {
  type Bytes = seq<bv8>

  const WORD := 0x1_0000_0000

  function Word(n: nat): nat { n % WORD }

  lemma WordOf(n: nat)
    requires n < WORD
    ensures Word(n) == n
  {
  }

  /** A fragment with its headers, as the consumer reads them. */
  datatype Fragment = Fragment(totalSize: nat, offset: nat, timestamp: int, bytes: Bytes)

  function Min(a: nat, b: nat): nat { if a < b then a else b }

  // ---------------------------------------------------------------- the producer

  /** How many chunks a payload is cut into, and where chunk `i` begins and ends. */
  function ChunkCount(size: nat, limit: nat): nat
    requires limit > 0
  {
    if size % limit == 0 then size / limit else size / limit + 1
  }

  function Start(i: nat, limit: nat): nat { i * limit }

  function ChunkSize(size: nat, limit: nat, i: nat): nat {
    if Start(i, limit) <= size then Min(limit, size - Start(i, limit)) else 0
  }

  /** Chunks of the limit's length, the rest in a last one. */
  predicate IsSplit(payload: Bytes, limit: nat, chunks: seq<Bytes>)
    requires limit > 0
  {
    && |chunks| == ChunkCount(|payload|, limit)
    && forall i :: 0 <= i < |chunks| ==> IsChunk(payload, limit, i, chunks[i])
  }

  predicate IsChunk(payload: Bytes, limit: nat, i: nat, chunk: Bytes) {
    && Start(i, limit) + ChunkSize(|payload|, limit, i) <= |payload|
    && chunk == payload[Start(i, limit)..][..ChunkSize(|payload|, limit, i)]
  }

  method SplitPayloadIntoChunks(payload: Bytes, limit: nat) returns (chunks: seq<Bytes>)
    requires limit > 0
    ensures IsSplit(payload, limit, chunks)
  {
    chunks := [];
    var rest := payload;
    while |rest| >= limit
      invariant Start(|chunks|, limit) <= |payload| && rest == payload[Start(|chunks|, limit)..]
      invariant forall i :: 0 <= i < |chunks| ==> IsChunk(payload, limit, i, chunks[i])
      decreases |rest|
    {
      NextStart(|chunks|, limit);
      assert IsChunk(payload, limit, |chunks|, rest[..limit]);
      chunks := chunks + [rest[..limit]];
      rest := rest[limit..];
    }
    CountIs(|payload|, limit, |chunks|);
    if |rest| > 0 {
      assert rest[..|rest|] == rest;
      assert IsChunk(payload, limit, |chunks|, rest);
      chunks := chunks + [rest];
    }
  }

  lemma NextStart(i: nat, limit: nat)
    ensures Start(i + 1, limit) == Start(i, limit) + limit
  {
  }

  lemma {:induction false} StartGrows(i: nat, j: nat, limit: nat)
    ensures i < j ==> Start(i, limit) + limit <= Start(j, limit)
    decreases j
  {
    if i + 1 < j {
      StartGrows(i, j - 1, limit);
      NextStart(j - 1, limit);
    } else if i + 1 == j {
      NextStart(i, limit);
    }
  }

  lemma Divided(size: nat, limit: nat)
    requires limit > 0
    ensures size == Start(size / limit, limit) + size % limit && size % limit < limit
  {
  }

  lemma CountIs(size: nat, limit: nat, whole: nat)
    requires limit > 0 && Start(whole, limit) <= size < Start(whole, limit) + limit
    ensures size / limit == whole && size % limit == size - Start(whole, limit)
  {
    Divided(size, limit);
    StartGrows(whole, size / limit, limit);
    StartGrows(size / limit, whole, limit);
    hide Start;
  }

  /** One message for a small payload; otherwise fragments with size, offset and time in the headers. */
  method GetMessageFragments(payload: Bytes, limit: nat, now: int) returns (whole: bool, fragments: seq<Fragment>)
    requires limit > 0
    ensures whole <==> |payload| <= limit
    ensures !whole ==> AreFragmentsOf(payload, limit, now, fragments)
  {
    fragments := [];
    whole := |payload| <= limit;
    if whole {
      return;
    }
    var chunks := SplitPayloadIntoChunks(payload, limit);
    for index := 0 to |chunks|
      invariant |fragments| == index
      invariant forall i :: 0 <= i < index ==> IsFragment(payload, limit, now, i, fragments[i])
    {
      assert IsChunk(payload, limit, index, chunks[index]);
      fragments := fragments + [Fragment(Word(|payload|), Word(index * limit), now, chunks[index])];
    }
  }

  predicate IsFragment(payload: Bytes, limit: nat, now: int, i: nat, f: Fragment) {
    && f.totalSize == Word(|payload|) && f.offset == Word(Start(i, limit)) && f.timestamp == now
    && IsChunk(payload, limit, i, f.bytes)
  }

  predicate AreFragmentsOf(payload: Bytes, limit: nat, now: int, fragments: seq<Fragment>)
    requires limit > 0
  {
    && |fragments| == ChunkCount(|payload|, limit)
    && forall i :: 0 <= i < |fragments| ==> IsFragment(payload, limit, now, i, fragments[i])
  }

  // ---------------------------------------------------------------- collecting

  /** What a collection has received: bytes by offset, and their total number. */
  datatype Collected = Collected(totalSize: nat, accumulated: nat, fragments: map<nat, Bytes>) {
    function Complete(): bool { totalSize == accumulated }
  }

  function Accepts(c: Collected, offset: nat, bytes: Bytes): bool {
    Word(offset + Word(|bytes|)) <= c.totalSize && offset !in c.fragments
  }

  /** A fragment out of bounds, or one whose offset is taken, is ignored. */
  function Add(c: Collected, offset: nat, bytes: Bytes): Collected {
    if Accepts(c, offset, bytes)
    then Collected(c.totalSize, Word(c.accumulated + Word(|bytes|)), c.fragments[offset := bytes])
    else c
  }

  /** The fragments with these indices delivered one after the other. */
  function Delivered(c: Collected, fragments: seq<Fragment>, order: seq<nat>): Collected
    requires forall k :: 0 <= k < |order| ==> order[k] < |fragments|
    decreases |order|
  {
    if order == [] then c
    else
      var before, f := Delivered(c, fragments, order[..|order| - 1]), fragments[order[|order| - 1]];
      Add(before, f.offset, f.bytes)
  }

  /** Total size of the chunks below `n` that have arrived. */
  function Arrived(size: nat, limit: nat, arrived: set<nat>, n: nat): nat {
    if n == 0 then 0
    else Arrived(size, limit, arrived, n - 1) + if n - 1 in arrived then ChunkSize(size, limit, n - 1) else 0
  }

  lemma {:induction false} OneMoreArrived(size: nat, limit: nat, arrived: set<nat>, i: nat, n: nat)
    requires i !in arrived
    ensures Arrived(size, limit, arrived + {i}, n) ==
            Arrived(size, limit, arrived, n) + if i < n then ChunkSize(size, limit, i) else 0
    decreases n
  {
    if n > 0 {
      OneMoreArrived(size, limit, arrived, i, n - 1);
    }
  }

  /** Everything below the bound arrived, up to that point all bytes; anything missing leaves less. */
  lemma {:induction false} AllArrivedIff(size: nat, limit: nat, arrived: set<nat>, n: nat)
    requires limit > 0
    requires forall i :: 0 <= i < n ==> Start(i, limit) < size
    ensures Arrived(size, limit, arrived, n) <= Min(Start(n, limit), size)
    ensures Arrived(size, limit, arrived, n) == Min(Start(n, limit), size) <==> forall i :: 0 <= i < n ==> i in arrived
    decreases n
  {
    if n > 0 {
      AllArrivedIff(size, limit, arrived, n - 1);
      NextStart(n - 1, limit);
    }
  }

  function Index(offset: nat, limit: nat): nat
    requires limit > 0
  {
    offset / limit
  }

  lemma IndexOfStart(i: nat, limit: nat)
    requires limit > 0
    ensures Index(Start(i, limit), limit) == i
  {
    CountIs(Start(i, limit), limit, i);
  }

  /** The offsets taken and the bytes counted are those of the fragments that arrived. */
  predicate Holds(c: Collected, payload: Bytes, limit: nat, arrived: set<nat>, n: nat)
    requires limit > 0
  {
    && c.totalSize == |payload| && c.accumulated == Arrived(|payload|, limit, arrived, n)
    && (forall i :: i in arrived ==> i < n && Start(i, limit) in c.fragments
                                     && IsChunk(payload, limit, i, c.fragments[Start(i, limit)]))
    && (forall o :: o in c.fragments ==> Index(o, limit) in arrived && o == Start(Index(o, limit), limit))
  }

  lemma StartsBelow(size: nat, limit: nat, i: nat)
    requires limit > 0 && i < ChunkCount(size, limit)
    ensures Start(i, limit) < size
  {
    Divided(size, limit);
    StartGrows(i, size / limit, limit);
    hide Start;
  }

  /** Without wrap-around a fragment in bounds is added, unless its offset is taken. */
  lemma AddInBounds(c: Collected, offset: nat, bytes: Bytes)
    requires offset + |bytes| <= c.totalSize < WORD
    ensures offset in c.fragments ==> Add(c, offset, bytes) == c
    ensures offset !in c.fragments && c.accumulated + |bytes| < WORD ==>
      Add(c, offset, bytes) == Collected(c.totalSize, c.accumulated + |bytes|, c.fragments[offset := bytes])
  {
  }

  lemma AddHolds(c: Collected, payload: Bytes, limit: nat, now: int, arrived: set<nat>, n: nat, i: nat, f: Fragment)
    requires limit > 0 && |payload| < WORD && n == ChunkCount(|payload|, limit) && i < n
    requires Holds(c, payload, limit, arrived, n) && IsFragment(payload, limit, now, i, f)
    ensures Holds(Add(c, f.offset, f.bytes), payload, limit, arrived + {i}, n)
  {
    StartsBelow(|payload|, limit, i);
    WordOf(Start(i, limit));
    AddInBounds(c, f.offset, f.bytes);
    IndexOfStart(i, limit);
    hide Word, Start, ChunkCount, Arrived, Index, Add;
    if i in arrived {
      assert arrived + {i} == arrived;
    } else {
      OneMoreArrived(|payload|, limit, arrived, i, n);
      ArrivedBounded(|payload|, limit, arrived + {i}, n);
      FragmentAdded(c, payload, limit, arrived, n, i, f.bytes);
    }
  }

  lemma FragmentAdded(c: Collected, payload: Bytes, limit: nat, arrived: set<nat>, n: nat, i: nat, bytes: Bytes)
    requires limit > 0 && Holds(c, payload, limit, arrived, n) && i < n && i !in arrived
    requires Start(i, limit) !in c.fragments
    requires IsChunk(payload, limit, i, bytes)
    ensures Holds(Collected(c.totalSize, Arrived(|payload|, limit, arrived + {i}, n),
                            c.fragments[Start(i, limit) := bytes]),
                  payload, limit, arrived + {i}, n)
  {
    IndexOfStart(i, limit);
    hide Start, Arrived, IsChunk, Index;
    var fragments := c.fragments[Start(i, limit) := bytes];
    forall j | j in arrived + {i}
      ensures Start(j, limit) in fragments && IsChunk(payload, limit, j, fragments[Start(j, limit)])
    {
      if j != i {
        assert j in arrived && Start(j, limit) in c.fragments;
      }
    }
  }

  lemma ArrivedBounded(size: nat, limit: nat, arrived: set<nat>, n: nat)
    requires limit > 0 && n == ChunkCount(size, limit)
    ensures Arrived(size, limit, arrived, n) <= size
  {
    forall i | 0 <= i < n
      ensures Start(i, limit) < size
    {
      StartsBelow(size, limit, i);
    }
    AllArrivedIff(size, limit, arrived, n);
  }

  // ---------------------------------------------------------------- assembling

  predicate Covers(c: Collected, offset: nat, x: nat) {
    offset in c.fragments && offset <= x < offset + |c.fragments[offset]|
  }

  /** Every byte comes from a fragment that covers its place, where there is one. */
  ghost predicate IsAssembly(c: Collected, buffer: Bytes) {
    && |buffer| == c.totalSize
    && (forall x :: 0 <= x < |buffer| && (exists o :: Covers(c, o, x)) ==>
          exists o :: Covers(c, o, x) && buffer[x] == c.fragments[o][x - o])
  }

  predicate InBounds(c: Collected) {
    forall o :: o in c.fragments ==> o + |c.fragments[o]| <= c.totalSize
  }

  function Indices(order: seq<nat>): set<nat> {
    set i | i in order
  }

  lemma {:induction false} DeliveredHolds(payload: Bytes, limit: nat, now: int, fragments: seq<Fragment>,
                                          order: seq<nat>)
    requires limit > 0 && |payload| < WORD && AreFragmentsOf(payload, limit, now, fragments)
    requires forall k :: 0 <= k < |order| ==> order[k] < |fragments|
    ensures Holds(Delivered(Collected(|payload|, 0, map[]), fragments, order), payload, limit,
                  Indices(order), |fragments|)
    decreases |order|
  {
    hide Holds, ChunkCount, IsFragment, Add;
    var empty := Collected(|payload|, 0, map[]);
    if order == [] {
      assert Indices(order) == {};
      NothingHeld(payload, limit, |fragments|);
    } else {
      var front, last := order[..|order| - 1], order[|order| - 1];
      DeliveredHolds(payload, limit, now, fragments, front);
      AddHolds(Delivered(empty, fragments, front), payload, limit, now, Indices(front), |fragments|, last,
               fragments[last]);
      assert Indices(order) == Indices(front) + {last};
    }
  }

  lemma {:induction false} NothingArrived(size: nat, limit: nat, n: nat)
    ensures Arrived(size, limit, {}, n) == 0
    decreases n
  {
    if n > 0 {
      NothingArrived(size, limit, n - 1);
    }
  }

  lemma NothingHeld(payload: Bytes, limit: nat, n: nat)
    requires limit > 0
    ensures Holds(Collected(|payload|, 0, map[]), payload, limit, {}, n)
  {
    NothingArrived(|payload|, limit, n);
  }

  lemma LastEnd(size: nat, limit: nat)
    requires limit > 0
    ensures size <= Start(ChunkCount(size, limit), limit)
    ensures forall x :: 0 <= x < size ==> x / limit < ChunkCount(size, limit)
  {
    Divided(size, limit);
    NextStart(size / limit, limit);
    forall x | 0 <= x < size
      ensures x / limit < ChunkCount(size, limit)
    {
      Divided(x, limit);
      StartGrows(ChunkCount(size, limit), x / limit, limit);
    }
    hide Start;
  }

  /** The place of a byte in its chunk. */
  lemma InItsChunk(payload: Bytes, limit: nat, x: nat)
    requires limit > 0 && x < |payload|
    ensures Start(x / limit, limit) <= x < Start(x / limit, limit) + ChunkSize(|payload|, limit, x / limit)
  {
    Divided(x, limit);
  }

  lemma InSomeChunk(size: nat, limit: nat, x: nat)
    requires limit > 0 && x < size
    ensures x / limit < ChunkCount(size, limit)
  {
    hide ChunkCount, Start;
    LastEnd(size, limit);
  }

  lemma SameSize(c: Collected, payload: Bytes, limit: nat, arrived: set<nat>, n: nat, buffer: Bytes)
    requires limit > 0 && Holds(c, payload, limit, arrived, n) && IsAssembly(c, buffer)
    ensures |buffer| == |payload|
  {
  }

  /** A complete collection assembles to the payload and to nothing else. */
  lemma CompleteAssembles(c: Collected, payload: Bytes, limit: nat, arrived: set<nat>, buffer: Bytes)
    requires limit > 0 && Holds(c, payload, limit, arrived, ChunkCount(|payload|, limit))
    requires forall i :: 0 <= i < ChunkCount(|payload|, limit) ==> i in arrived
    requires IsAssembly(c, buffer)
    ensures buffer == payload
  {
    hide Holds, IsAssembly, ChunkCount;
    SameSize(c, payload, limit, arrived, ChunkCount(|payload|, limit), buffer);
    forall x | 0 <= x < |payload|
      ensures buffer[x] == payload[x]
    {
      InSomeChunk(|payload|, limit, x);
      ByteAssembles(c, payload, limit, arrived, buffer, x);
    }
  }

  lemma ByteAssembles(c: Collected, payload: Bytes, limit: nat, arrived: set<nat>, buffer: Bytes, x: nat)
    requires limit > 0 && Holds(c, payload, limit, arrived, ChunkCount(|payload|, limit))
    requires x < |payload| && x / limit in arrived && IsAssembly(c, buffer)
    ensures buffer[x] == payload[x]
  {
    InItsChunk(payload, limit, x);
    assert IsChunk(payload, limit, x / limit, c.fragments[Start(x / limit, limit)]);
    hide Start, ChunkSize, ChunkCount;
    assert Covers(c, Start(x / limit, limit), x);
    var o :| Covers(c, o, x) && buffer[x] == c.fragments[o][x - o];
    var i := Index(o, limit);
    assert IsChunk(payload, limit, i, c.fragments[Start(i, limit)]);
  }

  /**
   Round trip: the fragments of a payload, delivered to one collection in any order and any number
   of times, complete it exactly when each of them was delivered; what it then assembles to is the
   payload. Nothing reaches out of bounds, and a collection is never complete with its first fragment.
   */
  lemma FragmentsRoundTrip(payload: Bytes, limit: nat, now: int, fragments: seq<Fragment>, order: seq<nat>)
    requires 0 < limit < |payload| < WORD && AreFragmentsOf(payload, limit, now, fragments)
    requires forall k :: 0 <= k < |order| ==> order[k] < |fragments|
    ensures var c := Delivered(Collected(Word(|payload|), 0, map[]), fragments, order);
            && (c.Complete() <==> forall i :: 0 <= i < |fragments| ==> i in order)
            && (c.Complete() ==> |order| > 1 && forall buffer :: IsAssembly(c, buffer) ==> buffer == payload)
            && InBounds(c)
  {
    hide Word, ChunkCount, IsFragment, Delivered, Holds, IsAssembly, InBounds, Collected.Complete, Indices;
    WordOf(|payload|);
    var arrived := Indices(order);
    var c := Delivered(Collected(|payload|, 0, map[]), fragments, order);
    DeliveredHolds(payload, limit, now, fragments, order);
    HoldsInBounds(c, payload, limit, arrived, |fragments|);
    CompleteIff(c, payload, limit, arrived);
    IndicesAre(order);
    if c.Complete() {
      AllDelivered(c, payload, limit, order);
    }
  }

  lemma IndicesAre(order: seq<nat>)
    ensures forall i :: i in Indices(order) <==> i in order
  {
  }

  lemma AllDelivered(c: Collected, payload: Bytes, limit: nat, order: seq<nat>)
    requires 0 < limit < |payload| && Holds(c, payload, limit, Indices(order), ChunkCount(|payload|, limit))
    requires forall i :: 0 <= i < ChunkCount(|payload|, limit) ==> i in order
    ensures |order| > 1 && forall buffer :: IsAssembly(c, buffer) ==> buffer == payload
  {
    hide ChunkCount, Holds, IsAssembly;
    TwoChunks(|payload|, limit);
    assert 0 in order && 1 in order;
    IndicesAre(order);
    forall buffer | IsAssembly(c, buffer)
      ensures buffer == payload
    {
      CompleteAssembles(c, payload, limit, Indices(order), buffer);
    }
  }

  lemma CompleteIff(c: Collected, payload: Bytes, limit: nat, arrived: set<nat>)
    requires limit > 0 && Holds(c, payload, limit, arrived, ChunkCount(|payload|, limit))
    ensures c.Complete() <==> forall i :: 0 <= i < ChunkCount(|payload|, limit) ==> i in arrived
  {
    var n := ChunkCount(|payload|, limit);
    forall i | 0 <= i < n
      ensures Start(i, limit) < |payload|
    {
      StartsBelow(|payload|, limit, i);
    }
    AllArrivedIff(|payload|, limit, arrived, n);
    LastEnd(|payload|, limit);
    hide ChunkCount, Start, Arrived;
  }

  lemma HoldsInBounds(c: Collected, payload: Bytes, limit: nat, arrived: set<nat>, n: nat)
    requires limit > 0 && Holds(c, payload, limit, arrived, n)
    ensures InBounds(c)
  {
    forall o | o in c.fragments
      ensures o + |c.fragments[o]| <= c.totalSize
    {
      var i := Index(o, limit);
      assert IsChunk(payload, limit, i, c.fragments[Start(i, limit)]);
    }
  }

  lemma TwoChunks(size: nat, limit: nat)
    requires 0 < limit < size
    ensures ChunkCount(size, limit) > 1
  {
    LastEnd(size, limit);
    StartGrows(ChunkCount(size, limit), 1, limit);
    NextStart(0, limit);
    NextStart(1, limit);
    Divided(size, limit);
  }
}
