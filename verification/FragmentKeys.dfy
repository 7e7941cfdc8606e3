/**
 Which fragments share a collection. The producer gives every fragment of a payload its own key,
 the consumer groups fragments by their whole key.
 */
module FragmentKeys {
  import opened Fragments
  import opened MessageAssembly
  import opened Options

  // ---------------------------------------------------------------- the producer's keys

  const DIGITS := "0123456789"

  function Decimal(n: nat): string {
    if n < 10 then [DIGITS[n]] else Decimal(n / 10) + [DIGITS[n % 10]]
  }

  /** The key of fragment `index`: the message's key, an underscore and the index. */
  function FragmentKey(key: string, index: nat): string {
    key + "_" + Decimal(index)
  }

  /** The number that a string ends with. */
  function EndingNumber(s: string): nat
    decreases |s|
  {
    if s == [] || !('0' <= s[|s| - 1] <= '9') then 0
    else EndingNumber(s[..|s| - 1]) * 10 + (s[|s| - 1] as int - '0' as int)
  }

  lemma DigitIs(n: nat)
    requires n < 10
    ensures '0' <= DIGITS[n] <= '9' && DIGITS[n] as int - '0' as int == n
  {
  }

  lemma {:induction false} KeyTellsIndex(key: string, index: nat)
    ensures EndingNumber(key + "_" + Decimal(index)) == index
    decreases index
  {
    var s := key + "_" + Decimal(index);
    DigitIs(index % 10);
    if index < 10 {
      assert s[..|s| - 1] == key + "_";
      assert EndingNumber(key + "_") == 0;
    } else {
      KeyTellsIndex(key, index / 10);
      assert s[..|s| - 1] == key + "_" + Decimal(index / 10);
    }
  }

  // ---------------------------------------------------------------- what a producer sends

  /** A fragment as the producer sends it: its own chunk of a payload above the limit, under its own key. */
  ghost predicate Produced(info: FragmentInfo, limit: nat)
    requires limit > 0
  {
    exists payload: Bytes, key: string, index: nat :: ProducedFrom(info, limit, payload, key, index)
  }

  predicate ProducedFrom(info: FragmentInfo, limit: nat, payload: Bytes, key: string, index: nat)
    requires limit > 0
  {
    && limit < |payload| < WORD && index < ChunkCount(|payload|, limit)
    && IsFragment(payload, limit, info.fragment.timestamp, index, info.fragment)
    && info.key == FragmentKey(key, index)
  }

  /** What matters of it: the key tells its offset, and it is shorter than the whole. */
  lemma ProducedIsPart(info: FragmentInfo, limit: nat)
    requires limit > 0 && Produced(info, limit)
    ensures info.fragment.offset == Start(EndingNumber(info.key), limit)
    ensures |info.fragment.bytes| < info.fragment.totalSize < WORD
    ensures info.fragment.offset + |info.fragment.bytes| <= info.fragment.totalSize
  {
    var payload: Bytes, key: string, index: nat :| ProducedFrom(info, limit, payload, key, index);
    KeyTellsIndex(key, index);
    StartsBelow(|payload|, limit, index);
    WordOf(|payload|);
    WordOf(Start(index, limit));
    hide ChunkCount, Start, Word, EndingNumber, Decimal;
  }

  ghost predicate AllProduced(inputs: seq<Input>, limit: nat)
    requires limit > 0
  {
    forall i :: 0 <= i < |inputs| && inputs[i].FragmentOf? ==> Produced(inputs[i].info, limit)
  }

  /** A collection holds at most the one fragment that its key names, and is not complete. */
  predicate HoldsOne(key: string, c: Collection, limit: nat) {
    var one := Start(EndingNumber(key), limit);
    && (forall o :: o in c.collected.fragments ==> o == one)
    && (one !in c.collected.fragments ==> c.collected.accumulated == 0)
    && c.collected.accumulated < c.collected.totalSize
    && (one in c.collected.fragments)
  }

  ghost predicate NeverComplete(a: Assembler, limit: nat) {
    forall k :: k in a.open ==> HoldsOne(k.1, a.open[k], limit)
  }

  lemma StartedHoldsOne(info: FragmentInfo, limit: nat)
    requires limit > 0 && Produced(info, limit)
    ensures HoldsOne(info.key, StartedBy(info), limit)
  {
    ProducedIsPart(info, limit);
    var c := NewCollection(info.fragment.totalSize, info.fragment.timestamp).collected;
    AddInBounds(c, info.fragment.offset, info.fragment.bytes);
    AcceptsInBounds(c, info.fragment.offset, info.fragment.bytes);
    hide Word, Start, EndingNumber, Add, Fragments.Accepts;
  }

  lemma AcceptsInBounds(c: Collected, offset: nat, bytes: Bytes)
    requires offset + |bytes| <= c.totalSize < WORD && offset !in c.fragments
    ensures Fragments.Accepts(c, offset, bytes)
  {
  }

  lemma JoinedHoldsOne(c: Collection, info: FragmentInfo, limit: nat)
    requires limit > 0 && Produced(info, limit) && HoldsOne(info.key, c, limit)
    ensures AddTo(c, info) == c
  {
    ProducedIsPart(info, limit);
    hide Word, Start, EndingNumber, Add;
  }

  lemma StepNeverCompletes(a: Assembler, input: Input, limit: nat)
    requires limit > 0 && NeverComplete(a, limit) && (input.FragmentOf? ==> Produced(input.info, limit))
    ensures NeverComplete(Next(a, input), limit)
    ensures input.FragmentOf? ==> CaseOf(a, input.info) != Completed && EmittedOffset(a, input).None?
  {
    if input.FragmentOf? {
      var info := input.info;
      var k := info.Place();
      StartedHoldsOne(info, limit);
      if k in a.open {
        JoinedHoldsOne(a.open[k], info, limit);
      }
      hide Produced, AddTo, StartedBy, EndingNumber, Start;
    }
  }

  /**
   Over every run of messages as producers send them, with repetitions and in any order, no
   collection is ever complete: no payload above the limit is passed on.
   */
  lemma {:induction false} ProducedPayloadsAreNeverAssembled(a: Assembler, inputs: seq<Input>, limit: nat)
    requires limit > 0 && NeverComplete(a, limit) && AllProduced(inputs, limit)
    ensures NeverComplete(Run(a, inputs), limit)
    ensures forall i :: 0 <= i < |inputs| && inputs[i].FragmentOf? ==>
            EmittedOffset(Run(a, inputs[..i]), inputs[i]).None?
    decreases |inputs|
  {
    if inputs != [] {
      var n := Next(a, inputs[0]);
      StepNeverCompletes(a, inputs[0], limit);
      assert forall i :: 0 <= i < |inputs[1..]| ==> inputs[1..][i] == inputs[i + 1];
      ProducedPayloadsAreNeverAssembled(n, inputs[1..], limit);
      forall i | 0 <= i < |inputs| && inputs[i].FragmentOf?
        ensures EmittedOffset(Run(a, inputs[..i]), inputs[i]).None?
      {
        if i == 0 {
          assert inputs[..0] == [];
        } else {
          assert inputs[..i][1..] == inputs[1..][..i - 1] && inputs[..i][0] == inputs[0];
          assert inputs[1..][i - 1] == inputs[i];
        }
      }
      hide NeverComplete, Next, Produced;
    }
  }

  // ---------------------------------------------------------------- if fragments shared a key

  /** The fragments of one payload under one key, delivered in this order, possibly repeatedly. */
  predicate Shared(inputs: seq<Input>, place: Place, payload: Bytes, limit: nat, now: int,
                   fragments: seq<Fragment>, order: seq<nat>)
    requires limit > 0
  {
    && limit < |payload| < WORD && AreFragmentsOf(payload, limit, now, fragments)
    && |order| == |inputs| && (forall k :: 0 <= k < |order| ==> order[k] < |fragments|)
    && forall k :: 0 <= k < |inputs| ==>
         inputs[k].FragmentOf? && inputs[k].info.Place() == place && inputs[k].info.fragment == fragments[order[k]]
  }

  /** No collection of this or a newer fragmentation is open at the place. */
  predicate Free(a: Assembler, place: Place, now: int) {
    place in a.open ==> a.open[place].timestamp < now
  }

  function Collecting(payload: Bytes, fragments: seq<Fragment>, order: seq<nat>): Collected
    requires forall k :: 0 <= k < |order| ==> order[k] < |fragments|
  {
    Delivered(Collected(Word(|payload|), 0, map[]), fragments, order)
  }

  predicate AllIn(n: nat, order: seq<nat>) {
    forall i :: 0 <= i < n ==> i in order
  }

  lemma {:induction false} RunSnoc(a: Assembler, inputs: seq<Input>, last: Input)
    ensures Run(a, inputs + [last]) == Next(Run(a, inputs), last)
    decreases |inputs|
  {
    if inputs == [] {
      assert ([] + [last])[1..] == [];
    } else {
      assert (inputs + [last])[1..] == inputs[1..] + [last];
      RunSnoc(Next(a, inputs[0]), inputs[1..], last);
    }
    hide Next;
  }

  lemma CompleteIfAllIn(payload: Bytes, limit: nat, now: int, fragments: seq<Fragment>, order: seq<nat>)
    requires 0 < limit < |payload| < WORD && AreFragmentsOf(payload, limit, now, fragments)
    requires forall k :: 0 <= k < |order| ==> order[k] < |fragments|
    ensures Collecting(payload, fragments, order).Complete() <==> AllIn(|fragments|, order)
    ensures AllIn(|fragments|, order) ==> |order| > 1
  {
    FragmentsRoundTrip(payload, limit, now, fragments, order);
    hide AreFragmentsOf, Delivered, InBounds, IsAssembly, Collected.Complete;
  }

  lemma DeliveredSnoc(payload: Bytes, fragments: seq<Fragment>, order: seq<nat>, i: nat)
    requires (forall k :: 0 <= k < |order| ==> order[k] < |fragments|) && i < |fragments|
    ensures Collecting(payload, fragments, order + [i]) ==
            Add(Collecting(payload, fragments, order), fragments[i].offset, fragments[i].bytes)
  {
    assert (order + [i])[..|order|] == order;
    hide Add;
  }

  lemma AddToCollects(c: Collection, info: FragmentInfo)
    ensures AddTo(c, info).collected == Add(c.collected, info.fragment.offset, info.fragment.bytes)
    ensures AddTo(c, info).timestamp == c.timestamp
  {
  }

  /** Until all have come, the collection at the place holds exactly what was delivered. */
  lemma {:induction false} SharedKeyCollects(a: Assembler, inputs: seq<Input>, place: Place, payload: Bytes, limit: nat,
                                             now: int, fragments: seq<Fragment>, order: seq<nat>)
    requires limit > 0 && Shared(inputs, place, payload, limit, now, fragments, order) && Free(a, place, now)
    requires inputs != [] && !AllIn(|fragments|, order)
    ensures var r := Run(a, inputs);
            && place in r.open && r.open[place].timestamp == now
            && r.open[place].collected == Collecting(payload, fragments, order)
    decreases |inputs|
  {
    hide AddTo, Add, Delivered, IsFragment, Run, WithOffset, WithoutOffset;
    var n := |inputs| - 1;
    var front, last := inputs[..n], inputs[n];
    assert inputs == front + [last] && order == order[..n] + [order[n]];
    RunSnoc(a, front, last);
    DeliveredSnoc(payload, fragments, order[..n], order[n]);
    CompleteIfAllIn(payload, limit, now, fragments, order);
    FragmentHeader(payload, limit, now, fragments, order[n]);
    var info := last.info;
    if n == 0 {
      RunFromNothing(a);
      assert front == [] && order[..0] == [];
      NothingDelivered(payload, fragments);
      AddToCollects(NewCollection(info.fragment.totalSize, info.fragment.timestamp), info);
    } else {
      SharedKeyCollects(a, front, place, payload, limit, now, fragments, order[..n]);
      AddToCollects(Run(a, front).open[place], info);
    }
  }

  lemma FragmentHeader(payload: Bytes, limit: nat, now: int, fragments: seq<Fragment>, i: nat)
    requires limit > 0 && AreFragmentsOf(payload, limit, now, fragments) && i < |fragments|
    ensures fragments[i].totalSize == Word(|payload|) && fragments[i].timestamp == now
  {
    assert IsFragment(payload, limit, now, i, fragments[i]);
  }

  lemma NothingDelivered(payload: Bytes, fragments: seq<Fragment>)
    ensures Collecting(payload, fragments, []) == Collected(Word(|payload|), 0, map[])
  {
  }

  lemma RunFromNothing(a: Assembler)
    ensures Run(a, []) == a
  {
  }

  /**
   The condition that the producer's keys do not meet: if the fragments of a payload share a key,
   then, from the second on, the message that brings the last missing one and no other is passed on.
   */
  lemma SharedKeyIsAssembledIff(a: Assembler, inputs: seq<Input>, place: Place, payload: Bytes, limit: nat, now: int,
                                fragments: seq<Fragment>, order: seq<nat>, n: nat)
    requires limit > 0 && Shared(inputs, place, payload, limit, now, fragments, order) && Free(a, place, now)
    requires 0 < n < |inputs| && !AllIn(|fragments|, order[..n])
    ensures EmittedOffset(Run(a, inputs[..n]), inputs[n]).Some? <==> AllIn(|fragments|, order[..n + 1])
    ensures AllIn(|fragments|, order[..n + 1]) ==>
      var c := AddTo(Run(a, inputs[..n]).open[place], inputs[n].info).collected;
      forall buffer :: IsAssembly(c, buffer) ==> buffer == payload
  {
    SharedKeyCollects(a, inputs[..n], place, payload, limit, now, fragments, order[..n]);
    var r, info := Run(a, inputs[..n]), inputs[n].info;
    assert order[..n + 1] == order[..n] + [order[n]];
    DeliveredSnoc(payload, fragments, order[..n], order[n]);
    AddToCollects(r.open[place], info);
    CompleteIfAllIn(payload, limit, now, fragments, order[..n + 1]);
    FragmentsRoundTrip(payload, limit, now, fragments, order[..n + 1]);
    assert IsFragment(payload, limit, now, order[n], fragments[order[n]]);
    hide AddTo, Add, Delivered, IsFragment, AreFragmentsOf, Run, IsAssembly;
  }
}
