/**
 The consumer's assembler as a value: open fragment collections per partition and key, and the
 lowest offset that may still be needed on each partition.
 */
module MessageAssembly {
  import opened Fragments
  import opened Options

  datatype KafkaMessage = KafkaMessage(partition: int, offset: int, value: Bytes)

  datatype FragmentInfo = FragmentInfo(key: string, fragment: Fragment, message: KafkaMessage) {
    function Place(): Place { (message.partition, key) }

    /** Within its own message, whose size fits the header. */
    predicate WellFormed() {
      message.offset >= 0 && fragment.offset + |fragment.bytes| <= fragment.totalSize < WORD
    }
  }

  type Place = (int, string)

  /** `offsets` are those of the messages whose fragments were added; it decides nothing. */
  datatype Collection = Collection(
    collected: Collected, timestamp: int, latest: Option<KafkaMessage>, highestOffset: int, lowestOffset: int,
    offsets: set<int>)

  function NewCollection(totalSize: nat, timestamp: int): Collection {
    Collection(Collected(totalSize, 0, map[]), timestamp, None, 0, -1, {})
  }

  function AddTo(c: Collection, info: FragmentInfo): Collection {
    if !Accepts(c.collected, info.fragment.offset, info.fragment.bytes) then c
    else
      var m := info.message;
      var newest := m.offset >= c.highestOffset;
      Collection(Add(c.collected, info.fragment.offset, info.fragment.bytes), c.timestamp,
                 if newest then Some(m) else c.latest, if newest then m.offset else c.highestOffset,
                 if c.lowestOffset == -1 || m.offset <= c.lowestOffset then m.offset else c.lowestOffset,
                 c.offsets + {m.offset})
  }

  datatype Assembler = Assembler(open: map<Place, Collection>, lowest: map<int, int>)

  /** The lowest offset among a partition's open collections. */
  ghost function LowestOpen(open: map<Place, Collection>, partition: int): (r: Option<int>)
    ensures r.None? <==> forall k :: k in open ==> k.0 != partition
    ensures r.Some? ==> (exists k :: k in open && k.0 == partition && open[k].lowestOffset == r.value)
                        && forall k :: k in open && k.0 == partition ==> r.value <= open[k].lowestOffset
    decreases |open|
  {
    if forall k :: k in open ==> k.0 != partition then None
    else
      var k :| k in open && k.0 == partition;
      assert |open - {k}| < |open| by {
        assert open.Keys == (open - {k}).Keys + {k};
      }
      var rest := LowestOpen(open - {k}, partition);
      if rest.None? || open[k].lowestOffset < rest.value then Some(open[k].lowestOffset) else rest
  }

  function WithOffset(lowest: map<int, int>, partition: int, offset: int): map<int, int> {
    if partition in lowest && offset >= lowest[partition] then lowest else lowest[partition := offset]
  }

  /** The partition's entry once the collection that held this offset is gone. */
  ghost function WithoutOffset(lowest: map<int, int>, open: map<Place, Collection>, partition: int, offset: int)
    : map<int, int>
  {
    if partition !in lowest || lowest[partition] != offset then lowest
    else
      var found := LowestOpen(open, partition);
      if found.None? || found.value < 0 then lowest - {partition} else lowest[partition := found.value]
  }

  function EntryOrZero(lowest: map<int, int>, partition: int): int {
    if partition in lowest then lowest[partition] else 0
  }

  // ---------------------------------------------------------------- one message

  datatype Case = Outdated | Started | Joined | Completed

  function CaseOf(a: Assembler, info: FragmentInfo): Case {
    var k := info.Place();
    if k in a.open && a.open[k].timestamp > info.fragment.timestamp then Outdated
    else if k !in a.open || a.open[k].timestamp < info.fragment.timestamp then Started
    else if AddTo(a.open[k], info).collected.Complete() then Completed
    else Joined
  }

  function StartedBy(info: FragmentInfo): Collection {
    AddTo(NewCollection(info.fragment.totalSize, info.fragment.timestamp), info)
  }

  ghost function Process(a: Assembler, info: FragmentInfo): Assembler {
    var k := info.Place();
    match CaseOf(a, info)
    case Outdated => a
    case Started => Assembler(a.open[k := StartedBy(info)], WithOffset(a.lowest, k.0, StartedBy(info).lowestOffset))
    case Joined => a.(open := a.open[k := AddTo(a.open[k], info)])
    case Completed => Taken(a, k, AddTo(a.open[k], info).lowestOffset)
  }

  /** A collection taken out, with the partition's entry if it was that of the collection. */
  ghost function Taken(a: Assembler, k: Place, lowestOffset: int): Assembler {
    var open := a.open - {k};
    Assembler(open, if EntryOrZero(a.lowest, k.0) != lowestOffset then a.lowest
                    else WithoutOffset(a.lowest, open, k.0, lowestOffset))
  }

  datatype Input = Plain(message: KafkaMessage) | FragmentOf(info: FragmentInfo) {
    function Message(): KafkaMessage { if Plain? then message else info.message }
  }

  ghost function Next(a: Assembler, input: Input): Assembler {
    if input.Plain? then a else Process(a, input.info)
  }

  /** The offset of the message passed on, if one is. */
  function EmittedOffset(a: Assembler, input: Input): Option<int> {
    var p := input.Message().partition;
    if input.Plain? then Some(if p in a.lowest then a.lowest[p] else input.message.offset)
    else if CaseOf(a, input.info) != Completed then None
    else
      var c := AddTo(a.open[input.info.Place()], input.info);
      Some(if EntryOrZero(a.lowest, p) != c.lowestOffset then EntryOrZero(a.lowest, p) else c.highestOffset)
  }

  // ---------------------------------------------------------------- the offset bound

  /** A collection's lowest offset is that of one of its fragments, and none is lower. */
  predicate Bounded(c: Collection) {
    && c.lowestOffset in c.offsets && c.lowestOffset >= 0
    && forall o :: o in c.offsets ==> c.lowestOffset <= o <= c.highestOffset
  }

  /** Every open collection's partition has an entry that is at most that collection's lowest offset. */
  ghost predicate Inv(a: Assembler, highest: map<int, int>) {
    && (forall k :: k in a.open ==>
          && Bounded(a.open[k])
          && k.0 in a.lowest && a.lowest[k.0] <= a.open[k].lowestOffset
          && k.0 in highest && a.open[k].highestOffset <= highest[k.0])
    && (forall p :: p in a.lowest ==> 0 <= a.lowest[p] && p in highest && a.lowest[p] <= highest[p])
    && (forall k, l :: k in a.open && l in a.open && k.0 == l.0 && k != l ==> a.open[k].offsets !! a.open[l].offsets)
  }

  /** Offsets of a partition increase from message to message. */
  predicate Arrives(highest: map<int, int>, input: Input) {
    var m := input.Message();
    && (m.partition in highest ==> highest[m.partition] < m.offset)
    && m.offset >= 0 && (input.FragmentOf? ==> input.info.WellFormed())
  }

  function Seen(highest: map<int, int>, input: Input): map<int, int> {
    highest[input.Message().partition := input.Message().offset]
  }

  lemma StartedIsBounded(info: FragmentInfo)
    requires info.WellFormed()
    ensures Bounded(StartedBy(info)) && StartedBy(info).offsets == {info.message.offset}
    ensures StartedBy(info).lowestOffset == StartedBy(info).highestOffset == info.message.offset
  {
  }

  lemma AddedIsBounded(c: Collection, info: FragmentInfo)
    requires Bounded(c) && c.highestOffset < info.message.offset
    ensures var r := AddTo(c, info);
            && Bounded(r) && r.lowestOffset == c.lowestOffset && r.highestOffset <= info.message.offset
            && c.offsets <= r.offsets <= c.offsets + {info.message.offset}
  {
  }

  /** A new offset is in no collection, so a collection that takes it stays apart from the others. */
  lemma PutStaysApart(a: Assembler, highest: map<int, int>, k: Place, c: Collection, o: int, l: Place)
    requires Inv(a, highest) && (k.0 in highest ==> highest[k.0] < o) && l in a.open && l != k && l.0 == k.0
    requires c.offsets <= (if k in a.open then a.open[k].offsets else {}) + {o}
    ensures c.offsets !! a.open[l].offsets
  {
    assert Bounded(a.open[l]);
    assert o !in a.open[l].offsets;
  }

  /** A collection put at its place, holding at most one new offset. */
  lemma PutKeepsInv(a: Assembler, highest: map<int, int>, k: Place, c: Collection, o: int, lowest: map<int, int>)
    requires Inv(a, highest) && o >= 0 && (k.0 in highest ==> highest[k.0] < o)
    requires Bounded(c) && c.highestOffset <= o
    requires c.offsets <= (if k in a.open then a.open[k].offsets else {}) + {o}
    requires lowest == WithOffset(a.lowest, k.0, c.lowestOffset)
    ensures Inv(Assembler(a.open[k := c], lowest), highest[k.0 := o])
  {
    assert c.lowestOffset in c.offsets && 0 <= c.lowestOffset <= o;
    hide Bounded;
    forall l | l in a.open && l != k && l.0 == k.0
      ensures c.offsets !! a.open[l].offsets
    {
      PutStaysApart(a, highest, k, c, o, l);
    }
  }

  lemma EntryAlreadyLower(a: Assembler, highest: map<int, int>, k: Place, c: Collection)
    requires Inv(a, highest) && k in a.open && c.lowestOffset == a.open[k].lowestOffset
    ensures WithOffset(a.lowest, k.0, c.lowestOffset) == a.lowest
  {
  }

  /** A collection taken away. */
  lemma RemoveKeepsInv(a: Assembler, highest: map<int, int>, k: Place)
    requires Inv(a, highest)
    ensures Inv(Assembler(a.open - {k}, a.lowest), highest)
  {
    var open := a.open - {k};
    assert forall l :: l in open ==> l in a.open && open[l] == a.open[l];
    hide Bounded;
  }

  lemma LowestOpenWasRead(a: Assembler, highest: map<int, int>, p: int)
    requires Inv(a, highest) && LowestOpen(a.open, p).Some?
    ensures p in highest && 0 <= LowestOpen(a.open, p).value <= highest[p]
  {
    hide LowestOpen;
    var l :| l in a.open && l.0 == p && a.open[l].lowestOffset == LowestOpen(a.open, p).value;
    assert Bounded(a.open[l]);
    assert a.open[l].lowestOffset in a.open[l].offsets;
  }

  lemma RecomputedKeepsInv(a: Assembler, highest: map<int, int>, p: int, offset: int)
    requires Inv(a, highest)
    ensures Inv(Assembler(a.open, WithoutOffset(a.lowest, a.open, p, offset)), highest)
  {
    hide Bounded, LowestOpen;
    if LowestOpen(a.open, p).Some? {
      LowestOpenWasRead(a, highest, p);
    }
  }

  lemma SeeMore(a: Assembler, highest: map<int, int>, p: int, o: int)
    requires Inv(a, highest) && o >= 0 && (p in highest ==> highest[p] < o)
    ensures Inv(a, highest[p := o])
  {
  }

  lemma StepKeepsInv(a: Assembler, highest: map<int, int>, input: Input)
    requires Inv(a, highest) && Arrives(highest, input)
    ensures Inv(Next(a, input), Seen(highest, input))
  {
    SeeMore(a, highest, input.Message().partition, input.Message().offset);
    if input.FragmentOf? {
      var info := input.info;
      var k, o := info.Place(), info.message.offset;
      match CaseOf(a, info)
      case Outdated =>
      case Started =>
        StartedIsBounded(info);
        hide Inv, StartedBy, WithOffset;
        PutKeepsInv(a, highest, k, StartedBy(info), o, WithOffset(a.lowest, k.0, StartedBy(info).lowestOffset));
      case Joined =>
        AddedIsBounded(a.open[k], info);
        EntryAlreadyLower(a, highest, k, AddTo(a.open[k], info));
        PutKeepsInv(a, highest, k, AddTo(a.open[k], info), o, a.lowest);
        hide Inv, AddTo, WithOffset;
      case Completed =>
        SeeMore(a, highest, k.0, o);
        RemoveKeepsInv(a, highest[k.0 := o], k);
        RecomputedKeepsInv(Assembler(a.open - {k}, a.lowest), highest[k.0 := o], k.0,
                           AddTo(a.open[k], info).lowestOffset);
        hide Inv, AddTo, WithoutOffset;
    }
  }

  // ---------------------------------------------------------------- emitted offsets

  /** No fragment of an open collection lies below this offset of the partition. */
  ghost predicate BelowOpen(a: Assembler, partition: int, offset: int) {
    forall k, o :: k in a.open && k.0 == partition && o in a.open[k].offsets ==> offset <= o
  }

  /** A whole message is passed on with an offset that no open fragment is below. */
  lemma PlainMessagesStayBelow(a: Assembler, highest: map<int, int>, message: KafkaMessage)
    requires Inv(a, highest) && Arrives(highest, Plain(message))
    ensures EmittedOffset(a, Plain(message)).value <= message.offset
    ensures BelowOpen(a, message.partition, EmittedOffset(a, Plain(message)).value)
  {
    assert forall k :: k in a.open ==> Bounded(a.open[k]);
  }

  /**
   An assembled message is passed on with an offset that no fragment still open is below exactly
   when its collection did not hold the partition's lowest offset, or ended before all others began.
   */
  lemma AssembledMessageStaysBelowIff(a: Assembler, highest: map<int, int>, info: FragmentInfo)
    requires Inv(a, highest) && Arrives(highest, FragmentOf(info)) && CaseOf(a, info) == Completed
    ensures var c, k := AddTo(a.open[info.Place()], info), info.Place();
            BelowOpen(Next(a, FragmentOf(info)), k.0, EmittedOffset(a, FragmentOf(info)).value) <==>
            || a.lowest[k.0] != c.lowestOffset
            || forall l :: l in a.open && l.0 == k.0 && l != k ==> c.highestOffset <= a.open[l].lowestOffset
  {
    var k := info.Place();
    var c := AddTo(a.open[k], info);
    AddedIsBounded(a.open[k], info);
    hide AddTo;
    var open := Next(a, FragmentOf(info)).open;
    forall l | l in open && l.0 == k.0
      ensures Bounded(open[l]) && a.lowest[k.0] <= open[l].lowestOffset
    {
      assert l in a.open;
    }
    if BelowOpen(Next(a, FragmentOf(info)), k.0, c.highestOffset) {
      forall l | l in a.open && l.0 == k.0 && l != k
        ensures c.highestOffset <= a.open[l].lowestOffset
      {
        assert l in open && a.open[l].lowestOffset in open[l].offsets;
      }
    }
  }

  /** The only fragment that a message can add to what is open is its own. */
  lemma NextOffsets(a: Assembler, input: Input, k: Place, o: int)
    requires k in Next(a, input).open && o in Next(a, input).open[k].offsets
    ensures (k in a.open && o in a.open[k].offsets) || (k.0 == input.Message().partition && o == input.Message().offset)
  {
    hide LowestOpen, WithOffset;
  }

  /** What is passed on has an offset that was read, and comes from a message read no later. */
  lemma EmittedWasRead(a: Assembler, highest: map<int, int>, input: Input)
    requires Inv(a, highest) && Arrives(highest, input) && EmittedOffset(a, input).Some?
    ensures EmittedOffset(a, input).value <= input.Message().offset
    ensures input.FragmentOf? ==>
      input.info.Place() in a.open && a.open[input.info.Place()].lowestOffset <= input.Message().offset
  {
    if input.Plain? {
      PlainMessagesStayBelow(a, highest, input.message);
    } else {
      AddedIsBounded(a.open[input.info.Place()], input.info);
      assert Bounded(a.open[input.info.Place()]);
      hide AddTo;
    }
  }

  /**
   The committer adds one to the offset of a processed message: for a whole message that passes an
   open fragment exactly when the entry is an open collection's lowest offset.
   */
  lemma CommittingPassesOpenIff(a: Assembler, highest: map<int, int>, message: KafkaMessage)
    requires Inv(a, highest) && Arrives(highest, Plain(message))
    ensures BelowOpen(a, message.partition, EmittedOffset(a, Plain(message)).value + 1) <==>
            (message.partition in a.lowest ==>
               forall k :: k in a.open && k.0 == message.partition ==>
                 a.open[k].lowestOffset != a.lowest[message.partition])
  {
    var p := message.partition;
    assert forall k :: k in a.open ==> Bounded(a.open[k]);
    if BelowOpen(a, p, EmittedOffset(a, Plain(message)).value + 1) && p in a.lowest {
      forall k | k in a.open && k.0 == p
        ensures a.open[k].lowestOffset != a.lowest[p]
      {
        assert a.open[k].lowestOffset in a.open[k].offsets;
      }
    }
  }

  // ---------------------------------------------------------------- entries that outlive their collection

  /** The entry of a partition is the lowest offset of an open collection, if it has an entry. */
  ghost predicate Tight(a: Assembler, partition: int) {
    partition in a.lowest ==>
      exists k :: k in a.open && k.0 == partition && a.open[k].lowestOffset == a.lowest[partition]
  }

  /** The fragment replaces the collection that holds the partition's lowest offset. */
  predicate Supersedes(a: Assembler, input: Input) {
    && input.FragmentOf? && CaseOf(a, input.info) == Started
    && input.info.Place() in a.open
    && EntryOrZero(a.lowest, input.info.Place().0) == a.open[input.info.Place()].lowestOffset
  }

  lemma SharedOffset(a: Assembler, highest: map<int, int>, k: Place, l: Place)
    requires Inv(a, highest) && k in a.open && l in a.open && k.0 == l.0
    requires a.open[k].lowestOffset == a.open[l].lowestOffset
    ensures k == l
  {
    assert Bounded(a.open[k]) && Bounded(a.open[l]);
    assert a.open[k].lowestOffset in a.open[k].offsets && a.open[k].lowestOffset in a.open[l].offsets;
  }

  lemma StartedTightIff(a: Assembler, highest: map<int, int>, info: FragmentInfo)
    requires Inv(a, highest) && Arrives(highest, FragmentOf(info)) && CaseOf(a, info) == Started
    requires Tight(a, info.Place().0)
    ensures Tight(Next(a, FragmentOf(info)), info.Place().0) <==> !Supersedes(a, FragmentOf(info))
  {
    var k, c := info.Place(), StartedBy(info);
    StartedIsBounded(info);
    hide StartedBy;
    var n := Next(a, FragmentOf(info));
    assert n.open == a.open[k := c];
    if k.0 !in a.lowest {
      assert n.open[k].lowestOffset == n.lowest[k.0];
    } else {
      assert n.lowest == a.lowest;
      var w :| w in a.open && w.0 == k.0 && a.open[w].lowestOffset == a.lowest[k.0];
      if Supersedes(a, FragmentOf(info)) {
        SharedOffset(a, highest, w, k);
        forall l | l in n.open && l.0 == k.0
          ensures n.open[l].lowestOffset != n.lowest[k.0]
        {
          if l != k && a.open[l].lowestOffset == a.lowest[k.0] {
            SharedOffset(a, highest, l, k);
          }
        }
      } else {
        assert w != k && n.open[w] == a.open[w];
      }
    }
  }

  /** Starting from an entry that is an open collection's offset, only superseding that collection loses it. */
  lemma StepKeepsTightIff(a: Assembler, highest: map<int, int>, input: Input)
    requires Inv(a, highest) && Arrives(highest, input) && Tight(a, input.Message().partition)
    ensures Tight(Next(a, input), input.Message().partition) <==> !Supersedes(a, input)
  {
    if input.FragmentOf? {
      var info := input.info;
      var k := info.Place();
      match CaseOf(a, info)
      case Outdated =>
      case Started => StartedTightIff(a, highest, info);
      case Joined => JoinedTight(a, highest, info);
      case Completed => CompletedTight(a, highest, info);
    }
  }

  lemma JoinedTight(a: Assembler, highest: map<int, int>, info: FragmentInfo)
    requires Inv(a, highest) && Arrives(highest, FragmentOf(info)) && Tight(a, info.Place().0)
    requires CaseOf(a, info) == Joined
    ensures Tight(Next(a, FragmentOf(info)), info.Place().0)
  {
    var k, n := info.Place(), Next(a, FragmentOf(info));
    AddedIsBounded(a.open[k], info);
    hide AddTo;
    var w :| w in a.open && w.0 == k.0 && a.open[w].lowestOffset == a.lowest[k.0];
    assert n.open[w].lowestOffset == a.open[w].lowestOffset;
  }

  lemma CompletedTight(a: Assembler, highest: map<int, int>, info: FragmentInfo)
    requires Inv(a, highest) && Arrives(highest, FragmentOf(info)) && Tight(a, info.Place().0)
    requires CaseOf(a, info) == Completed
    ensures Tight(Next(a, FragmentOf(info)), info.Place().0)
  {
    var k, n := info.Place(), Next(a, FragmentOf(info));
    AddedIsBounded(a.open[k], info);
    hide AddTo;
    if a.lowest[k.0] != a.open[k].lowestOffset {
      var w :| w in a.open && w.0 == k.0 && a.open[w].lowestOffset == a.lowest[k.0];
      assert w in n.open && n.open[w] == a.open[w];
    } else {
      var found := LowestOpen(n.open, k.0);
      if found.Some? {
        var l :| l in n.open && l.0 == k.0 && n.open[l].lowestOffset == found.value;
        assert l in a.open && Bounded(a.open[l]);
      }
    }
  }

  /** The entry is below every open collection. */
  ghost predicate Stale(a: Assembler, partition: int) {
    && partition in a.lowest
    && forall k :: k in a.open && k.0 == partition ==> a.lowest[partition] < a.open[k].lowestOffset
  }

  lemma UntightIsStale(a: Assembler, highest: map<int, int>, partition: int)
    requires Inv(a, highest) && !Tight(a, partition)
    ensures Stale(a, partition)
  {
  }

  ghost function Run(a: Assembler, inputs: seq<Input>): Assembler
    decreases |inputs|
  {
    if inputs == [] then a else Run(Next(a, inputs[0]), inputs[1..])
  }

  ghost predicate RunArrives(highest: map<int, int>, inputs: seq<Input>)
    decreases |inputs|
  {
    inputs == [] || (Arrives(highest, inputs[0]) && RunArrives(Seen(highest, inputs[0]), inputs[1..]))
  }

  /** The offsets passed on for one partition. */
  ghost function EmittedOffsets(a: Assembler, inputs: seq<Input>, partition: int): seq<int>
    decreases |inputs|
  {
    if inputs == [] then []
    else
      var emitted := EmittedOffset(a, inputs[0]);
      (if inputs[0].Message().partition == partition && emitted.Some? then [emitted.value] else [])
      + EmittedOffsets(Next(a, inputs[0]), inputs[1..], partition)
  }

  function AllSeen(highest: map<int, int>, inputs: seq<Input>): map<int, int>
    decreases |inputs|
  {
    if inputs == [] then highest else AllSeen(Seen(highest, inputs[0]), inputs[1..])
  }

  /** Over every run the entries stay at or below all open collections. */
  lemma {:induction false} EveryRunKeepsInv(a: Assembler, highest: map<int, int>, inputs: seq<Input>)
    requires Inv(a, highest) && RunArrives(highest, inputs)
    ensures Inv(Run(a, inputs), AllSeen(highest, inputs))
    decreases |inputs|
  {
    if inputs != [] {
      StepKeepsInv(a, highest, inputs[0]);
      EveryRunKeepsInv(Next(a, inputs[0]), Seen(highest, inputs[0]), inputs[1..]);
    }
  }

  lemma StepKeepsStale(a: Assembler, highest: map<int, int>, input: Input, partition: int)
    requires Inv(a, highest) && Arrives(highest, input) && Stale(a, partition)
    ensures var n := Next(a, input); Stale(n, partition) && n.lowest[partition] == a.lowest[partition]
    ensures input.Message().partition == partition && EmittedOffset(a, input).Some? ==>
      EmittedOffset(a, input).value == a.lowest[partition]
  {
    if input.FragmentOf? {
      var info := input.info;
      var k := info.Place();
      match CaseOf(a, info)
      case Outdated =>
      case Started =>
        StartedIsBounded(info);
        hide StartedBy;
      case Joined =>
        AddedIsBounded(a.open[k], info);
        hide AddTo;
      case Completed =>
        AddedIsBounded(a.open[k], info);
        hide AddTo;
    }
  }

  /** Once an entry outlived its collection, every later message of the partition carries its offset. */
  lemma {:induction false} StaleForever(a: Assembler, highest: map<int, int>, inputs: seq<Input>, partition: int)
    requires Inv(a, highest) && RunArrives(highest, inputs) && Stale(a, partition)
    ensures Stale(Run(a, inputs), partition) && Run(a, inputs).lowest[partition] == a.lowest[partition]
    ensures forall o :: o in EmittedOffsets(a, inputs, partition) ==> o == a.lowest[partition]
    decreases |inputs|
  {
    if inputs != [] {
      StepKeepsStale(a, highest, inputs[0], partition);
      StepKeepsInv(a, highest, inputs[0]);
      StaleForever(Next(a, inputs[0]), Seen(highest, inputs[0]), inputs[1..], partition);
      hide Next, Inv;
    }
  }
}
