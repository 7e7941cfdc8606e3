/**
 The consumer's fragment collections and assembler, updated in place. Every method is proved
 to perform the corresponding change of modules Fragments and MessageAssembly.
 */
module MessageAssembler {
  import opened Fragments
  import opened Maps
  import opened MessageAssembly
  import opened Options

  class MessageFragmentsCollection {
    const totalMessageSize: nat
    const fragmentationTimestamp: int
    var accumulatedFragmentsSize: nat
    var messageFragments: map<nat, Bytes>
    var latestKafkaMessage: Option<KafkaMessage>
    var highestOffset: int
    var lowestOffset: int
    ghost var offsets: set<int>

    constructor (size: nat, timestamp: int)
      ensures Value() == NewCollection(size, timestamp) && Valid()
    {
      totalMessageSize, fragmentationTimestamp := size, timestamp;
      accumulatedFragmentsSize, messageFragments := 0, map[];
      latestKafkaMessage, highestOffset, lowestOffset := None, 0, -1;
      offsets := {};
    }

    ghost function Value(): Collection
      reads this
    {
      Collection(Collected(totalMessageSize, accumulatedFragmentsSize, messageFragments), fragmentationTimestamp,
                 latestKafkaMessage, highestOffset, lowestOffset, offsets)
    }

    ghost predicate Valid()
      reads this
    {
      InBounds(Collected(totalMessageSize, accumulatedFragmentsSize, messageFragments))
    }

    method Add(info: FragmentInfo)
      requires Valid() && info.WellFormed()
      modifies this
      ensures Valid() && Value() == AddTo(old(Value()), info)
    {
      var offset, bytes := info.fragment.offset, info.fragment.bytes;
      if Word(offset + Word(|bytes|)) > totalMessageSize {
        return; // reaches out of the message
      }
      if offset in messageFragments {
        return; // delivered before
      }
      messageFragments := messageFragments[offset := bytes];
      accumulatedFragmentsSize := Word(accumulatedFragmentsSize + Word(|bytes|));
      if info.message.offset >= highestOffset {
        latestKafkaMessage := Some(info.message);
        highestOffset := info.message.offset;
      }
      if lowestOffset == -1 || info.message.offset <= lowestOffset {
        lowestOffset := info.message.offset;
      }
      offsets := offsets + {info.message.offset};
    }

    /** Copies the fragments to their places, in no particular order, and lets go of them. */
    method Assemble() returns (assembled: Option<Bytes>)
      requires Valid()
      modifies this`messageFragments
      ensures Valid()
      ensures assembled.Some? <==> totalMessageSize == accumulatedFragmentsSize
      ensures assembled.Some? ==> IsAssembly(old(Value()).collected, assembled.value)
    {
      if totalMessageSize != accumulatedFragmentsSize {
        return None;
      }
      ghost var c := Value().collected;
      var buffer := new bv8[totalMessageSize];
      var left := messageFragments.Keys;
      while left != {}
        invariant left <= messageFragments.Keys && c == Value().collected
        invariant forall x :: 0 <= x < buffer.Length && (exists o :: o !in left && Covers(c, o, x)) ==>
          exists o :: Covers(c, o, x) && buffer[x] == c.fragments[o][x - o]
        decreases left
      {
        var offset :| offset in left;
        ghost var before := buffer[..];
        Copy(buffer, offset, messageFragments[offset]);
        forall x | 0 <= x < buffer.Length && exists o :: o !in left - {offset} && Covers(c, o, x)
          ensures exists o :: Covers(c, o, x) && buffer[x] == c.fragments[o][x - o]
        {
          if offset <= x < offset + |messageFragments[offset]| {
            assert Covers(c, offset, x) && buffer[x] == c.fragments[offset][x - offset];
          } else {
            assert buffer[x] == before[x];
          }
        }
        left := left - {offset};
      }
      messageFragments := map o | o in messageFragments :: [];
      return Some(buffer[..]);
    }
  }

  method Copy(buffer: array<bv8>, offset: nat, bytes: Bytes)
    requires offset + |bytes| <= buffer.Length
    modifies buffer
    ensures forall x :: 0 <= x < buffer.Length ==>
      buffer[x] == if offset <= x < offset + |bytes| then bytes[x - offset] else old(buffer[x])
  {
    for j := 0 to |bytes|
      invariant forall x :: 0 <= x < buffer.Length ==>
        buffer[x] == if offset <= x < offset + j then bytes[x - offset] else old(buffer[x])
    {
      buffer[offset + j] := bytes[j];
    }
  }

  /** The message with the highest offset is kept, and is of the collection's partition. */
  predicate HasLatest(c: Collection, partition: int) {
    c.latest.Some? && c.latest.value.offset == c.highestOffset && c.latest.value.partition == partition
  }

  lemma AddKeepsLatest(c: Collection, info: FragmentInfo)
    requires HasLatest(c, info.message.partition)
    ensures HasLatest(AddTo(c, info), info.message.partition)
  {
  }

  lemma StartHasLatest(info: FragmentInfo)
    requires info.WellFormed()
    ensures HasLatest(StartedBy(info), info.message.partition)
  {
  }

  lemma TakenAfterPut(a: Assembler, k: Place, c: Collection)
    ensures Taken(a.(open := a.open[k := c]), k, c.lowestOffset) == Taken(a, k, c.lowestOffset)
  {
    assert a.open[k := c] - {k} == a.open - {k};
    hide WithoutOffset;
  }

  class KafkaMessageAssembler {
    var collections: map<Place, MessageFragmentsCollection>
    var partitionLowestOffset: map<int, int>

    constructor ()
      ensures Valid() && Value() == Assembler(map[], map[]) && fresh(collections.Values)
    {
      collections, partitionLowestOffset := map[], map[];
    }

    ghost predicate Valid()
      reads this`collections, collections.Values
    {
      && Injective(collections)
      && forall k :: k in collections ==> collections[k].Valid() && HasLatest(collections[k].Value(), k.0)
    }

    ghost function Open(): map<Place, Collection>
      reads this`collections, collections.Values
    {
      map k | k in collections :: collections[k].Value()
    }

    ghost function Value(): Assembler
      reads this, collections.Values
    {
      Assembler(Open(), partitionLowestOffset)
    }

    /** Returns the assembled message if this fragment completes one. */
    method ProcessFragmentInfo(info: FragmentInfo) returns (message: Option<KafkaMessage>)
      requires Valid() && info.WellFormed()
      modifies this, collections.Values
      ensures Valid() && fresh(collections.Values - old(collections.Values))
      ensures Value() == Process(old(Value()), info)
      ensures message.Some? <==> CaseOf(old(Value()), info) == Completed
      ensures message.Some? ==>
        && Some(message.value.offset) == EmittedOffset(old(Value()), FragmentOf(info))
        && message.value.partition == info.message.partition
        && IsAssembly(AddTo(old(Value()).open[info.Place()], info).collected, message.value.value)
    {
      hide InBounds, AddTo, WithOffset, Taken, IsAssembly;
      var place := info.Place();
      if place in collections && collections[place].fragmentationTimestamp > info.fragment.timestamp {
        return None; // outdated
      }
      if place !in collections || collections[place].fragmentationTimestamp < info.fragment.timestamp {
        StartCollection(info);
        return None;
      }
      ghost var before, c := Value(), AddTo(collections[place].Value(), info);
      JoinCollection(info);
      TakenAfterPut(before, place, c);
      var collection := collections[place];
      if collection.totalMessageSize == collection.accumulatedFragmentsSize {
        message := AssembleCollection(place);
      } else {
        message := None;
      }
    }

    method StartCollection(info: FragmentInfo)
      requires Valid() && info.WellFormed()
      modifies this
      ensures Valid() && fresh(collections.Values - old(collections.Values))
      ensures Value() == Assembler(old(Open())[info.Place() := StartedBy(info)],
                                   WithOffset(old(partitionLowestOffset), info.message.partition,
                                              StartedBy(info).lowestOffset))
    {
      hide InBounds, HasLatest, AddTo, WithOffset, Valid, Open;
      StartHasLatest(info);
      var created := new MessageFragmentsCollection(info.fragment.totalSize, info.fragment.timestamp);
      created.Add(info);
      PutCollection(info.Place(), created);
      AddOffsetToPartition(info.message.partition, created.lowestOffset);
    }

    method PutCollection(place: Place, collection: MessageFragmentsCollection)
      requires Valid() && collection !in collections.Values && collection.Valid()
      requires HasLatest(collection.Value(), place.0)
      modifies this`collections
      ensures Valid() && collections == old(collections)[place := collection]
      ensures Open() == old(Open())[place := collection.Value()]
    {
      hide InBounds, HasLatest;
      assert forall k :: k in collections ==> collections[k] in collections.Values;
      collections := collections[place := collection];
    }

    method RemoveCollection(place: Place)
      requires Valid()
      modifies this`collections
      ensures Valid() && collections == old(collections) - {place}
      ensures Open() == old(Open()) - {place}
    {
      hide InBounds, HasLatest;
      collections := collections - {place};
    }

    method JoinCollection(info: FragmentInfo)
      requires Valid() && info.WellFormed() && info.Place() in collections
      modifies collections.Values
      ensures Valid() && Open() == old(Open())[info.Place() := AddTo(old(Open())[info.Place()], info)]
    {
      hide InBounds, AddTo, HasLatest;
      var collection := collections[info.Place()];
      AddKeepsLatest(collection.Value(), info);
      collection.Add(info);
      assert forall k :: k in collections && k != info.Place() ==> collections[k] != collection;
    }

    /** The latest message takes the whole value, and an offset that is safe with respect to older collections. */
    method AssembleCollection(place: Place) returns (message: Option<KafkaMessage>)
      requires Valid() && place in collections
      requires collections[place].totalMessageSize == collections[place].accumulatedFragmentsSize
      modifies this, collections[place]
      ensures Valid() && collections == old(collections) - {place}
      ensures var c := old(Open())[place];
              && Value() == Taken(old(Value()), place, c.lowestOffset)
              && message.Some? && message.value.partition == place.0
              && message.value.offset == (if EntryOrZero(old(partitionLowestOffset), place.0) != c.lowestOffset
                                          then EntryOrZero(old(partitionLowestOffset), place.0)
                                          else c.latest.value.offset)
              && IsAssembly(c.collected, message.value.value)
    {
      hide InBounds, IsAssembly, Taken;
      var collection := collections[place];
      assert Open()[place] == collection.Value();
      hide Open;
      var latest, lowestOffset := collection.latestKafkaMessage.value, collection.lowestOffset;
      ghost var before := Value();
      var value := AssembleAt(place);
      TakenAfterPut(before, place, collection.Value());
      var lowest := if place.0 in partitionLowestOffset then partitionLowestOffset[place.0] else 0;
      TakeOut(place, lowestOffset);
      message := Some(KafkaMessage(latest.partition, if lowest != lowestOffset then lowest else latest.offset, value));
    }

    /** Removes the collection, and its offset if that is the partition's lowest. */
    method TakeOut(place: Place, lowestOffset: int)
      requires Valid() && place in collections
      modifies this
      ensures Valid() && collections == old(collections) - {place}
      ensures Value() == Taken(old(Value()), place, lowestOffset)
    {
      hide InBounds, HasLatest, WithoutOffset;
      var lowest := if place.0 in partitionLowestOffset then partitionLowestOffset[place.0] else 0;
      RemoveCollection(place);
      hide Open;
      if lowest == lowestOffset {
        DeleteOffsetOnPartition(place.0, lowestOffset);
      }
    }

    method AssembleAt(place: Place) returns (value: Bytes)
      requires Valid() && place in collections
      requires collections[place].totalMessageSize == collections[place].accumulatedFragmentsSize
      modifies collections[place]
      ensures collections[place].lowestOffset == old(collections[place].lowestOffset)
      ensures Valid() && IsAssembly(old(Open())[place].collected, value)
      ensures Open() == old(Open())[place := collections[place].Value()]
    {
      hide IsAssembly;
      var assembled := collections[place].Assemble();
      value := assembled.value;
      assert collections[place].Valid();
      assert HasLatest(collections[place].Value(), place.0);
      assert forall k :: k in collections && k != place ==> collections[k] != collections[place];
    }

    /** A whole message takes the entry of its partition as offset, if there is one. */
    method FixMessageOffset(message: KafkaMessage) returns (fixed: KafkaMessage)
      ensures fixed == message.(offset := EmittedOffset(Value(), Plain(message)).value)
    {
      if message.partition !in partitionLowestOffset {
        return message;
      }
      return message.(offset := partitionLowestOffset[message.partition]);
    }

    method AddOffsetToPartition(partition: int, offset: int)
      modifies this`partitionLowestOffset
      ensures partitionLowestOffset == WithOffset(old(partitionLowestOffset), partition, offset)
    {
      if partition in partitionLowestOffset && offset >= partitionLowestOffset[partition] {
        return;
      }
      partitionLowestOffset := partitionLowestOffset[partition := offset];
    }

    method DeleteOffsetOnPartition(partition: int, offset: int)
      modifies this`partitionLowestOffset
      ensures partitionLowestOffset == WithoutOffset(old(partitionLowestOffset), Open(), partition, offset)
    {
      hide LowestOpen, Open;
      if partition !in partitionLowestOffset || offset != partitionLowestOffset[partition] {
        return;
      }
      var found := FindLowestOffsetOnPartition(partition);
      if found.None? || found.value < 0 {
        partitionLowestOffset := partitionLowestOffset - {partition};
      } else {
        partitionLowestOffset := partitionLowestOffset[partition := found.value];
      }
    }

    method FindLowestOffsetOnPartition(partition: int) returns (lowest: Option<int>)
      ensures lowest == LowestOpen(Open(), partition)
    {
      lowest := None;
      var left := collections.Keys;
      while left != {}
        invariant left <= collections.Keys
        invariant lowest.None? ==> forall k :: k in collections && k !in left ==> k.0 != partition
        invariant lowest.Some? ==>
          && (exists k :: k in collections && k.0 == partition && collections[k].lowestOffset == lowest.value)
          && forall k :: k in collections && k !in left && k.0 == partition ==>
               lowest.value <= collections[k].lowestOffset
        decreases left
      {
        var k :| k in left;
        if k.0 == partition && (lowest.None? || collections[k].lowestOffset < lowest.value) {
          lowest := Some(collections[k].lowestOffset);
        }
        left := left - {k};
      }
      ghost var open := Open();
      assert forall k :: k in open <==> k in collections;
      assert forall k :: k in open ==> open[k].lowestOffset == collections[k].lowestOffset;
    }
  }
}
