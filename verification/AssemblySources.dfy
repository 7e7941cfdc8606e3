/**
 Where the parts of an assembled payload come from: fragments under one key and with one timestamp,
 and no collection gives way to an older one.
 */
module AssemblySources {
  import opened Fragments
  import opened MessageAssembly
  import opened Options

  /** A fragment that was read, of this place and timestamp, has these bytes at this offset. */
  predicate Read(inputs: seq<Input>, k: Place, timestamp: int, offset: nat, bytes: Bytes) {
    exists input :: input in inputs && Brings(input, k, timestamp, offset, bytes)
  }

  predicate Brings(input: Input, k: Place, timestamp: int, offset: nat, bytes: Bytes) {
    && input.FragmentOf? && input.info.message.partition == k.0 && input.info.key == k.1
    && input.info.fragment.timestamp == timestamp && input.info.fragment.offset == offset
    && input.info.fragment.bytes == bytes
  }

  predicate FromRead(c: Collection, inputs: seq<Input>, k: Place) {
    forall o :: o in c.collected.fragments ==> Read(inputs, k, c.timestamp, o, c.collected.fragments[o])
  }

  ghost predicate AllFromRead(a: Assembler, inputs: seq<Input>) {
    forall k :: k in a.open ==> FromRead(a.open[k], inputs, k)
  }

  lemma MoreWasRead(inputs: seq<Input>, input: Input, c: Collection, k: Place)
    requires FromRead(c, inputs, k)
    ensures FromRead(c, inputs + [input], k)
  {
    forall o | o in c.collected.fragments
      ensures Read(inputs + [input], k, c.timestamp, o, c.collected.fragments[o])
    {
      var source :| source in inputs && Brings(source, k, c.timestamp, o, c.collected.fragments[o]);
      assert source in inputs + [input];
    }
  }

  lemma AddedWasRead(c: Collection, inputs: seq<Input>, info: FragmentInfo)
    requires FromRead(c, inputs, info.Place()) && c.timestamp == info.fragment.timestamp
    ensures FromRead(AddTo(c, info), inputs + [FragmentOf(info)], info.Place())
  {
    var k, input := info.Place(), FragmentOf(info);
    MoreWasRead(inputs, input, c, k);
    assert input in inputs + [input] && Brings(input, k, c.timestamp, info.fragment.offset, info.fragment.bytes);
    hide Brings;
  }

  /** The collection that a completing fragment completes. */
  function CompletedBy(a: Assembler, info: FragmentInfo): Collection
    requires CaseOf(a, info) == Completed
  {
    AddTo(a.open[info.Place()], info)
  }

  lemma StepKeepsSources(a: Assembler, inputs: seq<Input>, input: Input)
    requires AllFromRead(a, inputs)
    ensures AllFromRead(Next(a, input), inputs + [input])
    ensures input.FragmentOf? && CaseOf(a, input.info) == Completed ==>
      FromRead(CompletedBy(a, input.info), inputs + [input], input.info.Place())
      && CompletedBy(a, input.info).timestamp == input.info.fragment.timestamp
  {
    hide FromRead, AddTo;
    forall k | k in a.open
      ensures FromRead(a.open[k], inputs + [input], k)
    {
      MoreWasRead(inputs, input, a.open[k], k);
    }
    if input.FragmentOf? {
      var info := input.info;
      KeepsTimestamp(a, info);
      if CaseOf(a, info) == Started {
        NothingCollected(inputs, info);
        AddedWasRead(NewCollection(info.fragment.totalSize, info.fragment.timestamp), inputs, info);
      } else if CaseOf(a, info) != Outdated {
        AddedWasRead(a.open[info.Place()], inputs, info);
      }
    }
    hide Taken;
  }

  lemma NothingCollected(inputs: seq<Input>, info: FragmentInfo)
    ensures FromRead(NewCollection(info.fragment.totalSize, info.fragment.timestamp), inputs, info.Place())
  {
  }

  lemma KeepsTimestamp(a: Assembler, info: FragmentInfo)
    ensures info.Place() in a.open ==> AddTo(a.open[info.Place()], info).timestamp == a.open[info.Place()].timestamp
  {
  }

  /** What was read by a run. */
  lemma {:induction false} EveryRunKeepsSources(a: Assembler, read: seq<Input>, inputs: seq<Input>)
    requires AllFromRead(a, read)
    ensures AllFromRead(Run(a, inputs), read + inputs)
    decreases |inputs|
  {
    if inputs == [] {
      assert read + inputs == read;
    } else {
      StepKeepsSources(a, read, inputs[0]);
      EveryRunKeepsSources(Next(a, inputs[0]), read + [inputs[0]], inputs[1..]);
      assert read + [inputs[0]] + inputs[1..] == read + inputs;
    }
  }

  /**
   Over every run from an empty assembler: a payload that is passed on consists of fragments that were
   read under its key, on its partition and with one timestamp, that of the last one.
   */
  lemma PayloadIsOfOneMessage(inputs: seq<Input>, info: FragmentInfo)
    requires CaseOf(Run(Assembler(map[], map[]), inputs), info) == Completed
    ensures var c := CompletedBy(Run(Assembler(map[], map[]), inputs), info);
            forall o :: o in c.collected.fragments ==>
              Read(inputs + [FragmentOf(info)], info.Place(), info.fragment.timestamp, o, c.collected.fragments[o])
  {
    var a := Run(Assembler(map[], map[]), inputs);
    EveryRunKeepsSources(Assembler(map[], map[]), [], inputs);
    assert [] + inputs == inputs;
    StepKeepsSources(a, inputs, FragmentOf(info));
    hide Run, Next, Read, CompletedBy;
  }

  /** A collection gives way only to a newer one, and a fragment older than its collection changes nothing. */
  lemma OlderFragmentsAreIgnored(a: Assembler, info: FragmentInfo)
    requires info.Place() in a.open
    ensures a.open[info.Place()].timestamp > info.fragment.timestamp ==>
            Next(a, FragmentOf(info)) == a && EmittedOffset(a, FragmentOf(info)) == None
    ensures var n := Next(a, FragmentOf(info));
            info.Place() in n.open ==>
              n.open[info.Place()].timestamp == if a.open[info.Place()].timestamp < info.fragment.timestamp
                                                then info.fragment.timestamp else a.open[info.Place()].timestamp
  {
    KeepsTimestamp(a, info);
    hide WithoutOffset;
    assert StartedBy(info).timestamp == info.fragment.timestamp;
  }
}
