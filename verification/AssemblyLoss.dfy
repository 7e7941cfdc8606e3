/**
 Concrete runs of the assembler with a wrong offset: a superseded collection leaves its entry
 behind, and an assembled message is passed on above an open fragment.
 */
module AssemblyLoss {
  import opened Fragments
  import opened MessageAssembly
  import opened Options

  const EMPTY := Assembler(map[], map[])
  const KEY := "k"
  const OTHER := "m"

  /** A half of a payload of two bytes. */
  function Half(key: string, index: nat, timestamp: int, offset: nat): FragmentInfo {
    FragmentInfo(key, Fragment(2, index, timestamp, [0]), KafkaMessage(0, offset, []))
  }

  /** The collection that holds a first half only. */
  function OneHalf(timestamp: int, offset: nat): Collection {
    Collection(Collected(2, 1, map[0 := [0]]), timestamp, Some(KafkaMessage(0, offset, [])), offset, offset, {offset})
  }

  const ONE_OPEN := Assembler(map[(0, KEY) := OneHalf(1, 5)], map[0 := 5])
  const NEWER_OPEN := Assembler(map[(0, KEY) := OneHalf(2, 6)], map[0 := 5])
  const TWO_OPEN := Assembler(map[(0, KEY) := OneHalf(1, 5), (0, OTHER) := OneHalf(1, 6)], map[0 := 5])

  lemma FirstHalfOpens(a: Assembler, key: string, timestamp: int, offset: nat)
    requires (0, key) in a.open ==> a.open[(0, key)].timestamp < timestamp
    ensures var info := Half(key, 0, timestamp, offset);
            && CaseOf(a, info) == Started && StartedBy(info) == OneHalf(timestamp, offset)
            && Next(a, FragmentOf(info)) ==
               Assembler(a.open[(0, key) := OneHalf(timestamp, offset)], WithOffset(a.lowest, 0, offset))
  {
  }

  lemma RunOfTwo(a: Assembler, x: Input, y: Input)
    ensures Run(a, [x, y]) == Next(Next(a, x), y)
  {
    assert [x, y][1..] == [y];
    assert Run(Next(a, x), [y]) == Run(Next(Next(a, x), y), []);
  }

  /** Messages of partition 0 arrive at increasing offsets. */
  lemma {:induction false} OffsetsArrive(highest: map<int, int>, inputs: seq<Input>)
    requires forall i :: 0 <= i < |inputs| ==> Arrives(map[], inputs[i]) && inputs[i].Message().partition == 0
    requires forall i, j :: 0 <= i < j < |inputs| ==> inputs[i].Message().offset < inputs[j].Message().offset
    requires 0 in highest && inputs != [] ==> highest[0] < inputs[0].Message().offset
    ensures RunArrives(highest, inputs)
    decreases |inputs|
  {
    if inputs != [] {
      OffsetsArrive(Seen(highest, inputs[0]), inputs[1..]);
    }
  }

  /** The payload is produced again before its second half is read. */
  const SUPERSEDING_RUN: seq<Input> := [FragmentOf(Half(KEY, 0, 1, 5)), FragmentOf(Half(KEY, 0, 2, 6))]

  /** Only the message at 6 is still needed, and the partition's entry is 5. */
  lemma SupersededEntryStays()
    ensures RunArrives(map[], SUPERSEDING_RUN) && Run(EMPTY, SUPERSEDING_RUN) == NEWER_OPEN
    ensures Supersedes(ONE_OPEN, SUPERSEDING_RUN[1]) && Tight(ONE_OPEN, 0) && !Tight(NEWER_OPEN, 0)
    ensures forall k, o :: k in NEWER_OPEN.open && o in NEWER_OPEN.open[k].offsets ==> o == 6
  {
    FirstHalfOpens(EMPTY, KEY, 1, 5);
    FirstHalfOpens(ONE_OPEN, KEY, 2, 6);
    RunOfTwo(EMPTY, SUPERSEDING_RUN[0], SUPERSEDING_RUN[1]);
    OffsetsArrive(map[], SUPERSEDING_RUN);
    assert ONE_OPEN.open[(0, KEY)].lowestOffset == ONE_OPEN.lowest[0];
    hide Next, StartedBy, Run, RunArrives;
  }

  /** Between the halves of one payload the first half of another one is read. */
  const OVERTAKING_RUN: seq<Input> := [FragmentOf(Half(KEY, 0, 1, 5)), FragmentOf(Half(OTHER, 0, 1, 6))]

  lemma SecondHalfCompletes()
    ensures var info := Half(KEY, 1, 1, 7);
            && info.WellFormed() && CaseOf(TWO_OPEN, info) == Completed
            && EmittedOffset(TWO_OPEN, FragmentOf(info)) == Some(7)
            && Next(TWO_OPEN, FragmentOf(info)).open == map[(0, OTHER) := OneHalf(1, 6)]
  {
    var c := AddTo(TWO_OPEN.open[(0, KEY)], Half(KEY, 1, 1, 7));
    assert c.lowestOffset == 5 && c.highestOffset == 7;
    hide WithoutOffset;
  }

  /** The payload is passed on as 7 while the fragment at 6 is open. */
  lemma AssembledAboveAnOpenFragment()
    ensures RunArrives(map[], OVERTAKING_RUN + [FragmentOf(Half(KEY, 1, 1, 7))])
    ensures Run(EMPTY, OVERTAKING_RUN) == TWO_OPEN
    ensures var last := FragmentOf(Half(KEY, 1, 1, 7));
            && EmittedOffset(TWO_OPEN, last) == Some(7) && 6 in Next(TWO_OPEN, last).open[(0, OTHER)].offsets
            && !BelowOpen(Next(TWO_OPEN, last), 0, 7)
  {
    FirstHalfOpens(EMPTY, KEY, 1, 5);
    assert KEY != OTHER;
    FirstHalfOpens(ONE_OPEN, OTHER, 1, 6);
    RunOfTwo(EMPTY, OVERTAKING_RUN[0], OVERTAKING_RUN[1]);
    SecondHalfCompletes();
    OffsetsArrive(map[], OVERTAKING_RUN + [FragmentOf(Half(KEY, 1, 1, 7))]);
    hide Next, StartedBy, Run, RunArrives, EmittedOffset;
  }
}
