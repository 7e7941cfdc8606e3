/**
 The handlers run one after the other on one table, as the bundles of a leaf hub reach them:
 the full bundle, the complete bundle based on it, and the merged deltas based on that one.
 */
module HandledPipeline {
  import opened AgentRuns
  import opened AgentState
  import opened BatchBuilder
  import opened Compliance
  import opened ComplianceTables
  import opened DeltaMerge
  import opened EndToEnd
  import opened FullStateSync
  import opened HubDatabase
  import opened StatusSync
  import opened Versions

  // ---------------------------------------------------------------- merged deltas

  /** Bundles of objects that say what the packs say. */
  ghost predicate Describe(bundles: seq<seq<PolicyStatus>>, packs: seq<seq<Delta>>) {
    && |bundles| == |packs|
    && forall k :: 0 <= k < |packs| ==>
         packs[k] != [] && WellFormed(bundles[k]) && Rows(bundles[k]) == Pack(packs[k]).effect
  }

  /** Every merged pack fits one statement. */
  ghost predicate PacksFit(packs: seq<seq<Delta>>) {
    forall k :: 0 <= k < |packs| ==> packs[k] != [] && |Pack(packs[k]).effect| <= CLUSTER_LIMIT
  }

  lemma WriteAllSnoc(table: Table, deltas: seq<Delta>, d: Delta)
    ensures WriteAll(table, deltas + [d]) == Write(WriteAll(table, deltas), d.effect)
  {
    WriteAllSplit(table, deltas, [d]);
    WriteOne(WriteAll(table, deltas), d);
  }

  lemma OnePackMore(packs: seq<seq<Delta>>, k: nat)
    requires k < |packs| && forall i :: 0 <= i < |packs| ==> packs[i] != []
    ensures PackAll(packs[..k + 1]) == PackAll(packs[..k]) + [Pack(packs[k])]
    ensures PacksFit(packs[..k + 1]) <==> PacksFit(packs[..k]) && |Pack(packs[k]).effect| <= CLUSTER_LIMIT
    ensures PacksFit(packs) ==> PacksFit(packs[..k + 1])
  {
    hide Pack;
    assert packs[..k + 1] == packs[..k] + [packs[k]];
    assert forall i :: 0 <= i < k ==> packs[..k + 1][i] == packs[..k][i];
    assert packs[..k + 1][k] == packs[k];
  }

  lemma BundleOfPack(bundles: seq<seq<PolicyStatus>>, packs: seq<seq<Delta>>, k: nat)
    requires Describe(bundles, packs) && k < |packs|
    ensures |bundles| == |packs| && WellFormed(bundles[k]) && Rows(bundles[k]) == Pack(packs[k]).effect
  {
  }

  /** Handles merged deltas in order, until one is refused. */
  method HandleMergedDeltas(db: ComplianceTable, leafHub: string, bundles: seq<seq<PolicyStatus>>,
                            ghost packs: seq<seq<Delta>>)
    returns (ok: bool)
    requires Describe(bundles, packs)
    modifies db
    ensures ok <==> PacksFit(packs)
    ensures ok ==> db.rows == WithRows(old(db.rows), leafHub, WriteAll(RowsOf(old(db.rows), leafHub), PackAll(packs)))
    ensures OthersKeep(old(db.rows), db.rows, leafHub)
  {
    hide RowsOf, WithRows;
    ghost var d, before := db.rows, RowsOf(db.rows, leafHub);
    KeepsRows(d, leafHub);
    PacksNotEmpty(bundles, packs);
    assert |bundles| == |packs| && packs[..|packs|] == packs;
    hide Describe, WellFormed, Rows, Pack, WriteAll, Write, PackAll, PacksFit;
    NoPacks(before);
    assert packs[..0] == [];
    for k := 0 to |bundles|
      invariant PacksFit(packs[..k]) && db.rows == WithRows(d, leafHub, WriteAll(before, PackAll(packs[..k])))
      invariant OthersKeep(d, db.rows, leafHub)
    {
      RowsTwice(d, leafHub, WriteAll(before, PackAll(packs[..k])), WriteAll(before, PackAll(packs[..k + 1])));
      RowsOfWithRows(d, leafHub, WriteAll(before, PackAll(packs[..k + 1])));
      BundleOfPack(bundles, packs, k);
      OnePackMore(packs, k);
      WriteAllSnoc(before, PackAll(packs[..k]), Pack(packs[k]));
      var handled := HandleDeltaComplianceBundle(db, leafHub, bundles[k]);
      if !handled {
        return false;
      }
    }
    return true;
  }

  /** No other leaf hub's rows differ. */
  ghost predicate OthersKeep(before: Database, after: Database, leafHub: string) {
    forall other :: other != leafHub ==> RowsOf(after, other) == RowsOf(before, other)
  }

  lemma NoPacks(table: Table)
    ensures PacksFit([]) && WriteAll(table, PackAll([])) == table
  {
  }

  /**
   Conflation at the handlers: if every merged pack fits one statement, the deltas of one base, cut
   into packs in any way, leave what writing them one by one would; otherwise a pack is refused.
   */
  method HandleConflated(db: ComplianceTable, leafHub: string, bundles: seq<seq<PolicyStatus>>,
                         ghost packs: seq<seq<Delta>>)
    returns (ok: bool)
    requires Describe(bundles, packs) && OneBase(Concat(packs))
    modifies db
    ensures ok <==> PacksFit(packs)
    ensures ok ==> db.rows == WithRows(old(db.rows), leafHub, WriteAll(RowsOf(old(db.rows), leafHub), Concat(packs)))
    ensures OthersKeep(old(db.rows), db.rows, leafHub)
  {
    ConflationPreservesMeaning(RowsOf(db.rows, leafHub), packs);
    hide RowsOf, WithRows;
    hide Describe, PacksFit, WriteAll, PackAll, Concat;
    ok := HandleMergedDeltas(db, leafHub, bundles, packs);
  }

  // ---------------------------------------------------------------- merging can exceed the limit

  function Unary(n: nat): string {
    seq(n, _ => 'x')
  }

  /** A table of `n` rows. */
  function Many(n: nat): Table {
    if n == 0 then map[] else Many(n - 1)[("p", Unary(n)) := Compliant]
  }

  lemma {:induction false} ManyCount(n: nat)
    ensures |Many(n)| == n
    ensures forall row :: row in Many(n) ==> row.0 == "p" && |row.1| <= n
  {
    if n > 0 {
      ManyCount(n - 1);
      var row := ("p", Unary(n));
      assert row !in Many(n - 1);
      assert Many(n).Keys == Many(n - 1).Keys + {row};
      assert |Many(n).Keys| == |Many(n - 1).Keys| + 1;
    }
  }

  lemma MergedExceeds(n: nat) returns (first: Delta, second: Delta)
    ensures first.base == second.base && |first.effect| == n && |second.effect| == 1
    ensures |Pack([first, second]).effect| == n + 1
  {
    ManyCount(n);
    var other: Row := ("q", "x");
    first := Delta(Version(0, 1), Version(0, 1), Many(n));
    second := Delta(Version(0, 2), Version(0, 1), map[other := Compliant]);
    assert other !in first.effect;
    OneMoreRow(first.effect, other, Compliant);
    PackOfTwo(first, second);
    hide Many, Pack;
  }

  /** Two deltas that each fit one statement, merged into a pack that does not. */
  lemma MergedPackMayNotFit() returns (first: Delta, second: Delta)
    ensures OneBase([first, second]) && PacksFit([[first], [second]]) && !PacksFit([[first, second]])
  {
    first, second := MergedExceeds(CLUSTER_LIMIT);
    PackOfOne(first);
    PackOfOne(second);
    hide Pack;
    var packs := [[first, second]];
    assert packs[0] == [first, second];
  }

  lemma OneMoreRow(t: Table, row: Row, status: Status)
    requires row !in t
    ensures |t + map[row := status]| == |t| + 1
  {
    assert (t + map[row := status]).Keys == t.Keys + {row};
    assert |t.Keys + {row}| == |t.Keys| + 1;
  }

  lemma PackOfOne(d: Delta)
    ensures Pack([d]) == d
  {
  }

  lemma PackOfTwo(d: Delta, e: Delta)
    requires d.base == e.base
    ensures Pack([d, e]).effect == d.effect + e.effect
  {
    assert [d, e][..1] == [d];
    PackOfOne(d);
  }

  // ---------------------------------------------------------------- the whole line

  /**
   The bundles of one line, handled in order on one database, whatever it held before. They are all
   accepted exactly when each batch fits; then the leaf hub's rows lack exactly what is still pending
   at it. The rows of other leaf hubs never change.
   */
  method HandleLine(db: ComplianceTable, leafHub: string, full: seq<PolicyStatus>, complete: seq<CompleteStatus>,
                    bundles: seq<seq<PolicyStatus>>, ghost packs: seq<seq<Delta>>,
                    ghost start: Agent, ghost first: seq<Step>, ghost second: seq<Step>, ghost third: seq<Step>)
    returns (ok: bool)
    requires Initial(start) && WellFormed(full) && WellFormed(AsPolicies(complete)) && Describe(bundles, packs)
    requires var a := Run(start, first); var b := Run(a, second); var c := Run(b, third);
             && b.full.generation == a.full.generation == c.full.generation
             && c.delta.base == b.complete.generation
             && ByPolicy(full) == a.full.view && ByPolicy(AsPolicies(complete)) == b.complete.view
             && Concat(packs) == DeltasOn(AllSent(start, first + second + third),
                                          Version(start.incarnation, b.complete.generation))
    modifies db
    ensures ok <==> && Fits(RowsOf(old(db.rows), leafHub), Rows(full), ByPolicy(full).Keys)
                    && ImpliedFits(Rows(full), Rows(AsPolicies(complete)), ByPolicy(AsPolicies(complete)).Keys)
                    && PacksFit(packs)
    ensures ok ==> var c := Run(Run(Run(start, first), second), third);
                   Write(RowsOf(db.rows, leafHub), Flatten(c.delta.pending)) == Live(c)
    ensures OthersKeep(old(db.rows), db.rows, leafHub)
  {
    hide RowsOf, WithRows;
    ghost var d, base := db.rows, Implied(Rows(full), Rows(AsPolicies(complete)));
    RowsOfWithRows(d, leafHub, Rows(full));
    RowsTwice(d, leafHub, Rows(full), base);
    RowsOfWithRows(d, leafHub, base);
    RowsTwice(d, leafHub, base, WriteAll(base, PackAll(packs)));
    RowsOfWithRows(d, leafHub, WriteAll(base, PackAll(packs)));
    PacksNotEmpty(bundles, packs);
    TableFollowsLeafHub(start, first, second, third, packs);
    hide Run, AllSent, DeltasOn, Describe, PacksFit, Fits, ImpliedFits, WellFormed, ByPolicy, Flatten, Implied, Write,
      WriteAll, PackAll, Concat, AsPolicies, Initial;
    ok := HandleClustersPerPolicyBundle(db, leafHub, full);
    if ok {
      ok := HandleCompleteComplianceBundle(db, leafHub, complete);
      if ok {
        ok := HandleMergedDeltas(db, leafHub, bundles, packs);
      }
    }
  }

  lemma PacksNotEmpty(bundles: seq<seq<PolicyStatus>>, packs: seq<seq<Delta>>)
    requires Describe(bundles, packs)
    ensures forall i :: 0 <= i < |packs| ==> packs[i] != []
  {
  }
}
