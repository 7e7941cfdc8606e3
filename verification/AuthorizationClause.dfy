/**
 The filter as one part of a larger condition: after the name and the hub of one cluster, joined
 with AND and without parentheses of its own.
 */
module AuthorizationClause {
  import opened AuthorizationMeaning
  import opened AuthorizationSql
  import opened Options
  import opened SqlFilter

  /** The cluster's name and hub, then the filter. */
  function Clause(name: Formula, hub: Formula, filter: seq<Token>): seq<Token>
    requires name.Atom? && hub.Atom?
  {
    [Equal(name.left, name.right), And, Equal(hub.left, hub.right), And] + filter
  }

  /** The queries after the first one that has expressions. */
  function Later(queries: seq<Json>): seq<Json> {
    if queries == [] then []
    else if !queries[0].Array? || queries[0].items == [] then Later(queries[1..])
    else queries[1..]
  }

  /** What the clause reads as: the first query only is joined with the name and the hub. */
  function ClauseFormula(name: Formula, hub: Formula, queries: seq<Json>): Formula
    requires AllShaped(queries)
  {
    if queries == [] then Conjunction(name, Conjunction(hub, Constant(false)))
    else
      assert Shaped(queries[0]);
      if !queries[0].Array? || queries[0].items == [] then ClauseFormula(name, hub, queries[1..])
      else Disjunction(Conjunction(name, Conjunction(hub, ConjunctionOf(queries[0].items))),
                       DisjunctionOf(queries[1..]))
  }

  lemma AtomThen(atom: Formula, next: seq<Token>, f: Formula, rest: seq<Token>)
    requires atom.Atom? && ParseAnd(next) == Some((f, rest))
    ensures ParseAnd([Equal(atom.left, atom.right), And] + next) == Some((Conjunction(atom, f), rest))
  {
    var ts := [Equal(atom.left, atom.right), And] + next;
    assert ts[1..] == [And] + next;
    assert ParseNot(ts) == ParsePrimary(ts) == Some((atom, [And] + next));
    AndThen(ts, atom, next, f, rest);
  }

  lemma BothAtomsThen(name: Formula, hub: Formula, next: seq<Token>, f: Formula, rest: seq<Token>)
    requires name.Atom? && hub.Atom? && ParseAnd(next) == Some((f, rest))
    ensures ParseAnd(Clause(name, hub, next)) == Some((Conjunction(name, Conjunction(hub, f)), rest))
  {
    AtomThen(hub, next, f, rest);
    var inner := [Equal(hub.left, hub.right), And] + next;
    AtomThen(name, inner, Conjunction(hub, f), rest);
    assert Clause(name, hub, next) == [Equal(name.left, name.right), And] + inner;
    hide ParseAnd;
  }

  lemma ThenOr(ts: seq<Token>, f: Formula, next: seq<Token>, g: Formula)
    requires ParseAnd(ts) == Some((f, [Or] + next)) && ParseOr(next) == Some((g, []))
    ensures ParseOr(ts) == Some((Disjunction(f, g), []))
  {
    assert ([Or] + next)[1..] == next;
    hide ParseAnd;
  }

  lemma ParseQueryAlone(items: seq<Json>, next: seq<Token>)
    requires forall i :: 0 <= i < |items| ==> ExpressionOf(items[i]).Some?
    ensures ParseAnd([LParen] + ExpressionsTokens(items) + [True, RParen, Or] + next) ==
            Some((ConjunctionOf(items), [Or] + next))
  {
    ParseExpressions(items, [Or] + next);
    hide ParseOr, ParseAnd, ExpressionsTokens, ConjunctionOf;
    var inner := ExpressionsTokens(items) + ([True, RParen] + ([Or] + next));
    EndsAtParen(inner, ConjunctionOf(items), [Or] + next);
    ParseParens(inner, ConjunctionOf(items), [Or] + next);
    QueryBrackets(ExpressionsTokens(items), next);
    NotThenOr([LParen] + inner, ConjunctionOf(items), next);
  }

  lemma NotThenOr(ts: seq<Token>, f: Formula, next: seq<Token>)
    requires ParseNot(ts) == Some((f, [Or] + next))
    ensures ParseAnd(ts) == Some((f, [Or] + next))
  {
    hide ParseNot;
  }

  lemma FirstQueryClause(name: Formula, hub: Formula, items: seq<Json>, others: seq<Token>, g: Formula)
    requires name.Atom? && hub.Atom? && forall i :: 0 <= i < |items| ==> ExpressionOf(items[i]).Some?
    requires ParseOr(others) == Some((g, []))
    ensures ParseOr(Clause(name, hub, [LParen] + ExpressionsTokens(items) + [True, RParen, Or] + others)) ==
            Some((Disjunction(Conjunction(name, Conjunction(hub, ConjunctionOf(items))), g), []))
  {
    var next, f := [LParen] + ExpressionsTokens(items) + [True, RParen, Or] + others, ConjunctionOf(items);
    ParseQueryAlone(items, others);
    hide ParseOr, ParseAnd, Clause, ExpressionsTokens, ConjunctionOf;
    BothAtomsThen(name, hub, next, f, [Or] + others);
    ThenOr(Clause(name, hub, next), Conjunction(name, Conjunction(hub, f)), others, g);
  }

  lemma QueriesUnfold(queries: seq<Json>)
    requires queries != []
    ensures QueriesTokens(queries) + [False] == QueryTokens(queries[0]) + (QueriesTokens(queries[1..]) + [False])
  {
    Associates(QueryTokens(queries[0]), QueriesTokens(queries[1..]), [False]);
    hide QueryTokens;
  }

  lemma {:induction false} ParseClause(name: Formula, hub: Formula, queries: seq<Json>)
    requires name.Atom? && hub.Atom? && AllShaped(queries)
    ensures ParseOr(Clause(name, hub, QueriesTokens(queries) + [False])) ==
            Some((ClauseFormula(name, hub, queries), []))
    decreases |queries|
  {
    hide ParseOr, ParseAnd, ConjunctionOf, ExpressionsTokens, DisjunctionOf, Clause;
    if queries == [] {
      FalseAlone();
      BothAtomsThen(name, hub, [False], Constant(false), []);
      EndsThere(Clause(name, hub, [False]), Conjunction(name, Conjunction(hub, Constant(false))));
      assert QueriesTokens(queries) + [False] == [False];
    } else {
      var others := QueriesTokens(queries[1..]) + [False];
      assert Shaped(queries[0]);
      QueriesUnfold(queries);
      hide QueriesTokens;
      if !queries[0].Array? || queries[0].items == [] {
        ParseClause(name, hub, queries[1..]);
        assert [] + others == others;
      } else {
        ParseQueries(queries[1..]);
        FirstQueryClause(name, hub, queries[0].items, others, DisjunctionOf(queries[1..]));
      }
    }
  }

  lemma FalseAlone()
    ensures ParseAnd([False]) == Some((Constant(false), []))
  {
    assert ParseNot([False]) == ParsePrimary([False]) == Some((Constant(false), []));
  }

  lemma EndsThere(ts: seq<Token>, f: Formula)
    requires ParseAnd(ts) == Some((f, []))
    ensures ParseOr(ts) == Some((f, []))
  {
    hide ParseAnd;
  }

  lemma AndHolds(f: Formula, g: Formula, h: Formula, atoms: Atoms)
    ensures Holds(Conjunction(f, Conjunction(g, h)), atoms) <==> Holds(f, atoms) && Holds(g, atoms) && Holds(h, atoms)
  {
    assert Holds(Conjunction(g, h), atoms) <==> Holds(g, atoms) && Holds(h, atoms);
  }

  lemma OrHolds(f: Formula, g: Formula, atoms: Atoms)
    ensures Holds(Disjunction(f, g), atoms) <==> Holds(f, atoms) || Holds(g, atoms)
  {
  }

  lemma {:induction false} ClauseHolds(name: Formula, hub: Formula, queries: seq<Json>, atoms: Atoms)
    requires AllShaped(queries)
    ensures AllShaped(Later(queries))
    ensures Holds(ClauseFormula(name, hub, queries), atoms) <==>
            (Holds(name, atoms) && Holds(hub, atoms) && Holds(DisjunctionOf(queries), atoms))
            || Holds(DisjunctionOf(Later(queries)), atoms)
    ensures Holds(DisjunctionOf(Later(queries)), atoms) ==> Holds(DisjunctionOf(queries), atoms)
    decreases |queries|
  {
    if queries != [] {
      assert forall k :: 0 <= k < |queries[1..]| ==> queries[1..][k] == queries[k + 1];
      assert Shaped(queries[0]);
      hide ConjunctionOf;
      if !queries[0].Array? || queries[0].items == [] {
        ClauseHolds(name, hub, queries[1..], atoms);
      } else {
        AndHolds(name, hub, ConjunctionOf(queries[0].items), atoms);
        OrHolds(Conjunction(name, Conjunction(hub, ConjunctionOf(queries[0].items))), DisjunctionOf(queries[1..]),
                atoms);
        OrHolds(ConjunctionOf(queries[0].items), DisjunctionOf(queries[1..]), atoms);
        hide Holds;
      }
    }
  }

  lemma TrueAlone()
    ensures ParseAnd([True]) == Some((Constant(true), [])) && Parse([True]) == Some(Constant(true))
  {
    assert ParseNot([True]) == ParsePrimary([True]) == Some((Constant(true), []));
    assert ParseAnd([True]) == ParseNot([True]);
  }

  lemma ClauseOfAll(name: Formula, hub: Formula, atoms: Atoms)
    requires name.Atom? && hub.Atom?
    ensures Parse(Clause(name, hub, [True])) == Some(Conjunction(name, Conjunction(hub, Constant(true))))
    ensures Holds(Conjunction(name, Conjunction(hub, Constant(true))), atoms) <==>
            Holds(name, atoms) && Holds(hub, atoms)
  {
    TrueAlone();
    BothAtomsThen(name, hub, [True], Constant(true), []);
    EndsThere(Clause(name, hub, [True]), Conjunction(name, Conjunction(hub, Constant(true))));
    AndHolds(name, hub, Constant(true), atoms);
    hide ParseOr, ParseAnd, Clause;
  }

  /**
   The clause selects a row as the cluster and the filter together would, exactly when the row is
   of that cluster or no query after the first one that has expressions selects it.
   */
  lemma ClauseIsConjunctionIff(name: Formula, hub: Formula, queries: seq<Json>, atoms: Atoms)
    requires name.Atom? && hub.Atom? && queries != [] && AllShaped(queries)
    ensures AllShaped(Later(queries)) && Parse(Clause(name, hub, FilterOf(Response(queries)))).Some?
    ensures Parse(FilterOf(Response(queries))).Some?
    ensures var clause := Holds(Parse(Clause(name, hub, FilterOf(Response(queries)))).value, atoms);
            var filter := Holds(Parse(FilterOf(Response(queries))).value, atoms);
            var cluster := Holds(name, atoms) && Holds(hub, atoms);
            (clause <==> cluster && filter) <==> (cluster || !Holds(DisjunctionOf(Later(queries)), atoms))
  {
    FilterIsWellFormedIff(queries);
    ParseClause(name, hub, queries);
    ClauseHolds(name, hub, queries, atoms);
    if IsAllowAll(queries) {
      ClauseOfAll(name, hub, atoms);
      assert Later(queries) == [] by {
        assert queries[1..] == [];
      }
    }
    hide ParseOr, Clause, ClauseFormula, DisjunctionOf, QueriesTokens, Later, AllShaped;
  }

  const EQ := Object(map["type" := String("ref"),
                         "value" := Array([Object(map["type" := String("var"), "value" := String("eq")])])])

  function Quoted(s: string): Json {
    Object(map["type" := String("string"), "value" := String(s)])
  }

  /** A query of one equality. */
  function Equality(s: string): Json {
    Array([Object(map["terms" := Array([EQ, Quoted(s), Quoted(s)])])])
  }

  lemma EqualityHolds(s: string, atoms: Atoms)
    ensures Shaped(Equality(s)) && Equality(s).Array? && Equality(s).items != []
    ensures Holds(ConjunctionOf(Equality(s).items), atoms) <==> atoms(Literal(s), Literal(s))
  {
    var items := Equality(s).items;
    var e := ExpressionOf(items[0]).value;
    assert GetSQLExpression(e.terms) == Some((Literal(s), Literal(s)));
    assert items[1..] == [];
    assert ConjunctionOf(items) == Conjunction(Atom(Literal(s), Literal(s)), Constant(true));
    assert Holds(Constant(true), atoms);
  }

  /** Two queries: rows of any other cluster are selected if the second query holds of them. */
  lemma SecondQuerySelectsOthers(name: Formula, hub: Formula, atoms: Atoms)
    requires name.Atom? && hub.Atom? && !Holds(name, atoms) && atoms(Literal("b"), Literal("b"))
    ensures var clause := Parse(Clause(name, hub, FilterOf(Response([Equality("a"), Equality("b")]))));
            clause.Some? && Holds(clause.value, atoms)
  {
    var queries := [Equality("a"), Equality("b")];
    EqualityHolds("a", atoms);
    EqualityHolds("b", atoms);
    hide Equality, ConjunctionOf;
    ParseClause(name, hub, queries);
    ClauseHolds(name, hub, queries, atoms);
    assert Later(queries) == [Equality("b")];
    assert [Equality("b")][1..] == [];
    OrHolds(ConjunctionOf(Equality("b").items), DisjunctionOf([]), atoms);
    hide ParseOr, Clause, ClauseFormula, QueriesTokens;
  }

  /** Without another query that has expressions, the clause is that conjunction for every row. */
  lemma OneQueryIsConjoined(name: Formula, hub: Formula, queries: seq<Json>, atoms: Atoms)
    requires name.Atom? && hub.Atom? && queries != [] && AllShaped(queries)
    requires forall k :: 0 <= k < |Later(queries)| ==> !Later(queries)[k].Array? || Later(queries)[k].items == []
    ensures Parse(Clause(name, hub, FilterOf(Response(queries)))).Some? && Parse(FilterOf(Response(queries))).Some?
    ensures Holds(Parse(Clause(name, hub, FilterOf(Response(queries)))).value, atoms) <==>
            Holds(name, atoms) && Holds(hub, atoms) && Holds(Parse(FilterOf(Response(queries))).value, atoms)
  {
    ClauseIsConjunctionIff(name, hub, queries, atoms);
    NoQueryHolds(Later(queries), atoms);
    hide Parse, Holds, Clause, FilterOf, DisjunctionOf, Later;
  }

  lemma {:induction false} NoQueryHolds(queries: seq<Json>, atoms: Atoms)
    requires AllShaped(queries)
    requires forall k :: 0 <= k < |queries| ==> !queries[k].Array? || queries[k].items == []
    ensures !Holds(DisjunctionOf(queries), atoms)
    decreases |queries|
  {
    if queries != [] {
      assert forall k :: 0 <= k < |queries[1..]| ==> queries[1..][k] == queries[k + 1];
      NoQueryHolds(queries[1..], atoms);
    }
  }
}
