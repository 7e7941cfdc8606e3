/**
 What the SQL filter means: read by SQL's precedence it is never wider than the policy engine's
 queries, and equal to them where every term is translated.
 */
module AuthorizationMeaning {
  import opened AuthorizationSql
  import opened Options
  import opened SqlFilter

  // ---------------------------------------------------------------- the engine's side

  /** Whether an array of terms holds for a row. */
  type Truth = seq<Json> -> bool

  predicate Shaped(query: Json) {
    query.Array? ==> forall i :: 0 <= i < |query.items| ==> ExpressionOf(query.items[i]).Some?
  }

  predicate AllShaped(queries: seq<Json>) {
    forall k :: 0 <= k < |queries| ==> Shaped(queries[k])
  }

  predicate ExpressionHolds(raw: Json, truth: Truth) {
    ExpressionOf(raw).Some? && truth(ExpressionOf(raw).value.terms) != ExpressionOf(raw).value.negated
  }

  /** A query holds if all its expressions do. */
  predicate QueryHolds(query: Json, truth: Truth) {
    query.Array? && forall i :: 0 <= i < |query.items| ==> ExpressionHolds(query.items[i], truth)
  }

  /** The user may see the row if one of the queries holds. */
  predicate Allowed(queries: seq<Json>, truth: Truth) {
    exists k :: 0 <= k < |queries| && QueryHolds(queries[k], truth)
  }

  predicate Translates(raw: Json) {
    ExpressionOf(raw).Some? && GetSQLExpression(ExpressionOf(raw).value.terms).Some?
  }

  /** All terms of a query have an SQL form, and there are some. */
  predicate Translated(query: Json) {
    query.Array? && query.items != [] && forall i :: 0 <= i < |query.items| ==> Translates(query.items[i])
  }

  /** The atoms say of a translated equality what the engine says of its terms. */
  predicate Agree(query: Json, truth: Truth, atoms: Atoms) {
    query.Array? ==> forall i :: 0 <= i < |query.items| && Translates(query.items[i]) ==>
      var terms := ExpressionOf(query.items[i]).value.terms;
      truth(terms) == atoms(GetSQLExpression(terms).value.0, GetSQLExpression(terms).value.1)
  }

  predicate AllAgree(queries: seq<Json>, truth: Truth, atoms: Atoms) {
    forall k :: 0 <= k < |queries| ==> Agree(queries[k], truth, atoms)
  }

  // ---------------------------------------------------------------- the formula that is read

  function TermFormula(e: Expression): Formula {
    var equality := GetSQLExpression(e.terms);
    var atom := if equality.Some? then Atom(equality.value.0, equality.value.1) else Constant(e.negated);
    if e.negated then Negation(atom) else atom
  }

  function ConjunctionOf(items: seq<Json>): Formula
    requires forall i :: 0 <= i < |items| ==> ExpressionOf(items[i]).Some?
  {
    if items == [] then Constant(true)
    else Conjunction(TermFormula(ExpressionOf(items[0]).value), ConjunctionOf(items[1..]))
  }

  function DisjunctionOf(queries: seq<Json>): Formula
    requires AllShaped(queries)
  {
    if queries == [] then Constant(false)
    else
      assert Shaped(queries[0]);
      if !queries[0].Array? || queries[0].items == [] then DisjunctionOf(queries[1..])
      else Disjunction(ConjunctionOf(queries[0].items), DisjunctionOf(queries[1..]))
  }

  lemma ParseAtomBefore(atom: Token, rest: seq<Token>)
    requires atom == True || atom == False || atom.Equal?
    requires rest != [] && rest[0] == RParen
    ensures var f := if atom == True then Constant(true)
                     else if atom == False then Constant(false)
                     else Atom(atom.left, atom.right);
            ParseOr([atom] + rest) == Some((f, rest))
  {
    assert ([atom] + rest)[1..] == rest;
    assert ParsePrimary([atom] + rest).value.1 == rest;
    assert ParseNot([atom] + rest) == ParsePrimary([atom] + rest);
    assert ParseAnd([atom] + rest) == ParseNot([atom] + rest);
  }

  lemma ParseTerm(e: Expression, rest: seq<Token>)
    ensures ParseOr(TermTokens(e) + ([RParen] + rest)) == Some((TermFormula(e), [RParen] + rest))
  {
    var equality := GetSQLExpression(e.terms);
    var atom := if equality.Some? then Equal(equality.value.0, equality.value.1) else if e.negated then True else False;
    var after := [RParen] + rest;
    hide GetSQLExpression;
    if e.negated {
      ParseAtomBefore(atom, [RParen] + after);
      var inner := [atom] + ([RParen] + after);
      assert TermTokens(e) + after == [Not] + ([LParen] + inner);
      assert ([LParen] + inner)[1..] == inner;
      assert ([RParen] + after)[1..] == after;
      assert ([Not] + ([LParen] + inner))[1..] == [LParen] + inner;
      var whole := [Not] + ([LParen] + inner);
      assert ParseNot([LParen] + inner) == ParsePrimary([LParen] + inner);
      assert ParseNot(whole).Some? && ParseNot(whole).value.1 == after;
      assert ParseAnd(whole) == ParseNot(whole);
    } else {
      ParseAtomBefore(atom, after);
      assert TermTokens(e) == [atom];
    }
  }

  lemma NoExpressions(rest: seq<Token>)
    ensures ParseAnd([True] + ([RParen] + rest)) == Some((Constant(true), [RParen] + rest))
  {
    var ts := [True] + ([RParen] + rest);
    assert ts[1..] == [RParen] + rest;
    assert ParseNot(ts) == ParsePrimary(ts) == Some((Constant(true), [RParen] + rest));
  }

  lemma OneExpression(e: Expression, next: seq<Token>, g: Formula, rest: seq<Token>)
    requires ParseAnd(next) == Some((g, rest))
    ensures ParseAnd([LParen] + TermTokens(e) + [RParen, And] + next) == Some((Conjunction(TermFormula(e), g), rest))
  {
    ParseTerm(e, [And] + next);
    hide ParseOr, ParseAnd, ParseNot, TermTokens, TermFormula;
    var inner := TermTokens(e) + ([RParen] + ([And] + next));
    ParseParens(inner, TermFormula(e), [And] + next);
    AndThen([LParen] + inner, TermFormula(e), next, g, rest);
    TermBrackets(TermTokens(e), next);
  }

  lemma TermBrackets(term: seq<Token>, next: seq<Token>)
    ensures [LParen] + term + [RParen, And] + next == [LParen] + (term + ([RParen] + ([And] + next)))
  {
  }

  lemma {:induction false} ParseExpressions(items: seq<Json>, rest: seq<Token>)
    requires forall i :: 0 <= i < |items| ==> ExpressionOf(items[i]).Some?
    ensures ParseAnd(ExpressionsTokens(items) + ([True, RParen] + rest)) ==
            Some((ConjunctionOf(items), [RParen] + rest))
    decreases |items|
  {
    hide ParseOr, ParseAnd, ParseNot, TermTokens, TermFormula, ExpressionOf;
    var closing := [True, RParen] + rest;
    assert closing == [True] + ([RParen] + rest);
    if items == [] {
      NoExpressions(rest);
      assert ExpressionsTokens(items) + closing == closing;
    } else {
      var e, others := ExpressionOf(items[0]).value, ExpressionsTokens(items[1..]) + closing;
      ParseExpressions(items[1..], rest);
      OneExpression(e, others, ConjunctionOf(items[1..]), [RParen] + rest);
      assert ExpressionTokens(items[0]) == [LParen] + TermTokens(e) + [RParen, And];
      assert ExpressionsTokens(items) == ExpressionTokens(items[0]) + ExpressionsTokens(items[1..]);
      hide ExpressionTokens, ExpressionsTokens;
      Associates(ExpressionTokens(items[0]), ExpressionsTokens(items[1..]), closing);
    }
  }

  lemma OneQuery(items: seq<Json>, next: seq<Token>, g: Formula, rest: seq<Token>)
    requires forall i :: 0 <= i < |items| ==> ExpressionOf(items[i]).Some?
    requires ParseOr(next) == Some((g, rest))
    ensures ParseOr([LParen] + ExpressionsTokens(items) + [True, RParen, Or] + next) ==
            Some((Disjunction(ConjunctionOf(items), g), rest))
  {
    ParseExpressions(items, [Or] + next);
    hide ParseOr, ParseAnd, ParseNot, ExpressionsTokens, ConjunctionOf;
    var inner := ExpressionsTokens(items) + ([True, RParen] + ([Or] + next));
    EndsAtParen(inner, ConjunctionOf(items), [Or] + next);
    ParseParens(inner, ConjunctionOf(items), [Or] + next);
    OrThen([LParen] + inner, ConjunctionOf(items), next, g, rest);
    QueryBrackets(ExpressionsTokens(items), next);
  }

  lemma QueryBrackets(expressions: seq<Token>, next: seq<Token>)
    ensures [LParen] + expressions + [True, RParen, Or] + next ==
            [LParen] + (expressions + ([True, RParen] + ([Or] + next)))
  {
  }

  lemma OnlyFalse()
    ensures ParseOr([False]) == Some((Constant(false), []))
  {
    assert ParseNot([False]) == ParsePrimary([False]) == Some((Constant(false), []));
    assert ParseAnd([False]) == ParseNot([False]);
  }

  lemma {:induction false} ParseQueries(queries: seq<Json>)
    requires AllShaped(queries)
    ensures ParseOr(QueriesTokens(queries) + [False]) == Some((DisjunctionOf(queries), []))
    decreases |queries|
  {
    hide ParseOr, ConjunctionOf, ExpressionsTokens;
    if queries == [] {
      OnlyFalse();
      assert QueriesTokens(queries) + [False] == [False];
    } else {
      var others := QueriesTokens(queries[1..]) + [False];
      ParseQueries(queries[1..]);
      assert Shaped(queries[0]);
      if !queries[0].Array? || queries[0].items == [] {
        assert QueriesTokens(queries) + [False] == others;
      } else {
        var items := queries[0].items;
        OneQuery(items, others, DisjunctionOf(queries[1..]), []);
        assert QueriesTokens(queries) + [False] == [LParen] + ExpressionsTokens(items) + [True, RParen, Or] + others;
      }
    }
  }

  // ---------------------------------------------------------------- what the formula says

  lemma {:induction false} ConjunctionHoldsIff(items: seq<Json>, truth: Truth, atoms: Atoms)
    requires forall i :: 0 <= i < |items| ==> ExpressionOf(items[i]).Some?
    requires Agree(Array(items), truth, atoms)
    ensures Holds(ConjunctionOf(items), atoms) <==>
            forall i :: 0 <= i < |items| ==> Translates(items[i]) && ExpressionHolds(items[i], truth)
    decreases |items|
  {
    if items != [] {
      var rest := items[1..];
      assert forall i :: 0 <= i < |rest| ==> rest[i] == items[i + 1];
      ConjunctionHoldsIff(rest, truth, atoms);
      var e := ExpressionOf(items[0]).value;
      assert Holds(TermFormula(e), atoms) <==> Translates(items[0]) && ExpressionHolds(items[0], truth);
      hide TermFormula, GetSQLExpression, ExpressionOf, Translates, ExpressionHolds;
      if forall i :: 0 <= i < |items| ==> Translates(items[i]) && ExpressionHolds(items[i], truth) {
        assert forall i :: 0 <= i < |rest| ==> Translates(rest[i]) && ExpressionHolds(rest[i], truth);
      }
      if Holds(ConjunctionOf(items), atoms) {
        forall i | 0 <= i < |items|
          ensures Translates(items[i]) && ExpressionHolds(items[i], truth)
        {
          if i > 0 {
            assert items[i] == rest[i - 1];
          }
        }
      }
    }
  }

  lemma {:induction false} DisjunctionHoldsIff(queries: seq<Json>, truth: Truth, atoms: Atoms)
    requires AllShaped(queries) && AllAgree(queries, truth, atoms)
    ensures Holds(DisjunctionOf(queries), atoms) <==>
            exists k :: 0 <= k < |queries| && Translated(queries[k]) && QueryHolds(queries[k], truth)
    decreases |queries|
  {
    if queries != [] {
      var first, rest := queries[0], queries[1..];
      assert forall k :: 0 <= k < |rest| ==> rest[k] == queries[k + 1];
      DisjunctionHoldsIff(rest, truth, atoms);
      assert Shaped(first) && Agree(first, truth, atoms);
      if first.Array? && first.items != [] {
        ConjunctionHoldsIff(first.items, truth, atoms);
      }
      assert Holds(DisjunctionOf(queries), atoms) <==>
             (Translated(first) && QueryHolds(first, truth)) || Holds(DisjunctionOf(rest), atoms);
      hide Translated, QueryHolds, Holds, DisjunctionOf, Agree, Shaped;
      if exists k :: 0 <= k < |rest| && Translated(rest[k]) && QueryHolds(rest[k], truth) {
        var k :| 0 <= k < |rest| && Translated(rest[k]) && QueryHolds(rest[k], truth);
        assert Translated(queries[k + 1]) && QueryHolds(queries[k + 1], truth);
      }
      if exists k :: 0 <= k < |queries| && Translated(queries[k]) && QueryHolds(queries[k], truth) {
        var k :| 0 <= k < |queries| && Translated(queries[k]) && QueryHolds(queries[k], truth);
        if k > 0 {
          assert Translated(rest[k - 1]) && QueryHolds(rest[k - 1], truth);
        }
      }
    }
  }

  // ---------------------------------------------------------------- malformed expressions

  lemma {:induction false} ExpressionsDepth(items: seq<Json>)
    ensures Depth(ExpressionsTokens(items)) <= 0
    ensures Depth(ExpressionsTokens(items)) == 0 <==> forall i :: 0 <= i < |items| ==> ExpressionOf(items[i]).Some?
    decreases |items|
  {
    if items != [] {
      ExpressionsDepth(items[1..]);
      ExpressionDepth(items[0]);
      DepthConcat(ExpressionTokens(items[0]), ExpressionsTokens(items[1..]));
      assert forall i :: 1 <= i < |items| ==> items[i] == items[1..][i - 1];
      hide ExpressionTokens, ExpressionOf, Depth;
    }
  }

  lemma DepthOfOne(t: Token)
    ensures Depth([t]) == if t == LParen then 1 else if t == RParen then -1 else 0
  {
    assert [t][1..] == [];
  }

  lemma TermDepth(e: Expression)
    ensures Depth(TermTokens(e)) == 0
  {
    var tokens := TermTokens(e);
    hide GetSQLExpression;
    if e.negated {
      assert tokens == [Not] + [LParen] + [tokens[2]] + [RParen];
      DepthConcat([Not] + [LParen] + [tokens[2]], [RParen]);
      DepthConcat([Not] + [LParen], [tokens[2]]);
      DepthConcat([Not], [LParen]);
      DepthOfOne(Not);
      DepthOfOne(LParen);
      DepthOfOne(tokens[2]);
      DepthOfOne(RParen);
    } else {
      DepthOfOne(tokens[0]);
      assert tokens == [tokens[0]];
    }
    hide Depth, TermTokens;
  }

  lemma ExpressionDepth(raw: Json)
    ensures Depth(ExpressionTokens(raw)) == if ExpressionOf(raw).Some? then 0 else -1
  {
    DepthOfOne(LParen);
    DepthOfOne(RParen);
    DepthOfOne(And);
    DepthOfOne(False);
    DepthConcat([RParen], [And]);
    DepthConcat([False], [RParen]);
    assert [RParen] + [And] == [RParen, And] && [False] + [RParen] == [False, RParen];
    hide Depth, ExpressionOf;
    if ExpressionOf(raw).Some? {
      var e := ExpressionOf(raw).value;
      TermDepth(e);
      DepthConcat([LParen] + TermTokens(e), [RParen, And]);
      DepthConcat([LParen], TermTokens(e));
    }
  }

  lemma {:induction false} QueriesDepth(queries: seq<Json>)
    ensures Depth(QueriesTokens(queries)) <= 0
    ensures Depth(QueriesTokens(queries)) == 0 <==> AllShaped(queries)
    decreases |queries|
  {
    if queries != [] {
      var first := queries[0];
      QueriesDepth(queries[1..]);
      QueryDepth(first);
      DepthConcat(QueryTokens(first), QueriesTokens(queries[1..]));
      assert forall k :: 1 <= k < |queries| ==> queries[k] == queries[1..][k - 1];
      hide QueryTokens, Shaped, Depth;
    }
  }

  lemma QueryDepth(query: Json)
    ensures Depth(QueryTokens(query)) <= 0 && (Depth(QueryTokens(query)) == 0 <==> Shaped(query))
  {
    if query.Array? && query.items != [] {
      ExpressionsDepth(query.items);
      DepthConcat([LParen] + ExpressionsTokens(query.items), [True, RParen, Or]);
      DepthConcat([LParen], ExpressionsTokens(query.items));
    }
  }

  // ---------------------------------------------------------------- the filter

  /** A response with at least one query. */
  function Response(queries: seq<Json>): Option<Json> {
    Some(Object(map["queries" := Array(queries)]))
  }

  /** The filter is well formed exactly when every expression has an array of terms. */
  lemma FilterIsWellFormedIff(queries: seq<Json>)
    requires queries != []
    ensures Parse(FilterOf(Response(queries))).Some? <==> AllShaped(queries)
    ensures AllShaped(queries) && !IsAllowAll(queries) ==>
            Parse(FilterOf(Response(queries))) == Some(DisjunctionOf(queries))
    ensures IsAllowAll(queries) ==> Parse(FilterOf(Response(queries))) == Some(Constant(true))
  {
    if IsAllowAll(queries) {
      OnlyTrue();
      assert Shaped(queries[0]);
    } else {
      if AllShaped(queries) {
        ParseQueries(queries);
      } else {
        QueriesDepth(queries);
        DepthConcat(QueriesTokens(queries), [False]);
        DepthOfOne(False);
        WellFormedIsBalanced(QueriesTokens(queries) + [False]);
      }
      hide ParseOr, DisjunctionOf, QueriesTokens, Depth;
    }
  }

  /** An expression without terms, which leaves a parenthesis unmatched. */
  const NO_TERMS := [Array([Object(map[])])]

  lemma ExpressionWithoutTermsIsMalformed()
    ensures NO_TERMS != [] && Parse(FilterOf(Response(NO_TERMS))) == None
  {
    hide Parse, FilterOf;
    assert !Shaped(NO_TERMS[0]) by {
      assert NO_TERMS[0].items[0] == Object(map[]);
    }
    FilterIsWellFormedIff(NO_TERMS);
  }

  lemma OnlyTrue()
    ensures Parse([True]) == Some(Constant(true))
  {
    assert ParseNot([True]) == ParsePrimary([True]) == Some((Constant(true), []));
    assert ParseAnd([True]) == ParseNot([True]);
  }

  /** The filter selects a row exactly when a query holds all of whose terms are translated, or all is allowed. */
  lemma FilterSelectsIff(queries: seq<Json>, truth: Truth, atoms: Atoms)
    requires queries != [] && AllShaped(queries) && AllAgree(queries, truth, atoms)
    ensures Parse(FilterOf(Response(queries))).Some?
    ensures Holds(Parse(FilterOf(Response(queries))).value, atoms) <==>
            || IsAllowAll(queries)
            || exists k :: 0 <= k < |queries| && Translated(queries[k]) && QueryHolds(queries[k], truth)
  {
    FilterIsWellFormedIff(queries);
    if !IsAllowAll(queries) {
      DisjunctionHoldsIff(queries, truth, atoms);
    }
    hide Parse, FilterOf, DisjunctionOf, Translated, QueryHolds;
  }

  /**
   The filter never selects a row that is not allowed, and selects all that are where every query
   is translated or the only query is empty. A term that is not translated, negated or not, makes
   its query allow nothing.
   */
  lemma FilterNeverWidens(queries: seq<Json>, truth: Truth, atoms: Atoms)
    requires queries != [] && AllShaped(queries) && AllAgree(queries, truth, atoms)
    ensures Parse(FilterOf(Response(queries))).Some?
    ensures var selected := Holds(Parse(FilterOf(Response(queries))).value, atoms);
            && (selected ==> Allowed(queries, truth))
            && ((forall k :: 0 <= k < |queries| && queries[k].Array? ==> Translated(queries[k])) || IsAllowAll(queries)
                ==> (selected <==> Allowed(queries, truth)))
  {
    FilterSelectsIff(queries, truth, atoms);
    hide Parse, FilterOf, Translated, Agree, Shaped;
    if IsAllowAll(queries) {
      assert QueryHolds(queries[0], truth);
    }
    hide QueryHolds;
    if Allowed(queries, truth) {
      var k :| 0 <= k < |queries| && QueryHolds(queries[k], truth);
      assert queries[k].Array? by {
        OnlyArraysHold(queries[k], truth);
      }
    }
  }

  lemma OnlyArraysHold(query: Json, truth: Truth)
    requires QueryHolds(query, truth)
    ensures query.Array?
  {
  }
}
