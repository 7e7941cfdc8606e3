/**
 Turning the policy engine's partial evaluation, a disjunction of conjunctions in JSON, into an
 SQL filter.
 */
module AuthorizationSql {
  import opened Options
  import opened SqlFilter

  datatype Json =
    | Null | Bool(b: bool) | Number(text: string) | String(s: string)
    | Array(items: seq<Json>) | Object(fields: map<string, Json>)

  function Field(j: Json, name: string): Option<Json> {
    if j.Object? && name in j.fields then Some(j.fields[name]) else None
  }

  function StringField(j: Json, name: string): Option<string> {
    var f := Field(j, name);
    if f.Some? && f.value.String? then Some(f.value.s) else None
  }

  // ---------------------------------------------------------------- terms

  /** The string value of a term of the expected type. */
  function GetTermStringValue(term: Json, expectedType: string): Option<string> {
    if StringField(term, "type") == Some(expectedType) then StringField(term, "value") else None
  }

  /** The operator is a reference to a single variable. */
  function GetOperator(term: Json): Option<string> {
    if StringField(term, "type") != Some("ref") then None
    else
      var value := Field(term, "value");
      if value.None? || !value.value.Array? || |value.value.items| != 1 then None
      else GetTermStringValue(value.value.items[0], "var")
  }

  function StringParts(parts: seq<Json>): Option<seq<string>> {
    if parts == [] then Some([])
    else
      var first, rest := GetTermStringValue(parts[0], "string"), StringParts(parts[1..]);
      if first.None? || rest.None? then None else Some([first.value] + rest.value)
  }

  /** A reference's variable, second part and further parts. */
  datatype Reference = Reference(variable: string, second: string, keys: seq<string>)

  function GetReference(term: Json): Option<Reference> {
    var value := Field(term, "value");
    if value.None? || !value.value.Array? || |value.value.items| < 2 then None
    else
      var items := value.value.items;
      var variable, second, keys :=
        GetTermStringValue(items[0], "var"), GetTermStringValue(items[1], "string"), StringParts(items[2..]);
      if variable.None? || second.None? || keys.None? then None
      else Some(Reference(variable.value, second.value, keys.value))
  }

  /** Refused only if neither part is as expected. */
  function HandleRefTerm(term: Json): Option<Operand> {
    var r := GetReference(term);
    if r.None? || (r.value.variable != "input" && r.value.second != "cluster") then None else Some(Path(r.value.keys))
  }

  function GetOperand(term: Json): Option<Operand> {
    var kind := StringField(term, "type");
    if kind == Some("string") then
      var text := StringField(term, "value");
      if text.Some? then Some(Literal(text.value)) else None
    else if kind == Some("ref") then HandleRefTerm(term)
    else None
  }

  /** An equality of two operands; everything else is not translated. */
  function GetSQLExpression(terms: seq<Json>): Option<(Operand, Operand)> {
    if |terms| != 3 || GetOperator(terms[0]) != Some("eq") then None
    else
      var left, right := GetOperand(terms[1]), GetOperand(terms[2]);
      if left.None? || right.None? then None else Some((left.value, right.value))
  }

  // ---------------------------------------------------------------- expressions and queries

  /** An expression with an array of terms, possibly negated. */
  datatype Expression = Expression(negated: bool, terms: seq<Json>)

  function ExpressionOf(raw: Json): Option<Expression> {
    var terms := Field(raw, "terms");
    if terms.None? || !terms.value.Array? then None
    else Some(Expression(Field(raw, "negated") == Some(Bool(true)), terms.value.items))
  }

  function TermTokens(e: Expression): seq<Token> {
    var equality := GetSQLExpression(e.terms);
    var atom := if equality.Some? then Equal(equality.value.0, equality.value.1) else if e.negated then True else False;
    if e.negated then [Not, LParen, atom, RParen] else [atom]
  }

  /** Without terms only a closing parenthesis is written and nothing was opened. */
  function ExpressionTokens(raw: Json): seq<Token> {
    var e := ExpressionOf(raw);
    if e.None? then [False, RParen] else [LParen] + TermTokens(e.value) + [RParen, And]
  }

  function ExpressionsTokens(query: seq<Json>): seq<Token> {
    if query == [] then [] else ExpressionTokens(query[0]) + ExpressionsTokens(query[1..])
  }

  function QueryTokens(raw: Json): seq<Token> {
    if !raw.Array? || raw.items == [] then []
    else [LParen] + ExpressionsTokens(raw.items) + [True, RParen, Or]
  }

  function QueriesTokens(queries: seq<Json>): seq<Token> {
    if queries == [] then [] else QueryTokens(queries[0]) + QueriesTokens(queries[1..])
  }

  lemma Associates(a: seq<Token>, b: seq<Token>, c: seq<Token>)
    ensures (a + b) + c == a + (b + c)
  {
  }

  lemma NextExpression(query: seq<Json>, k: nat, before: seq<Token>)
    requires k < |query|
    ensures before + ExpressionTokens(query[k]) + ExpressionsTokens(query[k + 1..]) ==
            before + ExpressionsTokens(query[k..])
  {
    assert query[k..][1..] == query[k + 1..] && query[k..][0] == query[k];
    Associates(before, ExpressionTokens(query[k]), ExpressionsTokens(query[k + 1..]));
    hide ExpressionTokens;
  }

  lemma NextQuery(queries: seq<Json>, k: nat, before: seq<Token>)
    requires k < |queries|
    ensures before + QueryTokens(queries[k]) + QueriesTokens(queries[k + 1..]) == before + QueriesTokens(queries[k..])
  {
    assert queries[k..][1..] == queries[k + 1..] && queries[k..][0] == queries[k];
    Associates(before, QueryTokens(queries[k]), QueriesTokens(queries[k + 1..]));
    hide QueryTokens;
  }

  /** A string builder; one token stands for the text of it. */
  class Builder {
    var tokens: seq<Token>

    constructor ()
      ensures tokens == []
    {
      tokens := [];
    }

    method Write(more: seq<Token>)
      modifies this
      ensures tokens == old(tokens) + more
    {
      tokens := tokens + more;
    }
  }

  /** The filter for the rows that the user may see; an error of the engine denies all. */
  method FilterByAuthorization(response: Option<Json>) returns (filter: seq<Token>)
    ensures filter == FilterOf(response)
  {
    if response.None? {
      return [False];
    }
    var queries := Field(response.value, "queries");
    if queries.None? || !queries.value.Array? || |queries.value.items| < 1 {
      return [False];
    }
    filter := HandleQueries(queries.value.items);
  }

  method HandleQueries(queries: seq<Json>) returns (filter: seq<Token>)
    requires queries != []
    ensures filter == if IsAllowAll(queries) then [True] else QueriesTokens(queries) + [False]
  {
    var sb := new Builder();
    assert queries[0..] == queries && sb.tokens + QueriesTokens(queries) == QueriesTokens(queries);
    for k := 0 to |queries|
      invariant sb.tokens + QueriesTokens(queries[k..]) == QueriesTokens(queries)
      invariant k > 0 ==> !IsAllowAll(queries)
    {
      ghost var before := sb.tokens;
      NextQuery(queries, k, before);
      assert !queries[k].Array? ==> before + QueryTokens(queries[k]) == before;
      hide QueriesTokens, QueryTokens;
      if !queries[k].Array? {
        continue;
      }
      if |queries| == 1 && |queries[k].items| == 0 {
        return [True];
      }
      HandleQuery(queries[k].items, sb);
      assert sb.tokens == before + QueryTokens(queries[k]);
    }
    assert queries[|queries|..] == [];
    hide QueryTokens;
    sb.Write([False]);
    return sb.tokens;
  }

  predicate IsAllowAll(queries: seq<Json>) {
    |queries| == 1 && queries[0] == Array([])
  }

  function FilterOf(response: Option<Json>): seq<Token> {
    var queries := if response.None? then None else Field(response.value, "queries");
    if queries.None? || !queries.value.Array? || queries.value.items == [] then [False]
    else if IsAllowAll(queries.value.items) then [True]
    else QueriesTokens(queries.value.items) + [False]
  }

  method HandleQuery(query: seq<Json>, sb: Builder)
    modifies sb
    ensures sb.tokens == old(sb.tokens) + QueryTokens(Array(query))
  {
    if |query| < 1 {
      return;
    }
    sb.Write([LParen]);
    ghost var start := sb.tokens;
    assert query[0..] == query;
    for k := 0 to |query|
      invariant sb.tokens + ExpressionsTokens(query[k..]) == start + ExpressionsTokens(query)
    {
      NextExpression(query, k, sb.tokens);
      hide ExpressionsTokens, ExpressionTokens;
      HandleExpression(query[k], sb);
    }
    assert query[|query|..] == [];
    assert sb.tokens == start + ExpressionsTokens(query);
    ghost var before := old(sb.tokens);
    hide ExpressionsTokens, ExpressionTokens;
    sb.Write([True]);
    sb.Write([RParen, Or]);
    WholeQuery(before, ExpressionsTokens(query));
  }

  lemma WholeQuery(before: seq<Token>, expressions: seq<Token>)
    ensures before + [LParen] + expressions + [True] + [RParen, Or] ==
            before + ([LParen] + expressions + [True, RParen, Or])
  {
  }

  method HandleExpression(raw: Json, sb: Builder)
    modifies sb
    ensures sb.tokens == old(sb.tokens) + ExpressionTokens(raw)
  {
    if !raw.Object? {
      sb.Write([False, RParen]);
      return;
    }
    var negated := "negated" in raw.fields && raw.fields["negated"].Bool? && raw.fields["negated"].b;
    if "terms" !in raw.fields || !raw.fields["terms"].Array? {
      sb.Write([False, RParen]);
      return;
    }
    sb.Write([LParen]);
    HandleTermsArray(raw.fields["terms"].items, negated, sb);
    sb.Write([RParen, And]);
  }

  method HandleTermsArray(terms: seq<Json>, negated: bool, sb: Builder)
    modifies sb
    ensures sb.tokens == old(sb.tokens) + TermTokens(Expression(negated, terms))
  {
    if negated {
      sb.Write([Not, LParen]);
    }
    var equality := GetSQLExpression(terms);
    if equality.Some? {
      sb.Write([Equal(equality.value.0, equality.value.1)]);
    } else {
      sb.Write([if negated then True else False]);
    }
    if negated {
      sb.Write([RParen]);
    }
  }
}
