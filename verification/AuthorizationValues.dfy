/**
 The filter against the policy engine's own reading of a response: terms have values in the documents
 they refer to, operands have texts in a cluster's payload, and SQL's logic has a third value.
 */
module AuthorizationValues {
  import opened AuthorizationMeaning
  import opened AuthorizationSql
  import opened Options
  import opened SqlFilter

  // ---------------------------------------------------------------- the engine's side

  /** A string, or a reference: a variable and the keys that lead from it to a value. */
  datatype Term = Text(text: string) | Ref(variable: string, keys: seq<string>)

  predicate HasField(j: Json, name: string, value: Json) {
    j.Object? && name in j.fields && j.fields[name] == value
  }

  predicate IsString(j: Json, text: string) {
    HasField(j, "type", String("string")) && HasField(j, "value", String(text))
  }

  predicate IsVariable(j: Json, name: string) {
    HasField(j, "type", String("var")) && HasField(j, "value", String(name))
  }

  predicate IsPath(parts: seq<Json>, variable: string, keys: seq<string>) {
    && |parts| == |keys| + 1 && IsVariable(parts[0], variable)
    && forall i :: 0 <= i < |keys| ==> IsString(parts[i + 1], keys[i])
  }

  /** How the engine writes a term. */
  ghost predicate Denotes(j: Json, t: Term) {
    match t
    case Text(text) => IsString(j, text)
    case Ref(variable, keys) =>
      && HasField(j, "type", String("ref"))
      && exists parts :: HasField(j, "value", Array(parts)) && IsPath(parts, variable, keys)
  }

  ghost predicate IsEquality(terms: seq<Json>, left: Term, right: Term) {
    |terms| == 3 && Denotes(terms[0], Ref("eq", [])) && Denotes(terms[1], left) && Denotes(terms[2], right)
  }

  function Walk(j: Json, keys: seq<string>): Option<Json> {
    if keys == [] then Some(j)
    else if j.Object? && keys[0] in j.fields then Walk(j.fields[keys[0]], keys[1..])
    else None
  }

  /** A term's value, given what the variables stand for. */
  function ValueOf(t: Term, variables: map<string, Json>): Option<Json> {
    match t
    case Text(text) => Some(String(text))
    case Ref(variable, keys) => if variable in variables then Walk(variables[variable], keys) else None
  }

  /** The engine finds an equality true if both sides have the same value. Of other terms nothing is said. */
  ghost predicate Evaluates(truth: Truth, variables: map<string, Json>) {
    forall terms, left, right :: IsEquality(terms, left, right) ==>
      (truth(terms) <==> ValueOf(left, variables).Some? && ValueOf(left, variables) == ValueOf(right, variables))
  }

  predicate IsExpression(raw: Json, negated: bool, terms: seq<Json>) {
    HasField(raw, "terms", Array(terms)) && (negated <==> HasField(raw, "negated", Bool(true)))
  }

  ghost predicate ExpressionTrue(raw: Json, truth: Truth) {
    exists negated, terms :: IsExpression(raw, negated, terms) && truth(terms) != negated
  }

  ghost predicate QueryTrue(query: Json, truth: Truth) {
    query.Array? && forall i :: 0 <= i < |query.items| ==> ExpressionTrue(query.items[i], truth)
  }

  predicate HasQueries(response: Option<Json>, queries: seq<Json>) {
    response.Some? && HasField(response.value, "queries", Array(queries))
  }

  /** One of the response's queries is true. */
  ghost predicate MaySee(response: Option<Json>, truth: Truth) {
    exists queries, k :: HasQueries(response, queries) && 0 <= k < |queries| && QueryTrue(queries[k], truth)
  }

  // ---------------------------------------------------------------- the database's side

  /** The text of a JSON value; `show` stands for that of arrays and objects. */
  function Rendered(j: Json, show: Json -> string): string {
    match j
    case Null => "null"
    case Bool(b) => if b then "true" else "false"
    case Number(text) => text
    case String(s) => s
    case Array(_) => show(j)
    case Object(_) => show(j)
  }

  /** An operand's text for a row; None for NULL. The payload as a whole is not comparable with a text. */
  function TextAt(o: Operand, payload: Json, show: Json -> string): Option<string> {
    match o
    case Literal(text) => Some(text)
    case Path(keys) =>
      var value := Walk(payload, keys);
      if keys == [] || value.None? || value.value.Null? then None else Some(Rendered(value.value, show))
  }

  function And3(a: Option<bool>, b: Option<bool>): Option<bool> {
    if a == Some(false) || b == Some(false) then Some(false)
    else if a == Some(true) && b == Some(true) then Some(true)
    else None
  }

  /** SQL's evaluation of a condition for a row: true, false or unknown. */
  function Eval(f: Formula, payload: Json, show: Json -> string): Option<bool> {
    match f
    case Constant(value) => Some(value)
    case Atom(left, right) =>
      var a, b := TextAt(left, payload, show), TextAt(right, payload, show);
      if a.None? || b.None? then None else Some(a == b)
    case Negation(g) =>
      var v := Eval(g, payload, show);
      if v.None? then None else Some(!v.value)
    case Conjunction(g, h) => And3(Eval(g, payload, show), Eval(h, payload, show))
    case Disjunction(g, h) =>
      var a, b := Eval(g, payload, show), Eval(h, payload, show);
      if a == Some(true) || b == Some(true) then Some(true)
      else if a == Some(false) && b == Some(false) then Some(false)
      else None
  }

  /** WHERE keeps a row only if its condition is true; a malformed condition keeps none. */
  predicate Selects(filter: seq<Token>, payload: Json, show: Json -> string) {
    Parse(filter).Some? && Eval(Parse(filter).value, payload, show) == Some(true)
  }

  // ---------------------------------------------------------------- a translated operand has its term's value

  /** References are accepted unless both the variable and the first key are other than expected. */
  predicate Accepted(t: Term) {
    t.Ref? ==> t.keys != [] && (t.variable == "input" || t.keys[0] == "cluster")
  }

  /** Its translation: what follows the first key is looked up in the payload. */
  function OperandFor(t: Term): Operand
    requires Accepted(t)
  {
    if t.Text? then Literal(t.text) else Path(t.keys[1..])
  }

  lemma {:induction false} PartsAreKeys(parts: seq<Json>, keys: seq<string>)
    requires |parts| == |keys| && forall i :: 0 <= i < |keys| ==> IsString(parts[i], keys[i])
    ensures StringParts(parts) == Some(keys)
    decreases |parts|
  {
    if parts != [] {
      PartsAreKeys(parts[1..], keys[1..]);
      assert keys == [keys[0]] + keys[1..];
    }
  }

  lemma {:induction false} KeysOfParts(parts: seq<Json>)
    requires StringParts(parts).Some?
    ensures |StringParts(parts).value| == |parts|
    ensures forall i :: 0 <= i < |parts| ==> IsString(parts[i], StringParts(parts).value[i])
    decreases |parts|
  {
    if parts != [] {
      KeysOfParts(parts[1..]);
    }
  }

  lemma ReferenceOfTerm(j: Json, variable: string, keys: seq<string>)
    requires Denotes(j, Ref(variable, keys))
    ensures GetReference(j) == if keys == [] then None else Some(Reference(variable, keys[0], keys[1..]))
  {
    var parts :| HasField(j, "value", Array(parts)) && IsPath(parts, variable, keys);
    if keys != [] {
      assert forall i :: 0 <= i < |keys[1..]| ==> parts[2..][i] == parts[i + 2] && keys[1..][i] == keys[i + 1];
      PartsAreKeys(parts[2..], keys[1..]);
      assert IsString(parts[1], keys[0]);
      hide StringParts;
    }
  }

  /** Exactly the accepted terms are translated. */
  lemma OperandOfTerm(j: Json, t: Term)
    requires Denotes(j, t)
    ensures GetOperand(j) == if Accepted(t) then Some(OperandFor(t)) else None
  {
    if t.Ref? {
      ReferenceOfTerm(j, t.variable, t.keys);
      hide GetReference;
    }
  }

  lemma TermOfOperand(j: Json) returns (t: Term)
    requires GetOperand(j).Some?
    ensures Denotes(j, t) && Accepted(t)
  {
    if StringField(j, "type") == Some("string") {
      t := Text(StringField(j, "value").value);
    } else {
      var r := GetReference(j).value;
      var parts := Field(j, "value").value.items;
      KeysOfParts(parts[2..]);
      t := Ref(r.variable, [r.second] + r.keys);
      assert IsPath(parts, t.variable, t.keys);
      assert HasField(j, "value", Array(parts));
    }
  }

  lemma OperatorIs(j: Json)
    ensures GetOperator(j) == Some("eq") <==> Denotes(j, Ref("eq", []))
  {
    if GetOperator(j) == Some("eq") {
      var parts := Field(j, "value").value.items;
      assert HasField(j, "value", Array(parts)) && IsPath(parts, "eq", []);
    }
  }

  lemma EqualityIsTranslated(terms: seq<Json>, left: Term, right: Term)
    requires IsEquality(terms, left, right) && Accepted(left) && Accepted(right)
    ensures GetSQLExpression(terms) == Some((OperandFor(left), OperandFor(right)))
  {
    hide GetOperator, GetOperand, Denotes;
    OperatorIs(terms[0]);
    OperandOfTerm(terms[1], left);
    OperandOfTerm(terms[2], right);
  }

  lemma TranslatedIsEquality(terms: seq<Json>) returns (left: Term, right: Term)
    requires GetSQLExpression(terms).Some?
    ensures IsEquality(terms, left, right) && Accepted(left) && Accepted(right)
  {
    hide GetOperator, GetOperand, Denotes;
    OperatorIs(terms[0]);
    left := TermOfOperand(terms[1]);
    right := TermOfOperand(terms[2]);
  }

  /** The engine evaluates on documents in which this is the cluster. */
  predicate IsPayload(variables: map<string, Json>, payload: Json) {
    "input" in variables && HasField(variables["input"], "cluster", payload)
  }

  /** A string, or a reference into the cluster to a string, to null or to nothing. */
  predicate Plain(t: Term, payload: Json) {
    t.Ref? ==>
      && t.variable == "input" && |t.keys| >= 2 && t.keys[0] == "cluster"
      && var value := Walk(payload, t.keys[1..]);
         value.Some? ==> value.value.Null? || value.value.String?
  }

  predicate IsText(t: Term, variables: map<string, Json>) {
    ValueOf(t, variables).Some? && ValueOf(t, variables).value.String?
  }

  /** An operand's text is its term's value. */
  lemma TextIsValue(t: Term, variables: map<string, Json>, payload: Json, show: Json -> string)
    requires Accepted(t) && Plain(t, payload) && IsPayload(variables, payload)
    ensures TextAt(OperandFor(t), payload, show) ==
            if IsText(t, variables) then Some(ValueOf(t, variables).value.s) else None
  {
    if t.Ref? {
      assert Walk(variables["input"], t.keys) == Walk(payload, t.keys[1..]);
    }
  }

  // ---------------------------------------------------------------- expressions

  lemma SameExpression(raw: Json, negated: bool, terms: seq<Json>)
    ensures IsExpression(raw, negated, terms) <==> ExpressionOf(raw) == Some(Expression(negated, terms))
  {
  }

  /** The equality, which the filter contains, compares two strings. */
  ghost predicate ComparesTexts(raw: Json, variables: map<string, Json>) {
    exists negated, terms, left, right ::
      && IsExpression(raw, negated, terms) && IsEquality(terms, left, right) && Accepted(left) && Accepted(right)
      && IsText(left, variables) && IsText(right, variables)
  }

  ghost predicate PlainExpression(raw: Json, payload: Json) {
    forall negated, terms, left, right ::
      IsExpression(raw, negated, terms) && IsEquality(terms, left, right) && Accepted(left) && Accepted(right) ==>
        Plain(left, payload) && Plain(right, payload)
  }

  /** The part of the filter for an expression is true for a row. */
  predicate Passes(raw: Json, payload: Json, show: Json -> string) {
    ExpressionOf(raw).Some? && Eval(TermFormula(ExpressionOf(raw).value), payload, show) == Some(true)
  }

  lemma ExpressionTrueIff(raw: Json, negated: bool, terms: seq<Json>, truth: Truth)
    requires IsExpression(raw, negated, terms)
    ensures ExpressionTrue(raw, truth) <==> truth(terms) != negated
  {
    SameExpression(raw, negated, terms);
    forall n, ts | IsExpression(raw, n, ts)
      ensures n == negated && ts == terms
    {
      SameExpression(raw, n, ts);
    }
  }

  lemma TermIsTrueIff(e: Expression, payload: Json, show: Json -> string)
    ensures var equality := GetSQLExpression(e.terms);
            Eval(TermFormula(e), payload, show) == Some(true) <==>
            && equality.Some?
            && var a, b := TextAt(equality.value.0, payload, show), TextAt(equality.value.1, payload, show);
               a.Some? && b.Some? && (a == b) != e.negated
  {
    hide GetSQLExpression, TextAt;
    var equality := GetSQLExpression(e.terms);
    var atom := if equality.Some? then Atom(equality.value.0, equality.value.1) else Constant(e.negated);
    assert TermFormula(e) == if e.negated then Negation(atom) else atom;
  }

  lemma EqualityPasses(raw: Json, negated: bool, terms: seq<Json>, left: Term, right: Term, truth: Truth,
                       variables: map<string, Json>, payload: Json, show: Json -> string)
    requires IsExpression(raw, negated, terms) && IsEquality(terms, left, right) && Accepted(left) && Accepted(right)
    requires Evaluates(truth, variables) && IsPayload(variables, payload)
    requires Plain(left, payload) && Plain(right, payload)
    ensures Passes(raw, payload, show) <==>
            IsText(left, variables) && IsText(right, variables) && ExpressionTrue(raw, truth)
  {
    hide GetSQLExpression, TextAt, IsEquality, OperandFor, IsExpression, ExpressionOf, TermFormula, Eval, Plain;
    hide IsPayload, Accepted, ExpressionTrue;
    SameExpression(raw, negated, terms);
    ExpressionTrueIff(raw, negated, terms, truth);
    TermIsTrueIff(Expression(negated, terms), payload, show);
    EqualityIsTranslated(terms, left, right);
    TextIsValue(left, variables, payload, show);
    TextIsValue(right, variables, payload, show);
  }

  /** Only an equality of two strings can make its part true, and exactly when the engine finds it true. */
  lemma ExpressionPassesIff(raw: Json, truth: Truth, variables: map<string, Json>, payload: Json, show: Json -> string)
    requires Evaluates(truth, variables) && IsPayload(variables, payload) && PlainExpression(raw, payload)
    ensures Passes(raw, payload, show) <==> ComparesTexts(raw, variables) && ExpressionTrue(raw, truth)
  {
    hide IsEquality, Accepted, Plain, IsText, TextAt, Evaluates, IsPayload, ExpressionTrue, GetSQLExpression;
    hide TermFormula, Eval;
    if ComparesTexts(raw, variables) {
      var negated, terms, left, right :|
        && IsExpression(raw, negated, terms) && IsEquality(terms, left, right) && Accepted(left) && Accepted(right)
        && IsText(left, variables) && IsText(right, variables);
      EqualityPasses(raw, negated, terms, left, right, truth, variables, payload, show);
    } else if Passes(raw, payload, show) {
      var e := ExpressionOf(raw).value;
      SameExpression(raw, e.negated, e.terms);
      TermIsTrueIff(e, payload, show);
      var left, right := TranslatedIsEquality(e.terms);
      EqualityPasses(raw, e.negated, e.terms, left, right, truth, variables, payload, show);
    }
  }

  // ---------------------------------------------------------------- queries

  lemma {:induction false} ConjunctionIsTrueIff(items: seq<Json>, payload: Json, show: Json -> string)
    requires forall i :: 0 <= i < |items| ==> ExpressionOf(items[i]).Some?
    ensures Eval(ConjunctionOf(items), payload, show) == Some(true) <==>
            forall i :: 0 <= i < |items| ==> Passes(items[i], payload, show)
    decreases |items|
  {
    hide ExpressionOf, TermFormula;
    if items != [] {
      var rest := items[1..];
      assert forall i :: 0 <= i < |rest| ==> rest[i] == items[i + 1];
      ConjunctionIsTrueIff(rest, payload, show);
      assert forall i :: 1 <= i < |items| ==> items[i] == rest[i - 1];
      assert Eval(ConjunctionOf(items), payload, show) == Some(true) <==>
             Passes(items[0], payload, show) && Eval(ConjunctionOf(rest), payload, show) == Some(true);
    }
  }

  /** All parts of a query that has some are true. */
  predicate QueryPasses(query: Json, payload: Json, show: Json -> string) {
    query.Array? && query.items != [] && forall i :: 0 <= i < |query.items| ==> Passes(query.items[i], payload, show)
  }

  lemma {:induction false} DisjunctionIsTrueIff(queries: seq<Json>, payload: Json, show: Json -> string)
    requires AllShaped(queries)
    ensures Eval(DisjunctionOf(queries), payload, show) == Some(true) <==>
            exists k :: 0 <= k < |queries| && QueryPasses(queries[k], payload, show)
    decreases |queries|
  {
    hide Passes;
    if queries != [] {
      var first, rest := queries[0], queries[1..];
      assert Shaped(first) && forall k :: 0 <= k < |rest| ==> rest[k] == queries[k + 1];
      DisjunctionIsTrueIff(rest, payload, show);
      if first.Array? && first.items != [] {
        ConjunctionIsTrueIff(first.items, payload, show);
      }
      assert Eval(DisjunctionOf(queries), payload, show) == Some(true) <==>
             QueryPasses(first, payload, show) || Eval(DisjunctionOf(rest), payload, show) == Some(true);
      hide QueryPasses, Eval, DisjunctionOf;
      assert forall k :: 1 <= k < |queries| ==> queries[k] == rest[k - 1];
      assert (exists k :: 0 <= k < |queries| && QueryPasses(queries[k], payload, show)) ==>
             QueryPasses(first, payload, show)
             || exists k :: 0 <= k < |rest| && QueryPasses(rest[k], payload, show) by {
        if k :| 0 <= k < |queries| && QueryPasses(queries[k], payload, show) {
          assert k > 0 ==> QueryPasses(rest[k - 1], payload, show);
        }
      }
    }
  }

  ghost predicate PlainQuery(query: Json, payload: Json) {
    query.Array? ==> forall i :: 0 <= i < |query.items| ==> PlainExpression(query.items[i], payload)
  }

  /** Every equality that the filter contains is on strings and on references to strings of the cluster. */
  ghost predicate PlainResponse(response: Option<Json>, payload: Json) {
    forall queries, k :: HasQueries(response, queries) && 0 <= k < |queries| ==> PlainQuery(queries[k], payload)
  }

  /** All of a query are equalities of strings, and all are true. */
  ghost predicate Shows(query: Json, truth: Truth, variables: map<string, Json>) {
    && query.Array? && query.items != [] && QueryTrue(query, truth)
    && forall i :: 0 <= i < |query.items| ==> ComparesTexts(query.items[i], variables)
  }

  lemma QueryPassesIff(query: Json, truth: Truth, variables: map<string, Json>, payload: Json, show: Json -> string)
    requires Evaluates(truth, variables) && IsPayload(variables, payload) && PlainQuery(query, payload)
    ensures QueryPasses(query, payload, show) <==> Shows(query, truth, variables)
  {
    hide Passes, ExpressionTrue, ComparesTexts, PlainExpression, Evaluates, IsPayload;
    if query.Array? {
      forall i | 0 <= i < |query.items|
        ensures Passes(query.items[i], payload, show) <==>
                ComparesTexts(query.items[i], variables) && ExpressionTrue(query.items[i], truth)
      {
        ExpressionPassesIff(query.items[i], truth, variables, payload, show);
      }
    }
  }

  lemma FilterOfQueries(response: Option<Json>, queries: seq<Json>)
    requires HasQueries(response, queries)
    ensures queries != [] ==> FilterOf(response) == FilterOf(Response(queries))
    ensures queries == [] ==> FilterOf(response) == [False]
  {
    hide QueriesTokens;
  }

  lemma FalseSelectsNothing(payload: Json, show: Json -> string)
    ensures Parse([False]) == Some(Constant(false)) && !Selects([False], payload, show)
  {
    assert ParseNot([False]) == ParsePrimary([False]) == Some((Constant(false), []));
    assert ParseAnd([False]) == ParseNot([False]);
  }

  /**
   What the filter selects, for a response whose expressions all have terms: a row exactly when some
   query is true and compares nothing but strings, or the only query is empty.
   */
  lemma FilterSelectsByValueIff(response: Option<Json>, queries: seq<Json>, truth: Truth,
                                variables: map<string, Json>, payload: Json, show: Json -> string)
    requires HasQueries(response, queries) && AllShaped(queries) && PlainResponse(response, payload)
    requires Evaluates(truth, variables) && IsPayload(variables, payload)
    ensures Selects(FilterOf(response), payload, show) <==>
            || queries == [Array([])]
            || exists k :: 0 <= k < |queries| && Shows(queries[k], truth, variables)
  {
    hide FilterOf, Parse, Shows, QueryPasses, DisjunctionOf, Evaluates, IsPayload, PlainQuery;
    FilterOfQueries(response, queries);
    if queries == [] {
      FalseSelectsNothing(payload, show);
    } else {
      FilterIsWellFormedIff(queries);
      if !IsAllowAll(queries) {
        DisjunctionIsTrueIff(queries, payload, show);
        forall k | 0 <= k < |queries|
          ensures QueryPasses(queries[k], payload, show) <==> Shows(queries[k], truth, variables)
        {
          QueryPassesIff(queries[k], truth, variables, payload, show);
        }
      }
    }
  }

  /** Whatever the response, the filter selects no row that the engine's queries do not allow. */
  lemma FilterNeverShowsMore(response: Option<Json>, truth: Truth, variables: map<string, Json>, payload: Json,
                             show: Json -> string)
    requires Evaluates(truth, variables) && IsPayload(variables, payload) && PlainResponse(response, payload)
    ensures Selects(FilterOf(response), payload, show) ==> MaySee(response, truth)
  {
    hide Parse, Eval, Evaluates, IsPayload, PlainResponse, Shows, Selects;
    if Selects(FilterOf(response), payload, show) {
      FalseSelectsNothing(payload, show);
      var queries := Field(response.value, "queries").value.items;
      assert HasQueries(response, queries);
      FilterOfQueries(response, queries);
      hide FilterOf;
      SelectedIsWellFormed(queries, payload, show);
      FilterSelectsByValueIff(response, queries, truth, variables, payload, show);
      if queries == [Array([])] {
        assert QueryTrue(queries[0], truth);
      } else {
        var k :| 0 <= k < |queries| && Shows(queries[k], truth, variables);
        ShownIsTrue(queries[k], truth, variables);
      }
    }
  }

  lemma ShownIsTrue(query: Json, truth: Truth, variables: map<string, Json>)
    requires Shows(query, truth, variables)
    ensures QueryTrue(query, truth)
  {
  }

  lemma SelectedIsWellFormed(queries: seq<Json>, payload: Json, show: Json -> string)
    requires queries != [] && Selects(FilterOf(Response(queries)), payload, show)
    ensures AllShaped(queries)
  {
    hide FilterOf, Parse;
    FilterIsWellFormedIff(queries);
  }

  // ---------------------------------------------------------------- where the filter and the engine differ

  function StringTerm(text: string): Json { Object(map["type" := String("string"), "value" := String(text)]) }

  function VariableTerm(name: string): Json { Object(map["type" := String("var"), "value" := String(name)]) }

  /** The parts of a reference's encoding. */
  function PartsOf(variable: string, keys: seq<string>): seq<Json> {
    [VariableTerm(variable)] + seq(|keys|, i requires 0 <= i < |keys| => StringTerm(keys[i]))
  }

  function Encoded(t: Term): Json {
    match t
    case Text(text) => StringTerm(text)
    case Ref(variable, keys) =>
      Object(map["type" := String("ref"), "value" := Array(PartsOf(variable, keys))])
  }

  lemma PartsArePath(variable: string, keys: seq<string>)
    ensures IsPath(PartsOf(variable, keys), variable, keys)
  {
  }

  lemma EncodedDenotes(t: Term)
    ensures Denotes(Encoded(t), t)
  {
    if t.Ref? {
      PartsArePath(t.variable, t.keys);
      hide PartsOf, IsPath;
      assert HasField(Encoded(t), "value", Array(PartsOf(t.variable, t.keys)));
    }
  }

  function EqualityOf(left: Term, right: Term): seq<Json> { [Encoded(Ref("eq", [])), Encoded(left), Encoded(right)] }

  /** A query with one equality. */
  function QueryOf(left: Term, right: Term, negated: bool): Json {
    Array([Object(map["terms" := Array(EqualityOf(left, right)), "negated" := Bool(negated)])])
  }

  lemma QueryDenotes(left: Term, right: Term, negated: bool)
    ensures IsEquality(EqualityOf(left, right), left, right)
    ensures IsExpression(QueryOf(left, right, negated).items[0], negated, EqualityOf(left, right))
    ensures ExpressionOf(QueryOf(left, right, negated).items[0]) == Some(Expression(negated, EqualityOf(left, right)))
  {
    hide Encoded, Denotes;
    EncodedDenotes(Ref("eq", []));
    EncodedDenotes(left);
    EncodedDenotes(right);
  }

  lemma OneSelects(left: Term, right: Term, negated: bool, payload: Json, show: Json -> string)
    requires Accepted(left) && Accepted(right)
    ensures var a, b := TextAt(OperandFor(left), payload, show), TextAt(OperandFor(right), payload, show);
            Selects(FilterOf(Response([QueryOf(left, right, negated)])), payload, show) <==>
            a.Some? && b.Some? && (a == b) != negated
  {
    hide TextAt, OperandFor, FilterOf, Parse, DisjunctionOf, Accepted, EqualityOf, TermFormula, GetSQLExpression;
    hide IsEquality, IsExpression, ExpressionOf, Eval;
    var query := QueryOf(left, right, negated);
    QueryDenotes(left, right, negated);
    EqualityIsTranslated(EqualityOf(left, right), left, right);
    TermIsTrueIff(Expression(negated, EqualityOf(left, right)), payload, show);
    assert [query][0] == query && AllShaped([query]);
    FilterIsWellFormedIff([query]);
    DisjunctionIsTrueIff([query], payload, show);
  }

  /** One equality: selected if both texts are known and compare as asked, allowed if the values do. */
  lemma OneEquality(left: Term, right: Term, negated: bool, truth: Truth, variables: map<string, Json>, payload: Json,
                    show: Json -> string)
    requires Accepted(left) && Accepted(right) && Evaluates(truth, variables)
    ensures var response := Response([QueryOf(left, right, negated)]);
            var a, b := TextAt(OperandFor(left), payload, show), TextAt(OperandFor(right), payload, show);
            var v, w := ValueOf(left, variables), ValueOf(right, variables);
            && (Selects(FilterOf(response), payload, show) <==> a.Some? && b.Some? && (a == b) != negated)
            && (MaySee(response, truth) <==> (v.Some? && v == w) != negated)
  {
    hide TextAt, OperandFor, ValueOf, FilterOf, Accepted, EqualityOf, MaySee, Response, Selects;
    hide IsEquality, IsExpression, ExpressionTrue;
    OneSelects(left, right, negated, payload, show);
    var query := QueryOf(left, right, negated);
    QueryDenotes(left, right, negated);
    ExpressionTrueIff(query.items[0], negated, EqualityOf(left, right), truth);
    OneQuery(query, truth);
  }

  lemma OneQuery(query: Json, truth: Truth)
    ensures MaySee(Response([query]), truth) <==> QueryTrue(query, truth)
  {
    hide QueryTrue;
    assert HasQueries(Response([query]), [query]);
    if QueryTrue(query, truth) {
      assert QueryTrue([query][0], truth);
    }
  }

  const LABEL := Ref("input", ["cluster", "a"])

  /** The documents of the engine: the cluster, and the user's name. */
  function Documents(payload: Json): map<string, Json> {
    map["input" := Object(map["cluster" := payload, "user" := Object(map["name" := String("x")])])]
  }

  /** A value that is true compared with the text "true": selected but not allowed. */
  lemma BooleanIsReadAsText(truth: Truth, show: Json -> string)
    requires Evaluates(truth, Documents(Object(map["a" := Bool(true)])))
    ensures var response := Response([QueryOf(LABEL, Text("true"), false)]);
            Selects(FilterOf(response), Object(map["a" := Bool(true)]), show) && !MaySee(response, truth)
  {
    var payload := Object(map["a" := Bool(true)]);
    assert OperandFor(LABEL) == Path(["a"]) && Walk(payload, ["a"]) == Some(Bool(true));
    assert Walk(Documents(payload)["input"], ["cluster", "a"]) == Walk(payload, ["a"]);
    OneEquality(LABEL, Text("true"), false, truth, Documents(payload), payload, show);
    hide Selects, FilterOf, MaySee, Evaluates;
  }

  lemma UserName(payload: Json)
    ensures ValueOf(Ref("input", ["user", "name"]), Documents(payload)) == Some(String("x"))
  {
    var user := Object(map["name" := String("x")]);
    assert Walk(Documents(payload)["input"], ["user", "name"]) == Walk(user, ["name"]) == Some(String("x"));
  }

  /** A reference to the user's name is looked up in the cluster. */
  lemma OtherReferenceIsReadInCluster(truth: Truth, show: Json -> string)
    requires Evaluates(truth, Documents(Object(map["name" := String("c1")])))
    ensures var response := Response([QueryOf(Ref("input", ["user", "name"]), Text("c1"), false)]);
            Selects(FilterOf(response), Object(map["name" := String("c1")]), show) && !MaySee(response, truth)
  {
    hide Selects, FilterOf, MaySee, Evaluates, Walk, TextAt, ValueOf, OperandFor;
    var payload, name := Object(map["name" := String("c1")]), Ref("input", ["user", "name"]);
    UserName(payload);
    NameInCluster(show);
    TextsOfStrings("c1", payload, Documents(payload), show);
    OneEquality(name, Text("c1"), false, truth, Documents(payload), payload, show);
  }

  lemma NameInCluster(show: Json -> string)
    ensures var payload := Object(map["name" := String("c1")]);
            TextAt(OperandFor(Ref("input", ["user", "name"])), payload, show) == Some("c1")
  {
    assert OperandFor(Ref("input", ["user", "name"])) == Path(["name"]);
    assert Walk(Object(map["name" := String("c1")]), ["name"]) == Some(String("c1"));
  }

  lemma TextsOfStrings(text: string, payload: Json, variables: map<string, Json>, show: Json -> string)
    ensures TextAt(OperandFor(Text(text)), payload, show) == Some(text)
    ensures ValueOf(Text(text), variables) == Some(String(text))
  {
  }

  /** A negated equality on a missing value is true for the engine and unknown for the database. */
  lemma NegatedMissingIsNotSelected(truth: Truth, show: Json -> string)
    requires Evaluates(truth, Documents(Object(map[])))
    ensures var response := Response([QueryOf(LABEL, Text("x"), true)]);
            !Selects(FilterOf(response), Object(map[]), show) && MaySee(response, truth)
  {
    var payload := Object(map[]);
    assert OperandFor(LABEL) == Path(["a"]) && Walk(payload, ["a"]) == None;
    assert Walk(Documents(payload)["input"], ["cluster", "a"]) == Walk(payload, ["a"]);
    OneEquality(LABEL, Text("x"), true, truth, Documents(payload), payload, show);
    hide Selects, FilterOf, MaySee, Evaluates;
  }
}
