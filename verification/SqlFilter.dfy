/**
 Boolean filters as SQL reads them: tokens, a parser with SQL's precedence, and evaluation.
 Equalities between operands are atoms.
 */
module SqlFilter {
  import opened Options

  /** A quoted literal, or a path of keys into the payload column. */
  datatype Operand = Literal(text: string) | Path(keys: seq<string>)

  datatype Token = LParen | RParen | And | Or | Not | True | False | Equal(left: Operand, right: Operand)

  datatype Formula =
    | Constant(value: bool)
    | Atom(left: Operand, right: Operand)
    | Negation(f: Formula)
    | Conjunction(f: Formula, g: Formula)
    | Disjunction(f: Formula, g: Formula)

  /** Which equalities hold for a row. */
  type Atoms = (Operand, Operand) -> bool

  predicate Holds(f: Formula, atoms: Atoms) {
    match f
    case Constant(value) => value
    case Atom(left, right) => atoms(left, right)
    case Negation(g) => !Holds(g, atoms)
    case Conjunction(g, h) => Holds(g, atoms) && Holds(h, atoms)
    case Disjunction(g, h) => Holds(g, atoms) || Holds(h, atoms)
  }

  type Parsed = Option<(Formula, seq<Token>)>

  /** OR binds weaker than AND, which binds weaker than NOT. */
  function ParseOr(ts: seq<Token>): (r: Parsed)
    ensures r.Some? ==> |r.value.1| < |ts|
    decreases |ts|, 3
  {
    var first := ParseAnd(ts);
    if first.None? || first.value.1 == [] || first.value.1[0] != Or then first
    else
      var second := ParseOr(first.value.1[1..]);
      if second.None? then None else Some((Disjunction(first.value.0, second.value.0), second.value.1))
  }

  function ParseAnd(ts: seq<Token>): (r: Parsed)
    ensures r.Some? ==> |r.value.1| < |ts|
    decreases |ts|, 2
  {
    var first := ParseNot(ts);
    if first.None? || first.value.1 == [] || first.value.1[0] != And then first
    else
      var second := ParseAnd(first.value.1[1..]);
      if second.None? then None else Some((Conjunction(first.value.0, second.value.0), second.value.1))
  }

  function ParseNot(ts: seq<Token>): (r: Parsed)
    ensures r.Some? ==> |r.value.1| < |ts|
    decreases |ts|, 1
  {
    if ts != [] && ts[0] == Not then
      var inner := ParseNot(ts[1..]);
      if inner.None? then None else Some((Negation(inner.value.0), inner.value.1))
    else ParsePrimary(ts)
  }

  function ParsePrimary(ts: seq<Token>): (r: Parsed)
    ensures r.Some? ==> |r.value.1| < |ts|
    decreases |ts|, 0
  {
    if ts == [] then None
    else
      match ts[0]
      case True => Some((Constant(true), ts[1..]))
      case False => Some((Constant(false), ts[1..]))
      case Equal(left, right) => Some((Atom(left, right), ts[1..]))
      case LParen =>
        var inner := ParseOr(ts[1..]);
        if inner.None? || inner.value.1 == [] || inner.value.1[0] != RParen then None
        else Some((inner.value.0, inner.value.1[1..]))
      case _ => None
  }

  /** A filter is well formed if all of it is one formula. */
  function Parse(ts: seq<Token>): Option<Formula> {
    var r := ParseOr(ts);
    if r.None? || r.value.1 != [] then None else Some(r.value.0)
  }

  lemma ParseParens(inner: seq<Token>, f: Formula, rest: seq<Token>)
    requires ParseOr(inner) == Some((f, [RParen] + rest))
    ensures ParseNot([LParen] + inner) == Some((f, rest))
  {
    assert ([LParen] + inner)[1..] == inner;
    assert ([RParen] + rest)[1..] == rest;
    assert ParseNot([LParen] + inner) == ParsePrimary([LParen] + inner);
    hide ParseOr;
  }

  lemma AndThen(ts: seq<Token>, f: Formula, next: seq<Token>, g: Formula, rest: seq<Token>)
    requires ParseNot(ts) == Some((f, [And] + next)) && ParseAnd(next) == Some((g, rest))
    ensures ParseAnd(ts) == Some((Conjunction(f, g), rest))
  {
    assert ([And] + next)[1..] == next;
    hide ParseNot;
  }

  lemma OrThen(ts: seq<Token>, f: Formula, next: seq<Token>, g: Formula, rest: seq<Token>)
    requires ParseNot(ts) == Some((f, [Or] + next)) && ParseOr(next) == Some((g, rest))
    ensures ParseOr(ts) == Some((Disjunction(f, g), rest))
  {
    assert ([Or] + next)[1..] == next;
    assert ParseAnd(ts) == ParseNot(ts);
    hide ParseNot;
  }

  lemma EndsAtParen(ts: seq<Token>, f: Formula, rest: seq<Token>)
    requires ParseAnd(ts) == Some((f, [RParen] + rest))
    ensures ParseOr(ts) == Some((f, [RParen] + rest))
  {
    hide ParseAnd;
  }

  // ---------------------------------------------------------------- parentheses

  /** Opening minus closing parentheses. */
  function Depth(ts: seq<Token>): int
    decreases |ts|
  {
    if ts == [] then 0
    else Depth(ts[1..]) + if ts[0] == LParen then 1 else if ts[0] == RParen then -1 else 0
  }

  lemma {:induction false} DepthConcat(a: seq<Token>, b: seq<Token>)
    ensures Depth(a + b) == Depth(a) + Depth(b)
    decreases |a|
  {
    if a == [] {
      assert a + b == b;
    } else {
      assert (a + b)[1..] == a[1..] + b;
      DepthConcat(a[1..], b);
    }
  }

  /** What a parser consumes is balanced. */
  lemma {:induction false} OrBalanced(ts: seq<Token>)
    ensures ParseOr(ts).Some? ==> Depth(ts) == Depth(ParseOr(ts).value.1)
    decreases |ts|, 3
  {
    AndBalanced(ts);
    var first := ParseAnd(ts);
    if first.Some? && first.value.1 != [] && first.value.1[0] == Or {
      OrBalanced(first.value.1[1..]);
    }
  }

  lemma {:induction false} AndBalanced(ts: seq<Token>)
    ensures ParseAnd(ts).Some? ==> Depth(ts) == Depth(ParseAnd(ts).value.1)
    decreases |ts|, 2
  {
    NotBalanced(ts);
    var first := ParseNot(ts);
    if first.Some? && first.value.1 != [] && first.value.1[0] == And {
      AndBalanced(first.value.1[1..]);
    }
  }

  lemma {:induction false} NotBalanced(ts: seq<Token>)
    ensures ParseNot(ts).Some? ==> Depth(ts) == Depth(ParseNot(ts).value.1)
    decreases |ts|, 1
  {
    if ts != [] {
      if ts[0] == Not {
        NotBalanced(ts[1..]);
      } else if ts[0] == LParen {
        OrBalanced(ts[1..]);
      }
    }
  }

  lemma WellFormedIsBalanced(ts: seq<Token>)
    ensures Parse(ts).Some? ==> Depth(ts) == 0
  {
    OrBalanced(ts);
  }
}
