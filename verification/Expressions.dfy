/**
 The filter expression tree and the in-memory evaluator (core/src/expressions/evaluate.ts).

 An evaluation answers `Some(true)`, `Some(false)` or `None`; `None` is the evaluator's
 `undefined`: "this row cannot be judged here, keep it".
 */
module Expressions {
  import opened Options

  datatype Value =
    | Undefined
    | Null
    | Bool(b: bool)
    | Num(n: real)
    | Text(s: string)
    | List(items: seq<Value>)
    | Obj(fields: map<string, Value>)

  datatype Kind = StringKind | NumberKind | BooleanKind | ArrayKind | OtherKind

  type Path = seq<string>

  datatype PropertyInfo = PropertyInfo(path: Path, kind: Kind, isKey: bool)

  /** A row, by property path. A path the row does not hold reads as `Undefined`. */
  type Row = map<Path, Value>

  /** The JavaScript primitives the filter code leans on and this model does not define. */
  datatype Js = Js(
    number: string -> real,                  // Number(numeral)
    coerce: (Kind, Value) -> Value,          // String(v), Number(v), Boolean(v) on a value of another kind
    looseAcross: (Value, Value) -> bool,     // a == b on two different, non-null kinds
    textLess: (string, string) -> bool,      // a < b on strings
    lower: string -> string,
    upper: string -> string)

  datatype Transformer = ToLower(locale: Option<string>) | ToUpper(locale: Option<string>) | Length

  datatype Comparison =
    | Equals | GreaterThan | GreaterThanEquals | LessThan | LessThanEquals
    | StartsWith | EndsWith | Includes

  datatype Expr =
    | Empty
    | NotParsable
    | Absent                                              // a missing left or right child
    | Property(property: PropertyInfo, transformer: Option<Transformer>)
    | Literal(value: Value, transformer: Option<Transformer>)
    | ParamReference(path: Path, paired: Option<Kind>, applyConverter: bool, transformer: Option<Transformer>)
    | Comparator(comparison: Comparison, negated: bool, strict: bool, left: Expr, right: Expr)
    | Operator(conjunction: bool, left: Expr, right: Expr)

  predicate Nullish(v: Value) { v == Undefined || v == Null }

  predicate SameKind(a: Value, b: Value) {
    match a
    case Undefined => b.Undefined?
    case Null => b.Null?
    case Bool(_) => b.Bool?
    case Num(_) => b.Num?
    case Text(_) => b.Text?
    case List(_) => b.List?
    case Obj(_) => b.Obj?
  }

  predicate StrictEquals(a: Value, b: Value) { a == b }

  predicate LooseEquals(js: Js, a: Value, b: Value) {
    if Nullish(a) || Nullish(b) then Nullish(a) && Nullish(b)
    else if SameKind(a, b) then a == b
    else js.looseAcross(a, b)
  }

  predicate EqualsAs(js: Js, a: Value, b: Value, strict: bool) {
    if strict then StrictEquals(a, b) else LooseEquals(js, a, b)
  }

  predicate OccursAt(s: string, t: string, i: nat) {
    i + |t| <= |s| && s[i..i + |t|] == t
  }

  predicate Contains(s: string, t: string) {
    exists i | 0 <= i <= |s| - |t| :: OccursAt(s, t, i)
  }

  predicate EndsIn(s: string, t: string) {
    |t| <= |s| && s[|s| - |t|..] == t
  }

  // ----- evaluate.ts -----

  /** `None` stands for the source's UNRESOLVED marker. */
  function ApplyTransformer(js: Js, v: Value, t: Option<Transformer>): Option<Value> {
    match t
    case None => Some(v)
    case Some(ToLower(_)) => if v.Text? then Some(Text(js.lower(v.s))) else None
    case Some(ToUpper(_)) => if v.Text? then Some(Text(js.upper(v.s))) else None
    case Some(Length) =>
      if v.Text? then Some(Num(|v.s| as real))
      else if v.List? then Some(Num(|v.items| as real))
      else None
  }

  function Lookup(row: Row, p: Path): Value {
    if p in row then row[p] else Undefined
  }

  /** An unbound parameter reference is a value node still holding `undefined`. */
  function OperandOf(js: Js, e: Expr, row: Row): Option<Value> {
    match e
    case Literal(v, t) => ApplyTransformer(js, v, t)
    case ParamReference(_, _, _, t) => ApplyTransformer(js, Undefined, t)
    case Property(p, t) => ApplyTransformer(js, Lookup(row, p.path), t)
    case _ => None
  }

  predicate Less(js: Js, a: Value, b: Value)
    requires Comparable(a, b)
  {
    if a.Num? then a.n < b.n else js.textLess(a.s, b.s)
  }

  predicate Comparable(a: Value, b: Value) {
    (a.Num? && b.Num?) || (a.Text? && b.Text?)
  }

  function Compare(js: Js, c: Comparison, a: Value, b: Value): Option<bool> {
    if !Comparable(a, b) then None
    else if c == GreaterThan then Some(Less(js, b, a))
    else if c == GreaterThanEquals then Some(!Less(js, a, b))
    else if c == LessThan then Some(Less(js, a, b))
    else Some(!Less(js, b, a))
  }

  function EvaluateComparator(js: Js, c: Comparison, a: Value, b: Value, strict: bool): Option<bool> {
    match c
    case Equals => Some(EqualsAs(js, a, b, strict))
    case Includes =>
      if a.List? then Some(exists i | 0 <= i < |a.items| :: EqualsAs(js, a.items[i], b, strict))
      else if b.List? then Some(exists i | 0 <= i < |b.items| :: EqualsAs(js, b.items[i], a, strict))
      else if a.Text? && b.Text? then Some(Contains(a.s, b.s))
      else None
    case StartsWith => if a.Text? && b.Text? then Some(b.s <= a.s) else None
    case EndsWith => if a.Text? && b.Text? then Some(EndsIn(a.s, b.s)) else None
    case _ => Compare(js, c, a, b)
  }

  /** What a comparator node answers before its `negated` flag is applied. */
  function Judge(js: Js, e: Expr, row: Row): Option<bool>
    requires e.Comparator?
  {
    var l := OperandOf(js, e.left, row);
    var r := OperandOf(js, e.right, row);
    if l.None? || r.None? then None
    else EvaluateComparator(js, e.comparison, l.value, r.value, e.strict)
  }

  function Evaluate(js: Js, e: Expr, row: Row): Option<bool> {
    match e
    case Operator(conjunction, left, right) =>
      var l := Evaluate(js, left, row);
      var r := Evaluate(js, right, row);
      if conjunction then
        if l == Some(false) || r == Some(false) then Some(false)
        else if l == Some(true) && r == Some(true) then Some(true)
        else None
      else
        if l == Some(true) || r == Some(true) then Some(true)
        else if l == Some(false) && r == Some(false) then Some(false)
        else None
    case Comparator(_, negated, _, _, _) =>
      var judged := Judge(js, e, row);
      if judged.None? then None
      else Some(if negated then !judged.value else judged.value)
    case Empty => Some(true)
    case _ => None
  }

  /** `toPredicate`: keep whatever cannot be judged. */
  function ToPredicate(js: Js, e: Expr): Row -> bool {
    (row: Row) => Evaluate(js, e, row) != Some(false)
  }

  datatype Strict = Verdict(kept: bool) | Throws

  /** `toStrictPredicate`: throw on whatever cannot be judged. */
  function ToStrictPredicate(js: Js, e: Expr): Row -> Strict {
    (row: Row) =>
      var r := Evaluate(js, e, row);
      if r.None? then Throws else Verdict(r.value)
  }

  // ----- the two-valued meaning the evaluator approximates -----

  /** One way of deciding every leaf the evaluator cannot judge. */
  type Oracle = Expr -> bool

  /** The two-valued meaning of a tree once `oracle` has decided the unjudgeable leaves. */
  function Classical(js: Js, e: Expr, row: Row, oracle: Oracle): bool {
    match e
    case Operator(conjunction, left, right) =>
      if conjunction then Classical(js, left, row, oracle) && Classical(js, right, row, oracle)
      else Classical(js, left, row, oracle) || Classical(js, right, row, oracle)
    case Comparator(_, negated, _, _, _) =>
      var judged := Judge(js, e, row);
      (if judged.None? then oracle(e.(negated := false)) else judged.value) != negated
    case Empty => true
    case _ => oracle(e)
  }

  /** A definite answer is right however the unjudgeable leaves turn out. */
  lemma {:induction false} DefiniteAnswersAreSound(js: Js, e: Expr, row: Row, oracle: Oracle)
    ensures Evaluate(js, e, row).Some? ==> Evaluate(js, e, row).value == Classical(js, e, row, oracle)
  {
    if e.Operator? {
      DefiniteAnswersAreSound(js, e.left, row, oracle);
      DefiniteAnswersAreSound(js, e.right, row, oracle);
    }
  }

  /** A narrowing caller never loses a row the filter keeps, however the unjudged leaves fall. */
  lemma {:induction false} PredicateKeepsEveryMatch(js: Js, e: Expr, row: Row, oracle: Oracle)
    requires Classical(js, e, row, oracle)
    ensures ToPredicate(js, e)(row)
  {
    DefiniteAnswersAreSound(js, e, row, oracle);
  }

  /** When the strict predicate returns, its answer is the filter's under every oracle. */
  lemma {:induction false} StrictPredicateIsExact(js: Js, e: Expr, row: Row, oracle: Oracle)
    requires ToStrictPredicate(js, e)(row).Verdict?
    ensures ToStrictPredicate(js, e)(row).kept == Classical(js, e, row, oracle)
    ensures ToStrictPredicate(js, e)(row).kept == ToPredicate(js, e)(row)
  {
    DefiniteAnswersAreSound(js, e, row, oracle);
  }

  /** Every node below can be judged on this row. */
  predicate FullyJudged(js: Js, e: Expr, row: Row) {
    match e
    case Operator(_, left, right) => FullyJudged(js, left, row) && FullyJudged(js, right, row)
    case Comparator(_, _, _, _, _) => Judge(js, e, row).Some?
    case Empty => true
    case _ => false
  }

  lemma {:induction false} FullyJudgedIsDefinite(js: Js, e: Expr, row: Row)
    requires FullyJudged(js, e, row)
    ensures Evaluate(js, e, row).Some?
  {
    if e.Operator? {
      FullyJudgedIsDefinite(js, e.left, row);
      FullyJudgedIsDefinite(js, e.right, row);
    }
  }

  // ----- negation (parser.ts, negateExpression) -----

  /**
   `!` on a parsed tree: comparators flip their flag, operators distribute by De Morgan,
   anything else is refused (`None` is the source's throw).
   */
  function Negate(e: Expr): Option<Expr> {
    match e
    case Comparator(_, negated, _, _, _) => Some(e.(negated := !negated))
    case Operator(conjunction, left, right) =>
      if left.Absent? || right.Absent? then None
      else
        var l := Negate(left);
        var r := Negate(right);
        if l.None? || r.None? then None
        else Some(Operator(!conjunction, l.value, r.value))
    case _ => None
  }

  function KleeneNot(a: Option<bool>): Option<bool> {
    if a.None? then None else Some(!a.value)
  }

  /** Negating the tree is exactly Kleene negation of its answer, and of its two-valued meaning. */
  lemma {:induction false} NegateIsKleeneNegation(js: Js, e: Expr, row: Row, oracle: Oracle)
    requires Negate(e).Some?
    ensures Evaluate(js, Negate(e).value, row) == KleeneNot(Evaluate(js, e, row))
    ensures Classical(js, Negate(e).value, row, oracle) == !Classical(js, e, row, oracle)
  {
    match e
    case Operator(_, left, right) =>
      NegateIsKleeneNegation(js, left, row, oracle);
      NegateIsKleeneNegation(js, right, row, oracle);
    case Comparator(_, negated, _, _, _) =>
      var flipped := Negate(e).value;
      assert flipped.(negated := false) == e.(negated := false);
      assert Judge(js, flipped, row) == Judge(js, e, row);
  }

  /** Negating twice gives the tree back, so `!!f` filters exactly as `f`. */
  lemma {:induction false} DoubleNegationRestoresTheTree(e: Expr)
    requires Negate(e).Some?
    ensures Negate(Negate(e).value) == Some(e)
  {
    if e.Operator? {
      DoubleNegationRestoresTheTree(e.left);
      DoubleNegationRestoresTheTree(e.right);
    }
  }
}
