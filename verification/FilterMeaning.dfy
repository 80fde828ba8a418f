/**
 The parser preserves meaning: what the evaluator answers for the parsed and bound tree is
 what the filter's source means, wherever the source is faithful on the row.
 */
module FilterMeaning {
  import opened Options
  import opened Expressions
  import opened Grammar
  import opened FilterSyntax
  import opened ParserRoundTrip

  /** `a == b` and `b == a` agree in JavaScript. */
  ghost predicate LooseIsSymmetric(js: Js) {
    forall a, b :: js.looseAcross(a, b) == js.looseAcross(b, a)
  }

  /** The case methods absorb one another (true of ASCII text, not of all of Unicode). */
  ghost predicate CasesAbsorb(js: Js) {
    && (forall s :: js.lower(js.lower(s)) == js.lower(s) && js.lower(js.upper(s)) == js.lower(s))
    && (forall s :: js.upper(js.upper(s)) == js.upper(s) && js.upper(js.lower(s)) == js.upper(s))
  }

  // ----- where the code keeps JavaScript's meaning -----

  /** The parser keeps only the last case method of a chain: on this value that one alone gives what they all give. */
  predicate ChainFaithful(js: Js, v: Option<Value>, c: Chain) {
    v.Some? ==> ApplyAll(js, v, c.transforms) == ApplyTransformer(js, v.value, LastTransform(c.transforms))
  }

  predicate TermFaithful(env: Env, t: Term, row: Row) {
    match t
    case EntityTerm(chain) =>
      var path := Names(env, chain.segments);
      path.Some? ==> ChainFaithful(env.js, ReadEntity(env, path.value, row), chain)
    case ParamTerm(chain) => ChainFaithful(env.js, RawValue(env, t), chain)
    case _ => true
  }

  /** The value of a non-property term before its case methods. */
  function RawValue(env: Env, t: Term): Option<Value> {
    match t
    case Constant(lit) => Some(RawLit(env.js, lit))
    case ListLit(items) =>
      var vs := ListValues(env.js, items);
      if vs.None? then None else Some(List(vs.value))
    case ParamTerm(chain) =>
      var path := Names(env, chain.segments);
      if path.None? then None else ResolveParam(path.value, env.params)
    case EntityTerm(_) => None
  }

  /** A value compared with a property is of the property's kind, so converting it changes nothing. */
  predicate PairFaithful(env: Env, property: Term, value: Term) {
    var p := TermOperand(env, property);
    var raw := RawValue(env, value);
    p.Some? && p.value.PropertyOperand? && p.value.transformer != Some(Length) && raw.Some? ==>
      Nullish(raw.value) || HasKind(raw.value, p.value.property.kind)
  }

  /** A bare property is a condition only when it holds a boolean (or nothing). */
  predicate BareFaithful(env: Env, t: Term, row: Row) {
    var p := TermOperand(env, t);
    p.Some? && p.value.PropertyOperand? && p.value.transformer != Some(Length) ==>
      p.value.property.kind == BooleanKind
      && var v := Lookup(row, p.value.property.path); v.Bool? || Nullish(v)
  }

  /** Membership does not turn on `==` conversions, and a string method is not given an array. */
  predicate CallFaithful(env: Env, target: Term, argument: Term, row: Row) {
    var t := TermValue(env, target, row);
    var a := TermValue(env, argument, row);
    t.Some? && a.Some? ==>
      if t.value.List? then
        forall i | 0 <= i < |t.value.items| ::
          LooseEquals(env.js, t.value.items[i], a.value) ==> StrictEquals(t.value.items[i], a.value)
      else !a.value.List?
  }

  predicate SideFaithful(env: Env, s: Side, row: Row) {
    match s
    case Plain(t) => TermFaithful(env, t, row)
    case Call(target, _, argument) =>
      TermFaithful(env, target, row) && TermFaithful(env, argument, row) && CallFaithful(env, target, argument, row)
  }

  /** Every condition of the filter is written so that the code keeps its meaning on this row. */
  predicate Faithful(env: Env, f: Filter, row: Row) {
    match f
    case Or(l, r) => Faithful(env, l, row) && Faithful(env, r, row)
    case And(l, r) => Faithful(env, l, row) && Faithful(env, r, row)
    case Not(g) => Faithful(env, g, row)
    case Group(g) => Faithful(env, g, row)
    case Test(s) => SideFaithful(env, s, row) && (s.Plain? ==> BareFaithful(env, s.term, row))
    case Compare(l, _, r) =>
      SideFaithful(env, l, row) && SideFaithful(env, r, row)
      && (l.Plain? && r.Plain? ==> PairFaithful(env, l.term, r.term) && PairFaithful(env, r.term, l.term))
  }

  /** The filter's answer in Kleene's logic: `None` for what the model cannot decide. */
  function Kleene(env: Env, f: Filter, row: Row): Option<bool> {
    match f
    case Or(l, r) => KleeneOr(Kleene(env, l, row), Kleene(env, r, row))
    case And(l, r) => KleeneNot(KleeneOr(KleeneNot(Kleene(env, l, row)), KleeneNot(Kleene(env, r, row))))
    case Not(g) => KleeneNot(Kleene(env, g, row))
    case Group(g) => Kleene(env, g, row)
    case _ => AtomValue(env, f, row)
  }

  function KleeneOr(a: Option<bool>, b: Option<bool>): Option<bool> {
    if a == Some(true) || b == Some(true) then Some(true)
    else if a == Some(false) && b == Some(false) then Some(false)
    else None
  }

  // ----- operands -----

  lemma {:induction false} TransformsAbsorb(js: Js, v: Value, names: seq<string>)
    requires CasesAbsorb(js) && |names| > 0
    requires forall i | 0 <= i < |names| :: TransformOf(names[i]).Some?
    ensures ApplyAll(js, Some(v), names) == ApplyTransformer(js, v, LastTransform(names))
    decreases |names|
  {
    var first := ApplyTransformer(js, v, TransformOf(names[0]));
    if |names| == 1 {
      assert ApplyAll(js, first, names[1..]) == first;
    } else if first.Some? {
      TransformsAbsorb(js, first.value, names[1..]);
      assert LastTransform(names[1..]) == LastTransform(names);
    }
  }

  /** One case method, or case methods that absorb one another, are always kept faithfully. */
  lemma {:induction false} AbsorbingChainsAreFaithful(js: Js, v: Option<Value>, c: Chain)
    requires ChainOk(c) && (|c.transforms| <= 1 || CasesAbsorb(js))
    ensures ChainFaithful(js, v, c)
  {
    if v.Some? && c.transforms != [] {
      if |c.transforms| == 1 {
        assert ApplyAll(js, ApplyTransformer(js, v.value, TransformOf(c.transforms[0])), c.transforms[1..])
            == ApplyTransformer(js, v.value, TransformOf(c.transforms[0]));
      } else {
        TransformsAbsorb(js, v.value, c.transforms);
      }
    }
  }

  lemma {:induction false} PropertyReads(env: Env, t: Term, row: Row)
    requires TermOk(env, t) && TermFaithful(env, t, row)
    requires TermOperand(env, t).Some? && TermOperand(env, t).value.PropertyOperand?
    ensures OperandOf(env.js, PropertyNode(TermOperand(env, t).value), row) == TermValue(env, t, row)
  {
    var path := Names(env, t.chain.segments).value;
    assert ApplyAll(env.js, None, t.chain.transforms) == None;
    if path !in env.schema {
      assert t.chain.transforms == [];
    }
  }

  /** A value side reads, once bound, as its JavaScript value whenever conversion is idle. */
  lemma {:induction false} ValueReads(env: Env, t: Term, row: Row, paired: Option<Kind>, applyConverter: bool)
    requires TermOk(env, t) && TermFaithful(env, t, row)
    requires TermOperand(env, t).Some? && !TermOperand(env, t).value.PropertyOperand?
    requires var o := TermOperand(env, t).value; !o.MethodCall?
    requires var raw := RawValue(env, t);
      raw.Some? && paired.Some? && applyConverter ==> Nullish(raw.value) || HasKind(raw.value, paired.value)
    ensures var bound := Bind(env.js, ValueNode(env.js, TermOperand(env, t).value, paired, applyConverter), env.params);
      bound.Some? ==> OperandOf(env.js, bound.value, row) == TermValue(env, t, row)
  {
    if t.ParamTerm? {
      assert ApplyAll(env.js, None, t.chain.transforms) == None;
    }
  }

  // ----- conditions -----

  lemma {:induction false} CallOnPropertyMeaning(env: Env, s: Side, row: Row)
    requires s.Call? && SideOk(env, s) && SideFaithful(env, s, row)
    requires SideOperand(env, s).Some?
    requires BuildMethodComparator(env.js, SideOperand(env, s).value).Done?
    requires SideOperand(env, s).value.target.PropertyOperand?
    ensures var e := BuildMethodComparator(env.js, SideOperand(env, s).value).value;
      var bound := Bind(env.js, e, env.params);
      bound.Some? ==>
        && bound.value.Comparator? && !bound.value.negated
        && Judge(env.js, bound.value, row) == (var v := SideValue(env, s, row); if v.None? then None else Some(v.value.b))
        && (SideValue(env, s, row).Some? ==> SideValue(env, s, row).value.Bool?)
  {
    hide TermValue, OperandOf, ApplyTransformer;
    var o := SideOperand(env, s).value;
    var bound := Bind(env.js, BuildMethodComparator(env.js, o).value, env.params);
    if bound.Some? {
      PropertyReads(env, s.target, row);
      ValueReads(env, s.argument, row, Some(o.target.property.kind), false);
    }
  }

  lemma {:induction false} CallOnValueMeaning(env: Env, s: Side, row: Row)
    requires s.Call? && SideOk(env, s) && SideFaithful(env, s, row)
    requires SideOperand(env, s).Some?
    requires BuildMethodComparator(env.js, SideOperand(env, s).value).Done?
    requires !SideOperand(env, s).value.target.PropertyOperand?
    ensures var e := BuildMethodComparator(env.js, SideOperand(env, s).value).value;
      var bound := Bind(env.js, e, env.params);
      bound.Some? ==>
        && bound.value.Comparator? && !bound.value.negated
        && Judge(env.js, bound.value, row) == (var v := SideValue(env, s, row); if v.None? then None else Some(v.value.b))
        && (SideValue(env, s, row).Some? ==> SideValue(env, s, row).value.Bool?)
  {
    hide TermValue, OperandOf, ApplyTransformer;
    var o := SideOperand(env, s).value;
    var bound := Bind(env.js, BuildMethodComparator(env.js, o).value, env.params);
    if bound.Some? {
      PropertyReads(env, s.argument, row);
      ValueReads(env, s.target, row, Some(o.argument.property.kind), false);
    }
  }

  lemma {:induction false} CallMeaning(env: Env, s: Side, row: Row)
    requires s.Call? && SideOk(env, s) && SideFaithful(env, s, row)
    requires SideOperand(env, s).Some?
    requires BuildMethodComparator(env.js, SideOperand(env, s).value).Done?
    ensures var e := BuildMethodComparator(env.js, SideOperand(env, s).value).value;
      var bound := Bind(env.js, e, env.params);
      bound.Some? ==>
        && bound.value.Comparator? && !bound.value.negated
        && Judge(env.js, bound.value, row) == (var v := SideValue(env, s, row); if v.None? then None else Some(v.value.b))
        && (SideValue(env, s, row).Some? ==> SideValue(env, s, row).value.Bool?)
  {
    hide Evaluate, EvaluateComparator, SideValue;
    if SideOperand(env, s).value.target.PropertyOperand? {
      CallOnPropertyMeaning(env, s, row);
    } else {
      CallOnValueMeaning(env, s, row);
    }
  }

  lemma {:induction false} BareMeaning(env: Env, t: Term, row: Row)
    requires EnvOk(env) && FilterOk(env, Test(Plain(t))) && Faithful(env, Test(Plain(t)), row)
    requires Translate(env, Test(Plain(t))).Some?
    ensures var bound := Bind(env.js, Translate(env, Test(Plain(t))).value, env.params);
      bound.Some? ==> Evaluate(env.js, bound.value, row) == AtomValue(env, Test(Plain(t)), row)
  {
    if TermOperand(env, t).value.PropertyOperand? {
      BarePropertyMeaning(env, t, row);
    }
  }

  lemma {:induction false} BarePropertyMeaning(env: Env, t: Term, row: Row)
    requires TermOk(env, t) && TermFaithful(env, t, row) && BareFaithful(env, t, row)
    requires TermOperand(env, t).Some? && TermOperand(env, t).value.PropertyOperand?
    requires BuildStandalone(env.js, TermOperand(env, t).value).Done?
    ensures var e := BuildStandalone(env.js, TermOperand(env, t).value).value;
      && Bind(env.js, e, env.params) == Some(e)
      && Evaluate(env.js, e, row) == (var v := TermValue(env, t, row); if v.None? then None else Some(Truthy(v.value)))
  {
    var o := TermOperand(env, t).value;
    PropertyReads(env, t, row);
    hide TermValue, TermFaithful, TermOperand, TermOk;
    ComparatorAnswer(env.js, BuildStandalone(env.js, o).value, row);
  }

  lemma {:induction false} TestMeaning(env: Env, s: Side, row: Row)
    requires EnvOk(env) && FilterOk(env, Test(s)) && Faithful(env, Test(s), row)
    requires Translate(env, Test(s)).Some?
    ensures var bound := Bind(env.js, Translate(env, Test(s)).value, env.params);
      bound.Some? ==> Evaluate(env.js, bound.value, row) == AtomValue(env, Test(s), row)
  {
    if s.Call? {
      CallMeaning(env, s, row);
    } else {
      BareMeaning(env, s.term, row);
    }
  }

  function Negated(v: Option<bool>, negated: bool): Option<bool> {
    if negated then KleeneNot(v) else v
  }

  /** Every operator of the table means what JavaScript means by it, whichever side the property is on. */
  lemma {:induction false} RelationMeaning(js: Js, symbol: string, a: Value, b: Value)
    requires LooseIsSymmetric(js) && RelationOf(symbol).Some?
    ensures var rel := RelationOf(symbol).value;
      && Negated(EvaluateComparator(js, rel.comparison, a, b, rel.strict), rel.negated) == RelationValue(js, symbol, a, b)
      && Negated(EvaluateComparator(js, Swapped(rel.comparison), b, a, rel.strict), rel.negated) == RelationValue(js, symbol, a, b)
  {
    assert LooseEquals(js, a, b) == LooseEquals(js, b, a);
    hide LooseEquals, LooseIsSymmetric;
    if RelationOf(symbol).value.comparison != Equals {
      OrderMeaning(js, symbol, a, b);
    }
  }

  lemma {:induction false} OrderMeaning(js: Js, symbol: string, a: Value, b: Value)
    requires RelationOf(symbol).Some? && RelationOf(symbol).value.comparison != Equals
    ensures var rel := RelationOf(symbol).value;
      && !rel.negated
      && EvaluateComparator(js, rel.comparison, a, b, rel.strict) == RelationValue(js, symbol, a, b)
      && EvaluateComparator(js, Swapped(rel.comparison), b, a, rel.strict) == RelationValue(js, symbol, a, b)
  {
    hide LooseEquals;
  }

  lemma {:induction false} ComparatorAnswer(js: Js, e: Expr, row: Row)
    requires e.Comparator?
    ensures Evaluate(js, e, row) ==
      var l, r := OperandOf(js, e.left, row), OperandOf(js, e.right, row);
      if l.None? || r.None? then None else Negated(EvaluateComparator(js, e.comparison, l.value, r.value, e.strict), e.negated)
  {
  }

  /** A property against a value, with the property written on the left or on the right. */
  lemma {:induction false} PropertyAgainstValue(env: Env, p: Term, v: Term, symbol: string, relation: Relation, propertyLeft: bool, row: Row)
    requires LooseIsSymmetric(env.js)
    requires TermOk(env, p) && TermFaithful(env, p, row) && TermOk(env, v) && TermFaithful(env, v, row) && PairFaithful(env, p, v)
    requires RelationOf(symbol).Some?
    requires var rel := RelationOf(symbol).value;
      relation == if propertyLeft then rel else rel.(comparison := Swapped(rel.comparison))
    requires TermOperand(env, p).Some? && TermOperand(env, p).value.PropertyOperand?
    requires TermOperand(env, v).Some? && !TermOperand(env, v).value.PropertyOperand?
    requires BuildPropertyComparator(env.js, TermOperand(env, p).value, relation, TermOperand(env, v).value, true).Done?
    ensures var e := BuildPropertyComparator(env.js, TermOperand(env, p).value, relation, TermOperand(env, v).value, true).value;
      var bound := Bind(env.js, e, env.params);
      var a, b := TermValue(env, p, row), TermValue(env, v, row);
      var meant := if a.None? || b.None? then None
        else if propertyLeft then RelationValue(env.js, symbol, a.value, b.value)
        else RelationValue(env.js, symbol, b.value, a.value);
      bound.Some? ==> Evaluate(env.js, bound.value, row) == meant
  {
    hide EvaluateComparator, RelationValue, TermValue, Evaluate, OperandOf;
    var o := TermOperand(env, p).value;
    var e := BuildPropertyComparator(env.js, o, relation, TermOperand(env, v).value, true).value;
    var bound := Bind(env.js, e, env.params);
    if bound.Some? {
      PropertyReads(env, p, row);
      if o.transformer == Some(Length) {
        ValueReads(env, v, row, None, false);
      } else {
        ValueReads(env, v, row, Some(o.property.kind), true);
      }
      ComparatorAnswer(env.js, bound.value, row);
      var a, b := TermValue(env, p, row), TermValue(env, v, row);
      if a.Some? && b.Some? {
        RelationMeaning(env.js, symbol, a.value, b.value);
        RelationMeaning(env.js, symbol, b.value, a.value);
      }
    }
  }

  lemma {:induction false} PairMeaning(env: Env, l: Term, symbol: string, r: Term, row: Row)
    requires LooseIsSymmetric(env.js)
    requires FilterOk(env, Compare(Plain(l), symbol, Plain(r))) && Faithful(env, Compare(Plain(l), symbol, Plain(r)), row)
    requires Translate(env, Compare(Plain(l), symbol, Plain(r))).Some?
    ensures var f := Compare(Plain(l), symbol, Plain(r));
      var bound := Bind(env.js, Translate(env, f).value, env.params);
      bound.Some? ==> Evaluate(env.js, bound.value, row) == AtomValue(env, f, row)
  {
    var a := TermOperand(env, l).value;
    var b := TermOperand(env, r).value;
    var rel := RelationOf(symbol).value;
    if a.PropertyOperand? && b.PropertyOperand? {
      PropertyReads(env, l, row);
      PropertyReads(env, r, row);
      var e := Translate(env, Compare(Plain(l), symbol, Plain(r))).value;
      ComparatorAnswer(env.js, e, row);
      var x, y := TermValue(env, l, row), TermValue(env, r, row);
      if x.Some? && y.Some? {
        RelationMeaning(env.js, symbol, x.value, y.value);
      }
    } else if a.PropertyOperand? {
      PropertyAgainstValue(env, l, r, symbol, rel, true, row);
    } else {
      PropertyAgainstValue(env, r, l, symbol, rel.(comparison := Swapped(rel.comparison)), false, row);
    }
  }

  lemma {:induction false} BooleanRelation(js: Js, symbol: string, v: bool, flag: bool)
    requires RelationOf(symbol).Some? && RelationOf(symbol).value.comparison == Equals
    ensures RelationValue(js, symbol, Bool(v), Bool(flag)) == Some((v == flag) != RelationOf(symbol).value.negated)
  {
  }

  lemma {:induction false} FlagOnlyFlips(js: Js, e: Expr, negated: bool, params: Value, row: Row)
    requires e.Comparator? && !e.negated
    ensures var plain := Bind(js, e, params);
      var flagged := Bind(js, e.(negated := negated), params);
      && plain.Some? == flagged.Some?
      && (plain.Some? ==> plain.value.Comparator? && Evaluate(js, flagged.value, row) == Negated(Judge(js, plain.value, row), negated))
  {
    var plain := Bind(js, e, params);
    var flagged := Bind(js, e.(negated := negated), params);
    if plain.Some? {
      assert flagged.value == plain.value.(negated := negated);
      assert Judge(js, flagged.value, row) == Judge(js, plain.value, row);
    }
  }

  /** `call == true`, `call !== false` and their kin, folded into the comparator's flag. */
  lemma {:induction false} CallComparedMeaning(env: Env, l: Side, symbol: string, r: Side, row: Row)
    requires l.Call?
    requires FilterOk(env, Compare(l, symbol, r)) && Faithful(env, Compare(l, symbol, r), row)
    requires Translate(env, Compare(l, symbol, r)).Some?
    ensures var f := Compare(l, symbol, r);
      var bound := Bind(env.js, Translate(env, f).value, env.params);
      bound.Some? ==> Evaluate(env.js, bound.value, row) == AtomValue(env, f, row)
  {
    var o := SideOperand(env, l).value;
    var rel := RelationOf(symbol).value;
    var right := SideOperand(env, r).value;
    assert right.ValueOperand? && right.value.Bool?;
    var flag := right.value.b;
    assert SideValue(env, r, row) == Some(Bool(flag)) by {
      assert r.Plain? && r.term.Constant?;
    }
    CallMeaning(env, l, row);
    var e := BuildMethodComparator(env.js, o).value;
    var negated := rel.negated != (flag == false);
    assert Translate(env, Compare(l, symbol, r)) == Some(e.(negated := negated));
    FlagOnlyFlips(env.js, e, negated, env.params, row);
    var v := SideValue(env, l, row);
    if v.Some? && Bind(env.js, e, env.params).Some? {
      BooleanRelation(env.js, symbol, v.value.b, flag);
    }
  }

  lemma {:induction false} AtomMeaning(env: Env, f: Filter, row: Row)
    requires LooseIsSymmetric(env.js) && EnvOk(env)
    requires f.Test? || f.Compare?
    requires FilterOk(env, f) && Faithful(env, f, row) && Translate(env, f).Some?
    ensures var bound := Bind(env.js, Translate(env, f).value, env.params);
      bound.Some? ==> Evaluate(env.js, bound.value, row) == AtomValue(env, f, row)
  {
    match f
    case Test(s) => TestMeaning(env, s, row);
    case Compare(l, symbol, r) =>
      if l.Call? { CallComparedMeaning(env, l, symbol, r, row); }
      else if r.Plain? { PairMeaning(env, l.term, symbol, r.term, row); }
  }

  // ----- connectives -----

  lemma {:induction false} NegateCommutesWithBind(js: Js, e: Expr, params: Value)
    requires Negate(e).Some?
    ensures var bound := Bind(js, e, params);
      var negated := Bind(js, Negate(e).value, params);
      if bound.None? then negated.None?
      else Negate(bound.value).Some? && negated == Negate(bound.value)
  {
    if e.Operator? {
      NegateCommutesWithBind(js, e.left, params);
      NegateCommutesWithBind(js, e.right, params);
    }
  }

  lemma {:induction false} DisjoinMeaning(js: Js, l: Expr, r: Expr, params: Value, row: Row, x: Option<bool>, y: Option<bool>)
    requires Bind(js, l, params).Some? ==> Evaluate(js, Bind(js, l, params).value, row) == x
    requires Bind(js, r, params).Some? ==> Evaluate(js, Bind(js, r, params).value, row) == y
    ensures var bound := Bind(js, Disjoin(l, r), params);
      bound.Some? ==> Evaluate(js, bound.value, row) == KleeneOr(x, y)
  {
  }

  lemma {:induction false} ConjoinMeaning(js: Js, l: Expr, r: Expr, params: Value, row: Row, x: Option<bool>, y: Option<bool>)
    requires Bind(js, l, params).Some? ==> Evaluate(js, Bind(js, l, params).value, row) == x
    requires Bind(js, r, params).Some? ==> Evaluate(js, Bind(js, r, params).value, row) == y
    ensures var bound := Bind(js, Conjoin(l, r), params);
      bound.Some? ==> Evaluate(js, bound.value, row) == KleeneNot(KleeneOr(KleeneNot(x), KleeneNot(y)))
  {
  }

  lemma {:induction false} NegateMeaning(js: Js, e: Expr, params: Value, row: Row, x: Option<bool>)
    requires Negate(e).Some?
    requires Bind(js, e, params).Some? ==> Evaluate(js, Bind(js, e, params).value, row) == x
    ensures var bound := Bind(js, Negate(e).value, params);
      bound.Some? ==> Evaluate(js, bound.value, row) == KleeneNot(x)
  {
    NegateCommutesWithBind(js, e, params);
    var bound := Bind(js, e, params);
    if bound.Some? {
      NegateIsKleeneNegation(js, bound.value, row, (_) => false);
    }
  }

  lemma {:induction false} TranslationKeepsMeaning(env: Env, f: Filter, row: Row)
    requires LooseIsSymmetric(env.js) && EnvOk(env)
    requires FilterOk(env, f) && Faithful(env, f, row) && Translate(env, f).Some?
    ensures var bound := Bind(env.js, Translate(env, f).value, env.params);
      bound.Some? ==> Evaluate(env.js, bound.value, row) == Kleene(env, f, row)
  {
    if f.Or? || f.And? {
      TranslationKeepsMeaning(env, f.l, row);
      TranslationKeepsMeaning(env, f.r, row);
      var x, y := Kleene(env, f.l, row), Kleene(env, f.r, row);
      var l, r := Translate(env, f.l).value, Translate(env, f.r).value;
      if f.Or? {
        DisjoinMeaning(env.js, l, r, env.params, row, x, y);
      } else {
        ConjoinMeaning(env.js, l, r, env.params, row, x, y);
      }
    } else if f.Not? {
      TranslationKeepsMeaning(env, f.f, row);
      NegateMeaning(env.js, Translate(env, f.f).value, env.params, row, Kleene(env, f.f, row));
    } else if f.Group? {
      TranslationKeepsMeaning(env, f.f, row);
    } else {
      AtomMeaning(env, f, row);
    }
  }

  lemma {:induction false} KleeneIsSound(env: Env, f: Filter, row: Row, oracle: Filter -> bool)
    ensures Kleene(env, f, row).Some? ==> Kleene(env, f, row).value == Holds(env, f, row, oracle)
    ensures Decided(env, f, row) ==> Kleene(env, f, row).Some?
  {
    match f
    case Or(l, r) => KleeneIsSound(env, l, row, oracle); KleeneIsSound(env, r, row, oracle);
    case And(l, r) => KleeneIsSound(env, l, row, oracle); KleeneIsSound(env, r, row, oracle);
    case Not(g) => KleeneIsSound(env, g, row, oracle);
    case Group(g) => KleeneIsSound(env, g, row, oracle);
    case _ =>
  }

  /** The printed filter, parsed and bound to the call's params; `None` when either step fails. */
  function Compiled(env: Env, f: Filter): Option<Expr> {
    match Parse(env, Print(env, f))
    case Fail(_) => None
    case Ok(template, _, _) => Bind(env.js, template, env.params)
  }

  /**
   Whenever a filter compiles, a definite answer of the evaluator is the filter's own, for
   every way of deciding what the model cannot, and it is definite wherever every condition is.
   */
  lemma {:induction false} CompiledFilterMeansItsSource(env: Env, f: Filter, row: Row, oracle: Filter -> bool)
    requires LooseIsSymmetric(env.js) && EnvOk(env) && FilterOk(env, f) && Faithful(env, f, row)
    requires Compiled(env, f).Some?
    ensures var answer := Evaluate(env.js, Compiled(env, f).value, row);
      && (answer.Some? ==> answer.value == Holds(env, f, row, oracle))
      && (Decided(env, f, row) ==> answer.Some?)
    ensures Holds(env, f, row, oracle) ==> ToPredicate(env.js, Compiled(env, f).value)(row)
  {
    ParsePrinted(env, f);
    TranslationKeepsMeaning(env, f, row);
    KleeneIsSound(env, f, row, oracle);
  }

  // ----- where the code does not keep JavaScript's meaning -----

  function DeclaredProperty(name: string): Side {
    Plain(EntityTerm(Chain([Dot(name)], [])))
  }

  /** Coercions land in the kind they are named after (a number from Number, and so on). */
  ghost predicate CoercesToKind(js: Js) {
    forall k, v :: HasKind(js.coerce(k, v), k) && !Nullish(js.coerce(k, v))
  }

  /** A row whose property holds a value of the declared kind. */
  predicate Holding(env: Env, name: string, row: Row)
    requires [name] in env.schema
  {
    var v := Lookup(row, env.schema[[name]].path);
    HasKind(v, env.schema[[name]].kind) && !Nullish(v)
  }

  /** The node the parser builds for a one-segment property. */
  lemma {:induction false} OneSegment(env: Env, name: string)
    requires [name] in env.schema
    ensures TermOperand(env, DeclaredProperty(name).term) == Some(PropertyOperand(env.schema[[name]], None))
    ensures forall row :: TermValue(env, DeclaredProperty(name).term, row) == Some(Lookup(row, env.schema[[name]].path))
  {
    var ss := [Dot(name)];
    assert ss[1..] == [];
    assert Names(env, ss) == Some([name] + []);
    assert [name] + [] == [name];
  }

  /** A truthy value of the kind that is not `true` as the kind's converter makes it. */
  function TruthyOther(js: Js, kind: Kind): Value {
    var converted := Convert(js, Bool(true), Some(kind), true);
    match kind
    case NumberKind => if converted == Num(1.0) then Num(2.0) else Num(1.0)
    case StringKind => if converted == Text("a") then Text("b") else Text("a")
    case BooleanKind => Bool(true)
    case _ => Num(1.0)
  }

  /**
   A bare property as a condition (`x.p`) is compared with `=== true` after conversion. That is
   its truthiness on every row of the right kind exactly when the property is a boolean.
   */
  lemma {:induction false} BareConditionIsTruthinessExactlyForBooleans(env: Env, name: string)
    requires [name] in env.schema
    ensures var f := Test(DeclaredProperty(name));
      && Translate(env, f).Some?
      && ((forall row | Holding(env, name, row) ::
             Evaluate(env.js, Translate(env, f).value, row) == AtomValue(env, f, row))
          <==> env.schema[[name]].kind == BooleanKind)
  {
    OneSegment(env, name);
    var f := Test(DeclaredProperty(name));
    var p := env.schema[[name]];
    if p.kind != BooleanKind {
      var row: Row := map[p.path := TruthyOther(env.js, p.kind)];
      assert Holding(env, name, row);
      assert Evaluate(env.js, Translate(env, f).value, row) == Some(false);
      assert AtomValue(env, f, row) == Some(true);
    }
  }

  /**
   `x.p === literal` converts the literal to the property's kind first. On rows of that kind
   this is JavaScript's answer exactly when there was nothing to convert.
   */
  lemma {:induction false} StrictComparisonIsExactWithoutConversion(env: Env, name: string, lit: Lit)
    requires [name] in env.schema && CoercesToKind(env.js)
    requires lit.StringLit? ==> lit.casing.None?
    ensures var f := Compare(DeclaredProperty(name), "===", Plain(Constant(lit)));
      var raw := RawLit(env.js, lit);
      && Translate(env, f).Some?
      && ((forall row | Holding(env, name, row) ::
             Evaluate(env.js, Translate(env, f).value, row) == AtomValue(env, f, row))
          <==> Nullish(raw) || HasKind(raw, env.schema[[name]].kind))
  {
    OneSegment(env, name);
    var f := Compare(DeclaredProperty(name), "===", Plain(Constant(lit)));
    var p := env.schema[[name]];
    var raw := RawLit(env.js, lit);
    if !(Nullish(raw) || HasKind(raw, p.kind)) {
      var converted := env.js.coerce(p.kind, raw);
      var row: Row := map[p.path := converted];
      assert HasKind(converted, p.kind);
      assert Holding(env, name, row);
      assert Evaluate(env.js, Translate(env, f).value, row) == Some(true);
      assert AtomValue(env, f, row) == Some(false);
    }
  }

  /** An item that `==` takes for the value without being it. */
  predicate TakenFor(js: Js, item: Value, v: Value) { LooseEquals(js, item, v) && item != v }

  /**
   `[..].includes(x.p)` is evaluated with `==`. On a row where `p` holds `v`, that is JavaScript's
   strict membership exactly when the list holds `v` itself or nothing `==` takes for it.
   */
  lemma {:induction false} MembershipIsStrictIff(env: Env, name: string, items: seq<Value>, row: Row)
    requires [name] in env.schema
    ensures var e := Comparator(Includes, false, false, Literal(List(items), None), Property(env.schema[[name]], None));
      var v := Lookup(row, env.schema[[name]].path);
      Evaluate(env.js, e, row) == CallValue("includes", List(items), v)
      <==> (v in items || forall i | 0 <= i < |items| :: !TakenFor(env.js, items[i], v))
  {
    var e := Comparator(Includes, false, false, Literal(List(items), None), Property(env.schema[[name]], None));
    var v := Lookup(row, env.schema[[name]].path);
    assert Evaluate(env.js, e, row) == Some(exists i | 0 <= i < |items| :: LooseEquals(env.js, items[i], v));
    assert CallValue("includes", List(items), v) == Some(exists i | 0 <= i < |items| :: items[i] == v);
    if v in items {
      var i :| 0 <= i < |items| && items[i] == v;
      assert LooseEquals(env.js, items[i], v);
    } else if i :| 0 <= i < |items| && TakenFor(env.js, items[i], v) {
      assert LooseEquals(env.js, items[i], v);
    }
  }

  /** So a row without the property, or with a null in it, is kept wrongly exactly for a list that holds only the other of the two. */
  lemma {:induction false} MembershipOfAMissingValue(env: Env, name: string, items: seq<Value>, row: Row)
    requires [name] in env.schema && Nullish(Lookup(row, env.schema[[name]].path))
    ensures var e := Comparator(Includes, false, false, Literal(List(items), None), Property(env.schema[[name]], None));
      var v := Lookup(row, env.schema[[name]].path);
      var other := if v == Null then Undefined else Null;
      Evaluate(env.js, e, row) == CallValue("includes", List(items), v) <==> (v in items || other !in items)
  {
    MembershipIsStrictIff(env, name, items, row);
    var v := Lookup(row, env.schema[[name]].path);
    var other := if v == Null then Undefined else Null;
    forall i | 0 <= i < |items|
      ensures TakenFor(env.js, items[i], v) <==> items[i] == other
    {
    }
  }

  /** A string through a chain of case methods, as JavaScript applies them. */
  function Folded(js: Js, names: seq<string>, s: string): string {
    if names == [] then s
    else
      var before := Folded(js, names[..|names| - 1], s);
      match TransformOf(names[|names| - 1])
      case Some(ToLower(_)) => js.lower(before)
      case Some(ToUpper(_)) => js.upper(before)
      case _ => before
  }

  predicate CaseMethods(names: seq<string>) { forall i | 0 <= i < |names| :: TransformOf(names[i]).Some? }

  /** What the parser makes of a chain of case methods: its last one alone. */
  function FoldedByLast(js: Js, names: seq<string>, s: string): string {
    if names == [] then s else Folded(js, [names[|names| - 1]], s)
  }

  /**
   Only the last of a chain of case methods survives parsing; JavaScript applies them all. On a row
   the two agree for every prefix asked about exactly when they fold the row's text to one string.
   */
  lemma {:induction false} StackedCaseMethodsAgreeIff(env: Env, name: string, names: seq<string>, row: Row, s: string)
    requires [name] in env.schema && Lookup(row, env.schema[[name]].path) == Text(s) && CaseMethods(names)
    ensures (forall probe: string :: StackedCasesAgree(env, name, names, row, probe)) <==>
      FoldedByLast(env.js, names, s) == Folded(env.js, names, s)
  {
    var last, all := FoldedByLast(env.js, names, s), Folded(env.js, names, s);
    forall probe: string
      ensures StackedCasesAgree(env, name, names, row, probe) <==> (probe <= last <==> probe <= all)
    {
      StackedCaseMethodsKeepOnlyTheLast(env, name, names, row, s, probe);
    }
    if forall probe: string :: StackedCasesAgree(env, name, names, row, probe) {
      assert StackedCasesAgree(env, name, names, row, last);
      assert StackedCasesAgree(env, name, names, row, all);
    }
  }

  /** `x.name.toUpperCase().toLowerCase().startsWith(probe)` and the like. */
  function StackedCases(name: string, names: seq<string>, probe: string): Filter {
    Test(Call(EntityTerm(Chain([Dot(name)], names)), "startsWith", Constant(StringLit(probe, None))))
  }

  predicate StackedCasesAgree(env: Env, name: string, names: seq<string>, row: Row, probe: string) {
    var f := StackedCases(name, names, probe);
    Translate(env, f).Some? && Evaluate(env.js, Translate(env, f).value, row) == AtomValue(env, f, row)
  }

  lemma {:induction false} StackedCaseMethodsKeepOnlyTheLast(env: Env, name: string, names: seq<string>, row: Row, s: string, probe: string)
    requires [name] in env.schema && Lookup(row, env.schema[[name]].path) == Text(s) && CaseMethods(names)
    ensures var f := StackedCases(name, names, probe);
      && Translate(env, f).Some?
      && Evaluate(env.js, Translate(env, f).value, row) == Some(probe <= FoldedByLast(env.js, names, s))
      && AtomValue(env, f, row) == Some(probe <= Folded(env.js, names, s))
  {
    var f := StackedCases(name, names, probe);
    ApplyAllIsFolded(env.js, names, s);
    LastFolds(env.js, names, s);
    StackedCasesRead(env, name, names, row, s, probe);
    StackedCasesTranslate(env, name, names, probe);
    hide AtomValue, Translate, LastTransform, Folded, FoldedByLast;
  }

  lemma {:induction false} StackedCasesTranslate(env: Env, name: string, names: seq<string>, probe: string)
    requires [name] in env.schema && CaseMethods(names)
    ensures Translate(env, StackedCases(name, names, probe)) ==
      Some(Comparator(StartsWith, false, false, Property(env.schema[[name]], LastTransform(names)), Literal(Text(probe), None)))
  {
    OneSegment(env, name);
    assert names != [] ==> TransformOf(names[|names| - 1]).Some?;
    assert LastTransform(names) != Some(Length);
    hide LastTransform, CaseMethods;
  }

  lemma {:induction false} StackedCasesRead(env: Env, name: string, names: seq<string>, row: Row, s: string, probe: string)
    requires [name] in env.schema && Lookup(row, env.schema[[name]].path) == Text(s)
    requires ApplyAll(env.js, Some(Text(s)), names) == Some(Text(Folded(env.js, names, s)))
    ensures AtomValue(env, StackedCases(name, names, probe), row) == Some(probe <= Folded(env.js, names, s))
  {
    OneSegment(env, name);
    hide ApplyAll, Folded;
  }

  lemma {:induction false} ApplyAllIsFolded(js: Js, names: seq<string>, s: string)
    requires CaseMethods(names)
    ensures ApplyAll(js, Some(Text(s)), names) == Some(Text(Folded(js, names, s)))
  {
    if names != [] {
      var n := |names| - 1;
      ApplyAllIsFolded(js, names[..n], s);
      ApplyOneMore(js, Some(Text(s)), names);
    }
  }

  lemma {:induction false} ApplyOneMore(js: Js, v: Option<Value>, names: seq<string>)
    requires names != []
    ensures var n := |names| - 1;
      var before := ApplyAll(js, v, names[..n]);
      ApplyAll(js, v, names) == if before.None? then None else ApplyTransformer(js, before.value, TransformOf(names[n]))
    decreases |names|
  {
    var n := |names| - 1;
    if v.Some? {
      if n == 0 {
        assert names[1..] == [];
      } else {
        ApplyOneMore(js, ApplyTransformer(js, v.value, TransformOf(names[0])), names[1..]);
        assert names[1..][..n - 1] == names[..n][1..];
      }
    }
  }

  lemma {:induction false} LastFolds(js: Js, names: seq<string>, s: string)
    requires CaseMethods(names)
    ensures ApplyTransformer(js, Text(s), LastTransform(names)) == Some(Text(FoldedByLast(js, names, s)))
  {
    if names != [] {
      var one := [names[|names| - 1]];
      assert one[..|one| - 1] == [] && one[0] == one[|one| - 1];
      assert Folded(js, one[..|one| - 1], s) == s;
    }
  }

  // ----- what can be negated -----

  /** Comparisons under operators, with no tautology among them. */
  predicate Compound(e: Expr) {
    match e
    case Comparator(_, _, _, _, _) => true
    case Operator(_, left, right) => Compound(left) && Compound(right)
    case _ => false
  }

  lemma {:induction false} TranslationIsCompound(env: Env, f: Filter)
    ensures Translate(env, f).Some? ==> Translate(env, f).value.Empty? || Compound(Translate(env, f).value)
  {
    match f
    case Or(l, r) =>
      TranslationIsCompound(env, l);
      TranslationIsCompound(env, r);
    case And(l, r) =>
      TranslationIsCompound(env, l);
      TranslationIsCompound(env, r);
    case Not(g) =>
      TranslationIsCompound(env, g);
      if Translate(env, g).Some? && Compound(Translate(env, g).value) {
        CompoundNegates(env.js, Translate(env, g).value, env.params);
      }
    case Group(g) => TranslationIsCompound(env, g);
    case _ =>
  }

  lemma {:induction false} CompoundNegates(js: Js, e: Expr, params: Value)
    requires Compound(e)
    ensures Negate(e).Some? && Compound(Negate(e).value)
    ensures Bind(js, Negate(e).value, params).Some? <==> Bind(js, e, params).Some?
  {
    if e.Operator? {
      CompoundNegates(js, e.left, params);
      CompoundNegates(js, e.right, params);
    }
  }

  /** Of the filters that compile, those whose negation does not are exactly the ones that reduce to the tautology. */
  lemma {:induction false} NegatedTautologyIsRefused(env: Env, f: Filter)
    requires EnvOk(env) && FilterOk(env, f) && Compiled(env, f).Some?
    ensures Compiled(env, Not(f)) == None <==> Translate(env, f) == Some(Empty)
  {
    ParsePrinted(env, f);
    ParsePrinted(env, Not(f));
    TranslationIsCompound(env, f);
    var e := Translate(env, f);
    if e.Some? && Compound(e.value) {
      CompoundNegates(env.js, e.value, env.params);
    }
  }
}
