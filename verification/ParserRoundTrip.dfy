/**
 Parsing what was printed: the grammar reads a printed filter back to exactly the tree
 `Translate` describes, and fails exactly when there is no such tree.
 */
module ParserRoundTrip {
  import opened Options
  import opened Expressions
  import opened Grammar
  import opened FilterSyntax

  /** What may follow an operand without being read as part of it. */
  predicate EndsOperand(k: seq<Token>) {
    !AtDot(k) && !At(k, "[") && !At(k, "(")
  }

  /** What may follow a condition. */
  predicate EndsCondition(k: seq<Token>) {
    EndsOperand(k) && !AtRelation(k)
  }

  /** What a parse gives, whatever its reason when it gives nothing. */
  function Given<T>(p: Parsed<T>): Option<(T, seq<Token>, bool)> {
    if p.Ok? then Some((p.value, p.rest, p.shaped)) else None
  }

  /** `p` is the result of reading `v` (nothing when `None`), leaving `k`. */
  predicate Reads<T(==)>(p: Parsed<T>, v: Option<T>, k: seq<Token>, shaped: bool) {
    Given(p) == if v.None? then None else Some((v.value, k, shaped))
  }

  lemma {:induction false} ParamPathReadsBack(acc: Path, path: Path, k: seq<Token>)
    requires !AtDot(k)
    ensures ParamPath(acc, PrintParamPath(path, k)) == Ok(acc + path, k, false)
    decreases |path|
  {
    if path == [] {
      assert acc + path == acc;
    } else {
      ParamPathReadsBack(acc + [path[0]], path[1..], k);
      assert acc + [path[0]] + path[1..] == acc + path;
    }
  }

  lemma {:induction false} TransformStep(env: Env, kind: ChainKind, path: Path, last: Option<Transformer>, name: string, rest: seq<Token>, shaped: bool)
    requires TransformOf(name).Some?
    ensures ParseChain(env, kind, path, last, [Punct("."), Word(name), Punct("("), Punct(")")] + rest, shaped)
         == ParseChain(env, kind, path, TransformOf(name), rest, shaped)
  {
    var ts := [Punct("."), Word(name), Punct("("), Punct(")")] + rest;
    assert AtDot(ts) && ts[1] == Word(name) && ts[4..] == rest;
    assert At(ts[2..], "(") && At(ts[3..], ")");
  }

  lemma {:induction false} TransformsReadBack(env: Env, kind: ChainKind, path: Path, last: Option<Transformer>,
                                              names: seq<string>, k: seq<Token>, shaped: bool)
    requires forall i | 0 <= i < |names| :: TransformOf(names[i]).Some?
    ensures ParseChain(env, kind, path, last, PrintTransforms(names, k), shaped)
         == ParseChain(env, kind, path, if names == [] then last else LastTransform(names), k, shaped)
    decreases |names|
  {
    hide ParseChain;
    if names != [] {
      var rest := PrintTransforms(names[1..], k);
      TransformStep(env, kind, path, last, names[0], rest, shaped);
      assert PrintTransforms(names, k) == [Punct("."), Word(names[0]), Punct("("), Punct(")")] + rest;
      TransformsReadBack(env, kind, path, TransformOf(names[0]), names[1..], k, shaped);
      assert (if names[1..] == [] then TransformOf(names[0]) else LastTransform(names[1..])) == LastTransform(names);
    }
  }

  lemma {:induction false} NameStep(env: Env, kind: ChainKind, path: Path, dot: string, name: string, k: seq<Token>, shaped: bool)
    requires (dot == "." || dot == "?.") && !At(k, "(")
    ensures ParseChain(env, kind, path, None, [Punct(dot), Word(name)] + k, shaped) == ParseChain(env, kind, path + [name], None, k, shaped)
  {
    var ts := [Punct(dot), Word(name)] + k;
    assert AtDot(ts) && ts[1] == Word(name) && ts[2..] == k;
  }

  /** A bracket whose inside has been read, closed. */
  lemma {:induction false} BracketStep(env: Env, kind: ChainKind, path: Path, inside: seq<Token>, name: Option<string>, rest: seq<Token>,
                                       k: seq<Token>, computed: bool, shaped: bool)
    requires ParseBracketSegment(env, kind, inside) == if name.None? then Fail(ParamDependent) else Ok(name.value, rest, computed)
    requires rest == [Punct("]")] + k
    ensures var p := ParseChain(env, kind, path, None, [Punct("[")] + inside, shaped);
      if name.None? then p.Fail? else p == ParseChain(env, kind, path + [name.value], None, k, shaped || computed)
  {
    var ts := [Punct("[")] + inside;
    assert At(ts, "[") && !AtDot(ts) && ts[1..] == inside && rest[1..] == k;
  }

  lemma {:induction false} ComputedInside(env: Env, p: Path, tail: seq<Token>)
    requires env.paramsName.Some? && !AtDot(tail)
    ensures var inside := [Word(env.paramsName.value)] + PrintParamPath(p, tail);
      var name := SegmentName(env, Computed(p));
      ParseBracketSegment(env, OfEntity, inside) == if name.None? then Fail(ParamDependent) else Ok(name.value, tail, true)
  {
    var inside := [Word(env.paramsName.value)] + PrintParamPath(p, tail);
    assert inside[0] == Word(env.paramsName.value) && inside[1..] == PrintParamPath(p, tail);
    ParamPathReadsBack([], p, tail);
    assert [] + p == p;
  }

  lemma {:induction false} LiteralInside(env: Env, kind: ChainKind, name: string, tail: seq<Token>)
    ensures ParseBracketSegment(env, kind, [Token(StringToken, name)] + tail) == Ok(name, tail, false)
  {
    var inside := [Token(StringToken, name)] + tail;
    assert inside[0] == Token(StringToken, name) && inside[1..] == tail;
  }

  /** A segment has been read: its name joins the path, or the parse has failed for want of one. */
  ghost predicate Continues(p: Parsed<Operand>, env: Env, kind: ChainKind, path: Path, name: Option<string>, k: seq<Token>, shaped: bool) {
    if name.None? then p.Fail? else p == ParseChain(env, kind, path + [name.value], None, k, shaped)
  }

  lemma {:induction false} BracketReadsBack(env: Env, kind: ChainKind, path: Path, s: Segment, k: seq<Token>, shaped: bool)
    requires s.Bracket? || (s.Computed? && kind == OfEntity && env.paramsName.Some?)
    ensures Continues(ParseChain(env, kind, path, None, PrintSegment(env, s, k), shaped), env, kind, path, SegmentName(env, s), k, shaped || s.Computed?)
  {
    hide ParseChain;
    var tail := [Punct("]")] + k;
    var inside :=
      if s.Bracket? then [Token(StringToken, s.name)] + tail
      else [Word(env.paramsName.value)] + PrintParamPath(s.path, tail);
    if s.Bracket? {
      LiteralInside(env, kind, s.name, tail);
    } else {
      ComputedInside(env, s.path, tail);
    }
    BracketStep(env, kind, path, inside, SegmentName(env, s), tail, k, s.Computed?, shaped);
    assert PrintSegment(env, s, k) == [Punct("[")] + inside;
  }

  lemma {:induction false} SegmentReadsBack(env: Env, kind: ChainKind, path: Path, s: Segment, k: seq<Token>, shaped: bool)
    requires s.Computed? ==> kind == OfEntity && env.paramsName.Some?
    requires !At(k, "(")
    ensures Continues(ParseChain(env, kind, path, None, PrintSegment(env, s, k), shaped), env, kind, path, SegmentName(env, s), k, shaped || s.Computed?)
  {
    hide ParseChain;
    match s
    case Dot(name) => NameStep(env, kind, path, ".", name, k, shaped);
    case OptionalDot(name) => NameStep(env, kind, path, "?.", name, k, shaped);
    case _ => BracketReadsBack(env, kind, path, s, k, shaped);
  }

  lemma {:induction false} SegmentsReadBack(env: Env, kind: ChainKind, path: Path, ss: seq<Segment>, k: seq<Token>, shaped: bool)
    requires forall i | 0 <= i < |ss| :: ss[i].Computed? ==> kind == OfEntity && env.paramsName.Some?
    requires !At(k, "(")
    ensures ChainContinues(ParseChain(env, kind, path, None, PrintSegments(env, ss, k), shaped), env, kind, path, Names(env, ss), k, shaped || AnyComputed(ss))
    decreases |ss|
  {
    hide ParseChain;
    if ss == [] {
      assert path + [] == path;
    } else {
      SegmentsDoNotOpenParenthesis(env, ss[1..], k);
      SegmentReadsBack(env, kind, path, ss[0], PrintSegments(env, ss[1..], k), shaped);
      var name := SegmentName(env, ss[0]);
      if name.Some? {
        SegmentsReadBack(env, kind, path + [name.value], ss[1..], k, shaped || ss[0].Computed?);
        AnyComputedFrom(ss);
        var names := Names(env, ss[1..]);
        if names.Some? {
          assert path + [name.value] + names.value == path + ([name.value] + names.value);
        }
      }
    }
  }

  ghost predicate ChainContinues(p: Parsed<Operand>, env: Env, kind: ChainKind, path: Path, names: Option<Path>, k: seq<Token>, shaped: bool) {
    if names.None? then p.Fail? else p == ParseChain(env, kind, path + names.value, None, k, shaped)
  }

  lemma {:induction false} AnyComputedFrom(ss: seq<Segment>)
    requires ss != []
    ensures AnyComputed(ss) == (ss[0].Computed? || AnyComputed(ss[1..]))
  {
    if AnyComputed(ss) {
      var i :| 0 <= i < |ss| && ss[i].Computed?;
      assert i > 0 ==> ss[1..][i - 1] == ss[i];
    }
  }

  lemma {:induction false} SegmentsDoNotOpenParenthesis(env: Env, ss: seq<Segment>, k: seq<Token>)
    requires !At(k, "(")
    ensures !At(PrintSegments(env, ss, k), "(")
  {
  }

  lemma {:induction false} ChainReadsBack(env: Env, kind: ChainKind, c: Chain, k: seq<Token>)
    requires ChainOk(c) && !At(k, "(")
    requires forall i | 0 <= i < |c.segments| :: c.segments[i].Computed? ==> kind == OfEntity && env.paramsName.Some?
    ensures var names := Names(env, c.segments);
            var p := ParseChain(env, kind, [], None, PrintChain(env, c, k), false);
            if names.None? then p.Fail?
            else p == ParseChain(env, kind, names.value, LastTransform(c.transforms), k, AnyComputed(c.segments))
  {
    hide ParseChain;
    var tail := PrintTransforms(c.transforms, k);
    SegmentsReadBack(env, kind, [], c.segments, tail, false);
    var names := Names(env, c.segments);
    if names.Some? {
      assert [] + names.value == names.value;
      TransformsReadBack(env, kind, names.value, None, c.transforms, k, AnyComputed(c.segments));
    }
  }

  // ----- literals and lists -----

  function LitOperand(js: Js, lit: Lit): Operand {
    ValueOperand(RawLit(js, lit),
                 if lit.StringLit? && lit.casing.Some? then TransformOf(lit.casing.value) else None)
  }

  lemma {:induction false} LitReadsBack(env: Env, lit: Lit, k: seq<Token>)
    requires EnvOk(env) && LitOk(lit) && !AtDot(k)
    ensures ParseOperand(env, PrintLit(lit, k)) == Ok(LitOperand(env.js, lit), k, false)
  {
    hide ParseChain, ArrayItems, ParseArrayLiteral;
    var ts := PrintLit(lit, k);
    match lit
    case StringLit(_, casing) =>
      if casing.Some? {
        assert ts[1..][4..] == k;
        assert ts[1..][2..] == [Punct("("), Punct(")")] + k;
        assert ts[1..][3..] == [Punct(")")] + k;
      } else {
        assert ts[1..] == k;
      }
    case NumberLit(negative, _) =>
      assert if negative then ts[2..] == k else ts[1..] == k;
    case VoidLit(_) => assert ts[1..][1..] == k;
    case _ => assert ts[1..] == k;
  }

  lemma {:induction false} ItemsReadBack(env: Env, acc: seq<Value>, items: seq<Lit>, k: seq<Token>)
    requires EnvOk(env) && forall i | 0 <= i < |items| :: LitOk(items[i])
    ensures var vs := ListValues(env.js, items);
            var p := ArrayItems(env, acc, PrintItems(items, k), false);
            if vs.None? then p.Fail? else p == Ok(acc + vs.value, [Punct("]")] + k, false)
    decreases |items|
  {
    hide ParseOperand;
    if items == [] {
      assert acc + [] == acc;
    } else {
      var tail := if |items| == 1 then [Punct("]")] + k else [Punct(",")] + PrintItems(items[1..], k);
      LitReadsBack(env, items[0], tail);
      assert !At(PrintItems(items, k), "]");
      var v := RawLit(env.js, items[0]);
      if !(items[0].StringLit? && items[0].casing.Some?) {
        if |items| == 1 {
          assert ListValues(env.js, items[1..]) == Some([]);
          assert [v] + [] == [v];
        } else {
          assert tail[1..] == PrintItems(items[1..], k);
          ItemsReadBack(env, acc + [v], items[1..], k);
          var vs := ListValues(env.js, items[1..]);
          if vs.Some? {
            assert acc + [v] + vs.value == acc + ([v] + vs.value);
          }
        }
      }
    }
  }

  lemma {:induction false} ListReadsBack(env: Env, items: seq<Lit>, k: seq<Token>)
    requires EnvOk(env) && forall i | 0 <= i < |items| :: LitOk(items[i])
    requires !AtDot(k)
    ensures Reads(ParseOperand(env, PrintTerm(env, ListLit(items), k)), TermOperand(env, ListLit(items)), k, false)
  {
    var ts := PrintTerm(env, ListLit(items), k);
    assert ts[1..] == PrintItems(items, k);
    ItemsReadBack(env, [], items, k);
    var vs := ListValues(env.js, items);
    if vs.Some? {
      assert [] + vs.value == vs.value;
      assert ([Punct("]")] + k)[1..] == k;
      var literal := ValueOperand(List(vs.value), None);
      assert AfterItems(env, literal, [Punct("]")] + k, false) == Ok(literal, k, false);
      assert ParseOperand(env, ts) == ParseArrayLiteral(env, ts[1..]);
    }
  }

  // ----- operands -----

  lemma {:induction false} TermReadsBack(env: Env, t: Term, k: seq<Token>)
    requires EnvOk(env) && TermOk(env, t) && EndsOperand(k)
    ensures Reads(ParseOperand(env, PrintTerm(env, t, k)), TermOperand(env, t), k, TermShaped(t))
  {
    var ts := PrintTerm(env, t, k);
    match t
    case Constant(lit) => LitReadsBack(env, lit, k);
    case ListLit(items) => ListReadsBack(env, items, k);
    case EntityTerm(c) =>
      assert ts[1..] == PrintChain(env, c, k);
      ChainReadsBack(env, OfEntity, c, k);
    case ParamTerm(c) =>
      assert ts[1..] == PrintChain(env, c, k);
      ChainReadsBack(env, OfParams, c, k);
  }

  lemma {:induction false} ArgumentReadsBack(env: Env, t: Term, k: seq<Token>)
    requires EnvOk(env) && TermOk(env, t)
    ensures Reads(ParseArgument(env, PrintTerm(env, t, [Punct(")")] + k)), TermOperand(env, t), k, TermShaped(t))
  {
    var tail := [Punct(")")] + k;
    TermReadsBack(env, t, tail);
    assert tail[1..] == k;
  }

  /** After its closing bracket, an array literal only takes `.includes(`. */
  lemma {:induction false} MethodAfterList(env: Env, inner: seq<Token>, vs: seq<Value>, name: string, arguments: seq<Token>)
    requires ArrayItems(env, [], inner, false) == Ok(vs, [Punct("]")] + ([Punct("."), Word(name), Punct("(")] + arguments), false)
    ensures var p := ParseArrayLiteral(env, inner);
            if name != "includes" then p.Fail?
            else p == FinishMethodCall(env, ValueOperand(List(vs), None), Includes, arguments, false)
  {
    var call := [Punct("."), Word(name), Punct("(")] + arguments;
    var after := [Punct("]")] + call;
    assert after[1..] == call;
    assert after[2..] == [Word(name), Punct("(")] + arguments;
    assert after[2..][1..] == [Punct("(")] + arguments;
    assert after[2..][2..] == arguments;
  }

  lemma {:induction false} CallOnListReadsBack(env: Env, items: seq<Lit>, name: string, argument: Term, k: seq<Token>)
    requires EnvOk(env) && SideOk(env, Call(ListLit(items), name, argument))
    ensures var s := Call(ListLit(items), name, argument);
            Reads(ParseOperand(env, PrintSide(env, s, k)), SideOperand(env, s), k, SideShaped(s))
  {
    var call := PrintCall(env, name, argument, k);
    var inner := PrintItems(items, call);
    var ts := PrintTerm(env, ListLit(items), call);
    assert ts[1..] == inner;
    assert ParseOperand(env, ts) == ParseArrayLiteral(env, inner);
    ItemsReadBack(env, [], items, call);
    var vs := ListValues(env.js, items);
    if vs.Some? {
      assert [] + vs.value == vs.value;
      MethodAfterList(env, inner, vs.value, name, PrintTerm(env, argument, [Punct(")")] + k));
      ArgumentReadsBack(env, argument, k);
    }
  }

  lemma {:induction false} CallOnChainReadsBack(env: Env, target: Term, name: string, argument: Term, k: seq<Token>)
    requires EnvOk(env) && SideOk(env, Call(target, name, argument))
    requires target.EntityTerm? || target.ParamTerm?
    ensures var s := Call(target, name, argument);
            Reads(ParseOperand(env, PrintSide(env, s, k)), SideOperand(env, s), k, SideShaped(s))
  {
    hide ParseChain, ParseArgument;
    var call := PrintCall(env, name, argument, k);
    var ts := PrintTerm(env, target, call);
    var kind := if target.EntityTerm? then OfEntity else OfParams;
    assert ts[1..] == PrintChain(env, target.chain, call);
    ChainReadsBack(env, kind, target.chain, call);
    var names := Names(env, target.chain.segments);
    assert ParseOperand(env, ts) == ParseChain(env, kind, [], None, ts[1..], false);
    hide ParseOperand, PrintChain, PrintTerm;
    if names.Some? {
      CallStep(env, kind, names.value, LastTransform(target.chain.transforms), name, argument, k, AnyComputed(target.chain.segments));
      ArgumentReadsBack(env, argument, k);
    }
  }

  lemma {:induction false} CallStep(env: Env, kind: ChainKind, path: Path, last: Option<Transformer>, name: string, argument: Term,
                                    k: seq<Token>, shaped: bool)
    requires TransformOf(name).None?
    ensures ParseChain(env, kind, path, last, PrintCall(env, name, argument, k), shaped)
         == CallOnChain(env, kind, path, last, name, PrintTerm(env, argument, [Punct(")")] + k), shaped)
  {
    var call := PrintCall(env, name, argument, k);
    assert AtDot(call) && call[1] == Word(name);
    assert call[2..] == [Punct("(")] + PrintTerm(env, argument, [Punct(")")] + k);
    assert call[3..] == PrintTerm(env, argument, [Punct(")")] + k);
  }

  lemma {:induction false} SideReadsBack(env: Env, s: Side, k: seq<Token>)
    requires EnvOk(env) && SideOk(env, s) && EndsOperand(k)
    ensures Reads(ParseOperand(env, PrintSide(env, s, k)), SideOperand(env, s), k, SideShaped(s))
    ensures !At(PrintSide(env, s, k), "!") && !At(PrintSide(env, s, k), "(")
  {
    match s
    case Plain(t) => TermReadsBack(env, t, k);
    case Call(target, name, argument) =>
      if target.ListLit? {
        CallOnListReadsBack(env, target.items, name, argument, k);
      } else {
        CallOnChainReadsBack(env, target, name, argument, k);
      }
  }

  // ----- conditions and connectives -----

  lemma {:induction false} TestReadsBack(env: Env, s: Side, k: seq<Token>)
    requires EnvOk(env) && SideOk(env, s) && EndsCondition(k)
    ensures Reads(ParseUnary(env, PrintSide(env, s, k)), Translate(env, Test(s)), k, SideShaped(s))
  {
    SideReadsBack(env, s, k);
  }

  lemma {:induction false} CompareReadsBack(env: Env, l: Side, symbol: string, r: Side, k: seq<Token>)
    requires EnvOk(env) && FilterOk(env, Compare(l, symbol, r)) && EndsCondition(k)
    ensures Reads(ParseUnary(env, PrintUnary(env, Compare(l, symbol, r), k)),
                  Translate(env, Compare(l, symbol, r)), k, Shaped(Compare(l, symbol, r)))
  {
    var tail := [Punct(symbol)] + PrintSide(env, r, k);
    SideReadsBack(env, l, tail);
    assert tail[1..] == PrintSide(env, r, k);
    SideReadsBack(env, r, k);
    hide ParseOperand, PrintSide, BuildComparison, SideOperand;
  }

  /** A parenthesised disjunction is read back whole, once its inside is. */
  lemma {:induction false} GroupReadsBack(env: Env, inner: seq<Token>, v: Option<Expr>, k: seq<Token>, shaped: bool)
    requires EndsCondition(k)
    requires Reads(ParseOr(env, inner), v, [Punct(")")] + k, shaped)
    ensures Reads(ParseUnary(env, [Punct("(")] + inner), v, k, shaped)
  {
    var ts := [Punct("(")] + inner;
    assert ts[1..] == inner;
    assert ([Punct(")")] + k)[1..] == k;
  }

  lemma {:induction false} NotReadsBack(env: Env, g: Filter, k: seq<Token>)
    requires Reads(ParseUnary(env, PrintUnary(env, g, k)), Translate(env, g), k, Shaped(g))
    ensures Reads(ParseUnary(env, PrintUnary(env, Not(g), k)), Translate(env, Not(g)), k, Shaped(Not(g)))
  {
    assert PrintUnary(env, Not(g), k)[1..] == PrintUnary(env, g, k);
    hide ParseComparison;
  }

  lemma {:induction false} UnaryReadsBack(env: Env, f: Filter, k: seq<Token>)
    requires EnvOk(env) && FilterOk(env, f) && EndsCondition(k)
    ensures Reads(ParseUnary(env, PrintUnary(env, f, k)), Translate(env, f), k, Shaped(f))
    decreases f, 1
  {
    hide ParseComparison, ParseUnary;
    var close := [Punct(")")] + k;
    match f
    case Test(s) => TestReadsBack(env, s, k);
    case Compare(l, symbol, r) => CompareReadsBack(env, l, symbol, r, k);
    case Not(g) =>
      UnaryReadsBack(env, g, k);
      NotReadsBack(env, g, k);
    case Group(g) =>
      OrReadsBack(env, g, close);
      GroupReadsBack(env, PrintOr(env, g, close), Translate(env, g), k, Shaped(g));
    case Or(l, r) =>
      OrTailReadsBack(env, l, r, close);
      GroupReadsBack(env, PrintOr(env, l, [Punct("||")] + PrintAnd(env, r, close)), Translate(env, f), k, Shaped(f));
    case And(l, r) =>
      AndTailReadsBack(env, l, r, close);
      var inner := PrintAnd(env, l, [Punct("&&")] + PrintUnary(env, r, close));
      GroupReadsBack(env, inner, Translate(env, f), k, Shaped(f));
  }

  /** Reading `l && r` as a left-nested conjunction leaves the loop exactly where `f` ends. */
  lemma {:induction false} AndTailReadsBack(env: Env, l: Filter, r: Filter, k: seq<Token>)
    requires EnvOk(env) && FilterOk(env, And(l, r)) && EndsCondition(k)
    ensures var e := Translate(env, And(l, r));
            var p := ParseAnd(env, PrintAnd(env, l, [Punct("&&")] + PrintUnary(env, r, k)));
            if e.None? then p.Fail? else p == AndLoop(env, e.value, k, Shaped(And(l, r)))
    decreases And(l, r), 0
  {
    var tail := [Punct("&&")] + PrintUnary(env, r, k);
    AndReadsBack(env, l, tail);
    UnaryReadsBack(env, r, k);
    assert tail[1..] == PrintUnary(env, r, k);
  }

  lemma {:induction false} AndReadsBack(env: Env, f: Filter, k: seq<Token>)
    requires EnvOk(env) && FilterOk(env, f) && EndsCondition(k)
    ensures var e := Translate(env, f);
            var p := ParseAnd(env, PrintAnd(env, f, k));
            if e.None? then p.Fail? else p == AndLoop(env, e.value, k, Shaped(f))
    decreases f, 2
  {
    if f.And? {
      AndTailReadsBack(env, f.l, f.r, k);
    } else {
      UnaryReadsBack(env, f, k);
    }
  }

  lemma {:induction false} OrTailReadsBack(env: Env, l: Filter, r: Filter, k: seq<Token>)
    requires EnvOk(env) && FilterOk(env, Or(l, r)) && EndsCondition(k) && !At(k, "&&")
    ensures var e := Translate(env, Or(l, r));
            var p := ParseOr(env, PrintOr(env, l, [Punct("||")] + PrintAnd(env, r, k)));
            if e.None? then p.Fail? else p == OrLoop(env, e.value, k, Shaped(Or(l, r)))
    decreases Or(l, r), 0
  {
    var tail := [Punct("||")] + PrintAnd(env, r, k);
    OrReadsBack(env, l, tail);
    AndReadsBack(env, r, k);
    assert tail[1..] == PrintAnd(env, r, k);
  }

  lemma {:induction false} OrReadsBack(env: Env, f: Filter, k: seq<Token>)
    requires EnvOk(env) && FilterOk(env, f) && EndsCondition(k) && !At(k, "&&")
    ensures var e := Translate(env, f);
            var p := ParseOr(env, PrintOr(env, f, k));
            if e.None? then p.Fail? else p == OrLoop(env, e.value, k, Shaped(f))
    decreases f, 3
  {
    if f.Or? {
      OrTailReadsBack(env, f.l, f.r, k);
    } else {
      AndReadsBack(env, f, k);
    }
  }

  /**
   Parsing a printed filter gives exactly its translation, through precedence, left
   association, grouping and negation, and fails exactly when it has none.
   */
  lemma {:induction false} ParsePrinted(env: Env, f: Filter)
    requires EnvOk(env) && FilterOk(env, f)
    ensures Reads(Parse(env, Print(env, f)), Translate(env, f), [], Shaped(f))
  {
    OrReadsBack(env, f, []);
  }
}
