/**
 The template cache in front of the filter parser (core/src/expressions/parser.ts,
 toExpression): when a cached parse may stand for a fresh one.
 */
module TemplateCache {
  import opened Options
  import opened Expressions
  import opened Grammar
  import opened FilterSyntax
  import opened FilterMeaning
  import opened ParserRoundTrip
  import FilterParser

  /** A filter function's text, split into its first parameter, a destructured second one, and its body. */
  datatype Source = Source(entityName: string, second: Option<string>, body: seq<Token>)

  /** `template` is `NotParsable` for a cached failure. */
  datatype CachedTemplate = CachedTemplate(template: Expr, paramsName: Option<string>)

  /** What one schema's cache is built over. */
  datatype Schema = Schema(js: Js, properties: map<Path, PropertyInfo>)

  type Templates = map<Source, CachedTemplate>

  const MAX_CACHED_TEMPLATES := 1024

  /** `resolveFunctionShape` reads the params name only when the call carries params. */
  function EnvOf(schema: Schema, source: Source, params: Option<Value>): Env {
    Env(schema.js, schema.properties, source.entityName,
        if params.Some? then source.second else None,
        if params.Some? then params.value else Undefined)
  }

  function ParseSource(schema: Schema, source: Source, params: Option<Value>): Parsed<Expr> {
    if source.entityName == "" then Fail(Unsupported)
    else Grammar.Parse(EnvOf(schema, source, params), source.body)
  }

  function BindOrRefuse(js: Js, template: Expr, params: Option<Value>): Expr {
    match Bind(js, template, if params.Some? then params.value else Undefined)
    case None => NotParsable
    case Some(e) => e
  }

  /** Parsing afresh and binding: what the cache must not be told apart from. */
  function Fresh(schema: Schema, source: Source, params: Option<Value>): Expr {
    match ParseSource(schema, source, params)
    case Fail(_) => NotParsable
    case Ok(template, _, _) => BindOrRefuse(schema.js, template, params)
  }

  function Stored(templates: Templates, source: Source, entry: CachedTemplate): Templates {
    (if |templates| >= MAX_CACHED_TEMPLATES then map[] else templates)[source := entry]
  }

  /** The cache after a call. */
  function After(schema: Schema, templates: Templates, source: Source, params: Option<Value>): Templates {
    if source in templates then templates
    else
      match ParseSource(schema, source, params)
      case Fail(why) => if why.ParamDependent? then templates else Stored(templates, source, CachedTemplate(NotParsable, None))
      case Ok(template, _, shaped) =>
        if shaped then templates
        else Stored(templates, source, CachedTemplate(template, EnvOf(schema, source, params).paramsName))
  }

  /** The tree a call answers with. */
  function Answer(schema: Schema, templates: Templates, source: Source, params: Option<Value>): Expr {
    if source in templates then
      if templates[source].template.NotParsable? then NotParsable
      else BindOrRefuse(schema.js, templates[source].template, params)
    else Fresh(schema, source, params)
  }

  /** The cache itself, updated in place by each call. */
  class Cache {
    const schema: Schema
    var templates: Templates

    constructor (schema: Schema)
      ensures this.schema == schema && templates == map[]
    {
      this.schema := schema;
      templates := map[];
    }

    method ToExpression(source: Source, params: Option<Value>) returns (r: Expr)
      modifies this
      ensures templates == After(schema, old(templates), source, params)
      ensures r == Answer(schema, old(templates), source, params)
    {
      if source in templates {
        var cached := templates[source];
        if cached.template.NotParsable? {
          return NotParsable;
        }
        return BindOrRefuse(schema.js, cached.template, params);
      }
      if source.entityName == "" {
        Store(source, CachedTemplate(NotParsable, None));
        return NotParsable;
      }
      var env := EnvOf(schema, source, params);
      var parser := new FilterParser.ExpressionParser(env, source.body);
      var parsed := parser.Parse();
      if parsed.Refused? {
        if !parsed.why.ParamDependent? {
          Store(source, CachedTemplate(NotParsable, None));
        }
        return NotParsable;
      }
      if !parser.structurallyDependsOnParams {
        Store(source, CachedTemplate(parsed.value, env.paramsName));
      }
      r := BindOrRefuse(schema.js, parsed.value, params);
    }

    method Store(source: Source, entry: CachedTemplate)
      modifies this
      ensures templates == Stored(old(templates), source, entry)
    {
      if |templates| >= MAX_CACHED_TEMPLATES {
        templates := map[];
      }
      templates := templates[source := entry];
    }

    method Clear()
      modifies this
      ensures templates == map[]
    {
      templates := map[];
    }
  }

  // ----- what a parse shows of the params -----

  /** The bracket of an `entity[params.x]` segment stands at `i`. */
  predicate KeyAt(paramsName: Option<string>, ts: seq<Token>, i: int) {
    0 <= i < |ts| - 1 && ts[i] == Punct("[") && ts[i + 1].kind == Identifier && paramsName == Some(ts[i + 1].value)
  }

  /** A computed key among the first `n` tokens. */
  predicate KeyIn(paramsName: Option<string>, ts: seq<Token>, n: int) {
    exists i | 0 <= i < n - 1 :: KeyAt(paramsName, ts, i)
  }

  /** No `entity[params.x]` segment anywhere in the tokens. */
  predicate NoComputedKey(paramsName: Option<string>, ts: seq<Token>) { !KeyIn(paramsName, ts, |ts|) }

  /** No computed key starts among the first `n` tokens. */
  predicate Clean(paramsName: Option<string>, ts: seq<Token>, n: int) {
    forall i | 0 <= i < n :: !KeyAt(paramsName, ts, i)
  }

  /** Words the parser takes for constants before it asks for the params name; only `undefined` can be a name at all. */
  predicate IsConstantWord(paramsName: Option<string>) {
    paramsName.Some? && paramsName.value in ["true", "false", "null", "undefined", "void"]
  }

  predicate Suffix(rest: seq<Token>, ts: seq<Token>) {
    |rest| <= |ts| && rest == ts[|ts| - |rest|..]
  }

  /** The other call may hold other params, and may know the params name where this one does not. */
  ghost predicate Twins(a: Env, b: Env) {
    b == a.(params := b.params, paramsName := b.paramsName) && (b.paramsName == a.paramsName || a.paramsName == None)
  }

  /**
   What the parse `p` shows of its params, begun with the flag `s`: it depends on them only where a
   computed key was read, it says so where one was, and where it says nothing the twin's parse `q` is the same.
   */
  ghost predicate Shown<T>(a: Env, s: bool, p: Parsed<T>, q: Parsed<T>, ts: seq<Token>) {
    match p
    case Fail(why) => why == ParamDependent ==> KeyIn(a.paramsName, ts, |ts|)
    case Ok(_, rest, shaped) =>
      && Suffix(rest, ts)
      && (shaped ==> s || KeyIn(a.paramsName, ts, |ts| - |rest|))
      && (s || (KeyIn(a.paramsName, ts, |ts| - |rest|) && !IsConstantWord(a.paramsName)) ==> shaped)
      && (!shaped ==> q == p)
  }

  lemma {:induction false} KeyOnSuffix(name: Option<string>, rest: seq<Token>, ts: seq<Token>, i: int)
    requires Suffix(rest, ts) && i >= |ts| - |rest|
    ensures KeyAt(name, ts, i) <==> KeyAt(name, rest, i - (|ts| - |rest|))
  {
    var k := |ts| - |rest|;
    if i < |ts| - 1 {
      assert ts[i] == rest[i - k] && ts[i + 1] == rest[i + 1 - k];
    }
  }

  /** A key before `n` lies before `rest`, or across its edge, or in it. */
  lemma {:induction false} KeyInParts(name: Option<string>, rest: seq<Token>, ts: seq<Token>, n: int)
    requires Suffix(rest, ts) && |ts| - |rest| <= n
    ensures var k := |ts| - |rest|;
      KeyIn(name, ts, n) <==> KeyIn(name, ts, k) || (k < n && KeyAt(name, ts, k - 1)) || KeyIn(name, rest, n - k)
  {
    var k := |ts| - |rest|;
    if KeyIn(name, ts, n) {
      var i :| 0 <= i < n - 1 && KeyAt(name, ts, i);
      if i >= k {
        KeyOnSuffix(name, rest, ts, i);
      }
    }
    if KeyIn(name, rest, n - k) {
      var i :| 0 <= i < n - k - 1 && KeyAt(name, rest, i);
      KeyOnSuffix(name, rest, ts, i + k);
      assert KeyAt(name, ts, i + k);
    }
    if KeyIn(name, ts, k) {
      var i :| 0 <= i < k - 1 && KeyAt(name, ts, i);
      assert KeyAt(name, ts, i) && i < n - 1;
    }
  }

  lemma {:induction false} SuffixOfSuffix(last: seq<Token>, rest: seq<Token>, ts: seq<Token>)
    requires Suffix(last, rest) && Suffix(rest, ts)
    ensures Suffix(last, ts)
  {
  }

  /** A parse of the tokens after a stretch without keys. */
  lemma {:induction false} ShownAfter<T>(a: Env, s: bool, p: Parsed<T>, q: Parsed<T>, rest: seq<Token>, ts: seq<Token>)
    requires Suffix(rest, ts) && Shown(a, s, p, q, rest)
    requires Clean(a.paramsName, ts, |ts| - |rest|) || IsConstantWord(a.paramsName)
    ensures Shown(a, s, p, q, ts)
  {
    hide KeyAt;
    KeyInParts(a.paramsName, rest, ts, |ts|);
    if p.Ok? {
      SuffixOfSuffix(p.rest, rest, ts);
      KeyInParts(a.paramsName, rest, ts, |ts| - |p.rest|);
    }
  }

  /** A parse `p` that goes on, with its flag, from where a first one stopped. */
  lemma {:induction false} ShownThen<T, U>(a: Env, s: bool, first: Parsed<U>, first': Parsed<U>, p: Parsed<T>, q: Parsed<T>, ts: seq<Token>)
    requires first.Ok? && Shown(a, s, first, first', ts) && (first.rest == [] || first.rest[0].kind != Identifier)
    requires if first.shaped then Shown(a, true, p, p, first.rest) else Shown(a, false, p, q, first.rest)
    ensures Shown(a, s, p, q, ts)
  {
    var k := |ts| - |first.rest|;
    assert !KeyAt(a.paramsName, ts, k - 1) by {
      if 0 <= k - 1 < |ts| - 1 {
        assert ts[k] == first.rest[0];
      }
    }
    hide KeyAt;
    KeyInParts(a.paramsName, first.rest, ts, |ts|);
    if p.Ok? {
      SuffixOfSuffix(p.rest, first.rest, ts);
      KeyInParts(a.paramsName, first.rest, ts, |ts| - |p.rest|);
    }
  }

  lemma {:induction false} NoKeyAtFront(name: Option<string>, ts: seq<Token>)
    requires ts != [] && ts[0] != Punct("[")
    ensures Clean(name, ts, 1)
  {
  }

  function Flagged<T>(s: bool, p: Parsed<T>): Parsed<T> { if p.Ok? then p.(shaped := s || p.shaped) else p }

  lemma {:induction false} ShownFlagged<T>(a: Env, s: bool, p: Parsed<T>, q: Parsed<T>, ts: seq<Token>)
    requires Shown(a, false, p, q, ts)
    ensures Shown(a, s, Flagged(s, p), Flagged(s, q), ts)
  {
  }

  // ----- the operands -----

  /** A chain is a property, a param or a call on one, never a constant. */
  lemma {:induction false} ChainIsNoValue(env: Env, kind: ChainKind, path: Path, transformer: Option<Transformer>, ts: seq<Token>, s: bool)
    ensures var p := ParseChain(env, kind, path, transformer, ts, s); p.Ok? ==> !p.value.ValueOperand?
    decreases |ts|
  {
    hide ParseArgument, ResolveParam;
    if AtDot(ts) && |ts| >= 2 {
      var name := ts[1].value;
      if !At(ts[2..], "(") {
        ChainIsNoValue(env, kind, path + [name], transformer, ts[2..], s);
      } else if TransformOf(name).Some? && At(ts[3..], ")") {
        ChainIsNoValue(env, kind, path, TransformOf(name), ts[4..], s);
      }
    } else if At(ts, "[") {
      var segment := ParseBracketSegment(env, kind, ts[1..]);
      if segment.Ok? && At(segment.rest, "]") {
        ChainIsNoValue(env, kind, path + [segment.value], transformer, segment.rest[1..], s || segment.shaped);
      }
    }
  }

  /** An array literal whose first element is the params is refused. */
  lemma {:induction false} ParamsInArrayFail(a: Env, ts: seq<Token>)
    requires KeyAt(a.paramsName, [Punct("[")] + ts, 0) && !IsConstantWord(a.paramsName)
    ensures ParseArrayLiteral(a, ts).Fail?
  {
    assert ([Punct("[")] + ts)[1] == ts[0];
    var root := ts[0].value;
    ChainIsNoValue(a, if root == a.entityName then OfEntity else OfParams, [], None, ts[1..], false);
    assert ParseOperand(a, ts) == ParseIdentifier(a, root, ts[1..]);
    hide ParseChain;
    assert ParseOperand(a, ts).Ok? ==> !ParseOperand(a, ts).value.ValueOperand?;
    assert ArrayItems(a, [], ts, false).Fail?;
  }

  lemma {:induction false} ShownString(a: Env, s: string, ts: seq<Token>)
    ensures Shown(a, false, WithValueTransformer(s, ts), WithValueTransformer(s, ts), ts)
  {
  }

  lemma {:induction false} ShownIdentifier(a: Env, b: Env, name: string, ts: seq<Token>)
    requires Twins(a, b)
    ensures Shown(a, false, ParseIdentifier(a, name, ts), ParseIdentifier(b, name, ts), ts)
    decreases |ts|, 5
  {
    hide ParseChain, KeyAt;
    if name == a.entityName {
      ShownChain(a, b, OfEntity, [], None, ts, false);
    } else if a.paramsName == Some(name) {
      ShownChain(a, b, OfParams, [], None, ts, false);
    }
  }

  lemma {:induction false} ShownOperand(a: Env, b: Env, ts: seq<Token>)
    requires Twins(a, b)
    ensures Shown(a, false, ParseOperand(a, ts), ParseOperand(b, ts), ts)
    decreases |ts|, 1
  {
    hide ParseIdentifier, ParseArrayLiteral, WithValueTransformer;
    if ts != [] {
      if ts[0].kind == StringToken {
        ShownString(a, ts[0].value, ts[1..]);
        NoKeyAtFront(a.paramsName, ts);
        ShownAfter(a, false, ParseOperand(a, ts), ParseOperand(b, ts), ts[1..], ts);
      } else if ts[0] == Punct("[") {
        ShownBracket(a, b, ts);
      } else if ts[0].kind == Identifier {
        ShownIdentifier(a, b, ts[0].value, ts[1..]);
        NoKeyAtFront(a.paramsName, ts);
        ShownAfter(a, false, ParseOperand(a, ts), ParseOperand(b, ts), ts[1..], ts);
      } else {
      }
    }
  }

  lemma {:induction false} ShownBracket(a: Env, b: Env, ts: seq<Token>)
    requires Twins(a, b) && ts != [] && ts[0] == Punct("[")
    ensures Shown(a, false, ParseOperand(a, ts), ParseOperand(b, ts), ts)
    decreases |ts|, 0
  {
    if KeyAt(a.paramsName, ts, 0) && !IsConstantWord(a.paramsName) {
      assert ts == [Punct("[")] + ts[1..];
      ParamsInArrayFail(a, ts[1..]);
    } else {
      ShownArray(a, b, ts[1..]);
      ShownAfter(a, false, ParseOperand(a, ts), ParseOperand(b, ts), ts[1..], ts);
    }
  }

  lemma {:induction false} ShownItems(a: Env, b: Env, items: seq<Value>, ts: seq<Token>, s: bool)
    requires Twins(a, b)
    ensures Shown(a, s, ArrayItems(a, items, ts, s), ArrayItems(b, items, ts, s), ts)
    decreases |ts|, 3
  {
    hide ParseOperand, KeyAt;
    if !At(ts, "]") {
      ShownOperand(a, b, ts);
      var first, first' := Flagged(s, ParseOperand(a, ts)), Flagged(s, ParseOperand(b, ts));
      ShownFlagged(a, s, ParseOperand(a, ts), ParseOperand(b, ts), ts);
      if first.Ok? && At(first.rest, ",") && first.value.ValueOperand? {
        var b' := if first.shaped then a else b;
        var p := ArrayItems(a, items + [first.value.value], first.rest[1..], first.shaped);
        var q := ArrayItems(b', items + [first.value.value], first.rest[1..], first.shaped);
        ShownItems(a, b', items + [first.value.value], first.rest[1..], first.shaped);
        NoKeyAtFront(a.paramsName, first.rest);
        ShownAfter(a, first.shaped, p, q, first.rest[1..], first.rest);
        ShownThen(a, s, first, first', ArrayItems(a, items, ts, s), ArrayItems(b, items, ts, s), ts);
      }
    }
  }

  lemma {:induction false} ShownArgument(a: Env, b: Env, ts: seq<Token>)
    requires Twins(a, b)
    ensures Shown(a, false, ParseArgument(a, ts), ParseArgument(b, ts), ts)
    decreases |ts|, 2
  {
    hide ParseOperand;
    ShownOperand(a, b, ts);
    var first := ParseOperand(a, ts);
    if first.Ok? && At(first.rest, ")") {
      var n := |ts| - |first.rest|;
      KeyInParts(a.paramsName, first.rest, ts, n + 1);
      assert first.rest[0] == ts[n];
      SuffixOfSuffix(first.rest[1..], first.rest, ts);
    }
  }

  lemma {:induction false} ShownArray(a: Env, b: Env, ts: seq<Token>)
    requires Twins(a, b)
    ensures Shown(a, false, ParseArrayLiteral(a, ts), ParseArrayLiteral(b, ts), ts)
    decreases |ts|, 5
  {
    hide ArrayItems, AfterItems, KeyAt;
    ShownItems(a, b, [], ts, false);
    var first, first' := ArrayItems(a, [], ts, false), ArrayItems(b, [], ts, false);
    if first.Ok? {
      var b' := if first.shaped then a else b;
      var literal := ValueOperand(List(first.value), None);
      ShownAfterItems(a, b', literal, first.rest, first.shaped);
      if At(first.rest, "]") {
        ShownThen(a, false, first, first', ParseArrayLiteral(a, ts), ParseArrayLiteral(b, ts), ts);
      } else {
        assert AfterItems(a, literal, first.rest, first.shaped) == Fail(Unsupported) by { NoBracketFails(a, literal, first.rest, first.shaped); }
      }
    }
  }

  lemma {:induction false} NoBracketFails(a: Env, literal: Operand, ts: seq<Token>, s: bool)
    requires !At(ts, "]")
    ensures AfterItems(a, literal, ts, s) == Fail(Unsupported)
  {
  }

  lemma {:induction false} ShownAfterItems(a: Env, b: Env, literal: Operand, ts: seq<Token>, s: bool)
    requires Twins(a, b)
    ensures Shown(a, s, AfterItems(a, literal, ts, s), AfterItems(b, literal, ts, s), ts)
    decreases |ts|, 4
  {
    if At(ts, "]") && AtDot(ts[1..]) {
      var call := ts[2..];
      if call != [] && call[0] == Word("includes") && At(call[1..], "(") {
        ShownMethodCall(a, b, literal, call[2..], s);
        assert call[2..] == ts[4..] && call[1] == ts[3];
        ShownAfter(a, s, AfterItems(a, literal, ts, s), AfterItems(b, literal, ts, s), ts[4..], ts);
      }
    }
  }

  lemma {:induction false} ShownMethodCall(a: Env, b: Env, target: Operand, ts: seq<Token>, s: bool)
    requires Twins(a, b)
    ensures Shown(a, s, FinishMethodCall(a, target, Includes, ts, s), FinishMethodCall(b, target, Includes, ts, s), ts)
    decreases |ts|, 3
  {
    ShownArgument(a, b, ts);
    hide ParseArgument;
  }

  lemma {:induction false} ShownChain(a: Env, b: Env, kind: ChainKind, path: Path, transformer: Option<Transformer>, ts: seq<Token>, s: bool)
    requires Twins(a, b)
    ensures Shown(a, s, ParseChain(a, kind, path, transformer, ts, s), ParseChain(b, kind, path, transformer, ts, s), ts)
    decreases |ts|, 4
  {
    if AtDot(ts) && |ts| >= 2 {
      ShownDotted(a, b, kind, path, transformer, ts, s);
    } else if At(ts, "[") {
      ShownBracketed(a, b, kind, path, transformer, ts, s);
    } else {
      assert ResolveChain(a, kind, path, transformer) == ResolveChain(b, kind, path, transformer);
      ChainRefusesPlainly(a, kind, path, transformer);
      hide ResolveChain, KeyAt;
    }
  }

  lemma {:induction false} ChainRefusesPlainly(env: Env, kind: ChainKind, path: Path, transformer: Option<Transformer>)
    ensures var r := ResolveChain(env, kind, path, transformer); r.Refused? ==> r.why == Unsupported
  {
  }

  lemma {:induction false} ShownDotted(a: Env, b: Env, kind: ChainKind, path: Path, transformer: Option<Transformer>, ts: seq<Token>, s: bool)
    requires Twins(a, b) && AtDot(ts) && |ts| >= 2
    ensures Shown(a, s, ParseChain(a, kind, path, transformer, ts, s), ParseChain(b, kind, path, transformer, ts, s), ts)
    decreases |ts|, 3
  {
    var name := ts[1].value;
    var p := ParseChain(a, kind, path, transformer, ts, s);
    var q := ParseChain(b, kind, path, transformer, ts, s);
    if ts[1].kind != Identifier {
    } else if !At(ts[2..], "(") {
      if transformer.None? {
        ShownChain(a, b, kind, path + [name], transformer, ts[2..], s);
        assert p == ParseChain(a, kind, path + [name], transformer, ts[2..], s) && q == ParseChain(b, kind, path + [name], transformer, ts[2..], s);
        hide ParseChain;
        ShownAfter(a, s, p, q, ts[2..], ts);
      }
    } else if TransformOf(name).Some? {
      if At(ts[3..], ")") {
        ShownChain(a, b, kind, path, TransformOf(name), ts[4..], s);
        hide CallOnChain, ParseArgument;
        ShownAfter(a, s, p, q, ts[4..], ts);
      }
    } else {
      ShownArgument(a, b, ts[3..]);
      ShownCalled(a, b, kind, path, transformer, name, ts[3..], s);
      hide CallOnChain, ParseArgument;
      ShownAfter(a, s, p, q, ts[3..], ts);
    }
  }

  lemma {:induction false} ShownCalled(a: Env, b: Env, kind: ChainKind, path: Path, transformer: Option<Transformer>, name: string, ts: seq<Token>, s: bool)
    requires Twins(a, b) && Shown(a, false, ParseArgument(a, ts), ParseArgument(b, ts), ts)
    ensures Shown(a, s, CallOnChain(a, kind, path, transformer, name, ts, s), CallOnChain(b, kind, path, transformer, name, ts, s), ts)
  {
    assert ResolveChain(a, kind, path, transformer) == ResolveChain(b, kind, path, transformer);
    ChainRefusesPlainly(a, kind, path, transformer);
    hide ResolveChain, KeyAt, ParseArgument;
  }

  lemma {:induction false} ParamPathIsSuffix(path: Path, ts: seq<Token>)
    ensures var p := ParamPath(path, ts); if p.Ok? then Suffix(p.rest, ts) else p.why == Unsupported
    decreases |ts|
  {
    if AtDot(ts) && |ts| >= 2 {
      ParamPathIsSuffix(path + [ts[1].value], ts[2..]);
    }
  }

  lemma {:induction false} ShownBracketed(a: Env, b: Env, kind: ChainKind, path: Path, transformer: Option<Transformer>, ts: seq<Token>, s: bool)
    requires Twins(a, b) && At(ts, "[")
    ensures Shown(a, s, ParseChain(a, kind, path, transformer, ts, s), ParseChain(b, kind, path, transformer, ts, s), ts)
    decreases |ts|, 3
  {
    if |ts| >= 2 && ts[1].kind == StringToken {
      assert ts[1..][1..] == ts[2..];
      if At(ts[2..], "]") {
        assert ts[2..][1..] == ts[3..];
        ShownChain(a, b, kind, path + [ts[1].value], transformer, ts[3..], s);
        ShownAfter(a, s, ParseChain(a, kind, path, transformer, ts, s), ParseChain(b, kind, path, transformer, ts, s), ts[3..], ts);
      }
    } else if |ts| >= 2 && kind == OfEntity && KeyAt(a.paramsName, ts, 0) {
      ShownComputed(a, path, transformer, ts, s);
    }
  }

  /** A computed key that is read sets the flag. */
  lemma {:induction false} ShownComputed(a: Env, path: Path, transformer: Option<Transformer>, ts: seq<Token>, s: bool)
    requires At(ts, "[") && KeyAt(a.paramsName, ts, 0)
    ensures var p := ParseChain(a, OfEntity, path, transformer, ts, s);
      p.Ok? ==> p.shaped && Suffix(p.rest, ts) && |p.rest| < |ts| - 1
    decreases |ts|, 2
  {
    var segment := ParseBracketSegment(a, OfEntity, ts[1..]);
    ParamPathIsSuffix([], ts[1..][1..]);
    if segment.Ok? && At(segment.rest, "]") {
      assert segment.shaped && Suffix(segment.rest, ts[1..]);
      ShownChain(a, a, OfEntity, path + [segment.value], transformer, segment.rest[1..], true);
      var p := ParseChain(a, OfEntity, path, transformer, ts, s);
      assert p == ParseChain(a, OfEntity, path + [segment.value], transformer, segment.rest[1..], true);
      hide ParseChain, ParseBracketSegment, KeyAt;
      SuffixOfSuffix(segment.rest[1..], segment.rest, ts[1..]);
      SuffixOfSuffix(segment.rest[1..], ts[1..], ts);
      if p.Ok? {
        SuffixOfSuffix(p.rest, segment.rest[1..], ts);
      }
    }
  }

  // ----- the boolean layer -----

  lemma {:induction false} ShownUnary(a: Env, b: Env, ts: seq<Token>)
    requires Twins(a, b)
    ensures Shown(a, false, ParseUnary(a, ts), ParseUnary(b, ts), ts)
    decreases |ts|, 3
  {
    hide ParseComparison, Negate;
    if At(ts, "!") {
      ShownUnary(a, b, ts[1..]);
      ShownAfter(a, false, ParseUnary(a, ts), ParseUnary(b, ts), ts[1..], ts);
    } else {
      ShownComparison(a, b, ts);
    }
  }

  lemma {:induction false} ConditionsRefusePlainly(js: Js, left: Operand, relation: Relation, right: Operand)
    ensures BuildComparison(js, left, relation, right).Refused? ==> BuildComparison(js, left, relation, right).why == Unsupported
    ensures BuildStandalone(js, left).Refused? ==> BuildStandalone(js, left).why == Unsupported
  {
  }

  lemma {:induction false} ShownComparison(a: Env, b: Env, ts: seq<Token>)
    requires Twins(a, b)
    ensures Shown(a, false, ParseComparison(a, ts), ParseComparison(b, ts), ts)
    decreases |ts|, 2
  {
    if At(ts, "(") {
      ShownOr(a, b, ts[1..]);
      ShownParenthesized(a, b, ts);
    } else {
      ShownOperand(a, b, ts);
      var left := ParseOperand(a, ts);
      if left.Ok? && AtRelation(left.rest) {
        ShownOperand(a, if left.shaped then a else b, left.rest[1..]);
        ShownRelation(a, b, ts);
      } else if left.Ok? {
        ConditionsRefusePlainly(a.js, left.value, Relation(Equals, false, false), left.value);
        hide ParseOperand, BuildStandalone, KeyAt;
      }
    }
  }

  lemma {:induction false} ShownParenthesized(a: Env, b: Env, ts: seq<Token>)
    requires Twins(a, b) && At(ts, "(") && Shown(a, false, ParseOr(a, ts[1..]), ParseOr(b, ts[1..]), ts[1..])
    ensures Shown(a, false, ParseComparison(a, ts), ParseComparison(b, ts), ts)
  {
    var first, first' := ParseOr(a, ts[1..]), ParseOr(b, ts[1..]);
    ShownAfter(a, false, first, first', ts[1..], ts);
    hide ParseOr;
    if first.Ok? && At(first.rest, ")") {
      var n := |ts| - |first.rest|;
      KeyInParts(a.paramsName, first.rest, ts, n + 1);
      assert first.rest[0] == ts[n];
      SuffixOfSuffix(first.rest[1..], first.rest, ts);
    }
  }

  lemma {:induction false} ShownRelation(a: Env, b: Env, ts: seq<Token>)
    requires Twins(a, b) && !At(ts, "(")
    requires var left := ParseOperand(a, ts);
      && Shown(a, false, left, ParseOperand(b, ts), ts) && left.Ok? && AtRelation(left.rest)
      && Shown(a, false, ParseOperand(a, left.rest[1..]), ParseOperand(if left.shaped then a else b, left.rest[1..]), left.rest[1..])
    ensures Shown(a, false, ParseComparison(a, ts), ParseComparison(b, ts), ts)
  {
    var left, left' := ParseOperand(a, ts), ParseOperand(b, ts);
    var b' := if left.shaped then a else b;
    var right, right' := ParseOperand(a, left.rest[1..]), ParseOperand(b', left.rest[1..]);
    var relation := RelationOf(left.rest[0].value).value;
    assert left.rest[0] != Punct("[") by { assert RelationOf("[").None?; }
    hide ParseOperand, KeyAt, BuildComparison, RelationOf;
    ShownFlagged(a, left.shaped, right, right', left.rest[1..]);
    assert Clean(a.paramsName, left.rest, 1) by { NoKeyAtFront(a.paramsName, left.rest); }
    ShownAfter(a, left.shaped, Flagged(left.shaped, right), Flagged(left.shaped, right'), left.rest[1..], left.rest);
    ShownThen(a, false, left, left', Flagged(left.shaped, right), Flagged(left.shaped, right'), ts);
    if right.Ok? {
      ConditionsRefusePlainly(a.js, left.value, relation, right.value);
    }
  }

  lemma {:induction false} ShownAndLoop(a: Env, b: Env, left: Expr, ts: seq<Token>, s: bool)
    requires Twins(a, b)
    ensures Shown(a, s, AndLoop(a, left, ts, s), AndLoop(b, left, ts, s), ts)
    decreases |ts|, 4
  {
    hide ParseUnary, Conjoin;
    if At(ts, "&&") {
      ShownUnary(a, b, ts[1..]);
      var right, right' := ParseUnary(a, ts[1..]), ParseUnary(b, ts[1..]);
      NoKeyAtFront(a.paramsName, ts);
      ShownAfter(a, false, right, right', ts[1..], ts);
      ShownFlagged(a, s, right, right', ts);
      if right.Ok? {
        var joined, s' := Conjoin(left, right.value), s || right.shaped;
        var b' := if s' then a else b;
        var p, q := AndLoop(a, left, ts, s), AndLoop(b, left, ts, s);
        ShownAndLoop(a, b', joined, right.rest, s');
        assert p == AndLoop(a, joined, right.rest, s');
        assert !s' ==> q == AndLoop(b, joined, right.rest, s');
        LoopStopsOrGoesOn(a, joined, right.rest, s');
        hide AndLoop, KeyAt, OrLoop;
        if right.rest == [] || right.rest[0].kind != Identifier {
          ShownThen(a, s, Flagged(s, right), Flagged(s, right'), p, q, ts);
        }
      }
    }
  }

  /** Where no connective stands, a loop is over. */
  lemma {:induction false} LoopStopsOrGoesOn(env: Env, left: Expr, ts: seq<Token>, s: bool)
    ensures !At(ts, "&&") ==> AndLoop(env, left, ts, s) == Ok(left, ts, s)
    ensures !At(ts, "||") ==> OrLoop(env, left, ts, s) == Ok(left, ts, s)
  {
  }

  lemma {:induction false} ShownAnd(a: Env, b: Env, ts: seq<Token>)
    requires Twins(a, b)
    ensures Shown(a, false, ParseAnd(a, ts), ParseAnd(b, ts), ts)
    decreases |ts|, 5
  {
    hide ParseUnary, KeyAt;
    ShownUnary(a, b, ts);
    var first, first' := ParseUnary(a, ts), ParseUnary(b, ts);
    if first.Ok? {
      ShownAndLoop(a, if first.shaped then a else b, first.value, first.rest, first.shaped);
      LoopStopsOrGoesOn(a, first.value, first.rest, first.shaped);
      var p, q := ParseAnd(a, ts), ParseAnd(b, ts);
      assert p == AndLoop(a, first.value, first.rest, first.shaped);
      assert !first.shaped ==> q == AndLoop(b, first.value, first.rest, first.shaped);
      if first.rest == [] || first.rest[0].kind != Identifier {
        hide AndLoop, ParseAnd;
        ShownThen(a, false, first, first', p, q, ts);
      } else if !first.shaped {
        LoopStopsOrGoesOn(b, first.value, first.rest, false);
      }
    }
  }

  lemma {:induction false} ShownOrLoop(a: Env, b: Env, left: Expr, ts: seq<Token>, s: bool)
    requires Twins(a, b)
    ensures Shown(a, s, OrLoop(a, left, ts, s), OrLoop(b, left, ts, s), ts)
    decreases |ts|, 6
  {
    hide ParseAnd, Disjoin;
    if At(ts, "||") {
      ShownAnd(a, b, ts[1..]);
      var right, right' := ParseAnd(a, ts[1..]), ParseAnd(b, ts[1..]);
      NoKeyAtFront(a.paramsName, ts);
      ShownAfter(a, false, right, right', ts[1..], ts);
      ShownFlagged(a, s, right, right', ts);
      if right.Ok? {
        var joined, s' := Disjoin(left, right.value), s || right.shaped;
        var b' := if s' then a else b;
        var p, q := OrLoop(a, left, ts, s), OrLoop(b, left, ts, s);
        ShownOrLoop(a, b', joined, right.rest, s');
        assert p == OrLoop(a, joined, right.rest, s');
        assert !s' ==> q == OrLoop(b, joined, right.rest, s');
        LoopStopsOrGoesOn(a, joined, right.rest, s');
        hide AndLoop, KeyAt, OrLoop;
        if right.rest == [] || right.rest[0].kind != Identifier {
          ShownThen(a, s, Flagged(s, right), Flagged(s, right'), p, q, ts);
        }
      }
    }
  }

  lemma {:induction false} ShownOr(a: Env, b: Env, ts: seq<Token>)
    requires Twins(a, b)
    ensures Shown(a, false, ParseOr(a, ts), ParseOr(b, ts), ts)
    decreases |ts|, 7
  {
    hide ParseAnd, KeyAt;
    ShownAnd(a, b, ts);
    var first, first' := ParseAnd(a, ts), ParseAnd(b, ts);
    if first.Ok? {
      ShownOrLoop(a, if first.shaped then a else b, first.value, first.rest, first.shaped);
      LoopStopsOrGoesOn(a, first.value, first.rest, first.shaped);
      var p, q := ParseOr(a, ts), ParseOr(b, ts);
      assert p == OrLoop(a, first.value, first.rest, first.shaped);
      assert !first.shaped ==> q == OrLoop(b, first.value, first.rest, first.shaped);
      if first.rest == [] || first.rest[0].kind != Identifier {
        hide OrLoop, ParseOr;
        ShownThen(a, false, first, first', p, q, ts);
      } else if !first.shaped {
        LoopStopsOrGoesOn(b, first.value, first.rest, false);
      }
    }
  }

  // ----- what the whole parse shows -----

  /** A whole parse says that a param shaped it exactly when the body holds a computed key; no constant word being the params name. */
  lemma {:induction false} ShapedIffComputedKey(env: Env, ts: seq<Token>)
    requires Grammar.Parse(env, ts).Ok?
    ensures Grammar.Parse(env, ts).shaped ==> !NoComputedKey(env.paramsName, ts)
    ensures !NoComputedKey(env.paramsName, ts) && !IsConstantWord(env.paramsName) ==> Grammar.Parse(env, ts).shaped
  {
    ShownOr(env, env, ts);
  }

  /** A parse that succeeds without a param shaping it is the parse under any params; so is one that knew no params name. */
  lemma {:induction false} UnshapedParseIsTheParse(a: Env, b: Env, ts: seq<Token>)
    requires b == a.(params := b.params, paramsName := b.paramsName) && (b.paramsName == a.paramsName || a.paramsName == None)
    requires Grammar.Parse(a, ts).Ok? && !Grammar.Parse(a, ts).shaped
    ensures Grammar.Parse(b, ts) == Grammar.Parse(a, ts)
  {
    ShownOr(a, b, ts);
  }

  /** Without a computed key the parse is one and the same whatever the params hold. */
  lemma {:induction false} ParseIgnoresParamValues(a: Env, b: Env, ts: seq<Token>)
    requires b == a.(params := b.params) && NoComputedKey(a.paramsName, ts)
    ensures Grammar.Parse(a, ts) == Grammar.Parse(b, ts)
    ensures Grammar.Parse(a, ts).Ok? ==> !Grammar.Parse(a, ts).shaped
  {
    ShownOr(a, b, ts);
    ShownOr(b, a, ts);
  }

  /** A parse that knows no params name is not shaped by one and fails plainly if it fails. */
  lemma {:induction false} BareParseIsPlain(bare: Env, ts: seq<Token>)
    requires bare.paramsName == None
    ensures var p := Grammar.Parse(bare, ts); if p.Ok? then !p.shaped else p.why == Unsupported
  {
    ShownOr(bare, bare, ts);
  }

  // ----- which call of a run stored an entry -----

  datatype Event = Call(source: Source, params: Option<Value>) | Cleared

  function RunCache(schema: Schema, templates: Templates, run: seq<Event>): Templates {
    if run == [] then templates
    else
      var before := RunCache(schema, templates, run[..|run| - 1]);
      match run[|run| - 1]
      case Cleared => map[]
      case Call(source, params) => After(schema, before, source, params)
  }

  /** The cache, empty at first, that the `i`-th event of the run finds. */
  function CacheAt(schema: Schema, run: seq<Event>, i: nat): Templates
    requires i <= |run|
  {
    RunCache(schema, map[], run[..i])
  }

  /** A parse that is worth storing: a tree no param shaped, or a failure that is not the params'. */
  predicate Cacheable(schema: Schema, source: Source, params: Option<Value>) {
    match ParseSource(schema, source, params)
    case Fail(why) => why.Unsupported?
    case Ok(_, _, shaped) => !shaped
  }

  /** The event drops every entry there is: it clears the cache, or stores into a full one. */
  predicate Empties(schema: Schema, templates: Templates, e: Event) {
    match e
    case Cleared => true
    case Call(source, params) => source !in templates && Cacheable(schema, source, params) && |templates| >= MAX_CACHED_TEMPLATES
  }

  predicate NotEmptiedSince(schema: Schema, run: seq<Event>, i: nat) {
    forall j: nat | i < j < |run| :: !Empties(schema, CacheAt(schema, run, j), run[j])
  }

  /** The `i`-th event is the call of the source that stored the entry found after the run. */
  predicate StoringCall(schema: Schema, run: seq<Event>, i: nat, source: Source) {
    && i < |run| && run[i].Call? && run[i].source == source
    && source !in CacheAt(schema, run, i) && Cacheable(schema, source, run[i].params)
    && NotEmptiedSince(schema, run, i)
  }

  /** The source's entry is what a first call with these params stored. */
  predicate FilledBy(schema: Schema, templates: Templates, source: Source, first: Option<Value>) {
    && source in templates && source in After(schema, map[], source, first)
    && templates[source] == After(schema, map[], source, first)[source]
  }

  lemma {:induction false} EarlierCache(schema: Schema, run: seq<Event>, i: nat)
    requires run != [] && i <= |run| - 1
    ensures CacheAt(schema, run[..|run| - 1], i) == CacheAt(schema, run, i)
  {
    assert run[..|run| - 1][..i] == run[..i];
  }

  /** What the last event means for an entry stored before it. */
  lemma {:induction false} NotEmptiedBefore(schema: Schema, run: seq<Event>, i: nat)
    requires run != [] && i < |run| - 1
    ensures NotEmptiedSince(schema, run, i) <==>
      NotEmptiedSince(schema, run[..|run| - 1], i) && !Empties(schema, CacheAt(schema, run, |run| - 1), run[|run| - 1])
  {
    var n := |run| - 1;
    var before := run[..n];
    forall j: nat | i < j < n
      ensures Empties(schema, CacheAt(schema, before, j), before[j]) <==> Empties(schema, CacheAt(schema, run, j), run[j])
    {
      EarlierCache(schema, run, j);
      assert before[j] == run[j];
    }
    hide CacheAt, Empties;
    if NotEmptiedSince(schema, run, i) {
      forall j: nat | i < j < n
        ensures !Empties(schema, CacheAt(schema, before, j), before[j])
      {
        assert !Empties(schema, CacheAt(schema, run, j), run[j]);
      }
    }
  }

  lemma {:induction false} StoredBefore(schema: Schema, run: seq<Event>, i: nat, source: Source)
    requires run != [] && i < |run| - 1
    ensures StoringCall(schema, run, i, source) <==>
      StoringCall(schema, run[..|run| - 1], i, source) && !Empties(schema, CacheAt(schema, run, |run| - 1), run[|run| - 1])
  {
    NotEmptiedBefore(schema, run, i);
    EarlierCache(schema, run, i);
    assert run[..|run| - 1][i] == run[i];
    hide CacheAt, Empties, Cacheable, NotEmptiedSince;
  }

  /** One event: entries it does not drop stay as they were, and a call not answered stores its own. */
  lemma {:induction false} EventStores(schema: Schema, templates: Templates, e: Event, source: Source)
    ensures var after := RunCache(schema, templates, [e]);
      && (source in after <==>
          || (source in templates && !Empties(schema, templates, e))
          || (e.Call? && e.source == source && source !in templates && Cacheable(schema, source, e.params)))
      && (source in after && source in templates ==> after[source] == templates[source])
      && (source in after && source !in templates ==> FilledBy(schema, after, source, e.params))
  {
    assert [e][..0] == [] && RunCache(schema, templates, []) == templates;
    hide ParseSource;
  }

  lemma {:induction false} OneMore(schema: Schema, run: seq<Event>)
    requires run != []
    ensures RunCache(schema, map[], run) == RunCache(schema, CacheAt(schema, run, |run| - 1), [run[|run| - 1]])
  {
    var e := run[|run| - 1];
    assert [e][..0] == [] && RunCache(schema, CacheAt(schema, run, |run| - 1), []) == CacheAt(schema, run, |run| - 1);
    hide After;
  }

  /** A source has an entry after a run exactly when some call of it stored one and nothing dropped it, and the entry is that call's. */
  lemma {:induction false} EntriesAreFilled(schema: Schema, run: seq<Event>, source: Source)
    ensures source in RunCache(schema, map[], run) <==> exists i: nat :: StoringCall(schema, run, i, source)
    ensures forall i: nat :: StoringCall(schema, run, i, source) ==> FilledBy(schema, RunCache(schema, map[], run), source, run[i].params)
  {
    if run != [] {
      var n := |run| - 1;
      var before, e := run[..n], run[n];
      EntriesAreFilled(schema, before, source);
      OneMore(schema, run);
      EventStores(schema, RunCache(schema, map[], before), e, source);
      var was, after := RunCache(schema, map[], before), RunCache(schema, map[], run);
      assert was == CacheAt(schema, run, n);
      forall i: nat | StoringCall(schema, run, i, source)
        ensures FilledBy(schema, after, source, run[i].params)
      {
        StoringCallFills(schema, run, i, source);
      }
      if source in after {
        if source in was {
          var i: nat :| StoringCall(schema, before, i, source);
          StoredBefore(schema, run, i, source);
        } else {
          assert StoringCall(schema, run, n, source);
        }
      }
    }
  }

  lemma {:induction false} StoringCallFills(schema: Schema, run: seq<Event>, i: nat, source: Source)
    requires StoringCall(schema, run, i, source)
    ensures FilledBy(schema, RunCache(schema, map[], run), source, run[i].params)
    decreases |run|
  {
    var n := |run| - 1;
    OneMore(schema, run);
    EventStores(schema, CacheAt(schema, run, n), run[n], source);
    if i < n {
      StoredBefore(schema, run, i, source);
      StoringCallFills(schema, run[..n], i, source);
      assert run[..n][i] == run[i];
    }
    hide ParseSource, Cacheable, Empties, After, NotEmptiedSince;
  }

  // ----- after any run, exactly -----

  /** The tree reads a named member of the params. */
  predicate ReadsParam(e: Expr) {
    match e
    case ParamReference(path, _, _, _) => path != []
    case Comparator(_, _, _, left, right) => ReadsParam(left) || ReadsParam(right)
    case Operator(_, left, right) => ReadsParam(left) || ReadsParam(right)
    case _ => false
  }

  lemma {:induction false} BindsBareIff(js: Js, e: Expr)
    ensures Bind(js, e, Undefined).Some? <==> !ReadsParam(e)
  {
    match e
    case Comparator(_, _, _, left, right) =>
      BindsBareIff(js, left);
      BindsBareIff(js, right);
    case Operator(_, left, right) =>
      BindsBareIff(js, left);
      BindsBareIff(js, right);
    case _ =>
  }

  /** What the parser can produce at all. */
  predicate IsTree(e: Expr) { e.Empty? || e.Comparator? || e.Operator? }

  lemma {:induction false} ParsesToATree(env: Env, ts: seq<Token>)
    ensures ParseUnary(env, ts).Ok? ==> IsTree(ParseUnary(env, ts).value)
    ensures ParseAnd(env, ts).Ok? ==> IsTree(ParseAnd(env, ts).value)
    ensures ParseOr(env, ts).Ok? ==> IsTree(ParseOr(env, ts).value)
    decreases |ts|
  {
    if At(ts, "(") || At(ts, "!") {
      ParsesToATree(env, ts[1..]);
    }
    assert ParseUnary(env, ts).Ok? ==> IsTree(ParseUnary(env, ts).value);
    var unary := ParseUnary(env, ts);
    if unary.Ok? {
      LoopsToATree(env, unary.value, unary.rest, unary.shaped);
      var and := ParseAnd(env, ts);
      if and.Ok? {
        LoopsToATree(env, and.value, and.rest, and.shaped);
      }
    }
  }

  lemma {:induction false} LoopsToATree(env: Env, left: Expr, ts: seq<Token>, shaped: bool)
    requires IsTree(left)
    ensures AndLoop(env, left, ts, shaped).Ok? ==> IsTree(AndLoop(env, left, ts, shaped).value)
    ensures OrLoop(env, left, ts, shaped).Ok? ==> IsTree(OrLoop(env, left, ts, shaped).value)
    decreases |ts|
  {
    if At(ts, "&&") {
      ParsesToATree(env, ts[1..]);
      var right := ParseUnary(env, ts[1..]);
      if right.Ok? {
        LoopsToATree(env, Conjoin(left, right.value), right.rest, shaped || right.shaped);
      }
    } else if At(ts, "||") {
      ParsesToATree(env, ts[1..]);
      var right := ParseAnd(env, ts[1..]);
      if right.Ok? {
        LoopsToATree(env, Disjoin(left, right.value), right.rest, shaped || right.shaped);
      }
    }
  }

  /** The call's own parse succeeds and its tree binds: what a fresh parse answers with a tree. */
  predicate Compiles(schema: Schema, source: Source, params: Option<Value>) {
    match ParseSource(schema, source, params)
    case Fail(_) => false
    case Ok(template, _, _) => Bind(schema.js, template, if params.Some? then params.value else Undefined).Some?
  }

  lemma {:induction false} FreshIsATreeIff(schema: Schema, source: Source, params: Option<Value>)
    ensures Fresh(schema, source, params) != NotParsable <==> Compiles(schema, source, params)
  {
    if ParseSource(schema, source, params).Ok? {
      ParsesToATree(EnvOf(schema, source, params), source.body);
    }
  }

  /**
   Whether a source may be called with `params` when its entry was stored by a call with `first`.
   After a stored failure, only when this call would fail by itself; after a stored tree, always,
   unless the first call knew the params and this one does not, and then only when the source parses
   without them or the tree reads one.
   */
  predicate MayFollow(schema: Schema, source: Source, first: Option<Value>, params: Option<Value>) {
    match ParseSource(schema, source, first)
    case Fail(_) => !Compiles(schema, source, params)
    case Ok(template, _, _) =>
      first.None? || params.Some? || ParseSource(schema, source, None).Ok? || ReadsParam(template)
  }

  lemma {:induction false} TransparentIffMayFollow(schema: Schema, templates: Templates, source: Source, first: Option<Value>, params: Option<Value>)
    requires Cacheable(schema, source, first) && FilledBy(schema, templates, source, first)
    ensures Answer(schema, templates, source, params) == Fresh(schema, source, params) <==> MayFollow(schema, source, first, params)
  {
    FreshIsATreeIff(schema, source, params);
    var stored := ParseSource(schema, source, first);
    if stored.Ok? {
      var env, bare := EnvOf(schema, source, first), EnvOf(schema, source, None);
      ParsesToATree(env, source.body);
      BindsBareIff(schema.js, stored.value);
      if first.None? || params.Some? {
        UnshapedParseIsTheParse(env, EnvOf(schema, source, params), source.body);
      } else if ParseSource(schema, source, None).Ok? {
        BareParseIsPlain(bare, source.body);
        UnshapedParseIsTheParse(bare, env, source.body);
      }
    }
  }

  /**
   The main result, for every source and for calls with and without params in any order: after any
   run, a source no call has stored answers as a fresh parse, and one that some call has stored does
   so exactly when this call may follow that one.
   */
  lemma {:induction false} CachingIsTransparentIff(schema: Schema, run: seq<Event>, source: Source, params: Option<Value>)
    ensures var templates := RunCache(schema, map[], run);
      var transparent := Answer(schema, templates, source, params) == Fresh(schema, source, params);
      && ((forall i: nat :: !StoringCall(schema, run, i, source)) ==> transparent)
      && (forall i: nat :: StoringCall(schema, run, i, source) ==> (transparent <==> MayFollow(schema, source, run[i].params, params)))
  {
    var templates := RunCache(schema, map[], run);
    EntriesAreFilled(schema, run, source);
    forall i: nat | StoringCall(schema, run, i, source)
      ensures Answer(schema, templates, source, params) == Fresh(schema, source, params) <==> MayFollow(schema, source, run[i].params, params)
    {
      TransparentIffMayFollow(schema, templates, source, run[i].params, params);
    }
  }

  /**
   Called always with params or always without, a source answers as a fresh parse after any run,
   if it names no property through them or never failed plainly in naming one.
   */
  lemma {:induction false} CachingIsTransparent(schema: Schema, run: seq<Event>, source: Source, params: Option<Value>)
    requires forall i | 0 <= i < |run| && run[i].Call? && run[i].source == source ::
      && (run[i].params.Some? <==> params.Some?)
      && (NoComputedKey(EnvOf(schema, source, params).paramsName, source.body) || ParseSource(schema, source, run[i].params) != Fail(Unsupported))
    ensures Answer(schema, RunCache(schema, map[], run), source, params) == Fresh(schema, source, params)
  {
    CachingIsTransparentIff(schema, run, source, params);
    if i: nat :| StoringCall(schema, run, i, source) {
      var first := run[i].params;
      if ParseSource(schema, source, first).Fail? && source.entityName != "" {
        ParseIgnoresParamValues(EnvOf(schema, source, first), EnvOf(schema, source, params), source.body);
      }
      hide StoringCall;
    }
  }

  // ----- sources that name a property through a param -----

  /** `([x, p]) => … x[p.key] …` */
  predicate NamesThroughParam(source: Source) {
    source.second.Some? && !IsConstantWord(source.second) && !NoComputedKey(source.second, source.body)
  }

  /** The `i`-th event is a call of the source that failed for a reason other than its params, and nothing emptied the cache since. */
  predicate FailedSince(schema: Schema, run: seq<Event>, i: nat, source: Source) {
    && i < |run| && run[i].Call? && run[i].source == source && ParseSource(schema, source, run[i].params) == Fail(Unsupported)
    && NotEmptiedSince(schema, run, i)
  }

  /** Its successful parses are never stored, so what is stored is a plain failure. */
  lemma {:induction false} OnlyFailuresAreStored(schema: Schema, source: Source, params: Option<Value>)
    requires NamesThroughParam(source)
    ensures Cacheable(schema, source, params) <==> ParseSource(schema, source, params) == Fail(Unsupported)
  {
    var env := EnvOf(schema, source, params);
    if ParseSource(schema, source, params).Ok? {
      var knowing := EnvOf(schema, source, Some(Undefined));
      if params.None? && !ParseSource(schema, source, params).shaped {
        UnshapedParseIsTheParse(env, knowing, source.body);
        ShapedIffComputedKey(knowing, source.body);
      } else {
        ShapedIffComputedKey(env, source.body);
      }
    }
  }

  /** Once failed plainly, the source has an entry until the cache is emptied. */
  lemma {:induction false} FailedStays(schema: Schema, run: seq<Event>, i: nat, source: Source)
    requires FailedSince(schema, run, i, source)
    ensures source in RunCache(schema, map[], run)
    decreases |run|
  {
    var n := |run| - 1;
    OneMore(schema, run);
    EventStores(schema, CacheAt(schema, run, n), run[n], source);
    if i < n {
      NotEmptiedBefore(schema, run, i);
      assert run[..n][i] == run[i];
      FailedStays(schema, run[..n], i, source);
    }
  }

  /**
   For a source that names a property through a param: after any run a call answers as a fresh
   parse exactly when no call of it since the cache was last emptied failed plainly, as on naming an
   unknown property, or when this call's own parse or binding fails.
   */
  lemma {:induction false} ComputedKeyIsTransparentIff(schema: Schema, run: seq<Event>, source: Source, params: Option<Value>)
    requires NamesThroughParam(source)
    ensures Answer(schema, RunCache(schema, map[], run), source, params) == Fresh(schema, source, params) <==>
      (forall i: nat :: !FailedSince(schema, run, i, source)) || !Compiles(schema, source, params)
  {
    CachingIsTransparentIff(schema, run, source, params);
    EntriesAreFilled(schema, run, source);
    if i: nat :| StoringCall(schema, run, i, source) {
      OnlyFailuresAreStored(schema, source, run[i].params);
      assert FailedSince(schema, run, i, source);
    } else {
      forall i: nat
        ensures !FailedSince(schema, run, i, source)
      {
        if FailedSince(schema, run, i, source) {
          FailedStays(schema, run, i, source);
        }
      }
    }
  }

  // ----- why each hypothesis is needed -----

  lemma {:induction false} FailsOnLeft(env: Env, ts: seq<Token>)
    requires ts != [] && ts[0].kind == Identifier && ParseOperand(env, ts) == Fail(Unsupported)
    ensures Grammar.Parse(env, ts) == Fail(Unsupported)
  {
    assert ParseUnary(env, ts) == Fail(Unsupported);
    assert ParseAnd(env, ts) == Fail(Unsupported);
    assert ParseOr(env, ts) == Fail(Unsupported);
  }

  lemma {:induction false} FailsOnRight(env: Env, ts: seq<Token>, left: Operand, tail: seq<Token>)
    requires ts != [] && ts[0].kind == Identifier && ParseOperand(env, ts) == Ok(left, tail, false)
    requires AtRelation(tail) && ParseOperand(env, tail[1..]) == Fail(Unsupported)
    ensures ParseAnd(env, ts) == Fail(Unsupported) && Grammar.Parse(env, ts) == Fail(Unsupported)
  {
    assert ParseComparison(env, ts) == Fail(Unsupported);
    assert ParseUnary(env, ts) == Fail(Unsupported);
    assert ParseAnd(env, ts) == Fail(Unsupported);
    assert ParseOr(env, ts) == Fail(Unsupported);
  }

  lemma {:induction false} NamesOfOne(env: Env, s: Segment, name: string)
    requires SegmentName(env, s) == Some(name)
    ensures Names(env, [s]) == Some([name])
  {
    assert [s][1..] == [];
    assert [name] + [] == [name];
  }

  lemma {:induction false} PrintOneSegment(env: Env, s: Segment, k: seq<Token>)
    ensures PrintTerm(env, EntityTerm(Chain([s], [])), k) == [Word(env.entityName)] + PrintSegment(env, s, k)
  {
    assert [s][1..] == [];
    assert PrintTransforms([], k) == k;
    assert PrintSegments(env, [s], k) == PrintSegment(env, s, PrintSegments(env, [], k));
  }

  /** `([x, p]) => x.a === p.b`. */
  function ComparedToParam(): Filter {
    Compare(DeclaredProperty("a"), "===", Plain(ParamTerm(Chain([Dot("b")], []))))
  }

  /** With params the comparison parses and binds. */
  lemma {:induction false} ComparedToParamCompiles(env: Env, v: Value)
    requires env.entityName == "x" && env.paramsName == Some("p") && env.params == Obj(map["b" := v])
    requires ["a"] in env.schema
    ensures var p := Grammar.Parse(env, Print(env, ComparedToParam()));
      p.Ok? && p.value.Comparator? && Bind(env.js, p.value, env.params).Some?
  {
    ParsePrinted(env, ComparedToParam());
    OneSegment(env, "a");
    NamesOfOne(env, Dot("b"), "b");
    assert ["b"][1..] == [];
    assert ResolveParam(["b"], env.params) == Some(v);
    assert Translate(env, ComparedToParam()).Some?;
  }

  /** Without params the name `p` is an unknown variable. */
  lemma {:induction false} ComparedToParamFailsBare(env: Env, bare: Env)
    requires env.entityName == "x" && env.paramsName == Some("p") && bare == env.(paramsName := None, params := bare.params)
    requires ["a"] in env.schema
    ensures ParseAnd(bare, Print(env, ComparedToParam())) == Fail(Unsupported)
    ensures Grammar.Parse(bare, Print(env, ComparedToParam())) == Fail(Unsupported)
  {
    var f := ComparedToParam();
    var right := PrintTerm(env, f.right.term, []);
    var tail := [Punct("===")] + right;
    var ts := Print(env, f);
    assert ts == PrintSide(env, f.left, tail);
    PrintOneSegment(env, Dot("a"), tail);
    PrintOneSegment(bare, Dot("a"), tail);
    assert ts == PrintSide(bare, f.left, tail);
    SideReadsBack(bare, f.left, tail);
    OneSegment(bare, "a");
    assert tail[1..] == right;
    FailsOnRight(bare, ts, PropertyOperand(env.schema[["a"]], None), tail);
  }

  /**
   The key does not say whether the call carried params. A first call without them caches the
   failure, and the same source called with params is then refused though it parses and binds.
   */
  lemma {:induction false} ParamPresenceIsNotInTheKey(schema: Schema, v: Value)
    requires ["a"] in schema.properties
    ensures var params := Some(Obj(map["b" := v]));
      var env := Env(schema.js, schema.properties, "x", Some("p"), params.value);
      var source := Source("x", Some("p"), Print(env, ComparedToParam()));
      var templates := After(schema, map[], source, None);
      && Answer(schema, templates, source, params) == NotParsable
      && Fresh(schema, source, params) != NotParsable
  {
    var params := Some(Obj(map["b" := v]));
    var env := Env(schema.js, schema.properties, "x", Some("p"), params.value);
    var source := Source("x", Some("p"), Print(env, ComparedToParam()));
    assert env == EnvOf(schema, source, params);
    ComparedToParamCompiles(env, v);
    ComparedToParamFailsBare(env, EnvOf(schema, source, None));
  }

  /** `([x, p]) => true || x.a === p.b`. */
  function AbsorbedParam(): Filter { Or(Test(Plain(Constant(BoolLit(true)))), ComparedToParam()) }

  /** With params the comparison parses, and `true` absorbs it. */
  lemma {:induction false} AbsorbedParamIsEmpty(env: Env)
    requires env.entityName == "x" && env.paramsName == Some("p") && ["a"] in env.schema
    ensures Grammar.Parse(env, Print(env, AbsorbedParam())) == Ok(Empty, [], false)
  {
    ParsePrinted(env, AbsorbedParam());
    OneSegment(env, "a");
    NamesOfOne(env, Dot("b"), "b");
    assert Translate(env, ComparedToParam()).Some?;
    assert Translate(env, Test(Plain(Constant(BoolLit(true))))) == Some(Empty);
  }

  lemma {:induction false} AbsorbedParamFailsBare(env: Env, bare: Env)
    requires env.entityName == "x" && env.paramsName == Some("p") && bare == env.(paramsName := None, params := bare.params)
    requires ["a"] in env.schema
    ensures Grammar.Parse(bare, Print(env, AbsorbedParam())) == Fail(Unsupported)
  {
    var right := Print(env, ComparedToParam());
    var ts := Print(env, AbsorbedParam());
    ComparedToParamFailsBare(env, bare);
    assert ts == [Word("true")] + ([Punct("||")] + right);
    assert ts[1..] == [Punct("||")] + right && ts[1..][1..] == right;
    hide Print;
    var yes := ValueOperand(Bool(true), None);
    assert ts[0] == Word("true") && ParseIdentifier(bare, "true", ts[1..]) == Ok(yes, ts[1..], false);
    assert ParseOperand(bare, ts) == Ok(yes, ts[1..], false);
    assert BuildStandalone(bare.js, yes) == Done(Empty);
    assert ParseComparison(bare, ts) == Ok(Empty, ts[1..], false);
    assert ParseUnary(bare, ts) == Ok(Empty, ts[1..], false);
    assert ParseAnd(bare, ts) == Ok(Empty, ts[1..], false);
    assert OrLoop(bare, Empty, ts[1..], false) == Fail(Unsupported);
  }

  /** The other way round: a call with params caches the tree, and a call without them is then answered. */
  lemma {:induction false} AbsorbedParamAnswersWithoutParams(schema: Schema, params: Value)
    requires ["a"] in schema.properties
    ensures var env := Env(schema.js, schema.properties, "x", Some("p"), params);
      var source := Source("x", Some("p"), Print(env, AbsorbedParam()));
      var templates := After(schema, map[], source, Some(params));
      Answer(schema, templates, source, None) == Empty && Fresh(schema, source, None) == NotParsable
  {
    var env := Env(schema.js, schema.properties, "x", Some("p"), params);
    var source := Source("x", Some("p"), Print(env, AbsorbedParam()));
    assert env == EnvOf(schema, source, Some(params));
    AbsorbedParamIsEmpty(env);
    AbsorbedParamFailsBare(env, EnvOf(schema, source, None));
  }

  /** `([x, p]) => x[p.key] === true`. */
  function ThroughParam(): Filter {
    Compare(Plain(EntityTerm(Chain([Computed(["key"])], []))), "===", Plain(Constant(BoolLit(true))))
  }

  lemma {:induction false} ThroughParamCompiles(env: Env, name: string)
    requires env.entityName == "x" && env.paramsName == Some("p") && env.params == Obj(map["key" := Text(name)])
    requires [name] in env.schema
    ensures var p := Grammar.Parse(env, Print(env, ThroughParam()));
      p.Ok? && p.value.Comparator? && Bind(env.js, p.value, env.params).Some?
  {
    assert ["key"][1..] == [];
    assert ResolveParam(["key"], env.params) == Some(Text(name));
    ParsePrinted(env, ThroughParam());
    NamesOfOne(env, Computed(["key"]), name);
    assert Translate(env, ThroughParam()).Some?;
  }

  /** An unknown name read through a param is reported as a plain error, not a param-dependent one. */
  lemma {:induction false} ThroughParamFailsPlainly(env: Env, name: string)
    requires env.entityName == "x" && env.paramsName == Some("p") && env.params == Obj(map["key" := Text(name)])
    requires [name] !in env.schema
    ensures Grammar.Parse(env, Print(env, ThroughParam())) == Fail(Unsupported)
  {
    var tail := [Punct("===")] + PrintTerm(env, Constant(BoolLit(true)), []);
    var ts := Print(env, ThroughParam());
    PrintOneSegment(env, Computed(["key"]), tail);
    var chain := PrintSegment(env, Computed(["key"]), tail);
    assert ts[1..] == chain;
    assert ["key"][1..] == [];
    assert ResolveParam(["key"], env.params) == Some(Text(name));
    SegmentReadsBack(env, OfEntity, [], Computed(["key"]), tail, false);
    assert [] + [name] == [name];
    assert ParseChain(env, OfEntity, [], None, chain, false) == ParseChain(env, OfEntity, [name], None, tail, true);
    assert ParseOperand(env, ts) == Fail(Unsupported);
    FailsOnLeft(env, ts);
  }

  /**
   A property named through a param: an unknown name is cached as a failure, and the same
   source is refused from then on for names that do exist.
   */
  lemma {:induction false} UnknownNameThroughParamPoisonsTheCache(schema: Schema, known: string, unknown: string)
    requires [known] in schema.properties && [unknown] !in schema.properties
    ensures var bad := Some(Obj(map["key" := Text(unknown)]));
      var good := Some(Obj(map["key" := Text(known)]));
      var env := Env(schema.js, schema.properties, "x", Some("p"), good.value);
      var source := Source("x", Some("p"), Print(env, ThroughParam()));
      var templates := After(schema, map[], source, bad);
      && Answer(schema, templates, source, good) == NotParsable
      && Fresh(schema, source, good) != NotParsable
  {
    var bad := Some(Obj(map["key" := Text(unknown)]));
    var good := Some(Obj(map["key" := Text(known)]));
    var env := Env(schema.js, schema.properties, "x", Some("p"), good.value);
    var source := Source("x", Some("p"), Print(env, ThroughParam()));
    assert env == EnvOf(schema, source, good);
    ThroughParamCompiles(env, known);
    var envBad := EnvOf(schema, source, bad);
    PrintThroughParam(env, envBad);
    ThroughParamFailsPlainly(envBad, unknown);
  }

  lemma {:induction false} PrintThroughParam(a: Env, b: Env)
    requires a.paramsName == b.paramsName && a.entityName == b.entityName
    ensures Print(a, ThroughParam()) == Print(b, ThroughParam())
  {
    var tail := [Punct("===")] + PrintTerm(a, Constant(BoolLit(true)), []);
    PrintOneSegment(a, Computed(["key"]), tail);
    PrintOneSegment(b, Computed(["key"]), tail);
  }
}
