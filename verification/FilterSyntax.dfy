/**
 Filters as a caller writes them: their abstract syntax, their tokens, what they mean in
 JavaScript, and the tree the parser should build for them.
 */
module FilterSyntax {
  import opened Options
  import opened Expressions
  import opened Grammar

  /** `x.a`, `x?.a`, `x["a"]`, `x[params.a]`. */
  datatype Segment = Dot(name: string) | OptionalDot(name: string) | Bracket(name: string) | Computed(path: Path)

  datatype Chain = Chain(segments: seq<Segment>, transforms: seq<string>)

  datatype Lit =
    | StringLit(s: string, casing: Option<string>)        // "A".toLowerCase()
    | NumberLit(negative: bool, digits: string)
    | BoolLit(b: bool)
    | NullLit
    | UndefinedLit
    | VoidLit(operand: Token)                             // void 0

  datatype Term =
    | Constant(lit: Lit)
    | ListLit(items: seq<Lit>)
    | EntityTerm(chain: Chain)
    | ParamTerm(chain: Chain)

  datatype Side = Plain(term: Term) | Call(target: Term, name: string, argument: Term)

  datatype Filter =
    | Or(l: Filter, r: Filter)
    | And(l: Filter, r: Filter)
    | Not(f: Filter)
    | Group(f: Filter)
    | Test(side: Side)
    | Compare(left: Side, symbol: string, right: Side)

  // ----- well-formed source -----

  predicate Keyword(name: string) {
    name == "true" || name == "false" || name == "null" || name == "undefined" || name == "void"
  }

  predicate EnvOk(env: Env) {
    && !Keyword(env.entityName)
    && (env.paramsName.Some? ==> !Keyword(env.paramsName.value) && env.paramsName.value != env.entityName)
  }

  predicate ChainOk(chain: Chain) {
    forall i | 0 <= i < |chain.transforms| :: TransformOf(chain.transforms[i]).Some?
  }

  predicate LitOk(lit: Lit) {
    lit.StringLit? && lit.casing.Some? ==> TransformOf(lit.casing.value).Some?
  }

  predicate TermOk(env: Env, t: Term) {
    match t
    case Constant(lit) => LitOk(lit)
    case ListLit(items) => forall i | 0 <= i < |items| :: LitOk(items[i])
    case EntityTerm(chain) =>
      ChainOk(chain) && (env.paramsName.None? ==> forall i | 0 <= i < |chain.segments| :: !chain.segments[i].Computed?)
    case ParamTerm(chain) =>
      ChainOk(chain) && env.paramsName.Some? && forall i | 0 <= i < |chain.segments| :: !chain.segments[i].Computed?
  }

  predicate SideOk(env: Env, s: Side) {
    match s
    case Plain(t) => TermOk(env, t)
    case Call(target, name, argument) =>
      !target.Constant? && MethodOf(name).Some? && TermOk(env, target) && TermOk(env, argument)
  }

  predicate FilterOk(env: Env, f: Filter) {
    match f
    case Or(l, r) => FilterOk(env, l) && FilterOk(env, r)
    case And(l, r) => FilterOk(env, l) && FilterOk(env, r)
    case Not(g) => FilterOk(env, g)
    case Group(g) => FilterOk(env, g)
    case Test(s) => SideOk(env, s)
    case Compare(l, symbol, r) => SideOk(env, l) && RelationOf(symbol).Some? && SideOk(env, r)
  }

  // ----- tokens: each printer puts its tokens in front of `k` -----

  function PrintParamPath(path: Path, k: seq<Token>): seq<Token> {
    if path == [] then k else [Punct("."), Word(path[0])] + PrintParamPath(path[1..], k)
  }

  function PrintSegment(env: Env, s: Segment, k: seq<Token>): seq<Token> {
    match s
    case Dot(name) => [Punct("."), Word(name)] + k
    case OptionalDot(name) => [Punct("?."), Word(name)] + k
    case Bracket(name) => [Punct("["), Token(StringToken, name), Punct("]")] + k
    case Computed(path) =>
      [Punct("["), Word(if env.paramsName.Some? then env.paramsName.value else "")] + PrintParamPath(path, [Punct("]")] + k)
  }

  function PrintSegments(env: Env, ss: seq<Segment>, k: seq<Token>): seq<Token> {
    if ss == [] then k else PrintSegment(env, ss[0], PrintSegments(env, ss[1..], k))
  }

  function PrintTransforms(names: seq<string>, k: seq<Token>): seq<Token> {
    if names == [] then k
    else [Punct("."), Word(names[0]), Punct("("), Punct(")")] + PrintTransforms(names[1..], k)
  }

  function PrintChain(env: Env, c: Chain, k: seq<Token>): seq<Token> {
    PrintSegments(env, c.segments, PrintTransforms(c.transforms, k))
  }

  function PrintLit(lit: Lit, k: seq<Token>): seq<Token> {
    match lit
    case StringLit(s, casing) =>
      [Token(StringToken, s)] + (if casing.None? then k else [Punct("."), Word(casing.value), Punct("("), Punct(")")] + k)
    case NumberLit(negative, digits) =>
      if negative then [Punct("-"), Token(NumberToken, digits)] + k else [Token(NumberToken, digits)] + k
    case BoolLit(b) => [Word(if b then "true" else "false")] + k
    case NullLit => [Word("null")] + k
    case UndefinedLit => [Word("undefined")] + k
    case VoidLit(operand) => [Word("void"), operand] + k
  }

  function PrintItems(items: seq<Lit>, k: seq<Token>): seq<Token> {
    if items == [] then [Punct("]")] + k
    else PrintLit(items[0], if |items| == 1 then [Punct("]")] + k else [Punct(",")] + PrintItems(items[1..], k))
  }

  function PrintTerm(env: Env, t: Term, k: seq<Token>): seq<Token> {
    match t
    case Constant(lit) => PrintLit(lit, k)
    case ListLit(items) => [Punct("[")] + PrintItems(items, k)
    case EntityTerm(chain) => [Word(env.entityName)] + PrintChain(env, chain, k)
    case ParamTerm(chain) =>
      [Word(if env.paramsName.Some? then env.paramsName.value else "")] + PrintChain(env, chain, k)
  }

  function PrintCall(env: Env, name: string, argument: Term, k: seq<Token>): seq<Token> {
    [Punct("."), Word(name), Punct("(")] + PrintTerm(env, argument, [Punct(")")] + k)
  }

  function PrintSide(env: Env, s: Side, k: seq<Token>): seq<Token> {
    match s
    case Plain(t) => PrintTerm(env, t, k)
    case Call(target, name, argument) => PrintTerm(env, target, PrintCall(env, name, argument, k))
  }

  function PrintOr(env: Env, f: Filter, k: seq<Token>): seq<Token>
    decreases f, 3
  {
    match f
    case Or(l, r) => PrintOr(env, l, [Punct("||")] + PrintAnd(env, r, k))
    case _ => PrintAnd(env, f, k)
  }

  function PrintAnd(env: Env, f: Filter, k: seq<Token>): seq<Token>
    decreases f, 2
  {
    match f
    case And(l, r) => PrintAnd(env, l, [Punct("&&")] + PrintUnary(env, r, k))
    case _ => PrintUnary(env, f, k)
  }

  function PrintUnary(env: Env, f: Filter, k: seq<Token>): seq<Token>
    decreases f, 1
  {
    match f
    case Not(g) => [Punct("!")] + PrintUnary(env, g, k)
    case Group(g) => [Punct("(")] + PrintOr(env, g, [Punct(")")] + k)
    case Test(s) => PrintSide(env, s, k)
    case Compare(l, symbol, r) => PrintSide(env, l, [Punct(symbol)] + PrintSide(env, r, k))
    case Or(l, r) => [Punct("(")] + PrintOr(env, l, [Punct("||")] + PrintAnd(env, r, [Punct(")")] + k))
    case And(l, r) => [Punct("(")] + PrintAnd(env, l, [Punct("&&")] + PrintUnary(env, r, [Punct(")")] + k))
  }

  /** The tokens of a whole filter body. */
  function Print(env: Env, f: Filter): seq<Token> { PrintOr(env, f, []) }

  // ----- what the source means in JavaScript -----

  /** The property names a chain walks; `None` when a computed key does not resolve to a name. */
  function Names(env: Env, ss: seq<Segment>): Option<Path> {
    if ss == [] then Some([])
    else
      var rest := Names(env, ss[1..]);
      var name := SegmentName(env, ss[0]);
      if rest.None? || name.None? then None else Some([name.value] + rest.value)
  }

  function SegmentName(env: Env, s: Segment): Option<string> {
    match s
    case Dot(name) => Some(name)
    case OptionalDot(name) => Some(name)
    case Bracket(name) => Some(name)
    case Computed(path) =>
      var v := ResolveParam(path, env.params);
      if v.Some? && v.value.Text? then Some(v.value.s) else None
  }

  /** Case methods applied one after the other, as JavaScript does. `None` is a TypeError. */
  function ApplyAll(js: Js, v: Option<Value>, names: seq<string>): Option<Value>
    decreases |names|
  {
    if names == [] || v.None? then v
    else ApplyAll(js, ApplyTransformer(js, v.value, TransformOf(names[0])), names[1..])
  }

  function RawLit(js: Js, lit: Lit): Value {
    match lit
    case StringLit(s, _) => Text(s)
    case NumberLit(negative, digits) => Num(if negative then -js.number(digits) else js.number(digits))
    case BoolLit(b) => Bool(b)
    case NullLit => Null
    case UndefinedLit => Undefined
    case VoidLit(_) => Undefined
  }

  function LitValue(js: Js, lit: Lit): Option<Value> {
    if lit.StringLit? && lit.casing.Some? then ApplyTransformer(js, RawLit(js, lit), TransformOf(lit.casing.value))
    else Some(RawLit(js, lit))
  }

  function ListValues(js: Js, items: seq<Lit>): (r: Option<seq<Value>>)
    ensures r.Some? ==> |r.value| == |items|
  {
    if items == [] then Some([])
    else
      var rest := ListValues(js, items[1..]);
      if rest.None? || (items[0].StringLit? && items[0].casing.Some?) then None
      else Some([RawLit(js, items[0])] + rest.value)
  }

  /** A declared property, or the `length` of a declared string or array. */
  function ReadEntity(env: Env, path: Path, row: Row): Option<Value> {
    if path in env.schema then Some(Lookup(row, env.schema[path].path))
    else if |path| > 1 && path[|path| - 1] == "length" && path[..|path| - 1] in env.schema then
      ApplyTransformer(env.js, Lookup(row, env.schema[path[..|path| - 1]].path), Some(Length))
    else None
  }

  /** The JavaScript value of a term on a row; `None` where reading it throws or leaves the model. */
  function TermValue(env: Env, t: Term, row: Row): Option<Value> {
    match t
    case Constant(lit) => LitValue(env.js, lit)
    case ListLit(items) =>
      var vs := ListValues(env.js, items);
      if vs.None? then None else Some(List(vs.value))
    case EntityTerm(chain) =>
      var path := Names(env, chain.segments);
      if path.None? then None else ApplyAll(env.js, ReadEntity(env, path.value, row), chain.transforms)
    case ParamTerm(chain) =>
      var path := Names(env, chain.segments);
      if path.None? then None else ApplyAll(env.js, ResolveParam(path.value, env.params), chain.transforms)
  }

  predicate Truthy(v: Value) {
    match v
    case Undefined => false
    case Null => false
    case Bool(b) => b
    case Num(n) => n != 0.0
    case Text(s) => s != ""
    case List(_) => true
    case Obj(_) => true
  }

  /** `includes` on an array is strict membership; the string methods need two strings. */
  function CallValue(name: string, target: Value, argument: Value): Option<bool> {
    if target.List? then
      if name == "includes" then Some(exists i | 0 <= i < |target.items| :: StrictEquals(target.items[i], argument)) else None
    else if target.Text? && argument.Text? then
      if name == "includes" then Some(Contains(target.s, argument.s))
      else if name == "startsWith" then Some(argument.s <= target.s)
      else if name == "endsWith" then Some(EndsIn(target.s, argument.s))
      else None
    else None
  }

  function SideValue(env: Env, s: Side, row: Row): Option<Value> {
    match s
    case Plain(t) => TermValue(env, t, row)
    case Call(target, name, argument) =>
      var t := TermValue(env, target, row);
      var a := TermValue(env, argument, row);
      if t.None? || a.None? then None
      else
        var called := CallValue(name, t.value, a.value);
        if called.None? then None else Some(Bool(called.value))
  }

  /** `a symbol b` in JavaScript; ordering is judged on two numbers or two strings only. */
  function RelationValue(js: Js, symbol: string, a: Value, b: Value): Option<bool> {
    if symbol == "==" then Some(LooseEquals(js, a, b))
    else if symbol == "!=" then Some(!LooseEquals(js, a, b))
    else if symbol == "===" then Some(StrictEquals(a, b))
    else if symbol == "!==" then Some(!StrictEquals(a, b))
    else if !Comparable(a, b) then None
    else if symbol == "<" then Some(Less(js, a, b))
    else if symbol == ">" then Some(Less(js, b, a))
    else if symbol == "<=" then Some(!Less(js, b, a))
    else if symbol == ">=" then Some(!Less(js, a, b))
    else None
  }

  /** What a single condition answers on a row. */
  function AtomValue(env: Env, f: Filter, row: Row): Option<bool>
    requires f.Test? || f.Compare?
  {
    match f
    case Test(s) =>
      var v := SideValue(env, s, row);
      if v.None? then None else Some(Truthy(v.value))
    case Compare(l, symbol, r) =>
      var a := SideValue(env, l, row);
      var b := SideValue(env, r, row);
      if a.None? || b.None? then None else RelationValue(env.js, symbol, a.value, b.value)
  }

  /** The filter's answer on a row, with `oracle` deciding the conditions the model cannot. */
  function Holds(env: Env, f: Filter, row: Row, oracle: Filter -> bool): bool {
    match f
    case Or(l, r) => Holds(env, l, row, oracle) || Holds(env, r, row, oracle)
    case And(l, r) => Holds(env, l, row, oracle) && Holds(env, r, row, oracle)
    case Not(g) => !Holds(env, g, row, oracle)
    case Group(g) => Holds(env, g, row, oracle)
    case _ =>
      var v := AtomValue(env, f, row);
      if v.None? then oracle(f) else v.value
  }

  /** Every condition of the filter can be decided on this row. */
  predicate Decided(env: Env, f: Filter, row: Row) {
    match f
    case Or(l, r) => Decided(env, l, row) && Decided(env, r, row)
    case And(l, r) => Decided(env, l, row) && Decided(env, r, row)
    case Not(g) => Decided(env, g, row)
    case Group(g) => Decided(env, g, row)
    case _ => AtomValue(env, f, row).Some?
  }

  // ----- the tree the parser should build -----

  function LastTransform(names: seq<string>): Option<Transformer> {
    if names == [] then None else TransformOf(names[|names| - 1])
  }

  function TermOperand(env: Env, t: Term): Option<Operand> {
    match t
    case Constant(lit) =>
      Some(ValueOperand(RawLit(env.js, lit),
                        if lit.StringLit? && lit.casing.Some? then TransformOf(lit.casing.value) else None))
    case ListLit(items) =>
      var vs := ListValues(env.js, items);
      if vs.None? then None else Some(ValueOperand(List(vs.value), None))
    case EntityTerm(chain) =>
      var path := Names(env, chain.segments);
      if path.None? then None else ResolveProperty(env.schema, path.value, LastTransform(chain.transforms))
    case ParamTerm(chain) =>
      var path := Names(env, chain.segments);
      if path.None? || path.value == [] then None else Some(ParamOperand(path.value, LastTransform(chain.transforms)))
  }

  function SideOperand(env: Env, s: Side): Option<Operand> {
    match s
    case Plain(t) => TermOperand(env, t)
    case Call(target, name, argument) =>
      var t := TermOperand(env, target);
      var a := TermOperand(env, argument);
      if t.None? || a.None? || MethodOf(name).None? || (target.ListLit? && name != "includes") then None
      else Some(MethodCall(t.value, MethodOf(name).value, a.value))
  }

  function Built(o: Outcome<Expr>): Option<Expr> {
    match o
    case Done(e) => Some(e)
    case Refused(_) => None
  }

  function Translate(env: Env, f: Filter): Option<Expr> {
    match f
    case Or(l, r) =>
      var a := Translate(env, l);
      var b := Translate(env, r);
      if a.None? || b.None? then None else Some(Disjoin(a.value, b.value))
    case And(l, r) =>
      var a := Translate(env, l);
      var b := Translate(env, r);
      if a.None? || b.None? then None else Some(Conjoin(a.value, b.value))
    case Not(g) =>
      var a := Translate(env, g);
      if a.None? then None else Negate(a.value)
    case Group(g) => Translate(env, g)
    case Test(s) =>
      var o := SideOperand(env, s);
      if o.None? then None else Built(BuildStandalone(env.js, o.value))
    case Compare(l, symbol, r) =>
      var a := SideOperand(env, l);
      var b := SideOperand(env, r);
      if a.None? || b.None? || RelationOf(symbol).None? then None
      else Built(BuildComparison(env.js, a.value, RelationOf(symbol).value, b.value))
  }

  // ----- whether params shape the tree -----

  predicate AnyComputed(ss: seq<Segment>) { exists i | 0 <= i < |ss| :: ss[i].Computed? }

  predicate TermShaped(t: Term) { t.EntityTerm? && AnyComputed(t.chain.segments) }

  predicate SideShaped(s: Side) {
    match s
    case Plain(t) => TermShaped(t)
    case Call(target, _, argument) => TermShaped(target) || TermShaped(argument)
  }

  predicate Shaped(f: Filter) {
    match f
    case Or(l, r) => Shaped(l) || Shaped(r)
    case And(l, r) => Shaped(l) || Shaped(r)
    case Not(g) => Shaped(g)
    case Group(g) => Shaped(g)
    case Test(s) => SideShaped(s)
    case Compare(l, _, r) => SideShaped(l) || SideShaped(r)
  }
}
