/**
 The filter grammar of core/src/expressions/parser.ts as functions over the tokens still to
 be read. `FilterParser.ExpressionParser` is the cursor-and-loop form, proved equal to these.
 */
module Grammar {
  import opened Options
  import opened Expressions

  datatype TokenKind = Identifier | StringToken | NumberToken | Punctuation
  datatype Token = Token(kind: TokenKind, value: string)

  function Punct(value: string): Token { Token(Punctuation, value) }

  function Word(value: string): Token { Token(Identifier, value) }

  /** What the parser is built with. `paramsName` is set only when the call carries params. */
  datatype Env = Env(
    js: Js,
    schema: map<Path, PropertyInfo>,
    entityName: string,
    paramsName: Option<string>,
    params: Value)

  /** Whether a failure came from the params VALUES (never cached) or from the source. */
  datatype Failure = Unsupported | ParamDependent

  /** `shaped` is set once a param value has decided the shape of the tree. */
  datatype Parsed<+T> =
    | Ok(value: T, rest: seq<Token>, shaped: bool)
    | Fail(why: Failure)

  datatype Outcome<+T> = Done(value: T) | Refused(why: Failure)

  datatype ChainKind = OfEntity | OfParams

  datatype Operand =
    | PropertyOperand(property: PropertyInfo, transformer: Option<Transformer>)
    | ValueOperand(value: Value, transformer: Option<Transformer>)
    | ParamOperand(path: Path, transformer: Option<Transformer>)
    | MethodCall(target: Operand, comparison: Comparison, argument: Operand)

  datatype Relation = Relation(comparison: Comparison, negated: bool, strict: bool)

  // ----- tables -----

  function RelationOf(symbol: string): Option<Relation> {
    if symbol == "==" then Some(Relation(Equals, false, false))
    else if symbol == "===" then Some(Relation(Equals, false, true))
    else if symbol == "!=" then Some(Relation(Equals, true, false))
    else if symbol == "!==" then Some(Relation(Equals, true, true))
    else if symbol == ">" then Some(Relation(GreaterThan, false, false))
    else if symbol == ">=" then Some(Relation(GreaterThanEquals, false, false))
    else if symbol == "<" then Some(Relation(LessThan, false, false))
    else if symbol == "<=" then Some(Relation(LessThanEquals, false, false))
    else None
  }

  function Swapped(c: Comparison): Comparison {
    match c
    case GreaterThan => LessThan
    case GreaterThanEquals => LessThanEquals
    case LessThan => GreaterThan
    case LessThanEquals => GreaterThanEquals
    case _ => c
  }

  function TransformOf(name: string): Option<Transformer> {
    if name == "toLowerCase" then Some(ToLower(None))
    else if name == "toUpperCase" then Some(ToUpper(None))
    else if name == "toLocaleLowerCase" then Some(ToLower(Some("en-US")))
    else if name == "toLocaleUpperCase" then Some(ToUpper(Some("en-US")))
    else None
  }

  function MethodOf(name: string): Option<Comparison> {
    if name == "startsWith" then Some(StartsWith)
    else if name == "endsWith" then Some(EndsWith)
    else if name == "includes" then Some(Includes)
    else None
  }

  // ----- cursor -----

  predicate At(ts: seq<Token>, symbol: string) {
    ts != [] && ts[0] == Punct(symbol)
  }

  predicate AtDot(ts: seq<Token>) { At(ts, ".") || At(ts, "?.") }

  predicate AtRelation(ts: seq<Token>) {
    ts != [] && ts[0].kind == Punctuation && RelationOf(ts[0].value).Some?
  }

  // ----- parameters -----

  function Field(v: Value, name: string): Option<Value> {
    if v.Obj? && name in v.fields then Some(v.fields[name])
    else if v.List? && name == "length" then Some(Num(|v.items| as real))
    else None
  }

  /** `resolveParamPath`: `None` is its ParamDependentParseError. */
  function ResolveParam(path: Path, data: Value): Option<Value> {
    if path == [] then Some(data)
    else
      var next := Field(data, path[0]);
      if next.None? then None else ResolveParam(path[1..], next.value)
  }

  predicate HasKind(v: Value, kind: Kind) {
    match kind
    case StringKind => v.Text?
    case NumberKind => v.Num?
    case BooleanKind => v.Bool?
    case ArrayKind => true
    case OtherKind => true
  }

  /** `resolvePairedValue`: the paired property's type converter, where it applies. */
  function Convert(js: Js, v: Value, paired: Option<Kind>, applyConverter: bool): Value {
    if paired.None? || !applyConverter || Nullish(v) || HasKind(v, paired.value) then v
    else js.coerce(paired.value, v)
  }

  // ----- operands -----

  function ParseOperand(env: Env, ts: seq<Token>): (r: Parsed<Operand>)
    ensures r.Ok? ==> |r.rest| < |ts|
    decreases |ts|, 1
  {
    if ts == [] then Fail(Unsupported)
    else if ts[0].kind == StringToken then
      WithValueTransformer(ts[0].value, ts[1..])
    else if ts[0].kind == NumberToken then
      Ok(ValueOperand(Num(env.js.number(ts[0].value)), None), ts[1..], false)
    else if ts[0] == Punct("-") then
      if |ts| < 2 || ts[1].kind != NumberToken then Fail(Unsupported)
      else Ok(ValueOperand(Num(-env.js.number(ts[1].value)), None), ts[2..], false)
    else if ts[0] == Punct("[") then
      ParseArrayLiteral(env, ts[1..])
    else if ts[0].kind == Identifier then
      ParseIdentifier(env, ts[0].value, ts[1..])
    else Fail(Unsupported)
  }

  function WithValueTransformer(s: string, ts: seq<Token>): (r: Parsed<Operand>)
    ensures r.Ok? ==> |r.rest| <= |ts|
  {
    if At(ts, ".") && |ts| > 1 && ts[1].kind == Identifier && TransformOf(ts[1].value).Some? then
      if At(ts[2..], "(") && At(ts[3..], ")") then
        Ok(ValueOperand(Text(s), TransformOf(ts[1].value)), ts[4..], false)
      else Fail(Unsupported)
    else Ok(ValueOperand(Text(s), None), ts, false)
  }

  /** The elements of an array literal, up to but not past what ends them. */
  function ArrayItems(env: Env, items: seq<Value>, ts: seq<Token>, shaped: bool): (r: Parsed<seq<Value>>)
    ensures r.Ok? ==> |r.rest| <= |ts|
    decreases |ts|, 3
  {
    if At(ts, "]") then Ok(items, ts, shaped)
    else
      match ParseOperand(env, ts)
      case Fail(why) => Fail(why)
      case Ok(element, rest, s) =>
        if !element.ValueOperand? || element.transformer.Some? then Fail(Unsupported)
        else if At(rest, ",") then ArrayItems(env, items + [element.value], rest[1..], shaped || s)
        else Ok(items + [element.value], rest, shaped || s)
  }

  function ParseArrayLiteral(env: Env, ts: seq<Token>): (r: Parsed<Operand>)
    ensures r.Ok? ==> |r.rest| <= |ts|
    decreases |ts|, 5
  {
    match ArrayItems(env, [], ts, false)
    case Fail(why) => Fail(why)
    case Ok(items, rest, shaped) => AfterItems(env, ValueOperand(List(items), None), rest, shaped)
  }

  /** The closing bracket, and the membership test an array literal may be followed by. */
  function AfterItems(env: Env, literal: Operand, ts: seq<Token>, shaped: bool): (r: Parsed<Operand>)
    ensures r.Ok? ==> |r.rest| <= |ts|
    decreases |ts|, 4
  {
    if !At(ts, "]") then Fail(Unsupported)
    else if !AtDot(ts[1..]) then Ok(literal, ts[1..], shaped)
    else
      var call := ts[2..];
      if call == [] || call[0] != Word("includes") || !At(call[1..], "(") then Fail(Unsupported)
      else FinishMethodCall(env, literal, Includes, call[2..], shaped)
  }

  /** The argument and closing parenthesis of a comparator method. */
  function FinishMethodCall(env: Env, target: Operand, comparison: Comparison, ts: seq<Token>, shaped: bool)
    : (r: Parsed<Operand>)
    ensures r.Ok? ==> |r.rest| < |ts|
    decreases |ts|, 3
  {
    match ParseArgument(env, ts)
    case Fail(why) => Fail(why)
    case Ok(argument, rest, s) => Ok(MethodCall(target, comparison, argument), rest, shaped || s)
  }

  function ParseArgument(env: Env, ts: seq<Token>): (r: Parsed<Operand>)
    ensures r.Ok? ==> |r.rest| < |ts|
    decreases |ts|, 2
  {
    match ParseOperand(env, ts)
    case Fail(why) => Fail(why)
    case Ok(argument, rest, s) =>
      if !At(rest, ")") || argument.MethodCall? then Fail(Unsupported)
      else Ok(argument, rest[1..], s)
  }

  function ParseIdentifier(env: Env, root: string, ts: seq<Token>): (r: Parsed<Operand>)
    ensures r.Ok? ==> |r.rest| <= |ts|
    decreases |ts|, 5
  {
    if root == "true" || root == "false" then Ok(ValueOperand(Bool(root == "true"), None), ts, false)
    else if root == "null" then Ok(ValueOperand(Null, None), ts, false)
    else if root == "undefined" then Ok(ValueOperand(Undefined, None), ts, false)
    else if root == "void" then
      if ts == [] then Fail(Unsupported) else Ok(ValueOperand(Undefined, None), ts[1..], false)
    else if root == env.entityName then ParseChain(env, OfEntity, [], None, ts, false)
    else if env.paramsName == Some(root) then ParseChain(env, OfParams, [], None, ts, false)
    else Fail(Unsupported)
  }

  /** The segments after an entity or params root, with what has been read of them so far. */
  function ParseChain(env: Env, kind: ChainKind, path: Path, transformer: Option<Transformer>, ts: seq<Token>, shaped: bool)
    : (r: Parsed<Operand>)
    ensures r.Ok? ==> |r.rest| <= |ts|
    decreases |ts|, 4
  {
    if AtDot(ts) then
      if |ts| < 2 || ts[1].kind != Identifier then Fail(Unsupported)
      else
        var name := ts[1].value;
        if At(ts[2..], "(") then
          if TransformOf(name).Some? then
            if At(ts[3..], ")") then ParseChain(env, kind, path, TransformOf(name), ts[4..], shaped)
            else Fail(Unsupported)
          else CallOnChain(env, kind, path, transformer, name, ts[3..], shaped)
        else if transformer.Some? then Fail(Unsupported)
        else ParseChain(env, kind, path + [name], transformer, ts[2..], shaped)
    else if At(ts, "[") then
      match ParseBracketSegment(env, kind, ts[1..])
      case Fail(why) => Fail(why)
      case Ok(name, rest, s) =>
        if At(rest, "]") then ParseChain(env, kind, path + [name], transformer, rest[1..], shaped || s)
        else Fail(Unsupported)
    else
      match ResolveChain(env, kind, path, transformer)
      case Refused(why) => Fail(why)
      case Done(operand) => Ok(operand, ts, shaped)
  }

  /** A comparator method called on a chain, past its opening parenthesis. */
  function CallOnChain(env: Env, kind: ChainKind, path: Path, transformer: Option<Transformer>, name: string, ts: seq<Token>, shaped: bool)
    : (r: Parsed<Operand>)
    ensures r.Ok? ==> |r.rest| <= |ts|
    decreases |ts|, 3
  {
    if MethodOf(name).None? then Fail(Unsupported)
    else
      match ParseArgument(env, ts)
      case Fail(why) => Fail(why)
      case Ok(argument, rest, s) =>
        match ResolveChain(env, kind, path, transformer)
        case Refused(why) => Fail(why)
        case Done(target) => Ok(MethodCall(target, MethodOf(name).value, argument), rest, shaped || s)
  }

  /** The names of a params path inside a bracket: `.a.b`. */
  function ParamPath(path: Path, ts: seq<Token>): (r: Parsed<Path>)
    ensures r.Ok? ==> |r.rest| <= |ts|
    decreases |ts|
  {
    if AtDot(ts) then
      if |ts| < 2 then Fail(Unsupported) else ParamPath(path + [ts[1].value], ts[2..])
    else Ok(path, ts, false)
  }

  /** The one place where a param VALUE can name the property. */
  function ParseBracketSegment(env: Env, kind: ChainKind, ts: seq<Token>): (r: Parsed<string>)
    ensures r.Ok? ==> |r.rest| < |ts|
  {
    if ts == [] then Fail(Unsupported)
    else if ts[0].kind == StringToken then Ok(ts[0].value, ts[1..], false)
    else if kind == OfEntity && ts[0].kind == Identifier && env.paramsName == Some(ts[0].value) then
      match ParamPath([], ts[1..])
      case Fail(why) => Fail(why)
      case Ok(path, rest, _) =>
        var resolved := ResolveParam(path, env.params);
        if resolved.None? || !resolved.value.Text? then Fail(ParamDependent)
        else Ok(resolved.value.s, rest, true)
    else Fail(Unsupported)
  }

  function ResolveProperty(schema: map<Path, PropertyInfo>, path: Path, transformer: Option<Transformer>): Option<Operand> {
    if path in schema then Some(PropertyOperand(schema[path], transformer))
    else if |path| > 1 && path[|path| - 1] == "length" && transformer.None? then
      var parent := path[..|path| - 1];
      if parent in schema && (schema[parent].kind == StringKind || schema[parent].kind == ArrayKind)
      then Some(PropertyOperand(schema[parent], Some(Length)))
      else None
    else None
  }

  function ResolveChain(env: Env, kind: ChainKind, path: Path, transformer: Option<Transformer>): Outcome<Operand> {
    if kind == OfParams then
      if path == [] then Refused(Unsupported) else Done(ParamOperand(path, transformer))
    else
      var property := ResolveProperty(env.schema, path, transformer);
      if property.None? then Refused(Unsupported) else Done(property.value)
  }

  // ----- conditions -----

  function PropertyNode(o: Operand): Expr
    requires o.PropertyOperand?
  {
    Property(o.property, o.transformer)
  }

  function ValueNode(js: Js, o: Operand, paired: Option<Kind>, applyConverter: bool): Expr
    requires o.ValueOperand? || o.ParamOperand?
  {
    if o.ParamOperand? then ParamReference(o.path, paired, applyConverter, o.transformer)
    else Literal(Convert(js, o.value, paired, applyConverter), o.transformer)
  }

  predicate IsStringMatch(c: Comparison) { c == StartsWith || c == EndsWith || c == Includes }

  predicate IsCasing(t: Option<Transformer>) { t.Some? && !t.value.Length? }

  function BuildPropertyComparator(js: Js, property: Operand, relation: Relation, value: Operand, applyConverter: bool): Outcome<Expr>
    requires property.PropertyOperand?
    requires value.ValueOperand? || value.ParamOperand?
  {
    if property.transformer == Some(Length) then
      if IsStringMatch(relation.comparison) then Refused(Unsupported)
      else Done(Comparator(relation.comparison, relation.negated, relation.strict,
                           PropertyNode(property), ValueNode(js, value, None, false)))
    else if property.transformer.Some? && !IsStringMatch(relation.comparison) then Refused(Unsupported)
    else Done(Comparator(relation.comparison, relation.negated, relation.strict,
                         PropertyNode(property), ValueNode(js, value, Some(property.property.kind), applyConverter)))
  }

  function BuildMethodComparator(js: Js, o: Operand): (r: Outcome<Expr>)
    requires o.MethodCall?
    ensures r.Done? ==> r.value.Comparator? && !r.value.negated && !r.value.strict
  {
    if o.target.MethodCall? || o.argument.MethodCall? then Refused(Unsupported)
    else if o.target.PropertyOperand? then
      if o.argument.PropertyOperand? then Refused(Unsupported)
      else BuildPropertyComparator(js, o.target, Relation(o.comparison, false, false), o.argument, false)
    else if o.comparison == Includes && o.argument.PropertyOperand? then
      if o.target.transformer.Some? then Refused(Unsupported)
      else Done(Comparator(Includes, false, false,
                           ValueNode(js, o.target, Some(o.argument.property.kind), false),
                           PropertyNode(o.argument)))
    else Refused(Unsupported)
  }

  function BuildComparison(js: Js, left: Operand, relation: Relation, right: Operand): Outcome<Expr> {
    if left.MethodCall? then
      if relation.comparison == Equals && right.ValueOperand? && right.value.Bool? then
        match BuildMethodComparator(js, left)
        case Refused(why) => Refused(why)
        case Done(e) =>
          var comparedToFalse := right.value == Bool(false);
          Done(e.(negated := e.negated != (relation.negated != comparedToFalse)))
      else Refused(Unsupported)
    else if right.MethodCall? then Refused(Unsupported)
    else if left.PropertyOperand? && right.PropertyOperand? then
      if IsCasing(left.transformer) || IsCasing(right.transformer) then Refused(Unsupported)
      else Done(Comparator(relation.comparison, relation.negated, relation.strict, PropertyNode(left), PropertyNode(right)))
    else if left.PropertyOperand? then BuildPropertyComparator(js, left, relation, right, true)
    else if right.PropertyOperand? then
      BuildPropertyComparator(js, right, relation.(comparison := Swapped(relation.comparison)), left, true)
    else Refused(Unsupported)
  }

  function BuildStandalone(js: Js, o: Operand): Outcome<Expr> {
    if o.MethodCall? then BuildMethodComparator(js, o)
    else if o.PropertyOperand? then
      if o.transformer == Some(Length) then
        BuildPropertyComparator(js, o, Relation(GreaterThan, false, false), ValueOperand(Num(0.0), None), true)
      else
        BuildPropertyComparator(js, o, Relation(Equals, false, true), ValueOperand(Bool(true), None), true)
    else if o == ValueOperand(Bool(true), None) then Done(Empty)
    else Refused(Unsupported)
  }

  // ----- the boolean layer -----

  /** `true` absorbs a disjunction. */
  function Disjoin(left: Expr, right: Expr): Expr {
    if left.Empty? || right.Empty? then Empty else Operator(false, left, right)
  }

  /** `true` is the identity of a conjunction. */
  function Conjoin(left: Expr, right: Expr): Expr {
    if left.Empty? then right else if right.Empty? then left else Operator(true, left, right)
  }

  function ParseOr(env: Env, ts: seq<Token>): (r: Parsed<Expr>)
    ensures r.Ok? ==> |r.rest| < |ts|
    decreases |ts|, 4
  {
    match ParseAnd(env, ts)
    case Fail(why) => Fail(why)
    case Ok(left, rest, shaped) => OrLoop(env, left, rest, shaped)
  }

  function OrLoop(env: Env, left: Expr, ts: seq<Token>, shaped: bool): (r: Parsed<Expr>)
    ensures r.Ok? ==> |r.rest| <= |ts|
    decreases |ts|, 3
  {
    if !At(ts, "||") then Ok(left, ts, shaped)
    else
      match ParseAnd(env, ts[1..])
      case Fail(why) => Fail(why)
      case Ok(right, rest, s) => OrLoop(env, Disjoin(left, right), rest, shaped || s)
  }

  function ParseAnd(env: Env, ts: seq<Token>): (r: Parsed<Expr>)
    ensures r.Ok? ==> |r.rest| < |ts|
    decreases |ts|, 2
  {
    match ParseUnary(env, ts)
    case Fail(why) => Fail(why)
    case Ok(left, rest, shaped) => AndLoop(env, left, rest, shaped)
  }

  function AndLoop(env: Env, left: Expr, ts: seq<Token>, shaped: bool): (r: Parsed<Expr>)
    ensures r.Ok? ==> |r.rest| <= |ts|
    decreases |ts|, 1
  {
    if !At(ts, "&&") then Ok(left, ts, shaped)
    else
      match ParseUnary(env, ts[1..])
      case Fail(why) => Fail(why)
      case Ok(right, rest, s) => AndLoop(env, Conjoin(left, right), rest, shaped || s)
  }

  function ParseUnary(env: Env, ts: seq<Token>): (r: Parsed<Expr>)
    ensures r.Ok? ==> |r.rest| < |ts|
    decreases |ts|, 1
  {
    if At(ts, "!") then
      match ParseUnary(env, ts[1..])
      case Fail(why) => Fail(why)
      case Ok(e, rest, shaped) =>
        match Negate(e)
        case None => Fail(Unsupported)
        case Some(negated) => Ok(negated, rest, shaped)
    else ParseComparison(env, ts)
  }

  function ParseComparison(env: Env, ts: seq<Token>): (r: Parsed<Expr>)
    ensures r.Ok? ==> |r.rest| < |ts|
    decreases |ts|, 0
  {
    if At(ts, "(") then
      match ParseOr(env, ts[1..])
      case Fail(why) => Fail(why)
      case Ok(e, rest, shaped) =>
        if !At(rest, ")") || AtRelation(rest[1..]) then Fail(Unsupported)
        else Ok(e, rest[1..], shaped)
    else
      match ParseOperand(env, ts)
      case Fail(why) => Fail(why)
      case Ok(left, rest, shaped) =>
        if AtRelation(rest) then
          match ParseOperand(env, rest[1..])
          case Fail(why) => Fail(why)
          case Ok(right, rest', s) =>
            match BuildComparison(env.js, left, RelationOf(rest[0].value).value, right)
            case Refused(why) => Fail(why)
            case Done(e) => Ok(e, rest', shaped || s)
        else
          match BuildStandalone(env.js, left)
          case Refused(why) => Fail(why)
          case Done(e) => Ok(e, rest, shaped)
  }

  /** A whole filter body: nothing may be left over. */
  function Parse(env: Env, ts: seq<Token>): (r: Parsed<Expr>)
    ensures r.Ok? ==> r.rest == []
  {
    match ParseOr(env, ts)
    case Fail(why) => Fail(why)
    case Ok(e, rest, shaped) => if rest == [] then Ok(e, [], shaped) else Fail(Unsupported)
  }

  // ----- binding -----

  /** `bindExpression`: `None` is the throw on a params path the params do not hold. */
  function Bind(js: Js, e: Expr, params: Value): Option<Expr> {
    match e
    case ParamReference(path, paired, applyConverter, transformer) =>
      var raw := ResolveParam(path, params);
      if raw.None? then None else Some(Literal(Convert(js, raw.value, paired, applyConverter), transformer))
    case Comparator(c, negated, strict, left, right) =>
      var l := Bind(js, left, params);
      var r := Bind(js, right, params);
      if l.None? || r.None? then None else Some(Comparator(c, negated, strict, l.value, r.value))
    case Operator(conjunction, left, right) =>
      var l := Bind(js, left, params);
      var r := Bind(js, right, params);
      if l.None? || r.None? then None else Some(Operator(conjunction, l.value, r.value))
    case _ => Some(e)
  }
}
