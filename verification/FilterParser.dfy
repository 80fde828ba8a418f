/**
 The parser as core/src/expressions/parser.ts writes it: a cursor that moves over a token
 array, and recursive descent methods with loops. Each method is proved to compute what the
 function of the same name in `Grammar` says about the tokens that were left.
 */
module FilterParser {
  import opened Options
  import opened Expressions
  import opened Grammar

  class TokenStream {
    const tokens: seq<Token>
    var index: nat

    constructor (tokens: seq<Token>)
      ensures Valid() && Remaining() == tokens
    {
      this.tokens := tokens;
      index := 0;
    }

    ghost predicate Valid()
      reads this
    {
      index <= |tokens|
    }

    ghost function Remaining(): seq<Token>
      reads this
      requires Valid()
    {
      tokens[index..]
    }

    method Next() returns (r: Outcome<Token>)
      requires Valid()
      modifies this
      ensures Valid()
      ensures old(Remaining()) == [] ==> r == Refused(Unsupported) && Remaining() == []
      ensures old(Remaining()) != [] ==> r == Done(old(Remaining())[0]) && Remaining() == old(Remaining())[1..]
    {
      if index >= |tokens| {
        return Refused(Unsupported);
      }
      r := Done(tokens[index]);
      index := index + 1;
    }

    method IsPunctuation(symbol: string) returns (b: bool)
      requires Valid()
      ensures b == At(Remaining(), symbol)
    {
      b := index < |tokens| && tokens[index] == Punct(symbol);
    }

    method MatchPunctuation(symbol: string) returns (b: bool)
      requires Valid()
      modifies this
      ensures Valid()
      ensures b == At(old(Remaining()), symbol)
      ensures Remaining() == if b then old(Remaining())[1..] else old(Remaining())
    {
      b := IsPunctuation(symbol);
      if b {
        index := index + 1;
      }
    }

    method MatchDot() returns (b: bool)
      requires Valid()
      modifies this
      ensures Valid()
      ensures b == AtDot(old(Remaining()))
      ensures Remaining() == if b then old(Remaining())[1..] else old(Remaining())
    {
      b := MatchPunctuation(".");
      if !b {
        b := MatchPunctuation("?.");
      }
    }
  }

  /** What one turn of the chain loop leaves: the chain so far, or its result. */
  datatype Turn =
    | More(path: Path, transformer: Option<Transformer>)
    | Over(result: Outcome<Operand>)

  datatype Dotted = Named(name: string) | Cased(transformer: Transformer) | Called(comparison: Comparison)

  /** How `r` and `rest` come out of the tokens `ts` after a dot. */
  ghost predicate DottedAt(r: Outcome<Dotted>, transformer: Option<Transformer>, ts: seq<Token>, rest: seq<Token>) {
    if ts == [] || ts[0].kind != Identifier then r == Refused(Unsupported)
    else if !At(ts[1..], "(") then
      if transformer.Some? then r == Refused(Unsupported) else r == Done(Named(ts[0].value)) && rest == ts[1..]
    else if TransformOf(ts[0].value).Some? then
      if At(ts[2..], ")") then r == Done(Cased(TransformOf(ts[0].value).value)) && rest == ts[3..] else r == Refused(Unsupported)
    else if MethodOf(ts[0].value).Some? then r == Done(Called(MethodOf(ts[0].value).value)) && rest == ts[2..]
    else r == Refused(Unsupported)
  }

  /** The chain's result once a comparator method has been opened. */
  function Calling(env: Env, kind: ChainKind, path: Path, transformer: Option<Transformer>,
                   comparison: Comparison, ts: seq<Token>, shaped: bool): Parsed<Operand>
  {
    match ParseArgument(env, ts)
    case Fail(why) => Fail(why)
    case Ok(argument, rest, s) =>
      match ResolveChain(env, kind, path, transformer)
      case Refused(why) => Fail(why)
      case Done(target) => Ok(MethodCall(target, comparison, argument), rest, shaped || s)
  }

  function Stepped(env: Env, kind: ChainKind, path: Path, transformer: Option<Transformer>, shaped: bool,
                   step: Outcome<Dotted>, rest: seq<Token>): Parsed<Operand>
  {
    if step.Refused? then Fail(step.why)
    else if step.value.Named? then ParseChain(env, kind, path + [step.value.name], transformer, rest, shaped)
    else if step.value.Cased? then ParseChain(env, kind, path, Some(step.value.transformer), rest, shaped)
    else Calling(env, kind, path, transformer, step.value.comparison, rest, shaped)
  }

  /** One step of a chain after a dot, as the loop takes it. */
  lemma {:induction false} ChainStep(env: Env, kind: ChainKind, path: Path, transformer: Option<Transformer>, ts: seq<Token>, shaped: bool,
                  step: Outcome<Dotted>, rest: seq<Token>)
    requires AtDot(ts) && DottedAt(step, transformer, ts[1..], rest)
    ensures ParseChain(env, kind, path, transformer, ts, shaped) == Stepped(env, kind, path, transformer, shaped, step, rest)
  {
    assert |ts| > 1 ==> ts[1..][1..] == ts[2..];
    assert |ts| > 2 ==> ts[1..][2..] == ts[3..];
    assert |ts| > 3 ==> ts[1..][3..] == ts[4..];
  }

  class ExpressionParser {
    const env: Env
    const stream: TokenStream
    var structurallyDependsOnParams: bool

    constructor (env: Env, tokens: seq<Token>)
      ensures Valid() && fresh(stream) && this.env == env
      ensures stream.Remaining() == tokens && !structurallyDependsOnParams
    {
      this.env := env;
      structurallyDependsOnParams := false;
      stream := new TokenStream(tokens);
    }

    ghost predicate Valid()
      reads this, stream
    {
      stream.Valid()
    }

    /** How far `p` leaves the cursor and the flag, and what the method answers. */
    ghost predicate Agrees<T>(r: Outcome<T>, p: Parsed<T>, wasShaped: bool)
      reads this, stream
      requires Valid()
    {
      match p
      case Ok(v, rest, shaped) =>
        r == Done(v) && stream.Remaining() == rest && structurallyDependsOnParams == (wasShaped || shaped)
      case Fail(why) => r == Refused(why)
    }

    method Parse() returns (r: Outcome<Expr>)
      requires Valid()
      modifies this, stream
      ensures Valid()
      ensures Agrees(r, Grammar.Parse(env, old(stream.Remaining())), old(structurallyDependsOnParams))
    {
      r := ParseOr();
      if r.Done? && stream.index < |stream.tokens| {
        r := Refused(Unsupported);
      }
    }

    method ParseOr() returns (r: Outcome<Expr>)
      requires Valid()
      modifies this, stream
      ensures Valid()
      ensures Agrees(r, Grammar.ParseOr(env, old(stream.Remaining())), old(structurallyDependsOnParams))
      decreases |stream.Remaining()|, 4
    {
      ghost var whole := Grammar.ParseOr(env, stream.Remaining());
      ghost var parsed := Grammar.ParseAnd(env, stream.Remaining());
      r := ParseAnd();
      if r.Refused? {
        return;
      }
      var left := r.value;
      ghost var sofar := parsed.shaped;
      while true
        invariant Valid() && |stream.Remaining()| < |old(stream.Remaining())|
        invariant whole == OrLoop(env, left, stream.Remaining(), sofar)
        invariant structurallyDependsOnParams == (old(structurallyDependsOnParams) || sofar)
        decreases |stream.Remaining()|
      {
        var more := stream.MatchPunctuation("||");
        if !more {
          return Done(left);
        }
        parsed := Grammar.ParseAnd(env, stream.Remaining());
        r := ParseAnd();
        if r.Refused? {
          return;
        }
        // A tautology absorbs the whole disjunction.
        left := Disjoin(left, r.value);
        sofar := sofar || parsed.shaped;
      }
    }

    method ParseAnd() returns (r: Outcome<Expr>)
      requires Valid()
      modifies this, stream
      ensures Valid()
      ensures Agrees(r, Grammar.ParseAnd(env, old(stream.Remaining())), old(structurallyDependsOnParams))
      decreases |stream.Remaining()|, 2
    {
      ghost var whole := Grammar.ParseAnd(env, stream.Remaining());
      ghost var parsed := Grammar.ParseUnary(env, stream.Remaining());
      r := ParseUnary();
      if r.Refused? {
        return;
      }
      var left := r.value;
      ghost var sofar := parsed.shaped;
      while true
        invariant Valid() && |stream.Remaining()| < |old(stream.Remaining())|
        invariant whole == AndLoop(env, left, stream.Remaining(), sofar)
        invariant structurallyDependsOnParams == (old(structurallyDependsOnParams) || sofar)
        decreases |stream.Remaining()|
      {
        var more := stream.MatchPunctuation("&&");
        if !more {
          return Done(left);
        }
        parsed := Grammar.ParseUnary(env, stream.Remaining());
        r := ParseUnary();
        if r.Refused? {
          return;
        }
        // A tautology is the identity of a conjunction.
        left := Conjoin(left, r.value);
        sofar := sofar || parsed.shaped;
      }
    }

    method ParseUnary() returns (r: Outcome<Expr>)
      requires Valid()
      modifies this, stream
      ensures Valid()
      ensures Agrees(r, Grammar.ParseUnary(env, old(stream.Remaining())), old(structurallyDependsOnParams))
      decreases |stream.Remaining()|, 1
    {
      var bang := stream.MatchPunctuation("!");
      if !bang {
        r := ParseComparison();
        return;
      }
      r := ParseUnary();
      if r.Done? {
        var negated := Negate(r.value);
        r := if negated.None? then Refused(Unsupported) else Done(negated.value);
      }
    }

    method ParseComparison() returns (r: Outcome<Expr>)
      requires Valid()
      modifies this, stream
      ensures Valid()
      ensures Agrees(r, Grammar.ParseComparison(env, old(stream.Remaining())), old(structurallyDependsOnParams))
      decreases |stream.Remaining()|, 0
    {
      var group := stream.MatchPunctuation("(");
      if group {
        r := ParseOr();
        if r.Done? {
          var closed := stream.MatchPunctuation(")");
          var trailing := AtOperator();
          if !closed || trailing {
            r := Refused(Unsupported);
          }
        }
        return;
      }
      var left := ParseOperand();
      if left.Refused? {
        return Refused(left.why);
      }
      var compared := AtOperator();
      if !compared {
        r := BuildStandalone(env.js, left.value);
        return;
      }
      var operator := stream.Next();
      var right := ParseOperand();
      if right.Refused? {
        return Refused(right.why);
      }
      r := BuildComparison(env.js, left.value, RelationOf(operator.value.value).value, right.value);
    }

    method AtOperator() returns (b: bool)
      requires Valid()
      ensures b == AtRelation(stream.Remaining())
    {
      b := stream.index < |stream.tokens|
        && stream.tokens[stream.index].kind == Punctuation
        && RelationOf(stream.tokens[stream.index].value).Some?;
    }

    method ParseOperand() returns (r: Outcome<Operand>)
      requires Valid()
      modifies this, stream
      ensures Valid()
      ensures Agrees(r, Grammar.ParseOperand(env, old(stream.Remaining())), old(structurallyDependsOnParams))
      decreases |stream.Remaining()|, 1
    {
      ghost var ts := stream.Remaining();
      var first := stream.Next();
      if first.Refused? {
        return Refused(Unsupported);
      }
      var token := first.value;
      if token.kind == StringToken {
        r := WithValueTransformer(token.value);
      } else if token.kind == NumberToken {
        r := Done(ValueOperand(Num(env.js.number(token.value)), None));
      } else if token == Punct("-") {
        var number := stream.Next();
        if number.Refused? || number.value.kind != NumberToken {
          return Refused(Unsupported);
        }
        assert ts[2..] == ts[1..][1..];
        r := Done(ValueOperand(Num(-env.js.number(number.value.value)), None));
      } else if token == Punct("[") {
        r := ParseArrayLiteral();
      } else if token.kind == Identifier {
        r := ParseIdentifier(token.value);
      } else {
        r := Refused(Unsupported);
      }
    }

    method WithValueTransformer(s: string) returns (r: Outcome<Operand>)
      requires Valid()
      modifies stream
      ensures Valid()
      ensures Agrees(r, Grammar.WithValueTransformer(s, old(stream.Remaining())), old(structurallyDependsOnParams))
    {
      ghost var ts := stream.Remaining();
      var dot := stream.IsPunctuation(".");
      if !dot || stream.index + 1 >= |stream.tokens|
         || stream.tokens[stream.index + 1].kind != Identifier
         || TransformOf(stream.tokens[stream.index + 1].value).None? {
        return Done(ValueOperand(Text(s), None));
      }
      var _ := stream.Next();
      var method' := stream.Next();
      assert stream.Remaining() == ts[2..];
      var open := stream.MatchPunctuation("(");
      assert open ==> stream.Remaining() == ts[3..];
      var close := stream.MatchPunctuation(")");
      assert open && close ==> stream.Remaining() == ts[4..];
      r := if open && close then Done(ValueOperand(Text(s), TransformOf(method'.value.value))) else Refused(Unsupported);
    }

    method ParseArrayItems() returns (r: Outcome<seq<Value>>)
      requires Valid()
      modifies this, stream
      ensures Valid()
      ensures Agrees(r, ArrayItems(env, [], old(stream.Remaining()), false), old(structurallyDependsOnParams))
      decreases |stream.Remaining()|, 3
    {
      ghost var whole := ArrayItems(env, [], stream.Remaining(), false);
      ghost var sofar := false;
      var items := [];
      while true
        invariant Valid() && |stream.Remaining()| <= |old(stream.Remaining())|
        invariant whole == ArrayItems(env, items, stream.Remaining(), sofar)
        invariant structurallyDependsOnParams == (old(structurallyDependsOnParams) || sofar)
        decreases |stream.Remaining()|
      {
        var closed := stream.IsPunctuation("]");
        if closed {
          return Done(items);
        }
        ghost var parsed := Grammar.ParseOperand(env, stream.Remaining());
        var element := ParseOperand();
        if element.Refused? {
          return Refused(element.why);
        }
        if !element.value.ValueOperand? || element.value.transformer.Some? {
          return Refused(Unsupported);
        }
        items := items + [element.value.value];
        sofar := sofar || parsed.shaped;
        var comma := stream.MatchPunctuation(",");
        if !comma {
          return Done(items);
        }
      }
    }

    method ParseArrayLiteral() returns (r: Outcome<Operand>)
      requires Valid()
      modifies this, stream
      ensures Valid()
      ensures Agrees(r, Grammar.ParseArrayLiteral(env, old(stream.Remaining())), old(structurallyDependsOnParams))
      decreases |stream.Remaining()|, 5
    {
      ghost var parsed := ArrayItems(env, [], stream.Remaining(), false);
      var items := ParseArrayItems();
      if items.Refused? {
        return Refused(items.why);
      }
      r := AfterItems(ValueOperand(List(items.value), None), old(structurallyDependsOnParams), parsed.shaped);
    }

    method AfterItems(literal: Operand, ghost base: bool, ghost sofar: bool) returns (r: Outcome<Operand>)
      requires Valid() && structurallyDependsOnParams == (base || sofar)
      modifies this, stream
      ensures Valid()
      ensures Agrees(r, Grammar.AfterItems(env, literal, old(stream.Remaining()), sofar), base)
      decreases |stream.Remaining()|, 4
    {
      ghost var ts := stream.Remaining();
      var closed := stream.MatchPunctuation("]");
      if !closed {
        return Refused(Unsupported);
      }
      var dotted := stream.MatchDot();
      if !dotted {
        return Done(literal);
      }
      assert stream.Remaining() == ts[2..];
      var open := OpenIncludes();
      if !open {
        return Refused(Unsupported);
      }
      var argument := ParseArgument();
      r := if argument.Refused? then Refused(argument.why) else Done(MethodCall(literal, Includes, argument.value));
    }

    /** `includes(`, the one call an array literal takes. */
    method OpenIncludes() returns (open: bool)
      requires Valid()
      modifies stream
      ensures Valid()
      ensures var call := old(stream.Remaining());
        && (open <==> call != [] && call[0] == Word("includes") && At(call[1..], "("))
        && (open ==> stream.Remaining() == call[2..])
    {
      open := false;
      var name := stream.Next();
      if name.Done? && name.value == Word("includes") {
        open := stream.MatchPunctuation("(");
      }
    }

    method ParseArgument() returns (r: Outcome<Operand>)
      requires Valid()
      modifies this, stream
      ensures Valid()
      ensures Agrees(r, Grammar.ParseArgument(env, old(stream.Remaining())), old(structurallyDependsOnParams))
      decreases |stream.Remaining()|, 2
    {
      r := ParseOperand();
      if r.Done? {
        var closed := stream.MatchPunctuation(")");
        if !closed || r.value.MethodCall? {
          r := Refused(Unsupported);
        }
      }
    }

    method ParseIdentifier(root: string) returns (r: Outcome<Operand>)
      requires Valid()
      modifies this, stream
      ensures Valid()
      ensures Agrees(r, Grammar.ParseIdentifier(env, root, old(stream.Remaining())), old(structurallyDependsOnParams))
      decreases |stream.Remaining()|, 6
    {
      if root == "true" || root == "false" {
        r := Done(ValueOperand(Bool(root == "true"), None));
      } else if root == "null" {
        r := Done(ValueOperand(Null, None));
      } else if root == "undefined" {
        r := Done(ValueOperand(Undefined, None));
      } else if root == "void" {
        var operand := stream.Next();
        r := if operand.Refused? then Refused(Unsupported) else Done(ValueOperand(Undefined, None));
      } else if root == env.entityName {
        r := ParseChain(OfEntity);
      } else if env.paramsName == Some(root) {
        r := ParseChain(OfParams);
      } else {
        r := Refused(Unsupported);
      }
    }

    /** What follows a dot: a name, a case method, or an opened comparator method. */
    method ParseDotted(transformer: Option<Transformer>) returns (r: Outcome<Dotted>)
      requires Valid()
      modifies stream
      ensures Valid()
      ensures DottedAt(r, transformer, old(stream.Remaining()), stream.Remaining())
    {
      ghost var ts := stream.Remaining();
      var segment := stream.Next();
      if segment.Refused? || segment.value.kind != Identifier {
        return Refused(Unsupported);
      }
      var name := segment.value.value;
      var called := stream.MatchPunctuation("(");
      if !called {
        return if transformer.Some? then Refused(Unsupported) else Done(Named(name));
      }
      assert stream.Remaining() == ts[2..];
      if TransformOf(name).Some? {
        var closed := stream.MatchPunctuation(")");
        assert closed ==> stream.Remaining() == ts[3..];
        return if closed then Done(Cased(TransformOf(name).value)) else Refused(Unsupported);
      }
      r := if MethodOf(name).Some? then Done(Called(MethodOf(name).value)) else Refused(Unsupported);
    }

    method FinishCall(kind: ChainKind, path: Path, transformer: Option<Transformer>, comparison: Comparison,
                      ghost base: bool, ghost sofar: bool)
      returns (r: Outcome<Operand>)
      requires Valid() && structurallyDependsOnParams == (base || sofar)
      modifies this, stream
      ensures Valid()
      ensures Agrees(r, Calling(env, kind, path, transformer, comparison, old(stream.Remaining()), sofar), base)
      decreases |stream.Remaining()|, 3
    {
      var argument := ParseArgument();
      if argument.Refused? {
        return Refused(argument.why);
      }
      var target := ResolveChain(env, kind, path, transformer);
      r := if target.Refused? then Refused(target.why) else Done(MethodCall(target.value, comparison, argument.value));
    }

    /** The loop may go on from `turn`, or has its result in it. */
    ghost predicate TurnAgrees(turn: Turn, kind: ChainKind, whole: Parsed<Operand>, base: bool, left: nat)
      reads this, stream
      requires Valid()
    {
      match turn
      case Over(r) => Agrees(r, whole, base)
      case More(path, transformer) =>
        && |stream.Remaining()| < left
        && exists sofar :: structurallyDependsOnParams == (base || sofar)
             && whole == Grammar.ParseChain(env, kind, path, transformer, stream.Remaining(), sofar)
    }

    method DotTurn(kind: ChainKind, path: Path, transformer: Option<Transformer>, ghost ts: seq<Token>, ghost base: bool, ghost sofar: bool)
      returns (turn: Turn)
      requires Valid() && AtDot(ts) && stream.Remaining() == ts[1..] && structurallyDependsOnParams == (base || sofar)
      modifies this, stream
      ensures Valid()
      ensures TurnAgrees(turn, kind, Grammar.ParseChain(env, kind, path, transformer, ts, sofar),
                         base, |ts|)
      decreases |stream.Remaining()|, 4
    {
      var segment := ParseDotted(transformer);
      ChainStep(env, kind, path, transformer, ts, sofar, segment, stream.Remaining());
      if segment.Refused? {
        return Over(Refused(segment.why));
      }
      if segment.value.Called? {
        var r := FinishCall(kind, path, transformer, segment.value.comparison, base, sofar);
        return Over(r);
      }
      turn := if segment.value.Named? then More(path + [segment.value.name], transformer)
              else More(path, Some(segment.value.transformer));
    }

    method BracketTurn(kind: ChainKind, path: Path, transformer: Option<Transformer>, ghost ts: seq<Token>, ghost base: bool, ghost sofar: bool)
      returns (turn: Turn)
      requires Valid() && At(ts, "[") && stream.Remaining() == ts[1..] && structurallyDependsOnParams == (base || sofar)
      modifies this, stream
      ensures Valid()
      ensures TurnAgrees(turn, kind, Grammar.ParseChain(env, kind, path, transformer, ts, sofar),
                         base, |ts|)
    {
      ghost var parsed := Grammar.ParseBracketSegment(env, kind, stream.Remaining());
      var key := ParseBracketSegment(kind);
      if key.Refused? {
        return Over(Refused(key.why));
      }
      var closed := stream.MatchPunctuation("]");
      if !closed {
        return Over(Refused(Unsupported));
      }
      turn := More(path + [key.value], transformer);
      ghost var now := sofar || parsed.shaped;
      assert Grammar.ParseChain(env, kind, path, transformer, ts, sofar)
          == Grammar.ParseChain(env, kind, path + [key.value], transformer, stream.Remaining(), now);
    }

    method ParseChain(kind: ChainKind) returns (r: Outcome<Operand>)
      requires Valid()
      modifies this, stream
      ensures Valid()
      ensures Agrees(r, Grammar.ParseChain(env, kind, [], None, old(stream.Remaining()), false), old(structurallyDependsOnParams))
      decreases |stream.Remaining()|, 5
    {
      ghost var whole := Grammar.ParseChain(env, kind, [], None, stream.Remaining(), false);
      ghost var sofar := false;
      var path: Path := [];
      var transformer: Option<Transformer> := None;
      while true
        invariant Valid() && |stream.Remaining()| <= |old(stream.Remaining())|
        invariant whole == Grammar.ParseChain(env, kind, path, transformer, stream.Remaining(), sofar)
        invariant structurallyDependsOnParams == (old(structurallyDependsOnParams) || sofar)
        decreases |stream.Remaining()|
      {
        ghost var ts := stream.Remaining();
        var dotted := stream.MatchDot();
        var turn: Turn;
        if dotted {
          turn := DotTurn(kind, path, transformer, ts, old(structurallyDependsOnParams), sofar);
        } else {
          var bracketed := stream.MatchPunctuation("[");
          if !bracketed {
            r := ResolveChain(env, kind, path, transformer);
            return;
          }
          turn := BracketTurn(kind, path, transformer, ts, old(structurallyDependsOnParams), sofar);
        }
        if turn.Over? {
          return turn.result;
        }
        path, transformer := turn.path, turn.transformer;
        ghost var now :| structurallyDependsOnParams == (old(structurallyDependsOnParams) || now)
          && whole == Grammar.ParseChain(env, kind, path, transformer, stream.Remaining(), now);
        sofar := now;
      }
    }

    method ParseBracketSegment(kind: ChainKind) returns (r: Outcome<string>)
      requires Valid()
      modifies this, stream
      ensures Valid()
      ensures Agrees(r, Grammar.ParseBracketSegment(env, kind, old(stream.Remaining())), old(structurallyDependsOnParams))
    {
      var first := stream.Next();
      if first.Refused? {
        return Refused(Unsupported);
      }
      if first.value.kind == StringToken {
        return Done(first.value.value);
      }
      if kind != OfEntity || first.value.kind != Identifier || env.paramsName != Some(first.value.value) {
        return Refused(Unsupported);
      }
      ghost var ts := stream.Remaining();
      var path: Path := [];
      while true
        invariant Valid() && |stream.Remaining()| <= |ts|
        invariant ParamPath([], ts) == ParamPath(path, stream.Remaining())
        invariant structurallyDependsOnParams == old(structurallyDependsOnParams)
        decreases |stream.Remaining()|
      {
        ghost var before := stream.Remaining();
        var dotted := stream.MatchDot();
        if !dotted {
          break;
        }
        var name := stream.Next();
        if name.Refused? {
          return Refused(Unsupported);
        }
        assert before[2..] == stream.Remaining();
        path := path + [name.value.value];
      }
      var resolved := ResolveParam(path, env.params);
      if resolved.None? || !resolved.value.Text? {
        return Refused(ParamDependent);
      }
      structurallyDependsOnParams := true;
      r := Done(resolved.value.s);
    }
  }
}
