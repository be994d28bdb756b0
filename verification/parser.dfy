/** The `Parser` object of eva_gen/common/front_end/parser.py: a lexer, one
    lookahead token, and one method per grammar rule that advances both.
    Every method is proved to compute the corresponding function of the
    `Grammar` module on the state it starts in: the same node (or error)
    and the same state afterwards. */
module Parsing {
  import opened Wrappers
  import opened Lexing
  import opened Nodes
  import opened Grammar

  /** A method's result paired with the state it leaves, for comparison with
      the grammar function it implements. */
  function Attach<T>(r: Result<T, ParseError>, st: PState): ParseResult<T>
  {
    match r
    case Ok(v) => Ok(Parsed(v, st))
    case Err(e) => Err(e)
  }

  class Parser {
    const lexer: Lexer
    var token: Token

    /** The parser's state as the grammar functions see it. */
    ghost function State(): PState
      reads this, lexer
    {
      PState(lexer.code, token, lexer.rest)
    }

    ghost predicate Valid()
      reads this, lexer
    {
      lexer.Valid() && WellFormed(State())
    }

    /** `Parser(lexer)`: parse what an existing lexer has not consumed yet,
        starting at the `_SOI` pseudo-token. */
    constructor (lexer: Lexer)
      requires lexer.Valid()
      ensures this.lexer == lexer && Valid()
      ensures State() == PState(lexer.code, Token(Soi, ""), lexer.rest)
    {
      this.lexer := lexer;
      token := Token(Soi, "");
    }

    /** `Parser(code)`: a fresh lexer over `code`. */
    constructor FromCode(code: string)
      ensures fresh(lexer) && Valid()
      ensures State() == Initial(code)
    {
      lexer := new Lexer(code);
      token := Token(Soi, "");
    }

    /** A parser over `lexer` whose lookahead is already `token`: the
        object `Incomplete` builds once the first token has been fetched. */
    constructor WithToken(lexer: Lexer, token: Token)
      requires lexer.Valid() && WellFormed(PState(lexer.code, token, lexer.rest))
      ensures this.lexer == lexer && Valid()
      ensures State() == PState(lexer.code, token, lexer.rest)
    {
      this.lexer := lexer;
      this.token := token;
    }

    /** `Parser(lexer, incomplete=True)`: the lookahead is the lexer's next
        token instead of `_SOI`. An exhausted lexer stops the construction
        (the source lets StopIteration escape, here `Err(None)`), and a
        lexing failure propagates (`Err(Some(e))`). */
    static method Incomplete(lexer: Lexer) returns (r: Result<Parser, Option<ParseError>>)
      requires lexer.Valid()
      modifies lexer
      ensures lexer.Valid() && lexer.rest == Scan(old(lexer.rest)).rest
      ensures var s := Scan(old(lexer.rest));
        && (r.Ok? <==> s.Emit?)
        && (r.Ok? ==> r.value.lexer == lexer && r.value.Valid() && r.value.token == s.token)
        && (s.Stop? ==> r == Err(None))
        && (s.NoMatch? ==> r == Err(Some(LexError(lexer.code, s.rest))))
    {
      ScanUnopIsNot(lexer.rest);
      var n := lexer.Next();
      if n.Produced? {
        var p := new Parser.WithToken(lexer, n.token);
        r := Ok(p);
      } else if n.Exhausted? {
        r := Err(None);
      } else {
        r := Err(Some(n.error));
      }
    }

    /** The `position` property. */
    method Position() returns (lc: LineCol)
      requires lexer.Valid()
      ensures lc == Grammar.Position(State())
    {
      lc := lexer.Linecol();
    }

    /** The `try` block of `eat`: `self.token = next(self.lexer)`, with the
        end of the stream turned into `_EOI`; a lexing error propagates. */
    method NextToken() returns (err: Option<ParseError>)
      requires Valid()
      modifies this, lexer
      ensures Grammar.Advance(old(State())).Ok? ==> err.None? && State() == Grammar.Advance(old(State())).value && Valid()
      ensures Grammar.Advance(old(State())).Err? ==> err == Some(Grammar.Advance(old(State())).error)
    {
      ghost var st0 := State();
      var n := lexer.Next();
      ghost var s := Scan(st0.rest);
      assert n == Outcome(lexer.code, s);
      assert lexer.rest == s.rest;
      match n {
        case Produced(t) =>
          assert s == Emit(t, lexer.rest);
          token := t;
          assert State() == PState(st0.code, t, s.rest);
          assert Grammar.Advance(st0) == Ok(State());
        case Exhausted =>
          assert s.Stop? && lexer.rest == [];
          token := Token(Eoi, "");
          assert Grammar.Advance(st0) == Ok(State());
        case Failed(e) =>
          assert s.NoMatch?;
          assert Grammar.Advance(st0).Err?;
          assert Grammar.Advance(st0).error == e;
          return Some(e);
      }
      return None;
    }

    /** `eat(k)`. */
    method Eat(k: Kind) returns (r: Result<string, ParseError>)
      requires Valid()
      modifies this, lexer
      ensures r.Ok? ==> Valid()
      ensures Attach(r, State()) == Grammar.Eat(old(State()), k)
    {
      if token.kind == k {
        var value := token.lexeme;
        var err := NextToken();
        if err.Some? {
          return Err(err.value);
        }
        return Ok(value);
      }
      var line := lexer.CurLine();
      var position := Position();
      if token.kind == Eoi {
        return Err(ParseError("Unexpected end of file, expecting " + Name(k), line, position));
      }
      return Err(ParseError("Unexpected token " + Name(token.kind) + ", expecting " + Name(k), line, position));
    }

    /** `accept(k)`. */
    method Accept(k: Kind) returns (r: Result<bool, ParseError>)
      requires Valid()
      modifies this, lexer
      ensures r.Ok? ==> Valid()
      ensures Attach(r, State()) == Grammar.Accept(old(State()), k)
    {
      if token.kind == k {
        var _ :- Eat(k);
        return Ok(true);
      }
      return Ok(false);
    }

    /** `parse`. */
    method Parse() returns (r: Result<Node, ParseError>)
      requires Valid()
      modifies this, lexer
      ensures r == Grammar.Parse(old(State()))
    {
      var start := Position();
      var _ :- Eat(Soi);
      var block :- ParseFunctions();
      var _ :- Eat(Eoi);
      var end := Position();
      return Ok(CodeBlockNode(Span(start, end), block));
    }

    /** The generator in `parse`: `parse_function` until `_EOI`. */
    method ParseFunctions() returns (r: Result<seq<Node>, ParseError>)
      requires Valid()
      modifies this, lexer
      ensures r.Ok? ==> Valid()
      ensures Attach(r, State()) == FunctionsFrom(old(State()))
    {
      ghost var st0 := State();
      var block: seq<Node> := [];
      PrependNil(FunctionsFrom(st0));
      while token.kind != Eoi
        invariant Valid()
        invariant FunctionsFrom(st0) == Prepend(block, FunctionsFrom(State()))
        decreases Fuel(State())
      {
        ghost var before := State();
        FunctionsStep(before);
        var f := ParseFunction();
        assert Attach(f, State()) == Grammar.ParseFunction(before);
        if f.Err? {
          assert FunctionsFrom(before) == Err(f.error);
          return Err(f.error);
        }
        assert FunctionsFrom(before) == Prepend([f.value], FunctionsFrom(State()));
        PrependPrepend(block, [f.value], FunctionsFrom(State()));
        block := block + [f.value];
      }
      assert FunctionsFrom(State()) == Ok(Parsed([], State()));
      assert block + [] == block;
      return Ok(block);
    }

    /** `parse_function`. */
    method ParseFunction() returns (r: Result<Node, ParseError>)
      requires Valid()
      modifies this, lexer
      ensures r.Ok? ==> Valid()
      ensures Attach(r, State()) == Grammar.ParseFunction(old(State()))
      decreases Fuel(State()), 20
    {
      var start := Position();
      var isExtern :- Accept(KwExtern);
      var isFun :- Accept(KwFun);
      if isFun {
        var name :- Eat(Ident);
        var _ :- Eat(LeftParent);
        var args :- ParseCommaList(RightParent);
        var _ :- Eat(RightParent);
        if !isExtern {
          var code :- ParseCodeblock(true);
          var end := Position();
          return Ok(FunctionNode(Span(start, end), name, args, code));
        }
        var end := Position();
        return Ok(ExternFunctionNode(Span(start, end), name, args));
      }
      r := ParseCodeblock(false);
    }

    /** `parse_codeblock(force)`. */
    method ParseCodeblock(force: bool) returns (r: Result<Node, ParseError>)
      requires Valid()
      modifies this, lexer
      ensures r.Ok? ==> Valid()
      ensures Attach(r, State()) == Grammar.ParseCodeblock(old(State()), force)
      decreases Fuel(State()), 19
    {
      var start := Position();
      var brace :- Accept(LeftBrace);
      var block: seq<Node>;
      if brace {
        block :- ParseStatements();
        var _ :- Eat(RightBrace);
      } else {
        if force {
          var line := lexer.CurLine();
          var position := Position();
          return Err(ParseError("Code block need braces", line, position));
        }
        var d :- ParseDeclaration();
        block := [d];
      }
      var end := Position();
      return Ok(CodeBlockNode(Span(start, end), block));
    }

    /** The generator in `parse_codeblock`: `parse_statement` until `}`. */
    method ParseStatements() returns (r: Result<seq<Node>, ParseError>)
      requires Valid()
      modifies this, lexer
      ensures r.Ok? ==> Valid()
      ensures Attach(r, State()) == StatementsFrom(old(State()))
      decreases Fuel(State()), 18
    {
      ghost var st0 := State();
      var block: seq<Node> := [];
      PrependNil(StatementsFrom(st0));
      while token.kind != RightBrace
        invariant Valid()
        invariant Fuel(State()) <= Fuel(st0)
        invariant StatementsFrom(st0) == Prepend(block, StatementsFrom(State()))
        decreases Fuel(State())
      {
        ghost var before := State();
        StatementsStep(before);
        var s := ParseStatement();
        assert Attach(s, State()) == Grammar.ParseStatement(before);
        if s.Err? {
          assert StatementsFrom(before) == Err(s.error);
          return Err(s.error);
        }
        assert StatementsFrom(before) == Prepend([s.value], StatementsFrom(State()));
        PrependPrepend(block, [s.value], StatementsFrom(State()));
        block := block + [s.value];
      }
      assert StatementsFrom(State()) == Ok(Parsed([], State()));
      assert block + [] == block;
      return Ok(block);
    }

    /** `parse_statement`. */
    method ParseStatement() returns (r: Result<Node, ParseError>)
      requires Valid()
      modifies this, lexer
      ensures r.Ok? ==> Valid()
      ensures Attach(r, State()) == Grammar.ParseStatement(old(State()))
      decreases Fuel(State()), 17
    {
      var start := Position();
      var isReturn :- Accept(KwReturn);
      if isReturn {
        var expr :- ParseExpression();
        var end := Position();
        return Ok(ReturnStatementNode(Span(start, end), expr));
      }
      var isWhile :- Accept(KwWhile);
      if isWhile {
        var cond :- ParseExpression();
        var block :- ParseCodeblock(false);
        var end := Position();
        return Ok(WhileNode(Span(start, end), cond, block));
      }
      r := ParseDeclaration();
    }

    /** `parse_declaration`. */
    method ParseDeclaration() returns (r: Result<Node, ParseError>)
      requires Valid()
      modifies this, lexer
      ensures r.Ok? ==> Valid()
      ensures Attach(r, State()) == Grammar.ParseDeclaration(old(State()))
      decreases Fuel(State()), 16
    {
      var start := Position();
      var isVar :- Accept(KwVar);
      if isVar {
        var ident :- Eat(Ident);
        var end := Position();
        return Ok(DeclarationNode(Span(start, end), ident));
      }
      r := ParseAssignment();
    }

    /** `parse_assignment`. */
    method ParseAssignment() returns (r: Result<Node, ParseError>)
      requires Valid()
      modifies this, lexer
      ensures r.Ok? ==> Valid()
      ensures Attach(r, State()) == Grammar.ParseAssignment(old(State()))
      decreases Fuel(State()), 15
    {
      var start := Position();
      var left :- ParseExpression();
      var isEquals :- Accept(Equals);
      if isEquals {
        if !left.IdentNode? {
          var line := lexer.CurLine();
          var position := Position();
          return Err(ParseError("Syntax error", line, position));
        }
        var expr :- ParseExpression();
        var end := Position();
        return Ok(AssignmentNode(Span(start, end), left.ident, expr));
      }
      return Ok(left);
    }

    /** `parse_expression`. */
    method ParseExpression() returns (r: Result<Node, ParseError>)
      requires Valid()
      modifies this, lexer
      ensures r.Ok? ==> Valid()
      ensures Attach(r, State()) == Grammar.ParseExpression(old(State()))
      decreases Fuel(State()), 14
    {
      var isParent :- Accept(LeftParent);
      if isParent {
        var e :- ParseExpression();
        var _ :- Eat(RightParent);
        return Ok(e);
      }
      r := ParseAdd();
    }

    /** `parse_expr_add`. */
    method ParseAdd() returns (r: Result<Node, ParseError>)
      requires Valid()
      modifies this, lexer
      ensures r.Ok? ==> Valid()
      ensures Attach(r, State()) == Grammar.ParseAdd(old(State()))
      decreases Fuel(State()), 13
    {
      var start := Position();
      var left :- ParseSub();
      var isOp :- Accept(BinAdd);
      if isOp {
        var right :- ParseAdd();
        var end := Position();
        return Ok(BinaryOperationNode(Span(start, end), left, Add, right));
      }
      return Ok(left);
    }

    /** `parse_expr_sub`. */
    method ParseSub() returns (r: Result<Node, ParseError>)
      requires Valid()
      modifies this, lexer
      ensures r.Ok? ==> Valid()
      ensures Attach(r, State()) == Grammar.ParseSub(old(State()))
      decreases Fuel(State()), 12
    {
      var start := Position();
      var left :- ParseMult();
      var isOp :- Accept(BinSub);
      if isOp {
        var right :- ParseAdd();
        var end := Position();
        return Ok(BinaryOperationNode(Span(start, end), left, Sub, right));
      }
      return Ok(left);
    }

    /** `parse_expr_mult`. */
    method ParseMult() returns (r: Result<Node, ParseError>)
      requires Valid()
      modifies this, lexer
      ensures r.Ok? ==> Valid()
      ensures Attach(r, State()) == Grammar.ParseMult(old(State()))
      decreases Fuel(State()), 11
    {
      var start := Position();
      var left :- ParseDiv();
      var isOp :- Accept(BinMult);
      if isOp {
        var right :- ParseMult();
        var end := Position();
        return Ok(BinaryOperationNode(Span(start, end), left, Mult, right));
      }
      return Ok(left);
    }

    /** `parse_expr_div`. */
    method ParseDiv() returns (r: Result<Node, ParseError>)
      requires Valid()
      modifies this, lexer
      ensures r.Ok? ==> Valid()
      ensures Attach(r, State()) == Grammar.ParseDiv(old(State()))
      decreases Fuel(State()), 10
    {
      var start := Position();
      var left :- ParsePower();
      var isOp :- Accept(BinDiv);
      if isOp {
        var right :- ParseMult();
        var end := Position();
        return Ok(BinaryOperationNode(Span(start, end), left, Div, right));
      }
      return Ok(left);
    }

    /** `parse_expr_power`. */
    method ParsePower() returns (r: Result<Node, ParseError>)
      requires Valid()
      modifies this, lexer
      ensures r.Ok? ==> Valid()
      ensures Attach(r, State()) == Grammar.ParsePower(old(State()))
      decreases Fuel(State()), 9
    {
      var start := Position();
      var left :- ParseFunctionCall();
      var isOp :- Accept(BinPower);
      if isOp {
        var right :- ParsePower();
        var end := Position();
        return Ok(BinaryOperationNode(Span(start, end), left, Power, right));
      }
      return Ok(left);
    }

    /** `parse_function_call`. */
    method ParseFunctionCall() returns (r: Result<Node, ParseError>)
      requires Valid()
      modifies this, lexer
      ensures r.Ok? ==> Valid()
      ensures Attach(r, State()) == Grammar.ParseFunctionCall(old(State()))
      decreases Fuel(State()), 8
    {
      var start := Position();
      var left :- ParseUnary();
      var isCall :- Accept(LeftParent);
      if isCall {
        if !left.IdentNode? {
          var line := lexer.CurLine();
          var position := Position();
          return Err(ParseError("Syntax error", line, position));
        }
        var args :- ParseCommaList(RightParent);
        var _ :- Eat(RightParent);
        var end := Position();
        return Ok(FunctionCallNode(Span(start, end), left.ident, args));
      }
      return Ok(left);
    }

    /** `parse_expr_unary`. */
    method ParseUnary() returns (r: Result<Node, ParseError>)
      requires Valid()
      modifies this, lexer
      ensures r.Ok? ==> Valid()
      ensures Attach(r, State()) == Grammar.ParseUnary(old(State()))
      decreases Fuel(State()), 7
    {
      var start := Position();
      if token.kind == Unop {
        var op :- Eat(Unop);
        var operand :- ParseFunctionCall();
        var end := Position();
        return Ok(UnaryOperationNode(Span(start, end), UnaryOperationOf(op).value, operand));
      }
      r := ParseParentExpr();
    }

    /** `parse_parent_expr`. */
    method ParseParentExpr() returns (r: Result<Node, ParseError>)
      requires Valid()
      modifies this, lexer
      ensures r.Ok? ==> Valid()
      ensures Attach(r, State()) == Grammar.ParseParentExpr(old(State()))
      decreases Fuel(State()), 6
    {
      var isParent :- Accept(LeftParent);
      if isParent {
        var e :- ParseExpression();
        var _ :- Eat(RightParent);
        return Ok(e);
      }
      r := ParseValue();
    }

    /** `parse_value`. */
    method ParseValue() returns (r: Result<Node, ParseError>)
      requires Valid()
      modifies this, lexer
      ensures r.Ok? ==> Valid()
      ensures Attach(r, State()) == Grammar.ParseValue(old(State()))
      decreases Fuel(State()), 5
    {
      var start := Position();
      if token.kind == Number {
        var value :- Eat(Number);
        var end := Position();
        return Ok(ValueNode(Span(start, end), NumberValue(value)));
      }
      if token.kind == Ident {
        var ident :- Eat(Ident);
        var end := Position();
        return Ok(IdentNode(Span(start, end), ident));
      }
      var line := lexer.GetLine(start.line);
      return Err(ParseError("Syntax error", line.value, start));
    }

    /** `parse_comma_list(close)`. */
    method ParseCommaList(close: Kind) returns (r: Result<seq<Node>, ParseError>)
      requires Valid()
      modifies this, lexer
      ensures r.Ok? ==> Valid()
      ensures Attach(r, State()) == CommaList(old(State()), close)
      decreases Fuel(State()), 31
    {
      if token.kind == close {
        return Ok([]);
      }
      var first :- ParseExpression();
      var more :- ParseMoreArgs();
      return Ok([first] + more);
    }

    /** The `while self.accept("COMMA")` loop of `parse_comma_list`: the
        expressions after the first one. */
    method ParseMoreArgs() returns (r: Result<seq<Node>, ParseError>)
      requires Valid()
      modifies this, lexer
      ensures r.Ok? ==> Valid()
      ensures Attach(r, State()) == CommaRest(old(State()))
      decreases Fuel(State()), 30
    {
      ghost var st0 := State();
      ghost var at := st0;
      var args := [];
      PrependNil(CommaRest(at));
      if Grammar.Accept(at, Comma).Err? {
        CommaFailed(at);
      }
      var more :- Accept(Comma);
      while more
        invariant Valid() && Fuel(State()) <= Fuel(st0) && WellFormed(at)
        invariant Grammar.Accept(at, Comma) == Ok(Parsed(more, State()))
        invariant CommaRest(st0) == Prepend(args, CommaRest(at))
        decreases Fuel(State())
      {
        CommaTaken(at, State());
        ghost var before := State();
        var e := ParseExpression();
        assert Attach(e, State()) == Grammar.ParseExpression(before);
        if e.Err? {
          return Err(e.error);
        }
        PrependPrepend(args, [e.value], CommaRest(State()));
        args := args + [e.value];
        at := State();
        if Grammar.Accept(at, Comma).Err? {
          CommaFailed(at);
        }
        more :- Accept(Comma);
      }
      CommaDone(at, State());
      assert args + [] == args;
      return Ok(args);
    }
  }
}
