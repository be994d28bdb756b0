/** What the rules of eva_gen/common/front_end/parser.py promise: how `eat`
    and `accept` move the lookahead, the structural checks (braced function
    bodies, identifier targets and callees), the shape of comma lists and
    of a program, and the associativity of the expression ladder. */
module GrammarFacts {
  import opened Wrappers
  import opened Lexing
  import opened Nodes
  import opened Grammar
  import opened LexerFacts
  import Strings

  // ---------------------------------------------------------------------------
  // eat and accept
  // ---------------------------------------------------------------------------

  /** `eat(k)` on a matching lookahead returns its text and moves to the
      next token the lexer produces, or to `_EOI` when the lexer is
      exhausted. */
  lemma EatAdvances(st: PState, k: Kind)
    requires st.token.kind == k
    ensures var s := Scan(st.rest);
      && (s.Emit? ==> Eat(st, k) == Ok(Parsed(st.token.lexeme, PState(st.code, s.token, s.rest))))
      && (s.Stop? ==> Eat(st, k) == Ok(Parsed(st.token.lexeme, PState(st.code, Token(Eoi, ""), []))))
  {
  }

  /** When no rule matches, `eat(k)` fails with the lexer's error, reported
      where the skipped blanks end. */
  lemma EatLexError(st: PState, k: Kind)
    requires st.token.kind == k && Scan(st.rest).NoMatch?
    ensures Eat(st, k) == Err(LexError(st.code, SkipBlanks(st.rest)))
    ensures Eat(st, k).error.message == "Cannot lex input code"
  {
  }

  predicate StartsWith(s: string, prefix: string)
  {
    |prefix| <= |s| && s[..|prefix|] == prefix
  }

  lemma Wording(got: string, expected: string)
    ensures StartsWith("Unexpected end of file, expecting " + expected, "Unexpected end of file")
    ensures !StartsWith("Unexpected token " + got + ", expecting " + expected, "Unexpected end of file")
  {
    var m := "Unexpected token " + got + ", expecting " + expected;
    if |m| >= 22 {
      assert m[..22][11] == 't';
    }
  }

  /** `eat(k)` on any other lookahead fails at the current position, and its
      message speaks of the end of the file exactly when the lookahead is
      `_EOI`. */
  lemma EatMismatch(st: PState, k: Kind)
    requires st.token.kind != k
    ensures Eat(st, k).Err?
    ensures Eat(st, k).error.position == Position(st)
    ensures StartsWith(Eat(st, k).error.message, "Unexpected end of file") <==> st.token.kind == Eoi
  {
    Wording(Name(st.token.kind), Name(k));
  }

  /** `accept(k)` on another lookahead answers false and changes nothing. */
  lemma AcceptMiss(st: PState, k: Kind)
    requires WellFormed(st) && st.token.kind != k
    ensures Accept(st, k) == Ok(Parsed(false, st))
  {
  }

  /** `accept(k)` on a matching lookahead answers true after moving exactly
      one token on, as `eat(k)` does; it fails only where `eat` does. */
  lemma AcceptHit(st: PState, k: Kind)
    requires WellFormed(st) && st.token.kind == k
    ensures Eat(st, k).Ok? ==> Accept(st, k) == Ok(Parsed(true, Eat(st, k).value.st))
    ensures Eat(st, k).Err? ==> Accept(st, k) == Err(Eat(st, k).error)
  {
  }

  // ---------------------------------------------------------------------------
  // Programs
  // ---------------------------------------------------------------------------

  /** What `parse_function` may return: a function, an extern function or a
      code block. */
  predicate TopLevel(n: Node)
  {
    n.FunctionNode? || n.ExternFunctionNode? || n.CodeBlockNode?
  }

  /** Every statement `parse` collects is what `parse_function` returns. */
  lemma {:induction false} FunctionsAreTopLevel(st: PState)
    requires WellFormed(st)
    ensures FunctionsFrom(st).Ok? ==> forall n <- FunctionsFrom(st).value.value :: TopLevel(n)
    decreases Fuel(st)
  {
    if st.token.kind != Eoi {
      var f := ParseFunction(st);
      if f.Ok? {
        FunctionsStep(st);
        FunctionsAreTopLevel(f.value.st);
      }
    }
  }

  /** A parsed program is one code block of top-level statements. */
  lemma ProgramIsTopLevel(code: string)
    ensures ParseProgram(code).Ok? ==>
      && ParseProgram(code).value.CodeBlockNode?
      && forall n <- ParseProgram(code).value.block :: TopLevel(n)
  {
    var r := ParseProgram(code);
    if r.Ok? {
      var soi := Eat(Initial(code), Soi);
      assert soi.Ok?;
      var fs := FunctionsFrom(soi.value.st);
      assert fs.Ok?;
      assert r.value.block == fs.value.value;
      FunctionsAreTopLevel(soi.value.st);
    }
  }

  /** The state after the last token: `_EOI` with nothing left. */
  function AtEnd(code: string): PState
  {
    PState(code, Token(Eoi, ""), [])
  }

  /** On empty or blank input the first `eat` reaches the end at once. */
  lemma BlankStart(code: string)
    requires AllBlank(code)
    ensures Eat(Initial(code), Soi) == Ok(Parsed("", AtEnd(code)))
  {
    BlankInputEnds(code);
    assert Advance(Initial(code)) == Ok(AtEnd(code));
  }

  /** When `_SOI` is followed by the end, `parse` returns the empty block. */
  lemma ParseNothing(st: PState)
    requires WellFormed(st) && Eat(st, Soi) == Ok(Parsed("", AtEnd(st.code)))
    ensures Parse(st) == Ok(CodeBlockNode(Span(Position(st), Position(AtEnd(st.code))), []))
  {
    var eoi := AtEnd(st.code);
    assert FunctionsFrom(eoi) == Ok(Parsed([], eoi));
    assert Eat(eoi, Eoi) == Ok(Parsed("", eoi));
  }

  /** A source text that is empty or blank is the empty program, spanning
      from the start to wherever the resolver puts the end. */
  lemma BlankProgram(code: string)
    requires AllBlank(code)
    ensures ParseProgram(code) == Ok(CodeBlockNode(Span(LineColOf(code, 0), LineColOf(code, |code|)), []))
  {
    BlankStart(code);
    ParseNothing(Initial(code));
    EndPositions(code);
  }

  lemma EndPositions(code: string)
    ensures Position(Initial(code)) == LineColOf(code, 0)
    ensures Position(AtEnd(code)) == LineColOf(code, |code|)
  {
    assert |code| - |code| == 0;
  }

  /** The empty program starts and ends at line 1, column 1. */
  lemma EmptyProgram()
    ensures ParseProgram("") == Ok(CodeBlockNode(Span(LineCol(1, 1), LineCol(1, 1)), []))
  {
    BlankProgram("");
    OneLinePosition("", 0);
  }

  // ---------------------------------------------------------------------------
  // Functions and code blocks
  // ---------------------------------------------------------------------------

  /** A forced code block without `{` fails at once with "Code block need
      braces". */
  lemma ForcedBlockNeedsBraces(st: PState)
    requires WellFormed(st) && st.token.kind != LeftBrace
    ensures ParseCodeblock(st, true) == Err(ErrorAt(st, "Code block need braces"))
  {
    AcceptMiss(st, LeftBrace);
  }

  /** A function that is not extern needs a braced body: after its
      signature, anything but `{` is the braces error. */
  lemma FunctionNeedsBraces(st: PState, start: LineCol)
    requires WellFormed(st)
    requires Signature(st).Ok? && Signature(st).value.st.token.kind != LeftBrace
    ensures FunctionAfterKeyword(st, start, false) == Err(ErrorAt(Signature(st).value.st, "Code block need braces"))
  {
    ForcedBlockNeedsBraces(Signature(st).value.st);
  }

  /** An extern function has no body: it ends with its signature, and
      nothing after the closing parenthesis is consumed. */
  lemma ExternHasNoBody(st: PState, start: LineCol)
    requires WellFormed(st) && Signature(st).Ok?
    ensures var sig := Signature(st).value;
      FunctionAfterKeyword(st, start, true) == Ok(Parsed(ExternFunctionNode(Span(start, Position(sig.st)), sig.value.0, sig.value.1), sig.st))
  {
  }

  /** A function's body is a braced code block: the block rule saw `{`, and
      the body is the forced code block that follows the signature. */
  lemma FunctionBodyIsBraced(st: PState, start: LineCol)
    requires WellFormed(st)
    ensures var r := FunctionAfterKeyword(st, start, false);
      r.Ok? ==>
        && Signature(st).Ok?
        && Signature(st).value.st.token.kind == LeftBrace
        && r.value.value.body.CodeBlockNode?
        && ParseCodeblock(Signature(st).value.st, true).Ok?
        && r.value.value.body == ParseCodeblock(Signature(st).value.st, true).value.value
  {
    var r := FunctionAfterKeyword(st, start, false);
    if r.Ok? && Signature(st).value.st.token.kind != LeftBrace {
      FunctionNeedsBraces(st, start);
    }
  }

  /** `fun name(params) body` is a `FunctionNode` named by the IDENT after
      `fun`, whose parameters are the comma list between the parentheses
      and whose body is the forced code block after `)`; its span runs
      between the parser's positions before `fun` and after the body. */
  lemma FunctionResult(st: PState)
    requires WellFormed(st) && st.token.kind == KwFun
    ensures var r := ParseFunction(st);
      r.Ok? ==>
        && Advance(st).Ok? && var name := Advance(st).value;
        && name.token.kind == Ident && Advance(name).Ok?
        && var lp := Advance(name).value;
        && lp.token.kind == LeftParent && Advance(lp).Ok?
        && var args := CommaList(Advance(lp).value, RightParent);
        && args.Ok? && args.value.st.token.kind == RightParent && Advance(args.value.st).Ok?
        && var code := ParseCodeblock(Advance(args.value.st).value, true);
        && code.Ok?
        && r.value == Parsed(FunctionNode(Span(Position(st), Position(code.value.st)), name.token.lexeme, args.value.value, code.value.value), code.value.st)
  {
    AcceptMiss(st, KwExtern);
    AcceptHit(st, KwFun);
    var r := ParseFunction(st);
    if r.Ok? {
      var name := Advance(st).value;
      assert r == FunctionAfterKeyword(name, Position(st), false);
    }
  }

  /** A function's parameters are whole expressions, not only names: the
      first one is the expression that follows `(`. */
  lemma ParametersAreExpressions(st: PState)
    requires WellFormed(st)
    ensures var r := Parameters(st);
      r.Ok? && Advance(st).value.token.kind != RightParent ==>
        && ParseExpression(Advance(st).value).Ok?
        && |r.value.value| >= 1
        && r.value.value[0] == ParseExpression(Advance(st).value).value.value
  {
    var r := Parameters(st);
    if r.Ok? && Advance(st).value.token.kind != RightParent {
      NonEmptyCommaList(Advance(st).value, RightParent);
    }
  }

  /** `extern fun name(params)` is an `ExternFunctionNode` with the same
      name and parameters and no body; parsing stops after `)`. A keyword
      `extern` that `fun` does not follow is dropped, and what follows is
      parsed as an unforced code block. */
  lemma ExternResult(st: PState)
    requires WellFormed(st) && st.token.kind == KwExtern
    ensures var r := ParseFunction(st);
      Advance(st).Ok? ==>
        var kw := Advance(st).value;
        && (kw.token.kind != KwFun ==> r == ParseCodeblock(kw, false))
        && (kw.token.kind == KwFun && r.Ok? ==>
          && Advance(kw).Ok?
          && var name := Advance(kw).value;
          && name.token.kind == Ident && Advance(name).Ok?
          && var lp := Advance(name).value;
          && lp.token.kind == LeftParent && Advance(lp).Ok?
          && var args := CommaList(Advance(lp).value, RightParent);
          && args.Ok? && args.value.st.token.kind == RightParent && Advance(args.value.st).Ok?
          && var end := Advance(args.value.st).value;
          && r.value == Parsed(ExternFunctionNode(Span(Position(st), Position(end)), name.token.lexeme, args.value.value), end))
  {
    AcceptHit(st, KwExtern);
    if Advance(st).Ok? {
      var kw := Advance(st).value;
      assert Accept(st, KwExtern) == Ok(Parsed(true, kw));
      if kw.token.kind != KwFun {
        AcceptMiss(kw, KwFun);
      } else {
        AcceptHit(kw, KwFun);
        var r := ParseFunction(st);
        if r.Ok? {
          var name := Advance(kw).value;
          assert r == FunctionAfterKeyword(name, Position(st), true);
        }
      }
    }
  }

  /** Without braces, a code block that is not forced holds exactly one
      statement, the declaration that follows, and fails where it does. */
  lemma UnbracedBlockIsOneDeclaration(st: PState)
    requires WellFormed(st) && st.token.kind != LeftBrace
    ensures var r := ParseCodeblock(st, false);
      && (r.Ok? <==> ParseDeclaration(st).Ok?)
      && (r.Ok? ==> r.value.value.block == [ParseDeclaration(st).value.value] && r.value.st == ParseDeclaration(st).value.st)
  {
    AcceptMiss(st, LeftBrace);
  }

  // ---------------------------------------------------------------------------
  // Assignments and calls
  // ---------------------------------------------------------------------------

  /** The target of `=` must be an identifier: any other left side is a
      syntax error at the token after `=`. */
  lemma AssignmentNeedsIdent(st: PState)
    requires WellFormed(st)
    requires ParseExpression(st).Ok?
    requires var left := ParseExpression(st).value;
      Accept(left.st, Equals).Ok? && Accept(left.st, Equals).value.value && !left.value.IdentNode?
    ensures ParseAssignment(st) == Err(ErrorAt(Accept(ParseExpression(st).value.st, Equals).value.st, "Syntax error"))
  {
  }

  /** An assignment takes the identifier's name as its target and the
      expression after `=` as its value, and parsing stops after that
      expression; whatever is not an assignment is the expression itself,
      unchanged. */
  lemma AssignmentResult(st: PState)
    requires WellFormed(st)
    ensures var r := ParseAssignment(st);
      r.Ok? ==>
        && ParseExpression(st).Ok?
        && var left := ParseExpression(st).value;
        || ( && left.value.IdentNode? && left.st.token.kind == Equals && Advance(left.st).Ok?
             && var e := ParseExpression(Advance(left.st).value);
             && e.Ok?
             && r.value == Parsed(AssignmentNode(Span(Position(st), Position(e.value.st)), left.value.ident, e.value.value), e.value.st))
        || (r.value.value == left.value && r.value.st.token.kind != Equals)
  {
    var r := ParseAssignment(st);
    if r.Ok? {
      var left := ParseExpression(st).value;
      var isEquals := Accept(left.st, Equals).value;
      if isEquals.value {
        AcceptHit(left.st, Equals);
      } else {
        assert r.value == Parsed(left.value, isEquals.st);
        if left.st.token.kind == Equals {
          AcceptHit(left.st, Equals);
        }
      }
    }
  }

  /** Only an identifier can be called. */
  lemma CallNeedsIdent(st: PState, start: LineCol, callee: Node)
    requires WellFormed(st) && !callee.IdentNode?
    ensures CallAfterParent(st, start, callee) == Err(ErrorAt(st, "Syntax error"))
  {
  }

  /** A call names the identifier its callee expression is, takes the comma
      list after `(` as its arguments, and ends one token past the `)` that
      closes them; an expression followed by anything but `(` is returned
      unchanged. */
  lemma CallResult(st: PState)
    requires WellFormed(st)
    ensures var r := ParseFunctionCall(st);
      r.Ok? ==>
        && ParseUnary(st).Ok?
        && var callee := ParseUnary(st).value;
        || ( && callee.value.IdentNode? && callee.st.token.kind == LeftParent && Advance(callee.st).Ok?
             && var args := CommaList(Advance(callee.st).value, RightParent);
             && args.Ok? && args.value.st.token.kind == RightParent && Advance(args.value.st).Ok?
             && var end := Advance(args.value.st).value;
             && r.value == Parsed(FunctionCallNode(Span(Position(st), Position(end)), callee.value.ident, args.value.value), end))
        || (r.value.value == callee.value && r.value.st.token.kind != LeftParent)
  {
    var r := ParseFunctionCall(st);
    if r.Ok? {
      var left := ParseUnary(st).value;
      var lp := Accept(left.st, LeftParent).value;
      if lp.value {
        AcceptHit(left.st, LeftParent);
        assert r == CallAfterParent(lp.st, Position(st), left.value);
      } else {
        assert r.value == Parsed(left.value, lp.st);
        if left.st.token.kind == LeftParent {
          AcceptHit(left.st, LeftParent);
        }
      }
    }
  }

  // ---------------------------------------------------------------------------
  // Statements, declarations and primary expressions
  // ---------------------------------------------------------------------------

  /** `return e` is a return statement of the expression after the keyword.
      Its span runs between the parser's positions before and after: from
      the lexer's offset once `return` is the lookahead to its offset once
      the token after the expression is. */
  lemma ReturnResult(st: PState)
    requires WellFormed(st) && st.token.kind == KwReturn
    ensures var r := ParseStatement(st);
      r.Ok? ==>
        && Advance(st).Ok? && ParseExpression(Advance(st).value).Ok?
        && var e := ParseExpression(Advance(st).value).value;
        && r.value.value == ReturnStatementNode(Span(Position(st), Position(e.st)), e.value)
        && r.value.st == e.st
  {
    AcceptHit(st, KwReturn);
  }

  /** `while cond block` is a loop of the expression after the keyword and
      the code block after it, which need not be braced. */
  lemma WhileResult(st: PState)
    requires WellFormed(st) && st.token.kind == KwWhile
    ensures var r := ParseStatement(st);
      r.Ok? ==>
        && Advance(st).Ok? && ParseExpression(Advance(st).value).Ok?
        && var cond := ParseExpression(Advance(st).value).value;
        && ParseCodeblock(cond.st, false).Ok?
        && var body := ParseCodeblock(cond.st, false).value;
        && r.value.value == WhileNode(Span(Position(st), Position(body.st)), cond.value, body.value)
        && r.value.st == body.st
  {
    AcceptMiss(st, KwReturn);
    AcceptHit(st, KwWhile);
  }

  /** Any other statement is a declaration, an assignment or an expression. */
  lemma OtherStatement(st: PState)
    requires WellFormed(st) && st.token.kind != KwReturn && st.token.kind != KwWhile
    ensures ParseStatement(st) == ParseDeclaration(st)
  {
    AcceptMiss(st, KwReturn);
    AcceptMiss(st, KwWhile);
  }

  /** `var x` declares the identifier after the keyword; `var` followed by
      anything else is an error at that token. Without `var` the statement
      is an assignment or an expression. */
  lemma DeclarationResult(st: PState)
    requires WellFormed(st)
    ensures var r := ParseDeclaration(st);
      && (st.token.kind == KwVar && r.Ok? ==>
            && Advance(st).Ok? && Advance(st).value.token.kind == Ident
            && Advance(Advance(st).value).Ok?
            && r.value.st == Advance(Advance(st).value).value
            && r.value.value == DeclarationNode(Span(Position(st), Position(r.value.st)), Advance(st).value.token.lexeme))
      && (st.token.kind == KwVar && Advance(st).Ok? && Advance(st).value.token.kind != Ident ==>
            r.Err? && r.error.position == Position(Advance(st).value))
      && (st.token.kind != KwVar ==> r == ParseAssignment(st))
  {
    if st.token.kind == KwVar {
      AcceptHit(st, KwVar);
      if Advance(st).Ok? && Advance(st).value.token.kind != Ident {
        EatMismatch(Advance(st).value, Ident);
      }
    } else {
      AcceptMiss(st, KwVar);
    }
  }

  /** A parenthesised expression is the expression inside, and parsing
      resumes after the `)`: the parentheses leave no node behind. */
  predicate ParenthesisedAs(st: PState, r: ParseResult<Node>)
    requires WellFormed(st)
  {
    r.Ok? ==>
      && Advance(st).Ok? && ParseExpression(Advance(st).value).Ok?
      && var e := ParseExpression(Advance(st).value).value;
      && e.st.token.kind == RightParent
      && Advance(e.st).Ok?
      && r.value == Parsed(e.value, Advance(e.st).value)
  }

  /** `parse_expression`: a leading `(` makes a parenthesised expression,
      after which the rule returns at once, so `(1) + 2` stops before the
      `+`; anything else is a sum. */
  lemma ExpressionResult(st: PState)
    requires WellFormed(st)
    ensures st.token.kind == LeftParent ==> ParenthesisedAs(st, ParseExpression(st))
    ensures st.token.kind != LeftParent ==> ParseExpression(st) == ParseAdd(st)
  {
    if st.token.kind == LeftParent {
      AcceptHit(st, LeftParent);
      var r := ParseExpression(st);
      if r.Ok? {
        var e := ParseExpression(Advance(st).value).value;
        if e.st.token.kind != RightParent {
          EatMismatch(e.st, RightParent);
        }
      }
    } else {
      AcceptMiss(st, LeftParent);
    }
  }

  /** `parse_parent_expr`: the same parenthesised form, otherwise a value. */
  lemma ParentExprResult(st: PState)
    requires WellFormed(st)
    ensures st.token.kind == LeftParent ==> ParenthesisedAs(st, ParseParentExpr(st))
    ensures st.token.kind != LeftParent ==> ParseParentExpr(st) == ParseValue(st)
  {
    if st.token.kind == LeftParent {
      AcceptHit(st, LeftParent);
      var r := ParseParentExpr(st);
      if r.Ok? {
        var e := ParseExpression(Advance(st).value).value;
        if e.st.token.kind != RightParent {
          EatMismatch(e.st, RightParent);
        }
      }
    } else {
      AcceptMiss(st, LeftParent);
    }
  }

  /** `not` applies to the call expression after it, and the lexer makes
      `not` the only unary operator; anything else goes on to a
      parenthesised expression or a value. */
  lemma UnaryResult(st: PState)
    requires WellFormed(st)
    ensures var r := ParseUnary(st);
      && (st.token.kind == Unop && r.Ok? ==>
            && Advance(st).Ok? && ParseFunctionCall(Advance(st).value).Ok?
            && var operand := ParseFunctionCall(Advance(st).value).value;
            && r.value.value == UnaryOperationNode(Span(Position(st), Position(operand.st)), Not, operand.value)
            && r.value.st == operand.st)
      && (st.token.kind != Unop ==> r == ParseParentExpr(st))
  {
    var r := ParseUnary(st);
    if st.token.kind == Unop && r.Ok? {
      UnaryOperationOfValue(Not);
      var op := Eat(st, Unop).value;
      assert op.value == "not";
      var operand := ParseFunctionCall(op.st).value;
      assert r.value == Parsed(UnaryOperationNode(Span(Position(st), Position(operand.st)), Not, operand.value), operand.st);
    }
  }

  /** A value is a number, read as `float` reads its text, or an
      identifier; any other token is a syntax error at the parser's current
      position, the lexer's offset once that token is the lookahead. */
  lemma ValueResult(st: PState)
    requires WellFormed(st)
    ensures var r := ParseValue(st);
      && (r.Ok? ==> Advance(st).Ok? && r.value.st == Advance(st).value)
      && (st.token.kind == Number && r.Ok? ==>
            r.value.value == ValueNode(Span(Position(st), Position(r.value.st)), NumberValue(st.token.lexeme)))
      && (st.token.kind == Ident && r.Ok? ==>
            r.value.value == IdentNode(Span(Position(st), Position(r.value.st)), st.token.lexeme))
      && (st.token.kind == Number || st.token.kind == Ident ==> (r.Ok? <==> Advance(st).Ok?))
      && (st.token.kind != Number && st.token.kind != Ident ==> r == Err(ErrorAt(st, "Syntax error")))
  {
  }

  // ---------------------------------------------------------------------------
  // Comma lists
  // ---------------------------------------------------------------------------

  /** A list that starts at its closing token is empty and consumes nothing. */
  lemma EmptyCommaList(st: PState, close: Kind)
    requires WellFormed(st) && st.token.kind == close
    ensures CommaList(st, close) == Ok(Parsed([], st))
  {
  }

  /** Any other list holds at least one expression, the first of which is
      the expression at the start. */
  lemma NonEmptyCommaList(st: PState, close: Kind)
    requires WellFormed(st) && st.token.kind != close
    ensures var r := CommaList(st, close);
      r.Ok? ==>
        && ParseExpression(st).Ok?
        && |r.value.value| >= 1
        && r.value.value[0] == ParseExpression(st).value.value
  {
    var r := CommaList(st, close);
    if r.Ok? {
      var first := ParseExpression(st).value;
      var more := CommaRest(first.st).value;
      assert r.value.value == [first.value] + more.value;
    }
  }

  /** After the comma loop the lookahead is not a comma. */
  lemma {:induction false} CommaRestStops(st: PState)
    requires WellFormed(st)
    ensures CommaRest(st).Ok? ==> CommaRest(st).value.st.token.kind != Comma
    decreases Fuel(st)
  {
    var comma := Accept(st, Comma);
    if comma.Ok? && comma.value.value {
      CommaTaken(st, comma.value.st);
      var e := ParseExpression(comma.value.st);
      if e.Ok? {
        CommaRestStops(e.value.st);
      }
    } else if comma.Ok? {
      CommaDone(st, comma.value.st);
      if st.token.kind == Comma {
        AcceptHit(st, Comma);
      }
    }
  }

  // ---------------------------------------------------------------------------
  // The expression ladder
  // ---------------------------------------------------------------------------

  /** Where each level of the ladder stops: it consumes every operator of
      its own level and of the levels below it. */
  predicate PowerStop(k: Kind) { k != BinPower }
  predicate DivStop(k: Kind) { PowerStop(k) && k != BinDiv }
  predicate MultStop(k: Kind) { DivStop(k) && k != BinMult }
  predicate SubStop(k: Kind) { MultStop(k) && k != BinSub }
  predicate AddStop(k: Kind) { SubStop(k) && k != BinAdd }

  lemma {:induction false} PowerStops(st: PState)
    requires WellFormed(st)
    ensures ParsePower(st).Ok? ==> PowerStop(ParsePower(st).value.st.token.kind)
    decreases Fuel(st)
  {
    var left := ParseFunctionCall(st);
    if left.Ok? {
      var s1 := left.value.st;
      if s1.token.kind == BinPower {
        AcceptHit(s1, BinPower);
        var op := Eat(s1, BinPower);
        if op.Ok? {
          PowerStops(op.value.st);
        }
      } else {
        AcceptMiss(s1, BinPower);
      }
    }
  }

  lemma {:induction false} DivStops(st: PState)
    requires WellFormed(st)
    ensures ParseDiv(st).Ok? ==> DivStop(ParseDiv(st).value.st.token.kind)
    decreases Fuel(st), 0
  {
    PowerStops(st);
    var left := ParsePower(st);
    if left.Ok? {
      var s1 := left.value.st;
      if s1.token.kind == BinDiv {
        AcceptHit(s1, BinDiv);
        var op := Eat(s1, BinDiv);
        if op.Ok? {
          MultStops(op.value.st);
        }
      } else {
        AcceptMiss(s1, BinDiv);
      }
    }
  }

  lemma {:induction false} MultStops(st: PState)
    requires WellFormed(st)
    ensures ParseMult(st).Ok? ==> MultStop(ParseMult(st).value.st.token.kind)
    decreases Fuel(st), 1
  {
    DivStops(st);
    var left := ParseDiv(st);
    if left.Ok? {
      var s1 := left.value.st;
      if s1.token.kind == BinMult {
        AcceptHit(s1, BinMult);
        var op := Eat(s1, BinMult);
        if op.Ok? {
          MultStops(op.value.st);
        }
      } else {
        AcceptMiss(s1, BinMult);
      }
    }
  }

  lemma {:induction false} SubStops(st: PState)
    requires WellFormed(st)
    ensures ParseSub(st).Ok? ==> SubStop(ParseSub(st).value.st.token.kind)
    decreases Fuel(st), 0
  {
    MultStops(st);
    var left := ParseMult(st);
    if left.Ok? {
      var s1 := left.value.st;
      if s1.token.kind == BinSub {
        AcceptHit(s1, BinSub);
        var op := Eat(s1, BinSub);
        if op.Ok? {
          AddStops(op.value.st);
        }
      } else {
        AcceptMiss(s1, BinSub);
      }
    }
  }

  /** After an ADD expression the lookahead is no binary arithmetic
      operator: the ladder consumes all of them. */
  lemma {:induction false} AddStops(st: PState)
    requires WellFormed(st)
    ensures ParseAdd(st).Ok? ==> AddStop(ParseAdd(st).value.st.token.kind)
    decreases Fuel(st), 1
  {
    SubStops(st);
    var left := ParseSub(st);
    if left.Ok? {
      var s1 := left.value.st;
      if s1.token.kind == BinAdd {
        AcceptHit(s1, BinAdd);
        var op := Eat(s1, BinAdd);
        if op.Ok? {
          AddStops(op.value.st);
        }
      } else {
        AcceptMiss(s1, BinAdd);
      }
    }
  }

  /** `a - b - c` is `a - (b - c)`: the right operand of `-` is parsed by
      the ADD rule, which takes the second `-` with it. */
  lemma SubNestsRight(st: PState, s1: PState, s2: PState, s3: PState, s4: PState, a: Node, b: Node, c: Node)
    requires WellFormed(st)
    requires ParseMult(st) == Ok(Parsed(a, s1)) && s1.token.kind == BinSub && Advance(s1) == Ok(s2)
    requires ParseMult(s2) == Ok(Parsed(b, s3)) && s3.token.kind == BinSub && Advance(s3) == Ok(s4)
    requires ParseAdd(s4).Ok? && ParseAdd(s4).value.value == c
    ensures ParseAdd(st).Ok?
    ensures var n := ParseAdd(st).value.value;
      && n.BinaryOperationNode? && n.left == a && n.op == Sub
      && n.right.BinaryOperationNode? && n.right.left == b && n.right.op == Sub && n.right.right == c
  {
    var s5 := ParseAdd(s4).value.st;
    AddStops(s4);
    AcceptMiss(s5, BinAdd);
    assert ParseSub(s2).Ok? && ParseSub(s2).value.st == s5;
    assert ParseAdd(s2) == Ok(Parsed(ParseSub(s2).value.value, s5));
    assert ParseSub(st).Ok? && ParseSub(st).value.st == s5;
  }

  /** `a + b + c` is `a + (b + c)`: ADD is right-recursive. */
  lemma AddNestsRight(st: PState, s1: PState, s2: PState, s3: PState, s4: PState, a: Node, b: Node, c: Node)
    requires WellFormed(st)
    requires ParseSub(st) == Ok(Parsed(a, s1)) && s1.token.kind == BinAdd && Advance(s1) == Ok(s2)
    requires ParseSub(s2) == Ok(Parsed(b, s3)) && s3.token.kind == BinAdd && Advance(s3) == Ok(s4)
    requires ParseAdd(s4).Ok? && ParseAdd(s4).value.value == c
    ensures ParseAdd(st).Ok?
    ensures var n := ParseAdd(st).value.value;
      && n.BinaryOperationNode? && n.left == a && n.op == Add
      && n.right.BinaryOperationNode? && n.right.left == b && n.right.op == Add && n.right.right == c
  {
    assert ParseAdd(s2).Ok? && ParseAdd(s2).value.value.right == c;
  }

  /** `a * b * c` is `a * (b * c)`: MULT is right-recursive. */
  lemma MultNestsRight(st: PState, s1: PState, s2: PState, s3: PState, s4: PState, a: Node, b: Node, c: Node)
    requires WellFormed(st)
    requires ParseDiv(st) == Ok(Parsed(a, s1)) && s1.token.kind == BinMult && Advance(s1) == Ok(s2)
    requires ParseDiv(s2) == Ok(Parsed(b, s3)) && s3.token.kind == BinMult && Advance(s3) == Ok(s4)
    requires ParseMult(s4).Ok? && ParseMult(s4).value.value == c
    ensures ParseMult(st).Ok?
    ensures var n := ParseMult(st).value.value;
      && n.BinaryOperationNode? && n.left == a && n.op == Mult
      && n.right.BinaryOperationNode? && n.right.left == b && n.right.op == Mult && n.right.right == c
  {
    assert ParseMult(s2).Ok? && ParseMult(s2).value.value.right == c;
  }

  /** `a ** b ** c` is `a ** (b ** c)`: POWER is right-recursive. */
  lemma PowerNestsRight(st: PState, s1: PState, s2: PState, s3: PState, s4: PState, a: Node, b: Node, c: Node)
    requires WellFormed(st)
    requires ParseFunctionCall(st) == Ok(Parsed(a, s1)) && s1.token.kind == BinPower && Advance(s1) == Ok(s2)
    requires ParseFunctionCall(s2) == Ok(Parsed(b, s3)) && s3.token.kind == BinPower && Advance(s3) == Ok(s4)
    requires ParsePower(s4).Ok? && ParsePower(s4).value.value == c
    ensures ParsePower(st).Ok?
    ensures var n := ParsePower(st).value.value;
      && n.BinaryOperationNode? && n.left == a && n.op == Power
      && n.right.BinaryOperationNode? && n.right.left == b && n.right.op == Power && n.right.right == c
  {
    assert ParsePower(s2).Ok? && ParsePower(s2).value.value.right == c;
  }

  /** `a / b / c` is `a / (b / c)`: the right operand of `/` is parsed by
      the MULT rule, which takes the second `/` with it. */
  lemma DivNestsRight(st: PState, s1: PState, s2: PState, s3: PState, s4: PState, a: Node, b: Node, c: Node)
    requires WellFormed(st)
    requires ParsePower(st) == Ok(Parsed(a, s1)) && s1.token.kind == BinDiv && Advance(s1) == Ok(s2)
    requires ParsePower(s2) == Ok(Parsed(b, s3)) && s3.token.kind == BinDiv && Advance(s3) == Ok(s4)
    requires ParseMult(s4).Ok? && ParseMult(s4).value.value == c
    ensures ParseDiv(st).Ok?
    ensures var n := ParseDiv(st).value.value;
      && n.BinaryOperationNode? && n.left == a && n.op == Div
      && n.right.BinaryOperationNode? && n.right.left == b && n.right.op == Div && n.right.right == c
  {
    var s5 := ParseMult(s4).value.st;
    MultStops(s4);
    AcceptMiss(s5, BinMult);
    assert ParseDiv(s2).Ok? && ParseDiv(s2).value.st == s5;
    assert ParseMult(s2) == Ok(Parsed(ParseDiv(s2).value.value, s5));
  }

  /** `a / b * c` is `a / (b * c)`: the right operand of `/` is a whole MULT
      expression. */
  lemma DivTakesProduct(st: PState, s1: PState, s2: PState, s3: PState, s4: PState, a: Node, b: Node, c: Node)
    requires WellFormed(st)
    requires ParsePower(st) == Ok(Parsed(a, s1)) && s1.token.kind == BinDiv && Advance(s1) == Ok(s2)
    requires ParsePower(s2) == Ok(Parsed(b, s3)) && s3.token.kind == BinMult && Advance(s3) == Ok(s4)
    requires ParseMult(s4).Ok? && ParseMult(s4).value.value == c
    ensures ParseDiv(st).Ok?
    ensures var n := ParseDiv(st).value.value;
      && n.BinaryOperationNode? && n.left == a && n.op == Div
      && n.right.BinaryOperationNode? && n.right.left == b && n.right.op == Mult && n.right.right == c
  {
    AcceptMiss(s3, BinDiv);
    assert ParseDiv(s2) == Ok(Parsed(b, s3));
    assert ParseMult(s2).Ok? && ParseMult(s2).value.value.right == c;
  }

  // ---------------------------------------------------------------------------
  // A lone operand and a parenthesised sum
  // ---------------------------------------------------------------------------

  /** An operand that no `(` follows is not a call: it passes through
      unchanged. */
  lemma CallPassesThrough(st: PState, n: Node, s: PState)
    requires WellFormed(st) && ParseUnary(st) == Ok(Parsed(n, s)) && s.token.kind != LeftParent
    ensures ParseFunctionCall(st) == Ok(Parsed(n, s))
  {
    AcceptMiss(s, LeftParent);
  }

  /** Each level of the ladder returns an operand that its own operator
      does not follow unchanged. */
  lemma PowerPassesThrough(st: PState, n: Node, s: PState)
    requires WellFormed(st) && ParseFunctionCall(st) == Ok(Parsed(n, s)) && s.token.kind != BinPower
    ensures ParsePower(st) == Ok(Parsed(n, s))
  {
    AcceptMiss(s, BinPower);
  }

  lemma DivPassesThrough(st: PState, n: Node, s: PState)
    requires WellFormed(st) && ParsePower(st) == Ok(Parsed(n, s)) && s.token.kind != BinDiv
    ensures ParseDiv(st) == Ok(Parsed(n, s))
  {
    AcceptMiss(s, BinDiv);
  }

  lemma MultPassesThrough(st: PState, n: Node, s: PState)
    requires WellFormed(st) && ParseDiv(st) == Ok(Parsed(n, s)) && s.token.kind != BinMult
    ensures ParseMult(st) == Ok(Parsed(n, s))
  {
    AcceptMiss(s, BinMult);
  }

  lemma SubPassesThrough(st: PState, n: Node, s: PState)
    requires WellFormed(st) && ParseMult(st) == Ok(Parsed(n, s)) && s.token.kind != BinSub
    ensures ParseSub(st) == Ok(Parsed(n, s))
  {
    AcceptMiss(s, BinSub);
  }

  lemma AddPassesThrough(st: PState, n: Node, s: PState)
    requires WellFormed(st) && ParseSub(st) == Ok(Parsed(n, s)) && s.token.kind != BinAdd
    ensures ParseAdd(st) == Ok(Parsed(n, s))
  {
    AcceptMiss(s, BinAdd);
  }

  /** A value followed by `)` is a whole expression. */
  lemma ValueBeforeParent(st: PState, n: Node, s: PState)
    requires WellFormed(st) && ParseValue(st) == Ok(Parsed(n, s)) && s.token.kind == RightParent
    requires st.token.kind != LeftParent && st.token.kind != Unop
    ensures ParseExpression(st) == Ok(Parsed(n, s))
  {
    ParentExprResult(st);
    UnaryResult(st);
    CallPassesThrough(st, n, s);
    PowerPassesThrough(st, n, s);
    DivPassesThrough(st, n, s);
    MultPassesThrough(st, n, s);
    SubPassesThrough(st, n, s);
    AddPassesThrough(st, n, s);
    ExpressionResult(st);
  }

  /** The states the parser passes through on `(1)+2`. */
  lemma ParenthesisedSumStates()
    ensures var code := "(1)+2";
      && Advance(PState(code, Token(LeftParent, "("), "1)+2")) == Ok(PState(code, Token(Number, "1"), ")+2"))
      && Advance(PState(code, Token(Number, "1"), ")+2")) == Ok(PState(code, Token(RightParent, ")"), "+2"))
      && Advance(PState(code, Token(RightParent, ")"), "+2")) == Ok(PState(code, Token(BinAdd, "+"), "2"))
  {
    ParenthesisedSumTokens();
  }

  /** A parenthesised value is that value, and parsing resumes after the
      `)`, whatever follows it. */
  lemma ParenthesisedValue(st: PState, s1: PState, s2: PState, s3: PState, n: Node)
    requires WellFormed(st) && st.token.kind == LeftParent && Advance(st) == Ok(s1)
    requires s1.token.kind != LeftParent && s1.token.kind != Unop
    requires ParseValue(s1) == Ok(Parsed(n, s2)) && s2.token.kind == RightParent && Advance(s2) == Ok(s3)
    ensures ParseExpression(st) == Ok(Parsed(n, s3))
  {
    ValueBeforeParent(s1, n, s2);
    AcceptHit(st, LeftParent);
    assert Accept(st, LeftParent) == Ok(Parsed(true, s1));
    assert Eat(s2, RightParent) == Ok(Parsed(s2.token.lexeme, s3));
  }

  /** The value of the literal `1`, for `ParenthesisedSumStops`. */
  lemma OneIsOne()
    ensures NumberValue("1") == 1.0
  {
    NumberValueOfInteger(1);
    assert Strings.NatToString(1) == "1";
  }

  /** `(1)+2` read as an expression is the number 1 alone: after `)` the
      rule returns, and the `+` is left as the lookahead. */
  lemma ParenthesisedSumStops()
    ensures var r := ParseExpression(PState("(1)+2", Token(LeftParent, "("), "1)+2"));
      && r.Ok?
      && r.value.value.ValueNode? && r.value.value.value == 1.0
      && r.value.st == PState("(1)+2", Token(BinAdd, "+"), "2")
  {
    var code := "(1)+2";
    var st := PState(code, Token(LeftParent, "("), "1)+2");
    var s1 := PState(code, Token(Number, "1"), ")+2");
    var s2 := PState(code, Token(RightParent, ")"), "+2");
    var s3 := PState(code, Token(BinAdd, "+"), "2");
    ParenthesisedSumStates();
    ValueResult(s1);
    var n := ParseValue(s1).value.value;
    OneIsOne();
    ParenthesisedValue(st, s1, s2, s3, n);
  }
}
