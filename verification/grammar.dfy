/** The recursive-descent grammar of eva_gen/common/front_end/parser.py as
    functions on an explicit parser state: the lookahead token and the
    lexer's remaining input. Each rule returns the node it builds together
    with the state it leaves, or the `ParseError` the source raises. The
    `Parser` class in parser.dfy is proved to compute exactly these
    functions. */
module Grammar {
  import opened Wrappers
  import opened Lexing
  import opened Nodes
  import opened Strings

  /** The state the parser's methods share: the source text, the one-token
      lookahead (`self.token`) and what the lexer has not consumed yet. */
  datatype PState = PState(code: string, token: Token, rest: string)

  /** A rule's result and the state after it. */
  datatype Parsed<+T> = Parsed(value: T, st: PState)

  type ParseResult<+T> = Result<Parsed<T>, ParseError>

  /** The state a fresh parser starts in: the pseudo-token `_SOI` and a lexer
      that has consumed nothing. */
  function Initial(code: string): PState
  {
    PState(code, Token(Soi, ""), code)
  }

  /** The lexer hands out only tokens its rules produce; the parser relies on
      a UNOP token being the text `not`. */
  predicate WellFormed(st: PState)
  {
    st.token.kind == Unop ==> st.token.lexeme == "not"
  }

  /** How much input the parser can still consume: the remaining text, plus
      one for a lookahead that is not yet `_EOI`. Every rule but the list
      rules consumes at least one token, so this strictly decreases. */
  function Fuel(st: PState): nat
  {
    |st.rest| + if st.token.kind == Eoi then 0 else 1
  }

  /** The parser's `position` property: the lexer's offset as (line, col). */
  function Position(st: PState): LineCol
  {
    LineColOf(st.code, |st.code| - |st.rest|)
  }

  /** A `ParseError` at the lexer's current line and position. */
  function ErrorAt(st: PState, message: string): ParseError
  {
    ParseError(message, CurLineOf(st.code, |st.code| - |st.rest|), Position(st))
  }

  // ---------------------------------------------------------------------------
  // Primitives
  // ---------------------------------------------------------------------------

  /** `self.token = next(self.lexer)`, with the end of the stream turned into
      the `_EOI` pseudo-token; a lexing failure propagates. */
  function Advance(st: PState): (r: Result<PState, ParseError>)
    ensures r.Ok? ==> r.value.code == st.code && WellFormed(r.value)
    ensures r.Ok? ==> |r.value.rest| < |st.rest| || (r.value.rest == [] && r.value.token == Token(Eoi, ""))
  {
    ScanUnopIsNot(st.rest);
    match Scan(st.rest)
    case Emit(t, rest) => Ok(PState(st.code, t, rest))
    case Stop(_) => Ok(PState(st.code, Token(Eoi, ""), []))
    case NoMatch(rest) => Err(LexError(st.code, rest))
  }

  /** `eat(k)`: the lookahead's text, and the next token. */
  function Eat(st: PState, k: Kind): (r: ParseResult<string>)
    ensures r.Ok? ==> r.value.value == st.token.lexeme && WellFormed(r.value.st)
    ensures r.Ok? && k != Eoi ==> Fuel(r.value.st) < Fuel(st)
  {
    if st.token.kind == k then
      var next :- Advance(st);
      Ok(Parsed(st.token.lexeme, next))
    else if st.token.kind == Eoi then
      Err(ErrorAt(st, "Unexpected end of file, expecting " + Name(k)))
    else
      Err(ErrorAt(st, "Unexpected token " + Name(st.token.kind) + ", expecting " + Name(k)))
  }

  /** `accept(k)`: eat the lookahead when it is `k`. */
  function Accept(st: PState, k: Kind): (r: ParseResult<bool>)
    requires WellFormed(st)
    ensures r.Ok? ==> WellFormed(r.value.st)
    ensures r.Ok? && k != Eoi ==> Fuel(r.value.st) <= Fuel(st)
    ensures r.Ok? && k != Eoi && r.value.value ==> Fuel(r.value.st) < Fuel(st)
  {
    if st.token.kind == k then
      var p :- Eat(st, k);
      Ok(Parsed(true, p.st))
    else
      Ok(Parsed(false, st))
  }

  /** `xs` followed by the list a list rule produces. */
  function Prepend<T>(xs: seq<T>, r: ParseResult<seq<T>>): ParseResult<seq<T>>
  {
    match r
    case Ok(p) => Ok(Parsed(xs + p.value, p.st))
    case Err(e) => Err(e)
  }

  lemma PrependNil<T>(r: ParseResult<seq<T>>)
    ensures Prepend([], r) == r
  {
    if r.Ok? {
      assert [] + r.value.value == r.value.value;
    }
  }

  lemma PrependPrepend<T>(xs: seq<T>, ys: seq<T>, r: ParseResult<seq<T>>)
    ensures Prepend(xs, Prepend(ys, r)) == Prepend(xs + ys, r)
  {
    if r.Ok? {
      assert xs + (ys + r.value.value) == (xs + ys) + r.value.value;
    }
  }

  /** A rule that consumed at least one token and left a well-formed state. */
  predicate Consumed<T>(st: PState, r: ParseResult<T>)
  {
    r.Ok? ==> Fuel(r.value.st) < Fuel(st) && WellFormed(r.value.st)
  }

  /** A list rule, which may consume nothing. */
  predicate Kept<T>(st: PState, r: ParseResult<T>)
  {
    r.Ok? ==> Fuel(r.value.st) <= Fuel(st) && WellFormed(r.value.st)
  }

  // ---------------------------------------------------------------------------
  // The rules
  // ---------------------------------------------------------------------------

  /** `parse`: `_SOI`, then functions up to `_EOI`, all in one code block. */
  function Parse(st: PState): (r: Result<Node, ParseError>)
    requires WellFormed(st)
    ensures r.Ok? ==> r.value.CodeBlockNode?
  {
    var start := Position(st);
    var soi :- Eat(st, Soi);
    var fs :- FunctionsFrom(soi.st);
    var eoi :- Eat(fs.st, Eoi);
    Ok(CodeBlockNode(Span(start, Position(eoi.st)), fs.value))
  }

  /** The loop of `parse`: `parse_function` while the lookahead is not `_EOI`. */
  function FunctionsFrom(st: PState): (r: ParseResult<seq<Node>>)
    requires WellFormed(st)
    ensures Kept(st, r)
    ensures r.Ok? ==> r.value.st.token.kind == Eoi
    decreases Fuel(st), 21
  {
    if st.token.kind == Eoi then Ok(Parsed([], st))
    else
      var f :- ParseFunction(st);
      var fs :- FunctionsFrom(f.st);
      Ok(Parsed([f.value] + fs.value, fs.st))
  }

  /** `parse_function`: a function, an extern function, or a code block. */
  function ParseFunction(st: PState): (r: ParseResult<Node>)
    requires WellFormed(st)
    ensures Consumed(st, r)
    ensures r.Ok? ==> r.value.value.FunctionNode? || r.value.value.ExternFunctionNode? || r.value.value.CodeBlockNode?
    decreases Fuel(st), 20
  {
    var start := Position(st);
    var isExtern :- Accept(st, KwExtern);
    var isFun :- Accept(isExtern.st, KwFun);
    if isFun.value then FunctionAfterKeyword(isFun.st, start, isExtern.value)
    else ParseCodeblock(isFun.st, false)
  }

  /** The rest of `parse_function` after `fun`: the signature, then a body
      with braces unless the function is extern. */
  function FunctionAfterKeyword(st: PState, start: LineCol, isExtern: bool): (r: ParseResult<Node>)
    requires WellFormed(st)
    ensures Consumed(st, r)
    ensures r.Ok? ==> if isExtern then r.value.value.ExternFunctionNode? else r.value.value.FunctionNode?
    ensures r.Ok? ==>
      && Signature(st).Ok?
      && (r.value.value.FunctionNode? || r.value.value.ExternFunctionNode?)
      && r.value.value.name == Signature(st).value.value.0
      && r.value.value.args == Signature(st).value.value.1
      && r.value.value.span == Span(start, Position(r.value.st))
    ensures r.Ok? && isExtern ==> r.value.st == Signature(st).value.st
    ensures r.Ok? && !isExtern ==>
      && Signature(st).Ok? && r.value.value.FunctionNode?
      && var code := ParseCodeblock(Signature(st).value.st, true);
      && code.Ok? && r.value.value.body == code.value.value && r.value.st == code.value.st
    decreases Fuel(st), 20
  {
    var sig :- Signature(st);
    var (name, args) := sig.value;
    if !isExtern then
      var code :- ParseCodeblock(sig.st, true);
      Ok(Parsed(FunctionNode(Span(start, Position(code.st)), name, args, code.value), code.st))
    else
      Ok(Parsed(ExternFunctionNode(Span(start, Position(sig.st)), name, args), sig.st))
  }

  /** `name ( parameters )`, the signature of a function. */
  function Signature(st: PState): (r: ParseResult<(string, seq<Node>)>)
    requires WellFormed(st)
    ensures Consumed(st, r)
    ensures r.Ok? ==> st.token.kind == Ident && r.value.value.0 == st.token.lexeme
    ensures r.Ok? ==> Advance(st).Ok? && Parameters(Advance(st).value) == Ok(Parsed(r.value.value.1, r.value.st))
    decreases Fuel(st), 33
  {
    var name :- Eat(st, Ident);
    var params :- Parameters(name.st);
    Ok(Parsed((name.value, params.value), params.st))
  }

  /** `( parameters )`: a comma list between parentheses. */
  function Parameters(st: PState): (r: ParseResult<seq<Node>>)
    requires WellFormed(st)
    ensures Consumed(st, r)
    ensures r.Ok? ==>
      && st.token.kind == LeftParent && Advance(st).Ok?
      && var args := CommaList(Advance(st).value, RightParent);
      && args.Ok? && r.value.value == args.value.value
      && args.value.st.token.kind == RightParent
      && Advance(args.value.st) == Ok(r.value.st)
    decreases Fuel(st), 32
  {
    var lp :- Eat(st, LeftParent);
    var args :- CommaList(lp.st, RightParent);
    var rp :- Eat(args.st, RightParent);
    Ok(Parsed(args.value, rp.st))
  }

  /** `parse_codeblock(force)`: statements between braces or, unless forced,
      a single declaration. */
  function ParseCodeblock(st: PState, force: bool): (r: ParseResult<Node>)
    requires WellFormed(st)
    ensures Consumed(st, r)
    ensures r.Ok? ==> r.value.value.CodeBlockNode?
    decreases Fuel(st), 19
  {
    var start := Position(st);
    var brace :- Accept(st, LeftBrace);
    if brace.value then
      var body :- BracedStatements(brace.st);
      Ok(Parsed(CodeBlockNode(Span(start, Position(body.st)), body.value), body.st))
    else if force then
      Err(ErrorAt(brace.st, "Code block need braces"))
    else
      var d :- ParseDeclaration(brace.st);
      Ok(Parsed(CodeBlockNode(Span(start, Position(d.st)), [d.value]), d.st))
  }

  /** The statements of a braced block and its closing `}`. */
  function BracedStatements(st: PState): (r: ParseResult<seq<Node>>)
    requires WellFormed(st)
    ensures Consumed(st, r)
    decreases Fuel(st), 19
  {
    var body :- StatementsFrom(st);
    var close :- Eat(body.st, RightBrace);
    Ok(Parsed(body.value, close.st))
  }

  /** The loop of `parse_codeblock`: `parse_statement` until a `}`. */
  function StatementsFrom(st: PState): (r: ParseResult<seq<Node>>)
    requires WellFormed(st)
    ensures Kept(st, r)
    ensures r.Ok? ==> r.value.st.token.kind == RightBrace
    decreases Fuel(st), 18
  {
    if st.token.kind == RightBrace then Ok(Parsed([], st))
    else
      var s :- ParseStatement(st);
      var ss :- StatementsFrom(s.st);
      Ok(Parsed([s.value] + ss.value, ss.st))
  }

  /** `parse_statement`: `return e`, `while e block`, or a declaration. */
  function ParseStatement(st: PState): (r: ParseResult<Node>)
    requires WellFormed(st)
    ensures Consumed(st, r)
    decreases Fuel(st), 17
  {
    var start := Position(st);
    var isReturn :- Accept(st, KwReturn);
    if isReturn.value then
      var e :- ParseExpression(isReturn.st);
      Ok(Parsed(ReturnStatementNode(Span(start, Position(e.st)), e.value), e.st))
    else
      var isWhile :- Accept(isReturn.st, KwWhile);
      if isWhile.value then
        var cond :- ParseExpression(isWhile.st);
        var block :- ParseCodeblock(cond.st, false);
        Ok(Parsed(WhileNode(Span(start, Position(block.st)), cond.value, block.value), block.st))
      else
        ParseDeclaration(isWhile.st)
  }

  /** `parse_declaration`: `var x`, or an assignment. */
  function ParseDeclaration(st: PState): (r: ParseResult<Node>)
    requires WellFormed(st)
    ensures Consumed(st, r)
    decreases Fuel(st), 16
  {
    var start := Position(st);
    var isVar :- Accept(st, KwVar);
    if isVar.value then
      var ident :- Eat(isVar.st, Ident);
      Ok(Parsed(DeclarationNode(Span(start, Position(ident.st)), ident.value), ident.st))
    else
      ParseAssignment(isVar.st)
  }

  /** `parse_assignment`: an expression, and when `=` follows it, the
      expression must be an identifier and the right side follows. */
  function ParseAssignment(st: PState): (r: ParseResult<Node>)
    requires WellFormed(st)
    ensures Consumed(st, r)
    decreases Fuel(st), 15
  {
    var start := Position(st);
    var left :- ParseExpression(st);
    var isEquals :- Accept(left.st, Equals);
    if isEquals.value then
      if !left.value.IdentNode? then
        Err(ErrorAt(isEquals.st, "Syntax error"))
      else
        var e :- ParseExpression(isEquals.st);
        Ok(Parsed(AssignmentNode(Span(start, Position(e.st)), left.value.ident, e.value), e.st))
    else
      Ok(Parsed(left.value, isEquals.st))
  }

  /** `parse_expression`: a parenthesised expression, or an ADD expression. */
  function ParseExpression(st: PState): (r: ParseResult<Node>)
    requires WellFormed(st)
    ensures Consumed(st, r)
    decreases Fuel(st), 14
  {
    var lp :- Accept(st, LeftParent);
    if lp.value then
      var e :- ParseExpression(lp.st);
      var rp :- Eat(e.st, RightParent);
      Ok(Parsed(e.value, rp.st))
    else
      ParseAdd(lp.st)
  }

  /** `parse_expr_add`: `sub [+ add]`. */
  function ParseAdd(st: PState): (r: ParseResult<Node>)
    requires WellFormed(st)
    ensures Consumed(st, r)
    decreases Fuel(st), 13
  {
    var start := Position(st);
    var left :- ParseSub(st);
    var op :- Accept(left.st, BinAdd);
    if op.value then
      var right :- ParseAdd(op.st);
      Ok(Parsed(BinaryOperationNode(Span(start, Position(right.st)), left.value, Add, right.value), right.st))
    else
      Ok(Parsed(left.value, op.st))
  }

  /** `parse_expr_sub`: `mult [- add]`; the right operand re-enters ADD. */
  function ParseSub(st: PState): (r: ParseResult<Node>)
    requires WellFormed(st)
    ensures Consumed(st, r)
    decreases Fuel(st), 12
  {
    var start := Position(st);
    var left :- ParseMult(st);
    var op :- Accept(left.st, BinSub);
    if op.value then
      var right :- ParseAdd(op.st);
      Ok(Parsed(BinaryOperationNode(Span(start, Position(right.st)), left.value, Sub, right.value), right.st))
    else
      Ok(Parsed(left.value, op.st))
  }

  /** `parse_expr_mult`: `div [* mult]`. */
  function ParseMult(st: PState): (r: ParseResult<Node>)
    requires WellFormed(st)
    ensures Consumed(st, r)
    decreases Fuel(st), 11
  {
    var start := Position(st);
    var left :- ParseDiv(st);
    var op :- Accept(left.st, BinMult);
    if op.value then
      var right :- ParseMult(op.st);
      Ok(Parsed(BinaryOperationNode(Span(start, Position(right.st)), left.value, Mult, right.value), right.st))
    else
      Ok(Parsed(left.value, op.st))
  }

  /** `parse_expr_div`: `power [/ mult]`; the right operand re-enters MULT. */
  function ParseDiv(st: PState): (r: ParseResult<Node>)
    requires WellFormed(st)
    ensures Consumed(st, r)
    decreases Fuel(st), 10
  {
    var start := Position(st);
    var left :- ParsePower(st);
    var op :- Accept(left.st, BinDiv);
    if op.value then
      var right :- ParseMult(op.st);
      Ok(Parsed(BinaryOperationNode(Span(start, Position(right.st)), left.value, Div, right.value), right.st))
    else
      Ok(Parsed(left.value, op.st))
  }

  /** `parse_expr_power`: `call [** power]`. */
  function ParsePower(st: PState): (r: ParseResult<Node>)
    requires WellFormed(st)
    ensures Consumed(st, r)
    decreases Fuel(st), 9
  {
    var start := Position(st);
    var left :- ParseFunctionCall(st);
    var op :- Accept(left.st, BinPower);
    if op.value then
      var right :- ParsePower(op.st);
      Ok(Parsed(BinaryOperationNode(Span(start, Position(right.st)), left.value, Power, right.value), right.st))
    else
      Ok(Parsed(left.value, op.st))
  }

  /** `parse_function_call`: a unary expression, and when `(` follows it, the
      expression must be an identifier and the arguments follow. */
  function ParseFunctionCall(st: PState): (r: ParseResult<Node>)
    requires WellFormed(st)
    ensures Consumed(st, r)
    decreases Fuel(st), 8
  {
    var start := Position(st);
    var left :- ParseUnary(st);
    var lp :- Accept(left.st, LeftParent);
    if lp.value then CallAfterParent(lp.st, start, left.value)
    else Ok(Parsed(left.value, lp.st))
  }

  /** The rest of `parse_function_call` after `(`: the callee must be an
      identifier, and the arguments and `)` follow. */
  function CallAfterParent(st: PState, start: LineCol, callee: Node): (r: ParseResult<Node>)
    requires WellFormed(st)
    ensures Kept(st, r)
    ensures r.Ok? ==> callee.IdentNode? && r.value.value.FunctionCallNode? && r.value.value.ident == callee.ident
    ensures r.Ok? ==>
      && CommaList(st, RightParent).Ok?
      && var args := CommaList(st, RightParent).value;
      && args.st.token.kind == RightParent && Advance(args.st).Ok?
      && r.value.value.args == args.value
      && r.value.st == Advance(args.st).value
      && r.value.value.span == Span(start, Position(r.value.st))
    decreases Fuel(st), 32
  {
    if !callee.IdentNode? then
      Err(ErrorAt(st, "Syntax error"))
    else
      var args :- CommaList(st, RightParent);
      var rp :- Eat(args.st, RightParent);
      Ok(Parsed(FunctionCallNode(Span(start, Position(rp.st)), callee.ident, args.value), rp.st))
  }

  /** `parse_expr_unary`: `not call`, or a parenthesised expression or value. */
  function ParseUnary(st: PState): (r: ParseResult<Node>)
    requires WellFormed(st)
    ensures Consumed(st, r)
    decreases Fuel(st), 7
  {
    var start := Position(st);
    if st.token.kind == Unop then
      var op :- Eat(st, Unop);
      var operand :- ParseFunctionCall(op.st);
      Ok(Parsed(UnaryOperationNode(Span(start, Position(operand.st)), UnaryOperationOf(op.value).value, operand.value), operand.st))
    else
      ParseParentExpr(st)
  }

  /** `parse_parent_expr`: `( expression )`, or a value. */
  function ParseParentExpr(st: PState): (r: ParseResult<Node>)
    requires WellFormed(st)
    ensures Consumed(st, r)
    decreases Fuel(st), 6
  {
    var lp :- Accept(st, LeftParent);
    if lp.value then
      var e :- ParseExpression(lp.st);
      var rp :- Eat(e.st, RightParent);
      Ok(Parsed(e.value, rp.st))
    else
      ParseValue(lp.st)
  }

  /** `parse_value`: a number or an identifier; anything else is a syntax
      error at the current position. */
  function ParseValue(st: PState): (r: ParseResult<Node>)
    requires WellFormed(st)
    ensures Consumed(st, r)
    decreases Fuel(st), 5
  {
    var start := Position(st);
    if st.token.kind == Number then
      var v :- Eat(st, Number);
      Ok(Parsed(ValueNode(Span(start, Position(v.st)), NumberValue(v.value)), v.st))
    else if st.token.kind == Ident then
      var v :- Eat(st, Ident);
      Ok(Parsed(IdentNode(Span(start, Position(v.st)), v.value), v.st))
    else
      Err(ParseError("Syntax error", Lines(st.code)[start.line - 1], start))
  }

  /** `parse_comma_list(close)`: nothing when `close` is next, otherwise
      one or more comma-separated expressions. */
  function CommaList(st: PState, close: Kind): (r: ParseResult<seq<Node>>)
    requires WellFormed(st)
    ensures Kept(st, r)
    decreases Fuel(st), 31
  {
    if st.token.kind == close then Ok(Parsed([], st))
    else
      var first :- ParseExpression(st);
      var more :- CommaRest(first.st);
      Ok(Parsed([first.value] + more.value, more.st))
  }

  /** The `while self.accept("COMMA")` loop of `parse_comma_list`. */
  function CommaRest(st: PState): (r: ParseResult<seq<Node>>)
    requires WellFormed(st)
    ensures Kept(st, r)
    decreases Fuel(st), 30
  {
    var comma :- Accept(st, Comma);
    if comma.value then
      var e :- ParseExpression(comma.st);
      var more :- CommaRest(e.st);
      Ok(Parsed([e.value] + more.value, more.st))
    else
      Ok(Parsed([], comma.st))
  }

  /** The whole front end on a source text. */
  function ParseProgram(code: string): (r: Result<Node, ParseError>)
  {
    Parse(Initial(code))
  }

  // ---------------------------------------------------------------------------
  // One iteration of each list loop
  // ---------------------------------------------------------------------------

  lemma FunctionsStep(st: PState)
    requires WellFormed(st) && st.token.kind != Eoi
    ensures ParseFunction(st).Err? ==> FunctionsFrom(st) == Err(ParseFunction(st).error)
    ensures ParseFunction(st).Ok? ==>
      FunctionsFrom(st) == Prepend([ParseFunction(st).value.value], FunctionsFrom(ParseFunction(st).value.st))
  {
  }

  lemma StatementsStep(st: PState)
    requires WellFormed(st) && st.token.kind != RightBrace
    ensures ParseStatement(st).Err? ==> StatementsFrom(st) == Err(ParseStatement(st).error)
    ensures ParseStatement(st).Ok? ==>
      StatementsFrom(st) == Prepend([ParseStatement(st).value.value], StatementsFrom(ParseStatement(st).value.st))
  {
  }

  lemma CommaFailed(st: PState)
    requires WellFormed(st) && Accept(st, Comma).Err?
    ensures CommaRest(st) == Err(Accept(st, Comma).error)
  {
  }

  lemma CommaDone(st: PState, next: PState)
    requires WellFormed(st) && Accept(st, Comma) == Ok(Parsed(false, next))
    ensures CommaRest(st) == Ok(Parsed([], next))
  {
  }

  lemma CommaTaken(st: PState, next: PState)
    requires WellFormed(st) && Accept(st, Comma) == Ok(Parsed(true, next))
    ensures WellFormed(next)
    ensures ParseExpression(next).Err? ==> CommaRest(st) == Err(ParseExpression(next).error)
    ensures ParseExpression(next).Ok? ==>
      CommaRest(st) == Prepend([ParseExpression(next).value.value], CommaRest(ParseExpression(next).value.st))
  {
  }
}
