# eva_gen front end, modelled in Dafny

This project models the front end of the eva_gen toy language, which has three parts:

- the tokenizer `eva_gen/common/front_end/lexer.py`;
- the recursive-descent parser `eva_gen/common/front_end/parser.py`;
- the syntax tree `eva_gen/common/ast/nodes.py`.

The files are:

| file | what it holds |
|---|---|
| `wrappers.dfy` | `Option` and `Result`. These stand in for Python's exceptions (`StopIteration`, `ParseError`, `ValueError`). |
| `strings.dfy` | `str.split("\n")` and the join that inverts it, `' ' * n`, and `str(int)` with the reading that inverts it. |
| `lexing.dfy` | The tokenizer. It has the ordered rule table (`Rules`) and one anchored prefix matcher per rule. `FirstMatch` is the first rule that matches, and `Scan` is one call of `__next__` on the remaining input. It also has the line/column resolver `LineColOf`, the `ParseError` text `Render`, and the class `Lexer`. `Lexer` has the fields `rest` and `position`, and its `Next` method runs the source's two loops. `Next` is proved to perform exactly one `Scan` step. |
| `lexer_facts.dfy` | What table order decides on concrete inputs: `not`, `**`, `<=`, `variable`, `0x1F`, blanks. It also covers the resolver quirk and the layout of the caret diagnostic. |
| `nodes.dfy` | The node variants as one datatype, and `visit` as the sequence of nodes the visitor is called on. It also has the indented `display` rendering and `__eq__`. |
| `grammar.dfy` | The grammar as pure functions over a parser state `PState(code, token, rest)`. Each rule returns its node and the state it leaves, or the `ParseError` the source raises. Termination is by the remaining input (`Fuel`) and a rank per rule. |
| `grammar_facts.dfy` | What the grammar promises: `eat`/`accept` behaviour, the structure of a program, the result of each rule, structural errors, comma lists, and the stopping point and associativity of the operator ladder. It also parses `(1)+2` as a concrete example. |
| `parser.dfy` | The class `Parser`. It holds a lexer and a mutable lookahead `token`, and has one method per parser method. Each method is proved to return what the matching `Grammar` function returns, and to leave the same state. |

Five behaviours of the code are kept as they are:

- **Positions are not monotonic.** The resolver does not count the `\n` characters when it accumulates line lengths. A later offset can therefore resolve to an earlier column on the same line, and a node's span need not satisfy `start <= end`. `LexerFacts.PositionsNotMonotonic` exhibits such a pair of offsets, and no lemma claims span ordering.
- **Only decimal numbers.** The NUMBER pattern lists hexadecimal (`0x…`) and octal (`0o…`) alternatives after the decimal one. The decimal alternative always matches the leading `0`, so the other two are never chosen. `LexerFacts.NumberIsDecimal` proves that every NUMBER token is decimal, and `LexerFacts.HexLiteralSplits` shows `0x1F` lexing as NUMBER `0` followed by IDENT `x1F`.
- **Spans and error positions are lexer offsets.** Both ends of every span, and every error position, are the parser's `position` property: the lexer's offset once the current lookahead has been lexed. A node's span therefore starts after its first token, and ends after the token that follows the node (`Grammar.Position`).
- **`LESSEQUAL` and `GREATEREQUAL` are never emitted.** Both kinds are in the rule table, but `<` and `>` come earlier in it and match first (`LexerFacts.NoEmittedLessEqual`).
- **Function parameters are expressions.** `parse_function` reads its parameters with `parse_comma_list`, which parses full expressions, so `fun f(1) {}` is accepted with a value node as its parameter (`GrammarFacts.ParametersAreExpressions`). A keyword `extern` that `fun` does not follow is likewise dropped without an error (`GrammarFacts.ExternResult`).

## Model

| member | source | states |
|---|---|---|
| Lexing.Match | eva_gen/common/front_end/lexer.py:18-43 | Every pattern of the table, when it matches, matches a non-empty prefix of the input. |
| Lexing.FirstMatchIn | eva_gen/common/front_end/lexer.py:58-60 | The hit found from index `i` on is a real, non-empty prefix of the input and never a pseudo-kind. |
| Lexing.FirstMatchInIsFirst | eva_gen/common/front_end/lexer.py:58-60 | The hit is the lowest-indexed rule whose pattern matches, and every earlier rule fails. No hit means no rule matches. Table order decides, not match length. |
| Lexing.FirstMatchIsFirst | eva_gen/common/front_end/lexer.py:58-60 | The same on the lexer's own table. |
| Lexing.Scan | eva_gen/common/front_end/lexer.py:52-69 | One `__next__` step never grows the remaining input. Emitting a token strictly shortens it, and the end of the stream leaves nothing. |
| Lexing.ScanSkipStep | eva_gen/common/front_end/lexer.py:63-65 | An `_IGNORE` match is blank and dropped, and scanning continues after it. |
| Lexing.ScanEmitStep | eva_gen/common/front_end/lexer.py:66 | Any other first match is emitted with its matched text, and the rest follows it. |
| Lexing.ScanNoMatchStep | eva_gen/common/front_end/lexer.py:67-69 | Non-empty input that no rule matches is a failure at that point. |
| Lexing.ScanSkipsBlanks | eva_gen/common/front_end/lexer.py:55-68 | Everything skipped before a token is blank. Blank or empty input ends the stream. A failure is reported at input that no rule matches. |
| Lexing.ScanEmitsFirstMatch | eva_gen/common/front_end/lexer.py:56-66 | An emitted token is never `_IGNORE`. It is non-empty, and it is exactly the first rule's match where the blanks end, followed by the new rest. |
| Lexing.ScanUnopIsNot | eva_gen/common/front_end/lexer.py:19 | A UNOP token is always the text `not`. |
| Lexing.ResolveReachesFirst | eva_gen/common/front_end/lexer.py:74-83 | The resolver loop stops at the first line whose newline-free running end reaches the offset, or falls back to the last line. |
| Lexing.LineColOf | eva_gen/common/front_end/lexer.py:71-83 | The line is always between 1 and the number of lines. It is the first line whose running end, with newlines not counted, reaches the offset. The column is the offset minus the running start, plus one. Past every end, the result is the last line and its length. |
| Lexing.Lexer.constructor | eva_gen/common/front_end/lexer.py:47-50 | A fresh lexer has consumed nothing. |
| Lexing.Lexer.FindRule | eva_gen/common/front_end/lexer.py:58-60 | The `for` loop over the table returns the first matching rule (`FirstMatchIn`). |
| Lexing.Lexer.Next | eva_gen/common/front_end/lexer.py:52-69 | `__next__` performs exactly one `Scan` step. It yields the token, the end of the stream, or the "Cannot lex input code" error. `rest` stays a suffix of `code`, `position == len(code) - len(rest)`, and `position` never decreases. |
| Lexing.Lexer.Consume | eva_gen/common/front_end/lexer.py:61-62 | After a match, `rest` loses exactly the lexeme and `position` is recomputed from it without decreasing. |
| Lexing.Lexer.Fail | eva_gen/common/front_end/lexer.py:69 | The lexing error carries the message "Cannot lex input code", the current source line and the current position. |
| Lexing.Lexer.LinecolFromPosition | eva_gen/common/front_end/lexer.py:71-83 | The accumulator loop computes `LineColOf`. |
| Lexing.Lexer.Linecol | eva_gen/common/front_end/lexer.py:85-87 | `linecol` is `LineColOf` at the current offset. |
| Lexing.Lexer.GetLine | eva_gen/common/front_end/lexer.py:89-93 | Line `n` exists exactly when `1 <= n <= line count`, and is then the n-th `\n`-separated piece. Otherwise there is none (the source raises ValueError). |
| Lexing.Lexer.CurLine | eva_gen/common/front_end/lexer.py:95-97 | `cur_line` always finds its line, and it is the line holding the current offset. |
| Strings.Lines | eva_gen/common/front_end/lexer.py:73 | `split("\n")` is never empty. No piece holds a newline, and joining the pieces with newlines gives the text back. |
| Strings.LinesOfJoin | eva_gen/common/front_end/lexer.py:73 | Splitting also inverts joining, for newline-free pieces. |
| Strings.Spaces | eva_gen/common/front_end/lexer.py:13 | `' ' * n` is `n` spaces, or nothing when `n` is not positive. |
| Strings.NatToString | eva_gen/common/front_end/lexer.py:12 | `str(n)` is non-empty decimal digits with no leading zero, one digit exactly when `n < 10`. |
| Strings.DigitsValueOfNatToString | eva_gen/common/front_end/lexer.py:12 | Reading back the digits of `str(n)` gives `n`. |
| Strings.IntToString | eva_gen/common/front_end/lexer.py:12 | `str(i)` starts with `-` exactly for negative `i`. |
| Strings.IntToStringReadsBack | eva_gen/common/front_end/lexer.py:12 | After the optional sign, `str(i)` is decimal digits only, and reading it back gives `i`: `int(str(i)) == i`. |
| LexerFacts.FirstMatchInAt | eva_gen/common/front_end/lexer.py:58-60 | If every rule before `j` fails and rule `j` matches, rule `j` is the hit. |
| LexerFacts.FirstMatchAt | eva_gen/common/front_end/lexer.py:58-60 | The same on the lexer's table. |
| LexerFacts.LiteralMiss | eva_gen/common/front_end/lexer.py:19-29 | A fixed-text pattern fails on input that starts with a different character. |
| LexerFacts.RulesMissBefore | eva_gen/common/front_end/lexer.py:19-30 | Rules before IDENT whose leading character differs from the input's all fail. |
| LexerFacts.SymbolsMissBefore | eva_gen/common/front_end/lexer.py:32-41 | The punctuation rules up to a given one fail on input that does not start with one of their characters. |
| LexerFacts.EmittedHit | eva_gen/common/front_end/lexer.py:56-66 | Every emitted token is the first match of the table on some suffix of the input. |
| LexerFacts.LessEqualShadowed | eva_gen/common/front_end/lexer.py:33-36 | Wherever `<=` matches, `<` matches too, and likewise for `>=` and `>`. |
| LexerFacts.LessEqualLate | eva_gen/common/front_end/lexer.py:33-36 | LESSEQUAL and GREATEREQUAL sit after LESSTHAN and GREATERTHAN in the table. |
| LexerFacts.HitNotLessEqual | eva_gen/common/front_end/lexer.py:33-36 | The first match is never LESSEQUAL or GREATEREQUAL. |
| LexerFacts.NoEmittedLessEqual | eva_gen/common/front_end/lexer.py:33-36 | No token of those two kinds is ever emitted. |
| LexerFacts.PowerMatch | eva_gen/common/front_end/lexer.py:19-20 | On `**…`, UNOP fails and BIN_POWER matches two characters. |
| LexerFacts.PowerHit | eva_gen/common/front_end/lexer.py:20-21 | On `**…`, BIN_POWER is the first match, ahead of BIN_MULT. |
| LexerFacts.PowerIsOneToken | eva_gen/common/front_end/lexer.py:20-21 | `**` lexes as one BIN_POWER token, never two BIN_MULT. |
| LexerFacts.NotIsUnop | eva_gen/common/front_end/lexer.py:19 | `not` lexes as UNOP, not IDENT. |
| LexerFacts.VarMatch | eva_gen/common/front_end/lexer.py:19-25 | On `variable`, the rules before KW_VAR fail and KW_VAR matches three characters. |
| LexerFacts.VarHit | eva_gen/common/front_end/lexer.py:25 | On `variable`, KW_VAR is the first match. |
| LexerFacts.IdentMatch | eva_gen/common/front_end/lexer.py:30 | A word whose first letter starts no earlier rule is matched by IDENT, as far as identifier characters go. |
| LexerFacts.IdentHit | eva_gen/common/front_end/lexer.py:30 | Such a word's first match is IDENT. |
| LexerFacts.VarToken | eva_gen/common/front_end/lexer.py:25 | `variable` first yields KW_VAR `var`, leaving `iable`. |
| LexerFacts.IableToken | eva_gen/common/front_end/lexer.py:30 | `iable` yields IDENT `iable`. |
| LexerFacts.VariableSplits | eva_gen/common/front_end/lexer.py:25-30 | `variable` lexes as KW_VAR then IDENT `iable`: no word-boundary check. |
| LexerFacts.LessThanMisses | eva_gen/common/front_end/lexer.py:19-33 | On `<=`, every rule before LESSTHAN fails. |
| LexerFacts.LessThanHit | eva_gen/common/front_end/lexer.py:33-34 | On `<=`, LESSTHAN is the first match, of length one. |
| LexerFacts.EqualsHit | eva_gen/common/front_end/lexer.py:32 | On `=`, EQUALS is the first match. |
| LexerFacts.LessThanToken | eva_gen/common/front_end/lexer.py:33-34 | `<=` first yields LESSTHAN `<`, leaving `=`. |
| LexerFacts.EqualsToken | eva_gen/common/front_end/lexer.py:32 | `=` yields EQUALS. |
| LexerFacts.LessEqualSplits | eva_gen/common/front_end/lexer.py:32-34 | `<=` lexes as LESSTHAN then EQUALS. |
| LexerFacts.DigitIsNumber | eva_gen/common/front_end/lexer.py:30-31 | Input starting with a digit is first matched by NUMBER. |
| LexerFacts.NumberHitIsDecimal | eva_gen/common/front_end/lexer.py:31 | What NUMBER matches is always `digits` or `digits.digits`. |
| LexerFacts.NumberIsDecimal | eva_gen/common/front_end/lexer.py:31 | Every NUMBER token is decimal, so the hexadecimal and octal alternatives are unreachable. |
| LexerFacts.SingleDigitToken | eva_gen/common/front_end/lexer.py:30-31 | A digit followed by neither a digit nor `.` lexes as a one-character NUMBER, and the rest follows it. |
| LexerFacts.ZeroToken | eva_gen/common/front_end/lexer.py:31 | `0x1F` first yields NUMBER `0`, leaving `x1F`. |
| LexerFacts.X1FToken | eva_gen/common/front_end/lexer.py:30 | `x1F` yields IDENT `x1F`. |
| LexerFacts.HexLiteralSplits | eva_gen/common/front_end/lexer.py:30-31 | `0x1F` lexes as NUMBER `0` then IDENT `x1F`. |
| LexerFacts.WordsMiss | eva_gen/common/front_end/lexer.py:19-31 | The word, number and operator rules fail on input that starts with none of their first characters. |
| LexerFacts.ParenthesisedSumTokens | eva_gen/common/front_end/lexer.py:18-43 | `(1)+2` lexes as `(`, NUMBER `1`, `)` and `+`, leaving `2`. |
| LexerFacts.BlankMissesWords | eva_gen/common/front_end/lexer.py:19-31 | Word, number and operator rules fail on input starting with a blank. |
| LexerFacts.BlankMatch | eva_gen/common/front_end/lexer.py:19-42 | On input starting with a blank, only `_IGNORE` matches, and it takes the whole blank run. |
| LexerFacts.BlankIsIgnored | eva_gen/common/front_end/lexer.py:42 | A blank run is first matched by `_IGNORE`. |
| LexerFacts.BlankInputEnds | eva_gen/common/front_end/lexer.py:53-68 | Input that is empty or only blanks ends the stream rather than failing. |
| LexerFacts.OneLinePosition | eva_gen/common/front_end/lexer.py:71-78 | On a single line, offset `p` resolves to line 1, column `p + 1`. |
| LexerFacts.NewlinesNotCounted | eva_gen/common/front_end/lexer.py:75-80 | `curpos` ignores newlines: offset 2 of `a\nb` resolves to line 2, column 2. |
| LexerFacts.PositionsNotMonotonic | eva_gen/common/front_end/lexer.py:71-83 | A later offset can resolve to an earlier column on the same line, so a span's start can lie after its end. |
| LexerFacts.NatToStringNoNewline | eva_gen/common/front_end/lexer.py:12 | `str(n)` holds no newline. |
| LexerFacts.IntToStringNoNewline | eva_gen/common/front_end/lexer.py:12 | `str(i)` holds no newline. |
| LexerFacts.RenderLines | eva_gen/common/front_end/lexer.py:11-14 | The error text is exactly three lines. They are the message, then `str(line) + "| " + source line`, then `col + len(str(line))` spaces and `^`. |
| LexerFacts.CaretColumn | eva_gen/common/front_end/lexer.py:12-14 | The caret line is spaces then `^`. When the column lies in the line, the `^` stands under the character before column `col` of the source line. |
| Nodes.UnaryOperationOf | eva_gen/common/ast/nodes.py:29-31 | `UnaryOperation(value)` finds the member with that value, and only `print` and `not` have one. |
| Nodes.UnaryOperationOfValue | eva_gen/common/ast/nodes.py:29-31 | Looking a member up by its own value finds it. |
| Nodes.NumberValueOfInteger | eva_gen/common/ast/nodes.py:85 | A literal without a fraction is worth the integer it spells: `float(str(n)) == n`. |
| Nodes.NumberValueOfDecimal | eva_gen/common/ast/nodes.py:85 | For any digit strings `w` and non-empty `f`, the literal `w.f` is worth `w + f / 10^|f|`. |
| Nodes.NumberValueOfFraction | eva_gen/common/ast/nodes.py:85 | The fraction digits count: `1.5` is worth 1.5. |
| Nodes.VisitIsChildrenThenSelf | eva_gen/common/ast/nodes.py:44-45 | `visit` calls the visitor on the node's children in field order and then on the node itself. A node without an override only calls it on itself, so an assignment skips its expression. The last call is always the node. |
| Nodes.VisitIsShallow | eva_gen/common/ast/nodes.py:100-103 | `visit` does not recurse: every node visited before the node itself is one of its immediate children (`Children`), and is strictly smaller than the node. |
| Nodes.Indent | eva_gen/common/ast/nodes.py:69 | `n * '  '` is `2n` spaces. |
| Nodes.DisplayShape | eva_gen/common/ast/nodes.py:68-69 | `display(n)` starts with exactly `n` indents and ends with a newline. |
| Nodes.DisplayEndsWithNewline | eva_gen/common/ast/nodes.py:105-106 | Every rendering ends with a newline, so the children's renderings are whole lines. |
| Nodes.DisplayAllEndsWithNewline | eva_gen/common/ast/nodes.py:145-147 | A non-empty statement list renders to whole lines. |
| Nodes.DisplayAllAppend | eva_gen/common/ast/nodes.py:145-147 | A block renders its statements in order: appending a statement appends its rendering. |
| Nodes.SameNodeIsEquality | eva_gen/common/ast/nodes.py:47-50 | `__eq__` holds exactly when the nodes have the same variant and all fields, span included, are equal. |
| Nodes.SameNodesIsEquality | eva_gen/common/ast/nodes.py:47-50 | Lists of nodes compare equal exactly when they are equal. |
| Nodes.ValueEqualityIsByValue | eva_gen/common/ast/nodes.py:82-85 | Value nodes compare by number, not by text: `1` and `1.0` give equal nodes. |
| Grammar.Advance | eva_gen/common/front_end/parser.py:45-48 | Fetching the next token keeps the text and yields a well-formed lookahead. Either the remaining input shrinks, or the stream has ended at `_EOI` with nothing left. |
| Grammar.Eat | eva_gen/common/front_end/parser.py:41-54 | A successful `eat` returns the lookahead's text and strictly reduces the remaining fuel. |
| Grammar.Accept | eva_gen/common/front_end/parser.py:59-63 | `accept` never increases the fuel, and strictly reduces it when it answers true. |
| Grammar.Parse | eva_gen/common/front_end/parser.py:26-36 | `parse` returns a code block. |
| Grammar.FunctionsFrom | eva_gen/common/front_end/parser.py:30-34 | The loop of `parse` stops exactly at `_EOI`. |
| Grammar.ParseFunction | eva_gen/common/front_end/parser.py:65-78 | `parse_function` consumes input and returns a function, an extern function or a code block. |
| Grammar.FunctionAfterKeyword | eva_gen/common/front_end/parser.py:68-77 | After `fun`, the result is an extern function exactly when `extern` came first, otherwise a function. Its name and parameters are the signature's, and its span runs from the start position to the position where it ends. An extern function ends with its signature. A function's body is the forced code block after the signature, and the function ends where that block does. |
| Grammar.Signature | eva_gen/common/front_end/parser.py:69-72 | The signature consumes input. Its name is the lexeme of the IDENT lookahead, and its parameters and end state are those of the parameter list after that token. |
| Grammar.Parameters | eva_gen/common/front_end/parser.py:70-72 | The parenthesised parameter list consumes input. It starts at `(`, holds exactly the comma list after it, that list stops at `)`, and parsing resumes one lexer step past that `)`. |
| Grammar.ParseCodeblock | eva_gen/common/front_end/parser.py:80-95 | `parse_codeblock` consumes input and returns a code block. |
| Grammar.BracedStatements | eva_gen/common/front_end/parser.py:82-89 | A braced body consumes input. |
| Grammar.StatementsFrom | eva_gen/common/front_end/parser.py:84-88 | The statement loop stops exactly at `}`. |
| Grammar.ParseStatement | eva_gen/common/front_end/parser.py:97-106 | `parse_statement` consumes input. |
| Grammar.ParseDeclaration | eva_gen/common/front_end/parser.py:108-113 | `parse_declaration` consumes input. |
| Grammar.ParseAssignment | eva_gen/common/front_end/parser.py:115-124 | `parse_assignment` consumes input. |
| Grammar.ParseExpression | eva_gen/common/front_end/parser.py:126-132 | `parse_expression` consumes input. |
| Grammar.ParseAdd | eva_gen/common/front_end/parser.py:134-140 | `parse_expr_add` consumes input. |
| Grammar.ParseSub | eva_gen/common/front_end/parser.py:142-148 | `parse_expr_sub` consumes input. |
| Grammar.ParseMult | eva_gen/common/front_end/parser.py:150-156 | `parse_expr_mult` consumes input. |
| Grammar.ParseDiv | eva_gen/common/front_end/parser.py:158-164 | `parse_expr_div` consumes input. |
| Grammar.ParsePower | eva_gen/common/front_end/parser.py:166-172 | `parse_expr_power` consumes input. |
| Grammar.ParseFunctionCall | eva_gen/common/front_end/parser.py:174-184 | `parse_function_call` consumes input. |
| Grammar.CallAfterParent | eva_gen/common/front_end/parser.py:177-183 | A call succeeds only for an identifier callee, and it names that identifier. Its arguments are the comma list after `(`, which stops at `)`; parsing resumes one lexer step past that `)`, and the span runs from the start position to there. |
| Grammar.ParseUnary | eva_gen/common/front_end/parser.py:186-192 | `parse_expr_unary` consumes input. |
| Grammar.ParseParentExpr | eva_gen/common/front_end/parser.py:194-199 | `parse_parent_expr` consumes input. |
| Grammar.ParseValue | eva_gen/common/front_end/parser.py:201-210 | `parse_value` consumes input. |
| Grammar.CommaList | eva_gen/common/front_end/parser.py:212-219 | `parse_comma_list` never increases the fuel. |
| Grammar.CommaRest | eva_gen/common/front_end/parser.py:216-217 | The comma loop never increases the fuel. |
| Grammar.FunctionsStep | eva_gen/common/front_end/parser.py:30-32 | One iteration of the `parse` loop: the function parsed, then the rest of the loop, or the function's error. |
| Grammar.StatementsStep | eva_gen/common/front_end/parser.py:84-86 | One iteration of the statement loop, in the same way. |
| Grammar.CommaFailed | eva_gen/common/front_end/parser.py:216 | A failing `accept(COMMA)` fails the comma loop. |
| Grammar.CommaDone | eva_gen/common/front_end/parser.py:216 | A lookahead other than a comma ends the loop with nothing more. |
| Grammar.CommaTaken | eva_gen/common/front_end/parser.py:216-217 | After a comma, the loop takes one expression and goes on. |
| GrammarFacts.EatAdvances | eva_gen/common/front_end/parser.py:43-49 | `eat(k)` on a `k` lookahead returns its text and moves to the lexer's next token, or to `_EOI` when the lexer is exhausted. |
| GrammarFacts.EatLexError | eva_gen/common/front_end/parser.py:45-46 | A lexing failure inside `eat` propagates as "Cannot lex input code" at the input that no rule matches. |
| GrammarFacts.Wording | eva_gen/common/front_end/parser.py:50-54 | Only the end-of-file message starts with "Unexpected end of file". |
| GrammarFacts.EatMismatch | eva_gen/common/front_end/parser.py:50-54 | `eat(k)` on another kind fails at the current position. Its message says "Unexpected end of file" exactly when the lookahead is `_EOI`. |
| GrammarFacts.AcceptMiss | eva_gen/common/front_end/parser.py:59-63 | `accept(k)` on another kind answers false and leaves the state unchanged. |
| GrammarFacts.AcceptHit | eva_gen/common/front_end/parser.py:59-63 | `accept(k)` on `k` answers true after exactly one `eat`, or fails exactly as that `eat` does. |
| GrammarFacts.FunctionsAreTopLevel | eva_gen/common/front_end/parser.py:30-34 | Everything the `parse` loop collects is a function, an extern function or a code block. |
| GrammarFacts.ProgramIsTopLevel | eva_gen/common/front_end/parser.py:26-36 | A parsed program is one code block of top-level statements. |
| GrammarFacts.BlankStart | eva_gen/common/front_end/parser.py:28 | On blank input, eating `_SOI` reaches `_EOI` with nothing left. |
| GrammarFacts.ParseNothing | eva_gen/common/front_end/parser.py:26-36 | When `_SOI` is followed by `_EOI`, `parse` returns an empty block spanning start to end. |
| GrammarFacts.BlankProgram | eva_gen/common/front_end/parser.py:26-36 | Blank input parses to an empty code block from offset 0 to the end. |
| GrammarFacts.EndPositions | eva_gen/common/front_end/parser.py:18-20 | The position before anything is consumed is offset 0, and at the end it is the text's length. |
| GrammarFacts.EmptyProgram | eva_gen/common/front_end/parser.py:26-36 | The empty program is an empty block spanning (1, 1) to (1, 1). |
| GrammarFacts.ForcedBlockNeedsBraces | eva_gen/common/front_end/parser.py:90-93 | A forced block without `{` fails with "Code block need braces" at the current position. |
| GrammarFacts.FunctionNeedsBraces | eva_gen/common/front_end/parser.py:73-75 | A non-extern function whose signature is not followed by `{` fails with "Code block need braces". |
| GrammarFacts.ExternHasNoBody | eva_gen/common/front_end/parser.py:76-77 | An extern function ends after its signature. |
| GrammarFacts.FunctionBodyIsBraced | eva_gen/common/front_end/parser.py:73-75 | A parsed non-extern function had `{` after its signature, and its body is a code block: exactly the forced code block parsed after the signature. |
| GrammarFacts.ParametersAreExpressions | eva_gen/common/front_end/parser.py:71 | A function's parameter list holds whole expressions: unless `)` follows `(` at once, its first parameter is the expression parsed after `(`. |
| GrammarFacts.FunctionResult | eva_gen/common/front_end/parser.py:66-75 | `fun` gives the whole `FunctionNode`: named by the IDENT after `fun`, with the comma list between the parentheses as parameters and the forced code block after `)` as body, ending where that block ends. |
| GrammarFacts.ExternResult | eva_gen/common/front_end/parser.py:66-78 | `extern fun` gives the whole `ExternFunctionNode` with the same name and parameters, ending one lexer step past `)`. An `extern` not followed by `fun` is dropped, and what follows is parsed as an unforced code block. |
| GrammarFacts.UnbracedBlockIsOneDeclaration | eva_gen/common/front_end/parser.py:90-95 | An unbraced, unforced block succeeds exactly when one declaration parses, and then holds exactly that declaration. |
| GrammarFacts.AssignmentNeedsIdent | eva_gen/common/front_end/parser.py:118-121 | `=` after a non-identifier is "Syntax error" at the token after `=`. |
| GrammarFacts.AssignmentResult | eva_gen/common/front_end/parser.py:115-124 | A parsed assignment is the whole `AssignmentNode`: it targets the identifier on its left, its value is the expression parsed after `=`, its span runs to the position after that expression, and parsing stops there. Otherwise the result is the expression itself, with no `=` following. |
| GrammarFacts.CallNeedsIdent | eva_gen/common/front_end/parser.py:177-180 | `(` after a non-identifier is "Syntax error". |
| GrammarFacts.CallResult | eva_gen/common/front_end/parser.py:174-184 | A parsed call is the whole `FunctionCallNode`: it names the identifier its callee is, its arguments are the comma list after `(`, and it ends one lexer step past the `)` that closes them. Otherwise the result is the unary expression itself, with no `(` following. |
| GrammarFacts.ReturnResult | eva_gen/common/front_end/parser.py:97-101 | After `return`, the statement is a return node holding the expression that follows the keyword. Its span runs from the parser's position with `return` as the lookahead to its position with the token after the expression as the lookahead. |
| GrammarFacts.WhileResult | eva_gen/common/front_end/parser.py:97-105 | After `while`, the statement is a loop of the expression after the keyword and the (possibly unbraced) code block after that. |
| GrammarFacts.OtherStatement | eva_gen/common/front_end/parser.py:97-106 | A statement that starts with neither `return` nor `while` is exactly `parse_declaration`. |
| GrammarFacts.DeclarationResult | eva_gen/common/front_end/parser.py:108-113 | `var x` declares the identifier after the keyword and stops after it. `var` followed by anything else fails at that token. Without `var`, the rule is exactly `parse_assignment`. |
| GrammarFacts.ExpressionResult | eva_gen/common/front_end/parser.py:126-132 | A leading `(` yields the inner expression, which must be followed by `)`, and parsing resumes after the `)` with no operator consumed. Anything else is exactly `parse_expr_add`. |
| GrammarFacts.ParentExprResult | eva_gen/common/front_end/parser.py:194-199 | The same parenthesised form; otherwise exactly `parse_value`. |
| GrammarFacts.UnaryResult | eva_gen/common/front_end/parser.py:186-192 | A UNOP lookahead yields a `not` node over the call expression after it. Anything else is exactly `parse_parent_expr`. |
| GrammarFacts.ValueResult | eva_gen/common/front_end/parser.py:201-210 | A NUMBER is a value node worth `float` of its text, and an IDENT is an identifier node with its name. Both consume one token. Any other lookahead is "Syntax error" at the current line and position. |
| GrammarFacts.EmptyCommaList | eva_gen/common/front_end/parser.py:213-214 | The list is empty, and nothing is consumed, when the close token is next. |
| GrammarFacts.NonEmptyCommaList | eva_gen/common/front_end/parser.py:215-219 | Otherwise the list holds at least one expression, the first being the expression at the start. |
| GrammarFacts.CommaRestStops | eva_gen/common/front_end/parser.py:216-219 | After the comma loop the lookahead is not a comma. |
| GrammarFacts.PowerStops | eva_gen/common/front_end/parser.py:166-172 | After `parse_expr_power` the lookahead is not `**`. |
| GrammarFacts.DivStops | eva_gen/common/front_end/parser.py:158-164 | After `parse_expr_div` the lookahead is neither `**` nor `/`. |
| GrammarFacts.MultStops | eva_gen/common/front_end/parser.py:150-156 | After `parse_expr_mult` the lookahead is none of `**`, `/`, `*`. |
| GrammarFacts.SubStops | eva_gen/common/front_end/parser.py:142-148 | After `parse_expr_sub` the lookahead is none of `**`, `/`, `*`, `-`. |
| GrammarFacts.AddStops | eva_gen/common/front_end/parser.py:134-140 | After `parse_expr_add` the lookahead is no binary operator. |
| GrammarFacts.CallPassesThrough | eva_gen/common/front_end/parser.py:174-184 | An operand that no `(` follows is returned unchanged, with the state unchanged. |
| GrammarFacts.PowerPassesThrough | eva_gen/common/front_end/parser.py:166-172 | An operand that no `**` follows is returned unchanged by `parse_expr_power`. |
| GrammarFacts.DivPassesThrough | eva_gen/common/front_end/parser.py:158-164 | The same for `/`. |
| GrammarFacts.MultPassesThrough | eva_gen/common/front_end/parser.py:150-156 | The same for `*`. |
| GrammarFacts.SubPassesThrough | eva_gen/common/front_end/parser.py:142-148 | The same for `-`. |
| GrammarFacts.AddPassesThrough | eva_gen/common/front_end/parser.py:134-140 | The same for `+`. |
| GrammarFacts.ValueBeforeParent | eva_gen/common/front_end/parser.py:126-210 | A value followed by `)` is a whole expression: it passes through every level unchanged. |
| GrammarFacts.ParenthesisedValue | eva_gen/common/front_end/parser.py:126-130 | A parenthesised value is that value, and parsing resumes after the `)`, whatever follows. |
| GrammarFacts.ParenthesisedSumStates | eva_gen/common/front_end/lexer.py:52-69 | The lexer's steps on `(1)+2`. |
| GrammarFacts.ParenthesisedSumStops | eva_gen/common/front_end/parser.py:126-130 | `(1)+2` parsed as an expression is the number 1 alone, and `+` is left as the lookahead. |
| GrammarFacts.SubNestsRight | eva_gen/common/front_end/parser.py:142-148 | `a - b - c` parses as `a - (b - c)`: SUB's right operand re-enters ADD. |
| GrammarFacts.AddNestsRight | eva_gen/common/front_end/parser.py:134-140 | `a + b + c` parses as `a + (b + c)`. |
| GrammarFacts.MultNestsRight | eva_gen/common/front_end/parser.py:150-156 | `a * b * c` parses as `a * (b * c)`. |
| GrammarFacts.PowerNestsRight | eva_gen/common/front_end/parser.py:166-172 | `a ** b ** c` parses as `a ** (b ** c)`. |
| GrammarFacts.DivNestsRight | eva_gen/common/front_end/parser.py:158-164 | `a / b / c` parses as `a / (b / c)`: DIV's right operand re-enters MULT. |
| GrammarFacts.DivTakesProduct | eva_gen/common/front_end/parser.py:158-164 | `a / b * c` parses as `a / (b * c)`. |
| Parsing.Parser.constructor | eva_gen/common/front_end/parser.py:9-16 | A parser over an existing lexer starts at `_SOI` on what the lexer has not consumed. |
| Parsing.Parser.FromCode | eva_gen/common/front_end/parser.py:11-16 | A parser over a text starts in the initial state. |
| Parsing.Parser.Incomplete | eva_gen/common/front_end/parser.py:13-14 | In incomplete mode the lookahead is the lexer's first token. An exhausted lexer stops the construction, and a lexing failure propagates. |
| Parsing.Parser.Position | eva_gen/common/front_end/parser.py:18-20 | `position` is the lexer's resolved offset. |
| Parsing.Parser.NextToken | eva_gen/common/front_end/parser.py:45-48 | Fetching the next token is `Advance`: the lexer's token, or `_EOI` at the end, or its error. |
| Parsing.Parser.Eat | eva_gen/common/front_end/parser.py:41-54 | The method computes `Grammar.Eat`: the same text or error, and the same state. |
| Parsing.Parser.Accept | eva_gen/common/front_end/parser.py:59-63 | The method computes `Grammar.Accept`. |
| Parsing.Parser.Parse | eva_gen/common/front_end/parser.py:26-36 | The method computes `Grammar.Parse`. |
| Parsing.Parser.ParseFunctions | eva_gen/common/front_end/parser.py:30-34 | The generator loop of `parse` computes `FunctionsFrom`. |
| Parsing.Parser.ParseFunction | eva_gen/common/front_end/parser.py:65-78 | The method computes `Grammar.ParseFunction`. |
| Parsing.Parser.ParseCodeblock | eva_gen/common/front_end/parser.py:80-95 | The method computes `Grammar.ParseCodeblock`. |
| Parsing.Parser.ParseStatements | eva_gen/common/front_end/parser.py:84-88 | The generator loop of `parse_codeblock` computes `StatementsFrom`. |
| Parsing.Parser.ParseStatement | eva_gen/common/front_end/parser.py:97-106 | The method computes `Grammar.ParseStatement`. |
| Parsing.Parser.ParseDeclaration | eva_gen/common/front_end/parser.py:108-113 | The method computes `Grammar.ParseDeclaration`. |
| Parsing.Parser.ParseAssignment | eva_gen/common/front_end/parser.py:115-124 | The method computes `Grammar.ParseAssignment`. |
| Parsing.Parser.ParseExpression | eva_gen/common/front_end/parser.py:126-132 | The method computes `Grammar.ParseExpression`. |
| Parsing.Parser.ParseAdd | eva_gen/common/front_end/parser.py:134-140 | The method computes `Grammar.ParseAdd`. |
| Parsing.Parser.ParseSub | eva_gen/common/front_end/parser.py:142-148 | The method computes `Grammar.ParseSub`. |
| Parsing.Parser.ParseMult | eva_gen/common/front_end/parser.py:150-156 | The method computes `Grammar.ParseMult`. |
| Parsing.Parser.ParseDiv | eva_gen/common/front_end/parser.py:158-164 | The method computes `Grammar.ParseDiv`. |
| Parsing.Parser.ParsePower | eva_gen/common/front_end/parser.py:166-172 | The method computes `Grammar.ParsePower`. |
| Parsing.Parser.ParseFunctionCall | eva_gen/common/front_end/parser.py:174-184 | The method computes `Grammar.ParseFunctionCall`. |
| Parsing.Parser.ParseUnary | eva_gen/common/front_end/parser.py:186-192 | The method computes `Grammar.ParseUnary`. |
| Parsing.Parser.ParseParentExpr | eva_gen/common/front_end/parser.py:194-199 | The method computes `Grammar.ParseParentExpr`. |
| Parsing.Parser.ParseValue | eva_gen/common/front_end/parser.py:201-210 | The method computes `Grammar.ParseValue`. |
| Parsing.Parser.ParseCommaList | eva_gen/common/front_end/parser.py:212-219 | The method computes `Grammar.CommaList`. |
| Parsing.Parser.ParseMoreArgs | eva_gen/common/front_end/parser.py:216-217 | The `while accept(COMMA)` loop computes `CommaRest`. |

## Left out

- The regular-expression engine: each pattern of the table is a hand-written anchored prefix matcher.
- Exceptions: `ParseError` is the error side of a `Result`. `StopIteration` is `Exhausted` from the lexer and `_EOI` in the parser. The `ValueError` of `get_line` is `None`.
- Generators and the iterator protocol: the `gen()` helpers of `parse` and `parse_codeblock` are loops in `Parser.ParseFunctions` and `Parser.ParseStatements`. The lexer is a method `Next` rather than an iterator.
- `peek` and `is_next` are the one-line reads `token.kind` and `token.kind == k`, written inline wherever the source calls them.
- `float(value)`: a value node holds the exact decimal value of its literal as a `real`. Rounding to a double is not modelled.
- Nodes.Label: the `display` of a value node takes the text of the number from a parameter `fmt`, since float formatting is not modelled.
- `repr` and `__str__` of nodes are not modelled. `str()` of an enumeration member is modelled as its fixed name, such as `BinaryOperation.ADD`.
- Nodes.SameNodeIsEquality: `__eq__` against an object of another class returns `NotImplemented`, which Python then turns into `False`; the model answers `false` directly.
- The `block` attribute of `WhileNode` and `FunctionNode` is called `body`, and `UnaryOperationNode.op` is called `op1`. Dafny needs one type per field name across the variants.
- The recursion depth limit of the Python interpreter is not modelled. Termination is by the remaining input.
- Python `str` is a sequence of code points; the model uses Dafny `string`, with no encoding or normalisation.
- `eva_gen/__main__.py`, the command-line entry point, is not part of this model.
