/** What the ordered rule table of eva_gen/common/front_end/lexer.py means
    for concrete inputs, the line/column resolver's behaviour and the layout
    of a `ParseError`. */
module LexerFacts {
  import opened Wrappers
  import opened Strings
  import opened Lexing

  // ---------------------------------------------------------------------------
  // Deciding which rule wins
  // ---------------------------------------------------------------------------

  /** When the rules from `i` up to `j` fail and rule `j` matches, rule `j`
      is the hit, whatever the table. */
  lemma {:induction false} FirstMatchInAt(rules: seq<Kind>, s: string, i: nat, j: nat)
    requires i <= j < |rules|
    requires forall k :: i <= k < j ==> Match(rules[k], s).None?
    requires Match(rules[j], s).Some?
    ensures FirstMatchIn(rules, s, i) == Some(Hit(j, rules[j], Match(rules[j], s).value))
    decreases j - i
  {
    if i < j {
      FirstMatchInAt(rules, s, i + 1, j);
    }
  }

  lemma FirstMatchAt(s: string, i: nat, j: nat)
    requires i <= j < |Rules|
    requires forall k :: i <= k < j ==> Match(Rules[k], s).None?
    requires Match(Rules[j], s).Some?
    ensures FirstMatch(s, i) == Some(Hit(j, Rules[j], Match(Rules[j], s).value))
  {
    FirstMatchInAt(Rules, s, i, j);
  }

  /** A fixed-string pattern fails on input whose first character differs
      from the pattern's. */
  lemma LiteralMiss(lit: string, s: string)
    requires lit != [] && s != [] && s[0] != lit[0]
    ensures MatchLiteral(lit, s).None?
  {
    if |lit| <= |s| {
      assert s[..|lit|][0] == s[0];
    }
  }

  /** The first characters of the fixed-string rules that precede IDENT. */
  const Leading: string := "n**/+-vfwre"

  /** Each of the first `j` rules fails on input that starts with none of
      their first characters. */
  lemma RulesMissBefore(s: string, j: nat)
    requires s != [] && j <= 11
    requires forall k :: 0 <= k < j ==> s[0] != Leading[k]
    ensures forall k :: 0 <= k < j ==> Match(Rules[k], s).None?
  {
    forall k | 0 <= k < j
      ensures Match(Rules[k], s).None?
    {
      assert s[0] != Leading[k];
      if k == 0 { LiteralMiss("not", s); }
      else if k == 1 { LiteralMiss("**", s); }
      else if k == 2 { LiteralMiss("*", s); }
      else if k == 3 { LiteralMiss("/", s); }
      else if k == 4 { LiteralMiss("+", s); }
      else if k == 5 { LiteralMiss("-", s); }
      else if k == 6 { LiteralMiss("var", s); }
      else if k == 7 { LiteralMiss("fun", s); }
      else if k == 8 { LiteralMiss("while", s); }
      else if k == 9 { LiteralMiss("return", s); }
      else { LiteralMiss("extern", s); }
    }
  }

  /** The fixed-string rules from `=` to `,` (indices 13 to 22). */
  const Symbols: string := "=<<>>(){},"

  /** Each of them up to rule `j` fails on input that starts with none of
      their first characters. */
  lemma SymbolsMissBefore(s: string, j: nat)
    requires s != [] && 13 <= j <= 23
    requires forall i :: 0 <= i < j - 13 ==> s[0] != Symbols[i]
    ensures forall k :: 13 <= k < j ==> Match(Rules[k], s).None?
  {
    forall k | 13 <= k < j
      ensures Match(Rules[k], s).None?
    {
      assert s[0] != Symbols[k - 13];
      if k == 13 { LiteralMiss("=", s); }
      else if k == 14 { LiteralMiss("<", s); }
      else if k == 15 { LiteralMiss("<=", s); }
      else if k == 16 { LiteralMiss(">", s); }
      else if k == 17 { LiteralMiss(">=", s); }
      else if k == 18 { LiteralMiss("(", s); }
      else if k == 19 { LiteralMiss(")", s); }
      else if k == 20 { LiteralMiss("{", s); }
      else if k == 21 { LiteralMiss("}", s); }
      else { LiteralMiss(",", s); }
    }
  }

  /** Input that starts with neither a letter, a digit, `_` nor the first
      character of a keyword or an operator misses every rule up to NUMBER. */
  lemma WordsMiss(s: string)
    requires s != [] && !InClass(s[0], IdentStart) && !InClass(s[0], Digit)
    requires forall k :: 0 <= k < 11 ==> s[0] != Leading[k]
    ensures forall k :: 0 <= k < 13 ==> Match(Rules[k], s).None?
  {
    RulesMissBefore(s, 11);
    assert Match(Rules[11], s).None?;
    assert Match(Rules[12], s).None?;
  }

  /** The token `Scan` emits, seen from where the skipped blanks end: it is
      the first rule's match on `t`. */
  lemma EmittedHit(s: string) returns (t: string)
    requires Scan(s).Emit?
    ensures FirstMatch(t, 0).Some?
    ensures FirstMatch(t, 0).value.kind == Scan(s).token.kind
    ensures t[..FirstMatch(t, 0).value.len] == Scan(s).token.lexeme
  {
    var r := Scan(s);
    ScanEmitsFirstMatch(s);
    t := s[Skipped(s, r)..];
    assert t == r.token.lexeme + r.rest;
  }

  /** Wherever `<=` matches, `<` matches too; likewise `>=` and `>`. */
  lemma LessEqualShadowed(t: string)
    ensures Match(LessEqual, t).Some? ==> Match(Rules[14], t).Some?
    ensures Match(GreaterEqual, t).Some? ==> Match(Rules[16], t).Some?
  {
    if |t| >= 2 {
      assert t[..1] == t[..2][..1];
    }
  }

  /** `<` and `>` come before `<=` and `>=` in the table. */
  lemma LessEqualLate()
    ensures forall j :: 0 <= j < 15 ==> Rules[j] != LessEqual
    ensures forall j :: 0 <= j < 17 ==> Rules[j] != GreaterEqual
  {
  }

  /** `<=` and `>=` never win: `<` and `>` come first in the table and
      match wherever they do. */
  lemma HitNotLessEqual(t: string)
    requires FirstMatch(t, 0).Some?
    ensures FirstMatch(t, 0).value.kind != LessEqual
    ensures FirstMatch(t, 0).value.kind != GreaterEqual
  {
    FirstMatchIsFirst(t, 0);
    LessEqualShadowed(t);
    LessEqualLate();
  }

  /** The LESSEQUAL and GREATEREQUAL kinds are never produced. */
  lemma NoEmittedLessEqual(s: string)
    ensures Scan(s).Emit? ==> Scan(s).token.kind != LessEqual && Scan(s).token.kind != GreaterEqual
  {
    if Scan(s).Emit? {
      var t := EmittedHit(s);
      HitNotLessEqual(t);
    }
  }

  lemma PowerMatch(s: string)
    requires |s| >= 2 && s[0] == '*' && s[1] == '*'
    ensures Match(Rules[0], s).None? && Match(Rules[1], s) == Some(2)
  {
    LiteralMiss("not", s);
    assert s[..2] == "**";
  }

  lemma PowerHit(s: string)
    requires |s| >= 2 && s[0] == '*' && s[1] == '*'
    ensures FirstMatch(s, 0) == Some(Hit(1, BinPower, 2))
  {
    PowerMatch(s);
    FirstMatchAt(s, 0, 1);
  }

  /** `**` is one BIN_POWER token, never two BIN_MULT: BIN_POWER is tried
      first. */
  lemma PowerIsOneToken(s: string)
    requires |s| >= 2 && s[..2] == "**"
    ensures Scan(s) == Emit(Token(BinPower, "**"), s[2..])
  {
    assert s[0] == s[..2][0] && s[1] == s[..2][1];
    PowerHit(s);
    ScanEmitStep(s);
  }

  /** `not` is a UNOP token, not an IDENT, since UNOP is tried first. */
  lemma NotIsUnop()
    ensures Scan("not") == Emit(Token(Unop, "not"), "")
  {
  }

  lemma VarMatch()
    ensures forall k :: 0 <= k < 6 ==> Match(Rules[k], "variable").None?
    ensures Match(Rules[6], "variable") == Some(3)
  {
    RulesMissBefore("variable", 6);
    assert "variable"[..3] == "var";
  }

  lemma VarHit()
    ensures FirstMatch("variable", 0) == Some(Hit(6, KwVar, 3))
  {
    VarMatch();
    FirstMatchAt("variable", 0, 6);
  }

  lemma IdentMatch(t: string)
    requires t != [] && InClass(t[0], IdentStart)
    requires forall k :: 0 <= k < 11 ==> t[0] != Leading[k]
    ensures forall k :: 0 <= k < 11 ==> Match(Rules[k], t).None?
    ensures Match(Rules[11], t) == Some(1 + Run(t[1..], IdentChar))
  {
    RulesMissBefore(t, 11);
  }

  /** A letter that starts no keyword or `not` starts an IDENT. */
  lemma IdentHit(t: string)
    requires t != [] && InClass(t[0], IdentStart)
    requires forall k :: 0 <= k < 11 ==> t[0] != Leading[k]
    ensures FirstMatch(t, 0) == Some(Hit(11, Ident, 1 + Run(t[1..], IdentChar)))
  {
    IdentMatch(t);
    FirstMatchAt(t, 0, 11);
  }

  lemma VarToken()
    ensures Scan("variable") == Emit(Token(KwVar, "var"), "iable")
  {
    VarHit();
    ScanEmitStep("variable");
  }

  lemma IableToken()
    ensures Scan("iable") == Emit(Token(Ident, "iable"), "")
  {
    assert Run("iable"[1..], IdentChar) == 4;
    IdentHit("iable");
    ScanEmitStep("iable");
  }

  /** `variable` is the keyword `var` followed by the identifier `iable`:
      the first rule that matches wins, not the longest match. */
  lemma VariableSplits()
    ensures Scan("variable") == Emit(Token(KwVar, "var"), "iable")
    ensures Scan("iable") == Emit(Token(Ident, "iable"), "")
  {
    VarToken();
    IableToken();
  }

  lemma LessThanMisses()
    ensures forall k :: 0 <= k < 14 ==> Match(Rules[k], "<=").None?
  {
    var s := "<=";
    RulesMissBefore(s, 11);
    assert Match(Rules[11], s).None?;
    assert Match(Rules[12], s).None?;
    LiteralMiss("=", s);
  }

  lemma LessThanHit()
    ensures FirstMatch("<=", 0) == Some(Hit(14, LessThan, 1))
  {
    LessThanMisses();
    assert MatchLiteral("<", "<=") == Some(1);
    FirstMatchAt("<=", 0, 14);
  }

  lemma EqualsHit()
    ensures FirstMatch("=", 0) == Some(Hit(13, Equals, 1))
  {
    var t := "=";
    RulesMissBefore(t, 11);
    assert Match(Rules[11], t).None?;
    assert Match(Rules[12], t).None?;
    FirstMatchAt(t, 0, 13);
  }

  lemma LessThanToken()
    ensures Scan("<=") == Emit(Token(LessThan, "<"), "=")
  {
    LessThanHit();
    ScanEmitStep("<=");
  }

  lemma EqualsToken()
    ensures Scan("=") == Emit(Token(Equals, "="), "")
  {
    EqualsHit();
    ScanEmitStep("=");
  }

  /** `<=` is LESSTHAN followed by EQUALS: LESSTHAN comes first. */
  lemma LessEqualSplits()
    ensures Scan("<=") == Emit(Token(LessThan, "<"), "=")
    ensures Scan("=") == Emit(Token(Equals, "="), "")
  {
    LessThanToken();
    EqualsToken();
  }

  // ---------------------------------------------------------------------------
  // Numbers
  // ---------------------------------------------------------------------------

  /** Input that starts with a digit lexes as NUMBER. */
  lemma DigitIsNumber(s: string)
    requires s != [] && InClass(s[0], Digit)
    ensures FirstMatch(s, 0) == Some(Hit(12, Number, MatchNumber(s).value))
  {
    RulesMissBefore(s, 11);
    FirstMatchAt(s, 0, 12);
  }

  /** `x` is `d` digits, then nothing or a dot and at least one digit. */
  predicate DecimalWith(x: string, d: int)
  {
    && 0 < d <= |x|
    && (forall i :: 0 <= i < d ==> InClass(x[i], Digit))
    && (d == |x| || (d + 1 < |x| && x[d] == '.' && forall i :: d < i < |x| ==> InClass(x[i], Digit)))
  }

  /** `[0-9]+(\.[0-9]+)?`: the text of a decimal number. */
  predicate IsDecimal(x: string)
  {
    exists d :: 0 < d <= |x| && DecimalWith(x, d)
  }

  /** On the input where it wins, the NUMBER rule matches a decimal number:
      its decimal alternative is tried first and takes every leading digit,
      so the `0x` and `0o` alternatives, which start with the digit `0`,
      never get their turn. */
  lemma NumberHitIsDecimal(t: string)
    requires Match(Number, t).Some?
    ensures IsDecimal(t[..Match(Number, t).value])
  {
    var n := Match(Number, t).value;
    var x := t[..n];
    var d := Run(t, Digit);
    if d < n {
      assert forall i :: d < i < n ==> x[i] == t[d + 1..][i - d - 1];
    }
    assert DecimalWith(x, d);
  }

  /** Every NUMBER token is a decimal number. */
  lemma NumberIsDecimal(s: string)
    ensures Scan(s).Emit? && Scan(s).token.kind == Number ==> IsDecimal(Scan(s).token.lexeme)
  {
    if Scan(s).Emit? && Scan(s).token.kind == Number {
      var t := EmittedHit(s);
      FirstMatchIsFirst(t, 0);
      NumberHitIsDecimal(t);
    }
  }

  /** A digit followed by neither a digit nor a `.` is a one-character
      NUMBER. */
  lemma SingleDigitToken(d: char, rest: string)
    requires InClass(d, Digit) && rest != [] && !InClass(rest[0], Digit) && rest[0] != '.'
    ensures Scan([d] + rest) == Emit(Token(Number, [d]), rest)
  {
    var s := [d] + rest;
    DigitIsNumber(s);
    assert s[1] == rest[0];
    assert Run(s, Digit) == 1;
    ScanEmitStep(s);
    assert s[..1] == [d] && s[1..] == rest;
  }

  lemma ZeroToken()
    ensures Scan("0x1F") == Emit(Token(Number, "0"), "x1F")
  {
    SingleDigitToken('0', "x1F");
    assert ['0'] + "x1F" == "0x1F";
  }

  lemma X1FToken()
    ensures Scan("x1F") == Emit(Token(Ident, "x1F"), "")
  {
    assert Run("x1F"[1..], IdentChar) == 2;
    IdentHit("x1F");
    ScanEmitStep("x1F");
  }

  /** `0x1F` is the NUMBER `0` followed by the IDENT `x1F`. */
  lemma HexLiteralSplits()
    ensures Scan("0x1F") == Emit(Token(Number, "0"), "x1F")
    ensures Scan("x1F") == Emit(Token(Ident, "x1F"), "")
  {
    ZeroToken();
    X1FToken();
  }

  // ---------------------------------------------------------------------------
  // The tokens of `(1)+2`
  // ---------------------------------------------------------------------------

  /** `)` is the second token of `1)+2`, for `ParenthesisedSumTokens`. */
  lemma RightParentToken()
    ensures Scan(")+2") == Emit(Token(RightParent, ")"), "+2")
  {
    var s := ")+2";
    WordsMiss(s);
    SymbolsMissBefore(s, 19);
    FirstMatchAt(s, 0, 19);
    ScanEmitStep(s);
  }

  /** `+` is the third token of `1)+2`, for `ParenthesisedSumTokens`. */
  lemma PlusToken()
    ensures Scan("+2") == Emit(Token(BinAdd, "+"), "2")
  {
    RulesMissBefore("+2", 4);
    FirstMatchAt("+2", 0, 4);
    ScanEmitStep("+2");
  }

  /** `(1)+2` lexes as `(`, the NUMBER `1`, `)` and `+`, with `2` left. */
  lemma ParenthesisedSumTokens()
    ensures Scan("1)+2") == Emit(Token(Number, "1"), ")+2")
    ensures Scan(")+2") == Emit(Token(RightParent, ")"), "+2")
    ensures Scan("+2") == Emit(Token(BinAdd, "+"), "2")
  {
    SingleDigitToken('1', ")+2");
    assert ['1'] + ")+2" == "1)+2";
    RightParentToken();
    PlusToken();
  }

  // ---------------------------------------------------------------------------
  // Whitespace
  // ---------------------------------------------------------------------------

  lemma BlankMissesWords(s: string)
    requires s != [] && InClass(s[0], Blank)
    ensures forall k :: 0 <= k < 13 ==> Match(Rules[k], s).None?
  {
    WordsMiss(s);
  }

  lemma BlankMatch(s: string)
    requires s != [] && InClass(s[0], Blank)
    ensures forall k :: 0 <= k < 23 ==> Match(Rules[k], s).None?
    ensures Match(Rules[23], s) == Some(Run(s, Blank))
  {
    BlankMissesWords(s);
    SymbolsMissBefore(s, 23);
  }

  /** On a blank character every rule but `_IGNORE` fails. */
  lemma BlankIsIgnored(s: string)
    requires s != [] && InClass(s[0], Blank)
    ensures FirstMatch(s, 0) == Some(Hit(23, Ignore, Run(s, Blank)))
  {
    BlankMatch(s);
    FirstMatchAt(s, 0, 23);
  }

  /** Input that is empty or only blanks ends the stream instead of failing. */
  lemma BlankInputEnds(s: string)
    requires AllBlank(s)
    ensures Scan(s) == Stop([])
  {
    if s != [] {
      BlankIsIgnored(s);
      assert Run(s, Blank) == |s|;
      ScanSkipStep(s);
      assert s[|s|..] == [];
    }
  }

  // ---------------------------------------------------------------------------
  // The line/column resolver
  // ---------------------------------------------------------------------------

  /** On a text without newlines, the position of offset `p` is line 1,
      column `p + 1`. */
  lemma OneLinePosition(code: string, p: int)
    requires NoNewline(code) && 0 <= p <= |code|
    ensures LineColOf(code, p) == LineCol(1, p + 1)
  {
    LinesOfJoin([code]);
    assert Lines(code) == [code];
    assert PrefixLen([code], 1) == |code|;
  }

  /** The resolver does not count newlines: the `b` at offset 2 of `a\nb` is
      reported at column 2 of line 2 although it starts that line. */
  lemma NewlinesNotCounted()
    ensures LineColOf("a\nb", 2) == LineCol(2, 2)
  {
    LinesOfJoin(["a", "b"]);
    assert Join(["a", "b"]) == "a\nb";
    var lines := Lines("a\nb");
    assert PrefixLen(lines, 1) == 1;
    assert PrefixLen(lines, 2) == 2;
  }

  /** Positions are not monotonic: in `a\n\nb c`, offset 4 resolves to line
      3, column 4 but the later offset 6 (the end) falls past every line end
      as the resolver counts them and resolves to line 3, column 3. A span
      from the first to the second ends before it starts. */
  lemma PositionsNotMonotonic()
    ensures LineColOf("a\n\nb c", 4) == LineCol(3, 4)
    ensures LineColOf("a\n\nb c", 6) == LineCol(3, 3)
  {
    var lines := ["a", "", "b c"];
    LinesOfJoin(lines);
    assert Join(lines) == "a\n\nb c";
    assert PrefixLen(lines, 1) == 1;
    assert PrefixLen(lines, 2) == 1;
    assert PrefixLen(lines, 3) == 4;
  }

  // ---------------------------------------------------------------------------
  // The diagnostic
  // ---------------------------------------------------------------------------

  lemma NatToStringNoNewline(n: nat)
    ensures NoNewline(NatToString(n))
  {
  }

  lemma IntToStringNoNewline(i: int)
    ensures NoNewline(IntToString(i))
  {
    if i < 0 {
      NatToStringNoNewline(-i);
    } else {
      NatToStringNoNewline(i);
    }
  }

  /** The message is three lines: the message itself; the line number, a
      bar and the source line; the caret line. */
  lemma RenderLines(e: ParseError)
    requires NoNewline(e.message) && NoNewline(e.line)
    ensures var lineStr := IntToString(e.position.line);
      Lines(Render(e)) == [e.message, lineStr + "| " + e.line, Spaces(e.position.col + |lineStr|) + "^"]
  {
    var lineStr := IntToString(e.position.line);
    var rows := [e.message, lineStr + "| " + e.line, Spaces(e.position.col + |lineStr|) + "^"];
    IntToStringNoNewline(e.position.line);
    assert NoNewline(rows[1]);
    assert NoNewline(rows[2]);
    assert rows[1..][1..] == [rows[2]];
    assert Join(rows[1..]) == rows[1] + "\n" + rows[2];
    assert Join(rows) == rows[0] + "\n" + (rows[1] + "\n" + rows[2]);
    assert Render(e) == Join(rows);
    LinesOfJoin(rows);
  }

  /** The caret stands `col + len(str(line))` characters in, so in the row
      above it, which is the line number, a bar and a space followed by the
      source line, it sits under the source character at index `col - 2`:
      one to the left of the 1-based column `col`. */
  lemma CaretColumn(e: ParseError)
    requires NoNewline(e.message) && NoNewline(e.line)
    requires 2 <= e.position.col <= |e.line| + 1
    ensures var rows := Lines(Render(e));
      && |rows| == 3
      && |rows[1]| == |IntToString(e.position.line)| + 2 + |e.line|
      && |rows[2]| == e.position.col + |IntToString(e.position.line)| + 1
      && rows[2][|rows[2]| - 1] == '^'
      && (forall i :: 0 <= i < |rows[2]| - 1 ==> rows[2][i] == ' ')
      && rows[1][|rows[2]| - 1] == e.line[e.position.col - 2]
  {
    RenderLines(e);
  }
}
