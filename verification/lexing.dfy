/** The tokenizer of eva_gen/common/front_end/lexer.py: the ordered rule table,
    one hand-written anchored prefix matcher per rule, the line/column resolver,
    the caret diagnostic, and the `Lexer` cursor whose `Next` walks the table. */
module Lexing {
  import opened Wrappers
  import opened Strings

  // ---------------------------------------------------------------------------
  // Token kinds and the rule table
  // ---------------------------------------------------------------------------

  /** Every key of the rule table, plus the parser's two pseudo-kinds for the
      start and the end of the input. */
  datatype Kind =
    | Unop | BinPower | BinMult | BinDiv | BinAdd | BinSub
    | KwVar | KwFun | KwWhile | KwReturn | KwExtern
    | Ident | Number
    | Equals | LessThan | LessEqual | GreaterThan | GreaterEqual
    | LeftParent | RightParent | LeftBrace | RightBrace | Comma
    | Ignore
    | Soi | Eoi

  /** The name the source uses for a kind (the key of its rule table). */
  function Name(k: Kind): string
  {
    match k
    case Unop => "UNOP"
    case BinPower => "BIN_POWER"
    case BinMult => "BIN_MULT"
    case BinDiv => "BIN_DIV"
    case BinAdd => "BIN_ADD"
    case BinSub => "BIN_SUB"
    case KwVar => "KW_VAR"
    case KwFun => "KW_FUN"
    case KwWhile => "KW_WHILE"
    case KwReturn => "KW_RETURN"
    case KwExtern => "KW_EXTERN"
    case Ident => "IDENT"
    case Number => "NUMBER"
    case Equals => "EQUALS"
    case LessThan => "LESSTHAN"
    case LessEqual => "LESSEQUAL"
    case GreaterThan => "GREATERTHAN"
    case GreaterEqual => "GREATEREQUAL"
    case LeftParent => "LEFT_PARENT"
    case RightParent => "RIGHT_PARENT"
    case LeftBrace => "LEFT_BRACE"
    case RightBrace => "RIGHT_BRACE"
    case Comma => "COMMA"
    case Ignore => "_IGNORE"
    case Soi => "_SOI"
    case Eoi => "_EOI"
  }

  datatype Token = Token(kind: Kind, lexeme: string)

  /** The rule table in the order in which the rules are tried. */
  const Rules: seq<Kind> := [
    Unop, BinPower, BinMult, BinDiv, BinAdd, BinSub,
    KwVar, KwFun, KwWhile, KwReturn, KwExtern,
    Ident, Number,
    Equals, LessThan, LessEqual, GreaterThan, GreaterEqual,
    LeftParent, RightParent, LeftBrace, RightBrace, Comma,
    Ignore
  ]

  // ---------------------------------------------------------------------------
  // Anchored prefix matchers, one per rule
  // ---------------------------------------------------------------------------

  /** The character classes the patterns use. */
  datatype CharClass = Digit | IdentStart | IdentChar | Blank | HexDigit | OctDigit

  predicate InClass(c: char, cls: CharClass)
  {
    match cls
    case Digit => '0' <= c <= '9'
    case IdentStart => 'a' <= c <= 'z' || 'A' <= c <= 'Z' || c == '_'
    case IdentChar => 'a' <= c <= 'z' || 'A' <= c <= 'Z' || c == '_' || '0' <= c <= '9'
    case Blank => c == ' ' || c == '\t' || c == '\n'
    case HexDigit => '0' <= c <= '9' || 'A' <= c <= 'F'
    case OctDigit => '0' <= c <= '7'
  }

  /** The length of the longest prefix of `s` inside the class (a greedy `[...]*`). */
  function Run(s: string, cls: CharClass): (n: nat)
    ensures n <= |s|
    ensures forall i :: 0 <= i < n ==> InClass(s[i], cls)
    ensures n < |s| ==> !InClass(s[n], cls)
  {
    if s == [] || !InClass(s[0], cls) then 0 else 1 + Run(s[1..], cls)
  }

  /** A pattern that is a fixed string. */
  function MatchLiteral(lit: string, s: string): (r: Option<nat>)
  {
    if |lit| <= |s| && s[..|lit|] == lit then Some(|lit|) else None
  }

  /** `[a-zA-Z_][a-zA-Z0-9_]*` */
  function MatchIdent(s: string): (r: Option<nat>)
  {
    if |s| > 0 && InClass(s[0], IdentStart) then Some(1 + Run(s[1..], IdentChar)) else None
  }

  /** `([0-9]+(\.[0-9]+)?|0x[0-9A-F]+|0o[0-7]+)`; the alternatives are tried
      in order, and the first that matches decides. */
  function MatchNumber(s: string): (r: Option<nat>)
  {
    var d := Run(s, Digit);
    if d > 0 then
      if d < |s| && s[d] == '.' && Run(s[d + 1..], Digit) > 0 then Some(d + 1 + Run(s[d + 1..], Digit))
      else Some(d)
    else if |s| >= 2 && s[..2] == "0x" && Run(s[2..], HexDigit) > 0 then Some(2 + Run(s[2..], HexDigit))
    else if |s| >= 2 && s[..2] == "0o" && Run(s[2..], OctDigit) > 0 then Some(2 + Run(s[2..], OctDigit))
    else None
  }

  /** `[ \t\n]+` */
  function MatchBlank(s: string): (r: Option<nat>)
  {
    var n := Run(s, Blank);
    if n > 0 then Some(n) else None
  }

  /** The length of the anchored match of rule `k` at the start of `s`. */
  function Match(k: Kind, s: string): (r: Option<nat>)
    ensures r.Some? ==> 0 < r.value <= |s|
  {
    match k
    case Unop => MatchLiteral("not", s)
    case BinPower => MatchLiteral("**", s)
    case BinMult => MatchLiteral("*", s)
    case BinDiv => MatchLiteral("/", s)
    case BinAdd => MatchLiteral("+", s)
    case BinSub => MatchLiteral("-", s)
    case KwVar => MatchLiteral("var", s)
    case KwFun => MatchLiteral("fun", s)
    case KwWhile => MatchLiteral("while", s)
    case KwReturn => MatchLiteral("return", s)
    case KwExtern => MatchLiteral("extern", s)
    case Ident => MatchIdent(s)
    case Number => MatchNumber(s)
    case Equals => MatchLiteral("=", s)
    case LessThan => MatchLiteral("<", s)
    case LessEqual => MatchLiteral("<=", s)
    case GreaterThan => MatchLiteral(">", s)
    case GreaterEqual => MatchLiteral(">=", s)
    case LeftParent => MatchLiteral("(", s)
    case RightParent => MatchLiteral(")", s)
    case LeftBrace => MatchLiteral("{", s)
    case RightBrace => MatchLiteral("}", s)
    case Comma => MatchLiteral(",", s)
    case Ignore => MatchBlank(s)
    case Soi => None
    case Eoi => None
  }

  /** Which rule of the table matched, and how much of the input it took. */
  datatype Hit = Hit(rule: nat, kind: Kind, len: nat)

  /** The first rule of `rules`, at index `i` or later, whose pattern matches
      at the start of `s`: table order decides, not the length of the match. */
  function FirstMatchIn(rules: seq<Kind>, s: string, i: nat): (r: Option<Hit>)
    requires i <= |rules|
    ensures r.Some? ==> 0 < r.value.len <= |s| && r.value.kind != Soi && r.value.kind != Eoi
    decreases |rules| - i
  {
    if i == |rules| then None
    else match Match(rules[i], s)
      case Some(n) => Some(Hit(i, rules[i], n))
      case None => FirstMatchIn(rules, s, i + 1)
  }

  /** The hit is the rule at the lowest index of the table (from `i` on)
      whose pattern matches: every earlier rule fails to match. */
  lemma {:induction false} FirstMatchInIsFirst(rules: seq<Kind>, s: string, i: nat)
    requires i <= |rules|
    ensures var r := FirstMatchIn(rules, s, i);
      && (r.Some? ==>
        && i <= r.value.rule < |rules|
        && rules[r.value.rule] == r.value.kind
        && Match(r.value.kind, s) == Some(r.value.len)
        && forall j :: i <= j < r.value.rule ==> Match(rules[j], s).None?)
      && (r.None? ==> forall j :: i <= j < |rules| ==> Match(rules[j], s).None?)
    decreases |rules| - i
  {
    if i < |rules| && Match(rules[i], s).None? {
      FirstMatchInIsFirst(rules, s, i + 1);
    }
  }

  /** `FirstMatchIn` on the lexer's own table. */
  function FirstMatch(s: string, i: nat): (r: Option<Hit>)
    ensures r.Some? ==> 0 < r.value.len <= |s| && r.value.kind != Soi && r.value.kind != Eoi
  {
    if i >= |Rules| then None else FirstMatchIn(Rules, s, i)
  }

  lemma FirstMatchIsFirst(s: string, i: nat)
    ensures var r := FirstMatch(s, i);
      && (r.Some? ==>
        && i <= r.value.rule < |Rules|
        && Rules[r.value.rule] == r.value.kind
        && Match(r.value.kind, s) == Some(r.value.len)
        && forall j :: i <= j < r.value.rule ==> Match(Rules[j], s).None?)
      && (r.None? ==> forall j :: i <= j < |Rules| ==> Match(Rules[j], s).None?)
  {
    if i < |Rules| {
      FirstMatchInIsFirst(Rules, s, i);
    }
  }

  predicate AllBlank(s: string)
  {
    forall i :: 0 <= i < |s| ==> InClass(s[i], Blank)
  }

  /** What one call of the lexer's `__next__` does to the remaining input:
      emit a token, end the stream, or find nothing that matches. In each
      case `rest` is what remains afterwards. */
  datatype Scanned = Emit(token: Token, rest: string) | Stop(rest: string) | NoMatch(rest: string)

  /** The whitespace the tokenizer skips before a token: while the first rule
      that matches is `_IGNORE`, its match is dropped. */
  function SkipBlanks(s: string): (t: string)
    ensures |t| <= |s|
    decreases |s|
  {
    if s != [] && FirstMatch(s, 0).Some? && FirstMatch(s, 0).value.kind == Ignore then
      SkipBlanks(s[FirstMatch(s, 0).value.len..])
    else s
  }

  /** One step of the tokenizer on the remaining input `s`: skip the
      whitespace, then emit the first rule's match. What remains is shorter
      when a token is emitted, and empty when the stream ends. */
  function Scan(s: string): (r: Scanned)
    ensures |r.rest| <= |s|
    ensures r.Emit? ==> |r.rest| < |s|
    ensures r.Stop? ==> r.rest == []
  {
    var t := SkipBlanks(s);
    if t == [] then Stop([])
    else match FirstMatch(t, 0)
      case None => NoMatch(t)
      case Some(h) => Emit(Token(h.kind, t[..h.len]), t[h.len..])
  }

  /** How far into the input the token `Scan` returns (or the end) begins. */
  function Skipped(s: string, r: Scanned): int
  {
    if r.Emit? then |s| - |r.rest| - |r.token.lexeme| else |s| - |r.rest|
  }

  /** A whitespace match is skipped: `Scan` goes on after it, and it is blank. */
  lemma ScanSkipStep(s: string)
    requires FirstMatch(s, 0).Some? && FirstMatch(s, 0).value.kind == Ignore
    ensures Scan(s) == Scan(s[FirstMatch(s, 0).value.len..])
    ensures AllBlank(s[..FirstMatch(s, 0).value.len])
  {
    FirstMatchIsFirst(s, 0);
  }

  /** Any other match is emitted. */
  lemma ScanEmitStep(s: string)
    requires FirstMatch(s, 0).Some? && FirstMatch(s, 0).value.kind != Ignore
    ensures var h := FirstMatch(s, 0).value;
      Scan(s) == Emit(Token(h.kind, s[..h.len]), s[h.len..])
  {
  }

  /** An input that no rule matches is a failure. */
  lemma ScanNoMatchStep(s: string)
    requires s != [] && FirstMatch(s, 0).None?
    ensures Scan(s) == NoMatch(s)
  {
  }

  /** `r` skips only blanks of `s`: an input that is empty or blank ends the
      stream, and what no rule matches is a failure. */
  ghost predicate SkipsBlanks(s: string, r: Scanned)
  {
    var at := Skipped(s, r);
    && 0 <= at <= |s|
    && AllBlank(s[..at])
    && (r.Stop? ==> at == |s|)
    && (r.NoMatch? ==> r.rest != [] && FirstMatch(r.rest, 0).None?)
  }

  lemma SkipsBlanksAfterSkip(s: string, n: nat, r: Scanned)
    requires n <= |s| && AllBlank(s[..n])
    requires SkipsBlanks(s[n..], r)
    ensures SkipsBlanks(s, r)
  {
    var t := s[n..];
    var at := Skipped(t, r);
    assert Skipped(s, r) == at + n;
    assert s[..at + n] == s[..n] + t[..at];
  }

  /** Everything `Scan` skips is blank (see `SkipsBlanks`). */
  lemma {:induction false} ScanSkipsBlanks(s: string)
    ensures SkipsBlanks(s, Scan(s))
    decreases |s|
  {
    if s == [] {
    } else if FirstMatch(s, 0).None? {
      ScanNoMatchStep(s);
    } else {
      var h := FirstMatch(s, 0).value;
      if h.kind == Ignore {
        ScanSkipStep(s);
        ScanSkipsBlanks(s[h.len..]);
        SkipsBlanksAfterSkip(s, h.len, Scan(s));
      } else {
        ScanEmitStep(s);
      }
    }
  }

  /** When `r` emits a token: it is not `_IGNORE`, and its lexeme is the
      anchored match of the FIRST rule of the table that matches where the
      skipped blanks end, not the longest one. */
  ghost predicate EmitsFirstMatch(s: string, r: Scanned)
  {
    var at := Skipped(s, r);
    r.Emit? ==>
      && r.token.kind != Ignore
      && 0 < |r.token.lexeme|
      && 0 <= at
      && s[at..] == r.token.lexeme + r.rest
      && FirstMatch(s[at..], 0).Some?
      && FirstMatch(s[at..], 0).value.kind == r.token.kind
      && FirstMatch(s[at..], 0).value.len == |r.token.lexeme|
  }

  lemma EmitsFirstMatchAfterSkip(s: string, n: nat, r: Scanned)
    requires n <= |s|
    requires EmitsFirstMatch(s[n..], r)
    ensures EmitsFirstMatch(s, r)
  {
    var t := s[n..];
    if r.Emit? {
      var at := Skipped(t, r) + n;
      assert Skipped(s, r) == at;
      assert s[at..] == t[at - n..];
    }
  }

  /** Every token `Scan` emits is the first rule's match (see `EmitsFirstMatch`). */
  lemma {:induction false} ScanEmitsFirstMatch(s: string)
    ensures EmitsFirstMatch(s, Scan(s))
    decreases |s|
  {
    if s != [] && FirstMatch(s, 0).Some? {
      var h := FirstMatch(s, 0).value;
      if h.kind == Ignore {
        ScanSkipStep(s);
        ScanEmitsFirstMatch(s[h.len..]);
        EmitsFirstMatchAfterSkip(s, h.len, Scan(s));
      } else {
        ScanEmitStep(s);
        assert s[0..] == s[..h.len] + s[h.len..];
      }
    }
  }

  /** A UNOP token is always the text `not`, the only text its pattern
      matches. */
  lemma ScanUnopIsNot(s: string)
    ensures Scan(s).Emit? && Scan(s).token.kind == Unop ==> Scan(s).token.lexeme == "not"
  {
    var r := Scan(s);
    if r.Emit? && r.token.kind == Unop {
      ScanEmitsFirstMatch(s);
      var t := s[Skipped(s, r)..];
      FirstMatchIsFirst(t, 0);
      assert MatchLiteral("not", t) == Some(|r.token.lexeme|);
      assert r.token.lexeme == t[..|r.token.lexeme|];
    }
  }

  // ---------------------------------------------------------------------------
  // Positions: the offset to (line, column) resolver and the source lines
  // ---------------------------------------------------------------------------

  datatype LineCol = LineCol(line: int, col: int)

  /** The summed length of the first `i` lines, newlines NOT included: this is
      the resolver's running `curpos`. */
  function PrefixLen(lines: seq<string>, i: nat): nat
    requires i <= |lines|
  {
    if i == 0 then 0 else PrefixLen(lines, i - 1) + |lines[i - 1]|
  }

  /** The resolver's loop, from line index `i` on, with `curpos` so far. */
  function Resolve(lines: seq<string>, i: nat, curpos: int, position: int): LineCol
    requires |lines| >= 1 && i <= |lines|
    decreases |lines| - i
  {
    if i == |lines| then LineCol(|lines|, |lines[|lines| - 1]|)
    else if curpos + |lines[i]| >= position then LineCol(i + 1, position - curpos + 1)
    else Resolve(lines, i + 1, curpos + |lines[i]|, position)
  }

  lemma {:induction false} ResolveReachesFirst(lines: seq<string>, i: nat, position: int)
    requires |lines| >= 1 && i <= |lines|
    requires forall j :: 1 <= j <= i ==> PrefixLen(lines, j) < position
    ensures var lc := Resolve(lines, i, PrefixLen(lines, i), position);
      && 1 <= lc.line <= |lines|
      && (forall j :: 1 <= j < lc.line ==> PrefixLen(lines, j) < position)
      && (position <= PrefixLen(lines, lc.line) ==> lc.col == position - PrefixLen(lines, lc.line - 1) + 1)
      && (PrefixLen(lines, lc.line) < position ==> lc.line == |lines| && lc.col == |lines[|lines| - 1]|)
    decreases |lines| - i
  {
    if i < |lines| {
      assert PrefixLen(lines, i + 1) == PrefixLen(lines, i) + |lines[i]|;
      if PrefixLen(lines, i) + |lines[i]| < position {
        ResolveReachesFirst(lines, i + 1, position);
      }
    }
  }

  /** `linecol_from_position`: the line is the first one whose end, counted
      WITHOUT the newlines before it, reaches `position`, and the column is
      `position` minus that count, plus one; past every such end, the result
      is the last line and its length. The line is always a real line. */
  function LineColOf(code: string, position: int): (lc: LineCol)
    ensures var lines := Lines(code);
      && 1 <= lc.line <= |lines|
      && (forall j :: 1 <= j < lc.line ==> PrefixLen(lines, j) < position)
      && (position <= PrefixLen(lines, lc.line) ==> lc.col == position - PrefixLen(lines, lc.line - 1) + 1)
      && (PrefixLen(lines, lc.line) < position ==> lc.line == |lines| && lc.col == |lines[|lines| - 1]|)
  {
    ResolveReachesFirst(Lines(code), 0, position);
    Resolve(Lines(code), 0, 0, position)
  }

  /** The source line holding `position`, as `cur_line` reads it. */
  function CurLineOf(code: string, position: int): string
  {
    Lines(code)[LineColOf(code, position).line - 1]
  }

  // ---------------------------------------------------------------------------
  // Diagnostics
  // ---------------------------------------------------------------------------

  /** `ParseError`: a message, the offending source line and its position. */
  datatype ParseError = ParseError(message: string, line: string, position: LineCol)

  /** The text of a `ParseError`: the message, then the line number, a bar and
      the source line, then a caret under the column. */
  function Render(e: ParseError): string
  {
    var lineStr := IntToString(e.position.line);
    e.message + "\n" + lineStr + "| " + e.line + "\n" + Spaces(e.position.col + |lineStr|) + "^"
  }

  /** The failure `__next__` raises when no rule matches at the start of
      `rest`, what is left of `code`: it is reported where `rest` begins. */
  function LexError(code: string, rest: string): ParseError
  {
    var at := |code| - |rest|;
    ParseError("Cannot lex input code", CurLineOf(code, at), LineColOf(code, at))
  }

  /** What `__next__` gives its caller: a token, the end of the stream, or an
      error. */
  datatype Lexed = Produced(token: Token) | Exhausted | Failed(error: ParseError)

  function Outcome(code: string, r: Scanned): Lexed
  {
    match r
    case Emit(t, _) => Produced(t)
    case Stop(_) => Exhausted
    case NoMatch(rest) => Failed(LexError(code, rest))
  }

  // ---------------------------------------------------------------------------
  // The lexer object
  // ---------------------------------------------------------------------------

  /** A cursor over `code`: `rest` is what has not been consumed and
      `position` is how much has. */
  class Lexer {
    const code: string
    var rest: string
    var position: nat

    ghost predicate Valid()
      reads this
    {
      |rest| <= |code| && rest == code[|code| - |rest|..] && position == |code| - |rest|
    }

    constructor (code: string)
      ensures Valid() && this.code == code && rest == code && position == 0
    {
      this.code := code;
      rest := code;
      position := 0;
    }

    /** The `for` loop of `__next__` over the rule table: the first rule
        of `rules` whose pattern matches at the start of `s`. */
    static method FindRule(rules: seq<Kind>, s: string) returns (h: Option<Hit>)
      ensures h == FirstMatchIn(rules, s, 0)
    {
      var i := 0;
      while i < |rules|
        invariant 0 <= i <= |rules|
        invariant FirstMatchIn(rules, s, i) == FirstMatchIn(rules, s, 0)
      {
        var m := Match(rules[i], s);
        if m.Some? {
          return Some(Hit(i, rules[i], m.value));
        }
        i := i + 1;
      }
      h := None;
    }

    /** `__next__`: one step of `Scan` on the remaining input. */
    method Next() returns (r: Lexed)
      requires Valid()
      modifies this
      ensures Valid()
      ensures rest == Scan(old(rest)).rest
      ensures old(position) <= position
      ensures r == Outcome(code, Scan(old(rest)))
    {
      if |rest| == 0 {
        return Exhausted;
      }
      var goAgain := true;
      while goAgain
        invariant Valid()
        invariant SkipBlanks(rest) == SkipBlanks(old(rest))
        invariant old(position) <= position
        invariant !goAgain ==> FirstMatch(rest, 0).None?
        decreases |rest| + (if goAgain then 1 else 0)
      {
        goAgain := false;
        var h := FindRule(Rules, rest);
        if h.Some? {
          ghost var before := rest;
          var lexeme := rest[..h.value.len];
          Consume(h.value.len);
          if h.value.kind == Ignore {
            goAgain := true;
          } else {
            assert SkipBlanks(before) == before;
            return Produced(Token(h.value.kind, lexeme));
          }
        }
      }
      if |rest| == 0 {
        return Exhausted;
      }
      assert SkipBlanks(rest) == rest;
      r := Fail();
    }

    /** `self.rest = self.rest[m.end(0):]` and the `position` that follows. */
    method Consume(n: nat)
      requires Valid() && n <= |rest|
      modifies this
      ensures Valid() && rest == old(rest)[n..] && old(position) <= position
    {
      rest := rest[n..];
      position := |code| - |rest|;
      assert code[|code| - |rest|..] == old(rest)[n..];
    }

    /** The error `__next__` raises when no rule matches at `position`. */
    method Fail() returns (r: Lexed)
      requires Valid()
      ensures r == Failed(LexError(code, rest))
    {
      var line := CurLine();
      var lc := Linecol();
      r := Failed(ParseError("Cannot lex input code", line, lc));
    }

    /** `linecol_from_position`, with its accumulator loop. */
    method LinecolFromPosition(position: int) returns (lc: LineCol)
      ensures lc == LineColOf(code, position)
    {
      var curpos := 0;
      var lines := Lines(code);
      var i := 0;
      while i < |lines|
        invariant 0 <= i <= |lines|
        invariant curpos == PrefixLen(lines, i)
        invariant Resolve(lines, i, curpos, position) == Resolve(lines, 0, 0, position)
      {
        if curpos + |lines[i]| >= position {
          return LineCol(i + 1, position - curpos + 1);
        }
        curpos := curpos + |lines[i]|;
        i := i + 1;
      }
      lc := LineCol(|lines|, |lines[|lines| - 1]|);
    }

    /** The `linecol` property. */
    method Linecol() returns (lc: LineCol)
      requires Valid()
      ensures lc == LineColOf(code, position)
    {
      lc := LinecolFromPosition(position);
    }

    /** `get_line`: the `lineno`-th line, or nothing (the source raises
        ValueError) when there is no such line. */
    method GetLine(lineno: int) returns (r: Option<string>)
      ensures r.Some? <==> 1 <= lineno <= |Lines(code)|
      ensures r.Some? ==> r.value == Lines(code)[lineno - 1]
    {
      var lines := Lines(code);
      var i := 0;
      while i < |lines|
        invariant 0 <= i <= |lines|
        invariant !(1 <= lineno <= i)
      {
        if i + 1 == lineno {
          return Some(lines[i]);
        }
        i := i + 1;
      }
      r := None;
    }

    /** The `cur_line` property: the line that holds the current offset. It
        always exists, since the resolver only returns real lines. */
    method CurLine() returns (line: string)
      requires Valid()
      ensures line == CurLineOf(code, position)
    {
      var lc := Linecol();
      var r := GetLine(lc.line);
      line := r.value;
    }
  }
}
