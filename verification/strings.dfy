/** The few pieces of Python's string library the front end relies on:
    `str.split("\n")` and its inverse, `' ' * n`, and `str(int)`. */
module Strings {

  predicate NoNewline(s: string) {
    forall i :: 0 <= i < |s| ==> s[i] != '\n'
  }

  /** The index of the first newline in `s`, or `|s|` when there is none. */
  function NewlineIndex(s: string): (k: nat)
    ensures k <= |s|
    ensures k < |s| ==> s[k] == '\n'
    ensures NoNewline(s[..k])
  {
    if s == [] then 0
    else if s[0] == '\n' then 0
    else
      var k := 1 + NewlineIndex(s[1..]);
      assert s[..k] == [s[0]] + s[1..][..k - 1];
      k
  }

  /** The lines joined back together with a newline between each two. */
  function Join(lines: seq<string>): string
  {
    if |lines| == 0 then ""
    else if |lines| == 1 then lines[0]
    else lines[0] + "\n" + Join(lines[1..])
  }

  /** Python's `s.split("\n")`: never empty, no piece holds a newline, and the
      pieces joined with newlines give `s` back. */
  function Lines(s: string): (r: seq<string>)
    ensures |r| >= 1
    ensures forall i :: 0 <= i < |r| ==> NoNewline(r[i])
    ensures Join(r) == s
    decreases |s|
  {
    var k := NewlineIndex(s);
    if k == |s| then
      assert s[..k] == s;
      [s]
    else
      var tail := Lines(s[k + 1..]);
      assert s == s[..k] + "\n" + s[k + 1..];
      assert ([s[..k]] + tail)[1..] == tail;
      [s[..k]] + tail
  }

  /** The first newline of `head + "\n" + tail`, for a newline-free `head`,
      is the one after `head`. */
  lemma SplitAtNewline(head: string, tail: string)
    requires NoNewline(head)
    ensures NewlineIndex(head + "\n" + tail) == |head|
    ensures (head + "\n" + tail)[..|head|] == head
    ensures (head + "\n" + tail)[|head| + 1..] == tail
  {
    var s := head + "\n" + tail;
    assert s[|head|] == '\n';
  }

  /** Splitting is also a left inverse of joining, for newline-free pieces. */
  lemma {:induction false} LinesOfJoin(lines: seq<string>)
    requires |lines| >= 1
    requires forall i :: 0 <= i < |lines| ==> NoNewline(lines[i])
    ensures Lines(Join(lines)) == lines
    decreases |lines|
  {
    if |lines| == 1 {
      assert NoNewline(lines[0]);
    } else {
      var rest := lines[1..];
      var tail := Join(rest);
      var s := Join(lines);
      assert s == lines[0] + "\n" + tail;
      assert NoNewline(lines[0]);
      SplitAtNewline(lines[0], tail);
      assert forall i :: 0 <= i < |rest| ==> rest[i] == lines[i + 1];
      LinesOfJoin(rest);
      assert Lines(s) == [s[..|lines[0]|]] + Lines(s[|lines[0]| + 1..]);
      assert lines == [lines[0]] + rest;
    }
  }

  /** Python's `' ' * n`: the empty string when `n` is not positive. */
  function Spaces(n: int): (s: string)
    ensures |s| == if n < 0 then 0 else n
    ensures forall i :: 0 <= i < |s| ==> s[i] == ' '
    decreases n
  {
    if n <= 0 then "" else Spaces(n - 1) + " "
  }

  function DigitChar(d: nat): char
    requires d < 10
  {
    "0123456789"[d]
  }

  function DigitValue(c: char): nat
  {
    if '0' <= c <= '9' then (c as int - '0' as int) as nat else 0
  }

  /** Python's `str(n)` on a natural number: decimal digits, most
      significant first, with no leading zero. */
  function NatToString(n: nat): (s: string)
    ensures |s| >= 1
    ensures forall i :: 0 <= i < |s| ==> '0' <= s[i] <= '9'
    ensures s[0] == '0' <==> n == 0
    ensures n < 10 <==> |s| == 1
    decreases n
  {
    if n < 10 then [DigitChar(n)] else NatToString(n / 10) + [DigitChar(n % 10)]
  }

  /** The value of a string of decimal digits. */
  function DigitsValue(s: string): nat
  {
    if s == [] then 0 else 10 * DigitsValue(s[..|s| - 1]) + DigitValue(s[|s| - 1])
  }

  /** Reading back the digits that `NatToString` writes gives the number. */
  lemma {:induction false} DigitsValueOfNatToString(n: nat)
    ensures DigitsValue(NatToString(n)) == n
    decreases n
  {
    var s := NatToString(n);
    if n >= 10 {
      DigitsValueOfNatToString(n / 10);
      assert s[..|s| - 1] == NatToString(n / 10);
      assert DigitValue(s[|s| - 1]) == n % 10 by {
        assert s[|s| - 1] == DigitChar(n % 10);
      }
    } else {
      assert DigitValue(DigitChar(n)) == n;
      assert s[..0] == [];
    }
  }

  /** `-` and the digits of `n`: everything after the sign is a digit, and
      those digits read back as `n`. */
  lemma MinusDigits(n: nat)
    ensures var s := "-" + NatToString(n);
      && |s| >= 2
      && DigitsValue(s[1..]) == n
      && forall k :: 1 <= k < |s| ==> '0' <= s[k] <= '9'
  {
    var t := NatToString(n);
    var s := "-" + t;
    assert s[1..] == t;
    DigitsValueOfNatToString(n);
    assert forall k :: 1 <= k < |s| ==> s[k] == t[k - 1];
  }

  /** Python's `str(i)` on an integer. */
  function IntToString(i: int): (s: string)
    ensures |s| >= 1
    ensures s[0] == '-' <==> i < 0
  {
    if i < 0 then "-" + NatToString(-i) else NatToString(i)
  }

  /** Python's `int(s)` on an optionally signed string of decimal digits. */
  function SignedValue(s: string): int
  {
    if s != [] && s[0] == '-' then -(DigitsValue(s[1..]) as int) else DigitsValue(s)
  }

  /** `str(i)` is a sign exactly for a negative number, then nothing but
      decimal digits, and `int(str(i)) == i`. */
  lemma IntToStringReadsBack(i: int)
    ensures var s := IntToString(i);
      && SignedValue(s) == i
      && forall k :: (if i < 0 then 1 else 0) <= k < |s| ==> '0' <= s[k] <= '9'
  {
    if i < 0 {
      MinusDigits(-i);
    } else {
      DigitsValueOfNatToString(i);
    }
  }
}
