/** The syntax tree of eva_gen/common/ast/nodes.py: a closed set of node
    variants, each with its source span; the shallow `visit` protocol, the
    indented `display` rendering and field-wise equality. */
module Nodes {
  import opened Wrappers
  import opened Lexing
  import opened Strings

  datatype BinaryOperation = Add | Sub | Mult | Div | Power | And | Or

  datatype UnaryOperation = Print | Not

  /** `str()` of a member of the `BinaryOperation` enumeration. */
  function BinaryOperationName(op: BinaryOperation): string
  {
    match op
    case Add => "BinaryOperation.ADD"
    case Sub => "BinaryOperation.SUB"
    case Mult => "BinaryOperation.MULT"
    case Div => "BinaryOperation.DIV"
    case Power => "BinaryOperation.POWER"
    case And => "BinaryOperation.AND"
    case Or => "BinaryOperation.OR"
  }

  /** `str()` of a member of the `UnaryOperation` enumeration. */
  function UnaryOperationName(op: UnaryOperation): string
  {
    match op
    case Print => "UnaryOperation.PRINT"
    case Not => "UnaryOperation.NOT"
  }

  /** The value of a member of the `UnaryOperation` enumeration. */
  function UnaryOperationValue(op: UnaryOperation): string
  {
    match op
    case Print => "print"
    case Not => "not"
  }

  /** `UnaryOperation(value)`: the member with that value, or nothing (the
      source raises ValueError). */
  function UnaryOperationOf(value: string): (r: Option<UnaryOperation>)
    ensures r.Some? ==> UnaryOperationValue(r.value) == value
    ensures r.None? ==> value != "print" && value != "not"
  {
    if value == "print" then Some(Print)
    else if value == "not" then Some(Not)
    else None
  }

  /** Looking a member up by its value finds that member. */
  lemma UnaryOperationOfValue(op: UnaryOperation)
    ensures UnaryOperationOf(UnaryOperationValue(op)) == Some(op)
  {
  }

  datatype Span = Span(start: LineCol, end: LineCol)

  /** One constructor per node class. The `block` attribute of `WhileNode`
      and `FunctionNode` is called `body` here, since Dafny gives a field
      name one type and `CodeBlockNode.block` is a list. */
  datatype Node =
    | DeclarationNode(span: Span, ident: string)
    | AssignmentNode(span: Span, ident: string, expr: Node)
    | ValueNode(span: Span, value: real)
    | BinaryOperationNode(span: Span, left: Node, op: BinaryOperation, right: Node)
    | UnaryOperationNode(span: Span, op1: UnaryOperation, operand: Node)
    | ReturnStatementNode(span: Span, expr: Node)
    | CodeBlockNode(span: Span, block: seq<Node>)
    | WhileNode(span: Span, condition: Node, body: Node)
    | IdentNode(span: Span, ident: string)
    | FunctionNode(span: Span, name: string, args: seq<Node>, body: Node)
    | ExternFunctionNode(span: Span, name: string, args: seq<Node>)
    | FunctionCallNode(span: Span, ident: string, args: seq<Node>)

  // ---------------------------------------------------------------------------
  // The value of a number literal
  // ---------------------------------------------------------------------------

  function Pow10(n: nat): (p: nat)
    ensures p >= 1
  {
    if n == 0 then 1 else 10 * Pow10(n - 1)
  }

  /** The index of the first '.' in `s`, or `|s|` when there is none. */
  function DotIndex(s: string): (k: nat)
    ensures k <= |s|
    ensures k < |s| ==> s[k] == '.'
    ensures forall i :: 0 <= i < k ==> s[i] != '.'
  {
    if s == [] || s[0] == '.' then 0 else 1 + DotIndex(s[1..])
  }

  /** What `float(value)` means for a decimal literal `digits[.digits]`: the
      exact decimal value (the rounding to a double is not modelled). */
  function NumberValue(lexeme: string): real
  {
    var k := DotIndex(lexeme);
    var whole := DigitsValue(lexeme[..k]) as real;
    if k == |lexeme| then whole
    else whole + DigitsValue(lexeme[k + 1..]) as real / Pow10(|lexeme| - k - 1) as real
  }

  /** A literal without a fraction is worth the integer it spells:
      `float(str(n)) == n`. */
  lemma NumberValueOfInteger(n: nat)
    ensures NumberValue(NatToString(n)) == n as real
  {
    var s := NatToString(n);
    assert DotIndex(s) == |s|;
    assert s[..|s|] == s;
    DigitsValueOfNatToString(n);
  }

  /** A literal `w.f` is worth its whole digits plus its fraction digits
      scaled down by ten to the number of fraction digits. */
  lemma NumberValueOfDecimal(w: string, f: string)
    requires forall i :: 0 <= i < |w| ==> '0' <= w[i] <= '9'
    requires f != [] && forall i :: 0 <= i < |f| ==> '0' <= f[i] <= '9'
    ensures NumberValue(w + "." + f) == DigitsValue(w) as real + DigitsValue(f) as real / Pow10(|f|) as real
  {
    var s := w + "." + f;
    assert s[|w|] == '.';
    assert forall i :: 0 <= i < |w| ==> s[i] == w[i];
    assert DotIndex(s) == |w|;
    assert s[..|w|] == w;
    assert s[|w| + 1..] == f;
  }

  /** A fraction counts its digits: `1.5` is worth three halves. */
  lemma NumberValueOfFraction()
    ensures NumberValue("1.5") == 1.5
  {
    assert DotIndex("1.5") == 1;
    assert "1.5"[..1] == "1";
    assert "1.5"[2..] == "5";
    assert DigitsValue("1") == 1 by { assert "1"[..0] == ""; }
    assert DigitsValue("5") == 5 by { assert "5"[..0] == ""; }
  }

  // ---------------------------------------------------------------------------
  // visit
  // ---------------------------------------------------------------------------

  /** Every node-valued field of `n`, in field order: the reference against
      which `Visit` is stated. */
  function Children(n: Node): seq<Node>
  {
    match n
    case DeclarationNode(_, _) => []
    case AssignmentNode(_, _, e) => [e]
    case ValueNode(_, _) => []
    case BinaryOperationNode(_, l, _, r) => [l, r]
    case UnaryOperationNode(_, _, o) => [o]
    case ReturnStatementNode(_, e) => [e]
    case CodeBlockNode(_, b) => b
    case WhileNode(_, c, b) => [c, b]
    case IdentNode(_, _) => []
    case FunctionNode(_, _, a, b) => a + [b]
    case ExternFunctionNode(_, _, a) => a
    case FunctionCallNode(_, _, a) => a
  }

  /** The nodes on which `n.visit(visitor)` calls `visitor`, in call order.
      The overrides call it on the immediate children and then on the node;
      the nodes without an override (declaration, assignment, value and
      identifier) call it on themselves only. */
  function Visit(n: Node): seq<Node>
  {
    match n
    case BinaryOperationNode(_, l, _, r) => [l, r, n]
    case UnaryOperationNode(_, _, o) => [o, n]
    case ReturnStatementNode(_, e) => [e, n]
    case CodeBlockNode(_, b) => b + [n]
    case WhileNode(_, c, b) => [c, b, n]
    case FunctionNode(_, _, a, b) => a + [b, n]
    case ExternFunctionNode(_, _, a) => a + [n]
    case FunctionCallNode(_, _, a) => a + [n]
    case DeclarationNode(_, _) => [n]
    case AssignmentNode(_, _, _) => [n]
    case ValueNode(_, _) => [n]
    case IdentNode(_, _) => [n]
  }

  /** `visit` is post-order and shallow: the children, in field order, then
      the node itself, for every node but an assignment, whose expression
      `visit` skips (`AssignmentNode` has no override). */
  lemma VisitIsChildrenThenSelf(n: Node)
    ensures !n.AssignmentNode? ==> Visit(n) == Children(n) + [n]
    ensures n.AssignmentNode? ==> Visit(n) == [n] && Children(n) == [n.expr]
    ensures Visit(n)[|Visit(n)| - 1] == n
  {
  }

  /** The number of nodes in a tree. */
  function Size(n: Node): (k: nat)
    ensures k >= 1
    decreases n, 1
  {
    match n
    case AssignmentNode(_, _, e) => 1 + Size(e)
    case BinaryOperationNode(_, l, _, r) => 1 + Size(l) + Size(r)
    case UnaryOperationNode(_, _, o) => 1 + Size(o)
    case ReturnStatementNode(_, e) => 1 + Size(e)
    case CodeBlockNode(_, b) => 1 + SizeAll(b)
    case WhileNode(_, c, b) => 1 + Size(c) + Size(b)
    case FunctionNode(_, _, a, b) => 1 + SizeAll(a) + Size(b)
    case ExternFunctionNode(_, _, a) => 1 + SizeAll(a)
    case FunctionCallNode(_, _, a) => 1 + SizeAll(a)
    case _ => 1
  }

  function SizeAll(ns: seq<Node>): nat
    decreases ns, 0
  {
    if ns == [] then 0 else Size(ns[0]) + SizeAll(ns[1..])
  }

  /** `visit` does not recurse: every node it visits before the node itself
      is one of the node's immediate children, and so strictly smaller than
      the node, which is therefore visited exactly once, last. */
  lemma {:induction false} VisitIsShallow(n: Node)
    ensures forall i :: 0 <= i < |Visit(n)| - 1 ==> Visit(n)[i] in Children(n)
    ensures forall i :: 0 <= i < |Visit(n)| - 1 ==> Size(Visit(n)[i]) < Size(n)
  {
    VisitIsChildrenThenSelf(n);
    if !n.AssignmentNode? {
      assert forall i :: 0 <= i < |Visit(n)| - 1 ==> Visit(n)[i] == Children(n)[i];
    }
    match n
    case CodeBlockNode(_, b) => SizeAllElements(b);
    case FunctionNode(_, _, a, b) => SizeAllElements(a);
    case ExternFunctionNode(_, _, a) => SizeAllElements(a);
    case FunctionCallNode(_, _, a) => SizeAllElements(a);
    case _ =>
  }

  /** Each element of a node list is at most the list's size; the bound
      `VisitIsShallow` needs for list-valued fields. */
  lemma SizeAllElements(ns: seq<Node>)
    ensures forall i :: 0 <= i < |ns| ==> Size(ns[i]) <= SizeAll(ns)
  {
    forall i | 0 <= i < |ns|
      ensures Size(ns[i]) <= SizeAll(ns)
    {
      SizeAllElement(ns, i);
    }
  }

  /** One element at a time, by induction on the list: the step behind
      `SizeAllElements`. */
  lemma {:induction false} SizeAllElement(ns: seq<Node>, i: nat)
    requires i < |ns|
    ensures Size(ns[i]) <= SizeAll(ns)
    decreases ns
  {
    if i > 0 {
      SizeAllElement(ns[1..], i - 1);
    }
  }

  // ---------------------------------------------------------------------------
  // display
  // ---------------------------------------------------------------------------

  /** `n * '  '`: `n` copies of two spaces. */
  function Indent(n: nat): (s: string)
    ensures |s| == 2 * n
    ensures forall i :: 0 <= i < |s| ==> s[i] == ' '
  {
    if n == 0 then "" else Indent(n - 1) + "  "
  }

  /** The text of a node's own line in `display`, between the indent and the
      newline. The formatting of a float is not modelled: `fmt` gives the
      text of a number. */
  function Label(n: Node, fmt: real -> string): string
  {
    match n
    case DeclarationNode(_, ident) => "var " + ident
    case AssignmentNode(_, ident, _) => "var " + ident + " ="
    case ValueNode(_, v) => fmt(v)
    case BinaryOperationNode(_, _, op, _) => BinaryOperationName(op)
    case UnaryOperationNode(_, op, _) => UnaryOperationName(op)
    case ReturnStatementNode(_, _) => "return"
    case CodeBlockNode(_, _) => "block"
    case WhileNode(_, _, _) => "while"
    case IdentNode(_, ident) => ident
    case FunctionNode(_, name, a, _) => "function " + name + "(nargs=" + IntToString(|a|) + ")"
    case ExternFunctionNode(_, name, a) => "extern function " + name + "(nargs=" + IntToString(|a|) + ")"
    case FunctionCallNode(_, ident, _) => "call " + ident
  }

  /** `display(n)`: the node's own line at `d` indents, then the lines of the
      children it shows, one level deeper. */
  function Display(n: Node, d: nat, fmt: real -> string): string
    decreases n, 2
  {
    Indent(d) + Label(n, fmt) + "\n" + Nested(n, d + 1, fmt)
  }

  /** What `display` appends after a node's own line: the rendering of the
      children it shows, each at depth `d`. A function shows its body but not
      its parameters; an extern function, a declaration, a value and an
      identifier show nothing more. */
  function Nested(n: Node, d: nat, fmt: real -> string): string
    decreases n, 1
  {
    match n
    case AssignmentNode(_, _, e) => Display(e, d, fmt)
    case BinaryOperationNode(_, l, _, r) => Display(l, d, fmt) + Display(r, d, fmt)
    case UnaryOperationNode(_, _, o) => Display(o, d, fmt)
    case ReturnStatementNode(_, e) => Display(e, d, fmt)
    case CodeBlockNode(_, b) => DisplayAll(b, d, fmt)
    case WhileNode(_, c, b) => Display(c, d, fmt) + Display(b, d, fmt)
    case FunctionNode(_, _, _, b) => Display(b, d, fmt)
    case FunctionCallNode(_, _, a) => DisplayAll(a, d, fmt)
    case _ => ""
  }

  /** `"".join(node.display(d) for node in ns)` */
  function DisplayAll(ns: seq<Node>, d: nat, fmt: real -> string): string
    decreases ns, 0
  {
    if ns == [] then "" else Display(ns[0], d, fmt) + DisplayAll(ns[1..], d, fmt)
  }

  /** The rendering of a node at depth `d` starts with exactly `d` indents
      and ends with a newline. */
  lemma DisplayShape(n: Node, d: nat, fmt: real -> string)
    ensures var s := Display(n, d, fmt);
      |s| > 2 * d && s[..2 * d] == Indent(d) && EndsWithNewline(s)
  {
    DisplayEndsWithNewline(n, d, fmt);
  }

  predicate EndsWithNewline(s: string) {
    |s| > 0 && s[|s| - 1] == '\n'
  }

  lemma EndsWithNewlineAppend(x: string, t: string)
    requires EndsWithNewline(t)
    ensures EndsWithNewline(x + t)
  {
  }

  /** Every rendering ends with a newline. */
  lemma {:induction false} DisplayEndsWithNewline(n: Node, d: nat, fmt: real -> string)
    ensures EndsWithNewline(Display(n, d, fmt))
    decreases n, 2
  {
    NestedEndsWithNewline(n, d + 1, fmt);
    if Nested(n, d + 1, fmt) != [] {
      EndsWithNewlineAppend(Indent(d) + Label(n, fmt) + "\n", Nested(n, d + 1, fmt));
    }
  }

  lemma {:induction false} NestedEndsWithNewline(n: Node, d: nat, fmt: real -> string)
    ensures Nested(n, d, fmt) == [] || EndsWithNewline(Nested(n, d, fmt))
    decreases n, 1
  {
    match n
    case AssignmentNode(_, _, e) => DisplayEndsWithNewline(e, d, fmt);
    case BinaryOperationNode(_, l, _, r) =>
      DisplayEndsWithNewline(r, d, fmt);
      EndsWithNewlineAppend(Display(l, d, fmt), Display(r, d, fmt));
    case UnaryOperationNode(_, _, o) => DisplayEndsWithNewline(o, d, fmt);
    case ReturnStatementNode(_, e) => DisplayEndsWithNewline(e, d, fmt);
    case CodeBlockNode(_, b) => DisplayAllEndsWithNewline(b, d, fmt);
    case WhileNode(_, c, b) =>
      DisplayEndsWithNewline(b, d, fmt);
      EndsWithNewlineAppend(Display(c, d, fmt), Display(b, d, fmt));
    case FunctionNode(_, _, _, b) => DisplayEndsWithNewline(b, d, fmt);
    case FunctionCallNode(_, _, a) => DisplayAllEndsWithNewline(a, d, fmt);
    case _ =>
  }

  lemma {:induction false} DisplayAllEndsWithNewline(ns: seq<Node>, d: nat, fmt: real -> string)
    ensures ns == [] || EndsWithNewline(DisplayAll(ns, d, fmt))
    decreases ns, 0
  {
    if ns != [] {
      if ns[1..] == [] {
        DisplayEndsWithNewline(ns[0], d, fmt);
        assert DisplayAll(ns, d, fmt) == Display(ns[0], d, fmt) + "";
      } else {
        DisplayAllEndsWithNewline(ns[1..], d, fmt);
        EndsWithNewlineAppend(Display(ns[0], d, fmt), DisplayAll(ns[1..], d, fmt));
      }
    }
  }

  /** A block's statements are rendered one after the other, in order, each
      one level deeper than the block: appending a statement appends its
      rendering. */
  lemma {:induction false} DisplayAllAppend(ns: seq<Node>, m: Node, d: nat, fmt: real -> string)
    ensures DisplayAll(ns + [m], d, fmt) == DisplayAll(ns, d, fmt) + Display(m, d, fmt)
    decreases ns
  {
    if ns == [] {
      assert [m][1..] == [];
    } else {
      assert (ns + [m])[1..] == ns[1..] + [m];
      DisplayAllAppend(ns[1..], m, d, fmt);
    }
  }

  // ---------------------------------------------------------------------------
  // __eq__
  // ---------------------------------------------------------------------------

  /** `a == b` as `BaseNode.__eq__` decides it: the same class and equal
      attribute dictionaries, comparing child nodes and lists of nodes with
      `__eq__` again, and spans and numbers by value. */
  function SameNode(a: Node, b: Node): bool
    decreases a, 1
  {
    match a
    case DeclarationNode(s, i) => b.DeclarationNode? && s == b.span && i == b.ident
    case AssignmentNode(s, i, e) => b.AssignmentNode? && s == b.span && i == b.ident && SameNode(e, b.expr)
    case ValueNode(s, v) => b.ValueNode? && s == b.span && v == b.value
    case BinaryOperationNode(s, l, o, r) =>
      b.BinaryOperationNode? && s == b.span && SameNode(l, b.left) && o == b.op && SameNode(r, b.right)
    case UnaryOperationNode(s, o, x) => b.UnaryOperationNode? && s == b.span && o == b.op1 && SameNode(x, b.operand)
    case ReturnStatementNode(s, e) => b.ReturnStatementNode? && s == b.span && SameNode(e, b.expr)
    case CodeBlockNode(s, ns) => b.CodeBlockNode? && s == b.span && SameNodes(ns, b.block)
    case WhileNode(s, c, x) => b.WhileNode? && s == b.span && SameNode(c, b.condition) && SameNode(x, b.body)
    case IdentNode(s, i) => b.IdentNode? && s == b.span && i == b.ident
    case FunctionNode(s, n, xs, x) =>
      b.FunctionNode? && s == b.span && n == b.name && SameNodes(xs, b.args) && SameNode(x, b.body)
    case ExternFunctionNode(s, n, xs) => b.ExternFunctionNode? && s == b.span && n == b.name && SameNodes(xs, b.args)
    case FunctionCallNode(s, i, xs) => b.FunctionCallNode? && s == b.span && i == b.ident && SameNodes(xs, b.args)
  }

  /** List equality: the same length and `__eq__` position by position. */
  function SameNodes(xs: seq<Node>, bs: seq<Node>): bool
    decreases xs, 0
  {
    if xs == [] || bs == [] then xs == bs
    else SameNode(xs[0], bs[0]) && SameNodes(xs[1..], bs[1..])
  }

  /** Field-wise equality is exactly structural equality of the tree. */
  lemma {:induction false} SameNodeIsEquality(a: Node, b: Node)
    ensures SameNode(a, b) <==> a == b
    decreases a, 1
  {
    match a
    case AssignmentNode(_, _, e) =>
      if b.AssignmentNode? { SameNodeIsEquality(e, b.expr); }
    case BinaryOperationNode(_, l, _, r) =>
      if b.BinaryOperationNode? {
        SameNodeIsEquality(l, b.left);
        SameNodeIsEquality(r, b.right);
      }
    case UnaryOperationNode(_, _, x) =>
      if b.UnaryOperationNode? { SameNodeIsEquality(x, b.operand); }
    case ReturnStatementNode(_, e) =>
      if b.ReturnStatementNode? { SameNodeIsEquality(e, b.expr); }
    case CodeBlockNode(_, ns) =>
      if b.CodeBlockNode? { SameNodesIsEquality(ns, b.block); }
    case WhileNode(_, c, x) =>
      if b.WhileNode? {
        SameNodeIsEquality(c, b.condition);
        SameNodeIsEquality(x, b.body);
      }
    case FunctionNode(_, _, xs, x) =>
      if b.FunctionNode? {
        SameNodesIsEquality(xs, b.args);
        SameNodeIsEquality(x, b.body);
      }
    case ExternFunctionNode(_, _, xs) =>
      if b.ExternFunctionNode? { SameNodesIsEquality(xs, b.args); }
    case FunctionCallNode(_, _, xs) =>
      if b.FunctionCallNode? { SameNodesIsEquality(xs, b.args); }
    case _ =>
  }

  lemma {:induction false} SameNodesIsEquality(xs: seq<Node>, bs: seq<Node>)
    ensures SameNodes(xs, bs) <==> xs == bs
    decreases xs, 0
  {
    if xs != [] && bs != [] {
      SameNodeIsEquality(xs[0], bs[0]);
      SameNodesIsEquality(xs[1..], bs[1..]);
      if xs[0] == bs[0] && xs[1..] == bs[1..] {
        assert xs == [xs[0]] + xs[1..];
        assert bs == [bs[0]] + bs[1..];
      }
    }
  }

  /** Two literals with the same value are equal nodes even when their text
      differs, as `float("1") == float("1.0")`. */
  lemma ValueEqualityIsByValue(s: Span)
    ensures ValueNode(s, NumberValue("1")) == ValueNode(s, NumberValue("1.0"))
  {
    assert DotIndex("1") == 1;
    assert DotIndex("1.0") == 1;
    assert "1.0"[..1] == "1";
    assert "1.0"[2..] == "0";
    assert DigitsValue("1") == 1 by { assert "1"[..0] == ""; }
    assert DigitsValue("0") == 0 by { assert "0"[..0] == ""; }
  }
}
