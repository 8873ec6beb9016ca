/** The order in which toPostfix emits operators, stated against an
    independent reference: the usual grammar of arithmetic expressions,

      expr   ::= term   | expr ("+" | "-") term
      term   ::= factor | term ("*" | "/") factor
      factor ::= operand | "(" expr ")"

    in which `*` and `/` bind tighter than `+` and `-` and every operator
    groups to the left. A syntax tree of that grammar has an infix text and
    a post-order listing; the shunting-yard loop turns the first into the
    second. */
module PostfixOrder {
  import opened Strings
  import opened Postfix

  /** A syntax tree: an operand, a parenthesised expression, or a binary operation. */
  datatype Infix = Atom(text: string) | Group(inner: Infix) | Bin(left: Infix, op: string, right: Infix)

  predicate IsAddOp(op: string) { op == "+" || op == "-" }

  predicate IsMulOp(op: string) { op == "*" || op == "/" }

  /** `factor ::= operand | "(" expr ")"` */
  predicate IsFactor(x: Infix)
    decreases x, 0
  {
    match x
    case Atom(a) => IsOperandText(a)
    case Group(e) => IsExpr(e)
    case Bin(_, _, _) => false
  }

  /** `term ::= factor | term ("*" | "/") factor` */
  predicate IsTerm(x: Infix)
    decreases x, 1
  {
    IsFactor(x) || (x.Bin? && IsMulOp(x.op) && IsTerm(x.left) && IsFactor(x.right))
  }

  /** `expr ::= term | expr ("+" | "-") term` */
  predicate IsExpr(x: Infix)
    decreases x, 2
  {
    IsTerm(x) || (x.Bin? && IsAddOp(x.op) && IsExpr(x.left) && IsTerm(x.right))
  }

  /** The token list the tree is written as. */
  function Text(x: Infix): seq<string> {
    match x
    case Atom(a) => [a]
    case Group(e) => ["("] + Text(e) + [")"]
    case Bin(l, op, r) => Text(l) + [op] + Text(r)
  }

  /** The post-order listing: both operands, then the operator. */
  function PostOrder(x: Infix): seq<string> {
    match x
    case Atom(a) => [a]
    case Group(e) => PostOrder(e)
    case Bin(l, op, r) => PostOrder(l) + PostOrder(r) + [op]
  }

  /** `t` occurs in `expr` at position `k`. */
  predicate At(expr: seq<string>, k: nat, t: seq<string>) {
    k + |t| <= |expr| && expr[k..k + |t|] == t
  }

  lemma AtParts(expr: seq<string>, k: nat, a: seq<string>, b: seq<string>)
    requires At(expr, k, a + b)
    ensures At(expr, k, a) && At(expr, k + |a|, b)
  {
    assert expr[k..k + |a|] == expr[k..k + |a + b|][..|a|];
    assert expr[k + |a|..k + |a| + |b|] == expr[k..k + |a + b|][|a|..];
  }

  lemma AtOne(expr: seq<string>, k: nat, t: string)
    requires At(expr, k, [t])
    ensures k < |expr| && expr[k] == t
  {
    assert expr[k..k + 1][0] == expr[k];
  }

  /** What may follow a whole expression: the end, `)` or an additive operator. */
  predicate EndsExpr(expr: seq<string>, j: nat) {
    j <= |expr| && (j == |expr| || expr[j] == ")" || IsAddOp(expr[j]))
  }

  /** What may follow a term: the end, `)` or any operator. */
  predicate EndsTerm(expr: seq<string>, j: nat) {
    j <= |expr| && (j == |expr| || expr[j] == ")" || IsArithOp(expr[j]))
  }

  /** A `*` or `/` on top of the stack is moved to the output by whatever may follow a term. */
  lemma FlushAfterTerm(expr: seq<string>, j: nat, s: seq<string>, o: seq<string>, op: string)
    requires IsMulOp(op) && EndsTerm(expr, j)
    ensures ShuntFrom(expr, j, s + [op], o) == ShuntFrom(expr, j, s, o + [op])
  {
    Flush(expr, j, s, o, op);
  }

  /** A `+` or `-` on top of the stack is moved to the output by whatever may follow an expression. */
  lemma FlushAfterExpr(expr: seq<string>, j: nat, s: seq<string>, o: seq<string>, op: string)
    requires IsAddOp(op) && EndsExpr(expr, j)
    ensures ShuntFrom(expr, j, s + [op], o) == ShuntFrom(expr, j, s, o + [op])
  {
    Flush(expr, j, s, o, op);
  }

  /** An operator on top of the stack is moved to the output by whatever comes
      next, when that is the end, a `)` or an operator that binds no tighter. */
  lemma Flush(expr: seq<string>, j: nat, s: seq<string>, o: seq<string>, op: string)
    requires IsArithOp(op) && j <= |expr|
    requires j == |expr| || expr[j] == ")" || (IsArithOp(expr[j]) && Prec(expr[j]) <= Prec(op))
    ensures ShuntFrom(expr, j, s + [op], o) == ShuntFrom(expr, j, s, o + [op])
  {
    PushPopShape(s, op);
    if j == |expr| {
      FlushAtEnd(expr, s, o, op);
    } else if expr[j] == ")" {
      FlushAtClose(expr, j, s, o, op);
    } else {
      FlushAtOperator(expr, j, s, o, op);
    }
  }

  lemma FlushAtEnd(expr: seq<string>, s: seq<string>, o: seq<string>, op: string)
    requires IsArithOp(op) && Top(s + [op]) == op && Pop(s + [op]) == s
    ensures ShuntFrom(expr, |expr|, s + [op], o) == ShuntFrom(expr, |expr|, s, o + [op])
  {
    assert Drain(s + [op], o) == Drain(s, o + [op]);
  }

  lemma FlushAtClose(expr: seq<string>, j: nat, s: seq<string>, o: seq<string>, op: string)
    requires j < |expr| && expr[j] == ")"
    requires IsArithOp(op) && Top(s + [op]) == op && Pop(s + [op]) == s
    ensures ShuntFrom(expr, j, s + [op], o) == ShuntFrom(expr, j, s, o + [op])
  {
    NotOperand(")");
    assert PopToParen(s + [op], o) == PopToParen(s, o + [op]);
  }

  lemma FlushAtOperator(expr: seq<string>, j: nat, s: seq<string>, o: seq<string>, op: string)
    requires j < |expr| && IsArithOp(expr[j]) && Prec(expr[j]) <= Prec(op)
    requires IsArithOp(op) && Top(s + [op]) == op && Pop(s + [op]) == s
    ensures ShuntFrom(expr, j, s + [op], o) == ShuntFrom(expr, j, s, o + [op])
  {
    OperatorStep(expr, j, s + [op], o);
    OperatorStep(expr, j, s, o + [op]);
    PopFirst(s, o, op, Prec(expr[j]));
  }

  /** One step of the loop on an operator token. */
  lemma OperatorStep(expr: seq<string>, j: nat, s: seq<string>, o: seq<string>)
    requires j < |expr| && IsArithOp(expr[j])
    ensures var p := PopWhileAtLeast(s, o, Prec(expr[j]));
      ShuntFrom(expr, j, s, o) == ShuntFrom(expr, j + 1, p.0 + [expr[j]], p.1)
  {
    NotOperand(expr[j]);
  }

  /** Popping starts with the top operator when it binds at least as tightly. */
  lemma PopFirst(s: seq<string>, o: seq<string>, op: string, p: nat)
    requires Top(s + [op]) == op && Pop(s + [op]) == s && Prec(op) >= p
    ensures PopWhileAtLeast(s + [op], o, p) == PopWhileAtLeast(s, o + [op], p)
  {
  }

  /** A factor is emitted whole, in post order, whatever lies on the stack. */
  lemma FactorShunt(x: Infix, expr: seq<string>, k: nat, s: seq<string>, o: seq<string>)
    requires IsFactor(x) && At(expr, k, Text(x))
    ensures ShuntFrom(expr, k, s, o) == ShuntFrom(expr, k + |Text(x)|, s, o + PostOrder(x))
    decreases x, 1
  {
    match x
    case Atom(a) =>
      AtOne(expr, k, a);
    case Group(e) =>
      GroupShunt(x, expr, k, s, o);
  }

  /** A parenthesised expression leaves the stack as it found it. */
  lemma GroupShunt(x: Infix, expr: seq<string>, k: nat, s: seq<string>, o: seq<string>)
    requires x.Group? && IsExpr(x.inner) && At(expr, k, Text(x))
    ensures ShuntFrom(expr, k, s, o) == ShuntFrom(expr, k + |Text(x)|, s, o + PostOrder(x))
    decreases x, 0
  {
    var e := x.inner;
    var n := |Text(e)|;
    AtParts(expr, k, ["("] + Text(e), [")"]);
    AtParts(expr, k, ["("], Text(e));
    AtOne(expr, k, "(");
    AtOne(expr, k + 1 + n, ")");
    OpenStep(expr, k, s, o);
    ExprShunt(e, expr, k + 1, s + ["("], o);
    CloseStep(expr, k + 1 + n, s, o + PostOrder(e));
  }

  /** `(` goes onto the stack. */
  lemma OpenStep(expr: seq<string>, k: nat, s: seq<string>, o: seq<string>)
    requires k < |expr| && expr[k] == "("
    ensures ShuntFrom(expr, k, s, o) == ShuntFrom(expr, k + 1, s + ["("], o)
  {
    NotOperand("(");
  }

  /** `)` removes the `(` on top of the stack. */
  lemma CloseStep(expr: seq<string>, j: nat, s: seq<string>, o: seq<string>)
    requires j < |expr| && expr[j] == ")"
    ensures ShuntFrom(expr, j, s + ["("], o) == ShuntFrom(expr, j + 1, s, o)
  {
    NotOperand(")");
    PushPopShape(s, "(");
    assert PopToParen(s + ["("], o) == (s + ["("], o);
  }

  /** A term is emitted in post order once it is followed by the end, a `)`
      or an operator, provided no multiplicative operator waits beneath it. */
  lemma TermShunt(x: Infix, expr: seq<string>, k: nat, s: seq<string>, o: seq<string>)
    requires IsTerm(x) && At(expr, k, Text(x)) && EndsTerm(expr, k + |Text(x)|)
    requires s == [] || Prec(Top(s)) < 2
    ensures ShuntFrom(expr, k, s, o) == ShuntFrom(expr, k + |Text(x)|, s, o + PostOrder(x))
    decreases x, 2
  {
    if IsFactor(x) {
      FactorShunt(x, expr, k, s, o);
    } else {
      var k1 := BinParts(x, expr, k);
      TermShunt(x.left, expr, k, s, o);
      MulThenFactor(x, expr, k1, s, o + PostOrder(x.left));
      JoinPost(x, o);
    }
  }

  /** The second half of `term * factor`: the operator and its right operand. */
  lemma MulThenFactor(x: Infix, expr: seq<string>, k1: nat, s: seq<string>, y: seq<string>)
    requires x.Bin? && IsMulOp(x.op) && IsFactor(x.right)
    requires k1 < |expr| && expr[k1] == x.op && At(expr, k1 + 1, Text(x.right))
    requires EndsTerm(expr, k1 + 1 + |Text(x.right)|)
    requires s == [] || Prec(Top(s)) < 2
    ensures ShuntFrom(expr, k1, s, y) ==
      ShuntFrom(expr, k1 + 1 + |Text(x.right)|, s, y + PostOrder(x.right) + [x.op])
    decreases x, 1
  {
    PushOperator(expr, k1, s, y);
    FactorShunt(x.right, expr, k1 + 1, s + [x.op], y);
    FlushAfterTerm(expr, k1 + 1 + |Text(x.right)|, s, y + PostOrder(x.right), x.op);
  }

  /** An expression is emitted in post order once it is followed by the end,
      a `)` or an additive operator, provided no operator waits beneath it. */
  lemma ExprShunt(x: Infix, expr: seq<string>, k: nat, s: seq<string>, o: seq<string>)
    requires IsExpr(x) && At(expr, k, Text(x)) && EndsExpr(expr, k + |Text(x)|)
    requires s == [] || Prec(Top(s)) == 0
    ensures ShuntFrom(expr, k, s, o) == ShuntFrom(expr, k + |Text(x)|, s, o + PostOrder(x))
    decreases x, 3
  {
    if IsTerm(x) {
      TermShunt(x, expr, k, s, o);
    } else {
      var k1 := BinParts(x, expr, k);
      ExprShunt(x.left, expr, k, s, o);
      AddThenTerm(x, expr, k1, s, o + PostOrder(x.left));
      JoinPost(x, o);
    }
  }

  /** The second half of `expr + term`: the operator and its right operand. */
  lemma AddThenTerm(x: Infix, expr: seq<string>, k1: nat, s: seq<string>, y: seq<string>)
    requires x.Bin? && IsAddOp(x.op) && IsTerm(x.right)
    requires k1 < |expr| && expr[k1] == x.op && At(expr, k1 + 1, Text(x.right))
    requires EndsExpr(expr, k1 + 1 + |Text(x.right)|)
    requires s == [] || Prec(Top(s)) == 0
    ensures ShuntFrom(expr, k1, s, y) ==
      ShuntFrom(expr, k1 + 1 + |Text(x.right)|, s, y + PostOrder(x.right) + [x.op])
    decreases x, 2
  {
    PushOperator(expr, k1, s, y);
    PushPopShape(s, x.op);
    TermShunt(x.right, expr, k1 + 1, s + [x.op], y);
    FlushAfterExpr(expr, k1 + 1 + |Text(x.right)|, s, y + PostOrder(x.right), x.op);
  }

  /** Where the two operands and the operator of a binary tree lie in `expr`. */
  lemma BinParts(x: Infix, expr: seq<string>, k: nat) returns (k1: nat)
    requires x.Bin? && At(expr, k, Text(x))
    ensures k1 == k + |Text(x.left)| && k1 < |expr| && expr[k1] == x.op
    ensures At(expr, k, Text(x.left)) && At(expr, k1 + 1, Text(x.right))
    ensures k + |Text(x)| == k1 + 1 + |Text(x.right)|
  {
    k1 := k + |Text(x.left)|;
    AtParts(expr, k, Text(x.left) + [x.op], Text(x.right));
    AtParts(expr, k, Text(x.left), [x.op]);
    AtOne(expr, k1, x.op);
  }

  /** An operator that binds tighter than the top of the stack is pushed without popping. */
  lemma PushOperator(expr: seq<string>, j: nat, s: seq<string>, o: seq<string>)
    requires j < |expr| && IsArithOp(expr[j])
    requires s == [] || Prec(Top(s)) < Prec(expr[j])
    ensures ShuntFrom(expr, j, s, o) == ShuntFrom(expr, j + 1, s + [expr[j]], o)
  {
    NotOperand(expr[j]);
    assert PopWhileAtLeast(s, o, Prec(expr[j])) == (s, o);
  }

  lemma JoinPost(x: Infix, o: seq<string>)
    requires x.Bin?
    ensures o + PostOrder(x.left) + PostOrder(x.right) + [x.op] == o + PostOrder(x)
  {
  }

  /** toPostfix on the text of any expression of the grammar is the tree's
      post-order listing: `*` and `/` are applied before `+` and `-`,
      operators of one precedence are applied left to right, and
      parentheses group as written. */
  lemma ToPostfixFollowsGrammar(x: Infix)
    requires IsExpr(x)
    ensures ToPostfix(Text(x)) == PostOrder(x)
  {
    var e := Text(x);
    assert e[0..|e|] == e;
    ExprShunt(x, e, 0, [], []);
    assert [] + PostOrder(x) == PostOrder(x);
  }
}
