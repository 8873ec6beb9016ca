/** The expression linearizer of the code generator: infix to postfix by
    the shunting-yard algorithm, then evaluation of the postfix form on a
    value stack that either folds two numeric literals or emits one
    three-address line `tN = a op b` per operator.

    Stacks are sequences whose LAST element is the top (Java's `push`,
    `peek` and `pop` on an `ArrayDeque`). */
module Postfix {
  import opened Strings
  import opened Optional
  import opened Lines

  /** Keys of the precedence map. */
  predicate IsArithOp(t: string) { t == "+" || t == "-" || t == "*" || t == "/" }

  /** `precedence.getOrDefault(t, 0)`. */
  function Prec(t: string): nat {
    if t == "+" || t == "-" then 1 else if t == "*" || t == "/" then 2 else 0
  }

  // `"+-*/".contains(t)`: `t` is a contiguous piece of the text `+-*/`.
  predicate InOperatorString(t: string) {
    t == "" || t == "+" || t == "-" || t == "*" || t == "/" || t == "+-" || t == "-*" ||
    t == "*/" || t == "+-*" || t == "-*/" || t == "+-*/"
  }

  function Top(s: seq<string>): string requires s != [] { s[|s| - 1] }
  function Pop(s: seq<string>): seq<string> requires s != [] { s[..|s| - 1] }

  // ---------------------------------------------------------------------
  // toPostfix

  /** Inner loop for an operator: pop while the top's precedence is at least `p`. */
  function PopWhileAtLeast(stack: seq<string>, out: seq<string>, p: nat): (r: (seq<string>, seq<string>))
    decreases |stack|
  {
    if stack != [] && Prec(Top(stack)) >= p then PopWhileAtLeast(Pop(stack), out + [Top(stack)], p)
    else (stack, out)
  }

  /** Inner loop for `)`: pop until the top is `(` or the stack is empty. */
  function PopToParen(stack: seq<string>, out: seq<string>): (r: (seq<string>, seq<string>))
    decreases |stack|
  {
    if stack != [] && Top(stack) != "(" then PopToParen(Pop(stack), out + [Top(stack)])
    else (stack, out)
  }

  /** Final loop: move the remaining operators; a leftover parenthesis gives the empty list. */
  function Drain(stack: seq<string>, out: seq<string>): seq<string>
    decreases |stack|
  {
    if stack == [] then out
    else if Top(stack) == "(" || Top(stack) == ")" then []
    else Drain(Pop(stack), out + [Top(stack)])
  }

  /** The `for` loop of toPostfix from position `k`, with the current stack and output. */
  function ShuntFrom(expr: seq<string>, k: nat, stack: seq<string>, out: seq<string>): seq<string>
    requires k <= |expr|
    decreases |expr| - k
  {
    if k == |expr| then Drain(stack, out)
    else
      var tok := expr[k];
      if IsOperandText(tok) then ShuntFrom(expr, k + 1, stack, out + [tok])
      else if IsArithOp(tok) then
        var (s, o) := PopWhileAtLeast(stack, out, Prec(tok));
        ShuntFrom(expr, k + 1, s + [tok], o)
      else if tok == "(" then ShuntFrom(expr, k + 1, stack + ["("], out)
      else if tok == ")" then
        var (s, o) := PopToParen(stack, out);
        if s != [] then ShuntFrom(expr, k + 1, Pop(s), o) else []
      else ShuntFrom(expr, k + 1, stack, out)
  }

  /** The postfix form of an infix token list (empty on mismatched parentheses). */
  function ToPostfix(expr: seq<string>): seq<string> {
    ShuntFrom(expr, 0, [], [])
  }

  // ---------------------------------------------------------------------
  // The independent view used to state what toPostfix promises.

  /** Scanning `expr` from `k` with `d` unmatched `(`: no `)` is ever unmatched
      and every `(` is closed by the end. */
  predicate Balances(expr: seq<string>, k: nat, d: nat)
    requires k <= |expr|
    decreases |expr| - k
  {
    if k == |expr| then d == 0
    else if expr[k] == "(" then Balances(expr, k + 1, d + 1)
    else if expr[k] == ")" then d > 0 && Balances(expr, k + 1, d - 1)
    else Balances(expr, k + 1, d)
  }

  predicate ParensBalanced(expr: seq<string>) { Balances(expr, 0, 0) }

  function Operands(s: seq<string>): seq<string> {
    if s == [] then [] else (if IsOperandText(s[0]) then [s[0]] else []) + Operands(s[1..])
  }

  function Operators(s: seq<string>): seq<string> {
    if s == [] then [] else (if IsArithOp(s[0]) then [s[0]] else []) + Operators(s[1..])
  }

  /** The operators of `s`, counted with multiplicity. */
  function Bag(s: seq<string>): multiset<string> {
    if s == [] then multiset{} else (if IsArithOp(s[0]) then multiset{s[0]} else multiset{}) + Bag(s[1..])
  }

  lemma {:induction false} BagConcat(a: seq<string>, b: seq<string>)
    ensures Bag(a + b) == Bag(a) + Bag(b)
  {
    if a == [] {
      assert a + b == b;
    } else {
      assert (a + b)[1..] == a[1..] + b;
      BagConcat(a[1..], b);
    }
  }

  lemma {:induction false} BagIsOperators(s: seq<string>)
    ensures Bag(s) == multiset(Operators(s))
  {
    if s != [] {
      BagIsOperators(s[1..]);
    }
  }

  lemma {:induction false} OperandsConcat(a: seq<string>, b: seq<string>)
    ensures Operands(a + b) == Operands(a) + Operands(b)
  {
    if a == [] {
      assert a + b == b;
    } else {
      assert (a + b)[1..] == a[1..] + b;
      OperandsConcat(a[1..], b);
    }
  }

  /** Every element is an operand or one of `+ - * /`. */
  predicate OperandsAndOperators(s: seq<string>) {
    forall k :: 0 <= k < |s| ==> IsOperandText(s[k]) || IsArithOp(s[k])
  }

  /** The operator stack holds only operators and `(`. */
  predicate StackShape(s: seq<string>) {
    forall k :: 0 <= k < |s| ==> IsArithOp(s[k]) || s[k] == "("
  }

  function Opens(s: seq<string>): nat {
    if s == [] then 0 else Opens(s[..|s| - 1]) + (if s[|s| - 1] == "(" then 1 else 0)
  }

  lemma OperandIsNotParen(t: string)
    requires IsOperandText(t)
    ensures t != "(" && t != ")" && !IsArithOp(t)
  {
    if IsNumberText(t) { NumberTextIsNotIdentifier(t); }
  }

  lemma {:induction false} StackHasNoOperands(s: seq<string>)
    requires StackShape(s)
    ensures Operands(s) == []
  {
    if s != [] {
      if IsOperandText(s[0]) { OperandIsNotParen(s[0]); }
      StackHasNoOperands(s[1..]);
    }
  }

  lemma PushPopShape(s: seq<string>, x: string)
    ensures (s + [x])[..|s + [x]| - 1] == s
  {
  }

  /** The top of a well-shaped stack is an operator or `(`, and what lies under it is well shaped. */
  lemma PopShape(stack: seq<string>)
    requires stack != [] && StackShape(stack)
    ensures stack == Pop(stack) + [Top(stack)] && StackShape(Pop(stack))
    ensures IsArithOp(Top(stack)) || Top(stack) == "("
    ensures Opens(stack) == Opens(Pop(stack)) + (if Top(stack) == "(" then 1 else 0)
  {
    var rest := Pop(stack);
    forall k | 0 <= k < |rest| ensures IsArithOp(rest[k]) || rest[k] == "(" {
      assert rest[k] == stack[k];
    }
  }

  /** Moving operator `t` from the top of the stack to the end of the output. */
  lemma MoveOperator(rest: seq<string>, t: string, out: seq<string>)
    requires IsArithOp(t) && OperandsAndOperators(out)
    ensures OperandsAndOperators(out + [t]) && Operands(out + [t]) == Operands(out)
    ensures Bag(out + [t]) + Bag(rest) == Bag(out) + Bag(rest + [t])
  {
    MoveOperands(t, out);
    BagConcat(rest, [t]);
    BagConcat(out, [t]);
  }

  lemma MoveOperands(t: string, out: seq<string>)
    requires IsArithOp(t) && OperandsAndOperators(out)
    ensures OperandsAndOperators(out + [t]) && Operands(out + [t]) == Operands(out)
  {
    OperandsConcat(out, [t]);
    if IsOperandText(t) { OperandIsNotParen(t); }
    assert Operands([t]) == [];
  }

  lemma {:induction false} PopWhileFacts(stack: seq<string>, out: seq<string>, p: nat)
    requires p >= 1 && StackShape(stack) && OperandsAndOperators(out)
    ensures var (s, o) := PopWhileAtLeast(stack, out, p);
      StackShape(s) && OperandsAndOperators(o) && Opens(s) == Opens(stack) &&
      Operands(o) == Operands(out) &&
      Bag(o) + Bag(s) == Bag(out) + Bag(stack)
    decreases |stack|
  {
    if stack != [] && Prec(Top(stack)) >= p {
      PopShape(stack);
      MoveOperator(Pop(stack), Top(stack), out);
      PopWhileFacts(Pop(stack), out + [Top(stack)], p);
    }
  }

  lemma {:induction false} PopToParenFacts(stack: seq<string>, out: seq<string>)
    requires StackShape(stack) && OperandsAndOperators(out)
    ensures var (s, o) := PopToParen(stack, out);
      StackShape(s) && OperandsAndOperators(o) && Opens(s) == Opens(stack) &&
      (s != [] ==> Top(s) == "(") && (s == [] <==> Opens(stack) == 0) &&
      Operands(o) == Operands(out) &&
      Bag(o) + Bag(s) == Bag(out) + Bag(stack)
    decreases |stack|
  {
    if stack != [] {
      PopShape(stack);
      if Top(stack) != "(" {
        MoveOperator(Pop(stack), Top(stack), out);
        PopToParenFacts(Pop(stack), out + [Top(stack)]);
      }
    }
  }

  lemma {:induction false} DrainFacts(stack: seq<string>, out: seq<string>)
    requires StackShape(stack) && OperandsAndOperators(out)
    ensures Opens(stack) != 0 ==> Drain(stack, out) == []
    ensures Opens(stack) == 0 ==>
      var r := Drain(stack, out);
      OperandsAndOperators(r) && Operands(r) == Operands(out) &&
      Bag(r) == Bag(out) + Bag(stack)
    decreases |stack|
  {
    if stack != [] {
      PopShape(stack);
      if Top(stack) != "(" {
        assert Top(stack) != ")";
        MoveOperator(Pop(stack), Top(stack), out);
        DrainFacts(Pop(stack), out + [Top(stack)]);
      }
    }
  }

  /** What the shunting loop from `k` delivers as `r`, stated against the input. */
  predicate Delivers(r: seq<string>, expr: seq<string>, k: nat, stack: seq<string>, out: seq<string>)
    requires k <= |expr|
  {
    if Balances(expr, k, Opens(stack)) then
      OperandsAndOperators(r) &&
      Operands(r) == Operands(out) + Operands(expr[k..]) &&
      Bag(r) == Bag(out) + Bag(stack) + Bag(expr[k..])
    else r == []
  }

  predicate ShuntPost(expr: seq<string>, k: nat, stack: seq<string>, out: seq<string>)
    requires k <= |expr|
  {
    Delivers(ShuntFrom(expr, k, stack, out), expr, k, stack, out)
  }

  lemma SuffixSplit(expr: seq<string>, k: nat)
    requires k < |expr|
    ensures Operands(expr[k..]) == Operands([expr[k]]) + Operands(expr[k + 1..])
    ensures Bag(expr[k..]) == Bag([expr[k]]) + Bag(expr[k + 1..])
  {
    assert expr[k..] == [expr[k]] + expr[k + 1..];
    OperandsConcat([expr[k]], expr[k + 1..]);
    BagConcat([expr[k]], expr[k + 1..]);
  }

  lemma OperandStep(expr: seq<string>, k: nat, stack: seq<string>, out: seq<string>)
    requires k < |expr| && IsOperandText(expr[k])
    requires ShuntPost(expr, k + 1, stack, out + [expr[k]])
    ensures ShuntPost(expr, k, stack, out)
  {
    var tok := expr[k];
    OperandIsNotParen(tok);
    assert ShuntFrom(expr, k, stack, out) == ShuntFrom(expr, k + 1, stack, out + [tok]);
    OperandPushed(ShuntFrom(expr, k + 1, stack, out + [tok]), expr, k, stack, out);
  }

  lemma OperandPushed(r: seq<string>, expr: seq<string>, k: nat, stack: seq<string>, out: seq<string>)
    requires k < |expr| && IsOperandText(expr[k])
    requires Delivers(r, expr, k + 1, stack, out + [expr[k]])
    ensures Delivers(r, expr, k, stack, out)
  {
    var tok := expr[k];
    OperandIsNotParen(tok);
    assert Balances(expr, k, Opens(stack)) == Balances(expr, k + 1, Opens(stack));
    SuffixSplit(expr, k);
    OperandMoves(out, tok, expr[k + 1..]);
  }

  /** Proof helper: moving operand `tok` from the input to the output keeps both totals. */
  lemma OperandMoves(out: seq<string>, tok: string, rest: seq<string>)
    requires IsOperandText(tok)
    ensures Operands(out + [tok]) + Operands(rest) == Operands(out) + (Operands([tok]) + Operands(rest))
    ensures Bag(out + [tok]) == Bag(out) && Bag([tok]) + Bag(rest) == Bag(rest)
  {
    OperandIsNotParen(tok);
    OperandsConcat(out, [tok]);
    BagConcat(out, [tok]);
    assert Operands([tok]) == [tok];
    assert Bag([tok]) == multiset{};
  }

  lemma OperatorStep(expr: seq<string>, k: nat, stack: seq<string>, out: seq<string>)
    requires k < |expr| && IsArithOp(expr[k]) && StackShape(stack) && OperandsAndOperators(out)
    requires var (s, o) := PopWhileAtLeast(stack, out, Prec(expr[k]));
      ShuntPost(expr, k + 1, s + [expr[k]], o)
    ensures ShuntPost(expr, k, stack, out)
  {
    var tok := expr[k];
    var (s, o) := PopWhileAtLeast(stack, out, Prec(tok));
    if IsOperandText(tok) { OperandIsNotParen(tok); }
    assert ShuntFrom(expr, k, stack, out) == ShuntFrom(expr, k + 1, s + [tok], o);
    PopWhileFacts(stack, out, Prec(tok));
    OperatorPushed(ShuntFrom(expr, k + 1, s + [tok], o), expr, k, stack, out, s, o);
  }

  lemma OperatorPushed(r: seq<string>, expr: seq<string>, k: nat, stack: seq<string>, out: seq<string>, s: seq<string>, o: seq<string>)
    requires k < |expr| && IsArithOp(expr[k])
    requires Opens(s) == Opens(stack) && Operands(o) == Operands(out)
    requires Bag(o) + Bag(s) == Bag(out) + Bag(stack)
    requires Delivers(r, expr, k + 1, s + [expr[k]], o)
    ensures Delivers(r, expr, k, stack, out)
  {
    var tok := expr[k];
    PushOperator(s, tok);
    OperatorToken(expr, k);
    var d := Opens(stack);
    assert Balances(expr, k, d) == Balances(expr, k + 1, d);
    if Balances(expr, k, d) {
      MultisetMove(Bag(o), Bag(s), multiset{tok}, Bag(expr[k + 1..]),
        Bag(out), Bag(stack), Bag(r));
    }
  }

  /** An operator token adds itself to the operators and nothing to the operands. */
  lemma OperatorToken(expr: seq<string>, k: nat)
    requires k < |expr| && IsArithOp(expr[k])
    ensures Operands(expr[k..]) == Operands(expr[k + 1..])
    ensures Bag(expr[k..]) == multiset{expr[k]} + Bag(expr[k + 1..])
  {
    var tok := expr[k];
    if IsOperandText(tok) { OperandIsNotParen(tok); }
    SuffixSplit(expr, k);
    assert Operands([tok]) == [] && Bag([tok]) == multiset{tok};
  }

  /** Pushing an operator adds it to the operators and leaves the count of `(` alone. */
  lemma PushOperator(s: seq<string>, tok: string)
    requires IsArithOp(tok)
    ensures Bag(s + [tok]) == Bag(s) + multiset{tok} && Opens(s + [tok]) == Opens(s)
  {
    BagConcat(s, [tok]);
    PushPopShape(s, tok);
  }

  /** Proof helper: multiset algebra for moving an operator from the stack to the output. */
  lemma MultisetMove(a: multiset<string>, b: multiset<string>, t: multiset<string>, c: multiset<string>, d: multiset<string>, e: multiset<string>, r: multiset<string>)
    requires r == a + (b + t) + c && a + b == d + e
    ensures r == d + e + (t + c)
  {
  }

  lemma OpenStep(expr: seq<string>, k: nat, stack: seq<string>, out: seq<string>)
    requires k < |expr| && expr[k] == "("
    requires ShuntPost(expr, k + 1, stack + ["("], out)
    ensures ShuntPost(expr, k, stack, out)
  {
    NotOperand("(");
    assert ShuntFrom(expr, k, stack, out) == ShuntFrom(expr, k + 1, stack + ["("], out);
    OpenPushed(ShuntFrom(expr, k + 1, stack + ["("], out), expr, k, stack, out);
  }

  lemma OpenPushed(r: seq<string>, expr: seq<string>, k: nat, stack: seq<string>, out: seq<string>)
    requires k < |expr| && expr[k] == "("
    requires Delivers(r, expr, k + 1, stack + ["("], out)
    ensures Delivers(r, expr, k, stack, out)
  {
    NotOperand("(");
    PushPopShape(stack, "(");
    assert Opens(stack + ["("]) == Opens(stack) + 1;
    assert Balances(expr, k, Opens(stack)) == Balances(expr, k + 1, Opens(stack + ["("]));
    SuffixSplit(expr, k);
    BagConcat(stack, ["("]);
    assert Operands(["("]) == [] && Bag(["("]) == multiset{};
    assert Operands(expr[k..]) == Operands(expr[k + 1..]);
    assert Bag(expr[k..]) == Bag(expr[k + 1..]);
    assert Bag(stack + ["("]) == Bag(stack);
  }

  lemma CloseStep(expr: seq<string>, k: nat, stack: seq<string>, out: seq<string>)
    requires k < |expr| && expr[k] == ")" && StackShape(stack) && OperandsAndOperators(out)
    requires var (s, o) := PopToParen(stack, out);
      s != [] ==> ShuntPost(expr, k + 1, Pop(s), o)
    ensures ShuntPost(expr, k, stack, out)
  {
    var (s, o) := PopToParen(stack, out);
    PopToParenFacts(stack, out);
    NotOperand(")");
    assert !IsArithOp(")") && ")" != "(";
    if s != [] {
      assert ShuntFrom(expr, k, stack, out) == ShuntFrom(expr, k + 1, Pop(s), o);
      CloseMatched(ShuntFrom(expr, k + 1, Pop(s), o), expr, k, stack, out, s, o);
    } else {
      assert ShuntFrom(expr, k, stack, out) == [];
      assert !Balances(expr, k, Opens(stack));
    }
  }

  lemma CloseMatched(r: seq<string>, expr: seq<string>, k: nat, stack: seq<string>, out: seq<string>, s: seq<string>, o: seq<string>)
    requires k < |expr| && expr[k] == ")" && s != [] && Top(s) == "("
    requires Opens(s) == Opens(stack) && Operands(o) == Operands(out)
    requires Bag(o) + Bag(s) == Bag(out) + Bag(stack)
    requires Delivers(r, expr, k + 1, Pop(s), o)
    ensures Delivers(r, expr, k, stack, out)
  {
    PopOpenParen(s);
    NotOperand(")");
    SkipNonOperand(expr, k);
    BalancesAtClose(expr, k, Opens(stack));
    MultisetRegroup(Bag(o), Bag(Pop(s)), Bag(expr[k + 1..]),
      Bag(out), Bag(stack));
    DeliversTransfer(r, expr, k + 1, Pop(s), o, k, stack, out);
  }

  /** Two shunting states that agree on balance, on the operands still to come and on the
      multiset of operators still to come deliver the same promise. */
  lemma DeliversTransfer(r: seq<string>, expr: seq<string>, k: nat, stack: seq<string>, out: seq<string>,
                         k': nat, stack': seq<string>, out': seq<string>)
    requires k <= |expr| && k' <= |expr|
    requires Balances(expr, k, Opens(stack)) == Balances(expr, k', Opens(stack'))
    requires Operands(out) + Operands(expr[k..]) == Operands(out') + Operands(expr[k'..])
    requires Bag(out) + Bag(stack) + Bag(expr[k..]) ==
      Bag(out') + Bag(stack') + Bag(expr[k'..])
    requires Delivers(r, expr, k, stack, out)
    ensures Delivers(r, expr, k', stack', out')
  {
  }

  /** At a `)` with `d > 0` open parentheses, balance is decided one depth lower from the next token. */
  lemma BalancesAtClose(expr: seq<string>, k: nat, d: nat)
    requires k < |expr| && expr[k] == ")" && d > 0
    ensures Balances(expr, k, d) == Balances(expr, k + 1, d - 1)
  {
    assert expr[k] != "(" by { assert ")"[0] != "("[0]; }
  }

  /** Proof helper: multiset algebra, adding the same part to both sides. */
  lemma MultisetRegroup(a: multiset<string>, b: multiset<string>, c: multiset<string>, d: multiset<string>, e: multiset<string>)
    requires a + b == d + e
    ensures a + b + c == d + e + c
  {
  }

  /** Removing a `(` from the top changes neither the operators nor, apart from one, the count of `(`. */
  lemma PopOpenParen(s: seq<string>)
    requires s != [] && Top(s) == "("
    ensures Bag(s) == Bag(Pop(s)) && Opens(s) == Opens(Pop(s)) + 1
  {
    assert s == Pop(s) + ["("];
    BagConcat(Pop(s), ["("]);
    assert Bag(["("]) == multiset{};
  }

  /** A token that is neither operand nor operator contributes to neither view. */
  lemma SkipNonOperand(expr: seq<string>, k: nat)
    requires k < |expr| && !IsOperandText(expr[k]) && !IsArithOp(expr[k])
    ensures Operands(expr[k..]) == Operands(expr[k + 1..]) && Bag(expr[k..]) == Bag(expr[k + 1..])
  {
    SuffixSplit(expr, k);
    assert Operands([expr[k]]) == [] && Bag([expr[k]]) == multiset{};
  }

  lemma OtherStep(expr: seq<string>, k: nat, stack: seq<string>, out: seq<string>)
    requires k < |expr| && !IsOperandText(expr[k]) && !IsArithOp(expr[k]) && expr[k] != "(" && expr[k] != ")"
    requires ShuntPost(expr, k + 1, stack, out)
    ensures ShuntPost(expr, k, stack, out)
  {
    SuffixSplit(expr, k);
    assert Operands([expr[k]]) == [] && Bag([expr[k]]) == multiset{};
  }

  lemma {:induction false} ShuntFacts(expr: seq<string>, k: nat, stack: seq<string>, out: seq<string>)
    requires k <= |expr| && StackShape(stack) && OperandsAndOperators(out)
    ensures ShuntPost(expr, k, stack, out)
    decreases |expr| - k
  {
    if k == |expr| {
      assert expr[k..] == [];
      DrainFacts(stack, out);
    } else {
      var tok := expr[k];
      if IsOperandText(tok) {
        ShuntFacts(expr, k + 1, stack, out + [tok]);
        OperandStep(expr, k, stack, out);
      } else if IsArithOp(tok) {
        var (s, o) := PopWhileAtLeast(stack, out, Prec(tok));
        PopWhileFacts(stack, out, Prec(tok));
        assert StackShape(s + [tok]);
        ShuntFacts(expr, k + 1, s + [tok], o);
        OperatorStep(expr, k, stack, out);
      } else if tok == "(" {
        assert StackShape(stack + ["("]);
        ShuntFacts(expr, k + 1, stack + ["("], out);
        OpenStep(expr, k, stack, out);
      } else if tok == ")" {
        var (s, o) := PopToParen(stack, out);
        PopToParenFacts(stack, out);
        if s != [] {
          ShuntFacts(expr, k + 1, Pop(s), o);
        }
        CloseStep(expr, k, stack, out);
      } else {
        ShuntFacts(expr, k + 1, stack, out);
        OtherStep(expr, k, stack, out);
      }
    }
  }

  /** What toPostfix promises: on mismatched parentheses the empty list;
      otherwise a list with no parentheses, holding the operands in their
      original order and exactly the operators of the input, every other
      token dropped. */
  lemma ToPostfixFacts(expr: seq<string>)
    ensures var r := ToPostfix(expr);
      (!ParensBalanced(expr) ==> r == []) &&
      (ParensBalanced(expr) ==>
        OperandsAndOperators(r) &&
        Operands(r) == Operands(expr) &&
        multiset(Operators(r)) == multiset(Operators(expr)))
  {
    ShuntFacts(expr, 0, [], []);
    assert expr[0..] == expr;
    BagIsOperators(expr);
    BagIsOperators(ToPostfix(expr));
  }

  lemma OperandsAndOperatorsHasNoParens(s: seq<string>)
    requires OperandsAndOperators(s)
    ensures "(" !in s && ")" !in s
  {
    if "(" in s {
      var k :| 0 <= k < |s| && s[k] == "(";
      if IsOperandText(s[k]) { OperandIsNotParen(s[k]); }
    }
    if ")" in s {
      var k :| 0 <= k < |s| && s[k] == ")";
      if IsOperandText(s[k]) { OperandIsNotParen(s[k]); }
    }
  }

  /** Operators of equal precedence leave the stack left to right. */
  lemma LeftAssociativeExample()
    ensures ToPostfix(["a", "-", "b", "-", "c"]) == ["a", "b", "-", "c", "-"]
  {
    var e := ["a", "-", "b", "-", "c"];
    assert IsIdentifierText("a") && IsIdentifierText("b") && IsIdentifierText("c");
    NotOperand("-");
    assert [] + ["a"] == ["a"] && [] + ["-"] == ["-"] && ["a"] + ["b"] == ["a", "b"];
    assert ["-"][..0] == [] && ["a", "b"] + ["-"] == ["a", "b", "-"];
    assert ["a", "b", "-"] + ["c"] == ["a", "b", "-", "c"] && ["a", "b", "-", "c"] + ["-"] == ["a", "b", "-", "c", "-"];
    assert ShuntFrom(e, 0, [], []) == ShuntFrom(e, 1, [], ["a"]);
    assert ShuntFrom(e, 1, [], ["a"]) == ShuntFrom(e, 2, ["-"], ["a"]);
    assert ShuntFrom(e, 2, ["-"], ["a"]) == ShuntFrom(e, 3, ["-"], ["a", "b"]);
    assert PopWhileAtLeast(["-"], ["a", "b"], 1) == ([], ["a", "b", "-"]);
    assert ShuntFrom(e, 3, ["-"], ["a", "b"]) == ShuntFrom(e, 4, ["-"], ["a", "b", "-"]);
    assert ShuntFrom(e, 4, ["-"], ["a", "b", "-"]) == ShuntFrom(e, 5, ["-"], ["a", "b", "-", "c"]);
    assert Drain(["-"], ["a", "b", "-", "c"]) == Drain([], ["a", "b", "-", "c", "-"]);
  }

  /** `*` binds tighter than `+`. */
  lemma PrecedenceExample()
    ensures ToPostfix(["a", "+", "b", "*", "c"]) == ["a", "b", "c", "*", "+"]
  {
    var e := ["a", "+", "b", "*", "c"];
    PrecedenceFirstSteps();
    assert IsIdentifierText("c");
    NotOperand("*");
    assert ["+"] + ["*"] == ["+", "*"] && ["a", "b"] + ["c"] == ["a", "b", "c"];
    assert ["a", "b", "c"] + ["*"] == ["a", "b", "c", "*"] && ["a", "b", "c", "*"] + ["+"] == ["a", "b", "c", "*", "+"];
    assert ["+", "*"][..1] == ["+"] && ["+"][..0] == [];
    assert ShuntFrom(e, 3, ["+"], ["a", "b"]) == ShuntFrom(e, 4, ["+", "*"], ["a", "b"]);
    assert ShuntFrom(e, 4, ["+", "*"], ["a", "b"]) == ShuntFrom(e, 5, ["+", "*"], ["a", "b", "c"]);
    assert Drain(["+", "*"], ["a", "b", "c"]) == Drain(["+"], ["a", "b", "c", "*"]);
    assert Drain(["+"], ["a", "b", "c", "*"]) == Drain([], ["a", "b", "c", "*", "+"]);
  }

  /** The first three steps of the example above: `a + b` with `+` still on the stack. */
  lemma PrecedenceFirstSteps()
    ensures var e := ["a", "+", "b", "*", "c"];
      ShuntFrom(e, 0, [], []) == ShuntFrom(e, 3, ["+"], ["a", "b"])
  {
    var e := ["a", "+", "b", "*", "c"];
    assert IsIdentifierText("a") && IsIdentifierText("b");
    NotOperand("+");
    assert [] + ["a"] == ["a"] && [] + ["+"] == ["+"] && ["a"] + ["b"] == ["a", "b"];
    assert ShuntFrom(e, 0, [], []) == ShuntFrom(e, 1, [], ["a"]);
    assert ShuntFrom(e, 1, [], ["a"]) == ShuntFrom(e, 2, ["+"], ["a"]);
    assert ShuntFrom(e, 2, ["+"], ["a"]) == ShuntFrom(e, 3, ["+"], ["a", "b"]);
  }

  /** Parentheses override precedence and leave no trace in the output. */
  lemma ParenthesesExample()
    ensures ToPostfix(["(", "a", "+", "b", ")", "*", "c"]) == ["a", "b", "+", "c", "*"]
  {
    var e := ["(", "a", "+", "b", ")", "*", "c"];
    ParenthesesInside();
    assert IsIdentifierText("c");
    NotOperand(")");
    NotOperand("*");
    assert ["(", "+"][..1] == ["("] && ["("][..0] == [] && ["a", "b"] + ["+"] == ["a", "b", "+"];
    assert [] + ["*"] == ["*"] && ["a", "b", "+"] + ["c"] == ["a", "b", "+", "c"];
    assert ["*"][..0] == [] && ["a", "b", "+", "c"] + ["*"] == ["a", "b", "+", "c", "*"];
    assert PopToParen(["(", "+"], ["a", "b"]) == (["("], ["a", "b", "+"]);
    assert ShuntFrom(e, 4, ["(", "+"], ["a", "b"]) == ShuntFrom(e, 5, [], ["a", "b", "+"]);
    assert ShuntFrom(e, 5, [], ["a", "b", "+"]) == ShuntFrom(e, 6, ["*"], ["a", "b", "+"]);
    assert ShuntFrom(e, 6, ["*"], ["a", "b", "+"]) == ShuntFrom(e, 7, ["*"], ["a", "b", "+", "c"]);
    assert Drain(["*"], ["a", "b", "+", "c"]) == Drain([], ["a", "b", "+", "c", "*"]);
  }

  /** The first four steps of the example above: the part inside the parentheses. */
  lemma ParenthesesInside()
    ensures var e := ["(", "a", "+", "b", ")", "*", "c"];
      ShuntFrom(e, 0, [], []) == ShuntFrom(e, 4, ["(", "+"], ["a", "b"])
  {
    var e := ["(", "a", "+", "b", ")", "*", "c"];
    assert IsIdentifierText("a") && IsIdentifierText("b");
    NotOperand("(");
    NotOperand("+");
    assert [] + ["("] == ["("] && [] + ["a"] == ["a"] && ["("] + ["+"] == ["(", "+"] && ["a"] + ["b"] == ["a", "b"];
    assert ShuntFrom(e, 0, [], []) == ShuntFrom(e, 1, ["("], []);
    assert ShuntFrom(e, 1, ["("], []) == ShuntFrom(e, 2, ["("], ["a"]);
    assert ShuntFrom(e, 2, ["("], ["a"]) == ShuntFrom(e, 3, ["(", "+"], ["a"]);
    assert ShuntFrom(e, 3, ["(", "+"], ["a"]) == ShuntFrom(e, 4, ["(", "+"], ["a", "b"]);
  }

  /** A `)` without its `(`, or a `(` never closed, gives the empty list. */
  lemma MismatchedExamples()
    ensures ToPostfix(["a", ")"]) == [] && ToPostfix(["(", "a"]) == []
  {
    assert IsIdentifierText("a");
    NotOperand("(");
    NotOperand(")");
    assert ShuntFrom(["a", ")"], 1, [], ["a"]) == [];
    assert ShuntFrom(["(", "a"], 2, ["("], ["a"]) == [];
  }

  // ---------------------------------------------------------------------
  // evaluatePostfix

  /** Constant folding of `a op b` for two numeric literals: Java's `double`
      arithmetic followed by `String.valueOf`, left abstract. */
  type Fold = (string, string, string) -> string

  /** The result of evaluating a postfix list: the value (`null` after an
      error), the temp counter afterwards, and the lines appended to the code. */
  datatype Evaluation = Evaluation(value: Option<string>, temps: nat, lines: seq<Line>)

  /** One operator applied to the two topmost values `op1 op op2`: the value
      pushed, the temp counter afterwards and the lines appended. Two numeric
      literals are folded by `fold` (Java's `double` arithmetic and
      `String.valueOf`); a literal zero divisor gives `0.0` and an error line;
      any other text accepted as an operator gives `0.0`. Otherwise a fresh
      temporary receives the operation. */
  function Combine(fold: Fold, op: string, op1: string, op2: string, temps: nat): (r: (string, nat, seq<Line>))
    ensures IsNumberText(op1) && IsNumberText(op2) ==>
      r.1 == temps &&
      (r.2 != [] <==> op == "/" && IsZeroLiteral(op2)) &&
      (r.2 != [] ==> r.2 == [Error("Division by zero")] && r.0 == "0.0") &&
      (r.2 == [] && IsArithOp(op) ==> r.0 == fold(op1, op, op2)) &&
      (!IsArithOp(op) ==> r.0 == "0.0")
    ensures !(IsNumberText(op1) && IsNumberText(op2)) ==>
      r.1 == temps + 1 && r.0 == Temp(temps) && r.2 == [Binary(temps, op1, op, op2)]
  {
    if IsNumberText(op1) && IsNumberText(op2) then
      if op == "/" && IsZeroLiteral(op2) then ("0.0", temps, [Error("Division by zero")])
      else if IsArithOp(op) then (fold(op1, op, op2), temps, [])
      else ("0.0", temps, [])
    else
      (Temp(temps), temps + 1, [Binary(temps, op1, op, op2)])
  }

  /** The `for` loop of evaluatePostfix from position `k`, with the value
      stack, the temp counter and the lines appended so far. */
  function EvalFrom(fold: Fold, post: seq<string>, k: nat, stack: seq<string>, temps: nat, lines: seq<Line>): (r: Evaluation)
    requires k <= |post|
    ensures r.temps >= temps && |r.lines| >= |lines| && r.lines[..|lines|] == lines
    decreases |post| - k
  {
    if k == |post| then
      if |stack| != 1 then Evaluation(None, temps, lines + [Error("Invalid expression structure")])
      else Evaluation(Some(stack[0]), temps, lines)
    else
      var tok := post[k];
      if IsOperandText(tok) then EvalFrom(fold, post, k + 1, stack + [tok], temps, lines)
      else if InOperatorString(tok) then
        if |stack| < 2 then
          Evaluation(None, temps, lines + [Error("Invalid expression, insufficient operands for " + tok)])
        else
          var c := Combine(fold, tok, stack[|stack| - 2], stack[|stack| - 1], temps);
          var r := EvalFrom(fold, post, k + 1, stack[..|stack| - 2] + [c.0], c.1, lines + c.2);
          assert (lines + c.2)[..|lines|] == lines;
          r
      else EvalFrom(fold, post, k + 1, stack, temps, lines)
  }

  /** evaluatePostfix on a fresh stack, starting from temp counter `temps`. */
  function Eval(fold: Fold, post: seq<string>, temps: nat): Evaluation {
    EvalFrom(fold, post, 0, [], temps, [])
  }

  /** The independent view: the height of the value stack never falls below
      two at an operator and is exactly one at the end. */
  predicate HeightOk(post: seq<string>, k: nat, h: nat)
    requires k <= |post|
    decreases |post| - k
  {
    if k == |post| then h == 1
    else if IsOperandText(post[k]) then HeightOk(post, k + 1, h + 1)
    else if InOperatorString(post[k]) then h >= 2 && HeightOk(post, k + 1, h - 1)
    else HeightOk(post, k + 1, h)
  }

  /** evaluatePostfix returns a value exactly when the stack discipline holds;
      when it returns `null` the last line it appended is an `Error:` line. */
  lemma {:induction false} EvalDefinedIff(fold: Fold, post: seq<string>, k: nat, stack: seq<string>, temps: nat, lines: seq<Line>)
    requires k <= |post|
    ensures var r := EvalFrom(fold, post, k, stack, temps, lines);
      (r.value.Some? <==> HeightOk(post, k, |stack|)) &&
      (r.value.None? ==> |r.lines| > |lines| && r.lines[|r.lines| - 1].Error?)
    decreases |post| - k
  {
    if k == |post| {
      var line := Error("Invalid expression structure");
      assert (lines + [line])[|lines|] == line;
    } else {
      var tok := post[k];
      if IsOperandText(tok) {
        EvalDefinedIff(fold, post, k + 1, stack + [tok], temps, lines);
      } else if InOperatorString(tok) {
        if |stack| >= 2 {
          var c := Combine(fold, tok, stack[|stack| - 2], stack[|stack| - 1], temps);
          EvalDefinedIff(fold, post, k + 1, stack[..|stack| - 2] + [c.0], c.1, lines + c.2);
        } else {
          var line := Error("Invalid expression, insufficient operands for " + tok);
          assert (lines + [line])[|lines|] == line;
        }
      } else {
        EvalDefinedIff(fold, post, k + 1, stack, temps, lines);
      }
    }
  }

  /** Number of tokens from `k` on that evaluatePostfix treats as operators. */
  function OperatorCount(post: seq<string>, k: nat): nat
    requires k <= |post|
    decreases |post| - k
  {
    if k == |post| then 0
    else (if !IsOperandText(post[k]) && InOperatorString(post[k]) then 1 else 0) + OperatorCount(post, k + 1)
  }

  predicate NoNumbers(s: seq<string>) { forall j :: 0 <= j < |s| ==> !IsNumberText(s[j]) }

  lemma NoNumbersTail(s: seq<string>)
    requires s != [] && NoNumbers(s)
    ensures !IsNumberText(s[0]) && NoNumbers(s[1..])
  {
    assert forall j :: 0 <= j < |s[1..]| ==> s[1..][j] == s[j + 1];
  }


  /** Without numeric literals every operator emits exactly one `tN = a op b`
      line and allocates exactly one temporary. */
  lemma {:induction false} SymbolicEvalTemps(fold: Fold, post: seq<string>, k: nat, stack: seq<string>, temps: nat, lines: seq<Line>)
    requires k <= |post| && HeightOk(post, k, |stack|)
    requires NoNumbers(post[k..]) && NoNumbers(stack)
    ensures var r := EvalFrom(fold, post, k, stack, temps, lines);
      r.temps == temps + OperatorCount(post, k) && |r.lines| == |lines| + OperatorCount(post, k)
    decreases |post| - k
  {
    if k < |post| {
      var tok := post[k];
      assert post[k..][0] == tok && post[k..][1..] == post[k + 1..];
      NoNumbersTail(post[k..]);
      if IsOperandText(tok) {
        SymbolicEvalTemps(fold, post, k + 1, stack + [tok], temps, lines);
      } else if InOperatorString(tok) {
        var c := Combine(fold, tok, stack[|stack| - 2], stack[|stack| - 1], temps);
        TempIsIdentifier(temps);
        var next := stack[..|stack| - 2] + [c.0];
        assert NoNumbers(next) by {
          forall j | 0 <= j < |next| ensures !IsNumberText(next[j]) {
            if j < |stack| - 2 { assert next[j] == stack[j]; }
          }
        }
        SymbolicEvalTemps(fold, post, k + 1, next, c.1, lines + c.2);
      } else {
        SymbolicEvalTemps(fold, post, k + 1, stack, temps, lines);
      }
    }
  }

  /** Each operator takes at most one temporary. */
  lemma {:induction false} EvalTempsAtMostOperators(fold: Fold, post: seq<string>, k: nat, stack: seq<string>, temps: nat, lines: seq<Line>)
    requires k <= |post|
    ensures EvalFrom(fold, post, k, stack, temps, lines).temps <= temps + OperatorCount(post, k)
    decreases |post| - k
  {
    if k < |post| {
      var tok := post[k];
      if IsOperandText(tok) {
        EvalTempsAtMostOperators(fold, post, k + 1, stack + [tok], temps, lines);
      } else if InOperatorString(tok) {
        if |stack| >= 2 {
          var c := Combine(fold, tok, stack[|stack| - 2], stack[|stack| - 1], temps);
          EvalTempsAtMostOperators(fold, post, k + 1, stack[..|stack| - 2] + [c.0], c.1, lines + c.2);
        }
      } else {
        EvalTempsAtMostOperators(fold, post, k + 1, stack, temps, lines);
      }
    }
  }

  /** Folded values are not always literals again: `String.valueOf(1.0 - 2.0)`
      is `-1.0`, which the number pattern rejects, so in `1 2 - 3 -` the
      second operator takes a temporary although every operand of the
      input is a literal. */
  lemma FoldedNegativeTakesTemp(fold: Fold)
    requires fold("1", "-", "2") == "-1.0"
    ensures Eval(fold, ["1", "2", "-", "3", "-"], 1) ==
      Evaluation(Some(Temp(1)), 2, [Binary(1, "-1.0", "-", "3")])
  {
    var post := ["1", "2", "-", "3", "-"];
    assert IsNumberText("1") && IsNumberText("2") && IsNumberText("3");
    assert !IsNumberText("-1.0") by { NotOperand("-1.0"); }
    NotOperand("-");
    assert !IsZeroLiteral("2") by { assert "2"[0] != '0' && "2"[0] != '.'; }
    assert EvalFrom(fold, post, 0, [], 1, []) == EvalFrom(fold, post, 3, ["-1.0"], 1, []);
    assert EvalFrom(fold, post, 3, ["-1.0"], 1, []) == EvalFrom(fold, post, 5, [Temp(1)], 2, [Binary(1, "-1.0", "-", "3")]);
  }
}
