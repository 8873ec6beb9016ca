/** The three-address-code generator as an object: two counters that only
    grow, and the output buffer of the `generate` call in progress, which
    the handlers append to (and a `switch` inserts into at position 0).
    Every method is proved to do what the matching function of `TacSpec`
    describes; a handler's result is the index it returns or the exception. */
module TacGeneration {
  import opened Strings
  import opened Tokens
  import opened Optional
  import opened Lines
  import opened Postfix
  import opened TacSpec

  datatype Step = Next(index: nat) | Thrown

  /** The method outcome `s`, counters `l`, `t` and buffer `code` are those of
      the specified run from buffer `code0`. After the exception the buffer
      is abandoned, so it is not constrained. */
  predicate Follows(s: Step, run: Run, l: nat, t: nat, code: seq<Line>, code0: seq<Line>) {
    match run
    case Run(next, labels, temps, eff) => s == Next(next) && l == labels && t == temps && code == Apply(eff, code0)
    case Threw(labels, temps) => s == Thrown && l == labels && t == temps
  }

  class TACGenerator {
    var labelCount: nat
    var tempCount: nat
    /** The `StringBuilder` of the current `generate` call, one entry per line. */
    var code: seq<Line>
    const fold: Fold

    constructor (fold: Fold)
      ensures labelCount == 1 && tempCount == 1 && code == [] && this.fold == fold
    {
      labelCount := 1;
      tempCount := 1;
      code := [];
      this.fold := fold;
    }

    /** newLabel: the number of the label `Label(n)` it names; the counter moves on. */
    method NewLabel() returns (n: nat)
      modifies this
      ensures n == old(labelCount) && labelCount == old(labelCount) + 1
      ensures tempCount == old(tempCount) && code == old(code)
    {
      n := labelCount;
      labelCount := labelCount + 1;
    }

    /** newTemp: the number of the temporary `Temp(n)` it names; the counter moves on. */
    method NewTemp() returns (n: nat)
      modifies this
      ensures n == old(tempCount) && tempCount == old(tempCount) + 1
      ensures labelCount == old(labelCount) && code == old(code)
    {
      n := tempCount;
      tempCount := tempCount + 1;
    }

    /** The token texts from `i` up to the first `stop` (exclusive), and its index. */
    method CollectUntil(toks: seq<Token>, i: nat, stop: string) returns (words: seq<string>, j: nat)
      ensures j == FindText(toks, i, stop) && words == Header(toks, i, j)
    {
      j := i;
      words := [];
      while j < |toks| && toks[j].text != stop
        invariant i <= j && (i < |toks| ==> j <= |toks|)
        invariant FindText(toks, i, stop) == FindText(toks, j, stop)
        invariant words == Header(toks, i, j)
        decreases |toks| - j
      {
        assert words + [toks[j].text] == Header(toks, i, j + 1);
        words := words + [toks[j].text];
        j := j + 1;
      }
    }

    method ToPostfix(expr: seq<string>) returns (post: seq<string>)
      ensures post == Postfix.ToPostfix(expr)
    {
      var out: seq<string> := [];
      var stack: seq<string> := [];
      var k := 0;
      while k < |expr|
        invariant k <= |expr| && Postfix.ToPostfix(expr) == ShuntFrom(expr, k, stack, out)
      {
        var tok := expr[k];
        if IsOperandText(tok) {
          out := out + [tok];
        } else if IsArithOp(tok) {
          ghost var stack0, out0 := stack, out;
          while stack != [] && Prec(Top(stack)) >= Prec(tok)
            invariant PopWhileAtLeast(stack0, out0, Prec(tok)) == PopWhileAtLeast(stack, out, Prec(tok))
            decreases |stack|
          {
            out := out + [Top(stack)];
            stack := Pop(stack);
          }
          stack := stack + [tok];
        } else if tok == "(" {
          stack := stack + ["("];
        } else if tok == ")" {
          ghost var stack0, out0 := stack, out;
          while stack != [] && Top(stack) != "("
            invariant PopToParen(stack0, out0) == PopToParen(stack, out)
            decreases |stack|
          {
            out := out + [Top(stack)];
            stack := Pop(stack);
          }
          if stack != [] {
            stack := Pop(stack);
          } else {
            return [];
          }
        }
        k := k + 1;
      }
      while stack != []
        invariant Postfix.ToPostfix(expr) == Drain(stack, out)
        decreases |stack|
      {
        var op := Top(stack);
        stack := Pop(stack);
        if op == "(" || op == ")" {
          return [];
        }
        out := out + [op];
      }
      return out;
    }

    method EvaluatePostfix(post: seq<string>) returns (value: Option<string>)
      modifies this
      ensures var ev := Eval(fold, post, old(tempCount));
        value == ev.value && tempCount == ev.temps && code == old(code) + ev.lines
      ensures labelCount == old(labelCount)
    {
      var stack: seq<string> := [];
      ghost var lines: seq<Line> := [];
      var k := 0;
      while k < |post|
        invariant k <= |post|
        invariant Eval(fold, post, old(tempCount)) == EvalFrom(fold, post, k, stack, tempCount, lines)
        invariant code == old(code) + lines && labelCount == old(labelCount)
      {
        var tok := post[k];
        if IsOperandText(tok) {
          stack := stack + [tok];
        } else if InOperatorString(tok) {
          if |stack| < 2 {
            code := code + [Error("Invalid expression, insufficient operands for " + tok)];
            return None;
          }
          var op2 := stack[|stack| - 1];
          var op1 := stack[|stack| - 2];
          ghost var c := Combine(fold, tok, op1, op2, tempCount);
          stack := stack[..|stack| - 2];
          if IsNumberText(op1) && IsNumberText(op2) {
            var result: string;
            if tok == "/" && IsZeroLiteral(op2) {
              code := code + [Error("Division by zero")];
              result := "0.0";
            } else if IsArithOp(tok) {
              result := fold(op1, tok, op2);
            } else {
              result := "0.0";
            }
            stack := stack + [result];
          } else {
            var temp := NewTemp();
            code := code + [Binary(temp, op1, tok, op2)];
            stack := stack + [Temp(temp)];
          }
          lines := lines + c.2;
        }
        k := k + 1;
      }
      if |stack| != 1 {
        code := code + [Error("Invalid expression structure")];
        return None;
      }
      return Some(stack[0]);
    }

    method HandleAssignment(toks: seq<Token>, i: nat) returns (next: nat)
      modifies this
      ensures Follows(Next(next), Assign(toks, fold, i, old(labelCount), old(tempCount)), labelCount, tempCount, code, old(code))
    {
      ghost var spec := Assign(toks, fold, i, labelCount, tempCount);
      ghost var code0 := code;
      if i == 0 || i + 1 >= |toks| || toks[i - 1].kind != Identifier {
        code := code + [AssignError("Invalid assignment", i)];
        assert code == Apply(spec.eff, code0);
        return i + 1;
      }
      var left := toks[i - 1].text;
      var expression, j := CollectUntil(toks, i + 1, ";");
      if expression == [] {
        code := code + [AssignError("Empty expression in assignment", i)];
        assert code == Apply(spec.eff, code0);
        return j;
      }
      var postfix := ToPostfix(expression);
      if postfix == [] {
        code := code + [AssignError("Invalid expression in assignment", i)];
        assert code == Apply(spec.eff, code0);
        return j;
      }
      ghost var ev := Eval(fold, postfix, tempCount);
      var result := EvaluatePostfix(postfix);
      if result.Some? {
        code := code + [Copy(left, result.value)];
      }
      ghost var tail := if ev.value.Some? then [Copy(left, ev.value.value)] else [];
      assert spec.eff == Effect([], ev.lines + tail);
      assert code == code0 + ev.lines + tail;
      return j + 1;
    }

    /** The optional `{ ... }` body at `open`, shared by the four handlers. */
    method BracedBody(toks: seq<Token>, open: nat, ghost acc: Effect, ghost code0: seq<Line>) returns (r: Step)
      requires code == Apply(acc, code0)
      modifies this
      ensures Follows(r, Body(toks, fold, open, old(labelCount), old(tempCount), acc), labelCount, tempCount, code, code0)
      decreases |toks| - open, 0
    {
      var k := open;
      if k < |toks| && toks[k].text == "{" {
        k := k + 1;
        ghost var cur := acc;
        while k < |toks| && toks[k].text != "}"
          invariant k > open
          invariant BlockAcc(toks, fold, open + 1, old(labelCount), old(tempCount), acc) ==
            BlockAcc(toks, fold, k, labelCount, tempCount, cur)
          invariant code == Apply(cur, code0)
          decreases |toks| - k
        {
          ghost var s := Stmt(toks, fold, k, labelCount, tempCount);
          var step := ProcessStatement(toks, k);
          if step.Thrown? {
            return Thrown;
          }
          ApplyThen(cur, s.eff, code0);
          cur := Then(cur, s.eff);
          k := step.index;
        }
        k := k + 1;
      }
      return Next(k);
    }

    method HandleIfStatement(toks: seq<Token>, i: nat) returns (r: Step)
      requires i < |toks|
      modifies this
      ensures Follows(r, If(toks, fold, i, old(labelCount), old(tempCount)), labelCount, tempCount, code, old(code))
      decreases |toks| - i, 1
    {
      ghost var code0, l0, t0 := code, labelCount, tempCount;
      var cond, j := CollectUntil(toks, i + 2, ")");
      var labelEnd := NewLabel();
      var labelElse := NewLabel();
      code := code + [IfFalse(cond, labelElse)];
      ghost var b := Body(toks, fold, j + 1, l0 + 2, t0, Effect([], [IfFalse(cond, labelElse)]));
      var s := BracedBody(toks, j + 1, Effect([], [IfFalse(cond, labelElse)]), code0);
      if s.Thrown? {
        return Thrown;
      }
      ApplyEmit(b.eff, [Goto(labelEnd), Mark(labelElse)], code0);
      code := code + [Goto(labelEnd), Mark(labelElse)];
      r := ElseBranch(toks, s.index, labelEnd, Emit(b.eff, [Goto(labelEnd), Mark(labelElse)]), code0);
    }

    /** The optional `else` body at `k` and the end label of an `if`. */
    method ElseBranch(toks: seq<Token>, k: nat, labelEnd: nat, ghost acc: Effect, ghost code0: seq<Line>) returns (r: Step)
      requires code == Apply(acc, code0)
      modifies this
      ensures Follows(r, Else(toks, fold, k, old(labelCount), old(tempCount), acc, labelEnd), labelCount, tempCount, code, code0)
      decreases |toks| - k, 1
    {
      var next := k;
      if k < |toks| && IsKeyword(toks[k], "else") {
        ghost var c := Body(toks, fold, k + 1, labelCount, tempCount, acc);
        var s := BracedBody(toks, k + 1, acc, code0);
        if s.Thrown? {
          return Thrown;
        }
        ApplyEmit(c.eff, [Mark(labelEnd)], code0);
        next := s.index;
      } else {
        ApplyEmit(acc, [Mark(labelEnd)], code0);
      }
      code := code + [Mark(labelEnd)];
      return Next(next);
    }

    method HandleWhileLoop(toks: seq<Token>, i: nat) returns (r: Step)
      requires i < |toks|
      modifies this
      ensures Follows(r, While(toks, fold, i, old(labelCount), old(tempCount)), labelCount, tempCount, code, old(code))
      decreases |toks| - i, 1
    {
      ghost var code0, l0, t0 := code, labelCount, tempCount;
      var cond, j := CollectUntil(toks, i + 2, ")");
      var labelLoop := NewLabel();
      var labelEnd := NewLabel();
      code := code + [Mark(labelLoop), IfFalse(cond, labelEnd)];
      ghost var b := Body(toks, fold, j + 1, l0 + 2, t0, Effect([], [Mark(labelLoop), IfFalse(cond, labelEnd)]));
      var s := BracedBody(toks, j + 1, Effect([], [Mark(labelLoop), IfFalse(cond, labelEnd)]), code0);
      if s.Thrown? {
        return Thrown;
      }
      ApplyEmit(b.eff, [Goto(labelLoop), Mark(labelEnd)], code0);
      code := code + [Goto(labelLoop), Mark(labelEnd)];
      return Next(s.index);
    }

    /** The three parts of the header of the `for` at `i`. */
    method CollectForHeader(toks: seq<Token>, i: nat) returns (init: seq<string>, cond: seq<string>, incr: seq<string>, j3: nat)
      ensures ForHeader(init, cond, incr, j3) == ForParts(toks, i)
    {
      var j1, j2;
      init, j1 := CollectUntil(toks, i + 2, ";");
      cond, j2 := CollectUntil(toks, j1 + 1, ";");
      incr, j3 := CollectUntil(toks, j2 + 1, ")");
    }

    /** Appends `line` when the header part `words` it comes from is non-empty. */
    method EmitUnlessEmpty(words: seq<string>, line: Line)
      modifies this
      ensures code == old(code) + Unless(words, line)
      ensures labelCount == old(labelCount) && tempCount == old(tempCount)
    {
      if words != [] {
        code := code + [line];
      }
    }

    method HandleForLoop(toks: seq<Token>, i: nat) returns (r: Step)
      requires i < |toks|
      modifies this
      ensures Follows(r, For(toks, fold, i, old(labelCount), old(tempCount)), labelCount, tempCount, code, old(code))
      decreases |toks| - i, 1
    {
      ghost var code0, l0, t0 := code, labelCount, tempCount;
      var init, cond, incr, j3 := CollectForHeader(toks, i);
      var labelLoop := NewLabel();
      var labelEnd := NewLabel();
      EmitUnlessEmpty(init, Plain(init));
      code := code + [Mark(labelLoop)];
      EmitUnlessEmpty(cond, IfFalse(cond, labelEnd));
      ghost var head := ForHead(init, cond, labelLoop, labelEnd);
      Assoc(code0, Unless(init, Plain(init)), [Mark(labelLoop)]);
      Assoc(code0, Unless(init, Plain(init)) + [Mark(labelLoop)], Unless(cond, IfFalse(cond, labelEnd)));
      ghost var b := Body(toks, fold, j3 + 1, l0 + 2, t0, Effect([], head));
      var s := BracedBody(toks, j3 + 1, Effect([], head), code0);
      if s.Thrown? {
        return Thrown;
      }
      ghost var before := code;
      EmitUnlessEmpty(incr, Plain(incr));
      code := code + [Goto(labelLoop), Mark(labelEnd)];
      Assoc(before, Unless(incr, Plain(incr)), [Goto(labelLoop), Mark(labelEnd)]);
      ApplyEmit(b.eff, ForTail(incr, labelLoop, labelEnd), code0);
      return Next(s.index);
    }

    /** The statements of one `case` or `default` arm from index `k0`. */
    method CaseBody(toks: seq<Token>, k0: nat, ghost acc: Effect, ghost code0: seq<Line>) returns (r: Step)
      requires code == Apply(acc, code0)
      modifies this
      ensures Follows(r, CaseBodyAcc(toks, fold, k0, old(labelCount), old(tempCount), acc), labelCount, tempCount, code, code0)
      decreases |toks| - k0, 3
    {
      var k := k0;
      ghost var cur := acc;
      while k < |toks| && toks[k].text != "case" && toks[k].text != "default" && toks[k].text != "}" && toks[k].kind != Keyword
        invariant k >= k0
        invariant CaseBodyAcc(toks, fold, k0, old(labelCount), old(tempCount), acc) ==
          CaseBodyAcc(toks, fold, k, labelCount, tempCount, cur)
        invariant code == Apply(cur, code0)
        decreases |toks| - k
      {
        ghost var s := Stmt(toks, fold, k, labelCount, tempCount);
        var step := ProcessStatement(toks, k);
        if step.Thrown? {
          return Thrown;
        }
        ApplyThen(cur, s.eff, code0);
        cur := Then(cur, s.eff);
        k := step.index;
      }
      return Next(k);
    }

    /** Inserts the dispatch lines at position 0, one entry at a time, then the default `goto`. */
    method InsertDispatch(switchVar: seq<string>, caseLabels: CaseMap, defaultLabel: Option<nat>)
      modifies this
      ensures code == Dispatch(switchVar, caseLabels, defaultLabel) + old(code)
      ensures labelCount == old(labelCount) && tempCount == old(tempCount)
    {
      var n := 0;
      while n < |caseLabels|
        invariant n <= |caseLabels|
        invariant code == CaseDispatch(switchVar, caseLabels[..n]) + old(code)
        invariant labelCount == old(labelCount) && tempCount == old(tempCount)
      {
        assert caseLabels[..n + 1][..n] == caseLabels[..n];
        code := [CaseLine(switchVar, caseLabels[n])] + code;
        n := n + 1;
      }
      assert caseLabels[..n] == caseLabels;
      if defaultLabel.Some? {
        code := [Goto(defaultLabel.value)] + code;
      }
    }

    /** One `case` or `default` arm at `k`: allocates its label, records it,
        defines it and runs the arm's statements. */
    method SwitchArm(toks: seq<Token>, k: nat, caseLabels: CaseMap, defaultLabel: Option<nat>, ghost acc: Effect, ghost code0: seq<Line>)
      returns (r: Step, cases: CaseMap, dflt: Option<nat>)
      requires k < |toks| && (IsKeyword(toks[k], "case") || IsKeyword(toks[k], "default"))
      requires code == Apply(acc, code0)
      modifies this
      ensures var a := Arm(toks, fold, k, old(labelCount), old(tempCount), acc, caseLabels, defaultLabel);
        Follows(r, a.0, labelCount, tempCount, code, code0) && cases == a.1 && dflt == a.2
      decreases |toks| - k, 0
    {
      cases, dflt := caseLabels, defaultLabel;
      var i := k;
      var armLabel: nat;
      if IsKeyword(toks[k], "case") {
        i := i + 1;
        if i >= |toks| {
          return Thrown, cases, dflt;
        }
        var caseValue := toks[i].text;
        i := i + 2;
        armLabel := NewLabel();
        cases := Put(cases, caseValue, armLabel);
      } else {
        i := i + 2;
        armLabel := NewLabel();
        dflt := Some(armLabel);
      }
      ApplyEmit(acc, [Mark(armLabel)], code0);
      code := code + [Mark(armLabel)];
      r := CaseBody(toks, i, Emit(acc, [Mark(armLabel)]), code0);
    }

    /** The loop over a switch body from `k0` up to its `}`: the arms' labels
        and statements are appended and their labels recorded. */
    method SwitchArms(toks: seq<Token>, k0: nat) returns (r: Step, caseLabels: CaseMap, defaultLabel: Option<nat>)
      modifies this
      ensures var s := SwitchLoop(toks, fold, k0, old(labelCount), old(tempCount), NoEffect, [], None);
        Follows(r, s.0, labelCount, tempCount, code, old(code)) && (r.Next? ==> caseLabels == s.1 && defaultLabel == s.2)
      decreases |toks| - k0, 1
    {
      ghost var code0 := code;
      caseLabels, defaultLabel := [], None;
      ghost var cur := NoEffect;
      var k := k0;
      while k < |toks| && toks[k].text != "}"
        invariant k >= k0
        invariant SwitchLoop(toks, fold, k0, old(labelCount), old(tempCount), NoEffect, [], None) ==
          SwitchLoop(toks, fold, k, labelCount, tempCount, cur, caseLabels, defaultLabel)
        invariant code == Apply(cur, code0)
        decreases |toks| - k
      {
        var token := toks[k];
        if IsKeyword(token, "case") || IsKeyword(token, "default") {
          ghost var arm := Arm(toks, fold, k, labelCount, tempCount, cur, caseLabels, defaultLabel);
          var step;
          step, caseLabels, defaultLabel := SwitchArm(toks, k, caseLabels, defaultLabel, cur, code0);
          if step.Thrown? {
            return Thrown, caseLabels, defaultLabel;
          }
          k := step.index;
          cur := arm.0.eff;
        } else {
          k := k + 1;
        }
      }
      return Next(k), caseLabels, defaultLabel;
    }

    method HandleSwitchStatement(toks: seq<Token>, i: nat) returns (r: Step)
      requires i < |toks|
      modifies this
      ensures Follows(r, Switch(toks, fold, i, old(labelCount), old(tempCount)), labelCount, tempCount, code, old(code))
      decreases |toks| - i, 1
    {
      ghost var code0 := code;
      var switchVar, j := CollectUntil(toks, i + 2, ")");
      var labelEnd := NewLabel();
      var caseLabels: CaseMap := [];
      var defaultLabel: Option<nat> := None;
      ghost var cur := NoEffect;
      var k := j + 1;
      if k < |toks| && toks[k].text == "{" {
        ghost var s := SwitchLoop(toks, fold, k + 1, labelCount, tempCount, NoEffect, [], None);
        var step;
        step, caseLabels, defaultLabel := SwitchArms(toks, k + 1);
        if step.Thrown? {
          return Thrown;
        }
        cur := s.0.eff;
        k := step.index + 1;
      }
      InsertDispatch(switchVar, caseLabels, defaultLabel);
      code := code + [Mark(labelEnd)];
      ApplyAround(cur, Dispatch(switchVar, caseLabels, defaultLabel), [Mark(labelEnd)], code0);
      return Next(k);
    }

    method ProcessStatement(toks: seq<Token>, i: nat) returns (r: Step)
      requires i < |toks|
      modifies this
      ensures Follows(r, Stmt(toks, fold, i, old(labelCount), old(tempCount)), labelCount, tempCount, code, old(code))
      decreases |toks| - i, 2
    {
      var token := toks[i];
      if IsTypeKeyword(token) {
        var k := i + 1;
        if k < |toks| && toks[k].kind == Identifier {
          k := k + 1;
          if k < |toks| && toks[k].text == "=" {
            var next := HandleAssignment(toks, k);
            return Next(next);
          }
        }
        return Next(k + 1);
      } else if token.kind == Identifier && i + 1 < |toks| && toks[i + 1].text == "=" {
        var next := HandleAssignment(toks, i + 1);
        return Next(next);
      } else if token.kind == Keyword {
        if token.text == "if" {
          r := HandleIfStatement(toks, i);
          return;
        } else if token.text == "while" {
          r := HandleWhileLoop(toks, i);
          return;
        } else if token.text == "for" {
          r := HandleForLoop(toks, i);
          return;
        } else if token.text == "switch" {
          r := HandleSwitchStatement(toks, i);
          return;
        }
      }
      return Next(i + 1);
    }

    /** generate: the counters carry over from earlier calls; the buffer starts empty. */
    method Generate(toks: seq<Token>) returns (out: Outcome)
      modifies this
      ensures (out, labelCount, tempCount) == TacSpec.Generate(toks, fold, old(labelCount), old(tempCount))
      ensures toks != [] && out.Code? ==> out.text == if code == [] then "No valid expressions found." else Listing(code)
    {
      if toks == [] {
        return Code("No tokens provided.");
      }
      code := [];
      ghost var cur := NoEffect;
      var i := 0;
      while i < |toks|
        invariant TopAcc(toks, fold, 0, old(labelCount), old(tempCount), NoEffect) ==
          TopAcc(toks, fold, i, labelCount, tempCount, cur)
        invariant code == Apply(cur, [])
        decreases |toks| - i
      {
        ghost var s := TopStep(toks, fold, i, labelCount, tempCount);
        var token := toks[i];
        var step: Step;
        if token.kind == Keyword {
          if token.text == "for" {
            step := HandleForLoop(toks, i);
          } else if token.text == "if" {
            step := HandleIfStatement(toks, i);
          } else if token.text == "while" {
            step := HandleWhileLoop(toks, i);
          } else if token.text == "switch" {
            step := HandleSwitchStatement(toks, i);
          } else {
            step := Next(i + 1);
          }
        } else if token.kind == Operator && token.text == "=" {
          var next := HandleAssignment(toks, i);
          step := Next(next);
        } else {
          step := Next(i + 1);
        }
        if step.Thrown? {
          return IndexOutOfBounds;
        }
        ApplyThen(cur, s.eff, []);
        cur := Then(cur, s.eff);
        i := step.index;
      }
      ListingEmpty(code);
      var text := Listing(code);
      return Code(if text == [] then "No valid expressions found." else text);
    }
  }
}
