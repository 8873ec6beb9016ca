/** The temporaries of the generator's output: the `tN = a op b` lines of
    one `generate` call name their temporaries in strictly increasing order,
    all drawn from the counter between its value at the start of the call and
    its value at the end. So no temporary is assigned twice, within a call or
    across successive calls on one generator. Handlers never take a
    temporary themselves; only evaluatePostfix does, through newTemp. */
module TacTemps {
  import opened Strings
  import opened Tokens
  import opened Optional
  import opened Lines
  import opened Postfix
  import opened TacSpec
  import TacLemmas

  /** The numbers of the temporaries the lines assign (`tN = a op b`), in order. */
  function Temps(code: seq<Line>): seq<nat> {
    if code == [] then []
    else (if code[0].Binary? then [code[0].temp] else []) + Temps(code[1..])
  }

  lemma {:induction false} TempsConcat(a: seq<Line>, b: seq<Line>)
    ensures Temps(a + b) == Temps(a) + Temps(b)
  {
    if a != [] {
      assert (a + b)[0] == a[0] && (a + b)[1..] == a[1..] + b;
      TempsConcat(a[1..], b);
      var h := if a[0].Binary? then [a[0].temp] else [];
      assert Temps(a + b) == h + (Temps(a[1..]) + Temps(b));
      assert h + (Temps(a[1..]) + Temps(b)) == (h + Temps(a[1..])) + Temps(b);
    } else {
      assert a + b == b;
    }
  }

  /** Lines that assign no temporary. */
  predicate NoBinary(lines: seq<Line>) {
    forall k :: 0 <= k < |lines| ==> !lines[k].Binary?
  }

  lemma {:induction false} TempsNone(lines: seq<Line>)
    requires NoBinary(lines)
    ensures Temps(lines) == []
  {
    if lines != [] {
      assert NoBinary(lines[1..]) by {
        forall k | 0 <= k < |lines[1..]| ensures !lines[1..][k].Binary? {
          assert lines[1..][k] == lines[k + 1];
        }
      }
      TempsNone(lines[1..]);
    }
  }

  /** Strictly increasing numbers, all from `[lo, hi)`. */
  predicate Ascending(s: seq<nat>, lo: nat, hi: nat) {
    lo <= hi &&
    (forall x :: 0 <= x < |s| ==> lo <= s[x] < hi) &&
    (forall x, y :: 0 <= x < y < |s| ==> s[x] < s[y])
  }

  lemma AscendingJoin(a: seq<nat>, b: seq<nat>, lo: nat, mid: nat, hi: nat)
    requires Ascending(a, lo, mid) && Ascending(b, mid, hi)
    ensures Ascending(a + b, lo, hi)
  {
    forall x | 0 <= x < |a + b| ensures lo <= (a + b)[x] < hi {
      if x >= |a| {
        assert (a + b)[x] == b[x - |a|];
      }
    }
    forall x, y | 0 <= x < y < |a + b| ensures (a + b)[x] < (a + b)[y] {
      if y < |a| {
        assert a[x] < a[y];
      } else if x >= |a| {
        assert b[x - |a|] < b[y - |a|];
      } else {
        assert (a + b)[x] == a[x] && (a + b)[y] == b[y - |a|];
      }
    }
  }

  /** Strictly increasing numbers are pairwise distinct. */
  lemma AscendingFresh(s: seq<nat>, lo: nat, hi: nat)
    requires Ascending(s, lo, hi)
    ensures TacLemmas.Fresh(s, lo, hi)
  {
  }

  /** An effect that puts no temporary in front and assigns those of its
      appended lines in increasing order, all from `[lo, hi)`. */
  predicate TempEff(e: Effect, lo: nat, hi: nat) {
    Temps(e.front) == [] && Ascending(Temps(e.back), lo, hi)
  }

  lemma ThenTemps(e1: Effect, e2: Effect, lo: nat, mid: nat, hi: nat)
    requires TempEff(e1, lo, mid) && TempEff(e2, mid, hi)
    ensures TempEff(Then(e1, e2), lo, hi)
  {
    TempsConcat(e2.front, e1.front);
    TempsConcat(e1.back, e2.back);
    AscendingJoin(Temps(e1.back), Temps(e2.back), lo, mid, hi);
  }

  /** Appending lines that assign no temporary. */
  lemma EmitTemps(e: Effect, lines: seq<Line>, lo: nat, hi: nat)
    requires TempEff(e, lo, hi) && NoBinary(lines)
    ensures TempEff(Emit(e, lines), lo, hi)
  {
    TempsNone(lines);
    TempsConcat(e.back, lines);
  }

  lemma StartTemps(lines: seq<Line>, t: nat)
    requires NoBinary(lines)
    ensures TempEff(Effect([], lines), t, t)
  {
    TempsNone(lines);
  }

  // ---------------------------------------------------------------------
  // evaluatePostfix and handleAssignment

  /** One operator step: either folded without a temporary or assigned the
      next one. */
  lemma CombineTemps(fold: Fold, op: string, op1: string, op2: string, temps: nat, lines: seq<Line>, lo: nat)
    requires Ascending(Temps(lines), lo, temps)
    ensures var c := Combine(fold, op, op1, op2, temps);
      Ascending(Temps(lines + c.2), lo, c.1)
  {
    var c := Combine(fold, op, op1, op2, temps);
    TempsConcat(lines, c.2);
    if IsNumberText(op1) && IsNumberText(op2) {
      TempsNone(c.2);
    } else {
      AscendingJoin(Temps(lines), [temps], lo, temps, temps + 1);
    }
  }

  /** Each `tN = a op b` line evaluatePostfix appends takes the next number
      from the counter. */
  lemma {:induction false} EvalTemps(fold: Fold, post: seq<string>, k: nat, stack: seq<string>, temps: nat, lines: seq<Line>, lo: nat)
    requires k <= |post| && Ascending(Temps(lines), lo, temps)
    ensures var r := EvalFrom(fold, post, k, stack, temps, lines);
      Ascending(Temps(r.lines), lo, r.temps)
    decreases |post| - k
  {
    if k == |post| {
      TempsConcat(lines, [Error("Invalid expression structure")]);
    } else {
      var tok := post[k];
      if IsOperandText(tok) {
        EvalTemps(fold, post, k + 1, stack + [tok], temps, lines, lo);
      } else if InOperatorString(tok) {
        if |stack| >= 2 {
          var c := Combine(fold, tok, stack[|stack| - 2], stack[|stack| - 1], temps);
          CombineTemps(fold, tok, stack[|stack| - 2], stack[|stack| - 1], temps, lines, lo);
          EvalTemps(fold, post, k + 1, stack[..|stack| - 2] + [c.0], c.1, lines + c.2, lo);
        } else {
          TempsConcat(lines, [Error("Invalid expression, insufficient operands for " + tok)]);
        }
      } else {
        EvalTemps(fold, post, k + 1, stack, temps, lines, lo);
      }
    }
  }

  lemma AssignTemps(toks: seq<Token>, fold: Fold, i: nat, l: nat, t: nat)
    ensures TempRun(Assign(toks, fold, i, l, t), t)
  {
    var r := Assign(toks, fold, i, l, t);
    if !(i == 0 || i + 1 >= |toks| || toks[i - 1].kind != Identifier) {
      var j := FindText(toks, i + 1, ";");
      var expr := Header(toks, i + 1, j);
      if expr != [] && ToPostfix(expr) != [] {
        var ev := Eval(fold, ToPostfix(expr), t);
        EvalTemps(fold, ToPostfix(expr), 0, [], t, [], t);
        var tail := if ev.value.Some? then [Copy(toks[i - 1].text, ev.value.value)] else [];
        TempsNone(tail);
        TempsConcat(ev.lines, tail);
        assert r.eff == Effect([], ev.lines + tail);
      } else {
        TempsNone(r.eff.back);
      }
    } else {
      TempsNone(r.eff.back);
    }
  }

  // ---------------------------------------------------------------------
  // The handlers, following their mutual recursion call for call

  /** A run that ends normally assigns its temporaries in increasing order,
      all from `[lo, temps)`. */
  predicate TempRun(r: Run, lo: nat) {
    r.Run? ==> TempEff(r.eff, lo, r.temps)
  }

  lemma StmtTemps(toks: seq<Token>, fold: Fold, i: nat, l: nat, t: nat)
    requires i < |toks|
    ensures TempRun(Stmt(toks, fold, i, l, t), t)
    decreases |toks| - i, 2
  {
    var tok := toks[i];
    if IsTypeKeyword(tok) {
      if i + 2 < |toks| && toks[i + 1].kind == Identifier && toks[i + 2].text == "=" {
        AssignTemps(toks, fold, i + 2, l, t);
      }
    } else if tok.kind == Identifier && i + 1 < |toks| && toks[i + 1].text == "=" {
      AssignTemps(toks, fold, i + 1, l, t);
    } else if IsKeyword(tok, "if") {
      IfTemps(toks, fold, i, l, t);
    } else if IsKeyword(tok, "while") {
      WhileTemps(toks, fold, i, l, t);
    } else if IsKeyword(tok, "for") {
      ForTemps(toks, fold, i, l, t);
    } else if IsKeyword(tok, "switch") {
      SwitchTemps(toks, fold, i, l, t);
    }
  }

  lemma BlockTemps(toks: seq<Token>, fold: Fold, j: nat, l: nat, t: nat, acc: Effect, lo: nat)
    requires TempEff(acc, lo, t)
    ensures TempRun(BlockAcc(toks, fold, j, l, t, acc), lo)
    decreases |toks| - j, 3
  {
    if j < |toks| && toks[j].text != "}" {
      var s := Stmt(toks, fold, j, l, t);
      StmtTemps(toks, fold, j, l, t);
      if s.Run? {
        ThenTemps(acc, s.eff, lo, t, s.temps);
        BlockTemps(toks, fold, s.next, s.labels, s.temps, Then(acc, s.eff), lo);
      }
    }
  }

  lemma BodyTemps(toks: seq<Token>, fold: Fold, open: nat, l: nat, t: nat, acc: Effect, lo: nat)
    requires TempEff(acc, lo, t)
    ensures TempRun(Body(toks, fold, open, l, t, acc), lo)
    decreases |toks| - open, 0
  {
    if open < |toks| && toks[open].text == "{" {
      BlockTemps(toks, fold, open + 1, l, t, acc, lo);
    }
  }

  lemma IfTemps(toks: seq<Token>, fold: Fold, i: nat, l: nat, t: nat)
    requires i < |toks|
    ensures TempRun(If(toks, fold, i, l, t), t)
    decreases |toks| - i, 1
  {
    var j := FindText(toks, i + 2, ")");
    var acc := Effect([], [IfFalse(Header(toks, i + 2, j), l + 1)]);
    StartTemps(acc.back, t);
    var b := Body(toks, fold, j + 1, l + 2, t, acc);
    BodyTemps(toks, fold, j + 1, l + 2, t, acc, t);
    if b.Run? {
      EmitTemps(b.eff, [Goto(l), Mark(l + 1)], t, b.temps);
      ElseTemps(toks, fold, b.next, b.labels, b.temps, Emit(b.eff, [Goto(l), Mark(l + 1)]), l, t);
    }
  }

  lemma ElseTemps(toks: seq<Token>, fold: Fold, k: nat, l: nat, t: nat, acc: Effect, lend: nat, lo: nat)
    requires TempEff(acc, lo, t)
    ensures TempRun(Else(toks, fold, k, l, t, acc, lend), lo)
    decreases |toks| - k, 1
  {
    if k < |toks| && IsKeyword(toks[k], "else") {
      var c := Body(toks, fold, k + 1, l, t, acc);
      BodyTemps(toks, fold, k + 1, l, t, acc, lo);
      if c.Run? {
        EmitTemps(c.eff, [Mark(lend)], lo, c.temps);
      }
    } else {
      EmitTemps(acc, [Mark(lend)], lo, t);
    }
  }

  lemma WhileTemps(toks: seq<Token>, fold: Fold, i: nat, l: nat, t: nat)
    requires i < |toks|
    ensures TempRun(While(toks, fold, i, l, t), t)
    decreases |toks| - i, 1
  {
    var j := FindText(toks, i + 2, ")");
    var head := Effect([], [Mark(l), IfFalse(Header(toks, i + 2, j), l + 1)]);
    StartTemps(head.back, t);
    var b := Body(toks, fold, j + 1, l + 2, t, head);
    BodyTemps(toks, fold, j + 1, l + 2, t, head, t);
    if b.Run? {
      EmitTemps(b.eff, [Goto(l), Mark(l + 1)], t, b.temps);
    }
  }

  /** The lines a `for` header and its end put around the body assign no temporary. */
  lemma ForLinesNoBinary(init: seq<string>, cond: seq<string>, incr: seq<string>, l: nat)
    ensures NoBinary(ForHead(init, cond, l, l + 1)) && NoBinary(ForTail(incr, l, l + 1))
  {
    var head := ForHead(init, cond, l, l + 1);
    forall k | 0 <= k < |head| ensures !head[k].Binary? {
      assert head[k] in Unless(init, Plain(init)) + [Mark(l)] + Unless(cond, IfFalse(cond, l + 1));
    }
    var tail := ForTail(incr, l, l + 1);
    forall k | 0 <= k < |tail| ensures !tail[k].Binary? {
      assert tail[k] in Unless(incr, Plain(incr)) + [Goto(l), Mark(l + 1)];
    }
  }

  /** A braced body translated after lines `head` and followed by lines
      `tail`, none of which assigns a temporary: the shape of both loops. */
  lemma WrappedBodyTemps(toks: seq<Token>, fold: Fold, open: nat, l: nat, t: nat, head: seq<Line>, tail: seq<Line>)
    requires NoBinary(head) && NoBinary(tail)
    ensures var b := Body(toks, fold, open, l, t, Effect([], head));
      b.Run? ==> TempEff(Emit(b.eff, tail), t, b.temps)
    decreases |toks| - open, 1
  {
    StartTemps(head, t);
    var b := Body(toks, fold, open, l, t, Effect([], head));
    BodyTemps(toks, fold, open, l, t, Effect([], head), t);
    if b.Run? {
      EmitTemps(b.eff, tail, t, b.temps);
    }
  }

  lemma ForTemps(toks: seq<Token>, fold: Fold, i: nat, l: nat, t: nat)
    requires i < |toks|
    ensures TempRun(For(toks, fold, i, l, t), t)
    decreases |toks| - i, 1
  {
    var h := ForParts(toks, i);
    ForLinesNoBinary(h.init, h.cond, h.incr, l);
    WrappedBodyTemps(toks, fold, h.close + 1, l + 2, t, ForHead(h.init, h.cond, l, l + 1), ForTail(h.incr, l, l + 1));
  }

  lemma CaseBodyTemps(toks: seq<Token>, fold: Fold, j: nat, l: nat, t: nat, acc: Effect, lo: nat)
    requires TempEff(acc, lo, t)
    ensures TempRun(CaseBodyAcc(toks, fold, j, l, t, acc), lo)
    decreases |toks| - j, 3
  {
    if j < |toks| && toks[j].text != "case" && toks[j].text != "default" && toks[j].text != "}" && toks[j].kind != Keyword {
      var s := Stmt(toks, fold, j, l, t);
      StmtTemps(toks, fold, j, l, t);
      if s.Run? {
        ThenTemps(acc, s.eff, lo, t, s.temps);
        CaseBodyTemps(toks, fold, s.next, s.labels, s.temps, Then(acc, s.eff), lo);
      }
    }
  }

  lemma ArmTemps(toks: seq<Token>, fold: Fold, j: nat, l: nat, t: nat, acc: Effect, m: CaseMap, dflt: Option<nat>, lo: nat)
    requires j < |toks| && (IsKeyword(toks[j], "case") || IsKeyword(toks[j], "default"))
    requires TempEff(acc, lo, t)
    ensures TempRun(Arm(toks, fold, j, l, t, acc, m, dflt).0, lo)
    decreases |toks| - j, 0
  {
    EmitTemps(acc, [Mark(l)], lo, t);
    if IsKeyword(toks[j], "case") {
      if j + 1 < |toks| {
        CaseBodyTemps(toks, fold, j + 3, l + 1, t, Emit(acc, [Mark(l)]), lo);
      }
    } else {
      CaseBodyTemps(toks, fold, j + 2, l + 1, t, Emit(acc, [Mark(l)]), lo);
    }
  }

  lemma SwitchLoopTemps(toks: seq<Token>, fold: Fold, j: nat, l: nat, t: nat, acc: Effect, m: CaseMap, dflt: Option<nat>, lo: nat)
    requires TempEff(acc, lo, t)
    ensures TempRun(SwitchLoop(toks, fold, j, l, t, acc, m, dflt).0, lo)
    decreases |toks| - j, 1
  {
    if j < |toks| && toks[j].text != "}" {
      if IsKeyword(toks[j], "case") || IsKeyword(toks[j], "default") {
        var a := Arm(toks, fold, j, l, t, acc, m, dflt);
        ArmTemps(toks, fold, j, l, t, acc, m, dflt, lo);
        if a.0.Run? {
          SwitchLoopTemps(toks, fold, a.0.next, a.0.labels, a.0.temps, a.0.eff, a.1, a.2, lo);
        }
      } else {
        SwitchLoopTemps(toks, fold, j + 1, l, t, acc, m, dflt, lo);
      }
    }
  }

  /** The dispatch lines a switch inserts in front assign no temporary. */
  lemma DispatchNoBinary(sv: seq<string>, m: CaseMap, dflt: Option<nat>)
    ensures NoBinary(Dispatch(sv, m, dflt))
  {
    var d := Dispatch(sv, m, dflt);
    var n := if dflt.Some? then 1 else 0;
    forall k | 0 <= k < |d| ensures !d[k].Binary? {
      if k >= n {
        assert d[k] == CaseDispatch(sv, m)[k - n];
        CaseDispatchTest(sv, m, k - n);
      }
    }
  }

  lemma {:induction false} CaseDispatchTest(sv: seq<string>, m: CaseMap, k: nat)
    requires k < |m|
    ensures CaseDispatch(sv, m)[k].CaseTest?
    decreases |m|
  {
    if k > 0 {
      CaseDispatchTest(sv, m[..|m| - 1], k - 1);
    }
  }

  lemma SwitchTemps(toks: seq<Token>, fold: Fold, i: nat, l: nat, t: nat)
    requires i < |toks|
    ensures TempRun(Switch(toks, fold, i, l, t), t)
    decreases |toks| - i, 1
  {
    var j := FindText(toks, i + 2, ")");
    var sv := Header(toks, i + 2, j);
    StartTemps([], t);
    if j + 1 < |toks| && toks[j + 1].text == "{" {
      var s := SwitchLoop(toks, fold, j + 2, l + 1, t, NoEffect, [], None);
      SwitchLoopTemps(toks, fold, j + 2, l + 1, t, NoEffect, [], None, t);
      var b := s.0;
      if b.Run? {
        DispatchNoBinary(sv, s.1, s.2);
        TempsNone(Dispatch(sv, s.1, s.2));
        TempsConcat(Dispatch(sv, s.1, s.2), b.eff.front);
        EmitTemps(b.eff, [Mark(l)], t, b.temps);
      }
    } else {
      StartTemps([Mark(l)], t);
    }
  }

  // ---------------------------------------------------------------------
  // generate

  lemma TopStepTemps(toks: seq<Token>, fold: Fold, i: nat, l: nat, t: nat)
    requires i < |toks|
    ensures TempRun(TopStep(toks, fold, i, l, t), t)
  {
    var tok := toks[i];
    if IsKeyword(tok, "for") {
      ForTemps(toks, fold, i, l, t);
    } else if IsKeyword(tok, "if") {
      IfTemps(toks, fold, i, l, t);
    } else if IsKeyword(tok, "while") {
      WhileTemps(toks, fold, i, l, t);
    } else if IsKeyword(tok, "switch") {
      SwitchTemps(toks, fold, i, l, t);
    } else if tok == Token(Operator, "=") {
      AssignTemps(toks, fold, i, l, t);
    } else {
      StartTemps([], t);
    }
  }

  lemma {:induction false} TopTemps(toks: seq<Token>, fold: Fold, i: nat, l: nat, t: nat, acc: Effect, lo: nat)
    requires TempEff(acc, lo, t)
    ensures TempRun(TopAcc(toks, fold, i, l, t, acc), lo)
    decreases |toks| - i
  {
    if i < |toks| {
      var s := TopStep(toks, fold, i, l, t);
      TopStepTemps(toks, fold, i, l, t);
      if s.Run? {
        ThenTemps(acc, s.eff, lo, t, s.temps);
        TopTemps(toks, fold, s.next, s.labels, s.temps, Then(acc, s.eff), lo);
      }
    }
  }

  /** generate assigns its temporaries in increasing order and never twice,
      all numbered from the counter it started with up to the counter it
      leaves. */
  lemma GenerateTempsFresh(toks: seq<Token>, fold: Fold, l: nat, t: nat)
    ensures var run := TopAcc(toks, fold, 0, l, t, NoEffect);
      run.Run? ==>
        Ascending(Temps(Apply(run.eff, [])), t, Generate(toks, fold, l, t).2) &&
        TacLemmas.Fresh(Temps(Apply(run.eff, [])), t, Generate(toks, fold, l, t).2)
  {
    StartTemps([], t);
    TopTemps(toks, fold, 0, l, t, NoEffect, t);
    var run := TopAcc(toks, fold, 0, l, t, NoEffect);
    if run.Run? {
      TempsConcat(run.eff.front, []);
      TempsConcat(run.eff.front + [], run.eff.back);
      AscendingFresh(Temps(Apply(run.eff, [])), t, Generate(toks, fold, l, t).2);
    }
  }

  /** Two calls in a row on one generator assign disjoint sets of
      temporaries: the second call's all come after the first call's. */
  lemma SuccessiveCallsTemps(toks1: seq<Token>, toks2: seq<Token>, fold: Fold, l: nat, t: nat)
    ensures var g1 := Generate(toks1, fold, l, t);
      var r1 := TopAcc(toks1, fold, 0, l, t, NoEffect);
      var r2 := TopAcc(toks2, fold, 0, g1.1, g1.2, NoEffect);
      toks1 != [] && toks2 != [] && r1.Run? && r2.Run? ==>
        Ascending(Temps(Apply(r1.eff, [])) + Temps(Apply(r2.eff, [])), t, Generate(toks2, fold, g1.1, g1.2).2)
  {
    var g1 := Generate(toks1, fold, l, t);
    var r1 := TopAcc(toks1, fold, 0, l, t, NoEffect);
    var r2 := TopAcc(toks2, fold, 0, g1.1, g1.2, NoEffect);
    if toks1 != [] && toks2 != [] && r1.Run? && r2.Run? {
      GenerateTempsFresh(toks1, fold, l, t);
      GenerateTempsFresh(toks2, fold, g1.1, g1.2);
      AscendingJoin(Temps(Apply(r1.eff, [])), Temps(Apply(r2.eff, [])), t, g1.2, Generate(toks2, fold, g1.1, g1.2).2);
    }
  }
}
