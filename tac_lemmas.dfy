/** Properties of the generator's output: every label it defines is defined
    once and drawn from the counter, handler output has the documented
    shapes, the switch dispatch lines come in reverse insertion order, and
    the two fixed replies of `generate`. */
module TacLemmas {
  import opened Strings
  import opened Tokens
  import opened Optional
  import opened Lines
  import opened Postfix
  import opened TacSpec

  // ---------------------------------------------------------------------
  // Label definitions

  /** The numbers of the labels the lines define (`LN:`), in order. */
  function Marks(code: seq<Line>): seq<nat> {
    if code == [] then []
    else (if code[0].Mark? then [code[0].lab] else []) + Marks(code[1..])
  }

  lemma {:induction false} MarksConcat(a: seq<Line>, b: seq<Line>)
    ensures Marks(a + b) == Marks(a) + Marks(b)
  {
    if a != [] {
      assert (a + b)[0] == a[0] && (a + b)[1..] == a[1..] + b;
      MarksConcat(a[1..], b);
      var h := if a[0].Mark? then [a[0].lab] else [];
      assert Marks(a + b) == h + (Marks(a[1..]) + Marks(b));
      assert h + (Marks(a[1..]) + Marks(b)) == (h + Marks(a[1..])) + Marks(b);
    } else {
      assert a + b == b;
    }
  }

  lemma MarksOne(x: Line)
    ensures Marks([x]) == if x.Mark? then [x.lab] else []
  {
    assert [x][1..] == [];
  }

  lemma MarksTwo(x: Line, y: Line)
    ensures Marks([x, y]) == Marks([x]) + Marks([y])
  {
    assert [x, y] == [x] + [y];
    MarksConcat([x], [y]);
  }

  /** The labels of `s` are pairwise distinct and lie in `[lo, hi)`. */
  predicate Fresh(s: seq<nat>, lo: nat, hi: nat) {
    (forall x :: 0 <= x < |s| ==> lo <= s[x] < hi) &&
    (forall x, y :: 0 <= x < y < |s| ==> s[x] != s[y])
  }

  /** Two lists of distinct labels from disjoint ranges join into one. */
  lemma FreshJoin(a: seq<nat>, b: seq<nat>, lo1: nat, hi1: nat, lo2: nat, hi2: nat, lo: nat, hi: nat)
    requires Fresh(a, lo1, hi1) && Fresh(b, lo2, hi2) && (hi1 <= lo2 || hi2 <= lo1)
    requires lo <= lo1 && lo <= lo2 && hi1 <= hi && hi2 <= hi
    ensures Fresh(a + b, lo, hi)
  {
    forall x, y | 0 <= x < y < |a + b| ensures (a + b)[x] != (a + b)[y] {
      if y < |a| {
        assert a[x] != a[y];
      } else if x >= |a| {
        assert b[x - |a|] != b[y - |a|];
      } else {
        assert (a + b)[x] == a[x] && (a + b)[y] == b[y - |a|];
      }
    }
  }

  /** An effect that puts no label definition in front and defines each of
      the labels of its appended lines once, all from `[lo, hi)`. */
  predicate FreshEff(e: Effect, lo: nat, hi: nat) {
    Marks(e.front) == [] && Fresh(Marks(e.back), lo, hi)
  }

  lemma ThenFresh(e1: Effect, e2: Effect, lo: nat, mid: nat, hi: nat)
    requires lo <= mid <= hi
    requires FreshEff(e1, lo, mid) && FreshEff(e2, mid, hi)
    ensures FreshEff(Then(e1, e2), lo, hi)
  {
    MarksConcat(e2.front, e1.front);
    MarksConcat(e1.back, e2.back);
    FreshJoin(Marks(e1.back), Marks(e2.back), lo, mid, mid, hi, lo, hi);
  }

  /** Appending lines that define the single label `k`, outside the range so far. */
  lemma EmitFresh(e: Effect, lines: seq<Line>, k: nat, lo: nat, hi: nat, lo': nat, hi': nat)
    requires FreshEff(e, lo, hi) && Marks(lines) == [k] && (k < lo || hi <= k)
    requires lo' <= lo && lo' <= k && hi <= hi' && k < hi'
    ensures FreshEff(Emit(e, lines), lo', hi')
  {
    MarksConcat(e.back, lines);
    FreshJoin(Marks(e.back), [k], lo, hi, k, k + 1, lo', hi');
  }

  /** The labels a buffer holding no definitions defines after an effect. */
  lemma ApplyMarks(e: Effect)
    requires Marks(e.front) == []
    ensures Marks(Apply(e, [])) == Marks(e.back)
  {
    MarksConcat(e.front, []);
    MarksConcat(e.front + [], e.back);
  }

  /** Lines evaluatePostfix can append: temporaries and errors. */
  predicate Computed(lines: seq<Line>) {
    forall k :: 0 <= k < |lines| ==> lines[k].Binary? || lines[k].Error?
  }


  lemma {:induction false} ComputedUnmarked(lines: seq<Line>)
    requires Computed(lines)
    ensures Marks(lines) == []
  {
    if lines != [] {
      assert Computed(lines[1..]) by {
        forall k | 0 <= k < |lines[1..]| ensures lines[1..][k].Binary? || lines[1..][k].Error? {
          assert lines[1..][k] == lines[k + 1];
        }
      }
      ComputedUnmarked(lines[1..]);
    }
  }

  lemma {:induction false} EvalComputed(fold: Fold, post: seq<string>, k: nat, stack: seq<string>, temps: nat, lines: seq<Line>)
    requires k <= |post| && Computed(lines)
    ensures Computed(EvalFrom(fold, post, k, stack, temps, lines).lines)
    decreases |post| - k
  {
    if k < |post| {
      var tok := post[k];
      if IsOperandText(tok) {
        EvalComputed(fold, post, k + 1, stack + [tok], temps, lines);
      } else if InOperatorString(tok) {
        if |stack| >= 2 {
          var c := Combine(fold, tok, stack[|stack| - 2], stack[|stack| - 1], temps);
          assert Computed(lines + c.2);
          EvalComputed(fold, post, k + 1, stack[..|stack| - 2] + [c.0], c.1, lines + c.2);
        } else {
          assert Computed(lines + [Error("Invalid expression, insufficient operands for " + tok)]);
        }
      } else {
        EvalComputed(fold, post, k + 1, stack, temps, lines);
      }
    } else {
      assert Computed(lines + [Error("Invalid expression structure")]);
    }
  }

  /** handleAssignment defines no label. */
  lemma AssignUnmarked(toks: seq<Token>, fold: Fold, i: nat, l: nat, t: nat)
    ensures Marks(Assign(toks, fold, i, l, t).eff.back) == []
  {
    if !(i == 0 || i + 1 >= |toks| || toks[i - 1].kind != Identifier) {
      var j := FindText(toks, i + 1, ";");
      var expr := Header(toks, i + 1, j);
      if expr != [] && ToPostfix(expr) != [] {
        var ev := Eval(fold, ToPostfix(expr), t);
        EvalComputed(fold, ToPostfix(expr), 0, [], t, []);
        ComputedUnmarked(ev.lines);
        var tail := if ev.value.Some? then [Copy(toks[i - 1].text, ev.value.value)] else [];
        MarksConcat(ev.lines, tail);
      }
    }
  }

  lemma {:induction false} CaseDispatchUnmarked(sv: seq<string>, m: CaseMap)
    ensures Marks(CaseDispatch(sv, m)) == []
    decreases |m|
  {
    if m != [] {
      CaseDispatchUnmarked(sv, m[..|m| - 1]);
    }
  }

  lemma DispatchUnmarked(sv: seq<string>, m: CaseMap, dflt: Option<nat>)
    ensures Marks(Dispatch(sv, m, dflt)) == []
  {
    CaseDispatchUnmarked(sv, m);
    MarksConcat(if dflt.Some? then [Goto(dflt.value)] else [], CaseDispatch(sv, m));
  }

  /** A run that ends normally defines each of its labels once, all from `[lo, labels)`. */
  predicate FreshRun(r: Run, lo: nat) {
    r.Run? ==> FreshEff(r.eff, lo, r.labels)
  }

  // The lemmas below follow the mutual recursion of the handlers, call for call.

  lemma StmtFresh(toks: seq<Token>, fold: Fold, i: nat, l: nat, t: nat)
    requires i < |toks|
    ensures FreshRun(Stmt(toks, fold, i, l, t), l)
    decreases |toks| - i, 2
  {
    var tok := toks[i];
    if IsTypeKeyword(tok) {
      if i + 2 < |toks| && toks[i + 1].kind == Identifier && toks[i + 2].text == "=" {
        AssignUnmarked(toks, fold, i + 2, l, t);
      }
    } else if tok.kind == Identifier && i + 1 < |toks| && toks[i + 1].text == "=" {
      AssignUnmarked(toks, fold, i + 1, l, t);
    } else if IsKeyword(tok, "if") {
      IfFresh(toks, fold, i, l, t);
    } else if IsKeyword(tok, "while") {
      WhileFresh(toks, fold, i, l, t);
    } else if IsKeyword(tok, "for") {
      ForFresh(toks, fold, i, l, t);
    } else if IsKeyword(tok, "switch") {
      SwitchFresh(toks, fold, i, l, t);
    }
  }

  lemma BlockFresh(toks: seq<Token>, fold: Fold, j: nat, l: nat, t: nat, acc: Effect, lo: nat)
    requires lo <= l && FreshEff(acc, lo, l)
    ensures FreshRun(BlockAcc(toks, fold, j, l, t, acc), lo)
    decreases |toks| - j, 3
  {
    if j < |toks| && toks[j].text != "}" {
      var s := Stmt(toks, fold, j, l, t);
      StmtFresh(toks, fold, j, l, t);
      if s.Run? {
        ThenFresh(acc, s.eff, lo, l, s.labels);
        BlockFresh(toks, fold, s.next, s.labels, s.temps, Then(acc, s.eff), lo);
      }
    }
  }

  lemma BodyFresh(toks: seq<Token>, fold: Fold, open: nat, l: nat, t: nat, acc: Effect, lo: nat)
    requires lo <= l && FreshEff(acc, lo, l)
    ensures FreshRun(Body(toks, fold, open, l, t, acc), lo)
    decreases |toks| - open, 0
  {
    if open < |toks| && toks[open].text == "{" {
      BlockFresh(toks, fold, open + 1, l, t, acc, lo);
    }
  }

  lemma FreshOne(k: nat)
    ensures Fresh([k], k, k + 1)
  {
  }

  lemma FreshNone(k: nat)
    ensures Fresh([], k, k)
  {
  }

  /** Lines around a body whose own labels come from `[lo, labels)`: the
      head's from `[a1, b1)`, the tail's from `[a2, lo)`, above them. */
  lemma WrapFresh(b: Run, head: seq<Line>, tail: seq<Line>, lo: nat, a1: nat, b1: nat, a2: nat)
    requires FreshRun(b, lo) && (b.Run? ==> b.labels >= lo)
    requires Fresh(Marks(head), a1, b1) && Fresh(Marks(tail), a2, lo) && a1 <= b1 <= a2 <= lo
    ensures FreshRun(Wrap(b, head, tail), a1)
  {
    if b.Run? {
      MarksConcat(head, b.eff.back);
      MarksConcat(head + b.eff.back, tail);
      FreshAround(Marks(head), Marks(b.eff.back), Marks(tail), lo, b.labels, a1, b1, a2);
    }
  }

  lemma FreshAround(mh: seq<nat>, mb: seq<nat>, mt: seq<nat>, lo: nat, hi: nat, a1: nat, b1: nat, a2: nat)
    requires Fresh(mb, lo, hi) && lo <= hi
    requires Fresh(mh, a1, b1) && Fresh(mt, a2, lo) && a1 <= b1 <= a2 <= lo
    ensures Fresh(mh + mb + mt, a1, hi)
  {
    FreshJoin(mb, mt, lo, hi, a2, lo, a2, hi);
    FreshJoin(mh, mb + mt, a1, b1, a2, hi, a1, hi);
    assert mh + (mb + mt) == mh + mb + mt;
  }

  lemma IfFresh(toks: seq<Token>, fold: Fold, i: nat, l: nat, t: nat)
    requires i < |toks|
    ensures FreshRun(If(toks, fold, i, l, t), l)
    decreases |toks| - i, 1
  {
    var j := FindText(toks, i + 2, ")");
    var c := Header(toks, i + 2, j);
    IfShape(toks, fold, i, l, t);
    var b := Body(toks, fold, j + 1, l + 2, t, NoEffect);
    BodyFresh(toks, fold, j + 1, l + 2, t, NoEffect, l + 2);
    if b.Threw? {
      assert If(toks, fold, i, l, t) == b;
    } else if b.next < |toks| && IsKeyword(toks[b.next], "else") {
      var e := Body(toks, fold, b.next + 1, b.labels, b.temps, NoEffect);
      var r := Wrap(After(Wrap(b, [IfFalse(c, l + 1)], [Goto(l), Mark(l + 1)]).eff, e), [], [Mark(l)]);
      assert If(toks, fold, i, l, t) == r;
      BodyFresh(toks, fold, b.next + 1, b.labels, b.temps, NoEffect, b.labels);
      IfElseFresh(b, e, c, l);
    } else {
      assert If(toks, fold, i, l, t) == Wrap(b, [IfFalse(c, l + 1)], [Goto(l), Mark(l + 1), Mark(l)]);
      IfOnlyFresh(b, c, l);
    }
  }

  lemma IfOnlyFresh(b: Run, c: seq<string>, l: nat)
    requires b.Run? && b.labels >= l + 2 && FreshRun(b, l + 2)
    ensures FreshRun(Wrap(b, [IfFalse(c, l + 1)], [Goto(l), Mark(l + 1), Mark(l)]), l)
  {
    MarksOne(IfFalse(c, l + 1));
    FreshNone(l);
    IfTailMarks(l);
    WrapFresh(b, [IfFalse(c, l + 1)], [Goto(l), Mark(l + 1), Mark(l)], l + 2, l, l, l);
  }

  lemma IfTailMarks(l: nat)
    ensures Marks([Goto(l), Mark(l + 1), Mark(l)]) == [l + 1, l]
    ensures Fresh([l + 1, l], l, l + 2)
  {
    MarksOne(Goto(l));
    MarksOne(Mark(l + 1));
    MarksOne(Mark(l));
    MarksTwo(Goto(l), Mark(l + 1));
    assert [Goto(l), Mark(l + 1), Mark(l)] == [Goto(l), Mark(l + 1)] + [Mark(l)];
    MarksConcat([Goto(l), Mark(l + 1)], [Mark(l)]);
  }

  lemma IfElseFresh(b: Run, e: Run, c: seq<string>, l: nat)
    requires b.Run? && b.labels >= l + 2 && FreshRun(b, l + 2)
    requires FreshRun(e, b.labels) && (e.Run? ==> e.labels >= b.labels)
    ensures FreshRun(Wrap(After(Wrap(b, [IfFalse(c, l + 1)], [Goto(l), Mark(l + 1)]).eff, e), [], [Mark(l)]), l)
  {
    var b' := Wrap(b, [IfFalse(c, l + 1)], [Goto(l), Mark(l + 1)]);
    IfThenFresh(b, c, l);
    AfterFresh(b'.eff, e, l + 1, b.labels);
    FreshNone(l);
    OneLabel(l);
    WrapFresh(After(b'.eff, e), [], [Mark(l)], l + 1, l, l, l);
  }

  /** The then-part of an `if` with an `else`: its labels from `L + 1` on. */
  lemma IfThenFresh(b: Run, c: seq<string>, l: nat)
    requires b.Run? && b.labels >= l + 2 && FreshRun(b, l + 2)
    ensures FreshRun(Wrap(b, [IfFalse(c, l + 1)], [Goto(l), Mark(l + 1)]), l + 1)
  {
    NoLabels(IfFalse(c, l + 1), l + 1);
    GotoThenLabel(l, l + 1);
    WrapFresh(b, [IfFalse(c, l + 1)], [Goto(l), Mark(l + 1)], l + 2, l + 1, l + 1, l + 1);
  }

  lemma AfterFresh(acc: Effect, e: Run, lo: nat, mid: nat)
    requires FreshEff(acc, lo, mid) && lo <= mid
    requires FreshRun(e, mid) && (e.Run? ==> e.labels >= mid)
    ensures FreshRun(After(acc, e), lo) && (After(acc, e).Run? ==> After(acc, e).labels >= lo)
  {
    if e.Run? {
      ThenFresh(acc, e.eff, lo, mid, e.labels);
    }
  }

  lemma NoLabels(x: Line, k: nat)
    requires !x.Mark?
    ensures Fresh(Marks([x]), k, k)
  {
    MarksOne(x);
    FreshNone(k);
  }

  lemma OneLabel(k: nat)
    ensures Fresh(Marks([Mark(k)]), k, k + 1)
  {
    MarksOne(Mark(k));
    FreshOne(k);
  }

  lemma GotoThenLabel(l: nat, k: nat)
    ensures Fresh(Marks([Goto(l), Mark(k)]), k, k + 1)
  {
    MarksTwo(Goto(l), Mark(k));
    MarksOne(Goto(l));
    MarksOne(Mark(k));
    FreshOne(k);
  }

  lemma WhileFresh(toks: seq<Token>, fold: Fold, i: nat, l: nat, t: nat)
    requires i < |toks|
    ensures FreshRun(While(toks, fold, i, l, t), l)
    decreases |toks| - i, 1
  {
    var j := FindText(toks, i + 2, ")");
    var c := Header(toks, i + 2, j);
    WhileShape(toks, fold, i, l, t);
    BodyFresh(toks, fold, j + 1, l + 2, t, NoEffect, l + 2);
    WhileLabelsFresh(c, l);
    WrapFresh(Body(toks, fold, j + 1, l + 2, t, NoEffect), [Mark(l), IfFalse(c, l + 1)], [Goto(l), Mark(l + 1)], l + 2, l, l + 1, l + 1);
  }

  lemma WhileLabelsFresh(c: seq<string>, l: nat)
    ensures Fresh(Marks([Mark(l), IfFalse(c, l + 1)]), l, l + 1) && Fresh(Marks([Goto(l), Mark(l + 1)]), l + 1, l + 2)
  {
    WhileMarks(c, l);
    FreshOne(l);
    FreshOne(l + 1);
  }

  lemma WhileMarks(c: seq<string>, l: nat)
    ensures Marks([Mark(l), IfFalse(c, l + 1)]) == [l] && Marks([Goto(l), Mark(l + 1)]) == [l + 1]
  {
    MarksTwo(Goto(l), Mark(l + 1));
    MarksOne(Goto(l));
    MarksOne(Mark(l + 1));
    MarksTwo(Mark(l), IfFalse(c, l + 1));
    MarksOne(Mark(l));
    MarksOne(IfFalse(c, l + 1));
  }

  lemma ForFresh(toks: seq<Token>, fold: Fold, i: nat, l: nat, t: nat)
    requires i < |toks|
    ensures FreshRun(For(toks, fold, i, l, t), l)
    decreases |toks| - i, 1
  {
    var h := ForParts(toks, i);
    ForShape(toks, fold, i, l, t);
    BodyFresh(toks, fold, h.close + 1, l + 2, t, NoEffect, l + 2);
    ForLabelsFresh(h.init, h.cond, h.incr, l);
    WrapFresh(Body(toks, fold, h.close + 1, l + 2, t, NoEffect), ForHead(h.init, h.cond, l, l + 1), ForTail(h.incr, l, l + 1), l + 2, l, l + 1, l + 1);
  }

  lemma ForLabelsFresh(init: seq<string>, cond: seq<string>, incr: seq<string>, l: nat)
    ensures Fresh(Marks(ForHead(init, cond, l, l + 1)), l, l + 1) && Fresh(Marks(ForTail(incr, l, l + 1)), l + 1, l + 2)
  {
    ForMarks(init, cond, incr, l);
    FreshOne(l);
    FreshOne(l + 1);
  }

  lemma ForMarks(init: seq<string>, cond: seq<string>, incr: seq<string>, l: nat)
    ensures Marks(ForHead(init, cond, l, l + 1)) == [l] && Marks(ForTail(incr, l, l + 1)) == [l + 1]
  {
    MarksConcat(Unless(init, Plain(init)), [Mark(l)]);
    MarksConcat(Unless(init, Plain(init)) + [Mark(l)], Unless(cond, IfFalse(cond, l + 1)));
    MarksConcat(Unless(incr, Plain(incr)), [Goto(l), Mark(l + 1)]);
    MarksTwo(Goto(l), Mark(l + 1));
    MarksOne(Goto(l));
    MarksOne(Mark(l + 1));
    MarksOne(Mark(l));
    MarksOne(Plain(init));
    MarksOne(Plain(incr));
    MarksOne(IfFalse(cond, l + 1));
  }

  lemma CaseBodyFresh(toks: seq<Token>, fold: Fold, j: nat, l: nat, t: nat, acc: Effect, lo: nat)
    requires lo <= l && FreshEff(acc, lo, l)
    ensures FreshRun(CaseBodyAcc(toks, fold, j, l, t, acc), lo)
    decreases |toks| - j, 3
  {
    if j < |toks| && toks[j].text != "case" && toks[j].text != "default" && toks[j].text != "}" && toks[j].kind != Keyword {
      var s := Stmt(toks, fold, j, l, t);
      StmtFresh(toks, fold, j, l, t);
      if s.Run? {
        ThenFresh(acc, s.eff, lo, l, s.labels);
        CaseBodyFresh(toks, fold, s.next, s.labels, s.temps, Then(acc, s.eff), lo);
      }
    }
  }

  lemma ArmFresh(toks: seq<Token>, fold: Fold, j: nat, l: nat, t: nat, acc: Effect, m: CaseMap, dflt: Option<nat>, lo: nat)
    requires j < |toks| && (IsKeyword(toks[j], "case") || IsKeyword(toks[j], "default"))
    requires lo <= l && FreshEff(acc, lo, l)
    ensures FreshRun(Arm(toks, fold, j, l, t, acc, m, dflt).0, lo)
    decreases |toks| - j, 0
  {
    assert Marks([Mark(l)]) == [l];
    EmitFresh(acc, [Mark(l)], l, lo, l, lo, l + 1);
    if IsKeyword(toks[j], "case") {
      if j + 1 < |toks| {
        CaseBodyFresh(toks, fold, j + 3, l + 1, t, Emit(acc, [Mark(l)]), lo);
      }
    } else {
      CaseBodyFresh(toks, fold, j + 2, l + 1, t, Emit(acc, [Mark(l)]), lo);
    }
  }

  lemma SwitchLoopFresh(toks: seq<Token>, fold: Fold, j: nat, l: nat, t: nat, acc: Effect, m: CaseMap, dflt: Option<nat>, lo: nat)
    requires lo <= l && FreshEff(acc, lo, l)
    ensures FreshRun(SwitchLoop(toks, fold, j, l, t, acc, m, dflt).0, lo)
    decreases |toks| - j, 1
  {
    if j < |toks| && toks[j].text != "}" {
      if IsKeyword(toks[j], "case") || IsKeyword(toks[j], "default") {
        var a := Arm(toks, fold, j, l, t, acc, m, dflt);
        ArmFresh(toks, fold, j, l, t, acc, m, dflt, lo);
        if a.0.Run? {
          SwitchLoopFresh(toks, fold, a.0.next, a.0.labels, a.0.temps, a.0.eff, a.1, a.2, lo);
        }
      } else {
        SwitchLoopFresh(toks, fold, j + 1, l, t, acc, m, dflt, lo);
      }
    }
  }

  lemma SwitchFresh(toks: seq<Token>, fold: Fold, i: nat, l: nat, t: nat)
    requires i < |toks|
    ensures FreshRun(Switch(toks, fold, i, l, t), l)
    decreases |toks| - i, 1
  {
    var j := FindText(toks, i + 2, ")");
    var sv := Header(toks, i + 2, j);
    assert Marks([Mark(l)]) == [l];
    if j + 1 < |toks| && toks[j + 1].text == "{" {
      var s := SwitchLoop(toks, fold, j + 2, l + 1, t, NoEffect, [], None);
      SwitchLoopFresh(toks, fold, j + 2, l + 1, t, NoEffect, [], None, l + 1);
      var b := s.0;
      if b.Run? {
        DispatchUnmarked(sv, s.1, s.2);
        MarksConcat(Dispatch(sv, s.1, s.2), b.eff.front);
        EmitFresh(b.eff, [Mark(l)], l, l + 1, b.labels, l, b.labels);
      }
    } else {
      EmitFresh(NoEffect, [Mark(l)], l, l + 1, l + 1, l, l + 1);
    }
  }

  lemma TopStepFresh(toks: seq<Token>, fold: Fold, i: nat, l: nat, t: nat)
    requires i < |toks|
    ensures FreshRun(TopStep(toks, fold, i, l, t), l)
  {
    var tok := toks[i];
    if IsKeyword(tok, "for") {
      ForFresh(toks, fold, i, l, t);
    } else if IsKeyword(tok, "if") {
      IfFresh(toks, fold, i, l, t);
    } else if IsKeyword(tok, "while") {
      WhileFresh(toks, fold, i, l, t);
    } else if IsKeyword(tok, "switch") {
      SwitchFresh(toks, fold, i, l, t);
    } else if tok == Token(Operator, "=") {
      AssignUnmarked(toks, fold, i, l, t);
    }
  }

  lemma {:induction false} TopFresh(toks: seq<Token>, fold: Fold, i: nat, l: nat, t: nat, acc: Effect, lo: nat)
    requires lo <= l && FreshEff(acc, lo, l)
    ensures FreshRun(TopAcc(toks, fold, i, l, t, acc), lo)
    decreases |toks| - i
  {
    if i < |toks| {
      var s := TopStep(toks, fold, i, l, t);
      TopStepFresh(toks, fold, i, l, t);
      if s.Run? {
        ThenFresh(acc, s.eff, lo, l, s.labels);
        TopFresh(toks, fold, s.next, s.labels, s.temps, Then(acc, s.eff), lo);
      }
    }
  }

  /** generate defines every label at most once, and only labels numbered
      from the counter it started with up to the counter it leaves; so
      successive calls on one generator define disjoint sets of labels. */
  lemma GenerateLabelsFresh(toks: seq<Token>, fold: Fold, l: nat, t: nat)
    ensures TopAcc(toks, fold, 0, l, t, NoEffect).Run? ==>
      Fresh(Marks(Apply(TopAcc(toks, fold, 0, l, t, NoEffect).eff, [])), l, Generate(toks, fold, l, t).1)
  {
    TopFresh(toks, fold, 0, l, t, NoEffect, l);
    var run := TopAcc(toks, fold, 0, l, t, NoEffect);
    if run.Run? {
      ApplyMarks(run.eff);
    }
  }

  // ---------------------------------------------------------------------
  // Shapes

  /** A run after the effect `acc`. */
  function After(acc: Effect, r: Run): Run {
    if r.Run? then Run(r.next, r.labels, r.temps, Then(acc, r.eff)) else r
  }

  /** A body's run with `head` put before and `tail` after what it appends. */
  function Wrap(b: Run, head: seq<Line>, tail: seq<Line>): Run {
    if b.Run? then Run(b.next, b.labels, b.temps, Effect(b.eff.front, head + b.eff.back + tail)) else b
  }

  /** handleWhileLoop: `Lloop:` and `ifFalse C goto Lend` before the body's
      lines, `goto Lloop` and `Lend:` after them, with the body translated
      from label `L + 2` on. */
  lemma WhileShape(toks: seq<Token>, fold: Fold, i: nat, l: nat, t: nat)
    requires i < |toks|
    ensures While(toks, fold, i, l, t) ==
      Wrap(Body(toks, fold, FindText(toks, i + 2, ")") + 1, l + 2, t, NoEffect),
           [Mark(l), IfFalse(Header(toks, i + 2, FindText(toks, i + 2, ")")), l + 1)], [Goto(l), Mark(l + 1)])
  {
    var j := FindText(toks, i + 2, ")");
    var head := [Mark(l), IfFalse(Header(toks, i + 2, j), l + 1)];
    var b1 := Body(toks, fold, j + 1, l + 2, t, Effect([], head));
    assert While(toks, fold, i, l, t) ==
      if b1.Threw? then b1 else Run(b1.next, b1.labels, b1.temps, Emit(b1.eff, [Goto(l), Mark(l + 1)]));
    BodyShift(toks, fold, j + 1, l + 2, t, Effect([], head));
    LoopPart(Body(toks, fold, j + 1, l + 2, t, NoEffect), head, [Goto(l), Mark(l + 1)]);
  }

  /** handleForLoop: the init (if any), `Lloop:` and `ifFalse C goto Lend`
      (if a condition) before the body, the increment (if any), `goto Lloop`
      and `Lend:` after it. */
  lemma ForShape(toks: seq<Token>, fold: Fold, i: nat, l: nat, t: nat)
    requires i < |toks|
    ensures For(toks, fold, i, l, t) ==
      Wrap(Body(toks, fold, ForParts(toks, i).close + 1, l + 2, t, NoEffect),
           ForHead(ForParts(toks, i).init, ForParts(toks, i).cond, l, l + 1), ForTail(ForParts(toks, i).incr, l, l + 1))
  {
    var h := ForParts(toks, i);
    var head := ForHead(h.init, h.cond, l, l + 1);
    var tail := ForTail(h.incr, l, l + 1);
    var b1 := Body(toks, fold, h.close + 1, l + 2, t, Effect([], head));
    assert For(toks, fold, i, l, t) ==
      if b1.Threw? then b1 else Run(b1.next, b1.labels, b1.temps, Emit(b1.eff, tail));
    BodyShift(toks, fold, h.close + 1, l + 2, t, Effect([], head));
    LoopPart(Body(toks, fold, h.close + 1, l + 2, t, NoEffect), head, tail);
  }

  /** A body run after `head` and then followed by `tail` is the body wrapped in them. */
  lemma LoopPart(b: Run, head: seq<Line>, tail: seq<Line>)
    ensures var b1 := After(Effect([], head), b);
      (if b1.Threw? then b1 else Run(b1.next, b1.labels, b1.temps, Emit(b1.eff, tail))) == Wrap(b, head, tail)
  {
    if b.Run? {
      assert b.eff.front + [] == b.eff.front;
    }
  }

  /** handleIfStatement: `ifFalse C goto Lelse` before the then-body, `goto
      Lend` and `Lelse:` after it, then the else-body if `else` follows, then
      `Lend:`; `Lend` is `L` and `Lelse` is `L + 1`. */
  lemma IfShape(toks: seq<Token>, fold: Fold, i: nat, l: nat, t: nat)
    requires i < |toks|
    ensures var b := Body(toks, fold, FindText(toks, i + 2, ")") + 1, l + 2, t, NoEffect);
      b.Threw? ==> If(toks, fold, i, l, t) == b
    ensures var j := FindText(toks, i + 2, ")");
      var b := Body(toks, fold, j + 1, l + 2, t, NoEffect);
      var c := Header(toks, i + 2, j);
      b.Run? && b.next < |toks| && IsKeyword(toks[b.next], "else") ==>
        If(toks, fold, i, l, t) ==
          Wrap(After(Wrap(b, [IfFalse(c, l + 1)], [Goto(l), Mark(l + 1)]).eff,
                     Body(toks, fold, b.next + 1, b.labels, b.temps, NoEffect)), [], [Mark(l)])
    ensures var j := FindText(toks, i + 2, ")");
      var b := Body(toks, fold, j + 1, l + 2, t, NoEffect);
      var c := Header(toks, i + 2, j);
      b.Run? && !(b.next < |toks| && IsKeyword(toks[b.next], "else")) ==>
        If(toks, fold, i, l, t) == Wrap(b, [IfFalse(c, l + 1)], [Goto(l), Mark(l + 1), Mark(l)])
  {
    var j := FindText(toks, i + 2, ")");
    var c := Header(toks, i + 2, j);
    var acc0 := Effect([], [IfFalse(c, l + 1)]);
    var b1 := Body(toks, fold, j + 1, l + 2, t, acc0);
    assert If(toks, fold, i, l, t) ==
      if b1.Threw? then b1 else Else(toks, fold, b1.next, b1.labels, b1.temps, Emit(b1.eff, [Goto(l), Mark(l + 1)]), l);
    BodyShift(toks, fold, j + 1, l + 2, t, acc0);
    var b := Body(toks, fold, j + 1, l + 2, t, NoEffect);
    if b.Run? {
      var acc := Emit(b1.eff, [Goto(l), Mark(l + 1)]);
      IfThenPart(b, acc0, c, l);
      if b.next < |toks| && IsKeyword(toks[b.next], "else") {
        var e1 := Body(toks, fold, b.next + 1, b.labels, b.temps, acc);
        assert Else(toks, fold, b.next, b.labels, b.temps, acc, l) ==
          if e1.Threw? then e1 else Run(e1.next, e1.labels, e1.temps, Emit(e1.eff, [Mark(l)]));
        BodyShift(toks, fold, b.next + 1, b.labels, b.temps, acc);
        IfElsePart(acc, Body(toks, fold, b.next + 1, b.labels, b.temps, NoEffect), l);
        assert If(toks, fold, i, l, t) ==
          Wrap(After(Wrap(b, [IfFalse(c, l + 1)], [Goto(l), Mark(l + 1)]).eff,
                     Body(toks, fold, b.next + 1, b.labels, b.temps, NoEffect)), [], [Mark(l)]);
      } else {
        assert Else(toks, fold, b.next, b.labels, b.temps, acc, l) == Run(b.next, b.labels, b.temps, Emit(acc, [Mark(l)]));
        IfNoElsePart(b, acc0, c, l);
        assert If(toks, fold, i, l, t) == Wrap(b, [IfFalse(c, l + 1)], [Goto(l), Mark(l + 1), Mark(l)]);
      }
    }
  }

  lemma IfThenPart(b: Run, acc0: Effect, c: seq<string>, l: nat)
    requires b.Run? && acc0 == Effect([], [IfFalse(c, l + 1)])
    ensures Emit(After(acc0, b).eff, [Goto(l), Mark(l + 1)]) == Wrap(b, [IfFalse(c, l + 1)], [Goto(l), Mark(l + 1)]).eff
  {
    assert b.eff.front + [] == b.eff.front;
  }

  lemma IfElsePart(acc: Effect, e: Run, l: nat)
    ensures var e1 := After(acc, e);
      (if e1.Threw? then e1 else Run(e1.next, e1.labels, e1.temps, Emit(e1.eff, [Mark(l)]))) == Wrap(e1, [], [Mark(l)])
  {
    if e.Run? {
      var x := Then(acc, e.eff).back;
      assert [] + x + [Mark(l)] == x + [Mark(l)];
    }
  }

  lemma IfNoElsePart(b: Run, acc0: Effect, c: seq<string>, l: nat)
    requires b.Run? && acc0 == Effect([], [IfFalse(c, l + 1)])
    ensures Run(b.next, b.labels, b.temps, Emit(Emit(After(acc0, b).eff, [Goto(l), Mark(l + 1)]), [Mark(l)])) ==
      Wrap(b, [IfFalse(c, l + 1)], [Goto(l), Mark(l + 1), Mark(l)])
  {
    assert b.eff.front + [] == b.eff.front;
    assert [IfFalse(c, l + 1)] + b.eff.back + [Goto(l), Mark(l + 1)] + [Mark(l)] ==
      [IfFalse(c, l + 1)] + b.eff.back + [Goto(l), Mark(l + 1), Mark(l)];
  }

  lemma ThenAssoc(a: Effect, b: Effect, c: Effect)
    ensures Then(Then(a, b), c) == Then(a, Then(b, c))
  {
    assert c.front + (b.front + a.front) == (c.front + b.front) + a.front;
    assert (a.back + b.back) + c.back == a.back + (b.back + c.back);
  }

  /** What a body appends does not depend on what came before it. */
  lemma {:induction false} BlockShift(toks: seq<Token>, fold: Fold, j: nat, l: nat, t: nat, acc: Effect)
    ensures BlockAcc(toks, fold, j, l, t, acc) == After(acc, BlockAcc(toks, fold, j, l, t, NoEffect))
    decreases |toks| - j
  {
    if j < |toks| && toks[j].text != "}" {
      var s := Stmt(toks, fold, j, l, t);
      if s.Run? {
        BlockShift(toks, fold, s.next, s.labels, s.temps, Then(acc, s.eff));
        BlockShift(toks, fold, s.next, s.labels, s.temps, Then(NoEffect, s.eff));
        assert Then(NoEffect, s.eff) == s.eff;
        var r0 := BlockAcc(toks, fold, s.next, s.labels, s.temps, NoEffect);
        if r0.Run? {
          ThenAssoc(acc, s.eff, r0.eff);
        }
      }
    } else {
      assert Then(acc, NoEffect) == acc;
    }
  }

  lemma BodyShift(toks: seq<Token>, fold: Fold, open: nat, l: nat, t: nat, acc: Effect)
    ensures Body(toks, fold, open, l, t, acc) == After(acc, Body(toks, fold, open, l, t, NoEffect))
  {
    if open < |toks| && toks[open].text == "{" {
      BlockShift(toks, fold, open + 1, l, t, acc);
    } else {
      assert Then(acc, NoEffect) == acc;
    }
  }
}
