/** Further properties of the generator's functions: the outcome of an
    assignment, the order of a switch's dispatch lines and of its case map,
    the empty translation, the one exception, and the counters that carry
    over from one `generate` call to the next. */
module TacProperties {
  import opened Strings
  import opened Tokens
  import opened Optional
  import opened Lines
  import opened Postfix
  import opened TacSpec
  import opened TacLemmas

  // ---------------------------------------------------------------------
  // handleAssignment

  /** The expression of the assignment whose `=` is at `i`: the texts up to the next `;`. */
  function AssignExpr(toks: seq<Token>, i: nat): seq<string> {
    Header(toks, i + 1, FindText(toks, i + 1, ";"))
  }

  /** The three checks before evaluation: an identifier before the `=`, a
      non-empty expression, and a non-empty postfix form. */
  predicate AssignShapeOk(toks: seq<Token>, i: nat) {
    0 < i && i + 1 < |toks| && toks[i - 1].kind == Identifier &&
    AssignExpr(toks, i) != [] && ToPostfix(AssignExpr(toks, i)) != []
  }

  /** All four conditions, the last being that evaluation returned a value. */
  predicate AssignOk(toks: seq<Token>, fold: Fold, i: nat, t: nat) {
    AssignShapeOk(toks, i) && Eval(fold, ToPostfix(AssignExpr(toks, i)), t).value.Some?
  }

  /** handleAssignment appends `x = v` exactly when all four conditions hold,
      and then `v` is the evaluated value; otherwise its last line is an
      `Error:` line, the only line when a check before evaluation failed.
      Every line before the last is a temporary or an error. */
  lemma AssignOutcome(toks: seq<Token>, fold: Fold, i: nat, l: nat, t: nat)
    ensures var back := Assign(toks, fold, i, l, t).eff.back;
      back != [] && Computed(back[..|back| - 1]) &&
      (AssignOk(toks, fold, i, t) <==> back[|back| - 1].Copy?) &&
      (AssignOk(toks, fold, i, t) ==>
        back[|back| - 1] == Copy(toks[i - 1].text, Eval(fold, ToPostfix(AssignExpr(toks, i)), t).value.value)) &&
      (!AssignOk(toks, fold, i, t) ==> back[|back| - 1].Error?) &&
      (!AssignShapeOk(toks, i) ==> |back| == 1)
  {
    var back := Assign(toks, fold, i, l, t).eff.back;
    if AssignShapeOk(toks, i) {
      var post := ToPostfix(AssignExpr(toks, i));
      var ev := Eval(fold, post, t);
      EvalComputed(fold, post, 0, [], t, []);
      EvalDefinedIff(fold, post, 0, [], t, []);
      if ev.value.Some? {
        assert back == ev.lines + [Copy(toks[i - 1].text, ev.value.value)];
        assert back[..|back| - 1] == ev.lines;
      } else {
        assert back == ev.lines;
        var pre := back[..|back| - 1];
        assert Computed(pre) by {
          forall k | 0 <= k < |pre| ensures pre[k].Binary? || pre[k].Error? {
            assert pre[k] == ev.lines[k];
          }
        }
      }
    } else {
      assert |back| == 1 && back[..0] == [];
    }
  }

  // ---------------------------------------------------------------------
  // handleSwitchStatement

  /** Inserting each case line at position 0 in turn leaves them in reverse:
      the `k`-th dispatch line tests the `k`-th entry from the end. */
  lemma {:induction false} CaseDispatchAt(sv: seq<string>, m: CaseMap, k: nat)
    requires k < |m|
    ensures CaseDispatch(sv, m)[k] == CaseTest(sv, m[|m| - 1 - k].0, m[|m| - 1 - k].1)
    decreases |m|
  {
    if k > 0 {
      var m' := m[..|m| - 1];
      CaseDispatchAt(sv, m', k - 1);
      assert CaseDispatch(sv, m)[k] == CaseDispatch(sv, m')[k - 1];
      assert m'[|m'| - 1 - (k - 1)] == m[|m| - 1 - k];
    }
  }

  /** The lines a switch puts in front: the default `goto` (inserted last)
      first, then the case tests, the last-recorded case first. */
  lemma DispatchOrder(sv: seq<string>, m: CaseMap, dflt: Option<nat>)
    ensures var d := Dispatch(sv, m, dflt);
      var n := if dflt.Some? then 1 else 0;
      |d| == n + |m| && (dflt.Some? ==> d[0] == Goto(dflt.value)) &&
      forall k :: n <= k < |d| ==> d[k] == CaseTest(sv, m[|m| - 1 - (k - n)].0, m[|m| - 1 - (k - n)].1)
  {
    forall k | 0 <= k < |m| ensures CaseDispatch(sv, m)[k] == CaseTest(sv, m[|m| - 1 - k].0, m[|m| - 1 - k].1) {
      CaseDispatchAt(sv, m, k);
    }
  }

  /** The keys of an insertion-ordered map are distinct. */
  predicate DistinctKeys(m: CaseMap) {
    forall a, b :: 0 <= a < b < |m| ==> m[a].0 != m[b].0
  }

  /** `LinkedHashMap.put`: a new key is added last, an existing key keeps its place. */
  lemma {:induction false} PutKeys(m: CaseMap, key: string, value: nat)
    ensures Keys(Put(m, key, value)) == if key in Keys(m) then Keys(m) else Keys(m) + [key]
    decreases |m|
  {
    if m != [] {
      assert Keys(m) == [m[0].0] + Keys(m[1..]);
      if m[0].0 == key {
        assert Keys(m)[0] == key;
        assert Keys(Put(m, key, value)) == Keys(m);
      } else {
        PutKeys(m[1..], key, value);
        assert Keys(Put(m, key, value)) == [m[0].0] + Keys(Put(m[1..], key, value));
      }
    }
  }

  /** `put` changes no entry under another key. */
  lemma {:induction false} PutKeepsOthers(m: CaseMap, key: string, value: nat)
    ensures forall k :: 0 <= k < |m| && m[k].0 != key ==> Put(m, key, value)[k] == m[k]
    decreases |m|
  {
    if m != [] && m[0].0 != key {
      var r, rt := Put(m, key, value), Put(m[1..], key, value);
      PutKeepsOthers(m[1..], key, value);
      forall k | 0 < k < |m| && m[k].0 != key ensures r[k] == m[k] {
        assert r[k] == rt[k - 1] && m[k] == m[1..][k - 1];
      }
    }
  }

  /** On a map with distinct keys, `put` keeps the keys distinct and the key
      then maps to the new value. */
  lemma {:induction false} PutValue(m: CaseMap, key: string, value: nat)
    requires DistinctKeys(m)
    ensures DistinctKeys(Put(m, key, value))
    ensures forall k :: 0 <= k < |Put(m, key, value)| && Put(m, key, value)[k].0 == key ==> Put(m, key, value)[k].1 == value
    decreases |m|
  {
    if m != [] {
      if m[0].0 == key {
        PutReplaces(m, key, value);
      } else {
        DistinctTail(m);
        PutValue(m[1..], key, value);
        PutFrom(m[1..], key, value, m[0].0);
        PutBehind(m, key, value);
      }
    }
  }

  /** Replacing the first entry of a map with distinct keys. */
  lemma PutReplaces(m: CaseMap, key: string, value: nat)
    requires DistinctKeys(m) && m != [] && m[0].0 == key
    ensures DistinctKeys(Put(m, key, value))
    ensures forall k :: 0 <= k < |Put(m, key, value)| && Put(m, key, value)[k].0 == key ==> Put(m, key, value)[k].1 == value
  {
    var r := Put(m, key, value);
    assert r == [(key, value)] + m[1..];
    forall k | 0 < k < |r| ensures r[k].0 != key {
      assert r[k] == m[k] && m[0].0 != m[k].0;
    }
    forall a, b | 0 <= a < b < |r| ensures r[a].0 != r[b].0 {
      assert r[b] == m[b];
      if a > 0 { assert r[a] == m[a]; }
    }
  }

  lemma DistinctTail(m: CaseMap)
    requires DistinctKeys(m) && m != []
    ensures DistinctKeys(m[1..])
    ensures forall k :: 0 <= k < |m[1..]| ==> m[1..][k].0 != m[0].0
  {
    var tail := m[1..];
    forall a, b | 0 <= a < b < |tail| ensures tail[a].0 != tail[b].0 {
      assert tail[a] == m[a + 1] && tail[b] == m[b + 1];
    }
    forall k | 0 <= k < |tail| ensures tail[k].0 != m[0].0 {
      assert tail[k] == m[k + 1];
    }
  }

  /** Putting behind a first entry under another key, given the facts about
      the put into the rest. */
  lemma PutBehind(m: CaseMap, key: string, value: nat)
    requires m != [] && m[0].0 != key
    requires DistinctKeys(Put(m[1..], key, value))
    requires forall k :: 0 <= k < |Put(m[1..], key, value)| && Put(m[1..], key, value)[k].0 == key ==> Put(m[1..], key, value)[k].1 == value
    requires forall k :: 0 <= k < |Put(m[1..], key, value)| ==> Put(m[1..], key, value)[k].0 != m[0].0
    ensures DistinctKeys(Put(m, key, value))
    ensures forall k :: 0 <= k < |Put(m, key, value)| && Put(m, key, value)[k].0 == key ==> Put(m, key, value)[k].1 == value
  {
    var r, rt := Put(m, key, value), Put(m[1..], key, value);
    assert r == [m[0]] + rt;
    forall a, b | 0 <= a < b < |r| ensures r[a].0 != r[b].0 {
      assert r[b] == rt[b - 1];
      if a > 0 { assert r[a] == rt[a - 1]; }
    }
    forall k | 0 <= k < |r| && r[k].0 == key ensures r[k].1 == value {
      assert k > 0 && r[k] == rt[k - 1];
    }
  }

  /** A key that is neither in the map nor the one put is not in the result. */
  lemma PutFrom(m: CaseMap, key: string, value: nat, other: string)
    requires other != key && forall k :: 0 <= k < |m| ==> m[k].0 != other
    ensures forall k :: 0 <= k < |Put(m, key, value)| ==> Put(m, key, value)[k].0 != other
  {
    var r := Put(m, key, value);
    PutKeys(m, key, value);
    forall k | 0 <= k < |r| ensures r[k].0 != other {
      assert Keys(r)[k] == r[k].0;
      if k < |m| { assert Keys(m)[k] == m[k].0; }
    }
  }

  /** A switch with a body: after any earlier code, its dispatch lines start
      the buffer and its end label is the last line. */
  lemma SwitchDispatchFirst(toks: seq<Token>, fold: Fold, i: nat, l: nat, t: nat, acc: Effect)
    requires i < |toks|
    requires FindText(toks, i + 2, ")") + 1 < |toks| && toks[FindText(toks, i + 2, ")") + 1].text == "{"
    ensures var j := FindText(toks, i + 2, ")");
      var s := SwitchLoop(toks, fold, j + 2, l + 1, t, NoEffect, [], None);
      var d := Dispatch(Header(toks, i + 2, j), s.1, s.2);
      var r := Switch(toks, fold, i, l, t);
      r.Run? ==> var out := Apply(Then(acc, r.eff), []);
        |out| > |d| && out[..|d|] == d && out[|out| - 1] == Mark(l)
  {
    var j := FindText(toks, i + 2, ")");
    var s := SwitchLoop(toks, fold, j + 2, l + 1, t, NoEffect, [], None);
    var d := Dispatch(Header(toks, i + 2, j), s.1, s.2);
    var r := Switch(toks, fold, i, l, t);
    if r.Run? {
      var b := s.0;
      var out := Apply(Then(acc, r.eff), []);
      assert r.eff == Effect(d + b.eff.front, b.eff.back + [Mark(l)]);
      assert out == d + (b.eff.front + acc.front + [] + acc.back + b.eff.back) + [Mark(l)];
    }
  }

  // ---------------------------------------------------------------------
  // generate

  /** Tokens generate's loop skips: no construct keyword and no `=` operator. */
  predicate Skipped(t: Token) {
    !IsKeyword(t, "for") && !IsKeyword(t, "if") && !IsKeyword(t, "while") && !IsKeyword(t, "switch") &&
    t != Token(Operator, "=")
  }

  lemma {:induction false} TopIdle(toks: seq<Token>, fold: Fold, i: nat, l: nat, t: nat)
    requires forall k :: i <= k < |toks| ==> Skipped(toks[k])
    ensures TopAcc(toks, fold, i, l, t, NoEffect) == Run(if i < |toks| then |toks| else i, l, t, NoEffect)
    decreases |toks| - i
  {
    if i < |toks| {
      assert Then(NoEffect, NoEffect) == NoEffect;
      TopIdle(toks, fold, i + 1, l, t);
    }
  }

  /** A non-empty list with nothing to translate gives exactly "No valid
      expressions found." and leaves both counters unchanged. */
  lemma NothingToTranslate(toks: seq<Token>, fold: Fold, l: nat, t: nat)
    requires toks != [] && forall k :: 0 <= k < |toks| ==> Skipped(toks[k])
    ensures Generate(toks, fold, l, t) == (Code("No valid expressions found."), l, t)
  {
    TopIdle(toks, fold, 0, l, t);
    assert Apply(NoEffect, []) == [];
  }

  /** `switch ( x ) { case`: the `case` is the last token, and reading the
      token after it is the exception. */
  lemma CaseAsLastToken(fold: Fold, l: nat, t: nat)
    ensures var toks := [Token(Keyword, "switch"), Token(Symbol, "("), Token(Identifier, "x"), Token(Symbol, ")"),
                         Token(Symbol, "{"), Token(Keyword, "case")];
      Generate(toks, fold, l, t).0 == IndexOutOfBounds
  {
    var toks := [Token(Keyword, "switch"), Token(Symbol, "("), Token(Identifier, "x"), Token(Symbol, ")"),
                 Token(Symbol, "{"), Token(Keyword, "case")];
    assert FindText(toks, 2, ")") == 3;
    assert SwitchLoop(toks, fold, 5, l + 1, t, NoEffect, [], None).0.Threw?;
    assert Switch(toks, fold, 0, l, t).Threw?;
  }

  /** The tokens of `while ( x ) { }`. */
  function EmptyLoop(): seq<Token> {
    [Token(Keyword, "while"), Token(Symbol, "("), Token(Identifier, "x"), Token(Symbol, ")"),
     Token(Symbol, "{"), Token(Symbol, "}")]
  }

  /** An empty `while` loop takes the next two labels from the counter. */
  lemma EmptyLoopCode(fold: Fold, l: nat, t: nat)
    ensures Generate(EmptyLoop(), fold, l, t) ==
      (Code(Listing([Mark(l), IfFalse(["x"], l + 1), Goto(l), Mark(l + 1)])), l + 2, t)
  {
    var toks := EmptyLoop();
    var head := Effect([], [Mark(l), IfFalse(["x"], l + 1)]);
    assert FindText(toks, 2, ")") == 3;
    assert Header(toks, 2, 3) == ["x"];
    assert BlockAcc(toks, fold, 5, l + 2, t, head) == Run(5, l + 2, t, head);
    assert Body(toks, fold, 4, l + 2, t, head) == Run(6, l + 2, t, head);
    var eff := Emit(head, [Goto(l), Mark(l + 1)]);
    assert While(toks, fold, 0, l, t) == Run(6, l + 2, t, eff);
    assert TopAcc(toks, fold, 0, l, t, NoEffect) == Run(6, l + 2, t, Then(NoEffect, eff));
    var code := [Mark(l), IfFalse(["x"], l + 1), Goto(l), Mark(l + 1)];
    assert Apply(Then(NoEffect, eff), []) == code;
    ListingEmpty(code);
  }

  /** The listing of code that starts with the label `k` starts with `Lk:`. */
  lemma ListingStartsWithLabel(code: seq<Line>, k: nat)
    requires code != [] && code[0] == Mark(k)
    ensures var n := |NatStr(k)|;
      |Listing(code)| > n + 1 && Listing(code)[..n + 2] == "L" + NatStr(k) + ":"
    ensures Listing(code)[0] == 'L' && (k < 10 ==> Listing(code)[1] == DigitChar(k))
  {
    var head := "L" + NatStr(k) + ":";
    assert Text(code[0]) == head;
    assert Listing(code) == head + ("\n" + Listing(code[1..]));
    assert Listing(code)[..|head|] == head;
  }

  /** generate does not reset the counters: on a fresh generator (both at 1)
      a second call on the same tokens yields different code. */
  lemma SecondCallDiffers(fold: Fold)
    ensures var first := Generate(EmptyLoop(), fold, 1, 1);
      first.1 == 3 && Generate(EmptyLoop(), fold, first.1, first.2).0 != first.0
  {
    EmptyLoopCode(fold, 1, 1);
    EmptyLoopCode(fold, 3, 1);
    ListingStartsWithLabel([Mark(1), IfFalse(["x"], 2), Goto(1), Mark(2)], 1);
    ListingStartsWithLabel([Mark(3), IfFalse(["x"], 4), Goto(3), Mark(4)], 3);
  }

  /** Two calls in a row on one generator define disjoint label sets: each
      defines distinct labels from its own range of the counter. */
  lemma SuccessiveCallsFresh(toks1: seq<Token>, toks2: seq<Token>, fold: Fold, l: nat, t: nat)
    ensures var g1 := Generate(toks1, fold, l, t);
      var r1 := TopAcc(toks1, fold, 0, l, t, NoEffect);
      var r2 := TopAcc(toks2, fold, 0, g1.1, g1.2, NoEffect);
      toks1 != [] && toks2 != [] && r1.Run? && r2.Run? ==>
        var m1 := Marks(Apply(r1.eff, []));
        var m2 := Marks(Apply(r2.eff, []));
        Fresh(m1 + m2, l, Generate(toks2, fold, g1.1, g1.2).1)
  {
    var g1 := Generate(toks1, fold, l, t);
    var r1 := TopAcc(toks1, fold, 0, l, t, NoEffect);
    var r2 := TopAcc(toks2, fold, 0, g1.1, g1.2, NoEffect);
    if toks1 != [] && toks2 != [] && r1.Run? && r2.Run? {
      GenerateLabelsFresh(toks1, fold, l, t);
      GenerateLabelsFresh(toks2, fold, g1.1, g1.2);
      var g2 := Generate(toks2, fold, g1.1, g1.2);
      FreshJoin(Marks(Apply(r1.eff, [])), Marks(Apply(r2.eff, [])), l, g1.1, g1.1, g2.1, l, g2.1);
    }
  }

  /** Translating the same tokens twice on one generator: when the first
      translation defines a label, the second defines none of the first's
      labels, so the two line lists differ. */
  lemma SecondCallNewLabels(toks: seq<Token>, fold: Fold, l: nat, t: nat)
    ensures var g1 := Generate(toks, fold, l, t);
      var r1 := TopAcc(toks, fold, 0, l, t, NoEffect);
      var r2 := TopAcc(toks, fold, 0, g1.1, g1.2, NoEffect);
      toks != [] && r1.Run? && r2.Run? ==>
        var code1 := Apply(r1.eff, []);
        var code2 := Apply(r2.eff, []);
        (forall n :: n in Marks(code1) ==> n !in Marks(code2)) &&
        (Marks(code1) != [] ==> code1 != code2)
  {
    var g1 := Generate(toks, fold, l, t);
    var r1 := TopAcc(toks, fold, 0, l, t, NoEffect);
    var r2 := TopAcc(toks, fold, 0, g1.1, g1.2, NoEffect);
    if toks != [] && r1.Run? && r2.Run? {
      var m1 := Marks(Apply(r1.eff, []));
      var m2 := Marks(Apply(r2.eff, []));
      SuccessiveCallsFresh(toks, toks, fold, l, t);
      FreshDisjoint(m1, m2, l, Generate(toks, fold, g1.1, g1.2).1);
    }
  }

  /** Two lists that are distinct together share no element, so a non-empty one differs from the other. */
  lemma FreshDisjoint(a: seq<nat>, b: seq<nat>, lo: nat, hi: nat)
    requires Fresh(a + b, lo, hi)
    ensures forall n :: n in a ==> n !in b
    ensures a != [] ==> a != b
  {
    forall n | n in a ensures n !in b {
      var i :| 0 <= i < |a| && a[i] == n;
      forall j | 0 <= j < |b| ensures b[j] != n {
        assert (a + b)[i] == a[i] && (a + b)[|a| + j] == b[j];
      }
    }
    if a != [] {
      assert a[0] in a;
    }
  }
}
