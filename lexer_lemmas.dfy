/** What `tokenize` promises, proved about the functions of LexerSpec. */
module LexerLemmas {
  import opened Strings
  import opened Optional
  import opened Tokens
  import opened LexerSpec

  // ---------------------------------------------------------------------
  // Normalisation

  /** Collapsed text: every whitespace character is a space, never followed by another. */
  predicate NoDoubleSpace(r: string) {
    forall k :: 0 <= k < |r| && IsSpace(r[k]) ==> r[k] == ' ' && (k + 1 < |r| ==> !IsSpace(r[k + 1]))
  }

  /** The text with all whitespace removed. */
  function Squeeze(s: string): string {
    if s == [] then [] else (if IsSpace(s[0]) then [] else [s[0]]) + Squeeze(s[1..])
  }

  lemma {:induction false} SqueezeSkip(s: string)
    ensures Squeeze(SkipSpaces(s)) == Squeeze(s)
    decreases |s|
  {
    if s != [] && IsSpace(s[0]) {
      SqueezeSkip(s[1..]);
    }
  }

  /** Collapsing changes only the whitespace, and leaves no run of it. */
  lemma {:induction false} CollapseFacts(s: string)
    ensures NoDoubleSpace(Collapse(s))
    ensures Squeeze(Collapse(s)) == Squeeze(s)
    ensures s == [] <==> Collapse(s) == []
    decreases |s|
  {
    if s != [] {
      var r := Collapse(s);
      if IsSpace(s[0]) {
        var t := SkipSpaces(s[1..]);
        CollapseFacts(t);
        SqueezeSkip(s[1..]);
        assert r == " " + Collapse(t);
        assert r[1..] == Collapse(t);
        assert Squeeze(r) == Squeeze(Collapse(t));
        forall k | 0 <= k < |r| && IsSpace(r[k]) ensures r[k] == ' ' && (k + 1 < |r| ==> !IsSpace(r[k + 1])) {
          if k == 0 {
            if t != [] { assert r[1] == Collapse(t)[0] == t[0]; }
          } else {
            assert r[k] == Collapse(t)[k - 1];
            if k + 1 < |r| { assert r[k + 1] == Collapse(t)[k]; }
          }
        }
      } else {
        CollapseFacts(s[1..]);
        assert r == [s[0]] + Collapse(s[1..]);
        assert r[1..] == Collapse(s[1..]);
        forall k | 0 <= k < |r| && IsSpace(r[k]) ensures r[k] == ' ' && (k + 1 < |r| ==> !IsSpace(r[k + 1])) {
          assert k > 0;
          assert r[k] == Collapse(s[1..])[k - 1];
          if k + 1 < |r| { assert r[k + 1] == Collapse(s[1..])[k]; }
        }
      }
    }
  }

  /** A collapsed text keeps that shape under any slice. */
  lemma SliceNoDoubleSpace(r: string, a: nat, b: nat)
    requires a <= b <= |r| && NoDoubleSpace(r)
    ensures NoDoubleSpace(r[a..b])
  {
    var t := r[a..b];
    forall k | 0 <= k < |t| && IsSpace(t[k]) ensures t[k] == ' ' && (k + 1 < |t| ==> !IsSpace(t[k + 1])) {
      assert t[k] == r[a + k];
      if k + 1 < |t| { assert t[k + 1] == r[a + k + 1]; }
    }
  }

  lemma NormalizeNoDoubleSpace(code: string)
    ensures NoDoubleSpace(Normalize(code))
  {
    var r := Collapse(code);
    CollapseFacts(code);
    var t := TrimStart(r);
    TrimStartFacts(r);
    SliceNoDoubleSpace(r, |r| - |t|, |r|);
    TrimEndFacts(t);
    SliceNoDoubleSpace(t, 0, |TrimEnd(t)|);
  }

  /** The normalised code has whitespace only as single spaces between other characters. */
  lemma NormalizeFacts(code: string)
    ensures SingleSpaced(Normalize(code))
  {
    var n := Normalize(code);
    NormalizeNoDoubleSpace(code);
    TrimFacts(Collapse(code));
    forall k | 0 <= k < |n| && IsSpace(n[k]) ensures n[k] == ' ' && 0 < k < |n| - 1 && !IsSpace(n[k + 1]) {
      assert n[k] <= ' ';
    }
  }

  // ---------------------------------------------------------------------
  // The matcher

  lemma KeywordTextFits(s: string, p: nat)
    requires p <= |s| && KeywordAt(s, p).Some?
    ensures IsKeywordText(s[p..p + KeywordAt(s, p).value])
  {
  }

  /** The keyword group read literally: its words tried in the order the
      pattern lists them, each needing a boundary after it. */
  const KeywordAlternatives: seq<string> := ["int", "float", "double", "char", "boolean", "if", "while", "for"]

  function FirstWord(s: string, p: nat, ws: seq<string>): Option<nat>
    requires p <= |s|
  {
    if ws == [] then None
    else if OccursAt(s, p, ws[0]) && Boundary(s, p + |ws[0]|) then Some(|ws[0]|)
    else FirstWord(s, p, ws[1..])
  }

  /** A word followed by a boundary is exactly the whole run of word characters. */
  lemma WordThenBoundary(s: string, p: nat, w: string)
    requires p <= |s| && |w| > 0 && AllWordChars(w)
    ensures (OccursAt(s, p, w) && Boundary(s, p + |w|)) <==> s[p..WordEnd(s, p)] == w
  {
    var q := WordEnd(s, p);
    if OccursAt(s, p, w) && Boundary(s, p + |w|) {
      assert forall k :: p <= k < p + |w| ==> s[k] == w[k - p];
      assert IsWordChar(s[p + |w| - 1]);
      WordEndAt(s, p, p + |w|);
    }
    if s[p..q] == w {
      assert forall k :: 0 <= k < |w| ==> w[k] == s[p + k];
      assert IsWordChar(s[q - 1]);
    }
  }

  /** The run of word characters ends where a non-word character first appears. */
  lemma {:induction false} WordEndAt(s: string, p: nat, q: nat)
    requires p <= q <= |s| && (q < |s| ==> !IsWordChar(s[q]))
    requires forall k :: p <= k < q ==> IsWordChar(s[k])
    ensures WordEnd(s, p) == q
    decreases q - p
  {
    if p < q {
      WordEndAt(s, p + 1, q);
    }
  }

  lemma {:induction false} FirstWordIsRun(s: string, p: nat, ws: seq<string>)
    requires p <= |s| && forall k :: 0 <= k < |ws| ==> |ws[k]| > 0 && AllWordChars(ws[k])
    ensures FirstWord(s, p, ws) == if s[p..WordEnd(s, p)] in ws then Some(WordEnd(s, p) - p) else None
    decreases |ws|
  {
    if ws != [] {
      WordThenBoundary(s, p, ws[0]);
      assert forall k :: 0 <= k < |ws[1..]| ==> ws[1..][k] == ws[k + 1];
      FirstWordIsRun(s, p, ws[1..]);
      assert s[p..WordEnd(s, p)] in ws <==> s[p..WordEnd(s, p)] == ws[0] || s[p..WordEnd(s, p)] in ws[1..];
    }
  }

  /** The keyword matcher agrees with the literal reading of the keyword group,
      so `integer` is no keyword: `int` is not followed by a boundary there. */
  lemma KeywordAtIsAlternation(s: string, p: nat)
    requires p <= |s|
    ensures KeywordAt(s, p) == if Boundary(s, p) then FirstWord(s, p, KeywordAlternatives) else None
  {
    var ws := KeywordAlternatives;
    forall k | 0 <= k < |ws| ensures |ws[k]| > 0 && AllWordChars(ws[k]) {
      var w := ws[k];
      assert forall j :: 0 <= j < |w| ==> IsLetter(w[j]);
    }
    FirstWordIsRun(s, p, ws);
    var r := s[p..WordEnd(s, p)];
    assert r in ws <==> IsKeywordWord(r);
  }

  lemma IdentifierTextFits(s: string, p: nat)
    requires p <= |s| && IdentifierAt(s, p).Some?
    ensures IsIdentifierText(s[p..p + IdentifierAt(s, p).value])
  {
    var t := s[p..WordEnd(s, p)];
    assert forall k :: 0 <= k < |t| ==> t[k] == s[p + k];
  }

  lemma NumberTextFits(s: string, p: nat)
    requires p <= |s| && NumberAt(s, p).Some?
    ensures IsNumberText(s[p..p + NumberAt(s, p).value])
  {
    var d := DigitEnd(s, p);
    var t := s[p..p + NumberAt(s, p).value];
    assert forall k :: 0 <= k < |t| ==> t[k] == s[p + k];
    if d + 1 < |s| && s[d] == '.' && IsDigit(s[d + 1]) && Boundary(s, DigitEnd(s, d + 1)) {
      var i := d - p;
      assert t[i] == '.';
      assert AllDigits(t[..i]) by {
        forall k | 0 <= k < i ensures IsDigit(t[..i][k]) { assert t[..i][k] == s[p + k]; }
      }
      var u := t[i + 1..];
      assert AllDigits(u) by {
        forall k | 0 <= k < |u| ensures IsDigit(u[k]) { assert u[k] == s[d + 1 + k]; }
      }
    } else {
      assert |t| == d - p;
    }
  }

  lemma StringTextFits(s: string, p: nat)
    requires p <= |s| && StringAt(s, p).Some?
    ensures IsStringLiteralText(s[p..p + StringAt(s, p).value])
  {
    var t := s[p..p + StringAt(s, p).value];
    assert forall k :: 0 <= k < |t| ==> t[k] == s[p + k];
  }

  lemma OperatorTextFits(s: string, p: nat)
    requires p <= |s| && OperatorAt(s, p).Some?
    ensures IsOperatorText(s[p..p + OperatorAt(s, p).value])
  {
    var t := s[p..p + OperatorAt(s, p).value];
    assert t[0] == s[p];
  }

  lemma SymbolTextFits(s: string, p: nat)
    requires p <= |s| && SymbolAt(s, p).Some?
    ensures IsSymbolText(s[p..p + SymbolAt(s, p).value])
  {
    var t := s[p..p + SymbolAt(s, p).value];
    assert t[0] == s[p];
  }

  /** A text that fits some kind's pattern is not classified UNKNOWN. */
  lemma Known(t: string, k: Kind)
    requires k != Unknown && FitsKind(t, k)
    ensures Classify(t) != Unknown
  {
  }

  lemma KeywordKnown(s: string, p: nat)
    requires p <= |s| && KeywordAt(s, p).Some?
    ensures Classify(s[p..p + KeywordAt(s, p).value]) != Unknown
  {
    KeywordTextFits(s, p);
    Known(s[p..p + KeywordAt(s, p).value], Keyword);
  }

  lemma IdentifierKnown(s: string, p: nat)
    requires p <= |s| && IdentifierAt(s, p).Some?
    ensures Classify(s[p..p + IdentifierAt(s, p).value]) != Unknown
  {
    IdentifierTextFits(s, p);
    Known(s[p..p + IdentifierAt(s, p).value], Identifier);
  }

  lemma NumberKnown(s: string, p: nat)
    requires p <= |s| && NumberAt(s, p).Some?
    ensures Classify(s[p..p + NumberAt(s, p).value]) != Unknown
  {
    NumberTextFits(s, p);
    Known(s[p..p + NumberAt(s, p).value], Number);
  }

  lemma OperatorKnown(s: string, p: nat)
    requires p <= |s| && OperatorAt(s, p).Some?
    ensures Classify(s[p..p + OperatorAt(s, p).value]) != Unknown
  {
    OperatorTextFits(s, p);
    Known(s[p..p + OperatorAt(s, p).value], Operator);
  }

  lemma SymbolKnown(s: string, p: nat)
    requires p <= |s| && SymbolAt(s, p).Some?
    ensures Classify(s[p..p + SymbolAt(s, p).value]) != Unknown
  {
    SymbolTextFits(s, p);
    Known(s[p..p + SymbolAt(s, p).value], Symbol);
  }

  lemma StringLiteralKnown(s: string, p: nat)
    requires p <= |s| && StringAt(s, p).Some?
    ensures Classify(s[p..p + StringAt(s, p).value]) != Unknown
  {
    StringTextFits(s, p);
    Known(s[p..p + StringAt(s, p).value], StringLiteral);
  }

  /** Whatever the combined pattern matches is classified: the UNKNOWN branch is unreachable. */
  lemma MatchIsClassified(s: string, p: nat)
    requires p <= |s| && MatchAt(s, p).Some?
    ensures Classify(s[p..p + MatchAt(s, p).value]) != Unknown
  {
    if KeywordAt(s, p).Some? {
      KeywordKnown(s, p);
    } else if IdentifierAt(s, p).Some? {
      IdentifierKnown(s, p);
    } else if NumberAt(s, p).Some? {
      NumberKnown(s, p);
    } else if OperatorAt(s, p).Some? {
      OperatorKnown(s, p);
    } else if SymbolAt(s, p).Some? {
      SymbolKnown(s, p);
    } else {
      StringLiteralKnown(s, p);
    }
  }

  /** The combined pattern's matches always count. */
  lemma CombinedFits(s: string, q: nat)
    requires q <= |s|
    ensures Fits(s, q, Combined(s, q)) <==> MatchAt(s, q).Some?
  {
    MatchAtBounds(s, q);
  }

  /** `find` skips exactly the positions where nothing counts as a match. */
  lemma {:induction false} FindSkips(pat: Pattern, s: string, p: nat)
    requires p <= |s|
    ensures NextMatch(pat, s, p).None? ==> forall q :: p <= q < |s| ==> !Fits(s, q, pat(s, q))
    ensures NextMatch(pat, s, p).Some? ==>
      var (a, n) := NextMatch(pat, s, p).value;
      pat(s, a) == Some(n) && forall q :: p <= q < a ==> !Fits(s, q, pat(s, q))
    decreases |s| - p
  {
    if p < |s| && !Fits(s, p, pat(s, p)) {
      FindSkips(pat, s, p + 1);
    }
  }

  /** For the combined pattern: `find` reports the leftmost position where
      `MatchAt` matches, with that match's length, and none if there is none. */
  lemma NextMatchSkips(s: string, p: nat)
    requires p <= |s|
    ensures NextMatch(Combined, s, p).None? ==> forall q :: p <= q < |s| ==> MatchAt(s, q).None?
    ensures NextMatch(Combined, s, p).Some? ==>
      var (a, n) := NextMatch(Combined, s, p).value;
      MatchAt(s, a) == Some(n) && forall q :: p <= q < a ==> MatchAt(s, q).None?
  {
    FindSkips(Combined, s, p);
    forall q | p <= q < |s| ensures Fits(s, q, Combined(s, q)) <==> MatchAt(s, q).Some? {
      CombinedFits(s, q);
    }
  }

  /** Every span is a non-empty stretch of `[lo, hi)`. */
  predicate SpansWithin(sp: seq<(nat, nat)>, lo: nat, hi: nat) {
    forall k :: 0 <= k < |sp| ==> lo <= sp[k].0 < sp[k].1 <= hi
  }

  /** Each span ends at or before the next one starts. */
  predicate SpansAscending(sp: seq<(nat, nat)>) {
    forall k :: 0 < k < |sp| ==> sp[k - 1].1 <= sp[k].0
  }

  /** The spans of the matched texts lie in the text, after the search start. */
  lemma {:induction false} SpansInText(pat: Pattern, s: string, p: nat)
    requires p <= |s|
    ensures SpansWithin(Spans(pat, s, p), p, |s|)
    decreases |s| - p
  {
    var m := NextMatch(pat, s, p);
    if m.Some? {
      var (a, n) := m.value;
      SpansInText(pat, s, a + n);
      var sp, sp' := Spans(pat, s, p), Spans(pat, s, a + n);
      assert sp == [(a, a + n)] + sp';
      forall k | 0 <= k < |sp| ensures p <= sp[k].0 < sp[k].1 <= |s| {
        if k > 0 { assert sp[k] == sp'[k - 1]; }
      }
    }
  }

  /** The spans come left to right and do not overlap. */
  lemma {:induction false} SpansOrdered(pat: Pattern, s: string, p: nat)
    requires p <= |s|
    ensures SpansAscending(Spans(pat, s, p))
    decreases |s| - p
  {
    var m := NextMatch(pat, s, p);
    if m.Some? {
      var (a, n) := m.value;
      SpansOrdered(pat, s, a + n);
      SpansInText(pat, s, a + n);
      var sp, sp' := Spans(pat, s, p), Spans(pat, s, a + n);
      assert sp == [(a, a + n)] + sp';
      forall k | 0 < k < |sp| ensures sp[k - 1].1 <= sp[k].0 {
        assert sp[k] == sp'[k - 1];
        if k > 1 {
          assert sp[k - 1] == sp'[k - 2];
        } else {
          assert a + n <= sp'[0].0;
        }
      }
    }
  }

  /** Each matched text is the text at its span. */
  lemma {:induction false} SpansTexts(pat: Pattern, s: string, p: nat)
    requires p <= |s|
    ensures var ls, sp := Lexemes(pat, s, p), Spans(pat, s, p);
      |ls| == |sp| &&
      forall k :: 0 <= k < |sp| ==> sp[k].0 <= sp[k].1 <= |s| && ls[k] == s[sp[k].0..sp[k].1]
    decreases |s| - p
  {
    var m := NextMatch(pat, s, p);
    if m.Some? {
      var (a, n) := m.value;
      SpansTexts(pat, s, a + n);
      var ls, sp := Lexemes(pat, s, p), Spans(pat, s, p);
      var ls', sp' := Lexemes(pat, s, a + n), Spans(pat, s, a + n);
      assert ls == [s[a..a + n]] + ls';
      assert sp == [(a, a + n)] + sp';
      forall k | 0 <= k < |sp| ensures sp[k].0 <= sp[k].1 <= |s| && ls[k] == s[sp[k].0..sp[k].1] {
        if k > 0 {
          assert sp[k] == sp'[k - 1];
          assert ls[k] == ls'[k - 1];
        }
      }
    }
  }

  /** The match `find` reports is the pattern's match at its start. */
  lemma {:induction false} FindFound(pat: Pattern, s: string, p: nat, a: nat, n: nat)
    requires p <= |s| && NextMatch(pat, s, p) == Some((a, n))
    ensures pat(s, a) == Some(n) && Fits(s, a, pat(s, a))
    decreases |s| - p
  {
    if !Fits(s, p, pat(s, p)) {
      FindFound(pat, s, p + 1, a, n);
    }
  }

  /** A text the lexer's `if`/`else if` chain gives a kind other than UNKNOWN. */
  predicate Recognised(t: string) { Classify(t) != Unknown }

  /** Every match of `pat` in `s` that counts has a text satisfying `ok`. */
  predicate MatchesSatisfy(pat: Pattern, ok: string -> bool, s: string) {
    forall q :: 0 <= q <= |s| ==> SatisfiesAt(pat, ok, s, q)
  }

  /** The match of `pat` at `q`, if it counts, has a text satisfying `ok`. */
  predicate SatisfiesAt(pat: Pattern, ok: string -> bool, s: string, q: nat)
    requires q <= |s|
  {
    Fits(s, q, pat(s, q)) ==> ok(s[q..q + pat(s, q).value])
  }

  predicate AllSatisfy(ok: string -> bool, ls: seq<string>) {
    forall k :: 0 <= k < |ls| ==> ok(ls[k])
  }

  lemma AllSatisfyCons(ok: string -> bool, t: string, ls: seq<string>)
    requires ok(t) && AllSatisfy(ok, ls)
    ensures AllSatisfy(ok, [t] + ls)
  {
    assert forall k :: 0 < k <= |ls| ==> ([t] + ls)[k] == ls[k - 1];
  }

  /** A property every counted match of the pattern has, every matched text has. */
  lemma {:induction false} LexemesSatisfy(pat: Pattern, ok: string -> bool, s: string, p: nat)
    requires p <= |s| && MatchesSatisfy(pat, ok, s)
    ensures AllSatisfy(ok, Lexemes(pat, s, p))
    decreases |s| - p
  {
    var m := NextMatch(pat, s, p);
    if m.Some? {
      var (a, n) := m.value;
      FindFound(pat, s, p, a, n);
      assert SatisfiesAt(pat, ok, s, a);
      LexemesSatisfy(pat, ok, s, a + n);
      LexemesStep(pat, s, p, a, n);
      AllSatisfyCons(ok, s[a..a + n], Lexemes(pat, s, a + n));
    }
  }

  lemma CombinedRecognisedAt(pat: Pattern, ok: string -> bool, s: string, q: nat)
    requires pat == Combined && ok == Recognised
    requires q <= |s| && Fits(s, q, pat(s, q))
    ensures ok(s[q..q + pat(s, q).value])
  {
    assert pat(s, q) == MatchAt(s, q);
    MatchIsClassified(s, q);
    var t := s[q..q + MatchAt(s, q).value];
    assert ok(t) == Recognised(t);
  }

  /** Every text the combined pattern matches is classified. */
  lemma CombinedRecognised(pat: Pattern, ok: string -> bool, s: string)
    requires pat == Combined && ok == Recognised
    ensures MatchesSatisfy(pat, ok, s)
  {
    forall q | 0 <= q <= |s|
      ensures SatisfiesAt(pat, ok, s, q)
    {
      if Fits(s, q, pat(s, q)) {
        CombinedRecognisedAt(pat, ok, s, q);
      }
    }
  }

  // ---------------------------------------------------------------------
  // The state machine

  /** The token each matched text becomes. */
  function TokensOf(ls: seq<string>): seq<Token> {
    if ls == [] then [] else [Token(Classify(ls[0]), ls[0])] + TokensOf(ls[1..])
  }

  /** The loop adds one token per matched text, in order, whatever else it does. */
  lemma {:induction false} RunTokens(ls: seq<string>, st: LexState)
    ensures Run(ls, st).tokens == st.tokens + TokensOf(ls)
    decreases |ls|
  {
    if ls != [] {
      RunTokens(ls[1..], Step(st, ls[0]));
    }
  }

  lemma CountKindPush(toks: seq<Token>, t: Token, k: Kind)
    ensures CountKind(toks + [t], k) == CountKind(toks, k) + (if t.kind == k then 1 else 0)
  {
    if toks != [] {
      assert (toks + [t])[1..] == toks[1..] + [t];
      CountKindPush(toks[1..], t, k);
    }
  }

  lemma CountTypeKeywordsPush(toks: seq<Token>, t: Token)
    ensures CountTypeKeywords(toks + [t]) == CountTypeKeywords(toks) + (if IsTypeKeyword(t) then 1 else 0)
  {
    if toks != [] {
      assert (toks + [t])[1..] == toks[1..] + [t];
      CountTypeKeywordsPush(toks[1..], t);
    }
  }

  /** What the scanning loop keeps true from the start:
      - a pending type and every recorded type is a type keyword;
      - each recorded row, and the pending type, took its own type-keyword token,
        and each row its own identifier token;
      - every row names an identifier token;
      - `=` never enters the expression list, so no inline code is emitted;
      - every token's text fits its kind. */
  predicate LexInv(st: LexState, temp: nat) {
    (st.pending.Some? ==> IsTypeWord(st.pending.value)) &&
    (forall k :: 0 <= k < |st.decls| ==> IsTypeWord(st.decls[k].typeName)) &&
    |st.decls| + (if st.pending.Some? then 1 else 0) <= CountTypeKeywords(st.tokens) &&
    |st.decls| <= CountKind(st.tokens, Identifier) &&
    (forall k :: 0 <= k < |st.decls| ==> Token(Identifier, st.decls[k].name) in st.tokens) &&
    "=" !in st.expr &&
    st.tac == [] && st.temp == temp &&
    (forall k :: 0 <= k < |st.tokens| ==> FitsKind(st.tokens[k].text, st.tokens[k].kind))
  }

  /** Without an `=` in the expression list `generateTAC` returns before appending. */
  lemma InlineTacNeedsAssign(expr: seq<string>, temp: nat)
    requires "=" !in expr
    ensures InlineTac(expr, temp) == ([], temp)
  {
    if |expr| >= 3 { assert expr[1] in expr; }
  }

  /** With one it would: the branch the lexer can never reach. */
  lemma InlineTacExamples()
    ensures InlineTac(["x", "=", "5"], 1) == (["x = 5"], 1)
    ensures InlineTac(["x", "=", "a", "+", "b"], 1) == (["t1 = a + b", "x = t1"], 2)
  {
    assert DigitChar(1) == '1';
    assert NatStr(1) == "1";
    assert "x" + " = " + "5" == "x = 5";
    assert "t" + "1" == "t1";
    assert "t1" + " = " + "a" + " " + "+" + " " + "b" == "t1 = a + b";
    assert "x" + " = " + "t1" == "x = t1";
  }

  /** The kind of a matched text fits it. */
  lemma ClassifyFits(t: string)
    requires Classify(t) != Unknown
    ensures FitsKind(t, Classify(t))
  {
  }

  lemma StepKeepsInv(st: LexState, t: string, temp: nat)
    requires LexInv(st, temp) && Classify(t) != Unknown
    ensures LexInv(Step(st, t), temp)
  {
    var k := Classify(t);
    var tok := Token(k, t);
    var r := Step(st, t);
    CountKindPush(st.tokens, tok, Identifier);
    CountTypeKeywordsPush(st.tokens, tok);
    assert r.tokens == st.tokens + [tok];
    forall j | 0 <= j < |r.tokens| ensures FitsKind(r.tokens[j].text, r.tokens[j].kind) {
      if j < |st.tokens| { assert r.tokens[j] == st.tokens[j]; } else { ClassifyFits(t); }
    }
    forall j | 0 <= j < |st.decls| ensures Token(Identifier, st.decls[j].name) in r.tokens {
      assert Token(Identifier, st.decls[j].name) in st.tokens;
    }
    if k == Keyword && t != "if" && t != "while" && t != "for" {
      assert IsTypeWord(t);
    }
    if k == Identifier || k == Number {
      if IsNumberText(t) { NumberTextIsNotIdentifier(t); }
      assert t != "=" by { assert t[0] != '='; }
      assert r.expr == st.expr + [t];
    }
    if k == Symbol && t == ";" && st.inExpr {
      InlineTacNeedsAssign(st.expr, st.temp);
    }
    if k == Identifier && st.pending.Some? {
      assert r.decls == st.decls + [Decl(t, st.pending.value)];
      assert tok in r.tokens;
    }
  }

  lemma {:induction false} RunKeepsInv(ls: seq<string>, st: LexState, temp: nat)
    requires LexInv(st, temp) && AllSatisfy(Recognised, ls)
    ensures LexInv(Run(ls, st), temp)
    decreases |ls|
  {
    if ls != [] {
      StepKeepsInv(st, ls[0], temp);
      assert AllSatisfy(Recognised, ls[1..]) by {
        assert forall k :: 0 <= k < |ls[1..]| ==> ls[1..][k] == ls[k + 1];
      }
      RunKeepsInv(ls[1..], Step(st, ls[0]), temp);
    }
  }

  /** `generateTAC` on an expression list without `=` changes nothing. */
  lemma CallTacIdle(st: LexState)
    requires "=" !in st.expr
    ensures CallTac(st) == st
  {
    InlineTacNeedsAssign(st.expr, st.temp);
    assert st.tac + [] == st.tac;
  }

  lemma TokenizeKeepsInv(pat: Pattern, code: string, temp: nat)
    requires MatchesSatisfy(pat, Recognised, Normalize(code))
    ensures LexInv(TokenizeWith(pat, code, temp), temp)
    ensures var s := Normalize(code);
      TokenizeWith(pat, code, temp).tokens == (if s == [] then [] else TokensOf(Lexemes(pat, s, 0)))
  {
    var s := Normalize(code);
    if s != [] {
      var ls := Lexemes(pat, s, 0);
      LexemesSatisfy(pat, Recognised, s, 0);
      RunKeepsInv(ls, Start(temp), temp);
      RunTokens(ls, Start(temp));
      var r := Run(ls, Start(temp));
      if r.expr != [] && r.inExpr {
        CallTacIdle(r);
      }
      assert TokenizeWith(pat, code, temp) == Finish(r);
    }
  }

  /** What one `tokenize(code)` call leaves behind, on a lexer whose temp
      counter is `temp`:
      - one token per matched text of the normalised code, in order, each
        of a kind whose pattern its text fits (never UNKNOWN);
      - at most one symbol-table row per type-keyword token and per
        identifier token, each typed by a type keyword and named by an
        identifier token;
      - no inline three-address code, and the temp counter unchanged. */
  lemma TokenizeFacts(code: string, temp: nat)
    ensures var st := Tokenize(code, temp);
      var s := Normalize(code);
      st.tokens == (if s == [] then [] else TokensOf(Lexemes(Combined, s, 0))) &&
      (forall k :: 0 <= k < |st.tokens| ==> st.tokens[k].kind != Unknown && FitsKind(st.tokens[k].text, st.tokens[k].kind)) &&
      |st.decls| <= CountTypeKeywords(st.tokens) && |st.decls| <= CountKind(st.tokens, Identifier) &&
      (forall k :: 0 <= k < |st.decls| ==> IsTypeWord(st.decls[k].typeName) && Token(Identifier, st.decls[k].name) in st.tokens) &&
      st.tac == [] && st.temp == temp
  {
    CombinedRecognised(Combined, Recognised, Normalize(code));
    TokenizeKeepsInv(Combined, code, temp);
  }

  /** Code that normalises to nothing leaves every list empty. */
  lemma TokenizeBlank(code: string, temp: nat)
    requires Normalize(code) == []
    ensures Tokenize(code, temp) == Start(temp)
  {
  }

  /** A pending type survives every token but an identifier or a type
      keyword (`if`, `while` and `for` included), a later type keyword
      replaces it, and an identifier consumes it into a new row; only that
      adds a row. */
  lemma PendingTypeRules(st: LexState, t: string)
    ensures Classify(t) != Identifier && Classify(t) != Keyword ==> Step(st, t).pending == st.pending
    ensures t == "if" || t == "while" || t == "for" ==> Step(st, t).pending == st.pending
    ensures IsTypeWord(t) ==> Step(st, t).pending == Some(t)
    ensures Classify(t) == Identifier && st.pending.Some? ==>
      Step(st, t).pending == None && Step(st, t).decls == st.decls + [Decl(t, st.pending.value)]
    ensures Classify(t) == Identifier && st.pending.None? ==>
      Step(st, t).pending == None && Step(st, t).decls == st.decls
    ensures Classify(t) != Identifier ==> Step(st, t).decls == st.decls
  {
    if IsTypeWord(t) || t == "if" || t == "while" || t == "for" {
      assert IsKeywordText(t);
    }
  }

  /** The symbol-table rows read off a token list, independently of the
      scanning state: a type keyword makes its word pending, and an
      identifier seen while a word is pending becomes a row typed by it. */
  function DeclsFrom(tokens: seq<Token>, pending: Option<string>): seq<Decl> {
    if tokens == [] then []
    else if IsTypeKeyword(tokens[0]) then DeclsFrom(tokens[1..], Some(tokens[0].text))
    else if tokens[0].kind == Identifier && pending.Some? then
      [Decl(tokens[0].text, pending.value)] + DeclsFrom(tokens[1..], None)
    else DeclsFrom(tokens[1..], pending)
  }

  lemma {:induction false} RunDecls(ls: seq<string>, st: LexState)
    ensures Run(ls, st).decls == st.decls + DeclsFrom(TokensOf(ls), st.pending)
    decreases |ls|
  {
    if ls != [] {
      var t := ls[0];
      var next := Step(st, t);
      PendingTypeRules(st, t);
      RunDecls(ls[1..], next);
      assert TokensOf(ls)[1..] == TokensOf(ls[1..]);
      if Classify(t) == Keyword && !IsTypeWord(t) {
        assert t == "if" || t == "while" || t == "for";
      }
    }
  }

  /** The symbol table `tokenize` builds is the one read off its token list:
      one row per identifier token that follows a type keyword, in token
      order, with no row merged or dropped for a repeated name. */
  lemma TokenizeDecls(code: string, temp: nat)
    ensures var st := Tokenize(code, temp);
      st.decls == DeclsFrom(st.tokens, None)
  {
    var s := Normalize(code);
    if s != [] {
      var ls := Lexemes(Combined, s, 0);
      var r := Run(ls, Start(temp));
      RunDecls(ls, Start(temp));
      RunTokens(ls, Start(temp));
      assert Tokenize(code, temp) == Finish(r);
      assert Finish(r).decls == r.decls && Finish(r).tokens == r.tokens;
      assert r.tokens == TokensOf(ls) && r.decls == DeclsFrom(TokensOf(ls), None);
    }
  }

  /** Word boundaries decide keywords: in `integer x` the whole word
      `integer` is matched and classified as an identifier, while in
      `int x` the word `int` is a keyword. */
  lemma IntegerIsIdentifier()
    ensures var s := "integer x";
      MatchAt(s, 0) == Some(7) && Classify(s[0..7]) == Identifier
    ensures var s := "int x";
      MatchAt(s, 0) == Some(3) && Classify(s[0..3]) == Keyword
  {
    var s := "integer x";
    WordEndAt(s, 0, 7);
    assert s[0..7] == "integer";
    var s2 := "int x";
    WordEndAt(s2, 0, 3);
    assert s2[0..3] == "int";
  }
}
