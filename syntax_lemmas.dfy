/** Properties of the syntax checker's decisions: the header scan finds the
    matching `)`, the declarations collect every name that follows a type
    keyword, the backward scan of the use check, the switch-body scan, and
    the agreement between the verdict and the report. */
module SyntaxLemmas {
  import opened Strings
  import opened Optional
  import opened Tokens
  import opened SyntaxSpec

  // ---------------------------------------------------------------------
  // The header scan

  /** The parenthesis count after the first `k` tokens. */
  function Parens(toks: seq<Token>, k: nat): int
    requires k <= |toks|
  {
    Depth(toks, "(", ")", k)
  }

  /** The number of tokens with text `w` among the first `k`. */
  function CountText(toks: seq<Token>, w: string, k: nat): nat
    requires k <= |toks|
  {
    if k == 0 then 0 else CountText(toks, w, k - 1) + if toks[k - 1].text == w then 1 else 0
  }

  /** The scan from `j` with `d` open stops where the count first reaches
      zero: the count stays positive before that, the last token taken is the
      closing `)`, and the `;` added are those in between. */
  lemma {:induction false} CloseScanFacts(toks: seq<Token>, j: nat, d: nat, s: nat)
    requires j <= |toks|
    ensures CloseScan(toks, j, d, s).depth == d + Parens(toks, CloseScan(toks, j, d, s).end) - Parens(toks, j)
    ensures forall k :: j <= k < CloseScan(toks, j, d, s).end ==> d + Parens(toks, k) - Parens(toks, j) > 0
    ensures CloseScan(toks, j, d, s).depth > 0 ==> CloseScan(toks, j, d, s).end == |toks|
    ensures d > 0 && CloseScan(toks, j, d, s).depth == 0 ==>
      j < CloseScan(toks, j, d, s).end && toks[CloseScan(toks, j, d, s).end - 1].text == ")"
    ensures CloseScan(toks, j, d, s).semis == s + CountText(toks, ";", CloseScan(toks, j, d, s).end) - CountText(toks, ";", j)
    decreases |toks| - j
  {
    if j < |toks| && d > 0 {
      var w := toks[j].text;
      var d' := if w == "(" then d + 1 else if w == ")" then d - 1 else d;
      var s' := if w == ";" then s + 1 else s;
      assert CloseScan(toks, j, d, s) == CloseScan(toks, j + 1, d', s');
      assert Parens(toks, j + 1) == Parens(toks, j) + Delta(toks[j], "(", ")");
      CloseScanFacts(toks, j + 1, d', s');
    }
  }

  /** A header whose scan ends with the count at zero closes at the `)` that
      matches the `(` after the keyword: the count there is back to what it
      was before that `(`, and higher at every token in between. */
  lemma HeaderMatches(toks: seq<Token>, i: nat)
    requires i + 1 < |toks| && toks[i + 1].text == "("
    requires HeaderOf(toks, i).depth == 0
    ensures i + 2 < HeaderOf(toks, i).end && toks[HeaderOf(toks, i).end - 1].text == ")"
    ensures Parens(toks, HeaderOf(toks, i).end) == Parens(toks, i + 1)
    ensures forall k :: i + 2 <= k < HeaderOf(toks, i).end ==> Parens(toks, k) > Parens(toks, i + 1)
    ensures HeaderOf(toks, i).semis == CountText(toks, ";", HeaderOf(toks, i).end) - CountText(toks, ";", i + 2)
  {
    CloseScanFacts(toks, i + 2, 1, 0);
    assert Parens(toks, i + 2) == Parens(toks, i + 1) + 1;
  }

  // ---------------------------------------------------------------------
  // Declarations

  /** The names that follow a type keyword among the first `k` tokens. */
  function DeclaredIn(toks: seq<Token>, k: nat): set<string>
    requires k <= |toks|
  {
    set j | 0 <= j < k && j + 1 < |toks| && IsTypeKeyword(toks[j]) && toks[j + 1].kind == Identifier :: toks[j + 1].text
  }

  lemma DeclarationAt(toks: seq<Token>, i: nat)
    requires i < |toks|
    ensures ConstructAt(toks, i).decl.Some? <==> i + 1 < |toks| && IsTypeKeyword(toks[i]) && toks[i + 1].kind == Identifier
    ensures ConstructAt(toks, i).decl.Some? ==> ConstructAt(toks, i).decl.value == toks[i + 1].text
  {
    var t := toks[i];
    if IsTypeKeyword(t) {
      assert t.text != "if" && t.text != "while" && t.text != "for" && t.text != "switch";
    }
  }

  /** checkControlStructures declares every name that follows a type keyword,
      wherever it is and whatever the other sub-checks found. */
  lemma {:induction false} ControlDecls(toks: seq<Token>, k: nat)
    requires k <= |toks|
    ensures ControlUpTo(toks, k).decls == DeclaredIn(toks, k)
  {
    if k > 0 {
      ControlDecls(toks, k - 1);
      DeclarationAt(toks, k - 1);
      var o := ConstructAt(toks, k - 1);
      var extra: set<string> := if o.decl.Some? then {o.decl.value} else {};
      assert DeclaredIn(toks, k) == DeclaredIn(toks, k - 1) + extra by {
        forall x | x in DeclaredIn(toks, k) ensures x in DeclaredIn(toks, k - 1) + extra {
          var j :| 0 <= j < k && j + 1 < |toks| && IsTypeKeyword(toks[j]) && toks[j + 1].kind == Identifier && x == toks[j + 1].text;
          if j < k - 1 {
            assert x in DeclaredIn(toks, k - 1);
          }
        }
      }
    }
  }

  // ---------------------------------------------------------------------
  // The use check

  predicate StopsScan(w: string) { w == ";" || w == "{" }

  /** The backward scan succeeds exactly when some control keyword text
      precedes index `k` with no `;` or `{` between them. */
  lemma {:induction false} InControlIff(toks: seq<Token>, k: nat)
    requires k <= |toks|
    ensures InControl(toks, k) <==>
      exists j :: 0 <= j < k && IsControlWord(toks[j].text) && forall m :: j < m < k ==> !StopsScan(toks[m].text)
  {
    if k > 0 {
      InControlIff(toks, k - 1);
      var w := toks[k - 1].text;
      if IsControlWord(w) {
        assert IsControlWord(toks[k - 1].text);
      } else if StopsScan(w) {
        forall j | 0 <= j < k && IsControlWord(toks[j].text)
          ensures exists m :: j < m < k && StopsScan(toks[m].text)
        {
          assert j != k - 1 && StopsScan(toks[k - 1].text);
        }
      } else {
        if exists j :: 0 <= j < k && IsControlWord(toks[j].text) && forall m :: j < m < k ==> !StopsScan(toks[m].text) {
          var j :| 0 <= j < k && IsControlWord(toks[j].text) && forall m :: j < m < k ==> !StopsScan(toks[m].text);
          assert j < k - 1;
        }
      }
    }
  }

  // ---------------------------------------------------------------------
  // The switch body

  predicate IsArmWord(w: string) { w == "case" || w == "default" }

  /** A body the scan accepts with a case seen holds a `case` or `default`
      before the first `}`. */
  lemma {:induction false} CasesNeedArm(toks: seq<Token>, j: nat, has: bool)
    requires Cases(toks, j, has) == CasesOk(true) && !has
    ensures exists k :: j <= k < FindText(toks, j, "}") && IsArmWord(toks[k].text)
    decreases |toks| - j
  {
    if j >= |toks| || toks[j].text == "}" {
    } else if IsArmWord(toks[j].text) {
      assert FindText(toks, j, "}") > j;
    } else {
      CasesNeedArm(toks, j + 1, has);
      assert FindText(toks, j, "}") == FindText(toks, j + 1, "}");
    }
  }

  /** A body with no `case` before its first `}` is accepted, and has an arm
      exactly when a `default` occurs there. */
  lemma {:induction false} CasesWithoutCase(toks: seq<Token>, j: nat, has: bool)
    requires forall k :: j <= k < FindText(toks, j, "}") ==> toks[k].text != "case"
    ensures Cases(toks, j, has) ==
      CasesOk(has || exists k :: j <= k < FindText(toks, j, "}") && toks[k].text == "default")
    decreases |toks| - j
  {
    if j >= |toks| || toks[j].text == "}" {
    } else {
      assert FindText(toks, j, "}") == FindText(toks, j + 1, "}");
      var has' := has || toks[j].text == "default";
      CasesWithoutCase(toks, j + 1, has');
      var f := FindText(toks, j, "}");
      if exists k :: j + 1 <= k < f && toks[k].text == "default" {
        var k :| j + 1 <= k < f && toks[k].text == "default";
        assert j <= k < f;
      }
    }
  }

  // ---------------------------------------------------------------------
  // The verdict and the report

  lemma {:induction false} JoinedEndsInNewline(msgs: seq<string>)
    requires msgs != []
    ensures |Joined(msgs)| > 0 && Joined(msgs)[|Joined(msgs)| - 1] == '\n'
  {
    if |msgs| > 1 {
      JoinedEndsInNewline(msgs[1..]);
    }
  }

  /** checkSyntax returns true exactly when it appended nothing, and then
      exactly when getErrors reports no errors. */
  lemma CheckVerdict(toks: seq<Token>)
    ensures Check(toks).valid <==> Check(toks).msgs == []
    ensures Check(toks).valid <==> Report(Check(toks).msgs) == NoErrors
  {
    if toks != [] && Braces(toks).None? && Parentheses(toks).None? {
      ControlValidIff(toks, |toks|);
    }
    var msgs := Check(toks).msgs;
    if msgs != [] {
      JoinedEndsInNewline(msgs);
      assert NoErrors[|NoErrors| - 1] == '.';
    }
  }

  /** checkSyntax accepts exactly the non-empty lists whose braces and
      parentheses balance, whose constructs all pass their shape checks, and
      in which every identifier follows a type keyword somewhere in the list
      or sits after a control keyword with no `;` or `{` in between. */
  lemma CheckAccepts(toks: seq<Token>)
    ensures Check(toks).valid <==>
      toks != [] && Braces(toks).None? && Parentheses(toks).None? && ControlUpTo(toks, |toks|).valid &&
      forall i :: 0 <= i < |toks| ==> !Undeclared(toks, DeclaredIn(toks, |toks|), i)
  {
    if toks != [] {
      ControlDecls(toks, |toks|);
      var u := FirstUndeclared(toks, DeclaredIn(toks, |toks|), 0);
      if u.Some? {
        assert Undeclared(toks, DeclaredIn(toks, |toks|), u.value);
      }
    }
  }
}
