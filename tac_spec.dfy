/** What the three-address-code generator computes, as functions over the
    token list. A handler's contribution to the output buffer is an
    `Effect`: lines it puts in front of everything already in the buffer
    (only the dispatch lines of a `switch` do that) and lines it appends.
    Positions are token indices; counters are the next label and temp
    numbers. The one exception the generator can raise, an index past the
    end when `case` is the last token, is the `Threw` outcome. */
module TacSpec {
  import opened Strings
  import opened Tokens
  import opened Optional
  import opened Lines
  import opened Postfix

  datatype Effect = Effect(front: seq<Line>, back: seq<Line>)

  const NoEffect := Effect([], [])

  /** The buffer after the effect: `front` inserted at position 0, `back` appended. */
  function Apply(e: Effect, code: seq<Line>): seq<Line> { e.front + code + e.back }

  /** `e1` followed by `e2`. */
  function Then(e1: Effect, e2: Effect): Effect { Effect(e2.front + e1.front, e1.back + e2.back) }

  function Emit(e: Effect, lines: seq<Line>): Effect { Effect(e.front, e.back + lines) }

  lemma ApplyThen(e1: Effect, e2: Effect, code: seq<Line>)
    ensures Apply(Then(e1, e2), code) == Apply(e2, Apply(e1, code))
  {
  }

  /** Proof helper: concatenation of line lists regroups. */
  lemma Assoc(a: seq<Line>, b: seq<Line>, c: seq<Line>)
    ensures a + b + c == a + (b + c)
  {
  }

  /** Lines inserted in front of and appended to a buffer an effect produced. */
  lemma ApplyAround(e: Effect, front: seq<Line>, back: seq<Line>, code: seq<Line>)
    ensures front + Apply(e, code) + back == Apply(Effect(front + e.front, e.back + back), code)
  {
  }

  lemma ApplyEmit(e: Effect, lines: seq<Line>, code: seq<Line>)
    ensures Apply(Emit(e, lines), code) == Apply(e, code) + lines
  {
  }

  /** The outcome of a handler: the index it returns, the counters afterwards
      and its effect; or the exception. */
  datatype Run = Run(next: nat, labels: nat, temps: nat, eff: Effect) | Threw(labels: nat, temps: nat)

  /** The texts of the tokens in `[i, j)`; nothing when `i` is past the end. */
  function Header(toks: seq<Token>, i: nat, j: nat): (words: seq<string>)
    ensures i < j <= |toks| ==> |words| == j - i
    ensures i >= j ==> words == []
    decreases j
  {
    if i < j <= |toks| then Header(toks, i, j - 1) + [toks[j - 1].text] else []
  }

  /** The `k`-th word of a header is the text of the `k`-th token from `i`. */
  lemma {:induction false} HeaderWords(toks: seq<Token>, i: nat, j: nat)
    requires i < j <= |toks|
    ensures forall k :: 0 <= k < j - i ==> Header(toks, i, j)[k] == toks[i + k].text
    decreases j
  {
    if i < j - 1 {
      HeaderWords(toks, i, j - 1);
    }
  }

  predicate IsKeyword(t: Token, w: string) { t == Token(Keyword, w) }

  // ---------------------------------------------------------------------
  // handleAssignment

  function AssignError(what: string, i: nat): Line {
    Error(what + " at token " + NatStr(i))
  }

  /** handleAssignment with the `=` at index `i`. */
  function Assign(toks: seq<Token>, fold: Fold, i: nat, l: nat, t: nat): (r: Run)
    ensures r.Run? && r.next > i && r.labels == l && r.temps >= t && r.eff.front == []
  {
    if i == 0 || i + 1 >= |toks| || toks[i - 1].kind != Identifier then
      Run(i + 1, l, t, Effect([], [AssignError("Invalid assignment", i)]))
    else
      var j := FindText(toks, i + 1, ";");
      var expr := Header(toks, i + 1, j);
      if expr == [] then
        Run(j, l, t, Effect([], [AssignError("Empty expression in assignment", i)]))
      else
        var post := ToPostfix(expr);
        if post == [] then
          Run(j, l, t, Effect([], [AssignError("Invalid expression in assignment", i)]))
        else
          var ev := Eval(fold, post, t);
          var tail := if ev.value.Some? then [Copy(toks[i - 1].text, ev.value.value)] else [];
          Run(j + 1, l, ev.temps, Effect([], ev.lines + tail))
  }

  // ---------------------------------------------------------------------
  // processStatement and the handlers, mutually recursive. The second
  // component of each `decreases` orders calls made at the same index.

  /** processStatement at index `i`. */
  function Stmt(toks: seq<Token>, fold: Fold, i: nat, l: nat, t: nat): (r: Run)
    requires i < |toks|
    ensures r.labels >= l && r.temps >= t
    ensures r.Run? ==> r.next > i
    decreases |toks| - i, 2
  {
    var tok := toks[i];
    if IsTypeKeyword(tok) then
      if i + 1 < |toks| && toks[i + 1].kind == Identifier then
        if i + 2 < |toks| && toks[i + 2].text == "=" then Assign(toks, fold, i + 2, l, t)
        else Run(i + 3, l, t, NoEffect)
      else Run(i + 2, l, t, NoEffect)
    else if tok.kind == Identifier && i + 1 < |toks| && toks[i + 1].text == "=" then
      Assign(toks, fold, i + 1, l, t)
    else if IsKeyword(tok, "if") then If(toks, fold, i, l, t)
    else if IsKeyword(tok, "while") then While(toks, fold, i, l, t)
    else if IsKeyword(tok, "for") then For(toks, fold, i, l, t)
    else if IsKeyword(tok, "switch") then Switch(toks, fold, i, l, t)
    else Run(i + 1, l, t, NoEffect)
  }

  /** The statements of a `{ ... }` body from index `j` up to the closing
      `}` (or the end), after `acc`. The result's index is that of the `}`. */
  function BlockAcc(toks: seq<Token>, fold: Fold, j: nat, l: nat, t: nat, acc: Effect): (r: Run)
    ensures r.labels >= l && r.temps >= t
    ensures r.Run? ==> r.next >= j && (r.next < |toks| ==> toks[r.next].text == "}")
    decreases |toks| - j, 3
  {
    if j < |toks| && toks[j].text != "}" then
      var s := Stmt(toks, fold, j, l, t);
      if s.Threw? then s else BlockAcc(toks, fold, s.next, s.labels, s.temps, Then(acc, s.eff))
    else Run(j, l, t, acc)
  }

  /** An optional `{ ... }` body at index `open`: the index returned is past
      the `}`; without a `{` nothing is consumed. */
  function Body(toks: seq<Token>, fold: Fold, open: nat, l: nat, t: nat, acc: Effect): (r: Run)
    ensures r.labels >= l && r.temps >= t
    ensures r.Run? ==> r.next >= open
    decreases |toks| - open, 0
  {
    if open < |toks| && toks[open].text == "{" then
      var b := BlockAcc(toks, fold, open + 1, l, t, acc);
      if b.Threw? then b else Run(b.next + 1, b.labels, b.temps, b.eff)
    else Run(open, l, t, acc)
  }

  /** handleIfStatement: `ifFalse C goto Lelse`, body, `goto Lend`, `Lelse:`,
      optional `else` body, `Lend:`; the end label is allocated first. */
  function If(toks: seq<Token>, fold: Fold, i: nat, l: nat, t: nat): (r: Run)
    requires i < |toks|
    ensures r.labels >= l + 2 && r.temps >= t
    ensures r.Run? ==> r.next > i + 2
    decreases |toks| - i, 1
  {
    var j := FindText(toks, i + 2, ")");
    var b := Body(toks, fold, j + 1, l + 2, t, Effect([], [IfFalse(Header(toks, i + 2, j), l + 1)]));
    if b.Threw? then b
    else Else(toks, fold, b.next, b.labels, b.temps, Emit(b.eff, [Goto(l), Mark(l + 1)]), l)
  }

  /** The rest of an `if` from index `k`, after `goto Lend` and `Lelse:`:
      the optional `else` body, then `Lend:`. */
  function Else(toks: seq<Token>, fold: Fold, k: nat, l: nat, t: nat, acc: Effect, lend: nat): (r: Run)
    ensures r.labels >= l && r.temps >= t
    ensures r.Run? ==> r.next >= k
    decreases |toks| - k, 1
  {
    if k < |toks| && IsKeyword(toks[k], "else") then
      var c := Body(toks, fold, k + 1, l, t, acc);
      if c.Threw? then c else Run(c.next, c.labels, c.temps, Emit(c.eff, [Mark(lend)]))
    else Run(k, l, t, Emit(acc, [Mark(lend)]))
  }

  /** handleWhileLoop: `Lloop:`, `ifFalse C goto Lend`, body, `goto Lloop`, `Lend:`. */
  function While(toks: seq<Token>, fold: Fold, i: nat, l: nat, t: nat): (r: Run)
    requires i < |toks|
    ensures r.labels >= l + 2 && r.temps >= t
    ensures r.Run? ==> r.next > i + 2
    decreases |toks| - i, 1
  {
    var j := FindText(toks, i + 2, ")");
    var lloop, lend := l, l + 1;
    var head := Effect([], [Mark(lloop), IfFalse(Header(toks, i + 2, j), lend)]);
    var b := Body(toks, fold, j + 1, l + 2, t, head);
    if b.Threw? then b else Run(b.next, b.labels, b.temps, Emit(b.eff, [Goto(lloop), Mark(lend)]))
  }

  /** The three parts of a `for` header and the index of its `)`. */
  datatype ForHeader = ForHeader(init: seq<string>, cond: seq<string>, incr: seq<string>, close: nat)

  /** The header of the `for` at `i`: up to the first `;`, up to the next
      `;`, up to the next `)`. */
  function ForParts(toks: seq<Token>, i: nat): (h: ForHeader)
    ensures h.close >= i + 2
  {
    var j1 := FindText(toks, i + 2, ";");
    var j2 := FindText(toks, j1 + 1, ";");
    var j3 := FindText(toks, j2 + 1, ")");
    ForHeader(Header(toks, i + 2, j1), Header(toks, j1 + 1, j2), Header(toks, j2 + 1, j3), j3)
  }

  /** `line` when the header part `words` it comes from is non-empty. */
  function Unless(words: seq<string>, line: Line): seq<Line> {
    if words != [] then [line] else []
  }

  /** The lines a `for` header puts before its body. */
  function ForHead(init: seq<string>, cond: seq<string>, lloop: nat, lend: nat): seq<Line> {
    Unless(init, Plain(init)) + [Mark(lloop)] + Unless(cond, IfFalse(cond, lend))
  }

  /** The lines a `for` loop puts after its body. */
  function ForTail(incr: seq<string>, lloop: nat, lend: nat): seq<Line> {
    Unless(incr, Plain(incr)) + [Goto(lloop), Mark(lend)]
  }

  /** handleForLoop: init, `Lloop:`, `ifFalse C goto Lend`, body, increment,
      `goto Lloop`, `Lend:`; the three header parts each only when non-empty. */
  function For(toks: seq<Token>, fold: Fold, i: nat, l: nat, t: nat): (r: Run)
    requires i < |toks|
    ensures r.labels >= l + 2 && r.temps >= t
    ensures r.Run? ==> r.next > i + 2
    decreases |toks| - i, 1
  {
    var h := ForParts(toks, i);
    var b := Body(toks, fold, h.close + 1, l + 2, t, Effect([], ForHead(h.init, h.cond, l, l + 1)));
    if b.Threw? then b else Run(b.next, b.labels, b.temps, Emit(b.eff, ForTail(h.incr, l, l + 1)))
  }

  // ---------------------------------------------------------------------
  // handleSwitchStatement

  /** A `LinkedHashMap<String, String>` as its entries in insertion order. */
  type CaseMap = seq<(string, nat)>

  function Keys(m: CaseMap): seq<string> { seq(|m|, k requires 0 <= k < |m| => m[k].0) }

  /** `put`: a new key goes last; an existing key keeps its place and takes the new value. */
  function Put(m: CaseMap, key: string, value: nat): (r: CaseMap)
    ensures |r| == if key in Keys(m) then |m| else |m| + 1
  {
    if m == [] then [(key, value)]
    else if m[0].0 == key then
      assert Keys(m)[0] == key;
      [(key, value)] + m[1..]
    else
      assert Keys(m) == [m[0].0] + Keys(m[1..]);
      [m[0]] + Put(m[1..], key, value)
  }

  function CaseLine(sv: seq<string>, entry: (string, nat)): Line {
    CaseTest(sv, entry.0, entry.1)
  }

  /** The lines that inserting every entry at position 0, in order, leaves in
      front: the last entry first. */
  function CaseDispatch(sv: seq<string>, m: CaseMap): (lines: seq<Line>)
    ensures |lines| == |m|
  {
    if m == [] then [] else [CaseLine(sv, m[|m| - 1])] + CaseDispatch(sv, m[..|m| - 1])
  }

  /** Everything a switch inserts at position 0: the default `goto` is inserted last, so it comes first. */
  function Dispatch(sv: seq<string>, m: CaseMap, dflt: Option<nat>): seq<Line> {
    (if dflt.Some? then [Goto(dflt.value)] else []) + CaseDispatch(sv, m)
  }

  /** The statements of one `case` or `default` arm, which stop at `case`,
      `default`, `}` or any keyword. */
  function CaseBodyAcc(toks: seq<Token>, fold: Fold, j: nat, l: nat, t: nat, acc: Effect): (r: Run)
    ensures r.labels >= l && r.temps >= t
    ensures r.Run? ==> r.next >= j
    decreases |toks| - j, 3
  {
    if j < |toks| && toks[j].text != "case" && toks[j].text != "default" && toks[j].text != "}" && toks[j].kind != Keyword then
      var s := Stmt(toks, fold, j, l, t);
      if s.Threw? then s else CaseBodyAcc(toks, fold, s.next, s.labels, s.temps, Then(acc, s.eff))
    else Run(j, l, t, acc)
  }

  /** One `case` or `default` arm at index `j`: its label is allocated and
      defined, a `case` records it under its value (the token after `case`)
      and a `default` as the default; then the arm's statements. A `case`
      that is the last token is the exception. */
  function Arm(toks: seq<Token>, fold: Fold, j: nat, l: nat, t: nat, acc: Effect, m: CaseMap, dflt: Option<nat>):
    (r: (Run, CaseMap, Option<nat>))
    requires j < |toks| && (IsKeyword(toks[j], "case") || IsKeyword(toks[j], "default"))
    ensures r.0.labels >= l && r.0.temps >= t
    ensures r.0.Run? ==> r.0.next >= j + 2
    decreases |toks| - j, 0
  {
    if IsKeyword(toks[j], "case") then
      if j + 1 >= |toks| then (Threw(l, t), m, dflt)
      else (CaseBodyAcc(toks, fold, j + 3, l + 1, t, Emit(acc, [Mark(l)])), Put(m, toks[j + 1].text, l), dflt)
    else (CaseBodyAcc(toks, fold, j + 2, l + 1, t, Emit(acc, [Mark(l)])), m, Some(l))
  }

  /** The loop over a switch body from index `j`: the run so far, the case
      map and the default label. Tokens other than `case` and `default` are skipped. */
  function SwitchLoop(toks: seq<Token>, fold: Fold, j: nat, l: nat, t: nat, acc: Effect, m: CaseMap, dflt: Option<nat>):
    (r: (Run, CaseMap, Option<nat>))
    ensures r.0.labels >= l && r.0.temps >= t
    ensures r.0.Run? ==> r.0.next >= j && (r.0.next < |toks| ==> toks[r.0.next].text == "}")
    decreases |toks| - j, 1
  {
    if j >= |toks| || toks[j].text == "}" then (Run(j, l, t, acc), m, dflt)
    else if IsKeyword(toks[j], "case") || IsKeyword(toks[j], "default") then
      var a := Arm(toks, fold, j, l, t, acc, m, dflt);
      if a.0.Threw? then a else SwitchLoop(toks, fold, a.0.next, a.0.labels, a.0.temps, a.0.eff, a.1, a.2)
    else SwitchLoop(toks, fold, j + 1, l, t, acc, m, dflt)
  }

  /** handleSwitchStatement: the arms' labels and bodies are appended, then
      the dispatch lines are inserted at position 0 and `Lend:` is appended. */
  function Switch(toks: seq<Token>, fold: Fold, i: nat, l: nat, t: nat): (r: Run)
    requires i < |toks|
    ensures r.labels >= l + 1 && r.temps >= t
    ensures r.Run? ==> r.next > i + 2
    decreases |toks| - i, 1
  {
    var j := FindText(toks, i + 2, ")");
    var sv := Header(toks, i + 2, j);
    if j + 1 < |toks| && toks[j + 1].text == "{" then
      var s := SwitchLoop(toks, fold, j + 2, l + 1, t, NoEffect, [], None);
      var b := s.0;
      if b.Threw? then b
      else Run(b.next + 1, b.labels, b.temps, Effect(Dispatch(sv, s.1, s.2) + b.eff.front, b.eff.back + [Mark(l)]))
    else Run(j + 1, l + 1, t, Effect([], [Mark(l)]))
  }

  // ---------------------------------------------------------------------
  // generate

  /** One iteration of generate's loop at index `i`: a construct keyword
      goes to its handler, a `=` operator to handleAssignment, anything else
      is skipped. */
  function TopStep(toks: seq<Token>, fold: Fold, i: nat, l: nat, t: nat): (r: Run)
    requires i < |toks|
    ensures r.labels >= l && r.temps >= t
    ensures r.Run? ==> r.next > i
  {
    var tok := toks[i];
    if IsKeyword(tok, "for") then For(toks, fold, i, l, t)
    else if IsKeyword(tok, "if") then If(toks, fold, i, l, t)
    else if IsKeyword(tok, "while") then While(toks, fold, i, l, t)
    else if IsKeyword(tok, "switch") then Switch(toks, fold, i, l, t)
    else if tok == Token(Operator, "=") then Assign(toks, fold, i, l, t)
    else Run(i + 1, l, t, NoEffect)
  }

  /** The top-level loop of generate from index `i`. */
  function TopAcc(toks: seq<Token>, fold: Fold, i: nat, l: nat, t: nat, acc: Effect): (r: Run)
    ensures r.labels >= l && r.temps >= t
    decreases |toks| - i
  {
    if i >= |toks| then Run(i, l, t, acc)
    else
      var s := TopStep(toks, fold, i, l, t);
      if s.Threw? then s else TopAcc(toks, fold, s.next, s.labels, s.temps, Then(acc, s.eff))
  }

  /** What generate returns. */
  datatype Outcome = Code(text: string) | IndexOutOfBounds

  /** generate on a generator whose counters are `l` and `t`: the outcome and the counters afterwards. */
  function Generate(toks: seq<Token>, fold: Fold, l: nat, t: nat): (r: (Outcome, nat, nat))
    ensures r.1 >= l && r.2 >= t
    ensures toks == [] ==> r == (Code("No tokens provided."), l, t)
  {
    if toks == [] then (Code("No tokens provided."), l, t)
    else
      var run := TopAcc(toks, fold, 0, l, t, NoEffect);
      if run.Threw? then (IndexOutOfBounds, run.labels, run.temps)
      else
        var text := Listing(Apply(run.eff, []));
        (Code(if text == [] then "No valid expressions found." else text), run.labels, run.temps)
  }
}
