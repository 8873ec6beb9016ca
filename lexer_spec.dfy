/** What the lexer computes, as functions: whitespace normalisation, the
    matcher that `Matcher.find` runs over the combined pattern, the
    classification of each matched text, and the pending-declaration state
    machine that turns the matched texts into tokens and symbol-table rows.

    The combined pattern is the alternation, in this order, of
      keyword     `\b(int|float|double|char|boolean|if|while|for)\b`
      identifier  `\b[a-zA-Z_][a-zA-Z0-9_]*\b`
      number      `\b[0-9]+(\.[0-9]+)?\b`
      operator    one of `+ - * / = > < !`, then an optional `=`, or one of `> <`
      symbol      `[;(){}]`
      string      `"[^"]*"`
    `find` returns the match that starts leftmost, trying the alternatives
    in order at each start and backtracking within one; the functions below
    spell out what that search gives for each alternative. */
module LexerSpec {
  import opened Strings
  import opened Optional
  import opened Tokens

  // ---------------------------------------------------------------------
  // Normalisation: `code.replaceAll("\\s+", " ").trim()`

  /** Java's `\s`: space, tab, newline, vertical tab, form feed, carriage return. */
  predicate IsSpace(c: char) {
    c == ' ' || c == '\t' || c == '\n' || c == 11 as char || c == 12 as char || c == '\r'
  }

  function SkipSpaces(s: string): (r: string)
    ensures |r| <= |s| && r == s[|s| - |r|..]
    ensures r == [] || !IsSpace(r[0])
  {
    if s != [] && IsSpace(s[0]) then SkipSpaces(s[1..]) else s
  }

  /** Every maximal run of whitespace replaced by one space. */
  function Collapse(s: string): string
    decreases |s|
  {
    if s == [] then []
    else if IsSpace(s[0]) then " " + Collapse(SkipSpaces(s[1..]))
    else [s[0]] + Collapse(s[1..])
  }

  function Normalize(code: string): string { Trim(Collapse(code)) }

  /** A text in which the only whitespace is a single space between two other characters. */
  predicate SingleSpaced(s: string) {
    forall k :: 0 <= k < |s| && IsSpace(s[k]) ==> s[k] == ' ' && 0 < k < |s| - 1 && !IsSpace(s[k + 1])
  }

  // ---------------------------------------------------------------------
  // The matcher

  /** `\b` at position `p`: a word character on exactly one side. */
  predicate Boundary(s: string, p: nat)
    requires p <= |s|
  {
    (p > 0 && IsWordChar(s[p - 1])) != (p < |s| && IsWordChar(s[p]))
  }

  /** End of the run of word characters starting at `p`. */
  function WordEnd(s: string, p: nat): (q: nat)
    requires p <= |s|
    ensures p <= q <= |s| && (q < |s| ==> !IsWordChar(s[q]))
    ensures forall k :: p <= k < q ==> IsWordChar(s[k])
    decreases |s| - p
  {
    if p < |s| && IsWordChar(s[p]) then WordEnd(s, p + 1) else p
  }

  /** End of the run of digits starting at `p`. */
  function DigitEnd(s: string, p: nat): (q: nat)
    requires p <= |s|
    ensures p <= q <= |s| && (q < |s| ==> !IsDigit(s[q]))
    ensures forall k :: p <= k < q ==> IsDigit(s[k])
    decreases |s| - p
  {
    if p < |s| && IsDigit(s[p]) then DigitEnd(s, p + 1) else p
  }

  /** Position of the first `"` at or after `p`, or the end of the text. */
  function QuoteEnd(s: string, p: nat): (q: nat)
    requires p <= |s|
    ensures p <= q <= |s| && (q < |s| ==> s[q] == '"')
    ensures forall k :: p <= k < q ==> s[k] != '"'
    decreases |s| - p
  {
    if p < |s| && s[p] != '"' then QuoteEnd(s, p + 1) else p
  }

  predicate OccursAt(s: string, p: nat, w: string) {
    p + |w| <= |s| && s[p..p + |w|] == w
  }

  /** The eight words of the keyword group. */
  predicate IsKeywordWord(w: string) {
    w == "int" || w == "float" || w == "double" || w == "char" || w == "boolean" ||
    w == "if" || w == "while" || w == "for"
  }

  /** Length of the keyword match at `p`, if any: the run of word characters at a
      boundary, when it is one of the eight words. (The boundary required after
      the word rules out a keyword that is only a prefix of the run.) */
  function KeywordAt(s: string, p: nat): Option<nat>
    requires p <= |s|
  {
    if Boundary(s, p) && IsKeywordWord(s[p..WordEnd(s, p)]) then Some(WordEnd(s, p) - p) else None
  }

  /** Length of the identifier match at `p`: the greedy word run always ends on a boundary. */
  function IdentifierAt(s: string, p: nat): Option<nat>
    requires p <= |s|
  {
    if Boundary(s, p) && p < |s| && (IsLetter(s[p]) || s[p] == '_') then Some(WordEnd(s, p) - p) else None
  }

  /** Length of the number match at `p`. The fraction is kept only when a boundary
      follows its last digit; otherwise the engine backtracks to the integer part,
      which then ends before the `.`. */
  function NumberAt(s: string, p: nat): Option<nat>
    requires p <= |s|
  {
    if Boundary(s, p) && p < |s| && IsDigit(s[p]) then
      var d := DigitEnd(s, p);
      if d + 1 < |s| && s[d] == '.' && IsDigit(s[d + 1]) then
        var f := DigitEnd(s, d + 1);
        if Boundary(s, f) then Some(f - p)
        else if Boundary(s, d) then Some(d - p)
        else None
      else if Boundary(s, d) then Some(d - p)
      else None
    else None
  }

  predicate IsOperatorChar(c: char) {
    c == '+' || c == '-' || c == '*' || c == '/' || c == '=' || c == '>' || c == '<' || c == '!'
  }

  /** Length of the operator match at `p` (the optional `=` is taken when present; the
      second alternative `[><]` adds nothing). */
  function OperatorAt(s: string, p: nat): Option<nat>
    requires p <= |s|
  {
    if p < |s| && IsOperatorChar(s[p]) then
      if p + 1 < |s| && s[p + 1] == '=' then Some(2) else Some(1)
    else None
  }

  predicate IsSymbolChar(c: char) { c == ';' || c == '(' || c == ')' || c == '{' || c == '}' }

  function SymbolAt(s: string, p: nat): Option<nat>
    requires p <= |s|
  {
    if p < |s| && IsSymbolChar(s[p]) then Some(1) else None
  }

  /** Length of the string-literal match at `p`: up to the next `"`, if there is one. */
  function StringAt(s: string, p: nat): Option<nat>
    requires p <= |s|
  {
    if p < |s| && s[p] == '"' then
      var q := QuoteEnd(s, p + 1);
      if q < |s| then Some(q + 1 - p) else None
    else None
  }

  /** The combined pattern at `p`: the first alternative that matches. */
  function MatchAt(s: string, p: nat): Option<nat>
    requires p <= |s|
  {
    var kw := KeywordAt(s, p);
    if kw.Some? then kw else
    var id := IdentifierAt(s, p);
    if id.Some? then id else
    var num := NumberAt(s, p);
    if num.Some? then num else
    var op := OperatorAt(s, p);
    if op.Some? then op else
    var sym := SymbolAt(s, p);
    if sym.Some? then sym else
    StringAt(s, p)
  }

  /** Every match is non-empty and lies inside the text. */
  lemma MatchAtBounds(s: string, p: nat)
    requires p <= |s|
    ensures MatchAt(s, p).Some? ==> 1 <= MatchAt(s, p).value && p + MatchAt(s, p).value <= |s|
  {
  }

  /** A compiled pattern, as `Matcher` uses it: the length of the match
      that starts at a position, if one does. */
  type Pattern = (string, nat) -> Option<nat>

  /** The combined pattern of the lexer. */
  function Combined(s: string, p: nat): Option<nat> {
    if p <= |s| then MatchAt(s, p) else None
  }

  /** A match counts only when it is non-empty and inside the text, which
      every match of the combined pattern is (`MatchAtBounds`). */
  predicate Fits(s: string, p: nat, m: Option<nat>) {
    m.Some? && 1 <= m.value && p + m.value <= |s|
  }

  /** `matcher.find()` from `p`: the start and length of the leftmost match. */
  function NextMatch(pat: Pattern, s: string, p: nat): (r: Option<(nat, nat)>)
    requires p <= |s|
    ensures r.Some? ==> p <= r.value.0 && 1 <= r.value.1 && r.value.0 + r.value.1 <= |s|
    decreases |s| - p
  {
    if p == |s| then None
    else if Fits(s, p, pat(s, p)) then Some((p, pat(s, p).value))
    else NextMatch(pat, s, p + 1)
  }

  /** The texts `matcher.group()` returns, left to right, searching from `p`. */
  function Lexemes(pat: Pattern, s: string, p: nat): seq<string>
    requires p <= |s|
    decreases |s| - p
  {
    var m := NextMatch(pat, s, p);
    if m.None? then [] else
    var (a, n) := m.value;
    [s[a..a + n]] + Lexemes(pat, s, a + n)
  }

  lemma LexemesStep(pat: Pattern, s: string, p: nat, a: nat, n: nat)
    requires p <= |s| && NextMatch(pat, s, p) == Some((a, n))
    ensures Lexemes(pat, s, p) == [s[a..a + n]] + Lexemes(pat, s, a + n)
  {
  }

  /** The positions of those texts. */
  function Spans(pat: Pattern, s: string, p: nat): seq<(nat, nat)>
    requires p <= |s|
    decreases |s| - p
  {
    var m := NextMatch(pat, s, p);
    if m.None? then [] else
    var (a, n) := m.value;
    [(a, a + n)] + Spans(pat, s, a + n)
  }

  // ---------------------------------------------------------------------
  // Classification: `token.matches(...)` tries each whole pattern in order

  predicate IsKeywordText(t: string) { IsKeywordWord(t) }

  predicate IsOperatorText(t: string) {
    (|t| == 1 && IsOperatorChar(t[0])) || (|t| == 2 && IsOperatorChar(t[0]) && t[1] == '=')
  }

  predicate IsSymbolText(t: string) { |t| == 1 && IsSymbolChar(t[0]) }

  predicate IsStringLiteralText(t: string) {
    |t| >= 2 && t[0] == '"' && t[|t| - 1] == '"' && forall k :: 0 < k < |t| - 1 ==> t[k] != '"'
  }

  /** The kind the `if`/`else if` chain gives a matched text. */
  function Classify(t: string): Kind {
    if IsKeywordText(t) then Keyword
    else if IsIdentifierText(t) then Identifier
    else if IsNumberText(t) then Number
    else if IsOperatorText(t) then Operator
    else if IsSymbolText(t) then Symbol
    else if IsStringLiteralText(t) then StringLiteral
    else Unknown
  }

  /** The whole-text pattern of each kind. */
  predicate FitsKind(t: string, k: Kind) {
    match k
    case Keyword => IsKeywordText(t)
    case Identifier => IsIdentifierText(t)
    case Number => IsNumberText(t)
    case Operator => IsOperatorText(t)
    case Symbol => IsSymbolText(t)
    case StringLiteral => IsStringLiteralText(t)
    case Unknown => false
  }

  // ---------------------------------------------------------------------
  // The state machine of `tokenize`

  /** A symbol-table row: `SymbolEntry(name, type)`. */
  datatype Decl = Decl(name: string, typeName: string)

  /** Everything the scanning loop updates: the three output lists, the
      temp counter, and the locals `currentType`, `expressionTokens` and
      `inExpression`. */
  datatype LexState = LexState(tokens: seq<Token>, decls: seq<Decl>, pending: Option<string>,
                               expr: seq<string>, inExpr: bool, tac: seq<string>, temp: nat)

  /** `generateTAC(expressionTokens)`: the lines appended and the new temp counter. */
  function InlineTac(expr: seq<string>, temp: nat): (seq<string>, nat) {
    if |expr| < 3 then ([], temp)
    else if expr[1] != "=" then ([], temp)
    else if |expr| == 3 then ([expr[0] + " = " + expr[2]], temp)
    else if |expr| >= 5 && |expr[3]| == 1 && expr[3][0] in "+-*/" then
      var name := "t" + NatStr(temp);
      ([name + " = " + expr[2] + " " + expr[3] + " " + expr[4], expr[0] + " = " + name], temp + 1)
    else ([], temp)
  }

  function CallTac(st: LexState): LexState {
    var (lines, temp) := InlineTac(st.expr, st.temp);
    st.(tac := st.tac + lines, temp := temp)
  }

  /** One iteration of the `while (matcher.find())` body for the matched text `t`. */
  function Step(st: LexState, t: string): (r: LexState)
    ensures r.tokens == st.tokens + [Token(Classify(t), t)]
  {
    var k := Classify(t);
    var st := st.(tokens := st.tokens + [Token(k, t)]);
    match k
    case Keyword =>
      if t != "if" && t != "while" && t != "for" then st.(pending := Some(t)) else st
    case Identifier =>
      var st := st.(expr := st.expr + [t]);
      if st.pending.Some? then st.(decls := st.decls + [Decl(t, st.pending.value)], pending := None) else st
    case Number => st.(expr := st.expr + [t])
    case Operator =>
      if t == "=" then st.(inExpr := true)
      else if st.inExpr then st.(expr := st.expr + [t])
      else st
    case Symbol =>
      if t == ";" && st.inExpr then CallTac(st).(expr := [], inExpr := false) else st
    case StringLiteral => st
    case Unknown => st
  }

  function Run(ls: seq<string>, st: LexState): LexState
    decreases |ls|
  {
    if ls == [] then st else Run(ls[1..], Step(st, ls[0]))
  }

  lemma RunStep(t: string, ls: seq<string>, st: LexState)
    ensures Run([t] + ls, st) == Run(ls, Step(st, t))
  {
    assert ([t] + ls)[1..] == ls;
  }

  /** One turn of the scanning loop: the run over the texts from `p` is the
      run over the texts after the next match, from the state that match leads to. */
  lemma RunFromMatch(pat: Pattern, s: string, p: nat, a: nat, n: nat, before: LexState, after: LexState, final: LexState)
    requires p <= |s| && NextMatch(pat, s, p) == Some((a, n))
    requires after == Step(before, s[a..a + n])
    requires Run(Lexemes(pat, s, p), before) == final
    ensures Run(Lexemes(pat, s, a + n), after) == final
  {
    LexemesStep(pat, s, p, a, n);
    RunStep(s[a..a + n], Lexemes(pat, s, a + n), before);
  }

  /** After the loop: a pending expression is handed to `generateTAC` once more. */
  function Finish(st: LexState): LexState {
    if st.expr != [] && st.inExpr then CallTac(st) else st
  }

  function Start(temp: nat): LexState { LexState([], [], None, [], false, [], temp) }

  /** The whole of `tokenize(code)` on a lexer whose temp counter is `temp`. */
  function Tokenize(code: string, temp: nat): LexState {
    TokenizeWith(Combined, code, temp)
  }

  /** The same steps with the combined pattern replaced by `pat`. */
  function TokenizeWith(pat: Pattern, code: string, temp: nat): LexState {
    var s := Normalize(code);
    if s == [] then Start(temp) else Finish(Run(Lexemes(pat, s, 0), Start(temp)))
  }
}
