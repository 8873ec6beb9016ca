/** What the syntax checker decides, as functions over the token list: the
    four groups of checks (brace balance, parenthesis balance, control
    structures with declarations, variable use), the diagnostics each group
    adds, and the names the declarations collect. Each diagnostic is one
    line; the checker's `StringBuilder` holds every line followed by a newline. */
module SyntaxSpec {
  import opened Strings
  import opened Optional
  import opened Tokens

  // ---------------------------------------------------------------------
  // Balance: checkBraces and checkParentheses

  /** How one token moves the running count of `open` over `close`. */
  function Delta(t: Token, open: string, close: string): int {
    if t.text == open then 1 else if t.text == close then -1 else 0
  }

  /** The running count after the first `k` tokens. */
  function Depth(toks: seq<Token>, open: string, close: string, k: nat): int
    requires k <= |toks|
  {
    if k == 0 then 0 else Depth(toks, open, close, k - 1) + Delta(toks[k - 1], open, close)
  }

  /** Some prefix closes more than it opens. */
  predicate ClosesEarly(toks: seq<Token>, open: string, close: string) {
    exists k :: 1 <= k <= |toks| && Depth(toks, open, close, k) < 0
  }

  /** The diagnostic of a balance check, if it fails: a prefix that closes more
      than it opens, else totals that differ. */
  function Balance(toks: seq<Token>, open: string, close: string, early: string, unclosed: string): Option<string> {
    if ClosesEarly(toks, open, close) then Some(early)
    else if Depth(toks, open, close, |toks|) != 0 then Some(unclosed)
    else None
  }

  const BraceEarly := "Mismatched closing brace '}'."
  const BraceOpen := "Unmatched opening brace '{'."
  const ParenEarly := "Mismatched closing parenthesis ')'."
  const ParenOpen := "Unmatched opening parenthesis '('."

  function Braces(toks: seq<Token>): Option<string> { Balance(toks, "{", "}", BraceEarly, BraceOpen) }

  function Parentheses(toks: seq<Token>): Option<string> { Balance(toks, "(", ")", ParenEarly, ParenOpen) }

  // ---------------------------------------------------------------------
  // Headers: the parenthesised part after `if`, `while`, `for` and `switch`

  /** Where the header scan stops, the parenthesis count there and the `;` seen. */
  datatype HeaderScan = HeaderScan(end: nat, depth: nat, semis: nat)

  /** The scan of a header from index `j` with `d` parentheses open and `s`
      semicolons seen: it stops at the end of the list or once the count is 0,
      just past the `)` that closed it. */
  function CloseScan(toks: seq<Token>, j: nat, d: nat, s: nat): (h: HeaderScan)
    ensures j <= h.end && (j <= |toks| ==> h.end <= |toks|)
    decreases |toks| - j
  {
    if j >= |toks| || d == 0 then HeaderScan(j, d, s)
    else
      var w := toks[j].text;
      if w == "(" then CloseScan(toks, j + 1, d + 1, s)
      else if w == ")" then CloseScan(toks, j + 1, d - 1, s)
      else if w == ";" then CloseScan(toks, j + 1, d, s + 1)
      else CloseScan(toks, j + 1, d, s)
  }

  /** The scan of the header of the construct at `i`, which starts past its `(`. */
  function HeaderOf(toks: seq<Token>, i: nat): HeaderScan {
    CloseScan(toks, i + 2, 1, 0)
  }

  /** The shape check of the construct `kw` at `i`: a `(` right after the
      keyword, a matching `)`, for a `for` exactly two `;` in between, and a
      `{` right after the `)`. `what` names the header in the diagnostics. */
  function HeaderCheck(toks: seq<Token>, i: nat, kw: string, what: string, countSemis: bool): Option<string> {
    if i + 1 >= |toks| || toks[i + 1].text != "(" then
      Some("Expected '(' after '" + kw + "' at token " + NatStr(i) + ".")
    else
      var h := HeaderOf(toks, i);
      if h.depth > 0 then Some("Unclosed parenthesis in '" + kw + "' " + what + ".")
      else if countSemis && h.semis != 2 then Some("Expected exactly two semicolons in 'for' loop declaration.")
      else if h.end >= |toks| || toks[h.end].text != "{" then Some("Expected '{' after '" + kw + "' " + what + ".")
      else None
  }

  /** What the case scan of a switch body finds. */
  datatype CaseScan = CasesOk(hasCase: bool) | CaseFail(msg: string)

  const CaseValueMsg := "Expected constant or identifier after 'case'."
  const CaseColonMsg := "Expected ':' after 'case' value."
  const NoCaseMsg := "'switch' statement must contain at least one 'case' or 'default'."

  /** The scan of a switch body from `j` up to the first `}` it meets: each
      `case` must be followed by a number or identifier and a `:`, which
      are then skipped; `has` records a `case` or `default` seen. */
  function Cases(toks: seq<Token>, j: nat, has: bool): CaseScan
    decreases |toks| - j
  {
    if j >= |toks| || toks[j].text == "}" then CasesOk(has)
    else if toks[j].text == "case" then
      if j + 1 >= |toks| || (toks[j + 1].kind != Number && toks[j + 1].kind != Identifier) then CaseFail(CaseValueMsg)
      else if j + 2 >= |toks| || toks[j + 2].text != ":" then CaseFail(CaseColonMsg)
      else Cases(toks, j + 3, true)
    else if toks[j].text == "default" then Cases(toks, j + 1, true)
    else Cases(toks, j + 1, has)
  }

  /** checkSwitchStatement: the header check, then the case scan from the `{`. */
  function SwitchCheck(toks: seq<Token>, i: nat): Option<string> {
    var head := HeaderCheck(toks, i, "switch", "expression", false);
    if head.Some? then head
    else match Cases(toks, HeaderOf(toks, i).end, false)
      case CaseFail(msg) => Some(msg)
      case CasesOk(has) => if has then None else Some(NoCaseMsg)
  }

  // ---------------------------------------------------------------------
  // checkControlStructures

  /** What one token contributes: a diagnostic, a declared name, or neither. */
  datatype Construct = Construct(msg: Option<string>, decl: Option<string>)

  /** checkVariableDeclaration at the type keyword at `i`. */
  function Declaration(toks: seq<Token>, i: nat): Construct {
    if i + 1 >= |toks| || toks[i + 1].kind != Identifier then
      Construct(Some("Expected identifier after type at token " + NatStr(i) + "."), None)
    else Construct(None, Some(toks[i + 1].text))
  }

  /** The sub-check a keyword token at `i` selects. */
  function ConstructAt(toks: seq<Token>, i: nat): Construct
    requires i < |toks|
  {
    var t := toks[i];
    if t.kind != Keyword then Construct(None, None)
    else if t.text == "if" then Construct(HeaderCheck(toks, i, "if", "condition", false), None)
    else if t.text == "while" then Construct(HeaderCheck(toks, i, "while", "condition", false), None)
    else if t.text == "for" then Construct(HeaderCheck(toks, i, "for", "loop", true), None)
    else if t.text == "switch" then Construct(SwitchCheck(toks, i), None)
    else if IsTypeWord(t.text) then Declaration(toks, i)
    else Construct(None, None)
  }

  /** The verdict, the diagnostics and the declared names of a group of checks. */
  datatype Control = Control(valid: bool, msgs: seq<string>, decls: set<string>)

  function MsgLines(m: Option<string>): seq<string> { if m.Some? then [m.value] else [] }

  /** checkControlStructures over the first `k` tokens: every sub-check runs
      (`&=` does not short-circuit), so diagnostics accumulate. */
  function ControlUpTo(toks: seq<Token>, k: nat): Control
    requires k <= |toks|
  {
    if k == 0 then Control(true, [], {})
    else
      var c := ControlUpTo(toks, k - 1);
      var o := ConstructAt(toks, k - 1);
      Control(c.valid && o.msg.None?, c.msgs + MsgLines(o.msg), c.decls + (if o.decl.Some? then {o.decl.value} else {}))
  }

  /** The group is valid exactly when it reported nothing: each failing
      sub-check adds one line. */
  lemma {:induction false} ControlValidIff(toks: seq<Token>, k: nat)
    requires k <= |toks|
    ensures ControlUpTo(toks, k).valid <==> ControlUpTo(toks, k).msgs == []
  {
    if k > 0 {
      ControlValidIff(toks, k - 1);
    }
  }

  // ---------------------------------------------------------------------
  // checkVariableUsage

  /** `matches("for|switch|if|while")`. */
  predicate IsControlWord(w: string) { w == "for" || w == "switch" || w == "if" || w == "while" }

  /** The backward scan from the token before index `k`: a control keyword
      text is met before a `;` or `{`. */
  predicate InControl(toks: seq<Token>, k: nat)
    requires k <= |toks|
  {
    if k == 0 then false
    else
      var w := toks[k - 1].text;
      if IsControlWord(w) then true
      else if w == ";" || w == "{" then false
      else InControl(toks, k - 1)
  }

  /** An identifier that is neither declared nor inside a control header. */
  predicate Undeclared(toks: seq<Token>, decls: set<string>, i: nat)
    requires i < |toks|
  {
    toks[i].kind == Identifier && toks[i].text !in decls && !InControl(toks, i)
  }

  /** The first undeclared identifier at or after `k`. */
  function FirstUndeclared(toks: seq<Token>, decls: set<string>, k: nat): (r: Option<nat>)
    ensures r.Some? ==> k <= r.value < |toks| && Undeclared(toks, decls, r.value)
    ensures r.Some? ==> forall j :: k <= j < r.value ==> !Undeclared(toks, decls, j)
    ensures r.None? ==> forall j :: k <= j < |toks| ==> !Undeclared(toks, decls, j)
    decreases |toks| - k
  {
    if k >= |toks| then None
    else if Undeclared(toks, decls, k) then Some(k)
    else FirstUndeclared(toks, decls, k + 1)
  }

  function UndeclaredMsg(name: string): string { "Undeclared variable '" + name + "' used." }

  // ---------------------------------------------------------------------
  // checkSyntax and getErrors

  const NoTokensMsg := "No tokens to analyze."
  const NoErrors := "No syntax errors found."

  /** checkSyntax on a checker whose set and buffer were just cleared: the
      verdict, the diagnostics and the declared names. The four groups run
      in order and the first that fails ends the check. */
  function Check(toks: seq<Token>): Control {
    if toks == [] then Control(false, [NoTokensMsg], {})
    else if Braces(toks).Some? then Control(false, [Braces(toks).value], {})
    else if Parentheses(toks).Some? then Control(false, [Parentheses(toks).value], {})
    else
      var c := ControlUpTo(toks, |toks|);
      if !c.valid then c
      else match FirstUndeclared(toks, c.decls, 0)
        case Some(i) => Control(false, [UndeclaredMsg(toks[i].text)], c.decls)
        case None => Control(true, [], c.decls)
  }

  /** The buffer's text: every diagnostic followed by a newline. */
  function Joined(msgs: seq<string>): string {
    if msgs == [] then [] else msgs[0] + "\n" + Joined(msgs[1..])
  }

  /** getErrors on a buffer holding `msgs`. */
  function Report(msgs: seq<string>): string {
    if msgs == [] then NoErrors else Joined(msgs)
  }
}
