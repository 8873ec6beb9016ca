# CodeBuddy compiler core in Dafny

A model of the core of the CodeBuddy teaching compiler, with proofs about
it. The core has three parts:

- the **lexer** (`Lexer`, with the `SymbolEntry` records it builds). It
  turns source text into a token list and a symbol table.
- the **syntax checker** (`SyntaxChecker`). It gives a token list a yes/no
  verdict and a buffer of diagnostics.
- the **three-address-code generator** (`TACGenerator`). It translates a
  token list into labelled three-address code.

Each Java class whose fields change is a Dafny class:

- `Lexing.Lexer`
- `Symbols.SymbolEntry`
- `SyntaxChecking.SyntaxChecker`
- `TacGeneration.TACGenerator`

Their methods update the same fields that the Java methods do. Each method
is proved equal to a specification function:

| class | specification module |
|---|---|
| `Lexing.Lexer` | `LexerSpec` |
| `SyntaxChecking.SyntaxChecker` | `SyntaxSpec` |
| `TacGeneration.TACGenerator` | `TacSpec` (expressions in `Postfix`) |

Properties of those functions are proved as lemmas in the following
modules:

- `LexerLemmas`
- `SyntaxLemmas`
- `TacLemmas`, `TacProperties` and `TacTemps`
- `Postfix` and `PostfixOrder`

How the model represents the source:

- **Tokens.** A token is a `Tokens.Token(kind, text)`. The kind strings
  `"KEYWORD"`, `"IDENTIFIER"` and so on are the `Kind` constructors.
  `Token.java` is not part of this model. Its two getters become the
  datatype's two fields.
- **Buffers.** The `StringBuilder` buffers become lists of lines. Each entry
  stands for its text followed by `"\n"`.
  - The generator's buffer holds `Lines.Line` values: a label, a `goto`, an
    `ifFalse`, `tN = a op b`, `x = v`, an error, or a verbatim `for` clause.
  - `Lines.Listing` renders these lines as the Java text.
- **Effects.** A handler's effect on the generator's buffer is an
  `Effect(front, back)`: the buffer becomes `front + code + back`. A
  `switch` inserts its dispatch lines at position 0 of the whole buffer,
  which is what `front` records.
- **Running a handler.** A handler's run either returns the next index
  together with the two counters and its effect, or ends in the one
  exception the code can raise. That exception is `tokens.get(i)` past the
  end, after a `case` that is the last token (TACGenerator.java:283).
- **Counters.** The label and temp counters live as long as the generator
  object. Successive `generate` calls continue their numbering, and the
  model proves that they never reuse a label or a temporary.

Three facts about how the parts fit together follow from the code and are
proved or noted here:

1. **The inline TAC is always empty.** The lexer's own `generateTAC` needs
   `"="` as the second expression token. But `=` sets `inExpression` and is
   never added to `expressionTokens` (Lexer.java:68-72). So the inline TAC
   list stays empty on every input: `LexerLemmas.TokenizeFacts` proves
   `tac == []`. `generateTAC` itself is modelled exactly as written
   (`LexerSpec.InlineTac`, with concrete examples in
   `LexerLemmas.InlineTacExamples`).
2. **Some branches can only be reached by hand-built token lists.** The
   lexer has no keyword pattern for `switch`, `case`, `default` or `else`.
   Its combined pattern does not match `:` at all. So token lists built by
   the lexer never reach:
   - the generator's `switch` handler or its `else` branch;
   - the checker's `switch` check, whose `case` scan requires a `:` token.

   The model covers these branches anyway, for token lists built by other
   means.
3. **The validator rejects a `for` loop over an undeclared variable.** One
   might expect the control-header exemption to accept
   `for (i = 0; i < 10; i = i + 1) { }` with an undeclared `i`. As written,
   it does not.
   - The backward search from the second `i` meets the `;` before it
     reaches `for` (SyntaxChecker.java:234-242).
   - So the search reports `Undeclared variable 'i' used.`
   - The model follows the code (`SyntaxSpec.InControl`, with its
     characterisation `SyntaxLemmas.InControlIff`).

## Model

| member | source | states |
|---|---|---|
| Symbols.SymbolEntry.constructor | SymbolEntry.java:6-9 | the new record reports the given name and type |
| Symbols.SymbolEntry.SetType | SymbolEntry.java:15 | the type becomes the given one and the name is unchanged |
| Lexing.Lexer.constructor | Lexer.java:7-10 | the three lists start empty and the temp counter at 1 |
| Lexing.Lexer.Tokenize | Lexer.java:12-97 | the token list, the symbol-table rows, the inline TAC and the temp counter are exactly those of `LexerSpec.Tokenize`: the lists are cleared, the normalised text is scanned, and any pending expression is finished |
| Lexing.Lexer.Scan | Lexer.java:33-91 | the `while (matcher.find())` loop leaves the state that the specified run over all matched texts gives |
| Lexing.Lexer.ScanMatch | Lexer.java:39-41 | one `find`/`group` turn moves strictly forward inside the text, and the run over the rest of the text still ends in the same final state |
| Lexing.Lexer.Accept | Lexer.java:42-90 | one loop body is exactly `LexerSpec.Step`, and the symbol table grows by at most one fresh entry, keeping the old entries |
| Lexing.Lexer.Declare | Lexer.java:55-58 | a pending type turns the identifier into a new symbol-table row and clears the pending type; without one, nothing is added |
| Lexing.Lexer.GenerateTAC | Lexer.java:99-120 | the lines appended and the new temp counter are those of `LexerSpec.InlineTac`; the tokens and the symbol table are unchanged |
| Lexing.DeclsOfPush | Lexer.java:56 | appending an entry appends its (name, type) row |
| LexerSpec.SkipSpaces | Lexer.java:18 | the result is a suffix of the text that is empty or starts with a non-blank |
| LexerLemmas.CollapseFacts | Lexer.java:18 | `replaceAll("\\s+", " ")` leaves no two blanks in a row, keeps every non-blank character in order, and is empty exactly when its input is |
| LexerLemmas.NormalizeFacts | Lexer.java:18 | the normalised text has only single spaces, each between two non-blank characters |
| LexerSpec.WordEnd | Lexer.java:23 | the greedy word run ends at the first non-word character |
| LexerSpec.DigitEnd | Lexer.java:24 | the greedy digit run ends at the first non-digit |
| LexerSpec.QuoteEnd | Lexer.java:27 | the string body ends at the first `"` |
| LexerLemmas.KeywordAtIsAlternation | Lexer.java:22 | the keyword alternative, tried word by word at a boundary, matches exactly a whole word run that is one of the eight keywords |
| LexerLemmas.WordThenBoundary | Lexer.java:22 | a word followed by a boundary is exactly the whole word run |
| LexerLemmas.IntegerIsIdentifier | Lexer.java:22-23 | word boundaries decide keywords: `integer` is matched whole and classified IDENTIFIER, while `int` before a blank is a KEYWORD |
| LexerLemmas.KeywordTextFits | Lexer.java:22 | a keyword match is one of the eight keyword texts |
| LexerLemmas.IdentifierTextFits | Lexer.java:23 | an identifier match is a whole identifier text |
| LexerLemmas.NumberTextFits | Lexer.java:24 | a number match, with or without its fraction, is a number text |
| LexerLemmas.OperatorTextFits | Lexer.java:25 | an operator match is one operator character, optionally followed by `=` |
| LexerLemmas.SymbolTextFits | Lexer.java:26 | a symbol match is one of `; ( ) { }` |
| LexerLemmas.StringTextFits | Lexer.java:27 | a string match is quote, non-quotes, quote |
| LexerSpec.MatchAtBounds | Lexer.java:29-33 | a match of the combined pattern is non-empty and inside the text |
| LexerSpec.NextMatch | Lexer.java:39 | `find` returns a non-empty match inside the text, at or after the search position |
| LexerLemmas.NextMatchSkips | Lexer.java:39 | `find` returns the leftmost match: no position before it matches, and it reports none only when no later position matches |
| LexerLemmas.SpansInText | Lexer.java:39-40 | every matched span lies within the searched part of the text |
| LexerLemmas.SpansOrdered | Lexer.java:39-40 | successive matches do not overlap and advance left to right |
| LexerLemmas.SpansTexts | Lexer.java:40 | the i-th group text is the text of the i-th span |
| LexerLemmas.MatchIsClassified | Lexer.java:43-90 | every text the combined pattern matches falls into one of the six known kinds, so the UNKNOWN branch is never taken |
| LexerLemmas.CombinedRecognised | Lexer.java:39-90 | every group text of the combined pattern is recognised by the classification chain |
| LexerLemmas.ClassifyFits | Lexer.java:43-90 | the kind given to a text is one whose whole-text pattern it matches |
| LexerSpec.Step | Lexer.java:42-90 | every turn appends exactly one token, the matched text with its classified kind |
| LexerLemmas.PendingTypeRules | Lexer.java:45-58 | a type keyword sets the pending type; `if`, `while`, `for` and every non-identifier token leave it alone; an identifier consumes it into a new row, and without one adds no row; only an identifier can add a row |
| LexerLemmas.RunDecls | Lexer.java:39-91 | the rows the scanning loop adds are those read off its tokens from the pending type it started with |
| LexerLemmas.TokenizeDecls | Lexer.java:12-97 | the symbol table is the list read off the token list: one row per identifier token that follows a type keyword, in token order, with repeated names kept as separate rows |
| LexerLemmas.RunTokens | Lexer.java:39-91 | the scan's tokens are the classified matched texts, in order |
| LexerLemmas.TokenizeFacts | Lexer.java:12-97 | the tokens are the classified matches of the normalised text, none is UNKNOWN, and each text matches its kind's pattern; there are no more symbol-table rows than type keywords or identifiers; every row has a type-keyword type and names an identifier token; the inline TAC is empty and the temp counter unchanged |
| LexerLemmas.TokenizeBlank | Lexer.java:18-19 | blank input leaves every list empty |
| LexerLemmas.InlineTacNeedsAssign | Lexer.java:100-103 | without `=` as the second expression token, `generateTAC` appends nothing and leaves the counter alone |
| LexerLemmas.InlineTacExamples | Lexer.java:106-119 | `x = 5` gives one copy line; `x = a + b` gives `t1 = a + b`, `x = t1` and increments the counter |
| LexerLemmas.StepKeepsInv | Lexer.java:66-82 | the expression list never holds `=` and the inline TAC list stays empty, turn after turn |
| LexerLemmas.CallTacIdle | Lexer.java:77-81 | under that invariant, the call at `;` changes nothing |
| LexerLemmas.TokenizeKeepsInv | Lexer.java:94-96 | the invariant holds after the final pending-expression call |
| SyntaxChecking.SyntaxChecker.constructor | SyntaxChecker.java:8-11 | the declared set and the message buffer start empty |
| SyntaxChecking.SyntaxChecker.CheckSyntax | SyntaxChecker.java:13-26 | the verdict, the diagnostics and the declared names are those of `SyntaxSpec.Check`: the set and buffer are reset, the empty list is rejected, and the four groups run in order until the first one fails |
| SyntaxChecking.SyntaxChecker.GetErrors | SyntaxChecker.java:28-30 | an empty buffer reads "No syntax errors found."; otherwise the buffer's lines, each ended by a newline |
| SyntaxChecking.SyntaxChecker.CheckBraces | SyntaxChecker.java:32-48 | fails with "Mismatched closing brace" exactly when some prefix closes more braces than it opens, else with "Unmatched opening brace" exactly when the totals differ; nothing else changes |
| SyntaxChecking.SyntaxChecker.CheckParentheses | SyntaxChecker.java:50-66 | the same two diagnostics and conditions for parentheses |
| SyntaxChecking.SyntaxChecker.CheckBalance | SyntaxChecker.java:32-66 | the shared running-count loop appends the diagnostic of the balance check and succeeds exactly when there is none |
| SyntaxChecking.SyntaxChecker.CheckControlStructures | SyntaxChecker.java:68-88 | every keyword's sub-check runs (no short circuit): the verdict is the conjunction, the diagnostics are all of theirs in order, and the declared names are all those declared |
| SyntaxChecking.SyntaxChecker.CheckToken | SyntaxChecker.java:71-85 | the keyword at one index selects its sub-check, whose diagnostic and declared name are added |
| SyntaxChecking.SyntaxChecker.ScanHeader | SyntaxChecker.java:143-152 | the header scan stops where the parenthesis count first returns to zero (or at the end) and counts the `;` seen on the way |
| SyntaxChecking.SyntaxChecker.CheckHeader | SyntaxChecker.java:90-166 | the shared shape check of `if`/`while`/`for`: `(` after the keyword, the matching `)`, two `;` for `for`, then `{`; on success, the end is the index past the `)` |
| SyntaxChecking.SyntaxChecker.CheckIfStatement | SyntaxChecker.java:90-112 | the `if` check appends the header check's diagnostic and succeeds exactly when there is none |
| SyntaxChecking.SyntaxChecker.CheckWhileStatement | SyntaxChecker.java:114-136 | the same for `while` |
| SyntaxChecking.SyntaxChecker.CheckForStatement | SyntaxChecker.java:138-166 | the same for `for`, which also requires exactly two semicolons inside the header |
| SyntaxChecking.SyntaxChecker.CheckSwitchStatement | SyntaxChecker.java:168-214 | the header check, then the case scan up to the first `}`: each `case` needs a number or identifier and `:`, and at least one `case` or `default` must be seen |
| SyntaxChecking.SyntaxChecker.CheckVariableDeclaration | SyntaxChecker.java:216-224 | a type keyword not followed by an identifier is reported; otherwise the identifier joins the declared set |
| SyntaxChecking.SyntaxChecker.CheckVariableUsage | SyntaxChecker.java:226-251 | the first undeclared identifier outside a control header is reported and fails the check; if there is none, it passes |
| SyntaxSpec.FirstUndeclared | SyntaxChecker.java:227-249 | the index found is the first undeclared identifier from the start point, and none means there is no such identifier |
| SyntaxSpec.ControlValidIff | SyntaxChecker.java:68-88 | the control-structure group is valid exactly when it reported nothing |
| SyntaxSpec.CloseScan | SyntaxChecker.java:97-102 | the scan stops inside the list, at or after its start |
| SyntaxLemmas.CloseScanFacts | SyntaxChecker.java:97-102 | the final count is the net parentheses in between; the count stays positive inside; a positive count means the list ran out; a closed scan ends just past a `)`; the `;` counted are those in between |
| SyntaxLemmas.HeaderMatches | SyntaxChecker.java:95-106 | a closed header ends at the `)` matching the opening `(`, with every token in between at a deeper nesting |
| SyntaxLemmas.DeclarationAt | SyntaxChecker.java:82-83 | a token declares a name exactly when it is a type keyword followed by an identifier, and the name is that identifier |
| SyntaxLemmas.ControlDecls | SyntaxChecker.java:216-224 | the names the group declares are exactly those following a type keyword |
| SyntaxLemmas.InControlIff | SyntaxChecker.java:233-242 | an identifier counts as "in a control structure" exactly when some `for`/`switch`/`if`/`while` text precedes it with no `;` or `{` in between |
| SyntaxLemmas.CasesNeedArm | SyntaxChecker.java:189-212 | a successful case scan that started without an arm found a `case` or `default` before the first `}` |
| SyntaxLemmas.CasesWithoutCase | SyntaxChecker.java:189-212 | with no `case`, the scan succeeds and reports an arm exactly when a `default` appears before the first `}` |
| SyntaxLemmas.JoinedEndsInNewline | SyntaxChecker.java:29 | a non-empty diagnostic buffer ends in a newline |
| SyntaxLemmas.CheckVerdict | SyntaxChecker.java:13-30 | `checkSyntax` returns true exactly when no diagnostic was written, that is, exactly when `getErrors` reads "No syntax errors found." |
| SyntaxLemmas.CheckAccepts | SyntaxChecker.java:13-26 | a token list is accepted exactly when it is non-empty, its braces and parentheses balance, every control structure and declaration is well formed, and every identifier is declared or inside a control header |
| TacGeneration.TACGenerator.constructor | TACGenerator.java:4-5 | both counters start at 1 |
| TacGeneration.TACGenerator.NewLabel | TACGenerator.java:7-9 | returns the label counter and increments it, changing nothing else |
| TacGeneration.TACGenerator.NewTemp | TACGenerator.java:11-13 | returns the temp counter and increments it, changing nothing else |
| TacGeneration.TACGenerator.Generate | TACGenerator.java:15-48 | the result and both counters are those of `TacSpec.Generate`; an empty list gives "No tokens provided."; otherwise the text is "No valid expressions found." when the buffer is empty and the rendered buffer when it is not |
| TacGeneration.TACGenerator.ProcessStatement | TACGenerator.java:314-341 | the next index, the counters and the buffer follow `TacSpec.Stmt`: a type keyword then identifier then `=` is an assignment; an identifier then `=` is one; a control keyword goes to its handler; anything else is skipped |
| TacGeneration.TACGenerator.HandleAssignment | TACGenerator.java:50-76 | follows `TacSpec.Assign`: the three error lines, or the expression's lines and its copy line |
| TacGeneration.TACGenerator.CollectUntil | TACGenerator.java:57-61 | collects the token texts up to the first stop text, or up to the end |
| TacGeneration.TACGenerator.ToPostfix | TACGenerator.java:78-116 | equals `Postfix.ToPostfix` on the expression |
| TacGeneration.TACGenerator.EvaluatePostfix | TACGenerator.java:118-164 | the value, the temp counter and the lines appended are those of `Postfix.Eval`; labels are untouched |
| TacGeneration.TACGenerator.HandleIfStatement | TACGenerator.java:209-240 | follows `TacSpec.If` |
| TacGeneration.TACGenerator.BracedBody | TACGenerator.java:220-226 | a braced body follows `TacSpec.Body` from the buffer so far |
| TacGeneration.TACGenerator.ElseBranch | TACGenerator.java:228-238 | follows `TacSpec.Else` |
| TacGeneration.TACGenerator.HandleWhileLoop | TACGenerator.java:242-263 | follows `TacSpec.While` |
| TacGeneration.TACGenerator.CollectForHeader | TACGenerator.java:167-185 | the three clauses and the index after the header are those of `TacSpec.ForParts` |
| TacGeneration.TACGenerator.EmitUnlessEmpty | TACGenerator.java:188-194 | a clause line is appended only when the clause is non-empty |
| TacGeneration.TACGenerator.HandleForLoop | TACGenerator.java:166-207 | follows `TacSpec.For` |
| TacGeneration.TACGenerator.HandleSwitchStatement | TACGenerator.java:265-312 | follows `TacSpec.Switch`, including the exception after a trailing `case` |
| TacGeneration.TACGenerator.SwitchArms | TACGenerator.java:277-302 | the arms loop follows `TacSpec.SwitchLoop`, with the same case map and default label |
| TacGeneration.TACGenerator.SwitchArm | TACGenerator.java:281-297 | one `case` or `default` arm follows `TacSpec.Arm` |
| TacGeneration.TACGenerator.CaseBody | TACGenerator.java:288-290 | an arm's statements follow `TacSpec.CaseBodyAcc` |
| TacGeneration.TACGenerator.InsertDispatch | TACGenerator.java:304-309 | the buffer becomes the dispatch lines followed by the old buffer |
| Postfix.ToPostfixFacts | TACGenerator.java:78-116 | unbalanced parentheses give the empty list; otherwise the output has no parentheses, keeps the operands in their original order, and holds the same operators |
| PostfixOrder.ToPostfixFollowsGrammar | TACGenerator.java:78-116 | for every expression of the usual grammar (an expression is terms joined by `+`/`-`, a term is factors joined by `*`/`/`, a factor is an operand or a parenthesised expression), the postfix form is the syntax tree's post-order listing: `*` and `/` before `+` and `-`, operators of equal precedence left to right, parentheses as written |
| PostfixOrder.ExprShunt | TACGenerator.java:87-107 | an expression followed by the end, `)` or `+`/`-`, scanned above a stack with no operator on top, adds its post-order listing to the output and leaves the stack as it was |
| PostfixOrder.TermShunt | TACGenerator.java:87-107 | the same for a term followed by the end, `)` or any operator, above a stack with no `*` or `/` on top |
| PostfixOrder.FactorShunt | TACGenerator.java:87-107 | an operand or a parenthesised expression adds its post-order listing whatever the stack holds |
| PostfixOrder.GroupShunt | TACGenerator.java:95-101 | a parenthesised expression: `(` is pushed, the inner expression is emitted above it, and `)` pops back to that `(` and discards it, so the stack is as it was |
| PostfixOrder.Flush | TACGenerator.java:90-114 | an operator on top of the stack goes to the output when the next token is the end, `)` or an operator that binds no tighter |
| Postfix.LeftAssociativeExample | TACGenerator.java:91-93 | equal precedence pops first: `a - b - c` gives `a b - c -` |
| Postfix.PrecedenceExample | TACGenerator.java:81-94 | `*` binds tighter than `+`: `a + b * c` gives `a b c * +` |
| Postfix.ParenthesesExample | TACGenerator.java:95-105 | `( a + b ) * c` gives `a b + c *` |
| Postfix.MismatchedExamples | TACGenerator.java:101-111 | a stray `)` or an unclosed `(` gives the empty list |
| Postfix.Combine | TACGenerator.java:128-156 | two numeric operands take no temp; the division-by-zero line is appended exactly when the operator is `/` and the divisor a zero literal, and the value is then `0.0`; otherwise the value is `fold(a, op, b)` for the four operators and `0.0` for any other text; any other pair takes the next temp and emits `tN = a op b` |
| Postfix.EvalFrom | TACGenerator.java:120-163 | the temp counter never decreases and lines are only appended |
| Postfix.EvalDefinedIff | TACGenerator.java:120-163 | the evaluation yields a value exactly when the operand stack never runs short and ends with one element; without a value, the last line is an error |
| Postfix.SymbolicEvalTemps | TACGenerator.java:152-156 | with no numeric operands, every operator takes exactly one temp and one line |
| Postfix.EvalTempsAtMostOperators | TACGenerator.java:120-163 | evaluation takes at most one temp per operator |
| Postfix.FoldedNegativeTakesTemp | TACGenerator.java:130-156 | a folded value need not be a literal again: when `1 - 2` folds to `-1.0`, `1 2 - 3 -` emits `t1 = -1.0 - 3` although every input operand is a literal |
| TacSpec.Header | TACGenerator.java:212-216 | the collected words are one per token between the two indices, and none when the range is empty |
| TacSpec.HeaderWords | TACGenerator.java:212-216 | word k of the collected words is the text of token i + k: the words are the token texts, in token order |
| TacSpec.Assign | TACGenerator.java:50-76 | an assignment always finishes normally, moves forward, takes no label and puts nothing in front |
| TacSpec.Stmt | TACGenerator.java:314-341 | a statement never lowers the counters and, when it finishes normally, moves forward |
| TacSpec.BlockAcc | TACGenerator.java:222-224 | a block's statement loop stops at the end or on a `}` |
| TacSpec.If | TACGenerator.java:209-240 | an `if` takes at least two labels and moves past its header |
| TacSpec.While | TACGenerator.java:242-263 | a `while` takes at least two labels and moves past its header |
| TacSpec.For | TACGenerator.java:166-207 | a `for` takes at least two labels and moves past its header |
| TacSpec.ForParts | TACGenerator.java:167-185 | the header ends no earlier than two positions after the keyword |
| TacSpec.Switch | TACGenerator.java:265-312 | a `switch` takes at least one label and moves past its header |
| TacSpec.SwitchLoop | TACGenerator.java:279-301 | the arms loop stops at the end or on a `}` |
| TacSpec.Put | TACGenerator.java:286 | the insertion-ordered map grows by one exactly when the key is new |
| TacSpec.CaseDispatch | TACGenerator.java:304-306 | one dispatch line per map entry |
| TacSpec.Generate | TACGenerator.java:15-48 | the counters never decrease, and an empty list gives "No tokens provided." with the counters as they were |
| TacSpec.ApplyThen | TACGenerator.java:20-45 | applying two effects in turn is applying their composition |
| TacLemmas.IfShape | TACGenerator.java:209-240 | the end label is taken before the else label: `ifFalse C goto Lelse`, the body, `goto Lend`, `Lelse:`, the optional `else` body, `Lend:`; an exception in the body propagates |
| TacLemmas.WhileShape | TACGenerator.java:242-263 | `Lloop:`, `ifFalse C goto Lend`, the body, `goto Lloop`, `Lend:` |
| TacLemmas.ForShape | TACGenerator.java:166-207 | the init line if non-empty, `Lloop:`, `ifFalse C goto Lend` if the condition is non-empty, the body, the increment if non-empty, `goto Lloop`, `Lend:` |
| TacLemmas.BodyShift | TACGenerator.java:220-226 | a body run after earlier output is the same run from nothing, placed after that output |
| TacProperties.AssignOutcome | TACGenerator.java:50-76 | an assignment appends its expression's computed lines and then exactly one line: the copy `x = v` when the expression is well formed and evaluates, an error otherwise; a malformed assignment appends only its error |
| TacProperties.CaseDispatchAt | TACGenerator.java:304-306 | the k-th dispatch line tests the k-th entry from the end of the map, since each insertion at 0 lands in front of the previous one |
| TacProperties.DispatchOrder | TACGenerator.java:304-309 | the `goto default` line comes first, then the case tests in reverse insertion order |
| TacProperties.PutKeys | TACGenerator.java:286 | a `put` keeps the keys in insertion order and appends a new key at the end |
| TacProperties.PutKeepsOthers | TACGenerator.java:286 | a `put` leaves the other entries in place |
| TacProperties.PutValue | TACGenerator.java:286 | keys stay distinct, and the key just put maps to its new label |
| TacProperties.SwitchDispatchFirst | TACGenerator.java:304-310 | after a `switch`, the whole buffer starts with its dispatch lines and ends with its end label |
| TacProperties.TopIdle | TACGenerator.java:23-45 | tokens that are neither handled keywords nor `=` are skipped with no effect |
| TacProperties.NothingToTranslate | TACGenerator.java:47 | a non-empty list with nothing to translate gives "No valid expressions found." |
| TacProperties.CaseAsLastToken | TACGenerator.java:281-284 | `switch ( x ) { case` ends in the index-out-of-bounds exception |
| TacProperties.EmptyLoopCode | TACGenerator.java:242-263 | `while ( x ) { }` gives the loop label, the `ifFalse`, the back jump and the end label, and takes two labels |
| TacProperties.ListingStartsWithLabel | TACGenerator.java:252 | a listing that starts with label k starts with `L`, the decimal digits of k and `:` (for k < 10, its second character is k's digit) |
| TacProperties.SecondCallDiffers | TACGenerator.java:4-9 | because the counters persist, translating `while ( x ) { }` twice on a fresh generator gives different text, for example |
| TacProperties.SecondCallNewLabels | TACGenerator.java:4-9 | translating the same tokens twice on one generator: the second translation defines none of the first's labels, so when the first defines any label the two line lists differ |
| TacProperties.SuccessiveCallsFresh | TACGenerator.java:7-9 | the labels of two successive `generate` calls are pairwise distinct, and all lie between the first call's start and the second call's end |
| TacLemmas.GenerateLabelsFresh | TACGenerator.java:7-9 | no label is defined twice in one `generate` output, and every label defined comes from the counter's range over the call |
| TacLemmas.IfFresh | TACGenerator.java:209-240 | the labels an `if` defines are distinct and lie in its label range |
| TacLemmas.WhileFresh | TACGenerator.java:242-263 | the same for `while` |
| TacLemmas.ForFresh | TACGenerator.java:166-207 | the same for `for` |
| TacLemmas.SwitchFresh | TACGenerator.java:265-312 | the same for `switch`, whose dispatch lines define none |
| TacLemmas.StmtFresh | TACGenerator.java:314-341 | the same for any statement |
| TacTemps.GenerateTempsFresh | TACGenerator.java:11-13 | the temporaries assigned in one `generate` output are strictly increasing, hence distinct, and come from the counter's range over the call |
| TacTemps.SuccessiveCallsTemps | TACGenerator.java:11-13 | across two successive calls, taken together, they stay strictly increasing |
| TacTemps.EvalTemps | TACGenerator.java:152-156 | each `tN = a op b` line evaluatePostfix appends takes the next number |
| TacTemps.AssignTemps | TACGenerator.java:50-76 | an assignment's temporaries ascend within the counter's range over it |
| TacTemps.StmtTemps | TACGenerator.java:314-341 | the same for any statement, through every nested handler |
| Tokens.FindText | TACGenerator.java:58 | the scan stops at a token with the stop text, or at the end |
| Tokens.FindTextFirst | TACGenerator.java:58 | no token the scan passes has the stop text, so it stops at the first one |
| Lines.ListingEmpty | TACGenerator.java:47 | the rendered buffer is empty exactly when no line was appended |
| Lines.LabelInjective | TACGenerator.java:7-9 | distinct counter values give distinct label names |
| Lines.TempInjective | TACGenerator.java:11-13 | distinct counter values give distinct temp names |
| Lines.TempIsIdentifier | TACGenerator.java:153-155 | a temp name is an operand (an identifier, not a number), so later operators treat it symbolically |
| Lines.LabelIsNotTemp | TACGenerator.java:7-13 | label names and temp names never coincide |
| Strings.NatStrInjective | TACGenerator.java:8 | decimal rendering of counters is injective |
| Strings.TrimJoinSpaced | TACGenerator.java:213-219 | for words without leading or trailing blanks, trimming the `append(w).append(" ")` text gives the words joined by single spaces |

## Left out

- The user interface and file handling are not part of this model:
  NotesFrame, ThemeManager, TokenTableFrame, SymbolTableFrame,
  MainCompiler and tempCodeRunnerFile.
- `Token.java` is not part of this model. A token is a (kind, text)
  value.
- `null` arguments are not modelled. A missing token list is the empty
  list. The empty-list branches are modelled.
- Java's regular-expression engine is not modelled; the lexer's patterns
  are written out as matching functions.
  - `\b` and `\w` are taken over ASCII letters, digits and `_`.
  - `find`, `group` and `matches` are spelled out for the six fixed
    patterns.
- Postfix.Combine: double arithmetic is not modelled.
  - `Double.parseDouble`, the arithmetic and `String.valueOf(double)` are a
    parameter `fold(op1, op, op2)` of the generator.
  - A zero divisor is decided on the text (all digits zero). Literals too
    small to be nonzero as a double are not modelled.
  - `NumberFormatException` is not modelled. It cannot arise for texts
    that match the number pattern.
  - A folded value can be text that is not a literal, such as `-1.0` or
    `1.0E7`. A later operator on it then takes a temp, as
    `Postfix.FoldedNegativeTakesTemp` shows. So no lemma claims that
    literal-only expressions are folded completely.
- SecondCallDiffers: states different text for one input only. Input that
  takes no label and no temp, such as `x = 5 ;`, gives the same text twice.
  For any input, `TacProperties.SecondCallNewLabels` states the difference
  on the line lists.
- Lexing.Lexer.Tokenize: its contract describes the symbol table by its
  (name, type) rows. It does not state that each call allocates fresh
  entries; `Lexing.Lexer.Accept` states that for one turn.
- The generator's buffer after the index-out-of-bounds exception is not
  constrained. The exception escapes `generate`, so that buffer is never
  returned.
- Integers are unbounded. Counter overflow past 2^31 is not modelled.

