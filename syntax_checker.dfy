/** The syntax checker as an object: the token list of the last call, the
    set of declared names and the diagnostics buffer, the last two cleared
    at the start of every `CheckSyntax`. Each check is proved to do what the
    matching function of `SyntaxSpec` describes. */
module SyntaxChecking {
  import opened Strings
  import opened Optional
  import opened Tokens
  import opened SyntaxSpec

  class SyntaxChecker {
    var tokens: seq<Token>
    var declaredVariables: set<string>
    /** The `StringBuilder` of diagnostics, one entry per line. */
    var errorMessages: seq<string>

    constructor ()
      ensures tokens == [] && declaredVariables == {} && errorMessages == []
    {
      tokens := [];
      declaredVariables := {};
      errorMessages := [];
    }

    /** checkSyntax: the verdict, the diagnostics and the declared names
        depend on `toks` alone. */
    method CheckSyntax(toks: seq<Token>) returns (ok: bool)
      modifies this
      ensures tokens == toks
      ensures Control(ok, errorMessages, declaredVariables) == Check(toks)
    {
      tokens := toks;
      declaredVariables := {};
      errorMessages := [];
      if |tokens| == 0 {
        errorMessages := errorMessages + [NoTokensMsg];
        return false;
      }
      ok := CheckBraces();
      if ok {
        ok := CheckParentheses();
      }
      if ok {
        ok := CheckControlStructures();
        ControlValidIff(toks, |toks|);
        assert errorMessages == ControlUpTo(toks, |toks|).msgs;
        assert declaredVariables == ControlUpTo(toks, |toks|).decls;
      }
      if ok {
        ok := CheckVariableUsage();
        assert Control(ok, errorMessages, declaredVariables) == Check(toks);
      }
    }

    /** getErrors: the diagnostics, or the all-clear message when there are none. */
    function GetErrors(): (r: string)
      reads this
      ensures r == Report(errorMessages)
    {
      var text := Joined(errorMessages);
      if text == [] then NoErrors else text
    }

    /** The loop shared by checkBraces and checkParentheses: the running count
        of `open` over `close`, failing as soon as it drops below zero. */
    method CheckBalance(open: string, close: string, early: string, unclosed: string) returns (ok: bool)
      modifies this
      ensures var b := Balance(tokens, open, close, early, unclosed);
        ok == b.None? && errorMessages == old(errorMessages) + MsgLines(b)
      ensures tokens == old(tokens) && declaredVariables == old(declaredVariables)
    {
      var count := 0;
      var i := 0;
      while i < |tokens|
        invariant i <= |tokens| && count == Depth(tokens, open, close, i)
        invariant forall k :: 1 <= k <= i ==> Depth(tokens, open, close, k) >= 0
        invariant errorMessages == old(errorMessages)
        decreases |tokens| - i
      {
        var value := tokens[i].text;
        if value == open {
          count := count + 1;
        } else if value == close {
          count := count - 1;
        }
        i := i + 1;
        if count < 0 {
          errorMessages := errorMessages + [early];
          return false;
        }
      }
      if count != 0 {
        errorMessages := errorMessages + [unclosed];
        return false;
      }
      return true;
    }

    method CheckBraces() returns (ok: bool)
      modifies this
      ensures ok == Braces(tokens).None? && errorMessages == old(errorMessages) + MsgLines(Braces(tokens))
      ensures tokens == old(tokens) && declaredVariables == old(declaredVariables)
    {
      ok := CheckBalance("{", "}", BraceEarly, BraceOpen);
    }

    method CheckParentheses() returns (ok: bool)
      modifies this
      ensures ok == Parentheses(tokens).None? && errorMessages == old(errorMessages) + MsgLines(Parentheses(tokens))
      ensures tokens == old(tokens) && declaredVariables == old(declaredVariables)
    {
      ok := CheckBalance("(", ")", ParenEarly, ParenOpen);
    }

    /** checkControlStructures: every keyword's sub-check runs, whatever the
        earlier ones found. */
    method CheckControlStructures() returns (valid: bool)
      modifies this
      ensures var c := ControlUpTo(tokens, |tokens|);
        valid == c.valid && errorMessages == old(errorMessages) + c.msgs &&
        declaredVariables == old(declaredVariables) + c.decls
      ensures tokens == old(tokens)
    {
      valid := true;
      var i := 0;
      while i < |tokens|
        invariant i <= |tokens| && tokens == old(tokens)
        invariant var c := ControlUpTo(tokens, i);
          valid == c.valid && errorMessages == old(errorMessages) + c.msgs &&
          declaredVariables == old(declaredVariables) + c.decls
        decreases |tokens| - i
      {
        var r := CheckToken(i);
        valid := valid && r;
        i := i + 1;
      }
    }

    /** One turn of the checkControlStructures loop: the sub-check the token
        at `i` selects, if it is a keyword. */
    method CheckToken(i: nat) returns (ok: bool)
      requires i < |tokens|
      modifies this
      ensures tokens == old(tokens)
      ensures var o := ConstructAt(tokens, i);
        ok == o.msg.None? && errorMessages == old(errorMessages) + MsgLines(o.msg) &&
        declaredVariables == old(declaredVariables) + (if o.decl.Some? then {o.decl.value} else {})
    {
      ok := true;
      var token := tokens[i];
      if token.kind == Keyword {
        var value := token.text;
        if value == "if" {
          ok := CheckIfStatement(i);
        } else if value == "while" {
          ok := CheckWhileStatement(i);
        } else if value == "for" {
          ok := CheckForStatement(i);
        } else if value == "switch" {
          ok := CheckSwitchStatement(i);
        } else if IsTypeWord(value) {
          ok := CheckVariableDeclaration(i);
        }
      }
    }

    /** The nesting-aware scan of a header from index `index + 2`, with one
        parenthesis open: where it stops, the count there and the `;` seen. */
    method ScanHeader(index: nat) returns (end: nat, parenCount: nat, semicolons: nat)
      ensures HeaderScan(end, parenCount, semicolons) == HeaderOf(tokens, index)
    {
      parenCount, semicolons := 1, 0;
      end := index + 2;
      while end < |tokens| && parenCount > 0
        invariant CloseScan(tokens, end, parenCount, semicolons) == HeaderOf(tokens, index)
        decreases |tokens| - end
      {
        var value := tokens[end].text;
        if value == "(" {
          parenCount := parenCount + 1;
        } else if value == ")" {
          parenCount := parenCount - 1;
        } else if value == ";" {
          semicolons := semicolons + 1;
        }
        end := end + 1;
      }
    }

    /** The shape check the four construct checks share; `end` is the index
        just past the header's `)`. */
    method CheckHeader(index: nat, kw: string, what: string, countSemis: bool) returns (ok: bool, end: nat)
      modifies this
      ensures var m := HeaderCheck(tokens, index, kw, what, countSemis);
        ok == m.None? && errorMessages == old(errorMessages) + MsgLines(m)
      ensures ok ==> end == HeaderOf(tokens, index).end
      ensures tokens == old(tokens) && declaredVariables == old(declaredVariables)
    {
      end := index;
      if index + 1 >= |tokens| || tokens[index + 1].text != "(" {
        errorMessages := errorMessages + ["Expected '(' after '" + kw + "' at token " + NatStr(index) + "."];
        return false, end;
      }
      var parenCount, semicolons;
      end, parenCount, semicolons := ScanHeader(index);
      if parenCount > 0 {
        errorMessages := errorMessages + ["Unclosed parenthesis in '" + kw + "' " + what + "."];
        return false, end;
      }
      if countSemis && semicolons != 2 {
        errorMessages := errorMessages + ["Expected exactly two semicolons in 'for' loop declaration."];
        return false, end;
      }
      if end >= |tokens| || tokens[end].text != "{" {
        errorMessages := errorMessages + ["Expected '{' after '" + kw + "' " + what + "."];
        return false, end;
      }
      return true, end;
    }

    method CheckIfStatement(index: nat) returns (ok: bool)
      modifies this
      ensures var m := HeaderCheck(tokens, index, "if", "condition", false);
        ok == m.None? && errorMessages == old(errorMessages) + MsgLines(m)
      ensures tokens == old(tokens) && declaredVariables == old(declaredVariables)
    {
      var end;
      ok, end := CheckHeader(index, "if", "condition", false);
    }

    method CheckWhileStatement(index: nat) returns (ok: bool)
      modifies this
      ensures var m := HeaderCheck(tokens, index, "while", "condition", false);
        ok == m.None? && errorMessages == old(errorMessages) + MsgLines(m)
      ensures tokens == old(tokens) && declaredVariables == old(declaredVariables)
    {
      var end;
      ok, end := CheckHeader(index, "while", "condition", false);
    }

    method CheckForStatement(index: nat) returns (ok: bool)
      modifies this
      ensures var m := HeaderCheck(tokens, index, "for", "loop", true);
        ok == m.None? && errorMessages == old(errorMessages) + MsgLines(m)
      ensures tokens == old(tokens) && declaredVariables == old(declaredVariables)
    {
      var end;
      ok, end := CheckHeader(index, "for", "loop", true);
    }

    /** checkSwitchStatement: the header, then the case scan from the `{`. */
    method CheckSwitchStatement(index: nat) returns (ok: bool)
      modifies this
      ensures var m := SwitchCheck(tokens, index);
        ok == m.None? && errorMessages == old(errorMessages) + MsgLines(m)
      ensures tokens == old(tokens) && declaredVariables == old(declaredVariables)
    {
      var k;
      ok, k := CheckHeader(index, "switch", "expression", false);
      if !ok {
        return;
      }
      ghost var start := k;
      var hasCase := false;
      while k < |tokens| && tokens[k].text != "}"
        invariant Cases(tokens, k, hasCase) == Cases(tokens, start, false)
        invariant errorMessages == old(errorMessages)
        decreases |tokens| - k
      {
        var value := tokens[k].text;
        if value == "case" || value == "default" {
          hasCase := true;
          if value == "case" {
            k := k + 1;
            if k >= |tokens| || (tokens[k].kind != Number && tokens[k].kind != Identifier) {
              errorMessages := errorMessages + [CaseValueMsg];
              return false;
            }
            k := k + 1;
            if k >= |tokens| || tokens[k].text != ":" {
              errorMessages := errorMessages + [CaseColonMsg];
              return false;
            }
          }
        }
        k := k + 1;
      }
      if !hasCase {
        errorMessages := errorMessages + [NoCaseMsg];
        return false;
      }
      return true;
    }

    /** checkVariableDeclaration: the identifier after a type keyword is declared. */
    method CheckVariableDeclaration(index: nat) returns (ok: bool)
      modifies this
      ensures var c := Declaration(tokens, index);
        ok == c.msg.None? && errorMessages == old(errorMessages) + MsgLines(c.msg) &&
        declaredVariables == old(declaredVariables) + (if c.decl.Some? then {c.decl.value} else {})
      ensures tokens == old(tokens)
    {
      if index + 1 >= |tokens| || tokens[index + 1].kind != Identifier {
        errorMessages := errorMessages + ["Expected identifier after type at token " + NatStr(index) + "."];
        return false;
      }
      var varName := tokens[index + 1].text;
      declaredVariables := declaredVariables + {varName};
      return true;
    }

    /** checkVariableUsage: the first identifier that is neither declared nor
        inside a control header ends the check with one diagnostic. */
    method CheckVariableUsage() returns (ok: bool)
      modifies this
      ensures var u := FirstUndeclared(tokens, declaredVariables, 0);
        ok == u.None? &&
        errorMessages == old(errorMessages) + (if u.Some? then [UndeclaredMsg(tokens[u.value].text)] else [])
      ensures tokens == old(tokens) && declaredVariables == old(declaredVariables)
    {
      var i := 0;
      while i < |tokens|
        invariant i <= |tokens| && errorMessages == old(errorMessages)
        invariant FirstUndeclared(tokens, declaredVariables, 0) == FirstUndeclared(tokens, declaredVariables, i)
        decreases |tokens| - i
      {
        var token := tokens[i];
        if token.kind == Identifier {
          var varName := token.text;
          if varName !in declaredVariables {
            var isInControlStructure := false;
            var j := i;
            while j > 0
              invariant j <= i && !isInControlStructure
              invariant InControl(tokens, i) == InControl(tokens, j)
              decreases j
            {
              var value := tokens[j - 1].text;
              if IsControlWord(value) {
                isInControlStructure := true;
                break;
              }
              if value == ";" || value == "{" {
                break;
              }
              j := j - 1;
            }
            assert isInControlStructure == InControl(tokens, i);
            if !isInControlStructure {
              errorMessages := errorMessages + [UndeclaredMsg(varName)];
              return false;
            }
          }
        }
        i := i + 1;
      }
      return true;
    }
  }
}
