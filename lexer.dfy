/** The lexer object: three output lists cleared and refilled by every call
    of `Tokenize`, and a temp counter for the inline three-address code that
    lives as long as the object. */
module Lexing {
  import opened Strings
  import opened Optional
  import opened Tokens
  import opened Symbols
  import LexerSpec

  /** The rows the symbol-table entries currently hold. */
  function DeclsOf(es: seq<SymbolEntry>): (r: seq<LexerSpec.Decl>)
    reads es
    ensures |r| == |es|
  {
    if es == [] then []
    else DeclsOf(es[..|es| - 1]) + [LexerSpec.Decl(es[|es| - 1].name, es[|es| - 1].typeName)]
  }

  lemma DeclsOfPush(es: seq<SymbolEntry>, e: SymbolEntry)
    ensures DeclsOf(es + [e]) == DeclsOf(es) + [LexerSpec.Decl(e.name, e.typeName)]
  {
    assert (es + [e])[..|es + [e]| - 1] == es;
  }

  class Lexer {
    var tokens: seq<Token>
    var symbolTable: seq<SymbolEntry>
    var threeAddressCode: seq<string>
    var tempVarCount: nat

    constructor ()
      ensures tokens == [] && symbolTable == [] && threeAddressCode == [] && tempVarCount == 1
    {
      tokens := [];
      symbolTable := [];
      threeAddressCode := [];
      tempVarCount := 1;
    }

    /** The symbol table as (name, type) rows. */
    function Entries(): seq<LexerSpec.Decl>
      reads this, symbolTable
    {
      DeclsOf(symbolTable)
    }

    function GetTokens(): seq<Token>
      reads this
    {
      tokens
    }

    function GetSymbolTable(): seq<SymbolEntry>
      reads this
    {
      symbolTable
    }

    function GetThreeAddressCode(): seq<string>
      reads this
    {
      threeAddressCode
    }

    /** Appends the inline three-address code of one expression. */
    method GenerateTAC(expressionTokens: seq<string>)
      modifies this
      ensures threeAddressCode == old(threeAddressCode) + LexerSpec.InlineTac(expressionTokens, old(tempVarCount)).0
      ensures tempVarCount == LexerSpec.InlineTac(expressionTokens, old(tempVarCount)).1
      ensures tokens == old(tokens) && symbolTable == old(symbolTable)
    {
      if |expressionTokens| < 3 { return; }
      var left := expressionTokens[0];
      if expressionTokens[1] != "=" { return; }
      if |expressionTokens| == 3 {
        threeAddressCode := threeAddressCode + [left + " = " + expressionTokens[2]];
        return;
      }
      if |expressionTokens| >= 5 && |expressionTokens[3]| == 1 && expressionTokens[3][0] in "+-*/" {
        var op1 := expressionTokens[2];
        var operator := expressionTokens[3];
        var op2 := expressionTokens[4];
        var temp := "t" + NatStr(tempVarCount);
        tempVarCount := tempVarCount + 1;
        threeAddressCode := threeAddressCode + [temp + " = " + op1 + " " + operator + " " + op2];
        threeAddressCode := threeAddressCode + [left + " = " + temp];
      }
    }

    /** An identifier while a type is pending: a new entry `(token, type)` is
        appended to the symbol table and the pending type is cleared. */
    method Declare(token: string, currentType: Option<string>) returns (currentType': Option<string>)
      modifies this
      ensures currentType' == None
      ensures Entries() == old(Entries()) + (if currentType.Some? then [LexerSpec.Decl(token, currentType.value)] else [])
      ensures symbolTable == old(symbolTable) ||
        (|symbolTable| == |old(symbolTable)| + 1 && symbolTable[..|old(symbolTable)|] == old(symbolTable) &&
         fresh(symbolTable[|old(symbolTable)|]))
      ensures tokens == old(tokens) && threeAddressCode == old(threeAddressCode) && tempVarCount == old(tempVarCount)
    {
      currentType' := currentType;
      if currentType'.Some? {
        var entry := new SymbolEntry(token, currentType'.value);
        DeclsOfPush(symbolTable, entry);
        symbolTable := symbolTable + [entry];
        currentType' := None;
      }
    }

    /** The body of the scanning loop for one matched text: records the token
        and updates the symbol table, the pending type and the expression. */
    method Accept(token: string, currentType: Option<string>, expressionTokens: seq<string>, inExpression: bool)
      returns (currentType': Option<string>, expressionTokens': seq<string>, inExpression': bool)
      modifies this
      ensures symbolTable == old(symbolTable) ||
        (|symbolTable| == |old(symbolTable)| + 1 && symbolTable[..|old(symbolTable)|] == old(symbolTable) &&
         fresh(symbolTable[|old(symbolTable)|]))
      ensures LexerSpec.LexState(tokens, Entries(), currentType', expressionTokens', inExpression', threeAddressCode, tempVarCount) ==
        LexerSpec.Step(LexerSpec.LexState(old(tokens), old(Entries()), currentType, expressionTokens, inExpression,
                                          old(threeAddressCode), old(tempVarCount)), token)
    {
      currentType', expressionTokens', inExpression' := currentType, expressionTokens, inExpression;
      var kind := LexerSpec.Classify(token);
      tokens := tokens + [Token(kind, token)];
      if kind == Keyword {
        if token != "if" && token != "while" && token != "for" {
          currentType' := Some(token);
        }
      } else if kind == Identifier {
        expressionTokens' := expressionTokens' + [token];
        currentType' := Declare(token, currentType');
      } else if kind == Number {
        expressionTokens' := expressionTokens' + [token];
      } else if kind == Operator {
        if token == "=" {
          inExpression' := true;
        } else if inExpression' {
          expressionTokens' := expressionTokens' + [token];
        }
      } else if kind == Symbol {
        if token == ";" && inExpression' {
          GenerateTAC(expressionTokens');
          expressionTokens' := [];
          inExpression' := false;
        }
      }
    }

    /** One turn of the `while (matcher.find())` loop of `tokenize`: the next
        match at or after `pos` is accepted, and what the rest of the text
        will do to the state stays `final`. */
    method ScanMatch(pattern: LexerSpec.Pattern, s: string, pos: nat, ghost st: LexerSpec.LexState, ghost final: LexerSpec.LexState,
                     currentType: Option<string>, expressionTokens: seq<string>, inExpression: bool)
      returns (pos': nat, ghost st': LexerSpec.LexState,
               currentType': Option<string>, expressionTokens': seq<string>, inExpression': bool)
      requires pos <= |s| && LexerSpec.NextMatch(pattern, s, pos).Some?
      requires st == LexerSpec.LexState(tokens, Entries(), currentType, expressionTokens, inExpression, threeAddressCode, tempVarCount)
      requires LexerSpec.Run(LexerSpec.Lexemes(pattern, s, pos), st) == final
      modifies this
      ensures pos < pos' <= |s|
      ensures st' == LexerSpec.LexState(tokens, Entries(), currentType', expressionTokens', inExpression', threeAddressCode, tempVarCount)
      ensures LexerSpec.Run(LexerSpec.Lexemes(pattern, s, pos'), st') == final
    {
      var m := LexerSpec.NextMatch(pattern, s, pos);
      var start, len := m.value.0, m.value.1;
      var token := s[start..start + len];
      pos' := start + len;
      currentType', expressionTokens', inExpression' := Accept(token, currentType, expressionTokens, inExpression);
      st' := LexerSpec.Step(st, token);
      LexerSpec.RunFromMatch(pattern, s, pos, start, len, st, st', final);
    }

    /** The `while (matcher.find())` loop of `tokenize` over the normalised
        text `s` and a compiled pattern: every matched text is accepted in turn,
        starting with no pending type and an empty expression list. */
    method Scan(pattern: LexerSpec.Pattern, s: string)
      returns (currentType: Option<string>, expressionTokens: seq<string>, inExpression: bool)
      modifies this
      ensures LexerSpec.LexState(tokens, Entries(), currentType, expressionTokens, inExpression, threeAddressCode, tempVarCount) ==
        LexerSpec.Run(LexerSpec.Lexemes(pattern, s, 0),
          LexerSpec.LexState(old(tokens), old(Entries()), None, [], false, old(threeAddressCode), old(tempVarCount)))
    {
      currentType, expressionTokens, inExpression := None, [], false;
      var pos: nat := 0;
      ghost var st := LexerSpec.LexState(tokens, Entries(), currentType, expressionTokens, inExpression, threeAddressCode, tempVarCount);
      ghost var final := LexerSpec.Run(LexerSpec.Lexemes(pattern, s, 0), st);
      while LexerSpec.NextMatch(pattern, s, pos).Some?
        invariant pos <= |s|
        invariant st == LexerSpec.LexState(tokens, Entries(), currentType, expressionTokens, inExpression, threeAddressCode, tempVarCount)
        invariant LexerSpec.Run(LexerSpec.Lexemes(pattern, s, pos), st) == final
        decreases |s| - pos
      {
        pos, st, currentType, expressionTokens, inExpression :=
          ScanMatch(pattern, s, pos, st, final, currentType, expressionTokens, inExpression);
      }
      assert LexerSpec.Lexemes(pattern, s, pos) == [];
    }

    /** Tokenizes `code`, rebuilding the token list and the symbol table. */
    method Tokenize(code: string)
      modifies this
      ensures var st := LexerSpec.Tokenize(code, old(tempVarCount));
        tokens == st.tokens && Entries() == st.decls &&
        threeAddressCode == st.tac && tempVarCount == st.temp
    {
      tokens := [];
      symbolTable := [];
      threeAddressCode := [];
      var s := LexerSpec.Normalize(code);
      if s == [] { return; }
      var currentType, expressionTokens, inExpression := Scan(LexerSpec.Combined, s);
      if expressionTokens != [] && inExpression {
        GenerateTAC(expressionTokens);
      }
    }
  }
}
