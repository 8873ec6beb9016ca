/** The token record shared by the three components. The Java `Token` class
    is a `(type, value)` pair read through `getType()` and `getValue()`;
    here the type string is one of the seven kinds the lexer creates. */
module Tokens {

  datatype Kind = Keyword | Identifier | Number | Operator | Symbol | StringLiteral | Unknown

  /** The text `getType()` returns for each kind. */
  function KindName(k: Kind): string {
    match k
    case Keyword => "KEYWORD"
    case Identifier => "IDENTIFIER"
    case Number => "NUMBER"
    case Operator => "OPERATOR"
    case Symbol => "SYMBOL"
    case StringLiteral => "STRING_LITERAL"
    case Unknown => "UNKNOWN"
  }

  datatype Token = Token(kind: Kind, text: string)

  /** `value.matches("int|float|double|char|boolean")`: a declarable type. */
  predicate IsTypeWord(s: string) {
    s == "int" || s == "float" || s == "double" || s == "char" || s == "boolean"
  }

  predicate IsTypeKeyword(t: Token) { t.kind == Keyword && IsTypeWord(t.text) }

  /** Number of tokens satisfying a kind test; used by counting lemmas. */
  function CountKind(toks: seq<Token>, k: Kind): nat {
    if toks == [] then 0 else (if toks[0].kind == k then 1 else 0) + CountKind(toks[1..], k)
  }

  function CountTypeKeywords(toks: seq<Token>): nat {
    if toks == [] then 0 else (if IsTypeKeyword(toks[0]) then 1 else 0) + CountTypeKeywords(toks[1..])
  }

  /** First index at or after `i` whose token text is `stop`, or `i` itself when already past the end. */
  function FindText(toks: seq<Token>, i: nat, stop: string): (j: nat)
    ensures j >= i && (i <= |toks| ==> j <= |toks|)
    ensures j < |toks| ==> toks[j].text == stop
    decreases |toks| - i
  {
    if i >= |toks| || toks[i].text == stop then i else FindText(toks, i + 1, stop)
  }

  /** `FindText` stops at the first token with the stop text: no token it passes has it. */
  lemma {:induction false} FindTextFirst(toks: seq<Token>, i: nat, stop: string)
    ensures forall k :: i <= k < FindText(toks, i, stop) && k < |toks| ==> toks[k].text != stop
    decreases |toks| - i
  {
    if i < |toks| && toks[i].text != stop {
      FindTextFirst(toks, i + 1, stop);
    }
  }
}
