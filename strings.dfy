/** Text helpers shared by the three components: character classes, the
    whole-string patterns the Java code tests with `String.matches`, decimal
    rendering of counters, `String.trim`, and the two ways a `StringBuilder`
    is filled (words followed by a space, lines followed by a newline). */
module Strings {

  predicate IsDigit(c: char) { '0' <= c <= '9' }

  predicate IsLetter(c: char) { 'a' <= c <= 'z' || 'A' <= c <= 'Z' }

  /** A character that counts as part of a word for `\b` (ASCII only). */
  predicate IsWordChar(c: char) { IsLetter(c) || IsDigit(c) || c == '_' }

  predicate AllDigits(s: string) { forall k :: 0 <= k < |s| ==> IsDigit(s[k]) }

  predicate AllWordChars(s: string) { forall k :: 0 <= k < |s| ==> IsWordChar(s[k]) }

  /** Whole-string match of `[a-zA-Z_][a-zA-Z0-9_]*`. */
  predicate IsIdentifierText(s: string) {
    |s| > 0 && (IsLetter(s[0]) || s[0] == '_') && AllWordChars(s)
  }

  /** Whole-string match of `[0-9]+(\.[0-9]+)?`. */
  predicate IsNumberText(s: string) {
    (|s| > 0 && AllDigits(s)) ||
    (exists k :: 0 < k < |s| - 1 && s[k] == '.' && AllDigits(s[..k]) && AllDigits(s[k + 1..]))
  }

  /** A numeric literal whose value is zero: every digit is `0`. */
  predicate IsZeroLiteral(s: string) {
    forall k :: 0 <= k < |s| ==> s[k] == '0' || s[k] == '.'
  }

  /** Whole-string match of `[a-zA-Z_][a-zA-Z0-9_]*|[0-9]+(\.[0-9]+)?`: an operand. */
  predicate IsOperandText(s: string) { IsIdentifierText(s) || IsNumberText(s) }

  lemma NumberTextIsNotIdentifier(s: string)
    requires IsNumberText(s)
    ensures !IsIdentifierText(s) && IsDigit(s[0])
  {
    if !(|s| > 0 && AllDigits(s)) {
      var k :| 0 < k < |s| - 1 && s[k] == '.' && AllDigits(s[..k]) && AllDigits(s[k + 1..]);
      assert s[..k][0] == s[0];
    }
  }

  lemma NotOperand(s: string)
    requires |s| > 0 && !IsWordChar(s[0])
    ensures !IsOperandText(s)
  {
    if IsNumberText(s) { NumberTextIsNotIdentifier(s); }
  }

  function DigitChar(d: nat): (c: char)
    requires d < 10
    ensures IsDigit(c)
  {
    ('0' as int + d) as char
  }

  /** Decimal rendering of a counter, as Java's `"L" + n` renders an int. */
  function NatStr(n: nat): string {
    if n < 10 then [DigitChar(n)] else NatStr(n / 10) + [DigitChar(n % 10)]
  }

  lemma {:induction false} NatStrDigits(n: nat)
    ensures |NatStr(n)| >= 1 && AllDigits(NatStr(n))
    ensures n < 10 <==> |NatStr(n)| == 1
  {
    if n >= 10 {
      NatStrDigits(n / 10);
      var s := NatStr(n);
      assert s == NatStr(n / 10) + [DigitChar(n % 10)];
      forall k | 0 <= k < |s| ensures IsDigit(s[k]) {
        if k < |s| - 1 { assert s[k] == NatStr(n / 10)[k]; }
      }
    }
  }

  lemma {:induction false} NatStrInjective(a: nat, b: nat)
    requires NatStr(a) == NatStr(b)
    ensures a == b
  {
    NatStrDigits(a);
    NatStrDigits(b);
    if a < 10 || b < 10 {
      assert NatStr(a)[0] == NatStr(b)[0];
    } else {
      var sa, sb := NatStr(a), NatStr(b);
      assert sa[|sa| - 1] == sb[|sb| - 1];
      assert DigitChar(a % 10) == DigitChar(b % 10);
      assert sa[..|sa| - 1] == NatStr(a / 10);
      assert sb[..|sb| - 1] == NatStr(b / 10);
      NatStrInjective(a / 10, b / 10);
    }
  }

  /** Java's `String.trim`: drops every leading and trailing char at or below U+0020. */
  function TrimStart(s: string): string {
    if |s| > 0 && s[0] <= ' ' then TrimStart(s[1..]) else s
  }

  function TrimEnd(s: string): string {
    if |s| > 0 && s[|s| - 1] <= ' ' then TrimEnd(s[..|s| - 1]) else s
  }

  function Trim(s: string): string { TrimEnd(TrimStart(s)) }

  lemma {:induction false} TrimStartFacts(s: string)
    ensures |TrimStart(s)| <= |s| && TrimStart(s) == s[|s| - |TrimStart(s)|..]
    ensures TrimStart(s) == [] || TrimStart(s)[0] > ' '
    decreases |s|
  {
    if |s| > 0 && s[0] <= ' ' {
      TrimStartFacts(s[1..]);
    }
  }

  lemma {:induction false} TrimEndFacts(s: string)
    ensures |TrimEnd(s)| <= |s| && TrimEnd(s) == s[..|TrimEnd(s)|]
    ensures TrimEnd(s) == [] || TrimEnd(s)[|TrimEnd(s)| - 1] > ' '
    decreases |s|
  {
    if |s| > 0 && s[|s| - 1] <= ' ' {
      TrimEndFacts(s[..|s| - 1]);
    }
  }

  /** The trimmed text is no longer and neither starts nor ends with a blank. */
  lemma TrimFacts(s: string)
    ensures |Trim(s)| <= |s|
    ensures Trim(s) == [] || (Trim(s)[0] > ' ' && Trim(s)[|Trim(s)| - 1] > ' ')
  {
    var t := TrimStart(s);
    TrimStartFacts(s);
    TrimEndFacts(t);
    var r := TrimEnd(t);
    assert r != [] ==> r[0] == t[0];
  }

  /** What a `StringBuilder` holds after `append(w).append(" ")` for every word. */
  function JoinSpaced(words: seq<string>): (s: string)
    ensures |s| >= |words|
  {
    if words == [] then [] else words[0] + " " + JoinSpaced(words[1..])
  }

  /** The text `words` joined with single spaces. */
  function JoinSingle(words: seq<string>): string {
    if words == [] then [] else if |words| == 1 then words[0] else words[0] + " " + JoinSingle(words[1..])
  }

  predicate HasNoEdgeBlanks(w: string) { w != [] && w[0] > ' ' && w[|w| - 1] > ' ' }

  lemma TrimEndOfSpaced(w: string, rest: string)
    requires HasNoEdgeBlanks(w)
    requires TrimEnd(rest) == []
    ensures TrimEnd(w + " " + rest) == w
    decreases |rest|
  {
    if |rest| > 0 {
      assert rest[|rest| - 1] <= ' ';
      assert (w + " " + rest)[..|w + " " + rest| - 1] == w + " " + rest[..|rest| - 1];
      TrimEndShrinks(rest);
      TrimEndOfSpaced(w, rest[..|rest| - 1]);
    } else {
      assert (w + " " + rest)[..|w + " " + rest| - 1] == w;
    }
  }

  lemma TrimEndShrinks(s: string)
    requires |s| > 0 && s[|s| - 1] <= ' '
    ensures TrimEnd(s[..|s| - 1]) == TrimEnd(s)
  {
  }

  lemma TrimEndAppend(a: string, b: string)
    requires TrimEnd(b) != []
    ensures TrimEnd(a + b) == a + TrimEnd(b)
    decreases |b|
  {
    if |b| > 0 && b[|b| - 1] <= ' ' {
      assert (a + b)[..|a + b| - 1] == a + b[..|b| - 1];
      TrimEndAppend(a, b[..|b| - 1]);
    }
  }

  /** When no word is empty or starts or ends with a blank, trimming the
      space-terminated text gives the words joined by single spaces. */
  lemma {:induction false} TrimJoinSpaced(words: seq<string>)
    requires forall k :: 0 <= k < |words| ==> HasNoEdgeBlanks(words[k])
    ensures Trim(JoinSpaced(words)) == JoinSingle(words)
  {
    if words == [] {
    } else {
      var w := words[0];
      var rest := JoinSpaced(words[1..]);
      assert JoinSpaced(words) == w + " " + rest;
      assert TrimStart(w + " " + rest) == w + " " + rest;
      if |words| == 1 {
        assert rest == [];
        assert w + " " + rest == w + " ";
        assert TrimEnd(w + " ") == w by {
          assert (w + " ")[..|w + " "| - 1] == w;
        }
        assert Trim(JoinSpaced(words)) == TrimEnd(TrimStart(w + " "));
      } else {
        TrimJoinSpaced(words[1..]);
        assert words[1][0] > ' ';
        assert rest[0] == words[1][0];
        assert TrimStart(rest) == rest;
        assert TrimEnd(rest) == JoinSingle(words[1..]);
        assert JoinSingle(words[1..]) != [] by {
          assert |JoinSingle(words[1..])| > 0 by { JoinSingleNonEmpty(words[1..]); }
        }
        TrimEndAppend(w + " ", rest);
        assert w + " " + rest == (w + " ") + rest;
      }
    }
  }

  lemma JoinSingleNonEmpty(words: seq<string>)
    requires |words| > 0 && HasNoEdgeBlanks(words[0])
    ensures |JoinSingle(words)| > 0
  {
  }
}
