/** The lines of generated three-address code, by form. The generator's
    buffer holds these; `Text` spells out the characters each one stands
    for, exactly as the Java code concatenates them, and `Listing` the text
    of a whole buffer. Labels and temporaries are held by their numbers. */
module Lines {
  import opened Strings

  /** The name of the `k`-th label: Java's `"L" + k`. */
  function Label(k: nat): string { "L" + NatStr(k) }

  /** The name of the `k`-th temporary: Java's `"t" + k`. */
  function Temp(k: nat): string { "t" + NatStr(k) }

  /** A header's text: its token texts each followed by a space, then trimmed. */
  function Cond(words: seq<string>): string { Trim(JoinSpaced(words)) }

  datatype Line =
    | Error(msg: string)                                    // Error: msg
    | Binary(temp: nat, op1: string, op: string, op2: string)  // tN = a op b
    | Copy(target: string, value: string)                   // x = v
    | Mark(lab: nat)                                      // LN:
    | Goto(lab: nat)                                      // goto LN
    | IfFalse(cond: seq<string>, lab: nat)                // ifFalse c goto LN
    | Plain(words: seq<string>)                             // a for-loop init or increment
    | CaseTest(subject: seq<string>, value: string, lab: nat)  // if x == v goto LN

  function Text(line: Line): string {
    match line
    case Error(msg) => "Error: " + msg
    case Binary(t, a, op, b) => Temp(t) + " = " + a + " " + op + " " + b
    case Copy(x, v) => x + " = " + v
    case Mark(l) => Label(l) + ":"
    case Goto(l) => "goto " + Label(l)
    case IfFalse(c, l) => "ifFalse " + Cond(c) + " goto " + Label(l)
    case Plain(w) => Cond(w)
    case CaseTest(x, v, l) => "if " + Cond(x) + " == " + v + " goto " + Label(l)
  }

  /** What a `StringBuilder` holds after `append(text).append("\n")` for every line. */
  function Listing(code: seq<Line>): string {
    if code == [] then [] else Text(code[0]) + "\n" + Listing(code[1..])
  }

  lemma ListingEmpty(code: seq<Line>)
    ensures Listing(code) == [] <==> code == []
  {
    if code != [] { assert |Listing(code)| >= 1; }
  }

  lemma LabelInjective(a: nat, b: nat)
    requires Label(a) == Label(b)
    ensures a == b
  {
    assert NatStr(a) == Label(a)[1..] && NatStr(b) == Label(b)[1..];
    NatStrInjective(a, b);
  }

  lemma TempInjective(a: nat, b: nat)
    requires Temp(a) == Temp(b)
    ensures a == b
  {
    assert NatStr(a) == Temp(a)[1..] && NatStr(b) == Temp(b)[1..];
    NatStrInjective(a, b);
  }

  /** A temporary's name is an identifier, so a later operator treats it as an operand, never as a literal. */
  lemma TempIsIdentifier(k: nat)
    ensures IsIdentifierText(Temp(k)) && !IsNumberText(Temp(k))
  {
    var s := Temp(k);
    NatStrDigits(k);
    forall j | 0 <= j < |s| ensures IsWordChar(s[j]) {
      if j > 0 { assert s[j] == NatStr(k)[j - 1]; }
    }
    if IsNumberText(s) { NumberTextIsNotIdentifier(s); }
  }

  /** Label and temporary names never clash. */
  lemma LabelIsNotTemp(a: nat, b: nat)
    ensures Label(a) != Temp(b)
  {
    assert Label(a)[0] == 'L' && Temp(b)[0] == 't';
  }
}
