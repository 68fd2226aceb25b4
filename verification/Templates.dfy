/** Number templates of the PDF writer: literal pieces with a decimal number between any
    two, and the scanner that reads the numbers back. */
module Templates {
  import opened Wrappers
  import opened Decimal

  function Fill(pieces: seq<string>, numbers: seq<nat>): string
    requires |pieces| == |numbers| + 1
  {
    if numbers == [] then pieces[0]
    else pieces[0] + (Dec(numbers[0]) + Fill(pieces[1..], numbers[1..]))
  }

  /** What is left of a text after a literal it must start with. */
  function Strip(s: string, literal: string): Option<string> {
    if literal <= s then Some(s[|literal|..]) else None
  }

  /** The numbers of a filled template at the start of a text, and the rest of the text. */
  function Scan(pieces: seq<string>, s: string): Option<(seq<nat>, string)>
    requires pieces != []
  {
    var rest := Strip(s, pieces[0]);
    if rest.None? then None
    else if |pieces| == 1 then Some(([], rest.value))
    else
      var digits := LeadingDigits(rest.value);
      if digits == "" then None
      else
        var tail := Scan(pieces[1..], rest.value[|digits|..]);
        if tail.None? then None else Some(([ValueOf(digits)] + tail.value.0, tail.value.1))
  }

  /** A number in the template ends where the next piece starts. */
  predicate Separates(pieces: seq<string>) {
    pieces != [] && forall k :: 1 <= k < |pieces| ==> pieces[k] != "" && !IsDigit(pieces[k][0])
  }

  lemma StripOf(literal: string, rest: string)
    ensures Strip(literal + rest, literal) == Some(rest)
  {
    assert (literal + rest)[..|literal|] == literal;
    assert (literal + rest)[|literal|..] == rest;
  }

  lemma DigitsOf(n: nat, rest: string)
    requires rest != "" && !IsDigit(rest[0])
    ensures LeadingDigits(Dec(n) + rest) == Dec(n)
    ensures (Dec(n) + rest)[|Dec(n)|..] == rest
  {
    assert Dec(n) + rest == Dec(n) + [rest[0]] + rest[1..];
    LeadingDigitsOf(Dec(n), rest[0], rest[1..]);
  }

  lemma FillStarts(pieces: seq<string>, numbers: seq<nat>)
    requires |pieces| == |numbers| + 1 && pieces[0] != ""
    ensures Fill(pieces, numbers) != "" && Fill(pieces, numbers)[0] == pieces[0][0]
  {
  }

  /** Scanning inverts filling, whatever follows. */
  lemma {:induction false} ScanInvertsFill(pieces: seq<string>, numbers: seq<nat>, rest: string)
    requires |pieces| == |numbers| + 1 && Separates(pieces)
    ensures Scan(pieces, Fill(pieces, numbers) + rest) == Some((numbers, rest))
    decreases |numbers|
  {
    if numbers == [] {
      StripOf(pieces[0], rest);
    } else {
      var tail := Fill(pieces[1..], numbers[1..]);
      RightAssociates(pieces[0], Dec(numbers[0]), tail, rest);
      assert pieces[1..][0] == pieces[1];
      FillStarts(pieces[1..], numbers[1..]);
      ScanInvertsFill(pieces[1..], numbers[1..], rest);
      ScansNumber(pieces, numbers[0], tail + rest);
      assert [numbers[0]] + numbers[1..] == numbers;
    }
  }

  /** The first number of a template is taken off. */
  lemma ScansNumber(pieces: seq<string>, n: nat, rest: string)
    requires |pieces| > 1 && rest != "" && !IsDigit(rest[0]) && Scan(pieces[1..], rest).Some?
    ensures Scan(pieces, pieces[0] + (Dec(n) + rest)) ==
      Some(([n] + Scan(pieces[1..], rest).value.0, Scan(pieces[1..], rest).value.1))
  {
    StripOf(pieces[0], Dec(n) + rest);
    DigitsOf(n, rest);
    ValueOfDec(n);
  }

  // ---- reference lists -------------------------------------------------------------------

  const REF: string := " 0 R"

  /** Indirect references separated by spaces. */
  function References(numbers: seq<nat>): string {
    if numbers == [] then ""
    else Dec(numbers[0]) + (REF + (if |numbers| == 1 then "" else " " + References(numbers[1..])))
  }

  /** One reference at the start of a text. */
  function ReadReference(s: string): (r: Option<(nat, string)>)
    ensures r.Some? ==> |r.value.1| < |s|
  {
    var digits := LeadingDigits(s);
    var rest := Strip(s[|digits|..], REF);
    if digits == "" || rest.None? then None else Some((ValueOf(digits), rest.value))
  }

  function ReadReferences(s: string): Option<(seq<nat>, string)>
    decreases |s|
  {
    var first := ReadReference(s);
    if first.None? then None
    else
      var (n, rest) := first.value;
      if rest == "" || rest[0] != ' ' then Some(([n], rest))
      else
        var more := ReadReferences(rest[1..]);
        if more.None? then None else Some(([n] + more.value.0, more.value.1))
  }

  lemma ReadsReference(n: nat, more: string)
    ensures ReadReference(Dec(n) + (REF + more)) == Some((n, more))
  {
    assert (REF + more)[0] == REF[0] == ' ';
    DigitsOf(n, REF + more);
    StripOf(REF, more);
    ValueOfDec(n);
  }

  lemma ReadsLast(s: string, n: nat, rest: string)
    requires s == Dec(n) + (REF + rest) && rest != "" && rest[0] != ' '
    ensures ReadReferences(s) == Some(([n], rest))
  {
    ReadsReference(n, rest);
  }

  lemma ReadsOn(s: string, n: nat, tail: string, more: seq<nat>, rest: string)
    requires s == Dec(n) + (REF + (" " + tail)) && ReadReferences(tail) == Some((more, rest))
    ensures ReadReferences(s) == Some(([n] + more, rest))
  {
    ReadsReference(n, " " + tail);
    assert (" " + tail)[1..] == tail;
  }

  /** A non-empty list of references reads back. */
  lemma {:induction false} ReferencesReadBack(numbers: seq<nat>, rest: string)
    requires numbers != [] && rest != "" && rest[0] != ' '
    ensures ReadReferences(References(numbers) + rest) == Some((numbers, rest))
    decreases |numbers|
  {
    var n, more := numbers[0], numbers[1..];
    assert numbers == [n] + more;
    if more == [] {
      OneReference(n, rest);
      ReadsLast(References([n]) + rest, n, rest);
      assert numbers == [n];
    } else {
      ReferencesReadBack(more, rest);
      MoreReferences(n, more, rest);
      ReadsOn(References([n] + more) + rest, n, References(more) + rest, more, rest);
    }
  }

  lemma OneReference(n: nat, rest: string)
    ensures References([n]) + rest == Dec(n) + (REF + rest)
  {
    RightAssociates(Dec(n), REF, "", rest);
  }

  lemma MoreReferences(n: nat, more: seq<nat>, rest: string)
    requires more != []
    ensures References([n] + more) + rest == Dec(n) + (REF + (" " + (References(more) + rest)))
  {
    assert ([n] + more)[1..] == more;
    Regroups(Dec(n), REF, " ", References(more), rest);
  }

  lemma Regroups(a: string, b: string, c: string, d: string, e: string)
    ensures (a + (b + (c + d))) + e == a + (b + (c + (d + e)))
  {
  }

  lemma RightAssociates(a: string, b: string, c: string, d: string)
    ensures (a + (b + c)) + d == a + (b + (c + d)) && "" + d == d
  {
  }
}
