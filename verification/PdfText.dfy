/** Text layout of the PDF export (server/bbz_core/api/pdf.py): escaping, wrapping and
    page breaking. Bytes are characters below 256. */
module PdfText {
  import opened Wrappers
  import opened Text
  import opened Decimal
  import opened Templates

  const PAGE_W: nat := 612       // US Letter, in points
  const PAGE_H: nat := 792
  const MARGIN: nat := 40
  const FONT_SIZE: nat := 8
  const LEADING: nat := 10
  const LINES_PER_PAGE: nat := (PAGE_H - 2 * MARGIN) / LEADING
  const MAX_COLS: nat := 110

  // ---- literal strings ------------------------------------------------------------------

  predicate IsByte(c: char) {
    c as int < 256
  }

  predicate AllBytes(s: string) {
    forall i :: 0 <= i < |s| ==> IsByte(s[i])
  }

  /** latin-1 with replacement. */
  function Latin1(s: string): (r: string)
    ensures |r| == |s| && AllBytes(r)
    ensures forall i :: 0 <= i < |s| ==> r[i] == if s[i] as int < 256 then s[i] else '?'
  {
    if s == "" then "" else [if IsByte(s[0]) then s[0] else '?'] + Latin1(s[1..])
  }

  /** Three successive replacements: backslash first, then the parentheses. */
  function Escape(s: string): string {
    Replace(Replace(Replace(Latin1(s), "\\", "\\\\"), "(", "\\("), ")", "\\)")
  }

  /** What escaping means for one character. */
  function EscapeChar(c: char): string {
    if c == '\\' || c == '(' || c == ')' then ['\\', c] else [c]
  }

  function EscapeEach(s: string): string {
    if s == "" then "" else EscapeChar(s[0]) + EscapeEach(s[1..])
  }

  /** Replacing a single character works on the two halves of a text separately. */
  lemma {:induction false} ReplaceCharSplits(a: string, b: string, c: char, r: string)
    ensures Replace(a + b, [c], r) == Replace(a, [c], r) + Replace(b, [c], r)
  {
    if a == "" {
      assert a + b == b;
    } else {
      ReplaceCharSplits(a[1..], b, c, r);
      ReplaceFirst(a[0], a[1..], c, r);
      ReplaceFirst(a[0], a[1..] + b, c, r);
      Associates([a[0]], a[1..], b);
      Associates(if a[0] == c then r else [a[0]], Replace(a[1..], [c], r), Replace(b, [c], r));
      assert a == [a[0]] + a[1..];
    }
  }

  lemma Associates(a: string, b: string, c: string)
    ensures a + (b + c) == a + b + c
  {
  }

  lemma ReplaceFirst(x: char, rest: string, c: char, r: string)
    ensures Replace([x] + rest, [c], r) == (if x == c then r else [x]) + Replace(rest, [c], r)
  {
    var all := [x] + rest;
    assert all[0] == x && all[1..] == rest;
    assert [c] <= all <==> x == c;
  }

  /** Replacing a character in a text that is that character, or does not have it first. */
  lemma ReplaceOne(x: char, c: char, r: string)
    ensures Replace([x], [c], r) == if x == c then r else [x]
  {
    if x != c {
      assert [x][0] != [c][0];
    }
    assert [x][1..] == "" && [x] + "" == [x] && r + "" == r;
  }

  /** The three passes together escape each character on its own: the backslashes the
      later passes insert are not escaped again. */
  lemma {:induction false} PassesAreOnePass(s: string)
    ensures Replace(Replace(Replace(s, "\\", "\\\\"), "(", "\\("), ")", "\\)") == EscapeEach(s)
  {
    if s != "" {
      var x := s[0];
      PassesAreOnePass(s[1..]);
      assert s == [x] + s[1..];
      ReplaceCharSplits([x], s[1..], '\\', "\\\\");
      var a, a' := Replace([x], "\\", "\\\\"), Replace(s[1..], "\\", "\\\\");
      ReplaceCharSplits(a, a', '(', "\\(");
      var b, b' := Replace(a, "(", "\\("), Replace(a', "(", "\\(");
      ReplaceCharSplits(b, b', ')', "\\)");
      OneChar(x);
    }
  }

  lemma OneChar(x: char)
    ensures Replace(Replace(Replace([x], "\\", "\\\\"), "(", "\\("), ")", "\\)") == EscapeChar(x)
  {
    ReplaceOne(x, '\\', "\\\\");
    if x == '\\' {
      assert "\\\\" == ['\\'] + ['\\'];
      ReplaceCharSplits(['\\'], ['\\'], '(', "\\(");
      ReplaceOne('\\', '(', "\\(");
      ReplaceCharSplits(['\\'], ['\\'], ')', "\\)");
      ReplaceOne('\\', ')', "\\)");
    } else {
      ReplaceOne(x, '(', "\\(");
      if x == '(' {
        assert "\\(" == ['\\'] + ['('];
        ReplaceCharSplits(['\\'], ['('], ')', "\\)");
        ReplaceOne('\\', ')', "\\)");
        ReplaceOne('(', ')', "\\)");
      } else {
        ReplaceOne(x, ')', "\\)");
      }
    }
  }

  /** Reading a literal string after its opening parenthesis, as section 7.3.4.2 of
      ISO 32000-1 prescribes: a backslash escapes or continues the line, unescaped
      parentheses balance, an end of line is read as a line feed. Gives the string and
      what follows it. */
  function ReadLiteral(s: string, open: nat): (r: Option<(string, string)>)
    ensures r.Some? ==> |r.value.1| < |s|
    decreases |s|
  {
    if s == "" then None
    else if s[0] == ')' && open == 0 then Some(("", s[1..]))
    else if s[0] == '\\' then
      if |s| < 2 then None
      else if IsEol(s[1]) then ReadLiteral(s[1 + EolLength(s[1..])..], open)
      else if IsOctal(s[1]) then
        var n := OctalLength(s[1..]);
        Prefixed(OctalChar(s[1..1 + n]), ReadLiteral(s[1 + n..], open))
      else Prefixed(Escaped(s[1]), ReadLiteral(s[2..], open))
    else if IsEol(s[0]) then Prefixed('\n', ReadLiteral(s[EolLength(s)..], open))
    else
      var depth := if s[0] == '(' then open + 1 else if s[0] == ')' then open - 1 else open;
      Prefixed(s[0], ReadLiteral(s[1..], depth))
  }

  predicate IsEol(c: char) {
    c == '\r' || c == '\n'
  }

  /** A carriage return and a line feed after it are one end of line. */
  function EolLength(s: string): (n: nat)
    requires s != ""
    ensures 1 <= n <= |s|
  {
    if s[0] == '\r' && |s| > 1 && s[1] == '\n' then 2 else 1
  }

  predicate IsOctal(c: char) {
    '0' <= c <= '7'
  }

  /** One to three octal digits. */
  function OctalLength(s: string): (n: nat)
    requires s != "" && IsOctal(s[0])
    ensures 1 <= n <= 3 && n <= |s| && forall i :: 0 <= i < n ==> IsOctal(s[i])
  {
    if |s| == 1 || !IsOctal(s[1]) then 1 else if |s| == 2 || !IsOctal(s[2]) then 2 else 3
  }

  function OctalValue(s: string): nat
    requires forall i :: 0 <= i < |s| ==> IsOctal(s[i])
  {
    if s == "" then 0
    else
      var last := s[|s| - 1];
      assert IsOctal(last);
      8 * OctalValue(s[..|s| - 1]) + (last as int - '0' as int)
  }

  /** High-order overflow is ignored. */
  function OctalChar(s: string): char
    requires forall i :: 0 <= i < |s| ==> IsOctal(s[i])
  {
    (OctalValue(s) % 256) as char
  }

  function Escaped(c: char): char {
    if c == 'n' then '\n' else if c == 'r' then '\r' else if c == 't' then '\t'
    else if c == 'b' then '\U{8}' else if c == 'f' then '\U{c}' else c
  }

  function Prefixed(c: char, r: Option<(string, string)>): Option<(string, string)> {
    if r.None? then None else Some(([c] + r.value.0, r.value.1))
  }

  predicate NoReturn(s: string) {
    forall i :: 0 <= i < |s| ==> s[i] != '\r'
  }

  lemma {:induction false} ReadsBack(s: string, rest: string)
    requires NoReturn(s)
    ensures ReadLiteral(EscapeEach(s) + (")" + rest), 0) == Some((s, rest))
  {
    var all := EscapeEach(s) + (")" + rest);
    if s == "" {
      assert all == ")" + rest && all[1..] == rest;
    } else {
      ReadsBack(s[1..], rest);
      var tail := EscapeEach(s[1..]) + (")" + rest);
      assert all == EscapeChar(s[0]) + tail;
      assert all[|EscapeChar(s[0])|..] == tail;
      assert [s[0]] + s[1..] == s;
    }
  }

  lemma {:induction false} Latin1NoReturn(s: string)
    requires NoReturn(s)
    ensures NoReturn(Latin1(s))
  {
    if s != "" {
      Latin1NoReturn(s[1..]);
    }
  }

  /** A line without carriage returns, escaped between parentheses, reads back as its
      latin-1 form, and reading stops exactly at the closing parenthesis. */
  lemma EscapedLineReadsBack(line: string, rest: string)
    requires NoReturn(line)
    ensures ReadLiteral(Escape(line) + (")" + rest), 0) == Some((Latin1(line), rest))
  {
    PassesAreOnePass(Latin1(line));
    Latin1NoReturn(line);
    ReadsBack(Latin1(line), rest);
  }

  // ---- wrapping ------------------------------------------------------------------------------

  function Flatten(pieces: seq<string>): string {
    if pieces == [] then "" else Flatten(pieces[..|pieces| - 1]) + pieces[|pieces| - 1]
  }

  function Expanded(line: string): string {
    Replace(line, "\t", "    ")
  }

  /** Cut into full rows of 110 columns and a last, non-empty one. */
  function Rows(text: string): seq<string>
    requires text != ""
  {
    if |text| <= MAX_COLS then [text] else [text[..MAX_COLS]] + Rows(text[MAX_COLS..])
  }

  /** One line's rows. An empty line yields two empty rows: both branches of the code
      that handle an empty rest append one. */
  function WrapLine(line: string): seq<string> {
    if Expanded(line) == "" then ["", ""] else Rows(Expanded(line))
  }

  function WrapAll(lines: seq<string>): seq<string> {
    if lines == [] then [] else WrapAll(lines[..|lines| - 1]) + WrapLine(lines[|lines| - 1])
  }

  lemma {:induction false} ExpandedEmpty(line: string)
    ensures Expanded(line) == "" <==> line == ""
  {
    if line != "" {
      assert "\t" <= line <==> line[0] == '\t';
    }
  }

  method Wrap(lines: seq<string>) returns (wrapped: seq<string>)
    ensures wrapped == WrapAll(lines)
  {
    wrapped := [];
    var i := 0;
    while i < |lines|
      invariant 0 <= i <= |lines| && wrapped == WrapAll(lines[..i])
    {
      var line := lines[i];
      assert lines[..i + 1][..i] == lines[..i];
      ghost var before := wrapped;
      var expanded := Expanded(line);
      ExpandedEmpty(line);
      if expanded == "" { wrapped := wrapped + [""]; }
      ghost var whole := expanded;
      while |expanded| > MAX_COLS
        invariant whole == "" <==> expanded == ""
        invariant whole != "" ==> before + Rows(whole) == wrapped + Rows(expanded)
        invariant whole == "" ==> wrapped == before + [""]
        decreases |expanded|
      {
        wrapped := wrapped + [expanded[..MAX_COLS]];
        expanded := expanded[MAX_COLS..];
      }
      if expanded != "" || line == "" { wrapped := wrapped + [expanded]; }
      assert wrapped == before + WrapLine(line);
      i := i + 1;
    }
    assert lines[..i] == lines;
  }

  lemma {:induction false} FlattenConcat(a: seq<string>, b: seq<string>)
    ensures Flatten(a + b) == Flatten(a) + Flatten(b)
  {
    if b == [] {
      assert a + b == a && Flatten(a) + "" == Flatten(a);
    } else {
      var init, last := b[..|b| - 1], b[|b| - 1];
      FlattenConcat(a, init);
      assert (a + b)[..|a + b| - 1] == a + init;
      Associate(Flatten(a), Flatten(init), last);
    }
  }

  lemma Associate(x: string, y: string, z: string)
    ensures (x + y) + z == x + (y + z)
  {
  }

  lemma FlattenOne(x: string)
    ensures Flatten([x]) == x
  {
    assert [x][..0] == [] && "" + x == x;
  }

  /** Rows lose nothing, are never too wide, and are as few as possible. */
  lemma {:induction false} RowsExact(text: string)
    requires text != ""
    ensures Flatten(Rows(text)) == text
    ensures forall i :: 0 <= i < |Rows(text)| ==> 0 < |Rows(text)[i]| <= 110
    ensures |Rows(text)| == (|text| + 109) / 110
  {
    if |text| <= MAX_COLS {
      FlattenOne(text);
    } else {
      RowsExact(text[MAX_COLS..]);
      FlattenConcat([text[..MAX_COLS]], Rows(text[MAX_COLS..]));
      FlattenOne(text[..MAX_COLS]);
    }
  }

  lemma {:induction false} WrapKeepsText(lines: seq<string>)
    ensures Flatten(WrapAll(lines)) == Flatten(ExpandAll(lines))
    ensures forall i :: 0 <= i < |WrapAll(lines)| ==> |WrapAll(lines)[i]| <= MAX_COLS
  {
    if lines != [] {
      var init, line := lines[..|lines| - 1], lines[|lines| - 1];
      WrapKeepsText(init);
      FlattenConcat(WrapAll(init), WrapLine(line));
      FlattenConcat(ExpandAll(init), [Expanded(line)]);
      FlattenOne(Expanded(line));
      if Expanded(line) == "" {
        assert ["", ""] == [""] + [""];
        FlattenConcat([""], [""]);
        FlattenOne("");
      } else {
        RowsExact(Expanded(line));
      }
    }
  }

  /** A tab is four spaces; every other character stays. */
  function ExpandEach(line: string): string {
    if line == "" then "" else (if line[0] == '\t' then "    " else [line[0]]) + ExpandEach(line[1..])
  }

  lemma {:induction false} ExpandedExactly(line: string)
    ensures Expanded(line) == ExpandEach(line)
  {
    if line != "" {
      ExpandedExactly(line[1..]);
      ReplaceFirst(line[0], line[1..], '\t', "    ");
      assert line == [line[0]] + line[1..];
    }
  }

  /** How many rows some lines take: two for an empty line, else one for each 110 columns. */
  function RowCount(lines: seq<string>): nat {
    if lines == [] then 0
    else
      var n := |ExpandEach(lines[|lines| - 1])|;
      RowCount(lines[..|lines| - 1]) + if n == 0 then 2 else (n + 109) / 110
  }

  lemma {:induction false} RowsCounted(lines: seq<string>)
    ensures |WrapAll(lines)| == RowCount(lines)
  {
    if lines != [] {
      var line := lines[|lines| - 1];
      RowsCounted(lines[..|lines| - 1]);
      ExpandedExactly(line);
      if Expanded(line) != "" { RowsExact(Expanded(line)); }
    }
  }

  function ExpandAll(lines: seq<string>): seq<string> {
    if lines == [] then [] else ExpandAll(lines[..|lines| - 1]) + [Expanded(lines[|lines| - 1])]
  }

  // ---- pages ------------------------------------------------------------------------------------

  function PageBreaks(lines: seq<string>): seq<seq<string>> {
    if |lines| <= LINES_PER_PAGE then if lines == [] then [] else [lines]
    else [lines[..LINES_PER_PAGE]] + PageBreaks(lines[LINES_PER_PAGE..])
  }

  /** The pages of a text given as its lines; there is always at least one. */
  function Pages(lines: seq<string>): (pages: seq<seq<string>>)
    ensures pages != []
  {
    var wrapped := WrapAll(if lines == [] then [""] else lines);
    if wrapped == [] then [[""]] else PageBreaks(wrapped)
  }

  function Joined(pages: seq<seq<string>>): seq<string> {
    if pages == [] then [] else pages[0] + Joined(pages[1..])
  }

  /** Page breaking keeps every row in order; pages are full except the last, none is empty. */
  lemma {:induction false} PagesKeepRows(lines: seq<string>)
    ensures Joined(PageBreaks(lines)) == lines
    ensures forall i :: 0 <= i < |PageBreaks(lines)| ==> 0 < |PageBreaks(lines)[i]| <= LINES_PER_PAGE
    ensures forall i :: 0 <= i < |PageBreaks(lines)| - 1 ==> |PageBreaks(lines)[i]| == LINES_PER_PAGE
  {
    if |lines| > LINES_PER_PAGE {
      PagesKeepRows(lines[LINES_PER_PAGE..]);
      var rest := PageBreaks(lines[LINES_PER_PAGE..]);
      assert rest != [];
      assert ([lines[..LINES_PER_PAGE]] + rest)[1..] == rest;
    }
  }

  // ---- content streams ---------------------------------------------------------------------------

  /** Font size, leading and start position between the text operators. */
  const TEXT_BEGIN: seq<string> := ["BT\n/F1 ", " Tf\n", " TL\n", " ", " Td"]

  /** The text state of every page: it starts at the left and upper margin. */
  function Preamble(): string {
    Fill(TEXT_BEGIN, [FONT_SIZE, LEADING, MARGIN, PAGE_H - MARGIN])
  }

  /** The text operators of a page: every row but the first moves to the next line. */
  function ShowRows(rows: seq<string>): string {
    if rows == [] then ""
    else
      var n := |rows| - 1;
      ShowRows(rows[..n]) + (if n > 0 then "\nT*" else "") + "\n(" + Escape(rows[n]) + ") Tj"
  }

  function ContentStream(rows: seq<string>): string {
    Preamble() + ShowRows(rows) + "\nET"
  }

  function Joining(parts: seq<string>): string
    requires parts != []
  {
    if |parts| == 1 then parts[0] else Joining(parts[..|parts| - 1]) + "\n" + parts[|parts| - 1]
  }

  /** The loop of `_content_stream`: a list of operators joined by line feeds. */
  method BuildStream(rows: seq<string>) returns (stream: string)
    ensures stream == ContentStream(rows)
  {
    var body := BeginText();
    ghost var start := Preamble();
    assert start + ShowRows(rows[..0]) == start;
    var i := 0;
    while i < |rows|
      invariant 0 <= i <= |rows| && body != []
      invariant start == Preamble() && Joining(body) == start + ShowRows(rows[..i])
    {
      assert rows[..i + 1][..i] == rows[..i];
      ghost var shown := ShowRows(rows[..i]);
      if i > 0 {
        JoiningAppends(body, "T*");
        body := body + ["T*"];
      }
      JoiningAppends(body, "(" + Escape(rows[i]) + ") Tj");
      body := body + ["(" + Escape(rows[i]) + ") Tj"];
      ShowsNext(start, shown, i, Escape(rows[i]));
      i := i + 1;
    }
    JoiningAppends(body, "ET");
    body := body + ["ET"];
    assert rows[..i] == rows;
    stream := Joining(body);
    assert "\n" + "ET" == "\nET";
  }

  method BeginText() returns (body: seq<string>)
    ensures body != [] && Joining(body) == Preamble()
  {
    body := ["BT", "/F1 " + Dec(FONT_SIZE) + " Tf", Dec(LEADING) + " TL",
             Dec(MARGIN) + " " + Dec(PAGE_H - MARGIN) + " Td"];
    PreambleJoins();
  }

  lemma JoiningAppends(parts: seq<string>, x: string)
    requires parts != []
    ensures Joining(parts + [x]) == Joining(parts) + "\n" + x
  {
    assert (parts + [x])[..|parts + [x]| - 1] == parts;
  }

  lemma PreambleJoins()
    ensures Joining(["BT", "/F1 " + Dec(FONT_SIZE) + " Tf", Dec(LEADING) + " TL",
                     Dec(MARGIN) + " " + Dec(PAGE_H - MARGIN) + " Td"]) == Preamble()
  {
    var a, b, c, d := Dec(FONT_SIZE), Dec(LEADING), Dec(MARGIN), Dec(PAGE_H - MARGIN);
    JoiningFour("BT", "/F1 " + a + " Tf", b + " TL", c + " " + d + " Td");
    OperatorsJoin(a, b, c, d);
    FourFilled(TEXT_BEGIN, FONT_SIZE, LEADING, MARGIN, PAGE_H - MARGIN);
  }

  lemma OperatorsJoin(a: string, b: string, c: string, d: string)
    ensures "BT" + "\n" + ("/F1 " + a + " Tf") + "\n" + (b + " TL") + "\n" + (c + " " + d + " Td") ==
      "BT\n/F1 " + (a + (" Tf\n" + (b + (" TL\n" + (c + (" " + (d + " Td")))))))
  {
  }

  lemma FourFilled(p: seq<string>, a: nat, b: nat, c: nat, d: nat)
    requires |p| == 5
    ensures Fill(p, [a, b, c, d]) == p[0] + (Dec(a) + (p[1] + (Dec(b) + (p[2] + (Dec(c) + (p[3] + (Dec(d) + p[4])))))))
  {
    FillTwo(p, a, b, [c, d], [a, b, c, d]);
    FillTwo(p[2..], c, d, [], [c, d]);
    assert Fill(p[4..], []) == p[4];
  }

  lemma FillTwo(p: seq<string>, a: nat, b: nat, numbers: seq<nat>, all: seq<nat>)
    requires |p| == |numbers| + 3 && all == [a, b] + numbers
    ensures Fill(p, all) == p[0] + (Dec(a) + (p[1] + (Dec(b) + Fill(p[2..], numbers))))
  {
    FillNext(p[0], p[1..], a, [b] + numbers, p, all);
    FillNext(p[1], p[2..], b, numbers, p[1..], [b] + numbers);
  }

  lemma FillNext(first: string, pieces: seq<string>, n: nat, numbers: seq<nat>, all: seq<string>, more: seq<nat>)
    requires |pieces| == |numbers| + 1 && all == [first] + pieces && more == [n] + numbers
    ensures Fill(all, more) == first + (Dec(n) + Fill(pieces, numbers))
  {
    assert all[1..] == pieces && more[1..] == numbers;
  }

  lemma JoiningFour(a: string, b: string, c: string, d: string)
    ensures Joining([a, b, c, d]) == a + "\n" + b + "\n" + c + "\n" + d
  {
    JoiningAppends([a], b);
    assert [a] + [b] == [a, b];
    JoiningAppends([a, b], c);
    assert [a, b] + [c] == [a, b, c];
    JoiningAppends([a, b, c], d);
    assert [a, b, c] + [d] == [a, b, c, d];
  }

  lemma ShowsNext(start: string, shown: string, i: nat, row: string)
    ensures start + (shown + (if i > 0 then "\nT*" else "") + "\n(" + row + ") Tj") ==
      (if i > 0 then start + shown + "\n" + "T*" else start + shown) + "\n" + ("(" + row + ") Tj")
  {
  }
}
