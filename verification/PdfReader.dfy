/** Reading the text back out of an exported document: the rows of every page. */
module PdfReader {
  import opened Wrappers
  import opened Decimal
  import opened Templates
  import opened PdfText
  import opened PdfFile
  import opened PdfDocument

  // ---- the reader's own vocabulary ---------------------------------------------------------

  const EOL: string := "\n"

  /** Header, object, cross-reference and trailer syntax as sections 7.5.2 to 7.5.5 of
      ISO 32000-1 spell them, token by token. */
  const STANDARD: Syntax := Syntax(
    "%PDF-1.4" + EOL + "%" + "\U{e2}\U{e3}\U{cf}\U{d3}" + EOL,
    ["", " " + "0" + " " + "obj" + EOL],
    EOL + "endobj" + EOL,
    ["xref" + EOL + "0" + " ", EOL],
    "0000000000" + " " + "65535" + " " + "f" + " " + EOL,
    " " + "00000" + " " + "n" + " " + EOL,
    ["trailer" + EOL + "<<" + " " + "/Size" + " ", " " + "/Root" + " ", " " + "0" + " " + "R" + " " + ">>" + EOL],
    "startxref" + EOL,
    EOL + "%%EOF")

  /** Stream, page, page-tree and catalog objects (sections 7.3.8 and 7.7). */
  const OBJECTS: Dictionaries := Dictionaries(
    ("<<" + " /Type" + " /Font" + " /Subtype") + (" /Type1" + " /BaseFont" + " /Courier" + " >>"),
    ["<<" + " /Length" + " ", " >>" + EOL + "stream" + EOL],
    EOL + "endstream",
    ["<<" + " /Type" + " /Page" + " /Parent" + " ",
     " 0 R" + " /MediaBox" + " [0 0 ", " ",
     "]" + " /Resources" + " <<" + " /Font" + " <<" + " /F1" + " ",
     " 0 R" + " >>" + " >>" + " /Contents" + " ",
     " 0 R" + " >>"],
    ["<<" + " /Type" + " /Pages" + " /Count" + " ", " /Kids" + " ["],
    "]" + " >>",
    ["<<" + " /Type" + " /Catalog" + " /Pages" + " ", " 0 R" + " >>"])

  /** The text state a page starts with (sections 9.3 and 9.4): font size, leading, position. */
  const TEXT_START: seq<string> := ["BT" + EOL + "/F1 ", " Tf" + EOL, " TL" + EOL, " ", " Td"]

  /** The writer's text is the standard's. */
  lemma WriterSpeaksStandard()
    ensures STANDARD == PDF
  {
    var s, p := STANDARD, PDF_TEXT;
    assert s.header == p.header;
    assert s.obj[1] == p.obj[1];
    assert s.obj == p.obj;
    assert s.endObject == p.endObject;
    assert s.xref[0] == p.xref[0];
    assert s.xref == p.xref;
    assert s.free == p.free;
    assert s.inUse == p.inUse;
    assert s.trailer[0] == p.trailer[0] && s.trailer[1] == p.trailer[1] && s.trailer[2] == p.trailer[2];
    assert s.trailer == p.trailer;
    assert s.startKey == p.startKey && s.eof == p.eof;
  }

  lemma FontAgrees()
    ensures OBJECTS.font == PHRASES.font
  {
    FontStarts();
    FontEnds();
  }

  lemma FontStarts()
    ensures "<<" + " /Type" + " /Font" + " /Subtype" == "<< /Type /Font /Subtype"
  {
  }

  lemma FontEnds()
    ensures " /Type1" + " /BaseFont" + " /Courier" + " >>" == " /Type1 /BaseFont /Courier >>"
  {
  }

  lemma StartAgrees()
    ensures TEXT_START == TEXT_BEGIN
  {
    var s, p := TEXT_START, TEXT_BEGIN;
    assert s[0] == p[0] && s[1] == p[1] && s[2] == p[2];
  }

  lemma BoxAgrees()
    ensures OBJECTS.page[1] == PHRASES.page[1] && OBJECTS.page[3] == PHRASES.page[3]
  {
  }

  lemma PageAgrees()
    ensures OBJECTS.page == PHRASES.page
  {
    BoxAgrees();
    var s, p := OBJECTS.page, PHRASES.page;
    assert s[0] == p[0] && s[2] == p[2] && s[4] == p[4] && s[5] == p[5];
  }

  lemma StreamAgrees()
    ensures OBJECTS.stream == PHRASES.stream && OBJECTS.endStream == PHRASES.endStream
  {
    var s, p := OBJECTS.stream, PHRASES.stream;
    assert s[0] == p[0] && s[1] == p[1];
  }

  lemma TreeAgrees()
    ensures OBJECTS.pages == PHRASES.pages && OBJECTS.endPages == PHRASES.endPages
    ensures OBJECTS.catalog == PHRASES.catalog
  {
    var s, p := OBJECTS, PHRASES;
    assert s.pages[0] == p.pages[0] && s.pages[1] == p.pages[1];
    assert s.catalog[0] == p.catalog[0] && s.catalog[1] == p.catalog[1];
  }

  lemma WriterObjectsAreStandard()
    ensures OBJECTS == PHRASES
  {
    FontAgrees();
    PageAgrees();
    StreamAgrees();
    TreeAgrees();
  }

  // ---- reading a content stream ---------------------------------------------------------------

  /** A shown string and the position of its baseline, in points from the lower left corner. */
  datatype Shown = Shown(text: string, x: int, y: int)

  /** The shown strings after the start of a content stream: each but the first is preceded
      by a move to the next line, one leading down. */
  function ReadShown(s: string, first: bool, x: int, y: int, leading: nat): Option<seq<Shown>>
    decreases |s|
  {
    if s == "\nET" then Some([])
    else
      var moved := if first then Some(s) else Strip(s, "\nT*");
      if moved.None? then None
      else
        var open, at := Strip(moved.value, "\n("), if first then y else y - leading;
        if open.None? then None
        else
          var literal := ReadLiteral(open.value, 0);
          if literal.None? then None
          else
            var shown := Strip(literal.value.1, " Tj");
            if shown.None? then None
            else Before(Shown(literal.value.0, x, at), ReadShown(shown.value, false, x, at, leading))
  }

  function Before(row: Shown, rows: Option<seq<Shown>>): Option<seq<Shown>> {
    if rows.None? then None else Some([row] + rows.value)
  }

  /** A page as it is seen: its size, the font's size and leading, and what is shown where. */
  datatype Sheet = Sheet(width: nat, height: nat, size: nat, leading: nat, rows: seq<Shown>)

  function ReadSheet(leaf: Leaf): Option<Sheet> {
    var start := Scan(TEXT_START, leaf.stream);
    if start.None? || |start.value.0| != 4 then None
    else
      var n := start.value.0;
      var rows := ReadShown(start.value.1, true, n[2], n[3], n[1]);
      if rows.None? then None else Some(Sheet(leaf.width, leaf.height, n[0], n[1], rows.value))
  }

  function ReadEach(leaves: seq<Leaf>): Option<seq<Sheet>> {
    if leaves == [] then Some([])
    else
      var n := |leaves| - 1;
      var rest, page := ReadEach(leaves[..n]), ReadSheet(leaves[n]);
      if rest.None? || page.None? then None else Some(rest.value + [page.value])
  }

  /** The pages of a document, as they are seen. */
  function ReadText(f: Format, g: Phrases, doc: string): Option<seq<Sheet>> {
    var leaves := ReadDocument(f, g, doc);
    if leaves.None? then None else ReadEach(leaves.value)
  }

  // ---- one page ----------------------------------------------------------------------------

  function Move(first: bool): string {
    if first then "" else "\nT*"
  }

  /** The text operators of some rows, from the first on. */
  function ShowFrom(rows: seq<string>, first: bool): string {
    if rows == [] then ""
    else Move(first) + ("\n(" + (Escape(rows[0]) + (") Tj" + ShowFrom(rows[1..], false))))
  }

  lemma {:induction false} ShowFromAppends(rows: seq<string>, row: string, first: bool)
    ensures ShowFrom(rows + [row], first) ==
      ShowFrom(rows, first) + Move(first && rows == []) + "\n(" + Escape(row) + ") Tj"
    decreases |rows|
  {
    if rows == [] {
      assert (rows + [row])[1..] == [];
      LastShown(Move(first), "\n(", Escape(row), ") Tj");
    } else {
      ShowFromAppends(rows[1..], row, false);
      assert (rows + [row])[1..] == rows[1..] + [row];
      MoreShown(Move(first), "\n(", Escape(rows[0]), ") Tj", ShowFrom(rows[1..], false),
        Move(false), "\n(", Escape(row));
    }
  }

  lemma LastShown(a: string, b: string, c: string, d: string)
    ensures a + (b + (c + (d + ""))) == "" + a + b + c + d
  {
  }

  lemma MoreShown(a: string, b: string, c: string, d: string, e: string, m: string, o: string, r: string)
    ensures a + (b + (c + (d + (e + m + o + r + d)))) == (a + (b + (c + (d + e)))) + m + o + r + d
  {
  }

  lemma {:induction false} ShowRowsIsShowFrom(rows: seq<string>)
    ensures ShowRows(rows) == ShowFrom(rows, true)
  {
    if rows != [] {
      var n := |rows| - 1;
      ShowRowsIsShowFrom(rows[..n]);
      ShowFromAppends(rows[..n], rows[n], true);
      assert rows[..n] + [rows[n]] == rows;
    }
  }

  predicate NoReturns(rows: seq<string>) {
    forall i :: 0 <= i < |rows| ==> NoReturn(rows[i])
  }

  function Latin1Each(rows: seq<string>): (r: seq<string>)
    ensures |r| == |rows| && forall i :: 0 <= i < |rows| ==> r[i] == Latin1(rows[i])
  {
    if rows == [] then [] else [Latin1(rows[0])] + Latin1Each(rows[1..])
  }

  /** One shown row is taken off the front. */
  lemma ReadsRow(row: string, first: bool, rest: string, x: int, y: int, leading: nat)
    requires NoReturn(row)
    ensures var at := if first then y else y - leading;
      ReadShown(Move(first) + ("\n(" + (Escape(row) + (") Tj" + rest))), first, x, y, leading) ==
        Before(Shown(Latin1(row), x, at), ReadShown(rest, false, x, at, leading))
  {
    var literal := Escape(row) + (")" + (" Tj" + rest));
    ShowSplits(rest);
    var open := "\n(" + literal;
    MovesOn(first, open);
    StripOf("\n(", literal);
    EscapedLineReadsBack(row, " Tj" + rest);
    StripOf(" Tj", rest);
  }

  lemma ShowSplits(rest: string)
    ensures ") Tj" + rest == ")" + (" Tj" + rest)
  {
  }

  lemma MovesOn(first: bool, open: string)
    requires |open| >= 2 && open[1] == '('
    ensures var s := Move(first) + open;
      s != "\nET" && (if first then s == open else Strip(s, "\nT*") == Some(open))
  {
    var s := Move(first) + open;
    assert s[1] == if first then '(' else 'T';
    assert "\nET"[1] == 'E';
    StripOf("\nT*", open);
  }

  /** Rows one leading below each other, from `y` down. */
  function Placed(rows: seq<string>, x: int, y: int, leading: nat): (r: seq<Shown>)
    ensures |r| == |rows|
  {
    if rows == [] then [] else [Shown(Latin1(rows[0]), x, y)] + Placed(rows[1..], x, y - leading, leading)
  }

  lemma {:induction false} PlacedAt(rows: seq<string>, x: int, y: int, leading: nat, i: nat)
    requires i < |rows|
    ensures Placed(rows, x, y, leading)[i] == Shown(Latin1(rows[i]), x, y - i * leading)
  {
    if i > 0 {
      PlacedAt(rows[1..], x, y - leading, leading, i - 1);
      OneLess(i, leading);
    }
  }

  lemma OneLess(i: nat, leading: nat)
    ensures (i - 1) * leading == i * leading - leading
  {
  }

  lemma PlacedNext(rows: seq<string>, x: int, y: int, leading: nat)
    requires rows != []
    ensures Placed(rows, x, y, leading) == [Shown(Latin1(rows[0]), x, y)] + Placed(rows[1..], x, y - leading, leading)
  {
  }

  lemma RowThenRest(row: string, first: bool, rest: string, x: int, y: int, leading: nat, more: seq<Shown>)
    requires NoReturn(row)
    requires ReadShown(rest + "\nET", false, x, if first then y else y - leading, leading) == Some(more)
    ensures var at := if first then y else y - leading;
      ReadShown((Move(first) + ("\n(" + (Escape(row) + (") Tj" + rest)))) + "\nET", first, x, y, leading) ==
        Some([Shown(Latin1(row), x, at)] + more)
  {
    ReadsRow(row, first, rest + "\nET", x, y, leading);
    OuterTail(Move(first), "\n(", Escape(row), ") Tj", rest, "\nET");
  }

  lemma {:induction false} ShownReadsBack(rows: seq<string>, first: bool, x: int, y: int, leading: nat)
    requires NoReturns(rows)
    ensures ReadShown(ShowFrom(rows, first) + "\nET", first, x, y, leading) ==
      Some(Placed(rows, x, if first then y else y - leading, leading))
    decreases |rows|
  {
    if rows != [] {
      var rest, at := ShowFrom(rows[1..], false), if first then y else y - leading;
      ShownReadsBack(rows[1..], false, x, at, leading);
      RowThenRest(rows[0], first, rest, x, y, leading, Placed(rows[1..], x, at - leading, leading));
      PlacedNext(rows, x, at, leading);
    }
  }

  lemma OuterTail(a: string, b: string, c: string, d: string, e: string, t: string)
    ensures (a + (b + (c + (d + e)))) + t == a + (b + (c + (d + (e + t))))
  {
  }

  /** The page of some rows as it is seen. */
  function SheetOf(rows: seq<string>): Sheet {
    Sheet(PAGE_W, PAGE_H, FONT_SIZE, LEADING, Placed(rows, MARGIN, PAGE_H - MARGIN, LEADING))
  }

  /** A page shows its rows, each in its latin-1 form, from the upper margin down. */
  lemma StreamShowsRows(rows: seq<string>)
    requires NoReturns(rows)
    ensures ReadSheet(Letter(ContentStream(rows))) == Some(SheetOf(rows))
  {
    ShowRowsIsShowFrom(rows);
    ShownReadsBack(rows, true, MARGIN, PAGE_H - MARGIN, LEADING);
    StartAgrees();
    RightGrouped(Preamble(), ShowRows(rows), "\nET");
    ScanInvertsFill(TEXT_BEGIN, [FONT_SIZE, LEADING, MARGIN, PAGE_H - MARGIN], ShowRows(rows) + "\nET");
  }

  // ---- the whole text ------------------------------------------------------------------------

  lemma {:induction false} ExpandedNoReturn(line: string)
    requires NoReturn(line)
    ensures NoReturn(Expanded(line))
  {
    if line != "" {
      ExpandedNoReturn(line[1..]);
      assert "\t" <= line <==> line[0] == '\t';
      assert NoReturn("    ");
    }
  }

  lemma {:induction false} RowsNoReturn(text: string)
    requires text != "" && NoReturn(text)
    ensures NoReturns(Rows(text))
  {
    if |text| > MAX_COLS { RowsNoReturn(text[MAX_COLS..]); }
  }

  lemma {:induction false} WrapNoReturn(lines: seq<string>)
    requires NoReturns(lines)
    ensures NoReturns(WrapAll(lines))
  {
    if lines != [] {
      var n := |lines| - 1;
      WrapNoReturn(lines[..n]);
      ExpandedNoReturn(lines[n]);
      if Expanded(lines[n]) != "" { RowsNoReturn(Expanded(lines[n])); }
      assert NoReturns(WrapLine(lines[n]));
    }
  }

  predicate PagesNoReturn(pages: seq<seq<string>>) {
    forall i :: 0 <= i < |pages| ==> NoReturns(pages[i])
  }

  lemma {:induction false} BreaksNoReturn(rows: seq<string>)
    requires NoReturns(rows)
    ensures PagesNoReturn(PageBreaks(rows))
  {
    if |rows| > LINES_PER_PAGE { BreaksNoReturn(rows[LINES_PER_PAGE..]); }
  }

  function Sheets(pages: seq<seq<string>>): (sheets: seq<Sheet>)
    ensures |sheets| == |pages| && forall k :: 0 <= k < |pages| ==> sheets[k] == SheetOf(pages[k])
  {
    seq(|pages|, k requires 0 <= k < |pages| => SheetOf(pages[k]))
  }

  lemma {:induction false} EachReadsBack(pages: seq<seq<string>>)
    requires PagesNoReturn(pages)
    ensures ReadEach(Letters(Streams(pages))) == Some(Sheets(pages))
  {
    if pages != [] {
      var n := |pages| - 1;
      EachReadsBack(pages[..n]);
      StreamShowsRows(pages[n]);
      LastReads(Letters(Streams(pages[..n])), Letter(ContentStream(pages[n])));
      LettersLast(Streams(pages[..n]), ContentStream(pages[n]));
      SheetsLast(pages);
    }
  }

  lemma LettersLast(streams: seq<string>, last: string)
    ensures Letters(streams + [last]) == Letters(streams) + [Letter(last)]
  {
  }

  lemma SheetsLast(pages: seq<seq<string>>)
    requires pages != []
    ensures Sheets(pages) == Sheets(pages[..|pages| - 1]) + [SheetOf(pages[|pages| - 1])]
  {
  }

  lemma LastReads(front: seq<Leaf>, leaf: Leaf)
    requires ReadSheet(leaf).Some? && ReadEach(front).Some?
    ensures ReadEach(front + [leaf]) == Some(ReadEach(front).value + [ReadSheet(leaf).value])
  {
    assert (front + [leaf])[..|front|] == front;
  }

  /** The texts shown on some pages, in order. */
  function Texts(sheets: seq<Sheet>): seq<string> {
    if sheets == [] then [] else TextsOf(sheets[0].rows) + Texts(sheets[1..])
  }

  function TextsOf(rows: seq<Shown>): (texts: seq<string>)
    ensures |texts| == |rows| && forall i :: 0 <= i < |rows| ==> texts[i] == rows[i].text
  {
    seq(|rows|, i requires 0 <= i < |rows| => rows[i].text)
  }

  lemma Latin1Splits(a: seq<string>, b: seq<string>)
    ensures Latin1Each(a + b) == Latin1Each(a) + Latin1Each(b)
  {
    var both, apart := Latin1Each(a + b), Latin1Each(a) + Latin1Each(b);
    forall i | 0 <= i < |a + b| ensures both[i] == apart[i] {
      assert both[i] == Latin1((a + b)[i]);
    }
  }

  lemma PageShows(rows: seq<string>)
    ensures TextsOf(SheetOf(rows).rows) == Latin1Each(rows)
  {
    forall i | 0 <= i < |rows| ensures SheetOf(rows).rows[i].text == Latin1Each(rows)[i] {
      PlacedAt(rows, MARGIN, PAGE_H - MARGIN, LEADING, i);
    }
  }

  lemma {:induction false} SheetsShow(pages: seq<seq<string>>)
    ensures Texts(Sheets(pages)) == Latin1Each(Joined(pages))
  {
    if pages != [] {
      SheetsShow(pages[1..]);
      Latin1Splits(pages[0], Joined(pages[1..]));
      assert Sheets(pages)[1..] == Sheets(pages[1..]);
      PageShows(pages[0]);
    }
  }

  /** The lines that get wrapped: an empty text is one empty line. */
  function Wrapped(lines: seq<string>): seq<string> {
    WrapAll(if lines == [] then [""] else lines)
  }

  lemma {:induction false} SomethingWrapped(lines: seq<string>)
    requires lines != []
    ensures WrapAll(lines) != []
  {
    assert WrapLine(lines[|lines| - 1]) != [];
  }

  lemma GenericReadsBack(f: Format, g: Phrases, lines: seq<string>)
    requires NoReturns(lines)
    requires LastPosition(f, Objects(g, Streams(Pages(lines)))) < Pow10(10)
    ensures ReadText(f, g, Rendered(f, g, lines)) == Some(Sheets(Pages(lines)))
    ensures Texts(Sheets(Pages(lines))) == Latin1Each(Wrapped(lines))
  {
    var source := if lines == [] then [""] else lines;
    assert NoReturns(source);
    WrapNoReturn(source);
    SomethingWrapped(source);
    BreaksNoReturn(Wrapped(lines));
    PagesKeepRows(Wrapped(lines));
    SheetsShow(Pages(lines));
    DocumentReadsBack(f, g, Streams(Pages(lines)));
    EachReadsBack(Pages(lines));
  }

  /** A reader with the standard's own vocabulary, starting from the last bytes of the
      exported file, sees, page by page and row by row, the wrapped text in latin-1: nothing
      is lost, added or reordered. Lines have no carriage return (they were split there), and
      the last object starts before byte ten to the ten. */
  lemma ExportReadsBack(lines: seq<string>)
    requires NoReturns(lines)
    requires LastPosition(PDF, Objects(PHRASES, Streams(Pages(lines)))) < Pow10(10)
    ensures Readable(STANDARD) && Legible(OBJECTS)
    ensures ReadText(STANDARD, OBJECTS, Rendered(PDF, PHRASES, lines)) == Some(Sheets(Pages(lines)))
    ensures Texts(Sheets(Pages(lines))) == Latin1Each(Wrapped(lines))
  {
    WriterSpeaksStandard();
    WriterObjectsAreStandard();
    GenericReadsBack(PDF, PHRASES, lines);
  }

  // ---- everything is on the page -----------------------------------------------------------------

  /** The row's baseline lies between the margins, and the row, at 0.6 of the font's size a
      character as Courier has it, ends before the right one. */
  predicate OnPage(sheet: Sheet, row: Shown, margin: nat) {
    && margin <= row.y <= sheet.height - margin && margin <= row.x
    && 10 * row.x + 6 * sheet.size * |row.text| <= 10 * (sheet.width - margin)
  }

  predicate Apart(sheet: Sheet, a: Shown, b: Shown) {
    a.x == b.x && a.y == b.y + sheet.leading && sheet.leading >= sheet.size
  }

  /** As many rows as the space between the margins has room for. */
  predicate Full(sheet: Sheet, margin: nat) {
    |sheet.rows| * sheet.leading <= sheet.height - 2 * margin < (|sheet.rows| + 1) * sheet.leading
  }

  /** A page of US Letter, set in 8 points on 10. */
  predicate IsLetter(sheet: Sheet) {
    sheet.width == 612 && sheet.height == 792 && sheet.size == 8 && sheet.leading == 10
  }

  predicate SheetSet(sheet: Sheet, margin: nat) {
    && IsLetter(sheet)
    && (forall i :: 0 <= i < |sheet.rows| ==> OnPage(sheet, sheet.rows[i], margin))
    && (forall i :: 0 < i < |sheet.rows| ==> Apart(sheet, sheet.rows[i - 1], sheet.rows[i]))
  }

  /** Each row stands between the margins, rows do not overlap, and no page but the last has
      room for one more. */
  ghost predicate WellSet(sheets: seq<Sheet>, margin: nat) {
    && (forall k :: 0 <= k < |sheets| ==> SheetSet(sheets[k], margin))
    && (forall k :: 0 <= k < |sheets| - 1 ==> Full(sheets[k], margin))
  }

  /** What the reader sees of every export is well set between margins of 40 points. */
  lemma ExportFitsPages(lines: seq<string>)
    requires NoReturns(lines)
    requires LastPosition(PDF, Objects(PHRASES, Streams(Pages(lines)))) < Pow10(10)
    ensures Readable(STANDARD) && Legible(OBJECTS)
    ensures var seen := ReadText(STANDARD, OBJECTS, Rendered(PDF, PHRASES, lines));
      seen.Some? && WellSet(seen.value, 40)
  {
    ExportReadsBack(lines);
    PagesWellSet(lines);
  }

  lemma PagesWellSet(lines: seq<string>)
    ensures WellSet(Sheets(Pages(lines)), 40)
  {
    var source := if lines == [] then [""] else lines;
    SomethingWrapped(source);
    WrapKeepsText(source);
    PagesKeepRows(Wrapped(lines));
    var pages, sheets := Pages(lines), Sheets(Pages(lines));
    forall k | 0 <= k < |pages| ensures SheetSet(sheets[k], 40) && (k < |pages| - 1 ==> Full(sheets[k], 40)) {
      PageRowsFit(Wrapped(lines), k);
      PageSet(pages[k]);
    }
  }

  lemma PageSet(rows: seq<string>)
    requires |rows| <= LINES_PER_PAGE && forall i :: 0 <= i < |rows| ==> |rows[i]| <= MAX_COLS
    ensures SheetSet(SheetOf(rows), 40) && (|rows| == LINES_PER_PAGE ==> Full(SheetOf(rows), 40))
  {
    forall i | 0 <= i < |rows| ensures OnPage(SheetOf(rows), SheetOf(rows).rows[i], 40) { RowOnPage(rows, i); }
    forall i | 0 < i < |rows| ensures Apart(SheetOf(rows), SheetOf(rows).rows[i - 1], SheetOf(rows).rows[i]) {
      PlacedAt(rows, MARGIN, PAGE_H - MARGIN, LEADING, i - 1);
      PlacedAt(rows, MARGIN, PAGE_H - MARGIN, LEADING, i);
    }
  }

  lemma RowOnPage(rows: seq<string>, i: nat)
    requires i < |rows| <= LINES_PER_PAGE && |rows[i]| <= MAX_COLS
    ensures OnPage(SheetOf(rows), SheetOf(rows).rows[i], 40)
  {
    PlacedAt(rows, MARGIN, PAGE_H - MARGIN, LEADING, i);
  }

  lemma {:induction false} PageRowsFit(rows: seq<string>, k: nat)
    requires k < |PageBreaks(rows)| && forall j :: 0 <= j < |rows| ==> |rows[j]| <= MAX_COLS
    ensures forall j :: 0 <= j < |PageBreaks(rows)[k]| ==> |PageBreaks(rows)[k][j]| <= MAX_COLS
    decreases |rows|
  {
    if |rows| > LINES_PER_PAGE && k > 0 { PageRowsFit(rows[LINES_PER_PAGE..], k - 1); }
  }
}
