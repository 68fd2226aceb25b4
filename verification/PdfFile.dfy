/** The file structure of the PDF export (server/bbz_core/api/pdf.py): numbered objects,
    their byte offsets, the cross-reference table and the trailer, with a reader that
    follows sections 7.5.4 and 7.5.5 of ISO 32000-1. */
module PdfFile {
  import opened Wrappers
  import opened Decimal
  import opened Templates

  /** The fixed text of the file format; templates have a number between any two pieces. */
  datatype Syntax = Syntax(header: string, obj: seq<string>, endObject: string, xref: seq<string>,
    free: string, inUse: string, trailer: seq<string>, startKey: string, eof: string)

  const PDF_TEXT: Syntax := Syntax(
    "%PDF-1.4\n%\U{e2}\U{e3}\U{cf}\U{d3}\n",
    ["", " 0 obj\n"],
    "\nendobj\n",
    ["xref\n0 ", "\n"],
    "0000000000 65535 f \n",
    " 00000 n \n",
    ["trailer\n<< /Size ", " /Root ", " 0 R >>\n"],
    "startxref\n",
    "\n%%EOF")

  /** What reading back relies on: numbers end where their neighbours start, and a table
      entry is ten digits and ten other bytes. */
  predicate Readable(f: Syntax) {
    && |f.obj| == 2 && |f.xref| == 2 && |f.trailer| == 3
    && Separates(f.obj) && Separates(f.xref) && Separates(f.trailer)
    && f.startKey != "" && !IsDigit(f.startKey[|f.startKey| - 1])
    && |f.free| == 20 && |f.inUse| == 10 && !IsDigit(f.inUse[0])
  }

  type Format = f: Syntax | Readable(f) witness PDF_TEXT

  const PDF: Format := PDF_TEXT

  // ---- the file ----------------------------------------------------------------------------

  function ObjectText(f: Format, number: nat, obj: string): string {
    Fill(f.obj, [number]) + (obj + f.endObject)
  }

  /** The header and the first `n` objects, numbered from one. */
  function Upto(f: Format, objects: seq<string>, n: nat): string
    requires n <= |objects|
  {
    if n == 0 then f.header else Upto(f, objects, n - 1) + ObjectText(f, n, objects[n - 1])
  }

  /** Byte position of object `i`. */
  function Position(f: Format, objects: seq<string>, i: nat): nat
    requires 1 <= i <= |objects|
  {
    |Upto(f, objects, i - 1)|
  }

  function Entry(f: Format, offset: nat): string {
    Padded(offset) + f.inUse
  }

  /** Texts one after the other, numbered from one. */
  function Chain(part: nat -> string, n: nat): string {
    if n == 0 then "" else Chain(part, n - 1) + part(n)
  }

  function EntryOf(f: Format, objects: seq<string>): nat -> string {
    k => if 1 <= k <= |objects| then Entry(f, Position(f, objects, k)) else ""
  }

  /** The table's entries for the first `n` objects. */
  function Entries(f: Format, objects: seq<string>, n: nat): string {
    Chain(EntryOf(f, objects), n)
  }

  function Trailer(f: Format, objects: seq<string>, root: nat): string {
    Fill(f.trailer, [|objects| + 1, root]) + (f.startKey + (Dec(|Upto(f, objects, |objects|)|) + f.eof))
  }

  /** Everything after the objects. */
  function Tail(f: Format, objects: seq<string>, root: nat): string {
    Fill(f.xref, [|objects| + 1]) + (f.free + Entries(f, objects, |objects|) + Trailer(f, objects, root))
  }

  function Document(f: Format, objects: seq<string>, root: nat): string {
    Upto(f, objects, |objects|) + Tail(f, objects, root)
  }

  /** The objects one after the other, noting where each starts. */
  method WriteObjects(f: Format, objects: seq<string>) returns (out: string, offsets: seq<nat>)
    ensures out == Upto(f, objects, |objects|) && |offsets| == |objects|
    ensures forall k :: 0 <= k < |offsets| ==> offsets[k] == Position(f, objects, k + 1)
  {
    out := f.header;
    offsets := [];
    for i := 0 to |objects|
      invariant out == Upto(f, objects, i) && |offsets| == i
      invariant forall k :: 0 <= k < i ==> offsets[k] == Position(f, objects, k + 1)
    {
      offsets := offsets + [|out|];
      out := out + ObjectText(f, i + 1, objects[i]);
    }
  }

  /** The table's in-use entries. */
  method WriteEntries(f: Format, out: string, offsets: seq<nat>, ghost objects: seq<string>)
    returns (all: string)
    requires |offsets| == |objects|
    requires forall k :: 0 <= k < |offsets| ==> offsets[k] == Position(f, objects, k + 1)
    ensures all == out + Entries(f, objects, |objects|)
  {
    all := out;
    assert out == out + "";
    for i := 0 to |offsets|
      invariant all == out + Entries(f, objects, i)
    {
      RightGrouped(out, Entries(f, objects, i), Entry(f, offsets[i]));
      all := all + Entry(f, offsets[i]);
    }
  }

  /** The second half of `render_text_pdf`: objects with their offsets, then the table. */
  method WriteDocument(f: Format, objects: seq<string>, root: nat) returns (out: string)
    ensures out == Document(f, objects, root)
  {
    var offsets;
    out, offsets := WriteObjects(f, objects);
    var xref := |out|;
    ghost var body := out;
    var head := Fill(f.xref, [|objects| + 1]);
    out := out + head + f.free;
    out := WriteEntries(f, out, offsets, objects);
    var end := Fill(f.trailer, [|objects| + 1, root]) + (f.startKey + (Dec(xref) + f.eof));
    out := out + end;
    Grouped(body, head, f.free, Entries(f, objects, |objects|), end);
  }

  lemma Grouped(a: string, b: string, c: string, d: string, e: string)
    ensures a + b + c + d + e == a + (b + (c + d + e))
  {
  }

  // ---- the reader --------------------------------------------------------------------------

  predicate EndsWith(s: string, end: string) {
    |s| >= |end| && s[|s| - |end|..] == end
  }

  /** The number between the startxref keyword and the end-of-file marker. */
  function StartXref(f: Format, doc: string): Option<nat> {
    if EndsWith(doc, f.eof) then NumberAfter(doc[..|doc| - |f.eof|], f.startKey) else None
  }

  /** The number a text ends with, if it follows the keyword. */
  function NumberAfter(s: string, key: string): Option<nat> {
    var digits := TrailingDigits(s);
    if digits == "" || !EndsWith(s[..|s| - |digits|], key) then None else Some(ValueOf(digits))
  }

  /** The table's size and the text from its first entry, that of the free list, on. */
  function Table(f: Format, doc: string): Option<(nat, string)> {
    var start := StartXref(f, doc);
    if start.None? || start.value > |doc| then None
    else
      var head := Scan(f.xref, doc[start.value..]);
      if head.None? || |head.value.0| != 1 || !(f.free <= head.value.1) then None
      else Some((head.value.0[0], head.value.1))
  }

  /** Entries are exactly 20 bytes, so entry `i` is read without reading the others. */
  function EntryOffset(f: Format, table: string, i: nat): Option<nat> {
    if 20 * i + 20 > |table| then None
    else
      var entry := table[20 * i..20 * i + 20];
      if AllDigits(entry[..10]) && entry[10..] == f.inUse then Some(ValueOf(entry[..10])) else None
  }

  /** What follows the header of object `i`. */
  function ObjectAt(f: Format, doc: string, i: nat): Option<string> {
    var table := Table(f, doc);
    if table.None? || i >= table.value.0 then None
    else
      var offset := EntryOffset(f, table.value.1, i);
      if offset.None? || offset.value > |doc| then None
      else
        var head := Scan(f.obj, doc[offset.value..]);
        if head.None? || head.value.0 != [i] then None else Some(head.value.1)
  }

  /** The catalog's number, from the trailer after the table. */
  function Root(f: Format, doc: string): Option<nat> {
    var table := Table(f, doc);
    if table.None? || 20 * table.value.0 > |table.value.1| then None
    else
      var trailer := Scan(f.trailer, table.value.1[20 * table.value.0..]);
      if trailer.None? || |trailer.value.0| != 2 || trailer.value.0[0] != table.value.0 then None
      else Some(trailer.value.0[1])
  }

  // ---- the file reads back --------------------------------------------------------------------

  lemma DocumentEnds(f: Format, objects: seq<string>, root: nat) returns (front: string)
    ensures Document(f, objects, root) == front + Trailer(f, objects, root)
  {
    var body, head := Upto(f, objects, |objects|), Fill(f.xref, [|objects| + 1]);
    front := body + head + f.free + Entries(f, objects, |objects|);
    Grouped(body, head, f.free, Entries(f, objects, |objects|), Trailer(f, objects, root));
  }

  /** The table is where the trailer says it is. */
  lemma StartXrefIsTable(f: Format, objects: seq<string>, root: nat)
    ensures StartXref(f, Document(f, objects, root)) == Some(|Upto(f, objects, |objects|)|)
  {
    var front := DocumentEnds(f, objects, root);
    var fill, n := Fill(f.trailer, [|objects| + 1, root]), |Upto(f, objects, |objects|)|;
    RightGrouped(front, fill, f.startKey + (Dec(n) + f.eof));
    FindsStart(f, front + fill, n);
  }

  lemma FindsStart(f: Format, front: string, n: nat)
    ensures StartXref(f, front + (f.startKey + (Dec(n) + f.eof))) == Some(n)
  {
    var doc, body := front + (f.startKey + (Dec(n) + f.eof)), front + f.startKey + Dec(n);
    assert doc == body + f.eof;
    assert doc[..|doc| - |f.eof|] == body && EndsWith(doc, f.eof);
    FindsNumber(front, f.startKey, n);
  }

  lemma FindsNumber(front: string, key: string, n: nat)
    requires key != "" && !IsDigit(key[|key| - 1])
    ensures NumberAfter(front + key + Dec(n), key) == Some(n)
  {
    var init, last := front + key[..|key| - 1], key[|key| - 1];
    assert front + key == init + [last];
    TrailingDigitsOf(init, last, Dec(n));
    assert (front + key + Dec(n))[..|front + key|] == front + key;
    assert EndsWith(front + key, key);
    ValueOfDec(n);
  }

  lemma TableReadsBack(f: Format, objects: seq<string>, root: nat)
    ensures Table(f, Document(f, objects, root)) ==
      Some((|objects| + 1, f.free + Entries(f, objects, |objects|) + Trailer(f, objects, root)))
  {
    var doc, body := Document(f, objects, root), Upto(f, objects, |objects|);
    StartXrefIsTable(f, objects, root);
    assert doc[|body|..] == Tail(f, objects, root);
    var table := f.free + Entries(f, objects, |objects|) + Trailer(f, objects, root);
    ScanInvertsFill(f.xref, [|objects| + 1], table);
    PrefixGrows(f.free, f.free, Entries(f, objects, |objects|));
    PrefixGrows(f.free, f.free + Entries(f, objects, |objects|), Trailer(f, objects, root));
  }

  /** A table entry is 20 bytes, and so readable, exactly when its offset has ten digits. */
  lemma EntrySize(f: Format, offset: nat)
    ensures |Entry(f, offset)| == 20 <==> offset < Pow10(10)
    ensures |Entry(f, offset)| >= 20
  {
    PaddedDecodes(offset);
  }

  lemma {:induction false} PositionsIncrease(f: Format, objects: seq<string>, i: nat, j: nat)
    requires 1 <= i <= j <= |objects|
    ensures Position(f, objects, i) <= Position(f, objects, j)
    decreases j
  {
    if i < j { PositionsIncrease(f, objects, i, j - 1); }
  }

  /** The first `n` objects start at positions of at most ten digits. */
  predicate Fits(f: Format, objects: seq<string>, n: nat)
    requires n <= |objects|
  {
    n == 0 || Position(f, objects, n) < Pow10(10)
  }

  lemma EntriesFit(f: Format, objects: seq<string>, n: nat)
    requires n <= |objects| && Fits(f, objects, n)
    ensures forall k :: 1 <= k <= n ==> |EntryOf(f, objects)(k)| == 20
  {
    forall k | 1 <= k <= n ensures |EntryOf(f, objects)(k)| == 20 {
      PositionsIncrease(f, objects, k, n);
      EntrySize(f, Position(f, objects, k));
    }
  }

  lemma {:induction false} ChainLength(part: nat -> string, n: nat)
    requires forall k :: 1 <= k <= n ==> |part(k)| == 20
    ensures |Chain(part, n)| == 20 * n
  {
    if n > 0 { ChainLength(part, n - 1); }
  }

  lemma EntriesAligned(f: Format, objects: seq<string>, n: nat)
    requires n <= |objects| && Fits(f, objects, n)
    ensures |Entries(f, objects, n)| == 20 * n
  {
    EntriesFit(f, objects, n);
    ChainLength(EntryOf(f, objects), n);
  }

  lemma PrefixGrows(a: string, b: string, c: string)
    requires a <= b
    ensures a <= b + c
  {
  }

  lemma {:induction false} ChainSplits(part: nat -> string, i: nat, n: nat) returns (more: string)
    requires 1 <= i <= n
    ensures Chain(part, n) == Chain(part, i - 1) + (part(i) + more)
  {
    if i == n {
      more := "";
      assert part(i) + "" == part(i);
    } else {
      var some := ChainSplits(part, i, n - 1);
      more := some + part(n);
      RightGrouped(Chain(part, i - 1), part(i) + some, part(n));
      RightGrouped(part(i), some, part(n));
    }
  }

  /** Part `i` of parts of 20 bytes, between two other texts. */
  lemma ChainAround(part: nat -> string, i: nat, n: nat, front: string, rest: string)
    returns (before: string, more: string)
    requires 1 <= i <= n && |front| == 20 && forall k :: 1 <= k < i ==> |part(k)| == 20
    ensures |before| == 20 * i && front + Chain(part, n) + rest == before + (part(i) + more)
  {
    var some := ChainSplits(part, i, n);
    before, more := front + Chain(part, i - 1), some + rest;
    Around(front, Chain(part, i - 1), part(i), some, rest);
    ChainLength(part, i - 1);
  }

  lemma Around(front: string, before: string, entry: string, after: string, rest: string)
    ensures front + (before + (entry + after)) + rest == (front + before) + (entry + (after + rest))
  {
  }

  /** Reading entry `i` when all before it are aligned: its position if it fits, else nothing. */
  lemma EntryReadsBack(f: Format, objects: seq<string>, i: nat, rest: string)
    requires 1 <= i <= |objects|
    requires Fits(f, objects, i - 1)
    ensures EntryOffset(f, f.free + Entries(f, objects, |objects|) + rest, i) ==
      if Position(f, objects, i) < Pow10(10) then Some(Position(f, objects, i)) else None
  {
    EntriesFit(f, objects, i - 1);
    var front, more := ChainAround(EntryOf(f, objects), i, |objects|, f.free, rest);
    ReadsEntry(f, f.free + Entries(f, objects, |objects|) + rest, front, Position(f, objects, i), more, i);
  }

  lemma ReadsEntry(f: Format, table: string, front: string, offset: nat, more: string, i: nat)
    requires |front| == 20 * i && table == front + (Entry(f, offset) + more)
    ensures EntryOffset(f, table, i) == if offset < Pow10(10) then Some(offset) else None
  {
    EntrySize(f, offset);
    assert table[20 * i..20 * i + 20] == Entry(f, offset)[..20];
    PaddedDecodes(offset);
    EntryHead(Padded(offset), f.inUse);
  }

  /** The first 20 bytes of an entry whose number has ten or more digits. */
  lemma EntryHead(digits: string, rest: string)
    requires AllDigits(digits) && |digits| >= 10 && |rest| == 10 && !IsDigit(rest[0])
    ensures var entry := (digits + rest)[..20];
      && AllDigits(entry[..10])
      && (|digits| == 10 ==> entry[..10] == digits && entry[10..] == rest)
      && (|digits| > 10 ==> entry[10..] != rest)
  {
    var entry := (digits + rest)[..20];
    assert entry[..10] == digits[..10];
    if |digits| > 10 {
      assert entry[10..][0] == digits[10];
    }
  }

  lemma {:induction false} UptoPrefix(f: Format, objects: seq<string>, i: nat, n: nat)
    requires i <= n <= |objects|
    ensures Upto(f, objects, i) <= Upto(f, objects, n)
  {
    if i < n {
      UptoPrefix(f, objects, i, n - 1);
      PrefixGrows(Upto(f, objects, i), Upto(f, objects, n - 1), ObjectText(f, n, objects[n - 1]));
    }
  }

  lemma StartsWithHeader(f: Format, objects: seq<string>, root: nat)
    ensures f.header <= Document(f, objects, root)
  {
    UptoPrefix(f, objects, 0, |objects|);
    PrefixGrows(f.header, Upto(f, objects, |objects|), Tail(f, objects, root));
  }

  /** What stands at an object's position. */
  lemma AtPosition(f: Format, objects: seq<string>, root: nat, i: nat) returns (rest: string)
    requires 1 <= i <= |objects|
    ensures Position(f, objects, i) <= |Document(f, objects, root)|
    ensures Document(f, objects, root)[Position(f, objects, i)..] ==
      Fill(f.obj, [i]) + (objects[i - 1] + f.endObject + rest)
  {
    UptoPrefix(f, objects, i, |objects|);
    var doc := Document(f, objects, root);
    rest := doc[|Upto(f, objects, i)|..];
    Splits(doc, Upto(f, objects, i - 1), ObjectText(f, i, objects[i - 1]));
    RightGrouped(Fill(f.obj, [i]), objects[i - 1] + f.endObject, rest);
  }

  lemma RightGrouped(a: string, b: string, c: string)
    ensures a + b + c == a + (b + c)
  {
  }

  lemma Splits(doc: string, a: string, b: string)
    requires a + b <= doc
    ensures |a| <= |doc| && doc[|a|..] == b + doc[|a + b|..]
  {
    assert doc == a + b + doc[|a + b|..];
  }

  predicate Holds(f: Format, doc: string, i: nat, obj: string) {
    ObjectAt(f, doc, i).Some? && obj + f.endObject <= ObjectAt(f, doc, i).value
  }

  /** An object whose position, and so every earlier one, has ten digits is found. */
  lemma ObjectReadsBack(f: Format, objects: seq<string>, root: nat, i: nat)
    requires i < |objects| && Position(f, objects, i + 1) < Pow10(10)
    ensures Holds(f, Document(f, objects, root), i + 1, objects[i])
  {
    if i > 0 { PositionsIncrease(f, objects, i, i + 1); }
    var doc := Document(f, objects, root);
    var rest := AtPosition(f, objects, root, i + 1);
    EntryFound(f, objects, root, i + 1);
    HoldsAt(f, doc, i + 1, Position(f, objects, i + 1), objects[i], rest);
  }

  lemma HoldsAt(f: Format, doc: string, i: nat, offset: nat, obj: string, rest: string)
    requires Table(f, doc).Some? && i < Table(f, doc).value.0
    requires EntryOffset(f, Table(f, doc).value.1, i) == Some(offset) && offset <= |doc|
    requires doc[offset..] == Fill(f.obj, [i]) + (obj + f.endObject + rest)
    ensures Holds(f, doc, i, obj)
  {
    ScanInvertsFill(f.obj, [i], obj + f.endObject + rest);
    PrefixGrows(obj + f.endObject, obj + f.endObject, rest);
  }

  lemma EntryFound(f: Format, objects: seq<string>, root: nat, i: nat)
    requires 1 <= i <= |objects|
    requires Fits(f, objects, i - 1)
    ensures var table := Table(f, Document(f, objects, root));
      && table.Some? && table.value.0 == |objects| + 1
      && EntryOffset(f, table.value.1, i) ==
           if Position(f, objects, i) < Pow10(10) then Some(Position(f, objects, i)) else None
  {
    TableReadsBack(f, objects, root);
    EntryReadsBack(f, objects, i, Trailer(f, objects, root));
  }

  predicate AllFound(f: Format, objects: seq<string>, root: nat) {
    forall i :: 0 <= i < |objects| ==> Holds(f, Document(f, objects, root), i + 1, objects[i])
  }

  lemma {:induction false} FirstLong(f: Format, objects: seq<string>, n: nat) returns (i: nat)
    requires 1 <= n <= |objects| && Position(f, objects, n) >= Pow10(10)
    ensures 1 <= i <= n && Position(f, objects, i) >= Pow10(10)
    ensures i == 1 || Position(f, objects, i - 1) < Pow10(10)
  {
    if n == 1 || Position(f, objects, n - 1) < Pow10(10) {
      i := n;
    } else {
      i := FirstLong(f, objects, n - 1);
    }
  }

  lemma ShortAllFound(f: Format, objects: seq<string>, root: nat)
    requires objects != [] && Position(f, objects, |objects|) < Pow10(10)
    ensures AllFound(f, objects, root)
  {
    forall i | 0 <= i < |objects| ensures Holds(f, Document(f, objects, root), i + 1, objects[i]) {
      PositionsIncrease(f, objects, i + 1, |objects|);
      ObjectReadsBack(f, objects, root, i);
    }
  }

  lemma LongNotFound(f: Format, objects: seq<string>, root: nat, i: nat)
    requires 1 <= i <= |objects| && Position(f, objects, i) >= Pow10(10)
    requires Fits(f, objects, i - 1)
    ensures ObjectAt(f, Document(f, objects, root), i) == None
  {
    EntryFound(f, objects, root, i);
  }

  /** Every object is found through the table exactly when the last one starts before byte
      ten to the ten. */
  lemma AllObjectsFound(f: Format, objects: seq<string>, root: nat)
    requires objects != []
    ensures AllFound(f, objects, root) <==> Position(f, objects, |objects|) < Pow10(10)
  {
    if Position(f, objects, |objects|) < Pow10(10) {
      ShortAllFound(f, objects, root);
    } else {
      var i := FirstLong(f, objects, |objects|);
      LongNotFound(f, objects, root, i);
      assert !Holds(f, Document(f, objects, root), (i - 1) + 1, objects[i - 1]);
    }
  }

  /** The trailer after the table names the root. */
  lemma RootReadsBack(f: Format, objects: seq<string>, root: nat)
    requires objects != [] && Position(f, objects, |objects|) < Pow10(10)
    ensures Root(f, Document(f, objects, root)) == Some(root)
  {
    TableReadsBack(f, objects, root);
    EntriesAligned(f, objects, |objects|);
    var table := f.free + Entries(f, objects, |objects|) + Trailer(f, objects, root);
    assert table[20 * (|objects| + 1)..] == Trailer(f, objects, root);
    ScanInvertsFill(f.trailer, [|objects| + 1, root],
      f.startKey + (Dec(|Upto(f, objects, |objects|)|) + f.eof));
  }
}
