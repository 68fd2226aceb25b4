/** The objects of an exported document (server/bbz_core/api/pdf.py:48-78) and a reader
    that follows the references from the trailer down to the text of every page. */
module PdfDocument {
  import opened Wrappers
  import opened Decimal
  import opened Templates
  import opened PdfText
  import opened PdfFile

  /** The fixed text of the objects. */
  datatype Dictionaries = Dictionaries(font: string, stream: seq<string>, endStream: string,
    page: seq<string>, pages: seq<string>, endPages: string, catalog: seq<string>)

  /** Courier text on Letter pages. */
  function PdfDictionaries(): (g: Dictionaries)
    ensures Legible(g)
  {
    var page := ["<< /Type /Page /Parent ", " 0 R /MediaBox [0 0 ", " ", "] /Resources << /Font << /F1 ",
                 " 0 R >> >> /Contents ", " 0 R >>"];
    Dictionaries(
      "<< /Type /Font /Subtype" + " /Type1 /BaseFont /Courier >>",
      ["<< /Length ", " >>\nstream\n"],
      "\nendstream",
      page,
      ["<< /Type /Pages /Count ", " /Kids ["],
      "] >>",
      ["<< /Type /Catalog /Pages ", " 0 R >>"])
  }

  predicate Legible(g: Dictionaries) {
    && |g.stream| == 2 && |g.page| == 6 && |g.pages| == 2 && |g.catalog| == 2
    && Separates(g.stream) && Separates(g.page) && Separates(g.pages) && Separates(g.catalog)
    && g.endPages != "" && g.endPages[0] != ' '
  }

  type Phrases = g: Dictionaries | Legible(g) witness PdfDictionaries()

  const PHRASES: Phrases := PdfDictionaries()

  // ---- the objects -------------------------------------------------------------------------

  const FONT: nat := 1
  const PAGES: nat := 2

  function StreamObject(g: Phrases, stream: string): string {
    Fill(g.stream, [|stream|]) + (stream + g.endStream)
  }

  function PageObject(g: Phrases, content: nat): string {
    Fill(g.page, [PAGES, PAGE_W, PAGE_H, FONT, content])
  }

  function PagesObject(g: Phrases, kids: seq<nat>): string {
    Fill(g.pages, [|kids|]) + (References(kids) + g.endPages)
  }

  function CatalogObject(g: Phrases): string {
    Fill(g.catalog, [PAGES])
  }

  /** The number of page `k`, counted from zero; its content is the object before it. */
  function PageNumber(k: nat): nat {
    4 + 2 * k
  }

  function Kids(n: nat): (kids: seq<nat>)
    ensures |kids| == n
  {
    if n == 0 then [] else Kids(n - 1) + [PageNumber(n - 1)]
  }

  /** A content and a page object for each stream. */
  function PageObjects(g: Phrases, streams: seq<string>): (objects: seq<string>)
    ensures |objects| == 2 * |streams|
  {
    if streams == [] then []
    else
      var n := |streams| - 1;
      PageObjects(g, streams[..n]) + [StreamObject(g, streams[n]), PageObject(g, PageNumber(n) - 1)]
  }

  lemma {:induction false} PageObjectsAt(g: Phrases, streams: seq<string>, k: nat)
    requires k < |streams|
    ensures PageObjects(g, streams)[2 * k] == StreamObject(g, streams[k])
    ensures PageObjects(g, streams)[2 * k + 1] == PageObject(g, PageNumber(k) - 1)
    decreases |streams|
  {
    var n := |streams| - 1;
    if k < n {
      PageObjectsAt(g, streams[..n], k);
      assert |PageObjects(g, streams[..n])| == 2 * n;
    }
  }

  function Objects(g: Phrases, streams: seq<string>): seq<string> {
    [g.font, PagesObject(g, Kids(|streams|))] + PageObjects(g, streams) + [CatalogObject(g)]
  }

  function Streams(pages: seq<seq<string>>): (streams: seq<string>)
    ensures |streams| == |pages|
  {
    if pages == [] then []
    else Streams(pages[..|pages| - 1]) + [ContentStream(pages[|pages| - 1])]
  }

  lemma StreamsNext(pages: seq<seq<string>>, i: nat, stream: string)
    requires i < |pages| && stream == ContentStream(pages[i])
    ensures Streams(pages[..i + 1]) == Streams(pages[..i]) + [stream]
  {
    assert pages[..i + 1][..i] == pages[..i];
  }

  /** The exported file of a text given as its lines. */
  function Rendered(f: Format, g: Phrases, lines: seq<string>): string {
    var objects := Objects(g, Streams(Pages(lines)));
    Document(f, objects, |objects|)
  }

  /** The objects of the pages, numbered as they are added, and the page numbers. */
  method AddPages(g: Phrases, first: seq<string>, pages: seq<seq<string>>)
    returns (objects: seq<string>, kids: seq<nat>)
    requires |first| == 2
    ensures objects == first + PageObjects(g, Streams(pages)) && kids == Kids(|pages|)
  {
    objects, kids := first, [];
    ghost var added: seq<string> := [];
    for i := 0 to |pages|
      invariant kids == Kids(i) && added == Streams(pages[..i])
      invariant objects == first + PageObjects(g, added)
    {
      var stream := BuildStream(pages[i]);
      StreamsNext(pages, i, stream);
      AddsPage(g, added, stream, first);
      objects := AddPage(g, objects, stream);
      kids := kids + [|objects|];
      added := added + [stream];
    }
    assert pages[..|pages|] == pages;
  }

  /** A content stream, and a page that refers to it by its number. */
  method AddPage(g: Phrases, objects: seq<string>, stream: string) returns (more: seq<string>)
    ensures more == objects + [StreamObject(g, stream)] + [PageObject(g, |objects| + 1)]
  {
    more := objects + [StreamObject(g, stream)];
    var content := |more|;
    more := more + [PageObject(g, content)];
  }

  /** The object list of `render_text_pdf`: the reserved Pages object is filled in once the
      page numbers are known. */
  method BuildObjects(g: Phrases, pages: seq<seq<string>>) returns (objects: seq<string>, root: nat)
    ensures objects == Objects(g, Streams(pages)) && root == |objects|
  {
    var kids;
    objects, kids := AddPages(g, [g.font, ""], pages);
    Patched(g.font, PagesObject(g, kids), PageObjects(g, Streams(pages)));
    objects := objects[PAGES - 1 := PagesObject(g, kids)];
    objects := objects + [CatalogObject(g)];
    root := |objects|;
  }

  lemma Patched(a: string, b: string, rest: seq<string>)
    ensures ([a, ""] + rest)[1 := b] == [a, b] + rest
  {
  }

  lemma AddsPage(g: Phrases, streams: seq<string>, stream: string, front: seq<string>)
    requires |front| == 2
    ensures var objects := front + PageObjects(g, streams) + [StreamObject(g, stream)];
      && |objects| == PageNumber(|streams|) - 1
      && objects + [PageObject(g, |objects|)] == front + PageObjects(g, streams + [stream])
  {
    assert (streams + [stream])[..|streams|] == streams;
    Appends(front, PageObjects(g, streams), StreamObject(g, stream),
      PageObject(g, PageNumber(|streams|) - 1));
  }

  lemma Appends(a: seq<string>, b: seq<string>, x: string, y: string)
    ensures a + b + [x] + [y] == a + (b + [x, y])
  {
  }

  /** `render_text_pdf` on the lines of the text. */
  method RenderTextPdf(lines: seq<string>) returns (out: string)
    ensures out == Rendered(PDF, PHRASES, lines)
  {
    var wrapped := Wrap(if lines == [] then [""] else lines);
    var pages := if wrapped == [] then [[""]] else PageBreaks(wrapped);
    var objects, root := BuildObjects(PHRASES, pages);
    out := WriteDocument(PDF, objects, root);
  }

  // ---- the reader --------------------------------------------------------------------------

  /** The bytes of a stream object: as many as its length entry says, then the end marks. */
  function ReadStream(f: Format, g: Phrases, doc: string, i: nat): Option<string> {
    var obj := ObjectAt(f, doc, i);
    if obj.None? then None
    else
      var head := Scan(g.stream, obj.value);
      if head.None? || |head.value.0| != 1 || head.value.0[0] > |head.value.1| then None
      else
        var length, rest := head.value.0[0], head.value.1;
        if g.endStream + f.endObject <= rest[length..] then Some(rest[..length]) else None
  }

  /** A page as it is read: the size of its MediaBox, and its content stream. */
  datatype Leaf = Leaf(width: nat, height: nat, stream: string)

  /** A page, which must name its parent and a font object. */
  function ReadPage(f: Format, g: Phrases, doc: string, i: nat, parent: nat): Option<Leaf> {
    var obj := ObjectAt(f, doc, i);
    if obj.None? then None
    else
      var head := Scan(g.page, obj.value);
      if head.None? || |head.value.0| != 5 || !(f.endObject <= head.value.1) then None
      else
        var n := head.value.0;
        if n[0] != parent || !Holds(f, doc, n[3], g.font) then None
        else WithBox(n[1], n[2], ReadStream(f, g, doc, n[4]))
  }

  function WithBox(width: nat, height: nat, stream: Option<string>): Option<Leaf> {
    if stream.None? then None else Some(Leaf(width, height, stream.value))
  }

  /** All values, if each is there. */
  function Collect(parts: seq<Option<Leaf>>): Option<seq<Leaf>> {
    if parts == [] then Some([])
    else
      var front, last := Collect(parts[..|parts| - 1]), parts[|parts| - 1];
      if front.None? || last.None? then None else Some(front.value + [last.value])
  }

  function ReadAll(f: Format, g: Phrases, doc: string, kids: seq<nat>, parent: nat): Option<seq<Leaf>> {
    Collect(seq(|kids|, i requires 0 <= i < |kids| => ReadPage(f, g, doc, kids[i], parent)))
  }

  /** The page tree: the number of pages and where they are. */
  function ReadKids(f: Format, g: Phrases, doc: string, pages: nat): Option<seq<nat>> {
    var obj := ObjectAt(f, doc, pages);
    if obj.None? then None else KidsIn(f, g, obj.value)
  }

  function KidsIn(f: Format, g: Phrases, text: string): Option<seq<nat>> {
    var head := Scan(g.pages, text);
    if head.None? || |head.value.0| != 1 then None
    else KidsListed(g.endPages + f.endObject, head.value.0[0], head.value.1)
  }

  function KidsListed(end: string, count: nat, text: string): Option<seq<nat>> {
    var kids := ReadReferences(text);
    if kids.None? || |kids.value.0| != count || !(end <= kids.value.1) then None else Some(kids.value.0)
  }

  /** The page tree the document's root leads to. */
  function ReadCatalog(f: Format, g: Phrases, doc: string): Option<nat> {
    var root := Root(f, doc);
    if root.None? then None
    else
      var obj := ObjectAt(f, doc, root.value);
      if obj.None? then None
      else
        var head := Scan(g.catalog, obj.value);
        if head.None? || |head.value.0| != 1 || !(f.endObject <= head.value.1) then None
        else Some(head.value.0[0])
  }

  /** All pages, in order. */
  function ReadDocument(f: Format, g: Phrases, doc: string): Option<seq<Leaf>> {
    var pages := ReadCatalog(f, g, doc);
    if pages.None? || !(f.header <= doc) then None
    else
      var kids := ReadKids(f, g, doc, pages.value);
      if kids.None? then None else ReadAll(f, g, doc, kids.value, pages.value)
  }

  // ---- every object reads back ------------------------------------------------------------

  lemma Rest(f: Format, doc: string, i: nat, obj: string) returns (rest: string)
    requires Holds(f, doc, i, obj)
    ensures ObjectAt(f, doc, i) == Some(obj + (f.endObject + rest))
  {
    rest := ObjectAt(f, doc, i).value[|obj + f.endObject|..];
    assert ObjectAt(f, doc, i).value == obj + f.endObject + rest;
    RightGrouped(obj, f.endObject, rest);
  }

  lemma StreamReadsBack(f: Format, g: Phrases, doc: string, i: nat, stream: string)
    requires Holds(f, doc, i, StreamObject(g, stream))
    ensures ReadStream(f, g, doc, i) == Some(stream)
  {
    var rest := Rest(f, doc, i, StreamObject(g, stream));
    var after := g.endStream + f.endObject + rest;
    FourGrouped(Fill(g.stream, [|stream|]), stream, g.endStream, f.endObject, rest);
    ScanInvertsFill(g.stream, [|stream|], stream + after);
    assert (stream + after)[..|stream|] == stream && (stream + after)[|stream|..] == after;
    assert g.endStream + f.endObject <= after;
  }

  lemma FourGrouped(a: string, b: string, c: string, d: string, e: string)
    ensures a + (b + c) + (d + e) == a + (b + (c + d + e))
  {
  }

  /** A page of the writer's size. */
  function Letter(stream: string): Leaf {
    Leaf(PAGE_W, PAGE_H, stream)
  }

  function Letters(streams: seq<string>): (leaves: seq<Leaf>)
    ensures |leaves| == |streams| && forall i :: 0 <= i < |streams| ==> leaves[i] == Letter(streams[i])
  {
    seq(|streams|, i requires 0 <= i < |streams| => Letter(streams[i]))
  }

  lemma PageReadsBack(f: Format, g: Phrases, doc: string, i: nat, content: nat, stream: string)
    requires Holds(f, doc, i, PageObject(g, content))
    requires Holds(f, doc, FONT, g.font)
    requires Holds(f, doc, content, StreamObject(g, stream))
    ensures ReadPage(f, g, doc, i, PAGES) == Some(Letter(stream))
  {
    var rest := Rest(f, doc, i, PageObject(g, content));
    ScanInvertsFill(g.page, [PAGES, PAGE_W, PAGE_H, FONT, content], f.endObject + rest);
    assert f.endObject <= f.endObject + rest;
    StreamReadsBack(f, g, doc, content, stream);
  }

  lemma KidsReadBack(f: Format, g: Phrases, doc: string, kids: seq<nat>)
    requires kids != [] && Holds(f, doc, PAGES, PagesObject(g, kids))
    ensures ReadKids(f, g, doc, PAGES) == Some(kids)
  {
    var rest := Rest(f, doc, PAGES, PagesObject(g, kids));
    FourGrouped(Fill(g.pages, [|kids|]), References(kids), g.endPages, f.endObject, rest);
    KidsInReads(f, g, kids, rest);
  }

  lemma KidsInReads(f: Format, g: Phrases, kids: seq<nat>, rest: string)
    requires kids != []
    ensures KidsIn(f, g, Fill(g.pages, [|kids|]) + (References(kids) + (g.endPages + f.endObject + rest))) == Some(kids)
  {
    ScanInvertsFill(g.pages, [|kids|], References(kids) + (g.endPages + f.endObject + rest));
    assert (g.endPages + f.endObject)[0] == g.endPages[0];
    KidsListedRead(kids, g.endPages + f.endObject, rest);
  }

  lemma KidsListedRead(kids: seq<nat>, end: string, rest: string)
    requires kids != [] && end != "" && end[0] != ' '
    ensures KidsListed(end, |kids|, References(kids) + (end + rest)) == Some(kids)
  {
    ReferencesReadBack(kids, end + rest);
    PrefixGrows(end, end, rest);
  }

  lemma CatalogReadsBack(f: Format, g: Phrases, doc: string, root: nat)
    requires Root(f, doc) == Some(root) && Holds(f, doc, root, CatalogObject(g))
    ensures ReadCatalog(f, g, doc) == Some(PAGES)
  {
    var rest := Rest(f, doc, root, CatalogObject(g));
    ScanInvertsFill(g.catalog, [PAGES], f.endObject + rest);
    assert f.endObject <= f.endObject + rest;
  }

  /** A page and its content are found under the numbers that refer to them. */
  predicate PageFound(f: Format, g: Phrases, doc: string, k: nat, stream: string) {
    && Holds(f, doc, PageNumber(k), PageObject(g, PageNumber(k) - 1))
    && Holds(f, doc, PageNumber(k) - 1, StreamObject(g, stream))
  }

  predicate PagesFound(f: Format, g: Phrases, doc: string, streams: seq<string>) {
    forall k :: 0 <= k < |streams| ==> PageFound(f, g, doc, k, streams[k])
  }

  lemma {:induction false} CollectsAll(parts: seq<Option<Leaf>>, values: seq<Leaf>)
    requires |parts| == |values| && forall k :: 0 <= k < |parts| ==> parts[k] == Some(values[k])
    ensures Collect(parts) == Some(values)
  {
    if parts != [] {
      var n := |parts| - 1;
      CollectsAll(parts[..n], values[..n]);
      assert values[..n] + [values[n]] == values;
    }
  }

  lemma {:induction false} KidsAt(n: nat, k: nat)
    requires k < n
    ensures Kids(n)[k] == PageNumber(k)
  {
    if k < n - 1 { KidsAt(n - 1, k); }
  }

  lemma AllPagesReadBack(f: Format, g: Phrases, doc: string, streams: seq<string>)
    requires Holds(f, doc, FONT, g.font) && PagesFound(f, g, doc, streams)
    ensures ReadAll(f, g, doc, Kids(|streams|), PAGES) == Some(Letters(streams))
  {
    var kids := Kids(|streams|);
    var parts := seq(|kids|, i requires 0 <= i < |kids| => ReadPage(f, g, doc, kids[i], PAGES));
    forall k | 0 <= k < |parts| ensures parts[k] == Some(Letters(streams)[k]) {
      KidsAt(|streams|, k);
      FoundPageReads(f, g, doc, k, streams[k]);
    }
    CollectsAll(parts, Letters(streams));
  }

  lemma FoundPageReads(f: Format, g: Phrases, doc: string, k: nat, stream: string)
    requires Holds(f, doc, FONT, g.font) && PageFound(f, g, doc, k, stream)
    ensures ReadPage(f, g, doc, PageNumber(k), PAGES) == Some(Letter(stream))
  {
    PageReadsBack(f, g, doc, PageNumber(k), PageNumber(k) - 1, stream);
  }

  lemma ObjectNumbers(g: Phrases, streams: seq<string>, k: nat)
    requires k < |streams|
    ensures var objects := Objects(g, streams);
      && |objects| == 2 * |streams| + 3
      && objects[PageNumber(k) - 2] == StreamObject(g, streams[k])
      && objects[PageNumber(k) - 1] == PageObject(g, PageNumber(k) - 1)
  {
    PageObjectsAt(g, streams, k);
    assert PageNumber(k) - 2 == 2 + 2 * k;
  }

  lemma Found(f: Format, objects: seq<string>, i: nat)
    requires AllFound(f, objects, |objects|) && 1 <= i <= |objects|
    ensures Holds(f, Document(f, objects, |objects|), i, objects[i - 1])
  {
    assert Holds(f, Document(f, objects, |objects|), (i - 1) + 1, objects[i - 1]);
  }

  lemma Numbering(f: Format, g: Phrases, streams: seq<string>)
    requires AllFound(f, Objects(g, streams), |Objects(g, streams)|)
    ensures var objects := Objects(g, streams);
      PagesFound(f, g, Document(f, objects, |objects|), streams)
  {
    var objects := Objects(g, streams);
    var doc := Document(f, objects, |objects|);
    forall k | 0 <= k < |streams| ensures PageFound(f, g, doc, k, streams[k]) {
      ObjectNumbers(g, streams, k);
      Found(f, objects, PageNumber(k));
      Found(f, objects, PageNumber(k) - 1);
    }
  }

  /** Where the last object starts. */
  function LastPosition(f: Format, objects: seq<string>): nat
    requires objects != []
  {
    Position(f, objects, |objects|)
  }

  /** Following the file from its end gives back size and content stream of every page, in order,
      as long as the last object starts before byte ten to the ten. */
  lemma DocumentReadsBack(f: Format, g: Phrases, streams: seq<string>)
    requires streams != [] && LastPosition(f, Objects(g, streams)) < Pow10(10)
    ensures var objects := Objects(g, streams);
      ReadDocument(f, g, Document(f, objects, |objects|)) == Some(Letters(streams))
  {
    var objects := Objects(g, streams);
    StartsWithHeader(f, objects, |objects|);
    RootReadsBack(f, objects, |objects|);
    FixedFound(f, g, streams);
    FoundReadsBack(f, g, Document(f, objects, |objects|), |objects|, streams);
  }

  lemma FixedFound(f: Format, g: Phrases, streams: seq<string>)
    requires streams != [] && LastPosition(f, Objects(g, streams)) < Pow10(10)
    ensures var objects := Objects(g, streams);
      AllThere(f, g, Document(f, objects, |objects|), |objects|, streams)
  {
    var objects := Objects(g, streams);
    AllObjectsFound(f, objects, |objects|);
    Numbering(f, g, streams);
    Found(f, objects, FONT);
    Found(f, objects, PAGES);
    Found(f, objects, |objects|);
  }

  /** The objects of a document stand where its references expect them. */
  predicate AllThere(f: Format, g: Phrases, doc: string, root: nat, streams: seq<string>) {
    && Holds(f, doc, FONT, g.font) && Holds(f, doc, PAGES, PagesObject(g, Kids(|streams|)))
    && Holds(f, doc, root, CatalogObject(g)) && PagesFound(f, g, doc, streams)
  }

  /** Any text with its root and all its objects in place reads back. */
  lemma FoundReadsBack(f: Format, g: Phrases, doc: string, root: nat, streams: seq<string>)
    requires streams != [] && f.header <= doc && Root(f, doc) == Some(root) && AllThere(f, g, doc, root, streams)
    ensures ReadDocument(f, g, doc) == Some(Letters(streams))
  {
    CatalogReadsBack(f, g, doc, root);
    KidsReadBack(f, g, doc, Kids(|streams|));
    AllPagesReadBack(f, g, doc, streams);
  }
}
