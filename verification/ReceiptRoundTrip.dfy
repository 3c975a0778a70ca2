/** The receipt file read back: all its lines, in order, forty to a page, and exactly when. */
module ReceiptRoundTrip {
  import opened Wrappers
  import opened Bytes
  import opened ReceiptWriter
  import opened ReceiptReader
  import opened ReceiptContent
  import opened ReceiptStructure

  ghost predicate Inverse(inflate: Inflate, deflate: Deflate) {
    forall b: seq<Byte> :: inflate(deflate(b)) == Some(b)
  }

  predicate AllPagesLatin(pages: seq<seq<Text>>) {
    forall i :: 0 <= i < |pages| ==> pages[i] != [] && AllLatin(pages[i])
  }

  function NormalisePages(pages: seq<seq<Text>>): seq<seq<seq<Byte>>>
    requires AllPagesLatin(pages)
  {
    seq(|pages|, i requires 0 <= i < |pages| => NormaliseAll(pages[i]))
  }

  function Flatten<T>(pages: seq<seq<T>>): seq<T> {
    if pages == [] then [] else pages[0] + Flatten(pages[1..])
  }

  function FileOf(objects: seq<seq<Byte>>): seq<Byte> { Assembled(objects) + XrefText(objects) }

  /** The numbers written into the pages are those of the font and of each page's own stream. */
  lemma NumbersResolve(pages: seq<seq<Text>>, deflate: Deflate, k: nat)
    requires AllPagesLatin(pages) && k < |pages|
    ensures var objects, n := Objects(pages, deflate), |pages|;
            && objects[0] == Catalog() && objects[1] == PagesObject(n)
            && objects[3 + k - 1] == PageObject(3 + n, 4 + n + k)
            && objects[3 + n - 1] == FontObject()
            && objects[4 + n + k - 1] == StreamObject(deflate(Encode(ContentStream(pages[k]))))
  {
  }

  ghost predicate PageReadsBack(pages: seq<seq<Text>>, deflate: Deflate, inflate: Inflate, k: nat)
    requires AllPagesLatin(pages) && k < |pages|
  {
    var objects := Objects(pages, deflate);
    ReadKid(FileOf(objects), TableOf(objects), 2, 3 + k, inflate) == Some(NormaliseAll(pages[k]))
  }

  /** How one page is read, whatever the file. */
  lemma KidFollowed(file: seq<Byte>, xref: Xref, kid: nat, inflate: Inflate, page: Page, bodies: (seq<Byte>, seq<Byte>, seq<Byte>),
                    data: seq<Byte>, stream: seq<Byte>)
    requires ObjectAt(file, xref, kid) == Some(bodies.0) && ReadPage(bodies.0) == Some(page)
    requires ObjectAt(file, xref, page.font) == Some(bodies.1) && ReadFont(bodies.1) == Some(())
    requires ObjectAt(file, xref, page.contents) == Some(bodies.2) && ReadStream(bodies.2) == Some(data)
    requires inflate(data) == Some(stream)
    ensures ReadKid(file, xref, page.parent, kid, inflate) == ShownLines(stream)
  {
  }

  lemma PageFound(objects: seq<seq<Byte>>, i: nat, font: nat, contents: nat) returns (body: seq<Byte>)
    requires 1 <= i <= |objects| && OffsetsFit(objects) && objects[i - 1] == PageObject(font, contents)
    ensures ObjectAt(FileOf(objects), TableOf(objects), i) == Some(body)
    ensures ReadPage(body) == Some(Page(2, font, contents))
  {
    var tail := ObjectReads(objects, i);
    PageReads(font, contents, tail);
    body := PageObject(font, contents) + (Lit("endobj\n") + tail);
  }

  lemma FontFound(objects: seq<seq<Byte>>, i: nat) returns (body: seq<Byte>)
    requires 1 <= i <= |objects| && OffsetsFit(objects) && objects[i - 1] == FontObject()
    ensures ObjectAt(FileOf(objects), TableOf(objects), i) == Some(body)
    ensures ReadFont(body) == Some(())
  {
    var tail := ObjectReads(objects, i);
    FontReads(tail);
    body := FontObject() + (Lit("endobj\n") + tail);
  }

  lemma StreamFound(objects: seq<seq<Byte>>, i: nat, data: seq<Byte>) returns (body: seq<Byte>)
    requires 1 <= i <= |objects| && OffsetsFit(objects) && objects[i - 1] == StreamObject(data)
    ensures ObjectAt(FileOf(objects), TableOf(objects), i) == Some(body)
    ensures ReadStream(body) == Some(data)
  {
    var tail := ObjectReads(objects, i);
    StreamReads(data, tail);
    body := StreamObject(data) + (Lit("endobj\n") + tail);
  }

  /** What reading the page object `kid` shows, its font and contents being where it says. */
  ghost predicate Shows(objects: seq<seq<Byte>>, kid: nat, inflate: Inflate, stream: seq<Byte>) {
    ReadKid(FileOf(objects), TableOf(objects), 2, kid, inflate) == ShownLines(stream)
  }

  lemma KidShown(objects: seq<seq<Byte>>, kid: nat, font: nat, contents: nat, data: seq<Byte>, inflate: Inflate,
                 stream: seq<Byte>)
    requires 1 <= kid <= |objects| && 1 <= font <= |objects| && 1 <= contents <= |objects|
    requires OffsetsFit(objects) && inflate(data) == Some(stream)
    requires objects[kid - 1] == PageObject(font, contents) && objects[font - 1] == FontObject()
    requires objects[contents - 1] == StreamObject(data)
    ensures Shows(objects, kid, inflate, stream)
  {
    var pageBody := PageFound(objects, kid, font, contents);
    var fontBody := FontFound(objects, font);
    var streamBody := StreamFound(objects, contents, data);
    KidFollowed(FileOf(objects), TableOf(objects), kid, inflate, Page(2, font, contents),
                (pageBody, fontBody, streamBody), data, stream);
  }

  lemma KidReads(pages: seq<seq<Text>>, deflate: Deflate, inflate: Inflate, k: nat)
    requires AllPagesLatin(pages) && k < |pages| && Inverse(inflate, deflate)
    requires OffsetsFit(Objects(pages, deflate))
    ensures PageReadsBack(pages, deflate, inflate, k)
  {
    NumbersResolve(pages, deflate, k);
    var stream := Encode(ContentStream(pages[k]));
    var kid, font, contents := 3 + k, 3 + |pages|, 4 + |pages| + k;
    KidShown(Objects(pages, deflate), kid, font, contents, deflate(stream), inflate, stream);
    StreamShowsLines(pages[k]);
  }

  ghost predicate KidsShow(objects: seq<seq<Byte>>, kids: seq<nat>, inflate: Inflate, pages: seq<seq<seq<Byte>>>) {
    ReadKids(FileOf(objects), TableOf(objects), 2, kids, inflate) == Some(pages)
  }

  ghost predicate PagesReadBack(pages: seq<seq<Text>>, deflate: Deflate, inflate: Inflate, k: nat)
    requires AllPagesLatin(pages) && k <= |pages|
  {
    KidsShow(Objects(pages, deflate), From(3 + k, |pages| - k), inflate, NormalisePages(pages[k..]))
  }

  lemma KidsFollowed(objects: seq<seq<Byte>>, kid: nat, kids: seq<nat>, inflate: Inflate,
                     page: seq<seq<Byte>>, pages: seq<seq<seq<Byte>>>)
    requires ReadKid(FileOf(objects), TableOf(objects), 2, kid, inflate) == Some(page)
    requires KidsShow(objects, kids, inflate, pages)
    ensures KidsShow(objects, [kid] + kids, inflate, [page] + pages)
  {
    assert ([kid] + kids)[1..] == kids;
  }

  lemma NormalisedSuffix(pages: seq<seq<Text>>, k: nat)
    requires AllPagesLatin(pages) && k < |pages|
    ensures NormalisePages(pages[k..]) == [NormaliseAll(pages[k])] + NormalisePages(pages[k + 1..])
  {
  }

  lemma NextPageReads(pages: seq<seq<Text>>, deflate: Deflate, inflate: Inflate, k: nat)
    requires AllPagesLatin(pages) && k < |pages|
    requires PageReadsBack(pages, deflate, inflate, k) && PagesReadBack(pages, deflate, inflate, k + 1)
    ensures PagesReadBack(pages, deflate, inflate, k)
  {
    KidsFollowed(Objects(pages, deflate), 3 + k, From(4 + k, |pages| - (k + 1)), inflate,
                 NormaliseAll(pages[k]), NormalisePages(pages[k + 1..]));
    FromSplit(3 + k, |pages| - k);
    NormalisedSuffix(pages, k);
  }

  lemma {:induction false} AllKidsRead(pages: seq<seq<Text>>, deflate: Deflate, inflate: Inflate, k: nat)
    requires AllPagesLatin(pages) && k <= |pages| && Inverse(inflate, deflate)
    requires OffsetsFit(Objects(pages, deflate))
    ensures PagesReadBack(pages, deflate, inflate, k)
    decreases |pages| - k
  {
    if k < |pages| {
      KidReads(pages, deflate, inflate, k);
      AllKidsRead(pages, deflate, inflate, k + 1);
      NextPageReads(pages, deflate, inflate, k);
    }
  }

  lemma {:induction false} PagesOfLines(lines: seq<Text>)
    ensures Flatten(Pages(lines)) == lines
    ensures |Pages(lines)| == (|lines| + 39) / 40
    ensures forall i :: 0 <= i < |Pages(lines)| - 1 ==> |Pages(lines)[i]| == 40
    ensures AllLatin(lines) ==> AllPagesLatin(Pages(lines))
    decreases |lines|
  {
    if 0 < |lines| <= PAGE_LINE_BUDGET {
      assert Pages(lines) == [lines];
      assert Flatten([lines][1..]) == [];
    } else if lines != [] {
      var head, tail := lines[..PAGE_LINE_BUDGET], lines[PAGE_LINE_BUDGET..];
      PagesOfLines(tail);
      assert Pages(lines)[1..] == Pages(tail);
      assert head + tail == lines;
    }
  }

  lemma {:induction false} FlattenNormalised(pages: seq<seq<Text>>)
    requires AllPagesLatin(pages)
    ensures AllLatin(Flatten(pages))
    ensures Flatten(NormalisePages(pages)) == NormaliseAll(Flatten(pages))
  {
    if pages != [] {
      FlattenNormalised(pages[1..]);
      assert NormalisePages(pages)[1..] == NormalisePages(pages[1..]);
      assert NormaliseAll(pages[0] + Flatten(pages[1..])) == NormaliseAll(pages[0]) + NormaliseAll(Flatten(pages[1..]));
    }
  }

  /** Following startxref, table, catalog, page tree, pages, streams and strings returns every line. */
  lemma ReceiptReadsBack(lines: seq<Text>, deflate: Deflate, inflate: Inflate)
    requires Inverse(inflate, deflate) && AllLatin(lines)
    requires |PdfFile(lines, deflate)| < LARGEST_FILE
    ensures AllPagesLatin(Pages(lines))
    ensures ReadReceipt(PdfFile(lines, deflate), inflate) == Some(NormalisePages(Pages(lines)))
  {
    var pages := Pages(lines);
    PagesOfLines(lines);
    var objects := Objects(pages, deflate);
    OffsetsFitFile(objects);
    FileHasHeader(objects, XrefText(objects));
    TableReads(objects);
    var catalogTail := ObjectReads(objects, 1);
    CatalogReads(catalogTail);
    var treeTail := ObjectReads(objects, 2);
    PageTreeReads(|pages|, treeTail);
    AllKidsRead(pages, deflate, inflate, 0);
    assert pages[0..] == pages;
  }

  /** Text that survives: one byte per unit and no carriage return. */
  predicate Printable(lines: seq<Text>) {
    forall i :: 0 <= i < |lines| ==> Latin(lines[i]) && CR !in lines[i]
  }

  /** The lines read back, page after page. */
  function LinesRead(file: seq<Byte>, inflate: Inflate): Option<seq<Text>> {
    var pages :- ReadReceipt(file, inflate);
    Some(Flatten(pages))
  }

  lemma BytesAreLatin(read: seq<seq<Byte>>, lines: seq<Text>)
    requires read == lines
    ensures AllLatin(lines)
  {
    assert forall i :: 0 <= i < |read| ==> Latin(read[i]);
  }

  lemma NormalisedFixed(lines: seq<Text>)
    requires AllLatin(lines)
    ensures NormaliseAll(lines) == lines <==> Printable(lines)
  {
    forall i | 0 <= i < |lines|
      ensures NormaliseAll(lines)[i] == lines[i] <==> CR !in lines[i]
    {
      NormaliseFixed(lines[i]);
    }
  }

  /** Reading a receipt yields exactly the lines written if and only if their text is printable. */
  lemma ReceiptIsExact(lines: seq<Text>, deflate: Deflate, inflate: Inflate)
    requires Inverse(inflate, deflate)
    requires |PdfFile(lines, deflate)| < LARGEST_FILE
    ensures LinesRead(PdfFile(lines, deflate), inflate) == Some(lines) <==> Printable(lines)
  {
    var read := ReadReceipt(PdfFile(lines, deflate), inflate);
    if read.Some? && Flatten(read.value) == lines {
      BytesAreLatin(Flatten(read.value), lines);
    }
    if AllLatin(lines) {
      ReceiptReadsBack(lines, deflate, inflate);
      PagesOfLines(lines);
      FlattenNormalised(Pages(lines));
      NormalisedFixed(lines);
    }
  }
}
