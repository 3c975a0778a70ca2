/** Reading the file structure back: startxref, table, objects, references and stream lengths. */
module ReceiptStructure {
  import opened Wrappers
  import opened Bytes
  import opened ReceiptWriter
  import opened ReceiptReader

  const LARGEST_FILE := 10_000_000_000

  // ---- words and numbers --------------------------------------------------------------------

  lemma ExpectNat(word: seq<Byte>, n: nat, after: seq<Byte>)
    requires NoDigitFirst(after)
    ensures Expect(word + (Dec(n) + after), word) == Some(Dec(n) + after)
    ensures ReadNat(Dec(n) + after) == Some((n, after))
  {
    ExpectSplit(word, Dec(n) + after);
    ReadNatOfDec(n, after);
  }

  lemma EndObjectReads(words: seq<Byte>, tail: seq<Byte>)
    ensures EndObject(words + (Lit("endobj\n") + tail), words) == Some(())
  {
    ExpectSplit(words, Lit("endobj\n") + tail);
    ExpectSplit(Lit("endobj\n"), tail);
  }

  // ---- objects in place ---------------------------------------------------------------------

  /** Where the writer puts object `i`. */
  function OffsetOf(objects: seq<seq<Byte>>, i: nat): nat
    requires 1 <= i <= |objects|
  {
    |Assembled(objects[..i - 1])|
  }

  lemma {:induction false} AssembledFrom(objects: seq<seq<Byte>>, i: nat) returns (tail: seq<Byte>)
    requires 1 <= i <= |objects|
    ensures Assembled(objects) == Assembled(objects[..i - 1]) + (ObjectBuffer(i, objects[i - 1]) + tail)
    decreases |objects|
  {
    var front := objects[..|objects| - 1];
    if i == |objects| {
      tail := [];
      assert ObjectBuffer(i, objects[i - 1]) + [] == ObjectBuffer(i, objects[i - 1]);
    } else {
      var inner := AssembledFrom(front, i);
      assert front[..i - 1] == objects[..i - 1];
      tail := inner + ObjectBuffer(|objects|, objects[|objects| - 1]);
      Associate(Assembled(objects[..i - 1]), ObjectBuffer(i, objects[i - 1]), inner,
                ObjectBuffer(|objects|, objects[|objects| - 1]));
    }
  }

  lemma Associate(a: seq<Byte>, b: seq<Byte>, c: seq<Byte>, d: seq<Byte>)
    ensures (a + (b + c)) + d == a + (b + (c + d))
  {
  }

  lemma DropPrefix(a: seq<Byte>, b: seq<Byte>)
    ensures (a + b)[|a|..] == b
  {
  }

  /** Every object starts at its offset: `i 0 obj` and its body really are there. */
  lemma ObjectInPlace(objects: seq<seq<Byte>>, trailer: seq<Byte>, i: nat) returns (tail: seq<Byte>)
    requires 1 <= i <= |objects|
    ensures OffsetOf(objects, i) <= |Assembled(objects)|
    ensures (Assembled(objects) + trailer)[OffsetOf(objects, i)..]
            == Dec(i) + (Lit(" 0 obj\n") + (objects[i - 1] + (Lit("endobj\n") + tail)))
  {
    var inner := AssembledFrom(objects, i);
    tail := inner + trailer;
    var before, buffer := Assembled(objects[..i - 1]), ObjectBuffer(i, objects[i - 1]);
    Associate(before, buffer, inner, trailer);
    DropPrefix(before, buffer + (inner + trailer));
    BufferSplit(Dec(i), Lit(" 0 obj\n"), objects[i - 1], Lit("endobj\n"), tail);
  }

  lemma BufferSplit(a: seq<Byte>, b: seq<Byte>, c: seq<Byte>, d: seq<Byte>, e: seq<Byte>)
    ensures (a + b + c + d) + e == a + (b + (c + (d + e)))
  {
  }

  lemma HeaderFirst(rest: seq<Byte>)
    ensures HasHeader(Header() + rest)
  {
    assert (Header() + rest)[..9] == Header()[..9] == Lit("%PDF-1.4\n");
  }

  lemma FileHasHeader(objects: seq<seq<Byte>>, trailer: seq<Byte>)
    requires objects != []
    ensures HasHeader(Assembled(objects) + trailer)
  {
    var tail := AssembledFrom(objects, 1);
    assert objects[..0] == [];
    var rest := ObjectBuffer(1, objects[0]) + tail;
    assert (Header() + rest) + trailer == Header() + (rest + trailer);
    HeaderFirst(rest + trailer);
  }

  // ---- the cross-reference section ----------------------------------------------------------

  /** An entry is twenty bytes and gives its offset back exactly when the offset fits ten digits. */
  lemma EntryIsTwentyBytes(offset: nat)
    ensures |XrefEntry(offset)| == 20 <==> offset < LARGEST_FILE
    ensures ParseEntry(XrefEntry(offset)) == if offset < LARGEST_FILE then Some(offset) else None
  {
    Pad10Width(offset);
    ValueOfPad10(offset);
    var entry := XrefEntry(offset);
    if |entry| == 20 {
      assert entry[..10] == Pad10(offset) && entry[10..] == Lit(" 00000 n \n");
    }
  }

  ghost predicate OffsetsFit(objects: seq<seq<Byte>>) {
    forall i :: 1 <= i <= |objects| ==> OffsetOf(objects, i) < LARGEST_FILE
  }

  lemma {:induction false} EntriesLength(objects: seq<seq<Byte>>, k: nat)
    requires k <= |objects| && OffsetsFit(objects)
    ensures |XrefEntries(objects, k)| == 20 * (k + 1)
  {
    if k > 0 {
      EntriesLength(objects, k - 1);
      EntryIsTwentyBytes(OffsetOf(objects, k));
    }
  }

  lemma {:induction false} EntryInTable(objects: seq<seq<Byte>>, k: nat, i: nat)
    requires 1 <= i <= k <= |objects| && OffsetsFit(objects)
    ensures |XrefEntries(objects, k)| == 20 * (k + 1)
    ensures EntryAt(XrefEntries(objects, k), i) == XrefEntry(OffsetOf(objects, i))
    decreases k
  {
    EntriesLength(objects, k);
    EntriesLength(objects, k - 1);
    EntryIsTwentyBytes(OffsetOf(objects, k));
    if i < k {
      EntryInTable(objects, k - 1, i);
    }
    EntryAppended(XrefEntries(objects, k - 1), XrefEntry(OffsetOf(objects, k)), k, i);
  }

  lemma EntryAppended(front: seq<Byte>, last: seq<Byte>, k: nat, i: nat)
    requires |front| == 20 * k && |last| == 20 && i <= k
    ensures EntryAt(front + last, i) == if i < k then EntryAt(front, i) else last
  {
    if i < k { assert 20 * (i + 1) <= 20 * k; }
  }

  lemma OffsetsFitFile(objects: seq<seq<Byte>>)
    requires |Assembled(objects)| < LARGEST_FILE
    ensures OffsetsFit(objects)
  {
    forall i | 1 <= i <= |objects|
      ensures OffsetOf(objects, i) < LARGEST_FILE
    {
      var _ := AssembledFrom(objects, i);
    }
  }

  /** Every table row names the byte at which its object starts. */
  lemma EntryNamesObject(objects: seq<seq<Byte>>, i: nat)
    requires 1 <= i <= |objects| && OffsetsFit(objects)
    ensures EntryOffset(TableOf(objects), i) == Some(OffsetOf(objects, i))
  {
    EntryInTable(objects, |objects|, i);
    EntryIsTwentyBytes(OffsetOf(objects, i));
  }

  function TableOf(objects: seq<seq<Byte>>): Xref {
    Xref(XrefEntries(objects, |objects|), |objects| + 1, 1)
  }

  lemma NumberBeforeReads(a: seq<Byte>, keyword: seq<Byte>, n: nat, tail: seq<Byte>)
    requires keyword != [] && !IsDigit(keyword[|keyword| - 1])
    ensures NumberBefore(a + (keyword + (Dec(n) + tail)), keyword, tail) == Some(n)
  {
    NumberSplit(a, keyword, Dec(n), tail);
    DigitTailSplit(a + keyword, Dec(n));
    ValueOfDec(n);
  }

  lemma NumberSplit(a: seq<Byte>, keyword: seq<Byte>, d: seq<Byte>, tail: seq<Byte>)
    ensures var s := a + (keyword + (d + tail));
            var body := a + keyword + d;
            && |s| >= |tail| && s[|s| - |tail|..] == tail && s[..|s| - |tail|] == body
            && body[|body| - |d|..] == d && body[..|body| - |d|] == a + keyword
            && (a + keyword)[|a|..] == keyword
  {
  }

  /** `startxref` names the offset at which `xref` starts. */
  lemma StartXrefReads(a: seq<Byte>, n: nat)
    ensures StartXref(a + (Lit("startxref\n") + (Dec(n) + Lit("\n%%EOF")))) == Some(n)
  {
    assert Lit("startxref\n")[9] == 10;
    NumberBeforeReads(a, Lit("startxref\n"), n, Lit("\n%%EOF"));
  }

  lemma TrailerReads(size: nat, rest: seq<Byte>)
    ensures ReadTrailer(Lit("trailer\n<< /Size ") + (Dec(size) + (Lit(" /Root ") + (Dec(1) + (Lit(" 0 R >>\nstartxref\n") + rest)))))
            == Some((size, 1))
  {
    ExpectNat(Lit("trailer\n<< /Size "), size, Lit(" /Root ") + (Dec(1) + (Lit(" 0 R >>\nstartxref\n") + rest)));
    ExpectNat(Lit(" /Root "), 1, Lit(" 0 R >>\nstartxref\n") + rest);
    ExpectSplit(Lit(" 0 R >>\nstartxref\n"), rest);
  }

  /** The writer's trailer words split where the reader splits them. */
  lemma TrailerWords()
    ensures Lit(" /Root 1 0 R >>\nstartxref\n") == Lit(" /Root ") + (Dec(1) + Lit(" 0 R >>\nstartxref\n"))
    ensures Lit(" /Root 1 0 R >>\nstartxref\n") == Lit(" /Root 1 0 R >>\n") + Lit("startxref\n")
  {
    TrailerRoot();
    TrailerStart();
  }

  lemma TrailerRoot()
    ensures Lit(" /Root 1 0 R >>\nstartxref\n") == Lit(" /Root ") + (Dec(1) + Lit(" 0 R >>\nstartxref\n"))
  {
    assert Dec(1) == Lit("1");
  }

  lemma TrailerStart()
    ensures Lit(" /Root 1 0 R >>\nstartxref\n") == Lit(" /Root 1 0 R >>\n") + Lit("startxref\n")
  {
  }

  lemma TableShape(assembled: seq<Byte>, entries: seq<Byte>, size: nat, offset: nat)
    ensures var text := Lit("xref\n0 ") + Dec(size) + Lit("\n") + entries + Lit("trailer\n<< /Size ") + Dec(size)
                        + Lit(" /Root 1 0 R >>\nstartxref\n") + Dec(offset) + Lit("\n%%EOF");
            var rest := Dec(offset) + Lit("\n%%EOF");
            && text == Lit("xref\n0 ") + (Dec(size) + (Lit("\n") + (entries
                 + (Lit("trailer\n<< /Size ") + (Dec(size) + (Lit(" /Root ") + (Dec(1) + (Lit(" 0 R >>\nstartxref\n") + rest))))))))
            && StartXref(assembled + text) == Some(offset)
  {
    TrailerWords();
    var x, d, nl, t, r := Lit("xref\n0 "), Dec(size), Lit("\n"), Lit("trailer\n<< /Size "), Dec(offset) + Lit("\n%%EOF");
    FlattenTable(x, d, nl, entries, t, Lit(" /Root 1 0 R >>\nstartxref\n"), Dec(offset), Lit("\n%%EOF"));
    SplitTrailer(Lit(" /Root "), Dec(1), Lit(" 0 R >>\nstartxref\n"), r);
    FlattenStart(assembled, x, d, nl, entries, t, Lit(" /Root 1 0 R >>\n"), Lit("startxref\n"), Dec(offset), Lit("\n%%EOF"));
    StartXrefReads(assembled + x + d + nl + entries + t + d + Lit(" /Root 1 0 R >>\n"), offset);
  }

  lemma FlattenTable(x: seq<Byte>, d: seq<Byte>, nl: seq<Byte>, e: seq<Byte>, t: seq<Byte>, r: seq<Byte>,
                     o: seq<Byte>, f: seq<Byte>)
    ensures x + d + nl + e + t + d + r + o + f == x + (d + (nl + (e + (t + (d + (r + (o + f)))))))
  {
  }

  lemma SplitTrailer(a: seq<Byte>, b: seq<Byte>, c: seq<Byte>, r: seq<Byte>)
    ensures (a + (b + c)) + r == a + (b + (c + r))
  {
  }

  lemma FlattenStart(a: seq<Byte>, x: seq<Byte>, d: seq<Byte>, nl: seq<Byte>, e: seq<Byte>, t: seq<Byte>,
                     r: seq<Byte>, k: seq<Byte>, o: seq<Byte>, f: seq<Byte>)
    ensures a + (x + d + nl + e + t + d + (r + k) + o + f) == (a + x + d + nl + e + t + d + r) + (k + (o + f))
  {
  }

  lemma TableTextReads(size: nat, entries: seq<Byte>, trailer: seq<Byte>)
    requires |entries| == 20 * size && ReadTrailer(trailer) == Some((size, 1))
    ensures ReadTable(Lit("xref\n0 ") + (Dec(size) + (Lit("\n") + (entries + trailer)))) == Some(Xref(entries, size, 1))
  {
    var after := entries + trailer;
    assert after[|entries|..] == trailer && after[..|entries|] == entries;
    ExpectNat(Lit("xref\n0 "), size, Lit("\n") + after);
    ExpectSplit(Lit("\n"), after);
  }

  /** The reader finds the table where `startxref` says, and all its entries. */
  lemma TableReads(objects: seq<seq<Byte>>)
    requires OffsetsFit(objects)
    ensures StartXref(Assembled(objects) + XrefText(objects)) == Some(|Assembled(objects)|)
    ensures ReadXref(Assembled(objects) + XrefText(objects)) == Some(TableOf(objects))
  {
    var a, entries, size := Assembled(objects), XrefEntries(objects, |objects|), |objects| + 1;
    TableShape(a, entries, size, |a|);
    EntriesLength(objects, |objects|);
    TrailerReads(size, Dec(|a|) + Lit("\n%%EOF"));
    TableTextReads(size, entries, Lit("trailer\n<< /Size ") + (Dec(size) + (Lit(" /Root ")
                   + (Dec(1) + (Lit(" 0 R >>\nstartxref\n") + (Dec(|a|) + Lit("\n%%EOF")))))));
    DropPrefix(a, XrefText(objects));
  }

  // ---- one object ---------------------------------------------------------------------------

  lemma ObjectReads(objects: seq<seq<Byte>>, i: nat) returns (tail: seq<Byte>)
    requires 1 <= i <= |objects| && OffsetsFit(objects)
    ensures ObjectAt(Assembled(objects) + XrefText(objects), TableOf(objects), i)
            == Some(objects[i - 1] + (Lit("endobj\n") + tail))
  {
    EntryNamesObject(objects, i);
    tail := ObjectInPlace(objects, XrefText(objects), i);
    var after := objects[i - 1] + (Lit("endobj\n") + tail);
    ReadNatOfDec(i, Lit(" 0 obj\n") + after);
    ExpectSplit(Lit(" 0 obj\n"), after);
  }

  lemma CatalogReads(tail: seq<Byte>)
    ensures ReadCatalog(Catalog() + (Lit("endobj\n") + tail)) == Some(2)
  {
    var words, end := Lit(" 0 R >>\n"), Lit("endobj\n") + tail;
    CatalogWords();
    SplitTrailer(Lit("<< /Type /Catalog /Pages "), Dec(2), words, end);
    ExpectNat(Lit("<< /Type /Catalog /Pages "), 2, words + end);
    EndObjectReads(words, tail);
  }

  lemma CatalogWords()
    ensures Catalog() == Lit("<< /Type /Catalog /Pages ") + (Dec(2) + Lit(" 0 R >>\n"))
  {
    assert Dec(2) == Lit("2");
  }

  lemma ReferenceReads(number: nat, rest: seq<Byte>)
    ensures ReadReference(Dec(number) + (Lit(" 0 R") + rest)) == Some((number, rest))
    ensures !Closes(Dec(number) + (Lit(" 0 R") + rest))
  {
    ReadNatOfDec(number, Lit(" 0 R") + rest);
    ExpectSplit(Lit(" 0 R"), rest);
    assert (Dec(number) + (Lit(" 0 R") + rest))[0] == Dec(number)[0];
  }

  lemma LastReference(number: nat, rest: seq<Byte>)
    ensures ReadReferences(Dec(number) + (Lit(" 0 R") + ([93] + rest))) == Some(([number], rest))
  {
    ReferenceReads(number, [93] + rest);
    assert ([93] + rest)[1..] == rest;
  }

  lemma NextReference(number: nat, more: seq<Byte>, numbers: seq<nat>, rest: seq<Byte>)
    requires ReadReferences(more) == Some((numbers, rest)) && numbers != []
    ensures ReadReferences(Dec(number) + (Lit(" 0 R") + ([32] + more))) == Some(([number] + numbers, rest))
  {
    ReferenceReads(number, [32] + more);
    ExpectSplit([32], more);
  }

  function From(first: nat, n: nat): (r: seq<nat>)
    ensures |r| == n
  {
    seq(n, i requires 0 <= i < n => first + i)
  }

  lemma KidsSplit(first: nat, n: nat, close: seq<Byte>)
    requires n > 0
    ensures Kids(first, n) + close == Dec(first) + (Lit(" 0 R")
              + (if n == 1 then close else [32] + (Kids(first + 1, n - 1) + close)))
  {
    assert Lit(" ") == [32];
    ReferenceSplit(Dec(first), Lit(" 0 R"), [32], if n == 1 then [] else Kids(first + 1, n - 1), close);
  }

  lemma ReferenceSplit(a: seq<Byte>, b: seq<Byte>, c: seq<Byte>, d: seq<Byte>, e: seq<Byte>)
    ensures a + b + c + d + e == a + (b + (c + (d + e)))
    ensures a + b + e == a + (b + e)
  {
  }

  ghost predicate KidsRead(first: nat, n: nat, rest: seq<Byte>) {
    ReadReferences(Kids(first, n) + ([93] + rest)) == Some((From(first, n), rest))
  }

  lemma NoReference(first: nat, rest: seq<Byte>)
    ensures KidsRead(first, 0, rest)
  {
    var close := [93] + rest;
    assert Kids(first, 0) + close == close && close[1..] == rest;
  }

  lemma OneReference(first: nat, rest: seq<Byte>)
    ensures KidsRead(first, 1, rest)
  {
    KidsSplit(first, 1, [93] + rest);
    FromSplit(first, 1);
    LastReference(first, rest);
  }

  lemma MoreReferences(first: nat, n: nat, rest: seq<Byte>)
    requires n > 1 && KidsRead(first + 1, n - 1, rest)
    ensures KidsRead(first, n, rest)
  {
    KidsSplit(first, n, [93] + rest);
    FromSplit(first, n);
    NextReference(first, Kids(first + 1, n - 1) + ([93] + rest), From(first + 1, n - 1), rest);
  }

  lemma {:induction false} ReferencesRead(first: nat, n: nat, rest: seq<Byte>)
    ensures KidsRead(first, n, rest)
    decreases n
  {
    if n == 0 {
      NoReference(first, rest);
    } else if n == 1 {
      OneReference(first, rest);
    } else {
      ReferencesRead(first + 1, n - 1, rest);
      MoreReferences(first, n, rest);
    }
  }

  lemma FromSplit(first: nat, n: nat)
    requires n > 0
    ensures From(first, n) == [first] + From(first + 1, n - 1)
    ensures n == 1 ==> From(first, n) == [first]
  {
  }

  lemma PageTreeReads(n: nat, tail: seq<Byte>)
    ensures ReadPageTree(PagesObject(n) + (Lit("endobj\n") + tail))
            == Some(From(3, n))
  {
    var words, end := Lit(" >>\n"), Lit("endobj\n") + tail;
    var count := Lit(" /Count ") + (Dec(n) + (words + end));
    TreeWords(Lit("<< /Type /Pages /Kids ["), Kids(3, n), [93], Lit(" /Count "), Dec(n), words, end);
    CountWords();
    ExpectSplit(Lit("<< /Type /Pages /Kids ["), Kids(3, n) + ([93] + count));
    ReferencesRead(3, n, count);
    ExpectNat(Lit(" /Count "), n, words + end);
    EndObjectReads(words, tail);
  }

  lemma CountWords()
    ensures Lit("] /Count ") == [93] + Lit(" /Count ")
  {
  }

  lemma TreeWords(a: seq<Byte>, b: seq<Byte>, c: seq<Byte>, d: seq<Byte>, e: seq<Byte>, f: seq<Byte>, g: seq<Byte>)
    ensures (a + b + (c + d) + e + f) + g == a + (b + (c + (d + (e + (f + g)))))
  {
  }

  lemma PageReads(font: nat, contents: nat, tail: seq<Byte>)
    ensures ReadPage(PageObject(font, contents) + (Lit("endobj\n") + tail)) == Some(Page(2, font, contents))
  {
    var words, end := Lit(" 0 R >>\n"), Lit("endobj\n") + tail;
    var close, box := Lit(" 0 R >> >>"), Lit(" /MediaBox [0 0 612 792] /Contents ");
    var resources := Lit(" /Resources << /Font << /F1 ");
    var c := Dec(contents) + (words + end);
    var b := Dec(font) + (close + (box + c));
    ParentWords();
    PageWords(Lit("<< /Type /Page /Parent "), Dec(2), Lit(" 0 R"), resources, Dec(font), close, box,
              Dec(contents), words, end);
    ExpectNat(Lit("<< /Type /Page /Parent "), 2, Lit(" 0 R") + (resources + b));
    ExpectSplit(Lit(" 0 R"), resources + b);
    ExpectNat(resources, font, close + (box + c));
    ExpectSplit(close, box + c);
    ExpectNat(box, contents, words + end);
    EndObjectReads(words, tail);
  }

  lemma ParentWords()
    ensures Lit("<< /Type /Page /Parent 2 0 R") == Lit("<< /Type /Page /Parent ") + (Dec(2) + Lit(" 0 R"))
  {
    assert Dec(2) == Lit("2");
  }

  lemma PageWords(a: seq<Byte>, b: seq<Byte>, c: seq<Byte>, d: seq<Byte>, e: seq<Byte>, f: seq<Byte>,
                  g: seq<Byte>, h: seq<Byte>, k: seq<Byte>, l: seq<Byte>)
    ensures ((a + (b + c)) + d + e + f + g + h + k) + l == a + (b + (c + (d + (e + (f + (g + (h + (k + l))))))))
  {
  }

  lemma FontReads(tail: seq<Byte>)
    ensures ReadFont(FontObject() + (Lit("endobj\n") + tail)) == Some(())
  {
    EndObjectReads(FontObject(), tail);
  }

  /** /Length is the length of the stream: its bytes come back and nothing else. */
  lemma StreamReads(data: seq<Byte>, tail: seq<Byte>)
    ensures ReadStream(StreamObject(data) + (Lit("endobj\n") + tail)) == Some(data)
  {
    var words, end := Lit("\nendstream\n"), Lit("endobj\n") + tail;
    var filter := Lit(" /Filter /FlateDecode >>\nstream\n");
    StreamWords(Lit("<< /Length "), Dec(|data|), filter, data, words, end);
    ExpectNat(Lit("<< /Length "), |data|, filter + (data + (words + end)));
    ExpectSplit(filter, data + (words + end));
    DropPrefix(data, words + end);
    assert (data + (words + end))[..|data|] == data;
    EndObjectReads(words, tail);
  }

  lemma StreamWords(a: seq<Byte>, b: seq<Byte>, c: seq<Byte>, d: seq<Byte>, e: seq<Byte>, f: seq<Byte>)
    ensures (a + b + c + d + e) + f == a + (b + (c + (d + (e + f))))
  {
  }
}
