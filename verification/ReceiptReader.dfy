/**
  A reader for the receipts' subset of PDF, written from ISO 32000-1 and independent of the writer:
  startxref and the cross-reference table (7.5.4, 7.5.5), indirect objects (7.3.10), stream extents
  (7.3.8), literal strings (7.3.4.2), lexical conventions (7.2) and text showing (9.4).
*/
module ReceiptReader {
  import opened Wrappers
  import opened Bytes

  type Inflate = seq<Byte> -> Option<seq<Byte>>

  // ---- file structure -----------------------------------------------------------------------

  /** The byte offset named after the last `startxref`. */
  function StartXref(file: seq<Byte>): Option<nat> {
    NumberBefore(file, Lit("startxref\n"), Lit("\n%%EOF"))
  }

  /** The numeral between `keyword` and `tail` at the end of `file`. */
  function NumberBefore(file: seq<Byte>, keyword: seq<Byte>, tail: seq<Byte>): Option<nat> {
    if |file| < |tail| || file[|file| - |tail|..] != tail then None
    else
      var body := file[..|file| - |tail|];
      var k := DigitTail(body);
      var before := body[..|body| - k];
      if k == 0 || |before| < |keyword| || before[|before| - |keyword|..] != keyword then None
      else Some(Value(body[|body| - k..]))
  }

  /** The cross-reference section: `count` entries of twenty bytes, and the trailer's /Root. */
  datatype Xref = Xref(entries: seq<Byte>, count: nat, root: nat)

  function ReadXref(file: seq<Byte>): Option<Xref> {
    var offset :- StartXref(file);
    if offset > |file| then None else ReadTable(file[offset..])
  }

  function ReadTable(s: seq<Byte>): Option<Xref> {
    var s :- Expect(s, Lit("xref\n0 "));
    var (count, s) :- ReadNat(s);
    var s :- Expect(s, Lit("\n"));
    if |s| < 20 * count then None else
    var (size, root) :- ReadTrailer(s[20 * count..]);
    if size != count then None else Some(Xref(s[..20 * count], count, root))
  }

  /** /Size and /Root. */
  function ReadTrailer(t: seq<Byte>): Option<(nat, nat)> {
    var t :- Expect(t, Lit("trailer\n<< /Size "));
    var (size, t) :- ReadNat(t);
    var t :- Expect(t, Lit(" /Root "));
    var (root, t) :- ReadNat(t);
    var _ :- Expect(t, Lit(" 0 R >>\nstartxref\n"));
    Some((size, root))
  }

  /** The offset in an in-use entry: ten digits, generation 00000, `n`, space and line feed. */
  function ParseEntry(entry: seq<Byte>): Option<nat> {
    if |entry| == 20 && AllDigits(entry[..10]) && entry[10..] == Lit(" 00000 n \n")
    then Some(Value(entry[..10]))
    else None
  }

  function EntryAt(entries: seq<Byte>, i: nat): seq<Byte>
    requires 20 * (i + 1) <= |entries|
  {
    entries[20 * i..20 * (i + 1)]
  }

  function EntryOffset(xref: Xref, number: nat): Option<nat> {
    if number >= xref.count || 20 * (number + 1) > |xref.entries| then None
    else ParseEntry(EntryAt(xref.entries, number))
  }

  /** What follows `number 0 obj` at the offset the table gives for `number`. */
  function ObjectAt(file: seq<Byte>, xref: Xref, number: nat): Option<seq<Byte>> {
    var offset :- EntryOffset(xref, number);
    if offset > |file| then None else
    var (found, s) :- ReadNat(file[offset..]);
    var s :- Expect(s, Lit(" 0 obj\n"));
    if found == number then Some(s) else None
  }

  /** The last words of an object, and the keyword that closes it. */
  function EndObject(s: seq<Byte>, words: seq<Byte>): Option<()> {
    var s :- Expect(s, words);
    var _ :- Expect(s, Lit("endobj\n"));
    Some(())
  }

  function ReadCatalog(s: seq<Byte>): Option<nat> {
    var s :- Expect(s, Lit("<< /Type /Catalog /Pages "));
    var (pages, s) :- ReadNat(s);
    var _ :- EndObject(s, Lit(" 0 R >>\n"));
    Some(pages)
  }

  function ReadReference(s: seq<Byte>): (r: Option<(nat, seq<Byte>)>)
    ensures r.Some? ==> |r.value.1| < |s|
  {
    var (number, t) :- ReadNat(s);
    var t :- Expect(t, Lit(" 0 R"));
    Some((number, t))
  }

  predicate Closes(s: seq<Byte>) { s != [] && s[0] == 93 }

  /** References up to the closing bracket, one space between neighbours. */
  function ReadReferences(s: seq<Byte>): (r: Option<(seq<nat>, seq<Byte>)>)
    decreases |s|
  {
    if Closes(s) then Some(([], s[1..]))
    else
      var (number, t) :- ReadReference(s);
      if Closes(t) then Some(([number], t[1..]))
      else
        var t :- Expect(t, [32]);
        var (numbers, t) :- ReadReferences(t);
        if numbers == [] then None else Some(([number] + numbers, t))
  }

  function ReadPageTree(s: seq<Byte>): Option<seq<nat>> {
    var s :- Expect(s, Lit("<< /Type /Pages /Kids ["));
    var (kids, s) :- ReadReferences(s);
    var s :- Expect(s, Lit(" /Count "));
    var (count, s) :- ReadNat(s);
    var _ :- EndObject(s, Lit(" >>\n"));
    if count == |kids| then Some(kids) else None
  }

  datatype Page = Page(parent: nat, font: nat, contents: nat)

  function ReadPage(s: seq<Byte>): Option<Page> {
    var s :- Expect(s, Lit("<< /Type /Page /Parent "));
    var (parent, s) :- ReadNat(s);
    var s :- Expect(s, Lit(" 0 R"));
    var s :- Expect(s, Lit(" /Resources << /Font << /F1 "));
    var (font, s) :- ReadNat(s);
    var s :- Expect(s, Lit(" 0 R >> >>"));
    var s :- Expect(s, Lit(" /MediaBox [0 0 612 792] /Contents "));
    var (contents, s) :- ReadNat(s);
    var _ :- EndObject(s, Lit(" 0 R >>\n"));
    Some(Page(parent, font, contents))
  }

  function ReadFont(s: seq<Byte>): Option<()> {
    EndObject(s, Lit("<< /Type /Font /Subtype /Type1 /BaseFont /Helvetica >>\n"))
  }

  /** Exactly /Length bytes lie between `stream` and `endstream`. */
  function ReadStream(s: seq<Byte>): Option<seq<Byte>> {
    var s :- Expect(s, Lit("<< /Length "));
    var (length, s) :- ReadNat(s);
    var s :- Expect(s, Lit(" /Filter /FlateDecode >>\nstream\n"));
    if |s| < length then None else
    var _ :- EndObject(s[length..], Lit("\nendstream\n"));
    Some(s[..length])
  }

  // ---- content streams ----------------------------------------------------------------------

  datatype Token = Str(text: seq<Byte>) | Word(word: seq<Byte>)

  /** Section 7.2.2: null, tab, line feed, form feed, carriage return and space. */
  predicate IsWhite(b: Byte) { b in {0, 9, 10, 12, 13, 32} }

  /** Section 7.2.2: ( ) < > [ ] { } / % */
  predicate IsDelimiter(b: Byte) { b in {40, 41, 60, 62, 91, 93, 123, 125, 47, 37} }

  function RegularRun(s: seq<Byte>): (k: nat)
    ensures k <= |s|
  {
    if s == [] || IsWhite(s[0]) || IsDelimiter(s[0]) then 0 else 1 + RegularRun(s[1..])
  }

  predicate IsOctal(b: Byte) { 48 <= b <= 55 }

  /** The byte a reverse solidus and what follows it stand for, and how many bytes that takes. */
  function EscapeAt(s: seq<Byte>): (r: (seq<Byte>, nat))
    requires s != []
    ensures 1 <= r.1 <= |s|
  {
    var c := s[0];
    if c == 110 then ([10], 1)                                 // \n
    else if c == 114 then ([13], 1)                            // \r
    else if c == 116 then ([9], 1)                             // \t
    else if c == 98 then ([8], 1)                              // \b
    else if c == 102 then ([12], 1)                            // \f
    else if c == 10 then ([], 1)                               // a line continued
    else if c == 13 then ([], if |s| > 1 && s[1] == 10 then 2 else 1)
    else if !IsOctal(c) then ([c], 1)                          // \( \) \\ and any other byte
    else if |s| == 1 || !IsOctal(s[1]) then ([c - 48], 1)
    else if |s| == 2 || !IsOctal(s[2]) then ([(c - 48) * 8 + (s[1] - 48)], 2)
    else
      var code: int := (c as int - 48) * 64 + (s[1] as int - 48) * 8 + (s[2] as int - 48);
      ([code % 0x100], 3)
  }

  /** The rest of a literal string whose opening parenthesis has been read, `depth` more being open. */
  function Literal(s: seq<Byte>, depth: nat): (r: Option<(seq<Byte>, seq<Byte>)>)
    ensures r.Some? ==> |r.value.1| < |s|
    decreases |s|
  {
    if s == [] then None
    else if s[0] == 41 && depth == 0 then Some(([], s[1..]))
    else if s[0] == 92 then
      if |s| == 1 then None else
      var (bytes, k) := EscapeAt(s[1..]);
      var (text, rest) :- Literal(s[1 + k..], depth);
      Some((bytes + text, rest))
    else if s[0] == 13 then
      var (text, rest) :- Literal(s[if |s| > 1 && s[1] == 10 then 2 else 1..], depth);
      Some(([10] + text, rest))
    else
      var (text, rest) :- Literal(s[1..],
        if s[0] == 40 then depth + 1 else if s[0] == 41 then depth - 1 else depth);
      Some(([s[0]] + text, rest))
  }

  function Tokens(s: seq<Byte>): Option<seq<Token>>
    decreases |s|
  {
    if s == [] then Some([])
    else if IsWhite(s[0]) then Tokens(s[1..])
    else if s[0] == 40 then
      var (text, rest) :- Literal(s[1..], 0);
      var tokens :- Tokens(rest);
      Some([Str(text)] + tokens)
    else
      var k := 1 + RegularRun(s[1..]);
      var tokens :- Tokens(s[k..]);
      Some([Word(s[..k])] + tokens)
  }

  /** The lines the operators show: `Tj` extends the current line, `T*` starts the next one. Both
      are allowed only inside BT ... ET. */
  function Show(tokens: seq<Token>, inText: bool, lines: seq<seq<Byte>>): Option<seq<seq<Byte>>>
    requires lines != []
    decreases |tokens|
  {
    if tokens == [] then (if inText then None else Some(lines))
    else match tokens[0]
      case Str(text) =>
        if inText && |tokens| > 1 && tokens[1] == Word(Lit("Tj"))
        then Show(tokens[2..], inText, lines[..|lines| - 1] + [lines[|lines| - 1] + text])
        else None
      case Word(word) =>
        if word == Lit("BT") then (if inText then None else Show(tokens[1..], true, lines))
        else if word == Lit("ET") then (if inText then Show(tokens[1..], false, lines) else None)
        else if word == Lit("T*") then (if inText then Show(tokens[1..], inText, lines + [[]]) else None)
        else Show(tokens[1..], inText, lines)
  }

  function ShownLines(stream: seq<Byte>): Option<seq<seq<Byte>>> {
    var tokens :- Tokens(stream);
    Show(tokens, false, [[]])
  }

  // ---- the whole document -------------------------------------------------------------------

  function ReadKid(file: seq<Byte>, xref: Xref, tree: nat, kid: nat, inflate: Inflate): Option<seq<seq<Byte>>> {
    var body :- ObjectAt(file, xref, kid);
    var page :- ReadPage(body);
    if page.parent != tree then None else
    var font :- ObjectAt(file, xref, page.font);
    var _ :- ReadFont(font);
    var contents :- ObjectAt(file, xref, page.contents);
    var compressed :- ReadStream(contents);
    var stream :- inflate(compressed);
    ShownLines(stream)
  }

  function ReadKids(file: seq<Byte>, xref: Xref, tree: nat, kids: seq<nat>, inflate: Inflate)
    : Option<seq<seq<seq<Byte>>>>
  {
    if kids == [] then Some([])
    else
      var page :- ReadKid(file, xref, tree, kids[0], inflate);
      var pages :- ReadKids(file, xref, tree, kids[1..], inflate);
      Some([page] + pages)
  }

  /** Section 7.5.2: the version line, then a comment of four bytes from 128 up. */
  predicate HasHeader(file: seq<Byte>) {
    && |file| >= 15 && file[..9] == Lit("%PDF-1.4\n")
    && file[9] == 37 && file[14] == 10
    && forall i :: 10 <= i < 14 ==> file[i] >= 128
  }

  /** The lines of every page, in page order. */
  function ReadReceipt(file: seq<Byte>, inflate: Inflate): Option<seq<seq<seq<Byte>>>> {
    if !HasHeader(file) then None else
    var xref :- ReadXref(file);
    var catalog :- ObjectAt(file, xref, xref.root);
    var tree :- ReadCatalog(catalog);
    var body :- ObjectAt(file, xref, tree);
    var kids :- ReadPageTree(body);
    ReadKids(file, xref, tree, kids, inflate)
  }
}
