/**
  The PDF receipt writer: escaping, content streams, pagination and the assembly of objects,
  cross-reference table and trailer (apiV2/src/orders/order-receipt.util.ts). Each method is the
  source's loop; the function beside it is what that loop computes. Money is counted in cents.
*/
module ReceiptWriter {
  import opened Wrappers
  import opened Bytes
  import opened Sums

  // ---- text of the receipt ------------------------------------------------------------------

  datatype Item = Item(name: Option<Text>, productId: Text, unitCents: int, quantity: nat)

  datatype Order = Order(id: Text, status: Text, placed: Text, items: seq<Item>, discountCents: Option<int>)

  /** `(cents / 100).toFixed(2)`. */
  function Money(cents: int): seq<Byte> {
    var magnitude: nat := if cents < 0 then -cents else cents;
    (if cents < 0 then Lit("-") else [])
    + Dec(magnitude / 100) + Lit(".") + [48 + magnitude % 100 / 10, 48 + magnitude % 10]
  }

  lemma MoneyParts(cents: int) returns (whole: seq<Byte>, tens: Byte, ones: Byte)
    ensures whole == Dec((if cents < 0 then -cents else cents) / 100)
    ensures Money(cents) == (if cents < 0 then [45] else []) + whole + [46, tens, ones]
    ensures IsDigit(tens) && IsDigit(ones)
    ensures (if cents < 0 then -cents else cents) == Value(whole) * 100 + (tens - 48) * 10 + (ones - 48)
  {
    var magnitude: nat := if cents < 0 then -cents else cents;
    whole, tens, ones := Dec(magnitude / 100), 48 + magnitude % 100 / 10, 48 + magnitude % 10;
    ValueOfDec(magnitude / 100);
    assert Lit(".") == [46] && Lit("-") == [45];
  }

  lemma SameAmount(a: seq<Byte>, b: seq<Byte>, x: Byte, y: Byte, u: Byte, v: Byte)
    requires a + [46, x, y] == b + [46, u, v]
    ensures a == b && x == u && y == v
  {
    var s := a + [46, x, y];
    assert s[..|s| - 3] == a && s[..|s| - 3] == b;
    assert s[|s| - 2] == x && s[|s| - 2] == u && s[|s| - 1] == y && s[|s| - 1] == v;
  }

  /** Different amounts are printed differently. */
  lemma MoneyIsInjective(a: int, b: int)
    requires Money(a) == Money(b)
    ensures a == b
  {
    var wholeA, tensA, onesA := MoneyParts(a);
    var wholeB, tensB, onesB := MoneyParts(b);
    assert Money(a)[0] == 45 <==> a < 0;
    assert Money(b)[0] == 45 <==> b < 0;
    var sign: seq<Byte> := if a < 0 then [45] else [];
    SameAmount(sign + wholeA, sign + wholeB, tensA, onesA, tensB, onesB);
    assert (sign + wholeA)[|sign|..] == wholeA && (sign + wholeB)[|sign|..] == wholeB;
  }

  function ItemLine(item: Item): Text {
    (match item.name case Some(n) => n case None => item.productId)
    + Lit("  x") + Dec(item.quantity) + Lit("  @ $") + Money(item.unitCents)
    + Lit(" = $") + Money(item.unitCents * item.quantity)
  }

  function ItemsTotal(items: seq<Item>): int {
    if items == [] then 0
    else ItemsTotal(items[..|items| - 1]) + items[|items| - 1].unitCents * items[|items| - 1].quantity
  }

  function Total(order: Order): int {
    ItemsTotal(order.items) - (match order.discountCents case Some(d) => d case None => 0)
  }

  function Heading(order: Order): seq<Text> {
    [Lit("ORDER RECEIPT"), Lit("Order: ") + order.id, Lit("Status: ") + order.status,
     Lit("Placed: ") + order.placed, []]
  }

  function DiscountLines(order: Order): seq<Text> {
    match order.discountCents
    case Some(d) => [[], Lit("Discount: -$") + Money(d)]
    case None => []
  }

  function LinesOf(order: Order): seq<Text> {
    Heading(order)
    + seq(|order.items|, i requires 0 <= i < |order.items| => ItemLine(order.items[i]))
    + DiscountLines(order)
    + [[], Lit("Total: $") + Money(Total(order))]
  }

  // ---- what the lines say -------------------------------------------------------------------

  /** A numeral without leading zeros. */
  predicate IsNumeral(t: Text) { t != [] && AllDigits(t) && (|t| > 1 ==> t[0] != 48) }

  /** A numeral, a point and two digits, in hundredths. */
  function ReadUnsigned(m: Text): Option<nat> {
    var n := |m| - 3;
    if n < 1 || !IsNumeral(m[..n]) || m[n] != 46 || !IsDigit(m[n + 1]) || !IsDigit(m[n + 2]) then None
    else Some(Value(m[..n]) * 100 + (m[n + 1] - 48) * 10 + (m[n + 2] - 48))
  }

  /** An amount in cents, with a minus sign when it is negative. */
  function ReadMoney(t: Text): Option<int> {
    if t != [] && t[0] == 45 then
      var cents :- ReadUnsigned(t[1..]);
      if cents == 0 then None else Some(-(cents as int))
    else
      var cents :- ReadUnsigned(t);
      Some(cents)
  }

  /** What an item costs. */
  function Cents(): Item -> int { (item: Item) => item.unitCents * item.quantity }

  /** `words` and then an amount that reads as `cents`. */
  predicate SaysAmount(line: Text, words: Text, cents: int) {
    words <= line && ReadMoney(line[|words|..]) == Some(cents)
  }

  /** The item's name, or its product's id without one, its quantity, unit price and their product. */
  ghost predicate SaysItem(line: Text, item: Item) {
    exists quantity: Text, unit: Text, total: Text ::
      && line == (match item.name case Some(n) => n case None => item.productId)
                 + Lit("  x") + quantity + Lit("  @ $") + unit + Lit(" = $") + total
      && IsNumeral(quantity) && Value(quantity) == item.quantity
      && ReadMoney(unit) == Some(item.unitCents) && ReadMoney(total) == Some(item.unitCents * item.quantity)
  }

  predicate SaysHeading(lines: seq<Text>, order: Order)
    requires |lines| >= 5
  {
    && lines[0] == Lit("ORDER RECEIPT") && lines[1] == Lit("Order: ") + order.id
    && lines[2] == Lit("Status: ") + order.status && lines[3] == Lit("Placed: ") + order.placed && lines[4] == []
  }

  ghost predicate SaysItems(lines: seq<Text>, items: seq<Item>) {
    |lines| == |items| && forall i :: 0 <= i < |items| ==> SaysItem(lines[i], items[i])
  }

  predicate SaysDiscount(lines: seq<Text>, discount: Option<int>) {
    match discount
    case None => lines == []
    case Some(d) => |lines| == 2 && lines[0] == [] && SaysAmount(lines[1], Lit("Discount: -$"), d)
  }

  predicate SaysTotal(lines: seq<Text>, cents: int) {
    |lines| == 2 && lines[0] == [] && SaysAmount(lines[1], Lit("Total: $"), cents)
  }

  function DiscountOf(order: Order): int { match order.discountCents case Some(d) => d case None => 0 }

  /** Five lines of heading, a line an item, an empty line and the discount if there is one, and an empty line and the total. */
  ghost predicate SaysOrder(lines: seq<Text>, order: Order) {
    var n := 5 + |order.items|;
    && n + 2 <= |lines|
    && SaysHeading(lines[..5], order) && SaysItems(lines[5..n], order.items)
    && SaysDiscount(lines[n..|lines| - 2], order.discountCents)
    && SaysTotal(lines[|lines| - 2..], Sum(Cents(), order.items) - DiscountOf(order))
  }

  lemma {:induction false} DecIsNumeral(n: nat)
    ensures IsNumeral(Dec(n)) && (n > 0 ==> Dec(n)[0] != 48)
  {
    if n >= 10 { DecIsNumeral(n / 10); }
  }

  lemma UnsignedReads(whole: Text, tens: Byte, ones: Byte)
    requires IsNumeral(whole) && IsDigit(tens) && IsDigit(ones)
    ensures ReadUnsigned(whole + [46, tens, ones]) == Some(Value(whole) * 100 + (tens - 48) * 10 + (ones - 48))
  {
    var m: Text := whole + [46, tens, ones];
    assert m[..|m| - 3] == whole;
  }

  lemma SignedReads(m: Text, cents: nat)
    requires ReadUnsigned(m) == Some(cents)
    ensures ReadMoney(m) == Some(cents) && (cents > 0 ==> ReadMoney([45] + m) == Some(-(cents as int)))
  {
    assert m[..|m| - 3][0] == m[0] && IsDigit(m[0]);
    assert ([45] + m)[1..] == m;
  }

  /** A printed amount reads as that amount. */
  lemma MoneyReads(cents: int)
    ensures ReadMoney(Money(cents)) == Some(cents)
  {
    var whole, tens, ones := MoneyParts(cents);
    var magnitude: nat := if cents < 0 then -cents else cents;
    DecIsNumeral(magnitude / 100);
    UnsignedReads(whole, tens, ones);
    SignedReads(whole + [46, tens, ones], magnitude);
    assert Money(cents) == (if cents < 0 then [45] else []) + (whole + [46, tens, ones]);
    assert [] + (whole + [46, tens, ones]) == whole + [46, tens, ones];
  }

  lemma LabelReads(words: Text, cents: int)
    ensures SaysAmount(words + Money(cents), words, cents)
  {
    MoneyReads(cents);
    assert (words + Money(cents))[|words|..] == Money(cents);
  }

  lemma ItemLineSays(item: Item)
    ensures SaysItem(ItemLine(item), item)
  {
    DecIsNumeral(item.quantity);
    ValueOfDec(item.quantity);
    MoneyReads(item.unitCents);
    MoneyReads(item.unitCents * item.quantity);
  }

  lemma {:induction false} ItemsTotalIsSum(items: seq<Item>)
    ensures ItemsTotal(items) == Sum(Cents(), items)
  {
    if items != [] { ItemsTotalIsSum(items[..|items| - 1]); }
  }

  lemma FourParts(a: seq<Text>, b: seq<Text>, c: seq<Text>, d: seq<Text>)
    requires |a| == 5 && |d| == 2
    ensures var all := a + b + c + d; var n := 5 + |b|;
            && n + 2 <= |all| && all[..5] == a && all[5..n] == b && all[n..|all| - 2] == c && all[|all| - 2..] == d
  {
  }

  lemma DiscountSays(order: Order)
    ensures SaysDiscount(DiscountLines(order), order.discountCents)
  {
    if order.discountCents.Some? { LabelReads(Lit("Discount: -$"), order.discountCents.value); }
  }

  lemma TotalSays(order: Order)
    ensures SaysTotal([[], Lit("Total: $") + Money(Total(order))], Sum(Cents(), order.items) - DiscountOf(order))
  {
    ItemsTotalIsSum(order.items);
    LabelReads(Lit("Total: $"), Total(order));
  }

  function ItemLines(items: seq<Item>): seq<Text> {
    seq(|items|, i requires 0 <= i < |items| => ItemLine(items[i]))
  }

  lemma ItemsSay(items: seq<Item>)
    ensures SaysItems(ItemLines(items), items)
  {
    forall i | 0 <= i < |items|
      ensures SaysItem(ItemLines(items)[i], items[i])
    {
      ItemLineSays(items[i]);
    }
  }

  /** The receipt says what was ordered, what each line costs, the discount, and what is due in all. */
  lemma LinesSay(order: Order)
    ensures SaysOrder(LinesOf(order), order)
  {
    var total := [[], Lit("Total: $") + Money(Total(order))];
    FourParts(Heading(order), ItemLines(order.items), DiscountLines(order), total);
    assert LinesOf(order) == Heading(order) + ItemLines(order.items) + DiscountLines(order) + total;
    ItemsSay(order.items);
    DiscountSays(order);
    TotalSays(order);
  }

  /** Its lines are those `LinesSay` is about. */
  method ReceiptLines(order: Order) returns (lines: seq<Text>)
    ensures lines == LinesOf(order)
  {
    lines := Heading(order);
    var total := 0;
    for i := 0 to |order.items|
      invariant lines == Heading(order)
                         + seq(i, j requires 0 <= j < i => ItemLine(order.items[j]))
      invariant total == ItemsTotal(order.items[..i])
    {
      var item := order.items[i];
      assert order.items[..i + 1][..i] == order.items[..i];
      total := total + item.unitCents * item.quantity;
      lines := lines + [ItemLine(item)];
    }
    assert order.items[..|order.items|] == order.items;
    match order.discountCents {
      case Some(d) =>
        total := total - d;
        lines := lines + [[], Lit("Discount: -$") + Money(d)];
      case None =>
    }
    lines := lines + [[], Lit("Total: $") + Money(total)];
  }

  // ---- content streams ----------------------------------------------------------------------

  /** `s.replace(/c/g, other)`. */
  function Replace(s: Text, c: Unit, other: Text): Text {
    if s == [] then [] else (if s[0] == c then other else [s[0]]) + Replace(s[1..], c, other)
  }

  const BACKSLASH: Byte := 92
  const OPEN: Byte := 40
  const CLOSE: Byte := 41
  const LF: Byte := 10
  const CR: Byte := 13

  function PdfEscape(s: Text): Text {
    Replace(Replace(Replace(s, BACKSLASH, [BACKSLASH, BACKSLASH]), OPEN, [BACKSLASH, OPEN]),
            CLOSE, [BACKSLASH, CLOSE])
  }

  function ShowOp(line: Text): Text { [OPEN] + PdfEscape(line) + Lit(") Tj") }

  function FollowingLines(lines: seq<Text>): Text {
    if lines == [] then [] else FollowingLines(lines[..|lines| - 1]) + ([LF] + Lit("T*") + [LF] + ShowOp(lines[|lines| - 1]))
  }

  /** Opens the text object, sets font and leading, and moves to the first line. */
  function Prologue(): seq<Byte> {
    Lit("BT") + [LF] + Lit("/F1 11 Tf") + [LF] + Lit("72 740 Td") + [LF] + Lit("14 TL") + [LF]
  }

  function ContentStream(lines: seq<Text>): Text
    requires lines != []
  {
    Prologue() + ShowOp(lines[0]) + FollowingLines(lines[1..]) + [LF] + Lit("ET")
  }

  /** `ops.join('\n')`. */
  function JoinLines(ops: seq<Text>): Text {
    if ops == [] then []
    else if |ops| == 1 then ops[0]
    else JoinLines(ops[..|ops| - 1]) + [LF] + ops[|ops| - 1]
  }

  method BuildContentStream(lines: seq<Text>) returns (stream: Text)
    requires lines != []
    ensures stream == ContentStream(lines)
  {
    var ops: seq<Text> := [Lit("BT"), Lit("/F1 11 Tf"), Lit("72 740 Td"), Lit("14 TL"), ShowOp(lines[0])];
    ghost var head := Prologue() + ShowOp(lines[0]);
    JoinHead(Lit("BT"), Lit("/F1 11 Tf"), Lit("72 740 Td"), Lit("14 TL"), ShowOp(lines[0]));
    var rest := lines[1..];
    for i := 0 to |rest|
      invariant ops != []
      invariant JoinLines(ops) == head + FollowingLines(rest[..i])
    {
      assert rest[..i + 1][..i] == rest[..i];
      ghost var before := ops;
      ops := ops + [Lit("T*"), ShowOp(rest[i])];
      JoinTwo(before, Lit("T*"), ShowOp(rest[i]));
    }
    assert rest[..|rest|] == rest;
    JoinOne(ops, Lit("ET"));
    stream := JoinLines(ops + [Lit("ET")]);
  }

  lemma JoinOne(ops: seq<Text>, a: Text)
    requires ops != []
    ensures JoinLines(ops + [a]) == JoinLines(ops) + [LF] + a
  {
    assert (ops + [a])[..|ops|] == ops;
  }

  lemma JoinTwo(ops: seq<Text>, a: Text, b: Text)
    requires ops != []
    ensures JoinLines(ops + [a, b]) == JoinLines(ops) + ([LF] + a + [LF] + b)
  {
    JoinOne(ops, a);
    JoinOne(ops + [a], b);
    assert ops + [a] + [b] == ops + [a, b];
  }

  lemma JoinHead(a: Text, b: Text, c: Text, d: Text, e: Text)
    ensures JoinLines([a, b, c, d, e]) == a + [LF] + b + [LF] + c + [LF] + d + [LF] + e
  {
    assert [a, b, c, d] + [e] == [a, b, c, d, e];
    assert [a, b] + [c, d] == [a, b, c, d];
    JoinOne([a], b);
    assert [a] + [b] == [a, b];
    JoinTwo([a, b], c, d);
    JoinOne([a, b, c, d], e);
  }

  /** `Buffer.from(text, 'ascii')`: the low byte of every code unit. */
  function Encode(text: Text): seq<Byte> {
    seq(|text|, i requires 0 <= i < |text| => text[i] % 0x100)
  }

  // ---- pagination ---------------------------------------------------------------------------

  const PAGE_LINE_BUDGET := 40

  function Pages(lines: seq<Text>): (pages: seq<seq<Text>>)
    ensures forall i :: 0 <= i < |pages| ==> 0 < |pages[i]| <= PAGE_LINE_BUDGET
  {
    if lines == [] then []
    else if |lines| <= PAGE_LINE_BUDGET then [lines]
    else [lines[..PAGE_LINE_BUDGET]] + Pages(lines[PAGE_LINE_BUDGET..])
  }

  lemma FirstPage(lines: seq<Text>, i: nat, end: nat, after: seq<Text>)
    requires i < |lines| && end == (if i + PAGE_LINE_BUDGET <= |lines| then i + PAGE_LINE_BUDGET else |lines|)
    requires after == if i + PAGE_LINE_BUDGET <= |lines| then lines[i + PAGE_LINE_BUDGET..] else []
    ensures Pages(lines[i..]) == [lines[i..end]] + Pages(after)
  {
    var rest := lines[i..];
    assert lines[i..end] == if |rest| <= PAGE_LINE_BUDGET then rest else rest[..PAGE_LINE_BUDGET];
    assert |rest| > PAGE_LINE_BUDGET ==> rest[PAGE_LINE_BUDGET..] == after;
  }

  method Paginate(lines: seq<Text>) returns (pages: seq<seq<Text>>)
    ensures pages == Pages(lines)
  {
    pages := [];
    var i: nat := 0;
    while i < |lines|
      invariant pages + Pages(if i <= |lines| then lines[i..] else []) == Pages(lines)
    {
      var end := if i + PAGE_LINE_BUDGET <= |lines| then i + PAGE_LINE_BUDGET else |lines|;
      ghost var after := if i + PAGE_LINE_BUDGET <= |lines| then lines[i + PAGE_LINE_BUDGET..] else [];
      FirstPage(lines, i, end, after);
      assert pages + ([lines[i..end]] + Pages(after)) == pages + [lines[i..end]] + Pages(after);
      pages := pages + [lines[i..end]];
      i := i + PAGE_LINE_BUDGET;
    }
  }

  // ---- objects ------------------------------------------------------------------------------

  function Catalog(): seq<Byte> { Lit("<< /Type /Catalog /Pages 2 0 R >>\n") }

  /** The page references `3 0 R 4 0 R ...`, joined by spaces. */
  function Kids(first: nat, n: nat): seq<Byte>
    decreases n
  {
    if n == 0 then []
    else if n == 1 then Dec(first) + Lit(" 0 R")
    else Dec(first) + Lit(" 0 R") + Lit(" ") + Kids(first + 1, n - 1)
  }

  function PagesObject(n: nat): seq<Byte> {
    Lit("<< /Type /Pages /Kids [") + Kids(3, n) + Lit("] /Count ") + Dec(n) + Lit(" >>\n")
  }

  function PageObject(font: nat, contents: nat): seq<Byte> {
    Lit("<< /Type /Page /Parent 2 0 R") + Lit(" /Resources << /Font << /F1 ") + Dec(font)
    + Lit(" 0 R >> >>") + Lit(" /MediaBox [0 0 612 792] /Contents ") + Dec(contents) + Lit(" 0 R >>\n")
  }

  function FontObject(): seq<Byte> { Lit("<< /Type /Font /Subtype /Type1 /BaseFont /Helvetica >>\n") }

  function StreamObject(data: seq<Byte>): seq<Byte> {
    Lit("<< /Length ") + Dec(|data|) + Lit(" /Filter /FlateDecode >>\nstream\n") + data + Lit("\nendstream\n")
  }

  type Deflate = seq<Byte> -> seq<Byte>

  /** 1 catalog, 2 pages, [3..2+n] page objects, one font, then n content streams. */
  function Objects(pages: seq<seq<Text>>, deflate: Deflate): (objects: seq<seq<Byte>>)
    requires forall i :: 0 <= i < |pages| ==> pages[i] != []
    ensures |objects| == 2 * |pages| + 3
  {
    [Catalog(), PagesObject(|pages|)]
    + seq(|pages|, i requires 0 <= i < |pages| => PageObject(3 + |pages|, 4 + |pages| + i))
    + [FontObject()]
    + seq(|pages|, i requires 0 <= i < |pages| => StreamObject(deflate(Encode(ContentStream(pages[i])))))
  }

  function Header(): seq<Byte> {
    [0x25, 0x50, 0x44, 0x46, 0x2d, 0x31, 0x2e, 0x34, 0x0a, 0x25, 0xe2, 0xe3, 0xcf, 0xd3, 0x0a]
  }

  function ObjectBuffer(number: nat, body: seq<Byte>): seq<Byte> {
    Dec(number) + Lit(" 0 obj\n") + body + Lit("endobj\n")
  }

  /** The header followed by the numbered objects. */
  function Assembled(objects: seq<seq<Byte>>): seq<Byte> {
    if objects == [] then Header()
    else Assembled(objects[..|objects| - 1]) + ObjectBuffer(|objects|, objects[|objects| - 1])
  }

  function XrefEntry(offset: nat): seq<Byte> { Pad10(offset) + Lit(" 00000 n \n") }

  /** The entry of object 0 and then those of objects 1 to k. */
  function XrefEntries(objects: seq<seq<Byte>>, k: nat): seq<Byte>
    requires k <= |objects|
  {
    if k == 0 then Lit("0000000000 65535 f \n")
    else XrefEntries(objects, k - 1) + XrefEntry(|Assembled(objects[..k - 1])|)
  }

  function XrefText(objects: seq<seq<Byte>>): seq<Byte> {
    Lit("xref\n0 ") + Dec(|objects| + 1) + Lit("\n") + XrefEntries(objects, |objects|)
    + Lit("trailer\n<< /Size ") + Dec(|objects| + 1) + Lit(" /Root 1 0 R >>\nstartxref\n")
    + Dec(|Assembled(objects)|) + Lit("\n%%EOF")
  }

  function PdfFile(lines: seq<Text>, deflate: Deflate): seq<Byte> {
    var objects := Objects(Pages(lines), deflate);
    Assembled(objects) + XrefText(objects)
  }

  method BuildOrderReceiptPdf(order: Order, deflate: Deflate) returns (pdf: seq<Byte>)
    ensures pdf == PdfFile(LinesOf(order), deflate)
  {
    var lines := ReceiptLines(order);
    var pages := Paginate(lines);
    var pageCount := |pages|;
    var firstPageObjNum := 3;
    var fontObjNum := firstPageObjNum + pageCount;
    var firstContentObjNum := fontObjNum + 1;

    var objects: seq<seq<Byte>> := [Catalog(), PagesObject(pageCount)];
    for i := 0 to pageCount
      invariant objects == [Catalog(), PagesObject(pageCount)]
                           + seq(i, j requires 0 <= j < i => PageObject(3 + |pages|, 4 + |pages| + j))
    {
      objects := objects + [PageObject(fontObjNum, firstContentObjNum + i)];
    }
    objects := objects + [FontObject()];
    ghost var front := objects;
    for i := 0 to pageCount
      invariant objects == front
                           + seq(i, j requires 0 <= j < i => StreamObject(deflate(Encode(ContentStream(pages[j])))))
    {
      var stream := BuildContentStream(pages[i]);
      objects := objects + [StreamObject(deflate(Encode(stream)))];
    }
    assert objects == Objects(pages, deflate);
    pdf := AssembleFile(objects);
  }

  method AssembleFile(objects: seq<seq<Byte>>) returns (pdf: seq<Byte>)
    ensures pdf == Assembled(objects) + XrefText(objects)
  {
    var parts := Header();
    var offsets: seq<nat> := [0];
    var cursor := |parts|;
    for i := 0 to |objects|
      invariant parts == Assembled(objects[..i]) && cursor == |parts|
      invariant |offsets| == i + 1
      invariant forall j :: 1 <= j <= i ==> offsets[j] == |Assembled(objects[..j - 1])|
    {
      offsets := offsets + [cursor];
      var buffer := ObjectBuffer(i + 1, objects[i]);
      assert objects[..i + 1][..i] == objects[..i];
      parts := parts + buffer;
      cursor := cursor + |buffer|;
    }
    assert objects[..|objects|] == objects;

    var xrefOffset := cursor;
    var head := Lit("xref\n0 ") + Dec(|objects| + 1) + Lit("\n");
    var entries := Lit("0000000000 65535 f \n");
    for i := 1 to |objects| + 1
      invariant entries == XrefEntries(objects, i - 1)
    {
      entries := entries + XrefEntry(offsets[i]);
    }
    var xref := head + entries
      + Lit("trailer\n<< /Size ") + Dec(|objects| + 1) + Lit(" /Root 1 0 R >>\nstartxref\n")
      + Dec(xrefOffset) + Lit("\n%%EOF");
    pdf := parts + xref;
  }
}
