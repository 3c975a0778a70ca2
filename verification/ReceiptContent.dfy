/** Reading a content stream back: every line returns, whatever parentheses and backslashes it holds. */
module ReceiptContent {
  import opened Wrappers
  import opened Bytes
  import opened ReceiptWriter
  import opened ReceiptReader

  /** Text whose code units all fit the one byte `Buffer.from(_, 'ascii')` keeps. */
  predicate Latin(t: Text) { forall i :: 0 <= i < |t| ==> t[i] < 0x100 }

  /** What an end-of-line inside a literal string reads as (ISO 32000-1 section 7.3.4.2). */
  function Normalise(t: Text): (r: Text)
    requires Latin(t)
    ensures Latin(r) && CR !in r
    decreases |t|
  {
    if t == [] then []
    else if t[0] == CR then [LF] + Normalise(t[if |t| > 1 && t[1] == LF then 2 else 1..])
    else [t[0]] + Normalise(t[1..])
  }

  // ---- escaping -----------------------------------------------------------------------------

  function EscapeUnit(u: Unit): Text {
    if u == BACKSLASH || u == OPEN || u == CLOSE then [BACKSLASH, u] else [u]
  }

  function Escaped(t: Text): Text {
    if t == [] then [] else EscapeUnit(t[0]) + Escaped(t[1..])
  }

  lemma {:induction false} ReplaceConcat(a: Text, b: Text, c: Unit, other: Text)
    ensures Replace(a + b, c, other) == Replace(a, c, other) + Replace(b, c, other)
  {
    if a == [] {
      assert a + b == b;
    } else {
      assert (a + b)[1..] == a[1..] + b;
      ReplaceConcat(a[1..], b, c, other);
    }
  }

  lemma ReplaceOne(u: Unit, c: Unit, other: Text)
    ensures Replace([u], c, other) == if u == c then other else [u]
  {
    assert Replace([u][1..], c, other) == [];
  }

  lemma ReplaceTwo(u: Unit, v: Unit, c: Unit, other: Text)
    ensures Replace([u, v], c, other)
            == (if u == c then other else [u]) + (if v == c then other else [v])
  {
    assert [u, v] == [u] + [v];
    ReplaceConcat([u], [v], c, other);
    ReplaceOne(u, c, other);
    ReplaceOne(v, c, other);
  }

  lemma EscapeOne(u: Unit)
    ensures PdfEscape([u]) == EscapeUnit(u)
  {
    ReplaceOne(u, BACKSLASH, [BACKSLASH, BACKSLASH]);
    if u == BACKSLASH {
      ReplaceTwo(u, u, OPEN, [BACKSLASH, OPEN]);
      ReplaceTwo(u, u, CLOSE, [BACKSLASH, CLOSE]);
    } else {
      ReplaceOne(u, OPEN, [BACKSLASH, OPEN]);
      ReplaceOne(u, CLOSE, [BACKSLASH, CLOSE]);
      ReplaceTwo(BACKSLASH, u, CLOSE, [BACKSLASH, CLOSE]);
    }
  }

  /** The three passes, in the source's order, escape each unit once. */
  lemma {:induction false} EscapeIsPerUnit(t: Text)
    ensures PdfEscape(t) == Escaped(t)
  {
    if t != [] {
      assert t == [t[0]] + t[1..];
      var backslashes := [BACKSLASH, BACKSLASH];
      ReplaceConcat([t[0]], t[1..], BACKSLASH, backslashes);
      var a, b := Replace([t[0]], BACKSLASH, backslashes), Replace(t[1..], BACKSLASH, backslashes);
      ReplaceConcat(a, b, OPEN, [BACKSLASH, OPEN]);
      ReplaceConcat(Replace(a, OPEN, [BACKSLASH, OPEN]), Replace(b, OPEN, [BACKSLASH, OPEN]),
                    CLOSE, [BACKSLASH, CLOSE]);
      EscapeOne(t[0]);
      EscapeIsPerUnit(t[1..]);
    }
  }

  lemma {:induction false} EscapedLatin(t: Text)
    requires Latin(t)
    ensures Latin(Escaped(t))
  {
    if t != [] { EscapedLatin(t[1..]); }
  }

  lemma EncodeConcat(a: Text, b: Text)
    ensures Encode(a + b) == Encode(a) + Encode(b)
  {
  }

  lemma LiteralStep(u: Byte, after: seq<Byte>, text: seq<Byte>, rest: seq<Byte>)
    requires Literal(after, 0) == Some((text, rest))
    ensures u == BACKSLASH || u == OPEN || u == CLOSE
            ==> Literal([BACKSLASH, u] + after, 0) == Some(([u] + text, rest))
    ensures u != BACKSLASH && u != OPEN && u != CLOSE && u != CR
            ==> Literal([u] + after, 0) == Some(([u] + text, rest))
    ensures u == CR && after[0] != LF ==> Literal([u] + after, 0) == Some(([LF] + text, rest))
    ensures Literal([CR, LF] + after, 0) == Some(([LF] + text, rest))
  {
    assert ([u] + after)[1..] == after;
    assert ([BACKSLASH, u] + after)[1..] == [u] + after && ([BACKSLASH, u] + after)[2..] == after;
    assert ([CR, LF] + after)[2..] == after;
  }

  /** The bytes read as the text, and reading stops at its closing parenthesis. */
  ghost predicate ReadsAs(bytes: seq<Byte>, text: seq<Byte>, rest: seq<Byte>) { Literal(bytes, 0) == Some((text, rest)) }

  function Closed(t: Text, rest: seq<Byte>): seq<Byte>
    requires Latin(t)
  {
    Encode(Escaped(t)) + [CLOSE] + rest
  }

  lemma LiteralOfLineEnd(t: Text, rest: seq<Byte>)
    requires Latin(t) && |t| > 1 && t[0] == CR && t[1] == LF && ReadsAs(Closed(t[2..], rest), Normalise(t[2..]), rest)
    ensures ReadsAs(Closed(t, rest), Normalise(t), rest)
  {
    var after := Closed(t[2..], rest);
    LiteralStep(CR, after, Normalise(t[2..]), rest);
    EscapedSplit(t, rest);
    EscapedSplit(t[1..], rest);
    assert t[1..][1..] == t[2..];
    assert [CR] + ([LF] + after) == [CR, LF] + after;
  }

  lemma LiteralOfUnit(t: Text, rest: seq<Byte>)
    requires Latin(t) && t != [] && !(t[0] == CR && |t| > 1 && t[1] == LF)
    requires ReadsAs(Closed(t[1..], rest), Normalise(t[1..]), rest)
    ensures ReadsAs(Closed(t, rest), Normalise(t), rest)
  {
    EscapedSplit(t, rest);
    FirstEscaped(t[1..]);
    UnitReads(t[0], Closed(t[1..], rest), Normalise(t[1..]), rest);
  }

  lemma UnitReads(u: Byte, after: seq<Byte>, text: seq<Byte>, rest: seq<Byte>)
    requires ReadsAs(after, text, rest) && after != [] && (u == CR ==> after[0] != LF)
    ensures ReadsAs(EscapeUnit(u) + after, [if u == CR then LF else u] + text, rest)
  {
    LiteralStep(u, after, text, rest);
  }

  /** Reading the literal that writing a line produced stops at its closing parenthesis. */
  lemma {:induction false} LiteralOfEscaped(t: Text, rest: seq<Byte>)
    requires Latin(t)
    ensures ReadsAs(Encode(Escaped(t)) + [CLOSE] + rest, Normalise(t), rest)
    decreases |t|
  {
    if t == [] {
      var s := Encode(Escaped(t)) + [CLOSE] + rest;
      assert s[0] == CLOSE && s[1..] == rest;
    } else if t[0] == CR && |t| > 1 && t[1] == LF {
      LiteralOfEscaped(t[2..], rest);
      LiteralOfLineEnd(t, rest);
    } else {
      LiteralOfEscaped(t[1..], rest);
      LiteralOfUnit(t, rest);
    }
  }

  lemma EscapedSplit(t: Text, rest: seq<Byte>)
    requires Latin(t) && t != []
    ensures Encode(Escaped(t)) + [CLOSE] + rest == EscapeUnit(t[0]) + (Encode(Escaped(t[1..])) + [CLOSE] + rest)
  {
    EncodeConcat(EscapeUnit(t[0]), Escaped(t[1..]));
    EncodeBytes(EscapeUnit(t[0]));
    Associate(EscapeUnit(t[0]), Encode(Escaped(t[1..])), [CLOSE], rest);
  }

  lemma Associate(a: seq<Byte>, b: seq<Byte>, c: seq<Byte>, d: seq<Byte>)
    ensures (a + b) + c + d == a + (b + c + d)
  {
  }

  lemma EncodeBytes(s: seq<Byte>)
    ensures Encode(s) == s
  {
  }

  lemma FirstEscaped(t: Text)
    requires Latin(t)
    ensures t == [] ==> Escaped(t) == []
    ensures t != [] ==> |Encode(Escaped(t))| > 0 && (Encode(Escaped(t))[0] == LF <==> t[0] == LF)
  {
  }

  lemma {:induction false} NormaliseFixed(t: Text)
    requires Latin(t)
    ensures Normalise(t) == t <==> CR !in t
  {
    if t != [] && t[0] != CR {
      NormaliseFixed(t[1..]);
      assert t == [t[0]] + t[1..];
    }
  }

  // ---- tokens -------------------------------------------------------------------------------

  predicate IsWord(w: seq<Byte>) {
    && w != [] && !IsWhite(w[0]) && w[0] != OPEN
    && forall i :: 1 <= i < |w| ==> !IsWhite(w[i]) && !IsDelimiter(w[i])
  }

  predicate EndsWord(rest: seq<Byte>) { rest == [] || IsWhite(rest[0]) || IsDelimiter(rest[0]) }

  lemma {:induction false} RegularRunSplit(w: seq<Byte>, rest: seq<Byte>)
    requires forall i :: 0 <= i < |w| ==> !IsWhite(w[i]) && !IsDelimiter(w[i])
    requires EndsWord(rest)
    ensures RegularRun(w + rest) == |w|
  {
    if w == [] {
      assert w + rest == rest;
    } else {
      assert (w + rest)[1..] == w[1..] + rest;
      RegularRunSplit(w[1..], rest);
    }
  }

  lemma TokenWord(w: seq<Byte>, rest: seq<Byte>, ts: seq<Token>)
    requires IsWord(w) && EndsWord(rest) && Tokens(rest) == Some(ts)
    ensures Tokens(w + rest) == Some([Word(w)] + ts)
  {
    var s := w + rest;
    assert s[1..] == w[1..] + rest;
    RegularRunSplit(w[1..], rest);
    assert s[..|w|] == w && s[|w|..] == rest;
  }

  lemma TokenWhite(white: Byte, rest: seq<Byte>, ts: seq<Token>)
    requires IsWhite(white) && Tokens(rest) == Some(ts)
    ensures Tokens([white] + rest) == Some(ts)
  {
    assert ([white] + rest)[1..] == rest;
  }

  function ShowTokens(line: Text): seq<Token>
    requires Latin(line)
  {
    [Str(Normalise(line)), Word(Lit("Tj"))]
  }

  lemma TokenString(body: seq<Byte>, after: seq<Byte>, text: seq<Byte>, ts: seq<Token>)
    requires Literal(body, 0) == Some((text, after)) && Tokens(after) == Some(ts)
    ensures Tokens([OPEN] + body) == Some([Str(text)] + ts)
  {
    assert ([OPEN] + body)[1..] == body;
  }

  lemma ShowOpBytes(line: Text, rest: seq<Byte>)
    ensures Encode(ShowOp(line)) + rest
            == [OPEN] + (Encode(Escaped(line)) + [CLOSE] + ([32] + (Lit("Tj") + rest)))
  {
    EscapeIsPerUnit(line);
    EncodeConcat([OPEN] + PdfEscape(line), Lit(") Tj"));
    EncodeConcat([OPEN], PdfEscape(line));
    assert Encode(Lit(") Tj")) == [CLOSE] + ([32] + Lit("Tj"));
    Reassociate(Encode(Escaped(line)), Lit("Tj"), rest);
  }

  lemma Reassociate(a: seq<Byte>, tj: seq<Byte>, rest: seq<Byte>)
    ensures [OPEN] + a + ([CLOSE] + ([32] + tj)) + rest == [OPEN] + (a + [CLOSE] + ([32] + (tj + rest)))
  {
  }

  lemma TokensOfTj(rest: seq<Byte>, ts: seq<Token>)
    requires EndsWord(rest) && Tokens(rest) == Some(ts)
    ensures Tokens([32] + (Lit("Tj") + rest)) == Some([Word(Lit("Tj"))] + ts)
  {
    var tj := Lit("Tj");
    TokenWord(tj, rest, ts);
    TokenWhite(32, tj + rest, [Word(tj)] + ts);
  }

  lemma TokensOfLine(line: Text, after: seq<Byte>, ts: seq<Token>)
    requires Latin(line) && Tokens(after) == Some(ts)
    ensures Tokens([OPEN] + (Encode(Escaped(line)) + [CLOSE] + after)) == Some([Str(Normalise(line))] + ts)
  {
    LiteralOfEscaped(line, after);
    TokenString(Encode(Escaped(line)) + [CLOSE] + after, after, Normalise(line), ts);
  }

  lemma ShowTokensSplit(line: Text, ts: seq<Token>)
    requires Latin(line)
    ensures [Str(Normalise(line))] + ([Word(Lit("Tj"))] + ts) == ShowTokens(line) + ts
  {
  }

  lemma TokensOfShow(line: Text, rest: seq<Byte>, ts: seq<Token>)
    requires Latin(line) && EndsWord(rest) && Tokens(rest) == Some(ts)
    ensures Tokens(Encode(ShowOp(line)) + rest) == Some(ShowTokens(line) + ts)
  {
    TokensOfTj(rest, ts);
    TokensOfLine(line, [32] + (Lit("Tj") + rest), [Word(Lit("Tj"))] + ts);
    ShowOpBytes(line, rest);
    ShowTokensSplit(line, ts);
  }

  predicate AllLatin(lines: seq<Text>) { forall i :: 0 <= i < |lines| ==> Latin(lines[i]) }

  function NormaliseAll(lines: seq<Text>): (r: seq<seq<Byte>>)
    requires AllLatin(lines)
    ensures |r| == |lines|
  {
    seq(|lines|, i requires 0 <= i < |lines| => Normalise(lines[i]))
  }

  function FollowTokens(lines: seq<Text>): seq<Token>
    requires AllLatin(lines)
  {
    if lines == [] then []
    else FollowTokens(lines[..|lines| - 1]) + ([Word(Lit("T*"))] + ShowTokens(lines[|lines| - 1]))
  }

  ghost predicate TokensAre(bytes: seq<Byte>, ts: seq<Token>) { Tokens(bytes) == Some(ts) }

  /** One more line after the lines before it. */
  lemma TokensOfOneMore(line: Text, rest: seq<Byte>, ts: seq<Token>)
    requires Latin(line) && EndsWord(rest) && TokensAre(rest, ts)
    ensures TokensAre([LF] + (Lit("T*") + ([LF] + (Encode(ShowOp(line)) + rest))), [Word(Lit("T*"))] + (ShowTokens(line) + ts))
  {
    TokensOfShow(line, rest, ts);
    TokensOfNextLine(Encode(ShowOp(line)) + rest, ShowTokens(line) + ts);
  }

  lemma {:induction false} TokensOfFollowing(lines: seq<Text>, rest: seq<Byte>, ts: seq<Token>)
    requires AllLatin(lines) && EndsWord(rest) && TokensAre(rest, ts)
    ensures EndsWord(Encode(FollowingLines(lines)) + rest)
    ensures TokensAre(Encode(FollowingLines(lines)) + rest, FollowTokens(lines) + ts)
  {
    if lines == [] {
      assert Encode(FollowingLines(lines)) + rest == rest;
      assert FollowTokens(lines) + ts == ts;
    } else {
      var front, line := lines[..|lines| - 1], lines[|lines| - 1];
      TokensOfOneMore(line, rest, ts);
      var after := [Word(Lit("T*"))] + (ShowTokens(line) + ts);
      TokensOfFollowing(front, [LF] + (Lit("T*") + ([LF] + (Encode(ShowOp(line)) + rest))), after);
      FollowingBytes(lines, rest);
      Regroup(FollowTokens(front), [Word(Lit("T*"))], ShowTokens(line), ts);
    }
  }

  lemma Regroup(a: seq<Token>, b: seq<Token>, c: seq<Token>, d: seq<Token>)
    ensures a + (b + (c + d)) == a + (b + c) + d
  {
  }

  lemma TokensOfNextLine(show: seq<Byte>, ts: seq<Token>)
    requires Tokens(show) == Some(ts)
    ensures Tokens([LF] + (Lit("T*") + ([LF] + show))) == Some([Word(Lit("T*"))] + ts)
  {
    var w := Lit("T*");
    TokenWhite(LF, show, ts);
    TokenWord(w, [LF] + show, ts);
    TokenWhite(LF, w + ([LF] + show), [Word(w)] + ts);
  }

  lemma FollowingBytes(lines: seq<Text>, rest: seq<Byte>)
    requires lines != []
    ensures Encode(FollowingLines(lines)) + rest
            == Encode(FollowingLines(lines[..|lines| - 1]))
               + ([LF] + (Lit("T*") + ([LF] + (Encode(ShowOp(lines[|lines| - 1])) + rest))))
  {
    EncodeNextLine(FollowingLines(lines[..|lines| - 1]), Lit("T*"), ShowOp(lines[|lines| - 1]), rest);
  }

  lemma EncodeNextLine(front: Text, w: seq<Byte>, show: Text, rest: seq<Byte>)
    ensures Encode(front + ([LF] + w + [LF] + show)) + rest
            == Encode(front) + ([LF] + (w + ([LF] + (Encode(show) + rest))))
  {
    EncodeConcat(front, [LF] + w + [LF] + show);
    EncodeConcat([LF] + w + [LF], show);
    EncodeBytes([LF] + w + [LF]);
  }

  function Words(ws: seq<seq<Byte>>): seq<Token> {
    seq(|ws|, i requires 0 <= i < |ws| => Word(ws[i]))
  }

  /** Each word followed by its white-space byte. */
  function Spaced(ws: seq<seq<Byte>>, whites: seq<Byte>): seq<Byte>
    requires |ws| == |whites|
  {
    if ws == [] then [] else ws[0] + ([whites[0]] + Spaced(ws[1..], whites[1..]))
  }

  predicate AllWords(ws: seq<seq<Byte>>) { forall i :: 0 <= i < |ws| ==> IsWord(ws[i]) }

  predicate AllWhite(whites: seq<Byte>) { forall i :: 0 <= i < |whites| ==> IsWhite(whites[i]) }

  lemma SpacedSplit(ws: seq<seq<Byte>>, whites: seq<Byte>, rest: seq<Byte>)
    requires |ws| == |whites| > 0
    ensures Spaced(ws, whites) + rest == ws[0] + ([whites[0]] + (Spaced(ws[1..], whites[1..]) + rest))
  {
  }

  lemma TokenSpaced(w: seq<Byte>, white: Byte, after: seq<Byte>, ts: seq<Token>)
    requires IsWord(w) && IsWhite(white) && Tokens(after) == Some(ts)
    ensures Tokens(w + ([white] + after)) == Some([Word(w)] + ts)
  {
    TokenWhite(white, after, ts);
    TokenWord(w, [white] + after, ts);
  }

  lemma WordsSplit(ws: seq<seq<Byte>>, ts: seq<Token>)
    requires ws != []
    ensures Words(ws) + ts == [Word(ws[0])] + (Words(ws[1..]) + ts)
  {
  }

  lemma {:induction false} TokensOfSpaced(ws: seq<seq<Byte>>, whites: seq<Byte>, rest: seq<Byte>, ts: seq<Token>)
    requires |ws| == |whites| && Tokens(rest) == Some(ts)
    requires AllWords(ws) && AllWhite(whites)
    ensures Tokens(Spaced(ws, whites) + rest) == Some(Words(ws) + ts)
  {
    if ws == [] {
      assert Spaced(ws, whites) + rest == rest && Words(ws) + ts == ts;
    } else {
      TokensOfSpaced(ws[1..], whites[1..], rest, ts);
      TokenSpaced(ws[0], whites[0], Spaced(ws[1..], whites[1..]) + rest, Words(ws[1..]) + ts);
      SpacedSplit(ws, whites, rest);
      WordsSplit(ws, ts);
    }
  }

  const OPERAND_NAMES: seq<string> := ["/F1", "11", "Tf", "72", "740", "Td", "14", "TL"]

  function Operands(): seq<seq<Byte>> {
    seq(|OPERAND_NAMES|, i requires 0 <= i < |OPERAND_NAMES| => Lit(OPERAND_NAMES[i]))
  }

  const OPERAND_WHITES: seq<Byte> := [32, 32, LF, 32, 32, LF, 32, LF]

  predicate ShowsNothing(w: seq<Byte>) { w != Lit("BT") && w != Lit("ET") && w != Lit("T*") }

  lemma NoOperator(w: seq<Byte>)
    requires |w| == 2 ==> w[0] != 66 && w[0] != 69 && w[1] != 42
    ensures ShowsNothing(w)
  {
    assert Lit("BT")[0] == 66 && Lit("ET")[0] == 69 && Lit("T*")[1] == 42;
  }

  lemma WordFacts(s: string)
    requires s in OPERAND_NAMES
    ensures IsWord(Lit(s)) && ShowsNothing(Lit(s))
  {
    NoOperator(Lit(s));
  }

  lemma OperandsAreWords()
    ensures AllWords(Operands())
    ensures forall i :: 0 <= i < |Operands()| ==> ShowsNothing(Operands()[i])
  {
    forall i | 0 <= i < |OPERAND_NAMES|
      ensures IsWord(Operands()[i]) && ShowsNothing(Operands()[i])
    {
      WordFacts(OPERAND_NAMES[i]);
    }
  }

  function PrologueTokens(): seq<Token> { [Word(Lit("BT"))] + Words(Operands()) }

  lemma FontWords()
    ensures Lit("/F1 11 Tf") == Lit("/F1") + ([32] + (Lit("11") + ([32] + Lit("Tf"))))
  {
  }

  lemma PositionWords()
    ensures Lit("72 740 Td") == Lit("72") + ([32] + (Lit("740") + ([32] + Lit("Td"))))
  {
  }

  lemma LeadingWords()
    ensures Lit("14 TL") == Lit("14") + ([32] + Lit("TL"))
  {
  }

  lemma SpacedCons(a: seq<Byte>, rest: seq<seq<Byte>>, x: Byte, whites: seq<Byte>)
    requires |rest| == |whites|
    ensures Spaced([a] + rest, [x] + whites) == a + ([x] + Spaced(rest, whites))
  {
    assert ([a] + rest)[1..] == rest && ([x] + whites)[1..] == whites;
  }

  lemma SpacedPair(a: seq<Byte>, b: seq<Byte>, rest: seq<seq<Byte>>, x: Byte, y: Byte, whites: seq<Byte>)
    requires |rest| == |whites|
    ensures Spaced([a, b] + rest, [x, y] + whites) == a + ([x] + b) + [y] + Spaced(rest, whites)
  {
    SpacedCons(b, rest, y, whites);
    SpacedCons(a, [b] + rest, x, [y] + whites);
    assert [a] + ([b] + rest) == [a, b] + rest && [x] + ([y] + whites) == [x, y] + whites;
    Nest(a, [x], b, [y], Spaced(rest, whites));
  }

  lemma Nest(a: seq<Byte>, x: seq<Byte>, b: seq<Byte>, y: seq<Byte>, rest: seq<Byte>)
    ensures a + (x + (b + (y + rest))) == a + (x + b) + y + rest
  {
  }

  lemma SpacedTriple(a: seq<Byte>, b: seq<Byte>, c: seq<Byte>, rest: seq<seq<Byte>>, whites: seq<Byte>)
    requires |rest| == |whites|
    ensures Spaced([a, b, c] + rest, [32, 32, LF] + whites)
            == a + ([32] + (b + ([32] + c))) + [LF] + Spaced(rest, whites)
  {
    SpacedPair(b, c, rest, 32, LF, whites);
    SpacedCons(a, [b, c] + rest, 32, [32, LF] + whites);
    assert [a] + ([b, c] + rest) == [a, b, c] + rest;
    assert [32] + ([32, LF] + whites) == [32, 32, LF] + whites;
    NestThree(a, [32], b + ([32] + c), [LF], Spaced(rest, whites));
  }

  lemma NestThree(a: seq<Byte>, x: seq<Byte>, bc: seq<Byte>, y: seq<Byte>, rest: seq<Byte>)
    ensures a + (x + (bc + y + rest)) == a + (x + bc) + y + rest
  {
  }

  lemma PrologueBytes(rest: seq<Byte>)
    ensures Prologue() + rest == Lit("BT") + ([LF] + (Spaced(Operands(), OPERAND_WHITES) + rest))
  {
    FontWords();
    PositionWords();
    LeadingWords();
    var leading, leadingWhites := [Lit("14"), Lit("TL")], [32, LF];
    SpacedPair(Lit("14"), Lit("TL"), [], 32, LF, []);
    assert leading + [] == leading && leadingWhites + [] == leadingWhites;
    var position := [Lit("72"), Lit("740"), Lit("Td")] + leading;
    SpacedTriple(Lit("72"), Lit("740"), Lit("Td"), leading, leadingWhites);
    SpacedTriple(Lit("/F1"), Lit("11"), Lit("Tf"), position, [32, 32, LF] + leadingWhites);
    assert Operands() == [Lit("/F1"), Lit("11"), Lit("Tf")] + position;
    assert OPERAND_WHITES == [32, 32, LF] + ([32, 32, LF] + leadingWhites);
    PrologueReassociate(Lit("BT"), Lit("/F1 11 Tf"), Lit("72 740 Td"), Lit("14 TL"), rest);
  }

  lemma PrologueReassociate(a: seq<Byte>, b: seq<Byte>, c: seq<Byte>, d: seq<Byte>, rest: seq<Byte>)
    ensures a + [LF] + b + [LF] + c + [LF] + d + [LF] + rest
            == a + ([LF] + (b + [LF] + (c + [LF] + (d + [LF] + [])) + rest))
  {
  }

  lemma TokensOfWordLine(w: seq<Byte>, ws: seq<seq<Byte>>, whites: seq<Byte>, rest: seq<Byte>, ts: seq<Token>)
    requires |ws| == |whites| && Tokens(rest) == Some(ts)
    requires IsWord(w) && AllWords(ws) && AllWhite(whites)
    ensures Tokens(w + ([LF] + (Spaced(ws, whites) + rest))) == Some([Word(w)] + (Words(ws) + ts))
  {
    TokensOfSpaced(ws, whites, rest, ts);
    TokenSpaced(w, LF, Spaced(ws, whites) + rest, Words(ws) + ts);
  }

  lemma PrologueTokensSplit(ts: seq<Token>)
    ensures PrologueTokens() + ts == [Word(Lit("BT"))] + (Words(Operands()) + ts)
  {
  }

  lemma TokensOfPrologue(rest: seq<Byte>, ts: seq<Token>)
    requires Tokens(rest) == Some(ts)
    ensures Tokens(Prologue() + rest) == Some(PrologueTokens() + ts)
  {
    OperandsAreWords();
    TokensOfWordLine(Lit("BT"), Operands(), OPERAND_WHITES, rest, ts);
    PrologueBytes(rest);
    PrologueTokensSplit(ts);
  }

  lemma StreamBytes(lines: seq<Text>)
    requires lines != []
    ensures Encode(ContentStream(lines))
            == Prologue() + (Encode(ShowOp(lines[0])) + (Encode(FollowingLines(lines[1..])) + ([LF] + Lit("ET"))))
  {
    var a, b, c, et := Prologue(), ShowOp(lines[0]), FollowingLines(lines[1..]), Lit("ET");
    EncodeConcat(a, b);
    EncodeConcat(a + b, c);
    EncodeConcat(a + b + c, [LF]);
    EncodeConcat(a + b + c + [LF], et);
    EncodeBytes(a);
    EncodeBytes([LF]);
    EncodeBytes(et);
  }

  lemma TokensOfEnd()
    ensures Tokens([LF] + Lit("ET")) == Some([Word(Lit("ET"))])
  {
    var et := Lit("ET");
    TokenWord(et, [], []);
    assert et + [] == et && [Word(et)] + [] == [Word(et)];
    TokenWhite(LF, et, [Word(et)]);
  }

  lemma TokensOfStream(lines: seq<Text>)
    requires lines != [] && AllLatin(lines)
    ensures Tokens(Encode(ContentStream(lines)))
         == Some(PrologueTokens() + (ShowTokens(lines[0]) + (FollowTokens(lines[1..]) + [Word(Lit("ET"))])))
  {
    var end, endTokens := [LF] + Lit("ET"), [Word(Lit("ET"))];
    TokensOfEnd();
    TokensOfFollowing(lines[1..], end, endTokens);
    var following := Encode(FollowingLines(lines[1..])) + end;
    TokensOfShow(lines[0], following, FollowTokens(lines[1..]) + endTokens);
    TokensOfPrologue(Encode(ShowOp(lines[0])) + following,
                     ShowTokens(lines[0]) + (FollowTokens(lines[1..]) + endTokens));
    StreamBytes(lines);
  }

  // ---- lines --------------------------------------------------------------------------------

  lemma OperatorsDiffer()
    ensures Lit("T*") != Lit("BT") && Lit("T*") != Lit("ET") && Lit("ET") != Lit("BT")
  {
    assert Lit("T*")[0] != Lit("BT")[0] && Lit("T*")[0] != Lit("ET")[0] && Lit("ET")[0] != Lit("BT")[0];
  }

  lemma ShowOneLine(line: Text, rest: seq<Token>, shown: seq<seq<Byte>>)
    requires Latin(line) && shown != []
    ensures Show([Word(Lit("T*"))] + ShowTokens(line) + rest, true, shown) == Show(rest, true, shown + [Normalise(line)])
  {
    var after := ([Word(Lit("T*"))] + ShowTokens(line) + rest)[1..];
    OperatorsDiffer();
    assert after[0] == Str(Normalise(line)) && after[1] == Word(Lit("Tj")) && after[2..] == rest;
    var begun := shown + [[]];
    assert begun[..|begun| - 1] == shown && begun[|begun| - 1] + Normalise(line) == Normalise(line);
  }

  lemma {:induction false} ShowFollowing(lines: seq<Text>, rest: seq<Token>, before: seq<seq<Byte>>)
    requires AllLatin(lines) && before != []
    ensures Show(FollowTokens(lines) + rest, true, before) == Show(rest, true, before + NormaliseAll(lines))
  {
    if lines == [] {
      assert FollowTokens(lines) + rest == rest;
      assert before + NormaliseAll(lines) == before;
    } else {
      var front, line := lines[..|lines| - 1], lines[|lines| - 1];
      var chunk := [Word(Lit("T*"))] + ShowTokens(line) + rest;
      assert FollowTokens(lines) + rest == FollowTokens(front) + chunk;
      ShowFollowing(front, chunk, before);
      ShowOneLine(line, rest, before + NormaliseAll(front));
      assert before + NormaliseAll(front) + [Normalise(line)] == before + NormaliseAll(lines);
    }
  }

  lemma ShowSkips(w: seq<Byte>, rest: seq<Token>, lines: seq<seq<Byte>>)
    requires lines != [] && ShowsNothing(w)
    ensures Show([Word(w)] + rest, true, lines) == Show(rest, true, lines)
  {
    assert ([Word(w)] + rest)[1..] == rest;
  }

  lemma ShowPrologue(rest: seq<Token>)
    ensures Show(PrologueTokens() + rest, false, [[]]) == Show(rest, true, [[]])
  {
    OperandsAreWords();
    ShowOperands(Operands(), rest);
    var after := Words(Operands()) + rest;
    assert PrologueTokens() + rest == [Word(Lit("BT"))] + after;
    assert ([Word(Lit("BT"))] + after)[1..] == after;
  }

  lemma {:induction false} ShowOperands(ws: seq<seq<Byte>>, rest: seq<Token>)
    requires forall i :: 0 <= i < |ws| ==> ShowsNothing(ws[i])
    ensures Show(Words(ws) + rest, true, [[]]) == Show(rest, true, [[]])
  {
    if ws == [] {
      assert Words(ws) + rest == rest;
    } else {
      assert Words(ws) + rest == [Word(ws[0])] + (Words(ws[1..]) + rest);
      ShowSkips(ws[0], Words(ws[1..]) + rest, [[]]);
      ShowOperands(ws[1..], rest);
    }
  }

  /** A content stream shows exactly the lines it was built from, end-of-lines normalised. */
  lemma StreamShowsLines(lines: seq<Text>)
    requires lines != [] && AllLatin(lines)
    ensures ShownLines(Encode(ContentStream(lines))) == Some(NormaliseAll(lines))
  {
    TokensOfStream(lines);
    var end := [Word(Lit("ET"))];
    var follow := FollowTokens(lines[1..]) + end;
    var show := ShowTokens(lines[0]) + follow;
    ShowPrologue(show);
    assert show[0] == Str(Normalise(lines[0])) && show[1] == Word(Lit("Tj")) && show[2..] == follow;
    var first: seq<seq<Byte>> := [Normalise(lines[0])];
    var none: seq<seq<Byte>> := [[]];
    assert none[0] + Normalise(lines[0]) == Normalise(lines[0]);
    assert none[..0] + [none[0] + Normalise(lines[0])] == first;
    ShowFollowing(lines[1..], end, first);
    assert first + NormaliseAll(lines[1..]) == NormaliseAll(lines);
    OperatorsDiffer();
    assert end[1..] == [];
  }
}
