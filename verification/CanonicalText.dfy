/**
  What the canonical request says, character by character (apiV2/src/signed/signature.ts): which characters
  an encoding holds and which bytes they stand for, how values are decoded, in which order the parameters
  come, what is left of a header's value, and what every line of the request reads as.
*/
module CanonicalText {
  import opened Wrappers
  import opened Bytes
  import opened Sorting
  import opened Splitting
  import opened PercentEncoding
  import opened CanonicalRequest

  // ---- encoding -----------------------------------------------------------------------------

  predicate Between(low: char, c: Point, high: char) { low as int <= c <= high as int }

  /** RFC 3986 section 2.3: letters, digits, hyphen, full stop, underscore and tilde. */
  predicate Unreserved(c: Point) {
    || Between('A', c, 'Z') || Between('a', c, 'z') || Between('0', c, '9')
    || c == '-' as int || c == '.' as int || c == '_' as int || c == '~' as int
  }

  /** The value of an upper-case hexadecimal digit. */
  function UpperHex(c: Point): Option<nat> {
    if 48 <= c <= 57 then Some(c - 48) else if 65 <= c <= 70 then Some(10 + c - 65) else None
  }

  /** The bytes a text spells: unreserved characters for themselves, every other byte as %XX in upper case. */
  function Spelled(s: Chars): Option<seq<Byte>>
    decreases |s|
  {
    if s == [] then Some([])
    else if Unreserved(s[0]) && s[0] < 0x80 then
      var rest :- Spelled(s[1..]);
      Some([s[0]] + rest)
    else if s[0] == 37 && |s| >= 3 then
      var hi :- UpperHex(s[1]);
      var lo :- UpperHex(s[2]);
      var rest :- Spelled(s[3..]);
      if Unreserved(hi * 16 + lo) || hi * 16 + lo >= 0x100 then None else Some([hi * 16 + lo] + rest)
    else None
  }

  /** RFC 3629: these bytes are the UTF-8 form of `c`. */
  predicate IsUtf8(bytes: seq<Byte>, c: Point) {
    || (c < 0x80 && bytes == [c])
    || (|bytes| == 2 && 0x80 <= c < 0x800 && 0xC0 <= bytes[0] < 0xE0 && Trails(bytes)
        && c == Bits(bytes[0], 0xC0) * 0x40 + Bits(bytes[1], 0x80))
    || (|bytes| == 3 && 0x800 <= c < 0x1_0000 && 0xE0 <= bytes[0] < 0xF0 && Trails(bytes)
        && c == Bits(bytes[0], 0xE0) * 0x1000 + Bits(bytes[1], 0x80) * 0x40 + Bits(bytes[2], 0x80))
    || (|bytes| == 4 && 0x1_0000 <= c && 0xF0 <= bytes[0] < 0xF8 && Trails(bytes)
        && c == Bits(bytes[0], 0xF0) * 0x4_0000 + Bits(bytes[1], 0x80) * 0x1000 + Bits(bytes[2], 0x80) * 0x40
                + Bits(bytes[3], 0x80))
  }

  /** What a byte holds above its marker. */
  function Bits(b: int, marker: int): int { b - marker }

  predicate Trails(bytes: seq<Byte>) { forall i :: 1 <= i < |bytes| ==> 0x80 <= bytes[i] < 0xC0 }

  /** The bytes of all characters, one after another; a lone surrogate is U+FFFD. */
  ghost predicate IsUtf8Of(bytes: seq<Byte>, t: Chars)
    decreases t
  {
    if t == [] then bytes == []
    else exists n: nat :: n <= |bytes| && IsUtf8Of(bytes[n..], t[1..])
                          && IsUtf8(bytes[..n], if 0xD800 <= t[0] < 0xE000 then 0xFFFD else t[0])
  }

  lemma UnreservedIs(b: Byte)
    ensures Unreserved(b) <==> IsUnreserved(b)
  {
  }

  lemma ByteSpells(b: Byte, rest: Chars, bytes: seq<Byte>)
    requires Spelled(rest) == Some(bytes)
    ensures Spelled(EncodeByte(b) + rest) == Some([b] + bytes)
  {
    UnreservedIs(b);
    UnreservedIs(37);
    var s := EncodeByte(b) + rest;
    if IsUnreserved(b) {
      assert s[1..] == rest;
    } else {
      assert s[3..] == rest;
    }
  }

  lemma Regroup(a: Chars, b: Chars, c: Chars)
    ensures (a + b) + c == a + (b + c)
  {
  }

  lemma {:induction false} BytesSpell(bytes: seq<Byte>, rest: Chars, more: seq<Byte>)
    requires Spelled(rest) == Some(more)
    ensures Spelled(EncodeBytes(bytes) + rest) == Some(bytes + more)
  {
    if bytes == [] {
      assert EncodeBytes(bytes) + rest == rest && bytes + more == more;
    } else {
      BytesSpell(bytes[1..], rest, more);
      ByteSpells(bytes[0], EncodeBytes(bytes[1..]) + rest, bytes[1..] + more);
      Regroup(EncodeByte(bytes[0]), EncodeBytes(bytes[1..]), rest);
      Regroup([bytes[0]], bytes[1..], more);
      assert [bytes[0]] + bytes[1..] == bytes;
    }
  }

  lemma PointIsUtf8(c: Point)
    ensures IsUtf8(Utf8(c), c)
  {
    SixBits(c);
    if c < 0x80 {
    } else if c < 0x800 {
      var a, x := TwoParts(c);
    } else if c < 0x1_0000 {
      var a, x, y := ThreeParts(c);
    } else {
      var a, x, y, z := FourParts(c);
    }
  }

  /** An encoding spells the text's UTF-8 bytes: unreserved ones as they are, the others as upper-case escapes. */
  lemma {:induction false} EncodingSpells(t: Chars) returns (bytes: seq<Byte>)
    ensures Spelled(AwsEncode(t)) == Some(bytes) && IsUtf8Of(bytes, t)
  {
    if t == [] {
      bytes := [];
    } else {
      var rest := EncodingSpells(t[1..]);
      var c: Point := Scalar(t[0]);
      var first := Utf8(c);
      BytesSpell(first, AwsEncode(t[1..]), rest);
      PointIsUtf8(c);
      bytes := first + rest;
      assert bytes[..|first|] == first && bytes[|first|..] == rest;
    }
  }

  // ---- decoding -----------------------------------------------------------------------------

  /** Text without escapes stands for itself, a plus sign for a space. */
  lemma {:induction false} PlainDecodes(t: Chars)
    requires 37 !in t
    ensures |SafeDecode(t)| == |t|
    ensures forall i :: 0 <= i < |t| ==> SafeDecode(t)[i] == if t[i] == 43 then 32 else t[i]
  {
    PlainUri(PlusToSpace(t));
  }

  lemma {:induction false} PlainUri(t: Chars)
    requires 37 !in t
    ensures DecodeUri(t) == Some(t)
  {
    if t != [] {
      PlainUri(t[1..]);
      assert t == [t[0]] + t[1..];
    }
  }

  predicate IsHex(c: Point, value: nat) {
    || (value < 10 && c == 48 + value)
    || (10 <= value < 16 && (c == 65 + (value - 10) || c == 97 + (value - 10)))
  }

  /** An escape in either case stands for its byte. */
  lemma EscapeDecodes(hi: Point, lo: Point, h: nat, l: nat, rest: Chars)
    requires IsHex(hi, h) && IsHex(lo, l) && h < 8
    ensures DecodeUri([37, hi, lo] + rest)
            == match DecodeUri(rest) case Some(decoded) => Some([h * 16 + l] + decoded) case None => None
  {
    var t := [37, hi, lo] + rest;
    assert t[3..] == rest;
  }

  lemma {:induction false} TruncatedFails(t: Chars, k: nat)
    requires k < |t| && t[k] == 37 && k + 2 >= |t| && forall i :: 0 <= i < k ==> t[i] != 37
    ensures DecodeUri(t).None?
  {
    if k > 0 { TruncatedFails(t[1..], k - 1); }
  }

  /** Text whose first percent sign is cut off before its two digits is kept as it is, plus signs included. */
  lemma MalformedStays(t: Chars, k: nat)
    requires k < |t| && t[k] == 37 && k + 2 >= |t| && forall i :: 0 <= i < k ==> t[i] != 37
    ensures SafeDecode(t) == t
  {
    TruncatedFails(PlusToSpace(t), k);
  }

  // ---- the query ----------------------------------------------------------------------------

  /** At the first place where they differ `a` has the smaller character, or it ends there. */
  ghost predicate ComesBefore(a: Text, b: Text) {
    exists k: nat :: k <= |a| && k < |b| && a[..k] == b[..k] && (k < |a| ==> a[k] < b[k])
  }

  lemma {:induction false} LexByPosition(a: Text, b: Text)
    requires LexLe(a, b)
    ensures a == b || ComesBefore(a, b)
  {
    if a == [] {
      if b != [] { assert a[..0] == b[..0]; }
    } else if a[0] != b[0] {
      assert a[..0] == b[..0];
    } else {
      LexByPosition(a[1..], b[1..]);
      if a[1..] == b[1..] {
        assert a == [a[0]] + a[1..] && b == [b[0]] + b[1..];
      } else {
        var k: nat :| k <= |a[1..]| && k < |b[1..]| && a[1..][..k] == b[1..][..k] && (k < |a[1..]| ==> a[1..][k] < b[1..][k]);
        assert a[..k + 1] == [a[0]] + a[1..][..k] && b[..k + 1] == [b[0]] + b[1..][..k];
      }
    }
  }

  /** The canonical query lists its parameters by name, and those of one name by value. */
  lemma ParametersAscend(query: Chars, i: nat, j: nat)
    requires i < j < |Pairs(CanonicalQuery(query))|
    ensures var pairs := Pairs(CanonicalQuery(query));
            if pairs[i].0 == pairs[j].0 then pairs[i].1 == pairs[j].1 || ComesBefore(pairs[i].1, pairs[j].1)
            else ComesBefore(pairs[i].0, pairs[j].0)
  {
    PairsOfCanonical(query);
    PairsTotalOrder();
    SortSorts(Pairs(query), PairLe);
    var pairs := SortedPairs(query);
    assert PairLe(pairs[i], pairs[j]);
    if pairs[i].0 == pairs[j].0 { LexByPosition(pairs[i].1, pairs[j].1); } else { LexByPosition(pairs[i].0, pairs[j].0); }
  }

  /** A part is split at its first equals sign, and both halves are decoded and encoded again. */
  lemma PartReads(name: Chars, value: Chars)
    requires 61 !in name
    ensures CanonicalPair(name + [61] + value) == (AwsEncode(SafeDecode(name)), AwsEncode(SafeDecode(value)))
    ensures CanonicalPair(name) == (AwsEncode(SafeDecode(name)), [])
  {
    PairOfParts(name, value);
    assert UpToEquals(name) == |name|;
    assert name[..|name|] == name;
    assert DecodeUri(PlusToSpace([])) == Some([]);
  }

  // ---- header values ------------------------------------------------------------------------

  /** The longest runs of characters that are not white space. */
  function Words(t: Chars): (r: seq<Chars>)
    ensures forall i :: 0 <= i < |r| ==> r[i] != []
    decreases |t|
  {
    if t == [] then []
    else if IsSpace(t[0]) then Words(t[1..])
    else
      var rest := Words(t[1..]);
      if |t| > 1 && !IsSpace(t[1]) && rest != [] then [[t[0]] + rest[0]] + rest[1..] else [[t[0]]] + rest
  }

  lemma {:induction false} WordsOfTrimStart(t: Chars)
    ensures Words(TrimStart(t)) == Words(t)
  {
    if t != [] && IsSpace(t[0]) { WordsOfTrimStart(t[1..]); }
  }

  lemma {:induction false} WordsDropLast(t: Chars)
    requires t != [] && IsSpace(t[|t| - 1])
    ensures Words(t[..|t| - 1]) == Words(t)
  {
    if |t| > 1 {
      WordsDropLast(t[1..]);
      assert t[1..][..|t| - 2] == t[..|t| - 1][1..];
      if !IsSpace(t[0]) && |t| == 2 { assert Words(t[1..]) == [] == Words([]); }
    }
  }

  lemma {:induction false} WordsOfTrimEnd(t: Chars)
    ensures Words(TrimEnd(t)) == Words(t)
  {
    if t != [] && IsSpace(t[|t| - 1]) {
      WordsDropLast(t);
      WordsOfTrimEnd(t[..|t| - 1]);
    }
  }

  /** Where a run of white space has begun, the words that follow are set off by one space. */
  function Follow(words: seq<Chars>): Chars { if words == [] then [] else [32] + Join(words, 32) }

  lemma JoinFirst(c: Point, rest: seq<Chars>)
    requires rest != []
    ensures Join([[c] + rest[0]] + rest[1..], 32) == [c] + Join(rest, 32)
  {
    assert ([[c] + rest[0]] + rest[1..])[1..] == rest[1..];
  }

  lemma JoinNew(c: Point, rest: seq<Chars>)
    ensures Join([[c]] + rest, 32) == [c] + Follow(rest)
  {
    assert ([[c]] + rest)[1..] == rest;
  }

  /** Collapsing text that does not end in white space joins its words by single spaces. */
  lemma {:induction false} CollapseJoins(t: Chars)
    requires t != [] ==> !IsSpace(t[|t| - 1])
    ensures Collapse(t, true) == Join(Words(t), 32)
    ensures Collapse(t, false) == if t != [] && IsSpace(t[0]) then Follow(Words(t)) else Join(Words(t), 32)
    ensures t != [] ==> Words(t) != []
    decreases |t|
  {
    if t != [] {
      var c, rest := t[0], t[1..];
      if rest != [] { assert rest[|rest| - 1] == t[|t| - 1]; }
      CollapseJoins(rest);
      if !IsSpace(c) {
        if rest != [] && !IsSpace(rest[0]) { JoinFirst(c, Words(rest)); } else { JoinNew(c, Words(rest)); }
      }
    }
  }

  lemma {:induction false} TrimEndEnds(t: Chars)
    ensures TrimEnd(t) != [] ==> !IsSpace(TrimEnd(t)[|TrimEnd(t)| - 1])
    ensures t != [] && !IsSpace(t[0]) ==> TrimEnd(t) != [] && TrimEnd(t)[0] == t[0]
  {
    if t != [] && IsSpace(t[|t| - 1]) {
      TrimEndEnds(t[..|t| - 1]);
      if |t| > 1 { assert t[..|t| - 1][0] == t[0]; }
    }
  }

  lemma {:induction false} TrimStartStarts(t: Chars)
    ensures TrimStart(t) != [] ==> !IsSpace(TrimStart(t)[0])
  {
    if t != [] && IsSpace(t[0]) { TrimStartStarts(t[1..]); }
  }

  /** A normalised value is the value's words, one space between neighbours. */
  lemma ValueIsItsWords(value: Chars)
    ensures NormalValue(value) == Join(Words(value), 32)
  {
    var started := TrimStart(value);
    var trimmed := TrimEnd(started);
    TrimStartStarts(value);
    TrimEndEnds(started);
    WordsOfTrimStart(value);
    WordsOfTrimEnd(started);
    CollapseJoins(trimmed);
    if started == [] { assert trimmed == []; }
  }

  // ---- the whole request --------------------------------------------------------------------

  /** Only letters change, and no small one is left. */
  lemma UpperIsUpper(verb: Chars)
    ensures |Upper(verb)| == |verb|
    ensures forall i :: 0 <= i < |verb| ==>
              Upper(verb)[i] == if Between('a', verb[i], 'z') then verb[i] - 'a' as int + 'A' as int else verb[i]
  {
  }

  /** Each segment of the path is encoded once, where it stands. */
  lemma PathReads(path: Chars)
    ensures |Split(CanonicalPath(path), 47)| == |Split(path, 47)|
    ensures forall i :: 0 <= i < |Split(path, 47)| ==> Split(CanonicalPath(path), 47)[i] == AwsEncode(Split(path, 47)[i])
  {
    PathPartsAreSafe(path);
    SplitOfJoin(EncodedSegments(path), 47);
  }

  /**
    Split at its newlines the canonical request is the method, the path, the query, one line a signed
    header (its name, a colon and its words), an empty line, the list of signed headers and the digest.
  */
  lemma RequestReads(request: Request, signedHeaders: Chars, sha256: Hash)
    requires OneLiners(request, signedHeaders, sha256)
    ensures var lines := Split(Canonical(request, signedHeaders, sha256), 10); var names := Split(signedHeaders, 59);
            && |lines| == |names| + 6
            && lines[0] == Upper(request.verb) && lines[1] == CanonicalPath(request.path)
            && lines[2] == CanonicalQuery(request.query)
            && (forall i :: 0 <= i < |names| ==>
                  lines[3 + i] == names[i] + [58] + Join(Words(request.value(names[i])), 32))
            && lines[|names| + 3] == [] && lines[|names| + 4] == signedHeaders
            && lines[|names| + 5] == sha256(request.body)
  {
    CanonicalIsLines(request, signedHeaders, sha256);
    LinesHoldNoNewline(request, signedHeaders, sha256);
    SplitOfJoin(Lines(request, signedHeaders, sha256), 10);
    var names := Split(signedHeaders, 59);
    forall i | 0 <= i < |names|
      ensures Lines(request, signedHeaders, sha256)[3 + i] == names[i] + [58] + Join(Words(request.value(names[i])), 32)
    {
      ValueIsItsWords(request.value(names[i]));
    }
  }
}
