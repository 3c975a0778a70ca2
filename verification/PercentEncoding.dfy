/**
  The percent coding of the SigV4 verifier (apiV2/src/signed/signature.ts): UTF-8 then %XX for every
  byte that is not unreserved (RFC 3986 sections 2.1 and 2.3), and decodeURIComponent with the
  verifier's fallback. A string is its sequence of code points; a lone surrogate is a code point in
  D800..DFFF, as JavaScript iterates it.
*/
module PercentEncoding {
  import opened Wrappers
  import opened Bytes

  type Point = c: int | 0 <= c < 0x11_0000
  type Chars = seq<Point>

  const PERCENT: Byte := 37
  const PLUS: Byte := 43
  const SPACE: Byte := 32

  predicate IsSurrogate(c: Point) { 0xD800 <= c < 0xE000 }

  /** What `Buffer.from(_, 'utf8')` encodes: a lone surrogate becomes U+FFFD. */
  function Scalar(c: Point): Point { if IsSurrogate(c) then 0xFFFD else c }

  function Scalars(t: Chars): Chars {
    seq(|t|, i requires 0 <= i < |t| => Scalar(t[i]))
  }

  // ---- encoding -----------------------------------------------------------------------------

  /** The UTF-8 bytes of a scalar value (RFC 3629 section 3). */
  function Utf8(c: Point): seq<Byte> {
    if c < 0x80 then [c]
    else if c < 0x800 then [0xC0 + c / 0x40, 0x80 + c % 0x40]
    else if c < 0x1_0000 then [0xE0 + c / 0x1000, 0x80 + c / 0x40 % 0x40, 0x80 + c % 0x40]
    else [0xF0 + c / 0x4_0000, 0x80 + c / 0x1000 % 0x40, 0x80 + c / 0x40 % 0x40, 0x80 + c % 0x40]
  }

  predicate IsUnreserved(b: Byte) {
    65 <= b <= 90 || 97 <= b <= 122 || 48 <= b <= 57 || b == 45 || b == 46 || b == 95 || b == 126
  }

  function HexDigit(n: nat): Byte
    requires n < 16
  {
    if n < 10 then 48 + n else 55 + n
  }

  function EncodeByte(b: Byte): seq<Byte> {
    if IsUnreserved(b) then [b] else [PERCENT, HexDigit(b / 16), HexDigit(b % 16)]
  }

  function EncodeBytes(bytes: seq<Byte>): seq<Byte> {
    if bytes == [] then [] else EncodeByte(bytes[0]) + EncodeBytes(bytes[1..])
  }

  /** `awsEncode`. */
  function AwsEncode(t: Chars): seq<Byte> {
    if t == [] then [] else EncodeBytes(Utf8(Scalar(t[0]))) + AwsEncode(t[1..])
  }

  // ---- decoding -----------------------------------------------------------------------------

  function HexValue(c: Point): Option<nat> {
    if 48 <= c <= 57 then Some(c - 48)
    else if 65 <= c <= 70 then Some(c - 55)
    else if 97 <= c <= 102 then Some(c - 87)
    else None
  }

  /** The byte of the `%XX` at the start of `t`. */
  function ReadByte(t: Chars): (r: Option<nat>)
    ensures r.Some? ==> r.value < 0x100 && |t| >= 3
  {
    if |t| < 3 || t[0] != PERCENT then None
    else
      var hi :- HexValue(t[1]);
      var lo :- HexValue(t[2]);
      Some(16 * hi + lo)
  }

  /** The six payload bits of a continuation byte. */
  function ReadContinuation(t: Chars): (r: Option<nat>)
    ensures r.Some? ==> r.value < 0x40 && |t| >= 3
  {
    var b :- ReadByte(t);
    if 0x80 <= b < 0xC0 then Some(b - 0x80) else None
  }

  /** The code point spelled by the escapes at the start of `t`, which must be well-formed UTF-8. */
  function ReadPoint(t: Chars): (r: Option<(Point, nat)>)
    ensures r.Some? ==> 3 <= r.value.1 <= |t| && !IsSurrogate(r.value.0)
  {
    var b :- ReadByte(t);
    if b < 0x80 then Some((b, 3))
    else if 0xC0 <= b < 0xE0 then
      var x :- ReadContinuation(t[3..]);
      var v := (b - 0xC0) * 0x40 + x;
      if v < 0x80 then None else Some((v, 6))
    else if 0xE0 <= b < 0xF0 then
      var x :- ReadContinuation(t[3..]);
      var y :- ReadContinuation(t[6..]);
      var v := (b - 0xE0) * 0x1000 + x * 0x40 + y;
      if v < 0x800 || IsSurrogate(v) then None else Some((v, 9))
    else if 0xF0 <= b < 0xF8 then
      var x :- ReadContinuation(t[3..]);
      var y :- ReadContinuation(t[6..]);
      var z :- ReadContinuation(t[9..]);
      var v := (b - 0xF0) * 0x4_0000 + x * 0x1000 + y * 0x40 + z;
      if v < 0x1_0000 || v >= 0x11_0000 then None else Some((v, 12))
    else None
  }

  /** `decodeURIComponent`, None standing for its URIError. */
  function DecodeUri(t: Chars): Option<Chars>
    decreases |t|
  {
    if t == [] then Some([])
    else if t[0] != PERCENT then
      var rest :- DecodeUri(t[1..]);
      Some([t[0]] + rest)
    else
      var (c, n) :- ReadPoint(t);
      var rest :- DecodeUri(t[n..]);
      Some([c] + rest)
  }

  function PlusToSpace(t: Chars): Chars {
    seq(|t|, i requires 0 <= i < |t| => if t[i] == PLUS then SPACE else t[i])
  }

  /** `safeDecode`: text that cannot be decoded is kept as it is. */
  function SafeDecode(t: Chars): Chars {
    match DecodeUri(PlusToSpace(t))
    case Some(decoded) => decoded
    case None => t
  }

  // ---- decoding undoes encoding -------------------------------------------------------------

  lemma HexValueOfDigit(n: nat)
    requires n < 16
    ensures HexValue(HexDigit(n)) == Some(n)
  {
  }

  lemma ReadByteOfEscape(b: Byte, rest: Chars)
    requires !IsUnreserved(b)
    ensures ReadByte(EncodeByte(b) + rest) == Some(b)
    ensures (EncodeByte(b) + rest)[3..] == rest
  {
    HexValueOfDigit(b / 16);
    HexValueOfDigit(b % 16);
  }

  lemma ReadContinuationOf(x: nat, rest: Chars)
    requires x < 0x40
    ensures ReadContinuation(EncodeByte(0x80 + x) + rest) == Some(x)
    ensures (EncodeByte(0x80 + x) + rest)[3..] == rest
  {
    ReadByteOfEscape(0x80 + x, rest);
  }

  lemma EncodeTwo(a: Byte, b: Byte, rest: Chars)
    ensures EncodeBytes([a, b]) + rest == EncodeByte(a) + (EncodeByte(b) + rest)
  {
    assert [a, b][1..] == [b] && [b][1..] == [];
    assert EncodeBytes([b]) == EncodeByte(b) + [];
    assert EncodeBytes([a, b]) == EncodeByte(a) + EncodeBytes([b]);
  }

  lemma EncodeThree(a: Byte, b: Byte, c: Byte, rest: Chars)
    ensures EncodeBytes([a, b, c]) + rest == EncodeByte(a) + (EncodeByte(b) + (EncodeByte(c) + rest))
  {
    assert [a, b, c][1..] == [b, c];
    EncodeTwo(b, c, rest);
  }

  lemma EncodeFour(a: Byte, b: Byte, c: Byte, d: Byte, rest: Chars)
    ensures EncodeBytes([a, b, c, d]) + rest == EncodeByte(a) + (EncodeByte(b) + (EncodeByte(c) + (EncodeByte(d) + rest)))
  {
    assert [a, b, c, d][1..] == [b, c, d];
    EncodeThree(b, c, d, rest);
  }

  /** Bytes past ASCII take three characters each. */
  lemma {:induction false} EncodedSize(bytes: seq<Byte>)
    requires forall i :: 0 <= i < |bytes| ==> bytes[i] >= 0x80
    ensures |EncodeBytes(bytes)| == 3 * |bytes|
  {
    if bytes != [] {
      EncodedSize(bytes[1..]);
      ReadByteOfEscape(bytes[0], []);
    }
  }

  lemma EscapesOfTwo(bytes: seq<Byte>, rest: Chars)
    requires |bytes| == 2 && forall i :: 0 <= i < |bytes| ==> bytes[i] >= 0x80
    ensures |EncodeBytes(bytes)| == 6
    ensures EncodeBytes(bytes) + rest == EncodeByte(bytes[0]) + (EncodeByte(bytes[1]) + rest)
  {
    assert bytes == [bytes[0], bytes[1]];
    EncodeTwo(bytes[0], bytes[1], rest);
    EncodedSize(bytes);
  }

  lemma EscapesOfThree(bytes: seq<Byte>, rest: Chars)
    requires |bytes| == 3 && forall i :: 0 <= i < |bytes| ==> bytes[i] >= 0x80
    ensures |EncodeBytes(bytes)| == 9
    ensures EncodeBytes(bytes) + rest == EncodeByte(bytes[0]) + (EncodeByte(bytes[1]) + (EncodeByte(bytes[2]) + rest))
  {
    assert bytes == [bytes[0], bytes[1], bytes[2]];
    EncodeThree(bytes[0], bytes[1], bytes[2], rest);
    EncodedSize(bytes);
  }

  lemma EscapesOfFour(bytes: seq<Byte>, rest: Chars)
    requires |bytes| == 4 && forall i :: 0 <= i < |bytes| ==> bytes[i] >= 0x80
    ensures |EncodeBytes(bytes)| == 12
    ensures EncodeBytes(bytes) + rest
            == EncodeByte(bytes[0]) + (EncodeByte(bytes[1]) + (EncodeByte(bytes[2]) + (EncodeByte(bytes[3]) + rest)))
  {
    assert bytes == [bytes[0], bytes[1], bytes[2], bytes[3]];
    EncodeFour(bytes[0], bytes[1], bytes[2], bytes[3], rest);
    EncodedSize(bytes);
  }

  lemma SixBits(c: Point)
    ensures c == c / 0x40 * 0x40 + c % 0x40
    ensures c / 0x40 == c / 0x1000 * 0x40 + c / 0x40 % 0x40
    ensures c / 0x1000 == c / 0x4_0000 * 0x40 + c / 0x1000 % 0x40
  {
  }

  /** The escapes of a scalar value spell that value, whatever follows. */
  lemma ReadPointOfEncoded(c: Point, rest: Chars)
    requires !IsSurrogate(c) && !(c < 0x80 && IsUnreserved(c))
    ensures var t := EncodeBytes(Utf8(c)) + rest;
            t[0] == PERCENT && ReadPoint(t) == Some((c, |EncodeBytes(Utf8(c))|)) && t[|EncodeBytes(Utf8(c))|..] == rest
  {
    SixBits(c);
    if c < 0x80 {
      assert [c][1..] == [] && EncodeBytes([c]) == EncodeByte(c);
      ReadByteOfEscape(c, rest);
    } else if c < 0x800 {
      PointOfTwo(c, rest);
    } else if c < 0x1_0000 {
      PointOfThree(c, rest);
    } else {
      PointOfFour(c, rest);
    }
  }

  /** The first `n` characters of `t` are the escapes of `c`. */
  predicate Spells(t: Chars, c: int, n: nat, rest: Chars) {
    n <= |t| && t != [] && t[0] == PERCENT && t[n..] == rest
    && ReadPoint(t).Some? && ReadPoint(t).value.0 == c && ReadPoint(t).value.1 == n
  }

  lemma ReadTwo(a: Byte, x: nat, rest: Chars)
    requires 0xC0 <= a < 0xE0 && x < 0x40 && (a - 0xC0) * 0x40 + x >= 0x80
    ensures Spells(EncodeByte(a) + (EncodeByte(0x80 + x) + rest), (a - 0xC0) * 0x40 + x, 6, rest)
  {
    ReadByteOfEscape(a, EncodeByte(0x80 + x) + rest);
    ReadContinuationOf(x, rest);
    var t := EncodeByte(a) + (EncodeByte(0x80 + x) + rest);
    assert t[6..] == t[3..][3..];
  }

  lemma TwoParts(c: Point) returns (a: nat, x: nat)
    requires 0x80 <= c < 0x800
    ensures a < 32 && x < 0x40 && c == a * 0x40 + x && Utf8(c) == [0xC0 + a, 0x80 + x]
  {
    a, x := c / 0x40, c % 0x40;
    SixBits(c);
  }

  lemma PointOfTwo(c: Point, rest: Chars)
    requires 0x80 <= c < 0x800
    ensures var t := EncodeBytes(Utf8(c)) + rest;
            |EncodeBytes(Utf8(c))| == 6 && Spells(t, c, 6, rest)
  {
    var a, x := TwoParts(c);
    EscapesOfTwo(Utf8(c), rest);
    ReadTwo(0xC0 + a, x, rest);
  }

  lemma ReadThree(a: Byte, x: nat, y: nat, rest: Chars)
    requires 0xE0 <= a < 0xF0 && x < 0x40 && y < 0x40
    requires var v := (a - 0xE0) * 0x1000 + x * 0x40 + y; v >= 0x800 && !IsSurrogate(v)
    ensures var t := EncodeByte(a) + (EncodeByte(0x80 + x) + (EncodeByte(0x80 + y) + rest));
            Spells(t, (a - 0xE0) * 0x1000 + x * 0x40 + y, 9, rest)
  {
    var tail := EncodeByte(0x80 + y) + rest;
    ReadByteOfEscape(a, EncodeByte(0x80 + x) + tail);
    ReadContinuationOf(x, tail);
    ReadContinuationOf(y, rest);
    var t := EncodeByte(a) + (EncodeByte(0x80 + x) + tail);
    assert t[6..] == t[3..][3..] && t[9..] == t[6..][3..];
  }

  lemma ThreeParts(c: Point) returns (a: nat, x: nat, y: nat)
    requires 0x800 <= c < 0x1_0000
    ensures a < 16 && x < 0x40 && y < 0x40 && c == a * 0x1000 + x * 0x40 + y
    ensures Utf8(c) == [0xE0 + a, 0x80 + x, 0x80 + y]
  {
    a, x, y := c / 0x1000, c / 0x40 % 0x40, c % 0x40;
    SixBits(c);
  }

  lemma PointOfThree(c: Point, rest: Chars)
    requires 0x800 <= c < 0x1_0000 && !IsSurrogate(c)
    ensures var t := EncodeBytes(Utf8(c)) + rest;
            |EncodeBytes(Utf8(c))| == 9 && Spells(t, c, 9, rest)
  {
    var a, x, y := ThreeParts(c);
    EscapesOfThree(Utf8(c), rest);
    ReadThree(0xE0 + a, x, y, rest);
  }

  lemma ReadFour(a: Byte, x: nat, y: nat, z: nat, rest: Chars)
    requires 0xF0 <= a < 0xF8 && x < 0x40 && y < 0x40 && z < 0x40
    requires 0x1_0000 <= (a - 0xF0) * 0x4_0000 + x * 0x1000 + y * 0x40 + z < 0x11_0000
    ensures var t := EncodeByte(a) + (EncodeByte(0x80 + x) + (EncodeByte(0x80 + y) + (EncodeByte(0x80 + z) + rest)));
            Spells(t, (a - 0xF0) * 0x4_0000 + x * 0x1000 + y * 0x40 + z, 12, rest)
  {
    var tail1 := EncodeByte(0x80 + z) + rest;
    var tail2 := EncodeByte(0x80 + y) + tail1;
    ReadByteOfEscape(a, EncodeByte(0x80 + x) + tail2);
    ReadContinuationOf(x, tail2);
    ReadContinuationOf(y, tail1);
    ReadContinuationOf(z, rest);
    var t := EncodeByte(a) + (EncodeByte(0x80 + x) + tail2);
    assert t[6..] == t[3..][3..] && t[9..] == t[6..][3..] && t[12..] == t[9..][3..];
  }

  lemma FourParts(c: Point) returns (a: nat, x: nat, y: nat, z: nat)
    requires 0x1_0000 <= c
    ensures a < 8 && x < 0x40 && y < 0x40 && z < 0x40
    ensures c == a * 0x4_0000 + x * 0x1000 + y * 0x40 + z
    ensures Utf8(c) == [0xF0 + a, 0x80 + x, 0x80 + y, 0x80 + z]
  {
    a, x, y, z := c / 0x4_0000, c / 0x1000 % 0x40, c / 0x40 % 0x40, c % 0x40;
    SixBits(c);
  }

  lemma PointOfFour(c: Point, rest: Chars)
    requires 0x1_0000 <= c
    ensures var t := EncodeBytes(Utf8(c)) + rest;
            |EncodeBytes(Utf8(c))| == 12 && Spells(t, c, 12, rest)
  {
    var a, x, y, z := FourParts(c);
    EscapesOfFour(Utf8(c), rest);
    ReadFour(0xF0 + a, x, y, z, rest);
  }

  lemma DecodeEncodedPoint(c: Point, rest: Chars, decoded: Chars)
    requires !IsSurrogate(c) && DecodeUri(rest) == Some(decoded)
    ensures DecodeUri(EncodeBytes(Utf8(c)) + rest) == Some([c] + decoded)
  {
    if c < 0x80 && IsUnreserved(c) {
      assert [c][1..] == [] && EncodeBytes([c]) == [c];
      assert ([c] + rest)[1..] == rest;
    } else {
      ReadPointOfEncoded(c, rest);
    }
  }

  /** Decoding an encoded text gives the text, lone surrogates replaced. */
  lemma {:induction false} DecodeOfEncode(t: Chars)
    ensures DecodeUri(AwsEncode(t)) == Some(Scalars(t))
  {
    if t != [] {
      DecodeOfEncode(t[1..]);
      var c: Point := Scalar(t[0]);
      DecodeEncodedPoint(c, AwsEncode(t[1..]), Scalars(t[1..]));
      assert Scalars(t) == [c] + Scalars(t[1..]);
      assert AwsEncode(t) == EncodeBytes(Utf8(c)) + AwsEncode(t[1..]);
    } else {
      assert Scalars(t) == [];
    }
  }

  /** Bytes an encoded text can hold. */
  predicate IsSafe(b: Byte) { IsUnreserved(b) || b == PERCENT }

  predicate AllSafe(s: seq<Byte>) { forall i :: 0 <= i < |s| ==> IsSafe(s[i]) }

  lemma {:induction false} EncodedBytesAreSafe(bytes: seq<Byte>)
    ensures AllSafe(EncodeBytes(bytes))
  {
    if bytes != [] {
      assert IsUnreserved(HexDigit(bytes[0] / 16)) && IsUnreserved(HexDigit(bytes[0] % 16));
      EncodedBytesAreSafe(bytes[1..]);
    }
  }

  lemma {:induction false} EncodedIsSafe(t: Chars)
    ensures AllSafe(AwsEncode(t))
  {
    if t != [] {
      EncodedBytesAreSafe(Utf8(Scalar(t[0])));
      EncodedIsSafe(t[1..]);
    }
  }

  lemma SafeDecodeOfEncode(t: Chars)
    ensures SafeDecode(AwsEncode(t)) == Scalars(t)
  {
    EncodedIsSafe(t);
    assert PlusToSpace(AwsEncode(t)) == AwsEncode(t);
    DecodeOfEncode(t);
  }

  lemma {:induction false} EncodeOfScalars(t: Chars)
    ensures AwsEncode(Scalars(t)) == AwsEncode(t)
  {
    if t != [] {
      assert Scalars(t)[1..] == Scalars(t[1..]);
      EncodeOfScalars(t[1..]);
    }
  }

  /** Encoding what an encoded text decodes to gives it back. */
  lemma EncodeDecodeEncode(t: Chars)
    ensures AwsEncode(SafeDecode(AwsEncode(t))) == AwsEncode(t)
  {
    SafeDecodeOfEncode(t);
    EncodeOfScalars(t);
  }

  /** Two texts have one encoding exactly when they agree, lone surrogates aside. */
  lemma EncodeExact(a: Chars, b: Chars)
    ensures AwsEncode(a) == AwsEncode(b) <==> Scalars(a) == Scalars(b)
  {
    DecodeOfEncode(a);
    DecodeOfEncode(b);
    EncodeOfScalars(a);
    EncodeOfScalars(b);
  }
}
