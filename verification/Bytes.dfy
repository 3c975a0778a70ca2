/** Bytes, UTF-16 code units, ASCII literals and decimal numerals. */
module Bytes {
  import opened Wrappers

  /** One UTF-16 code unit of a JavaScript string. */
  type Unit = u: int | 0 <= u < 0x1_0000
  type Text = seq<Unit>

  type Byte = b: Unit | 0 <= b < 0x100

  /** The bytes of an ASCII literal. */
  function Lit(s: string): (r: seq<Byte>)
    ensures |r| == |s|
  {
    seq(|s|, i requires 0 <= i < |s| => (s[i] as int) % 0x100)
  }

  predicate IsDigit(u: Unit) { 48 <= u <= 57 }

  predicate AllDigits(s: Text) { forall i :: 0 <= i < |s| ==> IsDigit(s[i]) }

  /** True when `s` cannot extend a numeral that ends right before it. */
  predicate NoDigitFirst(s: Text) { s == [] || !IsDigit(s[0]) }

  /** The decimal numeral of `n`. */
  function Dec(n: nat): (r: seq<Byte>)
    ensures |r| > 0 && AllDigits(r)
  {
    if n < 10 then [48 + n] else Dec(n / 10) + [48 + n % 10]
  }

  function Value(s: Text): nat
    requires AllDigits(s)
  {
    if s == [] then 0 else Value(s[..|s| - 1]) * 10 + (s[|s| - 1] - 48)
  }

  /** Length of the longest run of digits `s` starts with. */
  function DigitRun(s: Text): (k: nat)
    ensures k <= |s| && AllDigits(s[..k]) && NoDigitFirst(s[k..])
  {
    if s == [] || !IsDigit(s[0]) then 0
    else
      var k := DigitRun(s[1..]);
      assert s[..k + 1] == [s[0]] + s[1..][..k];
      k + 1
  }

  /** Length of the longest run of digits `s` ends with. */
  function DigitTail(s: Text): (k: nat)
    ensures k <= |s| && AllDigits(s[|s| - k..])
    ensures k < |s| ==> !IsDigit(s[|s| - k - 1])
  {
    if s == [] || !IsDigit(s[|s| - 1]) then 0 else 1 + DigitTail(s[..|s| - 1])
  }

  function ReadNat(s: seq<Byte>): (r: Option<(nat, seq<Byte>)>)
  {
    var k := DigitRun(s);
    if k == 0 then None else Some((Value(s[..k]), s[k..]))
  }

  function Expect(s: seq<Byte>, word: seq<Byte>): Option<seq<Byte>> {
    if word <= s then Some(s[|word|..]) else None
  }

  lemma ExpectSplit(word: seq<Byte>, rest: seq<Byte>)
    ensures Expect(word + rest, word) == Some(rest)
  {
  }

  lemma {:induction false} ValueOfDec(n: nat)
    ensures Value(Dec(n)) == n
  {
    if n >= 10 {
      ValueOfDec(n / 10);
      assert Dec(n)[..|Dec(n)| - 1] == Dec(n / 10);
    }
  }

  lemma {:induction false} DigitRunSplit(d: Text, rest: Text)
    requires AllDigits(d) && NoDigitFirst(rest)
    ensures DigitRun(d + rest) == |d|
  {
    if d == [] {
      assert d + rest == rest;
    } else {
      assert (d + rest)[1..] == d[1..] + rest;
      DigitRunSplit(d[1..], rest);
    }
  }

  lemma {:induction false} DigitTailSplit(s: Text, d: Text)
    requires AllDigits(d) && (s == [] || !IsDigit(s[|s| - 1]))
    ensures DigitTail(s + d) == |d|
  {
    if d == [] {
      assert s + d == s;
    } else {
      assert (s + d)[..|s + d| - 1] == s + d[..|d| - 1];
      DigitTailSplit(s, d[..|d| - 1]);
    }
  }

  lemma ReadNatOfDec(n: nat, rest: seq<Byte>)
    requires NoDigitFirst(rest)
    ensures ReadNat(Dec(n) + rest) == Some((n, rest))
  {
    DigitRunSplit(Dec(n), rest);
    ValueOfDec(n);
    assert (Dec(n) + rest)[..|Dec(n)|] == Dec(n);
  }

  function Zeros(k: nat): (r: seq<Byte>)
    ensures |r| == k && AllDigits(r)
  {
    seq(k, _ => 48)
  }

  /** `String(n).padStart(10, '0')`. */
  function Pad10(n: nat): (r: seq<Byte>)
    ensures AllDigits(r)
  {
    var d := Dec(n);
    if |d| >= 10 then d else Zeros(10 - |d|) + d
  }

  lemma {:induction false} ValueOfZeros(k: nat, d: Text)
    requires AllDigits(d)
    ensures Value(Zeros(k) + d) == Value(d)
    decreases k + |d|
  {
    var s := Zeros(k) + d;
    if d != [] {
      assert s[..|s| - 1] == Zeros(k) + d[..|d| - 1];
      ValueOfZeros(k, d[..|d| - 1]);
    } else if k > 0 {
      assert s[..|s| - 1] == Zeros(k - 1) + [];
      ValueOfZeros(k - 1, []);
    }
  }

  lemma ValueOfPad10(n: nat)
    ensures Value(Pad10(n)) == n
  {
    ValueOfDec(n);
    if |Dec(n)| < 10 {
      ValueOfZeros(10 - |Dec(n)|, Dec(n));
    }
  }

  function Pow10(k: nat): nat { if k == 0 then 1 else 10 * Pow10(k - 1) }

  lemma {:induction false} DecLength(n: nat, k: nat)
    requires k > 0
    ensures |Dec(n)| <= k <==> n < Pow10(k)
  {
    if k == 1 {
      assert Pow10(1) == 10;
    } else if n < 10 {
      PowAtLeast10(k);
    } else {
      DecLength(n / 10, k - 1);
    }
  }

  lemma PowAtLeast10(k: nat)
    requires k > 0
    ensures Pow10(k) >= 10
  {
    if k > 1 { PowAtLeast10(k - 1); }
  }

  /** The padded field is ten digits wide exactly for offsets below ten to the tenth. */
  lemma Pad10Width(n: nat)
    ensures |Pad10(n)| == 10 <==> n < 10_000_000_000
  {
    DecLength(n, 10);
    assert Pow10(10) == 10_000_000_000;
  }
}
