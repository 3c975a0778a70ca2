/**
  The canonical request of the SigV4 verifier (apiV2/src/signed/signature.ts): the sorted query, the
  encoded path, the normalised headers, and the one string they are joined into. SHA-256 and HMAC are
  functions nothing is known about.
*/
module CanonicalRequest {
  import opened Bytes
  import opened Sorting
  import opened Splitting
  import opened PercentEncoding

  // ---- the query ----------------------------------------------------------------------------

  const AMPERSAND: Point := 38
  const EQUALS: Point := 61
  const SLASH: Point := 47
  const COLON: Point := 58
  const SEMICOLON: Point := 59
  const NEWLINE: Point := 10

  type Pair = (Text, Text)

  /** How much of `t` precedes the first `=`; all of it when there is none. */
  function UpToEquals(t: Chars): (k: nat)
    ensures k <= |t| && EQUALS !in t[..k] && (k < |t| ==> t[k] == EQUALS)
  {
    if t == [] || t[0] == EQUALS then 0
    else
      var k := UpToEquals(t[1..]);
      assert t[..k + 1] == [t[0]] + t[1..][..k];
      k + 1
  }

  /** One `&` part: name and value at the first `=`, each decoded and encoded again. */
  function CanonicalPair(part: Chars): Pair {
    var k := UpToEquals(part);
    (AwsEncode(SafeDecode(part[..k])), AwsEncode(SafeDecode(if k < |part| then part[k + 1..] else [])))
  }

  function NonEmpty(parts: seq<Chars>): (r: seq<Chars>)
    ensures forall i :: 0 <= i < |r| ==> r[i] in parts
  {
    if parts == [] then []
    else (if parts[0] == [] then [] else [parts[0]]) + NonEmpty(parts[1..])
  }

  function Pairs(query: Chars): seq<Pair> { Map(CanonicalPair, NonEmpty(Split(query, AMPERSAND))) }

  /** By name, then by value. */
  predicate PairLe(a: Pair, b: Pair) { if a.0 == b.0 then LexLe(a.1, b.1) else LexLe(a.0, b.0) }

  function Glue(pair: Pair): Chars { pair.0 + [EQUALS] + pair.1 }

  function Query(pairs: seq<Pair>): Chars { Join(Map(Glue, pairs), AMPERSAND) }

  function SortedPairs(query: Chars): seq<Pair> { Sort(Pairs(query), PairLe) }

  function CanonicalQuery(query: Chars): Chars { Query(SortedPairs(query)) }

  lemma PairsTotalOrder()
    ensures TotalOrder(PairLe)
  {
    LexIsTotalOrder();
    assert forall a: Text, b: Text :: LexLe(a, b) && LexLe(b, a) ==> a == b;
  }

  /** A pair in canonical form: both halves are encodings. */
  ghost predicate IsEncoded(pair: Pair) {
    exists k: Chars, v: Chars :: pair == (AwsEncode(k), AwsEncode(v))
  }

  ghost predicate AllEncoded(pairs: seq<Pair>) { forall i :: 0 <= i < |pairs| ==> IsEncoded(pairs[i]) }

  lemma UpToEqualsSplit(k: Chars, v: Chars)
    requires EQUALS !in k
    ensures UpToEquals(k + [EQUALS] + v) == |k|
  {
    var t := k + [EQUALS] + v;
    assert t[|k|] == EQUALS && forall i :: 0 <= i < |k| ==> t[i] == k[i];
  }

  lemma PairOfParts(k: Chars, v: Chars)
    requires EQUALS !in k
    ensures CanonicalPair(k + [EQUALS] + v) == (AwsEncode(SafeDecode(k)), AwsEncode(SafeDecode(v)))
  {
    UpToEqualsSplit(k, v);
    var part := k + [EQUALS] + v;
    assert part[..|k|] == k && part[|k| + 1..] == v;
  }

  lemma SafeHolds(s: seq<Byte>)
    requires AllSafe(s)
    ensures EQUALS !in s && AMPERSAND !in s && NEWLINE !in s && SLASH !in s
  {
  }

  /** The canonical spelling of a canonical pair reads as that pair. */
  lemma PairOfGlue(pair: Pair)
    requires IsEncoded(pair)
    ensures CanonicalPair(Glue(pair)) == pair
    ensures IsPart(Glue(pair))
  {
    var k: Chars, v: Chars :| pair == (AwsEncode(k), AwsEncode(v));
    EncodedIsSafe(k);
    EncodedIsSafe(v);
    SafeHolds(AwsEncode(k));
    SafeHolds(AwsEncode(v));
    PairOfParts(pair.0, pair.1);
    EncodeDecodeEncode(k);
    EncodeDecodeEncode(v);
  }

  /** A part that survives being joined by `&` and read back. */
  predicate IsPart(part: Chars) { part != [] && AMPERSAND !in part && NEWLINE !in part }

  lemma {:induction false} GluedPairs(pairs: seq<Pair>)
    requires AllEncoded(pairs)
    ensures Map(CanonicalPair, Map(Glue, pairs)) == pairs
    ensures forall i :: 0 <= i < |pairs| ==> IsPart(Map(Glue, pairs)[i])
  {
    forall i | 0 <= i < |pairs|
      ensures CanonicalPair(Map(Glue, pairs)[i]) == pairs[i] && IsPart(Map(Glue, pairs)[i])
    {
      PairOfGlue(pairs[i]);
    }
  }

  lemma PairsAreEncoded(query: Chars)
    ensures AllEncoded(Pairs(query))
  {
  }

  lemma SortedPairsAreEncoded(query: Chars)
    ensures AllEncoded(SortedPairs(query))
  {
    PairsAreEncoded(query);
    var pairs, sorted := Pairs(query), SortedPairs(query);
    forall i | 0 <= i < |sorted|
      ensures IsEncoded(sorted[i])
    {
      assert sorted[i] in multiset(sorted);
      assert sorted[i] in pairs;
    }
  }

  lemma {:induction false} NonEmptyKeeps(parts: seq<Chars>)
    requires forall i :: 0 <= i < |parts| ==> parts[i] != []
    ensures NonEmpty(parts) == parts
  {
    if parts != [] {
      NonEmptyKeeps(parts[1..]);
      assert parts == [parts[0]] + parts[1..];
    }
  }

  lemma PartsOfJoin(parts: seq<Chars>)
    requires forall i :: 0 <= i < |parts| ==> IsPart(parts[i])
    ensures NonEmpty(Split(Join(parts, AMPERSAND), AMPERSAND)) == parts
    ensures NEWLINE !in Join(parts, AMPERSAND)
  {
    JoinSafe(parts, AMPERSAND, NEWLINE);
    if parts == [] {
      assert Split([], AMPERSAND) == [[]] && NonEmpty([[]][1..]) == [];
    } else {
      SplitOfJoin(parts, AMPERSAND);
      NonEmptyKeeps(parts);
    }
  }

  lemma PairsOfQuery(pairs: seq<Pair>)
    requires AllEncoded(pairs)
    ensures Pairs(Query(pairs)) == pairs
    ensures NEWLINE !in Query(pairs)
  {
    GluedPairs(pairs);
    PartsOfJoin(Map(Glue, pairs));
  }

  /** Reading the canonical query back gives the sorted pairs: nothing was lost in joining them. */
  lemma PairsOfCanonical(query: Chars)
    ensures Pairs(CanonicalQuery(query)) == SortedPairs(query)
    ensures NEWLINE !in CanonicalQuery(query)
  {
    SortedPairsAreEncoded(query);
    PairsOfQuery(SortedPairs(query));
  }

  /** Two queries have one canonical form exactly when their canonical pairs agree as a multiset. */
  lemma CanonicalQueryExact(a: Chars, b: Chars)
    ensures CanonicalQuery(a) == CanonicalQuery(b) <==> multiset(Pairs(a)) == multiset(Pairs(b))
  {
    PairsTotalOrder();
    SortCanonical(Pairs(a), Pairs(b), PairLe);
    PairsOfCanonical(a);
    PairsOfCanonical(b);
  }

  /** Reordering the `&` parts, or adding and removing empty ones, changes nothing. */
  lemma ReorderingIsInvisible(a: Chars, b: Chars)
    requires multiset(NonEmpty(Split(a, AMPERSAND))) == multiset(NonEmpty(Split(b, AMPERSAND)))
    ensures CanonicalQuery(a) == CanonicalQuery(b)
  {
    MapMultiset(CanonicalPair, NonEmpty(Split(a, AMPERSAND)), NonEmpty(Split(b, AMPERSAND)));
    CanonicalQueryExact(a, b);
  }

  /** A canonical query is its own canonical form. */
  lemma CanonicalQueryIdempotent(query: Chars)
    ensures CanonicalQuery(CanonicalQuery(query)) == CanonicalQuery(query)
  {
    PairsTotalOrder();
    PairsOfCanonical(query);
    SortSorts(Pairs(query), PairLe);
    SortFixes(SortedPairs(query), PairLe);
  }

  // ---- path and headers ---------------------------------------------------------------------

  function EncodedSegments(path: Chars): (r: seq<Chars>)
    ensures |r| == |Split(path, SLASH)| && forall i :: 0 <= i < |r| ==> r[i] == AwsEncode(Split(path, SLASH)[i])
  {
    Map((segment: Chars) => var encoded: Chars := AwsEncode(segment); encoded, Split(path, SLASH))
  }

  function CanonicalPath(path: Chars): Chars { Join(EncodedSegments(path), SLASH) }

  /** JavaScript's `\s`. */
  predicate IsSpace(c: Point) {
    9 <= c <= 13 || c == 0x20 || c == 0xA0 || c == 0x1680 || 0x2000 <= c <= 0x200A
    || c == 0x2028 || c == 0x2029 || c == 0x202F || c == 0x205F || c == 0x3000 || c == 0xFEFF
  }

  function TrimStart(t: Chars): Chars { if t != [] && IsSpace(t[0]) then TrimStart(t[1..]) else t }

  function TrimEnd(t: Chars): Chars {
    if t != [] && IsSpace(t[|t| - 1]) then TrimEnd(t[..|t| - 1]) else t
  }

  /** `replace(/\s+/g, ' ')`; `inRun` says the previous character was a space. */
  function Collapse(t: Chars, inRun: bool): (r: Chars)
    ensures NEWLINE !in r
  {
    if t == [] then []
    else if IsSpace(t[0]) then (if inRun then [] else [32]) + Collapse(t[1..], true)
    else [t[0]] + Collapse(t[1..], false)
  }

  function NormalValue(value: Chars): (r: Chars)
    ensures NEWLINE !in r
  {
    Collapse(TrimEnd(TrimStart(value)), false)
  }

  function Upper(verb: Chars): Chars {
    seq(|verb|, i requires 0 <= i < |verb| => if 97 <= verb[i] <= 122 then verb[i] - 32 else verb[i])
  }

  /** A request as it arrived: `value(name)` is the header's value, empty when it is missing. */
  datatype Request = Request(verb: Chars, path: Chars, query: Chars, value: Chars -> Chars, body: seq<Byte>)

  type Hash = seq<Byte> -> Chars

  function HeaderLine(request: Request, name: Chars): Chars {
    name + [COLON] + NormalValue(request.value(name))
  }

  function HeaderLines(request: Request, names: seq<Chars>): seq<Chars> {
    Map((name: Chars) => HeaderLine(request, name), names)
  }

  /** Every line ended by a newline. */
  function Terminated(lines: seq<Chars>): Chars {
    if lines == [] then [] else lines[0] + [NEWLINE] + Terminated(lines[1..])
  }

  function Canonical(request: Request, signedHeaders: Chars, sha256: Hash): Chars {
    Join([Upper(request.verb), CanonicalPath(request.path), CanonicalQuery(request.query),
          Terminated(HeaderLines(request, Split(signedHeaders, SEMICOLON))), signedHeaders,
          sha256(request.body)], NEWLINE)
  }

  // ---- one string, one request --------------------------------------------------------------

  function Lines(request: Request, signedHeaders: Chars, sha256: Hash): seq<Chars> {
    [Upper(request.verb), CanonicalPath(request.path), CanonicalQuery(request.query)]
    + HeaderLines(request, Split(signedHeaders, SEMICOLON)) + [[], signedHeaders, sha256(request.body)]
  }

  /** HTTP admits no newline in a method, the header list is [a-z0-9;-]+ and the digest is hexadecimal. */
  predicate OneLiners(request: Request, signedHeaders: Chars, sha256: Hash) {
    NEWLINE !in request.verb && NEWLINE !in signedHeaders
    && NEWLINE !in sha256(request.body)
  }

  lemma {:induction false} JoinTerminated(lines: seq<Chars>, tail: seq<Chars>)
    requires tail != []
    ensures Join(lines + ([[]] + tail), NEWLINE) == Terminated(lines) + [NEWLINE] + Join(tail, NEWLINE)
  {
    var all := lines + ([[]] + tail);
    if lines == [] {
      assert all == [[]] + tail && all[1..] == tail;
    } else {
      assert all[1..] == lines[1..] + ([[]] + tail);
      JoinTerminated(lines[1..], tail);
    }
  }

  lemma JoinCons(part: Chars, rest: seq<Chars>)
    requires rest != []
    ensures Join([part] + rest, NEWLINE) == part + [NEWLINE] + Join(rest, NEWLINE)
  {
    assert ([part] + rest)[1..] == rest;
  }

  lemma CanonicalIsLines(request: Request, signedHeaders: Chars, sha256: Hash)
    ensures Canonical(request, signedHeaders, sha256) == Join(Lines(request, signedHeaders, sha256), NEWLINE)
  {
    JoinLines(Upper(request.verb), CanonicalPath(request.path), CanonicalQuery(request.query),
              HeaderLines(request, Split(signedHeaders, SEMICOLON)), signedHeaders, sha256(request.body));
  }

  lemma JoinLines(a: Chars, b: Chars, q: Chars, headers: seq<Chars>, signed: Chars, digest: Chars)
    ensures Join([a, b, q, Terminated(headers), signed, digest], NEWLINE)
            == Join([a, b, q] + headers + [[], signed, digest], NEWLINE)
  {
    var tail := [signed, digest];
    JoinHead(a, b, q, [Terminated(headers)] + tail);
    JoinCons(Terminated(headers), tail);
    JoinTerminated(headers, tail);
    JoinHead(a, b, q, headers + ([[]] + tail));
    assert [a, b, q] + headers + [[], signed, digest] == [a, b, q] + (headers + ([[]] + tail));
    assert [a, b, q] + ([Terminated(headers)] + tail) == [a, b, q, Terminated(headers), signed, digest];
  }

  lemma JoinHead(a: Chars, b: Chars, q: Chars, rest: seq<Chars>)
    requires rest != []
    ensures Join([a, b, q] + rest, NEWLINE) == a + [NEWLINE] + (b + [NEWLINE] + (q + [NEWLINE] + Join(rest, NEWLINE)))
  {
    JoinCons(q, rest);
    JoinCons(b, [q] + rest);
    JoinCons(a, [b] + ([q] + rest));
    assert [a] + ([b] + ([q] + rest)) == [a, b, q] + rest;
  }

  lemma PathPartsAreSafe(path: Chars)
    ensures var parts := EncodedSegments(path);
            parts != [] && forall i :: 0 <= i < |parts| ==> SLASH !in parts[i] && NEWLINE !in parts[i]
    ensures NEWLINE !in CanonicalPath(path)
  {
    var parts := EncodedSegments(path);
    forall i | 0 <= i < |parts|
      ensures SLASH !in parts[i] && NEWLINE !in parts[i]
    {
      EncodedIsSafe(Split(path, SLASH)[i]);
    }
    JoinSafe(parts, SLASH, NEWLINE);
  }

  lemma HeaderLinesHoldNoNewline(request: Request, signedHeaders: Chars)
    requires NEWLINE !in signedHeaders
    ensures OneLineEach(HeaderLines(request, Split(signedHeaders, SEMICOLON)))
  {
    var names := Split(signedHeaders, SEMICOLON);
    SplitSafe(signedHeaders, SEMICOLON, NEWLINE);
    forall i | 0 <= i < |names|
      ensures NEWLINE !in HeaderLine(request, names[i])
    {
    }
  }

  predicate OneLineEach(lines: seq<Chars>) { forall i :: 0 <= i < |lines| ==> NEWLINE !in lines[i] }

  lemma OneLineConcat(a: seq<Chars>, b: seq<Chars>)
    requires OneLineEach(a) && OneLineEach(b)
    ensures OneLineEach(a + b)
  {
  }

  lemma UpperHoldsNoNewline(verb: Chars)
    requires NEWLINE !in verb
    ensures NEWLINE !in Upper(verb)
  {
    forall i | 0 <= i < |verb|
      ensures Upper(verb)[i] != NEWLINE
    {
      assert verb[i] in verb;
    }
  }

  lemma ThreeLines(a: Chars, b: Chars, q: Chars)
    requires NEWLINE !in a && NEWLINE !in b && NEWLINE !in q
    ensures OneLineEach([a, b, q])
  {
  }

  lemma StartHoldsNoNewline(request: Request)
    requires NEWLINE !in request.verb
    ensures OneLineEach([Upper(request.verb), CanonicalPath(request.path), CanonicalQuery(request.query)])
  {
    UpperHoldsNoNewline(request.verb);
    PathPartsAreSafe(request.path);
    PairsOfCanonical(request.query);
    var a, b, q := Upper(request.verb), CanonicalPath(request.path), CanonicalQuery(request.query);
    ThreeLines(a, b, q);
  }

  lemma LinesHoldNoNewline(request: Request, signedHeaders: Chars, sha256: Hash)
    requires OneLiners(request, signedHeaders, sha256)
    ensures OneLineEach(Lines(request, signedHeaders, sha256))
  {
    StartHoldsNoNewline(request);
    HeaderLinesHoldNoNewline(request, signedHeaders);
    var start := [Upper(request.verb), CanonicalPath(request.path), CanonicalQuery(request.query)];
    var headers := HeaderLines(request, Split(signedHeaders, SEMICOLON));
    OneLineConcat(start, headers);
    OneLineConcat(start + headers, [[], signedHeaders, sha256(request.body)]);
  }

  lemma {:induction false} SplitSafe(t: Chars, separator: Point, banned: Point)
    requires banned !in t
    ensures forall i :: 0 <= i < |Split(t, separator)| ==> banned !in Split(t, separator)[i]
  {
    if t != [] { SplitSafe(t[1..], separator, banned); }
  }

  lemma SameLines(a: Request, b: Request, signedA: Chars, signedB: Chars, sha256: Hash)
    requires OneLiners(a, signedA, sha256) && OneLiners(b, signedB, sha256)
    requires Canonical(a, signedA, sha256) == Canonical(b, signedB, sha256)
    ensures Lines(a, signedA, sha256) == Lines(b, signedB, sha256)
  {
    CanonicalIsLines(a, signedA, sha256);
    CanonicalIsLines(b, signedB, sha256);
    LinesHoldNoNewline(a, signedA, sha256);
    LinesHoldNoNewline(b, signedB, sha256);
    SplitOfJoin(Lines(a, signedA, sha256), NEWLINE);
    SplitOfJoin(Lines(b, signedB, sha256), NEWLINE);
  }

  lemma LinesApart(request: Request, signed: Chars, sha256: Hash)
    ensures var lines := Lines(request, signed, sha256); var n := |lines|;
            && n >= 6 && lines[0] == Upper(request.verb) && lines[1] == CanonicalPath(request.path)
            && lines[2] == CanonicalQuery(request.query)
            && lines[n - 2] == signed && lines[n - 1] == sha256(request.body)
  {
  }

  /** The canonical requests of two arrivals are one string only if every component agrees. */
  lemma CanonicalRequestUnambiguous(a: Request, b: Request, signedA: Chars, signedB: Chars, sha256: Hash)
    requires OneLiners(a, signedA, sha256) && OneLiners(b, signedB, sha256)
    requires Canonical(a, signedA, sha256) == Canonical(b, signedB, sha256)
    ensures Upper(a.verb) == Upper(b.verb)
    ensures CanonicalPath(a.path) == CanonicalPath(b.path)
    ensures multiset(Pairs(a.query)) == multiset(Pairs(b.query))
    ensures signedA == signedB
    ensures forall name :: name in Split(signedA, SEMICOLON) ==> NormalValue(a.value(name)) == NormalValue(b.value(name))
    ensures sha256(a.body) == sha256(b.body)
  {
    SameLines(a, b, signedA, signedB, sha256);
    LinesApart(a, signedA, sha256);
    LinesApart(b, signedB, sha256);
    CanonicalQueryExact(a.query, b.query);
    SameHeaders(a, b, signedA, sha256);
  }

  lemma SameHeaders(a: Request, b: Request, signed: Chars, sha256: Hash)
    requires Lines(a, signed, sha256) == Lines(b, signed, sha256)
    ensures forall name :: name in Split(signed, SEMICOLON) ==> NormalValue(a.value(name)) == NormalValue(b.value(name))
  {
    var names := Split(signed, SEMICOLON);
    forall i | 0 <= i < |names|
      ensures NormalValue(a.value(names[i])) == NormalValue(b.value(names[i]))
    {
      assert Lines(a, signed, sha256)[3 + i] == HeaderLine(a, names[i]);
      assert Lines(b, signed, sha256)[3 + i] == HeaderLine(b, names[i]);
      var n := |names[i]| + 1;
      assert HeaderLine(a, names[i])[n..] == NormalValue(a.value(names[i]));
      assert HeaderLine(b, names[i])[n..] == NormalValue(b.value(names[i]));
    }
  }

  /** Equal canonical paths come from paths with the same segments, lone surrogates aside. */
  lemma CanonicalPathExact(a: Chars, b: Chars)
    ensures CanonicalPath(a) == CanonicalPath(b)
            <==> Map(Scalars, Split(a, SLASH)) == Map(Scalars, Split(b, SLASH))
  {
    PathPartsAreSafe(a);
    PathPartsAreSafe(b);
    SplitOfJoin(EncodedSegments(a), SLASH);
    SplitOfJoin(EncodedSegments(b), SLASH);
    SegmentsExact(a, b);
  }

  lemma SegmentsExact(a: Chars, b: Chars)
    ensures EncodedSegments(a) == EncodedSegments(b)
            <==> Map(Scalars, Split(a, SLASH)) == Map(Scalars, Split(b, SLASH))
  {
    var sa, sb := Split(a, SLASH), Split(b, SLASH);
    if |sa| == |sb| {
      forall i | 0 <= i < |sa|
        ensures AwsEncode(sa[i]) == AwsEncode(sb[i]) <==> Scalars(sa[i]) == Scalars(sb[i])
      {
        EncodeExact(sa[i], sb[i]);
      }
      assert EncodedSegments(a) == EncodedSegments(b)
          <==> forall i :: 0 <= i < |sa| ==> AwsEncode(sa[i]) == AwsEncode(sb[i]);
      assert Map(Scalars, sa) == Map(Scalars, sb)
          <==> forall i :: 0 <= i < |sa| ==> Scalars(sa[i]) == Scalars(sb[i]);
    }
  }
}
