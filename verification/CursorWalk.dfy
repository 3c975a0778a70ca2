/**
  Keyset paging of reviews (apiV2/src/reviews/reviews.service.ts), its opaque cursor
  (apiV2/src/common/cursor.ts), and the walk over every page that the regression suite performs
  (tests/helpers/walk-review-cursor.ts). Rows are sorted by their microsecond timestamps; the cursor
  and the filter know only milliseconds.
*/
module CursorWalk {
  import opened Wrappers
  import opened Bytes
  import opened Splitting

  // ---- the cursor ---------------------------------------------------------------------------

  datatype CursorPosition = CursorPosition(createdAt: Text, id: Text)

  const BAR: Unit := 124

  function Encode(base64url: Text -> Text, p: CursorPosition): Text { base64url(p.createdAt + [BAR] + p.id) }

  /** The first two parts at the bars; the id is missing when there is no bar. */
  function Decode(plain: Text -> Text, cursor: Text): (Text, Option<Text>) {
    var parts := Split(plain(cursor), BAR);
    (parts[0], if |parts| > 1 then Some(parts[1]) else None)
  }

  lemma {:induction false} SplitParts(t: Text)
    ensures BAR in t ==> |Split(t, BAR)| > 1 && |Split(t, BAR)[0]| < |t|
    ensures BAR !in t ==> Split(t, BAR) == [t]
  {
    if BAR !in t {
      SplitPlain(t, BAR);
    } else if t[0] != BAR {
      SplitParts(t[1..]);
    }
  }

  /** The first part of a text that goes on after a bar is the first part of what precedes the bar. */
  lemma {:induction false} FirstPart(a: Text, b: Text)
    ensures Split(a + [BAR] + b, BAR)[0] == Split(a, BAR)[0]
    decreases a
  {
    var t := a + [BAR] + b;
    if a != [] {
      assert t[1..] == a[1..] + [BAR] + b;
      FirstPart(a[1..], b);
    }
  }

  /** Decoding the two halves with a bar between them gives them back exactly when neither holds a bar. */
  lemma CursorRoundTrip(base64url: Text -> Text, plain: Text -> Text, p: CursorPosition)
    requires plain(base64url(p.createdAt + ['|' as int] + p.id)) == p.createdAt + ['|' as int] + p.id
    ensures Decode(plain, Encode(base64url, p)) == (p.createdAt, Some(p.id))
            <==> '|' as int !in p.createdAt && '|' as int !in p.id
  {
    SplitParts(p.createdAt);
    SplitParts(p.id);
    FirstPart(p.createdAt, p.id);
    if BAR !in p.createdAt { SplitFirst(p.createdAt, p.id, BAR); }
  }

  // ---- one page -----------------------------------------------------------------------------

  datatype Row = Row(id: nat, micros: nat)

  /** What a cursor says of the last row of a page. */
  datatype Position = Position(millis: nat, id: nat)

  function At(row: Row): Position { Position(row.micros / 1000, row.id) }

  predicate Before(a: Position, b: Position) { a.millis < b.millis || (a.millis == b.millis && a.id < b.id) }

  /** The filter: rows positioned after the cursor, all rows without one. */
  predicate Follows(row: Row, cursor: Option<Position>) { cursor.None? || Before(cursor.value, At(row)) }

  function After(table: seq<Row>, cursor: Option<Position>): (r: seq<Row>)
    ensures |r| <= |table|
    ensures forall row :: row in r <==> row in table && Follows(row, cursor)
  {
    if table == [] then []
    else (if Follows(table[0], cursor) then [table[0]] else []) + After(table[1..], cursor)
  }

  datatype Page = Page(data: seq<Row>, next: Option<Position>)

  /** `findPageForProduct` over the product's rows in (created_at, id) order. */
  function FindPage(table: seq<Row>, cursor: Option<Position>, limit: nat): Page {
    var rows := After(table, cursor);
    if |rows| <= limit then Page(rows, None)
    else Page(rows[..limit], if limit > 0 then Some(At(rows[limit - 1])) else None)
  }

  /** Sorted as the query sorts: by raw timestamp, then id; ids are unique. */
  ghost predicate RawSorted(table: seq<Row>) {
    && (forall i, j :: 0 <= i < j < |table| ==>
          table[i].micros < table[j].micros || (table[i].micros == table[j].micros && table[i].id < table[j].id))
    && forall i, j :: 0 <= i < j < |table| ==> table[i].id != table[j].id
  }

  /** The order the filter goes by agrees with the order the query sorts by, */
  ghost predicate Agrees(table: seq<Row>) { forall i, j :: 0 <= i < j < |table| ==> Before(At(table[i]), At(table[j])) }

  /** that is, the rows are in the order of their milliseconds, and of their ids within a millisecond. */
  ghost predicate Rises(table: seq<Row>) {
    forall i, j :: 0 <= i < j < |table| ==>
      table[i].micros / 1000 < table[j].micros / 1000
      || (table[i].micros / 1000 == table[j].micros / 1000 && table[i].id < table[j].id)
  }

  lemma AgreesIsRises(table: seq<Row>)
    ensures Agrees(table) <==> Rises(table)
  {
  }

  lemma BeforeIsStrict(a: Position, b: Position, c: Position)
    ensures !Before(a, a)
    ensures Before(a, b) && Before(b, c) ==> Before(a, c)
    ensures Before(a, b) || Before(b, a) || a == b
  {
  }

  lemma {:induction false} NarrowerFilter(table: seq<Row>, from: Option<Position>, to: Position)
    requires from.Some? ==> Before(from.value, to)
    ensures |After(table, Some(to))| <= |After(table, from)|
    ensures (exists row :: row in table && Follows(row, from) && At(row) == to) ==> |After(table, Some(to))| < |After(table, from)|
  {
    if table != [] {
      NarrowerFilter(table[1..], from, to);
      if row :| row in table && Follows(row, from) && At(row) == to {
        assert row == table[0] || row in table[1..];
      }
    }
  }

  /** A page that is not the last leaves strictly fewer rows to the next one. */
  lemma PageAdvances(table: seq<Row>, cursor: Option<Position>, limit: nat)
    requires FindPage(table, cursor, limit).next.Some?
    ensures var next := FindPage(table, cursor, limit).next;
            |After(table, next)| < |After(table, cursor)| && (cursor.Some? ==> Before(cursor.value, next.value))
  {
    var rows := After(table, cursor);
    var last := rows[limit - 1];
    assert last in rows;
    NarrowerFilter(table, cursor, At(last));
  }

  // ---- the walk -----------------------------------------------------------------------------

  /** Page after page until there is no cursor: it always ends, since each cursor is after the one before. */
  function Walk(table: seq<Row>, cursor: Option<Position>, limit: nat): seq<Row>
    decreases |After(table, cursor)|
  {
    var page := FindPage(table, cursor, limit);
    if page.next.None? then page.data
    else
      PageAdvances(table, cursor, limit);
      page.data + Walk(table, page.next, limit)
  }

  lemma {:induction false} AfterAgrees(table: seq<Row>, cursor: Option<Position>)
    requires Agrees(table)
    ensures Agrees(After(table, cursor))
  {
    if table != [] {
      AfterAgrees(table[1..], cursor);
      assert forall row :: row in After(table[1..], cursor) ==> row in table[1..];
    }
  }

  ghost predicate IsAfter(table: seq<Row>, cursor: Option<Position>, rows: seq<Row>) { rows == After(table, cursor) }

  lemma AfterSplits(table: seq<Row>, cursor: Option<Position>, rows: seq<Row>) returns (rest: seq<Row>)
    requires table != [] && IsAfter(table, cursor, rows)
    ensures IsAfter(table[1..], cursor, rest) && rows == (if Follows(table[0], cursor) then [table[0]] else []) + rest
    ensures forall row :: row in rest ==> row in table[1..]
  {
    rest := After(table[1..], cursor);
  }

  lemma NotAfterItself(table: seq<Row>, to: Position, later: seq<Row>)
    requires table != [] && (to == At(table[0]) || Before(At(table[0]), to)) && IsAfter(table[1..], Some(to), later)
    ensures IsAfter(table, Some(to), later)
  {
    BeforeIsStrict(At(table[0]), to, At(table[0]));
  }

  lemma FollowersOfFirst(table: seq<Row>, cursor: Option<Position>)
    requires Agrees(table) && table != [] && Follows(table[0], cursor)
    ensures IsAfter(table[1..], cursor, table[1..]) && IsAfter(table[1..], Some(At(table[0])), table[1..])
  {
    forall i | 0 <= i < |table[1..]|
      ensures Follows(table[1..][i], cursor) && Follows(table[1..][i], Some(At(table[0])))
    {
      assert table[1..][i] == table[i + 1];
      if cursor.Some? { BeforeIsStrict(cursor.value, At(table[0]), At(table[i + 1])); }
    }
    AllFollow(table[1..], cursor, Some(At(table[0])));
  }

  lemma AgreesTail(table: seq<Row>)
    requires Agrees(table) && table != []
    ensures Agrees(table[1..]) && forall row :: row in table[1..] ==> Before(At(table[0]), At(row))
  {
    assert forall i :: 0 <= i < |table[1..]| ==> table[1..][i] == table[i + 1];
  }

  lemma FirstThenAfter(table: seq<Row>, cursor: Option<Position>, rest: seq<Row>)
    requires Agrees(table) && table != [] && Follows(table[0], cursor) && IsAfter(table[1..], cursor, rest)
    ensures IsAfter(table, Some(At(table[0])), rest)
  {
    FollowersOfFirst(table, cursor);
    NotAfterItself(table, At(table[0]), table[1..]);
  }

  /** Everything after a row of an agreeing table is what comes after it in the table. */
  lemma {:induction false} AfterRow(table: seq<Row>, cursor: Option<Position>, rows: seq<Row>, n: nat)
    requires Agrees(table) && IsAfter(table, cursor, rows) && n < |rows|
    ensures IsAfter(table, Some(At(rows[n])), rows[n + 1..])
  {
    AgreesTail(table);
    var rest := AfterSplits(table, cursor, rows);
    if Follows(table[0], cursor) && n == 0 {
      FirstThenAfter(table, cursor, rest);
    } else {
      var m := if Follows(table[0], cursor) then n - 1 else n;
      AfterRow(table[1..], cursor, rest, m);
      assert rows[n] == rest[m] && rows[n + 1..] == rest[m + 1..] && rest[m] in rest;
      NotAfterItself(table, At(rest[m]), rest[m + 1..]);
    }
  }

  lemma {:induction false} AllFollow(table: seq<Row>, a: Option<Position>, b: Option<Position>)
    requires forall i :: 0 <= i < |table| ==> Follows(table[i], a) && Follows(table[i], b)
    ensures After(table, a) == After(table, b) == table
  {
    if table != [] { AllFollow(table[1..], a, b); }
  }

  lemma PageThenRest(table: seq<Row>, cursor: Option<Position>, limit: nat, page: Page)
    requires Agrees(table) && limit >= 1 && page == FindPage(table, cursor, limit) && page.next.Some?
    ensures page.data + After(table, page.next) == After(table, cursor)
  {
    var rows := After(table, cursor);
    AfterRow(table, cursor, rows, limit - 1);
    assert rows == rows[..limit] + rows[limit..];
  }

  lemma WalkUnfolds(table: seq<Row>, cursor: Option<Position>, limit: nat, page: Page)
    requires page == FindPage(table, cursor, limit)
    ensures Walk(table, cursor, limit) == if page.next.None? then page.data else page.data + Walk(table, page.next, limit)
  {
  }

  /** On an agreeing table the walk returns what is after its cursor, in order. */
  lemma {:induction false} WalkReturnsAll(table: seq<Row>, cursor: Option<Position>, limit: nat)
    requires Agrees(table) && limit >= 1
    ensures Walk(table, cursor, limit) == After(table, cursor)
    decreases |After(table, cursor)|
  {
    var page := FindPage(table, cursor, limit);
    WalkUnfolds(table, cursor, limit, page);
    if page.next.Some? {
      PageAdvances(table, cursor, limit);
      WalkReturnsAll(table, page.next, limit);
      PageThenRest(table, cursor, limit, page);
    }
  }

  /** Walking one row at a time moves strictly forward. */
  lemma {:induction false} WalkByOneRises(table: seq<Row>, cursor: Option<Position>)
    ensures Agrees(Walk(table, cursor, 1))
    ensures forall row :: row in Walk(table, cursor, 1) ==> Follows(row, cursor)
    decreases |After(table, cursor)|
  {
    var rows := After(table, cursor);
    var page := FindPage(table, cursor, 1);
    if page.next.Some? {
      PageAdvances(table, cursor, 1);
      WalkByOneRises(table, page.next);
      var rest := Walk(table, page.next, 1);
      assert Walk(table, cursor, 1) == [rows[0]] + rest;
      assert rows[0] in rows;
      BeforeIsStrict(At(rows[0]), At(rows[0]), At(rows[0]));
      Joined([rows[0]], rest, At(rows[0]));
      RestFollows(rest, cursor, At(rows[0]));
    }
  }

  /**
    The walk returns every review once, in order, for every page size, exactly when the raw order
    agrees with the order of milliseconds and ids.
  */
  lemma WalkExact(table: seq<Row>)
    ensures (forall limit: nat :: limit >= 1 ==> Walk(table, None, limit) == table) <==> Rises(table)
  {
    AgreesIsRises(table);
    AllFollow(table, None, None);
    if Agrees(table) {
      forall limit: nat | limit >= 1
        ensures Walk(table, None, limit) == table
      {
        WalkReturnsAll(table, None, limit);
      }
    } else {
      WalkByOneRises(table, None);
      assert Walk(table, None, 1) != table;
    }
  }

  // at one page size

  /** The rows after the first `m` are those of a later millisecond than the last of these, or of its own and a larger id. */
  ghost predicate Divides(table: seq<Row>, m: nat) {
    && 0 < m <= |table|
    && forall i :: 0 <= i < |table| ==>
         (m <= i <==> || table[m - 1].micros / 1000 < table[i].micros / 1000
                      || (table[m - 1].micros / 1000 == table[i].micros / 1000 && table[m - 1].id < table[i].id))
  }

  /** So it is at every boundary between two pages. */
  ghost predicate AgreesAt(table: seq<Row>, limit: nat) {
    forall k: nat :: 0 < k && k * limit < |table| ==> Divides(table, k * limit)
  }

  /** So it is at every boundary after the first `m` rows. */
  ghost predicate DividesFrom(table: seq<Row>, m: nat, limit: nat)
    requires limit >= 1
    decreases |table| - m
  {
    m + limit < |table| ==> Divides(table, m + limit) && DividesFrom(table, m + limit, limit)
  }

  lemma {:induction false} BoundariesFrom(table: seq<Row>, k: nat, limit: nat)
    requires limit >= 1 && AgreesAt(table, limit)
    ensures DividesFrom(table, k * limit, limit)
    decreases |table| - k * limit
  {
    assert (k + 1) * limit == k * limit + limit;
    if (k + 1) * limit < |table| { BoundariesFrom(table, k + 1, limit); }
  }

  lemma {:induction false} FromBoundaries(table: seq<Row>, j: nat, k: nat, limit: nat)
    requires limit >= 1 && j < k && DividesFrom(table, j * limit, limit) && k * limit < |table|
    ensures Divides(table, k * limit)
    decreases k - j
  {
    assert (j + 1) * limit == j * limit + limit;
    Multiples(j + 1, k, limit);
    if j + 1 < k { FromBoundaries(table, j + 1, k, limit); }
  }

  lemma {:induction false} Multiples(j: nat, k: nat, limit: nat)
    requires j <= k
    ensures j * limit <= k * limit
  {
    if j < k {
      Multiples(j, k - 1, limit);
      assert k * limit == (k - 1) * limit + limit;
    }
  }

  lemma AgreesAtIsDividesFrom(table: seq<Row>, limit: nat)
    requires limit >= 1
    ensures AgreesAt(table, limit) <==> DividesFrom(table, 0, limit)
  {
    if AgreesAt(table, limit) { BoundariesFrom(table, 0, limit); }
    if DividesFrom(table, 0, limit) {
      forall k: nat | 0 < k && k * limit < |table|
        ensures Divides(table, k * limit)
      {
        assert 0 * limit == 0;
        FromBoundaries(table, 0, k, limit);
      }
    }
  }

  lemma {:induction false} SuffixFollows(table: seq<Row>, cursor: Option<Position>, m: nat)
    requires m <= |table| && forall i :: 0 <= i < |table| ==> (Follows(table[i], cursor) <==> m <= i)
    ensures After(table, cursor) == table[m..]
  {
    if m == 0 {
      AllFollow(table, cursor, cursor);
      assert table[0..] == table;
    } else {
      assert forall i :: 0 <= i < |table[1..]| ==> table[1..][i] == table[i + 1];
      SuffixFollows(table[1..], cursor, m - 1);
      assert table[1..][m - 1..] == table[m..];
    }
  }

  /** At a boundary the filter leaves the rest of the table. */
  lemma DividedRest(table: seq<Row>, m: nat)
    requires Divides(table, m)
    ensures RestIs(table, m)
  {
    SuffixFollows(table, Some(At(table[m - 1])), m);
  }

  /** The cursor before the first `m` rows are gone through. */
  function CursorAt(table: seq<Row>, m: nat): Option<Position>
    requires m <= |table|
  {
    if m == 0 then None else Some(At(table[m - 1]))
  }

  lemma PageAt(table: seq<Row>, m: nat, limit: nat)
    requires limit >= 1 && m <= |table| && After(table, CursorAt(table, m)) == table[m..]
    ensures FindPage(table, CursorAt(table, m), limit)
            == if m + limit < |table| then Page(table[m..m + limit], CursorAt(table, m + limit)) else Page(table[m..], None)
  {
    if m + limit < |table| { assert table[m..][..limit] == table[m..m + limit] && table[m..][limit - 1] == table[m + limit - 1]; }
  }

  lemma WalkAt(table: seq<Row>, m: nat, limit: nat)
    requires limit >= 1 && m <= |table| && After(table, CursorAt(table, m)) == table[m..]
    ensures Walk(table, CursorAt(table, m), limit)
            == if m + limit < |table| then table[m..m + limit] + Walk(table, CursorAt(table, m + limit), limit) else table[m..]
  {
    PageAt(table, m, limit);
    WalkUnfolds(table, CursorAt(table, m), limit, FindPage(table, CursorAt(table, m), limit));
  }

  lemma SameRest(table: seq<Row>, m: nat, n: nat, rest: seq<Row>)
    requires m <= n <= |table|
    ensures table[m..n] + rest == table[m..] <==> rest == table[n..]
  {
    assert table[m..n] + table[n..] == table[m..];
    assert rest == (table[m..n] + rest)[n - m..];
    assert table[m..][n - m..] == table[n..];
  }

  /** The filter leaves exactly the rows from `m` on, */
  ghost predicate RestIs(table: seq<Row>, m: nat) { m <= |table| && After(table, CursorAt(table, m)) == table[m..] }

  /** and the walk returns exactly them. */
  ghost predicate WalkIs(table: seq<Row>, m: nat, limit: nat) {
    m <= |table| && Walk(table, CursorAt(table, m), limit) == table[m..]
  }

  lemma LastWalk(table: seq<Row>, m: nat, limit: nat)
    requires limit >= 1 && RestIs(table, m) && m + limit >= |table|
    ensures WalkIs(table, m, limit)
  {
    WalkAt(table, m, limit);
  }

  lemma WalkGoesOn(table: seq<Row>, m: nat, limit: nat)
    requires limit >= 1 && RestIs(table, m) && m + limit < |table|
    ensures WalkIs(table, m, limit) <==> WalkIs(table, m + limit, limit)
  {
    WalkAt(table, m, limit);
    SameRest(table, m, m + limit, Walk(table, CursorAt(table, m + limit), limit));
  }

  lemma {:induction false} DividedWalk(table: seq<Row>, m: nat, limit: nat)
    requires limit >= 1 && RestIs(table, m) && DividesFrom(table, m, limit)
    ensures WalkIs(table, m, limit)
    decreases |table| - m
  {
    if m + limit < |table| {
      DividedRest(table, m + limit);
      DividedWalk(table, m + limit, limit);
      WalkGoesOn(table, m, limit);
    } else {
      LastWalk(table, m, limit);
    }
  }

  /** Every row of a walk follows its cursor. */
  lemma {:induction false} WalkFollows(table: seq<Row>, cursor: Option<Position>, limit: nat)
    ensures forall row :: row in Walk(table, cursor, limit) ==> row in table && Follows(row, cursor)
    decreases |After(table, cursor)|
  {
    var page := FindPage(table, cursor, limit);
    assert forall row :: row in page.data ==> row in After(table, cursor);
    if page.next.Some? {
      PageAdvances(table, cursor, limit);
      WalkFollows(table, page.next, limit);
      if cursor.Some? { RestFollows(Walk(table, page.next, limit), cursor, page.next.value); }
    }
  }

  /** What a walk returns first is the first row after its cursor. */
  lemma WalkStarts(table: seq<Row>, cursor: Option<Position>, limit: nat)
    requires limit >= 1 && After(table, cursor) != []
    ensures Walk(table, cursor, limit) != [] && Walk(table, cursor, limit)[0] == After(table, cursor)[0]
  {
    WalkUnfolds(table, cursor, limit, FindPage(table, cursor, limit));
  }

  lemma FirstAfter(table: seq<Row>, cursor: Option<Position>, i: nat)
    requires i < |table| && Follows(table[i], cursor)
    ensures After(table, cursor) != []
    ensures exists j :: 0 <= j <= i && After(table, cursor)[0] == table[j]
  {
    assert table[i] in After(table, cursor);
    if !Follows(table[0], cursor) {
      FirstAfter(table[1..], cursor, i - 1);
      var j :| 0 <= j <= i - 1 && After(table[1..], cursor)[0] == table[1..][j];
      assert table[j + 1] == table[1..][j];
    } else {
      assert After(table, cursor)[0] == table[0];
    }
  }

  /** A walk that returns exactly the rest of the table has started at a boundary. */
  lemma WalkDivides(table: seq<Row>, m: nat, limit: nat)
    requires RawSorted(table) && limit >= 1 && 0 < m < |table| && WalkIs(table, m, limit)
    ensures Divides(table, m)
  {
    var cursor := CursorAt(table, m);
    WalkFollows(table, cursor, limit);
    forall i | 0 <= i < |table|
      ensures Before(At(table[m - 1]), At(table[i])) <==> m <= i
    {
      if m <= i {
        assert table[i] == table[m..][i - m] && table[i] in table[m..];
        assert Follows(table[i], cursor);
      } else if Follows(table[i], cursor) {
        FirstAfter(table, cursor, i);
        WalkStarts(table, cursor, limit);
      }
    }
  }

  lemma {:induction false} WalkIsDivided(table: seq<Row>, m: nat, limit: nat)
    requires RawSorted(table) && limit >= 1 && RestIs(table, m) && WalkIs(table, m, limit)
    ensures DividesFrom(table, m, limit)
    decreases |table| - m
  {
    if m + limit < |table| {
      NextBoundary(table, m, limit);
      WalkIsDivided(table, m + limit, limit);
    }
  }

  lemma NextBoundary(table: seq<Row>, m: nat, limit: nat)
    requires RawSorted(table) && limit >= 1 && RestIs(table, m) && WalkIs(table, m, limit) && m + limit < |table|
    ensures Divides(table, m + limit) && RestIs(table, m + limit) && WalkIs(table, m + limit, limit)
  {
    WalkGoesOn(table, m, limit);
    WalkDivides(table, m + limit, limit);
    DividedRest(table, m + limit);
  }

  /**
    At one page size the walk returns every review once and in order exactly when at each boundary between
    two pages the filter goes on where the query does.
  */
  lemma WalkExactAt(table: seq<Row>, limit: nat)
    requires RawSorted(table) && limit >= 1
    ensures Walk(table, None, limit) == table <==> AgreesAt(table, limit)
  {
    AgreesAtIsDividesFrom(table, limit);
    AllFollow(table, None, None);
    assert table[0..] == table;
    if DividesFrom(table, 0, limit) { DividedWalk(table, 0, limit); }
    if Walk(table, None, limit) == table { WalkIsDivided(table, 0, limit); }
  }

  /** Three rows of one millisecond, the largest id first: pages of one drop two of them, pages of two repeat one. */
  lemma SameMillisecond(a: Row, b: Row, c: Row)
    requires a.micros < b.micros < c.micros && b.id < c.id < a.id
    requires a.micros / 1000 == b.micros / 1000 == c.micros / 1000
    ensures RawSorted([a, b, c]) && !Rises([a, b, c])
    ensures Walk([a, b, c], None, 1) == [a]
    ensures Walk([a, b, c], None, 2) == [a, b] + [a, c]
  {
    var table := [a, b, c];
    assert !Before(At(table[0]), At(table[1]));
    FirstPages(a, b, c);
    SecondPages(a, b, c);
    TwoPages(table, 1, [a], At(a), []);
    TwoPages(table, 2, [a, b], At(b), [a, c]);
    assert [a] + [] == [a];
  }

  lemma SecondPages(a: Row, b: Row, c: Row)
    requires b.id < c.id < a.id && a.micros / 1000 == b.micros / 1000 == c.micros / 1000
    ensures FindPage([a, b, c], Some(At(a)), 1) == Page([], None)
    ensures FindPage([a, b, c], Some(At(b)), 2) == Page([a, c], None)
  {
    Filtered(a, b, c, Some(At(a)));
    Filtered(a, b, c, Some(At(b)));
  }

  lemma FirstPages(a: Row, b: Row, c: Row)
    ensures FindPage([a, b, c], None, 1) == Page([a], Some(At(a)))
    ensures FindPage([a, b, c], None, 2) == Page([a, b], Some(At(b)))
  {
    AllFollow([a, b, c], None, None);
    assert [a, b, c][..1] == [a] && [a, b, c][..2] == [a, b];
  }

  lemma TwoPages(table: seq<Row>, limit: nat, first: seq<Row>, next: Position, second: seq<Row>)
    requires FindPage(table, None, limit) == Page(first, Some(next))
    requires FindPage(table, Some(next), limit) == Page(second, None)
    ensures Walk(table, None, limit) == first + second
  {
  }

  lemma AfterFirst(row: Row, rest: seq<Row>, cursor: Option<Position>)
    ensures After([row] + rest, cursor) == (if Follows(row, cursor) then [row] else []) + After(rest, cursor)
  {
    assert ([row] + rest)[1..] == rest;
  }

  lemma Filtered(a: Row, b: Row, c: Row, cursor: Option<Position>)
    ensures After([a, b, c], cursor)
            == (if Follows(a, cursor) then [a] else []) + ((if Follows(b, cursor) then [b] else [])
               + (if Follows(c, cursor) then [c] else []))
  {
    AfterFirst(a, [b] + ([c] + []), cursor);
    AfterFirst(b, [c] + [], cursor);
    AfterFirst(c, [], cursor);
    assert [a] + ([b] + ([c] + [])) == [a, b, c];
  }

  // ---- a walk over a changing table -----------------------------------------------------------

  /** Page k reads `tables[k]`; the result says whether the walk ended within them. */
  function WalkOver(tables: seq<seq<Row>>, cursor: Option<Position>, limit: nat): (seq<Row>, bool) {
    if tables == [] then ([], false)
    else
      var page := FindPage(tables[0], cursor, limit);
      if page.next.None? then (page.data, true)
      else
        var (rest, ended) := WalkOver(tables[1..], page.next, limit);
        (page.data + rest, ended)
  }

  ghost predicate AllAgree(tables: seq<seq<Row>>) { forall k :: 0 <= k < |tables| ==> Agrees(tables[k]) }

  /** The rows of a page are the first after its cursor; whatever else follows the cursor follows the page. */
  lemma PageIsFirst(table: seq<Row>, cursor: Option<Position>, limit: nat)
    requires Agrees(table) && limit >= 1
    ensures var page := FindPage(table, cursor, limit);
            && Agrees(page.data)
            && (forall row :: row in page.data ==> Follows(row, cursor))
            && (page.next.Some? ==> forall row :: row in page.data ==> !Before(page.next.value, At(row)))
            && (forall row :: row in table && Follows(row, cursor) && row !in page.data
                  ==> page.next.Some? && Before(page.next.value, At(row)))
  {
    var rows := After(table, cursor);
    AfterAgrees(table, cursor);
    if |rows| > limit {
      var data, last := rows[..limit], rows[limit - 1];
      forall row | row in data
        ensures row in rows && !Before(At(last), At(row))
      {
        var i :| 0 <= i < limit && rows[i] == row;
        BeforeIsStrict(At(last), At(row), At(last));
      }
      forall row | row in rows && row !in data
        ensures Before(At(last), At(row))
      {
        var i :| 0 <= i < |rows| && rows[i] == row;
        assert i < limit ==> row in data;
      }
    }
  }

  lemma Joined(data: seq<Row>, rest: seq<Row>, middle: Position)
    requires Agrees(data) && Agrees(rest)
    requires forall row :: row in data ==> !Before(middle, At(row))
    requires forall row :: row in rest ==> Before(middle, At(row))
    ensures Agrees(data + rest)
  {
    var all := data + rest;
    forall i, j | 0 <= i < j < |all|
      ensures Before(At(all[i]), At(all[j]))
    {
      if i < |data| <= j {
        assert all[i] in data && all[j] in rest;
        BeforeIsStrict(At(all[i]), middle, At(all[j]));
        BeforeIsStrict(middle, At(all[i]), At(all[j]));
      }
    }
  }

  /**
    However rows come and go between pages, as long as each page reads an agreeing table: no row is
    returned twice, rows come in order, and a row that is there for every page is returned.
  */
  lemma {:induction false} WalkOverChanges(tables: seq<seq<Row>>, cursor: Option<Position>, limit: nat)
    requires AllAgree(tables) && limit >= 1
    ensures var (seen, ended) := WalkOver(tables, cursor, limit);
            && Agrees(seen)
            && (forall row :: row in seen ==> Follows(row, cursor))
            && (ended ==> forall row :: InAll(tables, row) && Follows(row, cursor) ==> row in seen)
    decreases |tables|
  {
    if tables != [] {
      var page := FindPage(tables[0], cursor, limit);
      PageIsFirst(tables[0], cursor, limit);
      if page.next.Some? {
        WalkOverChanges(tables[1..], page.next, limit);
        var (rest, ended) := WalkOver(tables[1..], page.next, limit);
        Joined(page.data, rest, page.next.value);
        PageAdvances(tables[0], cursor, limit);
        RestFollows(rest, cursor, page.next.value);
        RestHolds(tables, page, rest, ended, cursor);
      } else {
        forall row | InAll(tables, row) && Follows(row, cursor)
          ensures row in page.data
        {
          assert row in tables[0];
        }
      }
    }
  }

  lemma RestFollows(rest: seq<Row>, cursor: Option<Position>, next: Position)
    requires cursor.Some? ==> Before(cursor.value, next)
    requires forall row :: row in rest ==> Before(next, At(row))
    ensures forall row :: row in rest ==> Follows(row, cursor)
  {
    forall row | row in rest
      ensures Follows(row, cursor)
    {
      if cursor.Some? { BeforeIsStrict(cursor.value, next, At(row)); }
    }
  }

  lemma RestHolds(tables: seq<seq<Row>>, page: Page, rest: seq<Row>, ended: bool, cursor: Option<Position>)
    requires tables != [] && page.next.Some?
    requires forall row :: row in tables[0] && Follows(row, cursor) && row !in page.data ==> Before(page.next.value, At(row))
    requires ended ==> forall row :: InAll(tables[1..], row) && Follows(row, page.next) ==> row in rest
    ensures ended ==> forall row :: InAll(tables, row) && Follows(row, cursor) ==> row in page.data + rest
  {
    forall row | ended && InAll(tables, row) && Follows(row, cursor)
      ensures row in page.data + rest
    {
      assert row in tables[0];
      assert InAll(tables[1..], row);
    }
  }

  ghost predicate InAll(tables: seq<seq<Row>>, row: Row) { forall k :: 0 <= k < |tables| ==> row in tables[k] }

  // ---- the loops ----------------------------------------------------------------------------

  method WalkPages(table: seq<Row>, pageSize: nat) returns (seen: seq<Row>)
    ensures seen == Walk(table, None, pageSize)
  {
    seen := [];
    var cursor: Option<Position> := None;
    var more := true;
    while more
      invariant Walk(table, None, pageSize) == if more then seen + Walk(table, cursor, pageSize) else seen
      decreases more, |After(table, cursor)|
    {
      var page := FindPage(table, cursor, pageSize);
      WalkOnePage(table, cursor, pageSize, seen);
      seen := seen + page.data;
      if page.next.None? {
        more := false;
      } else {
        PageAdvances(table, cursor, pageSize);
        cursor := page.next;
      }
    }
  }

  lemma WalkOnePage(table: seq<Row>, cursor: Option<Position>, limit: nat, seen: seq<Row>)
    ensures var page := FindPage(table, cursor, limit);
            seen + Walk(table, cursor, limit)
            == if page.next.None? then seen + page.data else seen + page.data + Walk(table, page.next, limit)
  {
    var page := FindPage(table, cursor, limit);
    if page.next.Some? {
      assert seen + (page.data + Walk(table, page.next, limit)) == seen + page.data + Walk(table, page.next, limit);
    }
  }

  /** The regression suite's check: as many rows as expected, and none of them twice. */
  method AssertReviewCursorWalk(table: seq<Row>, pageSize: nat, expected: nat) returns (ok: bool)
    requires RawSorted(table) && pageSize >= 1
    ensures ok <==> |Walk(table, None, pageSize)| == expected && NoneTwice(Walk(table, None, pageSize))
    ensures Agrees(table) ==> (ok <==> |table| == expected)
  {
    var seen := WalkPages(table, pageSize);
    var unique := IdsOf(seen);
    UniqueIds(seen);
    ok := |unique| == |seen| && |seen| == expected;
    if Agrees(table) {
      AllFollow(table, None, None);
      WalkReturnsAll(table, None, pageSize);
    }
  }

  ghost predicate NoneTwice(rows: seq<Row>) { forall i, j :: 0 <= i < j < |rows| ==> rows[i].id != rows[j].id }

  lemma NewId(rows: seq<Row>, n: nat)
    requires n < |rows|
    ensures rows[n].id in IdsOf(rows[..n]) <==> exists i :: 0 <= i < n && rows[i].id == rows[n].id
  {
    forall i | 0 <= i < n
      ensures rows[i].id in IdsOf(rows[..n])
    {
      assert rows[..n][i] == rows[i];
    }
  }

  function IdsOf(rows: seq<Row>): set<nat> { set row | row in rows :: row.id }

  lemma IdsPush(rows: seq<Row>, n: nat)
    requires |rows| == n + 1
    ensures IdsOf(rows) == IdsOf(rows[..n]) + {rows[n].id}
    ensures |IdsOf(rows)| == |IdsOf(rows[..n])| + (if rows[n].id in IdsOf(rows[..n]) then 0 else 1)
  {
    forall row | row in rows
      ensures row.id in IdsOf(rows[..n]) + {rows[n].id}
    {
      assert row in rows[..n] || row == rows[n];
    }
    assert IdsOf(rows) == IdsOf(rows[..n]) + {rows[n].id};
    if rows[n].id in IdsOf(rows[..n]) { assert IdsOf(rows) == IdsOf(rows[..n]); }
  }

  /** As many ids as rows means no id comes twice. */
  lemma {:induction false} UniqueIds(rows: seq<Row>)
    ensures |IdsOf(rows)| <= |rows|
    ensures |IdsOf(rows)| == |rows| <==> NoneTwice(rows)
  {
    if rows != [] {
      var n := |rows| - 1;
      UniqueIds(rows[..n]);
      IdsPush(rows, n);
      NewId(rows, n);
      TwicePush(rows, n);
    }
  }

  lemma TwicePush(rows: seq<Row>, n: nat)
    requires |rows| == n + 1
    ensures NoneTwice(rows) <==> NoneTwice(rows[..n]) && !exists i :: 0 <= i < n && rows[i].id == rows[n].id
  {
    if NoneTwice(rows[..n]) && !exists i :: 0 <= i < n && rows[i].id == rows[n].id {
      forall i, j | 0 <= i < j < |rows|
        ensures rows[i].id != rows[j].id
      {
        if j < n { assert rows[..n][i].id != rows[..n][j].id; }
      }
    }
  }
}
