/**
  Warehouse stock (inventory-service/src/reservations/reservations.service.ts and
  inventory-service/src/stock/stock.service.ts): the tables, each SQL statement as a function on
  them, the services' methods, and what a reservation does when nothing runs beside it.
*/
module Warehouse {
  import opened Wrappers
  import opened Bytes
  import opened Search
  import opened Sorting
  import opened Sums

  /** A stock level; `id` is its random primary key. */
  datatype Row = Row(id: nat, product: Text, warehouse: Text, quantity: int)

  /** What a reservation remembers of a row it read. */
  datatype Level = Level(id: nat, quantity: int)

  datatype Item = Item(product: Text, quantity: nat)

  datatype Backorder = Backorder(product: Text, order: Option<Text>, quantity: nat)

  datatype RestockEvent = RestockEvent(product: Text, warehouse: Text, quantity: nat)

  /** One item of the reservation's answer; `drawn` is what its updates took from the rows: history only. */
  datatype Line = Line(product: Text, requested: nat, reserved: nat, backorder: Option<nat>, drawn: nat)

  function Least(a: int, b: int): int { if a < b then a else b }

  // ---- the stock table ----------------------------------------------------------------------

  function FindId(rows: seq<Row>, id: nat): (r: Option<nat>)
    ensures r.Some? ==> r.value < |rows| && rows[r.value].id == id
    ensures r.None? ==> forall i :: 0 <= i < |rows| ==> rows[i].id != id
  {
    FindIndex(rows, (row: Row) => row.id == id)
  }

  function FindPair(rows: seq<Row>, product: Text, warehouse: Text): (r: Option<nat>)
    ensures r.Some? ==> r.value < |rows| && rows[r.value].product == product && rows[r.value].warehouse == warehouse
    ensures r.None? ==> forall i :: 0 <= i < |rows| ==> rows[i].product != product || rows[i].warehouse != warehouse
  {
    FindIndex(rows, (row: Row) => row.product == product && row.warehouse == warehouse)
  }

  /** The primary key and the unique index on product and warehouse, and no negative quantity. */
  ghost predicate TableOk(rows: seq<Row>) {
    && (forall i, j :: 0 <= i < j < |rows| ==> rows[i].id != rows[j].id)
    && (forall i, j :: 0 <= i < j < |rows| ==> rows[i].product != rows[j].product || rows[i].warehouse != rows[j].warehouse)
    && (forall i :: 0 <= i < |rows| ==> rows[i].quantity >= 0)
  }

  function Added(row: Row, quantity: int): Row { row.(quantity := row.quantity + quantity) }

  function Lowered(row: Row, quantity: int): Row { row.(quantity := row.quantity - quantity) }

  function StockIn(product: Text): Row -> int { (row: Row) => if row.product == product then row.quantity else 0 }

  /** All of the product's stock, over every warehouse. */
  function Stock(rows: seq<Row>, product: Text): int { Sum(StockIn(product), rows) }

  // ---- reserving one product ----------------------------------------------------------------

  /** Largest quantity first, then by id. */
  predicate BigFirst(a: Level, b: Level) {
    a.quantity > b.quantity || (a.quantity == b.quantity && a.id <= b.id)
  }

  function Levels(rows: seq<Row>, product: Text): seq<Level> {
    if rows == [] then []
    else
      var row := rows[|rows| - 1];
      Levels(rows[..|rows| - 1], product) + (if row.product == product then [Level(row.id, row.quantity)] else [])
  }

  function Listing(rows: seq<Row>, product: Text): seq<Level> { Sort(Levels(rows, product), BigFirst) }

  /** One pass of the loop: the conditional update of one remembered row. */
  function Attempt(rows: seq<Row>, level: Level, remaining: nat): (r: (seq<Row>, nat))
    ensures r.1 <= remaining
  {
    var take := Least(remaining, level.quantity);
    var i := FindId(rows, level.id);
    if take > 0 && i.Some? && rows[i.value].quantity >= take
    then (rows[i.value := Lowered(rows[i.value], take)], remaining - take)
    else (rows, remaining)
  }

  /** The loop with nothing running beside it. */
  function DrainAll(rows: seq<Row>, levels: seq<Level>, remaining: nat): (r: (seq<Row>, nat))
    ensures r.1 <= remaining
    decreases |levels|
  {
    if levels == [] then (rows, remaining)
    else
      var (rows', remaining') := Attempt(rows, levels[0], remaining);
      DrainAll(rows', levels[1..], remaining')
  }

  /** What the loop takes from each listed level when none of them changed since it was read. */
  function Greedy(levels: seq<Level>, remaining: nat): (takes: seq<nat>)
    ensures |takes| == |levels|
  {
    if levels == [] then []
    else
      var take := if levels[0].quantity < 0 then 0 else Least(remaining, levels[0].quantity);
      [take] + Greedy(levels[1..], remaining - take)
  }

  function Quantity(): Level -> int { (level: Level) => level.quantity }

  function OnHand(levels: seq<Level>): int { Sum(Quantity(), levels) }

  function Amount(): nat -> int { (n: nat) => n }

  function Total(takes: seq<nat>): int { Sum(Amount(), takes) }

  /** How many levels an allocation touches. */
  function Touched(takes: seq<nat>): nat {
    if takes == [] then 0 else Touched(takes[..|takes| - 1]) + (if takes[|takes| - 1] > 0 then 1 else 0)
  }

  ghost predicate NonNegative(levels: seq<Level>) { forall i :: 0 <= i < |levels| ==> levels[i].quantity >= 0 }

  lemma FirstOfSum<T>(f: T -> int, s: seq<T>)
    requires s != []
    ensures Sum(f, s) == f(s[0]) + Sum(f, s[1..])
  {
    assert s == [s[0]] + s[1..];
    SumConcat(f, [s[0]], s[1..]);
    assert Sum(f, [s[0]]) == f(s[0]) by {
      assert [s[0]][..0] == [];
    }
  }

  lemma {:induction false} OnHandNonNegative(levels: seq<Level>)
    requires NonNegative(levels)
    ensures OnHand(levels) >= 0
  {
    SumNonNegative(Quantity(), levels);
  }

  /** The greedy takes add up to the smaller of the request and what is on hand, and fit each level. */
  lemma {:induction false} GreedyTotal(levels: seq<Level>, remaining: nat)
    requires NonNegative(levels)
    ensures Total(Greedy(levels, remaining)) == Least(remaining, OnHand(levels))
    ensures forall i :: 0 <= i < |levels| ==> Greedy(levels, remaining)[i] <= levels[i].quantity
  {
    OnHandNonNegative(levels);
    if levels != [] {
      var take := Least(remaining, levels[0].quantity);
      GreedyTotal(levels[1..], remaining - take);
      OnHandNonNegative(levels[1..]);
      FirstOfSum(Quantity(), levels);
      FirstOfSum(Amount(), Greedy(levels, remaining));
      assert Greedy(levels, remaining)[1..] == Greedy(levels[1..], remaining - take);
    }
  }

  ghost predicate Descending(levels: seq<Level>) {
    forall i, j :: 0 <= i < j < |levels| ==> levels[i].quantity >= levels[j].quantity
  }

  /** No allocation over k levels moves more than the k largest levels hold. */
  lemma {:induction false} LargestHoldMost(levels: seq<Level>, takes: seq<nat>)
    requires |takes| == |levels| && Descending(levels) && NonNegative(levels)
    requires forall i :: 0 <= i < |levels| ==> takes[i] <= levels[i].quantity
    ensures Touched(takes) <= |levels|
    ensures Total(takes) <= OnHand(levels[..Touched(takes)])
  {
    if levels != [] {
      var n := |levels| - 1;
      LargestHoldMost(levels[..n], takes[..n]);
      var k := Touched(takes[..n]);
      assert levels[..n][..k] == levels[..k];
      if takes[n] > 0 {
        assert levels[..k + 1][..k] == levels[..k];
        assert levels[k].quantity >= levels[n].quantity;
      }
    } else {
      assert levels[..0] == [];
    }
  }

  /** Before its last touched level the greedy loop has emptied every level and still wants more. */
  lemma {:induction false} GreedyFillsFirst(levels: seq<Level>, remaining: nat, k: nat)
    requires NonNegative(levels) && k < Touched(Greedy(levels, remaining))
    ensures k <= |levels| && OnHand(levels[..k]) < Total(Greedy(levels, remaining))
  {
    GreedyTotal(levels, remaining);
    if levels == [] {
      assert false;
    } else {
      var take := Least(remaining, levels[0].quantity);
      var takes := Greedy(levels, remaining);
      TouchedFirst(takes);
      assert takes[1..] == Greedy(levels[1..], remaining - take);
      FirstOfSum(Amount(), takes);
      if k == 0 {
        TouchedMeansTotal(takes);
        assert levels[..0] == [];
      } else {
        GreedyFillsFirst(levels[1..], remaining - take, k - 1);
        FirstOfSum(Quantity(), levels[..k]);
        assert levels[..k][1..] == levels[1..][..k - 1];
        TotalNonNegative(takes[1..]);
        if take < levels[0].quantity {
          NothingMoreWanted(levels[1..]);
        }
      }
    }
  }

  lemma {:induction false} NothingMoreWanted(levels: seq<Level>)
    requires NonNegative(levels)
    ensures Touched(Greedy(levels, 0)) == 0
  {
    if levels != [] {
      NothingMoreWanted(levels[1..]);
      TouchedFirst(Greedy(levels, 0));
      assert Greedy(levels, 0)[1..] == Greedy(levels[1..], 0);
    }
  }

  lemma {:induction false} TouchedFirst(takes: seq<nat>)
    requires takes != []
    ensures Touched(takes) == (if takes[0] > 0 then 1 else 0) + Touched(takes[1..])
  {
    var n := |takes| - 1;
    if n > 0 {
      TouchedFirst(takes[..n]);
      assert takes[..n][1..] == takes[1..][..n - 1];
    }
  }

  lemma TotalNonNegative(takes: seq<nat>)
    ensures Total(takes) >= 0
  {
    SumNonNegative(Amount(), takes);
  }

  lemma {:induction false} TouchedMeansTotal(takes: seq<nat>)
    requires Touched(takes) > 0
    ensures Total(takes) > 0
  {
    TotalNonNegative(takes[..|takes| - 1]);
    if takes[|takes| - 1] == 0 { TouchedMeansTotal(takes[..|takes| - 1]); }
  }

  /** No allocation that moves as much as the largest-first drain touches fewer levels. */
  lemma GreedyTouchesFewest(levels: seq<Level>, quantity: nat, other: seq<nat>)
    requires Descending(levels) && NonNegative(levels) && |other| == |levels|
    requires forall i :: 0 <= i < |levels| ==> other[i] <= levels[i].quantity
    requires Total(other) >= Total(Greedy(levels, quantity))
    ensures Touched(Greedy(levels, quantity)) <= Touched(other)
  {
    LargestHoldMost(levels, other);
    if Touched(other) < Touched(Greedy(levels, quantity)) {
      GreedyFillsFirst(levels, quantity, Touched(other));
      assert false;
    }
  }

  // ---- the table under one reservation ------------------------------------------------------

  lemma FindIdIs(rows: seq<Row>, i: nat)
    requires TableOk(rows) && i < |rows|
    ensures FindId(rows, rows[i].id) == Some(i)
  {
    var found := FindId(rows, rows[i].id);
    assert found.Some?;
  }

  /** Every level names a row of the product. */
  ghost predicate Listed(rows: seq<Row>, levels: seq<Level>, product: Text) {
    forall j :: 0 <= j < |levels| ==> IsOf(rows, levels[j].id, product)
  }

  ghost predicate IsOf(rows: seq<Row>, id: nat, product: Text) {
    exists i :: 0 <= i < |rows| && rows[i].id == id && rows[i].product == product
  }

  /** One conditional update lowers the stock of its product by what it took, and nothing else. */
  lemma AttemptConserves(rows: seq<Row>, level: Level, remaining: nat, product: Text)
    requires TableOk(rows) && IsOf(rows, level.id, product)
    ensures var (after, rest) := Attempt(rows, level, remaining);
            && TableOk(after) && |after| == |rows|
            && (forall i :: 0 <= i < |rows| ==> after[i] == rows[i].(quantity := after[i].quantity))
            && (forall p :: Stock(after, p) == Stock(rows, p) - (if p == product then remaining - rest else 0))
  {
    var i :| 0 <= i < |rows| && rows[i].id == level.id && rows[i].product == product;
    FindIdIs(rows, i);
    var (after, rest) := Attempt(rows, level, remaining);
    forall p
      ensures Stock(after, p) == Stock(rows, p) - (if p == product then remaining - rest else 0)
    {
      SumUpdate(StockIn(p), rows, i, Lowered(rows[i], remaining - rest));
    }
  }

  predicate Shows(row: Row, level: Level, product: Text) {
    row.id == level.id && row.product == product && row.quantity == level.quantity
  }

  ghost predicate InTable(rows: seq<Row>, level: Level, product: Text) {
    exists i :: 0 <= i < |rows| && Shows(rows[i], level, product)
  }

  /** The levels are what the rows hold now. */
  ghost predicate Fresh(rows: seq<Row>, levels: seq<Level>, product: Text) {
    && (forall j, k :: 0 <= j < k < |levels| ==> levels[j].id != levels[k].id)
    && (forall j :: 0 <= j < |levels| ==> InTable(rows, levels[j], product))
  }

  function TakenFrom(levels: seq<Level>, takes: seq<nat>, id: nat): nat
    requires |levels| == |takes|
  {
    if levels == [] then 0 else if levels[0].id == id then takes[0] else TakenFrom(levels[1..], takes[1..], id)
  }

  /** Each row is lower by what was taken from its level; rows of no listed level are as they were. */
  ghost predicate LoweredBy(rows: seq<Row>, after: seq<Row>, levels: seq<Level>, takes: seq<nat>) {
    && |levels| == |takes| && |after| == |rows|
    && forall i :: 0 <= i < |rows| ==> after[i] == Lowered(rows[i], TakenFrom(levels, takes, rows[i].id))
  }

  lemma LoweredFirst(rows: seq<Row>, mid: seq<Row>, after: seq<Row>, levels: seq<Level>, takes: seq<nat>)
    requires levels != [] && |takes| == |levels| && |mid| == |rows|
    requires forall i :: 0 <= i < |rows| ==>
               mid[i] == (if rows[i].id == levels[0].id then Lowered(rows[i], takes[0]) else rows[i])
    requires LoweredBy(mid, after, levels[1..], takes[1..])
    requires TakenFrom(levels[1..], takes[1..], levels[0].id) == 0
    ensures LoweredBy(rows, after, levels, takes)
  {
  }

  lemma AttemptFresh(rows: seq<Row>, level: Level, remaining: nat, product: Text)
    requires TableOk(rows) && Fresh(rows, [level], product)
    ensures level.quantity >= 0
    ensures var (after, rest) := Attempt(rows, level, remaining);
            && rest == remaining - Least(remaining, level.quantity)
            && TableOk(after) && |after| == |rows|
            && forall i :: 0 <= i < |rows| ==> after[i] == (if rows[i].id == level.id then Lowered(rows[i], remaining - rest) else rows[i])
  {
    assert [level][0] == level;
    var i :| 0 <= i < |rows| && Shows(rows[i], level, product);
    FindIdIs(rows, i);
  }

  lemma FreshSplits(rows: seq<Row>, levels: seq<Level>, product: Text)
    requires Fresh(rows, levels, product) && levels != []
    ensures Fresh(rows, [levels[0]], product)
    ensures Fresh(rows, levels[1..], product)
    ensures forall j :: 0 <= j < |levels[1..]| ==> levels[1..][j].id != levels[0].id
  {
    assert levels[1..] == levels[1..|levels|];
    forall j | 0 <= j < |levels[1..]|
      ensures InTable(rows, levels[1..][j], product)
    {
      assert levels[1..][j] == levels[j + 1];
    }
  }

  lemma FreshStays(rows: seq<Row>, after: seq<Row>, levels: seq<Level>, product: Text, id: nat)
    requires Fresh(rows, levels, product) && |after| == |rows|
    requires forall i :: 0 <= i < |rows| && rows[i].id != id ==> after[i] == rows[i]
    requires forall j :: 0 <= j < |levels| ==> levels[j].id != id
    ensures Fresh(after, levels, product)
  {
    forall j | 0 <= j < |levels|
      ensures InTable(after, levels[j], product)
    {
      var i :| 0 <= i < |rows| && Shows(rows[i], levels[j], product);
      assert Shows(after[i], levels[j], product);
    }
  }

  lemma {:induction false} Untaken(levels: seq<Level>, takes: seq<nat>, id: nat)
    requires |levels| == |takes| && forall j :: 0 <= j < |levels| ==> levels[j].id != id
    ensures TakenFrom(levels, takes, id) == 0
  {
    if levels != [] { Untaken(levels[1..], takes[1..], id); }
  }

  /** Left alone, the loop takes the greedy amount from each row it listed, and nothing from any other. */
  lemma {:induction false} DrainAlone(rows: seq<Row>, levels: seq<Level>, remaining: nat, product: Text)
    requires TableOk(rows) && Fresh(rows, levels, product)
    ensures NonNegative(levels)
    ensures var (after, rest) := DrainAll(rows, levels, remaining); var takes := Greedy(levels, remaining);
            rest == remaining - Total(takes) && LoweredBy(rows, after, levels, takes)
    decreases |levels|
  {
    if levels != [] {
      var level, takes := levels[0], Greedy(levels, remaining);
      FreshSplits(rows, levels, product);
      AttemptFresh(rows, level, remaining, product);
      var (mid, rest) := Attempt(rows, level, remaining);
      FreshStays(rows, mid, levels[1..], product, level.id);
      DrainAlone(mid, levels[1..], rest, product);
      assert takes[1..] == Greedy(levels[1..], rest);
      FirstOfSum(Amount(), takes);
      Untaken(levels[1..], takes[1..], level.id);
      LoweredFirst(rows, mid, DrainAll(mid, levels[1..], rest).0, levels, takes);
    }
  }

  // ---- the listing --------------------------------------------------------------------------

  lemma BigFirstIsTotal()
    ensures TotalOrder(BigFirst)
  {
  }

  lemma {:induction false} LevelsAreFresh(rows: seq<Row>, product: Text)
    requires TableOk(rows)
    ensures Fresh(rows, Levels(rows, product), product)
  {
    if rows != [] {
      var n := |rows| - 1;
      LevelsAreFresh(rows[..n], product);
      FreshGrows(rows[..n], rows[n], Levels(rows[..n], product), product);
      assert rows[..n] + [rows[n]] == rows;
      if rows[n].product != product { assert Levels(rows, product) == Levels(rows[..n], product); }
    }
  }

  lemma {:induction false} NoLevels(rows: seq<Row>, product: Text)
    ensures Levels(rows, product) == [] <==> forall i :: 0 <= i < |rows| ==> rows[i].product != product
  {
    if rows != [] { NoLevels(rows[..|rows| - 1], product); }
  }

  lemma {:induction false} LevelsAddUp(rows: seq<Row>, product: Text)
    ensures OnHand(Levels(rows, product)) == Stock(rows, product)
  {
    if rows != [] {
      var n := |rows| - 1;
      LevelsAddUp(rows[..n], product);
      if rows[n].product == product {
        SumPush(Quantity(), Levels(rows[..n], product), Level(rows[n].id, rows[n].quantity));
      } else {
        assert Levels(rows, product) == Levels(rows[..n], product);
      }
    }
  }

  lemma FreshGrows(rows: seq<Row>, row: Row, levels: seq<Level>, product: Text)
    requires Fresh(rows, levels, product) && forall i :: 0 <= i < |rows| ==> rows[i].id != row.id
    ensures Fresh(rows + [row], levels, product)
    ensures row.product == product ==> Fresh(rows + [row], levels + [Level(row.id, row.quantity)], product)
  {
    var all, more := rows + [row], levels + [Level(row.id, row.quantity)];
    forall j | 0 <= j < |levels|
      ensures InTable(all, levels[j], product) && levels[j].id != row.id
    {
      assert InTable(rows, levels[j], product);
      var i :| 0 <= i < |rows| && Shows(rows[i], levels[j], product);
      assert Shows(all[i], levels[j], product);
    }
    if row.product == product {
      forall j | 0 <= j < |more|
        ensures InTable(all, more[j], product)
      {
        if j == |levels| {
          assert Shows(all[|rows|], more[j], product);
        } else {
          assert more[j] == levels[j];
        }
      }
    }
  }

  lemma {:induction false} InsertSum(f: Level -> int, x: Level, s: seq<Level>)
    ensures Sum(f, Insert(x, s, BigFirst)) == f(x) + Sum(f, s)
  {
    var r := Insert(x, s, BigFirst);
    FirstOfSum(f, r);
    if s != [] {
      FirstOfSum(f, s);
      if BigFirst(x, s[0]) {
        assert r[1..] == s;
      } else {
        InsertSum(f, x, s[1..]);
        assert r[1..] == Insert(x, s[1..], BigFirst);
      }
    } else {
      assert r[1..] == [];
    }
  }

  lemma {:induction false} SortSum(f: Level -> int, s: seq<Level>)
    ensures Sum(f, Sort(s, BigFirst)) == Sum(f, s)
  {
    if s != [] {
      SortSum(f, s[1..]);
      InsertSum(f, s[0], Sort(s[1..], BigFirst));
      FirstOfSum(f, s);
    }
  }

  lemma SameElementsApart(a: seq<Level>, b: seq<Level>)
    requires multiset(a) == multiset(b)
    requires forall j, k :: 0 <= j < k < |a| ==> a[j].id != a[k].id
    ensures forall j, k :: 0 <= j < k < |b| ==> b[j].id != b[k].id
  {
    forall j, k | 0 <= j < k < |a|
      ensures a[j] != a[k]
    {
      assert a[j].id != a[k].id;
    }
    DistinctStays(a, b);
    forall j, k | 0 <= j < k < |b|
      ensures b[j].id != b[k].id
    {
      assert b[j] in multiset(a) && b[k] in multiset(a);
      var m :| 0 <= m < |a| && a[m] == b[j];
      var n :| 0 <= n < |a| && a[n] == b[k];
      assert b[j] != b[k];
      assert m != n;
      assert if m < n then a[m].id != a[n].id else a[n].id != a[m].id;
    }
  }

  /** What a reservation reads: the product's rows, each once, largest first, adding up to its stock. */
  lemma ListingIsStock(rows: seq<Row>, product: Text)
    requires TableOk(rows)
    ensures Fresh(rows, Listing(rows, product), product)
    ensures Descending(Listing(rows, product)) && OnHand(Listing(rows, product)) == Stock(rows, product)
    ensures Listing(rows, product) == [] <==> forall i :: 0 <= i < |rows| ==> rows[i].product != product
  {
    var levels, sorted := Levels(rows, product), Listing(rows, product);
    LevelsAreFresh(rows, product);
    LevelsAddUp(rows, product);
    NoLevels(rows, product);
    BigFirstIsTotal();
    SortSorts(levels, BigFirst);
    SortSum(Quantity(), levels);
    SameElementsApart(levels, sorted);
    forall j | 0 <= j < |sorted|
      ensures InTable(rows, sorted[j], product)
    {
      assert sorted[j] in multiset(levels);
      var k :| 0 <= k < |levels| && levels[k] == sorted[j];
    }
  }

  /** Tracked means the product has a row somewhere. */
  ghost predicate Tracked(rows: seq<Row>, product: Text) {
    exists i :: 0 <= i < |rows| && rows[i].product == product
  }

  /** `reserveOneProduct` with nothing beside it: the rows after, and how much is reserved. */
  function ReserveAlone(rows: seq<Row>, product: Text, quantity: nat): (r: (seq<Row>, nat))
    ensures r.1 <= quantity
  {
    var levels := Listing(rows, product);
    if levels == [] then (rows, quantity)
    else
      var (after, rest) := DrainAll(rows, levels, quantity);
      (after, quantity - rest)
  }

  /**
    Run alone on a tracked product it reserves all that is asked or all there is; it takes it from the
    product's own rows; and no way of taking as much touches fewer of them.
  */
  lemma ReserveAloneIsBest(rows: seq<Row>, product: Text, quantity: nat)
    requires TableOk(rows)
    ensures var (after, reserved) := ReserveAlone(rows, product, quantity);
            var levels := Listing(rows, product); var takes := Greedy(levels, quantity);
            if !Tracked(rows, product) then after == rows && reserved == quantity
            else
              && reserved == Least(quantity, Stock(rows, product)) == Total(takes)
              && LoweredBy(rows, after, levels, takes)
              && (forall i :: 0 <= i < |rows| ==> after[i].quantity >= 0)
              && TouchesFewest(levels, takes)
  {
    var levels := Listing(rows, product);
    ListingIsStock(rows, product);
    if levels != [] {
      DrainAlone(rows, levels, quantity, product);
      GreedyTotal(levels, quantity);
      forall i | 0 <= i < |rows|
        ensures TakenFrom(levels, Greedy(levels, quantity), rows[i].id) <= rows[i].quantity
      {
        TakenFits(rows, levels, Greedy(levels, quantity), product, i);
      }
      FewestOfAll(levels, quantity);
    }
  }

  /** Every allocation of at least as much over the same levels touches at least as many of them. */
  ghost predicate TouchesFewest(levels: seq<Level>, takes: seq<nat>) {
    forall other: seq<nat> :: |other| == |levels| && Fits(other, levels) && Total(other) >= Total(takes)
      ==> Touched(takes) <= Touched(other)
  }

  lemma FewestOfAll(levels: seq<Level>, quantity: nat)
    requires Descending(levels) && NonNegative(levels)
    ensures TouchesFewest(levels, Greedy(levels, quantity))
  {
    var takes := Greedy(levels, quantity);
    forall other: seq<nat> | |other| == |levels| && Fits(other, levels) && Total(other) >= Total(takes)
      ensures Touched(takes) <= Touched(other)
    {
      GreedyTouchesFewest(levels, quantity, other);
    }
  }

  ghost predicate Fits(takes: seq<nat>, levels: seq<Level>)
    requires |takes| == |levels|
  {
    forall i :: 0 <= i < |levels| ==> takes[i] <= levels[i].quantity
  }

  lemma {:induction false} TakenFits(rows: seq<Row>, levels: seq<Level>, takes: seq<nat>, product: Text, i: nat)
    requires TableOk(rows) && Fresh(rows, levels, product) && i < |rows| && |takes| == |levels| && Fits(takes, levels)
    ensures TakenFrom(levels, takes, rows[i].id) <= rows[i].quantity
    decreases |levels|
  {
    if levels != [] {
      FreshSplits(rows, levels, product);
      if levels[0].id == rows[i].id {
        assert [levels[0]][0] == levels[0];
        var k :| 0 <= k < |rows| && Shows(rows[k], levels[0], product);
        FindIdIs(rows, i);
        FindIdIs(rows, k);
      } else {
        TakenFits(rows, levels[1..], takes[1..], product, i);
      }
    }
  }

  // ---- the answer, and restocking -----------------------------------------------------------

  /** The backorder, if any, and the line of the answer. */
  function Settle(backorders: seq<Backorder>, order: Option<Text>, item: Item, reserved: nat, drawn: nat)
    : (seq<Backorder>, Line)
    requires reserved <= item.quantity
  {
    if reserved < item.quantity
    then (backorders + [Backorder(item.product, order, item.quantity - reserved)],
          Line(item.product, item.quantity, reserved, Some(|backorders|), drawn))
    else (backorders, Line(item.product, item.quantity, reserved, None, drawn))
  }

  /** The backorder a line names carries exactly what the line could not reserve. */
  ghost predicate LineOk(backorders: seq<Backorder>, line: Line) {
    match line.backorder
    case None => line.requested == line.reserved
    case Some(b) =>
      b < |backorders| && backorders[b].product == line.product && backorders[b].quantity > 0
      && line.requested == line.reserved + backorders[b].quantity
  }

  /** One pass of `reserve`'s loop with nothing beside it. */
  function ReserveItem(rows: seq<Row>, backorders: seq<Backorder>, order: Option<Text>, item: Item)
    : (seq<Row>, seq<Backorder>, Line)
  {
    var (after, reserved) := ReserveAlone(rows, item.product, item.quantity);
    var drawn := if Listing(rows, item.product) == [] then 0 else reserved;
    var (backorders', line) := Settle(backorders, order, item, reserved, drawn);
    (after, backorders', line)
  }

  /** `reserve` with nothing beside it. */
  function ReserveItems(rows: seq<Row>, backorders: seq<Backorder>, order: Option<Text>, items: seq<Item>)
    : (r: (seq<Row>, seq<Backorder>, seq<Line>))
    ensures |r.2| == |items|
  {
    if items == [] then (rows, backorders, [])
    else
      var (rows, backorders, lines) := ReserveItems(rows, backorders, order, items[..|items| - 1]);
      var (rows', backorders', line) := ReserveItem(rows, backorders, order, items[|items| - 1]);
      (rows', backorders', lines + [line])
  }

  /** The line says what was asked and splits it, and earlier backorders stand. */
  ghost predicate Answers(before: seq<Backorder>, after: seq<Backorder>, item: Item, line: Line) {
    before <= after && line.product == item.product && line.requested == item.quantity && LineOk(after, line)
  }

  lemma ReserveItemSplits(rows: seq<Row>, backorders: seq<Backorder>, order: Option<Text>, item: Item)
    ensures var (_, after, line) := ReserveItem(rows, backorders, order, item); Answers(backorders, after, item, line)
  {
  }

  lemma LineStaysOk(before: seq<Backorder>, after: seq<Backorder>, line: Line)
    requires before <= after && LineOk(before, line)
    ensures LineOk(after, line)
  {
  }

  ghost predicate AllAnswer(before: seq<Backorder>, after: seq<Backorder>, items: seq<Item>, lines: seq<Line>) {
    |lines| == |items| && forall i :: 0 <= i < |items| ==> Answers(before, after, items[i], lines[i])
  }

  lemma AnswersGrow(before: seq<Backorder>, mid: seq<Backorder>, after: seq<Backorder>, items: seq<Item>, lines: seq<Line>,
                    item: Item, line: Line)
    requires AllAnswer(before, mid, items, lines) && before <= mid && Answers(mid, after, item, line)
    ensures AllAnswer(before, after, items + [item], lines + [line])
  {
    forall i | 0 <= i < |items|
      ensures Answers(before, after, items[i], lines[i])
    {
      LineStaysOk(mid, after, lines[i]);
    }
  }

  /** Run alone every answered line splits its request into reserved and backordered. */
  lemma {:induction false} ReserveItemsSplits(rows: seq<Row>, backorders: seq<Backorder>, order: Option<Text>, items: seq<Item>)
    ensures var (_, after, lines) := ReserveItems(rows, backorders, order, items);
            backorders <= after && AllAnswer(backorders, after, items, lines)
  {
    if items != [] {
      var n := |items| - 1;
      ReserveItemsSplits(rows, backorders, order, items[..n]);
      var (mid, before, lines) := ReserveItems(rows, backorders, order, items[..n]);
      ReserveItemSplits(mid, before, order, items[n]);
      var (_, after, line) := ReserveItem(mid, before, order, items[n]);
      AnswersGrow(backorders, before, after, items[..n], lines, items[n], line);
      assert items == items[..n] + [items[n]];
    }
  }

  /** `restock`'s upsert with nothing beside it; `id` is the key a new row would get. */
  function RestockAlone(rows: seq<Row>, product: Text, warehouse: Text, quantity: nat, id: nat): seq<Row> {
    match FindPair(rows, product, warehouse)
    case Some(i) => rows[i := Added(rows[i], quantity)]
    case None => rows + [Row(id, product, warehouse, quantity)]
  }

  /** One row per product and warehouse still, and only that product's stock is higher, by the quantity. */
  lemma RestockAdds(rows: seq<Row>, product: Text, warehouse: Text, quantity: nat, id: nat)
    requires TableOk(rows) && FindId(rows, id).None?
    ensures var after := RestockAlone(rows, product, warehouse, quantity, id);
            && TableOk(after) && |rows| <= |after|
            && (forall i :: 0 <= i < |rows| ==> after[i] == rows[i].(quantity := after[i].quantity))
            && FindPair(after, product, warehouse).Some?
            && (forall p :: Stock(after, p) == Stock(rows, p) + (if p == product then quantity else 0))
  {
    var after := RestockAlone(rows, product, warehouse, quantity, id);
    forall p
      ensures Stock(after, p) == Stock(rows, p) + (if p == product then quantity else 0)
    {
      match FindPair(rows, product, warehouse) {
        case Some(i) => SumUpdate(StockIn(p), rows, i, Added(rows[i], quantity));
        case None => SumPush(StockIn(p), rows, Row(id, product, warehouse, quantity));
      }
    }
    match FindPair(rows, product, warehouse) {
      case Some(i) => assert after[i].product == product && after[i].warehouse == warehouse;
      case None => assert after[|rows|].product == product && after[|rows|].warehouse == warehouse;
    }
  }

  // ---- the services -------------------------------------------------------------------------

  /** The first items have had their turn, from those tables. */
  ghost predicate Reserved(before: seq<Row>, placed: seq<Backorder>, order: Option<Text>, items: seq<Item>,
                           rows: seq<Row>, backorders: seq<Backorder>, lines: seq<Line>)
  {
    (rows, backorders, lines) == ReserveItems(before, placed, order, items)
  }

  lemma ReserveItemsPush(before: seq<Row>, placed: seq<Backorder>, order: Option<Text>, items: seq<Item>, i: nat,
                         rows: seq<Row>, backorders: seq<Backorder>, lines: seq<Line>)
    requires i < |items| && Reserved(before, placed, order, items[..i], rows, backorders, lines)
    ensures var (after, more, line) := ReserveItem(rows, backorders, order, items[i]);
            Reserved(before, placed, order, items[..i + 1], after, more, lines + [line])
  {
    assert items[..i + 1][..i] == items[..i];
  }

  /** What is left of the loop ends at the goal. */
  ghost predicate DrainLeaves(rows: seq<Row>, levels: seq<Level>, remaining: nat, goal: (seq<Row>, nat)) {
    DrainAll(rows, levels, remaining) == goal
  }

  lemma DrainStep(rows: seq<Row>, levels: seq<Level>, i: nat, remaining: nat, goal: (seq<Row>, nat))
    requires i < |levels| && DrainLeaves(rows, levels[i..], remaining, goal)
    ensures var (after, rest) := Attempt(rows, levels[i], remaining); DrainLeaves(after, levels[i + 1..], rest, goal)
  {
    assert levels[i..][0] == levels[i] && levels[i..][1..] == levels[i + 1..];
  }

  class InventoryService {
    const warehouses: set<Text>
    var rows: seq<Row>
    var backorders: seq<Backorder>
    var events: seq<RestockEvent>

    constructor (warehouses: set<Text>)
      ensures this.warehouses == warehouses && rows == [] && backorders == [] && events == []
    {
      this.warehouses := warehouses;
      rows, backorders, events := [], [], [];
    }

    /** The body of the loop over the levels: UPDATE ... WHERE quantity >= take, by the row's id. */
    method TakeFrom(level: Level, remaining: nat) returns (rest: nat)
      modifies this`rows
      ensures (rows, rest) == Attempt(old(rows), level, remaining)
    {
      var take := Least(remaining, level.quantity);
      if take <= 0 { return remaining; }
      var row := FindId(rows, level.id);
      if row.None? || rows[row.value].quantity < take { return remaining; }
      rows := rows[row.value := Lowered(rows[row.value], take)];
      rest := remaining - take;
    }

    method ReserveOneProduct(product: Text, quantity: nat) returns (reserved: nat)
      modifies this`rows
      ensures (rows, reserved) == ReserveAlone(old(rows), product, quantity)
    {
      var levels := Listing(rows, product);
      if levels == [] { return quantity; }
      var remaining: nat := quantity;
      ghost var goal := DrainAll(rows, levels, quantity);
      var i: nat := 0;
      while i < |levels| && remaining > 0
        invariant i <= |levels| && remaining <= quantity
        invariant DrainLeaves(rows, levels[i..], remaining, goal)
      {
        DrainStep(rows, levels, i, remaining, goal);
        remaining := TakeFrom(levels[i], remaining);
        i := i + 1;
      }
      if remaining == 0 { DrainNothing(rows, levels[i..]); }
      reserved := quantity - remaining;
      assert goal == (rows, remaining);
    }

    /** The body of `reserve`'s loop. */
    method AnswerItem(order: Option<Text>, item: Item) returns (line: Line)
      modifies this`rows, this`backorders
      ensures (rows, backorders, line) == ReserveItem(old(rows), old(backorders), order, item)
    {
      ghost var drawn := if Listing(rows, item.product) == [] then 0 else ReserveAlone(rows, item.product, item.quantity).1;
      var tracked := Listing(rows, item.product) != [];
      var reserved := ReserveOneProduct(item.product, item.quantity);
      var backorder := None;
      if item.quantity > reserved {
        backorder := Some(|backorders|);
        backorders := backorders + [Backorder(item.product, order, item.quantity - reserved)];
      }
      line := Line(item.product, item.quantity, reserved, backorder, if tracked then reserved else 0);
      assert line.drawn == drawn;
    }

    method Reserve(order: Option<Text>, items: seq<Item>) returns (lines: seq<Line>)
      modifies this`rows, this`backorders
      ensures (rows, backorders, lines) == ReserveItems(old(rows), old(backorders), order, items)
    {
      lines := [];
      for i := 0 to |items|
        invariant Reserved(old(rows), old(backorders), order, items[..i], rows, backorders, lines)
      {
        ReserveItemsPush(old(rows), old(backorders), order, items, i, rows, backorders, lines);
        var line := AnswerItem(order, items[i]);
        lines := lines + [line];
      }
      assert items[..|items|] == items;
    }

    /** UPDATE ... WHERE product and warehouse; tells whether a row was affected. */
    method Increase(product: Text, warehouse: Text, quantity: nat) returns (affected: bool)
      modifies this`rows
      ensures affected == FindPair(old(rows), product, warehouse).Some?
      ensures rows == if affected then RestockAlone(old(rows), product, warehouse, quantity, 0) else old(rows)
    {
      var row := FindPair(rows, product, warehouse);
      affected := row.Some?;
      if affected { rows := rows[row.value := Added(rows[row.value], quantity)]; }
    }

    method Restock(product: Text, warehouse: Text, quantity: nat, id: nat) returns (event: Option<RestockEvent>)
      modifies this`rows, this`events
      ensures if warehouse !in warehouses then event == None && rows == old(rows) && events == old(events)
              else
                && event == Some(RestockEvent(product, warehouse, quantity))
                && rows == RestockAlone(old(rows), product, warehouse, quantity, id)
                && events == old(events) + [event.value]
    {
      if warehouse !in warehouses { return None; }
      var affected := Increase(product, warehouse, quantity);
      // alone, the insert cannot meet a unique violation: WarehouseRuns has that branch
      if !affected { rows := rows + [Row(id, product, warehouse, quantity)]; }
      event := Some(RestockEvent(product, warehouse, quantity));
      events := events + [event.value];
    }
  }

  lemma {:induction false} DrainNothing(rows: seq<Row>, levels: seq<Level>)
    ensures DrainAll(rows, levels, 0) == (rows, 0)
    decreases |levels|
  {
    if levels != [] { DrainNothing(rows, levels[1..]); }
  }
}
