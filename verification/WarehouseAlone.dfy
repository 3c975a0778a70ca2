/**
  What a reservation and a restock come to with nothing beside them, said of the stock table and the answer
  alone (inventory-service/src/reservations/reservations.service.ts, inventory-service/src/stock/stock.service.ts).
*/
module WarehouseAlone {
  import opened Wrappers
  import opened Bytes
  import opened Sums
  import opened Sorting
  import opened Warehouse
  import opened WarehouseRuns

  // ---- the levels a reservation reads -------------------------------------------------------

  /** Every row of the product is among the levels. */
  lemma {:induction false} EveryRowListed(rows: seq<Row>, product: Text, i: nat)
    requires i < |rows| && rows[i].product == product
    ensures Level(rows[i].id, rows[i].quantity) in Levels(rows, product)
  {
    var n := |rows| - 1;
    if i < n { EveryRowListed(rows[..n], product, i); }
  }

  /** The product's rows and no others, a larger quantity before a smaller, and of equal ones the smaller id first. */
  lemma ListingExactly(rows: seq<Row>, product: Text)
    requires TableOk(rows)
    ensures var levels := Listing(rows, product);
            && (forall i :: 0 <= i < |rows| && rows[i].product == product ==> Level(rows[i].id, rows[i].quantity) in levels)
            && (forall level :: level in levels ==>
                  exists i :: 0 <= i < |rows| && rows[i].product == product && level == Level(rows[i].id, rows[i].quantity))
            && forall j, k :: 0 <= j < k < |levels| ==>
                 levels[j].quantity > levels[k].quantity || (levels[j].quantity == levels[k].quantity && levels[j].id < levels[k].id)
  {
    var levels := Listing(rows, product);
    ListingIsStock(rows, product);
    BigFirstIsTotal();
    SortSorts(Levels(rows, product), BigFirst);
    forall i | 0 <= i < |rows| && rows[i].product == product
      ensures Level(rows[i].id, rows[i].quantity) in levels
    {
      EveryRowListed(rows, product, i);
      assert Level(rows[i].id, rows[i].quantity) in multiset(levels);
    }
    forall level | level in levels
      ensures exists i :: 0 <= i < |rows| && rows[i].product == product && level == Level(rows[i].id, rows[i].quantity)
    {
      var j :| 0 <= j < |levels| && levels[j] == level;
      assert InTable(rows, levels[j], product);
    }
    forall j, k | 0 <= j < k < |levels|
      ensures levels[j].quantity > levels[k].quantity || (levels[j].quantity == levels[k].quantity && levels[j].id < levels[k].id)
    {
      assert BigFirst(levels[j], levels[k]) && levels[j].id != levels[k].id;
    }
  }

  // ---- what it takes of each ----------------------------------------------------------------

  function Within(a: int, b: int): nat { if a < b then (if a < 0 then 0 else a) else if b < 0 then 0 else b }

  /** A level gives what the levels before it could not, as far as it goes. */
  lemma {:induction false} GreedyExactly(levels: seq<Level>, quantity: nat, j: nat)
    requires NonNegative(levels) && j < |levels|
    ensures Greedy(levels, quantity)[j] == Within(levels[j].quantity, quantity - OnHand(levels[..j]))
  {
    if j == 0 {
      assert levels[..0] == [];
    } else {
      var take := Least(quantity, levels[0].quantity);
      GreedyExactly(levels[1..], quantity - take, j - 1);
      FirstOfSum(Quantity(), levels[..j]);
      assert levels[..j][1..] == levels[1..][..j - 1];
      OnHandNonNegative(levels[1..][..j - 1]);
    }
  }

  // ---- a whole reservation ------------------------------------------------------------------

  function Asked(product: Text): Item -> int { (item: Item) => if item.product == product then item.quantity else 0 }

  /** What is left of the product once the items have had theirs. */
  function LeftOf(rows: seq<Row>, items: seq<Item>, product: Text): int {
    var left := Stock(rows, product) - Sum(Asked(product), items);
    if left < 0 then 0 else left
  }

  /** What item `i` gets: all of it when the product has no row, and otherwise what earlier items have left. */
  ghost function Share(rows: seq<Row>, items: seq<Item>, i: nat): int
    requires i < |items|
  {
    var item := items[i];
    if !(exists r :: 0 <= r < |rows| && rows[r].product == item.product) then item.quantity
    else Least(item.quantity, LeftOf(rows, items[..i], item.product))
  }

  ghost predicate LineHolds(rows: seq<Row>, order: Option<Text>, items: seq<Item>, i: nat, more: seq<Backorder>, line: Line)
    requires i < |items|
  {
    && line.product == items[i].product && line.requested == items[i].quantity
    && line.reserved == Share(rows, items, i)
    && match line.backorder
       case None => line.reserved == line.requested
       case Some(b) =>
         line.reserved < line.requested
         && b < |more| && more[b] == Backorder(items[i].product, order, line.requested - line.reserved)
  }

  /** Each new backorder belongs to one line, in the order of the lines. */
  ghost predicate OneEach(before: seq<Backorder>, more: seq<Backorder>, lines: seq<Line>) {
    && before <= more
    && (forall i :: 0 <= i < |lines| && lines[i].backorder.Some? ==> |before| <= lines[i].backorder.value < |more|)
    && (forall i, j :: 0 <= i < j < |lines| && lines[i].backorder.Some? && lines[j].backorder.Some? ==>
          lines[i].backorder.value < lines[j].backorder.value)
    && forall b: nat | |before| <= b < |more| :: HasLine(lines, b)
  }

  ghost predicate HasLine(lines: seq<Line>, b: nat) { exists i :: 0 <= i < |lines| && lines[i].backorder == Some(b) }

  /** Tracked products' stock has gone down by what the items got, and everything else is as it was. */
  ghost predicate StockHolds(rows: seq<Row>, items: seq<Item>, after: seq<Row>) {
    && TableOk(after) && |after| == |rows|
    && (forall i :: 0 <= i < |rows| ==> after[i] == rows[i].(quantity := after[i].quantity))
    && forall p :: Stock(after, p) == if Tracked(rows, p) then LeftOf(rows, items, p) else Stock(rows, p)
  }

  ghost predicate LinesHold(rows: seq<Row>, order: Option<Text>, items: seq<Item>, more: seq<Backorder>, lines: seq<Line>) {
    |lines| == |items| && forall i :: 0 <= i < |items| ==> LineHolds(rows, order, items, i, more, lines[i])
  }

  lemma StockIsNatural(rows: seq<Row>, product: Text)
    requires TableOk(rows)
    ensures Stock(rows, product) >= 0
  {
    SumNonNegative(StockIn(product), rows);
  }

  lemma {:induction false} DrainConserves(rows: seq<Row>, levels: seq<Level>, remaining: nat, product: Text)
    requires TableOk(rows) && Listed(rows, levels, product)
    ensures var (after, rest) := DrainAll(rows, levels, remaining);
            && TableOk(after) && |after| == |rows|
            && (forall i :: 0 <= i < |rows| ==> after[i] == rows[i].(quantity := after[i].quantity))
            && forall p :: Stock(after, p) == Stock(rows, p) - (if p == product then remaining - rest else 0)
    decreases |levels|
  {
    if levels != [] {
      assert IsOf(rows, levels[0].id, product);
      AttemptConserves(rows, levels[0], remaining, product);
      var (mid, rest) := Attempt(rows, levels[0], remaining);
      forall j | 0 <= j < |levels[1..]|
        ensures IsOf(rows, levels[1..][j].id, product)
      {
        assert IsOf(rows, levels[j + 1].id, product);
      }
      ListedStays(rows, mid, levels[1..], product);
      DrainConserves(mid, levels[1..], rest, product);
    }
  }

  lemma TrackedIsListed(rows: seq<Row>, product: Text)
    requires TableOk(rows)
    ensures Tracked(rows, product) <==> Listing(rows, product) != []
  {
    ListingIsStock(rows, product);
  }

  /** One item's reservation. */
  lemma ItemTakes(rows: seq<Row>, product: Text, quantity: nat)
    requires TableOk(rows)
    ensures var (after, reserved) := ReserveAlone(rows, product, quantity);
            && TableOk(after) && |after| == |rows|
            && (forall i :: 0 <= i < |rows| ==> after[i] == rows[i].(quantity := after[i].quantity))
            && reserved == (if Tracked(rows, product) then Least(quantity, Stock(rows, product)) else quantity)
            && forall p :: Stock(after, p) == Stock(rows, p) - (if p == product && Tracked(rows, product) then reserved else 0)
  {
    TrackedIsListed(rows, product);
    ReserveAloneIsBest(rows, product, quantity);
    ListingIsListed(rows, product);
    DrainConserves(rows, Listing(rows, product), quantity, product);
  }

  lemma SameTracked(rows: seq<Row>, after: seq<Row>, product: Text)
    requires |after| == |rows| && forall i :: 0 <= i < |rows| ==> after[i] == rows[i].(quantity := after[i].quantity)
    ensures Tracked(after, product) <==> Tracked(rows, product)
  {
    if i :| 0 <= i < |rows| && rows[i].product == product { assert after[i].product == product; }
    if i :| 0 <= i < |rows| && after[i].product == product { assert rows[i].product == product; }
  }

  lemma AskedMore(items: seq<Item>, n: nat, product: Text)
    requires n < |items|
    ensures Sum(Asked(product), items[..n + 1]) == Sum(Asked(product), items[..n]) + Asked(product)(items[n])
    ensures Sum(Asked(product), items[..n]) >= 0
  {
    assert items[..n + 1] == items[..n] + [items[n]];
    SumPush(Asked(product), items[..n], items[n]);
    SumNonNegative(Asked(product), items[..n]);
  }

  /** The stock after one more item, from the stock after those before it. */
  lemma OneMoreTakes(rows: seq<Row>, items: seq<Item>, n: nat, mid: seq<Row>, p: Text)
    requires TableOk(rows) && n < |items| && StockHolds(rows, items[..n], mid)
    ensures var (after, reserved) := ReserveAlone(mid, items[n].product, items[n].quantity);
            reserved == Share(rows, items, n)
            && Stock(after, p) == if Tracked(rows, p) then LeftOf(rows, items[..n + 1], p) else Stock(rows, p)
  {
    var product := items[n].product;
    ItemTakes(mid, product, items[n].quantity);
    SameTracked(rows, mid, product);
    SameTracked(rows, mid, p);
    AskedMore(items, n, p);
    AskedMore(items, n, product);
    StockIsNatural(rows, p);
    assert Tracked(rows, product) <==> exists r :: 0 <= r < |rows| && rows[r].product == items[n].product;
  }

  lemma StockGoesOn(rows: seq<Row>, items: seq<Item>, n: nat, mid: seq<Row>)
    requires TableOk(rows) && n < |items| && StockHolds(rows, items[..n], mid)
    ensures StockHolds(rows, items[..n + 1], ReserveAlone(mid, items[n].product, items[n].quantity).0)
  {
    ItemTakes(mid, items[n].product, items[n].quantity);
    forall p
      ensures var after := ReserveAlone(mid, items[n].product, items[n].quantity).0;
              Stock(after, p) == if Tracked(rows, p) then LeftOf(rows, items[..n + 1], p) else Stock(rows, p)
    {
      OneMoreTakes(rows, items, n, mid, p);
    }
  }

  lemma LinesStay(rows: seq<Row>, order: Option<Text>, items: seq<Item>, n: nat, mid: seq<Backorder>, more: seq<Backorder>,
                  lines: seq<Line>, i: nat)
    requires n < |items| && i < n && mid <= more && LinesHold(rows, order, items[..n], mid, lines)
    ensures LineHolds(rows, order, items[..n + 1], i, more, lines[i])
  {
    assert LineHolds(rows, order, items[..n], i, mid, lines[i]);
    assert items[..n + 1][..i] == items[..n][..i];
    assert items[..n + 1][i] == items[..n][i];
  }

  lemma LinesGoOn(rows: seq<Row>, order: Option<Text>, items: seq<Item>, n: nat, mid: seq<Backorder>, lines: seq<Line>,
                  reserved: nat, drawn: nat)
    requires n < |items| && LinesHold(rows, order, items[..n], mid, lines)
    requires reserved <= items[n].quantity && reserved == Share(rows, items, n)
    ensures var (more, line) := Settle(mid, order, items[n], reserved, drawn);
            LinesHold(rows, order, items[..n + 1], more, lines + [line])
  {
    var (more, line) := Settle(mid, order, items[n], reserved, drawn);
    forall i | 0 <= i < n + 1
      ensures LineHolds(rows, order, items[..n + 1], i, more, (lines + [line])[i])
    {
      if i < n {
        LinesStay(rows, order, items, n, mid, more, lines, i);
      } else {
        assert items[..n + 1][..n] == items[..n];
      }
    }
  }

  lemma OneEachGoesOn(before: seq<Backorder>, mid: seq<Backorder>, lines: seq<Line>, order: Option<Text>, item: Item,
                      reserved: nat, drawn: nat)
    requires OneEach(before, mid, lines) && reserved <= item.quantity
    ensures var (more, line) := Settle(mid, order, item, reserved, drawn); OneEach(before, more, lines + [line])
  {
    var (more, line) := Settle(mid, order, item, reserved, drawn);
    var all := lines + [line];
    forall b: nat | |before| <= b < |more|
      ensures HasLine(all, b)
    {
      if b < |mid| {
        assert HasLine(lines, b);
        var i :| 0 <= i < |lines| && lines[i].backorder == Some(b);
        assert all[i] == lines[i];
      } else {
        assert all[|lines|].backorder == Some(b);
      }
    }
  }

  /** The reservation of the first `n` items. */
  ghost predicate SoFar(rows: seq<Row>, backorders: seq<Backorder>, order: Option<Text>, items: seq<Item>,
                        after: seq<Row>, more: seq<Backorder>, lines: seq<Line>)
  {
    StockHolds(rows, items, after) && LinesHold(rows, order, items, more, lines) && OneEach(backorders, more, lines)
  }

  lemma NoneTaken(rows: seq<Row>)
    requires TableOk(rows)
    ensures StockHolds(rows, [], rows)
  {
    forall p
      ensures Stock(rows, p) == if Tracked(rows, p) then LeftOf(rows, [], p) else Stock(rows, p)
    {
      StockIsNatural(rows, p);
    }
  }

  /**
    A reservation with nothing beside it gives each item, in order, all that is asked of an untracked product and
    otherwise the smaller of what is asked and what earlier items have left; what is missing goes to a backorder
    of its own for that product and order; and the stock falls by what was given, row by row of those products.
  */
  lemma {:induction false} ReserveExactly(rows: seq<Row>, backorders: seq<Backorder>, order: Option<Text>, items: seq<Item>)
    requires TableOk(rows)
    ensures var (after, more, lines) := ReserveItems(rows, backorders, order, items);
            SoFar(rows, backorders, order, items, after, more, lines)
  {
    if items == [] {
      NoneTaken(rows);
    } else {
      var n := |items| - 1;
      ReserveExactly(rows, backorders, order, items[..n]);
      var (mid, before, lines) := ReserveItems(rows, backorders, order, items[..n]);
      assert items[..n + 1] == items;
      StockGoesOn(rows, items, n, mid);
      OneMoreTakes(rows, items, n, mid, items[n].product);
      var (after, reserved) := ReserveAlone(mid, items[n].product, items[n].quantity);
      var drawn := if Listing(mid, items[n].product) == [] then 0 else reserved;
      LinesGoOn(rows, order, items, n, before, lines, reserved, drawn);
      OneEachGoesOn(backorders, before, lines, order, items[n], reserved, drawn);
    }
  }

  // ---- a whole restock ----------------------------------------------------------------------

  /** The pair's row is higher by the quantity, or is new with it; every other row is as it was. */
  ghost predicate Raises(rows: seq<Row>, product: Text, warehouse: Text, quantity: nat, id: nat, after: seq<Row>) {
    var there := exists i :: 0 <= i < |rows| && rows[i].product == product && rows[i].warehouse == warehouse;
    && |after| == |rows| + (if there then 0 else 1)
    && (forall i :: 0 <= i < |rows| ==>
          after[i] == if rows[i].product == product && rows[i].warehouse == warehouse
                      then Row(rows[i].id, product, warehouse, rows[i].quantity + quantity) else rows[i])
    && (!there ==> after[|rows|] == Row(id, product, warehouse, quantity))
  }

  lemma RestockExactly(rows: seq<Row>, product: Text, warehouse: Text, quantity: nat, id: nat)
    requires TableOk(rows)
    ensures Raises(rows, product, warehouse, quantity, id, RestockAlone(rows, product, warehouse, quantity, id))
  {
    var found := FindPair(rows, product, warehouse);
    if found.Some? { assert rows[found.value].product == product && rows[found.value].warehouse == warehouse; }
  }

  /** `n` steps of one restock, each offered the same fresh key. */
  function Own(t: nat, id: nat, n: nat): seq<Event> { seq(n, _ => Step(t, id)) }

  lemma OneMore(warehouses: set<Text>, s: State, t: nat, id: nat, n: nat, mid: State, after: State)
    requires Run(warehouses, s, Own(t, id, n)) == Some(mid) && Apply(warehouses, mid, Step(t, id)) == Some(after)
    ensures Run(warehouses, s, Own(t, id, n + 1)) == Some(after)
  {
    assert Own(t, id, n + 1)[..n] == Own(t, id, n);
  }

  /** The thread at `pc`, owing this much, with these rows and events. */
  function At(s: State, t: nat, rows: seq<Row>, events: seq<RestockEvent>, pc: Pc, owed: nat): State
    requires t < |s.threads|
  {
    State(rows, s.backorders, events, s.threads[t := s.threads[t].(pc := pc, owed := owed)])
  }

  lemma ThreadAt(s: State, t: nat, rows: seq<Row>, pc: Pc, owed: nat, next: Thread)
    requires t < |s.threads|
    ensures At(s, t, rows, s.events, pc, owed).threads[t := next] == s.threads[t := next]
  {
  }

  lemma ChecksAt(warehouses: set<Text>, s: State, t: nat, id: nat)
    requires t < |s.threads| && s.threads[t].call.Restock? && s.threads[t].pc.CheckWarehouse? && s.threads[t].owed == 0
    ensures Apply(warehouses, s, Step(t, id))
            == Some(At(s, t, s.rows, s.events, if s.threads[t].call.warehouse in warehouses then Update else NotFound, 0))
  {
  }

  lemma UpdatesAt(warehouses: set<Text>, s: State, t: nat, id: nat)
    requires t < |s.threads| && s.threads[t].call.Restock?
    ensures var call := s.threads[t].call;
            Apply(warehouses, At(s, t, s.rows, s.events, Update, 0), Step(t, id))
            == Some(if FindPair(s.rows, call.product, call.warehouse).Some?
                    then At(s, t, RestockAlone(s.rows, call.product, call.warehouse, call.quantity, id), s.events, AppendEvent, call.quantity)
                    else At(s, t, s.rows, s.events, InsertRow, 0))
  {
    ThreadAt(s, t, s.rows, Update, 0, s.threads[t].(pc := InsertRow, owed := 0));
    ThreadAt(s, t, s.rows, Update, 0, s.threads[t].(pc := AppendEvent, owed := s.threads[t].call.quantity));
  }

  lemma InsertsAt(warehouses: set<Text>, s: State, t: nat, id: nat)
    requires t < |s.threads| && s.threads[t].call.Restock? && FindId(s.rows, id).None?
    requires FindPair(s.rows, s.threads[t].call.product, s.threads[t].call.warehouse).None?
    ensures var call := s.threads[t].call;
            Apply(warehouses, At(s, t, s.rows, s.events, InsertRow, 0), Step(t, id))
            == Some(At(s, t, RestockAlone(s.rows, call.product, call.warehouse, call.quantity, id), s.events, AppendEvent, call.quantity))
  {
    ThreadAt(s, t, s.rows, InsertRow, 0, s.threads[t].(pc := AppendEvent, owed := s.threads[t].call.quantity));
  }

  lemma AppendsAt(warehouses: set<Text>, s: State, t: nat, id: nat, rows: seq<Row>)
    requires t < |s.threads| && s.threads[t].call.Restock?
    ensures var call := s.threads[t].call;
            Apply(warehouses, At(s, t, rows, s.events, AppendEvent, call.quantity), Step(t, id))
            == Some(At(s, t, rows, s.events + [RestockEvent(call.product, call.warehouse, call.quantity)], Done, 0))
  {
    ThreadAt(s, t, rows, AppendEvent, s.threads[t].call.quantity, s.threads[t].(pc := Done, owed := 0));
  }

  /** A known warehouse's row of the product is raised or inserted, and the event says so; an unknown one is refused. */
  ghost predicate RestockHolds(warehouses: set<Text>, s: State, t: nat, id: nat, after: State)
    requires t < |s.threads| && s.threads[t].call.Restock?
  {
    var call := s.threads[t].call;
    if call.warehouse in warehouses then
      && Raises(s.rows, call.product, call.warehouse, call.quantity, id, after.rows)
      && after == At(s, t, after.rows, s.events + [RestockEvent(call.product, call.warehouse, call.quantity)], Done, 0)
    else after == At(s, t, s.rows, s.events, NotFound, 0)
  }

  /** From the update of a known warehouse. */
  lemma UpdateRuns(warehouses: set<Text>, s: State, t: nat, id: nat) returns (n: nat, after: State)
    requires TableOk(s.rows) && FindId(s.rows, id).None? && t < |s.threads| && s.threads[t].call.Restock?
    requires Run(warehouses, s, Own(t, id, 1)) == Some(At(s, t, s.rows, s.events, Update, 0))
    ensures var call := s.threads[t].call; var rows := RestockAlone(s.rows, call.product, call.warehouse, call.quantity, id);
            && Run(warehouses, s, Own(t, id, n)) == Some(after)
            && after == At(s, t, rows, s.events + [RestockEvent(call.product, call.warehouse, call.quantity)], Done, 0)
  {
    var call := s.threads[t].call;
    var rows := RestockAlone(s.rows, call.product, call.warehouse, call.quantity, id);
    var raised := At(s, t, rows, s.events, AppendEvent, call.quantity);
    UpdatesAt(warehouses, s, t, id);
    AppendsAt(warehouses, s, t, id, rows);
    after := At(s, t, rows, s.events + [RestockEvent(call.product, call.warehouse, call.quantity)], Done, 0);
    if FindPair(s.rows, call.product, call.warehouse).Some? {
      OneMore(warehouses, s, t, id, 1, At(s, t, s.rows, s.events, Update, 0), raised);
      n := 3;
    } else {
      InsertsAt(warehouses, s, t, id);
      OneMore(warehouses, s, t, id, 1, At(s, t, s.rows, s.events, Update, 0), At(s, t, s.rows, s.events, InsertRow, 0));
      OneMore(warehouses, s, t, id, 2, At(s, t, s.rows, s.events, InsertRow, 0), raised);
      n := 4;
    }
    OneMore(warehouses, s, t, id, n - 1, raised, after);
  }

  /** A restock whose statements run one after another does what the restock says, and nothing else. */
  lemma RestockRuns(warehouses: set<Text>, s: State, t: nat, id: nat) returns (n: nat, after: State)
    requires TableOk(s.rows) && FindId(s.rows, id).None? && t < |s.threads| && s.threads[t].call.Restock?
    requires s.threads[t].pc.CheckWarehouse? && s.threads[t].owed == 0
    ensures Run(warehouses, s, Own(t, id, n)) == Some(after) && RestockHolds(warehouses, s, t, id, after)
  {
    var call := s.threads[t].call;
    ChecksAt(warehouses, s, t, id);
    after := Apply(warehouses, s, Step(t, id)).value;
    assert Own(t, id, 0) == [];
    OneMore(warehouses, s, t, id, 0, s, after);
    n := 1;
    if call.warehouse in warehouses {
      n, after := UpdateRuns(warehouses, s, t, id);
      RestockExactly(s.rows, call.product, call.warehouse, call.quantity, id);
    }
  }
}
