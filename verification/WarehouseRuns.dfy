/**
  Reservations and restocks in any interleaving, each SQL statement one step, any of them cut short
  between statements (inventory-service/src/reservations/reservations.service.ts,
  inventory-service/src/stock/stock.service.ts).
*/
module WarehouseRuns {
  import opened Wrappers
  import opened Bytes
  import opened Sums
  import opened Warehouse

  datatype Call =
    | Reserve(order: Option<Text>, items: seq<Item>)
    | Restock(product: Text, warehouse: Text, quantity: nat)

  datatype Pc =
    | ReadLevels                                  // reserve: the item after the answered ones
    | Drain(levels: seq<Level>, remaining: nat)   // one conditional update per remembered level
    | PlaceBackorder(reserved: nat)
    | CheckWarehouse                              // restock
    | Update
    | InsertRow
    | UpdateAgain                                 // after a unique violation
    | AppendEvent
    | Done
    | NotFound
    | Crashed

  /** `drawn` is what the current item took so far and `owed` an increase without its event: history only. */
  datatype Thread = Thread(call: Call, pc: Pc, lines: seq<Line>, drawn: nat, owed: nat)

  datatype State = State(rows: seq<Row>, backorders: seq<Backorder>, events: seq<RestockEvent>, threads: seq<Thread>)

  function NextItem(call: Call, answered: nat): Pc
    requires call.Reserve?
  {
    if answered < |call.items| then ReadLevels else Done
  }

  function InitialThread(call: Call): Thread {
    Thread(call, if call.Reserve? then NextItem(call, 0) else CheckWarehouse, [], 0, 0)
  }

  function Initial(rows: seq<Row>, calls: seq<Call>): State {
    State(rows, [], [], seq(|calls|, i requires 0 <= i < |calls| => InitialThread(calls[i])))
  }

  function Moved(s: State, t: nat, th: Thread): State
    requires t < |s.threads|
  {
    s.(threads := s.threads[t := th])
  }

  /** The current item's line joins the answer. */
  function Answered(s: State, t: nat, reserved: nat): State
    requires t < |s.threads| && s.threads[t].call.Reserve? && |s.threads[t].lines| < |s.threads[t].call.items|
    requires reserved <= s.threads[t].call.items[|s.threads[t].lines|].quantity
  {
    var th := s.threads[t];
    var (backorders, line) := Settle(s.backorders, th.call.order, th.call.items[|th.lines|], reserved, th.drawn);
    Moved(s, t, th.(pc := NextItem(th.call, |th.lines| + 1), lines := th.lines + [line], drawn := 0))
    .(backorders := backorders)
  }

  function NextReserve(s: State, t: nat): Option<State>
    requires t < |s.threads| && s.threads[t].call.Reserve?
  {
    var th := s.threads[t];
    if |th.lines| >= |th.call.items| then None else
    var item := th.call.items[|th.lines|];
    match th.pc
    case ReadLevels =>
      var levels := Listing(s.rows, item.product);
      if levels == [] then Some(Answered(s, t, item.quantity))
      else Some(Moved(s, t, th.(pc := Drain(levels, item.quantity))))
    case Drain(levels, remaining) =>
      if remaining > item.quantity then None
      else if levels != [] && remaining > 0 then
        var (rows, rest) := Attempt(s.rows, levels[0], remaining);
        Some(Moved(s, t, th.(pc := Drain(levels[1..], rest), drawn := th.drawn + (remaining - rest))).(rows := rows))
      else if remaining > 0 then Some(Moved(s, t, th.(pc := PlaceBackorder(item.quantity - remaining))))
      else Some(Answered(s, t, item.quantity))
    case PlaceBackorder(reserved) => if reserved > item.quantity then None else Some(Answered(s, t, reserved))
    case _ => None
  }

  /** A restock that made its increase owes the event. */
  function Raised(s: State, t: nat, rows: seq<Row>): State
    requires t < |s.threads| && s.threads[t].call.Restock?
  {
    var th := s.threads[t];
    Moved(s, t, th.(pc := AppendEvent, owed := th.call.quantity)).(rows := rows)
  }

  /** `id` is the key a row inserted by this step gets. */
  function NextRestock(warehouses: set<Text>, s: State, t: nat, id: nat): Option<State>
    requires t < |s.threads| && s.threads[t].call.Restock?
  {
    var th := s.threads[t];
    var product, warehouse, quantity := th.call.product, th.call.warehouse, th.call.quantity;
    match th.pc
    case CheckWarehouse => Some(Moved(s, t, th.(pc := if warehouse in warehouses then Update else NotFound)))
    case Update =>
      (match FindPair(s.rows, product, warehouse)
       case Some(i) => Some(Raised(s, t, s.rows[i := Added(s.rows[i], quantity)]))
       case None => Some(Moved(s, t, th.(pc := InsertRow))))
    case InsertRow =>
      if FindPair(s.rows, product, warehouse).Some? then Some(Moved(s, t, th.(pc := UpdateAgain)))
      else if FindId(s.rows, id).Some? then None
      else Some(Raised(s, t, s.rows + [Row(id, product, warehouse, quantity)]))
    case UpdateAgain =>
      // the second update's row count is not looked at
      (match FindPair(s.rows, product, warehouse)
       case Some(i) => Some(Raised(s, t, s.rows[i := Added(s.rows[i], quantity)]))
       case None => Some(Moved(s, t, th.(pc := AppendEvent))))
    case AppendEvent =>
      Some(Moved(s, t, th.(pc := Done, owed := 0)).(events := s.events + [RestockEvent(product, warehouse, quantity)]))
    case _ => None
  }

  datatype Event = Step(t: nat, id: nat) | Crash(t: nat)

  function Apply(warehouses: set<Text>, s: State, e: Event): Option<State> {
    if e.t >= |s.threads| then None
    else
      var th := s.threads[e.t];
      match e
      case Step(t, id) => if th.call.Reserve? then NextReserve(s, t) else NextRestock(warehouses, s, t, id)
      case Crash(t) => if th.pc.Done? || th.pc.NotFound? then None else Some(Moved(s, t, th.(pc := Crashed)))
  }

  function Run(warehouses: set<Text>, s: State, events: seq<Event>): Option<State> {
    if events == [] then Some(s)
    else
      var before :- Run(warehouses, s, events[..|events| - 1]);
      Apply(warehouses, before, events[|events| - 1])
  }

  // ---- what every step keeps ----------------------------------------------------------------

  ghost predicate ReserveOk(rows: seq<Row>, backorders: seq<Backorder>, th: Thread) {
    && th.call.Reserve? && th.owed == 0
    && |th.lines| <= |th.call.items|
    && (forall i :: 0 <= i < |th.lines| ==> LineAnswers(backorders, th.call.items[i], th.lines[i]))
    && (|th.lines| == |th.call.items| ==> th.drawn == 0)
    && (th.pc.Done? ==> |th.lines| == |th.call.items|)
    && !(th.pc.CheckWarehouse? || th.pc.Update? || th.pc.InsertRow? || th.pc.UpdateAgain? || th.pc.AppendEvent? || th.pc.NotFound?)
    && (th.pc.ReadLevels? || th.pc.Drain? || th.pc.PlaceBackorder? ==> |th.lines| < |th.call.items|)
    && (th.pc.ReadLevels? ==> th.drawn == 0)
    && (th.pc.Drain? ==>
          var item := th.call.items[|th.lines|];
          th.drawn + th.pc.remaining == item.quantity && Listed(rows, th.pc.levels, item.product))
    && (th.pc.PlaceBackorder? ==>
          var item := th.call.items[|th.lines|];
          th.drawn == th.pc.reserved < item.quantity)
  }

  /** What was requested is reserved or backordered, and what is reserved was drawn, or is of an untracked product. */
  ghost predicate LineAnswers(backorders: seq<Backorder>, item: Item, line: Line) {
    && line.product == item.product && line.requested == item.quantity
    && LineOk(backorders, line)
    && (line.drawn == line.reserved || (line.drawn == 0 && line.reserved == line.requested))
  }

  ghost predicate RestockOk(rows: seq<Row>, th: Thread) {
    && th.call.Restock? && th.lines == [] && th.drawn == 0
    && !(th.pc.ReadLevels? || th.pc.Drain? || th.pc.PlaceBackorder?)
    && (th.pc.UpdateAgain? ==> FindPair(rows, th.call.product, th.call.warehouse).Some?)
    && (th.pc.AppendEvent? ==> th.owed == th.call.quantity)
    && (!th.pc.AppendEvent? && !th.pc.Crashed? ==> th.owed == 0)
  }

  ghost predicate ThreadOk(rows: seq<Row>, backorders: seq<Backorder>, th: Thread) {
    if th.call.Reserve? then ReserveOk(rows, backorders, th) else RestockOk(rows, th)
  }

  ghost predicate Inv(s: State) {
    && TableOk(s.rows)
    && forall t :: 0 <= t < |s.threads| ==> ThreadOk(s.rows, s.backorders, s.threads[t])
  }

  // the sums

  function DrawnOn(product: Text): Line -> int { (line: Line) => if line.product == product then line.drawn else 0 }

  /** What the thread has taken of the product's stock. */
  function DrawnBy(product: Text): Thread -> int {
    (th: Thread) =>
      Sum(DrawnOn(product), th.lines)
      + (if th.call.Reserve? && |th.lines| < |th.call.items| && th.call.items[|th.lines|].product == product
         then th.drawn else 0)
  }

  function OwedBy(product: Text): Thread -> int {
    (th: Thread) => if th.call.Restock? && th.call.product == product then th.owed else 0
  }

  function Restocked(product: Text): RestockEvent -> int {
    (e: RestockEvent) => if e.product == product then e.quantity else 0
  }

  function ShortOn(product: Text): Line -> int {
    (line: Line) => if line.product == product then line.requested - line.reserved else 0
  }

  function ShortBy(product: Text): Thread -> int { (th: Thread) => Sum(ShortOn(product), th.lines) }

  function BackorderedOn(product: Text): Backorder -> int {
    (b: Backorder) => if b.product == product then b.quantity else 0
  }

  /** Stock and what was drawn, less what restocks added: logged in an event, or owed by a restock in flight. */
  function Balance(s: State, product: Text): int {
    Stock(s.rows, product) + Sum(DrawnBy(product), s.threads)
    - Sum(Restocked(product), s.events) - Sum(OwedBy(product), s.threads)
  }

  /** Open backorders less what the answered lines fell short. */
  function BackorderBalance(s: State, product: Text): int {
    Sum(BackorderedOn(product), s.backorders) - Sum(ShortBy(product), s.threads)
  }

  // ---- the invariant is kept ----------------------------------------------------------------

  /** Rows keep their key, product and warehouse; only quantities change, and rows are added. */
  ghost predicate Grown(rows: seq<Row>, after: seq<Row>) {
    |rows| <= |after| && forall i :: 0 <= i < |rows| ==> after[i] == rows[i].(quantity := after[i].quantity)
  }

  lemma PairStays(rows: seq<Row>, after: seq<Row>, product: Text, warehouse: Text)
    requires Grown(rows, after) && FindPair(rows, product, warehouse).Some?
    ensures FindPair(after, product, warehouse).Some?
  {
    var i := FindPair(rows, product, warehouse).value;
    assert after[i].product == product && after[i].warehouse == warehouse;
  }

  lemma ListedStays(rows: seq<Row>, after: seq<Row>, levels: seq<Level>, product: Text)
    requires Grown(rows, after) && Listed(rows, levels, product)
    ensures Listed(after, levels, product)
  {
    forall j | 0 <= j < |levels|
      ensures IsOf(after, levels[j].id, product)
    {
      assert IsOf(rows, levels[j].id, product);
      var i :| 0 <= i < |rows| && rows[i].id == levels[j].id && rows[i].product == product;
      assert after[i].id == levels[j].id && after[i].product == product;
    }
  }

  lemma ThreadStaysOk(rows: seq<Row>, after: seq<Row>, backorders: seq<Backorder>, more: seq<Backorder>, th: Thread)
    requires ThreadOk(rows, backorders, th) && Grown(rows, after) && backorders <= more
    ensures ThreadOk(after, more, th)
  {
    if th.call.Reserve? {
      forall i | 0 <= i < |th.lines|
        ensures LineAnswers(more, th.call.items[i], th.lines[i])
      {
        LineStaysOk(backorders, more, th.lines[i]);
      }
      if th.pc.Drain? { ListedStays(rows, after, th.pc.levels, th.call.items[|th.lines|].product); }
    } else if th.pc.UpdateAgain? {
      PairStays(rows, after, th.call.product, th.call.warehouse);
    }
  }

  /** A step that moves thread `t` keeps the invariant when the new thread and the new rows are in order. */
  lemma MoveKeepsInv(s: State, t: nat, th: Thread, after: State)
    requires Inv(s) && t < |s.threads| && after.threads == s.threads[t := th]
    requires TableOk(after.rows) && Grown(s.rows, after.rows) && s.backorders <= after.backorders
    requires ThreadOk(after.rows, after.backorders, th)
    ensures Inv(after)
  {
    forall o | 0 <= o < |after.threads|
      ensures ThreadOk(after.rows, after.backorders, after.threads[o])
    {
      if o != t { ThreadStaysOk(s.rows, after.rows, s.backorders, after.backorders, s.threads[o]); }
    }
  }

  lemma SettleAnswers(backorders: seq<Backorder>, order: Option<Text>, item: Item, reserved: nat, drawn: nat)
    requires reserved <= item.quantity
    requires drawn == reserved || (drawn == 0 && reserved == item.quantity)
    ensures var (after, line) := Settle(backorders, order, item, reserved, drawn);
            && backorders <= after && LineAnswers(after, item, line)
            && line.drawn == drawn && line.reserved == reserved
  {
  }

  lemma AnsweredKeepsInv(s: State, t: nat, reserved: nat)
    requires Inv(s) && t < |s.threads| && s.threads[t].call.Reserve? && |s.threads[t].lines| < |s.threads[t].call.items|
    requires var item := s.threads[t].call.items[|s.threads[t].lines|];
             reserved <= item.quantity
             && (s.threads[t].drawn == reserved || (s.threads[t].drawn == 0 && reserved == item.quantity))
    ensures Inv(Answered(s, t, reserved))
  {
    var th, after := s.threads[t], Answered(s, t, reserved);
    var item := th.call.items[|th.lines|];
    SettleAnswers(s.backorders, th.call.order, item, reserved, th.drawn);
    assert ThreadOk(s.rows, s.backorders, th);
    ThreadStaysOk(s.rows, s.rows, s.backorders, after.backorders, th);
    var moved := after.threads[t];
    forall i | 0 <= i < |moved.lines|
      ensures LineAnswers(after.backorders, moved.call.items[i], moved.lines[i])
    {
      if i < |th.lines| { assert moved.lines[i] == th.lines[i]; }
    }
    MoveKeepsInv(s, t, moved, after);
  }

  lemma ListingIsListed(rows: seq<Row>, product: Text)
    requires TableOk(rows)
    ensures Listed(rows, Listing(rows, product), product)
  {
    ListingIsStock(rows, product);
    var levels := Listing(rows, product);
    forall j | 0 <= j < |levels|
      ensures IsOf(rows, levels[j].id, product)
    {
      assert InTable(rows, levels[j], product);
    }
  }

  lemma DrainKeepsInv(s: State, t: nat)
    requires Inv(s) && t < |s.threads| && s.threads[t].pc.Drain?
    requires s.threads[t].pc.levels != [] && s.threads[t].pc.remaining > 0
    ensures s.threads[t].call.Reserve? && NextReserve(s, t).Some? && Inv(NextReserve(s, t).value)
  {
    var th := s.threads[t];
    assert ThreadOk(s.rows, s.backorders, th);
    var item, levels := th.call.items[|th.lines|], th.pc.levels;
    var after := NextReserve(s, t).value;
    assert IsOf(s.rows, levels[0].id, item.product);
    AttemptConserves(s.rows, levels[0], th.pc.remaining, item.product);
    ThreadStaysOk(s.rows, after.rows, s.backorders, s.backorders, th);
    assert forall j :: 0 <= j < |levels[1..]| ==> levels[1..][j] == levels[j + 1];
    MoveKeepsInv(s, t, after.threads[t], after);
  }

  lemma ReserveKeepsInv(s: State, t: nat)
    requires Inv(s) && t < |s.threads| && s.threads[t].call.Reserve? && NextReserve(s, t).Some?
    ensures Inv(NextReserve(s, t).value)
  {
    var th, after := s.threads[t], NextReserve(s, t).value;
    assert ThreadOk(s.rows, s.backorders, th);
    var item := th.call.items[|th.lines|];
    match th.pc {
      case ReadLevels =>
        if Listing(s.rows, item.product) == [] {
          AnsweredKeepsInv(s, t, item.quantity);
        } else {
          ListingIsListed(s.rows, item.product);
          MoveKeepsInv(s, t, after.threads[t], after);
        }
      case Drain(levels, remaining) =>
        if levels != [] && remaining > 0 { DrainKeepsInv(s, t); }
        else if remaining > 0 { MoveKeepsInv(s, t, after.threads[t], after); }
        else { AnsweredKeepsInv(s, t, item.quantity); }
      case PlaceBackorder(reserved) => AnsweredKeepsInv(s, t, reserved);
      case _ =>
    }
  }

  lemma RaisedKeepsInv(s: State, t: nat, rows: seq<Row>)
    requires Inv(s) && t < |s.threads| && s.threads[t].call.Restock?
    requires TableOk(rows) && Grown(s.rows, rows)
    ensures Inv(Raised(s, t, rows))
  {
    var after := Raised(s, t, rows);
    assert ThreadOk(s.rows, s.backorders, s.threads[t]);
    MoveKeepsInv(s, t, after.threads[t], after);
  }

  lemma RestockKeepsInv(warehouses: set<Text>, s: State, t: nat, id: nat)
    requires Inv(s) && t < |s.threads| && s.threads[t].call.Restock? && NextRestock(warehouses, s, t, id).Some?
    ensures Inv(NextRestock(warehouses, s, t, id).value)
  {
    var th, after := s.threads[t], NextRestock(warehouses, s, t, id).value;
    assert ThreadOk(s.rows, s.backorders, th);
    if after.rows != s.rows || (th.pc.Update? && after.threads[t].pc.AppendEvent?) {
      IncreaseKeepsTable(warehouses, s, t, id);
      RaisedKeepsInv(s, t, after.rows);
    } else if th.pc.UpdateAgain? {
      IncreaseKeepsTable(warehouses, s, t, id);
      RaisedKeepsInv(s, t, after.rows);
    } else {
      MoveKeepsInv(s, t, after.threads[t], after);
    }
  }

  /** Raising a restock's row adds its quantity to its product's stock, never loses it. */
  lemma IncreaseKeepsTable(warehouses: set<Text>, s: State, t: nat, id: nat)
    requires Inv(s) && t < |s.threads| && s.threads[t].call.Restock? && NextRestock(warehouses, s, t, id).Some?
    requires s.threads[t].pc.Update? || s.threads[t].pc.InsertRow? || s.threads[t].pc.UpdateAgain?
    requires NextRestock(warehouses, s, t, id).value.threads[t].pc.AppendEvent?
    ensures var after := NextRestock(warehouses, s, t, id).value; var call := s.threads[t].call;
            && after == Raised(s, t, after.rows)
            && TableOk(after.rows) && Grown(s.rows, after.rows)
            && forall p :: Stock(after.rows, p) == Stock(s.rows, p) + (if p == call.product then call.quantity else 0)
  {
    var call := s.threads[t].call;
    assert ThreadOk(s.rows, s.backorders, s.threads[t]);
    var key := if FindPair(s.rows, call.product, call.warehouse).Some? then Unused(s.rows) else id;
    RestockAdds(s.rows, call.product, call.warehouse, call.quantity, key);
  }

  /** A key no row has. */
  function Unused(rows: seq<Row>): (id: nat)
    ensures FindId(rows, id).None?
    ensures forall i :: 0 <= i < |rows| ==> rows[i].id < id
  {
    if rows == [] then 0
    else
      var id := Unused(rows[..|rows| - 1]);
      var last := rows[|rows| - 1].id;
      if last < id then id else last + 1
  }

  lemma ApplyKeepsInv(warehouses: set<Text>, s: State, e: Event)
    requires Inv(s) && Apply(warehouses, s, e).Some?
    ensures Inv(Apply(warehouses, s, e).value)
  {
    var after := Apply(warehouses, s, e).value;
    match e {
      case Step(t, id) =>
        if s.threads[t].call.Reserve? { ReserveKeepsInv(s, t); } else { RestockKeepsInv(warehouses, s, t, id); }
      case Crash(t) =>
        assert ThreadOk(s.rows, s.backorders, s.threads[t]);
        MoveKeepsInv(s, t, after.threads[t], after);
    }
  }

  // ---- nothing is created or lost -----------------------------------------------------------

  /** Only thread `t` moved: the balance is kept when what it newly drew or owes accounts for the change. */
  lemma MoveKeepsBalance(s: State, t: nat, th: Thread, after: State, p: Text)
    requires t < |s.threads| && after.threads == s.threads[t := th]
    requires Stock(after.rows, p) - Stock(s.rows, p) - (Sum(Restocked(p), after.events) - Sum(Restocked(p), s.events))
             == DrawnBy(p)(s.threads[t]) - DrawnBy(p)(th) + OwedBy(p)(th) - OwedBy(p)(s.threads[t])
    ensures Balance(after, p) == Balance(s, p)
  {
    SumUpdate(DrawnBy(p), s.threads, t, th);
    SumUpdate(OwedBy(p), s.threads, t, th);
  }

  lemma MoveKeepsBackorders(s: State, t: nat, th: Thread, after: State, p: Text)
    requires t < |s.threads| && after.threads == s.threads[t := th]
    requires Sum(BackorderedOn(p), after.backorders) - Sum(BackorderedOn(p), s.backorders)
             == ShortBy(p)(th) - ShortBy(p)(s.threads[t])
    ensures BackorderBalance(after, p) == BackorderBalance(s, p)
  {
    SumUpdate(ShortBy(p), s.threads, t, th);
  }

  lemma AnsweredBalances(s: State, t: nat, reserved: nat, p: Text)
    requires t < |s.threads| && s.threads[t].call.Reserve? && |s.threads[t].lines| < |s.threads[t].call.items|
    requires reserved <= s.threads[t].call.items[|s.threads[t].lines|].quantity
    ensures Balance(Answered(s, t, reserved), p) == Balance(s, p)
    ensures BackorderBalance(Answered(s, t, reserved), p) == BackorderBalance(s, p)
  {
    var th, after := s.threads[t], Answered(s, t, reserved);
    var item := th.call.items[|th.lines|];
    var (backorders, line) := Settle(s.backorders, th.call.order, item, reserved, th.drawn);
    SumPush(DrawnOn(p), th.lines, line);
    SumPush(ShortOn(p), th.lines, line);
    if reserved < item.quantity {
      SumPush(BackorderedOn(p), s.backorders, Backorder(item.product, th.call.order, item.quantity - reserved));
    }
    MoveKeepsBalance(s, t, after.threads[t], after, p);
    MoveKeepsBackorders(s, t, after.threads[t], after, p);
  }

  lemma DrainBalances(s: State, t: nat, p: Text)
    requires Inv(s) && t < |s.threads| && s.threads[t].pc.Drain?
    requires s.threads[t].pc.levels != [] && s.threads[t].pc.remaining > 0
    ensures s.threads[t].call.Reserve? && NextReserve(s, t).Some?
    ensures Balance(NextReserve(s, t).value, p) == Balance(s, p)
    ensures BackorderBalance(NextReserve(s, t).value, p) == BackorderBalance(s, p)
  {
    var th := s.threads[t];
    assert ThreadOk(s.rows, s.backorders, th);
    var after, item := NextReserve(s, t).value, th.call.items[|th.lines|];
    assert IsOf(s.rows, th.pc.levels[0].id, item.product);
    AttemptConserves(s.rows, th.pc.levels[0], th.pc.remaining, item.product);
    MoveKeepsBalance(s, t, after.threads[t], after, p);
    MoveKeepsBackorders(s, t, after.threads[t], after, p);
  }

  /** A step that changes no table and keeps its thread's history. */
  lemma QuietBalances(s: State, t: nat, pc: Pc, p: Text)
    requires t < |s.threads|
    ensures Balance(Moved(s, t, s.threads[t].(pc := pc)), p) == Balance(s, p)
    ensures BackorderBalance(Moved(s, t, s.threads[t].(pc := pc)), p) == BackorderBalance(s, p)
  {
    var after := Moved(s, t, s.threads[t].(pc := pc));
    MoveKeepsBalance(s, t, after.threads[t], after, p);
    MoveKeepsBackorders(s, t, after.threads[t], after, p);
  }

  lemma ReserveBalances(s: State, t: nat, p: Text)
    requires Inv(s) && t < |s.threads| && s.threads[t].call.Reserve? && NextReserve(s, t).Some?
    ensures Balance(NextReserve(s, t).value, p) == Balance(s, p)
    ensures BackorderBalance(NextReserve(s, t).value, p) == BackorderBalance(s, p)
  {
    var th := s.threads[t];
    var item := th.call.items[|th.lines|];
    match th.pc {
      case ReadLevels =>
        var levels := Listing(s.rows, item.product);
        if levels == [] { AnsweredBalances(s, t, item.quantity, p); }
        else { QuietBalances(s, t, Drain(levels, item.quantity), p); }
      case Drain(levels, remaining) =>
        if levels != [] && remaining > 0 { DrainBalances(s, t, p); }
        else if remaining > 0 { QuietBalances(s, t, PlaceBackorder(item.quantity - remaining), p); }
        else { AnsweredBalances(s, t, item.quantity, p); }
      case PlaceBackorder(reserved) => AnsweredBalances(s, t, reserved, p);
      case _ =>
    }
  }

  lemma RestockBalances(warehouses: set<Text>, s: State, t: nat, id: nat, p: Text)
    requires Inv(s) && t < |s.threads| && s.threads[t].call.Restock? && NextRestock(warehouses, s, t, id).Some?
    ensures Balance(NextRestock(warehouses, s, t, id).value, p) == Balance(s, p)
    ensures BackorderBalance(NextRestock(warehouses, s, t, id).value, p) == BackorderBalance(s, p)
  {
    var th, after := s.threads[t], NextRestock(warehouses, s, t, id).value;
    assert ThreadOk(s.rows, s.backorders, th);
    if th.pc.AppendEvent? {
      SumPush(Restocked(p), s.events, RestockEvent(th.call.product, th.call.warehouse, th.call.quantity));
      MoveKeepsBalance(s, t, after.threads[t], after, p);
      MoveKeepsBackorders(s, t, after.threads[t], after, p);
    } else if after.threads[t].pc.AppendEvent? {
      IncreaseKeepsTable(warehouses, s, t, id);
      MoveKeepsBalance(s, t, after.threads[t], after, p);
      MoveKeepsBackorders(s, t, after.threads[t], after, p);
    } else {
      QuietBalances(s, t, after.threads[t].pc, p);
    }
  }

  lemma ApplyBalances(warehouses: set<Text>, s: State, e: Event, p: Text)
    requires Inv(s) && Apply(warehouses, s, e).Some?
    ensures Balance(Apply(warehouses, s, e).value, p) == Balance(s, p)
    ensures BackorderBalance(Apply(warehouses, s, e).value, p) == BackorderBalance(s, p)
  {
    match e {
      case Step(t, id) =>
        if s.threads[t].call.Reserve? { ReserveBalances(s, t, p); } else { RestockBalances(warehouses, s, t, id, p); }
      case Crash(t) => QuietBalances(s, t, Crashed, p);
    }
  }

  lemma InitialOk(rows: seq<Row>, calls: seq<Call>)
    requires TableOk(rows)
    ensures Inv(Initial(rows, calls))
    ensures forall p :: Balance(Initial(rows, calls), p) == Stock(rows, p) && BackorderBalance(Initial(rows, calls), p) == 0
  {
    var s := Initial(rows, calls);
    forall t | 0 <= t < |s.threads|
      ensures ThreadOk(s.rows, s.backorders, s.threads[t])
    {
      assert s.threads[t] == InitialThread(calls[t]);
    }
    forall p
      ensures Balance(s, p) == Stock(rows, p) && BackorderBalance(s, p) == 0
    {
      SumZero(DrawnBy(p), s.threads);
      SumZero(OwedBy(p), s.threads);
      SumZero(ShortBy(p), s.threads);
    }
  }

  /**
    In every run: one row per product and warehouse and no negative quantity; every answered line is
    reserved or backordered in full; stock and what was drawn add up to the initial stock, the logged
    restocks and what restocks in flight still owe the log; and the backorders are the lines' shortfalls.
  */
  lemma {:induction false} EveryRunBalances(warehouses: set<Text>, rows: seq<Row>, calls: seq<Call>, events: seq<Event>, p: Text)
    requires TableOk(rows) && Run(warehouses, Initial(rows, calls), events).Some?
    ensures var s := Run(warehouses, Initial(rows, calls), events).value;
            && Inv(s)
            && Stock(s.rows, p) + Sum(DrawnBy(p), s.threads)
               == Stock(rows, p) + Sum(Restocked(p), s.events) + Sum(OwedBy(p), s.threads)
            && Sum(BackorderedOn(p), s.backorders) == Sum(ShortBy(p), s.threads)
  {
    InitialOk(rows, calls);
    if events != [] {
      var front, e := events[..|events| - 1], events[|events| - 1];
      EveryRunBalances(warehouses, rows, calls, front, p);
      var before := Run(warehouses, Initial(rows, calls), front).value;
      ApplyKeepsInv(warehouses, before, e);
      ApplyBalances(warehouses, before, e, p);
    }
  }

  /** Finished, with every request answered and every increase in the log. */
  ghost predicate Quiet(s: State) {
    forall t :: 0 <= t < |s.threads| ==> s.threads[t].pc.Done? || s.threads[t].pc.NotFound?
  }

  function ReservedOn(product: Text): Line -> int {
    (line: Line) => if line.product == product then line.reserved else 0
  }

  function ReservedBy(product: Text): Thread -> int { (th: Thread) => Sum(ReservedOn(product), th.lines) }

  /** Nothing answered for the product came from its having no row. */
  ghost predicate AllDrawn(s: State, product: Text) {
    forall t :: 0 <= t < |s.threads| ==> AllDrawnBy(s.threads[t].lines, product)
  }

  /** Once quiet, a tracked product's stock and what was reserved are its initial stock and the logged restocks. */
  lemma QuietRunsConserve(warehouses: set<Text>, rows: seq<Row>, calls: seq<Call>, events: seq<Event>, p: Text)
    requires TableOk(rows) && Run(warehouses, Initial(rows, calls), events).Some?
    requires Tracked(rows, p) && Quiet(Run(warehouses, Initial(rows, calls), events).value)
    ensures var s := Run(warehouses, Initial(rows, calls), events).value;
            Stock(s.rows, p) + Sum(ReservedBy(p), s.threads) == Stock(rows, p) + Sum(Restocked(p), s.events)
  {
    EveryRunBalances(warehouses, rows, calls, events, p);
    TrackedStaysDrawn(warehouses, rows, calls, events, p);
    var s := Run(warehouses, Initial(rows, calls), events).value;
    forall t | 0 <= t < |s.threads|
      ensures OwedBy(p)(s.threads[t]) == 0 && DrawnBy(p)(s.threads[t]) == ReservedBy(p)(s.threads[t])
    {
      assert ThreadOk(s.rows, s.backorders, s.threads[t]);
      assert AllDrawnBy(s.threads[t].lines, p);
      SumSame(DrawnOn(p), ReservedOn(p), s.threads[t].lines);
    }
    SumZero(OwedBy(p), s.threads);
    SumSame(DrawnBy(p), ReservedBy(p), s.threads);
  }

  /** A product with a row from the start is tracked throughout, so every line drew what it reserved. */
  lemma {:induction false} TrackedStaysDrawn(warehouses: set<Text>, rows: seq<Row>, calls: seq<Call>, events: seq<Event>, p: Text)
    requires TableOk(rows) && Run(warehouses, Initial(rows, calls), events).Some? && Tracked(rows, p)
    ensures var s := Run(warehouses, Initial(rows, calls), events).value; Tracked(s.rows, p) && AllDrawn(s, p)
  {
    if events != [] {
      var front, e := events[..|events| - 1], events[|events| - 1];
      TrackedStaysDrawn(warehouses, rows, calls, front, p);
      EveryRunBalances(warehouses, rows, calls, front, p);
      StepStaysDrawn(warehouses, Run(warehouses, Initial(rows, calls), front).value, e, p);
    }
  }

  lemma TrackedGrows(rows: seq<Row>, after: seq<Row>, p: Text)
    requires Tracked(rows, p) && Grown(rows, after)
    ensures Tracked(after, p)
  {
    var i :| 0 <= i < |rows| && rows[i].product == p;
    assert after[i].product == p;
  }

  lemma RowsGrow(warehouses: set<Text>, s: State, e: Event)
    requires Inv(s) && Apply(warehouses, s, e).Some?
    ensures Grown(s.rows, Apply(warehouses, s, e).value.rows)
  {
    var after, th := Apply(warehouses, s, e).value, s.threads[e.t];
    assert ThreadOk(s.rows, s.backorders, th);
    if e.Step? && th.call.Restock? {
      if after.rows != s.rows { IncreaseKeepsTable(warehouses, s, e.t, e.id); }
    } else if e.Step? && th.pc.Drain? && th.pc.levels != [] && th.pc.remaining > 0 {
      assert IsOf(s.rows, th.pc.levels[0].id, th.call.items[|th.lines|].product);
      AttemptConserves(s.rows, th.pc.levels[0], th.pc.remaining, th.call.items[|th.lines|].product);
    }
  }

  predicate AllDrawnBy(lines: seq<Line>, p: Text) {
    forall i :: 0 <= i < |lines| && lines[i].product == p ==> lines[i].drawn == lines[i].reserved
  }

  lemma AnsweredStaysDrawn(s: State, t: nat, reserved: nat, p: Text)
    requires t < |s.threads| && s.threads[t].call.Reserve? && |s.threads[t].lines| < |s.threads[t].call.items|
    requires reserved <= s.threads[t].call.items[|s.threads[t].lines|].quantity
    requires AllDrawnBy(s.threads[t].lines, p)
    requires s.threads[t].call.items[|s.threads[t].lines|].product == p ==> s.threads[t].drawn == reserved
    ensures AllDrawnBy(Answered(s, t, reserved).threads[t].lines, p)
  {
  }

  lemma ReserveStaysDrawn(s: State, t: nat, p: Text)
    requires Inv(s) && t < |s.threads| && s.threads[t].call.Reserve? && NextReserve(s, t).Some?
    requires Tracked(s.rows, p) && AllDrawnBy(s.threads[t].lines, p)
    ensures AllDrawnBy(NextReserve(s, t).value.threads[t].lines, p)
  {
    var th := s.threads[t];
    assert ThreadOk(s.rows, s.backorders, th);
    ListingIsStock(s.rows, p);
    var item := th.call.items[|th.lines|];
    match th.pc {
      case ReadLevels => if Listing(s.rows, item.product) == [] { AnsweredStaysDrawn(s, t, item.quantity, p); }
      case Drain(levels, remaining) => if remaining == 0 { AnsweredStaysDrawn(s, t, item.quantity, p); }
      case PlaceBackorder(reserved) => AnsweredStaysDrawn(s, t, reserved, p);
      case _ =>
    }
  }

  lemma OthersLines(warehouses: set<Text>, s: State, e: Event)
    requires Apply(warehouses, s, e).Some?
    ensures var after := Apply(warehouses, s, e).value;
            && |after.threads| == |s.threads|
            && (forall t :: 0 <= t < |s.threads| && t != e.t ==> after.threads[t] == s.threads[t])
            && (!e.Step? || s.threads[e.t].call.Restock? ==> after.threads[e.t].lines == s.threads[e.t].lines)
  {
  }

  lemma StepStaysDrawn(warehouses: set<Text>, s: State, e: Event, p: Text)
    requires Inv(s) && Apply(warehouses, s, e).Some? && Tracked(s.rows, p) && AllDrawn(s, p)
    ensures var after := Apply(warehouses, s, e).value; Tracked(after.rows, p) && AllDrawn(after, p)
  {
    var after := Apply(warehouses, s, e).value;
    RowsGrow(warehouses, s, e);
    TrackedGrows(s.rows, after.rows, p);
    OthersLines(warehouses, s, e);
    if e.Step? && s.threads[e.t].call.Reserve? { ReserveStaysDrawn(s, e.t, p); }
    assert AllDrawnBy(after.threads[e.t].lines, p);
  }

  // ---- a reservation left alone -------------------------------------------------------------

  /** `n` steps of thread `t` and of nothing else. */
  function Repeat(t: nat, n: nat): seq<Event> { seq(n, _ => Step(t, 0)) }

  lemma {:induction false} RepeatFirst(warehouses: set<Text>, s: State, t: nat, mid: State, n: nat)
    requires Apply(warehouses, s, Step(t, 0)) == Some(mid)
    ensures Run(warehouses, s, Repeat(t, n + 1)) == Run(warehouses, mid, Repeat(t, n))
  {
    assert Repeat(t, n + 1)[..n] == Repeat(t, n);
    if n == 0 {
      assert Run(warehouses, s, []) == Some(s);
    } else {
      assert Repeat(t, n)[..n - 1] == Repeat(t, n - 1);
      RepeatFirst(warehouses, s, t, mid, n - 1);
    }
  }

  /** The run leaves these rows and backorders, and thread `t` with these lines. */
  ghost predicate Leaves(run: Option<State>, t: nat, rows: seq<Row>, backorders: seq<Backorder>, lines: seq<Line>) {
    && run.Some? && t < |run.value.threads| && run.value.threads[t].lines == lines
    && run.value.rows == rows && run.value.backorders == backorders
  }

  ghost predicate LeavesAnswered(run: Option<State>, s: State, t: nat, rows: seq<Row>, drawn: nat, reserved: nat)
    requires t < |s.threads| && s.threads[t].call.Reserve? && |s.threads[t].lines| < |s.threads[t].call.items|
    requires reserved <= s.threads[t].call.items[|s.threads[t].lines|].quantity
  {
    var th := s.threads[t];
    var (backorders, line) := Settle(s.backorders, th.call.order, th.call.items[|th.lines|], reserved, drawn);
    Leaves(run, t, rows, backorders, th.lines + [line])
  }

  predicate Draining(s: State, t: nat) {
    && t < |s.threads| && s.threads[t].call.Reserve? && |s.threads[t].lines| < |s.threads[t].call.items|
    && s.threads[t].pc.Drain? && s.threads[t].pc.remaining <= s.threads[t].call.items[|s.threads[t].lines|].quantity
  }

  lemma AnsweredLeaves(s: State, t: nat, reserved: nat)
    requires t < |s.threads| && s.threads[t].call.Reserve? && |s.threads[t].lines| < |s.threads[t].call.items|
    requires reserved <= s.threads[t].call.items[|s.threads[t].lines|].quantity
    ensures LeavesAnswered(Some(Answered(s, t, reserved)), s, t, s.rows, s.threads[t].drawn, reserved)
  {
  }

  lemma RunNothing(warehouses: set<Text>, s: State, t: nat)
    ensures Run(warehouses, s, Repeat(t, 0)) == Some(s)
  {
  }

  lemma DrainsEmpty(warehouses: set<Text>, s: State, t: nat) returns (after: State)
    requires Draining(s, t) && s.threads[t].pc.remaining == 0
    ensures Run(warehouses, s, Repeat(t, 1)) == Some(after)
    ensures LeavesAnswered(Some(after), s, t, s.rows, s.threads[t].drawn, s.threads[t].call.items[|s.threads[t].lines|].quantity)
  {
    var quantity := s.threads[t].call.items[|s.threads[t].lines|].quantity;
    after := Answered(s, t, quantity);
    RepeatFirst(warehouses, s, t, after, 0);
    RunNothing(warehouses, after, t);
    AnsweredLeaves(s, t, quantity);
  }

  lemma DrainsShort(warehouses: set<Text>, s: State, t: nat) returns (after: State)
    requires Draining(s, t) && s.threads[t].pc.remaining > 0 && s.threads[t].pc.levels == []
    ensures Run(warehouses, s, Repeat(t, 2)) == Some(after)
    ensures LeavesAnswered(Some(after), s, t, s.rows, s.threads[t].drawn,
                           s.threads[t].call.items[|s.threads[t].lines|].quantity - s.threads[t].pc.remaining)
    ensures after.threads[t].pc == NextItem(s.threads[t].call, |s.threads[t].lines| + 1)
  {
    var reserved := s.threads[t].call.items[|s.threads[t].lines|].quantity - s.threads[t].pc.remaining;
    var mid := Moved(s, t, s.threads[t].(pc := PlaceBackorder(reserved)));
    after := Answered(mid, t, reserved);
    RepeatFirst(warehouses, s, t, mid, 1);
    RepeatFirst(warehouses, mid, t, after, 0);
    RunNothing(warehouses, after, t);
    AnsweredLeaves(mid, t, reserved);
  }

  function Attempted(s: State, t: nat): State
    requires Draining(s, t) && s.threads[t].pc.levels != []
  {
    var th := s.threads[t];
    var (rows, rest) := Attempt(s.rows, th.pc.levels[0], th.pc.remaining);
    Moved(s, t, th.(pc := Drain(th.pc.levels[1..], rest), drawn := th.drawn + (th.pc.remaining - rest))).(rows := rows)
  }

  lemma AttemptedIsNext(warehouses: set<Text>, s: State, t: nat)
    requires Draining(s, t) && s.threads[t].pc.remaining > 0 && s.threads[t].pc.levels != []
    ensures Apply(warehouses, s, Step(t, 0)) == Some(Attempted(s, t)) && Draining(Attempted(s, t), t)
  {
  }

  lemma AttemptedDrains(s: State, t: nat)
    requires Draining(s, t) && s.threads[t].pc.levels != []
    ensures var th, next := s.threads[t], Attempted(s, t).threads[t];
            && next.pc.Drain? && next.pc.levels == th.pc.levels[1..] && next.pc.remaining <= th.pc.remaining
            && forall rows, rest ::
                 Drains(Attempted(s, t).rows, next, rows, rest) ==> Drains(s.rows, th, rows, rest)
  {
  }

  predicate Drains(from: seq<Row>, th: Thread, rows: seq<Row>, rest: nat)
    requires th.pc.Drain?
  {
    DrainAll(from, th.pc.levels, th.pc.remaining) == (rows, rest)
  }

  lemma AttemptedLeaves(after: State, s: State, t: nat, rows: seq<Row>, drawn: nat, reserved: nat)
    requires Draining(s, t) && s.threads[t].pc.levels != []
    requires reserved <= s.threads[t].call.items[|s.threads[t].lines|].quantity
    requires LeavesAnswered(Some(after), Attempted(s, t), t, rows, drawn, reserved)
    ensures LeavesAnswered(Some(after), s, t, rows, drawn, reserved)
  {
  }

  /** The thread has answered, leaving these rows and `rest` of the item unreserved. */
  ghost predicate DrainsTo(after: State, s: State, t: nat, rows: seq<Row>, rest: nat)
    requires Draining(s, t) && rest <= s.threads[t].pc.remaining
  {
    var th := s.threads[t];
    LeavesAnswered(Some(after), s, t, rows, th.drawn + (th.pc.remaining - rest), th.call.items[|th.lines|].quantity - rest)
  }

  lemma DrainsOneMore(after: State, s: State, t: nat, rows: seq<Row>, rest: nat)
    requires Draining(s, t) && s.threads[t].pc.levels != []
    requires Draining(Attempted(s, t), t) && rest <= Attempted(s, t).threads[t].pc.remaining
    requires DrainsTo(after, Attempted(s, t), t, rows, rest)
    ensures rest <= s.threads[t].pc.remaining && DrainsTo(after, s, t, rows, rest)
  {
    var th := Attempted(s, t).threads[t];
    AttemptedLeaves(after, s, t, rows, th.drawn + (th.pc.remaining - rest), th.call.items[|th.lines|].quantity - rest);
  }

  /** `n` more steps of its own bring the thread to its line, with what the sequential loop leaves. */
  ghost predicate Ends(warehouses: set<Text>, s: State, t: nat, n: nat, after: State, rows: seq<Row>, rest: nat) {
    && Draining(s, t) && rest <= s.threads[t].pc.remaining
    && Run(warehouses, s, Repeat(t, n)) == Some(after)
    && Drains(s.rows, s.threads[t], rows, rest)
    && DrainsTo(after, s, t, rows, rest)
  }

  lemma EndsEmpty(warehouses: set<Text>, s: State, t: nat) returns (after: State)
    requires Draining(s, t) && s.threads[t].pc.remaining == 0
    ensures Ends(warehouses, s, t, 1, after, s.rows, 0)
  {
    DrainNothing(s.rows, s.threads[t].pc.levels);
    after := DrainsEmpty(warehouses, s, t);
  }

  lemma EndsShort(warehouses: set<Text>, s: State, t: nat) returns (after: State)
    requires Draining(s, t) && s.threads[t].pc.remaining > 0 && s.threads[t].pc.levels == []
    ensures Ends(warehouses, s, t, 2, after, s.rows, s.threads[t].pc.remaining)
  {
    after := DrainsShort(warehouses, s, t);
  }

  lemma AttemptedIsShorter(s: State, t: nat)
    requires Draining(s, t) && s.threads[t].pc.levels != []
    ensures Draining(Attempted(s, t), t)
    ensures |Attempted(s, t).threads[t].pc.levels| < |s.threads[t].pc.levels|
  {
  }

  lemma EndsOneMore(warehouses: set<Text>, s: State, t: nat, n: nat, after: State, rows: seq<Row>, rest: nat)
    requires Draining(s, t) && s.threads[t].pc.remaining > 0 && s.threads[t].pc.levels != []
    requires Ends(warehouses, Attempted(s, t), t, n, after, rows, rest)
    ensures Ends(warehouses, s, t, n + 1, after, rows, rest)
  {
    AttemptedIsNext(warehouses, s, t);
    AttemptedDrains(s, t);
    RepeatFirst(warehouses, s, t, Attempted(s, t), n);
    DrainsOneMore(after, s, t, rows, rest);
  }

  /** Undisturbed, the update-by-update loop ends as the sequential one. */
  lemma {:induction false} DrainRuns(warehouses: set<Text>, s: State, t: nat)
    returns (n: nat, after: State, rows: seq<Row>, rest: nat)
    requires Draining(s, t)
    ensures Ends(warehouses, s, t, n, after, rows, rest)
    decreases |s.threads[t].pc.levels|
  {
    if s.threads[t].pc.remaining == 0 {
      n, rows, rest := 1, s.rows, 0;
      after := EndsEmpty(warehouses, s, t);
    } else if s.threads[t].pc.levels == [] {
      n, rows, rest := 2, s.rows, s.threads[t].pc.remaining;
      after := EndsShort(warehouses, s, t);
    } else {
      AttemptedIsShorter(s, t);
      n, after, rows, rest := DrainRuns(warehouses, Attempted(s, t), t);
      EndsOneMore(warehouses, s, t, n, after, rows, rest);
      n := n + 1;
    }
  }

  lemma DrainedIsAlone(after: State, s: State, t: nat, levels: seq<Level>, rows: seq<Row>, rest: nat)
    requires t < |s.threads| && s.threads[t].call.Reserve? && |s.threads[t].lines| < |s.threads[t].call.items|
    requires s.threads[t].drawn == 0
    requires var item := s.threads[t].call.items[|s.threads[t].lines|];
             && levels == Listing(s.rows, item.product) != [] && DrainAll(s.rows, levels, item.quantity) == (rows, rest)
             && rest <= item.quantity
             && DrainsTo(after, Moved(s, t, s.threads[t].(pc := Drain(levels, item.quantity))), t, rows, rest)
    ensures var th := s.threads[t];
            var (rows, backorders, line) := ReserveItem(s.rows, s.backorders, th.call.order, th.call.items[|th.lines|]);
            Leaves(Some(after), t, rows, backorders, th.lines + [line])
  {
  }

  /** Undisturbed between reading the levels and its line, an item's reservation is the sequential one. */
  lemma UndisturbedIsAlone(warehouses: set<Text>, s: State, t: nat) returns (n: nat, after: State)
    requires Inv(s) && t < |s.threads| && s.threads[t].pc.ReadLevels?
    ensures s.threads[t].call.Reserve? && |s.threads[t].lines| < |s.threads[t].call.items|
    ensures Run(warehouses, s, Repeat(t, n)) == Some(after)
    ensures var th := s.threads[t];
            var (rows, backorders, line) := ReserveItem(s.rows, s.backorders, th.call.order, th.call.items[|th.lines|]);
            Leaves(Some(after), t, rows, backorders, th.lines + [line])
  {
    var th := s.threads[t];
    assert ThreadOk(s.rows, s.backorders, th);
    var item := th.call.items[|th.lines|];
    var levels := Listing(s.rows, item.product);
    if levels == [] {
      n, after := 1, Answered(s, t, item.quantity);
      RepeatFirst(warehouses, s, t, after, 0);
      RunNothing(warehouses, after, t);
      AnsweredLeaves(s, t, item.quantity);
    } else {
      var mid := Moved(s, t, th.(pc := Drain(levels, item.quantity)));
      var rows, rest;
      n, after, rows, rest := DrainRuns(warehouses, mid, t);
      RepeatFirst(warehouses, s, t, mid, n);
      n := n + 1;
      DrainedIsAlone(after, s, t, levels, rows, rest);
    }
  }

  // ---- a race -------------------------------------------------------------------------------

  lemma RunPush(warehouses: set<Text>, s: State, events: seq<Event>, mid: State, e: Event)
    requires Run(warehouses, s, events) == Some(mid)
    ensures Run(warehouses, s, events + [e]) == Apply(warehouses, mid, e)
  {
    assert (events + [e])[..|events|] == events;
  }

  lemma OneLevel(row: Row)
    ensures Listing([row], row.product) == [Level(row.id, row.quantity)]
  {
    assert [row][..0] == [];
    assert Levels([row], row.product) == [] + [Level(row.id, row.quantity)];
  }

  function Racing(product: Text, warehouse: Text): State {
    Initial([Row(0, product, warehouse, 3)], [Reserve(None, [Item(product, 3)]), Reserve(None, [Item(product, 1)])])
  }

  /** Both reservations have read the row as 3, and the smaller one has drawn it down. */
  lemma BothRead(product: Text, warehouse: Text) returns (events: seq<Event>, after: State)
    ensures Run({}, Racing(product, warehouse), events) == Some(after)
    ensures after.rows == [Row(0, product, warehouse, 2)] && after.backorders == [] && |after.threads| == 2
    ensures after.threads[0] == Thread(Reserve(None, [Item(product, 3)]), Drain([Level(0, 3)], 3), [], 0, 0)
  {
    var row, levels := Row(0, product, warehouse, 3), [Level(0, 3)];
    var a, b := Reserve(None, [Item(product, 3)]), Reserve(None, [Item(product, 1)]);
    var s0 := Racing(product, warehouse);
    OneLevel(row);
    assert s0.threads == [InitialThread(a), InitialThread(b)];
    var s1 := Moved(s0, 0, InitialThread(a).(pc := Drain(levels, 3)));
    RunPush({}, s0, [], s0, Step(0, 0));
    var s2 := Moved(s1, 1, InitialThread(b).(pc := Drain(levels, 1)));
    RunPush({}, s0, [] + [Step(0, 0)], s1, Step(1, 0));
    AttemptedIsNext({}, s2, 1);
    after := Attempted(s2, 1);
    assert after.rows == [Row(0, product, warehouse, 2)];
    RunPush({}, s0, [] + [Step(0, 0)] + [Step(1, 0)], s2, Step(1, 0));
    events := [] + [Step(0, 0)] + [Step(1, 0)] + [Step(1, 0)];
  }

  /** The larger one's update misses. */
  lemma UpdateMisses(product: Text, warehouse: Text, s: State)
    requires s.rows == [Row(0, product, warehouse, 2)] && |s.threads| == 2
    requires s.threads[0] == Thread(Reserve(None, [Item(product, 3)]), Drain([Level(0, 3)], 3), [], 0, 0)
    ensures Draining(s, 0) && Apply({}, s, Step(0, 0)) == Some(Attempted(s, 0))
    ensures Attempted(s, 0).rows == s.rows && Attempted(s, 0).backorders == s.backorders
    ensures Attempted(s, 0).threads[0] == s.threads[0].(pc := Drain([], 3)) && |Attempted(s, 0).threads| == 2
  {
    AttemptedIsNext({}, s, 0);
    assert Attempt(s.rows, Level(0, 3), 3) == (s.rows, 3);
    assert [Level(0, 3)][1..] == [];
  }

  /**
    A reservation that races another can be answered with a backorder while its product is still on
    hand: the row it read as 3 has been drawn down to 2, so its update of 3 misses and is not retried.
  */
  lemma ShortDespiteStock(product: Text, warehouse: Text) returns (events: seq<Event>)
    ensures var run := Run({}, Racing(product, warehouse), events);
            && Leaves(run, 0, [Row(0, product, warehouse, 2)], [Backorder(product, None, 3)],
                      [Line(product, 3, 0, Some(0), 0)])
            && run.value.threads[0].pc == Done
  {
    var first, s3 := BothRead(product, warehouse);
    UpdateMisses(product, warehouse, s3);
    var s0, s4 := Racing(product, warehouse), Attempted(s3, 0);
    RunPush({}, s0, first, s3, Step(0, 0));
    events := first + [Step(0, 0)];
    var after := MissedAnswers(product, s4);
    RunTwoMore(s0, events, s4);
    events := events + [Step(0, 0)] + [Step(0, 0)];
  }

  lemma MissedAnswers(product: Text, s: State) returns (after: State)
    requires s.backorders == [] && |s.threads| > 0
    requires s.threads[0] == Thread(Reserve(None, [Item(product, 3)]), Drain([], 3), [], 0, 0)
    ensures Run({}, s, Repeat(0, 2)) == Some(after) && after.threads != [] && after.threads[0].pc == Done
    ensures Leaves(Some(after), 0, s.rows, [Backorder(product, None, 3)], [Line(product, 3, 0, Some(0), 0)])
  {
    after := DrainsShort({}, s, 0);
  }

  lemma RunTwoMore(s: State, events: seq<Event>, mid: State)
    requires Run({}, s, events) == Some(mid)
    requires Run({}, mid, Repeat(0, 2)).Some?
    ensures Run({}, s, events + [Step(0, 0)] + [Step(0, 0)]) == Run({}, mid, Repeat(0, 2))
  {
    assert Repeat(0, 2) == [Step(0, 0)] + [Step(0, 0)];
    RunPush({}, mid, [], mid, Step(0, 0));
    assert [] + [Step(0, 0)] == [Step(0, 0)];
    var one := Apply({}, mid, Step(0, 0));
    assert Repeat(0, 2)[..1] == [Step(0, 0)];
    RunPush({}, mid, [Step(0, 0)], one.value, Step(0, 0));
    RunPush({}, s, events, mid, Step(0, 0));
    RunPush({}, s, events + [Step(0, 0)], one.value, Step(0, 0));
  }
}
