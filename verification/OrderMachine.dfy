/**
  Order placement under concurrency: any number of requests, each SQL statement one step, in any
  interleaving, with spontaneous aborts (apiV2/src/orders/orders.service.ts, cart/cart.service.ts).

  The tables hold committed rows. What an open transaction has written is its own until it commits:
  the first `pos` of its items are decremented, and `redeemed` says its coupon is incremented. A
  conditional UPDATE first looks at the committed row (or its own version of it): a row that fails the
  condition affects nothing, at once. One that meets it is waited for while another open transaction
  holds it, whatever becomes of its condition meanwhile, which is looked at again when the row is free.
  The INSERT into the unique key index waits for another open transaction that has inserted the key.
*/
module OrderMachine {
  import opened Wrappers
  import opened Bytes
  import opened Orders

  /** POST /orders carries its items; POST /cart/checkout takes them from the cart. */
  datatype Call =
    | Create(request: Request)
    | Checkout(user: Text, key: Option<Text>, coupon: Option<Text>, now: int)

  datatype Pc =
    | FirstLookup                      // checkout: is there an order with this key already?
    | ReadCart
    | Lookup                           // create: the same question, comparing items
    | Begin                            // take a pooled connection and open the transaction
    | ReadProduct | TakeStock
    | AwaitStock                       // the decrement's row qualified, and another transaction holds it
    | ReadCoupon | RedeemCoupon
    | AwaitCoupon
    | ReadMembership
    | InsertOrder
    | Commit
    | Rollback(error: Error)
    | LookupAgain(error: Error)        // after a unique violation
    | ClearCart(order: nat)
    | Done(response: Response)

  datatype Thread = Thread(pc: Pc, items: seq<Item>, pos: nat, redeemed: bool)

  /** `secondConnection` reads the membership through the pool, as the service once did. */
  datatype Config = Config(memberships: Memberships, calls: seq<Call>, pool: nat, secondConnection: bool)

  datatype Entry = Entry(thread: nat, request: Request)

  /** `log` lists the committed requests in commit order and `clears` who cleared a cart: history only. */
  datatype State = State(db: Database, carts: map<Text, seq<Item>>, threads: seq<Thread>, log: seq<Entry>,
                         clears: seq<nat>)

  // ---- requests -----------------------------------------------------------------------------

  function UserOf(call: Call): Text { match call case Create(r) => r.user case Checkout(u, _, _, _) => u }
  function KeyOf(call: Call): Option<Text> { match call case Create(r) => r.key case Checkout(_, k, _, _) => k }
  function CouponOf(call: Call): Option<Text> { match call case Create(r) => r.coupon case Checkout(_, _, c, _) => c }
  function NowOf(call: Call): int { match call case Create(r) => r.now case Checkout(_, _, _, n) => n }

  function RequestOf(call: Call, items: seq<Item>): Request {
    Request(UserOf(call), items, KeyOf(call), CouponOf(call), NowOf(call))
  }

  /** `create` begins with its own lookup when it has a key. */
  function EnterCreate(call: Call): Pc { if Truthy(KeyOf(call)) then Lookup else Begin }

  function InitialThread(call: Call): Thread {
    match call
    case Create(r) => Thread(EnterCreate(call), r.items, 0, false)
    case Checkout(_, _, _, _) => Thread(if Truthy(KeyOf(call)) then FirstLookup else ReadCart, [], 0, false)
  }

  function Initial(c: Config, db: Database, carts: map<Text, seq<Item>>): State {
    State(db, carts, seq(|c.calls|, i requires 0 <= i < |c.calls| => InitialThread(c.calls[i])), [], [])
  }

  // ---- rows and connections -----------------------------------------------------------------

  /** The thread has an open transaction, and with it a pooled connection. */
  predicate IsOpen(th: Thread) {
    th.pc.ReadProduct? || th.pc.TakeStock? || th.pc.AwaitStock?
    || th.pc.ReadCoupon? || th.pc.RedeemCoupon? || th.pc.AwaitCoupon?
    || th.pc.ReadMembership? || th.pc.InsertOrder? || th.pc.Commit? || th.pc.Rollback?
  }

  function OpenCount(threads: seq<Thread>): nat {
    if threads == [] then 0
    else OpenCount(threads[..|threads| - 1]) + (if IsOpen(threads[|threads| - 1]) then 1 else 0)
  }

  predicate FreeConnection(c: Config, s: State) { OpenCount(s.threads) < c.pool }

  predicate HoldsProduct(th: Thread, p: Text) {
    IsOpen(th) && exists i :: 0 <= i < th.pos && i < |th.items| && th.items[i].product == p
  }

  predicate HoldsCoupon(call: Call, th: Thread, code: Text) {
    IsOpen(th) && th.redeemed && CouponOf(call) == Some(code)
  }

  predicate HoldsKey(call: Call, th: Thread, key: Text) { th.pc.Commit? && KeyOf(call) == Some(key) }

  predicate WellFormed(c: Config, s: State) { |s.threads| == |c.calls| }

  predicate ProductBusy(c: Config, s: State, t: nat, p: Text)
    requires WellFormed(c, s)
  {
    exists o :: 0 <= o < |s.threads| && o != t && HoldsProduct(s.threads[o], p)
  }

  predicate CouponBusy(c: Config, s: State, t: nat, code: Text)
    requires WellFormed(c, s)
  {
    exists o :: 0 <= o < |s.threads| && o != t && HoldsCoupon(c.calls[o], s.threads[o], code)
  }

  predicate KeyBusy(c: Config, s: State, t: nat, key: Text)
    requires WellFormed(c, s)
  {
    exists o :: 0 <= o < |s.threads| && o != t && HoldsKey(c.calls[o], s.threads[o], key)
  }

  // ---- one statement ------------------------------------------------------------------------

  function AfterLastItem(call: Call): Pc { if Truthy(CouponOf(call)) then ReadCoupon else ReadMembership }

  function AfterItem(call: Call, items: seq<Item>, pos: nat): Pc {
    if pos < |items| then ReadProduct else AfterLastItem(call)
  }

  /** The price lookup of items that were all found. */
  function SubtotalOf(db: Database, items: seq<Item>): nat {
    if ItemsFound(db.products, items) then Subtotal(db.products, items) else 0
  }

  function Moved(s: State, t: nat, th: Thread): State
    requires t < |s.threads|
  {
    s.(threads := s.threads[t := th])
  }

  function Resolve(s: State, t: nat, found: Option<Response>, otherwise: Pc): State
    requires t < |s.threads|
  {
    Moved(s, t, s.threads[t].(pc := match found case Some(r) => Done(r) case None => otherwise))
  }

  /** The stock an UPDATE of the thread's next item sees: the committed row and its own writes. */
  function SeenStock(db: Database, th: Thread): int
    requires th.pos < |th.items| && th.items[th.pos].product in db.products
  {
    var p := th.items[th.pos].product;
    db.products[p].stock - Demand(th.items[..th.pos], p)
  }

  predicate StockSuffices(db: Database, th: Thread)
    requires th.pos < |th.items| && th.items[th.pos].product in db.products
  {
    SeenStock(db, th) >= th.items[th.pos].quantity
  }

  predicate UsesLeft(coupon: Coupon) { coupon.usedCount < coupon.usageLimit }

  /** The conditional decrement of a row nobody else holds, or of one that fails its condition. */
  function Decrement(db: Database, call: Call, th: Thread): Thread
    requires th.pos < |th.items| && th.items[th.pos].product in db.products
  {
    if StockSuffices(db, th) then th.(pos := th.pos + 1, pc := AfterItem(call, th.items, th.pos + 1))
    else th.(pc := Rollback(InsufficientStock(th.items[th.pos].product)))
  }

  function Increment(coupon: Coupon, th: Thread): Thread {
    if UsesLeft(coupon) then th.(redeemed := true, pc := ReadMembership) else th.(pc := Rollback(CouponExhausted))
  }

  /** The next step of thread `t`, or None when it is finished or has to wait. */
  function Next(c: Config, s: State, t: nat): Option<State>
    requires WellFormed(c, s) && t < |s.threads|
  {
    var call, th := c.calls[t], s.threads[t];
    var key := if Truthy(KeyOf(call)) then KeyOf(call).value else [];
    match th.pc
    case FirstLookup =>
      if !FreeConnection(c, s) then None
      else Some(Resolve(s, t, FindExisting(s.db.orders, key, UserOf(call), None), ReadCart))
    case ReadCart =>
      if !FreeConnection(c, s) then None
      else
        var items := if UserOf(call) in s.carts then s.carts[UserOf(call)] else [];
        Some(Moved(s, t, th.(items := items, pc := if items == [] then Done(EmptyCart) else EnterCreate(call))))
    case Lookup =>
      if !FreeConnection(c, s) then None
      else Some(Resolve(s, t, FindExisting(s.db.orders, key, UserOf(call), Some(th.items)), Begin))
    case Begin =>
      if !FreeConnection(c, s) then None
      else Some(Moved(s, t, th.(pc := AfterItem(call, th.items, 0), pos := 0, redeemed := false)))
    case ReadProduct =>
      if th.pos >= |th.items| then None else
      var p := th.items[th.pos].product;
      Some(Moved(s, t, th.(pc := if p in s.db.products then TakeStock else Rollback(ProductNotFound(p)))))
    case TakeStock =>
      if th.pos >= |th.items| || th.items[th.pos].product !in s.db.products then None
      else if StockSuffices(s.db, th) && ProductBusy(c, s, t, th.items[th.pos].product)
      then Some(Moved(s, t, th.(pc := AwaitStock)))
      else Some(Moved(s, t, Decrement(s.db, call, th)))
    case AwaitStock =>
      if th.pos >= |th.items| || th.items[th.pos].product !in s.db.products then None
      else if ProductBusy(c, s, t, th.items[th.pos].product) then None
      else Some(Moved(s, t, Decrement(s.db, call, th)))
    case ReadCoupon =>
      if CouponOf(call).None? then None else
      var org := OrgOf(c.memberships, UserOf(call));
      (match CheckCoupon(s.db.coupons, org, CouponOf(call).value, NowOf(call), SubtotalOf(s.db, th.items))
       case Ok(_) => Some(Moved(s, t, th.(pc := RedeemCoupon)))
       case Err(error) => Some(Moved(s, t, th.(pc := Rollback(error)))))
    case RedeemCoupon =>
      if CouponOf(call).None? || CouponOf(call).value !in s.db.coupons then None
      else if UsesLeft(s.db.coupons[CouponOf(call).value]) && CouponBusy(c, s, t, CouponOf(call).value)
      then Some(Moved(s, t, th.(pc := AwaitCoupon)))
      else Some(Moved(s, t, Increment(s.db.coupons[CouponOf(call).value], th)))
    case AwaitCoupon =>
      if CouponOf(call).None? || CouponOf(call).value !in s.db.coupons then None
      else if CouponBusy(c, s, t, CouponOf(call).value) then None
      else Some(Moved(s, t, Increment(s.db.coupons[CouponOf(call).value], th)))
    case ReadMembership =>
      if c.secondConnection && !FreeConnection(c, s) then None
      else Some(Moved(s, t, th.(pc := InsertOrder)))
    case InsertOrder =>
      if KeyOf(call).Some? && KeyBusy(c, s, t, KeyOf(call).value) then None
      else if KeyOf(call).Some? && HasKey(s.db.orders, KeyOf(call).value)
      then Some(Moved(s, t, th.(pc := Rollback(KeyTaken))))
      else Some(Moved(s, t, th.(pc := Commit)))
    case Commit =>
      var order := |s.db.orders|;
      var after := th.(pc := if call.Checkout? then ClearCart(order) else Done(Created(order)));
      Some(Moved(s, t, after).(db := Committed(c, s.db, call, th), 
                                  log := s.log + [Entry(t, RequestOf(call, th.items))]))
    case Rollback(error) =>
      var again := error.KeyTaken? && Truthy(KeyOf(call));
      Some(Moved(s, t, th.(pos := 0, redeemed := false,
                           pc := if again then LookupAgain(error) else Done(Failed(error)))))
    case LookupAgain(error) =>
      if !FreeConnection(c, s) then None
      else Some(Resolve(s, t, FindExisting(s.db.orders, key, UserOf(call), Some(th.items)), Done(Failed(error))))
    case ClearCart(order) =>
      if !FreeConnection(c, s) then None
      else Some(Moved(s, t, th.(pc := Done(Created(order))))
                .(carts := s.carts[UserOf(call) := []], clears := s.clears + [t]))
    case Done(_) => None
  }

  /** The thread's writes made visible: stock, the coupon's count and the new order. */
  function Committed(c: Config, db: Database, call: Call, th: Thread): Database {
    var org := OrgOf(c.memberships, UserOf(call));
    var subtotal := SubtotalOf(db, th.items);
    var products := map p | p in db.products :: Decremented(db.products[p], Demand(th.items[..Min(th.pos, |th.items|)], p));
    var counted := if th.redeemed && CouponOf(call).Some? && CouponOf(call).value in db.coupons
                   then var code := CouponOf(call).value;
                        db.coupons[code := db.coupons[code].(usedCount := db.coupons[code].usedCount + 1)]
                   else db.coupons;
    var discount := if th.redeemed && CouponOf(call).Some? && CouponOf(call).value in db.coupons
                    then Some(Discount(db.coupons[CouponOf(call).value], subtotal)) else None;
    var prices := seq(|th.items|, i requires 0 <= i < |th.items| =>
                        if th.items[i].product in db.products then db.products[th.items[i].product].price else 0);
    Database(products, counted,
             db.orders + [Order(UserOf(call), th.items, prices, KeyOf(call), CouponOf(call), discount, org)])
  }

  function Min(a: nat, b: nat): nat { if a < b then a else b }

  // ---- runs ---------------------------------------------------------------------------------

  /** A request steps, an open transaction is aborted by the database, or a shopper edits a cart. */
  datatype Event = Step(t: nat) | Abort(t: nat) | EditCart(user: Text, items: seq<Item>)

  /** An abort is any failure inside the transaction that is not a unique violation. */
  function Apply(c: Config, s: State, e: Event): Option<State>
    requires WellFormed(c, s)
  {
    match e
    case Step(t) => if t < |s.threads| then Next(c, s, t) else None
    case Abort(t) =>
      if t < |s.threads| && IsOpen(s.threads[t])
      then Some(Moved(s, t, s.threads[t].(pc := Done(Failed(Aborted)), pos := 0, redeemed := false)))
      else None
    case EditCart(user, items) => Some(s.(carts := s.carts[user := items]))
  }

  lemma StaysWellFormed(c: Config, s: State, e: Event)
    requires WellFormed(c, s) && Apply(c, s, e).Some?
    ensures WellFormed(c, Apply(c, s, e).value)
  {
  }

  /** The state after the events, each of which could happen when it did. */
  function Run(c: Config, s: State, events: seq<Event>): (r: Option<State>)
    requires WellFormed(c, s)
    ensures r.Some? ==> WellFormed(c, r.value)
  {
    if events == [] then Some(s)
    else
      var before :- Run(c, s, events[..|events| - 1]);
      var after := Apply(c, before, events[|events| - 1]);
      assert after.Some? ==> WellFormed(c, after.value) by {
        if after.Some? { StaysWellFormed(c, before, events[|events| - 1]); }
      }
      after
  }
}
