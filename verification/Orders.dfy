/**
  Order placement (apiV2/src/orders/orders.service.ts): the data, what one transaction does to the
  database when nothing runs beside it, and the service's methods proved against that. Money is in
  cents, a percent coupon's value in hundredths of a percent.
*/
module Orders {
  import opened Wrappers
  import opened Bytes
  import opened Sorting
  import opened Sums

  datatype Item = Item(product: Text, quantity: nat)

  datatype Product = Product(price: nat, stock: int)

  datatype CouponKind = Percent | Fixed

  datatype Coupon = Coupon(kind: CouponKind, value: nat, expiresAt: int, minimum: int,
                           usageLimit: nat, usedCount: nat, org: Option<Text>)

  /** `now` is what the clock reads when the request's coupon is checked. */
  datatype Request = Request(user: Text, items: seq<Item>, key: Option<Text>, coupon: Option<Text>, now: int)

  datatype Order = Order(user: Text, items: seq<Item>, unitPrices: seq<nat>, key: Option<Text>,
                         coupon: Option<Text>, discount: Option<nat>, org: Option<Text>)

  datatype Database = Database(products: map<Text, Product>, coupons: map<Text, Coupon>, orders: seq<Order>)

  type Memberships = map<Text, Text>

  datatype Error =
    | ProductNotFound(product: Text)
    | InsufficientStock(product: Text)
    | InvalidCoupon
    | CouponExpired
    | BelowMinimum
    | CouponExhausted
    | KeyTaken
    | Aborted

  /** JavaScript's truthiness of an optional string: present and not empty. */
  predicate Truthy(s: Option<Text>) { s.Some? && s.value != [] }

  // ---- one transaction ----------------------------------------------------------------------

  /** The conditional decrements of `items`, first to last. */
  function Take(products: map<Text, Product>, items: seq<Item>): Result<map<Text, Product>, Error> {
    if items == [] then Ok(products)
    else
      var products :- Take(products, items[..|items| - 1]);
      var item := items[|items| - 1];
      if item.product !in products then Err(ProductNotFound(item.product))
      else if products[item.product].stock < item.quantity then Err(InsufficientStock(item.product))
      else Ok(products[item.product := Decremented(products[item.product], item.quantity)])
  }

  function Decremented(p: Product, quantity: nat): Product { p.(stock := p.stock - quantity) }

  predicate ItemsFound(products: map<Text, Product>, items: seq<Item>) {
    forall item :: item in items ==> item.product in products
  }

  function Subtotal(products: map<Text, Product>, items: seq<Item>): nat
    requires ItemsFound(products, items)
  {
    if items == [] then 0
    else
      var item := items[|items| - 1];
      Subtotal(products, items[..|items| - 1]) + products[item.product].price * item.quantity
  }

  /** The checks that precede the conditional increment of the coupon's used count. */
  function CheckCoupon(coupons: map<Text, Coupon>, org: Option<Text>, code: Text, now: int, subtotal: nat)
    : Result<Coupon, Error>
  {
    if code !in coupons then Err(InvalidCoupon)
    else
      var coupon := coupons[code];
      if coupon.org.Some? && coupon.org != org then Err(InvalidCoupon)
      else if coupon.expiresAt < now then Err(CouponExpired)
      else if subtotal < coupon.minimum then Err(BelowMinimum)
      else Ok(coupon)
  }

  function Discount(coupon: Coupon, subtotal: nat): nat {
    match coupon.kind
    case Percent => (subtotal * coupon.value + 5_000) / 10_000
    case Fixed => coupon.value
  }

  function OrgOf(memberships: Memberships, user: Text): Option<Text> {
    if user in memberships then Some(memberships[user]) else None
  }

  /** The coupons after the redemption, and the discount it gives. */
  function Redeem(coupons: map<Text, Coupon>, org: Option<Text>, coupon: Option<Text>, now: int, subtotal: nat)
    : Result<(map<Text, Coupon>, Option<nat>), Error>
  {
    if !Truthy(coupon) then Ok((coupons, None))
    else
      var code := coupon.value;
      var checked :- CheckCoupon(coupons, org, code, now, subtotal);
      if checked.usedCount >= checked.usageLimit then Err(CouponExhausted)
      else Ok((coupons[code := checked.(usedCount := checked.usedCount + 1)], Some(Discount(checked, subtotal))))
  }

  function Prices(products: map<Text, Product>, items: seq<Item>): seq<nat>
    requires ItemsFound(products, items)
  {
    seq(|items|, i requires 0 <= i < |items| => products[items[i].product].price)
  }

  predicate HasKey(orders: seq<Order>, key: Text) {
    exists i :: 0 <= i < |orders| && orders[i].key == Some(key)
  }

  lemma {:induction false} TakenExist(products: map<Text, Product>, items: seq<Item>)
    requires Take(products, items).Ok?
    ensures ItemsFound(products, items)
    ensures Take(products, items).value.Keys == products.Keys
    ensures forall p :: p in products ==> Take(products, items).value[p].price == products[p].price
  {
    if items != [] {
      var front := items[..|items| - 1];
      TakenExist(products, front);
      assert items == front + [items[|items| - 1]];
    }
  }

  /** All of `persistOrderAtomically`: everything takes effect, or an error and nothing does. */
  function Persist(memberships: Memberships, db: Database, request: Request): Result<Database, Error> {
    var products :- Take(db.products, request.items);
    assert ItemsFound(db.products, request.items) by {
      TakenExist(db.products, request.items);
    }
    var org := OrgOf(memberships, request.user);
    var (coupons, discount) :- Redeem(db.coupons, org, request.coupon, request.now, Subtotal(db.products, request.items));
    if request.key.Some? && HasKey(db.orders, request.key.value) then Err(KeyTaken)
    else
      var order := Order(request.user, request.items, Prices(db.products, request.items), request.key,
                         request.coupon, discount, org);
      Ok(Database(products, coupons, db.orders + [order]))
  }

  // ---- what a transaction amounts to --------------------------------------------------------

  /** How much of `p` the items ask for in all. */
  function Demand(items: seq<Item>, p: Text): nat {
    if items == [] then 0
    else Demand(items[..|items| - 1], p)
         + (if items[|items| - 1].product == p then items[|items| - 1].quantity else 0)
  }

  ghost predicate Affordable(products: map<Text, Product>, items: seq<Item>) {
    forall i :: 0 <= i < |items| ==>
      items[i].product in products && Demand(items, items[i].product) <= products[items[i].product].stock
  }

  lemma {:induction false} DemandOfUnlisted(items: seq<Item>, p: Text)
    requires forall i :: 0 <= i < |items| ==> items[i].product != p
    ensures Demand(items, p) == 0
  {
    if items != [] { DemandOfUnlisted(items[..|items| - 1], p); }
  }

  /** Stock afterwards is stock before less the whole demand, however a product's lines repeat. */
  lemma {:induction false} TakeTakesDemand(products: map<Text, Product>, items: seq<Item>)
    requires Take(products, items).Ok?
    ensures var taken := Take(products, items).value;
            taken.Keys == products.Keys
            && forall p :: p in products ==> taken[p] == Decremented(products[p], Demand(items, p))
  {
    if items != [] { TakeTakesDemand(products, items[..|items| - 1]); }
  }

  /** All lines can be taken exactly when every listed product has stock for its total demand. */
  lemma {:induction false} TakeExact(products: map<Text, Product>, items: seq<Item>)
    ensures Take(products, items).Ok? <==> Affordable(products, items)
  {
    if items != [] {
      var n := |items| - 1;
      var front, last := items[..n], items[n];
      TakeExact(products, front);
      if Affordable(products, items) {
        forall i | 0 <= i < |front|
          ensures front[i].product in products && Demand(front, front[i].product) <= products[front[i].product].stock
        {
          assert front[i] == items[i];
        }
        TakeTakesDemand(products, front);
        assert items[n].product in products && Demand(items, last.product) <= products[last.product].stock;
      } else if Take(products, items).Ok? {
        TakeTakesDemand(products, front);
        AffordableGrows(products, items);
      }
    }
  }

  lemma AffordableGrows(products: map<Text, Product>, items: seq<Item>)
    requires items != []
    requires var n := |items| - 1;
             Affordable(products, items[..n]) && items[n].product in products
             && Demand(items, items[n].product) <= products[items[n].product].stock
    ensures Affordable(products, items)
  {
    var n := |items| - 1;
    forall i | 0 <= i < |items|
      ensures items[i].product in products && Demand(items, items[i].product) <= products[items[i].product].stock
    {
      if i < n { assert items[..n][i] == items[i]; }
    }
  }

  /** The coupon lets this subtotal be discounted now for a member of `org`. */
  predicate Redeemable(coupons: map<Text, Coupon>, org: Option<Text>, code: Text, now: int, subtotal: nat) {
    && code in coupons
    && (coupons[code].org.Some? ==> coupons[code].org == org)
    && now <= coupons[code].expiresAt && coupons[code].minimum <= subtotal
    && coupons[code].usedCount < coupons[code].usageLimit
  }

  /**
    An order goes through exactly when its products cover its demand, its coupon (if any) is redeemable
    at the subtotal of the current prices, and its key (if any) is unused.
  */
  lemma PersistExact(memberships: Memberships, db: Database, request: Request)
    ensures Persist(memberships, db, request).Ok?
            <==> && Affordable(db.products, request.items)
                 && (Truthy(request.coupon) ==>
                       ItemsFound(db.products, request.items)
                       && Redeemable(db.coupons, OrgOf(memberships, request.user), request.coupon.value, request.now,
                                     Subtotal(db.products, request.items)))
                 && (request.key.Some? ==> !HasKey(db.orders, request.key.value))
  {
    TakeExact(db.products, request.items);
    if Take(db.products, request.items).Ok? { TakenExist(db.products, request.items); }
  }

  /**
    What a placed order changes: its products' stock, one use of its coupon and nothing else of it, and one
    order more, which records the request, the prices of that moment and the user's organisation.
  */
  lemma PersistRecords(memberships: Memberships, db: Database, request: Request)
    requires Persist(memberships, db, request).Ok?
    ensures var after := Persist(memberships, db, request).value; var n := |db.orders|;
            && |after.orders| == n + 1 && after.orders[..n] == db.orders
            && var order := after.orders[n];
               && order.user == request.user && order.items == request.items && order.key == request.key
               && order.coupon == request.coupon && order.org == OrgOf(memberships, request.user)
               && |order.unitPrices| == |order.items|
               && (forall i :: 0 <= i < |order.items| ==>
                     order.items[i].product in db.products
                     && order.unitPrices[i] == db.products[order.items[i].product].price)
               && order.discount.Some? == Truthy(request.coupon)
    ensures var after := Persist(memberships, db, request).value;
            && after.products.Keys == db.products.Keys && after.coupons.Keys == db.coupons.Keys
            && (forall p :: p in db.products ==>
                  after.products[p] == Decremented(db.products[p], Demand(request.items, p)))
            && (forall code :: code in db.coupons ==>
                  var used := if Truthy(request.coupon) && request.coupon.value == code then 1 else 0;
                  after.coupons[code] == db.coupons[code].(usedCount := db.coupons[code].usedCount + used))
  {
    TakenExist(db.products, request.items);
    TakeTakesDemand(db.products, request.items);
  }

  /** A percent discount is the nearest whole cent, a fixed one its own value. */
  lemma DiscountIsNearest(coupon: Coupon, subtotal: nat)
    ensures coupon.kind.Percent? ==>
              -5_000 <= subtotal * coupon.value - 10_000 * Discount(coupon, subtotal) < 5_000
    ensures coupon.kind.Fixed? ==> Discount(coupon, subtotal) == coupon.value
  {
    var exact := subtotal * coupon.value + 5_000;
    assert exact == 10_000 * (exact / 10_000) + exact % 10_000;
  }

  // ---- a placed order in the request's own terms ---------------------------------------------

  function Wanted(p: Text): Item -> int { (item: Item) => if item.product == p then item.quantity else 0 }

  /** What a line costs at the current price. */
  function Cost(products: map<Text, Product>): Item -> int {
    (item: Item) => if item.product in products then products[item.product].price * item.quantity else 0
  }

  /** Each listed product has stock for all the lines that name it. */
  ghost predicate Covered(products: map<Text, Product>, items: seq<Item>) {
    forall i :: 0 <= i < |items| ==>
      items[i].product in products && Sum(Wanted(items[i].product), items) <= products[items[i].product].stock
  }

  predicate HasCoupon(request: Request) { request.coupon.Some? && request.coupon.value != [] }

  /** The coupon exists and is not another organisation's. */
  predicate CouponKnown(memberships: Memberships, coupons: map<Text, Coupon>, user: Text, code: Text) {
    code in coupons
    && (coupons[code].org.Some? ==> user in memberships && memberships[user] == coupons[code].org.value)
  }

  ghost predicate CouponHolds(memberships: Memberships, db: Database, request: Request) {
    HasCoupon(request) ==>
      var code := request.coupon.value;
      && CouponKnown(memberships, db.coupons, request.user, code)
      && request.now <= db.coupons[code].expiresAt
      && db.coupons[code].minimum <= Sum(Cost(db.products), request.items)
      && db.coupons[code].usedCount < db.coupons[code].usageLimit
  }

  ghost predicate KeyFree(db: Database, request: Request) {
    request.key.Some? ==> forall i :: 0 <= i < |db.orders| ==> db.orders[i].key != request.key
  }

  /** The discount is the nearest cent of the lines' sum, or the coupon's fixed amount. */
  ghost predicate DiscountHolds(db: Database, request: Request, discount: Option<nat>) {
    if !HasCoupon(request) then discount == None
    else
      && discount.Some? && request.coupon.value in db.coupons
      && var coupon := db.coupons[request.coupon.value];
         match coupon.kind
         case Percent => -5_000 <= Sum(Cost(db.products), request.items) * coupon.value - 10_000 * discount.value < 5_000
         case Fixed => discount.value == coupon.value
  }

  /** One order more, which records the request; its stock and one use of its coupon are gone, nothing else. */
  ghost predicate Placed(memberships: Memberships, before: Database, request: Request, after: Database) {
    && |after.orders| == |before.orders| + 1 && after.orders[..|before.orders|] == before.orders
    && OrderHolds(memberships, before, request, after.orders[|before.orders|])
    && after.products.Keys == before.products.Keys && after.coupons.Keys == before.coupons.Keys
    && (forall p :: p in before.products ==>
          after.products[p] == before.products[p].(stock := before.products[p].stock - Sum(Wanted(p), request.items)))
    && (forall code :: code in before.coupons ==>
          var used := if HasCoupon(request) && request.coupon.value == code then 1 else 0;
          after.coupons[code] == before.coupons[code].(usedCount := before.coupons[code].usedCount + used))
  }

  ghost predicate OrderHolds(memberships: Memberships, db: Database, request: Request, order: Order) {
    && order.user == request.user && order.items == request.items && order.key == request.key
    && order.coupon == request.coupon
    && order.org == (if request.user in memberships then Some(memberships[request.user]) else None)
    && |order.unitPrices| == |order.items|
    && (forall i :: 0 <= i < |order.items| ==>
          order.items[i].product in db.products && order.unitPrices[i] == db.products[order.items[i].product].price)
    && DiscountHolds(db, request, order.discount)
  }

  /** Why an order is refused: its first line that cannot be had, else its coupon, else its key. */
  ghost predicate RefusedFor(memberships: Memberships, db: Database, request: Request, error: Error) {
    match error
    case ProductNotFound(p) => p !in db.products && exists i: nat :: FailsAt(db.products, request.items, i) && request.items[i].product == p
    case InsufficientStock(p) => p in db.products && exists i: nat :: FailsAt(db.products, request.items, i) && request.items[i].product == p
    case KeyTaken => Covered(db.products, request.items) && CouponHolds(memberships, db, request) && !KeyFree(db, request)
    case Aborted => false
    case _ =>
      && Covered(db.products, request.items) && HasCoupon(request)
      && var code := request.coupon.value;
         if !CouponKnown(memberships, db.coupons, request.user, code) then error == InvalidCoupon
         else if db.coupons[code].expiresAt < request.now then error == CouponExpired
         else if Sum(Cost(db.products), request.items) < db.coupons[code].minimum then error == BelowMinimum
         else error == CouponExhausted && db.coupons[code].usedCount >= db.coupons[code].usageLimit
  }

  /** The lines before line `i` can be had, and it cannot. */
  ghost predicate FailsAt(products: map<Text, Product>, items: seq<Item>, i: nat) {
    && i < |items| && Covered(products, items[..i])
    && (items[i].product in products ==> Sum(Wanted(items[i].product), items[..i + 1]) > products[items[i].product].stock)
  }

  lemma {:induction false} DemandIsSum(items: seq<Item>, p: Text)
    ensures Demand(items, p) == Sum(Wanted(p), items)
  {
    if items != [] { DemandIsSum(items[..|items| - 1], p); }
  }

  lemma {:induction false} SubtotalIsSum(products: map<Text, Product>, items: seq<Item>)
    requires ItemsFound(products, items)
    ensures Subtotal(products, items) == Sum(Cost(products), items)
  {
    if items != [] { SubtotalIsSum(products, items[..|items| - 1]); }
  }

  lemma CoveredIsAffordable(products: map<Text, Product>, items: seq<Item>)
    ensures Covered(products, items) <==> Affordable(products, items)
  {
    forall i | 0 <= i < |items|
      ensures Demand(items, items[i].product) == Sum(Wanted(items[i].product), items)
    {
      DemandIsSum(items, items[i].product);
    }
  }

  /**
    An order goes through exactly when its lines are covered, its coupon (if any) holds for the sum of its
    lines at current prices, and its key (if any) is unused; and then it changes the tables as it should.
  */
  lemma PlacedExactly(memberships: Memberships, db: Database, request: Request)
    ensures Persist(memberships, db, request).Ok?
            <==> Covered(db.products, request.items) && CouponHolds(memberships, db, request) && KeyFree(db, request)
    ensures Persist(memberships, db, request).Ok? ==>
              Placed(memberships, db, request, Persist(memberships, db, request).value)
  {
    CoveredIsAffordable(db.products, request.items);
    PersistExact(memberships, db, request);
    if Affordable(db.products, request.items) {
      TakeExact(db.products, request.items);
      TakenExist(db.products, request.items);
      SubtotalIsSum(db.products, request.items);
    }
    if Persist(memberships, db, request).Ok? { PersistIsPlaced(memberships, db, request); }
  }

  lemma PersistIsPlaced(memberships: Memberships, db: Database, request: Request)
    requires Persist(memberships, db, request).Ok?
    ensures Placed(memberships, db, request, Persist(memberships, db, request).value)
  {
    var after := Persist(memberships, db, request).value;
    PersistRecords(memberships, db, request);
    TakenExist(db.products, request.items);
    SubtotalIsSum(db.products, request.items);
    forall p | p in db.products
      ensures after.products[p] == db.products[p].(stock := db.products[p].stock - Sum(Wanted(p), request.items))
    {
      DemandIsSum(request.items, p);
    }
    if HasCoupon(request) {
      DiscountIsNearest(db.coupons[request.coupon.value], Sum(Cost(db.products), request.items));
    }
  }

  lemma {:induction false} TakeFails(products: map<Text, Product>, items: seq<Item>) returns (i: nat)
    requires Take(products, items).Err?
    ensures FailsAt(products, items, i)
    ensures Take(products, items).error == (if items[i].product in products then InsufficientStock(items[i].product)
                                            else ProductNotFound(items[i].product))
  {
    var n := |items| - 1;
    if Take(products, items[..n]).Err? {
      i := TakeFails(products, items[..n]);
      assert items[..n][..i] == items[..i] && items[..n][..i + 1] == items[..i + 1];
    } else {
      i := n;
      TakeExact(products, items[..n]);
      CoveredIsAffordable(products, items[..n]);
      TakeTakesDemand(products, items[..n]);
      assert items[..n + 1] == items;
      DemandIsSum(items, items[n].product);
    }
  }

  /** A refused order is refused for the first reason there is. */
  lemma RefusedForReason(memberships: Memberships, db: Database, request: Request)
    requires Persist(memberships, db, request).Err?
    ensures RefusedFor(memberships, db, request, Persist(memberships, db, request).error)
  {
    if Take(db.products, request.items).Err? {
      var i := TakeFails(db.products, request.items);
    } else {
      TakeExact(db.products, request.items);
      CoveredIsAffordable(db.products, request.items);
      TakenExist(db.products, request.items);
      SubtotalIsSum(db.products, request.items);
    }
  }

  // ---- replays ------------------------------------------------------------------------------

  function Key(item: Item): Text { item.product + [58] + Dec(item.quantity) }

  function Keys(items: seq<Item>): (r: seq<Text>)
    ensures |r| == |items|
  {
    if items == [] then [] else [Key(items[0])] + Keys(items[1..])
  }

  /** Compares the sorted `productId:quantity` strings of both lists. */
  predicate SameItems(existing: seq<Item>, requested: seq<Item>) {
    && |existing| == |requested|
    && forall i :: 0 <= i < |existing| ==> Sort(Keys(existing), LexLe)[i] == Sort(Keys(requested), LexLe)[i]
  }

  lemma KeyInjective(a: Item, b: Item)
    requires Key(a) == Key(b)
    ensures a == b
  {
    assert (a.product + [58])[|a.product|] == 58 && (b.product + [58])[|b.product|] == 58;
    DigitTailSplit(a.product + [58], Dec(a.quantity));
    DigitTailSplit(b.product + [58], Dec(b.quantity));
    var n := |Key(a)| - |Dec(a.quantity)|;
    assert Key(a)[n..] == Dec(a.quantity) && Key(b)[n..] == Dec(b.quantity);
    assert Key(a)[..n - 1] == a.product && Key(b)[..n - 1] == b.product;
    ValueOfDec(a.quantity);
    ValueOfDec(b.quantity);
  }

  lemma {:induction false} KeyCount(items: seq<Item>, item: Item)
    ensures multiset(Keys(items))[Key(item)] == multiset(items)[item]
  {
    if items != [] {
      KeyCount(items[1..], item);
      assert items == [items[0]] + items[1..];
      if Key(items[0]) == Key(item) { KeyInjective(items[0], item); }
    }
  }

  lemma {:induction false} KeyOrigin(items: seq<Item>, key: Text) returns (item: Item)
    requires key in multiset(Keys(items))
    ensures item in items && Key(item) == key
  {
    if Key(items[0]) == key {
      item := items[0];
    } else {
      assert Keys(items) == [Key(items[0])] + Keys(items[1..]);
      item := KeyOrigin(items[1..], key);
    }
  }

  lemma KeysAgree(a: seq<Item>, b: seq<Item>)
    ensures multiset(Keys(a)) == multiset(Keys(b)) <==> multiset(a) == multiset(b)
  {
    if multiset(Keys(a)) == multiset(Keys(b)) {
      forall item
        ensures multiset(a)[item] == multiset(b)[item]
      {
        KeyCount(a, item);
        KeyCount(b, item);
      }
    }
    if multiset(a) == multiset(b) {
      KeysWithin(a, b);
      KeysWithin(b, a);
    }
  }

  lemma KeysWithin(a: seq<Item>, b: seq<Item>)
    requires multiset(a) == multiset(b)
    ensures forall key :: key in multiset(Keys(a)) ==> multiset(Keys(a))[key] == multiset(Keys(b))[key]
  {
    forall key | key in multiset(Keys(a))
      ensures multiset(Keys(a))[key] == multiset(Keys(b))[key]
    {
      var item := KeyOrigin(a, key);
      KeyCount(a, item);
      KeyCount(b, item);
    }
  }

  /** The string comparison decides equality of the two lists as multisets of lines. */
  lemma SameItemsExact(existing: seq<Item>, requested: seq<Item>)
    ensures SameItems(existing, requested) <==> multiset(existing) == multiset(requested)
  {
    var a, b := Keys(existing), Keys(requested);
    LexIsTotalOrder();
    SortCanonical(a, b, LexLe);
    KeysAgree(existing, requested);
    if multiset(existing) == multiset(requested) {
      assert |multiset(existing)| == |existing| && |multiset(requested)| == |requested|;
    }
    if SameItems(existing, requested) {
      assert Sort(a, LexLe) == Sort(b, LexLe);
    }
  }

  datatype Response =
    | Created(order: nat)
    | Replayed(order: nat)
    | Conflict
    | Failed(error: Error)
    | EmptyCart

  /** The first order carrying the key. */
  function Find(orders: seq<Order>, key: Text): (r: Option<nat>)
    ensures r.None? <==> !HasKey(orders, key)
    ensures r.Some? ==> r.value < |orders| && orders[r.value].key == Some(key)
  {
    if orders == [] then None
    else if orders[0].key == Some(key) then Some(0)
    else
      assert forall i :: 0 < i < |orders| ==> orders[i] == orders[1..][i - 1];
      match Find(orders[1..], key)
      case Some(i) => Some(i + 1)
      case None => None
  }

  function ReplayOrConflict(orders: seq<Order>, i: nat, user: Text, expected: Option<seq<Item>>): Response
    requires i < |orders|
  {
    if orders[i].user != user then Conflict
    else if expected.Some? && !SameItems(orders[i].items, expected.value) then Conflict
    else Replayed(i)
  }

  /** `findExistingByIdempotencyKey`. */
  function FindExisting(orders: seq<Order>, key: Text, user: Text, expected: Option<seq<Item>>): Option<Response> {
    match Find(orders, key)
    case Some(i) => Some(ReplayOrConflict(orders, i, user, expected))
    case None => None
  }

  /** `create` with nothing running beside it. */
  function CreateAlone(memberships: Memberships, db: Database, request: Request): (Database, Response) {
    var existing := if Truthy(request.key)
                    then FindExisting(db.orders, request.key.value, request.user, Some(request.items)) else None;
    match existing
    case Some(response) => (db, response)
    case None =>
      match Persist(memberships, db, request)
      case Ok(after) => (after, Created(|db.orders|))
      case Err(error) => (db, Failed(error))
  }

  /** The first order that carries the key. */
  ghost predicate FirstWithKey(orders: seq<Order>, key: Option<Text>, i: nat) {
    && key.Some? && key.value != []
    && i < |orders| && orders[i].key == key && forall j :: 0 <= j < i ==> orders[j].key != key
  }

  lemma {:induction false} FindIsFirst(orders: seq<Order>, key: Text)
    ensures Find(orders, key).None? ==> forall i :: 0 <= i < |orders| ==> orders[i].key != Some(key)
    ensures Find(orders, key).Some? ==> forall j :: 0 <= j < Find(orders, key).value ==> orders[j].key != Some(key)
  {
    if orders != [] && orders[0].key != Some(key) {
      FindIsFirst(orders[1..], key);
      assert forall j :: 1 <= j < |orders| ==> orders[j] == orders[1..][j - 1];
    }
  }

  /** A replay is for the same user and the same lines as a multiset, in any order. */
  function AnswerFor(order: Order, i: nat, user: Text, items: seq<Item>): Response {
    if order.user == user && multiset(order.items) == multiset(items) then Replayed(i) else Conflict
  }

  /**
    What `create` answers and leaves with nothing running beside it: the first order with the key replayed
    or refused and the tables as they were, or a new order, or a refusal.
  */
  ghost predicate CreateHolds(memberships: Memberships, before: Database, request: Request, after: Database, response: Response)
  {
    if exists i: nat :: FirstWithKey(before.orders, request.key, i) then
      var i: nat :| FirstWithKey(before.orders, request.key, i);
      after == before && response == AnswerFor(before.orders[i], i, request.user, request.items)
    else
      match response
      case Created(n) => n == |before.orders| && Placed(memberships, before, request, after)
      case Failed(error) => after == before && RefusedFor(memberships, before, request, error)
      case _ => false
  }

  lemma CreateIsRight(memberships: Memberships, db: Database, request: Request)
    ensures var (after, response) := CreateAlone(memberships, db, request);
            CreateHolds(memberships, db, request, after, response)
  {
    PlacedExactly(memberships, db, request);
    if Persist(memberships, db, request).Err? { RefusedForReason(memberships, db, request); }
    if Truthy(request.key) {
      FindIsFirst(db.orders, request.key.value);
      match Find(db.orders, request.key.value) {
        case Some(n) =>
          assert FirstWithKey(db.orders, request.key, n);
          forall i: nat | FirstWithKey(db.orders, request.key, i)
            ensures i == n
          {
          }
          SameItemsExact(db.orders[n].items, request.items);
        case None =>
      }
    }
  }

  // ---- the service --------------------------------------------------------------------------

  class OrdersService {
    const memberships: Memberships
    var products: map<Text, Product>
    var coupons: map<Text, Coupon>
    var orders: seq<Order>

    constructor (memberships: Memberships, db: Database)
      ensures this.memberships == memberships && Tables() == db
    {
      this.memberships := memberships;
      products, coupons, orders := db.products, db.coupons, db.orders;
    }

    function Tables(): Database
      reads this
    {
      Database(products, coupons, orders)
    }

    /** `dataSource.transaction`: a failing body leaves the tables as they were. */
    method Rollback(before: Database)
      modifies this
      ensures Tables() == before
    {
      products, coupons, orders := before.products, before.coupons, before.orders;
    }

    /** The loop over the items: one conditional decrement each, until one affects no row. */
    method TakeItems(items: seq<Item>) returns (result: Result<(nat, seq<nat>), Error>)
      modifies this`products
      ensures match Take(old(products), items)
              case Ok(taken) => products == taken && ItemsFound(old(products), items)
                                && result == Ok((Subtotal(old(products), items), Prices(old(products), items)))
              case Err(error) => result == Err(error)
    {
      ghost var before := products;
      var subtotal: nat := 0;
      var unitPrices: seq<nat> := [];
      for i := 0 to |items|
        invariant Take(before, items[..i]) == Ok(products)
        invariant ItemsFound(before, items[..i])
        invariant subtotal == Subtotal(before, items[..i])
        invariant unitPrices == Prices(before, items[..i])
      {
        var item := items[i];
        TakesNext(before, products, items, i);
        if item.product !in products { return Err(ProductNotFound(item.product)); }
        var product := products[item.product];
        if product.stock < item.quantity { return Err(InsufficientStock(item.product)); }
        products := products[item.product := Decremented(product, item.quantity)];
        subtotal := subtotal + product.price * item.quantity;
        unitPrices := unitPrices + [product.price];
      }
      assert items[..|items|] == items;
      result := Ok((subtotal, unitPrices));
    }

    method PersistOrderAtomically(request: Request) returns (result: Result<nat, Error>)
      modifies this
      ensures match Persist(memberships, old(Tables()), request)
              case Ok(after) => result == Ok(|old(orders)|) && Tables() == after
              case Err(error) => result == Err(error) && Tables() == old(Tables())
      ensures result.Ok? <==> && Covered(old(products), request.items) && CouponHolds(memberships, old(Tables()), request)
                              && KeyFree(old(Tables()), request)
      ensures match result
              case Ok(n) => n == |old(orders)| && Placed(memberships, old(Tables()), request, Tables())
              case Err(error) => Tables() == old(Tables()) && RefusedFor(memberships, old(Tables()), request, error)
    {
      var before := Tables();
      PlacedExactly(memberships, before, request);
      if Persist(memberships, before, request).Err? { RefusedForReason(memberships, before, request); }
      var taken := TakeItems(request.items);
      if taken.Err? {
        Rollback(before);
        return Err(taken.error);
      }
      var (subtotal, unitPrices) := taken.value;
      var org := OrgOf(memberships, request.user);
      var discount: Option<nat> := None;
      if Truthy(request.coupon) {
        var applied := ApplyCoupon(request.coupon.value, subtotal, org, request.now);
        if applied.Err? {
          Rollback(before);
          return Err(applied.error);
        }
        discount := Some(applied.value);
      }
      if request.key.Some? && HasKey(orders, request.key.value) {
        Rollback(before);
        return Err(KeyTaken);
      }
      orders := orders + [Order(request.user, request.items, unitPrices, request.key, request.coupon, discount, org)];
      result := Ok(|orders| - 1);
    }

    method ApplyCoupon(code: Text, subtotal: nat, org: Option<Text>, now: int) returns (result: Result<nat, Error>)
      requires code != []
      modifies this`coupons
      ensures match Redeem(old(coupons), org, Some(code), now, subtotal)
              case Ok(redeemed) => coupons == redeemed.0 && redeemed.1.Some? && result == Ok(redeemed.1.value)
              case Err(error) => coupons == old(coupons) && result == Err(error)
    {
      if code !in coupons { return Err(InvalidCoupon); }
      var coupon := coupons[code];
      if coupon.org.Some? && coupon.org != org { return Err(InvalidCoupon); }
      if coupon.expiresAt < now { return Err(CouponExpired); }
      if subtotal < coupon.minimum { return Err(BelowMinimum); }
      if coupon.usedCount >= coupon.usageLimit { return Err(CouponExhausted); }
      coupons := coupons[code := coupon.(usedCount := coupon.usedCount + 1)];
      result := Ok(Discount(coupon, subtotal));
    }

    method FindExistingByIdempotencyKey(key: Text, user: Text, expected: Option<seq<Item>>)
      returns (response: Option<Response>)
      ensures response == FindExisting(orders, key, user, expected)
    {
      var found := Find(orders, key);
      if found.None? { return None; }
      var existing := orders[found.value];
      if existing.user != user { return Some(Conflict); }
      if expected.Some? && !SameItems(existing.items, expected.value) { return Some(Conflict); }
      response := Some(Replayed(found.value));
    }

    method Create(request: Request) returns (response: Response)
      modifies this
      ensures (Tables(), response) == CreateAlone(memberships, old(Tables()), request)
      ensures CreateHolds(memberships, old(Tables()), request, Tables(), response)
    {
      CreateIsRight(memberships, Tables(), request);
      if Truthy(request.key) {
        var existing := FindExistingByIdempotencyKey(request.key.value, request.user, Some(request.items));
        if existing.Some? { return existing.value; }
      }
      var persisted := PersistOrderAtomically(request);
      match persisted {
        case Ok(order) => response := Created(order);
        case Err(error) => response := Failed(error);
      }
    }
  }

  /** A line that cannot be taken decides the result, whatever lines follow. */
  lemma {:induction false} ErrorStays(products: map<Text, Product>, items: seq<Item>, i: nat)
    requires i <= |items| && Take(products, items[..i]).Err?
    ensures Take(products, items) == Take(products, items[..i])
    decreases |items|
  {
    if i < |items| {
      assert items[..|items| - 1][..i] == items[..i];
      ErrorStays(products, items[..|items| - 1], i);
    } else {
      assert items[..i] == items;
    }
  }

  lemma FrontOf(items: seq<Item>, i: nat)
    requires i < |items|
    ensures items[..i + 1][..i] == items[..i] && items[..i + 1] == items[..i] + [items[i]]
    ensures |items[..i + 1]| == i + 1 && items[..i + 1][i] == items[i]
  {
  }

  lemma TakeOneMore(before: map<Text, Product>, products: map<Text, Product>, items: seq<Item>, i: nat)
    requires i < |items| && Take(before, items[..i]) == Ok(products)
    ensures var item := items[i];
            Take(before, items[..i + 1])
            == if item.product !in products then Err(ProductNotFound(item.product))
               else if products[item.product].stock < item.quantity then Err(InsufficientStock(item.product))
               else Ok(products[item.product := Decremented(products[item.product], item.quantity)])
  {
    FrontOf(items, i);
  }

  lemma PriceOneMore(products: map<Text, Product>, items: seq<Item>, i: nat)
    requires i < |items| && ItemsFound(products, items[..i]) && items[i].product in products
    ensures ItemsFound(products, items[..i + 1])
    ensures Subtotal(products, items[..i + 1])
            == Subtotal(products, items[..i]) + products[items[i].product].price * items[i].quantity
    ensures Prices(products, items[..i + 1]) == Prices(products, items[..i]) + [products[items[i].product].price]
  {
    FrontOf(items, i);
  }

  /** What the next line makes of the loop over the items. */
  lemma TakesNext(before: map<Text, Product>, products: map<Text, Product>, items: seq<Item>, i: nat)
    requires i < |items| && Take(before, items[..i]) == Ok(products)
    ensures ItemsFound(before, items[..i])
    ensures var item := items[i];
            if item.product !in products then Take(before, items) == Err(ProductNotFound(item.product))
            else if products[item.product].stock < item.quantity
            then Take(before, items) == Err(InsufficientStock(item.product))
            else
              var price := products[item.product].price;
              && Take(before, items[..i + 1])
                 == Ok(products[item.product := Decremented(products[item.product], item.quantity)])
              && ItemsFound(before, items[..i + 1])
              && Subtotal(before, items[..i + 1]) == Subtotal(before, items[..i]) + price * item.quantity
              && Prices(before, items[..i + 1]) == Prices(before, items[..i]) + [price]
  {
    TakenExist(before, items[..i]);
    TakeOneMore(before, products, items, i);
    StopsHere(before, items, i);
    if items[i].product in products { PriceOneMore(before, items, i); }
  }

  lemma StopsHere(products: map<Text, Product>, items: seq<Item>, i: nat)
    requires i < |items|
    ensures Take(products, items[..i + 1]).Err? ==> Take(products, items) == Take(products, items[..i + 1])
  {
    if Take(products, items[..i + 1]).Err? { ErrorStays(products, items, i + 1); }
  }
}
