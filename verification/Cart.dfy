/**
  The shopping cart (apiV2/src/cart/cart.service.ts): adding lines, and checking out through order
  placement, with nothing running beside it.
*/
module Cart {
  import opened Wrappers
  import opened Bytes
  import opened Orders

  type Carts = map<Text, seq<Item>>

  function LinesOf(carts: Carts, user: Text): seq<Item> { if user in carts then carts[user] else [] }

  /** `checkout`: replay first, so that an emptied cart does not get in its way. */
  function CheckoutAlone(memberships: Memberships, db: Database, carts: Carts, user: Text, key: Option<Text>,
                         coupon: Option<Text>, now: int): (Database, Carts, Response)
  {
    var replay := if Truthy(key) then FindExisting(db.orders, key.value, user, None) else None;
    match replay
    case Some(response) => (db, carts, response)
    case None =>
      var items := LinesOf(carts, user);
      if items == [] then (db, carts, EmptyCart)
      else
        var (after, response) := CreateAlone(memberships, db, Request(user, items, key, coupon, now));
        (after, if response.Created? then carts[user := []] else carts, response)
  }

  /** Only a new order changes anything: it is the cart's, and it alone empties the cart. */
  lemma CheckoutAllOrNothing(memberships: Memberships, db: Database, carts: Carts, user: Text, key: Option<Text>,
                             coupon: Option<Text>, now: int)
    ensures var (after, carts', response) := CheckoutAlone(memberships, db, carts, user, key, coupon, now);
            if response.Created? then
              && after.orders == db.orders + [after.orders[response.order]] && response.order == |db.orders|
              && after.orders[response.order].items == LinesOf(carts, user) != []
              && after.orders[response.order].user == user && after.orders[response.order].key == key
              && carts' == carts[user := []]
            else after == db && carts' == carts
  {
  }

  /**
    What `checkout` answers and leaves with nothing running beside it: the first order with the key if it is
    the user's, whatever the cart holds; or that the cart is empty; or what placing its lines comes to, the
    cart being emptied exactly when that made an order.
  */
  ghost predicate CheckoutHolds(memberships: Memberships, before: Database, carts: Carts, user: Text, key: Option<Text>,
                                coupon: Option<Text>, now: int, after: Database, left: Carts, response: Response)
  {
    if exists i: nat :: FirstWithKey(before.orders, key, i) then
      var i: nat :| FirstWithKey(before.orders, key, i);
      after == before && left == carts && response == (if before.orders[i].user == user then Replayed(i) else Conflict)
    else if user !in carts || carts[user] == [] then
      after == before && left == carts && response == EmptyCart
    else
      && CreateHolds(memberships, before, Request(user, carts[user], key, coupon, now), after, response)
      && left == (if response.Created? then carts[user := []] else carts)
  }

  lemma CheckoutIsRight(memberships: Memberships, db: Database, carts: Carts, user: Text, key: Option<Text>,
                        coupon: Option<Text>, now: int)
    ensures var (after, left, response) := CheckoutAlone(memberships, db, carts, user, key, coupon, now);
            CheckoutHolds(memberships, db, carts, user, key, coupon, now, after, left, response)
  {
    if Truthy(key) {
      FindIsFirst(db.orders, key.value);
      match Find(db.orders, key.value) {
        case Some(n) =>
          assert FirstWithKey(db.orders, key, n);
          forall i: nat | FirstWithKey(db.orders, key, i)
            ensures i == n
          {
          }
        case None =>
      }
    }
    CreateIsRight(memberships, db, Request(user, LinesOf(carts, user), key, coupon, now));
  }

  lemma FindsLast(orders: seq<Order>, key: Text)
    requires orders != [] && orders[|orders| - 1].key == Some(key) && !HasKey(orders[..|orders| - 1], key)
    ensures Find(orders, key) == Some(|orders| - 1)
  {
    assert HasKey(orders, key);
    forall j | 0 <= j < |orders| - 1
      ensures orders[j].key != Some(key)
    {
      assert orders[..|orders| - 1][j] == orders[j];
    }
  }

  /**
    After a checkout with a key created an order, repeating it replays that order and changes nothing,
    whatever has happened to the cart and whatever coupon comes with it.
  */
  lemma RetryReplays(memberships: Memberships, db: Database, carts: Carts, user: Text, key: Option<Text>,
                     coupon: Option<Text>, now: int, later: Carts, coupon': Option<Text>, now': int)
    requires Truthy(key)
    requires CheckoutAlone(memberships, db, carts, user, key, coupon, now).2.Created?
    ensures var (after, _, response) := CheckoutAlone(memberships, db, carts, user, key, coupon, now);
            CheckoutAlone(memberships, after, later, user, key, coupon', now') == (after, later, Replayed(response.order))
  {
    var (after, _, response) := CheckoutAlone(memberships, db, carts, user, key, coupon, now);
    CheckoutAllOrNothing(memberships, db, carts, user, key, coupon, now);
    assert after.orders[..|after.orders| - 1] == db.orders;
    assert !HasKey(db.orders, key.value);
    FindsLast(after.orders, key.value);
  }

  /** `addItem` on the user's lines: one line per product grows, or a line is added. */
  function Add(lines: seq<Item>, product: Text, quantity: nat): seq<Item> {
    if lines == [] then [Item(product, quantity)]
    else if lines[0].product == product then [Item(product, lines[0].quantity + quantity)] + lines[1..]
    else [lines[0]] + Add(lines[1..], product, quantity)
  }

  ghost predicate OneLineEach(lines: seq<Item>) {
    forall i, j :: 0 <= i < j < |lines| ==> lines[i].product != lines[j].product
  }

  lemma DemandFirst(lines: seq<Item>, p: Text)
    requires lines != []
    ensures Demand(lines, p) == (if lines[0].product == p then lines[0].quantity else 0) + Demand(lines[1..], p)
  {
    var n := |lines| - 1;
    if n > 0 {
      DemandFirst(lines[..n], p);
      assert lines[..n][1..] == lines[1..][..n - 1];
    }
  }

  /** Still one line per product, and exactly this product's quantity is larger, by the quantity added. */
  lemma {:induction false} AddAdds(lines: seq<Item>, product: Text, quantity: nat)
    requires OneLineEach(lines)
    ensures var after := Add(lines, product, quantity);
            && OneLineEach(after)
            && (forall p :: Demand(after, p) == Demand(lines, p) + (if p == product then quantity else 0))
            && (forall i :: 0 <= i < |after| ==> after[i].product == product || exists j :: 0 <= j < |lines| && lines[j] == after[i])
  {
    var after := Add(lines, product, quantity);
    if lines != [] && lines[0].product != product {
      AddAdds(lines[1..], product, quantity);
      assert after[1..] == Add(lines[1..], product, quantity);
      forall i | 0 < i < |after|
        ensures after[i].product != after[0].product
      {
        assert after[i] == after[1..][i - 1];
      }
      forall i, j | 0 <= i < j < |after|
        ensures after[i].product != after[j].product
      {
        if i > 0 { assert after[1..][i - 1].product != after[1..][j - 1].product; }
      }
    }
    forall p
      ensures Demand(after, p) == Demand(lines, p) + (if p == product then quantity else 0)
    {
      DemandFirst(after, p);
      if lines == [] { assert after[1..] == []; } else { DemandFirst(lines, p); }
    }
  }

  class CartService {
    const orders: OrdersService
    var carts: Carts

    constructor (orders: OrdersService)
      ensures this.orders == orders && carts == map[]
    {
      this.orders := orders;
      carts := map[];
    }

    method AddItem(user: Text, product: Text, quantity: nat) returns (result: Result<(), Error>)
      modifies this
      ensures if product in orders.products
              then result == Ok(()) && carts == old(carts)[user := Add(LinesOf(old(carts), user), product, quantity)]
              else result == Err(ProductNotFound(product)) && carts == old(carts)
    {
      if product !in orders.products { return Err(ProductNotFound(product)); }
      carts := carts[user := Add(LinesOf(carts, user), product, quantity)];
      result := Ok(());
    }

    method Checkout(user: Text, key: Option<Text>, coupon: Option<Text>, now: int) returns (response: Response)
      modifies this, orders
      ensures (orders.Tables(), carts, response)
              == CheckoutAlone(orders.memberships, old(orders.Tables()), old(carts), user, key, coupon, now)
      ensures CheckoutHolds(orders.memberships, old(orders.Tables()), old(carts), user, key, coupon, now,
                            orders.Tables(), carts, response)
    {
      CheckoutIsRight(orders.memberships, orders.Tables(), carts, user, key, coupon, now);
      if Truthy(key) {
        var replay := orders.FindExistingByIdempotencyKey(key.value, user, None);
        if replay.Some? { return replay.value; }
      }
      var items := LinesOf(carts, user);
      if items == [] { return EmptyCart; }
      response := orders.Create(Request(user, items, key, coupon, now));
      if response.Created? { carts := carts[user := []]; }
    }
  }
}
