/**
  Every interleaving of order placements is equivalent to executing the committed requests one at a
  time, in commit order. Conservation of stock, coupon limits and unique keys follow for every run.
*/
module OrderSafety {
  import opened Wrappers
  import opened Bytes
  import opened Orders
  import opened OrderMachine

  // ---- the invariant ------------------------------------------------------------------------

  function Checked(c: Config, db: Database, call: Call, items: seq<Item>): Result<Coupon, Error>
    requires CouponOf(call).Some?
  {
    CheckCoupon(db.coupons, OrgOf(c.memberships, UserOf(call)), CouponOf(call).value, NowOf(call), SubtotalOf(db, items))
  }

  predicate AtStock(th: Thread) { th.pc.TakeStock? || th.pc.AwaitStock? }

  predicate AtCoupon(th: Thread) { th.pc.RedeemCoupon? || th.pc.AwaitCoupon? }

  /** What holds of an open transaction between its statements, given the committed rows. */
  ghost predicate OpenOk(c: Config, db: Database, call: Call, th: Thread) {
    && th.pos <= |th.items|
    && Affordable(db.products, th.items[..th.pos])
    && (th.pc.ReadProduct? || AtStock(th) ==> th.pos < |th.items| && !th.redeemed)
    && (AtStock(th) ==> th.items[th.pos].product in db.products)
    && (th.pc.ReadCoupon? || AtCoupon(th) ==> !th.redeemed && th.pos == |th.items| && Truthy(CouponOf(call)))
    && (AtCoupon(th) ==> Checked(c, db, call, th.items).Ok?)
    && (th.pc.ReadMembership? || th.pc.InsertOrder? || th.pc.Commit?
        ==> th.pos == |th.items| && th.redeemed == Truthy(CouponOf(call)))
    && (th.redeemed ==>
          && Truthy(CouponOf(call)) && Checked(c, db, call, th.items).Ok?
          && db.coupons[CouponOf(call).value].usedCount < db.coupons[CouponOf(call).value].usageLimit)
    && (th.pc.Commit? && KeyOf(call).Some? ==> !HasKey(db.orders, KeyOf(call).value))
  }

  ghost predicate ThreadOk(c: Config, db: Database, call: Call, th: Thread) {
    && (IsOpen(th) ==> OpenOk(c, db, call, th))
    && (th.pc.FirstLookup? || th.pc.Lookup? || th.pc.LookupAgain? ==> Truthy(KeyOf(call)))
    && (th.pc.FirstLookup? || th.pc.ReadCart? || th.pc.ClearCart? ==> call.Checkout?)
  }

  /** No row is held by two open transactions. */
  ghost predicate Exclusive(c: Config, s: State)
    requires WellFormed(c, s)
  {
    forall t, o :: 0 <= t < |s.threads| && 0 <= o < |s.threads| && t != o ==> Apart(c, s, t, o)
  }

  ghost predicate Apart(c: Config, s: State, t: nat, o: nat)
    requires WellFormed(c, s) && t < |s.threads| && o < |s.threads|
  {
    && (forall p :: !(HoldsProduct(s.threads[t], p) && HoldsProduct(s.threads[o], p)))
    && (forall code :: !(HoldsCoupon(c.calls[t], s.threads[t], code) && HoldsCoupon(c.calls[o], s.threads[o], code)))
    && (forall key :: !(HoldsKey(c.calls[t], s.threads[t], key) && HoldsKey(c.calls[o], s.threads[o], key)))
  }

  ghost predicate Inv(c: Config, s: State) {
    && WellFormed(c, s)
    && (forall t :: 0 <= t < |s.threads| ==> ThreadOk(c, s.db, c.calls[t], s.threads[t]))
    && Exclusive(c, s)
  }

  // ---- steps that commit nothing ------------------------------------------------------------

  /** What a step of `t` may newly hold is held by nobody else. */
  ghost predicate Acquires(c: Config, s: State, t: nat, th: Thread)
    requires WellFormed(c, s) && t < |s.threads|
  {
    && (forall p :: HoldsProduct(th, p) ==> HoldsProduct(s.threads[t], p) || !ProductBusy(c, s, t, p))
    && (forall code :: HoldsCoupon(c.calls[t], th, code)
          ==> HoldsCoupon(c.calls[t], s.threads[t], code) || !CouponBusy(c, s, t, code))
    && (forall key :: HoldsKey(c.calls[t], th, key)
          ==> HoldsKey(c.calls[t], s.threads[t], key) || !KeyBusy(c, s, t, key))
  }

  lemma MovedKeepsInv(c: Config, s: State, t: nat, th: Thread)
    requires Inv(c, s) && t < |s.threads| && ThreadOk(c, s.db, c.calls[t], th) && Acquires(c, s, t, th)
    ensures Inv(c, Moved(s, t, th))
  {
    var after := Moved(s, t, th);
    forall a, b | 0 <= a < |s.threads| && 0 <= b < |s.threads| && a != b
      ensures Apart(c, after, a, b)
    {
      assert Apart(c, s, a, b);
      if a == t || b == t { NewHoldingsApart(c, s, t, th, if a == t then b else a); }
    }
  }

  lemma NewHoldingsApart(c: Config, s: State, t: nat, th: Thread, o: nat)
    requires Inv(c, s) && t < |s.threads| && o < |s.threads| && o != t && Acquires(c, s, t, th)
    ensures forall p :: !(HoldsProduct(th, p) && HoldsProduct(s.threads[o], p))
    ensures forall code :: !(HoldsCoupon(c.calls[t], th, code) && HoldsCoupon(c.calls[o], s.threads[o], code))
    ensures forall key :: !(HoldsKey(c.calls[t], th, key) && HoldsKey(c.calls[o], s.threads[o], key))
  {
    assert Apart(c, s, t, o);
    forall p | HoldsProduct(th, p) && HoldsProduct(s.threads[o], p) ensures false { assert ProductBusy(c, s, t, p); }
    forall code | HoldsCoupon(c.calls[t], th, code) && HoldsCoupon(c.calls[o], s.threads[o], code) ensures false {
      assert CouponBusy(c, s, t, code);
    }
    forall key | HoldsKey(c.calls[t], th, key) && HoldsKey(c.calls[o], s.threads[o], key) ensures false {
      assert KeyBusy(c, s, t, key);
    }
  }

  /** The conditional decrement succeeds exactly when the taken prefix stays affordable. */
  lemma DecrementKeeps(c: Config, s: State, t: nat)
    requires Inv(c, s) && t < |s.threads| && AtStock(s.threads[t]) && s.threads[t].pos < |s.threads[t].items|
    requires s.threads[t].items[s.threads[t].pos].product in s.db.products
    requires StockSuffices(s.db, s.threads[t]) ==> !ProductBusy(c, s, t, s.threads[t].items[s.threads[t].pos].product)
    ensures Inv(c, Moved(s, t, Decrement(s.db, c.calls[t], s.threads[t])))
  {
    var th := s.threads[t];
    var after := Decrement(s.db, c.calls[t], th);
    assert ThreadOk(c, s.db, c.calls[t], th);
    if StockSuffices(s.db, th) {
      var taken := th.items[..th.pos + 1];
      assert taken[..|taken| - 1] == th.items[..th.pos];
      AffordableGrows(s.db.products, taken);
      forall p | HoldsProduct(after, p)
        ensures HoldsProduct(th, p) || !ProductBusy(c, s, t, p)
      {
        var i :| 0 <= i < after.pos && th.items[i].product == p;
        if i < th.pos { assert HoldsProduct(th, p); }
      }
    }
    MovedKeepsInv(c, s, t, after);
  }

  lemma AwaitKeeps(c: Config, s: State, t: nat)
    requires Inv(c, s) && t < |s.threads| && s.threads[t].pc.TakeStock?
    ensures Inv(c, Moved(s, t, s.threads[t].(pc := AwaitStock)))
  {
    var th := s.threads[t];
    assert ThreadOk(c, s.db, c.calls[t], th);
    assert forall p :: HoldsProduct(th.(pc := AwaitStock), p) ==> HoldsProduct(th, p);
    MovedKeepsInv(c, s, t, th.(pc := AwaitStock));
  }

  lemma TakeStockKeeps(c: Config, s: State, t: nat)
    requires Inv(c, s) && t < |s.threads| && AtStock(s.threads[t]) && Next(c, s, t).Some?
    ensures Inv(c, Next(c, s, t).value)
  {
    if Next(c, s, t).value.threads[t].pc.AwaitStock? {
      AwaitKeeps(c, s, t);
    } else {
      DecrementKeeps(c, s, t);
    }
  }

  /** Steps outside a transaction, and the one that opens it. */
  lemma ClosedStepOk(c: Config, s: State, t: nat)
    requires Inv(c, s) && t < |s.threads| && !IsOpen(s.threads[t]) && Next(c, s, t).Some?
    ensures ThreadOk(c, s.db, c.calls[t], Next(c, s, t).value.threads[t])
    ensures Acquires(c, s, t, Next(c, s, t).value.threads[t])
  {
    var th := s.threads[t];
    assert ThreadOk(c, s.db, c.calls[t], th);
    assert th.items[..0] == [];
  }

  lemma CouponStepOk(c: Config, s: State, t: nat)
    requires Inv(c, s) && t < |s.threads| && Next(c, s, t).Some?
    requires s.threads[t].pc.ReadCoupon? || AtCoupon(s.threads[t])
    ensures ThreadOk(c, s.db, c.calls[t], Next(c, s, t).value.threads[t])
    ensures Acquires(c, s, t, Next(c, s, t).value.threads[t])
  {
    var th, after := s.threads[t], Next(c, s, t).value.threads[t];
    assert ThreadOk(c, s.db, c.calls[t], th);
    assert forall p :: HoldsProduct(after, p) ==> HoldsProduct(th, p);
  }

  lemma LateStepOk(c: Config, s: State, t: nat)
    requires Inv(c, s) && t < |s.threads| && Next(c, s, t).Some?
    requires s.threads[t].pc.ReadProduct? || s.threads[t].pc.ReadMembership? || s.threads[t].pc.InsertOrder?
             || s.threads[t].pc.Rollback?
    ensures ThreadOk(c, s.db, c.calls[t], Next(c, s, t).value.threads[t])
    ensures Acquires(c, s, t, Next(c, s, t).value.threads[t])
  {
    var th, after := s.threads[t], Next(c, s, t).value.threads[t];
    assert ThreadOk(c, s.db, c.calls[t], th);
    assert forall p :: HoldsProduct(after, p) ==> HoldsProduct(th, p);
    assert forall code :: HoldsCoupon(c.calls[t], after, code) ==> HoldsCoupon(c.calls[t], th, code);
  }

  /** Only a commit changes the tables or the log, and a step moves only its own thread. */
  lemma OnlyCommitWrites(c: Config, s: State, t: nat)
    requires WellFormed(c, s) && t < |s.threads| && Next(c, s, t).Some? && !s.threads[t].pc.Commit?
    ensures var after := Next(c, s, t).value;
            && after.db == s.db && after.log == s.log
            && after.threads == Moved(s, t, after.threads[t]).threads
  {
  }

  lemma StepMovesOne(c: Config, s: State, t: nat)
    requires WellFormed(c, s) && t < |s.threads| && Next(c, s, t).Some?
    ensures var after := Next(c, s, t).value; after.threads == s.threads[t := after.threads[t]]
  {
  }

  lemma OtherStepsKeep(c: Config, s: State, t: nat)
    requires Inv(c, s) && t < |s.threads| && !AtStock(s.threads[t]) && !s.threads[t].pc.Commit?
    requires Next(c, s, t).Some?
    ensures Inv(c, Next(c, s, t).value)
  {
    if !IsOpen(s.threads[t]) {
      ClosedStepOk(c, s, t);
    } else if s.threads[t].pc.ReadCoupon? || AtCoupon(s.threads[t]) {
      CouponStepOk(c, s, t);
    } else {
      LateStepOk(c, s, t);
    }
    OnlyCommitWrites(c, s, t);
    var after := Next(c, s, t).value;
    MovedKeepsInv(c, s, t, after.threads[t]);
    SameThreads(c, Moved(s, t, after.threads[t]), after);
  }

  lemma SameThreads(c: Config, a: State, b: State)
    requires Inv(c, a) && a.threads == b.threads && a.db == b.db
    ensures Inv(c, b)
  {
    forall t, o | 0 <= t < |b.threads| && 0 <= o < |b.threads| && t != o
      ensures Apart(c, b, t, o)
    {
      assert Apart(c, a, t, o);
    }
  }

  // ---- commit -------------------------------------------------------------------------------

  lemma SubtotalSame(a: map<Text, Product>, b: map<Text, Product>, items: seq<Item>)
    requires ItemsFound(a, items) && ItemsFound(b, items)
    requires forall p :: p in a && p in b ==> a[p].price == b[p].price
    ensures Subtotal(a, items) == Subtotal(b, items)
  {
    if items != [] { SubtotalSame(a, b, items[..|items| - 1]); }
  }

  lemma CommittedStock(c: Config, db: Database, call: Call, th: Thread)
    requires ThreadOk(c, db, call, th) && th.pc.Commit?
    ensures Take(db.products, th.items) == Ok(Committed(c, db, call, th).products)
    ensures ItemsFound(db.products, th.items)
  {
    assert th.items[..th.pos] == th.items;
    TakeExact(db.products, th.items);
    TakeTakesDemand(db.products, th.items);
    TakenExist(db.products, th.items);
    assert Take(db.products, th.items).value == Committed(c, db, call, th).products;
  }

  /** Committing is exactly the serial transaction: none of its checks has gone stale. */
  lemma CommitIsPersist(c: Config, db: Database, call: Call, th: Thread)
    requires ThreadOk(c, db, call, th) && th.pc.Commit?
    ensures Persist(c.memberships, db, RequestOf(call, th.items)) == Ok(Committed(c, db, call, th))
  {
    CommittedStock(c, db, call, th);
    var org := OrgOf(c.memberships, UserOf(call));
    var committed, subtotal := Committed(c, db, call, th), Subtotal(db.products, th.items);
    assert SubtotalOf(db, th.items) == subtotal;
    var order := committed.orders[|db.orders|];
    assert Redeem(db.coupons, org, CouponOf(call), NowOf(call), subtotal) == Ok((committed.coupons, order.discount));
    assert order.unitPrices == Prices(db.products, th.items);
  }

  /** A commit changes only rows its own transaction holds. */
  lemma CommitTouchesOwnRows(c: Config, s: State, t: nat)
    requires Inv(c, s) && t < |s.threads| && s.threads[t].pc.Commit?
    ensures var db := Committed(c, s.db, c.calls[t], s.threads[t]);
            && db.products.Keys == s.db.products.Keys && db.coupons.Keys == s.db.coupons.Keys
            && (forall p :: p in s.db.products ==> db.products[p].price == s.db.products[p].price)
            && (forall p :: p in s.db.products && !HoldsProduct(s.threads[t], p) ==> db.products[p] == s.db.products[p])
            && (forall code :: code in s.db.coupons ==>
                  db.coupons[code] == s.db.coupons[code].(usedCount := db.coupons[code].usedCount))
            && (forall code :: code in s.db.coupons && !HoldsCoupon(c.calls[t], s.threads[t], code)
                  ==> db.coupons[code] == s.db.coupons[code])
            && (forall key :: HasKey(db.orders, key) ==> HasKey(s.db.orders, key) || HoldsKey(c.calls[t], s.threads[t], key))
  {
    var th := s.threads[t];
    assert ThreadOk(c, s.db, c.calls[t], th);
    forall p | p in s.db.products && !HoldsProduct(th, p)
      ensures Demand(th.items[..Min(th.pos, |th.items|)], p) == 0
    {
      DemandOfUnlisted(th.items[..Min(th.pos, |th.items|)], p);
    }
  }

  lemma OthersStayOk(c: Config, s: State, t: nat, o: nat)
    requires Inv(c, s) && t < |s.threads| && o < |s.threads| && t != o && s.threads[t].pc.Commit?
    ensures ThreadOk(c, Committed(c, s.db, c.calls[t], s.threads[t]), c.calls[o], s.threads[o])
  {
    CommitTouchesOwnRows(c, s, t);
    var db, th, call := Committed(c, s.db, c.calls[t], s.threads[t]), s.threads[o], c.calls[o];
    assert ThreadOk(c, s.db, call, th) && Apart(c, s, o, t);
    if IsOpen(th) {
      var taken := th.items[..th.pos];
      forall i | 0 <= i < |taken|
        ensures taken[i].product in db.products && Demand(taken, taken[i].product) <= db.products[taken[i].product].stock
      {
        assert HoldsProduct(th, taken[i].product);
      }
      if ItemsFound(s.db.products, th.items) {
        SubtotalSame(s.db.products, db.products, th.items);
      }
      assert SubtotalOf(db, th.items) == SubtotalOf(s.db, th.items);
      if th.redeemed { assert HoldsCoupon(call, th, CouponOf(call).value); }
      if th.pc.Commit? && KeyOf(call).Some? { assert HoldsKey(call, th, KeyOf(call).value); }
    }
  }

  lemma CommitKeeps(c: Config, s: State, t: nat)
    requires Inv(c, s) && t < |s.threads| && s.threads[t].pc.Commit?
    ensures Next(c, s, t).Some? && Inv(c, Next(c, s, t).value)
  {
    var after := Next(c, s, t).value;
    forall o | 0 <= o < |s.threads|
      ensures ThreadOk(c, after.db, c.calls[o], after.threads[o])
    {
      if o != t { OthersStayOk(c, s, t, o); }
    }
    forall a, b | 0 <= a < |s.threads| && 0 <= b < |s.threads| && a != b
      ensures Apart(c, after, a, b)
    {
      assert Apart(c, s, a, b);
    }
  }

  // ---- every run ----------------------------------------------------------------------------

  lemma ApplyKeepsInv(c: Config, s: State, e: Event)
    requires Inv(c, s) && Apply(c, s, e).Some?
    ensures Inv(c, Apply(c, s, e).value)
  {
    match e {
      case Step(t) =>
        if AtStock(s.threads[t]) { TakeStockKeeps(c, s, t); }
        else if s.threads[t].pc.Commit? { CommitKeeps(c, s, t); }
        else { OtherStepsKeep(c, s, t); }
      case Abort(t) =>
        MovedKeepsInv(c, s, t, Apply(c, s, e).value.threads[t]);
      case EditCart(user, items) =>
        SameThreads(c, s, Apply(c, s, e).value);
    }
  }

  lemma InitialInv(c: Config, db: Database, carts: map<Text, seq<Item>>)
    ensures Inv(c, Initial(c, db, carts))
  {
    var s := Initial(c, db, carts);
    forall t, o | 0 <= t < |s.threads| && 0 <= o < |s.threads| && t != o
      ensures Apart(c, s, t, o)
    {
    }
  }

  /** The committed requests executed one after another. */
  function Serial(memberships: Memberships, db: Database, log: seq<Entry>): Result<Database, Error> {
    if log == [] then Ok(db)
    else
      var before :- Serial(memberships, db, log[..|log| - 1]);
      Persist(memberships, before, log[|log| - 1].request)
  }

  lemma SerialGrows(memberships: Memberships, db: Database, log: seq<Entry>, entry: Entry)
    requires Serial(memberships, db, log).Ok?
    ensures Serial(memberships, db, log + [entry]) == Persist(memberships, Serial(memberships, db, log).value, entry.request)
  {
    assert (log + [entry])[..|log|] == log;
  }

  lemma StepIsSerial(c: Config, db0: Database, s: State, e: Event)
    requires Inv(c, s) && Apply(c, s, e).Some? && Serial(c.memberships, db0, s.log) == Ok(s.db)
    ensures var after := Apply(c, s, e).value; Serial(c.memberships, db0, after.log) == Ok(after.db)
  {
    if e.Step? {
      if s.threads[e.t].pc.Commit? {
        assert ThreadOk(c, s.db, c.calls[e.t], s.threads[e.t]);
        CommitIsPersist(c, s.db, c.calls[e.t], s.threads[e.t]);
        SerialGrows(c.memberships, db0, s.log, Entry(e.t, RequestOf(c.calls[e.t], s.threads[e.t].items)));
      } else {
        OnlyCommitWrites(c, s, e.t);
      }
    }
  }

  /** Every run leaves the tables as if the committed requests had run alone, in commit order. */
  lemma {:induction false} Serializable(c: Config, db0: Database, carts: map<Text, seq<Item>>, events: seq<Event>)
    requires Run(c, Initial(c, db0, carts), events).Some?
    ensures var s := Run(c, Initial(c, db0, carts), events).value;
            Inv(c, s) && Serial(c.memberships, db0, s.log) == Ok(s.db)
  {
    InitialInv(c, db0, carts);
    if events != [] {
      var e := events[|events| - 1];
      Serializable(c, db0, carts, events[..|events| - 1]);
      var before := Run(c, Initial(c, db0, carts), events[..|events| - 1]).value;
      ApplyKeepsInv(c, before, e);
      StepIsSerial(c, db0, before, e);
    }
  }

  // ---- conservation -------------------------------------------------------------------------

  /** How much of `p` the orders from index `from` on took. */
  function Sold(orders: seq<Order>, from: nat, p: Text): nat
    requires from <= |orders|
  {
    if |orders| == from then 0
    else Sold(orders[..|orders| - 1], from, p) + Demand(orders[|orders| - 1].items, p)
  }

  /** How many orders from index `from` on carry the non-empty code. */
  function Redemptions(orders: seq<Order>, from: nat, code: Text): nat
    requires from <= |orders|
  {
    if |orders| == from then 0
    else Redemptions(orders[..|orders| - 1], from, code)
         + (if code != [] && orders[|orders| - 1].coupon == Some(code) then 1 else 0)
  }

  ghost predicate UniqueKeys(orders: seq<Order>, from: nat) {
    forall i, j :: 0 <= i < j < |orders| && from <= j && orders[j].key.Some? ==> orders[i].key != orders[j].key
  }

  ghost predicate StockConserved(db0: Database, db: Database) {
    var n := |db0.orders|;
    && n <= |db.orders| && db.orders[..n] == db0.orders
    && db.products.Keys == db0.products.Keys
    && forall p :: p in db0.products ==>
         && db.products[p].stock + Sold(db.orders, n, p) == db0.products[p].stock
         && (db0.products[p].stock >= 0 ==> db.products[p].stock >= 0)
         && db.products[p].price == db0.products[p].price
  }

  ghost predicate CouponsConserved(db0: Database, db: Database) {
    var n := |db0.orders|;
    && n <= |db.orders|
    && db.coupons.Keys == db0.coupons.Keys
    && forall code :: code in db0.coupons ==>
         && db.coupons[code].usedCount == db0.coupons[code].usedCount + Redemptions(db.orders, n, code)
         && db.coupons[code].usageLimit == db0.coupons[code].usageLimit
         && (db0.coupons[code].usedCount <= db0.coupons[code].usageLimit
             ==> db.coupons[code].usedCount <= db.coupons[code].usageLimit)
  }

  ghost predicate Conserved(db0: Database, db: Database) {
    StockConserved(db0, db) && CouponsConserved(db0, db) && UniqueKeys(db.orders, |db0.orders|)
  }

  lemma PersistConservesStock(memberships: Memberships, db0: Database, db: Database, request: Request)
    requires StockConserved(db0, db) && Persist(memberships, db, request).Ok?
    ensures StockConserved(db0, Persist(memberships, db, request).value)
  {
    var after := Persist(memberships, db, request).value;
    assert after.orders[..|after.orders| - 1] == db.orders;
    TakeTakesDemand(db.products, request.items);
    TakeExact(db.products, request.items);
    TakenExist(db.products, request.items);
    forall p | p in db0.products && db0.products[p].stock >= 0
      ensures after.products[p].stock >= 0
    {
      if i :| 0 <= i < |request.items| && request.items[i].product == p {
        assert Demand(request.items, p) <= db.products[p].stock;
      } else {
        DemandOfUnlisted(request.items, p);
      }
    }
  }

  lemma PersistConservesCoupons(memberships: Memberships, db0: Database, db: Database, request: Request)
    requires CouponsConserved(db0, db) && Persist(memberships, db, request).Ok?
    ensures CouponsConserved(db0, Persist(memberships, db, request).value)
  {
    var after := Persist(memberships, db, request).value;
    assert after.orders[..|after.orders| - 1] == db.orders;
    assert after.orders[|after.orders| - 1].coupon == request.coupon;
  }

  lemma PersistKeepsKeysUnique(memberships: Memberships, db: Database, request: Request, from: nat)
    requires UniqueKeys(db.orders, from) && Persist(memberships, db, request).Ok?
    ensures UniqueKeys(Persist(memberships, db, request).value.orders, from)
  {
    var all := Persist(memberships, db, request).value.orders;
    forall i, j | 0 <= i < j < |all| && from <= j && all[j].key.Some?
      ensures all[i].key != all[j].key
    {
      if j == |db.orders| { assert all[j].key == request.key && all[i] == db.orders[i]; }
    }
  }

  lemma {:induction false} SerialConserves(memberships: Memberships, db0: Database, log: seq<Entry>)
    requires Serial(memberships, db0, log).Ok?
    ensures Conserved(db0, Serial(memberships, db0, log).value)
    ensures |Serial(memberships, db0, log).value.orders| == |db0.orders| + |log|
  {
    if log != [] {
      SerialConserves(memberships, db0, log[..|log| - 1]);
      var before, request := Serial(memberships, db0, log[..|log| - 1]).value, log[|log| - 1].request;
      PersistConservesStock(memberships, db0, before, request);
      PersistConservesCoupons(memberships, db0, before, request);
      PersistKeepsKeysUnique(memberships, before, request, |db0.orders|);
    }
  }

  /**
    In every run: stock plus what committed orders took is the initial stock, and never negative;
    a coupon's count is the number of committed orders carrying its code, and never passes its
    limit; committed orders never share a key.
  */
  lemma EveryRunConserves(c: Config, db0: Database, carts: map<Text, seq<Item>>, events: seq<Event>)
    requires Run(c, Initial(c, db0, carts), events).Some?
    ensures Conserved(db0, Run(c, Initial(c, db0, carts), events).value.db)
  {
    Serializable(c, db0, carts, events);
    SerialConserves(c.memberships, db0, Run(c, Initial(c, db0, carts), events).value.log);
  }
}
