/**
  When order placements can deadlock, exactly: for any requests, any stock and any pool, a state in
  which no open transaction can step is reachable if and only if some of the requests can have taken
  a first part of their lines each, no two of them a common product, such that the next line of each,
  which the stock covers, names a product another one has taken (apiV2/src/orders/orders.service.ts).
*/
module Deadlock {
  import opened Wrappers
  import opened Bytes
  import opened Orders
  import opened OrderMachine
  import opened OrderSafety
  import opened OrderAlone
  import OrderProgress
  import Cart

  /** Transactions are open, and none of them can take its next statement. */
  ghost predicate Stuck(c: Config, s: State)
    requires WellFormed(c, s)
  {
    && (exists t :: 0 <= t < |s.threads| && IsOpen(s.threads[t]))
    && (forall t | 0 <= t < |s.threads| && IsOpen(s.threads[t]) :: Next(c, s, t).None?)
  }

  /** The transaction waits for the row of a product that another one holds. */
  ghost predicate Waits(c: Config, s: State, t: nat)
    requires WellFormed(c, s) && t < |s.threads|
  {
    var th := s.threads[t];
    th.pc.AwaitStock? && th.pos < |th.items| && ProductBusy(c, s, t, th.items[th.pos].product)
  }

  lemma CommitSteps(c: Config, s: State, t: nat)
    requires WellFormed(c, s) && t < |s.threads| && s.threads[t].pc.Commit?
    ensures Next(c, s, t).Some?
  {
  }

  /** Nobody waits for a key while all are stuck: who holds one can commit. */
  lemma NoneInserts(c: Config, s: State, t: nat)
    requires WellFormed(c, s) && Stuck(c, s) && t < |s.threads|
    ensures !s.threads[t].pc.InsertOrder?
  {
    if s.threads[t].pc.InsertOrder? {
      assert KeyBusy(c, s, t, KeyOf(c.calls[t]).value);
      var o :| 0 <= o < |s.threads| && o != t && HoldsKey(c.calls[o], s.threads[o], KeyOf(c.calls[t]).value);
      CommitSteps(c, s, o);
    }
  }

  /** Nor for a coupon: who holds one is past the statements that wait for products. */
  lemma NoneRedeems(c: Config, s: State, t: nat)
    requires Inv(c, s) && Stuck(c, s) && !c.secondConnection && t < |s.threads|
    ensures !AtCoupon(s.threads[t])
  {
    assert ThreadOk(c, s.db, c.calls[t], s.threads[t]);
    if AtCoupon(s.threads[t]) {
      assert CouponBusy(c, s, t, CouponOf(c.calls[t]).value);
      var o :| 0 <= o < |s.threads| && o != t && HoldsCoupon(c.calls[o], s.threads[o], CouponOf(c.calls[t]).value);
      assert ThreadOk(c, s.db, c.calls[o], s.threads[o]);
      NoneInserts(c, s, o);
    }
  }

  lemma StuckWaits(c: Config, s: State, t: nat)
    requires Inv(c, s) && Stuck(c, s) && !c.secondConnection && t < |s.threads| && IsOpen(s.threads[t])
    ensures Waits(c, s, t)
  {
    assert ThreadOk(c, s.db, c.calls[t], s.threads[t]);
    NoneInserts(c, s, t);
    NoneRedeems(c, s, t);
  }

  lemma WaitsIsStill(c: Config, s: State, t: nat)
    requires WellFormed(c, s) && t < |s.threads| && Waits(c, s, t)
    ensures Next(c, s, t).None?
  {
  }

  /** Stuck is exactly: every open transaction waits for a product that another open one holds. */
  lemma StuckExactly(c: Config, s: State)
    requires Inv(c, s) && !c.secondConnection
    ensures Stuck(c, s) <==>
              && (exists t :: 0 <= t < |s.threads| && IsOpen(s.threads[t]))
              && (forall t | 0 <= t < |s.threads| && IsOpen(s.threads[t]) :: Waits(c, s, t))
  {
    forall t | 0 <= t < |s.threads| && IsOpen(s.threads[t])
      ensures Stuck(c, s) ==> Waits(c, s, t)
      ensures Waits(c, s, t) ==> Next(c, s, t).None?
    {
      if Stuck(c, s) { StuckWaits(c, s, t); }
      if Waits(c, s, t) { WaitsIsStill(c, s, t); }
    }
  }

  // ---- for ever -----------------------------------------------------------------------------

  predicate SameOpen(s: State, after: State) {
    |after.threads| == |s.threads|
    && forall t :: 0 <= t < |s.threads| && IsOpen(s.threads[t]) ==> after.threads[t] == s.threads[t]
  }

  lemma StillWaits(c: Config, s: State, after: State, t: nat)
    requires WellFormed(c, s) && WellFormed(c, after) && SameOpen(s, after)
    requires t < |s.threads| && IsOpen(s.threads[t]) && Waits(c, s, t)
    ensures Next(c, after, t).None?
  {
    var p := s.threads[t].items[s.threads[t].pos].product;
    var o :| 0 <= o < |s.threads| && o != t && HoldsProduct(s.threads[o], p);
    assert HoldsProduct(after.threads[o], p);
    assert ProductBusy(c, after, t, p);
  }

  predicate SparesOpen(s: State, e: Event) { e.Abort? ==> e.t >= |s.threads| || !IsOpen(s.threads[e.t]) }

  lemma EventKeepsStuck(c: Config, s: State, before: State, e: Event)
    requires Inv(c, s) && Stuck(c, s) && !c.secondConnection
    requires WellFormed(c, before) && SameOpen(s, before) && SparesOpen(s, e) && Apply(c, before, e).Some?
    ensures SameOpen(s, Apply(c, before, e).value)
  {
    if e.Step? {
      if IsOpen(s.threads[e.t]) {
        StuckWaits(c, s, e.t);
        StillWaits(c, s, before, e.t);
      }
      StepMovesOne(c, before, e.t);
    }
  }

  /** Unless one of them is aborted, stuck transactions never move again, whatever else happens. */
  lemma {:induction false} StuckForever(c: Config, s: State, events: seq<Event>)
    requires Inv(c, s) && Stuck(c, s) && !c.secondConnection && Run(c, s, events).Some?
    requires forall e :: e in events ==> SparesOpen(s, e)
    ensures SameOpen(s, Run(c, s, events).value)
  {
    if events != [] {
      var front := events[..|events| - 1];
      assert forall e :: e in front ==> e in events;
      StuckForever(c, s, front);
      EventKeepsStuck(c, s, Run(c, s, front).value, events[|events| - 1]);
    }
  }

  // ---- crossing requests --------------------------------------------------------------------

  predicate Names(items: seq<Item>, n: nat, p: Text) { exists i :: 0 <= i < n && i < |items| && items[i].product == p }

  /** The lines each request places. */
  type Lines = seq<seq<Item>>

  /** Which requests take part, and how many of its lines each has taken. */
  type Positions = seq<Option<nat>>

  function Count(pos: Positions): nat {
    if pos == [] then 0 else Count(pos[..|pos| - 1]) + (if pos[|pos| - 1].Some? then 1 else 0)
  }

  /** A request's own lines; for a checkout those of its cart, or any others the shopper can put there. */
  ghost predicate CanPlace(call: Call, carts: map<Text, seq<Item>>, edits: bool, items: seq<Item>) {
    match call
    case Create(r) => items == r.items
    case Checkout(user, _, _, _) => items != [] && (edits || items == Cart.LinesOf(carts, user))
  }

  /** It can come to its line `n` while nothing commits: that much stock is there and its key is unused. */
  ghost predicate CanTake(call: Call, db: Database, items: seq<Item>, n: nat) {
    && n < |items| && Affordable(db.products, items[..n + 1])
    && (Truthy(KeyOf(call)) ==> !HasKey(db.orders, KeyOf(call).value))
  }

  ghost predicate DisjointFrom(lines: Lines, pos: Positions, t: nat, o: nat)
    requires |pos| == |lines| && t < |pos| && o < |pos| && pos[t].Some? && pos[o].Some?
  {
    forall p :: !(Names(lines[t], pos[t].value, p) && Names(lines[o], pos[o].value, p))
  }

  /** The product request `t` asks for next has been taken by request `o`. */
  ghost predicate AsksFor(lines: Lines, pos: Positions, t: nat, o: nat)
    requires |pos| == |lines| && t < |pos| && o < |pos| && pos[t].Some? && pos[o].Some?
  {
    pos[t].value < |lines[t]| && Names(lines[o], pos[o].value, lines[t][pos[t].value].product)
  }

  ghost predicate Blocked(lines: Lines, pos: Positions, t: nat)
    requires |pos| == |lines| && t < |pos| && pos[t].Some?
  {
    exists o :: 0 <= o < |pos| && o != t && pos[o].Some? && AsksFor(lines, pos, t, o)
  }

  ghost predicate ApartFromAll(lines: Lines, pos: Positions, t: nat)
    requires |pos| == |lines| && t < |pos| && pos[t].Some?
  {
    forall o | 0 <= o < |pos| && o != t && pos[o].Some? :: DisjointFrom(lines, pos, t, o)
  }

  /** Where a run starts: the tables, the carts, and whether shoppers edit carts meanwhile. */
  datatype Start = Start(db: Database, carts: map<Text, seq<Item>>, edits: bool)

  ghost predicate TakesPart(c: Config, from: Start, lines: Lines, pos: Positions, t: nat)
    requires |pos| == |lines| == |c.calls| && t < |pos|
  {
    pos[t].Some? ==>
      && CanPlace(c.calls[t], from.carts, from.edits, lines[t]) && CanTake(c.calls[t], from.db, lines[t], pos[t].value)
      && Blocked(lines, pos, t) && ApartFromAll(lines, pos, t)
  }

  /** Requests that cross: at these positions they hold disjoint products and all ask for one another's. */
  ghost predicate Crossing(c: Config, from: Start, lines: Lines, pos: Positions) {
    && |pos| == |lines| == |c.calls| && Count(pos) <= c.pool
    && (exists t :: 0 <= t < |pos| && pos[t].Some?)
    && (forall t :: 0 <= t < |pos| ==> TakesPart(c, from, lines, pos, t))
  }

  // ---- a stuck state shows crossing requests ------------------------------------------------

  lemma {:induction false} OpenCountMoves(threads: seq<Thread>, t: nat, th: Thread)
    requires t < |threads|
    ensures OpenCount(threads[t := th]) + (if IsOpen(threads[t]) then 1 else 0)
            == OpenCount(threads) + (if IsOpen(th) then 1 else 0)
  {
    var n := |threads| - 1;
    if t == n {
      assert threads[t := th][..n] == threads[..n];
    } else {
      assert threads[t := th][..n] == threads[..n][t := th];
      OpenCountMoves(threads[..n], t, th);
    }
  }

  /**
    Every open transaction has a connection of the pool, carts hold what they held or nothing unless they
    are edited, and requests place what they can.
  */
  ghost predicate Bounded(c: Config, from: Start, s: State)
    requires WellFormed(c, s)
  {
    && OpenCount(s.threads) <= c.pool
    && CartsBounded(from, s.carts)
    && forall t :: 0 <= t < |s.threads| ==> ThreadBounded(c.calls[t], from, s.threads[t])
  }

  ghost predicate CartsBounded(from: Start, carts: map<Text, seq<Item>>) {
    from.edits || forall u :: u in carts ==> carts[u] == [] || carts[u] == Cart.LinesOf(from.carts, u)
  }

  /** The request is past reading its cart and not yet answered. */
  predicate Placing(th: Thread) { IsOpen(th) || th.pc.Begin? || th.pc.Lookup? }

  ghost predicate ThreadBounded(call: Call, from: Start, th: Thread) {
    && (th.pc.FirstLookup? || th.pc.ReadCart? ==> call.Checkout?)
    && (Placing(th) ==> CanPlace(call, from.carts, from.edits, th.items))
    && ((IsOpen(th) || th.pc.Begin?) && Truthy(KeyOf(call)) ==> !HasKey(from.db.orders, KeyOf(call).value))
    && (th.pc.AwaitStock? ==> th.pos < |th.items| && Affordable(from.db.products, th.items[..th.pos + 1]))
  }

  ghost predicate StepBounded(c: Config, from: Start, s: State, t: nat)
    requires WellFormed(c, s) && t < |s.threads|
  {
    Next(c, s, t).Some? ==> |Next(c, s, t).value.threads| == |s.threads|
                            && ThreadBounded(c.calls[t], from, Next(c, s, t).value.threads[t])
  }

  lemma LookupBounded(c: Config, from: Start, s: State, t: nat)
    requires WellFormed(c, s) && t < |s.threads| && ThreadBounded(c.calls[t], from, s.threads[t])
    requires s.threads[t].pc.Lookup? && from.db.orders <= s.db.orders
    ensures StepBounded(c, from, s, t)
  {
    if Truthy(KeyOf(c.calls[t])) && !HasKey(s.db.orders, KeyOf(c.calls[t]).value) {
      assert forall i :: 0 <= i < |from.db.orders| ==> from.db.orders[i] == s.db.orders[i];
    }
  }

  lemma CartBounded(c: Config, from: Start, s: State, t: nat)
    requires WellFormed(c, s) && t < |s.threads| && ThreadBounded(c.calls[t], from, s.threads[t])
    requires s.threads[t].pc.FirstLookup? || s.threads[t].pc.ReadCart?
    requires CartsBounded(from, s.carts)
    ensures StepBounded(c, from, s, t)
  {
  }

  /** Stock only falls, so what is affordable later was affordable at first. */
  lemma WasAffordable(db0: Database, db: Database, items: seq<Item>)
    requires StockConserved(db0, db) && Affordable(db.products, items)
    ensures Affordable(db0.products, items)
  {
  }

  /** Who begins to wait has seen stock enough. */
  lemma AwaitBounded(c: Config, from: Start, s: State, t: nat)
    requires Inv(c, s) && t < |s.threads| && ThreadBounded(c.calls[t], from, s.threads[t])
    requires s.threads[t].pc.TakeStock? && StockConserved(from.db, s.db)
    ensures StepBounded(c, from, s, t)
  {
    var th := s.threads[t];
    assert ThreadOk(c, s.db, c.calls[t], th);
    if StockSuffices(s.db, th) {
      var taken := th.items[..th.pos + 1];
      assert taken[..th.pos] == th.items[..th.pos];
      AffordableGrows(s.db.products, taken);
      WasAffordable(from.db, s.db, taken);
    }
  }

  /** Past its lookups a request keeps its lines, and opens its transaction from BEGIN only. */
  ghost predicate Onward(th: Thread, next: Thread) {
    && next.items == th.items && !next.pc.FirstLookup? && !next.pc.ReadCart? && !next.pc.Begin? && !next.pc.Lookup?
    && !next.pc.AwaitStock?
    && (IsOpen(next) ==> IsOpen(th) || th.pc.Begin?)
  }

  lemma OpenOnward(c: Config, s: State, t: nat)
    requires WellFormed(c, s) && t < |s.threads| && Next(c, s, t).Some? && IsOpen(s.threads[t]) && !s.threads[t].pc.TakeStock?
    ensures Onward(s.threads[t], Next(c, s, t).value.threads[t])
  {
  }

  lemma ClosedOnward(c: Config, s: State, t: nat)
    requires WellFormed(c, s) && t < |s.threads| && Next(c, s, t).Some? && !IsOpen(s.threads[t])
    requires !s.threads[t].pc.FirstLookup? && !s.threads[t].pc.ReadCart? && !s.threads[t].pc.Lookup?
    ensures Onward(s.threads[t], Next(c, s, t).value.threads[t])
  {
  }

  lemma OtherBounded(c: Config, from: Start, s: State, t: nat)
    requires WellFormed(c, s) && t < |s.threads| && ThreadBounded(c.calls[t], from, s.threads[t])
    requires !s.threads[t].pc.Lookup? && !s.threads[t].pc.FirstLookup? && !s.threads[t].pc.ReadCart?
    requires !s.threads[t].pc.TakeStock?
    ensures StepBounded(c, from, s, t)
  {
    if Next(c, s, t).Some? {
      StepMovesOne(c, s, t);
      if IsOpen(s.threads[t]) { OpenOnward(c, s, t); } else { ClosedOnward(c, s, t); }
    }
  }

  lemma ThreadStaysBounded(c: Config, from: Start, s: State, t: nat)
    requires Inv(c, s) && Bounded(c, from, s) && t < |s.threads| && StockConserved(from.db, s.db)
    requires from.db.orders <= s.db.orders
    ensures StepBounded(c, from, s, t)
  {
    var pc := s.threads[t].pc;
    if pc.Lookup? {
      LookupBounded(c, from, s, t);
    } else if pc.FirstLookup? || pc.ReadCart? {
      CartBounded(c, from, s, t);
    } else if pc.TakeStock? {
      AwaitBounded(c, from, s, t);
    } else {
      OtherBounded(c, from, s, t);
    }
  }

  /** Only BEGIN opens a transaction, and it takes a free connection. */
  lemma BeginOpens(c: Config, s: State, t: nat)
    requires WellFormed(c, s) && t < |s.threads| && Next(c, s, t).Some?
    requires !IsOpen(s.threads[t]) && IsOpen(Next(c, s, t).value.threads[t])
    ensures OpenCount(s.threads) < c.pool
  {
  }

  /** Requests only empty carts. */
  lemma CartsStayBounded(c: Config, from: Start, s: State, t: nat)
    requires WellFormed(c, s) && t < |s.threads| && Next(c, s, t).Some? && CartsBounded(from, s.carts)
    ensures CartsBounded(from, Next(c, s, t).value.carts)
  {
    if IsOpen(s.threads[t]) { OrderProgress.OpenItems(c, s, t); } else { OrderProgress.ClosedItems(c, s, t); }
  }

  predicate EditAllowed(from: Start, e: Event) { e.EditCart? ==> from.edits }

  lemma StepStaysBounded(c: Config, from: Start, s: State, t: nat)
    requires Inv(c, s) && Bounded(c, from, s) && t < |s.threads| && StockConserved(from.db, s.db)
    requires from.db.orders <= s.db.orders && Next(c, s, t).Some?
    ensures WellFormed(c, Next(c, s, t).value) && Bounded(c, from, Next(c, s, t).value)
  {
    var after := Next(c, s, t).value;
    StepMovesOne(c, s, t);
    ThreadStaysBounded(c, from, s, t);
    CartsStayBounded(c, from, s, t);
    OpenCountMoves(s.threads, t, after.threads[t]);
    if !IsOpen(s.threads[t]) && IsOpen(after.threads[t]) { BeginOpens(c, s, t); }
  }

  lemma EventBounded(c: Config, from: Start, s: State, e: Event)
    requires Inv(c, s) && Bounded(c, from, s) && StockConserved(from.db, s.db) && from.db.orders <= s.db.orders
    requires EditAllowed(from, e) && Apply(c, s, e).Some?
    ensures WellFormed(c, Apply(c, s, e).value) && Bounded(c, from, Apply(c, s, e).value)
  {
    match e {
      case Step(t) => StepStaysBounded(c, from, s, t);
      case Abort(t) => OpenCountMoves(s.threads, t, Apply(c, s, e).value.threads[t]);
      case EditCart(_, _) =>
    }
  }

  lemma {:induction false} NoneOpenYet(threads: seq<Thread>)
    requires forall t :: 0 <= t < |threads| ==> !IsOpen(threads[t])
    ensures OpenCount(threads) == 0
  {
    if threads != [] { NoneOpenYet(threads[..|threads| - 1]); }
  }

  /** The events of a run from `from`: anything, cart edits only if there are any. */
  ghost predicate Allowed(from: Start, events: seq<Event>) { forall i :: 0 <= i < |events| ==> EditAllowed(from, events[i]) }

  lemma {:induction false} EveryRunBounded(c: Config, from: Start, events: seq<Event>)
    requires Allowed(from, events) && Run(c, Initial(c, from.db, from.carts), events).Some?
    ensures Bounded(c, from, Run(c, Initial(c, from.db, from.carts), events).value)
  {
    if events == [] {
      NoneOpenYet(Initial(c, from.db, from.carts).threads);
    } else {
      var front := events[..|events| - 1];
      EveryRunBounded(c, from, front);
      Serializable(c, from.db, from.carts, front);
      EveryRunConserves(c, from.db, from.carts, front);
      EventBounded(c, from, Run(c, Initial(c, from.db, from.carts), front).value, events[|events| - 1]);
    }
  }

  /** Where the open transactions are, and what requests place. */
  function PositionsOf(threads: seq<Thread>): Positions {
    seq(|threads|, i requires 0 <= i < |threads| => if IsOpen(threads[i]) then Some(threads[i].pos) else None)
  }

  function LinesOf(threads: seq<Thread>): Lines {
    seq(|threads|, i requires 0 <= i < |threads| => threads[i].items)
  }

  lemma {:induction false} CountIsOpen(threads: seq<Thread>)
    ensures Count(PositionsOf(threads)) == OpenCount(threads)
  {
    if threads != [] {
      var n := |threads| - 1;
      assert PositionsOf(threads)[..n] == PositionsOf(threads[..n]);
      CountIsOpen(threads[..n]);
    }
  }

  lemma StuckBlocked(c: Config, s: State, t: nat)
    requires WellFormed(c, s) && t < |s.threads| && IsOpen(s.threads[t]) && Waits(c, s, t)
    ensures Blocked(LinesOf(s.threads), PositionsOf(s.threads), t)
  {
    var th, lines, pos := s.threads[t], LinesOf(s.threads), PositionsOf(s.threads);
    var p := th.items[th.pos].product;
    var o :| 0 <= o < |s.threads| && o != t && HoldsProduct(s.threads[o], p);
    assert pos[o] == Some(s.threads[o].pos) && Names(lines[o], pos[o].value, p);
    assert AsksFor(lines, pos, t, o);
  }

  lemma OpenAreDisjoint(c: Config, s: State, t: nat, o: nat)
    requires Inv(c, s) && t < |s.threads| && o < |s.threads| && t != o
    requires IsOpen(s.threads[t]) && IsOpen(s.threads[o])
    ensures DisjointFrom(LinesOf(s.threads), PositionsOf(s.threads), t, o)
  {
    assert Apart(c, s, t, o);
    forall p | Names(s.threads[t].items, s.threads[t].pos, p)
      ensures !Names(s.threads[o].items, s.threads[o].pos, p)
    {
      assert HoldsProduct(s.threads[t], p);
    }
  }

  lemma StuckTakesPart(c: Config, from: Start, s: State, t: nat)
    requires Inv(c, s) && Bounded(c, from, s) && Stuck(c, s) && !c.secondConnection
    requires t < |s.threads| && IsOpen(s.threads[t])
    ensures TakesPart(c, from, LinesOf(s.threads), PositionsOf(s.threads), t)
  {
    var pos := PositionsOf(s.threads);
    StuckWaits(c, s, t);
    assert ThreadBounded(c.calls[t], from, s.threads[t]);
    StuckBlocked(c, s, t);
    forall o | 0 <= o < |pos| && o != t && pos[o].Some?
      ensures DisjointFrom(LinesOf(s.threads), pos, t, o)
    {
      OpenAreDisjoint(c, s, t, o);
    }
  }

  lemma StuckShowsCrossing(c: Config, from: Start, s: State)
    requires Inv(c, s) && Bounded(c, from, s) && Stuck(c, s) && !c.secondConnection
    ensures Crossing(c, from, LinesOf(s.threads), PositionsOf(s.threads))
  {
    var pos := PositionsOf(s.threads);
    CountIsOpen(s.threads);
    var u :| 0 <= u < |s.threads| && IsOpen(s.threads[u]);
    assert pos[u].Some?;
    forall t | 0 <= t < |pos|
      ensures TakesPart(c, from, LinesOf(s.threads), pos, t)
    {
      if pos[t].Some? { StuckTakesPart(c, from, s, t); }
    }
  }

  // ---- crossing requests can get stuck ------------------------------------------------------

  /** The thread has taken `i` of its lines and looks for the next one. */
  function Looking(s: State, t: nat, i: nat): State
    requires t < |s.threads|
  {
    Moved(s, t, Thread(ReadProduct, s.threads[t].items, i, false))
  }

  function Asking(s: State, t: nat, i: nat): State
    requires t < |s.threads|
  {
    Moved(s, t, Thread(TakeStock, s.threads[t].items, i, false))
  }

  /** Nobody else holds one of the first `n` products of the thread. */
  ghost predicate FreeUpTo(s: State, t: nat, n: nat)
    requires t < |s.threads|
  {
    forall o, i | 0 <= o < |s.threads| && o != t && 0 <= i < n && i < |s.threads[t].items| ::
      !HoldsProduct(s.threads[o], s.threads[t].items[i].product)
  }

  lemma LooksUp(c: Config, s: State, t: nat, i: nat)
    requires WellFormed(c, s) && t < |s.threads| && i < |s.threads[t].items|
    requires s.threads[t].items[i].product in s.db.products
    ensures Next(c, Looking(s, t, i), t) == Some(Asking(s, t, i))
  {
    MovedTwice(s, t, Looking(s, t, i).threads[t], Asking(s, t, i).threads[t]);
  }

  /** A line whose stock covers it and whose row is free is taken. */
  lemma TakesLine(c: Config, s: State, t: nat, i: nat)
    requires WellFormed(c, s) && t < |s.threads| && i + 1 < |s.threads[t].items| && FreeUpTo(s, t, i + 1)
    requires Affordable(s.db.products, s.threads[t].items[..i + 1])
    ensures Next(c, Asking(s, t, i), t) == Some(Looking(s, t, i + 1))
  {
    var items, asking := s.threads[t].items, Asking(s, t, i);
    var p := items[i].product;
    assert items[..i + 1][i] == items[i];
    assert items[..i + 1][..i] == items[..i];
    assert !ProductBusy(c, asking, t, p);
    MovedTwice(s, t, asking.threads[t], Looking(s, t, i + 1).threads[t]);
  }

  lemma AffordableFront(products: map<Text, Product>, items: seq<Item>, n: nat, i: nat)
    requires n <= |items| && i <= n && Affordable(products, items[..n])
    ensures Affordable(products, items[..i])
  {
    forall j | 0 <= j < i
      ensures items[j].product in products && Demand(items[..i], items[j].product) <= products[items[j].product].stock
    {
      assert items[..n][j] == items[j];
      DemandGrows(items, i, n, items[j].product);
    }
  }

  lemma {:induction false} DemandGrows(items: seq<Item>, i: nat, n: nat, p: Text)
    requires i <= n <= |items|
    ensures Demand(items[..i], p) <= Demand(items[..n], p)
  {
    if i < n {
      assert items[..n][..n - 1] == items[..n - 1];
      DemandGrows(items, i, n - 1, p);
    }
  }

  /** The thread takes lines `i` to `n` and asks for the one after them. */
  lemma {:induction false} TakesLines(c: Config, s: State, t: nat, i: nat, n: nat) returns (events: seq<Event>)
    requires WellFormed(c, s) && t < |s.threads| && i <= n < |s.threads[t].items| && FreeUpTo(s, t, n)
    requires Affordable(s.db.products, s.threads[t].items[..n]) && s.threads[t].items[n].product in s.db.products
    ensures Run(c, Looking(s, t, i), events) == Some(Asking(s, t, n)) && OnlyBy(events, t)
    decreases n - i
  {
    if i == n {
      LooksUp(c, s, t, n);
      OneStep(c, Looking(s, t, n), t);
      events := [Step(t)];
    } else {
      assert s.threads[t].items[..n][i] == s.threads[t].items[i];
      AffordableFront(s.db.products, s.threads[t].items, n, i + 1);
      LooksUp(c, s, t, i);
      TakesLine(c, s, t, i);
      var rest := TakesLines(c, s, t, i + 1, n);
      StepThen(c, Asking(s, t, i), t, Looking(s, t, i + 1), rest, Asking(s, t, n));
      StepThen(c, Looking(s, t, i), t, Asking(s, t, i), [Step(t)] + rest, Asking(s, t, n));
      events := [Step(t)] + ([Step(t)] + rest);
    }
  }

  /** The thread is outside its transaction, with these lines. */
  function Early(s: State, t: nat, pc: Pc, items: seq<Item>): State
    requires t < |s.threads|
  {
    Moved(s, t, Thread(pc, items, 0, false))
  }

  lemma EarlyIsFree(c: Config, s: State, t: nat, pc: Pc, items: seq<Item>)
    requires t < |s.threads| && FreeConnection(c, s) && !IsOpen(s.threads[t])
    requires pc.FirstLookup? || pc.ReadCart? || pc.Lookup? || pc.Begin?
    ensures FreeConnection(c, Early(s, t, pc, items))
  {
    OpenCountMoves(s.threads, t, Thread(pc, items, 0, false));
  }

  lemma Begins(c: Config, s: State, t: nat, items: seq<Item>)
    requires WellFormed(c, s) && t < |s.threads| && FreeConnection(c, s) && items != [] && !IsOpen(s.threads[t])
    ensures Next(c, Early(s, t, Begin, items), t) == Some(Looking(Early(s, t, Begin, items), t, 0))
  {
    EarlyIsFree(c, s, t, Begin, items);
  }

  lemma LooksUpKey(c: Config, s: State, t: nat, items: seq<Item>)
    requires WellFormed(c, s) && t < |s.threads| && FreeConnection(c, s) && !IsOpen(s.threads[t])
    requires Truthy(KeyOf(c.calls[t])) && !HasKey(s.db.orders, KeyOf(c.calls[t]).value)
    ensures Next(c, Early(s, t, Lookup, items), t) == Some(Early(s, t, Begin, items))
    ensures Next(c, Early(s, t, FirstLookup, items), t) == Some(Early(s, t, ReadCart, items))
  {
    EarlyIsFree(c, s, t, Lookup, items);
    EarlyIsFree(c, s, t, FirstLookup, items);
    MovedTwice(s, t, Thread(Lookup, items, 0, false), Thread(Begin, items, 0, false));
    MovedTwice(s, t, Thread(FirstLookup, items, 0, false), Thread(ReadCart, items, 0, false));
  }

  lemma ReadsCart(c: Config, s: State, t: nat, items: seq<Item>)
    requires WellFormed(c, s) && t < |s.threads| && FreeConnection(c, s) && !IsOpen(s.threads[t])
    requires items != [] && items == Cart.LinesOf(s.carts, UserOf(c.calls[t]))
    ensures Next(c, Early(s, t, ReadCart, []), t) == Some(Early(s, t, EnterCreate(c.calls[t]), items))
  {
    EarlyIsFree(c, s, t, ReadCart, []);
    MovedTwice(s, t, Thread(ReadCart, [], 0, false), Thread(EnterCreate(c.calls[t]), items, 0, false));
  }

  /** The request's key, if it has one, is unused. */
  predicate KeyIsNew(call: Call, db: Database) { Truthy(KeyOf(call)) ==> !HasKey(db.orders, KeyOf(call).value) }

  lemma EntersCreate(c: Config, s: State, t: nat, items: seq<Item>) returns (events: seq<Event>)
    requires WellFormed(c, s) && t < |s.threads| && FreeConnection(c, s) && !IsOpen(s.threads[t])
    requires KeyIsNew(c.calls[t], s.db)
    ensures Run(c, Early(s, t, EnterCreate(c.calls[t]), items), events) == Some(Early(s, t, Begin, items))
    ensures OnlyBy(events, t)
  {
    if Truthy(KeyOf(c.calls[t])) {
      LooksUpKey(c, s, t, items);
      OneStep(c, Early(s, t, Lookup, items), t);
      events := [Step(t)];
    } else {
      events := [];
    }
  }

  lemma CartToCreate(c: Config, s: State, t: nat, items: seq<Item>) returns (events: seq<Event>)
    requires WellFormed(c, s) && t < |s.threads| && FreeConnection(c, s) && !IsOpen(s.threads[t])
    requires items != [] && items == Cart.LinesOf(s.carts, UserOf(c.calls[t])) && KeyIsNew(c.calls[t], s.db)
    ensures Run(c, Early(s, t, ReadCart, []), events) == Some(Early(s, t, Begin, items)) && OnlyBy(events, t)
  {
    var rest := EntersCreate(c, s, t, items);
    ReadsCart(c, s, t, items);
    StepThen(c, Early(s, t, ReadCart, []), t, Early(s, t, EnterCreate(c.calls[t]), items), rest, Early(s, t, Begin, items));
    events := [Step(t)] + rest;
  }

  /** What the request reads: its own lines, or its cart's. */
  ghost predicate Reads(call: Call, carts: map<Text, seq<Item>>, items: seq<Item>) { CanPlace(call, carts, false, items) }

  lemma ToBegin(c: Config, s: State, t: nat, items: seq<Item>) returns (events: seq<Event>)
    requires WellFormed(c, s) && t < |s.threads| && FreeConnection(c, s)
    requires s.threads[t] == InitialThread(c.calls[t]) && Reads(c.calls[t], s.carts, items) && KeyIsNew(c.calls[t], s.db)
    ensures Run(c, s, events) == Some(Early(s, t, Begin, items)) && OnlyBy(events, t)
  {
    var th := s.threads[t];
    assert s == Early(s, t, th.pc, th.items) by {
      assert s.threads[t := th] == s.threads;
    }
    if c.calls[t].Create? {
      events := EntersCreate(c, s, t, items);
    } else {
      events := CartToCreate(c, s, t, items);
      if Truthy(KeyOf(c.calls[t])) {
        LooksUpKey(c, s, t, []);
        StepThen(c, s, t, Early(s, t, ReadCart, []), events, Early(s, t, Begin, items));
        events := [Step(t)] + events;
      }
    }
  }

  lemma FrontSuffices(products: map<Text, Product>, items: seq<Item>, n: nat)
    requires n < |items| && Affordable(products, items[..n + 1])
    ensures Affordable(products, items[..n]) && items[n].product in products
  {
    AffordableFront(products, items, n + 1, n);
    assert items[..n + 1][n] == items[n];
  }

  /** From BEGIN a request comes as far as asking for line `n`. */
  lemma BeginsAndTakes(c: Config, s: State, t: nat, items: seq<Item>, n: nat) returns (events: seq<Event>)
    requires WellFormed(c, s) && t < |s.threads| && FreeConnection(c, s) && !IsOpen(s.threads[t])
    requires n < |items| && Affordable(s.db.products, items[..n]) && items[n].product in s.db.products
    requires FreeUpTo(Early(s, t, Begin, items), t, n)
    ensures Run(c, Early(s, t, Begin, items), events) == Some(Asking(Early(s, t, Begin, items), t, n))
    ensures OnlyBy(events, t)
  {
    var begun := Early(s, t, Begin, items);
    var rest := TakesLines(c, begun, t, 0, n);
    Begins(c, s, t, items);
    StepThen(c, begun, t, Looking(begun, t, 0), rest, Asking(begun, t, n));
    events := [Step(t)] + rest;
  }

  /** From its first statement a request whose key is unused comes that far, too. */
  lemma ComesTo(c: Config, s: State, t: nat, items: seq<Item>, n: nat) returns (events: seq<Event>)
    requires WellFormed(c, s) && t < |s.threads| && FreeConnection(c, s) && s.threads[t] == InitialThread(c.calls[t])
    requires Reads(c.calls[t], s.carts, items) && CanTake(c.calls[t], s.db, items, n)
    requires FreeUpTo(Early(s, t, Begin, items), t, n)
    ensures Run(c, s, events) == Some(Moved(s, t, Thread(TakeStock, items, n, false))) && OnlyBy(events, t)
  {
    var front := ToBegin(c, s, t, items);
    FrontSuffices(s.db.products, items, n);
    var rest := BeginsAndTakes(c, s, t, items, n);
    MovedTwice(s, t, Thread(Begin, items, 0, false), Thread(TakeStock, items, n, false));
    RunConcat(c, s, front, rest);
    events := front + rest;
  }

  // one request after another

  /** Of the first `k` requests, those that take part have come to their positions, the first `m` of all to waiting. */
  function PlacedThread(c: Config, lines: Lines, pos: Positions, t: nat, k: nat, m: nat): Thread
    requires t < |c.calls| && |pos| == |lines| == |c.calls|
  {
    if t < k && pos[t].Some? then Thread(if t < m then AwaitStock else TakeStock, lines[t], pos[t].value, false)
    else InitialThread(c.calls[t])
  }

  function PlacedThreads(c: Config, lines: Lines, pos: Positions, k: nat, m: nat): seq<Thread>
    requires |pos| == |lines| == |c.calls|
  {
    seq(|c.calls|, i requires 0 <= i < |c.calls| => PlacedThread(c, lines, pos, i, k, m))
  }

  lemma PlacedOpen(c: Config, lines: Lines, pos: Positions, t: nat, k: nat, m: nat)
    requires |pos| == |lines| == |c.calls| && t < |pos|
    ensures IsOpen(PlacedThread(c, lines, pos, t, k, m)) <==> t < k && pos[t].Some?
    ensures forall p :: HoldsProduct(PlacedThread(c, lines, pos, t, k, m), p)
                        <==> t < k && pos[t].Some? && Names(lines[t], pos[t].value, p)
  {
  }

  lemma {:induction false} CountPlaced(threads: seq<Thread>, pos: Positions, k: nat)
    requires |threads| == |pos|
    requires forall i :: 0 <= i < |pos| ==> IsOpen(threads[i]) == (i < k && pos[i].Some?)
    ensures OpenCount(threads) <= Count(pos)
    ensures k < |pos| && pos[k].Some? ==> OpenCount(threads) < Count(pos)
  {
    if pos != [] {
      var n := |pos| - 1;
      CountPlaced(threads[..n], pos[..n], k);
    }
  }

  lemma PlacedHasConnection(c: Config, lines: Lines, pos: Positions, k: nat)
    requires |pos| == |lines| == |c.calls| && k < |pos| && pos[k].Some?
    ensures OpenCount(PlacedThreads(c, lines, pos, k, 0)) < Count(pos)
  {
    var threads := PlacedThreads(c, lines, pos, k, 0);
    forall i | 0 <= i < |pos|
      ensures IsOpen(threads[i]) == (i < k && pos[i].Some?)
    {
      PlacedOpen(c, lines, pos, i, k, 0);
    }
    CountPlaced(threads, pos, k);
  }

  lemma PlacedIsFree(c: Config, s: State, lines: Lines, pos: Positions, k: nat)
    requires |pos| == |lines| == |c.calls| && k < |pos| && pos[k].Some? && s.threads == PlacedThreads(c, lines, pos, k, 0)
    requires ApartFromAll(lines, pos, k)
    ensures FreeUpTo(Early(s, k, Begin, lines[k]), k, pos[k].value)
  {
    var begun, items := Early(s, k, Begin, lines[k]), lines[k];
    forall o, i | 0 <= o < |begun.threads| && o != k && 0 <= i < pos[k].value && i < |items|
      ensures !HoldsProduct(begun.threads[o], items[i].product)
    {
      PlacedOpen(c, lines, pos, o, k, 0);
      if pos[o].Some? {
        assert DisjointFrom(lines, pos, k, o);
        assert Names(items, pos[k].value, items[i].product);
      }
    }
  }

  lemma PlacedMoves(c: Config, lines: Lines, pos: Positions, k: nat)
    requires |pos| == |lines| == |c.calls| && k < |pos|
    ensures PlacedThreads(c, lines, pos, k + 1, 0)
            == PlacedThreads(c, lines, pos, k, 0)[k := PlacedThread(c, lines, pos, k, k + 1, 0)]
  {
  }

  lemma OwnStepsAllowed(from: Start, events: seq<Event>, t: nat)
    requires OnlyBy(events, t)
    ensures Allowed(from, events)
  {
  }

  /** The cart has the lines the request is to read: by an edit, if there are any. */
  lemma FillsCart(c: Config, from: Start, s: State, t: nat, items: seq<Item>) returns (events: seq<Event>, after: State)
    requires WellFormed(c, s) && t < |c.calls| && CanPlace(c.calls[t], from.carts, from.edits, items)
    requires !from.edits ==> s.carts == from.carts
    ensures Run(c, s, events) == Some(after) && after == s.(carts := after.carts) && Allowed(from, events)
    ensures !from.edits ==> after.carts == from.carts
    ensures Reads(c.calls[t], after.carts, items)
  {
    if c.calls[t].Checkout? && from.edits {
      var user := UserOf(c.calls[t]);
      after := s.(carts := s.carts[user := items]);
      OrderProgress.RunOne(c, s, EditCart(user, items));
      events := [EditCart(user, items)];
    } else {
      events, after := [], s;
    }
  }

  /** These events bring the first `k` requests to their positions. */
  ghost predicate Places(c: Config, from: Start, s: State, lines: Lines, pos: Positions, k: nat, events: seq<Event>, after: State)
    requires WellFormed(c, s) && |pos| == |lines| == |c.calls|
  {
    && Run(c, s, events) == Some(after) && Allowed(from, events)
    && after.db == s.db && after.threads == PlacedThreads(c, lines, pos, k, 0)
    && (!from.edits ==> after.carts == from.carts)
  }

  lemma MemberComes(c: Config, from: Start, s: State, lines: Lines, pos: Positions, k: nat)
    returns (events: seq<Event>, after: State)
    requires WellFormed(c, s) && |pos| == |lines| == |c.calls| && k < |pos| && pos[k].Some? && Count(pos) <= c.pool
    requires s.threads == PlacedThreads(c, lines, pos, k, 0) && s.db == from.db && TakesPart(c, from, lines, pos, k)
    requires !from.edits ==> s.carts == from.carts
    ensures Places(c, from, s, lines, pos, k + 1, events, after)
  {
    var edit, filled := FillsCart(c, from, s, k, lines[k]);
    PlacedIsFree(c, filled, lines, pos, k);
    PlacedHasConnection(c, lines, pos, k);
    PlacedMoves(c, lines, pos, k);
    var own := ComesTo(c, filled, k, lines[k], pos[k].value);
    OwnStepsAllowed(from, own, k);
    RunConcat(c, s, edit, own);
    events, after := edit + own, Run(c, filled, own).value;
  }

  lemma PlaceNext(c: Config, from: Start, s: State, lines: Lines, pos: Positions, k: nat)
    returns (events: seq<Event>, after: State)
    requires WellFormed(c, s) && |pos| == |lines| == |c.calls| && k < |pos| && Count(pos) <= c.pool
    requires s.threads == PlacedThreads(c, lines, pos, k, 0) && s.db == from.db && TakesPart(c, from, lines, pos, k)
    requires !from.edits ==> s.carts == from.carts
    ensures Places(c, from, s, lines, pos, k + 1, events, after)
  {
    if pos[k].Some? {
      events, after := MemberComes(c, from, s, lines, pos, k);
    } else {
      PlacedMoves(c, lines, pos, k);
      assert s.threads == PlacedThreads(c, lines, pos, k + 1, 0);
      events, after := [], s;
    }
  }

  lemma PlaceOneMore(c: Config, from: Start, s0: State, lines: Lines, pos: Positions, k: nat, front: seq<Event>, s: State)
    returns (events: seq<Event>, after: State)
    requires WellFormed(c, s0) && |pos| == |lines| == |c.calls| && k < |pos| && Count(pos) <= c.pool && s0.db == from.db
    requires Places(c, from, s0, lines, pos, k, front, s) && TakesPart(c, from, lines, pos, k)
    ensures Places(c, from, s0, lines, pos, k + 1, events, after)
  {
    var more;
    more, after := PlaceNext(c, from, s, lines, pos, k);
    RunConcat(c, s0, front, more);
    events := front + more;
  }

  lemma {:induction false} PlaceAll(c: Config, from: Start, lines: Lines, pos: Positions, k: nat)
    returns (events: seq<Event>, after: State)
    requires |pos| == |lines| == |c.calls| && Count(pos) <= c.pool && k <= |pos|
    requires forall t :: 0 <= t < |pos| ==> TakesPart(c, from, lines, pos, t)
    ensures Places(c, from, Initial(c, from.db, from.carts), lines, pos, k, events, after)
  {
    var s0 := Initial(c, from.db, from.carts);
    if k == 0 {
      assert s0.threads == PlacedThreads(c, lines, pos, 0, 0);
      events, after := [], s0;
    } else {
      var front, s := PlaceAll(c, from, lines, pos, k - 1);
      events, after := PlaceOneMore(c, from, s0, lines, pos, k - 1, front, s);
    }
  }

  // then each begins to wait

  lemma PlacedBusy(c: Config, s: State, lines: Lines, pos: Positions, t: nat, m: nat)
    requires |pos| == |lines| == |c.calls| && s.threads == PlacedThreads(c, lines, pos, |pos|, m)
    requires t < |pos| && pos[t].Some? && Blocked(lines, pos, t)
    ensures pos[t].value < |lines[t]| && ProductBusy(c, s, t, lines[t][pos[t].value].product)
  {
    var o :| 0 <= o < |pos| && o != t && pos[o].Some? && AsksFor(lines, pos, t, o);
    PlacedOpen(c, lines, pos, o, |pos|, m);
    assert HoldsProduct(s.threads[o], lines[t][pos[t].value].product);
  }

  lemma LastLineSuffices(db: Database, th: Thread)
    requires th.pos < |th.items| && Affordable(db.products, th.items[..th.pos + 1])
    ensures th.items[th.pos].product in db.products && StockSuffices(db, th)
  {
    var taken := th.items[..th.pos + 1];
    assert taken[th.pos] == th.items[th.pos] && taken[..th.pos] == th.items[..th.pos];
  }

  lemma Awaits(c: Config, s: State, t: nat)
    requires WellFormed(c, s) && t < |s.threads| && s.threads[t].pc.TakeStock? && s.threads[t].pos < |s.threads[t].items|
    requires Affordable(s.db.products, s.threads[t].items[..s.threads[t].pos + 1])
    requires ProductBusy(c, s, t, s.threads[t].items[s.threads[t].pos].product)
    ensures Run(c, s, [Step(t)]) == Some(Moved(s, t, s.threads[t].(pc := AwaitStock)))
  {
    LastLineSuffices(s.db, s.threads[t]);
    OneStep(c, s, t);
  }

  lemma AwaitsNext(c: Config, from: Start, s: State, lines: Lines, pos: Positions, m: nat) returns (events: seq<Event>)
    requires |pos| == |lines| == |c.calls| && m < |pos| && TakesPart(c, from, lines, pos, m) && s.db == from.db
    requires s.threads == PlacedThreads(c, lines, pos, |pos|, m)
    ensures Run(c, s, events) == Some(s.(threads := PlacedThreads(c, lines, pos, |pos|, m + 1))) && OnlyBy(events, m)
  {
    var next := PlacedThreads(c, lines, pos, |pos|, m + 1);
    if pos[m].Some? {
      PlacedBusy(c, s, lines, pos, m, m);
      Awaits(c, s, m);
      assert next == s.threads[m := s.threads[m].(pc := AwaitStock)];
      events := [Step(m)];
    } else {
      assert next == s.threads;
      events := [];
    }
  }

  lemma {:induction false} AwaitAll(c: Config, from: Start, s: State, lines: Lines, pos: Positions, m: nat)
    returns (events: seq<Event>)
    requires |pos| == |lines| == |c.calls| && m <= |pos| && s.db == from.db
    requires s.threads == PlacedThreads(c, lines, pos, |pos|, 0)
    requires forall t :: 0 <= t < |pos| ==> TakesPart(c, from, lines, pos, t)
    ensures Run(c, s, events) == Some(s.(threads := PlacedThreads(c, lines, pos, |pos|, m))) && Allowed(from, events)
  {
    if m == 0 {
      events := [];
    } else {
      var front := AwaitAll(c, from, s, lines, pos, m - 1);
      var more := AwaitsNext(c, from, s.(threads := PlacedThreads(c, lines, pos, |pos|, m - 1)), lines, pos, m - 1);
      OwnStepsAllowed(from, more, m - 1);
      RunConcat(c, s, front, more);
      events := front + more;
    }
  }

  lemma PlacedIsStuck(c: Config, from: Start, s: State, lines: Lines, pos: Positions)
    requires Crossing(c, from, lines, pos) && s.threads == PlacedThreads(c, lines, pos, |pos|, |pos|)
    ensures Stuck(c, s)
  {
    var u :| 0 <= u < |pos| && pos[u].Some?;
    PlacedOpen(c, lines, pos, u, |pos|, |pos|);
    assert IsOpen(s.threads[u]);
    forall t | 0 <= t < |s.threads| && IsOpen(s.threads[t])
      ensures Next(c, s, t).None?
    {
      PlacedOpen(c, lines, pos, t, |pos|, |pos|);
      assert TakesPart(c, from, lines, pos, t);
      PlacedBusy(c, s, lines, pos, t, |pos|);
    }
  }

  // ---- exactly ------------------------------------------------------------------------------

  /** These events lead to a state in which no open transaction can step. */
  ghost predicate GetsStuck(c: Config, from: Start, events: seq<Event>) {
    && Allowed(from, events) && Run(c, Initial(c, from.db, from.carts), events).Some?
    && Stuck(c, Run(c, Initial(c, from.db, from.carts), events).value)
  }

  ghost predicate CanGetStuck(c: Config, from: Start) { exists events :: GetsStuck(c, from, events) }

  lemma StuckThenCrossing(c: Config, from: Start, events: seq<Event>)
    requires GetsStuck(c, from, events) && !c.secondConnection
    ensures exists lines, pos :: Crossing(c, from, lines, pos)
  {
    Serializable(c, from.db, from.carts, events);
    EveryRunBounded(c, from, events);
    StuckShowsCrossing(c, from, Run(c, Initial(c, from.db, from.carts), events).value);
  }

  lemma CrossingThenStuck(c: Config, from: Start, lines: Lines, pos: Positions) returns (events: seq<Event>)
    requires Crossing(c, from, lines, pos)
    ensures GetsStuck(c, from, events)
  {
    var s0 := Initial(c, from.db, from.carts);
    var front, s := PlaceAll(c, from, lines, pos, |pos|);
    var more := AwaitAll(c, from, s, lines, pos, |pos|);
    RunConcat(c, s0, front, more);
    PlacedIsStuck(c, from, s.(threads := PlacedThreads(c, lines, pos, |pos|, |pos|)), lines, pos);
    events := front + more;
  }

  /**
    Any number of orders and checkouts, with any stock, any pool, and carts edited or left alone, can
    reach a state in which open transactions all wait for one another exactly when some of them cross.
  */
  lemma DeadlockExactly(c: Config, from: Start)
    requires !c.secondConnection
    ensures CanGetStuck(c, from) <==> exists lines, pos :: Crossing(c, from, lines, pos)
  {
    if events :| GetsStuck(c, from, events) {
      StuckThenCrossing(c, from, events);
    }
    if lines, pos :| Crossing(c, from, lines, pos) {
      var events := CrossingThenStuck(c, from, lines, pos);
    }
  }

  // ---- two requests -------------------------------------------------------------------------

  /** Line `n` of one list names a product among the first `m` of the other's, and the other way round. */
  predicate Cross(a: seq<Item>, b: seq<Item>, n: nat, m: nat) {
    && n < |a| && m < |b| && Names(b, m, a[n].product) && Names(a, n, b[m].product)
    && forall i, j :: 0 <= i < n && 0 <= j < m ==> a[i].product != b[j].product
  }

  /** The lines of a request whose cart, if it has one, is not edited. */
  function ListOf(call: Call, carts: map<Text, seq<Item>>): seq<Item> {
    match call
    case Create(r) => r.items
    case Checkout(user, _, _, _) => Cart.LinesOf(carts, user)
  }

  /** Nobody changes what the requests place. */
  ghost predicate Fixed(c: Config, from: Start) { !from.edits || forall t :: 0 <= t < |c.calls| ==> c.calls[t].Create? }

  /** Both can come to these lines of theirs, which cross. */
  ghost predicate TwoCross(c: Config, from: Start, n: nat, m: nat)
    requires |c.calls| == 2
  {
    var a, b := ListOf(c.calls[0], from.carts), ListOf(c.calls[1], from.carts);
    CanTake(c.calls[0], from.db, a, n) && CanTake(c.calls[1], from.db, b, m) && Cross(a, b, n, m)
  }

  lemma CountBoth(n: nat, m: nat)
    ensures Count([Some(n), Some(m)]) == 2
  {
    var pos: Positions := [Some(n), Some(m)];
    assert pos[..1] == [Some(n)] && pos[..1][..0] == [];
    assert Count(pos[..1]) == Count(pos[..1][..0]) + 1;
  }

  lemma CrossIsCrossing(c: Config, from: Start, n: nat, m: nat)
    requires |c.calls| == 2 && c.pool >= 2 && TwoCross(c, from, n, m)
    ensures Crossing(c, from, [ListOf(c.calls[0], from.carts), ListOf(c.calls[1], from.carts)], [Some(n), Some(m)])
  {
    var lines: Lines := [ListOf(c.calls[0], from.carts), ListOf(c.calls[1], from.carts)];
    var pos: Positions := [Some(n), Some(m)];
    CountBoth(n, m);
    assert AsksFor(lines, pos, 0, 1) && AsksFor(lines, pos, 1, 0);
    assert Blocked(lines, pos, 0) && Blocked(lines, pos, 1);
    assert DisjointFrom(lines, pos, 0, 1) && DisjointFrom(lines, pos, 1, 0);
    assert TakesPart(c, from, lines, pos, 0) && TakesPart(c, from, lines, pos, 1);
    assert pos[0].Some?;
  }

  lemma OtherIsAsked(lines: Lines, pos: Positions, t: nat)
    requires |pos| == |lines| == 2 && t < 2 && pos[t].Some? && Blocked(lines, pos, t)
    ensures pos[1 - t].Some? && AsksFor(lines, pos, t, 1 - t)
  {
  }

  lemma CrossingIsCross(c: Config, from: Start, lines: Lines, pos: Positions)
    requires |c.calls| == 2 && Fixed(c, from) && Crossing(c, from, lines, pos)
    ensures pos[0].Some? && pos[1].Some? && TwoCross(c, from, pos[0].value, pos[1].value)
  {
    var u :| 0 <= u < |pos| && pos[u].Some?;
    assert TakesPart(c, from, lines, pos, u);
    OtherIsAsked(lines, pos, u);
    assert TakesPart(c, from, lines, pos, 1 - u);
    OtherIsAsked(lines, pos, 0);
    OtherIsAsked(lines, pos, 1);
    var n, m := pos[0].value, pos[1].value;
    assert DisjointFrom(lines, pos, 0, 1);
    forall i, j | 0 <= i < n && 0 <= j < m
      ensures lines[0][i].product != lines[1][j].product
    {
      assert Names(lines[0], n, lines[0][i].product) && Names(lines[1], m, lines[1][j].product);
    }
  }

  /** Two requests with a connection each can deadlock exactly when their lists cross at lines both can come to. */
  lemma TwoDeadlockExactly(c: Config, from: Start)
    requires !c.secondConnection && |c.calls| == 2 && c.pool >= 2 && Fixed(c, from)
    ensures CanGetStuck(c, from) <==> exists n, m :: TwoCross(c, from, n, m)
  {
    DeadlockExactly(c, from);
    if lines, pos :| Crossing(c, from, lines, pos) { CrossingIsCross(c, from, lines, pos); }
    if n: nat, m: nat :| TwoCross(c, from, n, m) { CrossIsCrossing(c, from, n, m); }
  }

  /** Lists that would cross only at lines asking for more than there is do not deadlock: such a line fails. */
  lemma ShortStockKeepsApart(c: Config, from: Start, x: Text, y: Text, much: nat)
    requires !c.secondConnection && |c.calls| == 2 && c.pool >= 2 && Fixed(c, from)
    requires x != y && x in from.db.products && y in from.db.products
    requires from.db.products[x].stock < much && from.db.products[y].stock < much
    requires ListOf(c.calls[0], from.carts) == [Item(x, 1), Item(y, much)]
    requires ListOf(c.calls[1], from.carts) == [Item(y, 1), Item(x, much)]
    ensures !CanGetStuck(c, from)
  {
    var a, b := [Item(x, 1), Item(y, much)], [Item(y, 1), Item(x, much)];
    TwoDeadlockExactly(c, from);
    forall n: nat, m: nat
      ensures !TwoCross(c, from, n, m)
    {
      if n == 1 {
        assert a[..2][1] == a[1];
        DemandOfLast(a);
      }
    }
  }

  lemma DemandOfLast(items: seq<Item>)
    requires |items| == 2
    ensures Demand(items[..2], items[1].product) >= items[1].quantity
  {
    assert items[..2] == items;
  }

  /** Line `n` is the first one that names its product. */
  predicate FirstAt(items: seq<Item>, n: nat) { n < |items| && !Names(items, n, items[n].product) }

  /** Two products are first named in opposite orders. */
  predicate OppositeAt(a: seq<Item>, b: seq<Item>, i: nat, j: nat, n: nat, m: nat) {
    && FirstAt(a, i) && FirstAt(a, n) && FirstAt(b, j) && FirstAt(b, m) && i < n && j < m
    && a[i].product == b[m].product && b[j].product == a[n].product
  }

  function FirstOf(items: seq<Item>, p: Text): (i: nat)
    requires Names(items, |items|, p)
    ensures FirstAt(items, i) && items[i].product == p
    ensures forall n :: Names(items, n, p) ==> i < n
  {
    if Names(items, |items| - 1, p) then
      var front := items[..|items| - 1];
      assert forall n: nat | n <= |front| :: Names(front, n, p) <==> Names(items, n, p) by {
        assert forall k :: 0 <= k < |front| ==> front[k] == items[k];
      }
      assert Names(front, |front|, p);
      var i := FirstOf(front, p);
      assert front[i] == items[i];
      assert !Names(items, i, items[i].product) by {
        assert !Names(front, i, front[i].product);
        assert forall k :: 0 <= k < i ==> front[k] == items[k];
      }
      i
    else |items| - 1
  }

  /** Lists that cross name two products first in opposite orders, */
  lemma CrossIsOpposite(a: seq<Item>, b: seq<Item>, n: nat, m: nat)
    requires Cross(a, b, n, m)
    ensures exists i, j :: OppositeAt(a, b, i, j, n, m)
  {
    var p, q := a[n].product, b[m].product;
    var i0 :| 0 <= i0 < n && i0 < |a| && a[i0].product == q;
    var j0 :| 0 <= j0 < m && j0 < |b| && b[j0].product == p;
    assert Names(a, |a|, q) && Names(b, |b|, p);
    var i, j := FirstOf(a, q), FirstOf(b, p);
    assert Names(a, n, q) && Names(b, m, p);
    assert OppositeAt(a, b, i, j, n, m);
  }

  /** but not every two such lists cross: one product that both take first keeps the others apart. */
  lemma GateKeepsApart(z: Text, x: Text, y: Text)
    requires z != x && z != y && x != y
    ensures var a, b := [Item(z, 1), Item(x, 1), Item(y, 1)], [Item(z, 1), Item(y, 1), Item(x, 1)];
            && OppositeAt(a, b, 1, 1, 2, 2)
            && forall n, m :: !Cross(a, b, n, m)
  {
    var a, b := [Item(z, 1), Item(x, 1), Item(y, 1)], [Item(z, 1), Item(y, 1), Item(x, 1)];
    forall n: nat, m: nat
      ensures !Cross(a, b, n, m)
    {
      if 0 < n && 0 < m { assert a[0].product == b[0].product; }
    }
  }
}
