/**
  Order placement makes progress: every statement brings its request nearer the end, and while the
  items are listed in one common order some request can always take its next statement. With the
  membership read through a second pooled connection the whole pool can jam.
*/
module OrderProgress {
  import opened Wrappers
  import opened Bytes
  import opened Orders
  import opened OrderMachine
  import opened OrderSafety

  // ---- every step is progress ---------------------------------------------------------------

  /** Requests that have not read their cart yet count first: the cart decides how much is to do. */
  function CartsToRead(th: Thread): nat { if th.pc.FirstLookup? || th.pc.ReadCart? then 1 else 0 }

  function StatementsLeft(th: Thread): nat {
    var left: nat := if th.pos <= |th.items| then |th.items| - th.pos else 0;
    match th.pc
    case FirstLookup => 1
    case ReadCart => 0
    case Lookup => 3 * |th.items| + 12
    case Begin => 3 * |th.items| + 11
    case ReadProduct => 3 * left + 10
    case TakeStock => 3 * left + 9
    case AwaitStock => 3 * left + 8
    case ReadCoupon => 9
    case RedeemCoupon => 8
    case AwaitCoupon => 7
    case ReadMembership => 6
    case InsertOrder => 5
    case Commit => 4
    case Rollback(_) => 3
    case LookupAgain(_) => 2
    case ClearCart(_) => 1
    case Done(_) => 0
  }

  function Less(a: (nat, nat), b: (nat, nat)): bool { a.0 < b.0 || (a.0 == b.0 && a.1 < b.1) }

  function Left(th: Thread): (nat, nat) { (CartsToRead(th), StatementsLeft(th)) }

  lemma ItemProgress(c: Config, s: State, t: nat)
    requires WellFormed(c, s) && t < |s.threads| && Next(c, s, t).Some?
    requires s.threads[t].pc.ReadProduct? || AtStock(s.threads[t])
    ensures Less(Left(Next(c, s, t).value.threads[t]), Left(s.threads[t]))
  {
  }

  lemma OpenProgress(c: Config, s: State, t: nat)
    requires WellFormed(c, s) && t < |s.threads| && Next(c, s, t).Some? && IsOpen(s.threads[t])
    requires !s.threads[t].pc.ReadProduct? && !AtStock(s.threads[t])
    ensures Less(Left(Next(c, s, t).value.threads[t]), Left(s.threads[t]))
  {
  }

  lemma ClosedProgress(c: Config, s: State, t: nat)
    requires WellFormed(c, s) && t < |s.threads| && Next(c, s, t).Some? && !IsOpen(s.threads[t])
    ensures Less(Left(Next(c, s, t).value.threads[t]), Left(s.threads[t]))
  {
  }

  lemma ThreadProgress(c: Config, s: State, t: nat)
    requires WellFormed(c, s) && t < |s.threads| && Next(c, s, t).Some?
    ensures Less(Left(Next(c, s, t).value.threads[t]), Left(s.threads[t]))
  {
    if !IsOpen(s.threads[t]) {
      ClosedProgress(c, s, t);
    } else if s.threads[t].pc.ReadProduct? || AtStock(s.threads[t]) {
      ItemProgress(c, s, t);
    } else {
      OpenProgress(c, s, t);
    }
  }

  function TotalLeft(threads: seq<Thread>): (nat, nat) {
    if threads == [] then (0, 0)
    else
      var (carts, statements) := TotalLeft(threads[..|threads| - 1]);
      var last := Left(threads[|threads| - 1]);
      (carts + last.0, statements + last.1)
  }

  lemma {:induction false} TotalLeftMoves(threads: seq<Thread>, t: nat, th: Thread)
    requires t < |threads|
    ensures var a, b := TotalLeft(threads), TotalLeft(threads[t := th]);
            && b.0 + Left(threads[t]).0 == a.0 + Left(th).0
            && b.1 + Left(threads[t]).1 == a.1 + Left(th).1
  {
    var n := |threads| - 1;
    if t == n {
      assert threads[t := th][..n] == threads[..n];
    } else {
      assert threads[t := th][..n] == threads[..n][t := th];
      TotalLeftMoves(threads[..n], t, th);
    }
  }

  /** Every statement of every request strictly decreases what is left to do. */
  lemma EveryStepIsProgress(c: Config, s: State, t: nat)
    requires Inv(c, s) && t < |s.threads| && Next(c, s, t).Some?
    ensures Less(TotalLeft(Next(c, s, t).value.threads), TotalLeft(s.threads))
  {
    StepMovesOne(c, s, t);
    ThreadProgress(c, s, t);
    TotalLeftMoves(s.threads, t, Next(c, s, t).value.threads[t]);
  }

  // ---- no deadlock --------------------------------------------------------------------------

  type Rank = Text -> nat

  /** `items` are in the order `rank` gives the products; those that are listed rank below `bound`. */
  ghost predicate InOrder(items: seq<Item>, rank: Rank, bound: nat) {
    && (forall i :: 0 <= i < |items| ==> rank(items[i].product) < bound)
    && (forall i, j :: 0 <= i < j < |items| ==> rank(items[i].product) <= rank(items[j].product))
  }

  /** All lists of requests and carts go by one order of the products they name. */
  ghost predicate CommonOrder(s: State, rank: Rank, bound: nat) {
    && (forall p, q :: rank(p) == rank(q) < bound ==> p == q)
    && (forall t :: 0 <= t < |s.threads| ==> InOrder(s.threads[t].items, rank, bound))
    && (forall u :: u in s.carts ==> InOrder(s.carts[u], rank, bound))
  }

  /** How far along the lock order the row is that the thread asks for next. */
  function Level(th: Thread, rank: Rank, bound: nat): nat {
    match th.pc
    case AwaitStock => if th.pos < |th.items| then rank(th.items[th.pos].product) else bound
    case AwaitCoupon => bound
    case InsertOrder => bound + 1
    case _ => bound + 2
  }

  lemma Holders(c: Config, s: State, t: nat, rank: Rank, bound: nat) returns (o: nat)
    requires Inv(c, s) && CommonOrder(s, rank, bound) && t < |s.threads| && IsOpen(s.threads[t])
    requires Next(c, s, t).None? && !c.secondConnection
    ensures o < |s.threads| && o != t && IsOpen(s.threads[o])
    ensures Level(s.threads[t], rank, bound) < Level(s.threads[o], rank, bound) || Next(c, s, o).Some?
    ensures Level(s.threads[t], rank, bound) < bound + 2
  {
    var call, th := c.calls[t], s.threads[t];
    assert ThreadOk(c, s.db, call, th) && InOrder(th.items, rank, bound);
    if th.pc.AwaitStock? {
      var p := th.items[th.pos].product;
      assert ProductBusy(c, s, t, p);
      o :| 0 <= o < |s.threads| && o != t && HoldsProduct(s.threads[o], p);
      HolderIsFurther(c, s, t, o, p, rank, bound);
    } else if th.pc.AwaitCoupon? {
      assert CouponBusy(c, s, t, CouponOf(call).value);
      o :| 0 <= o < |s.threads| && o != t && HoldsCoupon(c.calls[o], s.threads[o], CouponOf(call).value);
      assert ThreadOk(c, s.db, c.calls[o], s.threads[o]);
    } else {
      assert th.pc.InsertOrder? && KeyBusy(c, s, t, KeyOf(call).value);
      o :| 0 <= o < |s.threads| && o != t && HoldsKey(c.calls[o], s.threads[o], KeyOf(call).value);
    }
  }

  /** Who holds a product and waits for another, waits for one later in the common order. */
  lemma HolderIsFurther(c: Config, s: State, t: nat, o: nat, p: Text, rank: Rank, bound: nat)
    requires Inv(c, s) && CommonOrder(s, rank, bound) && t < |s.threads| && o < |s.threads|
    requires s.threads[t].pc.AwaitStock? && s.threads[t].pos < |s.threads[t].items|
    requires p == s.threads[t].items[s.threads[t].pos].product && HoldsProduct(s.threads[o], p)
    ensures Level(s.threads[t], rank, bound) < Level(s.threads[o], rank, bound)
            || Next(c, s, o).Some?
  {
    var th, ho := s.threads[t], s.threads[o];
    assert ThreadOk(c, s.db, c.calls[o], ho) && InOrder(ho.items, rank, bound) && InOrder(th.items, rank, bound);
    if ho.pc.AwaitStock? {
      var i :| 0 <= i < ho.pos && i < |ho.items| && ho.items[i].product == p;
      assert rank(p) <= rank(ho.items[ho.pos].product);
      if rank(p) == rank(ho.items[ho.pos].product) {
        forall u | 0 <= u < |s.threads| && u != o
          ensures !HoldsProduct(s.threads[u], p)
        {
          assert Apart(c, s, u, o);
        }
        assert !ProductBusy(c, s, o, p);
      }
    }
  }

  lemma {:induction false} NoneOpen(threads: seq<Thread>)
    requires forall t :: 0 <= t < |threads| ==> !IsOpen(threads[t])
    ensures OpenCount(threads) == 0
  {
    if threads != [] { NoneOpen(threads[..|threads| - 1]); }
  }

  /** Following whoever holds the wanted row ends at an open transaction that can step. */
  lemma SomeOpenStep(c: Config, s: State, t: nat, rank: Rank, bound: nat) returns (o: nat)
    requires Inv(c, s) && CommonOrder(s, rank, bound) && !c.secondConnection
    requires t < |s.threads| && IsOpen(s.threads[t])
    ensures o < |s.threads| && IsOpen(s.threads[o]) && Next(c, s, o).Some?
    decreases bound + 2 - Level(s.threads[t], rank, bound)
  {
    if Next(c, s, t).Some? { return t; }
    var holder := Holders(c, s, t, rank, bound);
    if Next(c, s, holder).Some? { return holder; }
    o := SomeOpenStep(c, s, holder, rank, bound);
  }

  /**
    With a pool of any size from one, products listed in one common order and every statement of a
    transaction on its own connection: while a request is unfinished, some request can step, and
    while a transaction is open, some open transaction can.
  */
  lemma NoDeadlock(c: Config, s: State, rank: Rank, bound: nat, t: nat) returns (o: nat)
    requires Inv(c, s) && CommonOrder(s, rank, bound) && !c.secondConnection && c.pool > 0
    requires t < |s.threads| && !s.threads[t].pc.Done?
    ensures o < |s.threads| && Next(c, s, o).Some?
    ensures (exists u :: 0 <= u < |s.threads| && IsOpen(s.threads[u])) ==> IsOpen(s.threads[o])
  {
    if u: nat :| u < |s.threads| && IsOpen(s.threads[u]) {
      o := SomeOpenStep(c, s, u, rank, bound);
    } else {
      NoneOpen(s.threads);
      o := t;
    }
  }

  ghost predicate ItemsFrom(s: State, t: nat, after: State, user: Text)
    requires t < |s.threads| && |after.threads| == |s.threads|
  {
    && (after.threads[t].items == s.threads[t].items || after.threads[t].items == []
        || (user in s.carts && after.threads[t].items == s.carts[user]))
    && (after.carts == s.carts || after.carts == s.carts[user := []])
  }

  lemma OpenItems(c: Config, s: State, t: nat)
    requires WellFormed(c, s) && t < |s.threads| && Next(c, s, t).Some? && IsOpen(s.threads[t])
    ensures |Next(c, s, t).value.threads| == |s.threads| && ItemsFrom(s, t, Next(c, s, t).value, UserOf(c.calls[t]))
  {
  }

  lemma ClosedItems(c: Config, s: State, t: nat)
    requires WellFormed(c, s) && t < |s.threads| && Next(c, s, t).Some? && !IsOpen(s.threads[t])
    ensures |Next(c, s, t).value.threads| == |s.threads| && ItemsFrom(s, t, Next(c, s, t).value, UserOf(c.calls[t]))
  {
  }

  lemma StepKeepsOrder(c: Config, s: State, t: nat, rank: Rank, bound: nat)
    requires WellFormed(c, s) && CommonOrder(s, rank, bound) && t < |s.threads| && Next(c, s, t).Some?
    ensures CommonOrder(Next(c, s, t).value, rank, bound)
  {
    StepMovesOne(c, s, t);
    if IsOpen(s.threads[t]) { OpenItems(c, s, t); } else { ClosedItems(c, s, t); }
    OrderKept(s, t, Next(c, s, t).value, UserOf(c.calls[t]), rank, bound);
  }

  lemma OrderKept(s: State, t: nat, after: State, user: Text, rank: Rank, bound: nat)
    requires CommonOrder(s, rank, bound) && t < |s.threads| && |after.threads| == |s.threads|
    requires after.threads == s.threads[t := after.threads[t]]
    requires after.threads[t].items == s.threads[t].items || after.threads[t].items == []
             || (user in s.carts && after.threads[t].items == s.carts[user])
    requires after.carts == s.carts || after.carts == s.carts[user := []]
    ensures CommonOrder(after, rank, bound)
  {
    assert InOrder([], rank, bound);
  }

  lemma RunOne(c: Config, s: State, e: Event)
    requires WellFormed(c, s)
    ensures Run(c, s, [e]) == Apply(c, s, e)
  {
    assert [e][..0] == [];
    assert Run(c, s, []) == Some(s);
  }

  lemma {:induction false} RunPrepend(c: Config, s: State, e: Event, events: seq<Event>)
    requires WellFormed(c, s) && Apply(c, s, e).Some? && WellFormed(c, Apply(c, s, e).value)
    ensures Run(c, s, [e] + events) == Run(c, Apply(c, s, e).value, events)
  {
    if events == [] {
      assert [e] + events == [e];
      RunOne(c, s, e);
    } else {
      var n := |events| - 1;
      assert ([e] + events)[..n + 1] == [e] + events[..n];
      RunPrepend(c, s, e, events[..n]);
    }
  }

  /** Then every request can be brought to its answer. */
  lemma {:induction false} AllRequestsFinish(c: Config, s: State, rank: Rank, bound: nat) returns (events: seq<Event>)
    requires Inv(c, s) && CommonOrder(s, rank, bound) && !c.secondConnection && c.pool > 0
    ensures Run(c, s, events).Some? && |Run(c, s, events).value.threads| == |s.threads|
    ensures forall t :: 0 <= t < |s.threads| ==> Run(c, s, events).value.threads[t].pc.Done?
    ensures forall e :: e in events ==> e.Step?
    decreases TotalLeft(s.threads).0, TotalLeft(s.threads).1
  {
    if t: nat :| t < |s.threads| && !s.threads[t].pc.Done? {
      var o := NoDeadlock(c, s, rank, bound, t);
      var after := Next(c, s, o).value;
      assert Apply(c, s, Step(o)) == Some(after);
      ApplyKeepsInv(c, s, Step(o));
      StepKeepsOrder(c, s, o, rank, bound);
      EveryStepIsProgress(c, s, o);
      var rest := AllRequestsFinish(c, after, rank, bound);
      RunPrepend(c, s, Step(o), rest);
      events := [Step(o)] + rest;
    } else {
      events := [];
    }
  }

  /** What a shopper puts in a cart is in the common order, too. */
  ghost predicate EditInOrder(e: Event, rank: Rank, bound: nat) { e.EditCart? ==> InOrder(e.items, rank, bound) }

  lemma EventKeepsOrder(c: Config, s: State, e: Event, rank: Rank, bound: nat)
    requires WellFormed(c, s) && CommonOrder(s, rank, bound) && EditInOrder(e, rank, bound) && Apply(c, s, e).Some?
    ensures CommonOrder(Apply(c, s, e).value, rank, bound)
  {
    match e {
      case Step(t) => StepKeepsOrder(c, s, t, rank, bound);
      case Abort(t) => OrderKept(s, t, Apply(c, s, e).value, [], rank, bound);
      case EditCart(_, _) =>
    }
  }

  lemma {:induction false} RunKeepsOrder(c: Config, s: State, events: seq<Event>, rank: Rank, bound: nat)
    requires WellFormed(c, s) && CommonOrder(s, rank, bound) && Run(c, s, events).Some?
    requires forall i :: 0 <= i < |events| ==> EditInOrder(events[i], rank, bound)
    ensures CommonOrder(Run(c, s, events).value, rank, bound)
  {
    if events != [] {
      var front := events[..|events| - 1];
      RunKeepsOrder(c, s, front, rank, bound);
      EventKeepsOrder(c, Run(c, s, front).value, events[|events| - 1], rank, bound);
    }
  }

  /**
    While requests and carts list their products in one common order, no run comes to a point from which
    the requests cannot all be brought to their answers by statements of their own.
  */
  lemma EveryRunCanFinish(c: Config, db0: Database, carts: map<Text, seq<Item>>, events: seq<Event>, rank: Rank,
                          bound: nat) returns (more: seq<Event>)
    requires Run(c, Initial(c, db0, carts), events).Some? && CommonOrder(Initial(c, db0, carts), rank, bound)
    requires forall i :: 0 <= i < |events| ==> EditInOrder(events[i], rank, bound)
    requires !c.secondConnection && c.pool > 0
    ensures var run := Run(c, Run(c, Initial(c, db0, carts), events).value, more);
            run.Some? && forall t :: 0 <= t < |run.value.threads| ==> run.value.threads[t].pc.Done?
    ensures forall e :: e in more ==> e.Step?
  {
    Serializable(c, db0, carts, events);
    RunKeepsOrder(c, Initial(c, db0, carts), events, rank, bound);
    var s := Run(c, Initial(c, db0, carts), events).value;
    more := AllRequestsFinish(c, s, rank, bound);
  }
}
