/**
  A request that runs while no other transaction is open does what the serial transaction does:
  the statement-by-statement machine, left alone, commits exactly when the serial transaction
  succeeds, with its tables, and otherwise fails with its error and changes nothing.
*/
module OrderAlone {
  import opened Wrappers
  import opened Bytes
  import opened Orders
  import opened OrderMachine
  import opened OrderSafety

  ghost predicate Alone(s: State, t: nat) {
    forall o :: 0 <= o < |s.threads| && o != t ==> !IsOpen(s.threads[o])
  }

  lemma {:induction false} RunConcat(c: Config, s: State, a: seq<Event>, b: seq<Event>)
    requires WellFormed(c, s) && Run(c, s, a).Some?
    ensures Run(c, s, a + b) == Run(c, Run(c, s, a).value, b)
  {
    if b == [] {
      assert a + b == a;
    } else {
      assert (a + b)[..|a + b| - 1] == a + b[..|b| - 1];
      RunConcat(c, s, a, b[..|b| - 1]);
    }
  }

  lemma OneStep(c: Config, s: State, t: nat)
    requires WellFormed(c, s) && t < |s.threads|
    ensures Run(c, s, [Step(t)]) == Next(c, s, t)
  {
    assert [Step(t)][..0] == [];
    assert Run(c, s, []) == Some(s);
  }

  /** One step and then the rest. */
  lemma StepThen(c: Config, s: State, t: nat, mid: State, rest: seq<Event>, after: State)
    requires WellFormed(c, s) && t < |s.threads| && Next(c, s, t) == Some(mid)
    requires WellFormed(c, mid) && Run(c, mid, rest) == Some(after)
    ensures Run(c, s, [Step(t)] + rest) == Some(after)
  {
    OneStep(c, s, t);
    RunConcat(c, s, [Step(t)], rest);
  }

  lemma MovedTwice(s: State, t: nat, a: Thread, b: Thread)
    requires t < |s.threads|
    ensures Moved(Moved(s, t, a), t, b) == Moved(s, t, b)
  {
    assert s.threads[t := a][t := b] == s.threads[t := b];
  }

  predicate OnlyBy(events: seq<Event>, t: nat) { forall i :: 0 <= i < |events| ==> events[i] == Step(t) }

  lemma NothingBusy(c: Config, s: State, t: nat)
    requires WellFormed(c, s) && Alone(s, t)
    ensures forall p :: !ProductBusy(c, s, t, p)
    ensures forall code :: !CouponBusy(c, s, t, code)
    ensures forall key :: !KeyBusy(c, s, t, key)
  {
  }

  lemma SeenStockIsTaken(db: Database, th: Thread)
    requires th.pos < |th.items| && th.items[th.pos].product in db.products
    requires Take(db.products, th.items[..th.pos]).Ok?
    ensures var item := th.items[th.pos];
            var next := Take(db.products, th.items[..th.pos + 1]);
            if SeenStock(db, th) < item.quantity then next == Err(InsufficientStock(item.product)) else next.Ok?
  {
    TakeTakesDemand(db.products, th.items[..th.pos]);
    assert th.items[..th.pos + 1][..th.pos] == th.items[..th.pos];
  }

  lemma MissingProduct(db: Database, th: Thread)
    requires th.pos < |th.items| && th.items[th.pos].product !in db.products
    requires Take(db.products, th.items[..th.pos]).Ok?
    ensures Take(db.products, th.items) == Err(ProductNotFound(th.items[th.pos].product))
  {
    TakeTakesDemand(db.products, th.items[..th.pos]);
    assert th.items[..th.pos + 1][..th.pos] == th.items[..th.pos];
    ErrorStays(db.products, th.items, th.pos + 1);
  }

  /** Where the loop over the items ends. */
  function AfterItems(c: Config, s: State, t: nat): State
    requires WellFormed(c, s) && t < |s.threads|
  {
    var th := s.threads[t];
    match Take(s.db.products, th.items)
    case Ok(_) => Moved(s, t, th.(pc := AfterLastItem(c.calls[t]), pos := |th.items|))
    case Err(error) => Moved(s, t, th.(pc := Rollback(error), pos := FirstFailing(s.db.products, th.items)))
  }

  /** How many items can be taken before one cannot. */
  function FirstFailing(products: map<Text, Product>, items: seq<Item>): nat {
    if items == [] then 0
    else if Take(products, items[..|items| - 1]).Ok? then |items| - 1
    else FirstFailing(products, items[..|items| - 1])
  }

  lemma {:induction false} FailsHere(products: map<Text, Product>, items: seq<Item>, i: nat)
    requires i < |items| && Take(products, items[..i]).Ok? && Take(products, items[..i + 1]).Err?
    ensures FirstFailing(products, items) == i
    ensures Take(products, items) == Take(products, items[..i + 1])
    decreases |items|
  {
    var n := |items| - 1;
    ErrorStays(products, items, i + 1);
    if i < n {
      assert items[..n][..i] == items[..i] && items[..n][..i + 1] == items[..i + 1];
      ErrorStays(products, items[..n], i + 1);
      FailsHere(products, items[..n], i);
    }
  }

  lemma {:induction false} ItemsAlone(c: Config, s: State, t: nat) returns (events: seq<Event>)
    requires WellFormed(c, s) && Alone(s, t) && t < |s.threads|
    requires var th := s.threads[t];
             th.pos <= |th.items| && th.pc == AfterItem(c.calls[t], th.items, th.pos)
             && Take(s.db.products, th.items[..th.pos]).Ok?
    ensures Run(c, s, events) == Some(AfterItems(c, s, t)) && OnlyBy(events, t)
    decreases |s.threads[t].items| - s.threads[t].pos
  {
    var th := s.threads[t];
    if th.pos == |th.items| {
      assert th.items[..th.pos] == th.items;
      assert s == AfterItems(c, s, t);
      events := [];
    } else {
      events := ItemAlone(c, s, t);
    }
  }

  /** The next item names no product. */
  lemma MissingAlone(c: Config, s: State, t: nat)
    requires WellFormed(c, s) && t < |s.threads|
    requires var th := s.threads[t];
             th.pos < |th.items| && th.pc.ReadProduct? && Take(s.db.products, th.items[..th.pos]).Ok?
             && th.items[th.pos].product !in s.db.products
    ensures Run(c, s, [Step(t)]) == Some(AfterItems(c, s, t))
  {
    var th := s.threads[t];
    MissingProduct(s.db, th);
    assert th.items[..th.pos + 1][..th.pos] == th.items[..th.pos];
    TakeTakesDemand(s.db.products, th.items[..th.pos]);
    FailsHere(s.db.products, th.items, th.pos);
    OneStep(c, s, t);
  }

  /** The next item's product is short. */
  lemma ShortAlone(c: Config, s: State, t: nat)
    requires WellFormed(c, s) && Alone(s, t) && t < |s.threads|
    requires var th := s.threads[t];
             th.pos < |th.items| && th.pc.ReadProduct? && Take(s.db.products, th.items[..th.pos]).Ok?
             && th.items[th.pos].product in s.db.products && SeenStock(s.db, th) < th.items[th.pos].quantity
    ensures Run(c, s, [Step(t)] + [Step(t)]) == Some(AfterItems(c, s, t))
  {
    var th := s.threads[t];
    var found := Moved(s, t, th.(pc := TakeStock));
    NothingBusy(c, found, t);
    SeenStockIsTaken(s.db, th);
    FailsHere(s.db.products, th.items, th.pos);
    OneStep(c, found, t);
    assert Next(c, found, t).value == AfterItems(c, s, t);
    StepThen(c, s, t, found, [Step(t)], AfterItems(c, s, t));
  }

  function TakenNext(c: Config, s: State, t: nat): State
    requires WellFormed(c, s) && t < |s.threads|
  {
    var th := s.threads[t];
    Moved(s, t, th.(pos := th.pos + 1, pc := AfterItem(c.calls[t], th.items, th.pos + 1)))
  }

  /** The next item is taken, and then the rest follows. */
  lemma TakenAlone(c: Config, s: State, t: nat, rest: seq<Event>, after: State)
    requires WellFormed(c, s) && Alone(s, t) && t < |s.threads|
    requires var th := s.threads[t];
             th.pos < |th.items| && th.pc.ReadProduct? && Take(s.db.products, th.items[..th.pos]).Ok?
             && th.items[th.pos].product in s.db.products && SeenStock(s.db, th) >= th.items[th.pos].quantity
    requires Run(c, TakenNext(c, s, t), rest) == Some(after)
    ensures Run(c, s, [Step(t)] + ([Step(t)] + rest)) == Some(after)
  {
    var th := s.threads[t];
    var found := Moved(s, t, th.(pc := TakeStock));
    NothingBusy(c, found, t);
    var taken := TakenNext(c, s, t);
    MovedTwice(s, t, found.threads[t], taken.threads[t]);
    assert Next(c, found, t) == Some(taken);
    StepThen(c, found, t, taken, rest, after);
    StepThen(c, s, t, found, [Step(t)] + rest, after);
  }

  lemma TakenStillAlone(c: Config, s: State, t: nat)
    requires WellFormed(c, s) && Alone(s, t) && t < |s.threads|
    ensures WellFormed(c, TakenNext(c, s, t)) && Alone(TakenNext(c, s, t), t)
    ensures AfterItems(c, TakenNext(c, s, t), t) == AfterItems(c, s, t)
  {
    var th := TakenNext(c, s, t).threads[t];
    MovedTwice(s, t, th, AfterItems(c, s, t).threads[t]);
  }

  lemma {:induction false} ItemAlone(c: Config, s: State, t: nat) returns (events: seq<Event>)
    requires WellFormed(c, s) && Alone(s, t) && t < |s.threads|
    requires var th := s.threads[t];
             th.pos < |th.items| && th.pc.ReadProduct? && Take(s.db.products, th.items[..th.pos]).Ok?
    ensures Run(c, s, events) == Some(AfterItems(c, s, t)) && OnlyBy(events, t)
    decreases |s.threads[t].items| - s.threads[t].pos, 0
  {
    var th := s.threads[t];
    if th.items[th.pos].product !in s.db.products {
      MissingAlone(c, s, t);
      events := [Step(t)];
    } else if SeenStock(s.db, th) < th.items[th.pos].quantity {
      ShortAlone(c, s, t);
      events := [Step(t)] + [Step(t)];
    } else {
      SeenStockIsTaken(s.db, th);
      TakenStillAlone(c, s, t);
      var rest := ItemsAlone(c, TakenNext(c, s, t), t);
      TakenAlone(c, s, t, rest, AfterItems(c, s, t));
      events := [Step(t)] + ([Step(t)] + rest);
    }
  }

  /** What is left after the items: the coupon, the membership, the insert and the commit. */
  lemma TailAlone(c: Config, s: State, t: nat) returns (events: seq<Event>, after: State)
    requires Inv(c, s) && Alone(s, t) && t < |s.threads| && !c.secondConnection
    requires var th := s.threads[t];
             th.pc == AfterLastItem(c.calls[t]) && th.pos == |th.items| && !th.redeemed
    ensures Run(c, s, events) == Some(after) && |after.threads| == |s.threads| && OnlyBy(events, t)
    ensures match Persist(c.memberships, s.db, RequestOf(c.calls[t], s.threads[t].items))
            case Ok(db) => after.db == db && Succeeded(c, s, t, after)
            case Err(error) => after == Moved(s, t, after.threads[t]) && after.threads[t].pc == Rollback(error)
  {
    var call, th := c.calls[t], s.threads[t];
    assert ThreadOk(c, s.db, call, th);
    assert th.items[..th.pos] == th.items;
    TakeExact(s.db.products, th.items);
    TakenExist(s.db.products, th.items);
    if !Truthy(CouponOf(call)) {
      events, after := InsertAlone(c, s, t);
    } else {
      NothingBusy(c, s, t);
      OneStep(c, s, t);
      var checked := Checked(c, s.db, call, th.items);
      if checked.Err? {
        return [Step(t)], Moved(s, t, th.(pc := Rollback(checked.error)));
      }
      events, after := CouponAlone(c, s, t);
    }
  }

  ghost predicate Succeeded(c: Config, s: State, t: nat, after: State)
    requires WellFormed(c, s) && t < |s.threads|
  {
    && |after.threads| == |s.threads| && after.carts == s.carts
    && after.threads[t].pc
       == (if c.calls[t].Checkout? then ClearCart(|s.db.orders|) else Done(Created(|s.db.orders|)))
  }

  lemma CouponAlone(c: Config, s: State, t: nat) returns (events: seq<Event>, after: State)
    requires Inv(c, s) && Alone(s, t) && t < |s.threads| && !c.secondConnection
    requires s.threads[t].pc.ReadCoupon? && Checked(c, s.db, c.calls[t], s.threads[t].items).Ok?
    ensures Run(c, s, events) == Some(after) && |after.threads| == |s.threads| && OnlyBy(events, t)
    ensures match Persist(c.memberships, s.db, RequestOf(c.calls[t], s.threads[t].items))
            case Ok(db) => after.db == db && Succeeded(c, s, t, after)
            case Err(error) => after == Moved(s, t, after.threads[t]) && after.threads[t].pc == Rollback(error)
  {
    var call, th := c.calls[t], s.threads[t];
    assert ThreadOk(c, s.db, call, th);
    assert th.items[..th.pos] == th.items;
    TakeExact(s.db.products, th.items);
    TakenExist(s.db.products, th.items);
    var checked := Moved(s, t, th.(pc := RedeemCoupon));
    NothingBusy(c, checked, t);
    ApplyKeepsInv(c, s, Step(t));
    OneStep(c, checked, t);
    var coupon := s.db.coupons[CouponOf(call).value];
    if coupon.usedCount >= coupon.usageLimit {
      after := Moved(s, t, th.(pc := Rollback(CouponExhausted)));
      MovedTwice(s, t, checked.threads[t], after.threads[t]);
      StepThen(c, s, t, checked, [Step(t)], after);
      return [Step(t)] + [Step(t)], after;
    }
    var redeemed := Moved(s, t, th.(pc := ReadMembership, redeemed := true));
    MovedTwice(s, t, checked.threads[t], redeemed.threads[t]);
    ApplyKeepsInv(c, checked, Step(t));
    var rest;
    rest, after := InsertAlone(c, redeemed, t);
    StepThen(c, checked, t, redeemed, rest, after);
    StepThen(c, s, t, checked, [Step(t)] + rest, after);
    events := [Step(t)] + ([Step(t)] + rest);
  }

  lemma InsertAlone(c: Config, s: State, t: nat) returns (events: seq<Event>, after: State)
    requires Inv(c, s) && Alone(s, t) && t < |s.threads| && !c.secondConnection
    requires s.threads[t].pc.ReadMembership?
    ensures Run(c, s, events) == Some(after) && |after.threads| == |s.threads| && OnlyBy(events, t)
    ensures match Persist(c.memberships, s.db, RequestOf(c.calls[t], s.threads[t].items))
            case Ok(db) => after.db == db && Succeeded(c, s, t, after)
            case Err(error) => after == Moved(s, t, after.threads[t]) && after.threads[t].pc == Rollback(error)
  {
    var call, th := c.calls[t], s.threads[t];
    assert ThreadOk(c, s.db, call, th);
    var inserting := Moved(s, t, th.(pc := InsertOrder));
    NothingBusy(c, inserting, t);
    OneStep(c, inserting, t);
    var key := KeyOf(call);
    if key.Some? && HasKey(s.db.orders, key.value) {
      after := Moved(s, t, th.(pc := Rollback(KeyTaken)));
      MovedTwice(s, t, inserting.threads[t], after.threads[t]);
      StepThen(c, s, t, inserting, [Step(t)], after);
      TakenKeyFails(c, s, t);
      return [Step(t)] + [Step(t)], after;
    }
    var committing := Moved(s, t, th.(pc := Commit));
    MovedTwice(s, t, inserting.threads[t], committing.threads[t]);
    assert ThreadOk(c, s.db, call, committing.threads[t]);
    CommitIsPersist(c, s.db, call, committing.threads[t]);
    after := Next(c, committing, t).value;
    OneStep(c, committing, t);
    StepThen(c, inserting, t, committing, [Step(t)], after);
    StepThen(c, s, t, inserting, [Step(t)] + [Step(t)], after);
    events := [Step(t)] + ([Step(t)] + [Step(t)]);
  }

  lemma TakenKeyFails(c: Config, s: State, t: nat)
    requires Inv(c, s) && t < |s.threads| && s.threads[t].pc.ReadMembership?
    requires KeyOf(c.calls[t]).Some? && HasKey(s.db.orders, KeyOf(c.calls[t]).value)
    ensures Persist(c.memberships, s.db, RequestOf(c.calls[t], s.threads[t].items)) == Err(KeyTaken)
  {
    var th := s.threads[t];
    assert ThreadOk(c, s.db, c.calls[t], th);
    assert th.items[..th.pos] == th.items;
    TakeExact(s.db.products, th.items);
    TakenExist(s.db.products, th.items);
  }

  /** Left alone from BEGIN, a request ends as the serial transaction says. */
  lemma AloneIsSerial(c: Config, s: State, t: nat) returns (events: seq<Event>, after: State)
    requires Inv(c, s) && Alone(s, t) && t < |s.threads| && s.threads[t].pc.Begin?
    requires !c.secondConnection && FreeConnection(c, s)
    ensures Run(c, s, events) == Some(after) && |after.threads| == |s.threads| && OnlyBy(events, t)
    ensures match Persist(c.memberships, s.db, RequestOf(c.calls[t], s.threads[t].items))
            case Ok(db) => after.db == db && Succeeded(c, s, t, after)
            case Err(error) => after == Moved(s, t, after.threads[t]) && after.threads[t].pc == Rollback(error)
  {
    var th := s.threads[t];
    var items, taken := ItemsFromBegin(c, s, t);
    events, after := items, taken;
    if Take(s.db.products, th.items).Ok? {
      RunKeepsInv(c, s, items);
      var rest;
      rest, after := TailAlone(c, taken, t);
      RunConcat(c, s, items, rest);
      events := items + rest;
    }
  }

  lemma ItemsFromBegin(c: Config, s: State, t: nat) returns (events: seq<Event>, after: State)
    requires WellFormed(c, s) && Alone(s, t) && t < |s.threads| && s.threads[t].pc.Begin? && FreeConnection(c, s)
    ensures Run(c, s, events) == Some(after) && OnlyBy(events, t)
    ensures after == Moved(s, t, after.threads[t]) && after.threads[t].items == s.threads[t].items
    ensures match Take(s.db.products, s.threads[t].items)
            case Ok(_) => after.threads[t].pc == AfterLastItem(c.calls[t])
                          && after.threads[t].pos == |s.threads[t].items| && !after.threads[t].redeemed
            case Err(error) => after.threads[t].pc == Rollback(error)
  {
    var call, th := c.calls[t], s.threads[t];
    var begun := Moved(s, t, th.(pc := AfterItem(call, th.items, 0), pos := 0, redeemed := false));
    assert th.items[..0] == [];
    var items := ItemsAlone(c, begun, t);
    after := AfterItems(c, begun, t);
    StepThen(c, s, t, begun, items, after);
    MovedTwice(s, t, begun.threads[t], after.threads[t]);
    events := [Step(t)] + items;
  }

  lemma {:induction false} RunKeepsInv(c: Config, s: State, events: seq<Event>)
    requires Inv(c, s) && Run(c, s, events).Some?
    ensures Inv(c, Run(c, s, events).value)
  {
    if events != [] {
      RunKeepsInv(c, s, events[..|events| - 1]);
      ApplyKeepsInv(c, Run(c, s, events[..|events| - 1]).value, events[|events| - 1]);
    }
  }

  /** Steps of one request leave every other where it was. */
  lemma {:induction false} OnlyItsThread(c: Config, s: State, events: seq<Event>, t: nat)
    requires WellFormed(c, s) && OnlyBy(events, t) && Run(c, s, events).Some?
    ensures var after := Run(c, s, events).value;
            |after.threads| == |s.threads|
            && forall o :: 0 <= o < |s.threads| && o != t ==> after.threads[o] == s.threads[o]
  {
    if events != [] {
      var front := events[..|events| - 1];
      OnlyItsThread(c, s, front, t);
      assert events[|events| - 1] == Step(t);
      StepMovesOne(c, Run(c, s, front).value, t);
    }
  }
}
