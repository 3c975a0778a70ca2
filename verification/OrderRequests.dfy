/**
  A whole request of the order machine with nothing running beside it: POST /orders ends as `create` does,
  and POST /cart/checkout as `checkout` does, tables, carts and answer alike.
*/
module OrderRequests {
  import opened Wrappers
  import opened Bytes
  import opened Orders
  import opened OrderMachine
  import opened OrderSafety
  import opened OrderAlone
  import OrderProgress
  import Cart

  /** No transaction is open, and the pool is not empty. */
  ghost predicate Idle(c: Config, s: State) {
    c.pool > 0 && !c.secondConnection && forall o :: 0 <= o < |s.threads| ==> !IsOpen(s.threads[o])
  }

  lemma IdleIsFree(c: Config, s: State)
    requires Idle(c, s)
    ensures FreeConnection(c, s)
  {
    OrderProgress.NoneOpen(s.threads);
  }

  /** The thread has answered, and these are the tables and carts. */
  ghost predicate Ends(s: State, t: nat, after: State, db: Database, carts: map<Text, seq<Item>>, response: Response) {
    && |after.threads| == |s.threads| && t < |after.threads| && after.threads[t].pc == Done(response)
    && after.db == db && after.carts == carts
  }

  /** The answer of a transaction and what it leaves, when the key is unused. */
  ghost predicate EndsPersisted(c: Config, s: State, t: nat, after: State)
    requires WellFormed(c, s) && t < |s.threads|
  {
    var call, items := c.calls[t], s.threads[t].items;
    match Persist(c.memberships, s.db, RequestOf(call, items))
    case Ok(db) =>
      Ends(s, t, after, db, if call.Checkout? then s.carts[UserOf(call) := []] else s.carts, Created(|s.db.orders|))
    case Err(error) => Ends(s, t, after, s.db, s.carts, Failed(error))
  }

  predicate KeyIsNew(call: Call, db: Database) { Truthy(KeyOf(call)) ==> !HasKey(db.orders, KeyOf(call).value) }

  lemma RollsBack(c: Config, s: State, t: nat, error: Error)
    requires WellFormed(c, s) && t < |s.threads| && s.threads[t].pc == Rollback(error)
    requires !(error.KeyTaken? && Truthy(KeyOf(c.calls[t])))
    ensures Next(c, s, t).Some? && Ends(s, t, Next(c, s, t).value, s.db, s.carts, Failed(error))
  {
  }

  lemma Clears(c: Config, s: State, t: nat, order: nat)
    requires WellFormed(c, s) && t < |s.threads| && s.threads[t].pc == ClearCart(order) && Idle(c, s)
    ensures Next(c, s, t).Some?
    ensures Ends(s, t, Next(c, s, t).value, s.db, s.carts[UserOf(c.calls[t]) := []], Created(order))
  {
    IdleIsFree(c, s);
  }

  lemma StaysIdle(c: Config, s: State, events: seq<Event>, t: nat)
    requires WellFormed(c, s) && Idle(c, s) && OnlyBy(events, t) && t < |s.threads| && Run(c, s, events).Some?
    requires t < |Run(c, s, events).value.threads| && !IsOpen(Run(c, s, events).value.threads[t])
    ensures Idle(c, Run(c, s, events).value)
  {
    OnlyItsThread(c, s, events, t);
  }

  lemma PushStep(c: Config, s: State, events: seq<Event>, mid: State, t: nat, after: State)
    requires WellFormed(c, s) && Run(c, s, events) == Some(mid) && WellFormed(c, mid) && t < |mid.threads|
    requires OnlyBy(events, t) && Next(c, mid, t) == Some(after)
    ensures Run(c, s, events + [Step(t)]) == Some(after) && OnlyBy(events + [Step(t)], t)
  {
    OneStep(c, mid, t);
    RunConcat(c, s, events, [Step(t)]);
  }

  lemma TakenKeyWasThere(c: Config, s: State, t: nat)
    requires WellFormed(c, s) && t < |s.threads|
    requires Persist(c.memberships, s.db, RequestOf(c.calls[t], s.threads[t].items)) == Err(KeyTaken)
    ensures KeyOf(c.calls[t]).Some? && HasKey(s.db.orders, KeyOf(c.calls[t]).value)
  {
    RefusedForReason(c.memberships, s.db, RequestOf(c.calls[t], s.threads[t].items));
  }

  /** The last statement of a transaction that failed. */
  lemma FailedEnding(c: Config, s: State, t: nat, front: seq<Event>, mid: State, error: Error)
    returns (events: seq<Event>, after: State)
    requires WellFormed(c, s) && t < |s.threads| && KeyIsNew(c.calls[t], s.db)
    requires Run(c, s, front) == Some(mid) && OnlyBy(front, t)
    requires Persist(c.memberships, s.db, RequestOf(c.calls[t], s.threads[t].items)) == Err(error)
    requires |mid.threads| == |s.threads| && mid == Moved(s, t, mid.threads[t]) && mid.threads[t].pc == Rollback(error)
    ensures Run(c, s, events) == Some(after) && OnlyBy(events, t)
    ensures Ends(s, t, after, s.db, s.carts, Failed(error))
  {
    if error.KeyTaken? {
      TakenKeyWasThere(c, s, t);
    }
    RollsBack(c, mid, t, error);
    after := Next(c, mid, t).value;
    PushStep(c, s, front, mid, t, after);
    events := front + [Step(t)];
  }

  /** The last statement of a checkout that committed. */
  lemma ClearedEnding(c: Config, s: State, t: nat, front: seq<Event>, mid: State, order: nat)
    returns (events: seq<Event>, after: State)
    requires WellFormed(c, s) && Idle(c, s) && t < |s.threads| && Run(c, s, front) == Some(mid) && OnlyBy(front, t)
    requires WellFormed(c, mid) && |mid.threads| == |s.threads| && mid.threads[t].pc == ClearCart(order)
    ensures Run(c, s, events) == Some(after) && OnlyBy(events, t)
    ensures Ends(s, t, after, mid.db, mid.carts[UserOf(c.calls[t]) := []], Created(order))
  {
    StaysIdle(c, s, front, t);
    Clears(c, mid, t, order);
    after := Next(c, mid, t).value;
    PushStep(c, s, front, mid, t, after);
    events := front + [Step(t)];
  }

  /** From BEGIN to the answer. */
  lemma TransactionAlone(c: Config, s: State, t: nat) returns (events: seq<Event>, after: State)
    requires Inv(c, s) && Idle(c, s) && t < |s.threads| && s.threads[t].pc.Begin? && KeyIsNew(c.calls[t], s.db)
    ensures Run(c, s, events) == Some(after) && OnlyBy(events, t) && EndsPersisted(c, s, t, after)
  {
    IdleIsFree(c, s);
    var front, mid := AloneIsSerial(c, s, t);
    RunKeepsInv(c, s, front);
    var persisted := Persist(c.memberships, s.db, RequestOf(c.calls[t], s.threads[t].items));
    if persisted.Err? {
      events, after := FailedEnding(c, s, t, front, mid, persisted.error);
    } else if c.calls[t].Create? {
      events, after := front, mid;
    } else {
      events, after := ClearedEnding(c, s, t, front, mid, |s.db.orders|);
    }
  }

  /** Where a closed thread goes, others and tables staying. */
  ghost predicate Turns(c: Config, s: State, t: nat, pc: Pc, items: seq<Item>)
    requires WellFormed(c, s) && t < |s.threads|
  {
    Next(c, s, t) == Some(Moved(s, t, Thread(pc, items, s.threads[t].pos, s.threads[t].redeemed)))
  }

  lemma TurnKeeps(c: Config, s: State, t: nat, pc: Pc, items: seq<Item>)
    requires Inv(c, s) && Idle(c, s) && t < |s.threads| && Turns(c, s, t, pc, items)
    requires !IsOpen(Thread(pc, items, s.threads[t].pos, s.threads[t].redeemed))
    ensures var after := Next(c, s, t).value; Inv(c, after) && Idle(c, after) && after.db == s.db && after.carts == s.carts
  {
    ApplyKeepsInv(c, s, Step(t));
  }

  lemma PrependStep(c: Config, s: State, t: nat, mid: State, rest: seq<Event>, after: State)
    requires WellFormed(c, s) && t < |s.threads| && Next(c, s, t) == Some(mid) && WellFormed(c, mid)
    requires Run(c, mid, rest) == Some(after) && OnlyBy(rest, t)
    ensures Run(c, s, [Step(t)] + rest) == Some(after) && OnlyBy([Step(t)] + rest, t)
  {
    StepThen(c, s, t, mid, rest, after);
  }

  /** What `create` comes to from its first statement. */
  ghost predicate EndsCreated(c: Config, s: State, t: nat, after: State)
    requires WellFormed(c, s) && t < |s.threads|
  {
    var call := c.calls[t];
    var (db, response) := CreateAlone(c.memberships, s.db, RequestOf(call, s.threads[t].items));
    Ends(s, t, after, db, if response.Created? && call.Checkout? then s.carts[UserOf(call) := []] else s.carts, response)
  }

  lemma LookupTurns(c: Config, s: State, t: nat)
    requires WellFormed(c, s) && Idle(c, s) && t < |s.threads| && s.threads[t].pc.Lookup? && Truthy(KeyOf(c.calls[t]))
    ensures var found := FindExisting(s.db.orders, KeyOf(c.calls[t]).value, UserOf(c.calls[t]), Some(s.threads[t].items));
            Turns(c, s, t, if found.Some? then Done(found.value) else Begin, s.threads[t].items)
  {
    IdleIsFree(c, s);
  }

  lemma CreateRuns(c: Config, s: State, t: nat) returns (events: seq<Event>, after: State)
    requires Inv(c, s) && Idle(c, s) && t < |s.threads| && s.threads[t].pc == EnterCreate(c.calls[t])
    ensures Run(c, s, events) == Some(after) && OnlyBy(events, t) && EndsCreated(c, s, t, after)
  {
    var call, items := c.calls[t], s.threads[t].items;
    if Truthy(KeyOf(call)) {
      LookupTurns(c, s, t);
      var found := FindExisting(s.db.orders, KeyOf(call).value, UserOf(call), Some(items));
      var mid := Next(c, s, t).value;
      if found.Some? {
        OneStep(c, s, t);
        events, after := [Step(t)], mid;
      } else {
        TurnKeeps(c, s, t, Begin, items);
        var rest;
        rest, after := TransactionAlone(c, mid, t);
        PrependStep(c, s, t, mid, rest, after);
        events := [Step(t)] + rest;
      }
    } else {
      events, after := TransactionAlone(c, s, t);
    }
  }

  lemma CartTurns(c: Config, s: State, t: nat)
    requires WellFormed(c, s) && Idle(c, s) && t < |s.threads| && s.threads[t].pc.ReadCart?
    ensures var items := Cart.LinesOf(s.carts, UserOf(c.calls[t]));
            Turns(c, s, t, if items == [] then Done(EmptyCart) else EnterCreate(c.calls[t]), items)
  {
    IdleIsFree(c, s);
  }

  /** What `checkout` comes to once its first lookup has found nothing. */
  ghost predicate EndsBought(c: Config, s: State, t: nat, after: State)
    requires WellFormed(c, s) && t < |s.threads|
  {
    var call := c.calls[t];
    var items := Cart.LinesOf(s.carts, UserOf(call));
    if items == [] then Ends(s, t, after, s.db, s.carts, EmptyCart)
    else
      var (db, response) := CreateAlone(c.memberships, s.db, RequestOf(call, items));
      Ends(s, t, after, db, if response.Created? then s.carts[UserOf(call) := []] else s.carts, response)
  }

  lemma CartRuns(c: Config, s: State, t: nat) returns (events: seq<Event>, after: State)
    requires Inv(c, s) && Idle(c, s) && t < |s.threads| && s.threads[t].pc.ReadCart?
    ensures Run(c, s, events) == Some(after) && OnlyBy(events, t) && EndsBought(c, s, t, after)
  {
    assert ThreadOk(c, s.db, c.calls[t], s.threads[t]);
    var items := Cart.LinesOf(s.carts, UserOf(c.calls[t]));
    CartTurns(c, s, t);
    var mid := Next(c, s, t).value;
    if items == [] {
      OneStep(c, s, t);
      events, after := [Step(t)], mid;
    } else {
      TurnKeeps(c, s, t, EnterCreate(c.calls[t]), items);
      var rest;
      rest, after := CreateRuns(c, mid, t);
      PrependStep(c, s, t, mid, rest, after);
      events := [Step(t)] + rest;
    }
  }

  lemma FirstLookupTurns(c: Config, s: State, t: nat)
    requires WellFormed(c, s) && Idle(c, s) && t < |s.threads| && s.threads[t].pc.FirstLookup? && Truthy(KeyOf(c.calls[t]))
    ensures var found := FindExisting(s.db.orders, KeyOf(c.calls[t]).value, UserOf(c.calls[t]), None);
            Turns(c, s, t, if found.Some? then Done(found.value) else ReadCart, s.threads[t].items)
  {
    IdleIsFree(c, s);
  }

  /** A request that is to start answers as its handler does with nothing beside it. */
  ghost predicate EndsAlone(c: Config, s: State, t: nat, after: State)
    requires WellFormed(c, s) && t < |s.threads|
  {
    match c.calls[t]
    case Create(request) =>
      var (db, response) := CreateAlone(c.memberships, s.db, request);
      Ends(s, t, after, db, s.carts, response)
    case Checkout(user, key, coupon, now) =>
      var (db, carts, response) := Cart.CheckoutAlone(c.memberships, s.db, s.carts, user, key, coupon, now);
      Ends(s, t, after, db, carts, response)
  }

  /**
    With no transaction open, a request's own statements, and nothing else, bring it to the answer, the tables
    and the carts of the sequential handler.
  */
  lemma RequestAlone(c: Config, s: State, t: nat) returns (events: seq<Event>, after: State)
    requires Inv(c, s) && Idle(c, s) && t < |s.threads| && s.threads[t] == InitialThread(c.calls[t])
    ensures Run(c, s, events) == Some(after) && OnlyBy(events, t) && EndsAlone(c, s, t, after)
  {
    match c.calls[t] {
      case Create(_) => events, after := CreateRuns(c, s, t);
      case Checkout(user, key, _, _) =>
        if Truthy(key) {
          FirstLookupTurns(c, s, t);
          var found := FindExisting(s.db.orders, key.value, user, None);
          var mid := Next(c, s, t).value;
          if found.Some? {
            OneStep(c, s, t);
            events, after := [Step(t)], mid;
          } else {
            TurnKeeps(c, s, t, ReadCart, []);
            var rest;
            rest, after := CartRuns(c, mid, t);
            PrependStep(c, s, t, mid, rest, after);
            events := [Step(t)] + rest;
          }
        } else {
          events, after := CartRuns(c, s, t);
        }
    }
  }
}
