/**
  Replaying POST /orders while anything else runs (apiV2/src/orders/orders.service.ts): which answer a
  keyed request gets, from its lookup before the transaction or the one after a unique violation.
*/
module CreateReplay {
  import opened Wrappers
  import opened Bytes
  import opened Orders
  import opened OrderMachine
  import opened OrderSafety
  import opened Idempotency
  import opened CheckoutReplay

  // ---- a lookup that comes after the commit -------------------------------------------------

  ghost predicate StillToLook(c: Config, s: State, t: nat, n: nat, key: Text, items: seq<Item>)
    requires WellFormed(c, s) && t < |s.threads|
  {
    && HasKey(s.db.orders, key) && Find(s.db.orders, key) == Some(n) && s.threads[t].items == items
    && (s.threads[t].pc.Lookup? || s.threads[t].pc == Done(LateAnswer(s.db.orders, n, UserOf(c.calls[t]), items)))
  }

  lemma LateStep(c: Config, s: State, e: Event, t: nat, n: nat, key: Text, items: seq<Item>)
    requires Inv(c, s) && t < |s.threads| && key != [] && KeyOf(c.calls[t]) == Some(key)
    requires StillToLook(c, s, t, n, key, items) && Apply(c, s, e).Some? && |Apply(c, s, e).value.threads| == |s.threads|
    ensures StillToLook(c, Apply(c, s, e).value, t, n, key, items)
  {
    OrdersGrow(c, s, e);
    KeyStays(s.db, Apply(c, s, e).value.db, key);
    LookupDecides(s.db.orders, key, UserOf(c.calls[t]), Some(items));
    if e.Step? { StepMovesOne(c, s, e.t); }
  }

  /**
    A request that has not looked its key up when an order with that key is committed is answered with
    that order if it is its user's and has the same lines as a multiset, and refused as a conflict
    otherwise, whatever runs beside it.
  */
  lemma {:induction false} LaterCreateIsDecided(c: Config, s: State, events: seq<Event>, t: nat, key: Text)
    requires Inv(c, s) && t < |s.threads| && s.threads[t].pc.Lookup?
    requires key != [] && KeyOf(c.calls[t]) == Some(key) && HasKey(s.db.orders, key)
    requires Run(c, s, events).Some?
    ensures var after := Run(c, s, events).value;
            && Inv(c, after) && |after.threads| == |s.threads|
            && StillToLook(c, after, t, Find(s.db.orders, key).value, key, s.threads[t].items)
  {
    if events != [] {
      var front := events[..|events| - 1];
      LaterCreateIsDecided(c, s, front, t, key);
      var before, e := Run(c, s, front).value, events[|events| - 1];
      ApplyKeepsInv(c, before, e);
      LateStep(c, before, e, t, Find(s.db.orders, key).value, key, s.threads[t].items);
    }
  }

  // ---- every request ------------------------------------------------------------------------

  /** Where a keyed request can be, given whether one of its lookups found the key. */
  ghost predicate PlacedCreate(orders: seq<Order>, call: Call, th: Thread, key: Text, found: bool) {
    match th.pc
    case FirstLookup => false
    case ReadCart => false
    case ClearCart(_) => false
    case Done(Replayed(_)) => LookedLate(orders, call, th, key, found)
    case Done(Conflict) => LookedLate(orders, call, th, key, found)
    case Done(EmptyCart) => false
    case Done(Failed(error)) => !found && error != KeyTaken
    case Rollback(error) => !found && (error == KeyTaken ==> HasKey(orders, key))
    case LookupAgain(error) => !found && error == KeyTaken && HasKey(orders, key)
    case _ => !found
  }

  ghost predicate LookedLate(orders: seq<Order>, call: Call, th: Thread, key: Text, found: bool) {
    found && HasKey(orders, key) && th.pc == Done(LateAnswer(orders, Find(orders, key).value, UserOf(call), th.items))
  }

  lemma PlacedCreateStays(before: Database, after: Database, call: Call, th: Thread, key: Text, found: bool)
    requires OrdersKept(before, after) && PlacedCreate(before.orders, call, th, key, found)
    ensures PlacedCreate(after.orders, call, th, key, found)
  {
    if HasKey(before.orders, key) { KeyStays(before, after, key); }
  }

  ghost predicate CreateNext(c: Config, s: State, t: nat, key: Text, found: bool)
    requires WellFormed(c, s) && t < |s.threads|
  {
    Next(c, s, t).Some? ==>
      t < |Next(c, s, t).value.threads|
      && Next(c, s, t).value.threads[t].items == s.threads[t].items
      && PlacedCreate(s.db.orders, c.calls[t], Next(c, s, t).value.threads[t], key,
                      found || Looks(s, Step(t), t, key, false, true))
  }

  ghost predicate IsKeyed(call: Call, key: Text) { call.Create? && key != [] && KeyOf(call) == Some(key) }

  lemma LookCreates(c: Config, s: State, t: nat, key: Text, found: bool)
    requires WellFormed(c, s) && t < |s.threads| && IsKeyed(c.calls[t], key)
    requires PlacedCreate(s.db.orders, c.calls[t], s.threads[t], key, found)
    requires s.threads[t].pc.Lookup? || s.threads[t].pc.LookupAgain?
    ensures CreateNext(c, s, t, key, found)
  {
    LookupDecides(s.db.orders, key, UserOf(c.calls[t]), Some(s.threads[t].items));
  }

  lemma ClosedCreates(c: Config, s: State, t: nat, key: Text, found: bool)
    requires WellFormed(c, s) && t < |s.threads| && IsKeyed(c.calls[t], key)
    requires PlacedCreate(s.db.orders, c.calls[t], s.threads[t], key, found)
    requires s.threads[t].pc.Begin? || s.threads[t].pc.Done?
    ensures CreateNext(c, s, t, key, found)
  {
  }

  lemma OpenCreates(c: Config, s: State, t: nat, key: Text, found: bool)
    requires WellFormed(c, s) && t < |s.threads| && IsKeyed(c.calls[t], key)
    requires PlacedCreate(s.db.orders, c.calls[t], s.threads[t], key, found)
    requires IsOpen(s.threads[t])
    ensures CreateNext(c, s, t, key, found)
  {
  }

  lemma OwnCreateStep(c: Config, s: State, t: nat, key: Text, found: bool)
    requires WellFormed(c, s) && t < |s.threads| && IsKeyed(c.calls[t], key)
    requires PlacedCreate(s.db.orders, c.calls[t], s.threads[t], key, found)
    ensures CreateNext(c, s, t, key, found)
  {
    if IsOpen(s.threads[t]) {
      OpenCreates(c, s, t, key, found);
    } else if s.threads[t].pc.Lookup? || s.threads[t].pc.LookupAgain? {
      LookCreates(c, s, t, key, found);
    } else {
      ClosedCreates(c, s, t, key, found);
    }
  }

  lemma EventPlacesCreate(c: Config, s: State, e: Event, t: nat, key: Text, found: bool)
    requires WellFormed(c, s) && t < |s.threads| && IsKeyed(c.calls[t], key)
    requires PlacedCreate(s.db.orders, c.calls[t], s.threads[t], key, found)
    requires Apply(c, s, e).Some? && |Apply(c, s, e).value.threads| == |s.threads|
    ensures var after := Apply(c, s, e).value;
            && after.threads[t].items == s.threads[t].items
            && PlacedCreate(after.db.orders, c.calls[t], after.threads[t], key, found || Looks(s, e, t, key, false, true))
  {
    var after := Apply(c, s, e).value;
    OrdersGrow(c, s, e);
    if e == Step(t) {
      OwnCreateStep(c, s, t, key, found);
    } else if e.Step? {
      StepMovesOne(c, s, e.t);
    }
    PlacedCreateStays(s.db, after.db, c.calls[t], after.threads[t], key, found || Looks(s, e, t, key, false, true));
  }

  ghost predicate CreatePlacedAfter(c: Config, s0: State, events: seq<Event>, t: nat, key: Text)
    requires WellFormed(c, s0) && t < |c.calls|
  {
    && Run(c, s0, events).Some?
    && var s := Run(c, s0, events).value;
       && Inv(c, s) && s.threads[t].items == s0.threads[t].items
       && PlacedCreate(s.db.orders, c.calls[t], s.threads[t], key, FoundLater(c, s0, events, t, key))
  }

  lemma OneMoreCreate(c: Config, s0: State, front: seq<Event>, e: Event, t: nat, key: Text)
    requires WellFormed(c, s0) && t < |c.calls| && IsKeyed(c.calls[t], key)
    requires CreatePlacedAfter(c, s0, front, t, key) && Apply(c, Run(c, s0, front).value, e).Some?
    ensures CreatePlacedAfter(c, s0, front + [e], t, key)
  {
    var before := Run(c, s0, front).value;
    ApplyKeepsInv(c, before, e);
    LooksSoFar(c, s0, front, e, t, key, false, true);
    EventPlacesCreate(c, before, e, t, key, FoundLater(c, s0, front, t, key));
    assert (front + [e])[..|front|] == front;
  }

  lemma {:induction false} EveryCreateIsPlaced(c: Config, db0: Database, carts: map<Text, seq<Item>>,
                                               events: seq<Event>, t: nat, key: Text)
    requires t < |c.calls| && IsKeyed(c.calls[t], key) && Run(c, Initial(c, db0, carts), events).Some?
    ensures CreatePlacedAfter(c, Initial(c, db0, carts), events, t, key)
  {
    if events == [] {
      InitialInv(c, db0, carts);
    } else {
      var front := events[..|events| - 1];
      EveryCreateIsPlaced(c, db0, carts, front, t, key);
      OneMoreCreate(c, Initial(c, db0, carts), front, events[|events| - 1], t, key);
      assert front + [events[|events| - 1]] == events;
    }
  }

  /** Who created an order with a key found it unused at the start. */
  lemma CreatedWasNew(c: Config, db0: Database, carts: map<Text, seq<Item>>, events: seq<Event>, t: nat, key: Text, k: nat)
    requires t < |c.calls| && KeyOf(c.calls[t]) == Some(key) && Run(c, Initial(c, db0, carts), events).Some?
    requires Run(c, Initial(c, db0, carts), events).value.threads[t].pc == Done(Created(k))
    ensures !HasKey(db0.orders, key)
  {
    var s := Run(c, Initial(c, db0, carts), events).value;
    EveryRunAnswers(c, db0, carts, events);
    CreatorOfOrder(c, |db0.orders|, s, t, k);
    EveryRunConserves(c, db0, carts, events);
    assert forall i :: 0 <= i < |db0.orders| ==> db0.orders[i] == s.db.orders[..|db0.orders|][i];
  }

  /** The answer of a finished keyed request whose key's order is committed. */
  ghost predicate CreateAnswerOf(response: Response, orders: seq<Order>, n: nat, user: Text, items: seq<Item>, found: bool)
    requires n < |orders|
  {
    if found then response == LateAnswer(orders, n, user, items)
    else (response == Created(n) && orders[n].user == user && orders[n].items == items)
         || (response.Failed? && response.error != KeyTaken)
  }

  /**
    In every run, a finished keyed POST /orders whose key's order is committed is answered by user and
    lines when a lookup of it found the key, before its transaction or after a unique violation; else it
    created that order itself, or failed for a reason that is not the key.
  */
  lemma CreateAnswers(c: Config, db0: Database, carts: map<Text, seq<Item>>, events: seq<Event>, t: nat, key: Text)
    requires t < |c.calls| && IsKeyed(c.calls[t], key) && Run(c, Initial(c, db0, carts), events).Some?
    requires var s := Run(c, Initial(c, db0, carts), events).value; HasKey(s.db.orders, key) && s.threads[t].pc.Done?
    ensures var s0 := Initial(c, db0, carts); var s := Run(c, s0, events).value;
            CreateAnswerOf(s.threads[t].pc.response, s.db.orders, Find(s.db.orders, key).value, UserOf(c.calls[t]),
                           c.calls[t].request.items, FoundLater(c, s0, events, t, key))
  {
    EveryCreateIsPlaced(c, db0, carts, events, t, key);
    var pc := Run(c, Initial(c, db0, carts), events).value.threads[t].pc;
    if pc.response.Created? {
      CreatedWasNew(c, db0, carts, events, t, key, pc.response.order);
      CreatedIsNamed(c, db0, carts, events, t, key, pc.response.order);
    }
  }

  /**
    So it is refused as a conflict exactly when one of its lookups found an order of another user or with
    other lines, which is to say: the order is another user's or has other lines, and the request did not
    fail in its own transaction. Otherwise its answer is that order, or its own failure.
  */
  lemma CreateRefusedExactly(c: Config, db0: Database, carts: map<Text, seq<Item>>, events: seq<Event>, t: nat, key: Text)
    requires t < |c.calls| && IsKeyed(c.calls[t], key) && Run(c, Initial(c, db0, carts), events).Some?
    requires var s := Run(c, Initial(c, db0, carts), events).value; HasKey(s.db.orders, key) && s.threads[t].pc.Done?
    ensures var s0 := Initial(c, db0, carts); var s := Run(c, s0, events).value;
            var response, n := s.threads[t].pc.response, Find(s.db.orders, key).value;
            var same := s.db.orders[n].user == UserOf(c.calls[t])
                        && multiset(s.db.orders[n].items) == multiset(c.calls[t].request.items);
            && (response == Conflict <==> FoundLater(c, s0, events, t, key) && !same)
            && (response == Conflict <==> !same && !response.Failed?)
            && (same && !response.Failed? <==> response == Replayed(n) || response == Created(n))
  {
    CreateAnswers(c, db0, carts, events, t, key);
  }
}
