/**
  Replaying a checkout while anything else runs (apiV2/src/cart/cart.service.ts): which answer a keyed
  checkout gets, decided by what its lookups found and what it read from the cart.
*/
module CheckoutReplay {
  import opened Wrappers
  import opened Bytes
  import opened Orders
  import opened OrderMachine
  import opened OrderSafety
  import opened Idempotency

  // ---- committed orders stay ----------------------------------------------------------------

  lemma {:induction false} FindStays(orders: seq<Order>, more: seq<Order>, key: Text)
    requires HasKey(orders, key)
    ensures HasKey(orders + more, key) && Find(orders + more, key) == Find(orders, key)
  {
    var i := Find(orders, key).value;
    assert (orders + more)[i].key == Some(key);
    if orders[0].key != Some(key) {
      FindStays(orders[1..], more, key);
      assert (orders + more)[1..] == orders[1..] + more;
    }
  }

  /** No event takes a committed order back. */
  ghost predicate OrdersKept(before: Database, after: Database) {
    |before.orders| <= |after.orders| && after.orders == before.orders + after.orders[|before.orders|..]
  }

  lemma OrdersGrow(c: Config, s: State, e: Event)
    requires WellFormed(c, s) && Apply(c, s, e).Some?
    ensures OrdersKept(s.db, Apply(c, s, e).value.db)
  {
  }

  lemma KeyStays(before: Database, after: Database, key: Text)
    requires OrdersKept(before, after) && HasKey(before.orders, key)
    ensures HasKey(after.orders, key) && Find(after.orders, key) == Find(before.orders, key)
  {
    FindStays(before.orders, after.orders[|before.orders|..], key);
  }

  // ---- a lookup that comes after the commit -------------------------------------------------

  /** The answer to a checkout whose first lookup finds the key. */
  function EarlyAnswer(orders: seq<Order>, n: nat, user: Text): Response
    requires n < |orders|
  {
    if orders[n].user == user then Replayed(n) else Conflict
  }

  ghost predicate StillEarly(c: Config, s: State, t: nat, n: nat, key: Text)
    requires WellFormed(c, s) && t < |s.threads|
  {
    && HasKey(s.db.orders, key) && Find(s.db.orders, key) == Some(n)
    && (s.threads[t].pc.FirstLookup? || s.threads[t].pc == Done(EarlyAnswer(s.db.orders, n, UserOf(c.calls[t]))))
  }

  lemma EarlyStep(c: Config, s: State, e: Event, t: nat, n: nat, key: Text)
    requires Inv(c, s) && t < |s.threads| && key != [] && KeyOf(c.calls[t]) == Some(key)
    requires StillEarly(c, s, t, n, key) && Apply(c, s, e).Some? && |Apply(c, s, e).value.threads| == |s.threads|
    ensures StillEarly(c, Apply(c, s, e).value, t, n, key)
  {
    OrdersGrow(c, s, e);
    KeyStays(s.db, Apply(c, s, e).value.db, key);
    LookupDecides(s.db.orders, key, UserOf(c.calls[t]), None);
    if e.Step? { StepMovesOne(c, s, e.t); }
  }

  /**
    A keyed checkout that has not looked its key up when an order with that key is committed is answered
    with that order if it is its user's, and refused as a conflict if it is not. Whatever runs beside it,
    whatever happens to the cart, it gets no other answer.
  */
  lemma {:induction false} LaterCheckoutReplays(c: Config, s: State, events: seq<Event>, t: nat, key: Text)
    requires Inv(c, s) && t < |s.threads| && s.threads[t].pc.FirstLookup?
    requires key != [] && KeyOf(c.calls[t]) == Some(key) && HasKey(s.db.orders, key)
    requires Run(c, s, events).Some?
    ensures var after := Run(c, s, events).value; var n := Find(s.db.orders, key).value;
            && Inv(c, after) && |after.threads| == |s.threads|
            && StillEarly(c, after, t, n, key)
  {
    if events != [] {
      var front := events[..|events| - 1];
      LaterCheckoutReplays(c, s, front, t, key);
      var before, e := Run(c, s, front).value, events[|events| - 1];
      ApplyKeepsInv(c, before, e);
      EarlyStep(c, before, e, t, Find(s.db.orders, key).value, key);
    }
  }

  // ---- every checkout -----------------------------------------------------------------------

  /** The event is a lookup of `t`, its first one or a later one, and an order with the key is there or not. */
  ghost predicate Looks(s: State, e: Event, t: nat, key: Text, first: bool, found: bool) {
    && e == Step(t) && t < |s.threads| && HasKey(s.db.orders, key) == found
    && if first then s.threads[t].pc.FirstLookup? else s.threads[t].pc.Lookup? || s.threads[t].pc.LookupAgain?
  }

  /** Event `j` of the run is such a lookup. */
  ghost predicate LooksAt(c: Config, s0: State, events: seq<Event>, j: nat, t: nat, key: Text, first: bool, found: bool)
    requires WellFormed(c, s0)
  {
    && j < |events| && Run(c, s0, events[..j]).Some?
    && Looks(Run(c, s0, events[..j]).value, events[j], t, key, first, found)
  }

  ghost predicate SomeLook(c: Config, s0: State, events: seq<Event>, t: nat, key: Text, first: bool, found: bool)
    requires WellFormed(c, s0)
  {
    exists j :: LooksAt(c, s0, events, j, t, key, first, found)
  }

  /** The checkout's first lookup came before any order with its key was committed. */
  ghost predicate Missed(c: Config, s0: State, events: seq<Event>, t: nat, key: Text)
    requires WellFormed(c, s0)
  {
    SomeLook(c, s0, events, t, key, true, false)
  }

  /** A later lookup, before its transaction or after a unique violation, found the key. */
  ghost predicate FoundLater(c: Config, s0: State, events: seq<Event>, t: nat, key: Text)
    requires WellFormed(c, s0)
  {
    SomeLook(c, s0, events, t, key, false, true)
  }

  lemma SameLook(c: Config, s0: State, events: seq<Event>, more: seq<Event>, j: nat, t: nat, key: Text, first: bool,
                 found: bool)
    requires WellFormed(c, s0) && j < |events|
    ensures LooksAt(c, s0, events + more, j, t, key, first, found) <==> LooksAt(c, s0, events, j, t, key, first, found)
  {
    assert (events + more)[..j] == events[..j];
  }

  lemma LooksNow(c: Config, s0: State, front: seq<Event>, e: Event, t: nat, key: Text, first: bool, found: bool)
    requires WellFormed(c, s0) && Run(c, s0, front).Some?
    ensures LooksAt(c, s0, front + [e], |front|, t, key, first, found)
            <==> Looks(Run(c, s0, front).value, e, t, key, first, found)
  {
    assert (front + [e])[..|front|] == front;
  }

  lemma LooksSoFar(c: Config, s0: State, front: seq<Event>, e: Event, t: nat, key: Text, first: bool, found: bool)
    requires WellFormed(c, s0) && Run(c, s0, front).Some?
    ensures SomeLook(c, s0, front + [e], t, key, first, found)
            == (SomeLook(c, s0, front, t, key, first, found)
                || Looks(Run(c, s0, front).value, e, t, key, first, found))
  {
    LooksNow(c, s0, front, e, t, key, first, found);
    if j: nat :| LooksAt(c, s0, front + [e], j, t, key, first, found) {
      if j < |front| { SameLook(c, s0, front, [e], j, t, key, first, found); }
    }
    if j: nat :| LooksAt(c, s0, front, j, t, key, first, found) {
      SameLook(c, s0, front, [e], j, t, key, first, found);
    }
  }

  /** The answer of a lookup that compares lines. */
  function LateAnswer(orders: seq<Order>, n: nat, user: Text, items: seq<Item>): Response
    requires n < |orders|
  {
    if orders[n].user == user && multiset(orders[n].items) == multiset(items) then Replayed(n) else Conflict
  }

  /** Where a keyed checkout can be, given whether its first lookup missed and a later one found the key. */
  ghost predicate Placed(orders: seq<Order>, call: Call, th: Thread, key: Text, missed: bool, found: bool) {
    match th.pc
    case FirstLookup => !missed && !found
    case ReadCart => missed && !found
    case Done(Replayed(_)) => Looked(orders, call, th, key, missed, found)
    case Done(Conflict) => Looked(orders, call, th, key, missed, found)
    case Done(EmptyCart) => missed && !found && th.items == []
    case Done(Failed(error)) => missed && !found && th.items != [] && error != KeyTaken
    case Rollback(error) => missed && !found && th.items != [] && (error == KeyTaken ==> HasKey(orders, key))
    case LookupAgain(error) => missed && !found && th.items != [] && error == KeyTaken && HasKey(orders, key)
    case _ => missed && !found && th.items != []
  }

  /** The answer was given by a lookup: the first one, or a later one that compared lines. */
  ghost predicate Looked(orders: seq<Order>, call: Call, th: Thread, key: Text, missed: bool, found: bool) {
    && HasKey(orders, key) && missed == found
    && var n := Find(orders, key).value;
       if missed then th.items != [] && th.pc == Done(LateAnswer(orders, n, UserOf(call), th.items))
       else th.pc == Done(EarlyAnswer(orders, n, UserOf(call)))
  }

  lemma PlacedStays(before: Database, after: Database, call: Call, th: Thread, key: Text, missed: bool, found: bool)
    requires OrdersKept(before, after) && Placed(before.orders, call, th, key, missed, found)
    ensures Placed(after.orders, call, th, key, missed, found)
  {
    if HasKey(before.orders, key) { KeyStays(before, after, key); }
  }

  ghost predicate PlacedNext(c: Config, s: State, t: nat, key: Text, missed: bool, found: bool)
    requires WellFormed(c, s) && t < |s.threads|
  {
    Next(c, s, t).Some? ==>
      t < |Next(c, s, t).value.threads|
      && Placed(s.db.orders, c.calls[t], Next(c, s, t).value.threads[t], key,
                missed || Looks(s, Step(t), t, key, true, false), found || Looks(s, Step(t), t, key, false, true))
  }

  lemma LookPlaces(c: Config, s: State, t: nat, key: Text, missed: bool, found: bool)
    requires WellFormed(c, s) && t < |s.threads| && c.calls[t].Checkout? && key != [] && KeyOf(c.calls[t]) == Some(key)
    requires Placed(s.db.orders, c.calls[t], s.threads[t], key, missed, found)
    requires s.threads[t].pc.FirstLookup? || s.threads[t].pc.Lookup? || s.threads[t].pc.LookupAgain?
    ensures PlacedNext(c, s, t, key, missed, found)
  {
    var call, th := c.calls[t], s.threads[t];
    LookupDecides(s.db.orders, key, UserOf(call), if th.pc.FirstLookup? then None else Some(th.items));
  }

  lemma CartPlaces(c: Config, s: State, t: nat, key: Text, missed: bool, found: bool)
    requires WellFormed(c, s) && t < |s.threads| && c.calls[t].Checkout? && key != [] && KeyOf(c.calls[t]) == Some(key)
    requires Placed(s.db.orders, c.calls[t], s.threads[t], key, missed, found)
    requires s.threads[t].pc.ReadCart? || s.threads[t].pc.ClearCart? || s.threads[t].pc.Begin? || s.threads[t].pc.Done?
    ensures PlacedNext(c, s, t, key, missed, found)
  {
  }

  lemma OpenPlaces(c: Config, s: State, t: nat, key: Text, missed: bool, found: bool)
    requires WellFormed(c, s) && t < |s.threads| && c.calls[t].Checkout? && key != [] && KeyOf(c.calls[t]) == Some(key)
    requires Placed(s.db.orders, c.calls[t], s.threads[t], key, missed, found)
    requires IsOpen(s.threads[t])
    ensures PlacedNext(c, s, t, key, missed, found)
  {
  }

  /** A step of the checkout itself. */
  lemma OwnStep(c: Config, s: State, t: nat, key: Text, missed: bool, found: bool)
    requires WellFormed(c, s) && t < |s.threads| && c.calls[t].Checkout? && key != [] && KeyOf(c.calls[t]) == Some(key)
    requires Placed(s.db.orders, c.calls[t], s.threads[t], key, missed, found)
    ensures PlacedNext(c, s, t, key, missed, found)
  {
    var pc := s.threads[t].pc;
    if IsOpen(s.threads[t]) {
      OpenPlaces(c, s, t, key, missed, found);
    } else if pc.FirstLookup? || pc.Lookup? || pc.LookupAgain? {
      LookPlaces(c, s, t, key, missed, found);
    } else {
      CartPlaces(c, s, t, key, missed, found);
    }
  }

  lemma EventPlaces(c: Config, s: State, e: Event, t: nat, key: Text, missed: bool, found: bool)
    requires Inv(c, s) && t < |s.threads| && c.calls[t].Checkout? && key != [] && KeyOf(c.calls[t]) == Some(key)
    requires Placed(s.db.orders, c.calls[t], s.threads[t], key, missed, found)
    requires Apply(c, s, e).Some? && |Apply(c, s, e).value.threads| == |s.threads|
    ensures var after := Apply(c, s, e).value;
            Placed(after.db.orders, c.calls[t], after.threads[t], key,
                   missed || Looks(s, e, t, key, true, false), found || Looks(s, e, t, key, false, true))
  {
    var after := Apply(c, s, e).value;
    OrdersGrow(c, s, e);
    if e == Step(t) {
      OwnStep(c, s, t, key, missed, found);
    } else if e.Step? {
      StepMovesOne(c, s, e.t);
    }
    PlacedStays(s.db, after.db, c.calls[t], after.threads[t], key,
                missed || Looks(s, e, t, key, true, false), found || Looks(s, e, t, key, false, true));
  }

  ghost predicate PlacedAfter(c: Config, s0: State, events: seq<Event>, t: nat, key: Text)
    requires WellFormed(c, s0) && t < |c.calls|
  {
    && Run(c, s0, events).Some?
    && var s := Run(c, s0, events).value;
       Inv(c, s) && Placed(s.db.orders, c.calls[t], s.threads[t], key, Missed(c, s0, events, t, key),
                           FoundLater(c, s0, events, t, key))
  }

  lemma OneMoreEvent(c: Config, s0: State, front: seq<Event>, e: Event, t: nat, key: Text)
    requires WellFormed(c, s0) && t < |c.calls| && c.calls[t].Checkout? && key != [] && KeyOf(c.calls[t]) == Some(key)
    requires PlacedAfter(c, s0, front, t, key) && Apply(c, Run(c, s0, front).value, e).Some?
    ensures PlacedAfter(c, s0, front + [e], t, key)
  {
    var before := Run(c, s0, front).value;
    ApplyKeepsInv(c, before, e);
    LooksSoFar(c, s0, front, e, t, key, true, false);
    LooksSoFar(c, s0, front, e, t, key, false, true);
    EventPlaces(c, before, e, t, key, Missed(c, s0, front, t, key), FoundLater(c, s0, front, t, key));
    assert (front + [e])[..|front|] == front;
  }

  lemma {:induction false} EveryCheckoutIsPlaced(c: Config, db0: Database, carts: map<Text, seq<Item>>,
                                                 events: seq<Event>, t: nat, key: Text)
    requires t < |c.calls| && c.calls[t].Checkout? && key != [] && KeyOf(c.calls[t]) == Some(key)
    requires Run(c, Initial(c, db0, carts), events).Some?
    ensures PlacedAfter(c, Initial(c, db0, carts), events, t, key)
  {
    if events == [] {
      InitialInv(c, db0, carts);
    } else {
      var front := events[..|events| - 1];
      EveryCheckoutIsPlaced(c, db0, carts, front, t, key);
      OneMoreEvent(c, Initial(c, db0, carts), front, events[|events| - 1], t, key);
      assert front + [events[|events| - 1]] == events;
    }
  }

  /** A checkout that created an order created the one its key names. */
  lemma CreatedIsNamed(c: Config, db0: Database, carts: map<Text, seq<Item>>, events: seq<Event>, t: nat, key: Text, k: nat)
    requires t < |c.calls| && KeyOf(c.calls[t]) == Some(key) && Run(c, Initial(c, db0, carts), events).Some?
    requires !HasKey(db0.orders, key)
    requires Run(c, Initial(c, db0, carts), events).value.threads[t].pc == Done(Created(k))
    ensures var s := Run(c, Initial(c, db0, carts), events).value;
            && Find(s.db.orders, key) == Some(k) && k < |s.db.orders|
            && s.db.orders[k].user == UserOf(c.calls[t]) && s.db.orders[k].items == s.threads[t].items
  {
    var s := Run(c, Initial(c, db0, carts), events).value;
    EveryRunAnswers(c, db0, carts, events);
    CreatorOfOrder(c, |db0.orders|, s, t, k);
    OneOrderPerKey(c, db0, carts, events, key);
    assert HasKey(s.db.orders, key);
    var n := Find(s.db.orders, key).value;
    assert s.db.orders[n].key == Some(key) && s.db.orders[k].key == Some(key);
  }

  lemma MissedWasNew(c: Config, db0: Database, carts: map<Text, seq<Item>>, events: seq<Event>, t: nat, key: Text)
    requires Missed(c, Initial(c, db0, carts), events, t, key)
    ensures !HasKey(db0.orders, key)
  {
    var s0 := Initial(c, db0, carts);
    var j: nat :| LooksAt(c, s0, events, j, t, key, true, false);
    EveryRunConserves(c, db0, carts, events[..j]);
    var orders := Run(c, s0, events[..j]).value.db.orders;
    assert forall i :: 0 <= i < |db0.orders| ==> orders[i] == orders[..|db0.orders|][i];
  }

  /** The answer of a finished keyed checkout whose key's order is committed. */
  ghost predicate AnswerOf(response: Response, orders: seq<Order>, n: nat, user: Text, items: seq<Item>, missed: bool,
                           found: bool)
    requires n < |orders|
  {
    if !missed then response == EarlyAnswer(orders, n, user)
    else if items == [] then response == EmptyCart
    else if found then response == LateAnswer(orders, n, user, items)
    else (response == Created(n) && orders[n].user == user && orders[n].items == items)
         || (response.Failed? && response.error != KeyTaken)
  }

  /**
    In every run, a finished keyed checkout whose key's order is committed is answered as follows. If its
    first lookup did not miss: with that order for its own user, as a conflict for another. If it missed:
    "cart is empty" when it read no lines; by user and lines when a later lookup found the key; and else it
    created that order itself, or failed for a reason that is not the key.
  */
  lemma CheckoutAnswers(c: Config, db0: Database, carts: map<Text, seq<Item>>, events: seq<Event>, t: nat, key: Text)
    requires t < |c.calls| && c.calls[t].Checkout? && key != [] && KeyOf(c.calls[t]) == Some(key)
    requires Run(c, Initial(c, db0, carts), events).Some?
    requires var s := Run(c, Initial(c, db0, carts), events).value; HasKey(s.db.orders, key) && s.threads[t].pc.Done?
    ensures var s0 := Initial(c, db0, carts); var s := Run(c, s0, events).value;
            AnswerOf(s.threads[t].pc.response, s.db.orders, Find(s.db.orders, key).value, UserOf(c.calls[t]),
                     s.threads[t].items, Missed(c, s0, events, t, key), FoundLater(c, s0, events, t, key))
  {
    EveryCheckoutIsPlaced(c, db0, carts, events, t, key);
    var pc := Run(c, Initial(c, db0, carts), events).value.threads[t].pc;
    if pc.response.Created? {
      MissedWasNew(c, db0, carts, events, t, key);
      CreatedIsNamed(c, db0, carts, events, t, key, pc.response.order);
    }
  }

  /**
    So a checkout of the user who owns its key's committed order is refused, as "cart is empty" or as a
    conflict, exactly when its first lookup came before the commit and it then read an empty cart, or
    read lines that are not the order's as a multiset and looked the key up once more after the commit,
    which is to say: did not fail in its own transaction.
  */
  lemma RefusedExactly(c: Config, db0: Database, carts: map<Text, seq<Item>>, events: seq<Event>, t: nat, key: Text)
    requires t < |c.calls| && c.calls[t].Checkout? && key != [] && KeyOf(c.calls[t]) == Some(key)
    requires Run(c, Initial(c, db0, carts), events).Some?
    requires var s := Run(c, Initial(c, db0, carts), events).value;
             && HasKey(s.db.orders, key) && s.threads[t].pc.Done?
             && s.db.orders[Find(s.db.orders, key).value].user == UserOf(c.calls[t])
    ensures var s0 := Initial(c, db0, carts); var s := Run(c, s0, events).value;
            var response, items := s.threads[t].pc.response, s.threads[t].items;
            var lines := s.db.orders[Find(s.db.orders, key).value].items;
            && ((response == EmptyCart || response == Conflict)
                <==> Missed(c, s0, events, t, key)
                     && (items == [] || (multiset(items) != multiset(lines) && FoundLater(c, s0, events, t, key))))
            && ((response == EmptyCart || response == Conflict)
                <==> Missed(c, s0, events, t, key)
                     && (items == [] || (multiset(items) != multiset(lines) && !response.Failed?)))
  {
    CheckoutAnswers(c, db0, carts, events, t, key);
  }
}
