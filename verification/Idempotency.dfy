/**
  Idempotency-Key under concurrency: whatever the interleaving of pre-checks, inserts and repeated
  lookups, a key has one order, one request created it, and replays answer with it.
*/
module Idempotency {
  import opened Wrappers
  import opened Bytes
  import opened Orders
  import opened OrderMachine
  import opened OrderSafety

  /** The thread answered, or is about to answer, that it created order `n`. */
  predicate CreatedBy(th: Thread, n: nat) { th.pc == ClearCart(n) || th.pc == Done(Created(n)) }

  /** Order `n` is the one thread `t` asked for. */
  ghost predicate IsOrderOf(order: Order, call: Call, th: Thread) {
    order.user == UserOf(call) && order.key == KeyOf(call) && order.coupon == CouponOf(call) && order.items == th.items
  }

  ghost predicate ReplayOk(db: Database, call: Call, th: Thread, n: nat) {
    && Truthy(KeyOf(call)) && n < |db.orders|
    && db.orders[n].key == KeyOf(call) && db.orders[n].user == UserOf(call)
    && (call.Create? ==> multiset(db.orders[n].items) == multiset(th.items))
  }

  ghost predicate Answers(c: Config, base: nat, s: State)
    requires WellFormed(c, s)
  {
    && |s.db.orders| == base + |s.log|
    && (forall j :: 0 <= j < |s.log| ==>
          var t := s.log[j].thread;
          t < |s.threads| && CreatedBy(s.threads[t], base + j)
          && IsOrderOf(s.db.orders[base + j], c.calls[t], s.threads[t]))
    && (forall t :: 0 <= t < |s.threads| ==> ThreadAnswers(c, base, s, t))
    && (forall i, j :: 0 <= i < j < |s.clears| ==> s.clears[i] != s.clears[j])
    && (forall i :: 0 <= i < |s.clears| ==> Cleared(c, s, s.clears[i]))
  }

  ghost predicate ThreadAnswers(c: Config, base: nat, s: State, t: nat)
    requires WellFormed(c, s) && t < |s.threads|
  {
    && (forall n: nat :: CreatedBy(s.threads[t], n) ==> base <= n < base + |s.log| && s.log[n - base].thread == t)
    && (forall n: nat :: s.threads[t].pc == Done(Replayed(n)) ==> ReplayOk(s.db, c.calls[t], s.threads[t], n))
  }

  /** A thread clears a cart after creating its order, and is finished then. */
  ghost predicate Cleared(c: Config, s: State, t: nat)
    requires WellFormed(c, s)
  {
    t < |s.threads| && c.calls[t].Checkout? && s.threads[t].pc.Done? && s.threads[t].pc.response.Created?
  }

  // ---- one lookup ---------------------------------------------------------------------------

  /** A lookup that finds the key replays for the same user and the same multiset of lines, else refuses. */
  lemma LookupDecides(orders: seq<Order>, key: Text, user: Text, expected: Option<seq<Item>>)
    ensures HasKey(orders, key) <==> FindExisting(orders, key, user, expected).Some?
    ensures HasKey(orders, key) ==>
              var i := Find(orders, key).value;
              FindExisting(orders, key, user, expected)
              == Some(if orders[i].user == user
                         && (expected.Some? ==> multiset(orders[i].items) == multiset(expected.value))
                      then Replayed(i) else Conflict)
  {
    if HasKey(orders, key) && expected.Some? {
      SameItemsExact(orders[Find(orders, key).value].items, expected.value);
    }
  }

  // ---- preservation -------------------------------------------------------------------------

  lemma MovedAnswers(c: Config, base: nat, s: State, t: nat, th: Thread)
    requires WellFormed(c, s) && Answers(c, base, s) && t < |s.threads|
    requires forall n: nat :: !CreatedBy(s.threads[t], n) && !CreatedBy(th, n)
    requires forall n: nat :: th.pc == Done(Replayed(n)) ==> ReplayOk(s.db, c.calls[t], th, n)
    requires !(th.pc.Done? && th.pc.response.Created?)
    ensures Answers(c, base, Moved(s, t, th))
  {
    var after := Moved(s, t, th);
    forall j | 0 <= j < |after.log|
      ensures after.log[j].thread < |after.threads| && CreatedBy(after.threads[after.log[j].thread], base + j)
      ensures IsOrderOf(after.db.orders[base + j], c.calls[after.log[j].thread], after.threads[after.log[j].thread])
    {
      assert CreatedBy(s.threads[s.log[j].thread], base + j);
    }
    forall o | 0 <= o < |after.threads|
      ensures ThreadAnswers(c, base, after, o)
    {
      assert ThreadAnswers(c, base, s, o);
    }
    forall i | 0 <= i < |after.clears|
      ensures Cleared(c, after, after.clears[i])
    {
      assert Cleared(c, s, s.clears[i]);
      var u := s.clears[i];
      assert CreatedBy(s.threads[u], s.threads[u].pc.response.order);
    }
  }

  lemma CommitAnswers(c: Config, base: nat, s: State, t: nat)
    requires WellFormed(c, s) && Answers(c, base, s) && t < |s.threads| && s.threads[t].pc.Commit?
    ensures Next(c, s, t).Some? && Answers(c, base, Next(c, s, t).value)
  {
    var after := Next(c, s, t).value;
    var last := |s.log|;
    forall j | 0 <= j < |after.log|
      ensures after.log[j].thread < |after.threads| && CreatedBy(after.threads[after.log[j].thread], base + j)
      ensures IsOrderOf(after.db.orders[base + j], c.calls[after.log[j].thread], after.threads[after.log[j].thread])
    {
      if j < last { assert CreatedBy(s.threads[s.log[j].thread], base + j); }
    }
    forall o | 0 <= o < |after.threads|
      ensures ThreadAnswers(c, base, after, o)
    {
      assert ThreadAnswers(c, base, s, o);
    }
    forall i | 0 <= i < |after.clears|
      ensures Cleared(c, after, after.clears[i])
    {
      assert Cleared(c, s, s.clears[i]);
    }
  }

  lemma ClearAnswers(c: Config, base: nat, s: State, t: nat)
    requires Inv(c, s) && Answers(c, base, s) && t < |s.threads| && s.threads[t].pc.ClearCart?
    requires Next(c, s, t).Some?
    ensures Answers(c, base, Next(c, s, t).value)
  {
    var after := Next(c, s, t).value;
    assert ThreadOk(c, s.db, c.calls[t], s.threads[t]);
    assert CreatedBy(s.threads[t], s.threads[t].pc.order);
    assert ThreadAnswers(c, base, s, t);
    forall j | 0 <= j < |after.log|
      ensures after.log[j].thread < |after.threads| && CreatedBy(after.threads[after.log[j].thread], base + j)
      ensures IsOrderOf(after.db.orders[base + j], c.calls[after.log[j].thread], after.threads[after.log[j].thread])
    {
      assert CreatedBy(s.threads[s.log[j].thread], base + j);
    }
    forall o | 0 <= o < |after.threads|
      ensures ThreadAnswers(c, base, after, o)
    {
      assert ThreadAnswers(c, base, s, o);
    }
    forall i | 0 <= i < |s.clears|
      ensures s.clears[i] != t && Cleared(c, after, s.clears[i])
    {
      assert Cleared(c, s, s.clears[i]);
    }
  }

  lemma LookupAnswers(c: Config, base: nat, s: State, t: nat)
    requires Inv(c, s) && Answers(c, base, s) && t < |s.threads|
    requires s.threads[t].pc.FirstLookup? || s.threads[t].pc.Lookup? || s.threads[t].pc.LookupAgain?
    requires Next(c, s, t).Some?
    ensures Answers(c, base, Next(c, s, t).value)
  {
    var call, th := c.calls[t], s.threads[t];
    assert ThreadOk(c, s.db, call, th);
    LookupDecides(s.db.orders, KeyOf(call).value, UserOf(call), if th.pc.FirstLookup? then None else Some(th.items));
    MovedAnswers(c, base, s, t, Next(c, s, t).value.threads[t]);
  }

  lemma PlainStep(c: Config, s: State, t: nat)
    requires WellFormed(c, s) && t < |s.threads| && Next(c, s, t).Some?
    requires var pc := s.threads[t].pc;
             !pc.Commit? && !pc.ClearCart? && !pc.FirstLookup? && !pc.Lookup? && !pc.LookupAgain?
    ensures var after := Next(c, s, t).value; var th := after.threads[t];
            && after == Moved(s, t, th)
            && (th.pc.Done? ==> th.pc.response == EmptyCart || th.pc.response.Failed?)
            && !th.pc.ClearCart? && !s.threads[t].pc.Done?
  {
  }

  lemma PlainAnswers(c: Config, base: nat, s: State, t: nat)
    requires WellFormed(c, s) && Answers(c, base, s) && t < |s.threads| && Next(c, s, t).Some?
    requires var pc := s.threads[t].pc;
             !pc.Commit? && !pc.ClearCart? && !pc.FirstLookup? && !pc.Lookup? && !pc.LookupAgain?
    ensures Answers(c, base, Next(c, s, t).value)
  {
    PlainStep(c, s, t);
    MovedAnswers(c, base, s, t, Next(c, s, t).value.threads[t]);
  }

  lemma ApplyAnswers(c: Config, base: nat, s: State, e: Event)
    requires Inv(c, s) && Answers(c, base, s) && Apply(c, s, e).Some?
    ensures Answers(c, base, Apply(c, s, e).value)
  {
    var after := Apply(c, s, e).value;
    match e {
      case Step(t) =>
        var pc := s.threads[t].pc;
        if pc.Commit? { CommitAnswers(c, base, s, t); }
        else if pc.ClearCart? { ClearAnswers(c, base, s, t); }
        else if pc.FirstLookup? || pc.Lookup? || pc.LookupAgain? { LookupAnswers(c, base, s, t); }
        else { PlainAnswers(c, base, s, t); }
      case Abort(t) => MovedAnswers(c, base, s, t, after.threads[t]);
      case EditCart(user, items) => EditAnswers(c, base, s, after);
    }
  }

  lemma EditAnswers(c: Config, base: nat, s: State, after: State)
    requires WellFormed(c, s) && Answers(c, base, s) && after == s.(carts := after.carts)
    ensures Answers(c, base, after)
  {
    forall t | 0 <= t < |after.threads|
      ensures ThreadAnswers(c, base, after, t)
    {
      assert ThreadAnswers(c, base, s, t);
    }
    forall i | 0 <= i < |after.clears|
      ensures Cleared(c, after, after.clears[i])
    {
      assert Cleared(c, s, s.clears[i]);
    }
  }

  lemma {:induction false} EveryRunAnswers(c: Config, db0: Database, carts: map<Text, seq<Item>>, events: seq<Event>)
    requires Run(c, Initial(c, db0, carts), events).Some?
    ensures Answers(c, |db0.orders|, Run(c, Initial(c, db0, carts), events).value)
  {
    if events != [] {
      var front := events[..|events| - 1];
      EveryRunAnswers(c, db0, carts, front);
      Serializable(c, db0, carts, front);
      ApplyAnswers(c, |db0.orders|, Run(c, Initial(c, db0, carts), front).value, events[|events| - 1]);
    }
  }

  // ---- the claims ---------------------------------------------------------------------------

  ghost predicate Creates(c: Config, s: State, t: nat, n: nat, key: Text)
    requires WellFormed(c, s) && t < |s.threads|
  {
    KeyOf(c.calls[t]) == Some(key) && CreatedBy(s.threads[t], n)
  }

  /** Thread `t` answered with order `n`, and some other request created it. */
  ghost predicate ReplaysItsCreator(c: Config, s: State, t: nat, n: nat)
    requires WellFormed(c, s) && t < |s.threads|
  {
    && ReplayOk(s.db, c.calls[t], s.threads[t], n)
    && exists o :: 0 <= o < |s.threads| && o != t && CreatedBy(s.threads[o], n)
                   && KeyOf(c.calls[o]) == KeyOf(c.calls[t]) && UserOf(c.calls[o]) == UserOf(c.calls[t])
  }

  /** Committed orders with a new key sit behind the initial ones. */
  ghost predicate NewKey(base: nat, s: State, key: Text) {
    && UniqueKeys(s.db.orders, base)
    && forall i :: 0 <= i < |s.db.orders| && s.db.orders[i].key == Some(key) ==> base <= i
  }

  lemma CreatorsAgree(c: Config, base: nat, s: State, key: Text, t: nat, n: nat, o: nat, m: nat)
    requires WellFormed(c, s) && Answers(c, base, s) && NewKey(base, s, key)
    requires t < |s.threads| && o < |s.threads| && Creates(c, s, t, n, key) && Creates(c, s, o, m, key)
    ensures t == o && n == m
  {
    CreatorOfOrder(c, base, s, t, n);
    CreatorOfOrder(c, base, s, o, m);
  }

  lemma CreatorOfOrder(c: Config, base: nat, s: State, t: nat, n: nat)
    requires WellFormed(c, s) && Answers(c, base, s) && t < |s.threads| && CreatedBy(s.threads[t], n)
    ensures base <= n < |s.db.orders| && s.log[n - base].thread == t
    ensures IsOrderOf(s.db.orders[n], c.calls[t], s.threads[t])
  {
    assert ThreadAnswers(c, base, s, t);
    var j := n - base;
    assert IsOrderOf(s.db.orders[base + j], c.calls[s.log[j].thread], s.threads[s.log[j].thread]);
  }

  lemma ReplayHasCreator(c: Config, base: nat, s: State, key: Text, t: nat, n: nat)
    requires WellFormed(c, s) && Answers(c, base, s) && NewKey(base, s, key) && t < |s.threads|
    requires KeyOf(c.calls[t]) == Some(key) && s.threads[t].pc == Done(Replayed(n))
    ensures ReplaysItsCreator(c, s, t, n)
  {
    assert ThreadAnswers(c, base, s, t);
    var j := n - base;
    var o := s.log[j].thread;
    assert CreatedBy(s.threads[o], base + j);
    assert IsOrderOf(s.db.orders[base + j], c.calls[o], s.threads[o]);
  }

  /**
    For a key no order had at the start: at most one committed order carries it; all requests that
    answer "created" under it are one request; and whoever answers with a replay answers with that
    order, which its creator placed for the same user and, if the replay came through POST /orders,
    with the same multiset of lines.
  */
  lemma OneOrderPerKey(c: Config, db0: Database, carts: map<Text, seq<Item>>, events: seq<Event>, key: Text)
    requires Run(c, Initial(c, db0, carts), events).Some?
    requires !HasKey(db0.orders, key)
    ensures var s := Run(c, Initial(c, db0, carts), events).value;
            && (forall i, j | 0 <= i < |s.db.orders| && 0 <= j < |s.db.orders| ::
                  s.db.orders[i].key == Some(key) && s.db.orders[j].key == Some(key) ==> i == j)
            && (forall t: nat, o: nat, n: nat, m: nat | t < |s.threads| && o < |s.threads| ::
                  Creates(c, s, t, n, key) && Creates(c, s, o, m, key) ==> t == o && n == m)
            && (forall t: nat, n: nat | t < |s.threads| && KeyOf(c.calls[t]) == Some(key) ::
                  s.threads[t].pc == Done(Replayed(n)) ==> ReplaysItsCreator(c, s, t, n))
  {
    var s, base := Run(c, Initial(c, db0, carts), events).value, |db0.orders|;
    KeyIsNew(c, db0, carts, events, key);
    forall t: nat, o: nat, n: nat, m: nat
      | t < |s.threads| && o < |s.threads| && Creates(c, s, t, n, key) && Creates(c, s, o, m, key)
      ensures t == o && n == m
    {
      CreatorsAgree(c, base, s, key, t, n, o, m);
    }
    forall t: nat, n: nat | t < |s.threads| && KeyOf(c.calls[t]) == Some(key) && s.threads[t].pc == Done(Replayed(n))
      ensures ReplaysItsCreator(c, s, t, n)
    {
      ReplayHasCreator(c, base, s, key, t, n);
    }
  }

  lemma KeyIsNew(c: Config, db0: Database, carts: map<Text, seq<Item>>, events: seq<Event>, key: Text)
    requires Run(c, Initial(c, db0, carts), events).Some? && !HasKey(db0.orders, key)
    ensures var s := Run(c, Initial(c, db0, carts), events).value;
            Answers(c, |db0.orders|, s) && NewKey(|db0.orders|, s, key)
  {
    EveryRunAnswers(c, db0, carts, events);
    EveryRunConserves(c, db0, carts, events);
    var s, base := Run(c, Initial(c, db0, carts), events).value, |db0.orders|;
    assert forall i :: 0 <= i < base ==> s.db.orders[i] == s.db.orders[..base][i];
  }

  /** No two clearings of a cart belong to requests with one key, and only creators clear. */
  lemma CartClearedOnce(c: Config, db0: Database, carts: map<Text, seq<Item>>, events: seq<Event>, key: Text)
    requires Run(c, Initial(c, db0, carts), events).Some?
    requires !HasKey(db0.orders, key)
    ensures var s := Run(c, Initial(c, db0, carts), events).value;
            && (forall i :: 0 <= i < |s.clears| ==> Cleared(c, s, s.clears[i]))
            && (forall i, j | 0 <= i < |s.clears| && 0 <= j < |s.clears| ::
                  KeyOf(c.calls[s.clears[i]]) == Some(key) && KeyOf(c.calls[s.clears[j]]) == Some(key) ==> i == j)
  {
    EveryRunAnswers(c, db0, carts, events);
    OneOrderPerKey(c, db0, carts, events, key);
    var s := Run(c, Initial(c, db0, carts), events).value;
    forall i, j | 0 <= i < |s.clears| && 0 <= j < |s.clears|
      && KeyOf(c.calls[s.clears[i]]) == Some(key) && KeyOf(c.calls[s.clears[j]]) == Some(key)
      ensures i == j
    {
      var t, o := s.clears[i], s.clears[j];
      assert Cleared(c, s, t) && Cleared(c, s, o);
      assert CreatedBy(s.threads[t], s.threads[t].pc.response.order);
      assert CreatedBy(s.threads[o], s.threads[o].pc.response.order);
      assert Creates(c, s, t, s.threads[t].pc.response.order, key);
      assert Creates(c, s, o, s.threads[o].pc.response.order, key);
    }
  }

  /**
    Once an order with the key is committed, a later POST /orders with that key answers with it
    exactly when user and lines (as a multiset) agree, and is refused otherwise.
  */
  lemma LaterCreateReplays(c: Config, s: State, t: nat, n: nat, key: Text)
    requires Inv(c, s) && t < |s.threads| && s.threads[t].pc.Lookup? && FreeConnection(c, s)
    requires n < |s.db.orders| && s.db.orders[n].key == Some(key) && KeyOf(c.calls[t]) == Some(key)
    requires UniqueKeys(s.db.orders, 0)
    ensures Next(c, s, t).Some?
    ensures Next(c, s, t).value.threads[t].pc
            == Done(if s.db.orders[n].user == UserOf(c.calls[t])
                       && multiset(s.db.orders[n].items) == multiset(s.threads[t].items)
                    then Replayed(n) else Conflict)
  {
    assert ThreadOk(c, s.db, c.calls[t], s.threads[t]);
    LookupDecides(s.db.orders, key, UserOf(c.calls[t]), Some(s.threads[t].items));
    var i := Find(s.db.orders, key).value;
    assert i == n;
  }
}
