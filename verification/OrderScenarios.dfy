/** Reachable states that show which hypotheses of the order results are needed. */
module OrderScenarios {
  import opened Wrappers
  import opened Bytes
  import opened Orders
  import opened OrderMachine
  import opened OrderSafety
  import opened OrderAlone
  import Deadlock
  import opened OrderProgress
  import opened Idempotency

  // ---- a second pooled connection -----------------------------------------------------------

  /** `n` requests for one unit each of `n` different products, with a pool of `n` connections. */
  function CrowdCall(i: nat): Call { Create(Request([], [Item(Dec(i), 1)], None, None, 0)) }

  function Crowd(n: nat, secondConnection: bool): Config {
    Config(map[], seq(n, i requires 0 <= i < n => CrowdCall(i)), n, secondConnection)
  }

  function CrowdStock(n: nat): Database {
    Database(map i: nat | i < n :: Dec(i) := Product(100, 1), map[], [])
  }

  /** The first `k` requests wait for their membership read, the others have not begun. */
  function CrowdThread(i: nat, k: nat): Thread {
    if i < k then Thread(ReadMembership, [Item(Dec(i), 1)], 1, false)
    else Thread(Begin, [Item(Dec(i), 1)], 0, false)
  }

  function CrowdThreads(n: nat, k: nat): seq<Thread> {
    seq(n, i requires 0 <= i < n => CrowdThread(i, k))
  }

  function Crowded(n: nat, k: nat): State { State(CrowdStock(n), map[], CrowdThreads(n, k), [], []) }

  lemma {:induction false} CrowdOpen(n: nat, k: nat)
    ensures OpenCount(CrowdThreads(n, k)) == if k < n then k else n
  {
    if n > 0 {
      assert CrowdThreads(n, k)[..n - 1] == CrowdThreads(n - 1, k);
      CrowdOpen(n - 1, k);
    }
  }

  lemma NamesDiffer(i: nat, j: nat)
    ensures Dec(i) == Dec(j) ==> i == j
  {
    ValueOfDec(i);
    ValueOfDec(j);
  }

  lemma OneMore(n: nat, k: nat, second: bool)
    requires k < n
    ensures Run(Crowd(n, second), Crowded(n, k), [Step(k), Step(k), Step(k)]) == Some(Crowded(n, k + 1))
  {
    var c, s := Crowd(n, second), Crowded(n, k);
    var items := [Item(Dec(k), 1)];
    CrowdOpen(n, k);
    var begun := Moved(s, k, Thread(ReadProduct, items, 0, false));
    assert Next(c, s, k) == Some(begun);
    var found := Moved(begun, k, Thread(TakeStock, items, 0, false));
    assert Next(c, begun, k) == Some(found);
    var taken := Moved(found, k, Thread(ReadMembership, items, 1, false));
    forall o | 0 <= o < n && o != k
      ensures !HoldsProduct(found.threads[o], Dec(k))
    {
      NamesDiffer(o, k);
    }
    assert items[..0] == [];
    assert Next(c, found, k) == Some(taken);
    assert taken.threads == CrowdThreads(n, k + 1);
    OneStep(c, found, k);
    StepThen(c, begun, k, found, [Step(k)], taken);
    StepThen(c, s, k, begun, [Step(k)] + [Step(k)], taken);
    assert [Step(k)] + ([Step(k)] + [Step(k)]) == [Step(k), Step(k), Step(k)];
  }

  lemma OneMoreAfter(n: nat, k: nat, second: bool, front: seq<Event>) returns (events: seq<Event>)
    requires k < n && Run(Crowd(n, second), Crowded(n, 0), front) == Some(Crowded(n, k))
    ensures Run(Crowd(n, second), Crowded(n, 0), events) == Some(Crowded(n, k + 1))
  {
    OneMore(n, k, second);
    var more := [Step(k), Step(k), Step(k)];
    RunConcat(Crowd(n, second), Crowded(n, 0), front, more);
    events := front + more;
  }

  lemma {:induction false} CrowdReaches(n: nat, k: nat, second: bool) returns (events: seq<Event>)
    requires k <= n
    ensures Run(Crowd(n, second), Crowded(n, 0), events) == Some(Crowded(n, k))
  {
    if k == 0 {
      events := [];
    } else {
      var front := CrowdReaches(n, k - 1, second);
      events := OneMoreAfter(n, k - 1, second, front);
    }
  }

  /**
    For a pool of any size, reading the membership through a second pooled connection lets that many
    concurrent orders for different products reach a state in which no request can ever step.
  */
  lemma PoolJams(n: nat) returns (events: seq<Event>)
    requires n > 0
    ensures var c := Crowd(n, true);
            var s := Run(c, Initial(c, CrowdStock(n), map[]), events);
            && s.Some? && (forall t :: 0 <= t < n ==> !s.value.threads[t].pc.Done? && Next(c, s.value, t).None?)
  {
    events := CrowdReaches(n, n, true);
    assert Initial(Crowd(n, true), CrowdStock(n), map[]).threads == CrowdThreads(n, 0);
    CrowdOpen(n, n);
  }

  // ---- opposite listing orders --------------------------------------------------------------

  function Pair(a: Text, b: Text): Call { Create(Request([], [Item(a, 1), Item(b, 1)], None, None, 0)) }

  /** Two orders listing two products in opposite orders can wait for each other for ever. */
  lemma OppositeOrdersDeadlock(a: Text, b: Text, db: Database) returns (events: seq<Event>)
    requires a != b && a in db.products && b in db.products
    requires db.products[a].stock >= 1 && db.products[b].stock >= 1
    ensures var c := Config(map[], [Pair(a, b), Pair(b, a)], 2, false);
            var s := Run(c, Initial(c, db, map[]), events);
            s.Some? && IsOpen(s.value.threads[0]) && IsOpen(s.value.threads[1])
            && Next(c, s.value, 0).None? && Next(c, s.value, 1).None?
  {
    var c := Config(map[], [Pair(a, b), Pair(b, a)], 2, false);
    var from := Deadlock.Start(db, map[], false);
    PairCanTake(a, b, db);
    PairCanTake(b, a, db);
    var x, y := [Item(a, 1), Item(b, 1)], [Item(b, 1), Item(a, 1)];
    assert x[0].product == a && y[0].product == b;
    assert Deadlock.Names(y, 1, b) && Deadlock.Names(x, 1, a);
    assert Deadlock.Cross(x, y, 1, 1);
    assert Deadlock.TwoCross(c, from, 1, 1);
    Deadlock.TwoDeadlockExactly(c, from);
    events :| Deadlock.GetsStuck(c, from, events);
    InitialInv(c, db, map[]);
    BothAreOpen(c, Initial(c, db, map[]), events);
  }

  lemma PairCanTake(a: Text, b: Text, db: Database)
    requires a != b && a in db.products && b in db.products
    requires db.products[a].stock >= 1 && db.products[b].stock >= 1
    ensures Deadlock.CanTake(Pair(a, b), db, [Item(a, 1), Item(b, 1)], 1)
  {
    var items := [Item(a, 1), Item(b, 1)];
    assert items[..2] == items && items[..1] == [Item(a, 1)] && items[..1][..0] == [];
    assert Demand(items[..1], a) == 1 && Demand(items[..1], b) == 0;
  }

  /** A transaction that waits, waits for another one. */
  lemma BothAreOpen(c: Config, s0: State, events: seq<Event>)
    requires |c.calls| == 2 && !c.secondConnection && Inv(c, s0)
    requires Run(c, s0, events).Some? && Deadlock.Stuck(c, Run(c, s0, events).value)
    ensures var s := Run(c, s0, events).value;
            IsOpen(s.threads[0]) && IsOpen(s.threads[1]) && Next(c, s, 0).None? && Next(c, s, 1).None?
  {
    var s := Run(c, s0, events).value;
    RunKeepsInv(c, s0, events);
    var t :| 0 <= t < |s.threads| && IsOpen(s.threads[t]);
    Deadlock.StuckWaits(c, s, t);
    assert HoldsProduct(s.threads[1 - t], s.threads[t].items[s.threads[t].pos].product);
  }

  lemma CountTwo(threads: seq<Thread>)
    requires |threads| == 2
    ensures OpenCount(threads) == (if IsOpen(threads[0]) then 1 else 0) + (if IsOpen(threads[1]) then 1 else 0)
  {
    assert threads[..1][..0] == [];
    assert OpenCount(threads[..1]) == OpenCount(threads[..1][..0]) + (if IsOpen(threads[0]) then 1 else 0);
  }

  // ---- a checkout replay that misses --------------------------------------------------------

  function Retry(user: Text, key: Text): Config {
    Config(map[], [Checkout(user, Some(key), None, 0), Checkout(user, Some(key), None, 0)], 2, false)
  }

  /** A checkout and its retry both look the key up before the first one's transaction has begun. */
  lemma BothMiss(user: Text, key: Text, item: Item, db: Database) returns (events: seq<Event>, s: State)
    requires key != [] && !HasKey(db.orders, key)
    ensures Run(Retry(user, key), Initial(Retry(user, key), db, map[user := [item]]), events) == Some(s)
    ensures Inv(Retry(user, key), s) && s.db == db
    ensures s.threads == [Thread(Begin, [item], 0, false), Thread(ReadCart, [], 0, false)]
  {
    var c := Retry(user, key);
    var carts := map[user := [item]];
    var s0 := Initial(c, db, carts);
    InitialInv(c, db, carts);
    var missed := Thread(ReadCart, [], 0, false);
    var s1 := s0.(threads := [missed, Thread(FirstLookup, [], 0, false)]);
    var s2 := s0.(threads := [missed, missed]);
    var s3 := s0.(threads := [Thread(Lookup, [item], 0, false), missed]);
    s := s0.(threads := [Thread(Begin, [item], 0, false), missed]);
    CountTwo(s0.threads);
    CountTwo(s1.threads);
    CountTwo(s2.threads);
    CountTwo(s3.threads);
    CountTwo(s.threads);
    assert Next(c, s0, 0).value.threads == s1.threads;
    assert Next(c, s1, 1).value.threads == s2.threads;
    assert Next(c, s2, 0).value.threads == s3.threads;
    assert Next(c, s3, 0).value.threads == s.threads;
    OneStep(c, s3, 0);
    StepThen(c, s2, 0, s3, [Step(0)], s);
    StepThen(c, s1, 1, s2, [Step(0)] + [Step(0)], s);
    events := [Step(0)] + ([Step(1)] + ([Step(0)] + [Step(0)]));
    StepThen(c, s0, 0, s1, [Step(1)] + ([Step(0)] + [Step(0)]), s);
    RunKeepsInv(c, s0, events);
  }

  /** Then the first one commits and is about to clear the cart. */
  lemma FirstCommits(user: Text, key: Text, item: Item, db: Database) returns (events: seq<Event>, s: State)
    requires key != [] && !HasKey(db.orders, key)
    requires item.product in db.products && db.products[item.product].stock >= item.quantity
    ensures Run(Retry(user, key), Initial(Retry(user, key), db, map[user := [item]]), events) == Some(s)
    ensures |s.threads| == 2 && s.threads[0].pc == ClearCart(|db.orders|) && s.threads[1] == Thread(ReadCart, [], 0, false)
    ensures Persist(map[], db, Request(user, [item], Some(key), None, 0)) == Ok(s.db)
  {
    var c := Retry(user, key);
    var first, s4 := BothMiss(user, key, item, db);
    CountTwo(s4.threads);
    OneItemPersists(c, db, user, key, item);
    var alone, after := AloneIsSerial(c, s4, 0);
    OnlyItsThread(c, s4, alone, 0);
    RunConcat(c, Initial(c, db, map[user := [item]]), first, alone);
    events, s := first + alone, after;
  }

  /**
    A same-user checkout replay is not always answered with the order: when the original clears the
    cart between the replay's lookup and its cart read, the replay is answered "cart is empty".
  */
  lemma CheckoutReplayCanMiss(user: Text, key: Text, item: Item, db: Database) returns (events: seq<Event>)
    requires key != [] && !HasKey(db.orders, key)
    requires item.product in db.products && db.products[item.product].stock >= item.quantity
    ensures var c := Retry(user, key);
            var s := Run(c, Initial(c, db, map[user := [item]]), events);
            && s.Some? && s.value.threads[0].pc == Done(Created(|db.orders|))
            && s.value.threads[1].pc == Done(EmptyCart)
            && HasKey(s.value.db.orders, key)
  {
    var c := Retry(user, key);
    var front, s5 := FirstCommits(user, key, item, db);
    OneItemPersists(c, db, user, key, item);
    var s7 := ClearThenMiss(c, s5, user, |db.orders|);
    RunConcat(c, Initial(c, db, map[user := [item]]), front, [Step(0)] + [Step(1)]);
    events := front + ([Step(0)] + [Step(1)]);
  }

  /** Nor when the shopper has put something else in the cart by then: the replay conflicts with its own order. */
  lemma CheckoutReplayCanConflict(user: Text, key: Text, item: Item, other: Item, db: Database) returns (events: seq<Event>)
    requires key != [] && !HasKey(db.orders, key) && other != item
    requires item.product in db.products && db.products[item.product].stock >= item.quantity
    ensures var c := Retry(user, key);
            var s := Run(c, Initial(c, db, map[user := [item]]), events);
            && s.Some? && s.value.threads[0].pc == ClearCart(|db.orders|) && s.value.threads[1].pc == Done(Conflict)
            && |s.value.db.orders| == |db.orders| + 1
            && s.value.db.orders[|db.orders|].key == Some(key) && s.value.db.orders[|db.orders|].user == user
  {
    var c := Retry(user, key);
    var front, s5 := FirstCommits(user, key, item, db);
    PersistRecords(map[], db, Request(user, [item], Some(key), None, 0));
    var edited := s5.(carts := s5.carts[user := [other]]);
    assert Apply(c, s5, EditCart(user, [other])) == Some(edited);
    EditedCartConflicts(c, edited, user, key, |db.orders|, item, other);
    RunPrepend(c, s5, EditCart(user, [other]), [Step(1)] + [Step(1)]);
    var last := [EditCart(user, [other])] + ([Step(1)] + [Step(1)]);
    RunConcat(c, Initial(c, db, map[user := [item]]), front, last);
    events := front + last;
  }

  lemma EditedCartConflicts(c: Config, s: State, user: Text, key: Text, n: nat, item: Item, other: Item)
    requires c == Retry(user, key) && key != [] && item != other
    requires |s.threads| == 2 && s.threads[0].pc == ClearCart(n) && s.threads[1] == Thread(ReadCart, [], 0, false)
    requires user in s.carts && s.carts[user] == [other]
    requires n < |s.db.orders| && s.db.orders[n].key == Some(key) && s.db.orders[n].items == [item]
    requires forall i :: 0 <= i < |s.db.orders| && s.db.orders[i].key == Some(key) ==> i == n
    ensures Run(c, s, [Step(1)] + [Step(1)])
            == Some(Moved(s, 1, Thread(Done(Conflict), [other], 0, false)))
  {
    CountTwo(s.threads);
    var asking := Moved(s, 1, Thread(Lookup, [other], 0, false));
    CountTwo(asking.threads);
    assert HasKey(s.db.orders, key);
    LookupDecides(s.db.orders, key, user, Some([other]));
    assert multiset([item])[item] == 1 && multiset([other])[item] == 0;
    var end := Moved(s, 1, Thread(Done(Conflict), [other], 0, false));
    MovedTwice(s, 1, asking.threads[1], end.threads[1]);
    OneStep(c, asking, 1);
    StepThen(c, s, 1, asking, [Step(1)], end);
  }

  /** The original clears its cart, and the replay finds it empty. */
  lemma ClearThenMiss(c: Config, s5: State, user: Text, order: nat) returns (s7: State)
    requires c.pool == 2 && |c.calls| == 2 && c.calls[0].Checkout? && c.calls[1].Checkout?
    requires UserOf(c.calls[0]) == UserOf(c.calls[1]) == user
    requires |s5.threads| == 2 && s5.threads[0].pc == ClearCart(order) && s5.threads[1] == Thread(ReadCart, [], 0, false)
    ensures Run(c, s5, [Step(0)] + [Step(1)]) == Some(s7)
    ensures |s7.threads| == 2 && s7.threads[0].pc == Done(Created(order)) && s7.threads[1].pc == Done(EmptyCart)
    ensures s7.db == s5.db
  {
    CountTwo(s5.threads);
    var s6 := Next(c, s5, 0).value;
    CountTwo(s6.threads);
    s7 := Next(c, s6, 1).value;
    OneStep(c, s6, 1);
    StepThen(c, s5, 0, s6, [Step(1)], s7);
  }

  lemma OneItemPersists(c: Config, db: Database, user: Text, key: Text, item: Item)
    requires c.memberships == map[] && !HasKey(db.orders, key)
    requires item.product in db.products && db.products[item.product].stock >= item.quantity
    ensures var p := Persist(c.memberships, db, Request(user, [item], Some(key), None, 0));
            p.Ok? && HasKey(p.value.orders, key)
  {
    assert [item][..0] == [];
    assert Take(db.products, [item]).Ok?;
    var orders := Persist(c.memberships, db, Request(user, [item], Some(key), None, 0)).value.orders;
    assert orders[|db.orders|].key == Some(key);
  }
}
