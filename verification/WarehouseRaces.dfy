/**
  What a reservation gets while others run beside it: for every run, an item is reserved as far as the
  rows it read whose conditional update did not miss, and an update misses exactly when its row has
  been lowered below the amount asked of it (inventory-service/src/reservations/reservations.service.ts).
*/
module WarehouseRaces {
  import opened Wrappers
  import opened Bytes
  import opened Sums
  import opened Warehouse
  import opened WarehouseRuns

  /**
    For one item of one reservation: the table when it read its levels, the levels it read, and those
    whose update missed.
  */
  datatype Trace = Trace(read: Option<seq<Row>>, seen: seq<Level>, missed: seq<Level>)

  function NoTrace(): Trace { Trace(None, [], []) }

  /** The thread is at item `k` of its reservation. */
  predicate AtItem(s: State, t: nat, k: nat) {
    t < |s.threads| && s.threads[t].call.Reserve? && |s.threads[t].lines| == k < |s.threads[t].call.items|
  }

  predicate Drawing(s: State, t: nat, k: nat) { AtItem(s, t, k) && s.threads[t].pc.Drain? }

  /** The update asks for more than the row holds now, or its row is gone. */
  predicate Misses(rows: seq<Row>, level: Level, remaining: nat) {
    var take := Least(remaining, level.quantity);
    var i := FindId(rows, level.id);
    take > 0 && !(i.Some? && rows[i.value].quantity >= take)
  }

  predicate ReadsNow(s: State, t: nat, k: nat) { AtItem(s, t, k) && s.threads[t].pc.ReadLevels? }

  predicate MissesNow(s: State, t: nat, k: nat) {
    && Drawing(s, t, k) && s.threads[t].pc.levels != []
    && Misses(s.rows, s.threads[t].pc.levels[0], s.threads[t].pc.remaining)
  }

  /** A step of the thread itself. */
  function Traced(s: State, t: nat, k: nat, trace: Trace): Trace {
    if ReadsNow(s, t, k) then trace.(read := Some(s.rows), seen := Listing(s.rows, s.threads[t].call.items[k].product))
    else if MissesNow(s, t, k) then trace.(missed := trace.missed + [s.threads[t].pc.levels[0]])
    else trace
  }

  function TracedBy(s: State, e: Event, t: nat, k: nat, trace: Trace): Trace {
    if e.Step? && e.t == t then Traced(s, t, k, trace) else trace
  }

  /** What the run's events amount to for item `k` of thread `t`. */
  function TraceOf(warehouses: set<Text>, s0: State, events: seq<Event>, t: nat, k: nat): Trace {
    if events == [] then NoTrace()
    else
      var front := events[..|events| - 1];
      match Run(warehouses, s0, front)
      case Some(s) => TracedBy(s, events[|events| - 1], t, k, TraceOf(warehouses, s0, front, t, k))
      case None => NoTrace()
  }

  // ---- an update that misses ----------------------------------------------------------------

  /** An update misses exactly when something is asked of a row that holds less, and then nothing is taken. */
  lemma MissesExactly(rows: seq<Row>, level: Level, remaining: nat, i: nat)
    requires TableOk(rows) && i < |rows| && rows[i].id == level.id
    ensures var take := Least(remaining, level.quantity); var (after, rest) := Attempt(rows, level, remaining);
            && (Misses(rows, level, remaining) <==> take > 0 && rows[i].quantity < take)
            && (Misses(rows, level, remaining) ==> after == rows && rest == remaining)
            && (!Misses(rows, level, remaining) && take > 0 ==>
                  after == rows[i := Lowered(rows[i], take)] && rest == remaining - take)
  {
    FindIdIs(rows, i);
  }

  // ---- the amount an item gets --------------------------------------------------------------

  /** The read quantities of the levels whose update did not miss. */
  function Kept(seen: seq<Level>, missed: seq<Level>): int { OnHand(seen) - OnHand(missed) }

  lemma KeepsOne(done: seq<Level>, level: Level, missed: seq<Level>)
    ensures Kept(done + [level], missed) == Kept(done, missed) + level.quantity
    ensures Kept(done + [level], missed + [level]) == Kept(done, missed)
  {
    SumPush(Quantity(), done, level);
    SumPush(Quantity(), missed, level);
  }

  /** `missed` lists some of the first `n` levels, in their order. */
  ghost predicate Among(missed: seq<Level>, seen: seq<Level>, n: nat) {
    || missed == []
    || exists j :: 0 <= j < n && j < |seen| && seen[j] == missed[|missed| - 1] && Among(missed[..|missed| - 1], seen, j)
  }

  lemma AmongMore(missed: seq<Level>, seen: seq<Level>, n: nat, m: nat)
    requires Among(missed, seen, n) && n <= m
    ensures Among(missed, seen, m)
  {
  }

  lemma AmongPush(missed: seq<Level>, seen: seq<Level>, n: nat)
    requires Among(missed, seen, n) && n < |seen|
    ensures Among(missed + [seen[n]], seen, n + 1)
  {
    assert (missed + [seen[n]])[..|missed|] == missed;
  }

  /** `done` of the levels read were tried, and `drawn` came of it. */
  ghost predicate Tried(seen: seq<Level>, done: nat, missed: seq<Level>, quantity: nat, drawn: nat) {
    && done <= |seen| && NonNegative(seen)
    && drawn == Least(quantity, Kept(seen[..done], missed))
    && Among(missed, seen, done)
  }

  lemma TriedNone(seen: seq<Level>, quantity: nat)
    requires NonNegative(seen)
    ensures Tried(seen, 0, [], quantity, 0)
  {
    assert seen[..0] == [];
  }

  lemma TriedMissed(seen: seq<Level>, done: nat, missed: seq<Level>, quantity: nat, drawn: nat)
    requires Tried(seen, done, missed, quantity, drawn) && done < |seen|
    ensures Tried(seen, done + 1, missed + [seen[done]], quantity, drawn)
  {
    assert seen[..done + 1] == seen[..done] + [seen[done]];
    KeepsOne(seen[..done], seen[done], missed);
    AmongPush(missed, seen, done);
  }

  lemma TriedTaken(seen: seq<Level>, done: nat, missed: seq<Level>, quantity: nat, drawn: nat)
    requires Tried(seen, done, missed, quantity, drawn) && done < |seen| && drawn < quantity
    ensures Tried(seen, done + 1, missed, quantity, drawn + Least(quantity - drawn, seen[done].quantity))
  {
    assert seen[..done + 1] == seen[..done] + [seen[done]];
    KeepsOne(seen[..done], seen[done], missed);
    AmongMore(missed, seen, done, done + 1);
  }

  /** Levels that were not needed do not change the amount. */
  lemma TriedEnough(seen: seq<Level>, done: nat, missed: seq<Level>, quantity: nat)
    requires Tried(seen, done, missed, quantity, quantity)
    ensures Tried(seen, |seen|, missed, quantity, quantity)
  {
    assert seen[..|seen|] == seen == seen[..done] + seen[done..];
    SumConcat(Quantity(), seen[..done], seen[done..]);
    OnHandNonNegative(seen[done..]);
    AmongMore(missed, seen, done, |seen|);
  }

  /** The levels are the product's rows when they were read. */
  ghost predicate ReadOk(trace: Trace, product: Text) {
    trace.read.Some? && TableOk(trace.read.value) && trace.seen == Listing(trace.read.value, product)
  }

  ghost predicate AnswerFollows(item: Item, line: Line, trace: Trace) {
    && ReadOk(trace, item.product)
    && if trace.seen == [] then line.reserved == item.quantity && trace.missed == []
       else Tried(trace.seen, |trace.seen|, trace.missed, item.quantity, line.reserved)
  }

  /** What the trace says of item `k` so far. */
  ghost predicate Follows(th: Thread, k: nat, trace: Trace)
    requires th.call.Reserve?
  {
    if |th.lines| < k then trace == NoTrace()
    else if |th.lines| > k then k < |th.call.items| && AnswerFollows(th.call.items[k], th.lines[k], trace)
    else if k < |th.call.items| then ItemFollows(th, th.call.items[k], trace)
    else trace == NoTrace()
  }

  ghost predicate ItemFollows(th: Thread, item: Item, trace: Trace) {
    match th.pc
    case ReadLevels => trace == NoTrace()
    case Drain(levels, remaining) =>
      && ReadOk(trace, item.product) && |levels| <= |trace.seen|
      && trace.seen != [] && levels == trace.seen[|trace.seen| - |levels|..]
      && Tried(trace.seen, |trace.seen| - |levels|, trace.missed, item.quantity, th.drawn)
    case PlaceBackorder(reserved) =>
      && ReadOk(trace, item.product) && trace.seen != []
      && Tried(trace.seen, |trace.seen|, trace.missed, item.quantity, reserved)
    case _ => true
  }

  lemma ListingIsNonNegative(rows: seq<Row>, product: Text)
    requires TableOk(rows)
    ensures NonNegative(Listing(rows, product))
  {
    ListingIsStock(rows, product);
    var levels := Listing(rows, product);
    forall j | 0 <= j < |levels|
      ensures levels[j].quantity >= 0
    {
      assert InTable(rows, levels[j], product);
    }
  }

  /** Thread `t` steps to `th`, and the trace of item `k` follows. */
  ghost predicate FollowsNext(s: State, t: nat, k: nat, trace: Trace)
    requires t < |s.threads| && s.threads[t].call.Reserve? && NextReserve(s, t).Some?
  {
    var after := NextReserve(s, t).value.threads;
    t < |after| && after[t].call == s.threads[t].call && Follows(after[t], k, Traced(s, t, k, trace))
  }

  /** A step leaves the answered lines, and after a new one the thread is at the next item. */
  ghost predicate LinesGrow(th: Thread, next: Thread)
    requires th.call.Reserve?
  {
    && next.call == th.call && th.lines <= next.lines && |next.lines| <= |th.lines| + 1
    && (|next.lines| > |th.lines| ==> next.pc == NextItem(th.call, |next.lines|))
  }

  lemma StepGrowsLines(s: State, t: nat)
    requires t < |s.threads| && s.threads[t].call.Reserve? && NextReserve(s, t).Some?
    ensures var after := NextReserve(s, t).value.threads;
            |after| == |s.threads| && LinesGrow(s.threads[t], after[t])
  {
  }

  /** Steps at other items say nothing about item `k`. */
  lemma ElsewhereFollows(th: Thread, next: Thread, k: nat, trace: Trace)
    requires th.call.Reserve? && LinesGrow(th, next) && |next.lines| <= |th.call.items|
    requires Follows(th, k, trace) && |th.lines| != k
    ensures Follows(next, k, trace)
  {
    if |th.lines| > k { assert next.lines[k] == th.lines[k]; }
  }

  lemma ReadFollows(s: State, t: nat, k: nat, trace: Trace)
    requires Inv(s) && AtItem(s, t, k) && NextReserve(s, t).Some?
    requires Follows(s.threads[t], k, trace) && s.threads[t].pc.ReadLevels?
    ensures FollowsNext(s, t, k, trace)
  {
    var item := s.threads[t].call.items[k];
    var seen := Listing(s.rows, item.product);
    ListingIsNonNegative(s.rows, item.product);
    TriedNone(seen, item.quantity);
    assert seen[|seen| - |seen|..] == seen;
  }

  /** One update, and how far the item has come. */
  lemma AttemptTried(rows: seq<Row>, product: Text, seen: seq<Level>, done: nat, missed: seq<Level>, quantity: nat, drawn: nat)
    requires TableOk(rows) && Tried(seen, done, missed, quantity, drawn) && drawn < quantity
    requires done < |seen| && IsOf(rows, seen[done].id, product)
    ensures var rest := Attempt(rows, seen[done], quantity - drawn).1;
            Tried(seen, done + 1, if Misses(rows, seen[done], quantity - drawn) then missed + [seen[done]] else missed,
                  quantity, quantity - rest)
  {
    var i :| 0 <= i < |rows| && rows[i].id == seen[done].id && rows[i].product == product;
    MissesExactly(rows, seen[done], quantity - drawn, i);
    TriedMissed(seen, done, missed, quantity, drawn);
    TriedTaken(seen, done, missed, quantity, drawn);
  }

  /** The item is at the same place of the list it read, with one level fewer to try. */
  lemma NextLevelFollows(th: Thread, item: Item, trace: Trace, next: Thread, more: Trace)
    requires ItemFollows(th, item, trace) && th.pc.Drain? && th.pc.levels != [] && next.pc.Drain?
    requires next.pc.levels == th.pc.levels[1..] && more.read == trace.read && more.seen == trace.seen
    requires Tried(trace.seen, |trace.seen| - |th.pc.levels| + 1, more.missed, item.quantity, next.drawn)
    ensures ItemFollows(next, item, more)
  {
    var done := |trace.seen| - |th.pc.levels|;
    assert trace.seen[done..][1..] == trace.seen[done + 1..];
  }

  lemma DrawingIsOk(s: State, t: nat, k: nat)
    requires Inv(s) && Drawing(s, t, k)
    ensures TableOk(s.rows) && s.threads[t].drawn + s.threads[t].pc.remaining == s.threads[t].call.items[k].quantity
    ensures s.threads[t].pc.levels != [] ==> IsOf(s.rows, s.threads[t].pc.levels[0].id, s.threads[t].call.items[k].product)
  {
    assert ThreadOk(s.rows, s.backorders, s.threads[t]);
  }

  lemma AttemptTraces(s: State, t: nat, k: nat, trace: Trace)
    requires Drawing(s, t, k) && Draining(s, t) && s.threads[t].pc.levels != []
    ensures var th, more := s.threads[t], Traced(s, t, k, trace);
            && more.read == trace.read && more.seen == trace.seen
            && more.missed == (if Misses(s.rows, th.pc.levels[0], th.pc.remaining) then trace.missed + [th.pc.levels[0]]
                               else trace.missed)
            && Attempted(s, t).threads[t].drawn
               == th.drawn + (th.pc.remaining - Attempt(s.rows, th.pc.levels[0], th.pc.remaining).1)
  {
  }

  lemma AttemptedTries(s: State, t: nat, k: nat, trace: Trace)
    requires TableOk(s.rows) && Drawing(s, t, k) && Draining(s, t)
    requires s.threads[t].pc.levels != [] && s.threads[t].pc.remaining > 0
    requires s.threads[t].drawn + s.threads[t].pc.remaining == s.threads[t].call.items[k].quantity
    requires IsOf(s.rows, s.threads[t].pc.levels[0].id, s.threads[t].call.items[k].product)
    requires |s.threads[t].pc.levels| <= |trace.seen|
    requires s.threads[t].pc.levels[0] == trace.seen[|trace.seen| - |s.threads[t].pc.levels|]
    requires Tried(trace.seen, |trace.seen| - |s.threads[t].pc.levels|, trace.missed,
                   s.threads[t].call.items[k].quantity, s.threads[t].drawn)
    ensures Tried(trace.seen, |trace.seen| - |s.threads[t].pc.levels| + 1, Traced(s, t, k, trace).missed,
                  s.threads[t].call.items[k].quantity, Attempted(s, t).threads[t].drawn)
  {
    var th := s.threads[t];
    AttemptTraces(s, t, k, trace);
    AttemptTried(s.rows, th.call.items[k].product, trace.seen, |trace.seen| - |th.pc.levels|, trace.missed,
                 th.call.items[k].quantity, th.drawn);
  }

  lemma AttemptFollows(s: State, t: nat, k: nat, trace: Trace)
    requires Inv(s) && Drawing(s, t, k) && Draining(s, t) && ItemFollows(s.threads[t], s.threads[t].call.items[k], trace)
    requires s.threads[t].pc.levels != [] && s.threads[t].pc.remaining > 0
    ensures NextReserve(s, t).Some? && FollowsNext(s, t, k, trace)
  {
    DrawingIsOk(s, t, k);
    AttemptTraces(s, t, k, trace);
    AttemptedTries(s, t, k, trace);
    AttemptedIsNext({}, s, t);
    NextLevelFollows(s.threads[t], s.threads[t].call.items[k], trace, Attempted(s, t).threads[t], Traced(s, t, k, trace));
  }

  lemma AnsweredFollows(s: State, t: nat, k: nat, reserved: nat, trace: Trace)
    requires AtItem(s, t, k) && reserved <= s.threads[t].call.items[k].quantity
    requires var item := s.threads[t].call.items[k];
             && ReadOk(trace, item.product)
             && if trace.seen == [] then reserved == item.quantity && trace.missed == []
                else Tried(trace.seen, |trace.seen|, trace.missed, item.quantity, reserved)
    ensures var th := Answered(s, t, reserved).threads[t]; th.call == s.threads[t].call && Follows(th, k, trace)
  {
    var line := Answered(s, t, reserved).threads[t].lines[k];
    assert AnswerFollows(s.threads[t].call.items[k], line, trace);
  }

  lemma EnoughFollows(s: State, t: nat, k: nat, trace: Trace)
    requires Inv(s) && Drawing(s, t, k) && NextReserve(s, t).Some? && ItemFollows(s.threads[t], s.threads[t].call.items[k], trace)
    requires s.threads[t].pc.remaining == 0
    ensures FollowsNext(s, t, k, trace)
  {
    var th := s.threads[t];
    assert ThreadOk(s.rows, s.backorders, th);
    var item, seen := th.call.items[k], trace.seen;
    TriedEnough(seen, |seen| - |th.pc.levels|, trace.missed, item.quantity);
    AnsweredFollows(s, t, k, item.quantity, trace);
  }

  lemma ShortFollows(s: State, t: nat, k: nat, trace: Trace)
    requires Inv(s) && Drawing(s, t, k) && NextReserve(s, t).Some? && Follows(s.threads[t], k, trace)
    requires s.threads[t].pc.levels == [] && s.threads[t].pc.remaining > 0
    ensures FollowsNext(s, t, k, trace)
  {
    assert ThreadOk(s.rows, s.backorders, s.threads[t]);
  }

  lemma BackorderFollows(s: State, t: nat, k: nat, trace: Trace)
    requires Inv(s) && AtItem(s, t, k) && NextReserve(s, t).Some? && Follows(s.threads[t], k, trace)
    requires s.threads[t].pc.PlaceBackorder?
    ensures FollowsNext(s, t, k, trace)
  {
    assert ThreadOk(s.rows, s.backorders, s.threads[t]);
    AnsweredFollows(s, t, k, s.threads[t].pc.reserved, trace);
  }

  lemma StepFollows(s: State, t: nat, k: nat, trace: Trace)
    requires Inv(s) && t < |s.threads| && s.threads[t].call.Reserve? && NextReserve(s, t).Some?
    requires Follows(s.threads[t], k, trace)
    ensures FollowsNext(s, t, k, trace)
  {
    assert ThreadOk(s.rows, s.backorders, s.threads[t]);
    var pc := s.threads[t].pc;
    if |s.threads[t].lines| != k {
      StepGrowsLines(s, t);
      ElsewhereFollows(s.threads[t], NextReserve(s, t).value.threads[t], k, trace);
    } else if pc.ReadLevels? {
      ReadFollows(s, t, k, trace);
    } else if pc.PlaceBackorder? {
      BackorderFollows(s, t, k, trace);
    } else if pc.remaining == 0 {
      EnoughFollows(s, t, k, trace);
    } else if pc.levels == [] {
      ShortFollows(s, t, k, trace);
    } else {
      AttemptFollows(s, t, k, trace);
    }
  }

  ghost predicate TraceOk(s: State, t: nat, k: nat, trace: Trace) {
    t < |s.threads| && s.threads[t].call.Reserve? && Follows(s.threads[t], k, trace)
  }

  lemma EventFollows(warehouses: set<Text>, s: State, e: Event, t: nat, k: nat, trace: Trace)
    requires Inv(s) && Apply(warehouses, s, e).Some? && TraceOk(s, t, k, trace)
    ensures TraceOk(Apply(warehouses, s, e).value, t, k, TracedBy(s, e, t, k, trace))
    ensures Apply(warehouses, s, e).value.threads[t].call == s.threads[t].call
  {
    if e.t == t {
      if e.Step? { StepFollows(s, t, k, trace); }
    } else {
      OthersLines(warehouses, s, e);
    }
  }

  lemma {:induction false} EveryTraceIsOk(warehouses: set<Text>, rows: seq<Row>, calls: seq<Call>, events: seq<Event>,
                                          t: nat, k: nat)
    requires TableOk(rows) && Run(warehouses, Initial(rows, calls), events).Some?
    requires t < |calls| && calls[t].Reserve?
    ensures var s0 := Initial(rows, calls); var s := Run(warehouses, s0, events).value;
            Inv(s) && TraceOk(s, t, k, TraceOf(warehouses, s0, events, t, k)) && s.threads[t].call == calls[t]
  {
    if events == [] {
      InitialOk(rows, calls);
    } else {
      var front, e := events[..|events| - 1], events[|events| - 1];
      EveryTraceIsOk(warehouses, rows, calls, front, t, k);
      var before := Run(warehouses, Initial(rows, calls), front).value;
      ApplyKeepsInv(warehouses, before, e);
      EventFollows(warehouses, before, e, t, k, TraceOf(warehouses, Initial(rows, calls), front, t, k));
    }
  }

  /**
    In every run, an answered item of a product that had rows when its levels were read is reserved
    exactly as far as those levels reach whose update did not miss, is backordered exactly when that is
    less than requested, and falls short of the stock it read exactly when that is less than both; a
    product without rows is reserved in full.
  */
  lemma ReservedIsKept(warehouses: set<Text>, rows: seq<Row>, calls: seq<Call>, events: seq<Event>, t: nat, k: nat)
    requires TableOk(rows) && Run(warehouses, Initial(rows, calls), events).Some?
    requires t < |calls| && calls[t].Reserve?
    requires var s := Run(warehouses, Initial(rows, calls), events).value; t < |s.threads| && k < |s.threads[t].lines|
    ensures k < |calls[t].items|
    ensures var s0, item := Initial(rows, calls), calls[t].items[k];
            var line := Run(warehouses, s0, events).value.threads[t].lines[k];
            var trace := TraceOf(warehouses, s0, events, t, k);
            && trace.read.Some?
            && var seen := trace.seen;
               && seen == Listing(trace.read.value, item.product) && Among(trace.missed, seen, |seen|)
               && line.reserved == (if seen == [] then item.quantity else Least(item.quantity, Kept(seen, trace.missed)))
               && (line.backorder.Some? <==> seen != [] && Kept(seen, trace.missed) < item.quantity)
               && (seen != [] ==>
                     (line.reserved < Least(item.quantity, OnHand(seen))
                      <==> Kept(seen, trace.missed) < Least(item.quantity, OnHand(seen))))
  {
    EveryTraceIsOk(warehouses, rows, calls, events, t, k);
    var s0 := Initial(rows, calls);
    var s := Run(warehouses, s0, events).value;
    var trace := TraceOf(warehouses, s0, events, t, k);
    assert ThreadOk(s.rows, s.backorders, s.threads[t]);
    assert LineAnswers(s.backorders, calls[t].items[k], s.threads[t].lines[k]);
    assert trace.seen[..|trace.seen|] == trace.seen;
  }

  // ---- no competing reservation -------------------------------------------------------------

  /** Some row of the product holds less than before. */
  ghost predicate LowersRow(rows: seq<Row>, after: seq<Row>, product: Text) {
    exists i :: 0 <= i < |rows| && i < |after| && rows[i].product == product && after[i].quantity < rows[i].quantity
  }

  /** Something else draws on the item's product while the thread is between its read and its last update. */
  ghost predicate Competes(warehouses: set<Text>, s: State, e: Event, t: nat, k: nat) {
    && e.t != t && Drawing(s, t, k) && Apply(warehouses, s, e).Some?
    && LowersRow(s.rows, Apply(warehouses, s, e).value.rows, s.threads[t].call.items[k].product)
  }

  ghost predicate Undisturbed(warehouses: set<Text>, s0: State, events: seq<Event>, t: nat, k: nat) {
    forall j | 0 <= j < |events| && Run(warehouses, s0, events[..j]).Some? ::
      !Competes(warehouses, Run(warehouses, s0, events[..j]).value, events[j], t, k)
  }

  /** The level's row holds at least what was read. */
  ghost predicate Covers(rows: seq<Row>, level: Level, product: Text) {
    exists i :: 0 <= i < |rows| && rows[i].id == level.id && rows[i].product == product && rows[i].quantity >= level.quantity
  }

  ghost predicate AllCovered(rows: seq<Row>, levels: seq<Level>, product: Text) {
    && (forall i, j :: 0 <= i < j < |levels| ==> levels[i].id != levels[j].id)
    && (forall j :: 0 <= j < |levels| ==> Covers(rows, levels[j], product))
  }

  ghost predicate Clear(s: State, t: nat, k: nat, trace: Trace) {
    && trace.missed == []
    && (Drawing(s, t, k) ==> AllCovered(s.rows, s.threads[t].pc.levels, s.threads[t].call.items[k].product))
  }

  lemma ReadIsCovered(rows: seq<Row>, product: Text)
    requires TableOk(rows)
    ensures AllCovered(rows, Listing(rows, product), product)
  {
    ListingIsStock(rows, product);
    var levels := Listing(rows, product);
    forall j | 0 <= j < |levels|
      ensures Covers(rows, levels[j], product)
    {
      assert InTable(rows, levels[j], product);
      var i :| 0 <= i < |rows| && Shows(rows[i], levels[j], product);
      assert rows[i].quantity >= levels[j].quantity;
    }
  }

  lemma CoverStays(rows: seq<Row>, after: seq<Row>, levels: seq<Level>, product: Text)
    requires AllCovered(rows, levels, product) && Grown(rows, after) && !LowersRow(rows, after, product)
    ensures AllCovered(after, levels, product)
  {
    forall j | 0 <= j < |levels|
      ensures Covers(after, levels[j], product)
    {
      assert Covers(rows, levels[j], product);
      var i :| 0 <= i < |rows| && rows[i].id == levels[j].id && rows[i].product == product
               && rows[i].quantity >= levels[j].quantity;
      assert after[i].quantity >= rows[i].quantity;
    }
  }

  /** A covered level's update does not miss, and touches no other level's row. */
  lemma CoveredTakes(rows: seq<Row>, levels: seq<Level>, remaining: nat, product: Text)
    requires TableOk(rows) && levels != [] && AllCovered(rows, levels, product)
    ensures !Misses(rows, levels[0], remaining)
    ensures AllCovered(Attempt(rows, levels[0], remaining).0, levels[1..], product)
  {
    assert Covers(rows, levels[0], product);
    var i :| 0 <= i < |rows| && rows[i].id == levels[0].id && rows[i].product == product
             && rows[i].quantity >= levels[0].quantity;
    MissesExactly(rows, levels[0], remaining, i);
    FindIdIs(rows, i);
    var after, rest := Attempt(rows, levels[0], remaining).0, levels[1..];
    forall j | 0 <= j < |rest|
      ensures Covers(after, rest[j], product)
    {
      assert Covers(rows, levels[j + 1], product);
      var m :| 0 <= m < |rows| && rows[m].id == levels[j + 1].id && rows[m].product == product
               && rows[m].quantity >= levels[j + 1].quantity;
      assert m != i && after[m] == rows[m];
    }
  }

  lemma OwnStepClear(s: State, t: nat, k: nat, trace: Trace)
    requires Inv(s) && t < |s.threads| && s.threads[t].call.Reserve? && NextReserve(s, t).Some? && Clear(s, t, k, trace)
    ensures Clear(NextReserve(s, t).value, t, k, Traced(s, t, k, trace))
  {
    var th := s.threads[t];
    assert ThreadOk(s.rows, s.backorders, th);
    if AtItem(s, t, k) {
      if th.pc.ReadLevels? {
        ReadIsCovered(s.rows, th.call.items[k].product);
      } else if th.pc.Drain? && th.pc.levels != [] {
        CoveredTakes(s.rows, th.pc.levels, th.pc.remaining, th.call.items[k].product);
      }
    }
  }

  lemma EventClear(warehouses: set<Text>, s: State, e: Event, t: nat, k: nat, trace: Trace)
    requires Inv(s) && Apply(warehouses, s, e).Some? && t < |s.threads| && s.threads[t].call.Reserve?
    requires Clear(s, t, k, trace) && !Competes(warehouses, s, e, t, k)
    ensures Clear(Apply(warehouses, s, e).value, t, k, TracedBy(s, e, t, k, trace))
  {
    var after := Apply(warehouses, s, e).value;
    if e.t == t {
      if e.Step? { OwnStepClear(s, t, k, trace); }
    } else {
      OthersLines(warehouses, s, e);
      RowsGrow(warehouses, s, e);
      if Drawing(s, t, k) {
        CoverStays(s.rows, after.rows, s.threads[t].pc.levels, s.threads[t].call.items[k].product);
      }
    }
  }

  lemma UndisturbedFront(warehouses: set<Text>, s0: State, events: seq<Event>, t: nat, k: nat)
    requires events != [] && Undisturbed(warehouses, s0, events, t, k) && Run(warehouses, s0, events).Some?
    ensures Undisturbed(warehouses, s0, events[..|events| - 1], t, k)
    ensures !Competes(warehouses, Run(warehouses, s0, events[..|events| - 1]).value, events[|events| - 1], t, k)
  {
    var front := events[..|events| - 1];
    forall j | 0 <= j < |front| && Run(warehouses, s0, front[..j]).Some?
      ensures !Competes(warehouses, Run(warehouses, s0, front[..j]).value, front[j], t, k)
    {
      assert front[..j] == events[..j];
    }
  }

  lemma {:induction false} UndisturbedIsClear(warehouses: set<Text>, rows: seq<Row>, calls: seq<Call>, events: seq<Event>,
                                              t: nat, k: nat)
    requires TableOk(rows) && Run(warehouses, Initial(rows, calls), events).Some?
    requires t < |calls| && calls[t].Reserve? && Undisturbed(warehouses, Initial(rows, calls), events, t, k)
    ensures var s0 := Initial(rows, calls);
            Clear(Run(warehouses, s0, events).value, t, k, TraceOf(warehouses, s0, events, t, k))
  {
    if events != [] {
      var front, e := events[..|events| - 1], events[|events| - 1];
      UndisturbedFront(warehouses, Initial(rows, calls), events, t, k);
      UndisturbedIsClear(warehouses, rows, calls, front, t, k);
      EveryTraceIsOk(warehouses, rows, calls, front, t, k);
      EventClear(warehouses, Run(warehouses, Initial(rows, calls), front).value, e, t, k,
                 TraceOf(warehouses, Initial(rows, calls), front, t, k));
    }
  }

  /**
    When nothing else lowers a row of the product between the item's read and its last update, whatever
    restocks, crashes and reservations of other products run meanwhile, no update misses: the item is
    reserved up to the product's stock at its read, in full if the product has no row.
  */
  lemma UndisturbedGetsStock(warehouses: set<Text>, rows: seq<Row>, calls: seq<Call>, events: seq<Event>, t: nat, k: nat)
    requires TableOk(rows) && Run(warehouses, Initial(rows, calls), events).Some?
    requires t < |calls| && calls[t].Reserve?
    requires var s := Run(warehouses, Initial(rows, calls), events).value; t < |s.threads| && k < |s.threads[t].lines|
    requires Undisturbed(warehouses, Initial(rows, calls), events, t, k)
    ensures k < |calls[t].items|
    ensures var s0, item := Initial(rows, calls), calls[t].items[k];
            var line := Run(warehouses, s0, events).value.threads[t].lines[k];
            var trace := TraceOf(warehouses, s0, events, t, k);
            && trace.read.Some? && trace.missed == []
            && line.reserved == (if Tracked(trace.read.value, item.product)
                                 then Least(item.quantity, Stock(trace.read.value, item.product)) else item.quantity)
  {
    ReservedIsKept(warehouses, rows, calls, events, t, k);
    UndisturbedIsClear(warehouses, rows, calls, events, t, k);
    EveryTraceIsOk(warehouses, rows, calls, events, t, k);
    var trace := TraceOf(warehouses, Initial(rows, calls), events, t, k);
    ListingIsStock(trace.read.value, calls[t].items[k].product);
  }
}
