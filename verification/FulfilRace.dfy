/**
  Starting fulfilment statement by statement: any number of handlers for any orders, interleaved with
  one another and with the continuations of the jobs they start, any handler failing anywhere. An order
  gets as many jobs as handlers read it before the first of them had saved it
  (apiV2/src/jobs/jobs.service.ts).
*/
module FulfilRace {
  import opened Wrappers
  import opened Lifecycle

  /** A request's handler; `job` is the row it has inserted. */
  datatype Pc =
    | Load
    | Insert
    | RunJob(job: nat)
    | SaveOrder(job: nat)
    | Started(job: nat)
    | Refused
    | Failed(left: Option<nat>)

  datatype Handler = Handler(order: nat, pc: Pc)

  datatype State = State(t: Tables, handlers: seq<Handler>)

  datatype Event = Step(h: nat) | Fail(h: nat) | Continuation(h: nat)

  function Initial(t: Tables, orders: seq<nat>): State {
    State(t, seq(|orders|, i requires 0 <= i < |orders| => Handler(orders[i], Load)))
  }

  function Moved(s: State, h: nat, pc: Pc): State
    requires h < |s.handlers|
  {
    s.(handlers := s.handlers[h := s.handlers[h].(pc := pc)])
  }

  function JobOf(pc: Pc): Option<nat> {
    match pc
    case RunJob(j) => Some(j)
    case SaveOrder(j) => Some(j)
    case Started(j) => Some(j)
    case Failed(left) => left
    case _ => None
  }

  function Next(s: State, h: nat): Option<State>
    requires h < |s.handlers|
  {
    var o := s.handlers[h].order;
    match s.handlers[h].pc
    case Load =>
      Some(Moved(s, h, if o < |s.t.orders| && s.t.orders[o].status == Pending then Insert else Refused))
    case Insert =>
      Some(Moved(s, h, RunJob(|s.t.jobs|)).(t := s.t.(jobs := s.t.jobs + [Job(Fulfilment, o, Queued, BeforeReady)])))
    case RunJob(j) =>
      if j >= |s.t.jobs| then None
      else Some(Moved(s, h, SaveOrder(j)).(t := s.t.(jobs := s.t.jobs[j := s.t.jobs[j].(status := Running)])))
    case SaveOrder(j) =>
      if o >= |s.t.orders| then None
      else Some(Moved(s, h, Started(j)).(t := s.t.(orders := SetStatus(s.t.orders, o, Processing))))
    case _ => None
  }

  /** A continuation runs once its handler has returned. */
  function Apply(s: State, e: Event): Option<State> {
    if e.h >= |s.handlers| then None
    else
      match e
      case Step(h) => Next(s, h)
      case Fail(h) =>
        var pc := s.handlers[h].pc;
        if pc.Started? || pc.Refused? || pc.Failed? then None else Some(Moved(s, h, Failed(JobOf(pc))))
      case Continuation(h) =>
        if !s.handlers[h].pc.Started? then None
        else
          match Continue(s.t, s.handlers[h].pc.job)
          case Some(t) => Some(s.(t := t))
          case None => None
  }

  function Run(s: State, events: seq<Event>): Option<State> {
    if events == [] then Some(s)
    else
      var before :- Run(s, events[..|events| - 1]);
      Apply(before, events[|events| - 1])
  }

  // ---- who reads before the first save ------------------------------------------------------

  predicate IsStarter(handler: Handler, o: nat) { handler.order == o && handler.pc.Started? }

  /** Some handler has saved the order as processing. */
  predicate Saved(s: State, o: nat) { exists h :: 0 <= h < |s.handlers| && IsStarter(s.handlers[h], o) }

  /** Event `i` is handler `h` reading order `o`, before or after the first save. */
  ghost predicate LoadsAt(s0: State, events: seq<Event>, i: nat, h: nat, o: nat, early: bool) {
    && i < |events| && events[i] == Step(h) && Run(s0, events[..i]).Some?
    && var s := Run(s0, events[..i]).value;
       h < |s.handlers| && s.handlers[h] == Handler(o, Load) && early == !Saved(s, o)
  }

  ghost predicate Loaded(s0: State, events: seq<Event>, h: nat, o: nat, early: bool) {
    exists i :: LoadsAt(s0, events, i, h, o, early)
  }

  lemma SameLoad(s0: State, front: seq<Event>, e: Event, i: nat, h: nat, o: nat, early: bool)
    requires i < |front|
    ensures LoadsAt(s0, front + [e], i, h, o, early) <==> LoadsAt(s0, front, i, h, o, early)
  {
    assert (front + [e])[..i] == front[..i];
  }

  lemma LoadsNow(s0: State, front: seq<Event>, e: Event, h: nat, o: nat, early: bool)
    requires Run(s0, front).Some?
    ensures LoadsAt(s0, front + [e], |front|, h, o, early)
            <==> var s := Run(s0, front).value;
                 e == Step(h) && h < |s.handlers| && s.handlers[h] == Handler(o, Load) && early == !Saved(s, o)
  {
    assert (front + [e])[..|front|] == front;
  }

  lemma LoadedSoFar(s0: State, front: seq<Event>, e: Event, h: nat, o: nat, early: bool)
    requires Run(s0, front).Some?
    ensures Loaded(s0, front + [e], h, o, early)
            <==> Loaded(s0, front, h, o, early) || LoadsAt(s0, front + [e], |front|, h, o, early)
  {
    if i: nat :| LoadsAt(s0, front + [e], i, h, o, early) {
      if i < |front| { SameLoad(s0, front, e, i, h, o, early); }
    }
    if i: nat :| LoadsAt(s0, front, i, h, o, early) { SameLoad(s0, front, e, i, h, o, early); }
  }

  // ---- what every step keeps ----------------------------------------------------------------

  /** Past its read, a handler read the order before the first save, or was refused. */
  ghost predicate HandlerOk(pc: Pc, early: bool, late: bool) {
    match pc
    case Load => !early && !late
    case Refused => late && !early
    case Failed(left) => left.Some? ==> early && !late
    case _ => early && !late
  }

  ghost predicate HandlersOk(s0: State, events: seq<Event>, s: State, o: nat) {
    forall h: nat | h < |s.handlers| && s.handlers[h].order == o ::
      HandlerOk(s.handlers[h].pc, Loaded(s0, events, h, o, true), Loaded(s0, events, h, o, false))
  }

  /** The order is pending until the first save. */
  ghost predicate OrderFollows(s: State, o: nat) {
    o < |s.t.orders| && (s.t.orders[o].status == Pending <==> !Saved(s, o))
  }

  /** From row `base` on, every job was inserted by exactly one handler, for its order. */
  ghost predicate JobsOk(s: State, base: nat) {
    && base <= |s.t.jobs|
    && (forall h: nat | h < |s.handlers| :: OwnsItsJob(s, base, h))
    && (forall h: nat, k: nat | h < |s.handlers| && k < |s.handlers| && JobOf(s.handlers[h].pc).Some? ::
          JobOf(s.handlers[h].pc) == JobOf(s.handlers[k].pc) ==> h == k)
    && (forall j: nat | base <= j < |s.t.jobs| :: HasHandler(s, j))
  }

  ghost predicate OwnsItsJob(s: State, base: nat, h: nat)
    requires h < |s.handlers|
  {
    match JobOf(s.handlers[h].pc)
    case Some(j) => base <= j < |s.t.jobs| && s.t.jobs[j].order == s.handlers[h].order
    case None => true
  }

  ghost predicate HasHandler(s: State, j: nat) {
    exists h: nat :: h < |s.handlers| && JobOf(s.handlers[h].pc) == Some(j)
  }

  lemma ContinueLeaves(t: Tables, j: nat)
    requires Continue(t, j).Some?
    ensures var after := Continue(t, j).value;
            && |after.jobs| == |t.jobs| && (forall i :: 0 <= i < |t.jobs| ==> after.jobs[i].order == t.jobs[i].order)
            && |after.orders| == |t.orders| && after.orders[t.jobs[j].order].status != Pending
            && forall o :: 0 <= o < |t.orders| && o != t.jobs[j].order ==> after.orders[o] == t.orders[o]
  {
  }

  lemma EventKeepsJobs(s: State, e: Event, base: nat)
    requires JobsOk(s, base) && Apply(s, e).Some?
    ensures JobsOk(Apply(s, e).value, base)
  {
    var after, h := Apply(s, e).value, e.h;
    if e.Continuation? { ContinueLeaves(s.t, s.handlers[h].pc.job); }
    forall k: nat | k < |after.handlers|
      ensures OwnsItsJob(after, base, k)
    {
      assert OwnsItsJob(s, base, k);
    }
    forall j: nat | base <= j < |after.t.jobs|
      ensures HasHandler(after, j)
    {
      if j < |s.t.jobs| {
        assert HasHandler(s, j);
        var k: nat :| k < |s.handlers| && JobOf(s.handlers[k].pc) == Some(j);
        assert JobOf(after.handlers[k].pc) == Some(j);
      } else {
        assert JobOf(after.handlers[h].pc) == Some(j);
      }
    }
    forall k: nat, m: nat | k < |after.handlers| && m < |after.handlers| && JobOf(after.handlers[k].pc).Some?
                            && JobOf(after.handlers[k].pc) == JobOf(after.handlers[m].pc)
      ensures k == m
    {
      assert OwnsItsJob(s, base, k) && OwnsItsJob(s, base, m);
    }
  }

  lemma SavedStays(s: State, e: Event, o: nat)
    requires Apply(s, e).Some?
    ensures Saved(s, o) ==> Saved(Apply(s, e).value, o)
    ensures !Saved(s, o) && Saved(Apply(s, e).value, o) ==> e.Step? && s.handlers[e.h].order == o && s.handlers[e.h].pc.SaveOrder?
  {
    var after := Apply(s, e).value;
    if h :| 0 <= h < |s.handlers| && IsStarter(s.handlers[h], o) {
      assert IsStarter(after.handlers[h], o);
    }
  }

  lemma EventKeepsOrder(s: State, e: Event, o: nat, base: nat)
    requires OrderFollows(s, o) && JobsOk(s, base) && Apply(s, e).Some?
    ensures OrderFollows(Apply(s, e).value, o)
  {
    var after := Apply(s, e).value;
    SavedStays(s, e, o);
    if e.Continuation? {
      assert OwnsItsJob(s, base, e.h);
      ContinueLeaves(s.t, s.handlers[e.h].pc.job);
      if s.handlers[e.h].order == o { assert IsStarter(s.handlers[e.h], o); }
    } else if e.Step? && s.handlers[e.h].pc.SaveOrder? && s.handlers[e.h].order == o {
      assert IsStarter(after.handlers[e.h], o);
    }
  }

  lemma EventKeepsHandlers(s0: State, front: seq<Event>, s: State, e: Event, o: nat)
    requires Run(s0, front) == Some(s) && HandlersOk(s0, front, s, o) && OrderFollows(s, o) && Apply(s, e).Some?
    ensures HandlersOk(s0, front + [e], Apply(s, e).value, o)
  {
    var after := Apply(s, e).value;
    forall h: nat | h < |after.handlers| && after.handlers[h].order == o
      ensures HandlerOk(after.handlers[h].pc, Loaded(s0, front + [e], h, o, true), Loaded(s0, front + [e], h, o, false))
    {
      assert HandlerOk(s.handlers[h].pc, Loaded(s0, front, h, o, true), Loaded(s0, front, h, o, false));
      LoadedSoFar(s0, front, e, h, o, true);
      LoadedSoFar(s0, front, e, h, o, false);
      LoadsNow(s0, front, e, h, o, true);
      LoadsNow(s0, front, e, h, o, false);
    }
  }

  ghost predicate RunOk(s0: State, base: nat, events: seq<Event>, s: State, o: nat) {
    Run(s0, events) == Some(s) && OrderFollows(s, o) && JobsOk(s, base) && HandlersOk(s0, events, s, o)
  }

  lemma RunPush(s0: State, front: seq<Event>, s: State, e: Event)
    requires Run(s0, front) == Some(s)
    ensures Run(s0, front + [e]) == Apply(s, e)
  {
    assert (front + [e])[..|front|] == front;
  }

  lemma OneMoreEvent(s0: State, base: nat, front: seq<Event>, s: State, e: Event, o: nat)
    requires RunOk(s0, base, front, s, o) && Apply(s, e).Some?
    ensures RunOk(s0, base, front + [e], Apply(s, e).value, o)
  {
    RunPush(s0, front, s, e);
    EventKeepsJobs(s, e, base);
    EventKeepsOrder(s, e, o, base);
    EventKeepsHandlers(s0, front, s, e, o);
  }

  lemma {:induction false} EveryRunIsOk(t: Tables, orders: seq<nat>, events: seq<Event>, o: nat)
    requires o < |t.orders| && t.orders[o].status == Pending && Run(Initial(t, orders), events).Some?
    ensures RunOk(Initial(t, orders), |t.jobs|, events, Run(Initial(t, orders), events).value, o)
  {
    if events != [] {
      var front, e := events[..|events| - 1], events[|events| - 1];
      EveryRunIsOk(t, orders, front, o);
      OneMoreEvent(Initial(t, orders), |t.jobs|, front, Run(Initial(t, orders), front).value, e, o);
      assert front + [e] == events;
    }
  }

  /** Handlers of the order that have answered: with a job, or with a conflict. */
  ghost predicate Answered(s: State, o: nat) {
    forall h | 0 <= h < |s.handlers| && s.handlers[h].order == o :: s.handlers[h].pc.Started? || s.handlers[h].pc.Refused?
  }

  ghost predicate TwoJobs(t: Tables, base: nat, o: nat) {
    exists i: nat, j: nat :: base <= i < j < |t.jobs| && t.jobs[i].order == t.jobs[j].order == o
  }

  ghost predicate TwoEarly(s0: State, events: seq<Event>, o: nat) {
    exists h: nat, k: nat :: h != k && Loaded(s0, events, h, o, true) && Loaded(s0, events, k, o, true)
  }

  lemma {:induction false} HandlersStay(s0: State, events: seq<Event>, h: nat)
    requires Run(s0, events).Some?
    ensures |Run(s0, events).value.handlers| == |s0.handlers|
    ensures h < |s0.handlers| ==> Run(s0, events).value.handlers[h].order == s0.handlers[h].order
  {
    if events != [] { HandlersStay(s0, events[..|events| - 1], h); }
  }

  lemma EarlyIsHandler(s0: State, events: seq<Event>, h: nat, o: nat)
    requires Run(s0, events).Some? && Loaded(s0, events, h, o, true)
    ensures var s := Run(s0, events).value; h < |s.handlers| && s.handlers[h].order == o
  {
    var i: nat :| LoadsAt(s0, events, i, h, o, true);
    HandlersStay(s0, events[..i], h);
    HandlersStay(s0, events, h);
  }

  /** A handler that has answered started a job exactly when it read the order before the first save. */
  lemma StartsExactly(t: Tables, orders: seq<nat>, events: seq<Event>, h: nat, o: nat)
    requires o < |t.orders| && t.orders[o].status == Pending && Run(Initial(t, orders), events).Some?
    requires var s := Run(Initial(t, orders), events).value;
             && h < |s.handlers| && s.handlers[h].order == o
             && (s.handlers[h].pc.Started? || s.handlers[h].pc.Refused?)
    ensures var s := Run(Initial(t, orders), events).value;
            && (s.handlers[h].pc.Started? <==> Loaded(Initial(t, orders), events, h, o, true))
            && (s.handlers[h].pc.Refused? <==> Loaded(Initial(t, orders), events, h, o, false))
  {
    EveryRunIsOk(t, orders, events, o);
  }

  /**
    When its handlers have answered, a pending order has got two jobs exactly when two of them had read it
    before the first of them saved it.
  */
  lemma TwoJobsExactly(t: Tables, orders: seq<nat>, events: seq<Event>, o: nat)
    requires o < |t.orders| && t.orders[o].status == Pending && Run(Initial(t, orders), events).Some?
    requires Answered(Run(Initial(t, orders), events).value, o)
    ensures TwoJobs(Run(Initial(t, orders), events).value.t, |t.jobs|, o) <==> TwoEarly(Initial(t, orders), events, o)
  {
    EveryRunIsOk(t, orders, events, o);
    var s0, base := Initial(t, orders), |t.jobs|;
    var s := Run(s0, events).value;
    if TwoJobs(s.t, base, o) {
      var i: nat, j: nat :| base <= i < j < |s.t.jobs| && s.t.jobs[i].order == s.t.jobs[j].order == o;
      assert HasHandler(s, i) && HasHandler(s, j);
      var h: nat :| h < |s.handlers| && JobOf(s.handlers[h].pc) == Some(i);
      var k: nat :| k < |s.handlers| && JobOf(s.handlers[k].pc) == Some(j);
      assert OwnsItsJob(s, base, h) && OwnsItsJob(s, base, k);
      assert Loaded(s0, events, h, o, true) && Loaded(s0, events, k, o, true);
    }
    if TwoEarly(s0, events, o) {
      var h: nat, k: nat :| h != k && Loaded(s0, events, h, o, true) && Loaded(s0, events, k, o, true);
      EarlyIsHandler(s0, events, h, o);
      EarlyIsHandler(s0, events, k, o);
      var i, j := JobOf(s.handlers[h].pc).value, JobOf(s.handlers[k].pc).value;
      assert OwnsItsJob(s, base, h) && OwnsItsJob(s, base, k);
      assert i != j;
      assert if i < j then s.t.jobs[i].order == s.t.jobs[j].order == o else s.t.jobs[j].order == s.t.jobs[i].order == o;
    }
  }

  // ---- a handler with nothing beside it -----------------------------------------------------

  /** Tables, and where the handler stands. */
  ghost predicate Leaves(s: State, h: nat, after: State, t: Tables, pc: Pc) {
    && h < |s.handlers| && after.t == t && after.handlers == s.handlers[h := Handler(s.handlers[h].order, pc)]
  }

  /** Each statement of a handler that read the order as pending. */
  lemma HandlerSteps(s: State, h: nat) returns (b: State, c: State, d: State, after: State)
    requires h < |s.handlers| && s.handlers[h].pc.Load?
    requires s.handlers[h].order < |s.t.orders| && s.t.orders[s.handlers[h].order].status == Pending
    ensures Apply(s, Step(h)) == Some(b) && Apply(b, Step(h)) == Some(c) && Apply(c, Step(h)) == Some(d)
            && Apply(d, Step(h)) == Some(after)
    ensures var o, n := s.handlers[h].order, |s.t.jobs|;
            Leaves(s, h, after,
                   s.t.(jobs := s.t.jobs + [Job(Fulfilment, o, Running, BeforeReady)],
                        orders := s.t.orders[o := Order(s.t.orders[o].user, Processing)]), Started(n))
  {
    b := Next(s, h).value;
    c := Next(b, h).value;
    d := Next(c, h).value;
    after := Next(d, h).value;
    assert d.t.jobs == s.t.jobs + [Job(Fulfilment, s.handlers[h].order, Running, BeforeReady)];
  }

  /**
    A handler whose statements run one after another does what starting fulfilment in one step does: a pending
    order gets one running job and is processing, and anything else is refused and leaves the tables.
  */
  lemma HandlerAlone(s: State, h: nat) returns (events: seq<Event>, after: State)
    requires h < |s.handlers| && s.handlers[h].pc.Load?
    ensures Run(s, events) == Some(after) && forall i :: 0 <= i < |events| ==> events[i] == Step(h)
    ensures var o, n := s.handlers[h].order, |s.t.jobs|;
            && after.t == Fulfil(s.t, o).0
            && if o < |s.t.orders| && s.t.orders[o].status == Pending then
                 Leaves(s, h, after,
                        s.t.(jobs := s.t.jobs + [Job(Fulfilment, o, Running, BeforeReady)],
                             orders := s.t.orders[o := Order(s.t.orders[o].user, Processing)]), Started(n))
               else Leaves(s, h, after, s.t, Refused)
  {
    var e := Step(h);
    RunPush(s, [], s, e);
    assert [] + [e] == [e];
    if s.handlers[h].order < |s.t.orders| && s.t.orders[s.handlers[h].order].status == Pending {
      var b, c, d;
      b, c, d, after := HandlerSteps(s, h);
      RunPush(s, [e], b, e);
      RunPush(s, [e] + [e], c, e);
      RunPush(s, [e] + [e] + [e], d, e);
      events := [e] + [e] + [e] + [e];
    } else {
      events, after := [e], Next(s, h).value;
    }
  }
}
