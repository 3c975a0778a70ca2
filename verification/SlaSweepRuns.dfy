/**
  The SLA sweep under concurrency: timer ticks, sweeps split at each awaited query, ticket handlers,
  deletions and failing queries in any interleaving (apiV2/src/tickets/ticket-sla-sweep.service.ts,
  apiV2/src/tickets/tickets.service.ts).
*/
module SlaSweepRuns {
  import opened Wrappers
  import opened Bytes
  import opened Search
  import opened Tickets

  datatype Stage = Reading | Marking(batch: seq<nat>, i: nat) | Logging(batch: seq<nat>, i: nat)

  /** A call of `sweep`; `now` is the clock reading it started with. */
  datatype Pass = Pass(now: int, stage: Stage)

  datatype State = State(t: Tables, sweeping: bool, passes: seq<Pass>, now: int)

  function Initial(now: int): State { State(Tables(map[], [], 0), false, [], now) }

  datatype Event =
    | NewTicket(user: Text, org: Option<Text>)
    | Handle(action: Action, ticket: nat, who: Requester)
    | Remove(ticket: nat)
    | Pause(millis: nat)
    | Tick                                       // the interval timer
    | Read(pass: nat, batch: seq<nat>)           // the query returns this batch
    | ReadFails(pass: nat)
    | Mark(pass: nat, ok: bool)                  // the next ticket's update, or the end of the loop
    | Log(pass: nat, ok: bool)                   // its event

  function Staged(s: State, p: nat, stage: Stage): State
    requires p < |s.passes|
  {
    s.(passes := s.passes[p := s.passes[p].(stage := stage)])
  }

  /** The pass returns or rejects, and `finally` clears the flag. */
  function Ended(s: State, p: nat): State
    requires p < |s.passes|
  {
    s.(passes := s.passes[..p] + s.passes[p + 1..], sweeping := false)
  }

  ghost function Apply(s: State, e: Event): Option<State> {
    match e
    case NewTicket(user, org) => Some(s.(t := Create(s.t, user, org, s.now)))
    case Handle(action, k, who) => Some(s.(t := Act(s.t, action, k, who).0))
    case Remove(k) => Some(s.(t := Delete(s.t, k)))
    case Pause(d) => Some(s.(now := s.now + d))
    case Tick => if s.sweeping then Some(s) else Some(s.(sweeping := true, passes := s.passes + [Pass(s.now, Reading)]))
    case Read(p, batch) =>
      if p < |s.passes| && s.passes[p].stage.Reading? && IsBatch(s.t, s.passes[p].now, batch)
      then Some(Staged(s, p, Marking(batch, 0))) else None
    case ReadFails(p) => if p < |s.passes| && s.passes[p].stage.Reading? then Some(Ended(s, p)) else None
    case Mark(p, ok) =>
      if p >= |s.passes| || !s.passes[p].stage.Marking? then None
      else
        var batch, i := s.passes[p].stage.batch, s.passes[p].stage.i;
        if i >= |batch| then Some(Ended(s, p))
        else if ok then Some(Staged(s, p, Logging(batch, i)).(t := Marked(s.t, batch[i], s.now)))
        else Some(Staged(s, p, Marking(batch, i + 1)))
    case Log(p, ok) =>
      if p >= |s.passes| || !s.passes[p].stage.Logging? then None
      else
        var batch, i := s.passes[p].stage.batch, s.passes[p].stage.i;
        if i >= |batch| then None
        else
          // no such ticket: a foreign key violation, skipped
          var t := if ok && batch[i] in s.t.tickets then Logged(s.t, batch[i], SlaBreached, None) else s.t;
          Some(Staged(s, p, Marking(batch, i + 1)).(t := t))
  }

  ghost function Run(s: State, events: seq<Event>): Option<State> {
    if events == [] then Some(s)
    else
      var before :- Run(s, events[..|events| - 1]);
      Apply(before, events[|events| - 1])
  }

  // ---- the history of each ticket -----------------------------------------------------------

  ghost predicate HistoryOk(t: Tables, k: nat) {
    var kinds := KindsOf(t.log, k);
    && Breaches(kinds) <= 1
    && if k in t.tickets then
         && k < t.next && Walk(kinds) == At(t.tickets[k].status)
         && (Breaches(kinds) == 1 ==> t.tickets[k].breached)
       else kinds == []
  }

  ghost predicate LogOk(t: Tables) { forall k: nat :: HistoryOk(t, k) }

  /** The tickets a pass has still to log. */
  ghost predicate Pending(pass: Pass, k: nat) {
    match pass.stage
    case Reading => false
    case Marking(batch, i) => exists m :: i <= m < |batch| && batch[m] == k
    case Logging(batch, i) => exists m :: i <= m < |batch| && batch[m] == k
  }

  ghost predicate PassOk(t: Tables, pass: Pass) {
    && (forall k: nat :: Pending(pass, k) ==> k < t.next && Breaches(KindsOf(t.log, k)) == 0)
    && (match pass.stage
        case Reading => true
        case Marking(batch, i) => Distinct(batch)
        case Logging(batch, i) =>
          && Distinct(batch) && i < |batch|
          && (batch[i] in t.tickets ==> t.tickets[batch[i]].breached))
  }

  ghost predicate Inv(s: State) {
    && LogOk(s.t)
    && |s.passes| == (if s.sweeping then 1 else 0)
    && forall p :: 0 <= p < |s.passes| ==> PassOk(s.t, s.passes[p])
  }

  lemma CreateKeepsLog(t: Tables, user: Text, org: Option<Text>, now: int)
    requires LogOk(t)
    ensures LogOk(Create(t, user, org, now))
  {
    var after := Create(t, user, org, now);
    forall k: nat
      ensures HistoryOk(after, k)
    {
      assert HistoryOk(t, k);
      KindsPush(t.log, after.log[|t.log|], k);
      HistoryPush(KindsOf(t.log, k), WasCreated);
    }
  }

  /** A handler's checks let through only the status changes its event allows. */
  lemma ActKeepsHistory(t: Tables, action: Action, k: nat, who: Requester)
    requires HistoryOk(t, k) && Check(t, action, k, who).Ok?
    ensures var ticket := Check(t, action, k, who).value;
            && After(At(t.tickets[k].status), Leads(action).0) == At(ticket.status)
            && ticket.breached == t.tickets[k].breached && Leads(action).0 != SlaBreached
  {
  }

  lemma ActKeepsLog(t: Tables, action: Action, k: nat, who: Requester)
    requires LogOk(t)
    ensures LogOk(Act(t, action, k, who).0)
  {
    if Check(t, action, k, who).Ok? {
      var after := Act(t, action, k, who).0;
      assert HistoryOk(t, k);
      ActKeepsHistory(t, action, k, who);
      forall o: nat
        ensures HistoryOk(after, o)
      {
        assert HistoryOk(t, o);
        KindsPush(t.log, after.log[|t.log|], o);
        if o == k { HistoryPush(KindsOf(t.log, o), Leads(action).0); }
      }
    }
  }

  lemma DeleteKeepsLog(t: Tables, gone: nat)
    requires LogOk(t)
    ensures LogOk(Delete(t, gone))
  {
    forall k: nat
      ensures HistoryOk(Delete(t, gone), k)
    {
      assert HistoryOk(t, k);
      KindsWithout(t.log, gone, k);
    }
  }

  lemma MarkKeepsLog(t: Tables, k: nat, now: int)
    requires LogOk(t)
    ensures LogOk(Marked(t, k, now))
  {
    forall o: nat
      ensures HistoryOk(Marked(t, k, now), o)
    {
      assert HistoryOk(t, o);
    }
  }

  lemma BreachKeepsLog(t: Tables, k: nat)
    requires LogOk(t) && k in t.tickets && t.tickets[k].breached && Breaches(KindsOf(t.log, k)) == 0
    ensures LogOk(Logged(t, k, SlaBreached, None))
  {
    var after := Logged(t, k, SlaBreached, None);
    forall o: nat
      ensures HistoryOk(after, o)
    {
      assert HistoryOk(t, o);
      KindsPush(t.log, Entry(k, SlaBreached, None), o);
      if o == k { HistoryPush(KindsOf(t.log, o), SlaBreached); }
    }
  }

  // ---- passes beside the other steps --------------------------------------------------------

  /** A step of something else adds no breach event, clears no breach and reuses no id. */
  ghost predicate Beside(t: Tables, after: Tables) {
    && t.next <= after.next
    && (forall k: nat :: k < t.next && Breaches(KindsOf(t.log, k)) == 0 ==> Breaches(KindsOf(after.log, k)) == 0)
    && (forall k: nat :: k < t.next && k in after.tickets ==> k in t.tickets && (t.tickets[k].breached ==> after.tickets[k].breached))
  }

  lemma PassStaysOk(t: Tables, after: Tables, pass: Pass)
    requires PassOk(t, pass) && Beside(t, after)
    ensures PassOk(after, pass)
  {
    if pass.stage.Logging? { assert Pending(pass, pass.stage.batch[pass.stage.i]); }
  }

  lemma CreateIsBeside(t: Tables, user: Text, org: Option<Text>, now: int)
    requires LogOk(t)
    ensures Beside(t, Create(t, user, org, now))
  {
    var after := Create(t, user, org, now);
    forall k: nat | k < t.next && Breaches(KindsOf(t.log, k)) == 0
      ensures Breaches(KindsOf(after.log, k)) == 0
    {
      KindsPush(t.log, after.log[|t.log|], k);
    }
  }

  lemma ActIsBeside(t: Tables, action: Action, k: nat, who: Requester)
    requires LogOk(t)
    ensures Beside(t, Act(t, action, k, who).0)
  {
    var after := Act(t, action, k, who).0;
    if Check(t, action, k, who).Ok? {
      assert HistoryOk(t, k);
      ActKeepsHistory(t, action, k, who);
      forall o: nat | o < t.next && Breaches(KindsOf(t.log, o)) == 0
        ensures Breaches(KindsOf(after.log, o)) == 0
      {
        KindsPush(t.log, after.log[|t.log|], o);
        if o == k { HistoryPush(KindsOf(t.log, o), Leads(action).0); }
      }
    }
  }

  lemma DeleteIsBeside(t: Tables, gone: nat)
    ensures Beside(t, Delete(t, gone))
  {
    forall k: nat | k < t.next && Breaches(KindsOf(t.log, k)) == 0
      ensures Breaches(KindsOf(Delete(t, gone).log, k)) == 0
    {
      KindsWithout(t.log, gone, k);
    }
  }

  lemma BesideKeepsInv(s: State, after: State)
    requires Inv(s) && LogOk(after.t) && Beside(s.t, after.t)
    requires after.passes == s.passes && after.sweeping == s.sweeping
    ensures Inv(after)
  {
    forall p | 0 <= p < |after.passes|
      ensures PassOk(after.t, after.passes[p])
    {
      PassStaysOk(s.t, after.t, s.passes[p]);
    }
  }

  // ---- the passes' own steps ----------------------------------------------------------------

  /** The only pass, p, moves to a stage that is in order. */
  lemma StageKeepsInv(s: State, p: nat, stage: Stage, after: State)
    requires Inv(s) && p < |s.passes| && after.passes == s.passes[p := s.passes[p].(stage := stage)]
    requires after.sweeping == s.sweeping && LogOk(after.t) && PassOk(after.t, s.passes[p].(stage := stage))
    ensures Inv(after)
  {
  }

  lemma ReadKeepsInv(s: State, p: nat, batch: seq<nat>)
    requires Inv(s) && Apply(s, Read(p, batch)).Some?
    ensures Inv(Apply(s, Read(p, batch)).value)
  {
    var stage := Marking(batch, 0);
    var pass := s.passes[p].(stage := stage);
    forall k: nat | Pending(pass, k)
      ensures k < s.t.next && Breaches(KindsOf(s.t.log, k)) == 0
    {
      assert k in OverdueIn(s.t, s.passes[p].now);
      assert HistoryOk(s.t, k);
    }
    StageKeepsInv(s, p, stage, Staged(s, p, stage));
  }

  lemma SkipOk(t: Tables, pass: Pass, batch: seq<nat>, i: nat)
    requires PassOk(t, pass) && i < |batch| && (pass.stage == Marking(batch, i) || pass.stage == Logging(batch, i))
    ensures PassOk(t, pass.(stage := Marking(batch, i + 1)))
  {
    var next := pass.(stage := Marking(batch, i + 1));
    forall k: nat | Pending(next, k)
      ensures Pending(pass, k)
    {
    }
  }

  lemma MarkKeepsInv(s: State, p: nat, ok: bool)
    requires Inv(s) && Apply(s, Mark(p, ok)).Some?
    ensures Inv(Apply(s, Mark(p, ok)).value)
  {
    var after, pass := Apply(s, Mark(p, ok)).value, s.passes[p];
    var batch, i := pass.stage.batch, pass.stage.i;
    if i < |batch| {
      if ok {
        MarkKeepsLog(s.t, batch[i], s.now);
        var next := pass.(stage := Logging(batch, i));
        forall k: nat | Pending(next, k)
          ensures Pending(pass, k)
        {
        }
        StageKeepsInv(s, p, Logging(batch, i), after);
      } else {
        SkipOk(s.t, pass, batch, i);
        StageKeepsInv(s, p, Marking(batch, i + 1), after);
      }
    }
  }

  lemma LoggedOk(t: Tables, pass: Pass)
    requires PassOk(t, pass) && pass.stage.Logging?
    ensures var batch, i := pass.stage.batch, pass.stage.i;
            PassOk(Logged(t, batch[i], SlaBreached, None), pass.(stage := Marking(batch, i + 1)))
  {
    var batch, i := pass.stage.batch, pass.stage.i;
    var next, after := pass.(stage := Marking(batch, i + 1)), Logged(t, batch[i], SlaBreached, None);
    forall k: nat | Pending(next, k)
      ensures k < after.next && Breaches(KindsOf(after.log, k)) == 0
    {
      var m :| i + 1 <= m < |batch| && batch[m] == k;
      assert Pending(pass, k);
      KindsPush(t.log, Entry(batch[i], SlaBreached, None), k);
    }
  }

  lemma LogKeepsInv(s: State, p: nat, ok: bool)
    requires Inv(s) && Apply(s, Log(p, ok)).Some?
    ensures Inv(Apply(s, Log(p, ok)).value)
  {
    var after, pass := Apply(s, Log(p, ok)).value, s.passes[p];
    var batch, i := pass.stage.batch, pass.stage.i;
    if ok && batch[i] in s.t.tickets {
      assert Pending(pass, batch[i]);
      BreachKeepsLog(s.t, batch[i]);
      LoggedOk(s.t, pass);
    } else {
      SkipOk(s.t, pass, batch, i);
    }
    StageKeepsInv(s, p, Marking(batch, i + 1), after);
  }

  lemma ApplyKeepsInv(s: State, e: Event)
    requires Inv(s) && Apply(s, e).Some?
    ensures Inv(Apply(s, e).value)
  {
    var after := Apply(s, e).value;
    match e {
      case NewTicket(user, org) =>
        CreateKeepsLog(s.t, user, org, s.now);
        CreateIsBeside(s.t, user, org, s.now);
        BesideKeepsInv(s, after);
      case Handle(action, k, who) =>
        ActKeepsLog(s.t, action, k, who);
        ActIsBeside(s.t, action, k, who);
        BesideKeepsInv(s, after);
      case Remove(k) =>
        DeleteKeepsLog(s.t, k);
        DeleteIsBeside(s.t, k);
        BesideKeepsInv(s, after);
      case Pause(_) =>
        BesideKeepsInv(s, after);
      case Tick =>
      case Read(p, batch) => ReadKeepsInv(s, p, batch);
      case ReadFails(_) =>
      case Mark(p, ok) => MarkKeepsInv(s, p, ok);
      case Log(p, ok) => LogKeepsInv(s, p, ok);
    }
  }

  lemma InitialInv(now: int)
    ensures Inv(Initial(now))
  {
    assert forall k: nat :: HistoryOk(Initial(now).t, k);
  }

  /** Passes carry clock readings that are not ahead of the clock. */
  ghost predicate ClockOk(s: State) { forall p :: 0 <= p < |s.passes| ==> s.passes[p].now <= s.now }

  lemma {:induction false} EveryRunKeepsInv(now: int, events: seq<Event>)
    requires Run(Initial(now), events).Some?
    ensures Inv(Run(Initial(now), events).value) && ClockOk(Run(Initial(now), events).value)
  {
    InitialInv(now);
    if events != [] {
      EveryRunKeepsInv(now, events[..|events| - 1]);
      ApplyKeepsInv(Run(Initial(now), events[..|events| - 1]).value, events[|events| - 1]);
    }
  }

  /**
    In every run at most one sweep is under way, a ticket has at most one breach event, and its status
    events are a path of allowed changes that ends at its status.
  */
  lemma EveryRunIsOrderly(now: int, events: seq<Event>, k: nat)
    requires Run(Initial(now), events).Some?
    ensures var s := Run(Initial(now), events).value;
            && |s.passes| <= 1 && Breaches(KindsOf(s.t.log, k)) <= 1
            && (k in s.t.tickets ==> Walk(KindsOf(s.t.log, k)) == At(s.t.tickets[k].status))
            && (k in s.t.tickets && Breaches(KindsOf(s.t.log, k)) == 1 ==> s.t.tickets[k].breached)
  {
    EveryRunKeepsInv(now, events);
    assert HistoryOk(Run(Initial(now), events).value.t, k);
  }

  // ---- a breach was read ---------------------------------------------------------------------

  /** Each pass under way was there before, with the batch it has. */
  ghost predicate BatchesFrom(passes: seq<Pass>, after: seq<Pass>) {
    forall q :: 0 <= q < |after| && !after[q].stage.Reading? ==> HasBatch(passes, after[q].stage.batch)
  }

  ghost predicate HasBatch(passes: seq<Pass>, batch: seq<nat>) {
    exists p :: 0 <= p < |passes| && !passes[p].stage.Reading? && passes[p].stage.batch == batch
  }

  lemma SameBatches(passes: seq<Pass>, more: seq<Pass>)
    requires forall q :: 0 <= q < |more| ==> more[q].stage.Reading?
    ensures BatchesFrom(passes, passes + more)
  {
    var after := passes + more;
    forall q | 0 <= q < |after| && !after[q].stage.Reading?
      ensures HasBatch(passes, after[q].stage.batch)
    {
      assert q < |passes| && passes[q] == after[q];
    }
  }

  lemma OnlyPassKeepsBatch(passes: seq<Pass>, after: seq<Pass>)
    requires |passes| == 1 && |after| <= 1 && !passes[0].stage.Reading?
    requires after != [] ==> !after[0].stage.Reading? && after[0].stage.batch == passes[0].stage.batch
    ensures BatchesFrom(passes, after)
  {
    assert HasBatch(passes, passes[0].stage.batch);
  }

  /** Only a read gives a pass a batch. */
  lemma SamePasses(s: State, e: Event)
    requires Inv(s) && Apply(s, e).Some? && !e.Read?
    ensures BatchesFrom(s.passes, Apply(s, e).value.passes)
  {
    var after := Apply(s, e).value.passes;
    SameBatches(s.passes, []);
    assert s.passes + [] == s.passes;
    match e {
      case Mark(p, ok) => OnlyPassKeepsBatch(s.passes, after);
      case Log(p, ok) => OnlyPassKeepsBatch(s.passes, after);
      case Tick => SameBatches(s.passes, [Pass(s.now, Reading)]);
      case ReadFails(p) => assert after == [];
      case _ =>
    }
  }

  lemma OtherEvent(t: Tables, o: nat, kind: Kind, actor: Option<Text>, k: nat)
    requires kind != SlaBreached
    ensures Breaches(KindsOf(Logged(t, o, kind, actor).log, k)) == Breaches(KindsOf(t.log, k))
  {
    KindsPush(t.log, Entry(o, kind, actor), k);
    HistoryPush(KindsOf(t.log, k), kind);
  }

  lemma ActAddsNoBreach(t: Tables, action: Action, o: nat, who: Requester, k: nat)
    ensures Breaches(KindsOf(Act(t, action, o, who).0.log, k)) == Breaches(KindsOf(t.log, k))
  {
    match Check(t, action, o, who) {
      case Ok(ticket) => OtherEvent(t.(tickets := t.tickets[o := ticket]), o, Leads(action).0, Some(who.id), k);
      case Err(_) =>
    }
  }

  lemma HandlersAddNoBreach(s: State, e: Event, k: nat)
    requires Apply(s, e).Some? && !e.Log?
    ensures Breaches(KindsOf(Apply(s, e).value.t.log, k)) > 0 ==> Breaches(KindsOf(s.t.log, k)) > 0
  {
    match e {
      case NewTicket(user, org) =>
        KindsPush(s.t.log, Entry(s.t.next, WasCreated, Some(user)), k);
        HistoryPush(KindsOf(s.t.log, k), WasCreated);
      case Handle(action, o, who) => ActAddsNoBreach(s.t, action, o, who, k);
      case Remove(o) => KindsWithout(s.t.log, o, k);
      case _ =>
    }
  }

  /**
    Event `n` is a sweep's query that returned ticket `k`, which was then open or in progress, not yet
    breached and past its deadline at the clock reading that sweep carries.
  */
  ghost predicate ReadOverdue(s0: State, events: seq<Event>, n: nat, k: nat) {
    && n < |events| && events[n].Read? && k in events[n].batch && Run(s0, events[..n]).Some?
    && var s, p := Run(s0, events[..n]).value, events[n].pass;
       && p < |s.passes| && k in s.t.tickets
       && var ticket := s.t.tickets[k];
          (ticket.status == Open || ticket.status == InProgress) && !ticket.breached && ticket.deadline < s.passes[p].now
  }

  /** Event `m` logs the breach of ticket `k`, which is the current one of that pass's batch. */
  ghost predicate LogsBreach(s0: State, events: seq<Event>, m: nat, k: nat) {
    && m < |events| && events[m].Log? && events[m].ok && Run(s0, events[..m]).Some?
    && var s, p := Run(s0, events[..m]).value, events[m].pass;
       && p < |s.passes| && s.passes[p].stage.Logging? && s.passes[p].stage.i < |s.passes[p].stage.batch|
       && s.passes[p].stage.batch[s.passes[p].stage.i] == k
  }

  /** Event `n` is the last query among the first `m` events. */
  ghost predicate LastRead(events: seq<Event>, n: nat, m: nat) {
    n < m <= |events| && events[n].Read? && forall j :: n < j < m ==> !events[j].Read?
  }

  lemma BatchCameFrom(s: State, e: Event, batch: seq<nat>)
    requires Inv(s) && Apply(s, e).Some? && !e.Read? && HasBatch(Apply(s, e).value.passes, batch)
    ensures HasBatch(s.passes, batch)
  {
    SamePasses(s, e);
    var after := Apply(s, e).value;
    var q :| 0 <= q < |after.passes| && !after.passes[q].stage.Reading? && after.passes[q].stage.batch == batch;
    assert HasBatch(s.passes, after.passes[q].stage.batch);
  }

  /** The only pass has just read. */
  lemma JustRead(s: State, e: Event, batch: seq<nat>, k: nat)
    requires Inv(s) && e.Read? && Apply(s, e).Some? && HasBatch(Apply(s, e).value.passes, batch) && k in batch
    ensures e.batch == batch && e.pass < |s.passes| && k in s.t.tickets && Overdue(s.t.tickets[k], s.passes[e.pass].now)
  {
    assert k in OverdueIn(s.t, s.passes[e.pass].now);
  }

  lemma ReadStays(s0: State, events: seq<Event>, n: nat, batch: seq<nat>, k: nat)
    requires events != [] && !events[|events| - 1].Read?
    requires ReturnedBy(s0, events[..|events| - 1], n, batch, k)
    ensures ReturnedBy(s0, events, n, batch, k)
  {
    var front := events[..|events| - 1];
    assert front[..n] == events[..n];
    forall j | n < j < |events|
      ensures !events[j].Read?
    {
      if j < |front| { assert !front[j].Read?; }
    }
  }

  /** The last query is event `n`, and it returned `batch` with ticket `k` overdue in it. */
  ghost predicate ReturnedBy(s0: State, events: seq<Event>, n: nat, batch: seq<nat>, k: nat) {
    LastRead(events, n, |events|) && events[n].batch == batch && ReadOverdue(s0, events, n, k)
  }

  /** What a pass still carries is what the last query returned. */
  lemma {:induction false} BatchesWereRead(now: int, events: seq<Event>, batch: seq<nat>, k: nat) returns (n: nat)
    requires Run(Initial(now), events).Some? && HasBatch(Run(Initial(now), events).value.passes, batch) && k in batch
    ensures ReturnedBy(Initial(now), events, n, batch, k)
  {
    assert events != [];
    var front, e := events[..|events| - 1], events[|events| - 1];
    var s := Run(Initial(now), front).value;
    EveryRunKeepsInv(now, front);
    if e.Read? {
      JustRead(s, e, batch, k);
      n := |events| - 1;
    } else {
      BatchCameFrom(s, e, batch);
      n := BatchesWereRead(now, front, batch, k);
      ReadStays(Initial(now), events, n, batch, k);
    }
  }

  lemma LogIsTheCause(s: State, p: nat, ok: bool, k: nat)
    requires Apply(s, Log(p, ok)).Some? && Breaches(KindsOf(s.t.log, k)) == 0
    requires Breaches(KindsOf(Apply(s, Log(p, ok)).value.t.log, k)) > 0
    ensures ok && s.passes[p].stage.batch[s.passes[p].stage.i] == k
  {
    KindsPush(s.t.log, Entry(s.passes[p].stage.batch[s.passes[p].stage.i], SlaBreached, None), k);
  }

  lemma {:induction false} BreachWasLogged(now: int, events: seq<Event>, k: nat) returns (m: nat)
    requires Run(Initial(now), events).Some?
    requires Breaches(KindsOf(Run(Initial(now), events).value.t.log, k)) > 0
    ensures LogsBreach(Initial(now), events, m, k)
  {
    assert events != [];
    var front, e := events[..|events| - 1], events[|events| - 1];
    var before := Run(Initial(now), front).value;
    if Breaches(KindsOf(before.t.log, k)) == 0 {
      if !e.Log? { HandlersAddNoBreach(before, e, k); }
      LogIsTheCause(before, e.pass, e.ok, k);
      m := |events| - 1;
    } else {
      m := BreachWasLogged(now, front, k);
      assert front[..m] == events[..m];
    }
  }

  /**
    In every run, a breach event of a ticket was logged by a sweep working through the batch that the
    last query had returned, and that query found the ticket open or in progress, unbreached and past
    its deadline at the sweep's clock reading.
  */
  lemma BreachedWereOverdue(now: int, events: seq<Event>, k: nat) returns (n: nat, m: nat)
    requires Run(Initial(now), events).Some?
    requires Breaches(KindsOf(Run(Initial(now), events).value.t.log, k)) > 0
    ensures LogsBreach(Initial(now), events, m, k)
    ensures LastRead(events, n, m) && ReadOverdue(Initial(now), events, n, k)
    ensures Run(Initial(now), events[..m]).value.passes[events[m].pass].stage.batch == events[n].batch
  {
    m := BreachWasLogged(now, events, k);
    var front := events[..m];
    var batch := Run(Initial(now), front).value.passes[events[m].pass].stage.batch;
    n := BatchesWereRead(now, front, batch, k);
    assert front[..n] == events[..n];
  }

  // ---- a sweep with nothing beside it -------------------------------------------------------

  lemma {:induction false} EventThen(s: State, e: Event, mid: State, rest: seq<Event>, after: State)
    requires Apply(s, e) == Some(mid) && Run(mid, rest) == Some(after)
    ensures Run(s, [e] + rest) == Some(after)
  {
    if rest == [] {
      assert [e] + rest == [e] && [e][..0] == [];
    } else {
      var n := |rest| - 1;
      assert ([e] + rest)[..n + 1] == [e] + rest[..n];
      EventThen(s, e, mid, rest[..n], Run(mid, rest[..n]).value);
    }
  }

  /** A sweep at ticket `i` of its batch, begun from these tables. */
  function Midway(t: Tables, now: int, batch: seq<nat>, i: nat): State
    requires i <= |batch|
  {
    State(Sweep(t, batch[..i], now), true, [Pass(now, Marking(batch, i))], now)
  }

  lemma OneTicket(t: Tables, now: int, batch: seq<nat>, i: nat) returns (mid: State)
    requires i < |batch|
    ensures Apply(Midway(t, now, batch, i), Mark(0, true)) == Some(mid)
    ensures Apply(mid, Log(0, true)) == Some(Midway(t, now, batch, i + 1))
  {
    var s := Midway(t, now, batch, i);
    var before := Sweep(t, batch[..i], now);
    mid := State(Marked(before, batch[i], now), true, [Pass(now, Logging(batch, i))], now);
    assert Staged(s, 0, Logging(batch, i)).passes == mid.passes;
    assert Staged(mid, 0, Marking(batch, i + 1)).passes == [Pass(now, Marking(batch, i + 1))];
    assert batch[..i + 1][..i] == batch[..i] && batch[..i + 1][i] == batch[i];
    assert Sweep(t, batch[..i + 1], now) == Stamped(before, batch[i], now);
  }

  lemma {:induction false} RestRuns(t: Tables, now: int, batch: seq<nat>, i: nat) returns (events: seq<Event>)
    requires i <= |batch|
    ensures Run(Midway(t, now, batch, i), events) == Some(State(Sweep(t, batch, now), false, [], now))
    decreases |batch| - i
  {
    var s := Midway(t, now, batch, i);
    if i == |batch| {
      assert batch[..i] == batch;
      assert s.passes[..0] + s.passes[1..] == [];
      EventThen(s, Mark(0, true), Ended(s, 0), [], Ended(s, 0));
      events := [Mark(0, true)] + [];
    } else {
      var mid := OneTicket(t, now, batch, i);
      var rest := RestRuns(t, now, batch, i + 1);
      var after := State(Sweep(t, batch, now), false, [], now);
      EventThen(mid, Log(0, true), Midway(t, now, batch, i + 1), rest, after);
      EventThen(s, Mark(0, true), mid, [Log(0, true)] + rest, after);
      events := [Mark(0, true)] + ([Log(0, true)] + rest);
    }
  }

  lemma {:induction false} SweptSoFar(t: Tables, batch: seq<nat>, now: int)
    ensures SweptAll(t, batch, now, Sweep(t, batch, now))
  {
    if batch != [] {
      var n := |batch| - 1;
      SweptSoFar(t, batch[..n], now);
      assert batch == batch[..n] + [batch[n]];
    }
  }

  /**
    A tick when nothing is under way, whose sweep is left alone, marks every ticket of the batch its query
    returned and logs a breach of each, and leaves the next tick free to sweep.
  */
  lemma SweepAlone(s: State, batch: seq<nat>) returns (events: seq<Event>, after: State)
    requires !s.sweeping && s.passes == [] && IsBatch(s.t, s.now, batch)
    ensures Run(s, events) == Some(after) && [Tick, Read(0, batch)] <= events
    ensures !after.sweeping && after.passes == [] && after.now == s.now && SweptAll(s.t, batch, s.now, after.t)
  {
    after := State(Sweep(s.t, batch, s.now), false, [], s.now);
    SweptSoFar(s.t, batch, s.now);
    var rest := RestRuns(s.t, s.now, batch, 0);
    var ticked := s.(sweeping := true, passes := [Pass(s.now, Reading)]);
    assert batch[..0] == [] && Staged(ticked, 0, Marking(batch, 0)).passes == [Pass(s.now, Marking(batch, 0))];
    assert s.passes + [Pass(s.now, Reading)] == [Pass(s.now, Reading)];
    EventThen(ticked, Read(0, batch), Midway(s.t, s.now, batch, 0), rest, after);
    EventThen(s, Tick, ticked, [Read(0, batch)] + rest, after);
    events := [Tick] + ([Read(0, batch)] + rest);
  }
}
