/**
  Support tickets (apiV2/src/tickets/tickets.service.ts): the status handlers and their event log, and
  one SLA sweep on its own (apiV2/src/tickets/ticket-sla-sweep.service.ts). A handler that loads,
  checks and saves is one step.
*/
module Tickets {
  import opened Wrappers
  import opened Bytes
  import opened Search

  datatype Status = Open | InProgress | Resolved | Closed | Cancelled

  datatype Ticket = Ticket(submittedBy: Text, org: Option<Text>, assignedTo: Option<Text>, status: Status,
                           deadline: int, breached: bool, breachedAt: Option<int>)

  datatype Kind = WasCreated | WasAssigned | WasClaimed | WasStarted | WasResolved | WasClosed | WasCancelled | SlaBreached

  datatype Entry = Entry(ticket: nat, kind: Kind, actor: Option<Text>)

  /** Every id given out so far is below `next`. */
  datatype Tables = Tables(tickets: map<nat, Ticket>, log: seq<Entry>, next: nat)

  datatype Role = User | Agent | Admin

  /** `runs` is the organisation the requester owns or administers. */
  datatype Requester = Requester(id: Text, role: Role, runs: Option<Text>)

  datatype Error = NotFound | Forbidden | Conflict | Unprocessable

  const SLA_WINDOW: int := 1500
  const SLA_SWEEP_BATCH: nat := 500

  // ---- the handlers -------------------------------------------------------------------------

  predicate CanView(ticket: Ticket, who: Requester) {
    || who.role == Admin
    || ticket.submittedBy == who.id
    || (if who.role == Agent then ticket.assignedTo.None? || ticket.assignedTo == Some(who.id)
        else who.runs.Some? && who.runs == ticket.org)
  }

  predicate IsAssignedActor(ticket: Ticket, who: Requester) {
    who.role == Admin || (who.role == Agent && ticket.assignedTo == Some(who.id))
  }

  datatype Action = Start | Resolve | Close | Cancel | Claim | Assign(assignee: Text, role: Option<Role>)

  function Leads(action: Action): (Kind, Option<Status>) {
    match action
    case Start => (WasStarted, Some(InProgress))
    case Resolve => (WasResolved, Some(Resolved))
    case Close => (WasClosed, Some(Closed))
    case Cancel => (WasCancelled, Some(Cancelled))
    case Claim => (WasClaimed, None)
    case Assign(_, _) => (WasAssigned, None)
  }

  /** The checks of one handler, in their order. */
  function Check(t: Tables, action: Action, k: nat, who: Requester): Result<Ticket, Error> {
    if k !in t.tickets then Err(NotFound)
    else
      var ticket := t.tickets[k];
      match action
      case Assign(assignee, role) =>
        if role.None? then Err(NotFound)
        else if role != Some(Agent) then Err(Unprocessable)
        else Ok(ticket.(assignedTo := Some(assignee)))
      case Claim => if ticket.assignedTo.Some? then Err(Conflict) else Ok(ticket.(assignedTo := Some(who.id)))
      case Start =>
        if !CanView(ticket, who) then Err(NotFound)
        else if !IsAssignedActor(ticket, who) then Err(Forbidden)
        else if ticket.status != Open then Err(Conflict)
        else Ok(ticket.(status := InProgress))
      case Resolve =>
        if !CanView(ticket, who) then Err(NotFound)
        else if !IsAssignedActor(ticket, who) then Err(Forbidden)
        else if ticket.status != InProgress then Err(Conflict)
        else Ok(ticket.(status := Resolved))
      case Close =>
        if !CanView(ticket, who) then Err(NotFound)
        else if ticket.submittedBy != who.id then Err(Forbidden)
        else if ticket.status != Resolved then Err(Conflict)
        else Ok(ticket.(status := Closed))
      case Cancel =>
        if !CanView(ticket, who) then Err(NotFound)
        else if ticket.submittedBy != who.id then Err(Forbidden)
        else if ticket.status != Open && ticket.status != InProgress then Err(Conflict)
        else Ok(ticket.(status := Cancelled))
  }

  function Logged(t: Tables, k: nat, kind: Kind, actor: Option<Text>): Tables {
    t.(log := t.log + [Entry(k, kind, actor)])
  }

  function Act(t: Tables, action: Action, k: nat, who: Requester): (Tables, Result<Ticket, Error>) {
    match Check(t, action, k, who)
    case Ok(ticket) => (Logged(t.(tickets := t.tickets[k := ticket]), k, Leads(action).0, Some(who.id)), Ok(ticket))
    case Err(error) => (t, Err(error))
  }

  /**
    A handler that succeeds was called by someone entitled to it: work on a ticket is its assignee's or an
    admin's, closing and cancelling its submitter's, and claiming takes only an unassigned ticket.
    It changes that ticket alone, and in it only status or assignee.
  */
  lemma ActIsAuthorised(t: Tables, action: Action, k: nat, who: Requester)
    requires Act(t, action, k, who).1.Ok?
    ensures k in t.tickets
    ensures var before, after := t.tickets[k], Act(t, action, k, who).0;
            && (action.Start? || action.Resolve? ==>
                  who.role == Admin || (who.role == Agent && before.assignedTo == Some(who.id)))
            && (action.Close? || action.Cancel? ==> before.submittedBy == who.id)
            && (action.Claim? ==> before.assignedTo == None && after.tickets[k].assignedTo == Some(who.id))
            && (action.Assign? ==> action.role == Some(Agent) && after.tickets[k].assignedTo == Some(action.assignee))
            && after.tickets == t.tickets[k := before.(status := after.tickets[k].status,
                                                       assignedTo := after.tickets[k].assignedTo)]
            && (action.Claim? || action.Assign? ==> after.tickets[k].status == before.status)
            && (!action.Claim? && !action.Assign? ==> after.tickets[k].assignedTo == before.assignedTo)
            && after.log == t.log + [Entry(k, Leads(action).0, Some(who.id))]
  {
  }

  // ---- what each handler may do -------------------------------------------------------------

  /** Admins see every ticket, submitters their own, agents their own and the unassigned, and an organisation's admins its own. */
  ghost predicate Sees(ticket: Ticket, who: Requester) {
    || who.role == Admin || who.id == ticket.submittedBy
    || (who.role == Agent && (ticket.assignedTo == None || ticket.assignedTo == Some(who.id)))
    || (who.role == User && ticket.org.Some? && who.runs == ticket.org)
  }

  ghost predicate WorksOn(ticket: Ticket, who: Requester) {
    who.role == Admin || (who.role == Agent && ticket.assignedTo == Some(who.id))
  }

  /** A ticket that is seen goes from one of these statuses to `to`, when the requester is entitled to that. */
  ghost predicate MovesOn(before: Tables, k: nat, who: Requester, entitled: bool, from: set<Status>, to: Status, kind: Kind,
                          after: Tables, result: Result<Ticket, Error>)
  {
    if k !in before.tickets || !Sees(before.tickets[k], who) then after == before && result == Err(NotFound)
    else if !entitled then after == before && result == Err(Forbidden)
    else if before.tickets[k].status !in from then after == before && result == Err(Conflict)
    else
      var b := before.tickets[k];
      var moved := Ticket(b.submittedBy, b.org, b.assignedTo, to, b.deadline, b.breached, b.breachedAt);
      && result == Ok(moved)
      && after == Tables(before.tickets[k := moved], before.log + [Entry(k, kind, Some(who.id))], before.next)
  }

  /** A ticket gets an assignee, unless it is refused. */
  ghost predicate Hands(before: Tables, k: nat, who: Requester, assignee: Text, refused: Option<Error>, kind: Kind,
                        after: Tables, result: Result<Ticket, Error>)
  {
    if k !in before.tickets then after == before && result == Err(NotFound)
    else if refused.Some? then after == before && result == Err(refused.value)
    else
      var b := before.tickets[k];
      var handed := Ticket(b.submittedBy, b.org, Some(assignee), b.status, b.deadline, b.breached, b.breachedAt);
      && result == Ok(handed)
      && after == Tables(before.tickets[k := handed], before.log + [Entry(k, kind, Some(who.id))], before.next)
  }

  function Create(t: Tables, user: Text, org: Option<Text>, now: int): Tables {
    var ticket := Ticket(user, org, None, Open, now + SLA_WINDOW, false, None);
    Logged(t.(tickets := t.tickets[t.next := ticket], next := t.next + 1), t.next, WasCreated, Some(user))
  }

  /** Deleting a ticket takes its events with it. */
  function Delete(t: Tables, k: nat): Tables { t.(tickets := t.tickets - {k}, log := WithoutTicket(t.log, k)) }

  function WithoutTicket(log: seq<Entry>, k: nat): seq<Entry> {
    if log == [] then []
    else WithoutTicket(log[..|log| - 1], k) + (if log[|log| - 1].ticket == k then [] else [log[|log| - 1]])
  }

  lemma {:induction false} WithoutIsRest(log: seq<Entry>, k: nat)
    ensures forall i :: 0 <= i < |WithoutTicket(log, k)| ==> WithoutTicket(log, k)[i].ticket != k
    ensures multiset(WithoutTicket(log, k)) <= multiset(log)
    ensures forall e: Entry :: e.ticket != k ==> multiset(WithoutTicket(log, k))[e] == multiset(log)[e]
  {
    if log != [] {
      var n := |log| - 1;
      WithoutIsRest(log[..n], k);
      assert log == log[..n] + [log[n]];
    }
  }

  /** A deletion takes the ticket and its events, and leaves every other ticket and every other event. */
  lemma DeleteTakesEvents(t: Tables, k: nat)
    ensures var after := Delete(t, k);
            && k !in after.tickets && after.tickets.Keys == t.tickets.Keys - {k} && after.next == t.next
            && (forall o :: o in after.tickets ==> after.tickets[o] == t.tickets[o])
            && (forall e: Entry :: multiset(after.log)[e] == if e.ticket == k then 0 else multiset(t.log)[e])
            && forall o: nat :: KindsOf(after.log, o) == if o == k then [] else KindsOf(t.log, o)
  {
    WithoutIsRest(t.log, k);
    forall o: nat ensures KindsOf(Delete(t, k).log, o) == if o == k then [] else KindsOf(t.log, o) { KindsWithout(t.log, k, o); }
    forall e: Entry ensures multiset(Delete(t, k).log)[e] == if e.ticket == k then 0 else multiset(t.log)[e] {
      if e.ticket == k { assert e !in Delete(t, k).log; }
    }
  }

  // ---- the history of a ticket --------------------------------------------------------------

  function KindsOf(log: seq<Entry>, k: nat): seq<Kind> {
    if log == [] then []
    else KindsOf(log[..|log| - 1], k) + (if log[|log| - 1].ticket == k then [log[|log| - 1].kind] else [])
  }

  lemma KindsPush(log: seq<Entry>, entry: Entry, k: nat)
    ensures KindsOf(log + [entry], k) == if entry.ticket == k then KindsOf(log, k) + [entry.kind] else KindsOf(log, k)
  {
    assert (log + [entry])[..|log|] == log;
  }

  lemma {:induction false} KindsWithout(log: seq<Entry>, gone: nat, k: nat)
    ensures KindsOf(WithoutTicket(log, gone), k) == if k == gone then [] else KindsOf(log, k)
  {
    if log != [] {
      var n := |log| - 1;
      KindsWithout(log[..n], gone, k);
      if log[n].ticket == gone {
        assert WithoutTicket(log, gone) == WithoutTicket(log[..n], gone);
      } else {
        KindsPush(WithoutTicket(log[..n], gone), log[n], k);
      }
    }
  }

  datatype Trace = Nothing | At(status: Status) | Broken

  /** Where one more event takes a ticket: each status event has the statuses it may follow. */
  function After(trace: Trace, kind: Kind): Trace {
    match kind
    case WasCreated => if trace == Nothing then At(Open) else Broken
    case WasStarted => if trace == At(Open) then At(InProgress) else Broken
    case WasResolved => if trace == At(InProgress) then At(Resolved) else Broken
    case WasClosed => if trace == At(Resolved) then At(Closed) else Broken
    case WasCancelled => if trace == At(Open) || trace == At(InProgress) then At(Cancelled) else Broken
    case _ => if trace.At? then trace else Broken
  }

  function Walk(kinds: seq<Kind>): Trace {
    if kinds == [] then Nothing else After(Walk(kinds[..|kinds| - 1]), kinds[|kinds| - 1])
  }

  function Breaches(kinds: seq<Kind>): nat {
    if kinds == [] then 0
    else Breaches(kinds[..|kinds| - 1]) + (if kinds[|kinds| - 1] == SlaBreached then 1 else 0)
  }

  lemma HistoryPush(kinds: seq<Kind>, kind: Kind)
    ensures Walk(kinds + [kind]) == After(Walk(kinds), kind)
    ensures Breaches(kinds + [kind]) == Breaches(kinds) + (if kind == SlaBreached then 1 else 0)
  {
    assert (kinds + [kind])[..|kinds|] == kinds;
  }

  // ---- the sweep ----------------------------------------------------------------------------

  predicate Overdue(ticket: Ticket, now: int) {
    (ticket.status == Open || ticket.status == InProgress) && !ticket.breached && ticket.deadline < now
  }

  function OverdueIn(t: Tables, now: int): set<nat> { set k | k in t.tickets && Overdue(t.tickets[k], now) }

  function Smaller(a: nat, b: nat): nat { if a < b then a else b }

  /** What the query returns: the overdue tickets, oldest deadline first, at most a batch of them. */
  ghost predicate IsBatch(t: Tables, now: int, batch: seq<nat>) {
    && (forall i :: 0 <= i < |batch| ==> batch[i] in OverdueIn(t, now))
    && Distinct(batch)
    && (forall i, j :: 0 <= i < j < |batch| ==> t.tickets[batch[i]].deadline <= t.tickets[batch[j]].deadline)
    && |batch| == Smaller(SLA_SWEEP_BATCH, |OverdueIn(t, now)|)
    && forall i, k :: 0 <= i < |batch| && k in OverdueIn(t, now) && k !in batch
         ==> t.tickets[batch[i]].deadline <= t.tickets[k].deadline
  }

  function Marked(t: Tables, k: nat, now: int): Tables {
    if k in t.tickets then t.(tickets := t.tickets[k := t.tickets[k].(breached := true, breachedAt := Some(now))]) else t
  }

  /** One pass of the sweep's loop: an event for a ticket that is gone violates its foreign key and is skipped. */
  function Stamped(t: Tables, k: nat, now: int): Tables {
    if k in t.tickets then Logged(Marked(t, k, now), k, SlaBreached, None) else t
  }

  /** A sweep with nothing beside it. */
  function Sweep(t: Tables, batch: seq<nat>, now: int): Tables {
    if batch == [] then t else Stamped(Sweep(t, batch[..|batch| - 1], now), batch[|batch| - 1], now)
  }

  /** The tickets of the batch that are there, in its order. */
  function Present(batch: seq<nat>, tickets: set<nat>): seq<nat> {
    if batch == [] then []
    else Present(batch[..|batch| - 1], tickets) + (if batch[|batch| - 1] in tickets then [batch[|batch| - 1]] else [])
  }

  /** The tickets of the batch that are there are marked, each gets a breach event, and nothing else changes. */
  ghost predicate SweptAll(before: Tables, overdue: seq<nat>, now: int, after: Tables) {
    && after.next == before.next && after.tickets.Keys == before.tickets.Keys
    && (forall k :: k in after.tickets ==>
          after.tickets[k] == if k in overdue then before.tickets[k].(breached := true, breachedAt := Some(now)) else before.tickets[k])
    && var present := Present(overdue, before.tickets.Keys);
       after.log == before.log + seq(|present|, i requires 0 <= i < |present| => Entry(present[i], SlaBreached, None))
  }

  class TicketSlaSweepService {
    var tickets: map<nat, Ticket>
    var log: seq<Entry>
    const next: nat
    var sweeping: bool

    constructor (t: Tables)
      ensures Rows() == t && !sweeping
    {
      tickets, log, next := t.tickets, t.log, t.next;
      sweeping := false;
    }

    function Rows(): Tables
      reads this
    {
      Tables(tickets, log, next)
    }

    /** `overdue` is the query's result. */
    method RunSweep(overdue: seq<nat>, now: int)
      modifies this`tickets, this`log
      ensures Rows() == Sweep(old(Rows()), overdue, now)
      ensures SweptAll(old(Rows()), overdue, now, Rows())
    {
      for i := 0 to |overdue|
        invariant Rows() == Sweep(old(Rows()), overdue[..i], now)
        invariant SweptAll(old(Rows()), overdue[..i], now, Rows())
      {
        assert overdue[..i + 1][..i] == overdue[..i];
        assert overdue[..i + 1] == overdue[..i] + [overdue[i]];
        var k := overdue[i];
        if k in tickets {
          tickets := tickets[k := tickets[k].(breached := true, breachedAt := Some(now))];
          log := log + [Entry(k, SlaBreached, None)];
        }
      }
      assert overdue[..|overdue|] == overdue;
    }

    /** A timer tick: nothing happens while a sweep is under way. */
    method OnTick(overdue: seq<nat>, now: int)
      modifies this
      ensures if old(sweeping) then Rows() == old(Rows()) && sweeping
              else Rows() == Sweep(old(Rows()), overdue, now) && SweptAll(old(Rows()), overdue, now, Rows()) && !sweeping
    {
      if sweeping { return; }
      sweeping := true;
      RunSweep(overdue, now);
      sweeping := false;
    }
  }

  class TicketsService {
    var tickets: map<nat, Ticket>
    var log: seq<Entry>
    var next: nat

    constructor ()
      ensures Rows() == Tables(map[], [], 0)
    {
      tickets, log, next := map[], [], 0;
    }

    function Rows(): Tables
      reads this
    {
      Tables(tickets, log, next)
    }

    method LogEvent(k: nat, kind: Kind, actor: Option<Text>)
      modifies this`log
      ensures Rows() == Logged(old(Rows()), k, kind, actor)
      ensures log == old(log) + [Entry(k, kind, actor)]
    {
      log := log + [Entry(k, kind, actor)];
    }

    method CreateTicket(user: Text, org: Option<Text>, now: int) returns (k: nat)
      modifies this
      ensures k == old(next) && Rows() == Create(old(Rows()), user, org, now)
      ensures tickets == old(tickets)[k := Ticket(user, org, None, Open, now + 1500, false, None)]
      ensures log == old(log) + [Entry(k, WasCreated, Some(user))] && next == old(next) + 1
    {
      k := next;
      tickets := tickets[k := Ticket(user, org, None, Open, now + SLA_WINDOW, false, None)];
      next := next + 1;
      LogEvent(k, WasCreated, Some(user));
    }

    method ClaimTicket(k: nat, who: Requester) returns (result: Result<Ticket, Error>)
      modifies this`tickets, this`log
      ensures (Rows(), result) == Act(old(Rows()), Claim, k, who)
      ensures Hands(old(Rows()), k, who, who.id,
                    if k in old(tickets) && old(tickets)[k].assignedTo != None then Some(Conflict) else None, WasClaimed, Rows(), result)
    {
      if k !in tickets { return Err(NotFound); }
      var ticket := tickets[k];
      if ticket.assignedTo.Some? { return Err(Conflict); }
      ticket := ticket.(assignedTo := Some(who.id));
      tickets := tickets[k := ticket];
      LogEvent(k, WasClaimed, Some(who.id));
      result := Ok(ticket);
    }

    /** `role` is the assignee's, when there is such a user. */
    method AssignTicket(k: nat, assignee: Text, role: Option<Role>, who: Requester) returns (result: Result<Ticket, Error>)
      modifies this`tickets, this`log
      ensures (Rows(), result) == Act(old(Rows()), Assign(assignee, role), k, who)
      ensures Hands(old(Rows()), k, who, assignee,
                    if role == None then Some(NotFound) else if role != Some(Agent) then Some(Unprocessable) else None,
                    WasAssigned, Rows(), result)
    {
      if k !in tickets { return Err(NotFound); }
      var ticket := tickets[k];
      if role.None? { return Err(NotFound); }
      if role != Some(Agent) { return Err(Unprocessable); }
      ticket := ticket.(assignedTo := Some(assignee));
      tickets := tickets[k := ticket];
      LogEvent(k, WasAssigned, Some(who.id));
      result := Ok(ticket);
    }

    method StartTicket(k: nat, who: Requester) returns (result: Result<Ticket, Error>)
      modifies this`tickets, this`log
      ensures (Rows(), result) == Act(old(Rows()), Start, k, who)
      ensures MovesOn(old(Rows()), k, who, k in old(tickets) && WorksOn(old(tickets)[k], who), {Open}, InProgress, WasStarted,
                      Rows(), result)
    {
      if k !in tickets || !CanView(tickets[k], who) { return Err(NotFound); }
      var ticket := tickets[k];
      if !IsAssignedActor(ticket, who) { return Err(Forbidden); }
      if ticket.status != Open { return Err(Conflict); }
      ticket := ticket.(status := InProgress);
      tickets := tickets[k := ticket];
      LogEvent(k, WasStarted, Some(who.id));
      result := Ok(ticket);
    }

    method ResolveTicket(k: nat, who: Requester) returns (result: Result<Ticket, Error>)
      modifies this`tickets, this`log
      ensures (Rows(), result) == Act(old(Rows()), Resolve, k, who)
      ensures MovesOn(old(Rows()), k, who, k in old(tickets) && WorksOn(old(tickets)[k], who), {InProgress}, Resolved, WasResolved,
                      Rows(), result)
    {
      if k !in tickets || !CanView(tickets[k], who) { return Err(NotFound); }
      var ticket := tickets[k];
      if !IsAssignedActor(ticket, who) { return Err(Forbidden); }
      if ticket.status != InProgress { return Err(Conflict); }
      ticket := ticket.(status := Resolved);
      tickets := tickets[k := ticket];
      LogEvent(k, WasResolved, Some(who.id));
      result := Ok(ticket);
    }

    method CloseTicket(k: nat, who: Requester) returns (result: Result<Ticket, Error>)
      modifies this`tickets, this`log
      ensures (Rows(), result) == Act(old(Rows()), Close, k, who)
      ensures MovesOn(old(Rows()), k, who, k in old(tickets) && old(tickets)[k].submittedBy == who.id, {Resolved}, Closed, WasClosed,
                      Rows(), result)
    {
      if k !in tickets || !CanView(tickets[k], who) { return Err(NotFound); }
      var ticket := tickets[k];
      if ticket.submittedBy != who.id { return Err(Forbidden); }
      if ticket.status != Resolved { return Err(Conflict); }
      ticket := ticket.(status := Closed);
      tickets := tickets[k := ticket];
      LogEvent(k, WasClosed, Some(who.id));
      result := Ok(ticket);
    }

    method CancelTicket(k: nat, who: Requester) returns (result: Result<Ticket, Error>)
      modifies this`tickets, this`log
      ensures (Rows(), result) == Act(old(Rows()), Cancel, k, who)
      ensures MovesOn(old(Rows()), k, who, k in old(tickets) && old(tickets)[k].submittedBy == who.id, {Open, InProgress}, Cancelled, WasCancelled,
                      Rows(), result)
    {
      if k !in tickets || !CanView(tickets[k], who) { return Err(NotFound); }
      var ticket := tickets[k];
      if ticket.submittedBy != who.id { return Err(Forbidden); }
      if ticket.status != Open && ticket.status != InProgress { return Err(Conflict); }
      ticket := ticket.(status := Cancelled);
      tickets := tickets[k := ticket];
      LogEvent(k, WasCancelled, Some(who.id));
      result := Ok(ticket);
    }
  }

  // ---- a backlog drains ---------------------------------------------------------------------

  ghost function Members(s: seq<nat>): set<nat> { set k | k in s }

  lemma {:induction false} DistinctSize(s: seq<nat>)
    requires Distinct(s)
    ensures |Members(s)| == |s|
  {
    if s != [] {
      var n := |s| - 1;
      DistinctSize(s[..n]);
      assert Members(s) == Members(s[..n]) + {s[n]};
    }
  }

  lemma {:induction false} SweepTickets(t: Tables, batch: seq<nat>, now: int)
    requires Members(batch) <= t.tickets.Keys
    ensures var after := Sweep(t, batch, now);
            && after.tickets.Keys == t.tickets.Keys && after.next == t.next
            && forall k :: k in t.tickets ==>
                 after.tickets[k] == if k in batch then t.tickets[k].(breached := true, breachedAt := Some(now)) else t.tickets[k]
  {
    if batch != [] {
      var n := |batch| - 1;
      assert forall k :: k in batch[..n] ==> k in Members(batch);
      assert batch[n] in Members(batch);
      SweepTickets(t, batch[..n], now);
      assert batch == batch[..n] + [batch[n]];
    }
  }

  /**
    A sweep clears exactly its batch: tickets that were open or in progress, unbreached and past their
    deadline, and no other such ticket unless 500 were taken.
  */
  lemma SweepClearsBatch(t: Tables, batch: seq<nat>, now: int)
    requires IsBatch(t, now, batch)
    ensures var after := Sweep(t, batch, now);
            && OverdueIn(after, now) == OverdueIn(t, now) - Members(batch)
            && |OverdueIn(after, now)| == |OverdueIn(t, now)| - Smaller(SLA_SWEEP_BATCH, |OverdueIn(t, now)|)
            && |batch| <= 500 && (|batch| == 500 || OverdueIn(after, now) == {})
            && (forall k :: k in batch <==>
                  && k in t.tickets && (t.tickets[k].status == Open || t.tickets[k].status == InProgress)
                  && !t.tickets[k].breached && t.tickets[k].deadline < now && k !in OverdueIn(after, now))
            && after.tickets.Keys == t.tickets.Keys
            && forall k :: k in t.tickets ==> after.tickets[k].deadline == t.tickets[k].deadline
  {
    SweepTickets(t, batch, now);
    var after := Sweep(t, batch, now);
    assert OverdueIn(after, now) == OverdueIn(t, now) - Members(batch);
    DistinctSize(batch);
    assert Members(batch) <= OverdueIn(t, now);
    forall k ensures k in batch <==> k in OverdueIn(t, now) && k !in OverdueIn(after, now) {
      assert k in batch <==> k in Members(batch);
    }
  }

  /** One sweep after another, each of a batch its query could return. */
  ghost predicate Batches(t: Tables, now: int, batches: seq<seq<nat>>) {
    batches == []
    || var front := batches[..|batches| - 1];
       Batches(t, now, front) && IsBatch(Sweeps(t, now, front), now, batches[|batches| - 1])
  }

  function Sweeps(t: Tables, now: int, batches: seq<seq<nat>>): Tables {
    if batches == [] then t else Sweep(Sweeps(t, now, batches[..|batches| - 1]), batches[|batches| - 1], now)
  }

  lemma {:induction false} SweepsClear(t: Tables, now: int, batches: seq<seq<nat>>)
    requires Batches(t, now, batches)
    ensures var left, n := |OverdueIn(Sweeps(t, now, batches), now)|, |OverdueIn(t, now)|;
            left == if n <= SLA_SWEEP_BATCH * |batches| then 0 else n - SLA_SWEEP_BATCH * |batches|
    ensures OverdueIn(Sweeps(t, now, batches), now) <= OverdueIn(t, now)
    ensures Sweeps(t, now, batches).tickets.Keys == t.tickets.Keys
    ensures forall k :: k in t.tickets ==> Sweeps(t, now, batches).tickets[k].deadline == t.tickets[k].deadline
  {
    if batches != [] {
      var front := batches[..|batches| - 1];
      SweepsClear(t, now, front);
      SweepClearsBatch(Sweeps(t, now, front), batches[|batches| - 1], now);
    }
  }

  /** A backlog of n is gone after ceil(n / 500) sweeps, and not before. */
  lemma BacklogDrains(t: Tables, now: int, batches: seq<seq<nat>>)
    requires Batches(t, now, batches)
    ensures OverdueIn(Sweeps(t, now, batches), now) == {} <==> 500 * |batches| >= |OverdueIn(t, now)|
  {
    SweepsClear(t, now, batches);
    var left := OverdueIn(Sweeps(t, now, batches), now);
    assert left == {} <==> |left| == 0;
  }

  lemma {:induction false} BatchWasOverdue(t: Tables, now: int, batches: seq<seq<nat>>, i: nat)
    requires Batches(t, now, batches) && i < |batches|
    ensures IsBatch(Sweeps(t, now, batches[..i]), now, batches[i]) && Batches(t, now, batches[..i])
    decreases |batches|
  {
    var n := |batches| - 1;
    if i < n {
      BatchWasOverdue(t, now, batches[..n], i);
      assert batches[..n][..i] == batches[..i];
    }
  }

  /** The oldest deadlines go first: no ticket of an earlier sweep is due later than one of a later sweep. */
  lemma OldestFirst(t: Tables, now: int, batches: seq<seq<nat>>, i: nat, j: nat, x: nat, y: nat)
    requires Batches(t, now, batches) && i < j < |batches| && x in batches[i] && y in batches[j]
    ensures x in t.tickets && y in t.tickets && x != y && t.tickets[x].deadline <= t.tickets[y].deadline
  {
    BatchWasOverdue(t, now, batches, i);
    BatchWasOverdue(t, now, batches, j);
    LeftBehind(t, now, batches[..j], i, y);
    assert batches[..j][i] == batches[i] && batches[..j][..i] == batches[..i];
    SweepsClear(t, now, batches[..i]);
    var before := Sweeps(t, now, batches[..i]);
    var m :| 0 <= m < |batches[i]| && batches[i][m] == x;
    assert y in OverdueIn(before, now) && y !in batches[i];
    assert before.tickets[batches[i][m]].deadline <= before.tickets[y].deadline;
  }

  /** A ticket still overdue after sweep i was overdue before it and not in its batch. */
  lemma LeftBehind(t: Tables, now: int, batches: seq<seq<nat>>, i: nat, y: nat)
    requires Batches(t, now, batches) && i < |batches| && y in OverdueIn(Sweeps(t, now, batches), now)
    ensures y in OverdueIn(Sweeps(t, now, batches[..i]), now) && y !in batches[i]
  {
    BatchWasOverdue(t, now, batches, i);
    StillOverdue(t, now, batches, i + 1, y);
    var mid := batches[..i + 1];
    assert mid[..i] == batches[..i] && mid[i] == batches[i];
    SweepClearsBatch(Sweeps(t, now, batches[..i]), batches[i], now);
    assert y in Members(batches[i]) <==> y in batches[i];
  }

  lemma OverdueBefore(t: Tables, now: int, batches: seq<seq<nat>>, y: nat)
    requires batches != [] && Batches(t, now, batches) && y in OverdueIn(Sweeps(t, now, batches), now)
    ensures y in OverdueIn(Sweeps(t, now, batches[..|batches| - 1]), now)
  {
    var n := |batches| - 1;
    SweepClearsBatch(Sweeps(t, now, batches[..n]), batches[n], now);
  }

  /** What is overdue after more sweeps was overdue after fewer. */
  lemma {:induction false} StillOverdue(t: Tables, now: int, batches: seq<seq<nat>>, i: nat, y: nat)
    requires Batches(t, now, batches) && i <= |batches| && y in OverdueIn(Sweeps(t, now, batches), now)
    ensures y in OverdueIn(Sweeps(t, now, batches[..i]), now)
    decreases |batches|
  {
    if i < |batches| {
      var n := |batches| - 1;
      OverdueBefore(t, now, batches, y);
      StillOverdue(t, now, batches[..n], i, y);
      assert batches[..n][..i] == batches[..i];
    } else {
      assert batches[..i] == batches;
    }
  }
}
