/**
  The life of an order after it is placed: fulfilment and refund jobs with their background
  continuations (apiV2/src/jobs/jobs.service.ts) and return requests
  (apiV2/src/return-requests/return-requests.service.ts). A handler is one step; a continuation is
  one step after each of its delays, and may die at any of them.
*/
module Lifecycle {
  import opened Wrappers
  import opened Bytes

  datatype Status = Pending | Processing | Ready | Fulfilled | Refunded

  datatype Order = Order(user: Text, status: Status)

  datatype JobKind = Fulfilment | Refund

  datatype JobStatus = Queued | Running | Completed

  /** Where the job's continuation stands: what it does after its next delay. */
  datatype Stage = BeforeReady | BeforeFulfilled | BeforeRefunded | Finished | Died

  datatype Job = Job(kind: JobKind, order: nat, status: JobStatus, stage: Stage)

  datatype Decision = Requested | Approved | Rejected

  datatype ReturnRequest = ReturnRequest(order: nat, user: Text, status: Decision, decidedBy: Option<Text>)

  datatype Note = Note(order: nat, before: Status, after: Status)

  datatype Tables = Tables(orders: seq<Order>, jobs: seq<Job>, requests: seq<ReturnRequest>, notes: seq<Note>)

  datatype Error = NotFound | Conflict

  function SetStatus(orders: seq<Order>, o: nat, status: Status): seq<Order>
    requires o < |orders|
  {
    orders[o := orders[o].(status := status)]
  }

  // ---- the handlers -------------------------------------------------------------------------

  /** `startFulfillment` of an order its caller has read as being in status `seen`. */
  function StartFulfilment(t: Tables, o: nat, seen: Status): (Tables, Result<nat, Error>)
    requires o < |t.orders|
  {
    if seen != Pending then (t, Err(Conflict))
    else (t.(orders := SetStatus(t.orders, o, Processing), jobs := t.jobs + [Job(Fulfilment, o, Running, BeforeReady)]),
          Ok(|t.jobs|))
  }

  function Fulfil(t: Tables, o: nat): (Tables, Result<nat, Error>) {
    if o >= |t.orders| then (t, Err(NotFound)) else StartFulfilment(t, o, t.orders[o].status)
  }

  predicate HasRequest(requests: seq<ReturnRequest>, o: nat) {
    exists i :: 0 <= i < |requests| && requests[i].order == o
  }

  function Submit(t: Tables, o: nat, user: Text): (Tables, Result<nat, Error>) {
    if o >= |t.orders| || t.orders[o].user != user then (t, Err(NotFound))
    else if t.orders[o].status != Fulfilled then (t, Err(Conflict))
    else if HasRequest(t.requests, o) then (t, Err(Conflict))
    else (t.(requests := t.requests + [ReturnRequest(o, user, Requested, None)]), Ok(|t.requests|))
  }

  function StartRefund(t: Tables, o: nat): Tables { t.(jobs := t.jobs + [Job(Refund, o, Running, BeforeRefunded)]) }

  function Decide(t: Tables, r: nat, approve: bool, admin: Text): (Tables, Result<Option<nat>, Error>) {
    if r >= |t.requests| then (t, Err(NotFound))
    else if t.requests[r].status != Requested then (t, Err(Conflict))
    else
      var decided := t.requests[r].(status := if approve then Approved else Rejected, decidedBy := Some(admin));
      var t' := t.(requests := t.requests[r := decided]);
      if !approve then (t', Ok(None))
      else if decided.order >= |t.orders| then (t', Err(NotFound))
      else (StartRefund(t', decided.order), Ok(Some(|t.jobs|)))
  }

  // ---- the continuations --------------------------------------------------------------------

  /** What the continuation of job `j` does after its next delay. */
  function Continue(t: Tables, j: nat): Option<Tables> {
    if j >= |t.jobs| || t.jobs[j].order >= |t.orders| then None
    else
      var job := t.jobs[j];
      var o := job.order;
      match job.stage
      case BeforeReady =>
        Some(t.(orders := SetStatus(t.orders, o, Ready), notes := t.notes + [Note(o, Processing, Ready)],
                jobs := t.jobs[j := job.(stage := BeforeFulfilled)]))
      case BeforeFulfilled =>
        Some(t.(orders := SetStatus(t.orders, o, Fulfilled), notes := t.notes + [Note(o, Ready, Fulfilled)],
                jobs := t.jobs[j := job.(stage := Finished, status := Completed)]))
      case BeforeRefunded =>
        Some(t.(orders := SetStatus(t.orders, o, Refunded), notes := t.notes + [Note(o, Fulfilled, Refunded)],
                jobs := t.jobs[j := job.(stage := Finished, status := Completed)]))
      case _ => None
  }

  datatype Event =
    | Place(user: Text)
    | FulfilOrder(order: nat)
    | SubmitReturn(order: nat, user: Text)
    | DecideReturn(request: nat, approve: bool, admin: Text)
    | Delay(job: nat)
    | Die(job: nat)

  function Apply(t: Tables, e: Event): Option<Tables> {
    match e
    case Place(user) => Some(t.(orders := t.orders + [Order(user, Pending)]))
    case FulfilOrder(o) => Some(Fulfil(t, o).0)
    case SubmitReturn(o, user) => Some(Submit(t, o, user).0)
    case DecideReturn(r, approve, admin) => Some(Decide(t, r, approve, admin).0)
    case Delay(j) => Continue(t, j)
    case Die(j) =>
      if j < |t.jobs| && t.jobs[j].stage != Finished then Some(t.(jobs := t.jobs[j := t.jobs[j].(stage := Died)])) else None
  }

  function Run(t: Tables, events: seq<Event>): Option<Tables> {
    if events == [] then Some(t)
    else
      var before :- Run(t, events[..|events| - 1]);
      Apply(before, events[|events| - 1])
  }

  // ---- the services -------------------------------------------------------------------------

  class OrderLifecycle {
    var orders: seq<Order>
    var jobs: seq<Job>
    var requests: seq<ReturnRequest>
    var notes: seq<Note>

    constructor (orders: seq<Order>)
      ensures Rows() == Tables(orders, [], [], [])
    {
      this.orders := orders;
      jobs, requests, notes := [], [], [];
    }

    function Rows(): Tables
      reads this
    {
      Tables(orders, jobs, requests, notes)
    }

    method StartFulfilmentJob(o: nat) returns (result: Result<nat, Error>)
      requires o < |orders|
      modifies this`orders, this`jobs
      ensures (Rows(), result) == StartFulfilment(old(Rows()), o, old(orders)[o].status)
      ensures if old(orders)[o].status == Pending
              then && result == Ok(|old(jobs)|) && jobs == old(jobs) + [Job(Fulfilment, o, Running, BeforeReady)]
                   && orders == old(orders)[o := Order(old(orders)[o].user, Processing)]
              else result == Err(Conflict) && jobs == old(jobs) && orders == old(orders)
    {
      if orders[o].status != Pending { return Err(Conflict); }
      var j := |jobs|;
      jobs := jobs + [Job(Fulfilment, o, Queued, BeforeReady)];
      jobs := jobs[j := jobs[j].(status := Running)];
      orders := orders[o := orders[o].(status := Processing)];
      assert jobs == old(jobs) + [Job(Fulfilment, o, Running, BeforeReady)];
      result := Ok(j);
    }

    /** A continuation after one of its delays. */
    method ContinueJob(j: nat)
      requires j < |jobs| && jobs[j].order < |orders|
      requires jobs[j].stage.BeforeReady? || jobs[j].stage.BeforeFulfilled? || jobs[j].stage.BeforeRefunded?
      modifies this`orders, this`jobs, this`notes
      ensures Continue(old(Rows()), j) == Some(Rows())
      ensures var job := old(jobs)[j]; var user := old(orders)[job.order].user;
              match job.stage
              case BeforeReady =>
                && orders == old(orders)[job.order := Order(user, Ready)]
                && notes == old(notes) + [Note(job.order, Processing, Ready)]
                && jobs == old(jobs)[j := Job(job.kind, job.order, job.status, BeforeFulfilled)]
              case BeforeFulfilled =>
                && orders == old(orders)[job.order := Order(user, Fulfilled)]
                && notes == old(notes) + [Note(job.order, Ready, Fulfilled)]
                && jobs == old(jobs)[j := Job(job.kind, job.order, Completed, Finished)]
              case BeforeRefunded =>
                && orders == old(orders)[job.order := Order(user, Refunded)]
                && notes == old(notes) + [Note(job.order, Fulfilled, Refunded)]
                && jobs == old(jobs)[j := Job(job.kind, job.order, Completed, Finished)]
              case _ => true
    {
      var job := jobs[j];
      match job.stage {
        case BeforeReady =>
          orders := orders[job.order := orders[job.order].(status := Ready)];
          notes := notes + [Note(job.order, Processing, Ready)];
          jobs := jobs[j := job.(stage := BeforeFulfilled)];
        case BeforeFulfilled =>
          orders := orders[job.order := orders[job.order].(status := Fulfilled)];
          notes := notes + [Note(job.order, Ready, Fulfilled)];
          jobs := jobs[j := job.(stage := Finished, status := Completed)];
        case BeforeRefunded =>
          orders := orders[job.order := orders[job.order].(status := Refunded)];
          notes := notes + [Note(job.order, Fulfilled, Refunded)];
          jobs := jobs[j := job.(stage := Finished, status := Completed)];
        case _ =>
      }
    }

    method SubmitRequest(o: nat, user: Text) returns (result: Result<nat, Error>)
      modifies this`requests
      ensures (Rows(), result) == Submit(old(Rows()), o, user)
      ensures result.Ok? <==> && o < |orders| && orders[o].user == user && orders[o].status == Fulfilled
                              && forall i :: 0 <= i < |old(requests)| ==> old(requests)[i].order != o
      ensures if result.Ok? then requests == old(requests) + [ReturnRequest(o, user, Requested, None)]
                                 && result.value == |old(requests)|
              else requests == old(requests) && result.error == (if o < |orders| && orders[o].user == user then Conflict else NotFound)
    {
      if o >= |orders| || orders[o].user != user { return Err(NotFound); }
      if orders[o].status != Fulfilled { return Err(Conflict); }
      if HasRequest(requests, o) { return Err(Conflict); }
      requests := requests + [ReturnRequest(o, user, Requested, None)];
      result := Ok(|requests| - 1);
    }

    method StartRefundJob(o: nat) returns (j: nat)
      modifies this`jobs
      ensures j == |old(jobs)| && Rows() == StartRefund(old(Rows()), o)
      ensures jobs == old(jobs) + [Job(Refund, o, Running, BeforeRefunded)]
    {
      j := |jobs|;
      jobs := jobs + [Job(Refund, o, Queued, BeforeRefunded)];
      jobs := jobs[j := jobs[j].(status := Running)];
      assert jobs == old(jobs) + [Job(Refund, o, Running, BeforeRefunded)];
    }

    method DecideRequest(r: nat, approve: bool, admin: Text) returns (result: Result<Option<nat>, Error>)
      modifies this`requests, this`jobs
      ensures (Rows(), result) == Decide(old(Rows()), r, approve, admin)
      ensures if r < |old(requests)| && old(requests)[r].status == Requested then
                var request := old(requests)[r];
                && requests == old(requests)[r := ReturnRequest(request.order, request.user,
                                                                if approve then Approved else Rejected, Some(admin))]
                && (if !approve then result == Ok(None) && jobs == old(jobs)
                    else if request.order >= |orders| then result == Err(NotFound) && jobs == old(jobs)
                    else && result == Ok(Some(|old(jobs)|))
                         && jobs == old(jobs) + [Job(Refund, request.order, Running, BeforeRefunded)])
              else && requests == old(requests) && jobs == old(jobs)
                   && result == Err(if r < |old(requests)| then Conflict else NotFound)
    {
      if r >= |requests| { return Err(NotFound); }
      var request := requests[r];
      if request.status != Requested { return Err(Conflict); }
      request := request.(status := if approve then Approved else Rejected);
      request := request.(decidedBy := Some(admin));
      requests := requests[r := request];
      if !approve { return Ok(None); }
      if request.order >= |orders| { return Err(NotFound); }
      var j := StartRefundJob(request.order);
      result := Ok(Some(j));
    }
  }

  // ---- what every step keeps ----------------------------------------------------------------

  ghost predicate OrderOk(t: Tables, o: nat)
    requires o < |t.orders|
  {
    && NotesOf(t.notes, o) == Told(o, t.orders[o].status)
    && (t.orders[o].status == Pending ==> forall j :: 0 <= j < |t.jobs| ==> t.jobs[j].order != o)
    && (t.orders[o].status == Refunded ==> IsApproved(t, o))
  }

  ghost predicate IsApproved(t: Tables, o: nat) {
    exists r :: 0 <= r < |t.requests| && t.requests[r].order == o && t.requests[r].status == Approved
  }

  ghost predicate JobOk(t: Tables, j: nat)
    requires j < |t.jobs|
  {
    var job := t.jobs[j];
    && job.order < |t.orders|
    && var status := t.orders[job.order].status;
       match job.kind
       case Fulfilment =>
         && !job.stage.BeforeRefunded?
         && (job.stage == BeforeReady ==> status == Processing)
         && (job.stage == BeforeFulfilled ==> status == Ready)
         && (job.stage == Finished ==> status == Fulfilled || status == Refunded)
       case Refund =>
         && !job.stage.BeforeReady? && !job.stage.BeforeFulfilled?
         && IsApproved(t, job.order)
         && (job.stage == BeforeRefunded ==> status == Fulfilled)
         && (job.stage == Finished ==> status == Refunded)
  }

  ghost predicate RequestOk(t: Tables, r: nat)
    requires r < |t.requests|
  {
    var request := t.requests[r];
    && request.order < |t.orders| && request.user == t.orders[request.order].user
    && (t.orders[request.order].status == Fulfilled || t.orders[request.order].status == Refunded)
    && (request.status != Approved ==>
          forall j :: 0 <= j < |t.jobs| && t.jobs[j].kind == Refund ==> t.jobs[j].order != request.order)
    && (request.status == Requested <==> request.decidedBy.None?)
  }

  ghost predicate Single(t: Tables) {
    && (forall i, j :: 0 <= i < j < |t.jobs| && t.jobs[i].kind == t.jobs[j].kind ==> t.jobs[i].order != t.jobs[j].order)
    && (forall i, j :: 0 <= i < j < |t.requests| ==> t.requests[i].order != t.requests[j].order)
  }

  ghost predicate Inv(t: Tables) {
    && (forall o :: 0 <= o < |t.orders| ==> OrderOk(t, o))
    && (forall j :: 0 <= j < |t.jobs| ==> JobOk(t, j))
    && (forall r :: 0 <= r < |t.requests| ==> RequestOk(t, r))
    && Single(t)
    && forall n :: 0 <= n < |t.notes| ==> t.notes[n].order < |t.orders|
  }

  /** The order's notifications, oldest first. */
  function NotesOf(notes: seq<Note>, o: nat): seq<Note> {
    if notes == [] then []
    else NotesOf(notes[..|notes| - 1], o) + (if notes[|notes| - 1].order == o then [notes[|notes| - 1]] else [])
  }

  /** What the owner has been told by the time the order is in this status. */
  function Told(o: nat, status: Status): seq<Note> {
    match status
    case Pending => []
    case Processing => []
    case Ready => [Note(o, Processing, Ready)]
    case Fulfilled => [Note(o, Processing, Ready), Note(o, Ready, Fulfilled)]
    case Refunded => [Note(o, Processing, Ready), Note(o, Ready, Fulfilled), Note(o, Fulfilled, Refunded)]
  }

  lemma NotesPush(notes: seq<Note>, note: Note, o: nat)
    ensures NotesOf(notes + [note], o) == NotesOf(notes, o) + (if note.order == o then [note] else [])
  {
    assert (notes + [note])[..|notes|] == notes;
  }

  lemma NotesOfNone(notes: seq<Note>, o: nat)
    requires forall n :: 0 <= n < |notes| ==> notes[n].order != o
    ensures NotesOf(notes, o) == []
  {
    if notes != [] { NotesOfNone(notes[..|notes| - 1], o); }
  }

  lemma PlaceKeeps(t: Tables, user: Text)
    requires Inv(t)
    ensures Inv(Apply(t, Place(user)).value)
  {
    var after := Apply(t, Place(user)).value;
    forall o | 0 <= o < |after.orders|
      ensures OrderOk(after, o)
    {
      if o < |t.orders| {
        assert OrderOk(t, o);
      } else {
        NotesOfNone(t.notes, o);
        assert forall j :: 0 <= j < |t.jobs| ==> JobOk(t, j) && t.jobs[j].order < |t.orders|;
      }
    }
    forall j | 0 <= j < |after.jobs|
      ensures JobOk(after, j)
    {
      assert JobOk(t, j);
    }
    forall r | 0 <= r < |after.requests|
      ensures RequestOk(after, r)
    {
      assert RequestOk(t, r);
    }
  }

  lemma FulfilKeeps(t: Tables, o: nat)
    requires Inv(t)
    ensures Inv(Fulfil(t, o).0)
  {
    if o < |t.orders| && t.orders[o].status == Pending {
      var after := Fulfil(t, o).0;
      assert OrderOk(t, o);
      forall i | 0 <= i < |after.orders|
        ensures OrderOk(after, i)
      {
        assert OrderOk(t, i);
      }
      forall j | 0 <= j < |after.jobs|
        ensures JobOk(after, j)
      {
        if j < |t.jobs| { assert JobOk(t, j); }
      }
      forall r | 0 <= r < |after.requests|
        ensures RequestOk(after, r)
      {
        assert RequestOk(t, r);
      }
    }
  }

  lemma SubmitKeeps(t: Tables, o: nat, user: Text)
    requires Inv(t)
    ensures Inv(Submit(t, o, user).0)
  {
    var after := Submit(t, o, user).0;
    if after != t {
      forall i | 0 <= i < |after.orders|
        ensures OrderOk(after, i)
      {
        assert OrderOk(t, i);
        if IsApproved(t, i) { ApprovedStays(t, after, i); }
      }
      forall j | 0 <= j < |after.jobs|
        ensures JobOk(after, j)
      {
        assert JobOk(t, j);
        if IsApproved(t, t.jobs[j].order) { ApprovedStays(t, after, t.jobs[j].order); }
      }
      forall j | 0 <= j < |t.jobs| && t.jobs[j].kind == Refund
        ensures t.jobs[j].order != o
      {
        assert JobOk(t, j);
        var r :| 0 <= r < |t.requests| && t.requests[r].order == t.jobs[j].order && t.requests[r].status == Approved;
      }
      forall r | 0 <= r < |after.requests|
        ensures RequestOk(after, r)
      {
        if r < |t.requests| { assert RequestOk(t, r); }
      }
    }
  }

  lemma ApprovedStays(t: Tables, after: Tables, o: nat)
    requires IsApproved(t, o) && |t.requests| <= |after.requests|
    requires forall r :: 0 <= r < |t.requests| && t.requests[r].status == Approved ==> after.requests[r] == t.requests[r]
    ensures IsApproved(after, o)
  {
    var r :| 0 <= r < |t.requests| && t.requests[r].order == o && t.requests[r].status == Approved;
    assert after.requests[r] == t.requests[r];
  }

  /** An undecided request's order has not been refunded. */
  lemma UndecidedIsFulfilled(t: Tables, r: nat)
    requires Inv(t) && r < |t.requests| && t.requests[r].status == Requested
    ensures t.requests[r].order < |t.orders| && t.orders[t.requests[r].order].status == Fulfilled
  {
    assert RequestOk(t, r);
    var o := t.requests[r].order;
    assert OrderOk(t, o);
    assert forall q :: 0 <= q < |t.requests| && t.requests[q].order == o ==> q == r;
  }

  lemma DecideKeeps(t: Tables, r: nat, approve: bool, admin: Text)
    requires Inv(t)
    ensures Inv(Decide(t, r, approve, admin).0)
  {
    if r < |t.requests| && t.requests[r].status == Requested {
      var after, o := Decide(t, r, approve, admin).0, t.requests[r].order;
      assert RequestOk(t, r);
      UndecidedIsFulfilled(t, r);
      forall i | 0 <= i < |after.orders|
        ensures OrderOk(after, i)
      {
        assert OrderOk(t, i);
        if IsApproved(t, i) { ApprovedStays(t, after, i); }
      }
      if approve { assert after.requests[r].order == o && after.requests[r].status == Approved; }
      forall j | 0 <= j < |after.jobs|
        ensures JobOk(after, j)
      {
        if j < |t.jobs| {
          assert JobOk(t, j);
          if IsApproved(t, t.jobs[j].order) { ApprovedStays(t, after, t.jobs[j].order); }
        }
      }
      forall q | 0 <= q < |after.requests|
        ensures RequestOk(after, q)
      {
        assert RequestOk(t, q);
      }
    }
  }

  /** A continuation notes its own order's move and touches no other order. */
  lemma ContinueTouches(t: Tables, j: nat) returns (note: Note)
    requires Continue(t, j).Some?
    ensures var after := Continue(t, j).value;
            && after.notes == t.notes + [note] && note.order == t.jobs[j].order
            && after.requests == t.requests && |after.jobs| == |t.jobs| && |after.orders| == |t.orders|
            && (forall i :: 0 <= i < |t.jobs| ==> after.jobs[i].order == t.jobs[i].order)
            && forall o :: 0 <= o < |t.orders| && o != t.jobs[j].order ==> after.orders[o] == t.orders[o]
  {
    note := Continue(t, j).value.notes[|t.notes|];
  }

  lemma ContinueTells(t: Tables, j: nat)
    requires Inv(t) && Continue(t, j).Some?
    ensures OrderOk(Continue(t, j).value, t.jobs[j].order)
  {
    var o := t.jobs[j].order;
    var note := ContinueTouches(t, j);
    assert JobOk(t, j) && OrderOk(t, o);
    NotesPush(t.notes, note, o);
    if t.jobs[j].kind == Refund { ApprovedStays(t, Continue(t, j).value, o); }
  }

  lemma ContinueElsewhere(t: Tables, j: nat, o: nat)
    requires Inv(t) && Continue(t, j).Some? && o < |t.orders| && o != t.jobs[j].order
    ensures o < |Continue(t, j).value.orders| && OrderOk(Continue(t, j).value, o)
  {
    var note := ContinueTouches(t, j);
    assert OrderOk(t, o);
    NotesPush(t.notes, note, o);
    assert NotesOf(t.notes, o) + [] == NotesOf(t.notes, o);
    if IsApproved(t, o) { ApprovedStays(t, Continue(t, j).value, o); }
  }

  lemma ContinueOrders(t: Tables, j: nat)
    requires Inv(t) && Continue(t, j).Some?
    ensures |Continue(t, j).value.orders| == |t.orders|
    ensures forall o :: 0 <= o < |t.orders| ==> OrderOk(Continue(t, j).value, o)
  {
    var note := ContinueTouches(t, j);
    forall o | 0 <= o < |t.orders|
      ensures OrderOk(Continue(t, j).value, o)
    {
      if o == t.jobs[j].order { ContinueTells(t, j); } else { ContinueElsewhere(t, j, o); }
    }
  }

  /** A continuation moves its own order on, and no other job of that order is waiting to. */
  lemma ContinueKeeps(t: Tables, j: nat)
    requires Inv(t) && Continue(t, j).Some?
    ensures Inv(Continue(t, j).value)
  {
    var after, job := Continue(t, j).value, t.jobs[j];
    assert JobOk(t, j);
    ContinueOrders(t, j);
    forall i | 0 <= i < |after.jobs|
      ensures JobOk(after, i)
    {
      assert JobOk(t, i);
      if i != j && t.jobs[i].order == job.order { ContinueSameOrder(t, j, i); }
    }
    forall r | 0 <= r < |after.requests|
      ensures RequestOk(after, r)
    {
      assert RequestOk(t, r);
    }
  }

  lemma ContinueSameOrder(t: Tables, j: nat, i: nat)
    requires Inv(t) && Continue(t, j).Some? && i < |t.jobs| && i != j && t.jobs[i].order == t.jobs[j].order
    ensures JobOk(Continue(t, j).value, i)
  {
    assert JobOk(t, i) && JobOk(t, j);
    assert t.jobs[i].kind != t.jobs[j].kind;
    var o := t.jobs[j].order;
    var r :| 0 <= r < |t.requests| && t.requests[r].order == o && t.requests[r].status == Approved;
    assert RequestOk(t, r);
  }

  lemma DieKeeps(t: Tables, j: nat)
    requires Inv(t) && Apply(t, Die(j)).Some?
    ensures Inv(Apply(t, Die(j)).value)
  {
    var after := Apply(t, Die(j)).value;
    forall o | 0 <= o < |after.orders|
      ensures OrderOk(after, o)
    {
      assert OrderOk(t, o);
    }
    forall i | 0 <= i < |after.jobs|
      ensures JobOk(after, i)
    {
      assert JobOk(t, i);
    }
    forall r | 0 <= r < |after.requests|
      ensures RequestOk(after, r)
    {
      assert RequestOk(t, r);
    }
  }

  lemma ApplyKeepsInv(t: Tables, e: Event)
    requires Inv(t) && Apply(t, e).Some?
    ensures Inv(Apply(t, e).value)
  {
    match e {
      case Place(user) => PlaceKeeps(t, user);
      case FulfilOrder(o) => FulfilKeeps(t, o);
      case SubmitReturn(o, user) => SubmitKeeps(t, o, user);
      case DecideReturn(r, approve, admin) => DecideKeeps(t, r, approve, admin);
      case Delay(j) => ContinueKeeps(t, j);
      case Die(j) => DieKeeps(t, j);
    }
  }

  lemma {:induction false} EveryRunKeepsInv(t: Tables, events: seq<Event>)
    requires Inv(t) && Run(t, events).Some?
    ensures Inv(Run(t, events).value)
  {
    if events != [] {
      EveryRunKeepsInv(t, events[..|events| - 1]);
      ApplyKeepsInv(Run(t, events[..|events| - 1]).value, events[|events| - 1]);
    }
  }

  // ---- every run ----------------------------------------------------------------------------

  function Successor(status: Status): Status {
    match status
    case Pending => Processing
    case Processing => Ready
    case Ready => Fulfilled
    case Fulfilled => Refunded
    case Refunded => Refunded
  }

  /** Each step leaves an order's status, or takes it to the next one. */
  lemma StatusesStepForward(t: Tables, e: Event, o: nat)
    requires Inv(t) && Apply(t, e).Some? && o < |t.orders|
    ensures var after := Apply(t, e).value;
            && o < |after.orders| && after.orders[o].user == t.orders[o].user
            && (after.orders[o].status == t.orders[o].status || after.orders[o].status == Successor(t.orders[o].status))
  {
    if e.Delay? { assert JobOk(t, e.job); }
  }

  ghost predicate AtMostOne(t: Tables, o: nat) {
    && (forall i, j | 0 <= i < |t.jobs| && 0 <= j < |t.jobs| && t.jobs[i].order == t.jobs[j].order == o
          :: t.jobs[i].kind == t.jobs[j].kind ==> i == j)
    && (forall i, j | 0 <= i < |t.requests| && 0 <= j < |t.requests| :: t.requests[i].order == t.requests[j].order == o ==> i == j)
  }

  ghost predicate Chained(notes: seq<Note>) {
    forall i :: 0 < i < |notes| ==> notes[i].before == notes[i - 1].after
  }

  /**
    In every run from an empty database an order has at most one fulfilment job, one return request and
    one refund job; a refunded order has an approved request; a refund job is always for an approved
    request; and its notifications are exactly the path to its status, each starting where the last ended.
  */
  lemma EveryRunIsOrderly(events: seq<Event>, o: nat)
    requires Run(Tables([], [], [], []), events).Some?
    requires o < |Run(Tables([], [], [], []), events).value.orders|
    ensures var t := Run(Tables([], [], [], []), events).value; var status := t.orders[o].status;
            && AtMostOne(t, o)
            && (status == Refunded ==> IsApproved(t, o))
            && (forall j :: 0 <= j < |t.jobs| && t.jobs[j].order == o && t.jobs[j].kind == Refund ==> IsApproved(t, o))
            && NotesOf(t.notes, o) == Told(o, status) && Chained(NotesOf(t.notes, o))
            && (NotesOf(t.notes, o) != [] ==> NotesOf(t.notes, o)[|NotesOf(t.notes, o)| - 1].after == status)
  {
    EveryRunKeepsInv(Tables([], [], [], []), events);
    var t := Run(Tables([], [], [], []), events).value;
    assert OrderOk(t, o);
    forall j | 0 <= j < |t.jobs| && t.jobs[j].order == o && t.jobs[j].kind == Refund
      ensures IsApproved(t, o)
    {
      assert JobOk(t, j);
    }
  }

  // ---- what was started goes on -------------------------------------------------------------

  ghost predicate HasJob(t: Tables, o: nat, kind: JobKind) {
    exists j :: 0 <= j < |t.jobs| && t.jobs[j].order == o && t.jobs[j].kind == kind
  }

  /** Whatever left "pending" has a fulfilment job, and whatever was approved a refund job. */
  ghost predicate AllStarted(t: Tables) {
    && (forall o :: 0 <= o < |t.orders| && t.orders[o].status != Pending ==> HasJob(t, o, Fulfilment))
    && (forall r :: 0 <= r < |t.requests| && t.requests[r].status == Approved ==> HasJob(t, t.requests[r].order, Refund))
  }

  lemma JobStays(t: Tables, after: Tables, o: nat, kind: JobKind)
    requires HasJob(t, o, kind) && |t.jobs| <= |after.jobs|
    requires forall j :: 0 <= j < |t.jobs| ==> after.jobs[j].order == t.jobs[j].order && after.jobs[j].kind == t.jobs[j].kind
    ensures HasJob(after, o, kind)
  {
    var j :| 0 <= j < |t.jobs| && t.jobs[j].order == o && t.jobs[j].kind == kind;
    assert after.jobs[j].order == o;
  }

  lemma NewJob(t: Tables, o: nat)
    requires t.jobs != [] && t.jobs[|t.jobs| - 1].order == o
    ensures HasJob(t, o, t.jobs[|t.jobs| - 1].kind)
  {
  }

  lemma ApplyKeepsStarted(t: Tables, e: Event)
    requires Inv(t) && AllStarted(t) && Apply(t, e).Some?
    ensures AllStarted(Apply(t, e).value)
  {
    var after := Apply(t, e).value;
    if e.Delay? { assert JobOk(t, e.job); }
    forall o | 0 <= o < |after.orders| && after.orders[o].status != Pending
      ensures HasJob(after, o, Fulfilment)
    {
      if o < |t.orders| && t.orders[o].status != Pending {
        JobStays(t, after, o, Fulfilment);
      } else {
        assert OrderOk(t, o);
        NewJob(after, o);
      }
    }
    forall r | 0 <= r < |after.requests| && after.requests[r].status == Approved
      ensures HasJob(after, after.requests[r].order, Refund)
    {
      assert r < |t.requests| ==> RequestOk(t, r);
      if r < |t.requests| && t.requests[r].status == Approved {
        JobStays(t, after, t.requests[r].order, Refund);
      } else {
        NewJob(after, after.requests[r].order);
      }
    }
  }

  lemma {:induction false} EveryRunStarted(events: seq<Event>)
    requires Run(Tables([], [], [], []), events).Some?
    ensures AllStarted(Run(Tables([], [], [], []), events).value)
  {
    if events != [] {
      var front := events[..|events| - 1];
      EveryRunStarted(front);
      EveryRunKeepsInv(Tables([], [], [], []), front);
      ApplyKeepsStarted(Run(Tables([], [], [], []), front).value, events[|events| - 1]);
    }
  }

  /** The one job of its kind for the order, and the order where its next delay leaves it. */
  ghost predicate GoesOn(t: Tables, o: nat, j: nat, kind: JobKind) {
    && j < |t.jobs| && o < |t.orders| && t.jobs[j].order == o && t.jobs[j].kind == kind
    && (forall i :: 0 <= i < |t.jobs| && t.jobs[i].order == o && t.jobs[i].kind == kind ==> i == j)
    && match t.jobs[j].stage
       case BeforeReady => t.orders[o].status == Processing && LeadsTo(t, j, o, Ready)
       case BeforeFulfilled => t.orders[o].status == Ready && LeadsTo(t, j, o, Fulfilled)
       case BeforeRefunded => t.orders[o].status == Fulfilled && LeadsTo(t, j, o, Refunded)
       case Finished => t.orders[o].status == Refunded || (kind == Fulfilment && t.orders[o].status == Fulfilled)
       case Died => true
  }

  ghost predicate LeadsTo(t: Tables, j: nat, o: nat, status: Status) {
    && Run(t, [Delay(j)]).Some? && o < |Run(t, [Delay(j)]).value.orders|
    && Run(t, [Delay(j)]).value.orders[o].status == status
  }

  lemma JobGoesOn(t: Tables, o: nat, kind: JobKind) returns (j: nat)
    requires Inv(t) && HasJob(t, o, kind)
    ensures GoesOn(t, o, j, kind)
  {
    j :| 0 <= j < |t.jobs| && t.jobs[j].order == o && t.jobs[j].kind == kind;
    assert JobOk(t, j);
    RunPush(t, [], t, Delay(j));
    assert [] + [Delay(j)] == [Delay(j)];
  }

  /**
    In every run an order that is no longer pending has exactly one fulfilment job, and an approved request's
    order exactly one refund job; unless that job's continuation died, its next delay takes the order on: to
    ready, to fulfilled, to refunded.
  */
  lemma EveryRunGoesOn(events: seq<Event>, o: nat)
    requires Run(Tables([], [], [], []), events).Some?
    requires o < |Run(Tables([], [], [], []), events).value.orders|
    ensures var t := Run(Tables([], [], [], []), events).value;
            && (t.orders[o].status != Pending ==> exists j: nat :: GoesOn(t, o, j, Fulfilment))
            && (IsApproved(t, o) ==> exists j: nat :: GoesOn(t, o, j, Refund))
  {
    EveryRunKeepsInv(Tables([], [], [], []), events);
    EveryRunStarted(events);
    var t := Run(Tables([], [], [], []), events).value;
    if t.orders[o].status != Pending { var j := JobGoesOn(t, o, Fulfilment); }
    if IsApproved(t, o) { var j := JobGoesOn(t, o, Refund); }
  }

  /**
    Handlers being one step matters: two fulfilments that both read the order as pending before either
    wrote start two jobs, and the slower one takes a fulfilled order back to ready.
  */
  lemma FulfilTwice(t: Tables, o: nat) returns (after: Tables)
    requires o < |t.orders| && t.orders[o].status == Pending
    ensures var seen := t.orders[o].status; var n := |t.jobs|;
            var (once, first) := StartFulfilment(t, o, seen);
            var (twice, second) := StartFulfilment(once, o, seen);
            && first.Ok? && second.Ok? && !AtMostOne(twice, o)
            && Run(twice, [Delay(n)] + [Delay(n)] + [Delay(n + 1)]) == Some(after)
    ensures o < |after.orders| && after.orders[o].status == Ready
    ensures |t.notes| <= |after.notes| && !Chained(NotesOf(after.notes[|t.notes|..], o))
  {
    var n := |t.jobs|;
    var twice := StartFulfilment(StartFulfilment(t, o, Pending).0, o, Pending).0;
    assert twice.jobs[n].order == twice.jobs[n + 1].order == o && n != n + 1;
    after := TwoContinuations(twice, o, n);
    assert after.notes[|t.notes|..] == [Note(o, Processing, Ready), Note(o, Ready, Fulfilled), Note(o, Processing, Ready)];
    BackToReady(o, after.notes[|t.notes|..]);
  }

  lemma TwoContinuations(t: Tables, o: nat, n: nat) returns (after: Tables)
    requires o < |t.orders| && n + 1 < |t.jobs|
    requires t.jobs[n] == t.jobs[n + 1] == Job(Fulfilment, o, Running, BeforeReady)
    ensures Run(t, [Delay(n)] + [Delay(n)] + [Delay(n + 1)]) == Some(after)
    ensures o < |after.orders| && after.orders[o].status == Ready
    ensures after.notes == t.notes + [Note(o, Processing, Ready)] + [Note(o, Ready, Fulfilled)] + [Note(o, Processing, Ready)]
  {
    var a := Continue(t, n).value;
    var b := Continue(a, n).value;
    after := Continue(b, n + 1).value;
    RunPush(t, [], t, Delay(n));
    assert [] + [Delay(n)] == [Delay(n)];
    RunPush(t, [Delay(n)], a, Delay(n));
    RunPush(t, [Delay(n)] + [Delay(n)], b, Delay(n + 1));
  }

  lemma RunPush(t: Tables, events: seq<Event>, mid: Tables, e: Event)
    requires Run(t, events) == Some(mid)
    ensures Run(t, events + [e]) == Apply(mid, e)
  {
    assert (events + [e])[..|events|] == events;
  }

  lemma BackToReady(o: nat, notes: seq<Note>)
    requires notes == [Note(o, Processing, Ready), Note(o, Ready, Fulfilled), Note(o, Processing, Ready)]
    ensures !Chained(NotesOf(notes, o))
  {
    var x, y, z := Note(o, Processing, Ready), Note(o, Ready, Fulfilled), Note(o, Processing, Ready);
    NotesPush([], x, o);
    NotesPush([x], y, o);
    NotesPush([x, y], z, o);
    assert notes == [x, y] + [z] && [x, y] == [x] + [y] && [x] == [] + [x];
    assert NotesOf(notes, o)[2].before != NotesOf(notes, o)[1].after;
  }
}
