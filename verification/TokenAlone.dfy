/**
  The requests of the token machine, each with nothing beside it: what it leaves in the token records and what
  it answers, said of the records alone (apiV2/src/auth/auth.service.ts, auth/token-records.service.ts,
  auth/guards/any-auth.guard.ts).
*/
module TokenAlone {
  import opened Wrappers
  import opened Bytes
  import opened Tokens
  import opened TokenRuns

  /** `n` steps of one request. */
  function Own(t: nat, n: nat): seq<Event> { seq(n, _ => Step(t)) }

  lemma NoStep(c: Ttls, s: State, t: nat)
    ensures Run(c, s, Own(t, 0)) == Some(s)
  {
  }

  lemma OneMore(c: Ttls, s: State, t: nat, n: nat, mid: State, after: State)
    requires Run(c, s, Own(t, n)) == Some(mid) && t < |mid.threads| && Next(c, mid, t) == Some(after)
    ensures Run(c, s, Own(t, n + 1)) == Some(after)
  {
    assert Own(t, n + 1)[..n] == Own(t, n);
  }

  /** The account exists and has not been deactivated. */
  predicate MayAct(users: map<Text, bool>, user: Text) { user in users && users[user] == false }

  /** The token is one of this kind, and its row is neither revoked nor past its expiry. */
  predicate Usable(s: State, jti: nat, kind: Kind) {
    && jti < |s.rows| && jti < |s.minted| && s.minted[jti].kind == kind
    && s.rows[jti].revokedAt == None && s.now <= s.rows[jti].expiresAt
  }

  /** The request has answered, and these are the accounts, the records and what was signed for them. */
  ghost predicate Ends(s: State, t: nat, after: State, users: map<Text, bool>, rows: seq<Row>, minted: seq<Minted>, outcome: Outcome)
    requires t < |s.threads|
  {
    after == State(users, rows, minted, s.threads[t := Thread(s.threads[t].call, Done(outcome))], s.now)
  }

  ghost predicate Unchanged(s: State, t: nat, after: State, outcome: Outcome)
    requires t < |s.threads|
  {
    Ends(s, t, after, s.users, s.rows, s.minted, outcome)
  }

  /** The user's records that were not revoked have been revoked now. */
  ghost predicate AllRevoked(rows: seq<Row>, user: Text, now: int, after: seq<Row>) {
    && |after| == |rows|
    && forall i :: 0 <= i < |rows| ==>
         after[i] == Row(rows[i].user, rows[i].expiresAt,
                         if rows[i].user == user && rows[i].revokedAt == None then Some(now) else rows[i].revokedAt)
  }

  /** A login of an active account issues one refresh record. */
  ghost predicate LoginHolds(c: Ttls, s: State, t: nat, user: Text, valid: bool, after: State)
    requires t < |s.threads|
  {
    if valid && MayAct(s.users, user) then
      Ends(s, t, after, s.users, s.rows + [Row(user, s.now + c.refresh, None)],
           s.minted + [Minted(Refresh, None, |s.rows|, t)], Issued(|s.rows|))
    else Unchanged(s, t, after, Rejected)
  }

  /** A session login issues one session record and, when asked, a session-refresh record. */
  ghost predicate SessionHolds(c: Ttls, s: State, t: nat, user: Text, valid: bool, withRefresh: bool, after: State)
    requires t < |s.threads|
  {
    var n := |s.rows|;
    if !valid || !MayAct(s.users, user) then Unchanged(s, t, after, Rejected)
    else if !withRefresh then
      Ends(s, t, after, s.users, s.rows + [Row(user, s.now + c.session, None)], s.minted + [Minted(Session, None, n, t)], Issued(n))
    else
      Ends(s, t, after, s.users,
           s.rows + [Row(user, s.now + c.session, None)] + [Row(user, s.now + c.sessionRefresh, None)],
           s.minted + [Minted(Session, None, n, t)] + [Minted(SessionRefresh, None, n + 1, t)], Issued(n + 1))
  }

  /** A rotation spends a usable token and, for an active account, issues its one successor. */
  ghost predicate RotateHolds(c: Ttls, s: State, t: nat, j: nat, after: State)
    requires t < |s.threads| && |s.minted| == |s.rows|
  {
    if !Usable(s, j, Refresh) || s.rows[j].expiresAt == s.now then Unchanged(s, t, after, Rejected)
    else
      var user := s.rows[j].user;
      var spent := s.rows[j := Row(user, s.rows[j].expiresAt, Some(s.now))];
      if MayAct(s.users, user) then
        Ends(s, t, after, s.users, spent + [Row(user, s.now + c.refresh, None)],
             s.minted + [Minted(Refresh, Some(j), s.minted[j].family, t)], Issued(|s.rows|))
      else Ends(s, t, after, s.users, spent, s.minted, Rejected)
  }

  /** A session renewal leaves its token alone and issues a session record. */
  ghost predicate RenewHolds(c: Ttls, s: State, t: nat, j: nat, after: State)
    requires t < |s.threads| && |s.minted| == |s.rows|
  {
    if Usable(s, j, SessionRefresh) && MayAct(s.users, s.rows[j].user) then
      Ends(s, t, after, s.users, s.rows + [Row(s.rows[j].user, s.now + c.session, None)],
           s.minted + [Minted(Session, None, |s.rows|, t)], Issued(|s.rows|))
    else Unchanged(s, t, after, Rejected)
  }

  /** A logout revokes the record of a token that verifies, and succeeds whatever it was shown. */
  ghost predicate LogoutHolds(s: State, t: nat, j: nat, kind: Kind, after: State)
    requires t < |s.threads| && |s.minted| == |s.rows|
  {
    if j < |s.rows| && s.minted[j].kind == kind && s.now <= s.rows[j].expiresAt then
      Ends(s, t, after, s.users, s.rows[j := Row(s.rows[j].user, s.rows[j].expiresAt, Some(s.now))], s.minted, LoggedOut)
    else Unchanged(s, t, after, LoggedOut)
  }

  /** A deletion deactivates an active account and revokes its records. */
  ghost predicate DeleteHolds(s: State, t: nat, user: Text, after: State)
    requires t < |s.threads|
  {
    if MayAct(s.users, user) then
      AllRevoked(s.rows, user, s.now, after.rows) && Ends(s, t, after, s.users[user := true], after.rows, s.minted, Deleted)
    else Unchanged(s, t, after, Rejected)
  }

  /** What each request amounts to. */
  ghost predicate CallHolds(c: Ttls, s: State, t: nat, after: State)
    requires t < |s.threads| && |s.minted| == |s.rows|
  {
    match s.threads[t].call
    case Login(user, valid) => LoginHolds(c, s, t, user, valid, after)
    case SessionLogin(user, valid, withRefresh) => SessionHolds(c, s, t, user, valid, withRefresh, after)
    case Rotate(j) => RotateHolds(c, s, t, j, after)
    case RenewSession(j) => RenewHolds(c, s, t, j, after)
    case Logout(j, kind) => LogoutHolds(s, t, j, kind, after)
    case Delete(user) => DeleteHolds(s, t, user, after)
    case Bearer(user) => Unchanged(s, t, after, if MayAct(s.users, user) then Admitted else Rejected)
    case Basic(user, valid) => Unchanged(s, t, after, if valid && MayAct(s.users, user) then Admitted else Rejected)
    case Cookie(j, csrfHolds) =>
      Unchanged(s, t, after, if Usable(s, j, Session) && MayAct(s.users, s.rows[j].user) && csrfHolds then Admitted else Rejected)
  }

  lemma MovedAgain(s: State, t: nat, a: Pc, b: Pc)
    requires t < |s.threads|
    ensures Moved(Moved(s, t, a), t, b) == Moved(s, t, b)
  {
    assert s.threads[t := Thread(s.threads[t].call, a)][t := Thread(s.threads[t].call, b)]
           == s.threads[t := Thread(s.threads[t].call, b)];
  }

  /** Its first step only moves the request on. */
  lemma Starts(c: Ttls, s: State, t: nat) returns (mid: State)
    requires t < |s.threads| && s.threads[t].pc == Start
    ensures Run(c, s, Own(t, 1)) == Some(mid) && mid == Moved(s, t, StartPc(s, s.threads[t].call))
  {
    mid := Moved(s, t, StartPc(s, s.threads[t].call));
    NoStep(c, s, t);
    OneMore(c, s, t, 0, s, mid);
  }

  lemma LoginRuns(c: Ttls, s: State, t: nat) returns (n: nat, after: State)
    requires t < |s.threads| && |s.minted| == |s.rows| && s.threads[t].pc == Start
    requires s.threads[t].call.Login? || s.threads[t].call.Basic?
    ensures Run(c, s, Own(t, n)) == Some(after) && CallHolds(c, s, t, after)
  {
    var mid := Starts(c, s, t);
    n, after := 1, mid;
    if mid.threads[t].pc == Issue {
      after := Next(c, mid, t).value;
      MovedAgain(s, t, Issue, Done(Issued(|s.rows|)));
      OneMore(c, s, t, 1, mid, after);
      n := 2;
    }
  }

  /** The thread at `pc`, with these records; nothing else of it has changed. */
  function At(s: State, t: nat, users: map<Text, bool>, rows: seq<Row>, minted: seq<Minted>, pc: Pc): State
    requires t < |s.threads|
  {
    State(users, rows, minted, s.threads[t := Thread(s.threads[t].call, pc)], s.now)
  }

  lemma ThreadAt(s: State, t: nat, users: map<Text, bool>, rows: seq<Row>, minted: seq<Minted>, pc: Pc, next: Pc)
    requires t < |s.threads|
    ensures var at := At(s, t, users, rows, minted, pc);
            at.threads[t := Thread(s.threads[t].call, next)] == s.threads[t := Thread(s.threads[t].call, next)]
  {
  }

  lemma IssueAt(c: Ttls, s: State, t: nat, rows: seq<Row>, row: Row, kind: Kind, parent: Option<nat>, family: nat, next: Pc)
    requires t < |s.threads| && |s.minted| == |rows|
    requires var at := At(s, t, s.users, rows, s.minted, Issue);
             IssueStep(c, at, t) == Some(Moved(at, t, next).(rows := rows + [row], minted := s.minted + [Minted(kind, parent, family, t)]))
    ensures Next(c, At(s, t, s.users, rows, s.minted, Issue), t)
            == Some(At(s, t, s.users, rows + [row], s.minted + [Minted(kind, parent, family, t)], next))
  {
    ThreadAt(s, t, s.users, rows, s.minted, Issue, next);
  }

  lemma SecondAt(c: Ttls, s: State, t: nat, rows: seq<Row>, minted: seq<Minted>)
    requires t < |s.threads| && |minted| == |rows| && s.threads[t].call.SessionLogin?
    ensures Next(c, At(s, t, s.users, rows, minted, IssueSecond), t)
            == Some(At(s, t, s.users, rows + [Row(s.threads[t].call.user, s.now + c.sessionRefresh, None)],
                       minted + [Minted(SessionRefresh, None, |rows|, t)], Done(Issued(|rows|))))
  {
    ThreadAt(s, t, s.users, rows, minted, IssueSecond, Done(Issued(|rows|)));
  }

  lemma SessionRuns(c: Ttls, s: State, t: nat) returns (n: nat, after: State)
    requires t < |s.threads| && |s.minted| == |s.rows| && s.threads[t].pc == Start && s.threads[t].call.SessionLogin?
    ensures Run(c, s, Own(t, n)) == Some(after)
    ensures var call := s.threads[t].call; SessionHolds(c, s, t, call.user, call.valid, call.withRefresh, after)
  {
    var call := s.threads[t].call;
    var mid := Starts(c, s, t);
    n, after := 1, mid;
    if mid.threads[t].pc == Issue {
      var next := if call.withRefresh then IssueSecond else Done(Issued(|s.rows|));
      var row, sign := Row(call.user, s.now + c.session, None), Minted(Session, None, |s.rows|, t);
      IssueAt(c, s, t, s.rows, row, Session, None, |s.rows|, next);
      var first := At(s, t, s.users, s.rows + [row], s.minted + [sign], next);
      OneMore(c, s, t, 1, mid, first);
      n, after := 2, first;
      if call.withRefresh {
        SecondAt(c, s, t, s.rows + [row], s.minted + [sign]);
        after := Next(c, first, t).value;
        OneMore(c, s, t, 2, first, after);
        n := 3;
      }
    }
  }

  lemma LookupAt(c: Ttls, s: State, t: nat, rows: seq<Row>, j: nat)
    requires t < |s.threads| && j < |rows| && (s.threads[t].call == Rotate(j) || s.threads[t].call == RenewSession(j))
    ensures Next(c, At(s, t, s.users, rows, s.minted, Lookup), t)
            == Some(At(s, t, s.users, rows, s.minted, if MayAct(s.users, rows[j].user) then Issue else Done(Rejected)))
  {
    ThreadAt(s, t, s.users, rows, s.minted, Lookup, Issue);
    ThreadAt(s, t, s.users, rows, s.minted, Lookup, Done(Rejected));
  }

  lemma ClaimAt(c: Ttls, s: State, t: nat, j: nat)
    requires t < |s.threads| && s.threads[t].call == Rotate(j)
    ensures var usable := j < |s.rows| && s.rows[j].revokedAt == None && s.now < s.rows[j].expiresAt;
            Next(c, At(s, t, s.users, s.rows, s.minted, ClaimRow), t)
            == Some(if usable then At(s, t, s.users, s.rows[j := Row(s.rows[j].user, s.rows[j].expiresAt, Some(s.now))], s.minted, Lookup)
                    else At(s, t, s.users, s.rows, s.minted, Done(Rejected)))
  {
    ThreadAt(s, t, s.users, s.rows, s.minted, ClaimRow, Lookup);
    ThreadAt(s, t, s.users, s.rows, s.minted, ClaimRow, Done(Rejected));
  }

  lemma RotateRuns(c: Ttls, s: State, t: nat) returns (n: nat, after: State)
    requires t < |s.threads| && |s.minted| == |s.rows| && s.threads[t].pc == Start && s.threads[t].call.Rotate?
    ensures Run(c, s, Own(t, n)) == Some(after) && RotateHolds(c, s, t, s.threads[t].call.jti, after)
  {
    var j := s.threads[t].call.jti;
    var mid := Starts(c, s, t);
    n, after := 1, mid;
    if mid.threads[t].pc == ClaimRow {
      ClaimAt(c, s, t, j);
      after := Next(c, mid, t).value;
      OneMore(c, s, t, 1, mid, after);
      n := 2;
      if after.threads[t].pc == Lookup {
        n, after := SpentRuns(c, s, t, j, after);
      }
    }
  }

  /** From a claimed token to its successor. */
  lemma SpentRuns(c: Ttls, s: State, t: nat, j: nat, mid: State) returns (n: nat, after: State)
    requires t < |s.threads| && |s.minted| == |s.rows| && s.threads[t].call == Rotate(j)
    requires Usable(s, j, Refresh) && s.now < s.rows[j].expiresAt && Run(c, s, Own(t, 2)) == Some(mid)
    requires mid == At(s, t, s.users, s.rows[j := Row(s.rows[j].user, s.rows[j].expiresAt, Some(s.now))], s.minted, Lookup)
    ensures Run(c, s, Own(t, n)) == Some(after) && RotateHolds(c, s, t, j, after)
  {
    var user := s.rows[j].user;
    var spent := s.rows[j := Row(user, s.rows[j].expiresAt, Some(s.now))];
    LookupAt(c, s, t, spent, j);
    var looked := Next(c, mid, t).value;
    OneMore(c, s, t, 2, mid, looked);
    n, after := 3, looked;
    if MayAct(s.users, user) {
      SuccessorAt(c, s, t, j);
      after := Next(c, looked, t).value;
      OneMore(c, s, t, 3, looked, after);
      n := 4;
    }
  }

  lemma SuccessorAt(c: Ttls, s: State, t: nat, j: nat)
    requires t < |s.threads| && |s.minted| == |s.rows| && s.threads[t].call == Rotate(j) && j < |s.rows|
    ensures var user := s.rows[j].user;
            var spent := s.rows[j := Row(user, s.rows[j].expiresAt, Some(s.now))];
            Next(c, At(s, t, s.users, spent, s.minted, Issue), t)
            == Some(At(s, t, s.users, spent + [Row(user, s.now + c.refresh, None)],
                       s.minted + [Minted(Refresh, Some(j), s.minted[j].family, t)], Done(Issued(|s.rows|))))
  {
    var user := s.rows[j].user;
    var spent := s.rows[j := Row(user, s.rows[j].expiresAt, Some(s.now))];
    IssueAt(c, s, t, spent, Row(user, s.now + c.refresh, None), Refresh, Some(j), s.minted[j].family, Done(Issued(|s.rows|)));
  }

  lemma CheckAt(c: Ttls, s: State, t: nat, j: nat)
    requires t < |s.threads| && s.threads[t].call == RenewSession(j)
    ensures var live := j < |s.rows| && s.rows[j].revokedAt == None && s.now <= s.rows[j].expiresAt;
            Next(c, At(s, t, s.users, s.rows, s.minted, CheckLive), t)
            == Some(At(s, t, s.users, s.rows, s.minted, if live then Lookup else Done(Rejected)))
  {
    ThreadAt(s, t, s.users, s.rows, s.minted, CheckLive, Lookup);
    ThreadAt(s, t, s.users, s.rows, s.minted, CheckLive, Done(Rejected));
  }

  lemma RenewRuns(c: Ttls, s: State, t: nat) returns (n: nat, after: State)
    requires t < |s.threads| && |s.minted| == |s.rows| && s.threads[t].pc == Start && s.threads[t].call.RenewSession?
    ensures Run(c, s, Own(t, n)) == Some(after) && RenewHolds(c, s, t, s.threads[t].call.jti, after)
  {
    var j := s.threads[t].call.jti;
    var mid := Starts(c, s, t);
    n, after := 1, mid;
    if mid.threads[t].pc == CheckLive {
      CheckAt(c, s, t, j);
      after := Next(c, mid, t).value;
      OneMore(c, s, t, 1, mid, after);
      n := 2;
      if after.threads[t].pc == Lookup {
        n, after := RenewedRuns(c, s, t, j, after);
      }
    }
  }

  /** From a token found live to the session it renews. */
  lemma RenewedRuns(c: Ttls, s: State, t: nat, j: nat, mid: State) returns (n: nat, after: State)
    requires t < |s.threads| && |s.minted| == |s.rows| && s.threads[t].call == RenewSession(j) && Usable(s, j, SessionRefresh)
    requires Run(c, s, Own(t, 2)) == Some(mid) && mid == At(s, t, s.users, s.rows, s.minted, Lookup)
    ensures Run(c, s, Own(t, n)) == Some(after) && RenewHolds(c, s, t, j, after)
  {
    LookupAt(c, s, t, s.rows, j);
    var looked := At(s, t, s.users, s.rows, s.minted, if MayAct(s.users, s.rows[j].user) then Issue else Done(Rejected));
    OneMore(c, s, t, 2, mid, looked);
    n, after := 3, looked;
    if MayAct(s.users, s.rows[j].user) {
      after := RenewalAt(c, s, t, j);
      OneMore(c, s, t, 3, looked, after);
      n := 4;
    }
  }

  lemma RenewalAt(c: Ttls, s: State, t: nat, j: nat) returns (after: State)
    requires t < |s.threads| && |s.minted| == |s.rows| && s.threads[t].call == RenewSession(j) && j < |s.rows|
    ensures Next(c, At(s, t, s.users, s.rows, s.minted, Issue), t) == Some(after)
    ensures after == At(s, t, s.users, s.rows + [Row(s.rows[j].user, s.now + c.session, None)],
                        s.minted + [Minted(Session, None, |s.rows|, t)], Done(Issued(|s.rows|)))
  {
    var row := Row(s.rows[j].user, s.now + c.session, None);
    IssueAt(c, s, t, s.rows, row, Session, None, |s.rows|, Done(Issued(|s.rows|)));
    after := At(s, t, s.users, s.rows + [row], s.minted + [Minted(Session, None, |s.rows|, t)], Done(Issued(|s.rows|)));
  }

  lemma CookieRuns(c: Ttls, s: State, t: nat) returns (n: nat, after: State)
    requires t < |s.threads| && |s.minted| == |s.rows| && s.threads[t].pc == Start
    requires s.threads[t].call.Cookie? || s.threads[t].call.Bearer?
    ensures Run(c, s, Own(t, n)) == Some(after) && CallHolds(c, s, t, after)
  {
    var mid := Starts(c, s, t);
    n, after := 1, mid;
    if mid.threads[t].pc == CheckLive {
      after := Next(c, mid, t).value;
      OneMore(c, s, t, 1, mid, after);
      n := 2;
    }
    if after.threads[t].pc == CheckActive {
      MovedAgain(s, t, CheckLive, CheckActive);
      var checked := Next(c, after, t).value;
      OneMore(c, s, t, n, after, checked);
      n, after := n + 1, checked;
    }
  }

  lemma LogoutRuns(c: Ttls, s: State, t: nat) returns (n: nat, after: State)
    requires t < |s.threads| && |s.minted| == |s.rows| && s.threads[t].pc == Start && s.threads[t].call.Logout?
    ensures Run(c, s, Own(t, n)) == Some(after) && CallHolds(c, s, t, after)
  {
    var mid := Starts(c, s, t);
    n, after := 1, mid;
    if mid.threads[t].pc == RevokeRow {
      after := Next(c, mid, t).value;
      OneMore(c, s, t, 1, mid, after);
      n := 2;
    }
  }

  /** The second sweep finds nothing left to revoke. */
  lemma SweptTwice(rows: seq<Row>, user: Text, now: int)
    ensures AllRevoked(rows, user, now, RevokedAll(RevokedAll(rows, user, now), user, now))
  {
  }

  /** The four statements of a deletion, each on its own. */
  lemma DeleteAt(c: Ttls, s: State, t: nat, user: Text)
    requires t < |s.threads| && s.threads[t].call == Delete(user)
    ensures var off, once := s.users[user := true], RevokedAll(s.rows, user, s.now);
            && Next(c, At(s, t, s.users, s.rows, s.minted, Deactivate), t) == Some(At(s, t, off, s.rows, s.minted, FirstSweep))
            && Next(c, At(s, t, off, s.rows, s.minted, FirstSweep), t) == Some(At(s, t, off, once, s.minted, Wipe))
            && Next(c, At(s, t, off, once, s.minted, Wipe), t) == Some(At(s, t, off, once, s.minted, SecondSweep))
  {
    var off, once := s.users[user := true], RevokedAll(s.rows, user, s.now);
    ThreadAt(s, t, s.users, s.rows, s.minted, Deactivate, FirstSweep);
    ThreadAt(s, t, off, s.rows, s.minted, FirstSweep, Wipe);
    ThreadAt(s, t, off, once, s.minted, Wipe, SecondSweep);
  }

  lemma SecondSweepAt(c: Ttls, s: State, t: nat, user: Text, off: map<Text, bool>, once: seq<Row>)
    requires t < |s.threads| && s.threads[t].call == Delete(user)
    ensures Next(c, At(s, t, off, once, s.minted, SecondSweep), t)
            == Some(At(s, t, off, RevokedAll(once, user, s.now), s.minted, Done(Deleted)))
  {
    ThreadAt(s, t, off, once, s.minted, SecondSweep, Done(Deleted));
  }

  lemma FourMore(c: Ttls, s: State, t: nat, a: State, b: State, d: State, e: State, f: State)
    requires Run(c, s, Own(t, 1)) == Some(a) && t < |a.threads| && Next(c, a, t) == Some(b)
    requires t < |b.threads| && Next(c, b, t) == Some(d) && t < |d.threads| && Next(c, d, t) == Some(e)
    requires t < |e.threads| && Next(c, e, t) == Some(f)
    ensures Run(c, s, Own(t, 5)) == Some(f)
  {
    OneMore(c, s, t, 1, a, b);
    OneMore(c, s, t, 2, b, d);
    OneMore(c, s, t, 3, d, e);
    OneMore(c, s, t, 4, e, f);
  }

  /** From the deactivation to the end. */
  lemma DeletedRuns(c: Ttls, s: State, t: nat, user: Text) returns (after: State)
    requires t < |s.threads| && s.threads[t].call == Delete(user)
    requires Run(c, s, Own(t, 1)) == Some(At(s, t, s.users, s.rows, s.minted, Deactivate))
    ensures Run(c, s, Own(t, 5)) == Some(after)
    ensures after == At(s, t, s.users[user := true], RevokedAll(RevokedAll(s.rows, user, s.now), user, s.now), s.minted, Done(Deleted))
  {
    var off, once := s.users[user := true], RevokedAll(s.rows, user, s.now);
    DeleteAt(c, s, t, user);
    SecondSweepAt(c, s, t, user, off, once);
    after := At(s, t, off, RevokedAll(once, user, s.now), s.minted, Done(Deleted));
    FourMore(c, s, t, At(s, t, s.users, s.rows, s.minted, Deactivate), At(s, t, off, s.rows, s.minted, FirstSweep),
             At(s, t, off, once, s.minted, Wipe), At(s, t, off, once, s.minted, SecondSweep), after);
  }

  lemma DeleteRuns(c: Ttls, s: State, t: nat) returns (n: nat, after: State)
    requires t < |s.threads| && s.threads[t].pc == Start && s.threads[t].call.Delete?
    ensures Run(c, s, Own(t, n)) == Some(after) && DeleteHolds(s, t, s.threads[t].call.user, after)
  {
    var user := s.threads[t].call.user;
    after := Starts(c, s, t);
    n := 1;
    if MayAct(s.users, user) {
      after := DeletedRuns(c, s, t, user);
      n := 5;
      SweptTwice(s.rows, user, s.now);
    }
  }

  /**
    With nothing beside it every request comes to an answer in a few steps of its own: it issues, admits,
    revokes or refuses for exactly the tokens and accounts stated, and changes no other record or account.
  */
  lemma EveryCallAlone(c: Ttls, s: State, t: nat) returns (n: nat, after: State)
    requires t < |s.threads| && |s.minted| == |s.rows| && s.threads[t].pc == Start
    ensures Run(c, s, Own(t, n)) == Some(after) && CallHolds(c, s, t, after)
  {
    match s.threads[t].call {
      case Login(_, _) => n, after := LoginRuns(c, s, t);
      case Basic(_, _) => n, after := LoginRuns(c, s, t);
      case SessionLogin(_, _, _) => n, after := SessionRuns(c, s, t);
      case Rotate(_) => n, after := RotateRuns(c, s, t);
      case RenewSession(_) => n, after := RenewRuns(c, s, t);
      case Logout(_, _) => n, after := LogoutRuns(c, s, t);
      case Delete(_) => n, after := DeleteRuns(c, s, t);
      case Bearer(_) => n, after := CookieRuns(c, s, t);
      case Cookie(_, _) => n, after := CookieRuns(c, s, t);
    }
  }

  lemma HoldsIsRefresh(c: Ttls, s: State, t: nat, j: nat, after: State)
    requires t < |s.threads| && |s.minted| == |s.rows| && j < |s.rows| && s.minted[j].kind == Refresh
    requires RotateHolds(c, s, t, j, after)
    ensures t < |after.threads|
    ensures var (rows, answer) := RefreshAlone(s.users, s.rows, j, c.refresh, s.now);
            after.rows == rows && after.threads[t].pc == Done(if answer.Ok? then Issued(answer.value) else Rejected)
  {
  }

  /** The rotation of the machine, left alone, is the sequential refresh: the same records and the same answer. */
  lemma RotationIsRefresh(c: Ttls, s: State, t: nat) returns (n: nat, after: State)
    requires t < |s.threads| && |s.minted| == |s.rows| && s.threads[t].pc == Start && s.threads[t].call.Rotate?
    requires s.threads[t].call.jti < |s.rows| && s.minted[s.threads[t].call.jti].kind == Refresh
    ensures Run(c, s, Own(t, n)) == Some(after) && t < |after.threads|
    ensures var (rows, answer) := RefreshAlone(s.users, s.rows, s.threads[t].call.jti, c.refresh, s.now);
            after.rows == rows && after.threads[t].pc == Done(if answer.Ok? then Issued(answer.value) else Rejected)
  {
    n, after := RotateRuns(c, s, t);
    HoldsIsRefresh(c, s, t, s.threads[t].call.jti, after);
  }
}
