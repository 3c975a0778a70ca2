/**
  Logins, rotations, logouts, guard checks and account deletions in any interleaving, each awaited
  query one step, with the clock moving and requests failing anywhere between queries
  (apiV2/src/auth/auth.service.ts, auth/token-records.service.ts, auth/guards/any-auth.guard.ts,
  jobs/jobs.service.ts).
*/
module TokenRuns {
  import opened Wrappers
  import opened Bytes
  import opened Tokens

  datatype Call =
    | Login(user: Text, valid: bool)
    | SessionLogin(user: Text, valid: bool, withRefresh: bool)
    | Rotate(jti: nat)                         // POST /auth/refresh
    | RenewSession(jti: nat)                   // the session_refresh cookie
    | Logout(jti: nat, kind: Kind)
    | Delete(user: Text)
    | Bearer(user: Text)                       // guard: an access token of this user
    | Basic(user: Text, valid: bool)
    | Cookie(jti: nat, csrfHolds: bool)        // guard: the session cookie

  datatype Outcome = Issued(row: nat) | Admitted | Rejected | LoggedOut | Deleted

  datatype Pc =
    | Start                                    // verify the token, or read the user by credentials
    | ClaimRow | CheckLive
    | Lookup                                   // read the user the token names
    | Issue | IssueSecond
    | CheckActive
    | RevokeRow
    | Deactivate | FirstSweep | Wipe | SecondSweep
    | Done(outcome: Outcome)

  datatype Thread = Thread(call: Call, pc: Pc)

  /**
    What was signed for a row. `kind` is in the token; the rest is history, `family` being the first row of
    its chain of rotations.
  */
  datatype Minted = Minted(kind: Kind, parent: Option<nat>, family: nat, issuer: nat)

  datatype State = State(users: map<Text, bool>, rows: seq<Row>, minted: seq<Minted>, threads: seq<Thread>, now: int)

  datatype Ttls = Ttls(refresh: nat, session: nat, sessionRefresh: nat)

  function Initial(users: map<Text, bool>, calls: seq<Call>, now: int): State {
    State(users, [], [], seq(|calls|, i requires 0 <= i < |calls| => Thread(calls[i], Start)), now)
  }

  function Moved(s: State, t: nat, pc: Pc): State
    requires t < |s.threads|
  {
    s.(threads := s.threads[t := s.threads[t].(pc := pc)])
  }

  /** The token verifies: it was signed here as this kind, and has not run out. */
  predicate Verifies(s: State, jti: nat, kind: Kind) {
    jti < |s.rows| && jti < |s.minted| && s.minted[jti].kind == kind && s.rows[jti].expiresAt >= s.now
  }

  /** The user a request acts for; the token's subject is its row's user. */
  function UserOf(s: State, call: Call): Option<Text> {
    match call
    case Login(u, _) => Some(u)
    case SessionLogin(u, _, _) => Some(u)
    case Delete(u) => Some(u)
    case Bearer(u) => Some(u)
    case Basic(u, _) => Some(u)
    case Rotate(j) => if j < |s.rows| then Some(s.rows[j].user) else None
    case RenewSession(j) => if j < |s.rows| then Some(s.rows[j].user) else None
    case Logout(j, _) => if j < |s.rows| then Some(s.rows[j].user) else None
    case Cookie(j, _) => if j < |s.rows| then Some(s.rows[j].user) else None
  }

  predicate ActiveUser(s: State, call: Call) { UserOf(s, call).Some? && Active(s.users, UserOf(s, call).value) }

  function StartPc(s: State, call: Call): Pc {
    match call
    case Login(_, valid) => if valid && ActiveUser(s, call) then Issue else Done(Rejected)
    case SessionLogin(_, valid, _) => if valid && ActiveUser(s, call) then Issue else Done(Rejected)
    case Basic(_, valid) => if valid && ActiveUser(s, call) then Done(Admitted) else Done(Rejected)
    case Rotate(j) => if Verifies(s, j, Refresh) then ClaimRow else Done(Rejected)
    case RenewSession(j) => if Verifies(s, j, SessionRefresh) then CheckLive else Done(Rejected)
    case Cookie(j, _) => if Verifies(s, j, Session) then CheckLive else Done(Rejected)
    case Logout(j, kind) => if Verifies(s, j, kind) then RevokeRow else Done(LoggedOut)
    case Delete(_) => if ActiveUser(s, call) then Deactivate else Done(Rejected)
    case Bearer(_) => CheckActive
  }

  /** A new row, and what is signed for it. */
  function Minting(s: State, t: nat, user: Text, ttl: nat, kind: Kind, parent: Option<nat>, pc: Pc): State
    requires t < |s.threads|
  {
    var family := match parent case Some(p) => if p < |s.minted| then s.minted[p].family else p case None => |s.rows|;
    Moved(s, t, pc).(rows := s.rows + [Row(user, s.now + ttl, None)],
                     minted := s.minted + [Minted(kind, parent, family, t)])
  }

  function IssueStep(c: Ttls, s: State, t: nat): Option<State>
    requires t < |s.threads|
  {
    var call := s.threads[t].call;
    var done := Done(Issued(|s.rows|));
    if UserOf(s, call).None? then None else
    var user := UserOf(s, call).value;
    match call
    case Login(_, _) => Some(Minting(s, t, user, c.refresh, Refresh, None, done))
    case Rotate(j) => Some(Minting(s, t, user, c.refresh, Refresh, Some(j), done))
    case SessionLogin(_, _, more) => Some(Minting(s, t, user, c.session, Session, None, if more then IssueSecond else done))
    case RenewSession(_) => Some(Minting(s, t, user, c.session, Session, None, done))
    case _ => None
  }

  function Next(c: Ttls, s: State, t: nat): Option<State>
    requires t < |s.threads|
  {
    var call := s.threads[t].call;
    match s.threads[t].pc
    case Start => Some(Moved(s, t, StartPc(s, call)))
    case ClaimRow =>
      if !call.Rotate? then None else
      (match Claim(s.rows, call.jti, s.now)
       case Some(rows) => Some(Moved(s, t, Lookup).(rows := rows))
       case None => Some(Moved(s, t, Done(Rejected))))
    case CheckLive =>
      if !call.RenewSession? && !call.Cookie? then None
      else if call.jti < |s.rows| && Live(s.rows[call.jti], s.now)
      then Some(Moved(s, t, if call.Cookie? then CheckActive else Lookup))
      else Some(Moved(s, t, Done(Rejected)))
    case Lookup => Some(Moved(s, t, if ActiveUser(s, call) then Issue else Done(Rejected)))
    case Issue => IssueStep(c, s, t)
    case IssueSecond =>
      if !call.SessionLogin? then None
      else Some(Minting(s, t, call.user, c.sessionRefresh, SessionRefresh, None, Done(Issued(|s.rows|))))
    case CheckActive =>
      Some(Moved(s, t, if ActiveUser(s, call) && (call.Cookie? ==> call.csrfHolds) then Done(Admitted) else Done(Rejected)))
    case RevokeRow =>
      if !call.Logout? || call.jti >= |s.rows| then None
      else Some(Moved(s, t, Done(LoggedOut)).(rows := s.rows[call.jti := Revoked(s.rows[call.jti], s.now)]))
    case Deactivate =>
      if !call.Delete? then None else Some(Moved(s, t, FirstSweep).(users := s.users[call.user := true]))
    case FirstSweep =>
      if !call.Delete? then None else Some(Moved(s, t, Wipe).(rows := RevokedAll(s.rows, call.user, s.now)))
    case Wipe => Some(Moved(s, t, SecondSweep))
    case SecondSweep =>
      if !call.Delete? then None else Some(Moved(s, t, Done(Deleted)).(rows := RevokedAll(s.rows, call.user, s.now)))
    case Done(_) => None
  }

  datatype Event = Step(t: nat) | Fail(t: nat) | Tick(millis: nat)

  function Apply(c: Ttls, s: State, e: Event): Option<State> {
    match e
    case Step(t) => if t < |s.threads| then Next(c, s, t) else None
    case Fail(t) => if t < |s.threads| && !s.threads[t].pc.Done? then Some(Moved(s, t, Done(Rejected))) else None
    case Tick(d) => Some(s.(now := s.now + d))
  }

  function Run(c: Ttls, s: State, events: seq<Event>): Option<State> {
    if events == [] then Some(s)
    else
      var before :- Run(c, s, events[..|events| - 1]);
      Apply(c, before, events[|events| - 1])
  }

  // ---- rotation: one successor, one live token per family ------------------------------------

  /** Past its claim and before its successor exists. */
  predicate Rotating(th: Thread) { th.call.Rotate? && (th.pc.Lookup? || th.pc.Issue?) }

  /** Who can still give a family its next token: a live refresh row, or a rotation under way. */
  datatype Holder = OfRow(i: nat) | OfThread(t: nat)

  predicate Holds(s: State, h: Holder, family: nat) {
    match h
    case OfRow(i) =>
      i < |s.rows| && i < |s.minted| && s.minted[i].kind == Refresh && s.rows[i].revokedAt.None?
      && s.minted[i].family == family
    case OfThread(t) =>
      t < |s.threads| && Rotating(s.threads[t]) && s.threads[t].call.jti < |s.minted|
      && s.minted[s.threads[t].call.jti].family == family
  }

  ghost predicate ChainOk(s: State, i: nat)
    requires |s.minted| == |s.rows| && i < |s.rows|
  {
    && s.minted[i].family <= i
    && match s.minted[i].parent
       case None => s.minted[i].family == i
       case Some(p) =>
         && p < i && s.minted[p].kind == s.minted[i].kind == Refresh
         && s.minted[p].family == s.minted[i].family && s.rows[p].user == s.rows[i].user
         && s.rows[p].revokedAt.Some?
  }

  ghost predicate ThreadOk(s: State, t: nat)
    requires |s.minted| == |s.rows| && t < |s.threads|
  {
    var th := s.threads[t];
    && (th.pc.ClaimRow? ==> th.call.Rotate?)
    && (th.pc.Lookup? ==> th.call.Rotate? || th.call.RenewSession?)
    && (th.pc.Issue? ==> th.call.Login? || th.call.SessionLogin? || th.call.Rotate? || th.call.RenewSession?)
    && (th.pc.IssueSecond? ==> th.call.SessionLogin?)
    && (th.pc.Deactivate? || th.pc.FirstSweep? || th.pc.Wipe? || th.pc.SecondSweep? ==> th.call.Delete?)
    && (th.pc.FirstSweep? || th.pc.Wipe? || th.pc.SecondSweep? ==> !Active(s.users, th.call.user))
    && (th.call.Rotate? && (th.pc.ClaimRow? || Rotating(th)) ==>
          th.call.jti < |s.rows| && s.minted[th.call.jti].kind == Refresh)
    && (th.pc.CheckLive? || (th.pc.Lookup? && th.call.RenewSession?) ==>
          (th.call.RenewSession? || th.call.Cookie?) && th.call.jti < |s.rows|)
    && (th.pc.CheckActive? ==> UserOf(s, th.call).Some?)
    && (th.pc.Issue? || th.pc.IssueSecond? || th.pc == Done(Admitted) ==> UserOf(s, th.call).Some?)
    && (Rotating(th) ==>
          && s.rows[th.call.jti].revokedAt.Some?
          && forall i :: 0 <= i < |s.rows| ==> s.minted[i].parent != Some(th.call.jti))
    && (th.call.Rotate? && th.pc.Done? && th.pc.outcome.Issued? ==>
          var r := th.pc.outcome.row;
          r < |s.rows| && s.minted[r].parent == Some(th.call.jti) && s.minted[r].issuer == t)
  }

  ghost predicate OneHolder(s: State) {
    forall h, k, family: nat :: Holds(s, h, family) && Holds(s, k, family) ==> h == k
  }

  ghost predicate OneSuccessor(s: State)
  {
    forall i, j :: 0 <= i < j < |s.minted| && s.minted[i].parent.Some? ==> s.minted[i].parent != s.minted[j].parent
  }

  ghost predicate Inv(s: State) {
    && |s.minted| == |s.rows|
    && (forall i :: 0 <= i < |s.rows| ==> ChainOk(s, i))
    && (forall t :: 0 <= t < |s.threads| ==> ThreadOk(s, t))
    && OneHolder(s) && OneSuccessor(s)
  }

  /** Rows keep their user and, once revoked, stay revoked; what was signed stays signed. */
  ghost predicate Later(s: State, after: State) {
    && |s.rows| <= |after.rows| && |s.minted| <= |after.minted| && after.minted[..|s.minted|] == s.minted
    && |after.threads| == |s.threads|
    && (forall i :: 0 <= i < |s.rows| ==>
          after.rows[i].user == s.rows[i].user && (s.rows[i].revokedAt.Some? ==> after.rows[i].revokedAt.Some?))
    && (forall u :: u in s.users ==> u in after.users && (s.users[u] ==> after.users[u]))
  }

  /** A step that mints nothing: it moves thread `t`, revokes rows and deactivates users. */
  ghost predicate MintsNothing(s: State, t: nat, after: State) {
    && t < |s.threads| && after.minted == s.minted && |after.rows| == |s.rows| && Later(s, after)
    && (forall u :: u in after.users && !after.users[u] ==> u in s.users && !s.users[u])
    && after.threads == s.threads[t := s.threads[t].(pc := after.threads[t].pc)]
  }

  lemma ThreadStaysOk(s: State, after: State, o: nat)
    requires |s.minted| == |s.rows| && |after.minted| == |after.rows| && Later(s, after)
    requires o < |s.threads| && ThreadOk(s, o) && after.threads[o] == s.threads[o]
    requires forall u :: u in after.users && !after.users[u] ==> u in s.users && !s.users[u]
    requires Rotating(s.threads[o]) ==>
               forall i :: |s.rows| <= i < |after.rows| ==> after.minted[i].parent != Some(s.threads[o].call.jti)
    ensures ThreadOk(after, o)
  {
    assert forall i :: 0 <= i < |s.minted| ==> after.minted[i] == s.minted[i];
  }

  lemma ChainStaysOk(s: State, after: State, i: nat)
    requires |s.minted| == |s.rows| && |after.minted| == |after.rows| && Later(s, after)
    requires i < |s.rows| && ChainOk(s, i)
    requires s.minted[i].parent.Some? ==> s.minted[i].parent.value < |s.rows|
    ensures ChainOk(after, i)
  {
    assert forall j :: 0 <= j < |s.minted| ==> after.minted[j] == s.minted[j];
  }

  /** Keeping the invariant when nothing is minted and no thread starts rotating. */
  lemma QuietKeepsInv(s: State, t: nat, after: State)
    requires Inv(s) && MintsNothing(s, t, after)
    requires Rotating(after.threads[t]) ==> Rotating(s.threads[t])
    requires ThreadOk(after, t)
    ensures Inv(after)
  {
    forall o | 0 <= o < |after.threads|
      ensures ThreadOk(after, o)
    {
      if o != t { ThreadStaysOk(s, after, o); }
    }
    forall i | 0 <= i < |after.rows|
      ensures ChainOk(after, i)
    {
      ChainStaysOk(s, after, i);
    }
    forall h, k, family: nat | Holds(after, h, family) && Holds(after, k, family)
      ensures h == k
    {
      assert Holds(s, h, family) && Holds(s, k, family);
    }
  }

  /** Claiming passes the family from the live row to the claiming thread. */
  lemma ClaimKeepsInv(c: Ttls, s: State, t: nat)
    requires Inv(s) && t < |s.threads| && s.threads[t].pc.ClaimRow? && Next(c, s, t).Some?
    requires Next(c, s, t).value.threads[t].pc.Lookup?
    ensures Inv(Next(c, s, t).value)
  {
    var after, jti := Next(c, s, t).value, s.threads[t].call.jti;
    assert ThreadOk(s, t);
    assert after.rows == s.rows[jti := Revoked(s.rows[jti], s.now)];
    forall i | 0 <= i < |s.rows|
      ensures s.minted[i].parent != Some(jti)
    {
      assert ChainOk(s, i);
    }
    forall o | 0 <= o < |after.threads|
      ensures ThreadOk(after, o)
    {
      if o != t { ThreadStaysOk(s, after, o); }
    }
    forall i | 0 <= i < |after.rows|
      ensures ChainOk(after, i)
    {
      ChainStaysOk(s, after, i);
    }
    forall h, k, family: nat | Holds(after, h, family) && Holds(after, k, family)
      ensures h == k
    {
      var h0 := if h == OfThread(t) then OfRow(jti) else h;
      var k0 := if k == OfThread(t) then OfRow(jti) else k;
      assert Holds(s, h0, family) && Holds(s, k0, family);
      assert !Holds(after, OfRow(jti), family);
    }
  }

  lemma MintedThreadOk(c: Ttls, s: State, t: nat)
    requires Inv(s) && Issuing(s, t) && Next(c, s, t).Some?
    ensures ThreadOk(Next(c, s, t).value, t)
  {
    assert ThreadOk(s, t);
  }

  lemma MintedChainOk(c: Ttls, s: State, t: nat)
    requires Inv(s) && Issuing(s, t) && Next(c, s, t).Some?
    ensures var after := Next(c, s, t).value; |after.rows| == |s.rows| + 1 && ChainOk(after, |s.rows|)
  {
    assert ThreadOk(s, t);
    if s.threads[t].call.Rotate? { assert ChainOk(s, s.threads[t].call.jti); }
  }

  predicate Issuing(s: State, t: nat) {
    t < |s.threads| && (s.threads[t].pc.Issue? || s.threads[t].pc.IssueSecond?)
  }

  lemma RotatedHolder(c: Ttls, s: State, t: nat, h: Holder, family: nat)
    requires Inv(s) && Issuing(s, t) && s.threads[t].call.Rotate? && Next(c, s, t).Some?
    requires Holds(Next(c, s, t).value, h, family)
    ensures h != OfThread(t) && Holds(s, if h == OfRow(|s.rows|) then OfThread(t) else h, family)
  {
    assert ThreadOk(s, t);
    if h.OfThread? && h.t < |s.threads| && h.t != t && Rotating(s.threads[h.t]) { assert ThreadOk(s, h.t); }
  }

  lemma FreshHolder(c: Ttls, s: State, t: nat, h: Holder, family: nat)
    requires Inv(s) && Issuing(s, t) && !s.threads[t].call.Rotate? && Next(c, s, t).Some?
    requires Holds(Next(c, s, t).value, h, family)
    ensures if h == OfRow(|s.rows|) then family == |s.rows| else Holds(s, h, family) && family < |s.rows|
  {
    assert ThreadOk(s, t);
    if h.OfThread? && h.t < |s.threads| && h.t != t && Rotating(s.threads[h.t]) { assert ThreadOk(s, h.t); }
    HeldIsOld(s, h, family);
  }

  /** Issuing passes the family from the rotating thread to its successor; a login opens a new one. */
  lemma IssueKeepsOneHolder(c: Ttls, s: State, t: nat)
    requires Inv(s) && Issuing(s, t) && Next(c, s, t).Some?
    ensures OneHolder(Next(c, s, t).value)
  {
    forall h, k, family: nat | Holds(Next(c, s, t).value, h, family) && Holds(Next(c, s, t).value, k, family)
      ensures h == k
    {
      if s.threads[t].call.Rotate? {
        RotatedHolder(c, s, t, h, family);
        RotatedHolder(c, s, t, k, family);
      } else {
        FreshHolder(c, s, t, h, family);
        FreshHolder(c, s, t, k, family);
      }
    }
  }

  lemma HeldIsOld(s: State, h: Holder, family: nat)
    requires Inv(s)
    ensures Holds(s, h, family) ==> family < |s.rows|
  {
    match h {
      case OfRow(i) => if i < |s.rows| { assert ChainOk(s, i); }
      case OfThread(t) =>
        if t < |s.threads| && Rotating(s.threads[t]) && s.threads[t].call.jti < |s.minted| {
          assert ChainOk(s, s.threads[t].call.jti);
        }
    }
  }

  lemma IssueKeepsOneSuccessor(c: Ttls, s: State, t: nat)
    requires Inv(s) && Issuing(s, t) && Next(c, s, t).Some?
    ensures OneSuccessor(Next(c, s, t).value)
  {
    var after := Next(c, s, t).value;
    assert ThreadOk(s, t);
    forall i, j | 0 <= i < j < |after.minted| && after.minted[i].parent.Some?
      ensures after.minted[i].parent != after.minted[j].parent
    {
      assert after.minted[i] == s.minted[i];
      if j < |s.minted| { assert after.minted[j] == s.minted[j]; }
    }
  }

  /** A thread rotating another token keeps its claim: the new row is not its token's successor. */
  lemma OthersKeepClaims(c: Ttls, s: State, t: nat, o: nat)
    requires Inv(s) && Issuing(s, t) && Next(c, s, t).Some?
    requires o < |s.threads| && o != t && Rotating(s.threads[o])
    ensures var after := Next(c, s, t).value; after.minted[|s.rows|].parent != Some(s.threads[o].call.jti)
  {
    assert ThreadOk(s, t) && ThreadOk(s, o);
    if s.threads[t].call.Rotate? && s.threads[t].call.jti == s.threads[o].call.jti {
      var family := s.minted[s.threads[t].call.jti].family;
      assert Holds(s, OfThread(t), family) && Holds(s, OfThread(o), family);
    }
  }

  lemma IssueKeepsInv(c: Ttls, s: State, t: nat)
    requires Inv(s) && Issuing(s, t) && Next(c, s, t).Some?
    ensures Inv(Next(c, s, t).value)
  {
    var after := Next(c, s, t).value;
    MintedThreadOk(c, s, t);
    MintedChainOk(c, s, t);
    IssueKeepsOneHolder(c, s, t);
    IssueKeepsOneSuccessor(c, s, t);
    forall o | 0 <= o < |after.threads|
      ensures ThreadOk(after, o)
    {
      if o != t {
        if Rotating(s.threads[o]) { OthersKeepClaims(c, s, t, o); }
        ThreadStaysOk(s, after, o);
      }
    }
    forall i | 0 <= i < |after.rows|
      ensures ChainOk(after, i)
    {
      if i < |s.rows| {
        assert ChainOk(s, i);
        ChainStaysOk(s, after, i);
      }
    }
  }

  lemma OtherStepsKeepInv(c: Ttls, s: State, t: nat)
    requires Inv(s) && t < |s.threads| && Next(c, s, t).Some?
    requires !Issuing(s, t)
    requires !(s.threads[t].pc.ClaimRow? && Next(c, s, t).value.threads[t].pc.Lookup?)
    ensures Inv(Next(c, s, t).value)
  {
    var after := Next(c, s, t).value;
    assert ThreadOk(s, t);
    QuietKeepsInv(s, t, after);
  }

  lemma ApplyKeepsInv(c: Ttls, s: State, e: Event)
    requires Inv(s) && Apply(c, s, e).Some?
    ensures Inv(Apply(c, s, e).value)
  {
    var after := Apply(c, s, e).value;
    match e {
      case Step(t) =>
        if Issuing(s, t) { IssueKeepsInv(c, s, t); }
        else if s.threads[t].pc.ClaimRow? && after.threads[t].pc.Lookup? { ClaimKeepsInv(c, s, t); }
        else { OtherStepsKeepInv(c, s, t); }
      case Fail(t) =>
        QuietKeepsInv(s, t, after);
      case Tick(_) =>
        assert forall t :: 0 <= t < |s.threads| ==> ThreadOk(s, t) ==> ThreadOk(after, t);
        assert forall i :: 0 <= i < |s.rows| ==> ChainOk(s, i) ==> ChainOk(after, i);
        assert forall h, f :: Holds(after, h, f) ==> Holds(s, h, f);
    }
  }

  lemma {:induction false} EveryRunKeepsInv(c: Ttls, s: State, events: seq<Event>)
    requires Inv(s) && Run(c, s, events).Some?
    ensures Inv(Run(c, s, events).value)
  {
    if events != [] {
      EveryRunKeepsInv(c, s, events[..|events| - 1]);
      ApplyKeepsInv(c, Run(c, s, events[..|events| - 1]).value, events[|events| - 1]);
    }
  }

  lemma InitialInv(users: map<Text, bool>, calls: seq<Call>, now: int)
    ensures Inv(Initial(users, calls, now))
  {
  }

  /**
    In every run a refresh token has at most one successor, of all the requests presenting it at most
    one is answered with a pair, and a login's chain of rotations never holds two live tokens.
  */
  lemma EveryRunRotatesOnce(c: Ttls, users: map<Text, bool>, calls: seq<Call>, now: int, events: seq<Event>)
    requires Run(c, Initial(users, calls, now), events).Some?
    ensures var s := Run(c, Initial(users, calls, now), events).value;
            && |s.minted| == |s.rows|
            && (forall i, j | 0 <= i < |s.rows| && 0 <= j < |s.rows| && s.minted[i].parent.Some?
                  :: s.minted[i].parent == s.minted[j].parent ==> i == j)
            && (forall a, b | 0 <= a < |s.threads| && 0 <= b < |s.threads| && Answered(s.threads[a]) && Answered(s.threads[b])
                  :: s.threads[a].call == s.threads[b].call ==> a == b)
            && (forall i, j | 0 <= i < |s.rows| && 0 <= j < |s.rows| && LiveRefresh(s, i) && LiveRefresh(s, j)
                  :: s.minted[i].family == s.minted[j].family ==> i == j)
  {
    InitialInv(users, calls, now);
    EveryRunKeepsInv(c, Initial(users, calls, now), events);
    var s := Run(c, Initial(users, calls, now), events).value;
    forall a, b | 0 <= a < |s.threads| && 0 <= b < |s.threads| && Answered(s.threads[a]) && Answered(s.threads[b])
                  && s.threads[a].call == s.threads[b].call
      ensures a == b
    {
      assert ThreadOk(s, a) && ThreadOk(s, b);
      var ra, rb := s.threads[a].pc.outcome.row, s.threads[b].pc.outcome.row;
      assert ra == rb;
    }
    forall i, j | 0 <= i < |s.rows| && 0 <= j < |s.rows| && LiveRefresh(s, i) && LiveRefresh(s, j)
                  && s.minted[i].family == s.minted[j].family
      ensures i == j
    {
      assert Holds(s, OfRow(i), s.minted[i].family) && Holds(s, OfRow(j), s.minted[i].family);
    }
  }

  predicate LiveRefresh(s: State, i: nat)
    requires |s.minted| == |s.rows|
  {
    i < |s.rows| && s.minted[i].kind == Refresh && s.rows[i].revokedAt.None?
  }

  /** A rotation answered with a pair. */
  predicate Answered(th: Thread) { th.call.Rotate? && th.pc.Done? && th.pc.outcome.Issued? }

  // ---- deactivation -------------------------------------------------------------------------

  predicate Deactivated(s: State, user: Text) { user in s.users && s.users[user] }

  /** About to issue for the user, having read the account as active. */
  predicate InFlight(s: State, t: nat, user: Text) { Issuing(s, t) && UserOf(s, s.threads[t].call) == Some(user) }

  predicate LetIn(s: State, t: nat, user: Text) {
    t < |s.threads| && s.threads[t].pc == Done(Admitted) && UserOf(s, s.threads[t].call) == Some(user)
  }

  /** What happens from a state in which the user is deactivated: only what was in flight then still issues. */
  ghost predicate OnlyInFlight(s: State, after: State, user: Text) {
    && Later(s, after) && |after.minted| == |after.rows|
    && Deactivated(after, user)
    && (forall t :: InFlight(after, t, user) ==> InFlight(s, t, user))
    && (forall t :: LetIn(after, t, user) ==> LetIn(s, t, user))
    && (forall i :: |s.rows| <= i < |after.rows| && after.rows[i].user == user ==> InFlight(s, after.minted[i].issuer, user))
  }

  lemma NewStateIsLater(s: State, t: nat, user: Text, ttl: nat, kind: Kind, parent: Option<nat>, pc: Pc)
    requires Inv(s) && t < |s.threads|
    ensures Later(s, Minting(s, t, user, ttl, kind, parent, pc))
  {
  }

  lemma StepIsLater(c: Ttls, s: State, e: Event)
    requires Inv(s) && Apply(c, s, e).Some?
    ensures Later(s, Apply(c, s, e).value)
  {
    var after := Apply(c, s, e).value;
    if e.Step? && Issuing(s, e.t) {
      var call, done := s.threads[e.t].call, Done(Issued(|s.rows|));
      var user := UserOf(s, call).value;
      match call {
        case Login(_, _) => NewStateIsLater(s, e.t, user, c.refresh, Refresh, None, done);
        case Rotate(j) => NewStateIsLater(s, e.t, user, c.refresh, Refresh, Some(j), done);
        case SessionLogin(_, _, more) =>
          NewStateIsLater(s, e.t, user, c.session, Session, None, if more then IssueSecond else done);
          NewStateIsLater(s, e.t, user, c.sessionRefresh, SessionRefresh, None, done);
        case RenewSession(_) => NewStateIsLater(s, e.t, user, c.session, Session, None, done);
        case _ =>
      }
    } else if e.Step? {
      QuietStepIsLater(c, s, e.t);
    }
  }

  lemma QuietStepIsLater(c: Ttls, s: State, t: nat)
    requires Inv(s) && t < |s.threads| && !Issuing(s, t) && Next(c, s, t).Some?
    ensures var after := Next(c, s, t).value; Later(s, after) && |after.rows| == |s.rows| && after.minted == s.minted
  {
    assert ThreadOk(s, t);
  }

  /** A row minted by a step names the thread that took it, which was in flight for the row's user. */
  lemma MintedInFlight(c: Ttls, s: State, e: Event)
    requires Inv(s) && Apply(c, s, e).Some?
    ensures var after := Apply(c, s, e).value;
            forall i | |s.rows| <= i < |after.rows| :: i < |after.minted| && InFlight(s, after.minted[i].issuer, after.rows[i].user)
  {
    if e.Step? && !Issuing(s, e.t) { QuietStepIsLater(c, s, e.t); }
    if e.Step? && Issuing(s, e.t) { assert ThreadOk(s, e.t); }
  }

  /** A thread that does not move is in flight or let in as it was. */
  lemma StandingStill(s: State, after: State, user: Text, t: nat)
    requires Inv(s) && Later(s, after) && t < |s.threads| && after.threads[t] == s.threads[t]
    ensures InFlight(after, t, user) ==> InFlight(s, t, user)
    ensures LetIn(after, t, user) ==> LetIn(s, t, user)
  {
    assert ThreadOk(s, t);
  }

  /** A thread's step does not put it in flight for, nor let it in as, a deactivated user. */
  lemma QuietNotInFlight(c: Ttls, s: State, t: nat, user: Text)
    requires Inv(s) && t < |s.threads| && Next(c, s, t).Some? && Deactivated(s, user) && !Issuing(s, t)
    ensures !InFlight(Next(c, s, t).value, t, user) && !LetIn(Next(c, s, t).value, t, user)
  {
    assert ThreadOk(s, t);
    QuietStepIsLater(c, s, t);
    SameSubject(s, Next(c, s, t).value, s.threads[t].call);
  }

  lemma SameSubject(s: State, after: State, call: Call)
    requires Later(s, after) && |after.rows| == |s.rows|
    ensures UserOf(after, call) == UserOf(s, call)
  {
  }

  lemma IssuerWasInFlight(c: Ttls, s: State, t: nat, user: Text)
    requires Inv(s) && Issuing(s, t) && Next(c, s, t).Some?
    ensures InFlight(Next(c, s, t).value, t, user) ==> InFlight(s, t, user)
    ensures !LetIn(Next(c, s, t).value, t, user)
  {
    assert ThreadOk(s, t);
  }

  lemma NoneNewlyInFlight(c: Ttls, s: State, e: Event, user: Text, t: nat)
    requires Inv(s) && Apply(c, s, e).Some? && Deactivated(s, user)
    requires Later(s, Apply(c, s, e).value)
    ensures InFlight(Apply(c, s, e).value, t, user) ==> InFlight(s, t, user)
    ensures LetIn(Apply(c, s, e).value, t, user) ==> LetIn(s, t, user)
  {
    var after := Apply(c, s, e).value;
    if t < |s.threads| {
      if e.Step? && e.t == t {
        if Issuing(s, t) { IssuerWasInFlight(c, s, t, user); } else { QuietNotInFlight(c, s, t, user); }
      } else if !(e.Fail? && e.t == t) {
        StepMovesOne(c, s, e, t);
        StandingStill(s, after, user, t);
      }
    }
  }

  lemma StepMovesOne(c: Ttls, s: State, e: Event, t: nat)
    requires Apply(c, s, e).Some? && t < |s.threads| && (e.Tick? || e.t != t)
    ensures |Apply(c, s, e).value.threads| == |s.threads| && Apply(c, s, e).value.threads[t] == s.threads[t]
  {
  }

  lemma StepOnlyInFlight(c: Ttls, s: State, e: Event, user: Text)
    requires Inv(s) && Apply(c, s, e).Some? && Deactivated(s, user)
    ensures OnlyInFlight(s, Apply(c, s, e).value, user)
  {
    StepIsLater(c, s, e);
    ApplyKeepsInv(c, s, e);
    MintedInFlight(c, s, e);
    forall t
      ensures InFlight(Apply(c, s, e).value, t, user) ==> InFlight(s, t, user)
      ensures LetIn(Apply(c, s, e).value, t, user) ==> LetIn(s, t, user)
    {
      NoneNewlyInFlight(c, s, e, user, t);
    }
  }

  lemma LaterTwice(s: State, mid: State, after: State)
    requires Later(s, mid) && Later(mid, after)
    ensures Later(s, after)
  {
  }

  lemma OnlyInFlightTwice(s: State, mid: State, after: State, user: Text)
    requires OnlyInFlight(s, mid, user) && OnlyInFlight(mid, after, user)
    ensures OnlyInFlight(s, after, user)
  {
    LaterTwice(s, mid, after);
    forall i | |s.rows| <= i < |after.rows| && after.rows[i].user == user
      ensures InFlight(s, after.minted[i].issuer, user)
    {
      if i < |mid.rows| { assert after.minted[i] == mid.minted[i]; }
    }
  }

  /**
    Once an account is deactivated, whatever runs next: no request that had not read it before issues
    anything for it, and no guard check lets it in that had not already.
  */
  lemma {:induction false} DeactivationHolds(c: Ttls, s: State, events: seq<Event>, user: Text)
    requires Inv(s) && Deactivated(s, user) && Run(c, s, events).Some?
    ensures OnlyInFlight(s, Run(c, s, events).value, user)
  {
    if events != [] {
      var front := events[..|events| - 1];
      DeactivationHolds(c, s, front, user);
      EveryRunKeepsInv(c, s, front);
      var mid := Run(c, s, front).value;
      StepOnlyInFlight(c, mid, events[|events| - 1], user);
      OnlyInFlightTwice(s, mid, Run(c, s, events).value, user);
    }
  }

  /** The step by which a deletion of the user revokes its records for the second time. */
  predicate SweepsSecond(s: State, t: nat, user: Text) {
    t < |s.threads| && s.threads[t].call == Delete(user) && s.threads[t].pc.SecondSweep?
  }

  lemma SweepRevokesAll(c: Ttls, s: State, t: nat, user: Text)
    requires Inv(s) && SweepsSecond(s, t, user)
    ensures Next(c, s, t).Some?
    ensures var after := Next(c, s, t).value;
            && |after.rows| == |s.rows|
            && forall i | 0 <= i < |after.rows| && after.rows[i].user == user :: after.rows[i].revokedAt.Some?
  {
  }

  /**
    A record of a deleted user that is live after the second sweep was issued after that sweep, by a
    request that was in flight at the sweep and already when the account was deactivated.
  */
  lemma SurvivorsWereInFlight(c: Ttls, s0: State, before: seq<Event>, t: nat, later: seq<Event>, user: Text)
    requires Inv(s0) && Deactivated(s0, user)
    requires Run(c, s0, before).Some? && SweepsSecond(Run(c, s0, before).value, t, user)
    requires Next(c, Run(c, s0, before).value, t).Some?
    requires Run(c, Next(c, Run(c, s0, before).value, t).value, later).Some?
    ensures var s1 := Run(c, s0, before).value; var s2 := Next(c, s1, t).value; var s3 := Run(c, s2, later).value;
            forall i | 0 <= i < |s3.rows| && s3.rows[i].user == user && s3.rows[i].revokedAt.None? ::
              && |s2.rows| <= i < |s3.minted|
              && InFlight(s2, s3.minted[i].issuer, user) && InFlight(s1, s3.minted[i].issuer, user)
              && InFlight(s0, s3.minted[i].issuer, user)
  {
    var s1 := Run(c, s0, before).value;
    var s2 := Next(c, s1, t).value;
    EveryRunKeepsInv(c, s0, before);
    DeactivationHolds(c, s0, before, user);
    StepOnlyInFlight(c, s1, Step(t), user);
    ApplyKeepsInv(c, s1, Step(t));
    SweepRevokesAll(c, s1, t, user);
    DeactivationHolds(c, s2, later, user);
  }

  predicate HasLiveRow(s: State, user: Text) {
    exists i :: 0 <= i < |s.rows| && s.rows[i].user == user && Live(s.rows[i], s.now)
  }

  /** Some continuation of the run leaves a live record of the user. */
  ghost predicate CanHaveLiveRow(c: Ttls, s: State, user: Text) {
    exists events :: Run(c, s, events).Some? && HasLiveRow(Run(c, s, events).value, user)
  }

  /** A request in flight needs one step to mint a live record. */
  lemma InFlightMints(c: Ttls, s: State, o: nat, user: Text)
    requires Inv(s) && InFlight(s, o, user)
    ensures Run(c, s, [Step(o)]).Some? && HasLiveRow(Run(c, s, [Step(o)]).value, user)
  {
    assert ThreadOk(s, o);
    assert [Step(o)] == [] + [Step(o)];
    RunPush(c, s, [], s, Step(o));
    var after := Next(c, s, o).value;
    var last := |s.rows|;
    assert after.rows[last].user == user && Live(after.rows[last], after.now);
  }

  /**
    Exactly when a request is in flight for the deleted user at the second sweep does some continuation
    leave a live record behind.
  */
  lemma SurvivorIffInFlight(c: Ttls, s: State, t: nat, user: Text)
    requires Inv(s) && Deactivated(s, user) && SweepsSecond(s, t, user)
    ensures Next(c, s, t).Some?
    ensures var swept := Next(c, s, t).value;
            CanHaveLiveRow(c, swept, user) <==> exists o :: InFlight(swept, o, user)
  {
    var swept := Next(c, s, t).value;
    ApplyKeepsInv(c, s, Step(t));
    SweepRevokesAll(c, s, t, user);
    if o :| InFlight(swept, o, user) { InFlightMints(c, swept, o, user); }
    if events :| Run(c, swept, events).Some? && HasLiveRow(Run(c, swept, events).value, user) {
      var end := Run(c, swept, events).value;
      DeactivationHolds(c, swept, events, user);
      var i :| 0 <= i < |end.rows| && end.rows[i].user == user && Live(end.rows[i], end.now);
      StaysRevoked(c, swept, events, user, i);
    }
  }

  /** A record older than the sweep is still revoked. */
  lemma StaysRevoked(c: Ttls, swept: State, events: seq<Event>, user: Text, i: nat)
    requires Run(c, swept, events).Some? && OnlyInFlight(swept, Run(c, swept, events).value, user)
    requires forall j | 0 <= j < |swept.rows| && swept.rows[j].user == user :: swept.rows[j].revokedAt.Some?
    requires i < |Run(c, swept, events).value.rows|
    requires Run(c, swept, events).value.rows[i].user == user && Run(c, swept, events).value.rows[i].revokedAt.None?
    ensures exists o :: InFlight(swept, o, user)
  {
    var end := Run(c, swept, events).value;
    assert i >= |swept.rows|;
    assert InFlight(swept, end.minted[i].issuer, user);
  }

  /** A deletion that passed its first statement has deactivated its account. */
  lemma DeletionDeactivates(c: Ttls, s: State, t: nat)
    requires Inv(s) && t < |s.threads| && s.threads[t].pc.Deactivate?
    ensures s.threads[t].call.Delete? && Next(c, s, t).Some?
    ensures Deactivated(Next(c, s, t).value, s.threads[t].call.user)
  {
    assert ThreadOk(s, t);
  }

  // ---- a survivor ---------------------------------------------------------------------------

  lemma RunPush(c: Ttls, s: State, events: seq<Event>, mid: State, e: Event)
    requires Run(c, s, events) == Some(mid)
    ensures Run(c, s, events + [e]) == Apply(c, mid, e)
  {
    assert (events + [e])[..|events|] == events;
  }

  lemma MovedPair(s: State, a: Thread, b: Thread, pc: Pc)
    requires s.threads == [a, b]
    ensures Moved(s, 0, pc).threads == [a.(pc := pc), b] && Moved(s, 1, pc).threads == [a, b.(pc := pc)]
  {
  }

  /** Such survivors exist: a login slow enough outlives both sweeps with a live record of a deleted user. */
  lemma RecordOutlivesDeletion(c: Ttls, user: Text, now: int) returns (events: seq<Event>)
    ensures var run := Run(c, Initial(map[user := false], [Login(user, true), Delete(user)], now), events);
            && run.Some? && run.value.threads == [Thread(Login(user, true), Done(Issued(0))), Thread(Delete(user), Done(Deleted))]
            && run.value.rows == [Row(user, now + c.refresh, None)] && Deactivated(run.value, user)
  {
    var a, b := Login(user, true), Delete(user);
    var s0 := Initial(map[user := false], [a, b], now);
    assert s0.threads == [Thread(a, Start), Thread(b, Start)];
    MovedPair(s0, Thread(a, Start), Thread(b, Start), Issue);
    var s1 := Moved(s0, 0, Issue);
    RunPush(c, s0, [], s0, Step(0));
    MovedPair(s1, Thread(a, Issue), Thread(b, Start), Deactivate);
    var s2 := Moved(s1, 1, Deactivate);
    events := [] + [Step(0)];
    RunPush(c, s0, events, s1, Step(1));
    MovedPair(s2, Thread(a, Issue), Thread(b, Deactivate), FirstSweep);
    var s3 := Moved(s2, 1, FirstSweep).(users := s2.users[user := true]);
    events := events + [Step(1)];
    RunPush(c, s0, events, s2, Step(1));
    MovedPair(s3, Thread(a, Issue), Thread(b, FirstSweep), Wipe);
    var s4 := Moved(s3, 1, Wipe).(rows := []);
    events := events + [Step(1)];
    RunPush(c, s0, events, s3, Step(1));
    MovedPair(s4, Thread(a, Issue), Thread(b, Wipe), SecondSweep);
    var s5 := Moved(s4, 1, SecondSweep);
    events := events + [Step(1)];
    RunPush(c, s0, events, s4, Step(1));
    MovedPair(s5, Thread(a, Issue), Thread(b, SecondSweep), Done(Deleted));
    var s6 := Moved(s5, 1, Done(Deleted)).(rows := []);
    events := events + [Step(1)];
    RunPush(c, s0, events, s5, Step(1));
    MovedPair(s6, Thread(a, Issue), Thread(b, Done(Deleted)), Done(Issued(0)));
    events := events + [Step(1)];
    RunPush(c, s0, events, s6, Step(0));
    events := events + [Step(0)];
  }
}
