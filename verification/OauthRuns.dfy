/**
  Consents, code exchanges and refreshes in any interleaving: a handler runs in one piece up to its
  next await, and any other handler may run there (apiV2/src/oauth/oauth-code.service.ts).
*/
module OauthRuns {
  import opened Wrappers
  import opened Bytes
  import opened Oauth

  datatype Call = Consent(form: Form) | Exchange(dto: TokenRequest) | Refresh(dto: TokenRequest)

  datatype Outcome = Code(code: nat) | Denied | Token(grant: Grant, refresh: nat) | Refused

  datatype Pc =
    | Start
    | PutCode                    // credentials checked, the code not yet in the map
    | Lookup(grant: Grant)       // the code or token is spent, the user not yet read
    | PutToken(grant: Grant)
    | Done(outcome: Outcome)

  datatype Thread = Thread(call: Call, pc: Pc)

  /** Every secret drawn so far is below `drawn`. */
  datatype State = State(users: map<Text, bool>, codes: map<nat, IssuedCode>, tokens: map<nat, Grant>, drawn: nat,
                         threads: seq<Thread>, now: int)

  function Initial(users: map<Text, bool>, calls: seq<Call>, now: int): State {
    State(users, map[], map[], 0, seq(|calls|, i requires 0 <= i < |calls| => Thread(calls[i], Start)), now)
  }

  function Moved(s: State, t: nat, pc: Pc): State
    requires t < |s.threads|
  {
    s.(threads := s.threads[t := s.threads[t].(pc := pc)])
  }

  function Taken(taken: Result<Grant, Error>): Pc {
    match taken case Ok(grant) => Lookup(grant) case Err(_) => Done(Refused)
  }

  function StartStep(c: Config, s: State, t: nat): State
    requires t < |s.threads|
  {
    match s.threads[t].call
    case Consent(form) =>
      if Validate(c, form).Err? then Moved(s, t, Done(Refused))
      else if form.denied then Moved(s, t, Done(Outcome.Denied))
      else Moved(s, t, if form.validCredentials && Active(s.users, form.user) then PutCode else Done(Refused))
    case Exchange(dto) =>
      var (rest, taken) := TakeCode(c, s.codes, dto, s.now);
      Moved(s, t, Taken(taken)).(codes := rest)
    case Refresh(dto) =>
      var (rest, taken) := TakeRefresh(s.tokens, dto);
      Moved(s, t, Taken(taken)).(tokens := rest)
  }

  function Next(c: Config, s: State, t: nat): Option<State>
    requires t < |s.threads|
  {
    match s.threads[t].pc
    case Start => Some(StartStep(c, s, t))
    case PutCode =>
      if !s.threads[t].call.Consent? || Validate(c, s.threads[t].call.form).Err? then None
      else
        var form := s.threads[t].call.form;
        var entry := CodeFor(Validate(c, form).value, form.user, t, s.now);
        Some(Moved(s, t, Done(Code(s.drawn))).(codes := s.codes[s.drawn := entry], drawn := s.drawn + 1))
    case Lookup(grant) => Some(Moved(s, t, if Active(s.users, grant.user) then PutToken(grant) else Done(Refused)))
    case PutToken(grant) =>
      Some(Moved(s, t, Done(Token(grant, s.drawn))).(tokens := s.tokens[s.drawn := grant], drawn := s.drawn + 1))
    case Done(_) => None
  }

  datatype Event = Step(t: nat) | Fail(t: nat) | Tick(millis: nat) | SetUser(user: Text, deactivated: bool)

  function Apply(c: Config, s: State, e: Event): Option<State> {
    match e
    case Step(t) => if t < |s.threads| then Next(c, s, t) else None
    case Fail(t) => if t < |s.threads| && !s.threads[t].pc.Done? then Some(Moved(s, t, Done(Refused))) else None
    case Tick(d) => Some(s.(now := s.now + d))
    case SetUser(user, deactivated) => Some(s.(users := s.users[user := deactivated]))
  }

  function Run(c: Config, s: State, events: seq<Event>): Option<State> {
    if events == [] then Some(s)
    else
      var before :- Run(c, s, events[..|events| - 1]);
      Apply(c, before, events[|events| - 1])
  }

  // ---- tracing ------------------------------------------------------------------------------

  /** The grant is what some finished consent allowed. */
  ghost predicate Traces(c: Config, s: State, grant: Grant) {
    && grant.consent < |s.threads|
    && var th := s.threads[grant.consent];
       && th.call.Consent? && th.pc.Done? && th.pc.outcome.Code?
       && !th.call.form.denied && th.call.form.validCredentials
       && Validate(c, th.call.form).Ok?
       && var request := Validate(c, th.call.form).value;
          grant == Grant(th.call.form.user, request.clientId, request.scope, grant.consent)
  }

  /** The consented redirect and challenge. */
  ghost predicate Bound(c: Config, s: State, grant: Grant, redirectUri: Text, challenge: Text)
    requires Traces(c, s, grant)
  {
    var request := Validate(c, s.threads[grant.consent].call.form).value;
    redirectUri == request.redirectUri && challenge == request.challenge
  }

  /** What the request showed for the grant: an exchange matches redirect and challenge, both name the client. */
  ghost predicate Earned(c: Config, s: State, call: Call, grant: Grant) {
    && Traces(c, s, grant)
    && match call
       case Consent(_) => false
       case Exchange(dto) =>
         && dto.code.Some? && dto.clientId == Some(grant.clientId) && dto.redirectUri.Some?
         && Bound(c, s, grant, dto.redirectUri.value, c.s256(OrEmpty(dto.verifier)))
       case Refresh(dto) => dto.refreshToken.Some? && dto.clientId == Some(grant.clientId)
  }

  function GrantOf(th: Thread): Option<Grant> {
    match th.pc
    case Lookup(grant) => Some(grant)
    case PutToken(grant) => Some(grant)
    case Done(Token(grant, _)) => Some(grant)
    case _ => None
  }

  /** Who can still turn a consent into a token: its code, a request between its awaits, or its refresh token. */
  datatype Holder = OfCode(code: nat) | OfThread(t: nat) | OfToken(token: nat)

  predicate Holds(s: State, h: Holder, consent: nat) {
    match h
    case OfCode(k) => k in s.codes && s.codes[k].grant.consent == consent
    case OfToken(k) => k in s.tokens && s.tokens[k].consent == consent
    case OfThread(t) =>
      t < |s.threads| && (s.threads[t].pc.Lookup? || s.threads[t].pc.PutToken?) && s.threads[t].pc.grant.consent == consent
  }

  /** An exchange that got past the code. */
  predicate Exchanged(th: Thread, code: nat) { th.call.Exchange? && th.call.dto.code == Some(code) && GrantOf(th).Some? }

  predicate Refreshed(th: Thread, token: nat) {
    th.call.Refresh? && th.call.dto.refreshToken == Some(token) && GrantOf(th).Some?
  }

  ghost predicate ThreadOk(c: Config, s: State, t: nat)
    requires t < |s.threads|
  {
    var th := s.threads[t];
    && (GrantOf(th).Some? ==> Earned(c, s, th.call, GrantOf(th).value))
    && (th.pc.PutCode? ==> th.call.Consent? && !th.call.form.denied && th.call.form.validCredentials
                           && Validate(c, th.call.form).Ok?)
    && (forall k: nat :: Exchanged(th, k) ==> k < s.drawn && k !in s.codes)
    && (forall k: nat :: Refreshed(th, k) ==> k < s.drawn && k !in s.tokens)
  }

  ghost predicate CodeOk(c: Config, s: State, k: nat)
    requires k in s.codes
  {
    && k < s.drawn && Traces(c, s, s.codes[k].grant)
    && Bound(c, s, s.codes[k].grant, s.codes[k].redirectUri, s.codes[k].challenge)
  }

  ghost predicate TokenOk(c: Config, s: State, k: nat)
    requires k in s.tokens
  {
    k < s.drawn && Traces(c, s, s.tokens[k])
  }

  ghost predicate SpentOnce(s: State) {
    && (forall t, u, k: nat :: 0 <= t < u < |s.threads| ==> !(Exchanged(s.threads[t], k) && Exchanged(s.threads[u], k)))
    && (forall t, u, k: nat :: 0 <= t < u < |s.threads| ==> !(Refreshed(s.threads[t], k) && Refreshed(s.threads[u], k)))
  }

  ghost predicate OneHolder(s: State) {
    forall h, k, consent: nat :: Holds(s, h, consent) && Holds(s, k, consent) ==> h == k
  }

  ghost predicate Inv(c: Config, s: State) {
    && (forall t :: 0 <= t < |s.threads| ==> ThreadOk(c, s, t))
    && (forall k :: k in s.codes ==> CodeOk(c, s, k))
    && (forall k :: k in s.tokens ==> TokenOk(c, s, k))
    && SpentOnce(s) && OneHolder(s)
  }

  // ---- the invariant is kept ----------------------------------------------------------------

  /** Thread `t` moved; entries were dropped, and at most the next secret was added. */
  ghost predicate Moves(s: State, t: nat, after: State) {
    && t < |s.threads| == |after.threads| && !s.threads[t].pc.Done?
    && after.threads == s.threads[t := s.threads[t].(pc := after.threads[t].pc)]
    && s.drawn <= after.drawn
    && (forall k :: k in after.codes ==> (k in s.codes && after.codes[k] == s.codes[k]) || s.drawn == k < after.drawn)
    && (forall k :: k in after.tokens ==> (k in s.tokens && after.tokens[k] == s.tokens[k]) || s.drawn == k < after.drawn)
  }

  lemma TracesStay(c: Config, s: State, t: nat, after: State, grant: Grant)
    requires Moves(s, t, after) && Traces(c, s, grant)
    ensures Traces(c, after, grant)
    ensures forall uri, challenge :: Bound(c, s, grant, uri, challenge) ==> Bound(c, after, grant, uri, challenge)
  {
  }

  lemma OthersStayOk(c: Config, s: State, t: nat, after: State, o: nat)
    requires Moves(s, t, after) && o < |s.threads| && o != t && ThreadOk(c, s, o)
    ensures ThreadOk(c, after, o)
  {
    var th := s.threads[o];
    if GrantOf(th).Some? { TracesStay(c, s, t, after, GrantOf(th).value); }
  }

  lemma EntriesStayOk(c: Config, s: State, t: nat, after: State)
    requires Moves(s, t, after)
    requires forall k :: k in s.codes ==> CodeOk(c, s, k)
    requires forall k :: k in s.tokens ==> TokenOk(c, s, k)
    ensures forall k :: k in after.codes && k in s.codes && after.codes[k] == s.codes[k] ==> CodeOk(c, after, k)
    ensures forall k :: k in after.tokens && k in s.tokens && after.tokens[k] == s.tokens[k] ==> TokenOk(c, after, k)
  {
    forall k | k in after.codes && k in s.codes && after.codes[k] == s.codes[k]
      ensures CodeOk(c, after, k)
    {
      assert CodeOk(c, s, k);
      TracesStay(c, s, t, after, s.codes[k].grant);
    }
    forall k | k in after.tokens && k in s.tokens && after.tokens[k] == s.tokens[k]
      ensures TokenOk(c, after, k)
    {
      assert TokenOk(c, s, k);
      TracesStay(c, s, t, after, s.tokens[k]);
    }
  }

  /** One holder hands over to another, or keeps what it has; nobody else gains anything. */
  lemma HandOver(s: State, after: State, from: Holder, to: Holder)
    requires OneHolder(s)
    requires forall h, consent: nat :: h != to && Holds(after, h, consent) ==> Holds(s, h, consent)
    requires forall consent: nat :: Holds(after, to, consent) ==> Holds(s, from, consent)
    requires forall consent: nat :: from != to ==> !Holds(after, from, consent)
    ensures OneHolder(after)
  {
    forall h, k, consent: nat | Holds(after, h, consent) && Holds(after, k, consent)
      ensures h == k
    {
      var h0 := if h == to then from else h;
      var k0 := if k == to then from else k;
      assert Holds(s, h0, consent) && Holds(s, k0, consent);
    }
  }

  lemma ThreadsStayOk(c: Config, s: State, t: nat, after: State)
    requires Inv(c, s) && Moves(s, t, after) && ThreadOk(c, after, t)
    ensures forall o :: 0 <= o < |after.threads| ==> ThreadOk(c, after, o)
  {
    forall o | 0 <= o < |after.threads|
      ensures ThreadOk(c, after, o)
    {
      if o != t { OthersStayOk(c, s, t, after, o); }
    }
  }

  lemma SpentOnceStays(s: State, t: nat, after: State)
    requires SpentOnce(s) && Moves(s, t, after)
    requires forall k: nat, o :: 0 <= o < |s.threads| && o != t ==>
               !(Exchanged(after.threads[t], k) && Exchanged(s.threads[o], k))
               && !(Refreshed(after.threads[t], k) && Refreshed(s.threads[o], k))
    ensures SpentOnce(after)
  {
  }

  lemma ExchangeTakes(c: Config, s: State, t: nat)
    requires Inv(c, s) && t < |s.threads| && s.threads[t].pc.Start? && s.threads[t].call.Exchange?
    requires GrantOf(StartStep(c, s, t).threads[t]).Some?
    ensures var k := s.threads[t].call.dto.code;
            k.Some? && k.value in s.codes && GrantOf(StartStep(c, s, t).threads[t]) == Some(s.codes[k.value].grant)
            && StartStep(c, s, t).codes == s.codes - {k.value} && k.value < s.drawn
            && forall o :: 0 <= o < |s.threads| && o != t ==> !Exchanged(s.threads[o], k.value)
    ensures ThreadOk(c, StartStep(c, s, t), t)
  {
    var dto, after := s.threads[t].call.dto, StartStep(c, s, t);
    TakeCodeExact(c, s.codes, dto, s.now);
    var k := dto.code.value;
    assert CodeOk(c, s, k);
    TracesStay(c, s, t, after, s.codes[k].grant);
    forall o | 0 <= o < |s.threads| && o != t
      ensures !Exchanged(s.threads[o], k)
    {
      assert ThreadOk(c, s, o);
    }
  }

  /** Spending a code: its consent passes from the code to the request that took it. */
  lemma ExchangeHandsOver(c: Config, s: State, t: nat)
    requires Inv(c, s) && t < |s.threads| && s.threads[t].pc.Start? && s.threads[t].call.Exchange?
    ensures OneHolder(StartStep(c, s, t)) && SpentOnce(StartStep(c, s, t))
  {
    var after := StartStep(c, s, t);
    if GrantOf(after.threads[t]).Some? {
      ExchangeTakes(c, s, t);
      HandOver(s, after, OfCode(s.threads[t].call.dto.code.value), OfThread(t));
    } else {
      HandOver(s, after, OfThread(t), OfThread(t));
    }
    SpentOnceStays(s, t, after);
  }

  lemma ExchangeKeepsInv(c: Config, s: State, t: nat)
    requires Inv(c, s) && t < |s.threads| && s.threads[t].pc.Start? && s.threads[t].call.Exchange?
    ensures Inv(c, StartStep(c, s, t))
  {
    var after := StartStep(c, s, t);
    if GrantOf(after.threads[t]).Some? { ExchangeTakes(c, s, t); }
    ExchangeHandsOver(c, s, t);
    EntriesStayOk(c, s, t, after);
    ThreadsStayOk(c, s, t, after);
  }

  lemma RefreshTakes(c: Config, s: State, t: nat)
    requires Inv(c, s) && t < |s.threads| && s.threads[t].pc.Start? && s.threads[t].call.Refresh?
    requires GrantOf(StartStep(c, s, t).threads[t]).Some?
    ensures var k := s.threads[t].call.dto.refreshToken;
            k.Some? && k.value in s.tokens && GrantOf(StartStep(c, s, t).threads[t]) == Some(s.tokens[k.value])
            && StartStep(c, s, t).tokens == s.tokens - {k.value} && k.value < s.drawn
            && forall o :: 0 <= o < |s.threads| && o != t ==> !Refreshed(s.threads[o], k.value)
    ensures ThreadOk(c, StartStep(c, s, t), t)
  {
    var after, k := StartStep(c, s, t), s.threads[t].call.dto.refreshToken.value;
    assert TokenOk(c, s, k);
    TracesStay(c, s, t, after, s.tokens[k]);
    forall o | 0 <= o < |s.threads| && o != t
      ensures !Refreshed(s.threads[o], k)
    {
      assert ThreadOk(c, s, o);
    }
  }

  lemma RefreshHandsOver(c: Config, s: State, t: nat)
    requires Inv(c, s) && t < |s.threads| && s.threads[t].pc.Start? && s.threads[t].call.Refresh?
    ensures OneHolder(StartStep(c, s, t)) && SpentOnce(StartStep(c, s, t))
  {
    var after := StartStep(c, s, t);
    if GrantOf(after.threads[t]).Some? {
      RefreshTakes(c, s, t);
      HandOver(s, after, OfToken(s.threads[t].call.dto.refreshToken.value), OfThread(t));
    } else {
      HandOver(s, after, OfThread(t), OfThread(t));
    }
    SpentOnceStays(s, t, after);
  }

  lemma RefreshKeepsInv(c: Config, s: State, t: nat)
    requires Inv(c, s) && t < |s.threads| && s.threads[t].pc.Start? && s.threads[t].call.Refresh?
    ensures Inv(c, StartStep(c, s, t))
  {
    var after := StartStep(c, s, t);
    if GrantOf(after.threads[t]).Some? { RefreshTakes(c, s, t); }
    RefreshHandsOver(c, s, t);
    EntriesStayOk(c, s, t, after);
    ThreadsStayOk(c, s, t, after);
  }

  lemma HolderIsDone(c: Config, s: State, h: Holder, consent: nat)
    requires Inv(c, s) && Holds(s, h, consent)
    ensures consent < |s.threads| && s.threads[consent].pc.Done?
  {
    match h {
      case OfCode(k) => assert CodeOk(c, s, k);
      case OfToken(k) => assert TokenOk(c, s, k);
      case OfThread(o) => assert ThreadOk(c, s, o);
    }
  }

  /** A consent that is still running is nobody's yet. */
  lemma NoHolderYet(c: Config, s: State, t: nat)
    requires Inv(c, s) && t < |s.threads| && !s.threads[t].pc.Done?
    ensures forall h :: !Holds(s, h, t)
  {
    forall h, consent: nat | Holds(s, h, consent)
      ensures consent != t
    {
      HolderIsDone(c, s, h, consent);
    }
  }

  lemma PutCodeKeepsInv(c: Config, s: State, t: nat)
    requires Inv(c, s) && t < |s.threads| && s.threads[t].pc.PutCode? && Next(c, s, t).Some?
    ensures Inv(c, Next(c, s, t).value)
  {
    var after := Next(c, s, t).value;
    assert ThreadOk(c, s, t);
    EntriesStayOk(c, s, t, after);
    NoHolderYet(c, s, t);
    assert CodeOk(c, after, s.drawn);
    forall k | k in after.codes
      ensures CodeOk(c, after, k)
    {
      if k != s.drawn { assert k in s.codes && after.codes[k] == s.codes[k]; }
    }
    forall h, k, consent: nat | Holds(after, h, consent) && Holds(after, k, consent)
      ensures h == k
    {
      assert h != OfCode(s.drawn) ==> Holds(s, h, consent);
      assert k != OfCode(s.drawn) ==> Holds(s, k, consent);
    }
    SpentOnceStays(s, t, after);
    ThreadsStayOk(c, s, t, after);
  }

  lemma PutTokenOk(c: Config, s: State, t: nat)
    requires Inv(c, s) && t < |s.threads| && s.threads[t].pc.PutToken?
    ensures Next(c, s, t).Some? && ThreadOk(c, Next(c, s, t).value, t)
    ensures var after := Next(c, s, t).value;
            && s.drawn !in s.tokens && Traces(c, after, s.threads[t].pc.grant)
            && (forall k: nat :: Exchanged(after.threads[t], k) ==> Exchanged(s.threads[t], k))
            && (forall k: nat :: Refreshed(after.threads[t], k) ==> Refreshed(s.threads[t], k))
  {
    assert ThreadOk(c, s, t);
    var after := Next(c, s, t).value;
    TracesStay(c, s, t, after, s.threads[t].pc.grant);
    assert forall k :: k in s.tokens ==> TokenOk(c, s, k) && k < s.drawn;
    assert forall k: nat :: Exchanged(after.threads[t], k) ==> Exchanged(s.threads[t], k);
    assert forall k: nat :: Refreshed(after.threads[t], k) ==> Refreshed(s.threads[t], k);
  }

  lemma PutTokenEntries(c: Config, s: State, t: nat)
    requires Inv(c, s) && t < |s.threads| && s.threads[t].pc.PutToken? && Next(c, s, t).Some?
    ensures var after := Next(c, s, t).value;
            (forall k :: k in after.codes ==> CodeOk(c, after, k)) && (forall k :: k in after.tokens ==> TokenOk(c, after, k))
  {
    var after := Next(c, s, t).value;
    EntriesStayOk(c, s, t, after);
    PutTokenOk(c, s, t);
    forall k | k in after.tokens
      ensures TokenOk(c, after, k)
    {
      if k != s.drawn { assert k in s.tokens && after.tokens[k] == s.tokens[k]; }
    }
  }

  lemma PutTokenKeepsInv(c: Config, s: State, t: nat)
    requires Inv(c, s) && t < |s.threads| && s.threads[t].pc.PutToken?
    ensures Next(c, s, t).Some? && Inv(c, Next(c, s, t).value)
  {
    var after := Next(c, s, t).value;
    PutTokenOk(c, s, t);
    PutTokenEntries(c, s, t);
    HandOver(s, after, OfThread(t), OfToken(s.drawn));
    SpentOnceStays(s, t, after);
    ThreadsStayOk(c, s, t, after);
  }

  /** A step that only moves the thread, which keeps its grant or drops it. */
  lemma QuietKeepsInv(c: Config, s: State, t: nat, pc: Pc)
    requires Inv(c, s) && t < |s.threads| && !s.threads[t].pc.Done?
    requires ThreadOk(c, Moved(s, t, pc), t)
    requires pc.Lookup? || pc.PutToken? ==> GrantOf(s.threads[t]) == Some(pc.grant)
    requires !(pc.Done? && pc.outcome.Token?)
    ensures Inv(c, Moved(s, t, pc))
  {
    var after := Moved(s, t, pc);
    EntriesStayOk(c, s, t, after);
    HandOver(s, after, OfThread(t), OfThread(t));
    SpentOnceStays(s, t, after);
    ThreadsStayOk(c, s, t, after);
  }

  lemma ConsentKeepsInv(c: Config, s: State, t: nat)
    requires Inv(c, s) && t < |s.threads| && s.threads[t].pc.Start? && s.threads[t].call.Consent?
    ensures Inv(c, StartStep(c, s, t))
  {
    QuietKeepsInv(c, s, t, StartStep(c, s, t).threads[t].pc);
  }

  lemma LookupKeepsInv(c: Config, s: State, t: nat)
    requires Inv(c, s) && t < |s.threads| && s.threads[t].pc.Lookup?
    ensures Next(c, s, t).Some? && Inv(c, Next(c, s, t).value)
  {
    var grant := s.threads[t].pc.grant;
    LookupOk(c, s, t);
    if Active(s.users, grant.user) {
      QuietKeepsInv(c, s, t, PutToken(grant));
    } else {
      QuietKeepsInv(c, s, t, Done(Refused));
    }
  }

  lemma StepKeepsInv(c: Config, s: State, t: nat)
    requires Inv(c, s) && t < |s.threads| && Next(c, s, t).Some?
    ensures Inv(c, Next(c, s, t).value)
  {
    var th := s.threads[t];
    assert ThreadOk(c, s, t);
    match th.pc {
      case Start =>
        match th.call {
          case Consent(_) => ConsentKeepsInv(c, s, t);
          case Exchange(_) => ExchangeKeepsInv(c, s, t);
          case Refresh(_) => RefreshKeepsInv(c, s, t);
        }
      case PutCode => PutCodeKeepsInv(c, s, t);
      case Lookup(_) => LookupKeepsInv(c, s, t);
      case PutToken(_) => PutTokenKeepsInv(c, s, t);
      case Done(_) =>
    }
  }

  lemma LookupOk(c: Config, s: State, t: nat)
    requires Inv(c, s) && t < |s.threads| && s.threads[t].pc.Lookup?
    ensures ThreadOk(c, Moved(s, t, PutToken(s.threads[t].pc.grant)), t)
    ensures ThreadOk(c, Moved(s, t, Done(Refused)), t)
  {
    var grant := s.threads[t].pc.grant;
    var after := Moved(s, t, PutToken(grant));
    assert ThreadOk(c, s, t);
    TracesStay(c, s, t, after, grant);
    assert forall k: nat :: Exchanged(after.threads[t], k) ==> Exchanged(s.threads[t], k);
    assert forall k: nat :: Refreshed(after.threads[t], k) ==> Refreshed(s.threads[t], k);
  }

  lemma ApplyKeepsInv(c: Config, s: State, e: Event)
    requires Inv(c, s) && Apply(c, s, e).Some?
    ensures Inv(c, Apply(c, s, e).value)
  {
    match e {
      case Step(t) => StepKeepsInv(c, s, t);
      case Fail(t) => QuietKeepsInv(c, s, t, Done(Refused));
      case Tick(_) => SameTables(c, s, Apply(c, s, e).value);
      case SetUser(_, _) => SameTables(c, s, Apply(c, s, e).value);
    }
  }

  lemma SameTables(c: Config, s: State, after: State)
    requires Inv(c, s)
    requires after.codes == s.codes && after.tokens == s.tokens && after.threads == s.threads && after.drawn == s.drawn
    ensures Inv(c, after)
  {
    forall t | 0 <= t < |after.threads|
      ensures ThreadOk(c, after, t)
    {
      assert ThreadOk(c, s, t);
    }
    forall k | k in after.codes
      ensures CodeOk(c, after, k)
    {
      assert CodeOk(c, s, k);
    }
    forall k | k in after.tokens
      ensures TokenOk(c, after, k)
    {
      assert TokenOk(c, s, k);
    }
    assert forall h, consent: nat :: Holds(after, h, consent) ==> Holds(s, h, consent);
  }

  lemma {:induction false} EveryRunKeepsInv(c: Config, s: State, events: seq<Event>)
    requires Inv(c, s) && Run(c, s, events).Some?
    ensures Inv(c, Run(c, s, events).value)
  {
    if events != [] {
      EveryRunKeepsInv(c, s, events[..|events| - 1]);
      ApplyKeepsInv(c, Run(c, s, events[..|events| - 1]).value, events[|events| - 1]);
    }
  }

  // ---- every run ----------------------------------------------------------------------------

  /** Answered with tokens. */
  predicate Answered(th: Thread) { th.pc.Done? && th.pc.outcome.Token? }

  /** Two requests presenting the same code, or the same refresh token. */
  predicate SameSecret(a: Call, b: Call) {
    || (a.Exchange? && b.Exchange? && a.dto.code == b.dto.code)
    || (a.Refresh? && b.Refresh? && a.dto.refreshToken == b.dto.refreshToken)
  }

  /**
    In every run a code, and a refresh token, is answered with tokens at most once; and a consent never
    has two live descendants: at most one of its code and its refresh tokens is in the maps.
  */
  lemma EveryRunSpendsOnce(c: Config, users: map<Text, bool>, calls: seq<Call>, now: int, events: seq<Event>)
    requires Run(c, Initial(users, calls, now), events).Some?
    ensures var s := Run(c, Initial(users, calls, now), events).value;
            && (forall t, u | 0 <= t < |s.threads| && 0 <= u < |s.threads| && Answered(s.threads[t]) && Answered(s.threads[u])
                  :: SameSecret(s.threads[t].call, s.threads[u].call) ==> t == u)
            && (forall j, k | j in s.tokens && k in s.tokens :: s.tokens[j].consent == s.tokens[k].consent ==> j == k)
            && (forall j, k | j in s.codes && k in s.tokens :: s.codes[j].grant.consent != s.tokens[k].consent)
  {
    var s0 := Initial(users, calls, now);
    EveryRunKeepsInv(c, s0, events);
    var s := Run(c, s0, events).value;
    forall t, u | 0 <= t < |s.threads| && 0 <= u < |s.threads| && Answered(s.threads[t]) && Answered(s.threads[u])
      ensures SameSecret(s.threads[t].call, s.threads[u].call) ==> t == u
    {
      if SameSecret(s.threads[t].call, s.threads[u].call) { AnswersDiffer(c, s, t, u); }
    }
    forall j, k | j in s.tokens && k in s.tokens && s.tokens[j].consent == s.tokens[k].consent
      ensures j == k
    {
      assert Holds(s, OfToken(j), s.tokens[j].consent) && Holds(s, OfToken(k), s.tokens[j].consent);
    }
    forall j, k | j in s.codes && k in s.tokens
      ensures s.codes[j].grant.consent != s.tokens[k].consent
    {
      assert Holds(s, OfCode(j), s.codes[j].grant.consent);
      assert Holds(s, OfToken(k), s.tokens[k].consent);
    }
  }

  lemma AnswersDiffer(c: Config, s: State, t: nat, u: nat)
    requires Inv(c, s) && t < |s.threads| && u < |s.threads| && Answered(s.threads[t]) && Answered(s.threads[u])
    requires SameSecret(s.threads[t].call, s.threads[u].call)
    ensures t == u
  {
    assert ThreadOk(c, s, t) && ThreadOk(c, s, u);
    match s.threads[t].call {
      case Exchange(dto) => assert Exchanged(s.threads[t], dto.code.value) && Exchanged(s.threads[u], dto.code.value);
      case Refresh(dto) =>
        assert Refreshed(s.threads[t], dto.refreshToken.value) && Refreshed(s.threads[u], dto.refreshToken.value);
      case Consent(_) =>
    }
  }

  // the secrets themselves

  /** The grant's consent was answered with this code. */
  predicate GaveCode(s: State, grant: Grant, code: nat) {
    grant.consent < |s.threads| && s.threads[grant.consent].pc == Done(Code(code))
  }

  /** Some request was answered with this refresh token for the grant. */
  predicate GaveToken(s: State, grant: Grant, token: nat) {
    exists u :: 0 <= u < |s.threads| && s.threads[u].pc == Done(Token(grant, token))
  }

  /** What the request presented for the grant was given for it. */
  predicate Presented(s: State, call: Call, grant: Grant) {
    match call
    case Consent(_) => true
    case Exchange(dto) => dto.code.Some? && GaveCode(s, grant, dto.code.value)
    case Refresh(dto) => dto.refreshToken.Some? && GaveToken(s, grant, dto.refreshToken.value)
  }

  ghost predicate ThreadPresented(s: State, th: Thread) {
    GrantOf(th).Some? ==> Presented(s, th.call, GrantOf(th).value)
  }

  ghost predicate AllGiven(s: State) {
    && (forall k :: k in s.codes ==> GaveCode(s, s.codes[k].grant, k))
    && (forall k :: k in s.tokens ==> GaveToken(s, s.tokens[k], k))
    && (forall t :: 0 <= t < |s.threads| ==> ThreadPresented(s, s.threads[t]))
  }

  lemma CodeStays(s: State, t: nat, after: State, grant: Grant, k: nat)
    requires Moves(s, t, after) && GaveCode(s, grant, k)
    ensures GaveCode(after, grant, k)
  {
  }

  lemma TokenStays(s: State, t: nat, after: State, grant: Grant, k: nat)
    requires Moves(s, t, after) && GaveToken(s, grant, k)
    ensures GaveToken(after, grant, k)
  {
    var u :| 0 <= u < |s.threads| && s.threads[u].pc == Done(Token(grant, k));
    assert u != t && after.threads[u] == s.threads[u];
  }

  lemma PresentedStays(s: State, t: nat, after: State, call: Call, grant: Grant)
    requires Moves(s, t, after) && Presented(s, call, grant)
    ensures Presented(after, call, grant)
  {
    match call {
      case Exchange(dto) => CodeStays(s, t, after, grant, dto.code.value);
      case Refresh(dto) => TokenStays(s, t, after, grant, dto.refreshToken.value);
      case Consent(_) =>
    }
  }

  /** The new entries are what the moved thread was answered with, and its grant comes from what it presented. */
  ghost predicate GivesNew(s: State, t: nat, after: State)
    requires t < |s.threads| == |after.threads|
  {
    && (forall k :: k in after.codes ==>
          (k in s.codes && after.codes[k] == s.codes[k]) || GaveCode(after, after.codes[k].grant, k))
    && (forall k :: k in after.tokens ==>
          (k in s.tokens && after.tokens[k] == s.tokens[k]) || GaveToken(after, after.tokens[k], k))
    && (GrantOf(after.threads[t]).Some? ==> Presented(s, s.threads[t].call, GrantOf(after.threads[t]).value))
  }

  lemma MoveKeepsGiven(s: State, t: nat, after: State)
    requires AllGiven(s) && Moves(s, t, after) && GivesNew(s, t, after)
    ensures AllGiven(after)
  {
    forall k | k in after.codes
      ensures GaveCode(after, after.codes[k].grant, k)
    {
      if k in s.codes && after.codes[k] == s.codes[k] { CodeStays(s, t, after, s.codes[k].grant, k); }
    }
    forall k | k in after.tokens
      ensures GaveToken(after, after.tokens[k], k)
    {
      if k in s.tokens && after.tokens[k] == s.tokens[k] { TokenStays(s, t, after, s.tokens[k], k); }
    }
    forall o | 0 <= o < |after.threads|
      ensures ThreadPresented(after, after.threads[o])
    {
      if GrantOf(after.threads[o]).Some? {
        assert ThreadPresented(s, s.threads[o]);
        PresentedStays(s, t, after, s.threads[o].call, GrantOf(after.threads[o]).value);
      }
    }
  }

  lemma StartGives(c: Config, s: State, t: nat)
    requires AllGiven(s) && t < |s.threads| && s.threads[t].pc.Start?
    ensures Moves(s, t, StartStep(c, s, t)) && GivesNew(s, t, StartStep(c, s, t))
  {
    if s.threads[t].call.Exchange? { TakeCodeExact(c, s.codes, s.threads[t].call.dto, s.now); }
  }

  lemma PutTokenGives(c: Config, s: State, t: nat)
    requires AllGiven(s) && t < |s.threads| && s.threads[t].pc.PutToken?
    ensures Next(c, s, t).Some? && Moves(s, t, Next(c, s, t).value) && GivesNew(s, t, Next(c, s, t).value)
  {
    var after := Next(c, s, t).value;
    assert ThreadPresented(s, s.threads[t]);
    assert after.threads[t].pc == Done(Token(s.threads[t].pc.grant, s.drawn));
  }

  lemma PutCodeGives(c: Config, s: State, t: nat)
    requires t < |s.threads| && s.threads[t].pc.PutCode? && Next(c, s, t).Some?
    ensures Moves(s, t, Next(c, s, t).value) && GivesNew(s, t, Next(c, s, t).value)
  {
    assert Next(c, s, t).value.threads[t].pc == Done(Code(s.drawn));
  }

  lemma LookupGives(c: Config, s: State, t: nat)
    requires AllGiven(s) && t < |s.threads| && s.threads[t].pc.Lookup?
    ensures Next(c, s, t).Some? && Moves(s, t, Next(c, s, t).value) && GivesNew(s, t, Next(c, s, t).value)
  {
    assert ThreadPresented(s, s.threads[t]);
  }

  lemma StepGives(c: Config, s: State, t: nat)
    requires AllGiven(s) && t < |s.threads| && Next(c, s, t).Some?
    ensures Moves(s, t, Next(c, s, t).value) && GivesNew(s, t, Next(c, s, t).value)
  {
    match s.threads[t].pc {
      case Start => StartGives(c, s, t);
      case PutCode => PutCodeGives(c, s, t);
      case Lookup(_) => LookupGives(c, s, t);
      case PutToken(_) => PutTokenGives(c, s, t);
      case Done(_) =>
    }
  }

  lemma EventKeepsGiven(c: Config, s: State, e: Event)
    requires Inv(c, s) && AllGiven(s) && Apply(c, s, e).Some?
    ensures AllGiven(Apply(c, s, e).value)
  {
    var after := Apply(c, s, e).value;
    match e {
      case Step(t) =>
        StepGives(c, s, t);
        MoveKeepsGiven(s, t, after);
      case Fail(t) => MoveKeepsGiven(s, t, after);
      case Tick(_) => SameGiven(s, after);
      case SetUser(_, _) => SameGiven(s, after);
    }
  }

  lemma SameGiven(s: State, after: State)
    requires AllGiven(s) && after.codes == s.codes && after.tokens == s.tokens && after.threads == s.threads
    ensures AllGiven(after)
  {
    forall k | k in after.tokens
      ensures GaveToken(after, after.tokens[k], k)
    {
      assert GaveToken(s, s.tokens[k], k);
    }
    forall t | 0 <= t < |after.threads|
      ensures ThreadPresented(after, after.threads[t])
    {
      assert ThreadPresented(s, s.threads[t]);
    }
  }

  lemma {:induction false} EveryRunGives(c: Config, users: map<Text, bool>, calls: seq<Call>, now: int, events: seq<Event>)
    requires Run(c, Initial(users, calls, now), events).Some?
    ensures AllGiven(Run(c, Initial(users, calls, now), events).value)
  {
    if events != [] {
      var front := events[..|events| - 1];
      EveryRunGives(c, users, calls, now, front);
      EveryRunKeepsInv(c, Initial(users, calls, now), front);
      EventKeepsGiven(c, Run(c, Initial(users, calls, now), front).value, events[|events| - 1]);
    }
  }

  /**
    In every run each token response traces to a consent: the same user, client and scope, given on a
    valid loopback request; an exchange showed the code that consent was answered with, its redirect and the
    verifier of its challenge, and a refresh showed a token another response for it had carried.
  */
  lemma EveryResponseTraces(c: Config, users: map<Text, bool>, calls: seq<Call>, now: int, events: seq<Event>, t: nat)
    requires Run(c, Initial(users, calls, now), events).Some?
    requires var s := Run(c, Initial(users, calls, now), events).value; t < |s.threads| && Answered(s.threads[t])
    ensures var s := Run(c, Initial(users, calls, now), events).value; var grant := s.threads[t].pc.outcome.grant;
            && Traces(c, s, grant)
            && var form := s.threads[grant.consent].call.form;
               && grant.user == form.user && Some(grant.clientId) == form.clientId && grant.scope == Given(form.scope)
               && LoopbackHttp(c, OrEmpty(form.redirectUri))
               && (s.threads[t].call.Exchange? ==>
                     && s.threads[t].call.dto.clientId == form.clientId
                     && s.threads[t].call.dto.redirectUri == Some(OrEmpty(form.redirectUri))
                     && Some(c.s256(OrEmpty(s.threads[t].call.dto.verifier))) == form.challenge)
               && (s.threads[t].call.Refresh? ==> s.threads[t].call.dto.clientId == form.clientId)
    ensures var s := Run(c, Initial(users, calls, now), events).value; var grant := s.threads[t].pc.outcome.grant;
            && (s.threads[t].call.Exchange? ==>
                  s.threads[t].call.dto.code == Some(s.threads[grant.consent].pc.outcome.code))
            && (s.threads[t].call.Refresh? ==>
                  s.threads[t].call.dto.refreshToken.Some?
                  && GaveToken(s, grant, s.threads[t].call.dto.refreshToken.value))
  {
    var s0 := Initial(users, calls, now);
    EveryRunKeepsInv(c, s0, events);
    EveryRunGives(c, users, calls, now, events);
    var s := Run(c, s0, events).value;
    assert ThreadOk(c, s, t);
    assert ThreadPresented(s, s.threads[t]);
  }

  /** A code once looked for by the right client is gone for good, whatever became of that request. */
  lemma {:induction false} SpentStaysSpent(c: Config, s: State, events: seq<Event>, code: nat)
    requires Run(c, s, events).Some? && code < s.drawn && code !in s.codes
    ensures var after := Run(c, s, events).value; code < after.drawn && code !in after.codes
    ensures forall dto: TokenRequest, now: int ::
              dto.code == Some(code) ==> TakeCode(c, Run(c, s, events).value.codes, dto, now).1.Err?
  {
    if events != [] {
      SpentStaysSpent(c, s, events[..|events| - 1], code);
      StepStaysSpent(c, Run(c, s, events[..|events| - 1]).value, events[|events| - 1], code);
    }
  }

  lemma StepStaysSpent(c: Config, s: State, e: Event, code: nat)
    requires Apply(c, s, e).Some? && code < s.drawn && code !in s.codes
    ensures var after := Apply(c, s, e).value; code < after.drawn && code !in after.codes
  {
  }
}
