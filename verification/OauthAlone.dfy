/**
  The requests of the authorization-code machine, each with nothing beside it: what it leaves in the two maps
  and what it answers, said of the maps alone (apiV2/src/oauth/oauth-code.service.ts).
*/
module OauthAlone {
  import opened Wrappers
  import opened Bytes
  import opened Oauth
  import opened OauthRuns

  /** `n` steps of one request. */
  function Own(t: nat, n: nat): seq<Event> { seq(n, _ => Step(t)) }

  lemma OneMore(c: Config, s: State, t: nat, n: nat, mid: State, after: State)
    requires Run(c, s, Own(t, n)) == Some(mid) && t < |mid.threads| && Next(c, mid, t) == Some(after)
    ensures Run(c, s, Own(t, n + 1)) == Some(after)
  {
    assert Own(t, n + 1)[..n] == Own(t, n);
  }

  /** The account exists and has not been deactivated. */
  predicate MayAct(users: map<Text, bool>, user: Text) { user in users && users[user] == false }

  /** The thread at `pc`, with these maps and this many secrets drawn; nothing else has changed. */
  function At(s: State, t: nat, codes: map<nat, IssuedCode>, tokens: map<nat, Grant>, drawn: nat, pc: Pc): State
    requires t < |s.threads|
  {
    State(s.users, codes, tokens, drawn, s.threads[t := Thread(s.threads[t].call, pc)], s.now)
  }

  ghost predicate Ends(s: State, t: nat, after: State, codes: map<nat, IssuedCode>, tokens: map<nat, Grant>, drawn: nat,
                       outcome: Outcome)
    requires t < |s.threads|
  {
    after == At(s, t, codes, tokens, drawn, Done(outcome))
  }

  /** A consent of an active user to an acceptable request puts one code in the map, good for a minute. */
  ghost predicate ConsentHolds(c: Config, s: State, t: nat, form: Form, after: State)
    requires t < |s.threads|
  {
    if Acceptable(c, form) && !form.denied && form.validCredentials && MayAct(s.users, form.user) then
      var grant := Grant(form.user, c.clientId, if form.scope == Some([]) then None else form.scope, t);
      Ends(s, t, after, s.codes[s.drawn := IssuedCode(grant, OrEmpty(form.redirectUri), form.challenge.value, s.now + 60_000)],
           s.tokens, s.drawn + 1, Code(s.drawn))
    else Ends(s, t, after, s.codes, s.tokens, s.drawn, if Acceptable(c, form) && form.denied then Outcome.Denied else Refused)
  }

  /** The request shows the code's client, redirect and verifier within its minute. */
  ghost predicate Redeems(c: Config, s: State, dto: TokenRequest) {
    && dto.clientId == Some(c.clientId) && dto.code.Some? && dto.code.value in s.codes
    && var issued := s.codes[dto.code.value];
       && s.now <= issued.expiresAt && issued.grant.clientId == c.clientId && dto.redirectUri == Some(issued.redirectUri)
       && c.s256(if dto.verifier.Some? then dto.verifier.value else []) == issued.challenge
  }

  /** An exchange spends the code of a request by the client, and gives a token when everything matches. */
  ghost predicate ExchangeHolds(c: Config, s: State, t: nat, dto: TokenRequest, after: State)
    requires t < |s.threads|
  {
    var codes := if dto.clientId == Some(c.clientId) && dto.code.Some? then s.codes - {dto.code.value} else s.codes;
    if Redeems(c, s, dto) && MayAct(s.users, s.codes[dto.code.value].grant.user) then
      var grant := s.codes[dto.code.value].grant;
      Ends(s, t, after, codes, s.tokens[s.drawn := grant], s.drawn + 1, Token(grant, s.drawn))
    else Ends(s, t, after, codes, s.tokens, s.drawn, Refused)
  }

  /** A refresh spends the token it shows, and gives its successor to the token's client and an active user. */
  ghost predicate RefreshHolds(s: State, t: nat, dto: TokenRequest, after: State)
    requires t < |s.threads|
  {
    var spent := if dto.refreshToken.Some? then s.tokens - {dto.refreshToken.value} else s.tokens;
    if && dto.refreshToken.Some? && dto.refreshToken.value in s.tokens
       && dto.clientId == Some(s.tokens[dto.refreshToken.value].clientId)
       && MayAct(s.users, s.tokens[dto.refreshToken.value].user)
    then
      var grant := s.tokens[dto.refreshToken.value];
      Ends(s, t, after, s.codes, spent[s.drawn := grant], s.drawn + 1, Token(grant, s.drawn))
    else Ends(s, t, after, s.codes, spent, s.drawn, Refused)
  }

  ghost predicate CallHolds(c: Config, s: State, t: nat, after: State)
    requires t < |s.threads|
  {
    match s.threads[t].call
    case Consent(form) => ConsentHolds(c, s, t, form, after)
    case Exchange(dto) => ExchangeHolds(c, s, t, dto, after)
    case Refresh(dto) => RefreshHolds(s, t, dto, after)
  }

  lemma ThreadAt(s: State, t: nat, codes: map<nat, IssuedCode>, tokens: map<nat, Grant>, drawn: nat, pc: Pc, next: Pc)
    requires t < |s.threads|
    ensures var at := At(s, t, codes, tokens, drawn, pc);
            at.threads[t := Thread(s.threads[t].call, next)] == s.threads[t := Thread(s.threads[t].call, next)]
  {
  }

  lemma FirstStep(c: Config, s: State, t: nat) returns (mid: State)
    requires t < |s.threads| && s.threads[t].pc == Start
    ensures Run(c, s, Own(t, 1)) == Some(mid) && mid == StartStep(c, s, t)
  {
    mid := StartStep(c, s, t);
    OneMore(c, s, t, 0, s, mid);
  }

  lemma PutCodeAt(c: Config, s: State, t: nat, form: Form) returns (after: State)
    requires t < |s.threads| && s.threads[t].call == Consent(form)
    requires Acceptable(c, form) && !form.denied && form.validCredentials && MayAct(s.users, form.user)
    ensures Next(c, At(s, t, s.codes, s.tokens, s.drawn, PutCode), t) == Some(after) && ConsentHolds(c, s, t, form, after)
  {
    ValidateExact(c, form);
    ThreadAt(s, t, s.codes, s.tokens, s.drawn, PutCode, Done(Code(s.drawn)));
    after := Next(c, At(s, t, s.codes, s.tokens, s.drawn, PutCode), t).value;
  }

  lemma ConsentStarts(c: Config, s: State, t: nat, form: Form)
    requires t < |s.threads| && s.threads[t].call == Consent(form)
    ensures if Acceptable(c, form) && !form.denied && form.validCredentials && MayAct(s.users, form.user)
            then StartStep(c, s, t) == At(s, t, s.codes, s.tokens, s.drawn, PutCode)
            else ConsentHolds(c, s, t, form, StartStep(c, s, t))
  {
    ValidateExact(c, form);
  }

  lemma ConsentRuns(c: Config, s: State, t: nat, form: Form) returns (n: nat, after: State)
    requires t < |s.threads| && s.threads[t] == Thread(Consent(form), Start)
    ensures Run(c, s, Own(t, n)) == Some(after) && ConsentHolds(c, s, t, form, after)
  {
    var mid := FirstStep(c, s, t);
    ConsentStarts(c, s, t, form);
    n, after := 1, mid;
    if Acceptable(c, form) && !form.denied && form.validCredentials && MayAct(s.users, form.user) {
      after := PutCodeAt(c, s, t, form);
      OneMore(c, s, t, 1, mid, after);
      n := 2;
    }
  }

  /** From a spent code or token to the answer. */
  lemma GrantRuns(c: Config, s: State, t: nat, codes: map<nat, IssuedCode>, tokens: map<nat, Grant>, grant: Grant)
    returns (n: nat, after: State)
    requires t < |s.threads| && Run(c, s, Own(t, 1)) == Some(At(s, t, codes, tokens, s.drawn, Lookup(grant)))
    ensures Run(c, s, Own(t, n)) == Some(after)
    ensures if MayAct(s.users, grant.user) then Ends(s, t, after, codes, tokens[s.drawn := grant], s.drawn + 1, Token(grant, s.drawn))
            else Ends(s, t, after, codes, tokens, s.drawn, Refused)
  {
    var mid := At(s, t, codes, tokens, s.drawn, Lookup(grant));
    ThreadAt(s, t, codes, tokens, s.drawn, Lookup(grant), Done(Refused));
    ThreadAt(s, t, codes, tokens, s.drawn, Lookup(grant), PutToken(grant));
    after := At(s, t, codes, tokens, s.drawn, if MayAct(s.users, grant.user) then PutToken(grant) else Done(Refused));
    OneMore(c, s, t, 1, mid, after);
    n := 2;
    if MayAct(s.users, grant.user) {
      ThreadAt(s, t, codes, tokens, s.drawn, PutToken(grant), Done(Token(grant, s.drawn)));
      var put := At(s, t, codes, tokens[s.drawn := grant], s.drawn + 1, Done(Token(grant, s.drawn)));
      OneMore(c, s, t, 2, after, put);
      n, after := 3, put;
    }
  }

  lemma ExchangeStarts(c: Config, s: State, t: nat, dto: TokenRequest)
    requires t < |s.threads| && s.threads[t].call == Exchange(dto)
    ensures var codes := if dto.clientId == Some(c.clientId) && dto.code.Some? then s.codes - {dto.code.value} else s.codes;
            StartStep(c, s, t) == At(s, t, codes, s.tokens, s.drawn,
                                     if Redeems(c, s, dto) then Lookup(s.codes[dto.code.value].grant) else Done(Refused))
  {
  }

  lemma ExchangeRuns(c: Config, s: State, t: nat, dto: TokenRequest) returns (n: nat, after: State)
    requires t < |s.threads| && s.threads[t] == Thread(Exchange(dto), Start)
    ensures Run(c, s, Own(t, n)) == Some(after) && ExchangeHolds(c, s, t, dto, after)
  {
    var mid := FirstStep(c, s, t);
    ExchangeStarts(c, s, t, dto);
    n, after := 1, mid;
    if Redeems(c, s, dto) {
      n, after := GrantRuns(c, s, t, mid.codes, s.tokens, s.codes[dto.code.value].grant);
    }
  }

  lemma RefreshStarts(c: Config, s: State, t: nat, dto: TokenRequest)
    requires t < |s.threads| && s.threads[t].call == Refresh(dto)
    ensures var spent := if dto.refreshToken.Some? then s.tokens - {dto.refreshToken.value} else s.tokens;
            StartStep(c, s, t)
            == At(s, t, s.codes, spent, s.drawn,
                  if dto.refreshToken.Some? && dto.refreshToken.value in s.tokens
                     && dto.clientId == Some(s.tokens[dto.refreshToken.value].clientId)
                  then Lookup(s.tokens[dto.refreshToken.value]) else Done(Refused))
  {
  }

  lemma RefreshRuns(c: Config, s: State, t: nat, dto: TokenRequest) returns (n: nat, after: State)
    requires t < |s.threads| && s.threads[t] == Thread(Refresh(dto), Start)
    ensures Run(c, s, Own(t, n)) == Some(after) && RefreshHolds(s, t, dto, after)
  {
    var mid := FirstStep(c, s, t);
    RefreshStarts(c, s, t, dto);
    n, after := 1, mid;
    if && dto.refreshToken.Some? && dto.refreshToken.value in s.tokens
       && dto.clientId == Some(s.tokens[dto.refreshToken.value].clientId) {
      n, after := GrantRuns(c, s, t, s.codes, mid.tokens, s.tokens[dto.refreshToken.value]);
    }
  }

  /**
    With nothing beside it a consent puts one code good for a minute in the map, an exchange turns a code into a
    token for exactly the request that shows what the consent was bound to, and a refresh replaces its token;
    each spends what it was shown either way, and changes no other entry.
  */
  lemma EveryCallAlone(c: Config, s: State, t: nat) returns (n: nat, after: State)
    requires t < |s.threads| && s.threads[t].pc == Start
    ensures Run(c, s, Own(t, n)) == Some(after) && CallHolds(c, s, t, after)
  {
    match s.threads[t].call {
      case Consent(form) => n, after := ConsentRuns(c, s, t, form);
      case Exchange(dto) => n, after := ExchangeRuns(c, s, t, dto);
      case Refresh(dto) => n, after := RefreshRuns(c, s, t, dto);
    }
  }
}
