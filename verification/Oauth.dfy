/**
  The authorization-code grant with PKCE (apiV2/src/oauth/oauth-code.service.ts). Codes and refresh
  tokens are random secrets, here numbers no two draws share; URL parsing and SHA-256 are functions
  nothing is known about.
*/
module Oauth {
  import opened Wrappers
  import opened Bytes

  datatype Url = Url(protocol: Text, hostname: Text)

  datatype Config = Config(clientId: Text, parseUrl: Text -> Option<Url>, s256: Text -> Text)

  datatype Form = Form(clientId: Option<Text>, redirectUri: Option<Text>, responseType: Option<Text>,
                       challengeMethod: Option<Text>, challenge: Option<Text>, state: Option<Text>, scope: Option<Text>,
                       denied: bool, user: Text, validCredentials: bool)

  datatype TokenRequest = TokenRequest(clientId: Option<Text>, code: Option<nat>, redirectUri: Option<Text>,
                                       verifier: Option<Text>, refreshToken: Option<nat>)

  datatype AuthorizeRequest = AuthorizeRequest(clientId: Text, redirectUri: Text, challenge: Text, state: Text,
                                               scope: Option<Text>)

  /** Who allowed what to whom; `consent` numbers the consent it came from: history only. */
  datatype Grant = Grant(user: Text, clientId: Text, scope: Option<Text>, consent: nat)

  datatype IssuedCode = IssuedCode(grant: Grant, redirectUri: Text, challenge: Text, expiresAt: int)

  datatype Error = BadRequest | Unauthorized | InvalidGrant

  datatype Decision = Denied | Redirect(code: nat)

  const CODE_TTL: int := 60_000

  function OrEmpty(t: Option<Text>): Text { match t case Some(v) => v case None => [] }

  function Given(t: Option<Text>): Option<Text> { if t == Some([]) then None else t }

  predicate IsLoopback(hostname: Text) {
    hostname == Lit("127.0.0.1") || hostname == Lit("localhost") || hostname == Lit("[::1]")
  }

  predicate IsBase64Url(u: Unit) {
    48 <= u <= 57 || 65 <= u <= 90 || 97 <= u <= 122 || u == 45 || u == 95
  }

  predicate IsChallenge(t: Text) { |t| == 43 && forall i :: 0 <= i < |t| ==> IsBase64Url(t[i]) }

  predicate LoopbackHttp(c: Config, redirectUri: Text) {
    match c.parseUrl(redirectUri)
    case None => false
    case Some(url) => url.protocol == Lit("http:") && IsLoopback(url.hostname)
  }

  function Validate(c: Config, form: Form): Result<AuthorizeRequest, Error> {
    if form.clientId != Some(c.clientId) then Err(BadRequest)
    else if !LoopbackHttp(c, OrEmpty(form.redirectUri)) then Err(BadRequest)
    else if form.responseType != Some(Lit("code")) then Err(BadRequest)
    else if form.challengeMethod != Some(Lit("S256")) then Err(BadRequest)
    else if form.challenge.None? || !IsChallenge(form.challenge.value) then Err(BadRequest)
    else if OrEmpty(form.state) == [] then Err(BadRequest)
    else Ok(AuthorizeRequest(c.clientId, OrEmpty(form.redirectUri), form.challenge.value, form.state.value, Given(form.scope)))
  }

  /** A letter, a digit, a hyphen or an underscore. */
  predicate IsChallengeChar(u: Unit) {
    || 'A' as int <= u <= 'Z' as int || 'a' as int <= u <= 'z' as int || '0' as int <= u <= '9' as int
    || u == '-' as int || u == '_' as int
  }

  /** A request of the public client, to a loopback redirect, for a code, with an S256 challenge and a state. */
  ghost predicate Acceptable(c: Config, form: Form) {
    && form.clientId == Some(c.clientId)
    && (var url := c.parseUrl(OrEmpty(form.redirectUri));
        && url.Some? && url.value.protocol == Lit("http:")
        && (url.value.hostname == Lit("localhost") || url.value.hostname == Lit("127.0.0.1") || url.value.hostname == Lit("[::1]")))
    && form.responseType == Some(Lit("code")) && form.challengeMethod == Some(Lit("S256"))
    && form.challenge.Some? && |form.challenge.value| == 43
    && (forall i :: 0 <= i < 43 ==> IsChallengeChar(form.challenge.value[i]))
    && form.state.Some? && form.state.value != []
  }

  /** Exactly the acceptable requests are accepted, and as they were sent. */
  lemma ValidateExact(c: Config, form: Form)
    ensures Validate(c, form).Ok? <==> Acceptable(c, form)
    ensures Validate(c, form).Ok? ==>
              var request := Validate(c, form).value;
              && Some(request.clientId) == form.clientId && request.redirectUri == OrEmpty(form.redirectUri)
              && Some(request.challenge) == form.challenge && Some(request.state) == form.state
              && request.scope == (if form.scope == Some([]) then None else form.scope)
    ensures Validate(c, form).Err? ==> Validate(c, form).error == BadRequest
  {
    if Acceptable(c, form) {
      assert forall i :: 0 <= i < 43 ==> IsChallengeChar(form.challenge.value[i]) ==> IsBase64Url(form.challenge.value[i]);
    }
  }

  /** The entry a consent puts in `codes`. */
  function CodeFor(request: AuthorizeRequest, user: Text, consent: nat, now: int): IssuedCode {
    IssuedCode(Grant(user, request.clientId, request.scope, consent), request.redirectUri, request.challenge, now + CODE_TTL)
  }

  function Without<T>(m: map<nat, T>, key: Option<nat>): map<nat, T> {
    match key case Some(k) => m - {k} case None => m
  }

  function Get<T>(m: map<nat, T>, key: Option<nat>): Option<T> {
    if key.Some? && key.value in m then Some(m[key.value]) else None
  }

  /** `exchange` up to its first await: the codes after, and what it goes on to issue. */
  function TakeCode(c: Config, codes: map<nat, IssuedCode>, dto: TokenRequest, now: int)
    : (map<nat, IssuedCode>, Result<Grant, Error>)
  {
    if dto.clientId != Some(c.clientId) then (codes, Err(Unauthorized))
    else
      var issued, rest := Get(codes, dto.code), Without(codes, dto.code);
      if issued.None? || issued.value.expiresAt < now then (rest, Err(InvalidGrant))
      else if Some(issued.value.grant.clientId) != dto.clientId || Some(issued.value.redirectUri) != dto.redirectUri
      then (rest, Err(InvalidGrant))
      else if c.s256(OrEmpty(dto.verifier)) != issued.value.challenge then (rest, Err(InvalidGrant))
      else (rest, Ok(issued.value.grant))
  }

  /** `refresh` up to its first await. */
  function TakeRefresh(tokens: map<nat, Grant>, dto: TokenRequest): (map<nat, Grant>, Result<Grant, Error>) {
    var held, rest := Get(tokens, dto.refreshToken), Without(tokens, dto.refreshToken);
    if held.None? || Some(held.value.clientId) != dto.clientId then (rest, Err(InvalidGrant)) else (rest, Ok(held.value))
  }

  predicate Active(users: map<Text, bool>, user: Text) { user in users && !users[user] }

  /** A code is good for its own client, redirect and verifier, within its minute, and is gone either way. */
  lemma TakeCodeExact(c: Config, codes: map<nat, IssuedCode>, dto: TokenRequest, now: int)
    ensures var (rest, taken) := TakeCode(c, codes, dto, now);
            && (taken.Ok? <==>
                  && dto.clientId == Some(c.clientId) && dto.code.Some? && dto.code.value in codes
                  && var issued := codes[dto.code.value];
                     && now <= issued.expiresAt && issued.grant.clientId == c.clientId
                     && dto.redirectUri == Some(issued.redirectUri) && c.s256(OrEmpty(dto.verifier)) == issued.challenge)
            && (taken.Ok? ==> taken.value == codes[dto.code.value].grant)
            && (dto.clientId == Some(c.clientId) && dto.code.Some? ==> rest.Keys == codes.Keys - {dto.code.value})
            && (forall k :: k in rest ==> k in codes && rest[k] == codes[k])
  {
  }

  class OauthCodeService {
    const config: Config
    var users: map<Text, bool>
    var codes: map<nat, IssuedCode>
    var refreshTokens: map<nat, Grant>

    constructor (config: Config, users: map<Text, bool>)
      ensures this.config == config && this.users == users && codes == map[] && refreshTokens == map[]
    {
      this.config, this.users := config, users;
      codes, refreshTokens := map[], map[];
    }

    method Decide(form: Form, consent: nat, random: nat, now: int) returns (result: Result<Decision, Error>)
      modifies this`codes
      ensures match Validate(config, form)
              case Err(error) => result == Err(error) && codes == old(codes)
              case Ok(request) =>
                if form.denied then result == Ok(Denied) && codes == old(codes)
                else if form.validCredentials && Active(users, form.user)
                then result == Ok(Redirect(random)) && codes == old(codes)[random := CodeFor(request, form.user, consent, now)]
                else result == Err(Unauthorized) && codes == old(codes)
      ensures result.Ok? ==> Acceptable(config, form)
      ensures !Acceptable(config, form) ==> result == Err(BadRequest)
      ensures Acceptable(config, form) && !form.denied ==>
                if form.validCredentials && form.user in users && !users[form.user]
                then && result == Ok(Redirect(random))
                     && codes == old(codes)[random := IssuedCode(
                          Grant(form.user, config.clientId, if form.scope == Some([]) then None else form.scope, consent),
                          OrEmpty(form.redirectUri), form.challenge.value, now + 60_000)]
                else result == Err(Unauthorized)
      ensures result == Ok(Redirect(random)) || codes == old(codes)
    {
      ValidateExact(config, form);
      var validated := Validate(config, form);
      if validated.Err? { return Err(validated.error); }
      if form.denied { return Ok(Denied); }
      if !form.validCredentials || form.user !in users || users[form.user] { return Err(Unauthorized); }
      codes := codes[random := CodeFor(validated.value, form.user, consent, now)];
      result := Ok(Redirect(random));
    }

    method Issue(grant: Grant, random: nat) returns (result: Result<nat, Error>)
      modifies this`refreshTokens
      ensures if Active(users, grant.user)
              then result == Ok(random) && refreshTokens == old(refreshTokens)[random := grant]
              else result == Err(Unauthorized) && refreshTokens == old(refreshTokens)
      ensures result.Ok? <==> grant.user in users && !users[grant.user]
    {
      if grant.user !in users || users[grant.user] { return Err(Unauthorized); }
      refreshTokens := refreshTokens[random := grant];
      result := Ok(random);
    }

    method Exchange(dto: TokenRequest, random: nat, now: int) returns (result: Result<nat, Error>)
      modifies this`codes, this`refreshTokens
      ensures codes == TakeCode(config, old(codes), dto, now).0
      ensures match TakeCode(config, old(codes), dto, now).1
              case Ok(grant) =>
                if Active(users, grant.user) then result == Ok(random) && refreshTokens == old(refreshTokens)[random := grant]
                else result == Err(Unauthorized) && refreshTokens == old(refreshTokens)
              case Err(error) => result == Err(error) && refreshTokens == old(refreshTokens)
      ensures result.Ok? <==>
                && dto.clientId == Some(config.clientId) && dto.code.Some? && dto.code.value in old(codes)
                && var issued := old(codes)[dto.code.value];
                   && now <= issued.expiresAt && issued.grant.clientId == config.clientId
                   && dto.redirectUri == Some(issued.redirectUri)
                   && config.s256(if dto.verifier.Some? then dto.verifier.value else []) == issued.challenge
                   && issued.grant.user in users && !users[issued.grant.user]
      ensures refreshTokens == if result.Ok? then old(refreshTokens)[random := old(codes)[dto.code.value].grant] else old(refreshTokens)
      ensures codes == if dto.clientId == Some(config.clientId) && dto.code.Some? then old(codes) - {dto.code.value} else old(codes)
      ensures result.Ok? ==> result.value == random
    {
      if dto.clientId != Some(config.clientId) { return Err(Unauthorized); }
      var issued := Get(codes, dto.code);
      codes := Without(codes, dto.code);
      if issued.None? || issued.value.expiresAt < now { return Err(InvalidGrant); }
      if Some(issued.value.grant.clientId) != dto.clientId || Some(issued.value.redirectUri) != dto.redirectUri {
        return Err(InvalidGrant);
      }
      if config.s256(OrEmpty(dto.verifier)) != issued.value.challenge { return Err(InvalidGrant); }
      result := Issue(issued.value.grant, random);
    }

    method Refresh(dto: TokenRequest, random: nat) returns (result: Result<nat, Error>)
      modifies this`refreshTokens
      ensures var (rest, taken) := TakeRefresh(old(refreshTokens), dto);
              match taken
              case Ok(grant) =>
                if Active(users, grant.user) then result == Ok(random) && refreshTokens == rest[random := grant]
                else result == Err(Unauthorized) && refreshTokens == rest
              case Err(error) => result == Err(error) && refreshTokens == rest
      ensures result.Ok? <==>
                && dto.refreshToken.Some? && dto.refreshToken.value in old(refreshTokens)
                && var grant := old(refreshTokens)[dto.refreshToken.value];
                   dto.clientId == Some(grant.clientId) && grant.user in users && !users[grant.user]
      ensures var spent := if dto.refreshToken.Some? then old(refreshTokens) - {dto.refreshToken.value} else old(refreshTokens);
              refreshTokens == if result.Ok? then spent[random := old(refreshTokens)[dto.refreshToken.value]] else spent
      ensures result.Ok? ==> result.value == random
    {
      var held := Get(refreshTokens, dto.refreshToken);
      refreshTokens := Without(refreshTokens, dto.refreshToken);
      if held.None? || Some(held.value.clientId) != dto.clientId { return Err(InvalidGrant); }
      result := Issue(held.value, random);
    }
  }
}
