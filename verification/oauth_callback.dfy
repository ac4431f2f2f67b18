/**
 The callback of the authorization-code flow (`OAuthCallback`'s
 `processAuth`, section 4.1.2 to 4.1.4 of RFC 6749): the `state` returned
 must equal the one stored when the flow started (the defence of section
 10.12 of RFC 6749), the code is exchanged for tokens at the token
 endpoint, and only a successful exchange saves the tokens and consumes the
 stored state.
 */
module OAuthCallback {
  import opened Js
  import opened Storage
  import opened Provider
  import Base64

  /** The `code` and `state` parameters of the callback URL. */
  datatype CallbackQuery = CallbackQuery(code: Option<string>, state: Option<string>)

  /** The POST to the token endpoint: its URL, its optional `Authorization`
      header and its form body (sent as
      `application/x-www-form-urlencoded`). */
  datatype TokenRequest = TokenRequest(endpoint: string, authorization: Option<string>, body: Params)

  /** The token response's JSON fields the flow reads. */
  datatype TokenJson = TokenJson(accessToken: Option<string>, idToken: Option<string>, refreshToken: Option<string>)

  /** What `fetch` gives: a rejection (no response at all), or a response
      with its status, its body text, and its body parsed as JSON (`None`
      when it does not parse). */
  datatype FetchResult =
    | FetchRejected(message: Option<string>)
    | HttpResponse(status: nat, text: string, json: Option<TokenJson>)

  /** The network, as seen through `fetch`. */
  type Fetch = TokenRequest -> FetchResult

  /** Why the callback failed. */
  datatype CallbackFailure =
    | StateMismatch
    | MissingCode
    | MissingConfig
    | CredentialsNotEncodable
    | NetworkFailure(message: Option<string>)
    | TokenExchangeFailed(status: nat, body: string)
    | InvalidTokenResponse

  datatype CallbackNext = ToDashboard | ShowError(failure: CallbackFailure)

  const STATE_MISMATCH_TEXT: string := "상태 값이 일치하지 않습니다. 보안 문제가 발생했을 수 있습니다."
  const MISSING_CODE_TEXT: string := "인증 코드가 없습니다."
  const MISSING_CONFIG_TEXT: string := "Cognito 설정이 누락되었습니다."
  const TOKEN_EXCHANGE_FAILED_PREFIX: string := "토큰 교환 실패: "
  const PROCESS_FAILED_TEXT: string := "인증 처리 중 오류가 발생했습니다."

  /** The text the page shows for a failure: `error.message || '...'`. A
      rejected `fetch` carries its message as a parameter. A `btoa` that
      throws and a body that is not JSON carry the browser's own messages,
      which are not modelled; for them `None`. */
  function FailureText(f: CallbackFailure): (r: Option<string>)
    ensures r.Some? <==> !(f.CredentialsNotEncodable? || f.InvalidTokenResponse?)
    ensures f.TokenExchangeFailed? ==> StartsWith(r.value, TOKEN_EXCHANGE_FAILED_PREFIX)
    ensures f.NetworkFailure? ==> r.value != ""
  {
    match f
    case StateMismatch => Some(STATE_MISMATCH_TEXT)
    case MissingCode => Some(MISSING_CODE_TEXT)
    case MissingConfig => Some(MISSING_CONFIG_TEXT)
    case CredentialsNotEncodable => None
    case NetworkFailure(message) => Some(OrElse(message, PROCESS_FAILED_TEXT))
    case TokenExchangeFailed(status, body) =>
      Some(TOKEN_EXCHANGE_FAILED_PREFIX + Decimal(status) + " " + body)
    case InvalidTokenResponse => None
  }

  /** The request sent, if any, the store afterwards, and the next step. */
  datatype CallbackOutcome = CallbackOutcome(sent: Option<TokenRequest>, store: Store, next: CallbackNext)

  /** `response.ok`: a 2xx status. */
  predicate IsSuccessStatus(status: int)
  {
    200 <= status <= 299
  }

  /** The state check: a non-empty `state` equal to the stored one. */
  predicate StateMatches(query: CallbackQuery, store: Store)
  {
    Truthy(query.state) && GetItem(store, OAUTH_STATE) == query.state
  }

  /** The token request of section 4.1.3 of RFC 6749. */
  function TokenBody(clientId: string, code: string, origin: string): Params
  {
    [("grant_type", "authorization_code"),
     ("client_id", clientId),
     ("code", code),
     ("redirect_uri", RedirectUri(origin))]
  }

  lemma TokenBodyParams(clientId: string, code: string, origin: string)
    ensures var b := TokenBody(clientId, code, origin);
            && ParamKeys(b) == ["grant_type", "client_id", "code", "redirect_uri"]
            && ParamGet(b, "grant_type") == Some("authorization_code")
            && ParamGet(b, "client_id") == Some(clientId)
            && ParamGet(b, "code") == Some(code)
            && ParamGet(b, "redirect_uri") == Some(RedirectUri(origin))
  {
    var b := TokenBody(clientId, code, origin);
    ParamGetAt(b, 0);
    ParamGetAt(b, 1);
    ParamGetAt(b, 2);
    ParamGetAt(b, 3);
  }

  /** The credentials of HTTP Basic client authentication (section 2.3.1 of
      RFC 6749): `btoa(clientId + ':' + clientSecret)`. */
  function BasicCredentials(clientId: string, clientSecret: string): Option<string>
  {
    Base64.Btoa(clientId + ":" + clientSecret)
  }

  /** Saves the tokens (`''` when absent) and, when the identity token
      decodes, the profile from its claims. Without a decodable identity
      token the profile keys keep whatever they held. */
  function PersistTokens(t: TokenJson, decode: ClaimDecoder, store: Store): (r: Store)
    ensures store.Keys + {ACCESS_TOKEN, ID_TOKEN, REFRESH_TOKEN} <= r.Keys <= store.Keys + SESSION_KEYS
    ensures AgreeOutside(r, store, SESSION_KEYS)
    ensures r[ACCESS_TOKEN] == OrElse(t.accessToken, "")
    ensures r[ID_TOKEN] == OrElse(t.idToken, "")
    ensures r[REFRESH_TOKEN] == OrElse(t.refreshToken, "")
    ensures !Truthy(t.idToken) || decode(t.idToken.value).None?
            ==> GetItem(r, USER_EMAIL) == GetItem(store, USER_EMAIL)
                && GetItem(r, USERNAME) == GetItem(store, USERNAME)
    ensures Truthy(t.idToken) && decode(t.idToken.value).Some? ==>
              var claims := decode(t.idToken.value).value;
              var email := OrElse(Claim(claims, EMAIL_CLAIM), "");
              && GetItem(r, USER_EMAIL) == Some(email)
              && GetItem(r, USERNAME) == Some(OrElse(Claim(claims, USERNAME_CLAIM), BeforeFirst(email, '@')))
  {
    var tokens := SetTokens(store, OrElse(t.accessToken, ""), OrElse(t.idToken, ""),
                            OrElse(t.refreshToken, ""));
    if !Truthy(t.idToken) then tokens
    else
      match decode(t.idToken.value)
      case None => tokens
      case Some(claims) =>
        var email := OrElse(Claim(claims, EMAIL_CLAIM), "");
        var profile := SetProfile(tokens, email, BeforeFirst(email, '@'));
        if Truthy(Claim(claims, USERNAME_CLAIM)) then SetItem(profile, USERNAME, claims[USERNAME_CLAIM])
        else profile
  }

  /** `processAuth` for the callback URL's parameters, the page origin, and
      the store as it was when the page loaded. */
  function Process(query: CallbackQuery, cfg: Config, origin: string, fetch: Fetch,
                   decode: ClaimDecoder, store: Store): (o: CallbackOutcome)
    ensures !StateMatches(query, store) ==> o == CallbackOutcome(None, store, ShowError(StateMismatch))
    ensures StateMatches(query, store) && !Truthy(query.code)
            ==> o == CallbackOutcome(None, store, ShowError(MissingCode))
    ensures StateMatches(query, store) && Truthy(query.code)
            && (!Truthy(cfg.clientId) || !Truthy(cfg.domainPrefix))
            ==> o == CallbackOutcome(None, store, ShowError(MissingConfig))
    ensures o.sent.Some? ==>
              && StateMatches(query, store) && Truthy(query.code)
              && Truthy(cfg.clientId) && Truthy(cfg.domainPrefix)
              && o.sent.value.endpoint == HostedUiUrl(cfg.domainPrefix.value, Region(cfg), TOKEN_PATH)
              && o.sent.value.body == TokenBody(cfg.clientId.value, query.code.value, origin)
              && (o.sent.value.authorization.Some? <==> cfg.clientSecret != "")
              && (o.sent.value.authorization.Some? ==>
                    var credentials := BasicCredentials(cfg.clientId.value, cfg.clientSecret);
                    credentials.Some? && o.sent.value.authorization == Some("Basic " + credentials.value))
    ensures o.sent.Some? <==>
              && StateMatches(query, store) && Truthy(query.code)
              && Truthy(cfg.clientId) && Truthy(cfg.domainPrefix)
              && (cfg.clientSecret == "" || BasicCredentials(cfg.clientId.value, cfg.clientSecret).Some?)
    ensures o.sent.None? && StateMatches(query, store) && Truthy(query.code)
            && Truthy(cfg.clientId) && Truthy(cfg.domainPrefix)
            ==> o.next == ShowError(CredentialsNotEncodable)
    ensures o.next.ShowError? ==> o.store == store
    ensures o.next == ToDashboard <==>
              && o.sent.Some?
              && fetch(o.sent.value).HttpResponse?
              && IsSuccessStatus(fetch(o.sent.value).status)
              && fetch(o.sent.value).json.Some?
    ensures o.next == ToDashboard ==>
              o.store == RemoveItem(PersistTokens(fetch(o.sent.value).json.value, decode, store), OAUTH_STATE)
    ensures o.sent.Some? && fetch(o.sent.value).HttpResponse?
            && !IsSuccessStatus(fetch(o.sent.value).status)
            ==> o.next == ShowError(TokenExchangeFailed(fetch(o.sent.value).status, fetch(o.sent.value).text))
    ensures o.sent.Some? && fetch(o.sent.value).FetchRejected?
            ==> o.next == ShowError(NetworkFailure(fetch(o.sent.value).message))
    ensures o.sent.Some? && fetch(o.sent.value).HttpResponse?
            && IsSuccessStatus(fetch(o.sent.value).status) && fetch(o.sent.value).json.None?
            ==> o.next == ShowError(InvalidTokenResponse)
  {
    if !StateMatches(query, store) then CallbackOutcome(None, store, ShowError(StateMismatch))
    else if !Truthy(query.code) then CallbackOutcome(None, store, ShowError(MissingCode))
    else if !Truthy(cfg.clientId) || !Truthy(cfg.domainPrefix) then
      CallbackOutcome(None, store, ShowError(MissingConfig))
    else
      var clientId := cfg.clientId.value;
      var credentials := BasicCredentials(clientId, cfg.clientSecret);
      if cfg.clientSecret != "" && credentials.None? then
        CallbackOutcome(None, store, ShowError(CredentialsNotEncodable))
      else
        var authorization := if cfg.clientSecret != "" then Some("Basic " + credentials.value) else None;
        var endpoint := HostedUiUrl(cfg.domainPrefix.value, Region(cfg), TOKEN_PATH);
        var req := TokenRequest(endpoint, authorization, TokenBody(clientId, query.code.value, origin));
        match fetch(req)
        case FetchRejected(message) => CallbackOutcome(Some(req), store, ShowError(NetworkFailure(message)))
        case HttpResponse(status, text, json) =>
          if !IsSuccessStatus(status) then
            CallbackOutcome(Some(req), store, ShowError(TokenExchangeFailed(status, text)))
          else if json.None? then
            CallbackOutcome(Some(req), store, ShowError(InvalidTokenResponse))
          else
            CallbackOutcome(Some(req), RemoveItem(PersistTokens(json.value, decode, store), OAUTH_STATE),
                            ToDashboard)
  }

  /** A forged or stale callback, whose `state` is not the stored one,
      sends nothing and changes nothing, whatever the network and the
      configuration. */
  lemma ForgedStateSendsNothing(query: CallbackQuery, cfg: Config, origin: string, fetch: Fetch,
                                decode: ClaimDecoder, store: Store)
    requires Truthy(query.state) && GetItem(store, OAUTH_STATE) != query.state
    ensures Process(query, cfg, origin, fetch, decode, store)
         == CallbackOutcome(None, store, ShowError(StateMismatch))
  {
  }

  /** The stored state is single-use: after a successful callback, the same
      callback (same code, same state) is refused before any request. */
  lemma ReplayFails(query: CallbackQuery, cfg: Config, origin: string, fetch: Fetch,
                    decode: ClaimDecoder, store: Store,
                    cfg2: Config, fetch2: Fetch, decode2: ClaimDecoder)
    requires Process(query, cfg, origin, fetch, decode, store).next == ToDashboard
    ensures var after := Process(query, cfg, origin, fetch, decode, store).store;
            Process(query, cfg2, origin, fetch2, decode2, after)
            == CallbackOutcome(None, after, ShowError(StateMismatch))
  {
    var after := Process(query, cfg, origin, fetch, decode, store).store;
    assert OAUTH_STATE !in after;
  }

  /** The Basic credentials decode to the client id, a colon and the
      secret, byte for byte. */
  lemma BasicCredentialsRoundTrip(clientId: string, clientSecret: string)
    requires Base64.IsLatin1(clientId + ":" + clientSecret)
    ensures BasicCredentials(clientId, clientSecret).Some?
    ensures Base64.Decode(BasicCredentials(clientId, clientSecret).value)
         == Some(Base64.Latin1Bytes(clientId + ":" + clientSecret))
  {
  }

  /** A secret outside Latin-1 makes `btoa` throw: the callback fails before
      the token request. */
  lemma NonLatin1SecretFails(query: CallbackQuery, cfg: Config, origin: string, fetch: Fetch,
                             decode: ClaimDecoder, store: Store)
    requires StateMatches(query, store) && Truthy(query.code)
    requires Truthy(cfg.clientId) && Truthy(cfg.domainPrefix)
    requires cfg.clientSecret != "" && !Base64.IsLatin1(cfg.clientId.value + ":" + cfg.clientSecret)
    ensures Process(query, cfg, origin, fetch, decode, store)
         == CallbackOutcome(None, store, ShowError(CredentialsNotEncodable))
  {
  }
}
