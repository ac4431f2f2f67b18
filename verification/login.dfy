/**
 The login page: password login (`onSubmit`), saving its tokens and the
 profile derived from them (`handleAuthenticationSuccess`), and starting a
 federated login with the provider's hosted UI (`handleGoogleLogin`).
 */
module PasswordLogin {
  import opened Js
  import opened Storage
  import opened AuthErrors
  import opened Provider
  import SecretHash

  datatype LoginForm = LoginForm(email: string, password: string)

  /** What the page does next: show the form's required-field notes
      without submitting, go to the dashboard, or raise an alert. */
  datatype LoginNext = FieldsRequired | ToDashboard | Alert(text: string)

  /** The request sent, if any, the store afterwards, and the next step. */
  datatype LoginOutcome = LoginOutcome(sent: Option<SdkRequest>, store: Store, next: LoginNext)

  const MISSING_CLIENT_ID_TEXT: string := "Cognito Client ID가 설정되지 않았습니다."
  const NO_AUTH_RESULT_TEXT: string := "인증 결과가 없습니다."
  const LOGIN_FAILED_TEXT: string := "로그인 중 오류가 발생했습니다."
  const MISSING_DOMAIN_TEXT: string := "Cognito 도메인 설정이 없습니다."

  // ---------------------------------------------------------------------
  // Saving a successful login

  /** The claims of the identity token, when there is one and it decodes. */
  function DecodedClaims(result: AuthResult, decode: ClaimDecoder): Option<Claims>
  {
    if Truthy(result.idToken) then decode(result.idToken.value) else None
  }

  /** `handleAuthenticationSuccess(result, email)`: the three tokens (`''`
      when absent), then the e-mail and the part of it before `@`, then
      whatever the decoded `email` and `cognito:username` claims override. */
  function PersistAuthentication(result: AuthResult, email: string,
                                 decode: ClaimDecoder, store: Store): (r: Store)
    ensures r.Keys == store.Keys + SESSION_KEYS
    ensures AgreeOutside(r, store, SESSION_KEYS)
    ensures r[ACCESS_TOKEN] == OrElse(result.accessToken, "")
    ensures r[ID_TOKEN] == OrElse(result.idToken, "")
    ensures r[REFRESH_TOKEN] == OrElse(result.refreshToken, "")
    ensures DecodedClaims(result, decode).None?
            ==> r[USER_EMAIL] == email && r[USERNAME] == BeforeFirst(email, '@')
    ensures DecodedClaims(result, decode).Some? ==>
              var claims := DecodedClaims(result, decode).value;
              && r[USER_EMAIL] == OrElse(Claim(claims, EMAIL_CLAIM), email)
              && r[USERNAME] == OrElse(Claim(claims, USERNAME_CLAIM), BeforeFirst(email, '@'))
  {
    var tokens := SetTokens(store, OrElse(result.accessToken, ""), OrElse(result.idToken, ""),
                            OrElse(result.refreshToken, ""));
    var profile := SetProfile(tokens, email, BeforeFirst(email, '@'));
    match DecodedClaims(result, decode)
    case None => profile
    case Some(claims) =>
      var withEmail :=
        if Truthy(Claim(claims, EMAIL_CLAIM)) then SetItem(profile, USER_EMAIL, claims[EMAIL_CLAIM]) else profile;
      if Truthy(Claim(claims, USERNAME_CLAIM)) then SetItem(withEmail, USERNAME, claims[USERNAME_CLAIM])
      else withEmail
  }

  /** A claim decoding that fails loses only the profile overrides: the
      store is exactly the one a login without an identity token would give
      for the same access and refresh tokens, apart from `idToken` itself. */
  lemma DecodeFailureIsAbsorbed(result: AuthResult, email: string, decode: ClaimDecoder, store: Store)
    requires DecodedClaims(result, decode).None?
    ensures var r := PersistAuthentication(result, email, decode, store);
            var bare := PersistAuthentication(result.(idToken := None), email, decode, store);
            r == SetItem(bare, ID_TOKEN, OrElse(result.idToken, ""))
  {
    var r := PersistAuthentication(result, email, decode, store);
    var bare := PersistAuthentication(result.(idToken := None), email, decode, store);
    assert r.Keys == SetItem(bare, ID_TOKEN, OrElse(result.idToken, "")).Keys;
  }

  /** The tokens saved do not depend on the claim decoding. */
  lemma TokensIndependentOfDecoding(result: AuthResult, email: string,
                                    d1: ClaimDecoder, d2: ClaimDecoder, store: Store)
    ensures var r1 := PersistAuthentication(result, email, d1, store);
            var r2 := PersistAuthentication(result, email, d2, store);
            && r1[ACCESS_TOKEN] == r2[ACCESS_TOKEN]
            && r1[ID_TOKEN] == r2[ID_TOKEN]
            && r1[REFRESH_TOKEN] == r2[REFRESH_TOKEN]
            && r1.Keys == r2.Keys
  {
  }

  // ---------------------------------------------------------------------
  // Password login

  /** The alert for an error thrown or rejected during the login:
      `error.message || '...'`. */
  function AlertText(e: ProviderError): string
  {
    OrElse(e.message, LOGIN_FAILED_TEXT)
  }

  /** `onSubmit` behind the form's required-field validation. */
  function Submit(form: LoginForm, cfg: Config, hmac: SecretHash.Hmac, send: Sdk,
                  decode: ClaimDecoder, store: Store): (o: LoginOutcome)
    ensures form.email == "" || form.password == ""
            ==> o == LoginOutcome(None, store, FieldsRequired)
    ensures form.email != "" && form.password != "" && !Truthy(cfg.clientId)
            ==> o == LoginOutcome(None, store, Alert(MISSING_CLIENT_ID_TEXT))
    ensures o.sent.Some? <==> form.email != "" && form.password != "" && Truthy(cfg.clientId)
    ensures o.sent.Some? ==>
              && o.sent.value == InitiateAuth(USER_PASSWORD_AUTH, cfg.clientId, form.email,
                                              form.password, o.sent.value.secretHash)
              && SignsOwnUsername(o.sent.value, hmac, cfg.clientSecret)
    ensures o.next == ToDashboard <==>
              o.sent.Some? && send(o.sent.value).Accepted? && send(o.sent.value).authResult.Some?
    ensures o.next == ToDashboard ==>
              o.store == PersistAuthentication(send(o.sent.value).authResult.value, form.email, decode, store)
    ensures o.next != ToDashboard ==> o.store == store
    ensures o.sent.Some? && send(o.sent.value).Rejected?
            ==> o.next == Alert(AlertText(send(o.sent.value).error))
    ensures o.sent.Some? && send(o.sent.value) == Accepted(None)
            ==> o.next == Alert(NO_AUTH_RESULT_TEXT)
  {
    if form.email == "" || form.password == "" then
      LoginOutcome(None, store, FieldsRequired)
    else if !Truthy(cfg.clientId) then
      LoginOutcome(None, store, Alert(AlertText(ThrownError(MISSING_CLIENT_ID_TEXT))))
    else
      var clientId := cfg.clientId.value;
      var secretHash := SecretHash.Calculate(hmac, form.email, clientId, cfg.clientSecret);
      var req := InitiateAuth(USER_PASSWORD_AUTH, cfg.clientId, form.email, form.password, secretHash);
      match send(req)
      case Rejected(e) => LoginOutcome(Some(req), store, Alert(AlertText(e)))
      case Accepted(None) => LoginOutcome(Some(req), store, Alert(AlertText(ThrownError(NO_AUTH_RESULT_TEXT))))
      case Accepted(Some(result)) =>
        LoginOutcome(Some(req), PersistAuthentication(result, form.email, decode, store), ToDashboard)
  }

  /** A rejection is shown with the provider's own message: the login page
      does not translate it, so an unconfirmed user sees the raw text and is
      not sent on to verification. */
  lemma RejectionIsNotTranslated(form: LoginForm, cfg: Config, hmac: SecretHash.Hmac,
                                 decode: ClaimDecoder, store: Store)
    requires form.email != "" && form.password != "" && Truthy(cfg.clientId)
    ensures var send := (req: SdkRequest) =>
              Rejected(ProviderError(Some(USER_NOT_CONFIRMED), Some("User is not confirmed.")));
            Submit(form, cfg, hmac, send, decode, store).next == Alert("User is not confirmed.")
  {
  }

  // ---------------------------------------------------------------------
  // Starting the authorization-code flow

  /** The provider's authorization endpoint and the query sent to it. */
  datatype AuthorizeRedirect = AuthorizeRedirect(endpoint: string, query: Params)

  /** Where the page goes: to the provider, or nowhere, with an alert. */
  datatype GoogleNext = RedirectToProvider(to: AuthorizeRedirect) | GoogleAlert(text: string)

  datatype GoogleOutcome = GoogleOutcome(store: Store, next: GoogleNext)

  /** The authorization request of section 4.1.1 of RFC 6749, with the
      provider's `identity_provider` extension. */
  function AuthorizeQuery(cfg: Config, origin: string, state: string): Params
  {
    [("response_type", "code"),
     ("client_id", ToJsString(cfg.clientId)),
     ("redirect_uri", RedirectUri(origin)),
     ("identity_provider", "Google"),
     ("scope", "email openid profile"),
     ("state", state)]
  }

  lemma AuthorizeQueryParams(cfg: Config, origin: string, state: string)
    ensures var q := AuthorizeQuery(cfg, origin, state);
            && ParamGet(q, "response_type") == Some("code")
            && ParamGet(q, "client_id") == Some(ToJsString(cfg.clientId))
            && ParamGet(q, "redirect_uri") == Some(RedirectUri(origin))
            && ParamGet(q, "identity_provider") == Some("Google")
            && ParamGet(q, "scope") == Some("email openid profile")
            && ParamGet(q, "state") == Some(state)
  {
    var q := AuthorizeQuery(cfg, origin, state);
    ParamGetAt(q, 0);
    ParamGetAt(q, 1);
    ParamGetAt(q, 2);
    ParamGetAt(q, 3);
    ParamGetAt(q, 4);
    ParamGetAt(q, 5);
  }

  /** `handleGoogleLogin`, given the page's origin and the random state it
      generates. */
  function GoogleLogin(cfg: Config, origin: string, nonce: string, store: Store): (o: GoogleOutcome)
    ensures !Truthy(cfg.domainPrefix) ==> o == GoogleOutcome(store, GoogleAlert(MISSING_DOMAIN_TEXT))
    ensures Truthy(cfg.domainPrefix) ==>
              && o.next.RedirectToProvider?
              && o.store.Keys == store.Keys + {OAUTH_STATE}
              && AgreeOutside(o.store, store, {OAUTH_STATE})
              && o.next.to.endpoint == HostedUiUrl(cfg.domainPrefix.value, Region(cfg), AUTHORIZE_PATH)
    ensures o.next.RedirectToProvider? ==>
              var q := o.next.to.query;
              && ParamGet(q, "state") == GetItem(o.store, OAUTH_STATE) == Some(nonce)
              && ParamGet(q, "response_type") == Some("code")
              && ParamGet(q, "client_id") == Some(ToJsString(cfg.clientId))
              && ParamGet(q, "redirect_uri") == Some(RedirectUri(origin))
              && ParamGet(q, "identity_provider") == Some("Google")
              && ParamGet(q, "scope") == Some("email openid profile")
              && ParamKeys(q) == ["response_type", "client_id", "redirect_uri",
                                  "identity_provider", "scope", "state"]
  {
    if !Truthy(cfg.domainPrefix) then
      GoogleOutcome(store, GoogleAlert(MISSING_DOMAIN_TEXT))
    else
      var endpoint := HostedUiUrl(cfg.domainPrefix.value, Region(cfg), AUTHORIZE_PATH);
      AuthorizeQueryParams(cfg, origin, nonce);
      GoogleOutcome(SetItem(store, OAUTH_STATE, nonce),
                    RedirectToProvider(AuthorizeRedirect(endpoint, AuthorizeQuery(cfg, origin, nonce))))
  }
}
