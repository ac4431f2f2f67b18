/**
 Properties of the flows taken together: what a login leaves for the
 guard, a whole authorization-code round trip from the login page to the
 callback, and a registration followed by its confirmation.
 */
module Scenarios {
  import opened Js
  import opened Storage
  import opened Provider
  import SecretHash
  import Base64
  import Registration
  import Verification
  import PasswordLogin
  import OAuthCallback
  import Session

  // ---------------------------------------------------------------------
  // Password login, then the guard

  /** A password login that reaches the dashboard holds a session the guard
      accepts exactly when the provider returned a non-empty access or
      identity token. */
  lemma LoginSessionIffToken(form: PasswordLogin.LoginForm, cfg: Config, hmac: SecretHash.Hmac,
                             send: Sdk, decode: ClaimDecoder, store: Store, requested: string)
    requires PasswordLogin.Submit(form, cfg, hmac, send, decode, store).next == PasswordLogin.ToDashboard
    ensures var o := PasswordLogin.Submit(form, cfg, hmac, send, decode, store);
            var result := send(o.sent.value).authResult.value;
            Session.Guard(o.store, requested) == Session.Render
            <==> Truthy(result.accessToken) || Truthy(result.idToken)
  {
  }

  /** In particular a provider answer with no tokens at all still sends the
      page to the dashboard, where the guard turns the user away again. */
  lemma TokenlessLoginIsTurnedAway(form: PasswordLogin.LoginForm, cfg: Config, hmac: SecretHash.Hmac,
                                   decode: ClaimDecoder, store: Store, requested: string)
    requires form.email != "" && form.password != "" && Truthy(cfg.clientId)
    ensures var send := (req: SdkRequest) => Accepted(Some(AuthResult(None, None, None)));
            var o := PasswordLogin.Submit(form, cfg, hmac, send, decode, store);
            && o.next == PasswordLogin.ToDashboard
            && Session.Guard(o.store, requested) == Session.RedirectToLogin(requested)
  {
  }

  /** Logging out after a login leaves no session, and whatever the store
      held outside the session keys is back as it was before the login. */
  lemma LoginThenLogout(form: PasswordLogin.LoginForm, cfg: Config, hmac: SecretHash.Hmac,
                        send: Sdk, decode: ClaimDecoder, store: Store)
    ensures var o := PasswordLogin.Submit(form, cfg, hmac, send, decode, store);
            Session.Logout(o.store) == Session.Logout(store)
  {
    var o := PasswordLogin.Submit(form, cfg, hmac, send, decode, store);
    Session.LogoutForgetsSessionWrites(o.store, store);
  }

  // ---------------------------------------------------------------------
  // The authorization-code round trip

  /** The callback the provider sends back after `GoogleLogin`: the code it
      issued and the state it was given. */
  function ProviderCallback(o: PasswordLogin.GoogleOutcome, code: string): OAuthCallback.CallbackQuery
    requires o.next.RedirectToProvider?
  {
    OAuthCallback.CallbackQuery(Some(code), ParamGet(o.next.to.query, "state"))
  }

  /** A round trip through the provider completes: when the login page
      started the flow with a non-empty state and the token endpoint answers
      with tokens, the callback reaches the dashboard; the token request
      names the same redirect URI as the authorization request (section
      4.1.3 of RFC 6749); and the stored state is consumed. */
  lemma RoundTripCompletes(cfg: Config, origin: string, nonce: string, code: string,
                           status: nat, tokens: OAuthCallback.TokenJson, decode: ClaimDecoder, store: Store)
    requires Truthy(cfg.domainPrefix) && Truthy(cfg.clientId) && nonce != "" && code != ""
    requires cfg.clientSecret == "" || Base64.IsLatin1(cfg.clientId.value + ":" + cfg.clientSecret)
    requires OAuthCallback.IsSuccessStatus(status)
    ensures var fetch := (req: OAuthCallback.TokenRequest) => OAuthCallback.HttpResponse(status, "", Some(tokens));
            var g := PasswordLogin.GoogleLogin(cfg, origin, nonce, store);
            var c := OAuthCallback.Process(ProviderCallback(g, code), cfg, origin, fetch, decode, g.store);
            && c.next == OAuthCallback.ToDashboard
            && ParamGet(c.sent.value.body, "redirect_uri") == ParamGet(g.next.to.query, "redirect_uri")
            && OAUTH_STATE !in c.store
  {
    var fetch := (req: OAuthCallback.TokenRequest) => OAuthCallback.HttpResponse(status, "", Some(tokens));
    var g := PasswordLogin.GoogleLogin(cfg, origin, nonce, store);
    var query := ProviderCallback(g, code);
    assert OAuthCallback.StateMatches(query, g.store);
    if cfg.clientSecret != "" {
      assert OAuthCallback.BasicCredentials(cfg.clientId.value, cfg.clientSecret).Some?;
    }
    var c := OAuthCallback.Process(query, cfg, origin, fetch, decode, g.store);
    assert c.sent.Some?;
    OAuthCallback.TokenBodyParams(cfg.clientId.value, code, origin);
  }

  /** A state that is the empty string can never be matched: a flow started
      with an empty nonce always fails at the callback, whatever comes
      back. */
  lemma EmptyNonceNeverCompletes(cfg: Config, origin: string, query: OAuthCallback.CallbackQuery,
                                 fetch: OAuthCallback.Fetch, decode: ClaimDecoder, store: Store)
    requires Truthy(cfg.domainPrefix)
    ensures var g := PasswordLogin.GoogleLogin(cfg, origin, "", store);
            OAuthCallback.Process(query, cfg, origin, fetch, decode, g.store).next
            == OAuthCallback.ShowError(OAuthCallback.StateMismatch)
  {
  }

  /** Logging out while a flow is pending does not cancel it: the callback
      still finds its state. */
  lemma LogoutKeepsPendingFlow(cfg: Config, origin: string, nonce: string, code: string,
                               fetch: OAuthCallback.Fetch, decode: ClaimDecoder, store: Store)
    requires Truthy(cfg.domainPrefix) && nonce != ""
    ensures var g := PasswordLogin.GoogleLogin(cfg, origin, nonce, store);
            OAuthCallback.StateMatches(ProviderCallback(g, code), Session.Logout(g.store))
  {
    var g := PasswordLogin.GoogleLogin(cfg, origin, nonce, store);
    Session.LogoutKeepsOAuthState(g.store);
  }

  // ---------------------------------------------------------------------
  // Registration, then confirmation

  /** With the corrected registration, the address a successful sign-up
      hands on is the user name it registered, and confirming it signs that
      same name: the hash the provider checks at sign-up and at
      confirmation is over one string. */
  lemma ConfirmSignsRegisteredName(form: Registration.RegisterForm, cfg: Config, timestamp: nat,
                                   hmac: SecretHash.Hmac, send: Sdk, code: string)
    requires Registration.Submit(form, cfg, timestamp, hmac, send).next.ToVerifyEmail?
    ensures var r := Registration.Submit(form, cfg, timestamp, hmac, send);
            var c := Verification.Confirm(r.next.email, code, cfg, hmac, send);
            && c.sent.value.username == r.sent.value.username
            && c.sent.value.secretHash == r.sent.value.secretHash
  {
  }

  /** Registration as written breaks that agreement: confirmation sends the
      same user name as sign-up but a different hash, because sign-up
      signed the address as typed. The hypothesis rules out only an HMAC
      that gives the two messages one digest. */
  lemma ConfirmAsWrittenSignsAnotherHash(form: Registration.RegisterForm, cfg: Config, timestamp: nat,
                                         hmac: SecretHash.Hmac, send: Sdk, code: string)
    requires Registration.SubmitAsWritten(form, cfg, timestamp, hmac, send).next.ToVerifyEmail?
    requires '@' in form.email
    requires hmac(cfg.clientSecret, form.email + cfg.clientId.value)
          != hmac(cfg.clientSecret, Registration.UniqueEmail(form.email, timestamp) + cfg.clientId.value)
    ensures var r := Registration.SubmitAsWritten(form, cfg, timestamp, hmac, send);
            var c := Verification.Confirm(r.next.email, code, cfg, hmac, send);
            && c.sent.value.username == r.sent.value.username
            && c.sent.value.secretHash != r.sent.value.secretHash
  {
    var r := Registration.SubmitAsWritten(form, cfg, timestamp, hmac, send);
    var c := Verification.Confirm(r.next.email, code, cfg, hmac, send);
    if c.sent.value.secretHash == r.sent.value.secretHash {
      SecretHash.EqualHashesEqualDigests(hmac, r.next.email, cfg.clientId.value, cfg.clientSecret,
                                         form.email, cfg.clientId.value, cfg.clientSecret);
    }
  }
}
