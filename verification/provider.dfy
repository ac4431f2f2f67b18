/**
 The boundary to the identity provider: the build-time configuration, the
 requests the flows send through the provider's SDK, the responses that
 come back, and the decoded claims of an identity token. The network and
 the claim decoding are not modelled: they enter the flows as function
 parameters, so every property holds whatever the provider answers.
 */
module Provider {
  import opened Js
  import opened AuthErrors
  import SecretHash

  /** The environment variables the flows read. A missing client id, domain
      prefix or region is `None`; an unset client secret is the empty string. */
  datatype Config = Config(
    region: Option<string>,
    clientId: Option<string>,
    clientSecret: string,
    domainPrefix: Option<string>)

  const DEFAULT_REGION: string := "ap-northeast-2"

  /** `VITE_COGNITO_REGION || 'ap-northeast-2'` */
  function Region(cfg: Config): string
  {
    OrElse(cfg.region, DEFAULT_REGION)
  }

  /** A user attribute sent with a sign-up. */
  datatype Attribute = Attribute(name: string, value: string)

  const USER_PASSWORD_AUTH: string := "USER_PASSWORD_AUTH"

  /** The four SDK commands the flows send. `clientId` is whatever the
      configuration held, so it may be missing. */
  datatype SdkRequest =
    | InitiateAuth(authFlow: string, clientId: Option<string>, username: string,
                   password: string, secretHash: string)
    | SignUp(clientId: Option<string>, username: string, password: string,
             secretHash: string, attributes: seq<Attribute>)
    | ConfirmSignUp(clientId: Option<string>, username: string, code: string,
                    secretHash: string)
    | ResendConfirmationCode(clientId: Option<string>, username: string,
                             secretHash: string)

  /** The tokens of a successful password authentication; each may be absent. */
  datatype AuthResult = AuthResult(
    accessToken: Option<string>,
    idToken: Option<string>,
    refreshToken: Option<string>)

  /** What `client.send` resolves to, or the error it rejects with. A
      response without `AuthenticationResult` (a challenge) has `None`. */
  datatype SdkResponse =
    | Accepted(authResult: Option<AuthResult>)
    | Rejected(error: ProviderError)

  /** The provider, as seen through the SDK. */
  type Sdk = SdkRequest -> SdkResponse

  /** The request's `SecretHash` is the hash of its own `Username` and
      `ClientId` under the client secret: the check the provider makes. */
  predicate SignsOwnUsername(req: SdkRequest, hmac: SecretHash.Hmac, clientSecret: string)
  {
    req.secretHash == SecretHash.Calculate(hmac, req.username, ToJsString(req.clientId), clientSecret)
  }

  /** The claims of an identity token's payload, as strings. */
  type Claims = map<string, string>

  const EMAIL_CLAIM: string := "email"
  const USERNAME_CLAIM: string := "cognito:username"

  /** `JSON.parse(atob(token.split('.')[1]))`: the payload's claims, or
      `None` when any step throws. Not modelled. */
  type ClaimDecoder = string -> Option<Claims>

  /** A claim's value, or `None` when the payload lacks it. */
  function Claim(claims: Claims, name: string): Option<string>
  {
    if name in claims then Some(claims[name]) else None
  }

  // ---------------------------------------------------------------------
  // The provider's hosted OAuth 2.0 endpoints (section 4.1 of RFC 6749)

  /** `https://<prefix>.auth.<region>.amazoncognito.com<path>` */
  function HostedUiUrl(domainPrefix: string, region: string, path: string): string
  {
    "https://" + domainPrefix + ".auth." + region + ".amazoncognito.com" + path
  }

  const AUTHORIZE_PATH: string := "/oauth2/authorize"
  const TOKEN_PATH: string := "/oauth2/token"

  /** The redirect URI registered for the callback page. */
  function RedirectUri(origin: string): string
  {
    origin + "/oauth-callback"
  }

  /** Form or query parameters, in order, before percent-encoding. */
  type Params = seq<(string, string)>

  /** `params.get(key)`: the first value under `key`. */
  function ParamGet(params: Params, key: string): Option<string>
  {
    if |params| == 0 then None
    else if params[0].0 == key then Some(params[0].1)
    else ParamGet(params[1..], key)
  }

  /** The keys of `params`, in order. */
  function ParamKeys(params: Params): seq<string>
  {
    seq(|params|, i requires 0 <= i < |params| => params[i].0)
  }

  /** A parameter whose key does not occur earlier is what `get` finds. */
  lemma {:induction false} ParamGetAt(params: Params, i: nat)
    requires i < |params|
    requires forall j :: 0 <= j < i ==> params[j].0 != params[i].0
    ensures ParamGet(params, params[i].0) == Some(params[i].1)
  {
    if i > 0 {
      ParamGetAt(params[1..], i - 1);
    }
  }
}
