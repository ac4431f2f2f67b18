# Cognito demo session logic in Dafny

This project models the client-side authentication logic of a small React
demo for an Amazon Cognito user pool: the `SECRET_HASH` each SDK request
carries, the translation of provider errors into user-facing messages,
registration, e-mail verification, password login, the OAuth 2.0
authorization-code flow through the hosted UI (initiation and callback), and
the session that the route guard, the dashboard and logout read back from
`localStorage`.

Every flow is a pure function. Its inputs are the form, the build-time
configuration, the store (a `map<string, string>`), and whatever the
outside world answers. It returns what it sent, the store afterwards, and a
tag naming what the page does next. The world enters as function
parameters:

- the HMAC-SHA256 of RFC 2104 is a function `(key, message) -> 32 bytes`;
- the provider's SDK is a function from request to response;
- `fetch` is a function from token request to response;
- decoding an identity token's claims is a function from token to optional
  claim map.

Every property therefore holds whatever the provider, the network or the
decoder answers. Base64 (section 4 of RFC 4648) is modelled concretely, with
a decoder and a proved round trip.

Modules follow the source files:

| file | module | models |
|---|---|---|
| `js.dfy` | `Js` | JavaScript semantics used throughout: truthiness, `\|\|` defaults, `includes`, `split(c)[0]`, `replace` with a string pattern, decimal rendering |
| `storage.dfy` | `Storage` | `localStorage` and the keys the session uses |
| `base64.dfy` | `Base64` | standard Base64, and `btoa` |
| `secret_hash.dfy` | `SecretHash` | `src/utils/secretHash.ts` |
| `auth_errors.dfy` | `AuthErrors` | `handleAuthError` in `src/hooks/useAuth.ts` |
| `provider.dfy` | `Provider` | configuration, SDK requests and responses, claims, hosted-UI URLs, query parameters |
| `registration.dfy` | `Registration` | `src/components/auth/Register.tsx` |
| `verification.dfy` | `Verification` | `src/components/auth/VerifyEmail.tsx` |
| `login.dfy` | `PasswordLogin` | `src/components/auth/Login.tsx` |
| `oauth_callback.dfy` | `OAuthCallback` | `src/components/auth/OAuthCallback.tsx` |
| `session.dfy` | `Session` | `src/components/auth/ProtectedRoute.tsx`, `src/pages/Dashboard.tsx` |
| `scenarios.dfy` | `Scenarios` | properties of several flows in sequence |

Behaviours of the code worth noting:

- the login page alerts the provider's raw `error.message` and does not
  translate it through `handleAuthError`;
- the login page has no challenge outcome: a response without
  `AuthenticationResult` is an error, and nothing is written to the store;
- an unconfirmed user is not sent on to verification from the login page;
- the callback removes `oauth_state` only on success, so every failure path
  leaves it in place;
- `src/App.tsx` registers no `/oauth-callback` route, although the login
  page redirects there. The callback component is modelled as if it were
  mounted.

## Model

| member | source | states |
|---|---|---|
| Js.IncludesIsOccurs | src/hooks/useAuth.ts:26 | the recursive substring test used for `includes` holds exactly when the needle occurs at some position of the message |
| Js.BeforeFirst | src/components/auth/Login.tsx:101 | `email.split('@')[0]` has no `@`, is a prefix of the address, and is followed by the first `@` when it is shorter than the address, so it is the whole address when there is no `@` |
| Js.ReplaceFirstShape | src/components/auth/Register.tsx:82 | replacing a one-character string pattern changes only its first occurrence: the text before it, then the replacement, then the untouched remainder |
| Js.DecimalRoundTrip | src/components/auth/Register.tsx:81-82 | the timestamp's decimal rendering reads back as the same number, so the rendering is injective |
| Base64.DecodeEncode | src/utils/secretHash.ts:13 | decoding the Base64 rendering of any byte string gives the bytes back |
| Base64.EncodeInjective | src/utils/secretHash.ts:13 | distinct digests have distinct Base64 renderings |
| Base64.DigestShape | src/utils/secretHash.ts:13 | a 32-byte digest renders as 44 characters: 43 from `A-Za-z0-9+/` and one trailing `=` |
| Base64.Btoa | src/components/auth/OAuthCallback.tsx:62-64 | `btoa` succeeds exactly on Latin-1 strings, and its output decodes to the string's bytes |
| SecretHash.Calculate | src/utils/secretHash.ts:10-14 | the hash is 44 characters of standard Base64 ending in one `=`, and decodes to the HMAC under the client secret of the user name followed by the client id |
| SecretHash.OnlyKeyAndMessageMatter | src/utils/secretHash.ts:11-12 | two calls with the same secret and the same concatenated message give the same hash, whatever the split between user name and client id |
| SecretHash.NoSeparator | src/utils/secretHash.ts:11 | "user@example.com" with client "abc" and "user@example.co" with client "mabc" get the same hash: there is no separator |
| SecretHash.EqualHashesEqualDigests | src/utils/secretHash.ts:12-13 | equal hashes mean equal HMAC digests, so the rendering loses nothing |
| SecretHash.EmptySecretIsAKey | src/utils/secretHash.ts:10-14 | an empty secret is not special-cased: it is passed to the HMAC as the key |
| AuthErrors.Classify | src/hooks/useAuth.ts:19-71 | for each of the ten messages, the exact condition on name and message under which it is chosen, with earlier rules taking precedence |
| AuthErrors.HandleAuthError | src/hooks/useAuth.ts:19-71 | the function is total, always returns one of the ten fixed texts, and returns the credentials text or the default text exactly when their rule applies |
| AuthErrors.TextInjective | src/hooks/useAuth.ts:26-70 | the ten texts are pairwise distinct, so the text identifies the category |
| AuthErrors.ClassifyIsFirstMatch | src/hooks/useAuth.ts:26-70 | the if-chain equals a first-match lookup over an ordered rule table |
| AuthErrors.CredentialsMessageWins | src/hooks/useAuth.ts:26-33 | `UserNotFoundException` whose message contains "Incorrect username or password" still yields the credentials text |
| AuthErrors.NetworkMessageLosesToEarlierName | src/hooks/useAuth.ts:60-67 | a message containing "network" does not override an earlier name rule |
| AuthErrors.EmptyErrorIsUnknown | src/hooks/useAuth.ts:19-71 | an error with neither name nor message yields the default text |
| AuthErrors.NetworkTestIsCaseSensitive | src/hooks/useAuth.ts:65 | "Network" with a capital letter is not the network rule |
| AuthErrors.ThrownErrorIsUnknown | src/hooks/useAuth.ts:19-71 | a plain `Error` whose message lacks the letter `w` always yields the default text |
| Provider.ParamGetAt | src/components/auth/OAuthCallback.tsx:17-19 | `params.get(key)` finds the value of a parameter whose key does not occur earlier |
| Registration.CheckPasswordPolicy | src/components/auth/Register.tsx:49-50 | the single scan accepts exactly the passwords the regex accepts: at least 8 characters from `[A-Za-z0-9@$!%*?&]` with a lower-case letter, an upper-case letter, a digit and a symbol |
| Registration.PolicyExamples | src/components/auth/Register.tsx:49-54 | "abcdefgh" fails the policy and "Abcdef1!" passes |
| Registration.UniqueEmailShape | src/components/auth/Register.tsx:82 | the unique address is the local part, `+`, the timestamp, then the original `@` and domain |
| Registration.UniqueEmailWithoutAt | src/components/auth/Register.tsx:82 | an address without `@` is left unchanged |
| Registration.UniqueEmailDistinguishesTimestamps | src/components/auth/Register.tsx:80-82 | different timestamps give different user names for the same address |
| Registration.UniqueEmailExample | src/components/auth/Register.tsx:82 | "a@b.c" at timestamp 1 becomes "a+1@b.c" |
| Registration.LocalCheck | src/components/auth/Register.tsx:42-54 | the mismatch check comes first and the policy second; the form passes exactly when the passwords match and meet the policy |
| Registration.SubmitAsWritten | src/components/auth/Register.tsx:36-123 | as written: mismatch, then policy, then a missing client id, all before any request; the request carries the unique address as user name and `email` attribute, but the hash of the typed address; success goes to verification with the unique address, failure shows the translated error |
| Registration.AsWrittenSignsAnotherName | src/components/auth/Register.tsx:69-95 | for any address with an `@`, the as-written request fails the provider's check that the hash is over its own user name |
| Registration.AsWrittenExample | src/components/auth/Register.tsx:81-97 | "a@b.c" at timestamp 1 is registered as "a+1@b.c", with the hash over "a@b.c" |
| Registration.Submit | src/components/auth/Register.tsx:36-123 | mismatch, then policy, then a missing client id, all before any request; the sign-up request's shape and its hash over its own user name; success goes to verification with the unique address, failure shows the translated error |
| Verification.Confirm | src/components/auth/VerifyEmail.tsx:31-69 | confirmation always sends one request, signing the user name it sends; success moves to login and a failure shows exactly the translated error |
| Verification.Resend | src/components/auth/VerifyEmail.tsx:71-112 | nothing is sent exactly when the address is empty; otherwise the request signs its own user name, success only shows a notice, and a failure shows exactly the translated error |
| Verification.MissingClientIdSignsUndefined | src/components/auth/VerifyEmail.tsx:37-42 | without a client id, the signed message is the user name followed by "undefined" |
| PasswordLogin.PersistAuthentication | src/components/auth/Login.tsx:93-119 | the five session keys are added and no other key changes; tokens default to `''`; the profile is the address and its part before `@`, unless non-empty decoded claims override them |
| PasswordLogin.DecodeFailureIsAbsorbed | src/components/auth/Login.tsx:104-115 | a decoding failure gives the store a login without identity token gives, apart from `idToken` itself |
| PasswordLogin.TokensIndependentOfDecoding | src/components/auth/Login.tsx:95-97 | the saved tokens and the set of keys do not depend on the claim decoding |
| PasswordLogin.Submit | src/components/auth/Login.tsx:17-54 | empty fields and a missing client id stop before any request; the request signs its own user name; the store changes exactly when the flow reaches the dashboard; rejections and token-less answers are alerted |
| PasswordLogin.RejectionIsNotTranslated | src/components/auth/Login.tsx:50-52 | an unconfirmed user sees the provider's raw message |
| PasswordLogin.AuthorizeQueryParams | src/components/auth/Login.tsx:73-80 | the authorize query carries `response_type=code`, the client id, the redirect URI, `identity_provider=Google`, the scopes and the state |
| PasswordLogin.GoogleLogin | src/components/auth/Login.tsx:56-90 | without a domain prefix it alerts and stores nothing; otherwise it adds only `oauth_state`, equal to the `state` in the query, and redirects to the authorize endpoint |
| OAuthCallback.FailureText | src/components/auth/OAuthCallback.tsx:25-126 | each failure the flow raises itself has a text, the token-exchange text starts with its fixed prefix, and a network failure never shows an empty text |
| OAuthCallback.TokenBodyParams | src/components/auth/OAuthCallback.tsx:50-55 | the token request body has exactly `grant_type=authorization_code`, `client_id`, `code` and `redirect_uri`, in that order |
| OAuthCallback.PersistTokens | src/components/auth/OAuthCallback.tsx:90-114 | tokens default to `''`; only session keys change; without a decodable identity token the profile keeps its old values; otherwise `userEmail` is the email claim or `''` and `username` its local part, unless `cognito:username` overrides it |
| OAuthCallback.Process | src/components/auth/OAuthCallback.tsx:15-126 | state, then code, then configuration, then `btoa`, all before any request; the token request is sent exactly when all four pass; the request's endpoint and body; a Basic header exactly when a secret is set; a rejected `fetch`, a non-2xx status and a non-JSON body each give their own failure; every failure leaves the store alone; success saves the tokens and removes `oauth_state` |
| OAuthCallback.ForgedStateSendsNothing | src/components/auth/OAuthCallback.tsx:25-27 | a state that is not the stored one sends nothing and changes nothing |
| OAuthCallback.ReplayFails | src/components/auth/OAuthCallback.tsx:17-117 | after a successful callback, the same callback fails the state check before any request |
| OAuthCallback.BasicCredentialsRoundTrip | src/components/auth/OAuthCallback.tsx:62-65 | the Basic credentials decode to the client id, a colon and the secret |
| OAuthCallback.NonLatin1SecretFails | src/components/auth/OAuthCallback.tsx:62-64 | a secret `btoa` cannot encode fails the callback before the token request |
| Session.Guard | src/components/auth/ProtectedRoute.tsx:27-61 | the protected page renders exactly when the access token or the identity token is non-empty; otherwise the user goes to login with the requested location |
| Session.GuardReadsOnlyTokens | src/components/auth/ProtectedRoute.tsx:31-34 | stores that agree on the two token keys get the same decision |
| Session.OtherKeysNeverAuthenticate | src/components/auth/ProtectedRoute.tsx:31-34 | a refresh token, profile keys or `oauth_state` alone never pass the guard |
| Session.LoadUser | src/pages/Dashboard.tsx:37-63 | the dashboard turns the user away exactly when the access token is missing or empty; otherwise it shows the stored profile, with placeholders where a key is missing or empty |
| Session.DashboardImpliesGuard | src/pages/Dashboard.tsx:43-46 | whatever the dashboard accepts, the guard accepts |
| Session.IdTokenOnlyPassesGuardOnly | src/pages/Dashboard.tsx:43-46 | a store with only an identity token passes the guard and fails the dashboard check |
| Session.Logout | src/pages/Dashboard.tsx:69-86 | logout removes exactly the five session keys and leaves every other key as it was |
| Session.LogoutIdempotent | src/pages/Dashboard.tsx:72-76 | logging out twice is logging out once |
| Session.LogoutEndsSession | src/pages/Dashboard.tsx:72-76 | after logout, both the guard and the dashboard turn the user away |
| Session.LogoutForgetsSessionWrites | src/pages/Dashboard.tsx:72-76 | two stores that differ only in the five session keys give the same store after logout |
| Session.LogoutKeepsOAuthState | src/pages/Dashboard.tsx:72-76 | logout leaves `oauth_state` as it was |
| Scenarios.LoginSessionIffToken | src/components/auth/ProtectedRoute.tsx:31-34 | after a successful password login, the guard passes exactly when the provider returned a non-empty access or identity token |
| Scenarios.TokenlessLoginIsTurnedAway | src/components/auth/Login.tsx:45-46 | an answer without tokens still leads to the dashboard, and the guard then turns the user away |
| Scenarios.LoginThenLogout | src/pages/Dashboard.tsx:72-76 | logging out after a login gives the store that logging out before it would have given |
| Scenarios.RoundTripCompletes | src/components/auth/OAuthCallback.tsx:17-121 | a flow started with a non-empty state and answered with tokens reaches the dashboard, uses the same redirect URI in both requests, and consumes the state |
| Scenarios.EmptyNonceNeverCompletes | src/components/auth/Login.tsx:68-69 | a flow started with an empty state always fails at the callback |
| Scenarios.LogoutKeepsPendingFlow | src/pages/Dashboard.tsx:72-76 | a logout while a flow is pending does not stop its callback from matching the state |
| Scenarios.ConfirmSignsRegisteredName | src/components/auth/VerifyEmail.tsx:42-52 | after the corrected registration, confirmation sends and signs the same user name the sign-up signed |
| Scenarios.ConfirmAsWrittenSignsAnotherHash | src/components/auth/VerifyEmail.tsx:42-52 | after registration as written, confirmation sends the same user name as the sign-up but a different hash, unless the HMAC gives the typed and the unique address one digest |

## Left out

- HMAC-SHA256 itself is a function parameter. CryptoJS's handling of an undefined key is not modelled: an unset client secret is the empty string.
- Decoding an identity token (`atob`, `split('.')`, `JSON.parse`) is a function parameter returning an optional claim map. Claims are strings; a claim of another JSON type is not modelled. Identity tokens use base64url (section 5 of RFC 4648), which `atob` may reject; that failure is the decoder's `None`.
- The SDK client and `fetch` are function parameters. Client-side validation inside the SDK, such as a request without a client id, is part of that function.
- The texts of two browser errors are not modelled: the `DOMException` of a `btoa` that throws, and the `SyntaxError` of a token response that is not JSON. The model tags these outcomes instead. A rejected `fetch` carries its message as a parameter.
- OAuthCallback.FailureText: returns `None` for the `btoa` and JSON texts instead of a string.
- `Math.random()` for the OAuth state and `new Date().getTime()` for the registration timestamp are parameters.
- Query strings and form bodies are ordered key/value lists before percent-encoding. The `URLSearchParams` encoding and the final `endpoint?query` string are not modelled.
- React state, loading flags, `setTimeout` delays, success texts and `navigate` are not modelled. Each flow returns a tag naming the next page or message.
- The login form's `required` validation appears only as an empty e-mail or password giving `FieldsRequired`.
- The registration and verification forms' HTML `required` and `type="email"` attributes are not modelled. The browser blocks their submit on empty or malformed fields, while `Registration.Submit` and `Verification.Confirm` model `handleSubmit` on any input.
- The Google login's fallback alert text is unreachable, because the only error thrown there has a message, so it is not modelled.
- A `localStorage.setItem` that throws, for example over quota, is not modelled.
- The SDK client's region is not modelled, because it is not part of any request. The region does appear in the hosted-UI URLs.
- The Amplify-based `useAuth` hook body, `src/components/Dashboard.tsx`, `src/pages/Home.tsx` and `src/config/amplify.ts` are not part of this model. They are a parallel implementation that the application's routes do not use.
- `src/components/auth/CredentialsCheck.tsx`, `src/App.tsx`, `src/main.tsx`, `src/types/auth.ts` and `lambda_function.py` are not part of this model: they are diagnostics, routing, bootstrap, declarations and a passthrough.

## Findings

| source | as written | input that shows it | evidently intended | confidence | as-written member | corrected member |
|---|---|---|---|---|---|---|
| src/components/auth/Register.tsx:69 | the sign-up's `SecretHash` is computed over `formData.email`, but the request's `Username` is `uniqueEmail` (line 95), so the provider checks the hash against a different name | "a@b.c" at timestamp 1: Username "a+1@b.c", hash over "a@b.c" | compute the hash over `uniqueEmail`, the user name actually sent, as the verification and login pages do | high; not executed | Registration.SubmitAsWritten | Registration.Submit |
