/**
 E-mail verification (`VerifyEmail`): confirming the sign-up with the code
 that was mailed (`handleSubmit`), and asking for the code again
 (`handleResendCode`). Neither checks the client id; both sign the same
 string they send as the user name.
 */
module Verification {
  import opened Js
  import opened AuthErrors
  import opened Provider
  import SecretHash
  import Base64

  /** Where the page goes next: after a confirmation, a success text and
      then the login page; after a resend, a passing notice and no
      navigation; or an error text. */
  datatype VerifyNext = ConfirmedThenLogin | ResentNotice | ShowError(text: string)

  /** The request sent, if any, and the next step. */
  datatype VerifyOutcome = VerifyOutcome(sent: Option<SdkRequest>, next: VerifyNext)

  const MISSING_EMAIL_TEXT: string := "이메일 주소를 입력해주세요."

  /** The hash of `username` for this configuration; a missing client id
      is concatenated as "undefined". */
  function HashFor(cfg: Config, hmac: SecretHash.Hmac, username: string): string
  {
    SecretHash.Calculate(hmac, username, ToJsString(cfg.clientId), cfg.clientSecret)
  }

  /** `handleSubmit`: confirm the sign-up of `email` with `code`. */
  function Confirm(email: string, code: string, cfg: Config,
                   hmac: SecretHash.Hmac, send: Sdk): (o: VerifyOutcome)
    ensures o.sent.Some?
    ensures o.sent.value.ConfirmSignUp?
    ensures o.sent.value.username == email && o.sent.value.code == code
    ensures o.sent.value.clientId == cfg.clientId
    ensures SignsOwnUsername(o.sent.value, hmac, cfg.clientSecret)
    ensures o.next == ConfirmedThenLogin <==> send(o.sent.value).Accepted?
    ensures send(o.sent.value).Rejected? ==> o.next == ShowError(HandleAuthError(send(o.sent.value).error))
  {
    var req := ConfirmSignUp(cfg.clientId, email, code, HashFor(cfg, hmac, email));
    match send(req)
    case Accepted(_) => VerifyOutcome(Some(req), ConfirmedThenLogin)
    case Rejected(e) => VerifyOutcome(Some(req), ShowError(HandleAuthError(e)))
  }

  /** `handleResendCode`: ask for a new code for `email`, which must not be
      empty. */
  function Resend(email: string, cfg: Config, hmac: SecretHash.Hmac, send: Sdk): (o: VerifyOutcome)
    ensures email == "" <==> o.sent.None?
    ensures email == "" ==> o.next == ShowError(MISSING_EMAIL_TEXT)
    ensures o.sent.Some? ==>
              && o.sent.value.ResendConfirmationCode?
              && o.sent.value.username == email
              && o.sent.value.clientId == cfg.clientId
              && SignsOwnUsername(o.sent.value, hmac, cfg.clientSecret)
    ensures o.sent.Some? ==> (o.next == ResentNotice <==> send(o.sent.value).Accepted?)
    ensures o.sent.Some? && send(o.sent.value).Rejected?
            ==> o.next == ShowError(HandleAuthError(send(o.sent.value).error))
    ensures o.next != ConfirmedThenLogin
  {
    if email == "" then VerifyOutcome(None, ShowError(MISSING_EMAIL_TEXT))
    else
      var req := ResendConfirmationCode(cfg.clientId, email, HashFor(cfg, hmac, email));
      match send(req)
      case Accepted(_) => VerifyOutcome(Some(req), ResentNotice)
      case Rejected(e) => VerifyOutcome(Some(req), ShowError(HandleAuthError(e)))
  }

  /** Without a configured client id, the string signed is the user name
      followed by "undefined". */
  lemma MissingClientIdSignsUndefined(email: string, code: string, cfg: Config,
                                      hmac: SecretHash.Hmac, send: Sdk)
    requires cfg.clientId == None
    ensures Base64.Decode(Confirm(email, code, cfg, hmac, send).sent.value.secretHash)
         == Some(hmac(cfg.clientSecret, email + "undefined"))
  {
  }
}
