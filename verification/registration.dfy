/**
 Registration (`Register.handleSubmit`): local checks in a fixed order
 before anything is sent (the passwords agree, then the password policy),
 then the configuration check, then one sign-up request whose user name is
 the e-mail address made unique with a timestamp.
 */
module Registration {
  import opened Js
  import opened AuthErrors
  import opened Provider
  import SecretHash

  datatype RegisterForm = RegisterForm(name: string, email: string, password: string, confirmPassword: string)

  /** Where the form goes next: to e-mail verification carrying the user
      name that was registered, or nowhere, showing an error text. */
  datatype RegisterNext = ToVerifyEmail(email: string) | ShowError(text: string)

  /** The request sent, if any, and the next step. */
  datatype RegisterOutcome = RegisterOutcome(sent: Option<SdkRequest>, next: RegisterNext)

  const PASSWORD_MISMATCH_TEXT: string := "비밀번호가 일치하지 않습니다."
  const MISSING_CLIENT_ID_TEXT: string := "Cognito 클라이언트 ID가 설정되지 않았습니다."

  // ---------------------------------------------------------------------
  // Password policy

  predicate IsLower(c: char) { 'a' <= c <= 'z' }
  predicate IsUpper(c: char) { 'A' <= c <= 'Z' }
  predicate IsPolicySymbol(c: char)
  {
    c == '@' || c == '$' || c == '!' || c == '%' || c == '*' || c == '?' || c == '&'
  }

  /** The characters `[A-Za-z\d@$!%*?&]` the password may consist of. */
  predicate IsPolicyChar(c: char)
  {
    IsLower(c) || IsUpper(c) || IsDigit(c) || IsPolicySymbol(c)
  }

  predicate HasLower(p: string) { exists i :: 0 <= i < |p| && IsLower(p[i]) }
  predicate HasUpper(p: string) { exists i :: 0 <= i < |p| && IsUpper(p[i]) }
  predicate HasDigit(p: string) { exists i :: 0 <= i < |p| && IsDigit(p[i]) }
  predicate HasSymbol(p: string) { exists i :: 0 <= i < |p| && IsPolicySymbol(p[i]) }

  /** What `/^(?=.*[a-z])(?=.*[A-Z])(?=.*\d)(?=.*[@$!%*?&])[A-Za-z\d@$!%*?&]{8,}$/`
      accepts: at least eight characters, all from the allowed set, with a
      lower-case letter, an upper-case letter, a digit and a symbol. */
  predicate MeetsPasswordPolicy(p: string)
  {
    && |p| >= 8
    && (forall i :: 0 <= i < |p| ==> IsPolicyChar(p[i]))
    && HasLower(p) && HasUpper(p) && HasDigit(p) && HasSymbol(p)
  }

  /** The policy test in one pass over the password. */
  method CheckPasswordPolicy(p: string) returns (ok: bool)
    ensures ok <==> MeetsPasswordPolicy(p)
  {
    var lower, upper, digit, symbol, allowed := false, false, false, false, true;
    var i := 0;
    while i < |p|
      invariant 0 <= i <= |p|
      invariant lower <==> HasLower(p[..i])
      invariant upper <==> HasUpper(p[..i])
      invariant digit <==> HasDigit(p[..i])
      invariant symbol <==> HasSymbol(p[..i])
      invariant allowed <==> forall j :: 0 <= j < i ==> IsPolicyChar(p[j])
    {
      var c := p[i];
      assert p[..i + 1] == p[..i] + [c];
      lower := lower || IsLower(c);
      upper := upper || IsUpper(c);
      digit := digit || IsDigit(c);
      symbol := symbol || IsPolicySymbol(c);
      allowed := allowed && IsPolicyChar(c);
      i := i + 1;
    }
    assert p[..i] == p;
    ok := |p| >= 8 && allowed && lower && upper && digit && symbol;
  }

  /** Eight lower-case letters fail; an upper-case letter, a digit and a
      symbol added make a password that passes. */
  lemma PolicyExamples()
    ensures !MeetsPasswordPolicy("abcdefgh")
    ensures MeetsPasswordPolicy("Abcdef1!")
  {
    var weak := "abcdefgh";
    assert forall i :: 0 <= i < |weak| ==> IsLower(weak[i]);
    var strong := "Abcdef1!";
    assert IsUpper(strong[0]) && IsLower(strong[1]) && IsDigit(strong[6]) && IsPolicySymbol(strong[7]);
  }

  // ---------------------------------------------------------------------
  // The registered user name

  /** `email.replace('@', '+' + timestamp + '@')`: the timestamp is put
      before the first `@`; an address without `@` is unchanged. */
  function UniqueEmail(email: string, timestamp: nat): string
  {
    ReplaceFirst(email, '@', "+" + Decimal(timestamp) + "@")
  }

  /** The unique address has the same domain part as the original and a
      local part extended by `+` and the timestamp. */
  lemma UniqueEmailShape(email: string, timestamp: nat)
    requires '@' in email
    ensures BeforeFirst(UniqueEmail(email, timestamp), '@')
         == BeforeFirst(email, '@') + "+" + Decimal(timestamp)
    ensures var u := UniqueEmail(email, timestamp);
            u[|BeforeFirst(u, '@')| + 1..] == email[|BeforeFirst(email, '@')| + 1..]
  {
    var local := BeforeFirst(email, '@');
    var suffix := email[|local| + 1..];
    var stamp := "+" + Decimal(timestamp);
    var u := UniqueEmail(email, timestamp);
    ReplaceFirstShape(email, '@', stamp + "@");
    assert u == (local + stamp) + "@" + suffix;
    assert '@' !in local + stamp;
    SplitAtFirst(u, '@');
    BeforeFirstOfSplit(local + stamp, suffix, '@');
  }

  lemma BeforeFirstOfSplit(a: string, b: string, c: char)
    requires c !in a
    ensures BeforeFirst(a + [c] + b, c) == a
    ensures (a + [c] + b)[|a| + 1..] == b
  {
    var s := a + [c] + b;
    var r := BeforeFirst(s, c);
    assert s[|a|] == c;
    assert s[..|a|] == a;
  }

  /** An address without `@` is registered as it is. */
  lemma UniqueEmailWithoutAt(email: string, timestamp: nat)
    requires '@' !in email
    ensures UniqueEmail(email, timestamp) == email
  {
  }

  /** Distinct timestamps give distinct user names for the same address. */
  lemma UniqueEmailDistinguishesTimestamps(email: string, t1: nat, t2: nat)
    requires '@' in email && t1 != t2
    ensures UniqueEmail(email, t1) != UniqueEmail(email, t2)
  {
    UniqueEmailShape(email, t1);
    UniqueEmailShape(email, t2);
    var local := BeforeFirst(email, '@');
    if UniqueEmail(email, t1) == UniqueEmail(email, t2) {
      assert local + "+" + Decimal(t1) == local + "+" + Decimal(t2);
      assert Decimal(t1) == (local + "+" + Decimal(t1))[|local| + 1..];
      assert Decimal(t2) == (local + "+" + Decimal(t2))[|local| + 1..];
      DecimalRoundTrip(t1);
      DecimalRoundTrip(t2);
    }
  }

  // ---------------------------------------------------------------------
  // The flow

  /** The local checks, in order: the error text of the first that fails. */
  function LocalCheck(form: RegisterForm): (r: Option<string>)
    ensures r == None <==> form.password == form.confirmPassword && MeetsPasswordPolicy(form.password)
    ensures form.password != form.confirmPassword ==> r == Some(PASSWORD_MISMATCH_TEXT)
    ensures form.password == form.confirmPassword && !MeetsPasswordPolicy(form.password)
            ==> r == Some(PASSWORD_POLICY_TEXT)
  {
    if form.password != form.confirmPassword then Some(PASSWORD_MISMATCH_TEXT)
    else if !MeetsPasswordPolicy(form.password) then Some(PASSWORD_POLICY_TEXT)
    else None
  }

  /** The sign-up command: the unique address is both the user name and the
      `email` attribute, and the name is `given_name`. */
  function SignUpRequest(form: RegisterForm, clientId: string, secretHash: string, username: string): SdkRequest
  {
    SignUp(Some(clientId), username, form.password, secretHash,
           [Attribute("email", username), Attribute("given_name", form.name)])
  }

  /** Sends the request; success leads to verification of the registered
      user name, failure shows the translated error. */
  function Finish(req: SdkRequest, send: Sdk): RegisterOutcome
  {
    match send(req)
    case Accepted(_) => RegisterOutcome(Some(req), ToVerifyEmail(req.username))
    case Rejected(e) => RegisterOutcome(Some(req), ShowError(HandleAuthError(e)))
  }

  /** The source as written: the hash is computed over the address the user
      typed, while the request's user name is the unique address. */
  function SubmitAsWritten(form: RegisterForm, cfg: Config, timestamp: nat,
                           hmac: SecretHash.Hmac, send: Sdk): (o: RegisterOutcome)
    ensures form.password != form.confirmPassword
            ==> o == RegisterOutcome(None, ShowError(PASSWORD_MISMATCH_TEXT))
    ensures form.password == form.confirmPassword && !MeetsPasswordPolicy(form.password)
            ==> o == RegisterOutcome(None, ShowError(PASSWORD_POLICY_TEXT))
    ensures LocalCheck(form) == None && !Truthy(cfg.clientId)
            ==> o == RegisterOutcome(None, ShowError(Text(Unknown)))
    ensures o.sent.Some? <==> LocalCheck(form) == None && Truthy(cfg.clientId)
    ensures o.sent.Some? ==>
              && o.sent.value.SignUp?
              && o.sent.value.clientId == cfg.clientId
              && o.sent.value.username == UniqueEmail(form.email, timestamp)
              && o.sent.value.password == form.password
              && o.sent.value.attributes
                 == [Attribute("email", o.sent.value.username), Attribute("given_name", form.name)]
              && o.sent.value.secretHash
                 == SecretHash.Calculate(hmac, form.email, cfg.clientId.value, cfg.clientSecret)
    ensures o.sent.Some? ==>
              match send(o.sent.value)
              case Accepted(_) => o.next == ToVerifyEmail(UniqueEmail(form.email, timestamp))
              case Rejected(e) => o.next == ShowError(HandleAuthError(e))
  {
    match LocalCheck(form)
    case Some(text) => RegisterOutcome(None, ShowError(text))
    case None =>
      if !Truthy(cfg.clientId) then
        assert 'w' !in MISSING_CLIENT_ID_TEXT;
        ThrownErrorIsUnknown(MISSING_CLIENT_ID_TEXT);
        RegisterOutcome(None, ShowError(HandleAuthError(ThrownError(MISSING_CLIENT_ID_TEXT))))
      else
        var clientId := cfg.clientId.value;
        var secretHash := SecretHash.Calculate(hmac, form.email, clientId, cfg.clientSecret);
        Finish(SignUpRequest(form, clientId, secretHash, UniqueEmail(form.email, timestamp)), send)
  }

  /** The discrepancy: for any address with an `@`, the as-written request
      carries a hash that is not the hash of its own user name, unless the
      HMAC happens to give the two different messages the same digest. */
  lemma AsWrittenSignsAnotherName(form: RegisterForm, cfg: Config, timestamp: nat,
                                  hmac: SecretHash.Hmac, send: Sdk)
    requires LocalCheck(form) == None && Truthy(cfg.clientId)
    requires '@' in form.email
    requires hmac(cfg.clientSecret, form.email + cfg.clientId.value)
          != hmac(cfg.clientSecret, UniqueEmail(form.email, timestamp) + cfg.clientId.value)
    ensures var o := SubmitAsWritten(form, cfg, timestamp, hmac, send);
            o.sent.Some? && !SignsOwnUsername(o.sent.value, hmac, cfg.clientSecret)
  {
    var o := SubmitAsWritten(form, cfg, timestamp, hmac, send);
    var req := o.sent.value;
    if SignsOwnUsername(req, hmac, cfg.clientSecret) {
      SecretHash.EqualHashesEqualDigests(hmac, form.email, cfg.clientId.value, cfg.clientSecret,
                                         req.username, cfg.clientId.value, cfg.clientSecret);
    }
  }

  /** A concrete input: "a@b.c" at timestamp 1 is registered as "a+1@b.c",
      but the hash is over "a@b.c". */
  lemma AsWrittenExample(hmac: SecretHash.Hmac, send: Sdk)
    ensures var form := RegisterForm("A", "a@b.c", "Abcdef1!", "Abcdef1!");
            var cfg := Config(None, Some("client"), "secret", None);
            var o := SubmitAsWritten(form, cfg, 1, hmac, send);
            && o.sent.Some?
            && o.sent.value.username == "a+1@b.c"
            && o.sent.value.secretHash == SecretHash.Calculate(hmac, "a@b.c", "client", "secret")
  {
    var form := RegisterForm("A", "a@b.c", "Abcdef1!", "Abcdef1!");
    PolicyExamples();
    assert LocalCheck(form) == None;
    UniqueEmailExample();
  }

  lemma UniqueEmailExample()
    ensures UniqueEmail("a@b.c", 1) == "a+1@b.c"
  {
    var email := "a@b.c";
    assert Decimal(1) == "1";
    assert IndexOf(email, '@') == Some(1);
    assert email[..1] == "a" && email[2..] == "b.c";
  }

  /** `Register.handleSubmit` with the hash computed over the user name the
      request carries. */
  function Submit(form: RegisterForm, cfg: Config, timestamp: nat,
                  hmac: SecretHash.Hmac, send: Sdk): (o: RegisterOutcome)
    ensures form.password != form.confirmPassword
            ==> o == RegisterOutcome(None, ShowError(PASSWORD_MISMATCH_TEXT))
    ensures form.password == form.confirmPassword && !MeetsPasswordPolicy(form.password)
            ==> o == RegisterOutcome(None, ShowError(PASSWORD_POLICY_TEXT))
    ensures LocalCheck(form) == None && !Truthy(cfg.clientId)
            ==> o == RegisterOutcome(None, ShowError(Text(Unknown)))
    ensures o.sent.Some? <==> LocalCheck(form) == None && Truthy(cfg.clientId)
    ensures o.sent.Some? ==>
              && o.sent.value.SignUp?
              && o.sent.value.clientId == cfg.clientId
              && o.sent.value.username == UniqueEmail(form.email, timestamp)
              && o.sent.value.password == form.password
              && o.sent.value.attributes
                 == [Attribute("email", o.sent.value.username), Attribute("given_name", form.name)]
              && SignsOwnUsername(o.sent.value, hmac, cfg.clientSecret)
    ensures o.sent.Some? ==>
              match send(o.sent.value)
              case Accepted(_) => o.next == ToVerifyEmail(UniqueEmail(form.email, timestamp))
              case Rejected(e) => o.next == ShowError(HandleAuthError(e))
  {
    match LocalCheck(form)
    case Some(text) => RegisterOutcome(None, ShowError(text))
    case None =>
      if !Truthy(cfg.clientId) then
        assert 'w' !in MISSING_CLIENT_ID_TEXT;
        ThrownErrorIsUnknown(MISSING_CLIENT_ID_TEXT);
        RegisterOutcome(None, ShowError(HandleAuthError(ThrownError(MISSING_CLIENT_ID_TEXT))))
      else
        var clientId := cfg.clientId.value;
        var username := UniqueEmail(form.email, timestamp);
        var secretHash := SecretHash.Calculate(hmac, username, clientId, cfg.clientSecret);
        Finish(SignUpRequest(form, clientId, secretHash, username), send)
  }
}
