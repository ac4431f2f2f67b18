/**
 Translation of identity-provider errors into the ten user-facing messages
 (`handleAuthError`): an ordered, first-match lookup on the error's name,
 with substring tests on its message for the credentials and network cases,
 and a catch-all default.
 */
module AuthErrors {
  import opened Js

  /** An error as the flows catch it: its `name` and `message`, either of
      which may be missing. */
  datatype ProviderError = ProviderError(name: Option<string>, message: Option<string>)

  /** An error the flows throw themselves (`new Error(message)`). */
  function ThrownError(message: string): ProviderError
  {
    ProviderError(Some("Error"), Some(message))
  }

  /** The ten outcomes of the translation, in the order the rules are checked. */
  datatype AuthMessage =
    | InvalidCredentials
    | UserNotFound
    | UserNotConfirmed
    | UsernameExists
    | InvalidPassword
    | CodeMismatch
    | ExpiredCode
    | LimitExceeded
    | NetworkFailure
    | Unknown

  const NOT_AUTHORIZED: string := "NotAuthorizedException"
  const USER_NOT_FOUND: string := "UserNotFoundException"
  const USER_NOT_CONFIRMED: string := "UserNotConfirmedException"
  const USERNAME_EXISTS: string := "UsernameExistsException"
  const INVALID_PASSWORD: string := "InvalidPasswordException"
  const CODE_MISMATCH: string := "CodeMismatchException"
  const EXPIRED_CODE: string := "ExpiredCodeException"
  const LIMIT_EXCEEDED: string := "LimitExceededException"
  const NETWORK_ERROR: string := "NetworkError"

  const INCORRECT_CREDENTIALS: string := "Incorrect username or password"
  const NETWORK: string := "network"

  /** The names that have a rule of their own between the credentials rule
      and the network rule. */
  const SPECIFIC_NAMES: set<string> :=
    {USER_NOT_FOUND, USER_NOT_CONFIRMED, USERNAME_EXISTS, INVALID_PASSWORD,
     CODE_MISMATCH, EXPIRED_CODE, LIMIT_EXCEEDED}

  /** The password-policy text; registration shows it for its own check too. */
  const PASSWORD_POLICY_TEXT: string := "비밀번호는 최소 8자 이상이며, 대문자, 소문자, 숫자, 특수문자를 포함해야 합니다."

  /** The displayed text of each outcome. */
  function Text(m: AuthMessage): string
  {
    match m
    case InvalidCredentials => "이메일 또는 비밀번호가 올바르지 않습니다."
    case UserNotFound => "등록되지 않은 사용자입니다."
    case UserNotConfirmed => "이메일 인증이 완료되지 않았습니다. 인증 코드를 확인해 주세요."
    case UsernameExists => "이미 등록된 이메일 주소입니다."
    case InvalidPassword => PASSWORD_POLICY_TEXT
    case CodeMismatch => "잘못된 인증 코드입니다. 다시 확인해 주세요."
    case ExpiredCode => "인증 코드가 만료되었습니다. 새로운 코드를 요청해 주세요."
    case LimitExceeded => "요청 한도를 초과했습니다. 잠시 후 다시 시도해 주세요."
    case NetworkFailure => "네트워크 연결 오류가 발생했습니다. 인터넷 연결을 확인해 주세요."
    case Unknown => "인증 중 오류가 발생했습니다. 다시 시도해 주세요."
  }

  /** All texts the translation can produce. */
  const ALL_TEXTS: set<string> :=
    {Text(InvalidCredentials), Text(UserNotFound), Text(UserNotConfirmed), Text(UsernameExists),
     Text(InvalidPassword), Text(CodeMismatch), Text(ExpiredCode), Text(LimitExceeded),
     Text(NetworkFailure), Text(Unknown)}

  /** `error.name || ''` */
  function NameOf(e: ProviderError): string
  {
    OrElse(e.name, "")
  }

  /** `error.message || ''` */
  function MessageOf(e: ProviderError): string
  {
    OrElse(e.message, "")
  }

  /** The first rule: a credentials rejection, by name or by message. */
  predicate IsCredentialsError(e: ProviderError)
  {
    NameOf(e) == NOT_AUTHORIZED || Includes(MessageOf(e), INCORRECT_CREDENTIALS)
  }

  /** The network rule, by name or by (lower-case) message. */
  predicate IsNetworkError(e: ProviderError)
  {
    NameOf(e) == NETWORK_ERROR || Includes(MessageOf(e), NETWORK)
  }

  /** The outcome for an error, testing the rules in source order. */
  function Classify(e: ProviderError): (m: AuthMessage)
    ensures m == InvalidCredentials <==> IsCredentialsError(e)
    ensures m == UserNotFound <==> !IsCredentialsError(e) && NameOf(e) == USER_NOT_FOUND
    ensures m == UserNotConfirmed <==> !IsCredentialsError(e) && NameOf(e) == USER_NOT_CONFIRMED
    ensures m == UsernameExists <==> !IsCredentialsError(e) && NameOf(e) == USERNAME_EXISTS
    ensures m == InvalidPassword <==> !IsCredentialsError(e) && NameOf(e) == INVALID_PASSWORD
    ensures m == CodeMismatch <==> !IsCredentialsError(e) && NameOf(e) == CODE_MISMATCH
    ensures m == ExpiredCode <==> !IsCredentialsError(e) && NameOf(e) == EXPIRED_CODE
    ensures m == LimitExceeded <==> !IsCredentialsError(e) && NameOf(e) == LIMIT_EXCEEDED
    ensures m == NetworkFailure <==>
              !IsCredentialsError(e) && NameOf(e) !in SPECIFIC_NAMES && IsNetworkError(e)
    ensures m == Unknown <==>
              !IsCredentialsError(e) && NameOf(e) !in SPECIFIC_NAMES && !IsNetworkError(e)
  {
    var name := NameOf(e);
    var message := MessageOf(e);
    if name == NOT_AUTHORIZED || Includes(message, INCORRECT_CREDENTIALS) then InvalidCredentials
    else if name == USER_NOT_FOUND then UserNotFound
    else if name == USER_NOT_CONFIRMED then UserNotConfirmed
    else if name == USERNAME_EXISTS then UsernameExists
    else if name == INVALID_PASSWORD then InvalidPassword
    else if name == CODE_MISMATCH then CodeMismatch
    else if name == EXPIRED_CODE then ExpiredCode
    else if name == LIMIT_EXCEEDED then LimitExceeded
    else if name == NETWORK_ERROR || Includes(message, NETWORK) then NetworkFailure
    else Unknown
  }

  /** `handleAuthError(error)`: total, and always one of the ten texts. */
  function HandleAuthError(e: ProviderError): (r: string)
    ensures r in ALL_TEXTS
    ensures r == Text(InvalidCredentials) <==> IsCredentialsError(e)
    ensures r == Text(Unknown) <==>
              !IsCredentialsError(e) && NameOf(e) !in SPECIFIC_NAMES && !IsNetworkError(e)
  {
    TextInjective();
    Text(Classify(e))
  }

  /** The ten texts are pairwise distinct. */
  lemma TextInjective()
    ensures forall m1: AuthMessage, m2: AuthMessage :: Text(m1) == Text(m2) ==> m1 == m2
    ensures |ALL_TEXTS| == 10
  {
  }

  // ---------------------------------------------------------------------
  // The same lookup as a table: a reference definition of the rule order.

  /** A rule matches an error by exact name, or by a substring of its
      message when `needle` is present. */
  datatype Rule = Rule(name: string, needle: Option<string>, result: AuthMessage)

  predicate Matches(rule: Rule, name: string, message: string)
  {
    name == rule.name || (rule.needle.Some? && Includes(message, rule.needle.value))
  }

  const RULES: seq<Rule> := [
    Rule(NOT_AUTHORIZED, Some(INCORRECT_CREDENTIALS), InvalidCredentials),
    Rule(USER_NOT_FOUND, None, UserNotFound),
    Rule(USER_NOT_CONFIRMED, None, UserNotConfirmed),
    Rule(USERNAME_EXISTS, None, UsernameExists),
    Rule(INVALID_PASSWORD, None, InvalidPassword),
    Rule(CODE_MISMATCH, None, CodeMismatch),
    Rule(EXPIRED_CODE, None, ExpiredCode),
    Rule(LIMIT_EXCEEDED, None, LimitExceeded),
    Rule(NETWORK_ERROR, Some(NETWORK), NetworkFailure)
  ]

  /** The result of the first matching rule, or `Unknown`. */
  function FirstMatch(rules: seq<Rule>, name: string, message: string): AuthMessage
  {
    if |rules| == 0 then Unknown
    else if Matches(rules[0], name, message) then rules[0].result
    else FirstMatch(rules[1..], name, message)
  }

  /** The chain of tests is the first-match lookup over the table. */
  lemma ClassifyIsFirstMatch(e: ProviderError)
    ensures Classify(e) == FirstMatch(RULES, NameOf(e), MessageOf(e))
  {
    var name, message := NameOf(e), MessageOf(e);
    assert RULES[0..] == RULES;
    FirstMatchStep(RULES, 0, name, message);
    assert Matches(RULES[0], name, message) <==> IsCredentialsError(e);
    if !IsCredentialsError(e) {
      NameRulesStep(name, message, 1);
      NameRulesStep(name, message, 2);
      NameRulesStep(name, message, 3);
      NameRulesStep(name, message, 4);
      NameRulesStep(name, message, 5);
      NameRulesStep(name, message, 6);
      NameRulesStep(name, message, 7);
      FirstMatchStep(RULES, 8, name, message);
      assert Matches(RULES[8], name, message) <==> IsNetworkError(e);
      assert RULES[9..] == [];
    }
  }

  /** Rules 1 to 7 test the name alone. */
  lemma NameRulesStep(name: string, message: string, i: nat)
    requires 1 <= i <= 7
    ensures RULES[i].needle == None
    ensures FirstMatch(RULES[i..], name, message)
         == if name == RULES[i].name then RULES[i].result
            else FirstMatch(RULES[i + 1..], name, message)
  {
    FirstMatchStep(RULES, i, name, message);
  }

  lemma FirstMatchStep(rules: seq<Rule>, i: nat, name: string, message: string)
    requires i < |rules|
    ensures FirstMatch(rules[i..], name, message)
         == if Matches(rules[i], name, message) then rules[i].result
            else FirstMatch(rules[i + 1..], name, message)
  {
    assert rules[i..][1..] == rules[i + 1..];
  }

  /** A credentials message wins over a later rule's name. */
  lemma CredentialsMessageWins()
    ensures HandleAuthError(ProviderError(Some(USER_NOT_FOUND), Some(INCORRECT_CREDENTIALS)))
         == Text(InvalidCredentials)
  {
    assert StartsWith(INCORRECT_CREDENTIALS, INCORRECT_CREDENTIALS);
  }

  /** A network message loses to an earlier rule's name. */
  lemma NetworkMessageLosesToEarlierName()
    ensures HandleAuthError(ProviderError(Some(LIMIT_EXCEEDED), Some(NETWORK)))
         == Text(LimitExceeded)
  {
    NotIncludesMissingChar(NETWORK, INCORRECT_CREDENTIALS, 0);
  }

  /** An error with neither name nor message gets the default text. */
  lemma EmptyErrorIsUnknown()
    ensures HandleAuthError(ProviderError(None, None)) == Text(Unknown)
  {
    NotIncludesMissingChar("", INCORRECT_CREDENTIALS, 0);
    NotIncludesMissingChar("", NETWORK, 0);
  }

  /** The network test on the message is case-sensitive: "Network" alone
      does not match it. */
  lemma NetworkTestIsCaseSensitive()
    ensures HandleAuthError(ProviderError(None, Some("Network"))) == Text(Unknown)
  {
    var e := ProviderError(None, Some("Network"));
    assert NameOf(e) == "" && MessageOf(e) == "Network";
    assert INCORRECT_CREDENTIALS[0] !in "Network" && NETWORK[0] !in "Network";
    NotIncludesMissingChar("Network", INCORRECT_CREDENTIALS, 0);
    NotIncludesMissingChar("Network", NETWORK, 0);
    assert !IsCredentialsError(e) && !IsNetworkError(e);
  }

  /** An error the flows throw themselves whose message has no `w` gets the
      default text: both substrings the rules look for contain a `w`. */
  lemma ThrownErrorIsUnknown(message: string)
    requires 'w' !in message
    ensures HandleAuthError(ThrownError(message)) == Text(Unknown)
  {
    assert INCORRECT_CREDENTIALS[26] == 'w' && NETWORK[3] == 'w';
    NotIncludesMissingChar(message, INCORRECT_CREDENTIALS, 26);
    NotIncludesMissingChar(message, NETWORK, 3);
  }
}
