/**
 The session as the pages read it back from the store: the route guard
 (`ProtectedRoute`'s `checkAuth`), the dashboard's own check and the
 profile it shows (`checkAuthAndLoadUser`), and logging out
 (`handleLogout`), which only clears keys and calls no provider.
 */
module Session {
  import opened Js
  import opened Storage

  /** The guard renders the protected page, or redirects to the login page
      carrying the location that was requested. */
  datatype GuardDecision = Render | RedirectToLogin(from: string)

  const LOGIN_PATH: string := "/login"

  /** The guard's test: a non-empty access token or a non-empty identity
      token. Nothing checks that a token is well formed or unexpired. */
  predicate HasSessionToken(store: Store)
  {
    Truthy(GetItem(store, ACCESS_TOKEN)) || Truthy(GetItem(store, ID_TOKEN))
  }

  /** `checkAuth` and the render that follows it, for the requested
      location. */
  function Guard(store: Store, requested: string): (d: GuardDecision)
    ensures d == Render <==>
              || (ACCESS_TOKEN in store && store[ACCESS_TOKEN] != "")
              || (ID_TOKEN in store && store[ID_TOKEN] != "")
    ensures d.RedirectToLogin? ==> d.from == requested
  {
    if HasSessionToken(store) then Render else RedirectToLogin(requested)
  }

  /** The guard reads two keys and nothing else: stores that agree on the
      two token keys get the same decision. */
  lemma GuardReadsOnlyTokens(a: Store, b: Store, requested: string)
    requires GetItem(a, ACCESS_TOKEN) == GetItem(b, ACCESS_TOKEN)
    requires GetItem(a, ID_TOKEN) == GetItem(b, ID_TOKEN)
    ensures Guard(a, requested) == Guard(b, requested)
  {
  }

  /** A refresh token, a profile or a pending `oauth_state`, in any
      combination, never gets past the guard. */
  lemma OtherKeysNeverAuthenticate(store: Store, requested: string)
    requires store.Keys <= {REFRESH_TOKEN, USER_EMAIL, USERNAME, OAUTH_STATE}
    ensures Guard(store, requested) == RedirectToLogin(requested)
  {
    assert ACCESS_TOKEN !in store && ID_TOKEN !in store;
  }

  // ---------------------------------------------------------------------
  // The dashboard

  const NO_EMAIL_TEXT: string := "이메일 정보 없음"
  const NO_USERNAME_TEXT: string := "사용자 정보 없음"
  const LOGIN_REQUIRED_TEXT: string := "로그인이 필요합니다. 로그인 페이지로 이동합니다."

  /** What the dashboard shows: the profile, or an error text followed by
      a move to the login page. */
  datatype DashboardView =
    | Profile(email: string, username: string)
    | LoginRequired(text: string, goTo: string)

  /** `checkAuthAndLoadUser`: requires an access token; an identity token
      is not enough here. Missing profile keys show placeholders. */
  function LoadUser(store: Store): (v: DashboardView)
    ensures v.LoginRequired? <==> ACCESS_TOKEN !in store || store[ACCESS_TOKEN] == ""
    ensures v.LoginRequired? ==> v == LoginRequired(LOGIN_REQUIRED_TEXT, LOGIN_PATH)
    ensures v.Profile? ==>
              && (v.email == NO_EMAIL_TEXT <==> USER_EMAIL !in store || store[USER_EMAIL] in {"", NO_EMAIL_TEXT})
              && (v.email != NO_EMAIL_TEXT ==> v.email == store[USER_EMAIL])
              && (v.username == NO_USERNAME_TEXT <==> USERNAME !in store || store[USERNAME] in {"", NO_USERNAME_TEXT})
              && (v.username != NO_USERNAME_TEXT ==> v.username == store[USERNAME])
  {
    if !Truthy(GetItem(store, ACCESS_TOKEN)) then LoginRequired(LOGIN_REQUIRED_TEXT, LOGIN_PATH)
    else Profile(OrElse(GetItem(store, USER_EMAIL), NO_EMAIL_TEXT),
                 OrElse(GetItem(store, USERNAME), NO_USERNAME_TEXT))
  }

  /** The dashboard's check is stricter than the guard's: whatever it
      accepts, the guard accepts too. */
  lemma DashboardImpliesGuard(store: Store, requested: string)
    requires LoadUser(store).Profile?
    ensures Guard(store, requested) == Render
  {
  }

  /** ... and strictly so: a store holding only an identity token passes
      the guard and is then turned away by the dashboard. */
  lemma IdTokenOnlyPassesGuardOnly(idToken: string, requested: string)
    requires idToken != ""
    ensures var store := map[ID_TOKEN := idToken];
            && Guard(store, requested) == Render
            && LoadUser(store) == LoginRequired(LOGIN_REQUIRED_TEXT, LOGIN_PATH)
  {
    var store := map[ID_TOKEN := idToken];
    assert ACCESS_TOKEN !in store;
  }

  // ---------------------------------------------------------------------
  // Logging out

  /** `handleLogout`: removes the five session keys, one after another. */
  function Logout(store: Store): (r: Store)
    ensures r.Keys == store.Keys - SESSION_KEYS
    ensures AgreeOutside(r, store, SESSION_KEYS)
  {
    var s1 := RemoveItem(store, ACCESS_TOKEN);
    var s2 := RemoveItem(s1, ID_TOKEN);
    var s3 := RemoveItem(s2, REFRESH_TOKEN);
    var s4 := RemoveItem(s3, USER_EMAIL);
    RemoveItem(s4, USERNAME)
  }

  /** Logging out twice is logging out once. */
  lemma LogoutIdempotent(store: Store)
    ensures Logout(Logout(store)) == Logout(store)
  {
  }

  /** After a logout, neither the guard nor the dashboard lets the user in,
      whatever the store held. */
  lemma LogoutEndsSession(store: Store, requested: string)
    ensures Guard(Logout(store), requested) == RedirectToLogin(requested)
    ensures LoadUser(Logout(store)).LoginRequired?
  {
    assert ACCESS_TOKEN !in Logout(store) && ID_TOKEN !in Logout(store);
  }

  /** Logout forgets whatever was written to the session keys: two stores
      that differ only there log out to the same store. */
  lemma LogoutForgetsSessionWrites(a: Store, b: Store)
    requires AgreeOutside(a, b, SESSION_KEYS)
    ensures Logout(a) == Logout(b)
  {
    var la, lb := Logout(a), Logout(b);
    assert forall k :: k in la <==> k in lb by {
      forall k
        ensures k in la <==> k in lb
      {
        assert GetItem(a, k) == GetItem(b, k) || k in SESSION_KEYS;
      }
    }
    forall k | k in la
      ensures la[k] == lb[k]
    {
      assert GetItem(la, k) == GetItem(a, k) == GetItem(b, k) == GetItem(lb, k);
    }
  }

  /** A pending authorization request survives a logout: `oauth_state` is
      not a session key. */
  lemma LogoutKeepsOAuthState(store: Store)
    ensures GetItem(Logout(store), OAUTH_STATE) == GetItem(store, OAUTH_STATE)
  {
  }
}
