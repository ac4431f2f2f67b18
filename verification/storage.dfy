/**
 The browser's origin-wide key-value store (`localStorage`) as an immutable
 map from keys to string values, with the keys the session logic uses.
 */
module Storage {
  import opened Js

  type Store = map<string, string>

  const ACCESS_TOKEN: string := "accessToken"
  const ID_TOKEN: string := "idToken"
  const REFRESH_TOKEN: string := "refreshToken"
  const USER_EMAIL: string := "userEmail"
  const USERNAME: string := "username"
  const OAUTH_STATE: string := "oauth_state"

  /** The keys written by a login and removed by a logout. */
  const SESSION_KEYS: set<string> := {ACCESS_TOKEN, ID_TOKEN, REFRESH_TOKEN, USER_EMAIL, USERNAME}

  /** `getItem(key)`: the stored value, or `None` (`null`) when absent. */
  function GetItem(store: Store, key: string): Option<string>
  {
    if key in store then Some(store[key]) else None
  }

  /** `setItem(key, value)`. */
  function SetItem(store: Store, key: string, value: string): Store
  {
    store[key := value]
  }

  /** The three tokens a successful sign-in saves, one `setItem` each. */
  function SetTokens(store: Store, access: string, id: string, refresh: string): (r: Store)
    ensures r.Keys == store.Keys + {ACCESS_TOKEN, ID_TOKEN, REFRESH_TOKEN}
    ensures r[ACCESS_TOKEN] == access && r[ID_TOKEN] == id && r[REFRESH_TOKEN] == refresh
    ensures forall k :: k !in {ACCESS_TOKEN, ID_TOKEN, REFRESH_TOKEN} ==> GetItem(r, k) == GetItem(store, k)
  {
    SetItem(SetItem(SetItem(store, ACCESS_TOKEN, access), ID_TOKEN, id), REFRESH_TOKEN, refresh)
  }

  /** The profile a successful sign-in saves: the e-mail, then the user
      name. */
  function SetProfile(store: Store, email: string, username: string): (r: Store)
    ensures r.Keys == store.Keys + {USER_EMAIL, USERNAME}
    ensures r[USER_EMAIL] == email && r[USERNAME] == username
    ensures forall k :: k !in {USER_EMAIL, USERNAME} ==> GetItem(r, k) == GetItem(store, k)
  {
    SetItem(SetItem(store, USER_EMAIL, email), USERNAME, username)
  }

  /** `removeItem(key)`; removing an absent key is a no-op. */
  function RemoveItem(store: Store, key: string): Store
  {
    store - {key}
  }

  /** Two stores agree on every key outside `keys`. */
  ghost predicate AgreeOutside(a: Store, b: Store, keys: set<string>)
  {
    forall k :: k !in keys ==> GetItem(a, k) == GetItem(b, k)
  }
}
