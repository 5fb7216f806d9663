/** The session gate and credential check: a fixed username/password pair and a
    session flag kept in the browser's string key-value store (`localStorage`). */
module LoginService {
  import opened Wrappers

  const USERNAME: string := "wemanity"
  const PASSWORD: string := "wemanity"

  /** The storage keys the session lives under. */
  const AUTHENTICATED_KEY: string := "authenticated"
  const USERNAME_KEY: string := "username"
  const SESSION_KEYS: set<string> := {AUTHENTICATED_KEY, USERNAME_KEY}

  /** The browser's `localStorage`: string keys mapped to string values, updated in place. */
  class LocalStorage {
    var items: map<string, string>

    constructor ()
      ensures items == map[]
    {
      items := map[];
    }

    /** `setItem`: binds `key` to `value`, replacing any previous value. */
    method SetItem(key: string, value: string)
      modifies this
      ensures items == old(items)[key := value]
    {
      items := items[key := value];
    }

    /** `removeItem`: drops `key`; a missing key is not an error. */
    method RemoveItem(key: string)
      modifies this
      ensures items == old(items) - {key}
    {
      items := items - {key};
    }
  }

  /** `getItem` on a snapshot of the store: `null` (here `None`) for a missing key. */
  function GetItem(items: map<string, string>, key: string): (v: Option<string>)
    ensures v.Some? <==> key in items
    ensures v.Some? ==> items[key] == v.value
  {
    if key in items then Some(items[key]) else None
  }

  /** `authenticate`: the submitted pair is accepted exactly when both parts equal
      the fixed "wemanity" credentials. */
  function Authenticate(username: string, password: string): (ok: bool)
    ensures ok <==> username == "wemanity" && password == "wemanity"
  {
    username == USERNAME && password == PASSWORD
  }

  /** `isAuthenticated`: the flag must be present and hold the exact string "true";
      a missing key or any other value ("false", "", "TRUE") means not signed in. */
  function IsAuthenticated(items: map<string, string>): (r: bool)
    ensures r <==> "authenticated" in items && items["authenticated"] == "true"
  {
    GetItem(items, AUTHENTICATED_KEY) == Some("true")
  }

  /** The store after `login(username)`: signed in, the username recorded, every
      other key as it was. */
  function LoggedIn(items: map<string, string>, username: string): (r: map<string, string>)
    ensures IsAuthenticated(r)
    ensures GetItem(r, "username") == Some(username)
    ensures r.Keys == items.Keys + {"authenticated", "username"}
    ensures forall k :: k in items && k != "authenticated" && k != "username" ==> r[k] == items[k]
  {
    items[AUTHENTICATED_KEY := "true"][USERNAME_KEY := username]
  }

  /** The store after `logout()`: both session keys gone, every other key as it was. */
  function LoggedOut(items: map<string, string>): (r: map<string, string>)
    ensures !IsAuthenticated(r)
    ensures GetItem(r, "authenticated") == None && GetItem(r, "username") == None
    ensures r.Keys == items.Keys - {"authenticated", "username"}
    ensures forall k :: k in r ==> r[k] == items[k]
  {
    items - SESSION_KEYS
  }

  /** `login(username)`: two `setItem` calls. No credential check happens here; the
      caller is trusted to have called `Authenticate` first. */
  method Login(store: LocalStorage, username: string)
    modifies store
    ensures store.items == LoggedIn(old(store.items), username)
    ensures IsAuthenticated(store.items)
  {
    store.SetItem(AUTHENTICATED_KEY, "true");
    store.SetItem(USERNAME_KEY, username);
  }

  /** `logout()`: two `removeItem` calls. */
  method Logout(store: LocalStorage)
    modifies store
    ensures store.items == LoggedOut(old(store.items))
    ensures !IsAuthenticated(store.items)
  {
    store.RemoveItem(AUTHENTICATED_KEY);
    store.RemoveItem(USERNAME_KEY);
    assert store.items == old(store.items) - SESSION_KEYS;
  }

  /** Exactly one pair of credentials is accepted. */
  lemma AuthenticateAcceptsOnePair(u1: string, p1: string, u2: string, p2: string)
    requires Authenticate(u1, p1) && Authenticate(u2, p2)
    ensures u1 == u2 && p1 == p2 && Authenticate(USERNAME, PASSWORD)
  {
  }

  /** `login` does not look at credentials: any username, including one that
      `Authenticate` rejects with every password, opens a session. */
  lemma LoginIgnoresCredentials(items: map<string, string>, username: string)
    ensures username != USERNAME ==> forall p :: !Authenticate(username, p)
    ensures IsAuthenticated(LoggedIn(items, username))
  {
  }

  /** Logging in twice as the same user leaves the same store as logging in once;
      logging in again as someone else only replaces the recorded username. */
  lemma LoginIdempotent(items: map<string, string>, u: string, v: string)
    ensures LoggedIn(LoggedIn(items, u), u) == LoggedIn(items, u)
    ensures LoggedIn(LoggedIn(items, u), v) == LoggedIn(items, v)
  {
  }

  /** Logging out twice leaves the same store as logging out once. */
  lemma LogoutIdempotent(items: map<string, string>)
    ensures LoggedOut(LoggedOut(items)) == LoggedOut(items)
  {
  }

  /** A login followed by a logout leaves the store as a plain logout would:
      a session leaves no trace in the other keys. */
  lemma LoginLogoutRoundTrip(items: map<string, string>, username: string)
    ensures LoggedOut(LoggedIn(items, username)) == LoggedOut(items)
  {
  }
}
