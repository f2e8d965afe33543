/**
 * The key-validation flow of app/playground/page.tsx, the mount-time check
 * of app/playground/protected/page.tsx, and the path they open through the
 * route guard: look the submitted key up, save it in the session store,
 * navigate to the protected page, and the guard's cookie check admits it.
 */
module Playground {
  import opened Wrappers
  import ApiKeyStorage
  import Middleware
  import opened ApiKeysDashboard

  /** The columns `id, key` that the lookup selects. */
  datatype KeyMatch = KeyMatch(id: string, key: string)

  /** What the page does that a user or the browser can observe, in order. */
  datatype Event =
    | LoadingSet(loading: bool)
    | KeySaved(key: string)
    | Toasted(success: bool)
    | Navigated(path: string)

  /** How many rows hold exactly this key. */
  function CountKey(table: seq<ApiKey>, candidate: string): (n: nat)
    ensures n <= |table|
  {
    if table == [] then 0
    else (if table[0].key == candidate then 1 else 0) + CountKey(table[1..], candidate)
  }

  /** The rows whose key equals the candidate exactly, once each and in table order. */
  function KeyMatches(table: seq<ApiKey>, candidate: string): (r: seq<KeyMatch>)
    ensures |r| == CountKey(table, candidate)
    ensures forall m :: m in r ==> m.key == candidate && exists k :: k in table && k.id == m.id && k.key == candidate
    ensures forall k :: k in table && k.key == candidate ==> KeyMatch(k.id, k.key) in r
  {
    if table == [] then []
    else (if table[0].key == candidate then [KeyMatch(table[0].id, table[0].key)] else [])
         + KeyMatches(table[1..], candidate)
  }

  /**
   * `select('id, key').eq('key', candidate).single()` against the rows the
   * caller may read: a row exactly when one row has this key, otherwise
   * the error `.single()` reports.
   */
  function SingleByKey(table: seq<ApiKey>, candidate: string): (r: Single<KeyMatch>)
    ensures r.Row? <==> CountKey(table, candidate) == 1
    ensures r.Row? ==> r.row.key == candidate && exists k :: k in table && k.id == r.row.id && k.key == candidate
  {
    var ms := KeyMatches(table, candidate);
    if |ms| == 1 then (assert ms[0] in ms; Row(ms[0])) else Failed("JSON object requested, multiple (or no) rows returned")
  }

  /** A lookup of a key no row holds fails. */
  lemma UnknownKeyFails(table: seq<ApiKey>, candidate: string)
    requires forall k :: k in table ==> k.key != candidate
    ensures SingleByKey(table, candidate).Failed?
  {
    if |KeyMatches(table, candidate)| == 1 {
      assert KeyMatches(table, candidate)[0] in KeyMatches(table, candidate);
    }
  }

  /** A key held by exactly one row is found, with that row's identifier. */
  lemma {:induction false} HeldKeyIsFound(table: seq<ApiKey>, i: nat)
    requires i < |table|
    requires forall j :: 0 <= j < |table| && j != i ==> table[j].key != table[i].key
    ensures SingleByKey(table, table[i].key) == Row(KeyMatch(table[i].id, table[i].key))
  {
    OnlyMatch(table, i);
  }

  lemma {:induction false} OnlyMatch(table: seq<ApiKey>, i: nat)
    requires i < |table|
    requires forall j :: 0 <= j < |table| && j != i ==> table[j].key != table[i].key
    ensures KeyMatches(table, table[i].key) == [KeyMatch(table[i].id, table[i].key)]
  {
    if i == 0 {
      NoMatch(table[1..], table[0].key);
    } else {
      assert table[0].key != table[i].key;
      OnlyMatch(table[1..], i - 1);
    }
  }

  lemma {:induction false} NoMatch(table: seq<ApiKey>, candidate: string)
    requires forall j :: 0 <= j < |table| ==> table[j].key != candidate
    ensures KeyMatches(table, candidate) == []
  {
    if table != [] {
      NoMatch(table[1..], candidate);
    }
  }

  /**
   * The events of `handleValidate` for a lookup result: loading on, then on
   * success save, success toast and navigation, on failure the error
   * toast only, and loading off in `finally`.
   */
  function ValidateEvents(lookup: Single<KeyMatch>): (r: seq<Event>)
    ensures |r| >= 2 && r[0] == LoadingSet(true) && r[|r| - 1] == LoadingSet(false)
    ensures forall i :: 0 < i < |r| - 1 ==> !r[i].LoadingSet?
    ensures (exists i :: 0 <= i < |r| && r[i].Navigated?) <==> lookup.Row?
    ensures forall i :: 0 <= i < |r| && r[i].Navigated? ==>
              r[i].path == Middleware.ProtectedPrefix && exists j :: 0 <= j < i && r[j] == KeySaved(lookup.row.key)
    ensures lookup.Failed? ==> forall e :: e in r ==> !e.KeySaved? && !e.Navigated?
    ensures Toasted(lookup.Row?) in r
  {
    match lookup
    case Row(m) =>
      var r := [LoadingSet(true), KeySaved(m.key), Toasted(true), Navigated(Middleware.ProtectedPrefix), LoadingSet(false)];
      assert r[3].Navigated? && r[1] == KeySaved(m.key);
      r
    case Failed(_) => [LoadingSet(true), Toasted(false), LoadingSet(false)]
  }

  /** `useEffect` of the protected page: the route it pushes, if any, for what `get()` returned. */
  function ProtectedPageRedirect(stored: Option<string>): (r: Option<string>)
    ensures r.Some? <==> !Truthy(stored)
    ensures r.Some? ==> r.value == Middleware.PlaygroundPath
  {
    if Truthy(stored) then None else Some(Middleware.PlaygroundPath)
  }

  /**
   * End to end: once a lookup has found a non-empty key and the store has
   * saved it in a browser, the guard admits every protected path whatever
   * the session, and the protected page stays put.
   */
  lemma ValidatedKeyOpensProtectedPages(b: ApiKeyStorage.Browser, table: seq<ApiKey>, candidate: string,
                                        url: Middleware.Url, hasSession: bool)
    requires b.hasWindow
    requires candidate != ""
    requires SingleByKey(table, candidate).Row?
    requires StartsWith(url.pathname, Middleware.ProtectedPrefix)
    ensures var b' := ApiKeyStorage.SaveSpec(b, SingleByKey(table, candidate).row.key);
            Middleware.Handle(hasSession, Middleware.Request(url, b'.cookies)) == Middleware.Next &&
            ProtectedPageRedirect(ApiKeyStorage.GetSpec(b')) == None
  {
    var b' := ApiKeyStorage.SaveSpec(b, SingleByKey(table, candidate).row.key);
    assert Lookup(b'.cookies, Middleware.ApiKeyCookie) == Some(candidate);
    Middleware.AnyCookieValueAdmits(hasSession, url, b'.cookies, candidate);
    assert b'.cookies[Middleware.ApiKeyCookie := candidate] == b'.cookies;
  }

  /** A generated key is never empty, so saving it always satisfies the guard's cookie check. */
  lemma GeneratedKeysAreTruthy(randomText: string)
    ensures Truthy(Some(GenerateKey(randomText)))
  {
    assert GenerateKey(randomText)[..|KeyPrefix|] == KeyPrefix;
  }

  /**
   * The guard keeps admitting a saved key after the key is deleted from the
   * store: the key no longer validates, yet its cookie still opens every
   * protected path, because the guard reads the cookie only.
   */
  lemma DeletedKeyStillAdmitted(b: ApiKeyStorage.Browser, table: seq<ApiKey>, k: ApiKey,
                                url: Middleware.Url, hasSession: bool)
    requires b.hasWindow
    requires k.key != ""
    requires forall x :: x in table && x.key == k.key ==> x.id == k.id
    requires StartsWith(url.pathname, Middleware.ProtectedPrefix)
    ensures SingleByKey(RemoveById(table, k.id), k.key).Failed?
    ensures Middleware.Guard(hasSession, Middleware.Request(url, ApiKeyStorage.SaveSpec(b, k.key).cookies)) == Middleware.Next
  {
    UnknownKeyFails(RemoveById(table, k.id), k.key);
    var c := ApiKeyStorage.SaveSpec(b, k.key).cookies;
    assert c[Middleware.ApiKeyCookie := k.key] == c;
    Middleware.AnyCookieValueAdmits(hasSession, url, c, k.key);
  }

  /** The playground page: the input field, the loading flag, its event log, and the session store. */
  class PlaygroundPage {
    var apiKey: string
    var isLoading: bool
    var events: seq<Event>
    const storage: ApiKeyStorage.Storage

    constructor (storage: ApiKeyStorage.Storage)
      ensures this.storage == storage
      ensures apiKey == "" && !isLoading && events == []
    {
      this.storage := storage;
      apiKey := "";
      isLoading := false;
      events := [];
    }

    /** The input's `onChange`. */
    method SetApiKey(value: string)
      modifies this
      ensures apiKey == value && isLoading == old(isLoading) && events == old(events)
    {
      apiKey := value;
    }

    /**
     * `handleValidate`: look the submitted key up; on success save the
     * matched key, then navigate; on failure the store is untouched and
     * there is no navigation; loading is off afterwards either way.
     */
    method HandleValidate(lookup: string -> Single<KeyMatch>)
      modifies this, storage
      ensures apiKey == old(apiKey) && !isLoading
      ensures events == old(events) + ValidateEvents(lookup(apiKey))
      ensures storage.State() == (if lookup(apiKey).Row?
                                  then ApiKeyStorage.SaveSpec(old(storage.State()), lookup(apiKey).row.key)
                                  else old(storage.State()))
    {
      isLoading := true;
      events := events + [LoadingSet(true)];
      var result := lookup(apiKey);
      if result.Row? {
        storage.Save(result.row.key);
        events := events + [KeySaved(result.row.key)];
        events := events + [Toasted(true)];
        events := events + [Navigated(Middleware.ProtectedPrefix)];
      } else {
        events := events + [Toasted(false)];
      }
      isLoading := false;
      events := events + [LoadingSet(false)];
    }
  }

  /**
   * The whole path through the objects: submit a key the store knows,
   * validate it, and request a protected page with the browser's cookies.
   */
  method ValidateThenVisit(page: PlaygroundPage, table: seq<ApiKey>, url: Middleware.Url, hasSession: bool)
      returns (response: Middleware.Response)
    requires page.storage.hasWindow
    requires page.apiKey != ""
    requires SingleByKey(table, page.apiKey).Row?
    requires StartsWith(url.pathname, Middleware.ProtectedPrefix)
    modifies page, page.storage
    ensures response == Middleware.Next
    ensures page.storage.State() == ApiKeyStorage.SaveSpec(old(page.storage.State()), old(page.apiKey))
  {
    page.HandleValidate(candidate => SingleByKey(table, candidate));
    ValidatedKeyOpensProtectedPages(old(page.storage.State()), table, page.apiKey, url, hasSession);
    response := Middleware.Handle(hasSession, Middleware.Request(url, page.storage.cookies));
  }

  /**
   * The failure path through the objects: submit a key the store does not
   * resolve to one row, validate it, and request a protected page with the
   * browser's cookies. The store is left alone, the page only shows the
   * error, and the guard still sends the request to the playground entry.
   */
  method ValidateFailsThenVisit(page: PlaygroundPage, table: seq<ApiKey>, url: Middleware.Url, hasSession: bool)
      returns (response: Middleware.Response)
    requires SingleByKey(table, page.apiKey).Failed?
    requires url.pathname == Middleware.ProtectedPrefix ||
             StartsWith(url.pathname, Middleware.ProtectedPrefix + "/")
    requires !Truthy(Lookup(page.storage.cookies, Middleware.ApiKeyCookie))
    modifies page, page.storage
    ensures response.Redirect? && response.location.pathname == Middleware.PlaygroundPath
    ensures page.storage.State() == old(page.storage.State())
    ensures page.events == old(page.events) + [LoadingSet(true), Toasted(false), LoadingSet(false)]
  {
    page.HandleValidate(candidate => SingleByKey(table, candidate));
    response := Middleware.Handle(hasSession, Middleware.Request(url, page.storage.cookies));
  }
}
