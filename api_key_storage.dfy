/**
 * The validated-key session store of lib/api-key-storage.ts: one value,
 * written through to the browser's localStorage under `validated_api_key`
 * and to the site-wide cookie `api_key` that the route guard reads.
 *
 * The browser's two stores are maps from names to values. A cookie written
 * with an expiry in the past is removed from the jar. `typeof window`
 * decides once and for all whether the store runs in a browser.
 */
module ApiKeyStorage {
  import opened Wrappers

  const StorageKey: string := "validated_api_key"
  const CookieName: string := "api_key"

  /** The browser state the store sees: whether a window exists, localStorage, the cookie jar. */
  datatype Browser = Browser(hasWindow: bool, local: map<string, string>, cookies: map<string, string>)

  /** The two mirrors agree: both hold the same key, or both hold none. */
  predicate Mirrored(b: Browser) {
    Lookup(b.local, StorageKey) == Lookup(b.cookies, CookieName)
  }

  /** `apiKeyStorage.save(key)`. */
  function SaveSpec(b: Browser, key: string): (b': Browser)
    ensures b'.hasWindow == b.hasWindow
    ensures b.hasWindow ==> Lookup(b'.local, StorageKey) == Some(key)
    ensures b.hasWindow ==> Lookup(b'.cookies, CookieName) == Some(key)
    ensures forall k :: k != StorageKey ==> Lookup(b'.local, k) == Lookup(b.local, k)
    ensures forall k :: k != CookieName ==> Lookup(b'.cookies, k) == Lookup(b.cookies, k)
    ensures !b.hasWindow ==> b' == b
  {
    if b.hasWindow then b.(local := b.local[StorageKey := key], cookies := b.cookies[CookieName := key])
    else b
  }

  /** `apiKeyStorage.remove()`: the item is removed and the cookie expired. */
  function RemoveSpec(b: Browser): (b': Browser)
    ensures b'.hasWindow == b.hasWindow
    ensures b.hasWindow ==> StorageKey !in b'.local && CookieName !in b'.cookies
    ensures forall k :: k != StorageKey ==> Lookup(b'.local, k) == Lookup(b.local, k)
    ensures forall k :: k != CookieName ==> Lookup(b'.cookies, k) == Lookup(b.cookies, k)
    ensures !b.hasWindow ==> b' == b
  {
    if b.hasWindow then b.(local := b.local - {StorageKey}, cookies := b.cookies - {CookieName})
    else b
  }

  /** `apiKeyStorage.get()`: the local copy in a browser, null on the server. */
  function GetSpec(b: Browser): (r: Option<string>)
    ensures !b.hasWindow ==> r == None
    ensures b.hasWindow ==> (r.Some? <==> StorageKey in b.local)
    ensures r.Some? ==> r.value == b.local[StorageKey]
  {
    if b.hasWindow then Lookup(b.local, StorageKey) else None
  }

  /** One call into the store that changes it. */
  datatype Op = Save(key: string) | Remove

  function Apply(b: Browser, op: Op): (b': Browser) {
    match op
    case Save(key) => SaveSpec(b, key)
    case Remove => RemoveSpec(b)
  }

  /** The browser state after the calls `ops`, in order. */
  function Run(b: Browser, ops: seq<Op>): (b': Browser)
    decreases |ops|
  {
    if ops == [] then b else Apply(Run(b, ops[..|ops| - 1]), ops[|ops| - 1])
  }

  /** What the last write of `ops` left in the slot, or `initial` when there is none. */
  function LastWrite(ops: seq<Op>, initial: Option<string>): (r: Option<string>)
  {
    if ops == [] then initial
    else match ops[|ops| - 1]
      case Save(key) => Some(key)
      case Remove => None
  }

  /** save(s) then get() returns s. */
  lemma SaveThenGet(b: Browser, key: string)
    requires b.hasWindow
    ensures GetSpec(SaveSpec(b, key)) == Some(key)
  {
  }

  /** save(a); save(b); get() returns b: one slot, the last write wins. */
  lemma LastSaveWins(b: Browser, first: string, second: string)
    ensures SaveSpec(SaveSpec(b, first), second) == SaveSpec(b, second)
  {
  }

  /** remove() then get() returns null, and both mirrors are gone. */
  lemma RemoveThenGet(b: Browser)
    ensures GetSpec(RemoveSpec(b)) == None
    ensures b.hasWindow ==> Lookup(RemoveSpec(b).cookies, CookieName) == None
  {
  }

  /** Calls do not change whether a window exists. */
  lemma {:induction false} RunKeepsWindow(b: Browser, ops: seq<Op>)
    ensures Run(b, ops).hasWindow == b.hasWindow
    decreases |ops|
  {
    if ops != [] {
      RunKeepsWindow(b, ops[..|ops| - 1]);
    }
  }

  /** On the server no call changes anything, and get() stays null. */
  lemma {:induction false} RunWithoutWindow(b: Browser, ops: seq<Op>)
    requires !b.hasWindow
    ensures Run(b, ops) == b
    ensures GetSpec(Run(b, ops)) == None
    decreases |ops|
  {
    if ops != [] {
      RunWithoutWindow(b, ops[..|ops| - 1]);
    }
  }

  /** In a browser, get() after any sequence of calls returns what the last save or remove left. */
  lemma {:induction false} GetAfterRun(b: Browser, ops: seq<Op>)
    requires b.hasWindow
    ensures GetSpec(Run(b, ops)) == LastWrite(ops, GetSpec(b))
    ensures ops != [] ==> Lookup(Run(b, ops).cookies, CookieName) == LastWrite(ops, GetSpec(b))
    decreases |ops|
  {
    if ops != [] {
      RunKeepsWindow(b, ops[..|ops| - 1]);
    }
  }

  /** After at least one call in a browser the two mirrors agree, even if they disagreed before. */
  lemma MirroredAfterAnyCall(b: Browser, ops: seq<Op>)
    requires b.hasWindow
    requires ops != []
    ensures Mirrored(Run(b, ops))
  {
    GetAfterRun(b, ops);
  }

  /** Calls only touch the store's own entries: other localStorage items and cookies survive. */
  lemma {:induction false} RunKeepsOtherEntries(b: Browser, ops: seq<Op>, item: string, cookie: string)
    requires item != StorageKey
    requires cookie != CookieName
    ensures Lookup(Run(b, ops).local, item) == Lookup(b.local, item)
    ensures Lookup(Run(b, ops).cookies, cookie) == Lookup(b.cookies, cookie)
    decreases |ops|
  {
    if ops != [] {
      RunKeepsOtherEntries(b, ops[..|ops| - 1], item, cookie);
    }
  }

  /** The store object; its state is the browser it runs in. */
  class Storage {
    const hasWindow: bool
    var local: map<string, string>
    var cookies: map<string, string>

    function State(): Browser
      reads this
    {
      Browser(hasWindow, local, cookies)
    }

    constructor (browser: Browser)
      ensures State() == browser
    {
      hasWindow := browser.hasWindow;
      local := browser.local;
      cookies := browser.cookies;
    }

    method Save(key: string)
      modifies this
      ensures State() == SaveSpec(old(State()), key)
    {
      if hasWindow {
        local := local[StorageKey := key];
        cookies := cookies[CookieName := key];
      }
    }

    method Get() returns (r: Option<string>)
      ensures r == GetSpec(State())
    {
      if hasWindow {
        r := if StorageKey in local then Some(local[StorageKey]) else None;
      } else {
        r := None;
      }
    }

    method Remove()
      modifies this
      ensures State() == RemoveSpec(old(State()))
    {
      if hasWindow {
        local := local - {StorageKey};
        cookies := cookies - {CookieName};
      }
    }
  }
}
