/**
 * The key list of app/dashboards/components/api-keys-dashboard.tsx: the
 * `ApiKey` record, the pure list updates the handlers apply on success,
 * key generation, the masked display and the single-visible-key toggle,
 * and the handlers themselves over an abstract key store.
 */
module ApiKeysDashboard {
  import opened Wrappers

  /** One row of the dashboard. */
  datatype ApiKey = ApiKey(id: string, name: string, key: string, createdAt: string, lastUsed: Option<string>)

  /** The row the create handler sends to the store. */
  datatype NewKey = NewKey(name: string, key: string, createdAt: string, userId: string)

  /** An error message returned by the store. */
  type StoreError = string

  /** A `.single()` query: exactly one row, or an error. */
  datatype Single<T> = Row(row: T) | Failed(error: StoreError)

  /** A plain `select`: `{ data, error }`, where `data` may be null. */
  datatype Rows<T> = Rows(data: Option<seq<T>>, error: Option<StoreError>)

  // ---------------------------------------------------------------------
  // The list and its identifiers

  predicate UniqueIds(keys: seq<ApiKey>) {
    forall i, j :: 0 <= i < j < |keys| ==> keys[i].id != keys[j].id
  }

  /** How many rows carry identifier `id`. */
  function CountId(keys: seq<ApiKey>, id: string): (n: nat)
    ensures n <= |keys|
    ensures n == 0 <==> forall k :: k in keys ==> k.id != id
  {
    if keys == [] then 0
    else (if keys[0].id == id then 1 else 0) + CountId(keys[1..], id)
  }

  /** A list with unique identifiers splits into a head whose identifier is not in the tail, and a unique tail. */
  lemma UniqueTail(keys: seq<ApiKey>)
    requires keys != [] && UniqueIds(keys)
    ensures UniqueIds(keys[1..])
    ensures forall k :: k in keys[1..] ==> k.id != keys[0].id
  {
    var tail := keys[1..];
    forall i, j | 0 <= i < j < |tail| ensures tail[i].id != tail[j].id {
      assert tail[i] == keys[i + 1] && tail[j] == keys[j + 1];
    }
    forall k | k in tail ensures k.id != keys[0].id {
      var m :| 0 <= m < |tail| && tail[m] == k;
      assert keys[m + 1] == k;
    }
  }

  /** Conversely, a fresh identifier in front of a unique list keeps it unique. */
  lemma UniqueCons(k: ApiKey, tail: seq<ApiKey>)
    requires UniqueIds(tail)
    requires forall x :: x in tail ==> x.id != k.id
    ensures UniqueIds([k] + tail)
  {
    var r := [k] + tail;
    forall i, j | 0 <= i < j < |r| ensures r[i].id != r[j].id {
      assert r[j] == tail[j - 1];
      if i == 0 {
        assert tail[j - 1] in tail;
      } else {
        assert r[i] == tail[i - 1];
      }
    }
  }

  lemma {:induction false} UniqueIdsCountAtMostOne(keys: seq<ApiKey>, id: string)
    requires UniqueIds(keys)
    ensures CountId(keys, id) <= 1
  {
    if keys != [] {
      UniqueTail(keys);
      UniqueIdsCountAtMostOne(keys[1..], id);
    }
  }

  // ---------------------------------------------------------------------
  // Create: the returned record is prepended

  /**
   * A successful create prepends the stored record. When the store hands
   * out an identifier not yet listed, the new list holds it exactly once
   * and identifiers stay unique.
   */
  lemma CreatedKeyListedOnce(prev: seq<ApiKey>, data: ApiKey)
    requires UniqueIds(prev)
    requires forall k :: k in prev ==> k.id != data.id
    ensures |[data] + prev| == |prev| + 1
    ensures CountId([data] + prev, data.id) == 1
    ensures UniqueIds([data] + prev)
  {
    assert ([data] + prev)[1..] == prev;
    UniqueCons(data, prev);
  }

  // ---------------------------------------------------------------------
  // Delete: filter out by identifier

  /** `prev.filter(key => key.id !== id)`. */
  function RemoveById(keys: seq<ApiKey>, id: string): (r: seq<ApiKey>)
    ensures forall k :: k in r <==> k in keys && k.id != id
  {
    if keys == [] then []
    else if keys[0].id == id then RemoveById(keys[1..], id)
    else [keys[0]] + RemoveById(keys[1..], id)
  }

  /** A delete shortens the list by exactly the number of rows with the identifier. */
  lemma {:induction false} RemoveByIdLength(keys: seq<ApiKey>, id: string)
    ensures |RemoveById(keys, id)| == |keys| - CountId(keys, id)
  {
    if keys != [] {
      RemoveByIdLength(keys[1..], id);
    }
  }

  /** Filtering distributes over concatenation, so the survivors keep their relative order. */
  lemma {:induction false} RemoveByIdAppend(a: seq<ApiKey>, b: seq<ApiKey>, id: string)
    ensures RemoveById(a + b, id) == RemoveById(a, id) + RemoveById(b, id)
  {
    if a == [] {
      assert a + b == b;
    } else {
      var ab := a + b;
      assert ab[0] == a[0] && ab[1..] == a[1..] + b;
      var head := if a[0].id == id then [] else [a[0]];
      assert RemoveById(ab, id) == head + RemoveById(a[1..] + b, id);
      assert RemoveById(a, id) == head + RemoveById(a[1..], id);
      RemoveByIdAppend(a[1..], b, id);
      assert head + (RemoveById(a[1..], id) + RemoveById(b, id)) == (head + RemoveById(a[1..], id)) + RemoveById(b, id);
    }
  }

  /** Deleting an identifier that is not listed leaves the list as it was. */
  lemma {:induction false} RemoveAbsentId(keys: seq<ApiKey>, id: string)
    requires forall k :: k in keys ==> k.id != id
    ensures RemoveById(keys, id) == keys
  {
    if keys != [] {
      assert keys[0] in keys;
      assert forall k :: k in keys[1..] ==> k in keys;
      RemoveAbsentId(keys[1..], id);
    }
  }

  /** After a delete no row carries the identifier, so deleting it again changes nothing. */
  lemma DeleteIsFinal(keys: seq<ApiKey>, id: string)
    ensures CountId(RemoveById(keys, id), id) == 0
    ensures RemoveById(RemoveById(keys, id), id) == RemoveById(keys, id)
  {
    RemoveAbsentId(RemoveById(keys, id), id);
  }

  /** Deleting the key just created restores the list before the create. */
  lemma DeleteUndoesCreate(prev: seq<ApiKey>, data: ApiKey)
    requires forall k :: k in prev ==> k.id != data.id
    ensures RemoveById([data] + prev, data.id) == prev
  {
    RemoveByIdAppend([data], prev, data.id);
    assert RemoveById([data], data.id) == [];
    RemoveAbsentId(prev, data.id);
  }

  /** A delete keeps identifiers unique. */
  lemma {:induction false} RemoveKeepsUniqueIds(keys: seq<ApiKey>, id: string)
    requires UniqueIds(keys)
    ensures UniqueIds(RemoveById(keys, id))
  {
    if keys != [] {
      UniqueTail(keys);
      RemoveKeepsUniqueIds(keys[1..], id);
      if keys[0].id != id {
        UniqueCons(keys[0], RemoveById(keys[1..], id));
      }
    }
  }

  // ---------------------------------------------------------------------
  // Rename: map the name in by identifier

  /** `prev.map(key => key.id === id ? { ...key, name } : key)`. */
  function Renamed(keys: seq<ApiKey>, id: string, name: string): (r: seq<ApiKey>)
    ensures |r| == |keys|
    ensures forall i :: 0 <= i < |keys| ==>
              r[i].id == keys[i].id && r[i].key == keys[i].key &&
              r[i].createdAt == keys[i].createdAt && r[i].lastUsed == keys[i].lastUsed
    ensures forall i :: 0 <= i < |keys| ==>
              r[i].name == (if keys[i].id == id then name else keys[i].name)
  {
    if keys == [] then []
    else [if keys[0].id == id then keys[0].(name := name) else keys[0]] + Renamed(keys[1..], id, name)
  }

  /** Renaming an identifier that is not listed leaves the list as it was. */
  lemma RenameAbsentId(keys: seq<ApiKey>, id: string, name: string)
    requires forall k :: k in keys ==> k.id != id
    ensures Renamed(keys, id, name) == keys
  {
    var r := Renamed(keys, id, name);
    forall i | 0 <= i < |keys| ensures r[i] == keys[i] {
      assert keys[i] in keys;
    }
  }

  /** Renaming keeps every identifier where it was, so uniqueness and counts survive. */
  lemma RenameKeepsIds(keys: seq<ApiKey>, id: string, name: string, other: string)
    ensures UniqueIds(keys) ==> UniqueIds(Renamed(keys, id, name))
    ensures CountId(Renamed(keys, id, name), other) == CountId(keys, other)
  {
    SameIdsSameCount(keys, Renamed(keys, id, name), other);
  }

  lemma {:induction false} SameIdsSameCount(a: seq<ApiKey>, b: seq<ApiKey>, id: string)
    requires |a| == |b|
    requires forall i :: 0 <= i < |a| ==> a[i].id == b[i].id
    ensures CountId(a, id) == CountId(b, id)
  {
    if a != [] {
      SameIdsSameCount(a[1..], b[1..], id);
    }
  }

  /** Renaming twice is renaming once with the later name. */
  lemma RenameTwice(keys: seq<ApiKey>, id: string, first: string, second: string)
    ensures Renamed(Renamed(keys, id, first), id, second) == Renamed(keys, id, second)
  {
  }

  /** A rename followed by a delete of the same key is just the delete. */
  lemma {:induction false} DeleteAfterRename(keys: seq<ApiKey>, id: string, name: string)
    ensures RemoveById(Renamed(keys, id, name), id) == RemoveById(keys, id)
  {
    if keys != [] {
      var r := Renamed(keys, id, name);
      assert r[1..] == Renamed(keys[1..], id, name);
      DeleteAfterRename(keys[1..], id, name);
    }
  }

  // ---------------------------------------------------------------------
  // Key generation

  const KeyPrefix: string := "sk_"
  /** `substr(2, 32)`: skip the leading "0." and keep at most 32 characters. */
  const SuffixStart: nat := 2
  const SuffixLength: nat := 32

  predicate IsBase36Digit(c: char) {
    ('0' <= c <= '9') || ('a' <= c <= 'z')
  }

  /** What `Math.random().toString(36)` can produce: "0", or "0." followed by base-36 digits. */
  predicate IsRandomText(t: string) {
    t == "0" || (StartsWith(t, "0.") && forall i :: SuffixStart <= i < |t| ==> IsBase36Digit(t[i]))
  }

  /** A key as the create handler makes it: "sk_" and at most 32 base-36 characters. */
  predicate IsKeyFormat(k: string) {
    StartsWith(k, KeyPrefix) && |k| <= |KeyPrefix| + SuffixLength &&
    forall i :: |KeyPrefix| <= i < |k| ==> IsBase36Digit(k[i])
  }

  /** JavaScript `s.substr(start, length)` for non-negative arguments. */
  function Substr(s: string, start: nat, length: nat): (r: string)
    ensures |r| <= length
    ensures r != [] ==> start + |r| <= |s|
    ensures start >= |s| ==> r == []
    ensures start < |s| ==> |r| == (if start + length <= |s| then length else |s| - start)
    ensures forall i :: 0 <= i < |r| ==> r[i] == s[start + i]
  {
    if start >= |s| then []
    else if start + length <= |s| then s[start..start + length]
    else s[start..]
  }

  /** `sk_${randomText.substr(2, 32)}`, where `randomText` is the output of `Math.random().toString(36)`. */
  function GenerateKey(randomText: string): (k: string)
    ensures StartsWith(k, KeyPrefix)
    ensures |k| == |KeyPrefix| + |Substr(randomText, SuffixStart, SuffixLength)|
    ensures |k| <= |KeyPrefix| + SuffixLength
    ensures IsRandomText(randomText) ==> IsKeyFormat(k)
    ensures forall i :: |KeyPrefix| <= i < |k| ==>
              SuffixStart + i - |KeyPrefix| < |randomText| && k[i] == randomText[SuffixStart + i - |KeyPrefix|]
  {
    KeyPrefix + Substr(randomText, SuffixStart, SuffixLength)
  }

  // ---------------------------------------------------------------------
  // Display: mask and visibility toggle

  /** Nine bullets (U+2022) in front of a hidden key. */
  const Bullets: string := "\U{2022}\U{2022}\U{2022}\U{2022}\U{2022}\U{2022}\U{2022}\U{2022}\U{2022}"
  const ShownTail: nat := 4

  /** `s.slice(-4)`: the last four characters, or all of them when there are fewer. */
  function LastFour(s: string): (r: string)
    ensures |r| == if |s| < ShownTail then |s| else ShownTail
    ensures r == s[|s| - |r|..]
  {
    if |s| < ShownTail then s else s[|s| - ShownTail..]
  }

  /**
   * The API-key cell of a row: the full key only for the visible row,
   * otherwise nine bullets and at most the last four characters of the key.
   */
  function DisplayedKey(k: ApiKey, visibleKeyId: Option<string>): (r: string)
    ensures visibleKeyId == Some(k.id) ==> r == k.key
    ensures visibleKeyId != Some(k.id) ==>
              |r| == |Bullets| + (if |k.key| < ShownTail then |k.key| else ShownTail) &&
              r[..|Bullets|] == Bullets &&
              (forall i :: |Bullets| <= i < |r| ==> r[i] == k.key[|k.key| - (|r| - i)])
    ensures visibleKeyId != Some(k.id) && |k.key| < ShownTail ==> r == Bullets + k.key
  {
    if visibleKeyId == Some(k.id) then k.key else Bullets + LastFour(k.key)
  }

  /** The eye button: hide the row if it is the visible one, otherwise make it the visible one. */
  function Toggled(visibleKeyId: Option<string>, id: string): (r: Option<string>)
    ensures r == Some(id) <==> visibleKeyId != Some(id)
    ensures r.Some? ==> r.value == id
  {
    if visibleKeyId == Some(id) then None else Some(id)
  }

  /** Clicking the same eye button twice, starting from a hidden or this row, restores the view. */
  lemma ToggleTwice(visibleKeyId: Option<string>, id: string)
    requires visibleKeyId == None || visibleKeyId == Some(id)
    ensures Toggled(Toggled(visibleKeyId, id), id) == visibleKeyId
  {
  }

  /** How many rows show their full key: those whose identifier is the visible one. */
  function ShownCount(keys: seq<ApiKey>, visibleKeyId: Option<string>): (n: nat)
    ensures n <= |keys|
  {
    if keys == [] then 0
    else (if visibleKeyId == Some(keys[0].id) then 1 else 0) + ShownCount(keys[1..], visibleKeyId)
  }

  /** With unique identifiers, at most one row of the table shows its full key. */
  lemma {:induction false} AtMostOneKeyVisible(keys: seq<ApiKey>, visibleKeyId: Option<string>)
    requires UniqueIds(keys)
    ensures ShownCount(keys, visibleKeyId) <= 1
  {
    if visibleKeyId.Some? {
      ShownIsCount(keys, visibleKeyId.value);
      UniqueIdsCountAtMostOne(keys, visibleKeyId.value);
    } else {
      NoneShowsNothing(keys);
    }
  }

  lemma {:induction false} ShownIsCount(keys: seq<ApiKey>, id: string)
    ensures ShownCount(keys, Some(id)) == CountId(keys, id)
  {
    if keys != [] {
      ShownIsCount(keys[1..], id);
    }
  }

  lemma {:induction false} NoneShowsNothing(keys: seq<ApiKey>)
    ensures ShownCount(keys, None) == 0
  {
    if keys != [] {
      NoneShowsNothing(keys[1..]);
    }
  }

  // ---------------------------------------------------------------------
  // The component's state and handlers

  /**
   * The dashboard component. The store is reached only through the
   * function parameters of each handler; `user` is the result of
   * `auth.getUser()`.
   */
  class Dashboard {
    var apiKeys: seq<ApiKey>
    var isLoading: bool
    var visibleKeyId: Option<string>
    var isEditDialogOpen: bool

    constructor ()
      ensures apiKeys == [] && !isLoading && visibleKeyId == None && !isEditDialogOpen
    {
      apiKeys := [];
      isLoading := false;
      visibleKeyId := None;
      isEditDialogOpen := false;
    }

    /** `fetchApiKeys`: replace the list with the user's rows; null data means no rows. */
    method FetchApiKeys(user: Option<string>, select: string -> Rows<ApiKey>) returns (ok: bool)
      modifies this
      ensures ok <==> user.Some? && select(user.value).error.None?
      ensures apiKeys == (if ok then select(user.value).data.GetOr([]) else old(apiKeys))
      ensures !isLoading
      ensures visibleKeyId == old(visibleKeyId) && isEditDialogOpen == old(isEditDialogOpen)
    {
      isLoading := true;
      ok := false;
      if user.Some? {
        var result := select(user.value);
        if result.error.None? {
          apiKeys := result.data.GetOr([]);
          ok := true;
        }
      }
      isLoading := false;
    }

    /**
     * `handleCreateKey`: with a user, build the new row with a generated
     * key and send it; on success prepend the stored record. `sent` is the
     * row handed to the store, if any.
     */
    method CreateKey(name: string, user: Option<string>, randomText: string, now: string,
                     insert: NewKey -> Single<ApiKey>)
      returns (sent: Option<NewKey>, ok: bool)
      modifies this
      ensures sent == (if user.Some? then Some(NewKey(name, GenerateKey(randomText), now, user.value)) else None)
      ensures ok <==> sent.Some? && insert(sent.value).Row?
      ensures apiKeys == (if ok then [insert(sent.value).row] + old(apiKeys) else old(apiKeys))
      ensures !isLoading
      ensures visibleKeyId == old(visibleKeyId) && isEditDialogOpen == old(isEditDialogOpen)
    {
      isLoading := true;
      sent, ok := None, false;
      if user.Some? {
        var newKey := NewKey(name, GenerateKey(randomText), now, user.value);
        sent := Some(newKey);
        var result := insert(newKey);
        if result.Row? {
          apiKeys := [result.row] + apiKeys;
          ok := true;
        }
      }
      isLoading := false;
    }

    /** `handleDeleteKey`: on success drop every row with this identifier. */
    method DeleteKey(id: string, delete: string -> Option<StoreError>) returns (ok: bool)
      modifies this
      ensures ok <==> delete(id).None?
      ensures apiKeys == (if ok then RemoveById(old(apiKeys), id) else old(apiKeys))
      ensures !isLoading
      ensures visibleKeyId == old(visibleKeyId) && isEditDialogOpen == old(isEditDialogOpen)
    {
      isLoading := true;
      var error := delete(id);
      ok := error.None?;
      if ok {
        apiKeys := RemoveById(apiKeys, id);
      }
      isLoading := false;
    }

    /** `handleEditKey`: on success rename the rows with this identifier and close the dialog. */
    method EditKey(id: string, name: string, update: (string, string) -> Option<StoreError>) returns (ok: bool)
      modifies this
      ensures ok <==> update(id, name).None?
      ensures apiKeys == (if ok then Renamed(old(apiKeys), id, name) else old(apiKeys))
      ensures isEditDialogOpen == (if ok then false else old(isEditDialogOpen))
      ensures !isLoading
      ensures visibleKeyId == old(visibleKeyId)
    {
      isLoading := true;
      var error := update(id, name);
      ok := error.None?;
      if ok {
        apiKeys := Renamed(apiKeys, id, name);
        isEditDialogOpen := false;
      }
      isLoading := false;
    }

    /** The eye button of the row with identifier `id`. */
    method ToggleVisible(id: string)
      modifies this
      ensures visibleKeyId == Toggled(old(visibleKeyId), id)
      ensures apiKeys == old(apiKeys) && isLoading == old(isLoading) && isEditDialogOpen == old(isEditDialogOpen)
    {
      visibleKeyId := if visibleKeyId == Some(id) then None else Some(id);
    }
  }
}
