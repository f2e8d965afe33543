# API-key playground: route guard, session store, key list and validation flow

This project models the logic of a small web application that issues API keys
to signed-in users and gates a "protected" playground page behind a validated
key. Four pieces are modelled, one Dafny module each:

- **Route guard** (`middleware.dfy`, module `Middleware`). This is the per-request
  decision of `middleware.ts`. A path under `/dashboards` with no auth session
  is redirected to `/login`. Otherwise, a path under `/playground/protected`
  with a missing or empty `api_key` cookie is redirected to `/playground`.
  Anything else passes through. The guard only runs on the paths in
  `config.matcher`. It is a pure function of the session flag and the request.
- **Session store** (`api_key_storage.dfy`, module `ApiKeyStorage`). This is
  `apiKeyStorage` from `lib/api-key-storage.ts`, modelled as a class `Storage`.
  Its state is the browser's localStorage and cookie jar, both maps from names
  to values, plus a constant `hasWindow` flag. `save`, `get` and `remove` are
  methods proved against the pure functions `SaveSpec`, `GetSpec` and
  `RemoveSpec`. Lemma-level properties are stated over those functions and over
  `Run`, which applies any sequence of calls.
- **Dashboard key list** (`api_keys_dashboard.dfy`, module `ApiKeysDashboard`).
  This covers the `ApiKey` record and the pure list updates: prepend on create,
  `RemoveById` on delete, `Renamed` on rename. It also covers key generation
  (`GenerateKey`), the masked key cell (`DisplayedKey`) and the eye-button
  toggle (`Toggled`). The handlers are methods of the class `Dashboard`. Each
  handler reaches the store only through a function parameter that returns
  success or an error.
- **Validation flow** (`playground.dfy`, module `Playground`). `handleValidate`
  is a method of `PlaygroundPage`. It records its observable effects in order:
  the loading flag, the save, the toast and the navigation. It is proved
  against `ValidateEvents`. `SingleByKey` is a reference for the store's
  exact-equality `.single()` lookup. The end-to-end lemmas connect validation,
  the store's cookie write and the guard's decision.

Where the code's behaviour may differ from its intent, the model follows the code:

- Deleting or renaming an identifier that is no longer listed is not an error.
  The store reports no error for an update that touches zero rows, and the list
  update is then a no-op (`RemoveAbsentId`, `RenameAbsentId`, `DeleteIsFinal`).
- A generated key is `sk_` followed by **at most** 32 base-36 characters, not
  exactly 32. `Math.random().toString(36)` seldom has 34 characters, and
  `substr(2, 32)` keeps what there is.
- The guard checks only that the cookie is present. It never re-checks the
  key against the store, so a deleted key keeps opening the protected page (`AnyCookieValueAdmits`,
  `DeletedKeyStillAdmitted`).

Inputs the code gets from outside are parameters of the model:

- the auth session (`hasSession`) and the signed-in user (`user: Option<string>`);
- the store's answers (`select`, `insert`, `delete`, `update`, `lookup`);
- the output of `Math.random().toString(36)` (`randomText`);
- the current time (`now`).

## Model

| member | source | states |
|---|---|---|
| `Middleware.PrefixesDisjoint` | middleware.ts:40-47 | no path starts with both `/dashboards` and `/playground/protected` |
| `Middleware.RedirectTo` | middleware.ts:41-43 | the response is a redirect whose pathname is the given one, and whose origin and query are those of the request URL (a clone with its pathname replaced) |
| `Middleware.Guard` | middleware.ts:39-57 | redirect to `/login` iff no session and dashboard prefix; redirect to `/playground` iff protected prefix and cookie missing or empty; pass-through iff neither; a redirect keeps origin and query and changes only the pathname |
| `Middleware.DashboardWithoutSessionGoesToLogin` | middleware.ts:40-44 | on a dashboard path, no session gives a redirect whose pathname is `/login`; a session gives pass-through |
| `Middleware.ProtectedNeedsNonEmptyCookie` | middleware.ts:47-55 | on a protected path the answer is pass-through when the cookie is non-empty, otherwise a redirect to `/playground` |
| `Middleware.EmptyCookieIsMissing` | middleware.ts:48-50 | an `api_key` cookie equal to `''` is treated exactly like an absent one |
| `Middleware.AnyCookieValueAdmits` | middleware.ts:47-57 | any non-empty cookie value admits a protected path; the value is never checked against the store |
| `Middleware.AtMostOneRuleFires` | middleware.ts:40-55 | the dashboard rule and the playground rule never both apply to one request |
| `Middleware.SessionIrrelevantToPlayground` | middleware.ts:47-55 | on protected paths the guard's answer does not depend on the session |
| `Middleware.CookiesIrrelevantToDashboard` | middleware.ts:40-44 | on dashboard paths the guard's answer does not depend on the cookies |
| `Middleware.OtherPathsPassThrough` | middleware.ts:57 | a path under neither prefix gets the unmodified pass-through response |
| `Middleware.MatchesBelow` | middleware.ts:60-62 | a `:path*` pattern matches only paths that start with its base path |
| `Middleware.Matched` | middleware.ts:60-62 | every path the matcher list accepts starts with `/dashboards` or `/playground/protected` |
| `Middleware.Handle` | middleware.ts:60-62 | paths outside the matcher patterns always pass through; matched paths get the guard's decision |
| `Middleware.MatchedPathsHaveAPrefix` | middleware.ts:60-62 | every matched path starts with exactly one of the guard's two prefixes |
| `Middleware.BelowIffNotSibling` | middleware.ts:60-62 | on a path starting with a pattern's base, `:path*` matches exactly when the next character is absent or `/` |
| `Middleware.MatchedIffPrefixedNotSibling` | middleware.ts:60-62 | both directions: a path is matched exactly when it starts with `/dashboards` or `/playground/protected` and is not a sibling such as `/dashboardsX`, so both bases and everything below them are matched |
| `Middleware.HandleDiffersOnlyOnSiblings` | middleware.ts:39-62 | for every request, the server's answer differs from the guard's exactly when the guard would redirect a sibling path; on every `:path*` path the guard's own answer is returned |
| `Middleware.SiblingPathSkipsGuard` | middleware.ts:40-62 | the matcher is narrower than `startsWith`: `/dashboardsX` passes through although the guard alone would redirect it |
| `ApiKeyStorage.SaveSpec` | lib/api-key-storage.ts:5-11 | in a browser, both the `validated_api_key` item and the `api_key` cookie hold the key afterwards; every other item and cookie is unchanged; on the server nothing changes |
| `ApiKeyStorage.GetSpec` | lib/api-key-storage.ts:13-18 | null on the server; in a browser, the `validated_api_key` item if present |
| `ApiKeyStorage.RemoveSpec` | lib/api-key-storage.ts:20-26 | in a browser, both the item and the cookie are gone afterwards; everything else is unchanged; on the server nothing changes |
| `ApiKeyStorage.SaveThenGet` | lib/api-key-storage.ts:5-18 | `save(s)` then `get()` returns `s` |
| `ApiKeyStorage.LastSaveWins` | lib/api-key-storage.ts:1-9 | two saves leave the same state as the second alone: one slot, last write wins |
| `ApiKeyStorage.RemoveThenGet` | lib/api-key-storage.ts:13-26 | `remove()` then `get()` returns null, and the cookie mirror is absent |
| `ApiKeyStorage.RunKeepsWindow` | lib/api-key-storage.ts:6-21 | no sequence of calls changes whether a window exists |
| `ApiKeyStorage.RunWithoutWindow` | lib/api-key-storage.ts:6-21 | on the server any sequence of calls leaves the browser state unchanged and `get()` null |
| `ApiKeyStorage.GetAfterRun` | lib/api-key-storage.ts:1-26 | in a browser, after any sequence of saves and removes, `get()` and the cookie both give what the last call left |
| `ApiKeyStorage.MirroredAfterAnyCall` | lib/api-key-storage.ts:5-26 | after at least one call in a browser, the local item and the cookie agree |
| `ApiKeyStorage.RunKeepsOtherEntries` | lib/api-key-storage.ts:7-24 | calls never touch any localStorage item or cookie other than the store's own |
| `ApiKeyStorage.Storage.Save` | lib/api-key-storage.ts:5-11 | the object's new state is `SaveSpec` of its old state |
| `ApiKeyStorage.Storage.Get` | lib/api-key-storage.ts:13-18 | returns `GetSpec` of the current state and changes nothing |
| `ApiKeyStorage.Storage.Remove` | lib/api-key-storage.ts:20-26 | the object's new state is `RemoveSpec` of its old state |
| `ApiKeysDashboard.CreatedKeyListedOnce` | app/dashboards/components/api-keys-dashboard.tsx:103 | prepending a record with a fresh id gives length `|prev| + 1`, lists that id exactly once, and keeps ids unique |
| `ApiKeysDashboard.RemoveById` | app/dashboards/components/api-keys-dashboard.tsx:127 | a row survives iff it was listed and its id differs |
| `ApiKeysDashboard.RemoveByIdLength` | app/dashboards/components/api-keys-dashboard.tsx:127 | the length drops by exactly the number of rows with that id |
| `ApiKeysDashboard.RemoveByIdAppend` | app/dashboards/components/api-keys-dashboard.tsx:127 | filtering distributes over concatenation, so surviving rows keep their order |
| `ApiKeysDashboard.RemoveAbsentId` | app/dashboards/components/api-keys-dashboard.tsx:123-127 | deleting an id that is not listed leaves the list unchanged |
| `ApiKeysDashboard.DeleteIsFinal` | app/dashboards/components/api-keys-dashboard.tsx:127 | after a delete no row has the id, and a second delete changes nothing |
| `ApiKeysDashboard.DeleteUndoesCreate` | app/dashboards/components/api-keys-dashboard.tsx:103-127 | deleting a freshly created key restores the list from before the create |
| `ApiKeysDashboard.RemoveKeepsUniqueIds` | app/dashboards/components/api-keys-dashboard.tsx:127 | a delete keeps ids unique |
| `ApiKeysDashboard.Renamed` | app/dashboards/components/api-keys-dashboard.tsx:154-156 | length, order, `id`, `key`, `createdAt` and `lastUsed` are unchanged everywhere; `name` changes only on rows with the id |
| `ApiKeysDashboard.RenameAbsentId` | app/dashboards/components/api-keys-dashboard.tsx:147-156 | renaming an id that is not listed leaves the list unchanged |
| `ApiKeysDashboard.RenameKeepsIds` | app/dashboards/components/api-keys-dashboard.tsx:154-156 | a rename keeps ids unique and keeps the count of every id |
| `ApiKeysDashboard.RenameTwice` | app/dashboards/components/api-keys-dashboard.tsx:154-156 | two renames of one id equal the second alone |
| `ApiKeysDashboard.DeleteAfterRename` | app/dashboards/components/api-keys-dashboard.tsx:127-156 | a rename followed by a delete of the same id is just the delete |
| `ApiKeysDashboard.Substr` | app/dashboards/components/api-keys-dashboard.tsx:90 | JavaScript `substr` for non-negative arguments: at most `length` characters, copied from `start` on, empty past the end |
| `ApiKeysDashboard.GenerateKey` | app/dashboards/components/api-keys-dashboard.tsx:90 | the key is `sk_` followed by exactly the `substr(2, 32)` window of the random text: its length is 3 plus that window's length (at most 35), and its suffix copies the random text from index 2; for any `toString(36)` output the suffix is base-36 digits |
| `ApiKeysDashboard.LastFour` | app/dashboards/components/api-keys-dashboard.tsx:223 | `slice(-4)`: the suffix of length `min(4, |s|)` |
| `ApiKeysDashboard.DisplayedKey` | app/dashboards/components/api-keys-dashboard.tsx:221-223 | the visible row shows the full key; any other row shows nine bullets and then the last four characters, or the whole key if it is shorter than four |
| `ApiKeysDashboard.Toggled` | app/dashboards/components/api-keys-dashboard.tsx:239 | afterwards the clicked row is visible iff it was not; no other row can be visible |
| `ApiKeysDashboard.ToggleTwice` | app/dashboards/components/api-keys-dashboard.tsx:239 | two clicks on the same row restore a view where no row or that row was visible |
| `ApiKeysDashboard.AtMostOneKeyVisible` | app/dashboards/components/api-keys-dashboard.tsx:39-239 | with unique ids, at most one row of the table shows its full key |
| `ApiKeysDashboard.Dashboard.constructor` | app/dashboards/components/api-keys-dashboard.tsx:36-42 | the component starts with an empty list, not loading, no visible key and the edit dialog closed |
| `ApiKeysDashboard.Dashboard.FetchApiKeys` | app/dashboards/components/api-keys-dashboard.tsx:45-72 | with a user and no store error, the list becomes the returned rows, or empty when the data is null; otherwise it is unchanged; loading ends false |
| `ApiKeysDashboard.Dashboard.CreateKey` | app/dashboards/components/api-keys-dashboard.tsx:78-118 | with a user, sends the new row with a generated key; on success prepends the returned record; with no user or on an error the list is unchanged |
| `ApiKeysDashboard.Dashboard.DeleteKey` | app/dashboards/components/api-keys-dashboard.tsx:120-142 | on success the list is `RemoveById` of the old list; on an error it is unchanged |
| `ApiKeysDashboard.Dashboard.EditKey` | app/dashboards/components/api-keys-dashboard.tsx:144-172 | on success the list is `Renamed` of the old list and the dialog closes; on an error both are unchanged |
| `ApiKeysDashboard.Dashboard.ToggleVisible` | app/dashboards/components/api-keys-dashboard.tsx:238-240 | the visible id becomes `Toggled` of the old one; nothing else changes |
| `Playground.CountKey` | app/playground/page.tsx:26 | the number of rows whose key equals the candidate exactly, at most the table's length |
| `Playground.KeyMatches` | app/playground/page.tsx:23-27 | exactly the rows whose key equals the candidate, as `id, key` pairs, as many as there are such rows |
| `Playground.SingleByKey` | app/playground/page.tsx:23-29 | succeeds iff exactly one row has the key (`CountKey` is 1); the row found has the candidate as its key and a listed id |
| `Playground.UnknownKeyFails` | app/playground/page.tsx:26-29 | a key that no row holds fails the lookup |
| `Playground.HeldKeyIsFound` | app/playground/page.tsx:23-27 | a key held by exactly one row is found with that row's id |
| `Playground.ValidateEvents` | app/playground/page.tsx:18-54 | loading on first and off last and never toggled between; navigation (to `/playground/protected`) iff the lookup succeeded, and always after saving the matched key; a failure neither saves nor navigates |
| `Playground.ProtectedPageRedirect` | app/playground/protected/page.tsx:10-15 | the protected page pushes `/playground` iff `get()` returned null or empty |
| `Playground.ValidatedKeyOpensProtectedPages` | app/playground/page.tsx:31-40 | after a successful lookup of a non-empty key and its save, every protected path passes the guard and the protected page does not redirect |
| `Playground.GeneratedKeysAreTruthy` | app/dashboards/components/api-keys-dashboard.tsx:90 | a generated key is never empty, so it always satisfies the cookie check |
| `Playground.DeletedKeyStillAdmitted` | middleware.ts:47-55 | once the only row holding a key is deleted, looking that key up fails, yet its saved cookie still passes the guard on every protected path |
| `Playground.PlaygroundPage.constructor` | app/playground/page.tsx:13-14 | the page starts with an empty input, not loading, and no events, over the given session store |
| `Playground.PlaygroundPage.SetApiKey` | app/playground/page.tsx:67 | the input's `onChange` sets the candidate and nothing else |
| `Playground.PlaygroundPage.HandleValidate` | app/playground/page.tsx:18-54 | the events are `ValidateEvents` of the lookup; the store is saved with the matched key on success and untouched on failure; loading ends false |
| `Playground.ValidateThenVisit` | app/playground/page.tsx:18-54 | validating a key the store holds, then requesting a protected path with the browser's cookies, yields pass-through |
| `Playground.ValidateFailsThenVisit` | app/playground/page.tsx:18-54 | validating a key the store does not resolve to one row leaves the session store unchanged, records only loading on, the error toast and loading off, and a protected path with the browser's cookies is still redirected to `/playground` |

## Left out

- The auth-provider and database calls (`auth.getSession`, `auth.getUser`, and the `api_keys` select, insert, update and delete) belong to a foreign service. They are parameters of the model. The store's ordering by `created_at` is the store's business and is not computed here.
- A URL is its origin, pathname and query. Other parts of `nextUrl` (hash, base path, locale) are carried over by a redirect in the same way, and are not modelled.
- Strings are sequences of Unicode characters, while JavaScript's `slice(-4)` and `substr` count UTF-16 code units. `LastFour` and `Substr` agree with the source on the ASCII keys the generator makes, but differ on a key that holds a character outside the Basic Multilingual Plane.
- `localStorage.setItem` and `getItem` can throw, for instance when storage is disabled or full. `SaveSpec`, `GetSpec` and `Storage.Save` never fail. In `handleValidate` a throwing save (app/playground/page.tsx:33, inside the `try`) would end in the error toast, with no cookie and no navigation; the model does not capture that path.
- The auth provider's cookie adapter in `middleware.ts` (lines 9-37) is library plumbing.
- `Math.random().toString(36)` is floating-point generation. Its output is the parameter `randomText`; `IsRandomText` describes the shape it can take.
- Time (`new Date().toISOString()`, date formatting), the clipboard write, the 2-second `setTimeout` of `handleCopyKey` and toast texts are browser effects. A toast is recorded only as success or failure, in the playground's event log.
- Async timing, un-awaited callbacks and late responses after unmount are concurrency, not logic. Each handler runs to completion in one step.
- The `if (data)` test of `handleValidate` (app/playground/page.tsx:31) has no false branch in the model. A `.single()` query without an error always returns a row.
- Cookie string serialisation and the browser's cookie parsing are out of scope. A cookie is a single map entry. The `path=/` attribute is modelled by handing the whole jar to the guard on every path.
- The `created_at` / `createdAt` field-name mismatch between the inserted row and the rendered one is a rendering concern.
- The sidebar, the create and edit dialogs, the dashboards page, login and password reset are rendering and dialog state, or auth-provider calls.
- ApiKeysDashboard.Dashboard.FetchApiKeys: states only the final `isLoading == false`. The `true` value held while the store call is pending is visible only to concurrent rendering, which is not modelled.
- ApiKeysDashboard.Dashboard.CreateKey: states only the final `isLoading == false`. The `true` value held while the store call is pending is visible only to concurrent rendering, which is not modelled.
- ApiKeysDashboard.Dashboard.DeleteKey: states only the final `isLoading == false`. The `true` value held while the store call is pending is visible only to concurrent rendering, which is not modelled.
- ApiKeysDashboard.Dashboard.EditKey: states only the final `isLoading == false`. The `true` value held while the store call is pending is visible only to concurrent rendering, which is not modelled.
