# Todo app client cache: a Dafny model

This project models the client side of a small multi-user todo-list
application (a Vue/Quasar front end over a PocketBase record service). It
covers the parts of the front end that hold state:

- **The list/todo store** (`stores/todo.ts`). It caches the user's todo lists
  (`lists`), the selected list (`currentList`) and that list's items
  (`todos`). Every action except `setCurrentList` awaits one
  record-service call and updates the cache only after the call returns.
  `setCurrentList` sets the list and empties `todos` at once, then starts
  the item fetch without awaiting it. New records go to the front. An
  update overwrites the first cached record with the same id. A delete
  filters out every record with that id.
- **The realtime composable** (`composables/useTodosRealtime.ts`). It keeps
  at most one change subscription, scoped to the list on screen. It merges
  create, update and delete events into the page's `todos` ref, and
  ignores events for other lists.
- **The todo actions composable** (`composables/useTodoActions.ts`). Adding
  an item is validated and guarded against duplicate ids. Toggling an item
  is applied optimistically and reverted when the call fails. Deleting an
  item is applied optimistically and rolled back to a snapshot when the
  call fails.
- **Locale negotiation** (`boot/i18n.ts`). A saved choice is used first.
  Then the browser's languages are tried in order, each by exact match and
  then by prefix match, and finally the default locale is used.
  `setLocale` saves the choice.
- **The auth store** (`stores/auth.ts`). It has the `user` and
  `isInitialized` fields and the module-level flags around `init`: the
  session listener is registered once, and the "initialised" promise is
  shared by its waiters and resolved once.

Modelling choices:

- Every call into the record service is a **parameter holding its
  outcome**: `Returns(value)` or `Throws(error)`. Each object also keeps a
  **log of the calls it made** (`requests`, `calls`). This lets contracts
  say both what was sent and that no call was made.
- Objects whose fields the source updates in place are classes: the
  stores, the composables' closure state, and Vue's `Ref<T>`. Their
  methods state the whole new state in terms of the old state.
- The merge rules are shared functions over id-keyed sequences (module
  `Keyed`). The lemmas about the cache are proved once about those
  functions.
- JavaScript truthiness is written out. A list id of `""` counts as "no
  list", just like `null`.

Files:

| file | module | models |
|---|---|---|
| common.dfy | `Common`, `Refs` | ids, `Option`, call outcomes, truthiness, `Ref<T>` |
| keyed.dfy | `Keyed` | `find`, `findIndex`, indexed overwrite, `filter` and guarded `unshift` on id-keyed arrays |
| todo_store.dfy | `Todos` | `stores/todo.ts` |
| todos_realtime.dfy | `Realtime` | `composables/useTodosRealtime.ts` |
| todo_actions.dfy | `Actions` | `composables/useTodoActions.ts` |
| i18n.dfy | `Locale` | `boot/i18n.ts` |
| auth.dfy | `Auth` | `stores/auth.ts` |

Behaviour of the code worth knowing when reading the contracts:

- Only `fetchLists` and `fetchList` catch errors. `fetchTodos` lets a
  failure propagate and keeps `todos` as it was
  (frontend/src/stores/todo.ts:89-96).
- The realtime delete and the store deletes remove **every** entry with
  the id (`filter`), not only the first.
- On a failed toggle, the flag is set back to the value the **argument**
  had on entry (`todo.is_completed`). It is not set back to the value the
  cached item had. The two are the same when the page passes the cached
  item itself. `Actions.TodoActions.ToggleTodo` states both the general
  result and exact restoration in that case.

## Model

| member | source | states |
|---|---|---|
| `Keyed.FindIndex` | frontend/src/stores/todo.ts:73 | the result is -1 exactly when no entry has the id; otherwise it is the first position holding the id |
| `Keyed.Find` | frontend/src/composables/useTodosRealtime.ts:28 | a result is found exactly when some entry has the id, and it is the entry at the first such position |
| `Keyed.PrependIfAbsent` | frontend/src/composables/useTodosRealtime.ts:28-30 | the record is put at the front only when its id is absent; afterwards the id is present; ids that were unique stay unique |
| `Keyed.ReplaceFirst` | frontend/src/stores/todo.ts:108-111 | length kept; no-op when the id is absent; otherwise only the first position holding the id changes, and it gets the record |
| `Keyed.RemoveAll` | frontend/src/stores/todo.ts:115 | no entry with the id remains; every survivor came from the input; every entry with another id survives; length does not grow |
| `Keyed.FindIndexSameIds` | frontend/src/composables/useTodoActions.ts:65-78 | two sequences with the same ids at the same positions have the same first match, so the revert finds the item the toggle changed |
| `Keyed.RemoveAllAppend` | frontend/src/stores/todo.ts:115 | filtering distributes over concatenation |
| `Keyed.RemoveAllKeepsOrder` | frontend/src/stores/todo.ts:83 | an entry with another id stays between the survivors before it and the survivors after it (relative order kept) |
| `Keyed.RemoveAllAbsent` | frontend/src/composables/useTodosRealtime.ts:41-43 | removing an id that no entry holds changes nothing |
| `Keyed.RemoveAllIdempotent` | frontend/src/composables/useTodosRealtime.ts:41-43 | removing the same id twice is removing it once |
| `Keyed.RemoveAllCounts` | frontend/src/composables/useTodoActions.ts:92 | each entry with another id keeps its multiplicity; entries with the id have none |
| `Keyed.RemoveAllUnique` | frontend/src/stores/todo.ts:115 | removal never creates two entries with the same id |
| `Keyed.ReplaceFirstIdempotent` | frontend/src/composables/useTodosRealtime.ts:33-39 | writing the same record (carrying the id) twice equals writing it once |
| `Keyed.ReplaceFirstUnique` | frontend/src/composables/useTodosRealtime.ts:33-39 | overwriting with a record carrying the same id keeps ids positionwise and keeps them unique |
| `Todos.TodoStore.constructor` | frontend/src/stores/todo.ts:24-28 | the store starts with no lists, no current list and no items |
| `Todos.TodoStore.FetchLists` | frontend/src/stores/todo.ts:30-50 | no valid session: no call and nothing changes; otherwise one owner-scoped fetch, which replaces `lists` on success and leaves it unchanged on failure |
| `Todos.TodoStore.FetchList` | frontend/src/stores/todo.ts:51-61 | one fetch by id; the record on success, `None` on failure |
| `Todos.TodoStore.CreateList` | frontend/src/stores/todo.ts:62-70 | sends title, visibility (private by default) and owner; on success the record is at index 0 followed by the old lists in order; a failure propagates with `lists` unchanged |
| `Todos.TodoStore.UpdateList` | frontend/src/stores/todo.ts:71-80 | on success the first cached list with the id is overwritten, and `currentList` is replaced if and only if its id is the updated id; a failure propagates and changes nothing |
| `Todos.TodoStore.DeleteList` | frontend/src/stores/todo.ts:81-88 | on success every list with the id is removed; `currentList` becomes null and `todos` empty exactly when the current list had that id, otherwise both are untouched; a failure propagates and changes nothing |
| `Todos.TodoStore.FetchTodos` | frontend/src/stores/todo.ts:89-96 | a completed fetch replaces `todos` wholesale; a failure propagates with `todos` unchanged |
| `Todos.TodoStore.CreateTodo` | frontend/src/stores/todo.ts:97-105 | always sends `is_completed = false` and `list = listId`; on success the record is at index 0 followed by the old items; a failure propagates with `todos` unchanged |
| `Todos.TodoStore.UpdateTodo` | frontend/src/stores/todo.ts:106-112 | on success the first cached item with the id is overwritten (length kept, no-op if absent); a failure propagates and changes nothing |
| `Todos.TodoStore.DeleteTodo` | frontend/src/stores/todo.ts:113-116 | on success every item with the id is removed; a failure propagates with `todos` unchanged |
| `Todos.TodoStore.SetCurrentList` | frontend/src/stores/todo.ts:117-121 | `currentList` is set and `todos` emptied before the fetch completes; afterwards `todos` is the fetched items, or still empty if the fetch failed (never the previous list's items) |
| `Realtime.ApplyEvent` | frontend/src/composables/useTodosRealtime.ts:19-45 | an event whose record belongs to a list other than the one shown leaves the items unchanged |
| `Realtime.CreateEventIdempotent` | frontend/src/composables/useTodosRealtime.ts:26-31 | a create event inserts at index 0 exactly when the id is absent, so applying it twice equals applying it once |
| `Realtime.OptimisticEchoAbsorbed` | frontend/src/composables/useTodoActions.ts:34-38 | the realtime echo of an item already inserted locally leaves the items exactly as the local insert left them |
| `Realtime.UpdateEventInPlace` | frontend/src/composables/useTodosRealtime.ts:33-39 | an update event keeps the length and the ids, overwrites only the first item with the id, is a no-op when the id is absent, and is idempotent |
| `Realtime.DeleteEventRemovesAll` | frontend/src/composables/useTodosRealtime.ts:41-43 | after a delete event no item has the id, every other item keeps its multiplicity, and a second delete changes nothing |
| `Realtime.DeleteEventKeepsOrder` | frontend/src/composables/useTodosRealtime.ts:41-43 | the surviving items keep their relative order |
| `Realtime.CreateThenDeleteRestores` | frontend/src/composables/useTodosRealtime.ts:26-43 | a create event for a fresh id followed by its delete event restores the items exactly |
| `Realtime.ApplyEventKeepsIdsUnique` | frontend/src/composables/useTodosRealtime.ts:19-45 | no event makes two cached items share an id |
| `Realtime.TodosRealtime.constructor` | frontend/src/composables/useTodosRealtime.ts:15-95 | the immediate watcher run subscribes to a non-empty initial list id and does nothing otherwise; the connection flag matches the target |
| `Realtime.TodosRealtime.HandleEvent` | frontend/src/composables/useTodosRealtime.ts:19-45 | the in-place `unshift`, index assignment and `filter` leave `todos` equal to the merge rule applied to the old items |
| `Realtime.TodosRealtime.UnsubscribeAll` | frontend/src/composables/useTodosRealtime.ts:71-82 | always ends with target null and not connected, even when the unsubscribe call throws; the call is made only when there was a target |
| `Realtime.TodosRealtime.Subscribe` | frontend/src/composables/useTodosRealtime.ts:47-69 | the same id again: no call and no change; a new id: leave the old target, then target = id and connected on success, or target null and disconnected on failure; `isConnected` holds exactly when the target is non-null |
| `Realtime.TodosRealtime.ListIdChanged` | frontend/src/composables/useTodosRealtime.ts:85-95 | a null or empty id ends unsubscribed; a non-empty id goes through `subscribe` |
| `Realtime.TodosRealtime.Unmount` | frontend/src/composables/useTodosRealtime.ts:98-100 | unmounting always ends unsubscribed |
| `Realtime.SwitchAwayAndBack` | frontend/src/composables/useTodosRealtime.ts:47-95 | opening list X, switching to Y and back to X gives exactly: subscribe X, leave X, subscribe Y, leave Y, subscribe X, and ends connected |
| `Actions.TodoActions.constructor` | frontend/src/composables/useTodoActions.ts:15-22 | the actions work on the given list-id ref, the given `todos` ref and the store, with no notification shown yet |
| `Actions.SetCompleted` | frontend/src/composables/useTodoActions.ts:65-68 | only the first item with the id changes, and only its completion flag; ids are kept; no-op when the id is absent |
| `Actions.SetCompletedTwice` | frontend/src/composables/useTodoActions.ts:65-79 | setting the flag twice on one id leaves only the second value |
| `Actions.RevertRestores` | frontend/src/composables/useTodoActions.ts:62-79 | reverting to the value the item had restores the sequence exactly |
| `Actions.TodoActions.AddTodo` | frontend/src/composables/useTodoActions.ts:29-52 | empty text or no list: `None`, no call, nothing changes; success: the new item is at the front unless its id is already present; failure: an error notification, `None`, `todos` unchanged |
| `Actions.TodoActions.ToggleTodo` | frontend/src/composables/useTodoActions.ts:59-81 | a null value does nothing; otherwise the flag is set before the update is sent; on failure an error is notified and the flag is set back to the argument's value at entry, which restores `todos` exactly when that was the cached value |
| `Actions.TodoActions.DeleteTodo` | frontend/src/composables/useTodoActions.ts:87-101 | the item is removed before the delete is sent; on failure an error is notified and `todos` is the exact pre-call sequence, order included |
| `Actions.GroceriesScenario` | frontend/src/composables/useTodoActions.ts:29-81 | create the list "Groceries", open it, add "Milk" and tick it: the page and the store both hold just the ticked item |
| `Locale.PrefixBeforeDash` | frontend/src/boot/i18n.ts:48 | the result is a prefix of the tag with no '-' in it, followed in the tag by a '-' or by nothing |
| `Locale.FindStartingWith` | frontend/src/boot/i18n.ts:49 | a result is found exactly when some locale starts with the prefix, and it is such a locale; the first locale wins when it qualifies |
| `Locale.FindStartingWithFirst` | frontend/src/boot/i18n.ts:49 | the result is the first qualifying locale: if locale i starts with the prefix and no earlier one does, locale i is returned |
| `Locale.MatchLanguage` | frontend/src/boot/i18n.ts:43-52 | the result is always a supported locale; an exact match selects itself before any prefix match |
| `Locale.FirstMatch` | frontend/src/boot/i18n.ts:41-53 | the result is a supported locale; nothing is selected exactly when no language matches |
| `Locale.BrowserLanguages` | frontend/src/boot/i18n.ts:39 | the browser's language list when there is one (an empty list is kept, being truthy), else the single `navigator.language` |
| `Locale.SavedLocale` | frontend/src/boot/i18n.ts:33 | null exactly when nothing is stored under 'user-locale', otherwise the stored value |
| `Locale.Negotiate` | frontend/src/boot/i18n.ts:25-26 | the negotiated locale is always one of `en-US`, `ru-RU` |
| `Locale.DetectBrowserLocale` | frontend/src/boot/i18n.ts:31-56 | the loop with early returns computes the negotiation over the saved value and `navigator.languages` (or `[navigator.language]`) |
| `Locale.SavedChoice` | frontend/src/boot/i18n.ts:33-36 | a supported saved value wins over any browser languages; an unsupported one is ignored |
| `Locale.FirstSelectingLanguageDecides` | frontend/src/boot/i18n.ts:41-53 | languages are tried in order, and the first one that matches decides whatever follows it |
| `Locale.NothingMatchesGivesDefault` | frontend/src/boot/i18n.ts:55 | with nothing usable saved and no language matching, the result is `en-US` |
| `Locale.PrefixRuleExamples` | frontend/src/boot/i18n.ts:47-51 | 'en-GB' gives 'en-US', 'ru' gives 'ru-RU', '' gives 'en-US', 'fr-FR' matches nothing, 'ru-RU' gives itself |
| `Locale.I18n.constructor` | frontend/src/boot/i18n.ts:59-66 | the running locale starts as the detected one |
| `Locale.I18n.SetLocale` | frontend/src/boot/i18n.ts:71-79 | sets the running locale and stores it under 'user-locale' |
| `Locale.SetLocaleRoundTrip` | frontend/src/boot/i18n.ts:24 | a locale saved by `setLocale` is what detection returns next time, whatever the browser languages |
| `Locale.SetThenRestart` | frontend/src/boot/i18n.ts:71-79 | the same round trip through the methods: set a locale, then start again over the same storage, and that locale is detected |
| `Auth.AuthStore.IsAuthenticated` | frontend/src/stores/auth.ts:17 | true exactly when `user` is non-null |
| `Auth.AuthStore.constructor` | frontend/src/stores/auth.ts:5-15 | starts from the client's current user, uninitialised, with no listener, promise or resolver |
| `Auth.AuthStore.Login` | frontend/src/stores/auth.ts:20-23 | sends the credentials; on success `user` is the returned record; a failure propagates with `user` unchanged |
| `Auth.AuthStore.Register` | frontend/src/stores/auth.ts:24-32 | creates the user, then logs in with the same email and password; a failed creation makes no login call; either call's error propagates as it was thrown |
| `Auth.AuthStore.Logout` | frontend/src/stores/auth.ts:33-36 | the client's session is cleared and `user` is null |
| `Auth.AuthStore.SessionChanged` | frontend/src/stores/auth.ts:48-54 | once the listener is registered, a session change copies the new user into the store; before that the store is untouched |
| `Auth.AuthStore.Init` | frontend/src/stores/auth.ts:37-55 | sets `isInitialized` and `user` from the client; resolves a pending waiter once and clears the resolver; registers the listener only if no earlier call did, so it is registered exactly once |
| `Auth.AuthStore.WaitForInit` | frontend/src/stores/auth.ts:60-73 | returns at once when initialised; before that every call returns the same single promise, created on first demand |
| `Auth.InitSequence` | frontend/src/stores/auth.ts:37-73 | two waiters before `init` share one promise; `init` twice resolves it once and registers one listener; a later waiter need not wait |

## Left out

- Record-service calls (`getFullList`, `getOne`, `create`, `update`, `delete`, `subscribe`, `unsubscribe`, `authWithPassword`) are not modelled. Each one is a parameter holding its outcome, and the request is logged. The PocketBase client library is not part of this model.
- Filter and sort strings sent to the server are not modelled: the owner filter and `-created` sort in `fetchLists`, the list filter in `fetchTodos`, and the subscription filter. The server evaluates them, so the model keeps only the owner or list id the request names.
- Interleaving of in-flight requests and out-of-order responses is not modelled. Each action runs as one atomic step in call order. The ghost `shown` results of `SetCurrentList`, `ToggleTodo` and `DeleteTodo` stand for the state the page shows while the call is pending.
- Vue and Pinia reactivity is not modelled. The `listId` watcher is the method `ListIdChanged`, which Vue would call after the ref changes. `onUnmounted` is `Unmount`. The `immediate` first run happens in the constructor.
- `addTodo`'s `nextTick`/`focus` of the input is left out, because it is UI-only.
- Logging and `isAutoCancelledError` are left out. They only decide whether to log, and the cache state is the same either way.
- Whether the page passes the store's own `todos` array as the composables' `todos` ref depends on page code, which is not part of this model. The model keeps the store's `todos` and the ref as separate cells.
- `Actions.TodoActions.ToggleTodo` holds records by value. In the source the store's array and the page's array can hold the same record object (`createTodo` unshifts the returned record, and `addTodo` unshifts that same object), and `toggleTodo` writes `is_completed` on the object in place. That write, during the call and in the revert, therefore also shows in the store's copy. The model's store keeps its own value: on failure `store.todos` is unchanged, which matches the source only when the argument's flag equals the cached one.
- Record fields other than id, title, owner and visibility (lists) and id, text, flag and parent list (items) are left out: the timestamps and the collection metadata. No logic reads them.
- `Auth.AuthStore.Login` does not model the client library saving the new session into its own auth store. That effect happens inside the library, which is not part of this model.
- `Locale.I18n.SetLocale` always writes the running locale. The source first checks that `i18n.global.locale` is a ref, which it always is with `legacy: false`.
- Promises are modelled by identifiers. `waitForInit`'s `async` wrapper is identified with the shared `initPromise` it returns.
- `Realtime.TodosRealtime.Subscribe` requires a non-empty id. Its only caller, the watcher, passes only truthy ids. Subscribing to `""` would leave a target that `unsubscribeAll`'s truthiness test could never clear.
- frontend/src/composables/useListActions.ts is not part of this model. It is dialog, clipboard and router wiring around the store actions modelled here.
- useNotify.ts, pocketbase.ts, collections.ts, routes.ts and the message tables are not part of this model. They are wrappers, constants and data. A notification is recorded by its severity and message key only.
- The backend migrations are not part of this model. They hold declarative schema and access rules that the record service evaluates, so the model does not cover access control or the cascade deletes.
