# react-playground core, modelled in Dafny

This project models the stateful and algorithmic logic of a React/TypeScript
playground repository and proves properties about it:

- **RateLimit** (`rate_limit.dfy`): the fixed-window rate limiter.
  - Time is cut into windows of `windowMs` milliseconds. A module-level map
    counts the hits per key `<prefix>:<windowStart>`.
  - `recordRateLimit` adds a hit. `checkRateLimit` reads the count and decides
    admission.
  - The `retry` closure of a result waits for the window to reset and checks
    again, under a counter that belongs to the result being retried.
  - The map becomes the class `RateLimitCache`; a result with its retry
    counter becomes the class `RateLimitResult`. `Date.now()` is a clock value
    passed in. A retry chain reads the clock through a finite sequence of
    `Tick` observations; once they run out the chain is reported `Pending`.
- **Decimal** (`decimal.dfy`): the decimal text of a natural number, which the
  template literal of a cache key produces, with its parse round trip and its
  injectivity. Injectivity is what makes different windows use different keys.
- **Toast** (`toast.dfy`): the global toast store.
  - The reducer handles add, update, dismiss and remove.
  - `timeoutsMap` holds the pending removal timers, at most one per id.
  - `dispatch` writes `memoryState` and notifies the listeners; `toast()`
    creates a toast.
  - The store's module variables are the fields of the class `ToastStore`.
- **PollingStorage** (`polling_storage.dfy`): the list of polling ids kept in
  `localStorage`, modelled as the stored list itself (class `PollingStore`).
- **Polling** (`polling.dfy`): the `usePolling` hook (class `PollingHook`).
  - It keeps one interval timer per polled id and the latest progress per id.
  - A poll result is stored only if its id is still polled when it arrives.
  - Timers firing and fetches completing are explicit events.
  - The effect's cleanup clears the map it closed over at the first render,
    which is no longer the live map once a cleanup has replaced it.
- **Register** (`register.dfy`): the registration form's validation.
- **LightBulb** (`light_bulb.dfy`): the three-state light-bulb machine.
- **Folder pages** (`folder_tree.dfy`, `folder_page_v1.dfy`, `folder_page_v2.dfy`):
  - `FolderTree` holds what the two pages share: the expanded-set toggle,
    `hasChildren` and the rendered row.
  - `FolderPageV1` is the flat rendering, which shows a folder when its direct
    parent is expanded.
  - `FolderPageV2` is the recursive rendering, which shows a folder exactly
    when every ancestor is expanded.
- **CharactersCache** (`characters_cache.dfy`): the Apollo `characters` merge,
  which concatenates fetched pages.
- **Common** (`common.dfy`): `Option`, `Filter`, `Map` and distinctness
  predicates, used by the modules above.

The comment on `retry` in src/lib/rate-limit.ts:24-26 says a maximum number
of retries keeps the recursion from going on for ever. In the code each
re-check builds a new result whose counter starts at 0, so the ceiling is
compared only with the counter of the result being retried. The first re-check
also reads the next window, which nobody has written yet. So a retry on a
limiter with `maxRequests > 0` answers true after one wait
(`RateLimit.RetryAdmittedAfterReset`, `RateLimit.ChatScenario`). The model
follows the code.

## Model

| member | source | states |
|---|---|---|
| `RateLimit.Settings.AsConfig` | src/lib/rate-limit.ts:71-76 | The configuration the retry passes to its re-check gives back the same prefix, limit, window and ceiling. |
| `RateLimit.Resolve` | src/lib/rate-limit.ts:46-51 | `maxRequests` and `windowMs` are copied; `keyPrefix` and `maxRetries` given by the caller are used as given. |
| `RateLimit.DefaultsApplied` | src/lib/rate-limit.ts:49-50 | A configuration without the optional fields gets prefix "rate-limit" and retry ceiling 3. |
| `RateLimit.WindowStart` | src/lib/rate-limit.ts:34 | The window start is a multiple of `windowMs` and `start <= now < start + windowMs`. |
| `RateLimit.WindowStartUnique` | src/lib/rate-limit.ts:53 | The window start is the only multiple of `windowMs` in `(now - windowMs, now]`. |
| `RateLimit.SameWindow` | src/lib/rate-limit.ts:53 | Two instants of one window have the same window start. |
| `RateLimit.WindowStartMonotone` | src/lib/rate-limit.ts:53 | A later instant never has an earlier window start. |
| `RateLimit.KeyOf` | src/lib/rate-limit.ts:35 | A key is the prefix, a colon, then digits only, and the digits read back as the window start. |
| `RateLimit.WindowKey` | src/lib/rate-limit.ts:53-54 | A check's key is its prefix and a colon, followed by digits naming the multiple of `windowMs` whose window contains the check's instant. |
| `RateLimit.KeyOfInjective` | src/lib/rate-limit.ts:35 | Equal keys `<prefix>:<windowStart>` come from an equal prefix and an equal window start. |
| `RateLimit.DifferentWindowsDifferentKeys` | src/lib/rate-limit.ts:54 | Instants in different windows address different keys. |
| `RateLimit.CountOf` | src/lib/rate-limit.ts:37 | An absent key counts as 0; a present key has its stored count. |
| `RateLimit.Increment` | src/lib/rate-limit.ts:37-38 | The key's count goes up by one, every other key keeps its count, and only that key is added. |
| `RateLimit.Decide` | src/lib/rate-limit.ts:56-59 | `allowed` holds iff `count < maxRequests`. `remaining = max(0, maxRequests - count)` is never negative and is 0 on a denial. `totalHits = count`. `resetTime` is the next window boundary, in `(now, now + windowMs]`. |
| `RateLimit.Assess` | src/lib/rate-limit.ts:52-59 | A check reports as `totalHits` the stored count of the current window's key, and `resetTime = windowStart + windowMs`. |
| `RateLimit.SameWindowSameDecision` | src/lib/rate-limit.ts:52-59 | Two checks in one window of an unchanged cache decide the same. |
| `RateLimit.RecordSeenInSameWindow` | src/lib/rate-limit.ts:32-38 | A hit recorded in the window of a later check raises that check's `totalHits` by one. |
| `RateLimit.RecordUnseenInOtherWindow` | src/lib/rate-limit.ts:32-38 | A hit recorded in another window does not change a check's decision. |
| `RateLimit.RecordAllCounted` | src/lib/rate-limit.ts:32-38 | `n` hits recorded in a check's window raise its `totalHits` by `n`. |
| `RateLimit.FullWindowDenies` | src/lib/rate-limit.ts:57-58 | Once a window holds `maxRequests` hits, every check in it denies with nothing remaining. |
| `RateLimit.RecordAllElsewhere` | src/lib/rate-limit.ts:37-38 | Hits recorded under other keys leave a key's count unchanged. |
| `RateLimit.RecheckTime` | src/lib/rate-limit.ts:65-68 | The re-check happens no earlier than `resetTime` and no earlier than the clock reading before the wait. It happens exactly at `resetTime` when a wait was needed, otherwise at the first reading, plus the timer's lateness. |
| `RateLimit.RecheckReadsNextWindow` | src/lib/rate-limit.ts:65-76 | A re-check after a wait reads a later window than the denied check, hence a different key. |
| `RateLimit.RetryRun` | src/lib/rate-limit.ts:63-88 | An allowed result settles true at once with its counter unchanged. Only a denied result can be left pending. The counter goes up by at most one, and only when a wait was observed and the counter was below `maxRetries`. |
| `RateLimit.RetryAllowedImmediately` | src/lib/rate-limit.ts:63-88 | `retry` on an allowed result answers true with no wait and leaves its counter alone. |
| `RateLimit.RetryAdmittedWhenRecheckAllowed` | src/lib/rate-limit.ts:71-85 | `retry` answers true as soon as its re-check is allowed. |
| `RateLimit.RetryNeverFailsBelowCeiling` | src/lib/rate-limit.ts:61-84 | A result whose counter is below `maxRetries` never answers false: every nested result starts its own counter at 0. |
| `RateLimit.RetryFailsIff` | src/lib/rate-limit.ts:78-81 | `retry` answers false iff the result is denied, its first re-check is denied, and its own counter has reached `maxRetries`. |
| `RateLimit.RetryCountStep` | src/lib/rate-limit.ts:82-83 | The retried result's counter goes up by one exactly when the chain continues into a nested retry, and otherwise stays. |
| `RateLimit.PermanentDenialNeverSettles` | src/lib/rate-limit.ts:63-84 | With `maxRequests <= 0` and a counter below the ceiling, the chain never settles, however many clock readings it makes. |
| `RateLimit.ZeroRetriesFailAtFirstDenial` | src/lib/rate-limit.ts:78-80 | With `maxRetries = 0`, a fresh result's first denied re-check answers false. |
| `RateLimit.RetryAdmittedAfterReset` | src/lib/rate-limit.ts:63-85 | A window filled by hits recorded in it does not stop a retry: the next window is empty, so the first re-check admits. |
| `RateLimit.ChatScenario` | src/pages/Ratelimit.tsx:15-20 | With the chat page's configuration, two messages at `t` give `(false, 0, 2 hits)`, a check 5000 ms later gives `(true, 2, 0 hits)`, and a retry is admitted. |
| `RateLimit.RateLimitCache.constructor` | src/lib/rate-limit.ts:30 | The cache starts empty. |
| `RateLimit.RateLimitCache.RecordRateLimit` | src/lib/rate-limit.ts:32-38 | The cache becomes the old cache with the current window key's count raised by one. |
| `RateLimit.RateLimitCache.CheckRateLimit` | src/lib/rate-limit.ts:46-96 | A check does not write the cache. It returns a fresh result with the decision read from the cache and a retry counter of 0. |
| `RateLimit.RateLimitResult.constructor` | src/lib/rate-limit.ts:61 | A result's own retry counter starts at 0. |
| `RateLimit.RateLimitResult.Retry` | src/lib/rate-limit.ts:63-88 | The retry's answer and the result's new counter are those of `RetryRun`, and the cache is unchanged. |
| `Decimal.DigitChar` | src/lib/rate-limit.ts:35 | Every digit value becomes a digit character. |
| `Decimal.DigitRoundTrip` | src/lib/rate-limit.ts:35 | A digit character reads back as its digit value. |
| `Decimal.Show` | src/lib/rate-limit.ts:35 | The decimal text of a window start is non-empty and made of digits only. |
| `Decimal.ParseShow` | src/lib/rate-limit.ts:35 | Reading back the decimal text of `n` gives `n`. |
| `Decimal.ShowInjective` | src/lib/rate-limit.ts:35 | Different numbers have different decimal texts. |
| `Toast.Merge` | src/components/toast/useToast.ts:64 | The patch's id and every field the patch has replace the toast's; the other fields stay. |
| `Toast.MergeIdempotent` | src/components/toast/useToast.ts:64 | Applying the same patch twice equals applying it once. |
| `Toast.UpdateMatching` | src/components/toast/useToast.ts:61-65 | UPDATE keeps the length, merges the patch into every toast with its id, and leaves every other toast as it was. |
| `Toast.WithoutId` | src/components/toast/useToast.ts:81-82 | No toast with the removed id remains. |
| `Toast.WithoutIdKeeps` | src/components/toast/useToast.ts:81-82 | REMOVE keeps every toast with another id, and it commutes with concatenation, so order is kept. |
| `Toast.WithoutAbsentId` | src/components/toast/useToast.ts:82 | REMOVE of an id no toast has changes nothing. |
| `Toast.RemovalRequests` | src/components/toast/useToast.ts:66-76 | DISMISS with a truthy id schedules that id. DISMISS with an absent or empty id schedules every toast's id, in list order. Other actions schedule nothing. |
| `Toast.ReduceToasts` | src/components/toast/useToast.ts:57-84 | ADD appends at the end and keeps the old list as a prefix. UPDATE merges. DISMISS leaves the list unchanged. REMOVE filters out the id. |
| `Toast.UpdateAbsentId` | src/components/toast/useToast.ts:61-65 | UPDATE of an id no toast has changes nothing. |
| `Toast.AddThenRemove` | src/components/toast/useToast.ts:57-84 | Adding a toast and then removing its id equals removing the id from the old list. |
| `Toast.Enqueue` | src/components/toast/useToast.ts:40-55 | Queueing leaves the id pending. An id already pending changes nothing; a new id goes last. |
| `Toast.EnqueueIdempotent` | src/components/toast/useToast.ts:41-43 | `addToRemoveQueue` twice equals once. |
| `Toast.EnqueueDistinct` | src/components/toast/useToast.ts:41-54 | Queueing never creates a second timer for an id. |
| `Toast.QueueAll` | src/components/toast/useToast.ts:73-75 | Queueing several ids keeps what was pending, in front and in order, and leaves pending exactly the old ids and the new ones. |
| `Toast.QueueAllSpec` | src/components/toast/useToast.ts:73-75 | Queueing a list of ids keeps the pending ids distinct, keeps the earlier ones in front, and leaves exactly the old and the new ids pending. |
| `Toast.ToastStore.constructor` | src/components/toast/useToast.ts:33-39 | The store starts with no toasts, no timers and no listeners. |
| `Toast.ToastStore.AddToRemoveQueue` | src/components/toast/useToast.ts:40-55 | The pending ids become `Enqueue` of the old ones, and stay distinct. |
| `Toast.ToastStore.QueueEachToast` | src/components/toast/useToast.ts:73-75 | Looping over the toasts queues their ids in turn: pending becomes `QueueAll` of the old pending and the toasts' ids, and stays distinct. |
| `Toast.ToastStore.Reducer` | src/components/toast/useToast.ts:57-84 | Returns `ReduceToasts` of the state. The pending ids become the old ones with the step's removal requests queued in order. |
| `Toast.ToastStore.Dispatch` | src/components/toast/useToast.ts:88-91 | `memoryState` becomes the reducer's output and every listener receives exactly that list. Components that are not listening keep what they had. |
| `Toast.ToastStore.FireTimeout` | src/components/toast/useToast.ts:45-51 | The oldest timer's id leaves the pending ids, then every toast with that id is removed and the listeners are notified. The views of components that are not listening are unchanged. |
| `Toast.ToastStore.Toast` | src/components/toast/useToast.ts:95-125 | The new toast is appended under the given id, and that id is then pending removal. Every listener sees the new list, and the views of components that are not listening are unchanged. |
| `Toast.ToastStore.Subscribe` | src/components/toast/useToast.ts:131-132 | A mounting component's `setState` goes last among the listeners. |
| `Toast.ToastStore.Unsubscribe` | src/components/toast/useToast.ts:135-140 | The first occurrence of the component's `setState` is removed, or nothing changes when it is not there. |
| `Toast.IndexOf` | src/components/toast/useToast.ts:136 | Gives the first position of the value, or -1 exactly when it is absent. |
| `PollingStorage.AllPollingData` | src/pages/Polling/Polling3/localUtils.ts:15-18 | Absent storage reads as the empty list; otherwise the stored list. |
| `PollingStorage.PollingIds` | src/pages/Polling/Polling3/localUtils.ts:8-13 | Returns only stored entries with `isDone` false, and every such entry. |
| `PollingStorage.PollingIdsConcat` | src/pages/Polling/Polling3/localUtils.ts:12 | The running entries of a concatenation are those of each part, in order, so stored order is kept. |
| `PollingStorage.FindIndex` | src/pages/Polling/Polling3/localUtils.ts:29 | Gives the first position with the id, or -1 exactly when no entry has it. |
| `PollingStorage.SetDoneAt` | src/pages/Polling/Polling3/localUtils.ts:31 | Only the entry at the index changes, and only its `isDone`. |
| `PollingStorage.PollingStore.constructor` | src/pages/Polling/Polling3/localUtils.ts:1 | The store holds whatever its storage item held. |
| `PollingStorage.PollingStore.GetPollingIds` | src/pages/Polling/Polling3/localUtils.ts:8-13 | Returns `PollingIds` of the stored item. |
| `PollingStorage.PollingStore.GetAllPollingData` | src/pages/Polling/Polling3/localUtils.ts:15-18 | Returns `AllPollingData` of the stored item. |
| `PollingStorage.PollingStore.AddPollingId` | src/pages/Polling/Polling3/localUtils.ts:20-25 | Appends `{id, isDone: false}` to the stored list with no de-duplication, and stores the result. |
| `PollingStorage.PollingStore.UpdatePollingId` | src/pages/Polling/Polling3/localUtils.ts:27-34 | Writes back the list with `isDone` set on the first entry with the id. |
| `PollingStorage.UpdatedFirst` | src/pages/Polling/Polling3/localUtils.ts:27-34 | The update keeps the length and every entry's id, so order is kept too. |
| `PollingStorage.UpdatedFirstSpec` | src/pages/Polling/Polling3/localUtils.ts:29-31 | The update changes only the first entry with the id; later duplicates keep their value. |
| `PollingStorage.UpdatedFirstAbsent` | src/pages/Polling/Polling3/localUtils.ts:30 | An update for an absent id leaves the list unchanged. |
| `PollingStorage.AddedIdIsPolled` | src/pages/Polling/Polling3/localUtils.ts:8-25 | After `addPollingId(id)`, `getPollingIds` returns an entry for the id. |
| `PollingStorage.DoneIdNotPolled` | src/pages/Polling/Polling3/localUtils.ts:27-34 | Marking the only entry with an id done removes the id from `getPollingIds`. |
| `PollingStorage.DoneKeepsOthersPolled` | src/pages/Polling/Polling3/localUtils.ts:8-34 | Marking an entry done keeps every other running entry, in order. |
| `Polling.Keys` | src/pages/Polling/Polling3/usePolling.ts:8 | The active ids are the map's keys in insertion order. |
| `Polling.Delete` | src/pages/Polling/Polling3/usePolling.ts:39 | `map.delete(id)` keeps exactly the entries with other ids. |
| `Polling.WithoutProgress` | src/pages/Polling/Polling3/usePolling.ts:42 | Keeps exactly the progress entries with other ids. |
| `Polling.Upsert` | src/pages/Polling/Polling3/usePolling.ts:15-18 | A stored result goes last, after the old entries without its id in their order, and no earlier entry has its id. |
| `Polling.UpsertKeepsIdsUnique` | src/pages/Polling/Polling3/usePolling.ts:15-18 | Storing a result keeps at most one progress entry per id. |
| `Polling.DeleteKeepsKeysUnique` | src/pages/Polling/Polling3/usePolling.ts:39 | Deleting an entry keeps the map's ids and timer handles unique. |
| `Polling.DeleteTimers` | src/pages/Polling/Polling3/usePolling.ts:38-39 | Deleting an entry removes exactly its timer's handle from the map's handles. |
| `Polling.PollingHook.ActivePollingIds` | src/pages/Polling/Polling3/usePolling.ts:8 | An id is among `activePollingIds` iff it is being polled. |
| `Polling.PollingHook.constructor` | src/pages/Polling/Polling3/usePolling.ts:7-9 | A mounting hook polls nothing, holds no progress and runs no timer. Its cleanup has not yet replaced the map, so the map it captured is the live one. |
| `Polling.PollingHook.Find` | src/pages/Polling/Polling3/usePolling.ts:23 | Gives the id's entry, or -1 exactly when it is not polled. |
| `Polling.PollingHook.StartPolling` | src/pages/Polling/Polling3/usePolling.ts:22-34 | An active id changes nothing. A new id gets one immediate poll and a fresh running interval under its own handle, and becomes active. Before the first cleanup the running timers stay exactly the map's; after it the captured map is untouched. |
| `Polling.PollingHook.IntervalFires` | src/pages/Polling/Polling3/usePolling.ts:32 | A running interval's callback polls the id it was set for; the map entry holding that handle names the same id. |
| `Polling.PollingHook.PollResultArrives` | src/pages/Polling/Polling3/usePolling.ts:11-20 | A result is stored (by `Upsert`) only if its id is still active; otherwise the progress is unchanged. |
| `Polling.PollingHook.StopPolling` | src/pages/Polling/Polling3/usePolling.ts:36-46 | An active id loses its timer (exactly one stops running), its map entry and all its progress entries. An inactive id changes nothing. |
| `Polling.PollingHook.Cleanup` | src/pages/Polling/Polling3/usePolling.ts:48-59 | Clears exactly the intervals of the map captured at the first render, then installs an empty map. On the first run that map is the live one, so no timer stays running; on a later run timers started since keep running. |
| `Polling.StrictModeRemount` | src/pages/Polling/Polling3/usePolling.ts:48-59 | Under React's strict-mode remount, one poll per mount and a final unmount leave the second mount's interval running with an empty map. |
| `Register.InitialFormStateIsEmptyError` | src/pages/Register.tsx:26-30 | The initial form state is an error state with every list empty. |
| `Register.Validate` | src/pages/Register.tsx:35-76 | A falsy field gets exactly one "... is required" message. A password that differs from its confirmation gets exactly one "Passwords do not match". These are all the messages, and the result is a success iff no message was collected. |
| `Register.AtMostOneMessagePerList` | src/pages/Register.tsx:46-60 | In a failed validation the form's list and each field's list hold at most one message. |
| `Register.EqualValuesNoMismatch` | src/pages/Register.tsx:58-60 | Validating a password equal to its confirmation, including both absent, gives no form error, and succeeds iff the email and the password are both truthy. |
| `LightBulb.Step` | src/pages/FileUpload/utils.ts:6-24 | TOGGLE swaps `lit` and `unlit`, BREAK always ends in `broken`, and `broken` does not move. |
| `LightBulb.Run` | src/pages/FileUpload/utils.ts:6-24 | A run from `broken` stays there, and a run containing a BREAK ends in `broken`. |
| `LightBulb.ToggleTwice` | src/pages/FileUpload/utils.ts:7-19 | Two toggles bring a working bulb back to its state. |
| `LightBulb.BrokenIsFinal` | src/pages/FileUpload/utils.ts:21-23 | No event sequence leaves `broken`. |
| `LightBulb.BrokenIffBreak` | src/pages/FileUpload/utils.ts:10-23 | A run ends broken iff it started broken or some event was BREAK. |
| `LightBulb.TogglesByParity` | src/pages/FileUpload/utils.ts:7-19 | Without BREAK, a working bulb ends in its own state after an even number of toggles, and in the other state after an odd number. |
| `LightBulb.Reachable` | src/pages/FileUpload/utils.ts:5-24 | Every state reachable from `unlit` is one the table declares or the final one. This is a fact about the three-valued type: it holds for every state. |
| `FolderTree.Ids` | src/pages/Folders/FolderPageV2.tsx:62 | The rendered ids are the rows' ids, in order. |
| `FolderTree.IdsConcat` | src/pages/Folders/FolderPageV2.tsx:57-75 | The ids of concatenated rows are each part's ids in turn. |
| `FolderTree.Toggle` | src/pages/Folders/FolderPageV2.tsx:42-48 | The toggled id is added if absent and removed if present; every other id keeps its membership. |
| `FolderTree.ToggleTwice` | src/pages/Folders/FolderPageV2.tsx:42-48 | Toggling twice restores the set. |
| `FolderTree.HasChildren` | src/pages/Folders/FolderPageV2.tsx:58 | `hasChildren` holds iff some folder names this one as its parent. |
| `FolderPageV1.RenderFrom` | src/pages/Folders/FolderPageV1.tsx:24-59 | One row at most per folder, each carrying its folder's expanded flag and `hasChildren`. |
| `FolderPageV1.RenderFromShows` | src/pages/Folders/FolderPageV1.tsx:28-34 | Every row shows a folder that is a root or has an expanded direct parent, and every such folder has a row. |
| `FolderPageV1.RenderFolders` | src/pages/Folders/FolderPageV1.tsx:24-59 | Each row shows a folder that is a root or has an expanded direct parent, with its flags, and each such folder has a row. |
| `FolderPageV1.RenderFromConcat` | src/pages/Folders/FolderPageV1.tsx:24 | Rows follow the list order: a split list renders as its parts in turn. |
| `FolderPageV1.ShownIff` | src/pages/Folders/FolderPageV1.tsx:28-34 | With unique ids, a folder is rendered iff it is a root or its direct parent is expanded, whatever the deeper ancestors. |
| `FolderPageV1.CollapsedGrandparent` | src/pages/Folders/FolderPageV1.tsx:19-22 | The documented limitation: with the root collapsed and its child expanded, the grandchild still shows. |
| `FolderPageV2.ChildFolders` | src/pages/Folders/FolderPageV2.tsx:51 | Returns only folders whose parent is `parentId`, and every such folder. |
| `FolderPageV2.CountDeeperMonotone` | src/pages/Folders/FolderPageV2.tsx:72 | Fewer folders lie deeper than a greater depth. |
| `FolderPageV2.CountDeeperDecreases` | src/pages/Folders/FolderPageV2.tsx:72 | Recursing into a child leaves strictly fewer deeper folders, so the recursion ends. |
| `FolderPageV2.RenderFolders` | src/pages/Folders/FolderPageV2.tsx:50-76 | A parent without child folders renders nothing. Every child of the parent has a row, and every row carries its folder's expanded flag and `hasChildren`. |
| `FolderPageV2.RenderEach` | src/pages/Folders/FolderPageV2.tsx:57-75 | Each child's id appears among the rows, and every row carries its folder's expanded flag and `hasChildren`. |
| `FolderPageV2.AboveAll` | src/pages/Folders/FolderPageV2.tsx:78 | The depth the root call starts from lies below every folder. |
| `FolderPageV2.Page` | src/pages/Folders/FolderPageV2.tsx:78 | Every root has a row, and every row carries its folder's expanded flag and `hasChildren`. |
| `FolderPageV2.PathTail` | src/pages/Folders/FolderPageV2.tsx:72 | An expanded chain minus its first folder is an expanded chain under that folder, which is expanded. |
| `FolderPageV2.PathCons` | src/pages/Folders/FolderPageV2.tsx:72 | An expanded child followed by an expanded chain under it is an expanded chain. |
| `FolderPageV2.RenderFoldersSound` | src/pages/Folders/FolderPageV2.tsx:50-76 | Every folder `renderFolders(p)` shows ends an expanded chain from a child of `p`. |
| `FolderPageV2.RenderEachSound` | src/pages/Folders/FolderPageV2.tsx:57-75 | Every folder a run of siblings shows ends an expanded chain starting at one of them. |
| `FolderPageV2.RenderFoldersComplete` | src/pages/Folders/FolderPageV2.tsx:50-76 | The end of every expanded chain from a child of `p` is shown by `renderFolders(p)`. |
| `FolderPageV2.RenderEachComplete` | src/pages/Folders/FolderPageV2.tsx:57-75 | The end of every expanded chain starting at one of a run of siblings is shown by the run. |
| `FolderPageV2.PageShowsExpandedChains` | src/pages/Folders/FolderPageV2.tsx:72-78 | The page shows a folder iff it ends an expanded chain from a root: it is a root, or all its ancestors are expanded. |
| `FolderPageV2.CollapsedShowsChildren` | src/pages/Folders/FolderPageV2.tsx:51-57 | With none of them expanded, a run of children renders exactly their ids, in list order. |
| `FolderPageV2.ThreeLevelsDepthOrdered` | src/pages/Folders/FolderPageV2.tsx:65 | The three-level example list has every folder deeper than its parent. |
| `FolderPageV2.CollapsedGrandparentHidesAll` | src/pages/Folders/FolderPageV2.tsx:72 | On the list where the flat page fails, collapsing the root hides the grandchild as well. |
| `CharactersCache.ExistingResults` | src/pages/ApolloClient/client.ts:38 | A missing cached value reads as an empty results list. |
| `CharactersCache.Merge` | src/pages/ApolloClient/client.ts:37-43 | `info` comes from the incoming page. Merged results are the cached ones followed by the incoming ones, so the length is the sum. |
| `CharactersCache.FirstPageStoredAsIs` | src/pages/ApolloClient/client.ts:38-42 | The first page reaching an empty entry is stored as it came. |
| `CharactersCache.Receive` | src/pages/ApolloClient/client.ts:36-43 | After any page arrives the entry exists, it never disappears, and the results cached before stay a prefix of the results cached after. |
| `CharactersCache.ReceiveAccumulates` | src/pages/ApolloClient/client.ts:34-43 | After a run of fetches the entry holds the earlier results, then every page's results in fetch order, with the last page's `info`. |
| `CharactersCache.CachedResultsArePrefix` | src/pages/ApolloClient/client.ts:42 | Cached results are never lost or reordered. |
| `CharactersCache.ReceiveConcat` | src/pages/ApolloClient/client.ts:36-43 | Fetching in two runs gives the same entry as fetching in one. |

## Left out

- Components, hooks and JSX. This covers the React rendering, the pages, the
  toast view and the Ratelimit.tsx demo page (its configuration appears only
  in `RateLimit.ChatScenario`). The folder pages are modelled as the ids and
  row properties they render, not as markup.
- Real time. `Date.now()`, `setTimeout`, `setInterval` and `delay` become
  clock values or explicit events:
  - a retry's clock readings are `Tick`s;
  - a toast removal firing is `FireTimeout`;
  - an interval firing is `IntervalFires`;
  - a fetch completing is `PollResultArrives`.
- The delays themselves are not modelled: `TOAST_REMOVE_DELAY` (5000 ms) and
  `POLLING_INTERVAL` (3000 ms). Every removal timer has the same delay, so they
  fire in the order they were set, which is the order `FireTimeout` takes
  them in. Interval firings may come in any order.
- RateLimit.RateLimitResult.Retry: the chain is taken as one step over a fixed
  cache. Hits that other tasks record during its waits are not modelled.
- RateLimit.RetryRun: a re-check's `Date.now()` is assumed never to read
  earlier than the wait planned (`Tick.late` is a natural). A timer firing
  early could re-read the denied window, which `RecheckReadsNextWindow`,
  `RetryAdmittedAfterReset` and `ChatScenario` exclude.
- RateLimit.RateLimitResult.Retry: a chain is followed only as far as its
  clock observations reach. A chain that would wait for ever, such as one on
  a permanently denied key, is reported `Pending` when they run out.
- JavaScript number semantics are not modelled. Clock values and counts are
  unbounded naturals. Floating-point division and `Math.floor` are not used;
  floor division is used instead, which agrees for the non-negative integer
  values here.
- The key's number-to-text formatting is modelled only for integers. Above
  10^21 JavaScript switches to exponent notation, which is not modelled.
- `windowMs` must be positive. The code divides by it and validates nothing.
- The Redis expiry sketched in a comment of rate-limit.ts is not implemented
  by the code and is not modelled.
- The `localStorage` text, `JSON.parse`/`JSON.stringify` and the storage key
  are replaced by the stored list itself. Malformed stored text is not
  modelled.
- Toast ids: `crypto.randomUUID` becomes an id parameter, which must be
  non-empty, as every UUID is. Toast titles and descriptions are text rather
  than React nodes.
- Toast.Merge: a patch field that is present but `undefined` is treated like
  an absent field. In the source the spread would copy `undefined` over the
  toast's value.
- The `update` and `dismiss` closures returned by `toast()` are plain
  `Dispatch` calls of UPDATE and DISMISS, so they have no members of their own.
- Progress values are reals with no arithmetic on them. The fetch
  (fetchProgress.ts) is an event.
- `FormData` file entries: a form value is absent or a text.
- src/pages/Folders/data.ts is not part of this model. The folder list is a
  parameter.
- FolderPageV2.RenderFolders: the model renders only lists in which every
  folder is deeper than every folder its `parentId` names (`DepthOrdered`).
  The page recurses only from `renderFolders(null)` into expanded folders, so
  with unique ids it ends on every list: a folder on a parent cycle has no
  chain back to a root and is never reached. It can loop only when a
  duplicated `_id` makes an expanded cycle reachable from a root. The lists
  `DepthOrdered` excludes that the page still renders are therefore (a) lists
  holding a parent cycle that no root reaches, and (b) acyclic lists whose
  `depth` fields do not grow from parent to child.
- Padding and margins derived from `depth`, and the chevron rotation, are
  styling.
- The CharactersCache `info` of a page is the value the merge copies; the
  GraphQL plumbing around the cache is not modelled.
