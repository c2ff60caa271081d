# Offline clock-event pipeline, modelled in Dafny

The time tracker lets employees clock in and out at terminals that may be
offline. The pipeline has five parts, and this project models each one:

- **Local event queue** (`LocalQueue`, module in `local_queue.dfy`). It models
  `OfflineStorage`: one list of pending clock events under the storage key
  `offline_clock_entries`. It is a class over the content of that key.
- **Clock capture** (`ClockCapture`, `clock_capture.dfy`). It models the
  time-clock screen's handlers:
  - clock-in inserts directly when online and queues the event when offline;
  - clock-out first looks up the open entry, and has an offline fallback;
  - the replay POSTs the whole queue and clears it on an OK reply;
  - the `online` listener triggers that replay.
- **Reconciliation** (`Reconcile`, `reconcile.dfy`). It models the
  `offline-sync` edge function. Each event in a batch is:
  1. validated;
  2. resolved from its human codes to canonical ids;
  3. checked for a duplicate `(employee id, clock_in)`;
  4. inserted with `synced_at`;
  5. audited.

  The store is a `Database` class. Its handler is proved against a pure batch
  walk `Process`, and the listed properties are proved about `Process`.
- **Service worker** (`ServiceWorker`, `service_worker.dfy`). It models:
  - the `install` and `activate` cache-generation rules, over a class holding
    the named caches;
  - the `fetch` handler as a pure decision table plus the `cache.put` it
    triggers;
  - the background-sync drain.
- **Superseded skew-flag sync** (`SkewSync`, `skew_sync.dfy`). This older
  handler inserts every event with `source = 'offline'`. It sets `flagged`
  when the server clock and `clock_in` differ by more than two minutes.

Shared records are in `types.dfy`. They are `OfflineClockEntry`, `ClockEntry`,
`Employee` and `Terminal`, plus the JavaScript truthiness of optional strings
(`x || null`).

## Inputs and modelling choices

- **The outside world is an input.** This covers the database's answers
  beyond its tables, the network and the clock:
  - `Reconcile.Env` holds, for each batch position: the server time, whether
    each lookup fails, the insert's error, and whether the audit insert fails.
  - `ClockCapture.Env` holds `isOnline()`, the insert and update errors, and
    the open-entry query's answer.
  - `ServiceWorker.Network` is what `fetch` yields.
  - `SkewSync` takes the server clock per iteration, the parsing of `clock_in`
    (integer milliseconds, or none for an invalid date) and the insert errors.
- **Missing fields.** A required string field missing from a JSON body is
  the empty string. The handlers treat `undefined` and `""` alike.
- **Row ids** are natural numbers handed out by a counter. They stand for the
  database's UUIDs.
- **Cache keys.** A cache maps request URLs to responses. `caches.match`
  searches the caches in creation order.

### Behaviour the model keeps as the code has it

- **Duplicates count as failures.** A duplicate is reported as
  `success: false` with "Duplicate entry detected"
  (supabase/functions/offline-sync/index.ts:95-101), so it is counted in
  `failed` (:157-158). `Reconcile.ResubmittedEventCountsAsFailed` shows this
  for a one-event batch sent twice: the second response has `failed = 1`.
- **The duplicate check uses `.maybeSingle()` and ignores its error**
  (:88-95). An event counts as a duplicate only when exactly one committed
  row matches.
  - If the duplicate query errors, the event is inserted.
  - If two or more rows already match, `.maybeSingle()` errors, and the event
    is inserted again.

  `Reconcile.Resubmission` is therefore stated under the hypotheses that keys
  are unique and the duplicate query does not fail.
- **The replay clears the whole queue on any OK reply**
  (src/components/ClockPad.tsx:199-207). Every entry is cleared once the
  reply is OK and its body parses, whatever the per-event results were. A
  rejected event is therefore dropped from the queue.
- **The offline clock-out fallback needs a successful query**
  (src/components/ClockPad.tsx:141-169). A failing query throws before the
  connection state is looked at.
- **Skew flagging is only in the superseded handler.** The current handler
  (supabase/functions/offline-sync/index.ts) has no skew flag; only the one
  under supabase/migrations/functions/offlineSync/ sets `flagged`.

## Model

| member | source | states |
|---|---|---|
| Types.OrNull | supabase/functions/offline-sync/index.ts:111-112 | `x \|\| null` keeps a value exactly when it is truthy (present and non-empty) |
| Types.NonEmpty | src/components/ClockPad.tsx:119-121 | `s \|\| null` is absent exactly for the empty string and otherwise the string itself |
| LocalQueue.OfflineStorage.GetEntries | src/lib/utils.ts:6-16 | outside a browser, with nothing stored, or with unparsable data the list is empty; otherwise it is the stored list |
| LocalQueue.OfflineStorage.GetCount | src/lib/utils.ts:40-42 | the count always equals the length of the list, and is zero exactly for the empty list |
| LocalQueue.OfflineStorage.AddEntry | src/lib/utils.ts:18-28 | a successful write stores the old list with the entry appended and raises the count by one; a failed write, or no browser, leaves the stored data exactly as it was |
| LocalQueue.OfflineStorage.ClearEntries | src/lib/utils.ts:30-38 | the key is removed, after which the list is empty and the count is zero |
| Reconcile.MatchCountZero | supabase/functions/offline-sync/index.ts:88-93 | the duplicate query's match count is zero exactly when no committed row has the (employee id, clock_in) key |
| Reconcile.MatchCountAppend | supabase/functions/offline-sync/index.ts:88-93 | inserting a row raises the match count of its own key by one and leaves every other key's count unchanged |
| Reconcile.Step | supabase/functions/offline-sync/index.ts:40-146 | the result echoes the event; it succeeds exactly when both required fields are present, the employee (and a given terminal) resolve, the duplicate query does not find exactly one row, and the insert is not refused; a duplicate fails with "Duplicate entry detected" and a refused insert with the insert's own message; a failure has an error and no id and changes no table; a success has no error and carries the new row's id. It inserts exactly one row with the resolved ids, `clock_out`/`notes` or null, and `synced_at` set, and at most one audit record (none if the audit insert fails) whose `record_id` is that row's id and which carries the event's `offline_timestamp`; the directories never change |
| Reconcile.Process | supabase/functions/offline-sync/index.ts:37-155 | one result per event, in input order; the directories are unchanged; old rows and audit records stay a prefix; the rows grow by exactly the number of successes, the audit log by at most that number |
| Reconcile.CountsPartition | supabase/functions/offline-sync/index.ts:157-158 | `synced + failed` equals the number of results; all succeed exactly when `synced` is the length, all fail exactly when `failed` is |
| Reconcile.ResultAt | supabase/functions/offline-sync/index.ts:39-155 | the j-th result is the one-event step applied to the tables that the first j events left behind |
| Reconcile.BatchRejections | supabase/functions/offline-sync/index.ts:42-85 | an event missing `employee_id` or `clock_in`, with an unknown employee, or with a given but unknown terminal fails with the matching message |
| Reconcile.BatchOutcomes | supabase/functions/offline-sync/index.ts:39-145 | in a batch, each event succeeds exactly when it is accepted against the tables the earlier events left, and a duplicate or a refused insert fails with its own message |
| Reconcile.NoSuccessNoChange | supabase/functions/offline-sync/index.ts:39-125 | a batch in which no event succeeds leaves every table unchanged |
| Reconcile.StepPreservesWellformed | supabase/functions/offline-sync/index.ts:105-145 | one event keeps row ids distinct and below the counter, and keeps every audit record pointing at, and copying, a committed row |
| Reconcile.ProcessPreservesWellformed | supabase/functions/offline-sync/index.ts:39-155 | a whole batch keeps the tables well formed |
| Reconcile.StepKeepsUniqueKeys | supabase/functions/offline-sync/index.ts:88-116 | with a duplicate query that does not fail, one event never creates a second row with an existing (employee id, clock_in) key |
| Reconcile.StepKeepsCommitted | supabase/functions/offline-sync/index.ts:88-116 | a key committed exactly once stays committed exactly once after another event |
| Reconcile.StepCommitsSuccess | supabase/functions/offline-sync/index.ts:105-116 | a successful event's key is committed exactly once afterwards |
| Reconcile.StepRejectsCommitted | supabase/functions/offline-sync/index.ts:88-102 | an event whose key is already committed is rejected |
| Reconcile.ProcessKeepsUniqueKeys | supabase/functions/offline-sync/index.ts:39-155 | when no duplicate query fails, a batch never makes a second row for a key: keys unique before stay unique after |
| Reconcile.ProcessKeepsCommitted | supabase/functions/offline-sync/index.ts:39-155 | a batch keeps keys unique and keeps every key committed before it committed |
| Reconcile.SuccessesAreCommitted | supabase/functions/offline-sync/index.ts:105-145 | every event of a batch that succeeded is committed exactly once afterwards |
| Reconcile.CommittedAreRejected | supabase/functions/offline-sync/index.ts:88-102 | every event whose key was committed before the batch fails |
| Reconcile.SuccessesBound | supabase/functions/offline-sync/index.ts:157-158 | if no position succeeds in both of two equally long result lists, the successes of one are at most the failures of the other |
| Reconcile.Resubmission | supabase/functions/offline-sync/index.ts:88-102 | resubmitting a batch: no event that succeeded succeeds again, at most as many rows are added as failed the first time, and a fully successful batch changes nothing the second time |
| Reconcile.Database.Ingest | supabase/functions/offline-sync/index.ts:40-146 | the imperative per-event body, with its early exits, leaves the tables and returns the result as the one-event step says |
| Reconcile.Database.IngestAll | supabase/functions/offline-sync/index.ts:37-155 | the `for` loop leaves the tables and the result list exactly as the batch walk over the events, in order, says |
| Reconcile.Database.Serve | supabase/functions/offline-sync/index.ts:18-176 | the status is 405 exactly for non-POST, 500 exactly for an unparsable body and 400 exactly for a non-array `entries`, none of which touch a table, and 200 exactly for a POST with an `entries` list; then the tables after the loop and the response `{synced, failed, results}` are those of the batch walk, and well-formed tables stay well formed |
| Reconcile.ResubmittedEventCountsAsFailed | supabase/functions/offline-sync/index.ts:95-101 | for one event of employee E1, the first batch commits one row with `synced = 1, failed = 0`; the same batch again commits nothing, gives `synced = 0, failed = 1` and "Duplicate entry detected" |
| ServiceWorker.ContainsAt | public/sw.js:76-77 | `includes` holds exactly when the part occurs at some position |
| ServiceWorker.Decide | public/sw.js:43-93 | only same-origin GET requests are intercepted; a cache hit is answered from the cache without the network; otherwise the network is used and its response returned; the response is stored exactly when it is 200, `basic`, and the URL contains `/api/` or `/_next/static/`; on network failure a navigation gets the cached `/` (or nothing) and anything else a 503 "Offline" |
| ServiceWorker.Lookup | public/sw.js:55-58 | `caches.match` finds nothing exactly when no existing cache holds the URL, and otherwise answers from the first cache, in creation order, that holds it |
| ServiceWorker.LookupAfterPut | public/sw.js:78 | a URL that no cache held is found, with the stored response, once it is put into one of the caches |
| ServiceWorker.HitIsOk | public/sw.js:55-60 | when every cached response is 2xx, a cache hit never serves a failure status |
| ServiceWorker.AddAll | public/sw.js:18 | `addAll` succeeds exactly when every fetch resolves with a 2xx status; then its keys are exactly the fetched URLs and each value is that URL's response |
| ServiceWorker.AddAllSize | public/sw.js:18 | distinct paths give as many cached URLs as there are paths |
| ServiceWorker.InstallCachesStaticAssets | public/sw.js:5-21 | a successful install caches exactly the four static assets |
| ServiceWorker.Remove | public/sw.js:33 | deleting a cache name removes exactly that name and keeps the names distinct |
| ServiceWorker.RemoveMissing | public/sw.js:33 | deleting a name that is not in the list leaves the list as it was |
| ServiceWorker.RemoveAt | public/sw.js:33 | deleting a name held once cuts it out where it stands and keeps the other names in their creation order |
| ServiceWorker.CacheStorage.Open | public/sw.js:15 | `caches.open` creates the named cache empty when missing and otherwise changes nothing |
| ServiceWorker.CacheStorage.Delete | public/sw.js:33 | `caches.delete` removes exactly that cache and its name |
| ServiceWorker.CacheStorage.OpenAndAddAll | public/sw.js:15-18 | the cache exists afterwards, its name appended to the creation order only if it was new; it gains all fetched responses when `addAll` succeeds and nothing otherwise |
| ServiceWorker.CacheStorage.Install | public/sw.js:13-22 | `time-tracker-v1` exists afterwards (its name appended to the creation order only if it was new) and gains the four static assets exactly when every one was fetched with a 2xx status; cached responses stay 2xx |
| ServiceWorker.CacheStorage.Activate | public/sw.js:25-40 | every cache other than `time-tracker-v1` is deleted and that one is kept untouched |
| ServiceWorker.CacheStorage.HandleFetch | public/sw.js:43-93 | the reply and the network use are the decision table's over the caches as they were; the caches change only by opening `time-tracker-v1` and by the put the decision calls for, and the creation order gains `time-tracker-v1` only when the decision opens it and it was missing |
| ServiceWorker.StoredThenServed | public/sw.js:55-82 | once a response is stored, the next same request is answered with it without using the network |
| ServiceWorker.OnSync | public/sw.js:96-136 | only the tag `sync-clock-entries` acts; an empty queue posts nothing; the whole queue is posted and is cleared, with clients notified of its length, exactly when the reply is OK |
| SkewSync.FlaggedIsMoreThanTwoMinutes | supabase/migrations/functions/offlineSync/index.ts:17-18 | the integer flag equals the source's `abs(diff) / 60000 > 2` |
| SkewSync.FlagBoundary | supabase/migrations/functions/offlineSync/index.ts:17-18 | exactly two minutes early or late is not flagged, one millisecond more is; an invalid date is never flagged |
| SkewSync.Inserted | supabase/migrations/functions/offlineSync/index.ts:13-25 | no more rows than events are committed, and every row has `source = 'offline'` |
| SkewSync.Survivors | supabase/migrations/functions/offlineSync/index.ts:19-24 | the positions whose insert did not fail: all of them, nothing else, in increasing order |
| SkewSync.InsertedAt | supabase/migrations/functions/offlineSync/index.ts:13-25 | there are as many committed rows as events whose insert did not fail, and the k-th committed row is the row of the k-th such event |
| SkewSync.InsertedIsFilter | supabase/migrations/functions/offlineSync/index.ts:13-25 | the committed rows are exactly the rows of the events whose insert did not fail, in event order |
| SkewSync.LaterEventsStillCommitted | supabase/migrations/functions/offlineSync/index.ts:19-24 | an event whose insert succeeds is committed whatever failed before it: an error does not stop later events |
| SkewSync.InsertedComeFromEntries | supabase/migrations/functions/offlineSync/index.ts:19-23 | every committed row is some event's fields plus its skew flag, from an event whose insert did not fail |
| SkewSync.AllInserted | supabase/migrations/functions/offlineSync/index.ts:13-25 | with no insert failing, every event is committed in order with no validation, resolution or duplicate check |
| SkewSync.ClockEntriesTable.Serve | supabase/migrations/functions/offlineSync/index.ts:9-27 | one result per event, in order, each carrying that insert's error; an error does not stop later events; the table gains exactly the committed rows |
| ClockCapture.Find | src/components/ClockPad.tsx:86 | `find` returns nothing exactly when no element has the id, and otherwise the first element that has it |
| ClockCapture.Decide | src/components/ClockPad.tsx:75-110 | no selection and an unknown employee are told apart; a recorded action has a known employee; no action both writes and queues; queuing happens only offline |
| ClockCapture.NothingRecordedWithoutEmployee | src/components/ClockPad.tsx:76-91 | with no employee selected, or one not in the list, the action neither writes nor queues and ends with an error message |
| ClockCapture.OnlineClockIn | src/components/ClockPad.tsx:113-125 | online clock-in inserts the canonical employee id, the terminal or null and the notes or null, and queues nothing; a refused insert is a failure |
| ClockCapture.OfflineClockIn | src/components/ClockPad.tsx:126-135 | offline clock-in queues one event with the human employee and terminal codes and `clock_in = offline_timestamp =` the timestamp, and writes nothing |
| ClockCapture.ClockOutOfOpenEntry | src/components/ClockPad.tsx:171-181 | with an open entry, clock-out updates that entry's `clock_out` and queues nothing; a refused update is a failure |
| ClockCapture.ClockOutWithoutOpenEntry | src/components/ClockPad.tsx:152-169 | with no open entry, clock-out records nothing and reports an error online; offline it queues one event with `clock_in = clock_out =` the timestamp |
| ClockCapture.QueryErrorFails | src/components/ClockPad.tsx:141-150 | a failing open-entry query makes clock-out fail, online or not |
| ClockCapture.PlanSync | src/components/ClockPad.tsx:186-210 | the queue is posted exactly when non-empty, and cleared exactly when it was posted and the reply is OK with a JSON body |
| ClockCapture.ClockPad.HandleClockAction | src/components/ClockPad.tsx:75-110 | message, loading flag, form reset, the returned database write and the queue afterwards are as the decision says: no selection leaves `loading` alone, every other path ends with `loading` false, only a completed action resets the form, and only an offline action appends to the queue |
| ClockCapture.ClockPad.Finish | src/components/ClockPad.tsx:99-108 | after a handler returns normally: its message is shown, the form is empty, `loading` is false, and the queue grows by the built event exactly when there is one, a window exists and the write succeeds, otherwise it is untouched |
| ClockCapture.ClockPad.SyncOfflineEntries | src/components/ClockPad.tsx:186-211 | an empty queue posts nothing; otherwise the whole queue is posted; an OK reply with a JSON body clears all of it and reports the synced count; anything else leaves queue and message unchanged |
| ClockCapture.ClockPad.HandleOnline | src/components/ClockPad.tsx:28-33 | the `online` listener posts nothing and changes nothing for an empty queue; otherwise it replays the whole queue, which is cleared with the "Synced … offline entries" message exactly on an OK reply with a JSON body, and otherwise left with the message as it was |

## Left out

- I/O and transport are not modelled: Supabase/PostgREST query semantics,
  JSON parsing and serialisation, HTTP headers, and `localStorage` internals.
  They are replaced by the inputs listed above.
- Concurrency is not modelled: the model runs one call at a time. The code
  has no in-flight guard on the replay, and its duplicate check is a
  check-then-insert (supabase/functions/offline-sync/index.ts:88-116). The
  code does not rely on a unique constraint in the store: any insert error,
  a constraint violation included, is passed through as the event's message
  (index.ts:118-123), which `Env.insertError` covers. Whether two concurrent
  batches can both commit the same key therefore depends on the
  `clock_entries` schema, which is not part of this model.
- Reconcile.MatchCount: the duplicate key compares `clock_in` as text. The
  database compares the `clock_in` column (index.ts:92), where two spellings
  of the same instant are one key; that is not modelled.
- Reconcile.Env: the per-event `try/catch` (supabase/functions/offline-sync/index.ts:147-154)
  is not a separate path. A thrown error there is covered only as a
  lookup that fails or an insert that reports an error.
- Reconcile.Database.Serve: `.single()` on a directory holding two rows with
  the same human code errors, which reads as "not found". A directory here is
  a map, so it cannot hold such duplicates.
- LocalQueue.OfflineStorage.GetEntries: stored JSON that parses but is not a
  list is not modelled. A failure of `removeItem` in `clearEntries` is not
  modelled either; the key is always removed.
- ClockCapture.ClockPad.HandleClockAction: `isOnline()` (a browser window
  exists and the navigator is online) is the input `Env.online`; it is not
  tied to the queue's own `hasWindow` constant.
- ClockCapture.ClockPad.SyncOfflineEntries: the reply body is not parsed.
  `${result.synced}` is given as the text it renders to, since nothing types
  that field.
- The employee and terminal list loading (`fetchEmployees`, `fetchTerminals`),
  the clock display and all rendering on the time-clock screen are not
  modelled. They are presentation.
- ServiceWorker.CacheStorage.HandleFetch: `cache.put` is not awaited in the
  source, but here it completes before the handler returns. Responses are
  values, so `clone` is not needed.
- `skipWaiting` and `clients.claim` in `install`/`activate` are not modelled.
  They are browser lifecycle calls with no cache effect.
- The push and `notificationclick` handlers in public/sw.js are not modelled;
  they are outside the pipeline.
- ServiceWorker.OnSync: the stubs `getOfflineEntries`/`clearOfflineEntries`
  are replaced by an abstract queue that is passed in and returned. In the
  source the stub always yields an empty list.
- SkewSync.Inserted: the request body is assumed to carry an `entries` list.
  A missing or non-list body throws in the source (no `try/catch`), and that
  is not modelled. Dates are integer milliseconds, not floating point.
- The relay src/app/api/sync/route.ts is not part of this model. It answers
  400 for a non-array body and 500 when the upstream reply is not OK.
- Not part of this model, because they are floating point, locale formatting
  or foreign library calls:
  - the geofence distance;
  - PIN hashing;
  - `formatDateTime` and the other date formatters (the timestamp is an
    input);
  - `calculateHours`.
- The alert processors are not part of this model. There are two; they make
  remote procedure calls and send notifications, with no decision logic.
