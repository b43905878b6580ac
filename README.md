# Lap ingestion for the Assetto Corsa lap server, in Dafny

This project models the lap-ingestion path of the apex lap server:

- `parseSessions` (utils/sessionParser.js) turns an untrusted JSON payload into
  canonical `{track, car, username, laps}` sessions;
- the `POST /api/laps` handler (server.js) writes them to the database. It
  finds or creates users, tracks and cars by name, and combos by the
  (car id, track id) pair. It then upserts every lap;
- the watched-folder state behind `POST /api/set-watch-path`, and the
  watcher's `.json` filter.

Modules:

- `Wrappers`: `Option` and `Result`.
- `JsValue`: JSON values and the JavaScript operators the parser relies on. Truthiness is written out (`undefined`, `null`, `false`, `0` and `""` are falsy). It also has `||`, `??` (fires on `undefined` and on `null`), `?.name` and `?.[0]`. `Option.None` stands for `undefined`.
- `Collect`: a generic "map each element, drop some, stop at the first throw" fold, and its lemmas.
- `SessionParser`: the parser. `ParseSessions` is the loop, with its invariant. `NormalizeList` is the specification it meets. The lemmas state what the result contains.
- `LapStore`: the tables as values. It defines find-or-create, the upsert, and a query-level run of one request. Query number `failAt` (counted over the connection's life) throws, and the throwing statement changes nothing.
- `IngestProperties`: lemmas about those runs:
  - a request fails exactly when the failing query is one it issues;
  - no row is ever removed, and there is no rollback;
  - last write wins;
  - a failure leaves exactly the writes issued before it;
  - delivering the same batch twice leaves the store unchanged.
- `Server`: the imperative side.
  - `Connection` is a class holding the tables and the query counter. Each `conn.query` is one method.
  - The handler methods `UploadSession` and `PostLaps` are proved against `SessionRun` and `HandleLaps`.
  - `WatchService` holds `watchPath`, the watcher's folder and the saved config.

External effects are parameters:

- `fs.existsSync` is the predicate `pathExists`. It holds for any existing path, a regular file as much as a folder.
- The file's parsed JSON is the `payload` argument of `OnFileAdded`.
- Which query throws is `failAt`.
- The laps table's unique key is the function `lapKey`/`key`. The schema that would fix it is not part of this model.

Points of the code's behaviour to note:

- A lap without `time` is not dropped. `time` is copied, `undefined` included (utils/sessionParser.js:23).
- Skipped sessions are only logged, never counted (utils/sessionParser.js:14).
- `??` replaces `null` as well as an absent field (utils/sessionParser.js:24-25).
- There is no retry after a duplicate-key error (server.js:45, 51, 57, 66).
- utils/parseACPacket.js decodes no binary layout. It only returns the buffer's UTF-8 text.

`parseSessions` can throw a TypeError in three cases, and the model keeps all three as `ParseError`:

- an element is `null` (`session.players` on `null`);
- `laps` is truthy but not an array (`laps.map` is not a function);
- a lap is `null` (`lap.time` on `null`).

The handler calls it outside its `try`, so the error escapes the handler (`LapsReply.Uncaught`) before any query is issued.

## Model

| member | source | states |
|---|---|---|
| SessionParser.AsList | utils/sessionParser.js:2 | an array payload is the list itself and anything else a one-element list; `SingleObjectPayload` states the consequence for the result |
| SessionParser.NormalizeLap | utils/sessionParser.js:22-26 | a lap throws exactly when it is `null`; `time` is copied even when absent; `valid` becomes 1 and `sectors` `[]` only when the field is nullish, and otherwise are copied (an explicit 0 stays 0) |
| SessionParser.NormalizeLaps | utils/sessionParser.js:22-26 | `laps.map` throws exactly when some lap is `null`; otherwise the result has one lap per input lap, in order, each normalised |
| SessionParser.NormalizeSession | utils/sessionParser.js:5-27 | one element of the loop throws, is skipped or yields one canonical session; `NormalizeSessionSpec` states which, and with what fields |
| SessionParser.NormalizeSessionSpec | utils/sessionParser.js:5-27 | one element throws exactly in the TypeError cases; it is skipped exactly when it is non-null and its track, first player's car or name is falsy; a kept one carries those three values and the normalised laps of `sessions[0].laps` (or none) |
| SessionParser.NormalizeList | utils/sessionParser.js:5-30 | the elements in order, the first throw ending the run; `NormalizedOrigins`, `NormalizedSessionsComplete`, `NormalizeListFailsIff` and `SkippedSessionIsTransparent` state what the list holds and when it throws |
| SessionParser.ParseSessions | utils/sessionParser.js:1-31 | the loop (wrap a non-array, skip with `continue`, push survivors) returns exactly the normalised list |
| SessionParser.SkippedSessionIsTransparent | utils/sessionParser.js:13-16 | an incomplete session is skipped and the sessions after it are still processed: removing it changes nothing |
| SessionParser.Survivors | utils/sessionParser.js:5-18 | the input positions of the sessions that survive, all within the input |
| SessionParser.NormalizedOrigins | utils/sessionParser.js:5-18 | the output has one session per surviving input position, in increasing input order, and at most as many as the input has; every survivor is complete and every complete session survives |
| SessionParser.NormalizedSessionsComplete | utils/sessionParser.js:8-16 | every output session has truthy track, car and username |
| SessionParser.NormalizeListFailsIff | utils/sessionParser.js:5-26 | parsing throws exactly when some element hits one of the TypeError cases |
| SessionParser.SingleObjectPayload | utils/sessionParser.js:2 | a non-array payload is treated as a one-element list: the result has one session if that object is complete and none otherwise |
| SessionParser.OnlyFirstPlayerAndSubSession | utils/sessionParser.js:6-11 | two sessions that agree on `track`, `players[0]` and `sessions[0]` normalise identically, whatever their other players and sub-sessions |
| LapStore.FindOrCreate | server.js:43-59 | a name with a row yields its id and leaves the table as it was; a new name gets exactly one new row whose id is the counter's next value, and the counter moves on by one; afterwards the name maps to the returned id |
| LapStore.FindOrCreateGrows | server.js:43-59 | find-or-create adds at most that one key, keeps every existing row and id, keeps ids unique and below the counter, and a new id is not already in use |
| LapStore.Upsert | server.js:74-83 | a new key gets the incoming row under the next id; an existing row keeps its id and its `combo_id` and takes the incoming `user_id`, `lap_time`, `valid` and `sectors` (last write wins, nothing merged); every other row is untouched |
| LapStore.UpsertGrows | server.js:74-83 | an upsert keeps every row's id and keeps the table valid |
| LapStore.UpsertAll | server.js:73-84 | the lap loop, one query per lap; `UpsertAllFaults`, `UpsertAllFailsAt` and `UpsertAllGrows` state its result with and without a failure |
| LapStore.Resolve | server.js:43-71 | the four lookups in order, the first throw ending them; `ResolveFaults`, `ResolveFaultAgrees`, `ResolveFailureKeepsEarlierLookups` and `ResolveGrows` state the result |
| LapStore.ResolveTrack | server.js:49-71 | the lookups from the track on; `ResolveTrackGrows` states what they keep |
| LapStore.ResolveCar | server.js:55-71 | the lookups from the car on; `ResolveCarGrows` states what they keep |
| LapStore.ResolveCombo | server.js:61-71 | the combo lookup; `ResolveComboGrows` states what it keeps |
| LapStore.SessionRun | server.js:41-84 | one session: the lookups, then the lap loop with the resolved ids; `SessionRunFaults`, `SessionUsesResolvedIds`, `SessionRunFailsAtLap` and `SessionRunGrows` state the result |
| LapStore.IngestRun | server.js:40-87 | the sessions in order, the first failure ending the loop; `IngestRunFaults`, `IngestRunAppend`, `IngestRunFailsInSession`, `IngestRunLaps` and `IngestRunGrows` state the result |
| LapStore.HandleLaps | server.js:35-96 | parse, then ingest; `LapsReply` states the reply and the untouched store on a parse error |
| LapStore.FindOrCreateQ | server.js:43-47 | the select-then-insert pair throws exactly when one of its one or two queries is the failing one, and otherwise does find-or-create |
| IngestProperties.UpsertAllFaults | server.js:73-84 | without a failure every lap is upserted in order, one query each; with one, the lap loop fails exactly when the failing query is one of its own and otherwise behaves as without |
| IngestProperties.ApplyUpsertsUntouched | server.js:73-84 | a key that no incoming lap has is left exactly as it was |
| IngestProperties.ApplyUpsertsLastWins | server.js:77-81 | the row under a key holds the `user_id`, `lap_time`, `valid` and `sectors` of the last incoming lap with that key |
| IngestProperties.ApplyUpsertsKeepsStored | server.js:77-81 | a row already stored keeps its id and its `combo_id` whatever is upserted after it |
| IngestProperties.ApplyUpsertsFirstCombo | server.js:74-81 | a key new to the table takes its `combo_id` from the first incoming lap with that key, and keeps it |
| IngestProperties.ApplyUpsertsAppend | server.js:73-84 | upserting two runs of laps one after the other is upserting their concatenation |
| IngestProperties.ApplyUpsertsIdempotent | server.js:74-83 | upserting the same laps again leaves the table exactly as it was |
| IngestProperties.UpsertAllFailsAt | server.js:73-84 | a failure at the `j`-th lap upsert leaves exactly the first `j` laps upserted, nothing rolled back |
| IngestProperties.ApplyUpsertsKeys | server.js:73-84 | the lap keys afterwards are the old ones plus the incoming ones; no id changes; no new key means the counter does not move; validity is kept |
| IngestProperties.ResolveGrows | server.js:43-71 | the four lookups, ending early or not, leave the laps table alone, only add rows to the other tables, and keep the store valid |
| IngestProperties.ResolveComboGrows | server.js:61-71 | the same for the combo lookup alone |
| IngestProperties.ResolveCarGrows | server.js:55-71 | the same from the car lookup on |
| IngestProperties.ResolveTrackGrows | server.js:49-71 | the same from the track lookup on |
| IngestProperties.ResolveFaults | server.js:43-71 | without a failure the user, track and car are found or created, then the combo of the resolved car id and track id |
| IngestProperties.ResolveFaultAgrees | server.js:43-71 | the lookups throw exactly when the failing query is one of theirs, and otherwise do what they do without a failure |
| IngestProperties.SessionRunFaultFree | server.js:41-84 | one session without a failure succeeds |
| IngestProperties.SessionRunFaults | server.js:41-84 | one session fails exactly when the failing query is one it issues, and otherwise does the same as without a failure |
| IngestProperties.IngestRunFaults | server.js:39-92 | a request fails exactly when the failing query is one it would issue; otherwise it does exactly what it does without a failure |
| IngestProperties.IngestRunAppend | server.js:40-87 | sessions run in order and a failure is final: the sessions after a failing one are not processed |
| IngestProperties.GrowsTransitive | server.js:39-92 | keeping every row is transitive |
| IngestProperties.UpsertAllGrows | server.js:73-84 | the lap loop, failing or not, keeps every row's id and the table valid |
| IngestProperties.SessionRunGrows | server.js:41-84 | one session, failing or not, only adds rows and keeps the store valid |
| IngestProperties.IngestRunGrows | server.js:39-92 | no deletion: whatever happens, every row present before the request stays with its id, and the store stays valid |
| IngestProperties.FailedBatchKeepsEarlierSessions | server.js:39-92 | the rows written by the sessions before a failure stay, with their ids |
| IngestProperties.ResolveFailureKeepsEarlierLookups | server.js:43-71 | a failure in the `k`-th lookup leaves exactly the earlier find-or-creates done, the store not rolled back; the four lookups own consecutive query ranges ending where the fault-free lookups end |
| IngestProperties.SessionRunFailsAtLap | server.js:41-84 | a failure at a session's `j`-th lap upsert leaves its ids resolved and exactly its first `j` laps written |
| IngestProperties.IngestRunFailsInSession | server.js:39-92 | a failure inside the `i`-th session leaves the first `i` sessions fully written plus that session's writes up to the failure, and runs nothing later (no rollback) |
| IngestProperties.SessionUsesResolvedIds | server.js:43-83 | a session finds or creates its user, track and car, then the combo of the resolved car id and track id, and upserts one row per lap, in order, with the resolved user id and combo id |
| IngestProperties.CoveredStaysCovered | server.js:43-83 | a store that already holds everything a batch would write still does after more rows are added |
| IngestProperties.SessionRunCovers | server.js:43-83 | after a session the store holds everything it writes; a session already held adds no row |
| IngestProperties.IngestRunCovers | server.js:40-87 | after a batch without failure the store holds everything each of its sessions writes |
| IngestProperties.CoveredIngestAddsNoRows | server.js:40-87 | a batch the store already holds adds no user, track, car, combo or lap row |
| IngestProperties.BatchRowsSameRefs | server.js:73-83 | the lap rows a batch writes depend only on the ids in the users, tracks, cars and combos tables |
| IngestProperties.IngestRunLaps | server.js:40-87 | without a failure, the lap table after a batch is the earlier one with the batch's rows upserted in order, carrying the ids the store ends with |
| IngestProperties.ReingestAddsNoRows | server.js:40-87 | ingesting the same batch a second time leaves the whole store exactly as the first time left it |
| IngestProperties.LapsReply | server.js:35-96 | the handler replies success exactly when parsing does not throw and no query it issues fails; when parsing throws, the store is untouched |
| Server.SetNames | server.js:43-59 | replacing one name table leaves the other tables as they were |
| Server.Connection.constructor | server.js:38 | a fresh connection over empty tables, with no query issued |
| Server.Connection.SelectName | server.js:43 | a select counts as one query, throws exactly when it is the failing one, changes nothing and returns the name's id if it has a row |
| Server.Connection.InsertName | server.js:45 | an insert counts as one query; it succeeds exactly when it is not the failing one and the name is new; the new row takes the next id; otherwise nothing changes |
| Server.Connection.SelectCombo | server.js:61-64 | the same select for a (car id, track id) pair |
| Server.Connection.InsertCombo | server.js:66-69 | the same insert for a (car id, track id) pair |
| Server.Connection.UpsertLap | server.js:74-83 | one lap upsert counts as one query and, unless it is the failing one, applies `Upsert` (a new row, or the four updated columns with `combo_id` kept); otherwise nothing changes |
| Server.FindOrCreateName | server.js:43-59 | select then insert-if-missing equals the query-level find-or-create: same result, same new state, same query count |
| Server.FindOrCreateCombo | server.js:61-71 | the same for the combo pair |
| Server.UploadSession | server.js:41-84 | the imperative loop body leaves exactly the store, counter and outcome of the session run |
| Server.UpsertLaps | server.js:73-84 | the imperative lap loop leaves exactly the laps table, counter and outcome of `UpsertAll` and changes no other table |
| Server.PostLaps | server.js:35-96 | the imperative handler leaves exactly the store and counter of the request model and gives its reply |
| Server.WatchService.constructor | server.js:100-101 | at start no watch path and no watcher |
| Server.WatchService.StartWatchingFolder | server.js:103-113 | a path where nothing exists is refused and nothing changes; otherwise the watcher now watches that path, file or folder |
| Server.Exists | server.js:160 | `fs.existsSync(folderPath)`, the guard shared with `startWatchingFolder` (server.js:104): a string naming an existing file or folder |
| Server.WatchService.SetWatchPath | server.js:157-169 | a null body throws; a missing `folderPath`, or one where nothing exists, is rejected with 400 and the watch path, watcher and saved config are unchanged; any existing path, a file's included, is always accepted, and then all three hold it |
| Server.IsJsonFile | server.js:115 | `filePath.endsWith('.json')`; `JsonFileHasSuffix` and `JsonSuffixPasses` state both directions |
| Server.JsonFileHasSuffix | server.js:115 | a path that passes the filter ends in `.json` |
| Server.JsonSuffixPasses | server.js:115 | every path ending in `.json` passes the filter |
| Server.InjectedBody | server.js:120-124 | the body the route sees: for falsy JSON no body (read as `null`); a non-empty string, an oversized body or one with prototype-poisoning keys never reaches the handler; otherwise the value itself. The handler runs exactly when the JSON is falsy, or is a non-string the body parser accepts |
| Server.FalsyFilePayloadThrows | server.js:120-124 | a file whose JSON is `null`, `false`, `0` or `""` reaches the handler without a body, so parsing throws and no query is issued |
| Server.OnFileAdded | server.js:114-135 | a non-`.json` file or an unreadable one is ignored and the store is untouched; a body refused before the handler (a JSON string, one over the body limit, one with `__proto__` or `constructor.prototype` keys) leaves the store untouched; otherwise the injected body goes through the `/api/laps` handler, with its store, counter and reply |

## Left out

- utils/parseACPacket.js and the `/api/live-telemetry` route: the function decodes no binary layout. It only returns the buffer's UTF-8 text.
- Transport and process plumbing are not modelled: Fastify routing and CORS, the UDP socket, `listen` and SIGINT handling, `pool.getConnection` and `conn.release`.
- Concurrency is not modelled; requests run one at a time. Two handlers racing on the same name are not represented.
- File I/O is not modelled. The file's parsed JSON is the `payload` argument of `Server.OnFileAdded`, and chokidar's events and `path.basename` logging are not represented.
- Server.OnFileAdded: the replies Fastify gives to a body it refuses before the handler are not told apart. These are a raw-text body from a JSON string, a body over the default 1 MiB limit (413), and a body with `__proto__` or `constructor.prototype` keys (400). Which bodies the JSON parser accepts is the parameter `parserAccepts`, not a computed size or key scan. The model says only that such a body gets `BodyRejected` and leaves the store untouched.
- `loadConfig` is not modelled. Its file I/O is left out, so `Server.WatchService.constructor` takes the saved path as an argument.
- `saveConfig` is not modelled as file I/O. `savedConfig` stands for the file's `watchPath`.
- The best-laps and lap-summary routes are not in the code (server.js:98).
- LapStore.Upsert: the laps table's unique key is a parameter, a total function of the row. The schema (db.js) that fixes it is not part of this model. So three things are not modelled. A schema with no unique key is one. SQL `NULL` never conflicts in a unique index, so a lap whose `time` is `undefined` would add a new row on every delivery; the model files it under its key like any other row, so `IngestProperties.ReingestAddsNoRows` does not hold for such laps in a schema whose key includes `lap_time`. A key that includes `combo_id` (which the update keeps) is not told apart either; validity then no longer means a row is filed under its own key, and the model does not claim it.
- Array- or object-valued names, times or flags are not modelled as query failures. The driver expands such values into lists in the `?` placeholders, so such a query can fail because of the data alone; the model takes a query to fail only at `failAt`.
- `JSON.stringify(lap.sectors)` is not modelled; the sectors value is stored as-is.
- Numbers are exact reals. NaN, `-0` and Infinity are not modelled, so `Truthy` treats every number other than 0 as truthy.
- Database collation and type coercion are not modelled. Two JSON values are the same name exactly when they are equal values. The lap columns are stored as the JSON values they arrive as: the conversion the schema applies to `lap_time` and `valid` (`true` stored as 1, a fractional time rounded into an integer column) is not represented, so the values `LapStore.Upsert` states are the ones sent, not the ones the database keeps.
- Auto-increment gaps are not modelled. A failed insert uses no id, and ids are consecutive from 1.
- Properties inherited through the JavaScript prototype chain are not modelled. `Prop` reads only an object's own fields; strings, arrays and numbers have no named fields here.
- `Server.WatchService.SetWatchPath` treats every non-string `folderPath` as a path where nothing exists. `fs.existsSync` on such values is not modelled.
- Log messages are not modelled. This covers skipped-session warnings and the upload and error messages.
