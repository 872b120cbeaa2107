# UREC capacity tracker: the area-capacity store, modelled in Dafny

The UREC capacity tracker counts how many people are inside each area of a
recreation centre. iPads send "enter" and "exit" events. A Lambda function
or a FastAPI backend applies each event to a DynamoDB table that holds one
METADATA item per area under the key `("AREA#" + area_id, "METADATA")`. A
seeding script merges the configured areas into that table.

This project models that store and the code around it:

- `store.dfy`: the table as a map from keys to schema-less items. The
  table handle `Table` is a class whose `items` every writer updates in
  place. The module also holds the clamped counter (`Clamp`, `Replay`)
  that both update paths share: `Database.UpdatesReplay` and
  `CapacityUpdater.LambdaRunReplay` prove that a run of updates through
  either path leaves the clamped replay of its increments.
- `database.dfy`: the backend's `DynamoDBManager`. It is a class over an
  optional table handle and covers read, update, reset and create.
- `capacity_updater.dfy`: the Lambda. It covers body validation, the
  ±count update with its `update_count` counter, and response shaping.
- `init_database.dfy`: `INITIAL_AREAS`, the seeding loop with its two
  counters, and `verify_setup`.
- `models.py`'s Pydantic models live in `models.dfy`: their field
  constraints, defaults and the action validator.
- `api.dfy`: the FastAPI handlers of main.py. They turn the manager's
  replies into HTTP status codes and bodies, and they hold the mock data.

The rules below apply throughout the model.

- Timestamps are opaque strings that the caller supplies.
- A Python `None` from the manager is `Reply.NotFound`, and an exception
  is `Reply.Raised`.
- An `update_item` on a key with no item writes nothing and returns no
  attributes. `database.py` then returns None, as its documentation says.
  The Lambda's `response['Attributes']` raises, which its handler answers
  with 500.

Where the code and its documentation disagree, the model follows the code:

- The FastAPI update endpoint ignores the request's `count`, so it always
  moves the count by one.
- Any action other than "enter" decrements in both update functions.
- Reset echoes the requested count, not the clamped one that is stored.
- The Lambda's clamp write leaves `last_updated` from the first write.
- `verify_setup` counts METADATA items and does not check which areas
  they are. Its listing reads `name`, `current_count` and `max_capacity`
  of every such item, so one item without them makes it raise
  `KeyError`, and seeding does not add a missing count.
- The Lambda lower-cases `action` before it checks `area_id`, so a
  non-string action is answered 500 even when `area_id` is missing.
- Python booleans are integers, so a JSON `true` passes the Lambda's
  count check as 1. An exit with it then subtracts 1, because `-True` is
  the integer -1. An entry sends `True` itself to DynamoDB as a boolean,
  which the update's `+` rejects, so that update raises and the handler
  answers 500 without a write.
- main.py registers a handler for status 404 that replaces the detail of
  every 404 the endpoints raise with "Resource not found", so that is the
  body the model gives a 404.

## Model

| member | source | states |
|---|---|---|
| Common.LowerChar | capacity_updater.py:68 | ASCII upper-case letters map to their lower-case letter; every other character is unchanged |
| Common.Lower | models.py:159-161 | `str.lower()` keeps the length and lower-cases each character in place |
| Store.AreaKey | database.py:155-156 | the key of an area is PK `"AREA#" + area_id` and SK `"METADATA"`; the id is recoverable from PK |
| Store.AreaKeyInjective | database.py:155-156 | two areas share a key exactly when they share an id, so no area's writes reach another's item |
| Store.NewAreaItem | database.py:350-360 | a new area item has count 0, `last_updated == created_at`, the given name, capacity and open flag, and no `update_count` |
| Store.StoredCount | database.py:220 | a missing `current_count` reads as 0 (`if_not_exists(current_count, :zero)`) |
| Store.WithCount | database.py:286 | `SET current_count, last_updated` sets those two attributes and leaves every other attribute unchanged |
| Store.MetadataKeys | database.py:105-107 | the scan visits exactly the stored keys whose SK is METADATA |
| Store.Table.constructor | capacity_updater.py:30 | the table handle starts with the given items |
| Store.Clamp | database.py:288 | `max(0, n)` is at least `n` and is either `n` or 0 |
| Store.LowWater | database.py:237-241 | the lowest running total of a sequence of updates is never above 0 |
| Store.ReplayIsLiftedSum | database.py:237-241 | after any sequence of clamped updates, the count equals the start plus the sum of the deltas, lifted by how far the running total dipped below zero |
| Store.ReplayWithoutDip | database.py:237-241 | a clamped count is never below the unclamped sum, and equals it when the running total never dips below zero |
| Store.EnterThenExitRestores | database.py:237-241 | on the clamped counter, a delta of +n followed by -n restores the count |
| Models.NewAreaCapacity | models.py:13-64 | an `AreaCapacity` exists iff `current_count >= 0` and `max_capacity > 0`; the fields are kept as given; `is_open` defaults to True and `last_updated` to now |
| Models.CountAboveCapacityAccepted | models.py:58-64 | a count above `max_capacity` is accepted unchanged |
| Models.ValidateAction | models.py:156-161 | an action is accepted iff its lower-cased form is enter or exit, and the lower-cased form is returned |
| Models.ParseUpdateCapacityRequest | models.py:123-161 | a request is valid iff `area_id` and `action` are present, the action validates and the count (default 1) lies in [1, 10]; the validated request holds exactly those values |
| Models.RequestValidationExamples | test_api.py:170-241 | counts 20 and 0 and the action "invalid" are rejected; "enter" is accepted with count 1; "ENTER" and "Exit" are normalised |
| Models.NewLambdaEvent | models.py:241-252 | `LambdaEvent` defaults `count` to 1 and `source` to "ipad" and keeps the other fields as given |
| Models.CountRangeOnlyOnUpdateRequest | models.py:143-149 | a count outside [1, 10] is rejected by `UpdateCapacityRequest` but kept by `LambdaEvent`; both default to 1 |
| Database.ItemToArea | database.py:244-251 | an item converts iff `area_id`, `name`, `current_count` and `max_capacity` are present and satisfy the model constraints; the fields carry over; `is_open` defaults to True and `last_updated` to now |
| Database.Converted | database.py:244-251 | a conversion that fails raises, and one that succeeds yields the converted area; it is never None |
| Database.Increment | database.py:214 | +1 exactly for "enter", and -1 for any other action string |
| Database.AfterUpdate | database.py:217-241 | the stored item after an update has count `max(0, old + increment)` and a new `last_updated` (the clamp write's stamp when it fired), and every other attribute is unchanged |
| Database.UpdateReturned | database.py:237-251 | the returned record carries the clamped count and the first write's `last_updated` |
| Database.Increments | database.py:214 | one increment per action, in order |
| Database.DynamoDBManager.constructor | database.py:32 | the manager holds the given table handle, or none |
| Database.DynamoDBManager.VerifyConnection | database.py:71-87 | the connection is reported healthy iff there is a table and its status can be read; a failure is False, never raised |
| Database.DynamoDBManager.GetAllAreas | database.py:98-127 | [] without a table; otherwise every METADATA item that converts appears exactly once, no other item appears, and items that fail to convert are skipped |
| Database.DynamoDBManager.GetArea | database.py:147-177 | None without a table or without an item under the key; raises iff the item does not convert; otherwise returns the item's fields, with `is_open` defaulting to True |
| Database.DynamoDBManager.UpdateCapacity | database.py:204-258 | missing table or area: None and no change; otherwise the area's item becomes `AfterUpdate` and no other item changes; the returned and stored counts agree and are never negative; non-negative counts stay non-negative |
| Database.DynamoDBManager.SetCapacity | database.py:274-315 | missing table or area: None and no change; otherwise `current_count` becomes `max(0, count)` stamped now, no other attribute or item changes, and the reply carries that count |
| Database.DynamoDBManager.CreateArea | database.py:339-379 | raises without a table; otherwise puts a fresh item with count 0 under the area's key, replacing any item there; returns the area iff `max_capacity > 0` and raises after the write otherwise |
| Database.CreateThenGet | database.py:350-372 | a created area reads back with count 0, the requested name, capacity and open flag, and `last_updated == created_at` |
| Database.ResetThenGet | database.py:286-308 | a reset to a non-negative n reads back as exactly n on any item with an id, a name and a positive capacity, whatever count it held before, none included |
| Database.UpdatesReplay | database.py:214-241 | the count after a run of manager updates is the clamped replay of their ±1 increments |
| CapacityUpdater.CountOf | capacity_updater.py:80 | `isinstance(count, int)` accepts integers and booleans (as 1 and 0) and nothing else |
| CapacityUpdater.ParseBody | capacity_updater.py:67-81 | a non-string action gives 500 with Python's "'<type>' object has no attribute 'lower'"; otherwise the body is valid iff `area_id` is present and non-empty, the lower-cased action (default enter) is enter or exit, and the count (default 1) is an integer in [1, 10]; each rejection is 400 with the message of the first check that fails (missing `area_id`, then the action, then the count) |
| CapacityUpdater.SignedIncrement | capacity_updater.py:132-154 | the increment is +count for "enter" and -count otherwise; it cannot be applied (the update raises) exactly when the count is not an int or a boolean (a float included), or is a boolean on "enter" |
| CapacityUpdater.AfterLambdaUpdate | capacity_updater.py:126-170 | after a Lambda update the count is `max(0, old + increment)`, `last_updated` is the first write's stamp, `update_count` goes up by 1, and every other attribute is unchanged |
| CapacityUpdater.ErrorResponse | capacity_updater.py:177-199 | an error response carries the given status code and message |
| CapacityUpdater.Updater.constructor | capacity_updater.py:30 | the module-level table handle is the given table |
| CapacityUpdater.Updater.UpdateCapacity | capacity_updater.py:111-174 | a missing area or an increment DynamoDB cannot add raises and nothing changes; otherwise only that area's item changes, to `AfterLambdaUpdate`, and the returned item is the stored one with a non-negative count |
| CapacityUpdater.DumpNumber | capacity_updater.py:95-103 | `json.dumps` writes out an int and raises "Object of type Decimal is not JSON serializable" on a `Decimal` |
| CapacityUpdater.SuccessResponse | capacity_updater.py:87-108 | the success response is 200 with the echoed fields and `new_count` iff `new_count` serializes; otherwise the `TypeError` is answered 500 |
| CapacityUpdater.StoredCountBreaksResponse | capacity_updater.py:100-108 | the same stored count answers 500 when passed as the `Decimal` boto3 returns and 200 when passed as an int |
| CapacityUpdater.Updater.LambdaHandlerAsWritten | capacity_updater.py:33-108 | as written: an invalid body is answered with its error and no write; no answer is ever 200; a valid event whose update succeeds makes its write and is answered 500 with the `Decimal` `TypeError`; one whose update raises (missing area, boolean count on an entry) is answered 500 with no write; non-negative counts stay non-negative |
| CapacityUpdater.Updater.LambdaHandler | capacity_updater.py:33-108 | as intended, with `new_count` converted to an int: an invalid body is answered with its error and no write; 200 iff the body is valid, the area exists and the count is not a boolean on an entry; every other valid body gets 500 and no write; on 200 the response echoes area, action and count, and its `new_count` is the stored count after clamping |
| CapacityUpdater.Updater.GetCurrentCapacity | capacity_updater.py:202-224 | the stored item under the area's key, or the empty record when there is none |
| CapacityUpdater.LambdaRunReplay | capacity_updater.py:132-167 | the count after a run of Lambda updates is the clamped replay of their signed increments |
| CapacityUpdater.LambdaEnterThenExitRestores | capacity_updater.py:132-167 | a Lambda entry of n people followed by an exit of n restores the count |
| CapacityUpdater.UpdateCountCountsUpdates | capacity_updater.py:142-151 | after n Lambda updates `update_count` has gone up by exactly n, whatever the increments and clamps |
| CapacityUpdater.ParseBodyExamples | capacity_updater.py:44-81 | a missing `area_id`, the action "jump" and the count 11 are rejected; a body holding only the area is an entry of one person; "EXIT" is an exit; a count of `true` is accepted as 1 |
| InitDatabase.InitialAreasWellFormed | init_database.py:31-72 | the eight configured areas have distinct ids and positive capacities |
| InitDatabase.ConfigKeys | init_database.py:158-161 | the configured areas' keys are all METADATA keys |
| InitDatabase.Refreshed | init_database.py:171-179 | refreshing an existing area overwrites `max_capacity` and `name` only |
| InitDatabase.SeedAreas | init_database.py:145-203 | the table after seeding is the in-order merge of the configured areas; `created` counts the create branches; `created + updated` is the number of configured areas |
| InitDatabase.LastKeyIsNew | init_database.py:31-72 | with distinct ids, no earlier configured area has the last area's key |
| InitDatabase.SeedAllKeys | init_database.py:158-199 | seeding adds exactly the configured keys to the table |
| InitDatabase.SeedAllAt | init_database.py:158-199 | after seeding, each configured key holds its create-or-refresh entry, and every other item is untouched |
| InitDatabase.SeedKeepsCounts | init_database.py:163-199 | an existing area keeps its count, open flag and `last_updated`; an absent one is created with count 0, open, and `last_updated == created_at`; non-negative counts stay non-negative |
| InitDatabase.SeedIdempotent | init_database.py:163-199 | seeding twice leaves the table exactly as seeding once, so the counts and the set of keys are unchanged |
| InitDatabase.CreatedCountIsAbsent | init_database.py:155-203 | `created_count` is the number of configured areas absent beforehand and `updated_count` the number present |
| InitDatabase.ConfigKeysCount | init_database.py:31-72 | distinct ids give one key per configured area |
| InitDatabase.VerifySetup | init_database.py:206-232 | raises iff a scanned METADATA item lacks `name`, `current_count` or `max_capacity`; otherwise succeeds iff the scan finds at least as many METADATA items as configured areas, and in particular whenever every configured area is present |
| InitDatabase.ConfiguredAreasPass | init_database.py:216-229 | a table holding every configured area passes the count check |
| InitDatabase.SeedKeepsListable | init_database.py:163-199 | seeding keeps every METADATA item listable (name, count and capacity present) when all were before |
| InitDatabase.SeedThenVerify | init_database.py:145-232 | `verify_setup` succeeds after seeding a table whose METADATA items all carry a name, a count and a capacity |
| InitDatabase.SeedKeepsMissingCount | init_database.py:171-179 | seeding only refreshes name and capacity, so an existing item without a count still makes `verify_setup` raise |
| Api.HttpError | main.py:373-379 | a raised HTTP error answers with its status and detail, except that every 404 carries "Resource not found" |
| Api.HealthCheck | main.py:99-122 | "healthy" iff the manager reports the table reachable, "degraded" otherwise; "unhealthy" is never returned because the check never raises |
| Api.MockCapacityData | main.py:310-369 | six open areas, each a valid `AreaCapacity` with a count below its capacity |
| Api.MockAreasAreConfigured | main.py:320-369 | every mock area has a configured id, name and capacity; the racquetball courts and the group fitness studio have no mock entry |
| Api.GetAllCapacity | main.py:125-153 | always 200 with a non-empty list: the scan result when any area converts, the mock data otherwise |
| Api.GetAreaCapacity | main.py:163-201 | 404 with "Resource not found" iff the manager finds no item; 200 iff the item converts, with the converted item; 500 otherwise |
| Api.UpdateCapacity | main.py:204-262 | 400 iff the action is not exactly enter or exit, with no write; otherwise 404 iff there is no item, and a 404 writes nothing; 200 iff the item after the update converts, 500 otherwise; on success only that area's item changes, by ±1 whatever the request's count, and `new_count` is the stored, non-negative count |
| Api.ResetAreaCapacity | main.py:265-307 | 404 iff there is no item, and a 404 writes nothing; 200 iff the reset item converts, 500 otherwise; in both cases the store holds `max(0, count)` (count defaults to 0) and a 200 response echoes the requested count, which is negative while the stored count is 0 when the request was negative |

## Left out

- boto3 sessions, credentials and table creation (`create_dynamodb_table`, `wait_until_exists`) are calls into AWS that the model does not see. `verify_connection` reads the table status as a boolean parameter.
- AWS errors (`ClientError` and failed scans, gets or puts) are not modelled. The scan error of `get_all_areas` and the 500 answers to it in main.py are therefore absent. The `ClientError` fallback in `seed_areas` is absent as well.
- DynamoDB semantics beyond what the code states are not modelled: upsert of a missing key by `update_item`, scan pagination, and the atomicity of an update expression.
- Concurrency is not modelled, including the window between an increment and its corrective clamp write. Every operation runs to completion before the next one starts.
- `datetime.utcnow()` and ISO formatting: every clock read is a caller-supplied timestamp. One request's reads share `now`, except the clamp write of `DynamoDBManager.UpdateCapacity`, which gets its own.
- Logging, CORS, FastAPI routing and dependency injection, the root endpoint, the startup and shutdown hooks, the custom 500 handler (it only sees exceptions the endpoints let escape, and they let none escape) and uvicorn are not modelled; the 404 handler is modelled by `Api.HttpError`. Pydantic's 422 answer is modelled only as a `Result.Err`.
- The Lambda's JSON decoding of a string body, its fallback to the event itself, `json.dumps` of anything but `new_count`, its headers and `warmup_handler` are left out. The handler receives the decoded body fields.
- The console output of `init_database.py` (the seeding messages and the text of the listing in `verify_setup`, whose `KeyError` is modelled) and its `main()` are left out.
- Common.Lower: lower-cases ASCII letters only; Python's Unicode case mapping is not modelled.
- CapacityUpdater.Updater.LambdaHandler: models the handler as intended, with `new_count` converted to an int. As written, `json.dumps` raises on the `Decimal` count, so every valid event is answered 500 after its write; `CapacityUpdater.Updater.LambdaHandlerAsWritten` models that (see Findings).
- CapacityUpdater.ParseBody: a non-string `area_id` is outside the model (the body's `area_id` is a string or absent). JSON values are told apart only by their Python type; the contents of floats, lists and objects are not modelled.
- Models.ParseUpdateCapacityRequest: the request fields arrive already typed. Pydantic's coercion of JSON values is not modelled, for example `"3"` or `true` accepted as an integer count.
- Models.NewLambdaEvent: an explicit `null` source is not distinguished from an absent one.
- The `DynamoDBItem` schema model is represented by the schema-less `Store.Item`, whose attributes are all optional.
- `CapacityResponse` is the body `Api.ApiBody.Capacity`. Its timestamp is the caller's `now`.
- Status thresholds such as "busy" or "full" are not computed by any of the modelled files.

## Findings

| source | as written | input that shows it | evidently intended | confidence | as-written member | corrected member |
|---|---|---|---|---|---|---|
| capacity_updater.py:84-108 | the success body puts `result['current_count']`, a `decimal.Decimal` from the boto3 Table resource, into `json.dumps`, which raises `TypeError`; the `except` answers 500 after the update was written | body `{"area_id": "pool"}` on a stored pool item with count 3: the item becomes 4 and the answer is 500 "Internal server error: Object of type Decimal is not JSON serializable" | 200 with `new_count` 4, the count converted to an int | high; not executed | CapacityUpdater.Updater.LambdaHandlerAsWritten, CapacityUpdater.StoredCountBreaksResponse | CapacityUpdater.Updater.LambdaHandler |
