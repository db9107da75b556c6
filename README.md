# Oura twin dashboard — verified model of the data and auth core

This project models the non-UI core of `app.py`, a dashboard that connects two Oura Ring
accounts ("twin A" and "twin B") over OAuth2 and shows their daily health metrics side by side.
For each part the Dafny model gives the operation, the state it changes, and what it promises:

- **Token store.** A JSON file holds both twins' tokens under keys namespaced by `twin_a_` and
  `twin_b_`. `save_tokens` merges an update into the stored object, and `remove_twin_tokens`
  deletes one twin's prefix. The file is the class `TokenStore.TokenFile`, with a `map` field.
- **Credentials.** One optional client record, `Credentials.CredentialFile`. When loading, the
  deployment's secrets come first, then the saved file, then the empty default.
- **OAuth state.** The state is the twin's name, then `_`, then the first 16 hex characters of
  SHA-256 over `client_id + "_" + twin + "_oura_twin_study"`. Parsing accepts a state only when
  it equals the one regenerated for the twin named by its prefix. The authorization URL carries
  a fixed set of six parameters, each with a fixed or given value.
- **Token lifecycle** (`AuthFlow.Session`: the session slots of both twins):
  - the code exchange and its status split;
  - the OAuth callback;
  - token refresh, which on success stores the new tokens in the session and the file;
  - the validity check, which refreshes an expired token.
- **Rate limiter.** `RateLimit.RateLimiter` is a fixed window of 5000 requests per 300 seconds,
  kept as two session fields.
- **Fetching.** `Fetch` models the request gate, the status dispatch of a data request, the
  five daily endpoints of a twin, and the intraday heart-rate endpoint.
- **Normalisation** (`Spo2`, `Normalize`):
  - the SpO2 field-resolution chain of `extract_spo2`;
  - the union of record days, sorted into the day axis;
  - the left merges on `day`, including the row duplication a merge produces when a daily
    source has two records for one day;
  - the sleep aggregation (first non-null value per day and column) and the ×60 unit
    heuristic for breathing rate;
  - the sleep SpO2 fallback.
- **Latest metrics.** `Metrics.LatestMetrics` builds the snapshot from the table's last row.

SHA-256 is a function parameter `hexdigest: string -> string`. Clocks are explicit parameters.
HTTP replies are parameters: `TokenReply` is the token endpoint's reply and `ApiReply` a data
endpoint's, given as a status with a parsed body, or a transport failure. Days and instants are
integers. Days are assumed to be ISO dates, which sort the same way as their integer encoding.

The code and its documented intent differ in two places, and the model follows the code:

- `groupby('day').first()` takes the first non-null value of each column of a day, not the
  first record of the day (`Normalize.FirstNumber`, `Normalize.FirstSleepSpo2`).
- The sleep SpO2 fallback does not fill missing SpO2. It merges a second column that is also
  named `spo2`, which pandas splits into `spo2_x` and `spo2_y`. The snapshot then reads no
  `spo2` at all (`Normalize.FallbackSplitsSpo2`, `Metrics.FallbackHidesSpo2`).

## Model

| member | source | states |
|---|---|---|
| TokenStore.WithoutPrefix | app.py:220-222 | the result holds exactly the keys that do not start with the prefix, each with its old value |
| TokenStore.SaveKeepsOtherTwin | app.py:204-214 | merging an update that holds only one twin's keys leaves every key of the other twin present with its old value |
| TokenStore.RemoveKeepsOtherTwin | app.py:216-227 | deleting one twin's prefix leaves every key of the other twin present with its old value |
| TokenStore.TokenFile.Save | app.py:204-214 | the new key set is the old keys plus the update's keys; update keys take the update's value; all other keys keep their old value |
| TokenStore.TokenFile.RemoveTwin | app.py:216-227 | the loop that pops the collected keys leaves exactly the old map without the keys starting with `twin + "_"` |
| Credentials.CredentialFile.Save | app.py:155-166 | the saved record is the given triple, replacing any earlier one |
| Credentials.CredentialFile.Clear | app.py:190-196 | no record remains; clearing an empty file also leaves none |
| Credentials.CredentialFile.Load | app.py:168-188 | secrets win, each missing field defaulted (redirect URI `http://localhost:8501`); otherwise the saved record; otherwise the empty record |
| OAuthState.Take | app.py:707 | Python `[:n]`: length is `min(len, n)` and the result is a prefix |
| OAuthState.GenerateOAuthState | app.py:689-708 | the state starts with `twin + "_"` and continues with the first 16 characters of the digest of `client_id_twin_oura_twin_study` |
| OAuthState.StatesDiffer | app.py:689-708 | the two twins never share a state, whatever the digest |
| OAuthState.CheckState | app.py:730-734 | a twin is accepted exactly when the state equals the state regenerated for it; an accepted state carries that twin's prefix and is never the other twin's state |
| OAuthState.ParseOAuthState | app.py:710-736 | a twin is returned exactly when the state is one of the two generated states, and then it is that state's twin; empty or unprefixed states give None |
| OAuthState.StateRoundTrip | app.py:689-736 | for a fixed client id, parsing a generated state gives back its twin |
| OAuthState.ParamFound | app.py:753-760 | a found value is under its key in the parameter list; nothing is found exactly when no parameter has that key |
| OAuthState.AuthorizationParamsLookup | app.py:753-760 | each of the six parameters is found under its own key with its fixed or given value |
| OAuthState.GetAuthorizationUrl | app.py:738-762 | base URL, `response_type=code`, client id, redirect URI, the fixed scope set, `prompt=login`, and a state that parses back to the same twin |
| RateLimit.Step | app.py:936-954 | keeps the count within 0..5000; a passed or unopened window rolls to count 1 with reset `now + 300` and admits; otherwise admits iff count < 5000, counting the request; a refusal changes nothing |
| RateLimit.Run | app.py:936-954 | a run of checks answers once per check |
| RateLimit.RunInsideWindow | app.py:936-954 | inside one window, the i-th check succeeds iff `count + i < 5000`, and the reset instant is kept |
| RateLimit.FreshWindowAdmitsCapacity | app.py:936-954 | a freshly opened window admits exactly 5000 checks up to its reset instant |
| RateLimit.RateLimiter.constructor | app.py:664-665 | the session starts with count 0 and no window |
| RateLimit.RateLimiter.CheckRateLimit | app.py:936-954 | the new fields and the answer are `Step` of the old fields; the budget invariant is kept |
| AuthFlow.ExpiresIn | app.py:840 | `expires_in` when the reply has it, otherwise 86400 |
| AuthFlow.SlotFromPayload | app.py:838-841 | the session slot holds the reply's access and refresh tokens and expires `expires_in` (default 86400) seconds after `now`; what the session then holds is stated by `AuthFlow.Session.StorePayload` and `AuthFlow.Session.RefreshAccessToken` |
| AuthFlow.TokenUpdate | app.py:843-847 | exactly the twin's three keys, with the tokens (null when absent) and the expiry instant; no key outside the twin's namespace |
| AuthFlow.ExchangeCodeForToken | app.py:764-804 | a payload iff status 200; a rejected code iff 400; any other status is reported with its code; a transport failure iff the request failed |
| AuthFlow.Session.StorePayload | app.py:878-888 | the twin's slot is set from the payload and `now`; the file is merged with `TokenUpdate`; the other twin's file keys are unchanged |
| AuthFlow.Session.RefreshAccessToken | app.py:806-852 | succeeds iff the refresh token is truthy and the reply is 200; on success the slot and file hold the new tokens; otherwise nothing changes; the other twin's file keys are always kept |
| AuthFlow.Session.HandleOAuthCallback | app.py:854-908 | connects iff code and state are present, a client id is saved, the state parses, and the exchange returns 200; only a connection changes state; with code and state present, missing credentials are reported iff no client id is saved, a rejected state iff the state names neither twin, and an unsuccessful exchange iff the state parses and the exchange fails, with that twin and the exchange's reason; an `error` redirect is reported, with its error, iff code or state is missing; otherwise nothing is reported |
| AuthFlow.Session.IsTokenValid | app.py:910-930 | valid iff the token is truthy and (the expiry is absent, unparseable or not passed, or a refresh succeeds); state changes only through that refresh |
| Fetch.DataOf | app.py:1038-1039 | a truthy body gives its `data`, or `[]` when the key is missing; an empty body gives None |
| Fetch.FetchOuraData | app.py:956-1010 | without a token: None and the budget untouched; otherwise the limiter steps once; the body is returned iff the check passed and the status is 200 (401, 403, 429, any other status and a transport failure give None) |
| Fetch.FetchDaily | app.py:1036-1039 | one endpoint's fetch steps the limiter once and keeps the reply's `data` exactly when the check passed, it answered 200 and its body is not empty |
| Fetch.FetchAllTwinData | app.py:1012-1061 | without a truthy token: no data and no request; otherwise five gated fetches in endpoint order, each endpoint holding its reply's data exactly when its check passed and it answered 200 |
| Fetch.FetchIntradayHeartrate | app.py:1072-1115 | the same token and budget discipline; the samples are the reply's `data` (or `[]`) iff the check passed and the status is 200, otherwise `[]` |
| Fetch.GetIntradayDataForTwin | app.py:1117-1132 | no truthy session token gives `[]` and no request; with one, the limiter steps exactly once and the result is the reply's `data` (or `[]`) iff the check passed and the status is 200, otherwise `[]` |
| Spo2.Columns | app.py:1287 | the columns are exactly the field names of the records, each once |
| Spo2.FrameCell | app.py:1287 | a record's cell is its value, NaN for a missing field, and NaN for a null in a column that pandas stores as floats (numbers, nulls and missing fields only, with at least one number) |
| Spo2.LookupFrameRow | app.py:1300-1301 | a data-frame row has a column iff some record of the batch has that field (with `Spo2.Columns`); the value is the frame's cell for the record |
| Spo2.Lookup | app.py:1300-1301 | `key in row.index` holds iff some column has that name; `row[key]` is that column's value |
| Spo2.ScanMarked | app.py:1312-1320 | something is found iff some SpO2-marked column holds an object or a number; the first such column wins, giving an object's `average`, else its `value`, else None, or the number |
| Spo2.NamedFieldsAreMarked | app.py:1300-1314 | `spo2_percentage` and `average_blood_oxygen` are themselves matched by the marker scan |
| Spo2.ExtractSpo2 | app.py:1297-1321 | step 1: a nested `spo2_percentage` gives its `average`, a numeric (or NaN) one is returned as is; step 2: otherwise `average_blood_oxygen` is returned when it is a column; step 3: otherwise the first SpO2-marked object or number, resolved; a row with no such column gives None |
| Spo2.PrimaryColumnShadowsFallbacks | app.py:1287-1305 | in a batch where some record has `spo2_percentage`, a record lacking it gets NaN, even if it has `average_blood_oxygen` |
| Spo2.NullInNumericColumn | app.py:1287 | a null in a float column reads NaN in the record's data-frame row |
| Spo2.NullInNumericPrimaryIsNaN | app.py:1287-1306 | when `spo2_percentage` holds numbers, a record whose `spo2_percentage` is null gets NaN at step 1, even when it has `average_blood_oxygen` |
| Spo2.NoMarkedFieldNoSpo2 | app.py:1297-1321 | a batch with no SpO2-marked field gives every record None |
| Normalize.LeftJoinKeepsDays | app.py:1324 | a left merge on `day` loses no row, keeps exactly the set of days, and keeps rows ordered by day |
| Normalize.LeftJoin | app.py:1324 | `df.merge(right, on='day', how='left')`; its properties are stated by `Normalize.LeftJoinKeepsDays`, `Normalize.LeftJoinHas` and `Normalize.LeftJoinUnique` |
| Normalize.MatchesOfOnly | app.py:1324 | every right-hand value a left row is merged with comes from a right-hand record of the row's day (with `Normalize.MatchesOfHas`, the merge matches exactly that day's records) |
| Normalize.LeftJoinHas | app.py:1324 | every left row meets every right-hand value of its day in some output row, with or without repeated days |
| Normalize.Put | app.py:1377-1407 | the merged column takes the right-hand value; a number in the score, cardiovascular-age and temperature columns, as `Normalize.DailyJoinsRows` states |
| Normalize.LeftJoinUnique | app.py:1377-1381 | when the right side has no repeated day, the merge is a row-wise update with that day's value, or NaN |
| Normalize.ValueOfUnique | app.py:1324 | on a right side without repeated days, a day's value is its entry's value, or NaN when it has none |
| Normalize.FirstNumber | app.py:1351-1361 | a day's aggregate is None iff no record of that day has a number in that field |
| Normalize.FirstNumberIsFirst | app.py:1361 | the aggregate is the number of the earliest record of the day that has one |
| Normalize.MaxPresent | app.py:1364 | the maximum skips missing values; it is None iff every value is missing, bounds every present value, and is attained |
| Normalize.BreathScaledIff | app.py:1363-1365 | breath is multiplied by 60 iff some day has a value and every day's value is below 1 |
| Normalize.Scale | app.py:1364-1365 | a missing value stays missing; a present one is multiplied by 60 exactly when scaling applies |
| Normalize.SleepJoin | app.py:1350-1367 | the merge of the per-day sleep aggregate; `Normalize.SleepStagesRows` states that it sets each row's heart rate, HRV and (scaled) breath to its day's first values and keeps the rest |
| Normalize.MarkedOf | app.py:1338 | the kept columns are exactly those whose lower-cased name contains `spo2` or `oxygen` |
| Normalize.SleepSpo2Value | app.py:1344-1346 | a nested object is replaced by its `average` (None when absent); no object is left |
| Normalize.FirstSleepSpo2 | app.py:1343-1347 | a day's value is null iff all its records' converted values are null; otherwise it is one of them |
| Normalize.FirstSleepSpo2IsFirst | app.py:1347 | the value is the converted value of the earliest record of the day whose converted value is not null |
| Normalize.FillSpo2Sleep | app.py:1338-1349 | the fallback merge of the first SpO2-marked sleep column; `Normalize.SleepStagesRows` states that it sets each row's second SpO2 column to its day's first non-null value |
| Normalize.DaysOf | app.py:1276-1277 | a day is collected iff some record has it |
| Normalize.UnionDays | app.py:1270-1277 | every endpoint's record days belong to `all_dates` |
| Normalize.CollectDays | app.py:1270-1277 | the nested loops over the sources and their records collect exactly the days of the present sources |
| Normalize.CollectedDays | app.py:1274-1277 | scanning the sources in order yields the union of their days |
| Normalize.SortedDays | app.py:1282 | the axis is strictly increasing and holds exactly the collected days, each once |
| Normalize.ProcessedTable | app.py:1256-1409 | the table as the source builds it; its promises are stated by `Normalize.ProcessedDays` and `Normalize.ProcessedRows` |
| Normalize.Build | app.py:1282-1407 | the merges in source order on a day axis; `Normalize.BuildRows` states the table it gives |
| Normalize.ProcessTwinData | app.py:1256-1409 | the loops that collect days, followed by the merges, give `ProcessedTable(raw)` |
| Normalize.ProcessedDays | app.py:1266-1409 | the table is empty iff there is no token or no record; its days are exactly the record days; its rows are ordered by day, so the final sort has nothing to reorder |
| Normalize.Spo2StageRows | app.py:1285-1327 | with one SpO2 record per day (the other sources unconstrained), each axis day gets that day's SpO2 (NaN without a record, None without any SpO2 data) |
| Normalize.SleepStagesRows | app.py:1329-1371 | the sleep merges set each row's fallback column (when run), heart rate, HRV and breath to its day's values |
| Normalize.DailyJoinsRows | app.py:1373-1407 | with one record per day in the three merged sources, the score, cardiovascular-age and temperature merges update each row with its day's value |
| Normalize.BuildRows | app.py:1282-1407 | with one record per day in each daily source, the merges produce one row per axis day holding `DayFields` of that day |
| Normalize.ProcessedRows | app.py:1256-1409 | with one record per day in each daily source, the table is the sorted day axis with each day's metrics |
| Normalize.Spo2OfDayIs | app.py:1323-1324 | with one SpO2 record per day, a day's SpO2 is `extract_spo2` of its record's row, or NaN when it has no record |
| Normalize.FallbackSplitsSpo2 | app.py:1338-1349 | with no SpO2 data and an SpO2-marked sleep column, the fallback runs and the table has no `spo2` column |
| Normalize.NumericSpo2PreventsFallback | app.py:1339 | any SpO2 record whose `extract_spo2` is not null keeps the fallback from running, with or without repeated days |
| Normalize.NoFallbackOnAxis | app.py:1339 | on any axis holding that record's day, the `spo2` column has the non-null value in some row, so the fallback condition fails |
| Metrics.SafeCell | app.py:1433-1442 | null values become None; any other value is kept |
| Metrics.LatestMetrics | app.py:1411-1452 | an empty table gives an empty snapshot; otherwise `last_sync` is the last row's day; a present SpO2 is non-null and only comes from an unsplit table |
| Metrics.LastSyncIsLatestDay | app.py:1421-1451 | the snapshot of a twin with data has `last_sync` equal to the latest record day; without data the snapshot is empty |
| Metrics.LatestIsLastDay | app.py:1444-1451 | with one record per day in each daily source, the snapshot is the metrics of the latest record day |
| Metrics.FallbackHidesSpo2 | app.py:1445 | when the fallback runs, the snapshot has no SpO2 |

## Left out

- The Streamlit UI, password gate, charts, CSS, and the sidebar connect and disconnect handlers
  are not modelled. This includes the handler that calls `remove_twin_tokens` and clears the
  session slots.
- `init_session_state` (app.py:639-686) is not modelled. It loads the token file and the
  credentials into the session. The model's `Session` and `RateLimiter` constructors take that
  state as given.
- `load_tokens` is not an operation of its own. The token file's `entries` field is what it
  reads, and a missing or unreadable file is the empty map.
- File I/O errors are not modelled. Each writer catches them and ignores them.
- SHA-256, `urlencode`, HTTP transport, JSON parsing, and `datetime.now()` / ISO-8601
  formatting are parameters or integers. Where the source reads the clock twice moments apart
  (session expiry and file expiry), the model uses one instant.
- `AuthFlow.Session.HandleOAuthCallback`: a 200 reply whose JSON body is the empty object is
  falsy in the source and connects nothing. The model treats every 200 payload as a connection.
  The model also leaves out `use_mock_data`, the URL-parameter clearing, and the rerun.
- `AuthFlow.SlotFromPayload`: an explicit JSON `null` for `expires_in` makes the source raise.
  The model only has "present" or "absent", and defaults the absent case.
- `Fetch.DataOf`: a body either lacks `data` or holds a list under it; an explicit
  `"data": null` is not modelled. The source's `.get('data', [])` gives None for it, which the
  daily pipeline treats like `[]`. The intraday body has the same gap, and there the source
  would return None where the model returns `[]`.
- `Fetch.FetchOuraData`: the 429 branch shows a UI error, and otherwise returns None like the
  other failures. The model returns None without a separate signal.
- `Normalize.Build`: a daily source whose records all lack the merged field (`score`,
  `vascular_age`, `temperature_deviation`) makes the source raise `KeyError`. The model merges
  NaN instead.
- Records without a `day` are not modelled. Every record has an integer day.
- A missing column and a null column read the same in the snapshot and in the model.
- `Normalize.FirstNumber`: a nested object or other non-number in a numeric sleep field counts
  as absent; pandas' `first()` would return it. Booleans are not modelled.
- Records hold no JSON strings: a scalar is null or a number. A string in
  `average_blood_oxygen` (returned as is by step 2 of `extract_spo2`) or in a marked SpO2 column
  (skipped by step 3) is outside the model, as are the string fields `id`, `type` and
  `bedtime_start`, which the core never reads.
- `Normalize.Put`: an object or other non-number in `score`, `vascular_age` or
  `temperature_deviation` becomes None in the table; the source keeps it and `safe_get` returns
  it. The snapshot's metric fields are numbers or None.
- `Spo2.FrameCell`: a column that holds only nulls and missing fields is taken to keep its nulls
  (an object column). Null-to-NaN conversion is modelled only for the SpO2 frame; in the sleep
  and daily frames a null and NaN are read alike, so it changes nothing there.
- `Metrics.LatestMetrics`: the source's empty-table snapshot has no `skin_temp` key, and its
  full snapshot has one. The model's snapshot always has the field, None for an empty table.
- `Normalize.ProcessTwinData`: the closing `sort_values('day')` is modelled as the identity.
  `Normalize.ProcessedDays` proves the rows are already ordered by day. Pandas' default sort is
  not stable, though, so rows that share a day (duplicated by a merge) may come back in another
  order. The model keeps the merge order.
- `Normalize.ProcessedRows`, `Normalize.BuildRows`, `Metrics.LatestIsLastDay`: the exact
  day-by-day description assumes at most one record per day in the four daily sources. The
  duplicating case is covered by `Normalize.LeftJoinKeepsDays`, `Normalize.LeftJoinHas`,
  `Normalize.ProcessedDays` and `Normalize.NumericSpo2PreventsFallback`.
- The `[DEBUG]` prints and UI messages are not modelled.
