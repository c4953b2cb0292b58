# Pitcher roster job — a Dafny model

This project models the roster job in `lambda_function.py`. The job builds a CSV table of every
MLB pitcher currently on a depth chart. It works in four steps:

1. Fetch each of the 30 teams' depth charts, retrying timed-out requests with exponential
   backoff.
2. Collect every relief and starting pitcher as an (id, display name) pair in a set.
3. Fetch each pitcher's detail record. Its 16 values go into an insertion-ordered dictionary
   of lists, normalised on the way:
   - seasons played from the experience text;
   - height in inches from `F' I"`;
   - weight in pounds from `W lbs`.
4. Upload the 16-column header plus one row per dictionary key.

The modules follow the program's structure:

- `Results` holds `Option` and `Outcome`. `Outcome` is `Returned(v)` or `Raised`, for a Python exception that escapes.
- `Text` models the Python string built-ins the normalisers use:
  - `str.split()` with no arguments, as a character-level state machine;
  - `int()` on ASCII digit strings;
  - `str.replace` of one character.
- `Normalise` models `convert_season`, `convert_height` and `convert_weight`. `convert_season` is a method with a loop, proved against the function `SeasonsPlayed`.
- `Fetch` models the `fetch_url` retry loop:
  - The network is a function from the attempt number to that request's outcome.
  - Sleeps are recorded in half-seconds.
  - `FetchUrl` is proved against the reference function `Fetched`.
- `DepthChart` models `players_from_depth_chart`:
  - `PitcherSet` is the mutable default set, which outlives a single call.
  - The method's nested loops are proved against the reference function `ScanTeams`.
- `PlayerData` models `get_player_data`:
  - It builds the 16 cells in header order.
  - `PlayerInfo` is the `defaultdict(list)`. It has an ordered key list and a map of rows.
- `Handler` models `lambda_handler` as written (`LambdaHandler`) and as corrected (`LambdaHandlerById`). See "Findings". The handler's `for` loop over the scanned pairs is the method `FetchEachPair`; its corrected counterpart, one fetch per distinct id, is `FetchEachId`.

The depth-chart set holds (id, display name) pairs, so it deduplicates by pair, not by id
(lambda_function.py:77). Each pair then triggers one detail fetch whose 16 values go into the
same `player_info[id]` list, which is written under a 16-column header
(lambda_function.py:120-121, 124-146). "Findings" below works this out.

## Model

| member | source | states |
|---|---|---|
| Text.ParseInt | lambda_function.py:42 | definition of `int()` on text; properties in `ParseIntSucceeds`, `ParseDecimal` |
| Text.Split | lambda_function.py:46 | definition of `str.split()` as a scan over characters; properties in `SplitTokens`, `SplitToken`, `SplitSkipsSpace`, `SplitEmpty`, `SplitUnsplit` |
| Text.DecimalValue | lambda_function.py:42 | the digits written for `n` denote `n` |
| Text.ParseDecimal | lambda_function.py:42 | `int()` of the decimal text of `n` gives `n` back |
| Text.ParseIntSucceeds | lambda_function.py:42 | `int(s)` succeeds exactly when `s` is a non-empty run of digits |
| Text.SplitTokens | lambda_function.py:46 | every token of `split()` is non-empty and contains no whitespace |
| Text.SplitToken | lambda_function.py:46 | a whitespace-free word followed by a whitespace break (or end of input) is the first token, and splitting continues on the rest |
| Text.SplitSkipsSpace | lambda_function.py:46 | leading whitespace contributes no token |
| Text.SplitEmpty | lambda_function.py:54 | `split()` gives no tokens exactly when the text is empty or all whitespace |
| Text.SplitUnsplit | lambda_function.py:46 | joining non-empty, whitespace-free words with single spaces and splitting again gives back the words |
| Text.RemoveAll | lambda_function.py:47-48 | removing a character leaves no occurrence of it |
| Text.RemoveAbsent | lambda_function.py:47-48 | removing a character that does not occur changes nothing |
| Text.RemoveAppend | lambda_function.py:47-48 | removal distributes over concatenation |
| Text.ReplaceAll | lambda_function.py:104 | the replacement keeps the length and changes exactly the positions holding the old character |
| Normalise.SeasonsPlayed | lambda_function.py:32-42 | definition of `convert_season`'s result; properties in `SeasonsPlayedSucceeds`, `SeasonsPlayedValue`, `SeasonsPlayedRoundTrip`, `SeasonsPlayedExamples`; the loop is `ConvertSeason` |
| Normalise.HeightInches | lambda_function.py:45-50 | definition of `convert_height`; properties in `HeightInchesRoundTrip`, `HeightInchesDivMod`, `HeightInchesNeedsTwoTokens`, `HeightInchesExamples` |
| Normalise.WeightPounds | lambda_function.py:53-54 | definition of `convert_weight`; properties in `WeightPoundsFirstToken`, `WeightPoundsRoundTrip`, `WeightPoundsBlank`, `WeightPoundsExamples` |
| Normalise.LeadingDigits | lambda_function.py:36-41 | the result is the longest prefix of the text made of digits |
| Normalise.ConvertSeason | lambda_function.py:32-42 | the loop's result equals `SeasonsPlayed`: 1 for "Rookie", otherwise the value of the leading digits, and a failure when there are none |
| Normalise.LeadingDigitsOf | lambda_function.py:37-41 | the digit prefix stops exactly at the first non-digit |
| Normalise.SeasonsPlayedSucceeds | lambda_function.py:33-42 | for text other than "Rookie", the conversion succeeds exactly when the text starts with a digit (so "" and "rookie" raise) |
| Normalise.SeasonsPlayedValue | lambda_function.py:36-42 | the result is the value of the leading digit run; everything from the first non-digit on is ignored |
| Normalise.SeasonsPlayedRoundTrip | lambda_function.py:36-42 | a number written in decimal, followed by any text not starting with a digit, converts back to that number |
| Normalise.SeasonsPlayedExamples | lambda_function.py:32-42 | "Rookie" gives 1, "5th season" 5, "10" 10; "" and "rookie" raise |
| Normalise.DigitsHaveNoMarks | lambda_function.py:47-48 | digit text holds no whitespace, `'` or `"` |
| Normalise.StripMark | lambda_function.py:47-48 | removing the unit mark from digits followed by that mark leaves the digits |
| Normalise.DisplayHeightTokens | lambda_function.py:46 | `F' I"` followed by nothing, or by text that starts with whitespace, splits into `F'`, `I"` and that text's tokens |
| Normalise.HeightInchesRoundTrip | lambda_function.py:45-50 | the height `F' I"`, followed by nothing or by text that starts with whitespace, converts to `F*12 + I` (a suffix joined to the inches token becomes part of it: a letter makes `int()` raise, a digit changes the inches) |
| Normalise.HeightInchesDivMod | lambda_function.py:49 | for inches below 12, dividing the result by 12 gives the feet and the remainder gives the inches |
| Normalise.HeightInchesNeedsTwoTokens | lambda_function.py:46-48 | the height conversion raises when the text has fewer than two tokens |
| Normalise.HeightInchesExamples | lambda_function.py:45-50 | `5' 11"` gives 71 and `6' 2"` gives 74; `5'11"` raises because it is one token |
| Normalise.WeightPoundsFirstToken | lambda_function.py:54 | the weight is `int()` of the first token; later tokens are ignored |
| Normalise.WeightPoundsRoundTrip | lambda_function.py:54 | a number followed by a space-led unit converts back to that number |
| Normalise.WeightPoundsBlank | lambda_function.py:54 | empty or all-whitespace text raises |
| Normalise.WeightPoundsExamples | lambda_function.py:53-54 | "210 lbs" gives 210; "" and "210lbs" raise |
| Fetch.Backoff | lambda_function.py:28 | definition of the delay `backoff_factor * 2 ** attempt`, in half-seconds; the schedule it gives is stated in `BackoffsDouble` and `BackoffSchedule` |
| Fetch.AttemptsFrom | lambda_function.py:17-29 | reference definition of the retry loop from attempt k on; properties in `TimeoutsThen`, `FetchReturnsFirstResponse`, `FetchStopsOnError`, `FetchGivesUp`, `FetchBounds` |
| Fetch.Fetched | lambda_function.py:16-29 | reference definition of one `fetch_url` call; the loop `FetchUrl` is proved equal to it |
| Fetch.Backoffs | lambda_function.py:28 | there is one delay per timed-out attempt so far |
| Fetch.FetchUrl | lambda_function.py:16-29 | the loop returns the response, request count and sleep trace that the reference `Fetched` defines |
| Fetch.BackoffsDouble | lambda_function.py:28 | the first delay is one half-second and each later delay doubles the one before |
| Fetch.BackoffSchedule | lambda_function.py:10-12 | with 3 attempts and factor 0.5 s, the delays are 0.5, 1 and 2 s |
| Fetch.TimeoutsThen | lambda_function.py:22-28 | timeouts from attempt k to j only add their delays, so the outcome is decided at the first attempt that does not time out |
| Fetch.FetchReturnsFirstResponse | lambda_function.py:17-21 | the first response is returned whatever its status, after k+1 requests and k doubling sleeps |
| Fetch.FetchStopsOnError | lambda_function.py:24-26 | a non-timeout error ends the loop with no response and no further sleep |
| Fetch.FetchGivesUp | lambda_function.py:17-29 | three timeouts give no response after 3 requests and sleeps of 1, 2 and 4 half-seconds, including a sleep after the last attempt |
| Fetch.FetchBounds | lambda_function.py:10-29 | between 1 and 3 requests; the sleeps are a prefix of [1, 2, 4]; with a response there is one sleep fewer than requests |
| Fetch.TwoTimeoutsThenResponse | lambda_function.py:17-28 | two timeouts and then a response: that response, 3 requests, sleeps [1, 2] |
| DepthChart.ScanTeams | lambda_function.py:65-80 | reference definition of the team-by-team scan; properties in `ScanKeeps`, `ScanCompleted`, `ScanAborted`, `ScanIgnoresLaterTeams`, `DedupIsOnPairs` |
| DepthChart.Listed | lambda_function.py:75-77 | definition of the pairs one team response lists: its `rp` athletes and its `p` athletes together; used by `ScanTeams`, `ScanCompleted`, `ScanAborted` |
| DepthChart.CallResult | lambda_function.py:68-80 | definition of the call's result: the set when all teams answer 200, None at a non-200 team, and a raise when `fetch_url` gave nothing |
| DepthChart.AddAll | lambda_function.py:76-77 | the inner loop leaves the set holding its old pairs plus every listed pair |
| DepthChart.PitcherSet.constructor | lambda_function.py:58 | the default set starts empty |
| DepthChart.PlayersFromDepthChart | lambda_function.py:58-80 | the team loop (its inner loop is `AddAll`) leaves the shared set and returns what the team-by-team scan `ScanTeams` defines |
| DepthChart.ScanKeeps | lambda_function.py:77 | pairs are only added, never removed |
| DepthChart.ScanCompleted | lambda_function.py:65-80 | when every team answers 200, the result is exactly the initial pairs plus every pair listed under `rp` or `p` for some team |
| DepthChart.ScanAborted | lambda_function.py:65-77 | at the first non-200 team the scan gives None, and the set holds the initial pairs plus those of the earlier teams only |
| DepthChart.ScanIgnoresLaterTeams | lambda_function.py:65-73 | nothing after the first non-200 team affects the scan, because later teams are never fetched |
| DepthChart.DedupIsOnPairs | lambda_function.py:75-77 | a pair listed twice is kept once, but one id under two names is kept twice |
| PlayerData.TextOf | lambda_function.py:102-106 | definition of a string method's receiver: only a string field has `split`/`replace`/iteration, any other value raises; used by `NatCell`, `DateCell` |
| PlayerData.IntOf | lambda_function.py:91 | definition of `int()` on a JSON value: integers stay, booleans give 0 or 1, strings go through `ParseInt`, null raises |
| PlayerData.IsTrue | lambda_function.py:101 | definition of `== True`, which also holds of the integer 1 |
| PlayerData.NatCell | lambda_function.py:102-106 | definition of a normalised cell: the field must be a string and its normaliser must succeed |
| PlayerData.DateCell | lambda_function.py:104 | definition of the birth-date cell: a string with `/` replaced by `-` |
| PlayerData.Row | lambda_function.py:91-106 | definition of what one call appends: the cells computed before the first that raises; properties in `Appended`, `RowComplete`, `RowColumns` |
| PlayerData.Builds | lambda_function.py:91-106 | definition of "no cell raises": the three `int()` calls and the three normalisers succeed and the date field is a string; `RowComplete` proves it equivalent to a full 16-value row |
| PlayerData.Get | lambda_function.py:91 | definition of the `defaultdict` read: a missing key reads as the empty list; used by `AfterFetch` |
| PlayerData.Ok200 | lambda_function.py:88 | definition of the `status_code == 200` test on the response `fetch_url` returned |
| PlayerData.AfterFetch | lambda_function.py:83-110 | definition of `get_player_data`'s effect on the lists of `player_info`; `GetPlayerData` is proved to leave exactly this state, and `PerPairStep`/`PerIdStep` build on it |
| PlayerData.Cells | lambda_function.py:91-106 | there is one cell per header column, in append order; properties in `RowComplete`, `RowColumns` |
| PlayerData.DetailResult | lambda_function.py:83-110 | definition of the call's result: None on a non-200 status, the record when every cell is computed, and a raise otherwise; `GetPlayerData` is proved to return it |
| PlayerData.Appended | lambda_function.py:91-106 | the appended values are the cells computed before the first one that raises, in order |
| PlayerData.RowComplete | lambda_function.py:91-106 | a record appends 16 values (as many as the header has columns) exactly when every conversion succeeds |
| PlayerData.RowColumns | lambda_function.py:91-141 | the k-th appended value is the field the k-th header column names: `is_all_star` is 1 exactly when the flag is true, heights, weights and seasons are converted, and the birth date has `/` replaced by `-` |
| PlayerData.PlayerInfo.constructor | lambda_function.py:119 | the dictionary starts with no keys |
| PlayerData.PlayerInfo.Touch | lambda_function.py:91 | reading a missing key inserts it, last in order, with an empty list; an existing key changes nothing |
| PlayerData.PlayerInfo.Extend | lambda_function.py:91-106 | appending extends one key's list and leaves the key order and all other keys unchanged |
| PlayerData.GetPlayerData | lambda_function.py:83-110 | a 200 appends the record's values to that player's list, and the key is created if new; a non-200 changes nothing and returns None; a missing response or a failing cell raises |
| Handler.HeaderRow | lambda_function.py:124-145 | definition of the header row (the 16 `Header` names); used by `PerPairUpload`, `PerIdUpload` |
| Handler.RowsInOrder | lambda_function.py:123 | definition of `player_info.values()` in key order; used by `PerPairUploadOf`, `PerIdUploadOf` |
| Handler.Repeat | lambda_function.py:120-121 | a record appended n times has n times its length |
| Handler.IdCountAdd | lambda_function.py:120 | scanning one more pair adds one to its id's count and nothing to the other ids' counts |
| Handler.PerPairStep | lambda_function.py:120-121 | after each fetch, every id's list is its record repeated once per visited pair with that id |
| Handler.Fails | lambda_function.py:85-106 | definition of when a detail fetch raises: no response, or a 200 whose record has a failing cell; `FailsIsRaised` ties it to `DetailResult` |
| Handler.FailsIsRaised | lambda_function.py:85-106 | a detail fetch raises exactly when there is no response or a 200 record has a cell that raises |
| Handler.FetchEachPair | lambda_function.py:119-121 | the `for` loop over a fresh `player_info` raises exactly when some scanned pair's fetch raises; otherwise each fetched id's list is its record repeated once per pair carrying the id, and the keys stay repeat-free and match the dictionary |
| Handler.PerPairUploadOf | lambda_function.py:123-146 | the uploaded table is the header, then, in insertion order, each fetched id's record repeated once per scanned pair carrying the id |
| Handler.LambdaHandler | lambda_function.py:113-154 | the shared set ends as the scan leaves it. A scan that does not complete raises. Otherwise the handler raises exactly when some scanned pair's fetch raises, and else uploads the per-pair table |
| Handler.FetchEachId | lambda_function.py:119-121 | the corrected loop, one fetch per distinct id, raises exactly when some id's fetch raises; otherwise each fetched id holds its record once |
| Handler.PerIdUploadOf | lambda_function.py:123-146 | with one fetch per distinct id, the table is the header and then each fetched id's record once, every row 16 wide |
| Handler.LambdaHandlerById | lambda_function.py:113-154 | the corrected handler has the same scan and raising behaviour, and each key's row is one 16-value record |
| Handler.TwoNamesScan | lambda_function.py:60-77 | when "ari" lists one id under two names and every other team is empty, the scan completes with both pairs |
| Handler.SharedIdCount | lambda_function.py:120 | two distinct pairs with one id give that id two fetches |
| Handler.DistinctCard | lambda_function.py:119 | a key list without repeats has as many keys as its key set |
| Handler.SingleKey | lambda_function.py:119 | the only repeat-free key list holding exactly one given key is that key alone |
| Handler.SharedIdOnlyKey | lambda_function.py:120-121 | when every fetch succeeds, the only dictionary key is the shared id |
| Handler.PerPairTwoNames | lambda_function.py:120-146 | under the as-written contract, the shared id's row is its record twice |
| Handler.PerIdTwoNames | lambda_function.py:120-146 | under the corrected contract, the shared id's row is its record once |
| Handler.DuplicateIdAsWritten | lambda_function.py:118-146 | as written: one id listed under two names uploads a 32-value row under the 16-column header |
| Handler.DuplicateIdCorrected | lambda_function.py:118-146 | corrected: the same charts upload one 16-value row for the id |
| Handler.SampleBuilds | lambda_function.py:91-106 | a record whose every conversion succeeds exists (height `6' 2"`, weight "210 lbs", experience "Rookie") |

## Left out

- HTTP and JSON decoding (`requests.get`, `response.json()`) are not modelled.
  - Each depth-chart or detail request is a caller-supplied function from team or id to what `fetch_url` returned.
  - The retry loop itself is modelled separately, in `Fetch`, over an abstract network.
  - The handler's inputs are taken to be deterministic. The same id gives the same response each time it is fetched.
- S3 (`boto3.put_object`) and CSV quoting and escaping (`csv.writer`) are not modelled. The upload is the bucket, the key and the table of rows.
- The handler's returned status dictionary is not modelled.
- `print` diagnostics are not modelled.
- `time.sleep` and the float `backoff_factor` are not modelled as real time. Delays are integer half-seconds.
- Python `int()` on text accepts only non-empty ASCII digit strings here. Signs, surrounding whitespace, underscores and non-ASCII digits are not modelled.
- `str.isdigit` and `str.split` use ASCII only. Unicode digits and whitespace are not modelled.
- JSON values are null, booleans, integers and strings. Floats, lists and objects as field values are not modelled.
- An `athlete`, `position` or `team` object that is itself missing is not modelled. Its fields are flattened into one record.
- Iteration order over the pitcher set is not modelled. The handler picks an arbitrary remaining pair at each step, so every statement holds for any order.
- Concurrent invocations of the handler are not modelled. Warm invocations that share the default set are modelled only one after another, through `PitcherSet`.
- PlayerData.GetPlayerData: the up to 16 `append` calls are one `Extend` by the computed prefix of values. This gives the same final list.
- A depth-chart payload with a missing key is not modelled. A 200 payload without `depthchart[0]`, without the `rp` or `p` group, or with an athlete lacking `id` or `displayName` raises `KeyError` or `IndexError` in the source (lambda_function.py:75, 77). `ChartResponse` always carries both groups of complete pairs, so the scan never takes that exception path.
- The companion job `fetch_and_write_historical_events/lambda_function.py` is not part of this model. It is a date loop over HTTP and S3 with no logic of its own.

## Findings

| source | as written | input that shows it | evidently intended | confidence | as-written member | corrected member |
|---|---|---|---|---|---|---|
| lambda_function.py:77-121 | The scan keeps (id, display name) pairs, and the handler calls `get_player_data` once per pair. Each call appends the 16 values to the same `player_info[id]` list. | Team "ari" lists id 7 as "Ann Arm" under `rp` and as "A. Arm" under `p`, every other team answers 200 with empty lists, and id 7's detail record converts cleanly. The CSV row for id 7 then has 32 values under 16 header columns. | Each player id gets one 16-value row: fetch once per distinct id. | not executed | Handler.DuplicateIdAsWritten | Handler.DuplicateIdCorrected |
