# evlens core, modelled in Dafny

evlens collects data about electric-vehicle charging stations from two
sources: the NREL Alternative Fuel Data Center API and scraped PlugShare
pages. This project models the parts of it that compute, decide and buffer.
The browser, the HTTP client, BigQuery and the Ray runtime are left out.

- **Parallel dispatch** (`concurrency.dfy`, module `Concurrency`).
  `parallelized_data_processing` resolves `n_jobs` against the CPU count.
  It then sends `run_args[i]` to actor `i` and collects the results in
  argument order. A worker error is re-raised, and then `ray.shutdown()`
  is not reached.
- **NREL URL builders** (`nrel_api.dfy`, module `NrelApi`).
  - The list-to-component helper, and the all-stations and near-route
    query URLs.
  - The switch to a POST body when the GET URL is longer than 2048
    characters.
  - The `limit` handling of both query methods.
  - URLs are related to a reference query-string codec
    (`EncodeQuery`/`DecodeQuery`). When no value contains '&' (no key
    contains '&' or '='), each URL is proved to read back as exactly its
    parameters, in order.
- **PlugShare text helpers** (`plugshare_text.dfy`, module `PlugshareText`).
  - `_get_power_number` and the check-in count regex. Each is proved to
    find the leftmost match the regular expression would.
  - The `zfill(6)` of integer location ids.
  - The last path segment of a location link.
- **Check-in parsing** (`plugshare_checkin.dfy`, module `PlugshareCheckIn`).
  - `CheckIn.parse`: the loops over the "details" children and over the
    "additional" children.
  - The error path through `save_error_screenshot`, which raises on every
    call that reaches it.
  - The fill of the eight expected columns.
  - The `dropna(how='all')` single-row frame.
- **Scraper buffering** (`plugshare_scrapers.dfy`, module `PlugshareScrapers`).
  - `MainMapScraper.run` and `LocationIDScraper.run` are classes. Each
    holds an append-only log of BigQuery inserts. Their `Run` methods are
    proved against specification functions (`MainMapRun`, `LocationIdRun`).
  - The lemmas show that no row is lost or reordered across checkpoints.
  - Every location id found ends up inserted, and each insert holds no id
    twice.
  - The model keeps the code's behaviour of raising when a buffer is empty
    at a checkpoint or at the end. For example, `run` raises when the last
    location triggers a checkpoint (`MainMapRaisesAfterLastCheckpoint`).

Python's `None` and `NaN` are both the `Null` cell value. A `ValueError`
from `pd.concat([])` is `RunError.NoObjectsToConcatenate`. `text.dfy` holds
shared string helpers: `str(int)`, `int(str)`, `zfill`, `join` and a
splitter. `wrappers.dfy` holds `Option` and `Result`.

## Model

| member | source | states |
|---|---|---|
| Concurrency.ResolveJobs | evlens/concurrency.py:20-28 | -1 becomes cpu_count()-1. A count above the ceiling is capped to it. A count in [1, cpu_count()-1] is kept unchanged. Exactly 0 and values below -1 (when not capped) raise ValueError. |
| Concurrency.RejectedJobs | evlens/concurrency.py:20-28 | On a host with at least one CPU, n_jobs is rejected if and only if it is 0 or below -1. |
| Concurrency.ResolvedJobsInRange | evlens/concurrency.py:20-28 | With at least two CPUs, the resolved count lies in [1, cpu_count()-1]. |
| Concurrency.ResolveJobsIdempotent | evlens/concurrency.py:20-28 | Resolving an already-resolved count returns it unchanged. |
| Concurrency.ResolveJobsExamples | evlens/concurrency.py:20-28 | On 8 CPUs: -1 and 10 give 7, 3 stays 3, and 0 and -2 are rejected. |
| Concurrency.Gather | evlens/concurrency.py:42-47 | ray.get succeeds if and only if every task succeeded, with one value per task in list order. Otherwise it fails with the error of the first failing task. |
| Concurrency.Calls | evlens/concurrency.py:43 | Task i is actor i's run on run_args[i]. |
| Concurrency.Dispatch | evlens/concurrency.py:39-47 | More run_args than actors raise IndexError. Otherwise the result is every worker's value in argument order, or the first worker error, re-raised. |
| Concurrency.ParallelizedDataProcessing | evlens/concurrency.py:13-53 | Ray is started with the resolved count, or the call raises ValueError first. Shutdown is reached if and only if the results come back. The outcome is the dispatch outcome. |
| Concurrency.ResultsInArgumentOrder | evlens/concurrency.py:39-53 | A successful call returns one result per argument, and result i is actor i's run on argument i. |
| Concurrency.WorkerErrorReraised | evlens/concurrency.py:41-51 | When argument k is the first to fail, its error is what the call raises, and shutdown is skipped. |
| NrelApi.UrlComponent | evlens/data/nrel_api.py:20-26 | A string is returned as is. A list of two or more is comma-joined. A one-item list gives its item. An empty list raises IndexError. |
| NrelApi.UrlComponentRecoversList | evlens/data/nrel_api.py:20-26 | Splitting the component on ',' gives back a non-empty list whose items have no comma. |
| NrelApi.QueryRoundTrip | evlens/data/nrel_api.py:44-49 | Decoding an encoded query gives back its parameters in order, for keys without '&' or '=' and values without '&'. |
| NrelApi.StationsUrl | evlens/data/nrel_api.py:34-51 | The URL exists if and only if every list parameter is non-empty, and it starts with the all-stations base URL. |
| NrelApi.StationsUrlShape | evlens/data/nrel_api.py:42-51 | The URL is the base followed by exactly status, access, fuel_type, ev_charging_level and ev_connector_type, in that order. |
| NrelApi.StationsUrlDecodes | evlens/data/nrel_api.py:42-51 | The URL's query reads back as the five parameters when no value contains '&'. |
| NrelApi.WithLimit | evlens/data/nrel_api.py:76-77 | A positive int limit appends "&limit=" and its decimal form, leaving the URL before it unchanged. None and non-positive limits leave the URL alone. |
| NrelApi.GetStationsUrl | evlens/data/nrel_api.py:68-77 | get_stations' URL exists exactly when the built URL does, and it is that URL with the limit appended when the limit is valid. |
| NrelApi.GetStationsUrlDecodes | evlens/data/nrel_api.py:68-77 | When no value contains '&', get_stations' URL reads back as the five parameters, followed by the limit when one applies. |
| NrelApi.WithLimitDecodes | evlens/data/nrel_api.py:76-77 | The limit reads back as one more, last parameter whose digits give the limit's value. Without a valid limit, the query is unchanged. |
| NrelApi.DefaultStationsUrl | evlens/data/nrel_api.py:53-77 | With every default argument, the URL queries E, public, ELEC, "3,dc_fast" and "J1772COMBO,CHADEMO,TESLA", with no limit. |
| NrelApi.RouteGetUrl | evlens/data/nrel_api.py:112-121 | The route GET URL exists if and only if every list parameter is non-empty, and it starts with the near-route base URL. |
| NrelApi.RouteUrlShape | evlens/data/nrel_api.py:112-121 | The route GET URL is the base followed by exactly route, distance, status, access, fuel_type, ev_charging_level and ev_connector_type, in that order. |
| NrelApi.BuildRouteRequest | evlens/data/nrel_api.py:101-137 | A GET URL longer than 2048 characters becomes the bare base URL plus a POST body of the caller's raw arguments. Otherwise the request is that GET URL with no body. A GET URL is never longer than 2048 here. |
| NrelApi.RouteWithLimit | evlens/data/nrel_api.py:166-170 | A valid limit is appended to a GET URL, or put in the POST body and nowhere else. Otherwise the request is unchanged. GET stays GET and POST stays POST. |
| NrelApi.StationsNearRouteRequest | evlens/data/nrel_api.py:139-170 | get_stations_near_route's request exists exactly when every list parameter is non-empty. |
| NrelApi.NearRoutePostCarriesArguments | evlens/data/nrel_api.py:123-135 | Over the GET limit, the request goes to the bare base URL. It carries every raw argument, plus the limit when one is valid. |
| NrelApi.NearRouteGetRequest | evlens/data/nrel_api.py:156-168 | Within the GET limit, the request is the encoded route query with the limit appended. |
| NrelApi.NearRouteGetDecodes | evlens/data/nrel_api.py:112-168 | Within the GET limit, the URL reads back as the seven parameters, followed by the limit when one applies. |
| NrelApi.NearRouteGetUrlOverLimit | evlens/data/nrel_api.py:123-168 | As written, a 2048-character GET URL plus "&limit=100" is sent as a 2058-character GET. |
| NrelApi.StationsNearRouteRequestChecked | evlens/data/nrel_api.py:123-170 | Corrected: checked after the limit, a GET URL never exceeds 2048, and a POST body carries the arguments and the valid limit. |
| NrelApi.CheckedAgreesWhenWithinLimit | evlens/data/nrel_api.py:123-170 | Wherever the as-written request respects the GET limit, the corrected request is identical. |
| NrelApi.CheckedOverLimitUsesPost | evlens/data/nrel_api.py:123-170 | The input that breaks the as-written request is sent by POST, with its limit, by the corrected one. |
| PlugshareText.FirstDigit | evlens/data/plugshare.py:110 | The index of the first digit, with no digit before it. |
| PlugshareText.DigitRun | evlens/data/plugshare.py:110 | The length of the maximal run of digits at the start. |
| PlugshareText.PowerNumber | evlens/data/plugshare.py:91-113 | Missing stays missing, and a number is returned unchanged. Text gives an int or missing. |
| PlugshareText.PowerNumberOfText | evlens/data/plugshare.py:105-113 | Text gives missing if and only if it has no digit. Otherwise it gives the value of its leftmost maximal digit run, as re.search(r"\d+") matches it. |
| PlugshareText.PowerNumberReadsDecimal | evlens/data/plugshare.py:110-112 | A number written between digit-free text reads back as that number. |
| PlugshareText.PowerNumberExample | evlens/data/plugshare.py:93 | "110 Kilowatts" gives 110. |
| PlugshareText.SkipSpace | evlens/data/plugshare.py:460 | The end of the whitespace run, where \s is Python's str.isspace. |
| PlugshareText.SkipDigits | evlens/data/plugshare.py:460 | The end of the digit run. |
| PlugshareText.CountAt | evlens/data/plugshare.py:460 | A greedy match anchored at p starts with '('. |
| PlugshareText.CountAtMatches | evlens/data/plugshare.py:460-462 | The pattern matches at p if and only if CountAt finds a count there. Every way of matching captures the same digits. |
| PlugshareText.FindCount | evlens/data/plugshare.py:460 | The first position where the pattern matches, with no match before it. |
| PlugshareText.CheckinCount | evlens/data/plugshare.py:459-463 | Missing if and only if no position matches. Otherwise it is the count of the leftmost match. |
| PlugshareText.FindCountIs | evlens/data/plugshare.py:460 | A match with none before it is the one the search stops at. |
| PlugshareText.CheckinCountReadsDecimal | evlens/data/plugshare.py:459-463 | "(", spaces, a number, spaces and ")" after text without '(' give that number. |
| PlugshareText.NormalizeLocationId | evlens/data/plugshare.py:368-370 | A str id is kept. An int id becomes at least six characters, and its digits read back as the id, with the sign kept in front. |
| PlugshareText.NormalizeLocationIdExamples | evlens/data/plugshare.py:368-370 | 42 becomes "000042", and "42" stays "42". |
| PlugshareText.LastPathSegment | evlens/data/plugshare.py:741-742 | The result is the suffix of the path after its last '/', and holds no '/'. |
| PlugshareText.LastPathSegmentAfterSlash | evlens/data/plugshare.py:742 | Whatever precedes the last '/', the segment after it is returned. |
| PlugshareText.LastPathSegmentExample | evlens/data/plugshare.py:742 | "/location/123456" gives "123456". |
| PlugshareCheckIn.KeyOf | evlens/data/plugshare.py:131-148 | Each recognised class names one expected column, never "id" or "station_id". The details loop fills only date and car, and the additional loop fills the other four. |
| PlugshareCheckIn.KeysOf | evlens/data/plugshare.py:131-148 | The set of columns each loop can fill. |
| PlugshareCheckIn.AssignKey | evlens/data/plugshare.py:131-148 | One child sets its own column and no other. |
| PlugshareCheckIn.ApplyLast | evlens/data/plugshare.py:131-148 | After a loop, a column holds the value of the last child that names it. |
| PlugshareCheckIn.ApplyUntouched | evlens/data/plugshare.py:131-148 | A column that no child names keeps its value, or stays absent. |
| PlugshareCheckIn.ApplyKeys | evlens/data/plugshare.py:131-148 | The loops add only recognised columns. |
| PlugshareCheckIn.FillProperties | evlens/data/plugshare.py:171-173 | The fill adds exactly the missing expected columns, as NaN, and changes no existing column. |
| PlugshareCheckIn.FillMissing | evlens/data/plugshare.py:171-173 | The loop over expected_columns computes the fill. |
| PlugshareCheckIn.Parse | evlens/data/plugshare.py:125-173 | The parse loops and the fill compute ParseSpec. Without a "details" element, the expected columns are filled. With a "details" element but no "additional" child, parse raises: ValueError without a screenshot path, AttributeError from `self.element.driver` with one. |
| PlugshareCheckIn.FilledColumns | evlens/data/plugshare.py:161-173 | Filling recognised columns gives exactly the eight expected columns, with "id" and "station_id" NaN. |
| PlugshareCheckIn.ParsedColumns | evlens/data/plugshare.py:125-173 | Every successful parse has exactly the eight expected columns, with "id" and "station_id" NaN. |
| PlugshareCheckIn.ParsedFieldValues | evlens/data/plugshare.py:131-148 | car holds the text of the last car child. charge_power_kilowatts holds _get_power_number of the last kilowatts child's text. |
| PlugshareCheckIn.ParseWithoutAdditional | evlens/data/plugshare.py:128-158 | Without "details" or without "additional", parse succeeds if and only if "details" is missing, and then every column is NaN. Otherwise it raises ValueError without a screenshot path and AttributeError with one. |
| PlugshareCheckIn.CheckInFrame | evlens/data/plugshare.py:175-176 | The frame has no row if and only if every value is missing. Otherwise it has one row with the same columns and the uuid as id. |
| PlugshareCheckIn.PowerReadingRow | evlens/data/plugshare.py:140-176 | An "additional" child holding a kilowatts reading parses, and its power number lands in the one row. |
| PlugshareCheckIn.KilowattsCheckInExample | evlens/data/plugshare.py:140-176 | A check-in reading "110 Kilowatts" becomes one row whose power column is 110. |
| PlugshareScrapers.SaveLog | evlens/data/plugshare.py:531-544 | An empty frame is not inserted. A non-empty one is inserted once, into its table. |
| PlugshareScrapers.MainMapScraper.SaveToBigQuery | evlens/data/plugshare.py:531-544 | Appends the insert to the log, or nothing for an empty frame. |
| PlugshareScrapers.MainMapScraper.SaveBuffers | evlens/data/plugshare.py:577-588 | Raises, inserting nothing, if and only if either buffer is empty. Otherwise it inserts stations, then check-ins, and returns both concatenations. |
| PlugshareScrapers.MainMapScraper.Visit | evlens/data/plugshare.py:566-589 | One iteration buffers the non-empty frames. When the station buffer reaches save_every, it saves a checkpoint and empties both buffers, or raises. |
| PlugshareScrapers.MainMapScraper.Run | evlens/data/plugshare.py:546-611 | The inserts and the result are those of MainMapRun: the loop, then the final concat and inserts. |
| PlugshareScrapers.MainMapCrashStays | evlens/data/plugshare.py:560-589 | Once a checkpoint raises, later locations change nothing. |
| PlugshareScrapers.MainMapRaised | evlens/data/plugshare.py:560-589 | A raise in the loop ends the run with only the earlier inserts. |
| PlugshareScrapers.MainMapStepSaves | evlens/data/plugshare.py:566-589 | What an iteration inserts does not depend on what was inserted before. |
| PlugshareScrapers.MainMapBufferBelowThreshold | evlens/data/plugshare.py:574-589 | With save_every >= 1, the station buffer stays below save_every after every iteration. |
| PlugshareScrapers.MainMapStepRows | evlens/data/plugshare.py:568-589 | An iteration adds exactly the new frame's rows to the rows inserted plus the rows buffered. |
| PlugshareScrapers.MainMapConservation | evlens/data/plugshare.py:560-589 | The rows inserted into each table, followed by the rows still buffered for it, are every non-empty frame scraped, in location order. |
| PlugshareScrapers.FlushRows | evlens/data/plugshare.py:579-586 | A checkpoint adds the station rows to "stations" and the check-in rows to "checkins". |
| PlugshareScrapers.FlushAccounted | evlens/data/plugshare.py:577-588 | A checkpoint moves both buffers' rows, in order, to the end of their tables. |
| PlugshareScrapers.MainMapRunSavesEverything | evlens/data/plugshare.py:546-611 | A run that returns has inserted every non-empty frame in location order. It returns the rows buffered since the last checkpoint. |
| PlugshareScrapers.MainMapRaisesAfterLastCheckpoint | evlens/data/plugshare.py:574-600 | When the last location triggers a checkpoint, everything is inserted and then the final pd.concat raises. |
| PlugshareScrapers.MainMapRaisesWithoutCheckins | evlens/data/plugshare.py:574-578 | A checkpoint with stations but no check-ins raises before inserting anything. |
| PlugshareScrapers.LocationRows | evlens/data/plugshare.py:803-823 | One row per location found. The id is given as text and the plug types are ';'-joined. The cell id goes in the NREL column for an NREL cell and in the other column otherwise, and the unused column is None. |
| PlugshareScrapers.DedupeFrom | evlens/data/plugshare.py:833-834 | drop_duplicates on location_id: the result has no repeated id and has exactly the input's ids. |
| PlugshareScrapers.DedupeKeepsFirst | evlens/data/plugshare.py:833-834 | The rows kept are input rows in input order, each the first with its id. |
| PlugshareScrapers.LocationSkipsNothingFound | evlens/data/plugshare.py:799-801 | A criterion that found nothing (None or empty) changes neither the buffer nor the inserts. |
| PlugshareScrapers.LocationStepInvariant | evlens/data/plugshare.py:799-843 | One iteration keeps the invariant and adds the ids the criterion found. |
| PlugshareScrapers.LocationLoopInvariant | evlens/data/plugshare.py:797-845 | After the loop, with save_every >= 1, the buffered rows stay below save_every. Every insert goes to locationID without a repeated id. The ids inserted plus those buffered are exactly the ids found. |
| PlugshareScrapers.LocationIdRunResult | evlens/data/plugshare.py:850-859 | None if and only if nothing is buffered at the end. Otherwise the result has no repeated id and is the last insert. Every id found is inserted. |
| PlugshareScrapers.LocationIdScraper.SaveToBigQuery | evlens/data/plugshare.py:531-544 | Appends the insert to the log, or nothing for an empty frame. |
| PlugshareScrapers.LocationIdScraper.Run | evlens/data/plugshare.py:775-859 | The inserts and the result are those of LocationIdRun. |

## Left out

- The Selenium browser is left out. That covers page loads, cookie and login dialogs, clicks, waits, sleeps and `driver.quit()`. Each run instead takes what `scrape_location` or `grab_location_ids` returned.
- The BigQuery client is modelled as an append-only log of inserts. `ParallelLocationIDScraper.save_to_bigquery` (evlens/data/plugshare.py:865-871) only adds retries around the same insert, so it is not modelled.
- The Ray runtime is left out: `ray.init`, actor creation and the dashboard. The `**kwargs` that `parallelized_data_processing` passes to every `actor.remote` (evlens/concurrency.py:17, 39) are not modelled; each actor is a value given as it is. Workers are modelled as a total function run in argument order.
- `requests.get`/`requests.post`, the API key header and the JSON response handling of the NREL methods are left out.
- `BigQuery.make_uuid()` and `get_current_datetime()` are left out. The uuid is a parameter of `CheckInFrame`. The `id` and `parsed_datetime` columns of the location frame are not modelled.
- `pd.to_datetime` on the check-in date is left out. The date column holds the element's text.
- Exceptions other than the modelled ones are left out. Check-in parsing covers the missing "details" element and the missing "additional" child. The `KeyError` re-raised while building a location frame (evlens/data/plugshare.py:824-827) is not modelled.
- `self.additional_children` is an attribute that outlives one `parse` call. The model starts each parse without it, so a reused `CheckIn` object that remembers an earlier "additional" child is not modelled.
- `save_error_screenshot` is modelled only as the exception it raises: `ValueError` when no path was given, and otherwise `AttributeError` from `self.element.driver`, because a Selenium `WebElement` exposes its driver as `parent`. The screenshot file and its upload are never reached, so they are not modelled.
- PlugshareText.PowerNumber: Python 3.11 and later refuse to convert a string of more than 4300 digits with `int()` and raise `ValueError` (evlens/data/plugshare.py:111). The model returns the number whatever its length.
- PlugshareText.CheckinCount: the same 4300-digit limit on `int(match.group(1))` (evlens/data/plugshare.py:462) is not modelled.
- PlugshareText.NormalizeLocationId: the same limit applies to `str(location_id)` of an int longer than 4300 digits (evlens/data/plugshare.py:370). It is not modelled.
- `search_distance` is a float that the URL holds as `str(search_distance)`. The model takes that text as given, and float formatting is not modelled.
- NrelApi.WithLimit: the model's limit is an optional int. A `limit` of another type is not modelled: a float is skipped by `isinstance` and a string raises `TypeError` on `limit > 0`.
- PlugshareText.PowerNumber: the model takes text, an int, a float or missing. Other Python types are not modelled.
- Regex `\d` is modelled as ASCII digits only. Python also matches other Unicode decimal digits.
- The rest of evlens/data/plugshare.py is not part of this model: station-page field extraction, map panning and pin scraping. Neither are the other evlens modules (markets, plotting, logging, BigQuery and GCS helpers).

## Findings

| source | as written | input that shows it | evidently intended | confidence | as-written member | corrected member |
|---|---|---|---|---|---|---|
| evlens/data/nrel_api.py:123-168 | The 2048-character GET check runs in `_build_url`, before `get_stations_near_route` appends `&limit=`, so a GET URL of up to 2048 characters grows past the limit. | A route of 1851 characters, distance "10", defaults otherwise, limit 100: the built URL is 2048 characters and the GET request is 2058. | Any GET URL actually requested is at most 2048 characters; longer ones switch to POST with the limit in the body. | not executed | NrelApi.NearRouteGetUrlOverLimit | NrelApi.StationsNearRouteRequestChecked |
