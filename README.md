# Weather aggregator — a Dafny model of its request handling, aggregation and alert reports

The service takes a city name over HTTP, checks it, and hands it to a background
worker that asks three weather sources for a temperature and averages what they
answer; a second endpoint reports the worker's progress. Every step leaves a trace in
a time-series log, and suspicious input or a failing source produces an alert report
file. This project models the three pieces of sequential logic in that flow and proves
what they promise:

- `tasks.dfy` (module `Tasks`) — the worker `fetch_weather_summary`, as a method with
  the source's loop. It asks `source1`, `source2`, `source3` in that order, appends
  each temperature to `results` or the source's name to `errors`, and emits one log
  event per source and one "API Failure" alert per failing source. It then returns
  either the fixed record `{"error": "All sources failed for this city."}` or the
  city, the rounded average, the number of sources used and the failed sources. The
  fetch is a function parameter, so the failure branch is reachable. The average is
  kept exactly, as a whole number of hundredths.
- `api.dfy` (module `Api`) — the handler `get_weather`. It strips the city, then
  applies three checks in order, each with its own alert and its own 400 detail:
  injection keywords, personal data, and letters-and-spaces format. Otherwise it logs
  the request once and submits the task. Both regular expressions are written out as
  predicates with Python's `re.search` meaning: `\s+`, case-insensitive matching,
  `\b` word boundaries, `\d{n}` runs. The module also has the status endpoint's
  answer: the result is present exactly when the task is finished.
- `alert_engine.dfy` (module `AlertEngine`) — `generate_alert`. It covers the file
  name (the alert type with spaces replaced by `_`, then `_`, the time stamp and
  `.txt`), `os.path.join` with the report directory, the
  `%Y-%m-%d_%H-%M-%S` time stamp and the three-line report body. The clock reading is
  a parameter; the write is the returned `(path, content)` pair.
- `text.dfy` (module `Text`) holds the Python string primitives the three share:
  `str.isspace`/`\s`, `str.isalpha`, `\d`, `\w`, `str.strip()`, one-character
  `str.replace`, `str(int)` and line splitting. `sinks.dfy` (module `Sinks`) holds the
  log-event and alert records the service emits.

Where the code and the design description of the service differ, the model follows
the code. The sources are asked one after another in a plain loop, not concurrently.
The failed sources form an ordered list, not a set. A total failure is an ordinary
task result, so the task still finishes in state SUCCESS, not Failed. The reported
status is the task queue's state name (`PENDING`, `STARTED`, `SUCCESS`, ...). An
unknown task id reads as `PENDING` with no result, because the result backend has
no record of it.

Two behaviours of the code are stated as lemmas rather than hidden. A description
holding a line feed makes the report longer than three lines (`MultiLineDescription`).
Two alerts of the same type raised within one second get the same path, so the later
file replaces the earlier (`SameSecondSamePath`). The task raises its alerts in one
loop, so two failing sources in one run can share a report path, when both alerts
fall in the same clock second.

## Model

| member | source | states |
|---|---|---|
| `Tasks.FetchWeatherSummary` | app/tasks.py:11-42 | The result, log and alerts are those of the three sources asked in order. There is exactly one log event per source, in order `source1`, `source2`, `source3`. Total failure gives the fixed error record with one alert per source. Otherwise the city is echoed, at least one source is used, used plus failed is three, and there is one alert per failed source. |
| `Tasks.PartitionCounts` | app/tasks.py:21-31 | Every source ends up in exactly one of `results` and `errors`: their lengths add up to the number of sources. |
| `Tasks.IndicesWhereSpec` | app/tasks.py:21-31 | The reference index lists are in range and strictly ascending. They hold exactly the positions of the failed (or the successful) sources. |
| `Tasks.FailedSourcesInOrder` | app/tasks.py:27-31 | `errors` lists exactly the failing source names, in source order: its k-th entry is the source of the k-th failure. |
| `Tasks.TemperaturesInOrder` | app/tasks.py:22-26 | `results` lists exactly the successful readings, in source order. |
| `Tasks.EventsPerSource` | app/tasks.py:21-31 | There is one log event per source, carrying the city and the source name. A success logs status "success" at the default level; a failure logs "fail" at level "error". |
| `Tasks.AlertsPerFailure` | app/tasks.py:27-31 | There are as many alerts as failed sources. Each is an "API Failure" whose message names the k-th failed source and the city. |
| `Tasks.AllFailedIff` | app/tasks.py:33-34 | The all-failed record is returned exactly when every source failed. It is then exactly `AllFailed("All sources failed for this city.")`, with no average. |
| `Tasks.AggregateSpec` | app/tasks.py:36-42 | With a success, the city is echoed and `sources_used == len(results) >= 1`. Used plus failed equals the number of sources, and `sources_failed` is the `errors` list. The average lies between the lowest and the highest successful reading. |
| `Tasks.RoundDiv` | app/tasks.py:36 | The rounded quotient is a nearest integer: within one half of `n / d`. |
| `Tasks.AverageBounds` | app/tasks.py:36 | Readings all in `lo..hi` give an average, in hundredths, in `100*lo..100*hi`. |
| `Tasks.NeverHalfway` | app/tasks.py:36 | With one to three readings, the exact average in hundredths is never a half. The rounded value is the unique nearest one, so the rounding mode does not matter. |
| `Tasks.SimulatedNeverFails` | app/tasks.py:23 | With the code's simulated fetch `20 + hash(...) % 5`, every reading is in 20..24. No source fails, all three are used, and the average is in 20.00..24.00. |
| `Tasks.AllThreeSucceed` | app/tasks.py:33-42 | Readings 20, 21 and 23 give average 21.33 from three sources, with none failed. |
| `Tasks.OneSourceFails` | app/tasks.py:33-42 | Readings 19 and 20 with `source3` failing give average 19.50 from two sources, with `["source3"]` failed. |
| `Tasks.EverySourceFails` | app/tasks.py:33-34 | Every source failing gives the all-failed record. |
| `Text.StripSpec` | app/main.py:16 | `strip()` returns an infix of the input (`StrippedAt`). Everything cut off on either side is whitespace, and with `Strip`'s own ensures the result neither starts nor ends with whitespace. |
| `Text.StripIdempotent` | app/main.py:16 | Stripping an already stripped city changes nothing. |
| `Text.ReplaceCharByOne` | app/alert_engine.py:9 | Replacing each space by `_` keeps the length. Each space becomes `_` and every other character stays in place. |
| `Text.ReplaceCharConcat` | app/main.py:27 | `replace` acts on each character on its own: replacing in a concatenation is replacing in each part, so the characters it keeps stay in order. |
| `Text.DeleteChar` | app/main.py:27 | `replace(" ", "")` keeps every character other than the space exactly as often as it occurs, and removes every space. |
| `Api.FormatOkChars` | app/main.py:27 | A city passes the format check exactly when it holds a letter and every character is a letter or a space. |
| `Api.FormatOkExcludesPersonalData` | app/main.py:22-29 | A city passing the format check never matches the personal-data pattern: it has no `@`, no digit and no hyphen. |
| `Api.FormatOkInjectionIsKeywordPair` | app/main.py:18-29 | In a well-formed name only the spaced keyword pairs (`drop table`, `delete from`, `insert into`) can match. `;--` and `<script>` cannot. |
| `Api.Decide` | app/main.py:15-32 | All checks apply to the stripped city. An accepted city is the stripped input: non-empty, free of surrounding whitespace, and made of letters and spaces only. It holds no injection keyword in any letter case and no personal data. |
| `Api.InjectionRejectedFirst` | app/main.py:18-20 | A stripped city matching any injection keyword, case-insensitively, gets "Suspicious input detected" with an "Attempted Fraud" alert, whatever the later checks say. Only such a city gets that answer. |
| `Api.PersonalDataRejectedSecond` | app/main.py:22-24 | "Input may contain personal data" with a "Potential Personal Data" alert is the answer exactly when the city passes the injection check and holds `@`, a delimited ten-digit run or `ddd-ddd-dddd`. |
| `Api.InvalidNameRejectedThird` | app/main.py:27-29 | "Invalid city name" with an "Invalid Input" alert is the answer exactly when the first two checks pass and the format check fails. |
| `Api.AcceptIff` | app/main.py:18-30 | A city is accepted exactly when it has no injection keyword and is well formed. The personal-data check only changes which message a rejected city gets. |
| `Api.GetWeatherEffects` | app/main.py:14-32 | Each request has exactly one effect: one alert, or one submission. A rejection answers 400 with no log and no submission. An acceptance raises no alert, logs one "received" event from "api", submits the stripped city and returns the task id. |
| `Api.GetTaskStatus` | app/main.py:34-41 | The task id is echoed. For a task the backend holds, the status is the name of its stored state. The result is present exactly when the task is ready (SUCCESS, FAILURE or REVOKED), and is then the stored value. An unknown id reads as PENDING with no result. |
| `Api.StateNameInjective` | app/main.py:39 | Distinct task states are reported under distinct status names. |
| `AlertEngine.TimestampShape` | app/alert_engine.py:8 | The time stamp is 19 characters in the layout `YYYY-mm-dd_HH-MM-SS`. It holds no space and no line feed. |
| `AlertEngine.DigitsRoundTrip` | app/alert_engine.py:8 | A zero-padded time-stamp field reads back as the number it was made from. |
| `AlertEngine.FileNameSpec` | app/alert_engine.py:9 | The file name is the alert type with each space turned into `_`, then `_`, the time stamp and `.txt`. It is free of spaces whenever the time stamp is. |
| `AlertEngine.JoinPath` | app/alert_engine.py:10 | The joined path ends with the file name. |
| `AlertEngine.ReportInReportDir` | app/alert_engine.py:4-10 | An alert type not starting with `/` puts the report at `app/error_reports/` followed by the file name. |
| `AlertEngine.ReportHasThreeLines` | app/alert_engine.py:11-14 | The report's lines are exactly "Timestamp: …", "Alert Type: …" with the unreplaced type, and "Description: …", in that order. This holds when neither the type nor the description holds a line feed. |
| `AlertEngine.MultiLineDescription` | app/alert_engine.py:11-14 | A description `d1 + "\n" + d2`, with no line feed in `d1`, `d2` or the type, gives a four-line report. Its third line is "Description: " + `d1`, and its fourth is `d2` alone. |
| `AlertEngine.SameTimestampInNameAndBody` | app/alert_engine.py:8-14 | The time stamp just before `.txt` in the path is the one on the report's first line. |
| `AlertEngine.SameSecondSamePath` | app/alert_engine.py:8-11 | Two alerts of one type in the same second get the same path. |

## Left out

- The task queue: its configuration, `.delay` and the `AsyncResult` lookup are not
  modelled. Submission records the city and returns the queue's task id, which is a
  parameter. The result backend is a map from task id to state and value.
- The web framework: routing, request parsing and `HTTPException`. A rejection is a
  returned `HttpError(400, detail)`.
- The time-series logger (`app/influx_logger.py` is not part of this model). A
  `log_event` call is the `LogEvent` record it would write; the sink's own time stamp
  is dropped.
- Sink failures. An exception from `log_event` or `generate_alert` in the handler, or
  in the task's failure branch, propagates and aborts the call; the model does not
  cover that. An exception from the success-branch log write is caught by the task.
  Such a source counts as failed, which the injected `FetchError` outcome covers.
- File system and clock: `os.makedirs`, `open`/`write` and `datetime.now()`. The
  clock reading is a `DateTime` parameter with a four-digit year; `%Y` for years
  before 1000 depends on the platform.
- The per-process string `hash` in the simulated fetch is a parameter. Only the range
  of its `% 5` matters.
- Floating point. The average is an exact integer count of hundredths, rounded half
  up. Python's `round` is half-to-even on a float; `NeverHalfway` shows the two agree
  for up to three readings. Float precision loss for huge sums is not modelled.
- The source URLs, which the code builds and never uses.
- Unicode beyond U+00FF: letters (`isalpha`), digits (`\d`) and word characters
  (`\w`, for `\b`) are recognised only up to U+00FF. A city such as "Łódź" is
  accepted by the code but rejected as invalid by the model. Whitespace is Python's
  complete list.
- Case-insensitive matching covers ASCII capitals and Python's extra equivalents for
  `i` (U+0130, U+0131) and `s` (U+017F); no other letter of the keywords has one.
- Task states beyond Celery's seven built-in ones; custom states are not modelled.
