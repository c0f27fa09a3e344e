# Release-stability metrics: a Dafny model

This project models the core of a small Go service that polls CI server
instances and answers `GET /metrics` with one release-stability row per
(instance, job): how many of the job's builds of the current day succeeded
and failed, and both rates as percentages rounded to two decimals.

The model covers the request's deterministic work:

- **Configuration validation** (`JenkinsConfig`). One untyped settings entry
  either becomes a typed request or gives one of four fixed errors. The checks
  run in order: not a map, then `jenkinsurl`, `username` and `password`.
- **Build-detail normalisation** (`BuildDetails`). A decoded detail document
  becomes one `BuildInfo` inside a one-element envelope. A missing, null,
  non-string or empty `result` becomes `"Building"`.
- **Worker, drain and instance loop** (`MetricsHandler`). Each worker turns a
  job's build list into envelopes. The drain appends every build list and
  stops at the first worker error. An instance is skipped when its job list is
  nil or its first job has no URL. A non-nil empty list makes the source index
  out of range; the model gives that case an explicit `Crash` outcome, which
  the server's recovery middleware turns into HTTP 500.
- **Window and counters** (`BuildCounter`). A build counts when
  `todayStart <= timestamp <= now`, where `todayStart = now - now % 86400000`
  (UTC midnight). Counters sit in a two-level map keyed by instance and then
  job. The entry is created for any in-window build. Only `SUCCESS` and
  `FAILURE` bump a count.
- **Rates and rows** (`StatsRows`). Rates are integer hundredths of a percent:
  3333 stands for 33.33. Row order follows unspecified map iteration, so the
  model picks keys nondeterministically. When nothing was counted, the output
  is a single placeholder row named `无`.

Time is integer milliseconds since the Unix epoch, and one `now` is used
throughout. Everything fetched over the network is an input: the job list of
each instance, the worker results in arrival order, and the decoded detail
documents.

The handler counts one window only, the current UTC day.

Each rate is rounded on its own, so the two rates of a row whose builds all
succeeded or failed add up to 100.00 or 100.01. One success in 32 builds gives
3.13 + 96.88. Every product in that example is exact in binary floating point,
so the float64 code gives the same sum (`StatsRows.RatesSum`,
`StatsRows.RatesSumCanExceedHundred`).

## Model

| member | source | states |
|---|---|---|
| `JenkinsConfig.GetJenkinsConfig` | internal/router/getJenkinsConfig.go:9-41 | A non-map gives "not a map". Success holds exactly when all three keys hold non-empty strings. Otherwise the first failing field, in the order url, username, password, picks the error. On success the fields equal the map's strings and the instance name is empty. |
| `JenkinsConfig.RoundTrip` | internal/router/getJenkinsConfig.go:32-40 | A request with non-empty fields, written as settings beside any other keys, validates back to itself. |
| `JenkinsConfig.OtherKeysIgnored` | internal/router/getJenkinsConfig.go:17-30 | Two maps that agree on the three looked-up keys validate to the same result. |
| `BuildDetails.DetailURL` | internal/router/getBuildInfo.go:41 | The detail URL is the build URL followed directly by `api/json?pretty=true`, with no separator. |
| `BuildDetails.NormalizedResult` | internal/router/getBuildInfo.go:69-72 | The result is the decoded `result` string when that is non-empty, and exactly `"Building"` otherwise. It is never empty. |
| `BuildDetails.NormalizedResultIdempotent` | internal/router/getBuildInfo.go:69-72 | Writing a normalised result back into the document and normalising again changes nothing. |
| `BuildDetails.GetBuildInfo` | internal/router/getBuildInfo.go:74-93 | The response holds exactly one record. The instance name, job name and job URL come from the arguments, and the build URL from the build link. Building, display name, duration, timestamp and number come from the decoded fields. Their presence and types are the precondition. |
| `MetricsHandler.RunWorker` | internal/router/router.go:90-110 | A failed history fetch sends that error. Otherwise the worker sends one envelope per listed build, in order, and every record carries the worker's instance and job names. |
| `MetricsHandler.DrainSpec` | internal/router/router.go:119-133 | The drain fails exactly when some result is an error, and then with the first error's message. Otherwise it appends every build list after the data already collected, in drain order. |
| `MetricsHandler.DrainResults` | internal/router/router.go:119-133 | The loop, with its early return, computes the drain. |
| `MetricsHandler.JobsGuard` | internal/router/router.go:74-77 | A nil list or an empty first-job URL skips the instance. A non-nil empty list is the index-out-of-range case. Every other list proceeds. |
| `MetricsHandler.ConfigErrorAbortsRequest` | internal/router/router.go:59-63 | An invalid configuration ends the request with the fixed configuration-format message. |
| `MetricsHandler.SkippedInstanceContributesNothing` | internal/router/router.go:74-77 | A skipped instance adds no data, and the loop goes on with the next instance. |
| `MetricsHandler.WorkerErrorAbortsRequest` | internal/router/router.go:119-123 | One failing job in an instance that proceeds makes the whole request fail with the first error message, whatever its other jobs and the instances visited after it hold. |
| `MetricsHandler.CollectAllHealthy` | internal/router/router.go:56-134 | When every instance proceeds and no worker fails, the collected data is every instance's build lists, instance after instance, in drain order. |
| `MetricsHandler.GetMetricsHandler` | internal/router/router.go:47-234 | A request that halts gives the error (or the crash) of the instance loop. Otherwise it returns rows that flatten the day's counters over everything collected. |
| `BuildCounter.TodayStart` | internal/router/router.go:139-140 | The window start is a multiple of a day, not after `now`, and less than a day before it. |
| `BuildCounter.Step` | internal/router/router.go:156-181 | An out-of-window build changes nothing. An in-window build ensures its (instance, job) entry exists. SUCCESS adds one to that entry's success count only, FAILURE to its failure count only, and other results add nothing. No other entry changes. |
| `BuildCounter.CountRecord` | internal/router/router.go:156-181 | The loop body, with on-demand creation and in-place increments, performs exactly one `Step`. |
| `BuildCounter.CountRecords` | internal/router/router.go:155-183 | The innermost loop folds the records of one envelope in order. |
| `BuildCounter.CountEnvelopes` | internal/router/router.go:154-184 | The middle loop folds the records of every envelope of one drained result in order. |
| `BuildCounter.CountBuilds` | internal/router/router.go:142-189 | The counting loop yields the fold of every drained record into an empty map. |
| `BuildCounter.CountAllSpec` | internal/router/router.go:145-189 | After counting, a pair has an entry exactly when it has an in-window build of any result. No instance has an empty job map. An entry is named after its keys, and its counts equal the numbers of in-window SUCCESS and FAILURE builds of that pair. |
| `BuildCounter.TallyPermutation` | internal/router/router.go:145-189 | Per-pair counts do not depend on the order in which builds are visited. |
| `BuildCounter.EntryIffBuiltToday` | internal/router/router.go:156-168 | A pair gets an entry exactly when one of its builds lies in the window. A pair with no builds, or with builds only before today, gets none. |
| `BuildCounter.UnknownResultsGiveZeroEntry` | internal/router/router.go:157-181 | A pair whose in-window builds all have other results still gets an entry, with both counts zero. |
| `BuildCounter.BuildingIsNeitherSuccessNorFailure` | internal/router/router.go:170-181 | A record whose result was normalised to "Building" creates its entry when it is in the window, but changes no count. |
| `StatsRows.Rate` | internal/router/router.go:201-206 | With a zero total the rate is 0 and nothing is divided. Otherwise the rate is the integer nearest to 10000·count/total, with halves rounded up. It is at most 10000 when count ≤ total. |
| `StatsRows.RateExamples` | internal/router/router.go:204-205 | 1/3 gives 33.33, 2/3 gives 66.67, 1/8 gives 12.5, 7/8 gives 87.5, 1/32 gives 3.13 and 31/32 gives 96.88. |
| `StatsRows.RatesSum` | internal/router/router.go:201-206 | When total = success + failure > 0, the two rates add up to 100.00 or 100.01. |
| `StatsRows.RatesSumCanExceedHundred` | internal/router/router.go:204-205 | One success in 32 builds gives rates that add up to 100.01. |
| `StatsRows.RowOf` | internal/router/router.go:197-216 | A row keeps the entry's counts. Its total is success plus failure, both rates are 0 when the total is 0, and both rates lie in [0, 100]. When the total is positive they add up to 100.00 or 100.01. |
| `StatsRows.EmitStats` | internal/router/router.go:192-232 | With no entry, the output is exactly the placeholder row. Otherwise every row is the row of an entry, every entry has a row, no (instance, job) key appears twice, and the rows form the snapshot set. |
| `StatsRows.ScenarioTwoSuccessesOneFailure` | internal/router/router.go:145-216 | Three builds of the day with results SUCCESS, SUCCESS, FAILURE give counts 2 and 1, a total of 3, and rates 66.67 and 33.33. |
| `StatsRows.SnapshotPermutation` | internal/router/router.go:145-219 | Any two orders of the same build records give the same set of rows. |

## Left out

- Concurrency: the goroutine per job, the wait group and the buffered channel
  (internal/router/router.go:79-116). Worker results are an input sequence in
  any arrival order. `RunWorker` models one worker's computation sequentially.
  The model does not require exactly one result per job.
- HTTP and transport. This covers `GetAllJobs`, `GetBuildsHistory` and
  `GetTodayReleaseStatus`, the fetch half of `getBuildInfo` (headers, basic
  auth, status handling), timeouts, and the unused parameters of
  `getBuildInfo`. Fetched job lists, build lists and decoded detail documents
  are inputs. A failed detail fetch inside `getBuildInfo` is not modelled.
  There the source writes an error response and then dereferences a nil
  response.
- `BuildDetails.GetBuildInfo`: the unchecked type assertions on `building`,
  `displayName`, `duration`, `timestamp` and `number` are a precondition
  rather than a panic path. The float64-to-integer casts are not modelled;
  those numbers are already whole.
- `StatsRows.Rate`: states the rounding on exact rationals in integer
  hundredths, not float64 arithmetic with `math.Round(x*1e2)/1e2`. Where
  float64 products are inexact, the source can round a value that lies near
  a half differently.
- The `"null"` branch of the drain (internal/router/router.go:124-127).
  Workers send only `"error"` or `"builds"`, so it cannot be reached.
- The counting loop's `buildItem == nil` branch and its failed type-assertion
  branch (internal/router/router.go:147-150, 185-188). Every drained item is a
  `[]JenkinsBuildsResponse`, and a typed nil slice stored in an interface is
  never `== nil`, so neither branch can be reached.
- The two separate clock reads for `now` and the day start: one `now >= 0` is
  a parameter.
- Row and instance order from Go map iteration. The model visits keys in an
  unspecified order, and its contracts are stated over the set of rows.
  Instances are visited in input order.
- Fields of the counter entry that the handler never sets (building, display
  name, duration, number, result, timestamp, URL). They stay at their zero
  values and are not represented.
- Counter overflow: counts are unbounded naturals rather than 64-bit `int`.
- Logging, gin responses, Viper settings, configuration hot-reload
  (config/config.go) and server start-up (main.go).
- internal/jenkins_api/interface.go, internal/jenkins_api/impl/const.go and
  the model.go types not used by the core are not part of this model.
