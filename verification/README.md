# Ingestion pipeline of the ML data service, in Dafny

This project models the data-ingestion core of a small machine-learning
service. It has four parts:

- **Remote calls.** Two remote calls read sensor data from a historian:
  - `get_realtime` reads the current value of a point;
  - `get_history` reads one day of a point's readings.
  
  Both share a retry loop with a linear backoff.
- **Multi-day pull.** `pull_real_data`:
  - parses a `YYYYMMDD` date range and enumerates its days;
  - requests every (column, day) pair, skipping days that fail;
  - outer-joins the columns on the timestamp and forward-fills them.
- **Ingestion run.** `pulling` moves a registered dataset through
  RUNNING_PULL to SUCCESS_PULL or ERROR_PULL. It writes the metadata and
  the median sampling interval.
- **Enums and validators.**
  - The task-type and status enumerations that drive the run.
  - The request validators for creating a dataset
    (`check_create_dataset`, `create_dataset`).
  - The pre-inference model check (`check_dataset_pretrained`).

The model is functional throughout:

- Every remote attempt's outcome is an input. The history server is a
  function from (request, attempt number) to what that attempt produced.
- A finished call returns its outcome together with a trace of attempts
  and sleeps.
- An ingestion run returns its trace of effects, in order: database
  commits, each a snapshot of the record, and history requests.
- Readings are exact values. Timestamps are integer epoch milliseconds,
  decoded in the deployment's fixed UTC+7 offset.
- Medians are kept in integers as twice the median.

Modules, one per file:

| file | module | models |
|---|---|---|
| wrappers.dfy | Wrappers | `Option` and `Result` |
| numbers.dfy | Numbers | `int(text)` and `str(int)` |
| calendar.dfy | Calendar | Gregorian dates, `toordinal`, `timedelta(days=n)`, `strptime`/`strftime` with `"%Y%m%d"` |
| series.dfy | Series | samples, local days in UTC+7, the `[dt, val]` unzip |
| schemas.dfy | Schemas | `StatusProcess`, `TaskType` and its predicates |
| retry.dfy | Retry | the shared retry loop and its backoff trace |
| remote.dfy | Remote | `get_realtime`, `get_history` |
| stats.dfy | Stats | sorting and the median |
| merge.dfy | Merge | outer join on timestamps, `ffill`, missing-value count, interval |
| fetch.dfy | Fetch | `pull_real_data` |
| ingest.dfy | Ingest | `pulling` |
| http.dfy | Http | `HTTPException` and its two status codes |
| dataset_checks.dfy | DatasetChecks | `check_create_dataset`, `create_dataset` |
| model_checks.dfy | ModelChecks | `check_dataset_pretrained` |

Where the documented design and the code disagree, the model follows the code:

- **Backoff.** The code sleeps `retry_delay * (attempt + 1)`, a linear
  backoff, not an exponential one (`Retry.ScheduleSleepTotal`).
- **Missing values.** They are counted on the frame `pull_real_data`
  has already forward-filled. So `missing_values` counts only each
  column's nulls before its first reading (`Ingest.MissingAreLeading`).
- **Dummy tasks.** `is_dummies` lists `TaskType.TimeSeriesDummy.AnomalyDummy`,
  which names AnomalyDummy. So a TimeSeriesDummy dataset is pulled like
  a real one (`Schemas.DummiesExactly`).
- **Task-type checks.** The request schema declares `task_type` a string.
  The task-type checks of `check_create_dataset` run only when a
  `TaskType` member reaches it (`DatasetChecks.CheckCreateDataset`).

## Model

| member | source | states |
|---|---|---|
| Retry.Loop | app/pull.py:139-191 | from any attempt on, the loop stops within the budget, every attempt before the last one failed transiently, and the last attempt decides the outcome |
| Retry.LoopTrace | app/pull.py:181-183 | the loop's trace from attempt a on is the backoff schedule from attempt a on |
| Retry.Call | app/pull.py:30-91 | with `max_retries <= 0` there is no request and the result is None; otherwise 1 to `max_retries` attempts; only transient failures come before the last attempt; the trace is the linear backoff schedule; the last attempt returns, raises its own error, or exhausts the budget |
| Retry.FirstDecisiveStepEndsCall | app/pull.py:76-88 | the first attempt that is not a transient failure ends the call; its value or its error becomes the outcome |
| Retry.AllTransientExhausts | app/pull.py:56-74 | when every attempt fails transiently, exactly `max_retries` requests are sent and the call raises, naming the last failure |
| Retry.ScheduleSleepTotal | app/pull.py:67 | n attempts sleep `retry_delay * (1 + 2 + ... + (n-1))` in total |
| Retry.SleepClosedForm | app/pull.py:181-183 | twice the total sleep of n attempts is `retry_delay * n * (n-1)` |
| Retry.NoSleepAfterLastAttempt | app/pull.py:66-67 | the trace begins with the first attempt and ends with the last attempt; there is no sleep after it |
| Retry.ScheduleExtends | app/pull.py:182-183 | one more attempt extends the schedule by one sleep of `retry_delay * n` and the attempt itself |
| Remote.ClassifyRealtime | app/pull.py:33-88 | for one realtime attempt: only Timeout, ConnectionError and urllib3 HTTPError are retried; a value is accepted exactly for a 200 mapping with a numeric `currvalue`; a non-200 status raises with that status |
| Remote.GetRealtime | app/pull.py:12-91 | `get_realtime`: the retry bound, the backoff trace, only transient failures retried, and the returned value or raised error taken from the attempt that ended the call |
| Remote.ClassifyHistory | app/pull.py:139-205 | for one history attempt: only transient failures are retried; a falsy body or a pair list is accepted as a series; a non-200 status is re-raised as a processing error |
| Remote.GetHistory | app/pull.py:94-208 | `get_history`: the packet asks for `getDBHistory` with quality 0 and the given integer `row_id`, date and interval; at most `max_retries` attempts; the returned series is the sample list of the answer that ended the call |
| Remote.EmptyHistoryIsNotAnError | app/pull.py:154-156 | an empty history body returns an empty series after one request and no sleep |
| Remote.BadStatusNotRetried | app/pull.py:34-37 | a non-200 realtime status raises on the attempt where it occurs |
| Remote.HistoryDefaultsExhaust | app/pull.py:101-102 | for any point, date, window and interval, when every attempt times out, `get_history` with its defaults sends three requests, sleeps 700 ms and then 1400 ms, and raises |
| Series.Unzip | app/pull.py:162-170 | a body of pairs yields timestamp and value sequences of equal length, in response order |
| Series.LaterDayStartsLater | app/config.py:16 | the local days of two different dates do not overlap |
| Numbers.ParseFormatInt | app/pull.py:295 | `int(str(n)) == n`: every integer point identifier survives the column name |
| Numbers.ParseIntRejects | app/pull.py:295 | a column name with a non-digit after its first character is not an integer |
| Numbers.DecimalValue | app/pull.py:295 | the decimal text of n reads back as n |
| Calendar.ParseDate | app/pull.py:272-276 | a date `strptime` accepts is a real calendar date with a four-digit year |
| Calendar.ParseFormatRoundTrip | app/pull.py:282 | parsing the `strftime` text of a date gives the date back |
| Calendar.ParseEightDigits | app/pull.py:272-276 | an eight-digit text that parses is exactly the `strftime` text of its date |
| Calendar.LenientForms | app/pull.py:274-275 | `strptime` also accepts one-digit and space-padded months and days, and falls back to month 1 when no day follows a two-digit month |
| Calendar.RejectedForms | app/pull.py:276 | month 13, February 30 and year 0 raise |
| Calendar.NextDayOrdinal | app/pull.py:282 | the next calendar day is one ordinal later and chronologically after |
| Calendar.AddDaysOrdinal | app/pull.py:282 | adding n days adds n to the ordinal |
| Calendar.OrdinalMonotone | app/pull.py:278 | the comparison of the parsed dates is chronological order |
| Calendar.OrdinalInjective | app/pull.py:281 | two dates with the same ordinal are the same date |
| Calendar.DateRange | app/pull.py:281-282 | `delta_days + 1` days, the i-th being i days after the start |
| Calendar.DateRangeCoversEveryDay | app/pull.py:281-282 | the range starts at the start date, ends at the end date, advances one calendar day at a time, is strictly ascending, and contains every date in between |
| Stats.Sort | app/pull.py:253 | a sorted permutation of the gaps |
| Stats.MedianBounds | app/pull.py:253 | the median lies between the smallest and the largest gap |
| Stats.MedianOfPermutation | app/pull.py:253 | the median does not depend on the order of the gaps |
| Stats.MedianOfArrangement | app/pull.py:253 | the median is read off any sorted arrangement of the gaps |
| Stats.MedianOfConstant | app/pull.py:253 | equal gaps have that gap as their median |
| Stats.MajorityMedian | app/pull.py:253 | a value that makes up more than half of the gaps is their median |
| Merge.JoinIndex | app/pull.py:315 | the index of the joined frame is strictly ascending and holds exactly the timestamps some column observed |
| Merge.JoinIndexOrderFree | app/pull.py:315 | the index depends only on which timestamps were observed |
| Merge.AscendingUnique | app/pull.py:315 | two strictly ascending sequences with the same elements are equal |
| Merge.Join | app/pull.py:315 | a column's cell holds its reading at that timestamp, and is null where the column lacks the timestamp |
| Merge.FFill | app/pull.py:318 | each cell of a forward-filled column is the last reading at or before its row |
| Merge.FFillSemantics | app/pull.py:318 | readings stay; a null takes the value above it; a cell stays null exactly when no reading precedes it |
| Merge.FFillIdempotent | app/pull.py:252 | forward-filling twice is forward-filling once, so the second `ffill` in `pulling` changes nothing |
| Merge.FFillNulls | app/pull.py:318 | after forward-filling, the nulls left in a column are its leading nulls |
| Merge.Labels | app/pull.py:321 | the frame's columns are the point identifiers in order, with `dt` last |
| Merge.MergeColumns | app/pull.py:311-322 | the frame is rectangular and its index is the ascending union of all timestamps; each cell is the forward-filled column at that row |
| Merge.MergedFrameIsFilled | app/pull.py:318 | every column of the merged frame is already forward-filled |
| Merge.MergedMissingAreLeading | app/pull.py:246 | the merged frame's missing values are the leading nulls of its joined columns |
| Merge.FilledColumnsMissing | app/pull.py:246 | on forward-filled columns, the missing-value count is the total of the leading nulls |
| Merge.FilledMissing | app/pull.py:246 | the nulls of forward-filled columns are the leading nulls of the raw columns |
| Merge.IntervalMinutes | app/pull.py:253-256 | the interval is never negative, and it is 0 when there are fewer than two rows |
| Merge.IntervalOfMedian | app/pull.py:253-256 | bounds on the median gap carry over to the interval in whole minutes |
| Merge.RegularCadence | app/pull.py:253-256 | rows every `step` ms give an interval of `step` truncated to minutes |
| Merge.IntervalBetweenGaps | app/pull.py:253-256 | gaps between lo and hi give an interval between lo and hi minutes |
| Merge.MajorityGapInterval | app/pull.py:253-256 | a gap that makes up more than half of all gaps fixes the interval at that gap in whole minutes, whatever the other gaps are |
| Merge.MedianResistsOutlier | app/pull.py:253 | for the single index whose gaps are 5, 60 and 5 minutes, the interval is 5 minutes |
| Fetch.FetchDay | app/pull.py:294-302 | one day's `get_history(int(col), date, ...)` call with interval 1: at most three attempts, and it either returns distinct timestamps inside that local day or raises |
| Fetch.Collect | app/pull.py:292-306 | a column's requests are its history calls' packets, in order; it retrieved nothing exactly when every day raised; its samples are the union of the returned days' series |
| Fetch.FetchDays | app/pull.py:292-306 | one request per day of the range, day-ascending, for this point; a column retrieved nothing exactly when no day returned; its samples are the returned days' samples, with distinct timestamps |
| Fetch.FetchColumn | app/pull.py:292-308 | a column name that is not an integer sends no request and retrieves nothing, because `int(col)` raises inside the `try`; any other column fetches every day |
| Fetch.EmptyDaysStillRetrieved | app/pull.py:303 | days that returned an empty series count as retrieved, and the column is then empty rather than failed |
| Fetch.CollectDistinct | app/pull.py:311 | days in disjoint, ascending windows concatenate to a column with distinct timestamps |
| Fetch.Gather | app/pull.py:288-312 | the column loop succeeds exactly when every column retrieved something; otherwise it stops at the first column that retrieved nothing, and later columns send no request |
| Fetch.Conclude | app/pull.py:308-315 | no columns raise, as concatenating nothing does; a column that retrieved nothing raises; otherwise the requests are all columns' requests and the frame is merged from their samples |
| Fetch.PullDays | app/pull.py:288-324 | the column loop over a planned range: a frame exactly when every column retrieved something, with the requests of every column |
| Fetch.PullRealData | app/pull.py:270-324 | an unparsable date or a start after the end raises before any request; otherwise the pull runs over the inclusive day range |
| Fetch.PullCallsColumnMajor | app/pull.py:288-302 | request number `c * days + j` of a successful pull asks for day j of column c: columns outermost, days ascending |
| Fetch.NonNumericColumnAborts | app/pull.py:304-308 | a column that is not an integer makes the pull raise "No data retrieved", naming that column or an earlier one |
| Fetch.PulledFrameFacts | app/pull.py:311-322 | a pulled frame has a strictly ascending index, is rectangular, and is already forward-filled |
| Ingest.FindDataset | app/pull.py:219-220 | the first record with the name, or none exactly when no record has it |
| Ingest.PulledColumns | app/pull.py:225-227 | the features, followed by the target exactly when the task is supervised |
| Ingest.DummyRun | app/pull.py:221-268 | a dummy task commits RUNNING_PULL, then ERROR_PULL with `is_valid` false, and raises `NotImplementedError` |
| Ingest.Settle | app/pull.py:221-268 | the status goes RUNNING_PULL, then SUCCESS_PULL or ERROR_PULL, with `is_valid` true exactly on success; the requests fall between the two commits; an empty frame and a pull error fail; `features` keeps the target appended; on success the metadata holds the row count, the column count including `dt`, the labels, the missing values, the path and the interval; on failure meta and interval are untouched |
| Ingest.Pulling | app/pull.py:210-268 | an unknown name raises with no commit and no request; a dummy task fails after the first commit; any other task sends exactly the pull's requests and settles |
| Ingest.PullAndSettle | app/pull.py:225-259 | the requests are those of `pull_real_data` on the pulled columns; the run succeeds exactly when that returns a frame with rows; `missing_values` is the total of leading nulls |
| Ingest.MissingAreLeading | app/pull.py:240-252 | `missing_values` counts only the nulls before each column's first reading, since the frame is already filled |
| Ingest.BadDatesFailWithoutRequests | app/pull.py:263-278 | bad dates commit RUNNING_PULL, then ERROR_PULL with `is_valid` false, send no request, and raise the date error |
| Schemas.TaskTypeList | app/database/schemas.py:25-38 | `tolist` has the ten member names, in declaration order and without repeats |
| Schemas.TaskNameInjective | app/database/schemas.py:79 | `str()` of two task types agrees exactly when they are the same member |
| Schemas.StatusNameInjective | app/database/schemas.py:23 | `str()` of two statuses agrees exactly when they are the same member |
| Schemas.PullStatesDistinct | app/database/schemas.py:8-11 | the four pull states are distinct members numbered 1 to 4 |
| Schemas.BaseTask | app/database/schemas.py:26-35 | each dummy variant stands five places after its real task |
| Schemas.FamiliesPartition | app/database/schemas.py:39-43 | every task type is in exactly one family, the same as its real task's |
| Schemas.SupervisedExactly | app/database/schemas.py:39-45 | `is_supervised` holds exactly for Classification, Regression and their dummies |
| Schemas.UnsupervisedExactly | app/database/schemas.py:41-46 | `is_unsupervised` holds exactly for Clustering, Anomaly and their dummies |
| Schemas.SupervisionDisjoint | app/database/schemas.py:43-46 | no task type is both supervised and unsupervised; those that are neither are exactly the time-series ones |
| Schemas.DummiesExactly | app/database/schemas.py:47 | `is_dummies` holds exactly for the dummy variants other than TimeSeriesDummy; no real task is one |
| DatasetChecks.CheckCreateDataset | app/routes/dataset.py:19-30 | each check's error holds exactly when the earlier checks pass and it fails: features not a list or tuple (404), a non-string feature (404), a target neither int nor str (404), no features (404), a supervised task with a falsy target (404), a tuple meeting `+=` (TypeError), a non-supervised task with a non-digit target (500); a string task type skips the task checks; a supervised task gets the target appended to `features` |
| DatasetChecks.IntegerTargetDigits | app/routes/dataset.py:30 | an integer target passes the digit check exactly when it is not negative |
| DatasetChecks.CreateDataset | app/routes/dataset.py:32-41 | fails exactly as the checks do; otherwise a PENDING, invalid record named `<task_type>-<8 chars>`, carrying the features as the checks left them |
| ModelChecks.ModelFault | app/routes/model.py:11-14 | a model passes exactly when it is active, trained and has its `.pkl` file; an inactive model fails with 500 before its status is looked at |
| ModelChecks.CheckDatasetPretrained | app/routes/model.py:7-14 | a missing top model is 404, then no models is 404; otherwise no error exactly when every model passes, else the fault of the first failing model in list order |

## Left out

- Transport: `requests.post`, the URLs, credentials, TLS flags and timeouts, and JSON decoding. Each attempt's outcome is an input, already decoded into the endpoint's shapes.
- Logging: the `Logger` calls and `encode_to_dt_sl` produce log text only.
- Sleeping and floats:
  - sleeps are recorded in the trace with delays in integer milliseconds;
  - readings are exact reals;
  - timestamps are integer milliseconds, so the `ms / 1000` float conversion and its rounding are not modelled.
- pandas internals:
  - dtypes, `memory_usage` (the `size_of` field of the metadata) and `pd.to_datetime`;
  - the timezone objects; local days are computed in the fixed UTC+7 offset.
- Fetch.WellBehaved: the model assumes the history server answers each day with distinct timestamps inside that local day. What pandas does with a repeated timestamp is not modelled: a repeat can raise in the column join, or, with a single column, survive as duplicate rows.
- Database: sessions, commits and the ORM. The record is a value and each commit is a snapshot in the run's trace. `created_at` (the clock) is a parameter.
- `data.csv`: `pulling` writes no file, and `meta.path` is only a string. `init_storages_dataset` in `create_dataset` creates directories and is not part of this model.
- The uuid of `create_dataset` is a parameter. The storage directory that `check_dataset_pretrained` prefixes to a model path is folded into the `fileExists` predicate.
- `time_start` and `time_end` are passed through unvalidated, as in the source.
- Request coercion: pydantic's conversion of a request body is not modelled. A request carries the Python values the checks see.
- Enum reflection: `TaskType.from_str` (`eval`), `module()` (a pycaret import) and `algorithms()` (a JSON file) are not modelled.
- Other code: the dummy-data generator, the other functions in the dataset routes, the supervised-learning stubs, the FastAPI routes, background scheduling and the tests are not part of this model.
- Numbers.ParseInt: `int()` also accepts surrounding whitespace, underscores between digits and non-ASCII digits. Column names are taken to be plain ASCII.
- Calendar.ParseDate: `\d` in Python's regex also matches non-ASCII digits. Only ASCII digits are modelled.
- Calendar.FormatDate: a year below 1000 parses from zero-padded text such as `0999`. The model writes such a year back zero-padded to four digits. CPython's `strftime` on Linux may not pad it, and the padding differs between Python versions, so the requests for such dates are not modelled faithfully.
- DatasetChecks.IsDigitText: `str.isdigit` also accepts non-ASCII digits. Only ASCII digits are modelled.
- Remote.GetRealtime: the JSON body is assumed to decode into one of the listed shapes. A `currvalue` that `float()` accepts is a reading, and anything else is `NotConvertible`.
- Merge.IntervalMinutes: pandas computes the median of timedeltas and then `total_seconds() / 60` in floating point. The model divides twice the integer median by two minutes, which equals the source's truncation for the non-negative gaps of an ascending index.
