/**
 `pulling(dataset_name)`: the ingestion run of one registered dataset.  The
 run looks the record up by name, commits it as RUNNING_PULL, builds the
 column list from the task type, pulls the data, and commits the record
 again as SUCCESS_PULL with its metadata and sampling interval, or as
 ERROR_PULL when anything in between raised.

 The database is a sequence of records and a commit is a snapshot of the
 record in the run's trace of effects, beside the history requests the pull
 sends.  The clock reading written to `created_at` is a parameter.
 */
module Ingest {
  import opened Wrappers
  import opened Schemas
  import opened Series
  import opened Merge
  import opened Remote
  import opened Fetch
  import opened Calendar

  /** The `meta` a successful pull writes; `size_of` (the pandas memory use) is not modelled. */
  datatype MetaDataset = MetaDataset(
    createdAt: string, createdBy: string, nRows: nat, nCols: nat, notes: string, trainSize: real,
    missingValues: nat, isOutlier: bool, randomSeed: int, columns: seq<Label>, path: string)

  /** The fields of a dataset record that ingestion reads or writes. */
  datatype Dataset = Dataset(
    name: string, taskType: TaskType, features: seq<string>, target: string,
    startDate: string, endDate: string, timeStart: string, timeEnd: string,
    status: StatusProcess, isValid: bool, interval: int, meta: Option<MetaDataset>)

  /** The exception a run raises. */
  datatype IngestError =
    | DatasetNotFound(name: string)
    | NotImplemented
    | EmptyFrame
    | PullFailed(cause: PullError)

  /** What a run does, in order: a commit of the record, or a history request. */
  datatype Effect = Committed(record: Dataset) | Requested(packet: HistoryPacket)

  /** A finished run: its effects in order and the exception it raised, if any. */
  datatype Ingestion = Ingestion(trace: seq<Effect>, error: Option<IngestError>)

  /** `Dataset.get_by_name`: the first record with that name (names are unique in the table). */
  function FindDataset(registry: seq<Dataset>, name: string): (i: Option<nat>)
    ensures i.Some? ==> i.value < |registry| && registry[i.value].name == name
                        && forall k :: 0 <= k < i.value ==> registry[k].name != name
    ensures i.None? <==> forall k :: 0 <= k < |registry| ==> registry[k].name != name
  {
    if |registry| == 0 then None
    else if registry[0].name == name then Some(0)
    else
      match FindDataset(registry[1..], name)
      case None =>
        assert forall k :: 1 <= k < |registry| ==> registry[1..][k - 1] == registry[k];
        None
      case Some(k) => Some(k + 1)
  }

  /**
   The columns a run fetches: the features, then the target when the task is
   supervised.  `columns += [dataset.target]` extends the record's own
   feature list, so the record keeps this list afterwards.
   */
  function PulledColumns(d: Dataset): (cols: seq<string>)
    ensures |cols| == |d.features| + (if IsSupervised(d.taskType) then 1 else 0)
    ensures cols[..|d.features|] == d.features
    ensures IsSupervised(d.taskType) ==> cols[|cols| - 1] == d.target
  {
    if IsSupervised(d.taskType) then d.features + [d.target] else d.features
  }

  /** Where the run says the data lives. */
  function StoragePath(name: string): string {
    "storages/" + name + "/data.csv"
  }

  /** The record once the run has committed it as running. */
  function Running(d: Dataset): Dataset {
    d.(status := RunningPull)
  }

  /** The `except` branch: invalid and ERROR_PULL; everything else as it was. */
  function Failed(d: Dataset): Dataset {
    d.(isValid := false, status := ErrorPull)
  }

  /** The success branch for a non-empty frame `f`. */
  function Succeeded(d: Dataset, f: Frame, createdAt: string): Dataset
    requires StrictlyAscending(f.index)
  {
    var meta := MetaDataset(createdAt, "Anonymous", |f.index|, |Labels(f)|, "", 0.8,
                            MissingValues(f.columns), false, 4, Labels(f), StoragePath(d.name));
    d.(meta := Some(meta), isValid := true, status := SuccessPull, interval := IntervalMinutes(f.index))
  }

  /** The record as the run's last commit wrote it. */
  function Final(r: Ingestion): Dataset
    requires |r.trace| > 0 && r.trace[|r.trace| - 1].Committed?
  {
    r.trace[|r.trace| - 1].record
  }

  /** The fields of a record a run never writes. */
  predicate SameIdentity(a: Dataset, b: Dataset) {
    a.name == b.name && a.taskType == b.taskType && a.target == b.target
    && a.startDate == b.startDate && a.endDate == b.endDate
    && a.timeStart == b.timeStart && a.timeEnd == b.timeEnd
  }

  /** A status change a pull may commit: to RUNNING_PULL from anywhere, and from there to an end state. */
  predicate PullTransition(from: StatusProcess, to: StatusProcess) {
    to == RunningPull || (from == RunningPull && (to == SuccessPull || to == ErrorPull))
  }

  /**
   The run of a record that was found: it commits the record as running
   before anything else, sends only requests in between, and ends with a
   second commit in SUCCESS_PULL, valid, or in ERROR_PULL, invalid, and
   raising; the record's identity is untouched.
   */
  predicate Settled(d: Dataset, r: Ingestion) {
    && |r.trace| >= 2
    && r.trace[0] == Committed(Running(d))
    && r.trace[|r.trace| - 1].Committed?
    && (forall i :: 0 < i < |r.trace| - 1 ==> r.trace[i].Requested?)
    && r.trace[0].record.status == RunningPull
    && PullTransition(r.trace[0].record.status, Final(r).status)
    && (Final(r).status == SuccessPull || Final(r).status == ErrorPull)
    && (Final(r).isValid <==> Final(r).status == SuccessPull)
    && (r.error.None? <==> Final(r).status == SuccessPull)
    && SameIdentity(Final(r), d)
  }

  /** The requests of a pull as effects, in the order they were sent. */
  function Requests(calls: seq<HistoryPacket>): (es: seq<Effect>)
    ensures |es| == |calls|
    ensures forall i :: 0 <= i < |calls| ==> es[i] == Requested(calls[i])
  {
    seq(|calls|, i requires 0 <= i < |calls| => Requested(calls[i]))
  }

  /** The trace of a run past the lookup: a commit, the requests in order, a commit. */
  function Bracketed(first: Dataset, calls: seq<HistoryPacket>, last: Dataset): (es: seq<Effect>)
    ensures |es| == |calls| + 2
    ensures es[0] == Committed(first) && es[|es| - 1] == Committed(last)
    ensures forall i :: 0 < i < |es| - 1 ==> es[i] == Requested(calls[i - 1])
  {
    [Committed(first)] + Requests(calls) + [Committed(last)]
  }

  /** The run of a dummy task: `NotImplementedError` right after the first commit. */
  function DummyRun(d: Dataset): (r: Ingestion)
    ensures Settled(d, r)
    ensures r.error == Some(NotImplemented)
    ensures |r.trace| == 2 && Final(r) == Failed(Running(d))
  {
    Ingestion([Committed(Running(d)), Committed(Failed(Running(d)))], Some(NotImplemented))
  }

  /**
   The run of a task that is not a dummy, after the pull returned `p`: an
   error or an empty frame ends in ERROR_PULL, any other frame in
   SUCCESS_PULL with the frame's metadata and interval.
   */
  function Settle(d: Dataset, p: Pulled, createdAt: string): (r: Ingestion)
    requires p.outcome.Ok? ==> StrictlyAscending(p.outcome.value.index)
    ensures Settled(d, r)
    ensures |r.trace| == |p.calls| + 2
    ensures forall i :: 0 <= i < |p.calls| ==> r.trace[i + 1] == Requested(p.calls[i])
    ensures r.error.None? <==> p.outcome.Ok? && !p.outcome.value.Empty()
    ensures p.outcome.Err? ==> r.error == Some(PullFailed(p.outcome.error))
    ensures p.outcome.Ok? && p.outcome.value.Empty() ==> r.error == Some(EmptyFrame)
    ensures Final(r).features == PulledColumns(d)
    ensures r.error.Some? ==> Final(r).meta == d.meta && Final(r).interval == d.interval
    ensures r.error.None? ==>
              var f := p.outcome.value;
              && Final(r).meta.Some?
              && Final(r).meta.value.nRows == |f.index|
              && Final(r).meta.value.nCols == |f.names| + 1
              && Final(r).meta.value.columns == Labels(f)
              && Final(r).meta.value.missingValues == MissingValues(f.columns)
              && Final(r).meta.value.path == StoragePath(d.name)
              && Final(r).interval == IntervalMinutes(f.index)
  {
    var live := Running(d).(features := PulledColumns(d));
    var (final, error) :=
      match p.outcome
      case Err(e) => (Failed(live), Some(PullFailed(e)))
      case Ok(f) => if f.Empty() then (Failed(live), Some(EmptyFrame)) else (Succeeded(live, f, createdAt), None);
    Ingestion(Bracketed(Running(d), p.calls, final), error)
  }

  /**
   `pulling`.  An unknown name raises before the `try`: nothing is committed
   and nothing is requested.  Otherwise the run settles the record; a dummy
   task raises `NotImplementedError` without pulling anything.
   */
  function Pulling(registry: seq<Dataset>, name: string, createdAt: string, server: Server): (r: Ingestion)
    requires WellBehaved(server)
    ensures FindDataset(registry, name).None? <==> r.error == Some(DatasetNotFound(name))
    ensures FindDataset(registry, name).None? ==> r.trace == []
    ensures FindDataset(registry, name).Some? ==>
              var d := registry[FindDataset(registry, name).value];
              && Settled(d, r)
              && (IsDummies(d.taskType) ==> r.error == Some(NotImplemented) && |r.trace| == 2)
              && (!IsDummies(d.taskType) ==> r == PullAndSettle(d, createdAt, server))
  {
    match FindDataset(registry, name)
    case None => Ingestion([], Some(DatasetNotFound(name)))
    case Some(i) =>
      var d := registry[i];
      if IsDummies(d.taskType) then DummyRun(d) else PullAndSettle(d, createdAt, server)
  }

  /**
   The `try` of a task that is not a dummy: it sends exactly the requests
   `pull_real_data` sends for the pulled columns, between the two commits,
   and succeeds exactly when the pull returns a frame with rows.
   */
  function PullAndSettle(d: Dataset, createdAt: string, server: Server): (r: Ingestion)
    requires WellBehaved(server)
    ensures Settled(d, r)
    ensures var p := PullRealData(PulledColumns(d), d.startDate, d.endDate, d.timeStart, d.timeEnd, server);
            && |r.trace| == |p.calls| + 2
            && (forall i :: 0 <= i < |p.calls| ==> r.trace[i + 1] == Requested(p.calls[i]))
            && (r.error.None? <==> p.outcome.Ok? && !p.outcome.value.Empty())
            && (r.error.None? ==>
                  && Final(r).meta.Some?
                  && Final(r).meta.value.missingValues == LeadingNullsTotal(p.outcome.value.columns))
  {
    var p := PullRealData(PulledColumns(d), d.startDate, d.endDate, d.timeStart, d.timeEnd, server);
    PulledFrameFacts(PulledColumns(d), d.startDate, d.endDate, d.timeStart, d.timeEnd, server);
    MissingAreLeading(d, p, createdAt);
    Settle(d, p, createdAt)
  }

  /**
   `missing_values` is counted on a frame that is already forward-filled,
   so it counts each column's nulls before its first value and nothing else.
   */
  lemma MissingAreLeading(d: Dataset, p: Pulled, createdAt: string)
    requires p.outcome.Ok? ==> StrictlyAscending(p.outcome.value.index) && Filled(p.outcome.value)
    ensures var r := Settle(d, p, createdAt);
            r.error.None? ==> Final(r).meta.value.missingValues == LeadingNullsTotal(p.outcome.value.columns)
  {
    if p.outcome.Ok? {
      FilledColumnsMissing(p.outcome.value.columns);
    }
  }

  /**
   Dates that do not parse, or a start after the end, fail the run before
   any request: the record goes from RUNNING_PULL straight to ERROR_PULL.
   */
  lemma BadDatesFailWithoutRequests(d: Dataset, createdAt: string, server: Server)
    requires WellBehaved(server)
    requires ParseDate(d.startDate).None? || ParseDate(d.endDate).None?
             || Ordinal(ParseDate(d.startDate).value) > Ordinal(ParseDate(d.endDate).value)
    ensures var r := PullAndSettle(d, createdAt, server);
            && r.trace == [Committed(Running(d)), Committed(Final(r))]
            && Final(r).status == ErrorPull && !Final(r).isValid
            && (r.error == Some(PullFailed(InvalidDateFormat)) || r.error == Some(PullFailed(StartAfterEnd)))
  {
    var p := PullRealData(PulledColumns(d), d.startDate, d.endDate, d.timeStart, d.timeEnd, server);
    assert p.calls == [] && p.outcome.Err?;
    var r := PullAndSettle(d, createdAt, server);
    assert r == Settle(d, p, createdAt);
    assert r.trace == [r.trace[0], r.trace[1]];
  }
}
