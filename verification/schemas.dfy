/**
 The two enumerations of the dataset registry: the lifecycle status of a
 dataset or model, and the task category that decides which columns an
 ingestion run fetches.  Both are Python `Enum`s whose members are numbered by
 `auto()` in declaration order and whose `str()` is the member name.
 */
module Schemas {

  datatype StatusProcess =
    | Pending | RunningPull | SuccessPull | ErrorPull
    | RunningTrain | SuccessTrain | ErrorTrain | RunningCompare
    | Idle | Active | Paused | Cancelled | Queued | Validating

  /** `str()` of a status: the Python member name. */
  function StatusName(s: StatusProcess): string {
    match s
    case Pending => "PENDING"
    case RunningPull => "RUNNING_PULL"
    case SuccessPull => "SUCCESS_PULL"
    case ErrorPull => "ERROR_PULL"
    case RunningTrain => "RUNNING_TRAIN"
    case SuccessTrain => "SUCCESS_TRAIN"
    case ErrorTrain => "ERROR_TRAIN"
    case RunningCompare => "RUNNING_COMPARE"
    case Idle => "IDLE"
    case Active => "ACTIVE"
    case Paused => "PAUSED"
    case Cancelled => "CANCELLED"
    case Queued => "QUEUED"
    case Validating => "VALIDATING"
  }

  /** The value `auto()` gives a status: its 1-based declaration position. */
  function StatusValue(s: StatusProcess): int {
    match s
    case Pending => 1
    case RunningPull => 2
    case SuccessPull => 3
    case ErrorPull => 4
    case RunningTrain => 5
    case SuccessTrain => 6
    case ErrorTrain => 7
    case RunningCompare => 8
    case Idle => 9
    case Active => 10
    case Paused => 11
    case Cancelled => 12
    case Queued => 13
    case Validating => 14
  }

  /** The four states an ingestion run moves through. */
  predicate IsPullState(s: StatusProcess) {
    s in {Pending, RunningPull, SuccessPull, ErrorPull}
  }

  /** The four pull states are distinct members, numbered 1 to 4, and each prints as its own name. */
  lemma PullStatesDistinct(a: StatusProcess, b: StatusProcess)
    requires IsPullState(a) && IsPullState(b)
    ensures 1 <= StatusValue(a) <= 4
    ensures StatusName(a) == StatusName(b) <==> a == b
  {
  }

  /** `str()` never confuses two statuses. */
  lemma StatusNameInjective(a: StatusProcess, b: StatusProcess)
    ensures StatusName(a) == StatusName(b) <==> a == b
  {
  }

  datatype TaskType =
    | Classification | Regression | Clustering | TimeSeries | Anomaly
    | ClassificationDummy | RegressionDummy | ClusteringDummy | TimeSeriesDummy | AnomalyDummy

  /** `str()` of a task type: the Python member name. */
  function TaskName(t: TaskType): string {
    match t
    case Classification => "Classification"
    case Regression => "Regression"
    case Clustering => "Clustering"
    case TimeSeries => "TimeSeries"
    case Anomaly => "Anomaly"
    case ClassificationDummy => "ClassificationDummy"
    case RegressionDummy => "RegressionDummy"
    case ClusteringDummy => "ClusteringDummy"
    case TimeSeriesDummy => "TimeSeriesDummy"
    case AnomalyDummy => "AnomalyDummy"
  }

  /** The value `auto()` gives a task type: its 1-based declaration position. */
  function TaskValue(t: TaskType): int {
    match t
    case Classification => 1
    case Regression => 2
    case Clustering => 3
    case TimeSeries => 4
    case Anomaly => 5
    case ClassificationDummy => 6
    case RegressionDummy => 7
    case ClusteringDummy => 8
    case TimeSeriesDummy => 9
    case AnomalyDummy => 10
  }

  /** `TaskType.tolist()`: the member names, in declaration order. */
  function TaskTypeList(): (names: seq<string>)
    ensures |names| == 10
    ensures forall t: TaskType :: 1 <= TaskValue(t) <= 10 && names[TaskValue(t) - 1] == TaskName(t)
    ensures forall i, j :: 0 <= i < j < |names| ==> names[i] != names[j]
  {
    ["Classification", "Regression", "Clustering", "TimeSeries", "Anomaly",
     "ClassificationDummy", "RegressionDummy", "ClusteringDummy", "TimeSeriesDummy", "AnomalyDummy"]
  }

  /** `str()` never confuses two task types. */
  lemma TaskNameInjective(a: TaskType, b: TaskType)
    ensures TaskName(a) == TaskName(b) <==> a == b
  {
    var names := TaskTypeList();
    if TaskName(a) == TaskName(b) {
      assert names[TaskValue(a) - 1] == names[TaskValue(b) - 1];
    }
  }

  predicate IsClassification(t: TaskType) { t in {Classification, ClassificationDummy} }
  predicate IsRegression(t: TaskType) { t in {Regression, RegressionDummy} }
  predicate IsClustering(t: TaskType) { t in {Clustering, ClusteringDummy} }
  predicate IsAnomaly(t: TaskType) { t in {Anomaly, AnomalyDummy} }
  predicate IsTimeSeries(t: TaskType) { t in {TimeSeries, TimeSeriesDummy} }

  predicate IsSupervised(t: TaskType) { IsClassification(t) || IsRegression(t) }
  predicate IsUnsupervised(t: TaskType) { IsClustering(t) || IsAnomaly(t) }

  /**
   `is_dummies`.  The source lists `TaskType.TimeSeriesDummy.AnomalyDummy`,
   which is member access through a member and denotes AnomalyDummy, so
   TimeSeriesDummy is not in the list.
   */
  predicate IsDummies(t: TaskType) {
    t in {ClassificationDummy, RegressionDummy, AnomalyDummy, ClusteringDummy}
  }

  /** The real task a dummy variant stands for; a real task is its own base. */
  function BaseTask(t: TaskType): (b: TaskType)
    ensures TaskValue(b) <= 5
    ensures TaskValue(t) <= 5 ==> b == t
    ensures TaskValue(t) > 5 ==> TaskValue(b) == TaskValue(t) - 5
  {
    match t
    case ClassificationDummy => Classification
    case RegressionDummy => Regression
    case ClusteringDummy => Clustering
    case TimeSeriesDummy => TimeSeries
    case AnomalyDummy => Anomaly
    case _ => t
  }

  /** Every task type belongs to exactly one of the five families, the same one as its base task. */
  lemma FamiliesPartition(t: TaskType)
    ensures (if IsClassification(t) then 1 else 0) + (if IsRegression(t) then 1 else 0)
          + (if IsClustering(t) then 1 else 0) + (if IsAnomaly(t) then 1 else 0)
          + (if IsTimeSeries(t) then 1 else 0) == 1
    ensures IsClassification(t) == IsClassification(BaseTask(t))
    ensures IsRegression(t) == IsRegression(BaseTask(t))
    ensures IsClustering(t) == IsClustering(BaseTask(t))
    ensures IsAnomaly(t) == IsAnomaly(BaseTask(t))
    ensures IsTimeSeries(t) == IsTimeSeries(BaseTask(t))
  {
  }

  /** `is_supervised` holds exactly for the classification and regression tasks and their dummies. */
  lemma SupervisedExactly(t: TaskType)
    ensures IsSupervised(t) <==> BaseTask(t) == Classification || BaseTask(t) == Regression
    ensures IsSupervised(t) <==> TaskValue(t) in {1, 2, 6, 7}
  {
  }

  /** `is_unsupervised` holds exactly for clustering and anomaly tasks and their dummies. */
  lemma UnsupervisedExactly(t: TaskType)
    ensures IsUnsupervised(t) <==> BaseTask(t) == Clustering || BaseTask(t) == Anomaly
    ensures IsUnsupervised(t) <==> TaskValue(t) in {3, 5, 8, 10}
  {
  }

  /** No task is both supervised and unsupervised; the time-series tasks are neither. */
  lemma SupervisionDisjoint(t: TaskType)
    ensures !(IsSupervised(t) && IsUnsupervised(t))
    ensures !IsSupervised(t) && !IsUnsupervised(t) <==> IsTimeSeries(t)
  {
  }

  /** The dummies are the dummy variants other than TimeSeriesDummy; no real task is one. */
  lemma DummiesExactly(t: TaskType)
    ensures IsDummies(t) <==> BaseTask(t) != t && t != TimeSeriesDummy
    ensures IsDummies(t) ==> TaskValue(t) > 5
  {
  }
}
