/**
 `check_create_dataset` and `create_dataset`: the validation of a request to
 register a dataset, and the record it creates.  The validator inspects the
 payload with `isinstance` and truthiness, so the payload's fields are
 modelled as dynamically typed Python values; pydantic's coercion before the
 call is not part of this model.
 */
module DatasetChecks {
  import opened Wrappers
  import opened Numbers
  import opened Schemas
  import opened Http

  /** The Python values the validator can meet in `features` and `target`. */
  datatype PyValue =
    | PyStr(s: string)
    | PyInt(i: int)
    | PyBool(b: bool)
    | PyNone
    | PyList(items: seq<PyValue>)
    | PyTuple(items: seq<PyValue>)
    | PyOther

  /**
   `task_type` as the validator sees it: the request schema declares it a
   `str`, so a real request carries text; the enum case is the branch the
   code is written for.
   */
  datatype TaskField = TaskEnum(task: TaskType) | TaskText(text: string)

  datatype DatasetRequest = DatasetRequest(
    description: string, taskType: TaskField, features: PyValue, target: PyValue,
    startDate: string, endDate: string, timeStart: string, timeEnd: string, interval: int)

  datatype Reason =
    | FeaturesNotSequence
    | FeatureNotString
    | TargetNotIntOrStr
    | NoFeatures
    | TargetMissing
    | TargetNotDigits

  /** What the validator raises: an `HTTPException`, or the `TypeError` of `tuple += list`. */
  datatype Rejection = Http(error: HttpException<Reason>) | TupleConcatenation

  /** Python truthiness. */
  predicate Truthy(v: PyValue) {
    match v
    case PyStr(s) => |s| > 0
    case PyInt(i) => i != 0
    case PyBool(b) => b
    case PyNone => false
    case PyList(items) => |items| > 0
    case PyTuple(items) => |items| > 0
    case PyOther => true
  }

  /** `isinstance(v, (int, str))`; `bool` is a subclass of `int`. */
  predicate IsIntOrStr(v: PyValue) {
    v.PyStr? || v.PyInt? || v.PyBool?
  }

  /** `str(v)` of an int, bool or str. */
  function StrOf(v: PyValue): string
    requires IsIntOrStr(v)
  {
    match v
    case PyStr(s) => s
    case PyInt(i) => FormatInt(i)
    case PyBool(b) => if b then "True" else "False"
  }

  /** `str.isdigit()` over ASCII: at least one character, all digits. */
  predicate IsDigitText(s: string) {
    |s| > 0 && AllDigits(s)
  }

  /** `str(task_type)`: the member name of an enum, the text itself otherwise. */
  function TaskText(t: TaskField): string {
    match t
    case TaskEnum(task) => TaskName(task)
    case TaskText(text) => text
  }

  /** The four checks made whatever the task type, in order. */
  predicate FeaturesAreStrings(p: DatasetRequest) {
    (p.features.PyList? || p.features.PyTuple?)
    && forall i :: 0 <= i < |p.features.items| ==> p.features.items[i].PyStr?
  }

  predicate PassesShapeChecks(p: DatasetRequest) {
    FeaturesAreStrings(p) && IsIntOrStr(p.target) && |p.features.items| > 0
  }

  function Reject(status: int, reason: Reason): Rejection {
    Http(HttpException(status, reason))
  }

  /**
   `check_create_dataset`: the first failing check decides the error.  On
   success it returns `payload.features` as the call leaves it: for a
   supervised task the target has been appended to the list in place.
   */
  function CheckCreateDataset(p: DatasetRequest): (r: Result<PyValue, Rejection>)
    ensures r == Err(Reject(NotFound, FeaturesNotSequence)) <==> !(p.features.PyList? || p.features.PyTuple?)
    ensures r == Err(Reject(NotFound, FeatureNotString)) <==>
              (p.features.PyList? || p.features.PyTuple?) && !FeaturesAreStrings(p)
    ensures r == Err(Reject(NotFound, TargetNotIntOrStr)) <==> FeaturesAreStrings(p) && !IsIntOrStr(p.target)
    ensures r == Err(Reject(NotFound, NoFeatures)) <==>
              FeaturesAreStrings(p) && IsIntOrStr(p.target) && |p.features.items| == 0
    ensures r == Err(Reject(NotFound, TargetMissing)) <==>
              PassesShapeChecks(p) && p.taskType.TaskEnum? && IsSupervised(p.taskType.task) && !Truthy(p.target)
    ensures r == Err(TupleConcatenation) <==>
              PassesShapeChecks(p) && p.taskType.TaskEnum? && IsSupervised(p.taskType.task) && Truthy(p.target)
              && p.features.PyTuple?
    ensures r == Err(Reject(InternalError, TargetNotDigits)) <==>
              PassesShapeChecks(p) && p.taskType.TaskEnum? && !IsSupervised(p.taskType.task)
              && !IsDigitText(StrOf(p.target))
    ensures p.taskType.TaskText? ==> (r.Ok? <==> PassesShapeChecks(p))
    ensures r.Ok? ==> PassesShapeChecks(p)
    ensures r.Ok? && p.taskType.TaskEnum? && IsSupervised(p.taskType.task) ==>
              r.value == PyList(p.features.items + [p.target])
    ensures r.Ok? && !(p.taskType.TaskEnum? && IsSupervised(p.taskType.task)) ==> r.value == p.features
  {
    if !(p.features.PyList? || p.features.PyTuple?) then Err(Reject(NotFound, FeaturesNotSequence))
    else if !FeaturesAreStrings(p) then Err(Reject(NotFound, FeatureNotString))
    else if !IsIntOrStr(p.target) then Err(Reject(NotFound, TargetNotIntOrStr))
    else if |p.features.items| == 0 then Err(Reject(NotFound, NoFeatures))
    else
      match p.taskType
      case TaskText(_) => Ok(p.features)
      case TaskEnum(task) =>
        if IsSupervised(task) then
          if !Truthy(p.target) then Err(Reject(NotFound, TargetMissing))
          else if p.features.PyTuple? then Err(TupleConcatenation)
          else Ok(PyList(p.features.items + [p.target]))
        else if !IsDigitText(StrOf(p.target)) then Err(Reject(InternalError, TargetNotDigits))
        else Ok(p.features)
  }

  /** The record `create_dataset` builds from a request that passed the checks. */
  datatype NewDataset = NewDataset(
    name: string, description: string, taskType: TaskField, features: PyValue, target: PyValue,
    startDate: string, endDate: string, timeStart: string, timeEnd: string, interval: int,
    isValid: bool, status: StatusProcess)

  /** `str(uuid)[:8]`. */
  function Prefix8(u: string): (s: string)
    ensures |s| == if |u| < 8 then |u| else 8
    ensures s == u[..|s|]
  {
    if |u| < 8 then u else u[..8]
  }

  /**
   `create_dataset`: the checks, then a PENDING, invalid record named
   `<task_type>-<first 8 characters of the uuid>` that carries the request's
   fields as the checks left them.  The uuid is a parameter.
   */
  function CreateDataset(p: DatasetRequest, uuid: string): (r: Result<NewDataset, Rejection>)
    ensures r.Err? <==> CheckCreateDataset(p).Err?
    ensures r.Err? ==> r.error == CheckCreateDataset(p).error
    ensures r.Ok? ==>
              && r.value.status == Pending && !r.value.isValid
              && r.value.features == CheckCreateDataset(p).value
              && r.value.taskType == p.taskType && r.value.target == p.target
    ensures r.Ok? ==>
              var t := TaskText(p.taskType);
              && |r.value.name| == |t| + 1 + |Prefix8(uuid)|
              && r.value.name[..|t|] == t
              && r.value.name[|t|] == '-'
              && r.value.name[|t| + 1..] == Prefix8(uuid)
  {
    match CheckCreateDataset(p)
    case Err(e) => Err(e)
    case Ok(features) =>
      var name := TaskText(p.taskType) + "-" + Prefix8(uuid);
      Ok(NewDataset(name, p.description, p.taskType, features, p.target,
                    p.startDate, p.endDate, p.timeStart, p.timeEnd, p.interval, false, Pending))
  }

  /**
   A non-supervised task accepts a non-negative integer target and refuses
   a negative one: `str()` of a negative integer starts with `-`.
   */
  lemma IntegerTargetDigits(n: int)
    ensures IsDigitText(StrOf(PyInt(n))) <==> n >= 0
  {
    if n < 0 {
      assert StrOf(PyInt(n))[0] == '-';
    }
  }
}
