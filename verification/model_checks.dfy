/**
 `check_dataset_pretrained`: before inference, a dataset must name a top
 model and have models, and every model must be active, trained, and have
 its `.pkl` file.  Whether a file exists is the parameter `fileExists`.
 */
module ModelChecks {
  import opened Wrappers
  import opened Schemas
  import opened Http

  /** The fields of a model record the check reads. */
  datatype ModelRecord = ModelRecord(algorithm: string, isActive: bool, status: StatusProcess, path: string)

  datatype Reason =
    | NotTrained
    | NoModels
    | ModelInactive(algorithm: string)
    | ModelNotTrained(algorithm: string, status: StatusProcess)
    | ModelFileMissing(algorithm: string)

  /** The file the check looks for: `<path>.pkl` (under the storage directory, which `fileExists` accounts for). */
  function ModelFile(m: ModelRecord): string {
    m.path + ".pkl"
  }

  /** What is wrong with one model, checked in the source's order; None when it is ready. */
  function ModelFault(m: ModelRecord, fileExists: string -> bool): (e: Option<HttpException<Reason>>)
    ensures e.None? <==> m.isActive && m.status == SuccessTrain && fileExists(ModelFile(m))
    ensures e.Some? ==> e.value.status == InternalError
    ensures !m.isActive ==> e == Some(HttpException(InternalError, ModelInactive(m.algorithm)))
  {
    if !m.isActive then Some(HttpException(InternalError, ModelInactive(m.algorithm)))
    else if m.status != SuccessTrain then Some(HttpException(InternalError, ModelNotTrained(m.algorithm, m.status)))
    else if !fileExists(ModelFile(m)) then Some(HttpException(InternalError, ModelFileMissing(m.algorithm)))
    else None
  }

  /** `not dataset.top_model`: None or the empty string. */
  predicate HasTopModel(topModel: Option<string>) {
    topModel.Some? && |topModel.value| > 0
  }

  /**
   `check_dataset_pretrained`: None when every check passes (the call then
   changes nothing), otherwise the exception it raises.  The top model is
   checked first, then that there are models, then the models in list
   order; the first model with a fault decides.
   */
  method CheckDatasetPretrained(topModel: Option<string>, models: seq<ModelRecord>, fileExists: string -> bool)
    returns (e: Option<HttpException<Reason>>)
    ensures !HasTopModel(topModel) ==> e == Some(HttpException(NotFound, NotTrained))
    ensures HasTopModel(topModel) && |models| == 0 ==> e == Some(HttpException(NotFound, NoModels))
    ensures e.None? <==>
              HasTopModel(topModel) && |models| > 0
              && forall i :: 0 <= i < |models| ==> ModelFault(models[i], fileExists).None?
    ensures HasTopModel(topModel) && |models| > 0 && e.Some? ==>
              exists k :: 0 <= k < |models|
                && (forall i :: 0 <= i < k ==> ModelFault(models[i], fileExists).None?)
                && e == ModelFault(models[k], fileExists)
  {
    if !HasTopModel(topModel) {
      return Some(HttpException(NotFound, NotTrained));
    }
    if |models| == 0 {
      return Some(HttpException(NotFound, NoModels));
    }
    var k := 0;
    while k < |models|
      invariant 0 <= k <= |models|
      invariant forall i :: 0 <= i < k ==> ModelFault(models[i], fileExists).None?
    {
      var fault := ModelFault(models[k], fileExists);
      if fault.Some? {
        return fault;
      }
      k := k + 1;
    }
    return None;
  }
}
