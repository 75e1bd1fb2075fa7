/** The request choice of LAZService (frontend/src/app/services/laz-service.ts): which
    HTTP request loadAllFilesWithConfig issues, and the batch size it asks for.
    The request itself is a value; the HTTP client and the URL strings are not
    modelled. Point targets are JavaScript numbers, here `real`s (NaN is not
    modelled). */
module LazService {
  import opened Common

  /** The request loadAllFilesWithConfig issues. */
  datatype DataRequest =
    | AllData(targetPoints: real, useWorkers: bool)        // getAllDataForLargeVolumes
    | Progressive(targetPoints: real, batchSize: nat)      // getProgressiveData

  /** The batch sizes calculateOptimalBatchSize may return. */
  predicate IsBatchSize(b: nat) {
    b == 10 || b == 20 || b == 30 || b == 50
  }

  /** calculateOptimalBatchSize: smaller batches for larger targets. */
  function OptimalBatchSize(targetPoints: real): (b: nat)
    ensures IsBatchSize(b)
  {
    if targetPoints > 2_000_000.0 then 10
    else if targetPoints > 1_000_000.0 then 20
    else if targetPoints > 500_000.0 then 30
    else 50
  }

  /** Each batch size belongs to exactly one band of targets, all bounds strict. */
  lemma BatchSizeBands(t: real)
    ensures OptimalBatchSize(t) == 10 <==> 2_000_000.0 < t
    ensures OptimalBatchSize(t) == 20 <==> 1_000_000.0 < t <= 2_000_000.0
    ensures OptimalBatchSize(t) == 30 <==> 500_000.0 < t <= 1_000_000.0
    ensures OptimalBatchSize(t) == 50 <==> t <= 500_000.0
  {
  }

  /** A larger target never gets a larger batch. */
  lemma BatchSizeAntitone(t: real, u: real)
    requires t <= u
    ensures OptimalBatchSize(u) <= OptimalBatchSize(t)
  {
  }

  /** loadAllFilesWithConfig: streaming throws (it has its own session calls);
      otherwise the progressive or the all-data request. */
  function LoadAllFilesWithConfig(targetPoints: real, useProgressive: bool, useStreaming: bool): (r: Result<DataRequest, string>)
    ensures r.Ok? ==> r.value.targetPoints == targetPoints
  {
    if useStreaming then Err("Para streaming, usa startStreamSession() y getStreamData()")
    else if useProgressive then Ok(Progressive(targetPoints, OptimalBatchSize(targetPoints)))
    else Ok(AllData(targetPoints, true))
  }

  /** The flags decide the request: streaming fails whatever the other flag says; the
      progressive request asks for a batch size that shrinks as the target grows; the
      all-data request always uses the workers. */
  lemma DispatchByFlags(t: real, useProgressive: bool, useStreaming: bool)
    ensures useStreaming <==> LoadAllFilesWithConfig(t, useProgressive, useStreaming).Err?
    ensures !useStreaming && useProgressive ==>
      LoadAllFilesWithConfig(t, useProgressive, useStreaming).value.Progressive? &&
      IsBatchSize(LoadAllFilesWithConfig(t, useProgressive, useStreaming).value.batchSize)
    ensures !useStreaming && !useProgressive ==>
      LoadAllFilesWithConfig(t, useProgressive, useStreaming) == Ok(AllData(t, true))
  {
  }
}
