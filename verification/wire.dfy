/**
 * The JSON documents of the client protocol the server speaks, one datatype
 * per Go struct. A Go pointer field is an `Option`; a slice field the server
 * leaves nil in some responses (`columns`, `data`, `warnings` of QueryResults)
 * is an `Option<seq<_>>`, so that nil (`null`) and empty (`[]`) stay apart;
 * the other slices are plain sequences. `float32` percentages are kept as their
 * 32 bits and never computed with.
 */
module Wire {
  import opened Wrappers

  datatype Code = Code(code: int, name: string)

  datatype Warning = Warning(warningCode: Code, message: string)

  datatype ErrorLocation = ErrorLocation(lineNumber: int, columnNumber: int)

  datatype ErrorInfo = ErrorInfo(code: int, name: string, typeName: string)

  /** A failure owns its cause and its suppressed failures: a finite tree. */
  datatype FailureInfo = FailureInfo(
    typeName: string,
    message: Option<string>,
    cause: Option<FailureInfo>,
    suppressed: seq<FailureInfo>,
    stack: seq<string>,
    errorInfo: Option<ErrorInfo>,
    errorLocation: Option<ErrorLocation>)

  /** Only `errorCode` is mandatory. */
  datatype QueryError = QueryError(
    message: Option<string>,
    sqlState: Option<string>,
    errorCode: int,
    errorName: Option<string>,
    errorType: Option<string>,
    errorLocation: Option<ErrorLocation>,
    failureInfo: Option<FailureInfo>)

  /** A result column: its name and the engine's name for its type. */
  datatype Column = Column(name: string, typeName: string)

  /** Per-stage statistics; a stage owns its sub-stages: a finite tree. */
  datatype StageStats = StageStats(
    stageId: Option<string>,
    state: string,
    done: bool,
    nodes: int,
    totalSplits: int,
    queuedSplits: int,
    runningSplits: int,
    completedSplits: int,
    cpuTimeMillis: int,
    wallTimeMillis: int,
    processedRows: int,
    processedBytes: int,
    physicalInputBytes: int,
    failedTasks: int,
    coordinatorOnly: bool,
    subStages: seq<StageStats>)

  /** The raw bits of a Go `float32`. */
  type Float32 = bv32

  datatype StatementStats = StatementStats(
    state: string,
    queued: bool,
    scheduled: bool,
    progressPercentage: Float32,
    runningPercentage: Float32,
    nodes: int,
    totalSplits: int,
    queuedSplits: int,
    runningSplits: int,
    completedSplits: int,
    cpuTimeMillis: int,
    wallTimeMillis: int,
    queuedTimeMillis: int,
    elapsedTimeMillis: int,
    processedRows: int,
    processedBytes: int,
    physicalInputBytes: int,
    physicalWrittenBytes: int,
    peakMemoryBytes: int,
    spilledBytes: int,
    rootStage: Option<StageStats>)

  /** `StatementStats{}`: every counter zero, no root stage. */
  const ZeroStats: StatementStats :=
    StatementStats("", false, false, 0, 0, 0, 0, 0, 0, 0, 0, 0, 0, 0, 0, 0, 0, 0, 0, 0, None)

  /** The response envelope; `D` is the type of one cell of `data`. */
  datatype QueryResults<D> = QueryResults(
    id: string,
    infoUri: string,
    partialCancelUri: Option<string>,
    nextUri: Option<string>,
    columns: Option<seq<Column>>,
    data: Option<seq<seq<D>>>,
    stats: StatementStats,
    error: Option<QueryError>,
    warnings: Option<seq<Warning>>,
    updateType: Option<string>,
    updateCount: Option<int>)

  // Tree measures.

  /** The number of failures in a failure tree. */
  function Size(f: FailureInfo): (n: nat)
    ensures n >= 1
    ensures f.cause.Some? ==> Size(f.cause.value) < n
    ensures forall i :: 0 <= i < |f.suppressed| ==> Size(f.suppressed[i]) < n
    decreases f
  {
    1 + (match f.cause case None => 0 case Some(c) => Size(c)) + SizeAll(f.suppressed)
  }

  function SizeAll(fs: seq<FailureInfo>): (n: nat)
    ensures forall i :: 0 <= i < |fs| ==> Size(fs[i]) <= n
    decreases fs
  {
    if |fs| == 0 then 0 else Size(fs[0]) + SizeAll(fs[1..])
  }

  /** The length of the longest chain of causes and suppressions, counting `f`. */
  function Depth(f: FailureInfo): nat
    decreases f
  {
    1 + Max(match f.cause case None => 0 case Some(c) => Depth(c), DepthAll(f.suppressed))
  }

  function DepthAll(fs: seq<FailureInfo>): nat
    decreases fs
  {
    if |fs| == 0 then 0 else Max(Depth(fs[0]), DepthAll(fs[1..]))
  }

  function Max(a: nat, b: nat): nat {
    if a < b then b else a
  }

  /** A failure tree is never deeper than it is large. */
  lemma {:induction false} DepthAtMostSize(f: FailureInfo)
    ensures 1 <= Depth(f) <= Size(f)
    decreases f
  {
    match f.cause {
      case None =>
      case Some(c) => DepthAtMostSize(c);
    }
    DepthAllAtMostSizeAll(f.suppressed);
  }

  lemma {:induction false} DepthAllAtMostSizeAll(fs: seq<FailureInfo>)
    ensures DepthAll(fs) <= SizeAll(fs)
    decreases fs
  {
    if |fs| > 0 {
      DepthAtMostSize(fs[0]);
      DepthAllAtMostSizeAll(fs[1..]);
    }
  }

  /** The number of stages in a stage tree. */
  function StageCount(s: StageStats): (n: nat)
    ensures n >= 1
    ensures forall i :: 0 <= i < |s.subStages| ==> StageCount(s.subStages[i]) < n
    decreases s
  {
    1 + StageCountAll(s.subStages)
  }

  function StageCountAll(ss: seq<StageStats>): (n: nat)
    ensures forall i :: 0 <= i < |ss| ==> StageCount(ss[i]) <= n
    decreases ss
  {
    if |ss| == 0 then 0 else StageCount(ss[0]) + StageCountAll(ss[1..])
  }

  /** The number of levels of a stage tree. */
  function StageDepth(s: StageStats): nat
    decreases s
  {
    1 + StageDepthAll(s.subStages)
  }

  function StageDepthAll(ss: seq<StageStats>): nat
    decreases ss
  {
    if |ss| == 0 then 0 else Max(StageDepth(ss[0]), StageDepthAll(ss[1..]))
  }

  /** A stage tree is never deeper than it has stages. */
  lemma {:induction false} StageDepthAtMostCount(s: StageStats)
    ensures 1 <= StageDepth(s) <= StageCount(s)
    decreases s
  {
    StageDepthAllAtMostCountAll(s.subStages);
  }

  lemma {:induction false} StageDepthAllAtMostCountAll(ss: seq<StageStats>)
    ensures StageDepthAll(ss) <= StageCountAll(ss)
    decreases ss
  {
    if |ss| > 0 {
      StageDepthAtMostCount(ss[0]);
      StageDepthAllAtMostCountAll(ss[1..]);
    }
  }

  // JSON keys, as given by the struct tags, in field order.

  const CodeKeys: seq<string> := ["code", "name"]
  const WarningKeys: seq<string> := ["warningCode", "message"]
  const ErrorLocationKeys: seq<string> := ["lineNumber", "columnNumber"]
  const ErrorInfoKeys: seq<string> := ["code", "name", "type"]
  const FailureInfoKeys: seq<string> :=
    ["type", "message", "cause", "suppressed", "stack", "errorInfo", "errorLocation"]
  const QueryErrorKeys: seq<string> :=
    ["message", "sqlState", "errorCode", "errorName", "errorType", "errorLocation", "failureInfo"]
  const ColumnKeys: seq<string> := ["name", "type"]
  const StageStatsKeys: seq<string> :=
    ["stageId", "state", "done", "nodes", "totalSplits", "queuedSplits", "runningSplits",
     "completedSplits", "cpuTimeMillis", "wallTimeMillis", "processedRows", "processedBytes",
     "physicalInputBytes", "failedTasks", "coordinatorOnly", "subStages"]
  const StatementStatsKeys: seq<string> := StatementProgressKeys + StatementVolumeKeys

  const StatementProgressKeys: seq<string> :=
    ["state", "queued", "scheduled", "progressPercentage", "runningPercentage", "nodes",
     "totalSplits", "queuedSplits", "runningSplits", "completedSplits"]

  const StatementVolumeKeys: seq<string> :=
    ["cpuTimeMillis", "wallTimeMillis", "queuedTimeMillis", "elapsedTimeMillis", "processedRows",
     "processedBytes", "physicalInputBytes", "physicalWrittenBytes", "peakMemoryBytes",
     "spilledBytes", "rootStage"]
  const QueryResultsKeys: seq<string> :=
    ["id", "infoUri", "partialCancelUri", "nextUri", "columns", "data", "stats", "error",
     "warnings", "updateType", "updateCount"]

  predicate Distinct(keys: seq<string>) {
    forall i, j :: 0 <= i < j < |keys| ==> keys[i] != keys[j]
  }

  /** No struct uses one JSON key for two fields. */
  lemma KeysDistinct()
    ensures Distinct(CodeKeys) && Distinct(WarningKeys) && Distinct(ErrorLocationKeys)
    ensures Distinct(ErrorInfoKeys) && Distinct(FailureInfoKeys) && Distinct(QueryErrorKeys)
    ensures Distinct(ColumnKeys) && Distinct(StageStatsKeys) && Distinct(StatementStatsKeys)
    ensures Distinct(QueryResultsKeys)
  {
    StageStatsKeysDistinct();
    StatementStatsKeysDistinct();
  }

  lemma StageStatsKeysDistinct()
    ensures Distinct(StageStatsKeys)
  {
  }

  lemma StatementStatsKeysDistinct()
    ensures Distinct(StatementStatsKeys)
  {
    StatementKeyGroupsDistinct();
    StatementKeyGroupsDisjoint();
    DistinctAppend(StatementProgressKeys, StatementVolumeKeys);
  }

  lemma StatementKeyGroupsDistinct()
    ensures Distinct(StatementProgressKeys) && Distinct(StatementVolumeKeys)
  {
  }

  lemma StatementKeyGroupsDisjoint()
    ensures forall i, j :: 0 <= i < |StatementProgressKeys| && 0 <= j < |StatementVolumeKeys| ==>
              StatementProgressKeys[i] != StatementVolumeKeys[j]
  {
  }

  lemma DistinctAppend(a: seq<string>, b: seq<string>)
    requires Distinct(a) && Distinct(b)
    requires forall i, j :: 0 <= i < |a| && 0 <= j < |b| ==> a[i] != b[j]
    ensures Distinct(a + b)
  {
    forall i, j | 0 <= i < j < |a + b|
      ensures (a + b)[i] != (a + b)[j]
    {
      if j < |a| {
        assert (a + b)[i] == a[i] && (a + b)[j] == a[j];
      } else if i < |a| {
        assert (a + b)[i] == a[i] && (a + b)[j] == b[j - |a|];
      } else {
        assert (a + b)[i] == b[i - |a|] && (a + b)[j] == b[j - |a|];
      }
    }
  }
}
