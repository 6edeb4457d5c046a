/**
 * ZFSL's sealed `OperationResult` union and the `ProcessingState` record,
 * a record with final fields that accumulates one result per processed file.
 */
module Processing {
  import opened JavaLang
  import opened Paths

  /** The outcome of handling one file; the `Throwable cause` of `Error` is not modelled. */
  datatype OperationResult =
    | Success(source: Path, target: Path)
    | Skip(source: Path, reason: string)
    | Error(source: Path, message: string)

  /** The three outcome counters of a `ProcessingState`. */
  datatype Tally = Copied | Skipped | Errors

  /** The counter that the `switch` in `withResult` bumps for a result of this variant. */
  function TallyOf(r: OperationResult): Tally {
    match r
    case Success(_, _) => Copied
    case Skip(_, _) => Skipped
    case Error(_, _) => Errors
  }

  /**
   * The record as Java has it: four `int` counters and the ordered results.
   * Its canonical constructor is public and checks nothing, so any field
   * values can occur; `Consistent` names the states the operations keep.
   */
  datatype ProcessingState = ProcessingState(
    totalFiles: Int32,
    copiedFiles: Int32,
    skippedFiles: Int32,
    errorFiles: Int32,
    results: seq<OperationResult>)

  function Counter(s: ProcessingState, t: Tally): Int32 {
    match t
    case Copied => s.copiedFiles
    case Skipped => s.skippedFiles
    case Errors => s.errorFiles
  }

  /** How many of `rs` are of the variant that feeds counter `t`. */
  function Count(rs: seq<OperationResult>, t: Tally): (n: nat)
    ensures n <= |rs|
  {
    if rs == [] then 0
    else Count(rs[..|rs| - 1], t) + (if TallyOf(rs[|rs| - 1]) == t then 1 else 0)
  }

  /** Each outcome counter equals the number of results of its variant. */
  predicate Consistent(s: ProcessingState) {
    && s.copiedFiles == Count(s.results, Copied)
    && s.skippedFiles == Count(s.results, Skipped)
    && s.errorFiles == Count(s.results, Errors)
  }

  /** `ProcessingState.initial()`: nothing found and nothing processed yet. */
  function Initial(): (s: ProcessingState)
    ensures s.totalFiles == 0 && s.results == []
    ensures Consistent(s)
    ensures forall t :: Counter(s, t) == 0
  {
    ProcessingState(0, 0, 0, 0, [])
  }

  /** `withTotalFiles(total)`: replaces the total and keeps everything else. */
  function WithTotalFiles(s: ProcessingState, total: Int32): (r: ProcessingState)
    ensures r.totalFiles == total
    ensures r.results == s.results
    ensures forall t :: Counter(r, t) == Counter(s, t)
    ensures Consistent(r) <==> Consistent(s)
  {
    s.(totalFiles := total)
  }

  /**
   * `withResult(result)`: a copy of the results with `result` appended, and
   * the one counter chosen by the variant of `result` incremented with Java
   * `int` arithmetic; the total and the other two counters are kept. The
   * state it is called on is a value and is left as it was.
   */
  function WithResult(s: ProcessingState, result: OperationResult): (r: ProcessingState)
    ensures r.results == s.results + [result]
    ensures r.totalFiles == s.totalFiles
    ensures forall t :: Counter(r, t) == if t == TallyOf(result) then Inc32(Counter(s, t)) else Counter(s, t)
  {
    var newResults := s.results + [result];
    match result
    case Success(_, _) => ProcessingState(s.totalFiles, Inc32(s.copiedFiles), s.skippedFiles, s.errorFiles, newResults)
    case Skip(_, _) => ProcessingState(s.totalFiles, s.copiedFiles, Inc32(s.skippedFiles), s.errorFiles, newResults)
    case Error(_, _) => ProcessingState(s.totalFiles, s.copiedFiles, s.skippedFiles, Inc32(s.errorFiles), newResults)
  }

  /** Every result feeds exactly one counter, so the three counts add up to the length. */
  lemma {:induction false} CountsPartition(rs: seq<OperationResult>)
    ensures Count(rs, Copied) + Count(rs, Skipped) + Count(rs, Errors) == |rs|
  {
    if rs != [] {
      CountsPartition(rs[..|rs| - 1]);
    }
  }

  /** In a consistent state the three outcome counters sum to the number of results. */
  lemma ConsistentCountersSum(s: ProcessingState)
    requires Consistent(s)
    ensures s.copiedFiles + s.skippedFiles + s.errorFiles == |s.results|
  {
    CountsPartition(s.results);
  }

  /**
   * `withResult` keeps a consistent state consistent as long as the results
   * stay within what a Java `ArrayList` can hold; then no counter wraps and
   * exactly one counter grows by one.
   */
  lemma WithResultKeepsConsistent(s: ProcessingState, result: OperationResult)
    requires Consistent(s) && |s.results| < INT32_MAX
    ensures Consistent(WithResult(s, result))
    ensures Counter(WithResult(s, result), TallyOf(result)) == Counter(s, TallyOf(result)) + 1
  {
  }

  /** One call on a `ProcessingState`. */
  datatype Step = SetTotal(total: Int32) | Record(result: OperationResult)

  function Apply(s: ProcessingState, step: Step): ProcessingState {
    match step
    case SetTotal(n) => WithTotalFiles(s, n)
    case Record(res) => WithResult(s, res)
  }

  /** The state reached from `initial()` by the calls in `steps`, in order. */
  function Run(steps: seq<Step>): ProcessingState {
    if steps == [] then Initial() else Apply(Run(steps[..|steps| - 1]), steps[|steps| - 1])
  }

  /** The results recorded by `steps`, in order. */
  function Recorded(steps: seq<Step>): seq<OperationResult> {
    if steps == [] then []
    else
      var init := Recorded(steps[..|steps| - 1]);
      match steps[|steps| - 1]
      case SetTotal(_) => init
      case Record(res) => init + [res]
  }

  /** The argument of the last `withTotalFiles` call in `steps`, or 0 if there is none. */
  function LastTotal(steps: seq<Step>): Int32 {
    if steps == [] then 0
    else
      match steps[|steps| - 1]
      case SetTotal(n) => n
      case Record(_) => LastTotal(steps[..|steps| - 1])
  }

  /**
   * Every state built from `initial()` by `withTotalFiles` and `withResult`
   * holds exactly the recorded results in call order, the last total set,
   * counters that each count their variant, and counters that sum to the
   * number of results.
   */
  lemma {:induction false} RunInvariant(steps: seq<Step>)
    requires |Recorded(steps)| <= INT32_MAX
    ensures Run(steps).results == Recorded(steps)
    ensures Run(steps).totalFiles == LastTotal(steps)
    ensures Consistent(Run(steps))
    ensures Run(steps).copiedFiles + Run(steps).skippedFiles + Run(steps).errorFiles == |Recorded(steps)|
  {
    if steps != [] {
      var init := steps[..|steps| - 1];
      RunInvariant(init);
      match steps[|steps| - 1]
      case SetTotal(_) =>
      case Record(res) => WithResultKeepsConsistent(Run(init), res);
    }
    ConsistentCountersSum(Run(steps));
  }
}
