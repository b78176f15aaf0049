/**
 * Model of evlens/concurrency.py: parallelized_data_processing.
 *
 * The Ray runtime is replaced by a sequential model: actor i is a value of
 * type A, its `run` entry point a total function from an actor and one run
 * argument to the worker's outcome, and Ray's collection step reports the
 * first failed task in argument order.
 */
module Concurrency {
  import opened Wrappers

  /** What parallelized_data_processing raises. */
  datatype ProcessingError<+E> =
    | JobsValueError        // ValueError("`n_jobs` must be -1 or a positive integer")
    | ActorIndexError       // IndexError from parallel_actors[i] with more run_args than actors
    | WorkerError(cause: E) // a RayTaskError / RayActorError, re-raised unchanged

  /**
   * The if/elif chain on n_jobs. `cpuCount` is multiprocessing.cpu_count();
   * the ceiling is one less. None stands for the ValueError.
   */
  function ResolveJobs(nJobs: int, cpuCount: int): (r: Option<int>)
    ensures nJobs == -1 ==> r == Some(cpuCount - 1)
    ensures r.Some? ==> r.value <= cpuCount - 1 || nJobs == -1
    ensures r.Some? && r.value != nJobs ==> r.value == cpuCount - 1
    ensures nJobs > cpuCount - 1 ==> r == Some(cpuCount - 1)
    ensures 1 <= nJobs <= cpuCount - 1 ==> r == Some(nJobs)
    ensures r.None? <==> nJobs != -1 && nJobs <= cpuCount - 1 && (nJobs < -1 || nJobs == 0)
  {
    var numCpus := cpuCount - 1;
    if nJobs == -1 then Some(numCpus)
    else if nJobs > numCpus then Some(numCpus)
    else if nJobs < -1 || nJobs == 0 then None
    else Some(nJobs)
  }

  /** On a host with at least two CPUs the worker count lies in [1, cpu_count() - 1]. */
  lemma ResolvedJobsInRange(nJobs: int, cpuCount: int)
    requires cpuCount >= 2
    ensures ResolveJobs(nJobs, cpuCount).Some? ==> 1 <= ResolveJobs(nJobs, cpuCount).value <= cpuCount - 1
  {
  }

  /** On any real host (cpu_count() >= 1), exactly 0 and values below -1 are rejected. */
  lemma RejectedJobs(nJobs: int, cpuCount: int)
    requires cpuCount >= 1
    ensures ResolveJobs(nJobs, cpuCount).None? <==> nJobs == 0 || nJobs < -1
  {
  }

  /** A count in range is returned unchanged, so resolving twice changes nothing. */
  lemma ResolveJobsIdempotent(nJobs: int, cpuCount: int)
    requires cpuCount >= 2
    requires ResolveJobs(nJobs, cpuCount).Some?
    ensures ResolveJobs(ResolveJobs(nJobs, cpuCount).value, cpuCount) == ResolveJobs(nJobs, cpuCount)
  {
  }

  lemma ResolveJobsExamples()
    ensures ResolveJobs(-1, 8) == Some(7)
    ensures ResolveJobs(10, 8) == Some(7)
    ensures ResolveJobs(3, 8) == Some(3)
    ensures ResolveJobs(0, 8) == None && ResolveJobs(-2, 8) == None
  {
  }

  /** Task i is the first in list order that failed, and it failed with e. */
  ghost predicate FirstFailureAt<R, E>(outcomes: seq<Result<R, E>>, i: int, e: E) {
    0 <= i < |outcomes| && outcomes[i] == Failure(e) &&
    forall j :: 0 <= j < i ==> outcomes[j].Success?
  }

  /**
   * ray.get over the list of task outcomes: every value in list order, or
   * the error of the first failed task.
   */
  function Gather<R, E>(outcomes: seq<Result<R, E>>): (r: Result<seq<R>, E>)
    ensures r.Success? <==> forall i :: 0 <= i < |outcomes| ==> outcomes[i].Success?
    ensures r.Success? ==> (|r.value| == |outcomes| &&
      forall i :: 0 <= i < |outcomes| ==> outcomes[i] == Success(r.value[i]))
    ensures r.Failure? ==> exists i :: FirstFailureAt(outcomes, i, r.error)
  {
    if |outcomes| == 0 then Success([])
    else match outcomes[0]
      case Failure(e) => assert FirstFailureAt(outcomes, 0, e); Failure(e)
      case Success(v) =>
        match Gather(outcomes[1..])
        case Failure(e) =>
          assert forall j :: 1 <= j < |outcomes| ==> outcomes[j] == outcomes[1..][j - 1];
          assert forall i :: FirstFailureAt(outcomes[1..], i, e) ==> FirstFailureAt(outcomes, i + 1, e);
          Failure(e)
        case Success(vs) =>
          assert forall j :: 1 <= j < |outcomes| ==> outcomes[j] == outcomes[1..][j - 1];
          Success([v] + vs)
  }

  /**
   * The comprehension `parallel_actors[i].run.remote(run_arg) for i, run_arg
   * in enumerate(run_args)` and the ray.get around it: run_args[i] goes to
   * actor i; more run_args than actors raise IndexError before ray.get.
   */
  /** Outcome of actor i's run on run_args[i], for every argument that has an actor. */
  function Calls<A, X, R, E>(actors: seq<A>, runArgs: seq<X>, run: (A, X) -> Result<R, E>): (calls: seq<Result<R, E>>)
    requires |runArgs| <= |actors|
    ensures |calls| == |runArgs| && forall i :: 0 <= i < |runArgs| ==> calls[i] == run(actors[i], runArgs[i])
  {
    seq(|runArgs|, i requires 0 <= i < |runArgs| => run(actors[i], runArgs[i]))
  }

  function Dispatch<A, X, R, E>(actors: seq<A>, runArgs: seq<X>, run: (A, X) -> Result<R, E>): (r: Result<seq<R>, ProcessingError<E>>)
    ensures |runArgs| > |actors| <==> r == Failure(ActorIndexError)
    ensures r.Success? <==> |runArgs| <= |actors| && forall i :: 0 <= i < |runArgs| ==> run(actors[i], runArgs[i]).Success?
    ensures r.Success? ==> (|r.value| == |runArgs| &&
      forall i :: 0 <= i < |runArgs| ==> run(actors[i], runArgs[i]) == Success(r.value[i]))
    ensures r.Failure? && r.error.WorkerError? ==>
      exists i :: FirstFailureAt(Calls(actors, runArgs, run), i, r.error.cause)
    ensures r.Failure? ==> !r.error.JobsValueError?
  {
    if |runArgs| > |actors| then Failure(ActorIndexError)
    else
      match Gather(Calls(actors, runArgs, run))
      case Success(vs) => Success(vs)
      case Failure(e) => Failure(WorkerError(e))
  }

  /** What one call of parallelized_data_processing does, in order. */
  datatype Processing<+R, +E> = Processing(
    runtimeCpus: Option<int>,    // num_cpus passed to ray.init; None when ray.init is never reached
    outcome: Result<seq<R>, ProcessingError<E>>,
    shutDown: bool)              // whether ray.shutdown() is reached

  function ParallelizedDataProcessing<A, X, R, E>(
    actors: seq<A>, runArgs: seq<X>, nJobs: int, cpuCount: int, run: (A, X) -> Result<R, E>): (p: Processing<R, E>)
    ensures p.runtimeCpus == ResolveJobs(nJobs, cpuCount)
    ensures p.runtimeCpus.None? <==> p.outcome == Failure(JobsValueError)
    ensures p.shutDown <==> p.outcome.Success?
    ensures p.runtimeCpus.Some? ==> p.outcome == Dispatch(actors, runArgs, run)
  {
    match ResolveJobs(nJobs, cpuCount)
    case None => Processing(None, Failure(JobsValueError), false)
    case Some(n) =>
      var results := Dispatch(actors, runArgs, run);
      Processing(Some(n), results, results.Success?)
  }

  /** The results come back in run_args order, one per argument, whatever the worker count. */
  lemma ResultsInArgumentOrder<A, X, R, E>(
    actors: seq<A>, runArgs: seq<X>, nJobs: int, cpuCount: int, run: (A, X) -> Result<R, E>, i: int)
    requires ParallelizedDataProcessing(actors, runArgs, nJobs, cpuCount, run).outcome.Success?
    requires 0 <= i < |runArgs|
    ensures var vs := ParallelizedDataProcessing(actors, runArgs, nJobs, cpuCount, run).outcome.value;
      |vs| == |runArgs| && run(actors[i], runArgs[i]) == Success(vs[i])
  {
  }

  /** A worker error is re-raised unchanged: it is the error of the first failing argument. */
  lemma WorkerErrorReraised<A, X, R, E>(
    actors: seq<A>, runArgs: seq<X>, nJobs: int, cpuCount: int, run: (A, X) -> Result<R, E>, k: int, e: E)
    requires ResolveJobs(nJobs, cpuCount).Some?
    requires |runArgs| <= |actors| && 0 <= k < |runArgs|
    requires run(actors[k], runArgs[k]) == Failure(e)
    requires forall j :: 0 <= j < k ==> run(actors[j], runArgs[j]).Success?
    ensures ParallelizedDataProcessing(actors, runArgs, nJobs, cpuCount, run).outcome == Failure(WorkerError(e))
    ensures !ParallelizedDataProcessing(actors, runArgs, nJobs, cpuCount, run).shutDown
  {
  }
}
