/** One batch run of the controller: a job per solver, handed to the chosen
    scheduler; then, for every result in the order the scheduler returns
    them, the residual and the equation checks, one line in the job log and
    one result event on the bus, between a "running" and a "done" status
    event. */
module Batch {
  import opened Wrappers
  import opened Numeric
  import opened Elimination
  import opened Runners
  import opened SolverFactory
  import opened Jobs
  import opened Ordering
  import opened Schedulers
  import opened SchedulerClasses
  import opened DomainTypes
  import Config
  import Text
  import opened CircuitManager
  import opened Controller
  import opened Observer
  import opened MetricsLog

  /** The two topics the controller publishes on (the values of `Topics`). */
  const STATUS_TOPIC := "status"
  const RESULT_TOPIC := "result"

  /** The events a batch publishes: its status, and each result with its
      residual (None for NaN) and its equation checks. */
  datatype Event =
    | StatusEvent(status: string, scheduler: string, jobs: nat)
    | ResultEvent(jobId: string, methodName: string, scheduler: string, scenario: string,
                  elapsedMs: nat, waitingMs: int, turnaroundMs: int, residual: Option<real>,
                  x: Vector, equations: seq<EquationCheck>)

  /** `ComputedResult`: a scheduler result with what the controller computed
      for it. */
  datatype ComputedResult = ComputedResult(result: JobResult, residual: Option<real>, schedulerCode: string,
                                           scenarioName: string, equations: seq<EquationCheck>)

  /** What the logger formats itself from a result: the timestamp, and the
      ten measures as text (the three timings, the six system readings of
      that moment, the residual). */
  type Render = ComputedResult -> (string, seq<string>)

  /** What a batch cannot see: the job ids (random in the source), the
      library's answer for the system, the clock reading at the start and
      the time each runner step takes, the pool size, the logger's
      rendering, whether the log file can be written, and which consumers
      throw. */
  datatype Environment = Environment(ids: seq<string>, libraryAnswer: Result<Vector>, now: nat, times: StepTimes,
                                     parallelism: int, render: Render, writable: bool, throws: ConsumerId -> bool)

  /** The environment suits a list of solvers: one id per solver, and ten
      measures in every rendered line. */
  ghost predicate Suits(env: Environment, solvers: seq<SolverKind>) {
    |env.ids| == |solvers| && forall c :: |env.render(c).1| == 10
  }

  // ------------------------------------------------------------------ jobs

  /** The job the loop builds for one solver: the solver's runner for
      (A, b), or that runner's failure; the job carries the solver's name
      and the cost estimate for the system's size. */
  function JobFor(k: SolverKind, id: string, spec: CircuitSpec, libraryAnswer: Result<Vector>, created: nat): (r: Result<JobState>)
    ensures r.Ok? ==> ValidJob(r.value) && NotAfter(r.value, created)
  {
    var name := SolverName(k);
    var runner := RunnerForSolver(name, spec.a, spec.b, libraryAnswer);
    if runner.Err? then Err(runner.error)
    else Ok(NewJob(id, name, Some(EstimateCost(name, |spec.a|)), created, runner.value))
  }

  /** The values of a list of results, or its first failure. */
  function AllOk<T>(rs: seq<Result<T>>): Result<seq<T>>
    decreases |rs|
  {
    if rs == [] then Ok([])
    else
      var init := AllOk(rs[..|rs| - 1]);
      var last := rs[|rs| - 1];
      if init.Err? then init
      else if last.Err? then Err(last.error)
      else Ok(init.value + [last.value])
  }

  /** The values are there exactly when every result holds one, and then
      they are those values, in order. */
  lemma {:induction false} AllOkEach<T>(rs: seq<Result<T>>)
    ensures AllOk(rs).Ok? <==> forall k :: 0 <= k < |rs| ==> rs[k].Ok?
    ensures AllOk(rs).Ok? ==> |AllOk(rs).value| == |rs| && forall k :: 0 <= k < |rs| ==> AllOk(rs).value[k] == rs[k].value
    decreases |rs|
  {
    if rs != [] {
      var n := |rs| - 1;
      AllOkEach(rs[..n]);
      assert forall k :: 0 <= k < n ==> rs[..n][k] == rs[k];
    }
  }

  /** A failure among the first i results is the failure of the whole list. */
  lemma {:induction false} AllOkPrefixFails<T>(rs: seq<Result<T>>, i: nat)
    requires i <= |rs| && AllOk(rs[..i]).Err?
    ensures AllOk(rs) == AllOk(rs[..i])
    decreases |rs|
  {
    var n := |rs|;
    if i == n {
      assert rs[..i] == rs;
    } else {
      assert rs[..n - 1][..i] == rs[..i];
      AllOkPrefixFails(rs[..n - 1], i);
    }
  }

  lemma AllOkStep<T>(rs: seq<Result<T>>, i: nat, vs: seq<T>)
    requires i < |rs| && AllOk(rs[..i]) == Ok(vs)
    ensures rs[i].Err? ==> AllOk(rs[..i + 1]) == Err(rs[i].error)
    ensures rs[i].Ok? ==> AllOk(rs[..i + 1]) == Ok(vs + [rs[i].value])
  {
    assert rs[..i + 1][..i] == rs[..i];
  }

  /** f applied to each solver and its job id, in order. */
  function MapSolvers<R>(f: (SolverKind, string) -> R, solvers: seq<SolverKind>, ids: seq<string>): (r: seq<R>)
    requires |ids| == |solvers|
    ensures |r| == |solvers|
    decreases |solvers|
  {
    if solvers == [] then []
    else
      var n := |solvers| - 1;
      MapSolvers(f, solvers[..n], ids[..n]) + [f(solvers[n], ids[n])]
  }

  /** Entry k is f of solver k and its id. */
  lemma {:induction false} MapSolversAt<R>(f: (SolverKind, string) -> R, solvers: seq<SolverKind>, ids: seq<string>, k: nat)
    requires |ids| == |solvers| && k < |solvers|
    ensures MapSolvers(f, solvers, ids)[k] == f(solvers[k], ids[k])
    decreases |solvers|
  {
    var n := |solvers| - 1;
    if k < n {
      MapSolversAt(f, solvers[..n], ids[..n], k);
      assert solvers[..n][k] == solvers[k] && ids[..n][k] == ids[k];
    }
  }

  /** The job the loop would build for each solver. */
  function JobsOf(solvers: seq<SolverKind>, ids: seq<string>, spec: CircuitSpec, libraryAnswer: Result<Vector>, created: nat)
    : (r: seq<Result<JobState>>)
    requires |ids| == |solvers|
    ensures |r| == |solvers|
  {
    MapSolvers((k, id) => JobFor(k, id, spec, libraryAnswer, created), solvers, ids)
  }

  lemma JobsOfAt(solvers: seq<SolverKind>, ids: seq<string>, spec: CircuitSpec, libraryAnswer: Result<Vector>, created: nat, k: nat)
    requires |ids| == |solvers| && k < |solvers|
    ensures JobsOf(solvers, ids, spec, libraryAnswer, created)[k] == JobFor(solvers[k], ids[k], spec, libraryAnswer, created)
  {
    MapSolversAt((k, id) => JobFor(k, id, spec, libraryAnswer, created), solvers, ids, k);
  }

  /** The jobs of a batch, in solver order, or the first solver's failure. */
  function JobsFor(solvers: seq<SolverKind>, ids: seq<string>, spec: CircuitSpec, libraryAnswer: Result<Vector>, created: nat)
    : Result<seq<JobState>>
    requires |ids| == |solvers|
  {
    AllOk(JobsOf(solvers, ids, spec, libraryAnswer, created))
  }

  /** The jobs are built exactly when every solver's runner is, and then
      they are one job per solver, in solver order, each with its solver's
      runner and cost estimate. */
  lemma JobsForEach(solvers: seq<SolverKind>, ids: seq<string>, spec: CircuitSpec, libraryAnswer: Result<Vector>, created: nat)
    requires |ids| == |solvers|
    ensures var r := JobsFor(solvers, ids, spec, libraryAnswer, created);
            r.Ok? <==> forall k :: 0 <= k < |solvers| ==> JobFor(solvers[k], ids[k], spec, libraryAnswer, created).Ok?
    ensures var r := JobsFor(solvers, ids, spec, libraryAnswer, created);
            r.Ok? ==> |r.value| == |solvers|
                      && forall k :: 0 <= k < |solvers| ==> r.value[k] == JobFor(solvers[k], ids[k], spec, libraryAnswer, created).value
  {
    AllOkEach(JobsOf(solvers, ids, spec, libraryAnswer, created));
    forall k | 0 <= k < |solvers| {
      JobsOfAt(solvers, ids, spec, libraryAnswer, created, k);
    }
  }

  /** The jobs are ready to be scheduled at their creation time. */
  lemma JobsReady(solvers: seq<SolverKind>, ids: seq<string>, spec: CircuitSpec, libraryAnswer: Result<Vector>, created: nat)
    requires |ids| == |solvers| && JobsFor(solvers, ids, spec, libraryAnswer, created).Ok?
    ensures Ready(JobsFor(solvers, ids, spec, libraryAnswer, created).value, created)
  {
    var rs := JobsOf(solvers, ids, spec, libraryAnswer, created);
    var js := AllOk(rs).value;
    AllOkEach(rs);
    forall j | j in js
      ensures ValidJob(j) && NotAfter(j, created)
    {
      var k :| 0 <= k < |js| && js[k] == j;
      JobsOfAt(solvers, ids, spec, libraryAnswer, created, k);
    }
  }

  /** The loop of `runBatch` that builds the jobs: a fresh job per solver,
      in solver order, or the failure of the first solver whose runner
      cannot be built. */
  method BuildJobs(solvers: seq<SolverKind>, ids: seq<string>, spec: CircuitSpec, libraryAnswer: Result<Vector>, created: nat)
    returns (r: Result<seq<Job>>)
    requires |ids| == |solvers|
    ensures r.Err? ==> JobsFor(solvers, ids, spec, libraryAnswer, created) == Err(r.error)
    ensures r.Ok? ==> JobsFor(solvers, ids, spec, libraryAnswer, created) == Ok(StatesOf(r.value))
    ensures r.Ok? ==> Distinct(r.value) && forall j :: j in r.value ==> fresh(j)
  {
    ghost var rs := JobsOf(solvers, ids, spec, libraryAnswer, created);
    var jobs: seq<Job> := [];
    var i := 0;
    while i < |solvers|
      invariant i <= |solvers|
      invariant Distinct(jobs) && forall j :: j in jobs ==> fresh(j)
      invariant AllOk(rs[..i]) == Ok(StatesOf(jobs))
    {
      var next := AddJob(jobs, solvers, ids, spec, libraryAnswer, created, i);
      if next.Err? {
        AllOkPrefixFails(rs, i + 1);
        return Err(next.error);
      }
      forall j | j in next.value
        ensures fresh(j)
      {
        var k :| 0 <= k < |next.value| && next.value[k] == j;
        if k < |jobs| {
          assert j == next.value[..|jobs|][k] == jobs[k];
          assert j in jobs;
        } else {
          assert j == next.value[|jobs|];
        }
      }
      jobs := next.value;
      i := i + 1;
    }
    assert rs[..i] == rs;
    r := Ok(jobs);
  }

  /** One iteration: the jobs so far followed by the solver's job. */
  method AddJob(jobs: seq<Job>, solvers: seq<SolverKind>, ids: seq<string>, spec: CircuitSpec, libraryAnswer: Result<Vector>, created: nat, i: nat)
    returns (r: Result<seq<Job>>)
    requires |ids| == |solvers| && i < |solvers|
    requires Distinct(jobs) && AllOk(JobsOf(solvers, ids, spec, libraryAnswer, created)[..i]) == Ok(StatesOf(jobs))
    ensures r.Err? ==> AllOk(JobsOf(solvers, ids, spec, libraryAnswer, created)[..i + 1]) == Err(r.error)
    ensures r.Ok? ==> AllOk(JobsOf(solvers, ids, spec, libraryAnswer, created)[..i + 1]) == Ok(StatesOf(r.value))
    ensures r.Ok? ==> Distinct(r.value) && |r.value| == |jobs| + 1 && r.value[..|jobs|] == jobs && fresh(r.value[|jobs|])
  {
    ghost var rs := JobsOf(solvers, ids, spec, libraryAnswer, created);
    AllOkStep(rs, i, StatesOf(jobs));
    var job := BuildJobAt(solvers, ids, spec, libraryAnswer, created, i);
    if job.Err? {
      return Err(job.error);
    }
    StatesOfAppend(jobs, [job.value]);
    StatesOfSingle(job.value);
    r := Ok(jobs + [job.value]);
    assert r.value[..|jobs|] == jobs;
  }

  /** One iteration: the solver's runner, and a new job around it. */
  method BuildJobAt(solvers: seq<SolverKind>, ids: seq<string>, spec: CircuitSpec, libraryAnswer: Result<Vector>, created: nat, i: nat)
    returns (r: Result<Job>)
    requires |ids| == |solvers| && i < |solvers|
    ensures r.Err? ==> JobsOf(solvers, ids, spec, libraryAnswer, created)[i] == Err(r.error)
    ensures r.Ok? ==> JobsOf(solvers, ids, spec, libraryAnswer, created)[i] == Ok(r.value.State()) && fresh(r.value)
  {
    JobsOfAt(solvers, ids, spec, libraryAnswer, created, i);
    var name := SolverName(solvers[i]);
    var runner := RunnerForSolver(name, spec.a, spec.b, libraryAnswer);
    if runner.Err? {
      return Err(runner.error);
    }
    var job := new Job(ids[i], name, spec.a, spec.b, runner.value, Some(EstimateCost(name, |spec.a|)), created);
    r := Ok(job);
  }


  // -------------------------------------------------------------- dispatch

  /** The estimate a job state carries. */
  function StateEstimate(j: JobState): Option<int> {
    j.estimatedMs
  }

  lemma SortedReady(js: seq<JobState>, now: nat)
    requires Ready(js, now)
    ensures Ready(SortByKey(js, StateEstimate), now)
  {
    var ys := SortByKey(js, StateEstimate);
    forall j | j in ys
      ensures j in js
    {
      assert j in multiset(ys);
    }
  }

  /** `schedulerForType`, then `submit` of every job and `runAll`: the
      results of the chosen policy over the jobs in submission order; the
      round-robin scheduler has the default quantum. */
  function Scheduled(t: SchedulerType, js: seq<JobState>, parallelism: int, now: nat, times: StepTimes): (r: (Result<seq<JobResult>>, nat))
    requires Ready(js, now)
  {
    match t
    case FCFS => FirstComeFirstServed(js, now, times)
    case SJF =>
      SortedReady(js, now);
      FirstComeFirstServed(SortByKey(js, StateEstimate), now, times)
    case RR => RoundRobin(js, Config.QUANTUM_MS, Config.Max(1, parallelism), now, times)
  }

  lemma StatesOfSingle(j: Job)
    ensures StatesOf([j]) == [j.State()]
  {
    assert [j][1..] == [];
  }

  /** Inserting a job and taking the states commute. */
  lemma {:induction false} InsertStates(x: Job, sorted: seq<Job>)
    ensures StatesOf(Insert(x, sorted, EstimateOf)) == Insert(x.State(), StatesOf(sorted), StateEstimate)
    decreases |sorted|
  {
    StatesOfSingle(x);
    if sorted != [] {
      var s := StatesOf(sorted);
      assert s == [sorted[0].State()] + StatesOf(sorted[1..]);
      assert s[0] == sorted[0].State() && s[1..] == StatesOf(sorted[1..]);
      if KeyLe(EstimateOf(sorted[0]), EstimateOf(x)) {
        InsertStates(x, sorted[1..]);
        StatesOfAppend([sorted[0]], Insert(x, sorted[1..], EstimateOf));
        StatesOfSingle(sorted[0]);
      } else {
        StatesOfAppend([x], sorted);
      }
    }
  }

  /** Sorting the jobs by estimate and taking their states gives the states
      sorted by estimate. */
  lemma {:induction false} SortStates(js: seq<Job>)
    ensures StatesOf(SortByKey(js, EstimateOf)) == SortByKey(StatesOf(js), StateEstimate)
    decreases |js|
  {
    if js != [] {
      var n := |js| - 1;
      var s := StatesOf(js);
      SortStates(js[..n]);
      StatesOfParts(js, n);
      StatesOfIndex(js);
      assert s[..|s| - 1] == StatesOf(js[..n]) && s[|s| - 1] == js[n].State();
      InsertStates(js[n], SortByKey(js[..n], EstimateOf));
    }
  }

  /** Submits the jobs to a scheduler in order. */
  method SubmitFcfs(s: FcfsScheduler, js: seq<Job>)
    modifies s
    ensures s.jobs == old(s.jobs) + js
  {
    var i := 0;
    while i < |js|
      invariant i <= |js| && s.jobs == old(s.jobs) + js[..i]
    {
      s.Submit(js[i]);
      assert js[..i + 1] == js[..i] + [js[i]];
      i := i + 1;
    }
    assert js[..i] == js;
  }

  method SubmitSjf(s: SjfScheduler, js: seq<Job>)
    modifies s
    ensures s.jobs == old(s.jobs) + js
  {
    var i := 0;
    while i < |js|
      invariant i <= |js| && s.jobs == old(s.jobs) + js[..i]
    {
      s.Submit(js[i]);
      assert js[..i + 1] == js[..i] + [js[i]];
      i := i + 1;
    }
    assert js[..i] == js;
  }

  method SubmitRoundRobin(s: RoundRobinScheduler, js: seq<Job>)
    modifies s
    ensures s.queue == old(s.queue) + js
  {
    var i := 0;
    while i < |js|
      invariant i <= |js| && s.queue == old(s.queue) + js[..i]
    {
      s.Submit(js[i]);
      assert js[..i + 1] == js[..i] + [js[i]];
      i := i + 1;
    }
    assert js[..i] == js;
  }

  /** A fresh first-come-first-served scheduler, every job submitted to it
      in order, and its `runAll`. */
  method DispatchFcfs(js: seq<Job>, now: nat, times: StepTimes) returns (r: Result<seq<JobResult>>, clock: nat)
    requires Distinct(js) && Ready(StatesOf(js), now)
    modifies js
    ensures (r, clock) == FirstComeFirstServed(old(StatesOf(js)), now, times)
  {
    var s := new FcfsScheduler();
    SubmitFcfs(s, js);
    assert s.jobs == js;
    StatesKept(js);
    r, clock := s.RunAll(now, times);
  }

  /** The same with a shortest-job-first scheduler: the jobs run in order
      of their estimates. */
  method DispatchSjf(js: seq<Job>, now: nat, times: StepTimes) returns (r: Result<seq<JobResult>>, clock: nat)
    requires Distinct(js) && Ready(StatesOf(js), now)
    modifies js
    ensures Ready(SortByKey(old(StatesOf(js)), StateEstimate), now)
    ensures (r, clock) == FirstComeFirstServed(SortByKey(old(StatesOf(js)), StateEstimate), now, times)
  {
    SortedReady(StatesOf(js), now);
    var s := new SjfScheduler();
    SubmitSjf(s, js);
    assert s.jobs == js;
    StatesKept(js);
    SortStates(js);
    r, clock := s.RunAll(now, times);
  }

  /** The same with a round-robin scheduler of the default quantum. */
  method DispatchRoundRobin(js: seq<Job>, parallelism: int, now: nat, times: StepTimes) returns (r: Result<seq<JobResult>>, clock: nat)
    requires Distinct(js) && Ready(StatesOf(js), now)
    modifies js
    ensures (r, clock) == RoundRobin(old(StatesOf(js)), Config.QUANTUM_MS, Config.Max(1, parallelism), now, times)
  {
    var s := new RoundRobinScheduler.Default();
    SubmitRoundRobin(s, js);
    assert s.queue == js;
    StatesKept(js);
    r, clock := s.RunAll(parallelism, now, times);
  }

  /** `schedulerForType`, every job submitted in order, and `runAll`. */
  method Dispatch(t: SchedulerType, js: seq<Job>, parallelism: int, now: nat, times: StepTimes)
    returns (r: Result<seq<JobResult>>, clock: nat)
    requires Distinct(js) && Ready(StatesOf(js), now)
    modifies js
    ensures (r, clock) == Scheduled(t, old(StatesOf(js)), parallelism, now, times)
  {
    match t
    case FCFS => r, clock := DispatchFcfs(js, now, times);
    case SJF => r, clock := DispatchSjf(js, now, times);
    case RR => r, clock := DispatchRoundRobin(js, parallelism, now, times);
  }

  // ---------------------------------------------------------------- report

  /** What the controller computes for one result. */
  function Computed(res: JobResult, code: string, spec: CircuitSpec): ComputedResult {
    ComputedResult(res, Residual(spec.a, res.solution, spec.b), code, spec.name, Checks(spec.a, res.solution, spec.b))
  }

  /** f applied to each element, in order. */
  function MapSeq<A, B>(f: A -> B, xs: seq<A>): (r: seq<B>)
    ensures |r| == |xs|
    decreases |xs|
  {
    if xs == [] then [] else MapSeq(f, xs[..|xs| - 1]) + [f(xs[|xs| - 1])]
  }

  lemma {:induction false} MapSeqAt<A, B>(f: A -> B, xs: seq<A>, k: nat)
    requires k < |xs|
    ensures MapSeq(f, xs)[k] == f(xs[k])
    decreases |xs|
  {
    var n := |xs| - 1;
    if k < n {
      MapSeqAt(f, xs[..n], k);
      assert xs[..n][k] == xs[k];
    }
  }

  lemma MapSeqStep<A, B>(f: A -> B, xs: seq<A>, i: nat)
    requires i < |xs|
    ensures MapSeq(f, xs[..i + 1]) == MapSeq(f, xs[..i]) + [f(xs[i])]
  {
    assert xs[..i + 1][..i] == xs[..i];
  }

  /** What the controller computes for each result, in order. */
  function ComputedAll(results: seq<JobResult>, code: string, spec: CircuitSpec): (cs: seq<ComputedResult>)
    ensures |cs| == |results|
  {
    MapSeq(res => Computed(res, code, spec), results)
  }

  /** Entry k is what is computed for result k. */
  lemma ComputedAllAt(results: seq<JobResult>, code: string, spec: CircuitSpec, k: nat)
    requires k < |results|
    ensures ComputedAll(results, code, spec)[k] == Computed(results[k], code, spec)
  {
    MapSeqAt(res => Computed(res, code, spec), results, k);
  }

  /** The result event published for a computed result. */
  function EventOf(c: ComputedResult): Event {
    ResultEvent(c.result.jobId, c.result.methodName, c.schedulerCode, c.scenarioName, c.result.elapsedMs,
                c.result.waitingMs, c.result.turnaroundMs, c.residual, c.result.solution, c.equations)
  }

  /** The log entry `log(result, scheduler, scenario, residual)` writes. */
  function EntryOf(c: ComputedResult, render: Render): (e: LogEntry)
    requires |render(c).1| == 10
    ensures WellFormed(e)
  {
    LogEntry(render(c).0, c.result.jobId, c.result.methodName, Some(c.schedulerCode), Some(c.scenarioName), render(c).1)
  }

  function Entries(cs: seq<ComputedResult>, render: Render): (es: seq<LogEntry>)
    requires forall c :: |render(c).1| == 10
    ensures |es| == |cs| && forall k :: 0 <= k < |cs| ==> es[k] == EntryOf(cs[k], render)
  {
    seq(|cs|, k requires 0 <= k < |cs| => EntryOf(cs[k], render))
  }

  /** The log after the entries: every line appended, or nothing when the
      file cannot be written. */
  function Logged(lines: seq<LogLine>, es: seq<LogEntry>, writable: bool): seq<LogLine>
    requires forall k :: 0 <= k < |es| ==> WellFormed(es[k])
  {
    if writable then AppendedAll(lines, es) else lines
  }

  /** The calls the result events make: for each result in order, every
      listener of the result topic. */
  function ResultDeliveries(listeners: seq<ConsumerId>, cs: seq<ComputedResult>, throws: ConsumerId -> bool)
    : (d: seq<Delivery<Event>>)
    ensures |d| == Blocks(|cs|, |listeners|)
  {
    if cs == [] then []
    else
      var n := |cs| - 1;
      ResultDeliveries(listeners, cs[..n], throws) + Fanout(listeners, RESULT_TOPIC, EventOf(cs[n]), throws)
  }

  /** The result events come in result order: the deliveries of result k
      are the block of |listeners| deliveries starting at k·|listeners|,
      each on the result topic with result k's event. */
  lemma {:induction false} ResultDeliveriesInOrder(listeners: seq<ConsumerId>, cs: seq<ComputedResult>, throws: ConsumerId -> bool, k: nat)
    requires k < |cs|
    ensures var d := ResultDeliveries(listeners, cs, throws);
            var b := Blocks(k, |listeners|);
            b + |listeners| <= |d| && d[b .. b + |listeners|] == Fanout(listeners, RESULT_TOPIC, EventOf(cs[k]), throws)
    decreases |cs|
  {
    var n := |cs| - 1;
    var m := |listeners|;
    var d := ResultDeliveries(listeners, cs, throws);
    var before := ResultDeliveries(listeners, cs[..n], throws);
    var b := Blocks(k, m);
    if k < n {
      ResultDeliveriesInOrder(listeners, cs[..n], throws, k);
      assert cs[..n][k] == cs[k];
      BlocksMono(k, n, m);
      assert d[b .. b + m] == before[b .. b + m];
    } else {
      assert d[Blocks(n, m)..] == Fanout(listeners, RESULT_TOPIC, EventOf(cs[n]), throws);
    }
  }

  /** The length of k blocks of m deliveries: k·m, counted block by
      block. */
  function Blocks(k: nat, m: nat): (r: nat)
    decreases k
  {
    if k == 0 then 0 else Blocks(k - 1, m) + m
  }

  /** k blocks of m deliveries are k·m deliveries. */
  lemma {:induction false} BlocksProduct(k: nat, m: nat)
    ensures Blocks(k, m) == k * m
    decreases k
  {
    if k > 0 {
      BlocksProduct(k - 1, m);
    }
  }

  /** Block k of n blocks lies within them. */
  lemma {:induction false} BlocksMono(k: nat, n: nat, m: nat)
    requires k < n
    ensures Blocks(k, m) + m <= Blocks(n, m)
    decreases n
  {
    if k < n - 1 {
      BlocksMono(k, n - 1, m);
    }
  }

  /** One iteration of the report loop: residual, checks, log line, result
      event. */
  method ReportOne(bus: EventBus<Event>, logger: MetricsLogger, res: JobResult, code: string, spec: CircuitSpec,
                   render: Render, writable: bool, throws: ConsumerId -> bool)
    returns (c: ComputedResult)
    requires |render(Computed(res, code, spec)).1| == 10
    modifies bus, logger
    ensures c == Computed(res, code, spec)
    ensures logger.lines == Appended(old(logger.lines), EntryOf(c, render), writable)
    ensures bus.subscribers == old(bus.subscribers)
    ensures bus.deliveries == old(bus.deliveries) + Fanout(Listeners(bus.subscribers, RESULT_TOPIC), RESULT_TOPIC, EventOf(c), throws)
  {
    var residual := ComputeResidual(spec.a, res.solution, spec.b);
    var checks := VerifyEquations(spec.a, res.solution, spec.b);
    c := ComputedResult(res, residual, code, spec.name, checks);
    logger.Log(EntryOf(c, render), writable);
    bus.Publish(RESULT_TOPIC, EventOf(c), throws);
  }

  /** One more entry extends the log by that entry's lines. */
  lemma LoggedStep(lines: seq<LogLine>, cs: seq<ComputedResult>, c: ComputedResult, render: Render, writable: bool)
    requires forall c :: |render(c).1| == 10
    ensures Logged(lines, Entries(cs + [c], render), writable)
            == Appended(Logged(lines, Entries(cs, render), writable), EntryOf(c, render), writable)
  {
    var es := Entries(cs, render);
    var e := EntryOf(c, render);
    assert Entries(cs + [c], render) == es + [e];
    assert (es + [e])[..|es|] == es;
  }

  lemma ResultDeliveriesStep(listeners: seq<ConsumerId>, cs: seq<ComputedResult>, c: ComputedResult, throws: ConsumerId -> bool)
    ensures ResultDeliveries(listeners, cs + [c], throws)
            == ResultDeliveries(listeners, cs, throws) + Fanout(listeners, RESULT_TOPIC, EventOf(c), throws)
  {
    assert (cs + [c])[..|cs|] == cs;
  }

  /** The loop of `runBatch` over the scheduler's results. */
  method ReportAll(bus: EventBus<Event>, logger: MetricsLogger, results: seq<JobResult>, code: string, spec: CircuitSpec,
                   render: Render, writable: bool, throws: ConsumerId -> bool)
    returns (cs: seq<ComputedResult>)
    requires forall c :: |render(c).1| == 10
    modifies bus, logger
    ensures cs == ComputedAll(results, code, spec)
    ensures logger.lines == Logged(old(logger.lines), Entries(cs, render), writable)
    ensures bus.subscribers == old(bus.subscribers)
    ensures bus.deliveries == old(bus.deliveries) + ResultDeliveries(Listeners(bus.subscribers, RESULT_TOPIC), cs, throws)
  {
    cs := [];
    var i := 0;
    while i < |results|
      invariant i <= |results| && cs == ComputedAll(results[..i], code, spec)
      invariant logger.lines == Logged(old(logger.lines), Entries(cs, render), writable)
      invariant bus.subscribers == old(bus.subscribers)
      invariant bus.deliveries == old(bus.deliveries) + ResultDeliveries(Listeners(bus.subscribers, RESULT_TOPIC), cs, throws)
    {
      cs := ReportNext(bus, logger, results, i, cs, code, spec, render, writable, throws, old(logger.lines), old(bus.deliveries));
      i := i + 1;
    }
    assert results[..i] == results;
  }

  /** One iteration of that loop, from the state after the first i results
      to the state after i + 1. */
  method ReportNext(bus: EventBus<Event>, logger: MetricsLogger, results: seq<JobResult>, i: nat, cs: seq<ComputedResult>,
                    code: string, spec: CircuitSpec, render: Render, writable: bool, throws: ConsumerId -> bool,
                    ghost lines: seq<LogLine>, ghost deliveries: seq<Delivery<Event>>)
    returns (next: seq<ComputedResult>)
    requires forall c :: |render(c).1| == 10
    requires i < |results| && cs == ComputedAll(results[..i], code, spec)
    requires logger.lines == Logged(lines, Entries(cs, render), writable)
    requires bus.deliveries == deliveries + ResultDeliveries(Listeners(bus.subscribers, RESULT_TOPIC), cs, throws)
    modifies bus, logger
    ensures next == ComputedAll(results[..i + 1], code, spec)
    ensures logger.lines == Logged(lines, Entries(next, render), writable)
    ensures bus.subscribers == old(bus.subscribers)
    ensures bus.deliveries == deliveries + ResultDeliveries(Listeners(bus.subscribers, RESULT_TOPIC), next, throws)
  {
    var c := ReportOne(bus, logger, results[i], code, spec, render, writable, throws);
    LoggedStep(lines, cs, c, render, writable);
    var listeners := Listeners(bus.subscribers, RESULT_TOPIC);
    ResultDeliveriesStep(listeners, cs, c, throws);
    AppendAssoc(deliveries, ResultDeliveries(listeners, cs, throws), Fanout(listeners, RESULT_TOPIC, EventOf(c), throws));
    MapSeqStep(res => Computed(res, code, spec), results, i);
    next := cs + [c];
  }

  // ----------------------------------------------------------------- batch

  /** What a batch leaves behind: its answer, every consumer call so far and
      the log's lines. */
  datatype Outcome = Outcome(result: Result<seq<ComputedResult>>, deliveries: seq<Delivery<Event>>, lines: seq<LogLine>)

  /** The report of a successful run: the computed results; after the
      "running" deliveries, each result's event to every result listener
      and then "done" to every status listener; and the log with one entry
      per result. */
  function Reported(subscribers: map<string, seq<ConsumerId>>, running: seq<Delivery<Event>>, lines: seq<LogLine>,
                    code: string, jobs: nat, spec: CircuitSpec, results: seq<JobResult>, env: Environment): Outcome
    requires forall c :: |env.render(c).1| == 10
  {
    var cs := ComputedAll(results, code, spec);
    Outcome(Ok(cs),
            running + ResultDeliveries(Listeners(subscribers, RESULT_TOPIC), cs, env.throws)
                    + Fanout(Listeners(subscribers, STATUS_TOPIC), STATUS_TOPIC, StatusEvent("done", code, jobs), env.throws),
            Logged(lines, Entries(cs, env.render), env.writable))
  }

  /** A batch whose jobs were built: "running" with the job count is
      published; a failing job then fails the batch with nothing logged,
      otherwise the results are reported. */
  function Started(subscribers: map<string, seq<ConsumerId>>, deliveries: seq<Delivery<Event>>, lines: seq<LogLine>,
                   t: SchedulerType, jobs: nat, js: seq<JobState>, spec: CircuitSpec, env: Environment): Outcome
    requires Ready(js, env.now) && forall c :: |env.render(c).1| == 10
  {
    var code := SchedulerCode(t);
    var running := deliveries + Fanout(Listeners(subscribers, STATUS_TOPIC), STATUS_TOPIC,
                                       StatusEvent("running", code, jobs), env.throws);
    var run := Scheduled(t, js, env.parallelism, env.now, env.times).0;
    if run.Err? then Outcome(Err(run.error), running, lines)
    else Reported(subscribers, running, lines, code, jobs, spec, run.value, env)
  }

  /** `runBatch`, from the registry, the deliveries and the log before it:
      - a solver whose runner cannot be built fails the batch before anything
        is published or logged;
      - otherwise "running" with the job count is published, and a failing
        job then fails the batch with nothing logged;
      - otherwise every result, in the scheduler's order, is logged and
        published, and "done" is published last. */
  function BatchRun(subscribers: map<string, seq<ConsumerId>>, deliveries: seq<Delivery<Event>>, lines: seq<LogLine>,
                    t: SchedulerType, spec: CircuitSpec, solvers: seq<SolverKind>, env: Environment): Outcome
    requires Suits(env, solvers)
  {
    var built := JobsFor(solvers, env.ids, spec, env.libraryAnswer, env.now);
    if built.Err? then Outcome(Err(built.error), deliveries, lines)
    else
      JobsReady(solvers, env.ids, spec, env.libraryAnswer, env.now);
      Started(subscribers, deliveries, lines, t, |solvers|, built.value, spec, env)
  }

  /** The part of `runBatch` after the jobs are built: "running", the
      scheduler, and the report of its results. */
  method Start(bus: EventBus<Event>, logger: MetricsLogger, t: SchedulerType, jobs: seq<Job>, spec: CircuitSpec, env: Environment)
    returns (r: Result<seq<ComputedResult>>)
    requires Distinct(jobs) && Ready(StatesOf(jobs), env.now) && forall c :: |env.render(c).1| == 10
    modifies bus, logger, jobs
    ensures bus.subscribers == old(bus.subscribers)
    ensures Outcome(r, bus.deliveries, logger.lines)
            == Started(old(bus.subscribers), old(bus.deliveries), old(logger.lines), t, |jobs|, old(StatesOf(jobs)), spec, env)
  {
    var code := SchedulerCode(t);
    bus.Publish(STATUS_TOPIC, StatusEvent("running", code, |jobs|), env.throws);
    StatesKept(jobs);
    var run, clock := Dispatch(t, jobs, env.parallelism, env.now, env.times);
    if run.Err? {
      return Err(run.error);
    }
    var cs := Finish(bus, logger, run.value, code, |jobs|, spec, env);
    r := Ok(cs);
  }

  /** The report loop and the final "done". */
  method Finish(bus: EventBus<Event>, logger: MetricsLogger, results: seq<JobResult>, code: string, jobs: nat,
                spec: CircuitSpec, env: Environment)
    returns (cs: seq<ComputedResult>)
    requires forall c :: |env.render(c).1| == 10
    modifies bus, logger
    ensures bus.subscribers == old(bus.subscribers)
    ensures Outcome(Ok(cs), bus.deliveries, logger.lines)
            == Reported(old(bus.subscribers), old(bus.deliveries), old(logger.lines), code, jobs, spec, results, env)
  {
    cs := ReportAll(bus, logger, results, code, spec, env.render, env.writable, env.throws);
    bus.Publish(STATUS_TOPIC, StatusEvent("done", code, jobs), env.throws);
  }

  /** The controller, with the bus and the logger it was constructed with. */
  class BatchController {
    const bus: EventBus<Event>
    const logger: MetricsLogger

    constructor (bus: EventBus<Event>, logger: MetricsLogger)
      ensures this.bus == bus && this.logger == logger
    {
      this.bus := bus;
      this.logger := logger;
    }

    /** `runBatch` for the given solvers. */
    method RunBatch(t: SchedulerType, spec: CircuitSpec, solvers: seq<SolverKind>, env: Environment)
      returns (r: Result<seq<ComputedResult>>)
      requires Suits(env, solvers)
      modifies bus, logger
      ensures bus.subscribers == old(bus.subscribers)
      ensures Outcome(r, bus.deliveries, logger.lines)
              == BatchRun(old(bus.subscribers), old(bus.deliveries), old(logger.lines), t, spec, solvers, env)
    {
      var built := BuildJobs(solvers, env.ids, spec, env.libraryAnswer, env.now);
      if built.Err? {
        return Err(built.error);
      }
      JobsReady(solvers, env.ids, spec, env.libraryAnswer, env.now);
      JobsForEach(solvers, env.ids, spec, env.libraryAnswer, env.now);
      var jobs := built.value;
      assert |jobs| == |solvers|;
      assert fresh(set j | j in jobs);
      r := Start(bus, logger, t, jobs, spec, env);
    }

    /** `runCustom`: the batch of the default solvers over a given system. */
    method RunCustom(t: SchedulerType, spec: CircuitSpec, env: Environment) returns (r: Result<seq<ComputedResult>>)
      requires Suits(env, Defaults())
      modifies bus, logger
      ensures Outcome(r, bus.deliveries, logger.lines)
              == BatchRun(old(bus.subscribers), old(bus.deliveries), old(logger.lines), t, spec, Defaults(), env)
    {
      r := RunBatch(t, spec, Defaults(), env);
    }

    /** `runScenario`: the scenario's generated system (an unknown scenario
        fails before anything else happens), then the batch of the default
        solvers over exactly that system. */
    method RunScenario(t: SchedulerType, scenario: ScenarioType, draw: nat -> real, millis: nat, env: Environment)
      returns (r: Result<seq<ComputedResult>>)
      requires Suits(env, Defaults())
      modifies bus, logger
      ensures Config.ScenarioSize(Some(ScenarioCode(scenario))) <= 0 ==>
                r == Err(UnknownName) && bus.deliveries == old(bus.deliveries) && logger.lines == old(logger.lines)
      ensures Config.ScenarioSize(Some(ScenarioCode(scenario))) > 0 ==>
                var n: nat := Config.ScenarioSize(Some(ScenarioCode(scenario)));
                var spec := CircuitSpec(WellConditioned(DrawnMatrix(n, draw)), DrawnVector(n, draw),
                                        ScenarioCode(scenario) + "-" + Text.NatToString(millis));
                Outcome(r, bus.deliveries, logger.lines)
                == BatchRun(old(bus.subscribers), old(bus.deliveries), old(logger.lines), t, spec, Defaults(), env)
    {
      var spec := GenerateScenario(Some(ScenarioCode(scenario)), draw, millis);
      if spec.Err? {
        return Err(spec.error);
      }
      r := RunBatch(t, spec.value, Defaults(), env);
    }
  }

  // ------------------------------------------------------------ properties

  /** Every batch of the default solvers builds its three jobs when the
      system is n×n with a non-singular A and |b| == n. */
  lemma DefaultJobsBuilt(spec: CircuitSpec, env: Environment)
    requires |env.ids| == 3 && IsSquare(spec.a) && |spec.b| == |spec.a| && Abs(Det(spec.a)) >= EPS
    ensures JobsFor(Defaults(), env.ids, spec, env.libraryAnswer, env.now).Ok?
  {
    LeadingOfSquare(spec.a);
    var ds := Defaults();
    forall k | 0 <= k < 3
      ensures JobFor(ds[k], env.ids[k], spec, env.libraryAnswer, env.now).Ok?
    {
      CreateByName(ds[k]);
    }
    JobsForEach(ds, env.ids, spec, env.libraryAnswer, env.now);
  }

  /** A successful batch publishes "running" to every status listener first,
      then each result's event to every result listener, in result order
      (`DeliveriesBlocks` locates each result's block), then "done" to every
      status listener; the job count in both status events is the number of
      solvers. */
  lemma BatchEvents(subscribers: map<string, seq<ConsumerId>>, deliveries: seq<Delivery<Event>>, lines: seq<LogLine>,
                     t: SchedulerType, spec: CircuitSpec, solvers: seq<SolverKind>, env: Environment)
    returns (cs: seq<ComputedResult>)
    requires Suits(env, solvers)
    requires BatchRun(subscribers, deliveries, lines, t, spec, solvers, env).result.Ok?
    ensures var o := BatchRun(subscribers, deliveries, lines, t, spec, solvers, env);
            var status := Listeners(subscribers, STATUS_TOPIC);
            o.result.value == cs
            && o.deliveries == deliveries + Fanout(status, STATUS_TOPIC, StatusEvent("running", SchedulerCode(t), |solvers|), env.throws)
                               + ResultDeliveries(Listeners(subscribers, RESULT_TOPIC), cs, env.throws)
                               + Fanout(status, STATUS_TOPIC, StatusEvent("done", SchedulerCode(t), |solvers|), env.throws)
  {
    var built := JobsFor(solvers, env.ids, spec, env.libraryAnswer, env.now);
    JobsReady(solvers, env.ids, spec, env.libraryAnswer, env.now);
    var status := Listeners(subscribers, STATUS_TOPIC);
    var running := deliveries + Fanout(status, STATUS_TOPIC, StatusEvent("running", SchedulerCode(t), |solvers|), env.throws);
    var run := Scheduled(t, built.value, env.parallelism, env.now, env.times).0;
    assert BatchRun(subscribers, deliveries, lines, t, spec, solvers, env)
           == Started(subscribers, deliveries, lines, t, |solvers|, built.value, spec, env)
           == Reported(subscribers, running, lines, SchedulerCode(t), |solvers|, spec, run.value, env);
    cs := ComputedAll(run.value, SchedulerCode(t), spec);
  }

  /** Deliveries before, the result events, deliveries after: one result
      event per result and listener, between the two. */
  lemma DeliveriesLayout(before: seq<Delivery<Event>>, listeners: seq<ConsumerId>, cs: seq<ComputedResult>,
                         after: seq<Delivery<Event>>, throws: ConsumerId -> bool)
    ensures var d := before + ResultDeliveries(listeners, cs, throws) + after;
            var start := |before|;
            |d| == start + Blocks(|cs|, |listeners|) + |after|
            && d[..start] == before
            && d[start + Blocks(|cs|, |listeners|)..] == after
  {
    var middle := ResultDeliveries(listeners, cs, throws);
    SliceShift(before, middle, after, 0, 0);
    assert (before + middle + after)[|before| + |middle|..] == after;
  }

  /** ... and the result events sit in one block per result, in result
      order. */
  lemma DeliveriesBlocks(before: seq<Delivery<Event>>, listeners: seq<ConsumerId>, cs: seq<ComputedResult>,
                         after: seq<Delivery<Event>>, throws: ConsumerId -> bool)
    ensures var d := before + ResultDeliveries(listeners, cs, throws) + after;
            var m := |listeners|;
            forall k :: 0 <= k < |cs| ==>
              |before| + Blocks(k, m) + m <= |d|
              && d[|before| + Blocks(k, m) .. |before| + Blocks(k, m) + m] == Fanout(listeners, RESULT_TOPIC, EventOf(cs[k]), throws)
  {
    forall k | 0 <= k < |cs|
      ensures var m := |listeners|;
              var d := before + ResultDeliveries(listeners, cs, throws) + after;
              |before| + Blocks(k, m) + m <= |d|
              && d[|before| + Blocks(k, m) .. |before| + Blocks(k, m) + m] == Fanout(listeners, RESULT_TOPIC, EventOf(cs[k]), throws)
    {
      DeliveriesBlock(before, listeners, cs, after, throws, k);
    }
  }

  lemma DeliveriesBlock(before: seq<Delivery<Event>>, listeners: seq<ConsumerId>, cs: seq<ComputedResult>,
                        after: seq<Delivery<Event>>, throws: ConsumerId -> bool, k: nat)
    requires k < |cs|
    ensures var d := before + ResultDeliveries(listeners, cs, throws) + after;
            var m := |listeners|;
            |before| + Blocks(k, m) + m <= |d|
            && d[|before| + Blocks(k, m) .. |before| + Blocks(k, m) + m] == Fanout(listeners, RESULT_TOPIC, EventOf(cs[k]), throws)
  {
    var m := |listeners|;
    ResultDeliveriesInOrder(listeners, cs, throws, k);
    SliceShift(before, ResultDeliveries(listeners, cs, throws), after, Blocks(k, m), Blocks(k, m) + m);
  }

  lemma AppendAssoc<T>(x: seq<T>, y: seq<T>, z: seq<T>)
    ensures (x + y) + z == x + (y + z)
  {
  }

  /** A slice of the middle part of a concatenation. */
  lemma SliceShift<T>(x: seq<T>, y: seq<T>, z: seq<T>, i: nat, j: nat)
    requires i <= j <= |y|
    ensures (x + y + z)[|x| + i .. |x| + j] == y[i..j]
    ensures (x + y + z)[..|x|] == x
  {
  }

  /** A successful batch appends one log line per result, in result order,
      under the header when the log was empty; a log that cannot be written
      stays as it was. */
  lemma BatchLog(subscribers: map<string, seq<ConsumerId>>, deliveries: seq<Delivery<Event>>, lines: seq<LogLine>,
                 t: SchedulerType, spec: CircuitSpec, solvers: seq<SolverKind>, env: Environment)
    requires Suits(env, solvers)
    requires BatchRun(subscribers, deliveries, lines, t, spec, solvers, env).result.Ok?
    ensures var o := BatchRun(subscribers, deliveries, lines, t, spec, solvers, env);
            var cs := o.result.value;
            (env.writable ==>
               o.lines == lines + (if lines == [] && cs != [] then [HeaderLine] else []) + RowLines(Entries(cs, env.render)))
            && (!env.writable ==> o.lines == lines)
  {
    var o := BatchRun(subscribers, deliveries, lines, t, spec, solvers, env);
    HeaderOnce(lines, Entries(o.result.value, env.render));
  }

  /** A batch that fails logs nothing, and publishes nothing when its jobs
      cannot be built. */
  lemma BatchFails(subscribers: map<string, seq<ConsumerId>>, deliveries: seq<Delivery<Event>>, lines: seq<LogLine>,
                   t: SchedulerType, spec: CircuitSpec, solvers: seq<SolverKind>, env: Environment)
    requires Suits(env, solvers)
    ensures var o := BatchRun(subscribers, deliveries, lines, t, spec, solvers, env);
            o.result.Err? ==> o.lines == lines && deliveries <= o.deliveries
    ensures JobsFor(solvers, env.ids, spec, env.libraryAnswer, env.now).Err? ==>
              BatchRun(subscribers, deliveries, lines, t, spec, solvers, env).deliveries == deliveries
  {
  }

  /** A batch's computed results are the scheduler's results, one each and in
      the same order, each with its residual and its checks; for a result
      whose solution solves the n×n system exactly the residual is zero. */
  lemma ComputedResults(results: seq<JobResult>, code: string, spec: CircuitSpec, k: nat)
    requires k < |results|
    ensures var c := ComputedAll(results, code, spec)[k];
            c.result == results[k] && c.schedulerCode == code && c.scenarioName == spec.name
            && (c.residual.None? <==> results[k].solution == [])
            && (|results[k].solution| > 0 ==> |c.equations| == |spec.a|)
    ensures var x := results[k].solution;
            IsRect(spec.a, |x|) && |spec.b| == |spec.a| && MatVec(spec.a, x) == spec.b && x != [] ==>
              ComputedAll(results, code, spec)[k].residual == Some(0.0)
  {
    ComputedAllAt(results, code, spec, k);
    var x := results[k].solution;
    if IsRect(spec.a, |x|) && |spec.b| == |spec.a| && MatVec(spec.a, x) == spec.b {
      ExactSolutionResidual(spec.a, x, spec.b);
    }
  }
}
