/** A schedulable job: a step runner plus the bookkeeping of when the job
    first ran, when it finished and how long its slices took. Time is an
    abstract monotone clock in whole milliseconds: a call starts at `now`,
    each runner step takes `Duration(times, s)` milliseconds from the state `s` it
    starts in, and the call hands back the clock at its end. */
module Jobs {
  import opened Wrappers
  import opened Numeric
  import opened Runners

  /** How long a step runs, by the runner state it starts from. */
  type StepTimes = RunnerState -> nat

  /** The time one step takes from `s`. */
  function Duration(times: StepTimes, s: RunnerState): nat {
    times(s)
  }

  /** `Result`: the record a finished job hands to its scheduler. */
  datatype JobResult = JobResult(jobId: string, methodName: string, elapsedMs: nat,
                                 waitingMs: int, turnaroundMs: int, solution: Vector)

  /** `Job.QuantumOutcome`. */
  datatype QuantumOutcome = QuantumOutcome(finished: bool, elapsedMs: nat, result: Option<JobResult>)

  /** What driving a runner leaves behind: the new runner state, the failure
      of the step that threw (if one did), the steps that completed, and the
      time that passed. */
  datatype Drive = Drive(state: RunnerState, failure: Option<Failure>, steps: nat, duration: nat)

  /** The budget after a step of the given cost; without a budget there is
      nothing to spend. */
  function Spend(limited: bool, budget: int, cost: nat): int {
    if limited then budget - cost else budget
  }

  /** The run loops of `Job`: step while the runner is unfinished and, when
      `limited`, while the budget is positive; each step consumes the cost it
      reports. A step that throws ends the loop with the runner as it was. */
  function DriveRunner(s: RunnerState, limited: bool, budget: int, times: StepTimes): (d: Drive)
    requires Consistent(s)
    ensures Consistent(d.state)
    ensures d.failure.None? ==> Finished(d.state) || (limited && !Finished(s))
    ensures d.failure.Some? ==> !Finished(d.state)
    ensures d.failure.None? ==> Remaining(d.state) + d.steps == Remaining(s)
    ensures Finished(s) ==> d == Drive(s, None, 0, 0)
    decreases Remaining(s)
  {
    if Finished(s) || (limited && budget <= 0) then Drive(s, None, 0, 0)
    else
      match Step(s)
      case Err(e) => Drive(s, Some(e), 0, Duration(times, s))
      case Ok(s1) =>
        var rest := DriveRunner(s1, limited, Spend(limited, budget, StepCost(s, Duration(times, s))), times);
        Drive(rest.state, rest.failure, rest.steps + 1, Duration(times, s) + rest.duration)
  }

  /** One turn of the loop of `DriveRunner`, for a runner that is not done
      and whose step gives `next`. */
  lemma DriveStep(s: RunnerState, next: Result<RunnerState>, limited: bool, budget: int, times: StepTimes)
    requires Consistent(s) && !Finished(s) && (!limited || budget > 0) && next == Step(s)
    ensures next.Err? ==> DriveRunner(s, limited, budget, times) == Drive(s, Some(next.error), 0, Duration(times, s))
    ensures next.Ok? ==>
              var rest := DriveRunner(next.value, limited, Spend(limited, budget, StepCost(s, Duration(times, s))), times);
              DriveRunner(s, limited, budget, times) == Drive(rest.state, rest.failure, rest.steps + 1, Duration(times, s) + rest.duration)
  {
  }

  /** One turn of `Run`, for a runner that is not done and whose step gives
      `next`. */
  lemma RunStep(s: RunnerState, next: Result<RunnerState>)
    requires Consistent(s) && !Finished(s) && next == Step(s)
    ensures next.Err? ==> Run(s) == Err(next.error)
    ensures next.Ok? ==> Run(s) == Run(next.value)
  {
  }

  /** Without a budget the loop stops only at the end or at a failure, after
      every remaining step (the budget it carries is never consulted). */
  lemma {:induction false} UnlimitedFinishes(s: RunnerState, budget: int, times: StepTimes)
    requires Consistent(s)
    ensures var d := DriveRunner(s, false, budget, times);
            d.failure.None? ==> Finished(d.state) && d.steps == Remaining(s)
    decreases Remaining(s)
  {
    if !Finished(s) {
      var next := Step(s);
      DriveStep(s, next, false, budget, times);
      if next.Ok? {
        UnlimitedFinishes(next.value, budget, times);
      }
    }
  }

  /** The unlimited loop agrees with `Run` on a runner that is finished or
      whose next step throws. */
  lemma UnlimitedIsRunAtEnd(s: RunnerState, budget: int, times: StepTimes)
    requires Consistent(s) && (Finished(s) || Step(s).Err?)
    ensures DriveRunner(s, false, budget, times).failure.None? <==> Run(s).Ok?
    ensures Run(s).Ok? ==> DriveRunner(s, false, budget, times).state == Run(s).value
  {
    if !Finished(s) {
      DriveStep(s, Step(s), false, budget, times);
      RunStep(s, Step(s));
    }
  }

  /** If the unlimited loop agrees with `Run` after a step, it agrees before. */
  lemma UnlimitedIsRunStep(s: RunnerState, s1: RunnerState, budget: int, b1: int, times: StepTimes)
    requires Consistent(s) && !Finished(s) && Step(s) == Ok(s1) && b1 == budget
    requires DriveRunner(s1, false, b1, times).failure.None? <==> Run(s1).Ok?
    requires Run(s1).Ok? ==> DriveRunner(s1, false, b1, times).state == Run(s1).value
    ensures DriveRunner(s, false, budget, times).failure.None? <==> Run(s).Ok?
    ensures Run(s).Ok? ==> DriveRunner(s, false, budget, times).state == Run(s).value
  {
    DriveStep(s, Ok(s1), false, budget, times);
    RunStep(s, Ok(s1));
  }

  /** The unlimited loop fails exactly when `Run` does, and otherwise ends in
      the state `Run` ends in. */
  lemma {:induction false} UnlimitedIsRun(s: RunnerState, budget: int, times: StepTimes)
    requires Consistent(s)
    ensures DriveRunner(s, false, budget, times).failure.None? <==> Run(s).Ok?
    ensures Run(s).Ok? ==> DriveRunner(s, false, budget, times).state == Run(s).value
    decreases Remaining(s)
  {
    if Finished(s) || Step(s).Err? {
      UnlimitedIsRunAtEnd(s, budget, times);
    } else {
      var s1, b1 := Step(s).value, budget;
      UnlimitedIsRun(s1, b1, times);
      UnlimitedIsRunStep(s, s1, budget, b1, times);
    }
  }

  /** Each completed step costs at least one unit of budget, so a slice runs
      at most max(budget, 0) steps. */
  lemma {:induction false} SliceStepsBounded(s: RunnerState, budget: int, times: StepTimes)
    requires Consistent(s)
    ensures DriveRunner(s, true, budget, times).steps <= if budget > 0 then budget else 0
    decreases Remaining(s)
  {
    if !Finished(s) && budget > 0 {
      match Step(s)
      case Err(_) =>
      case Ok(s1) => SliceStepsBounded(s1, budget - StepCost(s, Duration(times, s)), times);
    }
  }

  /** A positive budget on an unfinished runner completes a step or throws. */
  lemma SliceMakesProgress(s: RunnerState, budget: int, times: StepTimes)
    requires Consistent(s) && !Finished(s) && budget > 0
    ensures var d := DriveRunner(s, true, budget, times);
            d.failure.Some? || (d.steps >= 1 && Remaining(d.state) < Remaining(s))
  {
  }

  /** A job as the scheduler sees it: identity, estimate, creation time, runner
      state and the timing bookkeeping. */
  datatype JobState = JobState(id: string, methodName: string, estimatedMs: Option<int>, created: nat,
                               runner: RunnerState, firstStart: Option<nat>, finish: Option<nat>,
                               accumulatedElapsedMs: nat)

  /** A job's timestamps follow the monotone clock: created, then first start,
      then finish. */
  predicate ValidJob(j: JobState) {
    Consistent(j.runner)
    && (j.firstStart.Some? ==> j.created <= j.firstStart.value)
    && (j.finish.Some? ==> j.firstStart.Some? && j.firstStart.value <= j.finish.value)
  }

  /** The clock reads `now` or later than every time the job recorded. */
  predicate NotAfter(j: JobState, now: nat) {
    j.created <= now
    && (j.firstStart.Some? ==> j.firstStart.value <= now)
    && (j.finish.Some? ==> j.finish.value <= now)
  }

  /** A freshly constructed job: not started, nothing accumulated. */
  function NewJob(id: string, methodName: string, estimatedMs: Option<int>, created: nat, runner: RunnerState): (j: JobState)
    requires Consistent(runner)
    ensures ValidJob(j) && j.firstStart.None? && j.finish.None? && j.accumulatedElapsedMs == 0
  {
    JobState(id, methodName, estimatedMs, created, runner, None, None, 0)
  }

  /** `markFirstStart`: only the first call records the time. */
  function MarkFirstStart(j: JobState, now: nat): (r: JobState)
    ensures j.firstStart.None? ==> r == j.(firstStart := Some(now))
    ensures j.firstStart.Some? ==> r == j
  {
    if j.firstStart.None? then j.(firstStart := Some(now)) else j
  }

  /** `buildResult` at time `now`: the job is finished at `now`; waiting runs
      from creation to the first start, turnaround from creation to the finish. */
  function BuildResult(j: JobState, now: nat): (r: (JobState, JobResult))
    ensures r.0 == j.(finish := Some(now))
    ensures r.1.jobId == j.id && r.1.methodName == j.methodName
    ensures r.1.elapsedMs == j.accumulatedElapsedMs && r.1.solution == ResultOf'(j.runner)
    ensures r.1.turnaroundMs == now - j.created
    ensures r.1.waitingMs == (if j.firstStart.Some? then j.firstStart.value else now) - j.created
  {
    var finished := j.(finish := Some(now));
    var start := if j.firstStart.Some? then j.firstStart.value else now;
    (finished, JobResult(j.id, j.methodName, j.accumulatedElapsedMs, start - j.created, now - j.created, ResultOf'(j.runner)))
  }

  /** `currentResult` of any runner state (the empty vector for a state that
      breaks its runner's invariant, which no job holds). */
  function ResultOf'(s: RunnerState): Vector {
    if Consistent(s) then ResultOf(s) else []
  }

  /** One call on a job: the job afterwards, what the call returned or threw,
      and the clock when it returned. */
  datatype Call<T> = Call(job: JobState, outcome: Result<T>, clock: nat)

  /** `runToCompletion` started at `now`. */
  function Completion(j: JobState, now: nat, times: StepTimes): (c: Call<JobResult>)
    requires ValidJob(j) && NotAfter(j, now)
    ensures ValidJob(c.job) && c.clock >= now && NotAfter(c.job, c.clock)
    ensures c.job.id == j.id && c.job.methodName == j.methodName
            && c.job.estimatedMs == j.estimatedMs && c.job.created == j.created
    ensures c.outcome.Ok? ==> c.outcome.value.jobId == j.id
  {
    var j1 := MarkFirstStart(j, now);
    var d := DriveRunner(j1.runner, false, 0, times);
    CompleteDrive(j1, now, d.state, d.failure, d.duration)
  }

  /** The end of `runToCompletion` for a started job whose drive was `d`: a
      failure leaves the runner where it stopped; otherwise the call's time is
      accumulated and the result built at the end of the call. */
  function CompleteDrive(j1: JobState, now: nat, state: RunnerState, failure: Option<Failure>, duration: nat): (c: Call<JobResult>)
    requires ValidJob(j1) && NotAfter(j1, now) && j1.firstStart.Some? && Consistent(state)
    ensures ValidJob(c.job) && c.clock == now + duration && NotAfter(c.job, c.clock)
    ensures c.job.id == j1.id && c.job.methodName == j1.methodName
            && c.job.estimatedMs == j1.estimatedMs && c.job.created == j1.created
    ensures c.outcome.Ok? ==> c.outcome.value.jobId == j1.id
  {
    var end := now + duration;
    if failure.Some? then Call(j1.(runner := state), Err(failure.value), end)
    else
      var j2 := j1.(runner := state, accumulatedElapsedMs := j1.accumulatedElapsedMs + duration);
      var built := BuildResult(j2, end);
      Call(built.0, Ok(built.1), end)
  }

  /** `runForQuantum(quantum)` started at `now`. */
  function Quantum(j: JobState, quantum: int, now: nat, times: StepTimes): (c: Call<QuantumOutcome>)
    requires ValidJob(j) && NotAfter(j, now)
    ensures ValidJob(c.job) && c.clock >= now && NotAfter(c.job, c.clock)
    ensures c.job.id == j.id && c.job.methodName == j.methodName
            && c.job.estimatedMs == j.estimatedMs && c.job.created == j.created
    ensures c.outcome.Ok? ==> (c.outcome.value.finished <==> c.outcome.value.result.Some?)
    ensures c.outcome.Ok? && c.outcome.value.result.Some? ==> c.outcome.value.result.value.jobId == j.id
    ensures c.outcome.Ok? ==> Remaining(c.job.runner) <= Remaining(j.runner)
    ensures c.outcome.Ok? && !c.outcome.value.finished ==> !Finished(c.job.runner)
  {
    var j1 := MarkFirstStart(j, now);
    var d := DriveRunner(j1.runner, true, quantum, times);
    QuantumDrive(j1, now, d.state, d.failure, d.duration)
  }

  /** The end of `runForQuantum` for a started job whose drive was `d`: the
      call's time is accumulated, and a finished runner gets its result. */
  function QuantumDrive(j1: JobState, now: nat, state: RunnerState, failure: Option<Failure>, duration: nat): (c: Call<QuantumOutcome>)
    requires ValidJob(j1) && NotAfter(j1, now) && j1.firstStart.Some? && Consistent(state)
    ensures ValidJob(c.job) && c.clock == now + duration && NotAfter(c.job, c.clock)
    ensures c.job.id == j1.id && c.job.methodName == j1.methodName
            && c.job.estimatedMs == j1.estimatedMs && c.job.created == j1.created
    ensures c.outcome.Ok? ==> (c.outcome.value.finished <==> c.outcome.value.result.Some?)
    ensures c.outcome.Ok? && c.outcome.value.result.Some? ==> c.outcome.value.result.value.jobId == j1.id
    ensures c.outcome.Ok? ==> c.job.runner == state
    ensures c.outcome.Ok? && !c.outcome.value.finished ==> !Finished(c.job.runner)
  {
    var end := now + duration;
    if failure.Some? then Call(j1.(runner := state), Err(failure.value), end)
    else
      var j2 := j1.(runner := state, accumulatedElapsedMs := j1.accumulatedElapsedMs + duration);
      if Finished(state) then
        var built := BuildResult(j2, end);
        Call(built.0, Ok(QuantumOutcome(true, duration, Some(built.1))), end)
      else Call(j2, Ok(QuantumOutcome(false, duration, None)), end)
  }

  /** A completed run leaves the runner finished and returns its current
      result; the accumulated time grows by exactly the call's duration, and
      the job is marked started once and finished at the end of the call. */
  lemma CompletionBookkeeping(j: JobState, now: nat, times: StepTimes)
    requires ValidJob(j) && NotAfter(j, now)
    ensures var c := Completion(j, now, times);
            c.outcome.Ok? ==>
              Finished(c.job.runner)
              && c.job.accumulatedElapsedMs == j.accumulatedElapsedMs + (c.clock - now)
              && c.job.firstStart == (if j.firstStart.Some? then j.firstStart else Some(now))
              && c.job.finish == Some(c.clock)
              && c.outcome.value.elapsedMs == c.job.accumulatedElapsedMs
              && c.outcome.value.solution == ResultOf(c.job.runner)
    ensures Completion(j, now, times).outcome.Ok? <==> Run(j.runner).Ok?
  {
    UnlimitedFinishes(j.runner, 0, times);
    UnlimitedIsRun(j.runner, 0, times);
  }

  /** A slice reports a finished job with a result exactly when the runner is
      finished afterwards, and no result otherwise. */
  lemma QuantumOutcomeFinished(j: JobState, quantum: int, now: nat, times: StepTimes)
    requires ValidJob(j) && NotAfter(j, now)
    ensures var c := Quantum(j, quantum, now, times);
            c.outcome.Ok? ==>
              (c.outcome.value.finished <==> Finished(c.job.runner))
              && (c.outcome.value.finished <==> c.outcome.value.result.Some?)
              && c.outcome.value.elapsedMs == c.clock - now
              && c.job.accumulatedElapsedMs == j.accumulatedElapsedMs + c.outcome.value.elapsedMs
  {
  }

  /** A slice with a positive quantum on an unfinished job runs at least one
      step, and never more than the quantum. */
  lemma QuantumSteps(j: JobState, quantum: int, now: nat, times: StepTimes)
    requires ValidJob(j) && NotAfter(j, now)
    ensures var d := DriveRunner(j.runner, true, quantum, times);
            d.steps <= (if quantum > 0 then quantum else 0)
            && (quantum > 0 && !Finished(j.runner) ==> d.failure.Some? || d.steps >= 1)
  {
    SliceStepsBounded(j.runner, quantum, times);
    if quantum > 0 && !Finished(j.runner) {
      SliceMakesProgress(j.runner, quantum, times);
    }
  }

  /** A slice with a positive quantum that leaves the job unfinished has
      completed at least one step, so fewer steps remain. */
  lemma QuantumProgress(j: JobState, quantum: int, now: nat, times: StepTimes)
    requires ValidJob(j) && NotAfter(j, now) && quantum > 0
    ensures var c := Quantum(j, quantum, now, times);
            c.outcome.Ok? && !c.outcome.value.finished ==> Remaining(c.job.runner) < Remaining(j.runner)
  {
    if !Finished(j.runner) {
      SliceMakesProgress(j.runner, quantum, times);
    }
  }

  /** On the monotone clock a result never has negative waiting, and waiting
      never exceeds turnaround. */
  lemma CompletionTimesOrdered(j: JobState, now: nat, times: StepTimes)
    requires ValidJob(j) && NotAfter(j, now)
    ensures var c := Completion(j, now, times);
            c.outcome.Ok? ==> 0 <= c.outcome.value.waitingMs <= c.outcome.value.turnaroundMs
  {
  }

  /** The same for the result of the slice that finishes a job. */
  lemma QuantumTimesOrdered(j: JobState, quantum: int, now: nat, times: StepTimes)
    requires ValidJob(j) && NotAfter(j, now)
    ensures var c := Quantum(j, quantum, now, times);
            c.outcome.Ok? && c.outcome.value.result.Some? ==>
              0 <= c.outcome.value.result.value.waitingMs <= c.outcome.value.result.value.turnaroundMs
  {
  }

  /** A job that had not started yet: its waiting time ends where its call
      began, and turnaround is waiting plus the time the call took. */
  lemma FreshJobTimes(j: JobState, now: nat, times: StepTimes)
    requires ValidJob(j) && NotAfter(j, now) && j.firstStart.None? && j.accumulatedElapsedMs == 0
    ensures var c := Completion(j, now, times);
            c.outcome.Ok? ==>
              c.outcome.value.waitingMs == now - j.created
              && c.outcome.value.turnaroundMs == c.outcome.value.waitingMs + c.outcome.value.elapsedMs
  {
  }

  /** The loop of `Job` has run steps taking `elapsed` from the start and
      is at `s` with `budget` left: driving on from here ends where the whole
      drive `d0` ends. */
  ghost predicate Tracks(s: RunnerState, limited: bool, budget: int, elapsed: nat, d0: Drive, times: StepTimes) {
    Consistent(s)
    && var d := DriveRunner(s, limited, budget, times);
    d.state == d0.state && d.failure == d0.failure && elapsed + d.duration == d0.duration
  }

  lemma TracksStep(s: RunnerState, s1: RunnerState, limited: bool, budget: int, elapsed: nat, d0: Drive, times: StepTimes)
    requires Tracks(s, limited, budget, elapsed, d0, times) && !Finished(s) && (!limited || budget > 0)
    requires Step(s) == Ok(s1)
    ensures Tracks(s1, limited, Spend(limited, budget, StepCost(s, Duration(times, s))), elapsed + Duration(times, s), d0, times)
  {
    DriveStep(s, Step(s), limited, budget, times);
  }

  lemma TracksFail(s: RunnerState, e: Failure, limited: bool, budget: int, elapsed: nat, d0: Drive, times: StepTimes)
    requires Tracks(s, limited, budget, elapsed, d0, times) && !Finished(s) && (!limited || budget > 0)
    requires Step(s) == Err(e)
    ensures d0.state == s && d0.failure == Some(e) && d0.duration == elapsed + Duration(times, s)
  {
    DriveStep(s, Step(s), limited, budget, times);
  }

  lemma TracksEnd(s: RunnerState, limited: bool, budget: int, elapsed: nat, d0: Drive, times: StepTimes)
    requires Tracks(s, limited, budget, elapsed, d0, times) && (Finished(s) || (limited && budget <= 0))
    ensures d0.state == s && d0.failure.None? && d0.duration == elapsed
  {
  }

  /** The step loop shared by `runToCompletion` (unlimited) and
      `runForQuantum` (limited by `budget`): it ends where `DriveRunner`
      ends, with the failure of the step that threw and the time that
      passed. */
  method DriveLoop(s0: RunnerState, limited: bool, budget0: int, times: StepTimes)
    returns (s: RunnerState, failure: Option<Failure>, elapsed: nat)
    requires Consistent(s0)
    ensures var d := DriveRunner(s0, limited, budget0, times);
            s == d.state && failure == d.failure && elapsed == d.duration
  {
    ghost var d0 := DriveRunner(s0, limited, budget0, times);
    s, failure, elapsed := s0, None, 0;
    var budget := budget0;
    while !Finished(s) && (!limited || budget > 0)
      invariant Tracks(s, limited, budget, elapsed, d0, times)
      decreases Remaining(s)
    {
      var t := Duration(times, s);
      var next := Step(s);
      if next.Err? {
        TracksFail(s, next.error, limited, budget, elapsed, d0, times);
        return s, Some(next.error), elapsed + t;
      }
      TracksStep(s, next.value, limited, budget, elapsed, d0, times);
      budget := Spend(limited, budget, StepCost(s, t));
      s := next.value;
      elapsed := elapsed + t;
    }
    TracksEnd(s, limited, budget, elapsed, d0, times);
  }

  /** `Job`: the runner state is held by value, and the copies of A and b the
      constructor takes are immutable values. */
  class Job {
    const id: string
    const methodName: string
    const a: Matrix
    const b: Vector
    const estimatedMs: Option<int>
    const created: nat
    var runner: RunnerState
    var firstStart: Option<nat>
    var finish: Option<nat>
    var accumulatedElapsedMs: nat

    ghost function State(): JobState
      reads this
    {
      JobState(id, methodName, estimatedMs, created, runner, firstStart, finish, accumulatedElapsedMs)
    }

    ghost predicate Valid()
      reads this
    {
      ValidJob(State())
    }

    /** Created at clock time `created`. */
    constructor (id: string, methodName: string, a: Matrix, b: Vector, runner: RunnerState, estimatedMs: Option<int>, created: nat)
      requires Consistent(runner)
      ensures Valid() && State() == NewJob(id, methodName, estimatedMs, created, runner)
      ensures this.a == a && this.b == b
    {
      this.id := id;
      this.methodName := methodName;
      this.a := a;
      this.b := b;
      this.runner := runner;
      this.estimatedMs := estimatedMs;
      this.created := created;
      firstStart := None;
      finish := None;
      accumulatedElapsedMs := 0;
    }

    method IsFinished() returns (f: bool)
      requires Valid()
      ensures f == Finished(runner)
    {
      f := Finished(runner);
    }

    method MarkFirstStartAt(now: nat)
      requires Valid() && NotAfter(State(), now)
      modifies this
      ensures Valid() && State() == MarkFirstStart(old(State()), now)
    {
      if firstStart.None? {
        firstStart := Some(now);
      }
    }

    method BuildResultAt(now: nat) returns (res: JobResult)
      requires Valid() && firstStart.Some? && NotAfter(State(), now)
      modifies this
      ensures Valid() && (State(), res) == BuildResult(old(State()), now)
    {
      finish := Some(now);
      var start := if firstStart.Some? then firstStart.value else now;
      res := JobResult(id, methodName, accumulatedElapsedMs, start - created, now - created, ResultOf'(runner));
    }

    /** `runToCompletion`: step until the runner is finished, then add the
        call's time to the accumulated time and build the result. */
    method RunToCompletion(now: nat, times: StepTimes) returns (r: Result<JobResult>, clock: nat)
      requires Valid() && NotAfter(State(), now)
      modifies this
      ensures Valid()
      ensures Call(State(), r, clock) == Completion(old(State()), now, times)
    {
      MarkFirstStartAt(now);
      var s, failure, elapsed := DriveLoop(runner, false, 0, times);
      r, clock := FinishCompletion(now, s, failure, elapsed);
    }

    /** The end of `runToCompletion`, after the runner was driven to `s`. */
    method FinishCompletion(now: nat, s: RunnerState, failure: Option<Failure>, elapsed: nat)
      returns (r: Result<JobResult>, clock: nat)
      requires Valid() && firstStart.Some? && NotAfter(State(), now) && Consistent(s)
      modifies this
      ensures Call(State(), r, clock) == CompleteDrive(old(State()), now, s, failure, elapsed)
    {
      runner := s;
      clock := now + elapsed;
      if failure.Some? {
        return Err(failure.value), clock;
      }
      accumulatedElapsedMs := accumulatedElapsedMs + elapsed;
      var res := BuildResultAt(clock);
      r := Ok(res);
    }

    /** `runForQuantum`: step while the runner is unfinished and budget is
        left, then add the slice's time and build the result if the runner
        finished. */
    method RunForQuantum(quantum: int, now: nat, times: StepTimes) returns (r: Result<QuantumOutcome>, clock: nat)
      requires Valid() && NotAfter(State(), now)
      modifies this
      ensures Valid()
      ensures Call(State(), r, clock) == Quantum(old(State()), quantum, now, times)
    {
      MarkFirstStartAt(now);
      var s, failure, elapsed := DriveLoop(runner, true, quantum, times);
      r, clock := FinishQuantum(now, s, failure, elapsed);
    }

    /** The end of `runForQuantum`, after the runner was driven to `s`. */
    method FinishQuantum(now: nat, s: RunnerState, failure: Option<Failure>, elapsed: nat)
      returns (r: Result<QuantumOutcome>, clock: nat)
      requires Valid() && firstStart.Some? && NotAfter(State(), now) && Consistent(s)
      modifies this
      ensures Call(State(), r, clock) == QuantumDrive(old(State()), now, s, failure, elapsed)
    {
      runner := s;
      clock := now + elapsed;
      if failure.Some? {
        return Err(failure.value), clock;
      }
      accumulatedElapsedMs := accumulatedElapsedMs + elapsed;
      if Finished(s) {
        var res := BuildResultAt(clock);
        return Ok(QuantumOutcome(true, elapsed, Some(res))), clock;
      }
      r := Ok(QuantumOutcome(false, elapsed, None));
    }
  }
}
