/** The three scheduling policies. A scheduler's worker pool is modelled as
    one lane: the jobs it hands out run one after another on the clock, in
    the order the pool's futures are collected. */
module Schedulers {
  import opened Wrappers
  import opened Numeric
  import opened Runners
  import opened Jobs
  import opened Ordering

  // ------------------------------------------------------------ job lists

  /** Every job is well-formed and the clock is not behind any of them. */
  predicate Ready(js: seq<JobState>, now: nat) {
    forall j :: j in js ==> ValidJob(j) && NotAfter(j, now)
  }

  lemma ReadyLater(js: seq<JobState>, now: nat, later: nat)
    requires Ready(js, now) && now <= later
    ensures Ready(js, later)
  {
  }

  lemma ReadyParts(js: seq<JobState>, now: nat, n: nat)
    requires Ready(js, now) && n <= |js|
    ensures Ready(js[..n], now) && Ready(js[n..], now) && (js != [] ==> Ready(js[1..], now))
  {
    assert forall j :: j in js[..n] ==> j in js;
    assert forall j :: j in js[n..] ==> j in js;
    if js != [] {
      assert forall j :: j in js[1..] ==> j in js;
    }
  }

  function Ids(js: seq<JobState>): (r: seq<string>)
    ensures |r| == |js| && forall k :: 0 <= k < |js| ==> r[k] == js[k].id
  {
    seq(|js|, k requires 0 <= k < |js| => js[k].id)
  }

  function ResultIds(rs: seq<JobResult>): (r: seq<string>)
    ensures |r| == |rs| && forall k :: 0 <= k < |rs| ==> r[k] == rs[k].jobId
  {
    seq(|rs|, k requires 0 <= k < |rs| => rs[k].jobId)
  }

  lemma IdsAppend(xs: seq<JobState>, ys: seq<JobState>)
    ensures Ids(xs + ys) == Ids(xs) + Ids(ys)
  {
  }

  lemma ResultIdsAppend(xs: seq<JobResult>, ys: seq<JobResult>)
    ensures ResultIds(xs + ys) == ResultIds(xs) + ResultIds(ys)
  {
  }

  /** The first failure among the outcomes, in order. */
  function FirstFailure<T>(outcomes: seq<Result<T>>): (f: Option<Failure>)
    ensures f.None? <==> forall k :: 0 <= k < |outcomes| ==> outcomes[k].Ok?
    ensures f.Some? ==> exists k :: 0 <= k < |outcomes| && outcomes[k] == Err(f.value)
                                    && forall i :: 0 <= i < k ==> outcomes[i].Ok?
  {
    if outcomes == [] then None
    else if outcomes[0].Err? then Some(outcomes[0].error)
    else
      var f := FirstFailure(outcomes[1..]);
      if f.Some? then
        ghost var k :| 0 <= k < |outcomes[1..]| && outcomes[1..][k] == Err(f.value)
                       && forall i :: 0 <= i < k ==> outcomes[1..][i].Ok?;
        assert outcomes[k + 1] == Err(f.value);
        f
      else f
  }

  /** Collecting the futures in order: every job's result, or the first
      failure, rethrown as a failed execution. */
  function Collect(outcomes: seq<Result<JobResult>>): (r: Result<seq<JobResult>>)
    ensures r.Ok? <==> forall k :: 0 <= k < |outcomes| ==> outcomes[k].Ok?
    ensures r.Ok? ==> |r.value| == |outcomes| && forall k :: 0 <= k < |outcomes| ==> r.value[k] == outcomes[k].value
    ensures r.Err? ==> r.error == JobFailed(FirstFailure(outcomes).value)
  {
    var f := FirstFailure(outcomes);
    if f.Some? then Err(JobFailed(f.value))
    else Ok(seq(|outcomes|, k requires 0 <= k < |outcomes| => outcomes[k].value))
  }

  // ------------------------------------------------- running in sequence

  /** The jobs after a pass, what each call returned, and the clock at the end. */
  datatype Pass<T> = Pass(jobs: seq<JobState>, outcomes: seq<Result<T>>, clock: nat)

  /** Each job run to completion, one after another. */
  function CompleteEach(js: seq<JobState>, now: nat, times: StepTimes): (p: Pass<JobResult>)
    requires Ready(js, now)
    ensures |p.jobs| == |js| && |p.outcomes| == |js| && now <= p.clock && Ready(p.jobs, p.clock)
    decreases |js|
  {
    if js == [] then Pass([], [], now)
    else
      var c := Completion(js[0], now, times);
      ReadyParts(js, now, 0);
      ReadyLater(js[1..], now, c.clock);
      var rest := CompleteEach(js[1..], c.clock, times);
      Pass([c.job] + rest.jobs, [c.outcome] + rest.outcomes, rest.clock)
  }

  /** A pass with one job first. */
  lemma CompleteEachCons(js: seq<JobState>, now: nat, times: StepTimes)
    requires Ready(js, now) && js != []
    ensures var c := Completion(js[0], now, times);
            Ready(js[1..], c.clock)
            && var rest := CompleteEach(js[1..], c.clock, times);
               CompleteEach(js, now, times) == Pass([c.job] + rest.jobs, [c.outcome] + rest.outcomes, rest.clock)
  {
    var c := Completion(js[0], now, times);
    ReadyParts(js, now, 0);
    ReadyLater(js[1..], now, c.clock);
  }

  /** The clock when the job at index k starts. */
  function StartOf(js: seq<JobState>, now: nat, times: StepTimes, k: nat): nat
    requires Ready(js, now) && k <= |js|
  {
    ReadyParts(js, now, k);
    CompleteEach(js[..k], now, times).clock
  }

  lemma StartOfShift(js: seq<JobState>, now: nat, times: StepTimes, k: nat)
    requires Ready(js, now) && 0 < k <= |js|
    ensures var c := Completion(js[0], now, times);
            Ready(js[1..], c.clock)
            && StartOf(js, now, times, k) == StartOf(js[1..], c.clock, times, k - 1)
  {
    var c := Completion(js[0], now, times);
    ReadyParts(js, now, k);
    ReadyParts(js, now, 0);
    ReadyLater(js[1..], now, c.clock);
    var pre := js[..k];
    assert pre[0] == js[0] && pre[1..] == js[1..][..k - 1];
  }

  /** The job at index k is run to completion from the clock at which the
      jobs before it are done, and the next job starts when it is done. */
  lemma {:induction false} CompleteEachAt(js: seq<JobState>, now: nat, times: StepTimes, k: nat)
    requires Ready(js, now) && k < |js|
    ensures var t := StartOf(js, now, times, k);
            ValidJob(js[k]) && NotAfter(js[k], t)
            && CompleteEach(js, now, times).jobs[k] == Completion(js[k], t, times).job
            && CompleteEach(js, now, times).outcomes[k] == Completion(js[k], t, times).outcome
            && StartOf(js, now, times, k + 1) == Completion(js[k], t, times).clock
    decreases k
  {
    var c := Completion(js[0], now, times);
    ReadyParts(js, now, 0);
    ReadyLater(js[1..], now, c.clock);
    StartOfShift(js, now, times, k + 1);
    if k == 0 {
      assert js[..0] == [];
      assert js[1..][..0] == [];
    } else {
      StartOfShift(js, now, times, k);
      CompleteEachAt(js[1..], c.clock, times, k - 1);
      assert js[1..][k - 1] == js[k];
    }
  }

  /** A call that succeeded is finished exactly when it carries a result,
      and that result is the job's. */
  predicate TaggedOne(j: JobState, o: Result<QuantumOutcome>) {
    o.Ok? ==> (o.value.finished <==> o.value.result.Some?)
              && (o.value.result.Some? ==> o.value.result.value.jobId == j.id)
  }

  /** Every outcome of a batch is tagged with its job. */
  predicate Tagged(jobs: seq<JobState>, outcomes: seq<Result<QuantumOutcome>>) {
    |jobs| == |outcomes| && forall k :: 0 <= k < |jobs| ==> TaggedOne(jobs[k], outcomes[k])
  }

  lemma TaggedCons(j: JobState, o: Result<QuantumOutcome>, js: seq<JobState>, os: seq<Result<QuantumOutcome>>)
    requires |js| == |os|
    ensures Tagged([j] + js, [o] + os) <==> (TaggedOne(j, o) && Tagged(js, os))
  {
    var jobs, outcomes := [j] + js, [o] + os;
    assert jobs[0] == j && outcomes[0] == o;
    if Tagged(jobs, outcomes) {
      forall k | 0 <= k < |js|
        ensures TaggedOne(js[k], os[k])
      {
        assert jobs[k + 1] == js[k] && outcomes[k + 1] == os[k];
      }
    }
    if TaggedOne(j, o) && Tagged(js, os) {
      forall k | 0 <= k < |jobs|
        ensures TaggedOne(jobs[k], outcomes[k])
      {
        if k > 0 {
          assert outcomes[k] == os[k - 1] && jobs[k] == js[k - 1];
        }
      }
    }
  }

  /** Each job given one quantum, one after another. */
  function QuantumEach(js: seq<JobState>, quantum: int, now: nat, times: StepTimes): (p: Pass<QuantumOutcome>)
    requires Ready(js, now)
    ensures |p.jobs| == |js| && |p.outcomes| == |js| && now <= p.clock && Ready(p.jobs, p.clock)
    decreases |js|
  {
    if js == [] then Pass([], [], now)
    else
      var c := Quantum(js[0], quantum, now, times);
      ReadyParts(js, now, 0);
      ReadyLater(js[1..], now, c.clock);
      var rest := QuantumEach(js[1..], quantum, c.clock, times);
      Pass([c.job] + rest.jobs, [c.outcome] + rest.outcomes, rest.clock)
  }

  /** Every job keeps its identity through a round, and every finished
      outcome carries that job's result. */
  lemma {:induction false} QuantumEachTagged(js: seq<JobState>, quantum: int, now: nat, times: StepTimes)
    requires Ready(js, now)
    ensures var p := QuantumEach(js, quantum, now, times);
            Ids(p.jobs) == Ids(js) && Tagged(p.jobs, p.outcomes)
    decreases |js|
  {
    if js != [] {
      QuantumEachCons(js, quantum, now, times);
      var c := Quantum(js[0], quantum, now, times);
      var rest := QuantumEach(js[1..], quantum, c.clock, times);
      QuantumEachTagged(js[1..], quantum, c.clock, times);
      TaggedCons(c.job, c.outcome, rest.jobs, rest.outcomes);
      IdsAppend([c.job], rest.jobs);
      IdsAppend([js[0]], js[1..]);
      assert [js[0]] + js[1..] == js;
    }
  }

  /** A pass with one job first. */
  lemma QuantumEachCons(js: seq<JobState>, quantum: int, now: nat, times: StepTimes)
    requires Ready(js, now) && js != []
    ensures var c := Quantum(js[0], quantum, now, times);
            Ready(js[1..], c.clock)
            && var rest := QuantumEach(js[1..], quantum, c.clock, times);
               QuantumEach(js, quantum, now, times)
                 == Pass([c.job] + rest.jobs, [c.outcome] + rest.outcomes, rest.clock)
  {
    var c := Quantum(js[0], quantum, now, times);
    ReadyParts(js, now, 0);
    ReadyLater(js[1..], now, c.clock);
  }

  // ------------------------------------------------------------ FCFS / SJF

  /** First-come-first-served: every submitted job run to completion, in
      submission order; the results, or the first failure. */
  function FirstComeFirstServed(js: seq<JobState>, now: nat, times: StepTimes): (r: (Result<seq<JobResult>>, nat))
    requires Ready(js, now)
  {
    var p := CompleteEach(js, now, times);
    (Collect(p.outcomes), p.clock)
  }

  /** FCFS returns one result per submitted job, in submission order; each
      is the result of that job's runner, finished. */
  lemma FirstComeFirstServedOrder(js: seq<JobState>, now: nat, times: StepTimes)
    requires Ready(js, now)
    ensures var r := FirstComeFirstServed(js, now, times).0;
            var p := CompleteEach(js, now, times);
            r.Ok? ==>
              ResultIds(r.value) == Ids(js)
              && forall k :: 0 <= k < |js| ==>
                   ValidJob(p.jobs[k]) && Finished(p.jobs[k].runner) && r.value[k].solution == ResultOf(p.jobs[k].runner)
                   && r.value[k].methodName == js[k].methodName
  {
    var p := CompleteEach(js, now, times);
    var r := Collect(p.outcomes);
    if r.Ok? {
      forall k | 0 <= k < |js|
        ensures r.value[k].jobId == js[k].id
        ensures ValidJob(p.jobs[k]) && Finished(p.jobs[k].runner) && r.value[k].solution == ResultOf(p.jobs[k].runner)
        ensures r.value[k].methodName == js[k].methodName
      {
        CompleteEachAt(js, now, times, k);
        CompletedJob(js[k], StartOf(js, now, times, k), times, p.jobs[k], p.outcomes[k]);
      }
    }
  }

  /** A job whose run to completion succeeded is left finished, and its
      result carries its id, its method and its runner's answer. */
  lemma CompletedJob(j: JobState, t: nat, times: StepTimes, job: JobState, outcome: Result<JobResult>)
    requires ValidJob(j) && NotAfter(j, t)
    requires job == Completion(j, t, times).job && outcome == Completion(j, t, times).outcome && outcome.Ok?
    ensures ValidJob(job) && Finished(job.runner) && outcome.value.solution == ResultOf(job.runner)
    ensures outcome.value.jobId == j.id && outcome.value.methodName == j.methodName
  {
    CompletionBookkeeping(j, t, times);
  }

  /** Jobs created together and not yet started, run in sequence: the first
      waits only until the pass starts, each later job waits exactly until the
      job before it finished, and turnaround is waiting plus elapsed time. */
  lemma SequentialWaiting(js: seq<JobState>, created: nat, now: nat, times: StepTimes)
    requires Ready(js, now)
    requires forall j :: j in js ==> j.created == created && j.firstStart.None? && j.accumulatedElapsedMs == 0
    ensures var r := FirstComeFirstServed(js, now, times).0;
            r.Ok? ==>
              (|js| > 0 ==> r.value[0].waitingMs == now - created)
              && (forall k :: 0 <= k < |js| ==> r.value[k].turnaroundMs == r.value[k].waitingMs + r.value[k].elapsedMs)
              && (forall k :: 0 < k < |js| ==> r.value[k].waitingMs == r.value[k - 1].turnaroundMs)
  {
    var p := CompleteEach(js, now, times);
    var r := Collect(p.outcomes);
    if r.Ok? {
      forall k | 0 <= k < |js|
        ensures r.value[k].waitingMs == StartOf(js, now, times, k) - created
        ensures r.value[k].turnaroundMs == StartOf(js, now, times, k + 1) - created
        ensures r.value[k].turnaroundMs == r.value[k].waitingMs + r.value[k].elapsedMs
      {
        assert js[k] in js;
        CompleteEachAt(js, now, times, k);
        FreshJobTimes(js[k], StartOf(js, now, times, k), times);
      }
      if |js| > 0 {
        assert js[..0] == [];
      }
    }
  }

  /** The estimate a job was submitted with. */
  function EstimateOf(j: Job): Option<int> {
    j.estimatedMs
  }

  // ----------------------------------------------------------- Round-Robin

  predicate AllValid(js: seq<JobState>) {
    forall j :: j in js ==> ValidJob(j)
  }

  /** The steps still owed to the jobs in a queue, plus one per job. */
  function Weight(js: seq<JobState>): nat
    requires AllValid(js)
  {
    if js == [] then 0
    else
      assert js[0] in js;
      assert forall j :: j in js[1..] ==> j in js;
      Remaining(js[0].runner) + 1 + Weight(js[1..])
  }

  lemma {:induction false} WeightAppend(xs: seq<JobState>, ys: seq<JobState>)
    requires AllValid(xs) && AllValid(ys)
    ensures AllValid(xs + ys) && Weight(xs + ys) == Weight(xs) + Weight(ys)
    decreases |xs|
  {
    if xs == [] {
      assert xs + ys == ys;
    } else {
      var zs := xs + ys;
      assert zs[0] == xs[0] && zs[1..] == xs[1..] + ys;
      assert forall j :: j in xs[1..] ==> j in xs;
      WeightAppend(xs[1..], ys);
    }
  }

  /** Every outcome of a batch succeeded, and a finished one carries its result. */
  predicate Succeeded(outcomes: seq<Result<QuantumOutcome>>) {
    forall k :: 0 <= k < |outcomes| ==> outcomes[k].Ok? && (outcomes[k].value.finished ==> outcomes[k].value.result.Some?)
  }

  /** The results of the jobs of a batch that finished, in batch order. */
  function FinishedResults(outcomes: seq<Result<QuantumOutcome>>): (r: seq<JobResult>)
    requires Succeeded(outcomes)
  {
    if outcomes == [] then []
    else (if outcomes[0].value.finished then [outcomes[0].value.result.value] else [])
         + FinishedResults(outcomes[1..])
  }

  /** The jobs of a batch that did not finish, in batch order: they go back
      to the tail of the queue. */
  function Unfinished<T>(jobs: seq<T>, outcomes: seq<Result<QuantumOutcome>>): (r: seq<T>)
    requires |jobs| == |outcomes| && Succeeded(outcomes)
    ensures forall x :: x in r ==> x in jobs
  {
    if jobs == [] then []
    else
      assert forall x :: x in jobs[1..] ==> x in jobs;
      (if outcomes[0].value.finished then [] else [jobs[0]]) + Unfinished(jobs[1..], outcomes[1..])
  }

  /** A job of the batch whose slice did not finish it goes back to the queue. */
  lemma {:induction false} UnfinishedKeeps<T>(jobs: seq<T>, outcomes: seq<Result<QuantumOutcome>>, i: nat)
    requires |jobs| == |outcomes| && Succeeded(outcomes) && i < |jobs| && !outcomes[i].value.finished
    ensures jobs[i] in Unfinished(jobs, outcomes)
    decreases i
  {
    if i > 0 {
      SucceededTail(outcomes);
      UnfinishedKeeps(jobs[1..], outcomes[1..], i - 1);
    }
  }

  lemma SucceededTail(outcomes: seq<Result<QuantumOutcome>>)
    requires Succeeded(outcomes) && outcomes != []
    ensures Succeeded(outcomes[1..])
  {
    assert forall k :: 0 <= k < |outcomes[1..]| ==> outcomes[1..][k] == outcomes[k + 1];
  }

  /** The head of a batch and the rest, split apart. */
  lemma SplitCons<T>(j: T, o: Result<QuantumOutcome>, js: seq<T>, os: seq<Result<QuantumOutcome>>)
    requires |js| == |os| && Succeeded([o] + os)
    ensures o.Ok? && (o.value.finished ==> o.value.result.Some?)
    ensures Succeeded(os)
    ensures FinishedResults([o] + os) == (if o.value.finished then [o.value.result.value] else []) + FinishedResults(os)
    ensures Unfinished([j] + js, [o] + os) == (if o.value.finished then [] else [j]) + Unfinished(js, os)
  {
    SucceededTail([o] + os);
    assert ([o] + os)[0] == o;
    assert ([o] + os)[1..] == os && ([j] + js)[1..] == js;
  }

  /** The outcomes of a batch with no failure succeeded. */
  lemma QuantumEachSucceeded(js: seq<JobState>, quantum: int, now: nat, times: StepTimes)
    requires Ready(js, now)
    requires FirstFailure(QuantumEach(js, quantum, now, times).outcomes).None?
    ensures Succeeded(QuantumEach(js, quantum, now, times).outcomes)
  {
    QuantumEachTagged(js, quantum, now, times);
  }

  /** A job that is through: its runner is finished and its finish time recorded. */
  predicate Done(j: JobState) {
    Finished(j.runner) && j.finish.Some?
  }

  /** A slice that reports its job finished leaves that job through. */
  lemma QuantumFinishes(j: JobState, quantum: int, now: nat, times: StepTimes)
    requires ValidJob(j) && NotAfter(j, now)
    ensures var c := Quantum(j, quantum, now, times);
            c.outcome.Ok? && c.outcome.value.finished ==> Done(c.job)
  {
    QuantumOutcomeFinished(j, quantum, now, times);
  }

  /** Every job whose slice reported it finished is through. */
  predicate DoneWhereFinished(jobs: seq<JobState>, outcomes: seq<Result<QuantumOutcome>>) {
    |jobs| == |outcomes|
    && forall k :: 0 <= k < |jobs| && outcomes[k].Ok? && outcomes[k].value.finished ==> Done(jobs[k])
  }

  lemma DoneWhereFinishedCons(j: JobState, o: Result<QuantumOutcome>,
                              jobs: seq<JobState>, outcomes: seq<Result<QuantumOutcome>>)
    requires (o.Ok? && o.value.finished ==> Done(j)) && DoneWhereFinished(jobs, outcomes)
    ensures DoneWhereFinished([j] + jobs, [o] + outcomes)
  {
    forall k | 1 <= k < |jobs| + 1 ensures ([j] + jobs)[k] == jobs[k - 1] && ([o] + outcomes)[k] == outcomes[k - 1] {
    }
  }

  /** Every job of a pass whose slice reported it finished is through. */
  lemma {:induction false} QuantumEachDone(js: seq<JobState>, quantum: int, now: nat, times: StepTimes)
    requires Ready(js, now)
    ensures var p := QuantumEach(js, quantum, now, times);
            DoneWhereFinished(p.jobs, p.outcomes)
    decreases |js|
  {
    if js != [] {
      QuantumEachCons(js, quantum, now, times);
      var c := Quantum(js[0], quantum, now, times);
      QuantumFinishes(js[0], quantum, now, times);
      var rest := QuantumEach(js[1..], quantum, c.clock, times);
      QuantumEachDone(js[1..], quantum, c.clock, times);
      DoneWhereFinishedCons(c.job, c.outcome, rest.jobs, rest.outcomes);
    }
  }


  /** One round takes weight off every job of a batch: a finished job leaves
      the queue, an unfinished one has fewer steps left. */
  lemma {:induction false} RoundLosesWeight(js: seq<JobState>, quantum: int, now: nat, times: StepTimes)
    requires Ready(js, now) && quantum > 0
    requires Succeeded(QuantumEach(js, quantum, now, times).outcomes)
    ensures var p := QuantumEach(js, quantum, now, times);
            Ready(Unfinished(p.jobs, p.outcomes), p.clock)
            && AllValid(js) && Weight(Unfinished(p.jobs, p.outcomes)) + |js| <= Weight(js)
    decreases |js|
  {
    var p := QuantumEach(js, quantum, now, times);
    if js != [] {
      QuantumEachCons(js, quantum, now, times);
      var c := Quantum(js[0], quantum, now, times);
      var rest := QuantumEach(js[1..], quantum, c.clock, times);
      SplitCons(c.job, c.outcome, rest.jobs, rest.outcomes);
      RoundLosesWeight(js[1..], quantum, c.clock, times);
      QuantumProgress(js[0], quantum, now, times);
      var head := if c.outcome.value.finished then [] else [c.job];
      var tail := Unfinished(rest.jobs, rest.outcomes);
      assert c.job in p.jobs;
      WeightAppend(head, tail);
      assert Weight(head) == if c.outcome.value.finished then 0 else Remaining(c.job.runner) + 1 by {
        if !c.outcome.value.finished {
          assert head[1..] == [];
        }
      }
      assert js[0] in js;
      assert forall j :: j in js[1..] ==> j in js;
    }
  }

  /** How many jobs a round takes from the head of the queue. */
  function BatchSize(parallelism: nat, queued: nat): (n: nat)
    ensures n <= queued && (parallelism >= 1 && queued >= 1 ==> n >= 1)
    ensures n == parallelism || n == queued
  {
    if parallelism < queued then parallelism else queued
  }

  /** The queue after a round without failure: the jobs not taken, then the
      batch's unfinished jobs; it is lighter than the queue before. */
  lemma RoundShrinksQueue(queue: seq<JobState>, n: nat, quantum: int, now: nat, times: StepTimes)
    requires Ready(queue, now) && quantum > 0 && 1 <= n <= |queue|
    requires Ready(queue[..n], now) && FirstFailure(QuantumEach(queue[..n], quantum, now, times).outcomes).None?
    ensures var p := QuantumEach(queue[..n], quantum, now, times);
            Succeeded(p.outcomes)
            && Ready(queue[n..] + Unfinished(p.jobs, p.outcomes), p.clock)
            && AllValid(queue) && Weight(queue[n..] + Unfinished(p.jobs, p.outcomes)) < Weight(queue)
  {
    var p := QuantumEach(queue[..n], quantum, now, times);
    QuantumEachSucceeded(queue[..n], quantum, now, times);
    RoundLosesWeight(queue[..n], quantum, now, times);
    RequeueLighter(queue, n, Unfinished(p.jobs, p.outcomes), now, p.clock);
  }

  /** Putting back jobs lighter than the batch taken from the head leaves
      a lighter queue. */
  lemma RequeueLighter(queue: seq<JobState>, n: nat, again: seq<JobState>, now: nat, later: nat)
    requires Ready(queue, now) && 1 <= n <= |queue| && now <= later && Ready(again, later)
    requires AllValid(queue[..n]) && Weight(again) + n <= Weight(queue[..n])
    ensures Ready(queue[n..] + again, later) && AllValid(queue)
    ensures Weight(queue[n..] + again) < Weight(queue)
  {
    ReadyParts(queue, now, n);
    ReadyLater(queue[n..], now, later);
    assert queue == queue[..n] + queue[n..];
    WeightAppend(queue[..n], queue[n..]);
    WeightAppend(queue[n..], again);
  }

  /** Round-robin from a queue and the results so far: each round pops up to
      `parallelism` jobs, gives each one quantum, and then, in batch order,
      records the finished and re-queues the unfinished at the tail. */
  function RoundRobinFrom(queue: seq<JobState>, results: seq<JobResult>, quantum: int, parallelism: nat,
                          now: nat, times: StepTimes): (r: (Result<seq<JobResult>>, nat))
    requires quantum > 0 && parallelism >= 1 && Ready(queue, now)
    decreases AllValid(queue), Weight(queue)
  {
    if queue == [] then (Ok(results), now)
    else
      var n := BatchSize(parallelism, |queue|);
      ReadyParts(queue, now, n);
      var p := QuantumEach(queue[..n], quantum, now, times);
      var f := FirstFailure(p.outcomes);
      if f.Some? then (Err(JobFailed(f.value)), p.clock)
      else
        RoundShrinksQueue(queue, n, quantum, now, times);
        RoundRobinFrom(queue[n..] + Unfinished(p.jobs, p.outcomes), results + FinishedResults(p.outcomes),
                       quantum, parallelism, p.clock, times)
  }

  /** Round-robin over the submitted jobs. */
  function RoundRobin(js: seq<JobState>, quantum: int, parallelism: nat, now: nat, times: StepTimes): (r: (Result<seq<JobResult>>, nat))
    requires quantum > 0 && parallelism >= 1 && Ready(js, now)
  {
    RoundRobinFrom(js, [], quantum, parallelism, now, times)
  }

  /** The finished results of a batch and its re-queued jobs together
      account for every job of the batch once. */
  lemma {:induction false} BatchAccountsForEveryJob(jobs: seq<JobState>, outcomes: seq<Result<QuantumOutcome>>)
    requires Tagged(jobs, outcomes) && Succeeded(outcomes)
    ensures multiset(ResultIds(FinishedResults(outcomes))) + multiset(Ids(Unfinished(jobs, outcomes)))
              == multiset(Ids(jobs))
    decreases |jobs|
  {
    if jobs != [] {
      var j, o := jobs[0], outcomes[0];
      var js, os := jobs[1..], outcomes[1..];
      assert jobs == [j] + js && outcomes == [o] + os;
      SplitCons(j, o, js, os);
      TaggedCons(j, o, js, os);
      BatchAccountsForEveryJob(js, os);
      var headR := if o.value.finished then [o.value.result.value] else [];
      var headJ := if o.value.finished then [] else [j];
      ResultIdsAppend(headR, FinishedResults(os));
      IdsAppend(headJ, Unfinished(js, os));
      IdsCons(j, js);
      HeadAccounts(j, o);
      Regroup(ResultIds(headR), ResultIds(FinishedResults(os)), Ids(headJ), Ids(Unfinished(js, os)), Ids(js), j.id);
    }
  }

  lemma IdsCons(j: JobState, js: seq<JobState>)
    ensures Ids([j] + js) == [j.id] + Ids(js)
  {
    assert Ids([j] + js) == Ids([j]) + Ids(js) && Ids([j]) == [j.id];
  }

  /** The head's share and the rest's share, put together. */
  lemma Regroup(a: seq<string>, b: seq<string>, c: seq<string>, d: seq<string>, e: seq<string>, x: string)
    requires multiset(a) + multiset(c) == multiset{x} && multiset(b) + multiset(d) == multiset(e)
    ensures multiset(a + b) + multiset(c + d) == multiset([x] + e)
  {
  }

  /** A job of a batch is either among the finished results or re-queued. */
  lemma HeadAccounts(j: JobState, o: Result<QuantumOutcome>)
    requires TaggedOne(j, o) && o.Ok? && (o.value.finished ==> o.value.result.Some?)
    ensures var headR := if o.value.finished then [o.value.result.value] else [];
            var headJ := if o.value.finished then [] else [j];
            multiset(ResultIds(headR)) + multiset(Ids(headJ)) == multiset{j.id}
  {
    if o.value.finished {
      assert ResultIds([o.value.result.value]) == [j.id];
      assert Ids([]) == [];
    } else {
      assert ResultIds([]) == [];
      assert Ids([j]) == [j.id];
    }
  }

  /** Every job in the queue ends up in the results exactly once. */
  lemma {:induction false} RoundRobinAccountsForEveryJob(queue: seq<JobState>, results: seq<JobResult>, quantum: int,
                                                        parallelism: nat, now: nat, times: StepTimes)
    requires quantum > 0 && parallelism >= 1 && Ready(queue, now)
    ensures var r := RoundRobinFrom(queue, results, quantum, parallelism, now, times).0;
            r.Ok? ==> multiset(ResultIds(r.value)) == multiset(ResultIds(results)) + multiset(Ids(queue))
    decreases AllValid(queue), Weight(queue)
  {
    if queue != [] {
      var n := BatchSize(parallelism, |queue|);
      ReadyParts(queue, now, n);
      var p := QuantumEach(queue[..n], quantum, now, times);
      if FirstFailure(p.outcomes).None? {
        RoundShrinksQueue(queue, n, quantum, now, times);
        var again := Unfinished(p.jobs, p.outcomes);
        var done := FinishedResults(p.outcomes);
        RoundRobinAccountsForEveryJob(queue[n..] + again, results + done, quantum, parallelism, p.clock, times);
        QuantumEachTagged(queue[..n], quantum, now, times);
        var r := RoundRobinFrom(queue[n..] + again, results + done, quantum, parallelism, p.clock, times).0;
        if r.Ok? {
          RoundAccounts(queue, n, results, p.jobs, p.outcomes, r.value);
        }
      }
    }
  }

  /** One round's bookkeeping: if the later rounds account for the re-queued
      jobs and this round's results, every job of the queue is accounted for. */
  lemma RoundAccounts(queue: seq<JobState>, n: nat, results: seq<JobResult>, jobs: seq<JobState>,
                      outcomes: seq<Result<QuantumOutcome>>, later: seq<JobResult>)
    requires n <= |queue| && Tagged(jobs, outcomes) && Succeeded(outcomes) && Ids(jobs) == Ids(queue[..n])
    requires multiset(ResultIds(later))
               == multiset(ResultIds(results + FinishedResults(outcomes))) + multiset(Ids(queue[n..] + Unfinished(jobs, outcomes)))
    ensures multiset(ResultIds(later)) == multiset(ResultIds(results)) + multiset(Ids(queue))
  {
    BatchAccountsForEveryJob(jobs, outcomes);
    ResultIdsAppend(results, FinishedResults(outcomes));
    IdsAppend(queue[n..], Unfinished(jobs, outcomes));
    IdsAppend(queue[..n], queue[n..]);
    assert queue[..n] + queue[n..] == queue;
  }

  /** With one worker, a round gives the head of the queue one quantum and
      records its result or re-queues it at the tail. */
  lemma OneWorkerRound(queue: seq<JobState>, results: seq<JobResult>, quantum: int, now: nat, times: StepTimes)
    requires quantum > 0 && Ready(queue, now) && queue != []
    requires Quantum(queue[0], quantum, now, times).outcome.Ok?
    ensures var c := Quantum(queue[0], quantum, now, times);
            var o := c.outcome.value;
            Ready(queue[1..] + (if o.finished then [] else [c.job]), c.clock)
            && RoundRobinFrom(queue, results, quantum, 1, now, times)
               == RoundRobinFrom(queue[1..] + (if o.finished then [] else [c.job]),
                                 results + (if o.finished then [o.result.value] else []), quantum, 1, c.clock, times)
  {
    ReadyParts(queue, now, 1);
    var c := Quantum(queue[0], quantum, now, times);
    var p := QuantumEach(queue[..1], quantum, now, times);
    assert p == Pass([c.job], [c.outcome], c.clock) by {
      QuantumEachCons(queue[..1], quantum, now, times);
      assert queue[..1][1..] == [] && queue[..1][0] == queue[0];
    }
    assert FirstFailure(p.outcomes).None?;
    assert Succeeded([c.outcome] + []);
    SplitCons(c.job, c.outcome, [], []);
    assert [c.job] + [] == [c.job] && [c.outcome] + [] == [c.outcome];
    RoundShrinksQueue(queue, 1, quantum, now, times);
    var o := c.outcome.value;
    assert Unfinished(p.jobs, p.outcomes) == (if o.finished then [] else [c.job]);
    assert FinishedResults(p.outcomes) == (if o.finished then [o.result.value] else []);
    assert RoundRobinFrom(queue, results, quantum, 1, now, times)
           == RoundRobinFrom(queue[1..] + Unfinished(p.jobs, p.outcomes), results + FinishedResults(p.outcomes),
                             quantum, 1, p.clock, times);
  }

  lemma ReadyPair(a: JobState, b: JobState, now: nat)
    requires ValidJob(a) && NotAfter(a, now) && ValidJob(b) && NotAfter(b, now)
    ensures Ready([a, b], now) && Ready([b], now)
  {
  }

  lemma ResultIdsPair(a: JobResult, b: JobResult)
    ensures ResultIds([a, b]) == [a.jobId, b.jobId]
  {
  }

  function ExampleX(): JobState {
    JobState("jobX", "jobX", Some(40), 0, LibraryState(Ok([]), [], 0, false), None, None, 0)
  }

  function ExampleY(): JobState {
    JobState("jobY", "jobY", Some(40), 0, LibraryState(Ok([]), [], 2, false), None, None, 0)
  }

  /** X's first slice: two 5 ms steps use up the quantum. */
  lemma ExampleFirstSlice(times: StepTimes)
    requires forall s :: Duration(times, s) == 5
    ensures ValidJob(ExampleX()) && NotAfter(ExampleX(), 0)
    ensures Quantum(ExampleX(), 10, 0, times)
              == Call(ExampleX1(), Ok(QuantumOutcome(false, 10, None)), 10)
  {
    var lx0 := ExampleX().runner;
    var lx1 := LibraryState(Ok([]), [], 1, false);
    DriveStep(lx0, Step(lx0), true, 10, times);
    DriveStep(lx1, Step(lx1), true, 5, times);
  }

  /** Y's slice: its one step finishes it. */
  lemma ExampleYSlice(times: StepTimes)
    requires forall s :: Duration(times, s) == 5
    ensures ValidJob(ExampleY()) && NotAfter(ExampleY(), 10)
    ensures Quantum(ExampleY(), 10, 10, times)
              == Call(ExampleY().(firstStart := Some(10), runner := LibraryState(Ok([]), [], 3, true),
                                  accumulatedElapsedMs := 5, finish := Some(15)),
                      Ok(QuantumOutcome(true, 5, Some(ExampleResultY()))), 15)
  {
    ExampleYDrive(times);
    assert Quantum(ExampleY(), 10, 10, times)
        == QuantumDrive(ExampleY().(firstStart := Some(10)), 10, LibraryState(Ok([]), [], 3, true), None, 5);
  }

  /** Y's one step, from phase 2 to the end, takes 5 ms. */
  lemma ExampleYDrive(times: StepTimes)
    requires forall s :: Duration(times, s) == 5
    ensures DriveRunner(ExampleY().runner, true, 10, times) == Drive(LibraryState(Ok([]), [], 3, true), None, 1, 5)
  {
    var s, s1 := ExampleY().runner, LibraryState(Ok([]), [], 3, true);
    assert Step(s) == Ok(s1);
    DriveStep(s, Ok(s1), true, 10, times);
  }

  /** X's last slice: its third step finishes it. */
  lemma ExampleLastSlice(x1: JobState, times: StepTimes)
    requires forall s :: Duration(times, s) == 5
    requires x1 == ExampleX1()
    ensures ValidJob(x1) && NotAfter(x1, 15)
    ensures Quantum(x1, 10, 15, times)
              == Call(x1.(runner := LibraryState(Ok([]), [], 3, true), accumulatedElapsedMs := 15, finish := Some(20)),
                      Ok(QuantumOutcome(true, 5, Some(ExampleResultX()))), 20)
  {
    DriveStep(x1.runner, Step(x1.runner), true, 10, times);
  }

  /** X after its first slice. */
  function ExampleX1(): JobState {
    ExampleX().(firstStart := Some(0), runner := LibraryState(Ok([]), [], 2, false), accumulatedElapsedMs := 10)
  }

  function ExampleResultY(): JobResult {
    JobResult("jobY", "jobY", 5, 10, 15, [])
  }

  function ExampleResultX(): JobResult {
    JobResult("jobX", "jobX", 15, 0, 20, [])
  }

  /** Two jobs and one worker, where the first needs two slices and the
      second one: the second job's result comes back first, and the pass ends
      when the first job's second slice does. */
  lemma RotationOfTwo(x: JobState, y: JobState, quantum: int, now: nat, times: StepTimes)
    requires quantum > 0 && Ready([x, y], now)
    requires var c1 := Quantum(x, quantum, now, times);
             c1.outcome.Ok? && !c1.outcome.value.finished
             && var c2 := Quantum(y, quantum, c1.clock, times);
                c2.outcome.Ok? && c2.outcome.value.finished
                && var c3 := Quantum(c1.job, quantum, c2.clock, times);
                   c3.outcome.Ok? && c3.outcome.value.finished
    ensures var c1 := Quantum(x, quantum, now, times);
            var c2 := Quantum(y, quantum, c1.clock, times);
            var c3 := Quantum(c1.job, quantum, c2.clock, times);
            RoundRobin([x, y], quantum, 1, now, times)
              == (Ok([c2.outcome.value.result.value, c3.outcome.value.result.value]), c3.clock)
  {
    var c1 := Quantum(x, quantum, now, times);
    var c2 := Quantum(y, quantum, c1.clock, times);
    var c3 := Quantum(c1.job, quantum, c2.clock, times);
    var r2, r3 := c2.outcome.value.result.value, c3.outcome.value.result.value;
    assert [x, y][0] == x && [x, y][1..] + [c1.job] == [y, c1.job];
    assert [y, c1.job][0] == y && [y, c1.job][1..] + [] == [c1.job];
    assert [c1.job][0] == c1.job && [c1.job][1..] + [] == [];
    var none: seq<JobResult> := [];
    assert none + [] == [] && none + [r2] == [r2] && [r2] + [r3] == [r2, r3];
    OneWorkerRound([x, y], [], quantum, now, times);
    OneWorkerRound([y, c1.job], [], quantum, c1.clock, times);
    OneWorkerRound([c1.job], [r2], quantum, c2.clock, times);
  }

  /** A job of three steps (X) and one of a single step (Y) under a 10 ms
      quantum with 5 ms steps and one worker: X runs two steps, is re-queued
      behind Y, Y finishes, then X finishes; the results come back Y first,
      and the pass takes the four steps' 20 ms. */
  lemma RoundRobinExample(times: StepTimes)
    requires forall s :: Duration(times, s) == 5
    ensures Ready([ExampleX(), ExampleY()], 0)
    ensures var r := RoundRobin([ExampleX(), ExampleY()], 10, 1, 0, times);
            r.0.Ok? && ResultIds(r.0.value) == ["jobY", "jobX"] && r.1 == 20
  {
    ExampleFirstSlice(times);
    ExampleYSlice(times);
    ExampleLastSlice(ExampleX1(), times);
    ReadyPair(ExampleX(), ExampleY(), 0);
    RotationOfTwo(ExampleX(), ExampleY(), 10, 0, times);
    ResultIdsPair(ExampleResultY(), ExampleResultX());
  }
}
