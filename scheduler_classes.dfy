/** The three schedulers as objects: each holds the jobs submitted to it and
    `RunAll` drains them. The worker pool is one lane, so a scheduler's pass
    is the pass of the specification functions in `Schedulers`, and every
    `RunAll` is proved to compute exactly that pass. */
module SchedulerClasses {
  import opened Wrappers
  import opened Numeric
  import opened Runners
  import opened Jobs
  import opened Ordering
  import opened Schedulers
  import Config

  /** No job object is submitted twice. */
  ghost predicate Distinct(js: seq<Job>) {
    forall i, k :: 0 <= i < k < |js| ==> js[i] != js[k]
  }

  /** The current state of each job. */
  ghost function StatesOf(js: seq<Job>): (r: seq<JobState>)
    reads js
    ensures |r| == |js|
  {
    if js == [] then [] else [js[0].State()] + StatesOf(js[1..])
  }

  lemma {:induction false} StatesOfIndex(js: seq<Job>)
    ensures forall k :: 0 <= k < |js| ==> StatesOf(js)[k] == js[k].State()
  {
    if js != [] {
      StatesOfIndex(js[1..]);
      assert forall k :: 1 <= k < |js| ==> js[1..][k - 1] == js[k];
    }
  }

  /** The states are read from the jobs one by one. */
  lemma StatesOfEach(js: seq<Job>, states: seq<JobState>)
    requires |states| == |js| && forall k :: 0 <= k < |js| ==> js[k].State() == states[k]
    ensures StatesOf(js) == states
  {
    StatesOfIndex(js);
  }

  /** The jobs before index k hold the states `done`, the others still hold
      their states in `s0`. */
  ghost predicate Held(js: seq<Job>, s0: seq<JobState>, k: nat, done: seq<JobState>)
    reads js
  {
    |s0| == |js| && k <= |js| && |done| == k
    && forall i :: 0 <= i < |js| ==> js[i].State() == if i < k then done[i] else s0[i]
  }

  lemma HeldAtStart(js: seq<Job>)
    ensures Held(js, StatesOf(js), 0, [])
  {
    StatesOfIndex(js);
  }

  lemma HeldAtEnd(js: seq<Job>, s0: seq<JobState>, done: seq<JobState>)
    requires Held(js, s0, |js|, done)
    ensures StatesOf(js) == done
  {
    StatesOfEach(js, done);
  }

  /** Moving the head of the rest of a pass to the part already done. */
  lemma ShiftPass<T>(p0: Pass<T>, done: seq<JobState>, outs: seq<Result<T>>, job: JobState, outcome: Result<T>, rest: Pass<T>)
    requires p0 == Pass(done + ([job] + rest.jobs), outs + ([outcome] + rest.outcomes), rest.clock)
    ensures p0 == Pass((done + [job]) + rest.jobs, (outs + [outcome]) + rest.outcomes, rest.clock)
  {
    assert done + ([job] + rest.jobs) == (done + [job]) + rest.jobs;
    assert outs + ([outcome] + rest.outcomes) == (outs + [outcome]) + rest.outcomes;
  }

  /** The calls of jobs 0 to k - 1 of a pass started at `now` gave `done`
      and `outcomes` and the clock reads `clock`: the pass from job k on
      completes the whole pass. */
  ghost predicate CompletionSoFar(s0: seq<JobState>, now: nat, times: StepTimes,
                              k: nat, clock: nat, done: seq<JobState>, outcomes: seq<Result<JobResult>>)
  {
    k <= |s0| && Ready(s0, now) && Ready(s0[k..], clock)
    && var rest := CompleteEach(s0[k..], clock, times);
       CompleteEach(s0, now, times) == Pass(done + rest.jobs, outcomes + rest.outcomes, rest.clock)
  }

  /** Before the first call nothing is done and the rest is the whole pass. */
  lemma CompletionStart(s0: seq<JobState>, now: nat, times: StepTimes)
    requires Ready(s0, now)
    ensures CompletionSoFar(s0, now, times, 0, now, [], [])
  {
    assert s0[0..] == s0;
    var p0 := CompleteEach(s0, now, times);
    assert [] + p0.jobs == p0.jobs && [] + p0.outcomes == p0.outcomes;
  }

  /** After the last call the part done is the whole pass. */
  lemma CompletionDone(s0: seq<JobState>, now: nat, times: StepTimes, clock: nat,
                   done: seq<JobState>, outcomes: seq<Result<JobResult>>)
    requires CompletionSoFar(s0, now, times, |s0|, clock, done, outcomes)
    ensures CompleteEach(s0, now, times) == Pass(done, outcomes, clock)
  {
    assert s0[|s0|..] == [];
    assert done + [] == done && outcomes + [] == outcomes;
  }

  /** One more call: the head of the rest of the pass moves to the part done. */
  lemma CompletionAdvance(s0: seq<JobState>, now: nat, times: StepTimes, k: nat, clock: nat,
                      done: seq<JobState>, outcomes: seq<Result<JobResult>>, c: Call<JobResult>)
    requires CompletionSoFar(s0, now, times, k, clock, done, outcomes) && k < |s0|
    requires ValidJob(s0[k]) && NotAfter(s0[k], clock) && c == Completion(s0[k], clock, times)
    ensures CompletionSoFar(s0, now, times, k + 1, c.clock, done + [c.job], outcomes + [c.outcome])
  {
    CompleteEachFrom(s0, k, clock, times);
    ShiftPass(CompleteEach(s0, now, times), done, outcomes, c.job, c.outcome, CompleteEach(s0[k + 1..], c.clock, times));
  }

  /** The pass from job k on starts with job k's call. */
  lemma CompleteEachFrom(s0: seq<JobState>, k: nat, clock: nat, times: StepTimes)
    requires k < |s0| && Ready(s0[k..], clock)
    ensures var c := Completion(s0[k], clock, times);
            Ready(s0[k + 1..], c.clock)
            && var rest := CompleteEach(s0[k + 1..], c.clock, times);
               CompleteEach(s0[k..], clock, times) == Pass([c.job] + rest.jobs, [c.outcome] + rest.outcomes, rest.clock)
  {
    CompleteEachCons(s0[k..], clock, times);
    assert s0[k..][0] == s0[k] && s0[k..][1..] == s0[k + 1..];
  }

  /** One job's turn: its call is the head of the rest of the pass. */
  method CompletionNext(js: seq<Job>, clock: nat, times: StepTimes, ghost s0: seq<JobState>, ghost now: nat, k: nat,
                       ghost done: seq<JobState>, ghost outcomes: seq<Result<JobResult>>)
    returns (r: Result<JobResult>, t: nat)
    requires Distinct(js) && k < |js| && Held(js, s0, k, done) && CompletionSoFar(s0, now, times, k, clock, done, outcomes)
    modifies js[k]
    ensures Held(js, s0, k + 1, done + [js[k].State()])
    ensures CompletionSoFar(s0, now, times, k + 1, t, done + [js[k].State()], outcomes + [r])
  {
    assert s0[k] in s0[k..];
    r, t := js[k].RunToCompletion(clock, times);
    CompletionAdvance(s0, now, times, k, clock, done, outcomes, Call(js[k].State(), r, t));
  }

  /** Runs every job to completion, one after another. */
  method RunEachToCompletion(js: seq<Job>, now: nat, times: StepTimes) returns (outcomes: seq<Result<JobResult>>, clock: nat)
    requires Distinct(js) && Ready(StatesOf(js), now)
    modifies js
    ensures var p := CompleteEach(old(StatesOf(js)), now, times);
            StatesOf(js) == p.jobs && outcomes == p.outcomes && clock == p.clock
  {
    ghost var s0 := StatesOf(js);
    HeldAtStart(js);
    CompletionStart(s0, now, times);
    ghost var done: seq<JobState> := [];
    outcomes, clock := [], now;
    var k := 0;
    while k < |js|
      invariant Held(js, s0, k, done) && CompletionSoFar(s0, now, times, k, clock, done, outcomes)
    {
      var o, t := CompletionNext(js, clock, times, s0, now, k, done, outcomes);
      outcomes, clock, k, done := outcomes + [o], t, k + 1, done + [js[k].State()];
    }
    CompletionDone(s0, now, times, clock, done, outcomes);
    HeldAtEnd(js, s0, done);
  }

  /** The calls of jobs 0 to k - 1 of a pass started at `now` gave `done`
      and `outcomes` and the clock reads `clock`: the pass from job k on
      completes the whole pass. */
  ghost predicate QuantumSoFar(s0: seq<JobState>, quantum: int, now: nat, times: StepTimes,
                              k: nat, clock: nat, done: seq<JobState>, outcomes: seq<Result<QuantumOutcome>>)
  {
    k <= |s0| && Ready(s0, now) && Ready(s0[k..], clock)
    && var rest := QuantumEach(s0[k..], quantum, clock, times);
       QuantumEach(s0, quantum, now, times) == Pass(done + rest.jobs, outcomes + rest.outcomes, rest.clock)
  }

  /** Before the first call nothing is done and the rest is the whole pass. */
  lemma QuantumStart(s0: seq<JobState>, quantum: int, now: nat, times: StepTimes)
    requires Ready(s0, now)
    ensures QuantumSoFar(s0, quantum, now, times, 0, now, [], [])
  {
    assert s0[0..] == s0;
    var p0 := QuantumEach(s0, quantum, now, times);
    assert [] + p0.jobs == p0.jobs && [] + p0.outcomes == p0.outcomes;
  }

  /** After the last call the part done is the whole pass. */
  lemma QuantumDone(s0: seq<JobState>, quantum: int, now: nat, times: StepTimes, clock: nat,
                   done: seq<JobState>, outcomes: seq<Result<QuantumOutcome>>)
    requires QuantumSoFar(s0, quantum, now, times, |s0|, clock, done, outcomes)
    ensures QuantumEach(s0, quantum, now, times) == Pass(done, outcomes, clock)
  {
    assert s0[|s0|..] == [];
    assert done + [] == done && outcomes + [] == outcomes;
  }

  /** One more call: the head of the rest of the pass moves to the part done. */
  lemma QuantumAdvance(s0: seq<JobState>, quantum: int, now: nat, times: StepTimes, k: nat, clock: nat,
                      done: seq<JobState>, outcomes: seq<Result<QuantumOutcome>>, c: Call<QuantumOutcome>)
    requires QuantumSoFar(s0, quantum, now, times, k, clock, done, outcomes) && k < |s0|
    requires ValidJob(s0[k]) && NotAfter(s0[k], clock) && c == Quantum(s0[k], quantum, clock, times)
    ensures QuantumSoFar(s0, quantum, now, times, k + 1, c.clock, done + [c.job], outcomes + [c.outcome])
  {
    QuantumEachFrom(s0, k, quantum, clock, times);
    ShiftPass(QuantumEach(s0, quantum, now, times), done, outcomes, c.job, c.outcome, QuantumEach(s0[k + 1..], quantum, c.clock, times));
  }

  /** The pass from job k on starts with job k's call. */
  lemma QuantumEachFrom(s0: seq<JobState>, k: nat, quantum: int, clock: nat, times: StepTimes)
    requires k < |s0| && Ready(s0[k..], clock)
    ensures var c := Quantum(s0[k], quantum, clock, times);
            Ready(s0[k + 1..], c.clock)
            && var rest := QuantumEach(s0[k + 1..], quantum, c.clock, times);
               QuantumEach(s0[k..], quantum, clock, times) == Pass([c.job] + rest.jobs, [c.outcome] + rest.outcomes, rest.clock)
  {
    QuantumEachCons(s0[k..], quantum, clock, times);
    assert s0[k..][0] == s0[k] && s0[k..][1..] == s0[k + 1..];
  }

  /** One job's turn: its call is the head of the rest of the pass. */
  method QuantumNext(js: seq<Job>, quantum: int, clock: nat, times: StepTimes, ghost s0: seq<JobState>, ghost now: nat, k: nat,
                       ghost done: seq<JobState>, ghost outcomes: seq<Result<QuantumOutcome>>)
    returns (r: Result<QuantumOutcome>, t: nat)
    requires Distinct(js) && k < |js| && Held(js, s0, k, done) && QuantumSoFar(s0, quantum, now, times, k, clock, done, outcomes)
    modifies js[k]
    ensures Held(js, s0, k + 1, done + [js[k].State()])
    ensures QuantumSoFar(s0, quantum, now, times, k + 1, t, done + [js[k].State()], outcomes + [r])
  {
    assert s0[k] in s0[k..];
    r, t := js[k].RunForQuantum(quantum, clock, times);
    QuantumAdvance(s0, quantum, now, times, k, clock, done, outcomes, Call(js[k].State(), r, t));
  }

  /** Gives every job of a batch one quantum, one after another. */
  method RunEachForQuantum(js: seq<Job>, quantum: int, now: nat, times: StepTimes) returns (outcomes: seq<Result<QuantumOutcome>>, clock: nat)
    requires Distinct(js) && Ready(StatesOf(js), now)
    modifies js
    ensures var p := QuantumEach(old(StatesOf(js)), quantum, now, times);
            StatesOf(js) == p.jobs && outcomes == p.outcomes && clock == p.clock
  {
    ghost var s0 := StatesOf(js);
    HeldAtStart(js);
    QuantumStart(s0, quantum, now, times);
    ghost var done: seq<JobState> := [];
    outcomes, clock := [], now;
    var k := 0;
    while k < |js|
      invariant Held(js, s0, k, done) && QuantumSoFar(s0, quantum, now, times, k, clock, done, outcomes)
    {
      var o, t := QuantumNext(js, quantum, clock, times, s0, now, k, done, outcomes);
      outcomes, clock, k, done := outcomes + [o], t, k + 1, done + [js[k].State()];
    }
    QuantumDone(s0, quantum, now, times, clock, done, outcomes);
    HeldAtEnd(js, s0, done);
  }

  // ------------------------------------------------------ job object lists

  lemma StatesOfAppend(xs: seq<Job>, ys: seq<Job>)
    ensures StatesOf(xs + ys) == StatesOf(xs) + StatesOf(ys)
  {
    StatesOfIndex(xs);
    StatesOfIndex(ys);
    StatesOfIndex(xs + ys);
  }

  lemma StatesOfParts(js: seq<Job>, n: nat)
    requires n <= |js|
    ensures StatesOf(js[..n]) == StatesOf(js)[..n] && StatesOf(js[n..]) == StatesOf(js)[n..]
  {
    StatesOfIndex(js);
    StatesOfIndex(js[..n]);
    StatesOfIndex(js[n..]);
  }

  /** Jobs a call left alone hold the states they held before it. */
  twostate lemma StatesKept(js: seq<Job>)
    requires forall i :: 0 <= i < |js| ==> unchanged(js[i])
    ensures StatesOf(js) == old(StatesOf(js))
  {
    StatesOfIndex(js);
  }

  /** The head of a distinct list and its tail share no job. */
  lemma DistinctParts(js: seq<Job>, n: nat)
    requires Distinct(js) && n <= |js|
    ensures Distinct(js[..n]) && Distinct(js[n..])
    ensures forall j :: j in js[n..] ==> j !in js[..n]
    ensures forall j :: j in js[..n] ==> j !in js[n..]
  {
    forall j | j in js[n..]
      ensures j !in js[..n]
    {
      var a :| 0 <= a < |js[n..]| && js[n..][a] == j;
      assert js[n + a] == j;
    }
  }

  lemma DistinctAppend(xs: seq<Job>, ys: seq<Job>)
    requires Distinct(xs) && Distinct(ys) && forall j :: j in ys ==> j !in xs
    ensures Distinct(xs + ys)
  {
    var zs := xs + ys;
    forall i, k | 0 <= i < k < |zs|
      ensures zs[i] != zs[k]
    {
      if i < |xs| && k >= |xs| {
        assert zs[k] == ys[k - |xs|] && zs[k] in ys;
      }
    }
  }

  /** A distinct list holds each job at most once. */
  lemma {:induction false} DistinctCounts(js: seq<Job>)
    requires Distinct(js)
    ensures forall j :: multiset(js)[j] <= 1
    decreases |js|
  {
    if js != [] {
      DistinctParts(js, 1);
      DistinctCounts(js[1..]);
      assert js == js[..1] + js[1..] && js[..1] == [js[0]];
      assert multiset(js) == multiset{js[0]} + multiset(js[1..]);
      assert js[0] !in multiset(js[1..]);
    }
  }

  /** A list holding each job at most once is distinct. */
  lemma CountsDistinct(js: seq<Job>)
    requires forall j :: multiset(js)[j] <= 1
    ensures Distinct(js)
  {
    forall i, k | 0 <= i < k < |js|
      ensures js[i] != js[k]
    {
      var x := js[k];
      assert js == js[..k] + js[k..];
      assert multiset(js)[x] == multiset(js[..k])[x] + multiset(js[k..])[x];
      assert x in multiset(js[k..]) by { assert js[k..][0] == x; }
      assert js[..k][i] == js[i] && js[i] in multiset(js[..k]);
    }
  }

  /** A reordering of distinct jobs ready at `now` is distinct and ready too. */
  lemma PermutedJobs(js: seq<Job>, ys: seq<Job>, now: nat)
    requires multiset(ys) == multiset(js) && Distinct(js) && Ready(StatesOf(js), now)
    ensures Distinct(ys) && Ready(StatesOf(ys), now) && forall j :: j in ys ==> j in js
  {
    DistinctCounts(js);
    CountsDistinct(ys);
    StatesOfIndex(js);
    StatesOfIndex(ys);
    forall j | j in ys
      ensures j in js
    {
      assert j in multiset(ys);
    }
    forall s | s in StatesOf(ys)
      ensures ValidJob(s) && NotAfter(s, now)
    {
      var i :| 0 <= i < |ys| && StatesOf(ys)[i] == s;
      assert ys[i] in js;
      var k :| 0 <= k < |js| && js[k] == ys[i];
      assert StatesOf(js)[k] in StatesOf(js);
    }
  }

  /** Collecting the outcomes in order: every job's result, or the first
      failure as a failed job. */
  method CollectOutcomes(outcomes: seq<Result<JobResult>>) returns (r: Result<seq<JobResult>>)
    ensures r == Collect(outcomes)
  {
    var results: seq<JobResult> := [];
    var k := 0;
    while k < |outcomes|
      invariant k <= |outcomes| && |results| == k
      invariant forall i :: 0 <= i < k ==> outcomes[i].Ok? && results[i] == outcomes[i].value
    {
      if outcomes[k].Err? {
        return Err(JobFailed(outcomes[k].error));
      }
      results := results + [outcomes[k].value];
      k := k + 1;
    }
    assert Collect(outcomes).value == results;
    return Ok(results);
  }

  /** Runs the jobs to completion in the given order and collects their
      results: what first-come-first-served does with that sequence. */
  method RunInOrder(js: seq<Job>, now: nat, times: StepTimes) returns (r: Result<seq<JobResult>>, clock: nat)
    requires Distinct(js) && Ready(StatesOf(js), now)
    modifies js
    ensures (r, clock) == FirstComeFirstServed(old(StatesOf(js)), now, times)
    ensures StatesOf(js) == CompleteEach(old(StatesOf(js)), now, times).jobs
  {
    var outcomes;
    outcomes, clock := RunEachToCompletion(js, now, times);
    r := CollectOutcomes(outcomes);
  }

  // ----------------------------------------------------------------- FCFS

  /** First-come-first-served: the submitted jobs wait in a queue and run
      to completion in submission order. */
  class FcfsScheduler {
    var jobs: seq<Job>

    constructor ()
      ensures jobs == []
    {
      jobs := [];
    }

    /** Appends the job at the tail of the queue. */
    method Submit(job: Job)
      modifies this
      ensures jobs == old(jobs) + [job]
    {
      jobs := jobs + [job];
    }

    /** Drains the queue and runs every job to completion, in submission
        order; the results in that order, or the first failure. */
    method RunAll(now: nat, times: StepTimes) returns (r: Result<seq<JobResult>>, clock: nat)
      requires Distinct(jobs) && Ready(StatesOf(jobs), now)
      modifies this, jobs
      ensures jobs == []
      ensures (r, clock) == FirstComeFirstServed(old(StatesOf(jobs)), now, times)
      ensures StatesOf(old(jobs)) == CompleteEach(old(StatesOf(jobs)), now, times).jobs
    {
      var ordered := jobs;
      jobs := [];
      r, clock := RunInOrder(ordered, now, times);
    }
  }

  // ------------------------------------------------------------------ SJF

  /** The order shortest-job-first runs the jobs in: ascending estimate,
      jobs without one last, ties in submission order. */
  ghost function ShortestFirst(js: seq<Job>, now: nat): (ys: seq<Job>)
    requires Distinct(js) && Ready(StatesOf(js), now)
    reads js
    ensures ys == SortByKey(js, EstimateOf)
    ensures (forall j :: j in ys ==> j in js) && Distinct(ys) && Ready(StatesOf(ys), now)
  {
    PermutedJobs(js, SortByKey(js, EstimateOf), now);
    SortByKey(js, EstimateOf)
  }

  /** Shortest-job-first: the submitted jobs are stably sorted by estimate,
      jobs without one last, and then run to completion in that order. */
  class SjfScheduler {
    var jobs: seq<Job>

    constructor ()
      ensures jobs == []
    {
      jobs := [];
    }

    /** Appends the job to the pending list. */
    method Submit(job: Job)
      modifies this
      ensures jobs == old(jobs) + [job]
    {
      jobs := jobs + [job];
    }

    /** Sorts the pending jobs by estimate, empties the list and runs the
        sorted jobs to completion one after another. */
    method RunAll(now: nat, times: StepTimes) returns (r: Result<seq<JobResult>>, clock: nat)
      requires Distinct(jobs) && Ready(StatesOf(jobs), now)
      modifies this, jobs
      ensures jobs == []
      ensures (r, clock) == FirstComeFirstServed(old(StatesOf(ShortestFirst(jobs, now))), now, times)
      ensures StatesOf(old(ShortestFirst(jobs, now))) == CompleteEach(old(StatesOf(ShortestFirst(jobs, now))), now, times).jobs
    {
      var ordered := SortByKey(jobs, EstimateOf);
      PermutedJobs(jobs, ordered, now);
      ghost var pending := jobs;
      jobs := [];
      assert forall i :: 0 <= i < |ordered| ==> ordered[i] in pending;
      r, clock := RunInOrder(ordered, now, times);
    }
  }

  // ----------------------------------------------------------- Round-Robin

  /** The batch of one round: up to `lanes` jobs from the head of the queue,
      each given one quantum. */
  function RoundPass(q: seq<JobState>, quantum: int, lanes: nat, clock: nat, times: StepTimes): Pass<QuantumOutcome>
    requires Ready(q, clock)
  {
    ReadyParts(q, clock, BatchSize(lanes, |q|));
    QuantumEach(q[..BatchSize(lanes, |q|)], quantum, clock, times)
  }

  /** A round either fails the whole run with the batch's first failure,
      or leaves a lighter queue (the jobs not taken, then the batch's
      unfinished jobs) from which the run goes on. */
  lemma RoundOutcome(q: seq<JobState>, results: seq<JobResult>, quantum: int, lanes: nat, clock: nat, times: StepTimes)
    requires quantum > 0 && lanes >= 1 && q != [] && Ready(q, clock)
    ensures var p := RoundPass(q, quantum, lanes, clock, times);
            var f := FirstFailure(p.outcomes);
            f.Some? ==> RoundRobinFrom(q, results, quantum, lanes, clock, times) == (Err(JobFailed(f.value)), p.clock)
    ensures var p := RoundPass(q, quantum, lanes, clock, times);
            FirstFailure(p.outcomes).None? ==>
              Succeeded(p.outcomes)
              && var rest := q[BatchSize(lanes, |q|)..] + Unfinished(p.jobs, p.outcomes);
                 Ready(rest, p.clock) && AllValid(q) && Weight(rest) < Weight(q)
                 && RoundRobinFrom(q, results, quantum, lanes, clock, times)
                    == RoundRobinFrom(rest, results + FinishedResults(p.outcomes), quantum, lanes, p.clock, times)
  {
    var n := BatchSize(lanes, |q|);
    ReadyParts(q, clock, n);
    var p := QuantumEach(q[..n], quantum, clock, times);
    if FirstFailure(p.outcomes).None? {
      RoundShrinksQueue(q, n, quantum, clock, times);
    }
  }

  /** The unfinished jobs of a batch hold the unfinished states. */
  lemma {:induction false} UnfinishedStates(batch: seq<Job>, outcomes: seq<Result<QuantumOutcome>>)
    requires |batch| == |outcomes| && Succeeded(outcomes)
    ensures StatesOf(Unfinished(batch, outcomes)) == Unfinished(StatesOf(batch), outcomes)
    decreases |batch|
  {
    if batch != [] {
      SucceededTail(outcomes);
      UnfinishedStates(batch[1..], outcomes[1..]);
      var head := if outcomes[0].value.finished then [] else [batch[0]];
      StatesOfAppend(head, Unfinished(batch[1..], outcomes[1..]));
      var states := StatesOf(batch);
      assert states == [batch[0].State()] + StatesOf(batch[1..]);
      assert states[0] == batch[0].State() && states[1..] == StatesOf(batch[1..]);
      if head != [] {
        assert StatesOf(head) == [batch[0].State()] + StatesOf(head[1..]) && head[1..] == [];
      }
    }
  }

  /** The unfinished jobs of a distinct batch are distinct. */
  lemma {:induction false} UnfinishedDistinct(batch: seq<Job>, outcomes: seq<Result<QuantumOutcome>>)
    requires |batch| == |outcomes| && Succeeded(outcomes) && Distinct(batch)
    ensures Distinct(Unfinished(batch, outcomes))
    decreases |batch|
  {
    if batch != [] {
      SucceededTail(outcomes);
      DistinctParts(batch, 1);
      assert batch[..1] == [batch[0]] && batch[1..] == batch[1..];
      UnfinishedDistinct(batch[1..], outcomes[1..]);
      var head := if outcomes[0].value.finished then [] else [batch[0]];
      DistinctAppend(head, Unfinished(batch[1..], outcomes[1..]));
    }
  }

  /** The queue after a round: the jobs not taken, then the batch's
      unfinished jobs; still distinct, and holding their states in order. */
  lemma Requeue(waiting: seq<Job>, batch: seq<Job>, outcomes: seq<Result<QuantumOutcome>>)
    requires |batch| == |outcomes| && Succeeded(outcomes)
    requires Distinct(waiting) && Distinct(batch) && forall j :: j in batch ==> j !in waiting
    ensures StatesOf(waiting + Unfinished(batch, outcomes)) == StatesOf(waiting) + Unfinished(StatesOf(batch), outcomes)
    ensures Distinct(waiting + Unfinished(batch, outcomes))
    ensures forall j :: j in waiting + Unfinished(batch, outcomes) ==> j in waiting || j in batch
  {
    UnfinishedStates(batch, outcomes);
    StatesOfAppend(waiting, Unfinished(batch, outcomes));
    UnfinishedDistinct(batch, outcomes);
    DistinctAppend(waiting, Unfinished(batch, outcomes));
  }

  /** After a successful round, every job of the queue that is neither
      still waiting nor re-queued is through. */
  lemma BatchThrough(pending: seq<Job>, n: nat, outcomes: seq<Result<QuantumOutcome>>)
    requires n <= |pending| && |outcomes| == n && Succeeded(outcomes)
    requires DoneWhereFinished(StatesOf(pending[..n]), outcomes)
    ensures forall j :: j in pending && j !in pending[n..] + Unfinished(pending[..n], outcomes) ==> Done(j.State())
  {
    var batch, rest := pending[..n], pending[n..] + Unfinished(pending[..n], outcomes);
    StatesOfIndex(batch);
    forall k | 0 <= k < n && !outcomes[k].value.finished ensures batch[k] in rest {
      UnfinishedKeeps(batch, outcomes, k);
    }
    assert forall k :: n <= k < |pending| ==> pending[k] in rest;
    forall j | j in pending && j !in rest ensures Done(j.State()) {
      var i :| 0 <= i < |pending| && pending[i] == j;
      assert batch[i] == j;
    }
  }

  /** Every job of `all` that has left `pending` is through. */
  ghost predicate AllThrough(all: seq<Job>, pending: seq<Job>)
    reads all
  {
    forall j :: j in all && j !in pending ==> Done(j.State())
  }

  /** Round-robin: the submitted jobs wait in a deque; each round takes up
      to `parallelism` of them from the head and gives each one quantum. */
  class RoundRobinScheduler {
    var queue: seq<Job>
    const quantumMs: int

    /** The scheduler with the default quantum. */
    constructor Default()
      ensures queue == [] && quantumMs == Config.QUANTUM_MS
    {
      queue := [];
      quantumMs := Config.QUANTUM_MS;
    }

    constructor (quantumMs: int)
      ensures queue == [] && this.quantumMs == quantumMs
    {
      queue := [];
      this.quantumMs := quantumMs;
    }

    /** Appends the job at the tail of the deque. */
    method Submit(job: Job)
      modifies this
      ensures queue == old(queue) + [job]
    {
      queue := queue + [job];
    }

    /** The batch taken from the head of the queue runs one quantum per job;
        the jobs behind it wait untouched. */
    method Slice(pending: seq<Job>, lanes: nat, clock: nat, times: StepTimes)
      returns (outcomes: seq<Result<QuantumOutcome>>, later: nat)
      requires quantumMs > 0 && lanes >= 1 && pending != [] && Distinct(pending) && Ready(StatesOf(pending), clock)
      modifies pending
      ensures var n := BatchSize(lanes, |pending|);
              var p := RoundPass(old(StatesOf(pending)), quantumMs, lanes, clock, times);
              StatesOf(pending[..n]) == p.jobs && outcomes == p.outcomes && later == p.clock
              && StatesOf(pending[n..]) == old(StatesOf(pending))[n..]
    {
      ghost var q := StatesOf(pending);
      var n := BatchSize(lanes, |pending|);
      var batch, waiting := pending[..n], pending[n..];
      StatesOfParts(pending, n);
      DistinctParts(pending, n);
      ReadyParts(q, clock, n);
      assert forall i :: 0 <= i < |batch| ==> batch[i] in pending;
      outcomes, later := RunEachForQuantum(batch, quantumMs, clock, times);
      assert forall i :: 0 <= i < |waiting| ==> waiting[i] !in batch;
      StatesKept(waiting);
    }

    /** One round: the batch taken from the head runs one quantum per job;
        its first failure, or the finished results appended to `results`
        and the queue with the unfinished jobs re-appended at the tail. The
        jobs the round takes off the queue are through, and the jobs of
        `all` that had left it before are untouched, so they stay through. */
    method Round(pending: seq<Job>, results: seq<JobResult>, lanes: nat, clock: nat, times: StepTimes, ghost all: seq<Job>)
      returns (failure: Option<Failure>, rest: seq<Job>, done: seq<JobResult>, later: nat)
      requires quantumMs > 0 && lanes >= 1 && pending != [] && Distinct(pending) && Ready(StatesOf(pending), clock)
      requires AllThrough(all, pending)
      modifies pending
      ensures var q := old(StatesOf(pending));
              var p := RoundPass(q, quantumMs, lanes, clock, times);
              failure == FirstFailure(p.outcomes) && later == p.clock
              && (failure.None? ==> Succeeded(p.outcomes) && done == results + FinishedResults(p.outcomes)
                                    && StatesOf(rest) == q[BatchSize(lanes, |q|)..] + Unfinished(p.jobs, p.outcomes))
      ensures failure.None? ==> Distinct(rest) && forall j :: j in rest ==> j in pending
      ensures failure.None? ==> forall j :: j in pending && j !in rest ==> Done(j.State())
      ensures failure.None? ==> AllThrough(all, rest)
    {
      ghost var q := StatesOf(pending);
      var n := BatchSize(lanes, |pending|);
      var outcomes;
      outcomes, later := Slice(pending, lanes, clock, times);
      var batch, waiting := pending[..n], pending[n..];
      failure := FirstFailure(outcomes);
      rest, done := pending, results;
      if failure.None? {
        DistinctParts(pending, n);
        ReadyParts(q, clock, n);
        QuantumEachSucceeded(q[..n], quantumMs, clock, times);
        rest := waiting + Unfinished(batch, outcomes);
        done := results + FinishedResults(outcomes);
        Requeue(waiting, batch, outcomes);
        QuantumEachDone(q[..n], quantumMs, clock, times);
        BatchThrough(pending, n, outcomes);
        forall j | j in all && j !in rest ensures Done(j.State()) {
          if j !in pending {
            assert old(Done(j.State()));
          }
        }
      }
    }

    /** Drains the deque and runs rounds until no job is left; the finished
        results in the order the jobs finished, or the first failure. */
    method RunAll(parallelism: int, now: nat, times: StepTimes) returns (r: Result<seq<JobResult>>, clock: nat)
      requires quantumMs > 0 && Distinct(queue) && Ready(StatesOf(queue), now)
      modifies this, queue
      ensures queue == []
      ensures (r, clock) == RoundRobin(old(StatesOf(queue)), quantumMs, Config.Max(1, parallelism), now, times)
      ensures r.Ok? ==> forall j :: j in old(queue) ==> Done(j.State())
    {
      ghost var all := queue;
      var lanes := Config.Max(1, parallelism);
      var pending := queue;
      queue := [];
      ghost var target := RoundRobin(StatesOf(pending), quantumMs, lanes, now, times);
      var results: seq<JobResult> := [];
      clock := now;
      while pending != []
        invariant queue == [] && forall j :: j in pending ==> j in old(queue)
        invariant Distinct(pending) && Ready(StatesOf(pending), clock)
        invariant RoundRobinFrom(StatesOf(pending), results, quantumMs, lanes, clock, times) == target
        invariant all == old(queue) && AllThrough(all, pending)
        decreases Weight(StatesOf(pending))
      {
        RoundOutcome(StatesOf(pending), results, quantumMs, lanes, clock, times);
        assert forall i :: 0 <= i < |pending| ==> pending[i] in old(queue);
        var failure, rest, done, later := Round(pending, results, lanes, clock, times, all);
        if failure.Some? {
          return Err(JobFailed(failure.value)), later;
        }
        pending, results, clock := rest, done, later;
      }
      r := Ok(results);
    }
  }
}
