/** The step runners: each solver cut into steps so that a scheduler can
    interleave them. A runner's state is a value of `RunnerState`; `Step` is
    one `runNextStep`, and the three classes below hold the same state in
    arrays and fields and are proved to perform exactly `Step`. */
module Runners {
  import opened Wrappers
  import opened Numeric
  import opened Elimination
  import opened ArrayOps
  import opened Solvers

  datatype RunnerState =
    | CramerState(a: Matrix, b: Vector, detA: real, solution: Vector, nextColumn: nat)
    | GaussState(aug: Matrix, n: nat, pivotIndex: nat, finished: bool)
      /** `answer` is what the library's LU solve returns for (A, b). */
    | LibraryState(answer: Result<Vector>, solution: Vector, phase: nat, finished: bool)

  /** Entry k of a Cramer solution: det(A with column k replaced by b) / det(A)
      once column k is done, and the initial 0 before. */
  predicate CramerProgress(a: Matrix, b: Vector, detA: real, solution: Vector, next: nat)
    requires IsSquare(a) && |b| == |a| && |solution| == |b| && detA != 0.0
  {
    forall k :: 0 <= k < |solution| ==>
      solution[k] == if k < next then Det(ReplaceColumn(a, b, k)) / detA else 0.0
  }

  /** What each runner keeps true between steps. */
  predicate Consistent(s: RunnerState) {
    match s
    case CramerState(a, b, detA, solution, next) =>
      IsSquare(a) && |b| == |a| && detA == Det(a) && Abs(detA) >= EPS
      && |solution| == |b| && next <= |b| && CramerProgress(a, b, detA, solution, next)
    case GaussState(aug, n, p, finished) =>
      IsAugmented(aug, n) && p <= n && (finished <==> p == n)
    case LibraryState(answer, solution, phase, finished) =>
      phase <= 3 && (finished <==> phase == 3)
      && (phase <= 1 ==> solution == Zeros(|solution|))
      && (phase >= 2 ==> answer.Ok? && |answer.value| <= |solution|
                         && solution == answer.value + Zeros(|solution| - |answer.value|))
  }

  /** `isFinished`. */
  predicate Finished(s: RunnerState) {
    match s
    case CramerState(_, b, _, _, next) => next >= |b|
    case GaussState(_, _, _, finished) => finished
    case LibraryState(_, _, _, finished) => finished
  }

  /** The number of steps still to run. */
  function Remaining(s: RunnerState): nat
    requires Consistent(s)
  {
    match s
    case CramerState(_, b, _, _, next) => |b| - next
    case GaussState(_, n, p, _) => n - p
    case LibraryState(_, _, phase, _) => 3 - phase
  }

  /** A consistent runner is finished exactly when no step remains. */
  lemma RemainingZero(s: RunnerState)
    requires Consistent(s)
    ensures Remaining(s) == 0 <==> Finished(s)
  {
  }

  /** `runNextStep` when the step does not throw: a finished runner is left
      alone; Cramer computes the next entry; Gauss-Jordan clears the next
      column; the library runner prepares, then copies the LU answer into the
      solution, then finishes. */
  function Step(s: RunnerState): (r: Result<RunnerState>)
    requires Consistent(s)
    ensures Finished(s) ==> r == Ok(s)
    ensures r.Ok? ==> Consistent(r.value)
    ensures r.Ok? && !Finished(s) ==> Remaining(r.value) == Remaining(s) - 1
    ensures r.Err? ==> !Finished(s) && (s.GaussState? || s.LibraryState?)
  {
    match s
    case CramerState(a, b, detA, solution, next) =>
      if next >= |b| then Ok(s)
      else
        var x := Det(ReplaceColumn(a, b, next)) / detA;
        Ok(CramerState(a, b, detA, solution[next := x], next + 1))
    case GaussState(aug, n, p, finished) =>
      if finished then Ok(s)
      else
        (match GaussJordanStep(aug, n, p)
         case Err(e) => Err(e)
         case Ok(m) => Ok(GaussState(m, n, p + 1, p + 1 >= n)))
    case LibraryState(answer, solution, phase, finished) =>
      if finished then Ok(s)
      else if phase == 0 then Ok(LibraryState(answer, solution, 1, false))
      else if phase == 1 then
        match answer
        case Err(_) => Err(LibraryError)
        case Ok(x) =>
          if |x| > |solution| then Err(IndexOutOfBounds)
          else Ok(LibraryState(answer, x + solution[|x|..], 2, false))
      else Ok(LibraryState(answer, solution, phase + 1, true))
  }

  /** The milliseconds a step reports: 0 when finished, else the step's
      measured time but at least 1. */
  function StepCost(s: RunnerState, elapsedMs: nat): (c: nat)
    ensures Finished(s) ==> c == 0
    ensures !Finished(s) ==> c >= 1 && c >= elapsedMs
  {
    if Finished(s) then 0 else if elapsedMs >= 1 then elapsedMs else 1
  }

  /** `currentResult`: the solution so far; for Gauss-Jordan the last column of
      the augmented matrix, and nothing when n = 0. */
  function ResultOf(s: RunnerState): (x: Vector)
    requires Consistent(s)
    ensures s.CramerState? ==> x == s.solution
    ensures s.LibraryState? ==> x == s.solution
    ensures s.GaussState? ==> |x| == s.n && forall i :: 0 <= i < s.n ==> x[i] == s.aug[i][s.n]
  {
    match s
    case CramerState(_, _, _, solution, _) => solution
    case GaussState(aug, n, _, _) => if n == 0 then [] else LastColumn(aug, n)
    case LibraryState(_, solution, _, _) => solution
  }

  /** Steps until the runner is finished, or the first step that throws. */
  function Run(s: RunnerState): (r: Result<RunnerState>)
    requires Consistent(s)
    ensures r.Ok? ==> Consistent(r.value) && Finished(r.value)
    decreases Remaining(s)
  {
    if Finished(s) then Ok(s)
    else
      match Step(s)
      case Err(e) => Err(e)
      case Ok(s1) => Run(s1)
  }

  // ---------------------------------------------------------------- Cramer

  /** The Cramer runner's constructor: the determinant of A is computed once
      and a value below EPS is rejected; the solution starts at zero. The
      state keeps the leading n×n block of A, the only part a step reads. */
  function CramerInit(a: Matrix, b: Vector): (r: Result<RunnerState>)
    ensures r.Ok? <==> |a| == |b| && IsWide(a) && Abs(Det(Leading(a))) >= EPS
    ensures |a| == |b| && IsWide(a) && Abs(Det(Leading(a))) < EPS ==> r == Err(Singular)
    ensures r.Ok? ==> Consistent(r.value) && (!Finished(r.value) <==> |b| > 0)
    ensures r.Ok? ==> r.value == CramerState(Leading(a), b, Det(Leading(a)), Zeros(|b|), 0) && Remaining(r.value) == |b|
  {
    if |a| != |b| then Err(DimensionMismatch)
    else if !IsWide(a) then Err(NotSquare)
    else if Abs(Det(Leading(a))) < EPS then Err(Singular)
    else Ok(CramerState(Leading(a), b, Det(Leading(a)), Zeros(|b|), 0))
  }

  /** A Cramer step never throws, writes only entry `nextColumn`, and moves
      `nextColumn` on by one. */
  lemma CramerStepFills(s: RunnerState)
    requires s.CramerState? && Consistent(s) && !Finished(s)
    ensures Step(s).Ok?
    ensures var t := Step(s).value;
            t.CramerState? && t.a == s.a && t.b == s.b && t.detA == s.detA
            && t.nextColumn == s.nextColumn + 1
            && t.solution[s.nextColumn] == Det(ReplaceColumn(s.a, s.b, s.nextColumn)) / s.detA
            && forall k :: 0 <= k < |s.solution| && k != s.nextColumn ==> t.solution[k] == s.solution[k]
  {
  }

  /** Running a Cramer runner from any consistent state finishes with every
      entry computed. */
  lemma {:induction false} CramerRunFinishes(s: RunnerState)
    requires s.CramerState? && Consistent(s)
    ensures Run(s).Ok? && Run(s).value.CramerState?
    ensures Run(s).value.solution == CramerSolution(s.a, s.b, s.detA)
    decreases Remaining(s)
  {
    if !Finished(s) {
      CramerStepFills(s);
      CramerRunFinishes(Step(s).value);
    } else {
      var t := Run(s).value;
      assert t == s;
      assert t.solution == CramerSolution(s.a, s.b, s.detA);
    }
  }

  /** The finished runner's result is `CramerSolver.solve`'s on the same input. */
  lemma CramerRunnerAgrees(a: Matrix, b: Vector)
    requires CramerInit(a, b).Ok?
    ensures Run(CramerInit(a, b).value).Ok?
    ensures CramerResult(Some(a), Some(b)).Ok?
    ensures ResultOf(Run(CramerInit(a, b).value).value) == CramerResult(Some(a), Some(b)).value
  {
    CramerRunFinishes(CramerInit(a, b).value);
  }

  // ---------------------------------------------------------- Gauss-Jordan

  /** The rows of `buildAugmentedMatrix` from row i on: a row whose length is
      not n is rejected, and then b must have an entry for the row. */
  function AugmentRows(a: Matrix, b: Vector, i: nat): (r: Result<()>)
    requires i <= |a|
    ensures r.Ok? <==> (forall k :: i <= k < |a| ==> |a[k]| == |a|) && (i < |a| ==> |b| >= |a|)
    ensures r.Err? ==> r.error == NotSquare || r.error == IndexOutOfBounds
    decreases |a| - i
  {
    if i == |a| then Ok(())
    else if |a[i]| != |a| then Err(NotSquare)
    else if i >= |b| then Err(IndexOutOfBounds)
    else AugmentRows(a, b, i + 1)
  }

  /** The Gauss-Jordan runner's constructor: the augmented matrix, and a runner
      that is finished at once when n = 0. */
  function GaussInit(a: Matrix, b: Vector): (r: Result<RunnerState>)
    ensures r.Ok? <==> IsSquare(a) && |b| >= |a|
    ensures r.Ok? ==> r.value == GaussState(Augmented(a, b), |a|, 0, |a| == 0)
                      && Consistent(r.value) && Remaining(r.value) == |a|
    ensures r.Err? ==> r.error == AugmentRows(a, b, 0).error
  {
    match AugmentRows(a, b, 0)
    case Err(e) => Err(e)
    case Ok(_) => Ok(GaussState(Augmented(a, b), |a|, 0, |a| == 0))
  }

  /** A Cramer step fills entry `nextColumn` and moves on. */
  lemma CramerStepIs(s: RunnerState)
    requires s.CramerState? && Consistent(s) && !Finished(s)
    ensures var t := CramerState(s.a, s.b, s.detA,
                                 s.solution[s.nextColumn := Det(ReplaceColumn(s.a, s.b, s.nextColumn)) / s.detA],
                                 s.nextColumn + 1);
            Step(s) == Ok(t) && Consistent(t)
  {
  }

  /** After the step on column p, that column is 1 on row p and below EPS on
      every other row; a pivot below EPS throws. */
  lemma GaussStepColumn(s: RunnerState)
    requires s.GaussState? && Consistent(s) && !Finished(s)
    ensures Step(s).Err? <==> Abs(s.aug[PivotRow(s.aug, s.pivotIndex, s.pivotIndex)][s.pivotIndex]) < EPS
    ensures Step(s).Err? ==> Step(s).error == Singular
    ensures Step(s).Ok? ==> var t := Step(s).value; var p := s.pivotIndex;
              t.GaussState? && t.n == s.n && t.pivotIndex == p + 1 && (t.finished <==> p + 1 == s.n)
              && t.aug[p][p] == 1.0 && forall k :: 0 <= k < s.n && k != p ==> Abs(t.aug[k][p]) < EPS
  {
  }

  /** Running the Gauss-Jordan runner from column p is the elimination loop
      from column p. */
  lemma {:induction false} GaussRunFrom(s: RunnerState)
    requires s.GaussState? && Consistent(s)
    ensures Run(s).Ok? <==> GaussJordanFrom(s.aug, s.n, s.pivotIndex).Ok?
    ensures Run(s).Ok? ==> Run(s).value == GaussState(GaussJordanFrom(s.aug, s.n, s.pivotIndex).value, s.n, s.n, true)
    decreases Remaining(s)
  {
    if !Finished(s) {
      GaussRunStep(s);
      var r := GaussJordanStep(s.aug, s.n, s.pivotIndex);
      if r.Ok? {
        GaussRunFrom(GaussState(r.value, s.n, s.pivotIndex + 1, s.pivotIndex + 1 >= s.n));
      }
    }
  }

  /** One step of the Gauss-Jordan runner's run is one step of the
      elimination loop. */
  lemma GaussRunStep(s: RunnerState)
    requires s.GaussState? && Consistent(s) && !Finished(s)
    ensures var r := GaussJordanStep(s.aug, s.n, s.pivotIndex);
            && (r.Err? ==> Run(s).Err? && GaussJordanFrom(s.aug, s.n, s.pivotIndex).Err?)
            && (r.Ok? ==> var t := GaussState(r.value, s.n, s.pivotIndex + 1, s.pivotIndex + 1 >= s.n);
                          Consistent(t) && Run(s) == Run(t)
                          && GaussJordanFrom(s.aug, s.n, s.pivotIndex) == GaussJordanFrom(r.value, s.n, s.pivotIndex + 1))
  {
    var r := GaussJordanStep(s.aug, s.n, s.pivotIndex);
    assert Step(s) == if r.Err? then Err(r.error) else Ok(GaussState(r.value, s.n, s.pivotIndex + 1, s.pivotIndex + 1 >= s.n));
  }

  /** For n > 0 the finished runner's result is `GaussJordanSolver.solve`'s,
      and both throw on the same systems. */
  lemma GaussRunnerAgrees(a: Matrix, b: Vector)
    requires IsSquare(a) && |a| > 0 && |b| == |a|
    ensures GaussInit(a, b).Ok?
    ensures Run(GaussInit(a, b).value).Ok? <==> GaussJordanResult(Some(a), Some(b)).Ok?
    ensures Run(GaussInit(a, b).value).Ok? ==>
              ResultOf(Run(GaussInit(a, b).value).value) == GaussJordanResult(Some(a), Some(b)).value
  {
    GaussRunFrom(GaussInit(a, b).value);
  }

  /** With n = 0 the runner is finished at construction with an empty result,
      where `GaussJordanSolver.solve` rejects the empty system. */
  lemma GaussRunnerEmpty(b: Vector)
    ensures GaussInit([], b).Ok? && Finished(GaussInit([], b).value)
    ensures ResultOf(GaussInit([], b).value) == []
    ensures GaussJordanResult(Some([]), Some(b)) == Err(DimensionMismatch)
  {
  }

  // --------------------------------------------------------------- Library

  /** The library runner's constructor never throws: phase 0, not finished, a
      zero solution of length |b|. */
  function LibraryInit(b: Vector, answer: Result<Vector>): (s: RunnerState)
    ensures Consistent(s) && !Finished(s) && Remaining(s) == 3
    ensures ResultOf(s) == Zeros(|b|)
  {
    LibraryState(answer, Zeros(|b|), 0, false)
  }

  /** Three steps finish the library runner: the first leaves the solution
      alone, the second copies the answer over its prefix (or throws), the
      third only finishes. */
  lemma LibraryPhases(b: Vector, answer: Result<Vector>)
    ensures var s0 := LibraryInit(b, answer);
            Step(s0).Ok? && !Finished(Step(s0).value) && ResultOf(Step(s0).value) == Zeros(|b|)
    ensures var s1 := Step(LibraryInit(b, answer)).value;
            (Step(s1).Ok? <==> answer.Ok? && |answer.value| <= |b|)
            && (answer.Err? ==> Step(s1) == Err(LibraryError))
            && (answer.Ok? && |answer.value| > |b| ==> Step(s1) == Err(IndexOutOfBounds))
    ensures var s1 := Step(LibraryInit(b, answer)).value;
            Step(s1).Ok? ==> var s2 := Step(s1).value;
              !Finished(s2) && ResultOf(s2) == answer.value + Zeros(|b| - |answer.value|)
              && Step(s2).Ok? && Finished(Step(s2).value) && ResultOf(Step(s2).value) == ResultOf(s2)
  {
    var s1 := Step(LibraryInit(b, answer)).value;
    if answer.Ok? && |answer.value| <= |b| {
      var x := answer.value;
      assert Zeros(|b|)[|x|..] == Zeros(|b| - |x|);
    }
  }

  /** The library runner's step phase by phase. */
  lemma LibraryStepCases(s: RunnerState)
    requires s.LibraryState? && Consistent(s) && !Finished(s)
    ensures s.phase == 0 ==> Step(s) == Ok(LibraryState(s.answer, s.solution, 1, false))
    ensures s.phase == 1 && s.answer.Err? ==> Step(s) == Err(LibraryError)
    ensures s.phase == 1 && s.answer.Ok? && |s.answer.value| > |s.solution| ==> Step(s) == Err(IndexOutOfBounds)
    ensures s.phase == 1 && s.answer.Ok? && |s.answer.value| <= |s.solution| ==>
              Step(s) == Ok(LibraryState(s.answer, s.answer.value + s.solution[|s.answer.value|..], 2, false))
    ensures s.phase >= 2 ==> Step(s) == Ok(LibraryState(s.answer, s.solution, s.phase + 1, true))
  {
  }

  /** When the LU solve answers with exactly |b| entries, the finished library
      runner's result is that answer. */
  lemma LibraryRunnerAgrees(b: Vector, x: Vector)
    requires |x| == |b|
    ensures Run(LibraryInit(b, Ok(x))).Ok?
    ensures ResultOf(Run(LibraryInit(b, Ok(x))).value) == x
  {
    LibraryPhases(b, Ok(x));
    var s0 := LibraryInit(b, Ok(x));
    var s1 := Step(s0).value;
    var s2 := Step(s1).value;
    assert x + Zeros(0) == x;
    assert Run(s2) == Ok(Step(s2).value);
    assert Run(s1) == Run(s2);
  }

  // --------------------------------------------------------------- Objects

  /** `CramerStepRunner`: private copies of A and b that no step changes, det(A)
      computed once, and the solution array filled one entry per step. */
  class CramerStepRunner {
    const a: Matrix
    const b: Vector
    const detA: real
    const solution: array<real>
    var nextColumn: nat

    ghost function State(): RunnerState
      reads this, solution
    {
      CramerState(a, b, detA, solution[..], nextColumn)
    }

    ghost predicate Valid()
      reads this, solution
    {
      Consistent(State())
    }

    constructor (a: Matrix, b: Vector, detA: real)
      requires IsSquare(a) && |b| == |a| && detA == Det(a) && Abs(detA) >= EPS
      ensures Valid() && fresh(solution) && State() == CramerState(a, b, detA, Zeros(|b|), 0)
    {
      this.a := a;
      this.b := b;
      this.detA := detA;
      solution := new real[|b|](_ => 0.0);
      nextColumn := 0;
      new;
      assert solution[..] == Zeros(|b|);
    }

    /** The constructor with its checks: the determinant of A below EPS throws. */
    static method Create(a: Matrix, b: Vector) returns (r: Result<CramerStepRunner>)
      ensures r.Ok? <==> CramerInit(a, b).Ok?
      ensures r.Err? ==> r.error == CramerInit(a, b).error
      ensures r.Ok? ==> fresh(r.value) && fresh(r.value.solution) && r.value.Valid()
                        && r.value.State() == CramerInit(a, b).value
    {
      if |a| != |b| {
        return Err(DimensionMismatch);
      }
      if !IsWide(a) {
        return Err(NotSquare);
      }
      var square := Leading(a);
      var copy := CopyToArray(square);
      var detA := Determinant(copy);
      if Abs(detA) < EPS {
        return Err(Singular);
      }
      var runner := new CramerStepRunner(square, b, detA);
      r := Ok(runner);
    }

    method IsFinished() returns (f: bool)
      requires Valid()
      ensures f == Finished(State())
    {
      f := nextColumn >= |b|;
    }

    /** `runNextStep`, given the step's measured milliseconds. */
    method RunNextStep(elapsedMs: nat) returns (cost: nat)
      requires Valid()
      modifies this, solution
      ensures Valid() && State() == Step(old(State())).value
      ensures cost == StepCost(old(State()), elapsedMs)
    {
      if nextColumn >= |b| {
        return 0;
      }
      CramerStepIs(State());
      var modified := ReplaceColumnCopy(a, b, nextColumn);
      var detAi := Determinant(modified);
      solution[nextColumn] := detAi / detA;
      nextColumn := nextColumn + 1;
      cost := if elapsedMs >= 1 then elapsedMs else 1;
    }

    /** `currentResult`: a copy of the solution array. */
    method CurrentResult() returns (x: seq<real>)
      requires Valid()
      ensures x == ResultOf(State())
    {
      x := solution[..];
    }
  }

  /** `GaussJordanStepRunner`: the augmented array, eliminated in place one
      column per step. */
  class GaussJordanStepRunner {
    const augmented: array2<real>
    const n: nat
    var pivotIndex: nat
    var finished: bool

    ghost function State(): RunnerState
      reads this, augmented
    {
      GaussState(ArrayMatrix(augmented), n, pivotIndex, finished)
    }

    ghost predicate Valid()
      reads this, augmented
    {
      augmented.Length0 == n && augmented.Length1 == n + 1 && Consistent(State())
    }

    constructor (augmented: array2<real>, n: nat)
      requires augmented.Length0 == n && augmented.Length1 == n + 1
      ensures Valid() && this.augmented == augmented
      ensures State() == GaussState(ArrayMatrix(augmented), n, 0, n == 0)
    {
      this.augmented := augmented;
      this.n := n;
      pivotIndex := 0;
      finished := n == 0;
    }

    /** The constructor with `buildAugmentedMatrix`: rows are copied in order,
        a row of the wrong length throws, and so does a b that is too short. */
    static method Create(a: Matrix, b: Vector) returns (r: Result<GaussJordanStepRunner>)
      ensures r.Ok? <==> GaussInit(a, b).Ok?
      ensures r.Err? ==> r.error == GaussInit(a, b).error
      ensures r.Ok? ==> fresh(r.value) && fresh(r.value.augmented) && r.value.Valid()
                        && r.value.State() == GaussInit(a, b).value
    {
      var n := |a|;
      var aug := new real[n, n + 1];
      var i := 0;
      while i < n
        invariant 0 <= i <= n
        invariant AugmentRows(a, b, i) == AugmentRows(a, b, 0)
        invariant forall p :: 0 <= p < i ==> |a[p]| == n && p < |b|
        invariant forall p, q :: 0 <= p < i && 0 <= q <= n ==> p < |b| && aug[p, q] == if q < n then a[p][q] else b[p]
      {
        if |a[i]| != n {
          return Err(NotSquare);
        }
        if i >= |b| {
          return Err(IndexOutOfBounds);
        }
        var j := 0;
        while j < n
          invariant 0 <= j <= n
          invariant forall p, q :: 0 <= p < i && 0 <= q <= n ==> p < |b| && aug[p, q] == if q < n then a[p][q] else b[p]
          invariant forall q :: 0 <= q < j ==> aug[i, q] == a[i][q]
        {
          aug[i, j] := a[i][j];
          j := j + 1;
        }
        aug[i, n] := b[i];
        i := i + 1;
      }
      ArrayMatrixEquals(aug, Augmented(a, b));
      var runner := new GaussJordanStepRunner(aug, n);
      r := Ok(runner);
    }

    method IsFinished() returns (f: bool)
      requires Valid()
      ensures f == Finished(State())
    {
      f := finished;
    }

    /** `runNextStep`, given the step's measured milliseconds; a pivot below EPS
        throws before anything changes. */
    method RunNextStep(elapsedMs: nat) returns (r: Result<nat>)
      requires Valid()
      modifies this, augmented
      ensures Valid()
      ensures Step(old(State())).Ok? ==> State() == Step(old(State())).value && r == Ok(StepCost(old(State()), elapsedMs))
      ensures Step(old(State())).Err? ==> State() == old(State()) && r == Err(Step(old(State())).error)
    {
      if finished {
        return Ok(0);
      }
      var ok := GaussJordanColumn(augmented, n, pivotIndex);
      if !ok {
        return Err(Singular);
      }
      pivotIndex := pivotIndex + 1;
      if pivotIndex >= n {
        finished := true;
      }
      r := Ok(if elapsedMs >= 1 then elapsedMs else 1);
    }

    /** `currentResult`: the last augmented column, or nothing when n = 0. */
    method CurrentResult() returns (x: seq<real>)
      requires Valid()
      ensures x == ResultOf(State())
    {
      if n == 0 {
        return [];
      }
      x := LastColumnOf(augmented, n);
    }
  }

  /** `LibraryStepRunner`: three phases over a solution array. The LU answer
      is fixed at construction; the preparation checksum is a sum of reals and
      so is never NaN. */
  class LibraryStepRunner {
    const answer: Result<Vector>
    const solution: array<real>
    var phase: nat
    var finished: bool

    ghost function State(): RunnerState
      reads this, solution
    {
      LibraryState(answer, solution[..], phase, finished)
    }

    ghost predicate Valid()
      reads this, solution
    {
      Consistent(State())
    }

    constructor (b: Vector, answer: Result<Vector>)
      ensures Valid() && fresh(solution) && State() == LibraryInit(b, answer)
    {
      this.answer := answer;
      solution := new real[|b|](_ => 0.0);
      phase := 0;
      finished := false;
      new;
      assert solution[..] == Zeros(|b|);
    }

    method IsFinished() returns (f: bool)
      requires Valid()
      ensures f == Finished(State())
    {
      f := finished;
    }

    /** `runNextStep`, given the step's measured milliseconds: preparation,
        then the copy of the answer, then the final phase. */
    method RunNextStep(elapsedMs: nat) returns (r: Result<nat>)
      requires Valid()
      modifies this, solution
      ensures Valid()
      ensures Step(old(State())).Ok? ==> State() == Step(old(State())).value && r == Ok(StepCost(old(State()), elapsedMs))
      ensures Step(old(State())).Err? ==> State() == old(State()) && r == Err(Step(old(State())).error)
    {
      if finished {
        return Ok(0);
      }
      LibraryStepCases(State());
      if phase == 1 {
        if answer.Err? {
          return Err(LibraryError);
        }
        var x := answer.value;
        if |x| > solution.Length {
          return Err(IndexOutOfBounds);
        }
        CopyAnswer(x);
      } else if phase >= 2 {
        finished := true;
      }
      phase := phase + 1;
      r := Ok(if elapsedMs >= 1 then elapsedMs else 1);
    }

    /** Copies the answer over the head of the solution array. */
    method CopyAnswer(x: Vector)
      requires |x| <= solution.Length
      modifies solution
      ensures solution[..] == x + old(solution[..])[|x|..]
    {
      ghost var before := solution[..];
      var i := 0;
      while i < |x|
        invariant 0 <= i <= |x|
        invariant forall k :: 0 <= k < solution.Length ==> solution[k] == if k < i then x[k] else before[k]
      {
        solution[i] := x[i];
        i := i + 1;
      }
      assert solution[..] == x + before[|x|..];
    }

    /** `currentResult`: a copy of the solution array. */
    method CurrentResult() returns (x: seq<real>)
      requires Valid()
      ensures x == ResultOf(State())
    {
      x := solution[..];
    }
  }
}
