# DC circuit solver and scheduling simulator: a Dafny model

The system solves linear systems `A·x = b` that come from direct-current
circuits: series and parallel resistor networks, generated scenarios and
custom matrices. Each pair of a solve method (Cramer's rule, Gauss-Jordan
elimination, a library LU solver) and a problem becomes a job. The job is
dispatched by one of three classical CPU-scheduling policies: first come
first served, round robin with a quantum of solver steps, and shortest job
first by estimated cost. Each result carries the solution, a
per-equation check, a residual and the process resources measured around
it. Results are published to observers, appended to a CSV log, and rolled
up from the log by method, scenario and scheduler. A browser dashboard
parses and shows those results.

This model states the engine and its helpers in Dafny:

- **Values.** The domain (`DomainTypes`, `Components`, `Circuits`,
  `CircuitManager`), configuration and text handling (`Config`, `Text`,
  `Cors`, `MetricsLog`) and the browser-side parsing and labels
  (`AnalysisView`, `I18n`, `AppState`, `CircuitDiagram`, `PhysicalSolve`)
  are datatypes and functions, with lemmas.
- **Elimination.** The solvers' in-place elimination on the augmented
  matrix and on the determinant copy (`ArrayOps`, `Solvers`) uses
  `array2<real>` methods. These are proved equal to the pure elimination
  functions of `Elimination`, and those functions are proved to keep the
  system's solutions.
- **Runners and jobs.** The step runners (`Runners`) and jobs (`Jobs`) are
  classes whose fields change step by step.
- **Schedulers.** The schedulers (`SchedulerClasses`) are classes over
  sequences of jobs. They are proved against the order and timing functions
  of `Schedulers` and `Ordering`.
- **Engine.** The batch controller (`Batch`, `Controller`), the event bus
  (`Observer`), the metrics sampler (`SystemMetrics`) and the log analytics
  (`LogAnalytics`) are modelled over explicit state.

Execution is sequential. The clock, random draws, `/proc` contents, the
library's answer, job ids and number parsing are all parameters.

## Model

| member | source | states |
|---|---|---|
| Components.NewResistor | src/main/java/com/example/dc/domain/components/Resistor.java:3-8 | a resistor is built exactly when its resistance is positive, keeping id and value; otherwise construction fails with NonPositive |
| Components.Values | src/main/java/com/example/dc/domain/components/Branch.java:6-8 | the resistances of a list of resistors, one per resistor and in order |
| Components.EmptyBranchTotal | src/main/java/com/example/dc/domain/components/Branch.java:6-8 | a branch without resistors totals 0 Ω |
| Components.TotalResistanceAppend | src/main/java/com/example/dc/domain/components/Branch.java:6-8 | the total of two lists placed one after the other is the sum of their totals |
| Components.TotalResistanceReorder | src/main/java/com/example/dc/domain/components/Branch.java:6-8 | the total does not depend on the order of the resistors |
| Components.PositiveTotal | src/main/java/com/example/dc/domain/components/Branch.java:6-8 | a non-empty branch of valid resistors has a positive total |
| Circuits.NewModel | src/main/java/com/example/dc/domain/SeriesCircuitModel.java:14-21 | a model is built exactly when the resistor list is present and non-empty, and keeps topology, name, resistors and voltage; otherwise it fails with EmptyInput |
| Circuits.ModelName | src/main/java/com/example/dc/domain/SeriesCircuitModel.java:35-37 | the given name, else "serie" for a series and "paralelo" for a parallel circuit |
| Circuits.SeriesMatrix | src/main/java/com/example/dc/domain/SeriesCircuitModel.java:24-27 | a series circuit is the 1×1 system whose coefficient is the branch's total resistance |
| Circuits.ParallelMatrix | src/main/java/com/example/dc/domain/ParallelCircuitModel.java:24-33 | the parallel system's matrix is square and diagonal, holding each branch's resistance |
| Circuits.ParallelVector | src/main/java/com/example/dc/domain/ParallelCircuitModel.java:36-42 | the parallel system's right-hand side holds the source voltage once per branch |
| Circuits.BuildMatrix | src/main/java/com/example/dc/domain/SeriesCircuitModel.java:24-27 | the system's matrix for either topology is square |
| Circuits.BuildVector | src/main/java/com/example/dc/domain/ParallelCircuitModel.java:36-42 | the right-hand side has one entry per row of the matrix |
| Circuits.SeriesSolution | src/main/java/com/example/dc/domain/SeriesCircuitModel.java:24-32 | a vector solves a valid series system exactly when its entry is Ohm's law, voltage over total resistance |
| Circuits.ParallelProduct | src/main/java/com/example/dc/domain/ParallelCircuitModel.java:24-33 | multiplying the diagonal matrix by a vector scales each entry by its branch's resistance |
| Circuits.BranchCurrent | src/main/java/com/example/dc/domain/ParallelCircuitModel.java:24-42 | for a positive resistance, R·I = V exactly when I = V / R |
| Circuits.ParallelSolution | src/main/java/com/example/dc/domain/ParallelCircuitModel.java:24-42 | a vector solves a valid parallel system exactly when each entry is the voltage over its branch's resistance |
| Circuits.BuildParallelMatrix | src/main/java/com/example/dc/domain/ParallelCircuitModel.java:24-33 | the array the loop fills is the diagonal matrix of the resistances |
| Circuits.BuildParallelVector | src/main/java/com/example/dc/domain/ParallelCircuitModel.java:36-42 | the array the loop fills holds the voltage in every entry |
| Elimination.PivotRow | src/main/java/com/example/dc/patterns/solver/GaussJordanSolver.java:47-55 | the pivot lies at or below the start row, no entry of the column below the start has a larger magnitude, and every row before it has a strictly smaller one (the first maximum wins ties) |
| Elimination.PivotUnique | src/main/java/com/example/dc/patterns/solver/GaussJordanSolver.java:47-55 | that description fixes the pivot row: two rows that both meet it are the same row |
| Elimination.SwapRows | src/main/java/com/example/dc/patterns/solver/GaussJordanSolver.java:57-64 | rows i and j change places and every other row is untouched |
| Elimination.SwapRowsInvolution | src/main/java/com/example/dc/patterns/solver/GaussJordanSolver.java:57-64 | swapping a row with itself changes nothing, and swapping twice restores the matrix |
| Elimination.NormalizeRow | src/main/java/com/example/dc/patterns/solver/GaussJordanSolver.java:66-72 | the pivot row is divided by its pivot: the pivot becomes 1, each new entry times the old pivot gives the old entry, and other rows are untouched |
| Elimination.EliminateColumn | src/main/java/com/example/dc/patterns/solver/GaussJordanSolver.java:74-89 | the pivot row and every row whose entry in the column is below EPS are kept; every other row has the pivot row, scaled by that entry, subtracted |
| Elimination.EliminateColumnClears | src/main/java/com/example/dc/patterns/solver/GaussJordanSolver.java:74-89 | with a unit pivot, afterwards every other row's entry in the pivot column is below EPS in magnitude (zero where it was subtracted) |
| Elimination.EliminateBelow | src/main/java/com/example/dc/patterns/solver/CramerSolver.java:76-82 | the rows up to the pivot are kept; below it the column becomes zero and earlier columns are kept |
| Elimination.PivotPlaced | src/main/java/com/example/dc/patterns/solver/CramerSolver.java:60-74 | after the pivot search and the exchange, the diagonal holds the column's pivot entry |
| Elimination.ColumnStep | src/main/java/com/example/dc/patterns/solver/CramerSolver.java:69-82 | one column of the determinant's elimination keeps the matrix square |
| Elimination.EliminateBelowZero | src/main/java/com/example/dc/patterns/solver/CramerSolver.java:76-82 | eliminating changes nothing when the column below the pivot is already zero |
| Elimination.DiagonalColumnStep | src/main/java/com/example/dc/patterns/solver/CramerSolver.java:59-83 | on a diagonal matrix a column with a pivot of at least EPS is kept as it is, and the running determinant is multiplied by that pivot |
| Elimination.DetFromDiagonal | src/main/java/com/example/dc/patterns/solver/CramerSolver.java:59-84 | from any column on, the elimination of a diagonal matrix without small entries multiplies the remaining diagonal entries |
| Elimination.DetDiagonal | src/main/java/com/example/dc/patterns/solver/CramerSolver.java:55-85 | the determinant of a diagonal matrix whose entries are all at least EPS in magnitude is the product of its diagonal |
| Elimination.DetSmallFirstColumn | src/main/java/com/example/dc/patterns/solver/CramerSolver.java:66-68 | a first column whose entries are all below EPS gives determinant 0 |
| Elimination.DetFromLast | src/main/java/com/example/dc/patterns/solver/CramerSolver.java:66-75 | at the last column the result is 0 when its entry is below EPS and the running value times that entry otherwise |
| Elimination.DetTwoByTwo | src/main/java/com/example/dc/patterns/solver/CramerSolver.java:55-85 | for a 2×2 matrix with a usable first pivot the determinant is ad − bc, except that it is 0 when the eliminated corner falls below EPS |
| Elimination.ReplaceColumn | src/main/java/com/example/dc/patterns/solver/CramerSolver.java:40-47 | column col is replaced by b and every other entry is kept |
| Elimination.CramerSolution | src/main/java/com/example/dc/patterns/solver/CramerSolver.java:21-28 | entry i of the solution is det(A with column i replaced by b) / det(A) |
| Elimination.Augmented | src/main/java/com/example/dc/patterns/solver/GaussJordanSolver.java:34-45 | A augmented by b: A's entries in the first n columns, b in the last |
| Elimination.LastColumn | src/main/java/com/example/dc/patterns/solver/GaussJordanSolver.java:91-98 | the solution read off is the last column of the augmented matrix |
| Elimination.GaussJordanStep | src/main/java/com/example/dc/patterns/solver/GaussJordanSolver.java:23-29 | one column fails with Singular exactly when its pivot is below EPS; otherwise the diagonal entry becomes 1 and every other entry of the column falls below EPS |
| Elimination.GaussJordanFrom | src/main/java/com/example/dc/patterns/solver/GaussJordanSolver.java:22-30 | the loop over the columns keeps the matrix's shape and can only fail with Singular |
| Elimination.GaussJordanFromStep | src/main/java/com/example/dc/patterns/solver/GaussJordanSolver.java:22-30 | the loop stops with Singular at the first column whose step fails and otherwise continues with the next column |
| Elimination.SwapKeepsSolutions | src/main/java/com/example/dc/patterns/solver/GaussJordanSolver.java:57-64 | exchanging two rows leaves the system's solutions unchanged |
| Elimination.NormalizeKeepsSolutions | src/main/java/com/example/dc/patterns/solver/GaussJordanSolver.java:66-72 | dividing a row by a non-zero pivot leaves the system's solutions unchanged |
| Elimination.EliminateKeepsSolutions | src/main/java/com/example/dc/patterns/solver/GaussJordanSolver.java:74-89 | subtracting multiples of the pivot row leaves the system's solutions unchanged |
| Elimination.StepKeepsSolutions | src/main/java/com/example/dc/patterns/solver/GaussJordanSolver.java:23-29 | a successful column step leaves the system's solutions unchanged |
| Elimination.GaussJordanKeepsSolutions | src/main/java/com/example/dc/patterns/solver/GaussJordanSolver.java:22-30 | the reduced matrix has exactly the solutions of the original system |
| ArrayOps.CopyToArray | src/main/java/com/example/dc/patterns/solver/CramerSolver.java:49-53 | the copy is a fresh array holding the same matrix |
| ArrayOps.MatrixOf | src/main/java/com/example/dc/patterns/solver/CramerSolver.java:49-53 | reading an array back gives the matrix it holds |
| ArrayOps.FindPivot | src/main/java/com/example/dc/patterns/solver/GaussJordanSolver.java:47-55 | the in-place scan returns the pivot row of the specification |
| ArrayOps.SwapRowsInPlace | src/main/java/com/example/dc/patterns/solver/GaussJordanSolver.java:57-64 | the array afterwards holds the old matrix with the two rows exchanged |
| ArrayOps.NormalizeRowInPlace | src/main/java/com/example/dc/patterns/solver/GaussJordanSolver.java:66-72 | the array afterwards holds the old matrix with the row normalised |
| ArrayOps.EliminateColumnInPlace | src/main/java/com/example/dc/patterns/solver/GaussJordanSolver.java:74-89 | the array afterwards holds the old matrix with the column eliminated |
| ArrayOps.EliminateBelowInPlace | src/main/java/com/example/dc/patterns/solver/CramerSolver.java:76-82 | the array afterwards holds the old matrix eliminated below the pivot |
| ArrayOps.SubtractScaledRow | src/main/java/com/example/dc/patterns/solver/CramerSolver.java:78-81 | only row j changes, from column i on, by the pivot row scaled by the factor |
| ArrayOps.DeterminantColumn | src/main/java/com/example/dc/patterns/solver/CramerSolver.java:60-82 | reports a pivot below EPS exactly when the specification does, and otherwise performs the column step on the array and the running determinant |
| ArrayOps.ApplyColumnStep | src/main/java/com/example/dc/patterns/solver/CramerSolver.java:69-82 | the exchange, the sign, the multiplication and the elimination equal the specification's column step |
| ArrayOps.PlacePivot | src/main/java/com/example/dc/patterns/solver/CramerSolver.java:69-74 | after the exchange the array holds the matrix with the pivot placed, and the sign is flipped exactly when rows moved |
| ArrayOps.ColumnStepParts | src/main/java/com/example/dc/patterns/solver/CramerSolver.java:69-82 | a column step is the pivot placement followed by elimination below it, the determinant being multiplied by the placed pivot |
| ArrayOps.Determinant | src/main/java/com/example/dc/patterns/solver/CramerSolver.java:55-85 | the loop computes the specification's determinant |
| ArrayOps.ReplaceColumnCopy | src/main/java/com/example/dc/patterns/solver/CramerSolver.java:40-47 | the copy is a fresh array holding A with the column replaced by b |
| ArrayOps.GaussJordanColumn | src/main/java/com/example/dc/patterns/solver/GaussJordanSolver.java:23-29 | succeeds exactly when the specification's column step does, leaving its matrix, and leaves the array unchanged when it fails |
| ArrayOps.LastColumnOf | src/main/java/com/example/dc/patterns/solver/GaussJordanSolver.java:91-98 | the copied vector is the augmented matrix's last column |
| Solvers.CramerResult | src/main/java/com/example/dc/patterns/solver/CramerSolver.java:15-38 | missing input fails first, then A and b of different lengths; only the leading n×n block of A is read, so longer rows are accepted and their extra entries ignored; it fails exactly when abs(det) of that block < EPS, and otherwise entry i is det(block with column i replaced by b) / det(block) |
| Solvers.CramerSquare | src/main/java/com/example/dc/patterns/solver/CramerSolver.java:15-38 | on a square system of matching size the solver fails exactly when abs(det A) < EPS and otherwise returns the Cramer solution |
| Solvers.CramerLeadingBlock | src/main/java/com/example/dc/patterns/solver/CramerSolver.java:55-85 | entries outside the leading n×n block never change the solver's answer |
| Solvers.CramerSolve | src/main/java/com/example/dc/patterns/solver/CramerSolver.java:15-29 | the solver's loops, over the leading block, return the specification's result |
| Solvers.CramerColumns | src/main/java/com/example/dc/patterns/solver/CramerSolver.java:21-28 | the column loop returns the Cramer solution |
| Solvers.CramerEntry | src/main/java/com/example/dc/patterns/solver/CramerSolver.java:24-26 | one entry is det(A_i) / det(A) |
| Solvers.GaussJordanResult | src/main/java/com/example/dc/patterns/solver/GaussJordanSolver.java:13-32 | missing input, an empty or mismatched system and a non-square matrix fail in that order; otherwise it succeeds exactly when the reduction does, returning the reduced matrix's last column |
| Solvers.BuildAugmented | src/main/java/com/example/dc/patterns/solver/GaussJordanSolver.java:34-45 | the fresh array is A augmented by b exactly when every row of A is n long |
| Solvers.GaussJordanSolve | src/main/java/com/example/dc/patterns/solver/GaussJordanSolver.java:13-32 | the solver's loops return the specification's result |
| Solvers.ReduceColumns | src/main/java/com/example/dc/patterns/solver/GaussJordanSolver.java:22-30 | the column loop succeeds exactly when the specification's reduction does and leaves its matrix |
| Solvers.IdentitySolution | src/main/java/com/example/dc/patterns/solver/GaussJordanSolver.java:91-98 | when the left block is the identity, the last column is the one and only solution |
| Solvers.AugmentedSolves | src/main/java/com/example/dc/patterns/solver/GaussJordanSolver.java:34-45 | a vector solves A augmented by b exactly when A·x = b |
| Solvers.GaussJordanSolvesSystem | src/main/java/com/example/dc/patterns/solver/GaussJordanSolver.java:13-32 | when the reduction reaches the identity, the returned vector is the unique solution of A·x = b |
| Solvers.ExampleSolves | src/test/java/com/example/dc/StrategyTests.java:14-22 | the tests' expected answer (1, -2, -2) satisfies A·x = b for the tests' system |
| Solvers.StrategyExample | src/test/java/com/example/dc/StrategyTests.java:14-38 | on the tests' system Gauss-Jordan succeeds and returns exactly (1, -2, -2), which solves it |
| Solvers.CramerExample | src/test/java/com/example/dc/StrategyTests.java:14-31 | on the tests' system Cramer's rule succeeds and returns exactly (1, -2, -2), from det A = -3, det A_0 = -3, det A_1 = 6 and det A_2 = 6 |
| Solvers.CramerWideExample | src/main/java/com/example/dc/patterns/solver/CramerSolver.java:31-38 | A = [[1, 0, 5], [0, 1, 7]] with b = (1, 2) passes validation and gives (1, 2), the third column being ignored |
| Runners.RemainingZero | src/main/java/com/example/dc/schedulers/StepRunner.java:3-13 | a runner has no steps left exactly when it reports itself finished |
| Runners.Step | src/main/java/com/example/dc/schedulers/StepRunner.java:3-13 | a finished runner's step does nothing; a successful step keeps the runner consistent and leaves one step fewer; only the Gauss-Jordan and library runners can fail |
| Runners.StepCost | src/main/java/com/example/dc/schedulers/runners/CramerStepRunner.java:33-44 | a finished runner's step costs 0; any other step reports at least 1 ms and at least the time measured |
| Runners.ResultOf | src/main/java/com/example/dc/schedulers/runners/GaussJordanStepRunner.java:49-58 | the current result is the solution array of the Cramer and library runners and the last column of the Gauss-Jordan runner's matrix |
| Runners.Run | src/main/java/com/example/dc/schedulers/Job.java:71-73 | stepping until the end, when it succeeds, leaves a consistent, finished runner |
| Runners.CramerInit | src/main/java/com/example/dc/schedulers/runners/CramerStepRunner.java:17-25 | a Cramer runner starts exactly when every row reaches n entries and abs(det) of the leading n×n block ≥ EPS, for A and b of the same length; it keeps that block, a zero solution and one step per unknown; a small determinant fails with Singular |
| Runners.CramerStepFills | src/main/java/com/example/dc/schedulers/runners/CramerStepRunner.java:37-41 | each step fills the next column's entry with det(A_i)/det(A), advances the column and keeps every other entry |
| Runners.CramerRunFinishes | src/main/java/com/example/dc/schedulers/runners/CramerStepRunner.java:27-44 | running a Cramer runner to the end never fails and fills in the whole Cramer solution |
| Runners.CramerRunnerAgrees | src/main/java/com/example/dc/schedulers/runners/CramerStepRunner.java:17-49 | whenever the runner can start, the one-shot Cramer solver also succeeds, with the same vector the runner ends with |
| Runners.AugmentRows | src/main/java/com/example/dc/schedulers/runners/GaussJordanStepRunner.java:60-70 | building the augmented matrix succeeds exactly when every row is n long and b has at least n entries; otherwise NotSquare or an index error |
| Runners.GaussInit | src/main/java/com/example/dc/schedulers/runners/GaussJordanStepRunner.java:16-20 | a Gauss-Jordan runner starts exactly for a square A and a long enough b, holding A augmented by b, at column 0, finished only when n = 0, with n steps left |
| Runners.GaussStepColumn | src/main/java/com/example/dc/schedulers/runners/GaussJordanStepRunner.java:28-46 | a step fails with Singular exactly when the pivot is below EPS; otherwise it makes the column a unit column, advances and finishes after the last column |
| Runners.GaussRunStep | src/main/java/com/example/dc/schedulers/runners/GaussJordanStepRunner.java:28-46 | one runner step is one column of the solver's reduction |
| Runners.GaussRunFrom | src/main/java/com/example/dc/schedulers/runners/GaussJordanStepRunner.java:28-46 | running from any column succeeds exactly when the solver's reduction from that column does, ending with its matrix |
| Runners.GaussRunnerAgrees | src/main/java/com/example/dc/schedulers/runners/GaussJordanStepRunner.java:16-58 | for a non-empty square system the runner succeeds exactly when the one-shot solver does, with the same vector |
| Runners.GaussRunnerEmpty | src/main/java/com/example/dc/schedulers/runners/GaussJordanStepRunner.java:16-20 | an empty system gives a runner that is finished at once with an empty result, where the one-shot solver refuses it |
| Runners.LibraryInit | src/main/java/com/example/dc/schedulers/runners/LibraryStepRunner.java:17-21 | a library runner starts unfinished, with three steps to go and a zero solution |
| Runners.LibraryStepCases | src/main/java/com/example/dc/schedulers/runners/LibraryStepRunner.java:29-63 | phase 0 only advances; phase 1 fails with the library's error, fails on an answer longer than b, or copies the answer over the front of the solution; the next phase finishes |
| Runners.LibraryPhases | src/main/java/com/example/dc/schedulers/runners/LibraryStepRunner.java:29-68 | the three phases in order: preparation, the copy of the library's answer (zero-padded) and the end, the result unchanged by the last |
| Runners.LibraryRunnerAgrees | src/main/java/com/example/dc/schedulers/runners/LibraryStepRunner.java:56-68 | when the library answers with a vector of the right size, running the runner to the end returns exactly that vector |
| Runners.CramerStepRunner.constructor | src/main/java/com/example/dc/schedulers/runners/CramerStepRunner.java:17-25 | the new runner is the initial Cramer state |
| Runners.CramerStepRunner.Create | src/main/java/com/example/dc/schedulers/runners/CramerStepRunner.java:17-25 | the constructor with its determinant check: it fails exactly when `CramerInit` does, with the same error, and otherwise holds `CramerInit`'s state in fresh arrays |
| Runners.CramerStepRunner.IsFinished | src/main/java/com/example/dc/schedulers/runners/CramerStepRunner.java:27-30 | reports whether the state is finished |
| Runners.CramerStepRunner.RunNextStep | src/main/java/com/example/dc/schedulers/runners/CramerStepRunner.java:32-44 | the fields afterwards are the specification's next state and the reported cost is the step cost |
| Runners.CramerStepRunner.CurrentResult | src/main/java/com/example/dc/schedulers/runners/CramerStepRunner.java:46-49 | returns a copy of the state's result |
| Runners.GaussJordanStepRunner.constructor | src/main/java/com/example/dc/schedulers/runners/GaussJordanStepRunner.java:16-20 | the new runner holds the augmented matrix at column 0, finished only when n = 0 |
| Runners.GaussJordanStepRunner.IsFinished | src/main/java/com/example/dc/schedulers/runners/GaussJordanStepRunner.java:22-25 | reports whether the state is finished |
| Runners.GaussJordanStepRunner.RunNextStep | src/main/java/com/example/dc/schedulers/runners/GaussJordanStepRunner.java:27-46 | a successful step leaves the specification's next state and its cost; a failing one reports the error |
| Runners.GaussJordanStepRunner.CurrentResult | src/main/java/com/example/dc/schedulers/runners/GaussJordanStepRunner.java:48-58 | returns the state's result, the last column |
| Runners.LibraryStepRunner.constructor | src/main/java/com/example/dc/schedulers/runners/LibraryStepRunner.java:17-21 | the new runner is the initial library state |
| Runners.LibraryStepRunner.IsFinished | src/main/java/com/example/dc/schedulers/runners/LibraryStepRunner.java:23-26 | reports whether the state is finished |
| Runners.LibraryStepRunner.RunNextStep | src/main/java/com/example/dc/schedulers/runners/LibraryStepRunner.java:28-42 | a successful step leaves the specification's next state and its cost; a failing one reports the error |
| Runners.LibraryStepRunner.CopyAnswer | src/main/java/com/example/dc/schedulers/runners/LibraryStepRunner.java:56-59 | the answer is copied over the front of the solution array and the rest is kept |
| Runners.LibraryStepRunner.CurrentResult | src/main/java/com/example/dc/schedulers/runners/LibraryStepRunner.java:65-68 | returns a copy of the solution array |
| Jobs.DriveRunner | src/main/java/com/example/dc/schedulers/Job.java:84-87 | driving a runner keeps it consistent; with no failure it ends finished, or out of budget in a time slice; the steps taken account for the remaining ones; a finished runner is not stepped |
| Jobs.DriveStep | src/main/java/com/example/dc/schedulers/Job.java:84-87 | one turn of the loop: a failing step stops the drive with its error; otherwise the budget is charged the step's cost and the drive continues |
| Jobs.RunStep | src/main/java/com/example/dc/schedulers/Job.java:71-73 | running to the end is one step followed by running to the end |
| Jobs.UnlimitedFinishes | src/main/java/com/example/dc/schedulers/Job.java:71-73 | driving without a budget ends finished, after exactly the runner's remaining steps, unless a step fails |
| Jobs.UnlimitedIsRun | src/main/java/com/example/dc/schedulers/Job.java:71-73 | driving without a budget fails exactly when running to the end does, and ends in the same state |
| Jobs.SliceStepsBounded | src/main/java/com/example/dc/schedulers/Job.java:83-87 | a time slice takes at most as many steps as its budget |
| Jobs.SliceMakesProgress | src/main/java/com/example/dc/schedulers/Job.java:83-87 | a positive budget on an unfinished runner takes at least one step and leaves fewer steps, unless a step fails |
| Jobs.NewJob | src/main/java/com/example/dc/schedulers/Job.java:25-34 | a new job has not started or finished and has no elapsed time |
| Jobs.MarkFirstStart | src/main/java/com/example/dc/schedulers/Job.java:101-105 | the first start is set only if it was not set before |
| Jobs.BuildResult | src/main/java/com/example/dc/schedulers/Job.java:115-127 | the result carries the job's id and method, the accumulated time, the waiting time from creation to first start (or to the finish) and the turnaround from creation to the finish |
| Jobs.Completion | src/main/java/com/example/dc/schedulers/Job.java:68-78 | running to completion keeps the job's identity and never moves the clock back; its result is the job's |
| Jobs.CompleteDrive | src/main/java/com/example/dc/schedulers/Job.java:74-77 | the clock moves by the time the drive took and the job's identity is kept |
| Jobs.CompletionBookkeeping | src/main/java/com/example/dc/schedulers/Job.java:68-78 | a completion succeeds exactly when running the runner to the end does; it then finishes the runner, adds the elapsed time, sets the first start if unset and the finish, and reports the runner's result |
| Jobs.Quantum | src/main/java/com/example/dc/schedulers/Job.java:80-95 | a time slice keeps the job's identity and never moves the clock back; the outcome carries a result exactly when it reports finished; steps left never grow |
| Jobs.QuantumDrive | src/main/java/com/example/dc/schedulers/Job.java:88-94 | the clock moves by the time the slice took and the outcome carries a result exactly when it reports finished |
| Jobs.QuantumOutcomeFinished | src/main/java/com/example/dc/schedulers/Job.java:80-95 | the slice reports finished exactly when the runner is, and its elapsed time is added to the job's |
| Jobs.QuantumSteps | src/main/java/com/example/dc/schedulers/Job.java:83-87 | a slice takes at most quantum steps and, with a positive quantum on an unfinished runner, at least one unless it fails |
| Jobs.QuantumProgress | src/main/java/com/example/dc/schedulers/Job.java:80-95 | an unfinished slice with a positive quantum leaves the runner strictly fewer steps |
| Jobs.CompletionTimesOrdered | src/main/java/com/example/dc/schedulers/Job.java:115-120 | waiting time is never negative and never exceeds turnaround |
| Jobs.QuantumTimesOrdered | src/main/java/com/example/dc/schedulers/Job.java:115-120 | the same for a job that finishes within a slice |
| Jobs.FreshJobTimes | src/main/java/com/example/dc/schedulers/Job.java:68-78 | a job run to completion on its first turn waits from creation to that turn, and its turnaround is waiting plus elapsed time |
| Jobs.DriveLoop | src/main/java/com/example/dc/schedulers/Job.java:84-87 | the while loop computes the drive of the specification |
| Jobs.Job.constructor | src/main/java/com/example/dc/schedulers/Job.java:25-34 | the new job is the specification's new job, keeping A and b |
| Jobs.Job.IsFinished | src/main/java/com/example/dc/schedulers/Job.java:97-99 | reports whether the runner is finished |
| Jobs.Job.MarkFirstStartAt | src/main/java/com/example/dc/schedulers/Job.java:101-105 | the job's state afterwards is the specification's |
| Jobs.Job.BuildResultAt | src/main/java/com/example/dc/schedulers/Job.java:115-120 | the finish is set and the result is the specification's |
| Jobs.Job.RunToCompletion | src/main/java/com/example/dc/schedulers/Job.java:68-78 | the new state, result and clock are those of the specification's completion |
| Jobs.Job.FinishCompletion | src/main/java/com/example/dc/schedulers/Job.java:74-77 | the bookkeeping after the loop is the specification's |
| Jobs.Job.RunForQuantum | src/main/java/com/example/dc/schedulers/Job.java:80-95 | the new state, outcome and clock are those of the specification's slice |
| Jobs.Job.FinishQuantum | src/main/java/com/example/dc/schedulers/Job.java:88-94 | the bookkeeping after the slice's loop is the specification's |
| Ordering.KeyLeTotal | src/main/java/com/example/dc/schedulers/SJFScheduler.java:24 | the estimate order (missing estimates last) is total and reflexive |
| Ordering.KeyLeTransitive | src/main/java/com/example/dc/schedulers/SJFScheduler.java:24 | the estimate order is transitive |
| Ordering.Insert | src/main/java/com/example/dc/schedulers/SJFScheduler.java:24 | inserting into a sorted list adds exactly that element |
| Ordering.InsertSorted | src/main/java/com/example/dc/schedulers/SJFScheduler.java:24 | inserting into a sorted list keeps it sorted |
| Ordering.SortByKey | src/main/java/com/example/dc/schedulers/SJFScheduler.java:24 | sorting by estimate is a permutation of the jobs |
| Ordering.SortByKeySorted | src/main/java/com/example/dc/schedulers/SJFScheduler.java:24 | the sorted list is ordered by estimate, missing estimates last |
| Ordering.SortByKeyStable | src/main/java/com/example/dc/schedulers/SJFScheduler.java:24 | the sort is stable: jobs with equal estimates keep their submission order |
| Ordering.SortByKeyEqualKeys | src/main/java/com/example/dc/schedulers/SJFScheduler.java:24 | when all estimates are equal the order is unchanged |
| Ordering.SortByKeyExample | src/main/java/com/example/dc/schedulers/SJFScheduler.java:24 | estimates 50, 10, 30 run in the order 10, 30, 50 |
| Schedulers.ReadyLater | src/main/java/com/example/dc/schedulers/Job.java:68-95 | jobs ready to run at one time are ready at any later time |
| Schedulers.FirstFailure | src/main/java/com/example/dc/schedulers/FCFSScheduler.java:37-46 | no failure exactly when every job succeeded; otherwise the failure of the first job that failed |
| Schedulers.Collect | src/main/java/com/example/dc/schedulers/FCFSScheduler.java:35-50 | the results are collected exactly when every job succeeded, one per job and in order; otherwise the batch fails with the first job's failure |
| Schedulers.CompleteEach | src/main/java/com/example/dc/schedulers/FCFSScheduler.java:32-34 | running each job to completion in turn keeps one job and one outcome per job and moves the clock forward |
| Schedulers.CompleteEachAt | src/main/java/com/example/dc/schedulers/FCFSScheduler.java:32-34 | job k runs to completion starting when job k−1 finished |
| Schedulers.QuantumEach | src/main/java/com/example/dc/schedulers/RoundRobinScheduler.java:43-47 | a time slice for each job in turn keeps one job and one outcome per job and moves the clock forward |
| Schedulers.QuantumEachDone | src/main/java/com/example/dc/schedulers/RoundRobinScheduler.java:43-47 | every job whose slice reports it finished has a finished runner and a recorded finish time |
| Schedulers.UnfinishedKeeps | src/main/java/com/example/dc/schedulers/RoundRobinScheduler.java:48-63 | a job of the batch whose slice did not finish it is put back on the queue |
| Schedulers.QuantumEachTagged | src/main/java/com/example/dc/schedulers/RoundRobinScheduler.java:43-47 | the slices keep the jobs' ids and every finished outcome carries its own job's id |
| Schedulers.FirstComeFirstServedOrder | src/main/java/com/example/dc/schedulers/FCFSScheduler.java:24-51 | when the batch succeeds there is one result per job, in submission order, with the job's method and the result its runner finished with |
| Schedulers.CompletedJob | src/main/java/com/example/dc/schedulers/Job.java:68-78 | a completed job is finished, and its result carries the job's id, method and runner result |
| Schedulers.SequentialWaiting | src/main/java/com/example/dc/schedulers/FCFSScheduler.java:24-51 | for jobs created together and run one after another, each job waits exactly as long as the one before it took to turn around, and turnaround is waiting plus elapsed time |
| Schedulers.WeightAppend | src/main/java/com/example/dc/schedulers/RoundRobinScheduler.java:40-64 | the work left in a queue is the sum over its parts |
| Schedulers.Unfinished | src/main/java/com/example/dc/schedulers/RoundRobinScheduler.java:48-63 | the jobs put back in the queue are jobs of the batch |
| Schedulers.RoundLosesWeight | src/main/java/com/example/dc/schedulers/RoundRobinScheduler.java:43-63 | with a positive quantum, a round of successful slices leaves the requeued jobs with at least one step less each |
| Schedulers.BatchSize | src/main/java/com/example/dc/schedulers/RoundRobinScheduler.java:43-47 | a round takes min(parallelism, queued) jobs, at least one when there is work |
| Schedulers.RoundShrinksQueue | src/main/java/com/example/dc/schedulers/RoundRobinScheduler.java:40-64 | each round strictly reduces the work left in the queue, so the loop ends |
| Schedulers.BatchAccountsForEveryJob | src/main/java/com/example/dc/schedulers/RoundRobinScheduler.java:48-63 | after a round every job of the batch is either finished, with a result, or back in the queue, never both and never lost |
| Schedulers.RoundRobinAccountsForEveryJob | src/main/java/com/example/dc/schedulers/RoundRobinScheduler.java:33-69 | when the batch succeeds there is exactly one result per submitted job |
| Schedulers.OneWorkerRound | src/main/java/com/example/dc/schedulers/RoundRobinScheduler.java:40-64 | with one worker, a round runs the head job for one slice and then appends it to the back of the queue if unfinished, or its result to the results |
| Schedulers.RotationOfTwo | src/main/java/com/example/dc/schedulers/RoundRobinScheduler.java:40-64 | two jobs where the first needs two slices and the second one: the second finishes first and the first finishes on its second turn |
| Schedulers.ExampleFirstSlice | src/main/java/com/example/dc/schedulers/Job.java:80-95 | a 10 ms slice of steps taking 5 ms each leaves the first example job unfinished after 10 ms |
| Schedulers.RoundRobinExample | src/main/java/com/example/dc/schedulers/RoundRobinScheduler.java:33-69 | concretely: the short job's result comes first, the long job's second, and the batch ends at 20 ms |
| SchedulerClasses.RunEachToCompletion | src/main/java/com/example/dc/schedulers/FCFSScheduler.java:32-34 | the loop over the job objects leaves them in the states of the specification and returns its outcomes and clock |
| SchedulerClasses.RunInOrder | src/main/java/com/example/dc/schedulers/FCFSScheduler.java:31-49 | running the given jobs to completion in order and collecting their results yields first-come-first-served's results and end time for those jobs, and leaves each job in its completed state |
| SchedulerClasses.RunEachForQuantum | src/main/java/com/example/dc/schedulers/RoundRobinScheduler.java:43-47 | the loop over the batch's job objects leaves them in the states of the specification and returns its outcomes and clock |
| SchedulerClasses.PermutedJobs | src/main/java/com/example/dc/schedulers/SJFScheduler.java:24-25 | a reordering of distinct ready jobs is distinct and ready, and holds only those jobs |
| SchedulerClasses.CollectOutcomes | src/main/java/com/example/dc/schedulers/FCFSScheduler.java:35-50 | the collecting loop returns the specification's collected results |
| SchedulerClasses.FcfsScheduler.constructor | src/main/java/com/example/dc/schedulers/FCFSScheduler.java:16 | the queue starts empty |
| SchedulerClasses.FcfsScheduler.Submit | src/main/java/com/example/dc/schedulers/FCFSScheduler.java:19-21 | the job is appended to the queue |
| SchedulerClasses.FcfsScheduler.RunAll | src/main/java/com/example/dc/schedulers/FCFSScheduler.java:24-51 | the queue is emptied, every job runs to completion in submission order, and the results and end time are the specification's |
| SchedulerClasses.ShortestFirst | src/main/java/com/example/dc/schedulers/SJFScheduler.java:24-25 | the order run is the sort by estimate of the submitted jobs, which stay distinct and ready |
| SchedulerClasses.SjfScheduler.constructor | src/main/java/com/example/dc/schedulers/SJFScheduler.java:15 | the list starts empty |
| SchedulerClasses.SjfScheduler.Submit | src/main/java/com/example/dc/schedulers/SJFScheduler.java:18-20 | the job is appended to the list |
| SchedulerClasses.SjfScheduler.RunAll | src/main/java/com/example/dc/schedulers/SJFScheduler.java:23-50 | the list is emptied, the jobs sorted by estimate run as in first-come-first-served, and each job object ends in the state the specification's completion pass gives it |
| SchedulerClasses.RoundOutcome | src/main/java/com/example/dc/schedulers/RoundRobinScheduler.java:40-64 | a round with a failing slice ends the batch with that failure; otherwise the unfinished jobs go to the back of the queue, the finished results are appended, and the work left shrinks |
| SchedulerClasses.BatchThrough | src/main/java/com/example/dc/schedulers/RoundRobinScheduler.java:48-63 | after a successful round every job that is neither still waiting nor re-queued is through |
| SchedulerClasses.Requeue | src/main/java/com/example/dc/schedulers/RoundRobinScheduler.java:48-63 | appending the unfinished job objects to the waiting ones gives the specification's queue and keeps the queue free of duplicates |
| SchedulerClasses.RoundRobinScheduler.Default | src/main/java/com/example/dc/schedulers/RoundRobinScheduler.java:19-21 | the default scheduler uses the configured quantum and an empty queue |
| SchedulerClasses.RoundRobinScheduler.constructor | src/main/java/com/example/dc/schedulers/RoundRobinScheduler.java:23-25 | a scheduler with the given quantum and an empty queue |
| SchedulerClasses.RoundRobinScheduler.Submit | src/main/java/com/example/dc/schedulers/RoundRobinScheduler.java:27-30 | the job is appended to the back of the queue |
| SchedulerClasses.RoundRobinScheduler.Slice | src/main/java/com/example/dc/schedulers/RoundRobinScheduler.java:43-47 | the batch at the head of the queue gets one quantum per job, its new states and outcomes are the specification's pass, and the jobs behind it keep their states |
| SchedulerClasses.RoundRobinScheduler.Round | src/main/java/com/example/dc/schedulers/RoundRobinScheduler.java:43-63 | one round over the job objects: the first failure, the new clock, the results and the requeued jobs are the specification's, and the queue stays free of duplicates; a job the round takes off the queue has a finished runner and a recorded finish, and jobs that left earlier are untouched |
| SchedulerClasses.RoundRobinScheduler.RunAll | src/main/java/com/example/dc/schedulers/RoundRobinScheduler.java:33-69 | the queue is emptied and the results and end time are the specification's round robin with max(1, parallelism) workers; on success every submitted job object ends with a finished runner and a recorded finish time |
| SolverFactory.SolverName | src/main/java/com/example/dc/patterns/solver/CramerSolver.java:10-12 | each solver reports one of the names "cramer", "gauss-jordan" and "library" |
| SolverFactory.Create | src/main/java/com/example/dc/patterns/factory/SolverFactory.java:15-22 | after lower-casing, "cramer" gives Cramer, "gauss", "gauss-jordan" and "gauss_jordan" give Gauss-Jordan, "library" and "commons" give the library solver, each exactly for those names; any other name fails |
| SolverFactory.Defaults | src/main/java/com/example/dc/patterns/factory/SolverFactory.java:24-30 | the default solvers are the three kinds, Cramer first and the library last |
| SolverFactory.DefaultNames | src/main/java/com/example/dc/patterns/factory/SolverFactory.java:24-30 | the default solvers' names are cramer, gauss-jordan and library, in that order |
| SolverFactory.CreateByName | src/main/java/com/example/dc/patterns/factory/SolverFactory.java:15-22 | every solver is created back from its own name |
| SolverFactory.CreateAliases | src/main/java/com/example/dc/patterns/factory/SolverFactory.java:15-22 | names are matched without regard to case ("GAUSS", "Gauss_Jordan", "Commons"), and an unknown name is refused |
| SolverFactory.Solve | src/main/java/com/example/dc/patterns/solver/Solver.java:3-6 | solving with a kind is that solver's result; the library's answer is a parameter |
| DomainTypes.SchedulerCode | src/main/java/com/example/dc/domain/SchedulerType.java:6-8 | the codes are "fcfs", "rr" and "sjf" |
| DomainTypes.SchedulerFrom | src/main/java/com/example/dc/domain/SchedulerType.java:20-30 | a missing value fails; otherwise the type whose code equals the trimmed, lower-cased value, and a failure when there is none |
| DomainTypes.SchedulerRoundTrip | src/main/java/com/example/dc/domain/SchedulerType.java:6-30 | reading a scheduler's own code gives that scheduler back |
| DomainTypes.SchedulerCodesDistinct | src/main/java/com/example/dc/domain/SchedulerType.java:6-8 | different schedulers have different codes |
| DomainTypes.SchedulerFromPadded | src/main/java/com/example/dc/domain/SchedulerType.java:24 | surrounding blanks are ignored |
| DomainTypes.SchedulerFromMixedCase | src/main/java/com/example/dc/domain/SchedulerType.java:24 | case is ignored |
| DomainTypes.SchedulerFromUnknown | src/main/java/com/example/dc/domain/SchedulerType.java:28 | an unknown name is refused |
| DomainTypes.ScenarioCode | src/main/java/com/example/dc/domain/ScenarioType.java:6-8 | the codes are "simple", "medio" and "complejo" |
| DomainTypes.ScenarioFrom | src/main/java/com/example/dc/domain/ScenarioType.java:20-30 | a missing value fails; otherwise the type whose code equals the trimmed, lower-cased value, and a failure when there is none |
| DomainTypes.ScenarioRoundTrip | src/main/java/com/example/dc/domain/ScenarioType.java:6-30 | reading a scenario's own code gives that scenario back |
| DomainTypes.ScenarioFromPaddedCase | src/main/java/com/example/dc/domain/ScenarioType.java:24 | blanks and case are ignored |
| DomainTypes.ScenarioFromOthers | src/main/java/com/example/dc/domain/ScenarioType.java:24-28 | "COMPLEJO" is read as complejo and an unknown name is refused |
| Config.ScenarioSize | src/main/java/com/example/dc/utils/Config.java:23-28 | a missing name gives −1; a known lower-cased name its size; any other −1; a size is never zero or negative |
| Config.ScenarioCodeSizes | src/main/java/com/example/dc/utils/Config.java:13-17 | the three scenarios have 3, 20 and 80 resistors |
| Config.ScenarioSizeExamples | src/main/java/com/example/dc/utils/Config.java:23-28 | the lookup ignores case but, unlike the scenario type, does not trim |
| Config.PositiveOverride | src/main/java/com/example/dc/utils/Config.java:38-46 | a missing or blank override gives nothing, and any override accepted (trimmed text read as a 32-bit integer) is positive |
| Config.ComputeParallelism | src/main/java/com/example/dc/utils/Config.java:34-48 | an accepted override is capped at the processors available; otherwise one fewer than available, at least 1; with processors available the result lies between 1 and their number |
| Config.ParallelismFallback | src/main/java/com/example/dc/utils/Config.java:36-37 | no override or a blank one uses one fewer than the processors, but at least one |
| Config.ParallelismRejectedOverride | src/main/java/com/example/dc/utils/Config.java:40-45 | a zero or non-numeric override is ignored |
| Config.ParallelismAcceptedOverride | src/main/java/com/example/dc/utils/Config.java:40-43 | an accepted override is used, capped at the processors available |
| Controller.RunnerForSolver | src/main/java/com/example/dc/controller/Controller.java:93-101 | the runner is chosen by the same lower-cased names as the solver factory; an unknown name fails; the runner built is consistent |
| Controller.CostFactor | src/main/java/com/example/dc/controller/Controller.java:113-118 | the factors lie between 0.8 and 2.5 |
| Controller.EstimateCost | src/main/java/com/example/dc/controller/Controller.java:111-120 | the estimate is at least 1 |
| Controller.EstimateMonotone | src/main/java/com/example/dc/controller/Controller.java:111-120 | a larger system never has a smaller estimate |
| Controller.EstimateByFactor | src/main/java/com/example/dc/controller/Controller.java:111-120 | a solver with a larger factor never has a smaller estimate |
| Controller.EstimateBySolver | src/main/java/com/example/dc/controller/Controller.java:111-120 | for a given size, Cramer is estimated at least as costly as Gauss-Jordan, which is at least any unknown name, which is at least the library |
| Controller.EstimateExamples | src/main/java/com/example/dc/controller/Controller.java:111-120 | the simple scenario is estimated at 1 for every solver; the medium one at 20, 12 and 6 |
| Controller.SquaredErrors | src/main/java/com/example/dc/controller/Controller.java:127-134 | one squared difference per row between the row's left- and right-hand sides |
| Controller.RowLhs | src/main/java/com/example/dc/controller/Controller.java:128-131 | the inner loop sums the row's products over the entries both the row and x have |
| Controller.ComputeResidual | src/main/java/com/example/dc/controller/Controller.java:122-136 | no value for an empty x; otherwise the sum of the squared row differences |
| Controller.Checks | src/main/java/com/example/dc/controller/Controller.java:138-153 | no checks for an empty x; otherwise one per row with its index, both sides and their distance |
| Controller.VerifyEquations | src/main/java/com/example/dc/controller/Controller.java:138-153 | the loop returns the specification's checks |
| Controller.CheckErrors | src/main/java/com/example/dc/controller/Controller.java:149 | every check's error is non-negative, and zero exactly when both sides agree |
| Controller.ResidualIsErrorSum | src/main/java/com/example/dc/controller/Controller.java:122-153 | the squared residual is the sum of the squared errors of the equation checks |
| Controller.ResidualZeroIffSolved | src/main/java/com/example/dc/controller/Controller.java:122-136 | the residual is zero exactly when every equation holds |
| Controller.ExactSolutionResidual | src/main/java/com/example/dc/controller/Controller.java:122-136 | an exact solution of A·x = b has residual zero |
| Observer.FirstIndex | src/main/java/com/example/dc/patterns/observer/EventBus.java:20 | the position of a consumer's first subscription, −1 exactly when it has none |
| Observer.RemoveFirstCount | src/main/java/com/example/dc/patterns/observer/EventBus.java:20 | closing removes one subscription of the consumer, if it has one, and nothing else |
| Observer.Fanout | src/main/java/com/example/dc/patterns/observer/EventBus.java:28-33 | one delivery per listener |
| Observer.FanoutReachesAll | src/main/java/com/example/dc/patterns/observer/EventBus.java:28-33 | every listener, in subscription order, receives the payload on the topic, even after an earlier listener throws |
| Observer.EventBus.constructor | src/main/java/com/example/dc/patterns/observer/EventBus.java:14 | no subscribers and nothing delivered |
| Observer.EventBus.Subscribe | src/main/java/com/example/dc/patterns/observer/EventBus.java:16-21 | a missing topic or consumer is refused and changes nothing; otherwise the consumer is appended to the topic's list and the handle names both |
| Observer.EventBus.Close | src/main/java/com/example/dc/patterns/observer/EventBus.java:20 | closing a handle removes that one subscription |
| Observer.EventBus.Publish | src/main/java/com/example/dc/patterns/observer/EventBus.java:23-34 | the listeners of the topic receive the payload in order; a topic without listeners delivers nothing; subscriptions are unchanged |
| Observer.CloseEffect | src/main/java/com/example/dc/patterns/observer/EventBus.java:20 | closing leaves other topics' listeners alone, removes one copy of the consumer from its topic, and does nothing when it was not subscribed |
| Observer.SubscribeThenClose | src/main/java/com/example/dc/patterns/observer/EventBus.java:16-21 | subscribing a new consumer and closing its handle restores every topic's listeners |
| SystemMetrics.FirstToken | src/main/java/com/example/dc/utils/SystemMetrics.java:89 | the text before the first whitespace character |
| SystemMetrics.ParseLongOrFail | src/main/java/com/example/dc/utils/SystemMetrics.java:90 | a valid 64-bit integer is read as its value; anything else gives −1 |
| SystemMetrics.StatusReadsBack | src/main/java/com/example/dc/utils/SystemMetrics.java:78-97 | a status line "key:⇥n" after lines without the key reads back as n |
| SystemMetrics.IoReadsBack | src/main/java/com/example/dc/utils/SystemMetrics.java:116-132 | an io line "key: n" after lines without the key reads back as n |
| SystemMetrics.ParseLongOfDigits | src/main/java/com/example/dc/utils/SystemMetrics.java:90 | a natural number's decimal text reads back as that number |
| SystemMetrics.StatusScanStep | src/main/java/com/example/dc/utils/SystemMetrics.java:85-93 | the scan takes the value of the first line with the prefix that splits on ':', and otherwise moves to the next line |
| SystemMetrics.ReadValueFromStatus | src/main/java/com/example/dc/utils/SystemMetrics.java:78-97 | the loop over the status lines returns the specification's value (−1 when the file is missing) |
| SystemMetrics.ReadValueFromIo | src/main/java/com/example/dc/utils/SystemMetrics.java:116-132 | the loop over the io lines returns the specification's value (−1 when the file is missing) |
| SystemMetrics.DeltaStep | src/main/java/com/example/dc/utils/SystemMetrics.java:60-76 | a missing reading gives no value and keeps the previous one; a first reading gives 0; otherwise the increase over the previous reading, or no value when the counter went back; the new reading is kept |
| SystemMetrics.Run | src/main/java/com/example/dc/utils/SystemMetrics.java:60-76 | a sequence of readings gives one delta per reading |
| SystemMetrics.RunTelescopes | src/main/java/com/example/dc/utils/SystemMetrics.java:60-76 | for non-decreasing readings every delta is present and their sum is the last reading minus the first baseline |
| SystemMetrics.CounterCell.constructor | src/main/java/com/example/dc/utils/SystemMetrics.java:17-20 | a counter starts at −1 |
| SystemMetrics.CounterCell.GetAndSet | src/main/java/com/example/dc/utils/SystemMetrics.java:65 | returns the old value and stores the new one |
| SystemMetrics.CounterCell.Set | src/main/java/com/example/dc/utils/SystemMetrics.java:72 | stores the value |
| SystemMetrics.ReadDelta | src/main/java/com/example/dc/utils/SystemMetrics.java:60-76 | the delta returned and the stored reading are the specification's |
| SystemMetrics.ReadStatusDelta | src/main/java/com/example/dc/utils/SystemMetrics.java:52-76 | the context-switch delta of a status key, as specified |
| SystemMetrics.ReadIoMetric | src/main/java/com/example/dc/utils/SystemMetrics.java:99-114 | the byte-count delta of an io key, as specified |
| SystemMetrics.CpuPercent | src/main/java/com/example/dc/utils/SystemMetrics.java:32-44 | a non-negative load gives 100 times the load; otherwise no value |
| SystemMetrics.MemoryMb | src/main/java/com/example/dc/utils/SystemMetrics.java:46-50 | used memory in MiB: (total − free) / 2^20 |
| SystemMetrics.Snapshot | src/main/java/com/example/dc/utils/SystemMetrics.java:22-30 | the six figures in order, each counter advancing to its new reading |
| MetricsLog.RemoveLineBreaks | src/main/java/com/example/dc/utils/MetricsLogger.java:53 | the text without any carriage return or line feed |
| MetricsLog.RemoveLineBreaksNoop | src/main/java/com/example/dc/utils/MetricsLogger.java:53 | text without line breaks is kept as it is |
| MetricsLog.SanitizeSingleLine | src/main/java/com/example/dc/utils/MetricsLogger.java:49-61 | a sanitised scheduler or scenario never contains a line break, so a row stays on one line |
| MetricsLog.SanitizeFixes | src/main/java/com/example/dc/utils/MetricsLogger.java:49-61 | a trimmed, non-blank, single-line name is written unchanged |
| MetricsLog.SanitizeIdempotent | src/main/java/com/example/dc/utils/MetricsLogger.java:49-61 | a sanitised name is trimmed, and sanitising it again changes nothing |
| MetricsLog.Fields | src/main/java/com/example/dc/utils/MetricsLogger.java:25-42 | a row has exactly as many fields as the header has columns |
| MetricsLog.RowLines | src/main/java/com/example/dc/utils/MetricsLogger.java:25-42 | one row per logged result, in order |
| MetricsLog.HeaderOnce | src/main/java/com/example/dc/utils/MetricsLogger.java:19-23 | a log that starts empty gets the header once, before the first row; a non-empty log gets only rows, in logging order |
| MetricsLog.MetricsLogger.constructor | src/main/java/com/example/dc/utils/MetricsLogger.java:16-19 | the logger starts from the file's existing lines |
| MetricsLog.MetricsLogger.Log | src/main/java/com/example/dc/utils/MetricsLogger.java:15-47 | the header is written when the file is empty, then the row; an unwritable file is left unchanged |
| LogAnalytics.Elapsed | src/main/java/com/example/dc/utils/LogAnalyticsService.java:80 | one elapsed time per sample |
| LogAnalytics.AddAllSums | src/main/java/com/example/dc/utils/LogAnalyticsService.java:172-188 | the aggregate counts every sample, sums the elapsed and waiting times (a missing waiting time counts 0), and counts and sums only the known residuals |
| LogAnalytics.Mean | src/main/java/com/example/dc/utils/LogAnalyticsService.java:194-232 | no mean without samples; otherwise the mean times the count is the sum |
| LogAnalytics.Throughput | src/main/java/com/example/dc/utils/LogAnalyticsService.java:238-243 | no throughput unless the elapsed sum is positive; otherwise throughput × elapsed sum = count × 60000 |
| LogAnalytics.ReaderMatchesHeader | src/main/java/com/example/dc/utils/LogAnalyticsService.java:47-75 | the fields the reader takes (method, scheduler, scenario, elapsed ... residual, at least 15) are the columns the logger writes |
| LogAnalytics.Parsed | src/main/java/com/example/dc/utils/LogAnalyticsService.java:41-84 | one parse per line |
| LogAnalytics.Present | src/main/java/com/example/dc/utils/LogAnalyticsService.java:41-84 | skipped lines leave at most as many rows as lines |
| LogAnalytics.NormalizeScenarioShape | src/main/java/com/example/dc/utils/LogAnalyticsService.java:138-148 | the normalised scenario is "unknown", or the lower-cased name when it has no '-' after its first character, or the part of it before its first '-' |
| LogAnalytics.UnknownIsNormal | src/main/java/com/example/dc/utils/LogAnalyticsService.java:139-140 | "unknown" stays "unknown" |
| LogAnalytics.NormalizeScenarioIdempotent | src/main/java/com/example/dc/utils/LogAnalyticsService.java:138-148 | normalising a normalised, non-blank scenario changes nothing |
| LogAnalytics.Samples | src/main/java/com/example/dc/utils/LogAnalyticsService.java:80 | one sample per accepted row |
| LogAnalytics.CountSumBump | src/main/java/com/example/dc/utils/LogAnalyticsService.java:81-83 | adding a sample to one group raises the groups' total count by one |
| LogAnalytics.GroupCounts | src/main/java/com/example/dc/utils/LogAnalyticsService.java:80-83 | the overall aggregate is that of all accepted rows, and the groups by method, scenario and scheduler each count every row exactly once |
| LogAnalytics.HeaderIgnored | src/main/java/com/example/dc/utils/LogAnalyticsService.java:33-34 | the first line is skipped whatever it holds |
| LogAnalytics.NothingAccepted | src/main/java/com/example/dc/utils/LogAnalyticsService.java:86-88 | when no row after the header is accepted there is no summary |
| LogAnalytics.NoneAccepted | src/main/java/com/example/dc/utils/LogAnalyticsService.java:41-84 | when no line parses, no row is accepted |
| LogAnalytics.LoggedLineSplits | src/main/java/com/example/dc/utils/MetricsLogger.java:25-42 | a row the logger writes is trimmed, non-empty and splits on ',' into exactly the fields written |
| LogAnalytics.LoggedRowParses | src/main/java/com/example/dc/utils/LogAnalyticsService.java:41-79 | a row the logger writes is accepted and read back with the method, the sanitised scheduler and scenario, and the ten measures in their columns |
| LogAnalytics.ReadBackAll | src/main/java/com/example/dc/utils/LogAnalyticsService.java:41-84 | one row read back per logged entry |
| LogAnalytics.RowLinesAccepted | src/main/java/com/example/dc/utils/LogAnalyticsService.java:41-84 | the rows the logger writes are all accepted, in order, as what was logged |
| LogAnalytics.LogAfterHeader | src/main/java/com/example/dc/utils/MetricsLogger.java:19-23 | after the header a fresh log holds exactly the rows written |
| LogAnalytics.LogReadBack | src/main/java/com/example/dc/utils/LogAnalyticsService.java:28-84 | reading a log the logger wrote from empty gives back every logged entry, in order |
| LogAnalytics.AnalyzeAfterHeader | src/main/java/com/example/dc/utils/LogAnalyticsService.java:28-108 | when rows are accepted, the summary is that of the rows after the header, counting each |
| LogAnalytics.SummaryCount | src/main/java/com/example/dc/utils/LogAnalyticsService.java:86-91 | the total count is the number of accepted rows |
| LogAnalytics.AcceptedStep | src/main/java/com/example/dc/utils/LogAnalyticsService.java:41-84 | each line adds its row when it parses and nothing otherwise |
| LogAnalytics.SummarizeStep | src/main/java/com/example/dc/utils/LogAnalyticsService.java:80-83 | adding a row to the summary records it in the total and in its three groups |
| LogAnalytics.ParseLines | src/main/java/com/example/dc/utils/LogAnalyticsService.java:28-108 | the loop over the lines returns the specification's summary |
| Cors.NonEmpty | src/main/java/com/example/dc/web/CorsConfig.java:46 | the pieces kept are exactly the non-empty ones, each taken from the input |
| Cors.ParsedAreOrigins | src/main/java/com/example/dc/web/CorsConfig.java:43-48 | every parsed origin is non-empty and has no leading or trailing whitespace |
| Cors.NonEmptyAppend | src/main/java/com/example/dc/web/CorsConfig.java:46 | dropping empty pieces keeps order: two lists are filtered independently |
| Cors.TrimmedAppend | src/main/java/com/example/dc/web/CorsConfig.java:45 | trimming works piece by piece over concatenated lists |
| Cors.KeptOrigins | src/main/java/com/example/dc/web/CorsConfig.java:45-46 | pieces that are already trimmed and non-empty pass through trimming and filtering unchanged |
| Cors.KeptEmpties | src/main/java/com/example/dc/web/CorsConfig.java:45-46 | a list of empty pieces parses to no origins |
| Cors.ParseOriginsOfFullSplit | src/main/java/com/example/dc/web/CorsConfig.java:44 | Java's `split(",")` drops trailing empty strings, yet parsing gives the same origins as with every piece kept |
| Cors.SplitAllAround | src/main/java/com/example/dc/web/CorsConfig.java:44 | splitting on a separator placed between two texts gives the pieces of each text, one list after the other |
| Cors.ParseOriginsConcat | src/main/java/com/example/dc/web/CorsConfig.java:43-48 | the origins of two comma-joined settings are the origins of the first followed by those of the second |
| Cors.OriginsReadBack | src/main/java/com/example/dc/web/CorsConfig.java:43-48 | a non-empty list of trimmed, non-empty origins without commas, joined with commas, parses back to itself |
| Cors.DefaultOrigins | src/main/java/com/example/dc/web/CorsConfig.java:21-23 | the default setting allows exactly the two development origins, localhost first |
| Cors.DefaultPartsAreOrigins | src/main/java/com/example/dc/web/CorsConfig.java:21 | each default origin is trimmed, non-empty and comma-free |
| Cors.OneOrigin | src/main/java/com/example/dc/web/CorsConfig.java:43-48 | a single well-formed origin parses to itself alone |
| ApiController.ValidateDimensions | src/main/java/com/example/dc/web/ApiController.java:92-104 | accepted exactly when A and b are present, A is non-empty with as many rows as b has entries and every row is present with length n; a missing argument is reported first, then a size mismatch, and a system that passes both but has a missing or wrong-length row gives exactly the non-square error |
| ApiController.ValidationsAgree | src/main/java/com/example/dc/web/ApiController.java:92-104 | the controller's check and the circuit manager's accept the same inputs with the same matrix; they differ only where the manager meets a missing row, which the controller reports as non-square |
| ApiController.NameOr | src/main/java/com/example/dc/web/ApiController.java:66 | a present, non-blank name is used; a missing or blank one gives the fallback |
| ApiController.SolveCustom | src/main/java/com/example/dc/web/ApiController.java:59-70 | a missing body fails, then an unknown scheduler, then bad dimensions; otherwise the spec holds A's rows, b and the request's name or "custom" |
| ApiController.NamedResistors | src/main/java/com/example/dc/web/ApiController.java:134-142 | resistor i (from 0) is named "R" followed by i + 1 and carries the i-th value |
| ApiController.BuildPhysicalModel | src/main/java/com/example/dc/web/ApiController.java:130-151 | succeeds exactly when resistances are given, non-empty and all positive and the trimmed, lower-cased topology (default "serie") is one of the four accepted names; reports missing resistances, then a non-positive one, then an unknown topology, each as exactly that error; the model keeps the named resistors, the voltage and the name or topology as its name, and is in series exactly for "serie"/"series" |
| ApiController.SolvePhysical | src/main/java/com/example/dc/web/ApiController.java:72-83 | a missing body fails, then an unknown scheduler, then an invalid model; otherwise the spec is built from the model under its name, a dash and the clock reading |
| ApiController.PhysicalSpecName | src/main/java/com/example/dc/web/ApiController.java:79-80 | the spec name is the request's non-blank name, else the topology, then "-" and the milliseconds |
| ApiController.PhysicalSpecSystem | src/main/java/com/example/dc/web/ApiController.java:78-80 | a series request gives the 1×1 system [ΣR]·I = [V]; a parallel request gives the parallel circuit's matrix and vector |
| CircuitManager.Rows | src/main/java/com/example/dc/domain/CircuitManager.java:28-31 | the matrix holds the given rows unchanged, in order |
| CircuitManager.FirstBadRow | src/main/java/com/example/dc/domain/CircuitManager.java:50-54 | the first row from the given position that is missing or whose length is not n, or -1 when every one is fine |
| CircuitManager.ValidateDimensions | src/main/java/com/example/dc/domain/CircuitManager.java:43-55 | accepted exactly when A and b are present, non-empty, of equal size and square; the failure reported is the first one met: missing, size mismatch, then, for a system that passes both, exactly the first bad row's error: a null-pointer failure for a missing row or non-square for a short or long one |
| CircuitManager.Custom | src/main/java/com/example/dc/domain/CircuitManager.java:28-31 | fails with the validation's error, otherwise keeps A, b and the name as given |
| CircuitManager.CustomFromModel | src/main/java/com/example/dc/domain/CircuitManager.java:33-37 | the spec holds the model's matrix and vector, square and of matching size, under the given name |
| CircuitManager.CustomForModel | src/main/java/com/example/dc/domain/CircuitManager.java:39-41 | the spec's name is the model's name, a dash and the clock reading |
| CircuitManager.GramSumSymmetric | src/main/java/com/example/dc/domain/CircuitManager.java:66-71 | the running sum of M[k][i]·M[k][j] is symmetric in i and j |
| CircuitManager.GramSumDiagonal | src/main/java/com/example/dc/domain/CircuitManager.java:66-71 | on the diagonal the running sum is never negative |
| CircuitManager.WellConditionedShape | src/main/java/com/example/dc/domain/CircuitManager.java:57-79 | the generated matrix MᵀM + ½·I is symmetric and every diagonal entry is at least ½ |
| CircuitManager.GramEntry | src/main/java/com/example/dc/domain/CircuitManager.java:68-71 | the inner loop computes Σ_k M[k][i]·M[k][j] over all n rows |
| CircuitManager.GenerateWellConditionedMatrix | src/main/java/com/example/dc/domain/CircuitManager.java:65-78 | a new n×n array holding MᵀM + ½·I for the drawn matrix M |
| CircuitManager.FillDrawnMatrix | src/main/java/com/example/dc/domain/CircuitManager.java:59-64 | a new n×n array whose entry (i, j) is draw number i·n + j, the order the nested loops draw in |
| CircuitManager.FillDrawnVector | src/main/java/com/example/dc/domain/CircuitManager.java:81-88 | a new array of n draws, taken after the n·n matrix draws |
| CircuitManager.GenerateScenario | src/main/java/com/example/dc/domain/CircuitManager.java:18-26 | succeeds exactly for a scenario with a positive size, failing otherwise as unknown; the spec is the well-conditioned matrix of the drawn matrix, the drawn vector, and the name followed by "-" and the clock reading |
| Batch.JobFor | src/main/java/com/example/dc/controller/Controller.java:54-57 | a job built for a solver is well-formed, not yet started and created no later than the batch start; a solver without a runner gives the runner's failure |
| Batch.JobsForEach | src/main/java/com/example/dc/controller/Controller.java:53-58 | the job list is built exactly when every solver's job is, and then holds one job per solver, in the solvers' order |
| Batch.JobsReady | src/main/java/com/example/dc/controller/Controller.java:53-58 | every job of a built list is ready to be scheduled at the batch start |
| Batch.BuildJobs | src/main/java/com/example/dc/controller/Controller.java:53-58 | the loop builds fresh, distinct job objects whose states are the job list, or stops with the first solver's failure |
| Batch.SortStates | src/main/java/com/example/dc/schedulers/SJFScheduler.java:24 | sorting job objects by their estimates orders their states exactly as sorting the states does |
| Batch.SubmitFcfs | src/main/java/com/example/dc/controller/Controller.java:59-61 | every job is submitted, in order, after those already queued |
| Batch.SubmitSjf | src/main/java/com/example/dc/controller/Controller.java:59-61 | every job is submitted, in order, after those already queued |
| Batch.SubmitRoundRobin | src/main/java/com/example/dc/controller/Controller.java:59-61 | every job is queued, in order, after those already queued |
| Batch.DispatchFcfs | src/main/java/com/example/dc/controller/Controller.java:59-64 | the FCFS scheduler's results and final clock are those of the first-come-first-served policy over the submitted jobs |
| Batch.DispatchSjf | src/main/java/com/example/dc/controller/Controller.java:59-64 | the SJF scheduler's results and clock are those of first-come-first-served over the jobs sorted stably by estimate |
| Batch.DispatchRoundRobin | src/main/java/com/example/dc/controller/Controller.java:59-64 | the round-robin scheduler's results and clock are those of the round-robin policy with the default quantum and at least one worker |
| Batch.Dispatch | src/main/java/com/example/dc/controller/Controller.java:52-64 | the scheduler chosen for the type runs the submitted jobs exactly as its policy prescribes |
| Batch.ComputedResults | src/main/java/com/example/dc/controller/Controller.java:65-88 | each computed result keeps its scheduler result, the scheduler code and the scenario name; its residual is missing exactly when the solution is empty, it checks every equation when there is a solution, and an exact solution has residual 0 |
| Batch.ResultDeliveriesInOrder | src/main/java/com/example/dc/controller/Controller.java:68-88 | the k-th result's event reaches every result listener, in block k of the deliveries, so results are published in the scheduler's order |
| Batch.BlocksProduct | src/main/java/com/example/dc/controller/Controller.java:75-86 | k results to m listeners make k·m deliveries |
| Batch.ReportOne | src/main/java/com/example/dc/controller/Controller.java:69-87 | one result: it is logged once and its event is delivered to every result listener; the registry is unchanged |
| Batch.ReportAll | src/main/java/com/example/dc/controller/Controller.java:65-88 | every result, in order, is computed, logged and delivered; the registry is unchanged |
| Batch.Start | src/main/java/com/example/dc/controller/Controller.java:59-90 | after the jobs are built: "running" is published with the job count, the scheduler runs, and a failure ends the batch with nothing logged; otherwise the results are reported and "done" follows |
| Batch.Finish | src/main/java/com/example/dc/controller/Controller.java:65-90 | the results are logged and delivered in order and "done" is published last |
| Batch.BatchController.constructor | src/main/java/com/example/dc/controller/Controller.java:36-40 | the controller keeps the bus and the logger it is given |
| Batch.BatchController.RunBatch | src/main/java/com/example/dc/controller/Controller.java:51-91 | the returned results, the deliveries and the log are exactly those of the batch specification: a runner failure publishes and logs nothing; a job failure publishes only "running"; otherwise "running", one event per result, "done" |
| Batch.BatchController.RunCustom | src/main/java/com/example/dc/controller/Controller.java:47-49 | a custom system is run as a batch of the three default solvers |
| Batch.BatchController.RunScenario | src/main/java/com/example/dc/controller/Controller.java:42-45 | an unknown scenario fails before anything is published or logged; a known one of size n runs the default solvers on exactly the system the scenario generator returns: A = MᵀM + ½·I of the drawn n×n matrix M, b the next n draws, named after the scenario code, a dash and the milliseconds |
| Batch.DefaultJobsBuilt | src/main/java/com/example/dc/controller/Controller.java:53-58 | for a square system with non-negligible determinant, the three default solvers' jobs are all built |
| Batch.BatchEvents | src/main/java/com/example/dc/controller/Controller.java:63-89 | a successful batch delivers "running" to the status listeners, then each result to the result listeners, then "done", and nothing else |
| Batch.BatchLog | src/main/java/com/example/dc/controller/Controller.java:74 | a successful batch writes the header when the log was empty and then one row per result, in order; nothing is written to a log that cannot be written |
| Batch.BatchFails | src/main/java/com/example/dc/controller/Controller.java:51-91 | a failing batch logs nothing and only adds deliveries; when a runner cannot be built it publishes nothing |
| Text.Trim | src/main/java/com/example/dc/web/CorsConfig.java:45 | Java's `trim`: the result is no longer than the text and neither starts nor ends with a character up to U+0020 |
| Text.TrimNoop | src/main/java/com/example/dc/web/CorsConfig.java:45 | a text that neither starts nor ends with such a character is left as it is |
| Text.TrimIsInfix | src/main/java/com/example/dc/web/CorsConfig.java:45 | trimming removes only a prefix and a suffix made of such characters |
| Text.JsTrim | ui/src/components/PhysicalSolve.tsx:44 | JavaScript's `trim`: the result is no longer than the text and has no JavaScript whitespace at either end |
| Text.JsTrimNoop | ui/src/components/PhysicalSolve.tsx:44 | a text without JavaScript whitespace at either end is left as it is, so trimming twice is trimming once |
| Text.JsTrimIsInfix | ui/src/components/PhysicalSolve.tsx:44 | trimming removes only a prefix and a suffix made of JavaScript whitespace |
| Text.ToLower | src/main/java/com/example/dc/web/ApiController.java:144 | lower-casing maps every character on its own and keeps the length |
| Text.ToUpper | ui/src/components/AnalysisView.tsx:49 | upper-casing maps every character on its own and keeps the length |
| Text.JavaSplitPieces | src/main/java/com/example/dc/web/CorsConfig.java:44 | Java's `split` on one character returns a text without the separator whole, and otherwise the pieces of the full split less only trailing empty ones |
| Text.SplitAllJoin | src/main/java/com/example/dc/utils/LogAnalyticsService.java:46 | joining the pieces of a full split with the separator gives the text back |
| Text.JoinSplitAll | src/main/java/com/example/dc/utils/LogAnalyticsService.java:46 | pieces free of the separator, joined with it, split back into the same pieces |
| Text.ParseInteger | src/main/java/com/example/dc/utils/Config.java:40 | `Integer.parseInt`: a parsed value lies within the type's range |
| Text.ParseIntegerOfDigits | src/main/java/com/example/dc/utils/Config.java:40 | a number printed in decimal, with or without a minus sign, parses back to itself when it lies in the range |
| Text.DigitsOfNatToString | src/main/java/com/example/dc/web/ApiController.java:140 | the decimal text of a natural number reads back as that number |
| AnalysisView.FieldNumber | ui/src/components/AnalysisView.tsx:51-59 | a field past the end of the line reads as NaN; any other is converted as JavaScript's `Number` converts it |
| AnalysisView.EntryFields | ui/src/components/AnalysisView.tsx:42-61 | an entry keeps the line's timestamp, job id and method, upper-cases the scheduler, cuts the scenario before its first '-', converts the timings, and has a residual only when the line has a fifteenth field |
| AnalysisView.SplitLines | ui/src/components/AnalysisView.tsx:36 | splitting on line feeds gives at least one line and no line holds a line feed |
| AnalysisView.OneLine | ui/src/components/AnalysisView.tsx:36 | a text without a line feed is a single line |
| AnalysisView.LfLine | ui/src/components/AnalysisView.tsx:36 | a line ended by a line feed is split off as it is |
| AnalysisView.CrLfLine | ui/src/components/AnalysisView.tsx:36 | a line ended by a carriage return and a line feed is split off without the carriage return |
| AnalysisView.LinesRoundTrip | ui/src/components/AnalysisView.tsx:36 | lines without line feeds or final carriage returns, joined with line feeds, split back into themselves |
| AnalysisView.LineEntry | ui/src/components/AnalysisView.tsx:40-41 | a line gives at most one entry |
| AnalysisView.CsvRows | ui/src/components/AnalysisView.tsx:34-64 | an empty text has no entries; otherwise there are fewer entries than lines, the first line never giving one |
| AnalysisView.ParseCsv | ui/src/components/AnalysisView.tsx:34-64 | the loop over the lines after the first pushes exactly the entries of the parsing specification |
| AnalysisView.EntriesAppend | ui/src/components/AnalysisView.tsx:39-62 | the entries of two runs of lines are those of each run, in order |
| AnalysisView.ShortLineSkipped | ui/src/components/AnalysisView.tsx:41 | a line with fewer than seven fields adds no entry, wherever it stands |
| AnalysisView.LongLineKept | ui/src/components/AnalysisView.tsx:40-61 | a line with seven or more fields adds its entry at its place |
| AnalysisView.HeaderIgnored | ui/src/components/AnalysisView.tsx:34-64 | for a log text with a header line, the entries are exactly those of the body lines |
| AnalysisView.LoggedLineEntry | ui/src/components/AnalysisView.tsx:40-61 | a line written by the metrics logger reads back as one entry with its job id, method, upper-cased scheduler, scenario cut before the first '-', and its elapsed time and residual as written |
| AnalysisView.WithScenario | ui/src/components/AnalysisView.tsx:90 | the rows kept all have the selected scenario and come from the input |
| AnalysisView.FilteredRows | ui/src/components/AnalysisView.tsx:88-91 | "all" keeps every row; any other selection keeps only rows of that scenario, each from the input |
| AnalysisView.WithScenarioAppend | ui/src/components/AnalysisView.tsx:90 | filtering keeps order: two runs of rows are filtered independently |
| AnalysisView.WithScenarioAll | ui/src/components/AnalysisView.tsx:90 | when every row has the selected scenario, none is dropped |
| AnalysisView.WithScenarioNone | ui/src/components/AnalysisView.tsx:90 | when no row has the selected scenario, none is kept |
| AppState.KnownMethod | ui/src/App.tsx:186-187 | a name is recognised only as one of "cramer", "gauss-jordan" and "library", and a recognised name is that method's |
| AppState.MethodNamesKnown | ui/src/App.tsx:13 | every method's name is recognised as that method |
| AppState.ToNumber | ui/src/App.tsx:43-46 | `Number`: undefined is NaN, null is 0, a boolean is 1 or 0, a number is itself |
| AppState.EquationOf | ui/src/App.tsx:39-50 | an item becomes an equation check exactly when it is an object whose row, lhs, rhs and error all convert to numbers, and then its four fields are exactly those four numbers |
| AppState.MissingFieldDropped | ui/src/App.tsx:43-48 | an item lacking any of the four properties is dropped |
| AppState.NumericFieldsRead | ui/src/App.tsx:43-49 | an object whose four properties are numbers is read as exactly those numbers |
| AppState.Kept | ui/src/App.tsx:51 | the checks kept are never more than the items |
| AppState.ParseEquations | ui/src/App.tsx:36-53 | a value that is not an array gives nothing; otherwise the checks of its valid items, in order, and nothing when no item is valid |
| AppState.KeptAppend | ui/src/App.tsx:38-51 | two runs of items are mapped and filtered independently, in order |
| AppState.ItemDropped | ui/src/App.tsx:46-48 | an invalid item is dropped wherever it stands |
| AppState.ItemKept | ui/src/App.tsx:49-51 | a valid item's check keeps its place among the others |
| AppState.AllSet | ui/src/App.tsx:147-150 | the reduce over the method list gives every listed method the same state and no other |
| AppState.AllListed | ui/src/App.tsx:13 | the list of methods names every method |
| AppState.InitialMethods | ui/src/App.tsx:146-151 | at start-up every method's card is idle, with no figures |
| AppState.ResetMethods | ui/src/App.tsx:163-180 | a reset sets every method running and clears every figure |
| AppState.StateOf | ui/src/App.tsx:188-198 | a result's card is done and shows the result's vector and residual, its scenario cut before the first '-' (unchanged when it has none) |
| AppState.ApplyResults | ui/src/App.tsx:182-203 | the loop over the results gives the cards of the specification: a copy overwritten by each known result in turn |
| AppState.AppliedAppend | ui/src/App.tsx:185-200 | applying two runs of results is applying the first and then the second |
| AppState.Untouched | ui/src/App.tsx:185-200 | a method no result names keeps its card |
| AppState.UnknownIgnored | ui/src/App.tsx:186-187 | a result of an unknown method changes nothing, wherever it stands |
| AppState.LastWins | ui/src/App.tsx:185-200 | a method's card shows its last result |
| AppState.AppliedComplete | ui/src/App.tsx:184 | every method keeps a card |
| AppState.FirstShown | ui/src/App.tsx:90-92 | the first card that is done with a non-empty vector, or -1 when there is none |
| AppState.Cards | ui/src/App.tsx:90 | the cards in the order cramer, gauss-jordan, library |
| AppState.CurrentSolution | ui/src/App.tsx:90-92 | the solution shown is a done card with a non-empty vector, cramer's when it has one, then gauss-jordan's, then library's; nothing exactly when no card qualifies |
| AppState.CramerShown | ui/src/App.tsx:90-92 | after a reset, a batch whose last cramer result has a non-empty vector shows that result |
| AppState.NothingShownAfterReset | ui/src/App.tsx:163-180 | right after a reset no solution is shown |
| I18n.WordRun | ui/src/i18n.tsx:288 | the length of the run of word characters (`\w`) that starts the text |
| I18n.Format | ui/src/i18n.tsx:284-292 | without replacements the template is returned as it is |
| I18n.PlainKept | ui/src/i18n.tsx:288-291 | text without an opening brace is copied unchanged |
| I18n.Placeholder | ui/src/i18n.tsx:288-291 | a brace-enclosed word becomes its replacement, or stays literally when it has none, and the inserted text is not scanned again |
| I18n.NoReplacements | ui/src/i18n.tsx:288-291 | with an empty set of replacements the text comes back unchanged |
| I18n.Template | ui/src/i18n.tsx:315-316 | the chosen language's template when it has the key; the key itself when neither that table nor the Spanish one has it |
| I18n.PortugueseFallsBack | ui/src/i18n.tsx:316 | a key missing from the Portuguese table reads as in Spanish |
| I18n.UnknownKeyShown | ui/src/i18n.tsx:313-318 | a key in neither table shows as itself, with no replacements or with none that apply |
| I18n.TranslateTopology | ui/src/i18n.tsx:331-339 | "serie" and "paralelo" go through their translation keys; any other topology is shown unchanged |
| I18n.TopologyNames | ui/src/i18n.tsx:331-339 | with the tables' topology entries, Spanish shows the stored names and Portuguese changes only "serie" to "série" |
| I18n.StoredLanguage | ui/src/i18n.tsx:295-301 | the start-up language is Portuguese exactly when running in a browser whose storage holds "pt" |
| CircuitDiagram.FormatCurrent | ui/src/components/CircuitDiagram.tsx:19-25 | a non-finite value shows the dash; otherwise the magnitude in amperes from 1 A up, in milliamperes from 1 mA up and in microamperes below, the scaled figure lying in its unit's range |
| CircuitDiagram.LabelIsMagnitude | ui/src/components/CircuitDiagram.tsx:19-25 | whatever the unit, a label stands for exactly the current's magnitude |
| CircuitDiagram.SignDropped | ui/src/components/CircuitDiagram.tsx:21 | a current and its opposite get the same label |
| CircuitDiagram.FormatResistance | ui/src/components/CircuitDiagram.tsx:27-30 | kilo-ohms exactly from 1000 Ω up, the scaled figure times 1000 being the value; ohms below, unchanged |
| CircuitDiagram.DiagramCurrents | ui/src/components/CircuitDiagram.tsx:33-37 | nothing is drawn without resistances; otherwise the given currents, or a single NaN when there are none |
| CircuitDiagram.SeriesWithoutCurrents | ui/src/components/CircuitDiagram.tsx:37-40 | a series circuit drawn without currents labels its current with the dash |
| PhysicalSolve.Positives | ui/src/components/PhysicalSolve.tsx:45 | the values kept are positive numbers taken from the input, never more than the input holds |
| PhysicalSolve.Numbers | ui/src/components/PhysicalSolve.tsx:44 | one conversion per piece |
| PhysicalSolve.ParseResistances | ui/src/components/PhysicalSolve.tsx:42-45 | every resistance read is positive, and there are never more than the comma-separated pieces |
| PhysicalSolve.PositivesKept | ui/src/components/PhysicalSolve.tsx:45 | positive numbers are all kept, in order |
| PhysicalSolve.PositivesAppend | ui/src/components/PhysicalSolve.tsx:45 | filtering keeps order: two runs of values are filtered independently |
| PhysicalSolve.Dropped | ui/src/components/PhysicalSolve.tsx:45 | a NaN, zero or negative value is dropped wherever it stands |
| PhysicalSolve.Check | ui/src/components/PhysicalSolve.tsx:42-54 | the form is refused exactly when no valid resistance is read or the voltage is NaN or zero; the missing-resistance message takes precedence; an accepted form carries the parsed figures |
| PhysicalSolve.NegativeVoltagePasses | ui/src/components/PhysicalSolve.tsx:51-54 | a negative voltage is accepted: only NaN and zero are refused |
| PhysicalSolve.PhysicalSolveForm.constructor | ui/src/components/PhysicalSolve.tsx:27-33 | the form opens on FCFS, a series circuit of 4, 2 and 1 Ω under 12 V, named "circuito-fisico" |
| PhysicalSolve.PhysicalSolveForm.HandleSubmit | ui/src/components/PhysicalSolve.tsx:39-76 | the handler's effects, in order, are exactly those of the submission specification |
| PhysicalSolve.InvalidSendsNothing | ui/src/components/PhysicalSolve.tsx:47-54 | a refused form sends nothing, never turns loading on, shows the check's message and ends with loading off |
| PhysicalSolve.ValidSendsOnce | ui/src/components/PhysicalSolve.tsx:56-75 | an accepted form turns loading on, then sends exactly one request; the request and the page get the same parsed figures; loading ends off |

## Left out

- Concurrency is not modelled. The schedulers' thread pools and futures, the concurrent lists and maps, and atomic counters become sequential execution. The pool's parallelism is a plain parameter.
- Clocks are not modelled. `System.nanoTime` and `Instant.now` become a natural-number millisecond clock, and each step's duration is a parameter.
- Floating point is modelled as `real`. Rounding error and the infinities are absent. NaN is `None` where a parse can produce it. `Double.parseDouble`, and JavaScript's `Number` on strings, arrays and objects, are partial functions given as parameters.
- The residual is modelled as its square. `Math.sqrt` is omitted, so the model compares squared norms.
- Number formatting is left to the renderer: `%.3f`, `toFixed` and `toExponential`. `Math.round` is modelled as integer rounding half up.
- `ThreadLocalRandom` becomes a `draw` parameter that gives the n-th drawn number. The ranges (-5, 5) and (-10, 10) of the draws are not constrained.
- Random job UUIDs and the timestamp suffixes of names are parameters.
- `/proc` file reads, the operating-system bean's CPU load and the JVM's memory figures are parameters. The model works on the text or numbers they give.
- File access is not modelled: `MetricsLogger.log` appending, and the file reading and deleting in `LogAnalyticsService`. The model appends lines to a sequence and analyzes a given sequence of lines.
- The commons-math LU decomposition inside `LibrarySolver` is not modelled. Its answer (a solution or a singular-matrix failure) is a parameter of the library runner.
- The HTTP, WebSocket and Spring wiring is not part of this model. This covers the endpoint annotations, `ApiController.mapResults`, `AnalyticsController.java`, `GlobalExceptionHandler.java`, `WsHandler.java`, the `CorsConfig` bean methods (`src/main/java/com/example/dc/web/CorsConfig.java:25-41`), `api.ts`, `ws.ts`, and the WebSocket message handler of `App.tsx`.
- The warning `runBatch` prints to standard error is not modelled.
- React rendering is not modelled. This covers JSX, charts, animation, `localStorage` writes, toasts and the remaining components (`Controls.tsx`, `CustomSolve.tsx`, `ResultCard.tsx`, `StatusBadge.tsx`).
- The two translation tables are parameters. `format`'s replacement values are given already converted to text. Keys that JavaScript objects inherit from their prototype are not modelled.
- Upper/lower case mapping covers ASCII letters only.
- `Text.ParseInteger`: only ASCII digits are read as digits. Its own contract states the range; the round trip on digit strings is stated by `Text.ParseIntegerOfDigits`.
- The round-robin scheduler requires a positive quantum. With a quantum of zero the Java loop never ends for an unfinished job.
- The defensive copies of `A`, `b` and of resistor lists are not modelled. They disappear under value semantics.
- The plain data holders become datatypes: `Result.java`, `CircuitSpec.java`, `Circuit.java` and `PhysicalSolveRequest.java`. The interfaces `Solver`, `StepRunner`, `IScheduler` and `CircuitPhysicalModel` become closed datatypes of the known cases.
- `Topics.java` and `StatusEvent.java` are not part of this model. Topics are plain strings.
- Solvers.CramerResult: a row shorter than n is refused as `NotSquare`. Java instead throws an index error, or reports a singular matrix when a small pivot ends the determinant before the short row is read.
- Solvers.CramerSolve: the same as `Solvers.CramerResult`, which it computes.
- Runners.CramerInit: |A| ≠ |b|, or a row shorter than n, is refused before the runner exists. Java builds the runner and then throws, or fills entries past n with 1, in `runNextStep`. No such system reaches a runner: the default jobs are square, and `ApiController` checks custom ones (`src/main/java/com/example/dc/web/ApiController.java:96-101`).
- Runners.CramerStepRunner.Create: the same as `Runners.CramerInit`, which it computes.
- SolverFactory.Create: a null name is not modelled. Java throws `NullPointerException` from `toLowerCase`; names here are always strings.
- SchedulerClasses.RoundRobinScheduler.RunAll: the job objects' final states are stated only partly. On success every job ends with a finished runner and a recorded finish time, and each round's requeued states are the specification's. Each job's exact final state (accumulated time, first start) is not given as a function of the submitted states, because the round-robin specification tracks results and the queue, not the jobs that have left it. After a failure the job states are not stated.
- Config.PositiveOverride: the contract states only that an accepted override is positive and that a blank one gives nothing. `Config.ComputeParallelism` states the resulting parallelism.
- Runners.Run: the contract states only that a successful run ends consistent and finished. `Runners.CramerRunFinishes`, `Runners.GaussRunFrom` and `Runners.LibraryRunnerAgrees` state the solution it holds.
- Jobs.Completion: the contract states only identity and clock bookkeeping. The schedulers' lemmas state the waiting and turnaround times it yields.
- Jobs.Quantum: the same as `Jobs.Completion`, for one time slice.
- Elimination.GaussJordanFrom: the contract states only the shape and the kind of failure. `Elimination.GaussJordanFromStep`, `Elimination.GaussJordanKeepsSolutions` and `Solvers.GaussJordanSolvesSystem` state the rest.
- Controller.CostFactor: the contract states only the range of the factor. `Controller.EstimateMonotone` and `Controller.EstimateExamples` state more.
- Controller.EstimateCost: the contract states only the lower bound. The same lemmas state more.
- Batch failures follow the code. A failing job makes `runAll` throw, which fails the whole batch instead of reporting one failed job.
- Throughput follows the code. It is count · 60000 / (sum of elapsed milliseconds), not the wall-clock span between completions.
- The residual follows the code: it is the Euclidean norm, not the maximum absolute error.
