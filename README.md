# A verified model of the ICS-Metodo-Simplex linear-programming engine

This project models the backend engine of ICS-Metodo-Simplex in Dafny. The engine solves small linear programs: maximise or minimise c·x subject to '<=', '>=' and '=' constraints, with x >= 0 and exactly two decision variables. The model covers:

- **Validation** (`validation.dfy`, `preprocess.dfy`). The format checks and the two infeasibility tests of `validateProblem`: a negative right-hand side with no negative coefficient, and constraints grouped by coefficient vector whose right-hand sides clash. The older `preprocess.ts` copy of the same checks is also covered.
- **Normalisation** (`normalizers.dfy`). Rewriting '>=' rows as '<=' rows, and the standard-form test.
- **Tableau primitives** (`matrix.dfy`, `types.dfy`, `tableau_ops.dfy`). The slack tableau, the most-negative pivot column, the minimum-ratio pivot row, the Gauss-Jordan pivot and the objective-row flip.
  - The tableau is a `class Tableau` whose fields `matrix`, `basis`, `nonBasis` and `objectiveRow` the methods update in place.
  - `Snapshot` is its deep-copy value.
- **The pivot loops** (`simplex_run.dfy`, `executor.dfy`). The executor and the Phase I loop are both proved against one loop function, `SimplexRun.Run`. It records snapshots, stops at the iteration cap, and reports unboundedness or exhaustion as the executor does.
- **The two-phase bridge** (`phases.dfy`, `phase_legacy.dfy`). Column layout, the auxiliary objective row, the feasibility test, pivoting artificial variables out, and the Phase II objective row. Both the current `phases.ts` and the older `phase.ts` are modelled, and lemmas relate the two.
- **Preparation and orchestration** (`preparation.dfy`, `solver.dfy`). Choosing the standard-form, Phase I or plain start; running Phase II; extracting the solution; and falling back on, or cross-checking with, the vertex enumeration.
- **Read-out** (`extractor.dfy`, `rounding.dfy`). Reading variable values off the basis, recomputing the objective, and decimal rounding (`+v.toFixed(d)`).
- **Vertex enumeration** (`vertex_enumeration.dfy`). The two-variable solver of `lib/solvers` and its older copy `enum2d.ts`: candidate lines, pairwise intersections, the tolerance-based feasibility filter, and the best-by-more-than-EPS selection.
- **Iteration records** (`iteration_records.dfy`). The fields `saveIterations` computes per snapshot (basic variables, objective value, entering and leaving variables, optimality flag), without the database writes.

Every loop of the source is a `method` with invariants, proved equal to a specification function. The properties the source promises are lemmas about those functions:

- pivoting keeps a canonical basis, feasibility and the basis/nonBasis partition;
- the objective never decreases;
- normalisation keeps the feasible set;
- the contradiction test holds exactly when two constraints clash pairwise;
- the enumeration's answer is a feasible vertex that no candidate beats by more than EPS;
- solve returns only solutions that are optimal and bounded, for valid two-variable problems.

Behaviour reproduced as written:

- On the standard-form path a 'min' objective starts from the same row as 'max' (-c_j at the decision columns). `createInitialTableau` writes +c_j for 'min' and `toMaximizationRow` then negates it, so the pivot loop raises c·x in both directions (`Preparation.StandardStartMaximizes`).
- When the Phase II run fails, for example because the simplex reports NO_ACOTADA on an unbounded problem, solve answers with the enumeration's solution whenever the enumeration finds a feasible vertex (`Solver.SolveFallback`).
- The obvious-infeasibility test ignores the operator, so a satisfiable row such as x1 >= -1 is flagged (`Validation.ObviousInfeasibilityIgnoresOperator`). It is sound only for '<=' and '=' rows (`Validation.ObviousInfeasibilitySound`).

Numbers are Dafny `real`, so pivots and intersections are exact. EPS = 1e-9, MIN_EPS = 1e-12, DEFAULT_DECIMALS = 6, DEFAULT_MAX_ITERATIONS = 100 and PHASE1_MAX_ITERATIONS = 200, as in `utils/constants.ts`.

## Model

| member | source | states |
|---|---|---|
| Types.IndexOf | backend/src/services/simplex/tableau.ts:20 | Array indexOf: -1 exactly when the name is not declared, otherwise the first position that holds it |
| Types.Zeros | backend/src/services/simplex/tableau.ts:15 | the zero-filled row of the requested width |
| Types.Range | backend/src/services/simplex/tableau.ts:34-38 | the consecutive column indices lo .. hi-1, in order |
| Types.Placed | backend/src/services/simplex/tableau.ts:19-22 | writing the coefficients into a row never changes its width (entries are stated by PlacedAt) |
| Types.LastWriter | backend/src/services/simplex/tableau.ts:19-22 | the last coefficient that names variable j, or -1 exactly when no coefficient names it |
| Types.PlacedAt | backend/src/services/simplex/tableau.ts:19-22 | entry j of the filled row is the (signed) value of the last coefficient naming variable j, and the old entry when none does; undeclared names write nothing |
| Types.CoefVec | backend/src/lib/validation/validators.ts:99-108 | the coefficient vector has one entry per declared variable |
| Matrix.PivotColumnUpTo | backend/src/services/simplex/tableau.ts:49-61 | -1 exactly when no scanned objective entry is negative; otherwise a negative entry that is the minimum and strictly below every earlier entry (the first minimum) |
| Matrix.PivotRowUpTo | backend/src/services/simplex/tableau.ts:67-81 | -1 exactly when no scanned constraint row has a positive pivot-column entry and a ratio >= 0; otherwise such a row whose ratio is minimal and strictly below the ratio of every earlier such row (first row on ties) |
| Matrix.NormalizedRow | backend/src/services/simplex/tableau.ts:91 | the divided pivot row keeps the tableau width |
| Matrix.Eliminated | backend/src/services/simplex/tableau.ts:95-98 | the updated row keeps its width |
| Matrix.Pivot | backend/src/services/simplex/tableau.ts:86-102 | the pivoted matrix has the same shape, 1 at the pivot entry and 0 everywhere else in the pivot column |
| Matrix.PivotRowAt | backend/src/services/simplex/tableau.ts:91-100 | row r of the pivot is the pivot row divided by the pivot entry; every other row is itself minus its pivot-column entry times that row |
| Matrix.PivotAt | backend/src/services/simplex/tableau.ts:86-102 | every entry of the pivoted matrix, in closed form |
| Matrix.NegateLast | backend/src/services/simplex/tableau.ts:136-141 | same shape, every row but the last unchanged, every entry of the last row negated |
| Matrix.NegateLastTwice | backend/src/services/simplex/tableau.ts:136-141 | negating the objective row twice gives back the matrix |
| Matrix.NegateLastKeepsIdentity | backend/src/lib/core/tableau-preparation.ts:43-56 | negating the objective row keeps every basic column a unit column |
| Matrix.PivotKeepsIdentityBasis | backend/src/services/simplex/tableau.ts:86-102 | a pivot on a non-basic column of a canonical tableau leaves it canonical for the basis with column c at row r |
| Matrix.PivotKeepsRhsNonNegative | backend/src/services/simplex/tableau.ts:67-102 | pivoting on the row the minimum-ratio test picks keeps every constraint right-hand side >= 0 |
| Matrix.PivotRaisesObjective | backend/src/services/simplex/tableau.ts:67-102 | pivoting on a column with a negative objective entry at the minimum-ratio row never lowers the objective right-hand side |
| Matrix.PivotOnZeroRhs | backend/src/services/simplex/tableau.ts:86-102 | a pivot on a row whose right-hand side is 0 changes no right-hand side |
| SimplexRun.SwapIn | backend/src/lib/core/simplex-executor.ts:47-50 | when the entering column is listed in nonBasis the leaving column takes its place (as multisets: one out, one in); otherwise nonBasis is unchanged |
| SimplexRun.PivotStep | backend/src/lib/core/simplex-executor.ts:43-52 | one pivot with its bookkeeping: the basis holds the entering column at the pivot row, the cached objectiveRow is untouched, the shape is kept and the entering column becomes the unit column of the pivot row |
| SimplexRun.Loop | backend/src/lib/core/simplex-executor.ts:24-55 | the loop's final tableau is well formed and keeps the start's shape |
| SimplexRun.Run | backend/src/lib/core/simplex-executor.ts:24-55 | the same, for the run the drivers are proved against |
| SimplexRun.Next | backend/src/lib/core/simplex-executor.ts:25-52 | one loop turn's tableau, when a pivot exists, is well formed and of the same shape |
| SimplexRun.RunNext | backend/src/lib/core/simplex-executor.ts:24-55 | unfolding of one loop turn: stop at the cap, stop when there is no pivot column or row (Unbounded exactly when isUnbounded holds), otherwise record the pivoted tableau and go on |
| SimplexRun.RunFinal | backend/src/lib/core/simplex-executor.ts:24-55 | where the run ends, one turn at a time |
| SimplexRun.RunLength | backend/src/lib/core/simplex-executor.ts:24-54 | one snapshot per pivot, never more than the cap, and exactly the cap's number when the cap was reached |
| SimplexRun.RunLast | backend/src/lib/core/simplex-executor.ts:52-53 | the last recorded snapshot is the final tableau (the start when no pivot was made) and every snapshot is well formed |
| SimplexRun.RunStopReason | backend/src/lib/core/simplex-executor.ts:25-41 | Converged means no objective entry left of the right-hand side is negative; Unbounded and NoPivotRow mean the chosen column has no eligible row, Unbounded exactly when one of the first n objective entries is below -EPS |
| SimplexRun.SwapKeepsPartition | backend/src/lib/core/simplex-executor.ts:43-50 | the basis/nonBasis swap keeps basis and nonBasis a partition of the non-right-hand-side columns |
| SimplexRun.StepKeepsBasis | backend/src/lib/core/simplex-executor.ts:43-52 | a pivot on a non-basic column keeps the tableau canonical and the partition |
| SimplexRun.PivotColumnNotBasic | backend/src/services/simplex/tableau.ts:49-61 | in a canonical tableau the most negative column is never basic |
| SimplexRun.NextKeepsBasis | backend/src/lib/core/simplex-executor.ts:25-52 | each loop turn keeps the tableau canonical |
| SimplexRun.RunPreserves | backend/src/lib/core/simplex-executor.ts:24-55 | a property every loop turn preserves holds of the final tableau |
| SimplexRun.RunKeepsBasis | backend/src/lib/core/simplex-executor.ts:24-55 | from a canonical start the final tableau is canonical and basis/nonBasis still partition the columns |
| SimplexRun.RunKeepsFeasible | backend/src/lib/core/simplex-executor.ts:24-55 | from non-negative right-hand sides the final ones are non-negative |
| SimplexRun.RunRaisesObjective | backend/src/lib/core/simplex-executor.ts:24-55 | the objective right-hand side never decreases along the loop |
| TableauOps.Tableau.constructor | backend/src/services/simplex/utils.ts:25-27 | a fresh tableau object holding exactly the given deep copy |
| TableauOps.ConstraintRow | backend/src/services/simplex/tableau.ts:17-25 | every constraint row has n + m + 1 entries |
| TableauOps.InitialObjective | backend/src/services/simplex/tableau.ts:27-32 | the objective row has n + m + 1 entries |
| TableauOps.PlaceCoefficients | backend/src/services/simplex/tableau.ts:19-22 | the coefficient loop computes the placed row |
| TableauOps.CreateInitialTableau | backend/src/services/simplex/tableau.ts:8-43 | a fresh tableau equal to the initial-tableau value |
| TableauOps.PlacedOverZeros | backend/src/services/simplex/tableau.ts:19-22 | over a zero row, entry j is the signed coefficient-vector entry for a declared variable and 0 beyond |
| TableauOps.InitialTableauShape | backend/src/services/simplex/tableau.ts:14-38 | m + 1 rows of n + m + 1 columns, basis n .. n+m-1, nonBasis 0 .. n-1, disjoint and together covering every non-right-hand-side column |
| TableauOps.SplitRange | backend/src/services/simplex/tableau.ts:34-38 | n .. n+m-1 and 0 .. n-1 are disjoint and together make 0 .. n+m-1 |
| TableauOps.InitialTableauEntries | backend/src/services/simplex/tableau.ts:17-32 | every entry: the coefficient vector in the decision columns, +1 at column n+i for '<=' and -1 for any other operator, 0 at other slack columns, the right-hand side last; the objective row -c_j for max and +c_j for min with 0 slack entries and right-hand side |
| TableauOps.InitialTableauCanonical | backend/src/services/simplex/tableau.ts:8-43 | with only '<=' rows of non-negative right-hand side the initial tableau is canonical with a feasible basic solution |
| TableauOps.FindPivotColumn | backend/src/services/simplex/tableau.ts:49-61 | the running-minimum loop returns the first minimum negative entry, and -1 exactly when no entry left of the right-hand side is negative |
| TableauOps.FindPivotRow | backend/src/services/simplex/tableau.ts:67-81 | the running-minimum loop returns the minimum-ratio row, and -1 exactly when no constraint row is eligible |
| TableauOps.SubtractRow | backend/src/services/simplex/tableau.ts:96-98 | the element loop computes row - factor * pivot row |
| TableauOps.Iterate | backend/src/services/simplex/tableau.ts:86-102 | the matrix becomes its Gauss-Jordan pivot; basis, nonBasis and objectiveRow are untouched |
| TableauOps.ToMaximizationRow | backend/src/services/simplex/tableau.ts:136-141 | the matrix becomes its objective-negated form; nothing else changes |
| TableauOps.EnterBasis | backend/src/lib/core/simplex-executor.ts:43-50 | basis[pivotRow] becomes the entering column and nonBasis gets the swap; the matrix is untouched |
| TableauOps.PivotInPlace | backend/src/lib/core/simplex-executor.ts:43-52 | bookkeeping followed by iterate is one PivotStep |
| TableauOps.SimplexStep | backend/src/services/simplex/tableau.ts:111-119 | a pivot is made exactly when there is a pivot column and row, and the tableau becomes that pivot's result |
| TableauOps.Budget | backend/src/services/simplex/tableau.ts:110 | the number of pivots a cap allows: the cap when positive, 0 otherwise |
| TableauOps.RunSimplex | backend/src/services/simplex/tableau.ts:107-123 | a fresh tableau (the caller's is not touched) that is the run's final tableau after at most maxIterations pivots, with the entering column taken to be the pivot column |
| TableauOps.PivotLoop | backend/src/services/simplex/tableau.ts:109-121 | the loop on the copy ends at the run's final tableau |
| TableauOps.RunSimplexWithHistory | backend/src/services/simplex/tableau.ts:126-131 | the history is exactly the start and the final tableau |
| TableauOps.EnteringAsWritten | backend/src/services/simplex/tableau.ts:115 | reading nonBasis at the pivot column yields a value exactly when the pivot column is a valid position of nonBasis |
| Executor.ExecutorStep | backend/src/lib/core/simplex-executor.ts:25-52 | a pivot is made exactly when a pivot column and row exist; unbounded is reported exactly when there is a column, no row and isUnbounded holds |
| Executor.Execute | backend/src/lib/core/simplex-executor.ts:16-65 | the result is the execution value, and the caller's tableau is left at the run's final state (it is mutated in place) |
| Executor.ExecutionSuccess | backend/src/lib/core/simplex-executor.ts:21-64 | a success holds the start copy first and the final tableau last, 1 .. 100 snapshots, and a final tableau that is optimal or whose column has no eligible row without unboundedness |
| Executor.ExecutionUnbounded | backend/src/lib/core/simplex-executor.ts:31-71 | NO_ACOTADA exactly when the loop stopped for want of a pivot row while an original-variable objective entry is below -EPS |
| Executor.ExecutionCap | backend/src/lib/core/simplex-executor.ts:24-62 | ENTRADA_INVALIDA exactly when 100 pivots were made, even when the tableau is optimal after the last one |
| Executor.ExecutionKeepsInvariants | backend/src/lib/core/simplex-executor.ts:24-64 | from a canonical feasible start a success is canonical, feasible, of the same height and with an objective right-hand side no lower than the start's |
| Phases.ColStart | backend/src/services/simplex/phases.ts:19-29 | the first helper column of constraint i is at least n + i |
| Phases.AuxiliaryColumns | backend/src/services/simplex/phases.ts:10-35 | one slack/surplus/artificial slot per constraint, rows = m + 1, and every allocated helper column lies between n and the right-hand-side column |
| Phases.ComputeAuxiliaryColumns | backend/src/services/simplex/phases.ts:10-35 | the counter loop computes the layout value |
| Phases.ColStartGrows | backend/src/services/simplex/phases.ts:19-29 | columns are handed out left to right: a later constraint's columns come after an earlier one's |
| Phases.ColStartBound | backend/src/services/simplex/phases.ts:19-32 | every helper column comes before cols - 1 |
| Phases.LayoutOfRow | backend/src/services/simplex/phases.ts:20-33 | a '<=' row has a slack, a '>=' row a surplus followed by its artificial, any other row an artificial; helper columns lie between n and the right-hand side and no two rows share one |
| Phases.ArtificialColsMembers | backend/src/services/simplex/phases.ts:26-28 | a column is listed as artificial exactly when some row owns it as its artificial |
| Phases.NoArtificialIffAllLe | backend/src/services/simplex/phases.ts:20-30 | no artificial column exactly when every constraint is '<=' |
| Phases.PhaseIRow | backend/src/services/simplex/phases.ts:42-52 | every constraint row is cols wide |
| Phases.ConstraintMatrix | backend/src/services/simplex/phases.ts:37-54 | rows x cols, rectangular |
| Phases.BuildConstraintMatrix | backend/src/services/simplex/phases.ts:37-54 | the fill loops compute the constraint-matrix value |
| Phases.FillConstraintRow | backend/src/services/simplex/phases.ts:42-51 | one pass fills constraint row i exactly as the Phase I row of that constraint: its coefficients, +1 slack, -1 surplus, +1 artificial and right-hand side |
| Phases.HelperEntry | backend/src/services/simplex/phases.ts:48-50 | at a helper column, row i holds +1 at its slack and its artificial, -1 at its surplus and 0 elsewhere |
| Phases.DecisionEntry | backend/src/services/simplex/phases.ts:44-47 | at a decision column, row i holds its dense coefficient (last duplicate wins, undeclared names ignored) |
| Phases.ArtificialColsBound | backend/src/services/simplex/phases.ts:26-32 | every artificial column lies between n and the right-hand side |
| Phases.ArtificialColumnOfRow | backend/src/services/simplex/phases.ts:20-30 | a helper column of row i is artificial exactly when it is row i's artificial |
| Phases.ArtificialBase | backend/src/services/simplex/phases.ts:59 | writing the -1 entries keeps the row's width |
| Phases.AddRows | backend/src/services/simplex/phases.ts:62-67 | each entry is the accumulator's plus the column sum over the artificial-bearing rows |
| Phases.Negated | backend/src/services/simplex/phases.ts:70-72 | every entry negated, width kept |
| Phases.PhaseIObjective | backend/src/services/simplex/phases.ts:56-73 | the Phase I objective row is as wide as the matrix |
| Phases.PhaseIObjectiveAt | backend/src/services/simplex/phases.ts:56-73 | entry j is minus (-1 at an artificial column, else the old entry) plus the column sum of the artificial-bearing rows |
| Phases.BuildPhaseIObjectiveRow | backend/src/services/simplex/phases.ts:56-73 | the three in-place loops replace only the last row, by the Phase I objective row |
| Phases.InitialBasis | backend/src/services/simplex/phases.ts:75-84 | one basic column per constraint |
| Phases.BuildInitialBasis | backend/src/services/simplex/phases.ts:75-84 | the loop computes slack-else-artificial-else-0 per row |
| Phases.ComplementMembers | backend/src/services/simplex/phases.ts:86-92 | the non-basic list holds exactly the columns below cols - 1 that are not basic, in increasing order |
| Phases.BuildNonBasis | backend/src/services/simplex/phases.ts:86-92 | the loop computes the complement of the basis |
| Phases.ComplementPartition | backend/src/services/simplex/phases.ts:86-92 | a repetition-free basis and its complement together list every non-right-hand-side column once |
| Phases.PhaseIMatrix | backend/src/services/simplex/phases.ts:113-114 | rows x cols, rectangular |
| Phases.BuildPhaseITableau | backend/src/services/simplex/phases.ts:109-120 | None exactly when there is no artificial column; otherwise a fresh tableau equal to the Phase I value with the layout's artificial columns |
| Phases.BuildPhaseISnapshot | backend/src/services/simplex/phases.ts:113-119 | the assembled matrix, basis, nonBasis and cached objective row are the Phase I value |
| Phases.BuildPhaseIMatrix | backend/src/services/simplex/phases.ts:113-114 | the two fill steps give the Phase I matrix: the constraint rows with the Phase I objective row last |
| Phases.BuildStartSnapshot | backend/src/services/simplex/phases.ts:116-119 | the basis holds each row's slack, else artificial, else 0; the nonBasis is every other non-RHS column; the objective row copies the last matrix row |
| Phases.PhaseINullIffAllLe | backend/src/services/simplex/phases.ts:109-111 | null exactly when every constraint is '<=' |
| Phases.ColumnSumSingle | backend/src/services/simplex/phases.ts:62-67 | a column that only one row fills sums to that row's entry when the row carries an artificial, else 0 |
| Phases.ColumnSumOfRhs | backend/src/services/simplex/phases.ts:62-67 | summed over artificial-bearing rows, a column that holds each row's right-hand side gives the sum over the '>=' and '=' rows |
| Phases.ColumnSumOfCoefs | backend/src/services/simplex/phases.ts:62-67 | the same for a decision column and the rows' dense coefficients |
| Phases.ColumnSumRhs | backend/src/services/simplex/phases.ts:51-67 | the right-hand-side column summed over artificial-bearing rows is the sum of the '>=' and '=' right-hand sides |
| Phases.ColumnSumDecision | backend/src/services/simplex/phases.ts:44-67 | decision column j summed over artificial-bearing rows is the sum of the j-th coefficients of the '>=' and '=' rows |
| Phases.HelperObjective | backend/src/services/simplex/phases.ts:56-73 | the Phase I objective holds +1 at a surplus column and 0 at every slack and artificial column |
| Phases.HelperObjectiveOfEntry | backend/src/services/simplex/phases.ts:56-73 | at a helper column of row i0 the objective entry comes from row i0 alone |
| Phases.PhaseIObjectiveColumn | backend/src/services/simplex/phases.ts:56-73 | at any non-right-hand-side column the objective entry is minus (-1 at an artificial column) plus the artificial-row column sum |
| Phases.HelperColumnSum | backend/src/services/simplex/phases.ts:48-67 | only the owning row contributes to a helper column's sum |
| Phases.OtherRowHelperZero | backend/src/services/simplex/phases.ts:39-50 | a helper column of one row is 0 in every other constraint row |
| Phases.PhaseIObjectiveEntries | backend/src/services/simplex/phases.ts:56-73 | the row stands for -w: 0 at slack and artificial columns, +1 at surplus columns, minus the '>='/'=' coefficient sums at decision columns and minus the '>='/'=' right-hand-side sum last |
| Phases.BasisColumn | backend/src/services/simplex/phases.ts:75-84 | row r's basic column is its own helper column, artificial exactly for a non-'<=' row, and a unit column of the Phase I matrix |
| Phases.PhaseIBasisColumns | backend/src/services/simplex/phases.ts:75-116 | every basic column is a unit column for its row and is artificial exactly for the '>=' and '=' rows |
| Phases.PhaseIBasisDistinct | backend/src/services/simplex/phases.ts:75-84 | no two rows share a basic column |
| Phases.ComplementSnapshotPartition | backend/src/services/simplex/phases.ts:86-92 | a nonBasis built as the complement of a repetition-free basis gives a partition |
| Phases.PhaseITableauPartition | backend/src/services/simplex/phases.ts:116-117 | basis and nonBasis of the Phase I tableau partition its non-right-hand-side columns |
| Phases.PhaseITableauCanonical | backend/src/services/simplex/phases.ts:109-120 | the Phase I tableau is canonical, its cached objective row is its last row, and basis entries are artificial exactly for the '>=' and '=' rows |
| Phases.PhaseIStartFeasibility | backend/src/services/simplex/phases.ts:97-102 | before any pivot isPhaseIFeasible holds exactly when the '>=' and '=' right-hand sides add up to at most EPS |
| Phases.PhaseIFeasibilityStays | backend/src/services/simplex/phases.ts:97-102 | the pivot loop never turns a feasible Phase I tableau infeasible |
| Phases.EnteringColumnUpTo | backend/src/services/simplex/phases.ts:131-136 | -1 exactly when every scanned column is artificial or within EPS of 0; otherwise the first column that is neither |
| Phases.FindEnteringCol | backend/src/services/simplex/phases.ts:131-136 | the early-return loop returns that column |
| Phases.EnteringColumnFirst | backend/src/services/simplex/phases.ts:132-134 | once found, scanning further columns does not change the answer |
| Phases.PivotOutRow | backend/src/services/simplex/phases.ts:139-146 | one row's step keeps the tableau well formed and of the same shape |
| Phases.PivotOutFrom | backend/src/services/simplex/phases.ts:138-147 | the pass keeps the tableau well formed and of the same shape |
| Phases.PivotOutArtificial | backend/src/services/simplex/phases.ts:127-148 | the in-place pass leaves the tableau at the pass's value |
| Phases.PivotOutRowInPlace | backend/src/services/simplex/phases.ts:139-146 | one loop turn: an artificial basic row with an entering column gets it in its basis slot, the nonBasis swap and a pivot; other rows are left alone |
| Phases.PivotOutRowBasis | backend/src/services/simplex/phases.ts:139-146 | one row's step changes at most that row's basic column, and only an artificial one, replaced by a column that is not artificial |
| Phases.EnteringNotBasic | backend/src/services/simplex/phases.ts:131-143 | in a canonical tableau the entering column of an artificial row is never basic |
| Phases.PivotOutKeepsBasis | backend/src/services/simplex/phases.ts:138-147 | the pass keeps the tableau canonical and basis/nonBasis a partition |
| Phases.PivotOutBasis | backend/src/services/simplex/phases.ts:138-147 | a basic column is replaced only when it is artificial, only by a non-artificial column, and only at rows not yet passed |
| Phases.PivotOutKeepsRhs | backend/src/services/simplex/phases.ts:138-147 | when every artificial basic variable is at 0 the pass changes no right-hand side |
| Phases.Reduced | backend/src/services/simplex/phases.ts:170-178 | the reduced row keeps its width |
| Phases.PhaseIIStart | backend/src/services/simplex/phases.ts:161-168 | the starting row is as wide as the tableau |
| Phases.ReduceAgainstBasis | backend/src/services/simplex/phases.ts:170-178 | the nested loops compute the reduction of the row against the basis |
| Phases.BuildPhaseIISimplexTableau | backend/src/services/simplex/phases.ts:155-183 | a fresh tableau (the input is not touched) equal to the Phase II value |
| Phases.PhaseIIStartEntries | backend/src/services/simplex/phases.ts:161-168 | the row starts at -c_j at every declared variable whatever the direction, and 0 elsewhere |
| Phases.ReducedBasicSmall | backend/src/services/simplex/phases.ts:170-178 | with unit basic columns every reduced basic column is within MIN_EPS of 0 |
| Phases.PhaseIIBasicColumns | backend/src/services/simplex/phases.ts:155-183 | constraint rows, basis and nonBasis are kept, only the last row and objectiveRow change, and with unit basic columns every basic objective entry is within MIN_EPS of 0 |
| PhaseLegacy.LegacyObjective | backend/src/services/simplex/phase.ts:47-56 | the un-negated auxiliary row is as wide as the matrix |
| PhaseLegacy.LegacyPhaseIMatrix | backend/src/services/simplex/phase.ts:30-56 | rows x cols, rectangular |
| PhaseLegacy.AddArtificialRows | backend/src/services/simplex/phase.ts:47-56 | the in-place loops replace only the last row, by the un-negated auxiliary row |
| PhaseLegacy.BuildPhaseITableau | backend/src/services/simplex/phase.ts:4-72 | None exactly when there is no artificial column; otherwise a fresh tableau equal to the older Phase I value |
| PhaseLegacy.BuildPhaseISnapshot | backend/src/services/simplex/phase.ts:33-71 | the assembled matrix, basis, nonBasis and cached objective row are the older Phase I value |
| PhaseLegacy.NegatedTwice | backend/src/services/simplex/phases.ts:70-72 | negating a row twice gives it back |
| PhaseLegacy.LegacyMatrixIsNegation | backend/src/services/simplex/phase.ts:47-56 | the older Phase I matrix is the current one with its last row negated |
| PhaseLegacy.LegacyPhaseIObjectiveEntries | backend/src/services/simplex/phase.ts:47-56 | the older row stands for +w: 0 at slack and artificial columns, -1 at surplus columns, the '>='/'=' coefficient sums at decision columns and their right-hand-side sum last |
| PhaseLegacy.LegacyPhaseIIdentity | backend/src/services/simplex/phase.ts:33-63 | the older matrix is the current one with the objective row negated, and every basic column is still a unit column |
| PhaseLegacy.LegacyPhaseITableauCanonical | backend/src/services/simplex/phase.ts:4-72 | same basis and nonBasis as the current bridge, canonical, a partition, and the cached objective row is the last row |
| PhaseLegacy.ScanEnteringColumn | backend/src/services/simplex/phase.ts:82-87 | the early-exit loop returns the first non-artificial column above 1e-9, or -1 |
| PhaseLegacy.PivotOutArtificial | backend/src/services/simplex/phase.ts:74-96 | the older pass leaves the tableau at the same value as the current pass |
| PhaseLegacy.PivotOutRowInPlace | backend/src/services/simplex/phase.ts:80-94 | one loop turn of the older pass equals one row step of the current pass |
| PhaseLegacy.LegacyPhaseIIStart | backend/src/services/simplex/phase.ts:104-110 | the starting row is as wide as the tableau |
| PhaseLegacy.NegateRow | backend/src/services/simplex/phase.ts:122-124 | every entry changes sign |
| PhaseLegacy.BuildPhaseIISimplexTableau | backend/src/services/simplex/phase.ts:98-129 | a fresh tableau (the input is not touched) equal to the older Phase II value |
| PhaseLegacy.ReducedNegated | backend/src/services/simplex/phase.ts:112-120 | reducing a negated row against the basis gives the negated reduction |
| PhaseLegacy.EliminatedNegated | backend/src/services/simplex/phase.ts:116-118 | eliminating with the opposite factor gives the opposite row |
| PhaseLegacy.PlacedNegated | backend/src/services/simplex/phase.ts:104-110 | the start row built with +c_j is the negation of the one built with -c_j |
| PhaseLegacy.LegacyPhaseIIAgrees | backend/src/services/simplex/phase.ts:98-129 | for max and for min the older Phase II tableau equals the current one |
| Preparation.StandardStart | backend/src/lib/core/tableau-preparation.ts:43-49 | the slack tableau, with the 'min' row flipped, is well formed |
| Preparation.PrepareFromInitial | backend/src/lib/core/tableau-preparation.ts:43-57 | createInitialTableau followed, for 'min', by toMaximizationRow, computes that tableau |
| Preparation.PhaseIWidth | backend/src/services/simplex/phases.ts:19-32 | the Phase I tableau has more columns than there are decision variables |
| Preparation.PhaseIRun | backend/src/lib/core/tableau-preparation.ts:63-86 | the Phase I loop keeps the tableau well formed, m + 1 rows high and as wide as the Phase I tableau |
| Preparation.PivotedOut | backend/src/lib/core/tableau-preparation.ts:95 | after pivotOutArtificial the tableau is still well formed and of the same shape |
| Preparation.ExecutePhaseI | backend/src/lib/core/tableau-preparation.ts:59-99 | null exactly when there is no artificial column; otherwise SIN_SOLUCION when Phase I ends infeasible, else the Phase II tableau, the normalized problem and the Phase I history |
| Preparation.RunPhaseILoop | backend/src/lib/core/tableau-preparation.ts:63-86 | the loop leaves the tableau at the end of the PHASE1_MAX_ITERATIONS-bounded pivot run and records the start plus one snapshot per pivot |
| Preparation.Prepare | backend/src/lib/core/tableau-preparation.ts:28-41 | standard form when the normalized problem allows it, else Phase I when it is needed, else the plain slack tableau of the original problem |
| Preparation.StandardStartMaximizes | backend/src/lib/core/tableau-preparation.ts:43-49 | for 'max' and 'min' alike the objective row holds -c_j at the decision columns and 0 elsewhere |
| Preparation.StandardPathCanonical | backend/src/lib/core/tableau-preparation.ts:31-49 | on the standard path the start is canonical for the slack basis and every right-hand side is non-negative |
| Preparation.BasicPathStartsInfeasible | backend/src/lib/core/tableau-preparation.ts:40-57 | prepareBasic is reached only with all constraints '<=' and some right-hand side negative, so its start has a negative right-hand side |
| Preparation.PhaseIHistoryBounded | backend/src/lib/core/tableau-preparation.ts:63-86 | the Phase I history starts with the Phase I tableau and holds at most PHASE1_MAX_ITERATIONS + 1 snapshots |
| Preparation.PhaseIFeasibleStart | backend/src/lib/core/tableau-preparation.ts:88-93 | when the '>=' and '=' right-hand sides add up to at most EPS, Phase I never reports infeasibility |
| Preparation.PivotedOutCanonical | backend/src/lib/core/tableau-preparation.ts:67-95 | the tableau pivotOutArtificial leaves is canonical and basis/nonBasis a partition |
| Preparation.PhaseIISnapshotCanonical | backend/src/services/simplex/phases.ts:155-183 | on a canonical tableau the Phase II tableau keeps the partition, every basic column a unit column, and every basic objective entry within MIN_EPS of 0 |
| Preparation.PhaseIIStartCanonical | backend/src/lib/core/tableau-preparation.ts:95-98 | the tableau Phase I hands to Phase II has those properties |
| Preparation.PrepareFailure | backend/src/lib/core/tableau-preparation.ts:28-93 | prepare fails only with SIN_SOLUCION and its message, only after Phase I, and only when some constraint is not '<=' |
| Preparation.PreparedKeepsFeasibleSet | backend/src/lib/core/tableau-preparation.ts:28-96 | the problem passed on as normalized has exactly the feasible points of the original |
| Preparation.PreparedWellFormed | backend/src/lib/core/tableau-preparation.ts:28-41 | every tableau prepare passes on is well formed |
| Validation.HasObviousInfeasibility | backend/src/lib/validation/validators.ts:38-49 | true exactly when some constraint has a negative right-hand side and no negative coefficient |
| Validation.CoefficientVector | backend/src/lib/validation/validators.ts:99-108 | the fill loop computes the dense coefficient vector |
| Validation.CoefficientVectorEntries | backend/src/lib/validation/validators.ts:99-108 | one entry per declared variable: the value of the last coefficient naming it, 0 when none does |
| Validation.CoefVecNonNegative | backend/src/lib/validation/validators.ts:42-108 | non-negative coefficients give a non-negative dense vector |
| Validation.ObviousInfeasibilitySound | backend/src/lib/validation/validators.ts:34-49 | for a '<=' or '=' row the test is sound: no non-negative point satisfies a flagged row |
| Validation.ObviousInfeasibilityIgnoresOperator | backend/src/lib/validation/validators.ts:41-45 | the test does not look at the operator: x1 >= -1 is flagged although the origin satisfies it |
| Validation.AddToGroup | backend/src/lib/validation/validators.ts:125-137 | the right-hand side is appended to the list of its operator and the other two lists are kept |
| Validation.GetOrCreateGroup | backend/src/lib/validation/validators.ts:113-120 | the existing bucket under the key, or a new empty one, which is then stored under the key |
| Validation.GroupConstraintsByCoefficients | backend/src/lib/validation/validators.ts:76-86 | the loop computes the buckets by coefficient vector |
| Validation.GroupsOfKeys | backend/src/lib/validation/validators.ts:76-94 | there is a bucket for exactly the coefficient vectors that occur |
| Validation.GroupsOfContents | backend/src/lib/validation/validators.ts:76-137 | the bucket of a vector holds, per operator and in input order, the right-hand sides of the constraints with that vector |
| Validation.BucketEmpty | backend/src/lib/validation/validators.ts:76-86 | a vector no constraint has gets empty lists |
| Validation.BucketMembers | backend/src/lib/validation/validators.ts:76-137 | a value is in a bucket's list exactly when a constraint with that vector and operator has it as right-hand side |
| Validation.BucketSource | backend/src/lib/validation/validators.ts:76-86 | every bucket value comes from a constraint with that vector and operator |
| Validation.MinOf | backend/src/lib/validation/validators.ts:143 | Math.min of a non-empty list is one of its elements and no larger than any |
| Validation.MaxOf | backend/src/lib/validation/validators.ts:144 | Math.max of a non-empty list is one of its elements and no smaller than any |
| Validation.AnyOutside | backend/src/lib/validation/validators.ts:147-151 | true exactly when some '=' value is above the least '<=' value or below the greatest '>=' value |
| Validation.ContradictionInGroupPairwise | backend/src/lib/validation/validators.ts:142-155 | a bucket contradicts exactly when a '>=' value exceeds a '<=' value, an '=' value exceeds a '<=' value, or an '=' value is below a '>=' value |
| Validation.ClashOfContradiction | backend/src/lib/validation/validators.ts:142-155 | a contradicting bucket has two clashing values |
| Validation.ContradictionOfClash | backend/src/lib/validation/validators.ts:142-155 | two clashing values make the bucket contradict |
| Validation.GroupClashWitness | backend/src/lib/validation/validators.ts:55-65 | a contradicting bucket yields two constraints with the same vector that clash |
| Validation.ClashGroup | backend/src/lib/validation/validators.ts:55-65 | two clashing constraints with the same vector make their bucket contradict |
| Validation.DirectContradictionsPairwise | backend/src/lib/validation/validators.ts:55-65 | hasDirectContradictions holds exactly when two constraints with the same coefficient vector clash |
| Validation.ClashSound | backend/src/lib/validation/validators.ts:51-54 | a clash is a real contradiction: no point satisfies both constraints |
| Validation.ValidateProblem | backend/src/lib/validation/validators.ts:10-32 | ENTRADA_INVALIDA exactly when the objective or constraints are missing, there are no constraints or not exactly 2 variables; SIN_SOLUCION only on an obvious infeasibility or a direct contradiction; true exactly when none of these |
| Validation.SinSolucionWitness | backend/src/lib/validation/validators.ts:21-29 | a SIN_SOLUCION verdict names an obviously infeasible constraint or two clashing constraints |
| ProblemValidator.Validate | backend/src/lib/core/problem-validator.ts:10-28 | no error exactly for a valid problem; ENTRADA_INVALIDA exactly for a malformed one; SIN_SOLUCION exactly for an infeasible verdict; never NO_ACOTADA |
| Normalizers.NegatedCoefficients | backend/src/lib/validation/normalizers.ts:15-18 | same length, same variables, every value negated |
| Normalizers.NormalizeConstraint | backend/src/lib/validation/normalizers.ts:10-22 | the result is never '>=' and a non-'>=' constraint is kept as it is |
| Normalizers.NormalizeToLEAndMax | backend/src/lib/validation/normalizers.ts:9-28 | name, objective and variables kept, one constraint per input constraint and none of them '>=' |
| Normalizers.NormalizeAt | backend/src/lib/validation/normalizers.ts:10-22 | a '>=' row becomes '<=' with negated right-hand side and coefficients; any other row is kept |
| Normalizers.NormalizeIdempotent | backend/src/lib/validation/normalizers.ts:9-28 | normalizing twice is normalizing once |
| Normalizers.LastWriterNegated | backend/src/lib/validation/normalizers.ts:15-18 | negating the values does not change which coefficient names a variable last |
| Normalizers.CoefVecNegated | backend/src/lib/validation/normalizers.ts:15-18 | the dense vector of the negated coefficients is the negated dense vector |
| Normalizers.NormalizeKeepsMeaning | backend/src/lib/validation/normalizers.ts:3-8 | a rewritten constraint holds at exactly the points where the original holds |
| Normalizers.NormalizeKeepsFeasible | backend/src/lib/validation/normalizers.ts:9-28 | normalization keeps the feasible set |
| Normalizers.EqualityExcludesStandardForm | backend/src/lib/validation/normalizers.ts:36-40 | an '=' constraint rules the standard form out, before and after normalization |
| Normalizers.StandardFormAfterNormalizing | backend/src/lib/validation/normalizers.ts:9-40 | after normalization the standard form is available exactly when every '<=' row has b >= 0, every '>=' row b <= 0 and there is no '=' row |
| Normalizers.StandardFormStartsFeasible | backend/src/lib/validation/normalizers.ts:30-40 | in standard form the initial tableau is canonical for the slack basis with non-negative right-hand sides |
| Preprocess.ValidateProblem | backend/src/services/simplex/preprocess.ts:10-61 | false exactly for a malformed problem; 'SIN_SOLUCION' only with an obviously infeasible constraint or two clashing constraints of the same vector; true exactly when none of these |
| Rounding.NearestError | backend/src/services/simplex/utils.ts:7-9 | rounding a non-negative value to d decimals gives a non-negative value within half a unit of the last kept decimal |
| Rounding.NearestFixed | backend/src/services/simplex/utils.ts:7-9 | a value already on the d-decimal grid rounds to itself |
| Rounding.RoundError | backend/src/services/simplex/utils.ts:7-9 | +v.toFixed(d) is within half a unit of the last kept decimal of v |
| Rounding.RoundIdempotent | backend/src/services/simplex/utils.ts:7-9 | rounding a rounded value changes nothing |
| Rounding.RoundSolution | backend/src/utils/solution-formatter.ts:16-38 | an error passes through unchanged; a solution keeps its flags, iterations and variable names, and every variable value and the objective value are rounded |
| Rounding.RoundSolutionIdempotent | backend/src/services/simplex/utils.ts:14-20 | rounding a rounded solution changes nothing |
| Rounding.RoundSolutionError | backend/src/utils/solution-formatter.ts:24-35 | every rounded value of a solution is within half a unit of the last kept decimal of the value it replaces |
| Extractor.Assigned | backend/src/lib/core/solution-extractor.ts:29-46 | the map names exactly the declared variables |
| Extractor.LastRowNaming | backend/src/lib/core/solution-extractor.ts:37-43 | -1 exactly when no scanned basis row names the variable; otherwise the last one that does |
| Extractor.AssignedValue | backend/src/lib/core/solution-extractor.ts:33-43 | a variable reads the right-hand side of the last basis row naming it, 0 when none does |
| Extractor.BasicAndNonBasicValues | backend/src/lib/core/solution-extractor.ts:37-43 | with distinct names and basis entries, a basic decision variable reads its own row's right-hand side and a non-basic one 0 |
| Extractor.ExtractVariables | backend/src/lib/core/solution-extractor.ts:29-46 | the two loops compute that map |
| Extractor.CalculateObjectiveValue | backend/src/lib/core/solution-extractor.ts:48-57 | the loop sums each objective coefficient times its variable's value, 0 for a missing name |
| Extractor.ObjectiveSumIsDot | backend/src/lib/core/solution-extractor.ts:48-57 | with distinct names in the objective and a map holding a point, the sum is the objective's dot product with that point |
| Extractor.Extract | backend/src/lib/core/solution-extractor.ts:10-27 | extract computes the extracted, recomputed and rounded solution |
| Extractor.ExtractionFacts | backend/src/lib/core/solution-extractor.ts:10-27 | optimal and bounded, the given iterations, exactly the declared variables, each holding its row value rounded to DEFAULT_DECIMALS, and the objective at those values rounded |
| VertexEnumeration.GetCoeff | backend/src/lib/solvers/vertex-enumeration.ts:4-6 | 0 when no coefficient names the variable; otherwise the value of the first one that does |
| VertexEnumeration.GetCoeffIsCoefVec | backend/src/lib/solvers/vertex-enumeration.ts:4-6 | with no name repeated, getCoeff reads the value the simplex tableau puts in the variable's column |
| VertexEnumeration.FeasibleLoosened | backend/src/lib/solvers/vertex-enumeration.ts:8-20 | loosening either tolerance keeps every accepted point accepted |
| VertexEnumeration.FeasibleExactly | backend/src/lib/solvers/vertex-enumeration.ts:8-20 | with tolerance 0, distinct variables and no repeated name in a constraint, isFeasible2D is exactly the problem's feasibility of (x, y) |
| VertexEnumeration.Cramer | backend/src/lib/solvers/vertex-enumeration.ts:22-29 | with a non-zero determinant the computed point lies on both lines |
| VertexEnumeration.IntersectLines | backend/src/lib/solvers/vertex-enumeration.ts:22-29 | null exactly when the determinant is below eps in absolute value; otherwise a point on both lines |
| VertexEnumeration.BuildCandidateLines | backend/src/lib/solvers/vertex-enumeration.ts:31-46 | the loop computes the candidate lines |
| VertexEnumeration.ConstraintLinesHave | backend/src/lib/solvers/vertex-enumeration.ts:33-40 | every constraint's boundary line is among its lines |
| VertexEnumeration.ConstraintLinesOnly | backend/src/lib/solvers/vertex-enumeration.ts:33-40 | every line is a boundary or an axis, and each constraint gives one to three lines |
| VertexEnumeration.CandidateLinesCover | backend/src/lib/solvers/vertex-enumeration.ts:31-46 | both axes and every boundary are candidates, nothing else is, and there are between m + 2 and 3m + 2 of them |
| VertexEnumeration.CollectCandidates | backend/src/lib/solvers/vertex-enumeration.ts:59-74 | the pair loops and the origin compute the candidate list |
| VertexEnumeration.SweepKeeps | backend/src/lib/solvers/vertex-enumeration.ts:68-73 | the pair loop never drops a collected point and never adds one twice |
| VertexEnumeration.SweepComplete | backend/src/lib/solvers/vertex-enumeration.ts:68-73 | every snapped intersection of a pair not yet visited is collected |
| VertexEnumeration.SweepSound | backend/src/lib/solvers/vertex-enumeration.ts:68-73 | everything the pair loop adds is the snapped intersection of a pair |
| VertexEnumeration.CandidatesFacts | backend/src/lib/solvers/vertex-enumeration.ts:59-74 | the candidates are the origin and the snapped intersections of every pair of lines whose determinant is at least eps, each listed once |
| VertexEnumeration.SelectBest | backend/src/lib/solvers/vertex-enumeration.ts:76-87 | the loop over the candidates computes the choice |
| VertexEnumeration.ChooseFacts | backend/src/lib/solvers/vertex-enumeration.ts:76-91 | nothing is chosen exactly when no candidate is feasible; otherwise the choice is a feasible candidate with its objective value that no feasible candidate beats by more than EPS |
| VertexEnumeration.ChooseFirst | backend/src/lib/solvers/vertex-enumeration.ts:85-86 | ties go to the first: every feasible candidate listed before the choice is strictly worse |
| VertexEnumeration.Enumerate | backend/src/lib/solvers/vertex-enumeration.ts:54-95 | the steps compute the enumeration's answer |
| VertexEnumeration.SolveByVertexEnumeration | backend/src/lib/solvers/vertex-enumeration.ts:54-95 | the library version uses EPS as its '=' tolerance |
| VertexEnumeration.EnumerationFailure | backend/src/lib/solvers/vertex-enumeration.ts:89-91 | the answer is an error, and only SIN_SOLUCION, exactly when no candidate vertex is feasible |
| VertexEnumeration.EnumerationSuccess | backend/src/lib/solvers/vertex-enumeration.ts:93-94 | a success is optimal and bounded with no iterations, names the two variables and holds, rounded, a feasible candidate and its value that no feasible candidate beats by more than EPS |
| VertexEnumeration.OriginIsCandidate | backend/src/lib/solvers/vertex-enumeration.ts:74 | the origin is always a candidate |
| Enum2D.SolveByVertexEnumeration | backend/src/services/simplex/enum2d.ts:4-84 | the older copy is the same enumeration with 1e-7 as its '=' tolerance |
| Enum2D.LooserOnEqualities | backend/src/services/simplex/enum2d.ts:17 | every point the library version accepts, the older copy accepts too |
| Enum2D.ChooseAgrees | backend/src/services/simplex/enum2d.ts:66-76 | two planes that accept the same candidates make the same choice |
| Enum2D.EqualityToleranceUnused | backend/src/services/simplex/enum2d.ts:9-20 | without '=' constraints the '=' tolerance plays no part in feasibility |
| Enum2D.NoEqualitiesSameVerdicts | backend/src/services/simplex/enum2d.ts:9-20 | without '=' constraints both versions accept the same candidates |
| Enum2D.SameWithoutEqualities | backend/src/services/simplex/enum2d.ts:4-84 | without '=' constraints both versions give the same answer |
| Optimizer.TryVertexEnumeration | backend/src/lib/core/solution-optimizer.ts:11-22 | the method computes the fallback's answer |
| Optimizer.TryEnumerationFacts | backend/src/lib/core/solution-optimizer.ts:11-22 | a solution exactly when there are two variables and the enumeration succeeds, and then the enumeration's solution unchanged by the second rounding |
| Optimizer.RoundedWithIterations | backend/src/lib/core/solution-optimizer.ts:44-51 | a rounded solution given other iterations is unchanged by rounding again |
| Optimizer.CrossCheckWith2D | backend/src/lib/core/solution-optimizer.ts:24-55 | the method computes the cross-check's answer |
| Optimizer.CrossCheckFacts | backend/src/lib/core/solution-optimizer.ts:24-55 | a replacement exactly when there are two variables, the enumeration succeeds and beats the current objective value by more than EPS; the replacement is the enumeration's solution with the current iterations |
| Optimizer.CrossCheckNames | backend/src/lib/core/solution-optimizer.ts:44-50 | a replacement keeps the current iterations and names exactly the two declared variables |
| Solver.Solve | backend/src/services/simplex-solver.service.ts:26-57 | the method computes solve's answer: validation error, preparation error, fallback or run error, or the extracted and cross-checked solution |
| Solver.SolveValidation | backend/src/services/simplex-solver.service.ts:27-30 | a validation error is returned as it is, and only a valid two-variable problem is ever solved |
| Solver.SolveFlags | backend/src/services/simplex-solver.service.ts:26-57 | every solution solve returns is optimal and bounded |
| Solver.SolveSimplexPath | backend/src/services/simplex-solver.service.ts:37-56 | after a successful run the answer lists Phase I's snapshots then Phase II's, names exactly the declared variables, and is the extracted solution unless the enumeration beats it by more than EPS |
| Solver.SimplexAnswerFacts | backend/src/services/simplex-solver.service.ts:42-56 | the same facts for the extracted or cross-checked answer |
| Solver.ExtractedNames | backend/src/services/simplex-solver.service.ts:42-50 | the extracted solution lists every snapshot and names exactly the declared variables |
| Solver.SolveFallback | backend/src/services/simplex-solver.service.ts:37-40 | after a failed run the answer is the enumeration's solution when the enumeration succeeds, else the run's error |
| IterationRecords.DigitChar | backend/src/services/iteration.service.ts:94 | a decimal digit character with the given value |
| IterationRecords.Digits | backend/src/services/iteration.service.ts:94 | the decimal spelling of an index is non-empty and made of digits |
| IterationRecords.ParseDigitsOf | backend/src/services/iteration.service.ts:94 | the decimal spelling reads back as the index, so default names are unambiguous |
| IterationRecords.DefaultNamesDistinct | backend/src/services/iteration.service.ts:93-95 | two default names "x" + index are equal exactly when the indices are, and none is "xundefined" |
| IterationRecords.ExtractBasicVariables | backend/src/services/iteration.service.ts:67-88 | the loop computes the basic-variable map |
| IterationRecords.BasicUpToKeys | backend/src/services/iteration.service.ts:77-85 | after k basis rows, a name is a key exactly when some row read so far (the objective row skipped) carries it |
| IterationRecords.BasicUpToValue | backend/src/services/iteration.service.ts:77-85 | a row read so far whose name no later row repeats leaves its right-hand side under that name |
| IterationRecords.BasicVariablesFacts | backend/src/services/iteration.service.ts:67-88 | no basis gives no basic variables; otherwise a name is a key exactly when some constraint row's basic column carries it, and holds the right-hand side of the last such row |
| IterationRecords.SnapshotBasicVariables | backend/src/services/iteration.service.ts:67-95 | for a solver snapshot, exactly the names "x" + basic column appear, each with its row's right-hand side |
| IterationRecords.FirstDifference | backend/src/services/iteration.service.ts:108-120 | the first position at or after j where the bases differ (a position past the previous basis counts as different), or none when they agree throughout |
| IterationRecords.DetectEnteringAndLeaving | backend/src/services/iteration.service.ts:100-123 | entering and leaving are both absent or both present, and absent exactly when a basis is missing or the current basis agrees with the previous one at every position |
| IterationRecords.DetectPivot | backend/src/services/iteration.service.ts:100-123 | between a snapshot and its pivot on (r, c), the entering variable is "x" + c and the leaving one the column c replaced |
| IterationRecords.BuildRecords | backend/src/services/iteration.service.ts:12-52 | one record per snapshot, numbered from 1, with its matrix, basic variables and bottom-right cell; the first has no entering or leaving variable, each later one is compared with its predecessor, and only the last is marked optimal |
| RunSimplexFinding.RunSimplexAsWrittenFirstPivots | backend/src/services/simplex/tableau.ts:107-123 | on the worked example the first two pivots enter x1 and x2, where nonBasis at the pivot column happens to be the pivot column |
| RunSimplexFinding.RunSimplexAsWrittenLosesEntering | backend/src/services/simplex/tableau.ts:115-118 | on the third pivot the pivot column is 2 while nonBasis has two entries, so the entering value read as written is undefined |

## Left out

- Database and HTTP: the prisma writes of `saveIterations`, `getIterationsByProblemId` and the error logging of `iteration.service.ts` are I/O; `IterationRecords.BuildRecords` computes the records those writes would store.
- Floating point: every number is an exact `real`, so the model does not capture rounding error in pivots, ratios or intersections; the `isFinite` guards of `intersectLines` and `addPt` are dropped because over the reals a determinant of at least EPS always gives a finite point.
- String keys: the `toFixed(8)` grouping keys of the contradiction test and the `toFixed(10)` candidate keys of the enumeration (parsed back with `parseFloat`) are modelled as exact equality of coefficient vectors and of points.
- Rounding.RoundSolution: `+v.toFixed(d)` is modelled as exact decimal rounding with halves going up; on binary doubles `toFixed` may round a written half down, which the model does not capture.
- `utils/math-helpers.ts` is not part of this model: the `round` that `solution-formatter.ts` imports from it is taken to be the same `+v.toFixed(d)` as `services/simplex/utils.ts`.
- Deep copies (`JSON.parse(JSON.stringify(...))`, `cloneDeep`, `cloneDeepTableau`) are modelled as taking a `Snapshot` value; object identity beyond the `Tableau` class (for example snapshots sharing rows) is not modelled.
- The older copies in `preprocess.ts` of `hasDirectContradictions`, `coefficientVector`, `normalizeToLEAndMax` and `canUseStandardForm` (lines 35-100) do the same as `validators.ts` and `normalizers.ts` and are modelled once, by `Validation` and `Normalizers`; likewise the `roundSolution` of `services/simplex/utils.ts` by `Rounding.RoundSolution`.
- `Infinity` and `-Infinity` (the empty `Math.min`/`Math.max` and the initial best value of the enumeration) are modelled as an empty list guard and as `None`.
- Matrices are rectangular with at least one row and one column in every member that indexes them; the source assumes the same and a ragged matrix would read `undefined`.
- IterationRecords.VariableName: labels are a list of strings; label arrays holding `null` or non-string entries are not modelled.
- The `SimplexProblem`, `SimplexTableau`, `SimplexSolution` and `SimplexError` types and `lib/operations` are not part of this model; they are inferred from their use, with `services/simplex/tableau.ts` and `phases.ts` taken as the operations `lib/core` calls.

## Findings

| source | as written | input that shows it | evidently intended | confidence | as-written member | corrected member |
|---|---|---|---|---|---|---|
| backend/src/services/simplex/tableau.ts:115-118 | `runSimplex` takes the entering variable as `nonBasis[pivotColumn]` and writes the leaving one to `nonBasis[pivotColumn]`, using a column number as a position in `nonBasis` | max 3x1 + 2x2 subject to x1 <= 4, 2x1 + x2 <= 10, x2 <= 6: the first two pivots enter columns 0 and 1, where the position happens to equal the column; the third pivot column is 2 while `nonBasis` has 2 entries, so `undefined` enters the basis | the pivot column enters the basis and the leaving column takes its place in `nonBasis`, as `simplex-executor.ts:43-50` does | not executed; high | RunSimplexFinding.RunSimplexAsWrittenLosesEntering | TableauOps.RunSimplex |
