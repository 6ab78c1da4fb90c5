# Kirschner–Panetta immunotherapy model in Dafny

This project models the numerical core of a small Python project. The
project steers immunotherapy with a genetic algorithm on the
Kirschner–Panetta (KP) model of effector cells, tumour cells and IL-2. The
model covers the following parts:

- **`KPModel`** (`kp_model.dfy`) models `Model/KP_model.py`. It holds:
  - `nondim`, which rescales the thirteen dimensional rate constants by the
    reference sizes E0, T0, IL0 and the rate t_s;
  - the scaled derivative formulas `dx_dt`, `dy_dt` and `dz_dt`;
  - the tumour growth-rate selector `r_2`;
  - the vector field `kp_coupled`.
- **`KPModelDim`** (`kp_model_dim.dfy`) models `Model/KP_model_dim.py`, the
  dimensional equations. It also proves that `nondim` is consistent with
  them: rescaling the dimensional effector and IL-2 equations gives the scaled
  ones. `kp_dT_dt` calls `r_2` with the keyword `eta`, which `r_2` does not
  declare. A small model of Python's keyword binding shows that this call
  always raises TypeError.
- **`Dixon`** (`dixon_model.dfy`) models `Model/Dixon_model.py`, the
  alternative Dixon model with its four derivative formulas.
- **`GAFitness`** (`fitness_function.dfy`) models `fitness_func` from
  `GA/fitness_function.py`. It evaluates an eight-gene dosing policy in
  these steps:
  - two linear doses, clamped at zero;
  - a one-step Euler prediction with fixed constants;
  - the score, which is immunotherapy benefit minus three times toxicity.
- **`DataHandling`** (`data_handling.dfy`) models the row loop of `load_data`
  from `Visualization/data_handling.py`. `LoadData` is a method with a loop.
  It is proved against the specification function `Column`, which gives the
  list of each column after a given sequence of rows.
- **`Outcomes`** (`outcomes.dfy`) holds the Python exceptions the core raises
  (ValueError, TypeError, ZeroDivisionError) and a `Result` type that carries
  them.

All quantities are exact reals. A denominator such as `g_1 + z` must be
nonzero, and each formula takes that as a precondition. Python would raise
ZeroDivisionError there.

Two error paths are easy to misread:

- The guard at Model/KP_model.py:11 rejects only a missing scale. A zero
  scale passes it and reaches a division at line 14, 17 or 19, which raises
  ZeroDivisionError; `Nondim` returns that error.
- The comments of `load_data` say "Skip rows with empty …", but the fields
  before the first empty one have already been appended by then. See
  "## Findings".

## Model

| member | source | states |
|---|---|---|
| KPModel.Nondim | Model/KP_model.py:4-31 | ValueError with the fixed message exactly when a scale is missing; ZeroDivisionError exactly when every scale is given and one is zero; otherwise a list of thirteen coefficients |
| KPModel.NondimValue | Model/KP_model.py:14-31 | with nonzero scales, entry i of the list is the i-th rescaled constant, in the order c, p_1, g_1, mu_2, g_2, b, r_2, alpha, mu_3, p_2, g_3, s_1, s_2 |
| KPModel.NondimUnitScales | Model/KP_model.py:14-31 | with every scale equal to 1 the list is the dimensional constants themselves |
| KPModel.NondimRates | Model/KP_model.py:16-24 | the pure rates p_1, mu_2, r_2 and mu_3 times t_s give back their dimensional values; b·g_2 does not depend on T0 |
| KPModel.DxDtReductions | Model/KP_model.py:34-39 | without IL-2 the saturation term of dx_dt vanishes; with neither effector nor tumour cells only the input s_1 remains |
| KPModel.DyDtReductions | Model/KP_model.py:41-47 | no tumour cells give a zero rate; without effector cells dy_dt is logistic growth, zero at the carrying capacity b·y = 1 |
| KPModel.DzDtReductions | Model/KP_model.py:49-55 | without effector or without tumour cells only decay and the input s_2 remain |
| KPModel.R2 | Model/KP_model.py:57-71 | succeeds exactly for selectors 1 and 2; selector 1 gives 0.18; selector 2 gives 0.18 at y = 0 and 0 at b·y = 1; any other selector raises ValueError("Invalid tumor growth function.") |
| KPModel.TumourGrowthMatchesSelector | Model/KP_model.py:57-71 | without effector cells, dy_dt with r_2 = 0.18 equals selector 2's rate times y |
| KPModel.Rescale | Model/KP_model.py:14-29 | with every scale equal to 1 each rescaled constant is its dimensional value |
| KPModel.KpCoupled | Model/KP_model.py:73-84 | a state of length other than 3 raises ValueError, and otherwise three rates come back; the tumour-free plane y = 0 is invariant; at x = y = 0 effector cells change by s_1 alone and IL-2 by −mu_3·z + s_2; with non-negative coefficients and inputs, a non-negative state on the face x = 0 or z = 0 is not pushed below zero in that component |
| KPModel.KpCoupledAutonomous | Model/KP_model.py:73-84 | the vector field does not depend on t |
| KPModel.TumourFreeSteadyState | Model/KP_model.py:73-84 | at y = 0, z = s_2/mu_3 and x = s_1/(mu_2 − p_1·z/(g_1 + z)) all three derivatives are zero |
| KPModel.NondimOrderIsNotCoupledOrder | Model/KP_model.py:73-84 | nondim's output order (line 31) is not kp_coupled's parameter order: spread positionally, it binds mu_2 to p_1 and s_1 to g_2, and it changes the vector field |
| KPModelDim.CallR2 | Model/KP_model_dim.py:24 | a call of r_2 that passes any keyword r_2 does not declare raises TypeError naming the first such keyword |
| KPModelDim.KpDTDt | Model/KP_model_dim.py:19-26 | kp_dT_dt raises TypeError naming 'eta' for every argument, including g_2 + T = 0, because the r_2 call at line 24 fails before the division at line 25 |
| KPModelDim.TumourRate | Model/KP_model_dim.py:25 | the value line 25 would compute from a growth rate: T times (growth − alpha·E/(g_2 + T)); ZeroDivisionError exactly when g_2 + T = 0 |
| KPModelDim.KpDEDt | Model/KP_model_dim.py:12-17 | the effector equation is dx_dt read with (E, T, I_L); with no cells it equals the input s_1 |
| KPModelDim.KpDILDt | Model/KP_model_dim.py:28-33 | the IL-2 equation is dz_dt read with (IL, E, T) plus IL_input |
| KPModelDim.DimensionalAutonomous | Model/KP_model_dim.py:12-33 | neither dimensional equation depends on t |
| KPModelDim.NondimEffectorConsistent | Model/KP_model_dim.py:12-17 | dx_dt with nondim's coefficients at (E/E0, T/T0, IL/IL0), times t_s·E0, equals kp_dE_dt at (E, T, IL) |
| KPModelDim.NondimIL2Consistent | Model/KP_model_dim.py:28-33 | dz_dt with nondim's coefficients at (IL/IL0, E/E0, T/T0), times t_s·IL0, equals kp_dIL_dt at (IL, E, T) with no extra input |
| Dixon.DixonDIDt | Model/Dixon_model.py:10-20 | with no IL-2 the rate is production beta·C1 plus the treatment s |
| Dixon.DixonDIDtLinearInTreatment | Model/Dixon_model.py:10-20 | raising the treatment by d raises the IL-2 rate by d |
| Dixon.DixonDC1Dt | Model/Dixon_model.py:22-31 | the CD4+ rate is C1·(k1·T − mu_1); for C1 > 0 it is positive exactly when k1·T > mu_1 |
| Dixon.DixonDC2Dt | Model/Dixon_model.py:33-45 | the CD8+/NK rate is C2 times the per-capita rate k2·T + sigma·I/(g + I) − mu_2 |
| Dixon.DixonDTDt | Model/Dixon_model.py:47-58 | the tumour rate is T times the logistic rate minus killing; zero at T = 0 and at T = K without killer cells |
| GAFitness.Clamp | GA/fitness_function.py:40-42 | max(0, v): non-negative, at least v, and equal to 0 or to v |
| GAFitness.RawDose | GA/fitness_function.py:37-38 | at the empty state, or with zero state weights, the requested dose is the bias gene alone |
| GAFitness.Predict | GA/fitness_function.py:47-57 | a tumour-free state is predicted to stay tumour-free; with neither effector nor tumour cells the effector prediction is the dose s_1 and the IL-2 prediction is −9·z + s_2 |
| GAFitness.Toxicity | GA/fitness_function.py:64-67 | non-negative for non-negative doses and effector prediction; with no doses it is 0.1 times the squared IL-2 prediction |
| GAFitness.Evaluate | GA/fitness_function.py:23-75 | the doses are the clamped linear forms of genes 0..3 and 4..7; the prediction, immunotherapy, toxicity and fitness are as the source defines them; with a non-negative effector prediction the fitness never exceeds the immunotherapy term |
| GAFitness.FitnessFunc | GA/fitness_function.py:23-75 | with a non-negative effector prediction the fitness never exceeds 0.1·x_pred − 0.1·y_pred; a policy whose two raw doses are both non-positive scores 0.1·x_pred − 0.1·y_pred − 0.3·z_pred² |
| GAFitness.DosesUseOwnGenes | GA/fitness_function.py:33-42 | the effector dose depends only on genes 0..3 and the IL-2 dose only on genes 4..7 |
| GAFitness.TumourPredictionIgnoresGenes | GA/fitness_function.py:53-54 | the tumour prediction is the same for every policy |
| GAFitness.NegativeEffectorDoseIsNoDose | GA/fitness_function.py:37-42 | policies whose effector genes ask for a non-positive dose and whose IL-2 genes agree score the same |
| GAFitness.FitnessIgnoresTime | GA/fitness_function.py:27-57 | the fitness does not depend on the environment's t |
| GAFitness.ZeroPolicyAtOrigin | GA/fitness_function.py:23-75 | the all-zero policy at the empty state scores 0 |
| GAFitness.BiasOnlyPolicyAtOrigin | GA/fitness_function.py:23-75 | the policy [0,0,0,5, 0,0,0,−3] at the empty state gives the doses 5 and 0, effector prediction 5 and fitness −1 |
| DataHandling.Convert | Visualization/data_handling.py:22-52 | t is parsed as an integer, tau kept as text, every other column parsed as a float; the text is kept |
| DataHandling.Filled | Visualization/data_handling.py:19-52 | the index of the row's first empty field (11 if none): every field before it is non-empty |
| DataHandling.LoadData | Visualization/data_handling.py:17-54 | each of the eleven returned lists is Column of the rows for its column |
| DataHandling.ColumnStep | Visualization/data_handling.py:19-52 | one more row extends each list by that row's contribution only |
| DataHandling.EmptyTimeContributesNothing | Visualization/data_handling.py:20-21 | a row with an empty t leaves every list unchanged |
| DataHandling.CompleteRowAppendsToAll | Visualization/data_handling.py:19-52 | a row with no empty field appends its converted field to each list |
| DataHandling.FirstEmptyFieldCutsRow | Visualization/data_handling.py:19-52 | a row whose first empty field is column f appends to the lists of columns 0..f−1 and to no other |
| DataHandling.ColumnConcat | Visualization/data_handling.py:19-52 | reading a then b gives the lists of a followed by those of b: values keep row order |
| DataHandling.ColumnsNonIncreasing | Visualization/data_handling.py:19-52 | the list of column k+1 is never longer than the list of column k |
| DataHandling.TimeListBoundedByRows | Visualization/data_handling.py:19-22 | the t list has at most one value per row |
| DataHandling.ColumnLengthsOrdered | Visualization/data_handling.py:17-54 | in column order each list is at most as long as the one before it, from Fitness up to t, and t has at most one value per row |
| DataHandling.ColumnConversions | Visualization/data_handling.py:22-52 | every value in column k's list carries column k's conversion |
| DataHandling.PartialRowMisalignsColumns | Visualization/data_handling.py:19-28 | with a middle row that has t and tau but no x, t gets three values and x two, so x's second value comes from the third row |
| DataHandling.CompleteRowsMembers | Visualization/data_handling.py:19-52 | the corrected loader keeps a row exactly when it is one of the rows read and has no empty field |
| DataHandling.CompleteRowsOfComplete | Visualization/data_handling.py:19-52 | when no row has an empty field, every row is kept |
| DataHandling.CompleteRowsConcat | Visualization/data_handling.py:19-52 | the kept rows of a followed by b are those of a followed by those of b, so row order is preserved |
| DataHandling.CompleteRowsAligned | Visualization/data_handling.py:19-52 | on rows with no empty field each list has one entry per row, and entry i comes from row i |
| DataHandling.LoadCompleteRows | Visualization/data_handling.py:17-54 | the corrected loop returns Column of the complete rows for each column, and all eleven lists have the same length |

## Left out

- `Model/integration.py` is not part of this model. It calls SciPy's `solve_ivp` on `kp_coupled`, which is foreign numerical code.
- `Visualization/pop_plotting.py` is not part of this model. It only plots.
- The `GeneticAlgorithm` constructor, the `on_start`, `on_fitness`, `on_parents`, `on_crossover`, `on_mutation` and `on_stop` hooks, `on_generation` and `run` are left out. They only print, or delegate to the pygad library.
- Floating point: all arithmetic is on exact reals, so rounding, overflow, infinities and NaN are not modelled.
- KPModel.Nondim: the thirteen dimensional constants are reals. Leaving one of them as `None` raises TypeError in Python, and that is not modelled.
- KPModel.DxDt: a zero denominator g_1 + z is a precondition, not a ZeroDivisionError outcome. The same holds for KPModel.DyDt (g_2 + y), KPModel.DzDt (g_3 + y), the two dimensional equations and the Dixon formulas with g + I and K.
- KPModelDim.CallR2: only keyword calls are modelled, and the missing-argument message text is not CPython's exact wording. The unexpected-keyword case, which is the one the source reaches, is exact.
- GAFitness.Evaluate: it requires at least eight genes. Python raises IndexError for fewer than four, and for fewer than eight it raises IndexError when computing the IL-2 dose. A missing key in the environment dictionary (KeyError) is not modelled either.
- DataHandling.LoadData: the file open, the `print` of the path and the CSV tokenising are left out. The loop receives the rows the dictionary reader yields.
- Every row holds a field for every column. A header missing a column (KeyError) and a short row, whose missing fields are `None`, are not modelled.
- DataHandling.Convert: a cell records which conversion the loader applies. `int()` and `float()` themselves are not modelled, nor is the ValueError they raise on malformed text.

## Findings

| source | as written | input that shows it | evidently intended | confidence | as-written member | corrected member |
|---|---|---|---|---|---|---|
| Visualization/data_handling.py:19-52 | each field is appended before the next field is checked, so a row with an empty field after t still adds its leading fields to their lists | three rows: the first and last complete, the middle one with t and tau set and x empty; t gets 3 values and x gets 2, so x's second value belongs to the third row but sits beside the second t | a row with any empty field is skipped entirely, and the eleven lists stay aligned row by row | not executed | DataHandling.PartialRowMisalignsColumns | DataHandling.LoadCompleteRows |
