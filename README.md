# GLUE behavioural-set selection and replay harness, modelled in Dafny

This project models the logic of `spotpy_/spotpy_glue.py`, the script that
runs a GLUE (Generalized Likelihood Uncertainty Estimation) analysis of the
SMART lumped hydrological model:

* `get_behavioural_sets` keeps the prior parameter samples whose objective
  values pass every configured threshold (`equal`, `min`, `max`, `inside`,
  `outside`), raising on mis-shaped inputs and malformed conditions;
* `SpotPySetUp.objectivefunction` drops the time steps without an
  observation (NaN) from the observed and the simulated series alike, and
  returns the metric scores in the order of `obj_fn_names` (13 names, or
  14 with `GW` when the groundwater constraint is enabled);
* `SpotPySetUp.__init__` and `save` write a header line
  (metric names, parameter names, optional time-step labels) and one record
  per replay (objective values, parameter values, optional simulated series).

Files:

* `float64.dfy` (module `Float64`): float64 values as `Num(r)` or `NaN`, with
  numpy's comparisons, all of which are false on NaN.
* `masking.dfy` (module `Masking`): numpy boolean-mask indexing `a[mask]`
  (`Compress`, specified through `TrueIndices`) and element-wise AND.
* `behavioural.dfy` (module `Behavioural`): the selector. `BehaviouralSets`
  is the specification; `GetBehaviouralSets` is the routine as the script
  runs it, a mask array that starts all true and is ANDed with one column's
  selection per loop iteration, proved equal to the specification.
* `behavioural_props.dfy` (module `BehaviouralProperties`): what the
  selector promises, stated against an independent acceptance table `Meets`.
* `objectives.dfy` (module `Objectives`): metric names, NaN masking and the
  objective vector.
* `initialise.dfy` (module `Initialise`): the selection step of `__init__`
  (column pick `[:, [0, 9, 13]]` and the three fixed conditions), as written
  and corrected.
* `setup.dfy` (module `Setup`): header/record layout and the class
  `SpotPySetUp` with its result database.

`get_behavioural_sets` raises one plain `Exception` with a distinct message
per cause; the model gives each message its own `GlueError` value (the arity and
bounds errors carry the kind).
The result file is one handle, written without synchronisation.

## Model

| member | source | states |
|---|---|---|
| `Masking.TrueIndices` | spotpy_/spotpy_glue.py:180 | a boolean mask selects at most as many positions as it has entries |
| `Masking.TrueIndicesSpec` | spotpy_/spotpy_glue.py:180 | the selected positions are strictly increasing, in range, each one true, and every true position is listed |
| `Masking.Compress` | spotpy_/spotpy_glue.py:180 | `a[mask]` has one element per selected position, so at most as many as the input |
| `Masking.CompressSpec` | spotpy_/spotpy_glue.py:180 | element k of `a[mask]` is the input element at the k-th selected position, so the original order is kept |
| `Masking.Selected` | spotpy_/spotpy_glue.py:180 | a position is kept by `a[mask]` exactly when it is in range and the mask is true there |
| `Masking.And` | spotpy_/spotpy_glue.py:178 | after `behavioural *= selection` the mask selects exactly the rows selected by both the old mask and the column's selection |
| `Masking.CompressAllTrue` | spotpy_/spotpy_glue.py:142 | an all-true mask (`np.ones(..., dtype=bool)`) returns the input unchanged |
| `Masking.CompressAllFalse` | spotpy_/spotpy_glue.py:180 | an all-false mask returns no row |
| `Masking.AndNarrowsSelection` | spotpy_/spotpy_glue.py:178 | ANDing a selection into the mask only removes positions and never adds one |
| `Behavioural.ParseCondition` | spotpy_/spotpy_glue.py:144-176 | a condition is accepted exactly when its kind is equal/min/max with one value or inside/outside with two values, the second strictly greater; otherwise it raises: unknown kind, wrong number of values, or inconsistent bounds |
| `Behavioural.ParseAll` | spotpy_/spotpy_glue.py:143-176 | validating the conditions column by column yields one threshold per column |
| `Behavioural.ParseAllColumns` | spotpy_/spotpy_glue.py:143-176 | validation succeeds iff every column's condition is well formed, and then threshold c is column c's own condition |
| `Behavioural.ParseAllFirstError` | spotpy_/spotpy_glue.py:143-176 | the exception raised is the one of the first malformed condition in column order |
| `Behavioural.ParseAllPrefixError` | spotpy_/spotpy_glue.py:143-176 | once a column's condition raises, no later column changes the outcome |
| `Behavioural.AcceptsSnoc` | spotpy_/spotpy_glue.py:178 | a row passes the first k+1 thresholds iff it passes the first k and column k's |
| `Behavioural.AndColumn` | spotpy_/spotpy_glue.py:146-178 | the in-place `behavioural *= selection` leaves exactly `And(old mask, column selection)`, and so each mask entry is the AND of the first k+1 column selections |
| `Behavioural.KeepRows` | spotpy_/spotpy_glue.py:180 | the loop over the mask collects exactly `params[behavioural, :]` |
| `Behavioural.GetBehaviouralSets` | spotpy_/spotpy_glue.py:130-180 | the imperative selector (shape checks, loop invariant "mask = AND of the first c column predicates", early raise) returns or raises exactly what `BehaviouralSets` specifies |
| `BehaviouralProperties.ThresholdMeaning` | spotpy_/spotpy_glue.py:144-170 | equal keeps exactly `v == t`, min `v >= t`, max `v <= t`, inside `a <= v <= b`, outside `v <= a && v >= b`; NaN passes none |
| `BehaviouralProperties.BehaviouralSetsErrors` | spotpy_/spotpy_glue.py:136-176 | raises on differing row counts, then on a condition count different from the column count, and otherwise returns iff every condition is well formed, the first malformed one deciding the error |
| `BehaviouralProperties.BehaviouralRows` | spotpy_/spotpy_glue.py:142-180 | a returned matrix keeps the parameter width and holds exactly the parameter rows whose objective row meets every condition of the acceptance table, whole and in original order |
| `BehaviouralProperties.NoConditionsKeepsAll` | spotpy_/spotpy_glue.py:142-143 | with zero objective columns and no conditions every parameter row is returned unchanged |
| `BehaviouralProperties.OutsideSelectsNothing` | spotpy_/spotpy_glue.py:167-170 | because validation enforces b > a, `v <= a && v >= b` never holds, so any `outside` column empties the result |
| `BehaviouralProperties.MoreConditionsFewerRows` | spotpy_/spotpy_glue.py:178 | each further column can only remove rows from the selection |
| `BehaviouralProperties.MinKeepsBoundary` | spotpy_/spotpy_glue.py:149-151 | a single min column keeps exactly the rows with a value of at least the threshold, the threshold itself included |
| `BehaviouralProperties.ColumnOrderIrrelevant` | spotpy_/spotpy_glue.py:143-178 | reordering objective columns together with their conditions changes neither whether the selector raises nor the rows it returns |
| `BehaviouralProperties.InsideExample` | spotpy_/spotpy_glue.py:159-162 | column [0.9, 0.3, 0.95, NaN] under inside (0.75, 1.0) keeps rows 0 and 2 |
| `BehaviouralProperties.DimensionExample` | spotpy_/spotpy_glue.py:138-140 | two conditions for three objective columns raise the dimension error |
| `Objectives.ObjFnNames` | spotpy_/spotpy_glue.py:29-32 | 13 metric names when the groundwater reference equals -999.0, otherwise 14 with `GW` last |
| `Objectives.MaskObserved` | spotpy_/spotpy_glue.py:89-90 | both masked series have one entry per non-NaN observation, entry k of each from the same original index in increasing order, with no NaN left in the observed series |
| `Objectives.ObjectivesMatchNames` | spotpy_/spotpy_glue.py:106-109 | the returned objective list has the length of `obj_fn_names` and entry k is the score named by name k |
| `Objectives.ObjectiveFunction` | spotpy_/spotpy_glue.py:87-109 | the metrics see only the masked pair, and the result lists their scores in `obj_fn_names` order, with the groundwater score only when the groundwater reference (the same setting that `evaluation` returns) enables it |
| `Objectives.MaskKeepsCompleteSeries` | spotpy_/spotpy_glue.py:89-90 | with no missing observation both series reach the metrics unchanged |
| `Objectives.UnobservedStepsIgnored` | spotpy_/spotpy_glue.py:87-109 | simulated values at time steps without an observation cannot affect any objective value |
| `Objectives.MaskExample` | spotpy_/spotpy_glue.py:89-90 | observed [1.0, NaN, 3.0] and simulated [1.1, 9.9, 2.9] are reduced to [1.0, 3.0] and [1.1, 2.9] |
| `Initialise.PickColumns` | spotpy_/spotpy_glue.py:41 | `m[:, cols]` succeeds iff every listed column exists, and then has one column per listed index, entry (i, j) being row i's value at column `cols[j]` |
| `Initialise.SentinelRaisesIndexError` | spotpy_/spotpy_glue.py:29-42 | with the groundwater reference at -999.0 the sampled metric matrix has 13 columns and the selection step as written raises IndexError at the pick of column 13, whatever the sample |
| `Initialise.SelectBehaviouralSucceeds` | spotpy_/spotpy_glue.py:29-42 | the corrected step never raises, and returns exactly the parameter rows whose NSE is at least 0.75, whose PBias lies in [-10, 10] and, when GW is scored, whose GW equals 1.0, in sample order |
| `Initialise.AgreesWhenGwEnabled` | spotpy_/spotpy_glue.py:39-42 | with the groundwater constraint enabled the corrected step returns or raises exactly what the script's step does |
| `Setup.RecordMatchesHeader` | spotpy_/spotpy_glue.py:111-115 | a record (objective values ++ parameter values ++ simulated values iff `save_sim`) built from vectors of the header's lengths has the column count of the line-61 header, and each of its columns holds the value that header column names |
| `Setup.SpotPySetUp.constructor` | spotpy_/spotpy_glue.py:16-61 | picks 13 or 14 metric names from the groundwater reference, keeps the behavioural parameter rows through the corrected selection step, keeps time-step labels only when simulations are saved, and writes the header `obj_fn_names ++ param_names ++ simu_steps` as the only line |
| `Setup.SpotPySetUp.Save` | spotpy_/spotpy_glue.py:111-116 | appends exactly one record line and keeps the header as the first and only header line |

## Left out

- `get_sampled_sets_from_file` (CSV reading and string-to-float64 parsing): file I/O and library parsing; the selector takes the two matrices as given.
- The `ndim != 2` checks of `get_behavioural_sets`: a `Matrix` is two-dimensional by construction, so those two exceptions cannot arise in the model.
- The SMART model, the settings loader and `simulation`/`evaluation` themselves: foreign code; their outputs are the `Simulation` and `Evaluation` values, with the simulated series already taken at the observed time steps.
- The metric computations (NSE family, KGE and components, bias, PBias, RMSE, Spearman, MARE, groundwater constraint): floating-point numerics in libraries not shown; the `MetricSuite` functions are opaque and only their number and order are modelled.
- Objectives.MaskObserved: requires both series to have the same length; numpy would raise on a mismatch, which cannot happen because the simulated series is built from the observed series' own time steps.
- Infinities: `Float` has no infinite values, so comparisons against them are not modelled.
- Parameter generation (`spotpy.parameter.List`, `parameters`), the sampler and MPI parallelism: library dispatch; the sampler's draw count, the number of behavioural rows, is not modelled.
- Setup.SpotPySetUp.constructor: follows the corrected selection step (`Initialise.SelectBehavioural`); with the groundwater reference at -999.0 the script as written raises IndexError at line 41, before the header of line 61 is written, so its 13-name state is never reached (see Findings). A sample file with no data row, which numpy reads as a one-dimensional array and which also makes line 41 raise, is not modelled: a `Matrix` is two-dimensional even with no rows.
- The use of the behavioural rows by `spotpy.parameter.List` and the replay sampler: library code; the constructor stores the rows and nothing more.
- File handle writing, `np.float32` rounding and `str` formatting in `save`: I/O and float precision; records hold the unrounded values.
- Command-line parsing, `__main__` and root-path detection: plumbing.

## Findings

| source | as written | input that shows it | evidently intended | confidence | as-written member | corrected member |
|---|---|---|---|---|---|---|
| spotpy_/spotpy_glue.py:29-42 | `__init__` always picks metric columns `[0, 9, 13]` with three conditions, but column 13 (`GW`) exists only when the groundwater reference differs from -999.0 | settings with `gw_constraint = -999.0`: `obj_fn_names` has 13 names, the sampled metric matrix 13 columns, and `sampled_obj_fns[:, [0, 9, 13]]` raises IndexError; the whole 13-name path (its header and the 13-entry objective list of lines 106-107) is unreachable | pick `[0, 9]` with the conditions min 0.75 and inside (-10, 10) when GW is not scored, and `[0, 9, 13]` with all three otherwise | not executed | `Initialise.SentinelRaisesIndexError` | `Initialise.SelectBehaviouralSucceeds` |
