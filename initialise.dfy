/**
 * The behavioural selection that `SpotPySetUp.__init__` runs on the sampled
 * matrices: pick three objective columns (NSE, PBias and GW, at indices 0, 9
 * and 13) and filter them with three fixed conditions.
 *
 * `SelectAsWritten` is the step as the script writes it. With the
 * groundwater constraint disabled the objective matrix has only 13 columns,
 * so the pick of column 13 raises before anything else happens
 * (`SentinelRaisesIndexError`). `SelectBehavioural` picks only the columns
 * that exist, with their own conditions; it never raises
 * (`SelectBehaviouralSucceeds`) and agrees with the script whenever the
 * constraint is enabled (`AgreesWhenGwEnabled`).
 */
module Initialise {
  import opened Float64
  import opened Behavioural
  import opened Masking
  import opened Objectives

  datatype Option<T> = None | Some(value: T)

  /** `[:, [0, 9, 13]]`: NSE, PBias and GW in the order of `obj_fn_names`. */
  const PickedColumns: seq<nat> := [0, 9, 13]

  /** `conditions_values`: NSE at least 0.75, PBias inside (-10, 10), GW equal to 1.0. */
  const PickedValues: seq<seq<Float>> := [[Num(0.75)], [Num(-10.0), Num(10.0)], [Num(1.0)]]

  /** `conditions_types` */
  const PickedKinds: seq<string> := ["min", "inside", "equal"]

  /** What the selection step of `__init__` returns or raises. */
  datatype InitOutcome =
    | Built(behavioural: Matrix<Float>)
    | IndexError                        // numpy: index out of bounds for the column axis
    | SelectionError(error: GlueError)  // raised by `get_behavioural_sets`

  /**
   * numpy `m[:, cols]`: the listed columns of every row, in the listed
   * order; `None` stands for the IndexError raised when one of them does
   * not exist.
   */
  function PickColumns(m: Matrix<Float>, cols: seq<nat>): (r: Option<Matrix<Float>>)
    requires m.WellFormed()
    ensures r.Some? <==> forall j :: 0 <= j < |cols| ==> cols[j] < m.width
    ensures r.Some? ==>
              && r.value.WellFormed() && r.value.width == |cols| && |r.value.rows| == |m.rows|
              && forall i, j :: 0 <= i < |m.rows| && 0 <= j < |cols| ==> r.value.rows[i][j] == m.rows[i][cols[j]]
  {
    if forall j :: 0 <= j < |cols| ==> cols[j] < m.width then
      Some(Matrix(|cols|, seq(|m.rows|, i requires 0 <= i < |m.rows| =>
        seq(|cols|, j requires 0 <= j < |cols| => m.rows[i][cols[j]]))))
    else None
  }

  /** The shapes the sample file gives: one row per draw, one column per metric name. */
  predicate SampledShapes(gw: Float, params: Matrix<Float>, objFns: Matrix<Float>) {
    && params.WellFormed() && objFns.WellFormed()
    && |params.rows| == |objFns.rows|
    && objFns.width == |ObjFnNames(gw)|
  }

  /** Lines 39-42 as written. */
  function SelectAsWritten(gw: Float, params: Matrix<Float>, objFns: Matrix<Float>): (r: InitOutcome)
    requires SampledShapes(gw, params, objFns)
  {
    match PickColumns(objFns, PickedColumns)
    case None => IndexError
    case Some(picked) =>
      match BehaviouralSets(params, picked, PickedValues, PickedKinds)
      case Ok(m) => Built(m)
      case Err(e) => SelectionError(e)
  }

  /**
   * With the reference at the sentinel -999.0 the objective matrix has 13
   * columns and the script raises at the pick of column 13, before the
   * header is written: the 13-name configuration never completes.
   */
  lemma SentinelRaisesIndexError(params: Matrix<Float>, objFns: Matrix<Float>)
    requires SampledShapes(GwSentinel, params, objFns)
    ensures SelectAsWritten(GwSentinel, params, objFns) == IndexError
  {
    assert PickedColumns[2] == 13;
  }

  /** The columns that exist for the given reference: GW only when it is scored. */
  function ConditionedColumns(gw: Float): (cols: seq<nat>)
    ensures |cols| == if GwEnabled(gw) then 3 else 2
  {
    if GwEnabled(gw) then PickedColumns else PickedColumns[..2]
  }

  /** The selection step with the pick limited to the columns that exist. */
  function SelectBehavioural(gw: Float, params: Matrix<Float>, objFns: Matrix<Float>): (r: InitOutcome)
    requires SampledShapes(gw, params, objFns)
  {
    var n := |ConditionedColumns(gw)|;
    match PickColumns(objFns, ConditionedColumns(gw))
    case None => IndexError
    case Some(picked) =>
      match BehaviouralSets(params, picked, PickedValues[..n], PickedKinds[..n])
      case Ok(m) => Built(m)
      case Err(e) => SelectionError(e)
  }

  /**
   * For every groundwater setting the corrected step succeeds, and keeps
   * exactly the parameter rows whose NSE is at least 0.75, whose PBias lies
   * in [-10, 10] and, when GW is scored, whose GW equals 1.0.
   */
  lemma {:induction false} SelectBehaviouralSucceeds(gw: Float, params: Matrix<Float>, objFns: Matrix<Float>)
    requires SampledShapes(gw, params, objFns)
    ensures SelectBehavioural(gw, params, objFns).Built?
    ensures var m := SelectBehavioural(gw, params, objFns).behavioural;
            && m.width == params.width
            && m.rows == Masking.Compress(params.rows,
                 seq(|objFns.rows|, i requires 0 <= i < |objFns.rows| => IsBehavioural(gw, objFns.rows[i])))
  {
    var cols := ConditionedColumns(gw);
    var n := |cols|;
    var picked := PickColumns(objFns, cols).value;
    var vals, kinds := PickedValues[..n], PickedKinds[..n];
    assert forall c :: 0 <= c < n ==> ValidCondition(kinds[c], vals[c]);
    ParseAllColumns(kinds, vals);
    var ths := ParseAll(kinds, vals).value;
    forall i | 0 <= i < |objFns.rows|
      ensures AcceptMask(picked.rows, ths)[i] == IsBehavioural(gw, objFns.rows[i])
    {
      assert ths[0] == Min(Num(0.75)) && ths[1] == Inside(Num(-10.0), Num(10.0));
      assert n == 3 ==> ths[2] == Equal(Num(1.0));
      assert Accepts(ths, picked.rows[i]) <==> forall c :: 0 <= c < n ==> Holds(ths[c], objFns.rows[i][cols[c]]);
    }
    assert AcceptMask(picked.rows, ths) ==
           seq(|objFns.rows|, i requires 0 <= i < |objFns.rows| => IsBehavioural(gw, objFns.rows[i]));
  }

  /** The acceptance rule of the configured conditions on one row of the full objective matrix. */
  predicate IsBehavioural(gw: Float, row: seq<Float>)
    requires |row| == |ObjFnNames(gw)|
  {
    && row[0].Num? && row[0].val >= 0.75
    && row[9].Num? && -10.0 <= row[9].val <= 10.0
    && (GwEnabled(gw) ==> row[13].Num? && row[13].val == 1.0)
  }

  /** With the groundwater constraint enabled the corrected step is the script's. */
  lemma AgreesWhenGwEnabled(gw: Float, params: Matrix<Float>, objFns: Matrix<Float>)
    requires SampledShapes(gw, params, objFns)
    requires GwEnabled(gw)
    ensures SelectBehavioural(gw, params, objFns) == SelectAsWritten(gw, params, objFns)
  {
    assert PickedValues[..3] == PickedValues && PickedKinds[..3] == PickedKinds;
  }
}
