/**
 * The GLUE acceptance step, `get_behavioural_sets`: given the sampled
 * parameter matrix, the matching matrix of objective-function values and one
 * threshold condition per objective column, keep the parameter rows whose
 * objective values satisfy every condition.
 *
 * `BehaviouralSets` is the specification (a function); `GetBehaviouralSets`
 * is the routine as the script runs it, a boolean mask that starts all true
 * and is ANDed with one column's selection at a time.
 */
module Behavioural {
  import opened Float64
  import opened Masking

  /** A 2-D numpy array: a row count, a column count and rectangular rows. */
  datatype Matrix<T> = Matrix(width: nat, rows: seq<seq<T>>) {
    predicate WellFormed() {
      forall i :: 0 <= i < |rows| ==> |rows[i]| == width
    }
  }

  /** The exceptions `get_behavioural_sets` raises, one per distinct message. */
  datatype GlueError =
    | SampleSizeMismatch                 // objective and parameter matrices differ in row count
    | ConditionDimensionMismatch         // condition values or kinds differ from the column count
    | WrongArity(kind: string)           // the value tuple has the wrong number of elements
    | InconsistentBounds(kind: string)   // inside/outside whose second value is not above the first
    | UnknownKind(kind: string)          // "The type of threshold ... is not in the database."

  datatype Result<T> = Ok(value: T) | Err(error: GlueError)

  /** A condition that passed validation. */
  datatype Threshold =
    | Equal(t: Float)
    | Min(t: Float)
    | Max(t: Float)
    | Inside(lo: Float, hi: Float)
    | Outside(lo: Float, hi: Float)

  const SingleValueKinds: set<string> := {"equal", "min", "max"}
  const IntervalKinds: set<string> := {"inside", "outside"}

  /** The per-value selection of one column: `selection = obj_fn <op> values`. */
  predicate Holds(th: Threshold, v: Float) {
    match th
    case Equal(t) => Eq(v, t)
    case Min(t) => Ge(v, t)
    case Max(t) => Le(v, t)
    case Inside(lo, hi) => Ge(v, lo) && Le(v, hi)
    case Outside(lo, hi) => Le(v, lo) && Ge(v, hi)
  }

  /** The shape a condition must have to be accepted. */
  predicate ValidCondition(kind: string, values: seq<Float>) {
    || (kind in SingleValueKinds && |values| == 1)
    || (kind in IntervalKinds && |values| == 2 && Gt(values[1], values[0]))
  }

  /** Validation of one (kind, values) pair, raising as the script does. */
  function ParseCondition(kind: string, values: seq<Float>): (r: Result<Threshold>)
    ensures r.Ok? <==> ValidCondition(kind, values)
    ensures kind !in SingleValueKinds + IntervalKinds ==> r == Err(UnknownKind(kind))
    ensures kind in SingleValueKinds && |values| != 1 ==> r == Err(WrongArity(kind))
    ensures kind in IntervalKinds && |values| != 2 ==> r == Err(WrongArity(kind))
    ensures kind in IntervalKinds && |values| == 2 && !Gt(values[1], values[0]) ==>
              r == Err(InconsistentBounds(kind))
  {
    if kind == "equal" then
      if |values| == 1 then Ok(Equal(values[0])) else Err(WrongArity(kind))
    else if kind == "min" then
      if |values| == 1 then Ok(Min(values[0])) else Err(WrongArity(kind))
    else if kind == "max" then
      if |values| == 1 then Ok(Max(values[0])) else Err(WrongArity(kind))
    else if kind == "inside" then
      if |values| == 2 then
        if Gt(values[1], values[0]) then Ok(Inside(values[0], values[1]))
        else Err(InconsistentBounds(kind))
      else Err(WrongArity(kind))
    else if kind == "outside" then
      if |values| == 2 then
        if Gt(values[1], values[0]) then Ok(Outside(values[0], values[1]))
        else Err(InconsistentBounds(kind))
      else Err(WrongArity(kind))
    else Err(UnknownKind(kind))
  }

  /**
   * Validation of all conditions in column order; the first column whose
   * condition is rejected decides the error, as the loop raises there.
   */
  function ParseAll(kinds: seq<string>, values: seq<seq<Float>>): (r: Result<seq<Threshold>>)
    requires |kinds| == |values|
    ensures r.Ok? ==> |r.value| == |kinds|
    decreases |kinds|
  {
    if kinds == [] then Ok([])
    else
      var n := |kinds| - 1;
      match ParseAll(kinds[..n], values[..n])
      case Err(e) => Err(e)
      case Ok(ths) =>
        match ParseCondition(kinds[n], values[n])
        case Err(e) => Err(e)
        case Ok(th) => Ok(ths + [th])
  }

  /** A row of objective values satisfies the first |ths| conditions. */
  predicate Accepts(ths: seq<Threshold>, row: seq<Float>)
    requires |ths| <= |row|
  {
    forall c :: 0 <= c < |ths| ==> Holds(ths[c], row[c])
  }

  /** The final `behavioural` mask: one entry per sample row. */
  function AcceptMask(rows: seq<seq<Float>>, ths: seq<Threshold>): (mask: seq<bool>)
    requires forall i :: 0 <= i < |rows| ==> |ths| <= |rows[i]|
  {
    seq(|rows|, i requires 0 <= i < |rows| => Accepts(ths, rows[i]))
  }

  /** What `get_behavioural_sets(params, obj_fns, conditions_val, conditions_typ)` returns or raises. */
  function BehaviouralSets<P>(params: Matrix<P>, objFns: Matrix<Float>,
                              condVals: seq<seq<Float>>, condKinds: seq<string>): (r: Result<Matrix<P>>)
    requires params.WellFormed() && objFns.WellFormed()
  {
    if |objFns.rows| != |params.rows| then Err(SampleSizeMismatch)
    else if !(objFns.width == |condVals| && objFns.width == |condKinds|) then Err(ConditionDimensionMismatch)
    else
      match ParseAll(condKinds, condVals)
      case Err(e) => Err(e)
      case Ok(ths) => Ok(Matrix(params.width, Compress(params.rows, AcceptMask(objFns.rows, ths))))
  }

  // ---------------------------------------------------------------------------
  // Facts about validation

  /** Every condition is validated into its own column's threshold. */
  lemma {:induction false} ParseAllColumns(kinds: seq<string>, values: seq<seq<Float>>)
    requires |kinds| == |values|
    ensures ParseAll(kinds, values).Ok? <==> forall c :: 0 <= c < |kinds| ==> ValidCondition(kinds[c], values[c])
    ensures ParseAll(kinds, values).Ok? ==>
              forall c :: 0 <= c < |kinds| ==> ParseCondition(kinds[c], values[c]) == Ok(ParseAll(kinds, values).value[c])
    decreases |kinds|
  {
    if kinds != [] {
      var n := |kinds| - 1;
      ParseAllColumns(kinds[..n], values[..n]);
      assert forall c :: 0 <= c < n ==> kinds[..n][c] == kinds[c] && values[..n][c] == values[c];
    }
  }

  /** The error raised is that of the first column whose condition is rejected. */
  lemma {:induction false} ParseAllFirstError(kinds: seq<string>, values: seq<seq<Float>>, c: nat)
    requires |kinds| == |values|
    requires c < |kinds|
    requires forall j :: 0 <= j < c ==> ValidCondition(kinds[j], values[j])
    requires !ValidCondition(kinds[c], values[c])
    ensures ParseAll(kinds, values) == Err(ParseCondition(kinds[c], values[c]).error)
    decreases |kinds|
  {
    var n := |kinds| - 1;
    assert forall j :: 0 <= j < n ==> kinds[..n][j] == kinds[j] && values[..n][j] == values[j];
    if c < n {
      ParseAllFirstError(kinds[..n], values[..n], c);
    } else {
      ParseAllColumns(kinds[..n], values[..n]);
    }
  }

  // ---------------------------------------------------------------------------
  // The routine as the script runs it

  lemma AcceptsSnoc(ths: seq<Threshold>, th: Threshold, row: seq<Float>)
    requires |ths| < |row|
    ensures Accepts(ths + [th], row) <==> Accepts(ths, row) && Holds(th, row[|ths|])
  {
    assert forall c :: 0 <= c < |ths| ==> (ths + [th])[c] == ths[c];
  }

  lemma ParseAllSnoc(kinds: seq<string>, values: seq<seq<Float>>, c: nat)
    requires |kinds| == |values| && c < |kinds|
    ensures ParseAll(kinds[..c + 1], values[..c + 1]) ==
              match ParseAll(kinds[..c], values[..c])
              case Err(e) => Err(e)
              case Ok(ths) =>
                match ParseCondition(kinds[c], values[c])
                case Err(e) => Err(e)
                case Ok(th) => Ok(ths + [th])
  {
    assert kinds[..c + 1][..c] == kinds[..c];
    assert values[..c + 1][..c] == values[..c];
  }

  /** An error in a prefix of the conditions is the error of all of them. */
  lemma {:induction false} ParseAllPrefixError(kinds: seq<string>, values: seq<seq<Float>>, c: nat)
    requires |kinds| == |values| && c <= |kinds|
    requires ParseAll(kinds[..c], values[..c]).Err?
    ensures ParseAll(kinds, values) == ParseAll(kinds[..c], values[..c])
    decreases |kinds| - c
  {
    if c < |kinds| {
      ParseAllSnoc(kinds, values, c);
      ParseAllPrefixError(kinds, values, c + 1);
    } else {
      assert kinds[..c] == kinds && values[..c] == values;
    }
  }

  /** `selection = obj_fn <op> values` for column `c`: one entry per sample row. */
  function Selection(rows: seq<seq<Float>>, th: Threshold, c: nat): (selection: seq<bool>)
    requires forall i :: 0 <= i < |rows| ==> c < |rows[i]|
  {
    seq(|rows|, i requires 0 <= i < |rows| => Holds(th, rows[i][c]))
  }

  /**
   * `behavioural *= selection` for the selection of column `c` under `th`:
   * the new mask is the element-wise AND of the old one with the column's
   * selection, so it accepts exactly the rows passing the first c+1 thresholds.
   */
  method AndColumn(behavioural: array<bool>, rows: seq<seq<Float>>, ghost ths: seq<Threshold>, th: Threshold, c: nat)
    requires behavioural.Length == |rows|
    requires c == |ths|
    requires forall i :: 0 <= i < |rows| ==> c < |rows[i]|
    requires forall i :: 0 <= i < |rows| ==> behavioural[i] == Accepts(ths, rows[i])
    modifies behavioural
    ensures behavioural[..] == And(old(behavioural[..]), Selection(rows, th, c))
    ensures forall i :: 0 <= i < |rows| ==> behavioural[i] == Accepts(ths + [th], rows[i])
  {
    var i := 0;
    while i < behavioural.Length
      invariant 0 <= i <= behavioural.Length
      invariant forall j :: 0 <= j < i ==> behavioural[j] == Accepts(ths + [th], rows[j])
      invariant forall j :: i <= j < behavioural.Length ==> behavioural[j] == Accepts(ths, rows[j])
    {
      AcceptsSnoc(ths, th, rows[i]);
      behavioural[i] := behavioural[i] && Holds(th, rows[i][c]);
      i := i + 1;
    }
    forall j | 0 <= j < |rows|
      ensures behavioural[..][j] == And(old(behavioural[..]), Selection(rows, th, c))[j]
    {
      AcceptsSnoc(ths, th, rows[j]);
    }
  }

  /** `params[behavioural, :]`: the rows whose mask entry is true, in order. */
  method KeepRows<P>(rows: seq<seq<P>>, behavioural: array<bool>) returns (kept: seq<seq<P>>)
    requires behavioural.Length == |rows|
    ensures kept == Compress(rows, behavioural[..])
  {
    kept := [];
    var i := 0;
    while i < |rows|
      invariant 0 <= i <= |rows|
      invariant kept == Compress(rows[..i], behavioural[..i])
    {
      assert rows[..i + 1][..i] == rows[..i];
      assert behavioural[..i + 1][..i] == behavioural[..i];
      if behavioural[i] {
        kept := kept + [rows[i]];
      }
      i := i + 1;
    }
    assert rows[..i] == rows && behavioural[..i] == behavioural[..];
  }

  /**
   * `get_behavioural_sets`: check the shapes, then AND one column's
   * selection at a time into a mask that starts all true, raising at the
   * first malformed condition; finally keep the masked parameter rows.
   */
  method GetBehaviouralSets<P>(params: Matrix<P>, objFns: Matrix<Float>,
                               condVals: seq<seq<Float>>, condKinds: seq<string>)
    returns (r: Result<Matrix<P>>)
    requires params.WellFormed() && objFns.WellFormed()
    ensures r == BehaviouralSets(params, objFns, condVals, condKinds)
  {
    if |objFns.rows| != |params.rows| {
      return Err(SampleSizeMismatch);
    }
    if !(objFns.width == |condVals| && objFns.width == |condKinds|) {
      return Err(ConditionDimensionMismatch);
    }
    var behavioural := new bool[|objFns.rows|](_ => true);
    ghost var ths: seq<Threshold> := [];
    var c := 0;
    while c < objFns.width
      invariant 0 <= c <= objFns.width
      invariant ParseAll(condKinds[..c], condVals[..c]) == Ok(ths)
      invariant forall i :: 0 <= i < |objFns.rows| ==> behavioural[i] == Accepts(ths, objFns.rows[i])
    {
      ParseAllSnoc(condKinds, condVals, c);
      var parsed := ParseCondition(condKinds[c], condVals[c]);
      if parsed.Err? {
        ParseAllPrefixError(condKinds, condVals, c + 1);
        return Err(parsed.error);
      }
      AndColumn(behavioural, objFns.rows, ths, parsed.value, c);
      ths := ths + [parsed.value];
      c := c + 1;
    }
    assert condKinds[..c] == condKinds && condVals[..c] == condVals;
    assert behavioural[..] == AcceptMask(objFns.rows, ths);
    var kept := KeepRows(params.rows, behavioural);
    return Ok(Matrix(params.width, kept));
  }
}
