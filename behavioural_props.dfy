/**
 * Properties of the GLUE acceptance step `Behavioural.BehaviouralSets`:
 * the errors it raises, the rows it keeps, and the laws the combined
 * condition obeys.
 */
module BehaviouralProperties {
  import opened Float64
  import opened Masking
  import opened Behavioural

  /**
   * The acceptance table, written directly on numbers: what a value must
   * be to pass a well-formed condition of each kind. NaN passes none.
   */
  predicate Meets(kind: string, values: seq<Float>, v: Float)
    requires ValidCondition(kind, values)
  {
    if kind == "equal" then v.Num? && values[0].Num? && v.val == values[0].val
    else if kind == "min" then v.Num? && values[0].Num? && v.val >= values[0].val
    else if kind == "max" then v.Num? && values[0].Num? && v.val <= values[0].val
    else if kind == "inside" then v.Num? && values[0].val <= v.val <= values[1].val
    else v.Num? && v.val <= values[0].val && v.val >= values[1].val
  }

  /** The rows of `rows` that meet every column's condition, by the table above. */
  function ReferenceMask(rows: seq<seq<Float>>, kinds: seq<string>, values: seq<seq<Float>>): (mask: seq<bool>)
    requires |kinds| == |values|
    requires forall c :: 0 <= c < |kinds| ==> ValidCondition(kinds[c], values[c])
    requires forall i :: 0 <= i < |rows| ==> |kinds| <= |rows[i]|
    ensures |mask| == |rows|
  {
    seq(|rows|, i requires 0 <= i < |rows| =>
      forall c :: 0 <= c < |kinds| ==> Meets(kinds[c], values[c], rows[i][c]))
  }

  /** The validated threshold of a condition selects exactly what the table says. */
  lemma ThresholdMeaning(kind: string, values: seq<Float>, v: Float)
    requires ValidCondition(kind, values)
    ensures Holds(ParseCondition(kind, values).value, v) <==> Meets(kind, values, v)
  {
  }

  /**
   * The three ways the filter raises before or while reading the conditions:
   * row counts differ; condition values or kinds differ from the column
   * count; or some condition is malformed, in which case the first malformed
   * column (in column order) decides the error. Otherwise it returns.
   */
  lemma BehaviouralSetsErrors<P>(params: Matrix<P>, objFns: Matrix<Float>,
                                 condVals: seq<seq<Float>>, condKinds: seq<string>, c: nat)
    requires params.WellFormed() && objFns.WellFormed()
    ensures |objFns.rows| != |params.rows| ==>
              BehaviouralSets(params, objFns, condVals, condKinds) == Err(SampleSizeMismatch)
    ensures |objFns.rows| == |params.rows| && (objFns.width != |condVals| || objFns.width != |condKinds|) ==>
              BehaviouralSets(params, objFns, condVals, condKinds) == Err(ConditionDimensionMismatch)
    ensures |objFns.rows| == |params.rows| && objFns.width == |condVals| == |condKinds| ==>
              (BehaviouralSets(params, objFns, condVals, condKinds).Ok? <==>
                 forall j :: 0 <= j < |condKinds| ==> ValidCondition(condKinds[j], condVals[j]))
    ensures |objFns.rows| == |params.rows| && objFns.width == |condVals| == |condKinds| &&
            c < |condKinds| && !ValidCondition(condKinds[c], condVals[c]) &&
            (forall j :: 0 <= j < c ==> ValidCondition(condKinds[j], condVals[j])) ==>
              BehaviouralSets(params, objFns, condVals, condKinds) == Err(ParseCondition(condKinds[c], condVals[c]).error)
  {
    if |objFns.rows| == |params.rows| && objFns.width == |condVals| == |condKinds| {
      ParseAllColumns(condKinds, condVals);
      if c < |condKinds| && !ValidCondition(condKinds[c], condVals[c]) &&
         (forall j :: 0 <= j < c ==> ValidCondition(condKinds[j], condVals[j])) {
        ParseAllFirstError(condKinds, condVals, c);
      }
    }
  }

  /**
   * When the filter returns, it returns the parameter rows whose objective
   * row meets every column's condition, whole and in their original order
   * (by `CompressSpec` and `TrueIndicesSpec`): at most as many
   * rows as the sample, with the parameter matrix's column count.
   */
  lemma {:induction false} BehaviouralRows<P>(params: Matrix<P>, objFns: Matrix<Float>,
                                              condVals: seq<seq<Float>>, condKinds: seq<string>)
    requires params.WellFormed() && objFns.WellFormed()
    requires BehaviouralSets(params, objFns, condVals, condKinds).Ok?
    ensures |condKinds| == |condVals| == objFns.width
    ensures forall c :: 0 <= c < |condKinds| ==> ValidCondition(condKinds[c], condVals[c])
    ensures BehaviouralSets(params, objFns, condVals, condKinds).value ==
              Matrix(params.width, Compress(params.rows, ReferenceMask(objFns.rows, condKinds, condVals)))
  {
    ParseAllColumns(condKinds, condVals);
    var ths := ParseAll(condKinds, condVals).value;
    forall i | 0 <= i < |objFns.rows|
      ensures AcceptMask(objFns.rows, ths)[i] == ReferenceMask(objFns.rows, condKinds, condVals)[i]
    {
      forall c | 0 <= c < |condKinds|
        ensures Holds(ths[c], objFns.rows[i][c]) <==> Meets(condKinds[c], condVals[c], objFns.rows[i][c])
      {
        ThresholdMeaning(condKinds[c], condVals[c], objFns.rows[i][c]);
      }
    }
    assert AcceptMask(objFns.rows, ths) == ReferenceMask(objFns.rows, condKinds, condVals);
  }

  /** With no objective columns and no conditions, every row is returned unchanged. */
  lemma NoConditionsKeepsAll<P>(params: Matrix<P>, objFns: Matrix<Float>)
    requires params.WellFormed() && objFns.WellFormed()
    requires objFns.width == 0 && |objFns.rows| == |params.rows|
    ensures BehaviouralSets(params, objFns, [], []) == Ok(params)
  {
    CompressAllTrue(params.rows, AcceptMask(objFns.rows, []));
  }

  /**
   * `outside` asks for `v <= lo && v >= hi` while validation demands
   * `hi > lo`, so no value passes: one `outside` column empties the result.
   */
  lemma OutsideSelectsNothing<P>(params: Matrix<P>, objFns: Matrix<Float>,
                                 condVals: seq<seq<Float>>, condKinds: seq<string>, c: nat)
    requires params.WellFormed() && objFns.WellFormed()
    requires BehaviouralSets(params, objFns, condVals, condKinds).Ok?
    requires c < |condKinds| && condKinds[c] == "outside"
    ensures BehaviouralSets(params, objFns, condVals, condKinds).value.rows == []
  {
    ParseAllColumns(condKinds, condVals);
    var ths := ParseAll(condKinds, condVals).value;
    assert ths[c].Outside?;
    CompressAllFalse(params.rows, AcceptMask(objFns.rows, ths));
  }

  /**
   * Each further condition can only remove rows: the rows accepted by the
   * first k+1 thresholds are among those accepted by the first k.
   */
  lemma MoreConditionsFewerRows(rows: seq<seq<Float>>, ths: seq<Threshold>, th: Threshold)
    requires forall i :: 0 <= i < |rows| ==> |ths| < |rows[i]|
    ensures forall i :: i in TrueIndices(AcceptMask(rows, ths + [th])) ==> i in TrueIndices(AcceptMask(rows, ths))
    ensures |TrueIndices(AcceptMask(rows, ths + [th]))| <= |TrueIndices(AcceptMask(rows, ths))|
  {
    var selection := seq(|rows|, i requires 0 <= i < |rows| => Holds(th, rows[i][|ths|]));
    forall i | 0 <= i < |rows|
      ensures AcceptMask(rows, ths + [th])[i] == And(AcceptMask(rows, ths), selection)[i]
    {
      AcceptsSnoc(ths, th, rows[i]);
    }
    assert AcceptMask(rows, ths + [th]) == And(AcceptMask(rows, ths), selection);
    AndNarrowsSelection(AcceptMask(rows, ths), selection);
  }

  /** A single `min` column keeps exactly the rows whose value is at least the threshold, boundary included. */
  lemma MinKeepsBoundary<P>(params: Matrix<P>, column: seq<Float>, t: real)
    requires params.WellFormed() && |column| == |params.rows|
    ensures var objFns := Matrix(1, seq(|column|, i requires 0 <= i < |column| => [column[i]]));
            BehaviouralSets(params, objFns, [[Num(t)]], ["min"]) ==
              Ok(Matrix(params.width, Compress(params.rows,
                 seq(|column|, i requires 0 <= i < |column| => column[i].Num? && column[i].val >= t))))
  {
    var objFns := Matrix(1, seq(|column|, i requires 0 <= i < |column| => [column[i]]));
    BehaviouralRows(params, objFns, [[Num(t)]], ["min"]);
    assert ReferenceMask(objFns.rows, ["min"], [[Num(t)]]) ==
           seq(|column|, i requires 0 <= i < |column| => column[i].Num? && column[i].val >= t);
  }

  // ---------------------------------------------------------------------------
  // The combined condition does not depend on the column order

  /** `perm` lists every column index below `w` (and only those), in some order. */
  predicate Reorders(perm: seq<nat>, w: nat) {
    && |perm| == w
    && (forall j :: 0 <= j < w ==> perm[j] < w)
    && (forall c :: 0 <= c < w ==> c in perm)
  }

  function Permute<T>(s: seq<T>, perm: seq<nat>): (r: seq<T>)
    requires forall j :: 0 <= j < |perm| ==> perm[j] < |s|
    ensures |r| == |perm| && forall j :: 0 <= j < |perm| ==> r[j] == s[perm[j]]
  {
    seq(|perm|, j requires 0 <= j < |perm| => s[perm[j]])
  }

  function PermuteColumns(m: Matrix<Float>, perm: seq<nat>): (r: Matrix<Float>)
    requires m.WellFormed() && Reorders(perm, m.width)
    ensures r.WellFormed() && r.width == m.width && |r.rows| == |m.rows|
    ensures forall i :: 0 <= i < |m.rows| ==> r.rows[i] == Permute(m.rows[i], perm)
  {
    Matrix(m.width, seq(|m.rows|, i requires 0 <= i < |m.rows| => Permute(m.rows[i], perm)))
  }

  /**
   * Reordering the objective columns together with their conditions neither
   * changes whether the filter raises nor, when it returns, what it returns.
   * (Which error is raised can change: the first malformed column moves.)
   */
  lemma ColumnOrderIrrelevant<P>(params: Matrix<P>, objFns: Matrix<Float>,
                                 condVals: seq<seq<Float>>, condKinds: seq<string>, perm: seq<nat>)
    requires params.WellFormed() && objFns.WellFormed()
    requires objFns.width == |condVals| == |condKinds|
    requires Reorders(perm, objFns.width)
    ensures var r := BehaviouralSets(params, objFns, condVals, condKinds);
            var r' := BehaviouralSets(params, PermuteColumns(objFns, perm),
                                      Permute(condVals, perm), Permute(condKinds, perm));
            (r.Ok? <==> r'.Ok?) && (r.Ok? ==> r == r')
  {
    var w := objFns.width;
    var objFns', condVals', condKinds' := PermuteColumns(objFns, perm), Permute(condVals, perm), Permute(condKinds, perm);
    if |objFns.rows| == |params.rows| {
      ParseAllColumns(condKinds, condVals);
      ParseAllColumns(condKinds', condVals');
      var allValid := forall c :: 0 <= c < w ==> ValidCondition(condKinds[c], condVals[c]);
      var allValid' := forall j :: 0 <= j < w ==> ValidCondition(condKinds'[j], condVals'[j]);
      if allValid' {
        forall c | 0 <= c < w ensures ValidCondition(condKinds[c], condVals[c]) {
          assert c in perm;
          var j :| 0 <= j < w && perm[j] == c;
        }
      }
      if allValid {
        var ths := ParseAll(condKinds, condVals).value;
        var ths' := ParseAll(condKinds', condVals').value;
        forall i | 0 <= i < |objFns.rows|
          ensures Accepts(ths', objFns'.rows[i]) <==> Accepts(ths, objFns.rows[i])
        {
          var row, row' := objFns.rows[i], objFns'.rows[i];
          assert forall j :: 0 <= j < w ==> ths'[j] == ths[perm[j]] && row'[j] == row[perm[j]];
          if Accepts(ths', row') {
            forall c | 0 <= c < w ensures Holds(ths[c], row[c]) {
              assert c in perm;
              var j :| 0 <= j < w && perm[j] == c;
              assert Holds(ths'[j], row'[j]);
            }
          }
        }
        assert AcceptMask(objFns'.rows, ths') == AcceptMask(objFns.rows, ths);
      }
    }
  }

  // ---------------------------------------------------------------------------
  // Worked examples

  /**
   * Objective column [0.9, 0.3, 0.95, NaN] under `inside (0.75, 1.0)`
   * keeps rows 0 and 2; the missing value is not kept.
   */
  lemma InsideExample()
    ensures BehaviouralSets(Matrix(1, [[10], [11], [12], [13]]),
                            Matrix(1, [[Num(0.9)], [Num(0.3)], [Num(0.95)], [NaN]]),
                            [[Num(0.75), Num(1.0)]], ["inside"])
            == Ok(Matrix(1, [[10], [12]]))
  {
    ExampleParse();
    ExampleMask();
    ExampleCompress();
  }

  lemma ExampleParse()
    ensures ParseAll(["inside"], [[Num(0.75), Num(1.0)]]) == Ok([Inside(Num(0.75), Num(1.0))])
  {
    var kinds, values := ["inside"], [[Num(0.75), Num(1.0)]];
    var th := Inside(Num(0.75), Num(1.0));
    assert kinds[..0] == [] && values[..0] == [];
    assert ParseAll(kinds[..0], values[..0]) == Ok([]);
    assert ParseCondition(kinds[0], values[0]) == Ok(th);
    assert [] + [th] == [th];
  }

  lemma ExampleMask()
    ensures AcceptMask([[Num(0.9)], [Num(0.3)], [Num(0.95)], [NaN]], [Inside(Num(0.75), Num(1.0))])
            == [true, false, true, false]
  {
    var th := Inside(Num(0.75), Num(1.0));
    var rows := [[Num(0.9)], [Num(0.3)], [Num(0.95)], [NaN]];
    assert Accepts([th], rows[0]);
    assert !Holds(th, rows[1][0]);
    assert Accepts([th], rows[2]);
    assert !Holds(th, rows[3][0]);
  }

  lemma ExampleCompress()
    ensures Compress([[10], [11], [12], [13]], [true, false, true, false]) == [[10], [12]]
  {
    var mask := [true, false, true, false];
    var p: seq<seq<int>> := [[10], [11], [12], [13]];
    assert |p[..1][..0]| == 0 && |mask[..1][..0]| == 0;
    assert Compress(p[..1], mask[..1]) == [[10]];
    assert p[..2][..1] == p[..1] && mask[..2][..1] == mask[..1];
    assert Compress(p[..2], mask[..2]) == [[10]];
    assert p[..3][..2] == p[..2] && mask[..3][..2] == mask[..2];
    assert Compress(p[..3], mask[..3]) == [[10], [12]];
    assert p[..4] == p && mask[..4] == mask;
  }

  /** Two conditions for three objective columns raise the dimension error. */
  lemma DimensionExample()
    ensures BehaviouralSets(Matrix(1, [[7]]), Matrix(3, [[Num(1.0), Num(2.0), Num(3.0)]]),
                            [[Num(0.5)], [Num(0.5)]], ["min", "max"])
            == Err(ConditionDimensionMismatch)
  {
  }
}
