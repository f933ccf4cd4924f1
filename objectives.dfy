/**
 * `SpotPySetUp.objectivefunction`: drop the time steps without an
 * observation from both series, score the remaining aligned pair with the
 * fixed battery of metrics, and return the scores in the order of
 * `obj_fn_names`, with the groundwater metric last only when the
 * groundwater constraint is enabled.
 *
 * The metrics themselves are computed by library code; here they are an
 * opaque `MetricSuite` and only their number and order are modelled.
 */
module Objectives {
  import opened Float64
  import opened Masking

  /** The settings value of the groundwater reference that means "no constraint". */
  const GwSentinel: Float := Num(-999.0)

  /** `self.constraints['gw'] == -999.0` is false, so GW is scored and saved. */
  predicate GwEnabled(gw: Float) {
    !Eq(gw, GwSentinel)
  }

  /** The thirteen flow metrics, in the order they are computed and saved. */
  const FlowMetricNames: seq<string> :=
    ["NSE", "lgNSE", "rtNSE", "C2M", "KGE", "KGEc", "KGEa", "KGEb", "Bias", "PBias", "RMSE", "Rho", "MARE"]

  /** `obj_fn_names`: thirteen names, or fourteen with "GW" when the constraint is enabled. */
  function ObjFnNames(gw: Float): (names: seq<string>)
    ensures |names| == if GwEnabled(gw) then 14 else 13
    ensures names[..13] == FlowMetricNames
    ensures GwEnabled(gw) ==> names[13] == "GW"
  {
    if Eq(gw, GwSentinel) then
      ["NSE", "lgNSE", "rtNSE", "C2M", "KGE", "KGEc", "KGEa", "KGEb", "Bias", "PBias", "RMSE", "Rho", "MARE"]
    else
      ["NSE", "lgNSE", "rtNSE", "C2M", "KGE", "KGEc", "KGEa", "KGEb", "Bias", "PBias", "RMSE", "Rho", "MARE", "GW"]
  }

  /** The thirteen flow scores (obj1 ... obj10 with KGE's three components). */
  datatype FlowScores = FlowScores(
    nse: Float, lgNse: Float, rtNse: Float, c2m: Float,
    kge: Float, kgeC: Float, kgeA: Float, kgeB: Float,
    bias: Float, pBias: Float, rmse: Float, rho: Float, mare: Float)

  /**
   * The library metrics, as opaque functions: `flow` takes the masked
   * (observed, simulated) series, `gw` the (reference, simulated) groundwater
   * diagnostics.
   */
  datatype MetricSuite = MetricSuite(flow: (seq<Float>, seq<Float>) -> FlowScores, gw: (Float, Float) -> Float)

  /**
   * `evaluation()`: the observed flow series (NaN = missing) and the
   * groundwater reference `self.constraints['gw']`, which also decides
   * whether GW is scored.
   */
  datatype Evaluation = Evaluation(flow: seq<Float>, gwReference: Float)

  /** `simulation(vector)`: the simulated flow at the observed time steps and the groundwater diagnostic. */
  datatype Simulation = Simulation(flow: seq<Float>, gwDiagnostic: Float)

  /** The pair of series the metrics see. */
  datatype FlowPair = FlowPair(observed: seq<Float>, simulated: seq<Float>)

  /** `~np.isnan(evaluation[0])` */
  function ObservedMask(observed: seq<Float>): (mask: seq<bool>) {
    seq(|observed|, i requires 0 <= i < |observed| => !IsNaN(observed[i]))
  }

  /**
   * `flow_eval` and `flow_simu`: the same mask applied to both series. Both
   * results have one entry per observed (non-NaN) time step; entry k of each
   * comes from the same original index, indices increase, and no NaN is left
   * in the observed result.
   */
  function MaskObserved(observed: seq<Float>, simulated: seq<Float>): (r: FlowPair)
    requires |simulated| == |observed|
    ensures var idx := TrueIndices(ObservedMask(observed));
            && |r.observed| == |r.simulated| == |idx|
            && (forall k :: 0 <= k < |idx| ==>
                  idx[k] < |observed| && r.observed[k] == observed[idx[k]] && r.simulated[k] == simulated[idx[k]])
    ensures forall k :: 0 <= k < |r.observed| ==> !IsNaN(r.observed[k])
    ensures forall i :: 0 <= i < |observed| && !IsNaN(observed[i]) ==> i in TrueIndices(ObservedMask(observed))
  {
    var mask := ObservedMask(observed);
    TrueIndicesSpec(mask);
    CompressSpec(observed, mask);
    CompressSpec(simulated, mask);
    FlowPair(Compress(observed, mask), Compress(simulated, mask))
  }

  /** The objective list `objectivefunction` returns, given the computed scores. */
  function ObjectiveVector(s: FlowScores, gwScore: Float, gw: Float): (objectives: seq<Float>)
  {
    if Eq(gw, GwSentinel) then
      [s.nse, s.lgNse, s.rtNse, s.c2m, s.kge, s.kgeC, s.kgeA, s.kgeB, s.bias, s.pBias, s.rmse, s.rho, s.mare]
    else
      [s.nse, s.lgNse, s.rtNse, s.c2m, s.kge, s.kgeC, s.kgeA, s.kgeB, s.bias, s.pBias, s.rmse, s.rho, s.mare, gwScore]
  }

  /** The score a metric name stands for. */
  function ScoreNamed(s: FlowScores, gwScore: Float, name: string): (score: Float) {
    match name
    case "NSE" => s.nse
    case "lgNSE" => s.lgNse
    case "rtNSE" => s.rtNse
    case "C2M" => s.c2m
    case "KGE" => s.kge
    case "KGEc" => s.kgeC
    case "KGEa" => s.kgeA
    case "KGEb" => s.kgeB
    case "Bias" => s.bias
    case "PBias" => s.pBias
    case "RMSE" => s.rmse
    case "Rho" => s.rho
    case "MARE" => s.mare
    case "GW" => gwScore
    case _ => NaN
  }

  /** The objective list lines up with `obj_fn_names` entry for entry. */
  lemma ObjectivesMatchNames(s: FlowScores, gwScore: Float, gw: Float)
    ensures |ObjectiveVector(s, gwScore, gw)| == |ObjFnNames(gw)|
    ensures forall k :: 0 <= k < |ObjFnNames(gw)| ==>
              ObjectiveVector(s, gwScore, gw)[k] == ScoreNamed(s, gwScore, ObjFnNames(gw)[k])
  {
  }

  /**
   * `objectivefunction(simulation, evaluation)`: mask, score, and list the
   * scores in the order of `obj_fn_names`, each under its own name.
   */
  function ObjectiveFunction(sim: Simulation, eval: Evaluation, suite: MetricSuite): (r: seq<Float>)
    requires |sim.flow| == |eval.flow|
    ensures var pair := MaskObserved(eval.flow, sim.flow);
            var scores := suite.flow(pair.observed, pair.simulated);
            var gwScore := suite.gw(eval.gwReference, sim.gwDiagnostic);
            && |r| == |ObjFnNames(eval.gwReference)|
            && forall k :: 0 <= k < |r| ==> r[k] == ScoreNamed(scores, gwScore, ObjFnNames(eval.gwReference)[k])
  {
    var pair := MaskObserved(eval.flow, sim.flow);
    var scores := suite.flow(pair.observed, pair.simulated);
    var gwScore := suite.gw(eval.gwReference, sim.gwDiagnostic);
    ObjectivesMatchNames(scores, gwScore, eval.gwReference);
    ObjectiveVector(scores, gwScore, eval.gwReference)
  }

  /** With no missing observation, both series reach the metrics unchanged. */
  lemma MaskKeepsCompleteSeries(observed: seq<Float>, simulated: seq<Float>)
    requires |simulated| == |observed|
    requires forall i :: 0 <= i < |observed| ==> !IsNaN(observed[i])
    ensures MaskObserved(observed, simulated) == FlowPair(observed, simulated)
  {
    CompressAllTrue(observed, ObservedMask(observed));
    CompressAllTrue(simulated, ObservedMask(observed));
  }

  /**
   * What is simulated at a time step without an observation never reaches a
   * metric: two simulations that agree at every observed time step (and on
   * the groundwater diagnostic) score the same.
   */
  lemma UnobservedStepsIgnored(sim: Simulation, sim': Simulation, eval: Evaluation, suite: MetricSuite)
    requires |sim.flow| == |sim'.flow| == |eval.flow|
    requires forall i :: 0 <= i < |eval.flow| && !IsNaN(eval.flow[i]) ==> sim.flow[i] == sim'.flow[i]
    requires sim.gwDiagnostic == sim'.gwDiagnostic
    ensures ObjectiveFunction(sim, eval, suite) == ObjectiveFunction(sim', eval, suite)
  {
    var mask := ObservedMask(eval.flow);
    CompressCongruent(sim.flow, mask, sim'.flow, mask);
    assert MaskObserved(eval.flow, sim.flow) == MaskObserved(eval.flow, sim'.flow);
  }

  /** observed = [1.0, NaN, 3.0], simulated = [1.1, 9.9, 2.9]: only indices 0 and 2 are scored. */
  lemma MaskExample()
    ensures MaskObserved([Num(1.0), NaN, Num(3.0)], [Num(1.1), Num(9.9), Num(2.9)])
            == FlowPair([Num(1.0), Num(3.0)], [Num(1.1), Num(2.9)])
  {
    var obs := [Num(1.0), NaN, Num(3.0)];
    assert ObservedMask(obs) == [true, false, true];
    CompressFirstAndLast(obs);
    CompressFirstAndLast([Num(1.1), Num(9.9), Num(2.9)]);
  }

  lemma CompressFirstAndLast(s: seq<Float>)
    requires |s| == 3
    ensures Compress(s, [true, false, true]) == [s[0], s[2]]
  {
    var mask := [true, false, true];
    assert mask[..2][..1] == [true] && s[..2][..1] == [s[0]];
    assert Compress(s[..2][..1], mask[..2][..1]) == [s[0]];
    assert Compress(s[..2], mask[..2]) == [s[0]];
  }
}
