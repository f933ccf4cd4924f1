/**
 * The state of `SpotPySetUp` that the GLUE replay writes through: the
 * result database, whose first line is the header written by the
 * constructor and every later line one record appended by `save`.
 */
module Setup {
  import opened Float64
  import opened Objectives
  import opened Behavioural
  import opened Initialise

  /** `param_names`: the ten SMART model parameters, in column order. */
  const ParamNames: seq<string> := ["T", "C", "H", "D", "S", "Z", "SK", "FK", "GK", "RK"]

  /** The header line: metric names, then parameter names, then the saved time steps. */
  function Header(objFnNames: seq<string>, paramNames: seq<string>, simuSteps: seq<string>): (header: seq<string>) {
    objFnNames + paramNames + simuSteps
  }

  /** One saved record: objective values, then parameter values, then the simulated series if it is saved. */
  function Record(objFns: seq<Float>, parameters: seq<Float>, simulations: seq<Float>, saveSim: bool): (record: seq<Float>) {
    if saveSim then objFns + parameters + simulations else objFns + parameters
  }

  /**
   * A record built from vectors of the header's lengths has the header's
   * column count, and each column of the record holds the value the header
   * names: metric k under metric name k, parameter k under parameter name k,
   * and, when the series is saved, time step k under time step label k.
   */
  lemma RecordMatchesHeader(objFnNames: seq<string>, paramNames: seq<string>, simuSteps: seq<string>,
                            objFns: seq<Float>, parameters: seq<Float>, simulations: seq<Float>, saveSim: bool)
    requires |objFns| == |objFnNames| && |parameters| == |paramNames|
    requires saveSim ==> |simulations| == |simuSteps|
    requires !saveSim ==> simuSteps == []
    ensures var h, r := Header(objFnNames, paramNames, simuSteps), Record(objFns, parameters, simulations, saveSim);
            && |r| == |h|
            && (forall k :: 0 <= k < |objFns| ==> h[k] == objFnNames[k] && r[k] == objFns[k])
            && (forall k :: 0 <= k < |parameters| ==>
                  h[|objFns| + k] == paramNames[k] && r[|objFns| + k] == parameters[k])
            && (forall k :: 0 <= k < |simuSteps| ==>
                  h[|objFns| + |parameters| + k] == simuSteps[k] &&
                  r[|objFns| + |parameters| + k] == simulations[k])
  {
  }

  /** A line of the result database. */
  datatype Line = HeaderLine(labels: seq<string>) | RecordLine(values: seq<Float>)

  /** A database holds its header as the first line and only records after it. */
  predicate HeaderOnce(lines: seq<Line>, header: seq<string>) {
    && |lines| >= 1
    && lines[0] == HeaderLine(header)
    && forall k :: 1 <= k < |lines| ==> lines[k].RecordLine?
  }

  class SpotPySetUp {
    const saveSim: bool
    const gwConstraint: Float
    const paramNames: seq<string>
    const objFnNames: seq<string>
    const simuSteps: seq<string>
    /** The sampled parameter rows that pass the behavioural conditions. */
    const behaviouralParams: Matrix<Float>
    /** The lines written to `<catchment>.SMART.glue`, in order. */
    var database: seq<Line>

    ghost predicate Valid()
      reads this
    {
      && paramNames == ParamNames
      && objFnNames == ObjFnNames(gwConstraint)
      && (!saveSim ==> simuSteps == [])
      && HeaderOnce(database, Header(objFnNames, paramNames, simuSteps))
    }

    /**
     * `__init__`, given what it reads from the settings, the model and the
     * sample file: the groundwater reference, the save flag, the labels of
     * the observed time steps and the sampled parameter and metric matrices.
     * It chooses the metric names, keeps the behavioural parameter rows
     * (through the corrected selection step, which picks the GW column only
     * when it exists) and writes the header line.
     */
    constructor (gw: Float, saveSimulations: bool, flowSteps: seq<string>,
                 sampledParams: Matrix<Float>, sampledObjFns: Matrix<Float>)
      requires SampledShapes(gw, sampledParams, sampledObjFns)
      ensures Valid()
      ensures SelectBehavioural(gw, sampledParams, sampledObjFns) == Built(behaviouralParams)
      ensures saveSim == saveSimulations && gwConstraint == gw
      ensures simuSteps == if saveSimulations then flowSteps else []
      ensures |objFnNames| == if GwEnabled(gw) then 14 else 13
      ensures database == [HeaderLine(objFnNames + ParamNames + simuSteps)]
    {
      var names := ObjFnNames(gw);
      SelectBehaviouralSucceeds(gw, sampledParams, sampledObjFns);
      behaviouralParams := SelectBehavioural(gw, sampledParams, sampledObjFns).behavioural;
      var steps := if saveSimulations then flowSteps else [];
      saveSim := saveSimulations;
      gwConstraint := gw;
      paramNames := ParamNames;
      objFnNames := names;
      simuSteps := steps;
      database := [HeaderLine(Header(names, ParamNames, steps))];
    }

    /** `save`: append one record line; the header stays the only header, first. */
    method Save(objFns: seq<Float>, parameters: seq<Float>, simulations: seq<Float>)
      requires Valid()
      modifies this
      ensures Valid()
      ensures database == old(database) + [RecordLine(Record(objFns, parameters, simulations, saveSim))]
    {
      database := database + [RecordLine(Record(objFns, parameters, simulations, saveSim))];
    }
  }
}
