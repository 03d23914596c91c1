/**
 * `CircleGenerator.generate_cfg`: checks that the time window was supplied,
 * then writes the additional file (routes and rerouters), the view settings
 * and the master run configuration, all named after the scenario.
 */
module ScenarioConfig {
  import opened Wrappers
  import opened Network
  import opened Routes
  import Placement

  /** The scenario parameter dictionary; only the two time bounds are read here. */
  type Params = map<string, int>

  /** The `ValueError` raised for a missing required parameter, naming it. */
  datatype ConfigError = MissingParameter(field: string)

  /** The text of the raised error. */
  function Message(e: ConfigError): (m: string)
    ensures e.field <= m
  {
    e.field + " of circle not supplied"
  }

  /** The additional file: the route elements, then the rerouters. */
  datatype Additional = Additional(routes: seq<RouteElement>, rerouters: seq<Rerouter>)

  /** The `input` block of the master configuration: the files the simulator loads. */
  datatype SumoInputs = SumoInputs(net: string, add: string, rou: string, gui: string)

  /** The master run configuration; the output block comes from the base class and is not modelled. */
  datatype SumoConfig = SumoConfig(inputs: SumoInputs, begin: int, end: int)

  /** Everything a successful `generate_cfg` produces. */
  datatype CfgArtifacts = CfgArtifacts(
    additional: Additional,
    guiScheme: string,
    config: SumoConfig,
    written: seq<string>,
    roufn: string,
    cfgfn: string)

  /**
   * `generate_cfg`: fails naming `start_time` when it is absent, otherwise naming
   * `end_time` when that is absent; only with both present does it write anything.
   * On success the configuration holds the supplied window, loads the net file
   * from the network phase, the additional and view files it just wrote, and the
   * route file `<name>.rou.xml`.
   */
  function GenerateCfg(params: Params, ctx: NetContext, cfgPath: string): (r: Result<CfgArtifacts, ConfigError>)
    ensures r.Failure? <==> "start_time" !in params || "end_time" !in params
    ensures "start_time" !in params ==> r == Failure(MissingParameter("start_time"))
    ensures "start_time" in params && "end_time" !in params ==> r == Failure(MissingParameter("end_time"))
    ensures r.Success? ==>
              var a := r.value;
              && a.config.begin == params["start_time"] && a.config.end == params["end_time"]
              && a.config.inputs == SumoInputs(ctx.netfn, a.config.inputs.add, a.roufn, a.config.inputs.gui)
              && a.written == [cfgPath + a.config.inputs.add, cfgPath + a.config.inputs.gui, cfgPath + a.cfgfn]
              && a.additional == Additional(RouteElements(), Rerouters)
              && a.guiScheme == "real world"
              && ctx.name <= a.roufn && ctx.name <= a.cfgfn
              && ctx.name <= a.config.inputs.add && ctx.name <= a.config.inputs.gui
  {
    if "start_time" !in params then Failure(MissingParameter("start_time"))
    else if "end_time" !in params then Failure(MissingParameter("end_time"))
    else
      var startTime := params["start_time"];
      var endTime := params["end_time"];
      var roufn := ctx.name + ".rou.xml";
      var addfn := ctx.name + ".add.xml";
      var cfgfn := ctx.name + ".sumo.cfg";
      var guifn := ctx.name + ".gui.cfg";
      Success(CfgArtifacts(
        Additional(RouteElements(), Rerouters),
        "real world",
        SumoConfig(SumoInputs(ctx.netfn, addfn, roufn, guifn), startTime, endTime),
        [cfgPath + addfn, cfgPath + guifn, cfgPath + cfgfn],
        roufn,
        cfgfn))
  }

  /** The four file names `generate_cfg` derives from the scenario name are pairwise distinct. */
  lemma CfgFilesDistinct(params: Params, ctx: NetContext, cfgPath: string)
    requires GenerateCfg(params, ctx, cfgPath).Success?
    ensures var a := GenerateCfg(params, ctx, cfgPath).value;
            var fs := [a.config.inputs.add, a.config.inputs.gui, a.cfgfn, a.roufn];
            forall i, j :: 0 <= i < j < 4 ==> fs[i] != fs[j]
  {
    var a := GenerateCfg(params, ctx, cfgPath).value;
    DistinctSuffixes(ctx.name, ".add.xml", ".gui.cfg");
    DistinctSuffixes(ctx.name, ".add.xml", ".rou.xml");
    DistinctSuffixes(ctx.name, ".gui.cfg", ".rou.xml");
  }

  /**
   * Every rerouter in the additional file targets the id of a route written to the
   * same file, so the simulator can resolve each reroute.
   */
  lemma AdditionalReferencesResolve(params: Params, ctx: NetContext, cfgPath: string)
    requires GenerateCfg(params, ctx, cfgPath).Success?
    ensures var add := GenerateCfg(params, ctx, cfgPath).value.additional;
            forall k :: 0 <= k < |add.rerouters| ==>
              exists i :: 0 <= i < |add.routes| && add.routes[i].id == add.rerouters[k].target
  {
    RerouterTargets();
  }

  /**
   * The two phases agree. The master configuration is written under `cfgPath` and
   * loads its net file relative to it. The netconvert command writes that very
   * file under `cfgPath`, overriding the output named in the netconvert
   * configuration. The scenario name carries over.
   */
  lemma PhasesAgree(base: string, length: real, lanes: int, speedLimit: real,
                    netPath: string, cfgPath: string, params: Params)
    requires "start_time" in params && "end_time" in params
    ensures var net := GenerateNet(base, length, lanes, speedLimit, netPath, cfgPath);
            var r := GenerateCfg(params, net.context, cfgPath);
            && r.Success?
            && r.value.config.inputs.net == net.netconvert.outputFile
            && r.value.written[2] == cfgPath + r.value.cfgfn
            && net.command == "netconvert -c " + net.written[3] + " --output-file=" + cfgPath + r.value.config.inputs.net
            && ScenarioName(base, length, lanes) <= r.value.cfgfn
  {
  }

  /**
   * Both rerouters are active over the whole configured window exactly when the
   * window lies inside their fixed interval [0, 100000]; past 100000 nothing is
   * rerouted, whatever `end_time` says.
   */
  lemma ReroutersCoverWindow(params: Params, ctx: NetContext, cfgPath: string)
    requires GenerateCfg(params, ctx, cfgPath).Success?
    ensures var a := GenerateCfg(params, ctx, cfgPath).value;
            forall k :: 0 <= k < |a.additional.rerouters| ==>
              (a.additional.rerouters[k].begin <= a.config.begin && a.config.end <= a.additional.rerouters[k].end
               <==> 0 <= params["start_time"] && params["end_time"] <= 100000)
  {
    RerouterTargets();
  }

  /**
   * When every position names one of the four edges, every placed vehicle's
   * route is the id of a route written to the additional file.
   */
  lemma VehicleRoutesResolve(types: seq<Placement.TypeParam>, numCars: int, shuffle: bool, draws: seq<nat>,
                             positions: seq<Placement.Position>)
    requires shuffle ==> |draws| == |Placement.VehicleIds(types, numCars)|
    requires forall k :: 0 <= k < |positions| ==> ParseCardinal(positions[k].route).Some?
    requires Placement.MakeRoutes(types, numCars, shuffle, draws, positions).Success?
    requires types != []
    ensures var vs := Placement.MakeRoutes(types, numCars, shuffle, draws, positions).value.value.vehicles;
            forall k :: 0 <= k < |vs| ==>
              exists i :: 0 <= i < |RouteElements()| && RouteElements()[i].id == vs[k].route
  {
    var vs := Placement.MakeRoutes(types, numCars, shuffle, draws, positions).value.value.vehicles;
    RouteTableKeys();
    forall k | 0 <= k < |vs|
      ensures exists i :: 0 <= i < |RouteElements()| && RouteElements()[i].id == vs[k].route
    {
      var c := ParseCardinal(positions[k].route).value;
      ParseCardinalName(c, positions[k].route);
      var i :| 0 <= i < 4 && RouteTable[i].key == c;
      assert RouteElements()[i].id == vs[k].route;
    }
  }
}
