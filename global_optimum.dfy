/** The search for the INCAR settings that converge fastest: a minimiser
    proposes points of the INCAR grid, each point either has a known loss or
    is launched as a relaxation followed by the next search step, and the
    relaxation reports its loss from the electronic and ionic steps it ran.
    The minimiser itself is external: its calls are a given sequence of
    points. */
module GlobalOptimum {
  import opened Results
  import opened Fireworks

  /** A point of the grid: one value per grid key, in key order. */
  type Params = seq<IncarValue>

  /** `incar_grid`: its items in insertion order, each key with the values
      to try. Python dictionaries do not repeat keys. */
  type Grid = seq<(string, seq<IncarValue>)>

  ghost predicate DistinctKeys(grid: Grid)
  {
    forall m, n :: 0 <= m < n < |grid| ==> grid[m].0 != grid[n].0
  }

  // ---------------------------------------------------------------- the minimiser and its inputs

  datatype Minimizer = ForestMinimize | GbrtMinimize | GpMinimize

  /** The `minimizer` argument: a name, or a minimiser passed on by an
      earlier step. */
  datatype MinimizerArg = MinimizerName(name: string) | MinimizerFunction(f: Minimizer)

  /** "forest", "grbt" and "gp" select the three minimisers, "forest" when
      the argument is absent; any other name stays a name, which cannot be
      called. */
  function SelectMinimizer(arg: Option<MinimizerArg>): (r: MinimizerArg)
    ensures arg.None? ==> r == MinimizerFunction(ForestMinimize)
    ensures arg == Some(MinimizerName("forest")) ==> r == MinimizerFunction(ForestMinimize)
    ensures arg == Some(MinimizerName("grbt")) ==> r == MinimizerFunction(GbrtMinimize)
    ensures arg == Some(MinimizerName("gp")) ==> r == MinimizerFunction(GpMinimize)
    ensures r.MinimizerName? <==> arg.Some? && arg.value.MinimizerName? && arg.value.name !in {"forest", "grbt", "gp"}
    ensures arg.Some? && arg.value.MinimizerFunction? ==> r == arg.value
  {
    var a := if arg.Some? then arg.value else MinimizerName("forest");
    if a == MinimizerName("forest") then MinimizerFunction(ForestMinimize)
    else if a == MinimizerName("grbt") then MinimizerFunction(GbrtMinimize)
    else if a == MinimizerName("gp") then MinimizerFunction(GpMinimize)
    else a
  }

  /** A step with parents reads the results pushed to its spec; a first
      step reads the results it was given. */
  function PreviousResults(hasParents: bool, given: Option<map<Params, real>>,
                           specResults: Option<map<Params, real>>): (r: Option<map<Params, real>>)
    ensures hasParents ==> r == specResults
    ensures !hasParents ==> r == given
  {
    if hasParents then specResults else given
  }

  /** `max_fw` when fewer than 100 results are known, else 100. */
  function NCalls(known: nat, maxFw: int): (r: int)
    ensures known < 100 ==> r == maxFw
    ensures known >= 100 ==> r == 100
  {
    if known < 100 then maxFw else 100
  }

  /** `p_t`: the value domains of the grid, in key order. */
  function SearchSpace(grid: Grid): (r: seq<seq<IncarValue>>)
    ensures |r| == |grid| && forall n :: 0 <= n < |grid| ==> r[n] == grid[n].1
  {
    seq(|grid|, n requires 0 <= n < |grid| => grid[n].1)
  }

  method BuildSearchSpace(grid: Grid) returns (pT: seq<seq<IncarValue>>)
    ensures pT == SearchSpace(grid)
  {
    pT := [];
    for n := 0 to |grid|
      invariant pT == SearchSpace(grid[..n])
    {
      pT := pT + [grid[n].1];
    }
    assert grid[..|grid|] == grid;
  }

  /** A point the minimiser may propose: one value from each domain. */
  ghost predicate InSpace(space: seq<seq<IncarValue>>, params: Params)
  {
    |params| == |space| && forall n :: 0 <= n < |space| ==> params[n] in space[n]
  }

  // ---------------------------------------------------------------- the INCAR update of a point

  datatype SearchError =
    | IncarIndexError | EmptyElectronicSteps | EmptyIonicSteps | UnknownMetric(metric: string)
    | UncallableMinimizer(name: string)

  /** The settings a point gives, key by key in grid order (a later key
      overwriting an equal earlier one, as a dictionary assignment does). */
  function UpdateMap(grid: Grid, params: Params): Incar
    requires |params| >= |grid|
  {
    if grid == [] then map[]
    else UpdateMap(grid[..|grid| - 1], params)[grid[|grid| - 1].0 := params[|grid| - 1]]
  }

  /** `incar_update[key_n] = params[n]` over the grid's keys, failing when
      the point has fewer values than the grid has keys. */
  function IncarUpdateOf(grid: Grid, params: Params): Result<Incar, SearchError>
  {
    if |params| < |grid| then Err(IncarIndexError) else Ok(UpdateMap(grid, params))
  }

  method IncarUpdate(grid: Grid, params: Params) returns (r: Result<Incar, SearchError>)
    ensures r == IncarUpdateOf(grid, params)
  {
    var update: Incar := map[];
    for n := 0 to |grid|
      invariant n <= |params| && update == UpdateMap(grid[..n], params)
    {
      if n >= |params| {
        return Err(IncarIndexError);
      }
      assert grid[..n + 1][..n] == grid[..n];
      update := update[grid[n].0 := params[n]];
    }
    assert grid[..|grid|] == grid;
    return Ok(update);
  }

  /** The update sets each key of the grid, and no other; with distinct
      keys, each to the point's value at that key's position. */
  lemma {:induction false} UpdateMapMeaning(grid: Grid, params: Params)
    requires |params| >= |grid|
    ensures UpdateMap(grid, params).Keys == set n | 0 <= n < |grid| :: grid[n].0
    ensures DistinctKeys(grid) ==> forall n :: 0 <= n < |grid| ==> UpdateMap(grid, params)[grid[n].0] == params[n]
  {
    if grid != [] {
      var init := grid[..|grid| - 1];
      UpdateMapMeaning(init, params);
      assert forall n :: 0 <= n < |init| ==> init[n] == grid[n];
      var keys := set n | 0 <= n < |grid| :: grid[n].0;
      var initKeys := set n | 0 <= n < |init| :: init[n].0;
      assert keys == initKeys + {grid[|grid| - 1].0} by {
        forall k | k in keys ensures k in initKeys + {grid[|grid| - 1].0} {
          var n :| 0 <= n < |grid| && grid[n].0 == k;
          if n < |init| { assert init[n].0 == k; }
        }
      }
    }
  }

  /** For a point of the search space, the value the update gives a key is
      one of that key's own values. */
  lemma GridKeyOrder(grid: Grid, params: Params)
    requires DistinctKeys(grid) && InSpace(SearchSpace(grid), params)
    ensures IncarUpdateOf(grid, params).Ok?
    ensures forall n :: 0 <= n < |grid| ==>
      grid[n].0 in IncarUpdateOf(grid, params).value && IncarUpdateOf(grid, params).value[grid[n].0] in grid[n].1
  {
    UpdateMapMeaning(grid, params);
    forall n | 0 <= n < |grid| ensures params[n] in grid[n].1 {
      assert params[n] in SearchSpace(grid)[n];
    }
  }

  // ---------------------------------------------------------------- the loss

  datatype ElectronicStep = ElectronicStep(n: int, dE: real)
  datatype IonicStep = IonicStep(dE: real)

  /** What the loss reads of OSZICAR: the electronic steps of every ionic
      step, and the ionic steps. */
  datatype Oszicar = Oszicar(electronicSteps: seq<seq<ElectronicStep>>, ionicSteps: seq<IonicStep>)

  datatype Loss = IntLoss(i: int) | RealLoss(r: real)

  function SumDE(steps: seq<ElectronicStep>): real
  {
    if steps == [] then 0.0 else SumDE(steps[..|steps| - 1]) + steps[|steps| - 1].dE
  }

  /** The mean energy change of the last five electronic steps (of all of
      them when there are at most five). */
  function LastFiveDE(steps: seq<ElectronicStep>): real
    requires steps != []
  {
    var tail := if |steps| > 5 then steps[|steps| - 5..] else steps;
    SumDE(tail) / (|tail| as real)
  }

  /** `loss_function`: all metrics are computed first (so a missing
      electronic or ionic step fails whatever the metric), then the named
      one is returned. */
  function LossFunction(osz: Oszicar, metric: string): (r: Result<Loss, SearchError>)
    ensures osz.electronicSteps == [] || osz.electronicSteps[|osz.electronicSteps| - 1] == [] ==> r == Err(EmptyElectronicSteps)
    ensures r.Ok? ==> metric in {"total_N", "last_five_dE", "num_ionic", "ionic_dE"}
    ensures metric == "num_ionic" && r.Ok? ==> r.value == IntLoss(-|osz.electronicSteps|)
  {
    var es := osz.electronicSteps;
    if es == [] || es[|es| - 1] == [] then Err(EmptyElectronicSteps)
    else
      var last := es[|es| - 1];
      var totalN := last[|last| - 1].n + (|es| - 1) * |es[0]|;
      var lastFive := LastFiveDE(last);
      var numIonic := |es|;
      if osz.ionicSteps == [] then Err(EmptyIonicSteps)
      else
        var ionicDE := osz.ionicSteps[|osz.ionicSteps| - 1].dE;
        if metric == "total_N" then Ok(IntLoss(-totalN))
        else if metric == "last_five_dE" then Ok(RealLoss(lastFive))
        else if metric == "num_ionic" then Ok(IntLoss(-numIonic))
        else if metric == "ionic_dE" then Ok(RealLoss(ionicDE))
        else Err(UnknownMetric(metric))
  }

  /** A run of k ionic steps that each took m electronic steps, the last
      one counting up to m, scores `-(k * m)`: minus the total number of
      electronic steps. */
  lemma TotalNCountsAllSteps(osz: Oszicar, m: nat)
    requires osz.electronicSteps != [] && osz.ionicSteps != [] && m > 0
    requires forall k :: 0 <= k < |osz.electronicSteps| ==> |osz.electronicSteps[k]| == m
    requires osz.electronicSteps[|osz.electronicSteps| - 1][m - 1].n == m
    ensures LossFunction(osz, "total_N") == Ok(IntLoss(-(|osz.electronicSteps| * m)))
  {
    var k := |osz.electronicSteps|;
    assert (k - 1) * m + m == k * m;
  }

  /** The loss is one of the four metrics and otherwise fails; the integer
      ones are the two step counts. */
  lemma LossMetrics(osz: Oszicar, metric: string)
    requires osz.electronicSteps != [] && osz.electronicSteps[|osz.electronicSteps| - 1] != [] && osz.ionicSteps != []
    ensures LossFunction(osz, metric).Err? <==> metric !in {"total_N", "last_five_dE", "num_ionic", "ionic_dE"}
    ensures metric == "total_N" ==> (
      && LossFunction(osz, metric).Ok? && LossFunction(osz, metric).value.IntLoss?
      && LossFunction(osz, metric).value.i
         == -(osz.electronicSteps[|osz.electronicSteps| - 1][|osz.electronicSteps[|osz.electronicSteps| - 1]| - 1].n
              + (|osz.electronicSteps| - 1) * |osz.electronicSteps[0]|))
  {
  }

  /** What CalculateLoss pushes to the next step's spec under "results": its
      point with the default loss of the finished relaxation. */
  datatype ResultPush = ResultPush(key: string, params: Params, loss: Loss)

  function CalculateLossPush(params: Params, osz: Oszicar): (r: Result<ResultPush, SearchError>)
    ensures r.Ok? ==> (
      && r.value.key == "results" && r.value.params == params
      && Ok(r.value.loss) == LossFunction(osz, "total_N") && r.value.loss.IntLoss?)
    ensures r.Err? <==> LossFunction(osz, "total_N").Err?
  {
    var loss := LossFunction(osz, "total_N");
    if loss.Err? then Err(loss.error) else Ok(ResultPush("results", params, loss.value))
  }

  // ---------------------------------------------------------------- the objective and its job emission

  /** The relaxation requested for a point, as written: its input set is
      the relaxation set with the given settings, whatever the point. */
  function SearchRequest(relaxIncar: Incar, update: Incar): (r: OptimizeRequest)
    ensures r.inputSet == RelaxSet(relaxIncar)
    ensures r.vaspToDb.defuseUnsuccessful == Some(false) && r.jobType == "normal"
  {
    OptimizeRequest(None, RelaxSet(relaxIncar), "normal", "walltime", NoVaspToDbKwargs.(defuseUnsuccessful := Some(false)))
  }

  /** The INCAR update never reaches the relaxation: two points get the same
      request. */
  lemma UpdateIgnored(relaxIncar: Incar, u1: Incar, u2: Incar)
    ensures SearchRequest(relaxIncar, u1) == SearchRequest(relaxIncar, u2)
  {
  }

  /** The request as intended: the point's settings override the given ones. */
  function SearchRequestWithUpdate(relaxIncar: Incar, update: Incar): (r: OptimizeRequest)
    ensures r.inputSet.RelaxSet? && r.inputSet.incar.Keys == relaxIncar.Keys + update.Keys
    ensures forall k :: k in update ==> r.inputSet.incar[k] == update[k]
    ensures forall k :: k in relaxIncar && k !in update ==> r.inputSet.incar[k] == relaxIncar[k]
  {
    OptimizeRequest(None, RelaxSet(relaxIncar + update), "normal", "walltime", NoVaspToDbKwargs.(defuseUnsuccessful := Some(false)))
  }

  /** With the update applied, the relaxation of a point runs that point's
      value at every grid key. */
  lemma UpdateApplied(grid: Grid, params: Params, relaxIncar: Incar)
    requires DistinctKeys(grid) && |params| >= |grid|
    ensures forall n :: 0 <= n < |grid| ==>
      && grid[n].0 in SearchRequestWithUpdate(relaxIncar, UpdateMap(grid, params)).inputSet.incar
      && SearchRequestWithUpdate(relaxIncar, UpdateMap(grid, params)).inputSet.incar[grid[n].0] == params[n]
  {
    UpdateMapMeaning(grid, params);
    var u := UpdateMap(grid, params);
    forall n | 0 <= n < |grid| ensures grid[n].0 in u {
    }
  }

  /** The points among the calls that have no known result, in call order
      and with repetitions. */
  function Unknown(calls: seq<Params>, known: map<Params, real>): (r: seq<Params>)
    ensures |r| <= |calls|
  {
    if calls == [] then []
    else Unknown(calls[..|calls| - 1], known) + (if calls[|calls| - 1] in known then [] else [calls[|calls| - 1]])
  }

  /** The same list without repetitions, first occurrences kept. */
  function Distinct(s: seq<Params>): (r: seq<Params>)
    ensures |r| <= |s|
  {
    if s == [] then []
    else Distinct(s[..|s| - 1]) + (if s[|s| - 1] in s[..|s| - 1] then [] else [s[|s| - 1]])
  }

  /** A point is unknown among the calls when it is called and has no result. */
  lemma {:induction false} UnknownMembers(calls: seq<Params>, known: map<Params, real>, p: Params)
    ensures p in Unknown(calls, known) <==> p in calls && p !in known
  {
    if calls != [] {
      var init := calls[..|calls| - 1];
      UnknownMembers(init, known, p);
      assert calls == init + [calls[|calls| - 1]];
    }
  }

  /** Removing repetitions keeps every element. */
  lemma {:induction false} DistinctMembers(s: seq<Params>, p: Params)
    ensures p in Distinct(s) <==> p in s
  {
    if s != [] {
      var init := s[..|s| - 1];
      DistinctMembers(init, p);
      assert s == init + [s[|s| - 1]];
    }
  }

  lemma UnknownStep(calls: seq<Params>, i: nat, known: map<Params, real>)
    requires i < |calls|
    ensures Unknown(calls[..i + 1], known) == Unknown(calls[..i], known) + (if calls[i] in known then [] else [calls[i]])
  {
    assert calls[..i + 1][..i] == calls[..i];
  }

  lemma DistinctStep(s: seq<Params>, x: Params)
    ensures Distinct(s + [x]) == Distinct(s) + (if x in s then [] else [x])
  {
    assert (s + [x])[..|s|] == s;
  }

  /** How the launched points grow by one call: unchanged for a known or
      already launched point, by that point otherwise. */
  lemma GuardedStep(calls: seq<Params>, i: nat, known: map<Params, real>)
    requires i < |calls|
    ensures calls[i] in known || calls[i] in Distinct(Unknown(calls[..i], known)) ==>
      Distinct(Unknown(calls[..i + 1], known)) == Distinct(Unknown(calls[..i], known))
    ensures calls[i] !in known && calls[i] !in Distinct(Unknown(calls[..i], known)) ==>
      Distinct(Unknown(calls[..i + 1], known)) == Distinct(Unknown(calls[..i], known)) + [calls[i]]
    ensures Distinct(Unknown(calls[..i + 1], known))
         == Distinct(Unknown(calls[..i], known))
            + (if calls[i] in known || calls[i] in Distinct(Unknown(calls[..i], known)) then [] else [calls[i]])
  {
    var u := Unknown(calls[..i], known);
    UnknownStep(calls, i, known);
    DistinctStep(u, calls[i]);
    DistinctMembers(u, calls[i]);
    if calls[i] in known {
      assert u + [] == u;
    }
  }

  /** The two jobs a new point adds at position `at`: the relaxation with
      the point's INCAR update, ending in the loss calculation for that
      point, and the next search step, whose parents are every job before
      it. */
  ghost predicate PairAt(s: seq<Firework>, at: nat, params: Params, grid: Grid, relaxIncar: Incar, maxFw: int,
                         structureFormula: string, core: CoreFireworks)
    requires at + 1 < |s|
    reads s
  {
    && IncarUpdateOf(grid, params).Ok?
    && var request := SearchRequest(relaxIncar, IncarUpdateOf(grid, params).value);
       && s[at].tasks == core.optimizeTasks(request) + [CalculateLoss(params)]
       && s[at].name == core.optimizeName(request) && s[at].parents == []
       && s[at + 1].tasks == [Task.AnalyzeLossAndDecideNextStep(maxFw, true)]
       && s[at + 1].name == structureFormula + "-Global Optimum"
       && s[at + 1].parents == s[..at + 1]
  }

  /** The jobs after the first `base`: one pair per point, in order. */
  ghost predicate LaunchedPairs(s: seq<Firework>, base: nat, points: seq<Params>, grid: Grid, relaxIncar: Incar,
                                maxFw: int, structureFormula: string, core: CoreFireworks)
    reads s
  {
    && |s| == base + 2 * |points|
    && forall k :: 0 <= k < |points| ==>
         PairAt(s, base + 2 * k, points[k], grid, relaxIncar, maxFw, structureFormula, core)
  }

  /** One more pair extends the pairs before it. */
  lemma LaunchedPairsExtend(s: seq<Firework>, more: seq<Firework>, base: nat, points: seq<Params>, params: Params,
                            grid: Grid, relaxIncar: Incar, maxFw: int, structureFormula: string, core: CoreFireworks)
    requires LaunchedPairs(s, base, points, grid, relaxIncar, maxFw, structureFormula, core)
    requires |more| == |s| + 2 && more[..|s|] == s
    requires PairAt(more, |s|, params, grid, relaxIncar, maxFw, structureFormula, core)
    ensures LaunchedPairs(more, base, points + [params], grid, relaxIncar, maxFw, structureFormula, core)
  {
    var ps := points + [params];
    forall k | 0 <= k < |ps|
      ensures PairAt(more, base + 2 * k, ps[k], grid, relaxIncar, maxFw, structureFormula, core)
    {
      if k < |points| {
        var at := base + 2 * k;
        assert PairAt(s, at, points[k], grid, relaxIncar, maxFw, structureFormula, core);
        assert more[at] == s[at] && more[at + 1] == s[at + 1];
        assert more[..at + 1] == s[..at + 1];
      }
    }
  }

  lemma PrefixOfPrefix<T>(a: seq<T>, b: seq<T>, c: seq<T>)
    requires |a| <= |b| <= |c| && b[..|a|] == a && c[..|b|] == b
    ensures c[..|a|] == a
  {
    assert c[..|a|] == c[..|b|][..|a|];
  }

  /** The search's state: the jobs added so far (`fws`), the points already
      launched (`l_params`) and the inputs `func` closes over. */
  class SurrogateSearch {
    var fws: seq<Firework>
    var lParams: seq<Params>
    const previousResults: map<Params, real>
    const grid: Grid
    const structureFormula: string
    const maxFw: int
    const relaxIncar: Incar
    const core: CoreFireworks

    constructor (previousResults: map<Params, real>, grid: Grid, structureFormula: string, maxFw: int,
                 relaxIncar: Incar, core: CoreFireworks)
      ensures this.previousResults == previousResults && this.grid == grid
      ensures this.structureFormula == structureFormula && this.maxFw == maxFw
      ensures this.relaxIncar == relaxIncar && this.core == core
      ensures fws == [] && lParams == []
    {
      this.previousResults := previousResults;
      this.grid := grid;
      this.structureFormula := structureFormula;
      this.maxFw := maxFw;
      this.relaxIncar := relaxIncar;
      this.core := core;
      fws := [];
      lParams := [];
    }

    /** The relaxation and next search step for a new point, added to `fws`;
        the step's parents are the jobs so far, the new relaxation included. */
    method Launch(params: Params, update: Incar)
      modifies this
      ensures lParams == old(lParams)
      ensures |fws| == |old(fws)| + 2 && fws[..|old(fws)|] == old(fws)
      ensures fws[|old(fws)|].tasks == core.optimizeTasks(SearchRequest(relaxIncar, update)) + [CalculateLoss(params)]
      ensures fws[|old(fws)|].name == core.optimizeName(SearchRequest(relaxIncar, update)) && fws[|old(fws)|].parents == []
      ensures fws[|old(fws)| + 1].tasks == [AnalyzeLossAndDecideNextStep(maxFw, true)]
      ensures fws[|old(fws)| + 1].parents == old(fws) + [fws[|old(fws)|]]
      ensures fws[|old(fws)| + 1].name == structureFormula + "-Global Optimum"
    {
      var request := SearchRequest(relaxIncar, update);
      var opt := new Firework(core.optimizeTasks(request), [], core.optimizeName(request));
      fws := fws + [opt];
      opt.tasks := opt.tasks + [CalculateLoss(params)];
      var next := new Firework([AnalyzeLossAndDecideNextStep(maxFw, true)], fws, structureFormula + "-Global Optimum");
      fws := fws + [next];
    }

    /** `func` as written: a known point returns its loss and adds nothing;
        otherwise, since `l_params` is never extended (its append follows
        the returns), every call adds a relaxation and a next step and
        returns 0. */
    method Func(params: Params) returns (value: Result<real, SearchError>)
      requires DistinctKeys(grid)
      modifies this
      ensures lParams == old(lParams)
      ensures |fws| >= |old(fws)| && fws[..|old(fws)|] == old(fws)
      ensures params in previousResults ==> value == Ok(previousResults[params]) && fws == old(fws)
      ensures params !in previousResults && params in lParams ==> value == Ok(0.0) && fws == old(fws)
      ensures params !in previousResults && params !in lParams && |params| < |grid| ==>
        value == Err(IncarIndexError) && fws == old(fws)
      ensures params !in previousResults && params !in lParams && |params| >= |grid| ==> (
        && value == Ok(0.0) && |fws| == |old(fws)| + 2 && fws[..|old(fws)|] == old(fws)
        && PairAt(fws, |old(fws)|, params, grid, relaxIncar, maxFw, structureFormula, core))
    {
      if params in previousResults {
        return Ok(previousResults[params]);
      } else {
        if params !in lParams {
          var update := IncarUpdate(grid, params);
          if update.Err? {
            return Err(update.error);
          }
          Launch(params, update.value);
          return Ok(0.0);
        } else {
          return Ok(0.0);
        }
      }
    }

    /** `func` with the in-flight guard working: a launched point is
        recorded, so a repeated new point adds no second pair of jobs. */
    method FuncGuarded(params: Params, ghost base: nat) returns (value: Result<real, SearchError>)
      requires DistinctKeys(grid)
      requires LaunchedPairs(fws, base, lParams, grid, relaxIncar, maxFw, structureFormula, core)
      modifies this
      ensures LaunchedPairs(fws, base, lParams, grid, relaxIncar, maxFw, structureFormula, core)
      ensures |fws| >= |old(fws)| && fws[..|old(fws)|] == old(fws)
      ensures |params| >= |grid| ==>
        lParams == old(lParams) + (if params in previousResults || params in old(lParams) then [] else [params])
      ensures params in previousResults ==> value == Ok(previousResults[params]) && fws == old(fws) && lParams == old(lParams)
      ensures params !in previousResults && params in old(lParams) ==> value == Ok(0.0) && fws == old(fws) && lParams == old(lParams)
      ensures params !in previousResults && params !in old(lParams) && |params| < |grid| ==>
        value == Err(IncarIndexError) && fws == old(fws) && lParams == old(lParams)
      ensures params !in previousResults && params !in old(lParams) && |params| >= |grid| ==> (
        && value == Ok(0.0) && |fws| == |old(fws)| + 2 && fws[..|old(fws)|] == old(fws)
        && PairAt(fws, |old(fws)|, params, grid, relaxIncar, maxFw, structureFormula, core)
        && lParams == old(lParams) + [params])
    {
      if params in previousResults {
        return Ok(previousResults[params]);
      }
      if params in lParams {
        return Ok(0.0);
      }
      var update := IncarUpdate(grid, params);
      if update.Err? {
        return Err(update.error);
      }
      Launch(params, update.value);
      LaunchedPairsExtend(old(fws), fws, base, lParams, params, grid, relaxIncar, maxFw, structureFormula, core);
      lParams := lParams + [params];
      return Ok(0.0);
    }

    /** The minimiser's calls, as written: two jobs for every call at an
        unknown point, repeated points included. A call is any point with
        one value per grid key; its values need not be among the listed
        ones (a two-number list is searched as a range). */
    method RunMinimizer(calls: seq<Params>)
      requires DistinctKeys(grid) && lParams == []
      requires forall p :: p in calls ==> |p| == |grid|
      modifies this
      ensures lParams == []
      ensures LaunchedPairs(fws, |old(fws)|, Unknown(calls, previousResults), grid, relaxIncar, maxFw, structureFormula, core)
      ensures fws[..|old(fws)|] == old(fws)
    {
      for i := 0 to |calls|
        invariant lParams == []
        invariant LaunchedPairs(fws, |old(fws)|, Unknown(calls[..i], previousResults), grid, relaxIncar, maxFw,
                                structureFormula, core)
        invariant fws[..|old(fws)|] == old(fws)
      {
        UnknownStep(calls, i, previousResults);
        assert calls[i] in calls;
        ghost var before := fws;
        var _ := Func(calls[i]);
        PrefixOfPrefix(old(fws), before, fws);
        if calls[i] !in previousResults {
          LaunchedPairsExtend(before, fws, |old(fws)|, Unknown(calls[..i], previousResults), calls[i],
                              grid, relaxIncar, maxFw, structureFormula, core);
        } else {
          assert Unknown(calls[..i], previousResults) + [] == Unknown(calls[..i], previousResults);
        }
      }
      assert calls[..|calls|] == calls;
    }

    /** One call of the guarded loop: the launched points stay the
        distinct unknown points so far, two jobs each. */
    method GuardedCall(calls: seq<Params>, i: nat, ghost base: seq<Firework>)
      requires DistinctKeys(grid) && i < |calls| && |calls[i]| == |grid|
      requires lParams == Distinct(Unknown(calls[..i], previousResults))
      requires LaunchedPairs(fws, |base|, lParams, grid, relaxIncar, maxFw, structureFormula, core)
      requires fws[..|base|] == base
      modifies this
      ensures lParams == Distinct(Unknown(calls[..i + 1], previousResults))
      ensures LaunchedPairs(fws, |base|, lParams, grid, relaxIncar, maxFw, structureFormula, core)
      ensures fws[..|base|] == base
    {
      GuardedStep(calls, i, previousResults);
      ghost var before := fws;
      var _ := FuncGuarded(calls[i], |base|);
      PrefixOfPrefix(base, before, fws);
    }

    /** The minimiser's calls with the guard working: two jobs per distinct
        unknown point. */
    method RunMinimizerGuarded(calls: seq<Params>)
      requires DistinctKeys(grid) && lParams == []
      requires forall p :: p in calls ==> |p| == |grid|
      modifies this
      ensures lParams == Distinct(Unknown(calls, previousResults))
      ensures LaunchedPairs(fws, |old(fws)|, Distinct(Unknown(calls, previousResults)), grid, relaxIncar, maxFw,
                            structureFormula, core)
      ensures fws[..|old(fws)|] == old(fws)
    {
      assert calls[..0] == [];
      for i := 0 to |calls|
        invariant lParams == Distinct(Unknown(calls[..i], previousResults))
        invariant LaunchedPairs(fws, |old(fws)|, lParams, grid, relaxIncar, maxFw, structureFormula, core)
        invariant fws[..|old(fws)|] == old(fws)
      {
        assert calls[i] in calls;
        GuardedCall(calls, i, old(fws));
      }
      assert calls[..|calls|] == calls;
    }
  }

  /** A new point proposed twice: as written it is launched twice (four
      jobs), with the guard working once (two jobs). */
  lemma RepeatedPoint(p: Params, known: map<Params, real>)
    requires p !in known
    ensures |Unknown([p, p], known)| == 2
    ensures |Distinct(Unknown([p, p], known))| == 1
  {
    assert [p, p][..1] == [p];
    assert [p][..0] == [];
  }

  /** `load_and_launch` as written: the workflow it returns is made from
      `fws` before the minimiser runs, so it holds none of the jobs the
      calls add. */
  method LoadAndLaunch(grid: Grid, previous: Option<map<Params, real>>, maxFw: int, structureFormula: string,
                       relaxIncar: Incar, core: CoreFireworks, calls: seq<Params>)
    returns (workflow: seq<Firework>, launched: seq<Firework>)
    requires DistinctKeys(grid)
    requires |calls| == NCalls(if previous.Some? then |previous.value| else 0, maxFw)
    requires forall p :: p in calls ==> |p| == |grid|
    ensures workflow == []
    ensures LaunchedPairs(launched, 0, Unknown(calls, if previous.Some? then previous.value else map[]),
                          grid, relaxIncar, maxFw, structureFormula, core)
  {
    var pT := BuildSearchSpace(grid);
    var known := if previous.Some? then previous.value else map[];
    var search := new SurrogateSearch(known, grid, structureFormula, maxFw, relaxIncar, core);
    workflow := search.fws;
    search.RunMinimizer(calls);
    launched := search.fws;
  }

  /** `load_and_launch` with the workflow made after the minimiser: it holds
      every job the calls add. */
  method LoadAndLaunchAfterSearch(grid: Grid, previous: Option<map<Params, real>>, maxFw: int, structureFormula: string,
                                  relaxIncar: Incar, core: CoreFireworks, calls: seq<Params>)
    returns (workflow: seq<Firework>)
    requires DistinctKeys(grid)
    requires |calls| == NCalls(if previous.Some? then |previous.value| else 0, maxFw)
    requires forall p :: p in calls ==> |p| == |grid|
    ensures LaunchedPairs(workflow, 0, Unknown(calls, if previous.Some? then previous.value else map[]),
                          grid, relaxIncar, maxFw, structureFormula, core)
  {
    var known := if previous.Some? then previous.value else map[];
    var search := new SurrogateSearch(known, grid, structureFormula, maxFw, relaxIncar, core);
    search.RunMinimizer(calls);
    workflow := search.fws;
  }

  /** `AnalyzeLossAndDecideNextStep`: select the minimiser and the previous
      results (`max_fw` defaulting to 10), then run `load_and_launch`; the
      additions are its workflow. A minimiser left as a name cannot be
      called. */
  method AnalyzeLossAndDecideNextStep(grid: Grid, minimizer: Option<MinimizerArg>, given: Option<map<Params, real>>,
                                      maxFw: Option<int>, hasParents: bool, specResults: Option<map<Params, real>>,
                                      structureFormula: string, relaxIncar: Incar, core: CoreFireworks,
                                      calls: seq<Params>)
    returns (r: Result<seq<Firework>, SearchError>, launched: seq<Firework>)
    requires DistinctKeys(grid)
    requires forall p :: p in calls ==> |p| == |grid|
    requires var previous := PreviousResults(hasParents, given, specResults);
      |calls| == NCalls(if previous.Some? then |previous.value| else 0, if maxFw.Some? then maxFw.value else 10)
    ensures r.Err? <==> SelectMinimizer(minimizer).MinimizerName?
    ensures r.Ok? ==> r.value == []
    ensures r.Ok? ==>
      var previous := PreviousResults(hasParents, given, specResults);
      LaunchedPairs(launched, 0, Unknown(calls, if previous.Some? then previous.value else map[]),
                    grid, relaxIncar, if maxFw.Some? then maxFw.value else 10, structureFormula, core)
  {
    var selected := SelectMinimizer(minimizer);
    var previous := PreviousResults(hasParents, given, specResults);
    var budget := if maxFw.Some? then maxFw.value else 10;
    launched := [];
    if selected.MinimizerName? {
      return Err(UncallableMinimizer(selected.name)), launched;
    }
    var workflow;
    workflow, launched := LoadAndLaunch(grid, previous, budget, structureFormula, relaxIncar, core, calls);
    r := Ok(workflow);
  }
}
