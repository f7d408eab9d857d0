/** The adsorption workflow's jobs ("Fireworks") and the tasks they run.
    A job is an object whose task list, parents and name later steps change
    in place. The jobs built by the core library (structure optimisation,
    static and non-self-consistent runs) are not part of this model: their
    task lists and names are given by `CoreFireworks`. */
module Fireworks {
  import opened Results
  import Strings

  // ---------------------------------------------------------------- settings and tasks

  datatype IncarValue = IntValue(i: int) | RealValue(r: real) | TextValue(s: string) | BoolValue(b: bool)

  type Incar = map<string, IncarValue>

  /** A VASP input set: one given by the caller, or the surface set the
      constructors build when none is given (bulk or slab, with INCAR
      settings), the static set, or the relaxation set of the INCAR search. */
  datatype InputSet =
    | GivenInputSet(setName: string)
    | SurfaceSet(bulk: bool, incar: Incar)
    | StaticSet(kpoints: Option<string>, incar: Incar)
    | RelaxSet(incar: Incar)

  /** The keyword arguments of the database task: the fields it pushes to
      the children's spec (spec key |-> document path), extra fields stored
      with the document, and the two flags used here. */
  datatype VaspToDbKwargs = VaspToDbKwargs(
    fieldsToPush: map<string, string>,
    additionalFields: Option<map<string, string>>,
    parseBader: Option<bool>,
    defuseUnsuccessful: Option<bool>)

  const NoVaspToDbKwargs := VaspToDbKwargs(map[], None, None, None)

  /** What a slab job passes on to the analysis (`slab_data`): its name, its
      Miller index and shift, and the formula of its structure. An empty
      record stands for an empty dictionary. */
  datatype SlabData = SlabData(
    name: Option<string>, millerIndex: Option<seq<int>>, shift: Option<real>, structureFormula: Option<string>)

  const EmptySlabData := SlabData(None, None, None, None)

  datatype Task =
    | WriteVaspFromIOSet(inputSet: InputSet)
    | RunVaspCustodian(handlerGroup: Option<string>)
    | PassCalcLocs(name: string)
    | VaspToDb(kwargs: VaspToDbKwargs)
    | ModifyIncar(incarUpdate: Incar)
    | CoreTask(taskName: string)                      // a task of a core-library job
    | SlabAdditionTask(addFwName: string)
    | SlabAdsAdditionTask(slabData: SlabData)
    | AnalysisAdditionTask(analysisFwName: string)
    | AnalyzeStaticOptimumDistance(distances: seq<real>)
    | LaunchVaspFromOptimumDistance(staticDistances: seq<real>)
    | AdsorptionAnalysisTask(name: string)
    | CalculateLoss(currentIncarParams: seq<IncarValue>)
    | AnalyzeLossAndDecideNextStep(maxFw: int, hasParents: bool)

  /** A job: its task list, its parents and its name, all changeable. */
  class Firework {
    var tasks: seq<Task>
    var parents: seq<Firework>
    var name: string

    constructor (tasks: seq<Task>, parents: seq<Firework>, name: string)
      ensures this.tasks == tasks && this.parents == parents && this.name == name
    {
      this.tasks := tasks;
      this.parents := parents;
      this.name := name;
    }
  }

  /** The names of a list of jobs, in order. */
  ghost function Names(fws: seq<Firework>): (r: seq<string>)
    reads fws
    ensures |r| == |fws| && forall i :: 0 <= i < |fws| ==> r[i] == fws[i].name
  {
    if fws == [] then [] else Names(fws[..|fws| - 1]) + [fws[|fws| - 1].name]
  }

  lemma NamesAppend(a: seq<Firework>, b: seq<Firework>)
    ensures Names(a + b) == Names(a) + Names(b)
  {
    assert forall i :: 0 <= i < |a| + |b| ==> (a + b)[i].name == (Names(a) + Names(b))[i];
  }

  /** The arguments with which a structure optimisation job is requested. */
  datatype OptimizeRequest = OptimizeRequest(
    name: Option<string>, inputSet: InputSet, jobType: string, handlerGroup: string,
    vaspToDb: VaspToDbKwargs)

  /** The core library's jobs, as far as this model needs them. */
  datatype CoreFireworks = CoreFireworks(
    optimizeTasks: OptimizeRequest -> seq<Task>,
    optimizeName: OptimizeRequest -> string,
    staticTasks: string -> seq<Task>,
    nscfTasks: (string, VaspToDbKwargs) -> seq<Task>)

  // ---------------------------------------------------------------- INCAR defaults

  function BulkIncarDefaults(): Incar
  {
    map["IBRION" := IntValue(2), "POTIM" := RealValue(0.5), "NSW" := IntValue(200), "IVDW" := IntValue(11),
        "GGA" := TextValue("RP"), "EDIFFG" := RealValue(-0.05), "ALGO" := TextValue("All")]
  }

  function SlabIncarDefaults(): Incar
  {
    map["IBRION" := IntValue(2), "POTIM" := RealValue(0.5), "NSW" := IntValue(300), "GGA" := TextValue("RP"),
        "IVDW" := IntValue(11), "EDIFFG" := RealValue(-0.05), "ALGO" := TextValue("All"), "LAECHG" := BoolValue(true)]
  }

  function SlabAdsIncarDefaults(): Incar
  {
    map["IBRION" := IntValue(2), "POTIM" := RealValue(0.5), "NSW" := IntValue(300), "ALGO" := TextValue("All"),
        "IVDW" := IntValue(11), "GGA" := TextValue("RP"), "LAECHG" := BoolValue(true)]
  }

  function StaticIncarDefaults(): Incar
  {
    map["ADDGRID" := BoolValue(true), "LASPH" := BoolValue(true), "LORBIT" := IntValue(11), "IVDW" := IntValue(11),
        "GGA" := TextValue("RP"), "ICHARG" := IntValue(0), "NELM" := IntValue(200), "PREC" := TextValue("Normal"),
        "EDIFF" := RealValue(0.01)]
  }

  /** `user_incar_settings or defaults`: settings given and non-empty are
      used as they are, otherwise the defaults. */
  function ChooseIncar(user: Option<Incar>, defaults: Incar): Incar
  {
    if user.Some? && user.value != map[] then user.value else defaults
  }

  /** The defaults are never merged into user settings: a key the user left
      out stays absent, and every value is the user's. */
  lemma NeverMerged(user: Incar, defaults: Incar, key: string)
    requires user != map[] && key !in user
    ensures key !in ChooseIncar(Some(user), defaults)
    ensures forall k :: k in ChooseIncar(Some(user), defaults) ==> ChooseIncar(Some(user), defaults)[k] == user[k]
  {
  }

  /** Without user settings (absent or empty) every default is used. */
  lemma DefaultsWhenFalsy(user: Option<Incar>, defaults: Incar)
    requires user.None? || user.value == map[]
    ensures ChooseIncar(user, defaults) == defaults
  {
  }

  // ---------------------------------------------------------------- names

  /** `"{formula}_{miller}_{shift}"` of a slab job: the Miller index and the
      shift of `slab_data` take precedence over the structure's own, and each
      part is added only when truthy (a non-empty index, a non-zero shift).
      How an index and a shift are printed is given. */
  function SlabName(formula: string, data: SlabData, ownMiller: seq<int>, ownShift: real,
                    formatMiller: seq<int> -> string, formatShift: real -> string): string
  {
    var miller := if data.millerIndex.Some? && data.millerIndex.value != [] then data.millerIndex.value else ownMiller;
    var shift := if data.shift.Some? && data.shift.value != 0.0 then data.shift.value else ownShift;
    formula
      + (if miller != [] then "_" + formatMiller(miller) else "")
      + (if shift != 0.0 then "_" + formatShift(shift) else "")
  }

  lemma SlabNamePrecedence(formula: string, data: SlabData, ownMiller: seq<int>, ownShift: real,
                           formatMiller: seq<int> -> string, formatShift: real -> string)
    ensures data.millerIndex.Some? && data.millerIndex.value != [] && data.shift.Some? && data.shift.value != 0.0 ==>
      SlabName(formula, data, ownMiller, ownShift, formatMiller, formatShift)
        == formula + "_" + formatMiller(data.millerIndex.value) + "_" + formatShift(data.shift.value)
    ensures data == EmptySlabData && ownMiller == [] && ownShift == 0.0 ==>
      SlabName(formula, data, ownMiller, ownShift, formatMiller, formatShift) == formula
    ensures ((data.millerIndex.None? || data.millerIndex.value == []) && ownMiller != []
             && (data.shift.None? || data.shift.value == 0.0) && ownShift == 0.0) ==>
      SlabName(formula, data, ownMiller, ownShift, formatMiller, formatShift) == formula + "_" + formatMiller(ownMiller)
  {
  }

  const SlabAdsPhrase := "slab + adsorbate optimization"
  const AnalysisPhrase := "adsorption analysis"

  datatype FwError =
    | MissingStructure           // ValueError: "Must specify structure or previous calculation"
    | MissingSlabName            // `None.composition`: neither a slab name nor a slab structure

  /** The name of the analysis job of a slab + adsorbate job named `name`:
      the phrase "slab + adsorbate optimization" replaced by "adsorption
      analysis"; when that leaves no "adsorption analysis", the slab name
      (or else the slab formula) and the adsorbate name followed by it. */
  function AnalysisName(name: string, slabData: Option<SlabData>, adsName: string): (r: Result<string, FwError>)
    ensures r.Ok? ==> Strings.Contains(r.value, AnalysisPhrase)
    ensures Strings.Contains(name, SlabAdsPhrase) ==> r == Ok(Strings.ReplaceAll(name, SlabAdsPhrase, AnalysisPhrase))
  {
    var replaced := Strings.ReplaceAll(name, SlabAdsPhrase, AnalysisPhrase);
    if Strings.Contains(name, SlabAdsPhrase) then
      Strings.ReplacePresent(name, SlabAdsPhrase, AnalysisPhrase);
      Ok(replaced)
    else if Strings.Contains(replaced, AnalysisPhrase) then Ok(replaced)
    else
      var data := if slabData.Some? then slabData.value else EmptySlabData;
      var slabName :=
        if data.name.Some? && data.name.value != "" then Ok(data.name.value)
        else if data.structureFormula.Some? then Ok(data.structureFormula.value)
        else Err(MissingSlabName);
      if slabName.Err? then Err(slabName.error)
      else
        Strings.ContainsSuffix(slabName.value + " " + adsName + " ", AnalysisPhrase);
        Ok(slabName.value + " " + adsName + " " + AnalysisPhrase)
  }

  /** When the name lacks both phrases the fallback name is used, and it
      fails only when neither a slab name nor a slab structure is known. */
  lemma AnalysisNameFallback(name: string, slabData: SlabData, adsName: string)
    requires !Strings.Contains(name, SlabAdsPhrase) && !Strings.Contains(name, AnalysisPhrase)
    ensures AnalysisName(name, Some(slabData), adsName).Err?
        <==> (slabData.name.None? || slabData.name.value == "") && slabData.structureFormula.None?
    ensures slabData.name.Some? && slabData.name.value != "" ==>
      AnalysisName(name, Some(slabData), adsName) == Ok(slabData.name.value + " " + adsName + " " + AnalysisPhrase)
  {
    Strings.ReplaceAbsent(name, SlabAdsPhrase, AnalysisPhrase);
  }

  /** `vasptodb_kwargs["additional_fields"]["task_label"] = name`, with the
      extra fields created when absent. */
  function WithTaskLabel(kwargs: VaspToDbKwargs, name: string): (r: VaspToDbKwargs)
    ensures r.additionalFields.Some? && "task_label" in r.additionalFields.value
      && r.additionalFields.value["task_label"] == name
    ensures r.fieldsToPush == kwargs.fieldsToPush && r.parseBader == kwargs.parseBader
      && r.defuseUnsuccessful == kwargs.defuseUnsuccessful
    ensures forall k :: k != "task_label" ==>
      ((kwargs.additionalFields.Some? && k in kwargs.additionalFields.value) <==> k in r.additionalFields.value)
    ensures forall k :: k != "task_label" && kwargs.additionalFields.Some? && k in kwargs.additionalFields.value ==>
      r.additionalFields.value[k] == kwargs.additionalFields.value[k]
  {
    var fields := if kwargs.additionalFields.Some? then kwargs.additionalFields.value else map[];
    kwargs.(additionalFields := Some(fields["task_label" := name]))
  }

  // ---------------------------------------------------------------- the job constructors

  /** BulkFW: the bulk optimisation, with the slab generator appended. */
  method BulkFW(formula: string, core: CoreFireworks, name: string := "bulk optimization",
                inputSet: Option<InputSet> := None, userIncar: Option<Incar> := None,
                jobType: string := "double_relaxation_run", handlerGroup: string := "default",
                parents: seq<Firework> := [])
    returns (fw: Firework)
    ensures fresh(fw) && fw.name == name && fw.parents == parents
    ensures fw.tasks == core.optimizeTasks(BulkRequest(name, inputSet, userIncar, jobType, handlerGroup))
                        + [SlabAdditionTask(formula + " slab generator")]
  {
    var request := BulkRequest(name, inputSet, userIncar, jobType, handlerGroup);
    var t := core.optimizeTasks(request);
    t := t + [SlabAdditionTask(formula + " slab generator")];
    fw := new Firework(t, parents, name);
  }

  function BulkRequest(name: string, inputSet: Option<InputSet>, userIncar: Option<Incar>,
                       jobType: string, handlerGroup: string): (r: OptimizeRequest)
    ensures inputSet.None? ==> r.inputSet == SurfaceSet(true, ChooseIncar(userIncar, BulkIncarDefaults()))
    ensures r.vaspToDb.fieldsToPush == map["bulk_structure" := "output.structure", "bulk_energy" := "output.energy"]
  {
    OptimizeRequest(Some(name),
      if inputSet.Some? then inputSet.value else SurfaceSet(true, ChooseIncar(userIncar, BulkIncarDefaults())),
      jobType, handlerGroup,
      NoVaspToDbKwargs.(fieldsToPush := map["bulk_structure" := "output.structure", "bulk_energy" := "output.energy"]))
  }

  /** SlabFW: the slab optimisation, with the slab + adsorbate generator
      appended; the slab's name is written into `slab_data`, which that
      task carries on. */
  method SlabFW(formula: string, ownMiller: seq<int>, ownShift: real, core: CoreFireworks,
                formatMiller: seq<int> -> string, formatShift: real -> string,
                name: string := "slab optimization",
                inputSet: Option<InputSet> := None, userIncar: Option<Incar> := None,
                jobType: string := "normal", handlerGroup: string := "md",
                slabData: Option<SlabData> := None, parents: seq<Firework> := [])
    returns (fw: Firework)
    ensures fresh(fw) && fw.name == name && fw.parents == parents
    ensures var data := if slabData.Some? then slabData.value else EmptySlabData;
      fw.tasks == core.optimizeTasks(SlabRequest(name, inputSet, userIncar, jobType, handlerGroup))
                  + [SlabAdsAdditionTask(data.(name := Some(SlabName(formula, data, ownMiller, ownShift, formatMiller, formatShift))))]
  {
    var request := SlabRequest(name, inputSet, userIncar, jobType, handlerGroup);
    var t := core.optimizeTasks(request);
    var data := if slabData.Some? then slabData.value else EmptySlabData;
    var slabName := SlabName(formula, data, ownMiller, ownShift, formatMiller, formatShift);
    data := data.(name := Some(slabName));
    t := t + [SlabAdsAdditionTask(data)];
    fw := new Firework(t, parents, name);
  }

  function SlabRequest(name: string, inputSet: Option<InputSet>, userIncar: Option<Incar>,
                       jobType: string, handlerGroup: string): (r: OptimizeRequest)
    ensures inputSet.None? ==> r.inputSet == SurfaceSet(false, ChooseIncar(userIncar, SlabIncarDefaults()))
    ensures r.vaspToDb.fieldsToPush == map["slab_structure" := "output.structure", "slab_energy" := "output.energy"]
    ensures r.vaspToDb.parseBader == Some(false)
  {
    OptimizeRequest(Some(name),
      if inputSet.Some? then inputSet.value else SurfaceSet(false, ChooseIncar(userIncar, SlabIncarDefaults())),
      jobType, handlerGroup,
      NoVaspToDbKwargs.(fieldsToPush := map["slab_structure" := "output.structure", "slab_energy" := "output.energy"],
                        parseBader := Some(false)))
  }

  /** EnergyLandscapeFW: one static calculation. It fails without a
      structure; otherwise it writes the inputs, runs VASP, passes the
      calculation location and stores the result labelled with the job's
      name. The job is named "{formula}-{name}". */
  method EnergyLandscapeFW(structureFormula: Option<string>, name: string := "static",
                           inputSet: Option<InputSet> := None, staticIncar: Option<Incar> := None,
                           kpoints: Option<string> := None, vaspToDb: Option<VaspToDbKwargs> := None,
                           handlerGroup: Option<string> := None, parents: seq<Firework> := [])
    returns (r: Result<Firework, FwError>)
    ensures r.Err? <==> structureFormula.None?
    ensures r.Ok? ==> (
      fresh(r.value) && r.value.parents == parents
      && r.value.name == structureFormula.value + "-" + name
      && r.value.tasks == [WriteVaspFromIOSet(StaticInputSet(inputSet, staticIncar, kpoints)),
                           RunVaspCustodian(handlerGroup), PassCalcLocs(name),
                           VaspToDb(WithTaskLabel(if vaspToDb.Some? then vaspToDb.value else NoVaspToDbKwargs, name))])
  {
    var t: seq<Task> := [];
    var kwargs := if vaspToDb.Some? then vaspToDb.value else NoVaspToDbKwargs;
    kwargs := WithTaskLabel(kwargs, name);
    if structureFormula.None? {
      return Err(MissingStructure);
    }
    var fwName := structureFormula.value + "-" + name;
    t := t + [WriteVaspFromIOSet(StaticInputSet(inputSet, staticIncar, kpoints))];
    t := t + [RunVaspCustodian(handlerGroup)];
    t := t + [PassCalcLocs(name)];
    t := t + [VaspToDb(kwargs)];
    var fw := new Firework(t, parents, fwName);
    return Ok(fw);
  }

  /** The static input set: the given one, or the static set with the
      given (or default) INCAR settings. */
  function StaticInputSet(inputSet: Option<InputSet>, staticIncar: Option<Incar>, kpoints: Option<string>): InputSet
  {
    if inputSet.Some? then inputSet.value else StaticSet(kpoints, ChooseIncar(staticIncar, StaticIncarDefaults()))
  }

  /** `"{}".format(name)` of an optional name. */
  function NameText(name: Option<string>): string
  {
    if name.Some? then name.value else "None"
  }

  /** DistanceOptimizationFW: the distance analysis followed by the launch
      of the relaxation at the chosen distance, named "{formula}-{name}". */
  method DistanceOptimizationFW(slabFormula: string, staticDistances: seq<real>, name: Option<string> := None,
                                parents: seq<Firework> := [])
    returns (fw: Firework)
    ensures fresh(fw) && fw.parents == parents && fw.name == slabFormula + "-" + NameText(name)
    ensures fw.tasks == [AnalyzeStaticOptimumDistance(staticDistances), LaunchVaspFromOptimumDistance(staticDistances)]
  {
    var t: seq<Task> := [];
    t := t + [AnalyzeStaticOptimumDistance(staticDistances)];
    t := t + [LaunchVaspFromOptimumDistance(staticDistances)];
    fw := new Firework(t, parents, slabFormula + "-" + NameText(name));
  }

  /** SlabAdsFW: the slab + adsorbate optimisation, with the analysis
      generator appended under the analysis job's name. */
  method SlabAdsFW(adsName: string, core: CoreFireworks, name: string := "slab + adsorbate optimization",
                   inputSet: Option<InputSet> := None, userIncar: Option<Incar> := None,
                   jobType: string := "normal", handlerGroup: string := "md",
                   slabData: Option<SlabData> := None, parents: seq<Firework> := [])
    returns (r: Result<Firework, FwError>)
    ensures r.Err? <==> AnalysisName(name, slabData, adsName).Err?
    ensures r.Ok? ==> (
      fresh(r.value) && r.value.name == name && r.value.parents == parents
      && r.value.tasks == core.optimizeTasks(SlabAdsRequest(name, inputSet, userIncar, jobType, handlerGroup))
                          + [AnalysisAdditionTask(AnalysisName(name, slabData, adsName).value)])
  {
    var request := SlabAdsRequest(name, inputSet, userIncar, jobType, handlerGroup);
    var t := core.optimizeTasks(request);
    var analysisName := AnalysisName(name, slabData, adsName);
    if analysisName.Err? {
      return Err(analysisName.error);
    }
    t := t + [AnalysisAdditionTask(analysisName.value)];
    var fw := new Firework(t, parents, name);
    return Ok(fw);
  }

  function SlabAdsRequest(name: string, inputSet: Option<InputSet>, userIncar: Option<Incar>,
                          jobType: string, handlerGroup: string): (r: OptimizeRequest)
    ensures inputSet.None? ==> r.inputSet == SurfaceSet(false, ChooseIncar(userIncar, SlabAdsIncarDefaults()))
    ensures r.vaspToDb.fieldsToPush.Keys == {"slab_ads_structure", "slab_ads_energy", "adsorbate"}
  {
    OptimizeRequest(Some(name),
      if inputSet.Some? then inputSet.value else SurfaceSet(false, ChooseIncar(userIncar, SlabAdsIncarDefaults())),
      jobType, handlerGroup,
      NoVaspToDbKwargs.(fieldsToPush := map["slab_ads_structure" := "output.structure",
                                            "slab_ads_energy" := "output.energy",
                                            "adsorbate" := "adsorbate"],
                        parseBader := Some(false)))
  }

  /** The tasks of a slab + adsorbate job with the default settings whose
      name contains "slab + adsorbate optimization": the optimisation, then
      the analysis generator for the job named with that phrase replaced
      by "adsorption analysis". */
  function DefaultSlabAdsTasks(name: string, core: CoreFireworks): seq<Task>
  {
    core.optimizeTasks(SlabAdsRequest(name, None, None, "normal", "md"))
    + [AnalysisAdditionTask(Strings.ReplaceAll(name, SlabAdsPhrase, AnalysisPhrase))]
  }

  /** AdsorptionAnalysisFW: the single analysis task. */
  method AdsorptionAnalysisFW(name: string := "adsorption analysis", parents: seq<Firework> := [])
    returns (fw: Firework)
    ensures fresh(fw) && fw.name == name && fw.parents == parents
    ensures fw.tasks == [AdsorptionAnalysisTask(name)]
  {
    var tasks: seq<Task> := [];
    tasks := tasks + [AdsorptionAnalysisTask(name)];
    fw := new Firework(tasks, parents, name);
  }
}
