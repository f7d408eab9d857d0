/** The jobs SlabAdsAdditionTask adds for every adsorbate and adsorption
    site of an optimised slab: with the distance optimisation, one static
    job per trial distance followed by the distance analysis over exactly
    those jobs; without it, one relaxation per site. The site finder is a
    function from the search distance to the sites found per position. */
module SiteJobs {
  import opened Results
  import opened Fireworks
  import Strings
  import DistanceOptimum
  import Expansion
  import Sorting
  import SiteGeometry

  type Vec3 = DistanceOptimum.Vec3

  /** An adsorbate: its species string and the reduced formula of the slab
      with it adsorbed. */
  datatype Adsorbate = Adsorbate(name: string, slabAdsFormula: string)

  /** `find_args`: the position kinds to use and the search distance, each
      possibly absent. */
  datatype FindArgs = FindArgs(positions: Option<seq<string>>, distance: Option<real>)

  /** The settings of the static jobs (`static_fws_params`). */
  datatype StaticSettings = StaticSettings(inputSet: Option<InputSet>, incar: Option<Incar>, kpoints: Option<string>)

  datatype AdsSite = AdsSite(siteType: string, coord: Vec3)

  /** `static_distances or [0.5, 1.0, 1.5, 2.0]`. */
  function StaticDistances(given: Option<seq<real>>): (r: seq<real>)
    ensures r != []
    ensures given.Some? && given.value != [] ==> r == given.value
  {
    if given.Some? && given.value != [] then given.value else [0.5, 1.0, 1.5, 2.0]
  }

  /** "positions" and "distance" are filled in only when absent. */
  function Positions(args: FindArgs): seq<string>
  {
    if args.positions.Some? then args.positions.value else ["ontop", "bridge", "hollow"]
  }

  function SearchDistance(args: FindArgs): real
  {
    if args.distance.Some? then args.distance.value else 1.5
  }

  /** The sites in the order SlabAdsAdditionTask visits them: every site found for the
      first position, then for the second, and so on. A position the site
      finder did not report fails (`KeyError`). */
  function EnumerateSites(positions: seq<string>, found: map<string, seq<Vec3>>): (r: Result<seq<AdsSite>, Expansion.ExpansionError>)
    ensures r.Err? <==> exists p :: p in positions && p !in found
    ensures r.Ok? ==> forall s :: s in r.value ==> s.siteType in positions && s.coord in found[s.siteType]
    ensures r.Ok? ==> forall p, k :: p in positions && 0 <= k < |found[p]| ==> AdsSite(p, found[p][k]) in r.value
    decreases |positions|
  {
    if positions == [] then Ok([])
    else
      var init := EnumerateSites(positions[..|positions| - 1], found);
      var p := positions[|positions| - 1];
      assert forall q :: q in positions <==> q in positions[..|positions| - 1] || q == p;
      if init.Err? then init
      else if p !in found then Err(Expansion.UnknownSitePosition(p))
      else
        var block := PositionSites(p, found[p]);
        assert forall k :: 0 <= k < |found[p]| ==> block[k] == AdsSite(p, found[p][k]);
        Ok(init.value + block)
  }

  /** The sites found for one position, in the site finder's order. */
  function PositionSites(p: string, coords: seq<Vec3>): (r: seq<AdsSite>)
    ensures |r| == |coords| && forall k :: 0 <= k < |coords| ==> r[k] == AdsSite(p, coords[k])
  {
    seq(|coords|, k requires 0 <= k < |coords| => AdsSite(p, coords[k]))
  }

  /** The sites of a list of positions are those of its parts, one part
      after the other. */
  lemma {:induction false} EnumerateSitesAppend(ps: seq<string>, qs: seq<string>, found: map<string, seq<Vec3>>)
    requires EnumerateSites(ps + qs, found).Ok?
    ensures EnumerateSites(ps, found).Ok? && EnumerateSites(qs, found).Ok?
    ensures EnumerateSites(ps + qs, found).value == EnumerateSites(ps, found).value + EnumerateSites(qs, found).value
    decreases |qs|
  {
    assert forall q :: q in ps + qs <==> q in ps || q in qs;
    if qs == [] {
      assert ps + qs == ps;
    } else {
      var init := qs[..|qs| - 1];
      assert (ps + qs)[..|ps + qs| - 1] == ps + init;
      assert (ps + qs)[|ps + qs| - 1] == qs[|qs| - 1];
      assert forall q :: q in init ==> q in qs;
      EnumerateSitesAppend(ps, init, found);
    }
  }

  /** A single position contributes its sites in the site finder's order. */
  lemma EnumerateSitesOne(p: string, found: map<string, seq<Vec3>>)
    requires p in found
    ensures EnumerateSites([p], found) == Ok(PositionSites(p, found[p]))
  {
    assert [p][..0] == [];
    assert [] + PositionSites(p, found[p]) == PositionSites(p, found[p]);
  }

  /** The sites of one search: at distance 0 when optimising the distance,
      at the search distance otherwise. */
  function SitesFor(optimize: bool, args: FindArgs, findSites: real -> map<string, seq<Vec3>>): Result<seq<AdsSite>, Expansion.ExpansionError>
  {
    EnumerateSites(Positions(args), findSites(if optimize then 0.0 else SearchDistance(args)))
  }

  /** `"{slab_name} {ads_name} [{index}]"`. */
  function SiteName(slabName: Option<string>, adsName: string, index: nat): string
  {
    NameText(slabName) + " " + adsName + " [" + Strings.NatToString(index) + "]"
  }

  /** What the static job at position `i` of `static_distances` pushes to
      its children: `"{i}_energy"` and `"{i}_structure"`. */
  function SamplePush(i: nat): map<string, string>
  {
    map[DistanceOptimum.EnergyKey(i) := "output.energy", DistanceOptimum.StructureKey(i) := "output.structure"]
  }

  function SampleKwargs(i: nat): VaspToDbKwargs
  {
    VaspToDbKwargs(SamplePush(i), None, None, Some(false))
  }

  ghost predicate PushesSample(f: Firework, i: nat)
    reads f
  {
    |f.tasks| == 4 && f.tasks[3].VaspToDb? && f.tasks[3].kwargs.fieldsToPush == SamplePush(i)
    && f.tasks[3].kwargs.defuseUnsuccessful == Some(false)
  }

  /** One site's jobs: a static job per distance, the i-th pushing sample
      i, and then the distance analysis, whose parents are exactly those
      static jobs. */
  ghost predicate IsSiteBlock(block: seq<Firework>, distances: seq<real>)
    reads block
  {
    && |block| == |distances| + 1
    && block[|distances|].parents == block[..|distances|]
    && block[|distances|].tasks == [AnalyzeStaticOptimumDistance(distances), LaunchVaspFromOptimumDistance(distances)]
    && forall i :: 0 <= i < |distances| ==> PushesSample(block[i], i)
  }

  /** The static job at position i of the distances: it pushes sample i. */
  method StaticJob(elName: string, slabAdsFormula: string, i: nat, statics: StaticSettings) returns (el: Firework)
    ensures fresh(el)
    ensures PushesSample(el, i) && el.parents == [] && el.name == slabAdsFormula + "-" + elName
  {
    var r := EnergyLandscapeFW(Some(slabAdsFormula), name := elName, inputSet := statics.inputSet,
                               staticIncar := statics.incar, kpoints := statics.kpoints,
                               vaspToDb := Some(SampleKwargs(i)), handlerGroup := Some("no_handler"));
    assert r.Ok?;
    el := r.value;
  }

  /** The static jobs and the distance analysis for one site. */
  method SiteBlock(siteName: string, slabAdsFormula: string, slabFormula: string, distances: seq<real>,
                   statics: StaticSettings, fmt: Expansion.Formats)
    returns (block: seq<Firework>)
    ensures IsSiteBlock(block, distances)
    ensures forall f :: f in block ==> fresh(f)
    ensures forall i :: 0 <= i < |distances| ==>
      block[i].parents == [] && block[i].name == slabAdsFormula + "-" + siteName + " static distance " + fmt.distance(distances[i])
    ensures block[|distances|].name == slabFormula + "-" + siteName + " distance analysis"
  {
    var parents: seq<Firework> := [];
    for i := 0 to |distances|
      invariant |parents| == i
      invariant forall f :: f in parents ==> fresh(f)
      invariant forall j :: 0 <= j < i ==>
        PushesSample(parents[j], j) && parents[j].parents == []
        && parents[j].name == slabAdsFormula + "-" + siteName + " static distance " + fmt.distance(distances[j])
    {
      var el := StaticJob(siteName + " static distance " + fmt.distance(distances[i]), slabAdsFormula, i, statics);
      parents := parents + [el];
    }
    var analysis := DistanceOptimizationFW(slabFormula, distances, name := Some(siteName + " distance analysis"),
                                           parents := parents);
    block := parents + [analysis];
    assert block[..|distances|] == parents;
  }

  /** The jobs of the distance-optimising branch: consecutive site blocks. */
  ghost predicate SiteBlocks(fws: seq<Firework>, distances: seq<real>)
    reads fws
    decreases |fws|
  {
    fws == [] ||
    (|fws| >= |distances| + 1 && IsSiteBlock(fws[..|distances| + 1], distances)
     && SiteBlocks(fws[|distances| + 1..], distances))
  }

  lemma {:induction false} SiteBlocksAppend(fws: seq<Firework>, block: seq<Firework>, distances: seq<real>)
    requires SiteBlocks(fws, distances) && IsSiteBlock(block, distances)
    ensures SiteBlocks(fws + block, distances)
    decreases |fws|
  {
    var k := |distances| + 1;
    if fws == [] {
      assert fws + block == block && block[..k] == block && block[k..] == [];
    } else {
      assert (fws + block)[..k] == fws[..k];
      assert (fws + block)[k..] == fws[k..] + block;
      SiteBlocksAppend(fws[k..], block, distances);
    }
  }

  lemma {:induction false} SiteBlocksConcat(fws: seq<Firework>, more: seq<Firework>, distances: seq<real>)
    requires SiteBlocks(fws, distances) && SiteBlocks(more, distances)
    ensures SiteBlocks(fws + more, distances)
    decreases |fws|
  {
    var k := |distances| + 1;
    if fws == [] {
      assert fws + more == more;
    } else {
      assert (fws + more)[..k] == fws[..k];
      assert (fws + more)[k..] == fws[k..] + more;
      SiteBlocksConcat(fws[k..], more, distances);
    }
  }

  /** The relaxation of the site named `siteName`: the slab + adsorbate job
      `"{site} slab + adsorbate optimization"` with the default settings and
      no parents, alone or, with the density of states, rewired into relax,
      static and non-self-consistent run. */
  ghost predicate IsRelaxBlock(block: seq<Firework>, siteName: string, dos: bool, core: CoreFireworks)
    reads block
  {
    var fwName := siteName + " " + SlabAdsPhrase;
    && |block| == (if dos then 3 else 1)
    && block[0].name == fwName && block[0].parents == []
    && if dos then
         Expansion.DosChain(block[0], block[1], block[2], DefaultSlabAdsTasks(fwName, core), fwName,
                            Expansion.SlabDosUpdate(), Expansion.SlabAdsDosPush(), core)
       else block[0].tasks == DefaultSlabAdsTasks(fwName, core)
  }

  /** One relaxation per site (`fw_name`), rewired for the density of
      states when asked: relax, static and non-self-consistent run, each
      added once. */
  method RelaxSite(siteName: string, ads: Adsorbate, slabData: SlabData, dos: bool, core: CoreFireworks)
    returns (jobs: seq<Firework>)
    ensures forall f :: f in jobs ==> fresh(f)
    ensures IsRelaxBlock(jobs, siteName, dos, core)
  {
    var fwName := siteName + " " + SlabAdsPhrase;
    Strings.ContainsSuffix(siteName + " ", SlabAdsPhrase);
    var relax := SlabAdsFW(ads.name, core, name := fwName, slabData := Some(slabData));
    assert relax.Ok?;
    var fw := relax.value;
    if dos {
      var staticFw, nscf := Expansion.DosRewire(fw, fwName, Expansion.SlabDosUpdate(), Expansion.SlabAdsDosPush(), core);
      jobs := [fw, staticFw, nscf];
    } else {
      jobs := [fw];
    }
  }

  /** The relaxations of the adsorbate's first `count` sites, site by site. */
  ghost predicate RelaxBlocks(fws: seq<Firework>, layout: NameLayout, ads: Adsorbate, count: nat, core: CoreFireworks)
    reads fws
    decreases count
  {
    if count == 0 then fws == []
    else
      var k := |fws| - BlockSize(layout);
      && k >= 0
      && RelaxBlocks(fws[..k], layout, ads, count - 1, core)
      && IsRelaxBlock(fws[k..], SiteName(layout.slabName, ads.name, count - 1), layout.dos, core)
  }

  /** The relaxations of every adsorbate over `count` sites each,
      adsorbate by adsorbate. */
  ghost predicate AllRelaxBlocks(fws: seq<Firework>, layout: NameLayout, adsorbates: seq<Adsorbate>, count: nat,
                                 core: CoreFireworks)
    reads fws
    decreases |adsorbates|
  {
    if adsorbates == [] then fws == []
    else
      var k := |fws| - count * BlockSize(layout);
      && k >= 0
      && AllRelaxBlocks(fws[..k], layout, adsorbates[..|adsorbates| - 1], count, core)
      && RelaxBlocks(fws[k..], layout, adsorbates[|adsorbates| - 1], count, core)
  }

  lemma RelaxBlocksAppend(fws: seq<Firework>, block: seq<Firework>, layout: NameLayout, ads: Adsorbate, n: nat,
                          core: CoreFireworks)
    requires !layout.optimize
    requires RelaxBlocks(fws, layout, ads, n, core)
    requires IsRelaxBlock(block, SiteName(layout.slabName, ads.name, n), layout.dos, core)
    ensures RelaxBlocks(fws + block, layout, ads, n + 1, core)
  {
    assert (fws + block)[..|fws|] == fws;
    assert (fws + block)[|fws|..] == block;
  }

  lemma AllRelaxBlocksStep(fws: seq<Firework>, jobs: seq<Firework>, layout: NameLayout, adsorbates: seq<Adsorbate>,
                           a: nat, count: nat, core: CoreFireworks)
    requires a < |adsorbates| && |jobs| == count * BlockSize(layout)
    requires AllRelaxBlocks(fws, layout, adsorbates[..a], count, core)
    requires RelaxBlocks(jobs, layout, adsorbates[a], count, core)
    ensures AllRelaxBlocks(fws + jobs, layout, adsorbates[..a + 1], count, core)
  {
    assert adsorbates[..a + 1][..a] == adsorbates[..a];
    assert adsorbates[..a + 1][a] == adsorbates[a];
    assert (fws + jobs)[..|fws|] == fws;
    assert (fws + jobs)[|fws|..] == jobs;
  }

  /** The same step as the source writes it: the static job's INCAR update
      is inserted with `static.insert(...)`, on the job instead of its task
      list, which fails for every site once the density of states is asked
      for. */
  method RelaxSiteAsWritten(siteName: string, ads: Adsorbate, slabData: SlabData, dos: bool, core: CoreFireworks)
    returns (r: Result<seq<Firework>, Expansion.ExpansionError>)
    ensures dos <==> r.Err?
    ensures r.Err? ==> r.error == Expansion.FireworkHasNoInsert
    ensures r.Ok? ==> |r.value| == 1 && fresh(r.value[0]) && r.value[0].name == siteName + " " + SlabAdsPhrase
  {
    var fwName := siteName + " " + SlabAdsPhrase;
    Strings.ContainsSuffix(siteName + " ", SlabAdsPhrase);
    var relax := SlabAdsFW(ads.name, core, name := fwName, slabData := Some(slabData));
    assert relax.Ok?;
    var fws: seq<Firework> := [];
    if dos {
      return Err(Expansion.FireworkHasNoInsert);
    }
    fws := fws + [relax.value];
    return Ok(fws);
  }

  /** The step with only the insertion repaired: the relaxation is then
      added a second time after the non-self-consistent job, by the
      unconditional append that follows the branch. */
  method RelaxSiteInsertFixed(siteName: string, ads: Adsorbate, slabData: SlabData, dos: bool, core: CoreFireworks)
    returns (jobs: seq<Firework>)
    ensures |jobs| == (if dos then 4 else 1)
    ensures dos ==> jobs[3] == jobs[0] && jobs[1].parents == [jobs[0]] && jobs[2].parents == [jobs[1]]
  {
    var fwName := siteName + " " + SlabAdsPhrase;
    Strings.ContainsSuffix(siteName + " ", SlabAdsPhrase);
    var relax := SlabAdsFW(ads.name, core, name := fwName, slabData := Some(slabData));
    assert relax.Ok?;
    var slabAdsFw := relax.value;
    jobs := [];
    if dos {
      jobs := jobs + [slabAdsFw];
      var staticFw, nscf := Expansion.DosRewire(slabAdsFw, fwName, Expansion.SlabDosUpdate(), Expansion.SlabAdsDosPush(), core);
      jobs := jobs + [staticFw, nscf];
    }
    jobs := jobs + [slabAdsFw];
  }

  lemma MulStep(c: nat, k: nat)
    ensures (c + 1) * k == c * k + k
  {
  }

  /** What the names of a slab's site jobs depend on: the slab's name and
      formula, the branch, the trial distances, the density-of-states flag
      and the number formats. */
  datatype NameLayout = NameLayout(slabName: Option<string>, slabFormula: string, optimize: bool,
                                   distances: seq<real>, dos: bool, fmt: Expansion.Formats)

  /** The number of jobs one site adds. */
  function BlockSize(layout: NameLayout): nat
  {
    if layout.optimize then |layout.distances| + 1 else if layout.dos then 3 else 1
  }

  /** The names of the jobs of the adsorbate's `n`-th site, in order: with
      the distance optimisation `"{formula}-{site} static distance {d}"`
      for every trial distance and then `"{slab formula}-{site} distance
      analysis"`; without it `"{site} slab + adsorbate optimization"`,
      followed by its static and nscf jobs when the density of states is
      asked for. */
  function SiteJobNames(layout: NameLayout, ads: Adsorbate, n: nat): (r: seq<string>)
    ensures |r| == BlockSize(layout)
  {
    var siteName := SiteName(layout.slabName, ads.name, n);
    if layout.optimize then
      seq(|layout.distances|, i requires 0 <= i < |layout.distances| =>
          ads.slabAdsFormula + "-" + siteName + " static distance " + layout.fmt.distance(layout.distances[i]))
      + [layout.slabFormula + "-" + siteName + " distance analysis"]
    else
      var fwName := siteName + " " + SlabAdsPhrase;
      if layout.dos then [fwName, fwName + " static", fwName + " nscf"] else [fwName]
  }

  /** The names of one adsorbate's jobs over its first `count` sites. */
  function AdsorbateJobNames(layout: NameLayout, ads: Adsorbate, count: nat): (r: seq<string>)
    ensures |r| == count * BlockSize(layout)
  {
    if count == 0 then []
    else
      MulStep(count - 1, BlockSize(layout));
      AdsorbateJobNames(layout, ads, count - 1) + SiteJobNames(layout, ads, count - 1)
  }

  /** The names of all the adsorbates' jobs, adsorbate by adsorbate. */
  function AllJobNames(layout: NameLayout, adsorbates: seq<Adsorbate>, count: nat): (r: seq<string>)
    ensures |r| == |adsorbates| * (count * BlockSize(layout))
  {
    if adsorbates == [] then []
    else
      var n := |adsorbates| - 1;
      MulStep(n, count * BlockSize(layout));
      AllJobNames(layout, adsorbates[..n], count) + AdsorbateJobNames(layout, adsorbates[n], count)
  }

  lemma AllJobNamesStep(layout: NameLayout, adsorbates: seq<Adsorbate>, a: nat, count: nat)
    requires a < |adsorbates|
    ensures AllJobNames(layout, adsorbates[..a + 1], count)
         == AllJobNames(layout, adsorbates[..a], count) + AdsorbateJobNames(layout, adsorbates[a], count)
  {
    assert adsorbates[..a + 1][..a] == adsorbates[..a];
    assert adsorbates[..a + 1][a] == adsorbates[a];
  }

  /** The names of the adsorbate's sites are distinct: they differ in the
      bracketed index. */
  lemma SiteNamesDistinct(slabName: Option<string>, adsName: string, m: nat, n: nat)
    requires m != n
    ensures SiteName(slabName, adsName, m) != SiteName(slabName, adsName, n)
  {
    var prefix := NameText(slabName) + " " + adsName + " [";
    var sm, sn := Strings.NatToString(m), Strings.NatToString(n);
    assert SiteName(slabName, adsName, m) == prefix + (sm + "]");
    assert SiteName(slabName, adsName, n) == prefix + (sn + "]");
    if prefix + (sm + "]") == prefix + (sn + "]") {
      assert (prefix + (sm + "]"))[|prefix|..] == sm + "]";
      assert (prefix + (sn + "]"))[|prefix|..] == sn + "]";
      assert (sm + "]")[..|sm + "]"| - 1] == sm;
      assert (sn + "]")[..|sn + "]"| - 1] == sn;
      Strings.NatToStringInjective(m, n);
    }
  }

  /** The jobs of one site: its site block when optimising the distance,
      its relaxation otherwise. */
  method SiteJobs(layout: NameLayout, ads: Adsorbate, n: nat, data: SlabData, statics: StaticSettings,
                  core: CoreFireworks)
    returns (block: seq<Firework>)
    ensures |block| == BlockSize(layout)
    ensures Names(block) == SiteJobNames(layout, ads, n)
    ensures layout.optimize ==> IsSiteBlock(block, layout.distances)
    ensures !layout.optimize ==> IsRelaxBlock(block, SiteName(layout.slabName, ads.name, n), layout.dos, core)
  {
    var siteName := SiteName(layout.slabName, ads.name, n);
    if layout.optimize {
      block := SiteBlock(siteName, ads.slabAdsFormula, layout.slabFormula, layout.distances, statics, layout.fmt);
    } else {
      block := RelaxSite(siteName, ads, data, layout.dos, core);
    }
  }

  /** The sites whose input site type cannot be found, in the relaxation
      branch, where it is computed for every adsorbate and site. */
  ghost predicate SiteTypeFails(adsorbates: seq<Adsorbate>, sites: seq<AdsSite>,
                                slabAdsOf: (Adsorbate, Vec3) -> SiteGeometry.SlabAdsGeometry)
  {
    exists a, n :: 0 <= a < |adsorbates| && 0 <= n < |sites| && SiteGeometry.InSiteType(slabAdsOf(adsorbates[a], sites[n].coord)).Err?
  }

  /** A site whose input site type is found extends the sites before it. */
  lemma SiteTypesExtend(ads: Adsorbate, sites: seq<AdsSite>, slabAdsOf: (Adsorbate, Vec3) -> SiteGeometry.SlabAdsGeometry, n: nat)
    requires n < |sites|
    requires forall m :: 0 <= m < n ==> SiteGeometry.InSiteType(slabAdsOf(ads, sites[m].coord)).Ok?
    requires SiteGeometry.InSiteType(slabAdsOf(ads, sites[n].coord)).Ok?
    ensures forall m :: 0 <= m < n + 1 ==> SiteGeometry.InSiteType(slabAdsOf(ads, sites[m].coord)).Ok?
  {
  }

  /** An adsorbate whose every site type is found extends the adsorbates
      before it. */
  lemma AdsorbatesExtend(adsorbates: seq<Adsorbate>, sites: seq<AdsSite>,
                         slabAdsOf: (Adsorbate, Vec3) -> SiteGeometry.SlabAdsGeometry, a: nat)
    requires a < |adsorbates|
    requires forall a', n :: 0 <= a' < a && 0 <= n < |sites| ==>
      SiteGeometry.InSiteType(slabAdsOf(adsorbates[a'], sites[n].coord)).Ok?
    requires forall n :: 0 <= n < |sites| ==> SiteGeometry.InSiteType(slabAdsOf(adsorbates[a], sites[n].coord)).Ok?
    ensures forall a', n :: 0 <= a' < a + 1 && 0 <= n < |sites| ==>
      SiteGeometry.InSiteType(slabAdsOf(adsorbates[a'], sites[n].coord)).Ok?
  {
  }

  /** The jobs of the adsorbate's first `n` sites: as many as they add,
      named by `AdsorbateJobNames`, and whole site blocks or relaxations. */
  ghost predicate SitesDone(fws: seq<Firework>, layout: NameLayout, ads: Adsorbate, n: nat, core: CoreFireworks)
    reads fws
  {
    && |fws| == n * BlockSize(layout) && Names(fws) == AdsorbateJobNames(layout, ads, n)
    && (layout.optimize ==> SiteBlocks(fws, layout.distances))
    && (!layout.optimize ==> RelaxBlocks(fws, layout, ads, n, core))
  }

  /** The jobs of one more site appended to those of the sites before it. */
  method AddSite(layout: NameLayout, ads: Adsorbate, n: nat, data: SlabData, statics: StaticSettings,
                 core: CoreFireworks, fws: seq<Firework>)
    returns (more: seq<Firework>)
    requires SitesDone(fws, layout, ads, n, core)
    ensures SitesDone(more, layout, ads, n + 1, core)
  {
    var block := SiteJobs(layout, ads, n, data, statics, core);
    SitesDoneStep(fws, block, layout, ads, n, core);
    more := fws + block;
  }

  lemma SitesDoneStep(fws: seq<Firework>, block: seq<Firework>, layout: NameLayout, ads: Adsorbate, n: nat,
                      core: CoreFireworks)
    requires SitesDone(fws, layout, ads, n, core)
    requires |block| == BlockSize(layout) && Names(block) == SiteJobNames(layout, ads, n)
    requires layout.optimize ==> IsSiteBlock(block, layout.distances)
    requires !layout.optimize ==> IsRelaxBlock(block, SiteName(layout.slabName, ads.name, n), layout.dos, core)
    ensures SitesDone(fws + block, layout, ads, n + 1, core)
  {
    SiteNamesStep(fws, block, layout, ads, n);
    if layout.optimize {
      SiteBlocksAppend(fws, block, layout.distances);
    } else {
      RelaxBlocksAppend(fws, block, layout, ads, n, core);
    }
  }

  lemma SiteNamesStep(fws: seq<Firework>, block: seq<Firework>, layout: NameLayout, ads: Adsorbate, n: nat)
    requires |fws| == n * BlockSize(layout) && Names(fws) == AdsorbateJobNames(layout, ads, n)
    requires |block| == BlockSize(layout) && Names(block) == SiteJobNames(layout, ads, n)
    ensures |fws + block| == (n + 1) * BlockSize(layout)
    ensures Names(fws + block) == AdsorbateJobNames(layout, ads, n + 1)
  {
    NamesAppend(fws, block);
    MulStep(n, BlockSize(layout));
  }

  /** The input site type of the structure `slabAdsOf(ads, coord)` at
      every site in turn: the failure of the first site where it cannot be
      found, if any. */
  method FindSiteTypes(ads: Adsorbate, sites: seq<AdsSite>,
                       slabAdsOf: (Adsorbate, Vec3) -> SiteGeometry.SlabAdsGeometry)
    returns (failure: Option<SiteGeometry.GeometryError>)
    ensures failure.None? <==>
      forall n :: 0 <= n < |sites| ==> SiteGeometry.InSiteType(slabAdsOf(ads, sites[n].coord)).Ok?
  {
    for n := 0 to |sites|
      invariant forall m :: 0 <= m < n ==> SiteGeometry.InSiteType(slabAdsOf(ads, sites[m].coord)).Ok?
    {
      var inSiteType := SiteGeometry.InSiteType(slabAdsOf(ads, sites[n].coord));
      if inSiteType.Err? {
        return Some(inSiteType.error);
      }
      SiteTypesExtend(ads, sites, slabAdsOf, n);
    }
    return None;
  }

  /** The input site type at every site for every adsorbate in turn: the
      failure of the first where it cannot be found, if any. */
  method FindAllSiteTypes(adsorbates: seq<Adsorbate>, sites: seq<AdsSite>,
                          slabAdsOf: (Adsorbate, Vec3) -> SiteGeometry.SlabAdsGeometry)
    returns (failure: Option<SiteGeometry.GeometryError>)
    ensures failure.Some? <==> SiteTypeFails(adsorbates, sites, slabAdsOf)
  {
    for a := 0 to |adsorbates|
      invariant forall a', n :: 0 <= a' < a && 0 <= n < |sites| ==>
        SiteGeometry.InSiteType(slabAdsOf(adsorbates[a'], sites[n].coord)).Ok?
    {
      failure := FindSiteTypes(adsorbates[a], sites, slabAdsOf);
      if failure.Some? {
        return;
      }
      AdsorbatesExtend(adsorbates, sites, slabAdsOf, a);
    }
    return None;
  }

  /** The jobs of one adsorbate, site by site. */
  method AdsorbateJobs(layout: NameLayout, ads: Adsorbate, sites: seq<AdsSite>, data: SlabData,
                       statics: StaticSettings, core: CoreFireworks)
    returns (fws: seq<Firework>)
    ensures SitesDone(fws, layout, ads, |sites|, core)
  {
    fws := [];
    for n := 0 to |sites|
      invariant SitesDone(fws, layout, ads, n, core)
    {
      fws := AddSite(layout, ads, n, data, statics, core, fws);
    }
  }

  /** The jobs of the adsorbates over `count` sites each: as many as they
      add, named by `AllJobNames`, and whole site blocks or relaxations. */
  ghost predicate AdsorbatesDone(fws: seq<Firework>, layout: NameLayout, adsorbates: seq<Adsorbate>, count: nat,
                                 core: CoreFireworks)
    reads fws
  {
    && |fws| == |adsorbates| * (count * BlockSize(layout)) && Names(fws) == AllJobNames(layout, adsorbates, count)
    && (layout.optimize ==> SiteBlocks(fws, layout.distances))
    && (!layout.optimize ==> AllRelaxBlocks(fws, layout, adsorbates, count, core))
  }

  /** The jobs of one more adsorbate appended to those of the adsorbates
      before it. */
  method AddAdsorbate(layout: NameLayout, adsorbates: seq<Adsorbate>, a: nat, sites: seq<AdsSite>,
                      data: SlabData, statics: StaticSettings, core: CoreFireworks, fws: seq<Firework>)
    returns (more: seq<Firework>)
    requires a < |adsorbates|
    requires AdsorbatesDone(fws, layout, adsorbates[..a], |sites|, core)
    ensures AdsorbatesDone(more, layout, adsorbates[..a + 1], |sites|, core)
  {
    var jobs := AdsorbateJobs(layout, adsorbates[a], sites, data, statics, core);
    AdsorbatesDoneStep(fws, jobs, layout, adsorbates, a, |sites|, core);
    more := fws + jobs;
  }

  lemma AdsorbatesDoneStep(fws: seq<Firework>, jobs: seq<Firework>, layout: NameLayout, adsorbates: seq<Adsorbate>,
                           a: nat, count: nat, core: CoreFireworks)
    requires a < |adsorbates|
    requires AdsorbatesDone(fws, layout, adsorbates[..a], count, core)
    requires SitesDone(jobs, layout, adsorbates[a], count, core)
    ensures AdsorbatesDone(fws + jobs, layout, adsorbates[..a + 1], count, core)
  {
    AdsorbateNamesStep(fws, jobs, layout, adsorbates, a, count);
    if layout.optimize {
      SiteBlocksConcat(fws, jobs, layout.distances);
    } else {
      AllRelaxBlocksStep(fws, jobs, layout, adsorbates, a, count, core);
    }
  }

  lemma AdsorbateNamesStep(fws: seq<Firework>, jobs: seq<Firework>, layout: NameLayout, adsorbates: seq<Adsorbate>,
                           a: nat, count: nat)
    requires a < |adsorbates|
    requires |fws| == a * (count * BlockSize(layout)) && Names(fws) == AllJobNames(layout, adsorbates[..a], count)
    requires |jobs| == count * BlockSize(layout) && Names(jobs) == AdsorbateJobNames(layout, adsorbates[a], count)
    ensures |fws + jobs| == (a + 1) * (count * BlockSize(layout))
    ensures Names(fws + jobs) == AllJobNames(layout, adsorbates[..a + 1], count)
  {
    AllJobNamesStep(layout, adsorbates, a, count);
    NamesAppend(fws, jobs);
    MulStep(a, count * BlockSize(layout));
  }

  /** The loop's last prefix is the whole list. */
  lemma AdsorbatesDoneAll(fws: seq<Firework>, layout: NameLayout, adsorbates: seq<Adsorbate>, count: nat,
                          core: CoreFireworks)
    requires AdsorbatesDone(fws, layout, adsorbates[..|adsorbates|], count, core)
    ensures AdsorbatesDone(fws, layout, adsorbates, count, core)
  {
    assert adsorbates[..|adsorbates|] == adsorbates;
  }

  /** The jobs of every adsorbate, adsorbate by adsorbate. */
  method AllAdsorbateJobs(layout: NameLayout, adsorbates: seq<Adsorbate>, sites: seq<AdsSite>, data: SlabData,
                          statics: StaticSettings, core: CoreFireworks)
    returns (fws: seq<Firework>)
    ensures AdsorbatesDone(fws, layout, adsorbates, |sites|, core)
  {
    fws := [];
    for a := 0 to |adsorbates|
      invariant AdsorbatesDone(fws, layout, adsorbates[..a], |sites|, core)
    {
      fws := AddAdsorbate(layout, adsorbates, a, sites, data, statics, core, fws);
    }
    AdsorbatesDoneAll(fws, layout, adsorbates, |sites|, core);
  }

  /** SlabAdsAdditionTask: for every adsorbate, the jobs of every site, as
      site blocks when optimising the distance and as relaxations
      otherwise, named by site index. It fails when a requested position
      kind was not reported by the site finder, which is consulted once
      there is an adsorbate, or, in the relaxation branch, when the input
      site type of some adsorbate at some site cannot be found. A failure
      discards every job built before it, so the model finds all the site
      types before it builds any job. The relaxations are built by the
      corrected `RelaxSite`. */
  method SlabAdsAdditionTask(slabData: Option<SlabData>, slabFormula: string, adsorbates: seq<Adsorbate>,
                             optimize: bool, staticDistances: Option<seq<real>>, args: FindArgs,
                             findSites: real -> map<string, seq<Vec3>>,
                             slabAdsOf: (Adsorbate, Vec3) -> SiteGeometry.SlabAdsGeometry,
                             statics: StaticSettings, dos: bool, core: CoreFireworks, fmt: Expansion.Formats)
    returns (r: Result<seq<Firework>, Expansion.ExpansionError>)
    ensures r.Err? <==>
      (adsorbates != [] && (
        || SitesFor(optimize, args, findSites).Err?
        || (!optimize && SiteTypeFails(adsorbates, SitesFor(optimize, args, findSites).value, slabAdsOf))))
    ensures r.Ok? && adsorbates != [] ==>
      var layout := NameLayout((if slabData.Some? then slabData.value else EmptySlabData).name, slabFormula, optimize,
                               StaticDistances(staticDistances), dos, fmt);
      && |r.value| == |adsorbates| * (|SitesFor(optimize, args, findSites).value| * BlockSize(layout))
      && Names(r.value) == AllJobNames(layout, adsorbates, |SitesFor(optimize, args, findSites).value|)
      && (!optimize ==> AllRelaxBlocks(r.value, layout, adsorbates, |SitesFor(optimize, args, findSites).value|, core))
    ensures r.Ok? && adsorbates != [] && optimize ==> SiteBlocks(r.value, StaticDistances(staticDistances))
    ensures adsorbates == [] ==> r == Ok([])
  {
    var data := if slabData.Some? then slabData.value else EmptySlabData;
    var distances := StaticDistances(staticDistances);
    var layout := NameLayout(data.name, slabFormula, optimize, distances, dos, fmt);
    var found := SitesFor(optimize, args, findSites);
    if adsorbates == [] {
      return Ok([]);
    }
    if found.Err? {
      return Err(found.error);
    }
    if !optimize {
      var failure := FindAllSiteTypes(adsorbates, found.value, slabAdsOf);
      if failure.Some? {
        return Err(Expansion.SiteTypeFailure(failure.value));
      }
    }
    var fws := AllAdsorbateJobs(layout, adsorbates, found.value, data, statics, core);
    return Ok(fws);
  }

  // ---------------------------------------------------------------- writer and reader agree

  /** The sample energies in the distance analysis's spec once the static
      job at every position i of `static_distances` has pushed its energy
      under `"{i}_energy"`. */
  function PushedEnergies(energies: seq<real>): map<string, real>
  {
    if energies == [] then map[]
    else PushedEnergies(energies[..|energies| - 1])[DistanceOptimum.EnergyKey(|energies| - 1) := energies[|energies| - 1]]
  }

  lemma {:induction false} PushedEnergyAt(energies: seq<real>, k: nat)
    requires k < |energies|
    ensures DistanceOptimum.EnergyKey(k) in PushedEnergies(energies)
    ensures PushedEnergies(energies)[DistanceOptimum.EnergyKey(k)] == energies[k]
    decreases |energies|
  {
    var n := |energies| - 1;
    if k < n {
      DistanceOptimum.EnergyKeyInjective(k, n);
      PushedEnergyAt(energies[..n], k);
    }
  }

  lemma {:induction false} PushedSamples(distances: seq<real>, energies: seq<real>, n: nat)
    requires |energies| == |distances| && n <= |distances|
    ensures DistanceOptimum.SamplesUpTo(distances, PushedEnergies(energies), n)
         == seq(n, i requires 0 <= i < n => DistanceOptimum.Sample(distances[i], energies[i]))
  {
    if n > 0 {
      PushedSamples(distances, energies, n - 1);
      PushedEnergyAt(energies, n - 1);
    }
  }

  /** When every static job of a site has finished and `static_distances`
      is ascending, the analysis pairs each energy with the distance its
      job was placed at: the i-th sample is (static_distances[i], energy
      of job i). */
  lemma WriterReaderAgree(staticDistances: seq<real>, energies: seq<real>)
    requires |energies| == |staticDistances|
    requires Sorting.SortedBy(staticDistances, DistanceOptimum.Id)
    ensures DistanceOptimum.SamplesUpTo(DistanceOptimum.SortedDistances(staticDistances), PushedEnergies(energies), |staticDistances|)
         == seq(|staticDistances|, i requires 0 <= i < |staticDistances| => DistanceOptimum.Sample(staticDistances[i], energies[i]))
  {
    DistanceOptimum.PairingWhenSorted(staticDistances);
    PushedSamples(staticDistances, energies, |staticDistances|);
  }
}
