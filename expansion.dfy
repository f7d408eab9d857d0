/** Job-graph expansion: the slab generator (`SlabAdditionTask`), the
    relaxation launched at the chosen adsorbate distance
    (`LaunchVaspFromOptimumDistance`) and the density-of-states rewiring
    both share. Slab generation, dimensionality, the site finder and the
    structures themselves are supplied as values. */
module Expansion {
  import opened Results
  import opened Fireworks
  import Strings
  import DistanceOptimum
  import SiteGeometry
  import Sorting

  // ---------------------------------------------------------------- Python list operations

  /** `s.insert(i, x)`: ahead of position `i`, or at the end when the list
      is shorter than `i`. */
  function Insert<T>(s: seq<T>, i: nat, x: T): (r: seq<T>)
    ensures |r| == |s| + 1
    ensures i <= |s| ==> r[i] == x && r[..i] == s[..i] && r[i + 1..] == s[i..]
    ensures i > |s| ==> r == s + [x]
  {
    if i <= |s| then
      assert s == s[..i] + s[i..];
      s[..i] + [x] + s[i..]
    else s + [x]
  }

  /** `s.remove(x)`: drops the first element equal to `x`; a list without
      `x` stays as it is (Python raises instead, which cannot happen here
      because `x` is always taken from the list). */
  function RemoveFirst<T(==)>(s: seq<T>, x: T): (r: seq<T>)
    ensures x in s ==> |r| == |s| - 1
    ensures x !in s ==> r == s
  {
    if s == [] then []
    else if s[0] == x then
      assert s == [s[0]] + s[1..];
      s[1..]
    else
      assert s == [s[0]] + s[1..];
      [s[0]] + RemoveFirst(s[1..], x)
  }

  /** Inserting adds exactly one element. */
  lemma InsertCounts<T>(s: seq<T>, i: nat, x: T)
    ensures multiset(Insert(s, i, x)) == multiset(s) + multiset{x}
  {
    if i <= |s| {
      assert s == s[..i] + s[i..];
    }
  }

  /** Removing drops exactly one occurrence of a present element. */
  lemma {:induction false} RemoveFirstCounts<T>(s: seq<T>, x: T)
    requires x in s
    ensures multiset(RemoveFirst(s, x)) == multiset(s) - multiset{x}
  {
    assert s == [s[0]] + s[1..];
    if s[0] != x {
      RemoveFirstCounts(s[1..], x);
    }
  }

  function Last<T>(s: seq<T>): T
    requires s != []
  {
    s[|s| - 1]
  }

  /** Removing the last element, when nothing equal to it comes earlier,
      leaves exactly the elements before it. */
  lemma {:induction false} RemoveLast<T>(s: seq<T>)
    requires s != [] && Last(s) !in s[..|s| - 1]
    ensures RemoveFirst(s, Last(s)) == s[..|s| - 1]
  {
    if |s| > 1 {
      var t := s[1..];
      assert s[..|s| - 1][0] == s[0];
      assert Last(t) == Last(s);
      assert t[..|t| - 1] == s[1..|s| - 1];
      assert s[..|s| - 1] == [s[0]] + t[..|t| - 1];
      RemoveLast(t);
    }
  }

  // ---------------------------------------------------------------- density-of-states rewiring

  /** The relax job with its original tasks `relaxTasks`, followed by the
      static job named `name + " static"` and the non-self-consistent job
      named `name + " nscf"`: the relax job's last task (the addition task)
      is taken off it and appended to the non-self-consistent job, and both
      the static and the non-self-consistent job get the INCAR update as
      their third task. */
  ghost predicate DosChain(relax: Firework, staticFw: Firework, nscf: Firework, relaxTasks: seq<Task>,
                           name: string, update: Incar, nscfPush: map<string, string>, core: CoreFireworks)
    reads relax, staticFw, nscf
  {
    && relaxTasks != []
    && relax.tasks == RemoveFirst(relaxTasks, Last(relaxTasks))
    && staticFw.name == name + " static" && staticFw.parents == [relax]
    && staticFw.tasks == Insert(core.staticTasks(name + " static"), 2, ModifyIncar(update))
    && nscf.name == name + " nscf" && nscf.parents == [staticFw]
    && nscf.tasks == Insert(core.nscfTasks(name + " nscf", NoVaspToDbKwargs.(fieldsToPush := nscfPush)), 2,
                            ModifyIncar(update)) + [Last(relaxTasks)]
  }

  /** What the rewiring leaves: the moved task ends the non-self-consistent
      job and is gone from the relax job (exactly its last task when
      nothing equal comes before it), and the update is the third task of
      the static and non-self-consistent jobs whenever their own task
      lists have two tasks to go ahead of it. */
  lemma DosChainParts(relax: Firework, staticFw: Firework, nscf: Firework, relaxTasks: seq<Task>,
                      name: string, update: Incar, nscfPush: map<string, string>, core: CoreFireworks)
    requires DosChain(relax, staticFw, nscf, relaxTasks, name, update, nscfPush, core)
    ensures Last(nscf.tasks) == Last(relaxTasks)
    ensures multiset(relax.tasks) == multiset(relaxTasks) - multiset{Last(relaxTasks)}
    ensures Last(relaxTasks) !in relaxTasks[..|relaxTasks| - 1] ==> relax.tasks == relaxTasks[..|relaxTasks| - 1]
    ensures |core.staticTasks(name + " static")| >= 2 ==> staticFw.tasks[2] == ModifyIncar(update)
    ensures |core.nscfTasks(name + " nscf", NoVaspToDbKwargs.(fieldsToPush := nscfPush))| >= 2 ==>
      nscf.tasks[2] == ModifyIncar(update)
  {
    assert Last(relaxTasks) == relaxTasks[|relaxTasks| - 1];
    RemoveFirstCounts(relaxTasks, Last(relaxTasks));
    if Last(relaxTasks) !in relaxTasks[..|relaxTasks| - 1] {
      RemoveLast(relaxTasks);
    }
  }

  /** Relax, static and non-self-consistent run: the relax job's last task
      (the addition task) is taken off it and appended to the
      non-self-consistent job, which follows the static job, which follows
      the relax job. */
  method DosRewire(relax: Firework, name: string, update: Incar, nscfPush: map<string, string>, core: CoreFireworks)
    returns (staticFw: Firework, nscf: Firework)
    requires relax.tasks != []
    modifies relax
    ensures fresh(staticFw) && fresh(nscf)
    ensures relax.name == old(relax.name) && relax.parents == old(relax.parents)
    ensures DosChain(relax, staticFw, nscf, old(relax.tasks), name, update, nscfPush, core)
  {
    var analysisStep := Last(relax.tasks);
    relax.tasks := RemoveFirst(relax.tasks, analysisStep);
    staticFw := new Firework(core.staticTasks(name + " static"), [relax], name + " static");
    staticFw.tasks := Insert(staticFw.tasks, 2, ModifyIncar(update));
    nscf := new Firework(core.nscfTasks(name + " nscf", NoVaspToDbKwargs.(fieldsToPush := nscfPush)), [staticFw], name + " nscf");
    nscf.tasks := Insert(nscf.tasks, 2, ModifyIncar(update));
    nscf.tasks := nscf.tasks + [analysisStep];
  }

  function SlabDosUpdate(): Incar
  {
    map["IVDW" := IntValue(11), "GG" := TextValue("RP"), "LAECHG" := BoolValue(true)]
  }

  function SlabAdsLaunchDosUpdate(): Incar
  {
    map["IVDW" := IntValue(11), "GG" := TextValue("RP")]
  }

  /** What the non-self-consistent job of a slab pushes to its children. */
  function SlabDosPush(): map<string, string>
  {
    map["slab_structure" := "output.structure", "slab_energy" := "output.energy"]
  }

  /** What the non-self-consistent job of a slab + adsorbate relaxation
      pushes to its children. */
  function SlabAdsDosPush(): map<string, string>
  {
    map["slab_ads_structure" := "output.structure", "slab_ads_energy" := "output.energy"]
  }

  // ---------------------------------------------------------------- slab generation

  /** `sgp` with the three slab-generation defaults added where missing. */
  function SlabGenDefaults(sgp: map<string, IncarValue>): (r: map<string, IncarValue>)
    ensures r.Keys == sgp.Keys + {"min_slab_size", "min_vacuum_size", "max_index"}
    ensures forall k :: k in sgp ==> r[k] == sgp[k]
    ensures "min_slab_size" !in sgp ==> r["min_slab_size"] == RealValue(12.0)
    ensures "min_vacuum_size" !in sgp ==> r["min_vacuum_size"] == RealValue(20.0)
    ensures "max_index" !in sgp ==> r["max_index"] == IntValue(1)
  {
    var a := if "min_slab_size" in sgp then sgp else sgp["min_slab_size" := RealValue(12.0)];
    var b := if "min_vacuum_size" in a then a else a["min_vacuum_size" := RealValue(20.0)];
    if "max_index" in b then b else b["max_index" := IntValue(1)]
  }

  /** `min_lw or 10.0`. */
  function MinLw(given: Option<real>): (r: real)
    ensures given.Some? && given.value != 0.0 ==> r == given.value
    ensures given.None? || given.value == 0.0 ==> r == 10.0
  {
    if given.Some? && given.value != 0.0 then given.value else 10.0
  }

  datatype Site = Site(species: string, coord: SiteGeometry.FracCoord)

  /** A generated slab: reduced formula, Miller index, shift, its sites, the
      sites of its oriented unit cell, and whether its two terminations are
      equivalent. */
  datatype Slab = Slab(formula: string, millerIndex: seq<int>, shift: real, sites: seq<Site>,
                       orientedCell: seq<SiteGeometry.FracCoord>, equivalentSurfaces: bool)

  function Coords(sites: seq<Site>): (r: seq<SiteGeometry.FracCoord>)
    ensures |r| == |sites| && forall k :: 0 <= k < |sites| ==> r[k] == sites[k].coord
  {
    seq(|sites|, k requires 0 <= k < |sites| => sites[k].coord)
  }

  /** The species on the top (highest fractional c) and on the bottom of a
      structure. */
  function TopSpecies(sites: seq<Site>): set<string>
    requires sites != []
  {
    var top := Sorting.MaxOf(SiteGeometry.Heights(Coords(sites)));
    set k | 0 <= k < |sites| && sites[k].coord.c == top :: sites[k].species
  }

  function BottomSpecies(sites: seq<Site>): set<string>
    requires sites != []
  {
    var bottom := Sorting.MinOf(SiteGeometry.Heights(Coords(sites)));
    set k | 0 <= k < |sites| && sites[k].coord.c == bottom :: sites[k].species
  }

  /** A site with the greatest height contributes its species to the top. */
  lemma TopSpeciesNonEmpty(sites: seq<Site>)
    requires sites != []
    ensures TopSpecies(sites) != {} && BottomSpecies(sites) != {}
  {
    var hs := SiteGeometry.Heights(Coords(sites));
    var it :| 0 <= it < |hs| && hs[it] == Sorting.MaxOf(hs);
    var ib :| 0 <= ib < |hs| && hs[ib] == Sorting.MinOf(hs);
    assert sites[it].species in TopSpecies(sites);
    assert sites[ib].species in BottomSpecies(sites);
  }

  datatype ExpansionError =
    | EmptyStructure                // `max()` of no coordinates
    | MissingOptimalDistance(e: DistanceOptimum.LaunchError)
    | UnknownSitePosition(position: string)
    | FireworkHasNoInsert           // `static.insert(...)` on a Firework object
    | SiteTypeFailure(cause: SiteGeometry.GeometryError)  // finding the input site type

  /** A layered bulk keeps only the (0,0,1) slabs whose top and bottom
      species agree with the bulk cell's. */
  ghost predicate Keeps2D(bulk: seq<Site>, s: Slab)
  {
    bulk != [] && s.millerIndex == [0, 0, 1] && s.sites != []
    && TopSpecies(s.sites) == TopSpecies(bulk) && BottomSpecies(s.sites) == BottomSpecies(bulk)
  }

  /** The (0,0,1) slabs, in their generated order. */
  function Of001(slabs: seq<Slab>): (r: seq<Slab>)
    ensures |r| <= |slabs|
    ensures forall s :: s in r <==> s in slabs && s.millerIndex == [0, 0, 1]
  {
    if slabs == [] then []
    else
      var init := slabs[..|slabs| - 1];
      assert slabs == init + [Last(slabs)];
      Of001(init) + (if Last(slabs).millerIndex == [0, 0, 1] then [Last(slabs)] else [])
  }

  /** The slabs whose top and bottom species agree with the bulk's, in
      order. */
  function MatchingTerminations(bulk: seq<Site>, slabs2d: seq<Slab>): (r: seq<Slab>)
    requires bulk != [] && forall s :: s in slabs2d ==> s.sites != []
    ensures |r| <= |slabs2d|
    ensures forall s :: s in r <==>
      s in slabs2d && TopSpecies(s.sites) == TopSpecies(bulk) && BottomSpecies(s.sites) == BottomSpecies(bulk)
  {
    if slabs2d == [] then []
    else
      var init := slabs2d[..|slabs2d| - 1];
      var last := Last(slabs2d);
      assert slabs2d == init + [last];
      MatchingTerminations(bulk, init)
        + (if TopSpecies(last.sites) == TopSpecies(bulk) && BottomSpecies(last.sites) == BottomSpecies(bulk)
           then [last] else [])
  }

  /** `slabs_2d`: the (0,0,1) slabs, in order. */
  method Slabs001(slabs: seq<Slab>) returns (slabs2d: seq<Slab>)
    ensures slabs2d == Of001(slabs)
  {
    slabs2d := [];
    for i := 0 to |slabs|
      invariant slabs2d == Of001(slabs[..i])
    {
      if slabs[i].millerIndex == [0, 0, 1] {
        slabs2d := slabs2d + [slabs[i]];
      }
      assert slabs[..i + 1][..i] == slabs[..i];
    }
    assert slabs[..|slabs|] == slabs;
  }

  /** The loop over the (0,0,1) slabs, failing at the first empty one. */
  lemma MatchingStep(bulk: seq<Site>, slabs2d: seq<Slab>, i: nat)
    requires bulk != [] && i < |slabs2d| && slabs2d[i].sites != []
    requires forall s :: s in slabs2d[..i] ==> s.sites != []
    ensures forall s :: s in slabs2d[..i + 1] ==> s.sites != []
    ensures MatchingTerminations(bulk, slabs2d[..i + 1])
         == MatchingTerminations(bulk, slabs2d[..i])
            + (if TopSpecies(slabs2d[i].sites) == TopSpecies(bulk) && BottomSpecies(slabs2d[i].sites) == BottomSpecies(bulk)
               then [slabs2d[i]] else [])
  {
    assert slabs2d[..i + 1] == slabs2d[..i] + [slabs2d[i]];
    assert slabs2d[..i + 1][..i] == slabs2d[..i];
  }

  /** One pass of that loop over a slab with sites: kept when its top and
      bottom species are the bulk's (`maxSite`, `minSite`). */
  method KeepIfMatching(bulk: seq<Site>, slabs2d: seq<Slab>, i: nat, maxSite: set<string>, minSite: set<string>, kept: seq<Slab>)
    returns (more: seq<Slab>)
    requires bulk != [] && maxSite == TopSpecies(bulk) && minSite == BottomSpecies(bulk)
    requires i < |slabs2d| && slabs2d[i].sites != []
    requires forall s :: s in slabs2d[..i] ==> s.sites != []
    requires kept == MatchingTerminations(bulk, slabs2d[..i])
    ensures forall s :: s in slabs2d[..i + 1] ==> s.sites != []
    ensures more == MatchingTerminations(bulk, slabs2d[..i + 1])
  {
    MatchingStep(bulk, slabs2d, i);
    more := kept;
    if TopSpecies(slabs2d[i].sites) == maxSite && BottomSpecies(slabs2d[i].sites) == minSite {
      more := kept + [slabs2d[i]];
    }
  }

  method KeepMatching(bulk: seq<Site>, slabs2d: seq<Slab>) returns (r: Result<seq<Slab>, ExpansionError>)
    requires bulk != []
    ensures r.Err? <==> exists s :: s in slabs2d && s.sites == []
    ensures r.Ok? ==> r.value == MatchingTerminations(bulk, slabs2d)
  {
    var maxSite, minSite := TopSpecies(bulk), BottomSpecies(bulk);
    var kept: seq<Slab> := [];
    for i := 0 to |slabs2d|
      invariant forall s :: s in slabs2d[..i] ==> s.sites != []
      invariant kept == MatchingTerminations(bulk, slabs2d[..i])
    {
      if slabs2d[i].sites == [] {
        assert slabs2d[i] in slabs2d;
        return Err(EmptyStructure);
      }
      kept := KeepIfMatching(bulk, slabs2d, i, maxSite, minSite, kept);
    }
    assert slabs2d[..|slabs2d|] == slabs2d;
    return Ok(kept);
  }

  /** The slabs a layered bulk keeps: the (0,0,1) slabs whose top and
      bottom species agree with the bulk cell's, in order. An empty bulk or
      an empty (0,0,1) slab fails (`max` of no coordinates). */
  method LayeredFilter(bulk: seq<Site>, slabs: seq<Slab>) returns (r: Result<seq<Slab>, ExpansionError>)
    ensures r.Err? <==> bulk == [] || exists s :: s in slabs && s.millerIndex == [0, 0, 1] && s.sites == []
    ensures r.Ok? ==> r.value == MatchingTerminations(bulk, Of001(slabs))
    ensures r.Ok? ==> forall s :: s in r.value <==> s in slabs && Keeps2D(bulk, s)
  {
    var slabs2d := Slabs001(slabs);
    if bulk == [] {
      return Err(EmptyStructure);
    }
    r := KeepMatching(bulk, slabs2d);
  }

  /** The sites with new coordinates, species kept. */
  function PlaceSites(sites: seq<Site>, coords: seq<SiteGeometry.FracCoord>): (r: seq<Site>)
    requires |coords| == |sites|
    ensures |r| == |sites| && Coords(r) == coords
    ensures forall k :: 0 <= k < |sites| ==> r[k].species == sites[k].species
  {
    seq(|sites|, k requires 0 <= k < |sites| => Site(sites[k].species, coords[k]))
  }

  lemma PlaceOwnCoords(sites: seq<Site>)
    ensures PlaceSites(sites, Coords(sites)) == sites
  {
  }

  lemma PlaceTwice(sites: seq<Site>, c1: seq<SiteGeometry.FracCoord>, c2: seq<SiteGeometry.FracCoord>)
    requires |c1| == |sites| && |c2| == |sites|
    ensures PlaceSites(PlaceSites(sites, c1), c2) == PlaceSites(sites, c2)
  {
  }

  /** The other termination of a slab: coordinates and oriented cell mirrored
      along c and the shift negated. */
  function InvertSlab(s: Slab): (r: Result<Slab, ExpansionError>)
    ensures r.Err? <==> s.sites == [] || s.orientedCell == []
    ensures r.Ok? ==> (
      && r.value.formula == s.formula && r.value.millerIndex == s.millerIndex
      && r.value.shift + s.shift == 0.0 && |r.value.sites| == |s.sites|
      && (forall k :: 0 <= k < |s.sites| ==> r.value.sites[k].species == s.sites[k].species)
      && Coords(r.value.sites) == SiteGeometry.InvertCoordinates(Coords(s.sites)).value
      && r.value.orientedCell == SiteGeometry.InvertCoordinates(s.orientedCell).value
      && r.value.equivalentSurfaces == s.equivalentSurfaces)
  {
    var coords := SiteGeometry.InvertCoordinates(Coords(s.sites));
    var cell := SiteGeometry.InvertCoordinates(s.orientedCell);
    if coords.Err? || cell.Err? then Err(EmptyStructure)
    else
      Ok(s.(shift := SiteGeometry.InvertedShift(s.shift),
            sites := PlaceSites(s.sites, coords.value),
            orientedCell := cell.value))
  }

  /** Inverting the inverted slab gives the slab back. */
  lemma InvertSlabInvolution(s: Slab)
    requires s.sites != [] && s.orientedCell != []
    ensures InvertSlab(InvertSlab(s).value) == Ok(s)
  {
    var c0 := Coords(s.sites);
    SiteGeometry.InversionInvolution(c0);
    SiteGeometry.InversionInvolution(s.orientedCell);
    var c1 := SiteGeometry.InvertCoordinates(c0).value;
    var once := InvertSlab(s).value;
    assert once.sites == PlaceSites(s.sites, c1);
    assert Coords(once.sites) == c1;
    assert SiteGeometry.InvertCoordinates(c1) == Ok(c0);
    PlaceTwice(s.sites, c1, c0);
    PlaceOwnCoords(s.sites);
    var twice := InvertSlab(once).value;
    assert twice.sites == s.sites;
    assert twice.orientedCell == s.orientedCell;
    assert twice.shift == s.shift;
  }

  /** The slabs whose two terminations differ, in order. */
  function NonEquivalent(slabs: seq<Slab>): (r: seq<Slab>)
  {
    if slabs == [] then []
    else
      var last := slabs[|slabs| - 1];
      NonEquivalent(slabs[..|slabs| - 1]) + (if last.equivalentSurfaces then [] else [last])
  }

  /** The inversions of the slabs whose terminations differ, failing at the
      first of them that has no sites or no oriented cell. */
  function Inversions(slabs: seq<Slab>): Result<seq<Slab>, ExpansionError>
  {
    if slabs == [] then Ok([])
    else
      var init := Inversions(slabs[..|slabs| - 1]);
      var last := slabs[|slabs| - 1];
      if init.Err? || last.equivalentSurfaces then init
      else
        var inv := InvertSlab(last);
        if inv.Err? then Err(inv.error) else Ok(init.value + [inv.value])
  }

  lemma InversionsStep(slabs: seq<Slab>, i: nat)
    requires i < |slabs|
    ensures Inversions(slabs[..i + 1])
         == if Inversions(slabs[..i]).Err? || slabs[i].equivalentSurfaces then Inversions(slabs[..i])
            else if InvertSlab(slabs[i]).Err? then Err(InvertSlab(slabs[i]).error)
            else Ok(Inversions(slabs[..i]).value + [InvertSlab(slabs[i]).value])
  {
    assert slabs[..i + 1][..i] == slabs[..i];
  }

  /** A failure of a prefix is a failure of the whole list. */
  lemma {:induction false} InversionsFailFrom(slabs: seq<Slab>, n: nat)
    requires n <= |slabs| && Inversions(slabs[..n]).Err?
    ensures Inversions(slabs).Err?
    decreases |slabs| - n
  {
    if n < |slabs| {
      assert slabs[..n + 1][..n] == slabs[..n];
      assert Inversions(slabs[..n + 1]).Err?;
      InversionsFailFrom(slabs, n + 1);
    } else {
      assert slabs[..n] == slabs;
    }
  }

  /** The inversions fail exactly when a slab whose terminations differ
      cannot be inverted; otherwise the k-th is the inversion of the k-th
      such slab. */
  lemma {:induction false} InversionsMeaning(slabs: seq<Slab>)
    ensures Inversions(slabs).Err? <==>
      exists s :: s in slabs && !s.equivalentSurfaces && (s.sites == [] || s.orientedCell == [])
    ensures Inversions(slabs).Ok? ==> (
      && |Inversions(slabs).value| == |NonEquivalent(slabs)|
      && forall k :: 0 <= k < |NonEquivalent(slabs)| ==>
           InvertSlab(NonEquivalent(slabs)[k]).Ok?
           && Inversions(slabs).value[k] == InvertSlab(NonEquivalent(slabs)[k]).value)
  {
    if slabs != [] {
      var init := slabs[..|slabs| - 1];
      var last := slabs[|slabs| - 1];
      InversionsMeaning(init);
      assert slabs == init + [last];
      assert forall s :: s in slabs <==> s in init || s == last;
    }
  }

  /** `all_slabs`: the slabs, followed by the inversion of every slab whose
      terminations differ, in the same order. */
  method AddInversions(slabs: seq<Slab>) returns (r: Result<seq<Slab>, ExpansionError>)
    ensures r.Err? <==> Inversions(slabs).Err?
    ensures r.Ok? ==> r.value == slabs + Inversions(slabs).value
  {
    var all := slabs;
    assert slabs[..0] == [];
    for i := 0 to |slabs|
      invariant Inversions(slabs[..i]).Ok?
      invariant all == slabs + Inversions(slabs[..i]).value
    {
      InversionsStep(slabs, i);
      if !slabs[i].equivalentSurfaces {
        var inverted := InvertSlab(slabs[i]);
        if inverted.Err? {
          assert Inversions(slabs[..i + 1]).Err?;
          InversionsFailFrom(slabs, i + 1);
          return Err(EmptyStructure);
        }
        all := all + [inverted.value];
      }
    }
    assert slabs[..|slabs|] == slabs;
    return Ok(all);
  }

  /** How names print a Miller index, a shift (in `slab_data` and, with "."
      turned into ",", in a slab job's name) and a distance; all opaque. */
  datatype Formats = Formats(
    miller: seq<int> -> string, shift: real -> string, jobShift: real -> string, distance: real -> string)

  /** The name of a slab optimisation job. */
  function SlabJobName(s: Slab, fmt: Formats): (r: string)
    ensures Strings.IsPrefix(s.formula, r)
    ensures r == SlabName(s.formula, EmptySlabData, s.millerIndex, s.shift, fmt.miller, fmt.jobShift) + " slab optimization"
  {
    var r := s.formula
             + (if s.millerIndex != [] then "_" + fmt.miller(s.millerIndex) else "")
             + (if s.shift != 0.0 then "_" + fmt.jobShift(s.shift) else "")
             + " slab optimization";
    assert r[..|s.formula|] == s.formula;
    r
  }

  /** The slab data SlabAdditionTask hands to each slab job. */
  function SlabDataOf(s: Slab): SlabData
  {
    SlabData(None, Some(s.millerIndex), Some(s.shift), None)
  }

  /** The tasks of the slab job SlabAdditionTask builds for `slab`: the
      optimisation, then the slab + adsorbate generator carrying the slab's
      data and name. */
  function SlabTasks(slab: Slab, core: CoreFireworks, fmt: Formats): seq<Task>
  {
    var data := SlabDataOf(slab);
    core.optimizeTasks(SlabRequest(SlabJobName(slab, fmt), None, None, "normal", "md"))
    + [SlabAdsAdditionTask(data.(name := Some(SlabName(slab.formula, data, slab.millerIndex, slab.shift,
                                                       fmt.miller, fmt.shift))))]
  }

  /** The jobs built for one slab: its slab job, or with the density of
      states relax, static and non-self-consistent run with the slab +
      adsorbate generator moved to the last. */
  ghost predicate SlabBlockJobs(block: seq<Firework>, slab: Slab, dos: bool, core: CoreFireworks, fmt: Formats)
    reads block
  {
    && |block| == (if dos then 3 else 1)
    && block[0].name == SlabJobName(slab, fmt) && block[0].parents == []
    && if dos then
         DosChain(block[0], block[1], block[2], SlabTasks(slab, core, fmt), SlabJobName(slab, fmt),
                  SlabDosUpdate(), SlabDosPush(), core)
       else block[0].tasks == SlabTasks(slab, core, fmt)
  }

  /** The jobs built for the slabs, in order, slab by slab. */
  ghost predicate SlabJobs(fws: seq<Firework>, slabs: seq<Slab>, dos: bool, core: CoreFireworks, fmt: Formats)
    reads fws
    decreases |slabs|
  {
    if slabs == [] then fws == []
    else
      var k := |fws| - (if dos then 3 else 1);
      && k >= 0
      && SlabJobs(fws[..k], slabs[..|slabs| - 1], dos, core, fmt)
      && SlabBlockJobs(fws[k..], slabs[|slabs| - 1], dos, core, fmt)
  }

  lemma SlabJobsAppend(fws: seq<Firework>, slabs: seq<Slab>, dos: bool, core: CoreFireworks, fmt: Formats,
                       block: seq<Firework>, s: Slab)
    requires SlabJobs(fws, slabs, dos, core, fmt) && SlabBlockJobs(block, s, dos, core, fmt)
    ensures SlabJobs(fws + block, slabs + [s], dos, core, fmt)
  {
    assert (slabs + [s])[..|slabs|] == slabs;
    assert (fws + block)[..|fws|] == fws;
    assert (fws + block)[|fws|..] == block;
  }

  lemma {:induction false} SlabJobsCount(fws: seq<Firework>, slabs: seq<Slab>, dos: bool, core: CoreFireworks, fmt: Formats)
    requires SlabJobs(fws, slabs, dos, core, fmt)
    ensures |fws| == |slabs| * (if dos then 3 else 1)
    decreases |slabs|
  {
    if slabs != [] {
      var k := |fws| - (if dos then 3 else 1);
      SlabJobsCount(fws[..k], slabs[..|slabs| - 1], dos, core, fmt);
    }
  }

  /** The jobs of one slab: its slab job, rewired for the density of states
      when asked. */
  method SlabBlock(slab: Slab, dos: bool, core: CoreFireworks, fmt: Formats) returns (block: seq<Firework>)
    ensures SlabBlockJobs(block, slab, dos, core, fmt)
  {
    var name := SlabJobName(slab, fmt);
    var slabFw := SlabFW(slab.formula, slab.millerIndex, slab.shift, core, fmt.miller, fmt.shift,
                         name := name, slabData := Some(SlabDataOf(slab)));
    if dos {
      var staticFw, nscf := DosRewire(slabFw, name, SlabDosUpdate(), SlabDosPush(), core);
      block := [slabFw, staticFw, nscf];
    } else {
      block := [slabFw];
    }
  }

  /** The jobs of one more slab appended to those of the slabs before it. */
  method AddSlab(fws: seq<Firework>, allSlabs: seq<Slab>, i: nat, dos: bool, core: CoreFireworks, fmt: Formats)
    returns (more: seq<Firework>)
    requires i < |allSlabs| && SlabJobs(fws, allSlabs[..i], dos, core, fmt)
    ensures SlabJobs(more, allSlabs[..i + 1], dos, core, fmt)
  {
    var block := SlabBlock(allSlabs[i], dos, core, fmt);
    assert allSlabs[..i + 1] == allSlabs[..i] + [allSlabs[i]];
    SlabJobsAppend(fws, allSlabs[..i], dos, core, fmt, block, allSlabs[i]);
    more := fws + block;
  }

  /** The slab loop of SlabAdditionTask: a slab job per slab, rewired for
      the density of states when asked. */
  method SlabJobsFor(allSlabs: seq<Slab>, dos: bool, core: CoreFireworks, fmt: Formats)
    returns (fws: seq<Firework>)
    ensures SlabJobs(fws, allSlabs, dos, core, fmt)
    ensures |fws| == |allSlabs| * (if dos then 3 else 1)
  {
    fws := [];
    for i := 0 to |allSlabs|
      invariant SlabJobs(fws, allSlabs[..i], dos, core, fmt)
    {
      fws := AddSlab(fws, allSlabs, i, dos, core, fmt);
    }
    assert allSlabs[..|allSlabs|] == allSlabs;
    SlabJobsCount(fws, allSlabs, dos, core, fmt);
  }

  /** The layered filter cannot run: no bulk structure, or a (0,0,1) slab
      without sites. */
  ghost predicate LayeredFails(bulk: seq<Site>, slabs: seq<Slab>)
  {
    bulk == [] || exists s :: s in slabs && s.millerIndex == [0, 0, 1] && s.sites == []
  }

  /** The slabs jobs are built for before their inversions are added: all
      of them, or for a layered bulk the (0,0,1) slabs whose terminations
      match it. */
  function ChosenSlabs(bulk: seq<Site>, layered: bool, slabs: seq<Slab>): seq<Slab>
    requires !(layered && LayeredFails(bulk, slabs))
  {
    if layered then MatchingTerminations(bulk, Of001(slabs)) else slabs
  }

  /** SlabAdditionTask: the slabs of the optimised bulk (for a layered bulk
      only the matching (0,0,1) slabs), their inversions, and the jobs for
      all of them. */
  method SlabAdditionTask(bulk: seq<Site>, layered: bool, slabs: seq<Slab>, dos: bool,
                          core: CoreFireworks, fmt: Formats)
    returns (r: Result<seq<Firework>, ExpansionError>, chosen: seq<Slab>, allSlabs: seq<Slab>)
    ensures r.Ok? ==> (
      && SlabJobs(r.value, allSlabs, dos, core, fmt)
      && |r.value| == |allSlabs| * (if dos then 3 else 1))
    ensures r.Err? <==> (layered && LayeredFails(bulk, slabs)) || Inversions(ChosenSlabs(bulk, layered, slabs)).Err?
    ensures !(layered && LayeredFails(bulk, slabs)) ==> chosen == ChosenSlabs(bulk, layered, slabs)
    ensures r.Ok? ==> Inversions(chosen).Ok? && allSlabs == chosen + Inversions(chosen).value
    ensures !layered ==> chosen == slabs
    ensures r.Ok? && layered ==> forall s :: s in chosen <==> s in slabs && Keeps2D(bulk, s)
  {
    chosen := slabs;
    allSlabs := [];
    if layered {
      var filtered := LayeredFilter(bulk, slabs);
      if filtered.Err? {
        return Err(filtered.error), chosen, allSlabs;
      }
      chosen := filtered.value;
    }
    var all := AddInversions(chosen);
    if all.Err? {
      return Err(all.error), chosen, allSlabs;
    }
    allSlabs := all.value;
    var fws := SlabJobsFor(allSlabs, dos, core, fmt);
    return Ok(fws), chosen, allSlabs;
  }

  // ---------------------------------------------------------------- LaunchVaspFromOptimumDistance

  /** `"{name} slab + adsorbate optimization"`, the name taken from the
      slab + adsorbate data or else the structure's formula. */
  function LaunchName(slabAdsName: Option<string>, slabAdsFormula: string): (r: string)
    ensures Strings.Contains(r, SlabAdsPhrase)
  {
    var n := if slabAdsName.Some? && slabAdsName.value != "" then slabAdsName.value else slabAdsFormula;
    Strings.ContainsSuffix(n + " ", SlabAdsPhrase);
    n + " " + SlabAdsPhrase
  }

  /** What LaunchVaspFromOptimumDistance produces: the adsorbate's new
      position, the input site type recorded in the slab + adsorbate data,
      and the jobs it adds. */
  datatype Launched = Launched(coord: DistanceOptimum.Vec3, inSiteType: SiteGeometry.SiteType, jobs: seq<Firework>)

  /** LaunchVaspFromOptimumDistance: the adsorbate is placed at
      `coord + d * mvec` for the first pushed optimal distance `d`, the
      input site type of the resulting structure `slabAds` is found, and
      the slab + adsorbate relaxation is launched (with the
      density-of-states rewiring when asked). */
  method LaunchVaspFromOptimumDistance(
    optimalDistance: Option<seq<real>>, coord: DistanceOptimum.Vec3, mvec: DistanceOptimum.Vec3,
    slabAds: SiteGeometry.SlabAdsGeometry,
    slabAdsName: Option<string>, slabAdsFormula: string, adsName: string, slabData: Option<SlabData>,
    dos: bool, core: CoreFireworks)
    returns (r: Result<Launched, ExpansionError>)
    ensures r.Err? <==>
      DistanceOptimum.ReadOptimalDistance(optimalDistance).Err? || SiteGeometry.InSiteType(slabAds).Err?
    ensures DistanceOptimum.ReadOptimalDistance(optimalDistance).Err? ==> r.Err? && r.error.MissingOptimalDistance?
    ensures r.Ok? ==> (
      && r.value.coord == DistanceOptimum.ProbeCoordinate(coord, optimalDistance.value[0], mvec)
      && r.value.inSiteType == SiteGeometry.InSiteType(slabAds).value
      && |r.value.jobs| == (if dos then 3 else 1)
      && r.value.jobs[0].name == LaunchName(slabAdsName, slabAdsFormula))
    ensures r.Ok? ==> r.value.jobs[0].parents == []
    ensures r.Ok? && dos ==>
      var fwName := LaunchName(slabAdsName, slabAdsFormula);
      DosChain(r.value.jobs[0], r.value.jobs[1], r.value.jobs[2], DefaultSlabAdsTasks(fwName, core), fwName,
               SlabAdsLaunchDosUpdate(), SlabAdsDosPush(), core)
    ensures r.Ok? && !dos ==> r.value.jobs[0].tasks == DefaultSlabAdsTasks(LaunchName(slabAdsName, slabAdsFormula), core)
  {
    var d := DistanceOptimum.ReadOptimalDistance(optimalDistance);
    if d.Err? {
      return Err(MissingOptimalDistance(d.error));
    }
    var newCoord := DistanceOptimum.ProbeCoordinate(coord, d.value, mvec);
    var fwName := LaunchName(slabAdsName, slabAdsFormula);
    var inSiteType := SiteGeometry.InSiteType(slabAds);
    if inSiteType.Err? {
      return Err(SiteTypeFailure(inSiteType.error));
    }
    var relax := SlabAdsFW(adsName, core, name := fwName, slabData := slabData);
    assert relax.Ok?;
    var fw := relax.value;
    if dos {
      var staticFw, nscf := DosRewire(fw, fwName, SlabAdsLaunchDosUpdate(), SlabAdsDosPush(), core);
      return Ok(Launched(newCoord, inSiteType.value, [fw, staticFw, nscf]));
    } else {
      return Ok(Launched(newCoord, inSiteType.value, [fw]));
    }
  }
}
