/** The geometric helpers of the adsorption analysis. The structure library
    is only a source of coordinates and neighbour lists, so these take
    projections, (index, distance) neighbour records and coordinates as
    inputs; the two geometric heights and the normalised projection used by
    `get_site_type` are given as functions of site indices. */
module SiteGeometry {
  import opened Results
  import Sorting

  datatype GeometryError =
    | IndexOutOfRange          // `y2[k]` past the end of `y2`
    | NoSurfaceNeighbor        // `next(...)` on an exhausted generator (StopIteration)
    | EmptyList                // `min`/`max` of an empty sequence (ValueError)
    | TooFewSurfaceNeighbors   // unpacking fewer than three neighbours (ValueError)

  // ---------------------------------------------------------------- get_overlap

  function Abs(x: real): real { if x < 0.0 then -x else x }

  function Min(a: real, b: real): real { if a <= b then a else b }

  /** `get_overlap`: after taking absolute values, the entry at `k` is
      `min(y1[k], y2[k])` when both are positive and 0 otherwise; `y2` must
      be at least as long as `y1`. Each entry is therefore the smaller of the
      two absolute values. */
  method GetOverlap(y1: seq<real>, y2: seq<real>) returns (r: Result<seq<real>, GeometryError>)
    ensures r.Err? <==> |y2| < |y1|
    ensures r.Ok? ==> |r.value| == |y1|
    ensures r.Ok? ==> forall k :: 0 <= k < |y1| ==>
      && r.value[k] == Min(Abs(y1[k]), Abs(y2[k]))
      && 0.0 <= r.value[k] <= Abs(y1[k]) && r.value[k] <= Abs(y2[k])
      && (r.value[k] > 0.0 <==> Abs(y1[k]) > 0.0 && Abs(y2[k]) > 0.0)
  {
    var overlap: seq<real> := [];
    for k := 0 to |y1|
      invariant |overlap| == k
      invariant k <= |y2|
      invariant forall j :: 0 <= j < k ==> overlap[j] == Min(Abs(y1[j]), Abs(y2[j]))
    {
      if k >= |y2| {
        return Err(IndexOutOfRange);
      }
      var a, b := Abs(y1[k]), Abs(y2[k]);
      if a > 0.0 && b > 0.0 {
        overlap := overlap + [Min(a, b)];
      } else {
        overlap := overlap + [0.0];
      }
    }
    return Ok(overlap);
  }

  // ---------------------------------------------------------------- get_nn_surface

  /** A neighbour record: the neighbour's site index and its distance. */
  datatype Neighbor = Neighbor(index: nat, distance: real)

  function NeighborDistance(n: Neighbor): real { n.distance }

  /** `next(neighbor for neighbor in neighbors if neighbor[2] not in ads_ids)`. */
  function FirstSurface(neighbors: seq<Neighbor>, adsIds: seq<nat>): (r: Option<nat>)
    ensures r.Some? ==> r.value < |neighbors| && neighbors[r.value].index !in adsIds
    ensures r.Some? ==> forall j :: 0 <= j < r.value ==> neighbors[j].index in adsIds
    ensures r.None? ==> forall j :: 0 <= j < |neighbors| ==> neighbors[j].index in adsIds
  {
    if neighbors == [] then None
    else if neighbors[0].index !in adsIds then Some(0)
    else match FirstSurface(neighbors[1..], adsIds)
      case None => None
      case Some(k) => Some(k + 1)
  }

  /** One entry of `nn_surface_list`: the adsorbate site, its nearest
      non-adsorbate neighbour, and their distance. */
  datatype NnEntry = NnEntry(adsId: nat, surfaceId: nat, distance: real)

  function EntryDistance(e: NnEntry): real { e.distance }

  /** The entry for one adsorbate site: its neighbours sorted by distance,
      then the first of them that is not an adsorbate. */
  function NnEntryFor(adsId: nat, neighbors: seq<Neighbor>, adsIds: seq<nat>): Option<NnEntry>
  {
    var sorted := Sorting.SortBy(neighbors, NeighborDistance);
    match FirstSurface(sorted, adsIds)
    case None => None
    case Some(k) => Some(NnEntry(adsId, sorted[k].index, sorted[k].distance))
  }

  /** The entry found is the nearest non-adsorbate neighbour: no other
      non-adsorbate neighbour is closer, and one exists exactly when the
      entry does. */
  lemma NnEntryIsNearest(adsId: nat, neighbors: seq<Neighbor>, adsIds: seq<nat>)
    ensures NnEntryFor(adsId, neighbors, adsIds).None?
        <==> forall j :: 0 <= j < |neighbors| ==> neighbors[j].index in adsIds
    ensures match NnEntryFor(adsId, neighbors, adsIds)
      case None => true
      case Some(e) =>
        && e.adsId == adsId && e.surfaceId !in adsIds
        && Neighbor(e.surfaceId, e.distance) in neighbors
        && forall j :: 0 <= j < |neighbors| && neighbors[j].index !in adsIds ==> e.distance <= neighbors[j].distance
  {
    var sorted := Sorting.SortBy(neighbors, NeighborDistance);
    match FirstSurface(sorted, adsIds)
    case None =>
      forall j | 0 <= j < |neighbors| ensures neighbors[j].index in adsIds {
        Sorting.SortByHas(neighbors, NeighborDistance, j);
      }
    case Some(k) =>
      Sorting.SortByFrom(neighbors, NeighborDistance, k);
      forall j | 0 <= j < |neighbors| && neighbors[j].index !in adsIds
        ensures sorted[k].distance <= neighbors[j].distance
      {
        Sorting.SortByHas(neighbors, NeighborDistance, j);
        var p :| 0 <= p < |sorted| && sorted[p] == neighbors[j];
        assert k <= p;
        assert NeighborDistance(sorted[k]) <= NeighborDistance(sorted[p]);
      }
  }

  /** The entry of the `m`-th adsorbate site. */
  function EntryAt(adsIds: seq<nat>, neighborsOf: nat -> seq<Neighbor>, m: nat): Option<NnEntry>
    requires m < |adsIds|
  {
    NnEntryFor(adsIds[m], neighborsOf(adsIds[m]), adsIds)
  }

  /** What `get_nn_surface` computes: one entry per adsorbate site, in order,
      or a failure when some adsorbate site has only adsorbate neighbours.
      `neighborsOf(i)` is the neighbour list of site `i` within one lattice
      length `c`. */
  function NnSurface(adsIds: seq<nat>, neighborsOf: nat -> seq<Neighbor>): (r: Result<seq<NnEntry>, GeometryError>)
    ensures r.Ok? ==>
      (|r.value| == |adsIds| && forall m :: 0 <= m < |adsIds| ==> EntryAt(adsIds, neighborsOf, m) == Some(r.value[m]))
  {
    if exists m :: 0 <= m < |adsIds| && EntryAt(adsIds, neighborsOf, m).None? then Err(NoSurfaceNeighbor)
    else Ok(seq(|adsIds|, m requires 0 <= m < |adsIds| => EntryAt(adsIds, neighborsOf, m).value))
  }

  /** `get_nn_surface`'s loop. */
  method GetNnSurface(adsIds: seq<nat>, neighborsOf: nat -> seq<Neighbor>)
    returns (r: Result<seq<NnEntry>, GeometryError>)
    ensures r == NnSurface(adsIds, neighborsOf)
  {
    var nnSurfaceList: seq<NnEntry> := [];
    for n := 0 to |adsIds|
      invariant |nnSurfaceList| == n
      invariant forall m :: 0 <= m < n ==> EntryAt(adsIds, neighborsOf, m) == Some(nnSurfaceList[m])
    {
      var entry := NnEntryFor(adsIds[n], neighborsOf(adsIds[n]), adsIds);
      if entry.None? {
        assert EntryAt(adsIds, neighborsOf, n).None?;
        return Err(NoSurfaceNeighbor);
      }
      nnSurfaceList := nnSurfaceList + [entry.value];
    }
    assert nnSurfaceList == seq(|adsIds|, m requires 0 <= m < |adsIds| => EntryAt(adsIds, neighborsOf, m).value);
    return Ok(nnSurfaceList);
  }

  /** `min(nn_surface_list, key=lambda x: x[2])[:2]`: the adsorbate site and
      surface site of the first entry at the least distance. */
  function AdsorptionPair(entries: seq<NnEntry>): (r: Result<(nat, nat), GeometryError>)
    ensures r.Err? <==> entries == []
    ensures r.Ok? ==>
      exists k :: 0 <= k < |entries|
        && r.value == (entries[k].adsId, entries[k].surfaceId)
        && (forall j :: 0 <= j < |entries| ==> entries[k].distance <= entries[j].distance)
        && (forall j :: 0 <= j < k ==> entries[j].distance > entries[k].distance)
  {
    if entries == [] then Err(EmptyList)
    else
      var k := Sorting.ArgMinBy(entries, EntryDistance);
      Ok((entries[k].adsId, entries[k].surfaceId))
  }

  // ---------------------------------------------------------------- get_site_type

  /** `[n for n in neighbors if n[2] not in ads_ids]`. */
  function SurfaceNeighbors(neighbors: seq<Neighbor>, adsIds: seq<nat>): (r: seq<Neighbor>)
    ensures forall k :: 0 <= k < |r| ==> r[k].index !in adsIds && r[k] in neighbors
    ensures forall j :: 0 <= j < |neighbors| && neighbors[j].index !in adsIds ==> neighbors[j] in r
    ensures |neighbors| == 1 ==> r == if neighbors[0].index in adsIds then [] else neighbors
  {
    if neighbors == [] then []
    else
      var rest := SurfaceNeighbors(neighbors[1..], adsIds);
      assert forall j :: 1 <= j < |neighbors| ==> neighbors[j] == neighbors[1..][j - 1];
      assert |neighbors| == 1 ==> neighbors[1..] == [] && rest == [] && [neighbors[0]] + rest == neighbors;
      if neighbors[0].index !in adsIds then [neighbors[0]] + rest else rest
  }

  /** Keeping the surface neighbours of a concatenation keeps those of
      each part, in order. */
  lemma {:induction false} SurfaceNeighborsAppend(n1: seq<Neighbor>, n2: seq<Neighbor>, adsIds: seq<nat>)
    ensures SurfaceNeighbors(n1 + n2, adsIds) == SurfaceNeighbors(n1, adsIds) + SurfaceNeighbors(n2, adsIds)
  {
    if n1 != [] {
      assert (n1 + n2)[0] == n1[0];
      assert (n1 + n2)[1..] == n1[1..] + n2;
      SurfaceNeighborsAppend(n1[1..], n2, adsIds);
    } else {
      assert n1 + n2 == n2;
    }
  }

  datatype SiteType = Bridge | Hollow | Ontop | Other

  /** What `get_site_type` returns: the site type, the surface sites by
      "site1", "site2", ... (their indices) and the distances by key. */
  datatype SiteClassification = SiteClassification(
    siteType: SiteType, sites: map<string, nat>, distances: map<string, real>)

  /** Geometry the decision tree needs but which the structure library
      computes: the height of the adsorbate above the line through two sites
      (Heron's formula), above the plane through three sites, and the
      projection of the unit vector from a site to the adsorbate onto the
      surface normal. */
  datatype SiteGeometryOracle = SiteGeometryOracle(
    lineHeight: (nat, nat) -> real,
    planeHeight: (nat, nat, nat) -> real,
    normalProjection: nat -> real)

  /** `get_site_type` for the adsorbing site whose neighbours are `neighbors`:
      drop the adsorbate neighbours, sort the rest by distance, take the
      three nearest, then bridge / hollow / ontop / other. */
  function GetSiteType(neighbors: seq<Neighbor>, adsIds: seq<nat>, geometry: SiteGeometryOracle)
    : (r: Result<SiteClassification, GeometryError>)
    ensures r.Err? <==> |SurfaceNeighbors(neighbors, adsIds)| < 3
  {
    var surface := Sorting.SortBy(SurfaceNeighbors(neighbors, adsIds), NeighborDistance);
    if |surface| < 3 then Err(TooFewSurfaceNeighbors)
    else Ok(Classify(surface[0], surface[1], surface[2], geometry))
  }

  /** The decision tree of `get_site_type` on the three nearest surface
      neighbours. */
  function Classify(first: Neighbor, second: Neighbor, third: Neighbor, geometry: SiteGeometryOracle)
    : SiteClassification
  {
    var d1, d2, d3 := first.distance, second.distance, third.distance;
    if d2 < 1.2 * d1 && d3 > 1.4 * d1 then
      SiteClassification(Bridge,
        map["site1" := first.index, "site2" := second.index],
        map["to_site1" := d1, "to_site2" := d2,
            "to_surface" := geometry.lineHeight(first.index, second.index)])
    else if d2 < 1.2 * d1 && d3 < 1.4 * d1 then
      SiteClassification(Hollow,
        map["site1" := first.index, "site2" := second.index, "site3" := third.index],
        map["to_site1" := d1, "to_site2" := d2, "to_site3" := d3,
            "to_surface" := geometry.planeHeight(first.index, second.index, third.index)])
    else if geometry.normalProjection(first.index) > 0.95 then
      SiteClassification(Ontop,
        map["site1" := first.index],
        map["to_site1" := d1, "to_surface" := d1])
    else
      SiteClassification(Other,
        map["site1" := first.index, "site2" := second.index, "site3" := third.index],
        map["to_site1" := d1, "to_site2" := d2, "to_site3" := d3])
  }

  /** The three nearest non-adsorbate neighbours, in distance order. */
  lemma NearestThree(neighbors: seq<Neighbor>, adsIds: seq<nat>)
    requires |SurfaceNeighbors(neighbors, adsIds)| >= 3
    ensures var s := Sorting.SortBy(SurfaceNeighbors(neighbors, adsIds), NeighborDistance);
      && s[0].distance <= s[1].distance <= s[2].distance
      && (forall k :: 0 <= k < 3 ==> s[k] in neighbors && s[k].index !in adsIds)
      && forall j :: 0 <= j < |neighbors| && neighbors[j].index !in adsIds ==>
           s[0].distance <= neighbors[j].distance
  {
    var f := SurfaceNeighbors(neighbors, adsIds);
    var s := Sorting.SortBy(f, NeighborDistance);
    assert NeighborDistance(s[0]) <= NeighborDistance(s[1]) <= NeighborDistance(s[2]);
    forall k | 0 <= k < 3 ensures s[k] in neighbors && s[k].index !in adsIds {
      Sorting.SortByFrom(f, NeighborDistance, k);
    }
    forall j | 0 <= j < |neighbors| && neighbors[j].index !in adsIds
      ensures s[0].distance <= neighbors[j].distance
    {
      var i :| 0 <= i < |f| && f[i] == neighbors[j];
      Sorting.SortByHas(f, NeighborDistance, i);
      var p :| 0 <= p < |s| && s[p] == neighbors[j];
      if p > 0 {
        assert NeighborDistance(s[0]) <= NeighborDistance(s[p]);
      }
    }
  }

  /** The decision tree, in terms of the three nearest distances `d1 <= d2
      <= d3`: bridge iff `d2 < 1.2 d1` and `d3 > 1.4 d1`; hollow iff
      `d2 < 1.2 d1` and `d3 < 1.4 d1`; otherwise ontop iff the normalised
      projection onto the surface normal is above 0.95, else other; the
      first site is always the nearest one. */
  lemma SiteTypeDecision(neighbors: seq<Neighbor>, adsIds: seq<nat>, geometry: SiteGeometryOracle)
    requires |SurfaceNeighbors(neighbors, adsIds)| >= 3
    ensures var s := Sorting.SortBy(SurfaceNeighbors(neighbors, adsIds), NeighborDistance);
      var d1, d2, d3 := s[0].distance, s[1].distance, s[2].distance;
      var c := GetSiteType(neighbors, adsIds, geometry).value;
      && (c.siteType == Bridge <==> d2 < 1.2 * d1 && d3 > 1.4 * d1)
      && (c.siteType == Hollow <==> d2 < 1.2 * d1 && d3 < 1.4 * d1)
      && (c.siteType == Ontop <==>
            !(d2 < 1.2 * d1 && (d3 > 1.4 * d1 || d3 < 1.4 * d1)) && geometry.normalProjection(s[0].index) > 0.95)
      && c.sites["site1"] == s[0].index && c.distances["to_site1"] == d1
  {
    var s := Sorting.SortBy(SurfaceNeighbors(neighbors, adsIds), NeighborDistance);
    assert GetSiteType(neighbors, adsIds, geometry) == Ok(Classify(s[0], s[1], s[2], geometry));
    ClassifyDecision(s[0], s[1], s[2], geometry);
  }

  lemma ClassifyDecision(first: Neighbor, second: Neighbor, third: Neighbor, geometry: SiteGeometryOracle)
    ensures var d1, d2, d3 := first.distance, second.distance, third.distance;
      var c := Classify(first, second, third, geometry);
      && (c.siteType == Bridge <==> d2 < 1.2 * d1 && d3 > 1.4 * d1)
      && (c.siteType == Hollow <==> d2 < 1.2 * d1 && d3 < 1.4 * d1)
      && (c.siteType == Ontop <==>
            !(d2 < 1.2 * d1 && (d3 > 1.4 * d1 || d3 < 1.4 * d1)) && geometry.normalProjection(first.index) > 0.95)
      && "site1" in c.sites && c.sites["site1"] == first.index
      && "to_site1" in c.distances && c.distances["to_site1"] == d1
  {
  }

  /** Each outcome names a fixed set of sites and distance keys, every
      `to_siteN` distance is the distance of `siteN`, and an ontop site's
      height is its distance to the site. */
  lemma SiteTypeShape(first: Neighbor, second: Neighbor, third: Neighbor, geometry: SiteGeometryOracle)
    ensures var c := Classify(first, second, third, geometry);
      && (c.siteType == Bridge ==>
            (c.sites == map["site1" := first.index, "site2" := second.index]
             && c.distances.Keys == {"to_site1", "to_site2", "to_surface"}))
      && (c.siteType == Hollow ==>
            (c.sites == map["site1" := first.index, "site2" := second.index, "site3" := third.index]
             && c.distances.Keys == {"to_site1", "to_site2", "to_site3", "to_surface"}))
      && (c.siteType == Ontop ==>
            (c.sites == map["site1" := first.index]
             && c.distances == map["to_site1" := first.distance, "to_surface" := first.distance]))
      && (c.siteType == Other ==>
            (c.sites == map["site1" := first.index, "site2" := second.index, "site3" := third.index]
             && c.distances == map["to_site1" := first.distance, "to_site2" := second.distance, "to_site3" := third.distance]))
  {
  }

  /** Both comparisons are strict: a third neighbour at exactly 1.4 times the
      first distance is neither bridge nor hollow. */
  lemma BoundaryFallsThrough(first: Neighbor, second: Neighbor, third: Neighbor, geometry: SiteGeometryOracle)
    requires third.distance == 1.4 * first.distance
    ensures Classify(first, second, third, geometry).siteType in {Ontop, Other}
  {
  }

  // ---------------------------------------------------------------- the input site type

  /** `[i for i in range(num_sites) if surface_properties[i] == "adsorbate"]`. */
  function AdsorbateIds(labels: seq<string>): (r: seq<nat>)
    ensures forall i :: i in r <==> 0 <= i < |labels| && labels[i] == "adsorbate"
    ensures forall m, n :: 0 <= m < n < |r| ==> r[m] < r[n]
    ensures r == [] <==> forall i :: 0 <= i < |labels| ==> labels[i] != "adsorbate"
  {
    if labels == [] then []
    else
      var n := |labels| - 1;
      var init := AdsorbateIds(labels[..n]);
      assert forall i :: 0 <= i < n ==> labels[..n][i] == labels[i];
      assert forall m :: 0 <= m < |init| ==> init[m] in init;
      init + (if labels[n] == "adsorbate" then [n] else [])
  }

  /** What the input site type reads of a slab + adsorbate structure: the
      surface label of every site, the neighbours of every site within one
      lattice length c, and the geometry of the decision tree. */
  datatype SlabAdsGeometry = SlabAdsGeometry(
    labels: seq<string>, neighborsOf: nat -> seq<Neighbor>, geometry: SiteGeometryOracle)

  /** `min(get_nn_surface(slab_ads, ads_ids), key=lambda x: x[2])[0]`: the
      adsorbate site whose nearest surface neighbour is closest. */
  function AdsorbingSite(g: SlabAdsGeometry): Result<nat, GeometryError>
  {
    var nn := NnSurface(AdsorbateIds(g.labels), g.neighborsOf);
    if nn.Err? then Err(nn.error)
    else
      var pair := AdsorptionPair(nn.value);
      if pair.Err? then Err(pair.error) else Ok(pair.value.0)
  }

  /** The adsorbing site is an adsorbate site, and no adsorbate site has a
      nearer surface neighbour. */
  lemma AdsorbingSiteIsClosest(g: SlabAdsGeometry)
    requires AdsorbingSite(g).Ok?
    ensures AdsorbingSite(g).value in AdsorbateIds(g.labels)
    ensures NnSurface(AdsorbateIds(g.labels), g.neighborsOf).Ok?
    ensures var entries := NnSurface(AdsorbateIds(g.labels), g.neighborsOf).value;
      exists k :: 0 <= k < |entries| && entries[k].adsId == AdsorbingSite(g).value
        && forall j :: 0 <= j < |entries| ==> entries[k].distance <= entries[j].distance
  {
    var ids := AdsorbateIds(g.labels);
    var entries := NnSurface(ids, g.neighborsOf).value;
    var k := ClosestEntry(entries);
    EntryAdsId(ids, g.neighborsOf, k);
    assert ids[k] in ids;
  }

  /** The entry `AdsorptionPair` picks. */
  lemma ClosestEntry(entries: seq<NnEntry>) returns (k: nat)
    requires AdsorptionPair(entries).Ok?
    ensures k < |entries| && AdsorptionPair(entries).value.0 == entries[k].adsId
    ensures forall j :: 0 <= j < |entries| ==> entries[k].distance <= entries[j].distance
  {
    k :| 0 <= k < |entries| && AdsorptionPair(entries).value == (entries[k].adsId, entries[k].surfaceId)
      && (forall j :: 0 <= j < |entries| ==> entries[k].distance <= entries[j].distance);
  }

  /** The `m`-th entry of `NnSurface` is that of the `m`-th adsorbate site. */
  lemma EntryAdsId(adsIds: seq<nat>, neighborsOf: nat -> seq<Neighbor>, m: nat)
    requires NnSurface(adsIds, neighborsOf).Ok? && m < |NnSurface(adsIds, neighborsOf).value|
    ensures m < |adsIds| && NnSurface(adsIds, neighborsOf).value[m].adsId == adsIds[m]
  {
    assert EntryAt(adsIds, neighborsOf, m) == Some(NnSurface(adsIds, neighborsOf).value[m]);
  }

  /** `in_site_type`: the type of the adsorbing site, or the failure of
      one of the three steps that find it. */
  function InSiteType(g: SlabAdsGeometry): Result<SiteType, GeometryError>
  {
    var site := AdsorbingSite(g);
    if site.Err? then Err(site.error)
    else
      var c := GetSiteType(g.neighborsOf(site.value), AdsorbateIds(g.labels), g.geometry);
      if c.Err? then Err(c.error) else Ok(c.value.siteType)
  }

  /** An adsorbate site has only adsorbate neighbours. */
  ghost predicate StrandedAdsorbate(g: SlabAdsGeometry)
  {
    exists i :: 0 <= i < |g.labels| && g.labels[i] == "adsorbate"
      && forall j :: 0 <= j < |g.neighborsOf(i)| ==> g.neighborsOf(i)[j].index in AdsorbateIds(g.labels)
  }

  /** No site is labelled "adsorbate": `min` of an empty list fails. */
  lemma InSiteTypeNoAdsorbate(g: SlabAdsGeometry)
    requires forall i :: 0 <= i < |g.labels| ==> g.labels[i] != "adsorbate"
    ensures InSiteType(g) == Err(EmptyList)
  {
    var ids := AdsorbateIds(g.labels);
    assert NnSurface(ids, g.neighborsOf).Ok? && NnSurface(ids, g.neighborsOf).value == [];
  }

  /** An adsorbate site with only adsorbate neighbours: `next` on an
      exhausted generator fails. */
  lemma InSiteTypeStranded(g: SlabAdsGeometry)
    requires StrandedAdsorbate(g)
    ensures InSiteType(g) == Err(NoSurfaceNeighbor)
  {
    var ids := AdsorbateIds(g.labels);
    var i :| 0 <= i < |g.labels| && g.labels[i] == "adsorbate"
       && forall j :: 0 <= j < |g.neighborsOf(i)| ==> g.neighborsOf(i)[j].index in ids;
    assert i in ids;
    var m :| 0 <= m < |ids| && ids[m] == i;
    NnEntryIsNearest(i, g.neighborsOf(i), ids);
    assert EntryAt(ids, g.neighborsOf, m).None?;
  }

  /** Those are the only ways the adsorbing site is not found. */
  lemma AdsorbingSiteFailures(g: SlabAdsGeometry)
    requires AdsorbingSite(g).Err?
    ensures StrandedAdsorbate(g) || forall i :: 0 <= i < |g.labels| ==> g.labels[i] != "adsorbate"
  {
    var ids := AdsorbateIds(g.labels);
    var nn := NnSurface(ids, g.neighborsOf);
    if nn.Err? {
      var m :| 0 <= m < |ids| && EntryAt(ids, g.neighborsOf, m).None?;
      NnEntryIsNearest(ids[m], g.neighborsOf(ids[m]), ids);
      assert ids[m] in ids;
    } else {
      assert |ids| == |nn.value| == 0;
    }
  }

  /** Once the adsorbing site is found, the input site type fails exactly
      when fewer than three surface neighbours surround it (the unpacking
      of `surface_neighbors[:3]`), and is otherwise that site's type. */
  lemma InSiteTypeAtSite(g: SlabAdsGeometry)
    requires AdsorbingSite(g).Ok?
    ensures InSiteType(g).Err? <==>
      |SurfaceNeighbors(g.neighborsOf(AdsorbingSite(g).value), AdsorbateIds(g.labels))| < 3
    ensures InSiteType(g).Ok? ==>
      InSiteType(g).value == GetSiteType(g.neighborsOf(AdsorbingSite(g).value), AdsorbateIds(g.labels), g.geometry).value.siteType
  {
  }

  // ---------------------------------------------------------------- get_slab_surf_props

  datatype SurfaceLabel = Surface | BottomSurface | Subsurface

  /** `get_slab_surf_props`: `projections` are the sites' coordinates
      projected onto the surface normal. A site is "surface" when its
      projection is within `height` of the largest, otherwise "bottom
      surface" when within `height` of the smallest, otherwise
      "subsurface". An empty slab fails (`np.amax` of nothing). */
  function GetSlabSurfProps(projections: seq<real>, height: real): (r: Result<seq<SurfaceLabel>, GeometryError>)
    ensures r.Err? <==> projections == []
    ensures r.Ok? ==> |r.value| == |projections|
  {
    if projections == [] then Err(EmptyList)
    else
      var top, bottom := Sorting.MaxOf(projections), Sorting.MinOf(projections);
      Ok(seq(|projections|, k requires 0 <= k < |projections| =>
        if projections[k] - top >= -height then Surface
        else if projections[k] - bottom <= height then BottomSurface
        else Subsurface))
  }

  /** The label of one site, against the largest and smallest projection:
      surface wins when both conditions hold; with `height >= 0` a site at
      the largest projection is surface and a site at the smallest is surface
      or bottom surface. */
  lemma SurfaceLabelAt(projections: seq<real>, height: real, k: nat)
    requires k < |projections|
    ensures var tag := GetSlabSurfProps(projections, height).value[k];
      && (tag == Surface <==>
            forall j :: 0 <= j < |projections| ==> projections[k] - projections[j] >= -height)
      && (tag == BottomSurface <==>
            (exists j :: 0 <= j < |projections| && projections[k] - projections[j] < -height)
            && forall j :: 0 <= j < |projections| ==> projections[k] - projections[j] <= height)
      && ((height >= 0.0 && forall j :: 0 <= j < |projections| ==> projections[j] <= projections[k]) ==>
            tag == Surface)
      && ((height >= 0.0 && forall j :: 0 <= j < |projections| ==> projections[k] <= projections[j]) ==>
            tag != Subsurface)
  {
    var top, bottom := Sorting.MaxOf(projections), Sorting.MinOf(projections);
    var it :| 0 <= it < |projections| && projections[it] == top;
    var ib :| 0 <= ib < |projections| && projections[ib] == bottom;
    var tag := GetSlabSurfProps(projections, height).value[k];
    if tag != Surface {
      assert projections[k] - projections[it] < -height;
    }
    if tag == BottomSurface {
      assert projections[k] - bottom <= height;
    } else if tag == Subsurface {
      assert projections[k] - projections[ib] > height;
    }
  }

  // ---------------------------------------------------------------- re-indexing

  /** `sorted(zip(id_map, surface_properties))`. */
  function IdOf<P>(pair: (nat, P)): real { pair.0 as real }

  function Zip<P>(ids: seq<nat>, props: seq<P>): (r: seq<(nat, P)>)
    ensures |r| == if |ids| <= |props| then |ids| else |props|
    ensures forall k :: 0 <= k < |r| ==> r[k] == (ids[k], props[k])
  {
    if ids == [] || props == [] then [] else [(ids[0], props[0])] + Zip(ids[1..], props[1..])
  }

  /** `[prop for new_id, prop in sorted(zip(id_map, props))]`. The ids are
      required to be distinct, so the sort never compares two properties. */
  function Reindex<P>(idMap: seq<nat>, props: seq<P>): (r: seq<P>)
    requires forall i, j :: 0 <= i < j < |idMap| ==> idMap[i] != idMap[j]
    ensures |r| == if |idMap| <= |props| then |idMap| else |props|
  {
    var sorted := Sorting.SortBy(Zip(idMap, props), IdOf);
    seq(|sorted|, k requires 0 <= k < |sorted| => sorted[k].1)
  }

  /** When `id_map` is a permutation of the site indices (each of 0..n-1
      once), re-indexing moves the property of input site `i` to position
      `id_map[i]`. */
  lemma ReindexPlaces<P>(idMap: seq<nat>, props: seq<P>)
    requires |idMap| == |props|
    requires forall i, j :: 0 <= i < j < |idMap| ==> idMap[i] != idMap[j]
    requires forall i :: 0 <= i < |idMap| ==> idMap[i] < |idMap|
    ensures forall i :: 0 <= i < |idMap| ==> Reindex(idMap, props)[idMap[i]] == props[i]
  {
    var z := Zip(idMap, props);
    var sorted := Sorting.SortBy(z, IdOf);
    assert Sorting.DistinctKeys(z, IdOf) by {
      forall i, j | 0 <= i < j < |z| ensures IdOf(z[i]) != IdOf(z[j]) {
        assert z[i].0 == idMap[i] && z[j].0 == idMap[j];
      }
    }
    Sorting.SortByStrict(z, IdOf);
    forall k | 0 <= k < |sorted| ensures sorted[k].0 < |sorted| {
      Sorting.SortByFrom(z, IdOf, k);
      var i :| 0 <= i < |z| && z[i] == sorted[k];
    }
    var keys := seq(|sorted|, k requires 0 <= k < |sorted| => sorted[k].0);
    StrictBoundedIsIdentity(keys, |sorted|);
    forall i | 0 <= i < |idMap| ensures Reindex(idMap, props)[idMap[i]] == props[i] {
      Sorting.SortByHas(z, IdOf, i);
      var k :| 0 <= k < |sorted| && sorted[k] == z[i];
      assert keys[k] == k;
    }
  }

  /** A strictly increasing list of `n` naturals below `n` is `0, 1, ..., n-1`. */
  lemma {:induction false} StrictBoundedIsIdentity(keys: seq<nat>, n: nat)
    requires |keys| == n
    requires forall i, j :: 0 <= i < j < n ==> keys[i] < keys[j]
    requires forall k :: 0 <= k < n ==> keys[k] < n
    ensures forall k :: 0 <= k < n ==> keys[k] == k
  {
    if n > 0 {
      var init := keys[..n - 1];
      forall k | 0 <= k < n - 1 ensures init[k] < n - 1 {
        assert keys[k] < keys[n - 1];
      }
      StrictBoundedIsIdentity(init, n - 1);
      assert keys[n - 1] == n - 1 by {
        if n >= 2 {
          assert keys[n - 2] == n - 2 && keys[n - 2] < keys[n - 1];
        }
      }
    }
  }

  // ---------------------------------------------------------------- slab inversion

  datatype FracCoord = FracCoord(a: real, b: real, c: real)

  function Height(x: FracCoord): real { x.c }

  function Heights(coords: seq<FracCoord>): (r: seq<real>)
    ensures |r| == |coords| && forall k :: 0 <= k < |coords| ==> r[k] == coords[k].c
  {
    seq(|coords|, k requires 0 <= k < |coords| => coords[k].c)
  }

  /** `[x[0], x[1], max_c + min_c - x[2]]` for every fractional coordinate:
      the other termination of a slab whose two surfaces differ, mirrored
      through the middle of its height range. An empty list fails. */
  function InvertCoordinates(coords: seq<FracCoord>): (r: Result<seq<FracCoord>, GeometryError>)
    ensures r.Err? <==> coords == []
    ensures r.Ok? ==>
      (|r.value| == |coords|
       && forall k :: 0 <= k < |coords| ==> r.value[k].a == coords[k].a && r.value[k].b == coords[k].b)
    ensures r.Ok? ==> forall k :: 0 <= k < |coords| ==>
      r.value[k].c == Sorting.MaxOf(Heights(coords)) + Sorting.MinOf(Heights(coords)) - coords[k].c
  {
    if coords == [] then Err(EmptyList)
    else
      var hs := Heights(coords);
      var maxC, minC := Sorting.MaxOf(hs), Sorting.MinOf(hs);
      Ok(seq(|coords|, k requires 0 <= k < |coords| => FracCoord(coords[k].a, coords[k].b, maxC + minC - coords[k].c)))
  }

  /** The inverted slab spans the same heights, the highest site becoming
      the lowest and the other way round. */
  lemma InversionKeepsRange(coords: seq<FracCoord>)
    requires coords != []
    ensures var inv := InvertCoordinates(coords).value;
      && Sorting.MaxOf(Heights(inv)) == Sorting.MaxOf(Heights(coords))
      && Sorting.MinOf(Heights(inv)) == Sorting.MinOf(Heights(coords))
    ensures var inv := InvertCoordinates(coords).value;
      forall k :: 0 <= k < |coords| ==>
        && (coords[k].c == Sorting.MaxOf(Heights(coords)) <==> inv[k].c == Sorting.MinOf(Heights(coords)))
        && (coords[k].c == Sorting.MinOf(Heights(coords)) <==> inv[k].c == Sorting.MaxOf(Heights(coords)))
  {
    var hs := Heights(coords);
    var maxC, minC := Sorting.MaxOf(hs), Sorting.MinOf(hs);
    var inv := InvertCoordinates(coords).value;
    var his := Heights(inv);
    assert forall k :: 0 <= k < |his| ==> his[k] == maxC + minC - hs[k];
    var it :| 0 <= it < |hs| && hs[it] == maxC;
    var ib :| 0 <= ib < |hs| && hs[ib] == minC;
    Sorting.MaxOfIs(his, maxC, ib);
    Sorting.MinOfIs(his, minC, it);
  }

  /** Inverting twice gives the original coordinates back. */
  lemma InversionInvolution(coords: seq<FracCoord>)
    requires coords != []
    ensures InvertCoordinates(InvertCoordinates(coords).value) == Ok(coords)
  {
    InversionKeepsRange(coords);
    var hs := Heights(coords);
    var maxC, minC := Sorting.MaxOf(hs), Sorting.MinOf(hs);
    var inv := InvertCoordinates(coords).value;
    assert inv != [];
    var his := Heights(inv);
    assert Sorting.MaxOf(his) == maxC && Sorting.MinOf(his) == minC;
    var back := InvertCoordinates(inv).value;
    assert |back| == |coords|;
    forall k | 0 <= k < |coords| ensures back[k] == coords[k] {
      assert inv[k].c == maxC + minC - coords[k].c;
      assert back[k].c == maxC + minC - inv[k].c;
    }
    assert back == coords;
  }

  /** `shift=-slab.shift`: the inverted slab carries the opposite shift. */
  function InvertedShift(shift: real): (r: real)
    ensures r + shift == 0.0
  {
    -shift
  }
}
