# Adsorption workflow and INCAR search of atomate, modelled in Dafny

This project models the part of atomate that runs adsorption studies with
VASP, together with its surrogate search for INCAR settings.

The adsorption workflow runs in five stages:

1. A bulk relaxation (`BulkFW`).
2. A slab-generation step (`SlabAdditionTask`). It builds one slab job per surface. It also adds the inverted termination of each slab whose two surfaces differ.
3. A per-slab step (`SlabAdsAdditionTask`). For every adsorbate and adsorption site it adds either:
   - a relaxation, or
   - a fan of static calculations at trial distances, followed by a distance analysis over exactly those jobs.
4. The distance analysis (`AnalyzeStaticOptimumDistance`). A sign-crossing scan chooses the optimal distance (or the "minimum" strategy does). The step then exits the branch when the adsorption energy is above 2 eV.
5. The follow-on step (`LaunchVaspFromOptimumDistance`). It places the adsorbate at the chosen distance and launches its relaxation.

When the density of states is requested, each relaxation is followed by a static job and a non-self-consistent job. The analysis task moves from the relaxation to that last job.

The geometric helpers are modelled on index lists, neighbour records and reals:

- neighbour selection;
- site-type classification;
- surface labels;
- re-indexing of site properties;
- slab inversion.

The INCAR search (`global_optimum_task.py`) works as follows:

- It proposes parameter vectors from a grid of INCAR values.
- It answers a proposal at once when a previous result for it is known.
- Otherwise it launches an optimisation job and an analysis job, and returns 0.

The modules follow the source:

| Module | Models |
|---|---|
| `DistanceOptimum` | the distance analysis and the distance read-back |
| `SiteGeometry` | the module-level helpers of `adsorption_tasks.py` |
| `Fireworks` | the job constructors of `fireworks/adsorption.py`; the job class is `Firework`, with task list, parents and name updated in place |
| `Expansion` | `SlabAdditionTask`, the DOS rewiring and `LaunchVaspFromOptimumDistance` |
| `SiteJobs` | `SlabAdsAdditionTask` |
| `GlobalOptimum` | `global_optimum_task.py`; the search state (`fws`, `l_params`) is the class `SurrogateSearch` |

`Sorting`, `Strings` and `Results` hold the helpers the other modules share:

- a stable sort by key (Python's `sorted` and `list.sort`);
- substring search and replacement;
- decimal rendering of indices;
- Option and Result.

Energies and distances are exact reals.

The core library's jobs are given as functions in `CoreFireworks`: their task lists and names. These are `OptimizeFW`, `StaticFW` and `NonSCFFW`.

Pairing of samples in the distance analysis:

- The writer pushes `"{i}_energy"` with `i` the position in `static_distances`.
- The reader pairs `"{i}_energy"` with the `i`-th distance of `sorted(distances)`.
- The two agree only when the distances are already ascending. `SiteJobs.WriterReaderAgree` proves the agreement under that precondition.
- `DistanceOptimum.UnsortedDistancesMispair` exhibits the mispairing without it.

## Model

| member | source | states |
|---|---|---|
| DistanceOptimum.EnergyKeyInjective | atomate/vasp/firetasks/adsorption_tasks.py:235-237 | two sample indices give the same `"{i}_energy"` key exactly when they are equal |
| DistanceOptimum.SortedDistances | atomate/vasp/firetasks/adsorption_tasks.py:233 | `sorted(distances)` is ascending and a permutation of the trial distances |
| DistanceOptimum.SamplesArePresentIndices | atomate/vasp/firetasks/adsorption_tasks.py:233-242 | the collected samples are exactly the indices whose energy key is in the spec; they come in ascending index order; each sample pairs the sorted distance at its index with the energy stored under its key |
| DistanceOptimum.SamplesPairPresent | atomate/vasp/firetasks/adsorption_tasks.py:235-242 | the k-th collected sample comes from the k-th present index, with that index's distance and energy |
| DistanceOptimum.PresentAscending | atomate/vasp/firetasks/adsorption_tasks.py:233-235 | the present indices are below the number of distances and strictly increasing |
| DistanceOptimum.PresentMembers | atomate/vasp/firetasks/adsorption_tasks.py:233-235 | an index below the number of distances contributes exactly when its energy key is in the spec |
| DistanceOptimum.SamplesAscending | atomate/vasp/firetasks/adsorption_tasks.py:233-242 | the collected samples are visited in ascending distance order |
| DistanceOptimum.PairingWhenSorted | atomate/vasp/firetasks/adsorption_tasks.py:233 | sorting an ascending distance list returns it unchanged |
| DistanceOptimum.UnsortedDistancesMispair | atomate/vasp/firetasks/adsorption_tasks.py:233-237 | with trial distances [2.0, 1.0], the energy pushed for distance 2.0 (index 0) is paired with distance 1.0 |
| DistanceOptimum.RunAppend | atomate/vasp/firetasks/adsorption_tasks.py:233-262 | scanning a concatenation is scanning the second part from the state the first part left |
| DistanceOptimum.CrossingExample | atomate/vasp/firetasks/adsorption_tasks.py:244-262 | the samples (1, 2), (2, -1), (3, 1) cross zero at 2 and back at 3: optimum 2.5, lowest energy -1, both crossing flags set |
| DistanceOptimum.StandardRange | atomate/vasp/firetasks/adsorption_tasks.py:218-262 | after any scan: `second_0` implies `first_0`; once `first_0` is set the lowest energy is negative and `distance_0` is a recorded distance; the lowest energy is 10000 or a recorded energy; the optimum is the sentinel 3.0 (with energy 10000), a recorded distance, or the midpoint of `distance_0` and a recorded distance |
| DistanceOptimum.SentinelIffNoLowEnergy | atomate/vasp/firetasks/adsorption_tasks.py:218-262 | the scan leaves the sentinel state exactly when some energy is below 10000, and the lowest energy is then below 10000 |
| DistanceOptimum.ZeroBlocksFirstCrossing | atomate/vasp/firetasks/adsorption_tasks.py:244-262 | once the lowest energy is at most 0 before any crossing, `first_0` is never set, whatever follows |
| DistanceOptimum.ZeroFirst | atomate/vasp/firetasks/adsorption_tasks.py:244-262 | a first sample of energy exactly 0 becomes the lowest energy, and `first_0` can then never be set |
| DistanceOptimum.FrozenAfterSecondCrossing | atomate/vasp/firetasks/adsorption_tasks.py:249-258 | after the second crossing the lowest energy and `distance_0` never change; the optimum stays put or becomes the midpoint of `distance_0` and a later positive-energy distance |
| DistanceOptimum.CrossingRule | atomate/vasp/firetasks/adsorption_tasks.py:244-258 | from a positive lowest energy: a negative sample records `distance_0` and becomes the optimum; after non-lower negative samples, a positive one sets the optimum to the midpoint, keeps the lowest energy and sets `second_0` |
| DistanceOptimum.NegativeNoLower | atomate/vasp/firetasks/adsorption_tasks.py:254-258 | between the crossings, negative samples no lower than the lowest energy change nothing |
| DistanceOptimum.ReferenceSum | atomate/vasp/firetasks/adsorption_tasks.py:281-283 | the reference-energy sum fails exactly when an element of the adsorbate has no entry in `ref_elem_energy` (H, O, C) |
| DistanceOptimum.Strategy | atomate/vasp/firetasks/adsorption_tasks.py:264-276 | "minimum" fails only on no samples; otherwise it returns the first sample of least energy, as (energy, distance); any name but "minimum" and "poly_fit" keeps the scan's lowest energy and optimum |
| DistanceOptimum.AdsorptionEnergy | atomate/vasp/firetasks/adsorption_tasks.py:279-285 | without a slab + adsorbate structure the adsorption energy is 1000; with one it fails exactly when the reference sum fails |
| DistanceOptimum.ExitRule | atomate/vasp/firetasks/adsorption_tasks.py:286-305 | both outcomes push exactly the three fields `lowest_energy`, `adsorption_energy` and `optimal_distance`; the step exits exactly when the pushed adsorption energy is above 2 |
| DistanceOptimum.ExitWithoutStructure | atomate/vasp/firetasks/adsorption_tasks.py:264-305 | with no structure in the spec the analysis succeeds, pushes an adsorption energy of 1000 and exits, unless the "minimum" strategy finds no energy at all (then `min()` fails) |
| DistanceOptimum.ScanStaticEnergies | atomate/vasp/firetasks/adsorption_tasks.py:229-262 | the loop collects exactly the present samples and ends in the scan of them; the structure it keeps is the last one present |
| DistanceOptimum.AnalyzeStaticOptimumDistance | atomate/vasp/firetasks/adsorption_tasks.py:208-305 | the step's result is the analysis of its sorted distances, the spec, the strategy and the composition; its properties are the lemmas above |
| DistanceOptimum.ReadOptimalDistance | atomate/vasp/firetasks/adsorption_tasks.py:99 | reading `optimal_distance[0]` succeeds exactly when the pushed list exists and is non-empty, and returns its first entry |
| DistanceOptimum.ReadsFirstPush | atomate/vasp/firetasks/adsorption_tasks.py:99 | after the analysis pushes its optimum, the follow-on step reads the first value pushed, so an earlier push wins over this one |
| DistanceOptimum.ProbeCoordinate | atomate/vasp/firetasks/adsorption_tasks.py:108 | the new coordinate is the site moved by `d` normal vectors; its offset projected on the normal is `d` times the normal's squared length |
| SiteGeometry.GetOverlap | atomate/vasp/firetasks/adsorption_tasks.py:1803-1813 | the overlap fails exactly when `y2` is shorter than `y1`; otherwise it has `len(y1)` entries; each entry is the smaller absolute value, so it is at least 0 and at most both absolute values; it is positive exactly when both absolute values are |
| SiteGeometry.FirstSurface | atomate/vasp/firetasks/adsorption_tasks.py:1838-1839 | the chosen neighbour is the first one that is not an adsorbate site; there is none exactly when all neighbours are adsorbate sites |
| SiteGeometry.NnEntryIsNearest | atomate/vasp/firetasks/adsorption_tasks.py:1833-1843 | the entry for an adsorbate site exists exactly when it has a non-adsorbate neighbour; it names that site, a non-adsorbate neighbour and its distance; no non-adsorbate neighbour is nearer |
| SiteGeometry.NnSurface | atomate/vasp/firetasks/adsorption_tasks.py:1828-1844 | on success there is one entry per adsorbate site, in order, each the nearest-surface entry of that site |
| SiteGeometry.GetNnSurface | atomate/vasp/firetasks/adsorption_tasks.py:1828-1844 | the loop builds exactly the entry list described by `NnSurface`, failing where `next` finds no neighbour |
| SiteGeometry.AdsorptionPair | atomate/vasp/firetasks/adsorption_tasks.py:1512-1514 | `min(nn_surface_list, key=distance)` fails exactly on an empty list; otherwise it returns the (adsorbate, surface) pair of the first entry of least distance |
| SiteGeometry.AdsorbateIds | atomate/vasp/firetasks/adsorption_tasks.py:137-139 | the adsorbate ids are exactly the sites labelled "adsorbate", in increasing order; there are none exactly when no site is so labelled |
| SiteGeometry.AdsorbingSiteIsClosest | atomate/vasp/firetasks/adsorption_tasks.py:140-141 | the adsorbing site is an adsorbate site, and no adsorbate site has a nearer surface neighbour |
| SiteGeometry.InSiteTypeNoAdsorbate | atomate/vasp/firetasks/adsorption_tasks.py:140-141 | with no adsorbate site, `min` of the empty list fails |
| SiteGeometry.InSiteTypeStranded | atomate/vasp/firetasks/adsorption_tasks.py:1838-1839 | an adsorbate site with only adsorbate neighbours makes `next` fail |
| SiteGeometry.AdsorbingSiteFailures | atomate/vasp/firetasks/adsorption_tasks.py:137-141 | those are the only two ways the adsorbing site is not found |
| SiteGeometry.InSiteTypeAtSite | atomate/vasp/firetasks/adsorption_tasks.py:142-143 | once the adsorbing site is found, the input site type fails exactly when it has fewer than three surface neighbours (line 1864), and is otherwise its `get_site_type` type |
| SiteGeometry.SurfaceNeighbors | atomate/vasp/firetasks/adsorption_tasks.py:1861-1862 | the kept neighbours are exactly the neighbours that are not adsorbate sites; a single neighbour is kept exactly when it is not one |
| SiteGeometry.SurfaceNeighborsAppend | atomate/vasp/firetasks/adsorption_tasks.py:1861-1862 | filtering a concatenation filters each part and keeps them in order; with the single-neighbour case this makes the result the order-preserving filter |
| SiteGeometry.GetSiteType | atomate/vasp/firetasks/adsorption_tasks.py:1861-1864 | classification fails exactly when fewer than three non-adsorbate neighbours remain (the unpacking of three) |
| SiteGeometry.NearestThree | atomate/vasp/firetasks/adsorption_tasks.py:1861-1876 | the three neighbours used are non-adsorbate neighbours in ascending distance, and the first is the nearest of all of them |
| SiteGeometry.SiteTypeDecision | atomate/vasp/firetasks/adsorption_tasks.py:1861-1942 | bridge iff d2 < 1.2·d1 and d3 > 1.4·d1; hollow iff d2 < 1.2·d1 and d3 < 1.4·d1; ontop iff neither holds and the normalised projection is above 0.95; `site1` is the nearest neighbour, at distance d1 |
| SiteGeometry.ClassifyDecision | atomate/vasp/firetasks/adsorption_tasks.py:1878-1942 | the same decision tree stated on the three nearest neighbours given directly |
| SiteGeometry.SiteTypeShape | atomate/vasp/firetasks/adsorption_tasks.py:1886-1941 | each site type reports its fixed set of surface sites and its fixed distance keys: bridge 2 sites, hollow 3, ontop 1 (to_surface = d1), other 3 without to_surface |
| SiteGeometry.BoundaryFallsThrough | atomate/vasp/firetasks/adsorption_tasks.py:1878-1896 | with d3 exactly 1.4·d1 the site is neither bridge nor hollow |
| SiteGeometry.GetSlabSurfProps | atomate/vasp/firetasks/adsorption_tasks.py:1958-1969 | the labelling fails exactly on a slab with no sites (`np.amax` of an empty array); otherwise there is one label per site |
| SiteGeometry.SurfaceLabelAt | atomate/vasp/firetasks/adsorption_tasks.py:1958-1969 | a site is surface iff its projection minus the maximum is at least -height; otherwise bottom surface iff its projection minus the minimum is at most height; surface wins when both hold; with height ≥ 0, the highest site is surface and the lowest is never subsurface |
| SiteGeometry.Zip | atomate/vasp/firetasks/adsorption_tasks.py:1182-1183 | `zip` pairs entries by position and stops at the shorter list |
| SiteGeometry.Reindex | atomate/vasp/firetasks/adsorption_tasks.py:1182-1183 | `[prop for _, prop in sorted(zip(id_map, props))]` has as many entries as the zip |
| SiteGeometry.ReindexPlaces | atomate/vasp/firetasks/adsorption_tasks.py:1367-1368 | when `id_map` is a permutation of the site indices, the property of old site i lands at new position `id_map[i]` |
| SiteGeometry.StrictBoundedIsIdentity | atomate/vasp/firetasks/adsorption_tasks.py:1489-1490 | n strictly increasing indices below n are 0 … n-1: the sorted ids of a permutation are the positions themselves |
| SiteGeometry.Heights | atomate/vasp/firetasks/adsorption_tasks.py:474-475 | the heights are the third fractional coordinates, site by site |
| SiteGeometry.InvertCoordinates | atomate/vasp/firetasks/adsorption_tasks.py:473-478 | fails exactly on no sites (`max` of an empty list); otherwise it keeps the count and the in-plane coordinates, and each height z becomes max + min − z |
| SiteGeometry.InversionKeepsRange | atomate/vasp/firetasks/adsorption_tasks.py:473-478 | inversion keeps the highest and the lowest height; a site is at the top after inversion exactly when it was at the bottom before, and the other way round |
| SiteGeometry.InversionInvolution | atomate/vasp/firetasks/adsorption_tasks.py:473-478 | inverting twice gives the original coordinates back |
| SiteGeometry.InvertedShift | atomate/vasp/firetasks/adsorption_tasks.py:493 | the inverted slab's shift is the negated shift |
| Sorting.SortBy | atomate/vasp/firetasks/adsorption_tasks.py:1837 | the key sort (Python's stable `sort(key=...)`) yields an ascending permutation of its input |
| Sorting.SortByStable | atomate/vasp/firetasks/adsorption_tasks.py:1837 | the sort is stable: the elements with any one key come out in the order they went in |
| Sorting.InsertByWithKey | atomate/vasp/firetasks/adsorption_tasks.py:1837 | inserting an element puts it ahead of every element that has its key |
| Sorting.SortBySorted | atomate/vasp/firetasks/adsorption_tasks.py:233 | the stable sort leaves an already ascending list unchanged |
| Sorting.ArgMinBy | atomate/vasp/firetasks/adsorption_tasks.py:276 | `np.where(a == a.min())[0][0]` is the first index of least key |
| Sorting.MaxOf | atomate/vasp/firetasks/adsorption_tasks.py:474 | the maximum bounds every entry and is attained |
| Sorting.MinOf | atomate/vasp/firetasks/adsorption_tasks.py:475 | the minimum bounds every entry from below and is attained |
| Strings.ReplacePresent | atomate/vasp/fireworks/adsorption.py:470-471 | when the phrase occurs in a name, the name with every occurrence replaced contains the replacement |
| Strings.NatToStringInjective | atomate/vasp/firetasks/adsorption_tasks.py:909-911 | distinct indices render as distinct decimal strings |
| Fireworks.NeverMerged | atomate/vasp/fireworks/adsorption.py:98-100 | non-empty user INCAR settings are used alone: no default key is added and every value is the user's |
| Fireworks.DefaultsWhenFalsy | atomate/vasp/fireworks/adsorption.py:206-208 | absent or empty user INCAR settings give exactly the defaults |
| Fireworks.SlabNamePrecedence | atomate/vasp/fireworks/adsorption.py:224-234 | the Miller index and shift of `slab_data` win over the structure's own when truthy; with neither truthy anywhere the name is the bare formula; a falsy index or shift adds nothing |
| Fireworks.AnalysisName | atomate/vasp/fireworks/adsorption.py:470-480 | a name containing "slab + adsorbate optimization" becomes that name with the phrase replaced by "adsorption analysis"; any successful result contains "adsorption analysis" |
| Fireworks.AnalysisNameFallback | atomate/vasp/fireworks/adsorption.py:472-480 | without either phrase the name is slab name + " " + adsorbate + " adsorption analysis"; this fails exactly when `slab_data` has neither a name nor a structure |
| Fireworks.WithTaskLabel | atomate/vasp/fireworks/adsorption.py:298-300 | `additional_fields["task_label"]` becomes the name; every other field and every other additional field is unchanged; the additional fields are created only when absent |
| Fireworks.BulkFW | atomate/vasp/fireworks/adsorption.py:102-131 | the bulk job's tasks are the optimisation's tasks followed by exactly one SlabAdditionTask named formula + " slab generator" |
| Fireworks.BulkRequest | atomate/vasp/fireworks/adsorption.py:98-112 | without a given input set the bulk surface set uses the chosen INCAR; the job pushes `bulk_structure` and `bulk_energy` |
| Fireworks.SlabFW | atomate/vasp/fireworks/adsorption.py:223-246 | the slab job's tasks are the optimisation's tasks followed by exactly one SlabAdsAdditionTask, whose `slab_data` carries the computed slab name |
| Fireworks.SlabRequest | atomate/vasp/fireworks/adsorption.py:206-222 | without a given input set the slab surface set uses the chosen INCAR; the job pushes `slab_structure` and `slab_energy` and does not parse Bader charges |
| Fireworks.EnergyLandscapeFW | atomate/vasp/fireworks/adsorption.py:298-327 | fails exactly when no structure is given; otherwise its tasks are WriteVaspFromIOSet, RunVaspCustodian, PassCalcLocs, VaspToDb in that order; the database step carries the `task_label` field; the job is named formula + "-" + name |
| Fireworks.DistanceOptimizationFW | atomate/vasp/fireworks/adsorption.py:386-404 | the tasks are exactly AnalyzeStaticOptimumDistance then LaunchVaspFromOptimumDistance; the job is named formula + "-" + name |
| Fireworks.SlabAdsFW | atomate/vasp/fireworks/adsorption.py:463-489 | the slab + adsorbate job's tasks are the optimisation's tasks followed by exactly one AnalysisAdditionTask carrying the analysis name; building fails exactly when that name cannot be formed |
| Fireworks.SlabAdsRequest | atomate/vasp/fireworks/adsorption.py:451-467 | without a given input set the surface set uses the chosen INCAR; the job pushes exactly `slab_ads_structure`, `slab_ads_energy` and `adsorbate` |
| Fireworks.AdsorptionAnalysisFW | atomate/vasp/fireworks/adsorption.py:522-531 | the analysis job has exactly one task, the adsorption analysis |
| Expansion.Insert | atomate/vasp/firetasks/adsorption_tasks.py:549-550 | `list.insert(i, x)` puts x at i with the rest shifted, or appends when i is past the end |
| Expansion.RemoveFirst | atomate/vasp/firetasks/adsorption_tasks.py:543 | `list.remove(x)` drops one occurrence of x, and changes nothing when x is absent |
| Expansion.RemoveLast | atomate/vasp/firetasks/adsorption_tasks.py:542-543 | removing the last task, when it occurs nowhere earlier, drops exactly the last entry |
| Expansion.InsertCounts | atomate/vasp/firetasks/adsorption_tasks.py:549-550 | inserting adds exactly the inserted element to the list's elements |
| Expansion.RemoveFirstCounts | atomate/vasp/firetasks/adsorption_tasks.py:543 | removing a present element drops exactly one occurrence of it |
| Expansion.DosRewire | atomate/vasp/firetasks/adsorption_tasks.py:540-566 | the relax job keeps its name and parents and loses the moved task (its last); the static job "{name} static" follows the relax job and runs the core static tasks with ModifyIncar inserted at index 2; the nscf job "{name} nscf" follows the static job and runs the core nscf tasks, pushing the given fields, with ModifyIncar at index 2 and the moved task appended |
| Expansion.DosChainParts | atomate/vasp/firetasks/adsorption_tasks.py:540-566 | after the rewiring the moved task ends the nscf job and is gone once from the relax job (which is then its earlier tasks, when no equal task precedes it); ModifyIncar is the third task of the static and nscf jobs whenever their own task lists have two tasks ahead of it |
| Expansion.SlabGenDefaults | atomate/vasp/firetasks/adsorption_tasks.py:365-376 | the slab generation parameters keep every given entry and gain `min_slab_size` 12.0, `min_vacuum_size` 20.0 and `max_index` 1 where absent |
| Expansion.MinLw | atomate/vasp/firetasks/adsorption_tasks.py:366 | `min_lw or 10.0`: a given non-zero value is kept, otherwise 10.0 |
| Expansion.TopSpeciesNonEmpty | atomate/vasp/firetasks/adsorption_tasks.py:445-452 | a non-empty structure has at least one species at its top and at its bottom height |
| Expansion.Slabs001 | atomate/vasp/firetasks/adsorption_tasks.py:438-441 | the loop keeps exactly the slabs with Miller index (0, 0, 1), in their generated order (`Of001`) |
| Expansion.Of001 | atomate/vasp/firetasks/adsorption_tasks.py:438-441 | the (0, 0, 1) filter keeps exactly the slabs with that index and no more slabs than it is given |
| Expansion.MatchingTerminations | atomate/vasp/firetasks/adsorption_tasks.py:443-465 | the termination filter keeps exactly the slabs whose top and bottom species equal the bulk's |
| Expansion.KeepMatching | atomate/vasp/firetasks/adsorption_tasks.py:443-465 | the loop fails exactly when some (0, 0, 1) slab has no sites; otherwise it keeps, in order, the slabs whose terminations match |
| Expansion.LayeredFilter | atomate/vasp/firetasks/adsorption_tasks.py:436-465 | for a layered bulk, the kept slabs are, in their generated order, exactly the (0, 0, 1) slabs whose top and bottom species match the bulk's; it fails exactly on an empty bulk or an empty (0, 0, 1) slab |
| Expansion.PlaceSites | atomate/vasp/firetasks/adsorption_tasks.py:489-494 | the new slab carries the new coordinates and keeps every site's species |
| Expansion.PlaceOwnCoords | atomate/vasp/firetasks/adsorption_tasks.py:489-494 | placing a slab's sites at their own coordinates changes nothing |
| Expansion.PlaceTwice | atomate/vasp/firetasks/adsorption_tasks.py:489-494 | placing twice is placing once at the later coordinates |
| Expansion.InvertSlab | atomate/vasp/firetasks/adsorption_tasks.py:473-494 | the inverted slab keeps formula, Miller index, site count, species and the equivalence of its surfaces, and negates the shift; its site heights and its oriented cell are inverted by max + min − z; it fails exactly when the slab or its oriented cell has no sites |
| Expansion.InvertSlabInvolution | atomate/vasp/firetasks/adsorption_tasks.py:473-494 | inverting a slab twice gives the slab back |
| Expansion.InversionsFailFrom | atomate/vasp/firetasks/adsorption_tasks.py:469-495 | a failure among the first n slabs is a failure of the whole inversion loop |
| Expansion.InversionsMeaning | atomate/vasp/firetasks/adsorption_tasks.py:469-495 | the loop fails exactly when a slab with differing surfaces cannot be inverted; otherwise it yields one inverted slab per such slab, in order |
| Expansion.AddInversions | atomate/vasp/firetasks/adsorption_tasks.py:467-495 | `all_slabs` is the slabs followed by the inversions of those with differing surfaces |
| Expansion.SlabJobName | atomate/vasp/firetasks/adsorption_tasks.py:504-509 | the slab job name starts with the reduced formula, adds index and shift when truthy, and ends with " slab optimization" |
| Expansion.SlabJobsAppend | atomate/vasp/firetasks/adsorption_tasks.py:497-568 | the job list of one more slab is the old list followed by that slab's block |
| Expansion.SlabJobsCount | atomate/vasp/firetasks/adsorption_tasks.py:540-568 | each slab contributes 3 jobs when DOS is requested and 1 otherwise |
| Expansion.SlabBlock | atomate/vasp/firetasks/adsorption_tasks.py:504-568 | one slab's block: the slab job named by `SlabJobName`, with no parents, running the optimisation tasks followed by a SlabAdsAdditionTask carrying the slab's data and name; when DOS is requested it is rewired into the static and nscf chain of `DosRewire`, with the slab INCAR update and `slab_structure` and `slab_energy` pushed |
| Expansion.AddSlab | atomate/vasp/firetasks/adsorption_tasks.py:497-568 | one more slab appends its block, as described for `SlabBlock`, to the blocks of the slabs before it |
| Expansion.SlabJobsFor | atomate/vasp/firetasks/adsorption_tasks.py:497-568 | the loop builds, slab by slab, exactly the blocks of all slabs, 3 or 1 jobs per slab |
| Expansion.SlabAdditionTask | atomate/vasp/firetasks/adsorption_tasks.py:365-574 | fails exactly when a layered bulk is empty or has an empty (0, 0, 1) slab, or when a slab with differing surfaces cannot be inverted; the slabs used are the given ones, or for a layered bulk the filtered ones in their generated order; all slabs are those followed by their inversions; the workflow is, slab by slab, the block described for `SlabBlock` |
| Expansion.LaunchName | atomate/vasp/firetasks/adsorption_tasks.py:124-126 | the relaxation name always contains "slab + adsorbate optimization", so its analysis name can always be formed |
| Expansion.LaunchVaspFromOptimumDistance | atomate/vasp/firetasks/adsorption_tasks.py:99-190 | fails exactly when no optimal distance was pushed or the input site type of the new structure cannot be found; otherwise the adsorbate goes to the probe coordinate of the first pushed distance and the input site type is returned; the relaxation is named "{name} slab + adsorbate optimization", has no parents and runs the default SlabAdsFW tasks (the optimisation, then the analysis addition); with DOS it is rewired into the static and nscf chain of `DosRewire`, with the relaxation INCAR update and `slab_ads_structure` and `slab_ads_energy` pushed |
| SiteJobs.StaticDistances | atomate/vasp/firetasks/adsorption_tasks.py:646 | `static_distances or [0.5, 1.0, 1.5, 2.0]`: never empty, and a given non-empty list is kept |
| SiteJobs.EnumerateSites | atomate/vasp/firetasks/adsorption_tasks.py:880-883 | enumeration fails exactly when a requested position kind has no entry; the enumerated sites are exactly the sites found for the requested kinds |
| SiteJobs.EnumerateSitesAppend | atomate/vasp/firetasks/adsorption_tasks.py:880-883 | the sites of a list of kinds are those of its first part followed by those of the rest: the chained product visits kind by kind |
| SiteJobs.EnumerateSitesOne | atomate/vasp/firetasks/adsorption_tasks.py:880-883 | one kind contributes its sites in the site finder's order |
| SiteJobs.PositionSites | atomate/vasp/firetasks/adsorption_tasks.py:882 | `product([position], coords[position])`: one site per coordinate, in order |
| SiteJobs.StaticJob | atomate/vasp/firetasks/adsorption_tasks.py:897-917 | each static job has no parents, is named after its site and distance, and pushes `"{i}_energy"` and `"{i}_structure"` for its index i |
| SiteJobs.SiteBlock | atomate/vasp/firetasks/adsorption_tasks.py:884-939 | one site adds one static job per trial distance, in order, then one distance analysis job whose parents are exactly those jobs |
| SiteJobs.SiteBlocksAppend | atomate/vasp/firetasks/adsorption_tasks.py:880-939 | appending one more site block keeps the job list made of whole site blocks |
| SiteJobs.SiteBlocksConcat | atomate/vasp/firetasks/adsorption_tasks.py:880-939 | concatenating two lists of whole site blocks gives a list of whole site blocks |
| SiteJobs.RelaxSite | atomate/vasp/firetasks/adsorption_tasks.py:969-1039 | (intended behaviour) a relaxation named "{site} slab + adsorbate optimization", with no parents, running the default SlabAdsFW tasks; with DOS followed by its static and nscf jobs as `DosRewire` builds them: the analysis task moved to the nscf job, the INCAR update third, `slab_ads_structure` and `slab_ads_energy` pushed |
| SiteJobs.RelaxSiteAsWritten | atomate/vasp/firetasks/adsorption_tasks.py:1009-1039 | as written, the DOS branch fails at `static.insert` (a job has no `insert`); without DOS it yields the relaxation alone |
| SiteJobs.RelaxSiteInsertFixed | atomate/vasp/firetasks/adsorption_tasks.py:1009-1039 | with `insert` fixed, the DOS branch yields four entries, the relaxation appearing first and again last |
| SiteJobs.SiteJobs | atomate/vasp/firetasks/adsorption_tasks.py:873-1039 | one site adds `len(static_distances) + 1` jobs forming a site block when optimising; otherwise 3 or 1 jobs forming the relaxation block of `RelaxSite` for that site's name |
| SiteJobs.SiteJobNames | atomate/vasp/firetasks/adsorption_tasks.py:884-1033 | one site contributes as many names as jobs |
| SiteJobs.AdsorbateJobNames | atomate/vasp/firetasks/adsorption_tasks.py:880-1039 | one adsorbate's names over its first sites, one block per site |
| SiteJobs.AllJobNames | atomate/vasp/firetasks/adsorption_tasks.py:870-1041 | the names of all the jobs: one block per adsorbate and site, in visiting order |
| SiteJobs.AllJobNamesStep | atomate/vasp/firetasks/adsorption_tasks.py:870-1041 | one more adsorbate appends its own names |
| SiteJobs.SiteNamesDistinct | atomate/vasp/firetasks/adsorption_tasks.py:884-887 | two sites of one adsorbate have distinct names "{slab} {adsorbate} [{i}]" |
| SiteJobs.AddSite | atomate/vasp/firetasks/adsorption_tasks.py:880-1039 | one more site appends its block: the count grows by one block, the names by the site's names, and the list stays whole site blocks when optimising and whole relaxation blocks, named by site index, otherwise |
| SiteJobs.FindSiteTypes | atomate/vasp/firetasks/adsorption_tasks.py:986-992 | finding the input site type at every site fails exactly when it fails at some site |
| SiteJobs.FindAllSiteTypes | atomate/vasp/firetasks/adsorption_tasks.py:870-992 | over all adsorbates and sites, it fails exactly when some adsorbate at some site has no input site type |
| SiteJobs.AdsorbateJobs | atomate/vasp/firetasks/adsorption_tasks.py:880-1039 | one adsorbate's jobs: one block per site, named block by block; whole site blocks when optimising, and otherwise the relaxation block of each site in turn |
| SiteJobs.AddAdsorbate | atomate/vasp/firetasks/adsorption_tasks.py:870-1041 | one more adsorbate appends its jobs: the count, the names and the site or relaxation blocks all extend by that adsorbate's |
| SiteJobs.AllAdsorbateJobs | atomate/vasp/firetasks/adsorption_tasks.py:870-1041 | all adsorbates' jobs: adsorbates × sites × block size jobs, named by `AllJobNames`, forming site blocks when optimising and otherwise the relaxation block of every adsorbate at every site (`AllRelaxBlocks`) |
| SiteJobs.SlabAdsAdditionTask | atomate/vasp/firetasks/adsorption_tasks.py:870-1041 | no adsorbates give no jobs; otherwise it fails exactly when site enumeration fails or, without the distance optimisation, when some adsorbate at some site has no input site type (lines 986-992); the jobs are `adsorbates × sites × block size`, named in visiting order by `AllJobNames`; when optimising they are whole site blocks, and otherwise each adsorbate at each site has the relaxation block of the corrected `RelaxSite`. As written, line 1019 fails every DOS site when `dos_calculate` is true, its default (line 665) |
| SiteJobs.PushedEnergyAt | atomate/vasp/firetasks/adsorption_tasks.py:909-910 | the spec holds each static job's energy under `"{i}_energy"` for its index i |
| SiteJobs.PushedSamples | atomate/vasp/firetasks/adsorption_tasks.py:890-912 | with every energy pushed, reading by position pairs the i-th distance with the i-th energy |
| SiteJobs.WriterReaderAgree | atomate/vasp/firetasks/adsorption_tasks.py:890-912 | for ascending static distances, the analysis pairs every trial distance with exactly the energy computed at it |
| GlobalOptimum.SelectMinimizer | atomate/vasp/firetasks/global_optimum_task.py:48-54 | the default and "forest" give forest_minimize, "grbt" gbrt_minimize, "gp" gp_minimize; a given function passes through; any other name stays a name |
| GlobalOptimum.PreviousResults | atomate/vasp/firetasks/global_optimum_task.py:55-63 | with parents the previous results are the spec's `results`; otherwise they are the given ones |
| GlobalOptimum.NCalls | atomate/vasp/firetasks/global_optimum_task.py:124-130 | the call budget is `max_fw` with fewer than 100 previous results, and 100 otherwise |
| GlobalOptimum.SearchSpace | atomate/vasp/firetasks/global_optimum_task.py:120-122 | the search space lists each grid key's value domain, in key order |
| GlobalOptimum.BuildSearchSpace | atomate/vasp/firetasks/global_optimum_task.py:120-122 | the loop builds exactly that search space |
| GlobalOptimum.IncarUpdate | atomate/vasp/firetasks/global_optimum_task.py:149-151 | the loop builds the update key by key, failing when `params` is shorter than the grid (`params[n]` out of range) |
| GlobalOptimum.UpdateMapMeaning | atomate/vasp/firetasks/global_optimum_task.py:149-151 | the update's keys are exactly the grid's keys, and with distinct keys the n-th key maps to `params[n]` |
| GlobalOptimum.GridKeyOrder | atomate/vasp/firetasks/global_optimum_task.py:120-122 | for a point of the search space the update succeeds and gives every key a value from that key's own domain: `p_t` and the update use the same key order |
| GlobalOptimum.LossFunction | atomate/vasp/firetasks/global_optimum_task.py:80-105 | no electronic steps, or an empty last one, fails first; only the four metric names succeed; `num_ionic` is minus the number of ionic steps |
| GlobalOptimum.TotalNCountsAllSteps | atomate/vasp/firetasks/global_optimum_task.py:83-86 | when every ionic step has m electronic steps numbered to m, `total_N` is minus their total count |
| GlobalOptimum.LossMetrics | atomate/vasp/firetasks/global_optimum_task.py:80-105 | on a well-formed record the metric fails exactly for an unknown name; `total_N` is `-(last N + (ionic steps - 1) × length of the first)` |
| GlobalOptimum.CalculateLossPush | atomate/vasp/firetasks/global_optimum_task.py:24-33 | CalculateLoss pushes under `results` the parameters and their default `total_N` loss, and fails exactly when that loss fails |
| GlobalOptimum.SearchRequest | atomate/vasp/firetasks/global_optimum_task.py:155-170 | as written the job uses the relax set without the INCAR update, never defuses children, and runs the "normal" job type |
| GlobalOptimum.UpdateIgnored | atomate/vasp/firetasks/global_optimum_task.py:149-170 | as written the requested job is the same for every INCAR update |
| GlobalOptimum.SearchRequestWithUpdate | atomate/vasp/firetasks/global_optimum_task.py:149-170 | (intended) the relax set's INCAR is the base settings overridden by the update, with no other key |
| GlobalOptimum.UpdateApplied | atomate/vasp/firetasks/global_optimum_task.py:149-170 | (intended) each grid key in the job's INCAR has the proposed value |
| GlobalOptimum.UnknownMembers | atomate/vasp/firetasks/global_optimum_task.py:138-143 | the proposals answered by launching are exactly the proposals without a previous result |
| GlobalOptimum.DistinctMembers | atomate/vasp/firetasks/global_optimum_task.py:144 | removing repeats keeps exactly the same proposals |
| GlobalOptimum.GuardedStep | atomate/vasp/firetasks/global_optimum_task.py:138-191 | with a working guard, a known or already launched proposal launches nothing, and a new one is added once |
| GlobalOptimum.LaunchedPairsExtend | atomate/vasp/firetasks/global_optimum_task.py:136-191 | a pair appended for one more proposal, the earlier jobs kept, extends the list of launched pairs by that proposal |
| GlobalOptimum.SurrogateSearch.constructor | atomate/vasp/firetasks/global_optimum_task.py:107-134 | the search starts with no jobs and an empty `l_params` |
| GlobalOptimum.SurrogateSearch.Launch | atomate/vasp/firetasks/global_optimum_task.py:155-183 | appends an optimisation job (ending in CalculateLoss with the parameters) and a GlobalOptimum job; the latter's parents are every job so far plus that optimisation job |
| GlobalOptimum.SurrogateSearch.Func | atomate/vasp/firetasks/global_optimum_task.py:136-191 | as written: a known proposal returns its result and launches nothing; any other proposal fails with a too-short vector, or returns 0 and appends a pair: the optimisation job (no parents, the optimisation tasks for the relax INCAR with the proposal's update, then CalculateLoss of the proposal) and the "{formula}-Global Optimum" job (AnalyzeLossAndDecideNextStep, with every job before it as parents); earlier jobs are kept; `l_params` never grows |
| GlobalOptimum.SurrogateSearch.FuncGuarded | atomate/vasp/firetasks/global_optimum_task.py:136-191 | (intended) the same, except that a proposal already launched returns 0 without a new pair, and a launched proposal is appended to `l_params`, so that the jobs stay one such pair per entry of `l_params` |
| GlobalOptimum.SurrogateSearch.RunMinimizer | atomate/vasp/firetasks/global_optimum_task.py:136-194 | as written, the earlier jobs are kept and followed by one pair, with the content given for `Func`, per proposal without a previous result, in call order, repeats included; `l_params` stays empty |
| GlobalOptimum.SurrogateSearch.RunMinimizerGuarded | atomate/vasp/firetasks/global_optimum_task.py:136-194 | (intended) the earlier jobs are kept and followed by one pair, with the content given for `Func`, per distinct unknown proposal; `l_params` lists those proposals in first-seen order |
| GlobalOptimum.RepeatedPoint | atomate/vasp/firetasks/global_optimum_task.py:144-191 | proposing a new point twice launches two pairs as written, but only one with a working guard |
| GlobalOptimum.LoadAndLaunch | atomate/vasp/firetasks/global_optimum_task.py:107-195 | as written the returned workflow is empty: it is built before the minimizer adds jobs; the search still holds one pair, with the content given for `Func`, per unknown proposal, in call order |
| GlobalOptimum.LoadAndLaunchAfterSearch | atomate/vasp/firetasks/global_optimum_task.py:193-195 | (intended) the workflow holds exactly one pair, with the content given for `Func`, per unknown proposal, in call order |
| GlobalOptimum.AnalyzeLossAndDecideNextStep | atomate/vasp/firetasks/global_optimum_task.py:45-70 | fails exactly when the minimizer name is not one of the three (the name is then called); otherwise it adds the (empty) workflow, the search having launched one pair per unknown proposal, with the default `max_fw` 10 in the analysis jobs |

## Left out

- Parsing and analysis plumbing is not modelled: Vasprun, Oszicar file reading, directory listing, Bader, DDEC6, the work function, DOS integration and database insertion. These are file I/O and floating-point work in external libraries. The OSZICAR record is an input (`GlobalOptimum.Oszicar`).
- The "poly_fit" strategy takes its fitted minimum as an input. The numpy polynomial fit is floating-point curve fitting.
- Library geometry is given as inputs or oracle functions of site indices. This covers lattice norms and supercells, Heron's formula, plane distances, normalised projections, neighbour lists, the structure matcher, the site finder, slab generation and the dimensionality test.
- Adsorption energies use an opaque volume per structure. Scale factors are exact real quotients.
- Real-valued loss metrics (`last_five_dE`, `ionic_dE`) use exact reals rather than floating point.
- Float formatting of names (`"{:.3f}"`, `"{:.2f}"` and the comma replacement) is given as opaque formatting functions.
- Core-library jobs are `CoreFireworks` functions: `OptimizeFW`, `StaticFW` and `NonSCFFW`. Their own task lists are not modelled.
- The INCAR update `"GG": "RP"` is kept as written, although VASP's tag is `GGA`. It is a constant of the source, not a logic error the model can show.
- Keyword arguments forwarded with `**kwargs` are not modelled. This covers `slab_fw_params`, `slab_ads_fw_params` and `opt_kwargs`. Job parameters that only pass through unchanged are also not modelled.
- The `vasp_calcs` entry of `slab_fw_params` (atomate/vasp/firetasks/adsorption_tasks.py:387-389 and 570-572) is not modelled. It is a test hook: when given, it is popped and the whole workflow is passed through `use_fake_vasp`, which is not part of this model.
- The `dos_calculate` flag is a resolved boolean.
- Selective dynamics and the site-data dictionaries (`asf_site_type`, `surface_properties`, `input_structure`) are not modelled. They feed only the analysis step, which is not modelled. The `id_map` re-indexing is modelled by SiteGeometry.Reindex and SiteGeometry.ReindexPlaces. The input site type is computed, and its failures end the step.
- The slab + adsorbate structure is given as the labels, neighbour lists and decision-tree geometry that the input site type reads (`SlabAdsGeometry`). In SlabAdsAdditionTask it is a function of the adsorbate and the site (`slabAdsOf`). Building these structures is library work.
- `slab_ads.sites.index(ads_site)` is taken to be the adsorbate site's own index, as it is when no two sites are equal.
- SiteGeometry.Reindex requires the ids to be distinct. With repeated ids, Python would compare the properties themselves.
- The GlobalOptimumFW parents list aliases the growing `fws` list. The model records a snapshot taken when the job is built.
- CalculateLoss hands `{"_push": {"results": ...}}` to `update_spec`. The model reads the spec's `results` as one map from parameters to loss, which is how AnalyzeLossAndDecideNextStep reads it. How FireWorks applies `_push` is FireWorks behaviour, and FireWorks is not part of this model.
- Python cannot hash a parameter list as a dictionary key. That error is not modelled: parameters are sequences and the maps accept them.
- GlobalOptimum.AnalyzeLossAndDecideNextStep does not carry the minimizer and grid into the next step's task. The next step is the tag `AnalyzeLossAndDecideNextStep(max_fw, parents)`, and GlobalOptimumFW (fireworks/global_optimum.py) is modelled only as that tag.
- The skopt minimizers are a given sequence of proposed points. Their choice of points is outside the model.
- `opt_kwargs` and `pmg_set` are not modelled. `MPRelaxSet(...)` is always truthy, so `pmg_set` is never used.
- The one-hour wall-time handler is recorded only as the handler group "walltime".
- The `print(params)` call in the search is not modelled.
- The bond and angle enumeration, and the `electronic_descriptors` block, belong to the analysis task, which this model does not cover. The workflows module of the global optimum is an empty stub.

## Findings

| source | as written | input that shows it | evidently intended | confidence | as-written member | corrected member |
|---|---|---|---|---|---|---|
| atomate/vasp/firetasks/adsorption_tasks.py:1019 | `static.insert(2, ModifyIncar(...))` is called on the Firework itself, which has no `insert` | any site with `dos_calculate` true and `optimize_distance` false | `static.tasks.insert(2, ...)`, as at lines 549 and 1035 | high, not executed | SiteJobs.RelaxSiteAsWritten | SiteJobs.RelaxSite |
| atomate/vasp/firetasks/adsorption_tasks.py:1013-1039 | `slab_ads_fw` is appended at line 1013 and again, unconditionally, at line 1039 | the same site once line 1019 is fixed: four entries, the relaxation first and last | the relaxation appended once, followed by the static and nscf jobs | high, not executed | SiteJobs.RelaxSiteInsertFixed | SiteJobs.RelaxSite |
| atomate/vasp/firetasks/global_optimum_task.py:144-191 | `l_params.append(params)` follows both returns and is unreachable, so the in-flight guard never fires | the proposals [p, p] with p unknown launch two job pairs | each unknown proposal is launched once | high, not executed | GlobalOptimum.SurrogateSearch.RunMinimizer | GlobalOptimum.SurrogateSearch.RunMinimizerGuarded |
| atomate/vasp/firetasks/global_optimum_task.py:149-170 | `incar_update` is computed but never passed to the input set | any two proposals give the same job request | the relax set built with `user_incar_settings=incar_update` | high, not executed | GlobalOptimum.UpdateIgnored | GlobalOptimum.UpdateApplied |
| atomate/vasp/firetasks/global_optimum_task.py:193-194 | `Workflow(fws)` is built before the minimizer fills `fws` | any run with an unknown proposal returns a workflow without its jobs | build the workflow after the minimizer returns | medium (depends on Workflow copying its list), not executed | GlobalOptimum.LoadAndLaunch | GlobalOptimum.LoadAndLaunchAfterSearch |
