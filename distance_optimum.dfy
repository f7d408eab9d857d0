/** The distance-optimum decision of the adsorption workflow
    (AnalyzeStaticOptimumDistance): static energies computed with the
    adsorbate at several distances from the slab are scanned in ascending
    distance order; a sign-crossing state machine picks the distance to
    relax at, and the adsorption energy decides whether the branch exits. */
module DistanceOptimum {
  import opened Results
  import Sorting
  import Strings

  // ---------------------------------------------------------------- keys

  /** `"{}_energy".format(i)`: the spec key under which static job `i` pushes its energy. */
  function EnergyKey(i: nat): string
  {
    Strings.NatToString(i) + "_energy"
  }

  /** `"{}_structure".format(i)`: the key under which static job `i` pushes its structure. */
  function StructureKey(i: nat): string
  {
    Strings.NatToString(i) + "_structure"
  }

  /** Distinct static jobs push under distinct keys. */
  lemma EnergyKeyInjective(i: nat, j: nat)
    ensures EnergyKey(i) == EnergyKey(j) <==> i == j
  {
    if EnergyKey(i) == EnergyKey(j) {
      Strings.SuffixCancel(Strings.NatToString(i), Strings.NatToString(j), "_energy");
      Strings.NatToStringInjective(i, j);
    }
  }

  // ---------------------------------------------------------------- inputs

  /** The part of the job's spec the analysis reads. `energies` holds the
      pushed `"{i}_energy"` values; `structureVolumes` holds, for each pushed
      `"{i}_structure"`, the volume of that structure (the only thing the
      analysis uses of it); `slabEnergy` is `"slab_energy"` if present. */
  datatype StaticSpec = StaticSpec(
    energies: map<string, real>,
    structureVolumes: map<string, real>,
    slabEnergy: Option<real>)

  datatype Sample = Sample(distance: real, energy: real)

  function Id(d: real): real { d }

  function SampleDistance(s: Sample): real { s.distance }

  /** `sorted(distances)`. */
  function SortedDistances(distances: seq<real>): (r: seq<real>)
    ensures Sorting.SortedBy(r, Id) && |r| == |distances|
    ensures multiset(r) == multiset(distances)
  {
    Sorting.SortBy(distances, Id)
  }

  /** The samples the loop appends to `all_distances`/`all_energies` while it
      has visited the first `n` sorted distances: index `i` contributes only
      when `"{i}_energy"` is present, paired with the `i`-th sorted distance. */
  function SamplesUpTo(sorted: seq<real>, energies: map<string, real>, n: nat): seq<Sample>
    requires n <= |sorted|
  {
    if n == 0 then []
    else SamplesUpTo(sorted, energies, n - 1)
         + (if EnergyKey(n - 1) in energies then [Sample(sorted[n - 1], energies[EnergyKey(n - 1)])] else [])
  }

  /** The indices whose energy is present, in visiting order. */
  function PresentUpTo(energies: map<string, real>, n: nat): seq<nat>
  {
    if n == 0 then []
    else PresentUpTo(energies, n - 1) + (if EnergyKey(n - 1) in energies then [n - 1] else [])
  }

  /** `output_slab_ads`: the structure of the last visited index that has both
      an energy and a structure (`fw_spec.get(...) or output_slab_ads`); its volume. */
  function LastStructureUpTo(spec: StaticSpec, n: nat): Option<real>
  {
    if n == 0 then None
    else if EnergyKey(n - 1) in spec.energies && StructureKey(n - 1) in spec.structureVolumes
    then Some(spec.structureVolumes[StructureKey(n - 1)])
    else LastStructureUpTo(spec, n - 1)
  }

  /** Scan order and missing samples: the samples are exactly the present
      indices, in increasing order, each paired with its own sorted distance
      and its own energy. */
  lemma {:induction false} SamplesArePresentIndices(sorted: seq<real>, energies: map<string, real>, n: nat)
    requires n <= |sorted|
    ensures var s, p := SamplesUpTo(sorted, energies, n), PresentUpTo(energies, n);
      && |s| == |p|
      && (forall k :: 0 <= k < |p| ==>
            (p[k] < n && EnergyKey(p[k]) in energies
             && s[k] == Sample(sorted[p[k]], energies[EnergyKey(p[k])])))
      && (forall k, l :: 0 <= k < l < |p| ==> p[k] < p[l])
      && (forall i :: 0 <= i < n ==> (EnergyKey(i) in energies <==> i in p))
  {
    SamplesPairPresent(sorted, energies, n);
    PresentAscending(energies, n);
    PresentMembers(energies, n);
  }

  lemma {:induction false} SamplesPairPresent(sorted: seq<real>, energies: map<string, real>, n: nat)
    requires n <= |sorted|
    ensures var s, p := SamplesUpTo(sorted, energies, n), PresentUpTo(energies, n);
      && |s| == |p|
      && forall k :: 0 <= k < |p| ==>
           (p[k] < n && EnergyKey(p[k]) in energies
            && s[k] == Sample(sorted[p[k]], energies[EnergyKey(p[k])]))
  {
    if n > 0 {
      SamplesPairPresent(sorted, energies, n - 1);
      var s0, p0 := SamplesUpTo(sorted, energies, n - 1), PresentUpTo(energies, n - 1);
      var s, p := SamplesUpTo(sorted, energies, n), PresentUpTo(energies, n);
      if EnergyKey(n - 1) in energies {
        assert s == s0 + [Sample(sorted[n - 1], energies[EnergyKey(n - 1)])] && p == p0 + [n - 1];
        forall k | 0 <= k < |p|
          ensures p[k] < n && EnergyKey(p[k]) in energies && s[k] == Sample(sorted[p[k]], energies[EnergyKey(p[k])])
        {
          if k < |p0| {
            assert p[k] == p0[k] && s[k] == s0[k];
          }
        }
      } else {
        assert s == s0 && p == p0;
      }
    }
  }

  lemma {:induction false} PresentAscending(energies: map<string, real>, n: nat)
    ensures forall k :: 0 <= k < |PresentUpTo(energies, n)| ==> PresentUpTo(energies, n)[k] < n
    ensures forall k, l :: 0 <= k < l < |PresentUpTo(energies, n)| ==>
      PresentUpTo(energies, n)[k] < PresentUpTo(energies, n)[l]
  {
    if n > 0 {
      PresentAscending(energies, n - 1);
    }
  }

  lemma {:induction false} PresentMembers(energies: map<string, real>, n: nat)
    ensures forall i :: 0 <= i < n ==> (EnergyKey(i) in energies <==> i in PresentUpTo(energies, n))
  {
    if n > 0 {
      PresentAscending(energies, n - 1);
      PresentMembers(energies, n - 1);
      var p0, p := PresentUpTo(energies, n - 1), PresentUpTo(energies, n);
      var present := EnergyKey(n - 1) in energies;
      assert p == p0 + (if present then [n - 1] else []);
      assert n - 1 !in p0;
      forall i | 0 <= i < n ensures EnergyKey(i) in energies <==> i in p {
        if i < n - 1 {
          assert i in p <==> i in p0;
        }
      }
    }
  }

  /** The samples come in ascending distance order. */
  lemma SamplesAscending(sorted: seq<real>, energies: map<string, real>, n: nat)
    requires n <= |sorted| && Sorting.SortedBy(sorted, Id)
    ensures Sorting.SortedBy(SamplesUpTo(sorted, energies, n), SampleDistance)
  {
    SamplesArePresentIndices(sorted, energies, n);
    var s, p := SamplesUpTo(sorted, energies, n), PresentUpTo(energies, n);
    forall k, l | 0 <= k < l < |s| ensures SampleDistance(s[k]) <= SampleDistance(s[l]) {
      assert Id(sorted[p[k]]) <= Id(sorted[p[l]]);
    }
  }

  /** The energy pushed by static job `i`, computed at `static_distances[i]`,
      is paired with the `i`-th SORTED distance. The two agree for every `i`
      exactly when `static_distances` is already sorted. */
  lemma PairingWhenSorted(staticDistances: seq<real>)
    requires Sorting.SortedBy(staticDistances, Id)
    ensures SortedDistances(staticDistances) == staticDistances
  {
    Sorting.SortBySorted(staticDistances, Id);
  }

  /** With `static_distances = [2.0, 1.0]` the energy computed at 2.0
      (pushed as `"0_energy"`) is paired with the distance 1.0. */
  lemma {:induction false} UnsortedDistancesMispair(e0: real, e1: real)
    ensures var energies := map[EnergyKey(0) := e0, EnergyKey(1) := e1];
      SamplesUpTo(SortedDistances([2.0, 1.0]), energies, 2) == [Sample(1.0, e0), Sample(2.0, e1)]
  {
    var energies := map[EnergyKey(0) := e0, EnergyKey(1) := e1];
    var r := SortedDistances([2.0, 1.0]);
    assert [2.0, 1.0][1..] == [1.0] && [1.0][1..] == [];
    assert Sorting.SortBy([1.0], Id) == [1.0];
    assert r == [1.0, 2.0];
    EnergyKeyInjective(0, 1);
    assert SamplesUpTo(r, energies, 1) == [Sample(1.0, e0)];
  }

  // ---------------------------------------------------------------- the scan

  /** `first_0`, `second_0`, `distance_0`, `optimal_distance`, `lowest_energy`.
      `distance_0` starts as Python's `False`, numerically 0; it is read only
      after `first_0` has been set. */
  datatype ScanState = ScanState(
    firstZero: bool, secondZero: bool, distanceZero: real,
    optimalDistance: real, lowestEnergy: real)

  /** The sentinels: `optimal_distance = 3.0`, `lowest_energy = 10000`. */
  const Initial := ScanState(false, false, 0.0, 3.0, 10000.0)

  /** One iteration of the loop body's if/elif chain. */
  function Step(st: ScanState, s: Sample): ScanState
  {
    if st.lowestEnergy > 0.0 && s.energy < 0.0 && !st.firstZero then
      st.(firstZero := true, distanceZero := s.distance,
          optimalDistance := s.distance, lowestEnergy := s.energy)
    else if st.lowestEnergy < 0.0 && s.energy > 0.0 && st.firstZero then
      st.(secondZero := true, optimalDistance := (st.distanceZero + s.distance) / 2.0)
    else if s.energy < st.lowestEnergy && st.firstZero && !st.secondZero then
      st.(lowestEnergy := s.energy, optimalDistance := (st.distanceZero + s.distance) / 2.0)
    else if s.energy < st.lowestEnergy && !st.firstZero && !st.secondZero then
      st.(lowestEnergy := s.energy, optimalDistance := s.distance)
    else st
  }

  /** The loop run over `samples` from state `st`, last sample applied last. */
  function Run(st: ScanState, samples: seq<Sample>): ScanState
  {
    if samples == [] then st
    else Step(Run(st, samples[..|samples| - 1]), samples[|samples| - 1])
  }

  /** The standard strategy's state after all samples. */
  function Scan(samples: seq<Sample>): ScanState
  {
    Run(Initial, samples)
  }

  lemma {:induction false} RunAppend(st: ScanState, a: seq<Sample>, b: seq<Sample>)
    ensures Run(st, a + b) == Run(Run(st, a), b)
    decreases |b|
  {
    if b == [] {
      assert a + b == a;
    } else {
      assert (a + b)[..|a + b| - 1] == a + b[..|b| - 1];
      RunAppend(st, a, b[..|b| - 1]);
    }
  }

  /** The crossing example: `[(1, 2), (2, -1), (3, 1)]` crosses zero at 2
      and back at 3, giving the midpoint 2.5 with lowest energy -1. */
  lemma CrossingExample()
    ensures Scan([Sample(1.0, 2.0), Sample(2.0, -1.0), Sample(3.0, 1.0)])
         == ScanState(true, true, 2.0, 2.5, -1.0)
  {
    var s := [Sample(1.0, 2.0), Sample(2.0, -1.0), Sample(3.0, 1.0)];
    assert s[..2] == [Sample(1.0, 2.0), Sample(2.0, -1.0)];
    assert s[..2][..1] == [Sample(1.0, 2.0)];
    assert [Sample(1.0, 2.0)][..0] == [];
    assert Scan([Sample(1.0, 2.0)]) == ScanState(false, false, 0.0, 1.0, 2.0);
    assert Scan(s[..2]) == ScanState(true, false, 2.0, 2.0, -1.0);
  }

  /** A distance among the samples. */
  ghost predicate Recorded(samples: seq<Sample>, x: real)
  {
    exists k :: 0 <= k < |samples| && samples[k].distance == x
  }

  /** An energy among the samples. */
  ghost predicate RecordedEnergy(samples: seq<Sample>, e: real)
  {
    exists k :: 0 <= k < |samples| && samples[k].energy == e
  }

  /** What the scan keeps true: `second_0` only after `first_0`; once
      `first_0` is set the lowest energy is negative and `distance_0` is a
      recorded distance; the lowest energy is the sentinel or a recorded
      energy; the optimum is the sentinel distance, a recorded distance, or
      the midpoint of `distance_0` and a recorded distance. */
  ghost predicate ScanInvariant(samples: seq<Sample>, st: ScanState)
  {
    && (st.secondZero ==> st.firstZero)
    && (st.firstZero ==> st.lowestEnergy < 0.0 && Recorded(samples, st.distanceZero))
    && (st.lowestEnergy == 10000.0 || RecordedEnergy(samples, st.lowestEnergy))
    && st.lowestEnergy <= 10000.0
    && ((st.optimalDistance == 3.0 && st.lowestEnergy == 10000.0)
        || Recorded(samples, st.optimalDistance)
        || (st.firstZero &&
            exists k :: 0 <= k < |samples| && st.optimalDistance == (st.distanceZero + samples[k].distance) / 2.0))
  }

  lemma RecordedPrefix(samples: seq<Sample>, x: real)
    requires samples != [] && Recorded(samples[..|samples| - 1], x)
    ensures Recorded(samples, x)
  {
    var k :| 0 <= k < |samples| - 1 && samples[..|samples| - 1][k].distance == x;
    assert samples[k].distance == x;
  }

  lemma RecordedEnergyPrefix(samples: seq<Sample>, e: real)
    requires samples != [] && RecordedEnergy(samples[..|samples| - 1], e)
    ensures RecordedEnergy(samples, e)
  {
    var k :| 0 <= k < |samples| - 1 && samples[..|samples| - 1][k].energy == e;
    assert samples[k].energy == e;
  }

  /** Range of the standard result. */
  lemma {:induction false} StandardRange(samples: seq<Sample>)
    ensures ScanInvariant(samples, Scan(samples))
  {
    if samples != [] {
      var init := samples[..|samples| - 1];
      var last := samples[|samples| - 1];
      StandardRange(init);
      var prev := Scan(init);
      var st := Step(prev, last);
      assert Scan(samples) == st;
      assert samples[|samples| - 1] == last;
      if prev.firstZero {
        RecordedPrefix(samples, prev.distanceZero);
      }
      if prev.lowestEnergy != 10000.0 {
        RecordedEnergyPrefix(samples, prev.lowestEnergy);
      }
      if Recorded(init, prev.optimalDistance) {
        RecordedPrefix(samples, prev.optimalDistance);
      }
      if prev.firstZero && !(prev.optimalDistance == 3.0 && prev.lowestEnergy == 10000.0)
         && !Recorded(init, prev.optimalDistance) {
        var k :| 0 <= k < |init| && prev.optimalDistance == (prev.distanceZero + init[k].distance) / 2.0;
        assert init[k] == samples[k];
      }
      assert RecordedEnergy(samples, last.energy) by {
        assert samples[|samples| - 1].energy == last.energy;
      }
      assert Recorded(samples, last.distance) by {
        assert samples[|samples| - 1].distance == last.distance;
      }
      assert st.firstZero && st.optimalDistance == (st.distanceZero + last.distance) / 2.0
             ==> exists k :: 0 <= k < |samples| && st.optimalDistance == (st.distanceZero + samples[k].distance) / 2.0;
    }
  }

  /** The sentinel result (3.0, 10000) comes back exactly when no sample has
      an energy below 10000, i.e. when no sample updated the state; otherwise
      the lowest energy is below 10000. */
  lemma {:induction false} SentinelIffNoLowEnergy(samples: seq<Sample>)
    ensures Scan(samples) == Initial
        <==> forall k :: 0 <= k < |samples| ==> samples[k].energy >= 10000.0
    ensures Scan(samples) != Initial ==> Scan(samples).lowestEnergy < 10000.0
  {
    SentinelOrLower(samples);
  }

  lemma {:induction false} SentinelOrLower(samples: seq<Sample>)
    ensures || (Scan(samples) == Initial && forall k :: 0 <= k < |samples| ==> samples[k].energy >= 10000.0)
            || (Scan(samples).lowestEnergy < 10000.0 && exists k :: 0 <= k < |samples| && samples[k].energy < 10000.0)
  {
    if samples != [] {
      var init := samples[..|samples| - 1];
      var last := samples[|samples| - 1];
      SentinelOrLower(init);
      var prev := Scan(init);
      assert Scan(samples) == Step(prev, last);
      if prev == Initial && forall k :: 0 <= k < |init| ==> init[k].energy >= 10000.0 {
        if last.energy >= 10000.0 {
          forall k | 0 <= k < |samples| ensures samples[k].energy >= 10000.0 {
            if k < |samples| - 1 {
              assert samples[k] == init[k];
            }
          }
        } else {
          assert samples[|samples| - 1].energy < 10000.0;
        }
      } else {
        var k :| 0 <= k < |init| && init[k].energy < 10000.0;
        assert samples[k] == init[k];
      }
    }
  }

  /** An energy of exactly 0 recorded before any negative energy becomes the
      lowest energy; from then on `first_0` can never be set. */
  lemma {:induction false} ZeroBlocksFirstCrossing(st: ScanState, rest: seq<Sample>)
    requires !st.firstZero && !st.secondZero && st.lowestEnergy <= 0.0
    ensures !Run(st, rest).firstZero && Run(st, rest).lowestEnergy <= 0.0
    decreases |rest|
  {
    if rest != [] {
      ZeroBlocksFirstCrossing(st, rest[..|rest| - 1]);
    }
  }

  lemma ZeroFirst(d: real, rest: seq<Sample>)
    ensures Scan([Sample(d, 0.0)]).lowestEnergy == 0.0
    ensures !Scan([Sample(d, 0.0)] + rest).firstZero
  {
    var head := [Sample(d, 0.0)];
    assert head[..0] == [];
    assert Run(Initial, head[..0]) == Initial;
    assert Scan(head) == Initial.(lowestEnergy := 0.0, optimalDistance := d);
    RunAppend(Initial, head, rest);
    ZeroBlocksFirstCrossing(Scan(head), rest);
  }

  /** After `second_0` is set the lowest energy never changes again, and a
      later update of the optimum is the midpoint of `distance_0` and a
      distance with positive energy. */
  lemma {:induction false} FrozenAfterSecondCrossing(st: ScanState, rest: seq<Sample>)
    requires st.firstZero && st.secondZero && st.lowestEnergy < 0.0
    ensures var r := Run(st, rest);
      && r.lowestEnergy == st.lowestEnergy && r.firstZero && r.secondZero
      && r.distanceZero == st.distanceZero
      && (r.optimalDistance == st.optimalDistance
          || exists k :: 0 <= k < |rest| && rest[k].energy > 0.0
               && r.optimalDistance == (st.distanceZero + rest[k].distance) / 2.0)
    decreases |rest|
  {
    if rest != [] {
      var init := rest[..|rest| - 1];
      FrozenAfterSecondCrossing(st, init);
      var prev := Run(st, init);
      if prev.optimalDistance != st.optimalDistance && Run(st, rest).optimalDistance == prev.optimalDistance {
        var k :| 0 <= k < |init| && init[k].energy > 0.0
                 && prev.optimalDistance == (st.distanceZero + init[k].distance) / 2.0;
        assert rest[k] == init[k];
      }
    }
  }

  /** The first negative energy seen while the lowest energy is positive
      records `distance_0` and makes that distance the optimum; a later
      positive energy moves the optimum to the midpoint without touching
      the lowest energy. */
  lemma CrossingRule(st: ScanState, neg: Sample, mid: seq<Sample>, pos: Sample)
    requires !st.firstZero && !st.secondZero && st.lowestEnergy > 0.0
    requires neg.energy < 0.0 && pos.energy > 0.0
    requires forall k :: 0 <= k < |mid| ==> mid[k].energy < 0.0 && mid[k].energy >= neg.energy
    ensures Step(st, neg) == st.(firstZero := true, distanceZero := neg.distance,
                                 optimalDistance := neg.distance, lowestEnergy := neg.energy)
    ensures var r := Run(Step(st, neg), mid + [pos]);
      r.optimalDistance == (neg.distance + pos.distance) / 2.0
      && r.lowestEnergy == neg.energy && r.secondZero
  {
    var after := Step(st, neg);
    NegativeNoLower(after, mid);
    assert (mid + [pos])[..|mid + [pos]| - 1] == mid;
  }

  lemma {:induction false} NegativeNoLower(st: ScanState, mid: seq<Sample>)
    requires st.firstZero && !st.secondZero && st.lowestEnergy < 0.0
    requires forall k :: 0 <= k < |mid| ==> mid[k].energy < 0.0 && mid[k].energy >= st.lowestEnergy
    ensures Run(st, mid) == st
    decreases |mid|
  {
    if mid != [] {
      NegativeNoLower(st, mid[..|mid| - 1]);
      assert mid[|mid| - 1].energy < 0.0;
    }
  }

  // ---------------------------------------------------------------- adsorption energy and decision

  /** `ref_elem_energy`: the reference energy of each element the
      adsorption energy knows about. */
  function RefElementEnergy(symbol: string): Option<real>
  {
    if symbol == "H" then Some(-3.379)
    else if symbol == "O" then Some(-7.459)
    else if symbol == "C" then Some(-7.329)
    else None
  }

  datatype AnalysisError =
    | NoEnergies                   // `min()` of an empty sequence (minimum strategy)
    | NoReferenceEnergy(symbol: string)  // `ref_elem_energy.get(...)` is None: float * None

  /** `sum(ads_comp[el] * ref_elem_energy[el] for el in ads_comp)`; the
      adsorbate composition is a list of (element, amount). */
  function ReferenceSum(composition: seq<(string, real)>): (r: Result<real, AnalysisError>)
    ensures r.Err? <==> exists k :: 0 <= k < |composition| && RefElementEnergy(composition[k].0).None?
  {
    if composition == [] then Ok(0.0)
    else
      var (symbol, amount) := composition[0];
      match RefElementEnergy(symbol)
      case None => Err(NoReferenceEnergy(symbol))
      case Some(ref) =>
        var rest := ReferenceSum(composition[1..]);
        assert forall k :: 1 <= k < |composition| ==> composition[k] == composition[1..][k - 1];
        if rest.Err? then rest else Ok(amount * ref + rest.value)
  }

  /** What the step returns: whether the rest of the branch exits, and the
      three fields it pushes to the spec. */
  datatype Decision = Decision(exit: bool, push: map<string, real>)

  const LowestEnergyField := "lowest_energy"
  const AdsorptionEnergyField := "adsorption_energy"
  const OptimalDistanceField := "optimal_distance"

  function Pushed(lowest: real, adsorption: real, optimal: real): map<string, real>
  {
    map[LowestEnergyField := lowest, AdsorptionEnergyField := adsorption, OptimalDistanceField := optimal]
  }

  /** The pushed adsorption energy is the one given. */
  lemma PushedAdsorption(lowest: real, adsorption: real, optimal: real)
    ensures Pushed(lowest, adsorption, optimal)[AdsorptionEnergyField] == adsorption
  {
    assert |OptimalDistanceField| != |AdsorptionEnergyField|;
  }

  /** The whole analysis as a function of its inputs: the standard scan, then
      the strategy named by `algo` (default "standard"; "minimum"; "poly_fit"
      takes the fitted minimum, computed outside the model, as
      (energy, distance)), then the exit rule on the adsorption energy. */
  function Analysis(distances: seq<real>, spec: StaticSpec, algo: Option<string>,
                    composition: seq<(string, real)>, slabVolume: real,
                    polyFitMinimum: (real, real)): Result<Decision, AnalysisError>
    requires slabVolume > 0.0
  {
    var sorted := SortedDistances(distances);
    var samples := SamplesUpTo(sorted, spec.energies, |sorted|);
    match Strategy(AlgoName(algo), samples, polyFitMinimum)
    case Err(e) => Err(e)
    case Ok(chosen) =>
      var (lowest, optimal) := chosen;
      match AdsorptionEnergy(lowest, LastStructureUpTo(spec, |sorted|), spec.slabEnergy, slabVolume, composition)
      case Err(e) => Err(e)
      case Ok(adsorption) => Ok(Decision(adsorption > 2.0, Pushed(lowest, adsorption, optimal)))
  }

  /** `algo`, defaulting to "standard". */
  function AlgoName(algo: Option<string>): string
  {
    if algo.Some? then algo.value else "standard"
  }

  /** The "minimum" strategy takes the first sample with the least energy
      (`np.where(all_energies == all_energies.min())[0][0]`). */
  function SampleEnergy(s: Sample): real { s.energy }

  /** The (lowest energy, optimal distance) pair each strategy selects;
      any name other than "poly_fit" and "minimum" keeps the scan's result. */
  function Strategy(name: string, samples: seq<Sample>, polyFitMinimum: (real, real)): (r: Result<(real, real), AnalysisError>)
    ensures r.Err? <==> name == "minimum" && samples == []
    ensures name == "minimum" && r.Ok? ==>
      (forall k :: 0 <= k < |samples| ==> r.value.0 <= samples[k].energy)
      && exists k :: 0 <= k < |samples| && r.value == (samples[k].energy, samples[k].distance)
           && forall j :: 0 <= j < k ==> samples[j].energy > samples[k].energy
    ensures name != "minimum" && name != "poly_fit" ==>
      r == Ok((Scan(samples).lowestEnergy, Scan(samples).optimalDistance))
  {
    if name == "poly_fit" then Ok(polyFitMinimum)
    else if name == "minimum" then
      if samples == [] then Err(NoEnergies)
      else var k := Sorting.ArgMinBy(samples, SampleEnergy); Ok((samples[k].energy, samples[k].distance))
    else Ok((Scan(samples).lowestEnergy, Scan(samples).optimalDistance))
  }

  /** `lowest_energy - slab_energy * scale_factor - sum(ref energies)`, where
      the scale factor is the slab + adsorbate volume over the slab volume and
      a missing `slab_energy` counts as 0 (`False`); 1000 when no slab +
      adsorbate structure was found. */
  function AdsorptionEnergy(lowest: real, structureVolume: Option<real>, slabEnergy: Option<real>,
                            slabVolume: real, composition: seq<(string, real)>): (r: Result<real, AnalysisError>)
    requires slabVolume > 0.0
    ensures structureVolume.None? ==> r == Ok(1000.0)
    ensures structureVolume.Some? ==> (r.Err? <==> ReferenceSum(composition).Err?)
  {
    match structureVolume
    case None => Ok(1000.0)
    case Some(volume) =>
      var refs := ReferenceSum(composition);
      if refs.Err? then Err(refs.error)
      else
        var e := if slabEnergy.Some? then slabEnergy.value else 0.0;
        Ok(lowest - e * (volume / slabVolume) - refs.value)
  }

  /** The exit rule: the step exits exactly when the adsorption energy is
      above 2; both outcomes push the same three fields. */
  lemma ExitRule(distances: seq<real>, spec: StaticSpec, algo: Option<string>,
                 composition: seq<(string, real)>, slabVolume: real, polyFitMinimum: (real, real))
    requires slabVolume > 0.0
    ensures match Analysis(distances, spec, algo, composition, slabVolume, polyFitMinimum)
      case Ok(d) =>
        && d.push.Keys == {LowestEnergyField, AdsorptionEnergyField, OptimalDistanceField}
        && (d.exit <==> d.push[AdsorptionEnergyField] > 2.0)
      case Err(_) => true
  {
  }

  /** Without any slab + adsorbate structure the adsorption energy is 1000
      and the step always exits, unless the "minimum" strategy finds no
      energy. */
  lemma ExitWithoutStructure(distances: seq<real>, spec: StaticSpec, algo: Option<string>,
                             composition: seq<(string, real)>, slabVolume: real, polyFitMinimum: (real, real))
    requires slabVolume > 0.0 && spec.structureVolumes == map[]
    requires AlgoName(algo) != "minimum" || SamplesUpTo(SortedDistances(distances), spec.energies, |distances|) != []
    ensures match Analysis(distances, spec, algo, composition, slabVolume, polyFitMinimum)
      case Ok(d) => d.exit && d.push[AdsorptionEnergyField] == 1000.0
      case Err(_) => false
  {
    var sorted := SortedDistances(distances);
    var samples := SamplesUpTo(sorted, spec.energies, |sorted|);
    NoStructureNoVolume(spec, |sorted|);
    var chosen := Strategy(AlgoName(algo), samples, polyFitMinimum);
    assert chosen.Ok?;
    assert AdsorptionEnergy(chosen.value.0, LastStructureUpTo(spec, |sorted|), spec.slabEnergy, slabVolume, composition)
        == Ok(1000.0);
    PushedAdsorption(chosen.value.0, 1000.0, chosen.value.1);
  }

  lemma {:induction false} NoStructureNoVolume(spec: StaticSpec, n: nat)
    requires spec.structureVolumes == map[]
    ensures LastStructureUpTo(spec, n) == None
  {
    if n > 0 {
      NoStructureNoVolume(spec, n - 1);
    }
  }

  /** The step's loop, as the source writes it: visit the sorted distances,
      read the present energies and structures, update the crossing state and
      collect the samples (`all_distances`, `all_energies`). */
  method ScanStaticEnergies(sorted: seq<real>, spec: StaticSpec)
    returns (allSamples: seq<Sample>, st: ScanState, outputSlabAds: Option<real>)
    ensures allSamples == SamplesUpTo(sorted, spec.energies, |sorted|)
    ensures st == Scan(allSamples)
    ensures outputSlabAds == LastStructureUpTo(spec, |sorted|)
  {
    var optimalDistance := 3.0;
    var lowestEnergy := 10000.0;
    var firstZero, secondZero, distanceZero := false, false, 0.0;
    allSamples := [];
    outputSlabAds := None;
    for i := 0 to |sorted|
      invariant allSamples == SamplesUpTo(sorted, spec.energies, i)
      invariant ScanState(firstZero, secondZero, distanceZero, optimalDistance, lowestEnergy) == Scan(allSamples)
      invariant outputSlabAds == LastStructureUpTo(spec, i)
    {
      var distance := sorted[i];
      if EnergyKey(i) in spec.energies {
        var energy := spec.energies[EnergyKey(i)];
        if StructureKey(i) in spec.structureVolumes {
          outputSlabAds := Some(spec.structureVolumes[StructureKey(i)]);
        }
        ghost var before := allSamples;
        ghost var prev := ScanState(firstZero, secondZero, distanceZero, optimalDistance, lowestEnergy);
        allSamples := allSamples + [Sample(distance, energy)];
        assert allSamples[..|allSamples| - 1] == before;
        assert Scan(allSamples) == Step(prev, Sample(distance, energy));
        if lowestEnergy > 0.0 && energy < 0.0 && !firstZero {
          firstZero := true;
          distanceZero := distance;
          optimalDistance := distance;
          lowestEnergy := energy;
        } else if lowestEnergy < 0.0 && energy > 0.0 && firstZero {
          secondZero := true;
          optimalDistance := (distanceZero + distance) / 2.0;
        } else if energy < lowestEnergy && firstZero && !secondZero {
          lowestEnergy := energy;
          optimalDistance := (distanceZero + distance) / 2.0;
        } else if energy < lowestEnergy && !firstZero && !secondZero {
          lowestEnergy := energy;
          optimalDistance := distance;
        }
        assert ScanState(firstZero, secondZero, distanceZero, optimalDistance, lowestEnergy)
            == Step(prev, Sample(distance, energy));
      }
    }
    st := ScanState(firstZero, secondZero, distanceZero, optimalDistance, lowestEnergy);
  }

  /** The whole step: the scan, then the strategy and the exit rule. */
  method AnalyzeStaticOptimumDistance(distances: seq<real>, spec: StaticSpec, algo: Option<string>,
                                      composition: seq<(string, real)>, slabVolume: real,
                                      polyFitMinimum: (real, real))
    returns (r: Result<Decision, AnalysisError>)
    requires slabVolume > 0.0
    ensures r == Analysis(distances, spec, algo, composition, slabVolume, polyFitMinimum)
  {
    var sorted := SortedDistances(distances);
    var allSamples, st, outputSlabAds := ScanStaticEnergies(sorted, spec);
    var lowestEnergy, optimalDistance := st.lowestEnergy, st.optimalDistance;
    var name := AlgoName(algo);
    if name == "poly_fit" {
      lowestEnergy, optimalDistance := polyFitMinimum.0, polyFitMinimum.1;
    } else if name == "minimum" {
      if allSamples == [] {
        return Err(NoEnergies);
      }
      var k := Sorting.ArgMinBy(allSamples, SampleEnergy);
      lowestEnergy, optimalDistance := allSamples[k].energy, allSamples[k].distance;
    }
    assert Strategy(name, allSamples, polyFitMinimum) == Ok((lowestEnergy, optimalDistance));
    var adsorption := AdsorptionEnergy(lowestEnergy, outputSlabAds, spec.slabEnergy, slabVolume, composition);
    if adsorption.Err? {
      return Err(adsorption.error);
    }
    r := Ok(Decision(adsorption.value > 2.0, Pushed(lowestEnergy, adsorption.value, optimalDistance)));
  }

  // ---------------------------------------------------------------- the follow-on step

  datatype LaunchError = NoOptimalDistance | EmptyOptimalDistance

  /** `fw_spec.get("optimal_distance")[0]`: `_push` appends, so the launch
      reads the FIRST pushed optimum; a missing key or an empty list fail. */
  function ReadOptimalDistance(pushed: Option<seq<real>>): (r: Result<real, LaunchError>)
    ensures r.Ok? <==> pushed.Some? && pushed.value != []
    ensures r.Ok? ==> r.value == pushed.value[0]
  {
    match pushed
    case None => Err(NoOptimalDistance)
    case Some(values) => if values == [] then Err(EmptyOptimalDistance) else Ok(values[0])
  }

  /** Pushing an optimum onto an existing list does not change what the
      launch reads unless the list was empty. */
  lemma ReadsFirstPush(previous: seq<real>, decision: Decision)
    requires OptimalDistanceField in decision.push
    ensures ReadOptimalDistance(Some(previous + [decision.push[OptimalDistanceField]]))
         == Ok(if previous == [] then decision.push[OptimalDistanceField] else previous[0])
  {
  }

  datatype Vec3 = Vec3(x: real, y: real, z: real)

  function Add(a: Vec3, b: Vec3): Vec3 { Vec3(a.x + b.x, a.y + b.y, a.z + b.z) }
  function Sub(a: Vec3, b: Vec3): Vec3 { Vec3(a.x - b.x, a.y - b.y, a.z - b.z) }
  function Scale(c: real, a: Vec3): Vec3 { Vec3(c * a.x, c * a.y, c * a.z) }
  function Dot(a: Vec3, b: Vec3): real { a.x * b.x + a.y * b.y + a.z * b.z }

  /** `coord + optimal_distance * mvec`: the probe moves from the site along
      the surface normal, by `d` normal lengths; for a unit normal its height
      above the site is exactly `d`. */
  function ProbeCoordinate(coord: Vec3, d: real, mvec: Vec3): (r: Vec3)
    ensures Dot(Sub(r, coord), mvec) == d * Dot(mvec, mvec)
    ensures Sub(r, coord) == Scale(d, mvec)
  {
    var r := Add(coord, Scale(d, mvec));
    assert Sub(r, coord) == Scale(d, mvec);
    assert Dot(Scale(d, mvec), mvec) == d * Dot(mvec, mvec) by {
      assert (d * mvec.x) * mvec.x == d * (mvec.x * mvec.x);
      assert (d * mvec.y) * mvec.y == d * (mvec.y * mvec.y);
      assert (d * mvec.z) * mvec.z == d * (mvec.z * mvec.z);
    }
    r
  }
}
