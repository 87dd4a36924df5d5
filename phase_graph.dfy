/** The stepper phase analysis of `scripts/motan/phase_graph.py`: driver
    phase readings expanded to 4096 sub-phases, samples collected per
    (direction, phase) bucket, and the median of each bucket. Python's
    `x & 4095` equals Dafny's Euclidean `x % 4096` for every integer,
    negative ones included. */
module PhaseGraph {
  import opened Wrappers
  import Sorting
  import Ints

  const NUM_PHASES: int := 4096

  /** `x & phase_mask`. */
  function Mask(x: int): (r: int)
    ensures 0 <= r < NUM_PHASES && (x - r) % NUM_PHASES == 0
  {
    x % NUM_PHASES
  }

  /** `NUM_PHASES // (microsteps * 4)`: sub-phases per driver phase. */
  function ExpandCount(microsteps: int): nat
    requires microsteps > 0
  {
    var d := microsteps * 4;
    QuotientNonNegative(NUM_PHASES, d);
    NUM_PHASES / d
  }

  lemma {:induction false} QuotientNonNegative(n: int, d: int)
    requires n >= 0 && d > 0
    ensures n / d >= 0
  {
    var q, r := n / d, n % d;
    assert n == q * d + r && r < d;
    assert q * d > -d;
    if q <= -1 {
      Ints.MulAtLeast(-q, d);
    }
  }

  /** A sub-phase tagged with its direction: 1 forward, 0 backward. */
  type Tagged = (int, int)

  predicate TagOk(p: Tagged)
  {
    0 <= p.0 <= 1 && 0 <= p.1 < NUM_PHASES
  }

  predicate AllTagsOk(ps: seq<Tagged>)
  {
    forall i :: 0 <= i < |ps| ==> TagOk(ps[i])
  }

  // ---------------------------------------------------------------
  // get_phase_times
  // ---------------------------------------------------------------

  /** The sub-phases one reading adds after the previous one: the
      `expandCount` phases stepping up from the previous reading when the
      new one is one step ahead, stepping down when it is one step behind,
      none otherwise (and none for the first reading). */
  function Expansion(lastPhase: Option<int>, phase: int, expandCount: nat): seq<Tagged>
  {
    if lastPhase.Some? && Mask(phase - expandCount) == lastPhase.value then
      seq(expandCount, e requires 0 <= e < expandCount => (1, Mask(lastPhase.value + e + 1)))
    else if lastPhase.Some? && Mask(phase + expandCount) == lastPhase.value then
      seq(expandCount, e requires 0 <= e < expandCount => (0, Mask(lastPhase.value - e - 1)))
    else []
  }

  /** One step ahead: the expansion walks up from the previous reading,
      one sub-phase at a time, and ends on the new reading's phase. */
  lemma {:induction false} ExpansionForward(last: int, phase: int, expandCount: nat)
    requires Mask(phase - expandCount) == last
    ensures var r := Expansion(Some(last), phase, expandCount);
            AllTagsOk(r) && |r| == expandCount && 0 <= last < NUM_PHASES
            && (forall e :: 0 <= e < |r| ==> r[e].0 == 1)
            && (forall e :: 0 <= e < |r| ==> r[e].1 == Mask((if e == 0 then last else r[e - 1].1) + 1))
            && (r != [] ==> r[|r| - 1].1 == Mask(phase))
  {
    var r := Expansion(Some(last), phase, expandCount);
    forall e | 0 <= e < |r| ensures TagOk(r[e]) {
      assert r[e] == (1, Mask(last + e + 1));
    }
    forall e | 0 <= e < |r| ensures r[e].1 == Mask((if e == 0 then last else r[e - 1].1) + 1) {
      if e > 0 {
        MaskAdd(last + e, 1);
      }
    }
    if r != [] {
      MaskAdd(phase - expandCount, expandCount);
    }
  }

  /** One step behind, and not one step ahead: the expansion walks down
      from the previous reading and ends on the new reading's phase. */
  lemma {:induction false} ExpansionBackward(last: int, phase: int, expandCount: nat)
    requires Mask(phase - expandCount) != last && Mask(phase + expandCount) == last
    ensures var r := Expansion(Some(last), phase, expandCount);
            AllTagsOk(r) && |r| == expandCount && 0 <= last < NUM_PHASES
            && (forall e :: 0 <= e < |r| ==> r[e].0 == 0)
            && (forall e :: 0 <= e < |r| ==> r[e].1 == Mask((if e == 0 then last else r[e - 1].1) - 1))
            && (r != [] ==> r[|r| - 1].1 == Mask(phase))
  {
    var r := Expansion(Some(last), phase, expandCount);
    forall e | 0 <= e < |r| ensures TagOk(r[e]) {
      assert r[e] == (0, Mask(last - e - 1));
    }
    forall e | 0 <= e < |r| ensures r[e].1 == Mask((if e == 0 then last else r[e - 1].1) - 1) {
      if e > 0 {
        MaskAdd(last - e, -1);
      }
    }
    if r != [] {
      MaskAdd(phase + expandCount, -(expandCount as int));
    }
  }

  /** Any other reading, and the first one, adds nothing. A previous reading
      outside [0, 4096) always meets the precondition, as masked phases lie
      in that range. */
  lemma {:induction false} ExpansionOtherwise(last: Option<int>, phase: int, expandCount: nat)
    requires last.None? || (Mask(phase - expandCount) != last.value && Mask(phase + expandCount) != last.value)
    ensures Expansion(last, phase, expandCount) == []
  {
  }

  /** Masking may be done before or after adding. */
  lemma {:induction false} MaskAdd(x: int, d: int)
    ensures Mask(Mask(x) + d) == Mask(x + d)
  {
    var m := Mask(x);
    var k := (x - m) / NUM_PHASES;
    assert x - m == k * NUM_PHASES;
    var r := Mask(x + d);
    var j := (m + d - Mask(m + d)) / NUM_PHASES;
    assert m + d - Mask(m + d) == j * NUM_PHASES;
    assert x + d - Mask(m + d) == (k + j) * NUM_PHASES;
    ModOfMultiple(x + d, Mask(m + d), k + j);
  }

  lemma {:induction false} ModOfMultiple(n: int, r: int, k: int)
    requires 0 <= r < NUM_PHASES && n - r == k * NUM_PHASES
    ensures n % NUM_PHASES == r
  {
    assert n == k * NUM_PHASES + r;
  }

  /** The last phase seen after the given raw readings: the reading times
      `expandCount`, not masked. */
  function LastPhase(readings: seq<int>, expandCount: nat): Option<int>
  {
    if readings == [] then None else Some(readings[|readings| - 1] * expandCount)
  }

  /** All tagged sub-phases emitted for the readings, in order. */
  function PhasesOf(readings: seq<int>, expandCount: nat): seq<Tagged>
  {
    if readings == [] then []
    else
      var pre := readings[..|readings| - 1];
      PhasesOf(pre, expandCount)
        + Expansion(LastPhase(pre, expandCount), readings[|readings| - 1] * expandCount, expandCount)
  }

  /** Every emitted sub-phase is a direction tag and a phase in
      [0, 4096). */
  lemma {:induction false} PhasesInRange(readings: seq<int>, expandCount: nat)
    ensures AllTagsOk(PhasesOf(readings, expandCount))
  {
    if readings != [] {
      var pre := readings[..|readings| - 1];
      PhasesInRange(pre, expandCount);
      var a := PhasesOf(pre, expandCount);
      var x := Expansion(LastPhase(pre, expandCount), readings[|readings| - 1] * expandCount, expandCount);
      var last, phase := LastPhase(pre, expandCount), readings[|readings| - 1] * expandCount;
      if last.Some? && Mask(phase - expandCount) == last.value {
        ExpansionForward(last.value, phase, expandCount);
      } else if last.Some? && Mask(phase + expandCount) == last.value {
        ExpansionBackward(last.value, phase, expandCount);
      }
      assert forall i :: 0 <= i < |a| + |x| ==> (a + x)[i] == if i < |a| then a[i] else x[i - |a|];
    }
  }

  /** The phase part of `get_phase_times`: each reading scaled by the
      expansion count and compared with the previous scaled reading. The
      readings' times and their interpolation are not modelled. */
  method GetPhases(readings: seq<int>, microsteps: int) returns (phases: seq<Tagged>)
    requires microsteps > 0
    ensures phases == PhasesOf(readings, ExpandCount(microsteps))
  {
    var expandCount := ExpandCount(microsteps);
    var lastPhase: Option<int> := None;
    phases := [];
    for i := 0 to |readings|
      invariant phases == PhasesOf(readings[..i], expandCount)
      invariant lastPhase == LastPhase(readings[..i], expandCount)
    {
      assert readings[..i + 1][..i] == readings[..i];
      var phase := readings[i] * expandCount;
      phases := phases + Expansion(lastPhase, phase, expandCount);
      lastPhase := Some(phase);
    }
    assert readings[..|readings|] == readings;
  }

  // ---------------------------------------------------------------
  // calc_median
  // ---------------------------------------------------------------

  function SortReals(s: seq<real>): seq<real>
  {
    Sorting.Sort(s, Sorting.RealLe)
  }

  /** The median of a sorted bucket: the middle element of an odd-length
      bucket, the mean of the two middle ones of an even-length one, 0 for
      an empty one. */
  function Median(b: seq<real>): real
  {
    var l := |b|;
    if l % 2 == 1 then b[l / 2]
    else if l == 0 then 0.0
    else 0.5 * (b[l / 2] + b[l / 2 - 1])
  }

  /** For a sorted bucket the median has the lower half of the bucket at
      or below it and the upper half at or above it; an odd bucket's
      median is one of its elements. */
  lemma {:induction false} MedianSplits(b: seq<real>)
    requires Sorting.SortedBy(b, Sorting.RealLe) && b != []
    ensures forall i :: 0 <= i < |b| / 2 ==> b[i] <= Median(b)
    ensures forall i :: (|b| + 1) / 2 <= i < |b| ==> Median(b) <= b[i]
    ensures b[0] <= Median(b) <= b[|b| - 1]
    ensures |b| % 2 == 1 ==> Median(b) in b
  {
    var l := |b|;
    assert Sorting.RealLe(b[0], b[l / 2]) || l / 2 == 0;
    if l % 2 == 0 {
      assert Sorting.RealLe(b[l / 2 - 1], b[l / 2]);
      assert Sorting.RealLe(b[l / 2], b[l - 1]) || l / 2 == l - 1;
      assert Sorting.RealLe(b[0], b[l / 2 - 1]) || l / 2 - 1 == 0;
      forall i | 0 <= i < l / 2 ensures b[i] <= Median(b) {
        assert Sorting.RealLe(b[i], b[l / 2 - 1]) || i == l / 2 - 1;
      }
      forall i | (l + 1) / 2 <= i < l ensures Median(b) <= b[i] {
        assert Sorting.RealLe(b[l / 2], b[i]) || i == l / 2;
      }
    } else {
      assert Sorting.RealLe(b[l / 2], b[l - 1]) || l / 2 == l - 1;
      forall i | 0 <= i < l / 2 ensures b[i] <= Median(b) {
        assert Sorting.RealLe(b[i], b[l / 2]);
      }
      forall i | (l + 1) / 2 <= i < l ensures Median(b) <= b[i] {
        assert Sorting.RealLe(b[l / 2], b[i]);
      }
    }
  }

  /** The median after sorting depends only on the bucket's contents, not
      on the order the samples arrived in. */
  lemma {:induction false} MedianOrderFree(a: seq<real>, b: seq<real>)
    requires multiset(a) == multiset(b)
    ensures Median(SortReals(a)) == Median(SortReals(b))
  {
    Sorting.RealLeTotal();
    Sorting.SortSorted(a, Sorting.RealLe);
    Sorting.SortSorted(b, Sorting.RealLe);
    Sorting.SortedUnique(SortReals(a), SortReals(b), Sorting.RealLe);
  }

  /** `calc_median`: each bucket is sorted in place and its median
      recorded, one value per bucket. */
  method CalcMedian(buckets: array<seq<real>>) returns (out: seq<real>)
    modifies buckets
    ensures |out| == buckets.Length
    ensures forall i :: 0 <= i < buckets.Length ==>
              buckets[i] == SortReals(old(buckets[i])) && out[i] == Median(buckets[i])
  {
    out := seq(buckets.Length, _ => 0.0);
    for i := 0 to buckets.Length
      invariant |out| == buckets.Length
      invariant forall j :: 0 <= j < i ==> buckets[j] == SortReals(old(buckets[j])) && out[j] == Median(buckets[j])
      invariant forall j :: i <= j < buckets.Length ==> buckets[j] == old(buckets[j])
    {
      buckets[i] := SortReals(buckets[i]);
      out := out[i := Median(buckets[i])];
    }
  }

  // ---------------------------------------------------------------
  // convert_to_phases
  // ---------------------------------------------------------------

  /** The backward and the forward list of 4096 buckets of one run and
      dataset, indexed by the direction tag. */
  type Buckets = seq<seq<seq<real>>>

  predicate WellShaped(b: Buckets)
  {
    |b| == 2 && |b[0]| == NUM_PHASES && |b[1]| == NUM_PHASES
  }

  function NewBuckets(): (b: Buckets)
    ensures WellShaped(b)
    ensures forall f, p :: 0 <= f <= 1 && 0 <= p < NUM_PHASES ==> b[f][p] == []
  {
    var empty := seq(NUM_PHASES, _ => []);
    [empty, empty]
  }

  /** `buckets[is_fwd][phase].append(d)`. */
  function AddSample(b: Buckets, tag: Tagged, d: real): (r: Buckets)
    requires WellShaped(b) && TagOk(tag)
    ensures WellShaped(r)
  {
    b[tag.0 := b[tag.0][tag.1 := b[tag.0][tag.1] + [d]]]
  }

  /** The buckets after the first `k` pairs of `zip(ds, phases)`. */
  function Fill(b: Buckets, ds: seq<real>, phases: seq<Tagged>, k: nat): (r: Buckets)
    requires WellShaped(b) && AllTagsOk(phases) && k <= |ds| && k <= |phases|
    ensures WellShaped(r)
  {
    if k == 0 then b else AddSample(Fill(b, ds, phases, k - 1), phases[k - 1], ds[k - 1])
  }

  /** The samples among the first `k` whose sub-phase is `tag`, in order. */
  function Collected(ds: seq<real>, phases: seq<Tagged>, tag: Tagged, k: nat): seq<real>
    requires k <= |ds| && k <= |phases|
  {
    if k == 0 then []
    else Collected(ds, phases, tag, k - 1) + (if phases[k - 1] == tag then [ds[k - 1]] else [])
  }

  /** Each bucket receives, in order, exactly the samples tagged with its
      direction and phase. */
  lemma {:induction false} FillMeaning(b: Buckets, ds: seq<real>, phases: seq<Tagged>, k: nat, f: int, p: int)
    requires WellShaped(b) && AllTagsOk(phases) && k <= |ds| && k <= |phases|
    requires TagOk((f, p))
    ensures Fill(b, ds, phases, k)[f][p] == b[f][p] + Collected(ds, phases, (f, p), k)
  {
    if k > 0 {
      FillMeaning(b, ds, phases, k - 1, f, p);
    }
  }

  function Min(a: int, b: int): int
  {
    if a <= b then a else b
  }

  /** The dataset names of all graphs, in order. */
  function Flatten(graphs: seq<seq<string>>): seq<string>
  {
    if graphs == [] then [] else Flatten(graphs[..|graphs| - 1]) + graphs[|graphs| - 1]
  }

  predicate AllShaped(sets: map<(string, string), Buckets>)
  {
    forall key :: key in sets ==> WellShaped(sets[key])
  }

  /** The bucket sets after adding the samples of each named dataset in
      turn; a (run, dataset) pair seen for the first time starts with
      empty buckets. */
  function ConvertAll(sets: map<(string, string), Buckets>, runName: string, names: seq<string>,
                      datasets: map<string, seq<real>>, phases: seq<Tagged>): (r: map<(string, string), Buckets>)
    requires AllShaped(sets) && AllTagsOk(phases)
    requires forall i :: 0 <= i < |names| ==> names[i] in datasets
    ensures AllShaped(r)
  {
    if names == [] then sets
    else
      var pre := ConvertAll(sets, runName, names[..|names| - 1], datasets, phases);
      var name := names[|names| - 1];
      var ds := datasets[name];
      var key := (runName, name);
      var b := if key in pre then pre[key] else NewBuckets();
      pre[key := Fill(b, ds, phases, Min(|ds|, |phases|))]
  }

  function Repeat(s: seq<real>, c: nat): seq<real>
  {
    if c == 0 then [] else Repeat(s, c - 1) + s
  }

  function Occurrences(names: seq<string>, name: string): nat
  {
    if names == [] then 0
    else Occurrences(names[..|names| - 1], name) + (if names[|names| - 1] == name then 1 else 0)
  }

  /** After converting, the run has a bucket set for every named dataset
      and the other entries are the ones there before. */
  lemma {:induction false} ConvertKeys(sets: map<(string, string), Buckets>, runName: string, names: seq<string>,
                                       datasets: map<string, seq<real>>, phases: seq<Tagged>)
    requires AllShaped(sets) && AllTagsOk(phases)
    requires forall i :: 0 <= i < |names| ==> names[i] in datasets
    ensures forall key :: key in ConvertAll(sets, runName, names, datasets, phases) <==>
              key in sets || (key.0 == runName && Occurrences(names, key.1) > 0)
    ensures forall key :: key in sets && (key.0 != runName || Occurrences(names, key.1) == 0) ==>
              ConvertAll(sets, runName, names, datasets, phases)[key] == sets[key]
  {
    if names != [] {
      ConvertKeys(sets, runName, names[..|names| - 1], datasets, phases);
    }
  }

  lemma {:induction false} ConvertUntouched(sets: map<(string, string), Buckets>, runName: string, names: seq<string>,
                         datasets: map<string, seq<real>>, phases: seq<Tagged>, name: string)
    requires AllShaped(sets) && AllTagsOk(phases)
    requires forall i :: 0 <= i < |names| ==> names[i] in datasets
    requires Occurrences(names, name) == 0
    ensures var r := ConvertAll(sets, runName, names, datasets, phases);
            var key := (runName, name);
            (key in r <==> key in sets) && (key in sets ==> r[key] == sets[key])
  {
    ConvertKeys(sets, runName, names, datasets, phases);
  }

  /** Each bucket of a named dataset holds what it held before (nothing,
      for a new one) followed by that dataset's samples for its sub-phase,
      once per time the dataset is named. */
  lemma {:induction false} ConvertMeaning(sets: map<(string, string), Buckets>, runName: string, names: seq<string>,
                                          datasets: map<string, seq<real>>, phases: seq<Tagged>,
                                          name: string, f: int, p: int)
    requires AllShaped(sets) && AllTagsOk(phases) && TagOk((f, p))
    requires forall i :: 0 <= i < |names| ==> names[i] in datasets
    requires Occurrences(names, name) > 0
    ensures var r := ConvertAll(sets, runName, names, datasets, phases);
            var key := (runName, name);
            key in r && name in datasets &&
            var ds := datasets[name];
            r[key][f][p] == (if key in sets then sets[key][f][p] else [])
                            + Repeat(Collected(ds, phases, (f, p), Min(|ds|, |phases|)), Occurrences(names, name))
  {
    var pre := names[..|names| - 1];
    var occ := Occurrences(pre, name);
    ConvertStep(sets, runName, names, datasets, phases, name, f, p);
    if names[|names| - 1] == name {
      if occ == 0 {
        ConvertUntouched(sets, runName, pre, datasets, phases, name);
      } else {
        ConvertMeaning(sets, runName, pre, datasets, phases, name, f, p);
      }
      var ds := datasets[name];
      var c := Collected(ds, phases, (f, p), Min(|ds|, |phases|));
      assert Repeat(c, occ + 1) == Repeat(c, occ) + c;
    } else {
      ConvertMeaning(sets, runName, pre, datasets, phases, name, f, p);
    }
  }

  /** The last name adds its samples to its own bucket set and leaves the
      others as they were. */
  lemma {:induction false} ConvertStep(sets: map<(string, string), Buckets>, runName: string, names: seq<string>,
                    datasets: map<string, seq<real>>, phases: seq<Tagged>, name: string, f: int, p: int)
    requires AllShaped(sets) && AllTagsOk(phases) && TagOk((f, p)) && names != []
    requires forall i :: 0 <= i < |names| ==> names[i] in datasets
    ensures var pre := names[..|names| - 1];
            var r0 := ConvertAll(sets, runName, pre, datasets, phases);
            var r := ConvertAll(sets, runName, names, datasets, phases);
            var key := (runName, name);
            if names[|names| - 1] == name then
              Occurrences(names, name) == Occurrences(pre, name) + 1 && key in r && name in datasets &&
              var ds := datasets[name];
              r[key][f][p] == (if key in r0 then r0[key][f][p] else [])
                              + Collected(ds, phases, (f, p), Min(|ds|, |phases|))
            else
              Occurrences(names, name) == Occurrences(pre, name) && (key in r0 ==> key in r && r[key] == r0[key])
  {
    var pre := names[..|names| - 1];
    var r0 := ConvertAll(sets, runName, pre, datasets, phases);
    var key := (runName, name);
    if names[|names| - 1] == name {
      var ds := datasets[name];
      var n := Min(|ds|, |phases|);
      var b := if key in r0 then r0[key] else NewBuckets();
      FillMeaning(b, ds, phases, n, f, p);
    }
  }



  /** The `convert_to_phases` state: bucket sets keyed by (run name,
      dataset name), kept across runs. */
  class PhaseSets {
    var sets: map<(string, string), Buckets>

    predicate Valid()
      reads this
    {
      AllShaped(sets)
    }

    constructor ()
      ensures Valid() && sets == map[]
    {
      sets := map[];
    }

    /** The inner loop of `convert_to_phases`, over the datasets of one
        graph, continuing the conversion of `done` from `start`. */
    method ConvertGraph(runName: string, datasets: map<string, seq<real>>, graph: seq<string>,
                        phases: seq<Tagged>, ghost start: map<(string, string), Buckets>, ghost done: seq<string>)
      requires AllShaped(start) && AllTagsOk(phases)
      requires forall i :: 0 <= i < |done| ==> done[i] in datasets
      requires forall j :: 0 <= j < |graph| ==> graph[j] in datasets
      requires sets == ConvertAll(start, runName, done, datasets, phases)
      modifies this
      ensures Valid()
      ensures forall i :: 0 <= i < |done + graph| ==> (done + graph)[i] in datasets
      ensures sets == ConvertAll(start, runName, done + graph, datasets, phases)
    {
      assert done + graph[..0] == done;
      for j := 0 to |graph|
        invariant NamesIn(done + graph[..j], datasets)
        invariant sets == ConvertAll(start, runName, done + graph[..j], datasets, phases)
      {
        var name := graph[j];
        AddDataset(runName, name, datasets[name], phases);
        ConvertGraphStep(start, runName, done, graph, j, datasets, phases);
      }
      assert graph[..|graph|] == graph;
    }

    /** One dataset of `convert_to_phases`: the run's bucket set for it
        (created empty when missing) receives each sample paired with the
        matching sub-phase. */
    method AddDataset(runName: string, name: string, ds: seq<real>, phases: seq<Tagged>)
      requires Valid() && AllTagsOk(phases)
      modifies this
      ensures Valid()
      ensures var key := (runName, name);
              sets == old(sets)[key := Fill(if key in old(sets) then old(sets)[key] else NewBuckets(), ds, phases, Min(|ds|, |phases|))]
    {
      var key := (runName, name);
      var buckets := if key in sets then sets[key] else NewBuckets();
      buckets := AddAll(buckets, ds, phases);
      sets := sets[key := buckets];
    }

    /** `convert_to_phases`: for every dataset of every graph, the run's
        bucket set for it (created empty when missing) receives each
        sample of the dataset paired with the matching sub-phase. */
    method ConvertToPhases(runName: string, datasets: map<string, seq<real>>, graphs: seq<seq<string>>,
                           phases: seq<Tagged>)
      requires Valid() && AllTagsOk(phases)
      requires forall g, j :: 0 <= g < |graphs| && 0 <= j < |graphs[g]| ==> graphs[g][j] in datasets
      modifies this
      ensures Valid()
      ensures FlattenInDatasets(graphs, datasets) &&
              sets == ConvertAll(old(sets), runName, Flatten(graphs), datasets, phases)
    {
      FlattenMembers(graphs, datasets);
      ghost var done: seq<string> := [];
      for g := 0 to |graphs|
        invariant Valid()
        invariant done == Flatten(graphs[..g])
        invariant forall i :: 0 <= i < |done| ==> done[i] in datasets
        invariant sets == ConvertAll(old(sets), runName, done, datasets, phases)
      {
        assert graphs[..g + 1][..g] == graphs[..g];
        ConvertGraph(runName, datasets, graphs[g], phases, old(sets), done);
        done := done + graphs[g];
      }
      assert graphs[..|graphs|] == graphs;
    }
  }

  lemma {:induction false} ConvertAllSnoc(sets: map<(string, string), Buckets>, runName: string, names: seq<string>, name: string,
                       datasets: map<string, seq<real>>, phases: seq<Tagged>)
    requires AllShaped(sets) && AllTagsOk(phases)
    requires forall i :: 0 <= i < |names| ==> names[i] in datasets
    requires name in datasets
    ensures forall i :: 0 <= i < |names + [name]| ==> (names + [name])[i] in datasets
    ensures var pre := ConvertAll(sets, runName, names, datasets, phases);
            var key := (runName, name);
            var ds := datasets[name];
            ConvertAll(sets, runName, names + [name], datasets, phases)
              == pre[key := Fill(if key in pre then pre[key] else NewBuckets(), ds, phases, Min(|ds|, |phases|))]
  {
    assert (names + [name])[..|names|] == names;
  }

  predicate NamesIn(names: seq<string>, datasets: map<string, seq<real>>)
  {
    forall i :: 0 <= i < |names| ==> names[i] in datasets
  }

  /** One more dataset of a graph converted. */
  lemma {:induction false} ConvertGraphStep(sets: map<(string, string), Buckets>, runName: string, done: seq<string>,
                                            graph: seq<string>, j: nat, datasets: map<string, seq<real>>, phases: seq<Tagged>)
    requires AllShaped(sets) && AllTagsOk(phases) && j < |graph| && graph[j] in datasets
    requires NamesIn(done + graph[..j], datasets)
    ensures NamesIn(done + graph[..j + 1], datasets)
    ensures var pre := ConvertAll(sets, runName, done + graph[..j], datasets, phases);
            var key := (runName, graph[j]);
            var ds := datasets[graph[j]];
            ConvertAll(sets, runName, done + graph[..j + 1], datasets, phases)
              == pre[key := Fill(if key in pre then pre[key] else NewBuckets(), ds, phases, Min(|ds|, |phases|))]
  {
    assert done + graph[..j + 1] == (done + graph[..j]) + [graph[j]];
    ConvertAllSnoc(sets, runName, done + graph[..j], graph[j], datasets, phases);
  }

  predicate FlattenInDatasets(graphs: seq<seq<string>>, datasets: map<string, seq<real>>)
  {
    forall i :: 0 <= i < |Flatten(graphs)| ==> Flatten(graphs)[i] in datasets
  }

  lemma {:induction false} FlattenMembers(graphs: seq<seq<string>>, datasets: map<string, seq<real>>)
    requires forall g, j :: 0 <= g < |graphs| && 0 <= j < |graphs[g]| ==> graphs[g][j] in datasets
    ensures FlattenInDatasets(graphs, datasets)
  {
    if graphs != [] {
      var pre := graphs[..|graphs| - 1];
      FlattenMembers(pre, datasets);
      var a, b := Flatten(pre), graphs[|graphs| - 1];
      assert forall i :: 0 <= i < |a| + |b| ==> (a + b)[i] == if i < |a| then a[i] else b[i - |a|];
    }
  }

  /** `for d, (is_fwd, phase) in zip(ds, phases): buckets[is_fwd][phase].append(d)`. */
  method AddAll(b: Buckets, ds: seq<real>, phases: seq<Tagged>) returns (r: Buckets)
    requires WellShaped(b) && AllTagsOk(phases)
    ensures r == Fill(b, ds, phases, Min(|ds|, |phases|))
  {
    r := b;
    var n := Min(|ds|, |phases|);
    for k := 0 to n
      invariant r == Fill(b, ds, phases, k)
    {
      var (isFwd, phase) := phases[k];
      r := r[isFwd := r[isFwd][phase := r[isFwd][phase] + [ds[k]]]];
    }
  }
}
