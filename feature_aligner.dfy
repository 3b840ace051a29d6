/**
 * Cross-sample alignment: the pooled peaks are sorted by m/z and cut, in one
 * greedy pass, into runs whose peaks stay within tolerance of the running mean
 * m/z and retention time of their run. Runs of two or more peaks become
 * aligned features; each sample then gets, per feature, its most intense peak
 * in that feature, stamped with the feature's id.
 */
module FeatureAligner {
  import opened MsTypes
  import opened RealSeqs
  import opened Sorting
  import opened GreedyPass

  /** A run needs at least this many peaks to become a feature. */
  const MinFeaturePeaks: nat := 2

  /** An aligned feature. The intensity standard deviation and CV are not part of this model. */
  datatype Feature = Feature(
    id: FeatureId,
    mz: real,
    rt: real,
    intensityMean: real,
    sampleCount: nat,
    peaks: seq<TaggedPeak>)

  function TaggedMz(p: TaggedPeak): real { p.peak.mz }

  function Mzs(g: seq<TaggedPeak>): seq<real>
  {
    seq(|g|, i requires 0 <= i < |g| => g[i].peak.mz)
  }

  function Rts(g: seq<TaggedPeak>): seq<real>
  {
    seq(|g|, i requires 0 <= i < |g| => g[i].peak.retentionTime)
  }

  function PeakIntensities(g: seq<TaggedPeak>): seq<real>
  {
    seq(|g|, i requires 0 <= i < |g| => g[i].peak.intensity)
  }

  /** The join test of the greedy pass: within tolerance of the group's mean m/z and mean retention time. */
  predicate Joins(group: seq<TaggedPeak>, p: TaggedPeak, mzTol: real, rtTol: real)
  {
    && |group| > 0
    && Abs(p.peak.mz - Mean(Mzs(group))) <= mzTol
    && Abs(p.peak.retentionTime - Mean(Rts(group))) <= rtTol
  }

  /** The join test as a rule for the greedy pass. */
  function JoinRule(mzTol: real, rtTol: real): (seq<TaggedPeak>, TaggedPeak) -> bool
  {
    (group, p) => Joins(group, p, mzTol, rtTol)
  }

  /** The greedy pass from an open group `current` over the peaks still to visit. */
  function RunsFrom(current: seq<TaggedPeak>, rest: seq<TaggedPeak>, mzTol: real, rtTol: real): seq<seq<TaggedPeak>>
  {
    Pass(current, rest, JoinRule(mzTol, rtTol))
  }

  /** All groups the pass closes over a sorted peak list, kept or not. */
  function Runs(sorted: seq<TaggedPeak>, mzTol: real, rtTol: real): seq<seq<TaggedPeak>>
  {
    Cut(sorted, JoinRule(mzTol, rtTol))
  }

  /** The distinct sample names among the peaks. */
  function SampleNames(ps: seq<TaggedPeak>): set<string>
  {
    if ps == [] then {} else {ps[0].sampleName} + SampleNames(ps[1..])
  }

  function CreateFeature(g: seq<TaggedPeak>): Feature
    requires |g| > 0
  {
    Feature(
      FeatureId(|g|, g[0].peak.mz),
      Mean(Mzs(g)),
      Mean(Rts(g)),
      Mean(PeakIntensities(g)),
      |SampleNames(g)|,
      g)
  }

  /** The features made from the runs that have enough peaks, in run order. */
  function KeptFeatures(runs: seq<seq<TaggedPeak>>): seq<Feature>
  {
    if runs == [] then []
    else
      var rest := KeptFeatures(runs[..|runs| - 1]);
      var last := runs[|runs| - 1];
      if |last| >= MinFeaturePeaks then rest + [CreateFeature(last)] else rest
  }

  /** The features alignment builds from a pooled peak list. */
  function AlignedFeatures(peaks: seq<TaggedPeak>, mzTol: real, rtTol: real): seq<Feature>
  {
    KeptFeatures(Runs(SortBy(peaks, TaggedMz), mzTol, rtTol))
  }

  // ---------------------------------------------------------------------------
  // Kept and discarded groups, and the feature record

  lemma {:induction false} KeptFeaturesOrigin(runs: seq<seq<TaggedPeak>>)
    ensures forall f :: f in KeptFeatures(runs) ==>
      exists k :: 0 <= k < |runs| && |runs[k]| >= MinFeaturePeaks && f == CreateFeature(runs[k])
    ensures |KeptFeatures(runs)| <= |runs|
  {
    if runs != [] {
      var init := runs[..|runs| - 1];
      KeptFeaturesOrigin(init);
      forall f | f in KeptFeatures(runs)
        ensures exists k :: 0 <= k < |runs| && |runs[k]| >= MinFeaturePeaks && f == CreateFeature(runs[k])
      {
        if f in KeptFeatures(init) {
          var k :| 0 <= k < |init| && |init[k]| >= MinFeaturePeaks && f == CreateFeature(init[k]);
          assert runs[k] == init[k];
        }
      }
    }
  }

  /** The positions of the runs that have enough peaks to be kept. */
  function KeptPositions(runs: seq<seq<TaggedPeak>>): seq<nat>
  {
    if runs == [] then []
    else
      var rest := KeptPositions(runs[..|runs| - 1]);
      if |runs[|runs| - 1]| >= MinFeaturePeaks then rest + [|runs| - 1] else rest
  }

  lemma {:induction false} KeptIndices(runs: seq<seq<TaggedPeak>>)
    ensures var idx := KeptPositions(runs);
      && |KeptFeatures(runs)| == |idx| <= |runs|
      && (forall k :: 0 <= k < |idx| ==> idx[k] < |runs|)
      && (forall i, j :: 0 <= i < j < |idx| ==> idx[i] < idx[j])
  {
    if runs != [] {
      KeptIndices(runs[..|runs| - 1]);
    }
  }

  lemma {:induction false} KeptMembership(runs: seq<seq<TaggedPeak>>)
    ensures forall j :: 0 <= j < |runs| ==> (j in KeptPositions(runs) <==> |runs[j]| >= MinFeaturePeaks)
  {
    if runs != [] {
      var init := runs[..|runs| - 1];
      KeptMembership(init);
      KeptIndices(init);
      forall j | 0 <= j < |init| ensures runs[j] == init[j] { }
    }
  }

  lemma {:induction false} KeptValueAt(runs: seq<seq<TaggedPeak>>, k: nat)
    requires k < |KeptPositions(runs)|
    ensures KeptPositions(runs)[k] < |runs| && k < |KeptFeatures(runs)|
    ensures |runs[KeptPositions(runs)[k]]| >= MinFeaturePeaks
    ensures KeptFeatures(runs)[k] == CreateFeature(runs[KeptPositions(runs)[k]])
  {
    var init := runs[..|runs| - 1];
    KeptIndices(init);
    if k < |KeptPositions(init)| {
      KeptValueAt(init, k);
      assert KeptPositions(runs)[k] == KeptPositions(init)[k];
      assert KeptFeatures(runs)[k] == KeptFeatures(init)[k];
      assert runs[KeptPositions(init)[k]] == init[KeptPositions(init)[k]];
    }
  }

  /**
   * The kept runs, both ways: one feature per run of two or more peaks, in run
   * order, made from that run, and no feature from any shorter run.
   */
  lemma KeptFeaturesSelection(runs: seq<seq<TaggedPeak>>)
    ensures var idx := KeptPositions(runs);
      var features := KeptFeatures(runs);
      && |features| == |idx| <= |runs|
      && (forall i, j :: 0 <= i < j < |idx| ==> idx[i] < idx[j])
      && (forall j :: 0 <= j < |runs| ==> (j in idx <==> |runs[j]| >= MinFeaturePeaks))
      && (forall k :: 0 <= k < |idx| ==> idx[k] < |runs| && features[k] == CreateFeature(runs[idx[k]]))
  {
    KeptIndices(runs);
    KeptMembership(runs);
    var idx := KeptPositions(runs);
    forall k | 0 <= k < |idx|
      ensures idx[k] < |runs| && KeptFeatures(runs)[k] == CreateFeature(runs[idx[k]])
    {
      KeptValueAt(runs, k);
    }
  }

  /** Every run of two or more peaks yields its feature. */
  lemma KeptRunsYieldFeatures(runs: seq<seq<TaggedPeak>>)
    ensures forall j :: 0 <= j < |runs| && |runs[j]| >= MinFeaturePeaks ==> CreateFeature(runs[j]) in KeptFeatures(runs)
  {
    KeptFeaturesSelection(runs);
    var idx := KeptPositions(runs);
    forall j | 0 <= j < |runs| && |runs[j]| >= MinFeaturePeaks
      ensures CreateFeature(runs[j]) in KeptFeatures(runs)
    {
      var k :| 0 <= k < |idx| && idx[k] == j;
      assert KeptFeatures(runs)[k] == CreateFeature(runs[j]);
    }
  }

  lemma {:induction false} ConcatSorted(rs: seq<seq<TaggedPeak>>)
    requires SortedBy(Concat(rs), TaggedMz)
    ensures forall k :: 0 <= k < |rs| ==> SortedBy(rs[k], TaggedMz)
  {
    if rs != [] {
      var whole := Concat(rs);
      assert whole == rs[0] + Concat(rs[1..]);
      assert SortedBy(rs[0], TaggedMz) by {
        forall i, j | 0 <= i < j < |rs[0]| ensures TaggedMz(rs[0][i]) <= TaggedMz(rs[0][j]) {
          assert rs[0][i] == whole[i] && rs[0][j] == whole[j];
        }
      }
      assert SortedBy(Concat(rs[1..]), TaggedMz) by {
        var t := Concat(rs[1..]);
        forall i, j | 0 <= i < j < |t| ensures TaggedMz(t[i]) <= TaggedMz(t[j]) {
          assert t[i] == whole[|rs[0]| + i] && t[j] == whole[|rs[0]| + j];
        }
      }
      ConcatSorted(rs[1..]);
      forall k | 0 < k < |rs| ensures SortedBy(rs[k], TaggedMz) {
        assert rs[k] == rs[1..][k - 1];
      }
    }
  }

  /**
   * Alignment over a pooled peak list: the sorted pool is cut into greedy
   * runs that are its only greedy partition, each run ascending in m/z; the
   * kept runs have at least two peaks, every discarded run exactly one, and
   * the features are made from the kept runs, one each, in run order.
   */
  lemma AlignedFeaturesPartition(peaks: seq<TaggedPeak>, mzTol: real, rtTol: real)
    ensures var sorted := SortBy(peaks, TaggedMz);
      var runs := Runs(sorted, mzTol, rtTol);
      && multiset(sorted) == multiset(peaks)
      && SortedBy(sorted, TaggedMz)
      && GreedyPartition(sorted, runs, JoinRule(mzTol, rtTol))
      && (forall rs :: GreedyPartition(sorted, rs, JoinRule(mzTol, rtTol)) ==> rs == runs)
      && (forall k :: 0 <= k < |runs| ==> SortedBy(runs[k], TaggedMz))
      && (forall k :: 0 <= k < |runs| && |runs[k]| < MinFeaturePeaks ==> |runs[k]| == 1)
      && (forall f :: f in AlignedFeatures(peaks, mzTol, rtTol) ==>
            exists k :: 0 <= k < |runs| && |runs[k]| >= MinFeaturePeaks && f == CreateFeature(runs[k]))
      && (var idx := KeptPositions(runs);
          && |AlignedFeatures(peaks, mzTol, rtTol)| == |idx|
          && (forall i, j :: 0 <= i < j < |idx| ==> idx[i] < idx[j])
          && (forall j :: 0 <= j < |runs| ==> (j in idx <==> |runs[j]| >= MinFeaturePeaks))
          && (forall k :: 0 <= k < |idx| ==>
                idx[k] < |runs| && AlignedFeatures(peaks, mzTol, rtTol)[k] == CreateFeature(runs[idx[k]])))
  {
    var sorted := SortBy(peaks, TaggedMz);
    var runs := Runs(sorted, mzTol, rtTol);
    SortByFacts(peaks, TaggedMz);
    CutIsPartition(sorted, JoinRule(mzTol, rtTol));
    forall rs | GreedyPartition(sorted, rs, JoinRule(mzTol, rtTol)) ensures rs == runs {
      GreedyPartitionIsCut(sorted, rs, JoinRule(mzTol, rtTol));
    }
    ConcatSorted(runs);
    forall k | 0 <= k < |runs| && |runs[k]| < MinFeaturePeaks ensures |runs[k]| == 1 {
      assert JoinedRun(runs[k], JoinRule(mzTol, rtTol));
    }
    KeptFeaturesOrigin(runs);
    KeptFeaturesSelection(runs);
  }

  /** With nothing to align there are no features. */
  lemma AlignedFeaturesOfNothing(mzTol: real, rtTol: real)
    ensures AlignedFeatures([], mzTol, rtTol) == []
  {
    assert SortBy([], TaggedMz) == [];
  }

  lemma {:induction false} SampleNamesFacts(ps: seq<TaggedPeak>)
    ensures forall x :: x in SampleNames(ps) <==> exists i :: 0 <= i < |ps| && ps[i].sampleName == x
    ensures |SampleNames(ps)| <= |ps|
    ensures ps != [] ==> |SampleNames(ps)| >= 1
  {
    if ps != [] {
      SampleNamesFacts(ps[1..]);
      assert ps[0].sampleName in SampleNames(ps);
      forall x ensures x in SampleNames(ps) <==> exists i :: 0 <= i < |ps| && ps[i].sampleName == x {
        if x in SampleNames(ps[1..]) {
          var i :| 0 <= i < |ps[1..]| && ps[1..][i].sampleName == x;
          assert ps[i + 1].sampleName == x;
        }
        if exists i :: 0 <= i < |ps| && ps[i].sampleName == x {
          var i :| 0 <= i < |ps| && ps[i].sampleName == x;
          if i > 0 {
            assert ps[1..][i - 1].sampleName == x;
          }
        }
      }
    }
  }

  /**
   * The feature record of a run sorted by m/z: its id is the peak count and
   * the first (lowest) m/z; its m/z and retention time lie within the run's
   * ranges, as means do; its sample count is the number of distinct sample
   * names, between 1 and the number of peaks.
   */
  lemma FeatureFacts(g: seq<TaggedPeak>, rtLo: real, rtHi: real)
    requires |g| > 0 && SortedBy(g, TaggedMz)
    requires Bounded(Rts(g), rtLo, rtHi)
    ensures var f := CreateFeature(g);
      && f.id == FeatureId(|g|, g[0].peak.mz)
      && (forall i :: 0 <= i < |g| ==> f.id.firstMz <= g[i].peak.mz)
      && g[0].peak.mz <= f.mz <= g[|g| - 1].peak.mz
      && rtLo <= f.rt <= rtHi
      && f.peaks == g
      && (forall x :: x in SampleNames(g) <==> exists i :: 0 <= i < |g| && g[i].sampleName == x)
      && f.sampleCount == |SampleNames(g)|
      && 1 <= f.sampleCount <= |g|
  {
    FeatureMzWithin(g);
    MeanBounds(Rts(g), rtLo, rtHi);
    SampleNamesFacts(g);
  }

  lemma FeatureMzWithin(g: seq<TaggedPeak>)
    requires |g| > 0 && SortedBy(g, TaggedMz)
    ensures forall i :: 0 <= i < |g| ==> g[0].peak.mz <= g[i].peak.mz
    ensures g[0].peak.mz <= Mean(Mzs(g)) <= g[|g| - 1].peak.mz
  {
    forall i | 0 <= i < |g| ensures g[0].peak.mz <= g[i].peak.mz <= g[|g| - 1].peak.mz {
      assert TaggedMz(g[0]) <= TaggedMz(g[i]) <= TaggedMz(g[|g| - 1]);
    }
    MeanBounds(Mzs(g), g[0].peak.mz, g[|g| - 1].peak.mz);
  }

  // ---------------------------------------------------------------------------
  // The grouping loop

  lemma SortedLength(peaks: seq<TaggedPeak>)
    ensures |SortBy(peaks, TaggedMz)| == |peaks|
  {
    SortByFacts(peaks, TaggedMz);
  }

  /** Closing one more run adds its feature exactly when it is large enough. */
  lemma KeptFeaturesSnoc(closed: seq<seq<TaggedPeak>>, run: seq<TaggedPeak>)
    ensures |run| >= MinFeaturePeaks ==> KeptFeatures(closed + [run]) == KeptFeatures(closed) + [CreateFeature(run)]
    ensures |run| < MinFeaturePeaks ==> KeptFeatures(closed + [run]) == KeptFeatures(closed)
  {
    assert (closed + [run])[..|closed|] == closed;
  }

  /** The loop's partition invariant, when the next peak joins the open group. */
  lemma AdvanceJoin(closed: seq<seq<TaggedPeak>>, current: seq<TaggedPeak>, sorted: seq<TaggedPeak>, i: nat, mzTol: real, rtTol: real)
    requires i < |sorted| && closed + RunsFrom(current, sorted[i..], mzTol, rtTol) == Runs(sorted, mzTol, rtTol)
    requires Joins(current, sorted[i], mzTol, rtTol)
    ensures closed + RunsFrom(current + [sorted[i]], sorted[i + 1..], mzTol, rtTol) == Runs(sorted, mzTol, rtTol)
  {
    assert sorted[i..][0] == sorted[i] && sorted[i..][1..] == sorted[i + 1..];
  }

  /** The loop's partition invariant, when the next peak closes the open group. */
  lemma AdvanceCut(closed: seq<seq<TaggedPeak>>, current: seq<TaggedPeak>, sorted: seq<TaggedPeak>, i: nat, mzTol: real, rtTol: real)
    requires i < |sorted| && closed + RunsFrom(current, sorted[i..], mzTol, rtTol) == Runs(sorted, mzTol, rtTol)
    requires !Joins(current, sorted[i], mzTol, rtTol)
    ensures (closed + [current]) + RunsFrom([sorted[i]], sorted[i + 1..], mzTol, rtTol) == Runs(sorted, mzTol, rtTol)
  {
    assert sorted[i..][0] == sorted[i] && sorted[i..][1..] == sorted[i + 1..];
    var tail := RunsFrom([sorted[i]], sorted[i + 1..], mzTol, rtTol);
    assert RunsFrom(current, sorted[i..], mzTol, rtTol) == [current] + tail;
    assert closed + ([current] + tail) == (closed + [current]) + tail;
  }

  /** The loop's partition invariant at the end of the list. */
  lemma AdvanceEnd(closed: seq<seq<TaggedPeak>>, current: seq<TaggedPeak>, sorted: seq<TaggedPeak>, mzTol: real, rtTol: real)
    requires closed + RunsFrom(current, sorted[|sorted|..], mzTol, rtTol) == Runs(sorted, mzTol, rtTol)
    ensures closed + [current] == Runs(sorted, mzTol, rtTol)
  {
    assert sorted[|sorted|..] == [];
  }

  lemma StartRuns(sorted: seq<TaggedPeak>, mzTol: real, rtTol: real)
    requires |sorted| > 0
    ensures [] + RunsFrom([sorted[0]], sorted[1..], mzTol, rtTol) == Runs(sorted, mzTol, rtTol)
  {
  }

  /** `group_peaks_by_tolerance`: sort, then one greedy pass keeping the runs of two or more peaks. */
  method GroupPeaksByTolerance(peaks: seq<TaggedPeak>, mzTol: real, rtTol: real) returns (groups: seq<Feature>)
    ensures groups == AlignedFeatures(peaks, mzTol, rtTol)
  {
    if peaks == [] {
      assert SortBy(peaks, TaggedMz) == [];
      return [];
    }
    SortedLength(peaks);
    var sorted := SortBy(peaks, TaggedMz);
    groups := [];
    var current := [sorted[0]];
    ghost var closed: seq<seq<TaggedPeak>> := [];
    StartRuns(sorted, mzTol, rtTol);
    var i := 1;
    while i < |sorted|
      invariant 1 <= i <= |sorted|
      invariant |current| > 0
      invariant closed + RunsFrom(current, sorted[i..], mzTol, rtTol) == Runs(sorted, mzTol, rtTol)
      invariant groups == KeptFeatures(closed)
    {
      var peak := sorted[i];
      // the peak joins when it lies within both tolerances of the group's mean m/z and mean RT
      if Joins(current, peak, mzTol, rtTol) {
        AdvanceJoin(closed, current, sorted, i, mzTol, rtTol);
        current := current + [peak];
      } else {
        AdvanceCut(closed, current, sorted, i, mzTol, rtTol);
        KeptFeaturesSnoc(closed, current);
        if |current| >= MinFeaturePeaks {
          groups := groups + [CreateFeature(current)];
        }
        closed := closed + [current];
        current := [peak];
      }
      i := i + 1;
    }
    AdvanceEnd(closed, current, sorted, mzTol, rtTol);
    KeptFeaturesSnoc(closed, current);
    if |current| >= MinFeaturePeaks {
      groups := groups + [CreateFeature(current)];
    }
    closed := closed + [current];
  }

  // ---------------------------------------------------------------------------
  // Per-sample projection

  /** The peaks of one sample, in the order the feature holds them. */
  function PeaksOfSample(ps: seq<TaggedPeak>, name: string): seq<TaggedPeak>
  {
    if ps == [] then []
    else if ps[0].sampleName == name then [ps[0]] + PeaksOfSample(ps[1..], name)
    else PeaksOfSample(ps[1..], name)
  }

  /**
   * `max(ps, key=intensity)` as a position: a most intense peak, the first
   * one among equals.
   */
  function MostIntense(ps: seq<TaggedPeak>): (k: nat)
    requires |ps| > 0
    ensures k < |ps|
    ensures forall j :: 0 <= j < |ps| ==> ps[j].peak.intensity <= ps[k].peak.intensity
    ensures forall j :: 0 <= j < k ==> ps[j].peak.intensity < ps[k].peak.intensity
  {
    if |ps| == 1 then 0
    else
      var k := MostIntense(ps[..|ps| - 1]);
      if ps[|ps| - 1].peak.intensity > ps[k].peak.intensity then |ps| - 1 else k
  }

  /** The sample's representative in one feature, if the sample has a peak there. */
  function Representative(f: Feature, name: string): Option<AlignedPeak>
  {
    var mine := PeaksOfSample(f.peaks, name);
    if mine == [] then None else Some(AlignedPeak(mine[MostIntense(mine)], Some(f.id)))
  }

  /** `get_aligned_peaks_for_sample` as a function of the features. */
  function AlignedPeaksFor(features: seq<Feature>, name: string): seq<AlignedPeak>
  {
    if features == [] then []
    else
      var rest := AlignedPeaksFor(features[..|features| - 1], name);
      var r := Representative(features[|features| - 1], name);
      if r.Some? then rest + [r.value] else rest
  }

  /** The positions of the features that hold a peak from the sample. */
  function FeaturesWithSample(features: seq<Feature>, name: string): seq<nat>
  {
    if features == [] then []
    else
      var rest := FeaturesWithSample(features[..|features| - 1], name);
      if Representative(features[|features| - 1], name).Some? then rest + [|features| - 1] else rest
  }

  lemma {:induction false} PeaksOfSampleMembers(ps: seq<TaggedPeak>, name: string)
    ensures forall p :: p in PeaksOfSample(ps, name) <==> p in ps && p.sampleName == name
  {
    if ps != [] {
      PeaksOfSampleMembers(ps[1..], name);
      assert ps == [ps[0]] + ps[1..];
    }
  }

  /**
   * The peak chosen for a sample in a feature: one of that sample's peaks in
   * the feature, as intense as any other of them, and placed before every
   * other one that is as intense.
   */
  ghost predicate IsRepresentative(f: Feature, name: string, p: TaggedPeak)
  {
    var mine := PeaksOfSample(f.peaks, name);
    && p in f.peaks && p.sampleName == name
    && (forall q :: q in f.peaks && q.sampleName == name ==> q.peak.intensity <= p.peak.intensity)
    && exists k :: 0 <= k < |mine| && mine[k] == p && forall j :: 0 <= j < k ==> mine[j].peak.intensity < p.peak.intensity
  }

  lemma RepresentativeFacts(f: Feature, name: string)
    ensures Representative(f, name).Some? <==> exists p :: p in f.peaks && p.sampleName == name
    ensures Representative(f, name).Some? ==>
      && Representative(f, name).value.featureId == Some(f.id)
      && IsRepresentative(f, name, Representative(f, name).value.tagged)
  {
    var mine := PeaksOfSample(f.peaks, name);
    PeaksOfSampleMembers(f.peaks, name);
    if mine != [] {
      var k := MostIntense(mine);
      assert mine[k] in mine;
      forall q | q in f.peaks && q.sampleName == name ensures q.peak.intensity <= mine[k].peak.intensity {
        assert q in mine;
        var j :| 0 <= j < |mine| && mine[j] == q;
      }
    }
  }

  lemma {:induction false} SelectionIndices(features: seq<Feature>, name: string)
    ensures var idx := FeaturesWithSample(features, name);
      && |AlignedPeaksFor(features, name)| == |idx| <= |features|
      && (forall k :: 0 <= k < |idx| ==> idx[k] < |features|)
      && (forall i, j :: 0 <= i < j < |idx| ==> idx[i] < idx[j])
  {
    if features != [] {
      SelectionIndices(features[..|features| - 1], name);
    }
  }

  lemma {:induction false} SelectionMembership(features: seq<Feature>, name: string)
    ensures forall j :: 0 <= j < |features| ==>
      (j in FeaturesWithSample(features, name) <==> Representative(features[j], name).Some?)
  {
    if features != [] {
      var init := features[..|features| - 1];
      SelectionMembership(init, name);
      SelectionIndices(init, name);
      forall j | 0 <= j < |init| ensures features[j] == init[j] { }
    }
  }

  lemma {:induction false} SelectionValueAt(features: seq<Feature>, name: string, k: nat)
    requires k < |FeaturesWithSample(features, name)|
    ensures FeaturesWithSample(features, name)[k] < |features| && k < |AlignedPeaksFor(features, name)|
    ensures Representative(features[FeaturesWithSample(features, name)[k]], name) == Some(AlignedPeaksFor(features, name)[k])
  {
    var init := features[..|features| - 1];
    SelectionIndices(init, name);
    if k < |FeaturesWithSample(init, name)| {
      SelectionValueAt(init, name, k);
      assert FeaturesWithSample(features, name)[k] == FeaturesWithSample(init, name)[k];
      assert AlignedPeaksFor(features, name)[k] == AlignedPeaksFor(init, name)[k];
      assert features[FeaturesWithSample(init, name)[k]] == init[FeaturesWithSample(init, name)[k]];
    }
  }

  /**
   * A sample's aligned peaks: exactly one per feature that holds a peak from
   * the sample, in feature order, each that feature's representative for the
   * sample, stamped with that feature's id.
   */
  lemma AlignedPeaksSelection(features: seq<Feature>, name: string)
    ensures var idx := FeaturesWithSample(features, name);
      var out := AlignedPeaksFor(features, name);
      && |out| == |idx| <= |features|
      && (forall i, j :: 0 <= i < j < |idx| ==> idx[i] < idx[j])
      && (forall j :: 0 <= j < |features| ==>
            (j in idx <==> exists p :: p in features[j].peaks && p.sampleName == name))
      && (forall k :: 0 <= k < |idx| ==>
            idx[k] < |features|
            && out[k].featureId == Some(features[idx[k]].id)
            && IsRepresentative(features[idx[k]], name, out[k].tagged))
  {
    SelectionIndices(features, name);
    SelectionMembership(features, name);
    var idx := FeaturesWithSample(features, name);
    var out := AlignedPeaksFor(features, name);
    forall j | 0 <= j < |features|
      ensures j in idx <==> exists p :: p in features[j].peaks && p.sampleName == name
    {
      RepresentativeFacts(features[j], name);
    }
    forall k | 0 <= k < |idx|
      ensures idx[k] < |features|
      ensures out[k].featureId == Some(features[idx[k]].id)
      ensures IsRepresentative(features[idx[k]], name, out[k].tagged)
    {
      SelectionValueAt(features, name, k);
      RepresentativeFacts(features[idx[k]], name);
    }
  }

  /** Every aligned peak refers to a feature of the batch that contains it. */
  lemma AlignedPeaksReferenceFeatures(features: seq<Feature>, name: string)
    ensures forall ap :: ap in AlignedPeaksFor(features, name) ==>
      exists j :: 0 <= j < |features| && ap.featureId == Some(features[j].id)
        && ap.tagged in features[j].peaks && ap.tagged.sampleName == name
  {
    AlignedPeaksSelection(features, name);
    var idx := FeaturesWithSample(features, name);
    var out := AlignedPeaksFor(features, name);
    forall ap | ap in out
      ensures exists j :: (0 <= j < |features| && ap.featureId == Some(features[j].id)
        && ap.tagged in features[j].peaks && ap.tagged.sampleName == name)
    {
      var k :| 0 <= k < |out| && out[k] == ap;
      assert IsRepresentative(features[idx[k]], name, out[k].tagged);
    }
  }

  method GetAlignedPeaksForSample(features: seq<Feature>, name: string) returns (aligned: seq<AlignedPeak>)
    ensures aligned == AlignedPeaksFor(features, name)
  {
    aligned := [];
    var i := 0;
    while i < |features|
      invariant 0 <= i <= |features|
      invariant aligned == AlignedPeaksFor(features[..i], name)
    {
      var feature := features[i];
      assert features[..i + 1][..i] == features[..i];
      var samplePeaks := PeaksOfSample(feature.peaks, name);
      if samplePeaks != [] {
        var best := samplePeaks[MostIntense(samplePeaks)];
        aligned := aligned + [AlignedPeak(best, Some(feature.id))];
      }
      i := i + 1;
    }
    assert features[..|features|] == features;
  }

  // ---------------------------------------------------------------------------
  // Features are made of pooled peaks

  lemma KeptPeaksFromRuns(runs: seq<seq<TaggedPeak>>)
    ensures forall f, p :: f in KeptFeatures(runs) && p in f.peaks ==> p in Concat(runs)
  {
    ConcatMembers(runs);
    KeptFeaturesOrigin(runs);
    forall f, p | f in KeptFeatures(runs) && p in f.peaks ensures p in Concat(runs) {
      var k :| 0 <= k < |runs| && |runs[k]| >= MinFeaturePeaks && f == CreateFeature(runs[k]);
      assert p in runs[k];
    }
  }

  /** Every peak of every feature is one of the peaks given to alignment. */
  lemma FeaturePeaksFromPool(peaks: seq<TaggedPeak>, mzTol: real, rtTol: real)
    ensures forall f, p :: f in AlignedFeatures(peaks, mzTol, rtTol) && p in f.peaks ==> p in peaks
  {
    var sorted := SortBy(peaks, TaggedMz);
    var runs := Runs(sorted, mzTol, rtTol);
    RunsCoverSorted(sorted, mzTol, rtTol);
    KeptPeaksFromRuns(runs);
    SortedMembers(peaks);
  }

  lemma RunsCoverSorted(sorted: seq<TaggedPeak>, mzTol: real, rtTol: real)
    ensures Concat(Runs(sorted, mzTol, rtTol)) == sorted
  {
    CutIsPartition(sorted, JoinRule(mzTol, rtTol));
  }

  lemma SortedMembers(peaks: seq<TaggedPeak>)
    ensures forall p :: p in SortBy(peaks, TaggedMz) ==> p in peaks
  {
    SortByFacts(peaks, TaggedMz);
    forall p | p in SortBy(peaks, TaggedMz) ensures p in peaks {
      assert p in multiset(SortBy(peaks, TaggedMz));
    }
  }

  // ---------------------------------------------------------------------------
  // The alignment stage over sample records

  /** One sample's detected peaks, tagged with its position and file name. */
  function Tagged(ps: seq<Peak>, index: nat, name: string): (ts: seq<TaggedPeak>)
    ensures |ts| == |ps|
    ensures forall i :: 0 <= i < |ps| ==> ts[i] == TaggedPeak(ps[i], index, name)
  {
    if ps == [] then [] else Tagged(ps[..|ps| - 1], index, name) + [TaggedPeak(ps[|ps| - 1], index, name)]
  }

  /** The alignment pool: every sample's detected peaks, sample by sample, in order. */
  function Pool(samples: seq<Sample>): seq<TaggedPeak>
    reads samples
  {
    if samples == [] then []
    else
      var n := |samples| - 1;
      Pool(samples[..n]) + Tagged(samples[n].detectedPeaks, n, samples[n].fileName)
  }

  /** A detected peak of sample `i` is in the pool, tagged with `i` and that sample's file name. */
  lemma {:induction false} PoolHolds(samples: seq<Sample>, i: nat, q: Peak)
    requires i < |samples| && q in samples[i].detectedPeaks
    ensures TaggedPeak(q, i, samples[i].fileName) in Pool(samples)
  {
    var n := |samples| - 1;
    var ts := Tagged(samples[n].detectedPeaks, n, samples[n].fileName);
    if i == n {
      var j :| 0 <= j < |samples[n].detectedPeaks| && samples[n].detectedPeaks[j] == q;
      assert ts[j] == TaggedPeak(q, i, samples[i].fileName);
    } else {
      assert samples[..n][i] == samples[i];
      PoolHolds(samples[..n], i, q);
    }
    assert Pool(samples) == Pool(samples[..n]) + ts;
  }

  /**
   * A pooled peak is a detected peak of the sample at its index, carrying that
   * sample's file name; and every detected peak of every sample is pooled so.
   */
  lemma {:induction false} PoolOrigin(samples: seq<Sample>)
    ensures forall p :: p in Pool(samples) ==>
      && p.sampleIndex < |samples|
      && p.sampleName == samples[p.sampleIndex].fileName
      && p.peak in samples[p.sampleIndex].detectedPeaks
    ensures forall i, q :: 0 <= i < |samples| && q in samples[i].detectedPeaks ==>
      TaggedPeak(q, i, samples[i].fileName) in Pool(samples)
  {
    forall i, q | 0 <= i < |samples| && q in samples[i].detectedPeaks
      ensures TaggedPeak(q, i, samples[i].fileName) in Pool(samples)
    {
      PoolHolds(samples, i, q);
    }
    if samples != [] {
      var n := |samples| - 1;
      PoolOrigin(samples[..n]);
      var ts := Tagged(samples[n].detectedPeaks, n, samples[n].fileName);
      forall p | p in Pool(samples)
        ensures p.sampleIndex < |samples| && p.sampleName == samples[p.sampleIndex].fileName
        ensures p.peak in samples[p.sampleIndex].detectedPeaks
      {
        if p in Pool(samples[..n]) {
          assert samples[..n][p.sampleIndex] == samples[p.sampleIndex];
        } else {
          assert p in ts;
          var i :| 0 <= i < |ts| && ts[i] == p;
          assert p.peak == samples[n].detectedPeaks[i];
        }
      }
    }
  }

  /** The pool is empty exactly when no sample has a detected peak. */
  lemma {:induction false} PoolEmpty(samples: seq<Sample>)
    ensures Pool(samples) == [] <==> forall j :: 0 <= j < |samples| ==> samples[j].detectedPeaks == []
  {
    if samples != [] {
      var n := |samples| - 1;
      PoolEmpty(samples[..n]);
      assert forall j :: 0 <= j < n ==> samples[..n][j] == samples[j];
    }
  }

  /** The loop of `align_peaks_pyopenms` that builds the pool. */
  method CollectPeaks(samples: seq<Sample>) returns (allPeaks: seq<TaggedPeak>)
    ensures allPeaks == Pool(samples)
  {
    allPeaks := [];
    var sampleIndex := 0;
    while sampleIndex < |samples|
      invariant 0 <= sampleIndex <= |samples|
      invariant allPeaks == Pool(samples[..sampleIndex])
    {
      var sample := samples[sampleIndex];
      ghost var before := allPeaks;
      var j := 0;
      while j < |sample.detectedPeaks|
        invariant 0 <= j <= |sample.detectedPeaks|
        invariant allPeaks == before + Tagged(sample.detectedPeaks[..j], sampleIndex, sample.fileName)
      {
        assert sample.detectedPeaks[..j + 1][..j] == sample.detectedPeaks[..j];
        allPeaks := allPeaks + [TaggedPeak(sample.detectedPeaks[j], sampleIndex, sample.fileName)];
        j := j + 1;
      }
      assert sample.detectedPeaks[..j] == sample.detectedPeaks;
      assert samples[..sampleIndex + 1][..sampleIndex] == samples[..sampleIndex];
      sampleIndex := sampleIndex + 1;
    }
    assert samples[..|samples|] == samples;
  }

  /** The features one alignment request produces from a pool. */
  function FeaturesOf(pool: seq<TaggedPeak>, params: Params): seq<Feature>
  {
    AlignedFeatures(pool, params.mzTolerance.GetOr(DefaultMzTolerance), params.rtTolerance.GetOr(DefaultRtTolerance))
  }

  /**
   * `align_peaks_pyopenms`. With no detected peak anywhere it reports nothing
   * and leaves every sample as it was; otherwise every sample gets its aligned
   * peaks and the `aligned` status, and the feature count is returned.
   */
  method AlignPeaks(samples: seq<Sample>, params: Params) returns (alignedFeatures: Option<nat>)
    modifies samples
    ensures alignedFeatures.None? <==> old(Pool(samples)) == []
    ensures alignedFeatures.None? ==> forall s :: s in samples ==>
      s.alignedPeaks == old(s.alignedPeaks) && s.processingStatus == old(s.processingStatus)
    ensures alignedFeatures.Some? ==>
      var features := FeaturesOf(old(Pool(samples)), params);
      && alignedFeatures.value == |features|
      && forall s :: s in samples ==>
           s.alignedPeaks == AlignedPeaksFor(features, s.fileName) && s.processingStatus == Aligned
    ensures forall s :: s in samples ==>
      s.detectedPeaks == old(s.detectedPeaks) && s.statisticalResults == old(s.statisticalResults)
  {
    var allPeaks := CollectPeaks(samples);
    if allPeaks == [] {
      return None;
    }
    var mzTolerance := params.mzTolerance.GetOr(DefaultMzTolerance);
    var rtTolerance := params.rtTolerance.GetOr(DefaultRtTolerance);
    var features := GroupPeaksByTolerance(allPeaks, mzTolerance, rtTolerance);
    StoreAlignment(samples, features);
    alignedFeatures := Some(|features|);
  }

  /** The write-back loop of `align_peaks_pyopenms`: every sample gets its projection and the `aligned` status. */
  method StoreAlignment(samples: seq<Sample>, features: seq<Feature>)
    modifies samples
    ensures forall s :: s in samples ==>
      s.alignedPeaks == AlignedPeaksFor(features, s.fileName) && s.processingStatus == Aligned
    ensures forall s :: s in samples ==>
      s.detectedPeaks == old(s.detectedPeaks) && s.statisticalResults == old(s.statisticalResults)
  {
    var i := 0;
    while i < |samples|
      invariant 0 <= i <= |samples|
      invariant forall j :: 0 <= j < i ==>
        samples[j].alignedPeaks == AlignedPeaksFor(features, samples[j].fileName) && samples[j].processingStatus == Aligned
      invariant forall s :: s in samples ==>
        s.detectedPeaks == old(s.detectedPeaks) && s.statisticalResults == old(s.statisticalResults)
    {
      var sample := samples[i];
      var aligned := GetAlignedPeaksForSample(features, sample.fileName);
      sample.alignedPeaks := aligned;
      sample.processingStatus := Aligned;
      i := i + 1;
    }
  }

  // ---------------------------------------------------------------------------
  // Worked cases

  ghost function PeakAt(mz: real, intensity: real, name: string, index: nat): TaggedPeak
  {
    TaggedPeak(Peak(mz, intensity, 5.0, 0, 1, 0.0, 0.0), index, name)
  }

  lemma TwoSampleSort()
    ensures var a1 := PeakAt(100.0, 5000.0, "a", 0);
      var a2 := PeakAt(150.0, 3000.0, "a", 0);
      var b1 := PeakAt(100.005, 5200.0, "b", 1);
      SortBy([a1, a2, b1], TaggedMz) == [a1, b1, a2]
  {
    var a1 := PeakAt(100.0, 5000.0, "a", 0);
    var a2 := PeakAt(150.0, 3000.0, "a", 0);
    var b1 := PeakAt(100.005, 5200.0, "b", 1);
    assert [a1, a2, b1][1..] == [a2, b1] && [a2, b1][1..] == [b1] && [b1][1..] == [];
    assert SortBy([b1], TaggedMz) == [b1];
    assert InsertBy(a2, [b1], TaggedMz) == [b1] + InsertBy(a2, [], TaggedMz) == [b1, a2];
    assert SortBy([a2, b1], TaggedMz) == [b1, a2];
  }

  /** The means of two peaks are their midpoints. */
  lemma PairAverages(a: TaggedPeak, b: TaggedPeak)
    ensures Mean(Mzs([a, b])) == (a.peak.mz + b.peak.mz) / 2.0
    ensures Mean(Rts([a, b])) == (a.peak.retentionTime + b.peak.retentionTime) / 2.0
    ensures Mean(PeakIntensities([a, b])) == (a.peak.intensity + b.peak.intensity) / 2.0
  {
    assert Mzs([a, b]) == [a.peak.mz, b.peak.mz];
    assert Rts([a, b]) == [a.peak.retentionTime, b.peak.retentionTime];
    assert PeakIntensities([a, b]) == [a.peak.intensity, b.peak.intensity];
    SumPair(a.peak.mz, b.peak.mz);
    SumPair(a.peak.retentionTime, b.peak.retentionTime);
    SumPair(a.peak.intensity, b.peak.intensity);
  }

  lemma TwoSampleRecord()
    ensures var a1 := PeakAt(100.0, 5000.0, "a", 0);
      var b1 := PeakAt(100.005, 5200.0, "b", 1);
      && CreateFeature([a1, b1]) == Feature(FeatureId(2, 100.0), 100.0025, 5.0, 5100.0, 2, [a1, b1])
      && Mean(Mzs([a1])) == 100.0 && Mean(Rts([a1])) == 5.0
      && Mean(Mzs([a1, b1])) == 100.0025 && Mean(Rts([a1, b1])) == 5.0
  {
    var a1 := PeakAt(100.0, 5000.0, "a", 0);
    var b1 := PeakAt(100.005, 5200.0, "b", 1);
    var g := [a1, b1];
    SingletonMeans(a1);
    PairAverages(a1, b1);
    assert g[1..] == [b1] && [b1][1..] == [];
    assert a1.sampleName == "a" && b1.sampleName == "b";
    assert SampleNames([b1]) == {"b"};
    assert SampleNames(g) == {"a", "b"};
  }

  lemma TwoSampleRuns()
    ensures var a1 := PeakAt(100.0, 5000.0, "a", 0);
      var a2 := PeakAt(150.0, 3000.0, "a", 0);
      var b1 := PeakAt(100.005, 5200.0, "b", 1);
      Runs([a1, b1, a2], 0.01, 0.5) == [[a1, b1], [a2]]
  {
    var a1 := PeakAt(100.0, 5000.0, "a", 0);
    var a2 := PeakAt(150.0, 3000.0, "a", 0);
    var b1 := PeakAt(100.005, 5200.0, "b", 1);
    var g := [a1, b1];
    TwoSampleRecord();
    assert Joins([a1], b1, 0.01, 0.5);
    assert [a1] + [b1] == g;
    assert !Joins(g, a2, 0.01, 0.5);
    assert JoinRule(0.01, 0.5)([a1], b1) && !JoinRule(0.01, 0.5)(g, a2);
    assert [b1, a2][1..] == [a2] && [a1, b1, a2][1..] == [b1, a2] && [a2][1..] == [];
    assert RunsFrom([a2], [], 0.01, 0.5) == [[a2]];
    assert RunsFrom(g, [a2], 0.01, 0.5) == [g, [a2]];
  }

  /**
   * Two samples at the same retention time: the peaks at 100.0 and 100.005 are
   * one feature seen in both samples, the lone peak at 150.0 is dropped.
   */
  lemma TwoSampleFeature()
    ensures var a1 := PeakAt(100.0, 5000.0, "a", 0);
      var a2 := PeakAt(150.0, 3000.0, "a", 0);
      var b1 := PeakAt(100.005, 5200.0, "b", 1);
      AlignedFeatures([a1, a2, b1], 0.01, 0.5)
        == [Feature(FeatureId(2, 100.0), 100.0025, 5.0, 5100.0, 2, [a1, b1])]
  {
    var a1 := PeakAt(100.0, 5000.0, "a", 0);
    var a2 := PeakAt(150.0, 3000.0, "a", 0);
    var b1 := PeakAt(100.005, 5200.0, "b", 1);
    var g := [a1, b1];
    TwoSampleSort();
    TwoSampleRuns();
    TwoSampleRecord();
    assert KeptFeatures([g]) == [CreateFeature(g)] by {
      var none: seq<seq<TaggedPeak>> := [];
      assert [g][..0] == none;
    }
    assert [g, [a2]][..1] == [g];
  }

  /** A run of two peaks from the same sample is still kept, as a feature of one sample. */
  lemma OneSampleFeatureKept()
    ensures var a1 := PeakAt(200.0, 4000.0, "a", 0);
      var a2 := PeakAt(200.004, 4400.0, "a", 0);
      var fs := AlignedFeatures([a1, a2], 0.01, 0.5);
      |fs| == 1 && fs[0].sampleCount == 1 && fs[0].peaks == [a1, a2]
  {
    var a1 := PeakAt(200.0, 4000.0, "a", 0);
    var a2 := PeakAt(200.004, 4400.0, "a", 0);
    var g := [a1, a2];
    assert g[..1] == [a1] && g[1..] == [a2] && [a2][1..] == [];
    assert SortBy([a2], TaggedMz) == [a2];
    assert SortBy(g, TaggedMz) == g;
    assert Mzs([a1]) == [200.0] && Rts([a1]) == [5.0];
    assert Sum([200.0]) == 200.0 by { assert [200.0][..0] == []; }
    assert Sum([5.0]) == 5.0 by { assert [5.0][..0] == []; }
    assert Joins([a1], a2, 0.01, 0.5);
    assert [a1] + [a2] == g;
    assert RunsFrom(g, [], 0.01, 0.5) == [g];
    assert Runs(g, 0.01, 0.5) == [g];
    assert a1.sampleName == "a" && a2.sampleName == "a";
    assert SampleNames([a2]) == {"a"};
    assert SampleNames(g) == {"a"};
    assert KeptFeatures([g]) == [CreateFeature(g)] by {
      var none: seq<seq<TaggedPeak>> := [];
      assert [g][..0] == none;
    }
  }

  /** Equal m/z values keep their pool order when sorted. */
  lemma SameMzKeepsOrder(a: TaggedPeak, b: TaggedPeak, c: TaggedPeak, d: TaggedPeak)
    requires a.peak.mz == b.peak.mz == c.peak.mz == d.peak.mz
    ensures SortBy([a, b, c, d], TaggedMz) == [a, b, c, d]
  {
    assert [a, b, c, d][1..] == [b, c, d] && [b, c, d][1..] == [c, d] && [c, d][1..] == [d] && [d][1..] == [];
    assert SortBy([d], TaggedMz) == [d];
    assert SortBy([c, d], TaggedMz) == [c, d];
    assert SortBy([b, c, d], TaggedMz) == [b, c, d];
  }

  lemma SingletonMeans(a: TaggedPeak)
    ensures Mean(Mzs([a])) == a.peak.mz && Mean(Rts([a])) == a.peak.retentionTime
  {
    assert Mzs([a]) == [a.peak.mz] && [a.peak.mz][..0] == [];
    assert Rts([a]) == [a.peak.retentionTime] && [a.peak.retentionTime][..0] == [];
    assert Sum([a.peak.mz]) == a.peak.mz;
    assert Sum([a.peak.retentionTime]) == a.peak.retentionTime;
  }

  /** Two equal peaks have the mean of either. */
  lemma PairMeans(a: TaggedPeak, b: TaggedPeak)
    requires a.peak.mz == b.peak.mz && a.peak.retentionTime == b.peak.retentionTime
    ensures Mean(Mzs([a, b])) == a.peak.mz && Mean(Rts([a, b])) == a.peak.retentionTime
  {
    SingletonMeans(a);
    assert Mzs([a, b])[..1] == Mzs([a]);
    assert Rts([a, b])[..1] == Rts([a]);
  }

  lemma TwoPairRuns(a: TaggedPeak, b: TaggedPeak, c: TaggedPeak, d: TaggedPeak)
    requires a.peak.mz == b.peak.mz == c.peak.mz == d.peak.mz
    requires a.peak.retentionTime == b.peak.retentionTime == 1.0
    requires c.peak.retentionTime == d.peak.retentionTime == 10.0
    ensures Runs([a, b, c, d], 0.01, 0.5) == [[a, b], [c, d]]
  {
    SingletonMeans(a);
    SingletonMeans(c);
    PairMeans(a, b);
    assert [a, b, c, d][1..] == [b, c, d] && [b, c, d][1..] == [c, d] && [c, d][1..] == [d] && [d][1..] == [];
    assert Joins([a], b, 0.01, 0.5) && [a] + [b] == [a, b];
    assert !Joins([a, b], c, 0.01, 0.5);
    assert Joins([c], d, 0.01, 0.5) && [c] + [d] == [c, d];
    assert RunsFrom([c, d], [], 0.01, 0.5) == [[c, d]];
    assert RunsFrom([c], [d], 0.01, 0.5) == [[c, d]];
    assert RunsFrom([a, b], [c, d], 0.01, 0.5) == [[a, b], [c, d]];
  }

  /**
   * Two features can share an id: the same m/z at two retention times far
   * apart makes two runs of two peaks each, and the id knows only the count
   * and the first m/z.
   */
  lemma FeatureIdsCanCollide()
    ensures var a := TaggedPeak(Peak(100.0, 3000.0, 1.0, 0, 1, 0.0, 0.0), 0, "a");
      var b := TaggedPeak(Peak(100.0, 3000.0, 1.0, 0, 1, 0.0, 0.0), 1, "b");
      var c := TaggedPeak(Peak(100.0, 3000.0, 10.0, 0, 1, 0.0, 0.0), 2, "c");
      var d := TaggedPeak(Peak(100.0, 3000.0, 10.0, 0, 1, 0.0, 0.0), 3, "d");
      var fs := AlignedFeatures([a, b, c, d], 0.01, 0.5);
      |fs| == 2 && fs[0].id == fs[1].id == FeatureId(2, 100.0) && fs[0].rt == 1.0 && fs[1].rt == 10.0
  {
    var a := TaggedPeak(Peak(100.0, 3000.0, 1.0, 0, 1, 0.0, 0.0), 0, "a");
    var b := TaggedPeak(Peak(100.0, 3000.0, 1.0, 0, 1, 0.0, 0.0), 1, "b");
    var c := TaggedPeak(Peak(100.0, 3000.0, 10.0, 0, 1, 0.0, 0.0), 2, "c");
    var d := TaggedPeak(Peak(100.0, 3000.0, 10.0, 0, 1, 0.0, 0.0), 3, "d");
    SameMzKeepsOrder(a, b, c, d);
    TwoPairRuns(a, b, c, d);
    PairMeans(a, b);
    PairMeans(c, d);
    var g1, g2 := [a, b], [c, d];
    var none: seq<seq<TaggedPeak>> := [];
    assert [g1, g2][..1] == [g1] && [g1][..0] == none;
    assert KeptFeatures([g1]) == [CreateFeature(g1)];
    assert KeptFeatures([g1, g2]) == [CreateFeature(g1), CreateFeature(g2)];
  }
}
