/**
 * The per-spectrum noise floor: a tenth of the median positive intensity,
 * never below 50, with a fixed default for spectra too small to estimate from.
 */
module NoiseEstimator {
  import opened RealSeqs
  import opened Sorting
  import opened MsTypes

  const MinPeaksForEstimate: nat := 10
  const DefaultNoise: real := 100.0
  const NoiseFloor: real := 50.0
  const NoiseScale: real := 0.1

  function Identity(x: real): real { x }

  /** The positive values, in order. */
  function Positive(s: seq<real>): seq<real>
  {
    if s == [] then []
    else if s[0] > 0.0 then [s[0]] + Positive(s[1..])
    else Positive(s[1..])
  }

  /** `np.median` of a non-empty sequence: the middle value, or the mean of the two middle values. */
  function Median(s: seq<real>): real
    requires |s| > 0
  {
    SortByFacts(s, Identity);
    var t := SortBy(s, Identity);
    var h := |t| / 2;
    if |t| % 2 == 1 then t[h] else (t[h - 1] + t[h]) / 2.0
  }

  /**
   * The noise floor as the rest of the model uses it. When no intensity is
   * positive it returns the default, as the service does when an estimate fails.
   */
  function NoiseLevel(intensities: seq<real>): (noise: real)
    ensures noise >= NoiseFloor
  {
    if |intensities| < MinPeaksForEstimate then DefaultNoise
    else
      var pos := Positive(intensities);
      if pos == [] then DefaultNoise else Max(Median(pos) * NoiseScale, NoiseFloor)
  }

  /**
   * The estimate exactly as written: with no positive intensity the median of
   * an empty array is NaN, and `max(nan, 50.0)` keeps the NaN. `None` is that NaN.
   */
  function NoiseLevelAsWritten(intensities: seq<real>): (noise: Option<real>)
    ensures noise.Some? ==> noise.value >= NoiseFloor
    ensures |intensities| < MinPeaksForEstimate ==> noise == Some(DefaultNoise)
  {
    if |intensities| < MinPeaksForEstimate then Some(DefaultNoise)
    else
      var pos := Positive(intensities);
      if pos == [] then None else Some(Max(Median(pos) * NoiseScale, NoiseFloor))
  }

  /** Eleven zero intensities pass the size test and leave the estimate without a value. */
  lemma AsWrittenNoFloorOnSilentSpectrum()
    ensures NoiseLevelAsWritten(seq(11, i => 0.0)) == None
  {
    PositiveOfSilent(seq(11, i => 0.0));
  }

  /** Where the estimate as written has a value, the corrected estimate is that value. */
  lemma {:induction false} NoiseLevelAgreesWithAsWritten(intensities: seq<real>)
    ensures NoiseLevelAsWritten(intensities).Some? ==> NoiseLevelAsWritten(intensities).value == NoiseLevel(intensities)
    ensures NoiseLevelAsWritten(intensities).None? <==> |intensities| >= MinPeaksForEstimate && forall i :: 0 <= i < |intensities| ==> intensities[i] <= 0.0
  {
    PositiveMembers(intensities);
    if Positive(intensities) != [] {
      assert Positive(intensities)[0] in Positive(intensities);
    } else {
      forall i | 0 <= i < |intensities| ensures intensities[i] <= 0.0 {
        assert intensities[i] in intensities;
      }
    }
  }

  lemma {:induction false} PositiveMembers(s: seq<real>)
    ensures forall x :: x in Positive(s) <==> x in s && x > 0.0
  {
    if s != [] {
      PositiveMembers(s[1..]);
      assert s == [s[0]] + s[1..];
    }
  }

  lemma {:induction false} PositiveOfSilent(s: seq<real>)
    requires forall i :: 0 <= i < |s| ==> s[i] <= 0.0
    ensures Positive(s) == []
  {
    if s != [] {
      PositiveOfSilent(s[1..]);
    }
  }

  lemma {:induction false} PositiveCount(s: seq<real>, x: real)
    ensures multiset(Positive(s))[x] == if x > 0.0 then multiset(s)[x] else 0
  {
    if s != [] {
      PositiveCount(s[1..], x);
      assert s == [s[0]] + s[1..];
    }
  }

  lemma PositivePermutation(a: seq<real>, b: seq<real>)
    requires multiset(a) == multiset(b)
    ensures multiset(Positive(a)) == multiset(Positive(b))
  {
    forall x ensures multiset(Positive(a))[x] == multiset(Positive(b))[x] {
      PositiveCount(a, x);
      PositiveCount(b, x);
    }
  }

  lemma SortedByIdentityAscending(t: seq<real>)
    requires SortedBy(t, Identity)
    ensures Ascending(t)
  {
    forall i, j | 0 <= i < j < |t| ensures t[i] <= t[j] {
      assert Identity(t[i]) <= Identity(t[j]);
    }
  }

  /** Two orderings of the same values sort to the same sequence. */
  lemma SortedAgree(a: seq<real>, b: seq<real>)
    requires multiset(a) == multiset(b)
    ensures SortBy(a, Identity) == SortBy(b, Identity)
  {
    SortByFacts(a, Identity);
    SortByFacts(b, Identity);
    SortedByIdentityAscending(SortBy(a, Identity));
    SortedByIdentityAscending(SortBy(b, Identity));
    AscendingUnique(SortBy(a, Identity), SortBy(b, Identity));
  }

  lemma MedianPermutation(a: seq<real>, b: seq<real>)
    requires |a| > 0 && multiset(a) == multiset(b)
    ensures |b| > 0 && Median(a) == Median(b)
  {
    assert |a| == |multiset(a)| == |multiset(b)| == |b|;
    SortedAgree(a, b);
  }

  /** The estimate depends only on which intensities occur, not on their order. */
  lemma NoiseLevelOrderFree(a: seq<real>, b: seq<real>)
    requires multiset(a) == multiset(b)
    ensures NoiseLevel(a) == NoiseLevel(b)
  {
    assert |a| == |multiset(a)| == |multiset(b)| == |b|;
    PositivePermutation(a, b);
    var pa, pb := Positive(a), Positive(b);
    if pa != [] {
      MedianPermutation(pa, pb);
    } else {
      assert |multiset(pb)| == 0;
    }
  }

  /** A median lies within any bounds of its elements. */
  lemma MedianWithin(s: seq<real>, lo: real, hi: real)
    requires |s| > 0 && Bounded(s, lo, hi)
    ensures lo <= Median(s) <= hi
  {
    SortByFacts(s, Identity);
    var t := SortBy(s, Identity);
    forall i | 0 <= i < |t| ensures lo <= t[i] <= hi {
      assert t[i] in multiset(s);
      var j :| 0 <= j < |s| && s[j] == t[i];
    }
  }

  /** When estimated, the floor is at most a tenth of the largest intensity, or 50 if that is larger. */
  lemma NoiseLevelWithin(intensities: seq<real>, hi: real)
    requires |intensities| >= MinPeaksForEstimate
    requires forall i :: 0 <= i < |intensities| ==> intensities[i] <= hi
    requires exists i :: 0 <= i < |intensities| && intensities[i] > 0.0
    ensures NoiseLevel(intensities) <= Max(hi * NoiseScale, NoiseFloor)
  {
    var pos := Positive(intensities);
    PositiveMembers(intensities);
    var k :| 0 <= k < |intensities| && intensities[k] > 0.0;
    assert intensities[k] in pos;
    forall i | 0 <= i < |pos| ensures 0.0 <= pos[i] <= hi {
      assert pos[i] in pos;
      var j :| 0 <= j < |intensities| && intensities[j] == pos[i];
    }
    MedianWithin(pos, 0.0, hi);
    assert Median(pos) * NoiseScale <= hi * NoiseScale;
  }
}
