/**
 * Peak detection: each spectrum is sorted by m/z, spectra with too few peaks
 * are skipped, and the peaks at or above a noise-adaptive minimum intensity
 * are kept and annotated with their signal-to-noise ratio.
 */
module PeakDetector {
  import opened MsTypes
  import opened RealSeqs
  import opened Sorting
  import opened NoiseEstimator

  /** A spectrum needs more than this many peaks to be filtered at all. */
  const MinSpectrumPeaks: nat := 10
  const NoiseMultiplier: real := 3.0
  const DefaultRetentionTime: real := 0.0
  const DefaultMsLevel: nat := 1
  const DefaultScanNumber: int := 0

  function Mz(p: RawPeak): real { p.mz }

  /** The intensities of a spectrum, in peak order. */
  function Intensities(s: seq<RawPeak>): seq<real>
  {
    if s == [] then [] else [s[0].intensity] + Intensities(s[1..])
  }

  /** The larger of the configured threshold and three times the noise, the threshold on ties. */
  function MinIntensity(noiseThreshold: real, noise: real): real
  {
    Max(noiseThreshold, noise * NoiseMultiplier)
  }

  /** The record emitted for a raw peak that passes the filter. */
  function Annotate(p: RawPeak, noise: real, rt: real, scan: int, level: nat): Peak
  {
    Peak(p.mz, p.intensity, rt, scan, level, p.intensity / Max(noise, 1.0), noise)
  }

  /** The loop over one sorted spectrum: the passing peaks, annotated, in spectrum order. */
  function Kept(sorted: seq<RawPeak>, minIntensity: real, noise: real, rt: real, scan: int, level: nat): seq<Peak>
  {
    if sorted == [] then []
    else
      var rest := Kept(sorted[..|sorted| - 1], minIntensity, noise, rt, scan, level);
      var p := sorted[|sorted| - 1];
      if p.intensity >= minIntensity then rest + [Annotate(p, noise, rt, scan, level)] else rest
  }

  /** The positions of `sorted` whose peak passes the filter, in increasing order. */
  function KeptPositions(sorted: seq<RawPeak>, minIntensity: real): seq<nat>
  {
    if sorted == [] then []
    else
      var rest := KeptPositions(sorted[..|sorted| - 1], minIntensity);
      if sorted[|sorted| - 1].intensity >= minIntensity then rest + [|sorted| - 1] else rest
  }

  /** The peaks one spectrum contributes. */
  function SpectrumPeaks(sp: Spectrum, noiseThreshold: real): seq<Peak>
  {
    if sp.peaks.None? || sp.peaks.value == [] then []
    else
      var sorted := SortBy(sp.peaks.value, Mz);
      if |sorted| > MinSpectrumPeaks then
        var noise := NoiseLevel(Intensities(sorted));
        Kept(sorted, MinIntensity(noiseThreshold, noise), noise,
             sp.retentionTime.GetOr(DefaultRetentionTime),
             sp.scanNumber.GetOr(DefaultScanNumber),
             sp.msLevel.GetOr(DefaultMsLevel))
      else []
  }

  /** The detected peaks of a sample: each spectrum's peaks, in spectrum order. */
  function DetectedPeaks(spectra: seq<Spectrum>, noiseThreshold: real): seq<Peak>
  {
    if spectra == [] then []
    else DetectedPeaks(spectra[..|spectra| - 1], noiseThreshold) + SpectrumPeaks(spectra[|spectra| - 1], noiseThreshold)
  }

  // ---------------------------------------------------------------------------
  // Properties of the filter

  ghost predicate StrictlyIncreasing(idx: seq<nat>)
  {
    forall i, j :: 0 <= i < j < |idx| ==> idx[i] < idx[j]
  }

  /**
   * The kept peaks are an order-preserving selection of the sorted spectrum:
   * exactly the positions whose intensity reaches the minimum, each annotated.
   */
  lemma {:induction false} KeptSelection(sorted: seq<RawPeak>, minIntensity: real, noise: real, rt: real, scan: int, level: nat)
    ensures var idx := KeptPositions(sorted, minIntensity);
      && |idx| == |Kept(sorted, minIntensity, noise, rt, scan, level)|
      && StrictlyIncreasing(idx)
      && (forall k :: 0 <= k < |idx| ==>
            (idx[k] < |sorted| && Kept(sorted, minIntensity, noise, rt, scan, level)[k] == Annotate(sorted[idx[k]], noise, rt, scan, level)))
      && (forall j :: 0 <= j < |sorted| ==> (j in idx <==> sorted[j].intensity >= minIntensity))
  {
    if sorted != [] {
      var init := sorted[..|sorted| - 1];
      KeptSelection(init, minIntensity, noise, rt, scan, level);
      var idx0 := KeptPositions(init, minIntensity);
      assert forall k :: 0 <= k < |idx0| ==> init[idx0[k]] == sorted[idx0[k]];
    }
  }

  /** Every kept peak reaches the minimum and carries the spectrum's annotations. */
  lemma KeptSound(sorted: seq<RawPeak>, minIntensity: real, noise: real, rt: real, scan: int, level: nat)
    ensures forall p :: p in Kept(sorted, minIntensity, noise, rt, scan, level) ==>
      && p.intensity >= minIntensity
      && p.snr == p.intensity / Max(noise, 1.0)
      && p.noiseLevel == noise && p.retentionTime == rt && p.scanNumber == scan && p.msLevel == level
  {
    KeptSelection(sorted, minIntensity, noise, rt, scan, level);
    var out := Kept(sorted, minIntensity, noise, rt, scan, level);
    forall p | p in out
      ensures p.intensity >= minIntensity && p.snr == p.intensity / Max(noise, 1.0)
      ensures p.noiseLevel == noise && p.retentionTime == rt && p.scanNumber == scan && p.msLevel == level
    {
      var k :| 0 <= k < |out| && out[k] == p;
    }
  }

  /** Kept peaks of a spectrum sorted by m/z come out in ascending m/z. */
  lemma KeptAscending(sorted: seq<RawPeak>, minIntensity: real, noise: real, rt: real, scan: int, level: nat)
    requires SortedBy(sorted, Mz)
    ensures var out := Kept(sorted, minIntensity, noise, rt, scan, level);
      forall i, j :: 0 <= i < j < |out| ==> out[i].mz <= out[j].mz
  {
    KeptSelection(sorted, minIntensity, noise, rt, scan, level);
  }

  lemma {:induction false} IntensitiesOfInsert(x: RawPeak, s: seq<RawPeak>)
    ensures multiset(Intensities(InsertBy(x, s, Mz))) == multiset{x.intensity} + multiset(Intensities(s))
  {
    if s != [] && Mz(x) > Mz(s[0]) {
      IntensitiesOfInsert(x, s[1..]);
      assert InsertBy(x, s, Mz) == [s[0]] + InsertBy(x, s[1..], Mz);
    }
  }

  lemma {:induction false} IntensitiesOfSort(s: seq<RawPeak>)
    ensures multiset(Intensities(SortBy(s, Mz))) == multiset(Intensities(s))
  {
    if s != [] {
      IntensitiesOfSort(s[1..]);
      IntensitiesOfInsert(s[0], SortBy(s[1..], Mz));
    }
  }

  /** Sorting a spectrum before the estimate leaves the estimate unchanged. */
  lemma NoiseOfSortedSpectrum(s: seq<RawPeak>)
    ensures NoiseLevel(Intensities(SortBy(s, Mz))) == NoiseLevel(Intensities(s))
  {
    IntensitiesOfSort(s);
    NoiseLevelOrderFree(Intensities(SortBy(s, Mz)), Intensities(s));
  }

  /**
   * What detection promises about one spectrum: nothing from a spectrum with
   * a missing peak list or with at most 10 peaks; otherwise every emitted peak
   * reaches max(noise_threshold, 3 * noise) where noise is the estimate over the
   * spectrum's intensities, and carries that noise, its SNR, the spectrum's
   * retention time, scan number and MS level.
   */
  lemma SpectrumPeaksSpec(sp: Spectrum, noiseThreshold: real)
    ensures sp.peaks.None? || |sp.peaks.value| <= MinSpectrumPeaks ==> SpectrumPeaks(sp, noiseThreshold) == []
    ensures sp.peaks.Some? ==>
      var noise := NoiseLevel(Intensities(sp.peaks.value));
      forall p :: p in SpectrumPeaks(sp, noiseThreshold) ==>
        && p.intensity >= MinIntensity(noiseThreshold, noise)
        && p.snr == p.intensity / Max(noise, 1.0)
        && p.noiseLevel == noise
        && p.retentionTime == sp.retentionTime.GetOr(DefaultRetentionTime)
        && p.scanNumber == sp.scanNumber.GetOr(DefaultScanNumber)
        && p.msLevel == sp.msLevel.GetOr(DefaultMsLevel)
  {
    if sp.peaks.Some? && sp.peaks.value != [] {
      SortByFacts(sp.peaks.value, Mz);
      if |sp.peaks.value| > MinSpectrumPeaks {
        SpectrumPeaksFiltered(sp, noiseThreshold);
        NoiseOfSortedSpectrum(sp.peaks.value);
      }
    }
  }

  /** A spectrum with enough peaks: its output is the filter over the sorted peaks, with the estimate over them. */
  lemma SpectrumPeaksFiltered(sp: Spectrum, noiseThreshold: real)
    requires sp.peaks.Some? && |SortBy(sp.peaks.value, Mz)| > MinSpectrumPeaks
    ensures var noise := NoiseLevel(Intensities(SortBy(sp.peaks.value, Mz)));
      forall p :: p in SpectrumPeaks(sp, noiseThreshold) ==>
        && p.intensity >= MinIntensity(noiseThreshold, noise)
        && p.snr == p.intensity / Max(noise, 1.0)
        && p.noiseLevel == noise
        && p.retentionTime == sp.retentionTime.GetOr(DefaultRetentionTime)
        && p.scanNumber == sp.scanNumber.GetOr(DefaultScanNumber)
        && p.msLevel == sp.msLevel.GetOr(DefaultMsLevel)
  {
    var sorted := SortBy(sp.peaks.value, Mz);
    var noise := NoiseLevel(Intensities(sorted));
    var rt, scan, level := sp.retentionTime.GetOr(DefaultRetentionTime), sp.scanNumber.GetOr(DefaultScanNumber), sp.msLevel.GetOr(DefaultMsLevel);
    KeptSound(sorted, MinIntensity(noiseThreshold, noise), noise, rt, scan, level);
  }

  /** A spectrum's peaks come out in ascending m/z, whatever the order of its raw peaks. */
  lemma SpectrumPeaksAscending(sp: Spectrum, noiseThreshold: real)
    ensures var out := SpectrumPeaks(sp, noiseThreshold);
      forall i, j :: 0 <= i < j < |out| ==> out[i].mz <= out[j].mz
  {
    if sp.peaks.Some? && sp.peaks.value != [] {
      var sorted := SortBy(sp.peaks.value, Mz);
      SortByFacts(sp.peaks.value, Mz);
      var noise := NoiseLevel(Intensities(sorted));
      var rt, scan, level := sp.retentionTime.GetOr(DefaultRetentionTime), sp.scanNumber.GetOr(DefaultScanNumber), sp.msLevel.GetOr(DefaultMsLevel);
      var minI := MinIntensity(noiseThreshold, noise);
      KeptAscending(sorted, minI, noise, rt, scan, level);
      assert forall i, j :: 0 <= i < j < |Kept(sorted, minI, noise, rt, scan, level)| ==>
        Kept(sorted, minI, noise, rt, scan, level)[i].mz <= Kept(sorted, minI, noise, rt, scan, level)[j].mz;
    }
  }

  /** Every detected peak of a sample was emitted for one of its spectra. */
  lemma {:induction false} DetectedPeaksOrigin(spectra: seq<Spectrum>, noiseThreshold: real)
    ensures forall p :: p in DetectedPeaks(spectra, noiseThreshold) ==>
      exists i :: 0 <= i < |spectra| && p in SpectrumPeaks(spectra[i], noiseThreshold)
  {
    if spectra != [] {
      var init := spectra[..|spectra| - 1];
      DetectedPeaksOrigin(init, noiseThreshold);
      forall p | p in DetectedPeaks(spectra, noiseThreshold)
        ensures exists i :: 0 <= i < |spectra| && p in SpectrumPeaks(spectra[i], noiseThreshold)
      {
        if p in DetectedPeaks(init, noiseThreshold) {
          var i :| 0 <= i < |init| && p in SpectrumPeaks(init[i], noiseThreshold);
          assert spectra[i] == init[i];
        } else {
          assert p in SpectrumPeaks(spectra[|spectra| - 1], noiseThreshold);
        }
      }
    }
  }

  /** The spectra contribute in order: detecting over two runs of spectra is detecting over each in turn. */
  lemma {:induction false} DetectedPeaksConcat(a: seq<Spectrum>, b: seq<Spectrum>, noiseThreshold: real)
    ensures DetectedPeaks(a + b, noiseThreshold) == DetectedPeaks(a, noiseThreshold) + DetectedPeaks(b, noiseThreshold)
    decreases |b|
  {
    if b != [] {
      var n := |b| - 1;
      DetectedPeaksConcat(a, b[..n], noiseThreshold);
      assert (a + b)[..|a + b| - 1] == a + b[..n];
    } else {
      assert a + b == a;
    }
  }

  // ---------------------------------------------------------------------------
  // The detection loops

  /** The inner loop: filter one sorted spectrum. */
  method FilterSpectrum(sorted: seq<RawPeak>, minIntensity: real, noise: real, rt: real, scan: int, level: nat)
    returns (filtered: seq<Peak>)
    ensures filtered == Kept(sorted, minIntensity, noise, rt, scan, level)
  {
    filtered := [];
    var i := 0;
    while i < |sorted|
      invariant 0 <= i <= |sorted|
      invariant filtered == Kept(sorted[..i], minIntensity, noise, rt, scan, level)
    {
      var p := sorted[i];
      assert sorted[..i + 1][..i] == sorted[..i];
      if p.intensity >= minIntensity {
        var snr := p.intensity / Max(noise, 1.0);
        filtered := filtered + [Peak(p.mz, p.intensity, rt, scan, level, snr, noise)];
      }
      i := i + 1;
    }
    assert sorted[..|sorted|] == sorted;
  }

  /** The body of the outer loop: sort one spectrum, estimate its noise and filter it. */
  method DetectInSpectrum(sp: Spectrum, noiseThreshold: real) returns (filtered: seq<Peak>)
    ensures filtered == SpectrumPeaks(sp, noiseThreshold)
  {
    filtered := [];
    if sp.peaks.Some? && sp.peaks.value != [] {
      var sorted := SortBy(sp.peaks.value, Mz);
      if |sorted| > MinSpectrumPeaks {
        var noise := NoiseLevel(Intensities(sorted));
        var minIntensity := MinIntensity(noiseThreshold, noise);
        filtered := FilterSpectrum(sorted, minIntensity, noise,
          sp.retentionTime.GetOr(DefaultRetentionTime),
          sp.scanNumber.GetOr(DefaultScanNumber),
          sp.msLevel.GetOr(DefaultMsLevel));
      }
    }
  }

  /** The outer loop: every spectrum of a sample, in order. */
  method DetectInSpectra(spectra: seq<Spectrum>, noiseThreshold: real) returns (detected: seq<Peak>, totalPeaks: nat)
    ensures detected == DetectedPeaks(spectra, noiseThreshold)
    ensures totalPeaks == |detected|
  {
    detected := [];
    totalPeaks := 0;
    var i := 0;
    while i < |spectra|
      invariant 0 <= i <= |spectra|
      invariant detected == DetectedPeaks(spectra[..i], noiseThreshold)
      invariant totalPeaks == |detected|
    {
      var filtered := DetectInSpectrum(spectra[i], noiseThreshold);
      assert spectra[..i + 1][..i] == spectra[..i];
      detected := detected + filtered;
      totalPeaks := totalPeaks + |filtered|;
      i := i + 1;
    }
    assert spectra[..|spectra|] == spectra;
  }

  /**
   * Peak detection for one sample: replaces its detected peaks, marks it
   * `peaks_detected` and returns how many peaks were detected.
   */
  method DetectPeaks(sample: Sample, params: Params) returns (peaksDetected: nat)
    modifies sample
    ensures sample.detectedPeaks == DetectedPeaks(sample.spectra, params.noiseThreshold.GetOr(DefaultNoiseThreshold))
    ensures peaksDetected == |sample.detectedPeaks|
    ensures sample.processingStatus == PeaksDetected
    ensures sample.alignedPeaks == old(sample.alignedPeaks)
    ensures sample.statisticalResults == old(sample.statisticalResults)
  {
    var detected, totalPeaks := DetectInSpectra(sample.spectra, params.noiseThreshold.GetOr(DefaultNoiseThreshold));
    sample.detectedPeaks := detected;
    sample.processingStatus := PeaksDetected;
    peaksDetected := totalPeaks;
  }
}
