/**
 * The records that flow through the mass-spectrometry pipeline, and the sample
 * record that each stage updates in place.
 *
 * Keys that a request may omit are `Option`s; the stage that reads them
 * supplies the same default as the service does.
 */
module MsTypes {

  datatype Option<T> = None | Some(value: T)
  {
    /** The value if present, else the default, as a dictionary lookup with a default does. */
    function GetOr(default: T): T
    {
      match this
      case Some(v) => v
      case None => default
    }
  }

  /** One (m/z, intensity) observation of a raw spectrum. */
  datatype RawPeak = RawPeak(mz: real, intensity: real)

  /** A raw spectrum as it arrives in a request. */
  datatype Spectrum = Spectrum(
    retentionTime: Option<real>,
    msLevel: Option<nat>,
    scanNumber: Option<int>,
    peaks: Option<seq<RawPeak>>)

  /** A peak emitted by peak detection, annotated with its signal-to-noise ratio. */
  datatype Peak = Peak(
    mz: real,
    intensity: real,
    retentionTime: real,
    scanNumber: int,
    msLevel: nat,
    snr: real,
    noiseLevel: real)

  /** A detected peak copied into the alignment pool, tagged with the sample it came from. */
  datatype TaggedPeak = TaggedPeak(peak: Peak, sampleIndex: nat, sampleName: string)

  /**
   * The generated id of an aligned feature, `feature_<count>_<first m/z>`, kept
   * as the two values it is formatted from.
   */
  datatype FeatureId = FeatureId(peakCount: nat, firstMz: real)

  /** A per-sample representative of a feature; `featureId` is absent on peaks that never went through alignment. */
  datatype AlignedPeak = AlignedPeak(tagged: TaggedPeak, featureId: Option<FeatureId>)
  {
    function Mz(): real { tagged.peak.mz }
    function RetentionTime(): real { tagged.peak.retentionTime }
    function Intensity(): real { tagged.peak.intensity }
  }

  /**
   * The key of a row of the statistics feature table: the aligned peak's
   * feature id, or `mz_<m/z>` for a peak without one.
   */
  datatype FeatureKey = ByFeatureId(id: FeatureId) | ByMz(mz: real)

  /** One feature's group comparison, before multiple-testing correction. */
  datatype TestedFeature = TestedFeature(
    featureKey: FeatureKey,
    mz: real,
    rt: real,
    pValue: real,
    tStatistic: real,
    foldChange: real,
    log2FoldChange: real,
    significant: bool,
    group1Mean: real,
    group2Mean: real,
    group1Std: real,
    group2Std: real)

  /** A tested feature with its Benjamini-Hochberg adjusted p-value and rejection flag attached. */
  datatype StatResult = StatResult(
    tested: TestedFeature,
    pValueCorrected: real,
    significantCorrected: bool)

  /** The processing-status tag of a sample; `Other` is whatever tag it carried before. */
  datatype Status = Other(tag: string) | PeaksDetected | Aligned | StatisticsCompleted

  /** The named parameters of one request; absent ones take the defaults below. */
  datatype Params = Params(
    noiseThreshold: Option<real>,
    mzTolerance: Option<real>,
    rtTolerance: Option<real>,
    pValueThreshold: Option<real>)

  const DefaultNoiseThreshold: real := 1000.0
  const DefaultMzTolerance: real := 0.01
  const DefaultRtTolerance: real := 0.5
  const DefaultPValueThreshold: real := 0.05

  /**
   * A sample record. `fileName` identifies the sample across the whole
   * pipeline; the stages write the peak lists, the results and the status.
   */
  class Sample {
    const fileName: string
    const spectra: seq<Spectrum>
    var detectedPeaks: seq<Peak>
    var alignedPeaks: seq<AlignedPeak>
    var statisticalResults: seq<StatResult>
    var processingStatus: Status

    constructor (fileName: string, spectra: seq<Spectrum>, processingStatus: Status)
      ensures this.fileName == fileName && this.spectra == spectra
      ensures detectedPeaks == [] && alignedPeaks == [] && statisticalResults == []
      ensures this.processingStatus == processingStatus
    {
      this.fileName := fileName;
      this.spectra := spectra;
      detectedPeaks := [];
      alignedPeaks := [];
      statisticalResults := [];
      this.processingStatus := processingStatus;
    }
  }
}
