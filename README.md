# Mass-spectrometry processing core, modelled in Dafny

The service's `MSProcessor` runs a forward pipeline over sample records. This project models that pipeline, proves what each stage computes, and proves the properties the stages promise.

1. **Noise floor** (`NoiseEstimator`). For one spectrum the noise floor is a tenth of the median positive intensity, and at least 50. A spectrum with fewer than 10 peaks gets 100.
2. **Peak detection** (`PeakDetector`). These steps run spectrum by spectrum:
   - A spectrum with no peak list, an empty one, or 10 peaks or fewer contributes nothing.
   - The spectrum is sorted by m/z.
   - A peak is kept when its intensity is at least the larger of the noise threshold and three times the noise floor.
   - Each kept peak carries its signal-to-noise ratio, the noise floor, and the spectrum's retention time, scan number and MS level.
   - The sample's detected peaks are the kept peaks of all spectra, in order. The sample's status becomes `peaks_detected`.
3. **Alignment** (`FeatureAligner`):
   - The detected peaks of all samples are pooled, each tagged with its sample's position and file name.
   - The pool is sorted by m/z and cut by one greedy pass. A peak joins the open group when it is within the m/z tolerance of the group's mean m/z and within the RT tolerance of its mean retention time.
   - A group of two or more peaks becomes a feature. Its id is built from the peak count and the first m/z. Its m/z, RT and mean intensity are means over its peaks, and its sample count is the number of distinct sample names.
   - Every sample then gets, for each feature holding one of its peaks, its most intense peak there (the first among ties), stamped with the feature's id. Its status becomes `aligned`.
   - With no detected peak anywhere, nothing changes.
4. **Statistics** (`StatisticalEngine`):
   - The aligned peaks of all samples fill a feature table keyed by feature id. The first peak of a key sets the row's m/z and RT; later peaks overwrite the intensity of their sample and append the sample to the row's sample list.
   - The samples are split by position: the first `n / 2` against the rest.
   - A row is tested only when both groups have at least two samples. A sample missing from the row counts as intensity 0.
   - The fold change is `mean2 / mean1` when `mean1 > 0`, else 1. The log fold change is 0 when the fold change is not positive. The raw flag is `p < threshold`.
   - Result `i` gets entry `i` of the multiple-testing correction.
   - Every sample gets the same result list and the status `statistics_completed`. The stage returns the number of results and how many of them are significant after correction.

Modules:
- `MsTypes` holds the records (raw peaks, spectra, detected, tagged and aligned peaks, feature ids, results, request parameters) and the `Sample` class. The stages update a `Sample`'s fields in place.
- `RealSeqs` holds sum, mean, absolute value and two-argument maximum (`max(a, b)`: the first argument unless the second is larger).
- `Sorting` is a stable sort by a real key. It stands for `sortByPosition` and `list.sort`.
- `GreedyPass` is the single left-to-right grouping pass for any join rule, with its partition and uniqueness lemmas. `FeatureAligner.JoinRule` instantiates it with the tolerance rule.

The stages that work by loops are methods with loop invariants, proved equal to the specification functions that the lemmas are about.

The service keeps a group of two **peaks**, even when both come from one sample; a comment there says "multiple samples". The model follows the code, and `FeatureAligner.OneSampleFeatureKept` shows such a feature with sample count 1.

Feature ids are not unique. Two groups with the same peak count and first m/z, for example the same m/z at distant retention times, get the same id (`FeatureAligner.FeatureIdsCanCollide`). The statistics table then merges their peaks into one row: the first one fixes m/z and RT, and the last one written wins a sample's intensity (`StatisticalEngine.TableRowOrigin`, `StatisticalEngine.TableRowIntensity`).

## Model

| member | source | states |
|---|---|---|
| `NoiseEstimator.NoiseLevel` | supabase/functions/ms-processing/python_service.py:134-153 | the noise floor is never below 50.0 |
| `NoiseEstimator.NoiseLevelAsWritten` | supabase/functions/ms-processing/python_service.py:136-149 | the estimate as written: fewer than 10 intensities give exactly 100.0, and any value it yields is at least 50.0 (`None` stands for NaN) |
| `NoiseEstimator.AsWrittenNoFloorOnSilentSpectrum` | supabase/functions/ms-processing/python_service.py:146-149 | eleven zero intensities pass the size test and leave the estimate as written with no value (NaN) |
| `NoiseEstimator.NoiseLevelAgreesWithAsWritten` | supabase/functions/ms-processing/python_service.py:136-153 | wherever the code as written yields a value, the model's floor equals it; it yields none exactly when there are at least 10 intensities and none is positive |
| `NoiseEstimator.PositiveMembers` | supabase/functions/ms-processing/python_service.py:147 | the positive selection holds exactly the positive intensities |
| `NoiseEstimator.PositivePermutation` | supabase/functions/ms-processing/python_service.py:147 | reordering the intensities only reorders their positive selection |
| `NoiseEstimator.MedianPermutation` | supabase/functions/ms-processing/python_service.py:147 | the median depends only on the multiset of values |
| `NoiseEstimator.NoiseLevelOrderFree` | supabase/functions/ms-processing/python_service.py:141-149 | two spectra with the same intensities in any order have the same noise floor |
| `NoiseEstimator.MedianWithin` | supabase/functions/ms-processing/python_service.py:147 | the median lies within any lower and upper bound of the values |
| `NoiseEstimator.NoiseLevelWithin` | supabase/functions/ms-processing/python_service.py:146-149 | with at least 10 intensities, some positive and all at most `hi`, the floor is at most `max(hi * 0.1, 50.0)` |
| `RealSeqs.Max` | supabase/functions/ms-processing/python_service.py:149 | `max(a, b)` is at least both arguments and is one of them |
| `RealSeqs.MeanBounds` | supabase/functions/ms-processing/python_service.py:238-240 | a mean lies within any bounds of the values averaged |
| `Sorting.SortByFacts` | supabase/functions/ms-processing/python_service.py:91 | the sort by key is ascending in the key and a permutation of its input |
| `Sorting.SortByStable` | supabase/functions/ms-processing/python_service.py:207 | for every key value, the elements with that key keep their input order |
| `Sorting.AscendingUnique` | supabase/functions/ms-processing/python_service.py:147 | two ascending arrangements of the same multiset of values are equal, so the median is well defined |
| `PeakDetector.KeptSelection` | supabase/functions/ms-processing/python_service.py:99-113 | the filtered peaks are the annotated peaks at strictly increasing positions of the sorted spectrum, and a position is selected exactly when its intensity reaches the minimum |
| `PeakDetector.KeptSound` | supabase/functions/ms-processing/python_service.py:100-113 | every filtered peak reaches the minimum intensity, has `snr == intensity / max(noise, 1.0)`, and carries the noise floor, RT, scan number and MS level given |
| `PeakDetector.KeptAscending` | supabase/functions/ms-processing/python_service.py:91-113 | the filtered peaks of a sorted spectrum are in ascending m/z order |
| `PeakDetector.IntensitiesOfSort` | supabase/functions/ms-processing/python_service.py:91-95 | sorting a spectrum by m/z permutes its intensities |
| `PeakDetector.NoiseOfSortedSpectrum` | supabase/functions/ms-processing/python_service.py:91-95 | estimating the noise after the sort gives the floor of the spectrum as it arrived |
| `PeakDetector.SpectrumPeaksSpec` | supabase/functions/ms-processing/python_service.py:77-113 | a spectrum without peaks, or with 10 or fewer, contributes nothing; otherwise each emitted peak has intensity at least `max(threshold, 3 * noise)`, with the noise estimated from the spectrum's intensities, and carries that noise, its SNR, and the spectrum's RT (default 0.0), scan number (default 0) and MS level (default 1) |
| `PeakDetector.SpectrumPeaksAscending` | supabase/functions/ms-processing/python_service.py:91-115 | one spectrum's emitted peaks are in ascending m/z order |
| `PeakDetector.DetectedPeaksOrigin` | supabase/functions/ms-processing/python_service.py:77-116 | every detected peak was emitted for one of the sample's spectra |
| `PeakDetector.DetectedPeaksConcat` | supabase/functions/ms-processing/python_service.py:77-116 | the detected peaks of two runs of spectra are those of the first run followed by those of the second |
| `PeakDetector.FilterSpectrum` | supabase/functions/ms-processing/python_service.py:99-113 | the filter loop returns exactly the specified filtered list |
| `PeakDetector.DetectInSpectrum` | supabase/functions/ms-processing/python_service.py:78-116 | one pass of the spectrum loop returns exactly the peaks the specification assigns to that spectrum: none for a missing or short peak list, else the filtered sorted peaks |
| `PeakDetector.DetectInSpectra` | supabase/functions/ms-processing/python_service.py:73-116 | the spectrum loop returns the concatenation of every spectrum's peaks in spectrum order, and the counter equals its length |
| `PeakDetector.DetectPeaks` | supabase/functions/ms-processing/python_service.py:66-128 | the sample's detected peaks become that list (noise threshold default 1000), the returned count is their number, the status becomes `peaks_detected`, and the aligned peaks and results are untouched |
| `GreedyPass.CutIsPartition` | supabase/functions/ms-processing/python_service.py:203-232 | the groups closed by the pass cut the sorted list into contiguous runs that cover it; in each run, every peak joins the peaks before it by the join rule (in the aligner, the tolerance rule of `FeatureAligner.JoinRule`), and the first peak of each later run fails to join the run before it |
| `GreedyPass.GreedyPartitionIsCut` | supabase/functions/ms-processing/python_service.py:212-226 | any cut with those properties is the one the pass makes, so the groups are determined by the sorted order |
| `FeatureAligner.AlignedFeaturesPartition` | supabase/functions/ms-processing/python_service.py:200-232 | alignment sorts the pool by m/z (a permutation); the runs are the only greedy partition; each run is ascending; a discarded run has exactly one peak; the features are exactly one per run of at least two peaks, in run order, each made from its run |
| `FeatureAligner.AlignedFeaturesOfNothing` | supabase/functions/ms-processing/python_service.py:201-202 | an empty pool yields no features |
| `FeatureAligner.KeptFeaturesOrigin` | supabase/functions/ms-processing/python_service.py:224-231 | every feature is made from a run of two or more peaks, and there are no more features than runs |
| `FeatureAligner.KeptFeaturesSelection` | supabase/functions/ms-processing/python_service.py:224-231 | both directions of the size test: a run is kept exactly when it has two or more peaks, the features are one per kept run in run order, and feature `k` is made from the `k`-th kept run |
| `FeatureAligner.KeptRunsYieldFeatures` | supabase/functions/ms-processing/python_service.py:224-231 | every run of two or more peaks yields its feature |
| `FeatureAligner.SampleNamesFacts` | supabase/functions/ms-processing/python_service.py:243 | the sample-name set holds exactly the names of the group's peaks, and has between 1 and as many members as there are peaks |
| `FeatureAligner.FeatureFacts` | supabase/functions/ms-processing/python_service.py:234-245 | a feature of a sorted run has id (peak count, first m/z), the first m/z is the lowest, the m/z lies between the run's lowest and highest, the RT lies within any bounds of the run's RTs, and `1 <= sample_count <= peaks` |
| `FeatureAligner.GroupPeaksByTolerance` | supabase/functions/ms-processing/python_service.py:200-232 | the grouping loop returns exactly the specified features |
| `FeatureAligner.FeaturePeaksFromPool` | supabase/functions/ms-processing/python_service.py:200-245 | every peak of every feature is a peak of the pool |
| `FeatureAligner.MostIntense` | supabase/functions/ms-processing/python_service.py:253-254 | `max` by intensity picks a peak at least as intense as every other one, placed before any other that is as intense |
| `FeatureAligner.PeaksOfSampleMembers` | supabase/functions/ms-processing/python_service.py:251 | a sample's peaks in a feature are exactly the feature's peaks with that sample name |
| `FeatureAligner.RepresentativeFacts` | supabase/functions/ms-processing/python_service.py:250-255 | a feature yields a peak for a sample exactly when it holds a peak from that sample; the peak is the sample's most intense peak there, first among ties, stamped with the feature's id |
| `FeatureAligner.AlignedPeaksSelection` | supabase/functions/ms-processing/python_service.py:247-257 | a sample's aligned peaks are one per feature that holds a peak of the sample, and only for those, in feature order, each its representative stamped with that feature's id |
| `FeatureAligner.AlignedPeaksReferenceFeatures` | supabase/functions/ms-processing/python_service.py:247-257 | every aligned peak of a sample is a peak of that sample in the feature whose id it carries |
| `FeatureAligner.GetAlignedPeaksForSample` | supabase/functions/ms-processing/python_service.py:247-257 | the projection loop returns exactly the specified aligned peaks |
| `FeatureAligner.Tagged` | supabase/functions/ms-processing/python_service.py:164-168 | each tagged peak is the detected peak at its position, with the sample's index and file name |
| `FeatureAligner.PoolOrigin` | supabase/functions/ms-processing/python_service.py:162-168 | every pooled peak is a detected peak of the sample at its index, carrying that sample's file name; conversely every detected peak of sample `i` is pooled, tagged with `i` and that sample's file name |
| `FeatureAligner.PoolEmpty` | supabase/functions/ms-processing/python_service.py:162-172 | the pool is empty exactly when no sample has a detected peak |
| `FeatureAligner.CollectPeaks` | supabase/functions/ms-processing/python_service.py:161-168 | the nested collection loop returns exactly the specified pool |
| `FeatureAligner.StoreAlignment` | supabase/functions/ms-processing/python_service.py:183-187 | every sample's aligned peaks become its projection of the features and its status becomes `aligned`; its detected peaks and results are unchanged |
| `FeatureAligner.AlignPeaks` | supabase/functions/ms-processing/python_service.py:154-193 | with an empty pool, no count is returned and every sample keeps its aligned peaks and status; otherwise the count is the number of features (tolerances default 0.01 and 0.5), and every sample gets its projection and status `aligned`; detected peaks and results never change |
| `FeatureAligner.TwoSampleFeature` | supabase/functions/ms-processing/python_service.py:200-245 | peaks at 100.0 and 100.005 from two samples, at the same RT, form one feature of two samples with id (2, 100.0), and the peak at 150.0 is dropped |
| `FeatureAligner.OneSampleFeatureKept` | supabase/functions/ms-processing/python_service.py:224 | two close peaks from one sample form a kept feature with sample count 1 |
| `FeatureAligner.SameMzKeepsOrder` | supabase/functions/ms-processing/python_service.py:207 | peaks of equal m/z keep their pool order through the sort |
| `FeatureAligner.FeatureIdsCanCollide` | supabase/functions/ms-processing/python_service.py:237 | two distinct features, at RT 1.0 and 10.0, get the same id |
| `StatisticalEngine.TableKeys` | supabase/functions/ms-processing/python_service.py:266-281 | the table's keys are distinct, are its rows' keys, and are exactly the keys of the visited peaks (feature id, or m/z when absent) |
| `StatisticalEngine.TableRowOrigin` | supabase/functions/ms-processing/python_service.py:272-279 | a row's m/z and RT are those of the first peak with its key |
| `StatisticalEngine.TableRowSamples` | supabase/functions/ms-processing/python_service.py:272-281 | a row's sample list holds the sample of every peak with its key, in visiting order and with repeats, and its intensity map covers exactly those samples |
| `StatisticalEngine.TableRowIntensity` | supabase/functions/ms-processing/python_service.py:280 | a sample's intensity in a row is that of the last peak that wrote the cell |
| `StatisticalEngine.EntriesOf` | supabase/functions/ms-processing/python_service.py:269-271 | each visited entry pairs the sample's file name with its aligned peak at that position |
| `StatisticalEngine.EntryKeys` | supabase/functions/ms-processing/python_service.py:272 | each entry's key is its feature id, or its m/z when the id is absent |
| `StatisticalEngine.FileNames` | supabase/functions/ms-processing/python_service.py:289 | the names are the samples' file names, position by position |
| `StatisticalEngine.GroupSplit` | supabase/functions/ms-processing/python_service.py:289-292 | group 1 is the first `n / 2` names and group 2 the rest; together they are all names, and group 2 has as many or one more |
| `StatisticalEngine.GroupIntensities` | supabase/functions/ms-processing/python_service.py:294-303 | a group's intensities are, name by name, the row's intensity, or 0 for a sample the row lacks |
| `StatisticalEngine.FoldChangeFacts` | supabase/functions/ms-processing/python_service.py:313 | with `mean1 > 0` the fold change times `mean1` is `mean2` (non-negative for non-negative `mean2`); otherwise it is 1 |
| `StatisticalEngine.AnalyzeExists` | supabase/functions/ms-processing/python_service.py:306-330 | a row yields a comparison exactly when both groups have at least two samples and the t-test does not fail |
| `StatisticalEngine.AnalyzeFacts` | supabase/functions/ms-processing/python_service.py:305-328 | a comparison carries the row's key, m/z and RT, the test's statistic and p-value, the group means and deviations of the zero-filled intensities, the fold change of the two means (see `FoldChangeFacts`), the log fold change guarded to positive fold changes, and `significant == (p < threshold)` |
| `StatisticalEngine.MeanOfMissing` | supabase/functions/ms-processing/python_service.py:296-303 | a group none of whose samples has the feature has mean 0 |
| `StatisticalEngine.AbsentFromSecondGroup` | supabase/functions/ms-processing/python_service.py:296-322 | a feature present with positive intensity in every group-1 sample and absent from group 2 gets fold change 0 and log fold change 0 |
| `StatisticalEngine.MeanPositive` | supabase/functions/ms-processing/python_service.py:311-313 | the mean of positive values is positive |
| `StatisticalEngine.RawResultsSelection` | supabase/functions/ms-processing/python_service.py:294-330 | the comparisons are one per row that yields one, and only those, in key order |
| `StatisticalEngine.NoResultsBelowFourSamples` | supabase/functions/ms-processing/python_service.py:289-306 | with fewer than four samples no row is tested |
| `StatisticalEngine.ResultsBelowFourSamples` | supabase/functions/ms-processing/python_service.py:283-346 | with fewer than four samples there are no results and nothing significant |
| `StatisticalEngine.PValues` | supabase/functions/ms-processing/python_service.py:334 | the p-value list has the comparisons' p-values, position by position |
| `StatisticalEngine.CorrectionAtOwnIndex` | supabase/functions/ms-processing/python_service.py:333-339 | result `i` is comparison `i` with entry `i` of the corrected p-values and rejection flags of the whole p-value list |
| `StatisticalEngine.CountSignificantBounds` | supabase/functions/ms-processing/python_service.py:346 | the significant count is at most the number of results; it is 0 exactly when no corrected flag is set, and full exactly when all are |
| `StatisticalEngine.FourSampleComparison` | supabase/functions/ms-processing/python_service.py:289-328 | intensities 1000 and 1200 against 3000 and 3200 give means 1100 and 3100 and fold change 31/11; the feature is significant exactly when the p-value is below 0.05 |
| `StatisticalEngine.BuildTable` | supabase/functions/ms-processing/python_service.py:266-281 | the table loop builds exactly the specified table |
| `StatisticalEngine.TestFeatures` | supabase/functions/ms-processing/python_service.py:294-330 | the testing loop returns exactly the specified comparisons |
| `StatisticalEngine.AttachCorrections` | supabase/functions/ms-processing/python_service.py:333-346 | the correction loop returns exactly the specified results, and the counter is the number of corrected significant ones |
| `StatisticalEngine.StoreResults` | supabase/functions/ms-processing/python_service.py:341-344 | every sample gets the result list and status `statistics_completed`; peaks are untouched |
| `StatisticalEngine.PerformStatistics` | supabase/functions/ms-processing/python_service.py:259-359 | every sample gets the results of the table built from the aligned peaks as they were (p-value threshold default 0.05) and status `statistics_completed`; the totals are the number of results and of corrected significant ones; peaks are untouched |

## Left out

- The HTTP layer is not modelled: the request model, the step dispatch with its pass-through stub steps, the wrapping of failures into HTTP errors, the health endpoint and server start-up. The response dictionaries are reduced to the counts each stage returns.
- `supabase/functions/ms-processing/auto_setup.py` is not part of this model. It installs packages, starts processes and polls the service over HTTP.
- Logging has no effect on results and is left out.
- The PyOpenMS algorithm objects built at start-up are never used by the modelled code. The spectrum and peak containers are modelled as sequences of (m/z, intensity) pairs.
- Floating point is modelled as exact `real` arithmetic. This leaves out rounding, the single precision in which `Peak1D` may hold values, and IEEE special values. The one NaN that arises in the modelled arithmetic itself appears under Findings.
- `sortByPosition` and `list.sort` are modelled as one stable sort by m/z. Python's sort is stable. The model assumes the same of the OpenMS sort: for peaks of equal m/z it fixes the output order, and the noise floor does not depend on it (`NoiseEstimator.NoiseLevelOrderFree`).
- The `:.4f` formatting of feature ids and of the `mz_` keys is not modelled. An id is kept as its peak count and exact first m/z, so ids that differ only after the fourth decimal stay apart here. The service would merge them.
- The intensity standard deviation and the coefficient of variation of a feature are not modelled, because they need square roots and are never read later.
- `ttest_ind`, the Benjamini–Hochberg correction of `multipletests`, `np.log2` and `np.std` are taken as uninterpreted functions, the fields of `StatisticalEngine.Numerics`. The model does not compute test statistics or corrected p-values. It only states where each value comes from and where it goes. No other test statistic is computed by the service.
- `StatisticalEngine.AnalyzeFacts`: a NaN statistic from `ttest_ind` is not represented. For example, two constant groups of equal values give NaN for t and p without raising, so the service keeps the row with a NaN p-value and `significant` false, and passes the NaN on to the correction. `Tested(t, p)` carries only real numbers, so the clause `significant <==> p < pThreshold` does not cover that case.
- A failing t-test is modelled as the `Failed` outcome, which skips the feature as the service does. No other exception inside the per-feature block can arise from the modelled values.
- The `else 1` fallbacks of the two group means cannot be reached, because a feature is tested only when both groups have at least two samples. They are not modelled.
- `get_aligned_peaks_for_sample` writes `featureId` into the peak record that the feature also holds, and the service sorts the pool list in place. Both are local to one alignment call and are discarded afterwards. The model builds new values instead and does not model that sharing.
- In the statistics stage all samples share one result list object. The model gives each sample the same list value.
- A sample without `spectra`, `detectedPeaks` or `alignedPeaks` keys is covered by the sample record starting with empty sequences. The default for a missing key is the empty list in the service too.

## Findings

| source | as written | input that shows it | evidently intended | confidence | as-written member | corrected member |
|---|---|---|---|---|---|---|
| supabase/functions/ms-processing/python_service.py:146-149 | With ten or more intensities and none positive, the median of the empty selection is NaN. Python's `max` then returns NaN, so the 50.0 minimum is not applied. With a non-positive `noise_threshold` this yields emitted peaks whose SNR and noise level are NaN. | a spectrum of eleven peaks, all of intensity 0.0 | a floor of at least 50.0; the model uses the service's own fallback of 100.0 | not executed | `NoiseEstimator.AsWrittenNoFloorOnSilentSpectrum` | `NoiseEstimator.NoiseLevel` |
