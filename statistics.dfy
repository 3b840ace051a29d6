/**
 * The statistics stage: the aligned peaks of all samples are gathered into a
 * feature table keyed by feature id; the samples are split by position into
 * two groups; every feature is compared between the groups, and the
 * comparisons get their multiple-testing corrections attached by position.
 *
 * The t-test, the Benjamini-Hochberg correction, the base-2 logarithm and the
 * standard deviation are library numerics; they enter as the fields of a
 * `Numerics` value and are not interpreted.
 */
module StatisticalEngine {
  import opened MsTypes
  import opened RealSeqs

  /** Both groups need at least this many samples before a feature is tested. */
  const MinGroupSize: nat := 2
  /** The intensity assumed for a sample in which a feature was not seen. */
  const MissingIntensity: real := 0.0
  /** The fold change reported when the first group's mean is not positive. */
  const NeutralFoldChange: real := 1.0
  /** The log fold change reported when the fold change is not positive. */
  const NeutralLog2FoldChange: real := 0.0

  /** The result of `ttest_ind`, or the exception that makes the service skip the feature. */
  datatype TestOutcome = Tested(tStatistic: real, pValue: real) | Failed

  /**
   * The library numerics. `adjustedP(ps, i)` and `rejected(ps, i)` are entry
   * `i` of the corrected p-values and of the rejection flags that the
   * correction returns for the p-value list `ps`.
   */
  datatype Numerics = Numerics(
    ttest: (seq<real>, seq<real>) -> TestOutcome,
    log2: real -> real,
    std: seq<real> -> real,
    adjustedP: (seq<real>, nat) -> real,
    rejected: (seq<real>, nat) -> bool)

  /** One aligned peak of one sample, as the table loop visits them. */
  datatype Entry = Entry(sampleName: string, peak: AlignedPeak)

  /** A row of the feature table: the first entry's m/z and RT, the intensity per sample, the samples seen. */
  datatype FeatureRow = FeatureRow(mz: real, rt: real, intensities: map<string, real>, samples: seq<string>)

  /** The feature table as a dictionary: its rows, and its keys in insertion order. */
  datatype FeatureTable = FeatureTable(keys: seq<FeatureKey>, rows: map<FeatureKey, FeatureRow>)

  // ---------------------------------------------------------------------------
  // The feature table

  /** The feature id of an aligned peak, or its m/z when it has none. */
  function KeyOf(ap: AlignedPeak): FeatureKey
  {
    match ap.featureId
    case Some(id) => ByFeatureId(id)
    case None => ByMz(ap.Mz())
  }

  /** One step of the table loop. */
  function AddEntry(t: FeatureTable, e: Entry): FeatureTable
  {
    var k := KeyOf(e.peak);
    if k in t.rows then
      var r := t.rows[k];
      FeatureTable(t.keys, t.rows[k := r.(intensities := r.intensities[e.sampleName := e.peak.Intensity()],
                                          samples := r.samples + [e.sampleName])])
    else
      FeatureTable(t.keys + [k], t.rows[k := FeatureRow(e.peak.Mz(), e.peak.RetentionTime(),
                                                        map[e.sampleName := e.peak.Intensity()], [e.sampleName])])
  }

  function Table(entries: seq<Entry>): FeatureTable
  {
    if entries == [] then FeatureTable([], map[])
    else AddEntry(Table(entries[..|entries| - 1]), entries[|entries| - 1])
  }

  /** A sample's aligned peaks as entries. */
  function EntriesOf(name: string, aps: seq<AlignedPeak>): (es: seq<Entry>)
    ensures |es| == |aps|
    ensures forall i :: 0 <= i < |aps| ==> es[i] == Entry(name, aps[i])
  {
    if aps == [] then [] else EntriesOf(name, aps[..|aps| - 1]) + [Entry(name, aps[|aps| - 1])]
  }

  /** The entries the table loop visits: sample by sample, each sample's aligned peaks in order. */
  function Entries(samples: seq<Sample>): seq<Entry>
    reads samples
  {
    if samples == [] then []
    else
      var n := |samples| - 1;
      Entries(samples[..n]) + EntriesOf(samples[n].fileName, samples[n].alignedPeaks)
  }

  /** Whether an entry writes the intensity cell (k, name). */
  predicate Hits(e: Entry, k: FeatureKey, name: string)
  {
    KeyOf(e.peak) == k && e.sampleName == name
  }

  /** The sample names of the entries with key `k`, in order. */
  function NamesWithKey(entries: seq<Entry>, k: FeatureKey): seq<string>
  {
    if entries == [] then []
    else
      var rest := NamesWithKey(entries[..|entries| - 1], k);
      var e := entries[|entries| - 1];
      if KeyOf(e.peak) == k then rest + [e.sampleName] else rest
  }

  /** The keys of the entries, in order, repeats included. */
  function EntryKeys(entries: seq<Entry>): (ks: seq<FeatureKey>)
    ensures |ks| == |entries|
    ensures forall i :: 0 <= i < |entries| ==> ks[i] == KeyOf(entries[i].peak)
  {
    if entries == [] then [] else EntryKeys(entries[..|entries| - 1]) + [KeyOf(entries[|entries| - 1].peak)]
  }

  /** A table whose keys are distinct and are exactly its rows' keys. */
  ghost predicate WellKeyed(t: FeatureTable)
  {
    && (forall i, j :: 0 <= i < j < |t.keys| ==> t.keys[i] != t.keys[j])
    && (forall i :: 0 <= i < |t.keys| ==> t.keys[i] in t.rows)
    && (forall k :: k in t.rows ==> k in t.keys)
  }

  lemma AddEntryKeys(t: FeatureTable, e: Entry)
    requires WellKeyed(t)
    ensures WellKeyed(AddEntry(t, e))
    ensures AddEntry(t, e).rows.Keys == t.rows.Keys + {KeyOf(e.peak)}
  {
    var k := KeyOf(e.peak);
    if k !in t.rows {
      var t' := AddEntry(t, e);
      assert t'.keys == t.keys + [k];
      forall i, j | 0 <= i < j < |t'.keys| ensures t'.keys[i] != t'.keys[j] {
        if j == |t.keys| {
          assert t'.keys[i] == t.keys[i];
        }
      }
    }
  }

  /**
   * The keys are distinct, they are the rows' keys, and they are the keys of
   * the entries.
   */
  lemma {:induction false} TableKeys(entries: seq<Entry>)
    ensures WellKeyed(Table(entries))
    ensures forall k :: k in Table(entries).rows <==> k in EntryKeys(entries)
  {
    if entries != [] {
      var init := entries[..|entries| - 1];
      TableKeys(init);
      AddEntryKeys(Table(init), entries[|entries| - 1]);
      assert EntryKeys(entries) == EntryKeys(init) + [KeyOf(entries[|entries| - 1].peak)];
    }
  }

  /** How one step of the table loop changes one row's m/z and retention time. */
  lemma AddEntryRow(t: FeatureTable, e: Entry, k: FeatureKey)
    ensures var t' := AddEntry(t, e);
      k in t.rows ==> k in t'.rows && t'.rows[k].mz == t.rows[k].mz && t'.rows[k].rt == t.rows[k].rt
    ensures var t' := AddEntry(t, e);
      k !in t.rows && k in t'.rows ==>
        KeyOf(e.peak) == k && t'.rows[k].mz == e.peak.Mz() && t'.rows[k].rt == e.peak.RetentionTime()
  {
  }

  /** A row's m/z and retention time come from the first entry with its key. */
  lemma {:induction false} TableRowOrigin(entries: seq<Entry>, k: FeatureKey)
    requires k in Table(entries).rows
    ensures exists i :: (0 <= i < |entries| && KeyOf(entries[i].peak) == k
      && k !in EntryKeys(entries[..i])
      && Table(entries).rows[k].mz == entries[i].peak.Mz()
      && Table(entries).rows[k].rt == entries[i].peak.RetentionTime())
  {
    var n := |entries| - 1;
    var init := entries[..n];
    assert Table(entries) == AddEntry(Table(init), entries[n]);
    AddEntryRow(Table(init), entries[n], k);
    if k in Table(init).rows {
      TableRowOrigin(init, k);
      var i :| 0 <= i < |init| && KeyOf(init[i].peak) == k
        && k !in EntryKeys(init[..i])
        && Table(init).rows[k].mz == init[i].peak.Mz()
        && Table(init).rows[k].rt == init[i].peak.RetentionTime();
      assert entries[i] == init[i] && entries[..i] == init[..i];
    } else {
      TableKeys(init);
      assert k !in EntryKeys(entries[..n]);
    }
  }

  /** A row lists the sample of every entry with its key, in order, duplicates included. */
  lemma {:induction false} TableRowSamples(entries: seq<Entry>, k: FeatureKey)
    requires k in Table(entries).rows
    ensures Table(entries).rows[k].samples == NamesWithKey(entries, k)
    ensures forall name :: name in Table(entries).rows[k].intensities <==> name in Table(entries).rows[k].samples
  {
    var init := entries[..|entries| - 1];
    if k in Table(init).rows {
      TableRowSamples(init, k);
    } else {
      TableKeys(init);
      NamesWithoutKey(init, k);
    }
  }

  lemma {:induction false} NamesWithoutKey(entries: seq<Entry>, k: FeatureKey)
    requires k !in EntryKeys(entries)
    ensures NamesWithKey(entries, k) == []
  {
    if entries != [] {
      assert EntryKeys(entries[..|entries| - 1]) == EntryKeys(entries)[..|entries| - 1];
      NamesWithoutKey(entries[..|entries| - 1], k);
    }
  }

  /** How one step of the table loop changes one intensity cell. */
  lemma AddEntryCell(t: FeatureTable, e: Entry, k: FeatureKey, name: string)
    ensures var t' := AddEntry(t, e);
      Hits(e, k, name) ==> k in t'.rows && name in t'.rows[k].intensities && t'.rows[k].intensities[name] == e.peak.Intensity()
    ensures var t' := AddEntry(t, e);
      !Hits(e, k, name) && k in t'.rows && name in t'.rows[k].intensities ==>
        k in t.rows && name in t.rows[k].intensities && t'.rows[k].intensities[name] == t.rows[k].intensities[name]
  {
  }

  /** A sample's intensity in a row is that of the last entry that wrote the cell. */
  lemma {:induction false} TableRowIntensity(entries: seq<Entry>, k: FeatureKey, name: string)
    requires k in Table(entries).rows && name in Table(entries).rows[k].intensities
    ensures exists i :: (0 <= i < |entries| && Hits(entries[i], k, name)
      && Table(entries).rows[k].intensities[name] == entries[i].peak.Intensity()
      && forall j :: i < j < |entries| ==> !Hits(entries[j], k, name))
  {
    var n := |entries| - 1;
    var init := entries[..n];
    var last := entries[n];
    assert Table(entries) == AddEntry(Table(init), last);
    AddEntryCell(Table(init), last, k, name);
    if !Hits(last, k, name) {
      TableRowIntensity(init, k, name);
      var i :| 0 <= i < |init| && Hits(init[i], k, name)
        && Table(init).rows[k].intensities[name] == init[i].peak.Intensity()
        && forall j :: i < j < |init| ==> !Hits(init[j], k, name);
      assert entries[i] == init[i];
      forall j | i < j < |entries| ensures !Hits(entries[j], k, name) {
        if j < n {
          assert entries[j] == init[j];
        }
      }
    }
  }

  // ---------------------------------------------------------------------------
  // The group split

  function FileNames(samples: seq<Sample>): (names: seq<string>)
    ensures |names| == |samples|
    ensures forall i :: 0 <= i < |samples| ==> names[i] == samples[i].fileName
  {
    if samples == [] then [] else FileNames(samples[..|samples| - 1]) + [samples[|samples| - 1].fileName]
  }

  /** The first half of the samples, by position, rounded down. */
  function Group1(names: seq<string>): seq<string> { names[..|names| / 2] }

  /** The remaining samples. */
  function Group2(names: seq<string>): seq<string> { names[|names| / 2..] }

  lemma GroupSplit(names: seq<string>)
    ensures Group1(names) + Group2(names) == names
    ensures |Group1(names)| == |names| / 2 && |Group2(names)| == |names| - |names| / 2
    ensures |Group1(names)| <= |Group2(names)| <= |Group1(names)| + 1
  {
  }

  /** A group's intensities for one row, a sample the row does not mention counting as missing. */
  function GroupIntensities(row: FeatureRow, names: seq<string>): (xs: seq<real>)
    ensures |xs| == |names|
    ensures forall i :: 0 <= i < |names| ==>
      xs[i] == (if names[i] in row.intensities then row.intensities[names[i]] else MissingIntensity)
  {
    if names == [] then []
    else
      var name := names[|names| - 1];
      GroupIntensities(row, names[..|names| - 1])
        + [if name in row.intensities then row.intensities[name] else MissingIntensity]
  }

  // ---------------------------------------------------------------------------
  // One feature's comparison

  /** `mean2 / mean1` when the first mean is positive, otherwise the neutral value. */
  function FoldChange(mean1: real, mean2: real): real
  {
    if mean1 > 0.0 then mean2 / mean1 else NeutralFoldChange
  }

  /**
   * The fold change is the ratio of the second mean to a positive first mean,
   * non-negative for non-negative means, and neutral otherwise.
   */
  lemma FoldChangeFacts(mean1: real, mean2: real)
    ensures var fc := FoldChange(mean1, mean2);
      && (mean1 > 0.0 ==> fc * mean1 == mean2)
      && (mean1 <= 0.0 ==> fc == NeutralFoldChange)
      && (mean1 > 0.0 && mean2 >= 0.0 ==> fc >= 0.0)
      && (mean1 > 0.0 && mean2 > 0.0 ==> fc > 0.0)
  {
  }

  /** The comparison of one table row between the groups, if the service produces one. */
  function Analyze(key: FeatureKey, row: FeatureRow, g1: seq<string>, g2: seq<string>, pThreshold: real, num: Numerics): Option<TestedFeature>
  {
    var x1 := GroupIntensities(row, g1);
    var x2 := GroupIntensities(row, g2);
    if |x1| >= MinGroupSize && |x2| >= MinGroupSize then
      match num.ttest(x1, x2)
      case Failed => None
      case Tested(t, p) =>
        var mean1 := Mean(x1);
        var mean2 := Mean(x2);
        var fc := FoldChange(mean1, mean2);
        Some(TestedFeature(key, row.mz, row.rt, p, t, fc,
                           if fc > 0.0 then num.log2(fc) else NeutralLog2FoldChange,
                           p < pThreshold, mean1, mean2, num.std(x1), num.std(x2)))
    else None
  }

  /**
   * A comparison exists exactly when both groups have two or more samples and
   * the test did not fail.
   */
  lemma AnalyzeExists(key: FeatureKey, row: FeatureRow, g1: seq<string>, g2: seq<string>, pThreshold: real, num: Numerics)
    ensures Analyze(key, row, g1, g2, pThreshold, num).Some? <==>
      |g1| >= MinGroupSize && |g2| >= MinGroupSize && num.ttest(GroupIntensities(row, g1), GroupIntensities(row, g2)).Tested?
  {
  }

  /**
   * What a comparison carries: the row's m/z and RT, the test's statistic and
   * p-value, the two group means over the zero-filled intensities, the guarded
   * fold change and log fold change, and the raw significance flag.
   */
  lemma AnalyzeFacts(key: FeatureKey, row: FeatureRow, g1: seq<string>, g2: seq<string>, pThreshold: real, num: Numerics)
    requires Analyze(key, row, g1, g2, pThreshold, num).Some?
    ensures var x1 := GroupIntensities(row, g1);
      var x2 := GroupIntensities(row, g2);
      var r := Analyze(key, row, g1, g2, pThreshold, num).value;
      && r.featureKey == key && r.mz == row.mz && r.rt == row.rt
      && num.ttest(x1, x2) == Tested(r.tStatistic, r.pValue)
      && r.group1Mean == Mean(x1) && r.group2Mean == Mean(x2)
      && r.group1Std == num.std(x1) && r.group2Std == num.std(x2)
      && r.foldChange == FoldChange(r.group1Mean, r.group2Mean)
      && (r.foldChange > 0.0 ==> r.log2FoldChange == num.log2(r.foldChange))
      && (r.foldChange <= 0.0 ==> r.log2FoldChange == NeutralLog2FoldChange)
      && (r.significant <==> r.pValue < pThreshold)
  {
    var x1 := GroupIntensities(row, g1);
    var x2 := GroupIntensities(row, g2);
    match num.ttest(x1, x2)
    case Failed =>
      assert false;
    case Tested(t, p) =>
      var mean1, mean2 := Mean(x1), Mean(x2);
      var fc := FoldChange(mean1, mean2);
      assert Analyze(key, row, g1, g2, pThreshold, num).value
        == TestedFeature(key, row.mz, row.rt, p, t, fc,
                         if fc > 0.0 then num.log2(fc) else NeutralLog2FoldChange,
                         p < pThreshold, mean1, mean2, num.std(x1), num.std(x2));
  }

  /** All intensities of a group are zero when none of its samples has the feature. */
  lemma {:induction false} MeanOfMissing(row: FeatureRow, names: seq<string>)
    requires |names| > 0
    requires forall i :: 0 <= i < |names| ==> names[i] !in row.intensities
    ensures Mean(GroupIntensities(row, names)) == 0.0
  {
    var xs := GroupIntensities(row, names);
    MeanBounds(xs, 0.0, 0.0);
  }

  /**
   * A feature seen only in the first group, with positive intensities there,
   * is reported with fold change 0 and log fold change 0.
   */
  lemma AbsentFromSecondGroup(key: FeatureKey, row: FeatureRow, g1: seq<string>, g2: seq<string>, pThreshold: real, num: Numerics)
    requires |g1| >= MinGroupSize && |g2| >= MinGroupSize
    requires num.ttest(GroupIntensities(row, g1), GroupIntensities(row, g2)).Tested?
    requires forall i :: 0 <= i < |g1| ==> g1[i] in row.intensities && row.intensities[g1[i]] > 0.0
    requires forall i :: 0 <= i < |g2| ==> g2[i] !in row.intensities
    ensures var a := Analyze(key, row, g1, g2, pThreshold, num);
      a.Some? && a.value.foldChange == 0.0 && a.value.log2FoldChange == 0.0
  {
    MeanOfMissing(row, g2);
    MeanPositive(GroupIntensities(row, g1));
  }

  lemma {:induction false} MeanPositive(s: seq<real>)
    requires |s| > 0 && forall i :: 0 <= i < |s| ==> s[i] > 0.0
    ensures Mean(s) > 0.0
  {
    SumPositive(s);
  }

  lemma {:induction false} SumPositive(s: seq<real>)
    requires |s| > 0 && forall i :: 0 <= i < |s| ==> s[i] > 0.0
    ensures Sum(s) > 0.0
  {
    if |s| > 1 {
      SumPositive(s[..|s| - 1]);
    } else {
      assert s[..0] == [];
    }
  }

  // ---------------------------------------------------------------------------
  // All comparisons, and the correction

  /** The values of the present entries, in order. */
  function Somes<V>(xs: seq<Option<V>>): seq<V>
  {
    if xs == [] then []
    else
      var rest := Somes(xs[..|xs| - 1]);
      var x := xs[|xs| - 1];
      if x.Some? then rest + [x.value] else rest
  }

  /** The positions of the present entries, in order. */
  function SomePositions<V>(xs: seq<Option<V>>): seq<nat>
  {
    if xs == [] then []
    else
      var rest := SomePositions(xs[..|xs| - 1]);
      if xs[|xs| - 1].Some? then rest + [|xs| - 1] else rest
  }

  lemma SomesSnoc<V>(xs: seq<Option<V>>, x: Option<V>)
    ensures Somes(xs + [x]) == if x.Some? then Somes(xs) + [x.value] else Somes(xs)
  {
    assert (xs + [x])[..|xs|] == xs;
  }

  lemma {:induction false} SomesIndices<V>(xs: seq<Option<V>>)
    ensures var idx := SomePositions(xs);
      && |Somes(xs)| == |idx| <= |xs|
      && (forall k :: 0 <= k < |idx| ==> idx[k] < |xs|)
      && (forall i, j :: 0 <= i < j < |idx| ==> idx[i] < idx[j])
  {
    if xs != [] {
      SomesIndices(xs[..|xs| - 1]);
    }
  }

  lemma {:induction false} SomesMembership<V>(xs: seq<Option<V>>)
    ensures forall j :: 0 <= j < |xs| ==> (j in SomePositions(xs) <==> xs[j].Some?)
  {
    if xs != [] {
      var init := xs[..|xs| - 1];
      SomesMembership(init);
      SomesIndices(init);
      forall j | 0 <= j < |init| ensures xs[j] == init[j] { }
    }
  }

  lemma {:induction false} SomesValueAt<V>(xs: seq<Option<V>>, k: nat)
    requires k < |SomePositions(xs)|
    ensures SomePositions(xs)[k] < |xs| && k < |Somes(xs)|
    ensures xs[SomePositions(xs)[k]] == Some(Somes(xs)[k])
  {
    var init := xs[..|xs| - 1];
    SomesIndices(init);
    if k < |SomePositions(init)| {
      SomesValueAt(init, k);
      assert SomePositions(xs)[k] == SomePositions(init)[k];
      assert Somes(xs)[k] == Somes(init)[k];
      assert xs[SomePositions(init)[k]] == init[SomePositions(init)[k]];
    }
  }

  /** The comparison, if any, of each key's row, in key order. */
  function Outcomes(keys: seq<FeatureKey>, rows: map<FeatureKey, FeatureRow>, g1: seq<string>, g2: seq<string>, pThreshold: real, num: Numerics): (o: seq<Option<TestedFeature>>)
    requires forall i :: 0 <= i < |keys| ==> keys[i] in rows
    ensures |o| == |keys|
  {
    if keys == [] then []
    else
      var k := keys[|keys| - 1];
      Outcomes(keys[..|keys| - 1], rows, g1, g2, pThreshold, num) + [Analyze(k, rows[k], g1, g2, pThreshold, num)]
  }

  lemma {:induction false} OutcomeAt(keys: seq<FeatureKey>, rows: map<FeatureKey, FeatureRow>, g1: seq<string>, g2: seq<string>, pThreshold: real, num: Numerics, j: nat)
    requires forall i :: 0 <= i < |keys| ==> keys[i] in rows
    requires j < |keys|
    ensures Outcomes(keys, rows, g1, g2, pThreshold, num)[j] == Analyze(keys[j], rows[keys[j]], g1, g2, pThreshold, num)
    decreases |keys|
  {
    if j < |keys| - 1 {
      var init := keys[..|keys| - 1];
      OutcomeAt(init, rows, g1, g2, pThreshold, num, j);
      assert keys[j] == init[j];
    }
  }

  /** The comparisons of the rows, in key order, skipping the rows that produce none. */
  function RawResults(keys: seq<FeatureKey>, rows: map<FeatureKey, FeatureRow>, g1: seq<string>, g2: seq<string>, pThreshold: real, num: Numerics): seq<TestedFeature>
    requires forall i :: 0 <= i < |keys| ==> keys[i] in rows
  {
    Somes(Outcomes(keys, rows, g1, g2, pThreshold, num))
  }

  /** The positions of the keys whose rows produce a comparison. */
  function TestedPositions(keys: seq<FeatureKey>, rows: map<FeatureKey, FeatureRow>, g1: seq<string>, g2: seq<string>, pThreshold: real, num: Numerics): seq<nat>
    requires forall i :: 0 <= i < |keys| ==> keys[i] in rows
  {
    SomePositions(Outcomes(keys, rows, g1, g2, pThreshold, num))
  }

  /**
   * The comparisons are those of the rows that produce one, one per such row,
   * in key order.
   */
  lemma RawResultsSelection(keys: seq<FeatureKey>, rows: map<FeatureKey, FeatureRow>, g1: seq<string>, g2: seq<string>, pThreshold: real, num: Numerics)
    requires forall i :: 0 <= i < |keys| ==> keys[i] in rows
    ensures var idx := TestedPositions(keys, rows, g1, g2, pThreshold, num);
      var out := RawResults(keys, rows, g1, g2, pThreshold, num);
      && |out| == |idx| <= |keys|
      && (forall i, j :: 0 <= i < j < |idx| ==> idx[i] < idx[j])
      && (forall j :: 0 <= j < |keys| ==> (j in idx <==> Analyze(keys[j], rows[keys[j]], g1, g2, pThreshold, num).Some?))
      && (forall k :: 0 <= k < |idx| ==>
            (idx[k] < |keys| && Analyze(keys[idx[k]], rows[keys[idx[k]]], g1, g2, pThreshold, num) == Some(out[k])))
  {
    var o := Outcomes(keys, rows, g1, g2, pThreshold, num);
    forall j | 0 <= j < |keys|
      ensures o[j] == Analyze(keys[j], rows[keys[j]], g1, g2, pThreshold, num)
    {
      OutcomeAt(keys, rows, g1, g2, pThreshold, num, j);
    }
    SomesIndices(o);
    SomesMembership(o);
    var idx := SomePositions(o);
    forall k | 0 <= k < |idx|
      ensures idx[k] < |keys| && Analyze(keys[idx[k]], rows[keys[idx[k]]], g1, g2, pThreshold, num) == Some(Somes(o)[k])
    {
      SomesValueAt(o, k);
    }
  }

  /** With fewer than four samples, one of the groups is too small and nothing is tested. */
  lemma {:induction false} NoResultsBelowFourSamples(keys: seq<FeatureKey>, rows: map<FeatureKey, FeatureRow>, names: seq<string>, pThreshold: real, num: Numerics)
    requires forall i :: 0 <= i < |keys| ==> keys[i] in rows
    requires |names| < 2 * MinGroupSize
    ensures RawResults(keys, rows, Group1(names), Group2(names), pThreshold, num) == []
  {
    if keys != [] {
      var init := keys[..|keys| - 1];
      var k := keys[|keys| - 1];
      NoResultsBelowFourSamples(init, rows, names, pThreshold, num);
      SomesSnoc(Outcomes(init, rows, Group1(names), Group2(names), pThreshold, num), Analyze(k, rows[k], Group1(names), Group2(names), pThreshold, num));
    }
  }

  function PValues(raw: seq<TestedFeature>): (ps: seq<real>)
    ensures |ps| == |raw|
    ensures forall i :: 0 <= i < |raw| ==> ps[i] == raw[i].pValue
  {
    if raw == [] then [] else PValues(raw[..|raw| - 1]) + [raw[|raw| - 1].pValue]
  }

  /** The correction loop: the results built so far, each with its own entries of the correction. */
  function Corrected(raw: seq<TestedFeature>, ps: seq<real>, num: Numerics): seq<StatResult>
  {
    if raw == [] then []
    else
      var n := |raw| - 1;
      Corrected(raw[..n], ps, num) + [StatResult(raw[n], num.adjustedP(ps, n), num.rejected(ps, n))]
  }

  /** The results: the comparisons, each with the correction's entries at its own position. */
  function Correct(raw: seq<TestedFeature>, num: Numerics): seq<StatResult>
  {
    Corrected(raw, PValues(raw), num)
  }

  lemma {:induction false} CorrectedAtOwnIndex(raw: seq<TestedFeature>, ps: seq<real>, num: Numerics)
    ensures var rs := Corrected(raw, ps, num);
      && |rs| == |raw|
      && forall i :: 0 <= i < |raw| ==>
           rs[i] == StatResult(raw[i], num.adjustedP(ps, i), num.rejected(ps, i))
  {
    if raw != [] {
      CorrectedAtOwnIndex(raw[..|raw| - 1], ps, num);
    }
  }

  /** Result `i` is comparison `i` with entry `i` of the correction of all p-values. */
  lemma CorrectionAtOwnIndex(raw: seq<TestedFeature>, num: Numerics)
    ensures var rs := Correct(raw, num);
      && |rs| == |raw|
      && forall i :: 0 <= i < |raw| ==>
           && rs[i].tested == raw[i]
           && rs[i].pValueCorrected == num.adjustedP(PValues(raw), i)
           && rs[i].significantCorrected == num.rejected(PValues(raw), i)
  {
    CorrectedAtOwnIndex(raw, PValues(raw), num);
  }

  /** The whole analysis of a table for the given file names. */
  function Results(entries: seq<Entry>, names: seq<string>, pThreshold: real, num: Numerics): seq<StatResult>
  {
    var t := Table(entries);
    TableKeys(entries);
    Correct(RawResults(t.keys, t.rows, Group1(names), Group2(names), pThreshold, num), num)
  }

  /** The number of results whose corrected flag is set. */
  function CountSignificant(results: seq<StatResult>): nat
  {
    if results == [] then 0
    else CountSignificant(results[..|results| - 1]) + (if results[|results| - 1].significantCorrected then 1 else 0)
  }

  /** The count is at most the number of results; it is zero exactly when no flag is set, and full exactly when all are. */
  lemma {:induction false} CountSignificantBounds(results: seq<StatResult>)
    ensures CountSignificant(results) <= |results|
    ensures CountSignificant(results) == 0 <==> forall i :: 0 <= i < |results| ==> !results[i].significantCorrected
    ensures CountSignificant(results) == |results| <==> forall i :: 0 <= i < |results| ==> results[i].significantCorrected
  {
    if results != [] {
      var init := results[..|results| - 1];
      CountSignificantBounds(init);
      assert forall i :: 0 <= i < |init| ==> results[i] == init[i];
    }
  }

  // ---------------------------------------------------------------------------
  // The stage over sample records

  /** With fewer than four samples there are no results, and so nothing significant. */
  lemma ResultsBelowFourSamples(entries: seq<Entry>, names: seq<string>, pThreshold: real, num: Numerics)
    requires |names| < 2 * MinGroupSize
    ensures Results(entries, names, pThreshold, num) == []
    ensures CountSignificant(Results(entries, names, pThreshold, num)) == 0
  {
    var t := Table(entries);
    TableKeys(entries);
    NoResultsBelowFourSamples(t.keys, t.rows, names, pThreshold, num);
  }

  /** The group intensities and means of the four-sample row below. */
  lemma FourSampleMeans(row: FeatureRow, names: seq<string>)
    requires row == FeatureRow(250.0, 3.0, map["s1" := 1000.0, "s2" := 1200.0, "s3" := 3000.0, "s4" := 3200.0], ["s1", "s2", "s3", "s4"])
    requires names == ["s1", "s2", "s3", "s4"]
    ensures GroupIntensities(row, Group1(names)) == [1000.0, 1200.0]
    ensures GroupIntensities(row, Group2(names)) == [3000.0, 3200.0]
    ensures Mean([1000.0, 1200.0]) == 1100.0 && Mean([3000.0, 3200.0]) == 3100.0
  {
    assert Group1(names) == ["s1", "s2"] && Group2(names) == ["s3", "s4"];
    SumPair(1000.0, 1200.0);
    SumPair(3000.0, 3200.0);
  }

  /**
   * Four samples, the feature at 1000 and 1200 in the first two and at 3000
   * and 3200 in the last two: the fold change is 3100 / 1100, and the feature
   * is significant whenever the test's p-value is below 0.05.
   */
  lemma FourSampleComparison(num: Numerics, t: real, p: real)
    requires num.ttest([1000.0, 1200.0], [3000.0, 3200.0]) == Tested(t, p)
    ensures var row := FeatureRow(250.0, 3.0, map["s1" := 1000.0, "s2" := 1200.0, "s3" := 3000.0, "s4" := 3200.0], ["s1", "s2", "s3", "s4"]);
      var names := ["s1", "s2", "s3", "s4"];
      var a := Analyze(ByMz(250.0), row, Group1(names), Group2(names), DefaultPValueThreshold, num);
      && a.Some?
      && a.value.group1Mean == 1100.0 && a.value.group2Mean == 3100.0
      && a.value.foldChange == 31.0 / 11.0
      && (a.value.significant <==> p < 0.05)
  {
    var row := FeatureRow(250.0, 3.0, map["s1" := 1000.0, "s2" := 1200.0, "s3" := 3000.0, "s4" := 3200.0], ["s1", "s2", "s3", "s4"]);
    var names := ["s1", "s2", "s3", "s4"];
    FourSampleMeans(row, names);
    AnalyzeFacts(ByMz(250.0), row, Group1(names), Group2(names), DefaultPValueThreshold, num);
    assert FoldChange(1100.0, 3100.0) == 31.0 / 11.0;
  }

  lemma TableSnoc(visited: seq<Entry>, e: Entry)
    ensures Table(visited + [e]) == AddEntry(Table(visited), e)
  {
    assert (visited + [e])[..|visited|] == visited;
  }

  /** The inner loop of the table loop: one sample's aligned peaks. */
  method AddSampleEntries(table: FeatureTable, ghost visited: seq<Entry>, name: string, aps: seq<AlignedPeak>) returns (t: FeatureTable)
    requires table == Table(visited)
    ensures t == Table(visited + EntriesOf(name, aps))
  {
    t := table;
    var j := 0;
    assert visited + EntriesOf(name, aps[..0]) == visited;
    while j < |aps|
      invariant 0 <= j <= |aps|
      invariant t == Table(visited + EntriesOf(name, aps[..j]))
    {
      var e := Entry(name, aps[j]);
      assert aps[..j + 1][..j] == aps[..j];
      assert EntriesOf(name, aps[..j + 1]) == EntriesOf(name, aps[..j]) + [e];
      TableSnoc(visited + EntriesOf(name, aps[..j]), e);
      assert visited + EntriesOf(name, aps[..j]) + [e] == visited + EntriesOf(name, aps[..j + 1]);
      t := AddEntry(t, e);
      j := j + 1;
    }
    assert aps[..j] == aps;
  }

  /** The table loop of `perform_real_statistics`. */
  method BuildTable(samples: seq<Sample>) returns (table: FeatureTable)
    ensures table == Table(Entries(samples))
  {
    table := FeatureTable([], map[]);
    var s := 0;
    while s < |samples|
      invariant 0 <= s <= |samples|
      invariant table == Table(Entries(samples[..s]))
    {
      var sample := samples[s];
      assert samples[..s + 1][..s] == samples[..s];
      assert Entries(samples[..s + 1]) == Entries(samples[..s]) + EntriesOf(sample.fileName, sample.alignedPeaks);
      table := AddSampleEntries(table, Entries(samples[..s]), sample.fileName, sample.alignedPeaks);
      s := s + 1;
    }
    assert samples[..|samples|] == samples;
  }

  lemma RawResultsSnoc(keys: seq<FeatureKey>, rows: map<FeatureKey, FeatureRow>, g1: seq<string>, g2: seq<string>, pThreshold: real, num: Numerics, i: nat)
    requires forall j :: 0 <= j < |keys| ==> keys[j] in rows
    requires i < |keys|
    ensures var a := Analyze(keys[i], rows[keys[i]], g1, g2, pThreshold, num);
      RawResults(keys[..i + 1], rows, g1, g2, pThreshold, num)
      == if a.Some? then RawResults(keys[..i], rows, g1, g2, pThreshold, num) + [a.value]
         else RawResults(keys[..i], rows, g1, g2, pThreshold, num)
  {
    assert keys[..i + 1][..i] == keys[..i];
    var a := Analyze(keys[i], rows[keys[i]], g1, g2, pThreshold, num);
    assert Outcomes(keys[..i + 1], rows, g1, g2, pThreshold, num) == Outcomes(keys[..i], rows, g1, g2, pThreshold, num) + [a];
    SomesSnoc(Outcomes(keys[..i], rows, g1, g2, pThreshold, num), a);
  }

  /** The testing loop over the table's keys. */
  method TestFeatures(table: FeatureTable, g1: seq<string>, g2: seq<string>, pThreshold: real, num: Numerics) returns (raw: seq<TestedFeature>)
    requires forall i :: 0 <= i < |table.keys| ==> table.keys[i] in table.rows
    ensures raw == RawResults(table.keys, table.rows, g1, g2, pThreshold, num)
  {
    raw := [];
    var i := 0;
    while i < |table.keys|
      invariant 0 <= i <= |table.keys|
      invariant raw == RawResults(table.keys[..i], table.rows, g1, g2, pThreshold, num)
    {
      var key := table.keys[i];
      var a := Analyze(key, table.rows[key], g1, g2, pThreshold, num);
      RawResultsSnoc(table.keys, table.rows, g1, g2, pThreshold, num, i);
      if a.Some? {
        raw := raw + [a.value];
      }
      i := i + 1;
    }
    assert table.keys[..|table.keys|] == table.keys;
  }

  /** The loop that attaches the corrections, and the count of corrected significant results. */
  method AttachCorrections(raw: seq<TestedFeature>, num: Numerics) returns (results: seq<StatResult>, significant: nat)
    ensures results == Correct(raw, num)
    ensures significant == CountSignificant(results)
  {
    var pValues := PValues(raw);
    results := [];
    significant := 0;
    var i := 0;
    while i < |raw|
      invariant 0 <= i <= |raw|
      invariant results == Corrected(raw[..i], pValues, num)
      invariant significant == CountSignificant(results)
    {
      assert raw[..i + 1][..i] == raw[..i];
      var r := StatResult(raw[i], num.adjustedP(pValues, i), num.rejected(pValues, i));
      assert (results + [r])[..|results|] == results;
      results := results + [r];
      if r.significantCorrected {
        significant := significant + 1;
      }
      i := i + 1;
    }
    assert raw[..|raw|] == raw;
  }

  /** The loop that hands every sample the result list and the final status. */
  method StoreResults(samples: seq<Sample>, results: seq<StatResult>)
    modifies samples
    ensures forall s :: s in samples ==> s.statisticalResults == results && s.processingStatus == StatisticsCompleted
    ensures forall s :: s in samples ==>
      s.detectedPeaks == old(s.detectedPeaks) && s.alignedPeaks == old(s.alignedPeaks)
  {
    var i := 0;
    while i < |samples|
      invariant 0 <= i <= |samples|
      invariant forall j :: 0 <= j < i ==>
        samples[j].statisticalResults == results && samples[j].processingStatus == StatisticsCompleted
      invariant forall s :: s in samples ==>
        s.detectedPeaks == old(s.detectedPeaks) && s.alignedPeaks == old(s.alignedPeaks)
    {
      samples[i].statisticalResults := results;
      samples[i].processingStatus := StatisticsCompleted;
      i := i + 1;
    }
  }

  /**
   * `perform_real_statistics`: every sample gets the same result list and the
   * `statistics_completed` status; the number of results and of corrected
   * significant results are returned.
   */
  method PerformStatistics(samples: seq<Sample>, params: Params, num: Numerics) returns (significantFeatures: nat, totalFeatures: nat)
    modifies samples
    ensures var results := Results(old(Entries(samples)), FileNames(samples), params.pValueThreshold.GetOr(DefaultPValueThreshold), num);
      && totalFeatures == |results|
      && significantFeatures == CountSignificant(results)
      && forall s :: s in samples ==> s.statisticalResults == results && s.processingStatus == StatisticsCompleted
    ensures forall s :: s in samples ==>
      s.detectedPeaks == old(s.detectedPeaks) && s.alignedPeaks == old(s.alignedPeaks)
  {
    ghost var entries := Entries(samples);
    var table := BuildTable(samples);
    TableKeys(entries);
    var pThreshold := params.pValueThreshold.GetOr(DefaultPValueThreshold);
    var names := FileNames(samples);
    var raw := TestFeatures(table, Group1(names), Group2(names), pThreshold, num);
    var results, significant := AttachCorrections(raw, num);
    assert results == Results(entries, names, pThreshold, num);
    StoreResults(samples, results);
    significantFeatures := significant;
    totalFeatures := |results|;
  }
}
