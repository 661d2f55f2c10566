/** `TelecomDataProcessor`: the fixed list of quantitative columns, the in-place cleaning steps
    on a data frame, the composed `clean_dataset` pipeline and `remove_outliers`. */
module Processor {
  import opened Tables
  import opened Names
  import opened Imputation
  import opened Outliers

  /** The measurement columns `remove_outliers` scores, by exact label. */
  const QuantitativeColumns: seq<string> := [
    "Dur. (ms)",
    "Avg RTT DL (ms)",
    "Avg RTT UL (ms)",
    "Avg Bearer TP DL (kbps)",
    "Avg Bearer TP UL (kbps)",
    "TCP DL Retrans. Vol (Bytes)",
    "TCP UL Retrans. Vol (Bytes)",
    "DL TP < 50 Kbps (%)",
    "50 Kbps < DL TP < 250 Kbps (%)",
    "250 Kbps < DL TP < 1 Mbps (%)",
    "DL TP > 1 Mbps (%)",
    "UL TP < 10 Kbps (%)",
    "10 Kbps < UL TP < 50 Kbps (%)",
    "50 Kbps < UL TP < 300 Kbps (%)",
    "UL TP > 300 Kbps (%)",
    "Activity Duration DL (ms)",
    "Activity Duration UL (ms)",
    "Dur. (ms).1",
    "Nb of sec with 125000B < Vol DL",
    "Nb of sec with 1250B < Vol UL < 6250B",
    "Nb of sec with 31250B < Vol DL < 125000B",
    "Nb of sec with 37500B < Vol UL",
    "Nb of sec with 6250B < Vol DL < 31250B",
    "Nb of sec with 6250B < Vol UL < 37500B",
    "Nb of sec with Vol DL < 6250B",
    "Nb of sec with Vol UL < 1250B",
    "Social Media DL (Bytes)",
    "Social Media UL (Bytes)",
    "Youtube DL (Bytes)",
    "Youtube UL (Bytes)",
    "Netflix DL (Bytes)",
    "Netflix UL (Bytes)",
    "Google DL (Bytes)",
    "Google UL (Bytes)",
    "Email DL (Bytes)",
    "Email UL (Bytes)",
    "Gaming DL (Bytes)",
    "Gaming UL (Bytes)",
    "Other DL (Bytes)",
    "Other UL (Bytes)",
    "Total DL (Bytes)",
    "Total UL (Bytes)"
  ]

  /** The outlier bound on absolute z-scores (the usual three standard deviations). */
  const ZScoreThreshold: real := 3.0

  /** `handle_missing_values`: imputes the numeric columns of `df` in place, one column at a
      time, and hands back the same frame. */
  method HandleMissingValues(df: DataFrame) returns (result: DataFrame)
    requires df.Valid()
    modifies df
    ensures result == df && df.Valid()
    ensures df.Value() == ImputedTable(old(df.Value()))
  {
    var i := 0;
    while i < |df.columns|
      invariant 0 <= i <= |df.columns| == |old(df.columns)|
      invariant df.rows == old(df.rows) && df.labels == old(df.labels)
      invariant forall k :: 0 <= k < i ==> df.columns[k] == ImputeCells(old(df.columns[k]))
      invariant forall k :: i <= k < |df.columns| ==> df.columns[k] == old(df.columns[k])
    {
      match df.columns[i] {
        case Text(_) =>
        case Numeric(s) =>
          if HasMissing(s) || HasZero(s) {
            var replaced := ReplaceZero(s);
            var mean := MeanSkipNa(replaced);
            df.columns := df.columns[i := Numeric(FillNa(replaced, mean))];
          }
      }
      i := i + 1;
    }
    result := df;
  }

  /** `standardize_column_names`: overwrites the labels of `df` and hands back the same frame. */
  method StandardizeColumnNames(df: DataFrame) returns (result: DataFrame)
    requires df.Valid()
    modifies df
    ensures result == df && df.Valid()
    ensures df.Value() == StandardizedTable(old(df.Value()))
  {
    df.labels := StandardizedLabels(df.labels);
    result := df;
  }

  /** `clean_dataset`: imputation, then renaming, both on the caller's frame. */
  method CleanDataset(df: DataFrame) returns (result: DataFrame)
    requires df.Valid()
    modifies df
    ensures result == df && df.Valid()
    ensures df.Value() == Cleaned(old(df.Value()))
  {
    var first := HandleMissingValues(df);
    result := StandardizeColumnNames(first);
  }

  /** The table `clean_dataset` produces: no row and no column dropped, every label
      normalised, every column imputed. */
  function Cleaned(t: Table): (r: Table)
    ensures r.rows == t.rows && |r.labels| == |t.labels| && |r.columns| == |t.columns|
    ensures forall k :: 0 <= k < |t.labels| ==> r.labels[k] == NormalizeName(t.labels[k])
    ensures forall k :: 0 <= k < |t.columns| ==> r.columns[k] == ImputeCells(t.columns[k])
    ensures t.WellFormed() ==> r.WellFormed()
  {
    StandardizedTable(ImputedTable(t))
  }

  /** The two steps touch disjoint parts of the table, so their order does not matter. */
  lemma CleanedInEitherOrder(t: Table)
    ensures ImputedTable(StandardizedTable(t)) == Cleaned(t)
  {
  }

  /** Cleaning a cleaned table changes nothing. */
  lemma {:induction false} CleanedIdempotent(t: Table)
    ensures Cleaned(Cleaned(t)) == Cleaned(t)
  {
    var once := Cleaned(t);
    StandardizedTableIdempotent(ImputedTable(t));
    ImputedTableIdempotent(t);
    CleanedInEitherOrder(ImputedTable(t));
    assert Cleaned(once) == StandardizedTable(StandardizedTable(ImputedTable(ImputedTable(t))));
  }

  /** `remove_outliers` with the corrected bound: the rows whose absolute z-scores over
      `QuantitativeColumns` are all below `ZScoreThreshold`; an error when one of those
      columns is absent. `z` is the z-score matrix of those columns. */
  function RemoveOutliers(t: Table, z: seq<seq<Option<real>>>): (r: Result<Table, SchemaError>)
    requires t.WellFormed()
    requires |z| == t.rows && forall i :: 0 <= i < |z| ==> |z[i]| == |QuantitativeColumns|
    ensures r.Err? <==> exists n :: n in QuantitativeColumns && n !in t.labels
    ensures r.Ok? ==> r.value.labels == t.labels && r.value.rows <= t.rows
  {
    RemoveOutliersBelow(t, QuantitativeColumns, z, ZScoreThreshold)
  }

  /** `remove_outliers` as written: bound 0. */
  function RemoveOutliersAsWritten(t: Table, z: seq<seq<Option<real>>>): (r: Result<Table, SchemaError>)
    requires t.WellFormed()
    requires |z| == t.rows && forall i :: 0 <= i < |z| ==> |z[i]| == |QuantitativeColumns|
    ensures r.Err? <==> exists n :: n in QuantitativeColumns && n !in t.labels
  {
    RemoveOutliersBelow(t, QuantitativeColumns, z, 0.0)
  }

  /** As written, an absolute value is never below 0, so no row survives. */
  lemma AsWrittenKeepsNoRow(t: Table, z: seq<seq<Option<real>>>)
    requires t.WellFormed()
    requires |z| == t.rows && forall i :: 0 <= i < |z| ==> |z[i]| == |QuantitativeColumns|
    ensures var r := RemoveOutliersAsWritten(t, z);
      r.Ok? ==> r.value.rows == 0 && r.value.labels == t.labels &&
                forall k :: 0 <= k < |r.value.columns| ==> r.value.columns[k].Length() == 0
  {
    NoRowBelowNonPositive(t, QuantitativeColumns, z, 0.0);
  }

  /** With the corrected bound, a table that has every quantitative column keeps exactly the
      rows whose scores are all numbers below `ZScoreThreshold` in absolute value, in order. */
  lemma RemoveOutliersKeepsInliers(t: Table, z: seq<seq<Option<real>>>)
    requires t.WellFormed()
    requires |z| == t.rows && forall i :: 0 <= i < |z| ==> |z[i]| == |QuantitativeColumns|
    requires forall n :: n in QuantitativeColumns ==> n in t.labels
    ensures var r := RemoveOutliers(t, z);
      var rs := KeptRows(RowMask(z, ZScoreThreshold));
      r.Ok? && r.value.rows == |rs| &&
      (forall i, j :: 0 <= i < j < |rs| ==> rs[i] < rs[j]) &&
      (forall row :: 0 <= row < t.rows ==>
         (row in rs <==> forall j :: 0 <= j < |QuantitativeColumns| ==> Below(z[row][j], ZScoreThreshold))) &&
      (forall k, i :: 0 <= k < |t.columns| && 0 <= i < |rs| ==>
         r.value.columns[k].At(i) == t.columns[k].At(rs[i]))
  {
    ExactlyInliersKept(t, QuantitativeColumns, z, ZScoreThreshold);
  }

  /** After `clean_dataset` every label is upper case, while `'Dur. (ms)'` is not, so
      `remove_outliers` on a cleaned table always fails on the column selection. */
  lemma RemoveOutliersAfterCleanFails(t: Table, z: seq<seq<Option<real>>>)
    requires t.WellFormed()
    requires |z| == t.rows && forall i :: 0 <= i < |z| ==> |z[i]| == |QuantitativeColumns|
    ensures RemoveOutliers(Cleaned(t), z).Err?
    ensures RemoveOutliersAsWritten(Cleaned(t), z).Err?
  {
    var c := Cleaned(t);
    var dur := QuantitativeColumns[0];
    assert IsLowerAscii(dur[1]);
  }

  /** The frame of the unit tests. */
  function SampleTable(): (t: Table)
    ensures t.WellFormed() && t.rows == 4 && |t.columns| == 2
  {
    Table(4, ["Dur. (ms)", "Avg RTT DL (ms)"],
          [Numeric([Some(100.0), Some(200.0), Some(0.0), Some(400.0)]),
           Numeric([Some(10.0), Some(0.0), Some(30.0), Some(40.0)])])
  }

  /** `test_standardize_column_names`: only the labels change. */
  lemma StandardizeSampleTable()
    ensures StandardizedTable(SampleTable()) ==
      Table(4, ["DUR._(MS)", "AVG_RTT_DL_(MS)"], SampleTable().columns)
  {
    NormalizeDuration();
    NormalizeRoundTripTime();
  }

  /** `test_handle_missing_values`: each zero becomes the mean of its column's other cells. */
  lemma ImputeSampleTable()
    ensures ImputedTable(SampleTable()) ==
      Table(4, SampleTable().labels,
            [Numeric([Some(100.0), Some(200.0), Some(700.0 / 3.0), Some(400.0)]),
             Numeric([Some(10.0), Some(80.0 / 3.0), Some(30.0), Some(40.0)])])
  {
    ImputeDurationExample();
    ImputeRoundTripTimeExample();
  }
}
