/** The row filter of `remove_outliers`: select the configured columns (a missing label is an
    error), then keep the rows whose absolute z-scores are all below a threshold. The z-scores
    themselves are an input. */
module Outliers {
  import opened Tables

  datatype SchemaError = MissingColumns(names: seq<string>)

  /** The names of `names` that label no column (the labels pandas' `KeyError` reports). */
  function MissingLabels(labels: seq<string>, names: seq<string>): (m: seq<string>)
    ensures forall n :: n in m <==> n in names && n !in labels
  {
    if names == [] then []
    else MissingLabels(labels, names[..|names| - 1]) +
         (if names[|names| - 1] in labels then [] else [names[|names| - 1]])
  }

  /** The indices of the `true` entries of a boolean mask. */
  function KeptRows(keep: seq<bool>): (rs: seq<nat>)
    ensures forall i :: 0 <= i < |rs| ==> rs[i] < |keep| && keep[rs[i]]
    ensures forall i, j :: 0 <= i < j < |rs| ==> rs[i] < rs[j]
    ensures forall r :: 0 <= r < |keep| && keep[r] ==> r in rs
  {
    if keep == [] then []
    else KeptRows(keep[..|keep| - 1]) + (if keep[|keep| - 1] then [|keep| - 1] else [])
  }

  /** Boolean-mask indexing: the entries at the `true` positions of the mask. */
  function FilterSeq<T>(s: seq<T>, keep: seq<bool>): (r: seq<T>)
    requires |s| == |keep|
    ensures |r| == |KeptRows(keep)|
    ensures forall i :: 0 <= i < |r| ==> r[i] == s[KeptRows(keep)[i]]
  {
    if s == [] then []
    else
      var n := |s| - 1;
      FilterSeq(s[..n], keep[..n]) + (if keep[n] then [s[n]] else [])
  }

  function FilterCells(c: Cells, keep: seq<bool>): (r: Cells)
    requires c.Length() == |keep|
    ensures r.Text? == c.Text? && r.Length() == |KeptRows(keep)|
  {
    match c
    case Text(s) => Text(FilterSeq(s, keep))
    case Numeric(s) => Numeric(FilterSeq(s, keep))
  }

  /** Boolean-mask row selection: every column is kept, with the rows at the `true` positions, in order. */
  function FilterRows(t: Table, keep: seq<bool>): (r: Table)
    requires t.WellFormed() && |keep| == t.rows
    ensures r.WellFormed()
    ensures r.labels == t.labels && |r.columns| == |t.columns|
    ensures r.rows == |KeptRows(keep)| <= t.rows
  {
    var kept := seq(|t.columns|, k requires 0 <= k < |t.columns| => FilterCells(t.columns[k], keep));
    KeptRowsBound(keep);
    Table(|KeptRows(keep)|, t.labels, kept)
  }

  lemma {:induction false} KeptRowsBound(keep: seq<bool>)
    ensures |KeptRows(keep)| <= |keep|
  {
    if keep != [] {
      KeptRowsBound(keep[..|keep| - 1]);
    }
  }

  /** An all-`false` mask keeps no row. */
  lemma {:induction false} KeptRowsNone(keep: seq<bool>)
    requires forall r :: 0 <= r < |keep| ==> !keep[r]
    ensures KeptRows(keep) == []
  {
    if keep != [] {
      KeptRowsNone(keep[..|keep| - 1]);
    }
  }

  function Abs(x: real): (r: real)
    ensures r >= 0.0 && (r == x || r == -x)
  {
    if x < 0.0 then -x else x
  }

  /** One absolute score is below the bound; a NaN score compares false. */
  predicate Below(z: Option<real>, threshold: real)
    ensures Below(z, threshold) <==> z.Some? && -threshold < z.value < threshold
    ensures Below(z, threshold) ==> threshold > 0.0
  {
    z.Some? && Abs(z.value) < threshold
  }

  /** For each row, whether every one of its absolute scores is below the bound. */
  function RowMask(z: seq<seq<Option<real>>>, threshold: real): (m: seq<bool>)
    ensures |m| == |z|
    ensures forall r :: 0 <= r < |z| ==>
              (m[r] <==> forall j :: 0 <= j < |z[r]| ==> Below(z[r][j], threshold))
  {
    seq(|z|, r requires 0 <= r < |z| => forall j :: 0 <= j < |z[r]| ==> Below(z[r][j], threshold))
  }

  /** Selecting the columns `names` fails when one of them is missing; otherwise the rows
      whose scores for the selected columns are all below `threshold` are kept. `z` is the
      z-score matrix of the selection: one row per table row, one score per name. */
  function RemoveOutliersBelow(t: Table, names: seq<string>, z: seq<seq<Option<real>>>, threshold: real)
    : (r: Result<Table, SchemaError>)
    requires t.WellFormed()
    requires |z| == t.rows && forall i :: 0 <= i < |z| ==> |z[i]| == |names|
    ensures r.Err? <==> exists n :: n in names && n !in t.labels
    ensures r.Err? ==> forall n :: n in r.error.names <==> n in names && n !in t.labels
    ensures r.Ok? ==> r.value.WellFormed() && r.value.labels == t.labels && r.value.rows <= t.rows
  {
    var missing := MissingLabels(t.labels, names);
    assert missing != [] ==> missing[0] in missing;
    if missing != [] then Err(MissingColumns(missing))
    else Ok(FilterRows(t, RowMask(z, threshold)))
  }

  /** What survives the filter: the kept rows are those whose every score is a number of
      absolute value below `threshold`, in their original order, each column with its cells
      of those rows. */
  lemma ExactlyInliersKept(t: Table, names: seq<string>, z: seq<seq<Option<real>>>, threshold: real)
    requires t.WellFormed()
    requires |z| == t.rows && forall i :: 0 <= i < |z| ==> |z[i]| == |names|
    requires forall n :: n in names ==> n in t.labels
    ensures var r := RemoveOutliersBelow(t, names, z, threshold);
      var rs := KeptRows(RowMask(z, threshold));
      r.Ok? && r.value.rows == |rs| &&
      (forall i, j :: 0 <= i < j < |rs| ==> rs[i] < rs[j]) &&
      (forall row :: 0 <= row < t.rows ==>
         (row in rs <==> forall j :: 0 <= j < |names| ==> Below(z[row][j], threshold))) &&
      (forall k, i :: 0 <= k < |t.columns| && 0 <= i < |rs| ==>
         r.value.columns[k].At(i) == t.columns[k].At(rs[i]))
  {
    var keep := RowMask(z, threshold);
    var rs := KeptRows(keep);
    KeptRowsBound(keep);
    var r := RemoveOutliersBelow(t, names, z, threshold);
    assert r == Ok(FilterRows(t, keep));
    forall k, i | 0 <= k < |t.columns| && 0 <= i < |rs|
      ensures r.value.columns[k].At(i) == t.columns[k].At(rs[i])
    {
      assert r.value.columns[k] == FilterCells(t.columns[k], keep);
    }
  }

  /** With a threshold that no absolute value is below, no row is kept. */
  lemma NoRowBelowNonPositive(t: Table, names: seq<string>, z: seq<seq<Option<real>>>, threshold: real)
    requires t.WellFormed()
    requires |z| == t.rows && forall i :: 0 <= i < |z| ==> |z[i]| == |names|
    requires names != [] && threshold <= 0.0
    ensures var r := RemoveOutliersBelow(t, names, z, threshold);
      r.Ok? ==> r.value.rows == 0 && forall k :: 0 <= k < |r.value.columns| ==> r.value.columns[k].Length() == 0
  {
    var keep := RowMask(z, threshold);
    forall row | 0 <= row < |keep|
      ensures !keep[row]
    {
      assert !Below(z[row][0], threshold);
    }
    KeptRowsNone(keep);
  }
}
