/** Zero-as-missing mean imputation of numeric columns (`handle_missing_values`). */
module Imputation {
  import opened Tables

  /** A cell the imputation fills: NaN, or exactly zero. */
  predicate IsGap(x: Option<real>)
  {
    x.None? || x == Some(0.0)
  }

  /** Some cell of the column is NaN (pandas' `isna`, then `any`). */
  predicate HasMissing(s: seq<Option<real>>)
    ensures HasMissing(s) <==> None in s
  {
    exists k :: 0 <= k < |s| && s[k].None?
  }

  /** Some cell of the column equals zero; NaN never does. */
  predicate HasZero(s: seq<Option<real>>)
    ensures HasZero(s) <==> Some(0.0) in s
  {
    exists k :: 0 <= k < |s| && s[k] == Some(0.0)
  }

  /** Pandas' `replace` of zero by NaN. */
  function ReplaceZero(s: seq<Option<real>>): (r: seq<Option<real>>)
    ensures |r| == |s| && !HasZero(r)
    ensures forall k :: 0 <= k < |s| ==> r[k] == if s[k] == Some(0.0) then None else s[k]
  {
    seq(|s|, k requires 0 <= k < |s| => if s[k] == Some(0.0) then None else s[k])
  }

  /** Pandas' `fillna`: every NaN cell takes the value `fill`; filling with NaN leaves NaN. */
  function FillNa(s: seq<Option<real>>, fill: Option<real>): (r: seq<Option<real>>)
    ensures |r| == |s|
    ensures fill.Some? ==> !HasMissing(r)
    ensures forall k :: 0 <= k < |s| ==> r[k] == if s[k].None? then fill else s[k]
  {
    seq(|s|, k requires 0 <= k < |s| => if s[k].None? then fill else s[k])
  }

  /** The sum of the non-NaN cells: zero when every cell is NaN, never negative when no cell is. */
  function SumSkipNa(s: seq<Option<real>>): (total: real)
    ensures (forall k :: 0 <= k < |s| ==> s[k].None?) ==> total == 0.0
    ensures (forall k :: 0 <= k < |s| ==> s[k].None? || s[k].value >= 0.0) ==> total >= 0.0
  {
    if s == [] then 0.0
    else (if s[0].Some? then s[0].value else 0.0) + SumSkipNa(s[1..])
  }

  /** The number of non-NaN cells. */
  function CountSkipNa(s: seq<Option<real>>): (n: nat)
    ensures n <= |s|
    ensures n == 0 <==> forall k :: 0 <= k < |s| ==> s[k].None?
  {
    if s == [] then 0
    else (if s[0].Some? then 1 else 0) + CountSkipNa(s[1..])
  }

  /** Pandas' `mean` skipping NaN: the mean of the other cells, NaN when every cell is NaN. */
  function MeanSkipNa(s: seq<Option<real>>): (m: Option<real>)
    ensures m.None? <==> forall k :: 0 <= k < |s| ==> s[k].None?
  {
    var n := CountSkipNa(s);
    if n == 0 then None else Some(SumSkipNa(s) / n as real)
  }

  /** One column after `handle_missing_values`: a numeric column with a NaN or a zero gets
      every NaN and zero replaced by the mean of the rest; other columns are kept. */
  function ImputeCells(c: Cells): (r: Cells)
    ensures r.Text? == c.Text? && r.Length() == c.Length()
    ensures c.Text? ==> r == c
    ensures c.Numeric? && !HasMissing(c.numbers) && !HasZero(c.numbers) ==> r == c
  {
    match c
    case Text(_) => c
    case Numeric(s) =>
      if HasMissing(s) || HasZero(s) then
        var replaced := ReplaceZero(s);
        Numeric(FillNa(replaced, MeanSkipNa(replaced)))
      else c
  }

  /** The table after `handle_missing_values`: labels and row count kept, each column imputed. */
  function ImputedTable(t: Table): (r: Table)
    ensures r.rows == t.rows && r.labels == t.labels && |r.columns| == |t.columns|
    ensures forall k :: 0 <= k < |t.columns| ==> r.columns[k] == ImputeCells(t.columns[k])
    ensures forall k :: 0 <= k < |t.columns| && t.columns[k].Text? ==> r.columns[k] == t.columns[k]
    ensures t.WellFormed() ==> r.WellFormed()
  {
    Table(t.rows, t.labels, seq(|t.columns|, k requires 0 <= k < |t.columns| => ImputeCells(t.columns[k])))
  }

  // Reference definition of the fill value.

  /** The cells of a numeric column that are neither NaN nor zero, in order. */
  function Observed(s: seq<Option<real>>): (v: seq<real>)
    ensures |v| <= |s|
    ensures forall x :: x in v ==> x != 0.0
  {
    if s == [] then []
    else (if IsGap(s[0]) then [] else [s[0].value]) + Observed(s[1..])
  }

  function Sum(xs: seq<real>): real
  {
    if xs == [] then 0.0 else xs[0] + Sum(xs[1..])
  }

  /** The arithmetic mean of the observed cells; NaN (`None`) when there are none. */
  function ObservedMean(s: seq<Option<real>>): Option<real>
  {
    var v := Observed(s);
    if v == [] then None else Some(Sum(v) / |v| as real)
  }

  lemma {:induction false} ReplaceZeroSums(s: seq<Option<real>>)
    ensures SumSkipNa(ReplaceZero(s)) == Sum(Observed(s))
    ensures CountSkipNa(ReplaceZero(s)) == |Observed(s)|
  {
    if s != [] {
      assert ReplaceZero(s)[1..] == ReplaceZero(s[1..]);
      ReplaceZeroSums(s[1..]);
      var rest := Observed(s[1..]);
      if IsGap(s[0]) {
        assert Observed(s) == rest;
      } else {
        assert Observed(s) == [s[0].value] + rest;
        assert ([s[0].value] + rest)[1..] == rest;
      }
    }
  }

  /** The fill value of the source, the NaN-skipping mean after zeros became NaN, is the mean
      of the observed cells. */
  lemma MeanOfReplaced(s: seq<Option<real>>)
    ensures MeanSkipNa(ReplaceZero(s)) == ObservedMean(s)
  {
    ReplaceZeroSums(s);
  }

  /** Every observed cell of a column occurs among its observed values. */
  lemma {:induction false} ObservedHas(s: seq<Option<real>>, k: nat)
    requires k < |s| && !IsGap(s[k])
    ensures s[k].value in Observed(s)
  {
    if k > 0 {
      ObservedHas(s[1..], k - 1);
    }
  }

  /** Cell by cell: imputing a numeric column replaces exactly its NaN and zero cells, by the
      mean of its observed cells, and keeps every other cell and the length. */
  lemma ImputeCellwise(s: seq<Option<real>>)
    ensures ImputeCells(Numeric(s)).Numeric?
    ensures |ImputeCells(Numeric(s)).numbers| == |s|
    ensures forall k :: 0 <= k < |s| ==>
              ImputeCells(Numeric(s)).numbers[k] == if IsGap(s[k]) then ObservedMean(s) else s[k]
  {
    MeanOfReplaced(s);
  }

  /** A column with at least one observed cell has no NaN left after imputation. */
  lemma NoMissingAfterImpute(s: seq<Option<real>>)
    requires Observed(s) != []
    ensures !HasMissing(ImputeCells(Numeric(s)).numbers)
  {
    ImputeCellwise(s);
  }

  /** A column with no observed cell has its mean undefined, and every cell ends up NaN. */
  lemma AllMissingWhenNothingObserved(s: seq<Option<real>>)
    requires Observed(s) == []
    ensures ObservedMean(s).None? && MeanSkipNa(ReplaceZero(s)).None?
    ensures forall k :: 0 <= k < |s| ==> ImputeCells(Numeric(s)).numbers[k].None?
  {
    ImputeCellwise(s);
    forall k | 0 <= k < |s|
      ensures IsGap(s[k])
    {
      if !IsGap(s[k]) {
        ObservedHas(s, k);
      }
    }
  }

  lemma {:induction false} SumPositive(xs: seq<real>)
    requires xs != [] && forall x :: x in xs ==> x > 0.0
    ensures Sum(xs) > 0.0
  {
    assert xs[0] in xs;
    if |xs| == 1 {
      assert xs[1..] == [];
    } else {
      assert forall x :: x in xs[1..] ==> x in xs;
      SumPositive(xs[1..]);
    }
  }

  /** When the observed cells are all positive (as durations, volumes and counts are), the
      imputed column holds neither a NaN nor a zero. */
  lemma NoGapAfterImputePositive(s: seq<Option<real>>)
    requires Observed(s) != []
    requires forall x :: x in Observed(s) ==> x > 0.0
    ensures forall k :: 0 <= k < |s| ==> !IsGap(ImputeCells(Numeric(s)).numbers[k])
  {
    var v := Observed(s);
    SumPositive(v);
    MeanPositive(Sum(v), |v|);
    assert ObservedMean(s).Some? && ObservedMean(s).value > 0.0;
    ImputeCellwise(s);
  }

  /** The mean of a positive total over a positive count is positive. Kept apart from its
      one caller so that the division is reasoned about in a small context. */
  lemma MeanPositive(total: real, n: nat)
    requires total > 0.0 && n > 0
    ensures total / n as real > 0.0
  {
  }

  /** Observed values summing to zero make the fill value zero, so a zero survives. */
  lemma ZeroMeanKeepsZero()
    ensures ImputeCells(Numeric([Some(1.0), Some(-1.0), Some(0.0)]))
            == Numeric([Some(1.0), Some(-1.0), Some(0.0)])
  {
    var s := [Some(1.0), Some(-1.0), Some(0.0)];
    assert s[1..] == [Some(-1.0), Some(0.0)];
    assert s[2..] == [Some(0.0)];
    assert Observed(s) == [1.0, -1.0];
    assert Sum([1.0, -1.0]) == 0.0;
    ImputeCellwise(s);
  }

  /** Changing only NaN and zero cells into NaN or zero keeps the observed values. */
  lemma {:induction false} ObservedKeptUnderGapChanges(s: seq<Option<real>>, t: seq<Option<real>>)
    requires |s| == |t|
    requires forall k :: 0 <= k < |s| ==> t[k] == s[k] || (IsGap(s[k]) && IsGap(t[k]))
    ensures Observed(t) == Observed(s)
  {
    if s != [] {
      ObservedKeptUnderGapChanges(s[1..], t[1..]);
    }
  }

  /** Imputing an imputed column changes nothing. */
  lemma ImputeIdempotent(c: Cells)
    ensures ImputeCells(ImputeCells(c)) == ImputeCells(c)
  {
    if c.Numeric? {
      var s := c.numbers;
      var m := ObservedMean(s);
      ImputeCellwise(s);
      var r := ImputeCells(c).numbers;
      ImputeCellwise(r);
      if m.None? || m == Some(0.0) {
        ObservedKeptUnderGapChanges(s, r);
        assert ImputeCells(Numeric(r)).numbers == r;
      } else {
        assert !HasMissing(r) && !HasZero(r);
      }
    }
  }

  lemma ImputedTableIdempotent(t: Table)
    ensures ImputedTable(ImputedTable(t)) == ImputedTable(t)
  {
    forall k | 0 <= k < |t.columns|
      ensures ImputeCells(ImputeCells(t.columns[k])) == ImputeCells(t.columns[k])
    {
      ImputeIdempotent(t.columns[k]);
    }
  }

  /** The two columns of the unit tests: `[100, 200, 0, 400]` and `[10, 0, 30, 40]`. */
  lemma ImputeDurationExample()
    ensures ImputeCells(Numeric([Some(100.0), Some(200.0), Some(0.0), Some(400.0)]))
            == Numeric([Some(100.0), Some(200.0), Some(700.0 / 3.0), Some(400.0)])
  {
    var s := [Some(100.0), Some(200.0), Some(0.0), Some(400.0)];
    assert s[1..][1..] == [Some(0.0), Some(400.0)];
    assert Observed(s) == [100.0, 200.0, 400.0];
    assert Sum([100.0, 200.0, 400.0]) == 700.0;
    assert ObservedMean(s) == Some(700.0 / 3.0);
    ImputeCellwise(s);
  }

  lemma ImputeRoundTripTimeExample()
    ensures ImputeCells(Numeric([Some(10.0), Some(0.0), Some(30.0), Some(40.0)]))
            == Numeric([Some(10.0), Some(80.0 / 3.0), Some(30.0), Some(40.0)])
  {
    var s := [Some(10.0), Some(0.0), Some(30.0), Some(40.0)];
    assert s[1..][1..] == [Some(30.0), Some(40.0)];
    assert Observed(s) == [10.0, 30.0, 40.0];
    assert Sum([10.0, 30.0, 40.0]) == 80.0;
    assert ObservedMean(s) == Some(80.0 / 3.0);
    ImputeCellwise(s);
  }
}
