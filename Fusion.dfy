/** Column-wise concatenation of two tables, as `pd.concat([A, B], axis=1)`
    does it for two frames with default row labels 0..n-1 (svm.py:63,
    svm_subject_discount.py:58). The frames are aligned on their row labels
    with an outer join: the result has as many rows as the longer frame, and
    the cells a shorter frame does not have are filled with a missing value
    (pandas' NaN), which is a parameter here. */
module Fusion {

  /** `m` is a table whose rows all have `width` cells. */
  predicate IsMatrix<T>(m: seq<seq<T>>, width: nat) {
    forall i :: 0 <= i < |m| ==> |m[i]| == width
  }

  function Max(a: nat, b: nat): nat {
    if a < b then b else a
  }

  /** Row `i` of `m`, or a row of `width` missing cells past its last row. */
  function RowOrMissing<T>(m: seq<seq<T>>, width: nat, i: nat, missing: T): (row: seq<T>)
    requires IsMatrix(m, width)
    ensures |row| == width
    ensures i < |m| ==> row == m[i]
    ensures i >= |m| ==> forall j :: 0 <= j < width ==> row[j] == missing
  {
    if i < |m| then m[i] else seq(width, _ => missing)
  }

  /** `pd.concat([left, right], axis=1)`: row `i` is row `i` of `left`
      followed by row `i` of `right`, each padded with missing cells when
      that table is too short. */
  function ConcatColumns<T>(left: seq<seq<T>>, leftWidth: nat, right: seq<seq<T>>, rightWidth: nat, missing: T): (r: seq<seq<T>>)
    requires IsMatrix(left, leftWidth) && IsMatrix(right, rightWidth)
    ensures |r| == Max(|left|, |right|)
    ensures IsMatrix(r, leftWidth + rightWidth)
    ensures forall i :: 0 <= i < |left| ==> r[i][..leftWidth] == left[i]
    ensures forall i :: 0 <= i < |right| ==> r[i][leftWidth..] == right[i]
    ensures forall i, j :: |left| <= i < |r| && 0 <= j < leftWidth ==> r[i][j] == missing
    ensures forall i, j :: |right| <= i < |r| && leftWidth <= j < leftWidth + rightWidth ==> r[i][j] == missing
  {
    var n := Max(|left|, |right|);
    seq(n, i requires 0 <= i < n =>
      RowOrMissing(left, leftWidth, i, missing) + RowOrMissing(right, rightWidth, i, missing))
  }

  /** The columns `lo` up to `hi` of every row. */
  function Columns<T>(m: seq<seq<T>>, lo: nat, hi: nat): (r: seq<seq<T>>)
    requires lo <= hi
    requires forall i :: 0 <= i < |m| ==> hi <= |m[i]|
    ensures |r| == |m| && IsMatrix(r, hi - lo)
  {
    seq(|m|, i requires 0 <= i < |m| => m[i][lo..hi])
  }

  /** When both tables have the same number of rows, nothing is padded: the
      result has that many rows, each the concatenation of the two rows. */
  lemma ConcatAligned<T>(left: seq<seq<T>>, leftWidth: nat, right: seq<seq<T>>, rightWidth: nat, missing: T)
    requires IsMatrix(left, leftWidth) && IsMatrix(right, rightWidth)
    requires |left| == |right|
    ensures var r := ConcatColumns(left, leftWidth, right, rightWidth, missing);
      |r| == |left| && forall i :: 0 <= i < |r| ==> r[i] == left[i] + right[i]
  {
    var r := ConcatColumns(left, leftWidth, right, rightWidth, missing);
    forall i | 0 <= i < |r| ensures r[i] == left[i] + right[i] {
      assert r[i] == r[i][..leftWidth] + r[i][leftWidth..];
    }
  }

  /** Selecting the column ranges back out of the fused table gives the two
      tables again, for as many rows as each has. */
  lemma ConcatRoundTrip<T>(left: seq<seq<T>>, leftWidth: nat, right: seq<seq<T>>, rightWidth: nat, missing: T)
    requires IsMatrix(left, leftWidth) && IsMatrix(right, rightWidth)
    ensures var r := ConcatColumns(left, leftWidth, right, rightWidth, missing);
      Columns(r, 0, leftWidth)[..|left|] == left &&
      Columns(r, leftWidth, leftWidth + rightWidth)[..|right|] == right
  {
    var r := ConcatColumns(left, leftWidth, right, rightWidth, missing);
    var a := Columns(r, 0, leftWidth);
    var b := Columns(r, leftWidth, leftWidth + rightWidth);
    forall i | 0 <= i < |left| ensures a[i] == left[i] {
      assert r[i][0..leftWidth] == r[i][..leftWidth];
    }
    forall i | 0 <= i < |right| ensures b[i] == right[i] {
      assert r[i][leftWidth..leftWidth + rightWidth] == r[i][leftWidth..];
    }
  }

  /** Fusing tables of different lengths does not fail: the shorter table's
      cells in the extra rows are all missing. */
  lemma ConcatMismatchPads<T>(left: seq<seq<T>>, leftWidth: nat, right: seq<seq<T>>, rightWidth: nat, missing: T)
    requires IsMatrix(left, leftWidth) && IsMatrix(right, rightWidth)
    requires |left| < |right|
    ensures var r := ConcatColumns(left, leftWidth, right, rightWidth, missing);
      |r| == |right| && forall i :: |left| <= i < |r| ==> r[i] == seq(leftWidth, _ => missing) + right[i]
  {
    var r := ConcatColumns(left, leftWidth, right, rightWidth, missing);
    forall i | |left| <= i < |r| ensures r[i] == seq(leftWidth, _ => missing) + right[i] {
      assert r[i] == r[i][..leftWidth] + r[i][leftWidth..];
    }
  }
}
