/** How the space of a window is shared among the frames of a frameset
    (desktop/frames.c): the sizes are made to fit with whole numbers only. */
module FramesetLayout {

  /** Division as in C, which rounds towards 0. */
  function Div(a: int, b: int): int
    requires b > 0
  {
    if a >= 0 then a / b else -((-a) / b)
  }

  function Sum(s: seq<int>): int {
    if s == [] then 0 else Sum(s[..|s| - 1]) + s[|s| - 1]
  }

  predicate NonNegative(s: seq<int>) {
    forall i :: 0 <= i < |s| ==> s[i] >= 0
  }

  lemma {:induction false} SumIsNonNegative(s: seq<int>)
    requires NonNegative(s)
    ensures Sum(s) >= 0
    ensures forall i :: 0 <= i < |s| ==> s[i] <= Sum(s)
  {
    if s != [] {
      SumIsNonNegative(s[..|s| - 1]);
      assert forall i :: 0 <= i < |s| - 1 ==> s[i] == s[..|s| - 1][i];
    }
  }

  // ---------------------------------------------------------------------
  // Proportional distribution
  // ---------------------------------------------------------------------

  /** The change of a size `a` when `extent` is shared out over sizes that add up to
      `total`. */
  function Share(a: int, extent: int, total: int): int
    requires total > 0
  {
    Div(a * extent, total)
  }

  /** The sum of the changes. */
  function Applied(s: seq<int>, extent: int, total: int): int
    requires total > 0
  {
    if s == [] then 0 else Applied(s[..|s| - 1], extent, total) + Share(s[|s| - 1], extent, total)
  }

  function Changed(s: seq<int>, extent: int, total: int): (r: seq<int>)
    requires total > 0
    ensures |r| == |s| && forall i :: 0 <= i < |s| ==> r[i] == s[i] + Share(s[i], extent, total)
  {
    if s == [] then []
    else Changed(s[..|s| - 1], extent, total) + [s[|s| - 1] + Share(s[|s| - 1], extent, total)]
  }

  /** What is left for the last cell. */
  function Remainder(s: seq<int>, w: int): int
    requires s != [] && Sum(s) > 0
  {
    s[|s| - 1] + (w - Sum(s)) - Applied(s[..|s| - 1], w - Sum(s), Sum(s))
  }

  /** The sizes made to fit a window of size `w`. If they are all 0, they stay so. */
  function Fitted(s: seq<int>, w: int): seq<int>
    requires NonNegative(s)
  {
    SumIsNonNegative(s);
    if s == [] || Sum(s) == 0 then s
    else
      var last := Remainder(s, w);
      Changed(s[..|s| - 1], w - Sum(s), Sum(s)) + [if last < 0 then 0 else last]
  }

  /** A share is the proportional part, rounded towards 0. */
  lemma ShareBounds(a: int, extent: int, total: int)
    requires total > 0 && a >= 0 && -total <= extent
    ensures a + Share(a, extent, total) >= 0
    ensures extent >= 0 ==> a * extent - total < total * Share(a, extent, total) <= a * extent
    ensures extent < 0 ==> a * extent <= total * Share(a, extent, total) < a * extent + total
  {
    if extent >= 0 {
      MulPositive(a, extent);
      DivBounds(a * extent, total);
    } else {
      ShareOfLoss(a, -extent, total);
      assert -(a * -extent) == a * extent;
    }
  }

  lemma ShareOfLoss(a: int, d: int, total: int)
    requires a >= 0 && 0 < d <= total
    ensures var q := Share(a, -d, total);
            a + q >= 0 && -(a * d) <= total * q < -(a * d) + total
  {
    MulPositive(a, d);
    assert a * -d == -(a * d);
    DivBounds(a * d, total);
    var k := (a * d) / total;
    TimesMinus(total, k);
    if a * d == 0 {
      assert k == 0;
    } else {
      MulMonotone(a, d, total);
      Cancel(total, a - k);
    }
  }

  lemma MulPositive(a: int, b: int)
    requires a >= 0 && b >= 0
    ensures a * b >= 0
  {
  }

  lemma TimesMinus(a: int, b: int)
    ensures a * -b == -(a * b)
  {
  }

  lemma MulMonotone(a: int, b: int, c: int)
    requires a >= 0 && b <= c
    ensures a * b <= a * c
  {
  }

  lemma DivBounds(a: int, b: int)
    requires a >= 0 && b > 0
    ensures b * (a / b) <= a <= b * (a / b) + b - 1 && a / b >= 0
  {
  }

  lemma Negative(b: int, x: int)
    requires b > 0 && x < 0
    ensures b * x <= -b
  {
  }

  /** From b*x > -b it follows that x >= 0. */
  lemma Cancel(b: int, x: int)
    requires b > 0 && b * x > -b
    ensures x >= 0
  {
    if x < 0 { Negative(b, x); }
  }

  lemma TimesSum(a: int, b: int, c: int)
    ensures c * (a + b) == c * a + c * b && (a + b) * c == a * c + b * c
  {
  }

  lemma {:induction false} AppliedBounds(s: seq<int>, extent: int, total: int)
    requires NonNegative(s) && total > 0 && -total <= extent
    ensures extent >= 0 ==> Sum(s) * extent - |s| * (total - 1) <= total * Applied(s, extent, total) <= Sum(s) * extent
    ensures extent < 0 ==> Sum(s) * extent <= total * Applied(s, extent, total) <= Sum(s) * extent + |s| * (total - 1)
  {
    hide Share;
    if s != [] {
      var front, a := s[..|s| - 1], s[|s| - 1];
      AppliedBounds(front, extent, total);
      ShareBounds(a, extent, total);
      TimesSum(Applied(front, extent, total), Share(a, extent, total), total);
      TimesSum(Sum(front), a, extent);
      TimesSum(|front|, 1, total - 1);
    }
  }

  lemma {:induction false} SumOfChanged(s: seq<int>, extent: int, total: int)
    requires NonNegative(s) && total > 0 && -total <= extent
    ensures Sum(Changed(s, extent, total)) == Sum(s) + Applied(s, extent, total)
    ensures NonNegative(Changed(s, extent, total))
  {
    if s != [] {
      var front, a := s[..|s| - 1], s[|s| - 1];
      var c := Changed(s, extent, total);
      SumOfChanged(front, extent, total);
      ShareBounds(a, extent, total);
      assert c[..|s| - 1] == Changed(front, extent, total);
    }
  }

  /** total * r, where r is the remainder. */
  lemma RemainderTimesTotal(a: int, extent: int, applied: int, total: int)
    ensures total * (a + extent - applied) == a * (total + extent) + (total - a) * extent - total * applied
  {
    assert total * (a + extent - applied) == total * a + total * extent - total * applied;
    assert (total - a) * extent == total * extent - a * extent;
    assert a * (total + extent) == a * total + a * extent;
  }

  /** The last cell is short of fewer pixels than there are other cells. */
  lemma RemainderBound(s: seq<int>, w: int)
    requires NonNegative(s) && s != [] && Sum(s) > 0 && w >= 0
    ensures Remainder(s, w) >= 0 || -Remainder(s, w) < |s| - 1
  {
    var n, total, extent := |s| - 1, Sum(s), w - Sum(s);
    var front, a := s[..n], s[n];
    var r, applied := Remainder(s, w), Applied(front, extent, total);
    AppliedBounds(front, extent, total);
    RemainderTimesTotal(a, extent, applied, total);
    MulPositive(a, w);
    assert total * r >= a * w - (if extent >= 0 then 0 else n * (total - 1));
    if extent >= 0 {
      Cancel(total, r);
    } else {
      ShortBy(total, r, n);
    }
  }

  lemma ShortBy(total: int, r: int, n: nat)
    requires total > 0 && total * r >= -(n * (total - 1))
    ensures r >= 0 || -r < n
  {
    assert n * (total - 1) == n * total - n;
    if n == 0 {
      Cancel(total, r);
    } else {
      assert total * (r + n - 1) == total * r + n * total - total;
      Cancel(total, r + n - 1);
    }
  }

  /** No size is negative. The sizes add up to the size of the window, or to a little
      more, by fewer pixels than there are other cells, if the last one had to be made 0. */
  lemma FittedFits(s: seq<int>, w: int)
    requires NonNegative(s) && s != [] && Sum(s) > 0 && w >= 0
    ensures var r := Fitted(s, w);
            && |r| == |s| && NonNegative(r)
            && (if Remainder(s, w) >= 0 then Sum(r) == w else w < Sum(r) < w + |s| - 1 && r[|r| - 1] == 0)
  {
    hide Share, Applied, Changed, Fitted, Remainder, Sum;
    var n, total, extent := |s| - 1, Sum(s), w - Sum(s);
    var front := s[..n];
    FittedIs(s, w);
    SumOfChanged(front, extent, total);
    RemainderBound(s, w);
    SumOfOneMore(front, s[n]);
    assert front + [s[n]] == s;
    SumOfOneMore(Changed(front, extent, total), Fitted(s, w)[n]);
  }

  lemma FittedIs(s: seq<int>, w: int)
    requires NonNegative(s) && s != [] && Sum(s) > 0
    ensures var front, last := s[..|s| - 1], Remainder(s, w);
            && Fitted(s, w) == Changed(front, w - Sum(s), Sum(s)) + [if last < 0 then 0 else last]
            && last == s[|s| - 1] + (w - Sum(s)) - Applied(front, w - Sum(s), Sum(s))
  {
  }

  lemma SumOfOneMore(s: seq<int>, x: int)
    ensures Sum(s + [x]) == Sum(s) + x
  {
    assert (s + [x])[..|s|] == s;
  }

  /** `r` is the exact size `exact / total`, rounded up or down. */
  predicate IsRounded(r: int, exact: int, total: int, down: bool) {
    if down then exact - total < total * r <= exact else exact <= total * r < exact + total
  }

  /** Sizes `s` that were made to fit a window of size `w`, as they should be. Each is its
      proportional part of the window, rounded to the side of its old size; only the last
      one takes what is left, and is off by less than a pixel for each other cell, unless
      less than nothing is left. Sizes that are all 0 stay so. */
  predicate AreProportional(s: seq<int>, w: int, r: seq<int>) {
    var n, total := |s| - 1, Sum(s);
    && |r| == |s| > 0
    && if total == 0 then r == s
       else
         && (forall k :: 0 <= k < n ==> IsRounded(r[k], s[k] * w, total, w >= total))
         && if Sum(r) == w then -(n * (total - 1)) <= total * r[n] - s[n] * w <= n * (total - 1)
            else r[n] == 0 && w < Sum(r) < w + n
  }

  lemma FittedIsProportional(s: seq<int>, w: int)
    requires NonNegative(s) && s != [] && w >= 0
    ensures AreProportional(s, w, Fitted(s, w))
  {
    SumIsNonNegative(s);
    if Sum(s) > 0 {
      hide Share, Applied, Fitted, Remainder, Sum;
      var n, total, r := |s| - 1, Sum(s), Fitted(s, w);
      FittedAt(s, w);
      FittedFits(s, w);
      forall k | 0 <= k < n ensures IsRounded(r[k], s[k] * w, total, w >= total) {
        ShareBounds(s[k], w - total, total);
        TimesSum(s[k], 1, w - total);
        ExactSize(s[k], Share(s[k], w - total, total), w, total);
      }
      LastIsNear(s, w);
    }
  }

  lemma ExactSize(a: int, q: int, w: int, total: int)
    ensures total * (a + q) - a * w == total * q - a * (w - total)
  {
    TimesSum(a, q, total);
    TimesSum(w - total, total, a);
  }

  lemma LastIsNear(s: seq<int>, w: int)
    requires NonNegative(s) && s != [] && Sum(s) > 0 && w >= 0
    ensures var n, total, last := |s| - 1, Sum(s), Remainder(s, w);
            -(n * (total - 1)) <= total * last - s[n] * w <= n * (total - 1)
  {
    var n, total, extent := |s| - 1, Sum(s), w - Sum(s);
    var front, a := s[..n], s[n];
    var applied := Applied(front, extent, total);
    AppliedBounds(front, extent, total);
    RemainderTimesTotal(a, extent, applied, total);
    hide Applied, Sum;
  }

  /** The window is filled just if some size is not 0. */
  lemma FillsIff(s: seq<int>, w: int)
    requires NonNegative(s) && s != [] && w > 0
    ensures Sum(Fitted(s, w)) >= w <==> Sum(s) > 0
  {
    SumIsNonNegative(s);
    if Sum(s) > 0 {
      FittedFits(s, w);
    }
  }

  // ---------------------------------------------------------------------
  // Rows and columns
  // ---------------------------------------------------------------------

  /** The place of a cell in an array of rows. */
  function Cell(row: nat, col: nat, cols: nat): nat {
    row * cols + col
  }

  lemma CellIsInside(row: nat, rows: nat, col: nat, cols: nat)
    requires row < rows && col < cols
    ensures Cell(row, col, cols) < rows * cols
  {
    assert (row + 1) * cols <= rows * cols;
  }

  lemma CellsDiffer(row: nat, col: nat, row2: nat, col2: nat, cols: nat)
    requires col < cols && col2 < cols && (row != row2 || col != col2)
    ensures Cell(row, col, cols) != Cell(row2, col2, cols)
  {
    if row < row2 {
      assert (row + 1) * cols <= row2 * cols;
    } else if row2 < row {
      assert (row2 + 1) * cols <= row * cols;
    }
  }

  /** The places of the cells of a row, and of a column. */
  function RowCells(row: nat, cols: nat): (at: seq<nat>)
    ensures |at| == cols && forall k :: 0 <= k < cols ==> at[k] == Cell(row, k, cols)
  {
    seq(cols, k requires 0 <= k < cols => Cell(row, k, cols))
  }

  function ColumnCells(col: nat, rows: nat, cols: nat): (at: seq<nat>)
    ensures |at| == rows && forall k :: 0 <= k < rows ==> at[k] == Cell(k, col, cols)
  {
    seq(rows, k requires 0 <= k < rows => Cell(k, col, cols))
  }

  /** Different places in an array of `n` cells. */
  predicate Places(at: seq<nat>, n: nat) {
    && (forall k :: 0 <= k < |at| ==> at[k] < n)
    && (forall j, k :: 0 <= j < k < |at| ==> at[j] != at[k])
  }

  /** The sizes in these places. */
  function Sizes(a: seq<int>, at: seq<nat>): (s: seq<int>)
    requires Places(at, |a|)
    ensures |s| == |at| && forall k :: 0 <= k < |s| ==> s[k] == a[at[k]]
  {
    seq(|at|, k requires 0 <= k < |at| => a[at[k]])
  }

  lemma SumNext(s: seq<int>, k: nat)
    requires k < |s|
    ensures Sum(s[..k + 1]) == Sum(s[..k]) + s[k]
  {
    assert s[..k + 1][..k] == s[..k];
  }

  lemma AppliedNext(s: seq<int>, k: nat, extent: int, total: int)
    requires k < |s| && total > 0
    ensures Applied(s[..k + 1], extent, total) == Applied(s[..k], extent, total) + Share(s[k], extent, total)
  {
    assert s[..k + 1][..k] == s[..k];
  }

  lemma FittedAt(s: seq<int>, w: int)
    requires NonNegative(s) && s != [] && Sum(s) > 0
    ensures var r := Fitted(s, w);
            && |r| == |s|
            && (forall k :: 0 <= k < |s| - 1 ==> r[k] == s[k] + Share(s[k], w - Sum(s), Sum(s)))
            && r[|s| - 1] == if Remainder(s, w) < 0 then 0 else Remainder(s, w)
  {
    var front := s[..|s| - 1];
    assert forall k :: 0 <= k < |front| ==> front[k] == s[k];
  }

  /** The space that is left. */
  method Available(sizes: array<int>, at: seq<nat>, w: int) returns (avail: int)
    requires Places(at, sizes.Length)
    ensures avail == w - Sum(Sizes(sizes[..], at))
  {
    ghost var s := Sizes(sizes[..], at);
    avail := w;
    var k := 0;
    while k < |at|
      invariant k <= |at| && avail == w - Sum(s[..k])
    {
      SumNext(s, k);
      avail := avail - sizes[at[k]];
      k := k + 1;
    }
    assert s[..k] == s;
  }

  /** The cells up to the `k`th have their new sizes, all others their old ones. */
  ghost predicate FittedTo(now: seq<int>, was: seq<int>, at: seq<nat>, k: nat, r: seq<int>)
    requires |now| == |was| && Places(at, |was|) && |r| == |at| && k <= |at|
  {
    && (forall j :: 0 <= j < k ==> now[at[j]] == r[j])
    && (forall i :: 0 <= i < |now| && i !in at[..k] ==> now[i] == was[i])
  }

  lemma FittedNext(now: seq<int>, was: seq<int>, at: seq<nat>, k: nat, r: seq<int>)
    requires |now| == |was| && Places(at, |was|) && |r| == |at| && k < |at| && FittedTo(now, was, at, k, r)
    ensures now[at[k]] == was[at[k]]
    ensures FittedTo(now[at[k] := r[k]], was, at, k + 1, r)
  {
    assert at[k] !in at[..k];
    assert at[..k + 1] == at[..k] + [at[k]];
  }

  /** The sizes of a row that has no relative sizes, or no space left for them; or the
      sizes of a column, for which there is nothing to do when no space is left. */
  method Fit(sizes: array<int>, at: seq<nat>, w: int, isColumn: bool)
    requires Places(at, sizes.Length) && at != [] && NonNegative(Sizes(sizes[..], at))
    modifies sizes
    ensures Sizes(sizes[..], at) == Fitted(old(Sizes(sizes[..], at)), w)
    ensures w >= 0 ==> AreProportional(old(Sizes(sizes[..], at)), w, Sizes(sizes[..], at))
    ensures forall i :: 0 <= i < sizes.Length && i !in at ==> sizes[i] == old(sizes[i])
  {
    hide AreProportional;
    ghost var s, was := Sizes(sizes[..], at), sizes[..];
    if w >= 0 { FittedIsProportional(s, w); }
    var avail := Available(sizes, at, w);
    SumIsNonNegative(s);
    if isColumn && avail == 0 {
      NothingToShare(s, w);
      return;
    }
    if w == avail { return; }
    Distribute(sizes, at, w, avail);
  }

  lemma NoneApplied(extent: int, total: int)
    requires total > 0
    ensures Applied([], extent, total) == 0
  {
  }

  lemma SizesAre(now: seq<int>, was: seq<int>, at: seq<nat>, r: seq<int>)
    requires |now| == |was| && Places(at, |was|) && |r| == |at| && FittedTo(now, was, at, |at|, r)
    ensures Sizes(now, at) == r && forall i :: 0 <= i < |now| && i !in at ==> now[i] == was[i]
  {
    assert at[..|at|] == at;
  }

  /** Share out `extent` in proportion to the sizes; the last cell uses up what is left. */
  method Distribute(sizes: array<int>, at: seq<nat>, w: int, extent: int)
    requires Places(at, sizes.Length) && at != [] && NonNegative(Sizes(sizes[..], at))
    requires extent == w - Sum(Sizes(sizes[..], at)) && extent < w
    modifies sizes
    ensures Sizes(sizes[..], at) == Fitted(old(Sizes(sizes[..], at)), w)
    ensures forall i :: 0 <= i < sizes.Length && i !in at ==> sizes[i] == old(sizes[i])
  {
    hide Applied, Fitted, Sum, Share, Sizes;
    ghost var s, was := Sizes(sizes[..], at), sizes[..];
    ghost var r := Fitted(s, w);
    FittedAt(s, w);
    var applied, k := 0, 0;
    assert applied == Applied(s[..k], extent, w - extent) by { NoneApplied(extent, w - extent); }
    while k < |at|
      invariant k <= |at| && FittedTo(sizes[..], was, at, k, r)
      invariant k < |at| ==> applied == Applied(s[..k], extent, w - extent)
    {
      FittedNext(sizes[..], was, at, k, r);
      applied := ChangeCell(sizes, at[k], w, extent, applied, k == |at| - 1, s, k);
      k := k + 1;
    }
    assert at[..k] == at;
    SizesAre(sizes[..], was, at, r);
  }

  /** The new size of one cell. */
  method ChangeCell(sizes: array<int>, cell: nat, w: int, extent: int, applied: int, isLast: bool, ghost s: seq<int>, ghost k: nat)
    returns (now: int)
    requires NonNegative(s) && k < |s| && Sum(s) > 0 && extent == w - Sum(s) && isLast == (k == |s| - 1)
    requires cell < sizes.Length && sizes[cell] == s[k] && applied == Applied(s[..k], extent, Sum(s))
    modifies sizes
    ensures sizes[..] == old(sizes[..])[cell := Fitted(s, w)[k]]
    ensures k + 1 < |s| ==> now == Applied(s[..k + 1], extent, Sum(s))
  {
    FittedAt(s, w);
    now := applied;
    if isLast {
      var left := sizes[cell] + extent - applied;
      sizes[cell] := if left < 0 then 0 else left;
    } else {
      AppliedNext(s, k, extent, Sum(s));
      var size := Div(sizes[cell] * extent, w - extent);
      sizes[cell] := sizes[cell] + size;
      now := applied + size;
    }
  }

  /** Sizes that fit already stay as they are. */
  lemma NothingToShare(s: seq<int>, w: int)
    requires NonNegative(s) && s != [] && Sum(s) == w
    ensures Fitted(s, w) == s
  {
    if Sum(s) > 0 {
      FittedAt(s, w);
      NothingApplied(s[..|s| - 1], Sum(s));
      assert forall k :: 0 <= k < |s| ==> Share(s[k], 0, Sum(s)) == 0;
      assert forall k :: 0 <= k < |s| ==> Fitted(s, w)[k] == s[k];
    } else {
      SumIsNonNegative(s);
    }
  }

  lemma {:induction false} NothingApplied(s: seq<int>, total: int)
    requires total > 0
    ensures Applied(s, 0, total) == 0
  {
    if s != [] {
      NothingApplied(s[..|s| - 1], total);
    }
  }

  lemma RowIsPlaces(row: nat, rows: nat, cols: nat)
    requires row < rows
    ensures Places(RowCells(row, cols), rows * cols)
  {
    var at := RowCells(row, cols);
    forall k | 0 <= k < |at| ensures at[k] < rows * cols {
      CellIsInside(row, rows, k, cols);
    }
  }

  lemma ColumnIsPlaces(col: nat, rows: nat, cols: nat)
    requires col < cols
    ensures Places(ColumnCells(col, rows, cols), rows * cols)
  {
    var at := ColumnCells(col, rows, cols);
    forall k | 0 <= k < |at| ensures at[k] < rows * cols {
      CellIsInside(k, rows, col, cols);
    }
    forall j, k | 0 <= j < k < |at| ensures at[j] != at[k] {
      CellsDiffer(j, col, k, col, cols);
    }
  }

  lemma RowsAreApart(row: nat, row2: nat, cols: nat, was: seq<int>, now: seq<int>)
    requires row != row2 && |was| == |now| && Places(RowCells(row2, cols), |was|)
    requires forall i :: 0 <= i < |was| && i !in RowCells(row, cols) ==> now[i] == was[i]
    ensures Sizes(now, RowCells(row2, cols)) == Sizes(was, RowCells(row2, cols))
  {
    var at := RowCells(row2, cols);
    forall k | 0 <= k < cols ensures now[at[k]] == was[at[k]] {
      forall j | 0 <= j < cols ensures RowCells(row, cols)[j] != at[k] {
        CellsDiffer(row, j, row2, k, cols);
      }
    }
  }

  lemma ColumnsAreApart(col: nat, col2: nat, rows: nat, cols: nat, was: seq<int>, now: seq<int>)
    requires col != col2 && col < cols && col2 < cols && |was| == |now| && Places(ColumnCells(col2, rows, cols), |was|)
    requires forall i :: 0 <= i < |was| && i !in ColumnCells(col, rows, cols) ==> now[i] == was[i]
    ensures Sizes(now, ColumnCells(col2, rows, cols)) == Sizes(was, ColumnCells(col2, rows, cols))
  {
    var at := ColumnCells(col2, rows, cols);
    forall k | 0 <= k < rows ensures now[at[k]] == was[at[k]] {
      forall j | 0 <= j < rows ensures ColumnCells(col, rows, cols)[j] != at[k] {
        CellsDiffer(j, col, k, col2, cols);
      }
    }
  }

  ghost predicate RowFitted(row: nat, rows: nat, cols: nat, was: seq<int>, now: seq<int>, w: int)
    requires row < rows && |was| == |now| == rows * cols
  {
    RowIsPlaces(row, rows, cols);
    var at := RowCells(row, cols);
    NonNegative(Sizes(was, at)) && Sizes(now, at) == Fitted(Sizes(was, at), w)
  }

  /** The widths of all rows. */
  method FitRows(widths: array<int>, rows: nat, cols: nat, w: int)
    requires widths.Length == rows * cols && cols > 0 && NonNegative(widths[..])
    modifies widths
    ensures forall row :: 0 <= row < rows ==> RowFitted(row, rows, cols, old(widths[..]), widths[..], w)
  {
    ghost var was := widths[..];
    var row := 0;
    while row < rows
      invariant row <= rows
      invariant forall i :: 0 <= i < row ==> RowFitted(i, rows, cols, was, widths[..], w)
      invariant forall i :: row <= i < rows ==> SameRow(i, rows, cols, was, widths[..])
    {
      ghost var before := widths[..];
      RowIsPlaces(row, rows, cols);
      assert SameRow(row, rows, cols, was, before);
      Fit(widths, RowCells(row, cols), w, false);
      forall i | 0 <= i < rows && i != row
        ensures i < row ==> RowFitted(i, rows, cols, was, widths[..], w)
        ensures i > row ==> SameRow(i, rows, cols, was, widths[..])
      {
        RowIsPlaces(i, rows, cols);
        RowsAreApart(row, i, cols, before, widths[..]);
        assert i < row ==> RowFitted(i, rows, cols, was, before, w);
        assert i > row ==> SameRow(i, rows, cols, was, before);
      }
      row := row + 1;
    }
  }

  ghost predicate SameRow(row: nat, rows: nat, cols: nat, was: seq<int>, now: seq<int>)
    requires row < rows && |was| == |now| == rows * cols
  {
    RowIsPlaces(row, rows, cols);
    Sizes(now, RowCells(row, cols)) == Sizes(was, RowCells(row, cols))
  }

  ghost predicate ColumnFitted(col: nat, rows: nat, cols: nat, was: seq<int>, now: seq<int>, h: int)
    requires col < cols && |was| == |now| == rows * cols
  {
    ColumnIsPlaces(col, rows, cols);
    var at := ColumnCells(col, rows, cols);
    NonNegative(Sizes(was, at)) && Sizes(now, at) == Fitted(Sizes(was, at), h)
  }

  ghost predicate SameColumn(col: nat, rows: nat, cols: nat, was: seq<int>, now: seq<int>)
    requires col < cols && |was| == |now| == rows * cols
  {
    ColumnIsPlaces(col, rows, cols);
    Sizes(now, ColumnCells(col, rows, cols)) == Sizes(was, ColumnCells(col, rows, cols))
  }

  /** The heights of all columns. */
  method FitColumns(heights: array<int>, rows: nat, cols: nat, h: int)
    requires heights.Length == rows * cols && rows > 0 && NonNegative(heights[..])
    modifies heights
    ensures forall col :: 0 <= col < cols ==> ColumnFitted(col, rows, cols, old(heights[..]), heights[..], h)
  {
    ghost var was := heights[..];
    var col := 0;
    while col < cols
      invariant col <= cols
      invariant forall i :: 0 <= i < col ==> ColumnFitted(i, rows, cols, was, heights[..], h)
      invariant forall i :: col <= i < cols ==> SameColumn(i, rows, cols, was, heights[..])
    {
      ghost var before := heights[..];
      ColumnIsPlaces(col, rows, cols);
      assert SameColumn(col, rows, cols, was, before);
      Fit(heights, ColumnCells(col, rows, cols), h, true);
      forall i | 0 <= i < cols && i != col
        ensures i < col ==> ColumnFitted(i, rows, cols, was, heights[..], h)
        ensures i > col ==> SameColumn(i, rows, cols, was, heights[..])
      {
        ColumnIsPlaces(i, rows, cols);
        ColumnsAreApart(col, i, rows, cols, before, heights[..]);
        assert i < col ==> ColumnFitted(i, rows, cols, was, before, h);
        assert i > col ==> SameColumn(i, rows, cols, was, before);
      }
      col := col + 1;
    }
  }

  // ---------------------------------------------------------------------
  // Positions
  // ---------------------------------------------------------------------

  /** Where the frames of a row, or of a column, start. */
  function Start(sizes: seq<int>, k: nat): int
    requires k <= |sizes|
  {
    Sum(sizes[..k])
  }

  /** Frames lie side by side: each starts where the one before ends, and together they
      take up the sum of the sizes. */
  lemma {:induction false} FramesTile(sizes: seq<int>, j: nat, k: nat)
    requires NonNegative(sizes) && j < k <= |sizes|
    ensures 0 <= Start(sizes, j) && Start(sizes, j) + sizes[j] <= Start(sizes, k) <= Start(sizes, |sizes|) == Sum(sizes)
    ensures k == j + 1 ==> Start(sizes, j) + sizes[j] == Start(sizes, k)
    decreases k
  {
    SumNext(sizes, j);
    SumIsNonNegative(sizes[..j]);
    if k > j + 1 {
      FramesTile(sizes, j, k - 1);
      SumNext(sizes, k - 1);
    }
    SumOfFront(sizes, k);
    assert sizes[..|sizes|] == sizes;
  }

  lemma {:induction false} SumOfFront(sizes: seq<int>, k: nat)
    requires NonNegative(sizes) && k <= |sizes|
    ensures Sum(sizes[..k]) <= Sum(sizes)
  {
    if k == |sizes| {
      assert sizes[..k] == sizes;
    } else {
      SumOfFront(sizes[..|sizes| - 1], k);
      assert sizes[..|sizes| - 1][..k] == sizes[..k];
    }
  }

  /** The frames of a row whose sizes were fitted lie side by side from 0 to the edge of
      the window; if the last one has no width, beyond it by fewer pixels than there are
      other frames. */
  lemma RowFillsWindow(s: seq<int>, w: int, k: nat)
    requires NonNegative(s) && s != [] && Sum(s) > 0 && w >= 0 && k < |s|
    ensures var r := Fitted(s, w);
            && |r| == |s| && 0 <= Start(r, k) && Start(r, k) + r[k] == Start(r, k + 1)
            && (Start(r, |r|) == w || (w < Start(r, |r|) < w + |s| - 1 && r[|r| - 1] == 0))
  {
    FittedFits(s, w);
    FramesTile(Fitted(s, w), k, k + 1);
  }

  /** Is the frame placed according to the sizes of its row and its column? */
  ghost predicate IsPlaced(row: nat, col: nat, rows: nat, cols: nat, widths: seq<int>, heights: seq<int>, x: seq<int>, y: seq<int>)
    requires row < rows && col < cols && |widths| == |heights| == |x| == |y| == rows * cols
  {
    RowIsPlaces(row, rows, cols);
    ColumnIsPlaces(col, rows, cols);
    CellIsInside(row, rows, col, cols);
    var c := Cell(row, col, cols);
    x[c] == Start(Sizes(widths, RowCells(row, cols)), col) && y[c] == Start(Sizes(heights, ColumnCells(col, rows, cols)), row)
  }

  /** The y position of a frame: the sum of the heights above it. */
  method TopOf(heights: array<int>, row: nat, col: nat, rows: nat, cols: nat) returns (top: int)
    requires heights.Length == rows * cols && row < rows && col < cols && Places(ColumnCells(col, rows, cols), rows * cols)
    ensures top == Start(Sizes(heights[..], ColumnCells(col, rows, cols)), row)
  {
    ghost var s := Sizes(heights[..], ColumnCells(col, rows, cols));
    top := 0;
    var row2 := 0;
    while row2 < row
      invariant row2 <= row && top == Start(s, row2)
    {
      SumNext(s, row2);
      CellIsInside(row2, rows, col, cols);
      top := top + heights[Cell(row2, col, cols)];
      row2 := row2 + 1;
    }
  }

  /** The positions of the frames of a row. */
  method PositionRow(widths: array<int>, heights: array<int>, row: nat, rows: nat, cols: nat, x: array<int>, y: array<int>)
    requires widths.Length == heights.Length == x.Length == y.Length == rows * cols && row < rows
    requires x != y && x != widths && x != heights && y != widths && y != heights
    modifies x, y
    ensures forall j :: 0 <= j < cols ==> IsPlaced(row, j, rows, cols, widths[..], heights[..], x[..], y[..])
    ensures forall i :: 0 <= i < x.Length && i !in RowCells(row, cols) ==> x[i] == old(x[i]) && y[i] == old(y[i])
  {
    RowIsPlaces(row, rows, cols);
    ghost var at := RowCells(row, cols);
    ghost var s := Sizes(widths[..], at);
    var left, col := 0, 0;
    while col < cols
      invariant col <= cols && left == Start(s, col)
      invariant forall j :: 0 <= j < col ==> IsPlaced(row, j, rows, cols, widths[..], heights[..], x[..], y[..])
      invariant forall i :: 0 <= i < x.Length && i !in at ==> x[i] == old(x[i]) && y[i] == old(y[i])
    {
      CellIsInside(row, rows, col, cols);
      ColumnIsPlaces(col, rows, cols);
      ghost var x0, y0 := x[..], y[..];
      var c := Cell(row, col, cols);
      var top := TopOf(heights, row, col, rows, cols);
      assert at[col] == c;
      x[c], y[c] := left, top;
      forall j | 0 <= j < col ensures IsPlaced(row, j, rows, cols, widths[..], heights[..], x[..], y[..]) {
        CellsDiffer(row, j, row, col, cols);
        assert IsPlaced(row, j, rows, cols, widths[..], heights[..], x0, y0);
      }
      SumNext(s, col);
      left := left + widths[c];
      col := col + 1;
    }
  }

  /** The positions of all frames. */
  method PositionFrames(widths: array<int>, heights: array<int>, rows: nat, cols: nat) returns (x: array<int>, y: array<int>)
    requires widths.Length == heights.Length == rows * cols
    ensures fresh(x) && fresh(y) && x.Length == y.Length == rows * cols
    ensures forall i, j :: 0 <= i < rows && 0 <= j < cols ==> IsPlaced(i, j, rows, cols, widths[..], heights[..], x[..], y[..])
  {
    x := new int[rows * cols];
    y := new int[rows * cols];
    var row := 0;
    while row < rows
      invariant row <= rows
      invariant forall i, j :: 0 <= i < row && 0 <= j < cols ==> IsPlaced(i, j, rows, cols, widths[..], heights[..], x[..], y[..])
    {
      ghost var x0, y0 := x[..], y[..];
      PositionRow(widths, heights, row, rows, cols, x, y);
      forall i, j | 0 <= i < row && 0 <= j < cols
        ensures IsPlaced(i, j, rows, cols, widths[..], heights[..], x[..], y[..])
      {
        assert IsPlaced(i, j, rows, cols, widths[..], heights[..], x0, y0);
        CellIsInside(i, rows, j, cols);
        NotInRow(i, j, row, cols);
      }
      row := row + 1;
    }
  }

  lemma NotInRow(i: nat, j: nat, row: nat, cols: nat)
    requires j < cols && i != row
    ensures Cell(i, j, cols) !in RowCells(row, cols)
  {
    forall k | 0 <= k < cols ensures RowCells(row, cols)[k] != Cell(i, j, cols) {
      CellsDiffer(row, k, i, j, cols);
    }
  }
}
