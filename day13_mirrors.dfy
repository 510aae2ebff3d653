/** Day 13 part 1: lines of reflection in patterns of ash and rocks. A horizontal mirror
    after row m (0-based) reflects when rows m - i and m + 1 + i agree for every i that
    keeps both inside the pattern; the first such m is reported as m + 1 rows above the
    mirror. Columns are searched the same way. A pattern must have exactly one mirror, and
    it adds 100 per row above a horizontal mirror or 1 per column left of a vertical one. */
module Day13Mirrors {
  import opened Wrappers

  type Pattern = seq<seq<char>>

  /** The source indexes `data[0]`, so a pattern has a first row, and every row is as wide. */
  predicate Rectangular(g: Pattern)
  {
    |g| > 0 && forall i :: 0 <= i < |g| ==> |g[i]| == |g[0]|
  }

  function Min(a: int, b: int): int
  {
    if a < b then a else b
  }

  /** The pairs of rows a mirror after row m compares. */
  function RowComparisons(g: Pattern, m: nat): nat
    requires m + 1 < |g|
  {
    Min(m + 1, |g| - m - 1)
  }

  /** Rows m - i and m + 1 + i agree in every column. */
  predicate RowPairAgrees(g: Pattern, m: nat, i: nat)
    requires Rectangular(g) && i <= m && m + 1 + i < |g|
  {
    var top, bottom := g[m - i], g[m + 1 + i];
    forall j :: 0 <= j < |g[0]| ==> top[j] == bottom[j]
  }

  /** A horizontal mirror after row m: the rows on either side agree out to the nearer edge. */
  predicate RowsMirror(g: Pattern, m: nat)
    requires Rectangular(g) && m + 1 < |g|
  {
    forall i :: 0 <= i < RowComparisons(g, m) ==> RowPairAgrees(g, m, i)
  }

  /** The pairs of columns a mirror after column m compares. */
  function ColumnComparisons(g: Pattern, m: nat): nat
    requires Rectangular(g) && m + 1 < |g[0]|
  {
    Min(m + 1, |g[0]| - m - 1)
  }

  /** Columns m - j and m + 1 + j agree in every row. */
  predicate ColumnPairAgrees(g: Pattern, m: nat, j: nat)
    requires Rectangular(g) && j <= m && m + 1 + j < |g[0]|
  {
    var left, right := m - j, m + 1 + j;
    forall i :: 0 <= i < |g| ==> g[i][left] == g[i][right]
  }

  /** A vertical mirror after column m. */
  predicate ColumnsMirror(g: Pattern, m: nat)
    requires Rectangular(g) && m + 1 < |g[0]|
  {
    forall j :: 0 <= j < ColumnComparisons(g, m) ==> ColumnPairAgrees(g, m, j)
  }

  /** The line count of the first horizontal mirror at or after row `from`. */
  function FirstRow(g: Pattern, from: nat): (r: Option<nat>)
    requires Rectangular(g)
    ensures r.Some? ==> from + 1 <= r.value < |g| && RowsMirror(g, r.value - 1)
    ensures r.Some? ==> forall m :: from <= m < r.value - 1 ==> !RowsMirror(g, m)
    ensures r.None? ==> forall m :: from <= m < |g| - 1 ==> !RowsMirror(g, m)
    decreases |g| - from
  {
    if from + 1 >= |g| then None
    else if RowsMirror(g, from) then Some(from + 1)
    else FirstRow(g, from + 1)
  }

  /** The line count of the first vertical mirror at or after column `from`. */
  function FirstColumn(g: Pattern, from: nat): (r: Option<nat>)
    requires Rectangular(g)
    ensures r.Some? ==> from + 1 <= r.value < |g[0]| && ColumnsMirror(g, r.value - 1)
    ensures r.Some? ==> forall m :: from <= m < r.value - 1 ==> !ColumnsMirror(g, m)
    ensures r.None? ==> forall m :: from <= m < |g[0]| - 1 ==> !ColumnsMirror(g, m)
    decreases |g[0]| - from
  {
    if from + 1 >= |g[0]| then None
    else if ColumnsMirror(g, from) then Some(from + 1)
    else FirstColumn(g, from + 1)
  }

  /** `Cave::find_horizontal_mirror`: the first mirror's line count, or None. */
  method FindHorizontalMirror(g: Pattern) returns (r: Option<nat>)
    requires Rectangular(g)
    ensures r == FirstRow(g, 0)
    ensures r.Some? ==> 1 <= r.value < |g| && RowsMirror(g, r.value - 1)
    ensures r.Some? ==> forall m :: 0 <= m < r.value - 1 ==> !RowsMirror(g, m)
    ensures r.None? ==> forall m :: 0 <= m < |g| - 1 ==> !RowsMirror(g, m)
  {
    var nrows := |g|;
    for mirror := 0 to nrows - 1
      invariant FirstRow(g, mirror) == FirstRow(g, 0)
    {
      var possible := true;
      var comparisons := Min(mirror + 1, nrows - mirror - 1);
      var i := 0;
      while i < comparisons
        invariant 0 <= i <= comparisons
        invariant possible ==> forall a :: 0 <= a < i ==> RowPairAgrees(g, mirror, a)
        invariant !possible ==> !RowsMirror(g, mirror)
        decreases comparisons - i, if possible then 1 else 0
      {
        possible := RowPairMatches(g, mirror, i);
        if !possible {
          break;
        }
        i := i + 1;
      }
      if possible {
        return Some(mirror + 1);
      }
    }
    return None;
  }

  /** The column loop of `Cave::find_horizontal_mirror`: the `i`-th row pair around
      `mirror` agrees in every column. */
  method RowPairMatches(g: Pattern, mirror: nat, i: nat) returns (same: bool)
    requires Rectangular(g) && i <= mirror && mirror + 1 + i < |g|
    ensures same == RowPairAgrees(g, mirror, i)
  {
    var top, bottom := g[mirror - i], g[mirror + i + 1];
    var j := 0;
    while j < |g[0]|
      invariant 0 <= j <= |g[0]|
      invariant forall b :: 0 <= b < j ==> top[b] == bottom[b]
    {
      if top[j] != bottom[j] {
        return false;
      }
      j := j + 1;
    }
    return true;
  }

  /** `Cave::find_vertical_mirror`: the same search over columns. */
  method FindVerticalMirror(g: Pattern) returns (r: Option<nat>)
    requires Rectangular(g) && |g[0]| > 0
    ensures r == FirstColumn(g, 0)
    ensures r.Some? ==> 1 <= r.value < |g[0]| && ColumnsMirror(g, r.value - 1)
    ensures r.Some? ==> forall m :: 0 <= m < r.value - 1 ==> !ColumnsMirror(g, m)
    ensures r.None? ==> forall m :: 0 <= m < |g[0]| - 1 ==> !ColumnsMirror(g, m)
  {
    var ncols := |g[0]|;
    for mirror := 0 to ncols - 1
      invariant FirstColumn(g, mirror) == FirstColumn(g, 0)
    {
      var possible := true;
      var comparisons := Min(mirror + 1, ncols - mirror - 1);
      var j := 0;
      while j < comparisons
        invariant 0 <= j <= comparisons
        invariant possible ==> forall a :: 0 <= a < j ==> ColumnPairAgrees(g, mirror, a)
        invariant !possible ==> !ColumnsMirror(g, mirror)
        decreases comparisons - j, if possible then 1 else 0
      {
        possible := ColumnPairMatches(g, mirror, j);
        if !possible {
          break;
        }
        j := j + 1;
      }
      if possible {
        return Some(mirror + 1);
      }
    }
    return None;
  }

  /** The row loop of `Cave::find_vertical_mirror`: the `j`-th column pair around
      `mirror` agrees in every row. */
  method ColumnPairMatches(g: Pattern, mirror: nat, j: nat) returns (same: bool)
    requires Rectangular(g) && j <= mirror && mirror + 1 + j < |g[0]|
    ensures same == ColumnPairAgrees(g, mirror, j)
  {
    var left, right := mirror - j, mirror + j + 1;
    var i := 0;
    while i < |g|
      invariant 0 <= i <= |g|
      invariant forall b :: 0 <= b < i ==> g[b][left] == g[b][right]
    {
      if g[i][left] != g[i][right] {
        return false;
      }
      i := i + 1;
    }
    return true;
  }

  /** The pattern read column by column. */
  function Transpose(g: Pattern): (t: Pattern)
    requires Rectangular(g) && |g[0]| > 0
    ensures Rectangular(t) && |t| == |g[0]| && |t[0]| == |g|
    ensures forall j, i :: 0 <= j < |g[0]| && 0 <= i < |g| ==> t[j][i] == g[i][j]
  {
    seq(|g[0]|, j requires 0 <= j < |g[0]| => seq(|g|, i requires 0 <= i < |g| => g[i][j]))
  }

  /** The column search is the row search on the transposed pattern. */
  lemma ColumnsAreTransposedRows(g: Pattern, m: nat)
    requires Rectangular(g) && m + 1 < |g[0]|
    ensures ColumnsMirror(g, m) <==> RowsMirror(Transpose(g), m)
  {
    var t := Transpose(g);
    assert ColumnComparisons(g, m) == RowComparisons(t, m);
    forall j | 0 <= j < ColumnComparisons(g, m)
      ensures ColumnPairAgrees(g, m, j) <==> RowPairAgrees(t, m, j)
    {
      var top, bottom := t[m - j], t[m + 1 + j];
      if ColumnPairAgrees(g, m, j) {
        forall i | 0 <= i < |g| ensures top[i] == bottom[i] {
          assert g[i][m - j] == g[i][m + 1 + j];
        }
      }
      if RowPairAgrees(t, m, j) {
        forall i | 0 <= i < |g| ensures g[i][m - j] == g[i][m + 1 + j] {
          assert top[i] == bottom[i];
        }
      }
    }
  }

  /** A horizontal mirror after row m reflects every row of the thinner side onto the
      other: row m - i and row m + 1 + i are equal whenever both exist. */
  lemma MirrorReflects(g: Pattern, m: nat, i: nat)
    requires Rectangular(g) && m + 1 < |g| && RowsMirror(g, m)
    requires i <= m && m + 1 + i < |g|
    ensures g[m - i] == g[m + 1 + i]
  {
    assert RowPairAgrees(g, m, i);
  }

  /** What a pattern adds, or None when it does not have exactly one mirror. */
  function Score(h: Option<nat>, v: Option<nat>): (r: Option<nat>)
    ensures r.Some? <==> h.Some? != v.Some?
    ensures r.Some? ==> r.value == if h.Some? then 100 * h.value else v.value
  {
    match (h, v)
    case (Some(a), None) => Some(100 * a)
    case (None, Some(b)) => Some(b)
    case _ => None
  }

  function Total(caves: seq<Pattern>): Option<nat>
    requires forall k :: 0 <= k < |caves| ==> Rectangular(caves[k])
  {
    if caves == [] then Some(0)
    else
      var c := caves[|caves| - 1];
      var t, s := Total(caves[..|caves| - 1]), Score(FirstRow(c, 0), FirstColumn(c, 0));
      if t.Some? && s.Some? then Some(t.value + s.value) else None
  }

  /** Once a pattern panics, the whole total does. */
  lemma {:induction false} NoneStays(caves: seq<Pattern>, k: nat)
    requires forall j :: 0 <= j < |caves| ==> Rectangular(caves[j])
    requires 1 <= k <= |caves| && Total(caves[..k]) == None
    ensures Total(caves) == None
    decreases |caves| - k
  {
    if k < |caves| {
      assert caves[..k + 1][..k] == caves[..k];
      NoneStays(caves, k + 1);
    } else {
      assert caves[..k] == caves;
    }
  }

  /** `solve`: every pattern's first horizontal and first vertical mirror are looked for;
      a pattern with both or neither panics (None). */
  method Solve(caves: seq<Pattern>) returns (total: Option<nat>)
    requires forall k :: 0 <= k < |caves| ==> Rectangular(caves[k]) && |caves[k][0]| > 0
    ensures total == Total(caves)
  {
    var sum := 0;
    for k := 0 to |caves|
      invariant Total(caves[..k]) == Some(sum)
    {
      var c := caves[k];
      var h := FindHorizontalMirror(c);
      var v := FindVerticalMirror(c);
      assert caves[..k + 1][..k] == caves[..k];
      match Score(h, v) {
        case None =>
          NoneStays(caves, k + 1);
          return None;
        case Some(s) =>
          sum := sum + s;
      }
    }
    assert caves[..|caves|] == caves;
    return Some(sum);
  }
}
