/** Day 11: galaxies ('#') in an image whose empty rows and columns are expanded. Every
    empty row or column stands for `mult` of them; a galaxy's coordinate is its index plus
    (mult - 1) times the number of empty lines at or before it, and the answer is the sum
    of Manhattan distances over all pairs of galaxies. Part 1 adds the running count once,
    which is the case mult = 2; part 2 takes the multiplier as a parameter. Coordinates
    are unbounded integers here (the source uses i32 in part 1 and i64 in part 2). */
module Day11Galaxies {
  type Grid = seq<seq<char>>

  datatype Coord = Coord(y: int, x: int)

  function Abs(n: int): nat
  {
    if n < 0 then -n else n
  }

  /** `Coord::manhattan`. */
  function Manhattan(a: Coord, b: Coord): nat
  {
    Abs(a.y - b.y) + Abs(a.x - b.x)
  }

  /** The distance is symmetric, zero exactly between equal points, and obeys the
      triangle inequality. */
  lemma ManhattanMetric(a: Coord, b: Coord, c: Coord)
    ensures Manhattan(a, b) == Manhattan(b, a)
    ensures Manhattan(a, b) == 0 <==> a == b
    ensures Manhattan(a, c) <= Manhattan(a, b) + Manhattan(b, c)
  {
  }

  predicate Rectangular(g: Grid)
  {
    |g| > 0 && forall i :: 0 <= i < |g| ==> |g[i]| == |g[0]|
  }

  /** A row is empty when every cell is '.'. */
  predicate EmptyRow(row: seq<char>)
  {
    forall k :: 0 <= k < |row| ==> row[k] == '.'
  }

  /** A column is empty when no cell in it is '#'. */
  predicate EmptyColumn(g: Grid, j: int)
    requires Rectangular(g) && 0 <= j < |g[0]|
  {
    forall i :: 0 <= i < |g| ==> g[i][j] != '#'
  }

  function Flag(b: bool): int
  {
    if b then 1 else 0
  }

  /** The loops filling `starless_y` and `starless_x`: 1 for each empty row or column. */
  method EmptyLines(g: Grid) returns (rows: seq<int>, cols: seq<int>)
    requires Rectangular(g)
    ensures |rows| == |g| && forall i :: 0 <= i < |g| ==> rows[i] == Flag(EmptyRow(g[i]))
    ensures |cols| == |g[0]| && forall j :: 0 <= j < |g[0]| ==> cols[j] == Flag(EmptyColumn(g, j))
  {
    var h, w := |g|, |g[0]|;
    rows := seq(h, _ => 0);
    cols := seq(w, _ => 0);
    for i := 0 to h
      invariant |rows| == h
      invariant forall k :: 0 <= k < i ==> rows[k] == Flag(EmptyRow(g[k]))
      invariant forall k :: i <= k < h ==> rows[k] == 0
    {
      if EmptyRow(g[i]) {
        rows := rows[i := 1];
      }
    }
    for j := 0 to w
      invariant |cols| == w
      invariant forall k :: 0 <= k < j ==> cols[k] == Flag(EmptyColumn(g, k))
      invariant forall k :: j <= k < w ==> cols[k] == 0
    {
      var found := false;
      var i := 0;
      while i < h
        invariant 0 <= i <= h
        invariant found <==> exists k :: 0 <= k < i && g[k][j] == '#'
        invariant found ==> i < h
        decreases h - i, if found then 0 else 1
      {
        if g[i][j] == '#' {
          found := true;
          break;
        }
        i := i + 1;
      }
      if !found {
        cols := cols[j := 1];
      }
    }
  }

  function Sum(s: seq<int>): int
  {
    if s == [] then 0 else Sum(s[..|s| - 1]) + s[|s| - 1]
  }

  lemma {:induction false} SumSplit(s: seq<int>, k: nat)
    requires k <= |s|
    ensures Sum(s) == Sum(s[..k]) + Sum(s[k..])
    decreases |s|
  {
    if k < |s| {
      var f := s[..|s| - 1];
      SumSplit(f, k);
      assert f[..k] == s[..k] && f[k..] == s[k..|s| - 1];
      assert s[k..][..|s[k..]| - 1] == s[k..|s| - 1];
    } else {
      assert s[..k] == s;
    }
  }

  /** The running totals of the `scan`. */
  function CumSum(s: seq<int>): (r: seq<int>)
    ensures |r| == |s|
  {
    if s == [] then []
    else
      var c := CumSum(s[..|s| - 1]);
      c + [(if c == [] then 0 else c[|c| - 1]) + s[|s| - 1]]
  }

  /** Each running total is the sum of the flags up to and including its index. */
  lemma {:induction false} CumSumAt(s: seq<int>, i: nat)
    requires i < |s|
    ensures CumSum(s)[i] == Sum(s[..i + 1])
    decreases |s|
  {
    var f := s[..|s| - 1];
    if i < |s| - 1 {
      CumSumAt(f, i);
      assert f[..i + 1] == s[..i + 1];
    } else if i > 0 {
      CumSumAt(f, i - 1);
      assert f[..i] == s[..i];
      assert s[..i + 1][..i] == s[..i];
    } else {
      assert s[..1][..0] == [];
    }
  }

  /** The row-major list of galaxy cells of one row. */
  function RowStars(row: seq<char>, i: int): (r: seq<Coord>)
    ensures forall k :: 0 <= k < |r| ==> r[k].y == i && 0 <= r[k].x < |row| && row[r[k].x] == '#'
  {
    if row == [] then []
    else RowStars(row[..|row| - 1], i) + (if row[|row| - 1] == '#' then [Coord(i, |row| - 1)] else [])
  }

  /** The row-major list of galaxy cells. */
  function Stars(g: Grid): (r: seq<Coord>)
    ensures forall k :: 0 <= k < |r| ==> 0 <= r[k].y < |g| && 0 <= r[k].x < |g[r[k].y]| && g[r[k].y][r[k].x] == '#'
  {
    if g == [] then []
    else
      var front := Stars(g[..|g| - 1]);
      assert forall k :: 0 <= k < |front| ==> g[..|g| - 1][front[k].y] == g[front[k].y];
      front + RowStars(g[|g| - 1], |g| - 1)
  }

  lemma {:induction false} RowStarsComplete(row: seq<char>, i: int, j: nat)
    requires j < |row| && row[j] == '#'
    ensures Coord(i, j) in RowStars(row, i)
    decreases |row|
  {
    if j < |row| - 1 {
      RowStarsComplete(row[..|row| - 1], i, j);
    }
  }

  /** Every galaxy of the image is listed. */
  lemma {:induction false} StarsComplete(g: Grid, i: nat, j: nat)
    requires i < |g| && j < |g[i]| && g[i][j] == '#'
    ensures Coord(i, j) in Stars(g)
    decreases |g|
  {
    if i < |g| - 1 {
      StarsComplete(g[..|g| - 1], i, j);
    } else {
      RowStarsComplete(g[i], i, j);
    }
  }

  /** A galaxy's coordinate after expansion: index plus (mult - 1) times the running count
      of empty lines. */
  function Expand(c: Coord, ys: seq<int>, xs: seq<int>, mult: int): Coord
    requires 0 <= c.y < |ys| && 0 <= c.x < |xs|
  {
    Coord(c.y + (mult - 1) * ys[c.y], c.x + (mult - 1) * xs[c.x])
  }

  function ExpandAll(ps: seq<Coord>, ys: seq<int>, xs: seq<int>, mult: int): (r: seq<Coord>)
    requires Fit(ps, ys, xs)
    ensures |r| == |ps|
  {
    seq(|ps|, k requires 0 <= k < |ps| => Expand(ps[k], ys, xs, mult))
  }

  /** The flags of a rectangular image. */
  function RowFlags(g: Grid): (r: seq<int>)
    ensures |r| == |g|
  {
    seq(|g|, i requires 0 <= i < |g| => Flag(EmptyRow(g[i])))
  }

  function ColumnFlags(g: Grid): (r: seq<int>)
    requires Rectangular(g)
    ensures |r| == |g[0]|
  {
    seq(|g[0]|, j requires 0 <= j < |g[0]| => Flag(EmptyColumn(g, j)))
  }

  /** The expanded galaxies of an image. */
  function Galaxies(g: Grid, mult: int): seq<Coord>
    requires Rectangular(g)
  {
    var ys, xs := CumSum(RowFlags(g)), CumSum(ColumnFlags(g));
    StarsFit(g, |g|, ys, xs);
    assert g[..|g|] == g;
    ExpandAll(Stars(g), ys, xs, mult)
  }

  /** Every listed cell indexes into the running totals. */
  predicate Fit(ps: seq<Coord>, ys: seq<int>, xs: seq<int>)
  {
    forall k :: 0 <= k < |ps| ==> 0 <= ps[k].y < |ys| && 0 <= ps[k].x < |xs|
  }

  lemma ExpandAllConcat(ps: seq<Coord>, qs: seq<Coord>, ys: seq<int>, xs: seq<int>, mult: int)
    requires Fit(ps, ys, xs) && Fit(qs, ys, xs)
    ensures Fit(ps + qs, ys, xs)
    ensures ExpandAll(ps + qs, ys, xs, mult) == ExpandAll(ps, ys, xs, mult) + ExpandAll(qs, ys, xs, mult)
  {
  }

  lemma RowStarsAppend(row: seq<char>, i: int, j: nat)
    requires j < |row|
    ensures RowStars(row[..j + 1], i) ==
      RowStars(row[..j], i) + (if row[j] == '#' then [Coord(i, j)] else [])
  {
    assert row[..j + 1][..j] == row[..j];
  }

  lemma StarsAppend(g: Grid, i: nat)
    requires i < |g|
    ensures Stars(g[..i + 1]) == Stars(g[..i]) + RowStars(g[i], i)
  {
    assert g[..i + 1][..i] == g[..i] && g[..i + 1][i] == g[i];
  }

  lemma StarsFit(g: Grid, i: nat, ys: seq<int>, xs: seq<int>)
    requires Rectangular(g) && i <= |g| && |ys| == |g| && |xs| == |g[0]|
    ensures Fit(Stars(g[..i]), ys, xs)
  {
    var s := Stars(g[..i]);
    forall k | 0 <= k < |s|
      ensures 0 <= s[k].y < |ys| && 0 <= s[k].x < |xs|
    {
      assert g[..i][s[k].y] == g[s[k].y];
    }
  }

  /** The galaxies of row i, in order, moved by the expansion. */
  method ParseRow(g: Grid, i: nat, ys: seq<int>, xs: seq<int>, mult: int) returns (row: seq<Coord>)
    requires Rectangular(g) && i < |g| && |ys| == |g| && |xs| == |g[0]|
    ensures Fit(RowStars(g[i], i), ys, xs)
    ensures row == ExpandAll(RowStars(g[i], i), ys, xs, mult)
  {
    row := [];
    for j := 0 to |g[i]|
      invariant row == ExpandAll(RowStars(g[i][..j], i), ys, xs, mult)
    {
      RowStarsAppend(g[i], i, j);
      if g[i][j] == '#' {
        row := row + [Expand(Coord(i, j), ys, xs, mult)];
      }
    }
    assert g[i][..|g[i]|] == g[i];
  }

  /** `parse`: the galaxies in row-major order, each moved by the expansion. */
  method Parse(g: Grid, mult: int) returns (galaxies: seq<Coord>)
    requires Rectangular(g)
    ensures galaxies == Galaxies(g, mult)
  {
    var rows, cols := EmptyLines(g);
    assert rows == RowFlags(g) && cols == ColumnFlags(g);
    var ys, xs := CumSum(rows), CumSum(cols);
    galaxies := [];
    for i := 0 to |g|
      invariant Fit(Stars(g[..i]), ys, xs)
      invariant galaxies == ExpandAll(Stars(g[..i]), ys, xs, mult)
    {
      var row := ParseRow(g, i, ys, xs, mult);
      ExpandNextRow(g, i, ys, xs, mult);
      galaxies := galaxies + row;
    }
    assert g[..|g|] == g;
  }

  /** Adding row i to the rows before it adds that row's moved galaxies at the end. */
  lemma ExpandNextRow(g: Grid, i: nat, ys: seq<int>, xs: seq<int>, mult: int)
    requires i < |g| && Fit(Stars(g[..i]), ys, xs) && Fit(RowStars(g[i], i), ys, xs)
    ensures Fit(Stars(g[..i + 1]), ys, xs)
    ensures ExpandAll(Stars(g[..i + 1]), ys, xs, mult) ==
            ExpandAll(Stars(g[..i]), ys, xs, mult) + ExpandAll(RowStars(g[i], i), ys, xs, mult)
  {
    StarsAppend(g, i);
    ExpandAllConcat(Stars(g[..i]), RowStars(g[i], i), ys, xs, mult);
  }

  /** The source's test: multiplier 1 leaves every coordinate where it is. */
  lemma MultiplierOne(g: Grid)
    requires Rectangular(g)
    ensures Galaxies(g, 1) == Stars(g)
  {
  }

  /** The difference of two running totals is the sum of the flags in between. */
  lemma CumSumDiff(flags: seq<int>, a: nat, b: nat)
    requires a <= b < |flags|
    ensures CumSum(flags)[b] - CumSum(flags)[a] == Sum(flags[a + 1..b + 1])
  {
    CumSumAt(flags, a);
    CumSumAt(flags, b);
    var t := flags[..b + 1];
    SumSplit(t, a + 1);
    assert t[..a + 1] == flags[..a + 1] && t[a + 1..] == flags[a + 1..b + 1];
  }

  lemma Widen(m: int, a: int, b: int, ca: int, cb: int, e: int)
    requires cb - ca == e
    ensures (b + m * cb) - (a + m * ca) == (b - a) + m * e
  {
    assert m * cb - m * ca == m * (cb - ca);
  }

  /** Two rows a <= b end up (b - a) + (mult - 1)·e apart, where e counts the empty rows
      after a up to b: each empty line in between is widened to mult lines. */
  lemma ExpandedGap(flags: seq<int>, a: nat, b: nat, mult: int)
    requires a <= b < |flags|
    ensures var c := CumSum(flags);
      (b + (mult - 1) * c[b]) - (a + (mult - 1) * c[a]) == (b - a) + (mult - 1) * Sum(flags[a + 1..b + 1])
  {
    var c := CumSum(flags);
    CumSumDiff(flags, a, b);
    Widen(mult - 1, a, b, c[a], c[b], Sum(flags[a + 1..b + 1]));
  }

  /** The distances from galaxy i to galaxies lo .. hi - 1. */
  function RowDist(gs: seq<Coord>, i: nat, lo: nat, hi: nat): nat
    requires i < |gs| && hi <= |gs|
    decreases hi
  {
    if hi <= lo then 0 else RowDist(gs, i, lo, hi - 1) + Manhattan(gs[i], gs[hi - 1])
  }

  /** The pairs (i, j) with i < m and i < j, in the order of the loops. */
  function Pairs(gs: seq<Coord>, m: nat): nat
    requires m <= |gs|
  {
    if m == 0 then 0 else Pairs(gs, m - 1) + RowDist(gs, m - 1, m, |gs|)
  }

  /** `shortest_paths`. */
  method ShortestPaths(gs: seq<Coord>) returns (dist: nat)
    ensures dist == Pairs(gs, |gs|)
  {
    dist := 0;
    var n := |gs|;
    for i := 0 to n
      invariant dist == Pairs(gs, i)
    {
      for j := i + 1 to n
        invariant dist == Pairs(gs, i) + RowDist(gs, i, i + 1, j)
      {
        dist := dist + Manhattan(gs[i], gs[j]);
      }
    }
  }

  /** All ordered pairs (i, j) with i < m, j < |gs|. */
  function Ordered(gs: seq<Coord>, m: nat): nat
    requires m <= |gs|
  {
    if m == 0 then 0 else Ordered(gs, m - 1) + RowDist(gs, m - 1, 0, |gs|)
  }

  lemma {:induction false} RowSplit(gs: seq<Coord>, i: nat, lo: nat, mid: nat, hi: nat)
    requires i < |gs| && lo <= mid <= hi <= |gs|
    ensures RowDist(gs, i, lo, hi) == RowDist(gs, i, lo, mid) + RowDist(gs, i, mid, hi)
    decreases hi
  {
    if hi > mid {
      RowSplit(gs, i, lo, mid, hi - 1);
    }
  }

  /** The pairs below the diagonal, with the upper end of each row fixed at n. */
  function Lower(gs: seq<Coord>, m: nat): nat
    requires m <= |gs|
  {
    if m == 0 then 0 else Lower(gs, m - 1) + RowDist(gs, m - 1, 0, m - 1)
  }

  /** Pairs (i, j) with i < m and i < j < n. */
  function Upper(gs: seq<Coord>, m: nat, n: nat): nat
    requires m <= n <= |gs|
  {
    if m == 0 then 0 else Upper(gs, m - 1, n) + RowDist(gs, m - 1, m, n)
  }

  /** The distances from galaxies 0 .. m - 1 to galaxy n. */
  function Column(gs: seq<Coord>, m: nat, n: nat): nat
    requires m <= |gs| && n < |gs|
  {
    if m == 0 then 0 else Column(gs, m - 1, n) + Manhattan(gs[m - 1], gs[n])
  }

  lemma {:induction false} UpperGrow(gs: seq<Coord>, m: nat, n: nat)
    requires m <= n < |gs|
    ensures Upper(gs, m, n + 1) == Upper(gs, m, n) + Column(gs, m, n)
    decreases m
  {
    if m > 0 {
      UpperGrow(gs, m - 1, n);
    }
  }

  /** Row n's distances to the earlier galaxies are column n's distances from them. */
  lemma {:induction false} RowIsColumn(gs: seq<Coord>, n: nat, m: nat)
    requires m <= n < |gs|
    ensures RowDist(gs, n, 0, m) == Column(gs, m, n)
    decreases m
  {
    if m > 0 {
      RowIsColumn(gs, n, m - 1);
      ManhattanMetric(gs[n], gs[m - 1], gs[n]);
    }
  }

  /** Below and above the diagonal sum to the same. */
  lemma {:induction false} LowerIsUpper(gs: seq<Coord>, m: nat)
    requires m <= |gs|
    ensures Lower(gs, m) == Upper(gs, m, m)
    decreases m
  {
    if m > 0 {
      LowerIsUpper(gs, m - 1);
      UpperGrow(gs, m - 1, m - 1);
      RowIsColumn(gs, m - 1, m - 1);
      assert RowDist(gs, m - 1, m, m) == 0;
    }
  }

  lemma {:induction false} UpperRows(gs: seq<Coord>, m: nat, n: nat)
    requires m <= n <= |gs|
    ensures Ordered(gs, m) == Lower(gs, m) + Upper(gs, m, |gs|)
    decreases m
  {
    if m > 0 {
      UpperRows(gs, m - 1, n);
      RowSplit(gs, m - 1, 0, m - 1, |gs|);
      RowSplit(gs, m - 1, m - 1, m, |gs|);
      ManhattanMetric(gs[m - 1], gs[m - 1], gs[m - 1]);
    }
  }

  /** Each unordered pair is counted once: twice the loops' total is the sum over all
      ordered pairs. */
  lemma PairsHalfOfAll(gs: seq<Coord>)
    ensures 2 * Pairs(gs, |gs|) == Ordered(gs, |gs|)
  {
    var n := |gs|;
    UpperRows(gs, n, n);
    LowerIsUpper(gs, n);
    PairsAreUpper(gs, n);
  }

  lemma {:induction false} PairsAreUpper(gs: seq<Coord>, m: nat)
    requires m <= |gs|
    ensures Pairs(gs, m) == Upper(gs, m, |gs|)
    decreases m
  {
    if m > 0 {
      PairsAreUpper(gs, m - 1);
    }
  }

  /** `solve`: part 1 is mult = 2, part 2 passes its multiplier. */
  method Solve(g: Grid, mult: int) returns (dist: nat)
    requires Rectangular(g)
    ensures 2 * dist == Ordered(Galaxies(g, mult), |Galaxies(g, mult)|)
  {
    var galaxies := Parse(g, mult);
    dist := ShortestPaths(galaxies);
    PairsHalfOfAll(galaxies);
  }
}
