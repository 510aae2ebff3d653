/** Day 3, part 1: the engine schematic is a grid of characters. Every number that is
    connected to a symbol through a chain of non-'.' cells (in the eight directions) is a part
    number; the answer is their sum. The source floods the grid from every symbol, marking
    a `visited` grid in place, then reads the marked digit runs row by row. */
module Day03Engine {
  import opened Wrappers

  type Cell = (int, int)

  predicate IsDigit(c: char)
  {
    '0' <= c <= '9'
  }

  function DigitValue(c: char): int
    requires IsDigit(c)
  {
    c as int - '0' as int
  }

  /** Every row is as wide as the first one. */
  predicate Rectangular<T>(board: seq<seq<T>>)
  {
    forall i :: 0 <= i < |board| ==> |board[i]| == |board[0]|
  }

  function Width<T>(board: seq<seq<T>>): nat
  {
    if board == [] then 0 else |board[0]|
  }

  predicate InBounds<T>(board: seq<seq<T>>, c: Cell)
  {
    0 <= c.0 < |board| && 0 <= c.1 < Width(board)
  }

  /** A cell the flood can enter: in bounds and not '.'. */
  predicate Open(board: seq<seq<char>>, c: Cell)
    requires Rectangular(board)
  {
    InBounds(board, c) && board[c.0][c.1] != '.'
  }

  /** A symbol: neither a digit nor '.'; the flood starts from each of them. */
  predicate IsSymbol(board: seq<seq<char>>, c: Cell)
    requires Rectangular(board)
  {
    InBounds(board, c) && board[c.0][c.1] != '.' && !IsDigit(board[c.0][c.1])
  }

  /** The eight directions, in the order `floodfill` visits them. */
  const Dirs: seq<Cell> := [(-1, -1), (-1, 0), (-1, 1), (0, -1), (0, 1), (1, -1), (1, 0), (1, 1)]

  function Step(c: Cell, d: Cell): Cell
  {
    (c.0 + d.0, c.1 + d.1)
  }

  /** The cells marked in `v`. */
  ghost function Marked(v: array2<bool>): set<Cell>
    reads v
  {
    set i, j | 0 <= i < v.Length0 && 0 <= j < v.Length1 && v[i, j] :: (i, j)
  }

  /** The cells not yet marked in `v`: the flood's termination measure. */
  ghost function Unmarked(v: array2<bool>): set<Cell>
    reads v
  {
    set i, j | 0 <= i < v.Length0 && 0 <= j < v.Length1 && !v[i, j] :: (i, j)
  }

  /** Every open neighbour of a cell of `within` lies in `s`. */
  ghost predicate Closed(board: seq<seq<char>>, s: set<Cell>, within: set<Cell>)
    requires Rectangular(board)
  {
    forall c, k :: c in within && 0 <= k < |Dirs| && Open(board, Step(c, Dirs[k])) ==> Step(c, Dirs[k]) in s
  }

  /** `t` is closed, holds the cells `m` and, when it is open, the cell `c`: any such set
      holds everything a flood from `c` over `m` marks. */
  ghost predicate Confines(board: seq<seq<char>>, t: set<Cell>, m: set<Cell>, c: Cell)
    requires Rectangular(board)
  {
    Closed(board, t, t) && m <= t && (Open(board, c) ==> c in t)
  }

  /** Growing the target set keeps a closure fact. */
  lemma ClosedGrows(board: seq<seq<char>>, s: set<Cell>, s': set<Cell>, within: set<Cell>, within': set<Cell>)
    requires Rectangular(board) && Closed(board, s, within) && s <= s' && within' <= within
    ensures Closed(board, s', within')
  {
  }

  /** Closure facts about two sets of cells combine into one about their union. */
  lemma ClosedUnion(board: seq<seq<char>>, s: set<Cell>, a: set<Cell>, b: set<Cell>)
    requires Rectangular(board) && Closed(board, s, a) && Closed(board, s, b)
    ensures Closed(board, s, a + b)
  {
  }

  /** A flood's new cells, added to cells that were already closed relative to a base set,
      are closed relative to that base too. */
  lemma ClosedChain(board: seq<seq<char>>, base: set<Cell>, before: set<Cell>, after: set<Cell>)
    requires Rectangular(board) && base <= before <= after
    requires Closed(board, before, before - base) && Closed(board, after, after - before)
    ensures Closed(board, after, after - base)
  {
    ClosedGrows(board, before, after, before - base, before - base);
    ClosedUnion(board, after, before - base, after - before);
    assert after - base == (before - base) + (after - before);
  }

  ghost function AllCells(h: int, w: int): set<Cell>
  {
    set i, j | 0 <= i < h && 0 <= j < w :: (i, j)
  }

  lemma UnmarkedIsRest(v: array2<bool>)
    ensures Unmarked(v) == AllCells(v.Length0, v.Length1) - Marked(v)
    ensures Marked(v) <= AllCells(v.Length0, v.Length1)
  {
  }

  /** `floodfill`: marks the open cells reachable from (i, j) through unmarked open cells. */
  method Floodfill(i: int, j: int, board: seq<seq<char>>, visited: array2<bool>)
    requires Rectangular(board) && visited.Length0 == |board| && visited.Length1 == Width(board)
    modifies visited
    ensures old(Marked(visited)) <= Marked(visited)
    ensures forall c :: c in Marked(visited) - old(Marked(visited)) ==> Open(board, c)
    ensures Open(board, (i, j)) ==> (i, j) in Marked(visited)
    ensures Closed(board, Marked(visited), Marked(visited) - old(Marked(visited)))
    ensures forall t :: Confines(board, t, old(Marked(visited)), (i, j)) ==> Marked(visited) <= t
    decreases Unmarked(visited)
  {
    if i < 0 || i >= |board| || j < 0 || j >= Width(board) {
      return;
    }
    if visited[i, j] {
      return;
    }
    if board[i][j] == '.' {
      return;
    }
    ghost var m0 := Marked(visited);
    UnmarkedIsRest(visited);
    ghost var all := AllCells(visited.Length0, visited.Length1);
    visited[i, j] := true;
    ghost var m := Marked(visited);
    assert m == m0 + {(i, j)} by {
      forall c | c in m ensures c in m0 + {(i, j)} {
        if c != (i, j) {
          assert old(visited[c.0, c.1]);
        }
      }
    }
    ghost var m1 := m;
    var k := 0;
    while k < |Dirs|
      invariant 0 <= k <= |Dirs|
      invariant m == Marked(visited)
      invariant m1 <= m <= all
      invariant forall c :: c in m - m0 ==> Open(board, c)
      invariant Closed(board, m, m - m1)
      invariant forall k' :: 0 <= k' < k && Open(board, Step((i, j), Dirs[k'])) ==> Step((i, j), Dirs[k']) in m
      invariant forall t :: Confines(board, t, m0, (i, j)) ==> m <= t
    {
      var next := Step((i, j), Dirs[k]);
      UnmarkedIsRest(visited);
      assert Unmarked(visited) < old(Unmarked(visited));
      Floodfill(next.0, next.1, board, visited);
      ghost var before := m;
      m := Marked(visited);
      assert next == (next.0, next.1);
      assert Open(board, next) ==> next in m;
      UnmarkedIsRest(visited);
      ClosedChain(board, m1, before, m);
      forall t | Confines(board, t, m0, (i, j)) ensures m <= t {
        assert (i, j) in t;
        assert Confines(board, t, before, next);
      }
      k := k + 1;
    }
    assert Closed(board, m, {(i, j)});
    ClosedUnion(board, m, m - m1, {(i, j)});
    assert m - m0 == (m - m1) + {(i, j)};
  }

  /** `region` is what the flood from all symbols marks: it holds every symbol, only open
      cells, every open neighbour of its cells, and lies inside every closed set that holds
      the symbols. */
  ghost predicate IsRegion(board: seq<seq<char>>, region: set<Cell>)
    requires Rectangular(board)
  {
    (forall c :: IsSymbol(board, c) ==> c in region)
    && (forall c :: c in region ==> Open(board, c))
    && Closed(board, region, region)
    && forall t :: Closed(board, t, t) && (forall c :: IsSymbol(board, c) ==> c in t) ==> region <= t
  }

  /** The region is determined by the board, so the answer does not depend on the order in
      which symbols are flooded. */
  lemma RegionUnique(board: seq<seq<char>>, r1: set<Cell>, r2: set<Cell>)
    requires Rectangular(board) && IsRegion(board, r1) && IsRegion(board, r2)
    ensures r1 == r2
  {
  }

  /** A symbol lies in every closed set that holds all symbols, so such a set confines a
      flood started from it over cells the set already holds. */
  lemma SymbolConfines(board: seq<seq<char>>, t: set<Cell>, m: set<Cell>, c: Cell)
    requires Rectangular(board) && IsSymbol(board, c) && m <= t
    requires Closed(board, t, t) && (forall c :: IsSymbol(board, c) ==> c in t)
    ensures Confines(board, t, m, c)
  {
  }

  /** The flood loop of `solve`: floods from every symbol in row-major order. */
  method FloodAll(board: seq<seq<char>>, visited: array2<bool>)
    requires Rectangular(board) && visited.Length0 == |board| && visited.Length1 == Width(board)
    requires Marked(visited) == {}
    modifies visited
    ensures IsRegion(board, Marked(visited))
  {
    var h, w := |board|, Width(board);
    ghost var m := Marked(visited);
    var i := 0;
    while i < h
      invariant 0 <= i <= h
      invariant m == Marked(visited)
      invariant forall c :: IsSymbol(board, c) && c.0 < i ==> c in m
      invariant forall c :: c in m ==> Open(board, c)
      invariant Closed(board, m, m)
      invariant forall t :: Closed(board, t, t) && (forall c :: IsSymbol(board, c) ==> c in t) ==> m <= t
    {
      var j := 0;
      while j < w
        invariant 0 <= j <= w
        invariant m == Marked(visited)
        invariant forall c :: IsSymbol(board, c) && (c.0 < i || (c.0 == i && c.1 < j)) ==> c in m
        invariant forall c :: c in m ==> Open(board, c)
        invariant Closed(board, m, m)
        invariant forall t :: Closed(board, t, t) && (forall c :: IsSymbol(board, c) ==> c in t) ==> m <= t
      {
        if !(IsDigit(board[i][j]) || board[i][j] == '.') {
          ghost var before := m;
          Floodfill(i, j, board, visited);
          m := Marked(visited);
          assert before - {} == before && m - {} == m;
          ClosedChain(board, {}, before, m);
          forall t | Closed(board, t, t) && (forall c :: IsSymbol(board, c) ==> c in t)
            ensures m <= t
          {
            SymbolConfines(board, t, before, (i, j));
          }
        }
        j := j + 1;
      }
      i := i + 1;
    }
  }

  /** The maximal runs of entries other than -1 in `cs`, left to right. An entry joins the
      run of its left neighbour when that neighbour is not -1, and starts a new run otherwise. */
  function Runs(cs: seq<int>): (r: seq<seq<int>>)
    ensures cs != [] && cs[|cs| - 1] != -1 ==> r != []
    ensures forall k :: 0 <= k < |r| ==> r[k] != []
  {
    if cs == [] then []
    else
      var init, x := cs[..|cs| - 1], cs[|cs| - 1];
      var r := Runs(init);
      if x == -1 then r
      else if init != [] && init[|init| - 1] != -1 then r[..|r| - 1] + [r[|r| - 1] + [x]]
      else r + [[x]]
  }

  /** How one more entry changes the runs of a prefix. */
  lemma RunsExtend(cs: seq<int>, j: int)
    requires 0 <= j < |cs|
    ensures var r := Runs(cs[..j]);
      Runs(cs[..j + 1]) == if cs[j] == -1 then r
                           else if j > 0 && cs[j - 1] != -1 then r[..|r| - 1] + [r[|r| - 1] + [cs[j]]]
                           else r + [[cs[j]]]
  {
    assert cs[..j + 1][..j] == cs[..j];
  }

  function Flatten(rs: seq<seq<int>>): seq<int>
  {
    if rs == [] then [] else Flatten(rs[..|rs| - 1]) + rs[|rs| - 1]
  }

  /** The entries other than -1, in order. */
  function Kept(cs: seq<int>): seq<int>
  {
    if cs == [] then [] else Kept(cs[..|cs| - 1]) + (if cs[|cs| - 1] == -1 then [] else [cs[|cs| - 1]])
  }

  lemma {:induction false} FlattenLastGrows(rs: seq<seq<int>>, x: int)
    requires rs != []
    ensures Flatten(rs[..|rs| - 1] + [rs[|rs| - 1] + [x]]) == Flatten(rs) + [x]
  {
    var n := |rs|;
    var rs' := rs[..n - 1] + [rs[n - 1] + [x]];
    assert rs'[..n - 1] == rs[..n - 1];
  }

  /** The runs hold exactly the kept entries, in order: nothing is lost, duplicated or
      reordered when the row is cut into numbers. */
  lemma {:induction false} RunsKeepEntries(cs: seq<int>)
    ensures Flatten(Runs(cs)) == Kept(cs)
  {
    if cs != [] {
      var init, x := cs[..|cs| - 1], cs[|cs| - 1];
      RunsKeepEntries(init);
      var r := Runs(init);
      if x != -1 {
        if init != [] && init[|init| - 1] != -1 {
          FlattenLastGrows(r, x);
        } else {
          assert (r + [[x]])[..|r|] == r;
        }
      }
    }
  }

  /** The number whose decimal digits are `ds`, most significant first. */
  function Decimal(ds: seq<int>): int
  {
    if ds == [] then 0 else 10 * Decimal(ds[..|ds| - 1]) + ds[|ds| - 1]
  }

  function RunTotal(rs: seq<seq<int>>): int
  {
    if rs == [] then 0 else RunTotal(rs[..|rs| - 1]) + Decimal(rs[|rs| - 1])
  }

  /** Row `i` as `sum_connected` reads it: the digit where a digit lies in `region`, and -1
      elsewhere. */
  function RowCells(board: seq<seq<char>>, region: set<Cell>, i: int): (cs: seq<int>)
    requires Rectangular(board) && 0 <= i < |board|
  {
    seq(Width(board), j requires 0 <= j < Width(board) =>
      if IsDigit(board[i][j]) && (i, j) in region then DigitValue(board[i][j]) else -1)
  }

  lemma RowCellAt(board: seq<seq<char>>, region: set<Cell>, i: int, j: int)
    requires Rectangular(board) && 0 <= i < |board| && 0 <= j < Width(board)
    ensures |RowCells(board, region, i)| == Width(board)
    ensures RowCells(board, region, i)[j] == if IsDigit(board[i][j]) && (i, j) in region then DigitValue(board[i][j]) else -1
  {
  }

  /** The sum of the numbers made of the region's digits in row `i`. */
  function RowTotal(board: seq<seq<char>>, region: set<Cell>, i: int): int
    requires Rectangular(board) && 0 <= i < |board|
  {
    RunTotal(Runs(RowCells(board, region, i)))
  }

  /** The sum of the numbers made of the region's digits, over the first `n` rows. */
  function PartSum(board: seq<seq<char>>, region: set<Cell>, n: int): int
    requires Rectangular(board) && 0 <= n <= |board|
  {
    if n == 0 then 0 else PartSum(board, region, n - 1) + RowTotal(board, region, n - 1)
  }

  /** One step of the row scan: `group` is the value of the run that ends the prefix. */
  lemma {:induction false} ScanStep(cs: seq<int>, j: int, total: int, group: int)
    requires 0 <= j < |cs|
    requires total + group == RunTotal(Runs(cs[..j]))
    requires group == if j > 0 && cs[j - 1] != -1 then Decimal(Runs(cs[..j])[|Runs(cs[..j])| - 1]) else 0
    ensures cs[j] == -1 ==> total + group + 0 == RunTotal(Runs(cs[..j + 1]))
    ensures cs[j] != -1 ==>
              total + (10 * group + cs[j]) == RunTotal(Runs(cs[..j + 1]))
              && 10 * group + cs[j] == Decimal(Runs(cs[..j + 1])[|Runs(cs[..j + 1])| - 1])
  {
    var p := cs[..j + 1];
    assert p[..j] == cs[..j];
    var r := Runs(cs[..j]);
    if cs[j] != -1 {
      if j > 0 && cs[j - 1] != -1 {
        var r' := r[..|r| - 1] + [r[|r| - 1] + [cs[j]]];
        assert r'[..|r| - 1] == r[..|r| - 1];
        assert (r[|r| - 1] + [cs[j]])[..|r[|r| - 1]|] == r[|r| - 1];
      } else {
        assert (r + [[cs[j]]])[..|r|] == r;
        assert [cs[j]][..0] == [];
        assert Decimal([cs[j]]) == cs[j];
        assert Runs(p) == r + [[cs[j]]];
      }
    }
  }

  lemma MarkedCell(v: array2<bool>, i: int, j: int)
    requires 0 <= i < v.Length0 && 0 <= j < v.Length1
    ensures (i, j) in Marked(v) <==> v[i, j]
  {
  }

  /** The inner loop of `sum_connected` over row `i`: the numbers made of marked digits. */
  method ScanRow(board: seq<seq<char>>, visited: array2<bool>, ghost region: set<Cell>, i: int) returns (total: int)
    requires Rectangular(board) && visited.Length0 == |board| && visited.Length1 == Width(board)
    requires region == Marked(visited) && 0 <= i < |board|
    ensures total == RowTotal(board, region, i)
  {
    ghost var cs := RowCells(board, region, i);
    assert |cs| == Width(board);
    total := 0;
    var group := 0;
    var j := 0;
    while j < Width(board)
      invariant 0 <= j <= Width(board)
      invariant total + group == RunTotal(Runs(cs[..j]))
      invariant group == if j > 0 && cs[j - 1] != -1 then Decimal(Runs(cs[..j])[|Runs(cs[..j])| - 1]) else 0
    {
      RowCellAt(board, region, i, j);
      ScanStep(cs, j, total, group);
      MarkedCell(visited, i, j);
      if !(IsDigit(board[i][j]) && visited[i, j]) {
        total := total + group;
        group := 0;
      } else {
        group := 10 * group + DigitValue(board[i][j]);
      }
      j := j + 1;
    }
    assert cs[..j] == cs;
    total := total + group;
  }

  /** `sum_connected`: reads the marked digit runs row by row. */
  method SumConnected(board: seq<seq<char>>, visited: array2<bool>, ghost region: set<Cell>) returns (total: int)
    requires Rectangular(board) && visited.Length0 == |board| && visited.Length1 == Width(board)
    requires region == Marked(visited)
    ensures total == PartSum(board, region, |board|)
  {
    total := 0;
    for i := 0 to |board|
      invariant total == PartSum(board, region, i)
    {
      var row := ScanRow(board, visited, region, i);
      total := total + row;
    }
  }

  /** `solve`: None where the source indexes the first row of an empty board. The answer is
      the sum of the numbers made of digits in the flooded region. */
  method Solve(board: seq<seq<char>>) returns (r: Option<int>)
    requires Rectangular(board)
    ensures board == [] <==> r == None
    ensures r.Some? ==> exists region :: IsRegion(board, region) && r.value == PartSum(board, region, |board|)
  {
    if board == [] {
      return None;
    }
    var h, w := |board|, |board[0]|;
    var visited := new bool[h, w]((_, _) => false);
    assert Marked(visited) == {};
    FloodAll(board, visited);
    var total := SumConnected(board, visited, Marked(visited));
    return Some(total);
  }

  lemma {:induction false} NoRunsWithoutEntries(cs: seq<int>)
    requires forall j :: 0 <= j < |cs| ==> cs[j] == -1
    ensures Runs(cs) == []
  {
    if cs != [] {
      NoRunsWithoutEntries(cs[..|cs| - 1]);
    }
  }

  lemma {:induction false} EmptyRegionSum(board: seq<seq<char>>, n: int)
    requires Rectangular(board) && 0 <= n <= |board|
    ensures PartSum(board, {}, n) == 0
  {
    if n > 0 {
      EmptyRegionSum(board, n - 1);
      var cs := RowCells(board, {}, n - 1);
      assert |cs| == Width(board);
      forall j | 0 <= j < |cs| ensures cs[j] == -1 {
        RowCellAt(board, {}, n - 1, j);
      }
      NoRunsWithoutEntries(cs);
    }
  }

  /** A schematic without symbols floods nothing, so it has no part numbers. */
  lemma NoSymbolsNoParts(board: seq<seq<char>>)
    requires Rectangular(board)
    requires forall c :: !IsSymbol(board, c)
    ensures IsRegion(board, {}) && PartSum(board, {}, |board|) == 0
  {
    EmptyRegionSum(board, |board|);
  }
}
