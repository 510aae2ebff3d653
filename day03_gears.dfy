/** Day 3, part 2: a gear is a '*' touching exactly two numbers of the engine schematic;
    its ratio is their product and the answer is the sum of all gear ratios. The source
    gives every maximal horizontal digit run an id (`groupify`), lists the value of each id
    (`create_group_mapping`) and, for each '*', collects the ids of its eight neighbours. */
module Day03Gears {
  import opened Wrappers
  import E = Day03Engine

  type Cell = (int, int)

  /** `find_gear_locations`: every '*' of the board, in row-major order. */
  method FindGearLocations(board: seq<seq<char>>) returns (gears: seq<Cell>)
    ensures forall k :: 0 <= k < |gears| ==> var (i, j) := gears[k];
              0 <= i < |board| && 0 <= j < |board[i]| && board[i][j] == '*'
    ensures forall i, j :: 0 <= i < |board| && 0 <= j < |board[i]| && board[i][j] == '*' ==> (i, j) in gears
    // strictly increasing in row-major order, so no gear is listed twice
    ensures forall k, k' :: 0 <= k < k' < |gears| ==> RowMajorBefore(gears[k], gears[k'])
  {
    gears := [];
    var i := 0;
    while i < |board|
      invariant 0 <= i <= |board|
      invariant forall k :: 0 <= k < |gears| ==> var (a, b) := gears[k];
                  0 <= a < i && 0 <= b < |board[a]| && board[a][b] == '*'
      invariant forall a, b :: 0 <= a < i && 0 <= b < |board[a]| && board[a][b] == '*' ==> (a, b) in gears
      invariant forall k, k' :: 0 <= k < k' < |gears| ==> RowMajorBefore(gears[k], gears[k'])
    {
      var j := 0;
      ghost var before := gears;
      while j < |board[i]|
        invariant 0 <= j <= |board[i]|
        invariant before <= gears
        invariant forall k :: 0 <= k < |gears| ==> var (a, b) := gears[k];
                    (0 <= a < i || (a == i && b < j)) && 0 <= b < |board[a]| && board[a][b] == '*'
        invariant forall a, b :: (0 <= a < i || (a == i && 0 <= b < j)) && b < |board[a]| && 0 <= b && board[a][b] == '*' ==> (a, b) in gears
        invariant forall k, k' :: 0 <= k < k' < |gears| ==> RowMajorBefore(gears[k], gears[k'])
      {
        if board[i][j] == '*' {
          gears := gears + [(i, j)];
        }
        j := j + 1;
      }
      i := i + 1;
    }
  }

  predicate RowMajorBefore(a: Cell, b: Cell)
  {
    a.0 < b.0 || (a.0 == b.0 && a.1 < b.1)
  }

  /** `parse_to_number`: a digit becomes its value, any other character -1. */
  function ParseToNumber(board: seq<seq<char>>): (p: seq<seq<int>>)
    ensures |p| == |board| && forall i :: 0 <= i < |board| ==> |p[i]| == |board[i]|
    ensures forall i, j :: 0 <= i < |board| && 0 <= j < |board[i]| ==>
              (p[i][j] == -1 <==> !E.IsDigit(board[i][j])) && -1 <= p[i][j] <= 9
              && (E.IsDigit(board[i][j]) ==> p[i][j] == E.DigitValue(board[i][j]))
  {
    seq(|board|, i requires 0 <= i < |board| =>
      seq(|board[i]|, j requires 0 <= j < |board[i]| =>
        if E.IsDigit(board[i][j]) then E.DigitValue(board[i][j]) else -1))
  }

  /** The number of digit runs in the rows before row `i`. */
  function RunsBefore(p: seq<seq<int>>, i: nat): nat
    requires i <= |p|
  {
    if i == 0 then 0 else RunsBefore(p, i - 1) + |E.Runs(p[i - 1])|
  }

  /** The values of some runs, in order. */
  function Values(rs: seq<seq<int>>): (vs: seq<int>)
    ensures |vs| == |rs|
  {
    seq(|rs|, k requires 0 <= k < |rs| => E.Decimal(rs[k]))
  }

  /** What `create_group_mapping` returns: the value of every run of the first `n` rows,
      in row-major order. */
  function Mapping(p: seq<seq<int>>, n: nat): seq<int>
    requires n <= |p|
  {
    if n == 0 then [] else Mapping(p, n - 1) + Values(E.Runs(p[n - 1]))
  }

  /** The id `groupify` gives cell (i, j): -1 off any run, otherwise the number of runs
      that start before it in row-major order, the cell's own run excluded. */
  function GroupId(p: seq<seq<int>>, i: nat, j: nat): int
    requires i < |p| && j < |p[i]|
  {
    if p[i][j] == -1 then -1 else RunsBefore(p, i) + |E.Runs(p[i][..j + 1])| - 1
  }

  lemma {:induction false} MappingLength(p: seq<seq<int>>, n: nat)
    requires n <= |p|
    ensures |Mapping(p, n)| == RunsBefore(p, n)
  {
    if n > 0 {
      MappingLength(p, n - 1);
    }
  }

  lemma {:induction false} RunsBeforeMonotone(p: seq<seq<int>>, a: nat, b: nat)
    requires a <= b <= |p|
    ensures RunsBefore(p, a) <= RunsBefore(p, b)
    decreases b - a
  {
    if a < b {
      RunsBeforeMonotone(p, a, b - 1);
    }
  }

  /** A longer prefix of a row never has fewer runs. */
  lemma {:induction false} RunsCountMonotone(cs: seq<int>, j: nat, k: nat)
    requires j <= k <= |cs|
    ensures |E.Runs(cs[..j])| <= |E.Runs(cs[..k])|
    decreases k - j
  {
    if j < k {
      RunsCountMonotone(cs, j, k - 1);
      E.RunsExtend(cs, k - 1);
    }
  }

  /** A digit run of a row is a run of every longer prefix too, so its index stays below
      the number of runs of the whole row. */
  lemma RunIndexInRow(cs: seq<int>, j: nat)
    requires j < |cs| && cs[j] != -1
    ensures 1 <= |E.Runs(cs[..j + 1])| <= |E.Runs(cs)|
  {
    E.RunsExtend(cs, j);
    RunsCountMonotone(cs, j + 1, |cs|);
    assert cs[..|cs|] == cs;
  }

  /** Every digit cell gets an id the mapping has a value for, and the value is that of
      the run holding the cell. */
  lemma IdInMapping(p: seq<seq<int>>, i: nat, j: nat)
    requires i < |p| && j < |p[i]| && p[i][j] != -1
    ensures 0 <= GroupId(p, i, j) < |Mapping(p, |p|)|
    ensures 1 <= |E.Runs(p[i][..j + 1])| <= |E.Runs(p[i])|
    ensures Mapping(p, |p|)[GroupId(p, i, j)] == E.Decimal(E.Runs(p[i])[|E.Runs(p[i][..j + 1])| - 1])
  {
    RunIndexInRow(p[i], j);
    MappingLength(p, |p|);
    MappingPrefix(p, i + 1, |p|);
    MappingLength(p, i);
    RunsBeforeMonotone(p, i + 1, |p|);
  }

  lemma {:induction false} MappingPrefix(p: seq<seq<int>>, a: nat, b: nat)
    requires a <= b <= |p|
    ensures Mapping(p, a) <= Mapping(p, b)
    decreases b - a
  {
    if a < b {
      MappingPrefix(p, a, b - 1);
    }
  }

  /** Two horizontally adjacent digits belong to the same number. */
  lemma SameRunSameId(p: seq<seq<int>>, i: nat, j: nat)
    requires i < |p| && j + 1 < |p[i]| && p[i][j] != -1 && p[i][j + 1] != -1
    ensures GroupId(p, i, j) == GroupId(p, i, j + 1)
  {
    E.RunsExtend(p[i], j + 1);
  }

  /** A non-digit between two digits of a row separates their numbers. */
  lemma GapSeparates(p: seq<seq<int>>, i: nat, j: nat, g: nat, k: nat)
    requires i < |p| && j < g < k < |p[i]| && p[i][j] != -1 && p[i][g] == -1 && p[i][k] != -1
    ensures GroupId(p, i, j) < GroupId(p, i, k)
  {
    RowGap(p[i], j, g, k);
  }

  lemma {:induction false} RowGap(cs: seq<int>, j: nat, g: nat, k: nat)
    requires j < g < k < |cs| && cs[g] == -1 && cs[k] != -1
    ensures |E.Runs(cs[..j + 1])| < |E.Runs(cs[..k + 1])|
    decreases k
  {
    E.RunsExtend(cs, k);
    if cs[k - 1] == -1 {
      RunsCountMonotone(cs, j + 1, k);
    } else {
      RowGap(cs, j, g, k - 1);
    }
  }

  /** Numbers never span rows: every digit of a later row has a larger id. */
  lemma RowsSeparate(p: seq<seq<int>>, i: nat, j: nat, i': nat, j': nat)
    requires i < i' < |p| && j < |p[i]| && j' < |p[i']| && p[i][j] != -1 && p[i'][j'] != -1
    ensures GroupId(p, i, j) < GroupId(p, i', j')
  {
    RunIndexInRow(p[i], j);
    RunIndexInRow(p[i'], j');
    RunsBeforeMonotone(p, i + 1, i');
  }

  /** `groupify`. */
  method Groupify(p: seq<seq<int>>) returns (groups: array2<int>)
    requires p != [] && E.Rectangular(p)
    ensures fresh(groups) && groups.Length0 == |p| && groups.Length1 == |p[0]|
    ensures forall i, j :: 0 <= i < |p| && 0 <= j < |p[0]| ==> groups[i, j] == GroupId(p, i, j)
  {
    var h, w := |p|, |p[0]|;
    groups := new int[h, w]((_, _) => -1);
    var currGroup := 0;
    var previouslyValid := false;
    for i := 0 to h
      invariant currGroup == RunsBefore(p, i) && !previouslyValid
      invariant forall a, b :: 0 <= a < i && 0 <= b < w ==> groups[a, b] == GroupId(p, a, b)
      invariant forall a, b :: i <= a < h && 0 <= b < w ==> groups[a, b] == -1
    {
      for j := 0 to w
        invariant previouslyValid == (j > 0 && p[i][j - 1] != -1)
        invariant currGroup == RunsBefore(p, i) + |E.Runs(p[i][..j])| - (if previouslyValid then 1 else 0)
        invariant forall a, b :: 0 <= a < i && 0 <= b < w ==> groups[a, b] == GroupId(p, a, b)
        invariant forall b :: 0 <= b < j ==> groups[i, b] == GroupId(p, i, b)
        invariant forall b :: j <= b < w ==> groups[i, b] == -1
        invariant forall a, b :: i < a < h && 0 <= b < w ==> groups[a, b] == -1
      {
        E.RunsExtend(p[i], j);
        if p[i][j] != -1 {
          groups[i, j] := currGroup;
          previouslyValid := true;
        } else {
          if previouslyValid {
            currGroup := currGroup + 1;
            previouslyValid := false;
          }
        }
      }
      assert p[i][..w] == p[i];
      if previouslyValid {
        currGroup := currGroup + 1;
        previouslyValid := false;
      }
    }
  }

  /** The value of a run grows by one more digit. */
  lemma ValuesGrow(r: seq<seq<int>>, x: int)
    requires r != []
    ensures Values(r[..|r| - 1] + [r[|r| - 1] + [x]]) == Values(r)[..|r| - 1] + [10 * E.Decimal(r[|r| - 1]) + x]
  {
    var last := r[|r| - 1] + [x];
    assert last[..|last| - 1] == r[|r| - 1];
  }

  lemma ValuesSingle(r: seq<seq<int>>, x: int)
    ensures Values(r + [[x]]) == Values(r) + [x]
  {
    assert [x][..0] == [];
    assert E.Decimal([x]) == x;
    assert forall k :: 0 <= k < |r| + 1 ==> Values(r + [[x]])[k] == (Values(r) + [x])[k];
  }

  lemma OpenRunGrows(r: seq<seq<int>>, x: int, acc: seq<int>, mapping: seq<int>, currNum: int)
    requires r != [] && acc + Values(r) == mapping + [currNum]
    ensures acc + Values(r[..|r| - 1] + [r[|r| - 1] + [x]]) == mapping + [10 * currNum + x]
  {
    ValuesGrow(r, x);
    var vs := Values(r);
    assert (acc + vs)[|acc| + |r| - 1] == vs[|r| - 1] == currNum;
    assert acc + vs[..|r| - 1] == (acc + vs)[..|acc| + |r| - 1] == mapping;
  }

  /** One cell of the scan of `create_group_mapping`: `acc` holds the values of the earlier
      rows, `mapping` the values of the finished runs and `currNum` the value of the open one. */
  lemma MappingScanStep(cs: seq<int>, j: nat, acc: seq<int>, mapping: seq<int>, currNum: int, prev: bool)
    requires j < |cs| && prev == (j > 0 && cs[j - 1] != -1) && (!prev ==> currNum == 0)
    requires acc + Values(E.Runs(cs[..j])) == mapping + (if prev then [currNum] else [])
    ensures cs[j] != -1 ==> acc + Values(E.Runs(cs[..j + 1])) == mapping + [10 * currNum + cs[j]]
    ensures cs[j] == -1 ==> acc + Values(E.Runs(cs[..j + 1])) == if prev then mapping + [currNum] else mapping
  {
    E.RunsExtend(cs, j);
    if cs[j] != -1 {
      if prev {
        ScanOpen(cs, j, acc, mapping, currNum);
      } else {
        ScanFresh(cs, j, acc, mapping);
      }
    }
  }

  /** A digit after a digit: the open run's value gains that digit. */
  lemma ScanOpen(cs: seq<int>, j: nat, acc: seq<int>, mapping: seq<int>, currNum: int)
    requires 0 < j < |cs| && cs[j - 1] != -1 && cs[j] != -1
    requires acc + Values(E.Runs(cs[..j])) == mapping + [currNum]
    ensures acc + Values(E.Runs(cs[..j + 1])) == mapping + [10 * currNum + cs[j]]
  {
    E.RunsExtend(cs, j);
    var r := E.Runs(cs[..j]);
    assert cs[..j][j - 1] == cs[j - 1];
    OpenRunGrows(r, cs[j], acc, mapping, currNum);
  }

  /** A digit after a gap or at the row start: a new run of value that digit. */
  lemma ScanFresh(cs: seq<int>, j: nat, acc: seq<int>, mapping: seq<int>)
    requires j < |cs| && !(j > 0 && cs[j - 1] != -1) && cs[j] != -1
    requires acc + Values(E.Runs(cs[..j])) == mapping
    ensures acc + Values(E.Runs(cs[..j + 1])) == mapping + [cs[j]]
  {
    E.RunsExtend(cs, j);
    var r := E.Runs(cs[..j]);
    ValuesSingle(r, cs[j]);
    assert E.Runs(cs[..j + 1]) == r + [[cs[j]]];
    assert acc + (Values(r) + [cs[j]]) == (acc + Values(r)) + [cs[j]];
  }

  /** `create_group_mapping`. */
  method CreateGroupMapping(p: seq<seq<int>>) returns (mapping: seq<int>)
    requires p != [] && E.Rectangular(p)
    ensures mapping == Mapping(p, |p|)
  {
    var h, w := |p|, |p[0]|;
    mapping := [];
    var currNum := 0;
    var previouslyValid := false;
    for i := 0 to h
      invariant mapping == Mapping(p, i) && currNum == 0 && !previouslyValid
    {
      for j := 0 to w
        invariant previouslyValid == (j > 0 && p[i][j - 1] != -1)
        invariant Mapping(p, i) + Values(E.Runs(p[i][..j])) == mapping + (if previouslyValid then [currNum] else [])
        invariant !previouslyValid ==> currNum == 0
      {
        MappingScanStep(p[i], j, Mapping(p, i), mapping, currNum, previouslyValid);
        if p[i][j] != -1 {
          currNum := 10 * currNum + p[i][j];
          previouslyValid := true;
        } else {
          if previouslyValid {
            mapping := mapping + [currNum];
            currNum := 0;
            previouslyValid := false;
          }
        }
      }
      assert p[i][..w] == p[i];
      if previouslyValid {
        mapping := mapping + [currNum];
        currNum := 0;
        previouslyValid := false;
      }
    }
  }

  /** The eight directions, in the order `solve` visits them. */
  const Dirs: seq<Cell> := [(-1, -1), (-1, 0), (-1, 1), (0, -1), (0, 1), (1, -1), (1, 0), (1, 1)]

  predicate InGrid(p: seq<seq<int>>, c: Cell)
  {
    0 <= c.0 < |p| && 0 <= c.1 < |p[0]|
  }

  function Neighbour(g: Cell, k: nat): Cell
    requires k < |Dirs|
  {
    (g.0 + Dirs[k].0, g.1 + Dirs[k].1)
  }

  function IdAt(p: seq<seq<int>>, c: Cell): int
    requires p != [] && E.Rectangular(p) && InGrid(p, c)
  {
    GroupId(p, c.0, c.1)
  }

  /** The ids of the in-bounds neighbours of `g` among the first `n` directions, -1
      included when one of them is not a digit. */
  function NeighbourIdsUpTo(p: seq<seq<int>>, g: Cell, n: nat): set<int>
    requires p != [] && E.Rectangular(p) && n <= |Dirs|
  {
    if n == 0 then {}
    else NeighbourIdsUpTo(p, g, n - 1) + if InGrid(p, Neighbour(g, n - 1)) then {IdAt(p, Neighbour(g, n - 1))} else {}
  }

  function NeighbourIds(p: seq<seq<int>>, g: Cell): set<int>
    requires p != [] && E.Rectangular(p)
  {
    NeighbourIdsUpTo(p, g, |Dirs|)
  }

  /** A gear's contribution: the product of the two numbers it touches, when it touches
      exactly two distinct numbers, and 0 otherwise. */
  ghost function GearRatio(p: seq<seq<int>>, g: Cell): int
    requires p != [] && E.Rectangular(p)
  {
    var ids := NeighbourIds(p, g) - {-1};
    if |ids| != 2 then 0
    else
      IdsInMapping(p, g);
      PairExists(ids);
      var a, b :| a in ids && b in ids && a != b;
      Mapping(p, |p|)[a] * Mapping(p, |p|)[b]
  }

  lemma IdsInMapping(p: seq<seq<int>>, g: Cell)
    requires p != [] && E.Rectangular(p)
    ensures forall id :: id in NeighbourIds(p, g) && id != -1 ==> 0 <= id < |Mapping(p, |p|)|
  {
    IdsUpToInMapping(p, g, |Dirs|);
  }

  lemma {:induction false} IdsUpToInMapping(p: seq<seq<int>>, g: Cell, n: nat)
    requires p != [] && E.Rectangular(p) && n <= |Dirs|
    ensures forall id :: id in NeighbourIdsUpTo(p, g, n) && id != -1 ==> 0 <= id < |Mapping(p, |p|)|
  {
    if n > 0 {
      IdsUpToInMapping(p, g, n - 1);
      var c := Neighbour(g, n - 1);
      if InGrid(p, c) {
        assert NeighbourIdsUpTo(p, g, n) == NeighbourIdsUpTo(p, g, n - 1) + {IdAt(p, c)};
        if p[c.0][c.1] != -1 {
          IdInMapping(p, c.0, c.1);
          assert 0 <= IdAt(p, c) < |Mapping(p, |p|)|;
        } else {
          assert IdAt(p, c) == -1;
        }
      }
    }
  }

  ghost function GearSum(p: seq<seq<int>>, gears: seq<Cell>): int
    requires p != [] && E.Rectangular(p)
  {
    if gears == [] then 0 else GearSum(p, gears[..|gears| - 1]) + GearRatio(p, gears[|gears| - 1])
  }

  lemma AnyElement(s: set<int>) returns (a: int)
    requires |s| > 0
    ensures a in s
  {
    if forall x :: x !in s {
      assert false;
    }
    a :| a in s;
  }

  /** The two elements of a two-element set. */
  lemma PairOf(s: set<int>) returns (a: int, b: int)
    requires |s| == 2
    ensures a in s && b in s && a != b && forall c :: c in s ==> c == a || c == b
  {
    a := AnyElement(s);
    var t := s - {a};
    assert |t| == 1;
    b := AnyElement(t);
    assert |t - {b}| == 0;
    forall c | c in s ensures c == a || c == b {
      if c != a && c != b {
        assert false;
      }
    }
  }

  lemma PairExists(s: set<int>)
    requires |s| == 2
    ensures exists a, b :: a in s && b in s && a != b
  {
    var a, b := PairOf(s);
  }

  /** The ratio `solve` adds for one gear, whichever two ids the set yields first. */
  method GearValue(p: seq<seq<int>>, groups: array2<int>, mapping: seq<int>, g: Cell) returns (v: int)
    requires p != [] && E.Rectangular(p) && mapping == Mapping(p, |p|)
    requires groups.Length0 == |p| && groups.Length1 == |p[0]|
    requires forall i, j :: 0 <= i < |p| && 0 <= j < |p[0]| ==> groups[i, j] == GroupId(p, i, j)
    ensures v == GearRatio(p, g)
  {
    var ids := GearIds(p, groups, g);
    if |ids| != 2 {
      return 0;
    }
    IdsInMapping(p, g);
    PairExists(ids);
    var a, b :| a in ids && b in ids && a != b;
    ghost var a0, b0 := PairOf(ids);
    v := mapping[a] * mapping[b];
    assert forall a', b' :: a' in ids && b' in ids && a' != b' ==> mapping[a'] * mapping[b'] == v;
  }

  /** The neighbour loop of `solve` for one gear. */
  method GearIds(p: seq<seq<int>>, groups: array2<int>, g: Cell) returns (ids: set<int>)
    requires p != [] && E.Rectangular(p)
    requires groups.Length0 == |p| && groups.Length1 == |p[0]|
    requires forall i, j :: 0 <= i < |p| && 0 <= j < |p[0]| ==> groups[i, j] == GroupId(p, i, j)
    ensures ids == NeighbourIds(p, g) - {-1}
  {
    var (i, j) := g;
    var h, w := |p|, |p[0]|;
    ids := {};
    for k := 0 to |Dirs|
      invariant ids == NeighbourIdsUpTo(p, g, k)
    {
      var (dy, dx) := Dirs[k];
      if i + dy < 0 || i + dy >= h || j + dx < 0 || j + dx >= w {
        continue;
      }
      ids := ids + {groups[i + dy, j + dx]};
    }
    ids := ids - {-1};
  }

  /** The loop of `solve` over the gears. */
  method SumGears(p: seq<seq<int>>, groups: array2<int>, mapping: seq<int>, gears: seq<Cell>) returns (total: int)
    requires p != [] && E.Rectangular(p) && mapping == Mapping(p, |p|)
    requires groups.Length0 == |p| && groups.Length1 == |p[0]|
    requires forall i, j :: 0 <= i < |p| && 0 <= j < |p[0]| ==> groups[i, j] == GroupId(p, i, j)
    ensures total == GearSum(p, gears)
  {
    total := 0;
    for k := 0 to |gears|
      invariant total == GearSum(p, gears[..k])
    {
      assert gears[..k + 1][..k] == gears[..k];
      var v := GearValue(p, groups, mapping, gears[k]);
      total := total + v;
    }
    assert gears[..|gears|] == gears;
  }

  /** `solve`: None on an empty schematic, whose first row the source reads. */
  method Solve(board: seq<seq<char>>) returns (r: Option<int>)
    requires E.Rectangular(board)
    ensures board == [] <==> r.None?
    ensures r.Some? ==> exists gears :: (forall c :: c in gears <==> IsGear(board, c))
                                        && (forall k, k' :: 0 <= k < k' < |gears| ==> RowMajorBefore(gears[k], gears[k']))
                                        && r.value == GearSum(ParseToNumber(board), gears)
  {
    if board == [] {
      return None;
    }
    var gears := FindGearLocations(board);
    var p := ParseToNumber(board);
    var groups := Groupify(p);
    var mapping := CreateGroupMapping(p);
    var total := SumGears(p, groups, mapping, gears);
    assert forall c :: c in gears <==> IsGear(board, c);
    return Some(total);
  }

  predicate IsGear(board: seq<seq<char>>, c: Cell)
  {
    0 <= c.0 < |board| && 0 <= c.1 < |board[c.0]| && board[c.0][c.1] == '*'
  }
}
