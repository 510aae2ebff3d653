/** Day 10: a grid of pipe tiles with one start tile 'S'. Part 1 finds 'S', decides which
    pipe it stands for, and runs a breadth-first search along the pipes, reporting the
    distance of the last cell taken from the queue. Part 2 copies the cells that search
    reaches into an otherwise empty grid and counts the empty cells inside the loop by a
    row-by-row parity scan. Grids are rows of characters; coordinates are (row, column). */
module Day10Pipes {
  import opened Wrappers

  type Grid = seq<seq<char>>

  datatype Coord = Coord(y: nat, x: nat)

  datatype Dir = Up | Down | Left | Right

  /** The order in which the search tries directions. */
  const Directions: seq<Dir> := [Up, Down, Left, Right]

  /** The directions each pipe opens towards: '-' left and right, '|' up and down,
      'F' down and right, '7' down and left, 'J' up and left, 'L' up and right; any other
      character opens nowhere. */
  predicate Opens(c: char, d: Dir)
  {
    match d
    case Up => c == '|' || c == 'J' || c == 'L'
    case Down => c == '|' || c == 'F' || c == '7'
    case Left => c == '-' || c == '7' || c == 'J'
    case Right => c == '-' || c == 'F' || c == 'L'
  }

  predicate IsPipe(c: char)
  {
    c == '-' || c == '|' || c == 'F' || c == '7' || c == 'J' || c == 'L'
  }

  function Opposite(d: Dir): Dir
  {
    match d
    case Up => Down
    case Down => Up
    case Left => Right
    case Right => Left
  }

  /** Every row as long as the first one, and at least one row. */
  predicate Rectangular(g: Grid)
  {
    |g| > 0 && forall i :: 0 <= i < |g| ==> |g[i]| == |g[0]|
  }

  predicate InBounds(g: Grid, c: Coord)
  {
    c.y < |g| && c.x < |g[c.y]|
  }

  function At(g: Grid, c: Coord): char
    requires InBounds(g, c)
  {
    g[c.y][c.x]
  }

  /** The cell one step away in direction d, when it lies inside the grid; the width is
      taken from the first row, as in the bound checks of the search. */
  function Neighbour(g: Grid, c: Coord, d: Dir): (r: Option<Coord>)
    requires InBounds(g, c)
    ensures Rectangular(g) && r.Some? ==> InBounds(g, r.value)
  {
    match d
    case Up => if c.y >= 1 then Some(Coord(c.y - 1, c.x)) else None
    case Down => if c.y + 1 < |g| then Some(Coord(c.y + 1, c.x)) else None
    case Left => if c.x >= 1 then Some(Coord(c.y, c.x - 1)) else None
    case Right => if c.x + 1 < |g[0]| then Some(Coord(c.y, c.x + 1)) else None
  }

  // ---------------------------------------------------------------- finding 'S'

  /** `parse`, first half: the first 'S' in row-major order, or (0, 0) when there is none. */
  method FindStart(g: Grid) returns (c: Coord)
    ensures c == Coord(0, 0) || (InBounds(g, c) && At(g, c) == 'S')
    ensures forall i, j :: 0 <= i < |g| && 0 <= j < |g[i]| && (i < c.y || (i == c.y && j < c.x)) ==>
      g[i][j] != 'S'
    ensures (InBounds(g, c) && At(g, c) == 'S') ||
      forall i, j :: 0 <= i < |g| && 0 <= j < |g[i]| ==> g[i][j] != 'S'
  {
    c := Coord(0, 0);
    var i := 0;
    while i < |g|
      invariant 0 <= i <= |g|
      invariant forall i', j :: 0 <= i' < i && 0 <= j < |g[i']| ==> g[i'][j] != 'S'
    {
      var j := 0;
      while j < |g[i]|
        invariant 0 <= j <= |g[i]|
        invariant forall j' :: 0 <= j' < j ==> g[i][j'] != 'S'
      {
        if g[i][j] == 'S' {
          c := Coord(i, j);
          return;
        }
        j := j + 1;
      }
      i := i + 1;
    }
  }

  /** c is where the search starts: the first 'S' in row-major order, or (0, 0) when the
      grid holds none. */
  predicate StartAt(g: Grid, c: Coord)
  {
    InBounds(g, c) &&
    (forall i, j :: 0 <= i < |g| && 0 <= j < |g[i]| && (i < c.y || (i == c.y && j < c.x)) ==> g[i][j] != 'S') &&
    (At(g, c) == 'S' || (c == Coord(0, 0) && forall i, j :: 0 <= i < |g| && 0 <= j < |g[i]| ==> g[i][j] != 'S'))
  }

  /** A grid has one start. */
  lemma StartUnique(g: Grid, c: Coord, c': Coord)
    requires StartAt(g, c) && StartAt(g, c')
    ensures c == c'
  {
  }

  // ---------------------------------------------------------------- replacing 'S'

  /** The cell above holds a pipe that opens downwards. */
  predicate UpOk(g: Grid, c: Coord)
    requires Rectangular(g) && InBounds(g, c)
  {
    c.y >= 1 && g[c.y - 1][c.x] in ['|', 'F', '7']
  }

  predicate DownOk(g: Grid, c: Coord)
    requires Rectangular(g) && InBounds(g, c)
  {
    c.y + 1 < |g| && g[c.y + 1][c.x] in ['|', 'L', 'J']
  }

  /** The cell to the left holds a pipe that opens to the right. */
  predicate LeftOk(g: Grid, c: Coord)
    requires Rectangular(g) && InBounds(g, c)
  {
    c.x >= 1 && g[c.y][c.x - 1] in ['-', 'F', 'L']
  }

  /** The left check as written in the source: `x - 1 > 0`, so column 1 never qualifies. */
  predicate LeftOkAsWritten(g: Grid, c: Coord)
    requires Rectangular(g) && InBounds(g, c)
  {
    c.x >= 2 && g[c.y][c.x - 1] in ['-', 'F', 'L']
  }

  predicate RightOk(g: Grid, c: Coord)
    requires Rectangular(g) && InBounds(g, c)
  {
    c.x + 1 < |g[0]| && g[c.y][c.x + 1] in ['-', '7', 'J']
  }

  /** The pipe 'S' is replaced by, trying |, -, F, 7, L, J in turn; `None` where the source
      reaches `unreachable!`. This is the corrected form, with the left check at x >= 1. */
  function StartPipe(g: Grid, c: Coord): Option<char>
    requires Rectangular(g) && InBounds(g, c)
  {
    if UpOk(g, c) && DownOk(g, c) then Some('|')
    else if LeftOk(g, c) && RightOk(g, c) then Some('-')
    else if DownOk(g, c) && RightOk(g, c) then Some('F')
    else if DownOk(g, c) && LeftOk(g, c) then Some('7')
    else if UpOk(g, c) && RightOk(g, c) then Some('L')
    else if UpOk(g, c) && LeftOk(g, c) then Some('J')
    else None
  }

  /** The same cascade with the left check as written. */
  function StartPipeAsWritten(g: Grid, c: Coord): Option<char>
    requires Rectangular(g) && InBounds(g, c)
  {
    if UpOk(g, c) && DownOk(g, c) then Some('|')
    else if LeftOkAsWritten(g, c) && RightOk(g, c) then Some('-')
    else if DownOk(g, c) && RightOk(g, c) then Some('F')
    else if DownOk(g, c) && LeftOkAsWritten(g, c) then Some('7')
    else if UpOk(g, c) && RightOk(g, c) then Some('L')
    else if UpOk(g, c) && LeftOkAsWritten(g, c) then Some('J')
    else None
  }

  /** Direction d from c leads into the grid, to a pipe that opens back towards c. */
  predicate Connects(g: Grid, c: Coord, d: Dir)
    requires Rectangular(g) && InBounds(g, c)
  {
    var n := Neighbour(g, c, d);
    n.Some? && InBounds(g, n.value) && Opens(At(g, n.value), Opposite(d))
  }

  /** Both ends of pipe p, put at c, connect. */
  predicate Fits(g: Grid, c: Coord, p: char)
    requires Rectangular(g) && InBounds(g, c)
  {
    forall d :: Opens(p, d) ==> Connects(g, c, d)
  }

  const Candidates: seq<char> := ['|', '-', 'F', '7', 'L', 'J']

  lemma NeighbourChecks(g: Grid, c: Coord)
    requires Rectangular(g) && InBounds(g, c)
    ensures UpOk(g, c) == Connects(g, c, Up)
    ensures DownOk(g, c) == Connects(g, c, Down)
    ensures LeftOk(g, c) == Connects(g, c, Left)
    ensures RightOk(g, c) == Connects(g, c, Right)
  {
  }

  lemma FitsByCase(g: Grid, c: Coord)
    requires Rectangular(g) && InBounds(g, c)
    ensures Fits(g, c, '|') == (UpOk(g, c) && DownOk(g, c))
    ensures Fits(g, c, '-') == (LeftOk(g, c) && RightOk(g, c))
    ensures Fits(g, c, 'F') == (DownOk(g, c) && RightOk(g, c))
    ensures Fits(g, c, '7') == (DownOk(g, c) && LeftOk(g, c))
    ensures Fits(g, c, 'L') == (UpOk(g, c) && RightOk(g, c))
    ensures Fits(g, c, 'J') == (UpOk(g, c) && LeftOk(g, c))
  {
    NeighbourChecks(g, c);
  }

  /** 'S' becomes the first candidate pipe whose two ends connect, and there is no pipe
      exactly when no candidate fits. */
  lemma StartPipeMeaning(g: Grid, c: Coord)
    requires Rectangular(g) && InBounds(g, c)
    ensures StartPipe(g, c).None? <==> forall i :: 0 <= i < |Candidates| ==> !Fits(g, c, Candidates[i])
    ensures StartPipe(g, c).Some? ==>
      exists i :: 0 <= i < |Candidates| && Candidates[i] == StartPipe(g, c).value &&
        Fits(g, c, Candidates[i]) && forall j :: 0 <= j < i ==> !Fits(g, c, Candidates[j])
  {
    FitsByCase(g, c);
    var r := StartPipe(g, c);
    var i := if r == Some('|') then 0 else if r == Some('-') then 1 else if r == Some('F') then 2
      else if r == Some('7') then 3 else if r == Some('L') then 4 else 5;
    if r.Some? {
      assert Candidates[i] == r.value && Fits(g, c, Candidates[i]);
      assert forall j :: 0 <= j < i ==> !Fits(g, c, Candidates[j]);
    }
  }

  /** A start tile in column 1 whose loop runs through its left neighbour: the as-written
      check never looks left, so the cascade falls through to `unreachable!`, while the
      corrected check yields '-'. */
  const ColumnOneGrid: Grid := ["F-7", "|.|", "LSJ"]

  lemma AsWrittenMissesColumnOne()
    ensures StartPipeAsWritten(ColumnOneGrid, Coord(2, 1)) == None
    ensures StartPipe(ColumnOneGrid, Coord(2, 1)) == Some('-')
  {
    var g := ColumnOneGrid;
    assert g[1][1] == '.' && g[2][0] == 'L' && g[2][2] == 'J';
  }

  /** The two test grids of part 1: the start is an 'F' in both. */
  const Example1: Grid := ["..F7.", ".FJ|.", "SJ.L7", "|F--J", "LJ..."]
  const Example2: Grid := [".....", ".S-7.", ".|.|.", ".L-J.", "....."]

  lemma StartExamples()
    ensures StartPipe(Example1, Coord(2, 0)) == Some('F')
    ensures StartPipe(Example2, Coord(1, 1)) == Some('F')
  {
    var g := Example1;
    assert g[1][0] == '.' && g[3][0] == '|' && g[2][1] == 'J';
    var h := Example2;
    assert h[0][1] == '.' && h[2][1] == '|' && h[1][0] == '.' && h[1][2] == '-';
  }

  /** The grid with the pipe chosen for the start written at c: still rectangular, with a
      pipe at c. */
  function Placed(g: Grid, c: Coord): (r: Grid)
    requires Rectangular(g) && InBounds(g, c) && StartPipe(g, c).Some?
    ensures Rectangular(r) && InBounds(r, c) && IsPipe(At(r, c))
    ensures |r| == |g| && forall i :: 0 <= i < |g| && i != c.y ==> r[i] == g[i]
    ensures |r[c.y]| == |g[c.y]| && forall j :: 0 <= j < |g[c.y]| && j != c.x ==> r[c.y][j] == g[c.y][j]
  {
    var r := g[c.y := g[c.y][c.x := StartPipe(g, c).value]];
    assert forall i :: 0 <= i < |r| ==> |r[i]| == |g[i]|;
    r
  }

  /** `parse`: find 'S' and overwrite it with its pipe; `None` where the source reaches
      `unreachable!`. */
  method Parse(g: Grid) returns (r: Option<Grid>, c: Coord)
    requires Rectangular(g) && |g[0]| > 0
    ensures StartAt(g, c)
    ensures r.None? <==> StartPipe(g, c).None?
    ensures r.Some? ==> r.value == Placed(g, c)
  {
    c := FindStart(g);
    var p := StartPipe(g, c);
    if p.None? {
      return None, c;
    }
    var row := g[c.y][c.x := p.value];
    r := Some(g[c.y := row]);
  }

  // ---------------------------------------------------------------- the search

  datatype Visit = Visit(at: Coord, dist: int)

  /** Where the search may step from c in direction d: a direction the pipe at c opens
      towards, inside the grid, onto a cell that is not '.'. */
  function Target(g: Grid, c: Coord, d: Dir): (r: Option<Coord>)
    ensures r.Some? ==> InBounds(g, c) && Opens(At(g, c), d)
    ensures r.Some? ==> InBounds(g, r.value) && At(g, r.value) != '.'
  {
    if !InBounds(g, c) || !Opens(At(g, c), d) then None
    else
      match Neighbour(g, c, d)
      case None => None
      case Some(n) => if !InBounds(g, n) || At(g, n) == '.' then None else Some(n)
  }

  /** b is one search step from a. */
  predicate Adjacent(g: Grid, a: Coord, b: Coord)
  {
    Target(g, a, Up) == Some(b) || Target(g, a, Down) == Some(b) ||
    Target(g, a, Left) == Some(b) || Target(g, a, Right) == Some(b)
  }

  /** The entries pushed while trying the directions in `dirs` from c. */
  function Pushes(g: Grid, c: Coord, visited: set<Coord>, dist: int, dirs: seq<Dir>): (r: seq<Visit>)
    ensures forall k :: 0 <= k < |r| ==> r[k].dist == dist && r[k].at !in visited && Adjacent(g, c, r[k].at)
  {
    if dirs == [] then []
    else
      var front := Pushes(g, c, visited, dist, dirs[..|dirs| - 1]);
      var t := Target(g, c, dirs[|dirs| - 1]);
      if t.Some? && t.value !in visited then front + [Visit(t.value, dist)] else front
  }

  /** Every direction in `dirs` that leads from c to an unvisited cell is pushed. */
  lemma {:induction false} PushesComplete(g: Grid, c: Coord, visited: set<Coord>, dist: int, dirs: seq<Dir>, d: Dir)
    requires d in dirs && Target(g, c, d).Some? && Target(g, c, d).value !in visited
    ensures Target(g, c, d).value in Cells(Pushes(g, c, visited, dist, dirs))
    decreases |dirs|
  {
    var front := dirs[..|dirs| - 1];
    var r := Pushes(g, c, visited, dist, dirs);
    if d == dirs[|dirs| - 1] {
      assert r[|r| - 1].at == Target(g, c, d).value;
    } else {
      assert d in front;
      PushesComplete(g, c, visited, dist, front, d);
      var f := Pushes(g, c, visited, dist, front);
      var k :| 0 <= k < |f| && f[k].at == Target(g, c, d).value;
      assert r[k] == f[k];
    }
  }

  /** The cells of a list of visits. */
  function Cells(vs: seq<Visit>): set<Coord>
  {
    set i | 0 <= i < |vs| :: vs[i].at
  }

  lemma CellsAppend(vs: seq<Visit>, ws: seq<Visit>)
    ensures Cells(vs + ws) == Cells(vs) + Cells(ws)
  {
    var a := vs + ws;
    forall c | c in Cells(a) ensures c in Cells(vs) + Cells(ws) {
      var i :| 0 <= i < |a| && a[i].at == c;
      if i < |vs| { assert vs[i] == a[i]; } else { assert ws[i - |vs|] == a[i]; }
    }
    forall c | c in Cells(vs) + Cells(ws) ensures c in Cells(a) {
      if c in Cells(vs) {
        var i :| 0 <= i < |vs| && vs[i].at == c;
        assert a[i] == vs[i];
      } else {
        var i :| 0 <= i < |ws| && ws[i].at == c;
        assert a[|vs| + i] == ws[i];
      }
    }
  }

  /** Distances never decrease along the list. */
  predicate Ascending(vs: seq<Visit>)
  {
    forall i, j :: 0 <= i < j < |vs| ==> vs[i].dist <= vs[j].dist
  }

  /** Every cell in the list lies in the grid on a pipe: the lookup of its directions
      does not panic. */
  predicate OnPipes(g: Grid, vs: seq<Visit>)
  {
    forall i :: 0 <= i < |vs| ==> InBounds(g, vs[i].at) && IsPipe(At(g, vs[i].at))
  }

  /** Every cell in the list lies in the grid. */
  predicate InGrid(g: Grid, vs: seq<Visit>)
  {
    forall i :: 0 <= i < |vs| ==> InBounds(g, vs[i].at)
  }

  /** The first h cells of the list are pipes. */
  predicate PipesBefore(g: Grid, vs: seq<Visit>, h: int)
  {
    forall i :: 0 <= i < h && i < |vs| ==> InBounds(g, vs[i].at) && IsPipe(At(g, vs[i].at))
  }

  /** A step out of a listed cell lands on a cell that is no pipe: popping it, the source's
      lookup of its directions panics. */
  predicate Leaks(g: Grid, vs: seq<Visit>)
  {
    exists i, d :: 0 <= i < |vs| && Target(g, vs[i].at, d).Some? && !IsPipe(At(g, Target(g, vs[i].at, d).value))
  }

  /** One search step, one unit further. */
  predicate Parent(g: Grid, p: Visit, q: Visit)
  {
    q.dist == p.dist + 1 && Adjacent(g, p.at, q.at)
  }

  /** Each entry after the first was found from an earlier one. */
  ghost predicate Discovered(g: Grid, vs: seq<Visit>)
  {
    forall k :: 0 < k < |vs| ==> FoundBefore(g, vs, k)
  }

  /** Entry k was found from an entry before it. */
  ghost predicate FoundBefore(g: Grid, vs: seq<Visit>, k: int)
    requires 0 <= k < |vs|
  {
    exists j :: 0 <= j < k && Parent(g, vs[j], vs[k])
  }

  /** Every step out of the first h entries lands in `cells`. */
  predicate Closed(g: Grid, vs: seq<Visit>, h: int, cells: set<Coord>)
  {
    forall i, d :: 0 <= i < h && i < |vs| && Target(g, vs[i].at, d).Some? ==> Target(g, vs[i].at, d).value in cells
  }

  /** `parents` names, for each entry after the first, the earlier entry it was found from. */
  predicate Traced(g: Grid, all: seq<Visit>, parents: seq<int>)
  {
    |parents| == |all| &&
    forall k :: 0 < k < |all| ==> 0 <= parents[k] < k && Parent(g, all[parents[k]], all[k])
  }

  /** The search state between passes of the loop: `all` lists every entry ever queued, of
      which the first h have been dequeued. Distances ascend, the queued part spans at most
      one unit, every entry was found from an earlier one, every dequeued cell is a pipe,
      and every step out of a dequeued cell leads to a cell that has been queued. */
  ghost predicate Searching(g: Grid, start: Coord, all: seq<Visit>, parents: seq<int>, h: int)
  {
    0 <= h <= |all| && all != [] && all[0] == Visit(start, 0) &&
    InGrid(g, all) && PipesBefore(g, all, h) && Ascending(all) &&
    (h < |all| ==> all[|all| - 1].dist <= all[h].dist + 1) &&
    Traced(g, all, parents) && Closed(g, all, h, Cells(all))
  }

  /** The parity of an entry's distance is the parity of how far its cell lies from the
      start, counting rows and columns. */
  predicate Even(start: Coord, v: Visit)
  {
    (v.dist + v.at.y + v.at.x + start.y + start.x) % 2 == 0
  }

  /** A search step changes the row or the column by one. */
  lemma AdjacentParity(g: Grid, a: Coord, b: Coord)
    requires Adjacent(g, a, b)
    ensures (a.y + a.x + b.y + b.x) % 2 == 1
  {
  }

  /** Every entry has the parity of its cell. */
  predicate AllEven(start: Coord, vs: seq<Visit>)
  {
    forall k :: 0 <= k < |vs| ==> Even(start, vs[k])
  }

  /** Entries for the same cell carry the same distance. */
  predicate Consistent(vs: seq<Visit>)
  {
    forall i, j :: 0 <= i < j < |vs| && vs[i].at == vs[j].at ==> vs[i].dist == vs[j].dist
  }

  /** A step out of one of the first h entries leads to a cell whose entries are at most
      one unit further. */
  predicate Relaxed(g: Grid, vs: seq<Visit>, h: int)
  {
    forall i, k, d :: 0 <= i < h && i < |vs| && 0 <= k < |vs| && Target(g, vs[i].at, d) == Some(vs[k].at) ==>
      vs[k].dist <= vs[i].dist + 1
  }

  /** A cell is queued again only while it waits in the queue, and the queued part spans
      one unit, so by parity the new entry repeats the old distance. */
  lemma ConsistentStep(start: Coord, all: seq<Visit>, h: nat, visited: set<Coord>, pushed: seq<Visit>)
    requires h < |all| && Consistent(all) && Ascending(all) && all[|all| - 1].dist <= all[h].dist + 1
    requires AllEven(start, all) && AllEven(start, pushed)
    requires visited == Cells(all[..h]) + {all[h].at}
    requires forall k :: 0 <= k < |pushed| ==> pushed[k].dist == all[h].dist + 1 && pushed[k].at !in visited
    ensures Consistent(all + pushed)
  {
    var n := all + pushed;
    forall i, j | 0 <= i < j < |n| && n[i].at == n[j].at ensures n[i].dist == n[j].dist {
      if j < |all| {
        assert n[i] == all[i] && n[j] == all[j];
      } else if i >= |all| {
        assert n[i] == pushed[i - |all|] && n[j] == pushed[j - |all|];
      } else {
        var w := pushed[j - |all|];
        assert n[i] == all[i] && n[j] == w;
        assert i > h;
        assert all[h].dist <= all[i].dist <= all[|all| - 1].dist;
        assert Even(start, all[i]) && Even(start, w);
      }
    }
  }

  /** The cell a step leads to has an entry at most one unit further than the entry it
      steps from. */
  ghost predicate NearEntry(vs: seq<Visit>, t: Coord, bound: int)
  {
    exists w :: 0 <= w < |vs| && vs[w].at == t && vs[w].dist <= bound
  }

  /** With one distance per cell, one near entry bounds every entry of that cell. */
  lemma NearAll(vs: seq<Visit>, t: Coord, bound: int, k: nat)
    requires Consistent(vs) && NearEntry(vs, t, bound) && k < |vs| && vs[k].at == t
    ensures vs[k].dist <= bound
  {
    var w :| 0 <= w < |vs| && vs[w].at == t && vs[w].dist <= bound;
    if w < k {
      assert vs[w].dist == vs[k].dist;
    } else if k < w {
      assert vs[k].dist == vs[w].dist;
    }
  }

  /** Popping entry h keeps every step out of a dequeued cell at most one unit further. */
  lemma RelaxedStep(g: Grid, all: seq<Visit>, h: nat, visited: set<Coord>, pushed: seq<Visit>)
    requires h < |all| && Relaxed(g, all, h) && Closed(g, all, h, Cells(all)) && Ascending(all)
    requires visited == Cells(all[..h]) + {all[h].at}
    requires pushed == Pushes(g, all[h].at, visited, all[h].dist + 1, Directions)
    requires Consistent(all + pushed)
    ensures Relaxed(g, all + pushed, h + 1)
  {
    var n := all + pushed;
    forall i, k, d | 0 <= i < h + 1 && i < |n| && 0 <= k < |n| && Target(g, n[i].at, d) == Some(n[k].at)
      ensures n[k].dist <= n[i].dist + 1
    {
      assert n[i] == all[i];
      NearStep(g, all, h, visited, pushed, i, d);
      NearAll(n, n[k].at, n[i].dist + 1, k);
    }
  }

  /** The witness for one step of RelaxedStep. */
  lemma NearStep(g: Grid, all: seq<Visit>, h: nat, visited: set<Coord>, pushed: seq<Visit>, i: nat, d: Dir)
    requires h < |all| && Relaxed(g, all, h) && Closed(g, all, h, Cells(all)) && Ascending(all)
    requires visited == Cells(all[..h]) + {all[h].at}
    requires pushed == Pushes(g, all[h].at, visited, all[h].dist + 1, Directions)
    requires i <= h && Target(g, all[i].at, d).Some?
    ensures NearEntry(all + pushed, Target(g, all[i].at, d).value, all[i].dist + 1)
  {
    var n := all + pushed;
    var t := Target(g, all[i].at, d).value;
    if i < h {
      var w :| 0 <= w < |all| && all[w].at == t;
      assert n[w] == all[w];
    } else if t in visited {
      if t == all[h].at {
        assert n[h] == all[h];
      } else {
        var u :| 0 <= u < h && all[..h][u].at == t;
        assert n[u] == all[u];
      }
    } else {
      assert d in Directions;
      PushesComplete(g, all[h].at, visited, all[h].dist + 1, Directions, d);
      var u :| 0 <= u < |pushed| && pushed[u].at == t;
      assert n[|all| + u] == pushed[u];
    }
  }

  /** The entries have the parity of their cells and one distance per cell, and every
      step out of the first h leads at most one unit further. */
  predicate Levelled(g: Grid, start: Coord, all: seq<Visit>, h: int)
  {
    AllEven(start, all) && Consistent(all) && Relaxed(g, all, h)
  }

  /** One pass of the loop keeps the entries levelled. */
  lemma LevelStep(g: Grid, start: Coord, all: seq<Visit>, parents: seq<int>, h: nat, visited: set<Coord>)
    requires Searching(g, start, all, parents, h) && h < |all| && Levelled(g, start, all, h)
    requires visited == Cells(all[..h])
    ensures Levelled(g, start, all + Pushes(g, all[h].at, visited + {all[h].at}, all[h].dist + 1, Directions), h + 1)
  {
    LevelCore(g, start, all, h, visited + {all[h].at}, Pushes(g, all[h].at, visited + {all[h].at}, all[h].dist + 1, Directions));
  }

  /** One pass of the loop keeps the parity of every entry, one distance per cell, and
      every step out of a dequeued cell at most one unit further. */
  lemma LevelCore(g: Grid, start: Coord, all: seq<Visit>, h: nat, visited: set<Coord>, pushed: seq<Visit>)
    requires h < |all| && Ascending(all) && all[|all| - 1].dist <= all[h].dist + 1
    requires Closed(g, all, h, Cells(all))
    requires AllEven(start, all) && Consistent(all) && Relaxed(g, all, h)
    requires visited == Cells(all[..h]) + {all[h].at}
    requires pushed == Pushes(g, all[h].at, visited, all[h].dist + 1, Directions)
    ensures AllEven(start, all + pushed) && Consistent(all + pushed) && Relaxed(g, all + pushed, h + 1)
  {
    EvenStep(g, start, all, h, visited, pushed);
    ConsistentStep(start, all, h, visited, pushed);
    RelaxedStep(g, all, h, visited, pushed);
  }

  /** Entries queued from entry h, one step away and one unit further, keep the parity. */
  lemma EvenStep(g: Grid, start: Coord, all: seq<Visit>, h: nat, visited: set<Coord>, pushed: seq<Visit>)
    requires h < |all| && AllEven(start, all)
    requires pushed == Pushes(g, all[h].at, visited, all[h].dist + 1, Directions)
    ensures AllEven(start, pushed) && AllEven(start, all + pushed)
  {
    var n := all + pushed;
    forall k | 0 <= k < |pushed| ensures Even(start, pushed[k]) {
      AdjacentParity(g, all[h].at, pushed[k].at);
    }
    forall k | 0 <= k < |n| ensures Even(start, n[k]) {
      if k < |all| {
        assert n[k] == all[k];
      } else {
        assert n[k] == pushed[k - |all|];
      }
    }
  }

  /** Appending entries no nearer than the last keeps the list ascending. */
  lemma AscendingAppend(vs: seq<Visit>, ws: seq<Visit>, dist: int)
    requires Ascending(vs) && (vs != [] ==> vs[|vs| - 1].dist <= dist)
    requires forall k :: 0 <= k < |ws| ==> ws[k].dist == dist
    ensures Ascending(vs + ws)
  {
    var n := vs + ws;
    forall i, j | 0 <= i < j < |n| ensures n[i].dist <= n[j].dist {
      if j < |vs| {
        assert n[i] == vs[i] && n[j] == vs[j];
      } else if i < |vs| {
        assert n[i] == vs[i] && n[j] == ws[j - |vs|];
        assert vs[i].dist <= vs[|vs| - 1].dist;
      } else {
        assert n[i] == ws[i - |vs|] && n[j] == ws[j - |vs|];
      }
    }
  }

  /** Entries found from entry h keep every entry traced. */
  lemma TracedAppend(g: Grid, all: seq<Visit>, parents: seq<int>, h: nat, pushed: seq<Visit>)
    requires Traced(g, all, parents) && h < |all|
    requires forall k :: 0 <= k < |pushed| ==> Parent(g, all[h], pushed[k])
    ensures Traced(g, all + pushed, parents + seq(|pushed|, _ => h))
  {
    var n, ps := all + pushed, parents + seq(|pushed|, _ => h);
    forall k | 0 < k < |n| ensures 0 <= ps[k] < k && Parent(g, n[ps[k]], n[k]) {
      if k < |all| {
        assert n[k] == all[k] && ps[k] == parents[k] && n[parents[k]] == all[parents[k]];
      } else {
        assert n[k] == pushed[k - |all|] && ps[k] == h && n[h] == all[h];
      }
    }
  }

  lemma CellsOne(v: Visit)
    ensures Cells([v]) == {v.at}
  {
    assert [v][0] == v;
  }

  /** Popping entry h and queueing its unvisited successors keeps every step out of a
      dequeued cell inside the queued cells. */
  lemma ClosedStep(g: Grid, all: seq<Visit>, h: nat, pushed: seq<Visit>)
    requires h < |all| && Closed(g, all, h, Cells(all))
    requires pushed == Pushes(g, all[h].at, Cells(all[..h + 1]), all[h].dist + 1, Directions)
    ensures Closed(g, all + pushed, h + 1, Cells(all + pushed))
  {
    var n := all + pushed;
    CellsAppend(all, pushed);
    CellsAppend(all[..h + 1], all[h + 1..]);
    assert all[..h + 1] + all[h + 1..] == all;
    forall i, d | 0 <= i < h + 1 && Target(g, n[i].at, d).Some? ensures Target(g, n[i].at, d).value in Cells(n) {
      assert n[i] == all[i];
      var t := Target(g, all[i].at, d).value;
      if i == h && t !in Cells(all[..h + 1]) {
        assert d in Directions;
        PushesComplete(g, all[h].at, Cells(all[..h + 1]), all[h].dist + 1, Directions, d);
      }
    }
  }

  /** Trying one more direction pushes at most its target. */
  lemma PushesNext(g: Grid, c: Coord, visited: set<Coord>, dist: int, k: nat)
    requires k < |Directions|
    ensures var t := Target(g, c, Directions[k]);
      Pushes(g, c, visited, dist, Directions[..k + 1]) ==
        Pushes(g, c, visited, dist, Directions[..k]) + (if t.Some? && t.value !in visited then [Visit(t.value, dist)] else [])
  {
    var ds := Directions[..k + 1];
    assert ds[..|ds| - 1] == Directions[..k] && ds[|ds| - 1] == Directions[k];
  }

  /** One pass of the search loop keeps `Searching`. */
  lemma PopStep(g: Grid, start: Coord, all: seq<Visit>, parents: seq<int>, h: nat, visited: set<Coord>, pushed: seq<Visit>)
    requires Searching(g, start, all, parents, h) && h < |all| && IsPipe(At(g, all[h].at))
    requires visited == Cells(all[..h])
    requires pushed == Pushes(g, all[h].at, visited + {all[h].at}, all[h].dist + 1, Directions)
    ensures Searching(g, start, all + pushed, parents + seq(|pushed|, _ => h), h + 1)
    ensures Cells((all + pushed)[..h + 1]) == visited + {all[h].at}
  {
    SplitAt(all, h, pushed);
    CellsPush(all[..h], all[h]);
    var n := all + pushed;
    assert InGrid(g, n) by {
      forall i | 0 <= i < |n| ensures InBounds(g, n[i].at) {
        if i < |all| {
          assert n[i] == all[i];
        } else {
          assert n[i] == pushed[i - |all|];
        }
      }
    }
    assert PipesBefore(g, n, h + 1) by {
      forall i | 0 <= i < h + 1 ensures InBounds(g, n[i].at) && IsPipe(At(g, n[i].at)) {
        assert n[i] == all[i];
      }
    }
    assert Ascending(n) by {
      AscendingAppend(all, pushed, all[h].dist + 1);
    }
    assert h + 1 < |n| ==> n[|n| - 1].dist <= n[h + 1].dist + 1 by {
      if h + 1 < |n| {
        if pushed != [] {
          assert n[|n| - 1] == pushed[|pushed| - 1];
        } else {
          assert n[|n| - 1] == all[|all| - 1];
        }
        assert n[h] == all[h];
        assert all[h].dist <= n[h + 1].dist;
      }
    }
    assert Traced(g, n, parents + seq(|pushed|, _ => h)) by {
      TracedAppend(g, all, parents, h, pushed);
    }
    assert Closed(g, n, h + 1, Cells(n)) by {
      ClosedStep(g, all, h, pushed);
    }
    assert n[0] == all[0];
  }

  /** The dequeued entries of a search state are discovered from the start. */
  lemma TracedDiscovered(g: Grid, all: seq<Visit>, parents: seq<int>, h: nat)
    requires Traced(g, all, parents) && h <= |all|
    ensures Discovered(g, all[..h])
  {
    var vs := all[..h];
    forall k | 0 < k < |vs| ensures FoundBefore(g, vs, k) {
      var j := parents[k];
      assert vs[j] == all[j] && vs[k] == all[k];
    }
  }

  lemma CellsPush(vs: seq<Visit>, v: Visit)
    ensures Cells(vs + [v]) == Cells(vs) + {v.at}
  {
    CellsAppend(vs, [v]);
    CellsOne(v);
  }

  /** What a search state says of its dequeued entries; once nothing is queued, every step
      out of them stays among them. */
  lemma SearchOutcome(g: Grid, start: Coord, all: seq<Visit>, parents: seq<int>, h: nat)
    requires Searching(g, start, all, parents, h)
    ensures var vs := all[..h]; Ascending(vs) && OnPipes(g, vs) && Discovered(g, vs)
    ensures h > 0 ==> all[..h][0] == Visit(start, 0)
    ensures h > 0 ==> forall i :: 0 <= i < h ==> all[..h][i].dist <= all[h - 1].dist
    ensures h == |all| ==> Closed(g, all[..h], h, Cells(all[..h]))
  {
    TracedDiscovered(g, all, parents, h);
    var vs := all[..h];
    assert forall i :: 0 <= i < h ==> vs[i] == all[i];
    assert OnPipes(g, vs) by {
      forall i | 0 <= i < h ensures InBounds(g, vs[i].at) && IsPipe(At(g, vs[i].at)) {
        assert vs[i] == all[i];
      }
    }
    if h == |all| {
      assert vs == all;
    }
  }

  /** A search about to pop a cell that is no pipe reached it by a step out of a dequeued
      pipe. */
  lemma PanicLeaks(g: Grid, start: Coord, all: seq<Visit>, parents: seq<int>, h: nat)
    requires Searching(g, start, all, parents, h) && h < |all| && InBounds(g, all[h].at)
    requires InBounds(g, start) && IsPipe(At(g, start)) && !IsPipe(At(g, all[h].at))
    ensures Leaks(g, all[..h])
  {
    assert h > 0;
    var j := parents[h];
    var vs := all[..h];
    var c, n := all[j].at, all[h].at;
    assert vs[j] == all[j] && Adjacent(g, c, n);
    if Target(g, c, Up) == Some(n) {
      assert Target(g, vs[j].at, Up).Some?;
    } else if Target(g, c, Down) == Some(n) {
      assert Target(g, vs[j].at, Down).Some?;
    } else if Target(g, c, Left) == Some(n) {
      assert Target(g, vs[j].at, Left).Some?;
    } else {
      assert Target(g, vs[j].at, Right).Some?;
    }
  }

  /** How the dequeued and queued parts of `all` move when entry h is popped and entries
      are pushed. */
  lemma SplitAt(all: seq<Visit>, h: nat, pushed: seq<Visit>)
    requires h < |all|
    ensures all[h..] == [all[h]] + all[h + 1..] && all[..h + 1] == all[..h] + [all[h]]
    ensures (all + pushed)[..h + 1] == all[..h + 1] && (all + pushed)[h + 1..] == all[h + 1..] + pushed
  {
  }

  /** The source's search as a function: `all` lists every entry queued so far, of which
      the first h have been popped. It stops when the queue is empty, when `fuel` entries
      have been popped, or at an entry that is no pipe, where the source's lookup of its
      directions panics; otherwise it pops entry h, marks its cell visited and queues, one
      unit further, each step out of it that leads to a cell not yet visited. */
  function Run(g: Grid, all: seq<Visit>, h: nat, fuel: nat): (r: (seq<Visit>, nat))
    requires h <= |all|
    ensures h <= r.1 <= |r.0|
    decreases fuel - h
  {
    if h == |all| || h >= fuel || !InBounds(g, all[h].at) || !IsPipe(At(g, all[h].at)) then (all, h)
    else
      var v := all[h];
      Run(g, all + Pushes(g, v.at, Cells(all[..h]) + {v.at}, v.dist + 1, Directions), h + 1, fuel)
  }

  /** One pop of the source's search, from a pipe with fuel left. */
  lemma RunStep(g: Grid, all: seq<Visit>, h: nat, fuel: nat)
    requires h < |all| && h < fuel && InBounds(g, all[h].at) && IsPipe(At(g, all[h].at))
    ensures Run(g, all, h, fuel) ==
      Run(g, all + Pushes(g, all[h].at, Cells(all[..h]) + {all[h].at}, all[h].dist + 1, Directions), h + 1, fuel)
  {
  }

  /** The entries the source's search from `start` pops, in order. */
  function Trace(g: Grid, start: Coord, fuel: nat): seq<Visit>
  {
    var r := Run(g, [Visit(start, 0)], 0, fuel);
    r.0[..r.1]
  }

  /** The source's search from `start` empties its queue within `fuel` pops. */
  predicate Drains(g: Grid, start: Coord, fuel: nat)
  {
    var r := Run(g, [Visit(start, 0)], 0, fuel);
    r.1 == |r.0|
  }

  /** `bfs`: drain the queue from the start, marking each dequeued cell visited and
      remembering its distance as `farthest`. The queue is kept as the list of every entry
      ever pushed, of which those before `head` have been popped. The source loops until
      the queue is empty; here at most `fuel` entries are popped and `drained` tells whether
      it emptied. Popping a cell that is no pipe is where the source's lookup of its
      directions panics: the search stops there with `panicked` set. `visits` lists the
      popped entries in order (the source's debug map). */
  method Bfs(g: Grid, start: Coord, fuel: nat) returns (farthest: int, visits: seq<Visit>, drained: bool, panicked: bool)
    requires InBounds(g, start) && IsPipe(At(g, start))
    ensures visits == Trace(g, start, fuel) && drained == Drains(g, start, fuel)
    ensures fuel > 0 ==> visits != []
    ensures visits != [] ==> visits[0] == Visit(start, 0)
    ensures farthest == if visits == [] then -1 else visits[|visits| - 1].dist
    ensures Ascending(visits) && forall i :: 0 <= i < |visits| ==> visits[i].dist <= farthest
    ensures OnPipes(g, visits) && Discovered(g, visits)
    ensures drained ==> visits != [] && Closed(g, visits, |visits|, Cells(visits)) && Shortest(g, start, visits)
    ensures panicked ==> !drained && Leaks(g, visits)
    ensures !drained && !panicked ==> |visits| == fuel
  {
    var queue, head;
    ghost var parents;
    queue, parents, head, panicked, farthest := Search(g, start, fuel);
    visits := queue[..head];
    drained := !panicked && head == |queue|;
    BfsOutcome(g, start, fuel, queue, parents, head, panicked, farthest);
    BfsVerdict(g, start, queue, parents, head, panicked);
  }

  /** The loop of `bfs`, which pops entries from `queue` until it is empty, `fuel` entries
      were popped, or the popped cell is no pipe (`panicked`). */
  method Search(g: Grid, start: Coord, fuel: nat)
    returns (queue: seq<Visit>, ghost parents: seq<int>, head: nat, panicked: bool, farthest: int)
    requires InBounds(g, start) && IsPipe(At(g, start))
    ensures head <= fuel && Searching(g, start, queue, parents, head) && Levelled(g, start, queue, head)
    ensures Run(g, queue, head, fuel) == Run(g, [Visit(start, 0)], 0, fuel)
    ensures panicked ==> head < |queue| && head < fuel && InBounds(g, queue[head].at) && !IsPipe(At(g, queue[head].at))
    ensures !panicked ==> head == |queue| || head == fuel
    ensures farthest == if head == 0 then -1 else queue[head - 1].dist
  {
    var visited: set<Coord> := {};
    queue := [Visit(start, 0)];
    head := 0;
    farthest := -1;
    panicked := false;
    parents := [0];
    while head < |queue| && head < fuel
      invariant head <= fuel
      invariant Searching(g, start, queue, parents, head)
      invariant Levelled(g, start, queue, head)
      invariant Run(g, queue, head, fuel) == Run(g, [Visit(start, 0)], 0, fuel)
      invariant visited == Cells(queue[..head])
      invariant farthest == if head == 0 then -1 else queue[head - 1].dist
      decreases fuel - head
    {
      var v := queue[head];
      if !IsPipe(At(g, v.at)) {
        panicked := true;
        break;
      }
      LevelStep(g, start, queue, parents, head, visited);
      RunStep(g, queue, head, fuel);
      queue, parents, visited := Expand(g, start, queue, parents, head, visited);
      farthest := v.dist;
      head := head + 1;
    }
  }

  /** What the search state left by the loop of `bfs` says: the popped entries are the
      source's trace, ascending, on pipes and discovered from the start, and a stop that
      is neither an empty queue nor a panic comes after `fuel` pops. */
  lemma BfsOutcome(g: Grid, start: Coord, fuel: nat, all: seq<Visit>, parents: seq<int>, h: nat, panicked: bool, farthest: int)
    requires InBounds(g, start) && IsPipe(At(g, start))
    requires h <= fuel && Searching(g, start, all, parents, h)
    requires Run(g, all, h, fuel) == Run(g, [Visit(start, 0)], 0, fuel)
    requires panicked ==> h < |all| && h < fuel && InBounds(g, all[h].at) && !IsPipe(At(g, all[h].at))
    requires !panicked ==> h == |all| || h == fuel
    requires farthest == if h == 0 then -1 else all[h - 1].dist
    ensures var vs, drained := all[..h], !panicked && h == |all|;
      vs == Trace(g, start, fuel) && drained == Drains(g, start, fuel) &&
      farthest == (if vs == [] then -1 else vs[|vs| - 1].dist) &&
      (fuel > 0 ==> vs != []) && (vs != [] ==> vs[0] == Visit(start, 0)) &&
      Ascending(vs) && (forall i :: 0 <= i < |vs| ==> vs[i].dist <= farthest) &&
      OnPipes(g, vs) && Discovered(g, vs) &&
      (panicked ==> !drained) && (!drained && !panicked ==> |vs| == fuel)
  {
    TraceOutcome(g, start, fuel, all, h, panicked);
    SearchOutcome(g, start, all, parents, h);
  }

  /** How the loop of `bfs` ends: with the queue drained, the popped entries are closed
      under steps and at shortest distances; at a popped cell that is no pipe, they leak. */
  lemma BfsVerdict(g: Grid, start: Coord, all: seq<Visit>, parents: seq<int>, h: nat, panicked: bool)
    requires InBounds(g, start) && IsPipe(At(g, start))
    requires Searching(g, start, all, parents, h) && Levelled(g, start, all, h)
    requires panicked ==> h < |all| && InBounds(g, all[h].at) && !IsPipe(At(g, all[h].at))
    ensures panicked ==> Leaks(g, all[..h])
    ensures !panicked && h == |all| ==>
      all[..h] != [] && Closed(g, all[..h], h, Cells(all[..h])) && Shortest(g, start, all[..h])
  {
    if panicked {
      PanicLeaks(g, start, all, parents, h);
    } else if h == |all| {
      SearchOutcome(g, start, all, parents, h);
      ShortestDrained(g, start, all);
      assert all[..h] == all;
    }
  }

  /** Where the loop of `bfs` stops, the popped entries are the trace, and the queue is
      drained exactly when nothing is left in it and the last pop was no panic. */
  lemma TraceOutcome(g: Grid, start: Coord, fuel: nat, all: seq<Visit>, h: nat, panicked: bool)
    requires h <= fuel && h <= |all|
    requires Run(g, all, h, fuel) == Run(g, [Visit(start, 0)], 0, fuel)
    requires panicked ==> h < |all| && InBounds(g, all[h].at) && !IsPipe(At(g, all[h].at))
    requires !panicked ==> h == |all| || h == fuel
    ensures all[..h] == Trace(g, start, fuel) && (!panicked && h == |all|) == Drains(g, start, fuel)
  {
  }

  /** One pass of the loop of `bfs` after the pop: mark the popped cell visited and queue
      its unvisited neighbours. */
  method Expand(g: Grid, ghost start: Coord, queue: seq<Visit>, ghost parents: seq<int>, head: nat, visited: set<Coord>)
    returns (queue': seq<Visit>, ghost parents': seq<int>, visited': set<Coord>)
    requires Searching(g, start, queue, parents, head) && head < |queue| && IsPipe(At(g, queue[head].at))
    requires visited == Cells(queue[..head])
    ensures Searching(g, start, queue', parents', head + 1)
    ensures visited' == Cells(queue'[..head + 1]) && queue'[head] == queue[head]
    ensures queue' == queue + Pushes(g, queue[head].at, visited + {queue[head].at}, queue[head].dist + 1, Directions)
  {
    var v := queue[head];
    ghost var pushed := Pushes(g, v.at, visited + {v.at}, v.dist + 1, Directions);
    PopStep(g, start, queue, parents, head, visited, pushed);
    visited' := visited + {v.at};
    queue' := PushNeighbours(g, v, visited', queue);
    parents' := parents + seq(|pushed|, _ => head);
  }

  /** The inner loop of `bfs`: try the four directions from v in order and queue, one unit
      further, each step that leads to a cell not yet visited. */
  method PushNeighbours(g: Grid, v: Visit, visited: set<Coord>, queue: seq<Visit>) returns (queue': seq<Visit>)
    ensures queue' == queue + Pushes(g, v.at, visited, v.dist + 1, Directions)
  {
    queue' := queue;
    for k := 0 to 4
      invariant queue' == queue + Pushes(g, v.at, visited, v.dist + 1, Directions[..k])
    {
      var t := Target(g, v.at, Directions[k]);
      PushesNext(g, v.at, visited, v.dist + 1, k);
      if t.Some? && t.value !in visited {
        queue' := queue' + [Visit(t.value, v.dist + 1)];
      }
    }
    assert Directions[..4] == Directions;
  }

  /** Consecutive cells of the path are one search step apart. */
  predicate IsPath(g: Grid, p: seq<Coord>)
  {
    forall i :: 0 <= i < |p| - 1 ==> Adjacent(g, p[i], p[i + 1])
  }

  /** Every recorded distance is the length of a path of search steps from the start. */
  lemma {:induction false} PathTo(g: Grid, vs: seq<Visit>, k: nat) returns (p: seq<Coord>)
    requires Discovered(g, vs) && k < |vs| && vs[0].dist == 0
    ensures p != [] && p[0] == vs[0].at && p[|p| - 1] == vs[k].at
    ensures IsPath(g, p) && |p| == vs[k].dist + 1
    decreases k
  {
    if k == 0 {
      p := [vs[0].at];
    } else {
      assert FoundBefore(g, vs, k);
      var j :| 0 <= j < k && Parent(g, vs[j], vs[k]);
      var front := PathTo(g, vs, j);
      p := front + [vs[k].at];
      forall i | 0 <= i < |p| - 1 ensures Adjacent(g, p[i], p[i + 1]) {
        if i < |front| - 1 {
          assert p[i] == front[i] && p[i + 1] == front[i + 1];
        } else {
          assert p[i] == vs[j].at && p[i + 1] == vs[k].at;
        }
      }
    }
  }

  /** A drained search has dequeued every cell that a path of search steps leads to from
      a dequeued cell. */
  lemma {:induction false} ReachesAll(g: Grid, vs: seq<Visit>, p: seq<Coord>)
    requires Closed(g, vs, |vs|, Cells(vs))
    requires p != [] && p[0] in Cells(vs) && IsPath(g, p)
    ensures p[|p| - 1] in Cells(vs)
    decreases |p|
  {
    if |p| > 1 {
      var front := p[..|p| - 1];
      assert forall i :: 0 <= i < |front| ==> front[i] == p[i];
      ReachesAll(g, vs, front);
      var c := p[|p| - 2];
      assert c == front[|front| - 1];
      var i :| 0 <= i < |vs| && vs[i].at == c;
      assert Adjacent(g, c, p[|p| - 1]);
      if Target(g, c, Up) == Some(p[|p| - 1]) {
        assert Target(g, vs[i].at, Up).Some?;
      } else if Target(g, c, Down) == Some(p[|p| - 1]) {
        assert Target(g, vs[i].at, Down).Some?;
      } else if Target(g, c, Left) == Some(p[|p| - 1]) {
        assert Target(g, vs[i].at, Left).Some?;
      } else {
        assert Target(g, vs[i].at, Right).Some?;
      }
    }
  }

  /** vs is what a search from start has popped, in order: it begins at the start, its
      distances ascend, its cells are pipes, and each entry was found from an earlier one. */
  ghost predicate Searched(g: Grid, start: Coord, vs: seq<Visit>)
  {
    (vs != [] ==> vs[0] == Visit(start, 0)) && Ascending(vs) && OnPipes(g, vs) && Discovered(g, vs)
  }

  /** vs is a whole search from start, its queue drained: every step out of a popped cell
      leads to a popped cell. */
  ghost predicate Drained(g: Grid, start: Coord, vs: seq<Visit>)
  {
    vs != [] && Searched(g, start, vs) && Closed(g, vs, |vs|, Cells(vs))
  }

  /** No chain of search steps from the start reaches a listed cell in fewer steps than
      the distance listed for it. */
  ghost predicate Shortest(g: Grid, start: Coord, vs: seq<Visit>)
  {
    forall k, q :: 0 <= k < |vs| && q != [] && q[0] == start && IsPath(g, q) && q[|q| - 1] == vs[k].at ==>
      vs[k].dist <= |q| - 1
  }

  /** Along a chain of steps from the start, the entries of its last cell are no further
      than the chain is long. */
  lemma {:induction false} ChainBound(g: Grid, start: Coord, vs: seq<Visit>, q: seq<Coord>, k: nat)
    requires vs != [] && vs[0] == Visit(start, 0) && Consistent(vs) && Relaxed(g, vs, |vs|)
    requires Closed(g, vs, |vs|, Cells(vs))
    requires q != [] && q[0] == start && IsPath(g, q) && k < |vs| && vs[k].at == q[|q| - 1]
    ensures vs[k].dist <= |q| - 1
    decreases |q|
  {
    if |q| == 1 {
      NearAll(vs, start, 0, k);
    } else {
      var front := q[..|q| - 1];
      assert forall i :: 0 <= i < |front| ==> front[i] == q[i];
      var c, t := q[|q| - 2], q[|q| - 1];
      assert c == front[|front| - 1];
      ReachesAll(g, vs, front);
      var i :| 0 <= i < |vs| && vs[i].at == c;
      ChainBound(g, start, vs, front, i);
      assert Adjacent(g, c, t);
      var d := if Target(g, c, Up) == Some(t) then Up else if Target(g, c, Down) == Some(t) then Down
        else if Target(g, c, Left) == Some(t) then Left else Right;
      assert Target(g, vs[i].at, d) == Some(vs[k].at);
    }
  }

  /** A drained search with one distance per cell and relaxed steps lists shortest
      distances. */
  lemma ShortestDrained(g: Grid, start: Coord, vs: seq<Visit>)
    requires vs != [] && vs[0] == Visit(start, 0) && Consistent(vs) && Relaxed(g, vs, |vs|)
    requires Closed(g, vs, |vs|, Cells(vs))
    ensures Shortest(g, start, vs)
  {
    forall k, q | 0 <= k < |vs| && q != [] && q[0] == start && IsPath(g, q) && q[|q| - 1] == vs[k].at
      ensures vs[k].dist <= |q| - 1
    {
      ChainBound(g, start, vs, q, k);
    }
  }

  /** The answer of part 1 read off a drained search with shortest distances: the last
      distance popped is the largest, a chain of steps from the start of exactly that length
      reaches the last cell and none shorter does, and every cell that a chain of steps
      reaches from the start was popped. */
  lemma FarthestMeaning(g: Grid, start: Coord, vs: seq<Visit>) returns (p: seq<Coord>)
    requires Drained(g, start, vs) && Shortest(g, start, vs)
    ensures forall i :: 0 <= i < |vs| ==> vs[i].dist <= vs[|vs| - 1].dist
    ensures p != [] && p[0] == start && p[|p| - 1] == vs[|vs| - 1].at
    ensures IsPath(g, p) && |p| == vs[|vs| - 1].dist + 1
    ensures forall q :: q != [] && q[0] == start && IsPath(g, q) && q[|q| - 1] == vs[|vs| - 1].at ==>
      |p| <= |q|
    ensures forall q :: q != [] && q[0] == start && IsPath(g, q) ==> q[|q| - 1] in Cells(vs)
  {
    p := PathTo(g, vs, |vs| - 1);
    forall q | q != [] && q[0] == start && IsPath(g, q) ensures q[|q| - 1] in Cells(vs) {
      assert vs[0].at == start;
      ReachesAll(g, vs, q);
    }
  }

  /** A drained search never steps onto a cell that is no pipe, so it never panics. */
  lemma DrainedSafe(g: Grid, start: Coord, vs: seq<Visit>)
    requires Drained(g, start, vs)
    ensures !Leaks(g, vs)
  {
    forall i, d | 0 <= i < |vs| && Target(g, vs[i].at, d).Some?
      ensures IsPipe(At(g, Target(g, vs[i].at, d).value))
    {
      var k :| 0 <= k < |vs| && vs[k].at == Target(g, vs[i].at, d).value;
    }
  }

  /** What leaves either part without an answer: no pipe fits the start (the source's
      `unreachable!`), or the source's search from it does not drain its queue, having
      stepped onto a cell that is no pipe (the source's lookup of its directions panics)
      or popped `fuel` cells. */
  ghost predicate NoAnswer(g: Grid, c: Coord, fuel: nat)
    requires Rectangular(g) && InBounds(g, c)
  {
    StartPipe(g, c).None? ||
    (!Drains(Placed(g, c), c, fuel) &&
     var vs := Trace(Placed(g, c), c, fuel); Leaks(Placed(g, c), vs) || |vs| == fuel)
  }

  /** `solve` for part 1: parse, then search from the start. The answer is the last
      distance the source's search pops, once it drains its queue; that search lists
      shortest distances, so the answer is the largest of them. There is no answer exactly
      where no pipe fits the start or that search does not drain. */
  method Solve1(g: Grid, fuel: nat) returns (r: Option<int>)
    requires Rectangular(g) && |g[0]| > 0
    ensures r.Some? ==>
      exists c: Coord :: StartAt(g, c) && StartPipe(g, c).Some? && Drains(Placed(g, c), c, fuel) &&
        var vs := Trace(Placed(g, c), c, fuel);
        Drained(Placed(g, c), c, vs) && Shortest(Placed(g, c), c, vs) && r.value == vs[|vs| - 1].dist
    ensures r.None? ==> forall c :: StartAt(g, c) ==> NoAnswer(g, c, fuel)
  {
    var pipes, c := Parse(g);
    if pipes.None? {
      forall c' | StartAt(g, c') ensures NoAnswer(g, c', fuel) {
        StartUnique(g, c, c');
      }
      return None;
    }
    var p := pipes.value;
    var farthest, visits, drained, panicked := Bfs(p, c, fuel);
    if !drained {
      forall c' | StartAt(g, c') ensures NoAnswer(g, c', fuel) {
        StartUnique(g, c, c');
      }
      return None;
    }
    assert Drained(p, c, visits);
    return Some(farthest);
  }

  // ---------------------------------------------------------------- part 2

  /** The grid with every cell outside `cells` blanked to '.'. */
  function Masked(g: Grid, cells: set<Coord>): (r: Grid)
    ensures |r| == |g| && forall i :: 0 <= i < |g| ==> |r[i]| == |g[i]|
  {
    seq(|g|, i requires 0 <= i < |g| =>
      seq(|g[i]|, j requires 0 <= j < |g[i]| => if Coord(i, j) in cells then g[i][j] else '.'))
  }

  /** Copying the pipe of cell c into the masked grid unmasks c. */
  lemma MaskAdd(g: Grid, cells: set<Coord>, c: Coord)
    requires InBounds(g, c)
    ensures var m := Masked(g, cells); Masked(g, cells + {c}) == m[c.y := m[c.y][c.x := g[c.y][c.x]]]
  {
    var m := Masked(g, cells);
    var n := Masked(g, cells + {c});
    var l := m[c.y := m[c.y][c.x := g[c.y][c.x]]];
    forall i | 0 <= i < |g| ensures n[i] == l[i] {
      if i == c.y {
        assert forall j :: 0 <= j < |g[i]| ==> n[i][j] == l[i][j];
      }
    }
  }

  /** `determine_main_loop`: the same search as part 1, writing each dequeued cell's pipe
      into a grid of '.' of the same shape. */
  method MainLoop(g: Grid, start: Coord, fuel: nat) returns (r: Option<Grid>)
    requires Rectangular(g) && InBounds(g, start) && IsPipe(At(g, start))
    ensures r.Some? <==> Drains(g, start, fuel)
    ensures r.Some? ==> var vs := Trace(g, start, fuel);
      Drained(g, start, vs) && Shortest(g, start, vs) && r.value == Masked(g, Cells(vs))
    ensures r.None? ==> var vs := Trace(g, start, fuel); Leaks(g, vs) || |vs| == fuel
  {
    var farthest, visits, drained, panicked := Bfs(g, start, fuel);
    if !drained {
      return None;
    }
    var grid := CopyCells(g, visits);
    assert Drained(g, start, visits);
    return Some(grid);
  }

  /** The writes of `determine_main_loop`: a grid of '.' of the same shape, with the pipe of
      each listed cell copied in. */
  method CopyCells(g: Grid, visits: seq<Visit>) returns (grid: Grid)
    requires Rectangular(g) && InGrid(g, visits)
    ensures grid == Masked(g, Cells(visits))
  {
    grid := seq(|g|, i requires 0 <= i < |g| => seq(|g[0]|, j => '.'));
    assert Cells(visits[..0]) == {};
    assert grid == Masked(g, {}) by {
      forall i | 0 <= i < |g| ensures grid[i] == Masked(g, {})[i] {
        assert |g[i]| == |g[0]|;
      }
    }
    for k := 0 to |visits|
      invariant grid == Masked(g, Cells(visits[..k]))
    {
      var c := visits[k].at;
      MaskAdd(g, Cells(visits[..k]), c);
      grid := grid[c.y := grid[c.y][c.x := g[c.y][c.x]]];
      CellsAppend(visits[..k], [visits[k]]);
      assert visits[..k + 1] == visits[..k] + [visits[k]];
      assert Cells([visits[k]]) == {c};
    }
    assert visits[..|visits|] == visits;
  }

  /** The state of the scan along one row. */
  datatype Scan = Scan(prev: char, first: char, inside: bool, count: nat)

  const RowStart := Scan('.', '.', false, 0)

  /** One cell of `poly_raycast_coloring`: a '.' counts while inside; a wall cell begins a
      run after '.', '7', 'J' or '|', and '|' or a run L…7 or F…J flips the parity. */
  function Step(s: Scan, c: char): Scan
  {
    if c == '.' then Scan(c, s.first, s.inside, if s.inside then s.count + 1 else s.count)
    else
      var first := if s.prev in ['.', '7', 'J', '|'] then c else s.first;
      var flip := c == '|' || (first == 'L' && c == '7') || (first == 'F' && c == 'J');
      Scan(c, first, if flip then !s.inside else s.inside, s.count)
  }

  /** The scan after the cells of `row`, from `s`. */
  function Scanned(s: Scan, row: seq<char>): Scan
  {
    if row == [] then s else Step(Scanned(s, row[..|row| - 1]), row[|row| - 1])
  }

  lemma {:induction false} ScannedAppend(s: Scan, a: seq<char>, b: seq<char>)
    ensures Scanned(s, a + b) == Scanned(Scanned(s, a), b)
    decreases |b|
  {
    if b != [] {
      var b' := b[..|b| - 1];
      assert (a + b)[..|a + b| - 1] == a + b';
      assert (a + b)[|a + b| - 1] == b[|b| - 1];
      ScannedAppend(s, a, b');
    } else {
      assert a + b == a;
    }
  }

  /** The count over the rows, each scanned from a fresh start. */
  function Inside(grid: Grid): nat
  {
    if grid == [] then 0 else Inside(grid[..|grid| - 1]) + Scanned(RowStart, grid[|grid| - 1]).count
  }

  /** `poly_raycast_coloring`. */
  method Raycast(grid: Grid) returns (inside: nat)
    ensures inside == Inside(grid)
  {
    inside := 0;
    for i := 0 to |grid|
      invariant inside == Inside(grid[..i])
    {
      var line := grid[i];
      var s := RowStart;
      for j := 0 to |line|
        invariant s == Scanned(RowStart, line[..j])
      {
        assert line[..j + 1][..j] == line[..j];
        s := Step(s, line[j]);
      }
      assert line[..|line|] == line;
      assert grid[..i + 1][..i] == grid[..i];
      inside := inside + s.count;
    }
    assert grid[..|grid|] == grid;
  }

  /** A run of horizontal pipe. */
  function Dashes(n: nat): seq<char>
  {
    seq(n, _ => '-')
  }

  predicate RunStarts(s: Scan)
  {
    s.prev in ['.', '7', 'J', '|']
  }

  /** Inside a run the first wall is kept and nothing flips. */
  lemma {:induction false} ScanDashes(s: Scan, n: nat)
    requires s.prev in ['L', 'F', '-'] && s.first in ['L', 'F']
    ensures Scanned(s, Dashes(n)) == if n == 0 then s else Scan('-', s.first, s.inside, s.count)
    decreases n
  {
    if n > 0 {
      assert Dashes(n)[..n - 1] == Dashes(n - 1);
      ScanDashes(s, n - 1);
    }
  }

  /** A wall run a—…—b started where runs start: it flips the parity exactly for L…7 and
      F…J, leaves the count alone, and ends with b as the previous cell. */
  lemma WallRun(s: Scan, a: char, n: nat, b: char)
    requires RunStarts(s) && a in ['L', 'F'] && b in ['7', 'J']
    ensures var e := Scanned(s, [a] + Dashes(n) + [b]);
      e.prev == b && e.count == s.count &&
      (e.inside != s.inside <==> (a == 'L' && b == '7') || (a == 'F' && b == 'J'))
  {
    var s1 := Step(s, a);
    assert Scanned(s, [a]) == s1 by { assert [a][..0] == []; }
    ScanDashes(s1, n);
    ScannedAppend(s, [a], Dashes(n));
    ScannedAppend(s, [a] + Dashes(n), [b]);
    assert [b][..0] == [];
  }

  /** A vertical wall flips the parity wherever it stands; an empty cell is counted
      exactly when the scan is inside. */
  lemma WallAndField(s: Scan)
    ensures Step(s, '|').inside == !s.inside && Step(s, '|').count == s.count
    ensures Step(s, '.').inside == s.inside
    ensures Step(s, '.').count == s.count + (if s.inside then 1 else 0)
  {
  }

  /** `solve` for part 2: parse, copy the main loop, scan it; the answer is the parity
      count over the grid that keeps only the cells the source's search pops, once it
      drains its queue, and there is none exactly where part 1 has none. */
  method Solve2(g: Grid, fuel: nat) returns (r: Option<nat>)
    requires Rectangular(g) && |g[0]| > 0
    ensures r.Some? ==>
      exists c: Coord :: StartAt(g, c) && StartPipe(g, c).Some? && Drains(Placed(g, c), c, fuel) &&
        var vs := Trace(Placed(g, c), c, fuel);
        Drained(Placed(g, c), c, vs) && Shortest(Placed(g, c), c, vs) &&
        r.value == Inside(Masked(Placed(g, c), Cells(vs)))
    ensures r.None? ==> forall c :: StartAt(g, c) ==> NoAnswer(g, c, fuel)
  {
    var pipes, c := Parse(g);
    if pipes.None? {
      forall c' | StartAt(g, c') ensures NoAnswer(g, c', fuel) {
        StartUnique(g, c, c');
      }
      return None;
    }
    var p := pipes.value;
    var main := MainLoop(p, c, fuel);
    if main.None? {
      forall c' | StartAt(g, c') ensures NoAnswer(g, c', fuel) {
        StartUnique(g, c, c');
      }
      return None;
    }
    var inside := Raycast(main.value);
    return Some(inside);
  }
}
