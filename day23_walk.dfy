/** Day 23: the longest hike through a map of paths ('.'), forest ('#') and steep slopes
    ('^', 'v', '<', '>') from the gap in the top row to the gap in the bottom row, never
    stepping on a tile twice. The source explores every hike by backtracking: a tile is
    marked visited on the way in and unmarked on the way out. In part 1 a slope may only
    be left downhill; part 2 reads slopes as ordinary paths. */
module Day23Walk {
  import opened Wrappers

  /** `Block`; part 2's map only ever holds `Forest` and `Path`. */
  datatype Block = Forest | Path | Up | Down | Left | Right

  type Map = seq<seq<Block>>

  datatype Pos = Pos(y: int, x: int)

  function Shift(p: Pos, d: Pos): Pos
  {
    Pos(p.y + d.y, p.x + d.x)
  }

  function Abs(n: int): nat
  {
    if n < 0 then -n else n
  }

  /** `Block::dir`: the moves allowed off a tile. */
  function Dir(b: Block): (r: seq<Pos>)
    ensures r == [] <==> b == Forest
    ensures forall k :: 0 <= k < |r| ==> Abs(r[k].y) + Abs(r[k].x) == 1
    ensures b == Path ==> |r| == 4 && forall i, j :: 0 <= i < j < 4 ==> r[i] != r[j]
    ensures b != Forest && b != Path ==> |r| == 1
  {
    match b
    case Forest => []
    case Path => [Pos(-1, 0), Pos(1, 0), Pos(0, -1), Pos(0, 1)]
    case Up => [Pos(-1, 0)]
    case Down => [Pos(1, 0)]
    case Left => [Pos(0, -1)]
    case Right => [Pos(0, 1)]
  }

  /** A non-empty map whose rows all have the first row's length. */
  predicate Grid(m: Map)
  {
    |m| > 0 && forall y :: 0 <= y < |m| ==> |m[y]| == |m[0]|
  }

  /** The bounds test of `walk`, with the width taken from the first row. */
  predicate InBounds(m: Map, p: Pos)
    requires Grid(m)
  {
    0 <= p.y < |m| && 0 <= p.x < |m[0]|
  }

  function At(m: Map, p: Pos): Block
    requires Grid(m) && InBounds(m, p)
  {
    m[p.y][p.x]
  }

  /** Every position inside the map. */
  ghost function Cells(m: Map): (r: set<Pos>)
    requires Grid(m)
    ensures forall p :: p in r <==> InBounds(m, p)
  {
    set y, x | 0 <= y < |m| && 0 <= x < |m[0]| :: Pos(y, x)
  }

  /** Marking one more tile inside the map leaves fewer tiles to visit. */
  lemma Shrinks(m: Map, visited: set<Pos>, p: Pos)
    requires Grid(m) && visited <= Cells(m) && InBounds(m, p) && p !in visited
    ensures visited + {p} <= Cells(m)
    ensures |Cells(m) - (visited + {p})| < |Cells(m) - visited|
  {
    assert Cells(m) - visited == (Cells(m) - (visited + {p})) + {p};
  }

  /** The longer of two optional hike lengths, as `walk` keeps `longest`. */
  function Merge(longest: Option<int>, below: Option<int>): (r: Option<int>)
    ensures r.None? <==> longest.None? && below.None?
    ensures r.Some? ==> (r == longest || r == below) &&
                        (longest.Some? ==> r.value >= longest.value) && (below.Some? ==> r.value >= below.value)
  {
    match below
    case None => longest
    case Some(b) =>
      match longest
      case Some(l) => Some(if l < b then b else l)
      case None => Some(b)
  }

  /** What `walk` returns: the length of the longest hike from p to the target that avoids `visited`,
      counted from `depth`; None where there is none. */
  function Longest(m: Map, target: Pos, p: Pos, depth: int, visited: set<Pos>): Option<int>
    requires Grid(m) && visited <= Cells(m)
    decreases |Cells(m) - visited|, 0
  {
    if !InBounds(m, p) then None
    else if At(m, p) == Forest then None
    else if target == p then Some(depth)
    else if p in visited then None
    else
      Shrinks(m, visited, p);
      Best(m, target, p, Dir(At(m, p)), depth + 1, visited + {p})
  }

  /** The loop of `walk` over the moves off p, after the moves in `dirs`. */
  function Best(m: Map, target: Pos, p: Pos, dirs: seq<Pos>, depth: int, visited: set<Pos>): Option<int>
    requires Grid(m) && visited <= Cells(m)
    decreases |Cells(m) - visited|, |dirs|
  {
    if dirs == [] then None
    else
      Merge(Best(m, target, p, dirs[..|dirs| - 1], depth, visited),
            Longest(m, target, Shift(p, dirs[|dirs| - 1]), depth, visited))
  }

  /** The loop finds the longest hike over all the moves: None when every move fails,
      otherwise a value one of them reaches and no smaller than any of them. */
  lemma {:induction false} BestMeaning(m: Map, target: Pos, p: Pos, dirs: seq<Pos>, depth: int, visited: set<Pos>)
    requires Grid(m) && visited <= Cells(m)
    ensures var r := Best(m, target, p, dirs, depth, visited);
            (r.None? <==> forall k :: 0 <= k < |dirs| ==> Longest(m, target, Shift(p, dirs[k]), depth, visited).None?) &&
            (r.Some? ==> exists k :: 0 <= k < |dirs| && Longest(m, target, Shift(p, dirs[k]), depth, visited) == r) &&
            (forall k :: 0 <= k < |dirs| && Longest(m, target, Shift(p, dirs[k]), depth, visited).Some? ==>
                           r.Some? && r.value >= Longest(m, target, Shift(p, dirs[k]), depth, visited).value)
  {
    if dirs != [] {
      var init := dirs[..|dirs| - 1];
      BestMeaning(m, target, p, init, depth, visited);
      assert forall k :: 0 <= k < |init| ==> init[k] == dirs[k];
      var r := Best(m, target, p, dirs, depth, visited);
      if r.Some? && r == Best(m, target, p, init, depth, visited) {
        var k :| 0 <= k < |init| && Longest(m, target, Shift(p, init[k]), depth, visited) == r;
        assert Longest(m, target, Shift(p, dirs[k]), depth, visited) == r;
      }
    }
  }

  /** One more move taken into the loop. */
  lemma BestNext(m: Map, target: Pos, p: Pos, dirs: seq<Pos>, k: nat, depth: int, visited: set<Pos>)
    requires Grid(m) && visited <= Cells(m) && k < |dirs|
    ensures Best(m, target, p, dirs[..k + 1], depth, visited) ==
            Merge(Best(m, target, p, dirs[..k], depth, visited), Longest(m, target, Shift(p, dirs[k]), depth, visited))
  {
    assert dirs[..k + 1][..k] == dirs[..k];
  }

  lemma BestAll(m: Map, target: Pos, p: Pos, dirs: seq<Pos>, depth: int, visited: set<Pos>)
    requires Grid(m) && visited <= Cells(m)
    ensures Best(m, target, p, dirs[..|dirs|], depth, visited) == Best(m, target, p, dirs, depth, visited)
  {
    assert dirs[..|dirs|] == dirs;
  }

  predicate Open(m: Map, p: Pos)
    requires Grid(m)
  {
    InBounds(m, p) && At(m, p) != Forest
  }

  /** b is one allowed move away from a. */
  predicate Step(m: Map, a: Pos, b: Pos)
    requires Grid(m) && InBounds(m, a)
  {
    exists k :: 0 <= k < |Dir(At(m, a))| && b == Shift(a, Dir(At(m, a))[k])
  }

  /** A hike: open tiles, each one allowed move after the one before, ending at the
      target and reaching it nowhere earlier, with no tile before the target repeated or
      taken from `visited`. */
  predicate Trail(m: Map, target: Pos, path: seq<Pos>, visited: set<Pos>)
    requires Grid(m)
  {
    |path| >= 1 && path[|path| - 1] == target &&
    (forall i :: 0 <= i < |path| ==> Open(m, path[i])) &&
    (forall i :: 0 <= i < |path| - 1 ==> path[i] != target && path[i] !in visited && Step(m, path[i], path[i + 1])) &&
    (forall i, j :: 0 <= i < j < |path| - 1 ==> path[i] != path[j])
  }

  /** A hike from the next tile, avoiding p as well, extends to a hike from p. */
  lemma Cons(m: Map, target: Pos, p: Pos, tail: seq<Pos>, visited: set<Pos>)
    requires Grid(m) && Open(m, p) && p != target && p !in visited
    requires Trail(m, target, tail, visited + {p}) && Step(m, p, tail[0])
    ensures Trail(m, target, [p] + tail, visited)
  {
    var path := [p] + tail;
    assert forall i :: 1 <= i < |path| ==> path[i] == tail[i - 1];
  }

  /** The rest of a hike of two tiles or more is a hike that also avoids its first tile. */
  lemma Tail(m: Map, target: Pos, path: seq<Pos>, visited: set<Pos>)
    requires Grid(m) && Trail(m, target, path, visited) && |path| >= 2
    ensures Trail(m, target, path[1..], visited + {path[0]})
  {
    var tail := path[1..];
    assert forall i :: 0 <= i < |tail| ==> tail[i] == path[i + 1];
    forall i | 0 <= i < |tail| - 1 ensures tail[i] != path[0] {
      assert path[0] != path[i + 1];
    }
  }

  /** Away from the target, a hike found by `walk` continues along one of the moves off p
      with p marked. */
  lemma PickMove(m: Map, target: Pos, p: Pos, depth: int, visited: set<Pos>) returns (k: nat)
    requires Grid(m) && visited <= Cells(m)
    requires Longest(m, target, p, depth, visited).Some? && p != target
    ensures Open(m, p) && p !in visited && visited + {p} <= Cells(m)
    ensures k < |Dir(At(m, p))|
    ensures Longest(m, target, Shift(p, Dir(At(m, p))[k]), depth + 1, visited + {p}) == Longest(m, target, p, depth, visited)
  {
    Shrinks(m, visited, p);
    BestMeaning(m, target, p, Dir(At(m, p)), depth + 1, visited + {p});
    k :| 0 <= k < |Dir(At(m, p))| &&
         Longest(m, target, Shift(p, Dir(At(m, p))[k]), depth + 1, visited + {p}) == Longest(m, target, p, depth, visited);
  }

  /** Whatever `walk` returns is the length of a hike. */
  lemma {:induction false} WalkSound(m: Map, target: Pos, p: Pos, depth: int, visited: set<Pos>)
    requires Grid(m) && visited <= Cells(m)
    ensures Longest(m, target, p, depth, visited).Some? ==>
              exists path :: Trail(m, target, path, visited) && path[0] == p &&
                             Longest(m, target, p, depth, visited).value == depth + |path| - 1
    decreases |Cells(m) - visited|
  {
    var r := Longest(m, target, p, depth, visited);
    if r.Some? {
      if p == target {
        var path := [p];
        assert Trail(m, target, path, visited) && path[0] == p && r.value == depth + |path| - 1;
      } else {
        var k := PickMove(m, target, p, depth, visited);
        var next, more := Shift(p, Dir(At(m, p))[k]), visited + {p};
        Shrinks(m, visited, p);
        WalkSound(m, target, next, depth + 1, more);
        var tail :| Trail(m, target, tail, more) && tail[0] == next && r.value == depth + 1 + |tail| - 1;
        assert Step(m, p, tail[0]);
        Cons(m, target, p, tail, visited);
        var path := [p] + tail;
        assert Trail(m, target, path, visited) && path[0] == p && r.value == depth + |path| - 1;
      }
    }
  }

  /** No hike is longer than what `walk` returns. */
  lemma {:induction false} WalkLongest(m: Map, target: Pos, path: seq<Pos>, depth: int, visited: set<Pos>)
    requires Grid(m) && visited <= Cells(m) && Trail(m, target, path, visited)
    ensures Longest(m, target, path[0], depth, visited).Some?
    ensures Longest(m, target, path[0], depth, visited).value >= depth + |path| - 1
    decreases |Cells(m) - visited|
  {
    var p := path[0];
    if |path| > 1 {
      var dirs, more := Dir(At(m, p)), visited + {p};
      Shrinks(m, visited, p);
      Tail(m, target, path, visited);
      var k :| 0 <= k < |dirs| && path[1] == Shift(p, dirs[k]);
      WalkLongest(m, target, path[1..], depth + 1, more);
      BestMeaning(m, target, p, dirs, depth + 1, more);
    }
  }

  /** The backtracking of part 1: `visited` is the source's `HashSet`. */
  class Hike {
    var visited: set<Pos>

    constructor ()
      ensures visited == {}
    {
      visited := {};
    }

    /** `walk`: mark p, try every move off it, unmark p. */
    method Walk(m: Map, target: Pos, p: Pos, depth: int) returns (r: Option<int>)
      requires Grid(m) && visited <= Cells(m)
      modifies this
      ensures visited == old(visited)
      ensures r == Longest(m, target, p, depth, old(visited))
      decreases |Cells(m) - visited|
    {
      if !(0 <= p.y < |m| && 0 <= p.x < |m[0]|) {
        return None;
      }
      var block := m[p.y][p.x];
      if block == Forest {
        return None;
      }
      if target == p {
        return Some(depth);
      }
      if p in visited {
        return None;
      }
      ghost var before := visited;
      Shrinks(m, visited, p);
      visited := visited + {p};
      var dirs := Dir(block);
      var longest := None;
      for k := 0 to |dirs|
        invariant visited == before + {p}
        invariant longest == Best(m, target, p, dirs[..k], depth + 1, before + {p})
      {
        var below := Walk(m, target, Shift(p, dirs[k]), depth + 1);
        BestNext(m, target, p, dirs, k, depth + 1, before + {p});
        longest := Merge(longest, below);
      }
      BestAll(m, target, p, dirs, depth + 1, before + {p});
      visited := visited - {p};
      assert visited == before;
      r := longest;
    }
  }

  /** The tiles marked in part 2's visited grid; it determines every flag of the grid. */
  ghost function Marked(seen: array2<bool>): (r: set<Pos>)
    reads seen
    ensures forall y, x :: 0 <= y < seen.Length0 && 0 <= x < seen.Length1 ==> (seen[y, x] <==> Pos(y, x) in r)
    ensures forall q :: q in r ==> 0 <= q.y < seen.Length0 && 0 <= q.x < seen.Length1
  {
    set y, x | 0 <= y < seen.Length0 && 0 <= x < seen.Length1 && seen[y, x] :: Pos(y, x)
  }

  /** The marked set is the set of tiles whose flags are up. */
  lemma MarkedExactly(seen: array2<bool>, tiles: set<Pos>)
    requires forall y, x :: 0 <= y < seen.Length0 && 0 <= x < seen.Length1 ==> (seen[y, x] <==> Pos(y, x) in tiles)
    requires forall q :: q in tiles ==> 0 <= q.y < seen.Length0 && 0 <= q.x < seen.Length1
    ensures Marked(seen) == tiles
  {
    forall q | q in tiles ensures q in Marked(seen) {
      assert seen[q.y, q.x];
    }
  }

  /** The backtracking of part 2 over a grid of flags of the map's size; the grid is as it
      was on return. */
  method WalkGrid(m: Map, target: Pos, p: Pos, depth: int, seen: array2<bool>) returns (r: Option<int>)
    requires Grid(m) && seen.Length0 == |m| && seen.Length1 == |m[0]|
    modifies seen
    ensures Marked(seen) == old(Marked(seen))
    ensures r == Longest(m, target, p, depth, old(Marked(seen)))
    decreases |Cells(m) - Marked(seen)|, 0
  {
    if !(0 <= p.y < |m| && 0 <= p.x < |m[0]|) {
      return None;
    }
    var block := m[p.y][p.x];
    if block == Forest {
      return None;
    }
    if target == p {
      return Some(depth);
    }
    if seen[p.y, p.x] {
      return None;
    }
    ghost var before := Marked(seen);
    Shrinks(m, before, p);
    seen[p.y, p.x] := true;
    MarkedExactly(seen, before + {p});
    r := Explore(m, target, p, Dir(block), depth + 1, seen, before + {p});
    seen[p.y, p.x] := false;
    MarkedExactly(seen, before);
  }

  /** The loop of part 2's `walk` over the moves off p, with the flags standing for
      `tiles` throughout. */
  method Explore(m: Map, target: Pos, p: Pos, dirs: seq<Pos>, depth: int, seen: array2<bool>, ghost tiles: set<Pos>)
    returns (longest: Option<int>)
    requires Grid(m) && seen.Length0 == |m| && seen.Length1 == |m[0]| && tiles <= Cells(m)
    requires Marked(seen) == tiles
    modifies seen
    ensures Marked(seen) == tiles
    ensures longest == Best(m, target, p, dirs, depth, tiles)
    decreases |Cells(m) - tiles|, 1
  {
    longest := None;
    for k := 0 to |dirs|
      invariant Marked(seen) == tiles
      invariant longest == Best(m, target, p, dirs[..k], depth, tiles)
    {
      var below := WalkGrid(m, target, Shift(p, dirs[k]), depth, seen);
      BestNext(m, target, p, dirs, k, depth, tiles);
      longest := Merge(longest, below);
    }
    BestAll(m, target, p, dirs, depth, tiles);
  }

  /** Every hike from `start` is at most as long as the answer, and the answer is the
      length of one of them; None when there is no hike. */
  ghost predicate IsLongest(m: Map, target: Pos, start: Pos, r: Option<int>)
    requires Grid(m)
  {
    (r.Some? ==> exists path :: Trail(m, target, path, {}) && path[0] == start && r.value == |path| - 1) &&
    (forall path :: Trail(m, target, path, {}) && path[0] == start ==> r.Some? && r.value >= |path| - 1)
  }

  /** `walk` from the start with nothing visited finds the longest hike. */
  lemma WalkIsLongest(m: Map, target: Pos, start: Pos)
    requires Grid(m)
    ensures IsLongest(m, target, start, Longest(m, target, start, 0, {}))
  {
    WalkSound(m, target, start, 0, {});
    forall path | Trail(m, target, path, {}) && path[0] == start
      ensures Longest(m, target, start, 0, {}).Some? && Longest(m, target, start, 0, {}).value >= |path| - 1
    {
      WalkLongest(m, target, path, 0, {});
    }
  }

  /** The tiles of part 1. */
  function Tile(c: char): (r: Option<Block>)
    ensures r.Some? <==> c in "#.^v<>"
  {
    match c
    case '#' => Some(Forest)
    case '.' => Some(Path)
    case '^' => Some(Up)
    case 'v' => Some(Down)
    case '<' => Some(Left)
    case '>' => Some(Right)
    case _ => None
  }

  /** The tiles of part 2: every slope is a path. */
  function FlatTile(c: char): (r: Option<Block>)
    ensures r.Some? <==> c in "#.^v<>"
  {
    match c
    case '#' => Some(Forest)
    case '.' => Some(Path)
    case '^' => Some(Path)
    case 'v' => Some(Path)
    case '<' => Some(Path)
    case '>' => Some(Path)
    case _ => None
  }

  function Symbol(b: Block): char
  {
    match b
    case Forest => '#'
    case Path => '.'
    case Up => '^'
    case Down => 'v'
    case Left => '<'
    case Right => '>'
  }

  /** Part 1 reads each tile back from its symbol, and each legal symbol from its tile. */
  lemma TileReads(b: Block, c: char)
    ensures Tile(Symbol(b)) == Some(b)
    ensures Tile(c).Some? ==> Symbol(Tile(c).value) == c
  {
  }

  /** A slope flattened to a path. */
  function Level(b: Block): (r: Block)
    ensures r == Forest <==> b == Forest
  {
    if b == Forest then Forest else Path
  }

  /** Part 2 reads what part 1 reads, with slopes flattened. */
  lemma FlatTileLevel(c: char)
    ensures FlatTile(c) == (match Tile(c) case None => None case Some(b) => Some(Level(b)))
  {
  }

  /** One line of the map, tile by tile; the source panics where this is None. */
  function ParseRow(line: string, flat: bool): (r: Option<seq<Block>>)
    ensures r.Some? ==> |r.value| == |line|
    ensures r.Some? <==> forall i :: 0 <= i < |line| ==> line[i] in "#.^v<>"
    ensures r.Some? ==> forall i :: 0 <= i < |line| ==> r.value[i] == (if flat then FlatTile(line[i]) else Tile(line[i])).value
  {
    if line == [] then Some([])
    else
      var t := if flat then FlatTile(line[0]) else Tile(line[0]);
      match (t, ParseRow(line[1..], flat))
      case (Some(b), Some(rest)) =>
        assert forall i :: 1 <= i < |line| ==> line[i] == line[1..][i - 1];
        Some([b] + rest)
      case (None, _) => None
      case (_, None) =>
        var i :| 0 <= i < |line[1..]| && line[1..][i] !in "#.^v<>";
        assert line[i + 1] == line[1..][i];
        None
  }

  /** `parse`: every line a row of tiles. */
  function ParseMap(lines: seq<string>, flat: bool): (r: Option<Map>)
    ensures r.Some? ==> |r.value| == |lines| &&
                        forall y :: 0 <= y < |lines| ==> ParseRow(lines[y], flat) == Some(r.value[y])
    ensures r.None? ==> exists y :: 0 <= y < |lines| && ParseRow(lines[y], flat).None?
  {
    if lines == [] then Some([])
    else
      match (ParseRow(lines[0], flat), ParseMap(lines[1..], flat))
      case (Some(row), Some(rest)) =>
        assert forall y :: 1 <= y < |lines| ==> lines[y] == lines[1..][y - 1];
        Some([row] + rest)
      case (None, _) => None
      case (_, None) =>
        var y :| 0 <= y < |lines[1..]| && ParseRow(lines[1..][y], flat).None?;
        assert lines[y + 1] == lines[1..][y];
        None
  }

  /** The flattened map of part 2 is part 1's map with every slope turned into a path. */
  lemma FlatMap(lines: seq<string>)
    requires ParseMap(lines, false).Some?
    ensures ParseMap(lines, true).Some?
    ensures var m1, m2 := ParseMap(lines, false).value, ParseMap(lines, true).value;
            |m1| == |m2| &&
            (forall y :: 0 <= y < |m1| ==> |m1[y]| == |m2[y]|) &&
            (forall y, x :: 0 <= y < |m1| && 0 <= x < |m1[y]| ==> m2[y][x] == Level(m1[y][x]))
  {
    var m1 := ParseMap(lines, false).value;
    forall y | 0 <= y < |lines| ensures ParseRow(lines[y], true).Some? {
      assert ParseRow(lines[y], false) == Some(m1[y]);
    }
    var m2 := ParseMap(lines, true).value;
    forall y, x | 0 <= y < |m1| && 0 <= x < |m1[y]| ensures m2[y][x] == Level(m1[y][x]) {
      assert ParseRow(lines[y], false) == Some(m1[y]);
      assert ParseRow(lines[y], true) == Some(m2[y]);
      FlatTileLevel(lines[y][x]);
    }
  }

  /** The hike goes from the gap at (0, 1) to the one at (h - 1, w - 2). */
  function Start(): Pos
  {
    Pos(0, 1)
  }

  function Target(m: Map): Pos
    requires Grid(m)
  {
    Pos(|m| - 1, |m[0]| - 2)
  }

  /** Part 1: the longest hike when slopes are one-way; None where the source panics (an
      unknown character, an empty map, no hike at all) and for a ragged map. */
  method Solve1(lines: seq<string>) returns (r: Option<int>)
    ensures ParseMap(lines, false).None? ==> r.None?
    ensures ParseMap(lines, false).Some? && !Grid(ParseMap(lines, false).value) ==> r.None?
    ensures ParseMap(lines, false).Some? && Grid(ParseMap(lines, false).value) ==>
              var m := ParseMap(lines, false).value;
              r == Longest(m, Target(m), Start(), 0, {}) && IsLongest(m, Target(m), Start(), r)
  {
    var parsed := ParseMap(lines, false);
    if parsed.None? {
      return None;
    }
    var m := parsed.value;
    if |m| == 0 || exists y :: 0 <= y < |m| && |m[y]| != |m[0]| {
      return None;
    }
    var hike := new Hike();
    r := hike.Walk(m, Target(m), Start(), 0);
    WalkIsLongest(m, Target(m), Start());
  }

  /** Part 2: the longest hike with slopes read as paths, over a grid of visited flags. */
  method Solve2(lines: seq<string>) returns (r: Option<int>)
    ensures ParseMap(lines, true).None? ==> r.None?
    ensures ParseMap(lines, true).Some? && !Grid(ParseMap(lines, true).value) ==> r.None?
    ensures ParseMap(lines, true).Some? && Grid(ParseMap(lines, true).value) ==>
              var m := ParseMap(lines, true).value;
              r == Longest(m, Target(m), Start(), 0, {}) && IsLongest(m, Target(m), Start(), r)
  {
    var parsed := ParseMap(lines, true);
    if parsed.None? {
      return None;
    }
    var m := parsed.value;
    if |m| == 0 || exists y :: 0 <= y < |m| && |m[y]| != |m[0]| {
      return None;
    }
    var seen := new bool[|m|, |m[0]|]((y, x) => false);
    MarkedExactly(seen, {});
    r := WalkGrid(m, Target(m), Start(), 0, seen);
    WalkIsLongest(m, Target(m), Start());
  }
}
