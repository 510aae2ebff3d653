/** Day 16, part 1: a beam of light enters the top-left tile of a contraption heading
    right. Empty tiles let it pass, the mirrors `/` and `\` turn it by a right angle, and
    the splitters `-` and `|` pass a beam travelling along them and split one that hits
    them from the side into two beams leaving both ways. The answer is the number of tiles
    some beam crosses (the energised tiles). The source traces beams depth-first and
    recursively, marking tiles in an energy grid and remembering every
    (direction, tile, row, column) it has expanded in a set, so that loops end. */
module Day16Beams {
  import opened Wrappers

  /** The direction a beam travels in. */
  datatype Light = Left | Right | Up | Down

  const Lights: set<Light> := {Left, Right, Up, Down}

  /** `-`, `|`, `/`, `\` and `.`. */
  datatype Tile = LeftRight | UpDown | Positive | Negative | Empty

  predicate Horizontal(l: Light)
  {
    l == Left || l == Right
  }

  /** `Light::dir`: the (row, column) offset of one step, rows counted downwards. */
  function Dir(l: Light): (d: (int, int))
    ensures (d.0 == 0) != (d.1 == 0)
    ensures -1 <= d.0 <= 1 && -1 <= d.1 <= 1
    ensures Horizontal(l) <==> d.0 == 0
    ensures (l == Left || l == Up) <==> d.0 + d.1 < 0
  {
    match l
    case Left => (0, -1)
    case Right => (0, 1)
    case Up => (-1, 0)
    case Down => (1, 0)
  }

  /** The directions a beam leaves a tile in, given the direction it arrived in. */
  function Turn(l: Light, t: Tile): (r: seq<Light>)
    ensures t == Empty ==> r == [l]
    ensures t == Positive ==> |r| == 1 && Dir(r[0]) == (-Dir(l).1, -Dir(l).0)
    ensures t == Negative ==> |r| == 1 && Dir(r[0]) == (Dir(l).1, Dir(l).0)
    ensures t == LeftRight ==> r == if Horizontal(l) then [l] else [Left, Right]
    ensures t == UpDown ==> r == if Horizontal(l) then [Up, Down] else [l]
  {
    match (l, t)
    case (Left, LeftRight) => [Left]
    case (Left, UpDown) => [Up, Down]
    case (Left, Positive) => [Down]
    case (Left, Negative) => [Up]
    case (Right, LeftRight) => [Right]
    case (Right, UpDown) => [Up, Down]
    case (Right, Positive) => [Up]
    case (Right, Negative) => [Down]
    case (Up, LeftRight) => [Left, Right]
    case (Up, UpDown) => [Up]
    case (Up, Positive) => [Right]
    case (Up, Negative) => [Left]
    case (Down, LeftRight) => [Left, Right]
    case (Down, UpDown) => [Down]
    case (Down, Positive) => [Left]
    case (Down, Negative) => [Right]
    case (_, Empty) => [l]
  }

  /** A mirror sends a beam back the way it came when the beam arrives reversed. */
  lemma MirrorsReverse(l: Light, t: Tile)
    requires t == Positive || t == Negative
    ensures Turn(Opposite(Turn(l, t)[0]), t) == [Opposite(l)]
  {
  }

  function Opposite(l: Light): (r: Light)
    ensures Dir(r) == (-Dir(l).0, -Dir(l).1)
  {
    match l
    case Left => Right
    case Right => Left
    case Up => Down
    case Down => Up
  }

  // ---------------------------------------------------------------- parsing

  /** The character each tile is drawn with. */
  function Symbol(t: Tile): char
  {
    match t
    case LeftRight => '-'
    case UpDown => '|'
    case Positive => '/'
    case Negative => '\\'
    case Empty => '.'
  }

  /** The tile of one character; None where the source reaches `unreachable!`. */
  function ParseTile(c: char): (r: Option<Tile>)
    ensures r.Some? ==> Symbol(r.value) == c
  {
    match c
    case '-' => Some(LeftRight)
    case '|' => Some(UpDown)
    case '/' => Some(Positive)
    case '\\' => Some(Negative)
    case '.' => Some(Empty)
    case _ => None
  }

  lemma SymbolParses(t: Tile)
    ensures ParseTile(Symbol(t)) == Some(t)
  {
  }

  type Grid = seq<seq<Tile>>

  predicate Rectangular(g: Grid)
  {
    |g| > 0 && forall i :: 0 <= i < |g| ==> |g[i]| == |g[0]|
  }

  /** `parse`: each line a row of tiles, or None when some character is not a tile. */
  function ParseGrid(lines: seq<string>): (r: Option<Grid>)
    ensures r.Some? ==> |r.value| == |lines|
    ensures r.Some? ==> forall i :: 0 <= i < |lines| ==> Drawn(r.value[i]) == lines[i]
    ensures r.None? ==> exists i :: 0 <= i < |lines| && ParseRow(lines[i]).None?
  {
    if lines == [] then Some([])
    else
      match (ParseGrid(lines[..|lines| - 1]), ParseRow(lines[|lines| - 1]))
      case (Some(g), Some(row)) => Some(g + [row])
      case (None, _) => None
      case (_, None) => None
  }

  /** A row as it is drawn. */
  function Drawn(row: seq<Tile>): string
  {
    seq(|row|, i requires 0 <= i < |row| => Symbol(row[i]))
  }

  function ParseRow(line: string): (r: Option<seq<Tile>>)
    ensures r.Some? ==> Drawn(r.value) == line
    ensures r.None? ==> exists i :: 0 <= i < |line| && ParseTile(line[i]).None?
  {
    if line == [] then Some([])
    else
      match (ParseRow(line[..|line| - 1]), ParseTile(line[|line| - 1]))
      case (Some(row), Some(t)) => Some(row + [t])
      case (None, _) => None
      case (_, None) => None
  }

  // ---------------------------------------------------------------- the beam graph

  /** A beam about to enter row y, column x travelling in direction light; the position
      may lie outside the grid. */
  datatype Beam = Beam(light: Light, y: int, x: int)

  /** An element of the source's `visited` set: (direction, tile, row, column). */
  datatype Visit = Visit(light: Light, tile: Tile, y: nat, x: nat)

  predicate Inside(g: Grid, y: int, x: int)
    requires Rectangular(g)
  {
    0 <= y < |g| && 0 <= x < |g[0]|
  }

  /** The visit a beam inside the grid makes. */
  function Landing(g: Grid, b: Beam): (v: Visit)
    requires Rectangular(g) && Inside(g, b.y, b.x)
    ensures Fits(g, v) && v.light == b.light && v.y == b.y && v.x == b.x
  {
    Visit(b.light, g[b.y][b.x], b.y, b.x)
  }

  /** A visit that names the tile really at its position. */
  predicate Fits(g: Grid, v: Visit)
    requires Rectangular(g)
  {
    v.y < |g| && v.x < |g[0]| && v.tile == g[v.y][v.x]
  }

  /** The beams a visit sends on, one per direction leaving the tile. */
  function Onward(v: Visit): (r: seq<Beam>)
    ensures |r| == |Turn(v.light, v.tile)|
    ensures forall i :: 0 <= i < |r| ==>
      r[i].light == Turn(v.light, v.tile)[i] &&
      (r[i].y, r[i].x) == (v.y + Dir(r[i].light).0, v.x + Dir(r[i].light).1)
  {
    var next := Turn(v.light, v.tile);
    seq(|next|, i requires 0 <= i < |next| =>
      Beam(next[i], v.y + Dir(next[i]).0, v.x + Dir(next[i]).1))
  }

  /** The first beam: heading right into the top-left tile. */
  const Start := Beam(Right, 0, 0)

  /** A path the light can take from the start, beam by beam. */
  ghost predicate IsTrail(g: Grid, p: seq<Beam>)
    requires Rectangular(g)
  {
    |p| > 0 && p[0] == Start &&
    forall i :: 0 <= i < |p| - 1 ==> Inside(g, p[i].y, p[i].x) && p[i + 1] in Onward(Landing(g, p[i]))
  }

  /** Some path from the start ends in this beam. */
  ghost predicate Reached(g: Grid, b: Beam)
    requires Rectangular(g)
  {
    exists p :: IsTrail(g, p) && p[|p| - 1] == b
  }

  /** The tile at row y, column x is crossed by some beam. */
  ghost predicate Energised(g: Grid, y: int, x: int)
    requires Rectangular(g)
  {
    Inside(g, y, x) &&
    (Reached(g, Beam(Left, y, x)) || Reached(g, Beam(Right, y, x)) ||
     Reached(g, Beam(Up, y, x)) || Reached(g, Beam(Down, y, x)))
  }

  /** Every tile, marked when it is energised. */
  ghost function Lit(g: Grid): (r: seq<seq<bool>>)
    requires Rectangular(g)
    ensures |r| == |g| && forall y :: 0 <= y < |g| ==> |r[y]| == |g[0]|
    ensures forall y, x :: 0 <= y < |g| && 0 <= x < |g[0]| ==> (r[y][x] <==> Energised(g, y, x))
  {
    seq(|g|, y requires 0 <= y < |g| => seq(|g[0]|, x requires 0 <= x < |g[0]| => Energised(g, y, x)))
  }

  lemma {:induction false} Extend(g: Grid, p: seq<Beam>, b: Beam)
    requires Rectangular(g) && IsTrail(g, p)
    requires Inside(g, p[|p| - 1].y, p[|p| - 1].x) && b in Onward(Landing(g, p[|p| - 1]))
    ensures IsTrail(g, p + [b])
  {
    var q := p + [b];
    forall i | 0 <= i < |q| - 1
      ensures Inside(g, q[i].y, q[i].x) && q[i + 1] in Onward(Landing(g, q[i]))
    {
      if i < |p| - 1 {
        assert q[i] == p[i] && q[i + 1] == p[i + 1];
      }
    }
  }

  // ---------------------------------------------------------------- the set a search closes

  /** Every visit the grid allows: the decreasing measure of the search. */
  ghost function AllVisits(g: Grid): set<Visit>
    requires Rectangular(g)
  {
    set l <- Lights, y: nat, x: nat | y < |g| && x < |g[0]| :: Visit(l, g[y][x], y, x)
  }

  lemma InAll(g: Grid, v: Visit)
    requires Rectangular(g) && Fits(g, v)
    ensures v in AllVisits(g)
  {
    assert v.light in Lights by {
      match v.light
      case Left =>
      case Right =>
      case Up =>
      case Down =>
    }
    assert v == Visit(v.light, g[v.y][v.x], v.y, v.x);
  }

  /** Some visit of the set crossed row y, column x. */
  ghost predicate SeenIn(g: Grid, seen: set<Visit>, y: nat, x: nat)
    requires Rectangular(g) && y < |g| && x < |g[0]|
  {
    var t := g[y][x];
    Visit(Left, t, y, x) in seen || Visit(Right, t, y, x) in seen ||
    Visit(Up, t, y, x) in seen || Visit(Down, t, y, x) in seen
  }

  /** Every beam a visit sends on into the grid was visited too. */
  ghost predicate Expanded(g: Grid, seen: set<Visit>, v: Visit)
    requires Rectangular(g)
  {
    forall b | b in Onward(v) :: Lands(g, seen, b)
  }

  /** A beam that stays inside the grid was visited. */
  ghost predicate Lands(g: Grid, seen: set<Visit>, b: Beam)
    requires Rectangular(g)
  {
    Inside(g, b.y, b.x) ==> Landing(g, b) in seen
  }

  /** Every visit except those still being expanded has its onward beams visited. */
  ghost predicate Closed(g: Grid, seen: set<Visit>, busy: set<Visit>)
    requires Rectangular(g)
  {
    forall v | v in seen && v !in busy :: Expanded(g, seen, v)
  }

  /** In a closed set holding the start, every beam inside the grid that a trail reaches
      has been visited. */
  lemma {:induction false} Complete(g: Grid, seen: set<Visit>, p: seq<Beam>)
    requires Rectangular(g) && Closed(g, seen, {})
    requires Inside(g, Start.y, Start.x) ==> Landing(g, Start) in seen
    requires IsTrail(g, p)
    requires Inside(g, p[|p| - 1].y, p[|p| - 1].x)
    ensures Landing(g, p[|p| - 1]) in seen
    decreases |p|
  {
    if |p| > 1 {
      var q := p[..|p| - 1];
      assert IsTrail(g, q) by {
        forall i | 0 <= i < |q| - 1
          ensures Inside(g, q[i].y, q[i].x) && q[i + 1] in Onward(Landing(g, q[i]))
        {
          assert q[i] == p[i] && q[i + 1] == p[i + 1];
        }
      }
      assert Inside(g, q[|q| - 1].y, q[|q| - 1].x);
      Complete(g, seen, q);
      assert Expanded(g, seen, Landing(g, q[|q| - 1]));
    }
  }

  // ---------------------------------------------------------------- the search

  /** The energy grid has the shape of the tiles and marks exactly the tiles some visit
      crossed; each visit fits the grid and its beam is reached from the start. */
  ghost predicate Consistent(g: Grid, energy: seq<seq<bool>>, seen: set<Visit>)
  {
    Rectangular(g) &&
    |energy| == |g| && (forall y :: 0 <= y < |energy| ==> |energy[y]| == |g[0]|) &&
    (forall v | v in seen :: Fits(g, v) && Reached(g, Beam(v.light, v.y, v.x))) &&
    forall y, x :: 0 <= y < |g| && 0 <= x < |g[0]| ==> (energy[y][x] <==> SeenIn(g, seen, y, x))
  }

  /** A recorded visit that fits the grid marks its own tile as seen. */
  lemma SeenBy(g: Grid, seen: set<Visit>, v: Visit)
    requires Rectangular(g) && Fits(g, v) && v in seen
    ensures SeenIn(g, seen, v.y, v.x)
  {
    assert v == Visit(v.light, g[v.y][v.x], v.y, v.x);
    match v.light
    case Left =>
    case Right =>
    case Up =>
    case Down =>
  }

  /** Marking the tile of a visit already made changes nothing. */
  lemma MarkVisited(g: Grid, energy: seq<seq<bool>>, seen: set<Visit>, v: Visit)
    requires Consistent(g, energy, seen) && v in seen
    ensures Consistent(g, energy[v.y := energy[v.y][v.x := true]], seen)
  {
    SeenBy(g, seen, v);
    assert energy[v.y][v.x];
    assert energy[v.y][v.x := true] == energy[v.y];
    assert energy[v.y := energy[v.y][v.x := true]] == energy;
  }

  /** Marking the tile of a new reached visit and recording the visit keeps the two consistent. */
  lemma MarkNew(g: Grid, energy: seq<seq<bool>>, seen: set<Visit>, v: Visit)
    requires Consistent(g, energy, seen) && Fits(g, v) && Reached(g, Beam(v.light, v.y, v.x))
    ensures Consistent(g, energy[v.y := energy[v.y][v.x := true]], seen + {v})
  {
    var e := energy[v.y := energy[v.y][v.x := true]];
    var s := seen + {v};
    SeenBy(g, s, v);
    forall y, x | 0 <= y < |g| && 0 <= x < |g[0]| ensures e[y][x] <==> SeenIn(g, s, y, x) {
      if y != v.y || x != v.x {
        assert e[y][x] == energy[y][x];
        assert SeenIn(g, s, y, x) == SeenIn(g, seen, y, x);
      }
    }
  }

  /** Recording a visit as busy keeps a set closed. */
  lemma Open(g: Grid, seen: set<Visit>, busy: set<Visit>, v: Visit)
    requires Rectangular(g) && Closed(g, seen, busy)
    ensures Closed(g, seen + {v}, busy + {v})
  {
    forall u | u in seen + {v} && u !in busy + {v} ensures Expanded(g, seen + {v}, u) {
      forall b | b in Onward(u) ensures Lands(g, seen + {v}, b) {
        assert Lands(g, seen, b);
      }
    }
  }

  /** A busy visit whose beams have all been visited is no longer busy. */
  lemma Finish(g: Grid, seen: set<Visit>, busy: set<Visit>, v: Visit)
    requires Rectangular(g) && Closed(g, seen, busy + {v}) && Expanded(g, seen, v)
    ensures Closed(g, seen, busy)
  {
  }

  /** The first i onward beams landed in a set that then grew and took in beam i too. */
  lemma LandsSoFar(g: Grid, mid: set<Visit>, seen: set<Visit>, next: seq<Beam>, i: nat)
    requires Rectangular(g) && i < |next| && mid <= seen
    requires forall j :: 0 <= j < i ==> Lands(g, mid, next[j])
    requires Lands(g, seen, next[i])
    ensures forall j :: 0 <= j <= i ==> Lands(g, seen, next[j])
  {
  }

  /** The state `trace_light` works on: the tiles, the energy grid and the visited set. */
  class Tracer {
    const tiles: Grid
    var energy: seq<seq<bool>>
    var visited: set<Visit>

    /** The energy grid has the shape of the tiles and marks exactly the tiles some
        visited beam crossed; each visited beam fits the grid and is reached from the start. */
    ghost predicate Valid()
      reads this
    {
      Consistent(tiles, energy, visited)
    }

    /** `vec![vec![false; w]; h]` and an empty `HashSet`. */
    constructor (tiles: Grid)
      requires Rectangular(tiles)
      ensures this.tiles == tiles && visited == {}
      ensures energy == seq(|tiles|, _ => seq(|tiles[0]|, _ => false))
      ensures Valid()
    {
      this.tiles := tiles;
      energy := seq(|tiles|, _ => seq(|tiles[0]|, _ => false));
      visited := {};
    }

    /** `trace_light`: a beam outside the grid is dropped; inside, its tile is energised,
        and unless the same (direction, tile, row, column) was visited before, it is
        recorded and each onward beam is traced in turn. `busy` holds the visits whose
        tracing is still in progress further up the recursion. */
    method TraceLight(light: Light, y: int, x: int, ghost path: seq<Beam>, ghost busy: set<Visit>)
      requires Valid()
      requires IsTrail(tiles, path) && path[|path| - 1] == Beam(light, y, x)
      requires Closed(tiles, visited, busy)
      modifies this
      ensures Valid()
      ensures old(visited) <= visited
      ensures Closed(tiles, visited, busy)
      ensures Inside(tiles, y, x) ==> Landing(tiles, Beam(light, y, x)) in visited
      ensures !Inside(tiles, y, x) ==> visited == old(visited) && energy == old(energy)
      decreases AllVisits(tiles) - visited
    {
      if y < 0 || y >= |tiles| || x < 0 || x >= |tiles[0]| {
        return;
      }
      var tile := tiles[y][x];
      var v := Visit(light, tile, y, x);
      ghost var unmarked := energy;
      energy := energy[y := energy[y][x := true]];
      if v in visited {
        MarkVisited(tiles, unmarked, visited, v);
        return;
      }
      InAll(tiles, v);
      ghost var before := visited;
      assert IsTrail(tiles, path) && path[|path| - 1] == Beam(light, y, x);
      MarkNew(tiles, unmarked, visited, v);
      Open(tiles, visited, busy, v);
      visited := visited + {v};
      var next := Onward(v);
      for i := 0 to |next|
        invariant Valid()
        invariant before + {v} <= visited
        invariant Closed(tiles, visited, busy + {v})
        invariant forall j :: 0 <= j < i ==> Lands(tiles, visited, next[j])
      {
        Extend(tiles, path, next[i]);
        ghost var mid := visited;
        TraceLight(next[i].light, next[i].y, next[i].x, path + [next[i]], busy + {v});
        LandsSoFar(tiles, mid, visited, next, i);
      }
      assert Expanded(tiles, visited, v) by {
        forall b | b in next ensures Lands(tiles, visited, b) {
          var j :| 0 <= j < |next| && next[j] == b;
        }
      }
      Finish(tiles, visited, busy, v);
    }
  }

  // ---------------------------------------------------------------- the count

  function CountRow(row: seq<bool>): (n: nat)
    ensures n <= |row|
  {
    if row == [] then 0 else CountRow(row[..|row| - 1]) + (if row[|row| - 1] then 1 else 0)
  }

  /** The number of marked cells. */
  function Count(rows: seq<seq<bool>>): nat
  {
    if rows == [] then 0 else Count(rows[..|rows| - 1]) + CountRow(rows[|rows| - 1])
  }

  /** No more cells are marked than a grid of w columns has. */
  lemma {:induction false} CountBound(rows: seq<seq<bool>>, w: nat)
    requires forall y :: 0 <= y < |rows| ==> |rows[y]| == w
    ensures Count(rows) <= |rows| * w
    decreases |rows|
  {
    if rows != [] {
      var front := rows[..|rows| - 1];
      CountBound(front, w);
      assert Count(rows) <= |front| * w + w;
      assert |front| * w + w == |rows| * w;
    }
  }

  /** `solve` on parsed tiles: trace from the start and count the energised tiles. */
  method Solve(tiles: Grid) returns (total: int)
    requires Rectangular(tiles)
    ensures total == Count(Lit(tiles))
    ensures 0 <= total <= |tiles| * |tiles[0]|
  {
    var tracer := new Tracer(tiles);
    tracer.TraceLight(Right, 0, 0, [Start], {});
    Settled(tracer);
    total := Count(tracer.energy);
    CountBound(tracer.energy, |tiles[0]|);
  }

  /** Once the search from the start is over, the energy grid marks exactly the
      energised tiles. */
  lemma Settled(t: Tracer)
    requires t.Valid() && Closed(t.tiles, t.visited, {})
    requires Inside(t.tiles, Start.y, Start.x) ==> Landing(t.tiles, Start) in t.visited
    ensures t.energy == Lit(t.tiles)
  {
    var g := t.tiles;
    var lit := Lit(g);
    forall y | 0 <= y < |g| ensures t.energy[y] == lit[y] {
      forall x | 0 <= x < |g[0]| ensures t.energy[y][x] == lit[y][x] {
        SettledAt(t, y, x);
      }
    }
  }

  lemma SettledAt(t: Tracer, y: nat, x: nat)
    requires t.Valid() && Closed(t.tiles, t.visited, {})
    requires Inside(t.tiles, Start.y, Start.x) ==> Landing(t.tiles, Start) in t.visited
    requires y < |t.tiles| && x < |t.tiles[0]|
    ensures SeenIn(t.tiles, t.visited, y, x) <==> Energised(t.tiles, y, x)
  {
    if SeenIn(t.tiles, t.visited, y, x) {
      SeenEnergised(t.tiles, t.visited, y, x);
    }
    if Energised(t.tiles, y, x) {
      EnergisedSeen(t.tiles, t.visited, y, x);
    }
  }

  /** A tile some reached visit crossed is energised. */
  lemma SeenEnergised(g: Grid, seen: set<Visit>, y: nat, x: nat)
    requires Rectangular(g) && y < |g| && x < |g[0]|
    requires forall v | v in seen :: Reached(g, Beam(v.light, v.y, v.x))
    requires SeenIn(g, seen, y, x)
    ensures Energised(g, y, x)
  {
    var v := Visit(Left, g[y][x], y, x);
    if v !in seen {
      v := Visit(Right, g[y][x], y, x);
    }
    if v !in seen {
      v := Visit(Up, g[y][x], y, x);
    }
    if v !in seen {
      v := Visit(Down, g[y][x], y, x);
    }
    assert Reached(g, Beam(v.light, y, x));
  }

  /** An energised tile was crossed by a visit of a closed set holding the start. */
  lemma EnergisedSeen(g: Grid, seen: set<Visit>, y: nat, x: nat)
    requires Rectangular(g) && y < |g| && x < |g[0]|
    requires Closed(g, seen, {})
    requires Inside(g, Start.y, Start.x) ==> Landing(g, Start) in seen
    requires Energised(g, y, x)
    ensures SeenIn(g, seen, y, x)
  {
    var l := if Reached(g, Beam(Left, y, x)) then Left
      else if Reached(g, Beam(Right, y, x)) then Right
      else if Reached(g, Beam(Up, y, x)) then Up
      else Down;
    assert Reached(g, Beam(l, y, x));
    var p :| IsTrail(g, p) && p[|p| - 1] == Beam(l, y, x);
    Complete(g, seen, p);
    assert Landing(g, Beam(l, y, x)) in seen;
  }

  /** `parse` then `solve`: None where the source panics on a character that is not a
      tile or on an empty input, and on rows of unequal length. */
  method Run(lines: seq<string>) returns (r: Option<int>)
    ensures r.Some? <==> ParseGrid(lines).Some? && Rectangular(ParseGrid(lines).value)
    ensures r.Some? ==> r.value == Count(Lit(ParseGrid(lines).value))
  {
    var parsed := ParseGrid(lines);
    if parsed.None? || !Rectangular(parsed.value) {
      return None;
    }
    var total := Solve(parsed.value);
    return Some(total);
  }
}
