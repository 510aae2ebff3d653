/** Day 21: a gardener starts on the plot marked 'S' of a map of garden plots '.' and rocks
    '#' and takes a number of steps, each to an orthogonal neighbour that is on the map and
    not a rock. The answer is the number of plots where the last step can end. The source
    keeps the set of positions reachable in exactly n steps and rebuilds it once per step. */
module Day21Steps {
  import opened Wrappers
  import opened Text

  datatype Field = Garden | Rock

  type Grid = seq<seq<Field>>

  datatype Pos = Pos(y: int, x: int)

  /** UP, DOWN, LEFT and RIGHT, in the source's order. */
  const Moves: seq<Pos> := [Pos(-1, 0), Pos(1, 0), Pos(0, -1), Pos(0, 1)]

  function Shift(p: Pos, d: Pos): Pos
  {
    Pos(p.y + d.y, p.x + d.x)
  }

  predicate Rectangular(area: Grid)
  {
    forall i :: 0 <= i < |area| ==> |area[i]| == |area[0]|
  }

  /** A position on the map holding a garden plot. */
  predicate Open(area: Grid, q: Pos)
  {
    0 <= q.y < |area| && 0 <= q.x < |area[q.y]| && area[q.y][q.x] == Garden
  }

  function Abs(v: int): nat
  {
    if v < 0 then -v else v
  }

  /** The number of orthogonal steps between two positions on an empty map. */
  function Dist(p: Pos, q: Pos): nat
  {
    Abs(p.y - q.y) + Abs(p.x - q.x)
  }

  /** One round of `mark`: every open neighbour of a current position. */
  function Step(area: Grid, ps: set<Pos>): (r: set<Pos>)
    ensures forall q :: q in r ==> Open(area, q)
  {
    set p, d | p in ps && d in Moves && Open(area, Shift(p, d)) :: Shift(p, d)
  }

  /** The positions where a walk of exactly n steps from `start` can end. */
  function Reached(area: Grid, start: Pos, n: nat): set<Pos>
  {
    if n == 0 then {start} else Step(area, Reached(area, start, n - 1))
  }

  /** The open neighbours of one position among the first k moves. */
  function Partial(area: Grid, p: Pos, k: nat): set<Pos>
    requires k <= 4
  {
    set j | 0 <= j < k && Open(area, Shift(p, Moves[j])) :: Shift(p, Moves[j])
  }

  lemma PartialNext(area: Grid, p: Pos, k: nat)
    requires k < 4
    ensures Partial(area, p, k + 1) ==
            Partial(area, p, k) + (if Open(area, Shift(p, Moves[k])) then {Shift(p, Moves[k])} else {})
  {
  }

  /** Adding a position to the current set adds its open neighbours to the next one. */
  lemma StepAdd(area: Grid, ps: set<Pos>, p: Pos)
    ensures Step(area, ps + {p}) == Step(area, ps) + Partial(area, p, 4)
  {
    forall q | q in Partial(area, p, 4) ensures q in Step(area, ps + {p}) {
      var j :| 0 <= j < 4 && Open(area, Shift(p, Moves[j])) && q == Shift(p, Moves[j]);
      assert Moves[j] in Moves;
    }
    forall q | q in Step(area, ps + {p}) ensures q in Step(area, ps) + Partial(area, p, 4) {
      var p', d :| p' in ps + {p} && d in Moves && Open(area, Shift(p', d)) && q == Shift(p', d);
      if p' == p {
        var j :| 0 <= j < 4 && Moves[j] == d;
      }
    }
  }

  /** `mark`: the number of positions a walk of `steps` steps can end on; no step is taken
      when `steps` is not positive. */
  method Mark(area: Grid, steps: int, start: Pos) returns (count: nat)
    requires |area| > 0 && Rectangular(area)
    ensures count == |Reached(area, start, if steps < 0 then 0 else steps)|
    ensures steps <= 0 ==> count == 1
  {
    var positions := {start};
    var n := 0;
    while n < steps
      invariant 0 <= n && (steps >= 0 ==> n <= steps) && (steps < 0 ==> n == 0)
      invariant positions == Reached(area, start, n)
    {
      positions := Advance(area, positions);
      n := n + 1;
    }
    count := |positions|;
  }

  /** One pass of `mark`'s step loop: `new_pos` collects the open neighbours of every
      position. */
  method Advance(area: Grid, positions: set<Pos>) returns (next: set<Pos>)
    requires |area| > 0 && Rectangular(area)
    ensures next == Step(area, positions)
  {
    next := {};
    var rest := positions;
    while rest != {}
      invariant rest <= positions
      invariant next == Step(area, positions - rest)
      decreases |rest|
    {
      var p :| p in rest;
      next := Visit(area, p, next);
      StepAdd(area, positions - rest, p);
      assert positions - (rest - {p}) == (positions - rest) + {p};
      rest := rest - {p};
    }
    assert positions - {} == positions;
  }

  /** The four moves from one position, each kept when it stays on the map and lands on no
      rock. */
  method Visit(area: Grid, p: Pos, before: set<Pos>) returns (next: set<Pos>)
    requires |area| > 0 && Rectangular(area)
    ensures next == before + Partial(area, p, 4)
  {
    var h, w := |area|, |area[0]|;
    next := before;
    for k := 0 to 4
      invariant next == before + Partial(area, p, k)
    {
      PartialNext(area, p, k);
      var q := Shift(p, Moves[k]);
      if q.y < 0 || q.y >= h || q.x < 0 || q.x >= w {
        continue;
      }
      if area[q.y][q.x] == Rock {
        continue;
      }
      next := next + {q};
    }
  }

  /** After at least one step every position is on the map and a garden plot. */
  lemma ReachedOpen(area: Grid, start: Pos, n: nat, q: Pos)
    requires n >= 1 && q in Reached(area, start, n)
    ensures 0 <= q.y < |area| && 0 <= q.x < |area[q.y]| && area[q.y][q.x] == Garden
  {
  }

  /** A walk of n steps ends at most n steps from the start, on a position of the same
      colour as the start after an even number of steps and of the other colour after an
      odd one. */
  lemma {:induction false} ReachedNear(area: Grid, start: Pos, n: nat, q: Pos)
    requires q in Reached(area, start, n)
    ensures Dist(start, q) <= n
    ensures (Dist(start, q) + n) % 2 == 0
  {
    if n > 0 {
      var p, d :| p in Reached(area, start, n - 1) && d in Moves && Open(area, Shift(p, d)) && q == Shift(p, d);
      ReachedNear(area, start, n - 1, p);
      MoveDist(start, p, d);
      var a, b := Dist(start, p), Dist(start, q);
      var before := a + (n - 1);
      assert b + n == before + 2 || b + n == before;
      EvenShift(before);
    }
  }

  lemma EvenShift(v: int)
    requires v % 2 == 0
    ensures (v + 2) % 2 == 0
  {
  }

  /** One move changes the distance from a fixed position by exactly one. */
  lemma MoveDist(s: Pos, p: Pos, d: Pos)
    requires d in Moves
    ensures Dist(s, Shift(p, d)) == Dist(s, p) + 1 || Dist(s, Shift(p, d)) + 1 == Dist(s, p)
  {
  }

  /** Once the walk has left an open start, a position reached in n steps is reached again
      in n + 2 by stepping back and forth. */
  lemma ReachedAgain(area: Grid, start: Pos, n: nat)
    requires n >= 1 && Open(area, start)
    ensures Reached(area, start, n) <= Reached(area, start, n + 2)
  {
    forall q | q in Reached(area, start, n) ensures q in Reached(area, start, n + 2) {
      var p, d :| p in Reached(area, start, n - 1) && d in Moves && Open(area, Shift(p, d)) && q == Shift(p, d);
      var back := Pos(-d.y, -d.x);
      assert back in Moves;
      assert Shift(q, back) == p;
      assert Open(area, p);
      assert p in Reached(area, start, n + 1);
      assert Shift(p, d) == q;
    }
  }

  // ---------------------------------------------------------------- parsing

  /** The line with its first 'S' made a garden '.'. */
  function Cleaned(line: string): (r: string)
    ensures |r| == |line|
  {
    match Find(line, 'S')
    case None => line
    case Some(j) => line[j := '.']
  }

  /** A character the conversion accepts once the first 'S' of the line is a garden. */
  predicate Legal(line: string, j: nat)
    requires j < |line|
  {
    line[j] == '#' || line[j] == '.' || (line[j] == 'S' && 'S' !in line[..j])
  }

  lemma CleanedLegal(line: string, j: nat)
    requires j < |line|
    ensures (Cleaned(line)[j] == '#' || Cleaned(line)[j] == '.') <==> Legal(line, j)
    ensures Cleaned(line)[j] == '#' <==> line[j] == '#'
  {
    match Find(line, 'S')
    case None =>
    case Some(k) =>
      if j < k {
        assert line[..k][j] == line[j];
      } else if j > k {
        assert line[..j][k] == 'S';
      }
  }

  /** The start the source records: the first 'S' of the last line that has one, or (0, 0)
      when no line has one. */
  function StartOf(lines: seq<string>): Pos
  {
    if lines == [] then Pos(0, 0)
    else
      match Find(lines[|lines| - 1], 'S')
      case Some(j) => Pos(|lines| - 1, j)
      case None => StartOf(lines[..|lines| - 1])
  }

  /** The start is (0, 0) when no line has an 'S'; otherwise it is an 'S', the first of its
      line, and no later line has one. */
  lemma {:induction false} StartOfMeaning(lines: seq<string>)
    ensures (forall i :: 0 <= i < |lines| ==> 'S' !in lines[i]) ==> StartOf(lines) == Pos(0, 0)
    ensures (exists i :: 0 <= i < |lines| && 'S' in lines[i]) ==>
              var r := StartOf(lines);
              0 <= r.y < |lines| && 0 <= r.x < |lines[r.y]| && lines[r.y][r.x] == 'S' &&
              'S' !in lines[r.y][..r.x] && forall i :: r.y < i < |lines| ==> 'S' !in lines[i]
  {
    if lines != [] {
      var init := lines[..|lines| - 1];
      assert forall i :: 0 <= i < |init| ==> init[i] == lines[i];
      StartOfMeaning(init);
    }
  }

  /** The map the source builds from lines every character of which is legal. */
  function AreaOf(lines: seq<string>): (r: Grid)
    ensures |r| == |lines| && forall i :: 0 <= i < |lines| ==> |r[i]| == |lines[i]|
  {
    seq(|lines|, i requires 0 <= i < |lines| => seq(|lines[i]|, j requires 0 <= j < |lines[i]| => if lines[i][j] == '#' then Rock else Garden))
  }

  function ToField(c: char): Option<Field>
  {
    if c == '#' then Some(Rock) else if c == '.' then Some(Garden) else None
  }

  predicate AllLegal(lines: seq<string>)
  {
    forall i, j :: 0 <= i < |lines| && 0 <= j < |lines[i]| ==> Legal(lines[i], j)
  }

  /** `parse`: the first 'S' of every line becomes a garden and the last of them is the
      start; then '#' is rock and '.' a garden, and any other character (a second 'S' on a
      line among them) makes the source panic, here None. */
  method Parse(lines: seq<string>) returns (r: Option<(Grid, Pos)>)
    ensures r.Some? <==> AllLegal(lines)
    ensures r.Some? ==> r.value == (AreaOf(lines), StartOf(lines))
  {
    var chars, start := ReplaceStart(lines);
    var area := Convert(lines, chars);
    if area.None? {
      return None;
    }
    return Some((area.value, start));
  }

  /** The first loop of `parse`: each line's first 'S' is overwritten with '.' and its
      position recorded. */
  method ReplaceStart(lines: seq<string>) returns (chars: seq<string>, start: Pos)
    ensures |chars| == |lines| && forall k :: 0 <= k < |lines| ==> chars[k] == Cleaned(lines[k])
    ensures start == StartOf(lines)
  {
    chars := [];
    start := Pos(0, 0);
    for i := 0 to |lines|
      invariant |chars| == i && forall k :: 0 <= k < i ==> chars[k] == Cleaned(lines[k])
      invariant start == StartOf(lines[..i])
    {
      var line := lines[i];
      var j := FirstStart(line);
      StartOfNext(lines, i);
      if j < |line| {
        start := Pos(i, j);
        line := line[j := '.'];
      }
      chars := chars + [line];
    }
    assert lines[..|lines|] == lines;
  }

  /** The inner loop of `parse`'s first pass: the index of the line's first 'S', or its
      length when it has none. */
  method FirstStart(line: string) returns (j: nat)
    ensures j <= |line|
    ensures j < |line| ==> Find(line, 'S') == Some(j)
    ensures j == |line| ==> Find(line, 'S') == None
  {
    j := 0;
    while j < |line|
      invariant j <= |line| && 'S' !in line[..j]
    {
      if line[j] == 'S' {
        return;
      }
      assert line[..j + 1] == line[..j] + [line[j]];
      j := j + 1;
    }
    assert line[..j] == line;
  }

  lemma StartOfNext(lines: seq<string>, i: nat)
    requires i < |lines|
    ensures StartOf(lines[..i + 1]) ==
            match Find(lines[i], 'S') case Some(j) => Pos(i, j) case None => StartOf(lines[..i])
  {
    assert lines[..i + 1][..i] == lines[..i];
    assert lines[..i + 1][i] == lines[i];
  }

  /** The second loop of `parse`: each character becomes a field, None at the first one
      that is neither '#' nor '.'. */
  method Convert(lines: seq<string>, chars: seq<string>) returns (r: Option<Grid>)
    requires |chars| == |lines| && forall k :: 0 <= k < |lines| ==> chars[k] == Cleaned(lines[k])
    ensures r.Some? <==> AllLegal(lines)
    ensures r.Some? ==> r.value == AreaOf(lines)
  {
    var area: Grid := [];
    for i := 0 to |lines|
      invariant |area| == i
      invariant forall k :: 0 <= k < i ==> area[k] == AreaOf(lines)[k]
      invariant forall k, j :: 0 <= k < i && 0 <= j < |lines[k]| ==> Legal(lines[k], j)
    {
      var row: seq<Field> := [];
      for j := 0 to |chars[i]|
        invariant |row| == j
        invariant forall m :: 0 <= m < j ==> row[m] == AreaOf(lines)[i][m] && Legal(lines[i], m)
      {
        CleanedLegal(lines[i], j);
        var f := ToField(chars[i][j]);
        if f.None? {
          return None;
        }
        row := row + [f.value];
      }
      assert row == AreaOf(lines)[i];
      area := area + [row];
    }
    assert area == AreaOf(lines);
    return Some(area);
  }

  /** `solve`: None where the source panics (an illegal character, an empty map) and for a
      ragged map; otherwise the number of plots a walk of `steps` steps can end on. */
  method Solve(lines: seq<string>, steps: int) returns (r: Option<nat>)
    ensures !AllLegal(lines) || lines == [] || !Rectangular(AreaOf(lines)) ==> r.None?
    ensures AllLegal(lines) && lines != [] && Rectangular(AreaOf(lines)) ==>
              r == Some(|Reached(AreaOf(lines), StartOf(lines), if steps < 0 then 0 else steps)|)
  {
    var parsed := Parse(lines);
    if parsed.None? {
      return None;
    }
    var (area, start) := parsed.value;
    if |area| == 0 || !Rectangular(area) {
      return None;
    }
    var count := Mark(area, steps, start);
    return Some(count);
  }
}
