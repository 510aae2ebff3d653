/** Day 14 part 2: the platform spun a billion times. The engine tilts its platform in
    place, north, west, south and east in turn for one spin cycle; the platform states
    repeat eventually, and the load after a billion cycles is read off one period. */
module Day14Spin {
  import opened Day14Tilt

  /** A line part-way through a packing scan: cells before `seg` hold the tilted
      closed segments, cells from `seg` to `t` have had their round rocks lifted out,
      and the rest is untouched. */
  ghost predicate Scanned(view: seq<Rock>, c: seq<Rock>, seg: nat, t: nat)
    requires seg <= t <= |c|
  {
    |view| == |c| &&
    forall q :: 0 <= q < |c| ==>
      view[q] == if q < seg then Tilt(c[..seg])[q] else if q < t then Air else c[q]
  }

  /** The round rocks of a group put back at the start of their segment. */
  function Stack(view: seq<Rock>, start: nat, count: nat): (r: seq<Rock>)
    ensures |r| == |view|
    ensures forall q :: 0 <= q < |view| ==> r[q] == if start <= q < start + count then Round else view[q]
  {
    seq(|view|, q requires 0 <= q < |view| => if start <= q < start + count then Round else view[q])
  }

  /** The tilted prefix of a line whose last segment starts at seg. */
  lemma ClosedAt(c: seq<Rock>, seg: nat, i: nat)
    requires seg <= i <= |c| && (seg == 0 || c[seg - 1] == Square) && SquareFree(c[seg..i])
    ensures forall q :: 0 <= q < i ==>
      Tilt(c[..i])[q] == (if q < seg then Tilt(c[..seg])[q] else if q < seg + Rounds(c[seg..i]) then Round else Air)
  {
    assert c[..i] == c[..seg] + c[seg..i];
    TiltStep(c[..seg], c[seg..i]);
  }

  /** The scan state of the tilt loop before cell t: `seg` is the start of the open
      segment, `start` and `after` are the source's `start_pos` and
      `is_after_square_rock`, and `count` its `round_rock_count`. */
  ghost predicate Scanning(c: seq<Rock>, view: seq<Rock>, seg: nat, t: nat, start: nat, after: bool, count: nat)
  {
    seg <= t <= |c| && start <= t &&
    (after ==> seg == t && count == 0) && (!after ==> seg == start) &&
    (seg == 0 || c[seg - 1] == Square) && SquareFree(c[seg..t]) && count == Rounds(c[seg..t]) &&
    Scanned(view, c, seg, t)
  }

  lemma ScanBegins(c: seq<Rock>)
    ensures Scanning(c, c, 0, 0, 0, true, 0)
  {
    assert c[0..0] == [];
  }

  /** `if is_after_square_rock { start_pos = i; ... }`: a segment opens at t. */
  lemma ScanOpens(c: seq<Rock>, view: seq<Rock>, seg: nat, t: nat, start: nat, count: nat)
    requires Scanning(c, view, seg, t, start, true, count)
    ensures Scanning(c, view, seg, t, t, false, count)
  {
  }

  lemma ScanAir(c: seq<Rock>, view: seq<Rock>, seg: nat, t: nat, start: nat, count: nat)
    requires Scanning(c, view, seg, t, start, false, count) && t < |c| && c[t] == Air
    ensures Scanning(c, view, seg, t + 1, start, false, count)
  {
    SegmentGrows(c, seg, t);
  }

  lemma ScanRound(c: seq<Rock>, view: seq<Rock>, seg: nat, t: nat, start: nat, count: nat)
    requires Scanning(c, view, seg, t, start, false, count) && t < |c| && c[t] == Round
    ensures Scanning(c, view[t := Air], seg, t + 1, start, false, count + 1)
  {
    SegmentGrows(c, seg, t);
  }

  /** At a square rock the lifted rocks go back to the segment start, and the scan has
      tilted everything up to and including the square rock. */
  lemma ScanSquare(c: seq<Rock>, view: seq<Rock>, seg: nat, t: nat, start: nat, count: nat)
    requires Scanning(c, view, seg, t, start, false, count) && t < |c| && c[t] == Square
    ensures start + count <= t
    ensures Scanning(c, Stack(view, start, count), t + 1, t + 1, start, true, 0)
  {
    var s := Stack(view, seg, Rounds(c[seg..t]));
    var before, closed := Tilt(c[..t]), Tilt(c[..t + 1]);
    ClosedAt(c, seg, t);
    assert c[..t + 1] == c[..t] + [Square];
    TiltAppendSquare(c[..t]);
    forall q | 0 <= q < |c|
      ensures s[q] == if q < t + 1 then closed[q] else if q < t + 1 then Air else c[q]
    {
      if q < t {
        assert closed[q] == before[q];
      }
    }
    PastSquare(c, t, 0);
  }

  /** At the far edge the last group goes back and the whole line is tilted. */
  lemma ScanEnd(c: seq<Rock>, view: seq<Rock>, seg: nat, start: nat, after: bool, count: nat)
    requires Scanning(c, view, seg, |c|, start, after, count)
    ensures start + count <= |c|
    ensures Stack(view, start, count) == Tilt(c)
  {
    var s := Stack(view, start, count);
    assert c[..|c|] == c;
    var r := Tilt(c[..|c|]);
    ClosedAt(c, seg, |c|);
    forall q | 0 <= q < |c| ensures s[q] == r[q] {
      var e := if q < seg then Tilt(c[..seg])[q] else if q < seg + count then Round else Air;
      assert r[q] == e;
      assert view[q] == if q < seg then Tilt(c[..seg])[q] else Air;
    }
  }

  /** A spin cycle is the four tilts in turn. */
  lemma CycleSteps(g: Grid)
    requires Rectangular(g)
    ensures Cycle(g) == Tilted(Tilted(Tilted(Tilted(g, ToNorth), ToWest), ToSouth), ToEast)
  {
    assert Toward(0) == ToNorth && Toward(1) == ToWest && Toward(2) == ToSouth && Toward(3) == ToEast;
    assert Tilts(g, 0) == g;
    var g1 := Tilts(g, 1);
    var g2 := Tilts(g, 2);
    var g3 := Tilts(g, 3);
    assert g1 == Tilted(g, ToNorth);
    assert g2 == Tilted(g1, ToWest);
    assert g3 == Tilted(g2, ToSouth);
  }

  /** The rock-rolling engine; `grid` is the platform, changed in place. */
  class Engine {
    const grid: array2<Rock>

    /** The platform as rows. */
    function Cells(): (g: Grid)
      reads grid
      ensures |g| == grid.Length0
      ensures forall i :: 0 <= i < |g| ==> |g[i]| == grid.Length1
      ensures forall i, j :: 0 <= i < grid.Length0 && 0 <= j < grid.Length1 ==> g[i][j] == grid[i, j]
    {
      seq(grid.Length0, i requires 0 <= i < grid.Length0 reads grid =>
        seq(grid.Length1, j requires 0 <= j < grid.Length1 reads grid => grid[i, j]))
    }

    /** `parse`: an engine over the platform g. */
    constructor (g: Grid)
      requires Rectangular(g)
      ensures fresh(grid) && Cells() == g
    {
      grid := new Rock[|g|, |g[0]|]((i, j) requires 0 <= i < |g| && 0 <= j < |g[0]| => g[i][j]);
      new;
      forall i | 0 <= i < |g| ensures Cells()[i] == g[i] {
      }
    }

    /** Line k of the platform shows `view`. */
    ghost predicate Shows(d: Direction, k: nat, view: seq<Rock>)
      reads grid
    {
      |view| == LineLength(grid.Length0, grid.Length1, d) &&
      forall i, j :: 0 <= i < grid.Length0 && 0 <= j < grid.Length1 && LineOf(d, i, j) == k ==>
        grid[i, j] == view[Place(grid.Length0, grid.Length1, d, i, j)]
    }

    /** One write `self.map[i][j] = rock` to cell t of line k. */
    method Put(d: Direction, k: nat, t: nat, x: Rock, ghost view: seq<Rock>)
      requires k < LineCount(grid.Length0, grid.Length1, d) && t < LineLength(grid.Length0, grid.Length1, d)
      requires Shows(d, k, view)
      modifies grid
      ensures Shows(d, k, view[t := x])
      ensures forall i, j :: 0 <= i < grid.Length0 && 0 <= j < grid.Length1 && LineOf(d, i, j) != k ==>
        grid[i, j] == old(grid[i, j])
    {
      var p := At(grid.Length0, grid.Length1, d, k, t);
      grid[p.0, p.1] := x;
    }

    /** The loop `for k in ...` that puts a group of `count` round rocks back at the start
        of its segment. */
    method StackGroup(d: Direction, k: nat, start: nat, count: nat, ghost view: seq<Rock>)
      returns (ghost stacked: seq<Rock>)
      requires k < LineCount(grid.Length0, grid.Length1, d)
      requires start + count <= LineLength(grid.Length0, grid.Length1, d)
      requires Shows(d, k, view)
      modifies grid
      ensures stacked == Stack(view, start, count) && Shows(d, k, stacked)
      ensures forall i, j :: 0 <= i < grid.Length0 && 0 <= j < grid.Length1 && LineOf(d, i, j) != k ==>
        grid[i, j] == old(grid[i, j])
    {
      stacked := view;
      for q := start to start + count
        invariant Shows(d, k, stacked) && |stacked| == |view|
        invariant forall r :: 0 <= r < |view| ==> stacked[r] == if start <= r < q then Round else view[r]
        invariant forall i, j :: 0 <= i < grid.Length0 && 0 <= j < grid.Length1 && LineOf(d, i, j) != k ==>
          grid[i, j] == old(grid[i, j])
      {
        Put(d, k, q, Round, stacked);
        stacked := stacked[q := Round];
      }
      assert stacked == Stack(view, start, count);
    }

    /** One pass of the inner loop of the tilt methods, at cell t of line k: a round
        rock is lifted out, and a square rock closes the segment, whose round rocks go
        back at its start. */
    method Visit(d: Direction, k: nat, t: nat, start: nat, after: bool, count: nat,
                 ghost c: seq<Rock>, ghost view: seq<Rock>, ghost seg: nat)
      returns (start': nat, after': bool, count': nat, ghost view': seq<Rock>, ghost seg': nat)
      requires k < LineCount(grid.Length0, grid.Length1, d) && t < |c|
      requires Scanning(c, view, seg, t, start, after, count) && Shows(d, k, view)
      modifies grid
      ensures Scanning(c, view', seg', t + 1, start', after', count') && Shows(d, k, view')
      ensures forall i, j :: 0 <= i < grid.Length0 && 0 <= j < grid.Length1 && LineOf(d, i, j) != k ==>
        grid[i, j] == old(grid[i, j])
    {
      start', after', count', view', seg' := start, after, count, view, seg;
      if after' {
        ScanOpens(c, view, seg, t, start, count);
        start' := t;
        after' := false;
      }
      var p := At(grid.Length0, grid.Length1, d, k, t);
      var rock := grid[p.0, p.1];
      assert rock == view[t] == c[t];
      match rock
      case Round =>
        ScanRound(c, view, seg, t, start', count');
        Put(d, k, t, Air, view);
        view' := view[t := Air];
        count' := count' + 1;
      case Square =>
        ScanSquare(c, view, seg, t, start', count');
        view' := StackGroup(d, k, start', count', view);
        after' := true;
        count' := 0;
        seg' := t + 1;
      case Air =>
        ScanAir(c, view, seg, t, start', count');
    }

    /** The inner loop of the tilt methods over line k, which shows c when it starts. */
    method ScanLine(d: Direction, k: nat, ghost c: seq<Rock>)
      returns (start: nat, after: bool, count: nat, ghost view: seq<Rock>, ghost seg: nat)
      requires k < LineCount(grid.Length0, grid.Length1, d) && Shows(d, k, c)
      modifies grid
      ensures Scanning(c, view, seg, |c|, start, after, count) && Shows(d, k, view)
      ensures forall i, j :: 0 <= i < grid.Length0 && 0 <= j < grid.Length1 && LineOf(d, i, j) != k ==>
        grid[i, j] == old(grid[i, j])
    {
      var n := LineLength(grid.Length0, grid.Length1, d);
      start, after, count, view, seg := 0, true, 0, c, 0;
      ScanBegins(c);
      for t := 0 to n
        invariant Scanning(c, view, seg, t, start, after, count) && Shows(d, k, view)
        invariant forall i, j :: 0 <= i < grid.Length0 && 0 <= j < grid.Length1 && LineOf(d, i, j) != k ==>
          grid[i, j] == old(grid[i, j])
      {
        start, after, count, view, seg := Visit(d, k, t, start, after, count, c, view, seg);
      }
    }

    /** The tilt methods' work on one line: the line is scanned from the edge the rocks
        roll toward, and the last group goes back after the scan. */
    method PackLine(d: Direction, k: nat)
      requires grid.Length0 > 0 && k < LineCount(grid.Length0, grid.Length1, d)
      modifies grid
      ensures Rectangular(old(Cells()))
      ensures Shows(d, k, Tilt(Line(old(Cells()), d, k)))
      ensures forall i, j :: 0 <= i < grid.Length0 && 0 <= j < grid.Length1 && LineOf(d, i, j) != k ==>
        grid[i, j] == old(grid[i, j])
    {
      ghost var c := Line(Cells(), d, k);
      assert Shows(d, k, c) by {
        forall i, j | 0 <= i < grid.Length0 && 0 <= j < grid.Length1 && LineOf(d, i, j) == k
          ensures grid[i, j] == c[Place(grid.Length0, grid.Length1, d, i, j)]
        {
          var p := At(grid.Length0, grid.Length1, d, k, Place(grid.Length0, grid.Length1, d, i, j));
          assert p == (i, j);
        }
      }
      var start, after, count, view, seg := ScanLine(d, k, c);
      ScanEnd(c, view, seg, start, after, count);
      view := StackGroup(d, k, start, count, view);
    }

    /** The lines before k of the platform g0 are tilted toward d, the others untouched. */
    ghost predicate Rolled(d: Direction, g0: Grid, k: nat)
      requires Rectangular(g0) && |g0| == grid.Length0 && |g0[0]| == grid.Length1
      reads grid
    {
      forall i, j :: 0 <= i < grid.Length0 && 0 <= j < grid.Length1 ==>
        grid[i, j] == if LineOf(d, i, j) < k then Tilted(g0, d)[i][j] else g0[i][j]
    }

    /** One pass of the loop of the tilt methods: line k is packed. */
    method PackNext(d: Direction, ghost g0: Grid, k: nat)
      requires grid.Length0 > 0 && k < LineCount(grid.Length0, grid.Length1, d)
      requires Rectangular(g0) && |g0| == grid.Length0 && |g0[0]| == grid.Length1
      requires Rolled(d, g0, k)
      modifies grid
      ensures Rolled(d, g0, k + 1)
    {
      assert Line(Cells(), d, k) == Line(g0, d, k);
      PackLine(d, k);
    }

    /** Tilting toward d: every line packed in turn. */
    method Roll(d: Direction)
      requires grid.Length0 > 0
      modifies grid
      ensures Rectangular(old(Cells()))
      ensures Cells() == Tilted(old(Cells()), d)
    {
      ghost var g0 := Cells();
      var lines := LineCount(grid.Length0, grid.Length1, d);
      for k := 0 to lines
        invariant Rolled(d, g0, k)
      {
        PackNext(d, g0, k);
      }
      ghost var r := Tilted(g0, d);
      forall i | 0 <= i < grid.Length0 ensures Cells()[i] == r[i] {
      }
    }

    /** `Engine::north`. */
    method North()
      requires grid.Length0 > 0
      modifies grid
      ensures Rectangular(old(Cells())) && Cells() == Tilted(old(Cells()), ToNorth)
    {
      Roll(ToNorth);
    }

    /** `Engine::west`. */
    method West()
      requires grid.Length0 > 0
      modifies grid
      ensures Rectangular(old(Cells())) && Cells() == Tilted(old(Cells()), ToWest)
    {
      Roll(ToWest);
    }

    /** `Engine::south`. */
    method South()
      requires grid.Length0 > 0
      modifies grid
      ensures Rectangular(old(Cells())) && Cells() == Tilted(old(Cells()), ToSouth)
    {
      Roll(ToSouth);
    }

    /** `Engine::east`. */
    method East()
      requires grid.Length0 > 0
      modifies grid
      ensures Rectangular(old(Cells())) && Cells() == Tilted(old(Cells()), ToEast)
    {
      Roll(ToEast);
    }

    /** `Engine::cycle`: one spin cycle. */
    method Cycle()
      requires grid.Length0 > 0
      modifies grid
      ensures Rectangular(old(Cells())) && Cells() == Day14Tilt.Cycle(old(Cells()))
    {
      ghost var g0 := Cells();
      North();
      ghost var g1 := Cells();
      West();
      ghost var g2 := Cells();
      South();
      ghost var g3 := Cells();
      East();
      CycleSteps(g0);
    }

    /** A spin cycle of an engine whose platform has had n cycles since g. */
    method Advance(ghost g: Grid, ghost n: nat)
      requires grid.Length0 > 0 && Cells() == Spin(g, n)
      modifies grid
      ensures Cells() == Spin(g, n + 1)
    {
      Cycle();
    }
  }

  /** x after n applications of f. */
  function Iterate<T>(f: T -> T, x: T, n: nat): T
  {
    if n == 0 then x else f(Iterate(f, x, n - 1))
  }

  lemma {:induction false} IterateAdd<T>(f: T -> T, x: T, a: nat, b: nat)
    ensures Iterate(f, x, a + b) == Iterate(f, Iterate(f, x, a), b)
  {
    if b > 0 {
      IterateAdd(f, x, a, b - 1);
    }
  }

  /** Two moments with the same state have the same future. */
  lemma SameFuture<T>(f: T -> T, x: T, m: nat, k: nat, y: nat)
    requires Iterate(f, x, m) == Iterate(f, x, k)
    ensures Iterate(f, x, m + y) == Iterate(f, x, k + y)
  {
    IterateAdd(f, x, m, y);
    IterateAdd(f, x, k, y);
  }

  /** Whole periods of p steps after step k bring the state back. */
  lemma {:induction false} Periods<T>(f: T -> T, x: T, k: nat, p: nat, q: nat, r: nat)
    requires Iterate(f, x, k + p) == Iterate(f, x, k)
    ensures Iterate(f, x, k + q * p + r) == Iterate(f, x, k + r)
  {
    if q > 0 {
      Periods(f, x, k, p, q - 1, r);
      assert k + q * p + r == k + p + ((q - 1) * p + r);
      SameFuture(f, x, k, k + p, (q - 1) * p + r);
    }
  }

  /** Once the state after k steps comes back after p more, the states run round a
      period of p steps. */
  lemma Periodic<T>(f: T -> T, x: T, k: nat, p: nat, y: nat)
    requires p > 0 && Iterate(f, x, k + p) == Iterate(f, x, k)
    ensures Iterate(f, x, k + y) == Iterate(f, x, k + y % p)
  {
    assert y == y / p * p + y % p;
    Periods(f, x, k, p, y / p, y % p);
  }

  /** A state met again after k steps that it was met after m: from step k it comes back
      every k - m steps. */
  lemma ReturnsTo<T>(f: T -> T, x: T, m: nat, k: nat)
    requires m < k && Iterate(f, x, m) == Iterate(f, x, k)
    ensures Iterate(f, Iterate(f, x, k), k - m) == Iterate(f, x, k)
  {
    SameFuture(f, x, m, k, k - m);
    IterateAdd(f, x, k, k - m);
  }

  /** Once the state after k steps comes back after p more, the state after k + p + y
      steps is the one y % p steps on from step k. */
  lemma Lands<T>(f: T -> T, x: T, k: nat, p: nat, y: nat)
    requires p > 0 && Iterate(f, Iterate(f, x, k), p) == Iterate(f, x, k)
    ensures Iterate(f, x, k + p + y) == Iterate(f, Iterate(f, x, k), y % p)
  {
    var start := Iterate(f, x, k);
    IterateAdd(f, x, k, p + y);
    SameFuture(f, start, 0, p, y);
    Periodic(f, start, 0, p, y);
  }

  /** One spin cycle, on the platforms the engine can hold. */
  function SpinCycle(g: Grid): Grid
  {
    if Rectangular(g) then Cycle(g) else g
  }

  /** The platform after n spin cycles. */
  function Spin(g: Grid, n: nat): Grid
  {
    Iterate(SpinCycle, g, n)
  }

  /** The values of f at 0, ..., n - 1. */
  function Samples<T>(f: nat -> T, n: nat): (r: seq<T>)
    ensures |r| == n
  {
    if n == 0 then [] else Samples(f, n - 1) + [f(n - 1)]
  }

  lemma {:induction false} SamplesAt<T>(f: nat -> T, n: nat, c: nat)
    requires c < n
    ensures Samples(f, n)[c] == f(c)
  {
    if c < n - 1 {
      SamplesAt(f, n - 1, c);
    }
  }

  /** The platforms after cycles 0, ..., n - 1. */
  function Trace(g: Grid, n: nat): seq<Grid>
  {
    Samples(c => Spin(g, c), n)
  }

  /** The loads of the platforms after cycles 0, ..., n - 1. */
  function Loads(g: Grid, n: nat): seq<int>
  {
    Samples(c => Load(Spin(g, c)), n)
  }

  lemma LoadsGrow(g: Grid, n: nat)
    ensures Loads(g, n + 1) == Loads(g, n) + [Load(Spin(g, n))]
  {
  }

  /** The platform g is back after s spin cycles. */
  predicate Back(g: Grid, s: nat)
  {
    Spin(g, s) == g
  }

  /** The fewest cycles, at least s and at most q, after which g is back (q if none). */
  function Comeback(g: Grid, s: nat, q: nat): (r: nat)
    requires s <= q
    ensures s <= r <= q
    decreases q - s
  {
    if s == q || Back(g, s) then s else Comeback(g, s + 1, q)
  }

  /** When g is back after q cycles, Comeback finds the first cycle count at or after s
      at which it is back. */
  lemma {:induction false} ComebackMeaning(g: Grid, s: nat, q: nat)
    requires s <= q && Back(g, q)
    ensures Back(g, Comeback(g, s, q))
    ensures forall t :: s <= t < Comeback(g, s, q) ==> !Back(g, t)
    decreases q - s
  {
    if s < q && !Back(g, s) {
      ComebackMeaning(g, s + 1, q);
    }
  }

  /** No platform occurs twice in s. */
  predicate Distinct(s: seq<Grid>)
  {
    forall a, b :: 0 <= a < b < |s| ==> s[a] != s[b]
  }

  /** A trace without repeats: the first n platforms are all different. */
  lemma NoRepeats(g: Grid, n: nat)
    requires Distinct(Trace(g, n))
    ensures forall a, b :: 0 <= a < b < n ==> Spin(g, a) != Spin(g, b)
  {
    forall a, b | 0 <= a < b < n ensures Spin(g, a) != Spin(g, b) {
      SamplesAt(c => Spin(g, c), n, a);
      SamplesAt(c => Spin(g, c), n, b);
    }
  }

  /** The number of spin cycles the puzzle asks for. */
  const Spins: nat := 1000000000

  datatype Outcome =
    | Answer(load: int)
    /** The first repeat was not met within the fuel. */
    | OutOfFuel
    /** `1000000000 - iterations_done` underflows: the period closed after more cycles. */
    | Underflow

  /** Step 1 of `solve`: the engine spins until its platform is one it has had before;
      the grids seen so far stand for the source's set of their hashes. */
  method FindRepeat(engine: Engine, g: Grid, fuel: nat)
    returns (found: bool, first: Grid, done: nat, ghost m: nat)
    requires engine.grid.Length0 > 0 && engine.Cells() == g
    modifies engine.grid
    ensures engine.Cells() == Spin(g, done) && done <= fuel
    ensures found ==> Distinct(Trace(g, done))
    ensures found ==> m < done && Spin(g, m) == Spin(g, done) && first == Spin(g, done)
    ensures !found ==> done == fuel && Distinct(Trace(g, fuel + 1))
  {
    var seen := [engine.Cells()];
    done, found, first, m := 0, false, g, 0;
    while done < fuel
      invariant done <= fuel && seen == Trace(g, done + 1) && Distinct(seen)
      invariant engine.Cells() == Spin(g, done)
    {
      engine.Advance(g, done);
      done := done + 1;
      var current := engine.Cells();
      if current in seen {
        m :| 0 <= m < |seen| && seen[m] == current;
        SamplesAt(c => Spin(g, c), done, m);
        found, first := true, current;
        return;
      }
      seen := seen + [current];
    }
  }

  /** Step 2 of `solve`: from the first repeated platform the engine spins until the
      platform comes back, recording the load of every platform of the period. The
      source's loop (cycle, compare, record) is entered here after its first cycle. */
  method RecordPeriod(engine: Engine, first: Grid, ghost q: nat)
    returns (scores: seq<int>, spun: nat)
    requires engine.grid.Length0 > 0 && engine.Cells() == first
    requires 0 < q && Spin(first, q) == first
    modifies engine.grid
    ensures 0 < spun <= q && Spin(first, spun) == first && scores == Loads(first, spun)
    // the platform comes back after `spun` cycles and not earlier
    ensures spun == Comeback(first, 1, q) && forall s :: 0 < s < spun ==> !Back(first, s)
  {
    scores, spun := [Load(first)], 1;
    engine.Advance(first, 0);
    var current := engine.Cells();
    while current != first
      invariant spun <= q && scores == Loads(first, spun)
      invariant current == engine.Cells() == Spin(first, spun)
      invariant Comeback(first, 1, q) == Comeback(first, spun, q)
      decreases q - spun
    {
      LoadsGrow(first, spun);
      scores := scores + [Load(current)];
      engine.Advance(first, spun);
      spun := spun + 1;
      current := engine.Cells();
    }
    ComebackMeaning(first, 1, q);
  }

  /** `solve`: the loads of one period are read off by the remaining cycle count modulo
      the period. */
  method Solve(g: Grid, fuel: nat) returns (r: Outcome)
    requires Rectangular(g)
    ensures r.Answer? ==> r.load == Load(Spin(g, Spins))
    ensures r.OutOfFuel? ==> forall a, b :: 0 <= a < b <= fuel ==> Spin(g, a) != Spin(g, b)
    // the first repeat, after k cycles of a trace whose first k platforms differ, closes a
    // period of k - m cycles, and k + (k - m) cycles are more than the puzzle asks for
    ensures r.Underflow? ==> exists m, k :: 0 <= m < k <= fuel && Distinct(Trace(g, k)) &&
                                           Spin(g, m) == Spin(g, k) && 2 * k - m > Spins
  {
    var engine := new Engine(g);
    var found, first, done, m := FindRepeat(engine, g, fuel);
    if !found {
      NoRepeats(g, fuel + 1);
      return OutOfFuel;
    }
    ghost var k := done;
    ReturnsTo(SpinCycle, g, m, k);
    var scores, spun := RecordPeriod(engine, first, k - m);
    done := done + spun;
    if done > Spins {
      return Underflow;
    }
    var todo := Spins - done;
    ReadOff(g, k, first, spun, todo);
    return Answer(scores[todo % |scores|]);
  }

  /** The load after the remaining cycles is the one recorded todo % spun cycles into
      the period. */
  lemma ReadOff(g: Grid, k: nat, first: Grid, spun: nat, todo: nat)
    requires first == Spin(g, k) && 0 < spun && Spin(first, spun) == first
    requires k + spun + todo == Spins
    ensures Loads(first, spun)[todo % spun] == Load(Spin(g, Spins))
  {
    Lands(SpinCycle, g, k, spun, todo);
    SamplesAt(c => Load(Spin(first, c)), spun, todo % spun);
  }
}
