/** Day 14: a platform of round rocks 'O', square rocks '#' and air '.'. Tilting it makes
    every round rock roll toward one edge until it meets a square rock, another round rock
    or the edge. Along one line this packs the round rocks of every segment (the cells
    between two square rocks or an edge) into the segment's first cells. A round rock
    weighs as many as there are rows from it to the south edge, inclusive. */
module Day14Tilt {
  import opened Wrappers

  datatype Rock = Round | Square | Air

  type Grid = seq<seq<Rock>>

  /** The source indexes `map[0]`, so a platform has a first row, and all rows are as wide. */
  predicate Rectangular(g: Grid)
  {
    |g| > 0 && forall i :: 0 <= i < |g| ==> |g[i]| == |g[0]|
  }

  predicate SquareFree(s: seq<Rock>)
  {
    forall t :: 0 <= t < |s| ==> s[t] != Square
  }

  /** The number of round rocks. */
  function Rounds(s: seq<Rock>): (n: nat)
    ensures n <= |s|
  {
    if s == [] then 0 else Rounds(s[..|s| - 1]) + (if s[|s| - 1] == Round then 1 else 0)
  }

  lemma {:induction false} RoundsConcat(a: seq<Rock>, b: seq<Rock>)
    ensures Rounds(a + b) == Rounds(a) + Rounds(b)
    decreases |b|
  {
    if b == [] {
      assert a + b == a;
    } else {
      assert (a + b)[..|a + b| - 1] == a + b[..|b| - 1];
      RoundsConcat(a, b[..|b| - 1]);
    }
  }

  /** A tilted segment of length len holding n round rocks: the rocks first, then air. */
  function Fill(n: nat, len: nat): (r: seq<Rock>)
    requires n <= len
    ensures |r| == len && SquareFree(r)
    ensures forall t :: 0 <= t < len ==> r[t] == if t < n then Round else Air
  {
    seq(len, t => if t < n then Round else Air)
  }

  lemma {:induction false} FillRounds(n: nat, len: nat)
    requires n <= len
    ensures Rounds(Fill(n, len)) == n
    decreases len
  {
    if len > 0 {
      var f := Fill(n, len);
      if n == len {
        assert f[..len - 1] == Fill(n - 1, len - 1);
        FillRounds(n - 1, len - 1);
      } else {
        assert f[..len - 1] == Fill(n, len - 1);
        FillRounds(n, len - 1);
      }
    }
  }

  /** The index of the last square rock, if any. */
  function LastSquare(c: seq<Rock>): (r: Option<nat>)
    ensures r.Some? ==> r.value < |c| && c[r.value] == Square && SquareFree(c[r.value + 1..])
    ensures r.None? ==> SquareFree(c)
  {
    if c == [] then None
    else if c[|c| - 1] == Square then Some(|c| - 1)
    else
      match LastSquare(c[..|c| - 1])
      case None => None
      case Some(k) =>
        assert forall t :: k + 1 <= t < |c| - 1 ==> c[t] == c[..|c| - 1][k + 1..][t - k - 1];
        Some(k)
  }

  lemma {:induction false} LastSquareIs(c: seq<Rock>, k: nat)
    requires k < |c| && c[k] == Square && SquareFree(c[k + 1..])
    ensures LastSquare(c) == Some(k)
    decreases |c|
  {
    var n := |c| - 1;
    if k < n {
      assert c[n] == c[k + 1..][n - k - 1];
      assert forall t :: k + 1 <= t < n ==> c[..n][t] == c[k + 1..][t - k - 1];
      LastSquareIs(c[..n], k);
    }
  }

  /** One line tilted toward its start: every segment keeps its square rock and its number
      of round rocks, packed into its first cells. */
  function Tilt(c: seq<Rock>): (r: seq<Rock>)
    ensures |r| == |c|
    decreases |c|
  {
    match LastSquare(c)
    case None => Fill(Rounds(c), |c|)
    case Some(k) => Tilt(c[..k]) + [Square] + Fill(Rounds(c[k + 1..]), |c| - k - 1)
  }

  lemma TiltAppendSquare(c: seq<Rock>)
    ensures Tilt(c + [Square]) == Tilt(c) + [Square]
  {
    var d := c + [Square];
    assert d[..|c|] == c;
    assert d[|c| + 1..] == [];
  }

  /** Closing the last segment: a square-free run after an edge or a square rock tilts
      into a fill. */
  lemma TiltStep(p: seq<Rock>, s: seq<Rock>)
    requires SquareFree(s) && (p == [] || p[|p| - 1] == Square)
    ensures Tilt(p + s) == Tilt(p) + Fill(Rounds(s), |s|)
  {
    if p == [] {
      assert p + s == s;
    } else {
      var k := |p| - 1;
      var c := p + s;
      assert SquareFree(c[k + 1..]) by {
        assert c[k + 1..] == s;
      }
      LastSquareIs(c, k);
      assert c[..k] == p[..k];
      assert c[k + 1..] == s;
      assert p == p[..k] + [Square];
      TiltAppendSquare(p[..k]);
    }
  }

  /** A square rock separates: the two sides tilt independently. */
  lemma {:induction false} TiltSegments(a: seq<Rock>, b: seq<Rock>)
    ensures Tilt(a + [Square] + b) == Tilt(a) + [Square] + Tilt(b)
    decreases |b|
  {
    match LastSquare(b)
    case None =>
      TiltStep(a + [Square], b);
      TiltAppendSquare(a);
    case Some(k) =>
      var front, rest := a + [Square] + b[..k], b[k + 1..];
      var fill, tb := Fill(Rounds(rest), |rest|), Tilt(b[..k]);
      assert Tilt(b) == tb + [Square] + fill;
      assert b == b[..k] + [Square] + rest;
      assert a + [Square] + b == front + [Square] + rest;
      TiltStep(front + [Square], rest);
      TiltAppendSquare(front);
      TiltSegments(a, b[..k]);
      assert Tilt(a) + [Square] + tb + [Square] + fill == Tilt(a) + [Square] + (tb + [Square] + fill);
  }

  /** Tilting moves no square rock and keeps the number of round rocks. */
  lemma {:induction false} TiltKeepsRocks(c: seq<Rock>)
    ensures forall t :: 0 <= t < |c| ==> (Tilt(c)[t] == Square <==> c[t] == Square)
    ensures Rounds(Tilt(c)) == Rounds(c)
    decreases |c|
  {
    match LastSquare(c)
    case None =>
      FillRounds(Rounds(c), |c|);
    case Some(k) =>
      var rest := c[k + 1..];
      TiltKeepsRocks(c[..k]);
      FillRounds(Rounds(rest), |rest|);
      assert c == c[..k] + [Square] + rest;
      RoundsConcat(c[..k] + [Square], rest);
      RoundsConcat(c[..k], [Square]);
      RoundsConcat(Tilt(c[..k]) + [Square], Fill(Rounds(rest), |rest|));
      RoundsConcat(Tilt(c[..k]), [Square]);
  }

  /** Tilting twice in the same direction is tilting once. */
  lemma {:induction false} TiltIdempotent(c: seq<Rock>)
    ensures Tilt(Tilt(c)) == Tilt(c)
    decreases |c|
  {
    match LastSquare(c)
    case None =>
      var f := Fill(Rounds(c), |c|);
      FillRounds(Rounds(c), |c|);
      assert LastSquare(f) == None;
    case Some(k) =>
      var f := Fill(Rounds(c[k + 1..]), |c| - k - 1);
      FillRounds(Rounds(c[k + 1..]), |c| - k - 1);
      assert LastSquare(f) == None;
      TiltSegments(Tilt(c[..k]), f);
      TiltIdempotent(c[..k]);
  }

  /** The load of a line whose first cell weighs `top`, the next one less, and so on. */
  function Weigh(c: seq<Rock>, top: int): int
  {
    if c == [] then 0
    else Weigh(c[..|c| - 1], top) + (if c[|c| - 1] == Round then top - (|c| - 1) else 0)
  }

  lemma {:induction false} WeighConcat(a: seq<Rock>, b: seq<Rock>, top: int)
    ensures Weigh(a + b, top) == Weigh(a, top) + Weigh(b, top - |a|)
    decreases |b|
  {
    if b == [] {
      assert a + b == a;
    } else {
      assert (a + b)[..|a + b| - 1] == a + b[..|b| - 1];
      WeighConcat(a, b[..|b| - 1], top);
    }
  }

  /** The load of n round rocks stacked from a cell of weight b on:
      b + (b - 1) + ... + (b - n + 1). */
  function StackLoad(b: int, n: nat): int
  {
    if n == 0 then 0 else StackLoad(b, n - 1) + (b - n + 1)
  }

  lemma {:induction false} StackDoubled(b: int, n: nat)
    ensures 2 * StackLoad(b, n) == (2 * b - n + 1) * n
  {
    if n > 0 {
      StackDoubled(b, n - 1);
      assert (2 * b - n + 2) * (n - 1) + 2 * (b - n + 1) == (2 * b - n + 1) * n;
    }
  }

  /** The closed form the source computes, (b + (b - n + 1)) * n / 2, is that sum. */
  lemma StackFormula(b: int, n: nat)
    ensures (b + (b - n + 1)) * n / 2 == StackLoad(b, n)
  {
    StackDoubled(b, n);
    var x := (b + (b - n + 1)) * n;
    assert x == 2 * StackLoad(b, n);
  }

  /** A packed segment weighs as its rocks stacked from its first cell. */
  lemma {:induction false} WeighFill(n: nat, len: nat, b: int)
    requires n <= len
    ensures Weigh(Fill(n, len), b) == StackLoad(b, n)
    decreases len
  {
    if len > 0 {
      var f := Fill(n, len);
      if n == len {
        assert f[..len - 1] == Fill(n - 1, len - 1);
        WeighFill(n - 1, len - 1, b);
      } else {
        assert f[..len - 1] == Fill(n, len - 1);
        WeighFill(n, len - 1, b);
      }
    }
  }

  /** What a closed segment adds to a column's load: the load of its round rocks stacked
      at the segment start. */
  lemma SegmentLoad(c: seq<Rock>, seg: nat, i: nat, top: int)
    requires seg <= i <= |c| && (seg == 0 || c[seg - 1] == Square) && SquareFree(c[seg..i])
    ensures Weigh(Tilt(c[..i]), top)
      == Weigh(Tilt(c[..seg]), top) + Weigh(Fill(Rounds(c[seg..i]), i - seg), top - seg)
  {
    assert c[..i] == c[..seg] + c[seg..i];
    TiltStep(c[..seg], c[seg..i]);
    WeighConcat(Tilt(c[..seg]), Fill(Rounds(c[seg..i]), i - seg), top);
  }

  /** A square rock adds nothing to the load, and a new, empty segment starts after it. */
  lemma PastSquare(c: seq<Rock>, i: nat, top: int)
    requires i < |c| && c[i] == Square
    ensures Weigh(Tilt(c[..i + 1]), top) == Weigh(Tilt(c[..i]), top)
    ensures SquareFree(c[i + 1..i + 1]) && Rounds(c[i + 1..i + 1]) == 0
  {
    assert c[i + 1..i + 1] == [];
    assert c[..i + 1] == c[..i] + [Square];
    TiltAppendSquare(c[..i]);
    WeighConcat(Tilt(c[..i]), [Square], top);
    assert [Square][..0] == [];
  }

  /** One more cell of an open segment. */
  lemma SegmentGrows(c: seq<Rock>, seg: nat, i: nat)
    requires seg <= i < |c| && SquareFree(c[seg..i]) && c[i] != Square
    ensures SquareFree(c[seg..i + 1])
    ensures Rounds(c[seg..i + 1]) == Rounds(c[seg..i]) + (if c[i] == Round then 1 else 0)
  {
    assert c[seg..i + 1][..i - seg] == c[seg..i];
  }

  /** A square rock at i closes the segment that started at seg: the column's load so far
      grows by the series formula when the segment holds round rocks (b is the weight of
      the segment's first cell, n its number of round rocks). */
  lemma SegmentCloses(c: seq<Rock>, seg: nat, i: nat, top: int, b: int, n: nat)
    requires seg <= i <= |c| && (seg == 0 || c[seg - 1] == Square) && SquareFree(c[seg..i])
    requires n == Rounds(c[seg..i]) && (n > 0 ==> b == top - seg)
    ensures Weigh(Tilt(c[..i]), top) == Weigh(Tilt(c[..seg]), top) + (if n > 0 then StackLoad(b, n) else 0)
  {
    SegmentLoad(c, seg, i, top);
    WeighFill(n, i - seg, top - seg);
  }

  function Column(g: Grid, j: nat): (c: seq<Rock>)
    requires Rectangular(g) && j < |g[0]|
    ensures |c| == |g| && forall i :: 0 <= i < |g| ==> c[i] == g[i][j]
  {
    seq(|g|, i requires 0 <= i < |g| => g[i][j])
  }

  /** The north loads of the first n columns, each tilted on its own. */
  function ColumnsLoad(g: Grid, n: nat): int
    requires Rectangular(g) && n <= |g[0]|
  {
    if n == 0 then 0 else ColumnsLoad(g, n - 1) + Weigh(Tilt(Column(g, n - 1)), |g|)
  }

  /** The block `tilt_north` runs when a segment closes (at a square rock or the south
      edge, i): when the segment holds round rocks, the series formula adds the weights of
      the cells they stack into, `biggest_score` being the weight of its first cell. */
  method AddGroup(ghost c: seq<Rock>, ghost seg: nat, i: nat, h: int, start: nat, count: nat, sum: int)
    returns (total: int)
    requires seg <= i <= |c| && (seg == 0 || c[seg - 1] == Square) && SquareFree(c[seg..i])
    requires count == Rounds(c[seg..i]) && (count > 0 ==> start == seg)
    requires sum == Weigh(Tilt(c[..seg]), h)
    ensures total == Weigh(Tilt(c[..i]), h)
  {
    total := sum;
    SegmentCloses(c, seg, i, h, h - start, count);
    if count > 0 {
      var biggest := h - start;
      StackFormula(biggest, count);
      total := total + (biggest + (biggest - count + 1)) * count / 2;
    }
  }

  /** The inner loop of `tilt_north` for column j: each segment's rocks are counted, and
      when the segment closes the series formula adds the load they would have stacked at
      the segment start. */
  /** The state of the column scan after `i` cells: the open group starts at `seg`, just past a square rock. */
  ghost predicate Counting(c: seq<Rock>, seg: nat, i: nat, start: nat, after: bool, count: nat)
  {
    seg <= i <= |c| && (after ==> seg == i) && (!after ==> seg == start)
    && (seg == 0 || c[seg - 1] == Square)
    && SquareFree(c[seg..i]) && count == Rounds(c[seg..i])
  }

  lemma CountingGrows(c: seq<Rock>, seg: nat, i: nat, start: nat, count: nat)
    requires i < |c| && c[i] != Square && Counting(c, seg, i, start, false, count)
    ensures Counting(c, seg, i + 1, start, false, count + (if c[i] == Round then 1 else 0))
  {
    SegmentGrows(c, seg, i);
  }

  lemma CountingCloses(c: seq<Rock>, i: nat, start: nat)
    requires i < |c| && c[i] == Square
    ensures Counting(c, i + 1, i + 1, start, true, 0)
  {
    PastSquare(c, i, 0);
  }

  method ColumnLoad(g: Grid, j: nat) returns (sum: int)
    requires Rectangular(g) && j < |g[0]|
    ensures sum == Weigh(Tilt(Column(g, j)), |g|)
  {
    var h := |g|;
    ghost var c := Column(g, j);
    sum := 0;
    var start, after, count := 0, true, 0;
    ghost var seg := 0;
    for i := 0 to h
      invariant Counting(c, seg, i, start, after, count)
      invariant sum == Weigh(Tilt(c[..seg]), h)
    {
      if after {
        start := i;
        after := false;
      }
      var rock := g[i][j];
      assert rock == c[i];
      match rock
      case Air =>
        CountingGrows(c, seg, i, start, count);
      case Round =>
        CountingGrows(c, seg, i, start, count);
        count := count + 1;
      case Square =>
        sum := AddGroup(c, seg, i, h, start, count, sum);
        PastSquare(c, i, h);
        CountingCloses(c, i, start);
        after := true;
        count := 0;
        seg := i + 1;
    }
    sum := AddGroup(c, seg, h, h, start, count, sum);
    assert c[..h] == c;
  }

  /** `tilt_north`: the load on the north beams after tilting north, column by column. */
  method TiltNorthLoad(g: Grid) returns (total: int)
    requires Rectangular(g)
    ensures total == ColumnsLoad(g, |g[0]|)
    ensures total == Load(Tilted(g, ToNorth))
  {
    total := 0;
    for j := 0 to |g[0]|
      invariant total == ColumnsLoad(g, j)
    {
      var s := ColumnLoad(g, j);
      total := total + s;
    }
    TiltNorthIsLoad(g);
  }

  /** The four tilts. Lines run along the tilt: columns for north and south, rows for west
      and east; a line is read from the edge the rocks roll toward. */
  datatype Direction = ToNorth | ToWest | ToSouth | ToEast

  function LineCount(h: nat, w: nat, d: Direction): nat
  {
    if d.ToNorth? || d.ToSouth? then w else h
  }

  function LineLength(h: nat, w: nat, d: Direction): nat
  {
    if d.ToNorth? || d.ToSouth? then h else w
  }

  /** The line through cell (i, j). */
  function LineOf(d: Direction, i: nat, j: nat): nat
  {
    if d.ToNorth? || d.ToSouth? then j else i
  }

  /** The place of cell (i, j) on its line, counted from the edge the rocks roll toward. */
  function Place(h: nat, w: nat, d: Direction, i: nat, j: nat): nat
    requires i < h && j < w
  {
    match d
    case ToNorth => i
    case ToSouth => h - 1 - i
    case ToWest => j
    case ToEast => w - 1 - j
  }

  /** Cell t of line k. */
  function At(h: nat, w: nat, d: Direction, k: nat, t: nat): (p: (nat, nat))
    requires k < LineCount(h, w, d) && t < LineLength(h, w, d)
    ensures p.0 < h && p.1 < w
    ensures LineOf(d, p.0, p.1) == k && Place(h, w, d, p.0, p.1) == t
  {
    match d
    case ToNorth => (t, k)
    case ToSouth => (h - 1 - t, k)
    case ToWest => (k, t)
    case ToEast => (k, w - 1 - t)
  }

  /** Line k of the platform, read from the edge the rocks roll toward. */
  function Line(g: Grid, d: Direction, k: nat): (c: seq<Rock>)
    requires Rectangular(g) && k < LineCount(|g|, |g[0]|, d)
    ensures |c| == LineLength(|g|, |g[0]|, d)
    ensures forall t :: 0 <= t < |c| ==>
      var p := At(|g|, |g[0]|, d, k, t); c[t] == g[p.0][p.1]
  {
    seq(LineLength(|g|, |g[0]|, d), t requires 0 <= t < LineLength(|g|, |g[0]|, d) =>
      var p := At(|g|, |g[0]|, d, k, t); g[p.0][p.1])
  }

  /** The platform after tilting it toward d: every line is tilted on its own. */
  function Tilted(g: Grid, d: Direction): (r: Grid)
    requires Rectangular(g)
    ensures Rectangular(r) && |r| == |g| && |r[0]| == |g[0]|
    ensures forall i, j :: 0 <= i < |g| && 0 <= j < |g[0]| ==>
      r[i][j] == Tilt(Line(g, d, LineOf(d, i, j)))[Place(|g|, |g[0]|, d, i, j)]
  {
    var h, w := |g|, |g[0]|;
    seq(h, i requires 0 <= i < h =>
      seq(w, j requires 0 <= j < w => Tilt(Line(g, d, LineOf(d, i, j)))[Place(h, w, d, i, j)]))
  }

  /** Every line of the tilted platform is the tilted line. */
  lemma TiltedLines(g: Grid, d: Direction, k: nat)
    requires Rectangular(g) && k < LineCount(|g|, |g[0]|, d)
    ensures Line(Tilted(g, d), d, k) == Tilt(Line(g, d, k))
  {
    var r := Tilted(g, d);
    var a, b := Line(r, d, k), Tilt(Line(g, d, k));
    forall t | 0 <= t < |a| ensures a[t] == b[t] {
      var p := At(|g|, |g[0]|, d, k, t);
      assert a[t] == r[p.0][p.1];
    }
  }

  /** Tilting twice toward the same edge is tilting once. */
  lemma TiltedIdempotent(g: Grid, d: Direction)
    requires Rectangular(g)
    ensures Tilted(Tilted(g, d), d) == Tilted(g, d)
  {
    var r := Tilted(g, d);
    var rr := Tilted(r, d);
    forall i | 0 <= i < |g| ensures rr[i] == r[i] {
      forall j | 0 <= j < |g[0]| ensures rr[i][j] == r[i][j] {
        var k := LineOf(d, i, j);
        TiltedLines(g, d, k);
        TiltIdempotent(Line(g, d, k));
      }
    }
  }

  /** Tilting moves no square rock. */
  lemma TiltedKeepsSquares(g: Grid, d: Direction)
    requires Rectangular(g)
    ensures forall i, j :: 0 <= i < |g| && 0 <= j < |g[0]| ==>
      (Tilted(g, d)[i][j] == Square <==> g[i][j] == Square)
  {
    forall i, j | 0 <= i < |g| && 0 <= j < |g[0]|
      ensures Tilted(g, d)[i][j] == Square <==> g[i][j] == Square
    {
      KeepsSquare(g, d, i, j);
    }
  }

  lemma KeepsSquare(g: Grid, d: Direction, i: nat, j: nat)
    requires Rectangular(g) && i < |g| && j < |g[0]|
    ensures Tilted(g, d)[i][j] == Square <==> g[i][j] == Square
  {
    var k, t := LineOf(d, i, j), Place(|g|, |g[0]|, d, i, j);
    var c := Line(g, d, k);
    assert At(|g|, |g[0]|, d, k, t) == (i, j);
    assert c[t] == g[i][j];
    assert Tilted(g, d)[i][j] == Tilt(c)[t];
    TiltKeepsRocks(c);
  }

  /** Tilting keeps the number of round rocks on every line. */
  lemma TiltedKeepsRounds(g: Grid, d: Direction, k: nat)
    requires Rectangular(g) && k < LineCount(|g|, |g[0]|, d)
    ensures Rounds(Line(Tilted(g, d), d, k)) == Rounds(Line(g, d, k))
  {
    TiltedLines(g, d, k);
    TiltKeepsRocks(Line(g, d, k));
  }

  /** The edge tilt number t of the spin cycles rolls toward: north, west, south, east,
      then north again. */
  function Toward(t: nat): Direction
  {
    match t % 4
    case 0 => ToNorth
    case 1 => ToWest
    case 2 => ToSouth
    case _ => ToEast
  }

  /** The platform after t single tilts of the spin cycles. */
  function Tilts(g: Grid, t: nat): (r: Grid)
    requires Rectangular(g)
    ensures Rectangular(r) && |r| == |g| && |r[0]| == |g[0]|
  {
    if t == 0 then g else Tilted(Tilts(g, t - 1), Toward(t - 1))
  }

  /** One spin cycle: north, then west, then south, then east. */
  function Cycle(g: Grid): (r: Grid)
    requires Rectangular(g)
    ensures Rectangular(r) && |r| == |g| && |r[0]| == |g[0]|
  {
    Tilts(g, 4)
  }

  /** What `get_score` adds for one row: `weight` per round rock. */
  function RowLoad(row: seq<Rock>, weight: int): int
  {
    if row == [] then 0
    else RowLoad(row[..|row| - 1], weight) + (if row[|row| - 1] == Round then weight else 0)
  }

  function LoadRows(g: Grid, m: nat): int
    requires m <= |g|
  {
    if m == 0 then 0 else LoadRows(g, m - 1) + RowLoad(g[m - 1], |g| - (m - 1))
  }

  /** `get_score`: a round rock in row i weighs |g| - i. */
  function Load(g: Grid): int
  {
    LoadRows(g, |g|)
  }

  /** The loads of the first m cells of the first n columns. */
  function ColumnPrefixes(g: Grid, n: nat, m: nat): int
    requires Rectangular(g) && n <= |g[0]| && m <= |g|
  {
    if n == 0 then 0 else ColumnPrefixes(g, n - 1, m) + Weigh(Column(g, n - 1)[..m], |g|)
  }

  lemma {:induction false} RowOfColumns(g: Grid, n: nat, m: nat)
    requires Rectangular(g) && n <= |g[0]| && m < |g|
    ensures ColumnPrefixes(g, n, m + 1) == ColumnPrefixes(g, n, m) + RowLoad(g[m][..n], |g| - m)
    decreases n
  {
    if n > 0 {
      RowOfColumns(g, n - 1, m);
      var c := Column(g, n - 1);
      assert c[..m + 1][..m] == c[..m];
      assert g[m][..n][..n - 1] == g[m][..n - 1];
    }
  }

  /** Summing the load row by row, as `get_score` does, or column by column. */
  lemma {:induction false} LoadByColumns(g: Grid, m: nat)
    requires Rectangular(g) && m <= |g|
    ensures LoadRows(g, m) == ColumnPrefixes(g, |g[0]|, m)
    decreases m
  {
    if m == 0 {
      ZeroRows(g, |g[0]|);
    } else {
      LoadByColumns(g, m - 1);
      RowOfColumns(g, |g[0]|, m - 1);
      assert g[m - 1][..|g[0]|] == g[m - 1];
    }
  }

  lemma {:induction false} ZeroRows(g: Grid, n: nat)
    requires Rectangular(g) && n <= |g[0]|
    ensures ColumnPrefixes(g, n, 0) == 0
    decreases n
  {
    if n > 0 {
      ZeroRows(g, n - 1);
    }
  }

  /** The north-tilted platform's columns are the tilted columns. */
  lemma NorthColumns(g: Grid, j: nat)
    requires Rectangular(g) && j < |g[0]|
    ensures Column(Tilted(g, ToNorth), j) == Tilt(Column(g, j))
  {
    assert Line(g, ToNorth, j) == Column(g, j);
    TiltedLines(g, ToNorth, j);
    assert Line(Tilted(g, ToNorth), ToNorth, j) == Column(Tilted(g, ToNorth), j);
  }

  lemma NorthWeighs(g: Grid, j: nat)
    requires Rectangular(g) && j < |g[0]|
    ensures Weigh(Tilt(Column(g, j)), |g|) == Weigh(Column(Tilted(g, ToNorth), j)[..|g|], |g|)
  {
    var c := Column(Tilted(g, ToNorth), j);
    NorthColumns(g, j);
    assert c[..|g|] == c;
  }

  lemma {:induction false} PrefixesOfTilted(g: Grid, t: Grid, n: nat)
    requires Rectangular(g) && Rectangular(t) && |t| == |g| && |t[0]| == |g[0]| && n <= |g[0]|
    requires forall j :: 0 <= j < n ==> Weigh(Tilt(Column(g, j)), |g|) == Weigh(Column(t, j)[..|g|], |g|)
    ensures ColumnsLoad(g, n) == ColumnPrefixes(t, n, |g|)
    decreases n
  {
    if n > 0 {
      PrefixesOfTilted(g, t, n - 1);
      var w := Weigh(Tilt(Column(g, n - 1)), |g|);
      assert w == Weigh(Column(t, n - 1)[..|g|], |g|);
      assert ColumnsLoad(g, n) == ColumnsLoad(g, n - 1) + w;
    }
  }

  /** What `tilt_north` adds up column by column is the load `get_score` gives the
      platform after tilting it north. */
  lemma TiltNorthIsLoad(g: Grid)
    requires Rectangular(g)
    ensures ColumnsLoad(g, |g[0]|) == Load(Tilted(g, ToNorth))
  {
    var t := Tilted(g, ToNorth);
    forall j | 0 <= j < |g[0]|
      ensures Weigh(Tilt(Column(g, j)), |g|) == Weigh(Column(t, j)[..|g|], |g|)
    {
      NorthWeighs(g, j);
    }
    PrefixesOfTilted(g, t, |g[0]|);
    LoadByColumns(t, |g|);
  }
}
