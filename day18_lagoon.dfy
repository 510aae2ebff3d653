/** Day 18: a dig plan moves a digger along axis-parallel trenches from (0, 0). The lagoon is
    the trench loop and everything inside it; the source counts its cubic metres without a
    flood fill: the shoelace formula gives the loop's area, the sum of the move lengths gives
    its boundary points, and Pick's theorem (area = interior + boundary / 2 - 1) gives the
    interior points. Part 1 reads each move as "L 6"; part 2 hides the move in the colour
    code "#70c710": five hex digits of length and a last digit 0..3 for R, D, L, U. */
module Day18Lagoon {
  import opened Wrappers
  import opened Text

  datatype Dir = Left | Right | Up | Down

  /** `dydx`: the (row, column) offset of one metre dug. */
  function Step(d: Dir): (r: (int, int))
    ensures (r.0 == 0) != (r.1 == 0)
    ensures -1 <= r.0 <= 1 && -1 <= r.1 <= 1
    ensures r.0 == 0 <==> d == Left || d == Right
  {
    match d
    case Left => (0, -1)
    case Right => (0, 1)
    case Up => (-1, 0)
    case Down => (1, 0)
  }

  datatype Command = Command(dir: Dir, length: int)

  datatype Point = Point(y: int, x: int)

  function Abs(n: int): (r: nat)
    ensures r == n || r == -n
  {
    if n < 0 then -n else n
  }

  /** Rust's `/ 2` on a signed integer: the quotient rounded toward zero. */
  function Half(n: int): (r: int)
    ensures n >= 0 ==> 2 * r <= n < 2 * r + 2
    ensures n < 0 ==> 2 * r - 2 < n <= 2 * r
  {
    if n >= 0 then n / 2 else -((-n) / 2)
  }

  // ---------------------------------------------------------------- the trench loop

  /** Where one command takes the digger from p. */
  function Move(p: Point, c: Command): Point
  {
    Point(p.y + Step(c.dir).0 * c.length, p.x + Step(c.dir).1 * c.length)
  }

  /** Where the digger stands after all the commands, starting from (0, 0). */
  function End(cmds: seq<Command>): Point
  {
    if cmds == [] then Point(0, 0) else Move(End(cmds[..|cmds| - 1]), cmds[|cmds| - 1])
  }

  /** The plan digs a loop: it ends where it started. */
  predicate Closed(cmds: seq<Command>)
  {
    End(cmds) == Point(0, 0)
  }

  /** The shoelace term of one edge from p to q. */
  function Cross(p: Point, q: Point): int
  {
    p.y * q.x - p.x * q.y
  }

  /** Twice the signed area swept by the commands: the sum of the shoelace terms of their
      edges. */
  function Shoelace(cmds: seq<Command>): int
  {
    if cmds == [] then 0
    else
      var p := cmds[..|cmds| - 1];
      Shoelace(p) + Cross(End(p), End(cmds))
  }

  /** The column times the signed rise of each vertical command, summed. */
  function Rise(cmds: seq<Command>): int
  {
    if cmds == [] then 0
    else
      var p := cmds[..|cmds| - 1];
      var c := cmds[|cmds| - 1];
      Rise(p) + End(p).x * Step(c.dir).0 * c.length
  }

  /** One edge's shoelace term is the growth of y * x along it, less twice its rise. */
  lemma CrossStep(p: Point, c: Command)
    ensures Cross(p, Move(p, c)) + 2 * (p.x * Step(c.dir).0 * c.length) ==
            Move(p, c).y * Move(p, c).x - p.y * p.x
  {
    var l := c.length;
    match c.dir
    case Left =>
      assert p.y * (p.x - l) == p.y * p.x - p.y * l;
    case Right =>
      assert p.y * (p.x + l) == p.y * p.x + p.y * l;
    case Up =>
      assert p.x * (p.y - l) == p.x * p.y - p.x * l;
      assert (p.y - l) * p.x == p.y * p.x - l * p.x;
    case Down =>
      assert p.x * (p.y + l) == p.x * p.y + p.x * l;
      assert (p.y + l) * p.x == p.y * p.x + l * p.x;
  }

  /** Along an axis-parallel path from (0, 0), the shoelace sum is y * x at the end less
      twice the rise. */
  lemma {:induction false} ShoelaceRise(cmds: seq<Command>)
    ensures Shoelace(cmds) + 2 * Rise(cmds) == End(cmds).y * End(cmds).x
  {
    if cmds != [] {
      var p := cmds[..|cmds| - 1];
      var c := cmds[|cmds| - 1];
      var e := End(p);
      var m := Move(e, c);
      var k := e.x * Step(c.dir).0 * c.length;
      assert End(cmds) == m;
      assert Shoelace(cmds) == Shoelace(p) + Cross(e, m);
      assert Rise(cmds) == Rise(p) + k;
      ShoelaceRise(p);
      CrossStep(e, c);
    }
  }

  /** On a closed plan the shoelace sum is even, so halving it loses nothing: the area is a
      whole number of square metres. */
  lemma ShoelaceEven(cmds: seq<Command>)
    requires Closed(cmds)
    ensures Shoelace(cmds) % 2 == 0
    ensures 2 * (Abs(Shoelace(cmds)) / 2) == Abs(Shoelace(cmds))
  {
    ShoelaceRise(cmds);
    assert Shoelace(cmds) == -2 * Rise(cmds);
  }

  /** `polygon_area_shoelace`: the shoelace sum walked command by command, its absolute
      value halved. */
  method PolygonArea(cmds: seq<Command>) returns (result: int)
    ensures result == Abs(Shoelace(cmds)) / 2
    ensures Closed(cmds) ==> 2 * result == Abs(Shoelace(cmds))
  {
    var area := 0;
    var y, x := 0, 0;
    for i := 0 to |cmds|
      invariant area == Shoelace(cmds[..i]) && Point(y, x) == End(cmds[..i])
    {
      var (dy, dx) := Step(cmds[i].dir);
      var newY := y + dy * cmds[i].length;
      var newX := x + dx * cmds[i].length;
      area := area + (y * newX - x * newY);
      assert cmds[..i + 1][..i] == cmds[..i];
      y, x := newY, newX;
    }
    assert cmds[..|cmds|] == cmds;
    if Closed(cmds) {
      ShoelaceEven(cmds);
    }
    return Abs(area) / 2;
  }

  // ---------------------------------------------------------------- boundary and Pick

  /** `count_boundary`: the sum of the move lengths. */
  function Boundary(cmds: seq<Command>): int
  {
    if cmds == [] then 0 else Boundary(cmds[..|cmds| - 1]) + cmds[|cmds| - 1].length
  }

  predicate Forward(cmds: seq<Command>)
  {
    forall i :: 0 <= i < |cmds| ==> cmds[i].length >= 0
  }

  lemma {:induction false} BoundaryBound(cmds: seq<Command>)
    requires Forward(cmds)
    ensures Boundary(cmds) >= 0
    ensures forall i :: 0 <= i < |cmds| ==> cmds[i].length <= Boundary(cmds)
  {
    if cmds != [] {
      var p := cmds[..|cmds| - 1];
      assert forall i :: 0 <= i < |p| ==> p[i] == cmds[i];
      BoundaryBound(p);
    }
  }

  /** Each metre dug changes y + x by one, so the boundary and y + x at the end have the same
      parity. */
  lemma {:induction false} BoundaryParity(cmds: seq<Command>)
    ensures (Boundary(cmds) - End(cmds).y - End(cmds).x) % 2 == 0
  {
    if cmds != [] {
      var p := cmds[..|cmds| - 1];
      BoundaryParity(p);
      var c := cmds[|cmds| - 1];
      var k := Boundary(p) - End(p).y - End(p).x;
      assert Boundary(cmds) - End(cmds).y - End(cmds).x ==
             k + c.length - Step(c.dir).0 * c.length - Step(c.dir).1 * c.length;
      match c.dir
      case Left =>
        assert Boundary(cmds) - End(cmds).y - End(cmds).x == k + 2 * c.length;
      case Right =>
      case Up =>
        assert Boundary(cmds) - End(cmds).y - End(cmds).x == k + 2 * c.length;
      case Down =>
    }
  }

  /** The number of cubic metres the source reports: boundary plus interior, the interior
      taken from Pick's theorem as area - boundary / 2 + 1. */
  function Enclosed(cmds: seq<Command>): int
  {
    Boundary(cmds) + (Abs(Shoelace(cmds)) / 2 - Half(Boundary(cmds)) + 1)
  }

  /** On a closed plan both halvings are exact, so the count is area + boundary / 2 + 1,
      which is Pick's count of the lattice points inside or on the loop; with lengths that
      are never negative it is at least 1. */
  lemma PickCount(cmds: seq<Command>)
    requires Closed(cmds)
    ensures 2 * Enclosed(cmds) == Abs(Shoelace(cmds)) + Boundary(cmds) + 2
    ensures Forward(cmds) ==> Enclosed(cmds) >= 1
  {
    ShoelaceEven(cmds);
    BoundaryParity(cmds);
    if Forward(cmds) {
      BoundaryBound(cmds);
    }
  }

  /** A rectangle dug right a, down b, left a, up b holds (a + 1) * (b + 1) cubic metres. */
  lemma Rectangle(a: nat, b: nat)
    ensures Enclosed([Command(Right, a), Command(Down, b), Command(Left, a), Command(Up, b)]) ==
            (a + 1) * (b + 1)
  {
    var plan := [Command(Right, a), Command(Down, b), Command(Left, a), Command(Up, b)];
    var ab: int := a * b;
    RectangleDug(a, b);
    assert ab >= 0;
    assert Abs(Shoelace(plan)) / 2 == ab;
    assert Half(Boundary(plan)) == a + b;
    assert (a + 1) * (b + 1) == ab + a + b + 1;
  }

  /** The rectangle's loop closes, sweeps twice its area clockwise and has 2a + 2b boundary
      points. */
  lemma RectangleDug(a: nat, b: nat)
    ensures var plan := [Command(Right, a), Command(Down, b), Command(Left, a), Command(Up, b)];
            Closed(plan) && Shoelace(plan) == -2 * (a * b) && Boundary(plan) == 2 * a + 2 * b
  {
    var p0: seq<Command> := [];
    var p1 := p0 + [Command(Right, a)];
    var p2 := p1 + [Command(Down, b)];
    var p3 := p2 + [Command(Left, a)];
    var plan := p3 + [Command(Up, b)];
    var ab: int := a * b;
    Dig(p0, Command(Right, a));
    assert End(p1) == Point(0, a) && Shoelace(p1) == 0 && Boundary(p1) == a;
    Dig(p1, Command(Down, b));
    assert Cross(Point(0, a), Point(b, a)) == -ab;
    assert End(p2) == Point(b, a) && Shoelace(p2) == -ab && Boundary(p2) == a + b;
    Dig(p2, Command(Left, a));
    assert Cross(Point(b, a), Point(b, 0)) == -ab;
    assert End(p3) == Point(b, 0) && Shoelace(p3) == -2 * ab && Boundary(p3) == 2 * a + b;
    Dig(p3, Command(Up, b));
    assert End(plan) == Point(0, 0) && Shoelace(plan) == -2 * ab && Boundary(plan) == 2 * a + 2 * b;
    assert plan == [Command(Right, a), Command(Down, b), Command(Left, a), Command(Up, b)];
  }

  /** One more command: where it ends, the shoelace term it adds and its length. */
  lemma Dig(p: seq<Command>, c: Command)
    ensures End(p + [c]) == Move(End(p), c)
    ensures Shoelace(p + [c]) == Shoelace(p) + Cross(End(p), Move(End(p), c))
    ensures Boundary(p + [c]) == Boundary(p) + c.length
  {
    assert (p + [c])[..|p|] == p;
  }

  /** `solve` after `parse`: the shoelace area, the boundary and Pick's interior, added up
      as the source does. */
  method Solve(cmds: seq<Command>) returns (points: int)
    ensures points == Enclosed(cmds)
    ensures Closed(cmds) ==> 2 * points == Abs(Shoelace(cmds)) + Boundary(cmds) + 2
  {
    var polygonArea := PolygonArea(cmds);
    var boundary := Boundary(cmds);
    var interior := polygonArea - Half(boundary) + 1;
    points := boundary + interior;
    if Closed(cmds) {
      PickCount(cmds);
    }
  }

  // ---------------------------------------------------------------- part 1 parsing

  /** The direction letter of part 1. */
  function LetterDir(s: string): (r: Option<Dir>)
    ensures r.Some? ==> DirLetter(r.value) == s
  {
    if s == "L" then Some(Left)
    else if s == "R" then Some(Right)
    else if s == "U" then Some(Up)
    else if s == "D" then Some(Down)
    else None
  }

  function DirLetter(d: Dir): string
  {
    match d
    case Left => "L"
    case Right => "R"
    case Up => "U"
    case Down => "D"
  }

  lemma LetterReads(d: Dir)
    ensures LetterDir(DirLetter(d)) == Some(d)
  {
  }

  /** One line of part 1, given as its whitespace-separated words: a direction letter and a
      decimal length; None where the source panics (fewer than two words, another letter, a
      length that is not a number). The colour word is ignored. */
  function ParseWords(words: seq<string>): (r: Option<Command>)
    ensures r.Some? <==> |words| >= 2 && LetterDir(words[0]).Some? && ParseRadix(words[1], 10).Some?
    ensures r.Some? ==> DirLetter(r.value.dir) == words[0] && ParseRadix(words[1], 10) == Some(r.value.length)
  {
    if |words| < 2 then None
    else
      match (LetterDir(words[0]), ParseRadix(words[1], 10))
      case (Some(d), Some(l)) => Some(Command(d, l))
      case (None, _) => None
      case (_, None) => None
  }

  /** Part 1's words written for a command parse back to it. */
  lemma WordsRead(c: Command, colour: string)
    ensures ParseWords([DirLetter(c.dir), Signed(c.length, 10), colour]) == Some(c)
  {
    LetterReads(c.dir);
    SignedReads(c.length, 10);
  }

  // ---------------------------------------------------------------- part 2 parsing

  /** The direction code of part 2: 0, 1, 2, 3 for R, D, L, U. */
  function CodeDir(c: char): (r: Option<Dir>)
    ensures r.Some? ==> DirCode(r.value) == c
  {
    match c
    case '0' => Some(Right)
    case '1' => Some(Down)
    case '2' => Some(Left)
    case '3' => Some(Up)
    case _ => None
  }

  function DirCode(d: Dir): char
  {
    match d
    case Right => '0'
    case Down => '1'
    case Left => '2'
    case Up => '3'
  }

  /** One line of part 2: after the first '#', all but the last two characters are the hex
      length and the second-to-last is the direction code; the last (the closing bracket) is
      ignored. None where the source panics: no '#', fewer than two characters after it, a
      bad code or a bad hex length. */
  function ParseColour(line: string): (r: Option<Command>)
    ensures r.Some? <==> SplitOnce(line, '#').Some? && |SplitOnce(line, '#').value.1| >= 2 &&
                         var s := SplitOnce(line, '#').value.1;
                         CodeDir(s[|s| - 2]).Some? && ParseRadix(s[..|s| - 2], 16).Some?
    ensures r.Some? ==> var s := SplitOnce(line, '#').value.1;
                        DirCode(r.value.dir) == s[|s| - 2] && ParseRadix(s[..|s| - 2], 16) == Some(r.value.length)
  {
    match SplitOnce(line, '#')
    case None => None
    case Some((_, s)) =>
      if |s| < 2 then None
      else
        match (CodeDir(s[|s| - 2]), ParseRadix(s[..|s| - 2], 16))
        case (Some(d), Some(l)) => Some(Command(d, l))
        case (None, _) => None
        case (_, None) => None
  }

  /** A line written as the puzzle writes it, with any text before the '#', the length in
      hex, the direction code and a closing bracket, parses back to its command. */
  lemma ColourReads(prefix: string, c: Command)
    requires '#' !in prefix && c.length >= 0
    ensures ParseColour(prefix + "#" + Numeral(c.length, 16) + [DirCode(c.dir), ')']) == Some(c)
  {
    var hex := Numeral(c.length, 16);
    var tail := hex + [DirCode(c.dir), ')'];
    assert prefix + "#" + hex + [DirCode(c.dir), ')'] == prefix + ['#'] + tail;
    SplitOnceAt(prefix, '#', tail);
    TailReads(hex, c);
  }

  lemma TailReads(hex: string, c: Command)
    requires c.length >= 0 && hex == Numeral(c.length, 16)
    ensures var tail := hex + [DirCode(c.dir), ')'];
            |tail| >= 2 && CodeDir(tail[|tail| - 2]) == Some(c.dir) &&
            ParseRadix(tail[..|tail| - 2], 16) == Some(c.length)
  {
    var tail := hex + [DirCode(c.dir), ')'];
    assert tail[..|tail| - 2] == hex;
    CodeReads(c.dir);
    NumeralReads(c.length, 16);
    assert hex[0] != '+' && hex[0] != '-';
  }

  lemma CodeReads(d: Dir)
    ensures CodeDir(DirCode(d)) == Some(d)
  {
  }

  // ---------------------------------------------------------------- whole plans

  /** Part 1's `parse`: one command per line of words, or None when some line fails. */
  function ParseWordPlan(lines: seq<seq<string>>): (r: Option<seq<Command>>)
    ensures r.Some? ==> |r.value| == |lines| &&
                        forall i :: 0 <= i < |lines| ==> ParseWords(lines[i]) == Some(r.value[i])
    ensures r.None? ==> exists i :: 0 <= i < |lines| && ParseWords(lines[i]).None?
  {
    if lines == [] then Some([])
    else
      match (ParseWordPlan(lines[..|lines| - 1]), ParseWords(lines[|lines| - 1]))
      case (Some(cmds), Some(c)) => Some(cmds + [c])
      case (None, _) => None
      case (_, None) => None
  }

  /** Part 2's `parse`: one command per line, or None when some line fails. */
  function ParseColourPlan(lines: seq<string>): (r: Option<seq<Command>>)
    ensures r.Some? ==> |r.value| == |lines| &&
                        forall i :: 0 <= i < |lines| ==> ParseColour(lines[i]) == Some(r.value[i])
    ensures r.None? ==> exists i :: 0 <= i < |lines| && ParseColour(lines[i]).None?
  {
    if lines == [] then Some([])
    else
      match (ParseColourPlan(lines[..|lines| - 1]), ParseColour(lines[|lines| - 1]))
      case (Some(cmds), Some(c)) => Some(cmds + [c])
      case (None, _) => None
      case (_, None) => None
  }

  /** Part 1: None where parsing panics, otherwise the source's count. */
  method Run1(lines: seq<seq<string>>) returns (r: Option<int>)
    ensures r.None? <==> ParseWordPlan(lines).None?
    ensures r.Some? ==> r.value == Enclosed(ParseWordPlan(lines).value)
  {
    var parsed := ParseWordPlan(lines);
    if parsed.None? {
      return None;
    }
    var points := Solve(parsed.value);
    return Some(points);
  }

  /** Part 2: None where parsing panics, otherwise the source's count. */
  method Run2(lines: seq<string>) returns (r: Option<int>)
    ensures r.None? <==> ParseColourPlan(lines).None?
    ensures r.Some? ==> r.value == Enclosed(ParseColourPlan(lines).value)
  {
    var parsed := ParseColourPlan(lines);
    if parsed.None? {
      return None;
    }
    var points := Solve(parsed.value);
    return Some(points);
  }
}
