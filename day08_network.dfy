/** Day 8: walking a network of nodes. Each node names a left and a right successor; the
    instruction line (a sequence of 'L' and 'R') is followed cyclically. Part 1 counts the
    steps from "AAA" to "ZZZ"; part 2 counts, for every node whose name ends in 'A', the
    steps to the first node whose name ends in 'Z', and combines the counts with a least
    common multiple. The source's loops are unbounded: here a walk gets a step budget
    (`fuel`) and reports `OutOfFuel` when the budget runs out. A missing node or an
    instruction other than 'L'/'R' is a panic in the source and `Stuck` here. */
module Day08Network {
  import opened Wrappers

  /** Node name -> (left successor, right successor). */
  type Network = map<string, (string, string)>

  // ---------------------------------------------------------------- parsing

  /** One node line "AAA = (BBB, CCC)" read by fixed columns [0..3], [7..10] and [12..15];
      a shorter line makes the slicing panic. */
  function ParseNode(line: string): (r: Option<(string, (string, string))>)
    ensures r.Some? <==> |line| >= 15
    ensures r.Some? ==> |r.value.0| == 3 && |r.value.1.0| == 3 && |r.value.1.1| == 3
    ensures r.Some? ==> line == r.value.0 + line[3..7] + r.value.1.0 + line[10..12] + r.value.1.1 + line[15..]
  {
    if |line| < 15 then None
    else Some((line[0..3], (line[7..10], line[12..15])))
  }

  /** Collecting the node lines into a map: a later line for the same name replaces an
      earlier one. */
  function ParseNetwork(lines: seq<string>): (r: Option<Network>)
    ensures r.Some? <==> forall i :: 0 <= i < |lines| ==> |lines[i]| >= 15
    ensures r.Some? ==> forall i :: 0 <= i < |lines| ==> lines[i][0..3] in r.value
    ensures r.Some? ==> forall name :: name in r.value ==> exists i :: 0 <= i < |lines| && lines[i][0..3] == name
  {
    if lines == [] then Some(map[])
    else
      var last := lines[|lines| - 1];
      match (ParseNetwork(lines[..|lines| - 1]), ParseNode(last))
      case (Some(net), Some(node)) =>
        assert forall i :: 0 <= i < |lines| - 1 ==> lines[..|lines| - 1][i] == lines[i];
        Some(net[node.0 := node.1])
      case _ => None
  }

  // ---------------------------------------------------------------- the walk

  /** The end test: part 1 stops at "ZZZ", part 2 at any name ending in 'Z'. */
  predicate Done(node: string, part2: bool)
  {
    if part2 then |node| > 0 && node[|node| - 1] == 'Z' else node == "ZZZ"
  }

  /** One move; an unknown node or an instruction other than 'L'/'R' panics. */
  function Move(net: Network, node: string, step: char): (r: Option<string>)
    ensures r.Some? <==> node in net && (step == 'L' || step == 'R')
    ensures r.Some? && step == 'L' ==> r.value == net[node].0
    ensures r.Some? && step == 'R' ==> r.value == net[node].1
  {
    if node !in net then None
    else if step == 'L' then Some(net[node].0)
    else if step == 'R' then Some(net[node].1)
    else None
  }

  /** Where the walk is after `n` moves, instructions taken cyclically (`None` once a move
      has panicked). */
  function Position(net: Network, steps: seq<char>, start: string, n: nat): Option<string>
    requires steps != []
  {
    if n == 0 then Some(start)
    else
      match Position(net, steps, start, n - 1)
      case None => None
      case Some(node) => Move(net, node, steps[(n - 1) % |steps|])
  }

  /** `n` is the number of moves to the first node passing the end test. */
  predicate Arrives(net: Network, steps: seq<char>, start: string, part2: bool, n: nat)
    requires steps != []
  {
    && Position(net, steps, start, n).Some?
    && Done(Position(net, steps, start, n).value, part2)
    && NotYet(net, steps, start, part2, n)
  }

  /** Every position before move `n` exists and fails the end test. */
  predicate NotYet(net: Network, steps: seq<char>, start: string, part2: bool, n: nat)
    requires steps != []
  {
    forall k :: 0 <= k < n ==>
      Position(net, steps, start, k).Some? && !Done(Position(net, steps, start, k).value, part2)
  }

  datatype Outcome = Arrived(count: nat) | Stuck | OutOfFuel

  /** The loop of `solve` (part 1) and `simulate_walk` (part 2) from position `counter`. */
  function WalkFrom(net: Network, steps: seq<char>, curr: string, counter: nat, part2: bool, fuel: nat): Outcome
    requires steps != []
    decreases fuel - counter
  {
    if Done(curr, part2) then Arrived(counter)
    else if counter >= fuel then OutOfFuel
    else
      match Move(net, curr, steps[counter % |steps|])
      case None => Stuck
      case Some(next) => WalkFrom(net, steps, next, counter + 1, part2, fuel)
  }

  /** The whole walk; an empty instruction line cycles through nothing, so the loop body never
      runs and the count is 0. */
  function Walk(net: Network, steps: seq<char>, start: string, part2: bool, fuel: nat): Outcome
  {
    if steps == [] then Arrived(0) else WalkFrom(net, steps, start, 0, part2, fuel)
  }

  /** The loop itself, with its variables `curr` and `counter`. */
  method SimulateWalk(net: Network, steps: seq<char>, start: string, part2: bool, fuel: nat) returns (r: Outcome)
    ensures r == Walk(net, steps, start, part2, fuel)
  {
    if steps == [] {
      return Arrived(0);
    }
    var curr := start;
    var counter := 0;
    while !Done(curr, part2)
      invariant counter <= fuel || Done(curr, part2)
      invariant WalkFrom(net, steps, curr, counter, part2, fuel) == WalkFrom(net, steps, start, 0, part2, fuel)
      decreases fuel - counter
    {
      if counter >= fuel {
        return OutOfFuel;
      }
      var next := Move(net, curr, steps[counter % |steps|]);
      if next.None? {
        return Stuck;
      }
      curr := next.value;
      counter := counter + 1;
    }
    return Arrived(counter);
  }

  lemma {:induction false} WalkFromMeaning(net: Network, steps: seq<char>, start: string, curr: string, counter: nat, part2: bool, fuel: nat)
    requires steps != []
    requires Position(net, steps, start, counter) == Some(curr)
    requires NotYet(net, steps, start, part2, counter) && counter <= fuel
    ensures WalkFrom(net, steps, curr, counter, part2, fuel).Arrived? ==>
      Arrives(net, steps, start, part2, WalkFrom(net, steps, curr, counter, part2, fuel).count)
    ensures WalkFrom(net, steps, curr, counter, part2, fuel).Stuck? ==>
      forall n :: !Arrives(net, steps, start, part2, n)
    ensures WalkFrom(net, steps, curr, counter, part2, fuel).OutOfFuel? ==>
      NotYet(net, steps, start, part2, fuel + 1)
    decreases fuel - counter
  {
    if Done(curr, part2) {
    } else if counter >= fuel {
      assert NotYet(net, steps, start, part2, fuel + 1) by {
        forall k | 0 <= k < fuel + 1
          ensures Position(net, steps, start, k).Some? && !Done(Position(net, steps, start, k).value, part2)
        {
          if k == fuel {
          }
        }
      }
    } else {
      match Move(net, curr, steps[counter % |steps|])
      case None =>
        forall n: nat ensures !Arrives(net, steps, start, part2, n) {
          if Arrives(net, steps, start, part2, n) {
            if n <= counter {
            } else {
              NoneStays(net, steps, start, counter + 1, n);
            }
          }
        }
      case Some(next) =>
        assert NotYet(net, steps, start, part2, counter + 1) by {
          forall k | 0 <= k < counter + 1
            ensures Position(net, steps, start, k).Some? && !Done(Position(net, steps, start, k).value, part2)
          {
            if k == counter {
            }
          }
        }
        WalkFromMeaning(net, steps, start, next, counter + 1, part2, fuel);
    }
  }

  /** Once a move has panicked, the walk never resumes. */
  lemma {:induction false} NoneStays(net: Network, steps: seq<char>, start: string, m: nat, n: nat)
    requires steps != [] && m <= n && Position(net, steps, start, m).None?
    ensures Position(net, steps, start, n).None?
    decreases n - m
  {
    if m < n {
      NoneStays(net, steps, start, m, n - 1);
    }
  }

  /** What a walk's outcome means: `Arrived(n)` is the first arrival, `Stuck` means no
      arrival ever, `OutOfFuel` means none within the budget; and an arrival within the
      budget is always found. */
  lemma WalkMeaning(net: Network, steps: seq<char>, start: string, part2: bool, fuel: nat)
    requires steps != []
    ensures Walk(net, steps, start, part2, fuel).Arrived? ==>
      Arrives(net, steps, start, part2, Walk(net, steps, start, part2, fuel).count)
    ensures Walk(net, steps, start, part2, fuel).Stuck? ==> forall n :: !Arrives(net, steps, start, part2, n)
    ensures Walk(net, steps, start, part2, fuel).OutOfFuel? ==> NotYet(net, steps, start, part2, fuel + 1)
  {
    WalkFromMeaning(net, steps, start, start, 0, part2, fuel);
  }

  /** The first arrival is unique, so `Arrived(n)` is the source's count whatever the budget. */
  lemma ArrivalUnique(net: Network, steps: seq<char>, start: string, part2: bool, n: nat, m: nat)
    requires steps != []
    requires Arrives(net, steps, start, part2, n) && Arrives(net, steps, start, part2, m)
    ensures n == m
  {
  }

  /** A walk that arrives within the budget is reported as arriving. */
  lemma WalkComplete(net: Network, steps: seq<char>, start: string, part2: bool, fuel: nat, n: nat)
    requires steps != [] && n <= fuel && Arrives(net, steps, start, part2, n)
    ensures Walk(net, steps, start, part2, fuel) == Arrived(n)
  {
    WalkMeaning(net, steps, start, part2, fuel);
    match Walk(net, steps, start, part2, fuel)
    case Arrived(m) => ArrivalUnique(net, steps, start, part2, n, m);
    case Stuck =>
    case OutOfFuel =>
  }

  /** Part 1's answer. */
  function Solve1(net: Network, steps: seq<char>, fuel: nat): Outcome
  {
    Walk(net, steps, "AAA", false, fuel)
  }

  // ---------------------------------------------------------------- gcd and lcm on i64

  function Abs(x: int): nat { if x < 0 then -x else x }

  /** Rust's `%`: the remainder takes the sign of the dividend. */
  function Rem(a: int, b: int): (r: int)
    requires b != 0
    ensures Abs(r) < Abs(b)
    ensures a >= 0 && b > 0 ==> r == a % b
  {
    if a >= 0 then a % Abs(b) else -((-a) % Abs(b))
  }

  /** Rust's `/`: the quotient is truncated toward zero. */
  function Quot(a: int, b: int): int
    requires b != 0
  {
    if a >= 0 then (if b > 0 then a / b else -(a / -b))
    else (if b > 0 then -((-a) / b) else (-a) / (-b))
  }

  /** Euclid's algorithm as `gcd` runs it. */
  function GcdOf(a: int, b: int): int
    decreases Abs(b)
  {
    if b == 0 then a else GcdOf(b, Rem(a, b))
  }

  /** `gcd`: the loop reassigning `(a, b)` to `(b, a % b)`. */
  method Gcd(a: int, b: int) returns (g: int)
    ensures g == GcdOf(a, b)
  {
    var x, y := a, b;
    while y != 0
      invariant GcdOf(x, y) == GcdOf(a, b)
      decreases Abs(y)
    {
      x, y := y, Rem(x, y);
    }
    g := x;
  }

  function Mul(a: int, b: int): int { a * b }

  ghost predicate Divides(d: int, x: int)
  {
    exists k :: x == Mul(d, k)
  }

  lemma BezoutStep(a: int, b: int, q: int, r: int, x: int, y: int)
    requires r == a - b * q
    ensures b * x + r * y == a * y + b * (x - q * y)
  {
    calc {
      b * x + r * y;
      b * x + (a - b * q) * y;
      { assert (a - b * q) * y == a * y - (b * q) * y; }
      b * x + a * y - (b * q) * y;
      { assert (b * q) * y == b * (q * y); }
      a * y + b * (x - q * y);
    }
  }

  lemma MulCombine(g: int, k: int, q: int, m: int)
    ensures Mul(g, k) * q + Mul(g, m) == Mul(g, k * q + m)
  {
    assert g * (k * q + m) == g * (k * q) + g * m;
    assert g * (k * q) == (g * k) * q;
  }

  /** Bezout's identity: the gcd of naturals is an integer combination of them. */
  lemma {:induction false} Bezout(a: nat, b: nat) returns (x: int, y: int)
    ensures GcdOf(a, b) == a * x + b * y
    decreases b
  {
    if b == 0 {
      x, y := 1, 0;
    } else {
      var q, r := a / b, a % b;
      var x', y' := Bezout(b, r);
      BezoutStep(a, b, q, r, x', y');
      x, y := y', x' - q * y';
    }
  }

  /** The gcd of naturals is a natural dividing both. */
  lemma {:induction false} GcdDivides(a: nat, b: nat)
    ensures Divides(GcdOf(a, b), a) && Divides(GcdOf(a, b), b)
    decreases b
  {
    var g := GcdOf(a, b);
    if b == 0 {
      assert a == Mul(g, 1) && b == Mul(g, 0);
    } else {
      var q, r := a / b, a % b;
      GcdDivides(b, r);
      var kb :| b == Mul(g, kb);
      var kr :| r == Mul(g, kr);
      MulCombine(g, kb, q, kr);
      assert a == Mul(g, kb * q + kr);
    }
  }

  /** Every common divisor of two naturals divides their gcd. */
  lemma GcdGreatest(a: nat, b: nat, d: int)
    requires Divides(d, a) && Divides(d, b)
    ensures Divides(d, GcdOf(a, b))
  {
    var x, y := Bezout(a, b);
    var ka :| a == Mul(d, ka);
    var kb :| b == Mul(d, kb);
    assert GcdOf(a, b) == Mul(d, ka * x + kb * y) by {
      assert d * (ka * x + kb * y) == (d * ka) * x + (d * kb) * y;
    }
  }

  /** The gcd of naturals is 0 only for two zeros, and positive otherwise. */
  lemma {:induction false} GcdPositive(a: nat, b: nat)
    ensures GcdOf(a, b) >= 0
    ensures GcdOf(a, b) == 0 <==> a == 0 && b == 0
    decreases b
  {
    if b != 0 {
      GcdPositive(b, a % b);
    }
  }

  /** `lcm`: a * b / gcd(a, b); `None` where the division by a zero gcd panics. */
  function Lcm(a: int, b: int): Option<int>
  {
    var g := GcdOf(a, b);
    if g == 0 then None else Some(Quot(a * b, g))
  }

  lemma DividesTrans(a: int, b: int, c: int)
    requires Divides(a, b) && Divides(b, c)
    ensures Divides(a, c)
  {
    var j :| b == Mul(a, j);
    var k :| c == Mul(b, k);
    assert c == Mul(a, j * k) by { assert (a * j) * k == a * (j * k); }
  }

  lemma DividesAntisym(a: int, b: int)
    requires a > 0 && b > 0 && Divides(a, b) && Divides(b, a)
    ensures a == b
  {
    var j :| b == Mul(a, j);
    var k :| a == Mul(b, k);
    assert j > 0 && k > 0;
    assert a * j >= a && b * k >= b;
  }

  lemma Cancel(m: int, n: int, g: int)
    requires g > 0 && m * g == n * g
    ensures m == n
  {
    assert (m - n) * g == 0;
  }

  /** For positive a, b: `lcm` is defined and positive, and the numbers it divides are
      exactly the common multiples of a and b. */
  lemma LcmSpec(a: int, b: int)
    requires a > 0 && b > 0
    ensures Lcm(a, b).Some? && Lcm(a, b).value > 0
    ensures forall m :: Divides(Lcm(a, b).value, m) <==> Divides(a, m) && Divides(b, m)
  {
    var g := GcdOf(a, b);
    GcdPositive(a, b);
    GcdDivides(a, b);
    var ka :| a == Mul(g, ka);
    var kb :| b == Mul(g, kb);
    var l := a * kb;
    assert kb > 0;
    assert l > 0;
    assert a * b == l * g by { assert a * (g * kb) == (a * kb) * g; }
    assert Quot(a * b, g) == l by { LcmQuot(a * b, l, g); }
    assert Lcm(a, b) == Some(l);
    assert Divides(a, l) by { assert l == Mul(a, kb); }
    assert Divides(b, l) by { assert l == Mul(b, ka) by { assert (g * ka) * kb == (g * kb) * ka; } }
    forall m ensures Divides(l, m) <==> Divides(a, m) && Divides(b, m) {
      if Divides(l, m) {
        DividesTrans(a, l, m);
        DividesTrans(b, l, m);
      }
      if Divides(a, m) && Divides(b, m) {
        CommonMultiple(a, b, l, g, m);
      }
    }
  }

  lemma Swap4(b: int, v: int, a: int, x: int)
    ensures (b * v) * (a * x) == (a * b) * (v * x)
  {
  }

  lemma Swap3(l: int, g: int, w: int)
    ensures (l * g) * w == (l * w) * g
  {
  }

  lemma Distrib(m: int, p: int, q: int)
    ensures m * (p + q) == m * p + m * q
  {
  }

  lemma LcmQuot(p: int, l: int, g: int)
    requires g > 0 && l > 0 && p == l * g
    ensures Quot(p, g) == l
  {
    var q, r := p / g, p % g;
    assert (l - q) * g == r;
    if l - q >= 1 {
      MulAtLeast(l - q, g);
    } else if l - q <= -1 {
      MulAtLeast(q - l, g);
    }
  }

  lemma MulAtLeast(x: int, g: int)
    requires x >= 1 && g > 0
    ensures x * g >= g
  {
  }

  /** A common multiple of a and b is a multiple of a * b / gcd(a, b). */
  lemma CommonMultiple(a: nat, b: nat, l: int, g: int, m: int)
    requires g == GcdOf(a, b) && g > 0 && a * b == l * g
    requires Divides(a, m) && Divides(b, m)
    ensures Divides(l, m)
  {
    var x, y := Bezout(a, b);
    var u :| m == Mul(a, u);
    var v :| m == Mul(b, v);
    var w := v * x + u * y;
    Swap4(b, v, a, x);
    Swap4(a, u, b, y);
    assert m * (a * x) == (a * b) * (v * x);
    assert m * (b * y) == (a * b) * (u * y);
    Distrib(m, a * x, b * y);
    Distrib(a * b, v * x, u * y);
    assert m * g == (a * b) * w;
    Swap3(l, g, w);
    Cancel(m, l * w, g);
    assert m == Mul(l, w);
  }

  // ---------------------------------------------------------------- part 2

  /** The fold `lcm(lcm(lcm(acc, x0), x1), ...)`; `None` if some step panics. */
  function LcmFold(acc: int, xs: seq<int>): Option<int>
    decreases |xs|
  {
    if xs == [] then Some(acc)
    else
      match Lcm(acc, xs[0])
      case None => None
      case Some(l) => LcmFold(l, xs[1..])
  }

  ghost predicate AllDivide(xs: seq<int>, m: int)
  {
    forall i :: 0 <= i < |xs| ==> Divides(xs[i], m)
  }

  predicate AllPositive(xs: seq<int>)
  {
    forall i :: 0 <= i < |xs| ==> xs[i] > 0
  }

  /** Folding `lcm` over positive numbers gives the least common multiple of them all: a
      positive number whose multiples are exactly the common multiples. */
  lemma {:induction false} LcmFoldSpec(acc: int, xs: seq<int>)
    requires acc > 0 && AllPositive(xs)
    ensures LcmFold(acc, xs).Some? && LcmFold(acc, xs).value > 0
    ensures forall m :: Divides(LcmFold(acc, xs).value, m) <==> Divides(acc, m) && AllDivide(xs, m)
    decreases |xs|
  {
    if xs != [] {
      LcmSpec(acc, xs[0]);
      var l := Lcm(acc, xs[0]).value;
      LcmFoldSpec(l, xs[1..]);
      forall m ensures AllDivide(xs, m) <==> Divides(xs[0], m) && AllDivide(xs[1..], m) {
        if Divides(xs[0], m) && AllDivide(xs[1..], m) {
          forall i | 0 <= i < |xs| ensures Divides(xs[i], m) {
            if i > 0 { assert xs[i] == xs[1..][i - 1]; }
          }
        }
      }
    }
  }

  /** The order (and repetition) of the counts does not change the fold's result: only
      which numbers occur matters. */
  lemma LcmFoldOrderFree(xs: seq<int>, ys: seq<int>)
    requires AllPositive(xs) && AllPositive(ys)
    requires forall x :: x in xs <==> x in ys
    ensures LcmFold(1, xs) == LcmFold(1, ys)
  {
    LcmFoldSpec(1, xs);
    LcmFoldSpec(1, ys);
    var l1, l2 := LcmFold(1, xs).value, LcmFold(1, ys).value;
    forall m ensures AllDivide(xs, m) <==> AllDivide(ys, m) {
      if AllDivide(xs, m) {
        forall j | 0 <= j < |ys| ensures Divides(ys[j], m) {
          assert ys[j] in xs;
        }
      }
      if AllDivide(ys, m) {
        forall i | 0 <= i < |xs| ensures Divides(xs[i], m) {
          assert xs[i] in ys;
        }
      }
    }
    assert Divides(l1, l1) && Divides(l2, l2) by { assert l1 == Mul(l1, 1) && l2 == Mul(l2, 1); }
    DividesAntisym(l1, l2);
  }

  predicate EndsWithA(name: string)
  {
    |name| > 0 && name[|name| - 1] == 'A'
  }

  /** A walk that does not start on an end node takes at least one step. */
  lemma {:induction false} ArrivedAfter(net: Network, steps: seq<char>, curr: string, counter: nat, part2: bool, fuel: nat)
    requires steps != []
    requires WalkFrom(net, steps, curr, counter, part2, fuel).Arrived?
    ensures WalkFrom(net, steps, curr, counter, part2, fuel).count >= counter
    ensures !Done(curr, part2) ==> WalkFrom(net, steps, curr, counter, part2, fuel).count > counter
    decreases fuel - counter
  {
    if !Done(curr, part2) && counter < fuel {
      var next := Move(net, curr, steps[counter % |steps|]).value;
      ArrivedAfter(net, steps, next, counter + 1, part2, fuel);
    }
  }

  /** A walk from a start node takes at least one step, unless there are no instructions. */
  lemma StartCounts(net: Network, steps: seq<char>, start: string, fuel: nat)
    requires EndsWithA(start) && Walk(net, steps, start, true, fuel).Arrived?
    ensures steps != [] ==> Walk(net, steps, start, true, fuel).count > 0
  {
    if steps != [] {
      assert !Done(start, true);
      ArrivedAfter(net, steps, start, 0, true, fuel);
    }
  }

  /** `simulate_walk` from every start; `None` if any walk panics or exhausts its budget. */
  function WalkCounts(net: Network, steps: seq<char>, starts: seq<string>, fuel: nat): (r: Option<seq<int>>)
    requires forall i :: 0 <= i < |starts| ==> EndsWithA(starts[i])
    ensures r.Some? <==> forall i :: 0 <= i < |starts| ==> Walk(net, steps, starts[i], true, fuel).Arrived?
    ensures r.Some? ==> |r.value| == |starts| && (steps != [] ==> AllPositive(r.value))
    ensures r.Some? ==> forall i :: 0 <= i < |starts| ==> r.value[i] == Walk(net, steps, starts[i], true, fuel).count
    decreases |starts|
  {
    if starts == [] then Some([])
    else
      match (Walk(net, steps, starts[0], true, fuel), WalkCounts(net, steps, starts[1..], fuel))
      case (Arrived(n), Some(rest)) =>
        StartCounts(net, steps, starts[0], fuel);
        assert forall i :: 1 <= i < |starts| ==> starts[1..][i - 1] == starts[i];
        assert forall i :: 1 <= i < |starts| ==> ([n] + rest)[i] == rest[i - 1];
        Some([n] + rest)
      case _ =>
        assert forall i :: 1 <= i < |starts| ==> starts[1..][i - 1] == starts[i];
        None
  }

  /** `solve` of part 2 over the start nodes in the order the map yields them. */
  function Solve2(net: Network, steps: seq<char>, starts: seq<string>, fuel: nat): Option<int>
    requires forall i :: 0 <= i < |starts| ==> EndsWithA(starts[i])
  {
    match WalkCounts(net, steps, starts, fuel)
    case None => None
    case Some(counts) => LcmFold(1, counts)
  }

  /** `starts` lists exactly the nodes whose names end in 'A'. */
  predicate Enumerates(net: Network, starts: seq<string>)
  {
    && (forall i :: 0 <= i < |starts| ==> starts[i] in net && EndsWithA(starts[i]))
    && (forall name :: name in net && EndsWithA(name) ==> name in starts)
  }

  /** Map keys come without repetition. */
  predicate Distinct(s: seq<string>)
  {
    forall i, j :: 0 <= i < j < |s| ==> s[i] != s[j]
  }

  lemma {:induction false} DistinctCard(s: seq<string>)
    requires Distinct(s)
    ensures |set x | x in s| == |s|
  {
    if s != [] {
      var t := s[1..];
      assert Distinct(t) by {
        forall i, j | 0 <= i < j < |t| ensures t[i] != t[j] {
          assert t[i] == s[i + 1] && t[j] == s[j + 1];
        }
      }
      DistinctCard(t);
      assert (set x | x in s) == (set x | x in t) + {s[0]} by {
        assert s == [s[0]] + t;
      }
      assert s[0] !in (set x | x in t) by {
        forall i | 0 <= i < |t| ensures t[i] != s[0] {
          assert t[i] == s[i + 1];
        }
      }
    }
  }

  /** Two listings of the same keys, each without repetition, are equally long. */
  lemma SameLength(s1: seq<string>, s2: seq<string>)
    requires Distinct(s1) && Distinct(s2)
    requires forall x :: x in s1 <==> x in s2
    ensures |s1| == |s2|
  {
    DistinctCard(s1);
    DistinctCard(s2);
    assert (set x | x in s1) == (set x | x in s2);
  }

  /** With an empty instruction line every walk counts 0: the fold gives 1 without start
      nodes and 0 with one, and with more it divides by `gcd(0, 0) = 0` and panics. */
  lemma EmptySteps(net: Network, starts: seq<string>, fuel: nat)
    requires forall i :: 0 <= i < |starts| ==> EndsWithA(starts[i])
    ensures Solve2(net, [], starts, fuel) ==
      if |starts| == 0 then Some(1) else if |starts| == 1 then Some(0) else None
  {
    var c := WalkCounts(net, [], starts, fuel);
    assert c.Some?;
    var cs := c.value;
    if |starts| >= 1 {
      assert cs[0] == 0;
      assert Lcm(1, 0) == Some(0);
      assert LcmFold(1, cs) == LcmFold(0, cs[1..]);
      if |starts| == 1 {
        assert cs[1..] == [];
      } else {
        assert cs[1..][0] == cs[1] == 0;
        assert Lcm(0, 0) == None;
      }
    }
  }

  /** Whatever order the map yields its keys in, part 2's answer is the same. */
  lemma Solve2OrderFree(net: Network, steps: seq<char>, s1: seq<string>, s2: seq<string>, fuel: nat)
    requires Enumerates(net, s1) && Enumerates(net, s2) && Distinct(s1) && Distinct(s2)
    ensures Solve2(net, steps, s1, fuel) == Solve2(net, steps, s2, fuel)
  {
    if steps == [] {
      SameLength(s1, s2);
      EmptySteps(net, s1, fuel);
      EmptySteps(net, s2, fuel);
    } else {
      StepsOrderFree(net, steps, s1, s2, fuel);
    }
  }

  lemma StepsOrderFree(net: Network, steps: seq<char>, s1: seq<string>, s2: seq<string>, fuel: nat)
    requires steps != [] && Enumerates(net, s1) && Enumerates(net, s2)
    ensures Solve2(net, steps, s1, fuel) == Solve2(net, steps, s2, fuel)
  {
    var c1, c2 := WalkCounts(net, steps, s1, fuel), WalkCounts(net, steps, s2, fuel);
    if c1.Some? && c2.Some? {
      forall x ensures x in c1.value <==> x in c2.value {
        if x in c1.value {
          var i :| 0 <= i < |c1.value| && c1.value[i] == x;
          var j :| 0 <= j < |s2| && s2[j] == s1[i];
          assert c2.value[j] == x;
        }
        if x in c2.value {
          var j :| 0 <= j < |c2.value| && c2.value[j] == x;
          var i :| 0 <= i < |s1| && s1[i] == s2[j];
          assert c1.value[i] == x;
        }
      }
      LcmFoldOrderFree(c1.value, c2.value);
    }
  }

  // ---------------------------------------------------------------- the examples

  lemma GcdLcmExamples()
    ensures GcdOf(8, 12) == 4 && GcdOf(12, 8) == 4 && GcdOf(1, 3) == 1 && GcdOf(20, 4) == 4 && GcdOf(11, 11) == 11
    ensures Lcm(8, 12) == Some(24) && Lcm(12, 8) == Some(24) && Lcm(1, 3) == Some(3)
    ensures Lcm(20, 4) == Some(20) && Lcm(11, 11) == Some(11) && Lcm(5, 7) == Some(35)
  {
  }

  const Example1: Network := map["AAA" := ("BBB", "CCC"), "BBB" := ("DDD", "EEE"), "CCC" := ("ZZZ", "GGG"),
    "DDD" := ("DDD", "DDD"), "EEE" := ("EEE", "EEE"), "GGG" := ("GGG", "GGG"), "ZZZ" := ("ZZZ", "ZZZ")]

  /** The first example takes 2 steps (given any budget of at least 2). */
  lemma Part1Example1(fuel: nat)
    requires fuel >= 2
    ensures Solve1(Example1, "RL", fuel) == Arrived(2)
  {
    var steps := "RL";
    assert Done("ZZZ", false) && !Done("AAA", false) && !Done("CCC", false);
    assert steps[0 % 2] == 'R' && steps[1 % 2] == 'L';
    assert Move(Example1, "AAA", 'R') == Some("CCC");
    assert Move(Example1, "CCC", 'L') == Some("ZZZ");
    assert WalkFrom(Example1, steps, "ZZZ", 2, false, fuel) == Arrived(2);
    assert WalkFrom(Example1, steps, "CCC", 1, false, fuel) == Arrived(2);
  }

  const Example2: Network := map["AAA" := ("BBB", "BBB"), "BBB" := ("AAA", "ZZZ"), "ZZZ" := ("ZZZ", "ZZZ")]

  /** The second example repeats its instructions and takes 6 steps. */
  lemma Part1Example2(fuel: nat)
    requires fuel >= 6
    ensures Solve1(Example2, "LLR", fuel) == Arrived(6)
  {
    var steps := "LLR";
    assert Done("ZZZ", false) && !Done("AAA", false) && !Done("BBB", false);
    assert steps[0 % 3] == 'L' && steps[1 % 3] == 'L' && steps[2 % 3] == 'R';
    assert steps[3 % 3] == 'L' && steps[4 % 3] == 'L' && steps[5 % 3] == 'R';
    assert Move(Example2, "AAA", 'L') == Some("BBB");
    assert Move(Example2, "BBB", 'L') == Some("AAA");
    assert Move(Example2, "BBB", 'R') == Some("ZZZ");
    assert WalkFrom(Example2, steps, "ZZZ", 6, false, fuel) == Arrived(6);
    assert WalkFrom(Example2, steps, "BBB", 5, false, fuel) == Arrived(6);
    assert WalkFrom(Example2, steps, "AAA", 4, false, fuel) == Arrived(6);
    assert WalkFrom(Example2, steps, "BBB", 3, false, fuel) == Arrived(6);
    assert WalkFrom(Example2, steps, "AAA", 2, false, fuel) == Arrived(6);
    assert WalkFrom(Example2, steps, "BBB", 1, false, fuel) == Arrived(6);
  }

  const Example3: Network := map["11A" := ("11B", "XXX"), "11B" := ("XXX", "11Z"), "11Z" := ("11B", "XXX"),
    "22A" := ("22B", "XXX"), "22B" := ("22C", "22C"), "22C" := ("22Z", "22Z"), "22Z" := ("22B", "22B"),
    "XXX" := ("XXX", "XXX")]

  /** Part 2's example: the walks take 2 and 3 steps, whose lcm is 6, in whichever order the
      two start nodes come. */
  lemma Part2Example(starts: seq<string>, fuel: nat)
    requires fuel >= 3 && Enumerates(Example3, starts) && Distinct(starts)
    ensures Solve2(Example3, "LR", starts, fuel) == Some(6)
  {
    var listed := ["11A", "22A"];
    assert Enumerates(Example3, listed) by {
      forall name | name in Example3 && EndsWithA(name) ensures name in listed {
        assert name in {"11A", "11B", "11Z", "22A", "22B", "22C", "22Z", "XXX"};
      }
    }
    ListedCounts(fuel);
    assert Lcm(1, 2) == Some(2) && Lcm(2, 3) == Some(6);
    assert LcmFold(1, [2, 3]) == Some(6) by {
      assert [2, 3][1..] == [3];
    }
    Solve2OrderFree(Example3, "LR", listed, starts, fuel);
  }

  /** The two ghost walks of the example take 2 and 3 steps. */
  lemma ListedCounts(fuel: nat)
    requires fuel >= 3
    ensures WalkCounts(Example3, "LR", ["11A", "22A"], fuel) == Some([2, 3])
  {
    var steps := "LR";
    var listed := ["11A", "22A"];
    assert steps[0 % 2] == 'L' && steps[1 % 2] == 'R' && steps[2 % 2] == 'L';
    assert Done("11Z", true) && Done("22Z", true);
    assert !Done("11A", true) && !Done("11B", true) && !Done("22A", true) && !Done("22B", true) && !Done("22C", true);
    assert WalkFrom(Example3, steps, "11Z", 2, true, fuel) == Arrived(2);
    assert WalkFrom(Example3, steps, "11B", 1, true, fuel) == Arrived(2);
    assert WalkFrom(Example3, steps, "11A", 0, true, fuel) == Arrived(2);
    assert WalkFrom(Example3, steps, "22Z", 3, true, fuel) == Arrived(3);
    assert WalkFrom(Example3, steps, "22C", 2, true, fuel) == Arrived(3);
    assert WalkFrom(Example3, steps, "22B", 1, true, fuel) == Arrived(3);
    assert WalkFrom(Example3, steps, "22A", 0, true, fuel) == Arrived(3);
    assert Walk(Example3, steps, listed[0], true, fuel) == Arrived(2);
    assert Walk(Example3, steps, listed[1], true, fuel) == Arrived(3);
    var counts := WalkCounts(Example3, steps, listed, fuel);
    assert counts.Some? && |counts.value| == 2;
    assert counts.value[0] == 2 && counts.value[1] == 3;
    assert counts.value == [2, 3];
  }
}
