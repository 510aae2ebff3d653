/** Day 6: boat races. Holding the button for `hold` milliseconds of a race lasting `time`
    moves the boat hold * (time - hold) millimetres; a hold wins when that beats the record
    distance. Both parts count the winning holds by walking down from the middle hold while
    it still wins, and then double the count, once less for an even time (whose middle hold
    has no mirror image). Part 1 reads one race per column and multiplies the counts; part 2
    joins all digits of each line into a single race. Integers are unbounded here. */
module Day06Races {
  import opened Wrappers

  datatype Race = Race(time: nat, dist: nat)

  function Distance(time: int, hold: int): int
  {
    hold * (time - hold)
  }

  predicate Wins(r: Race, hold: int)
  {
    Distance(r.time, hold) > r.dist
  }

  /** The number of winning holds in [lo, hi). */
  function CountWins(r: Race, lo: int, hi: int): nat
    decreases hi - lo
  {
    if hi <= lo then 0 else CountWins(r, lo, hi - 1) + (if Wins(r, hi - 1) then 1 else 0)
  }

  /** The puzzle's answer for one race: how many holds from 0 to `time` win. */
  function WaysToWin(r: Race): nat
  {
    CountWins(r, 0, r.time + 1)
  }

  // ---------------------------------------------------------------- shape of the distance

  /** Holding `hold` or `time - hold` covers the same distance. */
  lemma DistanceMirror(time: int, hold: int)
    ensures Distance(time, hold) == Distance(time, time - hold)
  {
  }

  /** Up to the middle, a longer hold goes strictly further. */
  lemma DistanceRises(time: int, i: int, j: int)
    requires 0 <= i < j <= time / 2
    ensures Distance(time, i) < Distance(time, j)
  {
    assert Distance(time, j) - Distance(time, i) == (j - i) * (time - i - j);
    assert time - i - j > 0;
    assert (j - i) * (time - i - j) > 0;
  }

  lemma {:induction false} CountSplit(r: Race, lo: int, mid: int, hi: int)
    requires lo <= mid <= hi
    ensures CountWins(r, lo, hi) == CountWins(r, lo, mid) + CountWins(r, mid, hi)
    decreases hi - mid
  {
    if hi > mid {
      CountSplit(r, lo, mid, hi - 1);
    }
  }

  lemma {:induction false} CountAllWin(r: Race, lo: int, hi: int)
    requires lo <= hi
    requires forall i :: lo <= i < hi ==> Wins(r, i)
    ensures CountWins(r, lo, hi) == hi - lo
    decreases hi - lo
  {
    if hi > lo {
      CountAllWin(r, lo, hi - 1);
    }
  }

  lemma {:induction false} CountNoneWin(r: Race, lo: int, hi: int)
    requires forall i :: lo <= i < hi ==> !Wins(r, i)
    ensures CountWins(r, lo, hi) == 0
    decreases hi - lo
  {
    if hi > lo {
      CountNoneWin(r, lo, hi - 1);
    }
  }

  /** If `low` is the shortest winning hold in the lower half, the winning holds are exactly
      low..time-low, so there are time + 1 - 2 * low of them. */
  lemma ClosedForm(r: Race, low: int)
    requires 0 <= low <= r.time / 2 && Wins(r, low)
    requires low == 0 || !Wins(r, low - 1)
    ensures WaysToWin(r) == r.time + 1 - 2 * low
  {
    var t, m := r.time, r.time / 2;
    forall i | 0 <= i < low
      ensures !Wins(r, i)
    {
      if i < low - 1 {
        DistanceRises(t, i, low - 1);
      }
    }
    forall i | low <= i <= t - low
      ensures Wins(r, i)
    {
      var k := if i <= m then i else t - i;
      DistanceMirror(t, i);
      if low < k {
        DistanceRises(t, low, k);
      }
    }
    forall i | t - low < i <= t
      ensures !Wins(r, i)
    {
      DistanceMirror(t, i);
      if t - i < low - 1 {
        DistanceRises(t, t - i, low - 1);
      }
    }
    CountSplit(r, 0, low, t + 1);
    CountSplit(r, low, t - low + 1, t + 1);
    CountNoneWin(r, 0, low);
    CountAllWin(r, low, t - low + 1);
    CountNoneWin(r, t - low + 1, t + 1);
  }

  /** If the middle hold loses, every hold loses. */
  lemma MiddleLoses(r: Race)
    requires !Wins(r, r.time / 2)
    ensures WaysToWin(r) == 0
  {
    var t, m := r.time, r.time / 2;
    forall i | 0 <= i <= t
      ensures !Wins(r, i)
    {
      var k := if i <= m then i else t - i;
      DistanceMirror(t, i);
      if k < m {
        DistanceRises(t, k, m);
      }
    }
    CountNoneWin(r, 0, t + 1);
  }

  // ---------------------------------------------------------------- the source's count

  /** How many holds win walking down from `hold` before the first that loses. */
  function WinStreak(r: Race, hold: int): nat
    decreases hold
  {
    if hold < 0 || !Wins(r, hold) then 0 else 1 + WinStreak(r, hold - 1)
  }

  lemma {:induction false} WinStreakRun(r: Race, hold: int)
    ensures forall j :: hold - WinStreak(r, hold) < j <= hold ==> Wins(r, j)
    ensures hold - WinStreak(r, hold) < 0 || !Wins(r, hold - WinStreak(r, hold))
    ensures WinStreak(r, hold) <= if hold < 0 then 0 else hold + 1
    decreases hold
  {
    if hold >= 0 && Wins(r, hold) {
      WinStreakRun(r, hold - 1);
    }
  }

  /** `calculate_number_of_ways`: the streak down from the middle, doubled, minus one for an
      even time. It is the number of winning holds whenever some hold wins; with none it is
      0 for an odd time and -1 for an even one. */
  function Ways(r: Race): (n: int)
    ensures WaysToWin(r) > 0 ==> n == WaysToWin(r)
    ensures WaysToWin(r) == 0 ==> n == (if r.time % 2 == 0 then -1 else 0)
  {
    var w := WinStreak(r, r.time / 2);
    StreakCounts(r);
    if r.time % 2 == 0 then w * 2 - 1 else w * 2
  }

  /** The streak down from the middle decides the count: none means no hold wins, and a
      streak of w starts the winning holds at middle - w + 1. */
  lemma StreakCounts(r: Race)
    ensures WinStreak(r, r.time / 2) == 0 ==> WaysToWin(r) == 0
    ensures WinStreak(r, r.time / 2) > 0 ==> WaysToWin(r) == r.time + 1 - 2 * (r.time / 2 - WinStreak(r, r.time / 2) + 1)
  {
    var m := r.time / 2;
    var w := WinStreak(r, m);
    WinStreakRun(r, m);
    if w == 0 {
      MiddleLoses(r);
    } else {
      ClosedForm(r, m - w + 1);
    }
  }

  /** The counting loop of `calculate_number_of_ways`, from the middle hold down, stopping at
      the first loss. */
  method NumberOfWays(r: Race) returns (n: int)
    ensures n == Ways(r)
  {
    var m := r.time / 2;
    var wins := 0;
    var i := m;
    while i >= 0
      invariant -1 <= i <= m
      invariant wins + WinStreak(r, i) == WinStreak(r, m)
      decreases i + 1
    {
      if i * (r.time - i) > r.dist {
        wins := wins + 1;
      } else {
        break;
      }
      i := i - 1;
    }
    if r.time % 2 == 0 {
      n := wins * 2 - 1;
    } else {
      n := wins * 2;
    }
  }

  // ---------------------------------------------------------------- part 1

  /** Part 1's `parse`: the times and distances paired column by column; `zip` stops at the
      shorter line. */
  function Races(times: seq<nat>, dists: seq<nat>): (rs: seq<Race>)
    ensures |rs| == if |times| <= |dists| then |times| else |dists|
    ensures forall i :: 0 <= i < |rs| ==> rs[i] == Race(times[i], dists[i])
  {
    if times == [] || dists == [] then [] else [Race(times[0], dists[0])] + Races(times[1..], dists[1..])
  }

  function Product(rs: seq<Race>): int
  {
    if rs == [] then 1 else Product(rs[..|rs| - 1]) * Ways(rs[|rs| - 1])
  }

  /** Part 1's `solve`: the product of every race's count. */
  method SolveRaces(times: seq<nat>, dists: seq<nat>) returns (p: int)
    ensures p == Product(Races(times, dists))
  {
    var rs := Races(times, dists);
    p := 1;
    for i := 0 to |rs|
      invariant p == Product(rs[..i])
    {
      assert rs[..i + 1][..i] == rs[..i];
      var n := NumberOfWays(rs[i]);
      p := p * n;
    }
    assert rs[..|rs|] == rs;
  }

  function ProductOfWaysToWin(rs: seq<Race>): int
  {
    if rs == [] then 1 else ProductOfWaysToWin(rs[..|rs| - 1]) * WaysToWin(rs[|rs| - 1])
  }

  /** When every race has a winning hold, the source's product is the product of the true
      counts. */
  lemma {:induction false} ProductOfCounts(rs: seq<Race>)
    requires forall i :: 0 <= i < |rs| ==> WaysToWin(rs[i]) > 0
    ensures Product(rs) == ProductOfWaysToWin(rs)
  {
    if rs != [] {
      ProductOfCounts(rs[..|rs| - 1]);
    }
  }

  /** Time: 7 15 30, Distance: 9 40 200 gives 4 * 8 * 9 = 288. */
  lemma Part1Example()
    ensures Product(Races([7, 15, 30], [9, 40, 200])) == 288
  {
    var rs := Races([7, 15, 30], [9, 40, 200]);
    assert rs == [Race(7, 9), Race(15, 40), Race(30, 200)];
    ClosedForm(Race(7, 9), 2);
    ClosedForm(Race(15, 40), 4);
    ClosedForm(Race(30, 200), 11);
    assert Ways(Race(7, 9)) == 4 && Ways(Race(15, 40)) == 8 && Ways(Race(30, 200)) == 9;
    assert rs[..2] == [Race(7, 9), Race(15, 40)] && rs[..2][..1] == [Race(7, 9)] && rs[..2][..1][..0] == [];
    assert Product(rs[..2][..1]) == 4;
    assert Product(rs[..2]) == 32;
  }

  // ---------------------------------------------------------------- part 2

  predicate IsSpace(c: char)
  {
    c == ' ' || c == '\t' || c == '\n' || c == '\r' || c == '\U{000B}' || c == '\U{000C}'
  }

  predicate IsDigit(c: char)
  {
    '0' <= c <= '9'
  }

  function Unspaced(s: string): string
  {
    if s == [] then [] else (if IsSpace(s[0]) then [] else [s[0]]) + Unspaced(s[1..])
  }

  function DecimalValue(ds: string): nat
    requires forall i :: 0 <= i < |ds| ==> IsDigit(ds[i])
  {
    if ds == [] then 0
    else
      var d := ds[|ds| - 1];
      assert IsDigit(d);
      10 * DecimalValue(ds[..|ds| - 1]) + (d as int - '0' as int)
  }

  function Pow10(n: nat): nat
  {
    if n == 0 then 1 else 10 * Pow10(n - 1)
  }

  predicate AllDigits(s: string)
  {
    forall i :: 0 <= i < |s| ==> IsDigit(s[i])
  }

  /** Part 2's `parse` of one line's text after ':': the whitespace is dropped and what is
      left is read as one number; an empty or non-digit remainder makes `parse` panic. */
  function JoinedNumber(s: string): Option<nat>
  {
    var t := Unspaced(s);
    if t != [] && AllDigits(t) then Some(DecimalValue(t)) else None
  }

  lemma {:induction false} UnspacedAppend(a: string, b: string)
    ensures Unspaced(a + b) == Unspaced(a) + Unspaced(b)
  {
    if a != [] {
      assert (a + b)[1..] == a[1..] + b;
      UnspacedAppend(a[1..], b);
    } else {
      assert a + b == b;
    }
  }

  lemma {:induction false} UnspacedDigits(a: string)
    requires AllDigits(a)
    ensures Unspaced(a) == a
  {
    if a != [] {
      UnspacedDigits(a[1..]);
    }
  }

  lemma {:induction false} DecimalAppend(a: string, b: string)
    requires AllDigits(a) && AllDigits(b)
    ensures DecimalValue(a + b) == DecimalValue(a) * Pow10(|b|) + DecimalValue(b)
  {
    if b != [] {
      var b' := b[..|b| - 1];
      assert (a + b)[..|a + b| - 1] == a + b';
      DecimalAppend(a, b');
      ShiftDigit(DecimalValue(a), Pow10(|b'|), DecimalValue(b'), b[|b| - 1] as int - '0' as int);
    } else {
      assert a + b == a;
    }
  }

  /** One more digit at the back shifts the front part by one more power of ten. */
  lemma ShiftDigit(x: int, p: int, y: int, d: int)
    ensures 10 * (x * p + y) + d == x * (10 * p) + (10 * y + d)
  {
  }

  lemma {:induction false} UnspacedSpaces(sp: string)
    requires forall i :: 0 <= i < |sp| ==> IsSpace(sp[i])
    ensures Unspaced(sp) == []
  {
    if sp != [] {
      UnspacedSpaces(sp[1..]);
    }
  }

  lemma UnspacedJoin(a: string, sp: string, b: string)
    requires AllDigits(a) && AllDigits(b)
    requires forall i :: 0 <= i < |sp| ==> IsSpace(sp[i])
    ensures Unspaced(a + sp + b) == a + b
  {
    UnspacedAppend(a, sp);
    UnspacedDigits(a);
    UnspacedSpaces(sp);
    assert Unspaced(a + sp) == a by {
      assert a + [] == a;
    }
    UnspacedAppend(a + sp, b);
    UnspacedDigits(b);
  }

  lemma DigitsAppend(a: string, b: string)
    requires AllDigits(a) && AllDigits(b)
    ensures AllDigits(a + b)
  {
    forall i | 0 <= i < |a + b|
      ensures IsDigit((a + b)[i])
    {
      if i >= |a| {
        assert (a + b)[i] == b[i - |a|];
      }
    }
  }

  lemma JoinedOf(s: string, t: string)
    requires Unspaced(s) == t && t != [] && AllDigits(t)
    ensures JoinedNumber(s) == Some(DecimalValue(t))
  {
  }

  /** Two digit groups separated by whitespace join into one number: the first one's
      digits followed by the second one's. */
  lemma JoinTwo(a: string, sp: string, b: string)
    requires a != [] && AllDigits(a) && AllDigits(b)
    requires forall i :: 0 <= i < |sp| ==> IsSpace(sp[i])
    ensures JoinedNumber(a + sp + b).Some?
    ensures JoinedNumber(a + sp + b).value == DecimalValue(a) * Pow10(|b|) + DecimalValue(b)
  {
    UnspacedJoin(a, sp, b);
    DigitsAppend(a, b);
    DecimalAppend(a, b);
    JoinedOf(a + sp + b, a + b);
  }

  /** Part 2's `solve`: the race read from the two lines, counted as in part 1. */
  method SolveJoined(timeText: string, distText: string) returns (n: Option<int>)
    ensures JoinedNumber(timeText).None? || JoinedNumber(distText).None? <==> n.None?
    ensures n.Some? ==> n.value == Ways(Race(JoinedNumber(timeText).value, JoinedNumber(distText).value))
  {
    var t := JoinedNumber(timeText);
    var d := JoinedNumber(distText);
    if t.None? || d.None? {
      return None;
    }
    var w := NumberOfWays(Race(t.value, d.value));
    return Some(w);
  }

  /** Time 71530, record 940200: holds 14 through 71516 win, 71503 of them. */
  lemma Part2Example()
    ensures Ways(Race(71530, 940200)) == 71503
  {
    ClosedForm(Race(71530, 940200), 14);
  }
}
