/** Day 22: bricks of sand given by two corner cubes fall straight down until they rest on
    the floor (height 1) or on a brick below them. The source sorts the bricks by their
    lowest z, lets them fall one at a time in that order, and then asks for each brick
    whether removing it would let another brick fall (part 1: how many are safe to remove)
    and how many bricks would move if it were removed (part 2: the sum over all bricks). */
module Day22Bricks {
  import opened Wrappers
  import opened Text

  /** `Brick`: the corners (x0, y0, z0) and (x1, y1, z1) as written in the input. */
  datatype Brick = Brick(x0: int, y0: int, z0: int, x1: int, y1: int, z1: int)

  function Max(a: int, b: int): int
  {
    if a < b then b else a
  }

  /** `is_xy_overlap`: the footprints of two bricks share a cell. */
  predicate Overlap(a: Brick, b: Brick)
  {
    !(a.x1 < b.x0 || b.x1 < a.x0) && !(a.y1 < b.y0 || b.y1 < a.y0)
  }

  /** The corners are written lowest first on every axis. */
  predicate Proper(b: Brick)
  {
    b.x0 <= b.x1 && b.y0 <= b.y1 && b.z0 <= b.z1
  }

  predicate Within(v: int, lo: int, hi: int)
  {
    lo <= v <= hi
  }

  /** Two footprints overlap exactly when their closed x-intervals meet and their closed
      y-intervals meet, whichever brick comes first. */
  lemma OverlapMeaning(a: Brick, b: Brick)
    requires Proper(a) && Proper(b)
    ensures Overlap(a, b) <==> (exists x :: Within(x, a.x0, a.x1) && Within(x, b.x0, b.x1)) &&
                               (exists y :: Within(y, a.y0, a.y1) && Within(y, b.y0, b.y1))
    ensures Overlap(a, b) == Overlap(b, a)
  {
    if Overlap(a, b) {
      var x, y := Max(a.x0, b.x0), Max(a.y0, b.y0);
      assert Within(x, a.x0, a.x1) && Within(x, b.x0, b.x1);
      assert Within(y, a.y0, a.y1) && Within(y, b.y0, b.y1);
    }
  }

  /** The same footprint and the same height. */
  predicate SameShape(a: Brick, b: Brick)
  {
    a.x0 == b.x0 && a.y0 == b.y0 && a.x1 == b.x1 && a.y1 == b.y1 && a.z1 - a.z0 == b.z1 - b.z0
  }

  /** `drop_z_to`: the brick moved so that its lower end is at `z0`. */
  function DropTo(b: Brick, z0: int): (r: Brick)
    ensures SameShape(r, b) && r.z0 == z0
    ensures z0 == b.z0 ==> r == b
  {
    b.(z0 := z0, z1 := z0 + (b.z1 - b.z0))
  }

  /** Brick j can hold up brick i: it is not the ignored brick, its top is below i's bottom
      and their footprints overlap. */
  predicate Supports(bs: seq<Brick>, j: nat, i: nat, ignore: Option<nat>)
    requires j < |bs| && i < |bs|
  {
    ignore != Some(j) && bs[j].z1 < bs[i].z0 && Overlap(bs[i], bs[j])
  }

  /** The lowest z brick i could fall to considering the bricks lo .. i-1 only. */
  function LowestFrom(bs: seq<Brick>, i: nat, ignore: Option<nat>, lo: nat): int
    requires i < |bs| && lo <= i
    decreases i - lo
  {
    if lo == i then 1
    else
      var rest := LowestFrom(bs, i, ignore, lo + 1);
      if Supports(bs, lo, i, ignore) then Max(rest, bs[lo].z1 + 1) else rest
  }

  /** The height `find_lowest_possible` computes for brick i. */
  function Lowest(bs: seq<Brick>, i: nat, ignore: Option<nat>): int
    requires i < |bs|
  {
    LowestFrom(bs, i, ignore, 0)
  }

  /** The lowest position is the floor or just above the highest supporting brick among
      the earlier ones: at least 1, above every support, and attained by the floor or by
      one of them. */
  lemma {:induction false} LowestFromMeaning(bs: seq<Brick>, i: nat, ignore: Option<nat>, lo: nat)
    requires i < |bs| && lo <= i
    ensures LowestFrom(bs, i, ignore, lo) >= 1
    ensures forall j :: lo <= j < i && Supports(bs, j, i, ignore) ==> LowestFrom(bs, i, ignore, lo) >= bs[j].z1 + 1
    ensures LowestFrom(bs, i, ignore, lo) == 1 ||
            exists j :: lo <= j < i && Supports(bs, j, i, ignore) && LowestFrom(bs, i, ignore, lo) == bs[j].z1 + 1
    decreases i - lo
  {
    if lo < i {
      LowestFromMeaning(bs, i, ignore, lo + 1);
    }
  }

  lemma LowestMeaning(bs: seq<Brick>, i: nat, ignore: Option<nat>)
    requires i < |bs|
    ensures Lowest(bs, i, ignore) >= 1
    ensures forall j :: 0 <= j < i && Supports(bs, j, i, ignore) ==> Lowest(bs, i, ignore) >= bs[j].z1 + 1
    ensures Lowest(bs, i, ignore) == 1 ||
            exists j :: 0 <= j < i && Supports(bs, j, i, ignore) && Lowest(bs, i, ignore) == bs[j].z1 + 1
  {
    LowestFromMeaning(bs, i, ignore, 0);
  }

  /** A brick standing at height 1 or more never falls upwards. */
  lemma LowestBelow(bs: seq<Brick>, i: nat, ignore: Option<nat>)
    requires i < |bs| && bs[i].z0 >= 1
    ensures 1 <= Lowest(bs, i, ignore) <= bs[i].z0
  {
    LowestMeaning(bs, i, ignore);
  }

  /** Ignoring a brick can only lower the resting height, and ignoring one that is not
      earlier than i changes nothing. */
  lemma {:induction false} IgnoreLowers(bs: seq<Brick>, i: nat, idx: nat, lo: nat)
    requires i < |bs| && lo <= i
    ensures LowestFrom(bs, i, Some(idx), lo) <= LowestFrom(bs, i, None, lo)
    ensures idx >= i ==> LowestFrom(bs, i, Some(idx), lo) == LowestFrom(bs, i, None, lo)
    decreases i - lo
  {
    if lo < i {
      IgnoreLowers(bs, i, idx, lo + 1);
    }
  }

  /** The wall after the first k steps of dropping in index order; the ignored brick
      neither moves nor holds anything up. */
  function Settle(bs: seq<Brick>, ignore: Option<nat>, k: nat): (r: seq<Brick>)
    requires k <= |bs|
    ensures |r| == |bs|
  {
    if k == 0 then bs
    else
      var s := Settle(bs, ignore, k - 1);
      if ignore == Some(k - 1) then s else s[k - 1 := DropTo(s[k - 1], Lowest(s, k - 1, ignore))]
  }

  /** The bricks not yet reached are untouched. */
  lemma {:induction false} SettleAhead(bs: seq<Brick>, ignore: Option<nat>, k: nat, j: nat)
    requires k <= j < |bs|
    ensures Settle(bs, ignore, k)[j] == bs[j]
  {
    if k > 0 {
      SettleAhead(bs, ignore, k - 1, j);
    }
  }

  /** A brick once reached keeps its place through the later steps. */
  lemma {:induction false} SettleBehind(bs: seq<Brick>, ignore: Option<nat>, k: nat, n: nat, j: nat)
    requires j < k <= n <= |bs|
    ensures Settle(bs, ignore, n)[j] == Settle(bs, ignore, k)[j]
    decreases n
  {
    if k < n {
      SettleBehind(bs, ignore, k, n - 1, j);
    }
  }

  predicate Grounded(bs: seq<Brick>)
  {
    forall j :: 0 <= j < |bs| ==> bs[j].z0 >= 1
  }

  /** Dropping never raises a brick standing at height 1 or more, and keeps its shape. */
  lemma {:induction false} SettleLowers(bs: seq<Brick>, ignore: Option<nat>, k: nat)
    requires k <= |bs| && Grounded(bs)
    ensures forall j :: 0 <= j < |bs| ==>
              SameShape(Settle(bs, ignore, k)[j], bs[j]) && 1 <= Settle(bs, ignore, k)[j].z0 <= bs[j].z0
  {
    if k > 0 {
      SettleLowers(bs, ignore, k - 1);
      var s := Settle(bs, ignore, k - 1);
      SettleAhead(bs, ignore, k - 1, k - 1);
      if ignore != Some(k - 1) {
        LowestBelow(s, k - 1, ignore);
      }
    }
  }

  /** The ignored brick stays where it was. */
  lemma IgnoredStays(bs: seq<Brick>, idx: nat)
    requires idx < |bs|
    ensures Settle(bs, Some(idx), |bs|)[idx] == bs[idx]
  {
    SettleBehind(bs, Some(idx), idx + 1, |bs|, idx);
    SettleAhead(bs, Some(idx), idx, idx);
  }

  /** Every brick rests: it is on the floor or just on top of a brick below it. */
  predicate Resting(bs: seq<Brick>)
  {
    forall i :: 0 <= i < |bs| ==> Lowest(bs, i, None) == bs[i].z0
  }

  /** A brick placed at the height computed for it rests there, when the bricks below are
      unchanged. */
  lemma Placed(a: seq<Brick>, b: seq<Brick>, i: nat)
    requires i < |a| == |b| && a[i].z0 >= 1
    requires forall j :: 0 <= j < i ==> a[j] == b[j]
    requires b[i] == DropTo(a[i], Lowest(a, i, None))
    ensures Lowest(b, i, None) == b[i].z0
  {
    var l := Lowest(a, i, None);
    LowestMeaning(a, i, None);
    LowestMeaning(b, i, None);
    assert forall j :: 0 <= j < i && Supports(b, j, i, None) ==> Supports(a, j, i, None);
    if l != 1 {
      var j :| 0 <= j < i && Supports(a, j, i, None) && l == a[j].z1 + 1;
      assert Supports(b, j, i, None);
    }
  }

  /** After `drop_all` every brick rests. */
  lemma SettledRests(bs: seq<Brick>)
    requires Grounded(bs)
    ensures Resting(Settle(bs, None, |bs|))
  {
    var f := Settle(bs, None, |bs|);
    forall i | 0 <= i < |bs| ensures Lowest(f, i, None) == f[i].z0 {
      var s := Settle(bs, None, i);
      SettleLowers(bs, None, i);
      SettleAhead(bs, None, i, i);
      SettleBehind(bs, None, i + 1, |bs|, i);
      forall j | 0 <= j < i ensures s[j] == f[j] {
        SettleBehind(bs, None, i, |bs|, j);
      }
      Placed(s, f, i);
    }
  }

  /** On a wall where every brick rests, a brick is safe to remove exactly when dropping
      everything again without it moves nothing. */
  lemma SafeIffUnchanged(w: seq<Brick>, idx: nat)
    requires Resting(w) && idx < |w|
    ensures Safe(w, idx) <==> Settle(w, Some(idx), |w|) == w
  {
    if Safe(w, idx) {
      SafeKeeps(w, idx, |w|);
    } else {
      var i :| idx < i < |w| && Lowest(w, i, Some(idx)) < w[i].z0;
      if Settle(w, Some(idx), |w|) == w {
        var s := Settle(w, Some(idx), i);
        forall j | 0 <= j < |w| ensures s[j] == w[j] {
          if j < i {
            SettleBehind(w, Some(idx), i, |w|, j);
          } else {
            SettleAhead(w, Some(idx), i, j);
          }
        }
        assert s == w;
        SettleBehind(w, Some(idx), i + 1, |w|, i);
        assert false;
      }
    }
  }

  lemma {:induction false} SafeKeeps(w: seq<Brick>, idx: nat, k: nat)
    requires Resting(w) && idx < |w| && k <= |w| && Safe(w, idx)
    ensures Settle(w, Some(idx), k) == w
  {
    if k > 0 {
      SafeKeeps(w, idx, k - 1);
      var i := k - 1;
      if i != idx {
        IgnoreLowers(w, i, idx, 0);
        assert Lowest(w, i, Some(idx)) == w[i].z0;
      }
    }
  }

  /** `is_safe_destroyed`: no later brick could sink below where it is with brick idx
      ignored. */
  predicate Safe(bs: seq<Brick>, idx: nat)
  {
    forall i :: idx < i < |bs| ==> Lowest(bs, i, Some(idx)) >= bs[i].z0
  }

  /** `sort_by_key` on z0 as an insertion: `b` goes after every brick whose z0 is not
      larger than its own. */
  function InsertZ(t: seq<Brick>, b: Brick): (r: seq<Brick>)
    ensures |r| == |t| + 1
    ensures multiset(r) == multiset(t) + multiset{b}
  {
    if t == [] || t[|t| - 1].z0 <= b.z0 then t + [b]
    else
      assert t == t[..|t| - 1] + [t[|t| - 1]];
      InsertZ(t[..|t| - 1], b) + [t[|t| - 1]]
  }

  /** The bricks stably sorted by their lower z. */
  function SortByZ(bs: seq<Brick>): (r: seq<Brick>)
    ensures |r| == |bs|
    ensures multiset(r) == multiset(bs)
  {
    if bs == [] then []
    else
      assert bs == bs[..|bs| - 1] + [bs[|bs| - 1]];
      InsertZ(SortByZ(bs[..|bs| - 1]), bs[|bs| - 1])
  }

  predicate SortedZ(bs: seq<Brick>)
  {
    forall i, j :: 0 <= i < j < |bs| ==> bs[i].z0 <= bs[j].z0
  }

  lemma {:induction false} InsertSorted(t: seq<Brick>, b: Brick)
    requires SortedZ(t)
    ensures SortedZ(InsertZ(t, b))
  {
    if t != [] && t[|t| - 1].z0 > b.z0 {
      var init, last := t[..|t| - 1], t[|t| - 1];
      InsertSorted(init, b);
      var u := InsertZ(init, b);
      forall k | 0 <= k < |u| ensures u[k].z0 <= last.z0 {
        assert u[k] in multiset(u);
        if u[k] != b {
          assert u[k] in multiset(init);
        }
      }
    }
  }

  /** The sorted wall is ordered by z0 and holds the same bricks. */
  lemma {:induction false} SortByZSorted(bs: seq<Brick>)
    ensures SortedZ(SortByZ(bs)) && multiset(SortByZ(bs)) == multiset(bs)
  {
    if bs != [] {
      SortByZSorted(bs[..|bs| - 1]);
      InsertSorted(SortByZ(bs[..|bs| - 1]), bs[|bs| - 1]);
    }
  }

  /** The bricks with lower z equal to v, in their order. */
  function WithZ(bs: seq<Brick>, v: int): seq<Brick>
  {
    if bs == [] then []
    else WithZ(bs[..|bs| - 1], v) + (if bs[|bs| - 1].z0 == v then [bs[|bs| - 1]] else [])
  }

  lemma {:induction false} InsertStable(t: seq<Brick>, b: Brick, v: int)
    ensures WithZ(InsertZ(t, b), v) == WithZ(t, v) + (if b.z0 == v then [b] else [])
  {
    if t == [] || t[|t| - 1].z0 <= b.z0 {
      assert (t + [b])[..|t|] == t;
    } else {
      var init, last := t[..|t| - 1], t[|t| - 1];
      InsertStable(init, b, v);
      var u := InsertZ(init, b);
      assert (u + [last])[..|u|] == u;
    }
  }

  /** The sort is stable: the bricks sharing a lower z keep their relative order. */
  lemma {:induction false} SortByZStable(bs: seq<Brick>, v: int)
    ensures WithZ(SortByZ(bs), v) == WithZ(bs, v)
  {
    if bs != [] {
      SortByZStable(bs[..|bs| - 1], v);
      InsertStable(SortByZ(bs[..|bs| - 1]), bs[|bs| - 1], v);
    }
  }

  /** `zip` then counting unequal pairs: the positions (up to the shorter length) where two
      walls differ. */
  function Differences(a: seq<Brick>, b: seq<Brick>): (r: nat)
    ensures r <= |a| && r <= |b|
  {
    if a == [] || b == [] then 0
    else Differences(a[1..], b[1..]) + (if a[0] != b[0] then 1 else 0)
  }

  /** Two walls of one length differ nowhere exactly when they are equal. */
  lemma {:induction false} DifferencesZero(a: seq<Brick>, b: seq<Brick>)
    requires |a| == |b|
    ensures Differences(a, b) == 0 <==> a == b
  {
    if a != [] {
      DifferencesZero(a[1..], b[1..]);
      if a[0] == b[0] && a[1..] == b[1..] {
        assert a == [a[0]] + a[1..] && b == [b[0]] + b[1..];
      }
    }
  }

  /** A position where the walls agree is never counted. */
  lemma {:induction false} DifferencesSkip(a: seq<Brick>, b: seq<Brick>, k: nat)
    requires k < |a| == |b| && a[k] == b[k]
    ensures Differences(a, b) <= |a| - 1
  {
    if k > 0 {
      DifferencesSkip(a[1..], b[1..], k - 1);
    }
  }

  /** The bricks that move when brick idx is removed from a wall where every brick rests. */
  function Falls(w: seq<Brick>, idx: nat): (r: nat)
    requires idx < |w|
    ensures r <= |w| - 1
  {
    IgnoredStays(w, idx);
    DifferencesSkip(Settle(w, Some(idx), |w|), w, idx);
    Differences(Settle(w, Some(idx), |w|), w)
  }

  /** Part 2's count is zero exactly for the bricks part 1 calls safe. */
  lemma FallsSafe(w: seq<Brick>, idx: nat)
    requires Resting(w) && idx < |w|
    ensures Falls(w, idx) == 0 <==> Safe(w, idx)
  {
    SafeIffUnchanged(w, idx);
    DifferencesZero(Settle(w, Some(idx), |w|), w);
  }

  /** The number of safe bricks among the first k. */
  function SafeCount(w: seq<Brick>, k: nat): (r: nat)
    requires k <= |w|
    ensures r <= k
  {
    if k == 0 then 0 else SafeCount(w, k - 1) + (if Safe(w, k - 1) then 1 else 0)
  }

  /** The falls summed over the first k bricks. */
  function FallsTotal(w: seq<Brick>, k: nat): (r: nat)
    requires k <= |w|
    ensures r <= k * (|w| - 1)
  {
    if k == 0 then 0 else FallsTotal(w, k - 1) + Falls(w, k - 1)
  }

  /** On a resting wall each brick is either safe or makes at least one brick fall. */
  lemma {:induction false} FallsAtLeast(w: seq<Brick>, k: nat)
    requires Resting(w) && k <= |w|
    ensures FallsTotal(w, k) >= k - SafeCount(w, k)
    ensures FallsTotal(w, k) == 0 <==> SafeCount(w, k) == k
  {
    if k > 0 {
      FallsAtLeast(w, k - 1);
      FallsSafe(w, k - 1);
    }
  }

  class Wall {
    var bricks: seq<Brick>

    constructor (bricks: seq<Brick>)
      ensures this.bricks == bricks
    {
      this.bricks := bricks;
    }

    /** `sort_z` */
    method SortZ()
      modifies this
      ensures bricks == SortByZ(old(bricks))
    {
      bricks := SortByZ(bricks);
    }

    /** `find_lowest_possible`: scan the earlier bricks from i-1 down to 0. */
    method FindLowest(i: nat, ignore: Option<nat>) returns (r: int)
      requires i < |bricks|
      ensures r == Lowest(bricks, i, ignore)
    {
      var curr := bricks[i];
      r := 1;
      var j := i;
      while j > 0
        invariant 0 <= j <= i && r == LowestFrom(bricks, i, ignore, j)
      {
        j := j - 1;
        if ignore == Some(j) {
          continue;
        }
        var lower := bricks[j];
        if lower.z1 >= curr.z0 {
          continue;
        }
        if Overlap(curr, lower) {
          r := Max(r, lower.z1 + 1);
        }
      }
    }

    /** `drop_all`: every brick in index order falls as far as it can. */
    method DropAll()
      modifies this
      ensures bricks == Settle(old(bricks), None, |old(bricks)|)
    {
      ghost var start := bricks;
      for i := 0 to |bricks|
        invariant bricks == Settle(start, None, i)
      {
        var low := FindLowest(i, None);
        bricks := bricks[i := DropTo(bricks[i], low)];
      }
    }

    /** `drop_all_ignore`: the same, with brick idx taken out. */
    method DropAllIgnore(idx: nat)
      modifies this
      ensures bricks == Settle(old(bricks), Some(idx), |old(bricks)|)
    {
      ghost var start := bricks;
      for i := 0 to |bricks|
        invariant bricks == Settle(start, Some(idx), i)
      {
        if i == idx {
          continue;
        }
        var low := FindLowest(i, Some(idx));
        bricks := bricks[i := DropTo(bricks[i], low)];
      }
    }

    /** `is_safe_destroyed`: stop at the first later brick that could sink. */
    method IsSafeDestroyed(idx: nat) returns (r: bool)
      ensures r == Safe(bricks, idx)
    {
      var i := idx + 1;
      while i < |bricks|
        invariant idx < i && forall k :: idx < k < i && k < |bricks| ==> Lowest(bricks, k, Some(idx)) >= bricks[k].z0
      {
        var curr := bricks[i];
        var low := FindLowest(i, Some(idx));
        if low < curr.z0 {
          return false;
        }
        i := i + 1;
      }
      return true;
    }

    /** `count_differences` */
    function CountDifferences(other: Wall): (r: nat)
      reads this, other
      ensures r <= |bricks| && r <= |other.bricks|
      ensures |bricks| == |other.bricks| ==> (r == 0 <==> bricks == other.bricks)
    {
      if |bricks| == |other.bricks| then DifferencesZero(bricks, other.bricks); Differences(bricks, other.bricks)
      else Differences(bricks, other.bricks)
    }
  }

  /** Part 1 after parsing: sort, drop, and count the bricks safe to remove. */
  method SafeBricks(bricks: seq<Brick>) returns (r: nat)
    ensures r == SafeCount(Settle(SortByZ(bricks), None, |bricks|), |bricks|)
  {
    var wall := new Wall(bricks);
    wall.SortZ();
    wall.DropAll();
    r := CountSafe(wall);
  }

  /** The loop of part 1: the bricks of the settled wall that can go without another one sinking. */
  method CountSafe(wall: Wall) returns (r: nat)
    ensures r == SafeCount(wall.bricks, |wall.bricks|)
  {
    r := 0;
    for i := 0 to |wall.bricks|
      invariant r == SafeCount(wall.bricks, i)
    {
      var safe := wall.IsSafeDestroyed(i);
      if safe {
        r := r + 1;
      }
    }
  }

  /** Part 2 after parsing, in its single-core form: for every brick, drop a copy of the
      settled wall without it and count the bricks that moved. */
  method ChainReaction(bricks: seq<Brick>) returns (r: nat)
    ensures r == FallsTotal(Settle(SortByZ(bricks), None, |bricks|), |bricks|)
  {
    var wall := new Wall(bricks);
    wall.SortZ();
    wall.DropAll();
    ghost var w := wall.bricks;
    r := 0;
    for i := 0 to |wall.bricks|
      invariant wall.bricks == w
      invariant r == FallsTotal(w, i)
    {
      var moved := Experiment(wall, i);
      r := r + moved;
    }
  }

  /** One term of part 2: a copy of the wall is dropped without brick i and compared with
      the original, which is left as it was. */
  method Experiment(wall: Wall, i: nat) returns (moved: nat)
    requires i < |wall.bricks|
    ensures moved == Falls(wall.bricks, i)
  {
    var experiment := new Wall(wall.bricks);
    experiment.DropAllIgnore(i);
    moved := experiment.CountDifferences(wall);
  }

  /** A sorted, dropped wall built from bricks standing at height 1 or more rests, so the
      two parts agree: part 2 counts at least one fall for every brick part 1 calls
      unsafe, and nothing at all exactly when every brick is safe. */
  lemma PartsAgree(bricks: seq<Brick>)
    requires Grounded(bricks)
    ensures var w := Settle(SortByZ(bricks), None, |bricks|);
            FallsTotal(w, |w|) >= |w| - SafeCount(w, |w|) &&
            (FallsTotal(w, |w|) == 0 <==> SafeCount(w, |w|) == |w|)
  {
    var sorted := SortByZ(bricks);
    forall j | 0 <= j < |sorted| ensures sorted[j].z0 >= 1 {
      assert sorted[j] in multiset(bricks);
    }
    SettledRests(sorted);
    FallsAtLeast(Settle(sorted, None, |bricks|), |bricks|);
  }

  /** Every piece of a comma-separated list as a decimal integer. */
  function ParseNumbers(pieces: seq<string>): (r: Option<seq<int>>)
    ensures r.Some? ==> |r.value| == |pieces| &&
                        forall k :: 0 <= k < |pieces| ==> ParseRadix(pieces[k], 10) == Some(r.value[k])
    ensures r.None? ==> exists k :: 0 <= k < |pieces| && ParseRadix(pieces[k], 10).None?
  {
    if pieces == [] then Some([])
    else
      match (ParseRadix(pieces[0], 10), ParseNumbers(pieces[1..]))
      case (Some(v), Some(rest)) =>
        assert forall k :: 1 <= k < |pieces| ==> pieces[k] == pieces[1..][k - 1];
        Some([v] + rest)
      case (None, _) => None
      case (_, None) =>
        var k :| 0 <= k < |pieces[1..]| && ParseRadix(pieces[1..][k], 10).None?;
        assert pieces[k + 1] == pieces[1..][k];
        None
  }

  /** One corner: at least three numbers, of which the first three are used. */
  function Corner(s: string): Option<(int, int, int)>
  {
    match ParseNumbers(Split(s, ','))
    case None => None
    case Some(ns) => if |ns| < 3 then None else Some((ns[0], ns[1], ns[2]))
  }

  /** One line `x0,y0,z0~x1,y1,z1`; the source panics where this is None. */
  function ParseBrick(line: string): Option<Brick>
  {
    match SplitOnce(line, '~')
    case None => None
    case Some((start, end)) =>
      match (Corner(start), Corner(end))
      case (Some(p), Some(q)) => Some(Brick(p.0, p.1, p.2, q.0, q.1, q.2))
      case _ => None
  }

  /** `parse`: every line a brick. */
  function ParseWall(lines: seq<string>): (r: Option<seq<Brick>>)
    ensures r.Some? ==> |r.value| == |lines| &&
                        forall k :: 0 <= k < |lines| ==> ParseBrick(lines[k]) == Some(r.value[k])
    ensures r.None? ==> exists k :: 0 <= k < |lines| && ParseBrick(lines[k]).None?
  {
    if lines == [] then Some([])
    else
      var b, rest := ParseBrick(lines[0]), ParseWall(lines[1..]);
      if b.None? then None
      else if rest.None? then
        var k :| 0 <= k < |lines[1..]| && ParseBrick(lines[1..][k]).None?;
        assert lines[k + 1] == lines[1..][k];
        None
      else
        ConsParsed(ParseBrick, lines, b.value, rest.value);
        Some([b.value] + rest.value)
  }

  /** A parsed first line in front of the parsed rest parses the whole list, whatever
      `parse` reads a line with. */
  lemma ConsParsed(parse: string -> Option<Brick>, lines: seq<string>, b: Brick, rest: seq<Brick>)
    requires lines != [] && parse(lines[0]) == Some(b) && |rest| == |lines| - 1
    requires forall k :: 0 <= k < |rest| ==> parse(lines[1..][k]) == Some(rest[k])
    ensures forall k :: 0 <= k < |lines| ==> parse(lines[k]) == Some(([b] + rest)[k])
  {
    forall k | 0 < k < |lines|
      ensures parse(lines[k]) == Some(([b] + rest)[k])
    {
      assert lines[k] == lines[1..][k - 1];
    }
  }

  function ShowCorner(x: int, y: int, z: int): string
  {
    Join([Signed(x, 10), Signed(y, 10), Signed(z, 10)], ',')
  }

  function ShowBrick(b: Brick): string
  {
    ShowCorner(b.x0, b.y0, b.z0) + ['~'] + ShowCorner(b.x1, b.y1, b.z1)
  }

  lemma CornerReads(x: int, y: int, z: int)
    ensures Corner(ShowCorner(x, y, z)) == Some((x, y, z))
    ensures '~' !in ShowCorner(x, y, z)
  {
    CornerSplits(x, y, z);
    CornerNoTilde(x, y, z);
    var pieces := [Signed(x, 10), Signed(y, 10), Signed(z, 10)];
    SignedReads(x, 10); SignedReads(y, 10); SignedReads(z, 10);
    assert forall k :: 0 <= k < 3 ==> ParseRadix(pieces[k], 10).Some?;
    var ns := ParseNumbers(pieces);
    assert ns.Some?;
    assert ParseRadix(pieces[0], 10) == Some(ns.value[0]);
    assert ParseRadix(pieces[1], 10) == Some(ns.value[1]);
    assert ParseRadix(pieces[2], 10) == Some(ns.value[2]);
  }

  /** Splitting a written corner at its commas gives back the three numerals. */
  lemma CornerSplits(x: int, y: int, z: int)
    ensures Split(ShowCorner(x, y, z), ',') == [Signed(x, 10), Signed(y, 10), Signed(z, 10)]
  {
    var pieces := [Signed(x, 10), Signed(y, 10), Signed(z, 10)];
    SignedOmits(x, 10, ','); SignedOmits(y, 10, ','); SignedOmits(z, 10, ',');
    SplitJoin(pieces, ',');
  }

  /** A written corner holds no `~`, so the brick separator is found after it. */
  lemma CornerNoTilde(x: int, y: int, z: int)
    ensures '~' !in ShowCorner(x, y, z)
  {
    SignedOmits(x, 10, '~'); SignedOmits(y, 10, '~'); SignedOmits(z, 10, '~');
    JoinThree(Signed(x, 10), Signed(y, 10), Signed(z, 10), ',');
  }

  lemma JoinThree(a: string, b: string, c: string, sep: char)
    ensures Join([a, b, c], sep) == a + [sep] + b + [sep] + c
  {
    assert [a, b, c][..2] == [a, b];
    assert Join([a, b, c], sep) == Join([a, b], sep) + [sep] + c;
    assert [a, b][..1] == [a];
    assert Join([a, b], sep) == Join([a], sep) + [sep] + b;
  }

  /** Every brick written out as a line reads back as itself. */
  lemma BrickReads(b: Brick)
    ensures ParseBrick(ShowBrick(b)) == Some(b)
  {
    CornerReads(b.x0, b.y0, b.z0);
    CornerReads(b.x1, b.y1, b.z1);
    SplitOnceAt(ShowCorner(b.x0, b.y0, b.z0), '~', ShowCorner(b.x1, b.y1, b.z1));
  }

  /** Part 1: the number of bricks that can be removed without another one falling; None
      where the source panics on a malformed line. */
  method Solve1(lines: seq<string>) returns (r: Option<nat>)
    ensures r.None? <==> ParseWall(lines).None?
    ensures r.Some? ==> var bs := ParseWall(lines).value;
                        r.value == SafeCount(Settle(SortByZ(bs), None, |bs|), |bs|)
  {
    match ParseWall(lines)
    case None =>
      r := None;
    case Some(bs) =>
      var n := SafeBricks(bs);
      r := Some(n);
  }

  /** Part 2: the number of bricks that would fall, summed over every brick removed. */
  method Solve2(lines: seq<string>) returns (r: Option<nat>)
    ensures r.None? <==> ParseWall(lines).None?
    ensures r.Some? ==> var bs := ParseWall(lines).value;
                        r.value == FallsTotal(Settle(SortByZ(bs), None, |bs|), |bs|)
  {
    match ParseWall(lines)
    case None =>
      r := None;
    case Some(bs) =>
      var n := ChainReaction(bs);
      r := Some(n);
  }
}
