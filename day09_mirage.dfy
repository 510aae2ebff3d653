/** Day 9 part 2: extrapolating a history backwards. The row of adjacent differences is
    taken again and again until a row is all zeros; walking back up, each row's new leftmost
    value is its first value minus the new leftmost value of the row below. The source
    assumes a zero row is reached before the rows run out of elements; otherwise
    `diff.first().unwrap()` panics, which is `None` here. Integers are unbounded here. */
module Day09Mirage {
  import opened Wrappers

  predicate AllZero(s: seq<int>)
  {
    forall i :: 0 <= i < |s| ==> s[i] == 0
  }

  /** The row of adjacent differences, one element shorter. */
  function Diffs(s: seq<int>): (d: seq<int>)
    ensures |d| == if s == [] then 0 else |s| - 1
  {
    if |s| < 2 then [] else [s[1] - s[0]] + Diffs(s[1..])
  }

  /** Each difference is the later value minus the earlier one. */
  lemma {:induction false} DiffsAt(s: seq<int>, i: int)
    requires 0 <= i < |s| - 1
    ensures Diffs(s)[i] == s[i + 1] - s[i]
  {
    if i > 0 {
      DiffsAt(s[1..], i - 1);
    }
  }

  /** The push loop that builds `diff` from the pairs (nums[i], nums[i + 1]). */
  method BuildDiffs(nums: seq<int>) returns (diff: seq<int>)
    ensures diff == Diffs(nums)
  {
    diff := [];
    var i := 0;
    while i + 1 < |nums|
      invariant 0 <= i && (i <= |nums| - 1 || i == 0)
      invariant |diff| == i
      invariant forall j :: 0 <= j < i ==> diff[j] == nums[j + 1] - nums[j]
    {
      diff := diff + [nums[i + 1] - nums[i]];
      i := i + 1;
    }
    forall j | 0 <= j < |diff|
      ensures diff[j] == Diffs(nums)[j]
    {
      DiffsAt(nums, j);
    }
  }

  /** `predict_leftmost`. */
  function PredictLeftmost(nums: seq<int>): Option<int>
    decreases |nums|
  {
    if AllZero(nums) then Some(0)
    else
      var d := Diffs(nums);
      match PredictLeftmost(d)
      case None => None
      case Some(p) => if d == [] then None else Some(d[0] - p)
  }

  /** The k-th row of differences. */
  function Level(s: seq<int>, k: nat): seq<int>
    decreases k
  {
    if k == 0 then s else Level(Diffs(s), k - 1)
  }

  /** How many difference rows the recursion builds before it meets a zero row. */
  function Depth(nums: seq<int>): nat
    decreases |nums|
  {
    if AllZero(nums) || nums == [] then 0 else 1 + Depth(Diffs(nums))
  }

  lemma LevelStep(s: seq<int>, k: nat)
    ensures Level(s, k + 1) == Level(Diffs(s), k)
  {
  }

  /** Rows below a zero row are zero. */
  lemma {:induction false} ZeroStays(s: seq<int>, k: nat)
    requires AllZero(s)
    ensures AllZero(Level(s, k))
    decreases k
  {
    if k > 0 {
      forall i | 0 <= i < |Diffs(s)| ensures Diffs(s)[i] == 0 {
        DiffsAt(s, i);
      }
      ZeroStays(Diffs(s), k - 1);
    }
  }

  lemma {:induction false} LevelLength(s: seq<int>, k: nat)
    requires k <= |s|
    ensures |Level(s, k)| == |s| - k
    decreases k
  {
    if k > 0 {
      LevelLength(Diffs(s), k - 1);
    }
  }

  /** Prepending x to a non-empty row prepends s[0] - x to its differences. */
  lemma DiffsCons(x: int, s: seq<int>)
    requires s != []
    ensures Diffs([x] + s) == [s[0] - x] + Diffs(s)
  {
    var l := [x] + s;
    assert l[0] == x && l[1] == s[0] && l[1..] == s;
    assert Diffs(l) == [l[1] - l[0]] + Diffs(l[1..]);
  }

  /** The recursion succeeds exactly when the (|nums| - 1)-th row, a single value, is zero:
      that is, when a zero row comes before the rows run out of elements. */
  lemma {:induction false} PredictDefined(nums: seq<int>)
    requires nums != []
    ensures PredictLeftmost(nums).Some? <==> AllZero(Level(nums, |nums| - 1))
    decreases |nums|
  {
    if AllZero(nums) {
      ZeroStays(nums, |nums| - 1);
    } else if |nums| == 1 {
      assert Diffs(nums) == [];
    } else {
      var d := Diffs(nums);
      PredictDefined(d);
      LevelStep(nums, |d| - 1);
    }
  }

  /** The depth never exceeds the number of elements when the recursion succeeds. */
  lemma {:induction false} DepthBound(nums: seq<int>)
    requires PredictLeftmost(nums).Some?
    ensures Depth(nums) <= |nums|
    decreases |nums|
  {
    if !AllZero(nums) {
      DepthBound(Diffs(nums));
    }
  }

  /** The history with its extrapolated value in front. */
  function Extended(nums: seq<int>): seq<int>
    requires nums != [] && PredictLeftmost(nums).Some?
  {
    [nums[0] - PredictLeftmost(nums).value] + nums
  }

  /** The extrapolated value keeps the whole difference table consistent: the extended row
      reaches a zero row at the same depth as the history. */
  lemma {:induction false} ExtrapolationFits(nums: seq<int>)
    requires nums != [] && PredictLeftmost(nums).Some?
    ensures AllZero(Level(Extended(nums), Depth(nums)))
    decreases |nums|
  {
    if AllZero(nums) {
      assert Depth(nums) == 0 && PredictLeftmost(nums).value == 0;
      assert AllZero(Extended(nums));
    } else {
      ExtrapolationFits(Diffs(nums));
      FitsStep(nums);
    }
  }

  /** One level of the induction: extending a row extends its row of differences. */
  lemma FitsStep(nums: seq<int>)
    requires nums != [] && !AllZero(nums) && PredictLeftmost(nums).Some?
    requires Diffs(nums) != [] && PredictLeftmost(Diffs(nums)).Some?
    requires AllZero(Level(Extended(Diffs(nums)), Depth(Diffs(nums))))
    ensures AllZero(Level(Extended(nums), Depth(nums)))
  {
    ExtendedDiffs(nums);
    var k := Depth(Diffs(nums));
    assert Depth(nums) == k + 1;
    LevelStep(Extended(nums), k);
  }

  /** The differences of an extended history are the extended differences. */
  lemma ExtendedDiffs(nums: seq<int>)
    requires nums != [] && !AllZero(nums) && PredictLeftmost(nums).Some?
    requires Diffs(nums) != [] && PredictLeftmost(Diffs(nums)).Some?
    ensures Diffs(Extended(nums)) == Extended(Diffs(nums))
  {
    var d := Diffs(nums);
    var p := PredictLeftmost(nums).value;
    var first := nums[0] - p;
    var e := Extended(nums);
    assert e == [first] + nums;
    var q := PredictLeftmost(d).value;
    assert p == d[0] - q;
    var ed := Extended(d);
    assert ed == [p] + d;
    DiffsCons(first, nums);
    assert nums[0] - first == p;
  }

  /** Two rows that differ at most in their first value and both have a zero k-th row of
      differences, where that row is not empty, are the same row. */
  lemma {:induction false} ExtrapolationUnique(a: seq<int>, b: seq<int>, k: nat)
    requires |a| == |b| && k < |a| && a[1..] == b[1..]
    requires AllZero(Level(a, k)) && AllZero(Level(b, k))
    ensures a[0] == b[0]
    decreases k
  {
    if k == 0 {
      assert Level(a, k)[0] == 0 && Level(b, k)[0] == 0;
    } else {
      var da, db := Diffs(a), Diffs(b);
      LevelStep(a, k - 1);
      LevelStep(b, k - 1);
      assert da[1..] == Diffs(a[1..]) == Diffs(b[1..]) == db[1..];
      ExtrapolationUnique(da, db, k - 1);
      assert a[1] == b[1] by { assert a[1..][0] == b[1..][0]; }
    }
  }

  /** What the solver adds up for one history: the unique value that, put in front of it,
      keeps the difference table ending in a zero row at the same depth. */
  lemma PredictionMeaning(nums: seq<int>, y: int)
    requires nums != [] && PredictLeftmost(nums).Some?
    requires AllZero(Level([y] + nums, Depth(nums)))
    ensures y == nums[0] - PredictLeftmost(nums).value
  {
    var ex, ey, k := Extended(nums), [y] + nums, Depth(nums);
    ExtrapolationFits(nums);
    assert AllZero(Level(ex, k));
    DepthBound(nums);
    assert ey[1..] == nums == ex[1..];
    ExtrapolationUnique(ey, ex, k);
  }

  /** A single non-zero value leaves an empty difference row: the source panics. */
  lemma SingleValuePanics(v: int)
    requires v != 0
    ensures PredictLeftmost([v]) == None
  {
    assert !AllZero([v]) by { assert [v][0] != 0; }
    assert Diffs([v]) == [];
    assert PredictLeftmost([]) == Some(0);
  }

  /** `solve`: the sum over histories of nums[0] - predict_leftmost(nums); an empty history
      or a failed prediction panics. */
  function Solve(histories: seq<seq<int>>): Option<int>
  {
    if histories == [] then Some(0)
    else
      var h := histories[|histories| - 1];
      match (Solve(histories[..|histories| - 1]), PredictLeftmost(h))
      case (Some(total), Some(p)) => if h == [] then None else Some(total + (h[0] - p))
      case _ => None
  }

  /** A history the recursion can extrapolate: non-empty, and a zero row comes before the
      rows run out of elements. */
  predicate Extrapolable(h: seq<int>)
  {
    h != [] && AllZero(Level(h, |h| - 1))
  }

  /** The solver succeeds exactly when every history is extrapolable. */
  lemma {:induction false} SolveDefined(histories: seq<seq<int>>)
    ensures Solve(histories).Some? <==> forall i :: 0 <= i < |histories| ==> Extrapolable(histories[i])
  {
    if histories != [] {
      var front := histories[..|histories| - 1];
      var h := histories[|histories| - 1];
      SolveDefined(front);
      if h != [] {
        PredictDefined(h);
      }
      assert Solve(histories).Some? <==> Solve(front).Some? && Extrapolable(h);
      assert (forall i :: 0 <= i < |histories| ==> Extrapolable(histories[i])) <==>
        (forall i :: 0 <= i < |front| ==> Extrapolable(front[i])) && Extrapolable(h)
      by {
        assert forall i :: 0 <= i < |front| ==> front[i] == histories[i];
      }
    }
  }
}
