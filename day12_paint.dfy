/** Day 12 part 1: backtracking over the start positions of each group. A buffer starts as
    a copy of the row; each group in turn is painted damaged at a position where the row has
    no operational spring under it, the next group is tried from one cell past the gap, and
    the paint is then washed off again. When every group is placed, the arrangement counts
    if the runs of damaged springs in the buffer are exactly the groups (unpainted unknown
    springs end runs as operational ones do). */
module Day12Paint {
  import opened Wrappers
  import opened Day12Arrangements

  /** The offset of the first operational spring in s, if any. */
  function FirstOpr(s: seq<Block>): (r: Option<nat>)
    ensures r.Some? ==> r.value < |s| && s[r.value] == Opr && Opr !in s[..r.value]
    ensures r.None? ==> Opr !in s
  {
    if s == [] then None
    else if s[0] == Opr then Some(0)
    else
      match FirstOpr(s[1..])
      case None => None
      case Some(k) =>
        assert s[..k + 1] == [s[0]] + s[1..][..k];
        Some(k + 1)
  }

  /** Groups from `level` on each fit in the row. */
  predicate Fits(blocks: seq<Block>, truths: seq<nat>, level: nat)
  {
    forall k :: level <= k < |truths| ==> truths[k] <= |blocks|
  }

  /** The buffer with cells i .. i + n - 1 painted damaged. */
  function Paint(buf: seq<Block>, i: nat, n: nat): (r: seq<Block>)
    requires i + n <= |buf|
    ensures |r| == |buf|
    ensures forall t :: 0 <= t < |buf| ==> r[t] == if i <= t < i + n then Dmg else buf[t]
  {
    buf[..i] + Dmgs(n) + buf[i + n..]
  }

  /** A group of n can be painted at i: the row has no operational spring under it. */
  predicate Free(blocks: seq<Block>, i: nat, n: nat)
    requires i + n <= |blocks|
  {
    Opr !in blocks[i..i + n]
  }

  /** The reference count: every start position from i on is tried one after another. */
  function Tries(blocks: seq<Block>, truths: seq<nat>, buf: seq<Block>, level: nat, i: nat): nat
    requires |buf| == |blocks| && level < |truths| && Fits(blocks, truths, level)
    decreases |truths| - level, 0, |blocks| + 1 - i
  {
    var n := truths[level];
    if i > |blocks| - n then 0
    else
      (if Free(blocks, i, n) then Count(blocks, truths, Paint(buf, i, n), level + 1, i + n + 1) else 0)
      + Tries(blocks, truths, buf, level, i + 1)
  }

  /** What `find_combinations` returns. */
  function Count(blocks: seq<Block>, truths: seq<nat>, buf: seq<Block>, level: nat, start: nat): nat
    requires |buf| == |blocks| && level <= |truths| && Fits(blocks, truths, level)
    decreases |truths| - level, 1, 0
  {
    if level == |truths| then (if Runs(buf) == truths then 1 else 0)
    else Tries(blocks, truths, buf, level, start)
  }

  /** A start position whose window holds an operational spring adds nothing. */
  lemma {:induction false} SkipBlocked(blocks: seq<Block>, truths: seq<nat>, buf: seq<Block>, level: nat, i: nat, k: nat,
                                       next: nat)
    requires |buf| == |blocks| && level < |truths| && Fits(blocks, truths, level)
    requires k < truths[level] && next == i + k + 1
    requires i + k < |blocks| && blocks[i + k] == Opr
    ensures Tries(blocks, truths, buf, level, i) == Tries(blocks, truths, buf, level, next)
    decreases k
  {
    var n := truths[level];
    if i <= |blocks| - n {
      assert !Free(blocks, i, n) by {
        assert blocks[i..i + n][k] == Opr;
      }
    }
    if k > 0 {
      SkipBlocked(blocks, truths, buf, level, i + 1, k - 1, next);
    }
  }

  /** One free start position: its own count plus the ones after it. */
  lemma TriesFree(blocks: seq<Block>, truths: seq<nat>, buf: seq<Block>, level: nat, i: nat)
    requires |buf| == |blocks| && level < |truths| && Fits(blocks, truths, level)
    requires i + truths[level] <= |blocks| && Free(blocks, i, truths[level])
    ensures Fits(blocks, truths, level + 1)
    ensures Tries(blocks, truths, buf, level, i) ==
      Count(blocks, truths, Paint(buf, i, truths[level]), level + 1, i + truths[level] + 1) +
      Tries(blocks, truths, buf, level, i + 1)
  {
  }

  /** Painting cells that the recursion will wash again. */
  lemma PaintRestores(buf: seq<Block>, blocks: seq<Block>, i: nat, n: nat)
    requires |buf| == |blocks| && i + n <= |blocks|
    requires forall j :: i <= j < i + n ==> buf[j] == blocks[j]
    ensures Paint(buf, i, n)[..i] + blocks[i..i + n] + Paint(buf, i, n)[i + n..] == buf
  {
    assert buf == buf[..i] + buf[i..i + n] + buf[i + n..];
    assert buf[i..i + n] == blocks[i..i + n];
  }

  /** The painting loop: cells i .. i + n - 1 become damaged. */
  method PaintGroup(buffer: array<Block>, i: nat, n: nat)
    requires i + n <= buffer.Length
    modifies buffer
    ensures buffer[..] == Paint(old(buffer[..]), i, n)
  {
    ghost var buf := buffer[..];
    for j := i to i + n
      invariant forall t :: 0 <= t < buffer.Length ==> buffer[t] == if i <= t < j then Dmg else buf[t]
    {
      buffer[j] := Dmg;
    }
    assert buffer[..] == Paint(buf, i, n);
  }

  /** The restoring loop: cells i .. i + n - 1 are copied back from the row. */
  method WashGroup(buffer: array<Block>, blocks: seq<Block>, i: nat, n: nat)
    requires buffer.Length == |blocks| && i + n <= buffer.Length
    modifies buffer
    ensures buffer[..] == old(buffer[..])[..i] + blocks[i..i + n] + old(buffer[..])[i + n..]
  {
    ghost var painted := buffer[..];
    for j := i to i + n
      invariant forall t :: 0 <= t < buffer.Length ==> buffer[t] == if i <= t < j then blocks[t] else painted[t]
    {
      buffer[j] := blocks[j];
    }
    ghost var want := painted[..i] + blocks[i..i + n] + painted[i + n..];
    assert forall t :: 0 <= t < buffer.Length ==> want[t] == if i <= t < i + n then blocks[t] else painted[t];
    assert buffer[..] == want;
  }

  /** After painting at i, the cells past the gap are still unpainted. */
  lemma PaintLeavesRest(buf: seq<Block>, blocks: seq<Block>, start: nat, i: nat, n: nat)
    requires |buf| == |blocks| && start <= i && i + n <= |blocks|
    requires forall j :: start <= j < |blocks| ==> buf[j] == blocks[j]
    ensures forall j :: i + n + 1 <= j < |blocks| ==> Paint(buf, i, n)[j] == blocks[j]
  {
    forall j | i + n + 1 <= j < |blocks| ensures Paint(buf, i, n)[j] == blocks[j] {
      assert Paint(buf, i, n)[j] == buf[i + n..][j - i - n];
    }
  }

  /** `find_combinations`: the count is the reference count, and every cell painted is
      restored, so the buffer is handed back as it was found. */
  method FindCombinations(blocks: seq<Block>, truths: seq<nat>, buffer: array<Block>, level: nat, start: nat)
    returns (total: nat)
    requires buffer.Length == |blocks| && level <= |truths| && Fits(blocks, truths, level)
    requires forall j :: start <= j < |blocks| ==> buffer[j] == blocks[j]
    modifies buffer
    ensures buffer[..] == old(buffer[..])
    ensures total == Count(blocks, truths, old(buffer[..]), level, start)
    decreases |truths| - level, 3
  {
    if level == |truths| {
      var matches := Runs(buffer[..]) == truths;
      total := if matches then 1 else 0;
      return;
    }
    total := TryPositions(blocks, truths, buffer, level, start);
  }

  /** The `while` loop over the start positions of group `level`. */
  method TryPositions(blocks: seq<Block>, truths: seq<nat>, buffer: array<Block>, level: nat, start: nat)
    returns (total: nat)
    requires buffer.Length == |blocks| && level < |truths| && Fits(blocks, truths, level)
    requires forall j :: start <= j < |blocks| ==> buffer[j] == blocks[j]
    modifies buffer
    ensures buffer[..] == old(buffer[..])
    ensures total == Tries(blocks, truths, old(buffer[..]), level, start)
    decreases |truths| - level, 2
  {
    ghost var buf := buffer[..];
    total := 0;
    var n := truths[level];
    var i := start;
    var last := |blocks| - n;
    ghost var target := Tries(blocks, truths, buf, level, start);
    while i <= last
      invariant start <= i
      invariant buffer[..] == buf
      invariant forall j :: start <= j < |blocks| ==> buf[j] == blocks[j]
      invariant total + Tries(blocks, truths, buf, level, i) == target
      decreases |blocks| + 1 - i
    {
      var sub, next := TryAt(blocks, truths, buffer, level, start, i);
      total := total + sub;
      i := next;
    }
  }

  /** One iteration of the loop over start positions: a window holding an operational
      spring is jumped past, a free one is counted. */
  method TryAt(blocks: seq<Block>, truths: seq<nat>, buffer: array<Block>, level: nat, start: nat, i: nat)
    returns (sub: nat, next: nat)
    requires buffer.Length == |blocks| && level < |truths| && Fits(blocks, truths, level)
    requires start <= i <= |blocks| - truths[level]
    requires forall j :: start <= j < |blocks| ==> buffer[j] == blocks[j]
    modifies buffer
    ensures buffer[..] == old(buffer[..]) && i < next
    ensures Tries(blocks, truths, old(buffer[..]), level, i) == sub + Tries(blocks, truths, old(buffer[..]), level, next)
    decreases |truths| - level, 1
  {
    var n := truths[level];
    ghost var buf := buffer[..];
    var found := FirstOpr(blocks[i..i + n]);
    if found.Some? {
      var k := found.value;
      assert blocks[i + k] == blocks[i..i + n][k];
      sub, next := 0, i + k + 1;
      SkipBlocked(blocks, truths, buf, level, i, k, next);
    } else {
      TriesFree(blocks, truths, buf, level, i);
      sub := PaintAndRecurse(blocks, truths, buffer, level, start, i);
      next := i + 1;
    }
  }

  /** The loop body for a free position: paint, count the placements of the later groups,
      wash the paint off. */
  method PaintAndRecurse(blocks: seq<Block>, truths: seq<nat>, buffer: array<Block>, level: nat, start: nat, i: nat)
    returns (sub: nat)
    requires buffer.Length == |blocks| && level < |truths| && Fits(blocks, truths, level)
    requires start <= i && i + truths[level] <= |blocks|
    requires forall j :: start <= j < |blocks| ==> buffer[j] == blocks[j]
    modifies buffer
    ensures Fits(blocks, truths, level + 1)
    ensures buffer[..] == old(buffer[..])
    ensures sub == Count(blocks, truths, Paint(old(buffer[..]), i, truths[level]), level + 1, i + truths[level] + 1)
    decreases |truths| - level, 0
  {
    var n := truths[level];
    ghost var buf := buffer[..];
    PaintGroup(buffer, i, n);
    PaintLeavesRest(buf, blocks, start, i, n);
    sub := FindCombinations(blocks, truths, buffer, level + 1, i + n + 1);
    WashGroup(buffer, blocks, i, n);
    PaintRestores(buf, blocks, i, n);
  }

  /** `solve`: each row is counted with a fresh buffer copied from it. */
  method Solve(rows: seq<(seq<Block>, seq<nat>)>) returns (total: nat)
    requires forall r :: 0 <= r < |rows| ==> Fits(rows[r].0, rows[r].1, 0)
    ensures total == Sum(rows)
  {
    total := 0;
    for r := 0 to |rows|
      invariant total == Sum(rows[..r])
    {
      var blocks := rows[r].0;
      var buffer := new Block[|blocks|](j requires 0 <= j < |blocks| => blocks[j]);
      assert buffer[..] == blocks;
      var n := FindCombinations(blocks, rows[r].1, buffer, 0, 0);
      assert rows[..r + 1][..r] == rows[..r];
      total := total + n;
    }
    assert rows[..|rows|] == rows;
  }

  function Sum(rows: seq<(seq<Block>, seq<nat>)>): nat
    requires forall r :: 0 <= r < |rows| ==> Fits(rows[r].0, rows[r].1, 0)
  {
    if rows == [] then 0
    else
      var q := rows[|rows| - 1];
      Sum(rows[..|rows| - 1]) + Count(q.0, q.1, q.0, 0, 0)
  }
}
