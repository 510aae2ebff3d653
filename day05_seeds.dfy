/** Day 5 part 2: seed ranges sent through a pipeline of almanac maps. A seed range and a
    mapper are closed intervals (a mapper "dest source len" covers source..source+len-1 and
    dest..dest+len-1). A block sends a number through the FIRST mapper whose source interval
    holds it and leaves it unchanged otherwise; the inverse scans the block's mappers from
    the LAST one over their destination intervals. The answer is the lowest location reached
    by a seed: only "interesting points" are pushed through the pipeline, and each candidate
    location is kept when its pulled-back seed lies in a seed range. Machine integers are
    unbounded here. */
module Day05Seeds {
  import opened Wrappers

  datatype Seed = Seed(start: int, end: int)

  datatype Mapper = Mapper(sourceStart: int, sourceEnd: int, destStart: int, destEnd: int)

  type Block = seq<Mapper>

  /** The starting value of `minimum_location`. */
  const Sentinel: int := 999999999999999

  // ---------------------------------------------------------------- parsing

  /** One line "dest source len" of a map block; the source reads the first three numbers
      and panics when a line has fewer. */
  function ParseMapper(line: seq<int>): (r: Option<Mapper>)
    ensures r.Some? <==> |line| >= 3
    ensures r.Some? ==> r.value.sourceEnd - r.value.sourceStart == r.value.destEnd - r.value.destStart == line[2] - 1
    ensures r.Some? ==> forall x :: InSource(r.value, x) <==> line[1] <= x < line[1] + line[2]
    ensures r.Some? ==> forall y :: InDest(r.value, y) <==> line[0] <= y < line[0] + line[2]
  {
    if |line| < 3 then None
    else Some(Mapper(line[1], line[1] + line[2] - 1, line[0], line[0] + line[2] - 1))
  }

  /** A block's mapper lines, in order. */
  function ParseBlock(lines: seq<seq<int>>): (r: Option<Block>)
    ensures r.Some? <==> forall i :: 0 <= i < |lines| ==> |lines[i]| >= 3
    ensures r.Some? ==> |r.value| == |lines| && forall i :: 0 <= i < |lines| ==> Some(r.value[i]) == ParseMapper(lines[i])
  {
    if lines == [] then Some([])
    else
      match (ParseMapper(lines[0]), ParseBlock(lines[1..]))
      case (Some(m), Some(rest)) => Some([m] + rest)
      case _ => None
  }

  /** `parse_mapper`: the blocks after the seed line, each given as its number lines (the
      header line of a block is already dropped). */
  function ParsePipeline(blocks: seq<seq<seq<int>>>): (r: Option<seq<Block>>)
    ensures r.Some? <==> forall i :: 0 <= i < |blocks| ==> ParseBlock(blocks[i]).Some?
    ensures r.Some? ==> |r.value| == |blocks| && forall i :: 0 <= i < |blocks| ==> Some(r.value[i]) == ParseBlock(blocks[i])
  {
    if blocks == [] then Some([])
    else
      match (ParseBlock(blocks[0]), ParsePipeline(blocks[1..]))
      case (Some(b), Some(rest)) => Some([b] + rest)
      case _ => None
  }

  /** `parse_seed`: the numbers after "seeds:" taken in pairs (start, length); an odd count
      leaves a one-number chunk whose `chunk[1]` panics. */
  function ParseSeeds(nums: seq<int>): (r: Option<seq<Seed>>)
    ensures r.Some? <==> |nums| % 2 == 0
    ensures r.Some? ==> |r.value| == |nums| / 2
    ensures r.Some? ==> forall k :: 0 <= k < |r.value| ==>
      r.value[k] == Seed(nums[2 * k], nums[2 * k] + nums[2 * k + 1] - 1)
    decreases |nums|
  {
    if nums == [] then Some([])
    else if |nums| == 1 then None
    else
      match ParseSeeds(nums[2..])
      case Some(rest) => Some([Seed(nums[0], nums[0] + nums[1] - 1)] + rest)
      case None => None
  }

  // ---------------------------------------------------------------- seeds

  predicate IsValidSeed(seeds: seq<Seed>, x: int)
  {
    exists k :: 0 <= k < |seeds| && seeds[k].start <= x <= seeds[k].end
  }

  /** `is_valid_seed`. */
  method CheckSeed(seeds: seq<Seed>, x: int) returns (b: bool)
    ensures b <==> IsValidSeed(seeds, x)
  {
    for k := 0 to |seeds|
      invariant forall j :: 0 <= j < k ==> !(seeds[j].start <= x <= seeds[j].end)
    {
      if seeds[k].start <= x && x <= seeds[k].end {
        return true;
      }
    }
    return false;
  }

  /** The seed block's interesting points: both ends of every range. */
  function SeedPoints(seeds: seq<Seed>): set<int>
  {
    (set k | 0 <= k < |seeds| :: seeds[k].start) + (set k | 0 <= k < |seeds| :: seeds[k].end)
  }

  // ---------------------------------------------------------------- one block

  predicate InSource(m: Mapper, x: int)
  {
    m.sourceStart <= x <= m.sourceEnd
  }

  predicate InDest(m: Mapper, y: int)
  {
    m.destStart <= y <= m.destEnd
  }

  /** `remap`: the first mapper whose source interval holds `x` shifts it into its
      destination interval; with no such mapper `x` is unchanged. */
  function Remap(b: Block, x: int): int
  {
    if b == [] then x
    else if InSource(b[0], x) then b[0].destStart + (x - b[0].sourceStart)
    else Remap(b[1..], x)
  }

  /** `inverse_remap`: the last mapper whose destination interval holds `y` shifts it back
      into its source interval; with no such mapper `y` is unchanged. */
  function InverseRemap(b: Block, y: int): int
  {
    if b == [] then y
    else if InDest(b[|b| - 1], y) then b[|b| - 1].sourceStart + (y - b[|b| - 1].destStart)
    else InverseRemap(b[..|b| - 1], y)
  }

  /** `remap` shifts by the first mapper holding `x`... */
  lemma {:induction false} RemapFirst(b: Block, x: int, k: int)
    requires 0 <= k < |b| && InSource(b[k], x)
    requires forall j :: 0 <= j < k ==> !InSource(b[j], x)
    ensures Remap(b, x) == b[k].destStart + (x - b[k].sourceStart)
  {
    if k > 0 {
      assert !InSource(b[0], x);
      assert forall j :: 0 <= j < k - 1 ==> b[1..][j] == b[j + 1];
      RemapFirst(b[1..], x, k - 1);
    }
  }

  /** ...and leaves `x` alone when no mapper holds it. */
  lemma {:induction false} RemapNone(b: Block, x: int)
    requires forall k :: 0 <= k < |b| ==> !InSource(b[k], x)
    ensures Remap(b, x) == x
  {
    if b != [] {
      assert !InSource(b[0], x);
      assert forall j :: 0 <= j < |b| - 1 ==> b[1..][j] == b[j + 1];
      RemapNone(b[1..], x);
    }
  }

  /** `inverse_remap` shifts back by the last mapper whose destination holds `y`... */
  lemma {:induction false} InverseRemapLast(b: Block, y: int, k: int)
    requires 0 <= k < |b| && InDest(b[k], y)
    requires forall j :: k < j < |b| ==> !InDest(b[j], y)
    ensures InverseRemap(b, y) == b[k].sourceStart + (y - b[k].destStart)
  {
    if k < |b| - 1 {
      assert !InDest(b[|b| - 1], y);
      InverseRemapLast(b[..|b| - 1], y, k);
    }
  }

  /** ...and leaves `y` alone when no destination holds it. */
  lemma {:induction false} InverseRemapNone(b: Block, y: int)
    requires forall k :: 0 <= k < |b| ==> !InDest(b[k], y)
    ensures InverseRemap(b, y) == y
  {
    if b != [] {
      assert !InDest(b[|b| - 1], y);
      InverseRemapNone(b[..|b| - 1], y);
    }
  }

  /** `MapperBlock::remap` as the loop it is. */
  method RemapLoop(b: Block, x: int) returns (y: int)
    ensures y == Remap(b, x)
  {
    for k := 0 to |b|
      invariant forall j :: 0 <= j < k ==> !InSource(b[j], x)
    {
      if b[k].sourceStart <= x && x <= b[k].sourceEnd {
        RemapFirst(b, x, k);
        return b[k].destStart + (x - b[k].sourceStart);
      }
    }
    RemapNone(b, x);
    return x;
  }

  /** `MapperBlock::inverse_remap`, scanning the mappers in reverse. */
  method InverseRemapLoop(b: Block, y: int) returns (x: int)
    ensures x == InverseRemap(b, y)
  {
    var k := |b|;
    while k > 0
      invariant 0 <= k <= |b|
      invariant forall j :: k <= j < |b| ==> !InDest(b[j], y)
    {
      k := k - 1;
      if b[k].destStart <= y && y <= b[k].destEnd {
        InverseRemapLast(b, y, k);
        return b[k].sourceStart + (y - b[k].destStart);
      }
    }
    InverseRemapNone(b, y);
    return y;
  }

  /** A block whose mappers are length-preserving, have pairwise disjoint source intervals
      and pairwise disjoint destination intervals, and cover the same numbers on both
      sides: the shape of a permutation of the integers. */
  ghost predicate Invertible(b: Block)
  {
    (forall k :: 0 <= k < |b| ==> b[k].sourceEnd - b[k].sourceStart == b[k].destEnd - b[k].destStart) &&
    (forall j, k, x :: 0 <= j < k < |b| && InSource(b[j], x) ==> !InSource(b[k], x)) &&
    (forall j, k, y :: 0 <= j < k < |b| && InDest(b[j], y) ==> !InDest(b[k], y)) &&
    (forall x :: Moved(b, x) <==> Hit(b, x))
  }

  /** Some mapper of the block takes `x` from its source interval. */
  ghost predicate Moved(b: Block, x: int)
  {
    exists k :: 0 <= k < |b| && InSource(b[k], x)
  }

  /** Some mapper of the block sends a number to `y`. */
  ghost predicate Hit(b: Block, y: int)
  {
    exists k :: 0 <= k < |b| && InDest(b[k], y)
  }

  /** On such a block `inverse_remap` undoes `remap`... */
  lemma RemapRoundTrip(b: Block, x: int)
    requires Invertible(b)
    ensures InverseRemap(b, Remap(b, x)) == x
  {
    if k :| 0 <= k < |b| && InSource(b[k], x) {
      RemapFirst(b, x, k);
      var y := Remap(b, x);
      assert InDest(b[k], y);
      InverseRemapLast(b, y, k);
    } else {
      RemapNone(b, x);
      assert !Moved(b, x);
      assert !Hit(b, x);
      InverseRemapNone(b, x);
    }
  }

  /** ...and `remap` undoes `inverse_remap`. */
  lemma InverseRoundTrip(b: Block, y: int)
    requires Invertible(b)
    ensures Remap(b, InverseRemap(b, y)) == y
  {
    if k :| 0 <= k < |b| && InDest(b[k], y) {
      InverseRemapLast(b, y, k);
      var x := InverseRemap(b, y);
      assert InSource(b[k], x);
      RemapFirst(b, x, k);
    } else {
      InverseRemapNone(b, y);
      assert !Hit(b, y);
      assert !Moved(b, y);
      RemapNone(b, y);
    }
  }

  // ---------------------------------------------------------------- the pipeline

  /** `get_location`: the blocks applied in order. */
  function Location(blocks: seq<Block>, x: int): int
  {
    if blocks == [] then x else Location(blocks[1..], Remap(blocks[0], x))
  }

  /** `get_seed`: the inverses applied from the last block to the first. */
  function SeedOf(blocks: seq<Block>, y: int): int
  {
    if blocks == [] then y else SeedOf(blocks[..|blocks| - 1], InverseRemap(blocks[|blocks| - 1], y))
  }

  lemma {:induction false} LocationSnoc(blocks: seq<Block>, b: Block, x: int)
    ensures Location(blocks + [b], x) == Remap(b, Location(blocks, x))
  {
    if blocks != [] {
      assert (blocks + [b])[1..] == blocks[1..] + [b];
      LocationSnoc(blocks[1..], b, Remap(blocks[0], x));
    }
  }

  /** Through invertible blocks `get_seed` undoes `get_location`, and conversely. */
  lemma {:induction false} PipelineRoundTrip(blocks: seq<Block>, x: int)
    requires forall i :: 0 <= i < |blocks| ==> Invertible(blocks[i])
    ensures SeedOf(blocks, Location(blocks, x)) == x
    ensures Location(blocks, SeedOf(blocks, x)) == x
  {
    if blocks != [] {
      var front, last := blocks[..|blocks| - 1], blocks[|blocks| - 1];
      assert blocks == front + [last];
      LocationSnoc(front, last, x);
      RemapRoundTrip(last, Location(front, x));
      PipelineRoundTrip(front, x);
      var w := InverseRemap(last, x);
      PipelineRoundTrip(front, w);
      LocationSnoc(front, last, SeedOf(front, w));
      InverseRoundTrip(last, x);
    }
  }

  method LocationLoop(blocks: seq<Block>, x: int) returns (y: int)
    ensures y == Location(blocks, x)
  {
    y := x;
    for i := 0 to |blocks|
      invariant Location(blocks, x) == Location(blocks[i..], y)
    {
      assert blocks[i..][1..] == blocks[i + 1..];
      y := RemapLoop(blocks[i], y);
    }
  }

  method SeedLoop(blocks: seq<Block>, y: int) returns (x: int)
    ensures x == SeedOf(blocks, y)
  {
    x := y;
    var i := |blocks|;
    assert blocks[..i] == blocks;
    while i > 0
      invariant 0 <= i <= |blocks|
      invariant SeedOf(blocks, y) == SeedOf(blocks[..i], x)
    {
      assert blocks[..i][..i - 1] == blocks[..i - 1];
      x := InverseRemapLoop(blocks[i - 1], x);
      i := i - 1;
    }
    assert blocks[..0] == [];
  }

  // ---------------------------------------------------------------- interesting points

  /** A block's interesting points as the source collects them: both ends of every source
      interval. */
  function EdgePoints(b: Block): set<int>
  {
    (set k | 0 <= k < |b| :: b[k].sourceStart) + (set k | 0 <= k < |b| :: b[k].sourceEnd)
  }

  /** The points where `remap` may change its shift: the start of every source interval and
      the number just past its end. */
  function Breakpoints(b: Block): set<int>
  {
    (set k | 0 <= k < |b| :: b[k].sourceStart) + (set k | 0 <= k < |b| :: b[k].sourceEnd + 1)
  }

  function Points(b: Block, corrected: bool): set<int>
  {
    if corrected then Breakpoints(b) else EdgePoints(b)
  }

  function Image(b: Block, s: set<int>): set<int>
  {
    set x | x in s :: Remap(b, x)
  }

  /** `run`: before each block its points join the set, and the set is then sent through the
      block. `corrected` selects the breakpoints instead of the source's edge points. */
  function Candidates(blocks: seq<Block>, s: set<int>, corrected: bool): set<int>
  {
    if blocks == [] then s else Candidates(blocks[1..], Image(blocks[0], s + Points(blocks[0], corrected)), corrected)
  }

  method Run(blocks: seq<Block>, initial: set<int>, corrected: bool) returns (pts: set<int>)
    ensures pts == Candidates(blocks, initial, corrected)
  {
    pts := initial;
    for i := 0 to |blocks|
      invariant Candidates(blocks, initial, corrected) == Candidates(blocks[i..], pts, corrected)
    {
      assert blocks[i..][1..] == blocks[i + 1..];
      pts := pts + Points(blocks[i], corrected);
      pts := Image(blocks[i], pts);
    }
  }

  // ---------------------------------------------------------------- the minimum

  predicate Accepted(blocks: seq<Block>, seeds: seq<Seed>, c: int)
  {
    IsValidSeed(seeds, SeedOf(blocks, c))
  }

  /** `r` is the lowest accepted candidate, or the sentinel when it is lower or none is
      accepted. */
  predicate IsLowest(blocks: seq<Block>, seeds: seq<Seed>, cands: set<int>, r: int)
  {
    r <= Sentinel &&
    (r == Sentinel || (r in cands && Accepted(blocks, seeds, r))) &&
    (forall c :: c in cands && Accepted(blocks, seeds, c) ==> r <= c)
  }

  /** The final loop of `solve`, over the candidate set in any order. */
  method Lowest(blocks: seq<Block>, seeds: seq<Seed>, cands: set<int>) returns (r: int)
    ensures IsLowest(blocks, seeds, cands, r)
  {
    r := Sentinel;
    var rest := cands;
    while rest != {}
      invariant rest <= cands
      invariant IsLowest(blocks, seeds, cands - rest, r)
      decreases |rest|
    {
      if forall c :: c !in rest {
        assert false;
      }
      var c :| c in rest;
      var x := SeedLoop(blocks, c);
      var ok := CheckSeed(seeds, x);
      if ok && c < r {
        r := c;
      }
      rest := rest - {c};
    }
  }

  /** `solve` as written: the seed line's numbers and the map blocks' number lines in;
      `None` where parsing panics. */
  method Solve(seedNums: seq<int>, mapLines: seq<seq<seq<int>>>) returns (r: Option<int>)
    ensures r.None? <==> ParseSeeds(seedNums).None? || ParsePipeline(mapLines).None?
    ensures r.Some? ==> IsLowest(ParsePipeline(mapLines).value, ParseSeeds(seedNums).value,
      Candidates(ParsePipeline(mapLines).value, SeedPoints(ParseSeeds(seedNums).value), false), r.value)
  {
    var seeds := ParseSeeds(seedNums);
    var blocks := ParsePipeline(mapLines);
    if seeds.None? || blocks.None? {
      return None;
    }
    var pts := Run(blocks.value, SeedPoints(seeds.value), false);
    var low := Lowest(blocks.value, seeds.value, pts);
    return Some(low);
  }

  /** `solve` with the breakpoints in place of the edge points. */
  method SolveCorrected(seedNums: seq<int>, mapLines: seq<seq<seq<int>>>) returns (r: Option<int>)
    ensures r.None? <==> ParseSeeds(seedNums).None? || ParsePipeline(mapLines).None?
    ensures r.Some? ==> IsLowest(ParsePipeline(mapLines).value, ParseSeeds(seedNums).value,
      Candidates(ParsePipeline(mapLines).value, SeedPoints(ParseSeeds(seedNums).value), true), r.value)
  {
    var seeds := ParseSeeds(seedNums);
    var blocks := ParsePipeline(mapLines);
    if seeds.None? || blocks.None? {
      return None;
    }
    var pts := Run(blocks.value, SeedPoints(seeds.value), true);
    var low := Lowest(blocks.value, seeds.value, pts);
    return Some(low);
  }

  // ---------------------------------------------------------------- why the breakpoints suffice

  /** Between two numbers with no breakpoint in (q, t], every mapper holds both or neither,
      so `remap` shifts them alike. */
  lemma {:induction false} SameShift(b: Block, q: int, t: int)
    requires q <= t
    requires forall p :: p in Breakpoints(b) ==> !(q < p <= t)
    ensures Remap(b, t) - t == Remap(b, q) - q
  {
    if b != [] {
      assert b[0].sourceStart in Breakpoints(b) && b[0].sourceEnd + 1 in Breakpoints(b);
      if !InSource(b[0], q) && !InSource(b[0], t) {
        forall p | p in Breakpoints(b[1..])
          ensures p in Breakpoints(b)
        {
          var k, x :| 0 <= k < |b[1..]| && x in {b[1..][k].sourceStart, b[1..][k].sourceEnd + 1} && p == x;
          assert b[1..][k] == b[k + 1];
        }
        SameShift(b[1..], q, t);
      }
    }
  }

  /** A finite set holding a number `<= v` holds a largest such number. */
  lemma {:induction false} LargestBelow(s: set<int>, u: int, v: int) returns (q: int)
    requires u in s && u <= v
    ensures q in s && u <= q <= v
    ensures forall p :: p in s && p <= v ==> p <= q
    decreases v - u
  {
    if p :| p in s && u < p <= v {
      q := LargestBelow(s, p, v);
    } else {
      q := u;
    }
  }

  /** Every number between `q` and `v` shares `q`'s shift when no breakpoint lies in (q, v]. */
  lemma ShiftWithin(b: Block, q: int, w: int, v: int)
    requires q <= w <= v
    requires NoBreakIn(b, q, v)
    ensures Remap(b, w) - w == Remap(b, q) - q
  {
    SameShift(b, q, w);
  }

  /** No breakpoint of `b` lies in (q, v]. */
  predicate NoBreakIn(b: Block, q: int, v: int)
  {
    forall p :: p in Breakpoints(b) ==> !(q < p <= v)
  }

  /** One block of the argument below: the largest candidate-or-breakpoint `q` at or below
      `v` sends all of [q, v] through the block by one shift `d`, and `q + d` is a candidate
      after the block. */
  lemma OneBlock(b: Block, s: set<int>, u: int, v: int) returns (q: int, d: int)
    requires u in s && u <= v
    ensures u <= q <= v && q + d in Image(b, s + Breakpoints(b))
    ensures forall t :: q <= t <= v ==> Remap(b, t) == t + d
  {
    var s' := s + Breakpoints(b);
    q := LargestBelow(s', u, v);
    d := Remap(b, q) - q;
    assert Remap(b, q) in Image(b, s');
    assert NoBreakIn(b, q, v);
    forall t | q <= t <= v
      ensures Remap(b, t) == t + d
    {
      ShiftWithin(b, q, t, v);
    }
  }

  /** The heart of the method: if `u <= v` and `u` is already a candidate, then after the
      remaining blocks some `w` in [u, v] reaches a candidate location no higher than
      `v`'s. */
  lemma {:induction false} CandidateAtOrBelow(blocks: seq<Block>, s: set<int>, u: int, v: int) returns (w: int)
    requires u in s && u <= v
    ensures u <= w <= v
    ensures Location(blocks, w) in Candidates(blocks, s, true)
    ensures Location(blocks, w) <= Location(blocks, v)
  {
    if blocks == [] {
      w := u;
    } else {
      var b := blocks[0];
      var next := Image(b, s + Breakpoints(b));
      var q, d := OneBlock(b, s, u, v);
      var w' := CandidateAtOrBelow(blocks[1..], next, q + d, v + d);
      w := w' - d;
      assert Remap(b, w) == w' && Remap(b, v) == v + d;
      assert Candidates(blocks, s, true) == Candidates(blocks[1..], next, true);
    }
  }

  /** With invertible blocks and a sentinel above every seed's location, the corrected
      `solve` returns exactly the lowest location of a valid seed, and the sentinel when
      there is no valid seed. */
  lemma CorrectedIsLowestLocation(blocks: seq<Block>, seeds: seq<Seed>, r: int)
    requires forall i :: 0 <= i < |blocks| ==> Invertible(blocks[i])
    requires forall x :: IsValidSeed(seeds, x) ==> Location(blocks, x) < Sentinel
    requires IsLowest(blocks, seeds, Candidates(blocks, SeedPoints(seeds), true), r)
    ensures forall x :: IsValidSeed(seeds, x) ==> r <= Location(blocks, x)
    ensures r == Sentinel || exists x :: IsValidSeed(seeds, x) && r == Location(blocks, x)
    ensures (exists x :: IsValidSeed(seeds, x)) ==> r < Sentinel
  {
    forall x | IsValidSeed(seeds, x)
      ensures r <= Location(blocks, x)
    {
      var k :| 0 <= k < |seeds| && seeds[k].start <= x <= seeds[k].end;
      assert seeds[k].start in SeedPoints(seeds);
      var w := CandidateAtOrBelow(blocks, SeedPoints(seeds), seeds[k].start, x);
      PipelineRoundTrip(blocks, w);
      assert IsValidSeed(seeds, w);
    }
    if r != Sentinel {
      PipelineRoundTrip(blocks, r);
      assert IsValidSeed(seeds, SeedOf(blocks, r));
    }
    if x :| IsValidSeed(seeds, x) {
      assert r <= Location(blocks, x);
    }
  }

  // ---------------------------------------------------------------- the missed breakpoint

  /** A block swapping 0..9 and 20..29 (map lines "20 0 10" and "0 20 10"). */
  const SwapBlock: Block := [Mapper(0, 9, 20, 29), Mapper(20, 29, 0, 9)]

  /** The seed line "seeds: 5 11". */
  const SwapSeeds: seq<Seed> := [Seed(5, 15)]

  lemma SwapInvertible()
    ensures Invertible(SwapBlock)
  {
    var b := SwapBlock;
    forall x
      ensures Moved(b, x) <==> Hit(b, x)
    {
      if 0 <= x <= 9 {
        assert InSource(b[0], x) && InDest(b[1], x);
      } else if 20 <= x <= 29 {
        assert InSource(b[1], x) && InDest(b[0], x);
      }
    }
  }

  lemma SwapCandidates()
    ensures Candidates([SwapBlock], SeedPoints(SwapSeeds), false) == {25, 15, 20, 29, 0, 9}
  {
    var b := SwapBlock;
    assert SwapSeeds[0].start == 5 && SwapSeeds[0].end == 15;
    assert SeedPoints(SwapSeeds) == {5, 15};
    assert b[0].sourceStart == 0 && b[0].sourceEnd == 9 && b[1].sourceStart == 20 && b[1].sourceEnd == 29;
    assert EdgePoints(b) == {0, 9, 20, 29};
    assert Remap(b, 5) == 25 && Remap(b, 15) == 15 && Remap(b, 0) == 20;
    assert Remap(b, 9) == 29 && Remap(b, 20) == 0 && Remap(b, 29) == 9;
    assert Image(b, {5, 15, 0, 9, 20, 29}) == {25, 15, 20, 29, 0, 9};
    assert [b][1..] == [];
  }

  lemma SwapAccepted()
    ensures Accepted([SwapBlock], SwapSeeds, 15)
    ensures !Accepted([SwapBlock], SwapSeeds, 0) && !Accepted([SwapBlock], SwapSeeds, 9)
  {
    var b := SwapBlock;
    assert [b][..0] == [];
    InverseRemapNone(b, 15);
    InverseRemapLast(b, 0, 1);
    InverseRemapLast(b, 9, 1);
    assert SeedOf([b], 15) == 15;
    assert SeedOf([b], 0) == 20 && SeedOf([b], 9) == 29;
    assert |SwapSeeds| == 1 && SwapSeeds[0].start == 5 && SwapSeeds[0].end == 15;
  }

  /** Seeds 5..15 through the swap block: seed 10 lies just past the first source interval
      and stays at location 10, but the edge points never produce 10, and the answer as
      written is 15. */
  lemma AsWrittenMissesBreakpoint(r: int)
    requires IsLowest([SwapBlock], SwapSeeds, Candidates([SwapBlock], SeedPoints(SwapSeeds), false), r)
    ensures r == 15
    ensures Invertible(SwapBlock)
    ensures IsValidSeed(SwapSeeds, 10) && Location([SwapBlock], 10) == 10
  {
    SwapInvertible();
    SwapCandidates();
    SwapAccepted();
    PickFifteen(r);
    SwapTen();
  }

  lemma PickFifteen(r: int)
    requires IsLowest([SwapBlock], SwapSeeds, {25, 15, 20, 29, 0, 9}, r)
    requires Accepted([SwapBlock], SwapSeeds, 15)
    requires !Accepted([SwapBlock], SwapSeeds, 0) && !Accepted([SwapBlock], SwapSeeds, 9)
    ensures r == 15
  {
    assert r <= 15;
  }

  lemma SwapTen()
    ensures IsValidSeed(SwapSeeds, 10) && Location([SwapBlock], 10) == 10
  {
    assert [SwapBlock][1..] == [];
    assert Location([SwapBlock], 10) == 10;
    assert SwapSeeds[0].start <= 10 <= SwapSeeds[0].end;
  }
}
