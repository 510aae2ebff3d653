/** Day 12 part 2 (and its Python twin): counting the arrangements of damaged springs.
    A row holds operational ('.'), damaged ('#') and unknown ('?') springs, and the groups
    list the lengths of the runs of damaged springs from left to right. The count is a
    top-down recursion on the row: a leading '.' is skipped, a leading '#' must start the
    next group, and a leading '?' tries both. The memo table only caches results. */
module Day12Arrangements {
  import opened Wrappers

  datatype Block = Opr | Dmg | Unk

  /** n damaged springs in a row. */
  function Dmgs(n: nat): (r: seq<Block>)
    ensures |r| == n && forall i :: 0 <= i < n ==> r[i] == Dmg
  {
    seq(n, _ => Dmg)
  }

  /** The length of the run of damaged springs at the front of s. */
  function RunLength(s: seq<Block>): (r: nat)
    ensures r <= |s|
    ensures forall i :: 0 <= i < r ==> s[i] == Dmg
    ensures r < |s| ==> s[r] != Dmg
  {
    if s == [] || s[0] != Dmg then 0
    else
      var t := RunLength(s[1..]);
      assert forall i :: 1 <= i < 1 + t ==> s[i] == s[1..][i - 1];
      1 + t
  }

  /** The lengths of the maximal runs of damaged springs, left to right; an operational or
      an unknown cell ends a run. This is what grouping equal neighbours and keeping the
      damaged groups computes. */
  function Runs(s: seq<Block>): seq<nat>
    decreases |s|
  {
    if s == [] then []
    else if s[0] != Dmg then Runs(s[1..])
    else
      var r := RunLength(s);
      [r] + Runs(s[r..])
  }

  /** `skip`: drop the leading cell. */
  function SkipCount(data: seq<Block>, groups: seq<nat>): nat
    requires data != []
    decreases |data|, 0
  {
    Combinations(data[1..], groups)
  }

  /** `lay`: the first group covers the leading cells, and a following cell, if any, must
      be able to separate it from the next group. */
  function LayCount(data: seq<Block>, groups: seq<nat>): nat
    requires data != []
    decreases |data|, 0
  {
    if groups == [] then 0
    else
      var g := groups[0];
      if |data| < g then 0
      else if Opr in data[..g] then 0
      else if |data| == g then Combinations(data[g..], groups[1..])
      else if data[g] == Dmg then 0
      else Combinations(data[g + 1..], groups[1..])
  }

  /** `calculate_combinations` without its memo table. */
  function Combinations(data: seq<Block>, groups: seq<nat>): nat
    decreases |data|, 1
  {
    if data == [] then (if groups == [] then 1 else 0)
    else
      match data[0]
      case Opr => SkipCount(data, groups)
      case Dmg => LayCount(data, groups)
      case Unk => SkipCount(data, groups) + LayCount(data, groups)
  }

  /** c is a way of filling in the unknown springs of data. */
  predicate Completes(c: seq<Block>, data: seq<Block>)
  {
    |c| == |data| &&
    forall i :: 0 <= i < |c| ==> c[i] != Unk && (data[i] != Unk ==> c[i] == data[i])
  }

  predicate Positive(groups: seq<nat>)
  {
    forall k :: 0 <= k < |groups| ==> groups[k] >= 1
  }

  predicate NoDuplicates(l: seq<seq<Block>>)
  {
    forall i, j :: 0 <= i < j < |l| ==> l[i] != l[j]
  }

  /** p put in front of every row of l. */
  function Prefixed(p: seq<Block>, l: seq<seq<Block>>): (r: seq<seq<Block>>)
    ensures |r| == |l| && forall i :: 0 <= i < |l| ==> r[i] == p + l[i]
  {
    seq(|l|, i requires 0 <= i < |l| => p + l[i])
  }

  function SkipArrangements(data: seq<Block>, groups: seq<nat>): seq<seq<Block>>
    requires data != []
    decreases |data|, 0
  {
    Prefixed([Opr], Arrangements(data[1..], groups))
  }

  function LayArrangements(data: seq<Block>, groups: seq<nat>): seq<seq<Block>>
    requires data != []
    decreases |data|, 0
  {
    if groups == [] then []
    else
      var g := groups[0];
      if |data| < g then []
      else if Opr in data[..g] then []
      else if |data| == g then Prefixed(Dmgs(g), Arrangements(data[g..], groups[1..]))
      else if data[g] == Dmg then []
      else Prefixed(Dmgs(g) + [Opr], Arrangements(data[g + 1..], groups[1..]))
  }

  /** The filled-in rows the recursion counts, one per counted case. */
  function Arrangements(data: seq<Block>, groups: seq<nat>): seq<seq<Block>>
    decreases |data|, 1
  {
    if data == [] then (if groups == [] then [[]] else [])
    else
      match data[0]
      case Opr => SkipArrangements(data, groups)
      case Dmg => LayArrangements(data, groups)
      case Unk => SkipArrangements(data, groups) + LayArrangements(data, groups)
  }

  /** The recursion counts exactly the rows it builds. */
  lemma {:induction false} CountIsLength(data: seq<Block>, groups: seq<nat>)
    ensures Combinations(data, groups) == |Arrangements(data, groups)|
    decreases |data|
  {
    if data != [] {
      CountIsLength(data[1..], groups);
      if groups != [] {
        var g := groups[0];
        if g <= |data| && Opr !in data[..g] {
          if |data| == g {
            CountIsLength(data[g..], groups[1..]);
          } else if data[g] != Dmg {
            CountIsLength(data[g + 1..], groups[1..]);
          }
        }
      }
    }
  }

  lemma PrefixedMember(p: seq<Block>, l: seq<seq<Block>>, c: seq<Block>)
    requires c in Prefixed(p, l)
    ensures |p| <= |c| && c[..|p|] == p && c[|p|..] in l
  {
    var i :| 0 <= i < |l| && Prefixed(p, l)[i] == c;
    assert c == p + l[i];
    assert c[|p|..] == l[i];
  }

  lemma PrefixedHas(p: seq<Block>, l: seq<seq<Block>>, x: seq<Block>)
    requires x in l
    ensures p + x in Prefixed(p, l)
  {
    var i :| 0 <= i < |l| && l[i] == x;
    assert Prefixed(p, l)[i] == p + x;
  }

  lemma {:induction false} RunOfDmgs(g: nat, t: seq<Block>)
    requires t == [] || t[0] != Dmg
    ensures RunLength(Dmgs(g) + t) == g
    decreases g
  {
    if g > 0 {
      assert (Dmgs(g) + t)[1..] == Dmgs(g - 1) + t;
      RunOfDmgs(g - 1, t);
    } else {
      assert Dmgs(g) + t == t;
    }
  }

  /** A group of g >= 1 damaged springs, then something that does not continue it. */
  lemma RunsLay(g: nat, t: seq<Block>)
    requires g >= 1 && (t == [] || t[0] != Dmg)
    ensures Runs(Dmgs(g) + t) == [g] + Runs(t)
  {
    RunOfDmgs(g, t);
    assert (Dmgs(g) + t)[g..] == t;
  }

  lemma RunsSkip(t: seq<Block>)
    ensures Runs([Opr] + t) == Runs(t)
  {
    assert ([Opr] + t)[1..] == t;
  }

  lemma CompletesAppend(p: seq<Block>, x: seq<Block>, data: seq<Block>)
    requires |p| <= |data| && Completes(p, data[..|p|]) && Completes(x, data[|p|..])
    ensures Completes(p + x, data)
  {
    forall i | 0 <= i < |p + x|
      ensures (p + x)[i] != Unk && (data[i] != Unk ==> (p + x)[i] == data[i])
    {
      if i < |p| {
        assert data[..|p|][i] == data[i];
      } else {
        assert data[|p|..][i - |p|] == data[i];
      }
    }
  }

  lemma PositiveRest(groups: seq<nat>)
    requires groups != [] && Positive(groups)
    ensures Positive(groups[1..])
  {
    forall k | 0 <= k < |groups| - 1 ensures groups[1..][k] >= 1 {
      assert groups[1..][k] == groups[k + 1];
    }
  }

  /** Putting '.' in front of a filled-in rest over a leading '.' or '?'. */
  lemma SkipStep(data: seq<Block>, groups: seq<nat>, x: seq<Block>)
    requires data != [] && data[0] != Dmg && Completes(x, data[1..])
    ensures Completes([Opr] + x, data)
    ensures Runs(x) == groups ==> Runs([Opr] + x) == groups
  {
    CompletesAppend([Opr], x, data);
    RunsSkip(x);
  }

  /** Putting a group of g damaged springs and a '.' in front of a filled-in rest. */
  lemma LayStep(data: seq<Block>, g: nat, x: seq<Block>)
    requires g < |data| && Opr !in data[..g] && data[g] != Dmg && Completes(x, data[g + 1..])
    ensures Completes(Dmgs(g) + [Opr] + x, data)
    ensures g >= 1 ==> Runs(Dmgs(g) + [Opr] + x) == [g] + Runs(x)
  {
    var p := Dmgs(g) + [Opr];
    assert Completes(p, data[..g + 1]) by {
      forall i | 0 <= i < g + 1 ensures p[i] != Unk && (data[..g + 1][i] != Unk ==> p[i] == data[..g + 1][i]) {
        if i < g {
          assert data[..g + 1][i] == data[..g][i];
        }
      }
    }
    CompletesAppend(p, x, data);
    if g >= 1 {
      assert p + x == Dmgs(g) + ([Opr] + x);
      RunsLay(g, [Opr] + x);
      RunsSkip(x);
    }
  }

  /** A group of g damaged springs that fills the rest of the row. */
  lemma LayLastStep(data: seq<Block>, g: nat)
    requires g == |data| && Opr !in data[..g]
    ensures Completes(Dmgs(g) + [], data)
    ensures g >= 1 ==> Runs(Dmgs(g) + []) == [g]
  {
    assert data[..g] == data;
    assert Dmgs(g) + [] == Dmgs(g);
    if g >= 1 {
      RunsLay(g, []);
    }
  }

  /** Every built row fills in the unknown springs, and with positive groups its runs of
      damaged springs are the groups. */
  lemma {:induction false} Sound(data: seq<Block>, groups: seq<nat>, c: seq<Block>)
    requires c in Arrangements(data, groups)
    ensures Completes(c, data)
    ensures Positive(groups) ==> Runs(c) == groups
    decreases |data|
  {
    if data == [] {
      return;
    }
    if data[0] != Dmg && c in SkipArrangements(data, groups) {
      PrefixedMember([Opr], Arrangements(data[1..], groups), c);
      var x := c[1..];
      Sound(data[1..], groups, x);
      assert c == [Opr] + x;
      SkipStep(data, groups, x);
    } else {
      assert c in LayArrangements(data, groups);
      var g := groups[0];
      var rest := groups[1..];
      if Positive(groups) {
        PositiveRest(groups);
      }
      if |data| == g {
        PrefixedMember(Dmgs(g), Arrangements(data[g..], rest), c);
        var x := c[g..];
        Sound(data[g..], rest, x);
        assert x == [] && c == Dmgs(g) + [];
        LayLastStep(data, g);
      } else {
        PrefixedMember(Dmgs(g) + [Opr], Arrangements(data[g + 1..], rest), c);
        var x := c[g + 1..];
        Sound(data[g + 1..], rest, x);
        assert c == Dmgs(g) + [Opr] + x;
        LayStep(data, g, x);
      }
    }
  }

  /** Every way of filling in the row whose runs are the (positive) groups is built. */
  lemma CompletesSuffix(c: seq<Block>, data: seq<Block>, k: nat)
    requires Completes(c, data) && k <= |c|
    ensures Completes(c[k..], data[k..])
  {
    var x := c[k..];
    forall i | 0 <= i < |x| ensures x[i] != Unk && (data[k..][i] != Unk ==> x[i] == data[k..][i]) {
      assert x[i] == c[k + i];
    }
  }

  /** A filled-in row that starts damaged starts with a whole group, which the row can
      carry. */
  lemma LeadingGroup(data: seq<Block>, c: seq<Block>)
    requires Completes(c, data) && c != [] && c[0] == Dmg
    ensures var g := RunLength(c);
      g >= 1 && c[..g] == Dmgs(g) && Runs(c) == [g] + Runs(c[g..]) && Opr !in data[..g]
  {
    var g := RunLength(c);
    assert c[..g] == Dmgs(g);
    assert Opr !in data[..g] by {
      forall i | 0 <= i < g ensures data[..g][i] != Opr {
        assert c[i] == Dmg;
      }
    }
  }

  /** A group that does not reach the end of a filled-in row is followed by a '.', over a
      cell of the row that is not '#'. */
  lemma GroupEnd(data: seq<Block>, c: seq<Block>, g: nat)
    requires Completes(c, data) && g < |c| && c[g] != Dmg
    ensures c[g] == Opr && data[g] != Dmg
    ensures c == c[..g] + [Opr] + c[g + 1..]
    ensures Runs(c[g..]) == Runs(c[g + 1..])
  {
    var x := c[g + 1..];
    assert c[g..] == [Opr] + x;
    RunsSkip(x);
    Split3(c, g);
  }

  lemma Split3(c: seq<Block>, g: nat)
    requires g < |c|
    ensures c == c[..g] + [c[g]] + c[g + 1..]
  {
  }

  /** Every way of filling in the row whose runs are the (positive) groups is built. */
  lemma {:induction false} Complete(data: seq<Block>, groups: seq<nat>, c: seq<Block>)
    requires Completes(c, data) && Runs(c) == groups && Positive(groups)
    ensures c in Arrangements(data, groups)
    decreases |data|
  {
    if data == [] {
      assert c == [];
      return;
    }
    if c[0] == Opr {
      var t := c[1..];
      CompletesSuffix(c, data, 1);
      assert c == [Opr] + t;
      RunsSkip(t);
      Complete(data[1..], groups, t);
      PrefixedHas([Opr], Arrangements(data[1..], groups), t);
    } else {
      LeadingGroup(data, c);
      var g := RunLength(c);
      var rest := groups[1..];
      PositiveRest(groups);
      if |data| == g {
        assert c == Dmgs(g) + [];
        assert Arrangements(data[g..], rest) == [[]];
        PrefixedHas(Dmgs(g), Arrangements(data[g..], rest), []);
      } else {
        var x := c[g + 1..];
        GroupEnd(data, c, g);
        assert c == Dmgs(g) + [Opr] + x;
        CompletesSuffix(c, data, g + 1);
        Complete(data[g + 1..], rest, x);
        PrefixedHas(Dmgs(g) + [Opr], Arrangements(data[g + 1..], rest), x);
      }
    }
  }

  lemma PrefixedNoDuplicates(p: seq<Block>, l: seq<seq<Block>>)
    requires NoDuplicates(l)
    ensures NoDuplicates(Prefixed(p, l))
  {
    forall i, j | 0 <= i < j < |l|
      ensures Prefixed(p, l)[i] != Prefixed(p, l)[j]
    {
      assert l[i] == (p + l[i])[|p|..] && l[j] == (p + l[j])[|p|..];
    }
  }

  /** With positive groups, no row is built twice: skipping puts '.' first and laying
      puts '#' first. */
  lemma {:induction false} Distinct(data: seq<Block>, groups: seq<nat>)
    requires Positive(groups)
    ensures NoDuplicates(Arrangements(data, groups))
    decreases |data|
  {
    if data == [] {
      return;
    }
    var s := SkipArrangements(data, groups);
    Distinct(data[1..], groups);
    PrefixedNoDuplicates([Opr], Arrangements(data[1..], groups));
    var l := LayArrangements(data, groups);
    if groups != [] {
      var g := groups[0];
      var rest := groups[1..];
      assert Positive(rest) by {
        forall k | 0 <= k < |rest| ensures rest[k] >= 1 {
          assert rest[k] == groups[k + 1];
        }
      }
      if g <= |data| && Opr !in data[..g] {
        if |data| == g {
          Distinct(data[g..], rest);
          PrefixedNoDuplicates(Dmgs(g), Arrangements(data[g..], rest));
        } else if data[g] != Dmg {
          Distinct(data[g + 1..], rest);
          PrefixedNoDuplicates(Dmgs(g) + [Opr], Arrangements(data[g + 1..], rest));
        }
      }
      forall i | 0 <= i < |l| ensures l[i] != [] && l[i][0] == Dmg {
        PrefixedMember(Dmgs(g), [l[i][g..]], l[i]) by {
          if |data| == g {
            PrefixedMember(Dmgs(g), Arrangements(data[g..], rest), l[i]);
          } else {
            PrefixedMember(Dmgs(g) + [Opr], Arrangements(data[g + 1..], rest), l[i]);
          }
          assert l[i] in Prefixed(Dmgs(g), [l[i][g..]]) by {
            assert Prefixed(Dmgs(g), [l[i][g..]])[0] == l[i];
          }
        }
      }
    }
    forall i | 0 <= i < |s| ensures s[i] != [] && s[i][0] == Opr {
    }
    if data[0] == Unk {
      var a := s + l;
      forall i, j | 0 <= i < j < |a| ensures a[i] != a[j] {
        if j >= |s| && i < |s| {
          assert a[i][0] == Opr && a[j][0] == Dmg;
        }
      }
    }
  }

  /** `calculate_combinations` counts the ways of filling in the unknown springs so that the
      runs of damaged springs are the groups, each exactly once, when every group is at
      least 1. */
  lemma CombinationsMeaning(data: seq<Block>, groups: seq<nat>)
    requires Positive(groups)
    ensures Combinations(data, groups) == |Arrangements(data, groups)|
    ensures NoDuplicates(Arrangements(data, groups))
    ensures forall c :: c in Arrangements(data, groups) <==> Completes(c, data) && Runs(c) == groups
  {
    CountIsLength(data, groups);
    Distinct(data, groups);
    forall c ensures c in Arrangements(data, groups) <==> Completes(c, data) && Runs(c) == groups {
      if c in Arrangements(data, groups) {
        Sound(data, groups, c);
      }
      if Completes(c, data) && Runs(c) == groups {
        Complete(data, groups, c);
      }
    }
  }

  /** The memo table of `calculate_combinations`, keyed by the remaining row and groups. */
  class Memo {
    var table: map<(seq<Block>, seq<nat>), nat>

    /** Every cached value is the value the recursion computes. */
    ghost predicate Valid()
      reads this
    {
      forall k :: k in table ==> table[k] == Combinations(k.0, k.1)
    }

    constructor ()
      ensures table == map[]
    {
      table := map[];
    }

    /** `calculate_combinations`: a cached value is returned as it is; otherwise the value
        is computed and, unless the row is empty, cached. */
    method CalculateCombinations(data: seq<Block>, groups: seq<nat>) returns (r: nat)
      requires Valid()
      modifies this
      ensures Valid() && r == Combinations(data, groups)
      ensures old(table).Keys <= table.Keys
      decreases |data|, 1
    {
      if (data, groups) in table {
        return table[(data, groups)];
      }
      if data == [] {
        return if groups == [] then 1 else 0;
      }
      var total := 0;
      match data[0] {
        case Opr =>
          total := Skip(data, groups);
        case Dmg =>
          total := Lay(data, groups);
        case Unk =>
          var s := Skip(data, groups);
          var l := Lay(data, groups);
          total := s + l;
      }
      table := table[(data, groups) := total];
      r := total;
    }

    method Skip(data: seq<Block>, groups: seq<nat>) returns (r: nat)
      requires data != [] && Valid()
      modifies this
      ensures Valid() && r == SkipCount(data, groups)
      ensures old(table).Keys <= table.Keys
      decreases |data|, 0
    {
      r := CalculateCombinations(data[1..], groups);
    }

    method Lay(data: seq<Block>, groups: seq<nat>) returns (r: nat)
      requires data != [] && Valid()
      modifies this
      ensures Valid() && r == LayCount(data, groups)
      ensures old(table).Keys <= table.Keys
      decreases |data|, 0
    {
      if groups == [] {
        return 0;
      }
      var g := groups[0];
      if |data| < g {
        return 0;
      }
      if Opr in data[..g] {
        return 0;
      }
      if |data| == g {
        r := CalculateCombinations(data[g..], groups[1..]);
      } else if data[g] == Dmg {
        r := 0;
      } else {
        r := CalculateCombinations(data[g + 1..], groups[1..]);
      }
    }
  }

  /** `calculate_combinations_helper`: a fresh memo table per question. */
  method CalculateWithFreshMemo(data: seq<Block>, groups: seq<nat>) returns (r: nat)
    ensures r == Combinations(data, groups)
  {
    var memo := new Memo();
    r := memo.CalculateCombinations(data, groups);
  }

  /** The row joined with itself `copies` times, an unknown spring between copies. */
  function Joined(raw: seq<Block>, copies: nat): (r: seq<Block>)
    requires copies >= 1
    ensures |r| == copies * (|raw| + 1) - 1
  {
    if copies == 1 then raw else Joined(raw, copies - 1) + [Unk] + raw
  }

  /** The groups repeated `copies` times. */
  function Repeated(groups: seq<nat>, copies: nat): (r: seq<nat>)
    ensures |r| == copies * |groups|
  {
    if copies == 0 then [] else Repeated(groups, copies - 1) + groups
  }

  /** j + 1 <= w and k < c put k·w + j below c·w. */
  lemma Below(k: nat, c: nat, w: nat, j: nat)
    requires k < c && j < w
    ensures k * w + j < c * w
  {
    var d := c - k;
    assert c * w == k * w + d * w;
    MulAtLeast(d, w);
  }

  lemma MulAtLeast(d: nat, w: nat)
    requires d >= 1
    ensures d * w >= w
  {
    assert d * w == (d - 1) * w + w;
  }

  /** Copy k of the row starts at k·(|raw| + 1) and is preceded by an unknown spring. */
  lemma {:induction false} JoinedLayout(raw: seq<Block>, copies: nat, k: nat, j: nat)
    requires copies >= 1 && k < copies && j < |raw|
    ensures Joined(raw, copies)[k * (|raw| + 1) + j] == raw[j]
    ensures k >= 1 ==> Joined(raw, copies)[k * (|raw| + 1) - 1] == Unk
    decreases copies
  {
    var w := |raw| + 1;
    var n := k * w;
    if copies > 1 {
      var front := Joined(raw, copies - 1);
      assert Joined(raw, copies) == front + [Unk] + raw;
      if k < copies - 1 {
        JoinedLayout(raw, copies - 1, k, j);
        Below(k, copies - 1, w, j + 1);
        assert n + j < |front|;
      } else {
        assert n == (copies - 1) * w;
        assert |front| == n - 1;
      }
    }
  }

  /** Copy k of the groups starts at k·|groups|. */
  lemma {:induction false} RepeatedLayout(groups: seq<nat>, copies: nat, k: nat, j: nat)
    requires k < copies && j < |groups|
    ensures Repeated(groups, copies)[k * |groups| + j] == groups[j]
    decreases copies
  {
    var n := k * |groups|;
    var front := Repeated(groups, copies - 1);
    assert Repeated(groups, copies) == front + groups;
    if k < copies - 1 {
      RepeatedLayout(groups, copies - 1, k, j);
      Below(k, copies - 1, |groups|, j);
      assert n + j < |front|;
    } else {
      assert n == (copies - 1) * |groups|;
      assert |front| == n;
    }
  }

  /** `parse` for one line already split into springs and groups: the copies loop extends
      the row, and the groups are the repeated tuple. With no copies the source's
      `copies - 1` underflows. */
  method Parse(raw: seq<Block>, rawGroups: seq<nat>, copies: nat) returns (data: seq<Block>, groups: seq<nat>)
    requires copies >= 1
    ensures data == Joined(raw, copies) && groups == Repeated(rawGroups, copies)
  {
    data := raw;
    for k := 1 to copies
      invariant data == Joined(raw, k)
    {
      data := data + [Unk];
      data := data + raw;
    }
    groups := Repeated(rawGroups, copies);
  }

  /** The total over questions. */
  function Total(questions: seq<(seq<Block>, seq<nat>)>): nat
  {
    if questions == [] then 0
    else
      var q := questions[|questions| - 1];
      Total(questions[..|questions| - 1]) + Combinations(q.0, q.1)
  }

  /** `solve`: every line is unfolded and counted with its own memo table. */
  method Solve(lines: seq<(seq<Block>, seq<nat>)>, copies: nat) returns (total: nat)
    requires copies >= 1
    ensures total == Total(seq(|lines|, i requires 0 <= i < |lines| =>
      (Joined(lines[i].0, copies), Repeated(lines[i].1, copies))))
  {
    var qs := seq(|lines|, i requires 0 <= i < |lines| =>
      (Joined(lines[i].0, copies), Repeated(lines[i].1, copies)));
    total := 0;
    for i := 0 to |lines|
      invariant total == Total(qs[..i])
    {
      var data, groups := Parse(lines[i].0, lines[i].1, copies);
      var n := CalculateWithFreshMemo(data, groups);
      assert qs[..i + 1][..i] == qs[..i];
      total := total + n;
    }
    assert qs[..|lines|] == qs;
  }

  /** The Python twin works on characters and raises `RuntimeError` (None) when the cell it
      examines is none of '.', '#', '?'. */
  function PyAdd(a: Option<nat>, b: Option<nat>): Option<nat>
  {
    if a.Some? && b.Some? then Some(a.value + b.value) else None
  }

  function PySkip(data: seq<char>, groups: seq<nat>): Option<nat>
    requires data != []
    decreases |data|, 0
  {
    PySolve(data[1..], groups)
  }

  function PyLay(data: seq<char>, groups: seq<nat>): Option<nat>
    requires data != []
    decreases |data|, 0
  {
    if groups == [] then Some(0)
    else
      var g := groups[0];
      if |data| < g then Some(0)
      else if '.' in data[..g] then Some(0)
      else if |data| == g then PySolve(data[g..], groups[1..])
      else if data[g] == '#' then Some(0)
      else PySolve(data[g + 1..], groups[1..])
  }

  /** `solve` in other/day12_2.py (its `@cache` only stores results). */
  function PySolve(data: seq<char>, groups: seq<nat>): Option<nat>
    decreases |data|, 1
  {
    if data == [] then Some(if groups == [] then 1 else 0)
    else if data[0] == '.' then PySkip(data, groups)
    else if data[0] == '#' then PyLay(data, groups)
    else if data[0] == '?' then PyAdd(PySkip(data, groups), PyLay(data, groups))
    else None
  }

  predicate SpringChar(c: char)
  {
    c == '.' || c == '#' || c == '?'
  }

  function ToBlock(c: char): Block
    requires SpringChar(c)
  {
    if c == '.' then Opr else if c == '#' then Dmg else Unk
  }

  function ToBlocks(s: seq<char>): (r: seq<Block>)
    requires forall i :: 0 <= i < |s| ==> SpringChar(s[i])
    ensures |r| == |s| && forall i :: 0 <= i < |s| ==> r[i] == ToBlock(s[i])
  {
    seq(|s|, i requires 0 <= i < |s| => ToBlock(s[i]))
  }

  /** On rows of '.', '#' and '?' the Python recursion succeeds and gives the same count as
      the Rust one. */
  lemma {:induction false} PythonAgrees(data: seq<char>, groups: seq<nat>)
    requires forall i :: 0 <= i < |data| ==> SpringChar(data[i])
    ensures PySolve(data, groups) == Some(Combinations(ToBlocks(data), groups))
    decreases |data|
  {
    if data == [] {
      return;
    }
    var b := ToBlocks(data);
    PythonAgrees(data[1..], groups);
    assert ToBlocks(data[1..]) == b[1..];
    if groups != [] {
      var g := groups[0];
      if g <= |data| {
        assert ('.' in data[..g]) <==> (Opr in b[..g]) by {
          if '.' in data[..g] {
            var i :| 0 <= i < g && data[..g][i] == '.';
            assert b[..g][i] == Opr;
          }
          if Opr in b[..g] {
            var i :| 0 <= i < g && b[..g][i] == Opr;
            assert data[..g][i] == '.';
          }
        }
        if |data| == g {
          PythonAgrees(data[g..], groups[1..]);
          assert ToBlocks(data[g..]) == b[g..];
        } else {
          PythonAgrees(data[g + 1..], groups[1..]);
          assert ToBlocks(data[g + 1..]) == b[g + 1..];
        }
      }
    }
  }

  /** The Python recursion raises only on a character that is not a spring, and does raise
      when such a character comes first. */
  lemma {:induction false} PythonErrors(data: seq<char>, groups: seq<nat>)
    ensures PySolve(data, groups) == None ==> exists i :: 0 <= i < |data| && !SpringChar(data[i])
    ensures data != [] && !SpringChar(data[0]) ==> PySolve(data, groups) == None
  {
    if forall i :: 0 <= i < |data| ==> SpringChar(data[i]) {
      PythonAgrees(data, groups);
    }
  }

  /** `"?".join([data] * copies)`. */
  function PyJoined(raw: seq<char>, copies: nat): seq<char>
  {
    if copies == 0 then []
    else if copies == 1 then raw
    else PyJoined(raw, copies - 1) + ['?'] + raw
  }

  /** The Python `parse` unfolds a line as the Rust one does whenever there is at least one
      copy; with none it gives the empty row and no groups, where the Rust code panics. */
  lemma {:induction false} PythonParseAgrees(raw: seq<char>, groups: seq<nat>, copies: nat)
    requires forall i :: 0 <= i < |raw| ==> SpringChar(raw[i])
    ensures copies >= 1 ==>
      (forall i :: 0 <= i < |PyJoined(raw, copies)| ==> SpringChar(PyJoined(raw, copies)[i])) &&
      ToBlocks(PyJoined(raw, copies)) == Joined(ToBlocks(raw), copies)
    ensures copies == 0 ==> PyJoined(raw, copies) == [] && Repeated(groups, copies) == []
    decreases copies
  {
    if copies > 1 {
      PythonParseAgrees(raw, groups, copies - 1);
      var f := PyJoined(raw, copies - 1);
      var j := PyJoined(raw, copies);
      assert j == f + ['?'] + raw;
      assert forall i :: 0 <= i < |j| ==> SpringChar(j[i]) by {
        forall i | 0 <= i < |j| ensures SpringChar(j[i]) {
          if i < |f| {
            assert j[i] == f[i];
          } else if i > |f| {
            assert j[i] == raw[i - |f| - 1];
          }
        }
      }
      assert ToBlocks(j) == ToBlocks(f) + [Unk] + ToBlocks(raw);
    }
  }
}
