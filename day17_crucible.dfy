/** Day 17: a crucible moves from the top-left block of a city to the bottom-right one,
    losing the heat of every block it enters (the first block is not charged). It may go
    straight, turn left or turn right, never back, and may not move more than a limit of
    blocks in a row in one direction: 3 in part 1, 10 in part 2, whose start has no
    direction and may leave any way. The source runs Dijkstra's search over
    (direction, run length, row, column) with a binary heap ordered by heat loss,
    reversed so that the least loss comes out first. */
module Day17Crucible {
  import opened Wrappers

  /** `Dir`; `Start` exists only in part 2. */
  datatype Dir = Left | Right | Up | Down | Start

  const Dirs: set<Dir> := {Left, Right, Up, Down, Start}

  /** `dydx`: the (row, column) offset of one move. */
  function Step(d: Dir): (r: (int, int))
    ensures d == Start <==> r == (0, 0)
    ensures -1 <= r.0 <= 1 && -1 <= r.1 <= 1 && (r.0 == 0 || r.1 == 0)
  {
    match d
    case Left => (0, -1)
    case Right => (0, 1)
    case Up => (-1, 0)
    case Down => (1, 0)
    case Start => (0, 0)
  }

  function Reverse(d: Dir): (r: Dir)
    ensures Step(r) == (-Step(d).0, -Step(d).1)
  {
    match d
    case Left => Right
    case Right => Left
    case Up => Down
    case Down => Up
    case Start => Start
  }

  /** `allowed_dirs`: straight on, or a quarter turn either way; from the start, any way. */
  function Allowed(d: Dir): (r: seq<Dir>)
    ensures d == Start ==> r == [Left, Right, Up, Down]
    ensures d != Start ==> |r| == 3 && r[0] != r[1] && r[1] != r[2] && r[0] != r[2]
  {
    match d
    case Start => [Left, Right, Up, Down]
    case Left => [Left, Up, Down]
    case Right => [Right, Up, Down]
    case Up => [Left, Right, Up]
    case Down => [Left, Right, Down]
  }

  /** A moving crucible may go every way except back and nowhere it cannot move. */
  lemma AllowedMeaning(d: Dir, e: Dir)
    requires d != Start
    ensures e in Allowed(d) <==> e != Start && e != Reverse(d)
  {
  }

  /** Which limit applies and which direction the search starts with. */
  datatype Rules = Rules(limit: nat, first: Dir)

  const Part1 := Rules(3, Right)
  const Part2 := Rules(10, Start)

  // ---------------------------------------------------------------- the heap

  /** A search state: `State` without its debug-only `paths`. */
  datatype Entry = Entry(dir: Dir, heatloss: int, consecutive: int, y: int, x: int)

  datatype Ordering = Less | Equal | Greater

  function Cmp(a: int, b: int): Ordering
  {
    if a < b then Less else if a == b then Equal else Greater
  }

  /** `State::cmp`: by heat loss only, reversed, so the heap's greatest is the least loss. */
  function CompareStates(s: Entry, other: Entry): (r: Ordering)
    ensures r == Greater <==> s.heatloss < other.heatloss
    ensures r == Less <==> other.heatloss < s.heatloss
  {
    Cmp(other.heatloss, s.heatloss)
  }

  /** `BinaryHeap<State>`: a max-heap under `CompareStates`, kept as its multiset of
      entries in a sequence. */
  class Heap {
    var items: seq<Entry>

    constructor ()
      ensures items == []
    {
      items := [];
    }

    function IsEmpty(): (r: bool)
      reads this
      ensures r <==> |items| == 0
    {
      items == []
    }

    method Push(e: Entry)
      modifies this
      ensures items == old(items) + [e]
    {
      items := items + [e];
    }

    /** Removes and returns a greatest entry, that is one of least heat loss. */
    method Pop() returns (e: Entry, ghost i: nat)
      requires items != []
      modifies this
      ensures i < |old(items)| && e == old(items)[i]
      ensures forall j :: 0 <= j < |old(items)| ==> CompareStates(e, old(items)[j]) != Less
      ensures items == old(items)[..i] + old(items)[i + 1..]
    {
      var best := 0;
      for j := 1 to |items|
        invariant best < |items|
        invariant forall k :: 0 <= k < j ==> CompareStates(items[best], items[k]) != Less
      {
        if CompareStates(items[j], items[best]) == Greater {
          best := j;
        }
      }
      e, i := items[best], best;
      items := items[..best] + items[best + 1..];
    }
  }

  // ---------------------------------------------------------------- walks

  /** A heat map: a non-empty rectangle of single digits. */
  predicate Heatmap(heat: seq<seq<int>>)
  {
    |heat| > 0 && (forall i :: 0 <= i < |heat| ==> |heat[i]| == |heat[0]|) &&
    forall i, j :: 0 <= i < |heat| && 0 <= j < |heat[i]| ==> 0 <= heat[i][j] <= 9
  }

  /** What `visited` remembers of a state. */
  datatype Key = Key(dir: Dir, consecutive: int, y: int, x: int)

  function KeyOf(e: Entry): Key
  {
    Key(e.dir, e.consecutive, e.y, e.x)
  }

  function EntryOf(k: Key, heatloss: int): (e: Entry)
    ensures KeyOf(e) == k && e.heatloss == heatloss
  {
    Entry(k.dir, heatloss, k.consecutive, k.y, k.x)
  }

  predicate InGrid(heat: seq<seq<int>>, k: Key)
    requires Heatmap(heat)
  {
    0 <= k.y < |heat| && 0 <= k.x < |heat[0]|
  }

  /** A key the search keeps: inside the map and not over the limit. */
  predicate Good(heat: seq<seq<int>>, rules: Rules, k: Key)
    requires Heatmap(heat)
  {
    InGrid(heat, k) && 0 <= k.consecutive <= rules.limit
  }

  function HeatAt(heat: seq<seq<int>>, k: Key): (r: int)
    requires Heatmap(heat) && InGrid(heat, k)
    ensures 0 <= r <= 9
  {
    heat[k.y][k.x]
  }

  predicate AtFinish(heat: seq<seq<int>>, k: Key)
    requires Heatmap(heat)
  {
    k.y == |heat| - 1 && k.x == |heat[0]| - 1
  }

  /** The key after moving in direction d: one longer run straight on, a run of 1 after a turn. */
  function Next(k: Key, d: Dir): Key
  {
    Key(d, if d == k.dir then k.consecutive + 1 else 1, k.y + Step(d).0, k.x + Step(d).1)
  }

  /** The keys of the states pushed after visiting k, in `allowed_dirs` order. */
  function Successors(k: Key): (r: seq<Key>)
    ensures |r| == |Allowed(k.dir)|
    ensures forall j :: 0 <= j < |r| ==> r[j] == Next(k, Allowed(k.dir)[j])
  {
    seq(|Allowed(k.dir)|, j requires 0 <= j < |Allowed(k.dir)| => Next(k, Allowed(k.dir)[j]))
  }

  function StartKey(rules: Rules): Key
  {
    Key(rules.first, 0, 0, 0)
  }

  /** The first state: its heat loss pre-pays the first block so that it is not charged. */
  function StartEntry(heat: seq<seq<int>>, rules: Rules): Entry
    requires Heatmap(heat) && |heat[0]| > 0
  {
    Entry(rules.first, -heat[0][0], 0, 0, 0)
  }

  /** A legal route from the start, key by key. */
  ghost predicate IsWalk(heat: seq<seq<int>>, rules: Rules, w: seq<Key>)
    requires Heatmap(heat)
  {
    |w| > 0 && w[0] == StartKey(rules) &&
    (forall i :: 0 <= i < |w| ==> Good(heat, rules, w[i])) &&
    forall i :: 0 <= i < |w| - 1 ==> w[i + 1] in Successors(w[i])
  }

  /** The heat lost along a route: every block entered after the first. */
  function Cost(heat: seq<seq<int>>, w: seq<Key>): (c: int)
    requires Heatmap(heat) && forall i :: 0 <= i < |w| ==> InGrid(heat, w[i])
    ensures c >= 0
  {
    if |w| <= 1 then 0 else Cost(heat, w[..|w| - 1]) + HeatAt(heat, w[|w| - 1])
  }

  ghost predicate Reaches(heat: seq<seq<int>>, rules: Rules, w: seq<Key>)
    requires Heatmap(heat)
  {
    IsWalk(heat, rules, w) && AtFinish(heat, w[|w| - 1])
  }

  lemma {:induction false} WalkPrefix(heat: seq<seq<int>>, rules: Rules, w: seq<Key>, n: nat)
    requires Heatmap(heat) && IsWalk(heat, rules, w) && 0 < n <= |w|
    ensures IsWalk(heat, rules, w[..n])
  {
    var p := w[..n];
    forall i | 0 <= i < |p| - 1 ensures p[i + 1] in Successors(p[i]) {
      assert p[i] == w[i] && p[i + 1] == w[i + 1];
    }
  }

  /** The number of moves at the end of a route that all go the way of the last move. */
  function TrailingRun(w: seq<Key>): nat
  {
    if |w| <= 1 then 0
    else if w[|w| - 2].dir == w[|w| - 1].dir then TrailingRun(w[..|w| - 1]) + 1
    else 1
  }

  lemma MoveCounts(k: Key, n: Key)
    requires n in Successors(k)
    ensures n.consecutive == if n.dir == k.dir then k.consecutive + 1 else 1
  {
    var j :| 0 <= j < |Successors(k)| && Successors(k)[j] == n;
  }

  /** `consecutive` counts the moves in a row in the current direction, so no route moves
      more than the limit in a row. */
  lemma {:induction false} RunCounted(heat: seq<seq<int>>, rules: Rules, w: seq<Key>)
    requires Heatmap(heat) && IsWalk(heat, rules, w)
    ensures w[|w| - 1].consecutive == TrailingRun(w) <= rules.limit
    decreases |w|
  {
    if |w| > 1 {
      var p := w[..|w| - 1];
      WalkPrefix(heat, rules, w, |w| - 1);
      RunCounted(heat, rules, p);
      assert p[|p| - 1] == w[|w| - 2];
      MoveCounts(w[|w| - 2], w[|w| - 1]);
      assert w[|w| - 1].consecutive == TrailingRun(w);
    }
  }

  // ---------------------------------------------------------------- the search invariant

  /** Dijkstra's invariant. `dist` maps every visited key to the loss on arriving there and
      `walks` to a route of that cost; no cheaper route to a visited key exists; every
      onward key of a visited key is visited, out of the map or over the limit, or queued
      with the loss of its parent; the start is visited or queued; and every queued entry
      is the start or was pushed by a visited key. */
  ghost predicate Searching(heat: seq<seq<int>>, rules: Rules, items: seq<Entry>,
                            dist: map<Key, int>, walks: map<Key, seq<Key>>)
    requires Heatmap(heat)
  {
    Recorded(heat, rules, dist, walks) && Optimal(heat, rules, dist) &&
    Bordered(heat, rules, items, dist) && Parented(heat, rules, items, dist)
  }

  /** Every visited key is kept, away from the finish, with a route of its recorded cost. */
  ghost predicate Recorded(heat: seq<seq<int>>, rules: Rules, dist: map<Key, int>, walks: map<Key, seq<Key>>)
    requires Heatmap(heat)
  {
    walks.Keys == dist.Keys &&
    forall k | k in dist :: Good(heat, rules, k) && !AtFinish(heat, k) && Witness(heat, rules, walks[k], k, dist[k])
  }

  /** No route to a visited key costs less than its recorded loss. */
  ghost predicate Optimal(heat: seq<seq<int>>, rules: Rules, dist: map<Key, int>)
    requires Heatmap(heat)
  {
    forall k | k in dist :: Cheapest(heat, rules, k, dist[k])
  }

  /** The onward keys of visited keys, and the start, are visited, dropped or queued. */
  ghost predicate Bordered(heat: seq<seq<int>>, rules: Rules, items: seq<Entry>, dist: map<Key, int>)
    requires Heatmap(heat)
  {
    (forall k | k in dist :: Frontier(heat, rules, items, dist, k)) &&
    (|heat[0]| > 0 ==> StartKey(rules) in dist || StartEntry(heat, rules) in items)
  }

  /** Every queued entry is the start or was pushed by a visited key. */
  ghost predicate Parented(heat: seq<seq<int>>, rules: Rules, items: seq<Entry>, dist: map<Key, int>)
    requires Heatmap(heat)
  {
    forall e | e in items :: e.consecutive >= 0 && HasParent(heat, rules, dist, e)
  }

  ghost predicate Witness(heat: seq<seq<int>>, rules: Rules, w: seq<Key>, k: Key, c: int)
    requires Heatmap(heat)
  {
    IsWalk(heat, rules, w) && w[|w| - 1] == k && Cost(heat, w) == c
  }

  ghost predicate Cheapest(heat: seq<seq<int>>, rules: Rules, k: Key, c: int)
    requires Heatmap(heat)
  {
    forall w | IsWalk(heat, rules, w) && w[|w| - 1] == k :: c <= Cost(heat, w)
  }

  ghost predicate Frontier(heat: seq<seq<int>>, rules: Rules, items: seq<Entry>, dist: map<Key, int>, u: Key)
    requires Heatmap(heat) && u in dist
  {
    forall n | n in Successors(u) :: Queued(heat, rules, items, dist, n, dist[u])
  }

  ghost predicate Queued(heat: seq<seq<int>>, rules: Rules, items: seq<Entry>, dist: map<Key, int>, n: Key, c: int)
    requires Heatmap(heat)
  {
    !Good(heat, rules, n) || n in dist || EntryOf(n, c) in items
  }

  ghost predicate HasParent(heat: seq<seq<int>>, rules: Rules, dist: map<Key, int>, e: Entry)
    requires Heatmap(heat)
  {
    (|heat[0]| > 0 && e == StartEntry(heat, rules)) ||
    exists u :: u in dist && e.heatloss == dist[u] && KeyOf(e) in Successors(u)
  }

  /** A queue with entry i taken out. */
  function Remove(items: seq<Entry>, i: nat): (r: seq<Entry>)
    requires i < |items|
    ensures |r| == |items| - 1
    ensures forall e | e in items && e != items[i] :: e in r
    ensures forall e | e in r :: e in items
  {
    var r := items[..i] + items[i + 1..];
    assert forall e | e in items && e != items[i] :: e in r by {
      forall e | e in items && e != items[i] ensures e in r {
        var j :| 0 <= j < |items| && items[j] == e;
        if j < i {
          assert r[j] == e;
        } else {
          assert r[j - 1] == e;
        }
      }
    }
    r
  }

  /** The entries pushed after visiting k with loss c, one per allowed direction. */
  function Pushes(k: Key, c: int): (r: seq<Entry>)
    ensures |r| == |Successors(k)|
    ensures forall j :: 0 <= j < |r| ==> r[j] == EntryOf(Successors(k)[j], c)
  {
    seq(|Successors(k)|, j requires 0 <= j < |Successors(k)| => EntryOf(Successors(k)[j], c))
  }

  lemma {:induction false} WalkExtend(heat: seq<seq<int>>, rules: Rules, w: seq<Key>, k: Key)
    requires Heatmap(heat) && IsWalk(heat, rules, w)
    requires Good(heat, rules, k) && k in Successors(w[|w| - 1])
    ensures IsWalk(heat, rules, w + [k])
    ensures Cost(heat, w + [k]) == Cost(heat, w) + HeatAt(heat, k)
  {
    var v := w + [k];
    assert v[..|v| - 1] == w;
    forall i | 0 <= i < |v| - 1 ensures v[i + 1] in Successors(v[i]) {
      if i < |w| - 1 {
        assert v[i] == w[i] && v[i + 1] == w[i + 1];
      }
    }
  }

  /** A route to a key not yet visited crosses the frontier: some queued entry's loss plus
      the heat of the route's last block is at most the route's cost. */
  lemma FrontierBound(heat: seq<seq<int>>, rules: Rules, items: seq<Entry>,
                      dist: map<Key, int>, w: seq<Key>)
    requires Heatmap(heat) && Bordered(heat, rules, items, dist) && Optimal(heat, rules, dist)
    requires IsWalk(heat, rules, w) && w[|w| - 1] !in dist
    ensures exists j :: 0 <= j < |items| && items[j].heatloss + HeatAt(heat, w[|w| - 1]) <= Cost(heat, w)
  {
    var f := FirstOut(dist, w);
    if f == 0 {
      StartBound(heat, rules, items, dist, w);
      StartCovers(heat, items, w);
    } else {
      WalkPrefix(heat, rules, w, f);
      ParentBound(heat, rules, items, dist, w[..f], w[f]);
      CostTail(heat, w, f);
      ParentCovers(heat, items, w, f);
    }
  }

  /** The first key of a route that is not visited, given that its last key is not. */
  lemma {:induction false} FirstOut(dist: map<Key, int>, w: seq<Key>) returns (f: nat)
    requires |w| > 0 && w[|w| - 1] !in dist
    ensures f < |w| && w[f] !in dist && (f == 0 || w[f - 1] in dist)
    decreases |w|
  {
    if |w| == 1 || w[|w| - 2] in dist {
      f := |w| - 1;
    } else {
      f := FirstOut(dist, w[..|w| - 1]);
    }
  }

  /** A route never costs less than any of its prefixes. */
  lemma {:induction false} CostPrefix(heat: seq<seq<int>>, w: seq<Key>, m: nat)
    requires Heatmap(heat) && forall i :: 0 <= i < |w| ==> InGrid(heat, w[i])
    requires 0 < m <= |w|
    ensures Cost(heat, w[..m]) <= Cost(heat, w)
    decreases |w|
  {
    if m < |w| {
      var p := w[..|w| - 1];
      assert p[..m] == w[..m];
      CostPrefix(heat, p, m);
    } else {
      assert w[..m] == w;
    }
  }

  /** The cost of a strict prefix plus the heat of the last block is at most the whole cost. */
  lemma CostTail(heat: seq<seq<int>>, w: seq<Key>, m: nat)
    requires Heatmap(heat) && forall i :: 0 <= i < |w| ==> InGrid(heat, w[i])
    requires 0 < m < |w|
    ensures Cost(heat, w[..m]) + HeatAt(heat, w[|w| - 1]) <= Cost(heat, w)
  {
    var p := w[..|w| - 1];
    assert p[..m] == w[..m];
    CostPrefix(heat, p, m);
  }

  lemma StartCovers(heat: seq<seq<int>>, items: seq<Entry>, w: seq<Key>)
    requires Heatmap(heat) && |w| > 0 && forall i :: 0 <= i < |w| ==> InGrid(heat, w[i])
    requires exists j :: 0 <= j < |items| && items[j].heatloss + HeatAt(heat, w[0]) <= 0
    ensures exists j :: 0 <= j < |items| && items[j].heatloss + HeatAt(heat, w[|w| - 1]) <= Cost(heat, w)
  {
    var j :| 0 <= j < |items| && items[j].heatloss + HeatAt(heat, w[0]) <= 0;
    if |w| > 1 {
      assert Cost(heat, w) == Cost(heat, w[..|w| - 1]) + HeatAt(heat, w[|w| - 1]);
    }
  }

  lemma ParentCovers(heat: seq<seq<int>>, items: seq<Entry>, w: seq<Key>, f: nat)
    requires Heatmap(heat) && forall i :: 0 <= i < |w| ==> InGrid(heat, w[i])
    requires 0 < f < |w|
    requires Cost(heat, w[..f]) + HeatAt(heat, w[|w| - 1]) <= Cost(heat, w)
    requires exists j :: 0 <= j < |items| && items[j].heatloss <= Cost(heat, w[..f])
    ensures exists j :: 0 <= j < |items| && items[j].heatloss + HeatAt(heat, w[|w| - 1]) <= Cost(heat, w)
  {
    var j :| 0 <= j < |items| && items[j].heatloss <= Cost(heat, w[..f]);
  }

  /** The start, when not visited, is queued with its first block pre-paid. */
  lemma StartBound(heat: seq<seq<int>>, rules: Rules, items: seq<Entry>, dist: map<Key, int>, w: seq<Key>)
    requires Heatmap(heat) && Bordered(heat, rules, items, dist)
    requires IsWalk(heat, rules, w) && w[0] !in dist
    ensures exists j :: 0 <= j < |items| && items[j].heatloss + HeatAt(heat, w[0]) <= 0
  {
    assert Good(heat, rules, w[0]);
    assert StartEntry(heat, rules) in items;
    var j :| 0 <= j < |items| && items[j] == StartEntry(heat, rules);
    assert items[j].heatloss + HeatAt(heat, w[0]) == 0;
  }

  /** A move from a visited key to a new one was queued with the visited key's loss, which
      no route to the visited key undercuts. */
  lemma ParentBound(heat: seq<seq<int>>, rules: Rules, items: seq<Entry>, dist: map<Key, int>, p: seq<Key>, n: Key)
    requires Heatmap(heat) && Bordered(heat, rules, items, dist) && Optimal(heat, rules, dist)
    requires IsWalk(heat, rules, p) && p[|p| - 1] in dist
    requires n in Successors(p[|p| - 1]) && Good(heat, rules, n) && n !in dist
    ensures exists j :: 0 <= j < |items| && items[j].heatloss <= Cost(heat, p)
  {
    var u := p[|p| - 1];
    assert Frontier(heat, rules, items, dist, u);
    assert Queued(heat, rules, items, dist, n, dist[u]);
    var j :| 0 <= j < |items| && items[j] == EntryOf(n, dist[u]);
    assert Cheapest(heat, rules, u, dist[u]);
  }

  /** Dropping a popped entry whose key is out of the map, over the limit or visited keeps
      the invariant. */
  lemma Dropping(heat: seq<seq<int>>, rules: Rules, items: seq<Entry>, dist: map<Key, int>, i: nat)
    requires Heatmap(heat) && Bordered(heat, rules, items, dist) && Parented(heat, rules, items, dist)
    requires i < |items|
    requires !Good(heat, rules, KeyOf(items[i])) || KeyOf(items[i]) in dist
    ensures Bordered(heat, rules, Remove(items, i), dist) && Parented(heat, rules, Remove(items, i), dist)
  {
    var rest := Remove(items, i);
    forall u | u in dist ensures Frontier(heat, rules, rest, dist, u) {
      forall n | n in Successors(u) ensures Queued(heat, rules, rest, dist, n, dist[u]) {
        assert Queued(heat, rules, items, dist, n, dist[u]);
      }
    }
  }

  /** The entry popped for a key not yet visited extends the route of its parent (or is the
      start) to a route of the popped loss plus the key's heat. */
  lemma SettleRoute(heat: seq<seq<int>>, rules: Rules, items: seq<Entry>,
                    dist: map<Key, int>, walks: map<Key, seq<Key>>, i: nat) returns (w: seq<Key>)
    requires Heatmap(heat) && Recorded(heat, rules, dist, walks) && Parented(heat, rules, items, dist)
    requires i < |items| && Good(heat, rules, KeyOf(items[i]))
    ensures Witness(heat, rules, w, KeyOf(items[i]), items[i].heatloss + HeatAt(heat, KeyOf(items[i])))
  {
    var k := KeyOf(items[i]);
    if |heat[0]| > 0 && items[i] == StartEntry(heat, rules) {
      w := [k];
    } else {
      var u := ParentOf(heat, rules, items, dist, i);
      RecordOf(heat, rules, dist, walks, u);
      w := Extended(heat, rules, walks[u], u, dist[u], k);
    }
  }

  /** A queued entry other than the start names a visited parent. */
  lemma ParentOf(heat: seq<seq<int>>, rules: Rules, items: seq<Entry>, dist: map<Key, int>, i: nat) returns (u: Key)
    requires Heatmap(heat) && Parented(heat, rules, items, dist) && i < |items|
    requires !(|heat[0]| > 0 && items[i] == StartEntry(heat, rules))
    ensures u in dist && items[i].heatloss == dist[u] && KeyOf(items[i]) in Successors(u)
  {
    assert items[i] in items;
    assert HasParent(heat, rules, dist, items[i]);
    u :| u in dist && items[i].heatloss == dist[u] && KeyOf(items[i]) in Successors(u);
  }

  lemma RecordOf(heat: seq<seq<int>>, rules: Rules, dist: map<Key, int>, walks: map<Key, seq<Key>>, u: Key)
    requires Heatmap(heat) && Recorded(heat, rules, dist, walks) && u in dist
    ensures u in walks && Witness(heat, rules, walks[u], u, dist[u])
  {
  }

  /** A route to u of cost c, one move further to k. */
  lemma Extended(heat: seq<seq<int>>, rules: Rules, wu: seq<Key>, u: Key, c: int, k: Key) returns (w: seq<Key>)
    requires Heatmap(heat) && Witness(heat, rules, wu, u, c)
    requires Good(heat, rules, k) && k in Successors(u)
    ensures Witness(heat, rules, w, k, c + HeatAt(heat, k))
  {
    WalkExtend(heat, rules, wu, k);
    w := wu + [k];
  }

  /** The entry of least loss popped for a key not yet visited arrives there as cheaply as
      any route can. */
  lemma SettleCheapest(heat: seq<seq<int>>, rules: Rules, items: seq<Entry>, dist: map<Key, int>, i: nat)
    requires Heatmap(heat) && Bordered(heat, rules, items, dist) && Optimal(heat, rules, dist)
    requires i < |items| && forall j :: 0 <= j < |items| ==> items[i].heatloss <= items[j].heatloss
    requires Good(heat, rules, KeyOf(items[i])) && KeyOf(items[i]) !in dist
    ensures Cheapest(heat, rules, KeyOf(items[i]), items[i].heatloss + HeatAt(heat, KeyOf(items[i])))
  {
    var k := KeyOf(items[i]);
    forall r | IsWalk(heat, rules, r) && r[|r| - 1] == k ensures items[i].heatloss + HeatAt(heat, k) <= Cost(heat, r) {
      FrontierBound(heat, rules, items, dist, r);
    }
  }

  /** When that key is at the finish, no route to the finish is cheaper. */
  lemma SettleFinish(heat: seq<seq<int>>, rules: Rules, items: seq<Entry>, dist: map<Key, int>, i: nat)
    requires Heatmap(heat) && forall k | k in dist :: !AtFinish(heat, k)
    requires Bordered(heat, rules, items, dist) && Optimal(heat, rules, dist)
    requires i < |items| && forall j :: 0 <= j < |items| ==> items[i].heatloss <= items[j].heatloss
    requires Good(heat, rules, KeyOf(items[i])) && AtFinish(heat, KeyOf(items[i]))
    ensures forall r | Reaches(heat, rules, r) :: items[i].heatloss + HeatAt(heat, KeyOf(items[i])) <= Cost(heat, r)
  {
    forall r | Reaches(heat, rules, r) ensures items[i].heatloss + HeatAt(heat, KeyOf(items[i])) <= Cost(heat, r) {
      FinishRoute(heat, rules, items, dist, i, r);
    }
  }

  /** One route of SettleFinish: the route crosses the frontier at an entry no cheaper than
      the popped one, and it ends on the same block. */
  lemma FinishRoute(heat: seq<seq<int>>, rules: Rules, items: seq<Entry>, dist: map<Key, int>, i: nat,
                    r: seq<Key>)
    requires Heatmap(heat) && forall k | k in dist :: !AtFinish(heat, k)
    requires Bordered(heat, rules, items, dist) && Optimal(heat, rules, dist)
    requires i < |items| && forall j :: 0 <= j < |items| ==> items[i].heatloss <= items[j].heatloss
    requires Good(heat, rules, KeyOf(items[i])) && AtFinish(heat, KeyOf(items[i]))
    requires Reaches(heat, rules, r)
    ensures items[i].heatloss + HeatAt(heat, KeyOf(items[i])) <= Cost(heat, r)
  {
    var last, k := r[|r| - 1], KeyOf(items[i]);
    assert Good(heat, rules, last) && AtFinish(heat, last);
    assert last.y == k.y && last.x == k.x;
    var h := HeatAt(heat, last);
    assert h == HeatAt(heat, k);
    assert last !in dist;
    FrontierBound(heat, rules, items, dist, r);
    var j :| 0 <= j < |items| && items[j].heatloss + h <= Cost(heat, r);
    assert items[i].heatloss <= items[j].heatloss;
  }

  /** With the queue empty no route reaches the finish. */
  lemma Unreachable(heat: seq<seq<int>>, rules: Rules, dist: map<Key, int>, walks: map<Key, seq<Key>>)
    requires Heatmap(heat) && Recorded(heat, rules, dist, walks)
    requires Bordered(heat, rules, [], dist) && Optimal(heat, rules, dist)
    ensures forall w :: !Reaches(heat, rules, w)
  {
    forall v | Reaches(heat, rules, v) ensures false {
      assert v[|v| - 1] !in dist;
      FrontierBound(heat, rules, [], dist, v);
    }
  }

  /** Recording a settled key keeps the records and their optimality. */
  lemma VisitRecorded(heat: seq<seq<int>>, rules: Rules, dist: map<Key, int>, walks: map<Key, seq<Key>>,
                      k: Key, c: int, w: seq<Key>)
    requires Heatmap(heat) && Recorded(heat, rules, dist, walks) && Optimal(heat, rules, dist)
    requires Good(heat, rules, k) && !AtFinish(heat, k)
    requires Witness(heat, rules, w, k, c) && Cheapest(heat, rules, k, c)
    ensures Recorded(heat, rules, dist[k := c], walks[k := w]) && Optimal(heat, rules, dist[k := c])
  {
  }

  /** Visiting the popped key and pushing its moves keeps every frontier queued. */
  lemma VisitBordered(heat: seq<seq<int>>, rules: Rules, items: seq<Entry>, dist: map<Key, int>, i: nat, c: int)
    requires Heatmap(heat) && Bordered(heat, rules, items, dist) && i < |items|
    ensures Bordered(heat, rules, Remove(items, i) + Pushes(KeyOf(items[i]), c), dist[KeyOf(items[i]) := c])
  {
    var k := KeyOf(items[i]);
    var next := Remove(items, i) + Pushes(k, c);
    var dist' := dist[k := c];
    forall u | u in dist' ensures Frontier(heat, rules, next, dist', u) {
      forall n | n in Successors(u) ensures Queued(heat, rules, next, dist', n, dist'[u]) {
        if u == k {
          PushedQueued(heat, rules, items, dist, i, c, n);
        } else {
          assert Queued(heat, rules, items, dist, n, dist[u]);
          StillQueued(heat, rules, items, dist, i, c, n, dist[u]);
        }
      }
    }
    if |heat[0]| > 0 && StartKey(rules) !in dist' {
      assert StartEntry(heat, rules) in Remove(items, i);
    }
  }

  /** A key queued before the visit is still queued after it: either it is the visited key
      or its entry stays in the queue. */
  lemma StillQueued(heat: seq<seq<int>>, rules: Rules, items: seq<Entry>, dist: map<Key, int>, i: nat, c: int,
                    n: Key, d: int)
    requires Heatmap(heat) && i < |items| && Queued(heat, rules, items, dist, n, d)
    ensures Queued(heat, rules, Remove(items, i) + Pushes(KeyOf(items[i]), c), dist[KeyOf(items[i]) := c], n, d)
  {
    var e := EntryOf(n, d);
    if Good(heat, rules, n) && n !in dist && e != items[i] {
      assert e in Remove(items, i);
    }
  }

  /** Every onward key of the visited one is queued once its entries are pushed. */
  lemma PushedQueued(heat: seq<seq<int>>, rules: Rules, items: seq<Entry>, dist: map<Key, int>, i: nat, c: int,
                     n: Key)
    requires Heatmap(heat) && i < |items| && n in Successors(KeyOf(items[i]))
    ensures Queued(heat, rules, Remove(items, i) + Pushes(KeyOf(items[i]), c), dist[KeyOf(items[i]) := c], n, c)
  {
    var k := KeyOf(items[i]);
    var rest := Remove(items, i);
    var j :| 0 <= j < |Successors(k)| && Successors(k)[j] == n;
    assert (rest + Pushes(k, c))[|rest| + j] == EntryOf(n, c);
  }

  /** Every entry still queued or newly pushed has a visited parent. */
  lemma VisitParented(heat: seq<seq<int>>, rules: Rules, items: seq<Entry>, dist: map<Key, int>, i: nat, c: int)
    requires Heatmap(heat) && Parented(heat, rules, items, dist) && i < |items|
    requires KeyOf(items[i]) !in dist && KeyOf(items[i]).consecutive >= 0
    ensures Parented(heat, rules, Remove(items, i) + Pushes(KeyOf(items[i]), c), dist[KeyOf(items[i]) := c])
  {
    var k := KeyOf(items[i]);
    var rest := Remove(items, i);
    var next := rest + Pushes(k, c);
    var dist' := dist[k := c];
    forall e | e in next ensures e.consecutive >= 0 && HasParent(heat, rules, dist', e) {
      if e in rest {
        assert HasParent(heat, rules, dist, e);
        if !(|heat[0]| > 0 && e == StartEntry(heat, rules)) {
          var u :| u in dist && e.heatloss == dist[u] && KeyOf(e) in Successors(u);
          assert u in dist' && e.heatloss == dist'[u];
        }
      } else {
        var j :| 0 <= j < |next| && next[j] == e;
        var n := Successors(k)[j - |rest|];
        assert e == EntryOf(n, c);
        MoveCounts(k, n);
        assert k in dist' && e.heatloss == dist'[k] && KeyOf(e) in Successors(k);
      }
    }
  }

  // ---------------------------------------------------------------- dijkstra

  /** All keys the search can visit: the measure that its loop decreases. */
  ghost function AllKeys(heat: seq<seq<int>>, rules: Rules): set<Key>
    requires Heatmap(heat)
  {
    set d <- Dirs, c: int, y: int, x: int | 0 <= c <= rules.limit && 0 <= y < |heat| && 0 <= x < |heat[0]| :: Key(d, c, y, x)
  }

  lemma InAllKeys(heat: seq<seq<int>>, rules: Rules, k: Key)
    requires Heatmap(heat) && Good(heat, rules, k)
    ensures k in AllKeys(heat, rules)
  {
    assert k.dir in Dirs by {
      match k.dir
      case Left =>
      case Right =>
      case Up =>
      case Down =>
      case Start =>
    }
    assert k == Key(k.dir, k.consecutive, k.y, k.x);
  }

  /** The loop over `allowed_dirs`: one new state per direction, carrying the loss so far. */
  method PushMoves(pq: Heap, k: Key, curr: int)
    modifies pq
    ensures pq.items == old(pq.items) + Pushes(k, curr)
  {
    var dirs := Allowed(k.dir);
    for j := 0 to |dirs|
      invariant pq.items == old(pq.items) + Pushes(k, curr)[..j]
    {
      var d := dirs[j];
      var (dy, dx) := Step(d);
      var consecutive := if d == k.dir then k.consecutive + 1 else 1;
      pq.Push(Entry(d, curr, consecutive, k.y + dy, k.x + dx));
      assert Pushes(k, curr)[..j + 1] == Pushes(k, curr)[..j] + [Pushes(k, curr)[j]];
    }
  }

  /** Popping an entry that `dijkstra` drops keeps the invariant. */
  lemma Drop(heat: seq<seq<int>>, rules: Rules, items: seq<Entry>,
             dist: map<Key, int>, walks: map<Key, seq<Key>>, i: nat)
    requires Heatmap(heat) && Searching(heat, rules, items, dist, walks) && i < |items|
    requires !InGrid(heat, KeyOf(items[i])) || items[i].consecutive > rules.limit || KeyOf(items[i]) in dist
    ensures Searching(heat, rules, Remove(items, i), dist, walks)
  {
    Dropping(heat, rules, items, dist, i);
  }

  /** Popping the least entry for a new key away from the finish, visiting it and pushing
      its moves keeps the invariant. */
  lemma Visit(heat: seq<seq<int>>, rules: Rules, items: seq<Entry>,
              dist: map<Key, int>, walks: map<Key, seq<Key>>, i: nat, k: Key, c: int) returns (route: seq<Key>)
    requires Heatmap(heat) && Searching(heat, rules, items, dist, walks) && i < |items|
    requires forall j :: 0 <= j < |items| ==> CompareStates(items[i], items[j]) != Less
    requires k == KeyOf(items[i]) && Good(heat, rules, k) && k !in dist && !AtFinish(heat, k)
    requires c == items[i].heatloss + HeatAt(heat, k)
    ensures k in AllKeys(heat, rules)
    ensures Searching(heat, rules, Remove(items, i) + Pushes(k, c), dist[k := c], walks[k := route])
  {
    assert items[i] in items;
    InAllKeys(heat, rules, k);
    route := SettleRoute(heat, rules, items, dist, walks, i);
    SettleCheapest(heat, rules, items, dist, i);
    VisitRecorded(heat, rules, dist, walks, k, c, route);
    VisitBordered(heat, rules, items, dist, i, c);
    VisitParented(heat, rules, items, dist, i, c);
  }

  /** Popping the least entry for a new key at the finish: its loss is that of some route to
      the finish and no route there is cheaper. */
  lemma Finish(heat: seq<seq<int>>, rules: Rules, items: seq<Entry>,
               dist: map<Key, int>, walks: map<Key, seq<Key>>, i: nat)
    requires Heatmap(heat) && Searching(heat, rules, items, dist, walks) && i < |items|
    requires forall j :: 0 <= j < |items| ==> CompareStates(items[i], items[j]) != Less
    requires InGrid(heat, KeyOf(items[i])) && items[i].consecutive <= rules.limit
    requires AtFinish(heat, KeyOf(items[i]))
    ensures exists w :: Reaches(heat, rules, w) && Cost(heat, w) == items[i].heatloss + HeatAt(heat, KeyOf(items[i]))
    ensures forall w | Reaches(heat, rules, w) :: items[i].heatloss + HeatAt(heat, KeyOf(items[i])) <= Cost(heat, w)
  {
    assert items[i] in items;
    var route := SettleRoute(heat, rules, items, dist, walks, i);
    assert Reaches(heat, rules, route);
    SettleFinish(heat, rules, items, dist, i);
  }

  lemma KeysGrow(dist: map<Key, int>, k: Key, c: int)
    ensures dist[k := c].Keys == dist.Keys + {k}
  {
  }

  /** `dijkstra`: the least heat loss over all routes to the bottom-right block, or None
      when no route reaches it. */
  method Dijkstra(heat: seq<seq<int>>, rules: Rules) returns (r: Option<int>)
    requires Heatmap(heat)
    ensures r.Some? ==> exists w :: Reaches(heat, rules, w) && Cost(heat, w) == r.value
    ensures r.Some? ==> forall w | Reaches(heat, rules, w) :: r.value <= Cost(heat, w)
    ensures r.None? ==> forall w :: !Reaches(heat, rules, w)
  {
    var h, w := |heat|, |heat[0]|;
    var visited: set<Key> := {};
    ghost var dist: map<Key, int> := map[];
    ghost var walks: map<Key, seq<Key>> := map[];
    var pq := new Heap();
    if w > 0 {
      pq.Push(Entry(rules.first, -heat[0][0], 0, 0, 0));
    }
    while !pq.IsEmpty()
      invariant Searching(heat, rules, pq.items, dist, walks)
      invariant visited == dist.Keys
      decreases AllKeys(heat, rules) - visited, |pq.items|
    {
      ghost var items := pq.items;
      var state, i := pq.Pop();
      assert pq.items == Remove(items, i);
      var y, x := state.y, state.x;
      var key := KeyOf(state);
      if y < 0 || y >= h || x < 0 || x >= w || state.consecutive > rules.limit || key in visited {
        Drop(heat, rules, items, dist, walks, i);
        continue;
      }
      var curr := state.heatloss + heat[y][x];
      if y == h - 1 && x == w - 1 {
        Finish(heat, rules, items, dist, walks, i);
        return Some(curr);
      }
      ghost var route := Visit(heat, rules, items, dist, walks, i, key, curr);
      KeysGrow(dist, key, curr);
      visited := visited + {key};
      dist, walks := dist[key := curr], walks[key := route];
      PushMoves(pq, key, curr);
      assert pq.items == Remove(items, i) + Pushes(key, curr);
    }
    Unreachable(heat, rules, dist, walks);
    return None;
  }

  // ---------------------------------------------------------------- parsing and solving

  /** `to_digit(10)`: the value of a decimal digit, None where the source's `unwrap` panics. */
  function DigitOf(c: char): (r: Option<int>)
    ensures r.Some? <==> '0' <= c <= '9'
    ensures r.Some? ==> 0 <= r.value <= 9 && DigitChar(r.value) == c
  {
    if '0' <= c <= '9' then Some(c as int - '0' as int) else None
  }

  function DigitChar(d: int): char
    requires 0 <= d <= 9
  {
    ('0' as int + d) as char
  }

  lemma DigitRoundTrip(d: int)
    requires 0 <= d <= 9
    ensures DigitOf(DigitChar(d)) == Some(d)
  {
  }

  /** One line of the map as digits, or None when some character is not a digit. */
  function ParseRow(line: string): (r: Option<seq<int>>)
    ensures r.Some? ==> |r.value| == |line| &&
                        forall i :: 0 <= i < |line| ==> DigitOf(line[i]) == Some(r.value[i])
    ensures r.None? ==> exists i :: 0 <= i < |line| && DigitOf(line[i]).None?
  {
    if line == [] then Some([])
    else
      match (ParseRow(line[..|line| - 1]), DigitOf(line[|line| - 1]))
      case (Some(row), Some(d)) => Some(row + [d])
      case (None, _) => None
      case (_, None) => None
  }

  /** `parse`: the heat map, one row per line. */
  function ParseMap(lines: seq<string>): (r: Option<seq<seq<int>>>)
    ensures r.Some? ==> |r.value| == |lines| &&
                        forall i :: 0 <= i < |lines| ==> ParseRow(lines[i]) == Some(r.value[i])
    ensures r.None? ==> exists i :: 0 <= i < |lines| && ParseRow(lines[i]).None?
  {
    if lines == [] then Some([])
    else
      match (ParseMap(lines[..|lines| - 1]), ParseRow(lines[|lines| - 1]))
      case (Some(m), Some(row)) => Some(m + [row])
      case (None, _) => None
      case (_, None) => None
  }

  /** Parsed rows hold digits only. */
  lemma ParsedDigits(lines: seq<string>)
    requires ParseMap(lines).Some?
    ensures forall i, j :: 0 <= i < |lines| && 0 <= j < |ParseMap(lines).value[i]| ==>
              0 <= ParseMap(lines).value[i][j] <= 9
  {
    var m := ParseMap(lines).value;
    forall i, j | 0 <= i < |lines| && 0 <= j < |m[i]| ensures 0 <= m[i][j] <= 9 {
      assert ParseRow(lines[i]) == Some(m[i]);
      assert DigitOf(lines[i][j]) == Some(m[i][j]);
    }
  }

  /** `parse` then `solve` under the given rules: the least heat loss, or None where the
      source panics (a character that is not a digit, an empty map, no route to the finish)
      and on rows of unequal length. */
  method Run(lines: seq<string>, rules: Rules) returns (r: Option<int>)
    ensures ParseMap(lines).None? || lines == [] ==> r.None?
    ensures r.Some? ==> var heat := ParseMap(lines).value;
              Heatmap(heat) &&
              (exists w :: Reaches(heat, rules, w) && Cost(heat, w) == r.value) &&
              forall w | Reaches(heat, rules, w) :: r.value <= Cost(heat, w)
    ensures ParseMap(lines).Some? && Heatmap(ParseMap(lines).value) && r.None? ==>
              forall w :: !Reaches(ParseMap(lines).value, rules, w)
  {
    var parsed := ParseMap(lines);
    if parsed.None? {
      return None;
    }
    var heat := parsed.value;
    if |heat| == 0 || exists i :: 0 <= i < |heat| && |heat[i]| != |heat[0]| {
      return None;
    }
    ParsedDigits(lines);
    r := Dijkstra(heat, rules);
  }
}
