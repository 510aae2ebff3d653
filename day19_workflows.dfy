/** Day 19: machine parts rated on four attributes x, m, a, s go through named workflows.
    Each workflow is a list of rules tried in order: a rule `a<2006:qkq` sends a part whose
    rating on a is below 2006 to workflow qkq (or accepts it for `A`, rejects it for `R`);
    a rule without a test sends every part. Evaluation starts at workflow `in`. Part 1 sums
    the four ratings of the accepted parts; part 2 counts the accepted rating combinations
    with every rating between 1 and 4000, by pushing whole boxes of ratings through the
    rules and splitting a box where a rule cuts it.

    The source loops for ever on a workflow cycle and on a workflow none of whose rules
    fires, and panics on a missing workflow. The model bounds the number of workflow jumps
    by a `fuel` parameter and reports every one of those outcomes as None. */
module Day19Workflows {
  import opened Wrappers
  import opened Text

  datatype Attr = X | M | A | S

  datatype Comp = Lt | Gt

  /** `WorkflowType`: where a rule sends a part. */
  datatype Target = Rejected | Accepted | Continue(name: string)

  datatype Rule = Evaluate(attr: Attr, comp: Comp, value: int, target: Target) | Immediate(target: Target)

  datatype Workflow = Workflow(name: string, rules: seq<Rule>)

  type Workflows = map<string, Workflow>

  datatype Part = Part(x: int, m: int, a: int, s: int)

  const Start: string := "in"

  function Rating(p: Part, attr: Attr): int
  {
    match attr
    case X => p.x
    case M => p.m
    case A => p.a
    case S => p.s
  }

  /** `xmas_sum`. */
  function XmasSum(p: Part): int
  {
    p.x + p.m + p.a + p.s
  }

  /** The strict test of a rule: `<` or `>` against its value. */
  predicate Holds(rating: int, comp: Comp, value: int)
  {
    match comp
    case Lt => rating < value
    case Gt => rating > value
  }

  /** A rule fires for a part: it has no test, or its test holds. */
  predicate Fires(rule: Rule, p: Part)
  {
    rule.Immediate? || Holds(Rating(p, rule.attr), rule.comp, rule.value)
  }

  // ---------------------------------------------------------------- part 1: one part at a time

  /** Where the first rule that fires sends the part, or None when no rule fires. */
  function Route(rules: seq<Rule>, p: Part): (r: Option<Target>)
    ensures r.None? <==> forall i :: 0 <= i < |rules| ==> !Fires(rules[i], p)
    ensures r.Some? ==> exists i :: 0 <= i < |rules| && Fires(rules[i], p) && rules[i].target == r.value &&
                                    forall j :: 0 <= j < i ==> !Fires(rules[j], p)
  {
    if rules == [] then None
    else if Fires(rules[0], p) then Some(rules[0].target)
    else
      var r := Route(rules[1..], p);
      assert forall i :: 0 < i < |rules| ==> rules[i] == rules[1..][i - 1];
      if r.Some? then
        var i :| 0 <= i < |rules[1..]| && Fires(rules[1..][i], p) && rules[1..][i].target == r.value &&
                 forall j :: 0 <= j < i ==> !Fires(rules[1..][j], p);
        assert Fires(rules[i + 1], p) && rules[i + 1].target == r.value;
        assert forall j :: 0 < j < i + 1 ==> !Fires(rules[j], p);
        r
      else r
  }

  /** The outcome of evaluating a part from a workflow with at most `fuel` more jumps:
      Some(true) accepted, Some(false) rejected, None when the workflow is missing, when no
      rule fires (the source spins on the same workflow for ever) or when the fuel runs
      out. */
  function Verdict(wfs: Workflows, name: string, p: Part, fuel: nat): Option<bool>
    decreases fuel
  {
    if name !in wfs then None
    else
      match Route(wfs[name].rules, p)
      case None => None
      case Some(Accepted) => Some(true)
      case Some(Rejected) => Some(false)
      case Some(Continue(next)) => if fuel == 0 then None else Verdict(wfs, next, p, fuel - 1)
  }

  /** More fuel never changes an outcome that was reached: the fuel only bounds the search. */
  lemma {:induction false} VerdictSettled(wfs: Workflows, name: string, p: Part, fuel: nat, more: nat)
    requires fuel <= more && Verdict(wfs, name, p, fuel).Some?
    ensures Verdict(wfs, name, p, more) == Verdict(wfs, name, p, fuel)
    decreases fuel
  {
    if name in wfs {
      match Route(wfs[name].rules, p)
      case None =>
      case Some(Accepted) =>
      case Some(Rejected) =>
      case Some(Continue(next)) =>
        VerdictSettled(wfs, next, p, fuel - 1, more - 1);
    }
  }

  /** The rule loop of `check_accepted`: the target of the first rule that fires, if any. */
  method FirstFiring(rules: seq<Rule>, p: Part) returns (next: Option<Target>)
    ensures next == Route(rules, p)
  {
    next := None;
    for i := 0 to |rules|
      invariant next.None? ==> Route(rules, p) == Route(rules[i..], p)
      invariant next.Some? ==> Route(rules, p) == next
    {
      if Fires(rules[i], p) {
        next := Some(rules[i].target);
        RouteAt(rules, p, i);
        break;
      }
      RouteSkip(rules, p, i);
    }
    if next.None? {
      assert rules[|rules|..] == [];
    }
  }

  /** `check_accepted`: follow the rules from `in`, jumping between workflows at most
      `fuel` times. */
  method CheckAccepted(wfs: Workflows, p: Part, fuel: nat) returns (r: Option<bool>)
    ensures r == Verdict(wfs, Start, p, fuel)
  {
    var curr := Start;
    var left := fuel;
    while true
      invariant Verdict(wfs, curr, p, left) == Verdict(wfs, Start, p, fuel)
      decreases left
    {
      if curr !in wfs {
        return None;
      }
      var next := FirstFiring(wfs[curr].rules, p);
      if next.None? {
        return None;
      }
      match next.value
      case Accepted =>
        return Some(true);
      case Rejected =>
        return Some(false);
      case Continue(name) =>
        if left == 0 {
          return None;
        }
        curr, left := name, left - 1;
    }
  }

  lemma RouteAt(rules: seq<Rule>, p: Part, i: nat)
    requires i < |rules| && Route(rules, p) == Route(rules[i..], p) && Fires(rules[i], p)
    ensures Route(rules, p) == Some(rules[i].target)
  {
    assert rules[i..][0] == rules[i];
  }

  lemma RouteSkip(rules: seq<Rule>, p: Part, i: nat)
    requires i < |rules| && !Fires(rules[i], p)
    ensures Route(rules[i..], p) == Route(rules[i + 1..], p)
  {
    assert rules[i..][0] == rules[i];
    assert rules[i..][1..] == rules[i + 1..];
  }

  /** The source's part 1 total: the rating sum of the accepted parts; None when some part
      is never decided within the fuel. */
  function Total(wfs: Workflows, parts: seq<Part>, fuel: nat): Option<int>
  {
    if parts == [] then Some(0)
    else
      var t, v := Total(wfs, parts[..|parts| - 1], fuel), Verdict(wfs, Start, parts[|parts| - 1], fuel);
      if t.None? || v.None? then None
      else if v.value then Some(t.value + XmasSum(parts[|parts| - 1]))
      else t
  }

  /** A total reached with some fuel is the total with any more fuel. */
  lemma {:induction false} TotalSettled(wfs: Workflows, parts: seq<Part>, fuel: nat, more: nat)
    requires fuel <= more && Total(wfs, parts, fuel).Some?
    ensures Total(wfs, parts, more) == Total(wfs, parts, fuel)
  {
    if parts != [] {
      TotalSettled(wfs, parts[..|parts| - 1], fuel, more);
      VerdictSettled(wfs, Start, parts[|parts| - 1], fuel, more);
    }
  }

  /** The accepted parts, in their order. */
  function Kept(wfs: Workflows, parts: seq<Part>, fuel: nat): seq<Part>
  {
    if parts == [] then []
    else (if Verdict(wfs, Start, parts[0], fuel) == Some(true) then [parts[0]] else []) + Kept(wfs, parts[1..], fuel)
  }

  function RatingSum(parts: seq<Part>): int
  {
    if parts == [] then 0 else XmasSum(parts[0]) + RatingSum(parts[1..])
  }

  /** When every part is decided, the total is the rating sum of exactly the accepted
      parts. */
  lemma {:induction false} TotalIsSum(wfs: Workflows, parts: seq<Part>, fuel: nat)
    requires forall i :: 0 <= i < |parts| ==> Verdict(wfs, Start, parts[i], fuel).Some?
    ensures Total(wfs, parts, fuel) == Some(RatingSum(Kept(wfs, parts, fuel)))
  {
    if parts != [] {
      var init, last := parts[..|parts| - 1], parts[|parts| - 1];
      assert forall i :: 0 <= i < |init| ==> init[i] == parts[i];
      TotalIsSum(wfs, init, fuel);
      var v := Verdict(wfs, Start, last, fuel);
      assert v.Some?;
      var gain := if v.value then XmasSum(last) else 0;
      TotalLast(wfs, parts, fuel);
      var tail := if v.value then [last] else [];
      KeptLast(wfs, parts, fuel);
      RatingSumAppend(Kept(wfs, init, fuel), tail);
      assert RatingSum(tail) == gain by {
        if v.value {
          assert RatingSum(tail) == XmasSum(last) + RatingSum([]);
        }
      }
      var before := RatingSum(Kept(wfs, init, fuel));
      assert Total(wfs, parts, fuel) == Some(before + gain);
      assert RatingSum(Kept(wfs, parts, fuel)) == before + gain;
    }
  }

  /** One step of `Total` when the earlier parts have a total and the last part a verdict. */
  lemma TotalLast(wfs: Workflows, parts: seq<Part>, fuel: nat)
    requires parts != [] && Total(wfs, parts[..|parts| - 1], fuel).Some?
    requires Verdict(wfs, Start, parts[|parts| - 1], fuel).Some?
    ensures var last := parts[|parts| - 1];
            Total(wfs, parts, fuel) ==
            Some(Total(wfs, parts[..|parts| - 1], fuel).value + if Verdict(wfs, Start, last, fuel).value then XmasSum(last) else 0)
  {
  }

  /** `KeptSnoc` for a non-empty list split before its last part. */
  lemma KeptLast(wfs: Workflows, parts: seq<Part>, fuel: nat)
    requires parts != []
    ensures var last := parts[|parts| - 1];
            Kept(wfs, parts, fuel) ==
            Kept(wfs, parts[..|parts| - 1], fuel) + (if Verdict(wfs, Start, last, fuel) == Some(true) then [last] else [])
  {
    assert parts == parts[..|parts| - 1] + [parts[|parts| - 1]];
    KeptSnoc(wfs, parts[..|parts| - 1], parts[|parts| - 1], fuel);
  }

  lemma {:induction false} KeptSnoc(wfs: Workflows, init: seq<Part>, last: Part, fuel: nat)
    ensures Kept(wfs, init + [last], fuel) ==
            Kept(wfs, init, fuel) + (if Verdict(wfs, Start, last, fuel) == Some(true) then [last] else [])
  {
    if init == [] {
      assert [] + [last] == [last];
      assert [last][1..] == [];
    } else {
      assert (init + [last])[0] == init[0];
      assert (init + [last])[1..] == init[1..] + [last];
      KeptSnoc(wfs, init[1..], last, fuel);
    }
  }

  lemma {:induction false} RatingSumAppend(a: seq<Part>, b: seq<Part>)
    ensures RatingSum(a + b) == RatingSum(a) + RatingSum(b)
  {
    if a == [] {
      assert a + b == b;
    } else {
      assert (a + b)[0] == a[0];
      assert (a + b)[1..] == a[1..] + b;
      RatingSumAppend(a[1..], b);
    }
  }

  /** `solve` for part 1: the loop over the parts. */
  method SumAccepted(wfs: Workflows, parts: seq<Part>, fuel: nat) returns (r: Option<int>)
    ensures r == Total(wfs, parts, fuel)
  {
    var total := 0;
    for i := 0 to |parts|
      invariant Total(wfs, parts[..i], fuel) == Some(total)
    {
      assert parts[..i + 1][..i] == parts[..i];
      var accepted := CheckAccepted(wfs, parts[i], fuel);
      if accepted.None? {
        NoTotal(wfs, parts, fuel, i);
        return None;
      }
      if accepted.value {
        total := total + XmasSum(parts[i]);
      }
    }
    assert parts[..|parts|] == parts;
    return Some(total);
  }

  /** A part left undecided leaves the total undecided. */
  lemma {:induction false} NoTotal(wfs: Workflows, parts: seq<Part>, fuel: nat, i: nat)
    requires i < |parts| && Verdict(wfs, Start, parts[i], fuel).None?
    ensures Total(wfs, parts, fuel).None?
    decreases |parts|
  {
    if i < |parts| - 1 {
      assert parts[..|parts| - 1][i] == parts[i];
      NoTotal(wfs, parts[..|parts| - 1], fuel, i);
    }
  }

  // ---------------------------------------------------------------- part 2: boxes of ratings

  /** A closed range of ratings, `from` to `to` inclusive. */
  datatype Span = Span(from: int, to: int)

  /** `PartRange`: one span of ratings per attribute. */
  datatype Box = Box(x: Span, m: Span, a: Span, s: Span)

  /** `PartRange::default`: every rating from 1 to 4000. */
  const Everything: Box := Box(Span(1, 4000), Span(1, 4000), Span(1, 4000), Span(1, 4000))

  function Get(b: Box, attr: Attr): Span
  {
    match attr
    case X => b.x
    case M => b.m
    case A => b.a
    case S => b.s
  }

  /** The box with the span of one attribute replaced (`PartRange { x_from, x_to, ..b }`). */
  function With(b: Box, attr: Attr, sp: Span): (r: Box)
    ensures Get(r, attr) == sp
    ensures forall other :: other != attr ==> Get(r, other) == Get(b, other)
  {
    match attr
    case X => b.(x := sp)
    case M => b.(m := sp)
    case A => b.(a := sp)
    case S => b.(s := sp)
  }

  function Width(sp: Span): int
  {
    sp.to - sp.from + 1
  }

  /** `count_distinct`: the product of the four widths. */
  function Volume(b: Box): int
  {
    Width(b.x) * Width(b.m) * Width(b.a) * Width(b.s)
  }

  predicate Within(v: int, sp: Span)
  {
    sp.from <= v <= sp.to
  }

  predicate Nonempty(b: Box)
  {
    b.x.from <= b.x.to && b.m.from <= b.m.to && b.a.from <= b.a.to && b.s.from <= b.s.to
  }

  predicate Inside(p: Part, b: Box)
  {
    Within(p.x, b.x) && Within(p.m, b.m) && Within(p.a, b.a) && Within(p.s, b.s)
  }

  /** The parts whose four ratings lie in the box. */
  ghost function Points(b: Box): (r: set<Part>)
    ensures forall p :: p in r <==> Inside(p, b)
  {
    var r := set x, m, a, s | b.x.from <= x <= b.x.to && b.m.from <= m <= b.m.to && b.a.from <= a <= b.a.to &&
                              b.s.from <= s <= b.s.to :: Part(x, m, a, s);
    assert forall p :: Inside(p, b) ==> p == Part(p.x, p.m, p.a, p.s);
    r
  }

  lemma InsideAt(p: Part, b: Box, attr: Attr)
    requires Inside(p, b)
    ensures Within(Rating(p, attr), Get(b, attr))
  {
  }

  lemma InsideWith(p: Part, b: Box, attr: Attr, sp: Span)
    requires Inside(p, b)
    ensures Inside(p, With(b, attr, sp)) <==> Within(Rating(p, attr), sp)
  {
    match attr
    case X =>
    case M =>
    case A =>
    case S =>
  }

  lemma InsideFrom(p: Part, b: Box, attr: Attr, sp: Span)
    requires Inside(p, With(b, attr, sp)) && Within(Rating(p, attr), Get(b, attr))
    ensures Inside(p, b)
  {
    match attr
    case X =>
    case M =>
    case A =>
    case S =>
  }

  /** Cutting one attribute's span into two adjacent spans cuts the box's points into two
      disjoint sets. */
  lemma CutPoints(b: Box, attr: Attr, lo: Span, hi: Span)
    requires lo.from == Get(b, attr).from && hi.to == Get(b, attr).to && hi.from == lo.to + 1
    requires lo.from <= lo.to && hi.from <= hi.to
    ensures Points(b) == Points(With(b, attr, lo)) + Points(With(b, attr, hi))
    ensures Points(With(b, attr, lo)) !! Points(With(b, attr, hi))
  {
    forall p | p in Points(b)
      ensures p in Points(With(b, attr, lo)) || p in Points(With(b, attr, hi))
    {
      InsideAt(p, b, attr);
      InsideWith(p, b, attr, lo);
      InsideWith(p, b, attr, hi);
    }
    forall p | p in Points(With(b, attr, lo)) + Points(With(b, attr, hi))
      ensures p in Points(b)
    {
      var sp := if p in Points(With(b, attr, lo)) then lo else hi;
      InsideAt(p, With(b, attr, sp), attr);
      InsideFrom(p, b, attr, sp);
    }
    forall p | p in Points(With(b, attr, lo))
      ensures p !in Points(With(b, attr, hi))
    {
      InsideAt(p, With(b, attr, lo), attr);
    }
  }

  /** The widths multiplied in any order: the volume is one attribute's width times the
      product of the other three. */
  function Rest(b: Box, attr: Attr): int
  {
    match attr
    case X => Width(b.m) * Width(b.a) * Width(b.s)
    case M => Width(b.x) * Width(b.a) * Width(b.s)
    case A => Width(b.x) * Width(b.m) * Width(b.s)
    case S => Width(b.x) * Width(b.m) * Width(b.a)
  }

  lemma VolumeBy(b: Box, attr: Attr)
    ensures Volume(b) == Width(Get(b, attr)) * Rest(b, attr)
  {
    var x, m, a, s := Width(b.x), Width(b.m), Width(b.a), Width(b.s);
    assert Volume(b) == x * m * a * s;
    match attr
    case X => assert x * m * a * s == x * (m * a * s);
    case M => assert x * m * a * s == m * (x * a * s);
    case A => assert x * m * a * s == a * (x * m * s);
    case S =>
  }

  lemma RestWith(b: Box, attr: Attr, sp: Span)
    ensures Rest(With(b, attr, sp), attr) == Rest(b, attr)
  {
  }

  /** Cutting a span in two splits the volume into the two volumes. */
  lemma CutVolume(b: Box, attr: Attr, lo: Span, hi: Span)
    requires lo.from == Get(b, attr).from && hi.to == Get(b, attr).to && hi.from == lo.to + 1
    ensures Volume(b) == Volume(With(b, attr, lo)) + Volume(With(b, attr, hi))
  {
    VolumeBy(b, attr);
    VolumeBy(With(b, attr, lo), attr);
    VolumeBy(With(b, attr, hi), attr);
    RestWith(b, attr, lo);
    RestWith(b, attr, hi);
    var r := Rest(b, attr);
    assert Width(Get(b, attr)) * r == Width(lo) * r + Width(hi) * r;
  }

  function Girth(b: Box): int
  {
    Width(b.x) + Width(b.m) + Width(b.a) + Width(b.s)
  }

  /** `count_distinct` counts exactly the points of a non-empty box. */
  lemma {:induction false} PointsCount(b: Box)
    requires Nonempty(b)
    ensures |Points(b)| == Volume(b)
    decreases Girth(b)
  {
    var attr :| attr == X || attr == M || attr == A || attr == S;
    if Width(b.x) > 1 || Width(b.m) > 1 || Width(b.a) > 1 || Width(b.s) > 1 {
      var attr := if Width(b.x) > 1 then X else if Width(b.m) > 1 then M else if Width(b.a) > 1 then A else S;
      var sp := Get(b, attr);
      var lo, hi := Span(sp.from, sp.from), Span(sp.from + 1, sp.to);
      CutPoints(b, attr, lo, hi);
      CutVolume(b, attr, lo, hi);
      PointsCount(With(b, attr, lo));
      PointsCount(With(b, attr, hi));
    } else {
      var only := Part(b.x.from, b.m.from, b.a.from, b.s.from);
      assert Points(b) == {only};
    }
  }

  /** Which workflow and rule `count_all_accepted` and `Decide` can reach next, for
      termination: within one workflow the rule index only grows. */
  function Rank(wfs: Workflows, name: string, idx: nat): nat
  {
    if name in wfs && idx < |wfs[name].rules| then |wfs[name].rules| - idx + 1 else 1
  }

  /** The sum of two counts, None when either is. */
  function Plus(u: Option<int>, v: Option<int>): (r: Option<int>)
    ensures r.Some? <==> u.Some? && v.Some?
    ensures r.Some? ==> r.value == u.value + v.value
  {
    if u.Some? && v.Some? then Some(u.value + v.value) else None
  }

  /** `count_all_accepted`: the number of parts of the box accepted from rule `idx` of
      workflow `name` on; None where the source panics (a missing workflow, a rule index
      past the end of a workflow whose rules all let part of the box through) or the fuel
      for workflow jumps runs out. */
  function CountAccepted(wfs: Workflows, name: string, idx: nat, b: Box, fuel: nat): Option<int>
    decreases fuel, Rank(wfs, name, idx)
  {
    if name !in wfs || idx >= |wfs[name].rules| then None
    else
      match wfs[name].rules[idx]
      case Immediate(t) => Send(wfs, t, b, fuel)
      case Evaluate(attr, comp, v, t) =>
        var sp := Get(b, attr);
        match comp
        case Gt =>
          if sp.from > v then Send(wfs, t, b, fuel)
          else if sp.to <= v then CountAccepted(wfs, name, idx + 1, b, fuel)
          else Plus(Send(wfs, t, With(b, attr, Span(v + 1, sp.to)), fuel),
                    CountAccepted(wfs, name, idx + 1, With(b, attr, Span(sp.from, v)), fuel))
        case Lt =>
          if sp.to < v then Send(wfs, t, b, fuel)
          else if sp.from >= v then CountAccepted(wfs, name, idx + 1, b, fuel)
          else Plus(Send(wfs, t, With(b, attr, Span(sp.from, v - 1)), fuel),
                    CountAccepted(wfs, name, idx + 1, With(b, attr, Span(v, sp.to)), fuel))
  }

  /** What a target makes of a whole box: all of it accepted, none of it, or the count of
      the next workflow from its first rule. */
  function Send(wfs: Workflows, t: Target, b: Box, fuel: nat): Option<int>
    decreases fuel, 0
  {
    match t
    case Accepted => Some(Volume(b))
    case Rejected => Some(0)
    case Continue(next) => if fuel == 0 then None else CountAccepted(wfs, next, 0, b, fuel - 1)
  }

  /** `solve` for part 2. */
  function CountAll(wfs: Workflows, fuel: nat): Option<int>
  {
    CountAccepted(wfs, Start, 0, Everything, fuel)
  }

  /** The rules from `idx` on applied to one part: the reference the box count is measured
      against. */
  function Decide(wfs: Workflows, name: string, idx: nat, p: Part, fuel: nat): Option<bool>
    decreases fuel, Rank(wfs, name, idx)
  {
    if name !in wfs || idx >= |wfs[name].rules| then None
    else
      var rule := wfs[name].rules[idx];
      if Fires(rule, p) then Goto(wfs, rule.target, p, fuel) else Decide(wfs, name, idx + 1, p, fuel)
  }

  function Goto(wfs: Workflows, t: Target, p: Part, fuel: nat): Option<bool>
    decreases fuel, 0
  {
    match t
    case Accepted => Some(true)
    case Rejected => Some(false)
    case Continue(next) => if fuel == 0 then None else Decide(wfs, next, 0, p, fuel - 1)
  }

  function Follow(wfs: Workflows, r: Option<Target>, p: Part, fuel: nat): Option<bool>
  {
    match r
    case None => None
    case Some(t) => Goto(wfs, t, p, fuel)
  }

  lemma {:induction false} DecideRoute(wfs: Workflows, name: string, idx: nat, p: Part, fuel: nat)
    requires name in wfs && idx <= |wfs[name].rules|
    ensures Decide(wfs, name, idx, p, fuel) == Follow(wfs, Route(wfs[name].rules[idx..], p), p, fuel)
    decreases |wfs[name].rules| - idx
  {
    var rules := wfs[name].rules;
    if idx < |rules| {
      assert rules[idx..][0] == rules[idx];
      if !Fires(rules[idx], p) {
        assert rules[idx..][1..] == rules[idx + 1..];
        DecideRoute(wfs, name, idx + 1, p, fuel);
      }
    }
  }

  /** Rule by rule, one part at a time, part 2 decides a part exactly as part 1's
      `check_accepted` does. */
  lemma {:induction false} DecideIsVerdict(wfs: Workflows, name: string, p: Part, fuel: nat)
    ensures Decide(wfs, name, 0, p, fuel) == Verdict(wfs, name, p, fuel)
    decreases fuel
  {
    if name in wfs {
      DecideRoute(wfs, name, 0, p, fuel);
      assert wfs[name].rules[0..] == wfs[name].rules;
      match Route(wfs[name].rules, p)
      case None =>
      case Some(Accepted) =>
      case Some(Rejected) =>
      case Some(Continue(next)) =>
        if fuel > 0 {
          DecideIsVerdict(wfs, next, p, fuel - 1);
        }
    }
  }

  /** The parts of the box accepted from rule `idx` of workflow `name` on. */
  ghost function Winners(wfs: Workflows, name: string, idx: nat, b: Box, fuel: nat): set<Part>
  {
    set p | p in Points(b) && Decide(wfs, name, idx, p, fuel) == Some(true)
  }

  /** The parts of the box a target accepts. */
  ghost function Reached(wfs: Workflows, t: Target, b: Box, fuel: nat): set<Part>
  {
    set p | p in Points(b) && Goto(wfs, t, p, fuel) == Some(true)
  }

  /** Where a rule sends every part of a box, the box's winners are the target's. */
  lemma TakeAll(wfs: Workflows, name: string, idx: nat, b: Box, fuel: nat)
    requires name in wfs && idx < |wfs[name].rules|
    requires forall p :: p in Points(b) ==> Fires(wfs[name].rules[idx], p)
    ensures forall p :: p in Points(b) ==> Decide(wfs, name, idx, p, fuel) == Goto(wfs, wfs[name].rules[idx].target, p, fuel)
    ensures Winners(wfs, name, idx, b, fuel) == Reached(wfs, wfs[name].rules[idx].target, b, fuel)
  {
  }

  /** Where a rule lets every part of a box through, the box's winners are the next
      rule's. */
  lemma PassAll(wfs: Workflows, name: string, idx: nat, b: Box, fuel: nat)
    requires name in wfs && idx < |wfs[name].rules|
    requires forall p :: p in Points(b) ==> !Fires(wfs[name].rules[idx], p)
    ensures forall p :: p in Points(b) ==> Decide(wfs, name, idx, p, fuel) == Decide(wfs, name, idx + 1, p, fuel)
    ensures Winners(wfs, name, idx, b, fuel) == Winners(wfs, name, idx + 1, b, fuel)
  {
  }

  /** `count_all_accepted` on a non-empty box: when it returns a count, every part of the
      box is decided and the count is the number of accepted parts. */
  lemma {:induction false} CountIsWinners(wfs: Workflows, name: string, idx: nat, b: Box, fuel: nat)
    requires Nonempty(b) && CountAccepted(wfs, name, idx, b, fuel).Some?
    ensures forall p :: p in Points(b) ==> Decide(wfs, name, idx, p, fuel).Some?
    ensures CountAccepted(wfs, name, idx, b, fuel).value == |Winners(wfs, name, idx, b, fuel)|
    decreases fuel, Rank(wfs, name, idx), 1
  {
    var rule := wfs[name].rules[idx];
    match rule
    case Immediate(t) =>
      TakeAll(wfs, name, idx, b, fuel);
      SendIsReached(wfs, t, b, fuel);
    case Evaluate(attr, comp, v, t) =>
      var sp := Get(b, attr);
      var taken, passed :=
        if comp == Gt then Span(v + 1, sp.to) else Span(sp.from, v - 1),
        if comp == Gt then Span(sp.from, v) else Span(v, sp.to);
      forall p | p in Points(b)
        ensures Fires(rule, p) <==> Within(Rating(p, attr), taken)
      {
        InsideAt(p, b, attr);
      }
      if (comp == Gt && sp.from > v) || (comp == Lt && sp.to < v) {
        TakeAll(wfs, name, idx, b, fuel);
        SendIsReached(wfs, t, b, fuel);
      } else if (comp == Gt && sp.to <= v) || (comp == Lt && sp.from >= v) {
        PassAll(wfs, name, idx, b, fuel);
        CountIsWinners(wfs, name, idx + 1, b, fuel);
      } else {
        CutWinners(wfs, name, idx, b, fuel, taken, passed);
      }
  }

  /** The third case of `count_all_accepted`: the rule cuts the box in two, the part it
      takes goes to the target and the rest on to the next rule. */
  lemma {:induction false} CutWinners(wfs: Workflows, name: string, idx: nat, b: Box, fuel: nat, taken: Span, passed: Span)
    requires Nonempty(b) && name in wfs && idx < |wfs[name].rules| && wfs[name].rules[idx].Evaluate?
    requires var rule := wfs[name].rules[idx]; var sp := Get(b, rule.attr);
      if rule.comp == Gt then sp.from <= rule.value < sp.to && taken == Span(rule.value + 1, sp.to) && passed == Span(sp.from, rule.value)
      else sp.from < rule.value <= sp.to && taken == Span(sp.from, rule.value - 1) && passed == Span(rule.value, sp.to)
    requires forall p :: p in Points(b) ==> (Fires(wfs[name].rules[idx], p) <==> Within(Rating(p, wfs[name].rules[idx].attr), taken))
    requires CountAccepted(wfs, name, idx, b, fuel).Some?
    ensures forall p :: p in Points(b) ==> Decide(wfs, name, idx, p, fuel).Some?
    ensures CountAccepted(wfs, name, idx, b, fuel).value == |Winners(wfs, name, idx, b, fuel)|
    decreases fuel, Rank(wfs, name, idx), 0
  {
    var rule := wfs[name].rules[idx];
    var attr, t := rule.attr, rule.target;
    var tb, pb := With(b, attr, taken), With(b, attr, passed);
    if rule.comp == Gt {
      CutPoints(b, attr, passed, taken);
    } else {
      CutPoints(b, attr, taken, passed);
    }
    forall p | p in Points(tb) ensures Fires(rule, p) { InsideAt(p, tb, attr); }
    forall p | p in Points(pb) ensures !Fires(rule, p) { InsideAt(p, pb, attr); }
    SplitWinners(wfs, name, idx, b, fuel, tb, pb);
    SendIsReached(wfs, t, tb, fuel);
    CountIsWinners(wfs, name, idx + 1, pb, fuel);
  }

  /** A box cut into a part the rule takes and a part it lets through: the winners are the
      target's winners among the first and the next rule's among the second. */
  lemma SplitWinners(wfs: Workflows, name: string, idx: nat, b: Box, fuel: nat, tb: Box, pb: Box)
    requires name in wfs && idx < |wfs[name].rules|
    requires Points(b) == Points(tb) + Points(pb) && Points(tb) !! Points(pb)
    requires forall p :: p in Points(tb) ==> Fires(wfs[name].rules[idx], p)
    requires forall p :: p in Points(pb) ==> !Fires(wfs[name].rules[idx], p)
    ensures forall p :: p in Points(tb) ==> Decide(wfs, name, idx, p, fuel) == Goto(wfs, wfs[name].rules[idx].target, p, fuel)
    ensures forall p :: p in Points(pb) ==> Decide(wfs, name, idx, p, fuel) == Decide(wfs, name, idx + 1, p, fuel)
    ensures Winners(wfs, name, idx, b, fuel) == Reached(wfs, wfs[name].rules[idx].target, tb, fuel) + Winners(wfs, name, idx + 1, pb, fuel)
    ensures Reached(wfs, wfs[name].rules[idx].target, tb, fuel) !! Winners(wfs, name, idx + 1, pb, fuel)
  {
    TakeAll(wfs, name, idx, tb, fuel);
    PassAll(wfs, name, idx, pb, fuel);
  }

  /** What `Send` counts is the number of the box's parts the target accepts. */
  lemma {:induction false} SendIsReached(wfs: Workflows, t: Target, b: Box, fuel: nat)
    requires Nonempty(b) && Send(wfs, t, b, fuel).Some?
    ensures forall p :: p in Points(b) ==> Goto(wfs, t, p, fuel).Some?
    ensures Send(wfs, t, b, fuel).value == |Reached(wfs, t, b, fuel)|
    decreases fuel, 0, 0
  {
    match t
    case Accepted =>
      PointsCount(b);
      assert Reached(wfs, t, b, fuel) == Points(b);
    case Rejected =>
      assert Reached(wfs, t, b, fuel) == {};
    case Continue(next) =>
      CountIsWinners(wfs, next, 0, b, fuel - 1);
      assert Reached(wfs, t, b, fuel) == Winners(wfs, next, 0, b, fuel - 1);
  }

  /** The parts of the box part 1's procedure accepts. */
  ghost function AcceptedIn(wfs: Workflows, b: Box, fuel: nat): set<Part>
  {
    set p | p in Points(b) && Verdict(wfs, Start, p, fuel) == Some(true)
  }

  /** Part 2's answer: when the count is reached, every part with ratings from 1 to 4000 is
      decided by part 1's procedure, and the count is the number of those accepted. */
  lemma CountAllIsAccepted(wfs: Workflows, fuel: nat)
    requires CountAll(wfs, fuel).Some?
    ensures forall p :: Inside(p, Everything) ==> Verdict(wfs, Start, p, fuel).Some?
    ensures CountAll(wfs, fuel).value == |AcceptedIn(wfs, Everything, fuel)|
  {
    assert Nonempty(Everything);
    CountIsWinners(wfs, Start, 0, Everything, fuel);
    forall p | Inside(p, Everything)
      ensures p in Points(Everything) && Verdict(wfs, Start, p, fuel) == Decide(wfs, Start, 0, p, fuel)
    {
      DecideIsVerdict(wfs, Start, p, fuel);
    }
    assert Winners(wfs, Start, 0, Everything, fuel) == AcceptedIn(wfs, Everything, fuel);
  }

  // ---------------------------------------------------------------- parsing

  /** A rule's target: `R`, `A` or the name of a workflow. */
  function ParseTarget(s: string): (t: Target)
    ensures t.Continue? <==> s != "A" && s != "R"
  {
    if s == "R" then Rejected else if s == "A" then Accepted else Continue(s)
  }

  /** A target names no workflow called `A` or `R`, which would read back as a verdict. */
  predicate Plain(t: Target)
  {
    t.Continue? ==> t.name != "A" && t.name != "R"
  }

  function ShowTarget(t: Target): (s: string)
    ensures Plain(t) ==> ParseTarget(s) == t
  {
    match t
    case Rejected => "R"
    case Accepted => "A"
    case Continue(name) => name
  }

  function AttrOf(c: char): Option<Attr>
  {
    if c == 'x' then Some(X) else if c == 'm' then Some(M) else if c == 'a' then Some(A) else if c == 's' then Some(S) else None
  }

  function AttrChar(attr: Attr): (c: char)
    ensures AttrOf(c) == Some(attr)
  {
    match attr
    case X => 'x'
    case M => 'm'
    case A => 'a'
    case S => 's'
  }

  function CompOf(c: char): Option<Comp>
  {
    if c == '<' then Some(Lt) else if c == '>' then Some(Gt) else None
  }

  function CompChar(comp: Comp): (c: char)
    ensures CompOf(c) == Some(comp)
  {
    match comp
    case Lt => '<'
    case Gt => '>'
  }

  /** One comma-separated chunk of a workflow: `a<2006:qkq` or a bare target. None where the
      source panics: fewer than two characters before the ':', an unknown attribute or
      comparison, or a value that is not an integer. */
  function ParseRule(chunk: string): Option<Rule>
  {
    match SplitOnce(chunk, ':')
    case None => Some(Immediate(ParseTarget(chunk)))
    case Some((test, next)) =>
      if |test| < 2 then None
      else
        match (AttrOf(test[0]), CompOf(test[1]), ParseRadix(test[2..], 10))
        case (Some(attr), Some(comp), Some(v)) => Some(Evaluate(attr, comp, v, ParseTarget(next)))
        case _ => None
  }

  function ShowRule(r: Rule): string
  {
    match r
    case Evaluate(attr, comp, v, t) => [AttrChar(attr), CompChar(comp)] + Signed(v, 10) + [':'] + ShowTarget(t)
    case Immediate(t) => ShowTarget(t)
  }

  /** A rule whose written form reads back as itself and sits in a comma-separated list. */
  predicate Writable(r: Rule)
  {
    Plain(r.target) && ',' !in ShowTarget(r.target) && (r.Immediate? ==> ':' !in ShowTarget(r.target))
  }

  lemma RuleReads(r: Rule)
    requires Writable(r)
    ensures ParseRule(ShowRule(r)) == Some(r)
    ensures ',' !in ShowRule(r)
  {
    match r
    case Evaluate(attr, comp, v, t) =>
      var test := [AttrChar(attr), CompChar(comp)] + Signed(v, 10);
      SignedOmits(v, 10, ':');
      SignedOmits(v, 10, ',');
      SplitOnceAt(test, ':', ShowTarget(t));
      assert test[2..] == Signed(v, 10);
      SignedReads(v, 10);
    case Immediate(t) =>
  }

  function ParseRules(chunks: seq<string>): (r: Option<seq<Rule>>)
    ensures r.Some? ==> |r.value| == |chunks|
  {
    if chunks == [] then Some([])
    else
      match (ParseRule(chunks[0]), ParseRules(chunks[1..]))
      case (Some(rule), Some(rest)) => Some([rule] + rest)
      case _ => None
  }

  function ShowRules(rules: seq<Rule>): (r: seq<string>)
    ensures |r| == |rules| && forall i :: 0 <= i < |rules| ==> r[i] == ShowRule(rules[i])
  {
    if rules == [] then [] else [ShowRule(rules[0])] + ShowRules(rules[1..])
  }

  lemma {:induction false} RulesRead(rules: seq<Rule>)
    requires forall i :: 0 <= i < |rules| ==> Writable(rules[i])
    ensures ParseRules(ShowRules(rules)) == Some(rules)
  {
    if rules != [] {
      RuleReads(rules[0]);
      assert forall i :: 0 <= i < |rules[1..]| ==> rules[1..][i] == rules[i + 1];
      RulesRead(rules[1..]);
      assert ShowRules(rules)[1..] == ShowRules(rules[1..]);
      assert [rules[0]] + rules[1..] == rules;
    }
  }

  /** One workflow line, `px{a<2006:qkq,m>2090:A,rfg}`: the name before the '{' and the
      rules between it and the last character. None where the source panics: no '{', nothing
      after it, or a rule that does not parse. */
  function ParseWorkflow(line: string): Option<Workflow>
  {
    match SplitOnce(line, '{')
    case None => None
    case Some((name, rest)) =>
      if rest == [] then None
      else
        match ParseRules(Split(rest[..|rest| - 1], ','))
        case None => None
        case Some(rules) => Some(Workflow(name, rules))
  }

  function ShowWorkflow(w: Workflow): string
  {
    w.name + ['{'] + Join(ShowRules(w.rules), ',') + ['}']
  }

  /** A workflow with a name and at least one rule, each written without a stray separator,
      reads back as itself. */
  lemma WorkflowReads(w: Workflow)
    requires '{' !in w.name && |w.rules| >= 1
    requires forall i :: 0 <= i < |w.rules| ==> Writable(w.rules[i])
    ensures ParseWorkflow(ShowWorkflow(w)) == Some(w)
  {
    var body := Join(ShowRules(w.rules), ',');
    assert ShowWorkflow(w) == w.name + ['{'] + (body + ['}']);
    SplitOnceAt(w.name, '{', body + ['}']);
    assert (body + ['}'])[..|body|] == body;
    RulesSplit(w.rules);
    RulesRead(w.rules);
  }

  /** The written rules of a workflow, joined with ',', split back into the same chunks. */
  lemma RulesSplit(rules: seq<Rule>)
    requires |rules| >= 1 && forall i :: 0 <= i < |rules| ==> Writable(rules[i])
    ensures Split(Join(ShowRules(rules), ','), ',') == ShowRules(rules)
  {
    forall i | 0 <= i < |rules| ensures ',' !in ShowRules(rules)[i] {
      RuleReads(rules[i]);
    }
    SplitJoin(ShowRules(rules), ',');
  }

  /** The workflow lines in order into a map by name; a later line with the same name
      replaces an earlier one. */
  function ParseWorkflows(lines: seq<string>): (r: Option<Workflows>)
    ensures r.Some? ==> forall name :: name in r.value ==> r.value[name].name == name
  {
    if lines == [] then Some(map[])
    else
      match (ParseWorkflows(lines[..|lines| - 1]), ParseWorkflow(lines[|lines| - 1]))
      case (Some(wfs), Some(w)) => Some(wfs[w.name := w])
      case _ => None
  }

  /** The rating one `x=787` chunk sets; None for an unknown attribute. */
  function Assign(p: Part, key: string, v: int): Option<Part>
  {
    if key == "x" then Some(p.(x := v))
    else if key == "m" then Some(p.(m := v))
    else if key == "a" then Some(p.(a := v))
    else if key == "s" then Some(p.(s := v))
    else None
  }

  /** The chunks of a part line applied in order, each overwriting its attribute. None where
      the source panics: no '=', a value that is not an integer, or an unknown attribute. */
  function ParseAssignments(p: Part, chunks: seq<string>): Option<Part>
    decreases |chunks|
  {
    if chunks == [] then Some(p)
    else
      match SplitOnce(chunks[0], '=')
      case None => None
      case Some((key, value)) =>
        match ParseRadix(value, 10)
        case None => None
        case Some(v) =>
          match Assign(p, key, v)
          case None => None
          case Some(q) => ParseAssignments(q, chunks[1..])
  }

  /** One part line, `{x=787,m=2655,a=1222,s=2876}`: the chunks between the first and the
      last character, applied to a part whose ratings start at 0. */
  function ParsePart(line: string): Option<Part>
  {
    if |line| < 2 then None else ParseAssignments(Part(0, 0, 0, 0), Split(line[1..|line| - 1], ','))
  }

  function Fields(p: Part): seq<string>
  {
    [Field('x', p.x), Field('m', p.m), Field('a', p.a), Field('s', p.s)]
  }

  function ShowPart(p: Part): string
  {
    ['{'] + Join(Fields(p), ',') + ['}']
  }

  function Field(key: char, v: int): string
  {
    [key] + ['='] + Signed(v, 10)
  }

  /** A `key=value` chunk sets the attribute it names and the rest of the chunks go on from
      there. */
  lemma FieldReads(p: Part, key: char, v: int, chunks: seq<string>)
    requires key in "xmas" && chunks != [] && chunks[0] == Field(key, v)
    ensures Assign(p, [key], v).Some?
    ensures ParseAssignments(p, chunks) == ParseAssignments(Assign(p, [key], v).value, chunks[1..])
    ensures ',' !in Field(key, v)
  {
    SplitOnceAt([key], '=', Signed(v, 10));
    SignedReads(v, 10);
    SignedOmits(v, 10, ',');
  }

  /** Every part written in the puzzle's form reads back as itself. */
  lemma PartReads(p: Part)
    ensures ParsePart(ShowPart(p)) == Some(p)
  {
    var fields := Fields(p);
    var line := ShowPart(p);
    assert line[1..|line| - 1] == Join(fields, ',');
    FieldsRead(p);
    FieldsNoComma(p);
    SplitJoin(fields, ',');
  }

  /** The four `key=value` chunks of a part, applied to the all-zero part, give the part back. */
  lemma FieldsRead(p: Part)
    ensures ParseAssignments(Part(0, 0, 0, 0), Fields(p)) == Some(p)
  {
    var fs := Fields(p);
    var p0 := Part(0, 0, 0, 0);
    var q1 := p0.(x := p.x);
    var q2 := q1.(m := p.m);
    var q3 := q2.(a := p.a);
    assert fs[3..][1..] == [];
    ReadsOn(q3, 's', p.s, fs[3..], p, Some(p));
    assert fs[2..][1..] == fs[3..];
    ReadsOn(q2, 'a', p.a, fs[2..], q3, Some(p));
    assert fs[1..][1..] == fs[2..];
    ReadsOn(q1, 'm', p.m, fs[1..], q2, Some(p));
    ReadsOn(p0, 'x', p.x, fs, q1, Some(p));
  }

  /** `FieldReads` with the assignment's result named. */
  lemma ReadsOn(q: Part, key: char, v: int, chunks: seq<string>, q': Part, target: Option<Part>)
    requires key in "xmas" && chunks != [] && chunks[0] == Field(key, v)
    requires Assign(q, [key], v) == Some(q') && ParseAssignments(q', chunks[1..]) == target
    ensures ParseAssignments(q, chunks) == target
  {
    FieldReads(q, key, v, chunks);
  }

  /** No chunk of a written part contains the separator. */
  lemma FieldsNoComma(p: Part)
    ensures forall k :: 0 <= k < |Fields(p)| ==> ',' !in Fields(p)[k]
  {
    var fs := Fields(p);
    forall k | 0 <= k < |fs| ensures ',' !in fs[k] {
      if k == 0 {
        FieldReads(p, 'x', p.x, fs);
      } else if k == 1 {
        FieldReads(p, 'm', p.m, fs[1..]);
      } else if k == 2 {
        FieldReads(p, 'a', p.a, fs[2..]);
      } else {
        FieldReads(p, 's', p.s, fs[3..]);
      }
    }
  }

  function ParseParts(lines: seq<string>): (r: Option<seq<Part>>)
    ensures r.Some? ==> |r.value| == |lines|
  {
    if lines == [] then Some([])
    else
      match (ParseParts(lines[..|lines| - 1]), ParsePart(lines[|lines| - 1]))
      case (Some(parts), Some(p)) => Some(parts + [p])
      case _ => None
  }

  /** Part 1 on the two blocks of the input: the workflow lines and the part lines. */
  method Solve1(workflowLines: seq<string>, partLines: seq<string>, fuel: nat) returns (r: Option<int>)
    ensures ParseWorkflows(workflowLines).None? || ParseParts(partLines).None? ==> r.None?
    ensures ParseWorkflows(workflowLines).Some? && ParseParts(partLines).Some? ==>
              r == Total(ParseWorkflows(workflowLines).value, ParseParts(partLines).value, fuel)
  {
    var wfs := ParseWorkflows(workflowLines);
    var parts := ParseParts(partLines);
    if wfs.None? || parts.None? {
      return None;
    }
    r := SumAccepted(wfs.value, parts.value, fuel);
  }

  /** Part 2 on the workflow lines: None when a line does not parse; otherwise the number of
      parts with ratings from 1 to 4000 that part 1's procedure accepts, every one of them
      decided. */
  function Solve2(workflowLines: seq<string>, fuel: nat): (r: Option<int>)
    ensures ParseWorkflows(workflowLines).None? ==> r.None?
    ensures r.Some? ==>
      var wfs := ParseWorkflows(workflowLines).value;
      (forall p :: Inside(p, Everything) ==> Verdict(wfs, Start, p, fuel).Some?) &&
      r.value == |AcceptedIn(wfs, Everything, fuel)|
  {
    match ParseWorkflows(workflowLines)
    case None => None
    case Some(wfs) =>
      var c := CountAll(wfs, fuel);
      if c.None? then None
      else
        CountAllIsAccepted(wfs, fuel);
        c
  }
}
