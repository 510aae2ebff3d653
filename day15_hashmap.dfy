/** Day 15: the HASH algorithm and the lens boxes. HASH runs over the characters of a
    string from 0: add the character's code, multiply by 17, keep the remainder modulo 256.
    Part 1 sums the HASH of every comma-separated step. Part 2 reads each step as a command
    on one of 256 boxes, the one HASH of its name names: `name=f` puts a lens of focal
    length f in the box (in place of the lens with that name, or at the back) and
    `name-` takes the lens with that name out. The answer is the focusing power of the
    lenses left in the boxes. */
module Day15Hashmap {
  import opened Wrappers
  import opened Text

  /** `N`, the number of boxes. */
  const BoxCount: nat := 256

  /** One step of HASH: `(curr_hash + c as i32) * 17 % 256`. */
  function Mix(h: nat, c: char): (r: nat)
    ensures r < 256
  {
    (h + c as int) * 17 % 256
  }

  /** HASH, as the source's loop computes it: the last character is the last one mixed in. */
  function Hash(s: string): (h: nat)
    ensures h < 256
  {
    if s == [] then 0 else Mix(Hash(s[..|s| - 1]), s[|s| - 1])
  }

  /** HASH continued from the value h over the characters of s, first character first. */
  function HashFrom(h: nat, s: string): nat
    decreases |s|
  {
    if s == [] then h else HashFrom(Mix(h, s[0]), s[1..])
  }

  lemma {:induction false} HashSplit(p: string, s: string)
    ensures HashFrom(Hash(p), s) == Hash(p + s)
    decreases |s|
  {
    if s != [] {
      var p' := p + [s[0]];
      assert p'[..|p'| - 1] == p;
      assert Hash(p') == Mix(Hash(p), s[0]);
      assert HashFrom(Hash(p), s) == HashFrom(Hash(p'), s[1..]);
      assert p + s == p' + s[1..];
      HashSplit(p', s[1..]);
    } else {
      assert p + s == p;
    }
  }

  /** Reading the characters front to back from 0 gives HASH. */
  lemma HashFromZero(s: string)
    ensures HashFrom(0, s) == Hash(s)
  {
    HashSplit([], s);
    assert [] + s == s;
  }

  /** `label_hash`: the character loop. */
  method LabelHash(s: string) returns (h: nat)
    ensures h == Hash(s) && h < BoxCount
  {
    h := 0;
    for i := 0 to |s|
      invariant h == Hash(s[..i])
    {
      assert s[..i + 1][..i] == s[..i];
      h := (h + s[i] as int) * 17 % 256;
    }
    assert s[..|s|] == s;
  }

  lemma HashExample()
    ensures Hash("HASH") == 52
  {
    var h, ha, has, hash := "H", "HA", "HAS", "HASH";
    assert h[..0] == [] && ha[..1] == h && has[..2] == ha && hash[..3] == has;
    assert Hash(h) == 200;
    assert Hash(ha) == 153;
    assert Hash(has) == 172;
  }

  // ---------------------------------------------------------------- the steps

  /** The sum of the HASH of each step. */
  function HashSum(steps: seq<string>): int
  {
    if steps == [] then 0 else HashSum(steps[..|steps| - 1]) + Hash(steps[|steps| - 1])
  }

  /** Part 1 `solve`: the two nested loops over the steps and their characters. */
  method Solve1(content: string) returns (total: int)
    ensures total == HashSum(Split(content, ','))
  {
    var parsed := Split(content, ',');
    total := 0;
    for k := 0 to |parsed|
      invariant total == HashSum(parsed[..k])
    {
      var step := parsed[k];
      var h := 0;
      for i := 0 to |step|
        invariant h == Hash(step[..i])
      {
        assert step[..i + 1][..i] == step[..i];
        h := (h + step[i] as int) * 17 % 256;
      }
      assert step[..|step|] == step;
      assert parsed[..k + 1][..k] == parsed[..k];
      total := total + h;
    }
    assert parsed[..|parsed|] == parsed;
  }

  lemma Part1Example()
    ensures HashSum(Split("HASH", ',')) == 52
  {
    OnePiece("HASH", ',');
    HashExample();
  }

  // ---------------------------------------------------------------- part 2 commands

  datatype Command = Add(name: string, focal: nat) | Delete(name: string)

  predicate IsDigit(c: char)
  {
    '0' <= c <= '9'
  }

  function DigitsValue(s: string): nat
    requires AllDigits(s)
  {
    if s == [] then 0 else 10 * DigitsValue(s[..|s| - 1]) + (s[|s| - 1] as int - '0' as int)
  }

  /** The digits of a count: the text after an optional leading '+'. */
  function Unsigned(s: string): string
  {
    if s != [] && s[0] == '+' then s[1..] else s
  }

  predicate AllDigits(d: string)
  {
    forall i :: 0 <= i < |d| ==> IsDigit(d[i])
  }

  /** `str::parse::<usize>`: an optional '+' and then at least one decimal digit. */
  function ParseCount(s: string): (r: Option<nat>)
    ensures r.Some? <==> Unsigned(s) != [] && AllDigits(Unsigned(s))
    ensures r.Some? ==> r.value == DigitsValue(Unsigned(s))
  {
    var d := Unsigned(s);
    if d != [] && AllDigits(d) then Some(DigitsValue(d)) else None
  }

  /** One step of `parse`: with an '=' the label before the first one and the focal
      length after it; without, the step less its trailing '-'. None where the source
      `unwrap`s an error. */
  function ParseCommand(p: string): (r: Option<Command>)
    ensures r.Some? && r.value.Add? ==>
      |r.value.name| < |p| && p == r.value.name + ['='] + p[|r.value.name| + 1..]
    ensures r.Some? && r.value.Delete? ==> '=' !in p && p == r.value.name + ['-']
  {
    match Find(p, '=')
    case Some(i) =>
      (match ParseCount(p[i + 1..])
       case Some(f) =>
         assert p == p[..i] + ['='] + p[i + 1..];
         Some(Add(p[..i], f))
       case None => None)
    case None =>
      if p != [] && p[|p| - 1] == '-' then
        assert p == p[..|p| - 1] + ['-'];
        Some(Delete(p[..|p| - 1]))
      else None
  }

  /** `parse`: every step parsed, or None when one fails. */
  function ParseCommands(steps: seq<string>): (r: Option<seq<Command>>)
    ensures r.Some? ==> |r.value| == |steps|
    ensures r.Some? ==> forall i :: 0 <= i < |steps| ==> ParseCommand(steps[i]) == Some(r.value[i])
    ensures r.None? ==> exists i :: 0 <= i < |steps| && ParseCommand(steps[i]).None?
  {
    if steps == [] then Some([])
    else
      var last := steps[|steps| - 1];
      match ParseCommands(steps[..|steps| - 1])
      case None =>
        var i :| 0 <= i < |steps| - 1 && ParseCommand(steps[..|steps| - 1][i]).None?;
        assert steps[i] == steps[..|steps| - 1][i];
        None
      case Some(cs) =>
        match ParseCommand(last)
        case None => None
        case Some(c) => Some(cs + [c])
  }

  // ---------------------------------------------------------------- boxes

  datatype Lens = Lens(name: string, focal: nat)

  /** `iter().position(|lens| lens.label == label)`. */
  function Position(b: seq<Lens>, name: string): (r: Option<nat>)
    ensures r.Some? ==> r.value < |b| && b[r.value].name == name
    ensures r.Some? ==> forall j :: 0 <= j < r.value ==> b[j].name != name
    ensures r.None? ==> forall j :: 0 <= j < |b| ==> b[j].name != name
  {
    if b == [] then None
    else if b[0].name == name then Some(0)
    else match Position(b[1..], name)
      case None => None
      case Some(i) => Some(i + 1)
  }

  /** The lens of an `Add` put in its box: in place of the lens with its label, or last. */
  function Put(b: seq<Lens>, lens: Lens): seq<Lens>
  {
    match Position(b, lens.name)
    case Some(i) => b[i := lens]
    case None => b + [lens]
  }

  /** The lens of a `Delete` taken out of its box, if it is there. */
  function Take(b: seq<Lens>, name: string): seq<Lens>
  {
    match Position(b, name)
    case Some(i) => b[..i] + b[i + 1..]
    case None => b
  }

  /** No two lenses in the box share a label. */
  predicate UniqueLabels(b: seq<Lens>)
  {
    forall i, j :: 0 <= i < j < |b| ==> b[i].name != b[j].name
  }

  predicate HasLabel(b: seq<Lens>, name: string)
  {
    exists j :: 0 <= j < |b| && b[j].name == name
  }

  /** An add changes the lens with the same label, which keeps its slot, and touches no
      other lens; when there is none the new lens goes at the back. */
  lemma PutMeaning(b: seq<Lens>, lens: Lens)
    requires UniqueLabels(b)
    ensures |Put(b, lens)| == if HasLabel(b, lens.name) then |b| else |b| + 1
    ensures forall j :: 0 <= j < |b| ==>
      Put(b, lens)[j] == if b[j].name == lens.name then lens else b[j]
    ensures !HasLabel(b, lens.name) ==> Put(b, lens)[|b|] == lens
    ensures UniqueLabels(Put(b, lens))
  {
    match Position(b, lens.name)
    case Some(i) =>
      assert HasLabel(b, lens.name);
    case None =>
      assert !HasLabel(b, lens.name);
  }

  /** The lenses of b without those labelled `name`, in order. */
  function Without(b: seq<Lens>, name: string): seq<Lens>
  {
    if b == [] then []
    else if b[0].name == name then Without(b[1..], name)
    else [b[0]] + Without(b[1..], name)
  }

  lemma {:induction false} WithoutAbsent(b: seq<Lens>, name: string)
    requires !HasLabel(b, name)
    ensures Without(b, name) == b
    decreases |b|
  {
    if b != [] {
      assert !HasLabel(b[1..], name) by {
        forall j | 0 <= j < |b| - 1 ensures b[1..][j].name != name {
          assert b[1..][j] == b[j + 1];
        }
      }
      WithoutAbsent(b[1..], name);
      assert b == [b[0]] + b[1..];
    }
  }

  lemma {:induction false} TakeIsWithout(b: seq<Lens>, name: string)
    requires UniqueLabels(b)
    ensures Take(b, name) == Without(b, name)
    decreases |b|
  {
    if b == [] {
    } else if b[0].name == name {
      assert !HasLabel(b[1..], name) by {
        forall j | 0 <= j < |b| - 1 ensures b[1..][j].name != name {
          assert b[1..][j] == b[j + 1];
        }
      }
      WithoutAbsent(b[1..], name);
    } else {
      assert UniqueLabels(b[1..]) by {
        forall i, j | 0 <= i < j < |b| - 1 ensures b[1..][i].name != b[1..][j].name {
          assert b[1..][i] == b[i + 1] && b[1..][j] == b[j + 1];
        }
      }
      TakeIsWithout(b[1..], name);
      match Position(b[1..], name)
      case None =>
      case Some(i) =>
        assert b[..i + 1] + b[i + 2..] == [b[0]] + (b[1..][..i] + b[1..][i + 1..]);
    }
  }

  /** A delete removes the lens with that label and keeps the others in order; it
      changes nothing when there is none. */
  lemma TakeMeaning(b: seq<Lens>, name: string)
    requires UniqueLabels(b)
    ensures Take(b, name) == Without(b, name)
    ensures !HasLabel(b, name) ==> Take(b, name) == b
    ensures !HasLabel(Take(b, name), name)
    ensures UniqueLabels(Take(b, name))
  {
    TakeIsWithout(b, name);
    TakeUnique(b, name);
  }

  /** The lenses before the removed one keep their slots; the ones after move up one. */
  lemma TakeShifts(b: seq<Lens>, name: string, i: nat)
    requires Position(b, name) == Some(i)
    ensures |Take(b, name)| == |b| - 1
    ensures forall j :: 0 <= j < |b| - 1 ==> Take(b, name)[j] == if j < i then b[j] else b[j + 1]
  {
  }

  /** Taking a lens out leaves no lens with its label and keeps the labels unique. */
  lemma TakeUnique(b: seq<Lens>, name: string)
    requires UniqueLabels(b)
    ensures !HasLabel(Take(b, name), name)
    ensures UniqueLabels(Take(b, name))
  {
    match Position(b, name)
    case None =>
    case Some(i) =>
      TakeShifts(b, name, i);
      var t := Take(b, name);
      forall j | 0 <= j < |t| ensures t[j].name != name {
        if j >= i {
          assert t[j] == b[j + 1] && b[i].name == name;
        }
      }
  }

  /** The 256 boxes, all empty. */
  function EmptyBoxes(): seq<seq<Lens>>
  {
    seq(BoxCount, _ => [])
  }

  /** One command applied to the boxes. */
  function Apply(boxes: seq<seq<Lens>>, c: Command): (r: seq<seq<Lens>>)
    requires |boxes| == BoxCount
    ensures |r| == BoxCount
  {
    var k := Hash(c.name);
    match c
    case Add(name, f) => boxes[k := Put(boxes[k], Lens(name, f))]
    case Delete(name) => boxes[k := Take(boxes[k], name)]
  }

  /** The boxes after the commands, in order, starting from the empty boxes. */
  function Arranged(cs: seq<Command>): (r: seq<seq<Lens>>)
    ensures |r| == BoxCount
  {
    if cs == [] then EmptyBoxes() else Apply(Arranged(cs[..|cs| - 1]), cs[|cs| - 1])
  }

  /** Every lens sits in the box its label hashes to, and no box holds a label twice. */
  predicate Orderly(boxes: seq<seq<Lens>>)
  {
    forall k :: 0 <= k < |boxes| ==>
      UniqueLabels(boxes[k]) && forall j :: 0 <= j < |boxes[k]| ==> Hash(boxes[k][j].name) == k
  }

  /** A command touches only the box its label hashes to, and keeps the boxes orderly. */
  lemma ApplyMeaning(boxes: seq<seq<Lens>>, c: Command)
    requires |boxes| == BoxCount && Orderly(boxes)
    ensures forall k :: 0 <= k < BoxCount && k != Hash(c.name) ==> Apply(boxes, c)[k] == boxes[k]
    ensures Orderly(Apply(boxes, c))
  {
    var k := Hash(c.name);
    var b := boxes[k];
    match c
    case Add(name, f) =>
      PutMeaning(b, Lens(name, f));
      var p := Put(b, Lens(name, f));
      forall j | 0 <= j < |p| ensures Hash(p[j].name) == k {
        if j < |b| && b[j].name != name {
          assert p[j] == b[j];
        }
      }
    case Delete(name) =>
      TakeMeaning(b, name);
      var t := Take(b, name);
      match Position(b, name)
      case None =>
      case Some(i) =>
        forall j | 0 <= j < |t| ensures Hash(t[j].name) == k {
          assert t[j] == if j < i then b[j] else b[j + 1];
        }
  }

  /** Whatever the commands, the boxes stay orderly. */
  lemma {:induction false} ArrangedOrderly(cs: seq<Command>)
    ensures Orderly(Arranged(cs))
    decreases |cs|
  {
    if cs != [] {
      ArrangedOrderly(cs[..|cs| - 1]);
      ApplyMeaning(Arranged(cs[..|cs| - 1]), cs[|cs| - 1]);
    }
  }

  /** The boxes of part 2's `solve`, `vec![vec![]; N]`, changed in place by each command. */
  method Arrange(cs: seq<Command>) returns (boxes: array<seq<Lens>>)
    ensures fresh(boxes) && boxes.Length == BoxCount && boxes[..] == Arranged(cs)
  {
    boxes := new seq<Lens>[BoxCount](_ => []);
    assert boxes[..] == EmptyBoxes();
    for n := 0 to |cs|
      invariant boxes[..] == Arranged(cs[..n])
    {
      assert cs[..n + 1][..n] == cs[..n];
      match cs[n]
      case Add(name, f) =>
        var index := LabelHash(name);
        var lens := Lens(name, f);
        match Position(boxes[index], name) {
          case Some(i) =>
            boxes[index] := boxes[index][i := lens];
          case None =>
            boxes[index] := boxes[index] + [lens];
        }
      case Delete(name) =>
        var index := LabelHash(name);
        match Position(boxes[index], name) {
          case Some(i) =>
            boxes[index] := boxes[index][..i] + boxes[index][i + 1..];
          case None =>
        }
    }
    assert cs[..|cs|] == cs;
  }

  // ---------------------------------------------------------------- focusing power

  /** The focusing power of box `box` (numbered from 0): for each slot, counted from 1,
      (box + 1) * slot * focal length. */
  function BoxPower(b: seq<Lens>, box: nat): int
  {
    if b == [] then 0 else BoxPower(b[..|b| - 1], box) + (box + 1) * |b| * b[|b| - 1].focal
  }

  /** The focusing power of the first n boxes. */
  function Power(boxes: seq<seq<Lens>>, n: nat): int
    requires n <= |boxes|
  {
    if n == 0 then 0 else Power(boxes, n - 1) + BoxPower(boxes[n - 1], n - 1)
  }

  /** An empty box adds nothing and a lens adds to the power of its box. */
  lemma {:induction false} BoxPowerGrows(b: seq<Lens>, box: nat, lens: Lens)
    ensures BoxPower(b + [lens], box) == BoxPower(b, box) + (box + 1) * (|b| + 1) * lens.focal
  {
    assert (b + [lens])[..|b|] == b;
  }

  /** Every lens adds at least nothing, so the power is never negative. */
  lemma {:induction false} PowerNonNegative(boxes: seq<seq<Lens>>, n: nat)
    requires n <= |boxes|
    ensures Power(boxes, n) >= 0
    decreases n
  {
    if n > 0 {
      PowerNonNegative(boxes, n - 1);
      BoxPowerNonNegative(boxes[n - 1], n - 1);
    }
  }

  lemma {:induction false} BoxPowerNonNegative(b: seq<Lens>, box: nat)
    ensures BoxPower(b, box) >= 0
    decreases |b|
  {
    if b != [] {
      BoxPowerNonNegative(b[..|b| - 1], box);
    }
  }

  /** The result of part 2: None where `parse` panics. */
  function Part2(steps: seq<string>): Option<int>
  {
    match ParseCommands(steps)
    case None => None
    case Some(cs) => Some(Power(Arranged(cs), BoxCount))
  }

  /** Part 2 `solve` on the comma-separated steps: the box loop, then the sum over the boxes. */
  method Solve2(content: string) returns (r: Option<int>)
    ensures r == Part2(Split(content, ','))
    ensures r.Some? ==> r.value >= 0
  {
    var parsed := ParseCommands(Split(content, ','));
    if parsed.None? {
      return None;
    }
    var boxes := Arrange(parsed.value);
    var total := 0;
    for box := 0 to boxes.Length
      invariant total == Power(boxes[..], box)
    {
      total := total + BoxPower(boxes[box], box);
    }
    PowerNonNegative(boxes[..], BoxCount);
    return Some(total);
  }
}
