/** Day 20, part 1: a network of flip-flops, conjunctions and one broadcaster that
    exchange low and high pulses through a first-in first-out queue. One button press
    sends a low pulse to the broadcaster; the answer is the product of the low and high
    pulse counts over 1000 presses, with module state kept from press to press. */
module Day20Pulses {
  import opened Wrappers

  datatype Pulse = Lo | Hi

  function Toggle(p: Pulse): Pulse
  {
    if p == Lo then Hi else Lo
  }

  /** The state of one module. The name is the key under which the network stores it. */
  datatype Module = Broad | Flip(state: Pulse) | Conj(memory: map<string, Pulse>)

  /** What a module becomes and what it emits after receiving one pulse. */
  datatype Reaction = Reaction(next: Module, out: Option<Pulse>)

  predicate AllHi(memory: map<string, Pulse>)
  {
    forall s :: s in memory ==> memory[s] == Hi
  }

  /** `Module::send_pulse`. A conjunction must already remember the sender. */
  function Receive(m: Module, sender: string, p: Pulse): (r: Reaction)
    requires m.Conj? ==> sender in m.memory
    // the broadcaster itself never forwards anything
    ensures m.Broad? ==> r == Reaction(Broad, None)
    // a flip-flop ignores high pulses; on a low pulse it flips and emits its new state
    ensures m.Flip? && p == Hi ==> r == Reaction(m, None)
    ensures m.Flip? && p == Lo ==> r.next == Flip(Toggle(m.state)) && r.out == Some(r.next.state)
    // a conjunction always answers: low exactly when every remembered input is now high
    ensures m.Conj? ==> r.next.Conj? && r.next.memory == m.memory[sender := p]
    ensures m.Conj? ==> r.next.memory.Keys == m.memory.Keys
    ensures m.Conj? ==> r.out.Some? && (r.out == Some(Lo) <==> AllHi(r.next.memory))
  {
    match m
    case Broad => Reaction(Broad, None)
    case Flip(state) =>
      if p == Hi then Reaction(m, None)
      else
        var saved := state;
        Reaction(Flip(Toggle(state)), if saved == Lo then Some(Hi) else Some(Lo))
    case Conj(memory) =>
      var updated := memory[sender := p];
      Reaction(Conj(updated), Some(if AllHi(updated) then Lo else Hi))
  }

  /** The names whose destination lists contain `c`. */
  function Senders(wiring: map<string, seq<string>>, c: string): set<string>
  {
    set n | n in wiring && c in wiring[n]
  }

  /** Every module has a destination list, and every conjunction remembers exactly
      the modules that send to it. This is what makes the assertion in send_pulse hold. */
  predicate WellWired(wiring: map<string, seq<string>>, modules: map<string, Module>)
  {
    && modules.Keys <= wiring.Keys
    && forall c :: c in modules && modules[c].Conj? ==> modules[c].memory.Keys == Senders(wiring, c)
  }

  /** A queued pulse: `from` sends `pulse` to `to`. */
  datatype Event = Event(from: string, pulse: Pulse, to: string)

  predicate QueueWired(wiring: map<string, seq<string>>, queue: seq<Event>)
  {
    forall i :: 0 <= i < |queue| ==> queue[i].from in wiring && queue[i].to in wiring[queue[i].from]
  }

  /** The pulses `from` sends, in destination order. */
  function Fanout(from: string, p: Pulse, dests: seq<string>): (r: seq<Event>)
    ensures |r| == |dests|
    ensures forall i :: 0 <= i < |dests| ==> r[i] == Event(from, p, dests[i])
  {
    if dests == [] then [] else Fanout(from, p, dests[..|dests| - 1]) + [Event(from, p, dests[|dests| - 1])]
  }

  function CountLo(queue: seq<Event>): nat
  {
    if queue == [] then 0 else (if queue[0].pulse == Lo then 1 else 0) + CountLo(queue[1..])
  }

  lemma {:induction false} CountLoAppend(a: seq<Event>, b: seq<Event>)
    ensures CountLo(a + b) == CountLo(a) + CountLo(b)
  {
    if a != [] {
      assert (a + b)[0] == a[0];
      assert (a + b)[1..] == a[1..] + b;
      CountLoAppend(a[1..], b);
    } else {
      assert a + b == b;
    }
  }

  datatype Delivery = Delivery(modules: map<string, Module>, emitted: seq<Event>)

  /** One iteration of the simulation loop after the pulse has been counted: a pulse to
      a name without a module goes nowhere; otherwise the module reacts and its output
      goes to each of its destinations. */
  function Deliver(wiring: map<string, seq<string>>, modules: map<string, Module>, e: Event): (d: Delivery)
    requires WellWired(wiring, modules)
    requires e.from in wiring && e.to in wiring[e.from]
    ensures WellWired(wiring, d.modules) && QueueWired(wiring, d.emitted)
    ensures d.modules.Keys == modules.Keys
    ensures e.to !in modules ==> d == Delivery(modules, [])
  {
    if e.to !in modules then Delivery(modules, [])
    else
      var r := Receive(modules[e.to], e.from, e.pulse);
      Delivery(modules[e.to := r.next], if r.out.Some? then Fanout(e.to, r.out.value, wiring[e.to]) else [])
  }

  /** How one press ended: the pulse counts once the queue is empty, or the reason it did not. */
  datatype Halt = Quiet(lo: int, hi: int) | NoBroadcaster | OutOfFuel

  /** Final module states, how the press ended and how many pulses modules emitted. */
  datatype Run = Run(modules: map<string, Module>, halt: Halt, emitted: nat)

  /** Drains the queue, delivering at most `fuel` pulses. */
  function Drain(wiring: map<string, seq<string>>, modules: map<string, Module>, queue: seq<Event>,
                 lo: int, hi: int, emitted: nat, fuel: nat): (r: Run)
    requires WellWired(wiring, modules) && QueueWired(wiring, queue)
    ensures WellWired(wiring, r.modules) && r.modules.Keys == modules.Keys
    ensures r.emitted >= emitted
    // every pulse ever queued is counted exactly once, low ones on the low counter
    ensures r.halt.Quiet? ==> r.halt.lo + r.halt.hi == lo + hi + |queue| + (r.emitted - emitted)
    ensures r.halt.Quiet? ==> r.halt.lo >= lo + CountLo(queue) && r.halt.hi >= hi
    ensures !r.halt.NoBroadcaster?
    decreases fuel
  {
    if queue == [] then Run(modules, Quiet(lo, hi), emitted)
    else if fuel == 0 then Run(modules, OutOfFuel, emitted)
    else
      var e := queue[0];
      var d := Deliver(wiring, modules, e);
      var rest := queue[1..] + d.emitted;
      assert QueueWired(wiring, rest) by {
        forall i | 0 <= i < |rest|
          ensures rest[i].from in wiring && rest[i].to in wiring[rest[i].from]
        {
          if i < |queue| - 1 {
            assert rest[i] == queue[i + 1];
          } else {
            assert rest[i] == d.emitted[i - (|queue| - 1)];
          }
        }
      }
      CountLoAppend(queue[1..], d.emitted);
      Drain(wiring, d.modules, rest,
            if e.pulse == Lo then lo + 1 else lo, if e.pulse == Hi then hi + 1 else hi,
            emitted + |d.emitted|, fuel - 1)
  }

  /** One button press: a low pulse to the broadcaster, which the simulation counts and
      then forwards to each of its destinations without consulting the broadcaster module. */
  function PressSpec(wiring: map<string, seq<string>>, modules: map<string, Module>, fuel: nat): (r: Run)
    requires WellWired(wiring, modules)
    ensures WellWired(wiring, r.modules) && r.modules.Keys == modules.Keys
    ensures r.halt.NoBroadcaster? <==> "broadcaster" !in wiring
    // the button pulse and the broadcaster's pulses are all low
    ensures r.halt.Quiet? ==> r.halt.lo >= 1 + |wiring["broadcaster"]| && r.halt.hi >= 0
    ensures r.halt.Quiet? ==> r.halt.lo + r.halt.hi == 1 + |wiring["broadcaster"]| + r.emitted
  {
    if "broadcaster" !in wiring then Run(modules, NoBroadcaster, 0)
    else
      var seed := Fanout("broadcaster", Lo, wiring["broadcaster"]);
      assert CountLo(seed) == |seed| by { AllLoCount(seed); }
      Drain(wiring, modules, seed, 1, 0, 0, fuel)
  }

  lemma {:induction false} AllLoCount(q: seq<Event>)
    requires forall i :: 0 <= i < |q| ==> q[i].pulse == Lo
    ensures CountLo(q) == |q|
  {
    if q != [] {
      AllLoCount(q[1..]);
    }
  }

  /** Pulse totals over several presses and the module states they leave behind. */
  datatype Totals = Totals(modules: map<string, Module>, lo: int, hi: int)

  function Presses(wiring: map<string, seq<string>>, modules: map<string, Module>, n: nat, fuel: nat): (r: Option<Totals>)
    requires WellWired(wiring, modules)
    ensures r.Some? ==> WellWired(wiring, r.value.modules)
    ensures r.Some? ==> r.value.lo >= n
    decreases n
  {
    if n == 0 then Some(Totals(modules, 0, 0))
    else
      var run := PressSpec(wiring, modules, fuel);
      if !run.halt.Quiet? then None
      else
        match Presses(wiring, run.modules, n - 1, fuel)
        case None => None
        case Some(t) => Some(Totals(t.modules, run.halt.lo + t.lo, run.halt.hi + t.hi))
  }

  /** When a press leaves every module as it found it, every press counts the same pulses. */
  lemma {:induction false} SteadyPresses(wiring: map<string, seq<string>>, modules: map<string, Module>,
                                         fuel: nat, lo: int, hi: int, emitted: nat, n: nat)
    requires WellWired(wiring, modules)
    requires PressSpec(wiring, modules, fuel) == Run(modules, Quiet(lo, hi), emitted)
    ensures Presses(wiring, modules, n, fuel) == Some(Totals(modules, n * lo, n * hi))
  {
    if n > 0 {
      SteadyPresses(wiring, modules, fuel, lo, hi, emitted, n - 1);
      assert (n - 1) * lo + lo == n * lo;
      assert (n - 1) * hi + hi == n * hi;
    }
  }

  lemma DrainStep(wiring: map<string, seq<string>>, modules: map<string, Module>, queue: seq<Event>,
                  lo: int, hi: int, emitted: nat, fuel: nat)
    requires WellWired(wiring, modules) && QueueWired(wiring, queue)
    requires queue != [] && fuel > 0
    ensures var d := Deliver(wiring, modules, queue[0]);
            && QueueWired(wiring, queue[1..] + d.emitted)
            && Drain(wiring, modules, queue, lo, hi, emitted, fuel)
               == Drain(wiring, d.modules, queue[1..] + d.emitted,
                        if queue[0].pulse == Lo then lo + 1 else lo, if queue[0].pulse == Hi then hi + 1 else hi,
                        emitted + |d.emitted|, fuel - 1)
  {
    var d := Deliver(wiring, modules, queue[0]);
    var rest := queue[1..] + d.emitted;
    forall i | 0 <= i < |rest|
      ensures rest[i].from in wiring && rest[i].to in wiring[rest[i].from]
    {
      if i < |queue| - 1 {
        assert rest[i] == queue[i + 1];
      } else {
        assert rest[i] == d.emitted[i - (|queue| - 1)];
      }
    }
  }

  /** Pushes one pulse from `from` to each destination, in order, at the back of the queue. */
  method Enqueue(queue: seq<Event>, from: string, p: Pulse, dests: seq<string>) returns (q: seq<Event>)
    ensures q == queue + Fanout(from, p, dests)
  {
    q := queue;
    var j := 0;
    while j < |dests|
      invariant 0 <= j <= |dests|
      invariant q == queue + Fanout(from, p, dests[..j])
    {
      assert dests[..j + 1][..j] == dests[..j];
      q := q + [Event(from, p, dests[j])];
      j := j + 1;
    }
    assert dests[..j] == dests;
  }

  /** A simulation instance: module states persist from press to press; the wiring never changes. */
  class Machine {
    var modules: map<string, Module>
    const wiring: map<string, seq<string>>

    ghost predicate Valid()
      reads this
    {
      WellWired(wiring, modules)
    }

    constructor(modules: map<string, Module>, wiring: map<string, seq<string>>)
      requires WellWired(wiring, modules)
      ensures this.modules == modules && this.wiring == wiring && Valid()
    {
      this.modules := modules;
      this.wiring := wiring;
    }

    /** `send_pulse` on the module stored under `name`, updated in place. */
    method SendPulse(name: string, sender: string, p: Pulse) returns (out: Option<Pulse>)
      requires name in modules
      requires modules[name].Conj? ==> sender in modules[name].memory
      modifies this
      ensures modules == old(modules)[name := Receive(old(modules[name]), sender, p).next]
      ensures out == Receive(old(modules[name]), sender, p).out
    {
      var m := modules[name];
      match m
      case Broad =>
        out := None;
      case Flip(state) =>
        if p == Hi {
          return None;
        }
        var saved := state;
        modules := modules[name := Flip(Toggle(state))];
        out := if saved == Lo then Some(Hi) else Some(Lo);
      case Conj(memory) =>
        var updated := memory[sender := p];
        modules := modules[name := Conj(updated)];
        out := if AllHi(updated) then Some(Lo) else Some(Hi);
    }

    /** One iteration of the simulation loop after the pulse has been counted: the pulses
        the receiving module sends on, with its state updated in place. */
    method Deliver1(e: Event) returns (sent: seq<Event>)
      requires Valid() && e.from in wiring && e.to in wiring[e.from]
      modifies this
      ensures Valid()
      ensures Delivery(modules, sent) == Deliver(wiring, old(modules), e)
    {
      sent := [];
      if e.to in modules {
        var out := SendPulse(e.to, e.from, e.pulse);
        if out.Some? {
          sent := Enqueue([], e.to, out.value, wiring[e.to]);
          assert sent == Fanout(e.to, out.value, wiring[e.to]);
        }
      }
    }

    /** The loop of `simulate`: pops pulses until the queue is empty (at most `fuel` of them),
        counting each popped pulse on the counter of its kind. */
    method DrainQueue(queue0: seq<Event>, lo0: int, hi0: int, fuel: nat) returns (halt: Halt, ghost emitted: nat)
      requires Valid() && QueueWired(wiring, queue0)
      modifies this
      ensures Valid()
      ensures Drain(wiring, old(modules), queue0, lo0, hi0, 0, fuel) == Run(modules, halt, emitted)
    {
      var queue, lo, hi := queue0, lo0, hi0;
      emitted := 0;
      var left := fuel;
      while queue != []
        invariant Valid() && QueueWired(wiring, queue)
        invariant Drain(wiring, old(modules), queue0, lo0, hi0, 0, fuel) == Drain(wiring, modules, queue, lo, hi, emitted, left)
        decreases left
      {
        if left == 0 {
          return OutOfFuel, emitted;
        }
        var e := queue[0];
        DrainStep(wiring, modules, queue, lo, hi, emitted, left);
        ghost var d := Deliver(wiring, modules, e);
        ghost var rest := queue[1..] + d.emitted;
        ghost var lo', hi' := if e.pulse == Lo then lo + 1 else lo, if e.pulse == Hi then hi + 1 else hi;
        ghost var emitted' := emitted + |d.emitted|;
        ghost var goal := Drain(wiring, d.modules, rest, lo', hi', emitted', left - 1);
        match e.pulse {
          case Hi => hi := hi + 1;
          case Lo => lo := lo + 1;
        }
        left := left - 1;
        var sent := Deliver1(e);
        queue := queue[1..] + sent;
        emitted := emitted + |sent|;
        assert modules == d.modules && queue == rest && lo == lo' && hi == hi' && emitted == emitted';
        assert Drain(wiring, modules, queue, lo, hi, emitted, left) == goal;
      }
      halt := Quiet(lo, hi);
    }

    /** `simulate`: one button press. The button's low pulse is counted up front; the
        broadcaster's low pulses are queued without consulting the broadcaster module. */
    method Press(fuel: nat) returns (halt: Halt, ghost emitted: nat)
      requires Valid()
      modifies this
      ensures Valid()
      ensures PressSpec(wiring, old(modules), fuel) == Run(modules, halt, emitted)
    {
      if "broadcaster" !in wiring {
        return NoBroadcaster, 0;
      }
      var queue := Enqueue([], "broadcaster", Lo, wiring["broadcaster"]);
      assert queue == Fanout("broadcaster", Lo, wiring["broadcaster"]);
      halt, emitted := DrainQueue(queue, 1, 0, fuel);
    }

    /** The loop of `solve`: `n` presses, state kept between them, pulse counts summed. */
    method PressMany(n: nat, fuel: nat) returns (r: Option<Totals>)
      requires Valid()
      modifies this
      ensures Valid()
      ensures r == Presses(wiring, old(modules), n, fuel)
    {
      ghost var goal := Presses(wiring, modules, n, fuel);
      var loTotal, hiTotal := 0, 0;
      var k := 0;
      ghost var left: nat := n;
      ghost var tail := goal;
      while k < n
        invariant 0 <= k <= n && left == n - k
        invariant Valid()
        invariant tail == Presses(wiring, modules, left, fuel) && goal == Accumulate(loTotal, hiTotal, tail)
      {
        ghost var before := modules;
        var halt;
        ghost var emitted;
        halt, emitted := Press(fuel);
        PressFold(wiring, before, left, fuel, Run(modules, halt, emitted), loTotal, hiTotal, goal);
        if !halt.Quiet? {
          return None;
        }
        loTotal := loTotal + halt.lo;
        hiTotal := hiTotal + halt.hi;
        k := k + 1;
        left := left - 1;
        tail := Presses(wiring, modules, left, fuel);
      }
      assert tail == Some(Totals(modules, 0, 0));
      return Some(Totals(modules, loTotal, hiTotal));
    }
  }

  /** One input line `<left> -> <outs joined by ", ">`, already split at " -> " and ", ". */
  datatype Line = Line(left: string, outs: seq<string>)

  /** Every line has a non-empty left-hand side (its first character is read). */
  predicate HasPrefixes(lines: seq<Line>)
  {
    forall i :: 0 <= i < |lines| ==> |lines[i].left| > 0
  }

  /** Any left-hand side starting with 'b' is the broadcaster; otherwise the name follows the prefix. */
  function NameOf(left: string): string
    requires |left| > 0
  {
    if left[0] == 'b' then "broadcaster" else left[1..]
  }

  /** The destination lists (`in2outs`): lines with the same name have their lists concatenated. */
  function WiringOf(lines: seq<Line>): map<string, seq<string>>
    requires HasPrefixes(lines)
  {
    if lines == [] then map[]
    else
      var w := WiringOf(lines[..|lines| - 1]);
      var l := lines[|lines| - 1];
      var n := NameOf(l.left);
      w[n := (if n in w then w[n] else []) + l.outs]
  }

  /** The prefix character of the last line declaring each name (later lines overwrite earlier ones). */
  function KindsOf(lines: seq<Line>): map<string, char>
    requires HasPrefixes(lines)
  {
    if lines == [] then map[]
    else
      var l := lines[|lines| - 1];
      KindsOf(lines[..|lines| - 1])[NameOf(l.left) := l.left[0]]
  }

  /** `out2ins`: for every destination, the names of its senders, one entry per listing. */
  function PushAll(out2ins: map<string, seq<string>>, name: string, outs: seq<string>): map<string, seq<string>>
  {
    if outs == [] then out2ins
    else
      var m := PushAll(out2ins, name, outs[..|outs| - 1]);
      var o := outs[|outs| - 1];
      m[o := (if o in m then m[o] else []) + [name]]
  }

  function InverseOf(lines: seq<Line>): map<string, seq<string>>
    requires HasPrefixes(lines)
  {
    if lines == [] then map[]
    else
      var l := lines[|lines| - 1];
      PushAll(InverseOf(lines[..|lines| - 1]), NameOf(l.left), l.outs)
  }

  /** The module a prefix creates, with a conjunction remembering a low pulse from each of `ins`. */
  function Initial(kind: char, ins: seq<string>): (m: Module)
    ensures m.Conj? <==> kind != 'b' && kind != '%'
    ensures m.Conj? ==> forall s :: s in m.memory <==> s in ins
  {
    if kind == 'b' then Broad else if kind == '%' then Flip(Lo) else Conj(map s | s in ins :: Lo)
  }

  /** The module declared under `n` once its senders are known. */
  function Connected(kind: char, n: string, inverse: map<string, seq<string>>): Module
  {
    Initial(kind, if n in inverse then inverse[n] else [])
  }

  function ModulesOf(kinds: map<string, char>, inverse: map<string, seq<string>>): (modules: map<string, Module>)
    ensures modules.Keys == kinds.Keys
    ensures forall n :: n in kinds ==> modules[n] == Connected(kinds[n], n, inverse)
  {
    map n | n in kinds :: Connected(kinds[n], n, inverse)
  }

  lemma BuiltWellWired(lines: seq<Line>)
    requires HasPrefixes(lines)
    requires forall i :: 0 <= i < |lines| ==> lines[i].left[0] in "b%&"
    requires forall n :: n in KindsOf(lines) && KindsOf(lines)[n] == '&' ==> n in InverseOf(lines)
    ensures WellWired(WiringOf(lines), ModulesOf(KindsOf(lines), InverseOf(lines)))
  {
    var kinds, inverse, wiring := KindsOf(lines), InverseOf(lines), WiringOf(lines);
    var modules := ModulesOf(kinds, inverse);
    KindsWiringKeys(lines);
    assert modules.Keys == kinds.Keys == wiring.Keys;
    forall c | c in modules && modules[c].Conj?
      ensures modules[c].memory.Keys == Senders(wiring, c)
    {
      BuiltConj(lines, c);
    }
  }

  /** One conjunction of BuiltWellWired: it was declared with '&', so it has senders
      and remembers exactly them. */
  lemma BuiltConj(lines: seq<Line>, c: string)
    requires HasPrefixes(lines)
    requires forall n :: n in KindsOf(lines) ==> KindsOf(lines)[n] in "b%&"
    requires forall n :: n in KindsOf(lines) && KindsOf(lines)[n] == '&' ==> n in InverseOf(lines)
    requires c in KindsOf(lines) && ModulesOf(KindsOf(lines), InverseOf(lines))[c].Conj?
    ensures ModulesOf(KindsOf(lines), InverseOf(lines))[c].memory.Keys == Senders(WiringOf(lines), c)
  {
    var kinds, inverse := KindsOf(lines), InverseOf(lines);
    var m := ModulesOf(kinds, inverse)[c];
    assert m == Connected(kinds[c], c, inverse);
    assert kinds[c] == '&';
    assert c in inverse;
    assert m == Initial('&', inverse[c]);
    ConjMemory(lines, c);
  }

  lemma ConjMemory(lines: seq<Line>, c: string)
    requires HasPrefixes(lines)
    requires c in InverseOf(lines)
    ensures var m := Initial('&', InverseOf(lines)[c]); m.memory.Keys == Senders(WiringOf(lines), c)
  {
    InverseSenders(lines);
    var m := Initial('&', InverseOf(lines)[c]);
    assert forall s :: s in m.memory <==> s in Senders(WiringOf(lines), c);
  }

  datatype Network = Network(modules: map<string, Module>, wiring: map<string, seq<string>>)

  /** `parse`. It panics on an empty left-hand side, on a prefix other than 'b', '%' and '&',
      and on a conjunction that no line sends to. */
  function ParseSpec(lines: seq<Line>): (r: Option<Network>)
    ensures r.Some? ==> WellWired(r.value.wiring, r.value.modules)
    // every declared name becomes a module, flip-flops start low, conjunctions remember every sender as low
    ensures r.Some? ==> HasPrefixes(lines) && r.value.modules.Keys == r.value.wiring.Keys
    ensures r.Some? ==> forall n :: n in r.value.modules && r.value.modules[n].Flip? ==> r.value.modules[n].state == Lo
    ensures r.Some? ==> forall n :: n in r.value.modules && r.value.modules[n].Conj? ==>
                          forall s :: s in r.value.modules[n].memory ==> r.value.modules[n].memory[s] == Lo
  {
    if !HasPrefixes(lines) then None
    else if exists i :: 0 <= i < |lines| && lines[i].left[0] !in "b%&" then None
    else
      var wiring := WiringOf(lines);
      var kinds := KindsOf(lines);
      var inverse := InverseOf(lines);
      if exists n :: n in kinds && kinds[n] == '&' && n !in inverse then None
      else
        var modules := ModulesOf(kinds, inverse);
        BuiltWellWired(lines);
        KindsWiringKeys(lines);
        Some(Network(modules, wiring))
  }

  lemma {:induction false} PushAllContents(out2ins: map<string, seq<string>>, name: string, outs: seq<string>, c: string)
    ensures c in PushAll(out2ins, name, outs) <==> c in out2ins || c in outs
    ensures c in PushAll(out2ins, name, outs) ==>
              forall s :: s in PushAll(out2ins, name, outs)[c] <==> (c in out2ins && s in out2ins[c]) || (c in outs && s == name)
    decreases |outs|
  {
    if outs != [] {
      var init := outs[..|outs| - 1];
      PushAllContents(out2ins, name, init, c);
      assert forall x :: x in outs <==> x in init || x == outs[|outs| - 1];
    }
  }

  /** `out2ins` lists exactly the senders recorded in `in2outs`. */
  lemma {:induction false} InverseSenders(lines: seq<Line>)
    requires HasPrefixes(lines)
    ensures forall c :: c in InverseOf(lines) <==> Senders(WiringOf(lines), c) != {}
    ensures forall c, s :: c in InverseOf(lines) ==> (s in InverseOf(lines)[c] <==> s in Senders(WiringOf(lines), c))
  {
    if lines != [] {
      var init := lines[..|lines| - 1];
      var l := lines[|lines| - 1];
      var n := NameOf(l.left);
      InverseSenders(init);
      var w := WiringOf(init);
      var w' := WiringOf(lines);
      forall c
        ensures Senders(w', c) == Senders(w, c) + (if c in l.outs then {n} else {})
      {
        forall s | s in w'
          ensures c in w'[s] <==> (s in w && c in w[s]) || (s == n && c in l.outs)
        {
        }
      }
      forall c
        ensures c in InverseOf(lines) <==> Senders(w', c) != {}
        ensures c in InverseOf(lines) ==> forall s :: s in InverseOf(lines)[c] <==> s in Senders(w', c)
      {
        PushAllContents(InverseOf(init), n, l.outs, c);
      }
    }
  }

  lemma {:induction false} KindsWiringKeys(lines: seq<Line>)
    requires HasPrefixes(lines)
    ensures KindsOf(lines).Keys == WiringOf(lines).Keys
    ensures (forall i :: 0 <= i < |lines| ==> lines[i].left[0] in "b%&") ==>
              forall n :: n in KindsOf(lines) ==> KindsOf(lines)[n] in "b%&"
  {
    if lines != [] {
      KindsWiringKeys(lines[..|lines| - 1]);
    }
  }

  /** The modules after the second pass of `parse`: conjunctions do not remember anyone yet. */
  function ShellsOf(lines: seq<Line>): map<string, Module>
    requires HasPrefixes(lines)
  {
    map n | n in KindsOf(lines) :: Initial(KindsOf(lines)[n], [])
  }

  /** First pass of `parse`: the destination lists and, for every destination, its senders.
      `None` when a left-hand side is empty. */
  method IndexLines(lines: seq<Line>) returns (r: Option<(map<string, seq<string>>, map<string, seq<string>>)>)
    ensures r.None? <==> !HasPrefixes(lines)
    ensures r.Some? ==> HasPrefixes(lines) && r.value == (WiringOf(lines), InverseOf(lines))
  {
    var in2outs: map<string, seq<string>> := map[];
    var out2ins: map<string, seq<string>> := map[];
    for i := 0 to |lines|
      invariant HasPrefixes(lines[..i])
      invariant in2outs == WiringOf(lines[..i]) && out2ins == InverseOf(lines[..i])
    {
      var line := lines[i];
      if |line.left| == 0 {
        return None;
      }
      var name := NameOf(line.left);
      IndexStep(lines, i);
      in2outs := in2outs[name := (if name in in2outs then in2outs[name] else []) + line.outs];
      out2ins := PushOuts(out2ins, name, line.outs);
    }
    assert lines[..|lines|] == lines;
    return Some((in2outs, out2ins));
  }

  /** One more line with a prefix extends both indexes by that line. */
  lemma IndexStep(lines: seq<Line>, i: nat)
    requires i < |lines| && HasPrefixes(lines[..i]) && |lines[i].left| > 0
    ensures HasPrefixes(lines[..i + 1])
    ensures var w, n := WiringOf(lines[..i]), NameOf(lines[i].left);
            WiringOf(lines[..i + 1]) == w[n := (if n in w then w[n] else []) + lines[i].outs]
    ensures InverseOf(lines[..i + 1]) == PushAll(InverseOf(lines[..i]), NameOf(lines[i].left), lines[i].outs)
  {
    assert lines[..i + 1][..i] == lines[..i];
  }

  /** The inner loop of the first pass: `name` is appended to the sender list of each of `outs`. */
  method PushOuts(out2ins0: map<string, seq<string>>, name: string, outs: seq<string>)
    returns (out2ins: map<string, seq<string>>)
    ensures out2ins == PushAll(out2ins0, name, outs)
  {
    out2ins := out2ins0;
    var k := 0;
    while k < |outs|
      invariant 0 <= k <= |outs|
      invariant out2ins == PushAll(out2ins0, name, outs[..k])
    {
      assert outs[..k + 1][..k] == outs[..k];
      var out := outs[k];
      out2ins := out2ins[out := (if out in out2ins then out2ins[out] else []) + [name]];
      k := k + 1;
    }
    assert outs[..k] == outs;
  }

  predicate KnownPrefixes(lines: seq<Line>)
    requires HasPrefixes(lines)
  {
    forall i :: 0 <= i < |lines| ==> lines[i].left[0] in "b%&"
  }

  /** Second pass of `parse`: one module per name, the last declaration winning.
      `None` on a prefix other than 'b', '%' and '&'. */
  method DeclareModules(lines: seq<Line>) returns (r: Option<map<string, Module>>)
    requires HasPrefixes(lines)
    ensures r.None? <==> !KnownPrefixes(lines)
    ensures r.Some? ==> r.value == ShellsOf(lines)
  {
    var modules: map<string, Module> := map[];
    var i := 0;
    while i < |lines|
      invariant 0 <= i <= |lines|
      invariant KnownPrefixes(lines[..i])
      invariant modules == ShellsOf(lines[..i])
    {
      var line := lines[i];
      assert lines[..i + 1][..i] == lines[..i];
      var name := NameOf(line.left);
      var m: Module;
      match line.left[0] {
        case 'b' => m := Broad;
        case '%' => m := Flip(Lo);
        case '&' => m := Conj(map[]);
        case _ => return None;
      }
      assert m == Initial(line.left[0], []);
      ShellsSnoc(lines[..i + 1]);
      modules := modules[name := m];
      i := i + 1;
    }
    assert lines[..i] == lines;
    return Some(modules);
  }

  /** The last line's declaration overwrites whatever the earlier lines declared under its name. */
  lemma ShellsSnoc(lines: seq<Line>)
    requires HasPrefixes(lines) && lines != []
    ensures var l := lines[|lines| - 1];
            ShellsOf(lines) == ShellsOf(lines[..|lines| - 1])[NameOf(l.left) := Initial(l.left[0], [])]
  {
    var init, l := lines[..|lines| - 1], lines[|lines| - 1];
    assert KindsOf(lines) == KindsOf(init)[NameOf(l.left) := l.left[0]];
    var a, b := ShellsOf(lines), ShellsOf(init)[NameOf(l.left) := Initial(l.left[0], [])];
    assert a.Keys == b.Keys;
    forall n | n in a
      ensures a[n] == b[n]
    {
    }
  }

  /** Inserts a low pulse for each of `ins` into an empty conjunction memory. */
  method RememberLow(memory0: map<string, Pulse>, ins: seq<string>) returns (memory: map<string, Pulse>)
    requires memory0 == map[]
    ensures memory == map s | s in ins :: Lo
  {
    memory := memory0;
    var k := 0;
    while k < |ins|
      invariant 0 <= k <= |ins|
      invariant memory == map s | s in ins[..k] :: Lo
    {
      memory := memory[ins[k] := Lo];
      k := k + 1;
      assert memory == map s | s in ins[..k] :: Lo;
    }
    assert ins[..k] == ins;
  }

  /** Third pass of `parse`: every conjunction remembers a low pulse from each of its
      senders. `None` when a conjunction has no sender. */
  method ConnectConjunctions(shells: map<string, Module>, ghost kinds: map<string, char>, out2ins: map<string, seq<string>>)
    returns (r: Option<map<string, Module>>)
    requires shells == map n | n in kinds :: Initial(kinds[n], [])
    requires forall n :: n in kinds ==> kinds[n] in "b%&"
    ensures r.None? <==> exists n :: n in kinds && kinds[n] == '&' && n !in out2ins
    ensures r.Some? ==> r.value == ModulesOf(kinds, out2ins)
  {
    var modules := shells;
    var todo := modules.Keys;
    while todo != {}
      invariant Connecting(modules, kinds, out2ins, todo)
      decreases todo
    {
      var n :| n in todo;
      var m := ConnectOne(modules[n], kinds[n], n, out2ins);
      if m.None? {
        return None;
      }
      ConnectStep(modules, kinds, out2ins, todo, n, m.value);
      modules := modules[n := m.value];
      todo := todo - {n};
    }
    ConnectDone(modules, kinds, out2ins);
    return Some(modules);
  }

  /** The invariant of the third pass: the modules still `todo` are as declared, the
      others connected, and every connected conjunction has a sender. */
  predicate Connecting(modules: map<string, Module>, kinds: map<string, char>, out2ins: map<string, seq<string>>, todo: set<string>)
  {
    && todo <= modules.Keys == kinds.Keys
    && (forall n :: n in kinds ==> kinds[n] in "b%&")
    && (forall n :: n in todo ==> modules[n] == Initial(kinds[n], []))
    && (forall n :: n in modules && n !in todo ==> modules[n] == Connected(kinds[n], n, out2ins))
    && (forall n :: n in kinds && n !in todo && kinds[n] == '&' ==> n in out2ins)
  }

  /** Connecting one more module keeps the invariant. */
  lemma ConnectStep(modules: map<string, Module>, kinds: map<string, char>, out2ins: map<string, seq<string>>,
                    todo: set<string>, n: string, m: Module)
    requires Connecting(modules, kinds, out2ins, todo) && n in todo
    requires m == Connected(kinds[n], n, out2ins) && (kinds[n] == '&' ==> n in out2ins)
    ensures Connecting(modules[n := m], kinds, out2ins, todo - {n})
  {
  }

  /** Once nothing is left to do, the modules are the connected ones. */
  lemma ConnectDone(modules: map<string, Module>, kinds: map<string, char>, out2ins: map<string, seq<string>>)
    requires Connecting(modules, kinds, out2ins, {})
    ensures modules == ModulesOf(kinds, out2ins)
    ensures !exists n :: n in kinds && kinds[n] == '&' && n !in out2ins
  {
    assert forall n :: n in modules ==> modules[n] == ModulesOf(kinds, out2ins)[n];
  }

  /** One module of the third pass: a conjunction gets its senders' memory, any other
      module stays as declared. `None` when a conjunction has no sender. */
  method ConnectOne(m: Module, ghost kind: char, n: string, out2ins: map<string, seq<string>>)
    returns (r: Option<Module>)
    requires kind in "b%&" && m == Initial(kind, [])
    ensures r.None? <==> kind == '&' && n !in out2ins
    ensures r.Some? ==> r.value == Connected(kind, n, out2ins)
  {
    if !m.Conj? {
      return Some(m);
    }
    if n !in out2ins {
      return None;
    }
    var memory := RememberLow(m.memory, out2ins[n]);
    return Some(Conj(memory));
  }

  /** `parse`. */
  method Parse(lines: seq<Line>) returns (r: Option<Network>)
    ensures r == ParseSpec(lines)
  {
    var index := IndexLines(lines);
    if index.None? {
      return None;
    }
    var (in2outs, out2ins) := index.value;
    var shells := DeclareModules(lines);
    if shells.None? {
      return None;
    }
    KindsWiringKeys(lines);
    var modules := ConnectConjunctions(shells.value, KindsOf(lines), out2ins);
    if modules.None? {
      return None;
    }
    return Some(Network(modules.value, in2outs));
  }

  function Accumulate(lo: int, hi: int, t: Option<Totals>): Option<Totals>
  {
    match t
    case None => None
    case Some(t) => Some(Totals(t.modules, lo + t.lo, hi + t.hi))
  }

  lemma AccumulateTwice(lo: int, hi: int, lo': int, hi': int, t: Option<Totals>)
    ensures Accumulate(lo, hi, Accumulate(lo', hi', t)) == Accumulate(lo + lo', hi + hi', t)
  {
  }

  lemma PressesStep(wiring: map<string, seq<string>>, modules: map<string, Module>, n: nat, fuel: nat)
    requires WellWired(wiring, modules) && n > 0
    ensures var run := PressSpec(wiring, modules, fuel);
            Presses(wiring, modules, n, fuel)
            == if run.halt.Quiet? then Accumulate(run.halt.lo, run.halt.hi, Presses(wiring, run.modules, n - 1, fuel)) else None
  {
  }

  /** One more press folded into the running totals: a press that does not end quietly
      makes the whole sequence fail, a quiet one adds its counts. */
  lemma PressFold(wiring: map<string, seq<string>>, before: map<string, Module>, m: nat, fuel: nat, run: Run,
                  lo: int, hi: int, goal: Option<Totals>)
    requires WellWired(wiring, before) && m > 0 && run == PressSpec(wiring, before, fuel)
    requires goal == Accumulate(lo, hi, Presses(wiring, before, m, fuel))
    ensures !run.halt.Quiet? ==> goal == None
    ensures run.halt.Quiet? ==>
              goal == Accumulate(lo + run.halt.lo, hi + run.halt.hi, Presses(wiring, run.modules, m - 1, fuel))
  {
    PressesStep(wiring, before, m, fuel);
    if run.halt.Quiet? {
      AccumulateTwice(lo, hi, run.halt.lo, run.halt.hi, Presses(wiring, run.modules, m - 1, fuel));
    }
  }

  /** `solve`: parse, press the button 1000 times, multiply the two totals. */
  function SolveSpec(lines: seq<Line>, fuel: nat): Option<int>
  {
    match ParseSpec(lines)
    case None => None
    case Some(net) =>
      match Presses(net.wiring, net.modules, 1000, fuel)
      case None => None
      case Some(t) => Some(t.lo * t.hi)
  }

  method Solve(lines: seq<Line>, fuel: nat) returns (r: Option<int>)
    ensures r == SolveSpec(lines, fuel)
  {
    var net := Parse(lines);
    if net.None? {
      return None;
    }
    var machine := new Machine(net.value.modules, net.value.wiring);
    var totals := machine.PressMany(1000, fuel);
    if totals.None? {
      return None;
    }
    return Some(totals.value.lo * totals.value.hi);
  }
}
