/** Quadrature decoding (`drivers/encoder/encoder_quadrature.c`), without a default position. */
module EncoderModel {
  import opened Arithmetic

  /** The two pins, A in bit 0 and B in bit 1. */
  type pins = p: nat | p < 4

  /** `encoder_LUT` */
  const LUT: seq<int> := [0, -1, 1, 0, 1, 0, 0, -1, -1, 0, 0, 1, 0, 1, -1, 0]

  function Delta(was: pins, now: pins): int {
    LUT[4 * was + now]
  }

  /** State byte and pulse count of one encoder. */
  datatype Wheel = Wheel(state: nat, pulses: int)

  /** The pins last seen. */
  function Seen(w: Wheel): pins {
    w.state % 4
  }

  /** The remainder of C, with the sign of `x`. */
  function Remainder(x: int, r: int): int
    requires r > 0
  {
    if x >= 0 then x % r else -((-x) % r)
  }

  /** The queue call, 1 or -1, that a pulse count leads to. */
  function Call(pulses: int, resolution: int): int {
    if pulses >= resolution then 1 else if pulses <= -resolution then -1 else 0
  }

  /** The state byte shifted left by two, with the new pins in the low bits. */
  function Pushed(state: nat, now: pins): (s: nat)
    ensures s < 256 && s % 4 == now && (s - now) % 256 == state * 4 % 256
  {
    LowPins(state, now);
    (state * 4) % 256 + now
  }

  lemma LowPins(state: nat, now: pins)
    ensures (state * 4) % 256 + now < 256
    ensures ((state * 4) % 256 + now) % 4 == now
  {
    Shifted(state);
  }

  /** `state << 2` in a byte. */
  lemma Shifted(state: nat)
    ensures (state * 4) % 256 == 4 * (state % 64)
  {
    var q, r := state / 64, state % 64;
    assert state * 4 == 256 * q + 4 * r && 0 <= 4 * r < 256;
  }

  /** One read of the pins: the next state and the queue call, 0 for none. */
  function Step(resolution: int, w: Wheel, now: pins): (Wheel, int)
    requires resolution > 0
  {
    if Seen(w) == now then (w, 0)
    else
      var pulses := w.pulses + Delta(Seen(w), now);
      (Wheel(Pushed(w.state, now), Remainder(pulses, resolution)), Call(pulses, resolution))
  }

  function Run(resolution: int, w: Wheel, path: seq<pins>): Wheel
    requires resolution > 0
  {
    if path == [] then w else Step(resolution, Run(resolution, w, path[..|path| - 1]), path[|path| - 1]).0
  }

  /** Positive minus negative queue calls. */
  function Calls(resolution: int, w: Wheel, path: seq<pins>): int
    requires resolution > 0
  {
    if path == [] then 0
    else
      var init := path[..|path| - 1];
      Calls(resolution, w, init) + Step(resolution, Run(resolution, w, init), path[|path| - 1]).1
  }

  function Last(start: pins, path: seq<pins>): pins {
    if path == [] then start else path[|path| - 1]
  }

  /** Sum of the table entries along a path. */
  function Travel(start: pins, path: seq<pins>): int {
    if path == [] then 0
    else
      var init := path[..|path| - 1];
      Travel(start, init) + Delta(Last(start, init), path[|path| - 1])
  }

  lemma DeltaRange(was: pins, now: pins)
    ensures -1 <= Delta(was, now) <= 1 && Delta(now, now) == 0
  {}

  /** A count that reaches the resolution is worth one call and starts again from 0. */
  lemma CallsCount(p: int, r: int)
    requires 1 <= r && -r <= p <= r
    ensures r * Call(p, r) + Remainder(p, r) == p && -r < Remainder(p, r) < r
  {
    if p == r {
      assert Call(p, r) == 1 && r % r == 0;
    } else if p == -r {
      assert Call(p, r) == -1 && r % r == 0;
    } else {
      var size := if p >= 0 then p else -p;
      ModUnique(size, r, 0, size);
      assert Call(p, r) == 0;
    }
  }

  lemma StepKeeps(resolution: int, w: Wheel, now: pins)
    requires 1 <= resolution <= 127 && -resolution < w.pulses < resolution
    ensures var (w', call) := Step(resolution, w, now);
            && -resolution < w'.pulses < resolution && Seen(w') == now
            && w.pulses + Delta(Seen(w), now) == resolution * call + w'.pulses
  {
    hide Delta, Call, Remainder, Pushed;
    DeltaRange(Seen(w), now);
    CallsCount(w.pulses + Delta(Seen(w), now), resolution);
  }

  /** Nothing is lost: for every path of pin states, the travel and the count carried over are worth exactly
      the queue calls and the new count, which stays below the resolution. */
  lemma {:induction false} Conservation(resolution: int, w: Wheel, path: seq<pins>)
    requires 1 <= resolution <= 127 && -resolution < w.pulses < resolution
    ensures var w' := Run(resolution, w, path);
            && Seen(w') == Last(Seen(w), path)
            && -resolution < w'.pulses < resolution
            && w.pulses + Travel(Seen(w), path) == resolution * Calls(resolution, w, path) + w'.pulses
  {
    hide Step, Delta;
    if path != [] {
      var init := path[..|path| - 1];
      Conservation(resolution, w, init);
      StepKeeps(resolution, Run(resolution, w, init), path[|path| - 1]);
      Distribute(resolution, Calls(resolution, w, init),
        Step(resolution, Run(resolution, w, init), path[|path| - 1]).1);
    }
  }

  lemma Distribute(r: int, a: int, b: int)
    ensures r * (a + b) == r * a + r * b
  {}

  // ---------------------------------------------------------------- phase

  /** The place of a pin state in the Gray code 00, 10, 11, 01 (written BA). */
  function Phase(p: pins): nat {
    if p == 0 then 0 else if p == 2 then 1 else if p == 3 then 2 else 3
  }

  /** Both pins never change at once. */
  predicate SingleSteps(start: pins, path: seq<pins>) {
    forall i :: 0 <= i < |path| ==> Last(start, path[..i]) + path[i] != 3
  }

  lemma DeltaPhase(was: pins, now: pins)
    requires was + now != 3
    ensures (Delta(was, now) - Phase(now) + Phase(was)) % 4 == 0
  {}

  lemma SumOfMultiples(a: int, b: int)
    requires a % 4 == 0 && b % 4 == 0
    ensures (a + b) % 4 == 0
  {}

  /** The travel is ahead of the phase by a multiple of 4. */
  predicate InPhase(travel: int, start: pins, end: pins) {
    (travel - Phase(end) + Phase(start)) % 4 == 0
  }

  lemma PhaseStep(travel: int, start: pins, was: pins, now: pins)
    requires InPhase(travel, start, was) && was + now != 3
    ensures InPhase(travel + Delta(was, now), start, now)
  {
    hide Delta, Phase;
    DeltaPhase(was, now);
    SumOfMultiples(travel - Phase(was) + Phase(start), Delta(was, now) - Phase(now) + Phase(was));
  }

  /** On a path of single steps the travel follows the phase, modulo 4. */
  lemma {:induction false} TravelPhase(start: pins, path: seq<pins>)
    requires SingleSteps(start, path)
    ensures InPhase(Travel(start, path), start, Last(start, path))
  {
    hide InPhase, Delta;
    if path == [] {
      NoTravel(start);
    } else {
      var init := path[..|path| - 1];
      StepsBefore(start, path);
      hide SingleSteps;
      TravelPhase(start, init);
      TravelNext(start, path);
      hide Last, Travel;
      PhaseStep(Travel(start, init), start, Last(start, init), path[|path| - 1]);
    }
  }

  lemma NoTravel(start: pins)
    ensures InPhase(0, start, start)
  {}

  lemma StepsBefore(start: pins, path: seq<pins>)
    requires path != [] && SingleSteps(start, path)
    ensures SingleSteps(start, path[..|path| - 1]) && Last(start, path[..|path| - 1]) + path[|path| - 1] != 3
  {
    var init := path[..|path| - 1];
    assert forall i :: 0 <= i < |init| ==> init[..i] == path[..i];
  }

  lemma TravelNext(start: pins, path: seq<pins>)
    requires path != []
    ensures var init := path[..|path| - 1];
            && Travel(start, path) == Travel(start, init) + Delta(Last(start, init), path[|path| - 1])
            && Last(start, path) == path[|path| - 1]
  {}

  // ---------------------------------------------------------------- calls

  /** A step calls exactly when the count reaches the resolution, in its direction, and then starts again from 0;
      otherwise the count is kept. */
  lemma CallIff(resolution: int, w: Wheel, now: pins)
    requires 1 <= resolution <= 127 && -resolution < w.pulses < resolution
    ensures var (w', call) := Step(resolution, w, now);
            var count := w.pulses + Delta(Seen(w), now);
            && (call == 1 <==> count == resolution) && (call == -1 <==> count == -resolution) && -1 <= call <= 1
            && w'.pulses == (if call == 0 then count else 0)
  {
    hide Delta, Pushed;
    DeltaRange(Seen(w), now);
    DeltaRange(now, now);
    var count := w.pulses + Delta(Seen(w), now);
    CallsCount(count, resolution);
    StepKeeps(resolution, w, now);
    if Seen(w) != now && count == resolution { assert Remainder(count, resolution) == 0; }
    if Seen(w) != now && count == -resolution { assert Remainder(count, resolution) == 0; }
  }

  /** A read that finds the pins as they were changes nothing. */
  lemma SamePins(resolution: int, w: Wheel)
    requires resolution > 0
    ensures Step(resolution, w, Seen(w)) == (w, 0)
  {}

  /** The table counts 1 for the next phase, -1 for the one before,
    and nothing when both pins change at once or none. */
  lemma DeltaIsPhase(was: pins, now: pins)
    ensures Delta(was, now) == (if Phase(now) == (Phase(was) + 1) % 4 then 1
                                else if Phase(now) == (Phase(was) + 3) % 4 then -1 else 0)
  {}

  /** Every read finds the next phase, `d` being 1, or the one before, `d` being -1. */
  predicate Turns(start: pins, path: seq<pins>, d: int) {
    forall i :: 0 <= i < |path| ==> Phase(path[i]) == (Phase(Last(start, path[..i])) + d) % 4
  }

  function Signed(d: int, n: int): int {
    if d == 1 then n else -n
  }

  /** Turning one way, from a count of 0, every so many reads as the resolution says make a call in that direction, and
      the count is the number of reads since. */
  lemma {:induction false} TurningCalls(resolution: int, w: Wheel, path: seq<pins>, d: int)
    requires 1 <= resolution <= 127 && w.pulses == 0 && (d == 1 || d == -1) && Turns(Seen(w), path, d)
    ensures Seen(Run(resolution, w, path)) == Last(Seen(w), path)
    ensures Run(resolution, w, path).pulses == Signed(d, |path| % resolution)
    ensures Calls(resolution, w, path) == Signed(d, |path| / resolution)
  {
    hide Step, Phase, Seen, Signed;
    if path == [] {
      NoTurns(resolution, d);
    } else {
      var init, now := path[..|path| - 1], path[|path| - 1];
      TurnsBefore(Seen(w), path, d);
      hide Turns;
      TurningCalls(resolution, w, init, d);
      hide Calls, Run, Last;
      NextTurn(resolution, Run(resolution, w, init), now, d, |init|);
      RunsOn(resolution, w, path);
      LastIs(Seen(w), path);
    }
  }

  lemma NoTurns(resolution: int, d: int)
    requires resolution > 0
    ensures Signed(d, 0 % resolution) == 0 && Signed(d, 0 / resolution) == 0
  {
    QuotientUnique(0, resolution, 0, 0);
  }

  lemma LastIs(start: pins, path: seq<pins>)
    requires path != []
    ensures Last(start, path) == path[|path| - 1]
  {}

  lemma TurnsBefore(start: pins, path: seq<pins>, d: int)
    requires path != [] && Turns(start, path, d)
    ensures var init := path[..|path| - 1];
            Turns(start, init, d) && Phase(path[|path| - 1]) == (Phase(Last(start, init)) + d) % 4
  {
    var init := path[..|path| - 1];
    assert forall i :: 0 <= i < |init| ==> init[..i] == path[..i];
  }

  lemma RunsOn(resolution: int, w: Wheel, path: seq<pins>)
    requires resolution > 0 && path != []
    ensures var init := path[..|path| - 1];
            var (w', call) := Step(resolution, Run(resolution, w, init), path[|path| - 1]);
            Run(resolution, w, path) == w' && Calls(resolution, w, path) == Calls(resolution, w, init) + call
  {}

  lemma NextTurn(resolution: int, w: Wheel, now: pins, d: int, n: nat)
    requires 1 <= resolution <= 127 && (d == 1 || d == -1) && w.pulses == Signed(d, n % resolution)
    requires Phase(now) == (Phase(Seen(w)) + d) % 4
    ensures var (w', call) := Step(resolution, w, now);
            && Seen(w') == now && w'.pulses == Signed(d, (n + 1) % resolution)
            && call == Signed(d, (n + 1) / resolution) - Signed(d, n / resolution)
  {
    TurnDelta(Seen(w), now, d);
    hide Delta, Phase, Step, Seen;
    NextQuotient(n, resolution);
    CallIff(resolution, w, now);
    StepKeeps(resolution, w, now);
  }

  lemma TurnDelta(was: pins, now: pins, d: int)
    requires d == 1 || d == -1
    requires Phase(now) == (Phase(was) + d) % 4
    ensures Delta(was, now) == d
  {
    DeltaIsPhase(was, now);
  }

  lemma NextQuotient(n: nat, r: nat)
    requires r > 0
    ensures if n % r + 1 == r then (n + 1) % r == 0 && (n + 1) / r == n / r + 1
            else (n + 1) % r == n % r + 1 && (n + 1) / r == n / r
  {
    var k := n / r;
    assert n == r * k + n % r;
    if n % r + 1 == r {
      assert n + 1 == r * (k + 1) + 0;
      QuotientUnique(n + 1, r, k + 1, 0);
    } else {
      QuotientUnique(n + 1, r, k, n % r + 1);
    }
  }

  lemma SameFactor(m: nat, a: int, b: int)
    requires m > 0 && m * a == m * b
    ensures a == b
  {
    assert m * (a - b) == 0;
  }

  lemma QuotientUnique(x: nat, m: nat, k: nat, r: nat)
    requires r < m && x == m * k + r
    ensures x / m == k && x % m == r
  {
    ModUnique(x, m, k, r);
    SameFactor(m, x / m, k);
  }

  /** The way back over the states of a path. */
  function Back(start: pins, path: seq<pins>): (back: seq<pins>)
    ensures |back| == |path|
  {
    if path == [] then []
    else
      var init := path[..|path| - 1];
      [Last(start, init)] + Back(start, init)
  }

  lemma {:induction false} BackEnds(start: pins, path: seq<pins>)
    ensures Last(Last(start, path), Back(start, path)) == start
  {
    if path != [] {
      var init := path[..|path| - 1];
      BackEnds(start, init);
      if init == [] { assert Back(start, init) == []; }
    }
  }

  lemma {:induction false} TravelFirst(start: pins, first: pins, rest: seq<pins>)
    ensures Travel(start, [first] + rest) == Delta(start, first) + Travel(first, rest)
  {
    hide Delta;
    var path := [first] + rest;
    if rest == [] {
      assert path[..0] == [] && path == [first];
    } else {
      var init := rest[..|rest| - 1];
      assert path[..|path| - 1] == [first] + init;
      TravelFirst(start, first, init);
      assert Last(start, [first] + init) == Last(first, init);
    }
  }

  /** The way back undoes the way there, for any path. */
  lemma {:induction false} BackNegates(start: pins, path: seq<pins>)
    ensures Travel(Last(start, path), Back(start, path)) == -Travel(start, path)
  {
    hide Delta;
    if path != [] {
      var init := path[..|path| - 1];
      var last := path[|path| - 1];
      BackNegates(start, init);
      TravelFirst(last, Last(start, init), Back(start, init));
      Antisymmetric(Last(start, init), last);
    }
  }

  lemma Antisymmetric(a: pins, b: pins)
    ensures Delta(a, b) == -Delta(b, a)
  {}

  /** Contact bounce cancels: going somewhere and back leaves the sum of calls and count as it was. */
  lemma BounceCancels(resolution: int, w: Wheel, path: seq<pins>)
    requires 1 <= resolution <= 127 && -resolution < w.pulses < resolution
    ensures var w1 := Run(resolution, w, path);
            var back := Back(Seen(w), path);
            var w2 := Run(resolution, w1, back);
            && Seen(w2) == Seen(w)
            && resolution * (Calls(resolution, w, path) + Calls(resolution, w1, back)) + w2.pulses == w.pulses
  {
    hide Run, Calls, Travel;
    var w1 := Run(resolution, w, path);
    var back := Back(Seen(w), path);
    Conservation(resolution, w, path);
    Conservation(resolution, w1, back);
    BackNegates(Seen(w), path);
    BackEnds(Seen(w), path);
    Distribute(resolution, Calls(resolution, w, path), Calls(resolution, w1, back));
  }
}

module EncoderEngine {
  import opened EncoderModel

  class Encoders {
    const state: array<nat>
    const pulses: array<int>
    const resolutions: seq<int>

    ghost predicate Valid()
      reads state, pulses
    {
      && state.Length == pulses.Length == |resolutions|
      && forall i :: 0 <= i < |resolutions| ==>
           1 <= resolutions[i] <= 127 && state[i] < 256 && -resolutions[i] < pulses[i] < resolutions[i]
    }

    function WheelAt(i: nat): Wheel
      requires i < state.Length && i < pulses.Length
      reads state, pulses
    {
      Wheel(state[i], pulses[i])
    }

    constructor (resolutions: seq<int>)
      requires forall i :: 0 <= i < |resolutions| ==> 1 <= resolutions[i] <= 127
      ensures Valid() && this.resolutions == resolutions && fresh(state) && fresh(pulses)
      ensures forall i :: 0 <= i < |resolutions| ==> WheelAt(i) == Wheel(0, 0)
    {
      this.resolutions := resolutions;
      state := new nat[|resolutions|](_ => 0);
      pulses := new int[|resolutions|](_ => 0);
    }

    /** `encoder_quadrature_handle_read`: the calls of `encoder_queue_event`, 1 for counter-clockwise. */
    method HandleRead(index: nat, pinA: bool, pinB: bool) returns (calls: seq<int>)
      requires Valid() && index < |resolutions|
      modifies state, pulses
      ensures Valid()
      ensures forall i :: 0 <= i < |resolutions| && i != index ==> WheelAt(i) == old(WheelAt(i))
      ensures var now := (if pinA then 1 else 0) + if pinB then 2 else 0;
              (WheelAt(index), calls) ==
              var (w, call) := Step(resolutions[index], old(WheelAt(index)), now);
              (w, if call == 0 then [] else [call])
    {
      hide Delta, Call, Remainder, Pushed, LUT;
      calls := [];
      var now := (if pinA then 1 else 0) + if pinB then 2 else 0;
      if state[index] % 4 != now {
        StepKeeps(resolutions[index], WheelAt(index), now);
        ghost var was := WheelAt(index);
        state[index] := Pushed(state[index], now);
        TableEntry(was.state, now);
        calls := HandleStateChange(index, state[index]);
      }
    }

    /** `encoder_handle_state_change` */
    method HandleStateChange(index: nat, current: nat) returns (calls: seq<int>)
      requires state.Length == pulses.Length == |resolutions| && index < |resolutions| && resolutions[index] >= 1
      modifies pulses
      ensures forall i :: 0 <= i < |resolutions| && i != index ==> pulses[i] == old(pulses[i])
      ensures var p := old(pulses[index]) + LUT[current % 16];
              && pulses[index] == Remainder(p, resolutions[index])
              && calls == (if Call(p, resolutions[index]) == 0 then [] else [Call(p, resolutions[index])])
    {
      calls := [];
      var resolution := resolutions[index];
      pulses[index] := pulses[index] + LUT[current % 16];
      if pulses[index] >= resolution { calls := calls + [1]; }
      if pulses[index] <= -resolution { calls := calls + [-1]; }
      pulses[index] := Remainder(pulses[index], resolution);
    }
  }

  /** The low four bits of the new state byte are the pins before and now. */
  lemma IndexOf(was: nat, now: pins)
    ensures ((was * 4) % 256 + now) % 16 == 4 * (was % 4) + now
  {
    Shifted(was);
    Nibble(was % 64, now);
    LowBits(was);
  }

  lemma LowBits(was: nat)
    ensures was % 64 % 4 == was % 4
  {
    var q, r := was / 64, was % 64;
    assert was == 4 * (16 * q + r / 4) + r % 4;
  }

  lemma Nibble(r: nat, now: pins)
    requires r < 64
    ensures (4 * r + now) % 16 == 4 * (r % 4) + now
  {
    var d := r / 4;
    assert 4 * r + now == 16 * d + (4 * (r % 4) + now);
  }

  /** The table entry used is the one for the pins before and now. */
  lemma TableEntry(was: nat, now: pins)
    ensures LUT[Pushed(was, now) % 16] == Delta(was % 4, now)
  {
    IndexOf(was, now);
  }
}
