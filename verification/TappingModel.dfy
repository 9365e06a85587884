/** The tap/hold decision of `quantum/action_tapping.c` as functions on values:
    one call of `process_tapping`, the drain of the waiting buffer, one call of
    `action_tapping_process`, and whole runs of calls. */
module TappingModel {

  datatype Key = Key(row: nat, col: nat)

  datatype Kind =
    | TickEvent | KeyEvent | EncoderCwEvent | EncoderCcwEvent
    | ComboEvent | DipSwitchOnEvent | DipSwitchOffEvent

  /** `time` is the unbounded millisecond clock. The firmware keeps its low 16 bits and only
      ever reads differences of two times modulo 2^16 (`Diff16`).
      `rank` is a tag that no operation below reads: in a well-formed run it is the position of
      the event among the events of its key, see `TappingVerdict.Ranked`. */
  datatype Event = Event(key: Key, time: nat, kind: Kind, pressed: bool, rank: nat)

  datatype Tap = Tap(interrupted: bool, count: nat)

  datatype Record = Record(event: Event, tap: Tap)

  const NO_TAP := Tap(false, 0)
  const NO_RECORD := Record(Event(Key(0, 0), 0, TickEvent, false, 0), NO_TAP)

  const BUFFER_SIZE: nat := 8
  const MAX_COUNT: nat := 15

  /** `TAPPING_TERM` and `QUICK_TAP_TERM`, possibly per key. */
  datatype Config = Config(term: Key -> nat, quick: Key -> nat)

  /** What the rest of the firmware answers during one call of `process_tapping`: is the record a
      tapping record, do permissive hold and hold-on-other-key-press apply, and must the
      release of a key pressed earlier be retained because its action is a modifier or a layer. */
  datatype Answer = Answer(isTap: bool, permissive: bool, holdOnOther: bool, retain: bool)

  /** A record handed to `process_record`: one that was received, or the release made up to
      unregister a key before another tap starts. */
  datatype Emission = Real(record: Record) | Synthetic(record: Record)

  predicate IsEvent(e: Event) {
    e.kind != TickEvent
  }

  function Diff16(a: nat, b: nat): nat {
    (a - b) % 0x1_0000
  }

  predicate WithinTerm(cfg: Config, t: Record, e: Event) {
    Diff16(e.time, t.event.time) < cfg.term(t.event.key)
  }

  predicate WithinQuickTerm(cfg: Config, t: Record, e: Event) {
    Diff16(e.time, t.event.time) < cfg.quick(t.event.key)
  }

  /** The tapping key is pressed and neither tap nor hold has been decided. */
  predicate Undecided(t: Record) {
    IsEvent(t.event) && t.event.pressed && t.tap.count == 0
  }

  /** `waiting_buffer_typed`: the buffer holds the opposite transition of the same key. */
  predicate Typed(waiting: seq<Record>, e: Event) {
    exists i :: 0 <= i < |waiting| && waiting[i].event.key == e.key && waiting[i].event.pressed != e.pressed
  }

  predicate TapCandidate(cfg: Config, t: Record, c: Record) {
    IsEvent(c.event) && c.event.key == t.event.key && !c.event.pressed && WithinTerm(cfg, t, c.event)
  }

  /** Index of the first buffered release that makes `t` a tap, or the length if there is none. */
  function FirstCandidate(cfg: Config, t: Record, waiting: seq<Record>): (i: nat)
    ensures i <= |waiting|
    ensures i < |waiting| ==> TapCandidate(cfg, t, waiting[i])
    ensures forall j :: 0 <= j < i ==> !TapCandidate(cfg, t, waiting[j])
  {
    if waiting == [] then 0
    else if TapCandidate(cfg, t, waiting[0]) then 0
    else
      var i := FirstCandidate(cfg, t, waiting[1..]);
      assert forall j :: 1 <= j < i + 1 ==> waiting[j] == waiting[1..][j - 1];
      i + 1
  }

  datatype Scanned = Scanned(tapping: Record, waiting: seq<Record>, out: seq<Emission>)

  function WithCount(r: Record, n: nat): Record {
    r.(tap := r.tap.(count := n))
  }

  /** `waiting_buffer_scan_tap` */
  function Scan(cfg: Config, t: Record, waiting: seq<Record>): (s: Scanned)
    ensures |s.waiting| == |waiting|
  {
    if t.tap.count > 0 || !t.event.pressed then Scanned(t, waiting, [])
    else
      var i := FirstCandidate(cfg, t, waiting);
      if i == |waiting| then Scanned(t, waiting, [])
      else
        var t' := WithCount(t, 1);
        Scanned(t', waiting[i := WithCount(waiting[i], 1)], [Real(t')])
  }

  /** What one call of `process_tapping` does; the branches of the source that act alike share a move. */
  datatype Move =
    | Ignore            // nothing to do, consumed
    | Pass              // process the record as it is
    | PassInterrupt     // the same, and the last tap counts as interrupted
    | Start             // the record becomes the tapping key; look for its release in the buffer
    | StartReleasing    // the same, after unregistering the previous tapping key
    | Restart           // the record becomes the tapping key, the buffer is not searched
    | FirstTap          // the tapping key is a tap; its release waits in the buffer
    | Settle            // the tapping key is a hold; the record waits
    | SettleInterrupt   // the same, the tapping key being interrupted by a press
    | Wait              // the record waits
    | WaitInterrupt     // the same, the tapping key being interrupted by a press
    | TapRelease        // release of a tap within the term
    | LastRelease       // release of a tap after the term
    | SequentialTap     // press again soon after a tap: the count goes up
    | Expire            // the released tapping key is forgotten; the record waits

  /** The branch tree of `process_tapping`. */
  function Choose(cfg: Config, t: Record, waiting: seq<Record>, e: Event, a: Answer): Move {
    if !IsEvent(t.event) then
      if !IsEvent(e) then Ignore
      else if e.pressed && a.isTap then Start
      else Pass
    else if t.event.pressed then
      if t.tap.count == 0 then
        if WithinTerm(cfg, t, e) then
          if !IsEvent(e) then Ignore
          else if t.event.key == e.key && !e.pressed then FirstTap
          else if !e.pressed && Typed(waiting, e) && a.permissive then Settle
          else if !e.pressed && !Typed(waiting, e) then (if a.retain then Wait else Pass)
          else if e.pressed then (if a.holdOnOther then SettleInterrupt else WaitInterrupt)
          else Wait
        else Settle
      else if !IsEvent(e) then Ignore
      else if t.event.key == e.key && !e.pressed then
        (if WithinTerm(cfg, t, e) then TapRelease else LastRelease)
      else if a.isTap && e.pressed then (if t.tap.count > 1 then StartReleasing else Start)
      else Pass
    else if WithinTerm(cfg, t, e) then
      if !IsEvent(e) then Ignore
      else if !e.pressed then Pass
      else if t.event.key == e.key then
        if WithinQuickTerm(cfg, t, e) && !t.tap.interrupted && t.tap.count > 0 then SequentialTap
        else Restart
      else if a.isTap then Start
      else PassInterrupt
    else Expire
  }

  /** Result of one call of `process_tapping`: the tapping key, the other buffered records, the
      record itself (its tap field may have been stamped), what was processed, and the
      returned flag. */
  datatype Outcome = Outcome(tapping: Record, rest: seq<Record>, record: Record, out: seq<Emission>, consumed: bool)

  function Interrupt(t: Record): Record {
    t.(tap := t.tap.(interrupted := true))
  }

  function NextCount(n: nat): nat {
    if n < MAX_COUNT then n + 1 else n
  }

  /** The effect of a move on tapping key `t`, buffered records `rest` and record `r`. */
  function Apply(cfg: Config, m: Move, t: Record, rest: seq<Record>, r: Record): (o: Outcome)
    ensures |o.rest| == |rest|
  {
    match m
    case Ignore => Outcome(t, rest, r, [], true)
    case Pass => Outcome(t, rest, r, [Real(r)], true)
    case PassInterrupt => Outcome(Interrupt(t), rest, r, [Real(r)], true)
    case Start =>
      var s := Scan(cfg, r, rest);
      Outcome(s.tapping, s.waiting, r, s.out, true)
    case StartReleasing =>
      var s := Scan(cfg, r, rest);
      var unregister := Record(t.event.(time := r.event.time, pressed := false), t.tap);
      Outcome(s.tapping, s.waiting, r, [Synthetic(unregister)] + s.out, true)
    case Restart => Outcome(r, rest, r, [], true)
    case FirstTap =>
      var t' := WithCount(t, 1);
      Outcome(t', rest, r.(tap := t'.tap), [Real(t')], false)
    case Settle => Outcome(NO_RECORD, rest, r, [Real(t)], false)
    case SettleInterrupt => Outcome(NO_RECORD, rest, r, [Real(Interrupt(t))], false)
    case Wait => Outcome(t, rest, r, [], false)
    case WaitInterrupt => Outcome(Interrupt(t), rest, r, [], false)
    case TapRelease =>
      var r' := r.(tap := t.tap);
      Outcome(r', rest, r', [Real(r')], true)
    case LastRelease =>
      var r' := r.(tap := t.tap);
      Outcome(NO_RECORD, rest, r', [Real(r')], true)
    case SequentialTap =>
      var r' := r.(tap := t.tap.(count := NextCount(t.tap.count)));
      Outcome(r', rest, r', [Real(r')], true)
    case Expire => Outcome(NO_RECORD, rest, r, [], false)
  }

  /** One call of `process_tapping` on a record that is not one of `rest`. */
  function ProcessTapping(cfg: Config, t: Record, rest: seq<Record>, r: Record, a: Answer): (o: Outcome)
    ensures |o.rest| == |rest|
  {
    Apply(cfg, Choose(cfg, t, rest, r.event, a), t, rest, r)
  }

  /** Tapping key, waiting buffer, everything processed so far, everything dropped by overflow so
      far, and the number of calls of `process_tapping` so far. */
  datatype State = State(tapping: Record, waiting: seq<Record>, out: seq<Emission>, lost: seq<Event>, calls: nat)

  const INITIAL := State(NO_RECORD, [], [], [], 0)

  /** The answers of the rest of the firmware, call by call; theorems hold for every such stream. */
  type Answers = nat -> Answer

  /** Events a state still owes: the undecided tapping key. A decided one has been processed. */
  function Owed(t: Record): seq<Event> {
    if Undecided(t) then [t.event] else []
  }

  function Events(rs: seq<Record>): seq<Event> {
    seq(|rs|, i requires 0 <= i < |rs| => rs[i].event)
  }

  /** Where the received event goes after `process_tapping`: consumed, queued, or dropped together
      with everything else because the buffer is full. */
  function Land(s: State, e: Event, o: Outcome): (s': State) {
    var out := s.out + o.out;
    if o.consumed || !IsEvent(e) then State(o.tapping, o.rest, out, s.lost, s.calls + 1)
    else if |o.rest| + 1 >= BUFFER_SIZE then
      State(NO_RECORD, [], out, s.lost + Owed(o.tapping) + Events(o.rest) + [e], s.calls + 1)
    else State(o.tapping, o.rest + [o.record], out, s.lost, s.calls + 1)
  }

  /** The first half of `action_tapping_process`. */
  function Deliver(cfg: Config, answers: Answers, s: State, e: Event): (s': State) {
    Land(s, e, ProcessTapping(cfg, s.tapping, s.waiting, Record(e, NO_TAP), answers(s.calls)))
  }

  function FrontOutcome(cfg: Config, answers: Answers, s: State): (o: Outcome)
    requires s.waiting != []
  {
    ProcessTapping(cfg, s.tapping, s.waiting[1..], s.waiting[0], answers(s.calls))
  }

  /** The front record leaves the buffer if it was consumed, and stays, possibly stamped, if not. */
  function PutBack(s: State, o: Outcome): (s': State) {
    State(o.tapping, if o.consumed then o.rest else [o.record] + o.rest, s.out + o.out, s.lost, s.calls + 1)
  }

  /** The second half of `action_tapping_process`. */
  function Drain(cfg: Config, answers: Answers, s: State): (s': State)
    decreases |s.waiting|
  {
    if s.waiting == [] then s
    else
      var o := FrontOutcome(cfg, answers, s);
      if o.consumed then Drain(cfg, answers, PutBack(s, o)) else PutBack(s, o)
  }

  function Process(cfg: Config, answers: Answers, s: State, e: Event): (s': State) {
    Drain(cfg, answers, Deliver(cfg, answers, s, e))
  }

  /** The state after a run of calls of `action_tapping_process`. */
  function RunFrom(cfg: Config, answers: Answers, s: State, inputs: seq<Event>): (s': State) {
    if inputs == [] then s
    else Process(cfg, answers, RunFrom(cfg, answers, s, inputs[..|inputs| - 1]), inputs[|inputs| - 1])
  }

  function Run(cfg: Config, answers: Answers, inputs: seq<Event>): (s: State) {
    RunFrom(cfg, answers, INITIAL, inputs)
  }
}
