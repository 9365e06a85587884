/** Two dynamic macros growing towards each other in one array (`quantum/dynamic_macro.h`). */
module DynamicMacro {

  // ---------------------------------------------------------------- events

  datatype Slot = One | Two

  /** What `process_record_dynamic_macro` distinguishes of a keycode. */
  datatype Keycode = RecordStart(slot: Slot) | RecordStop | Play(slot: Slot) | Plain(code: nat)

  datatype Record = Record(row: nat, col: nat, pressed: bool, time: nat)

  datatype Input = Input(keycode: Keycode, record: Record)

  // ---------------------------------------------------------------- the two macros as sequences

  /** The macros while idle; while one is recorded, the events taken so far and the other macro. */
  datatype State =
    | Idle(one: seq<Record>, two: seq<Record>)
    | Recording(slot: Slot, taken: seq<Record>, other: seq<Record>)

  function Saved(s: State, slot: Slot): seq<Record>
    requires s.Idle?
  {
    if slot == One then s.one else s.two
  }

  /** A leading release is ignored, and nothing is stored once the other macro is reached. */
  function Take(room: int, taken: seq<Record>, r: Record): seq<Record> {
    if (!r.pressed && taken == []) || |taken| >= room then taken else taken + [r]
  }

  /** The events without the presses at the end. */
  function Trim(s: seq<Record>): (t: seq<Record>)
    ensures t <= s
    ensures t == [] || !t[|t| - 1].pressed
    ensures forall i :: |t| <= i < |s| ==> s[i].pressed
  {
    if s != [] && s[|s| - 1].pressed then Trim(s[..|s| - 1]) else s
  }

  function Save(slot: Slot, macro: seq<Record>, other: seq<Record>): State {
    if slot == One then Idle(macro, other) else Idle(other, macro)
  }

  /** One call for a buffer of `size` records: new state, records played, and whether the event passes. */
  function Step(size: nat, s: State, e: Input): (State, seq<Record>, bool) {
    match s
    case Idle(one, two) =>
      if e.record.pressed then (s, [], true)
      else (
        match e.keycode
        case RecordStart(slot) => (Recording(slot, [], if slot == One then two else one), [], false)
        case Play(slot) => (s, Saved(s, slot), false)
        case RecordStop => (s, [], true)
        case Plain(code) => (s, [], true)
      )
    case Recording(slot, taken, other) =>
      if e.keycode.RecordStop? then
        (if e.record.pressed then Save(slot, Trim(taken), other) else s, [], false)
      else if e.keycode.Play? then (s, [], false)
      else (Recording(slot, Take(size - |other|, taken, e.record), other), [], true)
  }

  function Run(size: nat, s: State, es: seq<Input>): State
    decreases |es|
  {
    if es == [] then s else Step(size, Run(size, s, es[..|es| - 1]), es[|es| - 1]).0
  }

  // ---------------------------------------------------------------- properties of every run

  /** Empty, or from a press to a release. */
  predicate Tidy(macro: seq<Record>) {
    macro == [] || (macro[0].pressed && !macro[|macro| - 1].pressed)
  }

  /** Both macros fit in the buffer together; saved macros are tidy, and so is the start of a recording. */
  predicate Invariant(size: nat, s: State) {
    match s
    case Idle(one, two) => |one| + |two| <= size && Tidy(one) && Tidy(two)
    case Recording(slot, taken, other) =>
      |taken| + |other| <= size && Tidy(other) && (taken == [] || taken[0].pressed)
  }

  lemma {:induction false} RunInvariant(size: nat, es: seq<Input>)
    ensures Invariant(size, Run(size, Idle([], []), es))
    decreases |es|
  {
    if es != [] { RunInvariant(size, es[..|es| - 1]); }
  }

  /** Events that can be stored: everything but the stop and play keys. */
  function Recordable(es: seq<Input>): (rs: seq<Record>)
    decreases |es|
  {
    if es == [] then []
    else
      var e := es[|es| - 1];
      Recordable(es[..|es| - 1]) + (if e.keycode.RecordStop? || e.keycode.Play? then [] else [e.record])
  }

  /** The events from the first press on. */
  function FromFirstPress(rs: seq<Record>): (s: seq<Record>)
    ensures s == [] || s[0].pressed
  {
    if rs != [] && !rs[0].pressed then FromFirstPress(rs[1..]) else rs
  }

  function AtMost(room: int, rs: seq<Record>): (s: seq<Record>)
  {
    if room <= 0 then [] else if |rs| <= room then rs else rs[..room]
  }

  lemma {:induction false} FromFirstPressAppend(rs: seq<Record>, r: Record)
    ensures FromFirstPress(rs + [r]) ==
            if FromFirstPress(rs) == [] && !r.pressed then [] else FromFirstPress(rs) + [r]
  {
    if rs != [] && !rs[0].pressed {
      assert (rs + [r])[1..] == rs[1..] + [r];
      FromFirstPressAppend(rs[1..], r);
    } else if rs == [] {
      assert rs + [r] == [r] && [r][1..] == [];
    }
  }

  /** While recording, what is taken is the first `room` recordable events from the first press on. */
  lemma {:induction false} TakenSoFar(size: nat, slot: Slot, other: seq<Record>, es: seq<Input>)
    requires forall i :: 0 <= i < |es| ==> !(es[i].keycode.RecordStop? && es[i].record.pressed)
    ensures Run(size, Recording(slot, [], other), es) ==
            Recording(slot, AtMost(size - |other|, FromFirstPress(Recordable(es))), other)
    decreases |es|
  {
    if es != [] {
      var e := es[|es| - 1];
      TakenSoFar(size, slot, other, es[..|es| - 1]);
      FromFirstPressAppend(Recordable(es[..|es| - 1]), e.record);
      assert Recordable(es[..|es| - 1]) + [] == Recordable(es[..|es| - 1]);
    }
  }

  /** A whole session: start recording `slot`, any events, stop. The macro is the events in order, minus
      leading releases, events past the room the other macro leaves, and trailing presses; the other macro
      is as before; and the play key plays exactly that. */
  lemma Session(size: nat, s: State, slot: Slot, start: Record, es: seq<Input>, stop: Record, play: Record)
    requires s.Idle? && !start.pressed && stop.pressed && !play.pressed
    requires forall i :: 0 <= i < |es| ==> !(es[i].keycode.RecordStop? && es[i].record.pressed)
    ensures var other := if slot == One then Two else One;
            var macro := Trim(AtMost(size - |Saved(s, other)|, FromFirstPress(Recordable(es))));
            var s' := Run(size, s, [Input(RecordStart(slot), start)] + es + [Input(RecordStop, stop)]);
            && s'.Idle? && Saved(s', slot) == macro && Saved(s', other) == Saved(s, other)
            && Step(size, s', Input(Play(slot), play)) == (s', macro, false)
  {
    hide Run, AtMost, FromFirstPress, Recordable, Trim;
    var other := if slot == One then Two else One;
    var first := [Input(RecordStart(slot), start)];
    var last := Input(RecordStop, stop);
    RunOne(size, s, [], first[0]);
    assert [] + first == first;
    RunNone(size, s);
    RunSplit(size, s, first, es);
    TakenSoFar(size, slot, Saved(s, other), es);
    RunOne(size, s, first + es, last);
  }

  lemma RunNone(size: nat, s: State)
    ensures Run(size, s, []) == s
  {}

  lemma RunOne(size: nat, s: State, es: seq<Input>, e: Input)
    ensures Run(size, s, es + [e]) == Step(size, Run(size, s, es), e).0
  {
    hide Step;
    assert (es + [e])[..|es|] == es;
  }

  lemma {:induction false} RunSplit(size: nat, s: State, a: seq<Input>, b: seq<Input>)
    ensures Run(size, s, a + b) == Run(size, Run(size, s, a), b)
    decreases |b|
  {
    if b == [] {
      assert a + b == a;
    } else {
      assert (a + b)[..|a + b| - 1] == a + b[..|b| - 1];
      RunSplit(size, s, a, b[..|b| - 1]);
    }
  }

  // ---------------------------------------------------------------- what passes

  /** While idle exactly the releases of the start and play keys are kept from further processing; while recording, the
      stop and play keys. */
  lemma PassesIff(size: nat, s: State, e: Input)
    ensures Step(size, s, e).2 <==>
            if s.Idle? then e.record.pressed || !(e.keycode.RecordStart? || e.keycode.Play?)
            else !(e.keycode.RecordStop? || e.keycode.Play?)
  {}

  /** Nothing is played but by the release of a play key while idle, which changes nothing. */
  lemma PlaysIff(size: nat, s: State, e: Input)
    ensures Step(size, s, e).1 ==
            (if s.Idle? && e.keycode.Play? && !e.record.pressed then Saved(s, e.keycode.slot) else [])
    ensures e.keycode.Play? ==> Step(size, s, e).0 == s
  {}

  /** A recording is started exactly by the release of a start key while idle, empty and with the other macro kept,
      and ended exactly by the press of the stop key. */
  lemma RecordsIff(size: nat, s: State, e: Input)
    ensures var s' := Step(size, s, e).0;
            && (s.Idle? && s'.Recording? <==> s.Idle? && e.keycode.RecordStart? && !e.record.pressed)
            && (s.Idle? && s'.Recording? ==>
                  && s'.slot == e.keycode.slot && s'.taken == []
                  && s'.other == Saved(s, if s'.slot == One then Two else One))
            && (s.Idle? && s'.Idle? ==> s' == s)
            && (s.Recording? && s'.Idle? <==> s.Recording? && e.keycode.RecordStop? && e.record.pressed)
  {}
  // ---------------------------------------------------------------- the shared array

  /** The index `i` steps from `begin`. */
  function At(begin: int, direction: int, i: int): int {
    if direction > 0 then begin + i else begin - i
  }

  /** How many steps it is from `begin` to `p`. */
  function Count(begin: int, p: int, direction: int): int {
    if direction > 0 then p - begin else begin - p
  }

  /** The `n` records from `begin` on, in the given direction, are inside the array. */
  predicate Inside(length: int, begin: int, direction: int, n: int) {
    n >= 0 && if direction > 0 then 0 <= begin && begin + n <= length else begin < length && begin - n >= -1
  }

  function Walk(b: seq<Record>, begin: int, direction: int, n: nat): (s: seq<Record>)
    requires Inside(|b|, begin, direction, n)
    ensures |s| == n
  {
    if n == 0 then [] else Walk(b, begin, direction, n - 1) + [b[At(begin, direction, n - 1)]]
  }

  /** A walk sees only its own part of the array. */
  lemma WalkEmpty(b: seq<Record>, begin: int, direction: int, n: nat)
    requires Inside(|b|, begin, direction, n)
    ensures |Walk(b, begin, direction, n)| == n
  {}

  lemma WalkNext(b: seq<Record>, begin: int, direction: int, n: nat)
    requires Inside(|b|, begin, direction, n + 1)
    ensures Walk(b, begin, direction, n + 1) == Walk(b, begin, direction, n) + [b[At(begin, direction, n)]]
  {}

  lemma WalkAppend(b: seq<Record>, begin: int, direction: int, n: nat, r: Record)
    requires Inside(|b|, begin, direction, n + 1)
    ensures Walk(b[At(begin, direction, n) := r], begin, direction, n + 1) == Walk(b, begin, direction, n) + [r]
  {
    WalkFrame(b, b[At(begin, direction, n) := r], begin, direction, n);
  }

  /** A press at the end of a walk is trimmed. */
  lemma TrimLast(b: seq<Record>, begin: int, direction: int, n: nat)
    requires n > 0 && Inside(|b|, begin, direction, n) && b[At(begin, direction, n - 1)].pressed
    ensures Trim(Walk(b, begin, direction, n)) == Trim(Walk(b, begin, direction, n - 1))
  {
    assert Walk(b, begin, direction, n)[..n - 1] == Walk(b, begin, direction, n - 1);
  }

  lemma TrimDone(b: seq<Record>, begin: int, direction: int, n: nat)
    requires Inside(|b|, begin, direction, n)
    requires n > 0 ==> !b[At(begin, direction, n - 1)].pressed
    ensures Trim(Walk(b, begin, direction, n)) == Walk(b, begin, direction, n)
  {}

  lemma {:induction false} WalkFrame(b: seq<Record>, c: seq<Record>, begin: int, direction: int, n: nat)
    requires |b| == |c| && Inside(|b|, begin, direction, n)
    requires forall i :: 0 <= i < n ==> b[At(begin, direction, i)] == c[At(begin, direction, i)]
    ensures Walk(b, begin, direction, n) == Walk(c, begin, direction, n)
  {
    if n > 0 { WalkFrame(b, c, begin, direction, n - 1); }
  }

  class Recorder {
    const buffer: array<Record>
    var macroEnd: int
    var rMacroEnd: int
    var macroPointer: int
    var macroId: int

    ghost predicate Valid()
      reads this
    {
      && 0 < buffer.Length
      && 0 <= macroEnd <= rMacroEnd + 1 <= buffer.Length
      && macroId in {0, 1, 2}
      && (macroId == 1 ==> 0 <= macroPointer <= rMacroEnd + 1)
      && (macroId == 2 ==> macroEnd - 1 <= macroPointer < buffer.Length)
    }

    ghost function One(): seq<Record>
      requires Valid()
      reads this, buffer
    {
      Walk(buffer[..], 0, 1, macroEnd)
    }

    ghost function Two(): seq<Record>
      requires Valid()
      reads this, buffer
    {
      Walk(buffer[..], buffer.Length - 1, -1, buffer.Length - 1 - rMacroEnd)
    }

    ghost function Abstract(): State
      requires Valid()
      reads this, buffer
    {
      if macroId == 0 then Idle(One(), Two())
      else if macroId == 1 then Recording(Slot.One, Walk(buffer[..], 0, 1, macroPointer), Two())
      else Recording(Slot.Two, Walk(buffer[..], buffer.Length - 1, -1, buffer.Length - 1 - macroPointer), One())
    }

    constructor (buffer: array<Record>)
      requires buffer.Length > 0
      ensures Valid() && this.buffer == buffer && Abstract() == Idle([], [])
    {
      this.buffer, macroEnd, rMacroEnd, macroPointer, macroId := buffer, 0, buffer.Length - 1, 0, 0;
    }

    /** `dynamic_macro_play`: the records handed to `process_record`, in order. */
    method PlayMacro(begin: int, end: int, direction: int) returns (played: seq<Record>)
      requires direction == 1 || direction == -1
      requires Inside(buffer.Length, begin, direction, Count(begin, end, direction))
      ensures played == Walk(buffer[..], begin, direction, Count(begin, end, direction))
    {
      hide Walk;
      var p := begin;
      played := [];
      WalkEmpty(buffer[..], begin, direction, 0);
      while p != end
        invariant 0 <= Count(begin, p, direction) <= Count(begin, end, direction)
        invariant Inside(buffer.Length, begin, direction, Count(begin, p, direction))
        invariant played == Walk(buffer[..], begin, direction, Count(begin, p, direction))
        decreases Count(p, end, direction)
      {
        WalkNext(buffer[..], begin, direction, Count(begin, p, direction));
        played := played + [buffer[p]];
        p := p + direction;
      }
    }

    /** `dynamic_macro_record_key` */
    method RecordKey(begin: int, otherEnd: int, direction: int, record: Record)
      requires direction == 1 || direction == -1
      requires Inside(buffer.Length, begin, direction, Count(begin, macroPointer, direction))
      requires Inside(buffer.Length, begin, direction, Count(begin, otherEnd, direction) + 1)
      requires Count(begin, macroPointer, direction) <= Count(begin, otherEnd, direction) + 1
      modifies `macroPointer, buffer
      ensures 0 <= Count(begin, macroPointer, direction) <= Count(begin, otherEnd, direction) + 1
      ensures Walk(buffer[..], begin, direction, Count(begin, macroPointer, direction)) ==
              Take(Count(begin, otherEnd, direction) + 1,
                   old(Walk(buffer[..], begin, direction, Count(begin, macroPointer, direction))), record)
      ensures forall k :: 0 <= k < buffer.Length && Count(otherEnd, k, direction) > 0 ==> buffer[k] == old(buffer[k])
    {
      hide Walk;
      WalkEmpty(buffer[..], begin, direction, Count(begin, macroPointer, direction));
      if !record.pressed && macroPointer == begin { return; }
      if macroPointer - direction != otherEnd {
        WalkAppend(buffer[..], begin, direction, Count(begin, macroPointer, direction), record);
        ghost var now := buffer[..][macroPointer := record];
        buffer[macroPointer] := record;
        assert buffer[..] == now;
        macroPointer := macroPointer + direction;
      }
    }

    /** `dynamic_macro_record_end` */
    method RecordEnd(begin: int, direction: int) returns (end: int)
      requires direction == 1 || direction == -1
      requires Inside(buffer.Length, begin, direction, Count(begin, macroPointer, direction))
      ensures 0 <= Count(begin, end, direction) <= Count(begin, macroPointer, direction)
      ensures Inside(buffer.Length, begin, direction, Count(begin, end, direction))
      ensures Walk(buffer[..], begin, direction, Count(begin, end, direction)) ==
              Trim(Walk(buffer[..], begin, direction, Count(begin, macroPointer, direction)))
    {
      hide Walk, Trim;
      end := macroPointer;
      while end != begin && buffer[end - direction].pressed
        invariant 0 <= Count(begin, end, direction) <= Count(begin, macroPointer, direction)
        invariant Inside(buffer.Length, begin, direction, Count(begin, end, direction))
        invariant Trim(Walk(buffer[..], begin, direction, Count(begin, end, direction))) ==
                  Trim(Walk(buffer[..], begin, direction, Count(begin, macroPointer, direction)))
        decreases Count(begin, end, direction)
      {
        TrimLast(buffer[..], begin, direction, Count(begin, end, direction));
        end := end - direction;
      }
      TrimDone(buffer[..], begin, direction, Count(begin, end, direction));
    }

    /** `process_record_dynamic_macro` */
    method ProcessRecord(keycode: Keycode, record: Record) returns (played: seq<Record>, pass: bool)
      requires Valid()
      modifies this, buffer
      ensures Valid()
      ensures (Abstract(), played, pass) == Step(buffer.Length, old(Abstract()), Input(keycode, record))
    {
      hide Step;
      if macroId == 0 {
        played, pass := ProcessIdle(keycode, record);
      } else {
        played := [];
        pass := ProcessRecording(keycode, record);
      }
    }

    /** No macro recording in progress. */
    method ProcessIdle(keycode: Keycode, record: Record) returns (played: seq<Record>, pass: bool)
      requires Valid() && macroId == 0
      modifies `macroPointer, `macroId
      ensures Valid()
      ensures (Abstract(), played, pass) == Step(buffer.Length, old(Abstract()), Input(keycode, record))
    {
      hide Trim;
      played, pass := [], true;
      if !record.pressed {
        match keycode
        case RecordStart(slot) =>
          if slot == Slot.One { macroPointer, macroId := 0, 1; } else { macroPointer, macroId := buffer.Length - 1, 2; }
          pass := false;
        case Play(slot) =>
          if slot == Slot.One {
            played := PlayMacro(0, macroEnd, 1);
          } else {
            played := PlayMacro(buffer.Length - 1, rMacroEnd, -1);
          }
          pass := false;
        case RecordStop =>
        case Plain(code) =>
      }
    }

    /** A macro is being recorded. */
    method ProcessRecording(keycode: Keycode, record: Record) returns (pass: bool)
      requires Valid() && macroId != 0
      modifies this, buffer
      ensures Valid()
      ensures (Abstract(), [], pass) == Step(buffer.Length, old(Abstract()), Input(keycode, record))
    {
      hide Walk, Trim;
      pass := false;
      if keycode.RecordStop? {
        if record.pressed {
          if macroId == 1 {
            macroEnd := RecordEnd(0, 1);
          } else {
            rMacroEnd := RecordEnd(buffer.Length - 1, -1);
          }
          macroId := 0;
        }
      } else if !keycode.Play? {
        StoreKey(record);
        pass := true;
      }
    }

    /** The default branch: store the key in the macro buffer. */
    method StoreKey(record: Record)
      requires Valid() && macroId != 0
      modifies `macroPointer, buffer
      ensures Valid()
      ensures var s := old(Abstract());
              Abstract() == s.(taken := Take(buffer.Length - |s.other|, s.taken, record))
    {
      hide Walk, Take;
      ghost var was := buffer[..];
      if macroId == 1 {
        WalkEmpty(was, buffer.Length - 1, -1, buffer.Length - 1 - rMacroEnd);
        RecordKey(0, rMacroEnd, 1, record);
        WalkFrame(was, buffer[..], buffer.Length - 1, -1, buffer.Length - 1 - rMacroEnd);
      } else {
        WalkEmpty(was, 0, 1, macroEnd);
        RecordKey(buffer.Length - 1, macroEnd, -1, record);
        WalkFrame(was, buffer[..], 0, 1, macroEnd);
      }
    }
  }
}
