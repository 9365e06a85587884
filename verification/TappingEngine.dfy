/** `quantum/action_tapping.c` in its own form: static variables, an eight-slot ring that is never
    quite full, and a record pointer that may point into the ring. Every method is tied to the
    functions of `TappingModel`. */
module TappingEngine {
  import opened TappingModel

  /** The slot `i` places after `tail`. */
  function Slot(tail: nat, i: nat): (k: nat)
    requires tail < BUFFER_SIZE && i < BUFFER_SIZE
    ensures k < BUFFER_SIZE && k == (tail + i) % BUFFER_SIZE
  {
    if tail + i < BUFFER_SIZE then tail + i else tail + i - BUFFER_SIZE
  }

  /** The records in the ring from `tail`, `n` of them. */
  function RingSeq(ring: seq<Record>, tail: nat, n: nat): (w: seq<Record>)
    requires |ring| == BUFFER_SIZE && tail < BUFFER_SIZE && n <= BUFFER_SIZE
  {
    seq(n, i requires 0 <= i < n => ring[Slot(tail, i)])
  }

  function RingSize(head: nat, tail: nat): (n: nat)
    requires head < BUFFER_SIZE && tail < BUFFER_SIZE
    ensures n < BUFFER_SIZE && Slot(tail, n) == head
    ensures n == 0 <==> head == tail
  {
    if head >= tail then head - tail else head + BUFFER_SIZE - tail
  }

  lemma RingUpdate(ring: seq<Record>, tail: nat, n: nat, i: nat, r: Record)
    requires |ring| == BUFFER_SIZE && tail < BUFFER_SIZE && i < n <= BUFFER_SIZE
    ensures RingSeq(ring[Slot(tail, i) := r], tail, n) == RingSeq(ring, tail, n)[i := r]
  {}

  lemma RingAppend(ring: seq<Record>, head: nat, tail: nat, r: Record)
    requires |ring| == BUFFER_SIZE && tail < BUFFER_SIZE && head < BUFFER_SIZE
    requires Slot(head, 1) != tail
    ensures RingSize(Slot(head, 1), tail) == RingSize(head, tail) + 1
    ensures RingSeq(ring[head := r], tail, RingSize(head, tail) + 1) == RingSeq(ring, tail, RingSize(head, tail)) + [r]
  {}

  lemma RingPop(ring: seq<Record>, head: nat, tail: nat)
    requires |ring| == BUFFER_SIZE && tail < BUFFER_SIZE && head < BUFFER_SIZE && head != tail
    ensures RingSize(head, Slot(tail, 1)) == RingSize(head, tail) - 1
    ensures RingSeq(ring, Slot(tail, 1), RingSize(head, tail) - 1) == RingSeq(ring, tail, RingSize(head, tail))[1..]
  {}

  lemma TypedFront(r: Record, rest: seq<Record>)
    ensures Typed([r] + rest, r.event) == Typed(rest, r.event)
  {
    forall i | 0 <= i < |rest| && rest[i].event.key == r.event.key && rest[i].event.pressed != r.event.pressed
      ensures Typed([r] + rest, r.event)
    {
      assert ([r] + rest)[i + 1] == rest[i];
    }
  }

  /** A press at the front of the buffer is no candidate for its own release. */
  lemma ScanFront(cfg: Config, r: Record, rest: seq<Record>)
    requires r.event.pressed
    ensures var s, f := Scan(cfg, r, rest), Scan(cfg, r, [r] + rest);
            f.tapping == s.tapping && f.waiting == [r] + s.waiting && f.out == s.out
  {
    assert ([r] + rest)[1..] == rest;
  }

  class Engine {
    const cfg: Config
    const answers: Answers
    const ring: array<Record>
    var tapping: Record
    var head: nat
    var tail: nat
    /** Everything handed to `process_record`. */
    var out: seq<Emission>
    /** Number of calls of `process_tapping`. */
    var calls: nat
    ghost var lost: seq<Event>

    predicate Valid()
      reads this
    {
      ring.Length == BUFFER_SIZE && head < BUFFER_SIZE && tail < BUFFER_SIZE
    }

    function Waiting(): (w: seq<Record>)
      requires Valid()
      reads this, ring
    {
      RingSeq(ring[..], tail, RingSize(head, tail))
    }

    ghost function View(): (s: State)
      requires Valid()
      reads this, ring
    {
      State(tapping, Waiting(), out, lost, calls)
    }

    constructor (cfg: Config, answers: Answers)
      ensures Valid() && fresh(ring) && View() == INITIAL
      ensures this.cfg == cfg && this.answers == answers
    {
      this.cfg, this.answers := cfg, answers;
      ring := new Record[BUFFER_SIZE](_ => NO_RECORD);
      tapping, head, tail, out, calls, lost := NO_RECORD, 0, 0, [], 0, [];
    }

    method WaitingBufferTyped(event: Event) returns (typed: bool)
      requires Valid()
      ensures typed == Typed(Waiting(), event)
    {
      var i := tail;
      ghost var n := 0;
      while i != head
        invariant n <= RingSize(head, tail) && i == Slot(tail, n)
        invariant forall j :: 0 <= j < n ==>
                  !(Waiting()[j].event.key == event.key && Waiting()[j].event.pressed != event.pressed)
        decreases RingSize(head, tail) - n
      {
        assert ring[i] == Waiting()[n];
        if event.key == ring[i].event.key && event.pressed != ring[i].event.pressed { return true; }
        i := (i + 1) % BUFFER_SIZE;
        n := n + 1;
      }
      return false;
    }

    method WaitingBufferEnq(record: Record) returns (ok: bool)
      requires Valid()
      modifies `head, ring
      ensures Valid()
      ensures ok == (!IsEvent(record.event) || old(|Waiting()|) + 1 < BUFFER_SIZE)
      ensures Waiting() == if ok && IsEvent(record.event) then old(Waiting()) + [record] else old(Waiting())
    {
      if !IsEvent(record.event) { return true; }
      if (head + 1) % BUFFER_SIZE == tail { return false; }
      RingAppend(ring[..], head, tail, record);
      ring[head] := record;
      head := (head + 1) % BUFFER_SIZE;
      return true;
    }

    method WaitingBufferClear()
      requires Valid()
      modifies `head, `tail
      ensures Valid() && Waiting() == []
    {
      head, tail := 0, 0;
    }

    method WaitingBufferScanTap()
      requires Valid()
      modifies this`tapping, this`out, ring
      ensures Valid()
      ensures var s := Scan(cfg, old(tapping), old(Waiting()));
              tapping == s.tapping && Waiting() == s.waiting && out == old(out) + s.out
    {
      if tapping.tap.count > 0 || !tapping.event.pressed { return; }
      ghost var w := Waiting();
      var i := tail;
      ghost var n := 0;
      while i != head
        invariant n <= |w| && i == Slot(tail, n)
        invariant tapping == old(tapping) && out == old(out) && Waiting() == w
        invariant forall j :: 0 <= j < n ==> !TapCandidate(cfg, tapping, w[j])
        decreases |w| - n
      {
        assert ring[i] == w[n];
        if IsEvent(ring[i].event) && ring[i].event.key == tapping.event.key && !ring[i].event.pressed
           && WithinTerm(cfg, tapping, ring[i].event)
        {
          assert FirstCandidate(cfg, tapping, w) == n;
          tapping := WithCount(tapping, 1);
          RingUpdate(ring[..], tail, |w|, n, WithCount(ring[i], 1));
          ring[i] := WithCount(ring[i], 1);
          out := out + [Real(tapping)];
          assert Waiting() == w[n := WithCount(w[n], 1)];
          return;
        }
        i := (i + 1) % BUFFER_SIZE;
        n := n + 1;
      }
    }

    /** The buffered records other than the one pointed to. */
    function Rest(mem: array<Record>): (rest: seq<Record>)
      requires Valid() && (mem == ring ==> head != tail)
      reads this, ring
    {
      if mem == ring then Waiting()[1..] else Waiting()
    }

    /** Stamps the record pointed to. */
    method SetTap(mem: array<Record>, at: nat, tap: Tap)
      requires Valid() && at < mem.Length && (mem == ring ==> at == tail && head != tail)
      modifies mem
      ensures Valid() && mem[at] == old(mem[at]).(tap := tap) && Rest(mem) == old(Rest(mem))
      ensures mem == ring ==> Waiting() == [mem[at]] + Rest(mem)
    {
      if mem == ring {
        RingUpdate(ring[..], tail, RingSize(head, tail), 0, mem[at].(tap := tap));
      }
      mem[at] := mem[at].(tap := tap);
    }

    /** Makes the record pointed to the tapping key. */
    method StartTapping(mem: array<Record>, at: nat)
      requires Valid() && at < mem.Length && (mem == ring ==> at == tail && head != tail)
      requires mem[at].event.pressed
      modifies this`tapping, this`out, ring
      ensures Valid()
      ensures var s := Scan(cfg, old(mem[at]), old(Rest(mem)));
              tapping == s.tapping && Rest(mem) == s.waiting && out == old(out) + s.out && mem[at] == old(mem[at])
    {
      tapping := mem[at];
      if mem == ring {
        assert Waiting() == [mem[at]] + Rest(mem);
        ScanFront(cfg, mem[at], Rest(mem));
      }
      WaitingBufferScanTap();
      if mem == ring { assert Waiting()[0] == mem[at]; }
    }

    /** `process_tapping`; the pointer is an array and an index, so that it can point at the front of
        the ring as well as at a record of its own. */
    method ProcessTapping(mem: array<Record>, at: nat) returns (consumed: bool)
      requires Valid() && at < mem.Length && (mem == ring ==> at == tail && head != tail)
      modifies this`tapping, this`out, this`calls, ring, mem
      ensures Valid()
      ensures var o := TappingModel.ProcessTapping(cfg, old(tapping), old(Rest(mem)), old(mem[at]),
              answers(old(calls)));
              && consumed == o.consumed && tapping == o.tapping && mem[at] == o.record
              && Rest(mem) == o.rest && out == old(out) + o.out
      ensures calls == old(calls) + 1
    {
      var event := mem[at].event;
      var answer := answers(calls);
      calls := calls + 1;
      if !IsEvent(tapping.event) {
        if !IsEvent(event) {
        } else if event.pressed && answer.isTap {
          StartTapping(mem, at);
        } else {
          out := out + [Real(mem[at])];
        }
        return true;
      }
      if tapping.event.pressed {
        if tapping.tap.count == 0 {
          consumed := ProcessUndecided(mem, at, answer);
        } else {
          consumed := ProcessTap(mem, at, answer);
        }
      } else {
        consumed := ProcessReleased(mem, at, answer);
      }
    }

    /** `waiting_buffer_typed` for the record pointed to, which never matches itself. */
    method OthersTyped(mem: array<Record>, at: nat) returns (typed: bool)
      requires Valid() && at < mem.Length && (mem == ring ==> at == tail && head != tail)
      ensures typed == Typed(Rest(mem), mem[at].event)
    {
      if mem == ring {
        assert Waiting() == [mem[at]] + Rest(mem);
        TypedFront(mem[at], Rest(mem));
      }
      typed := WaitingBufferTyped(mem[at].event);
    }

    /** The tapping key is pressed and its tap count is 0. */
    method ProcessUndecided(mem: array<Record>, at: nat, answer: Answer) returns (consumed: bool)
      requires Valid() && at < mem.Length && (mem == ring ==> at == tail && head != tail)
      requires Undecided(tapping)
      modifies this`tapping, this`out, ring, mem
      ensures Valid()
      ensures var o := TappingModel.ProcessTapping(cfg, old(tapping), old(Rest(mem)), old(mem[at]), answer);
              && consumed == o.consumed && tapping == o.tapping && mem[at] == o.record
              && Rest(mem) == o.rest && out == old(out) + o.out
    {
      var event := mem[at].event;
      if !WithinTerm(cfg, tapping, event) {
        out := out + [Real(tapping)];
        tapping := NO_RECORD;
        return false;
      }
      if !IsEvent(event) { return true; }
      if tapping.event.key == event.key && !event.pressed {
        tapping := WithCount(tapping, 1);
        out := out + [Real(tapping)];
        SetTap(mem, at, tapping.tap);
        return false;
      }
      consumed := ProcessWhileUndecided(mem, at, answer);
    }

    /** Another key's event, or a press, within the term of an undecided tapping key. */
    method ProcessWhileUndecided(mem: array<Record>, at: nat, answer: Answer) returns (consumed: bool)
      requires Valid() && at < mem.Length && (mem == ring ==> at == tail && head != tail)
      requires Undecided(tapping) && WithinTerm(cfg, tapping, mem[at].event) && IsEvent(mem[at].event)
      requires tapping.event.key == mem[at].event.key ==> mem[at].event.pressed
      modifies this`tapping, this`out
      ensures Valid()
      ensures var o := TappingModel.ProcessTapping(cfg, old(tapping), Rest(mem), mem[at], answer);
              && consumed == o.consumed && tapping == o.tapping && mem[at] == o.record
              && Rest(mem) == o.rest && out == old(out) + o.out
    {
      var event := mem[at].event;
      var typed := OthersTyped(mem, at);
      if !event.pressed && typed && answer.permissive {
        out := out + [Real(tapping)];
        tapping := NO_RECORD;
        return false;
      } else if !event.pressed && !typed {
        if answer.retain { return false; }
        out := out + [Real(mem[at])];
        return true;
      } else {
        if event.pressed {
          tapping := Interrupt(tapping);
          if answer.holdOnOther {
            out := out + [Real(tapping)];
            tapping := NO_RECORD;
          }
        }
        return false;
      }
    }

    /** The tapping key is pressed and its tap count is positive. */
    method ProcessTap(mem: array<Record>, at: nat, answer: Answer) returns (consumed: bool)
      requires Valid() && at < mem.Length && (mem == ring ==> at == tail && head != tail)
      requires IsEvent(tapping.event) && tapping.event.pressed && tapping.tap.count > 0
      modifies this`tapping, this`out, ring, mem
      ensures Valid()
      ensures var o := TappingModel.ProcessTapping(cfg, old(tapping), old(Rest(mem)), old(mem[at]), answer);
              && consumed == o.consumed && tapping == o.tapping && mem[at] == o.record
              && Rest(mem) == o.rest && out == old(out) + o.out
    {
      var event := mem[at].event;
      if !IsEvent(event) { return true; }
      if tapping.event.key == event.key && !event.pressed {
        var within := WithinTerm(cfg, tapping, event);
        SetTap(mem, at, tapping.tap);
        out := out + [Real(mem[at])];
        tapping := if within then mem[at] else NO_RECORD;
      } else if answer.isTap && event.pressed {
        if tapping.tap.count > 1 {
          out := out + [Synthetic(Record(tapping.event.(time := event.time, pressed := false), tapping.tap))];
        }
        StartTapping(mem, at);
      } else {
        out := out + [Real(mem[at])];
      }
      return true;
    }

    /** The tapping key is released. */
    method ProcessReleased(mem: array<Record>, at: nat, answer: Answer) returns (consumed: bool)
      requires Valid() && at < mem.Length && (mem == ring ==> at == tail && head != tail)
      requires IsEvent(tapping.event) && !tapping.event.pressed
      modifies this`tapping, this`out, ring, mem
      ensures Valid()
      ensures var o := TappingModel.ProcessTapping(cfg, old(tapping), old(Rest(mem)), old(mem[at]), answer);
              && consumed == o.consumed && tapping == o.tapping && mem[at] == o.record
              && Rest(mem) == o.rest && out == old(out) + o.out
    {
      var event := mem[at].event;
      if !WithinTerm(cfg, tapping, event) {
        tapping := NO_RECORD;
        return false;
      }
      if !IsEvent(event) { return true; }
      if event.pressed {
        if tapping.event.key == event.key {
          if WithinQuickTerm(cfg, tapping, event) && !tapping.tap.interrupted && tapping.tap.count > 0 {
            SetTap(mem, at, tapping.tap.(count := NextCount(tapping.tap.count)));
            out := out + [Real(mem[at])];
          }
          tapping := mem[at];
        } else if answer.isTap {
          StartTapping(mem, at);
        } else {
          tapping := Interrupt(tapping);
          out := out + [Real(mem[at])];
        }
      } else {
        out := out + [Real(mem[at])];
      }
      return true;
    }

    /** `action_tapping_process` */
    method ActionTappingProcess(event: Event)
      requires Valid()
      modifies this, ring
      ensures Valid() && View() == Process(cfg, answers, old(View()), event)
    {
      Receive(event);
      ghost var target := Drain(cfg, answers, View());
      var more := true;
      while more && tail != head
        invariant Valid() && (if more then Drain(cfg, answers, View()) else View()) == target
        decreases more, RingSize(head, tail)
      {
        more := DrainOnce();
      }
    }

    /** One iteration of the drain. */
    method DrainOnce() returns (more: bool)
      requires Valid() && tail != head
      modifies this, ring
      ensures Valid()
      ensures var o := FrontOutcome(cfg, answers, old(View()));
              more == o.consumed && View() == PutBack(old(View()), o)
      ensures more ==> RingSize(head, tail) < old(RingSize(head, tail))
    {
      ghost var o := FrontOutcome(cfg, answers, View());
      more := ProcessFront();
      if more {
        Advance();
        assert Waiting() == o.rest;
      }
    }

    /** `process_tapping` on the front of the ring. */
    method ProcessFront() returns (consumed: bool)
      requires Valid() && tail != head
      modifies this`tapping, this`out, this`calls, ring
      ensures Valid()
      ensures var o := FrontOutcome(cfg, answers, old(View()));
              && consumed == o.consumed && tapping == o.tapping && out == old(out) + o.out
              && Waiting() == [o.record] + o.rest
      ensures calls == old(calls) + 1
    {
      assert ring[tail] == Waiting()[0] && Rest(ring) == Waiting()[1..];
      consumed := ProcessTapping(ring, tail);
      assert Waiting() == [ring[tail]] + Rest(ring);
    }

    /** The front record leaves the ring. */
    method Advance()
      requires Valid() && tail != head
      modifies this`tail
      ensures Valid() && Waiting() == old(Waiting())[1..] && RingSize(head, tail) < old(RingSize(head, tail))
    {
      RingPop(ring[..], head, tail);
      tail := (tail + 1) % BUFFER_SIZE;
    }

    /** The part of `action_tapping_process` before the drain. */
    method Receive(event: Event)
      requires Valid()
      modifies this, ring
      ensures Valid() && View() == Deliver(cfg, answers, old(View()), event)
    {
      var record := new Record[1](_ => Record(event, NO_TAP));
      var consumed := ProcessTapping(record, 0);
      if !consumed {
        var ok := WaitingBufferEnq(record[0]);
        if !ok {
          lost := lost + Owed(tapping) + Events(Waiting()) + [event];
          WaitingBufferClear();
          tapping := NO_RECORD;
        }
      }
    }
  }
}
