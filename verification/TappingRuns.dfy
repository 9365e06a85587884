/** Facts about every run of the tap/hold state machine, for any events, any times and any
    answers: nothing is lost or duplicated, the reachable states are well formed, and ticks drain it. */
module TappingRuns {
  import opened TappingModel

  // ---------------------------------------------------------------- well-formed states

  /** A buffered record: an event; a press is untouched, a release may carry a tap count of 1. */
  predicate Buffered(r: Record) {
    && IsEvent(r.event)
    && (r.event.pressed ==> r.tap == NO_TAP)
    && r.tap.count <= 1
  }

  predicate AllBuffered(rs: seq<Record>) {
    forall i :: 0 <= i < |rs| ==> Buffered(rs[i])
  }

  /** The buffer holds a release of the key that is already stamped as a tap. */
  predicate HasStamped(rs: seq<Record>, key: Key) {
    exists i :: 0 <= i < |rs| && rs[i].event.key == key && !rs[i].event.pressed && rs[i].tap.count == 1
  }

  /** The tapping key is absent, undecided, a tap awaiting its release, or a released tap. */
  predicate TappingOk(t: Record, waiting: seq<Record>) {
    && t.tap.count <= MAX_COUNT
    && (!IsEvent(t.event) ==> t == NO_RECORD)
    && (IsEvent(t.event) && !t.event.pressed ==> t.tap.count >= 1)
    && (IsEvent(t.event) && t.event.pressed && t.tap.count == 1 ==> HasStamped(waiting, t.event.key))
  }

  predicate Emitted(m: Emission) {
    && IsEvent(m.record.event)
    && m.record.tap.count <= MAX_COUNT
    && (m.Synthetic? ==> !m.record.event.pressed && m.record.tap.count > 1)
  }

  predicate AllEmitted(out: seq<Emission>) {
    forall i :: 0 <= i < |out| ==> Emitted(out[i])
  }

  predicate WellFormed(s: State) {
    && |s.waiting| < BUFFER_SIZE
    && AllBuffered(s.waiting)
    && TappingOk(s.tapping, s.waiting)
    && AllEmitted(s.out)
    && forall i :: 0 <= i < |s.lost| ==> IsEvent(s.lost[i])
  }

  lemma ScanWellFormed(cfg: Config, r: Record, rest: seq<Record>)
    requires AllBuffered(rest) && Buffered(r) && r.event.pressed
    ensures var s := Scan(cfg, r, rest);
            AllBuffered(s.waiting) && TappingOk(s.tapping, s.waiting) && AllEmitted(s.out)
  {
    var i := FirstCandidate(cfg, r, rest);
    if i < |rest| {
      var s := Scan(cfg, r, rest);
      assert s.waiting[i] == WithCount(rest[i], 1);
      assert HasStamped(s.waiting, r.event.key);
    }
  }

  /** What the branches guarantee about the tapping key and the record. */
  predicate Guard(m: Move, t: Record, r: Record) {
    match m
    case Ignore => !IsEvent(r.event)
    case Pass =>
      && IsEvent(r.event)
      && (IsEvent(t.event) && t.event.pressed && t.event.key == r.event.key ==> r.event.pressed && t.tap.count > 0)
    case PassInterrupt => IsEvent(r.event) && r.event.pressed && IsEvent(t.event) && !t.event.pressed
    case Start => IsEvent(r.event) && r.event.pressed && !Undecided(t) &&
      (IsEvent(t.event) && t.event.pressed ==> t.tap.count == 1)
    case StartReleasing => IsEvent(r.event) && r.event.pressed && IsEvent(t.event) && t.event.pressed && t.tap.count > 1
    case Restart => IsEvent(r.event) && r.event.pressed && IsEvent(t.event) && !t.event.pressed &&
      t.event.key == r.event.key
    case SequentialTap =>
      IsEvent(r.event) && r.event.pressed && IsEvent(t.event) && !t.event.pressed && t.event.key == r.event.key &&
        t.tap.count > 0
    case FirstTap => IsEvent(r.event) && !r.event.pressed && Undecided(t) && t.event.key == r.event.key
    case Settle => Undecided(t)
    case SettleInterrupt => Undecided(t) && IsEvent(r.event) && r.event.pressed
    case Wait => Undecided(t) && IsEvent(r.event) && !r.event.pressed && t.event.key != r.event.key
    case WaitInterrupt => Undecided(t) && IsEvent(r.event) && r.event.pressed
    case TapRelease =>
      IsEvent(r.event) && !r.event.pressed && IsEvent(t.event) && t.event.pressed && t.tap.count > 0 &&
        t.event.key == r.event.key
    case LastRelease =>
      IsEvent(r.event) && !r.event.pressed && IsEvent(t.event) && t.event.pressed && t.tap.count > 0 &&
        t.event.key == r.event.key
    case Expire => IsEvent(t.event) && !t.event.pressed
  }

  lemma ChooseGuard(cfg: Config, t: Record, rest: seq<Record>, r: Record, a: Answer)
    ensures Guard(Choose(cfg, t, rest, r.event, a), t, r)
  {}

  /** One call of `process_tapping` keeps states well formed, whichever way the record then goes. */
  lemma ApplyWellFormed(cfg: Config, m: Move, t: Record, rest: seq<Record>, r: Record, all: seq<Record>)
    requires AllBuffered(rest) && TappingOk(t, all) && Guard(m, t, r)
    requires IsEvent(r.event) ==> Buffered(r)
    requires all == rest || (all == [r] + rest && IsEvent(r.event))
    ensures var o := Apply(cfg, m, t, rest, r);
            && AllBuffered(o.rest)
            && AllEmitted(o.out)
            && (o.consumed || !IsEvent(r.event) ==> TappingOk(o.tapping, o.rest))
            && (!o.consumed && IsEvent(r.event) ==>
              && Buffered(o.record)
              && TappingOk(o.tapping, o.rest + [o.record]) && TappingOk(o.tapping, [o.record] + o.rest))
  {
    var o := Apply(cfg, m, t, rest, r);
    match m {
      case Start => ScanWellFormed(cfg, r, rest);
      case StartReleasing => ScanWellFormed(cfg, r, rest);
      case FirstTap =>
        assert (o.rest + [o.record])[|o.rest|] == o.record;
        assert ([o.record] + o.rest)[0] == o.record;
      case Ignore => StampedInRest(t, rest, r, all);
      case Pass => StampedInRest(t, rest, r, all);
      case _ =>
    }
  }

  /** A stamped release of the tapping key is not the record in hand unless the latter is that release. */
  lemma StampedInRest(t: Record, rest: seq<Record>, r: Record, all: seq<Record>)
    requires all == rest || all == [r] + rest
    requires TappingOk(t, all)
    requires r.event.key != t.event.key || r.event.pressed || !IsEvent(t.event) || !t.event.pressed ||
             t.tap.count != 1 || all == rest
    ensures TappingOk(t, rest)
  {
    if IsEvent(t.event) && t.event.pressed && t.tap.count == 1 {
      var i :| 0 <= i < |all| && all[i].event.key == t.event.key && !all[i].event.pressed && all[i].tap.count == 1;
      if all != rest { assert rest[i - 1] == all[i]; }
    }
  }

  lemma DeliverWellFormed(cfg: Config, answers: Answers, s: State, e: Event)
    requires WellFormed(s)
    ensures WellFormed(Deliver(cfg, answers, s, e))
  {
    var r := Record(e, NO_TAP);
    ChooseGuard(cfg, s.tapping, s.waiting, r, answers(s.calls));
    ApplyWellFormed(cfg, Choose(cfg, s.tapping, s.waiting, e, answers(s.calls)), s.tapping, s.waiting, r, s.waiting);
  }

  lemma FrontWellFormed(cfg: Config, answers: Answers, s: State)
    requires WellFormed(s) && s.waiting != []
    ensures WellFormed(PutBack(s, FrontOutcome(cfg, answers, s)))
  {
    var front, rest := s.waiting[0], s.waiting[1..];
    assert s.waiting == [front] + rest;
    ChooseGuard(cfg, s.tapping, rest, front, answers(s.calls));
    ApplyWellFormed(cfg, Choose(cfg, s.tapping, rest, front.event, answers(s.calls)), s.tapping, rest, front,
      s.waiting);
  }

  lemma {:induction false} DrainWellFormed(cfg: Config, answers: Answers, s: State)
    requires WellFormed(s)
    ensures WellFormed(Drain(cfg, answers, s))
    decreases |s.waiting|
  {
    if s.waiting != [] {
      FrontWellFormed(cfg, answers, s);
      var o := FrontOutcome(cfg, answers, s);
      if o.consumed { DrainWellFormed(cfg, answers, PutBack(s, o)); }
    }
  }

  /** Every reachable state is well formed: at most seven records wait, buffered presses carry no
      count, a released tapping key has a count of at least 1, a pressed one with count 1 has a
      stamped release waiting, and no count exceeds 15. Ticks are never stored or processed. */
  lemma {:induction false} ReachableWellFormed(cfg: Config, answers: Answers, inputs: seq<Event>)
    ensures WellFormed(Run(cfg, answers, inputs))
  {
    if inputs != [] {
      var before := inputs[..|inputs| - 1];
      ReachableWellFormed(cfg, answers, before);
      var s := Run(cfg, answers, before);
      DeliverWellFormed(cfg, answers, s, inputs[|inputs| - 1]);
      DrainWellFormed(cfg, answers, Deliver(cfg, answers, s, inputs[|inputs| - 1]));
    }
  }

  // ---------------------------------------------------------------- exactly once

  function Count(es: seq<Event>, x: Event): nat {
    if es == [] then 0 else Count(es[..|es| - 1], x) + (if es[|es| - 1] == x then 1 else 0)
  }

  lemma {:induction false} CountAppend(a: seq<Event>, b: seq<Event>, x: Event)
    ensures Count(a + b, x) == Count(a, x) + Count(b, x)
    decreases |b|
  {
    if b == [] {
      assert a + b == a;
    } else {
      assert (a + b)[..|a + b| - 1] == a + b[..|b| - 1];
      CountAppend(a, b[..|b| - 1], x);
    }
  }

  lemma {:induction false} CountIsMultiplicity(es: seq<Event>, x: Event)
    ensures multiset(es)[x] == Count(es, x)
  {
    if es != [] {
      var most, last := es[..|es| - 1], es[|es| - 1];
      assert es == most + [last];
      CountIsMultiplicity(most, x);
    }
  }

  /** The received events among those processed. */
  function RealEvents(out: seq<Emission>): seq<Event> {
    if out == [] then []
    else RealEvents(out[..|out| - 1]) + (if out[|out| - 1].Real? then [out[|out| - 1].record.event] else [])
  }

  lemma {:induction false} RealEventsAppend(a: seq<Emission>, b: seq<Emission>)
    ensures RealEvents(a + b) == RealEvents(a) + RealEvents(b)
    decreases |b|
  {
    if b == [] {
      assert a + b == a;
    } else {
      var b' := b[..|b| - 1];
      assert (a + b)[..|a + b| - 1] == a + b';
      RealEventsAppend(a, b');
    }
  }

  function KeyEvents(inputs: seq<Event>): seq<Event> {
    if inputs == [] then []
    else KeyEvents(inputs[..|inputs| - 1]) + (if IsEvent(inputs[|inputs| - 1]) then [inputs[|inputs| - 1]] else [])
  }

  /** How often event `x` is processed, undecided, waiting, or dropped by an overflow. */
  function Total(s: State, x: Event): nat {
    Count(RealEvents(s.out), x) + Count(Owed(s.tapping), x) + Count(Events(s.waiting), x) + Count(s.lost, x)
  }

  lemma OneOut(m: Emission)
    ensures RealEvents([m]) == if m.Real? then [m.record.event] else []
  {
    assert [m][..0] == [];
  }

  lemma ScanBalance(cfg: Config, r: Record, rest: seq<Record>, x: Event)
    requires Buffered(r) && r.event.pressed
    ensures var s := Scan(cfg, r, rest);
            && Events(s.waiting) == Events(rest)
            && Count(RealEvents(s.out), x) + Count(Owed(s.tapping), x) == Count([r.event], x)
  {
    if FirstCandidate(cfg, r, rest) < |rest| {
      OneOut(Scan(cfg, r, rest).out[0]);
    }
  }

  /** One call of `process_tapping` moves events around but neither loses nor duplicates one. */
  predicate Balanced(t: Record, rest: seq<Record>, e: Event, o: Outcome, x: Event) {
    && Events(o.rest) == Events(rest)
    && o.record.event == e
    && Count(RealEvents(o.out), x) + Count(Owed(o.tapping), x) ==
       Count(Owed(t), x) + (if o.consumed && IsEvent(e) then Count([e], x) else 0)
  }

  lemma StartBalance(cfg: Config, m: Move, t: Record, rest: seq<Record>, r: Record, x: Event)
    requires Guard(m, t, r) && m in {Start, StartReleasing}
    requires Buffered(r)
    ensures Balanced(t, rest, r.event, Apply(cfg, m, t, rest, r), x)
  {
    var o := Apply(cfg, m, t, rest, r);
    ScanBalance(cfg, r, rest, x);
    if m.StartReleasing? {
      OneOut(o.out[0]);
      RealEventsAppend([o.out[0]], Scan(cfg, r, rest).out);
    }
  }

  lemma ApplyBalance(cfg: Config, m: Move, t: Record, rest: seq<Record>, r: Record, x: Event)
    requires Guard(m, t, r)
    requires IsEvent(r.event) ==> Buffered(r)
    ensures Balanced(t, rest, r.event, Apply(cfg, m, t, rest, r), x)
  {
    if m in {Start, StartReleasing} {
      StartBalance(cfg, m, t, rest, r, x);
    } else {
      var o := Apply(cfg, m, t, rest, r);
      assert o.rest == rest && |o.out| <= 1;
      if |o.out| == 1 {
        OneOut(o.out[0]);
        assert RealEvents(o.out) == [o.out[0].record.event];
      }
    }
  }

  lemma EventsAppend(a: seq<Record>, b: seq<Record>)
    ensures Events(a + b) == Events(a) + Events(b)
  {}

  lemma CountFour(a: seq<Event>, b: seq<Event>, c: seq<Event>, d: seq<Event>, x: Event)
    ensures Count(a + b + c + d, x) == Count(a, x) + Count(b, x) + Count(c, x) + Count(d, x)
  {
    CountAppend(a, b, x);
    CountAppend(a + b, c, x);
    CountAppend(a + b + c, d, x);
  }

  lemma LandBalance(s: State, e: Event, o: Outcome, x: Event)
    requires Balanced(s.tapping, s.waiting, e, o, x)
    ensures Total(Land(s, e, o), x) == Total(s, x) + (if IsEvent(e) then Count([e], x) else 0)
  {
    RealEventsAppend(s.out, o.out);
    CountAppend(RealEvents(s.out), RealEvents(o.out), x);
    if o.consumed || !IsEvent(e) {
    } else if |o.rest| + 1 >= BUFFER_SIZE {
      CountFour(s.lost, Owed(o.tapping), Events(o.rest), [e], x);
      assert Owed(NO_RECORD) == [] == Events([]);
    } else {
      EventsAppend(o.rest, [o.record]);
      assert Events([o.record]) == [e];
      CountAppend(Events(o.rest), [e], x);
    }
  }

  lemma PutBackBalance(s: State, o: Outcome, x: Event)
    requires s.waiting != [] && IsEvent(s.waiting[0].event)
    requires Balanced(s.tapping, s.waiting[1..], s.waiting[0].event, o, x)
    ensures Total(PutBack(s, o), x) == Total(s, x)
  {
    var e := s.waiting[0].event;
    RealEventsAppend(s.out, o.out);
    CountAppend(RealEvents(s.out), RealEvents(o.out), x);
    assert s.waiting == [s.waiting[0]] + s.waiting[1..];
    EventsAppend([s.waiting[0]], s.waiting[1..]);
    EventsAppend([o.record], o.rest);
    assert Events([o.record]) == Events([s.waiting[0]]) == [e];
    CountAppend([e], Events(o.rest), x);
  }

  lemma DeliverBalance(cfg: Config, answers: Answers, s: State, e: Event, x: Event)
    ensures Total(Deliver(cfg, answers, s, e), x) == Total(s, x) + (if IsEvent(e) then Count([e], x) else 0)
  {
    var r := Record(e, NO_TAP);
    ChooseGuard(cfg, s.tapping, s.waiting, r, answers(s.calls));
    ApplyBalance(cfg, Choose(cfg, s.tapping, s.waiting, e, answers(s.calls)), s.tapping, s.waiting, r, x);
    LandBalance(s, e, ProcessTapping(cfg, s.tapping, s.waiting, r, answers(s.calls)), x);
  }

  lemma FrontBalance(cfg: Config, answers: Answers, s: State, x: Event)
    requires WellFormed(s) && s.waiting != []
    ensures Total(PutBack(s, FrontOutcome(cfg, answers, s)), x) == Total(s, x)
  {
    var front, rest := s.waiting[0], s.waiting[1..];
    ChooseGuard(cfg, s.tapping, rest, front, answers(s.calls));
    ApplyBalance(cfg, Choose(cfg, s.tapping, rest, front.event, answers(s.calls)), s.tapping, rest, front, x);
    PutBackBalance(s, FrontOutcome(cfg, answers, s), x);
  }

  lemma {:induction false} DrainBalance(cfg: Config, answers: Answers, s: State, x: Event)
    requires WellFormed(s)
    ensures Total(Drain(cfg, answers, s), x) == Total(s, x)
    decreases |s.waiting|
  {
    if s.waiting != [] {
      FrontBalance(cfg, answers, s, x);
      FrontWellFormed(cfg, answers, s);
      var o := FrontOutcome(cfg, answers, s);
      if o.consumed { DrainBalance(cfg, answers, PutBack(s, o), x); }
    }
  }

  lemma ProcessBalance(cfg: Config, answers: Answers, s: State, e: Event, x: Event)
    requires WellFormed(s)
    ensures Total(Process(cfg, answers, s, e), x) == Total(s, x) + (if IsEvent(e) then Count([e], x) else 0)
  {
    DeliverBalance(cfg, answers, s, e, x);
    DeliverWellFormed(cfg, answers, s, e);
    DrainBalance(cfg, answers, Deliver(cfg, answers, s, e), x);
  }

  lemma KeyEventsLast(inputs: seq<Event>, x: Event)
    requires inputs != []
    ensures var e := inputs[|inputs| - 1];
            Count(KeyEvents(inputs), x) ==
            Count(KeyEvents(inputs[..|inputs| - 1]), x) + (if IsEvent(e) then Count([e], x) else 0)
  {
    var e := inputs[|inputs| - 1];
    CountAppend(KeyEvents(inputs[..|inputs| - 1]), if IsEvent(e) then [e] else [], x);
  }

  lemma {:induction false} RunBalance(cfg: Config, answers: Answers, inputs: seq<Event>, x: Event)
    ensures Total(Run(cfg, answers, inputs), x) == Count(KeyEvents(inputs), x)
  {
    if inputs == [] {
    } else {
      var before, e := inputs[..|inputs| - 1], inputs[|inputs| - 1];
      RunBalance(cfg, answers, before, x);
      ReachableWellFormed(cfg, answers, before);
      ProcessBalance(cfg, answers, Run(cfg, answers, before), e, x);
      KeyEventsLast(inputs, x);
    }
  }

  lemma MultisetByMultiplicity(a: multiset<Event>, b: multiset<Event>, c: multiset<Event>, d: multiset<Event>,
      e: multiset<Event>)
    requires forall x :: a[x] == b[x] + c[x] + d[x] + e[x]
    ensures a == b + c + d + e
  {}

  /** Exactly once: over every run, the key events received are those processed (synthetic
      releases aside), plus the undecided tapping key, plus those waiting, plus those dropped. */
  lemma ExactlyOnce(cfg: Config, answers: Answers, inputs: seq<Event>)
    ensures var s := Run(cfg, answers, inputs);
            multiset(KeyEvents(inputs)) ==
            multiset(RealEvents(s.out)) + multiset(Owed(s.tapping)) + multiset(Events(s.waiting)) + multiset(s.lost)
  {
    var s := Run(cfg, answers, inputs);
    var received, done, owed, waiting := KeyEvents(inputs), RealEvents(s.out), Owed(s.tapping), Events(s.waiting);
    forall x: Event
      ensures multiset(received)[x] ==
              multiset(done)[x] + multiset(owed)[x] + multiset(waiting)[x] + multiset(s.lost)[x]
    {
      RunBalance(cfg, answers, inputs, x);
      CountIsMultiplicity(received, x);
      CountIsMultiplicity(done, x);
      CountIsMultiplicity(owed, x);
      CountIsMultiplicity(waiting, x);
      CountIsMultiplicity(s.lost, x);
    }
    MultisetByMultiplicity(multiset(received), multiset(done), multiset(owed), multiset(waiting), multiset(s.lost));
  }

  // ---------------------------------------------------------------- ticks drain the machine

  /** Work left: two per waiting record, one for an undecided tapping key. */
  function Work(s: State): nat {
    2 * |s.waiting| + |Owed(s.tapping)|
  }

  lemma ApplyWork(cfg: Config, m: Move, t: Record, rest: seq<Record>, r: Record)
    requires Guard(m, t, r)
    ensures var o := Apply(cfg, m, t, rest, r);
            |Owed(o.tapping)| <= |Owed(t)| + (if o.consumed then 1 else 0)
  {}

  lemma FrontWork(cfg: Config, answers: Answers, s: State)
    requires WellFormed(s) && s.waiting != []
    ensures var o := FrontOutcome(cfg, answers, s);
            && Work(PutBack(s, o)) <= Work(s)
            && (o.consumed ==> Work(PutBack(s, o)) < Work(s))
  {
    var front, rest := s.waiting[0], s.waiting[1..];
    ChooseGuard(cfg, s.tapping, rest, front, answers(s.calls));
    ApplyWork(cfg, Choose(cfg, s.tapping, rest, front.event, answers(s.calls)), s.tapping, rest, front);
  }

  lemma {:induction false} DrainWork(cfg: Config, answers: Answers, s: State)
    requires WellFormed(s)
    ensures Work(Drain(cfg, answers, s)) <= Work(s)
    ensures s.waiting != [] && FrontOutcome(cfg, answers, s).consumed ==> Work(Drain(cfg, answers, s)) < Work(s)
    decreases |s.waiting|
  {
    if s.waiting != [] {
      FrontWork(cfg, answers, s);
      FrontWellFormed(cfg, answers, s);
      var o := FrontOutcome(cfg, answers, s);
      if o.consumed { DrainWork(cfg, answers, PutBack(s, o)); }
    }
  }

  /** The tick comes at least a tapping term after the event, and before the 16-bit clock wraps. */
  predicate LateFor(cfg: Config, e: Event, tick: Event) {
    IsEvent(e) ==> cfg.term(e.key) <= tick.time - e.time < 0x1_0000
  }

  predicate AllLate(cfg: Config, s: State, tick: Event) {
    && !IsEvent(tick)
    && LateFor(cfg, s.tapping.event, tick)
    && forall i :: 0 <= i < |s.waiting| ==> LateFor(cfg, s.waiting[i].event, tick)
  }

  lemma LateTick(cfg: Config, answers: Answers, s: State, tick: Event)
    requires WellFormed(s) && !IsEvent(tick) && LateFor(cfg, s.tapping.event, tick)
    ensures var s1 := Deliver(cfg, answers, s, tick);
            && s1.waiting == s.waiting
            && (Undecided(s.tapping) ==> s1.tapping == NO_RECORD)
            && (IsEvent(s1.tapping.event) ==>
              s1.tapping == s.tapping && s.tapping.event.pressed && s.tapping.tap.count > 0)
  {}

  /** A late tick strictly decreases the work left. */
  lemma TickWorks(cfg: Config, answers: Answers, s: State, tick: Event)
    requires WellFormed(s) && !IsEvent(tick) && LateFor(cfg, s.tapping.event, tick)
    ensures Work(s) > 0 ==> Work(Process(cfg, answers, s, tick)) < Work(s)
    ensures Work(s) == 0 ==> Work(Process(cfg, answers, s, tick)) == 0
  {
    LateTick(cfg, answers, s, tick);
    DeliverWellFormed(cfg, answers, s, tick);
    DrainWork(cfg, answers, Deliver(cfg, answers, s, tick));
  }

  lemma ApplyStored(cfg: Config, m: Move, t: Record, rest: seq<Record>, r: Record)
    ensures var o := Apply(cfg, m, t, rest, r);
            && o.tapping.event in {t.event, r.event, NO_RECORD.event}
            && o.record.event == r.event
            && forall i :: 0 <= i < |rest| ==> o.rest[i].event == rest[i].event
  {}

  /** What is stored after draining was stored before. */
  lemma {:induction false} DrainStaysLate(cfg: Config, answers: Answers, s: State, tick: Event)
    requires AllLate(cfg, s, tick)
    ensures AllLate(cfg, Drain(cfg, answers, s), tick)
    decreases |s.waiting|
  {
    if s.waiting != [] {
      var front, rest := s.waiting[0], s.waiting[1..];
      var o := FrontOutcome(cfg, answers, s);
      ApplyStored(cfg, Choose(cfg, s.tapping, rest, front.event, answers(s.calls)), s.tapping, rest, front);
      assert AllLate(cfg, PutBack(s, o), tick);
      if o.consumed { DrainStaysLate(cfg, answers, PutBack(s, o), tick); }
    }
  }

  lemma {:induction false} TicksWork(cfg: Config, answers: Answers, s: State, ticks: seq<Event>, later: Event)
    requires WellFormed(s) && AllLate(cfg, s, later)
    requires forall i :: 0 <= i < |ticks| ==> AllLate(cfg, s, ticks[i])
    ensures var s' := RunFrom(cfg, answers, s, ticks);
            WellFormed(s') && AllLate(cfg, s', later) && (Work(s') == 0 || Work(s') + |ticks| <= Work(s))
  {
    if ticks != [] {
      var before, tick := ticks[..|ticks| - 1], ticks[|ticks| - 1];
      TicksWork(cfg, answers, s, before, later);
      TicksWork(cfg, answers, s, before, tick);
      var m := RunFrom(cfg, answers, s, before);
      TickWorks(cfg, answers, m, tick);
      LateTick(cfg, answers, m, tick);
      DeliverWellFormed(cfg, answers, m, tick);
      DrainWellFormed(cfg, answers, Deliver(cfg, answers, m, tick));
      assert AllLate(cfg, Deliver(cfg, answers, m, tick), later);
      DrainStaysLate(cfg, answers, Deliver(cfg, answers, m, tick), later);
    }
  }

  /** Bounded drain: from every reachable state, fifteen ticks that come later than the tapping term
      after every stored event leave the buffer empty and nothing undecided. */
  lemma FifteenTicksDrain(cfg: Config, answers: Answers, inputs: seq<Event>, ticks: seq<Event>)
    requires |ticks| >= 15
    requires forall i :: 0 <= i < |ticks| ==> AllLate(cfg, Run(cfg, answers, inputs), ticks[i])
    ensures var s := RunFrom(cfg, answers, Run(cfg, answers, inputs), ticks);
            s.waiting == [] && !Undecided(s.tapping)
  {
    ReachableWellFormed(cfg, answers, inputs);
    TicksWork(cfg, answers, Run(cfg, answers, inputs), ticks, ticks[0]);
  }

  // ---------------------------------------------------------------- evidence for taps

  /** Some received release of the pressed key came within its tapping term. */
  predicate ReleasedInTerm(cfg: Config, p: Event, received: seq<Event>) {
    exists i :: 0 <= i < |received| && IsEvent(received[i]) && !received[i].pressed && received[i].key == p.key
                && Diff16(received[i].time, p.time) < cfg.term(p.key)
  }

  predicate TapsHaveEvidence(cfg: Config, out: seq<Emission>, received: seq<Event>) {
    forall i :: 0 <= i < |out| && out[i].Real? && out[i].record.event.pressed && out[i].record.tap.count == 1
                ==> ReleasedInTerm(cfg, out[i].record.event, received)
  }

  predicate AllReceived(rs: seq<Record>, received: seq<Event>) {
    forall i :: 0 <= i < |rs| ==> rs[i].event in received
  }

  lemma EvidenceIn(cfg: Config, t: Record, e: Event, received: seq<Event>)
    requires e in received && IsEvent(e) && !e.pressed && e.key == t.event.key && WithinTerm(cfg, t, e)
    ensures ReleasedInTerm(cfg, t.event, received)
  {
    var i :| 0 <= i < |received| && received[i] == e;
  }

  lemma ProcessEvidence(cfg: Config, t: Record, rest: seq<Record>, r: Record, a: Answer, received: seq<Event>)
    requires AllReceived(rest, received) && r.event in received
    requires IsEvent(r.event) ==> Buffered(r)
    ensures TapsHaveEvidence(cfg, ProcessTapping(cfg, t, rest, r, a).out, received)
    ensures AllReceived(ProcessTapping(cfg, t, rest, r, a).rest, received)
  {
    var m := Choose(cfg, t, rest, r.event, a);
    match m {
      case FirstTap => EvidenceIn(cfg, t, r.event, received);
      case Start => ScanEvidence(cfg, r, rest, received);
      case StartReleasing => ScanEvidence(cfg, r, rest, received);
      case _ =>
    }
  }

  lemma ScanEvidence(cfg: Config, r: Record, rest: seq<Record>, received: seq<Event>)
    requires AllReceived(rest, received)
    ensures TapsHaveEvidence(cfg, Scan(cfg, r, rest).out, received)
    ensures AllReceived(Scan(cfg, r, rest).waiting, received)
  {
    var i := FirstCandidate(cfg, r, rest);
    if i < |rest| { EvidenceIn(cfg, r, rest[i].event, received); }
  }

  lemma {:induction false} DrainEvidence(cfg: Config, answers: Answers, s: State, received: seq<Event>)
    requires WellFormed(s) && AllReceived(s.waiting, received) && TapsHaveEvidence(cfg, s.out, received)
    ensures var s' := Drain(cfg, answers, s);
            AllReceived(s'.waiting, received) && TapsHaveEvidence(cfg, s'.out, received)
    decreases |s.waiting|
  {
    if s.waiting != [] {
      var o := FrontOutcome(cfg, answers, s);
      FrontWellFormed(cfg, answers, s);
      ProcessEvidence(cfg, s.tapping, s.waiting[1..], s.waiting[0], answers(s.calls), received);
      ApplyStored(cfg, Choose(cfg, s.tapping, s.waiting[1..], s.waiting[0].event, answers(s.calls)), s.tapping,
        s.waiting[1..], s.waiting[0]);
      if o.consumed { DrainEvidence(cfg, answers, PutBack(s, o), received); }
    }
  }

  lemma DeliverEvidence(cfg: Config, answers: Answers, s: State, e: Event, received: seq<Event>)
    requires AllReceived(s.waiting, received) && TapsHaveEvidence(cfg, s.out, received) && e in received
    ensures var s' := Deliver(cfg, answers, s, e);
            AllReceived(s'.waiting, received) && TapsHaveEvidence(cfg, s'.out, received)
  {
    ProcessEvidence(cfg, s.tapping, s.waiting, Record(e, NO_TAP), answers(s.calls), received);
    ApplyStored(cfg, Choose(cfg, s.tapping, s.waiting, e, answers(s.calls)), s.tapping, s.waiting, Record(e, NO_TAP));
  }

  lemma EvidenceGrows(cfg: Config, p: Event, received: seq<Event>, e: Event)
    requires ReleasedInTerm(cfg, p, received)
    ensures ReleasedInTerm(cfg, p, received + [e])
  {
    var i :| 0 <= i < |received| && IsEvent(received[i]) && !received[i].pressed && received[i].key == p.key
             && Diff16(received[i].time, p.time) < cfg.term(p.key);
    assert (received + [e])[i] == received[i];
  }

  /** Over every run, with any events at any times, a press is processed as a first tap only if some release of its
      key was received within the tapping term, modulo 2^16. That it was its own release needs a clock that does
      not wrap, see `TappingEvidence.TapsByOwnRelease`. */
  lemma {:induction false} TapsAreJustified(cfg: Config, answers: Answers, inputs: seq<Event>)
    ensures AllReceived(Run(cfg, answers, inputs).waiting, inputs)
    ensures TapsHaveEvidence(cfg, Run(cfg, answers, inputs).out, inputs)
  {
    if inputs != [] {
      var before, e := inputs[..|inputs| - 1], inputs[|inputs| - 1];
      TapsAreJustified(cfg, answers, before);
      assert inputs == before + [e];
      var s := Run(cfg, answers, before);
      forall i | 0 <= i < |s.out| && s.out[i].Real? && s.out[i].record.event.pressed && s.out[i].record.tap.count == 1
        ensures ReleasedInTerm(cfg, s.out[i].record.event, inputs)
      {
        EvidenceGrows(cfg, s.out[i].record.event, before, e);
      }
      ReachableWellFormed(cfg, answers, before);
      DeliverEvidence(cfg, answers, s, e, inputs);
      DeliverWellFormed(cfg, answers, s, e);
      DrainEvidence(cfg, answers, Deliver(cfg, answers, s, e), inputs);
    }
  }
}
