/** What one delivered event decides, by the trace and the state alone: when the tapping key is a hold, when it is a
    tap, what is processed before the decision, when a tap is repeated, and who becomes the next tapping key. */
module TappingDecisions {
  import opened TappingModel
  import opened TappingRuns
  import opened TappingVerdict
  import opened TappingOutOfTurn

  /** What the delivery processed. */
  function Now(cfg: Config, answers: Answers, s: State, e: Event): (out: seq<Emission>)
    ensures Deliver(cfg, answers, s, e).out == s.out + out
  {
    Deliver(cfg, answers, s, e).out[|s.out|..]
  }

  /** The delivered event waits behind the others, or overflows the buffer together with them. */
  predicate Queues(s: State, s': State, e: Event, stamp: Tap) {
    if |s.waiting| + 1 < BUFFER_SIZE then s'.waiting == s.waiting + [Record(e, stamp)] && s'.lost == s.lost
    else s'.waiting == [] && s'.tapping == NO_RECORD && |s'.lost| > |s.lost| && s'.lost[|s'.lost| - 1] == e
  }

  /** The delivered event does not enter the buffer. */
  predicate LeavesBuffer(s: State, s': State) {
    s'.waiting == s.waiting && s'.lost == s.lost
  }

  predicate ProcessedAs(out: seq<Emission>, e: Event, count: nat) {
    exists x :: 0 <= x < |out| && out[x].Real? && out[x].record.event == e && out[x].record.tap.count == count
  }

  lemma OneProcessed(out: seq<Emission>, e: Event, count: nat)
    requires |out| <= 1
    ensures ProcessedAs(out, e, count) <==>
            out != [] && out[0].Real? && out[0].record.event == e && out[0].record.tap.count == count
  {}

  // ---------------------------------------------------------------- while the tapping key is undecided

  /** Less than the limit has passed on the 16-bit clock since the tapping key. */
  predicate Before(s: State, e: Event, limit: nat) {
    (e.time - s.tapping.event.time) % 0x1_0000 < limit
  }

  /** Unless the clock has wrapped round, that is so on the unbounded clock. */
  lemma BeforeOnTheClock(s: State, e: Event, limit: nat)
    requires s.tapping.event.time <= e.time < s.tapping.event.time + 0x1_0000
    ensures Before(s, e, limit) <==> e.time < s.tapping.event.time + limit
  {}

  /** The event or tick comes within the term of the tapping key. */
  predicate InTerm(cfg: Config, s: State, e: Event) {
    Before(s, e, cfg.term(s.tapping.event.key))
  }

  predicate PressWaits(s: State, k: Key) {
    exists i :: 0 <= i < |s.waiting| && s.waiting[i].event.key == k && s.waiting[i].event.pressed
  }

  /** A key's event within the term of the tapping key. */
  predicate During(cfg: Config, s: State, e: Event) {
    IsEvent(e) && InTerm(cfg, s, e)
  }

  /** The tapping key is decided to be a hold, processed with count 0 and forgotten, exactly by an event or a tick after
      its term, by a press for which hold-on-other-key-press is answered, or by the release of another key whose press
      waits and for which permissive hold is answered. */
  lemma HoldIff(cfg: Config, answers: Answers, s: State, e: Event)
    requires Undecided(s.tapping)
    ensures var a := answers(s.calls);
            ProcessedAs(Now(cfg, answers, s, e), s.tapping.event, 0) <==>
            || !InTerm(cfg, s, e)
            || (IsEvent(e) && e.pressed && a.holdOnOther)
            || (IsEvent(e) && !e.pressed && e.key != s.tapping.event.key && PressWaits(s, e.key) && a.permissive)
    ensures ProcessedAs(Now(cfg, answers, s, e), s.tapping.event, 0) ==>
              var s' := Deliver(cfg, answers, s, e);
              && s'.tapping == NO_RECORD && |Now(cfg, answers, s, e)| == 1
              && (if IsEvent(e) then Queues(s, s', e, NO_TAP) else LeavesBuffer(s, s'))
  {
    var out := Now(cfg, answers, s, e);
    assert |out| <= 1;
    OneProcessed(out, s.tapping.event, 0);
  }

  /** It is decided to be a tap, processed with count 1, exactly by its release within its term, which then waits with
      the same count. */
  lemma FirstTapIff(cfg: Config, answers: Answers, s: State, e: Event)
    requires Undecided(s.tapping)
    ensures ProcessedAs(Now(cfg, answers, s, e), s.tapping.event, 1) <==>
            During(cfg, s, e) && !e.pressed && e.key == s.tapping.event.key
    ensures ProcessedAs(Now(cfg, answers, s, e), s.tapping.event, 1) ==>
              var s', t' := Deliver(cfg, answers, s, e), WithCount(s.tapping, 1);
              && Now(cfg, answers, s, e) == [Real(t')] && Queues(s, s', e, t'.tap)
              && (s'.waiting != [] ==> s'.tapping == t')
  {
    var out := Now(cfg, answers, s, e);
    assert |out| <= 1;
    OneProcessed(out, s.tapping.event, 1);
  }

  /** Before the decision exactly the releases of other keys within the term are processed whose press does not wait and
      that need not be retained, as they are; the tapping key stays undecided. */
  lemma EarlyReleaseIff(cfg: Config, answers: Answers, s: State, e: Event)
    requires Undecided(s.tapping) && IsEvent(e) && e != s.tapping.event
    ensures ProcessedAs(Now(cfg, answers, s, e), e, 0) <==>
            && During(cfg, s, e) && !e.pressed && e.key != s.tapping.event.key
            && !PressWaits(s, e.key) && !answers(s.calls).retain
    ensures ProcessedAs(Now(cfg, answers, s, e), e, 0) ==>
              var s' := Deliver(cfg, answers, s, e);
              s'.tapping == s.tapping && LeavesBuffer(s, s') && Now(cfg, answers, s, e) == [Real(Record(e, NO_TAP))]
  {
    var out := Now(cfg, answers, s, e);
    assert |out| <= 1;
    OneProcessed(out, e, 0);
  }

  /** If nothing is processed, the tapping key stays undecided, a tick is ignored and an event waits; and the
      tapping key becomes interrupted exactly by a press. */
  lemma NothingYet(cfg: Config, answers: Answers, s: State, e: Event)
    requires Undecided(s.tapping) && Now(cfg, answers, s, e) == []
    requires |s.waiting| + 1 < BUFFER_SIZE
    ensures var s' := Deliver(cfg, answers, s, e);
            && s'.tapping == Record(s.tapping.event, Tap(s.tapping.tap.interrupted || (IsEvent(e) && e.pressed), 0))
            && (if IsEvent(e) then Queues(s, s', e, NO_TAP) else LeavesBuffer(s, s'))
  {}

  /** A hold is processed as interrupted exactly if it was interrupted before or a press within the term decides it. */
  lemma HoldInterruptedIff(cfg: Config, answers: Answers, s: State, e: Event)
    requires Undecided(s.tapping) && ProcessedAs(Now(cfg, answers, s, e), s.tapping.event, 0)
    ensures Now(cfg, answers, s, e)[0].record.tap.interrupted <==>
            s.tapping.tap.interrupted || (During(cfg, s, e) && e.pressed)
  {
    var out := Now(cfg, answers, s, e);
    assert |out| <= 1;
    OneProcessed(out, s.tapping.event, 0);
  }

  // ---------------------------------------------------------------- who becomes the tapping key

  /** A release of the press, within its term. */
  predicate MakesTap(cfg: Config, e: Event, r: Event) {
    IsEvent(r) && r.key == e.key && !r.pressed && (r.time - e.time) % 0x1_0000 < cfg.term(e.key)
  }

  predicate ReleaseWaits(cfg: Config, waiting: seq<Record>, e: Event) {
    exists i :: 0 <= i < |waiting| && MakesTap(cfg, e, waiting[i].event)
  }

  /** The press becomes the tapping key: undecided, or at once a tap, if a release of it waits within the term, and then
      the first such release gets its count. */
  predicate StartsAs(cfg: Config, s: State, s': State, e: Event, out: seq<Emission>) {
    if ReleaseWaits(cfg, s.waiting, e) then
      && s'.tapping == Record(e, Tap(false, 1)) && out == [Real(s'.tapping)] && |s'.waiting| == |s.waiting|
      && exists i :: 0 <= i < |s.waiting| && MakesTap(cfg, e, s.waiting[i].event)
                     && (forall j :: 0 <= j < i ==> !MakesTap(cfg, e, s.waiting[j].event))
                     && s'.waiting == s.waiting[i := WithCount(s.waiting[i], 1)]
    else s'.tapping == Record(e, NO_TAP) && out == [] && s'.waiting == s.waiting
  }

  lemma CandidateIs(cfg: Config, e: Event, c: Record)
    ensures TapCandidate(cfg, Record(e, NO_TAP), c) <==> MakesTap(cfg, e, c.event)
  {}

  lemma ScanStarts(cfg: Config, s: State, e: Event)
    requires e.pressed
    ensures var r := Scan(cfg, Record(e, NO_TAP), s.waiting);
            StartsAs(cfg, s, State(r.tapping, r.waiting, [], [], 0), e, r.out)
  {
    hide TapCandidate, MakesTap;
    forall c: Record ensures TapCandidate(cfg, Record(e, NO_TAP), c) <==> MakesTap(cfg, e, c.event) {
      CandidateIs(cfg, e, c);
    }
    var i := FirstCandidate(cfg, Record(e, NO_TAP), s.waiting);
    assert i < |s.waiting| ==> MakesTap(cfg, e, s.waiting[i].event);
    assert i < |s.waiting| <==> ReleaseWaits(cfg, s.waiting, e);
  }

  /** Without a tapping key, exactly the press of a tap-hold key becomes it; any other event is processed at once as it
      is, and a tick does nothing. */
  lemma StartIff(cfg: Config, answers: Answers, s: State, e: Event)
    requires !IsEvent(s.tapping.event)
    ensures var s', out := Deliver(cfg, answers, s, e), Now(cfg, answers, s, e);
            && s'.lost == s.lost
            && (IsEvent(e) && e.pressed && answers(s.calls).isTap ==> StartsAs(cfg, s, s', e, out))
            && (IsEvent(e) && !(e.pressed && answers(s.calls).isTap) ==>
                  out == [Real(Record(e, NO_TAP))] && s'.tapping == s.tapping && s'.waiting == s.waiting)
            && (!IsEvent(e) ==> out == [] && s'.tapping == s.tapping && s'.waiting == s.waiting)
  {
    if e.pressed { ScanStarts(cfg, s, e); }
  }

  /** A decided tapping key that is held: its release gets its count, and within its term replaces it. The press of
      another tap-hold key takes over, unregistering a count above 1 first. Anything else passes as it is. */
  lemma HeldTapIff(cfg: Config, answers: Answers, s: State, e: Event)
    requires IsEvent(s.tapping.event) && s.tapping.event.pressed && s.tapping.tap.count > 0 && IsEvent(e)
    ensures var s', out, t := Deliver(cfg, answers, s, e), Now(cfg, answers, s, e), s.tapping;
            && s'.lost == s.lost
            && (!e.pressed && e.key == t.event.key ==>
                  && out == [Real(Record(e, t.tap))] && s'.waiting == s.waiting
                  && s'.tapping == (if InTerm(cfg, s, e) then Record(e, t.tap) else NO_RECORD))
            && (e.pressed && answers(s.calls).isTap ==>
                  if t.tap.count > 1
                  then out != [] && out[0] == Synthetic(Record(t.event.(time := e.time, pressed := false), t.tap))
                       && StartsAs(cfg, s, s', e, out[1..])
                  else StartsAs(cfg, s, s', e, out))
            && (!(e.pressed && answers(s.calls).isTap) && !(!e.pressed && e.key == t.event.key) ==>
                  out == [Real(Record(e, NO_TAP))] && s'.tapping == t && s'.waiting == s.waiting)
  {
    if e.pressed { ScanStarts(cfg, s, e); }
  }

  /** After a tap: its key pressed again within the term is a sequential tap, processed at once with a count one
      higher, up to 15, exactly if it comes within the quick-tap term and the tap was not interrupted; otherwise it
      becomes the undecided tapping key and nothing is processed. */
  lemma RepressIff(cfg: Config, answers: Answers, s: State, e: Event)
    requires IsEvent(s.tapping.event) && !s.tapping.event.pressed && s.tapping.tap.count > 0
    requires During(cfg, s, e) && e.pressed && e.key == s.tapping.event.key
    ensures var s', out, t := Deliver(cfg, answers, s, e), Now(cfg, answers, s, e), s.tapping;
            && LeavesBuffer(s, s')
            && if Before(s, e, cfg.quick(t.event.key)) && !t.tap.interrupted
               then var count := if t.tap.count < 15 then t.tap.count + 1 else t.tap.count;
                    out == [Real(Record(e, Tap(false, count)))] && s'.tapping == Record(e, Tap(false, count))
               else out == [] && s'.tapping == Record(e, NO_TAP)
  {}

  /** After a tap, within the term: releases pass, the press of another tap-hold key takes over, and that of any
      other key passes and interrupts the tap. */
  lemma AfterTapIff(cfg: Config, answers: Answers, s: State, e: Event)
    requires IsEvent(s.tapping.event) && !s.tapping.event.pressed && During(cfg, s, e)
    ensures var s', out, t := Deliver(cfg, answers, s, e), Now(cfg, answers, s, e), s.tapping;
            && s'.lost == s.lost
            && (!e.pressed ==> out == [Real(Record(e, NO_TAP))] && s'.tapping == t && s'.waiting == s.waiting)
            && (e.pressed && e.key != t.event.key && answers(s.calls).isTap ==> StartsAs(cfg, s, s', e, out))
            && (e.pressed && e.key != t.event.key && !answers(s.calls).isTap ==>
                  && out == [Real(Record(e, NO_TAP))] && s'.waiting == s.waiting
                  && s'.tapping == Record(t.event, Tap(true, t.tap.count)))
  {
    if e.pressed { ScanStarts(cfg, s, e); }
  }

  /** After a tap, a tick within the term does nothing; an event or a tick after it makes the tap forgotten, nothing is
      processed, and the event waits. */
  lemma TapForgottenIff(cfg: Config, answers: Answers, s: State, e: Event)
    requires IsEvent(s.tapping.event) && !s.tapping.event.pressed && |s.waiting| + 1 < BUFFER_SIZE
    ensures var s' := Deliver(cfg, answers, s, e);
            && (!IsEvent(s'.tapping.event) <==> !InTerm(cfg, s, e))
            && (!InTerm(cfg, s, e) ==>
                  && Now(cfg, answers, s, e) == [] && s'.tapping == NO_RECORD
                  && (if IsEvent(e) then Queues(s, s', e, NO_TAP) else LeavesBuffer(s, s')))
            && (InTerm(cfg, s, e) && !IsEvent(e) ==>
                  Now(cfg, answers, s, e) == [] && s'.tapping == s.tapping && LeavesBuffer(s, s'))
  {}

  // ---------------------------------------------------------------- the drain

  /** The waiting record at the front, if it is not stamped, is decided on as if it was delivered to a state with
      the others waiting; it leaves the buffer or stays at its front. */
  lemma DrainDecidesAlike(cfg: Config, answers: Answers, s: State)
    requires WellFormed(s) && s.waiting != [] && s.waiting[0].tap == NO_TAP
    ensures var front, rest := s.waiting[0], s.waiting[1..];
            var s0 := State(s.tapping, rest, s.out, s.lost, s.calls);
            var d, s' := Deliver(cfg, answers, s0, front.event), PutBack(s, FrontOutcome(cfg, answers, s));
            && s'.out == d.out && s'.tapping == d.tapping && s'.lost == d.lost && s'.calls == d.calls
            && |s'.waiting| == |d.waiting|
            && (|d.waiting| == |rest| ==> s'.waiting == d.waiting)
            && (|d.waiting| == |rest| + 1 ==> s'.waiting == [d.waiting[|rest|]] + d.waiting[..|rest|])
  {
    var front, rest := s.waiting[0], s.waiting[1..];
    assert Record(front.event, NO_TAP) == front;
    assert IsEvent(front.event);
    var o := FrontOutcome(cfg, answers, s);
    assert (o.rest + [o.record])[..|rest|] == o.rest;
  }

  /** After a whole call, unless nothing waits, the tapping key is undecided, is forgotten, or is a first tap: what
      waits is waiting for a decision or for the next call. */
  lemma {:induction false} DrainGoesOn(cfg: Config, answers: Answers, s: State)
    requires WellFormed(s)
    ensures var s' := Drain(cfg, answers, s);
            s'.waiting != [] ==>
              && (IsEvent(s'.tapping.event) ==> s'.tapping.event.pressed && s'.tapping.tap.count <= 1)
              && |s'.waiting| <= |s.waiting|
    decreases |s.waiting|
  {
    hide WellFormed, Choose, Apply, Guard;
    if s.waiting != [] {
      var front, rest, o := s.waiting[0], s.waiting[1..], FrontOutcome(cfg, answers, s);
      FrontIs(s);
      ChooseGuard(cfg, s.tapping, rest, front, answers(s.calls));
      StopsUndecided(cfg, Choose(cfg, s.tapping, rest, front.event, answers(s.calls)), s.tapping, rest, front);
      FrontWellFormed(cfg, answers, s);
      if o.consumed { DrainGoesOn(cfg, answers, PutBack(s, o)); }
    }
  }

  lemma FrontIs(s: State)
    requires WellFormed(s) && s.waiting != []
    ensures Buffered(s.waiting[0])
  {}

  lemma StopsUndecided(cfg: Config, m: Move, t: Record, rest: seq<Record>, r: Record)
    requires Guard(m, t, r) && Buffered(r)
    ensures var o := Apply(cfg, m, t, rest, r);
            !o.consumed && IsEvent(o.tapping.event) ==> o.tapping.event.pressed && o.tapping.tap.count <= 1
  {}

  // ---------------------------------------------------------------- one key typed inside another

  /** A tap-hold key `k` pressed at a time, another key typed inside, and `k` released, all within the term. */
  predicate Nested(cfg: Config, down: Event, inner: Event, innerUp: Event, up: Event) {
    && IsEvent(down) && IsEvent(inner) && IsEvent(innerUp) && IsEvent(up)
    && down.pressed && inner.pressed && !innerUp.pressed && !up.pressed
    && up.key == down.key != inner.key == innerUp.key
    && down.time <= inner.time <= innerUp.time <= up.time < down.time + cfg.term(down.key)
    && up.time < down.time + 0x1_0000
  }

  /** From call `n` on, the first call is on a tap-hold key and the others are not,
    and hold-on-other-key-press is off. */
  ghost predicate OnlyFirstTaps(answers: Answers, n: nat) {
    answers(n).isTap && forall k :: k > n ==> !answers(k).isTap && !answers(k).holdOnOther
  }

  lemma DrainOnce(cfg: Config, answers: Answers, s: State, s': State)
    requires s.waiting != [] && FrontOutcome(cfg, answers, s).consumed &&
             PutBack(s, FrontOutcome(cfg, answers, s)) == s'
    ensures Drain(cfg, answers, s) == Drain(cfg, answers, s')
  {}

  lemma DrainStop(cfg: Config, answers: Answers, s: State, s': State)
    requires s.waiting != [] && !FrontOutcome(cfg, answers, s).consumed &&
             PutBack(s, FrontOutcome(cfg, answers, s)) == s'
    ensures Drain(cfg, answers, s) == s'
  {}

  /** Up to the press of the inner key nothing is decided. */
  lemma NestedPresses(cfg: Config, answers: Answers, s: State, down: Event, inner: Event, innerUp: Event, up: Event)
    requires Nested(cfg, down, inner, innerUp, up) && OnlyFirstTaps(answers, s.calls)
    requires s.tapping == NO_RECORD && s.waiting == []
    ensures Process(cfg, answers, Process(cfg, answers, s, down), inner) ==
            State(Record(down, Tap(true, 0)), [Record(inner, NO_TAP)], s.out, s.lost, s.calls + 3)
  {
    var s1 := State(Record(down, NO_TAP), [], s.out, s.lost, s.calls + 1);
    assert Deliver(cfg, answers, s, down) == s1;
    var s2 := State(Record(down, Tap(true, 0)), [Record(inner, NO_TAP)], s.out, s.lost, s.calls + 2);
    assert Deliver(cfg, answers, s1, inner) == s2;
    DrainStop(cfg, answers, s2, s2.(calls := s.calls + 3));
  }

  /** With permissive hold answered at the release of the inner key, the outer one is a hold and the inner one is
      processed inside it. */
  lemma NestedHold(cfg: Config, answers: Answers, s: State, down: Event, inner: Event, innerUp: Event, up: Event)
    requires Nested(cfg, down, inner, innerUp, up) && OnlyFirstTaps(answers, s.calls)
    requires s.tapping == NO_RECORD && s.waiting == [] && answers(s.calls + 3).permissive
    ensures var s3 := Process(cfg, answers, Process(cfg, answers, Process(cfg, answers, s, down), inner), innerUp);
            && s3.tapping == NO_RECORD && s3.waiting == []
            && s3.out == s.out + [Real(Record(down, Tap(true, 0))), Real(Record(inner, NO_TAP)),
              Real(Record(innerUp, NO_TAP))]
            && Process(cfg, answers, s3, up).out == s3.out + [Real(Record(up, NO_TAP))]
  {
    var h, i, iu := Real(Record(down, Tap(true, 0))), Record(inner, NO_TAP), Record(innerUp, NO_TAP);
    NestedPresses(cfg, answers, s, down, inner, innerUp, up);
    var s2 := State(Record(down, Tap(true, 0)), [i], s.out, s.lost, s.calls + 3);
    assert s2.waiting[0].event == inner;
    var d0 := State(NO_RECORD, [i, iu], s.out + [h], s.lost, s.calls + 4);
    assert Deliver(cfg, answers, s2, innerUp) == d0;
    var d1 := State(NO_RECORD, [iu], s.out + [h] + [Real(i)], s.lost, s.calls + 5);
    assert d0.waiting[1..] == [iu];
    DrainOnce(cfg, answers, d0, d1);
    var d2 := State(NO_RECORD, [], s.out + [h] + [Real(i)] + [Real(iu)], s.lost, s.calls + 6);
    DrainOnce(cfg, answers, d1, d2);
    assert Drain(cfg, answers, d2) == d2;
    assert d2.out == s.out + [h, Real(i), Real(iu)];
  }

  /** Without it the outer key is a tap once it is released,
    and the inner one is processed after the press of the tap. */
  lemma NestedTap(cfg: Config, answers: Answers, s: State, down: Event, inner: Event, innerUp: Event, up: Event)
    requires Nested(cfg, down, inner, innerUp, up) && OnlyFirstTaps(answers, s.calls)
    requires s.tapping == NO_RECORD && s.waiting == [] && !answers(s.calls + 3).permissive
    ensures var s3 := Process(cfg, answers, Process(cfg, answers, Process(cfg, answers, s, down), inner), innerUp);
            && s3.out == s.out && Undecided(s3.tapping)
            && Process(cfg, answers, s3, up).out ==
               s.out + [Real(Record(down, Tap(true, 1))), Real(Record(inner, NO_TAP)), Real(Record(innerUp, NO_TAP)),
                        Real(Record(up, Tap(true, 1)))]
  {
    hide Process;
    var t, i, iu := Record(down, Tap(true, 0)), Record(inner, NO_TAP), Record(innerUp, NO_TAP);
    var t1, u := WithCount(t, 1), Record(up, Tap(true, 1));
    NestedPresses(cfg, answers, s, down, inner, innerUp, up);
    var s2 := State(t, [i], s.out, s.lost, s.calls + 3);
    var s3 := State(t, [i, iu], s.out, s.lost, s.calls + 5);
    NestedWaits(cfg, answers, s2, t, i, iu);
    NestedTapEnds(cfg, answers, s3, t, i, iu, up);
    assert s.out + [Real(t1)] + [Real(i)] + [Real(iu)] + [Real(u)] == s.out + [Real(t1), Real(i), Real(iu), Real(u)];
  }

  lemma NestedWaits(cfg: Config, answers: Answers, s: State, t: Record, i: Record, iu: Record)
    requires s.tapping == t && s.waiting == [i] && t.tap == Tap(true, 0) && IsEvent(t.event) && t.event.pressed
    requires IsEvent(i.event) && i.event.pressed && IsEvent(iu.event) && !iu.event.pressed && iu.tap == NO_TAP
    requires i.event.key == iu.event.key != t.event.key && WithinTerm(cfg, t, i.event) && WithinTerm(cfg, t, iu.event)
    requires !answers(s.calls).permissive && !answers(s.calls + 1).holdOnOther
    ensures Process(cfg, answers, s, iu.event) == State(t, [i, iu], s.out, s.lost, s.calls + 2)
  {
    assert s.waiting[0].event == i.event;
    var d0 := State(t, [i, iu], s.out, s.lost, s.calls + 1);
    assert Deliver(cfg, answers, s, iu.event) == d0;
    assert d0.waiting[1..] == [iu];
    DrainStop(cfg, answers, d0, d0.(calls := s.calls + 2));
  }

  lemma NestedTapEnds(cfg: Config, answers: Answers, s: State, t: Record, i: Record, iu: Record, up: Event)
    requires s.tapping == t && s.waiting == [i, iu] && Undecided(t) && Buffered(i) && Buffered(iu) && iu.tap == NO_TAP
    requires i.event.pressed && !iu.event.pressed && i.event.key == iu.event.key != t.event.key == up.key
    requires IsEvent(up) && !up.pressed && WithinTerm(cfg, t, up) && WithinTerm(cfg, t, i.event)
    requires forall k :: k >= s.calls ==> !answers(k).isTap
    ensures var t1 := WithCount(t, 1);
            Process(cfg, answers, s, up).out == s.out + [Real(t1)] + [Real(i)] + [Real(iu)] + [Real(Record(up, t1.tap))]
  {
    var t1 := WithCount(t, 1);
    var u := Record(up, t1.tap);
    var d0 := State(t1, [i, iu, u], s.out + [Real(t1)], s.lost, s.calls + 1);
    assert Deliver(cfg, answers, s, up) == d0;
    var d1 := State(t1, [iu, u], s.out + [Real(t1)] + [Real(i)], s.lost, s.calls + 2);
    assert d0.waiting[1..] == [iu, u];
    DrainOnce(cfg, answers, d0, d1);
    var d2 := State(t1, [u], s.out + [Real(t1)] + [Real(i)] + [Real(iu)], s.lost, s.calls + 3);
    assert d1.waiting[1..] == [u];
    DrainOnce(cfg, answers, d1, d2);
    var d3 := State(u, [], s.out + [Real(t1)] + [Real(i)] + [Real(iu)] + [Real(u)], s.lost, s.calls + 4);
    assert d2.waiting[1..] == [];
    DrainOnce(cfg, answers, d2, d3);
  }
}
