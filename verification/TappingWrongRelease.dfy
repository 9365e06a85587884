/** A release that is taken for the release of the tapping key while that key's own release waits: when the
    tapping key and its own release still agree. */
module TappingWrongRelease {
  import opened TappingModel
  import opened TappingRuns
  import opened TappingVerdict
  import opened TappingOutOfTurn

  // ---------------------------------------------------------------- the fate of the tapping key's own release

  /** A press of another tapping key waits before the first event of key `k`, `calls` being the number of the
      next call of `process_tapping`. */
  predicate TapPressAhead(answers: Answers, calls: nat, waiting: seq<Record>, k: Key)
    decreases |waiting|
  {
    && waiting != [] && waiting[0].event.key != k
    && ((waiting[0].event.pressed && answers(calls).isTap) || TapPressAhead(answers, calls + 1, waiting[1..], k))
  }

  predicate ProcessedWith(out: seq<Emission>, e: Event, count: nat) {
    exists x :: 0 <= x < |out| && out[x].Real? && out[x].record.event == e && out[x].record.tap.count == count
  }

  /** The release waits unstamped before all other events of its key, the newest of which has rank `n - 1`,
      and the tapping key is not its press. */
  predicate Stale(s: State, own: Event, n: nat) {
    var w := Of(own.key, s.waiting);
    && w != [] && w[0].event == own && w[0].tap.count == 0
    && w[|w| - 1].event.rank == n - 1 && (w[|w| - 1].event.pressed <==> (n - 1) % 2 == 0)
    && !Holds(s.tapping, own.key)
  }

  /** The release waits unstamped, was dropped, or was processed with count 0. */
  predicate Fate(s: State, own: Event, n: nat) {
    Stale(s, own, n) || own in s.lost || ProcessedWith(s.out, own, 0)
  }

  lemma WithGrows(out: seq<Emission>, out': seq<Emission>, e: Event, count: nat)
    requires ProcessedWith(out, e, count) && out <= out'
    ensures ProcessedWith(out', e, count)
  {
    var x :| 0 <= x < |out| && out[x].Real? && out[x].record.event == e && out[x].record.tap.count == count;
    assert out'[x] == out[x];
  }

  /** A call on a record of another key leaves the waiting events of a key alone. */
  lemma OtherCall(cfg: Config, m: Move, k: Key, t: Record, rest: seq<Record>, r: Record)
    requires Guard(m, t, r) && (IsEvent(r.event) ==> r.event.key != k) && !Holds(t, k)
    ensures var o := Apply(cfg, m, t, rest, r);
            Of(k, o.rest) == Of(k, rest) && !Holds(o.tapping, k) && o.record.event == r.event
  {
    if m.Start? || m.StartReleasing? { ScanOther(cfg, k, r, rest); }
  }

  /** The release itself comes up: it is processed with count 0, or stays as it is. */
  lemma OwnCall(cfg: Config, t: Record, rest: seq<Record>, r: Record, a: Answer)
    requires IsEvent(r.event) && !r.event.pressed && !Holds(t, r.event.key)
    ensures var o := ProcessTapping(cfg, t, rest, r, a);
            if o.consumed then o.out == [Real(r)]
            else o.record == r && o.rest == rest && !Holds(o.tapping, r.event.key)
  {}

  lemma StaleOwn(cfg: Config, answers: Answers, s: State, own: Event, n: nat)
    requires s.waiting != [] && IsEvent(own) && !own.pressed && Stale(s, own, n) && s.waiting[0].event.key == own.key
    ensures Fate(PutBack(s, FrontOutcome(cfg, answers, s)), own, n)
  {
    hide ProcessTapping, Of;
    var front, rest := s.waiting[0], s.waiting[1..];
    var o := FrontOutcome(cfg, answers, s);
    var s' := PutBack(s, o);
    assert s.waiting == [front] + rest;
    OfCons(own.key, front, rest);
    OwnCall(cfg, s.tapping, rest, front, answers(s.calls));
    if o.consumed {
      assert s'.out[|s.out|] == Real(front);
    } else {
      assert s'.waiting == s.waiting;
    }
  }

  lemma StaleOther(cfg: Config, answers: Answers, s: State, own: Event, n: nat)
    requires s.waiting != [] && IsEvent(s.waiting[0].event) && Stale(s, own, n) && s.waiting[0].event.key != own.key
    ensures Stale(PutBack(s, FrontOutcome(cfg, answers, s)), own, n)
  {
    hide Apply, Choose, Of, Guard;
    var front, rest := s.waiting[0], s.waiting[1..];
    var o := FrontOutcome(cfg, answers, s);
    assert s.waiting == [front] + rest;
    OfCons(own.key, front, rest);
    OfCons(own.key, o.record, o.rest);
    ChooseGuard(cfg, s.tapping, rest, front, answers(s.calls));
    OtherCall(cfg, Choose(cfg, s.tapping, rest, front.event, answers(s.calls)), own.key, s.tapping, rest, front);
  }

  lemma FrontFate(cfg: Config, answers: Answers, s: State, own: Event, n: nat)
    requires WellFormed(s) && s.waiting != [] && IsEvent(own) && !own.pressed && Fate(s, own, n)
    ensures Fate(PutBack(s, FrontOutcome(cfg, answers, s)), own, n)
  {
    hide Stale, ProcessTapping;
    if ProcessedWith(s.out, own, 0) {
      WithGrows(s.out, PutBack(s, FrontOutcome(cfg, answers, s)).out, own, 0);
    } else if Stale(s, own, n) {
      FrontIsEvent(s);
      if s.waiting[0].event.key == own.key {
        StaleOwn(cfg, answers, s, own, n);
      } else {
        StaleOther(cfg, answers, s, own, n);
      }
    }
  }

  lemma {:induction false} DrainFate(cfg: Config, answers: Answers, s: State, own: Event, n: nat)
    requires WellFormed(s) && IsEvent(own) && !own.pressed && Fate(s, own, n)
    ensures Fate(Drain(cfg, answers, s), own, n)
    decreases |s.waiting|
  {
    hide Fate, WellFormed, ProcessTapping;
    if s.waiting != [] {
      FrontFate(cfg, answers, s, own, n);
      FrontWellFormed(cfg, answers, s);
      var o := FrontOutcome(cfg, answers, s);
      if o.consumed { DrainFate(cfg, answers, PutBack(s, o), own, n); }
    }
  }

  // ---------------------------------------------------------------- later deliveries

  lemma LandFate(s: State, e: Event, o: Outcome, own: Event, n: nat)
    requires !ProcessedWith(s.out, own, 0) && own !in s.lost
    requires Stale(State(o.tapping, Queued(e, o), s.out, s.lost, 0), own, n) && IsEvent(own)
    requires own in Events(o.rest)
    ensures Fate(Land(s, e, o), own, n)
  {}

  lemma OfWaits(k: Key, waiting: seq<Record>)
    requires Of(k, waiting) != []
    ensures Of(k, waiting)[0].event in Events(waiting) && Of(k, waiting)[0].event.key == k && AnyOf(k, waiting)
  {
    var i := OfSource(k, waiting, 0);
    assert Events(waiting)[i] == Of(k, waiting)[0].event;
  }

  lemma StaleTyped(s: State, e: Event, own: Event, n: nat)
    requires Stale(s, own, n) && e.key == own.key && (e.pressed <==> n % 2 == 0)
    ensures Typed(s.waiting, e)
  {
    var w := Of(own.key, s.waiting);
    var i := OfSource(own.key, s.waiting, |w| - 1);
  }

  lemma QueuesBehind(cfg: Config, t: Record, rest: seq<Record>, e: Event, a: Answer)
    requires IsEvent(e) && Typed(rest, e) && IsEvent(t.event)
    requires t.event.pressed ==> t.tap.count == 0 && !(t.event.key == e.key && !e.pressed && WithinTerm(cfg, t, e))
    requires !t.event.pressed ==> !WithinTerm(cfg, t, e)
    ensures var o := ProcessTapping(cfg, t, rest, Record(e, NO_TAP), a);
            && o.rest == rest && o.record == Record(e, NO_TAP) && !o.consumed
            && (Holds(o.tapping, e.key) ==> Holds(t, e.key))
  {}

  /** Another key's event, or a tick. */
  lemma DeliverOtherFate(cfg: Config, answers: Answers, s: State, e: Event, own: Event, n: nat)
    requires Stale(s, own, n) && !ProcessedWith(s.out, own, 0) && own !in s.lost && IsEvent(own)
    requires IsEvent(e) ==> e.key != own.key
    ensures Fate(Deliver(cfg, answers, s, e), own, n)
  {
    hide Apply, Choose, Guard, Of, ProcessedWith, Fate;
    var r := Record(e, NO_TAP);
    var o := ProcessTapping(cfg, s.tapping, s.waiting, r, answers(s.calls));
    var k := own.key;
    ChooseGuard(cfg, s.tapping, s.waiting, r, answers(s.calls));
    OtherCall(cfg, Choose(cfg, s.tapping, s.waiting, e, answers(s.calls)), k, s.tapping, s.waiting, r);
    OfWaits(k, o.rest);
    OfSnoc(k, o.rest, o.record);
    LandFate(s, e, o, own, n);
  }

  /** The next event of the key, in turn. */
  lemma DeliverSameFate(cfg: Config, answers: Answers, s: State, e: Event, own: Event, n: nat)
    requires Stale(s, own, n) && !ProcessedWith(s.out, own, 0) && own !in s.lost && IsEvent(own)
    requires IsEvent(e) && e.key == own.key && e.rank == n && (e.pressed <==> n % 2 == 0) && InTurn(cfg, s, e)
    ensures Fate(Deliver(cfg, answers, s, e), own, n + 1)
  {
    hide Apply, Choose, Guard, Of, ProcessedWith, Fate;
    var r := Record(e, NO_TAP);
    var o := ProcessTapping(cfg, s.tapping, s.waiting, r, answers(s.calls));
    var k := own.key;
    OfWaits(k, s.waiting);
    OfSnoc(k, s.waiting, r);
    StaleTyped(s, e, own, n);
    QueuesBehind(cfg, s.tapping, s.waiting, e, answers(s.calls));
    assert Of(k, Queued(e, o)) == Of(k, s.waiting) + [r];
    LandFate(s, e, o, own, n + 1);
  }

  lemma DeliverFate(cfg: Config, answers: Answers, s: State, e: Event, own: Event, n: nat)
    requires IsEvent(own) && !own.pressed && Fate(s, own, n)
    requires IsEvent(e) && e.key == own.key ==> e.rank == n && (e.pressed <==> n % 2 == 0) && InTurn(cfg, s, e)
    ensures Fate(Deliver(cfg, answers, s, e), own, n + (if IsEvent(e) && e.key == own.key then 1 else 0))
  {
    hide ProcessTapping, Stale, InTurn;
    if ProcessedWith(s.out, own, 0) {
      WithGrows(s.out, Deliver(cfg, answers, s, e).out, own, 0);
    } else if own !in s.lost {
      if IsEvent(e) && e.key == own.key {
        DeliverSameFate(cfg, answers, s, e, own, n);
      } else {
        DeliverOtherFate(cfg, answers, s, e, own, n);
      }
    }
  }

  /** Later events of the key are delivered in turn. */
  predicate LaterInTurn(cfg: Config, answers: Answers, inputs: seq<Event>, more: seq<Event>, k: Key) {
    forall i :: 0 <= i < |more| && IsEvent(more[i]) && more[i].key == k ==>
      InTurn(cfg, Run(cfg, answers, inputs + more[..i]), more[i])
  }

  lemma ProcessFate(cfg: Config, answers: Answers, s: State, e: Event, own: Event, n: nat)
    requires WellFormed(s) && IsEvent(own) && !own.pressed && Fate(s, own, n)
    requires IsEvent(e) && e.key == own.key ==> e.rank == n && (e.pressed <==> n % 2 == 0) && InTurn(cfg, s, e)
    ensures Fate(Process(cfg, answers, s, e), own, n + (if IsEvent(e) && e.key == own.key then 1 else 0))
  {
    hide Fate, Deliver, InTurn, WellFormed;
    DeliverFate(cfg, answers, s, e, own, n);
    DeliverWellFormed(cfg, answers, s, e);
    DrainFate(cfg, answers, Deliver(cfg, answers, s, e), own, n + (if IsEvent(e) && e.key == own.key then 1 else 0));
  }

  /** What holds of a run and its continuation holds without the last event, and of that event. */
  lemma WithoutLast(cfg: Config, answers: Answers, inputs: seq<Event>, init: seq<Event>, e: Event, k: Key)
    requires AllRanked(inputs + (init + [e])) && LaterInTurn(cfg, answers, inputs, init + [e], k)
    ensures AllRanked(inputs + init) && LaterInTurn(cfg, answers, inputs, init, k)
    ensures Ranked(inputs + init, e) && (IsEvent(e) && e.key == k ==> InTurn(cfg, Run(cfg, answers, inputs + init), e))
    ensures RankOf(inputs + (init + [e]), k) == RankOf(inputs + init, k) + (if IsEvent(e) && e.key == k then 1 else 0)
  {
    hide Run, InTurn, Ranked, LaterInTurn, RankOf;
    var all := inputs + init;
    assert inputs + (init + [e]) == all + [e];
    RanksWithoutLast(all, e, k);
    TurnsWithoutLast(cfg, answers, inputs, init, e, k);
  }

  lemma RanksWithoutLast(all: seq<Event>, e: Event, k: Key)
    requires AllRanked(all + [e])
    ensures AllRanked(all) && Ranked(all, e)
    ensures RankOf(all + [e], k) == RankOf(all, k) + (if IsEvent(e) && e.key == k then 1 else 0)
  {
    hide Ranked;
    assert (all + [e])[..|all|] == all && (all + [e])[|all|] == e;
    assert forall i :: 0 <= i < |all| ==> all[i] == (all + [e])[i] && all[..i] == (all + [e])[..i];
  }

  lemma TurnsWithoutLast(cfg: Config, answers: Answers, inputs: seq<Event>, init: seq<Event>, e: Event, k: Key)
    requires LaterInTurn(cfg, answers, inputs, init + [e], k)
    ensures LaterInTurn(cfg, answers, inputs, init, k)
    ensures IsEvent(e) && e.key == k ==> InTurn(cfg, Run(cfg, answers, inputs + init), e)
  {
    hide Run, InTurn;
    var more := init + [e];
    assert more[..|init|] == init && more[|init|] == e;
    assert forall i :: 0 <= i < |init| ==> init[i] == more[i] && init[..i] == more[..i];
  }

  lemma {:induction false} RunFate(cfg: Config, answers: Answers, inputs: seq<Event>, more: seq<Event>, own: Event)
    requires AllRanked(inputs + more) && LaterInTurn(cfg, answers, inputs, more, own.key)
    requires IsEvent(own) && !own.pressed && Fate(Run(cfg, answers, inputs), own, RankOf(inputs, own.key))
    ensures Fate(Run(cfg, answers, inputs + more), own, RankOf(inputs + more, own.key))
    decreases |more|
  {
    hide Fate, Run, Process, InTurn, AllRanked, LaterInTurn, RankOf, WellFormed;
    if more == [] {
      assert inputs + more == inputs;
    } else {
      var init, e := more[..|more| - 1], more[|more| - 1];
      var all := inputs + init;
      assert more == init + [e] && inputs + more == all + [e];
      WithoutLast(cfg, answers, inputs, init, e, own.key);
      RunFate(cfg, answers, inputs, init, own);
      ReachableWellFormed(cfg, answers, all);
      RunOne(cfg, answers, all, e);
      ProcessFate(cfg, answers, Run(cfg, answers, all), e, own, RankOf(all, own.key));
    }
  }

  // ---------------------------------------------------------------- the drain after the first tap

  /** The tapping key is a tap of count 1 whose own release `own` waits first among the events of its key. */
  predicate TapWaits(s: State, own: Event, n: nat) {
    var w := Of(own.key, s.waiting);
    && Holds(s.tapping, own.key) && s.tapping.tap.count == 1
    && w != [] && w[0].event == own && w[0].tap.count == 0
    && w[|w| - 1].event.rank == n - 1 && (w[|w| - 1].event.pressed <==> (n - 1) % 2 == 0)
  }

  /** A call while the tapping key is a pressed tap of count 1: its release takes the count, another tapping key
      starts, and everything else is processed as it is. */
  lemma TapCall(cfg: Config, t: Record, rest: seq<Record>, r: Record, a: Answer)
    requires Holds(t, t.event.key) && t.tap.count == 1 && IsEvent(r.event)
    ensures var o := ProcessTapping(cfg, t, rest, r, a);
            && o.consumed
            && (r.event.key == t.event.key && !r.event.pressed ==> o.out == [Real(r.(tap := t.tap))])
            && (r.event.key != t.event.key && r.event.pressed && a.isTap ==>
                  o.rest == Scan(cfg, r, rest).waiting && o.tapping == Scan(cfg, r, rest).tapping)
            && (r.event.key != t.event.key && !(r.event.pressed && a.isTap) ==> o.rest == rest && o.tapping == t)
  {}

  lemma FrontIsOwn(s: State, own: Event, n: nat)
    requires s.waiting != [] && TapWaits(s, own, n) && s.waiting[0].event.key == own.key
    ensures s.waiting[0].event == own
  {
    OfCons(own.key, s.waiting[0], s.waiting[1..]);
    assert s.waiting == [s.waiting[0]] + s.waiting[1..];
  }

  /** The own release comes up in the drain. */
  lemma OwnFront(cfg: Config, answers: Answers, s: State, own: Event, n: nat)
    requires s.waiting != [] && TapWaits(s, own, n) && IsEvent(own) && !own.pressed
    requires s.waiting[0].event.key == own.key
    ensures var o := FrontOutcome(cfg, answers, s);
            o.consumed && ProcessedWith(PutBack(s, o).out, own, 1)
  {
    hide ProcessTapping, Of;
    var front := s.waiting[0];
    FrontIsOwn(s, own, n);
    TapCall(cfg, s.tapping, s.waiting[1..], front, answers(s.calls));
    assert PutBack(s, FrontOutcome(cfg, answers, s)).out[|s.out|] == Real(front.(tap := s.tapping.tap));
  }

  /** A record of another key comes up in the drain. */
  lemma OtherFront(cfg: Config, answers: Answers, s: State, own: Event, n: nat)
    requires s.waiting != [] && TapWaits(s, own, n) && IsEvent(s.waiting[0].event)
    requires s.waiting[0].event.key != own.key
    ensures var front, o := s.waiting[0], FrontOutcome(cfg, answers, s);
            var s' := PutBack(s, o);
            && o.consumed
            && (if front.event.pressed && answers(s.calls).isTap then Stale(s', own, n)
                else TapWaits(s', own, n) && s'.waiting == s.waiting[1..] && s'.calls == s.calls + 1)
  {
    hide ProcessTapping, Scan, Of;
    var front, rest := s.waiting[0], s.waiting[1..];
    assert s.waiting == [front] + rest;
    OfCons(own.key, front, rest);
    TapCall(cfg, s.tapping, rest, front, answers(s.calls));
    ScanOther(cfg, own.key, front, rest);
  }

  lemma {:induction false} TapDrain(cfg: Config, answers: Answers, s: State, own: Event, n: nat)
    requires WellFormed(s) && TapWaits(s, own, n) && IsEvent(own) && !own.pressed
    ensures var s' := Drain(cfg, answers, s);
            if TapPressAhead(answers, s.calls, s.waiting, own.key) then Fate(s', own, n)
            else ProcessedWith(s'.out, own, 1)
    decreases |s.waiting|
  {
    hide WellFormed, ProcessTapping, ProcessedWith, Stale, TapWaits;
    WaitsNotEmpty(s, own, n);
    FrontIsEvent(s);
    FrontWellFormed(cfg, answers, s);
    var s' := PutBack(s, FrontOutcome(cfg, answers, s));
    if s.waiting[0].event.key != own.key { OtherFront(cfg, answers, s, own, n); }
    if s.waiting[0].event.key == own.key {
      OwnFront(cfg, answers, s, own, n);
      DrainGrows(cfg, answers, s');
      WithGrows(s'.out, Drain(cfg, answers, s').out, own, 1);
    } else if s.waiting[0].event.pressed && answers(s.calls).isTap {
      DrainFate(cfg, answers, s', own, n);
    } else {
      TapDrain(cfg, answers, s', own, n);
    }
  }

  lemma FrontIsEvent(s: State)
    requires WellFormed(s) && s.waiting != []
    ensures IsEvent(s.waiting[0].event)
  {
    assert Buffered(s.waiting[0]);
  }

  lemma WaitsNotEmpty(s: State, own: Event, n: nat)
    requires TapWaits(s, own, n)
    ensures s.waiting != []
  {}

  // ---------------------------------------------------------------- the exact condition

  /** The oldest waiting event of a key. */
  function Oldest(k: Key, waiting: seq<Record>): Event
    requires Of(k, waiting) != []
  {
    Of(k, waiting)[0].event
  }

  /** After the delivery the tapping key is a tap whose own release waits; on overflow that release is dropped. */
  lemma DeliveredFirstTap(cfg: Config, answers: Answers, s: State, e: Event, own: Event)
    requires MoveFor(cfg, answers, s, e) == FirstTap && IsEvent(e) && e.key == own.key && !e.pressed && e.rank % 2 == 1
    requires Of(e.key, s.waiting) != [] && Oldest(e.key, s.waiting) == own && Of(e.key, s.waiting)[0].tap.count == 0
    ensures var s1 := Deliver(cfg, answers, s, e);
            && |s1.out| == |s.out| + 1 && s1.out[|s.out|] == Real(WithCount(s.tapping, 1))
            && s1.calls == s.calls + 1
            && (own in s1.lost || (TapWaits(s1, own, e.rank + 1) &&
              s1.waiting == s.waiting + [Record(e, WithCount(s.tapping, 1).tap)]))
  {
    var o := ProcessTapping(cfg, s.tapping, s.waiting, Record(e, NO_TAP), answers(s.calls));
    OfSnoc(e.key, s.waiting, o.record);
    OfWaits(e.key, s.waiting);
  }

  lemma {:induction false} AheadAppend(answers: Answers, calls: nat, waiting: seq<Record>, r: Record, k: Key)
    requires r.event.key == k
    ensures TapPressAhead(answers, calls, waiting + [r], k) <==> TapPressAhead(answers, calls, waiting, k)
    decreases |waiting|
  {
    if waiting != [] {
      assert (waiting + [r])[1..] == waiting[1..] + [r];
      AheadAppend(answers, calls + 1, waiting[1..], r, k);
    }
  }

  /** The call in which the wrong release is delivered. */
  lemma WrongReleaseCall(cfg: Config, answers: Answers, s: State, e: Event, own: Event)
    requires WellFormed(s) && IsEvent(own) && !own.pressed
    requires MoveFor(cfg, answers, s, e) == FirstTap && IsEvent(e) && e.key == own.key && !e.pressed && e.rank % 2 == 1
    requires Of(e.key, s.waiting) != [] && Oldest(e.key, s.waiting) == own && Of(e.key, s.waiting)[0].tap.count == 0
    ensures var s' := Process(cfg, answers, s, e);
            || Fate(s', own, e.rank + 1)
            || (!TapPressAhead(answers, s.calls + 1, s.waiting, e.key) && ProcessedWith(s'.out, own, 1))
    ensures var s' := Process(cfg, answers, s, e);
            !TapPressAhead(answers, s.calls + 1, s.waiting, e.key) ==> ProcessedWith(s'.out, own, 1) || own in s'.lost
    ensures s.out + [Real(WithCount(s.tapping, 1))] <= Process(cfg, answers, s, e).out
  {
    hide TapPressAhead, WellFormed, TapWaits, Stale, ProcessedWith;
    var s1 := Deliver(cfg, answers, s, e);
    DeliverWellFormed(cfg, answers, s, e);
    DeliveredFirstTap(cfg, answers, s, e, own);
    ProcessGrows(cfg, answers, s, e);
    if own !in s1.lost {
      TapDrain(cfg, answers, s1, own, e.rank + 1);
      AheadAppend(answers, s1.calls, s.waiting, Record(e, WithCount(s.tapping, 1).tap), e.key);
    }
  }

  predicate IsOf(m: Emission, e: Event) {
    m.Real? && m.record.event == e
  }

  /** The pair of a press processed once with count 1, by what became of its release. */
  lemma PairOfTap(k: Key, out: seq<Emission>, x0: nat, t: Event, own: Event)
    requires AllEmitted(out) && x0 < |out| && out[x0].Real? && out[x0].record.event == t &&
             out[x0].record.tap.count == 1
    requires t.key == k && t.pressed && own.key == k && own.rank == t.rank + 1
    requires forall x :: 0 <= x < |out| && IsReal(out[x], k) && out[x].record.event.rank == t.rank ==> x == x0
    requires forall y :: 0 <= y < |out| && IsReal(out[y], k) && out[y].record.event.rank == own.rank ==>
               out[y].record.event == own && y > x0
    requires forall y, z :: 0 <= y < |out| && 0 <= z < |out| && IsOf(out[y], own) && IsOf(out[z], own) ==> y == z
    ensures ProcessedWith(out, own, 1) ==> PairAgrees(k, out, t.rank)
    ensures ProcessedWith(out, own, 0) ==> !PairAgrees(k, out, t.rank)
    ensures !Processed(out, own) ==> PairAgrees(k, out, t.rank)
  {
    if ProcessedWith(out, own, 1) {
      var y :| 0 <= y < |out| && out[y].Real? && out[y].record.event == own && out[y].record.tap.count == 1;
      assert IsOf(out[y], own);
      assert forall z :: 0 <= z < |out| && IsReal(out[z], k) && out[z].record.event.rank == own.rank ==>
        IsOf(out[z], own);
    }
    if ProcessedWith(out, own, 0) {
      var y :| 0 <= y < |out| && out[y].Real? && out[y].record.event == own && out[y].record.tap.count == 0;
      assert IsOf(out[y], own) && IsReal(out[x0], k) && IsReal(out[y], k);
      assert !Excused(out, k, 1, x0, y);
    }
  }

  /** In every ranked run: the tapping key `t` was undecided, and its own release the oldest waiting event of its key,
      when a later release of the key was taken for its own. In every continuation
      in which later events of the key are delivered in turn, `t` and its own release agree exactly if no press
      of another tapping key waited before that release, or it is not processed. */
  lemma WrongReleaseIff(cfg: Config, answers: Answers, inputs: seq<Event>, e: Event, more: seq<Event>)
    requires AllRanked(inputs + [e] + more) && IsEvent(e) && !e.pressed
    requires MoveFor(cfg, answers, Run(cfg, answers, inputs), e) == FirstTap
    requires var s := Run(cfg, answers, inputs);
             var w := Of(e.key, s.waiting);
             w != [] && w[0].event.rank == s.tapping.event.rank + 1 && w[0].tap.count == 0
    requires LaterInTurn(cfg, answers, inputs + [e], more, e.key)
    ensures var s := Run(cfg, answers, inputs);
            var t, own := s.tapping.event, Oldest(e.key, s.waiting);
            var out := Run(cfg, answers, inputs + [e] + more).out;
            && t.key == own.key == e.key && t.pressed && !own.pressed
            && (PairAgrees(e.key, out, t.rank) <==>
                !TapPressAhead(answers, s.calls + 1, s.waiting, e.key) || !Processed(out, own))
  {
    hide Run, Process, TapPressAhead, PairAgrees, Processed, Fate, AllRanked, LaterInTurn, WellFormed;
    var all := inputs + [e] + more;
    var s0, s := Run(cfg, answers, inputs), Run(cfg, answers, all);
    var k, t := e.key, s0.tapping.event;
    FirstTapOf(cfg, answers, s0, e);
    var own := Oldest(k, s0.waiting);
    OfWaits(k, s0.waiting);
    assert all == inputs + ([e] + more);
    PressReceived(cfg, answers, inputs, [e] + more, own);
    OwedReceived(cfg, answers, inputs, [e] + more);
    ParityOf(all, own);
    ParityOf(all, t);
    ParityOf(all, e);
    ReachableWellFormed(cfg, answers, inputs);
    WrongReleaseCall(cfg, answers, s0, e, own);
    Continued(cfg, answers, inputs, e, more);
    TapFacts(cfg, answers, inputs, e, more, t, own);
    WrongReleaseFate(cfg, answers, inputs, e, more, own);
  }

  lemma OwedReceived(cfg: Config, answers: Answers, inputs: seq<Event>, more: seq<Event>)
    requires AllRanked(inputs + more) && Undecided(Run(cfg, answers, inputs).tapping)
    ensures Run(cfg, answers, inputs).tapping.event in inputs + more
  {
    hide Run, Ranked;
    assert forall i :: 0 <= i < |inputs| ==> inputs[i] == (inputs + more)[i] && inputs[..i] == (inputs + more)[..i];
    OnePlace(cfg, answers, inputs, Run(cfg, answers, inputs).tapping.event);
  }

  lemma FirstTapOf(cfg: Config, answers: Answers, s: State, e: Event)
    requires MoveFor(cfg, answers, s, e) == FirstTap
    ensures Undecided(s.tapping) && s.tapping.event.key == e.key && s.tapping.event.pressed
  {}

  /** What became of the own release at the end of the continuation. */
  lemma WrongReleaseFate(cfg: Config, answers: Answers, inputs: seq<Event>, e: Event, more: seq<Event>, own: Event)
    requires AllRanked(inputs + [e] + more) && LaterInTurn(cfg, answers, inputs + [e], more, own.key)
    requires IsEvent(own) && !own.pressed && IsEvent(e) && e.key == own.key
    requires var s1 := Run(cfg, answers, inputs + [e]);
             Fate(s1, own, e.rank + 1) || ProcessedWith(s1.out, own, 1) || own in s1.lost
    ensures var s1, s := Run(cfg, answers, inputs + [e]), Run(cfg, answers, inputs + [e] + more);
            && (ProcessedWith(s1.out, own, 1) ==> ProcessedWith(s.out, own, 1))
            && (own in s1.lost ==> !Processed(s.out, own))
            && (Fate(s1, own, e.rank + 1) ==> ProcessedWith(s.out, own, 0) || !Processed(s.out, own))
  {
    hide Run, Process, AllRanked, LaterInTurn, Ranked;
    var all := inputs + [e] + more;
    var s1, s := Run(cfg, answers, inputs + [e]), Run(cfg, answers, all);
    RunGrows(cfg, answers, inputs + [e], more);
    OnePlace(cfg, answers, all, own);
    if ProcessedWith(s1.out, own, 1) { WithGrows(s1.out, s.out, own, 1); }
    if Fate(s1, own, e.rank + 1) {
      RankAfter(inputs, e, more);
      RunFate(cfg, answers, inputs + [e], more, own);
      if Stale(s, own, RankOf(all, own.key)) { OfWaits(own.key, s.waiting); }
    }
  }

  lemma RankAfter(inputs: seq<Event>, e: Event, more: seq<Event>)
    requires AllRanked(inputs + [e] + more) && IsEvent(e)
    ensures RankOf(inputs + [e], e.key) == e.rank + 1
  {
    RankNow(inputs, e, more);
    assert (inputs + [e])[..|inputs|] == inputs;
  }

  /** The facts `PairOfTap` asks for. */
  lemma TapFacts(cfg: Config, answers: Answers, inputs: seq<Event>, e: Event, more: seq<Event>, t: Event, own: Event)
    requires AllRanked(inputs + [e] + more)
    requires var s0 := Run(cfg, answers, inputs);
             && Undecided(s0.tapping) && s0.tapping.event == t && own in Events(s0.waiting) && own.key == t.key &&
               IsEvent(own)
             && own.rank == t.rank + 1
             && s0.out + [Real(WithCount(s0.tapping, 1))] <= Run(cfg, answers, inputs + [e]).out
    ensures var out := Run(cfg, answers, inputs + [e] + more).out;
            && (ProcessedWith(out, own, 1) ==> PairAgrees(t.key, out, t.rank))
            && (ProcessedWith(out, own, 0) ==> !PairAgrees(t.key, out, t.rank))
            && (!Processed(out, own) ==> PairAgrees(t.key, out, t.rank))
            && (ProcessedWith(out, own, 0) ==> Processed(out, own))
  {
    hide Run, AllRanked, PairAgrees, Excused, Ranked, WellFormed;
    var all := inputs + [e] + more;
    assert all == inputs + ([e] + more);
    var s0, out := Run(cfg, answers, inputs), Run(cfg, answers, all).out;
    var x0 := |s0.out|;
    RunGrows(cfg, answers, inputs + [e], more);
    assert s0.out + [Real(WithCount(s0.tapping, 1))] <= out;
    assert out[x0] == (s0.out + [Real(WithCount(s0.tapping, 1))])[x0];
    PressReceived(cfg, answers, inputs, [e] + more, own);
    assert Processed(out, t);
    OnePlace(cfg, answers, all, t);
    AllIsWellFormed(cfg, answers, all);
    forall x | 0 <= x < |out| && IsReal(out[x], t.key) && out[x].record.event.rank == t.rank ensures x == x0 {
      ProcessedIs(cfg, answers, all, x, t);
      OneIndex(cfg, answers, all, x, x0);
    }
    NotBefore(cfg, answers, inputs, [e] + more, own);
    forall y | 0 <= y < |out| && IsReal(out[y], t.key) && out[y].record.event.rank == own.rank
      ensures out[y].record.event == own && y > x0
    {
      ProcessedIs(cfg, answers, all, y, own);
    }
    forall y, z | 0 <= y < |out| && 0 <= z < |out| && IsOf(out[y], own) && IsOf(out[z], own) ensures y == z {
      OneIndex(cfg, answers, all, y, z);
    }
    PairOfTap(t.key, out, x0, t, own);
  }

  lemma AllIsWellFormed(cfg: Config, answers: Answers, inputs: seq<Event>)
    ensures AllEmitted(Run(cfg, answers, inputs).out)
  {
    ReachableWellFormed(cfg, answers, inputs);
  }

  lemma NotBefore(cfg: Config, answers: Answers, inputs: seq<Event>, more: seq<Event>, own: Event)
    requires AllRanked(inputs + more) && own in Events(Run(cfg, answers, inputs).waiting)
    ensures !Processed(Run(cfg, answers, inputs).out, own)
  {
    assert forall i :: 0 <= i < |inputs| ==> inputs[i] == (inputs + more)[i] && inputs[..i] == (inputs + more)[..i];
    OnePlace(cfg, answers, inputs, own);
  }

  // ---------------------------------------------------------------- the release that was taken

  /** Wherever the event waits or was processed, it carries a positive count. */
  predicate Counted(s: State, e: Event) {
    && (forall i :: 0 <= i < |s.waiting| && s.waiting[i].event == e ==> s.waiting[i].tap.count > 0)
    && (forall x :: 0 <= x < |s.out| && IsOf(s.out[x], e) ==> s.out[x].record.tap.count > 0)
  }

  /** A call keeps the count of a release positive. */
  lemma CallCounts(cfg: Config, m: Move, t: Record, rest: seq<Record>, r: Record, e: Event)
    requires Guard(m, t, r) && !e.pressed && (r.event == e ==> r.tap.count > 0)
    requires forall i :: 0 <= i < |rest| && rest[i].event == e ==> rest[i].tap.count > 0
    ensures var o := Apply(cfg, m, t, rest, r);
            && (forall i :: 0 <= i < |o.rest| && o.rest[i].event == e ==> o.rest[i].tap.count > 0)
            && (forall x :: 0 <= x < |o.out| && IsOf(o.out[x], e) ==> o.out[x].record.tap.count > 0)
            && (o.record.event == e ==> o.record.tap.count > 0)
  {}

  lemma FrontCounts(cfg: Config, answers: Answers, s: State, e: Event)
    requires s.waiting != [] && !e.pressed && Counted(s, e)
    ensures Counted(PutBack(s, FrontOutcome(cfg, answers, s)), e)
  {
    hide Apply;
    var front, rest := s.waiting[0], s.waiting[1..];
    assert forall i :: 0 <= i < |rest| ==> rest[i] == s.waiting[i + 1];
    ChooseGuard(cfg, s.tapping, rest, front, answers(s.calls));
    CallCounts(cfg, Choose(cfg, s.tapping, rest, front.event, answers(s.calls)), s.tapping, rest, front, e);
  }

  lemma {:induction false} DrainCounts(cfg: Config, answers: Answers, s: State, e: Event)
    requires !e.pressed && Counted(s, e)
    ensures Counted(Drain(cfg, answers, s), e)
    decreases |s.waiting|
  {
    hide Counted, ProcessTapping;
    if s.waiting != [] {
      FrontCounts(cfg, answers, s, e);
      var o := FrontOutcome(cfg, answers, s);
      if o.consumed { DrainCounts(cfg, answers, PutBack(s, o), e); }
    }
  }

  lemma DeliverCounts(cfg: Config, answers: Answers, s: State, next: Event, e: Event)
    requires !e.pressed && Counted(s, e) && next != e
    ensures Counted(Deliver(cfg, answers, s, next), e)
  {
    hide Apply;
    var r := Record(next, NO_TAP);
    ChooseGuard(cfg, s.tapping, s.waiting, r, answers(s.calls));
    var m := Choose(cfg, s.tapping, s.waiting, next, answers(s.calls));
    CallCounts(cfg, m, s.tapping, s.waiting, r, e);
    ApplyStored(cfg, m, s.tapping, s.waiting, r);
  }

  lemma {:induction false} RunCounts(cfg: Config, answers: Answers, inputs: seq<Event>, more: seq<Event>, e: Event)
    requires AllRanked(inputs + more) && e in inputs && IsEvent(e) && !e.pressed
    requires Counted(Run(cfg, answers, inputs), e)
    ensures Counted(Run(cfg, answers, inputs + more), e)
    decreases |more|
  {
    hide Run, Process, Deliver, Counted, Ranked;
    if more == [] {
      assert inputs + more == inputs;
    } else {
      var init, next := more[..|more| - 1], more[|more| - 1];
      var all := inputs + init;
      assert inputs + more == all + [next];
      assert forall i :: 0 <= i < |all| ==> all[i] == (inputs + more)[i] && all[..i] == (inputs + more)[..i];
      RunCounts(cfg, answers, inputs, init, e);
      NotAgain(all, next, e);
      RunOne(cfg, answers, all, next);
      DeliverCounts(cfg, answers, Run(cfg, answers, all), next, e);
      ProcessIsDrain(cfg, answers, Run(cfg, answers, all), next);
      DrainCounts(cfg, answers, Deliver(cfg, answers, Run(cfg, answers, all), next), e);
    }
  }

  lemma ProcessIsDrain(cfg: Config, answers: Answers, s: State, e: Event)
    ensures Process(cfg, answers, s, e) == Drain(cfg, answers, Deliver(cfg, answers, s, e))
  {}

  lemma NotAgain(before: seq<Event>, next: Event, e: Event)
    requires AllRanked(before + [next]) && e in before && IsEvent(e)
    ensures next != e
  {
    var i :| 0 <= i < |before| && before[i] == e;
    var all := before + [next];
    assert all[i] == e && all[|before|] == next && Ranked(all[..i], all[i]) && Ranked(all[..|before|], all[|before|]);
    RankPasses(all, i, |before|);
  }

  /** The release that was taken carries count 1 from then on: in every continuation whatsoever in which its own
      press is processed with count 0, and it is processed too, the two disagree. */
  lemma TakenReleaseDisagrees(cfg: Config, answers: Answers, inputs: seq<Event>, e: Event, more: seq<Event>,
      press: Event)
    requires AllRanked(inputs + [e] + more) && IsEvent(e) && !e.pressed
    requires MoveFor(cfg, answers, Run(cfg, answers, inputs), e) == FirstTap
    requires press.key == e.key && press.pressed && e.rank == press.rank + 1
    requires var out := Run(cfg, answers, inputs + [e] + more).out; ProcessedWith(out, press, 0) && Processed(out, e)
    ensures !PairAgrees(e.key, Run(cfg, answers, inputs + [e] + more).out, press.rank)
  {
    hide Run, Process, Deliver, Drain, AllRanked, MoveFor, Excused;
    var s0 := Run(cfg, answers, inputs);
    NotReceivedYet(cfg, answers, inputs, e, more);
    DeliverTaken(cfg, answers, s0, e);
    ProcessIsDrain(cfg, answers, s0, e);
    DrainCounts(cfg, answers, Deliver(cfg, answers, s0, e), e);
    RunOne(cfg, answers, inputs, e);
    RunCounts(cfg, answers, inputs + [e], more, e);
    var out := Run(cfg, answers, inputs + [e] + more).out;
    AllIsWellFormed(cfg, answers, inputs + [e] + more);
    var x :| 0 <= x < |out| && out[x].Real? && out[x].record.event == press && out[x].record.tap.count == 0;
    var y :| 0 <= y < |out| && out[y].Real? && out[y].record.event == e;
    assert IsReal(out[x], e.key) && IsReal(out[y], e.key) && IsOf(out[y], e);
    NoZeroExcuse(out, e.key, x, y);
  }

  lemma NoZeroExcuse(out: seq<Emission>, k: Key, x: nat, y: nat)
    requires AllEmitted(out)
    ensures !Excused(out, k, 0, x, y)
  {}

  lemma NotReceivedYet(cfg: Config, answers: Answers, inputs: seq<Event>, e: Event, more: seq<Event>)
    requires AllRanked(inputs + [e] + more) && IsEvent(e)
    ensures var s := Run(cfg, answers, inputs); !Processed(s.out, e) && e !in Events(s.waiting)
  {
    hide Run, Ranked;
    var all := inputs + [e] + more;
    assert forall i :: 0 <= i < |inputs| ==> inputs[i] == all[i] && inputs[..i] == all[..i];
    assert all[..|inputs|] == inputs && all[|inputs|] == e;
    OnePlace(cfg, answers, inputs, e);
    if e in inputs {
      var i :| 0 <= i < |inputs| && inputs[i] == e;
      RankPasses(all, i, |inputs|);
      SameRank(all, i, |inputs|);
    }
  }

  lemma SameRank(all: seq<Event>, i: nat, j: nat)
    requires AllRanked(all) && i < |all| && j < |all| && all[i] == all[j] && IsEvent(all[i])
    ensures RankOf(all[..i], all[i].key) == RankOf(all[..j], all[i].key)
  {
    assert Ranked(all[..i], all[i]) && Ranked(all[..j], all[j]);
  }

  lemma DeliverTaken(cfg: Config, answers: Answers, s: State, e: Event)
    requires MoveFor(cfg, answers, s, e) == FirstTap && !Processed(s.out, e) && e !in Events(s.waiting) && !e.pressed
    ensures Counted(Deliver(cfg, answers, s, e), e)
  {
    forall i | 0 <= i < |s.waiting| ensures s.waiting[i].event != e {
      assert Events(s.waiting)[i] == s.waiting[i].event;
    }
    assert s.tapping.event.pressed;
  }
}
