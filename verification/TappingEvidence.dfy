/** A press processed as a first tap was released within its term, by its own release: for runs whose clock does
    not wrap round onto stored events. */
module TappingEvidence {
  import opened TappingModel
  import opened TappingRuns
  import opened TappingVerdict
  import opened TappingOutOfTurn

  /** Events of one key come at increasing times. */
  predicate Increasing(inputs: seq<Event>) {
    forall i, j :: 0 <= i < j < |inputs| && IsEvent(inputs[i]) && IsEvent(inputs[j]) && inputs[i].key == inputs[j].key
      ==> inputs[i].time < inputs[j].time
  }

  /** The distance of the two times and the tapping term together fit in sixteen bits. */
  predicate Close(cfg: Config, a: Event, b: Event) {
    a.time - b.time + cfg.term(a.key) <= 0x1_0000 && b.time - a.time + cfg.term(a.key) <= 0x1_0000
  }

  /** The pressed tapping key and the waiting events. */
  function Stored(s: State): seq<Event> {
    (if IsEvent(s.tapping.event) && s.tapping.event.pressed then [s.tapping.event] else []) + Events(s.waiting)
  }

  /** Every event is close to the events of its key that are stored when it is delivered. */
  predicate Unwrapped(cfg: Config, answers: Answers, inputs: seq<Event>) {
    inputs == [] ||
    (var before, e := inputs[..|inputs| - 1], inputs[|inputs| - 1];
     && Unwrapped(cfg, answers, before)
     && (IsEvent(e) ==>
          (forall x :: x in Stored(Run(cfg, answers, before)) && x.key == e.key ==> Close(cfg, x, e)) &&
            Close(cfg, e, e)))
  }

  predicate AllClose(cfg: Config, es: seq<Event>) {
    forall a, b :: a in es && b in es && a.key == b.key ==> Close(cfg, a, b)
  }

  /** The release that belongs to the press was received within the term. */
  predicate OwnReleaseInTerm(cfg: Config, p: Event, received: seq<Event>) {
    exists i :: 0 <= i < |received| && IsEvent(received[i]) && received[i].key == p.key &&
      received[i].rank == p.rank + 1
                && !received[i].pressed && p.time < received[i].time < p.time + cfg.term(p.key)
  }

  predicate OwnEvidence(cfg: Config, out: seq<Emission>, received: seq<Event>) {
    forall x :: 0 <= x < |out| && out[x].Real? && out[x].record.event.pressed && out[x].record.tap.count == 1
                ==> OwnReleaseInTerm(cfg, out[x].record.event, received)
  }

  // ---------------------------------------------------------------- ranks and times

  /** Every rank below the number of events of a key was received. */
  lemma {:induction false} RankFound(inputs: seq<Event>, k: Key, r: nat) returns (i: nat)
    requires AllRanked(inputs) && r < RankOf(inputs, k)
    ensures i < |inputs| && IsEvent(inputs[i]) && inputs[i].key == k && inputs[i].rank == r
  {
    var before, e := inputs[..|inputs| - 1], inputs[|inputs| - 1];
    if IsEvent(e) && e.key == k && RankOf(before, k) == r {
      i := |inputs| - 1;
    } else {
      assert forall j :: 0 <= j < |before| ==> before[j] == inputs[j] && before[..j] == inputs[..j];
      i := RankFound(before, k, r);
    }
  }

  lemma TimesByRank(inputs: seq<Event>, a: Event, b: Event)
    requires AllRanked(inputs) && Increasing(inputs) && a in inputs && b in inputs && IsEvent(a) && IsEvent(b)
    requires a.key == b.key && a.rank < b.rank
    ensures a.time < b.time && b.rank < RankOf(inputs, b.key)
  {
    var i :| 0 <= i < |inputs| && inputs[i] == a;
    var j :| 0 <= j < |inputs| && inputs[j] == b;
    if j < i { RankPasses(inputs, j, i); }
    RankPasses(inputs, j, |inputs|);
    assert inputs[..|inputs|] == inputs;
  }

  /** A release of the key within the term is received after the press, and then so is the press's own. */
  lemma CandidateProves(cfg: Config, inputs: seq<Event>, p: Event, c: Event)
    requires AllRanked(inputs) && Increasing(inputs) && p in inputs && c in inputs && IsEvent(p) && IsEvent(c)
    requires p.key == c.key && p.pressed && !c.pressed && Close(cfg, p, c)
    requires Diff16(c.time, p.time) < cfg.term(p.key)
    ensures OwnReleaseInTerm(cfg, p, inputs)
  {
    ParityOf(inputs, p);
    ParityOf(inputs, c);
    if c.rank < p.rank {
      TimesByRank(inputs, c, p);
      assert false;
    }
    TimesByRank(inputs, p, c);
    assert Diff16(c.time, p.time) == c.time - p.time;
    var i := RankFound(inputs, p.key, p.rank + 1);
    ParityOf(inputs, inputs[i]);
    TimesByRank(inputs, p, inputs[i]);
    if inputs[i].rank < c.rank { TimesByRank(inputs, inputs[i], c); } else { RankIdentifies(inputs, inputs[i], c); }
  }

  // ---------------------------------------------------------------- one call

  /** Tapping key, record in hand and other waiting records: received, and close where of one key. */
  predicate Known(cfg: Config, t: Record, rest: seq<Record>, r: Event, received: seq<Event>) {
    && (IsEvent(t.event) && t.event.pressed ==> t.event in received)
    && (forall x :: x in Events(rest) ==> x in received && IsEvent(x))
    && r in received
    && AllClose(cfg, (if IsEvent(t.event) && t.event.pressed then [t.event] else []) +
      (if IsEvent(r) then [r] else []) + Events(rest))
  }

  /** Whatever a call processes as a first tap has its own release as evidence. */
  lemma CallProves(cfg: Config, t: Record, rest: seq<Record>, r: Record, a: Answer, received: seq<Event>)
    requires AllRanked(received) && Increasing(received) && Known(cfg, t, rest, r.event, received)
    requires IsEvent(r.event) ==> Buffered(r)
    ensures OwnEvidence(cfg, ProcessTapping(cfg, t, rest, r, a).out, received)
  {
    var m := Choose(cfg, t, rest, r.event, a);
    ChooseGuard(cfg, t, rest, r, a);
    if m.FirstTap? {
      CandidateProves(cfg, received, t.event, r.event);
    } else if m.Start? || m.StartReleasing? {
      ScanProves(cfg, t, rest, r, received);
    }
  }

  lemma ScanProves(cfg: Config, t: Record, rest: seq<Record>, r: Record, received: seq<Event>)
    requires AllRanked(received) && Increasing(received) && Known(cfg, t, rest, r.event, received)
    requires IsEvent(r.event) && r.event.pressed
    ensures OwnEvidence(cfg, Scan(cfg, r, rest).out, received)
  {
    var i := FirstCandidate(cfg, r, rest);
    if i < |rest| && r.tap.count == 0 {
      assert Events(rest)[i] == rest[i].event;
      CandidateProves(cfg, received, r.event, rest[i].event);
    }
  }

  // ---------------------------------------------------------------- whole runs

  /** What is stored was received and is close. */
  predicate StoredKnown(cfg: Config, s: State, received: seq<Event>) {
    && (forall x :: x in Stored(s) ==> x in received && IsEvent(x))
    && AllClose(cfg, Stored(s))
  }

  lemma KnownFront(cfg: Config, s: State, received: seq<Event>)
    requires s.waiting != [] && StoredKnown(cfg, s, received)
    ensures Known(cfg, s.tapping, s.waiting[1..], s.waiting[0].event, received)
  {
    var front, rest := s.waiting[0], s.waiting[1..];
    assert Events(s.waiting)[0] == front.event;
    assert forall i :: 0 <= i < |rest| ==> Events(rest)[i] == Events(s.waiting)[i + 1];
  }

  /** After a call nothing is stored that was not stored before or in hand. */
  lemma CallStores(cfg: Config, t: Record, rest: seq<Record>, r: Record, a: Answer)
    ensures var o := ProcessTapping(cfg, t, rest, r, a);
            && Events(o.rest) == Events(rest) && o.record.event == r.event
            && (IsEvent(o.tapping.event) && o.tapping.event.pressed ==>
                 (o.tapping.event == t.event && IsEvent(t.event) && t.event.pressed) ||
                   (o.tapping.event == r.event && IsEvent(r.event)))
  {
    ApplyStored(cfg, Choose(cfg, t, rest, r.event, a), t, rest, r);
  }

  lemma FewerKnown(cfg: Config, s: State, s': State, received: seq<Event>)
    requires StoredKnown(cfg, s, received) && forall x :: x in Stored(s') ==> x in Stored(s)
    ensures StoredKnown(cfg, s', received)
  {}

  lemma FrontKnown(cfg: Config, answers: Answers, s: State, received: seq<Event>)
    requires s.waiting != [] && StoredKnown(cfg, s, received)
    ensures StoredKnown(cfg, PutBack(s, FrontOutcome(cfg, answers, s)), received)
  {
    var front, rest := s.waiting[0], s.waiting[1..];
    var o := FrontOutcome(cfg, answers, s);
    CallStores(cfg, s.tapping, rest, front, answers(s.calls));
    assert Events(s.waiting)[0] == front.event;
    assert forall i :: 0 <= i < |rest| ==> Events(rest)[i] == Events(s.waiting)[i + 1];
    var s' := PutBack(s, o);
    EventsAppend([o.record], o.rest);
    assert Events([o.record]) == [front.event];
    assert front.event in Stored(s);
    forall x | x in Events(rest) ensures x in Stored(s) {
      assert x in Events(s.waiting);
    }
    FewerKnown(cfg, s, s', received);
  }

  lemma {:induction false} DrainProves(cfg: Config, answers: Answers, s: State, received: seq<Event>)
    requires AllRanked(received) && Increasing(received) && WellFormed(s)
    requires StoredKnown(cfg, s, received) && OwnEvidence(cfg, s.out, received)
    ensures var s' := Drain(cfg, answers, s); StoredKnown(cfg, s', received) && OwnEvidence(cfg, s'.out, received)
    decreases |s.waiting|
  {
    hide StoredKnown, AllRanked, Increasing, ProcessTapping, OwnReleaseInTerm, Known;
    if s.waiting != [] {
      var o := FrontOutcome(cfg, answers, s);
      FrontBuffered(s);
      KnownFront(cfg, s, received);
      CallProves(cfg, s.tapping, s.waiting[1..], s.waiting[0], answers(s.calls), received);
      FrontKnown(cfg, answers, s, received);
      FrontWellFormed(cfg, answers, s);
      if o.consumed { DrainProves(cfg, answers, PutBack(s, o), received); }
    }
  }

  lemma FrontBuffered(s: State)
    requires WellFormed(s) && s.waiting != []
    ensures Buffered(s.waiting[0])
  {}

  /** The delivered event joins what is stored. */
  lemma KnownNew(cfg: Config, s: State, e: Event, received: seq<Event>)
    requires StoredKnown(cfg, s, received) && e in received
    requires IsEvent(e) ==> Close(cfg, e, e) && forall x :: x in Stored(s) && x.key == e.key ==> Close(cfg, x, e)
    ensures Known(cfg, s.tapping, s.waiting, e, received)
  {}

  lemma OwnEvidenceGrows(cfg: Config, out: seq<Emission>, more: seq<Emission>, received: seq<Event>)
    requires OwnEvidence(cfg, out, received) && OwnEvidence(cfg, more, received)
    ensures OwnEvidence(cfg, out + more, received)
  {
    hide OwnReleaseInTerm;
  }

  function StoredWith(s: State, e: Event): seq<Event> {
    Stored(s) + (if IsEvent(e) then [e] else [])
  }

  lemma LandStores(s: State, e: Event, o: Outcome)
    requires Events(o.rest) == Events(s.waiting) && o.record.event == e
    requires IsEvent(o.tapping.event) && o.tapping.event.pressed ==>
               (o.tapping.event == s.tapping.event && IsEvent(s.tapping.event)) || (o.tapping.event == e && IsEvent(e))
    ensures forall x :: x in Stored(Land(s, e, o)) ==> x in StoredWith(s, e)
  {
    EventsAppend(o.rest, [o.record]);
    assert Events([o.record]) == [e];
  }

  lemma DeliverStores(cfg: Config, answers: Answers, s: State, e: Event, received: seq<Event>)
    requires StoredKnown(cfg, s, received) && Known(cfg, s.tapping, s.waiting, e, received)
    ensures StoredKnown(cfg, Deliver(cfg, answers, s, e), received)
  {
    hide ProcessTapping, Close;
    var r := Record(e, NO_TAP);
    CallStores(cfg, s.tapping, s.waiting, r, answers(s.calls));
    assert AllClose(cfg, StoredWith(s, e));
    hide Known, Land;
    LandStores(s, e, ProcessTapping(cfg, s.tapping, s.waiting, r, answers(s.calls)));
  }

  lemma DeliverProves(cfg: Config, answers: Answers, s: State, e: Event, received: seq<Event>)
    requires AllRanked(received) && Increasing(received) && e in received
    requires StoredKnown(cfg, s, received) && OwnEvidence(cfg, s.out, received)
    requires IsEvent(e) ==> Close(cfg, e, e) && forall x :: x in Stored(s) && x.key == e.key ==> Close(cfg, x, e)
    ensures var s' := Deliver(cfg, answers, s, e); StoredKnown(cfg, s', received) && OwnEvidence(cfg, s'.out, received)
  {
    hide ProcessTapping, OwnEvidence, Close, AllRanked, Increasing;
    var r := Record(e, NO_TAP);
    KnownNew(cfg, s, e, received);
    DeliverStores(cfg, answers, s, e, received);
    hide StoredKnown, Known;
    CallProves(cfg, s.tapping, s.waiting, r, answers(s.calls), received);
    OwnEvidenceGrows(cfg, s.out, ProcessTapping(cfg, s.tapping, s.waiting, r, answers(s.calls)).out, received);
  }

  lemma EvidenceStays(cfg: Config, out: seq<Emission>, before: seq<Event>, e: Event)
    requires OwnEvidence(cfg, out, before)
    ensures OwnEvidence(cfg, out, before + [e])
  {
    forall x | 0 <= x < |out| && out[x].Real? && out[x].record.event.pressed && out[x].record.tap.count == 1
      ensures OwnReleaseInTerm(cfg, out[x].record.event, before + [e])
    {
      var p := out[x].record.event;
      var i :| 0 <= i < |before| && IsEvent(before[i]) && before[i].key == p.key && before[i].rank == p.rank + 1
               && !before[i].pressed && p.time < before[i].time < p.time + cfg.term(p.key);
      assert (before + [e])[i] == before[i];
    }
  }

  /** Over every ranked run with increasing times that does not wrap round onto stored events, a press is
      processed as a first tap only if its own release was received within its tapping term. */
  lemma {:induction false} TapsByOwnRelease(cfg: Config, answers: Answers, inputs: seq<Event>)
    requires AllRanked(inputs) && Increasing(inputs) && Unwrapped(cfg, answers, inputs)
    ensures OwnEvidence(cfg, Run(cfg, answers, inputs).out, inputs)
    ensures StoredKnown(cfg, Run(cfg, answers, inputs), inputs)
  {
    if inputs != [] {
      hide OwnReleaseInTerm, OwnEvidence, StoredKnown, WellFormed, Close, Process, Deliver, Drain, AllRanked,
        Increasing;
      var before, e := inputs[..|inputs| - 1], inputs[|inputs| - 1];
      assert inputs == before + [e];
      Prefixes(before, e);
      TapsByOwnRelease(cfg, answers, before);
      var s := Run(cfg, answers, before);
      EvidenceStays(cfg, s.out, before, e);
      ReachableWellFormed(cfg, answers, before);
      DeliverProves(cfg, answers, s, e, inputs);
      DeliverWellFormed(cfg, answers, s, e);
      DrainProves(cfg, answers, Deliver(cfg, answers, s, e), inputs);
      assert Process(cfg, answers, s, e) == Drain(cfg, answers, Deliver(cfg, answers, s, e)) by {
        ProcessUnfolds(cfg, answers, s, e);
      }
    }
  }

  lemma ProcessUnfolds(cfg: Config, answers: Answers, s: State, e: Event)
    ensures Process(cfg, answers, s, e) == Drain(cfg, answers, Deliver(cfg, answers, s, e))
  {}

  lemma Prefixes(before: seq<Event>, e: Event)
    requires AllRanked(before + [e]) && Increasing(before + [e])
    ensures AllRanked(before) && Increasing(before)
  {
    var all := before + [e];
    assert forall i :: 0 <= i < |before| ==> before[i] == all[i] && before[..i] == all[..i];
  }
}
