/** What follows when a release is delivered while events of its key wait and it is not in turn: it is processed at
    once or taken for the release of the tapping key. If it is processed at once while its press waits, the two
    disagree exactly if the press is processed at all. */
module TappingOutOfTurn {
  import opened TappingModel
  import opened TappingRuns
  import opened TappingVerdict

  // ---------------------------------------------------------------- pairs

  /** Verdict agreement for the press of rank `p` of a key and the release that follows it. */
  predicate PairAgrees(k: Key, out: seq<Emission>, p: nat) {
    forall x, y ::
      && 0 <= x < |out| && 0 <= y < |out|
      && IsReal(out[x], k) && IsReal(out[y], k)
      && out[x].record.event.pressed && out[x].record.event.rank == p
      && out[y].record.event.rank == p + 1
      ==> (x < y && (out[y].record.tap.count == out[x].record.tap.count
                     || Excused(out, k, out[x].record.tap.count, x, y)))
  }

  lemma AgreeIsAllPairs(k: Key, out: seq<Emission>)
    ensures Agree(k, out) <==> forall p: nat :: PairAgrees(k, out, p)
  {
    if forall p: nat :: PairAgrees(k, out, p) {
      forall x, y | 0 <= x < |out| && 0 <= y < |out| && IsPair(k, out[x], out[y])
        ensures x < y && (out[y].record.tap.count == out[x].record.tap.count ||
                Excused(out, k, out[x].record.tap.count, x, y))
      {
        assert PairAgrees(k, out, out[x].record.event.rank);
      }
    }
  }

  // ---------------------------------------------------------------- events have one place

  predicate AllRanked(inputs: seq<Event>) {
    forall i :: 0 <= i < |inputs| ==> Ranked(inputs[..i], inputs[i])
  }

  predicate Processed(out: seq<Emission>, e: Event) {
    exists x :: 0 <= x < |out| && out[x].Real? && out[x].record.event == e
  }

  /** Undecided, waiting, or dropped by an overflow. */
  predicate Unprocessed(s: State, e: Event) {
    e in Owed(s.tapping) || e in Events(s.waiting) || e in s.lost
  }

  lemma {:induction false} RankGrows(inputs: seq<Event>, i: nat, j: nat, k: Key)
    requires i <= j <= |inputs|
    ensures RankOf(inputs[..i], k) <= RankOf(inputs[..j], k)
    decreases j
  {
    if i < j {
      assert inputs[..j][..j - 1] == inputs[..j - 1];
      RankGrows(inputs, i, j - 1, k);
    }
  }

  lemma RankPasses(inputs: seq<Event>, i: nat, j: nat)
    requires i < j <= |inputs| && IsEvent(inputs[i])
    ensures RankOf(inputs[..i], inputs[i].key) < RankOf(inputs[..j], inputs[i].key)
  {
    assert inputs[..i + 1][..i] == inputs[..i];
    RankGrows(inputs, i + 1, j, inputs[i].key);
  }

  /** Two events of a key have different ranks. */
  lemma RankIdentifies(inputs: seq<Event>, a: Event, b: Event)
    requires AllRanked(inputs) && a in inputs && b in inputs && IsEvent(a) && IsEvent(b)
    requires a.key == b.key && a.rank == b.rank
    ensures a == b
  {
    var i :| 0 <= i < |inputs| && inputs[i] == a;
    var j :| 0 <= j < |inputs| && inputs[j] == b;
    if i < j { RankPasses(inputs, i, j); }
    if j < i { RankPasses(inputs, j, i); }
  }

  lemma {:induction false} CountIn(es: seq<Event>, x: Event)
    ensures Count(es, x) > 0 <==> x in es
  {
    CountIsMultiplicity(es, x);
  }

  lemma {:induction false} KeyEventsIn(inputs: seq<Event>, x: Event)
    ensures x in KeyEvents(inputs) <==> x in inputs && IsEvent(x)
  {
    if inputs != [] {
      KeyEventsIn(inputs[..|inputs| - 1], x);
      assert inputs == inputs[..|inputs| - 1] + [inputs[|inputs| - 1]];
    }
  }

  /** Every event is received once. */
  lemma {:induction false} ReceivedOnce(inputs: seq<Event>, x: Event)
    requires AllRanked(inputs)
    ensures Count(KeyEvents(inputs), x) <= 1
  {
    if inputs != [] {
      var before, e := inputs[..|inputs| - 1], inputs[|inputs| - 1];
      assert forall i :: 0 <= i < |before| ==> before[..i] == inputs[..i];
      ReceivedOnce(before, x);
      KeyEventsLast(inputs, x);
      CountOne(e, x);
      CountIn(KeyEvents(before), x);
      KeyEventsIn(before, x);
      if x == e && IsEvent(e) && x in before {
        var i :| 0 <= i < |before| && before[i] == x;
        assert inputs[i] == x;
        RankPasses(inputs, i, |before|);
      }
    }
  }

  lemma CountOne(e: Event, x: Event)
    ensures Count([e], x) == if e == x then 1 else 0
  {
    assert [e][..0] == [];
  }

  /** Two positions of the trace with the same event count twice. */
  lemma {:induction false} RealCount(out: seq<Emission>, x: nat, y: nat, e: Event)
    requires x <= y < |out| && out[x].Real? && out[x].record.event == e && out[y].Real? && out[y].record.event == e
    ensures Count(RealEvents(out), e) >= if x < y then 2 else 1
    decreases |out|
  {
    var before, m := out[..|out| - 1], out[|out| - 1];
    var last := if m.Real? then [m.record.event] else [];
    CountAppend(RealEvents(before), last, e);
    if m.Real? { CountOne(m.record.event, e); }
    if y < |out| - 1 {
      RealCount(before, x, y, e);
    } else if x < y {
      RealCount(before, x, x, e);
    }
  }

  lemma {:induction false} RealEventsIn(out: seq<Emission>, e: Event)
    ensures e in RealEvents(out) <==> Processed(out, e)
  {
    if out != [] {
      var before := out[..|out| - 1];
      RealEventsIn(before, e);
      assert out == before + [out[|out| - 1]];
      if Processed(before, e) {
        var x :| 0 <= x < |before| && before[x].Real? && before[x].record.event == e;
        assert out[x] == before[x];
      }
    }
  }

  /** In a ranked run every received event is either processed, once, or unprocessed. */
  lemma OnePlace(cfg: Config, answers: Answers, inputs: seq<Event>, e: Event)
    requires AllRanked(inputs)
    ensures var s := Run(cfg, answers, inputs);
            && !(Processed(s.out, e) && Unprocessed(s, e))
            && (e in inputs && IsEvent(e) <==> Processed(s.out, e) || Unprocessed(s, e))
  {
    var s := Run(cfg, answers, inputs);
    RunBalance(cfg, answers, inputs, e);
    ReceivedOnce(inputs, e);
    CountIn(KeyEvents(inputs), e);
    KeyEventsIn(inputs, e);
    CountIn(RealEvents(s.out), e);
    RealEventsIn(s.out, e);
    CountIn(Owed(s.tapping), e);
    CountIn(Events(s.waiting), e);
    CountIn(s.lost, e);
  }

  lemma OneIndex(cfg: Config, answers: Answers, inputs: seq<Event>, x: nat, y: nat)
    requires AllRanked(inputs)
    requires var out := Run(cfg, answers, inputs).out;
             x < |out| && y < |out| && out[x].Real? && out[y].Real? && out[x].record.event == out[y].record.event
    ensures x == y
  {
    var s := Run(cfg, answers, inputs);
    var e := s.out[x].record.event;
    RunBalance(cfg, answers, inputs, e);
    ReceivedOnce(inputs, e);
    if x < y { RealCount(s.out, x, y, e); }
    if y < x { RealCount(s.out, y, x, e); }
  }

  /** A processed event of a key and a rank is the received one. */
  lemma ProcessedIs(cfg: Config, answers: Answers, inputs: seq<Event>, x: nat, e: Event)
    requires AllRanked(inputs) && e in inputs && IsEvent(e)
    requires var out := Run(cfg, answers, inputs).out;
             x < |out| && IsReal(out[x], e.key) && out[x].record.event.rank == e.rank
    ensures Run(cfg, answers, inputs).out[x].record.event == e
  {
    var got := Run(cfg, answers, inputs).out[x].record.event;
    assert Processed(Run(cfg, answers, inputs).out, got);
    OnePlace(cfg, answers, inputs, got);
    RankIdentifies(inputs, got, e);
  }

  // ---------------------------------------------------------------- the trace only grows

  lemma {:induction false} DrainGrows(cfg: Config, answers: Answers, s: State)
    ensures s.out <= Drain(cfg, answers, s).out && s.lost <= Drain(cfg, answers, s).lost
    decreases |s.waiting|
  {
    hide ProcessTapping;
    if s.waiting != [] {
      var o := FrontOutcome(cfg, answers, s);
      if o.consumed { DrainGrows(cfg, answers, PutBack(s, o)); }
    }
  }

  lemma ProcessGrows(cfg: Config, answers: Answers, s: State, e: Event)
    ensures s.out <= Deliver(cfg, answers, s, e).out <= Process(cfg, answers, s, e).out
    ensures s.lost <= Deliver(cfg, answers, s, e).lost <= Process(cfg, answers, s, e).lost
  {
    DrainGrows(cfg, answers, Deliver(cfg, answers, s, e));
  }

  lemma RunOne(cfg: Config, answers: Answers, inputs: seq<Event>, e: Event)
    ensures Run(cfg, answers, inputs + [e]) == Process(cfg, answers, Run(cfg, answers, inputs), e)
  {
    assert (inputs + [e])[..|inputs|] == inputs;
  }

  lemma {:induction false} RunGrows(cfg: Config, answers: Answers, inputs: seq<Event>, more: seq<Event>)
    ensures Run(cfg, answers, inputs).out <= Run(cfg, answers, inputs + more).out
    ensures Run(cfg, answers, inputs).lost <= Run(cfg, answers, inputs + more).lost
    decreases |more|
  {
    hide Run, Process;
    if more == [] {
      assert inputs + more == inputs;
    } else {
      var init, e := more[..|more| - 1], more[|more| - 1];
      assert inputs + more == inputs + init + [e];
      RunGrows(cfg, answers, inputs, init);
      RunOne(cfg, answers, inputs + init, e);
      ProcessGrows(cfg, answers, Run(cfg, answers, inputs + init), e);
    }
  }

  // ---------------------------------------------------------------- a release that is processed at once

  /** The move made for a delivered event. */
  function MoveFor(cfg: Config, answers: Answers, s: State, e: Event): Move {
    Choose(cfg, s.tapping, s.waiting, e, answers(s.calls))
  }

  /** A release that is not in turn is processed at once or taken for the release of the tapping key. */
  lemma ReleaseOutOfTurn(cfg: Config, answers: Answers, s: State, e: Event)
    requires IsEvent(e) && !e.pressed && !InTurn(cfg, s, e)
    ensures MoveFor(cfg, answers, s, e) in {Pass, TapRelease, LastRelease, FirstTap}
  {}

  lemma PassesAtOnce(cfg: Config, answers: Answers, s: State, e: Event)
    requires IsEvent(e) && MoveFor(cfg, answers, s, e) in {Pass, TapRelease, LastRelease}
    ensures var out := Deliver(cfg, answers, s, e).out;
            |out| == |s.out| + 1 && out[|s.out|].Real? && out[|s.out|].record.event == e
  {}

  /** A pair whose release stands before any position of its press. */
  lemma ReleaseFirst(k: Key, out: seq<Emission>, y: nat, press: Event)
    requires y < |out| && IsReal(out[y], k) && out[y].record.event.rank == press.rank + 1
    requires press.key == k && press.pressed
    requires forall x :: 0 <= x < y && IsReal(out[x], k) ==> out[x].record.event.rank != press.rank
    requires forall x :: 0 <= x < |out| && IsReal(out[x], k) && out[x].record.event.rank == press.rank ==>
             out[x].record.event == press
    ensures !PairAgrees(k, out, press.rank) <==> Processed(out, press)
  {
    if Processed(out, press) {
      var x :| 0 <= x < |out| && out[x].Real? && out[x].record.event == press;
      assert IsReal(out[x], k) && x > y;
    }
  }

  /** The trace and the events of a continuation after event `e` was delivered in state `s0`. */
  lemma Continued(cfg: Config, answers: Answers, inputs: seq<Event>, e: Event, more: seq<Event>)
    ensures var s0 := Run(cfg, answers, inputs);
            && s0.out <= Deliver(cfg, answers, s0, e).out <= Process(cfg, answers, s0, e).out
            && Process(cfg, answers, s0, e) == Run(cfg, answers, inputs + [e])
            && Run(cfg, answers, inputs + [e]).out <= Run(cfg, answers, inputs + [e] + more).out
  {
    hide Run, Deliver, Process;
    RunOne(cfg, answers, inputs, e);
    ProcessGrows(cfg, answers, Run(cfg, answers, inputs), e);
    RunGrows(cfg, answers, inputs + [e], more);
  }

  lemma RankNow(inputs: seq<Event>, e: Event, more: seq<Event>)
    requires AllRanked(inputs + [e] + more)
    ensures Ranked(inputs, e)
  {
    var all := inputs + [e] + more;
    assert all[..|inputs|] == inputs && all[|inputs|] == e;
  }

  /** In every ranked run: a release that is processed while its press waits disagrees with it in every
      continuation in which the press is processed, and in no other: those in which it still waits, is
      undecided, or was dropped. */
  lemma ProcessedReleaseIff(cfg: Config, answers: Answers, inputs: seq<Event>, e: Event, more: seq<Event>, press: Event)
    requires AllRanked(inputs + [e] + more) && IsEvent(e) && !e.pressed
    requires press in Events(Run(cfg, answers, inputs).waiting) && press.key == e.key && press.rank + 1 == e.rank
    requires MoveFor(cfg, answers, Run(cfg, answers, inputs), e) in {Pass, TapRelease, LastRelease}
    ensures var s := Run(cfg, answers, inputs + [e] + more);
            && (!PairAgrees(e.key, s.out, press.rank) <==> Processed(s.out, press))
            && (Processed(s.out, press) <==> !Unprocessed(s, press))
  {
    hide Run, Deliver, Process, MoveFor, PairAgrees, Processed, Unprocessed, AllRanked;
    var all := inputs + [e] + more;
    assert all == inputs + ([e] + more);
    var s0, out := Run(cfg, answers, inputs), Run(cfg, answers, all).out;
    var k := e.key;
    PressReceived(cfg, answers, inputs, [e] + more, press);
    ParityOf(all, press);
    ParityOf(all, e);
    PassesAtOnce(cfg, answers, s0, e);
    Continued(cfg, answers, inputs, e, more);
    OnePlace(cfg, answers, all, press);
    var y := |s0.out|;
    assert out[y] == Deliver(cfg, answers, s0, e).out[y];
    forall x | 0 <= x < |out| && IsReal(out[x], k) && out[x].record.event.rank == press.rank
      ensures out[x].record.event == press && x >= y
    {
      ProcessedIs(cfg, answers, all, x, press);
      NotProcessedYet(cfg, answers, inputs, [e] + more, press, x);
    }
    ReleaseFirst(k, out, y, press);
  }

  /** An event that waits stands nowhere in the trace. */
  lemma NotProcessedYet(cfg: Config, answers: Answers, inputs: seq<Event>, more: seq<Event>, e: Event, x: nat)
    requires AllRanked(inputs + more) && e in Events(Run(cfg, answers, inputs).waiting)
    requires var out := Run(cfg, answers, inputs + more).out; x < |out| && out[x].Real? && out[x].record.event == e
    ensures x >= |Run(cfg, answers, inputs).out|
  {
    hide Run, Ranked;
    assert forall i :: 0 <= i < |inputs| ==> inputs[i] == (inputs + more)[i] && inputs[..i] == (inputs + more)[..i];
    OnePlace(cfg, answers, inputs, e);
    RunGrows(cfg, answers, inputs, more);
    var s, out := Run(cfg, answers, inputs), Run(cfg, answers, inputs + more).out;
    assert !Processed(s.out, e);
    assert forall z :: 0 <= z < |s.out| ==> out[z] == s.out[z];
  }

  /** Presses have even ranks. */
  lemma ParityOf(inputs: seq<Event>, e: Event)
    requires AllRanked(inputs) && e in inputs && IsEvent(e)
    ensures e.pressed <==> e.rank % 2 == 0
  {
    var i :| 0 <= i < |inputs| && inputs[i] == e;
    assert Ranked(inputs[..i], inputs[i]);
  }

  lemma PressReceived(cfg: Config, answers: Answers, inputs: seq<Event>, more: seq<Event>, e: Event)
    requires AllRanked(inputs + more) && e in Events(Run(cfg, answers, inputs).waiting)
    ensures e in inputs + more && IsEvent(e)
  {
    assert forall i :: 0 <= i < |inputs| ==> inputs[i] == (inputs + more)[i] && inputs[..i] == (inputs + more)[..i];
    OnePlace(cfg, answers, inputs, e);
  }
}
