/** A release that is processed when it is delivered: in any run with increasing times that does not wrap round
    onto stored events, whatever happened before and happens later, exactly when it disagrees with its press. */
module TappingAtOnce {
  import opened TappingModel
  import opened TappingRuns
  import opened TappingVerdict
  import opened TappingOutOfTurn
  import opened TappingEvidence
  import opened TappingReleases
  import opened TappingWrongRelease

  // ---------------------------------------------------------------- what every run keeps

  /** The events of the key are in order of rank, below the bound. */
  predicate Ordered(k: Key, es: seq<Event>, n: int) {
    && (forall i :: 0 <= i < |es| && es[i].key == k ==> es[i].rank < n)
    && (forall i, j :: 0 <= i < j < |es| && es[i].key == k && es[j].key == k ==> es[i].rank < es[j].rank)
  }

  predicate Later(k: Key, es: seq<Event>, p: int) {
    forall i :: 0 <= i < |es| && es[i].key == k ==> p < es[i].rank
  }

  /** A decided tapping key was processed with its count; if that is above 1, only later events of its key wait. */
  predicate HeldKept(k: Key, t: Record, es: seq<Event>, out: seq<Emission>, n: int) {
    Holds(t, k) ==>
      && t.event.rank < n
      && (t.tap.count > 0 ==> HasTap(out, k, t.event.rank, t.tap.count))
      && (t.tap.count > 1 ==> Later(k, es, t.event.rank))
  }

  /** The press at `x`, the newest event of the key and processed with a count above 1, is still the tapping key or
      was unregistered. */
  predicate LastOk(k: Key, t: Record, out: seq<Emission>, n: int, x: nat)
    requires x < |out|
  {
    var p, c := out[x].record.event, out[x].record.tap.count;
    p.pressed && p.rank == n - 1 && c > 1 ==>
      (Holds(t, k) && t.event.rank == p.rank && t.tap.count == c) || Excused(out, k, c, x, |out|)
  }

  predicate LastKept(k: Key, t: Record, out: seq<Emission>, n: int) {
    forall x :: 0 <= x < |out| && IsReal(out[x], k) ==> out[x].record.event.rank < n && LastOk(k, t, out, n, x)
  }

  predicate Kept(k: Key, t: Record, es: seq<Event>, out: seq<Emission>, n: int) {
    Ordered(k, es, n) && HeldKept(k, t, es, out, n) && LastKept(k, t, out, n)
  }

  // ---------------------------------------------------------------- one call

  /** What a call finds: the record in hand is older than the waiting events of its key if it can become a
      sequential tap. */
  predicate Finds(k: Key, t: Record, rest: seq<Record>, r: Record, n: int) {
    IsEvent(r.event) && r.event.key == k ==>
      && r.event.rank < n
      && (IsEvent(t.event) && !t.event.pressed ==> Later(k, Events(rest), r.event.rank))
  }

  lemma TapsGrow(k: Key, out: seq<Emission>, more: seq<Emission>, p: int, c: nat)
    requires HasTap(out, k, p, c)
    ensures HasTap(out + more, k, p, c)
  {
    var x :| 0 <= x < |out| && IsReal(out[x], k) && out[x].record.event.rank == p && out[x].record.tap.count == c;
    assert (out + more)[x] == out[x];
  }

  lemma NowTap(k: Key, out: seq<Emission>, more: seq<Emission>)
    requires more != [] && IsReal(more[|more| - 1], k)
    ensures var r := more[|more| - 1].record; HasTap(out + more, k, r.event.rank, r.tap.count)
  {
    assert (out + more)[|out + more| - 1] == more[|more| - 1];
  }

  lemma ExcusedStays(k: Key, out: seq<Emission>, more: seq<Emission>, c: nat, x: nat)
    requires Excused(out, k, c, x, |out|)
    ensures Excused(out + more, k, c, x, |out + more|)
  {
    var z :| x < z < |out| && out[z].Synthetic? && out[z].record.event.key == k && out[z].record.tap.count == c;
    assert (out + more)[z] == out[z];
  }

  /** After a call the tapping key is the old one, or the record in hand and then undecided or processed last. */
  lemma TappingAfter(cfg: Config, m: Move, k: Key, t: Record, rest: seq<Record>, r: Record)
    requires Guard(m, t, r) && (IsEvent(r.event) ==> Buffered(r))
    ensures var o := Apply(cfg, m, t, rest, r);
            Holds(o.tapping, k) ==>
              || (Holds(t, k) && o.tapping.event == t.event && o.tapping.tap.count == t.tap.count)
              || (Undecided(t) && o.tapping == WithCount(t, 1) && o.out == [Real(o.tapping)])
              || (o.tapping.event == r.event && IsEvent(r.event) && o.tapping.tap.count == 0)
              || (o.tapping.event == r.event && IsEvent(r.event) && o.out != [] && o.out[|o.out| - 1] == Real(o.tapping)
                  && (o.tapping.tap.count > 1 ==> m.SequentialTap?))
    ensures var o := Apply(cfg, m, t, rest, r);
            !o.consumed && Holds(o.tapping, k) ==> o.tapping.tap.count <= 1
  {}

  lemma CallHeld(cfg: Config, m: Move, k: Key, t: Record, rest: seq<Record>, r: Record, out: seq<Emission>, n: int)
    requires Guard(m, t, r) && (IsEvent(r.event) ==> Buffered(r)) && Finds(k, t, rest, r, n)
    requires HeldKept(k, t, Events(rest), out, n)
    ensures var o := Apply(cfg, m, t, rest, r); HeldKept(k, o.tapping, Events(rest), out + o.out, n)
  {
    hide Apply, HasTap, Later;
    var o := Apply(cfg, m, t, rest, r);
    TappingAfter(cfg, m, k, t, rest, r);
    if Holds(o.tapping, k) && o.tapping.tap.count > 0 {
      if Holds(t, k) && o.tapping.event == t.event && o.tapping.tap.count == t.tap.count {
        TapsGrow(k, out, o.out, t.event.rank, t.tap.count);
      } else {
        NowTap(k, out, o.out);
      }
    }
  }

  /** What a call processes: the undecided tapping key, with a count of at most 1, or the record in hand, as a press
      with a count above 1 only in a sequential tap. */
  lemma OutOfCall(cfg: Config, m: Move, t: Record, rest: seq<Record>, r: Record, z: nat)
    requires Guard(m, t, r) && (IsEvent(r.event) ==> Buffered(r))
    requires z < |Apply(cfg, m, t, rest, r).out| && Apply(cfg, m, t, rest, r).out[z].Real?
    ensures var o := Apply(cfg, m, t, rest, r); var got := o.out[z].record;
            || (got.event == t.event && Undecided(t) && got.tap.count <= 1)
            || (got.event == r.event && IsEvent(r.event) && z == |o.out| - 1
                && (r.event.pressed && got.tap.count > 1 ==> o.tapping == got && Holds(got, r.event.key)))
  {}

  /** A tapping key with a count above 1 stays, is unregistered, or is replaced by a release of its key. */
  lemma LeavesCall(cfg: Config, m: Move, k: Key, t: Record, rest: seq<Record>, r: Record)
    requires Guard(m, t, r) && Holds(t, k) && t.tap.count > 1
    ensures var o := Apply(cfg, m, t, rest, r);
            || (o.tapping.event == t.event && o.tapping.tap.count == t.tap.count)
            || (o.out != [] && o.out[0].Synthetic? && o.out[0].record.event.key == k && o.out[0].record.tap == t.tap)
            || (IsEvent(r.event) && !r.event.pressed && r.event.key == k)
  {}

  lemma CallLast(cfg: Config, m: Move, k: Key, t: Record, rest: seq<Record>, r: Record, out: seq<Emission>, n: int)
    requires Guard(m, t, r) && (IsEvent(r.event) ==> Buffered(r)) && Finds(k, t, rest, r, n)
    requires HeldKept(k, t, Events(rest), out, n) && LastKept(k, t, out, n)
    requires Holds(t, k) && t.tap.count > 1 && IsEvent(r.event) && !r.event.pressed && r.event.key == k ==>
               t.event.rank < n - 1
    ensures var o := Apply(cfg, m, t, rest, r); LastKept(k, o.tapping, out + o.out, n)
  {
    hide Apply, HasTap, Later, Excused;
    var o := Apply(cfg, m, t, rest, r);
    var out' := out + o.out;
    forall x | 0 <= x < |out'| && IsReal(out'[x], k)
      ensures out'[x].record.event.rank < n && LastOk(k, o.tapping, out', n, x)
    {
      if x < |out| {
        assert out'[x] == out[x] && LastOk(k, t, out, n, x);
        var c := out[x].record.tap.count;
        if Excused(out, k, c, x, |out|) {
          ExcusedStays(k, out, o.out, c, x);
        } else if out[x].record.event.pressed && out[x].record.event.rank == n - 1 && c > 1 {
          LeavesCall(cfg, m, k, t, rest, r);
          if o.out != [] && o.out[0].Synthetic? { UnregisteredNow(k, out, o.out, c, x); }
        }
      } else {
        OutOfCall(cfg, m, t, rest, r, x - |out|);
      }
    }
  }

  lemma UnregisteredNow(k: Key, out: seq<Emission>, more: seq<Emission>, c: nat, x: nat)
    requires x < |out| && more != [] && more[0].Synthetic?
    ensures more[0].record.event.key == k && more[0].record.tap.count == c ==>
              Excused(out + more, k, c, x, |out + more|)
  {
    assert (out + more)[|out|] == more[0];
  }

  // ---------------------------------------------------------------- the drain

  predicate KeptIn(k: Key, s: State, n: int) {
    Kept(k, s.tapping, Events(s.waiting), s.out, n)
  }

  lemma OrderedRest(k: Key, front: Event, es: seq<Event>, n: int)
    requires Ordered(k, [front] + es, n)
    ensures Ordered(k, es, n) && (front.key == k ==> front.rank < n && Later(k, es, front.rank))
  {
    var all := [front] + es;
    assert all[0] == front && forall i :: 0 <= i < |es| ==> all[i + 1] == es[i];
  }

  lemma LaterRest(k: Key, front: Event, es: seq<Event>, p: int)
    ensures Later(k, [front] + es, p) <==> Later(k, es, p) && (front.key == k ==> p < front.rank)
  {
    var all := [front] + es;
    assert all[0] == front && forall i :: 0 <= i < |es| ==> all[i + 1] == es[i];
  }

  lemma FrontKeptIn(cfg: Config, m: Move, k: Key, t: Record, rest: seq<Record>, r: Record, out: seq<Emission>, n: int)
    requires Guard(m, t, r) && Buffered(r) && Kept(k, t, [r.event] + Events(rest), out, n)
    ensures var o := Apply(cfg, m, t, rest, r);
            Kept(k, o.tapping, if o.consumed then Events(rest) else [r.event] + Events(rest), out + o.out, n)
  {
    hide HasTap, Apply, LastKept, Guard, Ordered, Later;
    var es := [r.event] + Events(rest);
    var o := Apply(cfg, m, t, rest, r);
    OrderedRest(k, r.event, Events(rest), n);
    LaterRest(k, r.event, Events(rest), t.event.rank);
    CallHeld(cfg, m, k, t, rest, r, out, n);
    CallLast(cfg, m, k, t, rest, r, out, n);
    TappingAfter(cfg, m, k, t, rest, r);
  }

  lemma FrontKept(cfg: Config, answers: Answers, k: Key, s: State, n: int)
    requires WellFormed(s) && s.waiting != [] && KeptIn(k, s, n)
    ensures KeptIn(k, PutBack(s, FrontOutcome(cfg, answers, s)), n)
  {
    hide Kept, Choose, Apply, Guard, TappingOk;
    var front, rest := s.waiting[0], s.waiting[1..];
    var m := Choose(cfg, s.tapping, rest, front.event, answers(s.calls));
    var o := FrontOutcome(cfg, answers, s);
    FrontBuffered(s);
    ChooseGuard(cfg, s.tapping, rest, front, answers(s.calls));
    ApplyStored(cfg, m, s.tapping, rest, front);
    assert Events(s.waiting) == [front.event] + Events(rest) && Events(rest) == Events(o.rest);
    assert Events([o.record] + o.rest) == Events(s.waiting);
    FrontKeptIn(cfg, m, k, s.tapping, rest, front, s.out, n);
  }

  lemma {:induction false} DrainKept(cfg: Config, answers: Answers, k: Key, s: State, n: int)
    requires WellFormed(s) && KeptIn(k, s, n)
    ensures KeptIn(k, Drain(cfg, answers, s), n)
    decreases |s.waiting|
  {
    hide WellFormed, KeptIn, ProcessTapping;
    if s.waiting != [] {
      FrontKept(cfg, answers, k, s, n);
      FrontWellFormed(cfg, answers, s);
      var o := FrontOutcome(cfg, answers, s);
      if o.consumed { DrainKept(cfg, answers, k, PutBack(s, o), n); }
    }
  }

  // ---------------------------------------------------------------- a delivery

  lemma LandKept(k: Key, s: State, e: Event, o: Outcome, n: int, n': int)
    requires Ordered(k, Events(s.waiting), n) && Events(o.rest) == Events(s.waiting) && o.record.event == e
    requires n <= n' && (IsEvent(e) && e.key == k ==> n <= e.rank < n')
    requires HeldKept(k, o.tapping, Events(s.waiting), s.out + o.out, n') && LastKept(k, o.tapping, s.out + o.out, n')
    requires !o.consumed && Holds(o.tapping, k) ==> o.tapping.tap.count <= 1
    ensures KeptIn(k, Land(s, e, o), n')
  {
    hide HasTap;
    EventsAppend(o.rest, [o.record]);
    assert Events([o.record]) == [e];
    var es := Events(s.waiting) + [e];
    assert forall i :: 0 <= i < |s.waiting| ==> es[i] == Events(s.waiting)[i];
  }

  lemma OneMoreReceived(k: Key, t: Record, es: seq<Event>, out: seq<Emission>, n: nat)
    requires HeldKept(k, t, es, out, n) && LastKept(k, t, out, n)
    ensures HeldKept(k, t, es, out, n + 1) && LastKept(k, t, out, n + 1)
  {}

  lemma DeliverKept(cfg: Config, answers: Answers, k: Key, s: State, e: Event, n: nat)
    requires WellFormed(s) && NotStalledReleased(s) && KeptIn(k, s, n)
    requires IsEvent(e) && e.key == k ==> e.rank == n
    ensures KeptIn(k, Deliver(cfg, answers, s, e), n + (if IsEvent(e) && e.key == k then 1 else 0))
  {
    hide HasTap, Choose, Apply, LastKept, Guard, Land, HeldKept;
    var r, t := Record(e, NO_TAP), s.tapping;
    var m := Choose(cfg, t, s.waiting, e, answers(s.calls));
    var n' := n + (if IsEvent(e) && e.key == k then 1 else 0);
    ChooseGuard(cfg, t, s.waiting, r, answers(s.calls));
    ApplyStored(cfg, m, t, s.waiting, r);
    assert Events(Apply(cfg, m, t, s.waiting, r).rest) == Events(s.waiting);
    OneMoreReceived(k, t, Events(s.waiting), s.out, n);
    HeldBelow(k, t, Events(s.waiting), s.out, n);
    CallHeld(cfg, m, k, t, s.waiting, r, s.out, n');
    CallLast(cfg, m, k, t, s.waiting, r, s.out, n');
    TappingAfter(cfg, m, k, t, s.waiting, r);
    LandKept(k, s, e, Apply(cfg, m, t, s.waiting, r), n, n');
  }

  lemma HeldBelow(k: Key, t: Record, es: seq<Event>, out: seq<Emission>, n: nat)
    requires HeldKept(k, t, es, out, n)
    ensures Holds(t, k) ==> t.event.rank < n
  {}

  lemma LastRanked(before: seq<Event>, e: Event)
    requires AllRanked(before + [e])
    ensures AllRanked(before) && Ranked(before, e)
  {
    var all := before + [e];
    assert all[..|before|] == before && all[|before|] == e;
    assert forall i :: 0 <= i < |before| ==> before[i] == all[i] && before[..i] == all[..i];
  }

  lemma DeliveredKept(cfg: Config, answers: Answers, before: seq<Event>, e: Event, k: Key)
    requires Ranked(before, e) && KeptIn(k, Run(cfg, answers, before), RankOf(before, k))
    ensures var s := Deliver(cfg, answers, Run(cfg, answers, before), e);
            WellFormed(s) && KeptIn(k, s, RankOf(before + [e], k))
  {
    hide Run, WellFormed, KeptIn, Deliver, NotStalledReleased;
    assert (before + [e])[..|before|] == before;
    RunStops(cfg, answers, before);
    ReachableWellFormed(cfg, answers, before);
    DeliverWellFormed(cfg, answers, Run(cfg, answers, before), e);
    DeliverKept(cfg, answers, k, Run(cfg, answers, before), e, RankOf(before, k));
  }

  lemma NothingKept(cfg: Config, answers: Answers, k: Key)
    ensures KeptIn(k, Run(cfg, answers, []), RankOf([], k))
  {}

  /** The invariant holds over every ranked run. */
  lemma {:induction false} RunKept(cfg: Config, answers: Answers, inputs: seq<Event>, k: Key)
    requires AllRanked(inputs)
    ensures KeptIn(k, Run(cfg, answers, inputs), RankOf(inputs, k))
  {
    hide Run, RankOf, KeptIn, WellFormed, Deliver, Drain, Process, AllRanked, Ranked;
    if inputs == [] {
      NothingKept(cfg, answers, k);
    } else {
      var before, e := inputs[..|inputs| - 1], inputs[|inputs| - 1];
      assert inputs == before + [e];
      LastRanked(before, e);
      RunKept(cfg, answers, before, k);
      DeliveredKept(cfg, answers, before, e, k);
      RunOne(cfg, answers, before, e);
      ProcessIsDrain(cfg, answers, Run(cfg, answers, before), e);
      DrainKept(cfg, answers, k, Deliver(cfg, answers, Run(cfg, answers, before), e), RankOf(inputs, k));
    }
  }

  // ---------------------------------------------------------------- a release that is processed at once

  /** The event of rank `n - 1` of a key of which `n` events were received, if processed as a press with a positive
      count, is still the tapping key or was unregistered. */
  lemma LastPress(cfg: Config, answers: Answers, inputs: seq<Event>, press: Event, x: nat)
    requires AllRanked(inputs) && Increasing(inputs) && Unwrapped(cfg, answers, inputs)
    requires press in inputs && IsEvent(press) && press.pressed && press.rank + 1 == RankOf(inputs, press.key)
    requires var out := Run(cfg, answers, inputs).out; x < |out| && IsOf(out[x], press)
    ensures var s := Run(cfg, answers, inputs); var c := s.out[x].record.tap.count;
            c > 0 ==>
              || (Holds(s.tapping, press.key) && s.tapping.event.rank == press.rank && s.tapping.tap.count == c)
              || Excused(s.out, press.key, c, x, |s.out|)
  {
    hide Run, OwnReleaseInTerm;
    var s := Run(cfg, answers, inputs);
    RunKept(cfg, answers, inputs, press.key);
    assert LastOk(press.key, s.tapping, s.out, press.rank + 1, x);
    TapsByOwnRelease(cfg, answers, inputs);
    if s.out[x].record.tap.count == 1 {
      assert OwnReleaseInTerm(cfg, press, inputs);
      NoNewerEvent(cfg, inputs, press);
    }
  }

  lemma NoNewerEvent(cfg: Config, inputs: seq<Event>, press: Event)
    requires AllRanked(inputs) && press.rank + 1 == RankOf(inputs, press.key)
    ensures !OwnReleaseInTerm(cfg, press, inputs)
  {
    if OwnReleaseInTerm(cfg, press, inputs) {
      var i :| 0 <= i < |inputs| && IsEvent(inputs[i]) && inputs[i].key == press.key &&
        inputs[i].rank == press.rank + 1;
      assert inputs[..|inputs|] == inputs && Ranked(inputs[..i], inputs[i]);
      RankPasses(inputs, i, |inputs|);
    }
  }

  /** The count with which the release is processed: as it is, or that of the tapping key. */
  lemma AtOnceCount(cfg: Config, answers: Answers, s: State, e: Event)
    requires IsEvent(e) && !e.pressed && MoveFor(cfg, answers, s, e) in {Pass, TapRelease, LastRelease}
    ensures var out := Deliver(cfg, answers, s, e).out;
            && |out| == |s.out| + 1 && IsOf(out[|s.out|], e)
            && out[|s.out|].record.tap.count == (if Holds(s.tapping, e.key) then s.tapping.tap.count else 0)
            && (Holds(s.tapping, e.key) ==> s.tapping.tap.count > 0)
  {
    ChooseGuard(cfg, s.tapping, s.waiting, Record(e, NO_TAP), answers(s.calls));
  }

  /** A pair of which both are processed, each at its only place. */
  lemma PairAt(k: Key, out: seq<Emission>, x: nat, y: nat, press: Event, e: Event)
    requires x < y < |out| && IsOf(out[x], press) && IsOf(out[y], e) && IsEvent(press) && IsEvent(e)
    requires press.key == e.key == k && press.pressed && e.rank == press.rank + 1
    requires forall z :: 0 <= z < |out| && IsReal(out[z], k) && out[z].record.event.rank == press.rank ==> z == x
    requires forall z :: 0 <= z < |out| && IsReal(out[z], k) && out[z].record.event.rank == e.rank ==> z == y
    ensures PairAgrees(k, out, press.rank) <==>
            out[y].record.tap.count == out[x].record.tap.count || Excused(out, k, out[x].record.tap.count, x, y)
  {
    hide Excused;
    assert IsReal(out[x], k) && IsReal(out[y], k);
  }

  lemma OnePosition(cfg: Config, answers: Answers, inputs: seq<Event>, e: Event, x: nat)
    requires AllRanked(inputs) && e in inputs && IsEvent(e)
    requires var out := Run(cfg, answers, inputs).out; x < |out| && IsOf(out[x], e)
    ensures var out := Run(cfg, answers, inputs).out;
            forall z :: 0 <= z < |out| && IsReal(out[z], e.key) && out[z].record.event.rank == e.rank ==> z == x
  {
    hide Run;
    var out := Run(cfg, answers, inputs).out;
    forall z | 0 <= z < |out| && IsReal(out[z], e.key) && out[z].record.event.rank == e.rank ensures z == x {
      ProcessedIs(cfg, answers, inputs, z, e);
      OneIndex(cfg, answers, inputs, z, x);
    }
  }

  lemma ExcusedHere(out: seq<Emission>, out': seq<Emission>, k: Key, c: nat, x: nat)
    requires out <= out'
    ensures Excused(out', k, c, x, |out|) <==> Excused(out, k, c, x, |out|)
  {
    assert forall z :: 0 <= z < |out| ==> out'[z] == out[z];
    if Excused(out, k, c, x, |out|) {
      var z :| x < z < |out| && out[z].Synthetic? && out[z].record.event.key == k && out[z].record.tap.count == c;
      assert out'[z] == out[z];
    }
  }

  /** The press was processed before. */
  lemma AtOnceAfter(cfg: Config, answers: Answers, inputs: seq<Event>, e: Event, more: seq<Event>, press: Event,
      x: nat)
    requires AllRanked(inputs + [e] + more) && Increasing(inputs) && Unwrapped(cfg, answers, inputs)
    requires IsEvent(e) && !e.pressed
    requires MoveFor(cfg, answers, Run(cfg, answers, inputs), e) in {Pass, TapRelease, LastRelease}
    requires press in inputs && IsEvent(press) && press.key == e.key && press.rank + 1 == e.rank
    requires var out := Run(cfg, answers, inputs).out; x < |out| && IsOf(out[x], press)
    ensures var s := Run(cfg, answers, inputs);
            PairAgrees(e.key, Run(cfg, answers, inputs + [e] + more).out, press.rank) <==>
            !Holds(s.tapping, e.key) || s.out[x].record.tap.count > 0
  {
    hide Run, Process, Deliver, MoveFor, AllRanked, Increasing, Unwrapped, Excused, PairAgrees, Holds;
    var all := inputs + [e] + more;
    var s0, out, k := Run(cfg, answers, inputs), Run(cfg, answers, all).out, e.key;
    var y, c := |s0.out|, s0.out[x].record.tap.count;
    assert all == inputs + ([e] + more);
    AllRankedPrefix(inputs, [e] + more);
    ParityOf(all, press);
    ParityOf(all, e);
    RankNow(inputs, e, more);
    Continued(cfg, answers, inputs, e, more);
    AtOnceCount(cfg, answers, s0, e);
    assert out[x] == s0.out[x] && out[y] == Deliver(cfg, answers, s0, e).out[y];
    OnePosition(cfg, answers, all, press, x);
    OnePosition(cfg, answers, all, e, y);
    PairAt(k, out, x, y, press, e);
    ExcusedHere(s0.out, out, k, c, x);
    LastPress(cfg, answers, inputs, press, x);
    AllIsWellFormed(cfg, answers, all);
    NoZeroExcuse(out, k, x, y);
  }

  lemma AllRankedPrefix(inputs: seq<Event>, more: seq<Event>)
    requires AllRanked(inputs + more)
    ensures AllRanked(inputs)
  {
    var all := inputs + more;
    assert forall i :: 0 <= i < |inputs| ==> inputs[i] == all[i] && inputs[..i] == all[..i];
  }

  lemma NeverProcessed(k: Key, out: seq<Emission>, press: Event)
    requires forall z :: 0 <= z < |out| && IsReal(out[z], k) && out[z].record.event.rank == press.rank ==>
               out[z].record.event == press
    requires !Processed(out, press)
    ensures PairAgrees(k, out, press.rank)
  {}

  /** The press was dropped. */
  lemma AtOnceDropped(cfg: Config, answers: Answers, inputs: seq<Event>, more: seq<Event>, press: Event)
    requires AllRanked(inputs + more) && press in Run(cfg, answers, inputs).lost
    ensures var out := Run(cfg, answers, inputs + more).out;
            !Processed(out, press) && PairAgrees(press.key, out, press.rank)
  {
    hide Run, PairAgrees, Processed, AllRanked;
    var s, s' := Run(cfg, answers, inputs), Run(cfg, answers, inputs + more);
    AllRankedPrefix(inputs, more);
    RunGrows(cfg, answers, inputs, more);
    OnePlace(cfg, answers, inputs, press);
    OnePlace(cfg, answers, inputs + more, press);
    var i :| 0 <= i < |s.lost| && s.lost[i] == press;
    assert s'.lost[i] == press;
    forall z | 0 <= z < |s'.out| && IsReal(s'.out[z], press.key) && s'.out[z].record.event.rank == press.rank
      ensures s'.out[z].record.event == press
    {
      ProcessedIs(cfg, answers, inputs + more, z, press);
    }
    NeverProcessed(press.key, s'.out, press);
  }

  /** A release is not processed at once while its own press is the undecided tapping key. */
  lemma OwnIsDecided(cfg: Config, answers: Answers, s: State, e: Event, press: Event)
    requires IsEvent(e) && !e.pressed && MoveFor(cfg, answers, s, e) in {Pass, TapRelease, LastRelease}
    requires press.key == e.key
    ensures press !in Owed(s.tapping)
  {
    ChooseGuard(cfg, s.tapping, s.waiting, Record(e, NO_TAP), answers(s.calls));
  }

  /** In every run with increasing times that does not wrap round onto stored events, whatever was delivered in turn
      or not: a release that is processed at once disagrees with its press, in every continuation whatsoever, if and
      only if the press waits and is processed later, or the tapping key is a press of the key and the release's own
      press was processed with count 0. */
  lemma AtOnceIff(cfg: Config, answers: Answers, inputs: seq<Event>, e: Event, more: seq<Event>, press: Event)
    requires AllRanked(inputs + [e] + more) && Increasing(inputs) && Unwrapped(cfg, answers, inputs)
    requires IsEvent(e) && !e.pressed
    requires MoveFor(cfg, answers, Run(cfg, answers, inputs), e) in {Pass, TapRelease, LastRelease}
    requires press in inputs && IsEvent(press) && press.key == e.key && press.rank + 1 == e.rank
    ensures var s, out := Run(cfg, answers, inputs), Run(cfg, answers, inputs + [e] + more).out;
            !PairAgrees(e.key, out, press.rank) <==>
            || (press in Events(s.waiting) && Processed(out, press))
            || (Holds(s.tapping, e.key) && ProcessedWith(s.out, press, 0))
  {
    hide Run, MoveFor, AllRanked, Increasing, Unwrapped, PairAgrees, Holds;
    var all := inputs + [e] + more;
    assert all == inputs + ([e] + more);
    var s0 := Run(cfg, answers, inputs);
    AllRankedPrefix(inputs, [e] + more);
    OnePlace(cfg, answers, inputs, press);
    OwnIsDecided(cfg, answers, s0, e, press);
    if press in Events(s0.waiting) {
      ProcessedReleaseIff(cfg, answers, inputs, e, more, press);
    } else if Processed(s0.out, press) {
      var x :| 0 <= x < |s0.out| && s0.out[x].Real? && s0.out[x].record.event == press;
      AtOnceAfter(cfg, answers, inputs, e, more, press, x);
      WithAt(cfg, answers, inputs, press, x);
    } else {
      AtOnceDropped(cfg, answers, inputs, [e] + more, press);
    }
  }

  lemma WithAt(cfg: Config, answers: Answers, inputs: seq<Event>, press: Event, x: nat)
    requires AllRanked(inputs)
    requires var out := Run(cfg, answers, inputs).out; x < |out| && IsOf(out[x], press)
    ensures var out := Run(cfg, answers, inputs).out; ProcessedWith(out, press, 0) <==> out[x].record.tap.count == 0
  {
    hide Run;
    var out := Run(cfg, answers, inputs).out;
    if ProcessedWith(out, press, 0) {
      var z :| 0 <= z < |out| && out[z].Real? && out[z].record.event == press && out[z].record.tap.count == 0;
      OneIndex(cfg, answers, inputs, z, x);
    }
  }
}
