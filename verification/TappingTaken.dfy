/** A release that is taken for the release of a tapping key that is not its press: in any run with increasing times
    that does not wrap round onto stored events, whatever happened before and happens later, it disagrees with its own
    press exactly if that is processed with count 0. */
module TappingTaken {
  import opened TappingModel
  import opened TappingRuns
  import opened TappingVerdict
  import opened TappingOutOfTurn
  import opened TappingEvidence
  import opened TappingReleases
  import opened TappingWrongRelease
  import opened TappingAtOnce

  // ---------------------------------------------------------------- the pair

  /** A press and its release, one event after the other of a key. */
  predicate Pair(p: Event, e: Event) {
    IsEvent(p) && IsEvent(e) && p.key == e.key && p.pressed && !e.pressed && e.rank == p.rank + 1
  }

  predicate NotStored(t: Record, es: seq<Event>, e: Event) {
    e !in Owed(t) && e !in es
  }

  /** Wherever the press was processed, it had this count. */
  predicate HadCount(out: seq<Emission>, p: Event, c: nat) {
    forall x :: 0 <= x < |out| && IsOf(out[x], p) ==> out[x].record.tap.count == c
  }

  /** The press was processed as a hold, or was unregistered since. */
  predicate HoldOrExcused(out: seq<Emission>, p: Event) {
    forall x :: 0 <= x < |out| && IsOf(out[x], p) ==>
      out[x].record.tap.count == 0 || Excused(out, p.key, out[x].record.tap.count, x, |out|)
  }

  predicate IsWaiting(t: Record, es: seq<Event>, out: seq<Emission>, p: Event) {
    p in es && t.event != p && !Processed(out, p)
  }

  predicate IsTapping(t: Record, es: seq<Event>, out: seq<Emission>, p: Event) {
    && Holds(t, p.key) && t.event == p && Later(p.key, es, p.rank)
    && HadCount(out, p, t.tap.count) && (t.tap.count == 0 ==> !Processed(out, p))
  }

  predicate IsOut(t: Record, es: seq<Event>, out: seq<Emission>, p: Event) {
    && NotStored(t, es, p)
    && (|| HoldOrExcused(out, p)
        || (HadCount(out, p, 1) && Later(p.key, es, p.rank) && (Holds(t, p.key) ==> t.event.rank > p.rank)))
  }

  /** While the release waits: its press waits before it, or is the tapping key, or is out as a hold, unregistered,
      or as a first tap; in the second and last cases only later events of the key are still to come. */
  predicate Before(t: Record, es: seq<Event>, out: seq<Emission>, p: Event) {
    || IsWaiting(t, es, out, p)
    || IsTapping(t, es, out, p)
    || IsOut(t, es, out, p)
  }

  /** Both are out: unless the press is a hold they agree. */
  predicate Settled(out: seq<Emission>, p: Event, e: Event) {
    forall x, y :: 0 <= x < |out| && 0 <= y < |out| && IsOf(out[x], p) && IsOf(out[y], e) ==>
      || out[x].record.tap.count == 0
      || (x < y && (out[y].record.tap.count == out[x].record.tap.count
                    || Excused(out, p.key, out[x].record.tap.count, x, y)))
  }

  /** The release waits, or neither is stored any more. */
  predicate FatedIn(t: Record, es: seq<Event>, out: seq<Emission>, p: Event, e: Event) {
    || (e in es && Before(t, es, out, p) && !Processed(out, e))
    || (NotStored(t, es, p) && NotStored(t, es, e) && Settled(out, p, e))
  }

  predicate Fated(s: State, p: Event, e: Event) {
    FatedIn(s.tapping, Events(s.waiting), s.out, p, e)
  }

  // ---------------------------------------------------------------- the trace grows

  lemma HadCountGrows(out: seq<Emission>, more: seq<Emission>, p: Event, c: nat)
    requires HadCount(out, p, c) && HadCount(more, p, c)
    ensures HadCount(out + more, p, c)
  {}

  lemma HoldOrExcusedGrows(out: seq<Emission>, more: seq<Emission>, p: Event)
    requires HoldOrExcused(out, p) && HadCount(more, p, 0)
    ensures HoldOrExcused(out + more, p)
  {
    hide Excused;
    var all := out + more;
    forall x | 0 <= x < |all| && IsOf(all[x], p)
      ensures all[x].record.tap.count == 0 || Excused(all, p.key, all[x].record.tap.count, x, |all|)
    {
      if x < |out| && all[x].record.tap.count != 0 { ExcusedStays(p.key, out, more, all[x].record.tap.count, x); }
    }
  }

  lemma NowHold(out: seq<Emission>, more: seq<Emission>, p: Event)
    requires !Processed(out, p) && HadCount(more, p, 0)
    ensures HoldOrExcused(out + more, p)
  {}

  lemma NotLater(out: seq<Emission>, more: seq<Emission>, p: Event)
    requires !Processed(more, p)
    ensures forall x :: |out| <= x < |out + more| ==> !IsOf((out + more)[x], p)
  {
    forall x | |out| <= x < |out + more| ensures !IsOf((out + more)[x], p) {
      assert (out + more)[x] == more[x - |out|];
    }
  }

  /** The press is unregistered. */
  lemma NowExcused(out: seq<Emission>, more: seq<Emission>, p: Event, c: nat)
    requires HadCount(out, p, c) && !Processed(more, p)
    requires more != [] && more[0].Synthetic? && more[0].record.event.key == p.key && more[0].record.tap.count == c
    ensures HoldOrExcused(out + more, p)
  {
    hide Excused;
    var all := out + more;
    NotLater(out, more, p);
    forall x | 0 <= x < |all| && IsOf(all[x], p)
      ensures all[x].record.tap.count == 0 || Excused(all, p.key, all[x].record.tap.count, x, |all|)
    {
      UnregisteredNow(p.key, out, more, c, x);
    }
  }

  lemma SettledGrows(out: seq<Emission>, more: seq<Emission>, p: Event, e: Event)
    requires Settled(out, p, e) && !Processed(more, p) && !Processed(more, e)
    ensures Settled(out + more, p, e)
  {
    hide Excused;
    var all := out + more;
    NotLater(out, more, p);
    NotLater(out, more, e);
    forall x, y, c: nat | 0 <= x < y < |out| && Excused(out, p.key, c, x, y)
      ensures Excused(all, p.key, c, x, y)
    {
      ExcusedInside(out, more, p.key, c, x, y);
    }
  }

  lemma ExcusedInside(out: seq<Emission>, more: seq<Emission>, k: Key, c: nat, x: nat, y: nat)
    requires Excused(out, k, c, x, y)
    ensures Excused(out + more, k, c, x, y)
  {
    var z :| x < z < y && z < |out| && out[z].Synthetic? && out[z].record.event.key == k &&
      out[z].record.tap.count == c;
    assert (out + more)[z] == out[z];
  }

  // ---------------------------------------------------------------- a call on another record

  /** A call processes nothing but the undecided tapping key and the record in hand. */
  lemma OnlyThese(cfg: Config, m: Move, t: Record, rest: seq<Record>, r: Record, p: Event)
    requires Guard(m, t, r) && (IsEvent(r.event) ==> Buffered(r)) && IsEvent(p)
    requires p !in Owed(t) && r.event != p
    ensures !Processed(Apply(cfg, m, t, rest, r).out, p)
  {
    hide Apply;
    var o := Apply(cfg, m, t, rest, r);
    forall z | 0 <= z < |o.out| && o.out[z].Real? ensures o.out[z].record.event != p {
      OutOfCall(cfg, m, t, rest, r, z);
    }
  }

  /** The press is the tapping key, and the record in hand another one: the press stays, is out as a hold, is
      unregistered, or is replaced as a first tap. */
  lemma PressHeld(cfg: Config, m: Move, t: Record, rest: seq<Record>, r: Record, p: Event)
    requires Guard(m, t, r) && IsEvent(p) && p.pressed && t.event == p && r.event != p
    requires t.tap.count > 1 && IsEvent(r.event) && !r.event.pressed ==> r.event.key != p.key
    ensures var o := Apply(cfg, m, t, rest, r);
            || (o.tapping.event == p && (o.tapping.tap.count == t.tap.count && !Processed(o.out, p)))
            || (o.tapping.event == p && t.tap.count == 0 && HadCount(o.out, p, o.tapping.tap.count) &&
              o.tapping.tap.count > 0)
            || (o.tapping.event != p && t.tap.count == 0 && HadCount(o.out, p, 0))
            || (o.tapping.event != p && t.tap.count > 1 && !Processed(o.out, p) && o.out != [] && o.out[0].Synthetic?
                && o.out[0].record.event.key == p.key && o.out[0].record.tap.count == t.tap.count)
            || (o.tapping.event != p && t.tap.count == 1 && !Processed(o.out, p)
                && (Holds(o.tapping, p.key) ==> IsEvent(r.event) && o.tapping.event == r.event))
  {}

  /** A call on a record that is neither the press nor the release, which waits. */
  lemma OtherBefore(cfg: Config, m: Move, t: Record, rest: seq<Record>, r: Record, out: seq<Emission>, p: Event)
    requires Guard(m, t, r) && (IsEvent(r.event) ==> Buffered(r)) && IsEvent(p) && p.pressed && r.event != p
    requires Before(t, Events(rest), out, p)
    requires p !in Events(rest) && !(NotStored(t, Events(rest), p) && HoldOrExcused(out, p))
               && IsEvent(r.event) && r.event.key == p.key ==>
               p.rank < r.event.rank && (t.event == p && t.tap.count > 1 ==> r.event.pressed)
    ensures Before(Apply(cfg, m, t, rest, r).tapping, Events(rest), out + Apply(cfg, m, t, rest, r).out, p)
  {
    hide Apply, Guard, HadCount, HoldOrExcused;
    var o, es := Apply(cfg, m, t, rest, r), Events(rest);
    if IsWaiting(t, es, out, p) {
      OnlyThese(cfg, m, t, rest, r, p);
      ApplyStored(cfg, m, t, rest, r);
      NotLater(out, o.out, p);
    } else {
      assert Later(p.key, es, p.rank) ==> p !in es;
      if IsTapping(t, es, out, p) && !(NotStored(t, es, p) && HoldOrExcused(out, p)) {
        PressHeld(cfg, m, t, rest, r, p);
        HeldBefore(t, o, es, out, p, r);
      } else {
        OnlyThese(cfg, m, t, rest, r, p);
        ApplyStored(cfg, m, t, rest, r);
        TappingAfter(cfg, m, p.key, t, rest, r);
        NothingOf(o.out, p);
        StaysOut(t, o, es, out, p, r);
      }
    }
  }

  lemma NothingOf(more: seq<Emission>, p: Event)
    requires !Processed(more, p)
    ensures forall c :: HadCount(more, p, c)
  {}

  lemma NothingBefore(out: seq<Emission>, p: Event)
    requires !Processed(out, p)
    ensures forall c :: HadCount(out, p, c)
  {}

  lemma HeldBefore(t: Record, o: Outcome, es: seq<Event>, out: seq<Emission>, p: Event, r: Record)
    requires IsTapping(t, es, out, p) && p !in es
    requires IsEvent(r.event) && r.event.key == p.key ==> p.rank < r.event.rank
    requires
      || (o.tapping.event == p && (o.tapping.tap.count == t.tap.count && !Processed(o.out, p)))
      || (o.tapping.event == p && t.tap.count == 0 && HadCount(o.out, p, o.tapping.tap.count) &&
        o.tapping.tap.count > 0)
      || (o.tapping.event != p && t.tap.count == 0 && HadCount(o.out, p, 0))
      || (o.tapping.event != p && t.tap.count > 1 && !Processed(o.out, p) && o.out != [] && o.out[0].Synthetic?
          && o.out[0].record.event.key == p.key && o.out[0].record.tap.count == t.tap.count)
      || (o.tapping.event != p && t.tap.count == 1 && !Processed(o.out, p)
          && (Holds(o.tapping, p.key) ==> IsEvent(r.event) && o.tapping.event == r.event))
    ensures Before(o.tapping, es, out + o.out, p)
  {
    hide HadCount, HoldOrExcused;
    if t.tap.count == 0 { NothingBefore(out, p); }
    if !Processed(o.out, p) { NothingOf(o.out, p); NotLater(out, o.out, p); }
    if o.tapping.event == p {
      HadCountGrows(out, o.out, p, o.tapping.tap.count);
    } else if t.tap.count == 0 {
      NowHold(out, o.out, p);
    } else if t.tap.count > 1 {
      NowExcused(out, o.out, p, t.tap.count);
    } else {
      HadCountGrows(out, o.out, p, 1);
    }
  }

  lemma StaysOut(t: Record, o: Outcome, es: seq<Event>, out: seq<Emission>, p: Event, r: Record)
    requires IsOut(t, es, out, p) && IsEvent(p) && r.event != p
    requires p !in Owed(o.tapping) && !Processed(o.out, p)
    requires forall c :: HadCount(o.out, p, c)
    requires Holds(o.tapping, p.key) ==>
               (Holds(t, p.key) && o.tapping.event == t.event) || (IsEvent(r.event) && o.tapping.event == r.event)
    requires !HoldOrExcused(out, p) && IsEvent(r.event) && r.event.key == p.key ==> p.rank < r.event.rank
    ensures Before(o.tapping, es, out + o.out, p)
  {
    hide HadCount, HoldOrExcused;
    if HoldOrExcused(out, p) { HoldOrExcusedGrows(out, o.out, p); }
    if HadCount(out, p, 1) { HadCountGrows(out, o.out, p, 1); }
  }

  /** What is undecided after a call was so before, or is the record in hand. */
  lemma OwedAfter(cfg: Config, m: Move, t: Record, rest: seq<Record>, r: Record, x: Event)
    requires Guard(m, t, r) && x in Owed(Apply(cfg, m, t, rest, r).tapping)
    ensures x in Owed(t) || (x == r.event && IsEvent(r.event) && r.event.pressed && Apply(cfg, m, t, rest, r).consumed)
  {}

  // ---------------------------------------------------------------- calls on the two

  /** The press comes up: it stays, is out as a hold, or becomes the tapping key. */
  lemma PressCall(cfg: Config, m: Move, t: Record, rest: seq<Record>, r: Record, out: seq<Emission>)
    requires Guard(m, t, r) && Buffered(r) && r.event.pressed && !Processed(out, r.event) && r.event != t.event
    requires Later(r.event.key, Events(rest), r.event.rank) && r.event !in Events(rest)
    ensures var o := Apply(cfg, m, t, rest, r);
            o.consumed ==> Before(o.tapping, Events(rest), out + o.out, r.event)
  {
    hide Later, HoldOrExcused;
    var o, p := Apply(cfg, m, t, rest, r), r.event;
    PressOut(cfg, m, t, rest, r);
    NothingBefore(out, p);
    if o.consumed {
      if o.tapping.event == p {
        HadCountGrows(out, o.out, p, o.tapping.tap.count);
        if !Processed(o.out, p) { NotLater(out, o.out, p); }
      } else {
        NowHold(out, o.out, p);
      }
    }
  }

  lemma PressOut(cfg: Config, m: Move, t: Record, rest: seq<Record>, r: Record)
    requires Guard(m, t, r) && Buffered(r) && r.event.pressed && r.event != t.event
    ensures var o := Apply(cfg, m, t, rest, r);
            o.consumed ==>
              || (o.tapping.event == r.event && HadCount(o.out, r.event, o.tapping.tap.count)
                  && (o.tapping.tap.count == 0 ==> !Processed(o.out, r.event)))
              || (o.tapping.event != r.event && HadCount(o.out, r.event, 0))
  {}

  /** The release comes up and is processed: as it is, or with the count of the tapping key. */
  lemma ReleaseOutOfCall(cfg: Config, m: Move, t: Record, rest: seq<Record>, r: Record)
    requires Guard(m, t, r) && Buffered(r) && !r.event.pressed && Apply(cfg, m, t, rest, r).consumed
    ensures var o := Apply(cfg, m, t, rest, r);
            && |o.out| == 1 && IsOf(o.out[0], r.event)
            && o.out[0].record.tap.count == (if Holds(t, r.event.key) then t.tap.count else r.tap.count)
            && (Holds(t, r.event.key) ==> t.tap.count > 0)
            && (Owed(o.tapping) == Owed(t) || Owed(o.tapping) == [])
  {}

  lemma ReleaseCall(cfg: Config, m: Move, t: Record, rest: seq<Record>, r: Record, out: seq<Emission>, p: Event)
    requires Guard(m, t, r) && Buffered(r) && r.tap.count == 1 && Apply(cfg, m, t, rest, r).consumed
    requires Pair(p, r.event) && p !in Events(rest) && r.event !in Events(rest) && !Processed(out, r.event)
    requires Before(t, [r.event] + Events(rest), out, p)
    requires Holds(t, p.key) && t.tap.count > 1 ==> t.event.rank < r.event.rank
    ensures var o := Apply(cfg, m, t, rest, r);
            && NotStored(o.tapping, Events(rest), p) && NotStored(o.tapping, Events(rest), r.event)
            && Settled(out + o.out, p, r.event)
  {
    hide Apply, Guard, Excused;
    var o := Apply(cfg, m, t, rest, r);
    ReleaseOutOfCall(cfg, m, t, rest, r);
    var out' := out + o.out;
    NotLater(out, o.out, p);
    assert !IsWaiting(t, [r.event] + Events(rest), out, p);
    forall x, y | 0 <= x < |out'| && 0 <= y < |out'| && IsOf(out'[x], p) && IsOf(out'[y], r.event)
      ensures || out'[x].record.tap.count == 0
              || (x < y && (out'[y].record.tap.count == out'[x].record.tap.count
                            || Excused(out', p.key, out'[x].record.tap.count, x, y)))
    {
      assert y == |out| && out'[x] == out[x];
      ExcusedHere(out, out', p.key, out[x].record.tap.count, x);
    }
  }

  // ---------------------------------------------------------------- the drain

  lemma OrderOf(k: Key, front: Event, es: seq<Event>, n: int)
    requires Ordered(k, [front] + es, n)
    ensures front.key == k ==> Later(k, es, front.rank) && front !in es
    ensures forall x :: x in es && x.key == k && front.key == k ==> front.rank < x.rank
  {
    var all := [front] + es;
    assert all[0] == front && forall i :: 0 <= i < |es| ==> all[i + 1] == es[i];
  }

  /** Another record than the release comes up while that waits. */
  lemma {:induction false} BeforeOfRest(t: Record, front: Event, es: seq<Event>, out: seq<Emission>, p: Event)
    requires Before(t, [front] + es, out, p) && front != p
    ensures Before(t, es, out, p)
    ensures p in es || (NotStored(t, es, p) && HoldOrExcused(out, p)) || (front.key == p.key ==> p.rank < front.rank)
  {
    hide HadCount, HoldOrExcused, Processed;
    var all := [front] + es;
    assert all[0] == front && forall i :: 0 <= i < |es| ==> all[i + 1] == es[i];
  }

  lemma BeforeOfAll(t: Record, front: Event, es: seq<Event>, out: seq<Emission>, p: Event)
    requires Before(t, es, out, p) && front != p
    requires p in es || (NotStored(t, es, p) && HoldOrExcused(out, p)) || (front.key == p.key ==> p.rank < front.rank)
    ensures Before(t, [front] + es, out, p) && Before(t, es + [front], out, p)
  {
    hide HadCount, HoldOrExcused, Processed;
  }

  lemma NotOut(cfg: Config, m: Move, t: Record, rest: seq<Record>, r: Record)
    requires Guard(m, t, r) && IsEvent(r.event) && !Apply(cfg, m, t, rest, r).consumed
    requires r.event.pressed ==> t.event != r.event
    ensures var o := Apply(cfg, m, t, rest, r);
            && !Processed(o.out, r.event) && (r.event.pressed ==> o.tapping.event != r.event)
            && (Holds(t, r.event.key) && !r.event.pressed ==> t.tap.count <= 1)
  {}
  /** The release waits behind the record in hand. */
  lemma WhileBehind(cfg: Config, m: Move, t: Record, rest: seq<Record>, r: Record, out: seq<Emission>, p: Event,
      e: Event)
    requires Guard(m, t, r) && Buffered(r) && Pair(p, e) && e in Events(rest) && r.event != e && r.event != p
    requires Before(t, [r.event] + Events(rest), out, p) && !Processed(out, e)
    requires r.event.key == p.key ==> r.event.rank < e.rank
    ensures var o := Apply(cfg, m, t, rest, r);
            && FatedIn(o.tapping, Events(rest), out + o.out, p, e)
            && FatedIn(o.tapping, [r.event] + Events(rest), out + o.out, p, e)
  {
    hide Apply, Guard, Before, NotStored, HoldOrExcused, HadCount;
    var o, es := Apply(cfg, m, t, rest, r), Events(rest);
    BeforeOfRest(t, r.event, es, out, p);
    OtherBefore(cfg, m, t, rest, r, out, p);
    if NotStored(t, es, p) && HoldOrExcused(out, p) { StillBefore(cfg, m, t, rest, r, out, p); }
    BeforeOfAll(o.tapping, r.event, es, out + o.out, p);
    OnlyThese(cfg, m, t, rest, r, e);
    NotLater(out, o.out, e);
    assert !Processed(out + o.out, e);
  }

  lemma StillBefore(cfg: Config, m: Move, t: Record, rest: seq<Record>, r: Record, out: seq<Emission>, p: Event)
    requires Guard(m, t, r) && (IsEvent(r.event) ==> Buffered(r)) && IsEvent(p) && r.event != p
    requires NotStored(t, Events(rest), p) && HoldOrExcused(out, p)
    ensures var o := Apply(cfg, m, t, rest, r);
            NotStored(o.tapping, Events(rest), p) && HoldOrExcused(out + o.out, p)
  {
    hide Apply, Guard, HoldOrExcused;
    OnlyThese(cfg, m, t, rest, r, p);
    NothingOf(Apply(cfg, m, t, rest, r).out, p);
    HoldOrExcusedGrows(out, Apply(cfg, m, t, rest, r).out, p);
    if p in Owed(Apply(cfg, m, t, rest, r).tapping) { OwedAfter(cfg, m, t, rest, r, p); }
  }

  /** The press comes up while the release waits. */
  lemma WhilePress(cfg: Config, m: Move, t: Record, rest: seq<Record>, r: Record, out: seq<Emission>, e: Event)
    requires Guard(m, t, r) && Buffered(r) && Pair(r.event, e) && e in Events(rest)
    requires Before(t, [r.event] + Events(rest), out, r.event) && !Processed(out, e)
    requires Later(r.event.key, Events(rest), r.event.rank) && r.event !in Events(rest)
    ensures var o := Apply(cfg, m, t, rest, r);
            FatedIn(o.tapping, if o.consumed then Events(rest) else [r.event] + Events(rest), out + o.out, r.event, e)
  {
    hide Apply, Guard, HoldOrExcused, HadCount;
    var o, es, p := Apply(cfg, m, t, rest, r), Events(rest), r.event;
    assert ([p] + es)[0] == p;
    assert IsWaiting(t, [p] + es, out, p);
    OnlyThese(cfg, m, t, rest, r, e);
    NotLater(out, o.out, e);
    assert !Processed(out + o.out, e);
    if o.consumed {
      PressCall(cfg, m, t, rest, r, out);
    } else {
      NotOut(cfg, m, t, rest, r);
      NotLater(out, o.out, p);
      assert IsWaiting(o.tapping, [p] + es, out + o.out, p);
    }
  }

  /** The release itself comes up. */
  lemma WhileRelease(cfg: Config, m: Move, t: Record, rest: seq<Record>, r: Record, out: seq<Emission>, p: Event)
    requires Guard(m, t, r) && Buffered(r) && r.tap.count == 1 && Pair(p, r.event)
    requires p !in Events(rest) && r.event !in Events(rest) && !Processed(out, r.event)
    requires Before(t, [r.event] + Events(rest), out, p)
    requires Holds(t, p.key) && t.tap.count > 1 ==> t.event.rank < r.event.rank
    ensures var o := Apply(cfg, m, t, rest, r);
            FatedIn(o.tapping, if o.consumed then Events(rest) else [r.event] + Events(rest), out + o.out, p, r.event)
  {
    hide Apply, Guard, HoldOrExcused, HadCount, Settled, Before;
    var o, es := Apply(cfg, m, t, rest, r), Events(rest);
    if o.consumed {
      ReleaseCall(cfg, m, t, rest, r, out, p);
    } else {
      NotOut(cfg, m, t, rest, r);
      NotLater(out, o.out, r.event);
      BeforeOfRest(t, r.event, es, out, p);
      OtherBefore(cfg, m, t, rest, r, out, p);
      BeforeOfAll(o.tapping, r.event, es, out + o.out, p);
      assert ([r.event] + es)[0] == r.event;
    }
  }

  lemma FrontFatedIn(cfg: Config, m: Move, t: Record, rest: seq<Record>, r: Record, out: seq<Emission>, p: Event,
      e: Event, n: int)
    requires Guard(m, t, r) && Buffered(r) && Pair(p, e) && (r.event == e ==> r.tap.count == 1)
    requires Ordered(p.key, [r.event] + Events(rest), n) && HeldKept(p.key, t, [r.event] + Events(rest), out, n)
    requires FatedIn(t, [r.event] + Events(rest), out, p, e)
    ensures var o := Apply(cfg, m, t, rest, r);
            FatedIn(o.tapping, if o.consumed then Events(rest) else [r.event] + Events(rest), out + o.out, p, e)
  {
    hide Apply, Guard, Before, Settled, HasTap, Processed, NotStored, Ordered;
    var es := [r.event] + Events(rest);
    assert es[0] == r.event;
    OrderOf(p.key, r.event, Events(rest), n);
    if e in es && Before(t, es, out, p) && !Processed(out, e) {
      if r.event == e {
        WhileRelease(cfg, m, t, rest, r, out, p);
      } else if r.event == p {
        WhilePress(cfg, m, t, rest, r, out, e);
      } else {
        WhileBehind(cfg, m, t, rest, r, out, p, e);
      }
    } else {
      AfterBoth(cfg, m, t, rest, r, out, p, e);
    }
  }

  lemma FrontFated(cfg: Config, answers: Answers, s: State, p: Event, e: Event, n: int)
    requires WellFormed(s) && s.waiting != [] && KeptIn(p.key, s, n) && Counted(s, e)
    requires Pair(p, e) && Fated(s, p, e)
    ensures Fated(PutBack(s, FrontOutcome(cfg, answers, s)), p, e)
  {
    hide Choose, Apply, Guard, FatedIn, HasTap, LastKept, HeldKept, Ordered, Pair, TappingOk;
    var front, rest, t := s.waiting[0], s.waiting[1..], s.tapping;
    var m := Choose(cfg, t, rest, front.event, answers(s.calls));
    var o := FrontOutcome(cfg, answers, s);
    FrontBuffered(s);
    ChooseGuard(cfg, t, rest, front, answers(s.calls));
    ApplyStored(cfg, m, t, rest, front);
    assert Events(s.waiting) == [front.event] + Events(rest) && Events(rest) == Events(o.rest);
    assert Events([o.record] + o.rest) == Events(s.waiting);
    FrontFatedIn(cfg, m, t, rest, front, s.out, p, e, n);
  }

  /** Neither is stored any more. */
  lemma AfterBoth(cfg: Config, m: Move, t: Record, rest: seq<Record>, r: Record, out: seq<Emission>, p: Event, e: Event)
    requires Guard(m, t, r) && (IsEvent(r.event) ==> Buffered(r)) && IsEvent(p) && IsEvent(e) && Settled(out, p, e)
    requires NotStored(t, [r.event] + Events(rest), p) && NotStored(t, [r.event] + Events(rest), e)
    ensures var o := Apply(cfg, m, t, rest, r);
            && FatedIn(o.tapping, Events(rest), out + o.out, p, e)
            && FatedIn(o.tapping, [r.event] + Events(rest), out + o.out, p, e)
            && FatedIn(o.tapping, Events(rest) + [r.event], out + o.out, p, e)
            && FatedIn(NO_RECORD, [], out + o.out, p, e)
  {
    hide Apply, Guard, Settled, Before;
    var o := Apply(cfg, m, t, rest, r);
    assert ([r.event] + Events(rest))[0] == r.event;
    OnlyThese(cfg, m, t, rest, r, p);
    OnlyThese(cfg, m, t, rest, r, e);
    SettledGrows(out, o.out, p, e);
    if p in Owed(o.tapping) { OwedAfter(cfg, m, t, rest, r, p); }
    if e in Owed(o.tapping) { OwedAfter(cfg, m, t, rest, r, e); }
  }

  lemma {:induction false} DrainFated(cfg: Config, answers: Answers, s: State, p: Event, e: Event, n: int)
    requires WellFormed(s) && KeptIn(p.key, s, n) && Counted(s, e) && Pair(p, e) && Fated(s, p, e)
    ensures Fated(Drain(cfg, answers, s), p, e)
    decreases |s.waiting|
  {
    hide WellFormed, KeptIn, Counted, Fated, ProcessTapping;
    if s.waiting != [] {
      FrontFated(cfg, answers, s, p, e, n);
      FrontKept(cfg, answers, p.key, s, n);
      FrontCounts(cfg, answers, s, e);
      FrontWellFormed(cfg, answers, s);
      var o := FrontOutcome(cfg, answers, s);
      if o.consumed { DrainFated(cfg, answers, PutBack(s, o), p, e, n); }
    }
  }

  // ---------------------------------------------------------------- later deliveries

  /** Between deliveries a tapping key with a count above 1 leaves nothing waiting. */
  predicate NoneBehindTaps(s: State) {
    s.waiting != [] && IsEvent(s.tapping.event) && s.tapping.event.pressed ==> s.tapping.tap.count <= 1
  }

  lemma {:induction false} DrainEmpties(cfg: Config, answers: Answers, s: State)
    requires WellFormed(s)
    ensures NoneBehindTaps(Drain(cfg, answers, s))
    decreases |s.waiting|
  {
    hide WellFormed, Choose, Apply, Guard;
    if s.waiting != [] {
      var front, rest, o := s.waiting[0], s.waiting[1..], FrontOutcome(cfg, answers, s);
      FrontBuffered(s);
      ChooseGuard(cfg, s.tapping, rest, front, answers(s.calls));
      TappingAfter(cfg, Choose(cfg, s.tapping, rest, front.event, answers(s.calls)), o.tapping.event.key, s.tapping,
        rest,
        front);
      FrontWellFormed(cfg, answers, s);
      if o.consumed { DrainEmpties(cfg, answers, PutBack(s, o)); }
    }
  }

  lemma RunEmpties(cfg: Config, answers: Answers, inputs: seq<Event>)
    ensures NoneBehindTaps(Run(cfg, answers, inputs))
  {
    if inputs != [] {
      var before, e := inputs[..|inputs| - 1], inputs[|inputs| - 1];
      ReachableWellFormed(cfg, answers, before);
      DeliverWellFormed(cfg, answers, Run(cfg, answers, before), e);
      DrainEmpties(cfg, answers, Deliver(cfg, answers, Run(cfg, answers, before), e));
    }
  }

  /** A later event is delivered while the release waits. */
  lemma WhileDelivered(cfg: Config, m: Move, t: Record, rest: seq<Record>, d: Event, out: seq<Emission>, p: Event,
      e: Event)
    requires Guard(m, t, Record(d, NO_TAP)) && Pair(p, e) && e in Events(rest) && d != e && d != p
    requires Before(t, Events(rest), out, p) && !Processed(out, e)
    requires IsEvent(d) && d.key == p.key ==> p.rank < d.rank
    requires IsEvent(t.event) && t.event.pressed ==> t.tap.count <= 1
    ensures var o := Apply(cfg, m, t, rest, Record(d, NO_TAP));
            && FatedIn(o.tapping, Events(rest), out + o.out, p, e)
            && (IsEvent(d) ==> FatedIn(o.tapping, Events(rest) + [d], out + o.out, p, e))
            && FatedIn(NO_RECORD, [], out + o.out, p, e)
  {
    hide Apply, Guard, Before, HoldOrExcused, HadCount;
    var r, es := Record(d, NO_TAP), Events(rest);
    var o := Apply(cfg, m, t, rest, r);
    OtherBefore(cfg, m, t, rest, r, out, p);
    if IsEvent(d) { BeforeOfAll(o.tapping, d, es, out + o.out, p); }
    OnlyThese(cfg, m, t, rest, r, e);
    NotLater(out, o.out, e);
    assert !Processed(out + o.out, e);
  }

  lemma DeliverFatedPair(cfg: Config, answers: Answers, s: State, d: Event, p: Event, e: Event)
    requires NoneBehindTaps(s) && Pair(p, e) && Fated(s, p, e) && d != p && d != e
    requires IsEvent(d) && d.key == p.key ==> e.rank < d.rank
    ensures Fated(Deliver(cfg, answers, s, d), p, e)
  {
    hide Choose, Apply, Guard, Before, Settled, Processed, Pair, FatedIn;
    var r, t := Record(d, NO_TAP), s.tapping;
    var m := Choose(cfg, t, s.waiting, d, answers(s.calls));
    var o := Apply(cfg, m, t, s.waiting, r);
    ChooseGuard(cfg, t, s.waiting, r, answers(s.calls));
    ApplyStored(cfg, m, t, s.waiting, r);
    assert Events(o.rest) == Events(s.waiting);
    EventsAppend(o.rest, [o.record]);
    assert Events([o.record]) == [d] && Events([]) == [];
    FatedDelivered(cfg, m, t, s.waiting, d, s.out, p, e);
  }

  lemma FatedDelivered(cfg: Config, m: Move, t: Record, rest: seq<Record>, d: Event, out: seq<Emission>, p: Event,
      e: Event)
    requires Guard(m, t, Record(d, NO_TAP)) && Pair(p, e) && d != e && d != p && FatedIn(t, Events(rest), out, p, e)
    requires IsEvent(d) && d.key == p.key ==> e.rank < d.rank
    requires rest != [] && IsEvent(t.event) && t.event.pressed ==> t.tap.count <= 1
    ensures var o := Apply(cfg, m, t, rest, Record(d, NO_TAP));
            && FatedIn(o.tapping, Events(rest), out + o.out, p, e)
            && (IsEvent(d) ==> FatedIn(o.tapping, Events(rest) + [d], out + o.out, p, e))
            && FatedIn(NO_RECORD, [], out + o.out, p, e)
  {
    hide Apply, Guard, Before, Settled, Processed;
    if e in Events(rest) && Before(t, Events(rest), out, p) && !Processed(out, e) {
      WhileDelivered(cfg, m, t, rest, d, out, p, e);
    } else {
      AfterBoth(cfg, m, t, rest, Record(d, NO_TAP), out, p, e);
    }
  }

  // ---------------------------------------------------------------- the release that is taken

  /** Before it is delivered, its press waits, was dropped, or is out as a hold or unregistered. */
  lemma PressNow(cfg: Config, answers: Answers, inputs: seq<Event>, p: Event)
    requires AllRanked(inputs) && Increasing(inputs) && Unwrapped(cfg, answers, inputs)
    requires p in inputs && IsEvent(p) && p.pressed && p.rank + 1 == RankOf(inputs, p.key)
    requires var t := Run(cfg, answers, inputs).tapping; Undecided(t) && t.event != p
    ensures var s := Run(cfg, answers, inputs); var es := Events(s.waiting);
            IsWaiting(s.tapping, es, s.out, p) || (NotStored(s.tapping, es, p) && HoldOrExcused(s.out, p))
  {
    hide Run, Excused, RankOf, Increasing, Unwrapped;
    var s := Run(cfg, answers, inputs);
    OnePlace(cfg, answers, inputs, p);
    OnePlace(cfg, answers, inputs, s.tapping.event);
    if p !in Events(s.waiting) {
      forall x | 0 <= x < |s.out| && IsOf(s.out[x], p)
        ensures s.out[x].record.tap.count == 0 || Excused(s.out, p.key, s.out[x].record.tap.count, x, |s.out|)
      {
        LastPress(cfg, answers, inputs, p, x);
      }
    }
  }

  lemma TakenStarts(cfg: Config, answers: Answers, s: State, p: Event, e: Event)
    requires MoveFor(cfg, answers, s, e) == FirstTap && s.tapping.event != p && Pair(p, e)
    requires !Processed(s.out, e) && e !in Events(s.waiting)
    requires var es := Events(s.waiting);
             IsWaiting(s.tapping, es, s.out, p) || (NotStored(s.tapping, es, p) && HoldOrExcused(s.out, p))
    ensures Fated(Deliver(cfg, answers, s, e), p, e)
  {
    hide HoldOrExcused;
    var t' := WithCount(s.tapping, 1);
    var es, out' := Events(s.waiting), s.out + [Real(t')];
    var o := Apply(cfg, FirstTap, s.tapping, s.waiting, Record(e, NO_TAP));
    ChooseGuard(cfg, s.tapping, s.waiting, Record(e, NO_TAP), answers(s.calls));
    EventsAppend(o.rest, [o.record]);
    assert Events([o.record]) == [e] && (es + [e])[|es|] == e;
    assert !Processed([Real(t')], p) && !Processed([Real(t')], e);
    NotLater(s.out, [Real(t')], p);
    NotLater(s.out, [Real(t')], e);
    assert !Processed(out', e);
    if HoldOrExcused(s.out, p) {
      NothingOf([Real(t')], p);
      HoldOrExcusedGrows(s.out, [Real(t')], p);
    }
  }

  lemma {:induction false} RunFated(cfg: Config, answers: Answers, inputs: seq<Event>, more: seq<Event>, p: Event,
      e: Event)
    requires AllRanked(inputs + more) && p in inputs && e in inputs && Pair(p, e)
    requires Fated(Run(cfg, answers, inputs), p, e) && Counted(Run(cfg, answers, inputs), e)
    ensures Fated(Run(cfg, answers, inputs + more), p, e)
    decreases |more|
  {
    hide Run, Process, Deliver, Drain, Counted, Fated, KeptIn, WellFormed, NoneBehindTaps, AllRanked, RankOf,
      NotStalledReleased;
    if more == [] {
      assert inputs + more == inputs;
    } else {
      var init, d := more[..|more| - 1], more[|more| - 1];
      var all := inputs + init;
      assert inputs + more == all + [d];
      var s := Run(cfg, answers, all);
      AllRankedPrefix(all, [d]);
      RunFated(cfg, answers, inputs, init, p, e);
      RunCounts(cfg, answers, inputs, init, e);
      RunOne(cfg, answers, all, d);
      ProcessIsDrain(cfg, answers, s, d);
      NotAgain(all, d, e);
      NotAgain(all, d, p);
      NewestRank(all, d, e);
      RunEmpties(cfg, answers, all);
      DeliverFatedPair(cfg, answers, s, d, p, e);
      DeliverCounts(cfg, answers, s, d, e);
      LastRanked(all, d);
      RunKept(cfg, answers, all, p.key);
      DeliveredKept(cfg, answers, all, d, p.key);
      DrainFated(cfg, answers, Deliver(cfg, answers, s, d), p, e, RankOf(all + [d], p.key));
    }
  }

  /** A later event of the key has a higher rank. */
  lemma NewestRank(before: seq<Event>, d: Event, e: Event)
    requires AllRanked(before + [d]) && e in before && IsEvent(e)
    ensures IsEvent(d) && d.key == e.key ==> e.rank < d.rank
  {
    var all := before + [d];
    var i :| 0 <= i < |before| && before[i] == e;
    assert all[i] == e && all[|before|] == d && Ranked(all[..i], all[i]) && Ranked(all[..|before|], all[|before|]);
    RankPasses(all, i, |before|);
  }

  /** In every run with increasing times that does not wrap round onto stored events, whatever was delivered in turn
      or not: a release that is taken for that of the undecided tapping key, which is not its press, disagrees with its
      press, in every continuation whatsoever, if and only if both are processed and the press with count 0. */
  lemma TakenReleaseIff(cfg: Config, answers: Answers, inputs: seq<Event>, e: Event, more: seq<Event>, press: Event)
    requires AllRanked(inputs + [e] + more) && Increasing(inputs) && Unwrapped(cfg, answers, inputs)
    requires IsEvent(e) && !e.pressed && MoveFor(cfg, answers, Run(cfg, answers, inputs), e) == FirstTap
    requires press in inputs && IsEvent(press) && press.key == e.key && press.rank + 1 == e.rank
    requires Run(cfg, answers, inputs).tapping.event != press
    ensures var out := Run(cfg, answers, inputs + [e] + more).out;
            !PairAgrees(e.key, out, press.rank) <==> ProcessedWith(out, press, 0) && Processed(out, e)
  {
    hide Run, MoveFor, AllRanked, Increasing, Unwrapped, PairAgrees, Fated;
    var all := inputs + [e] + more;
    var out := Run(cfg, answers, all).out;
    TakenFated(cfg, answers, inputs, e, more, press);
    if ProcessedWith(out, press, 0) && Processed(out, e) {
      assert all == inputs + ([e] + more);
      ParityOf(all, press);
      ParityOf(all, e);
      TakenReleaseDisagrees(cfg, answers, inputs, e, more, press);
    } else {
      FatedAgrees(cfg, answers, all, press, e);
    }
  }

  lemma TakenFated(cfg: Config, answers: Answers, inputs: seq<Event>, e: Event, more: seq<Event>, press: Event)
    requires AllRanked(inputs + [e] + more) && Increasing(inputs) && Unwrapped(cfg, answers, inputs)
    requires IsEvent(e) && !e.pressed && MoveFor(cfg, answers, Run(cfg, answers, inputs), e) == FirstTap
    requires press in inputs && IsEvent(press) && press.key == e.key && press.rank + 1 == e.rank
    requires Run(cfg, answers, inputs).tapping.event != press
    ensures Pair(press, e) && Fated(Run(cfg, answers, inputs + [e] + more), press, e)
  {
    hide Run, Process, Deliver, Drain, MoveFor, AllRanked, Increasing, Unwrapped, Fated, RankOf, Counted, KeptIn,
      WellFormed, HoldOrExcused;
    var s0 := Run(cfg, answers, inputs);
    assert inputs + [e] + more == inputs + ([e] + more);
    AllRankedPrefix(inputs, [e] + more);
    AllRankedPrefix(inputs + [e], more);
    ParityOf(inputs + [e], press);
    ParityOf(inputs + [e], e);
    RankNow(inputs, e, more);
    TakesUndecided(cfg, answers, s0, e);
    PressNow(cfg, answers, inputs, press);
    NotReceivedYet(cfg, answers, inputs, e, more);
    TakenStarts(cfg, answers, s0, press, e);
    DeliverTaken(cfg, answers, s0, e);
    RunKept(cfg, answers, inputs, press.key);
    DeliveredKept(cfg, answers, inputs, e, press.key);
    RunOne(cfg, answers, inputs, e);
    ProcessIsDrain(cfg, answers, s0, e);
    DrainFated(cfg, answers, Deliver(cfg, answers, s0, e), press, e, RankOf(inputs + [e], press.key));
    DrainCounts(cfg, answers, Deliver(cfg, answers, s0, e), e);
    RunFated(cfg, answers, inputs + [e], more, press, e);
  }

  lemma TakesUndecided(cfg: Config, answers: Answers, s: State, e: Event)
    requires MoveFor(cfg, answers, s, e) == FirstTap
    ensures Undecided(s.tapping)
  {}

  lemma FatedAgrees(cfg: Config, answers: Answers, inputs: seq<Event>, p: Event, e: Event)
    requires AllRanked(inputs) && Pair(p, e) && p in inputs && e in inputs
    requires Fated(Run(cfg, answers, inputs), p, e)
    requires var out := Run(cfg, answers, inputs).out; !(ProcessedWith(out, p, 0) && Processed(out, e))
    ensures PairAgrees(p.key, Run(cfg, answers, inputs).out, p.rank)
  {
    hide Run, AllRanked, Excused, Before, NotStored;
    var out := Run(cfg, answers, inputs).out;
    forall x, y | 0 <= x < |out| && 0 <= y < |out| && IsReal(out[x], p.key) && IsReal(out[y], p.key)
      && out[x].record.event.rank == p.rank && out[y].record.event.rank == p.rank + 1
      ensures IsOf(out[x], p) && IsOf(out[y], e)
    {
      ProcessedIs(cfg, answers, inputs, x, p);
      ProcessedIs(cfg, answers, inputs, y, e);
    }
  }

  /** Every release that is not in turn, in every run with increasing times that does not wrap round onto stored events:
      unless it is the first tap of its own press, it disagrees with its press, in every continuation whatsoever, if and
      only if
      - it is taken for that of another press, and both are processed, the press with count 0;
      - or it is processed at once, and the press waits and is processed later, or the tapping key is a press of the
        key and the release's own press was processed with count 0. */
  lemma OutOfTurnIff(cfg: Config, answers: Answers, inputs: seq<Event>, e: Event, more: seq<Event>, press: Event)
    requires AllRanked(inputs + [e] + more) && Increasing(inputs) && Unwrapped(cfg, answers, inputs)
    requires IsEvent(e) && !e.pressed && !InTurn(cfg, Run(cfg, answers, inputs), e)
    requires press in inputs && IsEvent(press) && press.key == e.key && press.rank + 1 == e.rank
    requires MoveFor(cfg, answers, Run(cfg, answers, inputs), e) == FirstTap ==>
               Run(cfg, answers, inputs).tapping.event != press
    ensures var s, out := Run(cfg, answers, inputs), Run(cfg, answers, inputs + [e] + more).out;
            !PairAgrees(e.key, out, press.rank) <==>
            if MoveFor(cfg, answers, s, e) == FirstTap then ProcessedWith(out, press, 0) && Processed(out, e)
            else || (press in Events(s.waiting) && Processed(out, press))
                 || (Holds(s.tapping, e.key) && ProcessedWith(s.out, press, 0))
  {
    hide Run, MoveFor, AllRanked, Increasing, Unwrapped, PairAgrees, InTurn, ProcessedWith, Processed;
    ReleaseOutOfTurn(cfg, answers, Run(cfg, answers, inputs), e);
    if MoveFor(cfg, answers, Run(cfg, answers, inputs), e) == FirstTap {
      TakenReleaseIff(cfg, answers, inputs, e, more, press);
    } else {
      AtOnceIff(cfg, answers, inputs, e, more, press);
    }
  }
}
