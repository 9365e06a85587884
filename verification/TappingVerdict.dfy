/** A key's release is processed with the tap count of its press. This needs events of one key to be
    handled in turn, which the state machine does not enforce by itself: `OvertakenRelease` and
    `SkippedRelease` are runs where it fails. */
module TappingVerdict {
  import opened TappingModel
  import opened TappingRuns

  // ---------------------------------------------------------------- what is claimed

  /** Number of events of a key in a run. */
  function RankOf(inputs: seq<Event>, k: Key): nat {
    if inputs == [] then 0
    else
      var e := inputs[|inputs| - 1];
      RankOf(inputs[..|inputs| - 1], k) + (if IsEvent(e) && e.key == k then 1 else 0)
  }

  /** Event `e` comes next in the stream of its key: presses and releases alternate, a press first. */
  predicate Ranked(inputs: seq<Event>, e: Event) {
    IsEvent(e) ==> e.rank == RankOf(inputs, e.key) && (e.pressed <==> e.rank % 2 == 0)
  }

  predicate Holds(t: Record, k: Key) {
    IsEvent(t.event) && t.event.pressed && t.event.key == k
  }

  predicate Window(earlier: Event, later: Event) {
    earlier.time <= later.time < earlier.time + 0x1_0000
  }

  /** No 16-bit wrap between the event and the stored events of its key. */
  predicate Timely(s: State, e: Event) {
    IsEvent(e) ==>
      && (Holds(s.tapping, e.key) ==> Window(s.tapping.event, e))
      && forall i :: 0 <= i < |s.waiting| && s.waiting[i].event.key == e.key ==> Window(s.waiting[i].event, e)
  }

  predicate AnyOf(k: Key, rs: seq<Record>) {
    exists i :: 0 <= i < |rs| && rs[i].event.key == k
  }

  /** The event will not be handled before buffered events of its own key: either none is buffered,
      or the tapping key is undecided and the event is not taken for its release, or the tapping key
      is a released tap that has timed out. */
  predicate InTurn(cfg: Config, s: State, e: Event) {
    var t := s.tapping;
    IsEvent(e) && AnyOf(e.key, s.waiting) ==>
      && IsEvent(t.event)
      && (t.event.pressed ==> t.tap.count == 0 && !(t.event.key == e.key && !e.pressed && WithinTerm(cfg, t, e)))
      && (!t.event.pressed ==> !WithinTerm(cfg, t, e))
  }

  /** Every event of the run is ranked, timely and delivered in turn. */
  predicate Orderly(cfg: Config, answers: Answers, inputs: seq<Event>) {
    inputs == [] ||
    (var before, e := inputs[..|inputs| - 1], inputs[|inputs| - 1];
     var s := Run(cfg, answers, before);
     Orderly(cfg, answers, before) && Ranked(before, e) && Timely(s, e) && InTurn(cfg, s, e))
  }

  predicate IsReal(m: Emission, k: Key) {
    m.Real? && m.record.event.key == k
  }

  /** A synthetic release of the key carrying `count` was processed at a position in lo..hi. */
  predicate Excused(out: seq<Emission>, k: Key, count: nat, lo: nat, hi: nat) {
    exists z :: lo < z < hi && z < |out| && out[z].Synthetic? && out[z].record.event.key == k &&
      out[z].record.tap.count == count
  }

  /** Verdict agreement for one key: a release is processed after its press, and with the same tap
      count unless a synthetic release carrying that count was processed in between. */
  predicate Agree(k: Key, out: seq<Emission>) {
    forall x, y ::
      && 0 <= x < |out| && 0 <= y < |out|
      && IsReal(out[x], k) && IsReal(out[y], k)
      && out[x].record.event.pressed
      && out[y].record.event.rank == out[x].record.event.rank + 1
      ==> (x < y && (out[y].record.tap.count == out[x].record.tap.count
                     || Excused(out, k, out[x].record.tap.count, x, y)))
  }

  // ---------------------------------------------------------------- the processed events of a key

  /** Processed events of the key have ranks below the bound; even ranks are the presses. */
  predicate Bounded(k: Key, out: seq<Emission>, bound: int) {
    forall x :: 0 <= x < |out| && IsReal(out[x], k) ==>
      out[x].record.event.rank < bound && (out[x].record.event.pressed <==> out[x].record.event.rank % 2 == 0)
  }

  /** A processed press of rank `p` has count `want`, or is excused when that is allowed. */
  predicate Pending(k: Key, out: seq<Emission>, p: int, want: nat, strict: bool) {
    forall x :: 0 <= x < |out| && IsReal(out[x], k) && out[x].record.event.rank == p && out[x].record.event.pressed ==>
      out[x].record.tap.count == want || (!strict && Excused(out, k, out[x].record.tap.count, x, |out|))
  }

  lemma ExcusedGrows(out: seq<Emission>, m: Emission, k: Key, count: nat, lo: nat, hi: nat, hi': nat)
    requires Excused(out, k, count, lo, hi) && hi <= hi'
    ensures Excused(out + [m], k, count, lo, hi')
  {
    var z :| lo < z < hi && z < |out| && out[z].Synthetic? && out[z].record.event.key == k &&
      out[z].record.tap.count == count;
    assert (out + [m])[z] == out[z];
  }

  lemma PendingGrows(k: Key, out: seq<Emission>, m: Emission, p: int, want: nat, strict: bool)
    requires Pending(k, out, p, want, strict)
    requires !IsReal(m, k) || m.record.event.rank != p || !m.record.event.pressed
    ensures Pending(k, out + [m], p, want, strict)
  {
    var out' := out + [m];
    forall x | 0 <= x < |out'| && IsReal(out'[x], k) && out'[x].record.event.rank == p && out'[x].record.event.pressed
      ensures out'[x].record.tap.count == want || (!strict && Excused(out', k, out'[x].record.tap.count, x, |out'|))
    {
      assert x < |out| && out'[x] == out[x];
      if out[x].record.tap.count != want { ExcusedGrows(out, m, k, out[x].record.tap.count, x, |out|, |out'|); }
    }
  }

  /** Two processed records are press and release of one pair. */
  predicate IsPair(k: Key, a: Emission, b: Emission) {
    IsReal(a, k) && IsReal(b, k) && a.record.event.pressed && b.record.event.rank == a.record.event.rank + 1
  }

  lemma AgreeGrows(k: Key, out: seq<Emission>, m: Emission)
    requires Agree(k, out)
    requires forall x :: 0 <= x < |out| ==> !IsPair(k, m, out[x])
    requires forall x :: 0 <= x < |out| && IsPair(k, out[x], m) ==>
               m.record.tap.count == out[x].record.tap.count || Excused(out, k, out[x].record.tap.count, x, |out|)
    ensures Agree(k, out + [m])
  {
    var out' := out + [m];
    forall x, y | 0 <= x < |out'| && 0 <= y < |out'| && IsPair(k, out'[x], out'[y])
      ensures x < y && (out'[y].record.tap.count == out'[x].record.tap.count ||
              Excused(out', k, out'[x].record.tap.count, x, y))
    {
      if x < |out| && y < |out| {
        if out[y].record.tap.count != out[x].record.tap.count {
          ExcusedGrows(out, m, k, out[x].record.tap.count, x, y, y);
        }
      } else if x < |out| {
        if m.record.tap.count != out[x].record.tap.count { ExcusedGrows(out, m, k, out[x].record.tap.count, x, y, y); }
      }
    }
  }

  /** A synthetic release, or a record of another key, is processed. */
  lemma ProcessOther(k: Key, out: seq<Emission>, m: Emission, bound: int, p: int, want: nat, strict: bool)
    requires Agree(k, out) && Bounded(k, out, bound) && Pending(k, out, p, want, strict)
    requires !IsReal(m, k)
    ensures Agree(k, out + [m]) && Bounded(k, out + [m], bound) && Pending(k, out + [m], p, want, strict)
  {
    AgreeGrows(k, out, m);
    PendingGrows(k, out, m, p, want, strict);
  }

  /** The press of rank `p` is processed. */
  lemma ProcessPress(k: Key, out: seq<Emission>, m: Emission, p: nat)
    requires Agree(k, out) && Bounded(k, out, p)
    requires IsReal(m, k) && m.record.event.rank == p && m.record.event.pressed && p % 2 == 0
    ensures Agree(k, out + [m]) && Bounded(k, out + [m], p + 1) && Pending(k, out + [m], p, m.record.tap.count, true)
  {
    AgreeGrows(k, out, m);
  }

  /** The release that follows the press of rank `p` is processed. */
  lemma ProcessRelease(k: Key, out: seq<Emission>, m: Emission, p: nat, strict: bool, want: nat, any: bool)
    requires Agree(k, out) && Bounded(k, out, p + 1) && Pending(k, out, p, m.record.tap.count, strict)
    requires IsReal(m, k) && m.record.event.rank == p + 1 && !m.record.event.pressed && p % 2 == 0
    ensures Agree(k, out + [m]) && Bounded(k, out + [m], p + 2)
    ensures Pending(k, out + [m], p + 1, want, any)
  {
    AgreeGrows(k, out, m);
  }

  /** The press of rank `p` is unregistered by a synthetic release with its count. */
  lemma ProcessSynthetic(k: Key, out: seq<Emission>, m: Emission, bound: int, p: int, want: nat)
    requires Agree(k, out) && Bounded(k, out, bound) && Pending(k, out, p, m.record.tap.count, true)
    requires m.Synthetic? && m.record.event.key == k
    ensures Agree(k, out + [m]) && Bounded(k, out + [m], bound) && Pending(k, out + [m], p, want, false)
  {
    AgreeGrows(k, out, m);
    var out' := out + [m];
    assert out'[|out|] == m;
  }

  // ---------------------------------------------------------------- the stored events of a key

  /** The stored records of one key, in order. */
  function Of(k: Key, rs: seq<Record>): (r: seq<Record>)
    ensures |r| <= |rs|
  {
    if rs == [] then [] else (if rs[0].event.key == k then [rs[0]] else []) + Of(k, rs[1..])
  }

  lemma {:induction false} OfAppend(k: Key, a: seq<Record>, b: seq<Record>)
    ensures Of(k, a + b) == Of(k, a) + Of(k, b)
  {
    if a == [] {
      assert a + b == b;
    } else {
      assert (a + b)[1..] == a[1..] + b;
      OfAppend(k, a[1..], b);
    }
  }

  lemma {:induction false} OfMember(k: Key, rs: seq<Record>, i: nat) returns (j: nat)
    requires i < |rs| && rs[i].event.key == k
    ensures j < |Of(k, rs)| && Of(k, rs)[j] == rs[i]
  {
    if i == 0 {
      j := 0;
    } else {
      j := OfMember(k, rs[1..], i - 1);
      if rs[0].event.key == k { j := j + 1; }
    }
  }

  lemma {:induction false} OfSource(k: Key, rs: seq<Record>, j: nat) returns (i: nat)
    requires j < |Of(k, rs)|
    ensures i < |rs| && rs[i].event.key == k && rs[i] == Of(k, rs)[j]
    ensures j == 0 ==> forall i' :: 0 <= i' < i ==> rs[i'].event.key != k
  {
    if rs[0].event.key == k {
      if j == 0 {
        i := 0;
      } else {
        i := OfSource(k, rs[1..], j - 1);
        i := i + 1;
      }
    } else {
      i := OfSource(k, rs[1..], j);
      i := i + 1;
      assert forall i' :: 1 <= i' < i ==> rs[i'] == rs[1..][i' - 1];
    }
  }

  /** Stamping a record leaves the records of other keys alone, and the first record of its own key
      is the first of `Of`. */
  lemma {:induction false} OfUpdate(k: Key, rs: seq<Record>, i: nat, x: Record)
    requires i < |rs| && x.event.key == rs[i].event.key
    ensures rs[i].event.key != k ==> Of(k, rs[i := x]) == Of(k, rs)
    ensures rs[i].event.key == k && (forall i' :: 0 <= i' < i ==> rs[i'].event.key != k) ==>
              |Of(k, rs)| > 0 && Of(k, rs)[0] == rs[i] && Of(k, rs[i := x]) == Of(k, rs)[0 := x]
  {
    if i == 0 {
      assert rs[i := x][1..] == rs[1..];
    } else {
      assert rs[i := x][1..] == rs[1..][i - 1 := x];
      OfUpdate(k, rs[1..], i - 1, x);
    }
  }

  /** The stored events of a key: the pressed tapping key, then the waiting ones. */
  function Queue(k: Key, t: Record, waiting: seq<Record>): seq<Event> {
    (if Holds(t, k) then [t.event] else []) + Events(waiting)
  }

  /** Consecutive ranks up to the last received, presses and releases alternating, one time window. */
  predicate InOrder(k: Key, q: seq<Event>, n: nat) {
    && |q| <= n
    && (forall i :: 0 <= i < |q| ==>
         IsEvent(q[i]) && q[i].key == k && q[i].rank == n - |q| + i && (q[i].pressed <==> q[i].rank % 2 == 0))
    && (forall i, j :: 0 <= i <= j < |q| ==> Window(q[i], q[j]))
  }

  /** Only the first waiting record of a key may be stamped, and not while its press is undecided; a
      tap whose count is 1 is followed by its stamped release. */
  predicate Stamped(k: Key, t: Record, waiting: seq<Record>) {
    && (forall i :: 0 <= i < |waiting| && waiting[i].tap.count != 0 ==> i == 0 && !(Holds(t, k) && Undecided(t)))
    && (Holds(t, k) && t.tap.count == 1 ==> |waiting| > 0 && waiting[0].tap.count == 1)
  }

  function OwedOf(k: Key, t: Record): nat {
    if Holds(t, k) && Undecided(t) then 1 else 0
  }

  /** The tap count the release of the last processed press is going to have. */
  function NextStamp(k: Key, t: Record, waiting: seq<Record>): nat {
    if Holds(t, k) then t.tap.count else if waiting == [] then 0 else waiting[0].tap.count
  }

  /** The invariant for one key: `waiting` are its waiting records, `n` of its events were received. */
  predicate KeyInv(k: Key, t: Record, waiting: seq<Record>, out: seq<Emission>, n: nat) {
    && InOrder(k, Queue(k, t, waiting), n)
    && Stamped(k, t, waiting)
    && Agree(k, out)
    && Bounded(k, out, n - |waiting| - OwedOf(k, t))
    && Pending(k, out, n - |waiting| - 1, NextStamp(k, t, waiting), Holds(t, k))
  }

  // ---------------------------------------------------------------- one move, one key

  /** The tapping key changes from one that does not hold the key to another that does not. */
  lemma Retarget(k: Key, t: Record, t': Record, w: seq<Record>, out: seq<Emission>, n: nat)
    requires KeyInv(k, t, w, out, n) && !Holds(t, k) && !Holds(t', k)
    ensures KeyInv(k, t', w, out, n)
  {}

  /** A record of another key, or a synthetic release, is processed. */
  lemma PassOther(k: Key, t: Record, w: seq<Record>, out: seq<Emission>, n: nat, m: Emission)
    requires KeyInv(k, t, w, out, n) && !IsReal(m, k)
    ensures KeyInv(k, t, w, out + [m], n)
  {
    ProcessOther(k, out, m, n - |w| - OwedOf(k, t), n - |w| - 1, NextStamp(k, t, w), Holds(t, k));
  }

  /** Once the tapping key no longer holds the key, the waiting records remain in order. */
  lemma HeadLeaves(k: Key, t: Record, t': Record, w: seq<Record>, n: nat)
    requires InOrder(k, Queue(k, t, w), n) && !Holds(t', k)
    ensures InOrder(k, Queue(k, t', w), n)
    ensures Holds(t, k) ==> t.event.rank == n - |w| - 1 && t.event.rank % 2 == 0
  {
    var q := Queue(k, t, w);
    if Holds(t, k) {
      assert q[0] == t.event;
      assert Queue(k, t', w) == q[1..];
    } else {
      assert Queue(k, t', w) == q;
    }
  }

  /** The undecided tapping key is processed as a hold. */
  lemma SettleKey(k: Key, t: Record, w: seq<Record>, out: seq<Emission>, n: nat, m: Emission)
    requires KeyInv(k, t, w, out, n) && Undecided(t)
    requires m.Real? && m.record.event == t.event && m.record.tap.count == 0
    ensures KeyInv(k, NO_RECORD, w, out + [m], n)
  {
    HeadLeaves(k, t, NO_RECORD, w, n);
    if Holds(t, k) {
      ProcessPress(k, out, m, t.event.rank);
    } else {
      PassOther(k, t, w, out, n, m);
    }
  }

  /** A decided tapping key of count 1 is replaced: its stamped release is waiting. */
  lemma ForgetTap(k: Key, t: Record, t': Record, w: seq<Record>, out: seq<Emission>, n: nat)
    requires KeyInv(k, t, w, out, n) && !Holds(t', k) && (Holds(t, k) ==> t.tap.count == 1)
    ensures KeyInv(k, t', w, out, n)
  {
    HeadLeaves(k, t, t', w, n);
  }

  /** A decided tapping key is unregistered by a synthetic release. */
  lemma UnregisterTap(k: Key, t: Record, t': Record, w: seq<Record>, out: seq<Emission>, n: nat, m: Emission)
    requires KeyInv(k, t, w, out, n) && !Holds(t', k)
    requires m.Synthetic? && m.record.event.key == t.event.key && m.record.tap == t.tap && t.tap.count > 1
    ensures KeyInv(k, t', w, out + [m], n)
  {
    HeadLeaves(k, t, t', w, n);
    if Holds(t, k) {
      ProcessSynthetic(k, out, m, n - |w|, n - |w| - 1, NextStamp(k, t', w));
    } else {
      PassOther(k, t, w, out, n, m);
    }
  }

  lemma ScanOther(cfg: Config, k: Key, r: Record, rest: seq<Record>)
    requires r.event.key != k
    ensures var s := Scan(cfg, r, rest);
            && Of(k, s.waiting) == Of(k, rest) && !Holds(s.tapping, k) && |s.out| <= 1
            && forall i :: 0 <= i < |s.out| ==> !IsReal(s.out[i], k)
  {
    var i := FirstCandidate(cfg, r, rest);
    if i < |rest| { OfUpdate(k, rest, i, WithCount(rest[i], 1)); }
  }

  lemma OtherKeyStarts(cfg: Config, k: Key, t: Record, rest: seq<Record>, r: Record, out: seq<Emission>, n: nat)
    requires Guard(Start, t, r) && r.event.key != k
    requires KeyInv(k, t, Of(k, rest), out, n)
    ensures var o := Apply(cfg, Start, t, rest, r);
            KeyInv(k, o.tapping, Of(k, o.rest), out + o.out, n)
  {
    var s := Scan(cfg, r, rest);
    ScanOther(cfg, k, r, rest);
    ForgetTap(k, t, s.tapping, Of(k, rest), out, n);
    if |s.out| == 1 {
      PassOther(k, s.tapping, Of(k, rest), out, n, s.out[0]);
      assert s.out == [s.out[0]];
    } else {
      assert out + s.out == out;
    }
  }

  lemma OtherKeyStartsReleasing(cfg: Config, k: Key, t: Record, rest: seq<Record>, r: Record, out: seq<Emission>,
      n: nat)
    requires Guard(StartReleasing, t, r) && r.event.key != k
    requires KeyInv(k, t, Of(k, rest), out, n)
    ensures var o := Apply(cfg, StartReleasing, t, rest, r);
            KeyInv(k, o.tapping, Of(k, o.rest), out + o.out, n)
  {
    var o := Apply(cfg, StartReleasing, t, rest, r);
    var s := Scan(cfg, r, rest);
    var out1 := out + [o.out[0]];
    ScanOther(cfg, k, r, rest);
    UnregisterTap(k, t, s.tapping, Of(k, rest), out, n, o.out[0]);
    if |s.out| == 1 {
      PassOther(k, s.tapping, Of(k, rest), out1, n, s.out[0]);
      assert out1 + [s.out[0]] == out + o.out;
    } else {
      assert out1 == out + o.out;
    }
  }

  /** A call of `process_tapping` on a record of another key. */
  lemma OtherKey(cfg: Config, m: Move, k: Key, t: Record, rest: seq<Record>, r: Record, out: seq<Emission>, n: nat)
    requires Guard(m, t, r) && (IsEvent(r.event) ==> r.event.key != k)
    requires KeyInv(k, t, Of(k, rest), out, n)
    ensures var o := Apply(cfg, m, t, rest, r);
            KeyInv(k, o.tapping, Of(k, o.rest), out + o.out, n)
  {
    var w := Of(k, rest);
    var o := Apply(cfg, m, t, rest, r);
    if m.Start? {
      OtherKeyStarts(cfg, k, t, rest, r, out, n);
    } else if m.StartReleasing? {
      OtherKeyStartsReleasing(cfg, k, t, rest, r, out, n);
    } else if m.Settle? || m.SettleInterrupt? {
      SettleKey(k, t, w, out, n, o.out[0]);
    } else if m.WaitInterrupt? {
      assert Queue(k, o.tapping, w) == Queue(k, t, w);
      assert out + o.out == out;
    } else {
      if |o.out| == 1 {
        PassOther(k, t, w, out, n, o.out[0]);
      } else {
        assert out + o.out == out;
      }
      if o.tapping != t { Retarget(k, t, o.tapping, w, out + o.out, n); }
    }
  }

  /** The record in hand is the oldest waiting record of its key: where it and the tapping key rank. */
  lemma FrontRank(k: Key, t: Record, r: Record, w: seq<Record>, n: nat)
    requires InOrder(k, Queue(k, t, [r] + w), n)
    ensures r.event.key == k && r.event.rank == n - |w| - 1 && (r.event.pressed <==> r.event.rank % 2 == 0)
    ensures Holds(t, k) ==> t.event.rank == n - |w| - 2 && t.event.rank % 2 == 0 && !r.event.pressed
    ensures InOrder(k, Events(w), n)
  {
    var q := Queue(k, t, [r] + w);
    var at := if Holds(t, k) then 1 else 0;
    assert q[at] == r.event && |q| == at + 1 + |w|;
    assert Holds(t, k) ==> q[0] == t.event;
    assert Events(w) == q[at + 1..];
    forall i, j | 0 <= i <= j < |w| ensures Window(Events(w)[i], Events(w)[j]) {
      assert Window(q[at + 1 + i], q[at + 1 + j]);
    }
  }

  /** The record is processed as it is. */
  lemma FrontPasses(k: Key, t: Record, t': Record, r: Record, w: seq<Record>, out: seq<Emission>, n: nat)
    requires KeyInv(k, t, [r] + w, out, n) && Buffered(r)
    requires !Holds(t, k) && !Holds(t', k)
    ensures KeyInv(k, t', w, out + [Real(r)], n)
  {
    FrontRank(k, t, r, w, n);
    assert ([r] + w)[0] == r && forall i :: 0 <= i < |w| ==> ([r] + w)[i + 1] == w[i];
    if r.event.pressed {
      ProcessPress(k, out, Real(r), r.event.rank);
    } else {
      ProcessRelease(k, out, Real(r), r.event.rank - 1, false, NextStamp(k, t', w), false);
    }
  }

  /** The record becomes the undecided tapping key. */
  lemma FrontStarts(k: Key, t: Record, r: Record, w: seq<Record>, out: seq<Emission>, n: nat)
    requires KeyInv(k, t, [r] + w, out, n) && Buffered(r) && r.event.pressed
    ensures KeyInv(k, r, w, out, n)
  {
    FrontRank(k, t, r, w, n);
    assert ([r] + w)[0] == r && forall i :: 0 <= i < |w| ==> ([r] + w)[i + 1] == w[i];
    assert Queue(k, r, w) == Queue(k, t, [r] + w);
  }

  /** The record becomes a decided tapping key and is processed with its count; if that count is 1,
      its release is stamped. */
  lemma FrontTaps(k: Key, t: Record, r: Record, r': Record, w: seq<Record>, w': seq<Record>, out: seq<Emission>, n: nat)
    requires KeyInv(k, t, [r] + w, out, n) && Buffered(r) && r.event.pressed
    requires r'.event == r.event && r'.tap.count >= 1
    requires if r'.tap.count == 1 then |w| > 0 && w' == w[0 := WithCount(w[0], 1)] else w' == w
    ensures KeyInv(k, r', w', out + [Real(r')], n)
  {
    hide Agree, Bounded, Pending, InOrder;
    FrontRank(k, t, r, w, n);
    assert ([r] + w)[0] == r && forall i :: 0 <= i < |w| ==> ([r] + w)[i + 1] == w[i];
    assert Queue(k, r', w') == Queue(k, t, [r] + w);
    ProcessPress(k, out, Real(r'), r.event.rank);
  }

  /** The undecided tapping key is a tap, and the record is its release. */
  lemma FrontIsFirstTap(k: Key, t: Record, r: Record, w: seq<Record>, out: seq<Emission>, n: nat)
    requires KeyInv(k, t, [r] + w, out, n) && Undecided(t) && Holds(t, k)
    ensures var t' := WithCount(t, 1);
            KeyInv(k, t', [r.(tap := t'.tap)] + w, out + [Real(t')], n)
  {
    hide Agree, InOrder, Queue, Bounded, Pending;
    var t' := WithCount(t, 1);
    var r' := r.(tap := t'.tap);
    FrontRank(k, t, r, w, n);
    SameQueue(k, t, t', r, r', w);
    assert Stamped(k, t', [r'] + w) by {
      assert forall i :: 0 <= i < |w| ==> ([r] + w)[i + 1] == w[i] == ([r'] + w)[i + 1];
    }
    ProcessPress(k, out, Real(t'), t.event.rank);
  }

  lemma SameQueue(k: Key, t: Record, t': Record, r: Record, r': Record, w: seq<Record>)
    requires t'.event == t.event && r'.event == r.event
    ensures Queue(k, t', [r'] + w) == Queue(k, t, [r] + w)
  {}

  /** The record is the release of the decided tapping key and takes its count. */
  lemma FrontReleases(k: Key, t: Record, t': Record, r: Record, w: seq<Record>, out: seq<Emission>, n: nat)
    requires KeyInv(k, t, [r] + w, out, n) && Holds(t, k) && t.tap.count > 0 && !Holds(t', k)
    ensures KeyInv(k, t', w, out + [Real(r.(tap := t.tap))], n)
  {
    FrontRank(k, t, r, w, n);
    assert forall i :: 0 <= i < |w| ==> ([r] + w)[i + 1] == w[i];
    ProcessRelease(k, out, Real(r.(tap := t.tap)), t.event.rank, true, NextStamp(k, t', w), false);
  }

  /** The buffered release that makes a record a tap is the next event of its key. */
  lemma ScanOwn(cfg: Config, k: Key, r: Record, rest: seq<Record>, n: nat)
    requires InOrder(k, Queue(k, r, Of(k, rest)), n)
    requires r.event.key == k && r.event.pressed && IsEvent(r.event)
    ensures var i := FirstCandidate(cfg, r, rest);
            i < |rest| ==>
              var w := Of(k, rest);
              |w| > 0 && rest[i] == w[0] && Of(k, rest[i := WithCount(rest[i], 1)]) == w[0 := WithCount(w[0], 1)]
  {
    var i := FirstCandidate(cfg, r, rest);
    if i < |rest| {
      var w := Of(k, rest);
      var j := OfMember(k, rest, i);
      var first := OfSource(k, rest, 0);
      var q := Queue(k, r, w);
      assert q[0] == r.event && q[1] == w[0].event && q[j + 1] == w[j].event;
      assert Window(q[0], q[1]) && Window(q[1], q[j + 1]) && Window(q[0], q[j + 1]);
      assert TapCandidate(cfg, r, rest[first]);
      assert first == i;
      OfUpdate(k, rest, i, WithCount(rest[i], 1));
    }
  }

  lemma SameKeyStarts(cfg: Config, k: Key, t: Record, rest: seq<Record>, r: Record, out: seq<Emission>, n: nat)
    requires r.event.key == k && Buffered(r) && r.event.pressed
    requires KeyInv(k, t, [r] + Of(k, rest), out, n)
    ensures var s := Scan(cfg, r, rest);
            KeyInv(k, s.tapping, Of(k, s.waiting), out + s.out, n)
  {
    var w := Of(k, rest);
    FrontStarts(k, t, r, w, out, n);
    ScanOwn(cfg, k, r, rest, n);
    var i := FirstCandidate(cfg, r, rest);
    if i < |rest| {
      FrontTaps(k, t, r, WithCount(r, 1), w, w[0 := WithCount(w[0], 1)], out, n);
    } else {
      assert out + [] == out;
    }
  }

  lemma SameKeyStartsReleasing(cfg: Config, k: Key, t: Record, rest: seq<Record>, r: Record, out: seq<Emission>, n: nat)
    requires r.event.key == k && Buffered(r) && Guard(StartReleasing, t, r)
    requires KeyInv(k, t, [r] + Of(k, rest), out, n)
    ensures var o := Apply(cfg, StartReleasing, t, rest, r);
            KeyInv(k, o.tapping, Of(k, o.rest), out + o.out, n)
  {
    var o := Apply(cfg, StartReleasing, t, rest, r);
    var out1 := out + [o.out[0]];
    FrontRank(k, t, r, Of(k, rest), n);
    PassOther(k, t, [r] + Of(k, rest), out, n, o.out[0]);
    SameKeyStarts(cfg, k, t, rest, r, out1, n);
    assert out1 + Scan(cfg, r, rest).out == out + o.out;
  }

  /** The records of the key that wait after the call, given that the record in hand goes first. */
  function After(k: Key, o: Outcome): seq<Record> {
    if o.consumed then Of(k, o.rest) else [o.record] + Of(k, o.rest)
  }

  /** A call of `process_tapping` on the oldest stored record of a key, pressed tapping key aside. */
  lemma SameKey(cfg: Config, m: Move, k: Key, t: Record, rest: seq<Record>, r: Record, out: seq<Emission>, n: nat)
    requires Guard(m, t, r) && r.event.key == k && Buffered(r)
    requires KeyInv(k, t, [r] + Of(k, rest), out, n)
    ensures var o := Apply(cfg, m, t, rest, r);
            KeyInv(k, o.tapping, After(k, o), out + o.out, n)
  {
    var w := Of(k, rest);
    var o := Apply(cfg, m, t, rest, r);
    FrontRank(k, t, r, w, n);
    if m.Start? {
      SameKeyStarts(cfg, k, t, rest, r, out, n);
    } else if m.StartReleasing? {
      SameKeyStartsReleasing(cfg, k, t, rest, r, out, n);
    } else if m.Restart? {
      FrontStarts(k, t, r, w, out, n);
      assert out + o.out == out;
    } else if m.Settle? || m.SettleInterrupt? {
      SettleKey(k, t, [r] + w, out, n, o.out[0]);
    } else if m.Pass? || m.PassInterrupt? {
      FrontPasses(k, t, o.tapping, r, w, out, n);
    } else if m.FirstTap? {
      FrontIsFirstTap(k, t, r, w, out, n);
    } else if m.TapRelease? || m.LastRelease? {
      FrontReleases(k, t, o.tapping, r, w, out, n);
    } else if m.SequentialTap? {
      FrontTaps(k, t, r, o.tapping, w, w, out, n);
    } else {
      assert out + o.out == out;
      assert Queue(k, o.tapping, [r] + w) == Queue(k, t, [r] + w);
    }
  }

  // ---------------------------------------------------------------- one call of action_tapping_process

  /** The invariant of a key in a state of a run that received `n` of its events. */
  predicate Paired(k: Key, s: State, n: nat) {
    KeyInv(k, s.tapping, Of(k, s.waiting), s.out, n)
  }

  lemma OfCons(k: Key, r: Record, rest: seq<Record>)
    ensures Of(k, [r] + rest) == if r.event.key == k then [r] + Of(k, rest) else Of(k, rest)
  {
    assert ([r] + rest)[1..] == rest;
  }

  lemma OfSnoc(k: Key, rest: seq<Record>, r: Record)
    ensures Of(k, rest + [r]) == if r.event.key == k then Of(k, rest) + [r] else Of(k, rest)
  {
    OfAppend(k, rest, [r]);
    assert [r][1..] == [];
  }

  lemma FrontPaired(cfg: Config, answers: Answers, k: Key, s: State, n: nat)
    requires WellFormed(s) && s.waiting != [] && Paired(k, s, n)
    ensures Paired(k, PutBack(s, FrontOutcome(cfg, answers, s)), n)
  {
    var front, rest := s.waiting[0], s.waiting[1..];
    var m := Choose(cfg, s.tapping, rest, front.event, answers(s.calls));
    ChooseGuard(cfg, s.tapping, rest, front, answers(s.calls));
    var o := Apply(cfg, m, s.tapping, rest, front);
    ApplyStored(cfg, m, s.tapping, rest, front);
    OfCons(k, front, rest);
    OfCons(k, o.record, o.rest);
    assert s.waiting == [front] + rest;
    if front.event.key == k {
      SameKey(cfg, m, k, s.tapping, rest, front, s.out, n);
    } else {
      OtherKey(cfg, m, k, s.tapping, rest, front, s.out, n);
    }
  }

  lemma {:induction false} DrainPaired(cfg: Config, answers: Answers, k: Key, s: State, n: nat)
    requires WellFormed(s) && Paired(k, s, n)
    ensures Paired(k, Drain(cfg, answers, s), n)
    decreases |s.waiting|
  {
    if s.waiting != [] {
      FrontPaired(cfg, answers, k, s, n);
      FrontWellFormed(cfg, answers, s);
      var o := FrontOutcome(cfg, answers, s);
      if o.consumed { DrainPaired(cfg, answers, k, PutBack(s, o), n); }
    }
  }

  /** The next event of the key is received behind those that wait. */
  lemma Receive(k: Key, t: Record, w: seq<Record>, out: seq<Emission>, n: nat, e: Event)
    requires KeyInv(k, t, w, out, n)
    requires IsEvent(e) && e.key == k && e.rank == n && (e.pressed <==> n % 2 == 0)
    requires Holds(t, k) ==> Window(t.event, e)
    requires forall i :: 0 <= i < |w| ==> Window(w[i].event, e)
    ensures KeyInv(k, t, w + [Record(e, NO_TAP)], out, n + 1)
  {
    hide Agree, Bounded, Pending, InOrder, Queue;
    var w' := w + [Record(e, NO_TAP)];
    assert forall i :: 0 <= i < |w| ==> w'[i] == w[i];
    ReceiveInOrder(k, t, w, n, e);
  }

  lemma ReceiveInOrder(k: Key, t: Record, w: seq<Record>, n: nat, e: Event)
    requires InOrder(k, Queue(k, t, w), n)
    requires IsEvent(e) && e.key == k && e.rank == n && (e.pressed <==> n % 2 == 0)
    requires Holds(t, k) ==> Window(t.event, e)
    requires forall i :: 0 <= i < |w| ==> Window(w[i].event, e)
    ensures InOrder(k, Queue(k, t, w + [Record(e, NO_TAP)]), n + 1)
  {
    var q := Queue(k, t, w);
    assert Queue(k, t, w + [Record(e, NO_TAP)]) == q + [e];
    assert forall i :: 0 <= i < |q| ==> (q + [e])[i] == q[i] && Window(q[i], e);
  }

  /** An overflow drops everything stored. */
  lemma DropAll(k: Key, t: Record, w: seq<Record>, out: seq<Emission>, n: nat)
    requires KeyInv(k, t, w, out, n)
    requires Holds(t, k) && t.tap.count > 0 ==> w != []
    ensures KeyInv(k, NO_RECORD, [], out, n)
  {
    assert Queue(k, NO_RECORD, []) == [];
  }

  /** The buffer if `process_tapping` is followed by queueing without a capacity limit. */
  function Queued(e: Event, o: Outcome): seq<Record> {
    if o.consumed || !IsEvent(e) then o.rest else o.rest + [o.record]
  }

  lemma LandPaired(k: Key, m: Move, cfg: Config, s: State, e: Event, n: nat)
    requires Guard(m, s.tapping, Record(e, NO_TAP))
    requires var o := Apply(cfg, m, s.tapping, s.waiting, Record(e, NO_TAP));
             KeyInv(k, o.tapping, Of(k, Queued(e, o)), s.out + o.out, n)
    ensures Paired(k, Land(s, e, Apply(cfg, m, s.tapping, s.waiting, Record(e, NO_TAP))), n)
  {
    var o := Apply(cfg, m, s.tapping, s.waiting, Record(e, NO_TAP));
    if !o.consumed && IsEvent(e) && |o.rest| + 1 >= BUFFER_SIZE {
      if Holds(o.tapping, k) && o.tapping.tap.count > 0 {
        assert m.FirstTap? && o.record.event.key == k;
        OfSnoc(k, o.rest, o.record);
      }
      DropAll(k, o.tapping, Of(k, Queued(e, o)), s.out + o.out, n);
    }
  }

  lemma DeliverOtherKey(cfg: Config, answers: Answers, k: Key, s: State, e: Event, n: nat)
    requires Paired(k, s, n) && (IsEvent(e) ==> e.key != k)
    ensures Paired(k, Deliver(cfg, answers, s, e), n)
  {
    var r := Record(e, NO_TAP);
    var m := Choose(cfg, s.tapping, s.waiting, e, answers(s.calls));
    ChooseGuard(cfg, s.tapping, s.waiting, r, answers(s.calls));
    OtherKey(cfg, m, k, s.tapping, s.waiting, r, s.out, n);
    var o := Apply(cfg, m, s.tapping, s.waiting, r);
    ApplyStored(cfg, m, s.tapping, s.waiting, r);
    OfSnoc(k, o.rest, o.record);
    LandPaired(k, m, cfg, s, e, n);
  }

  lemma OfNone(k: Key, rs: seq<Record>)
    requires !AnyOf(k, rs)
    ensures Of(k, rs) == []
  {
    if Of(k, rs) != [] { var i := OfSource(k, rs, 0); }
  }

  /** The event is behind everything that waits, and in the window of what is stored of its key. */
  lemma ReceiveWaiting(s: State, e: Event, n: nat)
    requires Paired(e.key, s, n) && IsEvent(e) && e.rank == n && (e.pressed <==> n % 2 == 0) && Timely(s, e)
    ensures KeyInv(e.key, s.tapping, Of(e.key, s.waiting) + [Record(e, NO_TAP)], s.out, n + 1)
  {
    var w := Of(e.key, s.waiting);
    forall j | 0 <= j < |w| ensures Window(w[j].event, e) {
      var i := OfSource(e.key, s.waiting, j);
    }
    Receive(e.key, s.tapping, w, s.out, n, e);
  }

  /** The delivered event when none of its key waits. */
  lemma DeliverFirst(cfg: Config, answers: Answers, s: State, e: Event, n: nat)
    requires Paired(e.key, s, n) && IsEvent(e) && e.rank == n && (e.pressed <==> n % 2 == 0) && Timely(s, e)
    requires !AnyOf(e.key, s.waiting)
    ensures Paired(e.key, Deliver(cfg, answers, s, e), n + 1)
  {
    var k, r := e.key, Record(e, NO_TAP);
    var m := Choose(cfg, s.tapping, s.waiting, e, answers(s.calls));
    ChooseGuard(cfg, s.tapping, s.waiting, r, answers(s.calls));
    ReceiveWaiting(s, e, n);
    OfNone(k, s.waiting);
    assert Of(k, s.waiting) + [r] == [r] + Of(k, s.waiting);
    SameKey(cfg, m, k, s.tapping, s.waiting, r, s.out, n + 1);
    var o := Apply(cfg, m, s.tapping, s.waiting, r);
    ApplyStored(cfg, m, s.tapping, s.waiting, r);
    OfNone(k, o.rest);
    OfSnoc(k, o.rest, o.record);
    assert Of(k, Queued(e, o)) == After(k, o);
    LandPaired(k, m, cfg, s, e, n + 1);
  }

  /** When an event of the key waits, the newest waiting one is the opposite transition. */
  lemma WaitingIsTyped(s: State, e: Event, n: nat)
    requires Paired(e.key, s, n) && e.rank == n && (e.pressed <==> n % 2 == 0)
    requires AnyOf(e.key, s.waiting)
    ensures Typed(s.waiting, e)
  {
    var k, w := e.key, Of(e.key, s.waiting);
    var i :| 0 <= i < |s.waiting| && s.waiting[i].event.key == k;
    var _ := OfMember(k, s.waiting, i);
    var at := OfSource(k, s.waiting, |w| - 1);
    var q := Queue(k, s.tapping, w);
    assert q[|q| - 1] == w[|w| - 1].event == s.waiting[at].event;
  }

  predicate OnlyWaits(m: Move) {
    m.Settle? || m.SettleInterrupt? || m.Wait? || m.WaitInterrupt? || m.Expire?
  }

  lemma OnlyWaitsKeeps(cfg: Config, m: Move, k: Key, t: Record, rest: seq<Record>, r: Record, w: seq<Record>,
      out: seq<Emission>, n: nat)
    requires KeyInv(k, t, w, out, n) && OnlyWaits(m) && Guard(m, t, r)
    ensures var o := Apply(cfg, m, t, rest, r);
            && o.rest == rest && o.record == r && !o.consumed
            && KeyInv(k, o.tapping, w, out + o.out, n)
  {
    var o := Apply(cfg, m, t, rest, r);
    if m.Settle? || m.SettleInterrupt? {
      SettleKey(k, t, w, out, n, o.out[0]);
    } else {
      assert out + o.out == out;
      assert Queue(k, o.tapping, w) == Queue(k, t, w);
    }
  }

  /** The delivered event when others of its key wait and it only queues up behind them. */
  lemma DeliverBehind(cfg: Config, answers: Answers, s: State, e: Event, n: nat)
    requires Paired(e.key, s, n) && IsEvent(e) && e.rank == n && (e.pressed <==> n % 2 == 0) && Timely(s, e)
    requires AnyOf(e.key, s.waiting) && InTurn(cfg, s, e)
    ensures Paired(e.key, Deliver(cfg, answers, s, e), n + 1)
  {
    var k, r := e.key, Record(e, NO_TAP);
    var m := Choose(cfg, s.tapping, s.waiting, e, answers(s.calls));
    ChooseGuard(cfg, s.tapping, s.waiting, r, answers(s.calls));
    WaitingIsTyped(s, e, n);
    assert OnlyWaits(m);
    ReceiveWaiting(s, e, n);
    OfSnoc(k, s.waiting, r);
    OnlyWaitsKeeps(cfg, m, k, s.tapping, s.waiting, r, Of(k, s.waiting) + [r], s.out, n + 1);
    LandPaired(k, m, cfg, s, e, n + 1);
  }

  lemma DeliverPaired(cfg: Config, answers: Answers, inputs: seq<Event>, k: Key, s: State, e: Event)
    requires Paired(k, s, RankOf(inputs, k))
    requires Ranked(inputs, e) && Timely(s, e) && InTurn(cfg, s, e)
    ensures Paired(k, Deliver(cfg, answers, s, e), RankOf(inputs + [e], k))
  {
    assert (inputs + [e])[..|inputs|] == inputs;
    if IsEvent(e) && e.key == k {
      if AnyOf(k, s.waiting) {
        DeliverBehind(cfg, answers, s, e, RankOf(inputs, k));
      } else {
        DeliverFirst(cfg, answers, s, e, RankOf(inputs, k));
      }
    } else {
      DeliverOtherKey(cfg, answers, k, s, e, RankOf(inputs, k));
    }
  }

  /** With an event of the key waiting, the newest one can neither be processed nor be the tapping key. */
  lemma NewestWaits(k: Key, t: Record, w: seq<Record>, out: seq<Emission>, n: nat)
    requires KeyInv(k, t, w, out, n + 1) && w != []
    ensures Holds(t, k) ==> t.event.rank < n
    ensures forall x :: 0 <= x < |out| && IsReal(out[x], k) ==> out[x].record.event.rank < n
    ensures forall i :: 1 <= i < |w| ==> w[i].tap.count == 0
  {
    if Holds(t, k) { assert Queue(k, t, w)[0] == t.event; }
  }

  /** An event that does not only wait is processed, becomes the tapping key, or is stamped. */
  lemma OutOfTurnEffect(cfg: Config, m: Move, t: Record, rest: seq<Record>, e: Event)
    requires Guard(m, t, Record(e, NO_TAP)) && IsEvent(e) && !OnlyWaits(m)
    ensures var o := Apply(cfg, m, t, rest, Record(e, NO_TAP));
            || (Holds(o.tapping, e.key) && o.tapping.event == e)
            || (|o.out| > 0 && o.out[0].Real? && o.out[0].record.event == e)
            || (!o.consumed && o.record.event == e && o.record.tap.count == 1)
  {}

  /** An event handled out of turn breaks the pairing of its key: it is processed, becomes the
      tapping key, or is stamped while an older event of its key still waits. */
  lemma OutOfTurnBreaks(cfg: Config, m: Move, t: Record, rest: seq<Record>, e: Event, out: seq<Emission>, n: nat)
    requires Guard(m, t, Record(e, NO_TAP)) && IsEvent(e) && e.rank == n
    requires !OnlyWaits(m) && AnyOf(e.key, rest)
    ensures var o := Apply(cfg, m, t, rest, Record(e, NO_TAP));
            !KeyInv(e.key, o.tapping, Of(e.key, Queued(e, o)), out + o.out, n + 1)
  {
    hide Apply, KeyInv, Of, Guard;
    var k, r := e.key, Record(e, NO_TAP);
    var o := Apply(cfg, m, t, rest, r);
    ApplyStored(cfg, m, t, rest, r);
    OutOfTurnEffect(cfg, m, t, rest, e);
    var i :| 0 <= i < |rest| && rest[i].event.key == k;
    var j := OfMember(k, o.rest, i);
    OfSnoc(k, o.rest, o.record);
    var w := Of(k, Queued(e, o));
    assert !o.consumed ==> w[|w| - 1] == o.record && |w| > 1;
    assert |o.out| > 0 ==> (out + o.out)[|out|] == o.out[0];
    if KeyInv(k, o.tapping, w, out + o.out, n + 1) {
      NewestWaits(k, o.tapping, w, out + o.out, n);
    }
  }

  // ---------------------------------------------------------------- whole runs

  lemma {:induction false} OrderlyRunIsPaired(cfg: Config, answers: Answers, inputs: seq<Event>, k: Key)
    requires Orderly(cfg, answers, inputs)
    ensures Paired(k, Run(cfg, answers, inputs), RankOf(inputs, k))
  {
    if inputs == [] {
      assert Queue(k, NO_RECORD, []) == [];
    } else {
      var before, e := inputs[..|inputs| - 1], inputs[|inputs| - 1];
      assert inputs == before + [e];
      var s := Run(cfg, answers, before);
      OrderlyRunIsPaired(cfg, answers, before, k);
      ReachableWellFormed(cfg, answers, before);
      DeliverPaired(cfg, answers, before, k, s, e);
      DeliverWellFormed(cfg, answers, s, e);
      DrainPaired(cfg, answers, k, Deliver(cfg, answers, s, e), RankOf(inputs, k));
    }
  }

  lemma DeliverOutOfTurn(cfg: Config, answers: Answers, s: State, e: Event, n: nat)
    requires Paired(e.key, s, n) && |s.waiting| + 1 < BUFFER_SIZE
    requires e.rank == n && (e.pressed <==> n % 2 == 0) && !InTurn(cfg, s, e)
    ensures !Paired(e.key, Deliver(cfg, answers, s, e), n + 1)
  {
    var m := Choose(cfg, s.tapping, s.waiting, e, answers(s.calls));
    WaitingIsTyped(s, e, n);
    ChooseGuard(cfg, s.tapping, s.waiting, Record(e, NO_TAP), answers(s.calls));
    OutOfTurnBreaks(cfg, m, s.tapping, s.waiting, e, s.out, n);
  }

  /** The delivery of an event keeps every key paired if and only if the event is in turn. */
  lemma DeliveryKeepsPairingIffInTurn(cfg: Config, answers: Answers, inputs: seq<Event>, e: Event)
    requires Orderly(cfg, answers, inputs) && IsEvent(e) && Ranked(inputs, e)
    requires var s := Run(cfg, answers, inputs); Timely(s, e) && |s.waiting| + 1 < BUFFER_SIZE
    ensures var s := Run(cfg, answers, inputs);
            (forall k :: Paired(k, Deliver(cfg, answers, s, e), RankOf(inputs + [e], k))) <==> InTurn(cfg, s, e)
  {
    var s := Run(cfg, answers, inputs);
    var s1 := Deliver(cfg, answers, s, e);
    if InTurn(cfg, s, e) {
      forall k ensures Paired(k, s1, RankOf(inputs + [e], k)) {
        OrderlyRunIsPaired(cfg, answers, inputs, k);
        DeliverPaired(cfg, answers, inputs, k, s, e);
      }
    } else {
      OrderlyRunIsPaired(cfg, answers, inputs, e.key);
      DeliverOutOfTurn(cfg, answers, s, e, RankOf(inputs, e.key));
      assert (inputs + [e])[..|inputs|] == inputs;
      assert !Paired(e.key, s1, RankOf(inputs + [e], e.key));
    }
  }

  /** Verdict agreement: over every run whose events are ranked, timely and delivered in turn, the
      n-th release of a key is processed after its n-th press and with the same tap count, unless a
      synthetic release carrying that count was processed in between. */
  lemma VerdictAgreement(cfg: Config, answers: Answers, inputs: seq<Event>, k: Key)
    requires Orderly(cfg, answers, inputs)
    ensures Agree(k, Run(cfg, answers, inputs).out)
  {
    OrderlyRunIsPaired(cfg, answers, inputs, k);
  }
}
