/** Verdict agreement needs only the releases to be safe when they are delivered: in turn, or with their press
    not waiting and no press of the key as the tapping key. Presses may overtake waiting events of their key.
    The runs considered do not wrap round onto stored events. */
module TappingReleases {
  import opened TappingModel
  import opened TappingRuns
  import opened TappingVerdict
  import opened TappingOutOfTurn
  import opened TappingEvidence

  // ---------------------------------------------------------------- the invariant of a key

  predicate HasRank(out: seq<Emission>, k: Key, q: int) {
    exists x :: 0 <= x < |out| && IsReal(out[x], k) && out[x].record.event.rank == q
  }

  predicate HasTap(out: seq<Emission>, k: Key, p: int, count: nat) {
    exists x :: 0 <= x < |out| && IsReal(out[x], k) && out[x].record.event.rank == p && out[x].record.tap.count == count
  }

  predicate Waits(w: seq<Record>, q: int) {
    exists i :: 0 <= i < |w| && w[i].event.rank == q
  }

  /** Processed events of the key: counts agree, ranks differ, even ranks are the presses. */
  predicate OutOk(k: Key, out: seq<Emission>, n: nat) {
    && Agree(k, out)
    && (forall x :: 0 <= x < |out| && IsReal(out[x], k) ==>
          out[x].record.event.rank < n && (out[x].record.event.pressed <==> out[x].record.event.rank % 2 == 0))
    && (forall x, y :: 0 <= x < y < |out| && IsReal(out[x], k) && IsReal(out[y], k) ==>
          out[x].record.event.rank != out[y].record.event.rank)
  }

  /** The waiting records of the key are in order; those of presses carry no count, those of releases at most 1. */
  predicate WaitOk(k: Key, w: seq<Record>, n: nat) {
    && (forall i :: 0 <= i < |w| ==>
          && IsEvent(w[i].event) && w[i].event.key == k && w[i].event.rank < n
          && (w[i].event.pressed <==> w[i].event.rank % 2 == 0)
          && w[i].tap.count <= (if w[i].event.pressed then 0 else 1))
    && (forall i, j :: 0 <= i < j < |w| ==> w[i].event.rank < w[j].event.rank)
  }

  /** Nothing waiting is processed, nor is the release of a waiting press, which waits if it was received; a
      stamped release belongs to a press processed with count 1. */
  predicate WaitFresh(k: Key, w: seq<Record>, out: seq<Emission>, n: nat) {
    forall i :: 0 <= i < |w| ==>
      && !HasRank(out, k, w[i].event.rank)
      && (w[i].event.pressed ==> !HasRank(out, k, w[i].event.rank + 1))
      && (w[i].event.pressed && w[i].event.rank + 1 < n ==> Waits(w, w[i].event.rank + 1))
      && (w[i].tap.count == 1 ==> HasTap(out, k, w[i].event.rank - 1, 1))
  }

  /** The tapping key, if it is a press of the key. */
  predicate HeldOk(k: Key, t: Record, w: seq<Record>, out: seq<Emission>, n: nat) {
    Holds(t, k) ==>
      && t.event.rank < n && t.event.rank % 2 == 0
      && !Waits(w, t.event.rank)
      && !HasRank(out, k, t.event.rank + 1)
      && (t.event.rank + 1 < n ==> Waits(w, t.event.rank + 1))
      && (t.tap.count == 0 ==> !HasRank(out, k, t.event.rank))
      && (t.tap.count > 0 ==>
            && HasTap(out, k, t.event.rank, t.tap.count)
            && (forall i :: 0 <= i < |w| ==> t.event.rank < w[i].event.rank)
            && (t.tap.count == 1 ==> |w| > 0 && w[0].event.rank == t.event.rank + 1 && w[0].tap.count == 1))
  }

  /** The processed press at `x` and its release, which is not processed: if the press is no longer the tapping
      key, the release is going to have its count, or is excused. */
  predicate DueOk(k: Key, t: Record, w: seq<Record>, out: seq<Emission>, n: nat, x: nat)
    requires x < |out|
  {
    var p, c := out[x].record.event.rank, out[x].record.tap.count;
    || (Holds(t, k) && t.event.rank == p)
    || Excused(out, k, c, x, |out|)
    || ((forall i :: 0 <= i < |w| && w[i].event.rank == p + 1 ==> w[i].tap.count == c) && (p + 1 >= n ==> c == 0))
  }

  predicate AllDue(k: Key, t: Record, w: seq<Record>, out: seq<Emission>, n: nat) {
    forall x :: 0 <= x < |out| && IsReal(out[x], k) && out[x].record.event.pressed &&
      !HasRank(out, k, out[x].record.event.rank + 1)
      ==> DueOk(k, t, w, out, n, x)
  }

  predicate Loose(k: Key, t: Record, w: seq<Record>, out: seq<Emission>, n: nat) {
    OutOk(k, out, n) && WaitOk(k, w, n) && WaitFresh(k, w, out, n) && HeldOk(k, t, w, out, n) && AllDue(k, t, w, out, n)
  }

  // ---------------------------------------------------------------- one more emission

  lemma HasGrows(out: seq<Emission>, m: Emission, k: Key, q: int)
    ensures HasRank(out + [m], k, q) <==> HasRank(out, k, q) || (IsReal(m, k) && m.record.event.rank == q)
  {
    var out' := out + [m];
    if HasRank(out, k, q) {
      var x :| 0 <= x < |out| && IsReal(out[x], k) && out[x].record.event.rank == q;
      assert out'[x] == out[x];
    }
    if IsReal(m, k) && m.record.event.rank == q { assert out'[|out|] == m; }
  }

  lemma TapGrows(out: seq<Emission>, m: Emission, k: Key, p: int, c: nat)
    requires HasTap(out, k, p, c) || (IsReal(m, k) && m.record.event.rank == p && m.record.tap.count == c)
    ensures HasTap(out + [m], k, p, c)
  {
    var out' := out + [m];
    if HasTap(out, k, p, c) {
      var x :| 0 <= x < |out| && IsReal(out[x], k) && out[x].record.event.rank == p && out[x].record.tap.count == c;
      assert out'[x] == out[x];
    } else {
      assert out'[|out|] == m;
    }
  }

  /** Something else is processed. */
  lemma OtherEmission(k: Key, t: Record, w: seq<Record>, out: seq<Emission>, n: nat, m: Emission)
    requires Loose(k, t, w, out, n) && !IsReal(m, k)
    ensures Loose(k, t, w, out + [m], n)
  {
    hide Excused, HasRank, HasTap, Agree;
    var out' := out + [m];
    AgreeGrows(k, out, m);
    forall q ensures HasRank(out', k, q) <==> HasRank(out, k, q) { HasGrows(out, m, k, q); }
    forall p, c: nat | HasTap(out, k, p, c) ensures HasTap(out', k, p, c) { TapGrows(out, m, k, p, c); }
    forall x | 0 <= x < |out'| && IsReal(out'[x], k) && out'[x].record.event.pressed &&
      !HasRank(out', k, out'[x].record.event.rank + 1)
      ensures DueOk(k, t, w, out', n, x)
    {
      assert x < |out| && out'[x] == out[x] && DueOk(k, t, w, out, n, x);
      if Excused(out, k, out[x].record.tap.count, x, |out|) {
        ExcusedGrows(out, m, k, out[x].record.tap.count, x, |out|, |out'|);
      }
    }
  }

  lemma PressEmission(k: Key, out: seq<Emission>, n: nat, m: Emission)
    requires OutOk(k, out, n) && IsReal(m, k) && m.record.event.pressed && m.record.event.rank % 2 == 0
    requires m.record.event.rank < n && !HasRank(out, k, m.record.event.rank) &&
             !HasRank(out, k, m.record.event.rank + 1)
    ensures OutOk(k, out + [m], n)
  {
    hide Excused, Agree;
    forall x | 0 <= x < |out| && IsReal(out[x], k)
      ensures out[x].record.event.rank != m.record.event.rank && out[x].record.event.rank != m.record.event.rank + 1
    {
      RankIn(out, k, x);
    }
    AgreeGrows(k, out, m);
  }

  /** What was due stays due. */
  lemma DueStays(k: Key, t: Record, w: seq<Record>, out: seq<Emission>, n: nat, x: nat, m: Emission)
    requires x < |out| && DueOk(k, t, w, out, n, x)
    ensures DueOk(k, t, w, out + [m], n, x)
  {
    if Excused(out, k, out[x].record.tap.count, x, |out|) {
      ExcusedGrows(out, m, k, out[x].record.tap.count, x, |out|, |out| + 1);
    }
  }

  lemma OneTap(k: Key, out: seq<Emission>, n: nat, x: nat, c: nat)
    requires OutOk(k, out, n) && x < |out| && IsReal(out[x], k) && HasTap(out, k, out[x].record.event.rank, c)
    ensures out[x].record.tap.count == c
  {
    var y :| 0 <= y < |out| && IsReal(out[y], k) && out[y].record.event.rank == out[x].record.event.rank &&
      out[y].record.tap.count == c;
  }

  // ---------------------------------------------------------------- the tapping key leaves

  /** A synthetic release with the count of the tapping key was processed after it. */
  predicate Unregistered(k: Key, t: Record, out: seq<Emission>) {
    forall x :: 0 <= x < |out| && IsReal(out[x], k) && out[x].record.event.rank == t.event.rank ==>
      Excused(out, k, t.tap.count, x, |out|)
  }

  /** The tapping key, a tap whose release is stamped or that was unregistered, is replaced. */
  lemma Leaves(k: Key, t: Record, t': Record, w: seq<Record>, out: seq<Emission>, n: nat)
    requires Loose(k, t, w, out, n) && !Holds(t', k)
    requires Holds(t, k) ==> t.tap.count > 0
    requires Holds(t, k) && t.tap.count > 1 ==> Unregistered(k, t, out)
    ensures Loose(k, t', w, out, n)
  {
    hide Excused, HasRank, Agree;
    forall x | 0 <= x < |out| && IsReal(out[x], k) && out[x].record.event.pressed &&
      !HasRank(out, k, out[x].record.event.rank + 1)
      ensures DueOk(k, t', w, out, n, x)
    {
      assert DueOk(k, t, w, out, n, x);
      if Holds(t, k) && t.event.rank == out[x].record.event.rank { OneTap(k, out, n, x, t.tap.count); }
    }
  }

  // ---------------------------------------------------------------- presses

  /** A press is processed with count 0: the tapping key itself, or one that neither waits nor is the tapping key. */
  lemma PressPlain(k: Key, t: Record, t': Record, w: seq<Record>, out: seq<Emission>, n: nat, m: Emission)
    requires Loose(k, t, w, out, n) && IsReal(m, k) && m.record.event.pressed && m.record.tap.count == 0
    requires var p := m.record.event.rank;
             && p % 2 == 0 && p < n && !HasRank(out, k, p) && !HasRank(out, k, p + 1) && !Waits(w, p)
             && (Holds(t', k) ==> t' == t && t.event.rank != p)
             && (Holds(t, k) && !Holds(t', k) ==> t.event.rank == p)
    ensures Loose(k, t', w, out + [m], n)
  {
    hide Excused, HasRank, HasTap, Agree;
    var out', p := out + [m], m.record.event.rank;
    PressEmission(k, out, n, m);
    forall q ensures HasRank(out', k, q) <==> HasRank(out, k, q) || q == p { HasGrows(out, m, k, q); }
    forall q, c: nat | HasTap(out, k, q, c) ensures HasTap(out', k, q, c) { TapGrows(out, m, k, q, c); }
    NotStamped(k, w, out, n, p);
    forall x | 0 <= x < |out'| && IsReal(out'[x], k) && out'[x].record.event.pressed &&
      !HasRank(out', k, out'[x].record.event.rank + 1)
      ensures DueOk(k, t', w, out', n, x)
    {
      if x < |out| {
        assert out'[x] == out[x];
        RankIn(out, k, x);
        DueStays(k, t, w, out, n, x, m);
      }
    }
  }

  lemma RankIn(out: seq<Emission>, k: Key, x: nat)
    requires x < |out| && IsReal(out[x], k)
    ensures HasRank(out, k, out[x].record.event.rank)
  {}

  /** The release of a press that is not processed carries no stamp. */
  lemma NotStamped(k: Key, w: seq<Record>, out: seq<Emission>, n: nat, p: nat)
    requires WaitOk(k, w, n) && WaitFresh(k, w, out, n) && !HasRank(out, k, p) && p % 2 == 0
    ensures forall i :: 0 <= i < |w| && w[i].event.rank == p + 1 ==> w[i].tap.count == 0
  {
    TapHasRank(out, k, p, 1);
  }

  lemma TapHasRank(out: seq<Emission>, k: Key, p: int, c: nat)
    ensures HasTap(out, k, p, c) ==> HasRank(out, k, p)
  {}

  predicate StampsFirst(w: seq<Record>, w': seq<Record>) {
    && |w| > 0 && |w'| == |w| && w'[0].event == w[0].event && w'[0].tap.count == 1
    && forall i :: 0 < i < |w| ==> w'[i] == w[i]
  }

  /** A press is processed as a tap and becomes, or is, the tapping key; a first tap stamps its release. */
  lemma PressTap(k: Key, t: Record, t': Record, w: seq<Record>, w': seq<Record>, out: seq<Emission>, n: nat)
    requires Loose(k, t, w, out, n) && Holds(t', k) && t'.tap.count > 0
    requires var p := t'.event.rank;
             && p % 2 == 0 && p < n && !HasRank(out, k, p) && !HasRank(out, k, p + 1) && !Waits(w, p)
             && (forall i :: 0 <= i < |w| ==> p < w[i].event.rank) && (p + 1 < n ==> Waits(w, p + 1))
             && (Holds(t, k) ==> t.event.rank == p)
             && (if t'.tap.count == 1 then StampsFirst(w, w') && w[0].event.rank == p + 1 else w' == w)
    ensures Loose(k, t', w', out + [Real(t')], n)
  {
    hide Excused, HasRank, HasTap, Agree, WaitFresh, HeldOk, AllDue, DueOk;
    PressEmission(k, out, n, Real(t'));
    assert WaitOk(k, w', n);
    TapFresh(k, t', w, w', out, n);
    TapHeld(k, t', w, w', out, n);
    TapDue(k, t, t', w, w', out, n);
  }

  lemma TapFresh(k: Key, t': Record, w: seq<Record>, w': seq<Record>, out: seq<Emission>, n: nat)
    requires WaitOk(k, w, n) && WaitFresh(k, w, out, n) && Holds(t', k)
    requires var p := t'.event.rank;
             && p % 2 == 0 && (forall i :: 0 <= i < |w| ==> p < w[i].event.rank)
             && (if t'.tap.count == 1 then StampsFirst(w, w') && w[0].event.rank == p + 1 else w' == w)
    ensures WaitFresh(k, w', out + [Real(t')], n)
  {
    hide HasRank, HasTap;
    var m := Real(t');
    forall q ensures HasRank(out + [m], k, q) <==> HasRank(out, k, q) || q == t'.event.rank { HasGrows(out, m, k, q); }
    forall q, c: nat | HasTap(out, k, q, c) || (q == t'.event.rank && c == t'.tap.count)
      ensures HasTap(out + [m], k, q, c)
    {
      TapGrows(out, m, k, q, c);
    }
    StampKeepsRanks(w, w');
  }

  lemma TapHeld(k: Key, t': Record, w: seq<Record>, w': seq<Record>, out: seq<Emission>, n: nat)
    requires Holds(t', k) && t'.tap.count > 0
    requires var p := t'.event.rank;
             && p % 2 == 0 && p < n && !HasRank(out, k, p + 1) && !Waits(w, p)
             && (forall i :: 0 <= i < |w| ==> p < w[i].event.rank) && (p + 1 < n ==> Waits(w, p + 1))
             && (if t'.tap.count == 1 then StampsFirst(w, w') && w[0].event.rank == p + 1 else w' == w)
    ensures HeldOk(k, t', w', out + [Real(t')], n)
  {
    hide HasRank, HasTap;
    HasGrows(out, Real(t'), k, t'.event.rank + 1);
    TapGrows(out, Real(t'), k, t'.event.rank, t'.tap.count);
    StampKeepsRanks(w, w');
  }

  lemma TapDue(k: Key, t: Record, t': Record, w: seq<Record>, w': seq<Record>, out: seq<Emission>, n: nat)
    requires AllDue(k, t, w, out, n) && Holds(t', k) && (Holds(t, k) ==> t.event.rank == t'.event.rank)
    requires !HasRank(out, k, t'.event.rank) && t'.event.rank % 2 == 0
    requires w' == w || (StampsFirst(w, w') && w[0].event.rank == t'.event.rank + 1)
    ensures AllDue(k, t', w', out + [Real(t')], n)
  {
    hide Excused, HasRank;
    var m := Real(t');
    var out' := out + [m];
    forall q ensures HasRank(out', k, q) <==> HasRank(out, k, q) || q == t'.event.rank { HasGrows(out, m, k, q); }
    forall x | 0 <= x < |out'| && IsReal(out'[x], k) && out'[x].record.event.pressed &&
      !HasRank(out', k, out'[x].record.event.rank + 1)
      ensures DueOk(k, t', w', out', n, x)
    {
      if x < |out| {
        assert out'[x] == out[x];
        RankIn(out, k, x);
        DueStays(k, t, w, out, n, x, m);
      }
    }
  }

  lemma StampKeepsRanks(w: seq<Record>, w': seq<Record>)
    requires w' == w || StampsFirst(w, w')
    ensures forall q :: Waits(w', q) <==> Waits(w, q)
  {
    forall q ensures Waits(w', q) <==> Waits(w, q) {
      if Waits(w, q) {
        var i :| 0 <= i < |w| && w[i].event.rank == q;
        assert w'[i].event == w[i].event;
      }
      if Waits(w', q) {
        var i :| 0 <= i < |w'| && w'[i].event.rank == q;
        assert w'[i].event == w[i].event;
      }
    }
  }

  /** A press that neither waits nor is processed becomes the undecided tapping key. */
  lemma PressStarts(k: Key, t: Record, t': Record, w: seq<Record>, out: seq<Emission>, n: nat)
    requires Loose(k, t, w, out, n) && !Holds(t, k) && Holds(t', k) && t'.tap.count == 0
    requires var p := t'.event.rank;
             && p % 2 == 0 && p < n && !HasRank(out, k, p) && !HasRank(out, k, p + 1) && !Waits(w, p)
             && (p + 1 < n ==> Waits(w, p + 1))
    ensures Loose(k, t', w, out, n)
  {
    hide Excused, HasRank, HasTap, Agree;
    forall x | 0 <= x < |out| && IsReal(out[x], k) && out[x].record.event.pressed &&
      !HasRank(out, k, out[x].record.event.rank + 1)
      ensures DueOk(k, t', w, out, n, x)
    {
      assert DueOk(k, t, w, out, n, x);
    }
  }

  /** The oldest waiting record of the key is a press, and is taken from the buffer. */
  lemma PressTaken(k: Key, t: Record, r: Record, w: seq<Record>, out: seq<Emission>, n: nat)
    requires Loose(k, t, [r] + w, out, n) && r.event.pressed
    requires !(Holds(t, k) && t.tap.count == 0)
    ensures !Holds(t, k) && Loose(k, t, w, out, n)
    ensures var p := r.event.rank;
            && p % 2 == 0 && p < n && !HasRank(out, k, p) && !HasRank(out, k, p + 1) && !Waits(w, p)
            && (forall i :: 0 <= i < |w| ==> p < w[i].event.rank) && (p + 1 < n ==> Waits(w, p + 1))
  {
    hide HasRank, HasTap, OutOk, WaitFresh, HeldOk, AllDue, Waits;
    if Holds(t, k) { HeldFirst(k, t, r, w, out, n); }
    TakenOk(k, r, w, n);
    TakenFresh(k, r, w, out, n);
    TakenHeld(k, t, w, out, n);
    TakenDue(k, t, r, w, out, n);
  }

  lemma TakenHeld(k: Key, t: Record, w: seq<Record>, out: seq<Emission>, n: nat)
    requires !Holds(t, k)
    ensures HeldOk(k, t, w, out, n)
  {}

  lemma TakenOk(k: Key, r: Record, w: seq<Record>, n: nat)
    requires WaitOk(k, [r] + w, n)
    ensures WaitOk(k, w, n) && r.event.key == k && r.event.rank < n && (r.event.pressed <==> r.event.rank % 2 == 0)
    ensures !Waits(w, r.event.rank) && forall i :: 0 <= i < |w| ==> r.event.rank < w[i].event.rank
    ensures forall q :: Waits([r] + w, q) <==> q == r.event.rank || Waits(w, q)
  {
    var all := [r] + w;
    assert all[0] == r;
    assert forall i :: 0 <= i < |w| ==> all[i + 1] == w[i];
    forall q ensures Waits(all, q) <==> q == r.event.rank || Waits(w, q) {
      if Waits(all, q) && q != r.event.rank {
        var i :| 0 <= i < |all| && all[i].event.rank == q;
        assert w[i - 1] == all[i];
      }
      if Waits(w, q) {
        var i :| 0 <= i < |w| && w[i].event.rank == q;
        assert all[i + 1] == w[i];
      }
    }
  }

  lemma TakenFresh(k: Key, r: Record, w: seq<Record>, out: seq<Emission>, n: nat)
    requires WaitOk(k, [r] + w, n) && WaitFresh(k, [r] + w, out, n)
    ensures WaitFresh(k, w, out, n)
    ensures !HasRank(out, k, r.event.rank)
    ensures r.event.pressed ==>
            !HasRank(out, k, r.event.rank + 1) && (r.event.rank + 1 < n ==> Waits(w, r.event.rank + 1))
  {
    hide HasRank, HasTap, Waits, WaitOk;
    TakenOk(k, r, w, n);
    var all := [r] + w;
    assert all[0] == r;
    forall i | 0 <= i < |w|
      ensures !HasRank(out, k, w[i].event.rank)
      ensures w[i].event.pressed ==> !HasRank(out, k, w[i].event.rank + 1)
      ensures w[i].event.pressed && w[i].event.rank + 1 < n ==> Waits(w, w[i].event.rank + 1)
      ensures w[i].tap.count == 1 ==> HasTap(out, k, w[i].event.rank - 1, 1)
    {
      assert all[i + 1] == w[i];
    }
  }

  lemma TakenDue(k: Key, t: Record, r: Record, w: seq<Record>, out: seq<Emission>, n: nat)
    requires AllDue(k, t, [r] + w, out, n)
    ensures AllDue(k, t, w, out, n)
  {
    hide Excused, HasRank;
    var all := [r] + w;
    assert forall i :: 0 <= i < |w| ==> all[i + 1] == w[i];
    forall x | 0 <= x < |out| && IsReal(out[x], k) && out[x].record.event.pressed &&
      !HasRank(out, k, out[x].record.event.rank + 1)
      ensures DueOk(k, t, w, out, n, x)
    {
      assert DueOk(k, t, all, out, n, x);
    }
  }

  /** While the tapping key is a tap of the key, the oldest waiting record is its release. */
  lemma HeldFirst(k: Key, t: Record, r: Record, w: seq<Record>, out: seq<Emission>, n: nat)
    requires WaitOk(k, [r] + w, n) && HeldOk(k, t, [r] + w, out, n) && Holds(t, k) && t.tap.count > 0
    ensures r.event.rank == t.event.rank + 1 && !r.event.pressed
  {
    var all := [r] + w;
    assert all[0] == r;
    assert Waits(all, t.event.rank + 1);
    var i :| 0 <= i < |all| && all[i].event.rank == t.event.rank + 1;
  }

  // ---------------------------------------------------------------- releases

  /** The oldest waiting record of the key is a release, and is processed: with the count of the tapping key if
      that is its press, and as it is if the tapping key is no press of the key. */
  lemma ReleaseOut(k: Key, t: Record, t': Record, r: Record, w: seq<Record>, out: seq<Emission>, n: nat, m: Emission)
    requires Loose(k, t, [r] + w, out, n) && !r.event.pressed && !Holds(t', k)
    requires m.Real? && m.record.event == r.event
    requires if Holds(t, k) then t.tap.count > 0 && m.record.tap.count == t.tap.count
             else m.record.tap.count == r.tap.count
    ensures Loose(k, t', w, out + [m], n)
  {
    hide Excused, HasRank, HasTap, Agree, WaitFresh, HeldOk, AllDue, DueOk, Waits;
    TakenOk(k, r, w, n);
    TakenFresh(k, r, w, out, n);
    ReleaseEmission(k, t, r, w, out, n, m);
    ReleaseFresh(k, r, w, out, n, m);
    TakenHeld(k, t', w, out + [m], n);
    ReleaseDue(k, t, t', r, w, out, n, m);
  }

  lemma ReleaseEmission(k: Key, t: Record, r: Record, w: seq<Record>, out: seq<Emission>, n: nat, m: Emission)
    requires Loose(k, t, [r] + w, out, n) && !r.event.pressed
    requires m.Real? && m.record.event == r.event
    requires if Holds(t, k) then t.tap.count > 0 && m.record.tap.count == t.tap.count
             else m.record.tap.count == r.tap.count
    ensures OutOk(k, out + [m], n)
  {
    hide Excused, HasRank, HasTap, Agree, WaitFresh;
    TakenOk(k, r, w, n);
    TakenFresh(k, r, w, out, n);
    assert ([r] + w)[0] == r;
    forall x | 0 <= x < |out| && IsReal(out[x], k)
      ensures out[x].record.event.rank != r.event.rank
    {
      RankIn(out, k, x);
    }
    forall x | 0 <= x < |out| && IsPair(k, out[x], m)
      ensures m.record.tap.count == out[x].record.tap.count || Excused(out, k, out[x].record.tap.count, x, |out|)
    {
      assert DueOk(k, t, [r] + w, out, n, x);
      if Holds(t, k) {
        HeldFirst(k, t, r, w, out, n);
        OneTap(k, out, n, x, t.tap.count);
      }
    }
    AgreeGrows(k, out, m);
  }

  lemma ReleaseFresh(k: Key, r: Record, w: seq<Record>, out: seq<Emission>, n: nat, m: Emission)
    requires WaitOk(k, [r] + w, n) && WaitFresh(k, w, out, n) && IsReal(m, k) && m.record.event == r.event
    ensures WaitFresh(k, w, out + [m], n)
  {
    hide HasRank, HasTap, Waits;
    TakenOk(k, r, w, n);
    forall q ensures HasRank(out + [m], k, q) <==> HasRank(out, k, q) || q == r.event.rank { HasGrows(out, m, k, q); }
    forall q, c: nat | HasTap(out, k, q, c) ensures HasTap(out + [m], k, q, c) { TapGrows(out, m, k, q, c); }
  }

  lemma ReleaseDue(k: Key, t: Record, t': Record, r: Record, w: seq<Record>, out: seq<Emission>, n: nat, m: Emission)
    requires WaitOk(k, [r] + w, n) && HeldOk(k, t, [r] + w, out, n) && AllDue(k, t, [r] + w, out, n) && !Holds(t', k)
    requires IsReal(m, k) && m.record.event == r.event && !r.event.pressed && (Holds(t, k) ==> t.tap.count > 0)
    ensures AllDue(k, t', w, out + [m], n)
  {
    hide Excused, HasRank, HasTap;
    var out' := out + [m];
    var all := [r] + w;
    assert forall i :: 0 <= i < |w| ==> all[i + 1] == w[i];
    if Holds(t, k) { HeldFirst(k, t, r, w, out, n); }
    forall q ensures HasRank(out', k, q) <==> HasRank(out, k, q) || q == r.event.rank { HasGrows(out, m, k, q); }
    forall x | 0 <= x < |out'| && IsReal(out'[x], k) && out'[x].record.event.pressed &&
      !HasRank(out', k, out'[x].record.event.rank + 1)
      ensures DueOk(k, t', w, out', n, x)
    {
      assert x < |out| && out'[x] == out[x] && DueOk(k, t, all, out, n, x);
      DueStays(k, t', w, out, n, x, m);
    }
  }

  /** The tapping key is undecided, and the oldest waiting record is its release. */
  lemma FirstTapLoose(k: Key, t: Record, r: Record, w: seq<Record>, out: seq<Emission>, n: nat)
    requires Loose(k, t, [r] + w, out, n) && Holds(t, k) && t.tap.count == 0 && r.event.rank == t.event.rank + 1
    ensures var t' := WithCount(t, 1);
            Loose(k, t', [r.(tap := t'.tap)] + w, out + [Real(t')], n)
  {
    hide HasRank, HasTap, WaitFresh, AllDue, OutOk, Waits, StampsFirst;
    var t' := WithCount(t, 1);
    var r' := r.(tap := t'.tap);
    TakenOk(k, r, w, n);
    StampFront(r, r', w);
    FrontRanks(k, r, w, n, t.event.rank);
    PressTap(k, t, t', [r] + w, [r'] + w, out, n);
  }

  lemma StampFront(r: Record, r': Record, w: seq<Record>)
    requires r'.event == r.event && r'.tap.count == 1
    ensures StampsFirst([r] + w, [r'] + w)
  {}

  lemma FrontRanks(k: Key, r: Record, w: seq<Record>, n: nat, p: nat)
    requires WaitOk(k, [r] + w, n) && r.event.rank == p + 1
    ensures forall i :: 0 <= i < |[r] + w| ==> p < ([r] + w)[i].event.rank
    ensures ([r] + w)[0] == r && |[r] + w| > 0
  {
    TakenOk(k, r, w, n);
  }

  // ---------------------------------------------------------------- deliveries

  lemma WaitsSnoc(w: seq<Record>, r: Record)
    ensures forall q :: Waits(w + [r], q) <==> Waits(w, q) || q == r.event.rank
  {
    forall q ensures Waits(w + [r], q) <==> Waits(w, q) || q == r.event.rank {
      if Waits(w, q) {
        var i :| 0 <= i < |w| && w[i].event.rank == q;
        assert (w + [r])[i] == w[i];
      }
      if q == r.event.rank { assert (w + [r])[|w|] == r; }
    }
  }

  /** The next event of the key is received behind those that wait. */
  lemma ReceiveLoose(k: Key, t: Record, w: seq<Record>, out: seq<Emission>, n: nat, e: Event)
    requires Loose(k, t, w, out, n)
    requires IsEvent(e) && e.key == k && e.rank == n && (e.pressed <==> n % 2 == 0)
    ensures Loose(k, t, w + [Record(e, NO_TAP)], out, n + 1)
  {
    hide Excused, HasRank, HasTap, Agree, Waits;
    var w' := w + [Record(e, NO_TAP)];
    WaitsSnoc(w, Record(e, NO_TAP));
    assert forall i :: 0 <= i < |w| ==> w'[i] == w[i];
    NoLater(k, out, n);
    forall x | 0 <= x < |out| && IsReal(out[x], k) && out[x].record.event.pressed &&
      !HasRank(out, k, out[x].record.event.rank + 1)
      ensures DueOk(k, t, w', out, n + 1, x)
    {
      assert DueOk(k, t, w, out, n, x);
    }
  }

  lemma NoLater(k: Key, out: seq<Emission>, n: nat)
    requires OutOk(k, out, n)
    ensures forall q :: q >= n ==> !HasRank(out, k, q)
  {}

  /** The next event of the key is a press, and goes elsewhere. */
  lemma PressReceivedLoose(k: Key, t: Record, w: seq<Record>, out: seq<Emission>, n: nat)
    requires Loose(k, t, w, out, n) && n % 2 == 0
    ensures Loose(k, t, w, out, n + 1)
    ensures !HasRank(out, k, n) && !HasRank(out, k, n + 1) && !Waits(w, n) && (Holds(t, k) ==> t.event.rank != n)
  {
    hide Excused, HasTap, Agree;
    NoLater(k, out, n);
    forall x | 0 <= x < |out| && IsReal(out[x], k) && out[x].record.event.pressed &&
      !HasRank(out, k, out[x].record.event.rank + 1)
      ensures DueOk(k, t, w, out, n + 1, x)
    {
      assert DueOk(k, t, w, out, n, x);
    }
  }

  /** An overflow drops everything stored. */
  lemma DropLoose(k: Key, t: Record, w: seq<Record>, out: seq<Emission>, n: nat)
    requires Loose(k, t, w, out, n)
    requires Holds(t, k) && t.tap.count > 0 ==> w != []
    ensures Loose(k, NO_RECORD, [], out, n)
  {
    hide Excused, HasRank, HasTap, Agree;
    forall x | 0 <= x < |out| && IsReal(out[x], k) && out[x].record.event.pressed &&
      !HasRank(out, k, out[x].record.event.rank + 1)
      ensures DueOk(k, NO_RECORD, [], out, n, x)
    {
      assert DueOk(k, t, w, out, n, x);
      RankIn(out, k, x);
      assert w != [] ==> w[0].event.rank < n;
    }
  }

  // ---------------------------------------------------------------- calls on records of other keys

  lemma SameTapping(k: Key, t: Record, t': Record, w: seq<Record>, out: seq<Emission>, n: nat)
    requires Loose(k, t, w, out, n) && t'.event == t.event && t'.tap.count == t.tap.count
    ensures Loose(k, t', w, out, n)
  {
    hide Excused, HasRank, HasTap, Agree;
    forall x | 0 <= x < |out| && IsReal(out[x], k) && out[x].record.event.pressed &&
      !HasRank(out, k, out[x].record.event.rank + 1)
      ensures DueOk(k, t', w, out, n, x)
    {
      assert DueOk(k, t, w, out, n, x);
    }
  }

  lemma {:induction false} OtherEmissions(k: Key, t: Record, w: seq<Record>, out: seq<Emission>, n: nat,
      more: seq<Emission>)
    requires Loose(k, t, w, out, n) && forall i :: 0 <= i < |more| ==> !IsReal(more[i], k)
    ensures Loose(k, t, w, out + more, n)
    decreases |more|
  {
    hide Loose;
    if more == [] {
      assert out + more == out;
    } else {
      OtherEmission(k, t, w, out, n, more[0]);
      OtherEmissions(k, t, w, out + [more[0]], n, more[1..]);
      assert out + more == out + [more[0]] + more[1..];
    }
  }

  /** The undecided tapping key is processed as a hold. */
  lemma SettleLoose(k: Key, t: Record, w: seq<Record>, out: seq<Emission>, n: nat, m: Emission)
    requires Loose(k, t, w, out, n) && Undecided(t)
    requires m.Real? && m.record.event == t.event && m.record.tap.count == 0
    ensures Loose(k, NO_RECORD, w, out + [m], n)
  {
    hide HasRank, OutOk, WaitOk, WaitFresh, AllDue;
    if Holds(t, k) {
      PressPlain(k, t, NO_RECORD, w, out, n, m);
    } else {
      OtherEmission(k, t, w, out, n, m);
      Leaves(k, t, NO_RECORD, w, out + [m], n);
    }
  }

  /** Another tapping key starts in place of a decided one, which is unregistered if its count is above 1. */
  lemma ReplacedLoose(k: Key, t: Record, t': Record, w: seq<Record>, out: seq<Emission>, n: nat,
      unregister: seq<Emission>)
    requires Loose(k, t, w, out, n) && !Undecided(t) && !Holds(t', k)
    requires if IsEvent(t.event) && t.event.pressed && t.tap.count > 1
             then |unregister| == 1 && unregister[0].Synthetic? && unregister[0].record.event.key == t.event.key
                  && unregister[0].record.tap == t.tap
             else unregister == []
    ensures Loose(k, t', w, out + unregister, n)
  {
    hide OutOk, WaitOk, WaitFresh, AllDue, HeldOk;
    OtherEmissions(k, t, w, out, n, unregister);
    var out1 := out + unregister;
    assert unregister != [] ==> out1[|out|] == unregister[0];
    Leaves(k, t, t', w, out1, n);
  }

  /** A call on a record of another key. */
  lemma OtherKeyLoose(cfg: Config, m: Move, k: Key, t: Record, rest: seq<Record>, r: Record, out: seq<Emission>, n: nat)
    requires Guard(m, t, r) && (IsEvent(r.event) ==> r.event.key != k)
    requires Loose(k, t, Of(k, rest), out, n)
    ensures var o := Apply(cfg, m, t, rest, r);
            Loose(k, o.tapping, Of(k, o.rest), out + o.out, n)
  {
    hide Loose;
    var w := Of(k, rest);
    var o := Apply(cfg, m, t, rest, r);
    if m.Start? || m.StartReleasing? {
      OtherKeyStartsLoose(cfg, m, k, t, rest, r, out, n);
    } else if m.Settle? || m.SettleInterrupt? {
      SettleLoose(k, t, w, out, n, o.out[0]);
    } else if Holds(t, k) || Holds(o.tapping, k) {
      OtherEmissions(k, t, w, out, n, o.out);
      SameTapping(k, t, o.tapping, w, out + o.out, n);
    } else {
      OtherEmissions(k, t, w, out, n, o.out);
      Leaves(k, t, o.tapping, w, out + o.out, n);
    }
  }

  lemma OtherKeyStartsLoose(cfg: Config, m: Move, k: Key, t: Record, rest: seq<Record>, r: Record, out: seq<Emission>,
      n: nat)
    requires Guard(m, t, r) && r.event.key != k && (m.Start? || m.StartReleasing?)
    requires Loose(k, t, Of(k, rest), out, n)
    ensures var o := Apply(cfg, m, t, rest, r);
            Loose(k, o.tapping, Of(k, o.rest), out + o.out, n)
  {
    hide Loose, Scan;
    var s := Scan(cfg, r, rest);
    var o := Apply(cfg, m, t, rest, r);
    ScanOther(cfg, k, r, rest);
    var unregister := o.out[..|o.out| - |s.out|];
    ReplacedLoose(k, t, s.tapping, Of(k, rest), out, n, unregister);
    OtherEmissions(k, s.tapping, Of(k, rest), out + unregister, n, s.out);
    assert out + unregister + s.out == out + o.out;
  }

  // ---------------------------------------------------------------- calls on the oldest record of the key

  /** A release of the key within the term of a press comes after it. */
  lemma WithinIsLater(cfg: Config, received: seq<Event>, p: Event, c: Event)
    requires AllRanked(received) && Increasing(received) && p in received && c in received && IsEvent(p) && IsEvent(c)
    requires p.key == c.key && p.pressed && !c.pressed && Close(cfg, p, c)
    requires Diff16(c.time, p.time) < cfg.term(p.key)
    ensures p.rank < c.rank
  {
    ParityOf(received, p);
    ParityOf(received, c);
    if c.rank < p.rank { TimesByRank(received, c, p); }
  }

  /** And then every event of the key between them is within the term. */
  lemma OwnWithin(cfg: Config, received: seq<Event>, p: Event, own: Event, c: Event)
    requires AllRanked(received) && Increasing(received) && p in received && c in received && own in received
    requires IsEvent(p) && IsEvent(c) && IsEvent(own) && p.key == c.key == own.key
    requires p.rank < own.rank <= c.rank && Close(cfg, p, c) && Diff16(c.time, p.time) < cfg.term(p.key)
    ensures Diff16(own.time, p.time) < cfg.term(p.key)
  {
    TimesByRank(received, p, own);
    if own.rank < c.rank { TimesByRank(received, own, c); } else { RankIdentifies(received, own, c); }
  }

  lemma StoredPair(cfg: Config, t: Record, rest: seq<Record>, r: Event, received: seq<Event>, i: nat)
    requires Known(cfg, t, rest, r, received) && i < |rest| && IsEvent(r) && rest[i].event.key == r.key
    ensures rest[i].event in received && IsEvent(rest[i].event) && Close(cfg, r, rest[i].event)
  {
    assert Events(rest)[i] == rest[i].event;
  }

  /** With only later events of its key waiting, a press finds its own release or none. */
  lemma ScanFindsOwn(cfg: Config, k: Key, t: Record, rest: seq<Record>, r: Record, received: seq<Event>, n: nat)
    requires AllRanked(received) && Increasing(received) && Known(cfg, t, rest, r.event, received)
    requires r.event.key == k && r.event.pressed && IsEvent(r.event) && WaitOk(k, Of(k, rest), n)
    requires forall i :: 0 <= i < |Of(k, rest)| ==> r.event.rank < Of(k, rest)[i].event.rank
    requires r.event.rank + 1 < n ==> Waits(Of(k, rest), r.event.rank + 1)
    ensures var i, w := FirstCandidate(cfg, r, rest), Of(k, rest);
            i < |rest| ==>
              |w| > 0 && w[0].event.rank == r.event.rank + 1
              && Of(k, rest[i := WithCount(rest[i], 1)]) == w[0 := WithCount(w[0], 1)]
  {
    var i, w := FirstCandidate(cfg, r, rest), Of(k, rest);
    if i < |rest| {
      StoredPair(cfg, t, rest, r.event, received, i);
      WithinIsLater(cfg, received, r.event, rest[i].event);
      var j := OfMember(k, rest, i);
      FirstIsNext(w, k, r.event.rank, n, j);
      var first := OfSource(k, rest, 0);
      StoredPair(cfg, t, rest, r.event, received, first);
      OwnWithin(cfg, received, r.event, rest[first].event, rest[i].event);
      assert TapCandidate(cfg, r, rest[first]);
      assert first == i;
      OfUpdate(k, rest, i, WithCount(rest[i], 1));
    }
  }

  lemma FirstIsNext(w: seq<Record>, k: Key, p: nat, n: nat, j: nat)
    requires WaitOk(k, w, n) && j < |w| && p % 2 == 0 && (forall i :: 0 <= i < |w| ==> p < w[i].event.rank)
    requires p + 1 < n ==> Waits(w, p + 1)
    ensures w[0].event.rank == p + 1 <= w[j].event.rank && !w[0].event.pressed
  {
    assert w[j].event.rank < n;
    var i :| 0 <= i < |w| && w[i].event.rank == p + 1;
  }

  /** With only earlier events of its key waiting, a press finds no release. */
  lemma ScanFindsNone(cfg: Config, k: Key, t: Record, rest: seq<Record>, r: Record, received: seq<Event>)
    requires AllRanked(received) && Increasing(received) && Known(cfg, t, rest, r.event, received)
    requires r.event.key == k && r.event.pressed && IsEvent(r.event)
    requires forall i :: 0 <= i < |rest| && rest[i].event.key == k ==> rest[i].event.rank < r.event.rank
    ensures FirstCandidate(cfg, r, rest) == |rest|
  {
    var i := FirstCandidate(cfg, r, rest);
    if i < |rest| {
      StoredPair(cfg, t, rest, r.event, received, i);
      WithinIsLater(cfg, received, r.event, rest[i].event);
    }
  }

  /** The record in hand is the oldest waiting press of the key and starts as the tapping key. */
  lemma SameKeyStartsLoose(cfg: Config, k: Key, t: Record, rest: seq<Record>, r: Record, out: seq<Emission>, n: nat,
      received: seq<Event>)
    requires AllRanked(received) && Increasing(received) && Known(cfg, t, rest, r.event, received)
    requires r.event.key == k && Buffered(r) && r.event.pressed && !Holds(t, k)
    requires Loose(k, t, [r] + Of(k, rest), out, n)
    ensures var s := Scan(cfg, r, rest);
            Loose(k, s.tapping, Of(k, s.waiting), out + s.out, n)
  {
    hide Loose, Known, AllRanked, Increasing, HasRank, Waits;
    var w := Of(k, rest);
    PressTaken(k, t, r, w, out, n);
    LooseWaits(k, t, w, out, n);
    ScanFindsOwn(cfg, k, t, rest, r, received, n);
    var i := FirstCandidate(cfg, r, rest);
    if i < |rest| {
      var w' := w[0 := WithCount(w[0], 1)];
      assert StampsFirst(w, w');
      PressTap(k, t, WithCount(r, 1), w, w', out, n);
    } else {
      PressStarts(k, t, r, w, out, n);
      assert out + [] == out;
    }
  }

  lemma LooseWaits(k: Key, t: Record, w: seq<Record>, out: seq<Emission>, n: nat)
    requires Loose(k, t, w, out, n)
    ensures WaitOk(k, w, n)
  {}

  /** The release in hand, the oldest waiting record of the key, comes within the term of the undecided tapping
      key of the key: it is its own. */
  lemma FirstTapOwn(cfg: Config, k: Key, t: Record, rest: seq<Record>, r: Record, out: seq<Emission>, n: nat,
      received: seq<Event>)
    requires AllRanked(received) && Increasing(received) && Known(cfg, t, rest, r.event, received)
    requires Undecided(t) && t.event.key == r.event.key == k && IsEvent(r.event) && !r.event.pressed &&
             WithinTerm(cfg, t, r.event)
    requires Loose(k, t, [r] + Of(k, rest), out, n)
    ensures r.event.rank == t.event.rank + 1
  {
    hide Excused, HasRank, HasTap, Agree, WaitFresh, AllDue, OutOk, AllRanked, Increasing;
    var w := Of(k, rest);
    WithinIsLater(cfg, received, t.event, r.event);
    TakenOk(k, r, w, n);
    assert Waits([r] + w, t.event.rank + 1);
  }

  /** A call on the oldest waiting record of the key. */
  lemma SameKeyLoose(cfg: Config, k: Key, t: Record, rest: seq<Record>, r: Record, a: Answer, out: seq<Emission>,
      n: nat, received: seq<Event>)
    requires AllRanked(received) && Increasing(received) && Known(cfg, t, rest, r.event, received)
    requires r.event.key == k && Buffered(r) && Loose(k, t, [r] + Of(k, rest), out, n)
    ensures var o := ProcessTapping(cfg, t, rest, r, a);
            Loose(k, o.tapping, After(k, o), out + o.out, n)
  {
    hide Loose, Known, AllRanked, Increasing, Choose, Scan;
    var m := Choose(cfg, t, rest, r.event, a);
    var w := Of(k, rest);
    var o := Apply(cfg, m, t, rest, r);
    ChooseGuard(cfg, t, rest, r, a);
    if m.Settle? || m.SettleInterrupt? {
      SettleLoose(k, t, [r] + w, out, n, o.out[0]);
    } else if m.Wait? || m.WaitInterrupt? || m.Ignore? {
      SameTapping(k, t, o.tapping, [r] + w, out, n);
      assert out + o.out == out;
    } else if m.Expire? {
      Leaves(k, t, o.tapping, [r] + w, out, n);
      assert out + o.out == out;
    } else if r.event.pressed {
      SameKeyPressLoose(cfg, k, t, rest, r, a, out, n, received);
    } else if m.FirstTap? {
      ChoseFirstTap(cfg, t, rest, r.event, a);
      FirstTapOwn(cfg, k, t, rest, r, out, n, received);
      FirstTapLoose(k, t, r, w, out, n);
    } else {
      ReleaseOut(k, t, o.tapping, r, w, out, n, o.out[0]);
      assert o.out == [o.out[0]];
    }
  }

  lemma ChoseFirstTap(cfg: Config, t: Record, rest: seq<Record>, e: Event, a: Answer)
    requires Choose(cfg, t, rest, e, a) == FirstTap
    ensures Undecided(t) && t.event.key == e.key && IsEvent(e) && !e.pressed && WithinTerm(cfg, t, e)
  {}

  /** A press is consumed: it is passed, starts, starts anew, or is a sequential tap. */
  lemma SameKeyPressLoose(cfg: Config, k: Key, t: Record, rest: seq<Record>, r: Record, a: Answer, out: seq<Emission>,
      n: nat, received: seq<Event>)
    requires AllRanked(received) && Increasing(received) && Known(cfg, t, rest, r.event, received)
    requires r.event.key == k && Buffered(r) && r.event.pressed && Loose(k, t, [r] + Of(k, rest), out, n)
    requires Choose(cfg, t, rest, r.event, a) in {Pass, PassInterrupt, Start, StartReleasing, Restart, SequentialTap}
    ensures var o := ProcessTapping(cfg, t, rest, r, a);
            o.consumed && Loose(k, o.tapping, Of(k, o.rest), out + o.out, n)
  {
    hide Loose, Known, AllRanked, Increasing, Choose, Scan, HasRank, Waits;
    var m := Choose(cfg, t, rest, r.event, a);
    var w := Of(k, rest);
    var o := Apply(cfg, m, t, rest, r);
    ChooseGuard(cfg, t, rest, r, a);
    PressTaken(k, t, r, w, out, n);
    if m.Pass? || m.PassInterrupt? {
      PressPlain(k, t, t, w, out, n, Real(r));
      SameTapping(k, t, o.tapping, w, out + o.out, n);
    } else if m.Restart? {
      PressStarts(k, t, r, w, out, n);
      assert out + o.out == out;
    } else if m.SequentialTap? {
      PressTap(k, t, o.tapping, w, w, out, n);
    } else if m.Start? {
      SameKeyStartsLoose(cfg, k, t, rest, r, out, n, received);
    } else {
      OtherEmission(k, t, [r] + w, out, n, o.out[0]);
      SameKeyStartsLoose(cfg, k, t, rest, r, out + [o.out[0]], n, received);
      assert out + [o.out[0]] + Scan(cfg, r, rest).out == out + o.out;
    }
  }

  // ---------------------------------------------------------------- the drain

  /** The invariant of a key in a state that received `n` of its events. */
  predicate LoosePaired(k: Key, s: State, n: nat) {
    Loose(k, s.tapping, Of(k, s.waiting), s.out, n)
  }

  lemma FrontLoose(cfg: Config, answers: Answers, k: Key, s: State, n: nat, received: seq<Event>)
    requires AllRanked(received) && Increasing(received) && StoredKnown(cfg, s, received)
    requires WellFormed(s) && s.waiting != [] && LoosePaired(k, s, n)
    ensures LoosePaired(k, PutBack(s, FrontOutcome(cfg, answers, s)), n)
  {
    hide Loose, AllRanked, Increasing, Apply, Choose, Known, StoredKnown;
    var front, rest, a := s.waiting[0], s.waiting[1..], answers(s.calls);
    var o := ProcessTapping(cfg, s.tapping, rest, front, a);
    FrontBuffered(s);
    KnownFront(cfg, s, received);
    CallStores(cfg, s.tapping, rest, front, a);
    OfCons(k, front, rest);
    OfCons(k, o.record, o.rest);
    assert s.waiting == [front] + rest;
    if front.event.key == k {
      SameKeyLoose(cfg, k, s.tapping, rest, front, a, s.out, n, received);
    } else {
      ChooseGuard(cfg, s.tapping, rest, front, a);
      OtherKeyLoose(cfg, Choose(cfg, s.tapping, rest, front.event, a), k, s.tapping, rest, front, s.out, n);
    }
  }

  lemma {:induction false} DrainLoose(cfg: Config, answers: Answers, k: Key, s: State, n: nat, received: seq<Event>)
    requires AllRanked(received) && Increasing(received) && StoredKnown(cfg, s, received)
    requires WellFormed(s) && LoosePaired(k, s, n)
    ensures LoosePaired(k, Drain(cfg, answers, s), n)
    decreases |s.waiting|
  {
    hide LoosePaired, AllRanked, Increasing, ProcessTapping, StoredKnown, WellFormed;
    if s.waiting != [] {
      FrontLoose(cfg, answers, k, s, n, received);
      FrontKnown(cfg, answers, s, received);
      FrontWellFormed(cfg, answers, s);
      var o := FrontOutcome(cfg, answers, s);
      if o.consumed { DrainLoose(cfg, answers, k, PutBack(s, o), n, received); }
    }
  }

  /** Between deliveries a released tapping key leaves nothing waiting. */
  predicate NotStalledReleased(s: State) {
    s.waiting != [] ==> !(IsEvent(s.tapping.event) && !s.tapping.event.pressed)
  }

  lemma Kept(cfg: Config, t: Record, rest: seq<Record>, r: Record, a: Answer)
    requires IsEvent(r.event)
    ensures var o := ProcessTapping(cfg, t, rest, r, a);
            !o.consumed ==> !(IsEvent(o.tapping.event) && !o.tapping.event.pressed)
  {}

  lemma {:induction false} DrainStops(cfg: Config, answers: Answers, s: State)
    requires WellFormed(s)
    ensures NotStalledReleased(Drain(cfg, answers, s))
    decreases |s.waiting|
  {
    hide WellFormed, ProcessTapping;
    if s.waiting != [] {
      FrontBuffered(s);
      Kept(cfg, s.tapping, s.waiting[1..], s.waiting[0], answers(s.calls));
      FrontWellFormed(cfg, answers, s);
      var o := FrontOutcome(cfg, answers, s);
      if o.consumed { DrainStops(cfg, answers, PutBack(s, o)); }
    }
  }

  lemma RunStops(cfg: Config, answers: Answers, inputs: seq<Event>)
    ensures NotStalledReleased(Run(cfg, answers, inputs))
  {
    if inputs != [] {
      var before, e := inputs[..|inputs| - 1], inputs[|inputs| - 1];
      ReachableWellFormed(cfg, answers, before);
      DeliverWellFormed(cfg, answers, Run(cfg, answers, before), e);
      DrainStops(cfg, answers, Deliver(cfg, answers, Run(cfg, answers, before), e));
    }
  }

  // ---------------------------------------------------------------- one delivery

  /** The release of a press that neither waits nor is the tapping key is processed at once, older events of the
      key waiting. */
  lemma ReleaseAhead(k: Key, t: Record, w: seq<Record>, out: seq<Emission>, n: nat, m: Emission)
    requires Loose(k, t, w, out, n) && n % 2 == 1 && !Holds(t, k) && !Waits(w, n - 1)
    requires IsReal(m, k) && m.record.event.rank == n && !m.record.event.pressed && m.record.tap.count == 0
    ensures Loose(k, t, w, out + [m], n + 1)
  {
    hide Excused, HasRank, HasTap, Agree;
    var out' := out + [m];
    NoLater(k, out, n);
    AheadEmission(k, t, w, out, n, m);
    forall q ensures HasRank(out', k, q) <==> HasRank(out, k, q) || q == n { HasGrows(out, m, k, q); }
    forall q, c: nat | HasTap(out, k, q, c) ensures HasTap(out', k, q, c) { TapGrows(out, m, k, q, c); }
    assert forall i :: 0 <= i < |w| ==> w[i].event.rank != n - 1;
    forall x | 0 <= x < |out'| && IsReal(out'[x], k) && out'[x].record.event.pressed &&
      !HasRank(out', k, out'[x].record.event.rank + 1)
      ensures DueOk(k, t, w, out', n + 1, x)
    {
      assert x < |out| && out'[x] == out[x] && DueOk(k, t, w, out, n, x);
      DueStays(k, t, w, out, n, x, m);
    }
  }

  lemma AheadEmission(k: Key, t: Record, w: seq<Record>, out: seq<Emission>, n: nat, m: Emission)
    requires OutOk(k, out, n) && AllDue(k, t, w, out, n) && n % 2 == 1 && !Holds(t, k)
    requires IsReal(m, k) && m.record.event.rank == n && !m.record.event.pressed && m.record.tap.count == 0
    ensures OutOk(k, out + [m], n + 1)
  {
    hide Excused, HasRank, Agree;
    NoLater(k, out, n);
    forall x | 0 <= x < |out| && IsPair(k, out[x], m)
      ensures m.record.tap.count == out[x].record.tap.count || Excused(out, k, out[x].record.tap.count, x, |out|)
    {
      assert DueOk(k, t, w, out, n, x);
    }
    AgreeGrows(k, out, m);
  }

  lemma OnlyWaitsLoose(cfg: Config, m: Move, k: Key, t: Record, rest: seq<Record>, r: Record, w: seq<Record>,
      out: seq<Emission>, n: nat)
    requires Loose(k, t, w, out, n) && OnlyWaits(m) && Guard(m, t, r)
    ensures var o := Apply(cfg, m, t, rest, r);
            && o.rest == rest && o.record == r && !o.consumed
            && Loose(k, o.tapping, w, out + o.out, n)
  {
    hide Loose;
    var o := Apply(cfg, m, t, rest, r);
    if m.Settle? || m.SettleInterrupt? {
      SettleLoose(k, t, w, out, n, o.out[0]);
    } else if m.Expire? {
      Leaves(k, t, o.tapping, w, out, n);
      assert out + o.out == out;
    } else {
      SameTapping(k, t, o.tapping, w, out, n);
      assert out + o.out == out;
    }
  }

  lemma LandLoose(k: Key, m: Move, cfg: Config, s: State, e: Event, n: nat)
    requires Guard(m, s.tapping, Record(e, NO_TAP))
    requires var o := Apply(cfg, m, s.tapping, s.waiting, Record(e, NO_TAP));
             Loose(k, o.tapping, Of(k, Queued(e, o)), s.out + o.out, n)
    ensures LoosePaired(k, Land(s, e, Apply(cfg, m, s.tapping, s.waiting, Record(e, NO_TAP))), n)
  {
    hide Loose;
    var o := Apply(cfg, m, s.tapping, s.waiting, Record(e, NO_TAP));
    if !o.consumed && IsEvent(e) && |o.rest| + 1 >= BUFFER_SIZE {
      if Holds(o.tapping, k) && o.tapping.tap.count > 0 {
        assert m.FirstTap? && o.record.event.key == k;
        OfSnoc(k, o.rest, o.record);
      }
      DropLoose(k, o.tapping, Of(k, Queued(e, o)), s.out + o.out, n);
    }
  }

  lemma DeliverOtherLoose(cfg: Config, answers: Answers, k: Key, s: State, e: Event, n: nat)
    requires LoosePaired(k, s, n) && (IsEvent(e) ==> e.key != k)
    ensures LoosePaired(k, Deliver(cfg, answers, s, e), n)
  {
    hide Loose, Apply;
    var r := Record(e, NO_TAP);
    var m := Choose(cfg, s.tapping, s.waiting, e, answers(s.calls));
    ChooseGuard(cfg, s.tapping, s.waiting, r, answers(s.calls));
    OtherKeyLoose(cfg, m, k, s.tapping, s.waiting, r, s.out, n);
    var o := Apply(cfg, m, s.tapping, s.waiting, r);
    ApplyStored(cfg, m, s.tapping, s.waiting, r);
    OfSnoc(k, o.rest, o.record);
    LandLoose(k, m, cfg, s, e, n);
  }

  /** None of the key waits. */
  lemma DeliverFirstLoose(cfg: Config, answers: Answers, s: State, e: Event, n: nat, received: seq<Event>)
    requires AllRanked(received) && Increasing(received) && Known(cfg, s.tapping, s.waiting, e, received)
    requires LoosePaired(e.key, s, n) && IsEvent(e) && e.rank == n && (e.pressed <==> n % 2 == 0)
    requires !AnyOf(e.key, s.waiting)
    ensures LoosePaired(e.key, Deliver(cfg, answers, s, e), n + 1)
  {
    hide Loose, Apply, AllRanked, Increasing, Known;
    var k, r := e.key, Record(e, NO_TAP);
    var m := Choose(cfg, s.tapping, s.waiting, e, answers(s.calls));
    ChooseGuard(cfg, s.tapping, s.waiting, r, answers(s.calls));
    OfNone(k, s.waiting);
    ReceiveLoose(k, s.tapping, [], s.out, n, e);
    assert [] + [r] == [r] + Of(k, s.waiting);
    SameKeyLoose(cfg, k, s.tapping, s.waiting, r, answers(s.calls), s.out, n + 1, received);
    var o := Apply(cfg, m, s.tapping, s.waiting, r);
    ApplyStored(cfg, m, s.tapping, s.waiting, r);
    assert !AnyOf(k, o.rest);
    OfNone(k, o.rest);
    OfSnoc(k, o.rest, o.record);
    assert Of(k, Queued(e, o)) == After(k, o);
    LandLoose(k, m, cfg, s, e, n + 1);
  }

  /** Others of the key wait, and the event queues up behind them. */
  lemma DeliverWaitsLoose(cfg: Config, answers: Answers, s: State, e: Event, n: nat)
    requires LoosePaired(e.key, s, n) && IsEvent(e) && e.rank == n && (e.pressed <==> n % 2 == 0)
    requires OnlyWaits(MoveFor(cfg, answers, s, e))
    ensures LoosePaired(e.key, Deliver(cfg, answers, s, e), n + 1)
  {
    hide Loose, Apply, Choose;
    var k, r := e.key, Record(e, NO_TAP);
    var m := MoveFor(cfg, answers, s, e);
    ChooseGuard(cfg, s.tapping, s.waiting, r, answers(s.calls));
    ReceiveLoose(k, s.tapping, Of(k, s.waiting), s.out, n, e);
    OfSnoc(k, s.waiting, r);
    OnlyWaitsLoose(cfg, m, k, s.tapping, s.waiting, r, Of(k, s.waiting) + [r], s.out, n + 1);
    LandLoose(k, m, cfg, s, e, n + 1);
  }

  /** A press is handled while others of its key wait. */
  lemma DeliverPressAhead(cfg: Config, answers: Answers, s: State, e: Event, n: nat, received: seq<Event>)
    requires AllRanked(received) && Increasing(received) && Known(cfg, s.tapping, s.waiting, e, received)
    requires LoosePaired(e.key, s, n) && IsEvent(e) && e.pressed && e.rank == n && n % 2 == 0
    requires MoveFor(cfg, answers, s, e) in {Pass, Start, StartReleasing}
    ensures LoosePaired(e.key, Deliver(cfg, answers, s, e), n + 1)
  {
    hide Loose, AllRanked, Increasing, Known, Choose, HasRank, Waits, LoosePaired;
    var k, r, w := e.key, Record(e, NO_TAP), Of(e.key, s.waiting);
    var m := MoveFor(cfg, answers, s, e);
    ChooseGuard(cfg, s.tapping, s.waiting, r, answers(s.calls));
    LooseOf(k, s, n);
    LooseWaits(k, s.tapping, w, s.out, n);
    PressReceivedLoose(k, s.tapping, w, s.out, n);
    if m.Pass? {
      PressPlain(k, s.tapping, s.tapping, w, s.out, n + 1, Real(r));
      LandLoose(k, m, cfg, s, e, n + 1);
    } else {
      forall i | 0 <= i < |s.waiting| && s.waiting[i].event.key == k ensures s.waiting[i].event.rank < n {
        var _ := OfMember(k, s.waiting, i);
      }
      ScanFindsNone(cfg, k, s.tapping, s.waiting, r, received);
      var unregister := Apply(cfg, m, s.tapping, s.waiting, r).out;
      ReplacedLoose(k, s.tapping, NO_RECORD, w, s.out, n + 1, unregister);
      NoLaterHere(k, s, n, unregister);
      PressStarts(k, NO_RECORD, r, w, s.out + unregister, n + 1);
      LandLoose(k, m, cfg, s, e, n + 1);
    }
  }

  lemma LooseOf(k: Key, s: State, n: nat)
    requires LoosePaired(k, s, n)
    ensures Loose(k, s.tapping, Of(k, s.waiting), s.out, n)
  {}

  lemma NoLaterHere(k: Key, s: State, n: nat, more: seq<Emission>)
    requires LoosePaired(k, s, n) && forall i :: 0 <= i < |more| ==> more[i].Synthetic?
    ensures !HasRank(s.out + more, k, n) && !HasRank(s.out + more, k, n + 1)
  {}

  /** The press of the release does not wait, and the tapping key is no press of the key. */
  predicate Alone(s: State, e: Event) {
    && !Holds(s.tapping, e.key)
    && forall i :: 0 <= i < |s.waiting| && s.waiting[i].event.key == e.key ==> s.waiting[i].event.rank + 1 != e.rank
  }

  /** The release cannot be handled before its press, nor as the release of another press. */
  predicate Safe(cfg: Config, s: State, e: Event) {
    InTurn(cfg, s, e) || Alone(s, e)
  }

  /** A release is passed while others of its key wait, its press not among them. */
  lemma DeliverReleaseAhead(cfg: Config, answers: Answers, s: State, e: Event, n: nat)
    requires LoosePaired(e.key, s, n) && IsEvent(e) && !e.pressed && e.rank == n && n % 2 == 1
    requires MoveFor(cfg, answers, s, e) == Pass && (!Typed(s.waiting, e) || Alone(s, e))
    ensures LoosePaired(e.key, Deliver(cfg, answers, s, e), n + 1)
  {
    hide Loose, Choose;
    var k, r, w := e.key, Record(e, NO_TAP), Of(e.key, s.waiting);
    ChooseGuard(cfg, s.tapping, s.waiting, r, answers(s.calls));
    LooseWaits(k, s.tapping, w, s.out, n);
    if Waits(w, n - 1) {
      var j :| 0 <= j < |w| && w[j].event.rank == n - 1;
      var i := OfSource(k, s.waiting, j);
    }
    ReleaseAhead(k, s.tapping, w, s.out, n, Real(r));
    LandLoose(k, Pass, cfg, s, e, n + 1);
  }

  /** What a delivered event of a key does while others of its key wait. */
  lemma MovesBehind(cfg: Config, answers: Answers, s: State, e: Event)
    requires IsEvent(e) && AnyOf(e.key, s.waiting) && NotStalledReleased(s) && (!e.pressed ==> Safe(cfg, s, e))
    ensures var m := MoveFor(cfg, answers, s, e);
            || OnlyWaits(m)
            || (e.pressed && m in {Pass, Start, StartReleasing})
            || (!e.pressed && m == Pass && (!Typed(s.waiting, e) || Alone(s, e)))
  {}

  lemma DeliverLoose(cfg: Config, answers: Answers, before: seq<Event>, k: Key, s: State, e: Event)
    requires AllRanked(before + [e]) && Increasing(before + [e]) && Known(cfg, s.tapping, s.waiting, e, before + [e])
    requires LoosePaired(k, s, RankOf(before, k)) && NotStalledReleased(s)
    requires IsEvent(e) && !e.pressed ==> Safe(cfg, s, e)
    ensures LoosePaired(k, Deliver(cfg, answers, s, e), RankOf(before + [e], k))
  {
    hide LoosePaired, Known, Safe, Deliver, MoveFor;
    var n := RankOf(before, k);
    assert (before + [e])[..|before|] == before && (before + [e])[|before|] == e;
    assert Ranked(before, e);
    if IsEvent(e) && e.key == k {
      if !AnyOf(k, s.waiting) {
        DeliverFirstLoose(cfg, answers, s, e, n, before + [e]);
      } else {
        MovesBehind(cfg, answers, s, e);
        if OnlyWaits(MoveFor(cfg, answers, s, e)) {
          DeliverWaitsLoose(cfg, answers, s, e, n);
        } else if e.pressed {
          DeliverPressAhead(cfg, answers, s, e, n, before + [e]);
        } else {
          DeliverReleaseAhead(cfg, answers, s, e, n);
        }
      }
    } else {
      DeliverOtherLoose(cfg, answers, k, s, e, n);
    }
  }

  // ---------------------------------------------------------------- whole runs

  /** Every release of the run is safe when it is delivered. */
  predicate ReleasesSafe(cfg: Config, answers: Answers, inputs: seq<Event>) {
    inputs == [] ||
    (var before, e := inputs[..|inputs| - 1], inputs[|inputs| - 1];
     ReleasesSafe(cfg, answers, before) && (IsEvent(e) && !e.pressed ==> Safe(cfg, Run(cfg, answers, before), e)))
  }

  lemma {:induction false} RunLoose(cfg: Config, answers: Answers, inputs: seq<Event>, k: Key)
    requires AllRanked(inputs) && Increasing(inputs) && Unwrapped(cfg, answers, inputs) &&
             ReleasesSafe(cfg, answers, inputs)
    ensures LoosePaired(k, Run(cfg, answers, inputs), RankOf(inputs, k))
  {
    hide LoosePaired, AllRanked, Increasing, Safe, Known, StoredKnown, OwnEvidence, Process, WellFormed,
      NotStalledReleased;
    if inputs == [] {
      NothingYet(cfg, answers, k);
    } else {
      var before, e := inputs[..|inputs| - 1], inputs[|inputs| - 1];
      assert inputs == before + [e];
      Prefixes(before, e);
      RunLoose(cfg, answers, before, k);
      TapsByOwnRelease(cfg, answers, before);
      var s := Run(cfg, answers, before);
      StillKnown(cfg, s, before, e);
      KnownNew(cfg, s, e, inputs);
      RunStops(cfg, answers, before);
      DeliverLoose(cfg, answers, before, k, s, e);
      ReachableWellFormed(cfg, answers, before);
      DeliverWellFormed(cfg, answers, s, e);
      EvidenceStays(cfg, s.out, before, e);
      DeliverProves(cfg, answers, s, e, inputs);
      DrainLoose(cfg, answers, k, Deliver(cfg, answers, s, e), RankOf(inputs, k), inputs);
      ProcessUnfolds(cfg, answers, s, e);
    }
  }

  lemma NothingYet(cfg: Config, answers: Answers, k: Key)
    ensures LoosePaired(k, Run(cfg, answers, []), RankOf([], k))
  {}

  lemma StillKnown(cfg: Config, s: State, before: seq<Event>, e: Event)
    requires StoredKnown(cfg, s, before)
    ensures StoredKnown(cfg, s, before + [e])
  {}

  /** Verdict agreement needs only safe releases: over every ranked run with increasing times that does not wrap
      round onto stored events, whatever presses overtake, and releases whose press does not wait, each release is
      processed after its press and with the same tap count, unless a synthetic release carrying that count was
      processed in between. */
  lemma AgreementIfReleasesSafe(cfg: Config, answers: Answers, inputs: seq<Event>, k: Key)
    requires AllRanked(inputs) && Increasing(inputs) && Unwrapped(cfg, answers, inputs) &&
             ReleasesSafe(cfg, answers, inputs)
    ensures Agree(k, Run(cfg, answers, inputs).out)
  {
    RunLoose(cfg, answers, inputs, k);
  }
}
