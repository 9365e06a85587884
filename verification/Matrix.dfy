/** Bits of row words of any width. */
module Bits {
  import opened Arithmetic

  function Bit(x: nat, c: nat): bool {
    if c == 0 then x % 2 == 1 else Bit(x / 2, c - 1)
  }

  function And(x: nat, y: nat): (z: nat)
    ensures z <= x && z <= y
  {
    if x == 0 || y == 0 then 0 else 2 * And(x / 2, y / 2) + if x % 2 == 1 && y % 2 == 1 then 1 else 0
  }

  function Xor(x: nat, y: nat): nat
    decreases x + y
  {
    if x == 0 && y == 0 then 0 else 2 * Xor(x / 2, y / 2) + if x % 2 != y % 2 then 1 else 0
  }

  lemma {:induction false} BitOfZero(c: nat)
    ensures !Bit(0, c)
  {
    if c > 0 { BitOfZero(c - 1); }
  }

  lemma {:induction false} BitOfAnd(x: nat, y: nat, c: nat)
    ensures Bit(And(x, y), c) <==> Bit(x, c) && Bit(y, c)
    decreases c
  {
    if x == 0 || y == 0 {
      BitOfZero(c);
    } else if c > 0 {
      BitOfAnd(x / 2, y / 2, c - 1);
    }
  }

  lemma {:induction false} BitOfXor(x: nat, y: nat, c: nat)
    ensures Bit(Xor(x, y), c) <==> Bit(x, c) != Bit(y, c)
    decreases c
  {
    if x == 0 && y == 0 {
      BitOfZero(c);
    } else if c > 0 {
      BitOfXor(x / 2, y / 2, c - 1);
    }
  }

  /** A number that is not 0 has a bit set. */
  lemma {:induction false} SomeBit(x: nat) returns (c: nat)
    requires x > 0
    ensures Bit(x, c)
  {
    if x % 2 == 1 { c := 0; } else {
      var d := SomeBit(x / 2);
      c := d + 1;
    }
  }

  lemma {:induction false} AndSelf(x: nat)
    ensures And(x, x) == x
  {
    if x > 0 { AndSelf(x / 2); }
  }

  /** The word without its lowest set bit: what `x & (x - 1)` leaves. The word 0 gives 0. */
  function WithoutLowest(x: nat): nat {
    if x == 0 then 0 else And(x, x - 1)
  }

  lemma WithoutLowestStep(x: nat)
    requires x > 0
    ensures WithoutLowest(x) == if x % 2 == 1 then x - 1 else 2 * WithoutLowest(x / 2)
  {
    if x % 2 == 1 { AndSelf(x / 2); }
  }

  /** Two different bits are set. */
  ghost predicate TwoBits(x: nat) {
    exists c: nat, d: nat :: c < d && Bit(x, c) && Bit(x, d)
  }

  lemma {:induction false} TwoBitsFound(x: nat) returns (c: nat, d: nat)
    requires WithoutLowest(x) != 0
    ensures c < d && Bit(x, c) && Bit(x, d)
  {
    WithoutLowestStep(x);
    if x % 2 == 1 {
      var e := SomeBit(x / 2);
      c, d := 0, e + 1;
    } else {
      var c0, d0 := TwoBitsFound(x / 2);
      c, d := c0 + 1, d0 + 1;
    }
  }

  lemma {:induction false} TwoBitsLeave(x: nat, c: nat, d: nat)
    requires c < d && Bit(x, c) && Bit(x, d)
    ensures WithoutLowest(x) != 0
    decreases c
  {
    if x == 0 { BitOfZero(c); }
    WithoutLowestStep(x);
    if x % 2 == 1 {
      if x / 2 == 0 { BitOfZero(d - 1); }
    } else {
      TwoBitsLeave(x / 2, c - 1, d - 1);
    }
  }

  /** `popcount_more_than_one` is right. */
  lemma MoreThanOne(x: nat)
    ensures WithoutLowest(x) != 0 <==> TwoBits(x)
  {
    if WithoutLowest(x) != 0 {
      var c, d := TwoBitsFound(x);
    }
    if TwoBits(x) {
      var c: nat, d: nat :| c < d && Bit(x, c) && Bit(x, d);
      TwoBitsLeave(x, c, d);
    }
  }

  /** Setting a bit above all others. */
  lemma {:induction false} BitOfSum(a: nat, n: nat, c: nat)
    requires a < Pow2(n)
    ensures Bit(a + Pow2(n), c) <==> c == n || Bit(a, c)
    ensures Bit(a, c) ==> c < n
    decreases c
  {
    if n == 0 {
      BitOfZero(c);
      if c > 0 { BitOfZero(c - 1); }
    } else if c > 0 {
      BitOfSum(a / 2, n - 1, c - 1);
      assert (a + Pow2(n)) / 2 == a / 2 + Pow2(n - 1);
    }
  }
}

/** Key events from matrix scans, with ghost filtering (`quantum/keyboard.c`). */
module MatrixModel {
  import opened Arithmetic
  import opened Bits

  /** Matrix size, whether ghosts are filtered, and which positions have a key on layer 0. */
  datatype Config = Config(rows: nat, cols: nat, hasGhost: bool, key: (nat, nat) -> bool)

  datatype KeyEvent = KeyEvent(row: nat, col: nat, pressed: bool)

  /** The pressed positions of a row that have a key, among the first `n` columns. */
  function RealKeys(k: Config, row: nat, data: nat, n: nat): (out: nat)
    ensures out < Pow2(n)
  {
    if n == 0 then 0
    else RealKeys(k, row, data, n - 1) + if k.key(row, n - 1) && Bit(data, n - 1) then Pow2(n - 1) else 0
  }

  lemma {:induction false} RealKeysBit(k: Config, row: nat, data: nat, n: nat, c: nat)
    ensures Bit(RealKeys(k, row, data, n), c) <==> c < n && k.key(row, c) && Bit(data, c)
  {
    if n == 0 {
      BitOfZero(c);
    } else {
      RealKeysBit(k, row, data, n - 1, c);
      BitOfSum(RealKeys(k, row, data, n - 1), n - 1, c);
    }
  }

  /** Rows `i` and `row` have two columns in common in which both have a pressed key. */
  ghost predicate Share(k: Config, m: seq<nat>, row: nat, i: nat)
    requires row < |m| && i < |m|
  {
    exists c: nat, d: nat :: c < d < k.cols && Both(k, m, row, i, c) && Both(k, m, row, i, d)
  }

  predicate Both(k: Config, m: seq<nat>, row: nat, i: nat, c: nat)
    requires row < |m| && i < |m|
  {
    k.key(row, c) && Bit(m[row], c) && k.key(i, c) && Bit(m[i], c)
  }

  /** Row `row` is ambiguous. */
  ghost predicate Ghost(k: Config, m: seq<nat>, row: nat)
    requires row < |m|
  {
    k.hasGhost && exists i :: 0 <= i < |m| && i != row && Share(k, m, row, i)
  }

  /** The bit test of the code, with another row, says whether the rows share two columns. */
  lemma SharedBits(k: Config, m: seq<nat>, row: nat, i: nat)
    requires row < |m| && i < |m|
    ensures var r := RealKeys(k, row, m[row], k.cols);
            var s := RealKeys(k, i, m[i], k.cols);
            && (WithoutLowest(And(s, r)) != 0 <==> Share(k, m, row, i))
            && (WithoutLowest(r) == 0 ==> !Share(k, m, row, i))
  {
    hide Bit, And, WithoutLowest, RealKeys;
    var r := RealKeys(k, row, m[row], k.cols);
    var s := RealKeys(k, i, m[i], k.cols);
    forall c: nat
      ensures Bit(And(s, r), c) <==> c < k.cols && Both(k, m, row, i, c)
      ensures Bit(And(s, r), c) ==> Bit(r, c)
    {
      BitOfAnd(s, r, c);
      RealKeysBit(k, row, m[row], k.cols, c);
      RealKeysBit(k, i, m[i], k.cols, c);
    }
    MoreThanOne(And(s, r));
    MoreThanOne(r);
    if Share(k, m, row, i) {
      var c: nat, d: nat :| c < d < k.cols && Both(k, m, row, i, c) && Both(k, m, row, i, d);
      assert Bit(And(s, r), c) && Bit(And(s, r), d) && Bit(r, c) && Bit(r, d);
    }
    if TwoBits(And(s, r)) {
      var c: nat, d: nat :| c < d && Bit(And(s, r), c) && Bit(And(s, r), d);
      assert Both(k, m, row, i, c) && Both(k, m, row, i, d);
    }
  }

  /** If a row is withheld because of another one, that one is withheld for the same reason. */
  lemma GhostsArePairs(k: Config, m: seq<nat>, row: nat)
    requires row < |m| && Ghost(k, m, row)
    ensures exists i :: 0 <= i < |m| && i != row && Share(k, m, i, row) && Ghost(k, m, i)
  {
    var i :| 0 <= i < |m| && i != row && Share(k, m, row, i);
    ShareSymmetric(k, m, row, i);
    assert Ghost(k, m, i);
  }

  lemma ShareSymmetric(k: Config, m: seq<nat>, row: nat, i: nat)
    requires row < |m| && i < |m| && Share(k, m, row, i)
    ensures Share(k, m, i, row)
  {
    var c: nat, d: nat :| c < d < k.cols && Both(k, m, row, i, c) && Both(k, m, row, i, d);
    assert Both(k, m, i, row, c) && Both(k, m, i, row, d);
  }

  // ---------------------------------------------------------------- events

  /** Events for the first `n` columns of a row. */
  function RowEvents(before: nat, now: nat, row: nat, n: nat): seq<KeyEvent> {
    if n == 0 then []
    else
      RowEvents(before, now, row, n - 1) +
      if Bit(before, n - 1) != Bit(now, n - 1) then [KeyEvent(row, n - 1, Bit(now, n - 1))] else []
  }

  ghost predicate Skipped(k: Config, before: seq<nat>, now: seq<nat>, row: nat)
    requires row < |now| && row < |before|
  {
    before[row] == now[row] || Ghost(k, now, row)
  }

  /** Events for the first `n` rows. */
  ghost function ScanEvents(k: Config, before: seq<nat>, now: seq<nat>, n: nat): seq<KeyEvent>
    requires n <= |before| == |now|
  {
    if n == 0 then []
    else
      ScanEvents(k, before, now, n - 1) +
      if Skipped(k, before, now, n - 1) then [] else RowEvents(before[n - 1], now[n - 1], n - 1, k.cols)
  }

  /** The rows remembered for the next scan. */
  ghost function Remembered(k: Config, before: seq<nat>, now: seq<nat>): (after: seq<nat>)
    requires |before| == |now|
    ensures |after| == |now|
  {
    seq(|now|, r requires 0 <= r < |now| => if Skipped(k, before, now, r) then before[r] else now[r])
  }

  predicate Scans(k: Config, scans: seq<seq<nat>>) {
    forall i :: 0 <= i < |scans| ==> |scans[i]| == k.rows
  }

  /** Remembered rows after all scans, from a matrix with no key down. */
  ghost function RowsAfter(k: Config, scans: seq<seq<nat>>): (rows: seq<nat>)
    requires Scans(k, scans)
    ensures |rows| == k.rows
  {
    if scans == [] then seq(k.rows, _ => 0)
    else Remembered(k, RowsAfter(k, scans[..|scans| - 1]), scans[|scans| - 1])
  }

  ghost function EventsOf(k: Config, scans: seq<seq<nat>>): seq<KeyEvent>
    requires Scans(k, scans)
  {
    if scans == [] then []
    else
      EventsOf(k, scans[..|scans| - 1]) +
      ScanEvents(k, RowsAfter(k, scans[..|scans| - 1]), scans[|scans| - 1], k.rows)
  }

  /** Whether a key is down after some events, given whether it was before. */
  function Down(es: seq<KeyEvent>, row: nat, col: nat, was: bool): bool {
    if es == [] then was
    else
      var e := es[|es| - 1];
      if e.row == row && e.col == col then e.pressed else Down(es[..|es| - 1], row, col, was)
  }

  /** Every event of the key changes whether it is down. */
  predicate Alternates(es: seq<KeyEvent>, row: nat, col: nat, was: bool) {
    if es == [] then true
    else
      var e := es[|es| - 1];
      && Alternates(es[..|es| - 1], row, col, was)
      && (e.row == row && e.col == col ==> e.pressed != Down(es[..|es| - 1], row, col, was))
  }

  lemma {:induction false} Appended(a: seq<KeyEvent>, b: seq<KeyEvent>, row: nat, col: nat, was: bool)
    ensures Down(a + b, row, col, was) == Down(b, row, col, Down(a, row, col, was))
    ensures Alternates(a + b, row, col, was) <==>
            Alternates(a, row, col, was) && Alternates(b, row, col, Down(a, row, col, was))
    decreases |b|
  {
    if b == [] {
      assert a + b == a;
    } else {
      var b' := b[..|b| - 1];
      assert (a + b)[..|a + b| - 1] == a + b';
      Appended(a, b', row, col, was);
    }
  }

  lemma NoEvents(row: nat, col: nat, was: bool)
    ensures Alternates([], row, col, was) && Down([], row, col, was) == was
  {}

  lemma OneMore(es: seq<KeyEvent>, e: KeyEvent, row: nat, col: nat, was: bool)
    ensures var here := e.row == row && e.col == col;
            && Down(es + [e], row, col, was) == (if here then e.pressed else Down(es, row, col, was))
            && (Alternates(es + [e], row, col, was) <==>
                Alternates(es, row, col, was) && (here ==> e.pressed != Down(es, row, col, was)))
  {
    assert (es + [e])[..|es|] == es;
  }

  lemma {:induction false} RowEventsOf(before: nat, now: nat, r: nat, n: nat, row: nat, col: nat, was: bool)
    requires row == r && col < n ==> was == Bit(before, col)
    ensures Alternates(RowEvents(before, now, r, n), row, col, was)
    ensures Down(RowEvents(before, now, r, n), row, col, was) == if row == r && col < n then Bit(now, col) else was
  {
    hide Bit, Alternates, Down;
    if n == 0 {
      NoEvents(row, col, was);
    } else {
      RowEventsOf(before, now, r, n - 1, row, col, was);
      var es := RowEvents(before, now, r, n - 1);
      OneMore(es, KeyEvent(r, n - 1, Bit(now, n - 1)), row, col, was);
      assert es + [] == es;
    }
  }

  lemma {:induction false} ScanEventsOf(k: Config, before: seq<nat>, now: seq<nat>, n: nat, row: nat, col: nat,
      was: bool)
    requires n <= |before| == |now| && col < k.cols
    requires row < n ==> was == Bit(before[row], col)
    ensures Alternates(ScanEvents(k, before, now, n), row, col, was)
    ensures Down(ScanEvents(k, before, now, n), row, col, was) ==
            if row < n then Bit(Remembered(k, before, now)[row], col) else was
  {
    hide Bit, Ghost, Alternates, Down, RowEvents;
    if n == 0 {
      NoEvents(row, col, was);
    } else {
      ScanEventsOf(k, before, now, n - 1, row, col, was);
      var es := ScanEvents(k, before, now, n - 1);
      assert es + [] == es;
      var bs := RowEvents(before[n - 1], now[n - 1], n - 1, k.cols);
      Appended(es, bs, row, col, was);
      RowEventsOf(before[n - 1], now[n - 1], n - 1, k.cols, row, col, Down(es, row, col, was));
    }
  }

  /** Over every run of scans the events of a key alternate, a press first, and the remembered rows are the
      net effect of all events. */
  lemma {:induction false} EventsAlternate(k: Config, scans: seq<seq<nat>>, row: nat, col: nat)
    requires Scans(k, scans) && row < k.rows && col < k.cols
    ensures Alternates(EventsOf(k, scans), row, col, false)
    ensures Down(EventsOf(k, scans), row, col, false) == Bit(RowsAfter(k, scans)[row], col)
  {
    hide Bit, Remembered, ScanEvents, Alternates, Down;
    if scans == [] {
      NoEvents(row, col, false);
      BitOfZero(col);
    } else {
      var init := scans[..|scans| - 1];
      EventsAlternate(k, init, row, col);
      var before, now := RowsAfter(k, init), scans[|scans| - 1];
      Appended(EventsOf(k, init), ScanEvents(k, before, now, k.rows), row, col, false);
      ScanEventsOf(k, before, now, k.rows, row, col, Bit(before[row], col));
    }
  }

  // ---------------------------------------------------------------- order of events

  /** Row by row, and in each row column by column. */
  predicate InOrder(es: seq<KeyEvent>) {
    forall i, j :: 0 <= i < j < |es| ==> es[i].row < es[j].row || (es[i].row == es[j].row && es[i].col < es[j].col)
  }

  lemma {:induction false} RowInOrder(before: nat, now: nat, row: nat, n: nat)
    ensures InOrder(RowEvents(before, now, row, n))
    ensures forall e :: e in RowEvents(before, now, row, n) ==> e.row == row && e.col < n
  {
    hide Bit;
    if n > 0 { RowInOrder(before, now, row, n - 1); }
  }

  lemma AppendInOrder(a: seq<KeyEvent>, b: seq<KeyEvent>, row: nat)
    requires InOrder(a) && InOrder(b)
    requires (forall e :: e in a ==> e.row < row) && forall e :: e in b ==> e.row == row
    ensures InOrder(a + b)
  {}

  /** The events of a scan come row by row and column by column, each key at most once,
    and only for keys that changed. */
  lemma {:induction false} ScanInOrder(k: Config, before: seq<nat>, now: seq<nat>, n: nat)
    requires n <= |before| == |now|
    ensures InOrder(ScanEvents(k, before, now, n))
    ensures forall e :: e in ScanEvents(k, before, now, n) ==> e.row < n && e.col < k.cols
  {
    hide RowEvents, Skipped;
    if n > 0 {
      ScanInOrder(k, before, now, n - 1);
      RowInOrder(before[n - 1], now[n - 1], n - 1, k.cols);
      AppendInOrder(ScanEvents(k, before, now, n - 1), RowEvents(before[n - 1], now[n - 1], n - 1, k.cols), n - 1);
    }
  }

  /** After a scan the events so far describe a row as it was just read if and only if no key of it changed
      or no other row shares two columns with it. */
  lemma WithheldIff(k: Config, scans: seq<seq<nat>>, row: nat)
    requires Scans(k, scans) && scans != [] && row < k.rows
    ensures var now := scans[|scans| - 1];
            var before := RowsAfter(k, scans[..|scans| - 1]);
            (forall col: nat :: col < k.cols ==> Down(EventsOf(k, scans), row, col, false) == Bit(now[row], col)) <==>
            (forall col: nat :: col < k.cols ==> Bit(before[row], col) == Bit(now[row], col))
            || !k.hasGhost || !exists i :: 0 <= i < |now| && i != row && Share(k, now, row, i)
  {
    hide Bit, Down, EventsOf;
    forall col: nat | col < k.cols
      ensures Down(EventsOf(k, scans), row, col, false) == Bit(RowsAfter(k, scans)[row], col)
    {
      EventsAlternate(k, scans, row, col);
    }
  }
}

module MatrixEngine {
  import opened Arithmetic
  import opened Bits
  import opened MatrixModel

  class Keyboard {
    const config: Config
    const matrixPrevious: array<nat>
    /** the low sixteen bits of the clock at the last tick event */
    var lastTick: nat

    predicate Valid() {
      matrixPrevious.Length == config.rows
    }

    constructor (config: Config)
      ensures Valid() && this.config == config && fresh(matrixPrevious) && matrixPrevious[..] == RowsAfter(config, [])
      ensures lastTick == 0
    {
      this.config, lastTick := config, 0;
      matrixPrevious := new nat[config.rows](_ => 0);
    }

    /** `get_real_keys` */
    method GetRealKeys(row: nat, data: nat) returns (out: nat)
      ensures out == RealKeys(config, row, data, config.cols)
    {
      out := 0;
      var mask := 1;
      for col := 0 to config.cols
        invariant out == RealKeys(config, row, data, col) && mask == Pow2(col)
      {
        if config.key(row, col) && Bit(data, col) { out := out + mask; }
        mask := 2 * mask;
      }
    }

    /** `has_ghost_in_row` */
    method HasGhostInRow(m: seq<nat>, row: nat) returns (ghosted: bool)
      requires row < |m|
      ensures ghosted <==> Ghost(config, m, row)
    {
      hide Bit, And, WithoutLowest, RealKeys, Share;
      if !config.hasGhost { return false; }
      var data := GetRealKeys(row, m[row]);
      forall i | 0 <= i < |m|
        ensures WithoutLowest(data) == 0 ==> !Share(config, m, row, i)
      {
        SharedBits(config, m, row, i);
      }
      if WithoutLowest(data) == 0 { return false; }
      for i := 0 to |m|
        invariant forall j :: 0 <= j < i && j != row ==> !Share(config, m, row, j)
      {
        SharedBits(config, m, row, i);
        if i != row {
          var other := GetRealKeys(i, m[i]);
          if WithoutLowest(And(other, data)) != 0 { return true; }
        }
      }
      ghosted := false;
    }

    /** `generate_tick_event`: at most one per millisecond, the clock being read modulo 2^16. */
    method GenerateTickEvent(now: nat) returns (tick: bool)
      modifies `lastTick
      ensures tick <==> (now - old(lastTick)) % 0x1_0000 != 0
      ensures lastTick == if tick then now % 0x1_0000 else old(lastTick)
    {
      tick := (now - lastTick) % 0x1_0000 != 0;
      if tick { lastTick := now % 0x1_0000; }
    }

    /** `matrix_task`: `switches` are the `switch_events` calls, `events` the key events executed; a tick event is
        executed if the matrix cannot be read or has not changed. */
    method MatrixTask(canRead: bool, m: seq<nat>, processKeypress: bool, now: nat)
        returns (changed: bool, events: seq<KeyEvent>, switches: seq<KeyEvent>, tick: bool)
      requires Valid() && |m| == config.rows
      modifies matrixPrevious, `lastTick
      ensures changed <==> canRead && old(matrixPrevious[..]) != m
      ensures switches == if canRead then ScanEvents(config, old(matrixPrevious[..]), m, config.rows) else []
      ensures events == if processKeypress then switches else []
      ensures matrixPrevious[..] ==
              if canRead then Remembered(config, old(matrixPrevious[..]), m) else old(matrixPrevious[..])
      ensures tick <==> !changed && (now - old(lastTick)) % 0x1_0000 != 0
      ensures lastTick == if tick then now % 0x1_0000 else old(lastTick)
    {
      hide Bit, Ghost, RowEvents;
      events, switches, tick := [], [], false;
      if !canRead {
        changed := false;
        tick := GenerateTickEvent(now);
        return;
      }
      changed := AnyRowChanged(m);
      if !changed {
        NothingChanged(config, m, config.rows);
        tick := GenerateTickEvent(now);
        return;
      }
      events, switches := ScanRows(m, processKeypress);
    }

    /** The row loop of `matrix_task`. */
    method ScanRows(m: seq<nat>, processKeypress: bool) returns (events: seq<KeyEvent>, switches: seq<KeyEvent>)
      requires Valid() && |m| == config.rows
      modifies matrixPrevious
      ensures switches == ScanEvents(config, old(matrixPrevious[..]), m, config.rows)
      ensures events == if processKeypress then switches else []
      ensures matrixPrevious[..] == Remembered(config, old(matrixPrevious[..]), m)
    {
      hide Bit, Ghost, RowEvents;
      events, switches := [], [];
      ghost var before := matrixPrevious[..];
      for row := 0 to config.rows
        invariant switches == ScanEvents(config, before, m, row)
        invariant events == if processKeypress then switches else []
        invariant forall r :: 0 <= r < row ==>
                  matrixPrevious[r] == if Skipped(config, before, m, r) then before[r] else m[r]
        invariant forall r :: row <= r < config.rows ==> matrixPrevious[r] == before[r]
      {
        var ghosted := HasGhostInRow(m, row);
        if matrixPrevious[row] == m[row] || ghosted { continue; }
        var es := SwitchRow(row, matrixPrevious[row], m[row]);
        switches := switches + es;
        if processKeypress { events := events + es; }
        matrixPrevious[row] := m[row];
      }
    }

    method AnyRowChanged(m: seq<nat>) returns (changed: bool)
      requires Valid() && |m| == config.rows
      ensures changed <==> matrixPrevious[..] != m
    {
      changed := false;
      var row := 0;
      while row < config.rows && !changed
        invariant row <= config.rows
        invariant changed ==> matrixPrevious[..] != m
        invariant !changed ==> matrixPrevious[..row] == m[..row]
      {
        if matrixPrevious[row] != m[row] { changed := true; }
        row := row + 1;
      }
    }

    /** The column loop of `matrix_task`. */
    method SwitchRow(row: nat, before: nat, now: nat) returns (es: seq<KeyEvent>)
      ensures es == RowEvents(before, now, row, config.cols)
    {
      hide Bit, Xor;
      es := [];
      var changes := Xor(now, before);
      for col := 0 to config.cols
        invariant es == RowEvents(before, now, row, col)
      {
        BitOfXor(now, before, col);
        if Bit(changes, col) { es := es + [KeyEvent(row, col, Bit(now, col))]; }
      }
    }
  }

  lemma {:induction false} NothingChanged(k: Config, m: seq<nat>, n: nat)
    requires n <= |m|
    ensures ScanEvents(k, m, m, n) == [] && Remembered(k, m, m) == m
  {
    if n > 0 { NothingChanged(k, m, n - 1); }
  }
}
