/** `quantum/via.c`: the validity marker, the layout options, and the reset of everything VIA stores,
    interrupted at any point and any number of times. */
module Via {
  import opened Arithmetic
  import opened Bytes
  import opened KeymapStorage

  // ---------------------------------------------------------------- the validity marker

  predicate IsDigit(c: char) {
    '0' <= c <= '9'
  }

  /** `QMK_BUILDDATE`, for example "2019-11-05-11:29:54". */
  predicate IsBuildDate(date: string) {
    && |date| >= 10
    && IsDigit(date[2]) && IsDigit(date[3]) && IsDigit(date[5])
    && IsDigit(date[6]) && IsDigit(date[8]) && IsDigit(date[9])
  }

  /** `((a & 0x0F) << 4) | (b & 0x0F)` */
  function Bcd(a: char, b: char): (v: byte)
    ensures IsDigit(a) && IsDigit(b) ==> v != 0xFF
  {
    (a as int % 16) * 16 + b as int % 16
  }

  /** The three magic bytes: year, month and day of the build. */
  function Magic(date: string): (m: seq<byte>)
    requires IsBuildDate(date)
    ensures |m| == 3 && forall i :: 0 <= i < 3 ==> m[i] != 0xFF
  {
    [Bcd(date[2], date[3]), Bcd(date[5], date[6]), Bcd(date[8], date[9])]
  }

  /** The three marker bytes. */
  function Marker(l: Layout, e: Memory): (m: seq<byte>)
    requires l.magicAddr + 3 <= |e|
    ensures |m| == 3
  {
    e[l.magicAddr..l.magicAddr + 3]
  }

  const CLEARED: seq<byte> := [0xFF, 0xFF, 0xFF]

  /** `via_eeprom_is_valid` */
  predicate IsValid(l: Layout, e: Memory, magic: seq<byte>)
    requires |magic| == 3 && l.magicAddr + 3 <= |e|
    ensures IsValid(l, e, magic) <==> Marker(l, e) == magic
  {
    e[l.magicAddr] == magic[0] && e[l.magicAddr + 1] == magic[1] && e[l.magicAddr + 2] == magic[2]
  }

  function SetValidWrites(l: Layout, magic: seq<byte>, valid: bool): (ws: seq<Write>)
    requires |magic| == 3
    ensures |ws| == 3
  {
    [Write(l.magicAddr, if valid then magic[0] else 0xFF),
     Write(l.magicAddr + 1, if valid then magic[1] else 0xFF),
     Write(l.magicAddr + 2, if valid then magic[2] else 0xFF)]
  }

  // ---------------------------------------------------------------- layout options

  /** The first `n` byte updates of `via_set_layout_options`, least significant byte first. */
  function OptionsWrites(l: Layout, value: nat, n: nat): (ws: seq<Write>)
    requires n <= l.optionsSize
    ensures |ws| == n
  {
    if n == 0 then []
    else OptionsWrites(l, value, n - 1) + [Write(l.OptionsAddr() + l.optionsSize - n, Shifted(value, n - 1) % 0x100)]
  }

  /** The 32-bit value `via_get_layout_options` has after `n` bytes. */
  function ReadOptions(l: Layout, e: Memory, n: nat): (v: nat)
    requires n <= l.optionsSize && l.End() <= |e|
    ensures v < 0x1_0000_0000
  {
    if n == 0 then 0
    else (ReadOptions(l, e, n - 1) * 0x100 + e[l.OptionsAddr() + n - 1] as int) % 0x1_0000_0000
  }

  lemma {:induction false} OptionsByte(l: Layout, e: Memory, value: nat, n: nat, j: nat)
    requires n <= l.optionsSize && l.End() <= |e| && j < n
    ensures UpdateAll(e, OptionsWrites(l, value, n))[l.OptionsAddr() + l.optionsSize - 1 - j] ==
            Shifted(value, j) % 0x100
  {
    var ws := OptionsWrites(l, value, n);
    assert ws[..|ws| - 1] == OptionsWrites(l, value, n - 1);
    if j < n - 1 { OptionsByte(l, e, value, n - 1, j); }
  }

  lemma SplitMod(x: nat, m: nat)
    requires m > 0
    ensures (x / 256 % m) * 256 + x % 256 == x % (256 * m)
  {
    var q := x / 256;
    var k, s := q / m, q % m;
    assert q == m * k + s;
    assert x == (256 * m) * k + (256 * s + x % 256);
    ModUnique(x, 256 * m, k, 256 * s + x % 256);
  }

  lemma {:induction false} ShiftedBound(value: nat, n: nat)
    ensures Shifted(value, n) <= value
  {
    if n > 0 { ShiftedBound(value, n - 1); }
  }

  lemma ModAtMost(x: nat, m: nat)
    requires m > 0
    ensures x % m <= x
  {
    if x < m { ModUnique(x, m, 0, x); }
  }

  /** One more byte of the value, read into 32 bits. */
  lemma ReadStep(x: nat, m: nat)
    requires m > 0 && x < 0x1_0000_0000
    ensures ((x / 0x100 % m) * 0x100 + x % 0x100) % 0x1_0000_0000 == x % (0x100 * m)
  {
    SplitMod(x, m);
    ModAtMost(x, 0x100 * m);
  }

  lemma ReadOptionsStep(l: Layout, e: Memory, n: nat, x: nat, m: nat)
    requires 0 < n <= l.optionsSize && l.End() <= |e| && m > 0 && x < 0x1_0000_0000
    requires ReadOptions(l, e, n - 1) == x / 0x100 % m && e[l.OptionsAddr() + n - 1] == x % 0x100
    ensures ReadOptions(l, e, n) == x % (0x100 * m)
  {
    ReadStep(x, m);
  }

  lemma {:induction false} ReadOptionsPrefix(l: Layout, e: Memory, value: nat, n: nat)
    requires n <= l.optionsSize && l.End() <= |e| && value < 0x1_0000_0000
    ensures ReadOptions(l, UpdateAll(e, OptionsWrites(l, value, l.optionsSize)), n) ==
            Shifted(value, l.optionsSize - n) % Pow256(n)
  {
    if n > 0 {
      var rest := l.optionsSize - n;
      var e' := UpdateAll(e, OptionsWrites(l, value, l.optionsSize));
      var x, m := Shifted(value, rest), Pow256(n - 1);
      ReadOptionsPrefix(l, e, value, n - 1);
      OptionsByte(l, e, value, l.optionsSize, rest);
      ShiftedBound(value, rest);
      assert ReadOptions(l, e', n - 1) == x / 0x100 % m by { assert Shifted(value, rest + 1) == x / 0x100; }
      assert e'[l.OptionsAddr() + n - 1] == x % 0x100;
      ReadOptionsStep(l, e', n, x, m);
    }
  }

  /** Layout options read back modulo 256^N, N being the configured number of bytes. */
  lemma OptionsRoundTrip(l: Layout, e: Memory, value: nat)
    requires l.End() <= |e| && value < 0x1_0000_0000
    ensures ReadOptions(l, UpdateAll(e, OptionsWrites(l, value, l.optionsSize)), l.optionsSize) ==
            value % Pow256(l.optionsSize)
  {
    ReadOptionsPrefix(l, e, value, l.optionsSize);
  }

  lemma {:induction false} OptionsWithin(l: Layout, value: nat, n: nat)
    requires n <= l.optionsSize
    ensures Within(OptionsWrites(l, value, n), l.OptionsAddr(), l.OptionsAddr() + l.optionsSize)
  {
    if n > 0 { OptionsWithin(l, value, n - 1); }
  }

  // ---------------------------------------------------------------- resetting everything

  /** `dynamic_keymap_macro_reset`, first `n` bytes */
  function MacroResetWrites(l: Layout, n: nat): (ws: seq<Write>) {
    if n == 0 then [] else MacroResetWrites(l, n - 1) + [Write(l.MacroAddr() + n - 1, 0)]
  }

  lemma {:induction false} MacroResetWithin(l: Layout, n: nat)
    ensures Within(MacroResetWrites(l, n), l.MacroAddr(), l.MacroAddr() + n)
  {
    if n > 0 { MacroResetWithin(l, n - 1); }
  }

  lemma {:induction false} MacroResetByte(l: Layout, e: Memory, n: nat, j: nat)
    requires n <= l.macroSize && l.End() <= |e| && j < n
    ensures UpdateAll(e, MacroResetWrites(l, n))[l.MacroAddr() + j] == 0
  {
    var ws := MacroResetWrites(l, n);
    assert ws[..|ws| - 1] == MacroResetWrites(l, n - 1);
    if j < n - 1 { MacroResetByte(l, e, n - 1, j); }
  }

  /** The defaults compiled into the firmware. */
  datatype Defaults = Defaults(magic: seq<byte>, options: nat, flash: Flash)

  predicate DefaultsOk(d: Defaults) {
    |d.magic| == 3 && (forall i :: 0 <= i < 3 ==> d.magic[i] != 0xFF) && d.options < 0x1_0000_0000
  }

  /** Between the two marker updates of `eeconfig_init_via`. */
  function ContentWrites(l: Layout, d: Defaults): (ws: seq<Write>) {
    OptionsWrites(l, d.options, l.optionsSize) + ResetWrites(l, d.flash) + MacroResetWrites(l, l.macroSize)
  }

  /** `eeconfig_init_via` */
  function InitWrites(l: Layout, d: Defaults): (ws: seq<Write>)
    requires |d.magic| == 3
  {
    SetValidWrites(l, d.magic, false) + ContentWrites(l, d) + SetValidWrites(l, d.magic, true)
  }

  /** Options, keymap, encoder map and macros all hold their defaults. */
  ghost predicate FullyReset(l: Layout, e: Memory, d: Defaults)
    requires l.End() <= |e|
  {
    && ReadOptions(l, e, l.optionsSize) == d.options % Pow256(l.optionsSize)
    && (forall p :: InMap(l, p) ==> Get(l, e, p) == d.flash(p))
    && (forall a :: l.MacroAddr() <= a < l.End() ==> e[a] == 0)
  }

  lemma WithinAppend(a: seq<Write>, b: seq<Write>, lo: nat, hi: nat)
    requires Within(a, lo, hi) && Within(b, lo, hi)
    ensures Within(a + b, lo, hi)
  {}

  lemma WithinWider(ws: seq<Write>, lo: nat, hi: nat, lo': nat, hi': nat)
    requires Within(ws, lo, hi) && lo' <= lo && hi <= hi'
    ensures Within(ws, lo', hi')
  {}

  /** The regions follow each other. */
  lemma RegionsOrdered(l: Layout)
    ensures l.magicAddr + 3 == l.OptionsAddr() && l.OptionsAddr() + l.optionsSize <= l.KeymapAddr()
    ensures l.KeymapAddr() <= l.EncoderAddr() <= l.MacroAddr() && l.MacroAddr() + l.macroSize == l.End()
  {}

  lemma ContentWithin(l: Layout, d: Defaults)
    ensures Within(ContentWrites(l, d), l.OptionsAddr(), l.End())
  {
    var o, k, m := OptionsWrites(l, d.options, l.optionsSize), ResetWrites(l, d.flash),
      MacroResetWrites(l, l.macroSize);
    RegionsOrdered(l);
    OptionsWithin(l, d.options, l.optionsSize);
    SetAllWithin(l, d.flash, LayerPositions(l, l.layers));
    MacroResetWithin(l, l.macroSize);
    hide OptionsWrites, ResetWrites, MacroResetWrites, Within;
    hide Layout.OptionsAddr, Layout.KeymapAddr, Layout.EncoderAddr, Layout.MacroAddr, Layout.End;
    WithinWider(o, l.OptionsAddr(), l.OptionsAddr() + l.optionsSize, l.OptionsAddr(), l.End());
    WithinWider(k, l.KeymapAddr(), l.MacroAddr(), l.OptionsAddr(), l.End());
    WithinWider(m, l.MacroAddr(), l.MacroAddr() + l.macroSize, l.OptionsAddr(), l.End());
    WithinAppend(o, k, l.OptionsAddr(), l.End());
    WithinAppend(o + k, m, l.OptionsAddr(), l.End());
  }

  lemma {:induction false} OptionsDependOnRegion(l: Layout, e: Memory, e': Memory, n: nat)
    requires n <= l.optionsSize && l.End() <= |e| && |e'| == |e|
    requires forall a :: l.OptionsAddr() <= a < l.OptionsAddr() + l.optionsSize ==> e'[a] == e[a]
    ensures ReadOptions(l, e', n) == ReadOptions(l, e, n)
  {
    if n > 0 { OptionsDependOnRegion(l, e, e', n - 1); }
  }

  lemma MapsDependOnRegion(l: Layout, e: Memory, e': Memory, p: Position)
    requires l.End() <= |e| && |e'| == |e|
    requires forall a :: l.KeymapAddr() <= a < l.MacroAddr() ==> e'[a] == e[a]
    ensures Get(l, e', p) == Get(l, e, p)
  {
    if InMap(l, p) { AddressInRegion(l, p); }
  }

  /** The content updates alone reset everything, whatever was there. */
  lemma ContentResets(l: Layout, e: Memory, d: Defaults)
    requires l.End() <= |e| && DefaultsOk(d)
    ensures FullyReset(l, UpdateAll(e, ContentWrites(l, d)), d)
  {
    var o, k, m := OptionsWrites(l, d.options, l.optionsSize), ResetWrites(l, d.flash),
      MacroResetWrites(l, l.macroSize);
    var e1 := UpdateAll(e, o);
    var e2 := UpdateAll(e1, k);
    var e3 := UpdateAll(e2, m);
    assert UpdateAll(e, ContentWrites(l, d)) == e3 by {
      UpdateAllAppend(e, o, k);
      UpdateAllAppend(e, o + k, m);
    }
    hide OptionsWrites, ResetWrites, MacroResetWrites, ContentWrites, UpdateAll, Layout.KeymapSize, Layout.EncoderSize;
    forall a | l.MacroAddr() <= a < l.End() ensures e3[a] == 0 {
      MacroResetByte(l, e2, l.macroSize, a - l.MacroAddr());
    }
    assert forall a :: 0 <= a < l.MacroAddr() ==> e3[a] == e2[a] by { MacroResetFrame(l, e2); }
    forall p | InMap(l, p) ensures Get(l, e3, p) == d.flash(p) {
      ResetRestoresFlash(l, e1, d.flash, p);
      MapsDependOnRegion(l, e2, e3, p);
    }
    assert forall a :: 0 <= a < l.KeymapAddr() ==> e2[a] == e1[a] by { ResetFrame(l, e1, d); }
    OptionsRoundTrip(l, e, d.options);
    OptionsDependOnRegion(l, e1, e3, l.optionsSize);
  }

  lemma MacroResetFrame(l: Layout, e: Memory)
    requires l.End() <= |e|
    ensures forall a :: 0 <= a < l.MacroAddr() ==> UpdateAll(e, MacroResetWrites(l, l.macroSize))[a] == e[a]
  {
    MacroResetWithin(l, l.macroSize);
    forall a | 0 <= a < l.MacroAddr() ensures UpdateAll(e, MacroResetWrites(l, l.macroSize))[a] == e[a] {
      UpdateAllFrame(e, MacroResetWrites(l, l.macroSize), l.MacroAddr(), l.End(), a);
    }
  }

  lemma ResetFrame(l: Layout, e: Memory, d: Defaults)
    requires l.End() <= |e|
    ensures forall a :: 0 <= a < l.KeymapAddr() ==> UpdateAll(e, ResetWrites(l, d.flash))[a] == e[a]
  {
    SetAllWithin(l, d.flash, LayerPositions(l, l.layers));
    forall a | 0 <= a < l.KeymapAddr() ensures UpdateAll(e, ResetWrites(l, d.flash))[a] == e[a] {
      UpdateAllFrame(e, ResetWrites(l, d.flash), l.KeymapAddr(), l.MacroAddr(), a);
    }
  }

  /** A full reset survives updates outside the content regions. */
  lemma ResetDependsOnContent(l: Layout, e: Memory, e': Memory, d: Defaults)
    requires l.End() <= |e| && |e'| == |e| && FullyReset(l, e, d)
    requires forall a :: l.OptionsAddr() <= a < l.End() ==> e'[a] == e[a]
    ensures FullyReset(l, e', d)
  {
    OptionsDependOnRegion(l, e, e', l.optionsSize);
    forall p | InMap(l, p) ensures Get(l, e', p) == d.flash(p) {
      MapsDependOnRegion(l, e, e', p);
    }
  }

  lemma UpdateSnoc(e: Memory, ws: seq<Write>, w: Write)
    ensures UpdateAll(e, ws + [w]) == Update(UpdateAll(e, ws), w)
  {
    assert (ws + [w])[..|ws|] == ws;
  }

  lemma MarkerUpdate(l: Layout, e: Memory, i: nat, v: byte)
    requires l.magicAddr + 3 <= |e| && i < 3
    ensures Marker(l, Update(e, Write(l.magicAddr + i, v))) == Marker(l, e)[i := v]
  {}

  /** The first `n` updates of the marker. */
  lemma {:induction false} MarkerPrefix(l: Layout, e: Memory, magic: seq<byte>, valid: bool, n: nat)
    requires l.magicAddr + 3 <= |e| && |magic| == 3 && n <= 3
    ensures var e' := UpdateAll(e, SetValidWrites(l, magic, valid)[..n]);
            && Marker(l, e') == (if valid then magic else CLEARED)[..n] + Marker(l, e)[n..]
            && (forall a :: 0 <= a < |e| && !(l.magicAddr <= a < l.magicAddr + 3) ==> e'[a] == e[a])
  {
    hide UpdateAll;
    var ws := SetValidWrites(l, magic, valid);
    if n == 0 {
      NoUpdates(e);
      assert ws[..0] == [] && magic[..0] == CLEARED[..0] == [];
      assert [] + Marker(l, e)[0..] == Marker(l, e);
    } else {
      MarkerPrefix(l, e, magic, valid, n - 1);
      assert ws[..n] == ws[..n - 1] + [ws[n - 1]];
      UpdateSnoc(e, ws[..n - 1], ws[n - 1]);
      var target := if valid then magic else CLEARED;
      assert ws[n - 1] == Write(l.magicAddr + (n - 1), target[n - 1]);
      MarkerUpdate(l, UpdateAll(e, ws[..n - 1]), n - 1, target[n - 1]);
      hide Marker, SetValidWrites;
      assert (target[..n - 1] + Marker(l, e)[n - 1..])[n - 1 := target[n - 1]] == target[..n] + Marker(l, e)[n..];
    }
  }

  lemma NoUpdates(e: Memory)
    ensures UpdateAll(e, []) == e
  {}

  lemma MarkerFrame(l: Layout, e: Memory, ws: seq<Write>)
    requires l.End() <= |e| && Within(ws, l.OptionsAddr(), l.End())
    ensures Marker(l, UpdateAll(e, ws)) == Marker(l, e)
  {
    hide Layout.KeymapSize, Layout.EncoderSize;
    forall a | l.magicAddr <= a < l.magicAddr + 3 ensures UpdateAll(e, ws)[a] == e[a] {
      UpdateAllFrame(e, ws, l.OptionsAddr(), l.End(), a);
    }
  }

  lemma ContentKeepsMarker(l: Layout, e: Memory, d: Defaults, n: nat)
    requires l.End() <= |e| && n <= |ContentWrites(l, d)|
    ensures Marker(l, UpdateAll(e, ContentWrites(l, d)[..n])) == Marker(l, e)
  {
    hide ContentWrites, Layout.OptionsAddr, Layout.End, Marker, UpdateAll;
    ContentWithin(l, d);
    MarkerFrame(l, e, ContentWrites(l, d)[..n]);
  }

  /** Stopped while or after the marker is cleared. */
  lemma InterruptedClearing(l: Layout, e: Memory, d: Defaults, n: nat)
    requires l.magicAddr + 3 <= |e| && DefaultsOk(d) && 0 < n <= 3
    ensures !IsValid(l, UpdateAll(e, SetValidWrites(l, d.magic, false)[..n]), d.magic)
  {
    MarkerPrefix(l, e, d.magic, false, n);
    hide UpdateAll, SetValidWrites;
    assert Marker(l, UpdateAll(e, SetValidWrites(l, d.magic, false)[..n]))[0] == 0xFF;
  }

  /** Stopped while the marker is written back, or after. */
  lemma InterruptedMarking(l: Layout, e: Memory, d: Defaults, n: nat)
    requires l.End() <= |e| && DefaultsOk(d) && n <= 3
    requires Marker(l, e) == CLEARED && FullyReset(l, e, d)
    ensures var e' := UpdateAll(e, SetValidWrites(l, d.magic, true)[..n]);
            FullyReset(l, e', d) && (IsValid(l, e', d.magic) <==> n == 3)
  {
    hide UpdateAll, SetValidWrites, FullyReset, Layout.KeymapSize, Layout.EncoderSize;
    var e' := UpdateAll(e, SetValidWrites(l, d.magic, true)[..n]);
    MarkerPrefix(l, e, d.magic, true, n);
    if n < 3 { assert Marker(l, e')[2] == 0xFF; }
    ResetDependsOnContent(l, e, e', d);
  }

  lemma PrefixOfThree(a: seq<Write>, b: seq<Write>, c: seq<Write>, n: nat)
    requires n <= |a + b + c|
    ensures (a + b + c)[..n] ==
            if n <= |a| then a[..n]
            else if n <= |a| + |b| then a + b[..n - |a|]
            else a + b + c[..n - |a| - |b|]
  {}

  /** Stopped within the content updates. */
  lemma InterruptedContent(l: Layout, e: Memory, d: Defaults, n: nat)
    requires l.End() <= |e| && DefaultsOk(d) && n <= |ContentWrites(l, d)|
    requires Marker(l, e) == CLEARED
    ensures !IsValid(l, UpdateAll(e, ContentWrites(l, d)[..n]), d.magic)
  {
    hide ContentWrites, UpdateAll, Layout.KeymapSize, Layout.EncoderSize;
    ContentKeepsMarker(l, e, d, n);
    assert CLEARED[0] == 0xFF != d.magic[0];
  }

  lemma ClearedMarker(l: Layout, e: Memory, d: Defaults)
    requires l.magicAddr + 3 <= |e| && DefaultsOk(d)
    ensures Marker(l, UpdateAll(e, SetValidWrites(l, d.magic, false))) == CLEARED
  {
    assert SetValidWrites(l, d.magic, false)[..3] == SetValidWrites(l, d.magic, false);
    MarkerPrefix(l, e, d.magic, false, 3);
  }

  /** The prefixes of `eeconfig_init_via`, by phase. */
  lemma InitPrefix(l: Layout, e: Memory, d: Defaults, n: nat)
    requires DefaultsOk(d) && n <= |InitWrites(l, d)|
    ensures var off, content, on := SetValidWrites(l, d.magic, false), ContentWrites(l, d),
            SetValidWrites(l, d.magic, true);
            var c := |content|;
            var e1 := UpdateAll(e, off);
            UpdateAll(e, InitWrites(l, d)[..n]) ==
            if n <= 3 then UpdateAll(e, off[..n])
            else if n <= 3 + c then UpdateAll(e1, content[..n - 3])
            else UpdateAll(UpdateAll(e1, content), on[..n - 3 - c])
  {
    hide ContentWrites, SetValidWrites, UpdateAll;
    var off, content, on := SetValidWrites(l, d.magic, false), ContentWrites(l, d), SetValidWrites(l, d.magic, true);
    var c := |content|;
    PrefixOfThree(off, content, on, n);
    if 3 < n <= 3 + c {
      UpdateAllAppend(e, off, content[..n - 3]);
    } else if n > 3 + c {
      UpdateAllAppend(e, off, content);
      UpdateAllAppend(e, off + content, on[..n - 3 - c]);
    }
  }

  /** Stopped after `n` byte updates, `eeconfig_init_via` leaves memory unwritten for n = 0, marked invalid
      for every n in between, and valid and fully reset when it is complete. */
  lemma InterruptedInit(l: Layout, e: Memory, d: Defaults, n: nat)
    requires l.End() <= |e| && DefaultsOk(d) && n <= |InitWrites(l, d)|
    ensures var e' := UpdateAll(e, InitWrites(l, d)[..n]);
            && (n == 0 ==> e' == e)
            && (0 < n < |InitWrites(l, d)| ==> !IsValid(l, e', d.magic))
            && (n == |InitWrites(l, d)| ==> IsValid(l, e', d.magic) && FullyReset(l, e', d))
  {
    hide ContentWrites, SetValidWrites, FullyReset, IsValid, Marker, UpdateAll, Layout.KeymapSize, Layout.EncoderSize;
    var c := |ContentWrites(l, d)|;
    var e1 := UpdateAll(e, SetValidWrites(l, d.magic, false));
    InitPrefix(l, e, d, n);
    ClearedMarker(l, e, d);
    if n == 0 {
      assert SetValidWrites(l, d.magic, false)[..0] == [];
      NoUpdates(e);
    } else if n <= 3 {
      InterruptedClearing(l, e, d, n);
    } else if n <= 3 + c {
      InterruptedContent(l, e1, d, n - 3);
    } else {
      ContentKeepsMarker(l, e1, d, c);
      assert ContentWrites(l, d)[..c] == ContentWrites(l, d);
      ContentResets(l, e1, d);
      InterruptedMarking(l, UpdateAll(e1, ContentWrites(l, d)), d, n - 3 - c);
    }
  }

  /** One power cycle: a boot, which resets memory that is not marked valid, or an explicit reset; power
      is lost after `n` byte updates, or never. */
  datatype PowerCycle = Boot(n: nat) | Reset(n: nat)

  function AfterCycle(l: Layout, d: Defaults, e: Memory, c: PowerCycle): (e': Memory)
    requires |d.magic| == 3 && l.End() <= |e|
    ensures |e'| == |e|
  {
    var ws := InitWrites(l, d);
    var stopped := if c.n < |ws| then ws[..c.n] else ws;
    if c.Boot? && IsValid(l, e, d.magic) then e else UpdateAll(e, stopped)
  }

  function AfterCycles(l: Layout, d: Defaults, e: Memory, cs: seq<PowerCycle>): (e': Memory)
    requires |d.magic| == 3 && l.End() <= |e|
    ensures |e'| == |e|
  {
    if cs == [] then e else AfterCycle(l, d, AfterCycles(l, d, e, cs[..|cs| - 1]), cs[|cs| - 1])
  }

  /** Crash consistency: after any sequence of boots and resets, each cut short anywhere, memory is as it
      was, or marked invalid, or fully reset. */
  lemma {:induction false} CrashConsistency(l: Layout, d: Defaults, e: Memory, cs: seq<PowerCycle>)
    requires l.End() <= |e| && DefaultsOk(d)
    ensures var e' := AfterCycles(l, d, e, cs);
            e' == e || !IsValid(l, e', d.magic) || FullyReset(l, e', d)
  {
    if cs != [] {
      var c := cs[|cs| - 1];
      CrashConsistency(l, d, e, cs[..|cs| - 1]);
      var e1 := AfterCycles(l, d, e, cs[..|cs| - 1]);
      var n := if c.n < |InitWrites(l, d)| then c.n else |InitWrites(l, d)|;
      assert InitWrites(l, d)[..|InitWrites(l, d)|] == InitWrites(l, d);
      InterruptedInit(l, e1, d, n);
    }
  }

  /** A boot that is not cut short ends with valid memory: untouched if it was valid, else fully reset. */
  lemma CompleteBoot(l: Layout, d: Defaults, e: Memory, n: nat)
    requires l.End() <= |e| && DefaultsOk(d) && n >= |InitWrites(l, d)|
    ensures var e' := AfterCycle(l, d, e, Boot(n));
            IsValid(l, e', d.magic) && (if IsValid(l, e, d.magic) then e' == e else FullyReset(l, e', d))
  {
    assert InitWrites(l, d)[..|InitWrites(l, d)|] == InitWrites(l, d);
    InterruptedInit(l, e, d, |InitWrites(l, d)|);
  }

  /** A reset that is not cut short ends with valid and fully reset memory, whatever was there. */
  lemma CompleteReset(l: Layout, d: Defaults, e: Memory, n: nat)
    requires l.End() <= |e| && DefaultsOk(d) && n >= |InitWrites(l, d)|
    ensures var e' := AfterCycle(l, d, e, Reset(n)); IsValid(l, e', d.magic) && FullyReset(l, e', d)
  {
    assert InitWrites(l, d)[..|InitWrites(l, d)|] == InitWrites(l, d);
    InterruptedInit(l, e, d, |InitWrites(l, d)|);
  }

  /** Bytes outside the marker, the options, the maps and the macros. */
  predicate NotOurs(l: Layout, a: nat) {
    a < l.magicAddr || l.OptionsAddr() + l.optionsSize <= a < l.OptionsAddr() + l.optionsSize + l.customSize ||
      l.End() <= a
  }

  lemma InitSpares(l: Layout, d: Defaults, n: nat, a: nat)
    requires DefaultsOk(d) && n <= |InitWrites(l, d)| && NotOurs(l, a)
    ensures forall i :: 0 <= i < n ==> InitWrites(l, d)[i].addr != a
  {
    RegionsOrdered(l);
    OptionsWithin(l, d.options, l.optionsSize);
    SetAllWithin(l, d.flash, LayerPositions(l, l.layers));
    MacroResetWithin(l, l.macroSize);
    CustomBeforeMaps(l);
    hide OptionsWrites, ResetWrites, MacroResetWrites, Layout.KeymapAddr, Layout.EncoderAddr, Layout.MacroAddr,
      Layout.End;
  }

  lemma CustomBeforeMaps(l: Layout)
    ensures l.OptionsAddr() + l.optionsSize + l.customSize <= l.KeymapAddr()
  {}

  lemma {:induction false} UpdateAllSpares(e: Memory, ws: seq<Write>, a: nat)
    requires a < |e| && forall i :: 0 <= i < |ws| ==> ws[i].addr != a
    ensures UpdateAll(e, ws)[a] == e[a]
  {
    if ws != [] { UpdateAllSpares(e, ws[..|ws| - 1], a); }
  }

  /** Over any sequence of boots and resets, each cut short anywhere, the custom configuration and everything else
      outside the regions keeps its bytes. */
  lemma {:induction false} OthersKept(l: Layout, d: Defaults, e: Memory, cs: seq<PowerCycle>, a: nat)
    requires l.End() <= |e| && DefaultsOk(d) && a < |e| && NotOurs(l, a)
    ensures AfterCycles(l, d, e, cs)[a] == e[a]
  {
    hide InitWrites, IsValid, UpdateAll, NotOurs, Layout.End;
    if cs != [] {
      var c := cs[|cs| - 1];
      OthersKept(l, d, e, cs[..|cs| - 1], a);
      var ws := InitWrites(l, d);
      var n := if c.n < |ws| then c.n else |ws|;
      InitSpares(l, d, n, a);
      assert ws[..|ws|] == ws;
      UpdateAllSpares(AfterCycles(l, d, e, cs[..|cs| - 1]), ws[..n], a);
    }
  }

  // ---------------------------------------------------------------- one build after another

  function Digit(c: char): (v: nat)
    requires IsDigit(c)
    ensures v < 10
  {
    c as int - '0' as int
  }

  /** A byte of the magic decodes to its two digits. */
  lemma BcdDigits(a: char, b: char)
    requires IsDigit(a) && IsDigit(b)
    ensures Bcd(a, b) / 16 == Digit(a) && Bcd(a, b) % 16 == Digit(b)
  {}

  /** The last two digits of the year, the month and the day of a build. */
  function Date(date: string): (ds: seq<nat>)
    requires IsBuildDate(date)
    ensures |ds| == 6
  {
    [Digit(date[2]), Digit(date[3]), Digit(date[5]), Digit(date[6]), Digit(date[8]), Digit(date[9])]
  }

  /** The magic decodes to the date of the build, digit by digit. */
  lemma MagicDigits(date: string, i: nat)
    requires IsBuildDate(date) && i < 3
    ensures Magic(date)[i] / 16 == Date(date)[2 * i] && Magic(date)[i] % 16 == Date(date)[2 * i + 1]
  {
    BcdDigits(date[2], date[3]);
    BcdDigits(date[5], date[6]);
    BcdDigits(date[8], date[9]);
  }

  /** Two builds have the same magic if and only if they were made on the same date. */
  lemma MagicIff(date: string, date': string)
    requires IsBuildDate(date) && IsBuildDate(date')
    ensures Magic(date) == Magic(date') <==> Date(date) == Date(date')
  {
    hide Magic, Date;
    forall i: nat | i < 3
      ensures Magic(date)[i] == 16 * Date(date)[2 * i] + Date(date)[2 * i + 1]
      ensures Magic(date')[i] == 16 * Date(date')[2 * i] + Date(date')[2 * i + 1]
    {
      MagicDigits(date, i);
      MagicDigits(date', i);
    }
    if Magic(date) == Magic(date') {
      forall k | 0 <= k < 6 ensures Date(date)[k] == Date(date')[k] {
        MagicDigits(date, k / 2);
        MagicDigits(date', k / 2);
      }
    }
  }

  /** Memory that one build reports as valid another build does too if and only if both are of the same date. */
  lemma ValidForOtherIff(l: Layout, e: Memory, date: string, date': string)
    requires l.magicAddr + 3 <= |e| && IsBuildDate(date) && IsBuildDate(date') && IsValid(l, e, Magic(date))
    ensures IsValid(l, e, Magic(date')) <==> Date(date) == Date(date')
  {
    MagicIff(date, date');
  }

  /** After a complete boot of one build, a complete boot of a build of another date resets everything to the
      defaults of the new one, and one of the same date changes nothing. */
  lemma NewBuildResets(l: Layout, e: Memory, date: string, date': string, d: Defaults, d': Defaults, n: nat)
    requires l.End() <= |e| && IsBuildDate(date) && IsBuildDate(date')
    requires DefaultsOk(d) && d.magic == Magic(date) && DefaultsOk(d') && d'.magic == Magic(date')
    requires n >= |InitWrites(l, d)| && n >= |InitWrites(l, d')|
    ensures var was := AfterCycle(l, d, e, Boot(n));
            var e' := AfterCycle(l, d', was, Boot(n));
            IsValid(l, e', d'.magic) && (if Date(date) == Date(date') then e' == was else FullyReset(l, e', d'))
  {
    hide AfterCycle, IsValid, FullyReset, InitWrites, Magic, Date, Layout.KeymapSize, Layout.EncoderSize;
    CompleteBoot(l, d, e, n);
    var was := AfterCycle(l, d, e, Boot(n));
    CompleteBoot(l, d', was, n);
    ValidForOtherIff(l, was, date, date');
  }
}
