/** Where `quantum/via.c` and `quantum/dynamic_keymap.c` keep their data in EEPROM, and what their
    operations write there, for all region sizes. */
module KeymapStorage {
  import opened Bytes

  function Product(a: nat, b: nat): nat {
    a * b
  }

  /** Region sizes. The regions follow each other: three magic bytes, the layout options, custom
      configuration, the keymap, the encoder map (no encoders when it is disabled), the macros. */
  datatype Layout = Layout(magicAddr: nat, optionsSize: nat, customSize: nat,
                           layers: nat, rows: nat, cols: nat, encoders: nat, macroSize: nat)
  {
    function OptionsAddr(): nat { magicAddr + 3 }
    function KeymapAddr(): nat { OptionsAddr() + optionsSize + customSize }
    function KeymapSize(): nat { Product(Product(layers, rows), cols) * 2 }
    function EncoderAddr(): nat { KeymapAddr() + KeymapSize() }
    function EncoderSize(): nat { Product(layers, encoders) * 4 }
    function MacroAddr(): nat { EncoderAddr() + EncoderSize() }
    function End(): nat { MacroAddr() + macroSize }
  }

  datatype Write = Write(addr: nat, value: byte)

  type Memory = seq<byte>

  function Update(e: Memory, w: Write): (e': Memory)
    ensures |e'| == |e|
  {
    if w.addr < |e| then e[w.addr := w.value] else e
  }

  function UpdateAll(e: Memory, ws: seq<Write>): (e': Memory)
    ensures |e'| == |e|
  {
    if ws == [] then e else Update(UpdateAll(e, ws[..|ws| - 1]), ws[|ws| - 1])
  }

  lemma {:induction false} UpdateAllAppend(e: Memory, a: seq<Write>, b: seq<Write>)
    ensures UpdateAll(e, a + b) == UpdateAll(UpdateAll(e, a), b)
    decreases |b|
  {
    if b == [] {
      assert a + b == a;
    } else {
      assert (a + b)[..|a + b| - 1] == a + b[..|b| - 1];
      UpdateAllAppend(e, a, b[..|b| - 1]);
    }
  }

  predicate Within(ws: seq<Write>, lo: nat, hi: nat) {
    forall i :: 0 <= i < |ws| ==> lo <= ws[i].addr < hi
  }

  lemma {:induction false} UpdateAllFrame(e: Memory, ws: seq<Write>, lo: nat, hi: nat, a: nat)
    requires Within(ws, lo, hi) && a < |e| && !(lo <= a < hi)
    ensures UpdateAll(e, ws)[a] == e[a]
  {
    if ws != [] { UpdateAllFrame(e, ws[..|ws| - 1], lo, hi, a); }
  }

  // ---------------------------------------------------------------- keymap and encoder positions

  /** A key of a layer, or one direction of an encoder of a layer. */
  datatype Position =
    | KeyAt(layer: nat, row: nat, column: nat)
    | EncoderAt(layer: nat, encoder: nat, clockwise: bool)

  predicate InMap(l: Layout, p: Position) {
    match p
    case KeyAt(layer, row, column) => layer < l.layers && row < l.rows && column < l.cols
    case EncoderAt(layer, encoder, clockwise) => layer < l.layers && encoder < l.encoders
  }

  /** `dynamic_keymap_key_to_eeprom_address` and its encoder counterpart with the direction added. */
  function Address(l: Layout, p: Position): nat {
    match p
    case KeyAt(layer, row, column) =>
      l.KeymapAddr() + Product(Product(layer, l.rows), l.cols) * 2 + Product(row, l.cols) * 2 + column * 2
    case EncoderAt(layer, encoder, clockwise) =>
      l.EncoderAddr() + Product(layer, l.encoders) * 4 + encoder * 4 + (if clockwise then 0 else 2)
  }

  /** A word in big-endian order. */
  function WordWrites(a: nat, v: word): (ws: seq<Write>) {
    [Write(a, v / 0x100), Write(a + 1, v % 0x100)]
  }

  /** `dynamic_keymap_set_keycode` and `dynamic_keymap_set_encoder`, as the bytes they update. */
  function SetWrites(l: Layout, p: Position, keycode: word): (ws: seq<Write>) {
    if !InMap(l, p) then [] else WordWrites(Address(l, p), keycode)
  }

  function Word(e: Memory, a: nat): (v: word)
    requires a + 1 < |e|
  {
    (e[a] as int) * 0x100 + e[a + 1] as int
  }

  /** `dynamic_keymap_get_keycode` and `dynamic_keymap_get_encoder`; KC_NO is 0. */
  function Get(l: Layout, e: Memory, p: Position): (v: word)
    requires l.End() <= |e|
  {
    if !InMap(l, p) then 0
    else
      AddressInRegion(l, p);
      Word(e, Address(l, p))
  }

  lemma RowMajor(a: nat, n: nat, b: nat, m: nat)
    requires a < n && b < m
    ensures a * m + b < n * m
  {
    assert a * m + b < a * m + m == (a + 1) * m <= n * m;
  }

  lemma RowMajorApart(a: nat, b: nat, a': nat, b': nat, m: nat)
    requires b < m && b' < m && (a != a' || b != b')
    ensures a * m + b != a' * m + b'
  {
    if a < a' { assert a * m + m == (a + 1) * m <= a' * m; }
    if a' < a { assert a' * m + m == (a' + 1) * m <= a * m; }
  }

  /** The number of a key in layer, row, column order. */
  function KeyNumber(l: Layout, p: Position): nat
    requires p.KeyAt?
  {
    Product(Product(p.layer, l.rows) + p.row, l.cols) + p.column
  }

  function EncoderNumber(l: Layout, p: Position): nat
    requires p.EncoderAt?
  {
    (Product(p.layer, l.encoders) + p.encoder) * 2 + (if p.clockwise then 0 else 1)
  }

  lemma AddressByNumber(l: Layout, p: Position)
    requires InMap(l, p)
    ensures p.KeyAt? ==> Address(l, p) == l.KeymapAddr() + 2 * KeyNumber(l, p)
    ensures p.KeyAt? ==> 2 * KeyNumber(l, p) + 2 <= l.KeymapSize()
    ensures p.EncoderAt? ==> Address(l, p) == l.EncoderAddr() + 2 * EncoderNumber(l, p)
    ensures p.EncoderAt? ==> 2 * EncoderNumber(l, p) + 2 <= l.EncoderSize()
  {
    match p {
      case KeyAt(layer, row, column) =>
        RowMajor(layer, l.layers, row, l.rows);
        RowMajor(layer * l.rows + row, l.layers * l.rows, column, l.cols);
        assert (layer * l.rows + row) * l.cols == layer * l.rows * l.cols + row * l.cols;
      case EncoderAt(layer, encoder, clockwise) =>
        RowMajor(layer, l.layers, encoder, l.encoders);
    }
  }

  lemma AddressInRegion(l: Layout, p: Position)
    requires InMap(l, p)
    ensures l.KeymapAddr() <= Address(l, p) && Address(l, p) + 2 <= l.MacroAddr()
    ensures p.KeyAt? ==> Address(l, p) + 2 <= l.EncoderAddr()
    ensures p.EncoderAt? ==> l.EncoderAddr() <= Address(l, p)
  {
    AddressByNumber(l, p);
  }

  /** Distinct positions never alias. */
  lemma NoAlias(l: Layout, p: Position, q: Position)
    requires InMap(l, p) && InMap(l, q) && p != q
    ensures Address(l, p) + 2 <= Address(l, q) || Address(l, q) + 2 <= Address(l, p)
  {
    AddressByNumber(l, p);
    AddressByNumber(l, q);
    AddressInRegion(l, p);
    AddressInRegion(l, q);
    if p.KeyAt? && q.KeyAt? {
      if p.layer != q.layer || p.row != q.row { RowMajorApart(p.layer, p.row, q.layer, q.row, l.rows); }
      RowMajorApart(p.layer * l.rows + p.row, p.column, q.layer * l.rows + q.row, q.column, l.cols);
    } else if p.EncoderAt? && q.EncoderAt? {
      if p.layer != q.layer || p.encoder != q.encoder {
        RowMajorApart(p.layer, p.encoder, q.layer, q.encoder, l.encoders);
      }
    }
  }

  /** Two bytes written big-endian read back as the word, and change no word elsewhere. */
  lemma WordWritten(e: Memory, a: nat, v: word, b: nat)
    requires a + 1 < |e| && b + 1 < |e|
    ensures var e' := UpdateAll(e, WordWrites(a, v));
            (a == b ==> Word(e', b) == v) && (a + 2 <= b || b + 2 <= a ==> Word(e', b) == Word(e, b))
  {
    var w0, w1 := Write(a, v / 0x100), Write(a + 1, v % 0x100);
    assert [w0, w1][..1] == [w0] && [w0][..0] == [];
    assert UpdateAll(e, [w0]) == e[a := w0.value];
    assert UpdateAll(e, [w0, w1]) == e[a := w0.value][a + 1 := w1.value];
  }

  /** Setting one position is seen there and nowhere else. */
  lemma GetSet(l: Layout, e: Memory, p: Position, keycode: word, q: Position)
    requires l.End() <= |e|
    ensures Get(l, UpdateAll(e, SetWrites(l, p, keycode)), q) ==
            if p == q && InMap(l, p) then keycode else Get(l, e, q)
  {
    if InMap(l, p) && InMap(l, q) {
      AddressInRegion(l, p);
      AddressInRegion(l, q);
      if p != q { NoAlias(l, p, q); }
      hide Address, InMap;
      WordWritten(e, Address(l, p), keycode, Address(l, q));
    }
  }

  /** A request out of range reads 0 and writes nothing. */
  lemma OutOfRange(l: Layout, e: Memory, p: Position, keycode: word)
    requires l.End() <= |e| && !InMap(l, p)
    ensures Get(l, e, p) == 0 && UpdateAll(e, SetWrites(l, p, keycode)) == e
  {}

  // ---------------------------------------------------------------- resetting the maps

  function RowPositions(layer: nat, row: nat, n: nat): (ps: seq<Position>) {
    if n == 0 then [] else RowPositions(layer, row, n - 1) + [KeyAt(layer, row, n - 1)]
  }

  function MatrixPositions(l: Layout, layer: nat, n: nat): (ps: seq<Position>) {
    if n == 0 then [] else MatrixPositions(l, layer, n - 1) + RowPositions(layer, n - 1, l.cols)
  }

  function EncoderPositions(layer: nat, n: nat): (ps: seq<Position>) {
    if n == 0 then []
    else EncoderPositions(layer, n - 1) + [EncoderAt(layer, n - 1, true), EncoderAt(layer, n - 1, false)]
  }

  /** The positions in the order `dynamic_keymap_reset` visits the first `n` layers. */
  function LayerPositions(l: Layout, n: nat): (ps: seq<Position>) {
    if n == 0 then []
    else LayerPositions(l, n - 1) + MatrixPositions(l, n - 1, l.rows) + EncoderPositions(n - 1, l.encoders)
  }

  /** The keymap and encoder map compiled into the firmware. */
  type Flash = Position -> word

  function SetAllWrites(l: Layout, flash: Flash, ps: seq<Position>): (ws: seq<Write>) {
    if ps == [] then []
    else SetAllWrites(l, flash, ps[..|ps| - 1]) + SetWrites(l, ps[|ps| - 1], flash(ps[|ps| - 1]))
  }

  /** `dynamic_keymap_reset` */
  function ResetWrites(l: Layout, flash: Flash): (ws: seq<Write>) {
    SetAllWrites(l, flash, LayerPositions(l, l.layers))
  }

  lemma {:induction false} SetAllAppend(l: Layout, flash: Flash, a: seq<Position>, b: seq<Position>)
    ensures SetAllWrites(l, flash, a + b) == SetAllWrites(l, flash, a) + SetAllWrites(l, flash, b)
    decreases |b|
  {
    if b == [] {
      assert a + b == a;
    } else {
      assert (a + b)[..|a + b| - 1] == a + b[..|b| - 1];
      SetAllAppend(l, flash, a, b[..|b| - 1]);
    }
  }

  lemma {:induction false} SetAllWithin(l: Layout, flash: Flash, ps: seq<Position>)
    ensures Within(SetAllWrites(l, flash, ps), l.KeymapAddr(), l.MacroAddr())
  {
    if ps != [] {
      SetAllWithin(l, flash, ps[..|ps| - 1]);
      if InMap(l, ps[|ps| - 1]) { AddressInRegion(l, ps[|ps| - 1]); }
    }
  }

  lemma {:induction false} GetSetAll(l: Layout, e: Memory, flash: Flash, ps: seq<Position>, q: Position)
    requires l.End() <= |e|
    ensures Get(l, UpdateAll(e, SetAllWrites(l, flash, ps)), q) ==
            if q in ps && InMap(l, q) then flash(q) else Get(l, e, q)
  {
    if ps != [] {
      var before, p := ps[..|ps| - 1], ps[|ps| - 1];
      var ws := SetAllWrites(l, flash, before);
      GetSetAll(l, e, flash, before, q);
      UpdateAllAppend(e, ws, SetWrites(l, p, flash(p)));
      GetSet(l, UpdateAll(e, ws), p, flash(p), q);
    }
  }

  lemma {:induction false} RowCovers(layer: nat, row: nat, n: nat, column: nat)
    requires column < n
    ensures KeyAt(layer, row, column) in RowPositions(layer, row, n)
  {
    if column < n - 1 { RowCovers(layer, row, n - 1, column); }
  }

  lemma {:induction false} MatrixCovers(l: Layout, layer: nat, n: nat, row: nat, column: nat)
    requires row < n && column < l.cols
    ensures KeyAt(layer, row, column) in MatrixPositions(l, layer, n)
  {
    if row < n - 1 { MatrixCovers(l, layer, n - 1, row, column); } else { RowCovers(layer, row, l.cols, column); }
  }

  lemma {:induction false} EncodersCovered(layer: nat, n: nat, encoder: nat, clockwise: bool)
    requires encoder < n
    ensures EncoderAt(layer, encoder, clockwise) in EncoderPositions(layer, n)
  {
    if encoder < n - 1 { EncodersCovered(layer, n - 1, encoder, clockwise); }
  }

  lemma {:induction false} LayersCover(l: Layout, n: nat, p: Position)
    requires InMap(l, p) && p.layer < n
    ensures p in LayerPositions(l, n)
  {
    if p.layer < n - 1 {
      LayersCover(l, n - 1, p);
    } else {
      match p
      case KeyAt(layer, row, column) => MatrixCovers(l, layer, l.rows, row, column);
      case EncoderAt(layer, encoder, clockwise) => EncodersCovered(layer, l.encoders, encoder, clockwise);
    }
  }

  /** After `dynamic_keymap_reset` every position reads what is in flash. */
  lemma ResetRestoresFlash(l: Layout, e: Memory, flash: Flash, p: Position)
    requires l.End() <= |e| && InMap(l, p)
    ensures Get(l, UpdateAll(e, ResetWrites(l, flash)), p) == flash(p)
  {
    LayersCover(l, l.layers, p);
    GetSetAll(l, e, flash, LayerPositions(l, l.layers), p);
  }

  /** That is every key of the matrix and both directions of every encoder, on every layer. */
  lemma ResetRestoresAll(l: Layout, e: Memory, flash: Flash, layer: nat, row: nat, column: nat, encoder: nat)
    requires l.End() <= |e| && layer < l.layers
    ensures var e' := UpdateAll(e, ResetWrites(l, flash));
            && (row < l.rows && column < l.cols ==>
                  Get(l, e', KeyAt(layer, row, column)) == flash(KeyAt(layer, row, column)))
            && (encoder < l.encoders ==>
                  && Get(l, e', EncoderAt(layer, encoder, true)) == flash(EncoderAt(layer, encoder, true))
                  && Get(l, e', EncoderAt(layer, encoder, false)) == flash(EncoderAt(layer, encoder, false)))
  {
    hide UpdateAll, ResetWrites, Get;
    if row < l.rows && column < l.cols { ResetRestoresFlash(l, e, flash, KeyAt(layer, row, column)); }
    if encoder < l.encoders {
      ResetRestoresFlash(l, e, flash, EncoderAt(layer, encoder, true));
      ResetRestoresFlash(l, e, flash, EncoderAt(layer, encoder, false));
    }
  }
}
