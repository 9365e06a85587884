/** Layer resolution and the source-layer cache (`quantum/action_layer.c`). */
module LayerModel {
  import opened Arithmetic

  const TRANSPARENT := 1
  const KEYLOC_ENCODER_CW := 253
  const KEYLOC_ENCODER_CCW := 252

  datatype Key = Key(row: nat, col: nat)

  /** Matrix size, number of encoders, bits of a layer number (`MAX_LAYER_BITS`), number of layers
      (`MAX_LAYER`), and the action of each layer and key. */
  datatype Board = Board(rows: nat, cols: nat, encoders: nat, layerBits: nat, maxLayer: nat,
                         keymap: (nat, Key) -> nat) {
    /** Entry numbers fit sixteen bits, layer numbers eight, and `layerBits` bits are enough for a layer. */
    predicate Valid() {
      rows <= 250 && cols <= 255 && layerBits <= 8 && maxLayer <= Pow2(layerBits)
    }

    predicate Matrix(key: Key) {
      key.row < rows && key.col < cols
    }

    predicate Encoder(key: Key) {
      !Matrix(key) && (key.row == KEYLOC_ENCODER_CW || key.row == KEYLOC_ENCODER_CCW)
    }

    /** Encoder events carry the number of an encoder. */
    predicate IsKey(key: Key) {
      Encoder(key) ==> key.col < encoders
    }
  }

  /** Where the cache keeps a key's layer: both directions of an encoder share one entry. */
  datatype Slot = MatrixSlot(row: nat, col: nat) | EncoderSlot(id: nat) | NoSlot

  function SlotOf(b: Board, key: Key): Slot {
    if b.Matrix(key) then MatrixSlot(key.row, key.col)
    else if b.Encoder(key) then EncoderSlot(key.col)
    else NoSlot
  }

  // ---------------------------------------------------------------- resolution

  /** The layer `layer_switch_get_layer` finds among the first `n`. */
  function TopmostBelow(b: Board, layers: set<nat>, key: Key, n: nat): (layer: nat)
    ensures layer < n || layer == 0
    ensures || (layer in layers && layer < n && b.keymap(layer, key) != TRANSPARENT)
            || (layer == 0 && forall i :: 0 <= i < n && i in layers ==> b.keymap(i, key) == TRANSPARENT)
    ensures forall i :: layer < i < n && i in layers ==> b.keymap(i, key) == TRANSPARENT
  {
    if n == 0 then 0
    else if n - 1 in layers && b.keymap(n - 1, key) != TRANSPARENT then n - 1
    else TopmostBelow(b, layers, key, n - 1)
  }

  /** The layer is on and not transparent, or the bottom one, and all layers above it that are on are transparent. */
  predicate IsTopmost(b: Board, layers: set<nat>, key: Key, layer: nat) {
    && (layer == 0 || (layer < b.maxLayer && layer in layers && b.keymap(layer, key) != TRANSPARENT))
    && forall i :: layer < i < b.maxLayer && i in layers ==> b.keymap(i, key) == TRANSPARENT
  }

  /** There is only one such layer. */
  lemma OneTopmost(b: Board, layers: set<nat>, key: Key, x: nat, y: nat)
    requires IsTopmost(b, layers, key, x) && IsTopmost(b, layers, key, y)
    ensures x == y
  {
    assert x < y ==> b.keymap(y, key) != TRANSPARENT;
    assert y < x ==> b.keymap(x, key) != TRANSPARENT;
  }

  function Topmost(b: Board, layers: set<nat>, key: Key): (layer: nat)
    ensures IsTopmost(b, layers, key, layer)
  {
    TopmostBelow(b, layers, key, b.maxLayer)
  }

  // ---------------------------------------------------------------- the cache as a map

  /** The layers that are on, and the layer stored for each slot. */
  datatype State = State(layers: set<nat>, cache: imap<Slot, nat>)

  function Stored(s: State, slot: Slot): nat {
    if slot in s.cache then s.cache[slot] else 0
  }

  /** A layer change of any kind, or a key event, with or without the cache. */
  datatype Event = Layers(on: set<nat>) | KeyEvent(key: Key, pressed: bool, nocache: bool)

  predicate Presses(b: Board, e: Event, slot: Slot) {
    e.KeyEvent? && e.pressed && !e.nocache && SlotOf(b, e.key) == slot
  }

  /** The next state and the action `store_or_get_action` returns. */
  function Step(b: Board, s: State, e: Event): (State, nat) {
    match e
    case Layers(on) => (s.(layers := on), 0)
    case KeyEvent(key, pressed, nocache) =>
      var layer := Topmost(b, s.layers, key);
      if nocache then (s, b.keymap(layer, key))
      else if pressed then
        var slot := SlotOf(b, key);
        (if slot == NoSlot then s else s.(cache := s.cache[slot := layer]), b.keymap(layer, key))
      else (s, b.keymap(Stored(s, SlotOf(b, key)), key))
  }

  function Run(b: Board, s: State, es: seq<Event>): State
    decreases |es|
  {
    if es == [] then s else Step(b, Run(b, s, es[..|es| - 1]), es[|es| - 1]).0
  }

  function LayersAfter(on: set<nat>, es: seq<Event>): set<nat>
    decreases |es|
  {
    if es == [] then on
    else if es[|es| - 1].Layers? then es[|es| - 1].on
    else LayersAfter(on, es[..|es| - 1])
  }

  /** The layer is the topmost one at the latest press of the slot, given what was on at that moment; 0 before any. */
  predicate FromLatestPress(b: Board, on: set<nat>, es: seq<Event>, slot: Slot, layer: nat)
    decreases |es|
  {
    if es == [] then layer == 0
    else
      var e := es[|es| - 1];
      var before := es[..|es| - 1];
      if Presses(b, e, slot) then IsTopmost(b, LayersAfter(on, before), e.key, layer)
      else FromLatestPress(b, on, before, slot, layer)
  }

  /** Whatever happens between, a cached release gets the layer of the latest press of its slot, and a key without a
      slot gets layer 0; a press, and any event past the cache, gets the topmost layer that is not transparent. */
  lemma {:induction false} ReleaseFollowsPress(b: Board, on: set<nat>, es: seq<Event>)
    ensures var s := Run(b, State(on, imap[]), es);
            && s.layers == LayersAfter(on, es)
            && (forall slot :: slot != NoSlot ==> FromLatestPress(b, on, es, slot, Stored(s, slot)))
            && Stored(s, NoSlot) == 0
            && (forall key {:trigger KeyEvent(key, false, false)} ::
                 Step(b, s, KeyEvent(key, false, false)).1 == b.keymap(Stored(s, SlotOf(b, key)), key))
            && (forall key, layer :: IsTopmost(b, LayersAfter(on, es), key, layer) ==>
                 && Step(b, s, KeyEvent(key, true, false)).1 == b.keymap(layer, key)
                 && Step(b, s, KeyEvent(key, true, true)) == (s, b.keymap(layer, key))
                 && Step(b, s, KeyEvent(key, false, true)) == (s, b.keymap(layer, key)))
    decreases |es|
  {
    hide IsTopmost, LayersAfter;
    LayersStep(on, es);
    forall key, layer | IsTopmost(b, LayersAfter(on, es), key, layer)
      ensures layer == Topmost(b, LayersAfter(on, es), key)
    {
      OneTopmost(b, LayersAfter(on, es), key, layer, Topmost(b, LayersAfter(on, es), key));
    }
    if es != [] {
      var before, e := es[..|es| - 1], es[|es| - 1];
      ReleaseFollowsPress(b, on, before);
      forall slot | slot != NoSlot
        ensures FromLatestPress(b, on, es, slot, Stored(Run(b, State(on, imap[]), es), slot))
      {
        StepStores(b, Run(b, State(on, imap[]), before), e, slot);
      }
    }
  }

  lemma StepStores(b: Board, s: State, e: Event, slot: Slot)
    requires slot != NoSlot
    ensures Presses(b, e, slot) ==> IsTopmost(b, s.layers, e.key, Stored(Step(b, s, e).0, slot))
    ensures !Presses(b, e, slot) ==> Stored(Step(b, s, e).0, slot) == Stored(s, slot)
  {
    hide IsTopmost;
  }

  /** Two keys share an entry of the cache exactly if they are the same matrix position or turns of the same encoder. */
  lemma SameSlotIff(b: Board, x: Key, y: Key)
    ensures SlotOf(b, x) != NoSlot <==> b.Matrix(x) || b.Encoder(x)
    ensures SlotOf(b, x) != NoSlot ==>
              (SlotOf(b, x) == SlotOf(b, y) <==>
               (b.Matrix(x) && x == y) || (b.Encoder(x) && b.Encoder(y) && x.col == y.col))
  {}

  /** Both directions of an encoder have an entry, and it is the same. */
  lemma DirectionsShare(b: Board, id: nat)
    requires b.Valid()
    ensures SlotOf(b, Key(KEYLOC_ENCODER_CW, id)) == SlotOf(b, Key(KEYLOC_ENCODER_CCW, id)) != NoSlot
  {}

  lemma LayersStep(on: set<nat>, es: seq<Event>)
    ensures es == [] ==> LayersAfter(on, es) == on
    ensures es != [] ==> LayersAfter(on, es) ==
                         var e := es[|es| - 1]; if e.Layers? then e.on else LayersAfter(on, es[..|es| - 1])
  {}

  /** Press `key`, then anything that does not press its slot again, then release it: the release gives the
      action of the press exactly if the key has a slot in the cache or layer 0 gives the same action. */
  lemma SameActionIff(b: Board, s: State, key: Key, between: seq<Event>)
    requires forall e :: e in between ==> !Presses(b, e, SlotOf(b, key))
    requires NoSlot !in s.cache
    ensures var (s1, onPress) := Step(b, s, KeyEvent(key, true, false));
            var onRelease := Step(b, Run(b, s1, between), KeyEvent(key, false, false)).1;
            onRelease == onPress <==> (SlotOf(b, key) != NoSlot || b.keymap(0, key) == onPress)
  {
    var (s1, onPress) := Step(b, s, KeyEvent(key, true, false));
    Untouched(b, s1, SlotOf(b, key), between);
  }

  lemma {:induction false} Untouched(b: Board, s: State, slot: Slot, es: seq<Event>)
    requires forall e :: e in es ==> !Presses(b, e, slot)
    requires NoSlot !in s.cache
    ensures Stored(Run(b, s, es), slot) == Stored(s, slot) && NoSlot !in Run(b, s, es).cache
    decreases |es|
  {
    hide Topmost;
    if es != [] {
      var e := es[|es| - 1];
      assert e in es;
      Untouched(b, s, slot, es[..|es| - 1]);
    }
  }
}

/** The cache as the code keeps it: each layer number spread over `layerBits` bytes, one bit in each. */
module LayerCache {
  import opened Arithmetic

  function Bit(s: nat): bv8
    requires s < 8
  {
    if s == 0 then 0x01 else if s == 1 then 0x02 else if s == 2 then 0x04 else if s == 3 then 0x08
    else if s == 4 then 0x10 else if s == 5 then 0x20 else if s == 6 then 0x40 else 0x80
  }

  predicate BitOn(c: bv8, s: nat)
    requires s < 8
  {
    c & Bit(s) != 0
  }

  /** The update of one byte: `c ^= (-on ^ c) & (1 << s)`. */
  function WithBit(c: bv8, s: nat, on: bool): bv8
    requires s < 8
  {
    c ^ (((if on then 0xFF else 0) ^ c) & Bit(s))
  }

  lemma MaskedUpdate(c: bv8, v: bv8, m: bv8, n: bv8)
    ensures (c ^ ((v ^ c) & m)) & m == v & m
    ensures m & n == 0 ==> (c ^ ((v ^ c) & m)) & n == c & n
  {}

  lemma BitsApart(s: nat, t: nat)
    requires s < 8 && t < 8
    ensures Bit(s) != 0 && (s != t ==> Bit(s) & Bit(t) == 0) && 0xFF & Bit(s) == Bit(s)
  {}

  /** Only the chosen bit changes, and it gets the chosen value. */
  lemma WithBitOn(c: bv8, s: nat, on: bool, t: nat)
    requires s < 8 && t < 8
    ensures BitOn(WithBit(c, s, on), t) == if t == s then on else BitOn(c, t)
  {
    hide Bit;
    MaskedUpdate(c, if on then 0xFF else 0, Bit(s), Bit(t));
    BitsApart(s, t);
  }

  predicate LayerBit(layer: nat, k: nat) {
    layer / Pow2(k) % 2 == 1
  }

  /** The low `n` bits of a number. */
  function LowBits(layer: nat, n: nat): nat {
    layer % Pow2(n)
  }

  lemma LowBitsStep(layer: nat, n: nat)
    ensures LowBits(layer, n + 1) == LowBits(layer, n) + if LayerBit(layer, n) then Pow2(n) else 0
  {
    var p := Pow2(n);
    var q := layer / p;
    assert layer == p * q + layer % p;
    var h := q / 2;
    assert p * q == 2 * p * h + p * (q % 2) by { assert q == 2 * h + q % 2; }
    var r := layer % p + p * (q % 2);
    assert layer == 2 * p * h + r && 0 <= r < 2 * p;
    ModUnique(layer, 2 * p, h, r);
  }

  /** The number whose bits, lowest first, are `s`. */
  function Number(s: seq<bool>): (v: nat)
    ensures v < Pow2(|s|)
  {
    if s == [] then 0 else Number(s[..|s| - 1]) + if s[|s| - 1] then Pow2(|s| - 1) else 0
  }

  lemma {:induction false} NumberZero(s: seq<bool>)
    requires forall k :: 0 <= k < |s| ==> !s[k]
    ensures Number(s) == 0
  {
    if s != [] { NumberZero(s[..|s| - 1]); }
  }

  lemma {:induction false} NumberOf(s: seq<bool>, layer: nat)
    requires forall k :: 0 <= k < |s| ==> s[k] == LayerBit(layer, k)
    ensures Number(s) == LowBits(layer, |s|)
  {
    if s != [] {
      NumberOf(s[..|s| - 1], layer);
      LowBitsStep(layer, |s| - 1);
    }
  }

  /** A number that fits is its low bits. */
  lemma Fits(layer: nat, n: nat)
    requires layer < Pow2(n)
    ensures LowBits(layer, n) == layer
  {
    hide Pow2;
    ModUnique(layer, Pow2(n), 0, layer);
  }

  class Cache {
    const bytes: array2<bv8>

    predicate HasEntry(n: nat) {
      n / 8 < bytes.Length0
    }

    function Bits(n: nat): (s: seq<bool>)
      requires HasEntry(n)
      reads bytes
      ensures |s| == bytes.Length1
    {
      seq(bytes.Length1, k requires 0 <= k < bytes.Length1 reads bytes => BitOn(bytes[n / 8, k], n % 8))
    }

    /** The number in entry `n`. */
    function Value(n: nat): nat
      requires HasEntry(n)
      reads bytes
    {
      Number(Bits(n))
    }

    constructor (entries: nat, layerBits: nat)
      ensures bytes.Length1 == layerBits && fresh(bytes)
      ensures forall n :: 0 <= n < entries ==> HasEntry(n) && Value(n) == 0
    {
      bytes := new bv8[(entries + 7) / 8, layerBits]((i, j) => 0);
      new;
      forall n | 0 <= n < entries ensures HasEntry(n) && Value(n) == 0 { NumberZero(Bits(n)); }
    }

    /** `update_source_layers_cache_impl`: the entry becomes `layer`, every other entry keeps its value. */
    method Update(layer: nat, n: nat)
      requires HasEntry(n) && layer < Pow2(bytes.Length1)
      modifies bytes
      ensures Value(n) == layer
      ensures forall m :: m != n && 0 <= m && HasEntry(m) ==> Value(m) == old(Value(m))
    {
      hide Bit, BitOn, WithBit, LayerBit, LowBits, Pow2, Number;
      var storage, bit := n / 8, n % 8;
      for k := 0 to bytes.Length1
        invariant forall j :: 0 <= j < k ==> BitOn(bytes[storage, j], bit) == LayerBit(layer, j)
        invariant forall i, j, t ::
                    && 0 <= i < bytes.Length0 && 0 <= j < bytes.Length1 && 0 <= t < 8
                    && !(i == storage && t == bit)
                    ==> BitOn(bytes[i, j], t) == BitOn(old(bytes[i, j]), t)
      {
        forall t | 0 <= t < 8
          ensures BitOn(WithBit(bytes[storage, k], bit, LayerBit(layer, k)), t) ==
                  if t == bit then LayerBit(layer, k) else BitOn(bytes[storage, k], t)
        {
          WithBitOn(bytes[storage, k], bit, LayerBit(layer, k), t);
        }
        bytes[storage, k] := WithBit(bytes[storage, k], bit, LayerBit(layer, k));
      }
      NumberOf(Bits(n), layer);
      Fits(layer, bytes.Length1);
      forall m | 0 <= m && m != n && HasEntry(m) ensures Value(m) == old(Value(m)) {
        assert !(m / 8 == storage && m % 8 == bit);
        assert Bits(m) == old(Bits(m));
      }
    }

    /** `read_source_layers_cache_impl` */
    method Read(n: nat) returns (layer: nat)
      requires HasEntry(n)
      ensures layer == Value(n) && layer < Pow2(bytes.Length1)
    {
      layer := 0;
      var weight := 1;
      for k := 0 to bytes.Length1
        invariant weight == Pow2(k) && layer == Number(Bits(n)[..k])
      {
        assert Bits(n)[..k + 1][..k] == Bits(n)[..k];
        if BitOn(bytes[n / 8, k], n % 8) { layer := layer + weight; }
        weight := 2 * weight;
      }
      assert Bits(n)[..bytes.Length1] == Bits(n);
    }
  }
}

module LayerEngine {
  import opened Arithmetic
  import opened LayerModel
  import opened LayerCache

  function Entry(cols: nat, row: nat, col: nat): nat {
    row * cols + col
  }

  lemma EntryInside(cols: nat, rows: nat, r: nat, c: nat)
    requires r < rows && c < cols
    ensures Entry(cols, r, c) < rows * cols
  {
    assert (rows - r - 1) * cols >= 0;
    assert rows * cols == r * cols + cols + (rows - r - 1) * cols;
  }

  /** Different matrix positions have different entries. */
  lemma EntriesDiffer(cols: nat, r: nat, c: nat, r2: nat, c2: nat)
    requires c < cols && c2 < cols && Entry(cols, r, c) == Entry(cols, r2, c2)
    ensures r == r2 && c == c2
  {
    assert (r - r2) * cols == c2 - c;
    assert r - r2 >= 1 ==> (r - r2) * cols >= cols;
    assert r - r2 <= -1 ==> (r - r2) * cols + cols <= 0;
  }

  class Layers {
    const board: Board
    const matrix: Cache
    const encoders: Cache
    /** `layer_state_set_kb` and `default_layer_state_set_kb`, which may replace the new state */
    const layerHook: set<nat> -> set<nat>
    const defaultHook: set<nat> -> set<nat>
    var layerState: set<nat>
    var defaultLayerState: set<nat>
    /** what the caches and the layer states stand for */
    ghost var state: State

    /** Both caches agree with the map. */
    ghost predicate Valid()
      reads this, matrix.bytes, encoders.bytes
    {
      && board.Valid() && matrix.bytes != encoders.bytes
      && matrix.bytes.Length1 == board.layerBits && encoders.bytes.Length1 == board.layerBits
      && state.layers == layerState + defaultLayerState && NoSlot !in state.cache
      && (forall r, c :: 0 <= r < board.rows && 0 <= c < board.cols ==>
            matrix.HasEntry(Entry(board.cols, r, c)) &&
              matrix.Value(Entry(board.cols, r, c)) == Stored(state, MatrixSlot(r, c)))
      && (forall i :: 0 <= i < board.encoders ==>
            encoders.HasEntry(i) && encoders.Value(i) == Stored(state, EncoderSlot(i)))
    }

    constructor (board: Board, layerHook: set<nat> -> set<nat>, defaultHook: set<nat> -> set<nat>)
      requires board.Valid()
      ensures Valid() && this.board == board && state == State({}, imap[])
      ensures this.layerHook == layerHook && this.defaultHook == defaultHook
    {
      hide Cache.Value, Entry;
      this.board, this.layerHook, this.defaultHook := board, layerHook, defaultHook;
      matrix := new Cache(board.rows * board.cols, board.layerBits);
      encoders := new Cache(board.encoders, board.layerBits);
      layerState, defaultLayerState, state := {}, {}, State({}, imap[]);
      new;
      forall r, c | 0 <= r < board.rows && 0 <= c < board.cols
        ensures matrix.HasEntry(Entry(board.cols, r, c)) && matrix.Value(Entry(board.cols, r, c)) == 0
      {
        EntryInside(board.cols, board.rows, r, c);
      }
    }

    /** `layer_switch_get_layer` */
    method LayerSwitchGetLayer(key: Key) returns (layer: nat)
      requires Valid()
      ensures layer == Topmost(board, state.layers, key) && IsTopmost(board, state.layers, key, layer)
    {
      var layers := layerState + defaultLayerState;
      var i := board.maxLayer;
      while i > 0
        invariant TopmostBelow(board, layers, key, i) == Topmost(board, layers, key)
      {
        i := i - 1;
        if i in layers {
          if board.keymap(i, key) != TRANSPARENT { return i; }
        }
      }
      layer := 0;
    }

    /** `update_source_layers_cache` */
    method UpdateSourceLayersCache(key: Key, layer: nat)
      requires Valid() && board.IsKey(key) && layer < Pow2(board.layerBits)
      modifies `state, matrix.bytes, encoders.bytes
      ensures Valid()
      ensures state == old(state).(cache := if SlotOf(board, key) == NoSlot then old(state.cache)
                                            else old(state.cache)[SlotOf(board, key) := layer])
    {
      hide Pow2, Cache.Value, Entry;
      if board.Matrix(key) {
        forall r, c | 0 <= r < board.rows && 0 <= c < board.cols
          ensures Entry(board.cols, r, c) == Entry(board.cols, key.row, key.col) ==> r == key.row && c == key.col
        {
          if Entry(board.cols, r, c) == Entry(board.cols, key.row, key.col) {
            EntriesDiffer(board.cols, key.row, key.col, r, c);
          }
        }
        matrix.Update(layer, Entry(board.cols, key.row, key.col));
        state := state.(cache := state.cache[MatrixSlot(key.row, key.col) := layer]);
      } else if key.row == KEYLOC_ENCODER_CW || key.row == KEYLOC_ENCODER_CCW {
        encoders.Update(layer, key.col);
        state := state.(cache := state.cache[EncoderSlot(key.col) := layer]);
      }
    }

    /** `read_source_layers_cache` */
    method ReadSourceLayersCache(key: Key) returns (layer: nat)
      requires Valid() && board.IsKey(key)
      ensures layer == Stored(state, SlotOf(board, key))
    {
      layer := 0;
      if board.Matrix(key) {
        layer := matrix.Read(Entry(board.cols, key.row, key.col));
      } else if key.row == KEYLOC_ENCODER_CW || key.row == KEYLOC_ENCODER_CCW {
        layer := encoders.Read(key.col);
      }
    }

    /** `store_or_get_action` */
    method StoreOrGetAction(pressed: bool, key: Key, nocache: bool) returns (action: nat)
      requires Valid() && board.IsKey(key)
      modifies `state, matrix.bytes, encoders.bytes
      ensures Valid()
      ensures (state, action) == Step(board, old(state), KeyEvent(key, pressed, nocache))
    {
      var layer;
      if nocache {
        layer := LayerSwitchGetLayer(key);
        return board.keymap(layer, key);
      }
      if pressed {
        layer := LayerSwitchGetLayer(key);
        UpdateSourceLayersCache(key, layer);
      } else {
        layer := ReadSourceLayersCache(key);
      }
      action := board.keymap(layer, key);
    }

    /** `layer_state_set`, through which every layer operation goes: the hook has the last word, and the cache
        is left alone. */
    method LayerStateSet(on: set<nat>)
      requires Valid()
      modifies `layerState, `state
      ensures Valid() && layerState == layerHook(on)
      ensures state == Step(board, old(state), LayerModel.Layers(layerHook(on) + defaultLayerState)).0
    {
      layerState := layerHook(on);
      state := state.(layers := layerState + defaultLayerState);
    }

    /** `layer_on`, `layer_off`, `layer_invert` and `layer_move` */
    method LayerOn(layer: nat)
      requires Valid()
      modifies `layerState, `state
      ensures Valid() && layerState == layerHook(old(layerState) + {layer})
      ensures state == Step(board, old(state), LayerModel.Layers(layerState + defaultLayerState)).0
    {
      LayerStateSet(layerState + {layer});
    }

    method LayerOff(layer: nat)
      requires Valid()
      modifies `layerState, `state
      ensures Valid() && layerState == layerHook(old(layerState) - {layer})
      ensures state == Step(board, old(state), LayerModel.Layers(layerState + defaultLayerState)).0
    {
      LayerStateSet(layerState - {layer});
    }

    method LayerInvert(layer: nat)
      requires Valid()
      modifies `layerState, `state
      ensures Valid()
      ensures layerState ==
              layerHook(if layer in old(layerState) then old(layerState) - {layer} else old(layerState) + {layer})
      ensures state == Step(board, old(state), LayerModel.Layers(layerState + defaultLayerState)).0
    {
      LayerXor({layer});
      assert old(layerState) + {layer} - old(layerState) * {layer} ==
             if layer in old(layerState) then old(layerState) - {layer} else old(layerState) + {layer};
    }

    method LayerMove(layer: nat)
      requires Valid()
      modifies `layerState, `state
      ensures Valid() && layerState == layerHook({layer})
      ensures state == Step(board, old(state), LayerModel.Layers(layerState + defaultLayerState)).0
    {
      LayerStateSet({layer});
    }

    /** `layer_xor` */
    method LayerXor(layers: set<nat>)
      requires Valid()
      modifies `layerState, `state
      ensures Valid() && layerState == layerHook(old(layerState) + layers - old(layerState) * layers)
      ensures state == Step(board, old(state), LayerModel.Layers(layerState + defaultLayerState)).0
    {
      LayerStateSet(layerState + layers - layerState * layers);
    }

    /** `default_layer_state_set` */
    method DefaultLayerStateSet(on: set<nat>)
      requires Valid()
      modifies `defaultLayerState, `state
      ensures Valid() && defaultLayerState == defaultHook(on)
      ensures state == Step(board, old(state), LayerModel.Layers(layerState + defaultHook(on))).0
    {
      defaultLayerState := defaultHook(on);
      state := state.(layers := layerState + defaultLayerState);
    }
  }
}
