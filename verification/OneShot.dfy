/** One-shot layers (`quantum/action_util.c`). */
module OneShot {

  const PRESSED: bv8 := 1
  const OTHER_KEY_PRESSED: bv8 := 2
  const START: bv8 := 3
  const TOGGLED: bv8 := 4

  function Pack(layer: bv8, state: bv8): bv8 {
    (layer << 3) | state
  }

  /** `get_oneshot_layer` */
  function LayerOf(data: bv8): bv8 {
    data >> 3
  }

  /** `get_oneshot_layer_state` */
  function StateOf(data: bv8): bv8 {
    data & 7
  }

  /** The byte gives back the layer and the state exactly if they fit in five and three bits. */
  lemma PackIff(layer: bv8, state: bv8)
    ensures LayerOf(Pack(layer, state)) == layer && StateOf(Pack(layer, state)) == state <==> layer < 32 && state < 8
  {}

  /** Layers that are on, and the packed byte. */
  datatype State = State(layers: set<bv8>, data: bv8)

  function Set(enabled: bool, s: State, layer: bv8, state: bv8): State {
    State(s.layers + {layer}, if enabled then Pack(layer, state) else s.data)
  }

  function Clear(enabled: bool, s: State, what: bv8): State {
    var data := s.data & !what;
    if StateOf(data) == 0 && s.data != data && enabled then State(s.layers - {LayerOf(data)}, 0)
    else s.(data := data)
  }

  function Clears(enabled: bool, s: State, whats: seq<bv8>): State {
    if whats == [] then s else Clear(enabled, Clears(enabled, s, whats[..|whats| - 1]), whats[|whats| - 1])
  }

  /** The state bits still to be fulfilled after some clears. */
  function Remaining(state: bv8, whats: seq<bv8>): bv8 {
    (if PRESSED in whats then 0 else state & PRESSED) |
      (if OTHER_KEY_PRESSED in whats then 0 else state & OTHER_KEY_PRESSED)
  }

  lemma ClearOne(s: State, layer: bv8, left: bv8, what: bv8)
    requires layer < 32 && (what == PRESSED || what == OTHER_KEY_PRESSED) && left < 4
    requires if left == 0 then s.data == 0 else s.data == Pack(layer, left)
    ensures var after := left & !what;
            var s' := Clear(true, s, what);
            && after < 4
            && s'.data == (if after == 0 then 0 else Pack(layer, after))
            && s'.layers == (if after == 0 && left != 0 then s.layers - {layer} else s.layers)
  {
    assert what == PRESSED ==> Pack(layer, left) & !what == Pack(layer, left & !what);
    assert what == OTHER_KEY_PRESSED ==> Pack(layer, left) & !what == Pack(layer, left & !what);
    PackIff(layer, left);
    PackIff(layer, left & !what);
    assert LayerOf(Pack(layer, left & !what)) == layer;
  }

  lemma SetStart(s: State, layer: bv8)
    ensures Set(true, s, layer, START) == State(s.layers + {layer}, Pack(layer, START))
  {}

  /** From the start of a one-shot layer until the next set or reset, whatever clears come in whatever order:
      the layer stays on until the key was released and another key was pressed, it goes off at that call,
      and no other layer changes; nothing happens after that. */
  lemma {:induction false} OnUntilBoth(s: State, layer: bv8, whats: seq<bv8>)
    requires layer < 32 && forall w :: w in whats ==> w == PRESSED || w == OTHER_KEY_PRESSED
    ensures var s' := Clears(true, Set(true, s, layer, START), whats);
            var left := Remaining(START, whats);
            && s'.data == (if left == 0 then 0 else Pack(layer, left))
            && s'.layers == (if left == 0 then s.layers - {layer} else s.layers + {layer})
            && (left == 0 <==> PRESSED in whats && OTHER_KEY_PRESSED in whats)
  {
    hide Clear, Set, Pack;
    if whats == [] {
      SetStart(s, layer);
    } else {
      var init, last := whats[..|whats| - 1], whats[|whats| - 1];
      assert whats == init + [last];
      assert forall w :: w in init ==> w in whats;
      OnUntilBoth(s, layer, init);
      assert last in whats;
      assert Remaining(START, whats) == Remaining(START, init) & !last;
      ClearOne(Clears(true, Set(true, s, layer, START), init), layer, Remaining(START, init), last);
    }
  }

  /** Setting turns the layer on, and no other on or off; the byte gives back layer and state if one-shot layers are
      enabled, and is as before if not. */
  lemma SetIs(enabled: bool, s: State, layer: bv8, state: bv8)
    requires layer < 32 && state < 8
    ensures var s' := Set(enabled, s, layer, state);
            && s'.layers == s.layers + {layer}
            && (enabled ==> LayerOf(s'.data) == layer && StateOf(s'.data) == state)
            && (!enabled ==> s'.data == s.data)
  {
    PackIff(layer, state);
  }

  /** A toggled layer is turned on and not turned off by any clears of the two conditions. */
  lemma {:induction false} ToggledStays(s: State, layer: bv8, whats: seq<bv8>)
    requires layer < 32 && forall w :: w in whats ==> w == PRESSED || w == OTHER_KEY_PRESSED
    ensures var s' := Clears(true, Set(true, s, layer, TOGGLED), whats);
            s'.layers == s.layers + {layer} && LayerOf(s'.data) == layer && StateOf(s'.data) == TOGGLED
    ensures Clears(true, Set(true, s, layer, TOGGLED), whats) == Set(true, s, layer, TOGGLED)
  {
    if whats == [] {
      SetIs(true, s, layer, TOGGLED);
    } else {
      var init, last := whats[..|whats| - 1], whats[|whats| - 1];
      assert forall w :: w in init ==> w in whats;
      ToggledStays(s, layer, init);
      assert last in whats;
      assert Pack(layer, TOGGLED) & !PRESSED == Pack(layer, TOGGLED);
      assert Pack(layer, TOGGLED) & !OTHER_KEY_PRESSED == Pack(layer, TOGGLED);
    }
  }

  /** While one-shot layers are disabled clears change no layer, only the byte. */
  lemma DisabledClears(s: State, what: bv8)
    ensures Clear(false, s, what).layers == s.layers && Clear(false, s, what).data == s.data & !what
  {}

  class Keyboard {
    var oneshotLayerData: bv8
    var layers: set<bv8>
    const enabled: bool

    function Now(): State
      reads this
    {
      State(layers, oneshotLayerData)
    }

    constructor (enabled: bool)
      ensures Now() == State({}, 0) && this.enabled == enabled
    {
      oneshotLayerData, layers, this.enabled := 0, {}, enabled;
    }

    /** `set_oneshot_layer` */
    method SetOneshotLayer(layer: bv8, state: bv8)
      modifies this
      ensures Now() == Set(enabled, old(Now()), layer, state)
    {
      if enabled { oneshotLayerData := (layer << 3) | state; }
      layers := layers + {layer};
    }

    /** `reset_oneshot_layer`: the layer itself stays as it is. */
    method ResetOneshotLayer()
      modifies `oneshotLayerData
      ensures Now() == old(Now()).(data := 0)
    {
      oneshotLayerData := 0;
    }

    /** `clear_oneshot_layer_state` */
    method ClearOneshotLayerState(what: bv8)
      modifies this
      ensures Now() == Clear(enabled, old(Now()), what)
    {
      var startState := oneshotLayerData;
      oneshotLayerData := oneshotLayerData & !what;
      if StateOf(oneshotLayerData) == 0 && startState != oneshotLayerData && enabled {
        layers := layers - {LayerOf(oneshotLayerData)};
        ResetOneshotLayer();
      }
    }
  }
}
