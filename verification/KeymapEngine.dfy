/** The EEPROM side of `quantum/via.c` and `quantum/dynamic_keymap.c` in its own form: bytes updated in
    place, one at a time, by loops. Every method is tied to the byte updates of the specification. */
module KeymapEngine {
  import opened Arithmetic
  import opened Bytes
  import opened KeymapStorage
  import Buffers = KeymapBuffers
  import V = Via
  import M = MacroStrings

  class Eeprom {
    const layout: Layout
    const bytes: array<byte>
    /** Every byte update so far, in order. */
    ghost var writes: seq<Write>

    predicate Valid()
    {
      layout.End() <= bytes.Length
    }

    constructor (layout: Layout, bytes: array<byte>)
      requires layout.End() <= bytes.Length
      ensures Valid() && this.layout == layout && this.bytes == bytes && writes == []
    {
      this.layout, this.bytes, this.writes := layout, bytes, [];
    }

    /** The method made exactly these updates. */
    twostate predicate Wrote(ws: seq<Write>)
      reads this, bytes
    {
      bytes[..] == UpdateAll(old(bytes[..]), ws) && writes == old(writes) + ws
    }

    method UpdateByte(addr: nat, value: byte)
      requires addr < bytes.Length
      modifies this, bytes
      ensures Wrote([Write(addr, value)])
    {
      assert [Write(addr, value)][..0] == [];
      assert UpdateAll(bytes[..], [Write(addr, value)]) == Update(bytes[..], Write(addr, value));
      bytes[addr] := value;
      writes := writes + [Write(addr, value)];
    }

    /** `dynamic_keymap_set_keycode` and `dynamic_keymap_set_encoder` */
    method Set(p: Position, keycode: word)
      requires Valid()
      modifies this, bytes
      ensures Wrote(SetWrites(layout, p, keycode))
    {
      if InMap(layout, p) {
        AddressInRegion(layout, p);
        SetWord(Address(layout, p), keycode);
      }
    }

    /** Updates two bytes, the high one first. */
    method SetWord(address: nat, keycode: word)
      requires address + 1 < bytes.Length
      modifies this, bytes
      ensures Wrote(WordWrites(address, keycode))
    {
      ghost var e := bytes[..];
      UpdateByte(address, keycode / 0x100);
      UpdateByte(address + 1, keycode % 0x100);
      ghost var ws := WordWrites(address, keycode);
      UpdateAllAppend(e, [ws[0]], [ws[1]]);
      assert [ws[0]] + [ws[1]] == ws;
    }

    /** `dynamic_keymap_get_keycode` and `dynamic_keymap_get_encoder` */
    method Get(p: Position) returns (keycode: word)
      requires Valid()
      ensures keycode == KeymapStorage.Get(layout, bytes[..], p)
    {
      if !InMap(layout, p) { return 0; }
      AddressInRegion(layout, p);
      var address := Address(layout, p);
      keycode := (bytes[address] as int) * 0x100 + bytes[address + 1] as int;
    }

    /** Sets one more position of a reset. */
    method SetNext(flash: Flash, ghost done: seq<Position>, p: Position, ghost e0: Memory, ghost w0: seq<Write>)
      requires Valid() && bytes[..] == UpdateAll(e0, SetAllWrites(layout, flash, done)) &&
               writes == w0 + SetAllWrites(layout, flash, done)
      modifies this, bytes
      ensures bytes[..] == UpdateAll(e0, SetAllWrites(layout, flash, done + [p])) &&
              writes == w0 + SetAllWrites(layout, flash, done + [p])
    {
      hide UpdateAll, SetWrites;
      Set(p, flash(p));
      assert (done + [p])[..|done|] == done;
      UpdateAllAppend(e0, SetAllWrites(layout, flash, done), SetWrites(layout, p, flash(p)));
    }

    /** `dynamic_keymap_reset` */
    method Reset(flash: Flash)
      requires Valid()
      modifies this, bytes
      ensures Wrote(ResetWrites(layout, flash))
    {
      hide UpdateAll, SetAllWrites;
      ghost var e0, w0 := bytes[..], writes;
      ghost var done: seq<Position> := [];
      NothingSet(flash, e0);
      for layer := 0 to layout.layers
        invariant done == LayerPositions(layout, layer)
        invariant bytes[..] == UpdateAll(e0, SetAllWrites(layout, flash, done)) &&
                  writes == w0 + SetAllWrites(layout, flash, done)
      {
        for row := 0 to layout.rows
          invariant done == LayerPositions(layout, layer) + MatrixPositions(layout, layer, row)
          invariant bytes[..] == UpdateAll(e0, SetAllWrites(layout, flash, done)) &&
                    writes == w0 + SetAllWrites(layout, flash, done)
        {
          for column := 0 to layout.cols
            invariant done == LayerPositions(layout, layer) + MatrixPositions(layout, layer, row) +
                      RowPositions(layer, row, column)
            invariant bytes[..] == UpdateAll(e0, SetAllWrites(layout, flash, done)) &&
                      writes == w0 + SetAllWrites(layout, flash, done)
          {
            SetNext(flash, done, KeyAt(layer, row, column), e0, w0);
            done := done + [KeyAt(layer, row, column)];
          }
        }
        for encoder := 0 to layout.encoders
          invariant done == LayerPositions(layout, layer) + MatrixPositions(layout, layer, layout.rows) +
                    EncoderPositions(layer, encoder)
          invariant bytes[..] == UpdateAll(e0, SetAllWrites(layout, flash, done)) &&
                    writes == w0 + SetAllWrites(layout, flash, done)
        {
          SetNext(flash, done, EncoderAt(layer, encoder, true), e0, w0);
          done := done + [EncoderAt(layer, encoder, true)];
          SetNext(flash, done, EncoderAt(layer, encoder, false), e0, w0);
          done := done + [EncoderAt(layer, encoder, false)];
        }
      }
    }

    lemma NothingSet(flash: Flash, e: Memory)
      ensures UpdateAll(e, SetAllWrites(layout, flash, [])) == e && SetAllWrites(layout, flash, []) == []
    {}

    /** `dynamic_keymap_set_buffer` and `dynamic_keymap_macro_set_buffer`, by region. */
    method SetBuffer(base: nat, size: nat, offset: nat, data: array<byte>)
      requires base + size <= bytes.Length && data != bytes
      modifies this, bytes
      ensures Wrote(Buffers.BufferWrites(base, size, offset, data[..]))
    {
      ghost var e0, w0 := bytes[..], writes;
      for i := 0 to data.Length
        invariant bytes[..] == UpdateAll(e0, Buffers.BufferWrites(base, size, offset, data[..i]))
        invariant writes == w0 + Buffers.BufferWrites(base, size, offset, data[..i])
      {
        assert data[..i + 1][..i] == data[..i];
        ghost var done := Buffers.BufferWrites(base, size, offset, data[..i]);
        if offset + i < size {
          UpdateByte(base + offset + i, data[i]);
          UpdateAllAppend(e0, done, [Write(base + offset + i, data[i])]);
        } else {
          assert done + [] == done;
        }
      }
      assert data[..data.Length] == data[..];
    }

    /** `dynamic_keymap_get_buffer` and `dynamic_keymap_macro_get_buffer`, by region. */
    method GetBuffer(base: nat, size: nat, offset: nat, data: array<byte>)
      requires base + size <= bytes.Length && data != bytes
      modifies data
      ensures data[..] == Buffers.ReadBuffer(bytes[..], base, size, offset, data.Length)
    {
      for i := 0 to data.Length
        invariant data[..i] == Buffers.ReadBuffer(bytes[..], base, size, offset, i)
      {
        data[i] := if offset + i < size then bytes[base + offset + i] else 0;
      }
    }

    /** `via_set_layout_options` */
    method SetLayoutOptions(value: nat)
      requires Valid()
      modifies this, bytes
      ensures Wrote(V.OptionsWrites(layout, value, layout.optionsSize))
    {
      hide UpdateAll, Layout.KeymapSize, Layout.EncoderSize;
      ghost var e0, w0 := bytes[..], writes;
      V.NoUpdates(e0);
      var v := value;
      for i := 0 to layout.optionsSize
        invariant v == Shifted(value, i)
        invariant bytes[..] == UpdateAll(e0, V.OptionsWrites(layout, value, i)) &&
                  writes == w0 + V.OptionsWrites(layout, value, i)
      {
        var target := layout.OptionsAddr() + layout.optionsSize - 1 - i;
        UpdateByte(target, v % 0x100);
        UpdateAllAppend(e0, V.OptionsWrites(layout, value, i), [Write(target, v % 0x100)]);
        v := v / 0x100;
      }
    }

    /** `value | b` where the low eight bits of `value` are zero. */
    function Or(value: nat, b: byte): nat {
      value + b as int
    }

    lemma ShiftThenOr(value: nat, b: byte)
      ensures Or(value * 0x100 % 0x1_0000_0000, b) == (value * 0x100 + b as int) % 0x1_0000_0000
    {}

    /** `via_get_layout_options` */
    method GetLayoutOptions() returns (value: nat)
      requires Valid()
      ensures value == V.ReadOptions(layout, bytes[..], layout.optionsSize)
    {
      value := 0;
      for i := 0 to layout.optionsSize
        invariant value == V.ReadOptions(layout, bytes[..], i)
      {
        ShiftThenOr(value, bytes[layout.OptionsAddr() + i]);
        value := Or(value * 0x100 % 0x1_0000_0000, bytes[layout.OptionsAddr() + i]);
      }
    }

    /** `dynamic_keymap_macro_reset` */
    method MacroReset()
      requires Valid()
      modifies this, bytes
      ensures Wrote(V.MacroResetWrites(layout, layout.macroSize))
    {
      ghost var e0, w0 := bytes[..], writes;
      var p := layout.MacroAddr();
      var end := layout.MacroAddr() + layout.macroSize;
      while p != end
        invariant layout.MacroAddr() <= p <= end
        invariant bytes[..] == UpdateAll(e0, V.MacroResetWrites(layout, p - layout.MacroAddr()))
        invariant writes == w0 + V.MacroResetWrites(layout, p - layout.MacroAddr())
        decreases end - p
      {
        hide UpdateAll, Layout.KeymapSize, Layout.EncoderSize;
        UpdateByte(p, 0);
        UpdateAllAppend(e0, V.MacroResetWrites(layout, p - layout.MacroAddr()), [Write(p, 0)]);
        p := p + 1;
      }
    }

    /** `via_eeprom_set_valid` */
    method SetValid(magic: seq<byte>, valid: bool)
      requires Valid() && |magic| == 3
      modifies this, bytes
      ensures Wrote(V.SetValidWrites(layout, magic, valid))
    {
      hide UpdateAll, Layout.KeymapSize, Layout.EncoderSize;
      ghost var e := bytes[..];
      ghost var ws := V.SetValidWrites(layout, magic, valid);
      UpdateByte(layout.magicAddr, if valid then magic[0] else 0xFF);
      UpdateByte(layout.magicAddr + 1, if valid then magic[1] else 0xFF);
      UpdateByte(layout.magicAddr + 2, if valid then magic[2] else 0xFF);
      UpdateAllAppend(e, [ws[0]], [ws[1]]);
      UpdateAllAppend(e, [ws[0]] + [ws[1]], [ws[2]]);
      assert [ws[0]] + [ws[1]] + [ws[2]] == ws;
    }

    /** `via_eeprom_is_valid` */
    method IsValid(magic: seq<byte>) returns (valid: bool)
      requires Valid() && |magic| == 3
      ensures valid == V.IsValid(layout, bytes[..], magic)
    {
      valid := bytes[layout.magicAddr] == magic[0] && bytes[layout.magicAddr + 1] == magic[1] &&
        bytes[layout.magicAddr + 2] == magic[2];
    }

    /** `eeconfig_init_via` */
    method EeconfigInitVia(d: V.Defaults)
      requires Valid() && |d.magic| == 3
      modifies this, bytes
      ensures Wrote(V.InitWrites(layout, d))
    {
      hide UpdateAll, V.SetValidWrites, V.OptionsWrites, V.MacroResetWrites, ResetWrites, Layout.KeymapSize,
        Layout.EncoderSize;
      ghost var off, on := V.SetValidWrites(layout, d.magic, false), V.SetValidWrites(layout, d.magic, true);
      ghost var o, k := V.OptionsWrites(layout, d.options, layout.optionsSize), ResetWrites(layout, d.flash);
      ghost var m := V.MacroResetWrites(layout, layout.macroSize);
      ghost var e := bytes[..];
      SetValid(d.magic, false);
      SetLayoutOptions(d.options);
      UpdateAllAppend(e, off, o);
      Reset(d.flash);
      UpdateAllAppend(e, off + o, k);
      MacroReset();
      UpdateAllAppend(e, off + o + k, m);
      SetValid(d.magic, true);
      UpdateAllAppend(e, off + o + k + m, on);
      assert off + o + k + m + on == V.InitWrites(layout, d);
    }

    /** `via_init`, keyboard-level hooks aside */
    method ViaInit(d: V.Defaults)
      requires Valid() && |d.magic| == 3
      modifies this, bytes
      ensures V.IsValid(layout, old(bytes[..]), d.magic) ==> bytes[..] == old(bytes[..]) && writes == old(writes)
      ensures !V.IsValid(layout, old(bytes[..]), d.magic) ==> Wrote(V.InitWrites(layout, d))
    {
      var valid := IsValid(d.magic);
      if !valid { EeconfigInitVia(d); }
    }

    /** The inner loop of `dynamic_keymap_macro_send` for a delay, on the macro region. */
    method ReadDelay(p0: nat, data: array<byte>) returns (t: M.Token)
      requires Valid() && data.Length == M.CHUNK_SIZE && data != bytes
      modifies data
      ensures t == M.NextDelay(bytes[layout.MacroAddr()..layout.End()], p0, 2, old(data[..]))
      ensures t.Send? ==> data[..] == t.data
    {
      ghost var buf := bytes[layout.MacroAddr()..layout.End()];
      var p, i := p0, 2;
      while true
        invariant 2 <= i <= 6 && p0 <= p && buf == bytes[layout.MacroAddr()..layout.End()]
        invariant M.NextDelay(buf, p0, 2, old(data[..])) == M.NextDelay(buf, p, i, data[..])
        decreases 7 - i
      {
        if p >= layout.macroSize { return M.PastEnd; }
        assert bytes[layout.MacroAddr() + p] == buf[p];
        data[i] := bytes[layout.MacroAddr() + p];
        p := p + 1;
        if data[i] == 0 { return M.Abort; }
        if data[i] == M.BAR {
          data[i + 1] := 0;
          return M.Send(p, data[..]);
        }
        if i == 6 { return M.Abort; }
        i := i + 1;
      }
    }

    /** One iteration of the reading loop of `dynamic_keymap_macro_send`. */
    method ReadToken(p: nat, data: array<byte>) returns (t: M.Token)
      requires Valid() && data.Length == M.CHUNK_SIZE && data != bytes
      modifies data
      ensures t == M.NextToken(bytes[layout.MacroAddr()..layout.End()], p, old(data[..]))
      ensures t.Send? ==> data[..] == t.data
    {
      ghost var buf := bytes[layout.MacroAddr()..layout.End()];
      ghost var d := data[..];
      if p >= layout.macroSize { return M.PastEnd; }
      assert bytes[layout.MacroAddr() + p] == buf[p];
      data[0] := bytes[layout.MacroAddr() + p];
      data[1] := 0;
      assert data[..] == d[0 := buf[p]][1 := 0];
      if data[0] == 0 { return M.Stop; }
      if data[0] == M.QMK_PREFIX {
        if p + 1 >= layout.macroSize { return M.PastEnd; }
        assert bytes[layout.MacroAddr() + p + 1] == buf[p + 1];
        data[1] := bytes[layout.MacroAddr() + p + 1];
        assert data[..] == d[0 := buf[p]][1 := 0][1 := buf[p + 1]];
        if data[1] == 0 { return M.Abort; }
        if M.IsActCode(data[1]) {
          if p + 2 >= layout.macroSize { return M.PastEnd; }
          assert bytes[layout.MacroAddr() + p + 2] == buf[p + 2];
          data[2] := bytes[layout.MacroAddr() + p + 2];
          if data[2] == 0 { return M.Abort; }
          data[3] := 0;
          assert data[..] == d[0 := buf[p]][1 := 0][1 := buf[p + 1]][2 := buf[p + 2]][3 := 0];
          return M.Send(p + 3, data[..]);
        } else if data[1] == M.DELAY_CODE {
          t := ReadDelay(p + 2, data);
          return t;
        }
        return M.Send(p + 2, data[..]);
      }
      return M.Send(p + 1, data[..]);
    }

    /** `dynamic_keymap_macro_send`: the strings handed to `send_string_with_delay`; where the source would
        read past the macro region the method stops and says so. */
    method MacroSend(id: nat, count: nat) returns (chunks: seq<seq<byte>>, pastEnd: bool)
      requires Valid() && layout.macroSize > 0
      ensures M.Result(chunks, pastEnd) == M.MacroSend(bytes[layout.MacroAddr()..layout.End()], id, count)
    {
      hide M.NextToken, M.SendFrom, Layout.KeymapSize, Layout.EncoderSize;
      ghost var buf := bytes[layout.MacroAddr()..layout.End()];
      if id >= count { return [], false; }
      if bytes[layout.MacroAddr() + layout.macroSize - 1] != 0 { return [], false; }
      var p, left := 0, id;
      while left > 0
        invariant p <= layout.macroSize && M.Skip(buf, 0, id) == M.Skip(buf, p, left)
        decreases layout.macroSize - p
      {
        if p == layout.macroSize { return [], false; }
        assert bytes[layout.MacroAddr() + p] == buf[p];
        if bytes[layout.MacroAddr() + p] == 0 { left := left - 1; }
        p := p + 1;
      }
      var data := new byte[M.CHUNK_SIZE](_ => 0);
      assert data[..] == M.EMPTY;
      chunks, pastEnd := SendStrings(p, data);
    }

    /** The reading loop of `dynamic_keymap_macro_send`. */
    method SendStrings(p0: nat, data: array<byte>) returns (chunks: seq<seq<byte>>, pastEnd: bool)
      requires Valid() && data.Length == M.CHUNK_SIZE && data != bytes
      modifies data
      ensures M.Result(chunks, pastEnd) == M.SendFrom(bytes[layout.MacroAddr()..layout.End()], p0, old(data[..]))
    {
      hide M.NextToken, Layout.KeymapSize, Layout.EncoderSize;
      ghost var buf := bytes[layout.MacroAddr()..layout.End()];
      ghost var target := M.SendFrom(buf, p0, data[..]);
      chunks := [];
      var p := p0;
      while true
        invariant bytes[layout.MacroAddr()..layout.End()] == buf
        invariant target == (var rest := M.SendFrom(buf, p, data[..]); M.Result(chunks + rest.chunks, rest.pastEnd))
        decreases |buf| - p
      {
        M.TokenAdvances(buf, p, data[..]);
        ghost var rest := M.SendFrom(buf, p, data[..]);
        var t := ReadToken(p, data);
        if t.PastEnd? { return chunks, true; }
        if !t.Send? { return chunks, false; }
        assert chunks + rest.chunks == chunks + [M.CString(t.data)] + M.SendFrom(buf, t.next, t.data).chunks;
        chunks := chunks + [M.CString(data[..])];
        p := t.next;
      }
    }
  }
}
