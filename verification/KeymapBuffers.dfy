/** The buffer view of the keymap and of the macros: `dynamic_keymap_set_buffer`, its macro counterpart
    and the two matching reads, in any chunks, against the key-by-key view. */
module KeymapBuffers {
  import opened Bytes
  import opened KeymapStorage

  /** The bytes updated in a region of `size` bytes at `base`; what lies beyond the region is skipped. */
  function BufferWrites(base: nat, size: nat, offset: nat, data: seq<byte>): (ws: seq<Write>) {
    if data == [] then []
    else
      var i := |data| - 1;
      BufferWrites(base, size, offset, data[..i])
      + (if offset + i < size then [Write(base + offset + i, data[i])] else [])
  }

  /** The bytes read from the region; zero beyond it. */
  function ReadBuffer(e: Memory, base: nat, size: nat, offset: nat, n: nat): (data: seq<byte>)
    requires base + size <= |e|
    ensures |data| == n
  {
    seq(n, i requires 0 <= i < n => if offset + i < size then e[base + offset + i] else 0)
  }

  /** A buffer write overlays the part of the region it covers, and nothing else. */
  lemma {:induction false} BufferByte(e: Memory, base: nat, size: nat, offset: nat, data: seq<byte>, a: nat)
    requires a < |e| && base + size <= |e|
    ensures UpdateAll(e, BufferWrites(base, size, offset, data))[a] ==
            if base + offset <= a < base + offset + |data| && a < base + size then data[a - base - offset] else e[a]
    decreases |data|
  {
    if data != [] {
      var i := |data| - 1;
      var ws := BufferWrites(base, size, offset, data[..i]);
      BufferByte(e, base, size, offset, data[..i], a);
      if offset + i < size {
        var w := Write(base + offset + i, data[i]);
        assert (ws + [w])[..|ws|] == ws;
      } else {
        assert ws + [] == ws;
      }
    }
  }

  /** Writing in two chunks is writing at once. */
  lemma {:induction false} ChunksAreOneWrite(base: nat, size: nat, offset: nat, a: seq<byte>, b: seq<byte>)
    ensures BufferWrites(base, size, offset, a + b) ==
            BufferWrites(base, size, offset, a) + BufferWrites(base, size, offset + |a|, b)
    decreases |b|
  {
    if b == [] {
      assert a + b == a;
    } else {
      assert (a + b)[..|a + b| - 1] == a + b[..|b| - 1];
      ChunksAreOneWrite(base, size, offset, a, b[..|b| - 1]);
    }
  }

  function Flatten(chunks: seq<seq<byte>>): (data: seq<byte>) {
    if chunks == [] then [] else Flatten(chunks[..|chunks| - 1]) + chunks[|chunks| - 1]
  }

  /** The writes of a transfer in consecutive chunks. */
  function ChunkedWrites(base: nat, size: nat, offset: nat, chunks: seq<seq<byte>>): (ws: seq<Write>) {
    if chunks == [] then []
    else
      var before := chunks[..|chunks| - 1];
      ChunkedWrites(base, size, offset, before)
      + BufferWrites(base, size, offset + |Flatten(before)|, chunks[|chunks| - 1])
  }

  lemma ChunksLast(base: nat, size: nat, offset: nat, before: seq<seq<byte>>, last: seq<byte>)
    ensures Flatten(before + [last]) == Flatten(before) + last
    ensures ChunkedWrites(base, size, offset, before + [last]) ==
            ChunkedWrites(base, size, offset, before) + BufferWrites(base, size, offset + |Flatten(before)|, last)
  {
    assert (before + [last])[..|before|] == before;
  }

  /** Any chunking of a transfer makes the same updates as one call. */
  lemma {:induction false} AnyChunking(base: nat, size: nat, offset: nat, chunks: seq<seq<byte>>)
    ensures ChunkedWrites(base, size, offset, chunks) == BufferWrites(base, size, offset, Flatten(chunks))
  {
    if chunks != [] {
      hide Flatten, ChunkedWrites, BufferWrites;
      var before, last := chunks[..|chunks| - 1], chunks[|chunks| - 1];
      assert chunks == before + [last];
      AnyChunking(base, size, offset, before);
      ChunksLast(base, size, offset, before, last);
      ChunksAreOneWrite(base, size, offset, Flatten(before), last);
    }
  }

  /** What was written is read back inside the region, and zero beyond it. */
  lemma ReadBackBuffer(e: Memory, base: nat, size: nat, offset: nat, data: seq<byte>)
    requires base + size <= |e|
    ensures ReadBuffer(UpdateAll(e, BufferWrites(base, size, offset, data)), base, size, offset, |data|) ==
            seq(|data|, i requires 0 <= i < |data| => if offset + i < size then data[i] else 0)
  {
    var e' := UpdateAll(e, BufferWrites(base, size, offset, data));
    hide UpdateAll, BufferWrites;
    forall i | 0 <= i < |data| && offset + i < size ensures e'[base + offset + i] == data[i] {
      BufferByte(e, base, size, offset, data, base + offset + i);
    }
  }

  function BigEndian(hi: byte, lo: byte): word {
    (hi as int) * 0x100 + lo as int
  }

  /** The keymap buffer is the keys in layer, row, column order, two bytes each, high byte first. */
  lemma BufferViewsKeys(l: Layout, e: Memory, p: Position)
    requires l.End() <= |e| && InMap(l, p) && p.KeyAt?
    ensures var b := ReadBuffer(e, l.KeymapAddr(), l.KeymapSize(), 0, l.KeymapSize());
            var i := 2 * KeyNumber(l, p);
            i + 1 < |b| && Get(l, e, p) == BigEndian(b[i], b[i + 1])
  {
    AddressByNumber(l, p);
    AddressInRegion(l, p);
    assert l.EncoderAddr() <= |e|;
  }

  /** The byte at `a` after writing `data` at `start`. */
  function Overlaid(e: Memory, start: nat, data: seq<byte>, a: nat): byte
    requires a < |e|
  {
    if start <= a < start + |data| then data[a - start] else e[a]
  }

  lemma WordAfterBufferWrite(e: Memory, base: nat, size: nat, offset: nat, data: seq<byte>, a: nat)
    requires base <= a && a + 2 <= base + size <= |e|
    ensures Word(UpdateAll(e, BufferWrites(base, size, offset, data)), a) ==
            BigEndian(Overlaid(e, base + offset, data, a), Overlaid(e, base + offset, data, a + 1))
  {
    hide UpdateAll, BufferWrites;
    BufferByte(e, base, size, offset, data, a);
    BufferByte(e, base, size, offset, data, a + 1);
  }

  /** A key read after a buffer write: the written bytes where the buffer covers the key, the old
      bytes elsewhere. */
  lemma KeyAfterBufferWrite(l: Layout, e: Memory, offset: nat, data: seq<byte>, p: Position)
    requires l.End() <= |e| && InMap(l, p) && p.KeyAt?
    ensures Address(l, p) + 1 < |e|
    ensures var a, start := Address(l, p), l.KeymapAddr() + offset;
            Get(l, UpdateAll(e, BufferWrites(l.KeymapAddr(), l.KeymapSize(), offset, data)), p) ==
            BigEndian(Overlaid(e, start, data, a), Overlaid(e, start, data, a + 1))
  {
    hide Address, InMap, UpdateAll, BufferWrites, Layout.KeymapSize, Layout.EncoderSize, Overlaid, BigEndian, Word;
    AddressInRegion(l, p);
    WordAfterBufferWrite(e, l.KeymapAddr(), l.KeymapSize(), offset, data, Address(l, p));
  }

  /** A keymap buffer write changes no encoder and no byte outside the keymap. */
  lemma BufferWriteStaysInside(l: Layout, e: Memory, offset: nat, data: seq<byte>, p: Position, a: nat)
    requires l.End() <= |e| && a < |e| && !(l.KeymapAddr() <= a < l.EncoderAddr())
    ensures var e' := UpdateAll(e, BufferWrites(l.KeymapAddr(), l.KeymapSize(), offset, data));
            e'[a] == e[a] && (p.EncoderAt? ==> Get(l, e', p) == Get(l, e, p))
  {
    hide Address, UpdateAll, BufferWrites, Layout.KeymapSize, Layout.EncoderSize;
    BufferByte(e, l.KeymapAddr(), l.KeymapSize(), offset, data, a);
    if p.EncoderAt? && InMap(l, p) {
      AddressInRegion(l, p);
      BufferByte(e, l.KeymapAddr(), l.KeymapSize(), offset, data, Address(l, p));
      BufferByte(e, l.KeymapAddr(), l.KeymapSize(), offset, data, Address(l, p) + 1);
    }
  }
}
