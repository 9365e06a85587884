/** Every block of a written UF2 file, word by word: what a bootloader reads. */
module Uf2Blocks {
  import opened Bytes
  import opened Uf2Model
  import opened Uf2Proofs

  const TAG_WORD: nat := 0xC8A7_2908

  /** The block at a given place of a file. */
  function FileBlock(file: seq<byte>, i: nat): (b: seq<byte>)
    requires BLOCK * (i + 1) <= |file|
    ensures |b| == BLOCK
  {
    file[BLOCK * i..BLOCK * (i + 1)]
  }

  /** A block as the UF2 format has it: number `no` of `count`, with 256 bytes of data for an address, the family if one
      is given, and the device type if one is given, in a tag of eight bytes behind the data. */
  predicate Describes(b: seq<byte>, no: nat, count: nat, addr: nat, data: Payload, family: nat, device: nat)
    requires |b| == BLOCK
  {
    && b[0..4] == [0x55, 0x46, 0x32, 0x0A]
    && Word(b, 0) == MAGIC_START0 && Word(b, 1) == MAGIC_START1 && Word(b, 127) == MAGIC_END
    && Word(b, 2) == (if family != 0 then HAS_FAMILY else 0) + (if device != 0 then HAS_DEVICE else 0)
    && Word(b, 3) == addr && Word(b, 4) == 256 && Word(b, 5) == no && Word(b, 6) == count && Word(b, 7) == family
    && b[32..288] == data
    && (device != 0 ==> Word(b, 72) == TAG_WORD && Word(b, 73) == device)
    && forall j :: (if device != 0 then 296 else 288) <= j < 508 ==> b[j] == 0
  }

  /** The words behind the data. */
  lemma TailWords(c: Settings, withDevice: bool, head: seq<byte>)
    requires SettingsOk(c) && |head| == 288
    ensures var b := head + Tail(c, withDevice);
            var device := if withDevice then c.device else 0;
            && Word(b, 127) == MAGIC_END
            && (device != 0 ==> Word(b, 72) == TAG_WORD && Word(b, 73) == device)
            && forall j :: (if device != 0 then 296 else 288) <= j < 508 ==> b[j] == 0
  {
    hide Le32, FromLe32;
    var b := head + Tail(c, withDevice);
    assert b[508..512] == Le32(MAGIC_END);
    WordAt(b, 127, MAGIC_END, Le32(MAGIC_END));
    if withDevice && c.device != 0 {
      assert b[288..292] == [0x08, 0x29, 0xA7, 0xC8] && b[292..296] == Le32(c.device);
      TagBytes();
      WordAt(b, 72, TAG_WORD, [0x08, 0x29, 0xA7, 0xC8]);
      WordAt(b, 73, c.device, Le32(c.device));
    }
  }

  lemma TagBytes()
    ensures Le32(TAG_WORD) == [0x08, 0x29, 0xA7, 0xC8]
  {}

  lemma MagicBytes()
    ensures Le32(MAGIC_START0) == [0x55, 0x46, 0x32, 0x0A]
  {}

  lemma BlockDescribes(c: Settings, withDevice: bool, k: Chunk, no: nat, count: nat)
    requires SettingsOk(c) && k.addr < TWO32 && no < TWO32 && count < TWO32
    ensures Describes(EncodeBlock(c, withDevice, k, no, count), no, count, k.addr, k.data, c.family,
              if withDevice then c.device else 0)
  {
    hide Word, Le32, Tail;
    var h, t := Header(Flags(c, withDevice), k.addr, no, count, c.family), Tail(c, withDevice);
    var b := EncodeBlock(c, withDevice, k, no, count);
    HeaderWords(Flags(c, withDevice), k.addr, no, count, c.family, k.data + t);
    assert b == h + (k.data + t) && b == (h + k.data) + t;
    TailWords(c, withDevice, h + k.data);
    MagicBytes();
    assert b[0..4] == h[0..4] == Le32(MAGIC_START0);
    assert b[32..288] == k.data;
  }

  lemma FileDescribes(c: Settings, withDevice: bool, ks: seq<Chunk>, i: nat)
    requires SettingsOk(c) && Packable(ks) && i < |ks|
    ensures Describes(FileBlock(EncodeBlocks(c, withDevice, ks, |ks|), i), i, |ks|, ks[i].addr, ks[i].data, c.family,
              if withDevice then c.device else 0)
  {
    hide Describes, EncodeBlock, EncodeBlocks;
    BlockAt(c, withDevice, ks, |ks|, i);
    BlockDescribes(c, withDevice, ks[i], i, |ks|);
  }

  /** The 256 bytes of a binary from some place on, zeros behind its end. */
  function DataAt(content: seq<byte>, at: nat): (data: Payload) {
    seq(PAYLOAD, j requires 0 <= j < PAYLOAD => if at + j < |content| then content[at + j] else 0)
  }

  lemma {:induction false} BinChunkAt(content: seq<byte>, start: nat, n: nat, i: nat)
    requires PAYLOAD * n < |content| + PAYLOAD && i < n
    ensures BinChunks(content, start, n)[i] == Chunk(start + PAYLOAD * i, DataAt(content, PAYLOAD * i))
  {
    if i < n - 1 { BinChunkAt(content, start, n - 1, i); }
  }

  /** A file written from a binary has a block for every 256 bytes begun, numbered from 0, for consecutive addresses
      from the start address on. */
  lemma BinBlocks(c: Settings, start: nat, content: seq<byte>, i: nat)
    requires SettingsOk(c) && ToUf2(c, start, content).Written?
    ensures var file, n := ToUf2(c, start, content).bytes, (|content| + 255) / 256;
            && |file| == 512 * n
            && (i < n ==> Describes(FileBlock(file, i), i, n, start + 256 * i, DataAt(content, 256 * i), c.family, 0))
  {
    hide Describes, EncodeBlocks, DataAt;
    var n := NumBlocks(content);
    if i < n {
      FileDescribes(c, false, BinChunks(content, start, n), i);
      BinChunkAt(content, start, n, i);
    }
  }

  /** A file written from Intel HEX has a block for every page filled in turn, numbered from 0, with the address and
      bytes of that page. */
  lemma HexBlocks(c: Settings, text: string, i: nat)
    requires SettingsOk(c) && HexToUf2(c, text).Written?
    ensures var file, lines := HexToUf2(c, text).bytes, Split(text);
            var ks := Fill(ReadLines(lines, |lines|).cells);
            && |file| == 512 * |ks|
            && (i < |ks| ==>
                  Describes(FileBlock(file, i), i, |ks|, ks[i].addr, ks[i].data, c.family, c.device))
  {
    hide Describes, EncodeBlocks, ReadLines, Fill;
    var lines := Split(text);
    var ks := Fill(ReadLines(lines, |lines|).cells);
    if i < |ks| { FileDescribes(c, true, ks, i); }
  }
}
