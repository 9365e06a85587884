/** The conversions of `util/uf2conv.py` in their own form: loops that append to an output, keep an expected
    address, and write into 256-byte blocks in place. */
module Uf2Engine {
  import opened Bytes
  import opened Uf2Model

  /** A block that is being filled from a HEX file. */
  class Block {
    const addr: nat
    const bytes: array<byte>

    constructor (addr: nat)
      ensures fresh(bytes) && this.addr == addr && bytes.Length == PAYLOAD && bytes[..] == Zeros(PAYLOAD)
    {
      this.addr := addr;
      bytes := new byte[PAYLOAD](_ => 0);
    }
  }

  class Converter {
    const settings: Settings
    var appstartaddr: nat

    constructor (settings: Settings)
      ensures this.settings == settings && appstartaddr == 0x2000
    {
      this.settings := settings;
      appstartaddr := 0x2000;
    }

    /** `convert_to_uf2` */
    method ConvertToUf2(content: seq<byte>) returns (o: Output)
      requires SettingsOk(settings)
      ensures o == ToUf2(settings, appstartaddr, content)
    {
      hide BinChunks, EncodeBlock, Tail, Header;
      var numblocks := (|content| + 255) / 256;
      ghost var ks := BinChunks(content, appstartaddr, numblocks);
      var outp: seq<byte> := [];
      for blockno := 0 to numblocks
        invariant blockno > 0 ==> numblocks < TWO32
        invariant forall i :: 0 <= i < blockno ==> ks[i].addr < TWO32
        invariant Packable(ks) ==> outp == EncodeBlocks(settings, false, ks, blockno)
      {
        var ptr := 256 * blockno;
        var chunk := PadChunk(if ptr + 256 <= |content| then content[ptr..ptr + 256] else content[ptr..]);
        ChunkAt(content, appstartaddr, numblocks, blockno);
        if ptr + appstartaddr >= TWO32 || numblocks >= TWO32 { return Raised; }
        var block := MakeBlock(false, ptr + appstartaddr, chunk, blockno, numblocks);
        outp := outp + block;
      }
      return Written(outp);
    }

    method PadChunk(given: seq<byte>) returns (chunk: Payload)
      requires |given| <= PAYLOAD
      ensures chunk == given + Zeros(PAYLOAD - |given|)
    {
      var c := given;
      while |c| < 256
        invariant |given| <= |c| <= 256 && c == given + Zeros(|c| - |given|)
      {
        c := c + [0];
      }
      chunk := c;
    }

    /** One 512-byte block: header, payload, and what follows it. */
    method MakeBlock(withDevice: bool, addr: nat, payload: Payload, blockno: nat, numblocks: nat)
      returns (block: seq<byte>)
      requires SettingsOk(settings) && addr < TWO32 && blockno < TWO32 && numblocks < TWO32
      ensures block == EncodeBlock(settings, withDevice, Chunk(addr, payload), blockno, numblocks)
    {
      var hd := PackHeader(withDevice, addr, blockno, numblocks);
      hide Header, Flags, Le32;
      hd := hd + payload;
      if withDevice && settings.device != 0 {
        hd := hd + ([0x08, 0x29, 0xA7, 0xC8] + Le32(settings.device));
      }
      hd := PadBlock(hd);
      block := hd + Le32(MAGIC_END);
    }

    /** The eight header words. */
    method PackHeader(withDevice: bool, addr: nat, blockno: nat, numblocks: nat) returns (hd: seq<byte>)
      requires SettingsOk(settings) && addr < TWO32 && blockno < TWO32 && numblocks < TWO32
      ensures hd == Header(Flags(settings, withDevice), addr, blockno, numblocks, settings.family)
    {
      hide Le32;
      var flags := 0;
      if settings.family != 0 { flags := flags + HAS_FAMILY; }
      if withDevice && settings.device != 0 { flags := flags + HAS_DEVICE; }
      hd := Le32(MAGIC_START0) + Le32(MAGIC_START1) + Le32(flags) + Le32(addr);
      hd := hd + Le32(256) + Le32(blockno) + Le32(numblocks) + Le32(settings.family);
    }

    /** The padding loop of `encode`. */
    method PadBlock(given: seq<byte>) returns (hd: seq<byte>)
      requires |given| <= 508
      ensures hd == given + Zeros(508 - |given|)
    {
      hd := given;
      while |hd| < 512 - 4
        invariant |given| <= |hd| <= 508 && hd == given + Zeros(|hd| - |given|)
      {
        hd := hd + [0];
      }
    }

    /** `convert_from_uf2`, with the per-file report left out */
    method ConvertFromUf2(buf: seq<byte>) returns (o: Output)
      modifies this
      ensures o == FromUf2(settings.family, old(appstartaddr), buf)
      ensures o.Written? ==> appstartaddr == ReadBlocks(settings.family, old(appstartaddr), buf, |buf| / BLOCK).r.start
    {
      hide ReadBlock;
      var r := Fresh(appstartaddr);
      for blockno := 0 to |buf| / BLOCK
        invariant ReadBlocks(settings.family, old(appstartaddr), buf, blockno) == Goes(r)
        invariant appstartaddr == r.start
      {
        var block := buf[BLOCK * blockno..BLOCK * (blockno + 1)];
        var next := ReadOne(r, block, blockno + 1 == |buf| / BLOCK);
        if next.Failed? {
          FailureStays(settings.family, old(appstartaddr), buf, blockno + 1, |buf| / BLOCK);
          return Raised;
        }
        r := next.r;
        appstartaddr := r.start;
      }
      return Written(r.out);
    }

    /** One iteration of `convert_from_uf2`. */
    method ReadOne(r: Reader, block: seq<byte>, last: bool) returns (o: Read)
      requires |block| == BLOCK
      ensures o == ReadBlock(settings.family, r, block, last)
    {
      hide Word, HasBit;
      var flags, newaddr, datalen, id := Word(block, 2), Word(block, 3), Word(block, 4), Word(block, 7);
      if Word(block, 0) != MAGIC_START0 || Word(block, 1) != MAGIC_START1 { return Failed; }
      if HasBit(flags, NO_FLASH) { return Goes(r); }
      if datalen > 476 { return Failed; }
      var curraddr, currfamilyid, outp, families, start := r.curr, r.family, r.out, r.families, r.start;
      if HasBit(flags, HAS_FAMILY) && currfamilyid == -1 {
        currfamilyid := id;
      }
      if curraddr == -1 || (HasBit(flags, HAS_FAMILY) && id != currfamilyid) {
        currfamilyid := id;
        curraddr := newaddr;
        if settings.family == 0 || settings.family == id { start := newaddr; }
      }
      var padding := newaddr - curraddr;
      if padding < 0 || padding > MAX_PADDING || padding % 4 != 0 { return Failed; }
      outp := AppendPadding(outp, padding);
      if settings.family == 0 || (HasBit(flags, HAS_FAMILY) && settings.family == id) {
        outp := outp + block[32..32 + datalen];
      } else {
        assert outp + [] == outp;
      }
      curraddr := newaddr + datalen;
      if HasBit(flags, HAS_FAMILY) { families := families + {id}; }
      if last && |families| > 1 && settings.family == 0 {
        outp := [];
        start := 0;
      }
      return Goes(Reader(curraddr, currfamilyid, outp, families, start));
    }

    method AppendPadding(out0: seq<byte>, padding0: nat) returns (outp: seq<byte>)
      requires padding0 % 4 == 0
      ensures outp == out0 + Zeros(padding0)
    {
      outp := out0;
      var padding := padding0;
      while padding > 0
        invariant 0 <= padding <= padding0 && padding % 4 == 0
        invariant outp == out0 + Zeros(padding0 - padding)
      {
        padding := padding - 4;
        outp := outp + [0, 0, 0, 0];
      }
    }

    /** `rec` of one line of a HEX file. */
    method ParseRecord(line: string) returns (p: Parsed)
      requires line != "" && line[0] == ':'
      ensures p == ParsePairs(line, 1)
    {
      hide HexValue, PairValue;
      var i := 1;
      var rec: seq<byte> := [];
      ghost var target := ParsePairs(line, 1);
      PrependNothing(target);
      while i < |line| - 1
        invariant 1 <= i && target == Prepend(rec, ParsePairs(line, i))
        decreases |line| - i
      {
        var value := PairValue(line[i], line[i + 1]);
        if value < 0 { return Unreadable; }
        PrependOne(rec, value, ParsePairs(line, i + 2));
        rec := rec + [value];
        i := i + 2;
      }
      assert rec + [] == rec;
      return Uf2Model.Bytes(rec);
    }

    /** `convert_from_hex_to_uf2` */
    method ConvertFromHexToUf2(text: string) returns (o: Output)
      requires SettingsOk(settings)
      ensures o == HexToUf2(settings, text)
    {
      hide Fill, ReadLine, Chunks;
      var lines := Split(text);
      var upper: nat, ended := 0, false;
      var blocks: seq<Block>, currblock: Block? := [], null;
      ghost var cells: seq<Cell> := [];
      NothingFilled();
      var n := 0;
      while n < |lines| && !ended
        invariant n <= |lines| && ReadLines(lines, n) == Hex(upper, ended, cells)
        invariant Stores(blocks, currblock, cells) && fresh(BlockArrays(blocks))
      {
        var raised;
        raised, upper, ended, blocks, currblock, cells := ReadHexLine(lines[n], upper, blocks, currblock, cells);
        n := n + 1;
        if raised {
          BrokenStays(lines, n, |lines|);
          return Raised;
        }
      }
      if ended { EndedStays(lines, n, |lines|); }
      o := EncodeAll(blocks);
    }

    /** One line: `upper` and the end flag change, or data bytes are stored, or an exception is raised. */
    method ReadHexLine(line: string, upper0: nat, blocks0: seq<Block>, currblock0: Block?, ghost cells0: seq<Cell>)
      returns (raised: bool, upper: nat, ended: bool, blocks: seq<Block>, currblock: Block?, ghost cells: seq<Cell>)
      requires Stores(blocks0, currblock0, cells0)
      modifies BlockArrays(blocks0)
      ensures var h := ReadLine(Hex(upper0, false, cells0), line);
              if raised then h.Broken? else h == Hex(upper, ended, cells)
      ensures Stores(blocks, currblock, cells) && fresh(BlockArrays(blocks) - BlockArrays(blocks0))
    {
      hide Fill, ParsePairs, Chunks, Filling, DataCells;
      raised, upper, ended, blocks, currblock, cells := false, upper0, false, blocks0, currblock0, cells0;
      if line == "" {
        raised := true;
      } else if line[0] == ':' {
        var p := ParseRecord(line);
        if p.Unreadable? {
          raised := true;
          return;
        }
        var rec := p.raw;
        if |rec| < 4 {
          raised := true;
        } else if rec[3] == 4 {
          if |rec| < 6 { raised := true; return; }
          upper := (rec[4] as int * 0x100 + rec[5] as int) * 0x1_0000;
        } else if rec[3] == 2 {
          if |rec| < 6 { raised := true; return; }
          upper := (rec[4] as int * 0x100 + rec[5] as int) * 0x10;
        } else if rec[3] == 1 {
          ended := true;
        } else if rec[3] == 0 {
          var addr := upper + rec[1] as int * 0x100 + rec[2] as int;
          blocks, currblock := StoreData(blocks, currblock, rec, addr, cells);
          cells := cells + DataCells(rec, addr, if |rec| < 5 then 0 else |rec| - 5);
        }
      }
    }

    /** The data bytes of a record go into the current block, or into a new one when the page changes. */
    method StoreData(blocks0: seq<Block>, currblock0: Block?, rec: Raw, addr0: nat, ghost cells: seq<Cell>)
      returns (blocks: seq<Block>, currblock: Block?)
      requires |rec| >= 4 && Stores(blocks0, currblock0, cells)
      modifies BlockArrays(blocks0)
      ensures Stores(blocks, currblock, cells + DataCells(rec, addr0, if |rec| < 5 then 0 else |rec| - 5))
      ensures fresh(BlockArrays(blocks) - BlockArrays(blocks0))
    {
      hide Fill, Filling, Chunks, Stores;
      blocks, currblock := blocks0, currblock0;
      var i := 4;
      var addr := addr0;
      assert cells + [] == cells;
      while i < |rec| - 1
        invariant 4 <= i && (|rec| >= 5 ==> i <= |rec| - 1) && addr == addr0 + i - 4
        invariant Stores(blocks, currblock, cells + DataCells(rec, addr0, if |rec| < 5 then 0 else i - 4))
        invariant fresh(BlockArrays(blocks) - BlockArrays(blocks0))
      {
        ghost var before := cells + DataCells(rec, addr0, i - 4);
        assert cells + DataCells(rec, addr0, i - 3) == before + [Cell(addr, rec[i])];
        blocks, currblock := StoreByte(blocks, currblock, addr, rec[i], before);
        addr := addr + 1;
        i := i + 1;
      }
    }

    method StoreByte(blocks0: seq<Block>, currblock0: Block?, addr: nat, value: byte, ghost cells: seq<Cell>)
      returns (blocks: seq<Block>, currblock: Block?)
      requires Stores(blocks0, currblock0, cells)
      modifies BlockArrays(blocks0)
      ensures Stores(blocks, currblock, cells + [Cell(addr, value)]) &&
              fresh(BlockArrays(blocks) - BlockArrays(blocks0))
    {
      assert (cells + [Cell(addr, value)])[..|cells|] == cells;
      blocks, currblock := blocks0, currblock0;
      if currblock == null || Page(currblock.addr) != Page(addr) {
        currblock := new Block(256 * Page(addr));
        blocks := blocks + [currblock];
      }
      currblock.bytes[addr % 256] := value;
    }

    /** The UF2 blocks of the filled blocks, one after the other. */
    method EncodeAll(blocks: seq<Block>) returns (o: Output)
      requires SettingsOk(settings) && (forall b :: b in blocks ==> b.bytes.Length == PAYLOAD)
      ensures var ks := Chunks(blocks);
              o == if Packable(ks) then Written(EncodeBlocks(settings, true, ks, |ks|)) else Raised
    {
      hide EncodeBlock;
      ghost var ks := Chunks(blocks);
      var resfile: seq<byte> := [];
      for i := 0 to |blocks|
        invariant (|blocks| < TWO32 || i == 0) && Chunks(blocks) == ks
        invariant forall j :: 0 <= j < i ==> ks[j].addr < TWO32
        invariant Packable(ks) ==> resfile == EncodeBlocks(settings, true, ks, i)
      {
        if blocks[i].addr >= TWO32 || |blocks| >= TWO32 {
          assert ks[i].addr == blocks[i].addr;
          return Raised;
        }
        var block := MakeBlock(true, blocks[i].addr, blocks[i].bytes[..], i, |blocks|);
        resfile := resfile + block;
      }
      return Written(resfile);
    }
  }

  // ---------------------------------------------------------------- specification of the loops

  lemma {:induction false} ChunkAt(content: seq<byte>, start: nat, n: nat, k: nat)
    requires PAYLOAD * n < |content| + PAYLOAD && k < n
    ensures var ptr := PAYLOAD * k;
            var chunk := if ptr + PAYLOAD <= |content| then content[ptr..ptr + PAYLOAD] else content[ptr..];
            BinChunks(content, start, n)[k] == Chunk(ptr + start, chunk + Zeros(PAYLOAD - |chunk|))
  {
    if k < n - 1 { ChunkAt(content, start, n - 1, k); }
  }

  lemma {:induction false} FailureStays(family: nat, start: nat, buf: seq<byte>, n: nat, m: nat)
    requires n <= m && BLOCK * m <= |buf| && ReadBlocks(family, start, buf, n).Failed?
    ensures ReadBlocks(family, start, buf, m).Failed?
    decreases m
  {
    hide ReadBlock;
    if n < m { FailureStays(family, start, buf, n, m - 1); }
  }

  lemma {:induction false} BrokenStays(lines: seq<string>, n: nat, m: nat)
    requires n <= m <= |lines| && ReadLines(lines, n).Broken?
    ensures ReadLines(lines, m).Broken?
    decreases m
  {
    hide ReadRecord, ParsePairs;
    if n < m { BrokenStays(lines, n, m - 1); }
  }

  lemma {:induction false} EndedStays(lines: seq<string>, n: nat, m: nat)
    requires n <= m <= |lines| && ReadLines(lines, n).Hex? && ReadLines(lines, n).ended
    ensures ReadLines(lines, m) == ReadLines(lines, n)
    decreases m
  {
    hide ReadRecord, ParsePairs;
    if n < m { EndedStays(lines, n, m - 1); }
  }

  /** The blocks as values. */
  function Chunks(blocks: seq<Block>): (ks: seq<Chunk>)
    requires forall b :: b in blocks ==> b.bytes.Length == PAYLOAD
    reads BlockArrays(blocks)
  {
    seq(|blocks|, i requires 0 <= i < |blocks| reads BlockArrays(blocks) => Chunk(blocks[i].addr, blocks[i].bytes[..]))
  }

  function BlockArrays(blocks: seq<Block>): set<array<byte>> {
    set i | 0 <= i < |blocks| :: blocks[i].bytes
  }

  /** The current block is the last one, and no two blocks share their bytes. */
  predicate Filling(blocks: seq<Block>, currblock: Block?) {
    && (forall b :: b in blocks ==> b.bytes.Length == PAYLOAD)
    && (if blocks == [] then currblock == null else currblock == blocks[|blocks| - 1])
    && (forall i, j :: 0 <= i < j < |blocks| ==> blocks[i].bytes != blocks[j].bytes)
  }

  /** The blocks hold the data bytes so far. */
  predicate Stores(blocks: seq<Block>, currblock: Block?, cells: seq<Cell>)
    reads BlockArrays(blocks)
  {
    Filling(blocks, currblock) && Chunks(blocks) == Fill(cells)
  }

  lemma NothingFilled()
    ensures Stores([], null, [])
  {}

  function Prepend(rec: seq<byte>, p: Parsed): Parsed {
    if p.Unreadable? then p else Uf2Model.Bytes(rec + p.raw)
  }

  lemma PrependNothing(p: Parsed)
    ensures Prepend([], p) == p
  {
    if p.Bytes? { assert [] + p.raw == p.raw; }
  }

  lemma PrependOne(rec: seq<byte>, b: byte, p: Parsed)
    ensures Prepend(rec + [b], p) == Prepend(rec, Prepend([b], p))
  {
    if p.Bytes? { assert rec + [b] + p.raw == rec + ([b] + p.raw); }
  }
}
