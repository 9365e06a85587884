/** Reading back what was written: UF2 files made from binaries and from Intel HEX files. */
module Uf2Proofs {
  import opened Bytes
  import opened Uf2Model

  // ---------------------------------------------------------------- words and blocks

  lemma Le32RoundTrip(n: nat)
    requires n < TWO32
    ensures FromLe32(Le32(n)) == n
  {
    assert n / 0x1_0000 == n / 0x100 / 0x100 && n / 0x100_0000 == n / 0x100 / 0x100 / 0x100;
  }

  /** The header fields of a written block. */
  lemma HeaderWords(flags: nat, addr: nat, no: nat, count: nat, family: nat, rest: seq<byte>)
    requires flags < TWO32 && addr < TWO32 && no < TWO32 && count < TWO32 && family < TWO32
    ensures var b := Header(flags, addr, no, count, family) + rest;
            && Word(b, 0) == MAGIC_START0 && Word(b, 1) == MAGIC_START1 && Word(b, 2) == flags
            && Word(b, 3) == addr && Word(b, 4) == PAYLOAD
            && Word(b, 5) == no && Word(b, 6) == count && Word(b, 7) == family
  {
    var b := Header(flags, addr, no, count, family) + rest;
    var m0, m1, f, a := Le32(MAGIC_START0), Le32(MAGIC_START1), Le32(flags), Le32(addr);
    var p, n, c, i := Le32(PAYLOAD), Le32(no), Le32(count), Le32(family);
    hide Le32, FromLe32;
    assert b == m0 + m1 + f + a + p + n + c + i + rest;
    assert b[0..4] == m0 && b[4..8] == m1 && b[8..12] == f && b[12..16] == a && b[16..20] == p;
    assert b[20..24] == n && b[24..28] == c && b[28..32] == i;
    WordAt(b, 0, MAGIC_START0, m0);
    WordAt(b, 1, MAGIC_START1, m1);
    WordAt(b, 2, flags, f);
    WordAt(b, 3, addr, a);
    WordAt(b, 4, PAYLOAD, p);
    WordAt(b, 5, no, n);
    WordAt(b, 6, count, c);
    WordAt(b, 7, family, i);
  }

  lemma WordAt(b: seq<byte>, k: nat, n: nat, s: seq<byte>)
    requires n < TWO32 && s == Le32(n) && 4 * k + 4 <= |b| && b[4 * k..4 * k + 4] == s
    ensures Word(b, k) == n
  {
    Le32RoundTrip(n);
  }

  lemma FlagBits(c: Settings, withDevice: bool)
    ensures var f := Flags(c, withDevice);
            f < TWO32 && !HasBit(f, NO_FLASH) && (HasBit(f, HAS_FAMILY) <==> c.family != 0)
  {}

  // ---------------------------------------------------------------- the image of a list of chunks

  /** The image the chunks describe: each is placed at its distance from the end of the one before; an
      exception when that distance is negative, above 10 MB, or not a multiple of four. */
  datatype Image = NoImage | Image(bytes: seq<byte>)

  predicate GapOk(gap: int) {
    0 <= gap <= MAX_PADDING && gap % 4 == 0
  }

  function Gap(ks: seq<Chunk>, n: nat): (gap: int)
    requires 0 < n <= |ks|
  {
    if n == 1 then 0 else ks[n - 1].addr - (ks[n - 2].addr + PAYLOAD)
  }

  function ImageOf(ks: seq<Chunk>, n: nat): (i: Image)
    requires n <= |ks|
  {
    if n == 0 then Image([])
    else
      var before := ImageOf(ks, n - 1);
      if before.NoImage? || !GapOk(Gap(ks, n)) then NoImage
      else Image(before.bytes + Zeros(Gap(ks, n)) + ks[n - 1].data)
  }

  function Families(c: Settings, n: nat): set<nat> {
    if c.family == 0 || n == 0 then {} else {c.family}
  }

  /** What the reader has after `n` blocks written with the same settings. */
  predicate ReaderIs(c: Settings, start: nat, ks: seq<Chunk>, n: nat, o: Read)
    requires n <= |ks|
  {
    if ImageOf(ks, n).NoImage? then o.Failed?
    else
      && o.Goes?
      && o.r.out == ImageOf(ks, n).bytes
      && o.r.families == Families(c, n)
      && (n == 0 ==> o.r == Fresh(start))
      && (n > 0 ==> o.r.curr == ks[n - 1].addr + PAYLOAD && o.r.family == c.family)
  }

  lemma BlockAt(c: Settings, withDevice: bool, ks: seq<Chunk>, n: nat, k: nat)
    requires SettingsOk(c) && Packable(ks) && k < n <= |ks|
    ensures EncodeBlocks(c, withDevice, ks, n)[BLOCK * k..BLOCK * (k + 1)] == EncodeBlock(c, withDevice, ks[k], k, |ks|)
    decreases n
  {
    hide EncodeBlock;
    var before, b := EncodeBlocks(c, withDevice, ks, n - 1), EncodeBlock(c, withDevice, ks[n - 1], n - 1, |ks|);
    if k == n - 1 {
      assert (before + b)[BLOCK * (n - 1)..BLOCK * n] == b;
    } else {
      BlockAt(c, withDevice, ks, n - 1, k);
      assert (before + b)[BLOCK * k..BLOCK * (k + 1)] == before[BLOCK * k..BLOCK * (k + 1)];
    }
  }

  /** What reading one written block does to the reader. */
  lemma ReadsWritten(c: Settings, withDevice: bool, k: Chunk, no: nat, count: nat, r: Reader, last: bool)
    requires SettingsOk(c) && k.addr < TWO32 && no < TWO32 && count < TWO32
    requires r.curr == -1 || r.family == c.family
    requires r.families <= {c.family} && (c.family == 0 ==> r.families == {})
    ensures var o := ReadBlock(c.family, r, EncodeBlock(c, withDevice, k, no, count), last);
            var padding := if r.curr == -1 then 0 else k.addr - r.curr;
            if !GapOk(padding) then o.Failed?
            else
              && o.Goes? && o.r.curr == k.addr + PAYLOAD && o.r.family == c.family
              && o.r.out == r.out + Zeros(padding) + k.data
              && o.r.families == (if c.family == 0 then {} else {c.family})
  {
    var b := EncodeBlock(c, withDevice, k, no, count);
    var h, t := Header(Flags(c, withDevice), k.addr, no, count, c.family), Tail(c, withDevice);
    FlagBits(c, withDevice);
    HeaderWords(Flags(c, withDevice), k.addr, no, count, c.family, k.data + t);
    assert h + k.data + t == h + (k.data + t);
    assert b[32..32 + PAYLOAD] == k.data;
  }

  /** One more block. */
  lemma ReaderStep(c: Settings, start: nat, withDevice: bool, ks: seq<Chunk>, n: nat, before: Read, last: bool)
    requires SettingsOk(c) && Packable(ks) && 0 < n <= |ks| && before.Goes?
    requires ReaderIs(c, start, ks, n - 1, before)
    ensures ReaderIs(c, start, ks, n,
            ReadBlock(c.family, before.r, EncodeBlock(c, withDevice, ks[n - 1], n - 1, |ks|), last))
  {
    hide ReadBlock, EncodeBlock;
    ReadsWritten(c, withDevice, ks[n - 1], n - 1, |ks|, before.r, last);
  }

  lemma {:induction false} ReaderFollows(c: Settings, start: nat, withDevice: bool, ks: seq<Chunk>, n: nat)
    requires SettingsOk(c) && Packable(ks) && n <= |ks|
    ensures ReaderIs(c, start, ks, n, ReadBlocks(c.family, start, EncodeBlocks(c, withDevice, ks, |ks|), n))
  {
    if n > 0 {
      ReaderFollows(c, start, withDevice, ks, n - 1);
      hide ReadBlock, EncodeBlock, EncodeBlocks;
      var buf := EncodeBlocks(c, withDevice, ks, |ks|);
      BlockAt(c, withDevice, ks, |ks|, n - 1);
      var before := ReadBlocks(c.family, start, buf, n - 1);
      if before.Goes? {
        ReaderStep(c, start, withDevice, ks, n, before, n == |buf| / BLOCK);
      }
    }
  }

  /** Reading a written file with the settings it was written with gives the image of its chunks, and
      raises exactly when there is none. */
  lemma ReadsBack(c: Settings, start: nat, withDevice: bool, ks: seq<Chunk>)
    requires SettingsOk(c) && Packable(ks)
    ensures FromUf2(c.family, start, EncodeBlocks(c, withDevice, ks, |ks|)) ==
            (if ImageOf(ks, |ks|).NoImage? then Raised else Written(ImageOf(ks, |ks|).bytes))
  {
    hide ReadBlock, EncodeBlock;
    ReaderFollows(c, start, withDevice, ks, |ks|);
  }

  // ---------------------------------------------------------------- binary files

  /** The first `size` bytes, padded with zeros. */
  function Padded(content: seq<byte>, size: nat): (s: seq<byte>)
    ensures |s| == size
  {
    if size <= |content| then content[..size] else content + Zeros(size - |content|)
  }

  lemma PaddedGrows(content: seq<byte>, ptr: nat)
    requires ptr < |content|
    ensures var chunk := if ptr + PAYLOAD <= |content| then content[ptr..ptr + PAYLOAD] else content[ptr..];
            Padded(content, ptr) + Zeros(0) + (chunk + Zeros(PAYLOAD - |chunk|)) == Padded(content, ptr + PAYLOAD)
  {}

  lemma LastBinChunk(content: seq<byte>, start: nat, ks: seq<Chunk>, n: nat)
    requires 0 < n <= |ks| && PAYLOAD * n < |content| + PAYLOAD
    requires ks[..n] == BinChunks(content, start, n)
    ensures ks[..n - 1] == BinChunks(content, start, n - 1)
    ensures var ptr := PAYLOAD * (n - 1);
            var chunk := if ptr + PAYLOAD <= |content| then content[ptr..ptr + PAYLOAD] else content[ptr..];
            ks[n - 1] == Chunk(ptr + start, chunk + Zeros(PAYLOAD - |chunk|))
  {
    assert ks[..n - 1] == ks[..n][..n - 1];
    assert ks[n - 1] == ks[..n][n - 1];
  }

  lemma {:induction false} BinImage(content: seq<byte>, start: nat, ks: seq<Chunk>, n: nat)
    requires PAYLOAD * n < |content| + PAYLOAD && n <= |ks|
    requires ks[..n] == BinChunks(content, start, n)
    ensures ImageOf(ks, n) == Image(Padded(content, PAYLOAD * n))
    ensures n > 0 ==> ks[n - 1].addr == PAYLOAD * (n - 1) + start
  {
    if n > 0 {
      hide Padded, BinChunks;
      LastBinChunk(content, start, ks, n);
      BinImage(content, start, ks, n - 1);
      assert Gap(ks, n) == 0;
      PaddedGrows(content, PAYLOAD * (n - 1));
    }
  }

  /** The conversion succeeds exactly if the address of the last block fits 32 bits. */
  lemma BinConverts(c: Settings, start: nat, content: seq<byte>)
    requires SettingsOk(c)
    ensures ToUf2(c, start, content).Written? <==>
            content == [] || start + PAYLOAD * (NumBlocks(content) - 1) < TWO32
  {
    var n := NumBlocks(content);
    var ks := BinChunks(content, start, n);
    forall i | 0 <= i < n ensures ks[i].addr == PAYLOAD * i + start {
      BinAddress(content, start, n, i);
    }
    if n > 0 { assert ks[n - 1].addr == PAYLOAD * (n - 1) + start; }
  }

  lemma {:induction false} BinAddress(content: seq<byte>, start: nat, n: nat, i: nat)
    requires PAYLOAD * n < |content| + PAYLOAD && i < n
    ensures BinChunks(content, start, n)[i].addr == PAYLOAD * i + start
  {
    if i < n - 1 { BinAddress(content, start, n - 1, i); }
  }

  /** Round trip: converting a binary to UF2 and back pads it with zeros to a multiple of 256 bytes. */
  lemma BinRoundTrip(c: Settings, start: nat, start': nat, content: seq<byte>)
    requires SettingsOk(c) && (content == [] || start + PAYLOAD * (NumBlocks(content) - 1) < TWO32)
    ensures ToUf2(c, start, content).Written?
    ensures FromUf2(c.family, start', ToUf2(c, start, content).bytes) ==
            Written(content + Zeros(PAYLOAD * NumBlocks(content) - |content|))
  {
    var n := NumBlocks(content);
    var ks := BinChunks(content, start, n);
    assert ks[..n] == ks;
    BinConverts(c, start, content);
    BinImage(content, start, ks, n);
    ReadsBack(c, start', false, ks);
  }

  // ---------------------------------------------------------------- reading any file

  function BlockOf(buf: seq<byte>, i: nat): (b: seq<byte>)
    requires BLOCK * (i + 1) <= |buf|
    ensures |b| == BLOCK
  {
    buf[BLOCK * i..BLOCK * (i + 1)]
  }

  predicate GoodMagic(b: seq<byte>)
    requires |b| == BLOCK
  {
    Word(b, 0) == MAGIC_START0 && Word(b, 1) == MAGIC_START1
  }

  /** A block with data to place. */
  predicate IsFlash(b: seq<byte>)
    requires |b| == BLOCK
  {
    GoodMagic(b) && !HasBit(Word(b, 2), NO_FLASH)
  }

  /** The number of the last flash block among the first `n`, or -1. */
  function LastFlash(buf: seq<byte>, n: nat): (i: int)
    requires BLOCK * n <= |buf|
    ensures -1 <= i < n && (i >= 0 ==> IsFlash(BlockOf(buf, i)))
  {
    if n == 0 then -1 else if IsFlash(BlockOf(buf, n - 1)) then n - 1 else LastFlash(buf, n - 1)
  }

  /** The family of the section that the first `n` blocks end in: that of the block the section starts with. */
  function SectionFamily(buf: seq<byte>, n: nat): int
    requires BLOCK * n <= |buf|
    decreases n, 0
  {
    var i := LastFlash(buf, n);
    if i < 0 then -1
    else if StartsSection(buf, i) then Word(BlockOf(buf, i), 7)
    else SectionFamily(buf, i)
  }

  /** The first flash block starts a section, and every flash block tagged with a family other than the section's. */
  predicate StartsSection(buf: seq<byte>, i: nat)
    requires BLOCK * (i + 1) <= |buf|
    decreases i, 1
  {
    var b := BlockOf(buf, i);
    LastFlash(buf, i) < 0 || (HasBit(Word(b, 2), HAS_FAMILY) && Word(b, 7) != SectionFamily(buf, i))
  }

  /** The distance from the end of the flash block before; a section starts with none. */
  function PaddingAt(buf: seq<byte>, i: nat): int
    requires BLOCK * (i + 1) <= |buf|
  {
    if StartsSection(buf, i) then 0
    else
      var before := BlockOf(buf, LastFlash(buf, i));
      Word(BlockOf(buf, i), 3) - (Word(before, 3) + Word(before, 4))
  }

  /** Bad magic, or a flash block with too much data or a bad distance. */
  predicate BadBlock(buf: seq<byte>, i: nat)
    requires BLOCK * (i + 1) <= |buf|
  {
    var b := BlockOf(buf, i);
    !GoodMagic(b) || (IsFlash(b) && (Word(b, 4) > 476 || !GapOk(PaddingAt(buf, i))))
  }

  /** What the reader remembers of the blocks so far, if it goes on. */
  predicate Remembers(buf: seq<byte>, n: nat, o: Read)
    requires BLOCK * n <= |buf|
  {
    o.Goes? ==>
      var i := LastFlash(buf, n);
      && o.r.curr == (if i < 0 then -1 else Word(BlockOf(buf, i), 3) + Word(BlockOf(buf, i), 4))
      && o.r.family == SectionFamily(buf, n)
  }

  lemma ReadsAny(family: nat, buf: seq<byte>, n: nat, before: Read, last: bool)
    requires BLOCK * (n + 1) <= |buf| && before.Goes? && Remembers(buf, n, before)
    ensures var o := ReadBlock(family, before.r, BlockOf(buf, n), last);
            Remembers(buf, n + 1, o) && (o.Failed? <==> BadBlock(buf, n))
  {
    hide Word, HasBit;
    KnownFamily(buf, n);
    OneMoreBlock(buf, n);
    hide LastFlash, SectionFamily, BlockOf;
  }

  lemma OneMoreBlock(buf: seq<byte>, n: nat)
    requires BLOCK * (n + 1) <= |buf|
    ensures var b := BlockOf(buf, n);
            if IsFlash(b) then
              && LastFlash(buf, n + 1) == n
              && SectionFamily(buf, n + 1) == (if StartsSection(buf, n) then Word(b, 7) else SectionFamily(buf, n))
            else LastFlash(buf, n + 1) == LastFlash(buf, n) && SectionFamily(buf, n + 1) == SectionFamily(buf, n)
  {
    hide Word, HasBit, StartsSection, IsFlash;
    var i := LastFlash(buf, n + 1);
    if i >= 0 && i < n { assert SectionFamily(buf, n + 1) == SectionFamily(buf, n); }
  }

  lemma {:induction false} KnownFamily(buf: seq<byte>, n: nat)
    requires BLOCK * n <= |buf|
    ensures SectionFamily(buf, n) == -1 <==> LastFlash(buf, n) < 0
  {
    hide Word, HasBit;
    var i := LastFlash(buf, n);
    if i >= 0 && !StartsSection(buf, i) { KnownFamily(buf, i); }
  }

  lemma {:induction false} FailsIff(family: nat, start: nat, buf: seq<byte>, n: nat)
    requires BLOCK * n <= |buf|
    ensures Remembers(buf, n, ReadBlocks(family, start, buf, n))
    ensures ReadBlocks(family, start, buf, n).Failed? <==> exists i: nat :: i < n && BadBlock(buf, i)
  {
    hide ReadBlock, BadBlock, LastFlash, SectionFamily;
    if n == 0 {
      NothingRead(buf, start);
    } else {
      FailsIff(family, start, buf, n - 1);
      var before := ReadBlocks(family, start, buf, n - 1);
      if before.Goes? { ReadsAny(family, buf, n - 1, before, n == |buf| / BLOCK); }
    }
  }

  lemma NothingRead(buf: seq<byte>, start: nat)
    ensures Remembers(buf, 0, Goes(Fresh(start)))
  {}

  /** Reading any file raises if and only if some block has a bad magic number, or is a flash block with more than 476
      bytes of data or at a distance from the flash block before that is negative, above 10 MB or no multiple of 4,
      unless a section starts with it; whatever family is asked for. */
  lemma RaisesIff(family: nat, start: nat, buf: seq<byte>)
    ensures FromUf2(family, start, buf).Raised? <==> exists i: nat :: i < |buf| / BLOCK && BadBlock(buf, i)
  {
    hide BadBlock, ReadBlocks;
    FailsIff(family, start, buf, |buf| / BLOCK);
  }

  /** A block with a bad magic number is not skipped: the whole reading fails. */
  lemma BadMagicRaises(family: nat, start: nat, buf: seq<byte>, i: nat)
    requires i < |buf| / BLOCK && !GoodMagic(BlockOf(buf, i))
    ensures FromUf2(family, start, buf).Raised?
  {
    hide GoodMagic, PaddingAt;
    assert BadBlock(buf, i);
    RaisesIff(family, start, buf);
  }

  // ---------------------------------------------------------------- what any file is read as

  predicate Tagged(b: seq<byte>)
    requires |b| == BLOCK
  {
    HasBit(Word(b, 2), HAS_FAMILY)
  }

  /** The data of the block is asked for: no family is given, or the block is tagged with it. */
  predicate AskedFor(family: nat, b: seq<byte>)
    requires |b| == BLOCK
  {
    family == 0 || (Tagged(b) && Word(b, 7) == family)
  }

  /** Each flash block adds zeros up to its address and, if asked for, its data. */
  function Contents(family: nat, buf: seq<byte>, n: nat): (out: seq<byte>)
    requires BLOCK * n <= |buf|
  {
    if n == 0 then []
    else
      var b := BlockOf(buf, n - 1);
      Contents(family, buf, n - 1) +
      if IsFlash(b) && !BadBlock(buf, n - 1)
      then Zeros(PaddingAt(buf, n - 1)) + (if AskedFor(family, b) then b[32..32 + Word(b, 4)] else [])
      else []
  }

  /** The families of the tagged flash blocks. */
  function FamiliesIn(buf: seq<byte>, n: nat): set<nat>
    requires BLOCK * n <= |buf|
  {
    if n == 0 then {}
    else
      var b := BlockOf(buf, n - 1);
      FamiliesIn(buf, n - 1) + if IsFlash(b) && Tagged(b) then {Word(b, 7)} else {}
  }

  /** The address of the last section of the family, if one is given, or of any. */
  function SectionAddress(family: nat, start: nat, buf: seq<byte>, n: nat): nat
    requires BLOCK * n <= |buf|
  {
    if n == 0 then start
    else
      var b := BlockOf(buf, n - 1);
      if IsFlash(b) && StartsSection(buf, n - 1) && (family == 0 || Word(b, 7) == family) then Word(b, 3)
      else SectionAddress(family, start, buf, n - 1)
  }

  /** The file ends in a flash block, and holds more than one family though none was asked for. */
  predicate Mixed(family: nat, buf: seq<byte>, n: nat)
    requires BLOCK * n <= |buf|
  {
    family == 0 && n > 0 && IsFlash(BlockOf(buf, n - 1)) && |FamiliesIn(buf, n)| > 1
  }

  predicate HasRead(family: nat, start: nat, buf: seq<byte>, n: nat, mixed: bool, r: Reader)
    requires BLOCK * n <= |buf|
  {
    && r.families == FamiliesIn(buf, n)
    && r.out == (if mixed then [] else Contents(family, buf, n))
    && r.start == (if mixed then 0 else SectionAddress(family, start, buf, n))
  }

  lemma ReadsOne(family: nat, start: nat, buf: seq<byte>, n: nat, r: Reader, last: bool)
    requires BLOCK * (n + 1) <= |buf| && Remembers(buf, n, Goes(r)) && HasRead(family, start, buf, n, false, r)
    ensures var o := ReadBlock(family, r, BlockOf(buf, n), last);
            o.Goes? ==> HasRead(family, start, buf, n + 1, last && Mixed(family, buf, n + 1), o.r)
  {
    hide Word, HasBit, GapOk;
    ReadsAny(family, buf, n, Goes(r), last);
    KnownFamily(buf, n);
    hide LastFlash, SectionFamily, BlockOf;
  }

  lemma ReadsNext(family: nat, start: nat, buf: seq<byte>, n: nat)
    requires 0 < n && BLOCK * n <= |buf|
    ensures var before := ReadBlocks(family, start, buf, n - 1);
            ReadBlocks(family, start, buf, n) ==
            if before.Failed? then Failed else ReadBlock(family, before.r, BlockOf(buf, n - 1), n == |buf| / BLOCK)
  {}

  lemma {:induction false} HasReadBefore(family: nat, start: nat, buf: seq<byte>, n: nat)
    requires BLOCK * n <= |buf| && n < |buf| / BLOCK
    ensures var o := ReadBlocks(family, start, buf, n);
            o.Goes? ==> HasRead(family, start, buf, n, false, o.r)
  {
    hide ReadBlocks, ReadBlock, Remembers, HasRead, BadBlock;
    if n == 0 {
      NoBlocks(family, start, buf);
    } else {
      HasReadBefore(family, start, buf, n - 1);
      FailsIff(family, start, buf, n - 1);
      ReadsNext(family, start, buf, n);
      var before := ReadBlocks(family, start, buf, n - 1);
      if before.Goes? { ReadsOne(family, start, buf, n - 1, before.r, false); }
    }
  }

  lemma HasReadAll(family: nat, start: nat, buf: seq<byte>, n: nat)
    requires n == |buf| / BLOCK
    ensures var o := ReadBlocks(family, start, buf, n);
            o.Goes? ==> HasRead(family, start, buf, n, Mixed(family, buf, n), o.r)
  {
    hide ReadBlocks, ReadBlock, Remembers, HasRead, Mixed, BadBlock;
    if n == 0 {
      NoBlocks(family, start, buf);
    } else {
      HasReadBefore(family, start, buf, n - 1);
      FailsIff(family, start, buf, n - 1);
      ReadsNext(family, start, buf, n);
      var before := ReadBlocks(family, start, buf, n - 1);
      if before.Goes? { ReadsOne(family, start, buf, n - 1, before.r, true); }
    }
  }

  /** Reading any file that does not raise gives zeros and data block by block, for the family asked for or for all, and
      nothing if the last block is a flash block, no family is asked for and there are several; the start address is
      that of the last section of the family, or 0 in that case. */
  lemma ReadsAs(family: nat, start: nat, buf: seq<byte>)
    requires FromUf2(family, start, buf).Written?
    ensures var n := |buf| / BLOCK;
            && FromUf2(family, start, buf).bytes == (if Mixed(family, buf, n) then [] else Contents(family, buf, n))
            && ReadBlocks(family, start, buf, n).r.start ==
               (if Mixed(family, buf, n) then 0 else SectionAddress(family, start, buf, n))
  {
    hide ReadBlocks, Mixed, Contents, SectionAddress, FamiliesIn;
    HasReadAll(family, start, buf, |buf| / BLOCK);
  }

  lemma NoBlocks(family: nat, start: nat, buf: seq<byte>)
    ensures ReadBlocks(family, start, buf, 0) == Goes(Fresh(start))
    ensures HasRead(family, start, buf, 0, false, Fresh(start)) && !Mixed(family, buf, 0)
    ensures Contents(family, buf, 0) == [] && SectionAddress(family, start, buf, 0) == start
  {}
}
