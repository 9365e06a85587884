/** The UF2 and Intel HEX conversions of `util/uf2conv.py` as functions on byte sequences. */
module Uf2Model {
  import opened Bytes

  const MAGIC_START0: nat := 0x0A324655
  const MAGIC_START1: nat := 0x9E5D5157
  const MAGIC_END: nat := 0x0AB16F30
  const NO_FLASH: nat := 1
  const HAS_FAMILY: nat := 0x2000
  const HAS_DEVICE: nat := 0x8000
  const BLOCK: nat := 512
  const PAYLOAD: nat := 256
  const MAX_PADDING: nat := 10 * 1024 * 1024
  const TWO32: nat := 0x1_0000_0000

  type Payload = s: seq<byte> | |s| == PAYLOAD witness seq(PAYLOAD, _ => 0)

  function Zeros(n: nat): (z: seq<byte>)
    ensures |z| == n && forall i :: 0 <= i < n ==> z[i] == 0
  {
    seq(n, _ => 0)
  }

  /** `struct.pack("<I", n)` */
  function Le32(n: nat): (s: seq<byte>)
    requires n < TWO32
    ensures |s| == 4
  {
    [n % 0x100, n / 0x100 % 0x100, n / 0x1_0000 % 0x100, n / 0x100_0000]
  }

  function FromLe32(s: seq<byte>): (n: nat)
    requires |s| == 4
  {
    s[0] as int + 0x100 * s[1] as int + 0x1_0000 * s[2] as int + 0x100_0000 * s[3] as int
  }

  function Word(block: seq<byte>, k: nat): (n: nat)
    requires 4 * k + 4 <= |block|
  {
    FromLe32(block[4 * k..4 * k + 4])
  }

  predicate HasBit(flags: nat, bit: nat)
    requires bit > 0
  {
    flags / bit % 2 == 1
  }

  /** Command-line settings: the family and, for HEX input, the device type; 0 means not given. */
  datatype Settings = Settings(family: nat, device: nat)

  predicate SettingsOk(c: Settings) {
    c.family < TWO32 && c.device < TWO32
  }

  // ---------------------------------------------------------------- writing UF2

  function Flags(c: Settings, withDevice: bool): nat {
    (if c.family != 0 then HAS_FAMILY else 0) + (if withDevice && c.device != 0 then HAS_DEVICE else 0)
  }

  function Header(flags: nat, addr: nat, blockno: nat, numblocks: nat, family: nat): (h: seq<byte>)
    requires flags < TWO32 && addr < TWO32 && blockno < TWO32 && numblocks < TWO32 && family < TWO32
    ensures |h| == 32
  {
    Le32(MAGIC_START0) + Le32(MAGIC_START1) + Le32(flags) + Le32(addr)
    + Le32(PAYLOAD) + Le32(blockno) + Le32(numblocks) + Le32(family)
  }

  /** What follows the payload: a device-type tag for HEX input, zeros, and the final magic number. */
  function Tail(c: Settings, withDevice: bool): (t: seq<byte>)
    requires SettingsOk(c)
    ensures |t| == BLOCK - 32 - PAYLOAD
  {
    (if withDevice && c.device != 0 then [0x08, 0x29, 0xA7, 0xC8] + Le32(c.device) + Zeros(212) else Zeros(220))
    + Le32(MAGIC_END)
  }

  /** A payload and the address it goes to. */
  datatype Chunk = Chunk(addr: nat, data: Payload)

  function EncodeBlock(c: Settings, withDevice: bool, k: Chunk, blockno: nat, numblocks: nat): (b: seq<byte>)
    requires SettingsOk(c) && k.addr < TWO32 && blockno < TWO32 && numblocks < TWO32
    ensures |b| == BLOCK
  {
    Header(Flags(c, withDevice), k.addr, blockno, numblocks, c.family) + k.data + Tail(c, withDevice)
  }

  /** `struct.pack` raises an error for values that do not fit 32 bits. */
  predicate Packable(ks: seq<Chunk>) {
    |ks| < TWO32 && forall i :: 0 <= i < |ks| ==> ks[i].addr < TWO32
  }

  /** The first `n` blocks of a file of chunks `ks`. */
  function EncodeBlocks(c: Settings, withDevice: bool, ks: seq<Chunk>, n: nat): (b: seq<byte>)
    requires SettingsOk(c) && Packable(ks) && n <= |ks|
    ensures |b| == BLOCK * n
  {
    if n == 0 then []
    else EncodeBlocks(c, withDevice, ks, n - 1) + EncodeBlock(c, withDevice, ks[n - 1], n - 1, |ks|)
  }

  /** The chunks of a binary file, the last one padded with zeros. */
  function BinChunks(content: seq<byte>, start: nat, n: nat): (ks: seq<Chunk>)
    requires PAYLOAD * n < |content| + PAYLOAD
    ensures |ks| == n
  {
    if n == 0 then []
    else
      var ptr := PAYLOAD * (n - 1);
      var chunk := if ptr + PAYLOAD <= |content| then content[ptr..ptr + PAYLOAD] else content[ptr..];
      BinChunks(content, start, n - 1) + [Chunk(ptr + start, chunk + Zeros(PAYLOAD - |chunk|))]
  }

  function NumBlocks(content: seq<byte>): nat {
    (|content| + 255) / PAYLOAD
  }

  datatype Output = Raised | Written(bytes: seq<byte>)

  /** `convert_to_uf2`, `start` being `appstartaddr` */
  function ToUf2(c: Settings, start: nat, content: seq<byte>): (o: Output)
    requires SettingsOk(c)
  {
    var ks := BinChunks(content, start, NumBlocks(content));
    if Packable(ks) then Written(EncodeBlocks(c, false, ks, |ks|)) else Raised
  }

  // ---------------------------------------------------------------- reading UF2

  /** State of `convert_from_uf2`: the next expected address and the current family (-1 for None), the
      output, the families seen, and `appstartaddr`. */
  datatype Reader = Reader(curr: int, family: int, out: seq<byte>, families: set<nat>, start: nat)

  /** The function raises an exception, or it goes on. A bad magic number raises too: the message that is
      about to be printed adds a number to a string. */
  datatype Read = Failed | Goes(r: Reader)

  /** The state before the first block, with the value `appstartaddr` has then. */
  function Fresh(start: nat): Reader {
    Reader(-1, -1, [], {}, start)
  }

  function ReadBlock(family: nat, r: Reader, block: seq<byte>, last: bool): (o: Read)
    requires |block| == BLOCK
  {
    if Word(block, 0) != MAGIC_START0 || Word(block, 1) != MAGIC_START1 then Failed
    else if HasBit(Word(block, 2), NO_FLASH) then Goes(r)
    else if Word(block, 4) > 476 then Failed
    else
      var tagged, id, addr := HasBit(Word(block, 2), HAS_FAMILY), Word(block, 7), Word(block, 3);
      var current := if tagged && r.family == -1 then id else r.family;
      var restart := r.curr == -1 || (tagged && id != current);
      var start := if restart && (family == 0 || family == id) then addr else r.start;
      var padding := addr - (if restart then addr else r.curr);
      if padding < 0 || padding > MAX_PADDING || padding % 4 != 0 then Failed
      else
        var payload := if family == 0 || (tagged && family == id) then block[32..32 + Word(block, 4)] else [];
        var families := if tagged then r.families + {id} else r.families;
        var mixed := last && |families| > 1 && family == 0;
        Goes(Reader(addr + Word(block, 4), if restart then id else current,
                    if mixed then [] else r.out + Zeros(padding) + payload,
                    families, if mixed then 0 else start))
  }

  /** The reader after the first `n` blocks. */
  function ReadBlocks(family: nat, start: nat, buf: seq<byte>, n: nat): (o: Read)
    requires BLOCK * n <= |buf|
  {
    if n == 0 then Goes(Fresh(start))
    else
      var before := ReadBlocks(family, start, buf, n - 1);
      if before.Failed? then Failed
      else ReadBlock(family, before.r, buf[BLOCK * (n - 1)..BLOCK * n], n == |buf| / BLOCK)
  }

  /** `convert_from_uf2` */
  function FromUf2(family: nat, start: nat, buf: seq<byte>): (o: Output) {
    var r := ReadBlocks(family, start, buf, |buf| / BLOCK);
    if r.Failed? then Raised else Written(r.r.out)
  }

  // ---------------------------------------------------------------- Intel HEX

  /** One data byte of a HEX file. */
  datatype Cell = Cell(addr: nat, value: byte)

  function Page(a: nat): nat {
    a / PAYLOAD
  }

  /** The 256-byte blocks filled by data bytes in file order: a new block whenever the page changes. */
  function Fill(cells: seq<Cell>): (ks: seq<Chunk>)
    ensures cells != [] <==> ks != []
  {
    if cells == [] then []
    else
      var c := cells[|cells| - 1];
      var ks := Fill(cells[..|cells| - 1]);
      var at := c.addr % PAYLOAD;
      if ks == [] || Page(ks[|ks| - 1].addr) != Page(c.addr) then
        ks + [Chunk(PAYLOAD * Page(c.addr), Zeros(PAYLOAD)[at := c.value])]
      else
        var k := ks[|ks| - 1];
        ks[|ks| - 1 := k.(data := k.data[at := c.value])]
  }

  /** A HEX record as its bytes: count, two address bytes, type, data, checksum. */
  type Raw = seq<byte>

  /** The data bytes of a record at 32-bit address `addr`: all but the four leading bytes and the last. */
  function DataCells(raw: Raw, addr: nat, n: nat): (cells: seq<Cell>)
    requires n + 5 <= |raw| || n == 0
    ensures |cells| == n
  {
    if n == 0 then [] else DataCells(raw, addr, n - 1) + [Cell(addr + n - 1, raw[4 + n - 1])]
  }

  /** What the record loop has gathered: an exception, or the upper address bits, whether the end record
      was met, and the data bytes so far. */
  datatype Hex = Broken | Hex(upper: nat, ended: bool, cells: seq<Cell>)

  function ReadRecord(h: Hex, raw: Raw): (h': Hex)
    requires h.Hex?
  {
    if |raw| < 4 then Broken
    else if raw[3] == 4 then
      if |raw| < 6 then Broken else h.(upper := (raw[4] as int * 0x100 + raw[5] as int) * 0x1_0000)
    else if raw[3] == 2 then
      if |raw| < 6 then Broken else h.(upper := (raw[4] as int * 0x100 + raw[5] as int) * 0x10)
    else if raw[3] == 1 then h.(ended := true)
    else if raw[3] == 0 then
      var addr := h.upper + raw[1] as int * 0x100 + raw[2] as int;
      h.(cells := h.cells + DataCells(raw, addr, if |raw| < 5 then 0 else |raw| - 5))
    else h
  }

  function HexValue(c: char): (v: int)
    ensures -1 <= v < 16
  {
    if '0' <= c <= '9' then c as int - '0' as int
    else if 'a' <= c <= 'f' then c as int - 'a' as int + 10
    else if 'A' <= c <= 'F' then c as int - 'A' as int + 10
    else -1
  }

  predicate IsBlank(c: char) {
    c == ' ' || c == '\t' || c == '\r'
  }

  /** `int(ab, 16)` of two characters: a blank on either side is stripped; -1 for an exception. */
  function PairValue(a: char, b: char): (v: int)
    ensures -1 <= v < 0x100
  {
    if HexValue(a) >= 0 && HexValue(b) >= 0 then HexValue(a) * 16 + HexValue(b)
    else if IsBlank(a) then HexValue(b)
    else if IsBlank(b) then HexValue(a)
    else -1
  }

  datatype Parsed = Unreadable | Bytes(raw: Raw)

  /** `int(line[i:i+2], 16)` for pairs of characters, from index `i` to the one before the last. */
  function ParsePairs(line: string, i: nat): (p: Parsed)
    decreases |line| - i
  {
    if i + 1 >= |line| then Bytes([])
    else if PairValue(line[i], line[i + 1]) < 0 then Unreadable
    else
      var rest := ParsePairs(line, i + 2);
      if rest.Unreadable? then rest else Bytes([PairValue(line[i], line[i + 1])] + rest.raw)
  }

  /** One line of `convert_from_hex_to_uf2`: an empty line raises, other lines without a colon are skipped. */
  function ReadLine(h: Hex, line: string): (h': Hex) {
    if h.Broken? || h.ended then h
    else if line == "" then Broken
    else if line[0] != ':' then h
    else
      var p := ParsePairs(line, 1);
      if p.Unreadable? then Broken else ReadRecord(h, p.raw)
  }

  function ReadLines(lines: seq<string>, n: nat): (h: Hex)
    requires n <= |lines|
  {
    if n == 0 then Hex(0, false, []) else ReadLine(ReadLines(lines, n - 1), lines[n - 1])
  }

  /** `text.split('\n')` */
  function Split(text: string): (lines: seq<string>)
    ensures |lines| > 0
  {
    if text == "" then [""]
    else if text[0] == '\n' then [""] + Split(text[1..])
    else
      var rest := Split(text[1..]);
      [[text[0]] + rest[0]] + rest[1..]
  }

  /** `convert_from_hex_to_uf2` */
  function HexToUf2(c: Settings, text: string): (o: Output)
    requires SettingsOk(c)
  {
    var lines := Split(text);
    var h := ReadLines(lines, |lines|);
    if h.Broken? then Raised
    else
      var ks := Fill(h.cells);
      if Packable(ks) then Written(EncodeBlocks(c, true, ks, |ks|)) else Raised
  }
}
