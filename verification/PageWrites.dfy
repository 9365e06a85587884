/** Block writes to an external EEPROM (`drivers/eeprom/eeprom_i2c.c`, `drivers/eeprom/eeprom_spi.c`):
    a block is split so that no transaction crosses a page of a device that wraps inside its pages. */
module PageWrites {
  import opened Arithmetic
  import opened Bytes

  // ---------------------------------------------------------------- the address on the wire

  /** The address the device decodes from the bytes it receives, high byte first. */
  function Decode(s: seq<byte>): (a: nat) {
    if s == [] then 0 else Decode(s[..|s| - 1]) * 256 + s[|s| - 1] as int
  }

  /** The `n` address bytes the drivers send. */
  function Encode(a: nat, n: nat): (s: seq<byte>)
    ensures |s| == n
  {
    if n == 0 then [] else Encode(a / 256, n - 1) + [a % 256]
  }

  lemma {:induction false} DecodeEncode(a: nat, n: nat)
    ensures a < Pow256(n) ==> Decode(Encode(a, n)) == a
  {
    if n > 0 {
      assert Encode(a, n)[..n - 1] == Encode(a / 256, n - 1);
      DecodeEncode(a / 256, n - 1);
    }
  }

  /** The bytes written back to front, as the loops fill them: after `i` steps the last `i` are done. */
  lemma {:induction false} EncodeSuffix(a: nat, n: nat, i: nat)
    requires i < n
    ensures Encode(a, n)[n - 1 - i] == Shifted(a, i) % 256
  {
    if i > 0 {
      EncodeSuffix(a / 256, n - 1, i - 1);
      ShiftedFirst(a, i);
    }
  }

  lemma {:induction false} ShiftedFirst(a: nat, i: nat)
    requires i > 0
    ensures Shifted(a, i) == Shifted(a / 256, i - 1)
  {
    if i > 1 { ShiftedFirst(a, i - 1); }
  }

  // ---------------------------------------------------------------- memory

  /** `data` laid over memory at `addr`. */
  function Overlay(m: seq<byte>, addr: nat, data: seq<byte>): (m': seq<byte>)
    requires addr + |data| <= |m|
    ensures |m'| == |m|
  {
    m[..addr] + data + m[addr + |data|..]
  }

  /** Where byte `i` of a transaction at `addr` goes: the device wraps inside the page. */
  function Place(page: nat, addr: nat, i: nat): (a: nat)
    requires page > 0
  {
    addr - addr % page + (addr % page + i) % page
  }

  /** `len` bytes from `addr` on do not cross a page. */
  predicate InPage(page: nat, addr: nat, len: nat)
    requires page > 0
  {
    addr % page + len <= page
  }

  /** No byte of a transaction leaves the page it starts in. */
  lemma PlaceInPage(page: nat, addr: nat, i: nat)
    requires page > 0
    ensures addr - addr % page <= Place(page, addr, i) < addr - addr % page + page
  {}

  /** What the device does with a transaction. */
  function Program(m: seq<byte>, page: nat, addr: nat, data: seq<byte>): (m': seq<byte>)
    requires page > 0
    ensures |m'| == |m|
    decreases |data|
  {
    if data == [] then m
    else
      var n := |data| - 1;
      var before := Program(m, page, addr, data[..n]);
      if Place(page, addr, n) < |m| then before[Place(page, addr, n) := data[n]] else before
  }

  /** A transaction that stays inside its page is a plain overlay. */
  lemma {:induction false} ProgramInPage(m: seq<byte>, page: nat, addr: nat, data: seq<byte>)
    requires page > 0 && InPage(page, addr, |data|) && addr + |data| <= |m|
    ensures Program(m, page, addr, data) == Overlay(m, addr, data)
    decreases |data|
  {
    if data == [] {
      assert Overlay(m, addr, data) == m;
    } else {
      var n := |data| - 1;
      ProgramInPage(m, page, addr, data[..n]);
      InPagePlace(page, addr, n);
      assert Overlay(m, addr, data) == Overlay(m, addr, data[..n])[addr + n := data[n]];
    }
  }

  lemma InPagePlace(page: nat, addr: nat, i: nat)
    requires page > 0 && addr % page + i < page
    ensures Place(page, addr, i) == addr + i
  {
    ModUnique(addr % page + i, page, 0, addr % page + i);
  }

  lemma OverlayNothing(m: seq<byte>, addr: nat, buf: seq<byte>)
    requires addr + |buf| <= |m|
    ensures Overlay(m, addr, buf[..0]) == m
  {}

  /** Laying the next `w` bytes of a block over memory extends what is written. */
  lemma OverlayNext(m: seq<byte>, addr: nat, buf: seq<byte>, n: nat, w: nat)
    requires n + w <= |buf| && addr + |buf| <= |m|
    ensures Overlay(Overlay(m, addr, buf[..n]), addr + n, buf[n..n + w]) == Overlay(m, addr, buf[..n + w])
  {
    assert buf[..n] + buf[n..n + w] == buf[..n + w];
    OverlayTwice(m, addr, buf[..n], buf[n..n + w]);
  }

  lemma OverlayTwice(m: seq<byte>, addr: nat, a: seq<byte>, b: seq<byte>)
    requires addr + |a| + |b| <= |m|
    ensures Overlay(Overlay(m, addr, a), addr + |a|, b) == Overlay(m, addr, a + b)
  {}

  /** Bytes of the next transaction: up to the end of the page or of the data. */
  function Portion(page: nat, addr: nat, len: nat): (n: nat)
    requires page > 0
    ensures n <= len && InPage(page, addr, n)
    ensures len > 0 ==> n > 0
  {
    var room := page - addr % page;
    if room > len then len else room
  }

  lemma PortionEndsPage(page: nat, addr: nat, len: nat)
    requires page > 0 && Portion(page, addr, len) < len
    ensures (addr + Portion(page, addr, len)) % page == 0
  {
    var q := addr / page;
    assert addr + Portion(page, addr, len) == page * q + page == page * (q + 1);
    ModUnique(page * (q + 1), page, q + 1, 0);
  }

  // ---------------------------------------------------------------- the split of a block

  /** One write transaction as the device sees it: the decoded address and the number of data bytes. */
  datatype Transaction = Transaction(addr: nat, len: nat)

  /** Bytes sent by the first `k` transactions of a block. */
  function Sent(page: nat, addr: nat, len: nat, k: nat): (n: nat)
    requires page > 0
    ensures n <= len
  {
    if k == 0 then 0
    else
      var n := Sent(page, addr, len, k - 1);
      n + Portion(page, addr + n, len - n)
  }

  /** The first `k` transactions of a block. */
  function Split(page: nat, addr: nat, len: nat, k: nat): (ts: seq<Transaction>)
    requires page > 0
    ensures |ts| == k
  {
    if k == 0 then []
    else
      var n := Sent(page, addr, len, k - 1);
      Split(page, addr, len, k - 1) + [Transaction(addr + n, Portion(page, addr + n, len - n))]
  }

  /** Where an interrupted write may stop: before the first byte, at a page boundary, or at the end. */
  predicate StopsCleanly(page: nat, addr: nat, len: nat, n: nat)
    requires page > 0
  {
    n <= len && (n == 0 || n == len || (addr + n) % page == 0)
  }

  lemma NextTurn(page: nat, addr: nat, len: nat, k: nat)
    requires page > 0
    ensures var n := Sent(page, addr, len, k);
            Sent(page, addr, len, k + 1) == n + Portion(page, addr + n, len - n)
    ensures var n := Sent(page, addr, len, k);
            Split(page, addr, len, k + 1) ==
              Split(page, addr, len, k) + [Transaction(addr + n, Portion(page, addr + n, len - n))]
  {
    hide InPage, Portion;
  }

  lemma NoTurns(page: nat, addr: nat, len: nat)
    requires page > 0
    ensures Sent(page, addr, len, 0) == 0 && Split(page, addr, len, 0) == []
  {}

  /** After any number of transactions what is written ends cleanly. */
  lemma {:induction false} SentCleanly(page: nat, addr: nat, len: nat, k: nat)
    requires page > 0
    ensures StopsCleanly(page, addr, len, Sent(page, addr, len, k))
  {
    if k > 0 {
      var n := Sent(page, addr, len, k - 1);
      if Portion(page, addr + n, len - n) < len - n { PortionEndsPage(page, addr + n, len - n); }
    }
  }

  /** Every transaction stays inside one page, and together they cover the bytes sent, in order and
      without a gap. */
  lemma {:induction false} SplitInPages(page: nat, addr: nat, len: nat, k: nat, i: nat)
    requires page > 0 && i < k
    ensures InPage(page, Split(page, addr, len, k)[i].addr, Split(page, addr, len, k)[i].len)
    ensures Split(page, addr, len, k)[i].addr == addr + Sent(page, addr, len, i)
    ensures Split(page, addr, len, k)[i].len == Sent(page, addr, len, i + 1) - Sent(page, addr, len, i)
  {
    hide InPage, Portion;
    if i < k - 1 { SplitInPages(page, addr, len, k - 1, i); }
  }

  /** Data bytes of transaction `k`. */
  function TurnLength(page: nat, addr: nat, len: nat, k: nat): nat
    requires page > 0
  {
    var n := Sent(page, addr, len, k);
    Portion(page, addr + n, len - n)
  }

  /** Every transaction of the block has at most 255 bytes. */
  ghost predicate ByteCounted(page: nat, addr: nat, len: nat)
    requires page > 0
  {
    forall k: nat :: TurnLength(page, addr, len, k) <= 255
  }

  /** The packet loop of the I2C driver counts in a byte: it ends exactly if the transaction has at most 255 bytes. */
  lemma PacketLoopEndsIff(len: nat)
    ensures (exists n: nat :: n % 256 >= len) <==> len <= 255
  {
    if len <= 255 { assert len % 256 >= len; }
  }

  lemma CountedTurn(page: nat, addr: nat, len: nat, k: nat)
    requires page > 0 && ByteCounted(page, addr, len)
    ensures var n := Sent(page, addr, len, k); Portion(page, addr + n, len - n) <= 255
  {
    assert TurnLength(page, addr, len, k) <= 255;
  }

  // ---------------------------------------------------------------- the device and the drivers

  /** What the SPI bus does for one page: everything works, or one of the three early returns is taken. */
  datatype Bus = Works | StaysBusy | NoStartForEnable | NoStartForWrite

  class Device {
    const page: nat
    const addressSize: nat
    const mem: array<byte>
    /** the write-enable latch of an SPI device, cleared by every write cycle */
    var enabled: bool
    ghost var log: seq<Transaction>

    predicate Valid()
    {
      0 < page && mem.Length <= Pow256(addressSize)
    }

    constructor (page: nat, addressSize: nat, mem: array<byte>)
      requires 0 < page && mem.Length <= Pow256(addressSize)
      ensures Valid() && this.page == page && this.addressSize == addressSize && this.mem == mem
      ensures log == [] && !enabled
    {
      this.page, this.addressSize, this.mem, log, enabled := page, addressSize, mem, [], false;
    }

    /** The device side of a write: address bytes, then data that wraps inside the page. */
    method Receive(bytes: seq<byte>)
      requires Valid() && addressSize <= |bytes|
      modifies mem, `log
      ensures mem[..] == Program(old(mem[..]), page, Decode(bytes[..addressSize]), bytes[addressSize..])
      ensures log == old(log) + [Transaction(Decode(bytes[..addressSize]), |bytes| - addressSize)]
    {
      hide Decode, Place, Pow256;
      var addr := Decode(bytes[..addressSize]);
      var data := bytes[addressSize..];
      log := log + [Transaction(addr, |data|)];
      for i := 0 to |data|
        invariant mem[..] == Program(old(mem[..]), page, addr, data[..i])
        invariant log == old(log) + [Transaction(addr, |data|)]
      {
        assert data[..i + 1][..i] == data[..i];
        var a := Place(page, addr, i);
        if a < mem.Length { mem[a] := data[i]; }
      }
      assert data[..|data|] == data;
    }

    /** `fill_target_address`, and the loop of `spi_eeprom_transmit_address`. */
    method FillTargetAddress(buffer: array<byte>, addr: nat)
      requires addressSize <= buffer.Length
      modifies buffer
      ensures buffer[..addressSize] == Encode(addr, addressSize)
      ensures forall k :: addressSize <= k < buffer.Length ==> buffer[k] == old(buffer[k])
    {
      var p := addr;
      for i := 0 to addressSize
        invariant p == Shifted(addr, i)
        invariant forall j :: addressSize - i <= j < addressSize ==> buffer[j] == Encode(addr, addressSize)[j]
        invariant forall k :: addressSize <= k < buffer.Length ==> buffer[k] == old(buffer[k])
      {
        EncodeSuffix(addr, addressSize, i);
        buffer[addressSize - 1 - i] := p % 256;
        p := p / 256;
      }
    }

    /** One turn of the loop of `eeprom_write_block` over I2C: fill the packet, send it. */
    method SendPacket(packet: array<byte>, data: seq<byte>, addr: nat)
      requires Valid() && packet.Length == addressSize + page && packet != mem
      requires InPage(page, addr, |data|) && addr + |data| <= mem.Length && 0 < |data| <= 255
      modifies mem, `log, packet
      ensures mem[..] == Overlay(old(mem[..]), addr, data) && log == old(log) + [Transaction(addr, |data|)]
    {
      hide Decode, Encode, Program, Overlay, Pow256;
      FillTargetAddress(packet, addr);
      var i: byte := 0;
      while i < |data|
        invariant i <= |data|
        invariant packet[..addressSize] == Encode(addr, addressSize)
        invariant packet[addressSize..addressSize + i] == data[..i]
        invariant mem[..] == old(mem[..]) && log == old(log)
      {
        packet[addressSize + i] := data[i];
        assert packet[addressSize..addressSize + i + 1] == packet[addressSize..addressSize + i] + [data[i]];
        i := i + 1;
      }
      assert packet[..addressSize + |data|] == packet[..addressSize] + packet[addressSize..addressSize + |data|];
      Deliver(packet[..addressSize + |data|], data, addr);
    }

    /** The address bytes and the data of one page reach the device. */
    method Deliver(bytes: seq<byte>, data: seq<byte>, addr: nat)
      requires Valid() && bytes == Encode(addr, addressSize) + data
      requires InPage(page, addr, |data|) && addr + |data| <= mem.Length && data != []
      modifies mem, `log
      ensures mem[..] == Overlay(old(mem[..]), addr, data) && log == old(log) + [Transaction(addr, |data|)]
    {
      hide Decode, Encode, Program, Overlay, InPage, Pow256;
      assert bytes[..addressSize] == Encode(addr, addressSize);
      assert bytes[addressSize..] == data;
      DecodeEncode(addr, addressSize);
      ProgramInPage(mem[..], page, addr, data);
      Receive(bytes);
    }

    /** `eeprom_write_block` over I2C: memory is the old one with the block laid over it, sent in `turns`
        transactions. The packet loop counts in a byte, so each transaction must have at most 255 bytes. */
    method WriteBlockI2c(buf: seq<byte>, addr: nat) returns (turns: nat)
      requires Valid() && ByteCounted(page, addr, |buf|) && addr + |buf| <= mem.Length
      modifies mem, `log
      ensures mem[..] == Overlay(old(mem[..]), addr, buf)
      ensures Sent(page, addr, |buf|, turns) == |buf|
      ensures log == old(log) + Split(page, addr, |buf|, turns)
    {
      hide Overlay, Portion, InPage, Pow256, Sent, Split, ByteCounted;
      NoTurns(page, addr, |buf|);
      var packet := new byte[addressSize + page](_ => 0);
      var n := 0;
      turns := 0;
      OverlayNothing(mem[..], addr, buf);
      while n < |buf|
        invariant n == Sent(page, addr, |buf|, turns) && mem[..] == Overlay(old(mem[..]), addr, buf[..n])
        invariant log == old(log) + Split(page, addr, |buf|, turns)
      {
        var write := Portion(page, addr + n, |buf| - n);
        NextTurn(page, addr, |buf|, turns);
        CountedTurn(page, addr, |buf|, turns);
        OverlayNext(old(mem[..]), addr, buf, n, write);
        SendPacket(packet, buf[n..n + write], addr + n);
        n := n + write;
        turns := turns + 1;
      }
      assert buf[..|buf|] == buf;
    }

    /** WREN. */
    method WriteEnable()
      modifies `enabled
      ensures enabled
    {
      enabled := true;
    }

    /** WRDI. */
    method WriteDisable()
      modifies `enabled
      ensures !enabled
    {
      enabled := false;
    }

    /** WRITE: a write cycle happens only while the latch is set, and clears it. */
    method WriteCommand(data: seq<byte>, addr: nat)
      requires Valid()
      requires InPage(page, addr, |data|) && addr + |data| <= mem.Length && data != []
      modifies mem, `log, `enabled
      ensures !enabled
      ensures mem[..] == (if old(enabled) then Overlay(old(mem[..]), addr, data) else old(mem[..]))
      ensures log == (if old(enabled) then old(log) + [Transaction(addr, |data|)] else old(log))
    {
      hide Encode, Overlay, InPage, Pow256;
      var buffer := new byte[addressSize](_ => 0);
      FillTargetAddress(buffer, addr);
      assert buffer[..addressSize] == buffer[..];
      if enabled { Deliver(buffer[..] + data, data, addr); }
      enabled := false;
    }

    /** `eeprom_write_block` over SPI. `bus` says what happens in each turn of the loop, `last` whether
        the bus starts for the final write-disable. Memory holds the first `n` bytes of the block: all of
        it, or what was sent before the first turn that failed. */
    method WriteBlockSpi(buf: seq<byte>, addr: nat, bus: nat -> Bus, last: bool) returns (turns: nat, n: nat)
      requires Valid() && addr + |buf| <= mem.Length
      modifies mem, `log, `enabled
      ensures n == Sent(page, addr, |buf|, turns) && mem[..] == Overlay(old(mem[..]), addr, buf[..n])
      ensures log == old(log) + Split(page, addr, |buf|, turns)
      ensures forall k :: 0 <= k < turns ==> bus(k) == Works
      ensures n < |buf| ==> bus(turns) != Works
      ensures !old(enabled) ==> (enabled <==> n < |buf| && bus(turns) == NoStartForWrite)
    {
      hide Overlay, Portion, InPage, Pow256, Sent, Split;
      NoTurns(page, addr, |buf|);
      n, turns := 0, 0;
      OverlayNothing(mem[..], addr, buf);
      while n < |buf|
        invariant n == Sent(page, addr, |buf|, turns) && mem[..] == Overlay(old(mem[..]), addr, buf[..n])
        invariant log == old(log) + Split(page, addr, |buf|, turns)
        invariant forall k :: 0 <= k < turns ==> bus(k) == Works
        invariant !old(enabled) ==> !enabled
      {
        var write := Portion(page, addr + n, |buf| - n);
        if bus(turns) == StaysBusy { return; }
        if bus(turns) == NoStartForEnable { return; }
        WriteEnable();
        if bus(turns) == NoStartForWrite { return; }
        NextTurn(page, addr, |buf|, turns);
        OverlayNext(old(mem[..]), addr, buf, n, write);
        WriteCommand(buf[n..n + write], addr + n);
        n := n + write;
        turns := turns + 1;
      }
      if last { WriteDisable(); }
    }
  }
}
