/** Intel HEX records: how the reader places their data bytes, what the specification says, and when the two
    are the same. */
module HexMeaning {
  import opened Bytes
  import opened Uf2Model

  /** A HEX record. The reader looks at neither the count nor the checksum, and ignores other kinds. */
  datatype Body =
    | Data(offset: word, data: seq<byte>)
    | Linear(upper: word)
    | Segment(upper: word)
    | Other(kind: byte, data: seq<byte>)

  datatype Record = Record(count: byte, checksum: byte, body: Body)

  predicate RecordOk(r: Record) {
    r.body.Other? ==> r.body.kind !in {0, 1, 2, 4}
  }

  function Hi(w: word): byte { w / 0x100 }
  function Lo(w: word): byte { w % 0x100 }

  function RawOf(r: Record): (raw: Raw) {
    match r.body
    case Data(offset, data) => [r.count, Hi(offset), Lo(offset), 0] + data + [r.checksum]
    case Linear(upper) => [r.count, 0, 0, 4, Hi(upper), Lo(upper), r.checksum]
    case Segment(upper) => [r.count, 0, 0, 2, Hi(upper), Lo(upper), r.checksum]
    case Other(kind, data) => [r.count, 0, 0, kind] + data + [r.checksum]
  }

  /** Data bytes at consecutive addresses. */
  function Spread(addr: nat, data: seq<byte>): (cells: seq<Cell>)
    ensures |cells| == |data|
  {
    seq(|data|, i requires 0 <= i < |data| => Cell(addr + i, data[i]))
  }

  datatype Meaning = Meaning(upper: nat, cells: seq<Cell>)

  /** The data bytes as the reader places them: at consecutive addresses after the upper address, whichever
      kind of record gave it. */
  function PlacedBy(rs: seq<Record>): (m: Meaning) {
    if rs == [] then Meaning(0, [])
    else
      var m := PlacedBy(rs[..|rs| - 1]);
      match rs[|rs| - 1].body
      case Data(offset, data) => m.(cells := m.cells + Spread(m.upper + offset, data))
      case Linear(upper) => m.(upper := upper * 0x1_0000)
      case Segment(upper) => m.(upper := upper * 0x10)
      case Other(kind, data) => m
  }

  // ---------------------------------------------------------------- the meaning of a HEX file

  /** A base address: under a segment, offsets wrap at 64K; under a linear one, addresses wrap at 4G. */
  datatype Base = Base(addr: nat, segmented: bool)

  const K64: nat := 0x1_0000

  /** The address of byte `i` of a data record. */
  function AddressIn(b: Base, offset: nat, i: nat): nat {
    if b.segmented then b.addr + (offset + i) % K64 else (b.addr + offset + i) % TWO32
  }

  /** The data bytes of a record under a base. */
  function SpreadIn(b: Base, offset: nat, data: seq<byte>): (cells: seq<Cell>)
    ensures |cells| == |data|
  {
    seq(|data|, i requires 0 <= i < |data| => Cell(AddressIn(b, offset, i), data[i]))
  }

  datatype Specified = Specified(base: Base, cells: seq<Cell>)

  /** What the records say by the Intel Hexadecimal Object File Format Specification. Both kinds of base address
      default to 0, so a file may begin in either mode. */
  function MeaningOf(rs: seq<Record>, segmented: bool): (m: Specified) {
    if rs == [] then Specified(Base(0, segmented), [])
    else
      var m := MeaningOf(rs[..|rs| - 1], segmented);
      match rs[|rs| - 1].body
      case Data(offset, data) =>
        m.(cells := m.cells + SpreadIn(m.base, offset, data))
      case Linear(upper) => m.(base := Base(upper * K64, false))
      case Segment(upper) => m.(base := Base(upper * 0x10, true))
      case Other(kind, data) => m
  }

  /** The data record runs over the end of its segment, or of the linear address space. */
  predicate Crosses(b: Base, r: Record) {
    r.body.Data? && r.body.data != [] &&
    (if b.segmented then r.body.offset + |r.body.data| > K64 else b.addr + r.body.offset + |r.body.data| > TWO32)
  }

  /** No data record crosses. */
  predicate NoneCrosses(rs: seq<Record>, segmented: bool) {
    rs == [] ||
    (var before := rs[..|rs| - 1];
     NoneCrosses(before, segmented) && !Crosses(MeaningOf(before, segmented).base, rs[|rs| - 1]))
  }

  lemma AddressFits(b: Base, r: Record, i: nat)
    requires r.body.Data? && i < |r.body.data|
    ensures !Crosses(b, r) ==> AddressIn(b, r.body.offset, i) == b.addr + r.body.offset + i
    ensures Crosses(b, r) && i == |r.body.data| - 1 ==> AddressIn(b, r.body.offset, i) != b.addr + r.body.offset + i
  {}

  lemma SplitEqual<T>(a: seq<T>, b: seq<T>, c: seq<T>, d: seq<T>)
    requires |a| == |c|
    ensures a + b == c + d <==> a == c && b == d
  {
    if a + b == c + d {
      assert a == (a + b)[..|a|] && c == (c + d)[..|c|];
      assert b == (a + b)[|a|..] && d == (c + d)[|c|..];
    }
  }

  /** One data record is placed as specified exactly if it does not cross. */
  lemma RecordPlaced(b: Base, r: Record)
    requires r.body.Data?
    ensures Spread(b.addr + r.body.offset, r.body.data) == SpreadIn(b, r.body.offset, r.body.data) <==> !Crosses(b, r)
  {
    var placed, said := Spread(b.addr + r.body.offset, r.body.data), SpreadIn(b, r.body.offset, r.body.data);
    hide AddressIn, Crosses;
    forall i | 0 <= i < |r.body.data| ensures !Crosses(b, r) ==> placed[i] == said[i] { AddressFits(b, r, i); }
    if r.body.data == [] {
      NoneInEmpty(b, r);
    } else {
      var last := |r.body.data| - 1;
      AddressFits(b, r, last);
      assert Crosses(b, r) ==> placed[last] != said[last];
    }
  }

  lemma NoneInEmpty(b: Base, r: Record)
    requires r.body.Data? && r.body.data == []
    ensures !Crosses(b, r)
  {}

  /** The reader places every byte where the specification says if and only if no data record runs over the end of
      its segment or of the address space. */
  lemma {:induction false} PlacedAsSpecifiedIff(rs: seq<Record>, segmented: bool)
    ensures PlacedBy(rs).upper == MeaningOf(rs, segmented).base.addr
    ensures |PlacedBy(rs).cells| == |MeaningOf(rs, segmented).cells|
    ensures PlacedBy(rs).cells == MeaningOf(rs, segmented).cells <==> NoneCrosses(rs, segmented)
  {
    hide Crosses, SpreadIn, Spread;
    if rs != [] {
      var before, r := rs[..|rs| - 1], rs[|rs| - 1];
      PlacedAsSpecifiedIff(before, segmented);
      if r.body.Data? {
        var b := MeaningOf(before, segmented).base;
        var offset, data := r.body.offset, r.body.data;
        RecordPlaced(b, r);
        SplitEqual(PlacedBy(before).cells, Spread(b.addr + offset, data),
          MeaningOf(before, segmented).cells, SpreadIn(b, offset, data));
      } else {
        OnlyDataCrosses(MeaningOf(before, segmented).base, r);
      }
    }
  }

  lemma OnlyDataCrosses(b: Base, r: Record)
    requires !r.body.Data?
    ensures !Crosses(b, r)
  {}

  /** Two bytes at the end of segment 0x1000: the specification puts the second at the start of the segment, the
      reader behind its end. */
  lemma SegmentNotWrapped()
    ensures var rs := [Record(2, 0, Segment(0x1000)), Record(2, 0, Data(0xFFFF, [1, 2]))];
            && PlacedBy(rs).cells == [Cell(0x1_FFFF, 1), Cell(0x2_0000, 2)]
            && MeaningOf(rs, true).cells == [Cell(0x1_FFFF, 1), Cell(0x1_0000, 2)]
  {
    var rs := [Record(2, 0, Segment(0x1000)), Record(2, 0, Data(0xFFFF, [1, 2]))];
    assert rs[..1] == [rs[0]] && rs[..1][..0] == [];
    assert PlacedBy(rs[..1]) == Meaning(0x1_0000, []);
    assert MeaningOf(rs[..1], true) == Specified(Base(0x1_0000, true), []);
  }
}
