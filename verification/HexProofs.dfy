/** Intel HEX to UF2 to binary: when the generated file can be read back, and what it then holds. */
module HexProofs {
  import opened Bytes
  import opened Uf2Model
  import opened Uf2Proofs
  import opened HexMeaning

  // ---------------------------------------------------------------- blocks and their image

  /** From one data byte to the next: the same page, or a later one at most 10 MB after the first ends. */
  predicate PageStep(a: Cell, b: Cell) {
    Page(b.addr) == Page(a.addr) || 0 <= PAYLOAD * (Page(b.addr) - Page(a.addr) - 1) <= MAX_PADDING
  }

  predicate PagesOk(cells: seq<Cell>) {
    |cells| <= 1 || (PagesOk(cells[..|cells| - 1]) && PageStep(cells[|cells| - 2], cells[|cells| - 1]))
  }

  /** The byte a HEX file puts at an address: the last one given, or zero. */
  function Value(cells: seq<Cell>, a: nat): (v: byte) {
    if cells == [] then 0
    else if cells[|cells| - 1].addr == a then cells[|cells| - 1].value
    else Value(cells[..|cells| - 1], a)
  }

  /** Address of the first byte of the image. */
  function ImageStart(cells: seq<Cell>): nat
    requires cells != []
  {
    PAYLOAD * Page(cells[0].addr)
  }

  lemma {:induction false} NothingBeyond(cells: seq<Cell>, a: nat)
    requires PagesOk(cells) && cells != [] && a >= PAYLOAD * (Page(cells[|cells| - 1].addr) + 1)
    ensures Value(cells, a) == 0 && Page(cells[0].addr) <= Page(cells[|cells| - 1].addr)
  {
    if |cells| > 1 {
      NothingBeyond(cells[..|cells| - 1], a);
    }
  }

  lemma {:induction false} ImagePrefix(ks: seq<Chunk>, ks': seq<Chunk>, n: nat)
    requires n <= |ks| && n <= |ks'| && ks[..n] == ks'[..n]
    ensures ImageOf(ks, n) == ImageOf(ks', n)
  {
    if n > 0 {
      assert ks[n - 1] == ks[..n][n - 1] == ks'[n - 1];
      assert n > 1 ==> ks[n - 2] == ks[..n][n - 2] == ks'[n - 2];
      assert ks[..n - 1] == ks[..n][..n - 1] == ks'[..n - 1];
      ImagePrefix(ks, ks', n - 1);
    }
  }

  /** The image of the blocks filled from `cells`: absent when pages go back or a gap is too large; else one
      byte for every address from the first page to the last, each the value the file gives it. */
  predicate Holds(cells: seq<Cell>, i: Image)
    requires cells != []
  {
    if !PagesOk(cells) then i.NoImage?
    else
      && i.Image?
      && |i.bytes| + ImageStart(cells) == PAYLOAD * (Page(cells[|cells| - 1].addr) + 1)
      && forall j :: 0 <= j < |i.bytes| ==> i.bytes[j] == Value(cells, ImageStart(cells) + j)
  }

  /** The last block starts at the page of the last data byte. */
  lemma {:induction false} LastBlock(cells: seq<Cell>)
    requires cells != []
    ensures var ks := Fill(cells); ks[|ks| - 1].addr == PAYLOAD * Page(cells[|cells| - 1].addr)
  {
    if |cells| > 1 { LastBlock(cells[..|cells| - 1]); }
  }

  lemma SamePage(cells: seq<Cell>, c: Cell, i: Image, i': Image)
    requires cells != [] && Holds(cells, i) && Page(c.addr) == Page(cells[|cells| - 1].addr)
    requires i.NoImage? ==> i'.NoImage?
    requires i.Image? ==> |i.bytes| >= PAYLOAD && i'.Image?
    requires i.Image? ==> i'.bytes == i.bytes[|i.bytes| - PAYLOAD + c.addr % PAYLOAD := c.value]
    ensures Holds(cells + [c], i')
  {
    var all := cells + [c];
    assert all[..|all| - 1] == cells && all[|all| - 2] == cells[|cells| - 1];
    if i.Image? {
      assert |i.bytes| - PAYLOAD + c.addr % PAYLOAD == c.addr - ImageStart(cells);
    }
  }

  /** A byte of the image that goes on with a later page. */
  lemma NextPageByte(cells: seq<Cell>, c: Cell, bytes: seq<byte>, gap: nat, j: nat)
    requires cells != [] && PagesOk(cells)
    requires |bytes| + ImageStart(cells) == PAYLOAD * (Page(cells[|cells| - 1].addr) + 1)
    requires j < |bytes| ==> bytes[j] == Value(cells, ImageStart(cells) + j)
    requires gap + PAYLOAD * (Page(cells[|cells| - 1].addr) + 1) == PAYLOAD * Page(c.addr)
    requires j < |bytes| + gap + PAYLOAD
    ensures (bytes + Zeros(gap) + Zeros(PAYLOAD)[c.addr % PAYLOAD := c.value])[j] ==
            Value(cells + [c], ImageStart(cells) + j)
  {
    hide Page, PagesOk;
    PageParts(c.addr);
    var a := ImageStart(cells) + j;
    assert (cells + [c])[..|cells|] == cells;
    if j >= |bytes| { NothingBeyond(cells, a); }
    var n := |bytes| + gap;
    assert n + ImageStart(cells) == PAYLOAD * Page(c.addr);
    assert j >= n ==> Zeros(PAYLOAD)[c.addr % PAYLOAD := c.value][j - n] == if a == c.addr then c.value else 0;
  }

  lemma NextPage(cells: seq<Cell>, c: Cell, i: Image, i': Image)
    requires cells != [] && Holds(cells, i) && Page(c.addr) != Page(cells[|cells| - 1].addr)
    requires var gap := PAYLOAD * (Page(c.addr) - Page(cells[|cells| - 1].addr) - 1);
             if i.NoImage? || !GapOk(gap) then i'.NoImage?
             else i' == Image(i.bytes + Zeros(gap) + Zeros(PAYLOAD)[c.addr % PAYLOAD := c.value])
    ensures Holds(cells + [c], i')
  {
    hide Page, Value;
    var all, last := cells + [c], cells[|cells| - 1];
    var gap := PAYLOAD * (Page(c.addr) - Page(last.addr) - 1);
    assert all[..|all| - 1] == cells && all[|all| - 2] == last && all[0] == cells[0];
    WholePages(Page(c.addr) - Page(last.addr) - 1);
    assert GapOk(gap) <==> PageStep(last, c);
    if i'.Image? {
      forall j | 0 <= j < |i'.bytes| ensures i'.bytes[j] == Value(all, ImageStart(all) + j) {
        NextPageByte(cells, c, i.bytes, gap, j);
      }
    }
  }

  lemma WholePages(n: int)
    ensures PAYLOAD * n % 4 == 0
  {}

  lemma PageParts(a: nat)
    ensures a == PAYLOAD * Page(a) + a % PAYLOAD
  {}

  lemma FirstPage(c: Cell)
    ensures Holds([c], Image(Zeros(0) + Zeros(PAYLOAD)[c.addr % PAYLOAD := c.value]))
  {
    assert [c][..0] == [];
    var img := Zeros(0) + Zeros(PAYLOAD)[c.addr % PAYLOAD := c.value];
    forall j | 0 <= j < |img| ensures img[j] == Value([c], ImageStart([c]) + j) {
      assert img[j] == if j == c.addr % PAYLOAD then c.value else 0;
      assert Value([], ImageStart([c]) + j) == 0;
    }
  }

  lemma FillOne(cells: seq<Cell>, c: Cell)
    ensures var ks, all := Fill(cells), Fill(cells + [c]);
            var at := c.addr % PAYLOAD;
            all == if ks == [] || Page(ks[|ks| - 1].addr) != Page(c.addr)
              then ks + [Chunk(PAYLOAD * Page(c.addr), Zeros(PAYLOAD)[at := c.value])]
              else ks[|ks| - 1 := ks[|ks| - 1].(data := ks[|ks| - 1].data[at := c.value])]
  {
    assert (cells + [c])[..|cells|] == cells;
  }

  lemma ImageLastChanged(ks: seq<Chunk>, at: nat, v: byte)
    requires ks != [] && at < PAYLOAD
    ensures var n := |ks|;
            var k := ks[n - 1];
            var i, i' := ImageOf(ks, n), ImageOf(ks[n - 1 := k.(data := k.data[at := v])], n);
            && (i.NoImage? ==> i'.NoImage?)
            && (i.Image? ==> |i.bytes| >= PAYLOAD && i'.Image? && i'.bytes == i.bytes[|i.bytes| - PAYLOAD + at := v])
  {
    var n := |ks|;
    var k := ks[n - 1];
    var ks' := ks[n - 1 := k.(data := k.data[at := v])];
    assert ks[..n - 1] == ks'[..n - 1];
    ImagePrefix(ks, ks', n - 1);
    assert Gap(ks', n) == Gap(ks, n);
  }

  lemma ImageOneMore(ks: seq<Chunk>, k: Chunk)
    ensures var n := |ks|;
            var gap := if n == 0 then 0 else k.addr - (ks[n - 1].addr + PAYLOAD);
            var i := ImageOf(ks, n);
            ImageOf(ks + [k], n + 1) ==
            (if i.NoImage? || !GapOk(gap) then NoImage else Image(i.bytes + Zeros(gap) + k.data))
  {
    var n := |ks|;
    assert (ks + [k])[..n] == ks[..n];
    ImagePrefix(ks + [k], ks, n);
  }

  lemma FilledOnNextPage(before: seq<Cell>, c: Cell)
    requires before != [] && Holds(before, ImageOf(Fill(before), |Fill(before)|))
    requires Page(c.addr) != Page(before[|before| - 1].addr)
    ensures Holds(before + [c], ImageOf(Fill(before + [c]), |Fill(before + [c])|))
  {
    hide Fill, Holds, ImageOf, Page;
    var ks := Fill(before);
    LastBlock(before);
    FillOne(before, c);
    var k := Chunk(PAYLOAD * Page(c.addr), Zeros(PAYLOAD)[c.addr % PAYLOAD := c.value]);
    PageOfMultiple(Page(before[|before| - 1].addr));
    assert Fill(before + [c]) == ks + [k];
    ImageOneMore(ks, k);
    NextPage(before, c, ImageOf(ks, |ks|), ImageOf(ks + [k], |ks| + 1));
  }

  lemma PageOfMultiple(p: nat)
    ensures Page(PAYLOAD * p) == p
  {}

  lemma FilledOnSamePage(before: seq<Cell>, c: Cell)
    requires before != [] && Holds(before, ImageOf(Fill(before), |Fill(before)|))
    requires Page(c.addr) == Page(before[|before| - 1].addr)
    ensures Holds(before + [c], ImageOf(Fill(before + [c]), |Fill(before + [c])|))
  {
    hide Fill, Holds, ImageOf, Page;
    var ks := Fill(before);
    LastBlock(before);
    FillOne(before, c);
    PageOfMultiple(Page(before[|before| - 1].addr));
    ImageLastChanged(ks, c.addr % PAYLOAD, c.value);
    SamePage(before, c, ImageOf(ks, |ks|), ImageOf(Fill(before + [c]), |ks|));
  }

  lemma FilledFirst(c: Cell)
    ensures Holds([c], ImageOf(Fill([c]), |Fill([c])|))
  {
    hide Holds;
    assert [c][..0] == [];
    assert Fill([c])[0] == Chunk(PAYLOAD * Page(c.addr), Zeros(PAYLOAD)[c.addr % PAYLOAD := c.value]);
    assert [] + Zeros(0) == Zeros(0);
    FirstPage(c);
  }

  lemma {:induction false} FilledImage(cells: seq<Cell>)
    requires cells != []
    ensures Holds(cells, ImageOf(Fill(cells), |Fill(cells)|))
  {
    hide Holds, Fill, ImageOf, Page;
    var before, c := cells[..|cells| - 1], cells[|cells| - 1];
    assert cells == before + [c];
    if before == [] {
      assert cells == [c];
      FilledFirst(c);
    } else {
      FilledImage(before);
      if Page(c.addr) != Page(before[|before| - 1].addr) {
        FilledOnNextPage(before, c);
      } else {
        FilledOnSamePage(before, c);
      }
    }
  }

  // ---------------------------------------------------------------- records and lines

  lemma {:induction false} DataCellsAre(raw: Raw, addr: nat, n: nat, data: seq<byte>)
    requires n + 5 <= |raw| && |data| == |raw| - 5 && raw[4..|raw| - 1] == data
    ensures DataCells(raw, addr, n) == Spread(addr, data)[..n]
  {
    if n > 0 {
      DataCellsAre(raw, addr, n - 1, data);
      assert raw[4 + n - 1] == raw[4..|raw| - 1][n - 1] == data[n - 1];
      assert Spread(addr, data)[..n] == Spread(addr, data)[..n - 1] + [Cell(addr + n - 1, data[n - 1])];
    } else {
      assert Spread(addr, data)[..0] == [];
    }
  }

  lemma ReadsRecord(h: Hex, rs: seq<Record>, r: Record)
    requires h == Hex(PlacedBy(rs).upper, false, PlacedBy(rs).cells) && RecordOk(r)
    ensures ReadRecord(h, RawOf(r)) == Hex(PlacedBy(rs + [r]).upper, false, PlacedBy(rs + [r]).cells)
  {
    var raw := RawOf(r);
    assert (rs + [r])[..|rs|] == rs;
    match r.body {
      case Data(offset, data) =>
        assert raw[4..|raw| - 1] == data;
        DataCellsAre(raw, h.upper + offset, |data|, data);
        assert Spread(h.upper + offset, data)[..|data|] == Spread(h.upper + offset, data);
        assert raw[1] as int * 0x100 + raw[2] as int == offset;
      case Linear(upper) =>
      case Segment(upper) =>
      case Other(kind, data) => assert raw[3] == kind;
    }
  }

  function HexDigit(v: nat): (c: char)
    requires v < 16
    ensures HexValue(c) == v
  {
    if v < 10 then '0' + v as char else 'A' + (v - 10) as char
  }

  function HexPairs(raw: Raw): (s: string)
    ensures |s| == 2 * |raw|
  {
    if raw == [] then "" else [HexDigit(raw[0] / 16), HexDigit(raw[0] % 16)] + HexPairs(raw[1..])
  }

  /** A record as a line, with or without a carriage return. */
  function Line(raw: Raw, cr: bool): (s: string) {
    ":" + HexPairs(raw) + (if cr then "\r" else "")
  }

  lemma {:induction false} ParsesPairs(line: string, i: nat, raw: Raw)
    requires i + 2 * |raw| <= |line| <= i + 2 * |raw| + 1 && line[i..i + 2 * |raw|] == HexPairs(raw)
    ensures ParsePairs(line, i) == Bytes(raw)
    decreases |raw|
  {
    if raw != [] {
      var s := line[i..i + 2 * |raw|];
      assert line[i] == s[0] && line[i + 1] == s[1];
      assert line[i + 2..i + 2 + 2 * |raw[1..]|] == s[2..] == HexPairs(raw[1..]);
      ParsesPairs(line, i + 2, raw[1..]);
      assert [raw[0]] + raw[1..] == raw;
    }
  }

  lemma ReadsLine(h: Hex, raw: Raw, cr: bool)
    requires h.Hex? && !h.ended
    ensures ReadLine(h, Line(raw, cr)) == ReadRecord(h, raw)
  {
    var line := Line(raw, cr);
    assert line[1..1 + 2 * |raw|] == HexPairs(raw);
    ParsesPairs(line, 1, raw);
  }

  /** The end-of-file record. */
  const END_RECORD: Raw := [0, 0, 0, 1, 0xFF]

  /** The lines are the printed records, the end record, and anything after it. */
  predicate IsFile(lines: seq<string>, rs: seq<Record>, cr: bool) {
    && |rs| < |lines|
    && (forall k :: 0 <= k < |rs| ==> RecordOk(rs[k]) && lines[k] == Line(RawOf(rs[k]), cr))
    && lines[|rs|] == Line(END_RECORD, cr)
  }

  lemma ReadsRecordLine(lines: seq<string>, rs: seq<Record>, r: Record, cr: bool)
    requires |rs| < |lines| && RecordOk(r) && lines[|rs|] == Line(RawOf(r), cr)
    requires ReadLines(lines, |rs|) == Hex(PlacedBy(rs).upper, false, PlacedBy(rs).cells)
    ensures ReadLines(lines, |rs| + 1) == Hex(PlacedBy(rs + [r]).upper, false, PlacedBy(rs + [r]).cells)
  {
    hide ReadLine, ReadRecord, PlacedBy, Line, RawOf, RecordOk;
    var h := ReadLines(lines, |rs|);
    ReadsLine(h, RawOf(r), cr);
    ReadsRecord(h, rs, r);
  }

  lemma FileLine(lines: seq<string>, rs: seq<Record>, cr: bool, k: nat)
    requires IsFile(lines, rs, cr) && k < |rs|
    ensures k < |lines| && RecordOk(rs[k]) && lines[k] == Line(RawOf(rs[k]), cr)
  {}

  lemma ReadsNoLines(lines: seq<string>)
    ensures ReadLines(lines, 0) == Hex(PlacedBy([]).upper, false, PlacedBy([]).cells)
  {}

  lemma {:induction false} ReadsRecords(lines: seq<string>, rs: seq<Record>, cr: bool, n: nat)
    requires IsFile(lines, rs, cr) && n <= |rs| < |lines|
    ensures ReadLines(lines, n) == Hex(PlacedBy(rs[..n]).upper, false, PlacedBy(rs[..n]).cells)
  {
    hide IsFile, ReadLines, PlacedBy, Line, RawOf, RecordOk;
    if n > 0 {
      ReadsRecords(lines, rs, cr, n - 1);
      FileLine(lines, rs, cr, n - 1);
      ReadsRecordLine(lines, rs[..n - 1], rs[n - 1], cr);
      assert rs[..n] == rs[..n - 1] + [rs[n - 1]];
    } else {
      ReadsNoLines(lines);
      assert rs[..0] == [];
    }
  }

  lemma {:induction false} ReadsToEnd(lines: seq<string>, rs: seq<Record>, cr: bool, n: nat)
    requires IsFile(lines, rs, cr) && |rs| < n <= |lines|
    ensures ReadLines(lines, n) == Hex(PlacedBy(rs).upper, true, PlacedBy(rs).cells)
  {
    if n == |rs| + 1 {
      ReadsRecords(lines, rs, cr, |rs|);
      assert rs[..|rs|] == rs;
      ReadsLine(ReadLines(lines, |rs|), END_RECORD, cr);
    } else {
      ReadsToEnd(lines, rs, cr, n - 1);
    }
  }

  // ---------------------------------------------------------------- whole files

  function Join(lines: seq<string>): (text: string)
    requires lines != []
  {
    if |lines| == 1 then lines[0] else lines[0] + "\n" + Join(lines[1..])
  }

  lemma {:induction false} SplitLine(line: string, rest: string)
    requires forall i :: 0 <= i < |line| ==> line[i] != '\n'
    ensures Split(line + "\n" + rest) == [line] + Split(rest)
  {
    if line == "" {
      assert "" + "\n" + rest == "\n" + rest && ("\n" + rest)[1..] == rest;
    } else {
      var text := line + "\n" + rest;
      assert text[1..] == line[1..] + "\n" + rest;
      SplitLine(line[1..], rest);
      assert [line[0]] + line[1..] == line;
    }
  }

  lemma {:induction false} SplitLast(line: string)
    requires forall i :: 0 <= i < |line| ==> line[i] != '\n'
    ensures Split(line) == [line]
  {
    if line != "" {
      SplitLast(line[1..]);
      assert [line[0]] + line[1..] == line;
    }
  }

  lemma {:induction false} SplitJoin(lines: seq<string>)
    requires lines != []
    requires forall k, i :: 0 <= k < |lines| && 0 <= i < |lines[k]| ==> lines[k][i] != '\n'
    ensures Split(Join(lines)) == lines
  {
    if |lines| == 1 {
      SplitLast(lines[0]);
    } else {
      SplitJoin(lines[1..]);
      SplitLine(lines[0], Join(lines[1..]));
    }
  }

  /** Round trip: a HEX file is converted if and only if its addresses and the number of blocks fit 32 bits;
      read back, the UF2 file gives an image if and only if the pages of the data bytes never go back and
      leave no gap above 10 MB; the image starts at the first page, each data byte stands at its address
      (the last one given, if several), and every other byte is zero. The addresses are the specified ones if
      and only if no data record crosses. */
  lemma HexRoundTrip(c: Settings, start: nat, lines: seq<string>, rs: seq<Record>, cr: bool, segmented: bool)
    requires SettingsOk(c) && IsFile(lines, rs, cr)
    requires forall k, i :: 0 <= k < |lines| && 0 <= i < |lines[k]| ==> lines[k][i] != '\n'
    ensures var cells := PlacedBy(rs).cells;
            var o := HexToUf2(c, Join(lines));
            && (o.Written? <==> Packable(Fill(cells)))
            && (cells == [] ==> o == Written([]))
            && (cells != [] && o.Written? ==>
                var back := FromUf2(c.family, start, o.bytes);
                Holds(cells, if back.Raised? then NoImage else Image(back.bytes)))
            && (cells == MeaningOf(rs, segmented).cells <==> NoneCrosses(rs, segmented))
  {
    var cells := PlacedBy(rs).cells;
    SplitJoin(lines);
    ReadsToEnd(lines, rs, cr, |lines|);
    PlacedAsSpecifiedIff(rs, segmented);
    if cells != [] && Packable(Fill(cells)) {
      FilledImage(cells);
      ReadsBack(c, start, true, Fill(cells));
    }
  }
}
