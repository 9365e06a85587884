/** Any text read as Intel HEX, line by line: which lines raise, which are skipped, and what the others say. */
module HexLines {
  import opened Bytes
  import opened Uf2Model

  // ---------------------------------------------------------------- pairs of digits

  const LOWER := "0123456789abcdef"
  const UPPER := "0123456789ABCDEF"

  lemma HexValueIff(c: char, v: nat)
    requires v < 16
    ensures HexValue(c) == v <==> c == LOWER[v] || c == UPPER[v]
  {}

  predicate IsDigit(c: char) {
    c in LOWER || c in UPPER
  }

  lemma DigitHasValue(c: char)
    ensures IsDigit(c) <==> HexValue(c) >= 0
  {
    if HexValue(c) >= 0 { HexValueIff(c, HexValue(c)); }
  }

  /** Two characters are readable exactly if both are digits, or one is and the other is blank; the first digit counts
      sixteen if there are two. */
  lemma PairIff(a: char, b: char)
    ensures PairValue(a, b) >= 0 <==>
            (IsDigit(a) || IsBlank(a)) && (IsDigit(b) || IsBlank(b)) && (IsDigit(a) || IsDigit(b))
    ensures IsDigit(a) && IsDigit(b) ==> PairValue(a, b) == 16 * HexValue(a) + HexValue(b)
    ensures IsDigit(a) && IsBlank(b) ==> PairValue(a, b) == HexValue(a)
    ensures IsBlank(a) && IsDigit(b) ==> PairValue(a, b) == HexValue(b)
  {
    hide IsDigit;
    DigitHasValue(a);
    DigitHasValue(b);
  }

  // ---------------------------------------------------------------- the bytes of a line

  /** The number of whole pairs behind the first character. */
  function Pairs(line: string): nat {
    if line == "" then 0 else (|line| - 1) / 2
  }

  function PairAt(line: string, k: nat): (v: int)
    requires k < Pairs(line)
  {
    PairValue(line[2 * k + 1], line[2 * k + 2])
  }

  predicate Readable(line: string) {
    forall k :: 0 <= k < Pairs(line) ==> PairAt(line, k) >= 0
  }

  function RecordOf(line: string): (raw: Raw)
    requires Readable(line)
    ensures |raw| == Pairs(line) && forall k :: 0 <= k < |raw| ==> raw[k] == PairAt(line, k)
  {
    seq(Pairs(line), k requires 0 <= k < Pairs(line) => PairAt(line, k))
  }

  /** The pairs from the `k`-th on. */
  lemma {:induction false} ParsesFrom(line: string, k: nat)
    requires line != "" && k <= Pairs(line)
    ensures var p := ParsePairs(line, 2 * k + 1);
            if forall j :: k <= j < Pairs(line) ==> PairAt(line, j) >= 0
            then p.Bytes? && |p.raw| == Pairs(line) - k && forall j :: k <= j < Pairs(line) ==>
              p.raw[j - k] == PairAt(line, j)
            else p.Unreadable?
    decreases Pairs(line) - k
  {
    if k < Pairs(line) {
      ParsesFrom(line, k + 1);
      assert PairAt(line, k) == PairValue(line[2 * k + 1], line[2 * k + 2]);
    }
  }

  /** Reading a line gives the bytes of its pairs, or fails if one is not readable. */
  lemma ParsesLine(line: string)
    requires line != ""
    ensures ParsePairs(line, 1) == if Readable(line) then Bytes(RecordOf(line)) else Unreadable
  {
    hide PairAt;
    ParsesFrom(line, 0);
  }

  // ---------------------------------------------------------------- lines

  /** A record of the given kind. */
  predicate IsRecord(line: string, kind: byte) {
    line != "" && line[0] == ':' && Readable(line) && Pairs(line) >= 4 && RecordOf(line)[3] == kind
  }

  /** An empty line, or one with a colon that has an unreadable pair, less than four bytes, or is a base address of less
      than six. */
  predicate BadLine(line: string) {
    || line == ""
    || (line[0] == ':' && (|| !Readable(line) || Pairs(line) < 4
                           || (Pairs(line) < 6 && (IsRecord(line, 2) || IsRecord(line, 4)))))
  }

  lemma LineFails(h: Hex, line: string)
    requires h.Hex? && !h.ended
    ensures ReadLine(h, line).Broken? <==> BadLine(line)
    ensures !BadLine(line) ==> (ReadLine(h, line).ended <==> IsRecord(line, 1))
  {
    hide PairAt;
    if line != "" { ParsesLine(line); }
  }

  /** Two bytes of a record, the high one first. */
  function WordIn(r: Raw, i: nat): (v: nat)
    requires i + 1 < |r|
  {
    r[i] as int * 0x100 + r[i + 1] as int
  }

  /** The data bytes of a record at consecutive addresses: all but the four leading bytes and the last. */
  function DataOf(r: Raw, upper: nat): (cells: seq<Cell>)
    requires |r| >= 4
  {
    var n := if |r| < 5 then 0 else |r| - 5;
    seq(n, i requires 0 <= i < n => Cell(upper + WordIn(r, 1) + i, r[4 + i]))
  }

  /** Before the end record, a line without a colon is skipped; a data record adds its bytes; a base address
      replaces the upper address; other kinds say nothing. */
  lemma LineSays(h: Hex, line: string)
    requires h.Hex? && !h.ended && !BadLine(line)
    ensures var h' := ReadLine(h, line);
            && h'.Hex?
            && (line[0] != ':' ==> h' == h)
            && (IsRecord(line, 0) ==> h' == h.(cells := h.cells + DataOf(RecordOf(line), h.upper)))
            && (IsRecord(line, 2) ==> h' == h.(upper := 0x10 * WordIn(RecordOf(line), 4)))
            && (IsRecord(line, 4) ==> h' == h.(upper := 0x1_0000 * WordIn(RecordOf(line), 4)))
            && (line[0] == ':' && !IsRecord(line, 0) && !IsRecord(line, 2) && !IsRecord(line, 4) ==>
                  h'.upper == h.upper && h'.cells == h.cells)
  {
    hide PairAt;
    LineFails(h, line);
    ParsesLine(line);
    if IsRecord(line, 0) {
      var r := RecordOf(line);
      DataCellsEach(r, h.upper + WordIn(r, 1), if |r| < 5 then 0 else |r| - 5);
      assert DataCells(r, h.upper + WordIn(r, 1), if |r| < 5 then 0 else |r| - 5) == DataOf(r, h.upper);
    }
  }

  lemma {:induction false} DataCellsEach(raw: Raw, addr: nat, n: nat)
    requires n + 5 <= |raw| || n == 0
    ensures forall i :: 0 <= i < n ==> DataCells(raw, addr, n)[i] == Cell(addr + i, raw[4 + i])
  {
    if n > 0 { DataCellsEach(raw, addr, n - 1); }
  }

  // ---------------------------------------------------------------- whole texts

  predicate BadBefore(lines: seq<string>, n: nat)
    requires n <= |lines|
  {
    exists i :: 0 <= i < n && BadLine(lines[i]) && forall j :: 0 <= j < i ==> !IsRecord(lines[j], 1)
  }

  lemma {:induction false} LinesFail(lines: seq<string>, n: nat)
    requires n <= |lines|
    ensures ReadLines(lines, n).Broken? <==> BadBefore(lines, n)
    ensures ReadLines(lines, n).Hex? ==>
              (ReadLines(lines, n).ended <==> exists j :: 0 <= j < n && IsRecord(lines[j], 1))
  {
    hide ReadLine, BadLine, IsRecord;
    if n > 0 {
      LinesFail(lines, n - 1);
      var h := ReadLines(lines, n - 1);
      if h.Hex? && !h.ended {
        LineFails(h, lines[n - 1]);
      } else {
        StaysSo(h, lines[n - 1]);
      }
    }
  }

  lemma StaysSo(h: Hex, line: string)
    requires h.Broken? || h.ended
    ensures ReadLine(h, line) == h
  {}

  /** Converting any text raises if and only if a bad line comes before any end record, or an address or the number of
      blocks does not fit 32 bits. */
  lemma HexRaisesIff(c: Settings, text: string)
    requires SettingsOk(c)
    ensures var lines := Split(text);
            var h := ReadLines(lines, |lines|);
            HexToUf2(c, text).Raised? <==> BadBefore(lines, |lines|) || (h.Hex? && !Packable(Fill(h.cells)))
  {
    hide ReadLines, BadBefore, Fill, EncodeBlocks, Packable;
    LinesFail(Split(text), |Split(text)|);
  }
}
