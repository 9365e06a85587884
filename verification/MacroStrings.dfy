/** The macro reader of `dynamic_keymap_macro_send`: finding the id-th string in the macro buffer and
    cutting it into the chunks handed to `send_string_with_delay`. */
module MacroStrings {
  import opened Bytes
  import opened KeymapStorage

  const QMK_PREFIX: byte := 1
  const DELAY_CODE: byte := 4
  const BAR: byte := 124
  const CHUNK_SIZE: nat := 8

  /** `SS_TAP_CODE`, `SS_DOWN_CODE`, `SS_UP_CODE` */
  predicate IsActCode(b: byte) {
    b == 1 || b == 2 || b == 3
  }

  type Chunk = d: seq<byte> | |d| == CHUNK_SIZE witness [0, 0, 0, 0, 0, 0, 0, 0]

  const EMPTY: Chunk := [0, 0, 0, 0, 0, 0, 0, 0]

  /** The C string at the start of the chunk. */
  function CString(d: seq<byte>): (s: seq<byte>) {
    if d == [] || d[0] == 0 then [] else [d[0]] + CString(d[1..])
  }

  /** One iteration of the reading loop at position `p`: the end of the string, an abort, a read past the
      end of the buffer, or a chunk and the position after it. */
  datatype Token = Stop | Abort | PastEnd | Send(next: nat, data: Chunk)

  /** The inner loop for a delay, about to fill `data[i]`. */
  function NextDelay(buf: seq<byte>, p: nat, i: nat, data: Chunk): (t: Token)
    requires 2 <= i <= 6
    decreases 7 - i
  {
    if p >= |buf| then PastEnd
    else
      var d := data[i := buf[p]];
      if buf[p] == 0 then Abort
      else if buf[p] == BAR then Send(p + 1, d[i + 1 := 0])
      else if i == 6 then Abort
      else NextDelay(buf, p + 1, i + 1, d)
  }

  function NextToken(buf: seq<byte>, p: nat, data: Chunk): (t: Token) {
    if p >= |buf| then PastEnd
    else
      var d := data[0 := buf[p]][1 := 0];
      if buf[p] == 0 then Stop
      else if buf[p] != QMK_PREFIX then Send(p + 1, d)
      else if p + 1 >= |buf| then PastEnd
      else
        var d1 := d[1 := buf[p + 1]];
        if buf[p + 1] == 0 then Abort
        else if IsActCode(buf[p + 1]) then
          if p + 2 >= |buf| then PastEnd
          else if buf[p + 2] == 0 then Abort
          else Send(p + 3, d1[2 := buf[p + 2]][3 := 0])
        else if buf[p + 1] == DELAY_CODE then NextDelay(buf, p + 2, 2, d1)
        else Send(p + 2, d1)
  }

  lemma {:induction false} DelayAdvances(buf: seq<byte>, p: nat, i: nat, data: Chunk)
    requires 2 <= i <= 6
    ensures var t := NextDelay(buf, p, i, data);
            t.Send? ==> p < t.next <= |buf| && (data[7] == 0 ==> t.data[7] == 0)
    decreases 7 - i
  {
    if p < |buf| && buf[p] != 0 && buf[p] != BAR && i < 6 {
      DelayAdvances(buf, p + 1, i + 1, data[i := buf[p]]);
    }
  }

  lemma TokenAdvances(buf: seq<byte>, p: nat, data: Chunk)
    ensures var t := NextToken(buf, p, data);
            t.Send? ==> p < t.next <= |buf| && (data[7] == 0 ==> t.data[7] == 0)
  {
    if p + 1 < |buf| && buf[p] == QMK_PREFIX && buf[p + 1] == DELAY_CODE {
      DelayAdvances(buf, p + 2, 2, data[0 := buf[p]][1 := 0][1 := buf[p + 1]]);
    }
  }

  /** What was sent, and whether the reader ran past the end of the buffer. */
  datatype Result = Result(chunks: seq<seq<byte>>, pastEnd: bool)

  function SendFrom(buf: seq<byte>, p: nat, data: Chunk): (r: Result)
    decreases |buf| - p
  {
    TokenAdvances(buf, p, data);
    var t := NextToken(buf, p, data);
    match t
    case Stop => Result([], false)
    case Abort => Result([], false)
    case PastEnd => Result([], true)
    case Send(next, d) =>
      var rest := SendFrom(buf, next, d);
      Result([CString(d)] + rest.chunks, rest.pastEnd)
  }

  /** The position after `id` zero bytes from `p` on, or -1. */
  function Skip(buf: seq<byte>, p: nat, id: nat): (q: int)
    requires p <= |buf|
    ensures q == -1 || p <= q <= |buf|
    decreases |buf| - p
  {
    if id == 0 then p
    else if p == |buf| then -1
    else Skip(buf, p + 1, if buf[p] == 0 then id - 1 else id)
  }

  /** `dynamic_keymap_macro_send` on a macro buffer, `count` being the number of macros allowed. */
  function MacroSend(buf: seq<byte>, id: nat, count: nat): (r: Result)
    requires buf != []
  {
    if id >= count || buf[|buf| - 1] != 0 then Result([], false)
    else
      var p := Skip(buf, 0, id);
      if p == -1 then Result([], false) else SendFrom(buf, p, EMPTY)
  }

  // ---------------------------------------------------------------- reads stay inside the buffer

  function Zeros(buf: seq<byte>): nat {
    if buf == [] then 0 else (if buf[0] == 0 then 1 else 0) + Zeros(buf[1..])
  }

  lemma {:induction false} SkipCounts(buf: seq<byte>, p: nat, id: nat)
    requires p <= |buf|
    ensures Skip(buf, p, id) == -1 <==> Zeros(buf[p..]) < id
    ensures Zeros(buf[p..]) > id ==> Skip(buf, p, id) < |buf|
    ensures id > 0 && buf != [] && buf[|buf| - 1] == 0 && Zeros(buf[p..]) == id ==> Skip(buf, p, id) == |buf|
    decreases |buf| - p
  {
    if p == |buf| {
      assert buf[p..] == [];
    } else {
      assert buf[p..][1..] == buf[p + 1..];
      if id > 0 {
        SkipCounts(buf, p + 1, if buf[p] == 0 then id - 1 else id);
        if buf[|buf| - 1] == 0 && buf[p] == 0 && id == 1 && Zeros(buf[p..]) == 1 { LastZeroCounts(buf, p + 1); }
      }
    }
  }

  lemma {:induction false} LastZeroCounts(buf: seq<byte>, p: nat)
    requires p <= |buf| && buf != [] && buf[|buf| - 1] == 0
    ensures p < |buf| ==> Zeros(buf[p..]) > 0
    decreases |buf| - p
  {
    if p < |buf| {
      assert buf[p..][1..] == buf[p + 1..];
      if p + 1 < |buf| { LastZeroCounts(buf, p + 1); }
    }
  }

  lemma {:induction false} DelayStays(buf: seq<byte>, p: nat, i: nat, data: Chunk)
    requires 2 <= i <= 6 && p < |buf| && buf[|buf| - 1] == 0
    ensures var t := NextDelay(buf, p, i, data); !t.PastEnd? && (t.Send? ==> t.next < |buf|)
    decreases 7 - i
  {
    if buf[p] != 0 && buf[p] != BAR && i < 6 { DelayStays(buf, p + 1, i + 1, data[i := buf[p]]); }
  }

  /** Before a final zero the reader never runs past the end. */
  lemma {:induction false} SendStays(buf: seq<byte>, p: nat, data: Chunk)
    requires p < |buf| && buf[|buf| - 1] == 0
    ensures !SendFrom(buf, p, data).pastEnd
    decreases |buf| - p
  {
    TokenAdvances(buf, p, data);
    if buf[p] == QMK_PREFIX && buf[p + 1] == DELAY_CODE {
      DelayStays(buf, p + 2, 2, data[0 := buf[p]][1 := 0][1 := buf[p + 1]]);
    }
    var t := NextToken(buf, p, data);
    if t.Send? {
      assert t.next < |buf|;
      SendStays(buf, t.next, t.data);
    }
  }

  lemma RunsPast(buf: seq<byte>)
    ensures SendFrom(buf, |buf|, EMPTY).pastEnd
  {}

  /** All reads stay inside the macro buffer, except exactly when a valid buffer holds exactly `id` > 0
      zero bytes: then the reader starts one byte past the end. */
  lemma ReadsStayInsideIff(buf: seq<byte>, id: nat, count: nat)
    requires buf != [] && id < count && buf[|buf| - 1] == 0
    ensures MacroSend(buf, id, count).pastEnd <==> id > 0 && Zeros(buf) == id
  {
    hide NextToken, Skip, Zeros;
    assert buf[0..] == buf;
    SkipCounts(buf, 0, id);
    LastZeroCounts(buf, 0);
    var p := Skip(buf, 0, id);
    if 0 <= p < |buf| { SendStays(buf, p, EMPTY); }
    if p == |buf| { RunsPast(buf); }
  }

  // ---------------------------------------------------------------- well-formed strings

  /** What a well-formed macro string is made of. */
  datatype Item = Plain(c: byte) | Act(code: byte, key: byte) | Delay(text: seq<byte>)

  predicate ItemOk(i: Item) {
    match i
    case Plain(c) => c != 0 && c != QMK_PREFIX
    case Act(code, key) => IsActCode(code) && key != 0
    case Delay(text) => |text| <= 4 && forall k :: 0 <= k < |text| ==> text[k] != 0 && text[k] != BAR
  }

  function Encode(i: Item): (s: seq<byte>) {
    match i
    case Plain(c) => [c]
    case Act(code, key) => [QMK_PREFIX, code, key]
    case Delay(text) => [QMK_PREFIX, DELAY_CODE] + text + [BAR]
  }

  function Encodings(items: seq<Item>): (chunks: seq<seq<byte>>) {
    if items == [] then [] else [Encode(items[0])] + Encodings(items[1..])
  }

  function Text(items: seq<Item>): (s: seq<byte>) {
    if items == [] then [] else Encode(items[0]) + Text(items[1..])
  }

  predicate AllOk(items: seq<Item>) {
    forall k :: 0 <= k < |items| ==> ItemOk(items[k])
  }

  /** `s` stands at position `p`. */
  predicate At(buf: seq<byte>, p: nat, s: seq<byte>) {
    p + |s| <= |buf| && buf[p..p + |s|] == s
  }

  lemma AtConcat(buf: seq<byte>, p: nat, a: seq<byte>, b: seq<byte>)
    requires At(buf, p, a + b)
    ensures At(buf, p, a) && At(buf, p + |a|, b)
  {
    var s := buf[p..p + |a + b|];
    assert buf[p..p + |a|] == s[..|a|] == a;
    assert buf[p + |a|..p + |a| + |b|] == s[|a|..] == b;
  }

  lemma AtByte(buf: seq<byte>, p: nat, s: seq<byte>, k: nat)
    requires At(buf, p, s) && k < |s|
    ensures p + k < |buf| && buf[p + k] == s[k]
  {
    assert buf[p..p + |s|][k] == s[k];
  }

  lemma {:induction false} CStringIs(d: seq<byte>, s: seq<byte>)
    requires |s| < |d| && d[..|s|] == s && d[|s|] == 0 && (forall k :: 0 <= k < |s| ==> s[k] != 0)
    ensures CString(d) == s
  {
    if s != [] {
      assert d[0] == s[0];
      assert d[1..][..|s| - 1] == s[1..];
      CStringIs(d[1..], s[1..]);
      assert s == [s[0]] + s[1..];
    }
  }

  lemma {:induction false} ReadsDelay(buf: seq<byte>, p: nat, i: nat, data: Chunk, text: seq<byte>)
    requires At(buf, p, text + [BAR]) && i >= 2 && i + |text| <= 6
    requires forall k :: 0 <= k < |text| ==> text[k] != 0 && text[k] != BAR
    ensures var t := NextDelay(buf, p, i, data);
            && t.Send? && t.next == p + |text| + 1
            && t.data == data[..i] + text + [BAR, 0] + data[i + |text| + 2..]
    decreases |text|
  {
    AtByte(buf, p, text + [BAR], 0);
    var d := data[i := buf[p]];
    if text == [] {
      assert d[i + 1 := 0] == data[..i] + text + [BAR, 0] + data[i + |text| + 2..];
    } else {
      assert text + [BAR] == [text[0]] + (text[1..] + [BAR]);
      AtConcat(buf, p, [text[0]], text[1..] + [BAR]);
      ReadsDelay(buf, p + 1, i + 1, d, text[1..]);
      assert d[..i + 1] + text[1..] == data[..i] + text;
    }
  }

  /** Reading an encoded item sends exactly its bytes, whatever the chunk held before. */
  lemma ReadsItem(buf: seq<byte>, p: nat, data: Chunk, i: Item)
    requires ItemOk(i) && At(buf, p, Encode(i))
    ensures var t := NextToken(buf, p, data);
            t.Send? && t.next == p + |Encode(i)| && CString(t.data) == Encode(i)
  {
    var s := Encode(i);
    var t := NextToken(buf, p, data);
    AtByte(buf, p, s, 0);
    match i {
      case Plain(c) => CStringIs(t.data, s);
      case Act(code, key) =>
        AtByte(buf, p, s, 1);
        AtByte(buf, p, s, 2);
        assert t.data[..3] == s;
        CStringIs(t.data, s);
      case Delay(text) =>
        AtByte(buf, p, s, 1);
        var d1 := data[0 := buf[p]][1 := 0][1 := buf[p + 1]];
        assert s == [QMK_PREFIX, DELAY_CODE] + (text + [BAR]);
        AtConcat(buf, p, [QMK_PREFIX, DELAY_CODE], text + [BAR]);
        ReadsDelay(buf, p + 2, 2, d1, text);
        assert t.data[..|s|] == s && t.data[|s|] == 0;
        CStringIs(t.data, s);
    }
  }

  lemma ReadsEnd(buf: seq<byte>, p: nat, data: Chunk)
    requires At(buf, p, [0])
    ensures SendFrom(buf, p, data) == Result([], false)
  {
    AtByte(buf, p, [0], 0);
  }

  /** A well-formed string is sent item by item. */
  lemma {:induction false} ReadsText(buf: seq<byte>, p: nat, data: Chunk, items: seq<Item>)
    requires AllOk(items) && At(buf, p, Text(items) + [0])
    ensures SendFrom(buf, p, data) == Result(Encodings(items), false)
    decreases |items|
  {
    hide NextToken, Encode, At, CString, ItemOk;
    if items == [] {
      assert Text(items) + [0] == [0];
      ReadsEnd(buf, p, data);
    } else {
      assert Text(items) + [0] == Encode(items[0]) + (Text(items[1..]) + [0]);
      AtConcat(buf, p, Encode(items[0]), Text(items[1..]) + [0]);
      ReadsItem(buf, p, data, items[0]);
      var t := NextToken(buf, p, data);
      ReadsText(buf, t.next, t.data, items[1..]);
    }
  }

  function Concat(chunks: seq<seq<byte>>): (s: seq<byte>) {
    if chunks == [] then [] else chunks[0] + Concat(chunks[1..])
  }

  lemma {:induction false} EncodingsConcat(items: seq<Item>)
    ensures Concat(Encodings(items)) == Text(items)
  {
    if items != [] {
      assert Encodings(items)[1..] == Encodings(items[1..]);
      EncodingsConcat(items[1..]);
    }
  }

  /** The macro strings one after the other, each followed by a zero. */
  function Macros(macros: seq<seq<Item>>): (s: seq<byte>) {
    if macros == [] then [] else Text(macros[0]) + [0] + Macros(macros[1..])
  }

  lemma {:induction false} TextHasNoZero(items: seq<Item>, k: nat)
    requires AllOk(items) && k < |Text(items)|
    ensures Text(items)[k] != 0
  {
    var s := Encode(items[0]);
    assert ItemOk(items[0]);
    if k >= |s| { TextHasNoZero(items[1..], k - |s|); }
  }

  lemma {:induction false} SkipsText(buf: seq<byte>, p: nat, s: seq<byte>, id: nat)
    requires At(buf, p, s + [0]) && id > 0 && forall k :: 0 <= k < |s| ==> s[k] != 0
    ensures Skip(buf, p, id) == Skip(buf, p + |s| + 1, id - 1)
    decreases |s|
  {
    AtByte(buf, p, s + [0], 0);
    if s != [] {
      assert s + [0] == [s[0]] + (s[1..] + [0]);
      AtConcat(buf, p, [s[0]], s[1..] + [0]);
      SkipsText(buf, p + 1, s[1..], id);
    }
  }

  lemma AtBound(buf: seq<byte>, p: nat, s: seq<byte>)
    requires At(buf, p, s)
    ensures p + |s| <= |buf|
  {}

  /** Skipping `id` zeros lands on the id-th string. */
  lemma {:induction false} FindsMacro(buf: seq<byte>, p: nat, macros: seq<seq<Item>>, id: nat)
    requires At(buf, p, Macros(macros)) && id < |macros| && forall k :: 0 <= k < |macros| ==> AllOk(macros[k])
    ensures var q := Skip(buf, p, id); q >= 0 && At(buf, q, Text(macros[id]) + [0])
    decreases id
  {
    hide Skip, Text, At, AllOk;
    var first := Text(macros[0]) + [0];
    AtConcat(buf, p, first, Macros(macros[1..]));
    AtBound(buf, p, first);
    if id > 0 {
      forall k | 0 <= k < |Text(macros[0])| ensures Text(macros[0])[k] != 0 { TextHasNoZero(macros[0], k); }
      SkipsText(buf, p, Text(macros[0]), id);
      FindsMacro(buf, p + |first|, macros[1..], id - 1);
    } else {
      SkipsNothing(buf, p);
    }
  }

  lemma SkipsNothing(buf: seq<byte>, p: nat)
    requires p <= |buf|
    ensures Skip(buf, p, 0) == p
  {}

  /** Round trip: in a valid buffer that starts with well-formed macros, sending macro `id` sends exactly
      its items, and the chunks concatenate to its string. */
  lemma SendsTheMacro(buf: seq<byte>, macros: seq<seq<Item>>, id: nat, count: nat)
    requires buf != [] && At(buf, 0, Macros(macros)) && buf[|buf| - 1] == 0
    requires id < |macros| && id < count && forall k :: 0 <= k < |macros| ==> AllOk(macros[k])
    ensures MacroSend(buf, id, count) == Result(Encodings(macros[id]), false)
    ensures Concat(MacroSend(buf, id, count).chunks) == Text(macros[id])
  {
    FindsMacro(buf, 0, macros, id);
    ReadsText(buf, Skip(buf, 0, id), EMPTY, macros[id]);
    EncodingsConcat(macros[id]);
  }

  /** A character, a tap, a key held and released, and a delay of 150 ms. */
  function EachKind(key: byte): seq<Item> {
    [Plain(97), Act(1, key), Act(2, key), Act(3, key), Delay([49, 53, 48])]
  }

  lemma OneMoreItem(i: Item, items: seq<Item>)
    ensures Text([i] + items) == Encode(i) + Text(items) && Encodings([i] + items) == [Encode(i)] + Encodings(items)
  {
    assert ([i] + items)[1..] == items;
  }

  /** The bytes of a macro with one item of each kind, and what is sent for it. */
  lemma SendsEachKind(key: byte)
    requires key != 0
    ensures Text(EachKind(key)) == [97] + [1, 1, key] + [1, 2, key] + [1, 3, key] + [1, 4, 49, 53, 48, 124]
    ensures MacroSend(Text(EachKind(key)) + [0], 0, 1).chunks ==
            [[97], [1, 1, key], [1, 2, key], [1, 3, key], [1, 4, 49, 53, 48, 124]]
  {
    KindsOk(key);
    KindsEncoded(key);
    hide EachKind, Encodings, Text, MacroSend;
    var items := EachKind(key);
    var buf := Text(items) + [0];
    OneMacro(items);
    assert buf[..|buf|] == buf;
    SendsTheMacro(buf, [items], 0, 1);
  }

  lemma OneMacro(items: seq<Item>)
    ensures Macros([items]) == Text(items) + [0]
  {
    assert [items][1..] == [];
  }

  lemma KindsOk(key: byte)
    requires key != 0
    ensures AllOk(EachKind(key))
  {}

  lemma KindsEncoded(key: byte)
    ensures Encodings(EachKind(key)) == [[97], [1, 1, key], [1, 2, key], [1, 3, key], [1, 4, 49, 53, 48, 124]]
    ensures Text(EachKind(key)) == [97] + [1, 1, key] + [1, 2, key] + [1, 3, key] + [1, 4, 49, 53, 48, 124]
  {
    var i0, i1, i2, i3, i4 := Plain(97), Act(1, key), Act(2, key), Act(3, key), Delay([49, 53, 48]);
    assert Encode(i4) == [1, 4, 49, 53, 48, 124];
    assert Encode(i0) == [97] && Encode(i1) == [1, 1, key] && Encode(i2) == [1, 2, key] && Encode(i3) == [1, 3, key];
    assert Text([]) == [] && Encodings([]) == [];
    hide Text, Encodings, Encode;
    OneMoreItem(i4, []);
    OneMoreItem(i3, [i4]);
    OneMoreItem(i2, [i3, i4]);
    OneMoreItem(i1, [i2, i3, i4]);
    OneMoreItem(i0, [i1, i2, i3, i4]);
    assert EachKind(key) == [i0] + [i1, i2, i3, i4] && [i1] + [i2, i3, i4] == [i1, i2, i3, i4];
    assert [i2] + [i3, i4] == [i2, i3, i4] && [i3] + [i4] == [i3, i4] && [i4] + [] == [i4];
  }

  // ---------------------------------------------------------------- unknown codes

  /** A prefix followed by a code that is none of the four. */
  predicate UnknownAt(buf: seq<byte>, p: nat) {
    && p + 1 < |buf| && buf[p] == QMK_PREFIX
    && buf[p + 1] != 0 && !IsActCode(buf[p + 1]) && buf[p + 1] != DELAY_CODE
  }

  /** An unknown code is sent as it stands exactly if the third byte of the chunk is still zero. */
  lemma UnknownSentIff(buf: seq<byte>, p: nat, data: Chunk)
    requires UnknownAt(buf, p)
    ensures var t := NextToken(buf, p, data);
            t.Send? && t.next == p + 2 && (CString(t.data) == buf[p..p + 2] <==> data[2] == 0)
  {
    var d := NextToken(buf, p, data).data;
    assert d[2] == data[2] && d[..2] == buf[p..p + 2];
    if data[2] == 0 {
      CStringIs(d, d[..2]);
    } else {
      assert CString(d) == [d[0]] + CString(d[1..]) && d[1..][1..] == d[2..];
      assert CString(d[1..]) == [d[1]] + CString(d[2..]);
      assert |CString(d)| > 2;
    }
  }

  /** A token that writes an argument: the key of an act code, or the text of a delay. */
  predicate ArgumentAt(buf: seq<byte>, p: nat) {
    p + 1 < |buf| && buf[p] == QMK_PREFIX && (IsActCode(buf[p + 1]) || buf[p + 1] == DELAY_CODE)
  }

  lemma {:induction false} DelayKeeps(buf: seq<byte>, p: nat, i: nat, data: Chunk)
    requires 3 <= i <= 6
    ensures var t := NextDelay(buf, p, i, data); t.Send? ==> t.data[2] == data[2]
    decreases 7 - i
  {
    if p < |buf| && buf[p] != 0 && buf[p] != BAR && i < 6 { DelayKeeps(buf, p + 1, i + 1, data[i := buf[p]]); }
  }

  /** Only such a token changes the third byte, and it makes it non-zero. */
  lemma ThirdByte(buf: seq<byte>, p: nat, data: Chunk)
    ensures var t := NextToken(buf, p, data);
            t.Send? ==> if ArgumentAt(buf, p) then t.data[2] != 0 else t.data[2] == data[2]
  {
    if p + 2 < |buf| && ArgumentAt(buf, p) && buf[p + 1] == DELAY_CODE {
      var d := data[0 := buf[p]][1 := 0][1 := buf[p + 1]];
      if buf[p + 2] != 0 && buf[p + 2] != BAR { DelayKeeps(buf, p + 3, 3, d[2 := buf[p + 2]]); }
    }
  }

  /** Where the reader is, and what the chunk holds, after `n` chunks sent from position `p`. */
  function After(buf: seq<byte>, p: nat, n: nat): (t: Token) {
    if n == 0 then Send(p, EMPTY)
    else
      var t := After(buf, p, n - 1);
      if t.Send? then NextToken(buf, t.next, t.data) else t
  }

  /** None of the first `n` tokens of the macro at `p` writes an argument. */
  predicate NoArgument(buf: seq<byte>, p: nat, n: nat) {
    forall i :: 0 <= i < n && After(buf, p, i).Send? ==> !ArgumentAt(buf, After(buf, p, i).next)
  }

  lemma {:induction false} ThirdByteIff(buf: seq<byte>, p: nat, n: nat)
    requires After(buf, p, n).Send?
    ensures After(buf, p, n).data[2] == 0 <==> NoArgument(buf, p, n)
  {
    if n > 0 {
      hide NextToken, ArgumentAt;
      ThirdByteIff(buf, p, n - 1);
      ThirdByte(buf, After(buf, p, n - 1).next, After(buf, p, n - 1).data);
    }
  }

  lemma SendsNext(buf: seq<byte>, p: nat, data: Chunk)
    requires NextToken(buf, p, data).Send?
    ensures var t := NextToken(buf, p, data);
            SendFrom(buf, p, data).chunks == [CString(t.data)] + SendFrom(buf, t.next, t.data).chunks
  {}

  /** The chunks sent from `p` on are the strings of the successive tokens. */
  lemma {:induction false} SentAre(buf: seq<byte>, p: nat, n: nat)
    requires After(buf, p, n).Send?
    ensures var t := After(buf, p, n);
            var all, rest := SendFrom(buf, p, EMPTY), SendFrom(buf, t.next, t.data);
            && |all.chunks| == n + |rest.chunks| && all.chunks[n..] == rest.chunks
  {
    hide NextToken, CString, SendFrom;
    if n > 0 {
      SentAre(buf, p, n - 1);
      var t := After(buf, p, n - 1);
      SendsNext(buf, t.next, t.data);
      var all := SendFrom(buf, p, EMPTY).chunks;
      assert all[n..] == all[n - 1..][1..];
    }
  }

  /** Of the chunks sent for a macro, that of an unknown code is the code as it stands if and only if no act or
      delay token has gone before it; otherwise bytes left in the chunk follow it. */
  lemma UnknownCodeIff(buf: seq<byte>, p: nat, n: nat)
    requires After(buf, p, n).Send? && UnknownAt(buf, After(buf, p, n).next)
    ensures var q := After(buf, p, n).next;
            var chunks := SendFrom(buf, p, EMPTY).chunks;
            n < |chunks| && (chunks[n] == buf[q..q + 2] <==> NoArgument(buf, p, n))
  {
    hide NextToken, CString, SendFrom, UnknownAt;
    var t := After(buf, p, n);
    ThirdByteIff(buf, p, n);
    UnknownSentIff(buf, t.next, t.data);
    SentAre(buf, p, n);
    SendsNext(buf, t.next, t.data);
    var all := SendFrom(buf, p, EMPTY).chunks;
    assert all[n] == all[n..][0];
    UnknownInside(buf, t.next);
  }

  lemma UnknownInside(buf: seq<byte>, p: nat)
    requires UnknownAt(buf, p)
    ensures p + 2 <= |buf|
  {}

  lemma ThreeBytes(a: byte, b: byte, c: byte)
    requires a != 0 && b != 0 && c != 0
    ensures CString([a, b, c, 0, 0, 0, 0, 0]) == [a, b, c]
  {
    CStringIs([a, b, c, 0, 0, 0, 0, 0], [a, b, c]);
  }

  lemma SendsNothing(buf: seq<byte>, p: nat, data: Chunk)
    requires NextToken(buf, p, data).Stop?
    ensures SendFrom(buf, p, data).chunks == []
  {}

  /** An unknown code is sent with whatever the chunk still holds: here the key of the tap before it. */
  lemma UnknownCodeSendsStaleByte()
    ensures SendFrom([1, 1, 65, 1, 9, 0], 0, EMPTY).chunks == [[1, 1, 65], [1, 9, 65]]
  {
    hide CString, SendFrom;
    var buf: seq<byte> := [1, 1, 65, 1, 9, 0];
    var d1: Chunk := [1, 1, 65, 0, 0, 0, 0, 0];
    var d2: Chunk := [1, 9, 65, 0, 0, 0, 0, 0];
    assert NextToken(buf, 0, EMPTY) == Send(3, d1);
    assert NextToken(buf, 3, d1) == Send(5, d2);
    SendsNothing(buf, 5, d2);
    hide NextToken;
    SendsNext(buf, 3, d1);
    SendsNext(buf, 0, EMPTY);
    ThreeBytes(1, 1, 65);
    ThreeBytes(1, 9, 65);
  }

  // ---------------------------------------------------------------- what is refused

  lemma {:induction false} ZerosUpTo(buf: seq<byte>, p: nat)
    requires p < |buf|
    ensures Zeros(buf[..p + 1]) == Zeros(buf[..p]) + (if buf[p] == 0 then 1 else 0)
  {
    if p == 0 {
      assert buf[..1] == [buf[0]] && buf[..1][1..] == [] && buf[..0] == [];
    } else {
      assert buf[..p + 1][1..] == buf[1..][..p] && buf[..p][1..] == buf[1..][..p - 1];
      ZerosUpTo(buf[1..], p - 1);
    }
  }

  /** The macro found starts after exactly so many zeros, the last of them just before it. */
  lemma {:induction false} SkipIs(buf: seq<byte>, p: nat, id: nat)
    requires p <= |buf|
    ensures var q := Skip(buf, p, id);
            q >= 0 ==> Zeros(buf[..q]) == Zeros(buf[..p]) + id && (id > 0 ==> q > 0 && buf[q - 1] == 0)
    decreases |buf| - p
  {
    if id > 0 && p < |buf| {
      ZerosUpTo(buf, p);
      SkipIs(buf, p + 1, if buf[p] == 0 then id - 1 else id);
    }
  }

  /** Nothing is sent for a macro number that is too high, for a buffer that does not end in a zero, as when it is being
      written, or when there are too few macros; else what is sent starts behind exactly as many zeros as the number. */
  lemma SendGuards(buf: seq<byte>, id: nat, count: nat)
    requires buf != []
    ensures id >= count || buf[|buf| - 1] != 0 || Zeros(buf) < id ==> MacroSend(buf, id, count) == Result([], false)
    ensures id < count && buf[|buf| - 1] == 0 && Zeros(buf) >= id ==>
              exists p :: 0 <= p <= |buf| && Zeros(buf[..p]) == id && (id > 0 ==> p > 0 && buf[p - 1] == 0)
                          && (id == 0 ==> p == 0) && MacroSend(buf, id, count) == SendFrom(buf, p, EMPTY)
  {
    hide SendFrom;
    assert buf[0..] == buf && buf[..0] == [];
    SkipCounts(buf, 0, id);
    SkipIs(buf, 0, id);
  }

  /** At `q` is a bar, and no zero before it. */
  predicate BarAt(buf: seq<byte>, p: nat, q: nat) {
    p <= q < |buf| && buf[q] == BAR && forall k :: p <= k < q ==> buf[k] != 0
  }

  /** A number of at most four characters and its bar follow. */
  predicate DelayAt(buf: seq<byte>, p: nat) {
    exists q: nat :: p <= q < p + 5 && BarAt(buf, p, q)
  }

  lemma BarLater(buf: seq<byte>, p: nat)
    requires p < |buf| && buf[p] != BAR && buf[p] != 0
    ensures forall q: nat :: BarAt(buf, p, q) <==> BarAt(buf, p + 1, q)
    ensures !BarAt(buf, p, p)
  {}

  lemma {:induction false} DelayAborts(buf: seq<byte>, p: nat, i: nat, data: Chunk)
    requires 2 <= i <= 6 && p < |buf| && buf[|buf| - 1] == 0
    ensures NextDelay(buf, p, i, data).Send? <==> exists q: nat :: p <= q < p + 7 - i && BarAt(buf, p, q)
    decreases 7 - i
  {
    if buf[p] == BAR {
      assert BarAt(buf, p, p);
    } else if buf[p] != 0 && i < 6 {
      DelayAborts(buf, p + 1, i + 1, data[i := buf[p]]);
      BarLater(buf, p);
      hide BarAt;
      assert NextDelay(buf, p, i, data) == NextDelay(buf, p + 1, i + 1, data[i := buf[p]]);
      if NextDelay(buf, p + 1, i + 1, data[i := buf[p]]).Send? {
        var q: nat :| p + 1 <= q < p + 7 - i && BarAt(buf, p + 1, q);
        assert BarAt(buf, p, q);
      }
    } else {
      assert forall q: nat :: BarAt(buf, p, q) ==> q > p && buf[p] != 0;
    }
  }

  /** Before a final zero, reading stops at a zero, and aborts exactly at a prefix without a code, an act code
      without a key, or a delay without a number of at most four characters and a bar; anything else is sent. */
  lemma AbortsIff(buf: seq<byte>, p: nat, data: Chunk)
    requires p < |buf| && buf[|buf| - 1] == 0
    ensures var t := NextToken(buf, p, data);
            && (t.Stop? <==> buf[p] == 0)
            && (t.Abort? <==>
                && buf[p] == QMK_PREFIX
                && (|| buf[p + 1] == 0
                    || (IsActCode(buf[p + 1]) && buf[p + 2] == 0)
                    || (buf[p + 1] == DELAY_CODE && !DelayAt(buf, p + 2))))
            && !t.PastEnd?
  {
    if buf[p] == QMK_PREFIX && buf[p + 1] == DELAY_CODE {
      var d := data[0 := buf[p]][1 := 0][1 := buf[p + 1]];
      DelayAborts(buf, p + 2, 2, d);
      DelayStays(buf, p + 2, 2, d);
    }
  }

  /** After an abort, as after the end, nothing more is sent. */
  lemma AbortSendsNothing(buf: seq<byte>, p: nat, data: Chunk)
    requires NextToken(buf, p, data).Stop? || NextToken(buf, p, data).Abort?
    ensures SendFrom(buf, p, data) == Result([], false)
  {}
}
