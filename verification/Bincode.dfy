/** The integers and vectors of bincode: the variable-width encoding a proof
    envelope arrives in, and the fixed-width encoding the verifier reads. */
module Bincode {
  type Byte = x: int | 0 <= x < 0x100

  type U64 = x: int | 0 <= x < 0x1_0000_0000_0000_0000

  type Bytes = seq<Byte>

  /** The first error of a reader, which sticks. */
  datatype ReadError = UnexpectedEnd(offset: nat) | TooWide(offset: nat) | LengthBeyondInput(length: nat)

  datatype Parsed<+T> = Failed(err: ReadError) | Got(value: T, next: nat) {
    predicate IsFailure() { Failed? }

    function PropagateFailure<U>(): Parsed<U>
      requires Failed?
    {
      Failed(err)
    }

    function Extract(): (T, nat)
      requires Got?
    {
      (value, next)
    }
  }

  // ---------- Little-endian integers ----------

  function Pow256(width: nat): nat {
    if width == 0 then 1 else 256 * Pow256(width - 1)
  }

  function LittleEndian(value: nat, width: nat): (bytes: Bytes)
    ensures |bytes| == width
  {
    if width == 0 then [] else [value % 256] + LittleEndian(value / 256, width - 1)
  }

  function FromLittleEndian(bytes: Bytes): nat {
    if bytes == [] then 0 else bytes[0] + 256 * FromLittleEndian(bytes[1..])
  }

  lemma {:induction false} LittleEndianReads(value: nat, width: nat)
    requires value < Pow256(width)
    ensures FromLittleEndian(LittleEndian(value, width)) == value
  {
    if width > 0 {
      LittleEndianReads(value / 256, width - 1);
      assert LittleEndian(value, width)[1..] == LittleEndian(value / 256, width - 1);
    }
  }

  lemma {:induction false} LittleEndianWrites(bytes: Bytes)
    ensures FromLittleEndian(bytes) < Pow256(|bytes|)
    ensures LittleEndian(FromLittleEndian(bytes), |bytes|) == bytes
  {
    if bytes != [] {
      LittleEndianWrites(bytes[1..]);
      var value := FromLittleEndian(bytes);
      assert value % 256 == bytes[0] && value / 256 == FromLittleEndian(bytes[1..]);
    }
  }

  lemma Widths()
    ensures Pow256(2) == 0x1_0000 && Pow256(4) == 0x1_0000_0000 && Pow256(8) == 0x1_0000_0000_0000_0000
  {
    assert Pow256(1) == 256;
    assert Pow256(2) == 0x1_0000;
    assert Pow256(3) == 0x100_0000;
    assert Pow256(4) == 0x1_0000_0000;
    assert Pow256(5) == 0x100_0000_0000;
    assert Pow256(6) == 0x1_0000_0000_0000;
    assert Pow256(7) == 0x100_0000_0000_0000;
  }

  /** The little-endian integer of two, four or eight bytes, spelled out. */
  lemma FixedMeans(bytes: Bytes)
    ensures |bytes| == 2 ==> FromLittleEndian(bytes) == Word2(bytes)
    ensures |bytes| == 4 ==> FromLittleEndian(bytes) == Word4(bytes)
    ensures |bytes| == 8 ==> FromLittleEndian(bytes) == Word8(bytes)
  {
    if |bytes| == 2 {
      TwoMore(bytes);
    } else if |bytes| == 4 {
      TwoMore(bytes);
      TwoMore(bytes[2..]);
    } else if |bytes| == 8 {
      TwoMore(bytes);
      TwoMore(bytes[2..]);
      assert bytes[2..][2..] == bytes[4..];
      TwoMore(bytes[4..]);
      assert bytes[4..][2..] == bytes[6..];
      TwoMore(bytes[6..]);
    }
  }

  lemma TwoMore(bytes: Bytes)
    requires |bytes| >= 2
    ensures FromLittleEndian(bytes) == bytes[0] + 0x100 * bytes[1] as nat + 0x1_0000 * FromLittleEndian(bytes[2..])
  {
    assert bytes[1..][1..] == bytes[2..];
  }

  function Word2(bytes: seq<nat>): nat
    requires |bytes| == 2
  {
    bytes[0] + 0x100 * bytes[1]
  }

  function Word4(bytes: seq<nat>): nat
    requires |bytes| == 4
  {
    bytes[0] + 0x100 * bytes[1] + 0x1_0000 * bytes[2] + 0x100_0000 * bytes[3]
  }

  /** The first byte is the least. */
  function Word8(bytes: seq<nat>): nat
    requires |bytes| == 8
  {
    bytes[0] + 0x100 * bytes[1] + 0x1_0000 * bytes[2] + 0x100_0000 * bytes[3] + 0x1_0000_0000 * bytes[4]
    + 0x100_0000_0000 * bytes[5] + 0x1_0000_0000_0000 * bytes[6] + 0x100_0000_0000_0000 * bytes[7]
  }

  // ---------- Parsing the variable-width encoding ----------

  function ParseFixed(buf: Bytes, off: nat, width: nat): (r: Parsed<U64>)
    requires off <= |buf| && width <= 8
  {
    if off + width > |buf| then Failed(UnexpectedEnd(off))
    else
      FixedFits(buf[off..off + width]);
      Got(FromLittleEndian(buf[off..off + width]), off + width)
  }

  lemma FixedFits(bytes: Bytes)
    requires |bytes| <= 8
    ensures FromLittleEndian(bytes) < 0x1_0000_0000_0000_0000
  {
    LittleEndianWrites(bytes);
    Widths();
    PowGrows(|bytes|, 8);
  }

  lemma {:induction false} PowGrows(a: nat, b: nat)
    requires a <= b
    ensures Pow256(a) <= Pow256(b)
  {
    if a < b { PowGrows(a, b - 1); }
  }

  function ParseVarint(buf: Bytes, off: nat): (r: Parsed<U64>)
    requires off <= |buf|
    ensures r.Got? ==> off < r.next <= |buf|
  {
    if off == |buf| then Failed(UnexpectedEnd(off))
    else if buf[off] < 251 then Got(buf[off], off + 1)
    else if buf[off] == 251 then ParseFixed(buf, off + 1, 2)
    else if buf[off] == 252 then ParseFixed(buf, off + 1, 4)
    else if buf[off] == 253 then ParseFixed(buf, off + 1, 8)
    else Failed(TooWide(off))
  }

  /** The markers and the widths they announce. */
  lemma VarintMeans(buf: Bytes, off: nat)
    requires off < |buf|
    ensures var left := |buf| - off - 1;
            match ParseVarint(buf, off)
            case Got(value, next) =>
              || (buf[off] < 251 && value == buf[off] && next == off + 1)
              || (buf[off] == 251 && left >= 2 && value == Word2(buf[off + 1..off + 3]) && next == off + 3)
              || (buf[off] == 252 && left >= 4 && value == Word4(buf[off + 1..off + 5]) && next == off + 5)
              || (buf[off] == 253 && left >= 8 && value == Word8(buf[off + 1..off + 9]) && next == off + 9)
            case Failed(TooWide(at)) => buf[off] >= 254 && at == off
            case Failed(UnexpectedEnd(at)) =>
              && at == off + 1
              && ((buf[off] == 251 && left < 2) || (buf[off] == 252 && left < 4) || (buf[off] == 253 && left < 8))
            case Failed(LengthBeyondInput(_)) => false
  {
    hide FromLittleEndian, Word2, Word4, Word8;
    if off + 3 <= |buf| { FixedMeans(buf[off + 1..off + 3]); }
    if off + 5 <= |buf| { FixedMeans(buf[off + 1..off + 5]); }
    if off + 9 <= |buf| { FixedMeans(buf[off + 1..off + 9]); }
  }

  /** A length beyond the remaining input is malformed, since every element
      takes a byte or more. */
  function ParseLength(buf: Bytes, off: nat): (r: Parsed<nat>)
    requires off <= |buf|
    ensures r.Got? ==> off < r.next <= |buf| && r.value <= |buf| - r.next
  {
    var (length, next) :- ParseVarint(buf, off);
    if length > |buf| - next then Failed(LengthBeyondInput(length)) else Got(length, next)
  }

  function ParseWords(buf: Bytes, off: nat, count: nat): (r: Parsed<seq<U64>>)
    requires off <= |buf|
    ensures r.Got? ==> off + count <= r.next <= |buf| && |r.value| == count
    decreases count
  {
    if count == 0 then Got([], off)
    else
      var (word, next) :- ParseVarint(buf, off);
      var (words, end) :- ParseWords(buf, next, count - 1);
      Got([word] + words, end)
  }

  /** A parse that continues after words that were read already. */
  function Prepend(words: seq<U64>, rest: Parsed<seq<U64>>): Parsed<seq<U64>> {
    match rest
    case Got(more, next) => Got(words + more, next)
    case Failed(err) => Failed(err)
  }

  lemma PrependNothing(all: Parsed<seq<U64>>)
    ensures Prepend([], all) == all
  {
    if all.Got? { assert [] + all.value == all.value; }
  }

  lemma ReadOneMore(buf: Bytes, all: Parsed<seq<U64>>, words: seq<U64>, off: nat, left: nat)
    requires off <= |buf| && left > 0 && all == Prepend(words, ParseWords(buf, off, left))
    ensures match ParseVarint(buf, off)
            case Failed(err) => all == Failed(err)
            case Got(word, next) => all == Prepend(words + [word], ParseWords(buf, next, left - 1))
  {
    match ParseVarint(buf, off)
    case Failed(_) =>
    case Got(word, next) =>
      match ParseWords(buf, next, left - 1) {
        case Failed(_) =>
        case Got(more, _) => assert words + ([word] + more) == words + [word] + more;
      }
  }

  function ParseVec(buf: Bytes, off: nat): (r: Parsed<seq<U64>>)
    requires off <= |buf|
    ensures r.Got? ==> off < r.next <= |buf|
  {
    var (length, next) :- ParseLength(buf, off);
    ParseWords(buf, next, length)
  }

  function ParseText(buf: Bytes, off: nat): (r: Parsed<Bytes>)
    requires off <= |buf|
    ensures r.Got? ==> off < r.next <= |buf|
  {
    var (length, next) :- ParseLength(buf, off);
    Got(buf[next..next + length], next + length)
  }

  // ---------- What an encoder may write ----------

  /** An integer and the width it is written in, 0 for the single byte. A wider
      form than needed reads as the same value. */
  datatype Wire = Wire(value: U64, width: nat) {
    ghost predicate Valid() {
      || (width == 0 && value < 251)
      || ((width == 2 || width == 4 || width == 8) && value < Pow256(width))
    }
  }

  function Marker(width: nat): Byte {
    if width == 2 then 251 else if width == 4 then 252 else 253
  }

  function WireBytes(wire: Wire): (bytes: Bytes)
    requires wire.width == 0 ==> wire.value < 251
    ensures |bytes| == 1 + wire.width
  {
    if wire.width == 0 then [wire.value] else [Marker(wire.width)] + LittleEndian(wire.value, wire.width)
  }

  ghost predicate ValidWires(wires: seq<Wire>) {
    forall k :: 0 <= k < |wires| ==> wires[k].Valid()
  }

  ghost function WiresBytes(wires: seq<Wire>): (bytes: Bytes)
    requires ValidWires(wires)
    ensures |bytes| >= |wires|
  {
    if wires == [] then [] else WireBytes(wires[0]) + WiresBytes(wires[1..])
  }

  function Values(wires: seq<Wire>): (values: seq<U64>)
    ensures |values| == |wires|
    ensures forall k :: 0 <= k < |wires| ==> values[k] == wires[k].value
  {
    seq(|wires|, k requires 0 <= k < |wires| => wires[k].value)
  }

  /** A vector is its length and its words. */
  datatype WireVec = WireVec(length: Wire, words: seq<Wire>) {
    ghost predicate Valid() {
      length.Valid() && length.value == |words| && ValidWires(words)
    }

    ghost function ToBytes(): Bytes
      requires Valid()
    {
      WireBytes(length) + WiresBytes(words)
    }
  }

  /** The bytes stand in the buffer at the offset. */
  ghost predicate At(buf: Bytes, off: nat, bytes: Bytes) {
    off + |bytes| <= |buf| && buf[off..off + |bytes|] == bytes
  }

  lemma AtSplit(buf: Bytes, off: nat, a: Bytes, b: Bytes)
    ensures At(buf, off, a + b) <==> At(buf, off, a) && At(buf, off + |a|, b)
  {
    if off + |a| + |b| <= |buf| {
      var both := buf[off..off + |a| + |b|];
      assert both == buf[off..off + |a|] + buf[off + |a|..off + |a| + |b|];
      assert both == a + b ==> both[..|a|] == a && both[|a|..] == b;
      assert both[..|a|] == buf[off..off + |a|] && both[|a|..] == buf[off + |a|..off + |a| + |b|];
    }
  }

  lemma AtStartIsPrefix(buf: Bytes, bytes: Bytes)
    requires At(buf, 0, bytes)
    ensures bytes <= buf
  {
  }

  lemma AtSplitFive(buf: Bytes, off: nat, a: Bytes, b: Bytes, c: Bytes, d: Bytes, e: Bytes)
    ensures At(buf, off, a + (b + (c + (d + e)))) <==>
            && At(buf, off, a) && At(buf, off + |a|, b) && At(buf, off + |a| + |b|, c)
            && At(buf, off + |a| + |b| + |c|, d) && At(buf, off + |a| + |b| + |c| + |d|, e)
  {
    AtSplit(buf, off, a, b + (c + (d + e)));
    AtSplit(buf, off + |a|, b, c + (d + e));
    AtSplit(buf, off + |a| + |b|, c, d + e);
    AtSplit(buf, off + |a| + |b| + |c|, d, e);
  }

  // ---------- The parser reads exactly what an encoder may write ----------

  lemma VarintReads(buf: Bytes, off: nat, wire: Wire)
    requires wire.Valid() && At(buf, off, WireBytes(wire))
    ensures ParseVarint(buf, off) == Got(wire.value, off + 1 + wire.width)
  {
    if wire.width > 0 {
      AtSplit(buf, off, [Marker(wire.width)], LittleEndian(wire.value, wire.width));
      LittleEndianReads(wire.value, wire.width);
    }
    assert buf[off] == buf[off..off + |WireBytes(wire)|][0];
  }

  lemma VarintWritten(buf: Bytes, off: nat) returns (wire: Wire)
    requires off <= |buf| && ParseVarint(buf, off).Got?
    ensures wire.Valid() && At(buf, off, WireBytes(wire))
    ensures ParseVarint(buf, off) == Got(wire.value, off + 1 + wire.width)
  {
    var parsed := ParseVarint(buf, off);
    wire := Wire(parsed.value, parsed.next - off - 1);
    if wire.width > 0 {
      LittleEndianWrites(buf[off + 1..parsed.next]);
      AtSplit(buf, off, [Marker(wire.width)], LittleEndian(wire.value, wire.width));
    }
  }

  lemma FirstWordReads(buf: Bytes, off: nat, wires: seq<Wire>)
    requires wires != [] && ValidWires(wires) && At(buf, off, WiresBytes(wires))
    ensures ParseVarint(buf, off) == Got(wires[0].value, off + |WireBytes(wires[0])|)
    ensures ValidWires(wires[1..]) && At(buf, off + |WireBytes(wires[0])|, WiresBytes(wires[1..]))
  {
    AtSplit(buf, off, WireBytes(wires[0]), WiresBytes(wires[1..]));
    VarintReads(buf, off, wires[0]);
  }

  lemma {:induction false} WordsRead(buf: Bytes, off: nat, wires: seq<Wire>)
    requires ValidWires(wires) && At(buf, off, WiresBytes(wires))
    ensures ParseWords(buf, off, |wires|) == Got(Values(wires), off + |WiresBytes(wires)|)
    decreases |wires|
  {
    if wires == [] {
      assert Values(wires) == [];
    } else {
      hide At, ParseVarint, ParseWords, WireBytes;
      var first, rest := wires[0], wires[1..];
      FirstWordReads(buf, off, wires);
      var next := off + |WireBytes(first)|;
      WordsRead(buf, next, rest);
      ParseOneMore(buf, off, |wires|, first.value, next, Values(rest), next + |WiresBytes(rest)|);
      ValuesPrepend(first, rest);
      assert wires == [first] + rest;
    }
  }

  lemma ValuesPrepend(first: Wire, rest: seq<Wire>)
    ensures Values([first] + rest) == [first.value] + Values(rest)
  {
  }

  /** The words from off, when the first of them and the rest parse. */
  lemma ParseOneMore(buf: Bytes, off: nat, count: nat, word: U64, next: nat, words: seq<U64>, end: nat)
    requires off <= |buf| && count > 0 && ParseVarint(buf, off) == Got(word, next)
    requires ParseWords(buf, next, count - 1) == Got(words, end)
    ensures ParseWords(buf, off, count) == Got([word] + words, end)
  {
  }

  lemma {:induction false} WordsWritten(buf: Bytes, off: nat, count: nat) returns (wires: seq<Wire>)
    requires off <= |buf| && ParseWords(buf, off, count).Got?
    ensures |wires| == count && ValidWires(wires) && At(buf, off, WiresBytes(wires))
    ensures ParseWords(buf, off, count) == Got(Values(wires), off + |WiresBytes(wires)|)
    decreases count
  {
    if count == 0 {
      wires := [];
    } else {
      var first := VarintWritten(buf, off);
      var rest := WordsWritten(buf, ParseVarint(buf, off).next, count - 1);
      wires := [first] + rest;
      assert wires[1..] == rest;
      AtSplit(buf, off, WireBytes(first), WiresBytes(rest));
      assert Values(wires) == [first.value] + Values(rest);
    }
  }

  lemma VecReads(buf: Bytes, off: nat, vec: WireVec)
    requires vec.Valid() && At(buf, off, vec.ToBytes())
    ensures ParseVec(buf, off) == Got(Values(vec.words), off + |vec.ToBytes()|)
  {
    AtSplit(buf, off, WireBytes(vec.length), WiresBytes(vec.words));
    VarintReads(buf, off, vec.length);
    WordsRead(buf, off + |WireBytes(vec.length)|, vec.words);
  }

  lemma VecWritten(buf: Bytes, off: nat) returns (vec: WireVec)
    requires off <= |buf| && ParseVec(buf, off).Got?
    ensures vec.Valid() && At(buf, off, vec.ToBytes())
    ensures ParseVec(buf, off) == Got(Values(vec.words), off + |vec.ToBytes()|)
  {
    var length := VarintWritten(buf, off);
    var next, count := ParseVarint(buf, off).next, ParseVarint(buf, off).value;
    assert ParseVec(buf, off) == ParseWords(buf, next, count);
    hide WiresBytes, WireBytes, At, ParseVec, ParseVarint, ParseWords, Values;
    var words := WordsWritten(buf, next, count);
    vec := WireVec(length, words);
    AtSplit(buf, off, WireBytes(length), WiresBytes(words));
  }

  lemma TextReads(buf: Bytes, off: nat, length: Wire, text: Bytes)
    requires length.Valid() && length.value == |text| && At(buf, off, WireBytes(length) + text)
    ensures ParseText(buf, off) == Got(text, off + |WireBytes(length)| + |text|)
  {
    AtSplit(buf, off, WireBytes(length), text);
    VarintReads(buf, off, length);
  }

  lemma TextWritten(buf: Bytes, off: nat) returns (length: Wire)
    requires off <= |buf| && ParseText(buf, off).Got?
    ensures var text := ParseText(buf, off).value;
            && length.Valid() && length.value == |text| && At(buf, off, WireBytes(length) + text)
            && ParseText(buf, off).next == off + |WireBytes(length)| + |text|
  {
    length := VarintWritten(buf, off);
    AtSplit(buf, off, WireBytes(length), ParseText(buf, off).value);
  }

  // ---------- The fixed-width encoding ----------

  function FixedWords(words: seq<U64>): (bytes: Bytes)
    ensures |bytes| == 8 * |words|
  {
    if words == [] then [] else FixedWords(words[..|words| - 1]) + LittleEndian(words[|words| - 1], 8)
  }

  /** The words stand in order, each in eight bytes, the least first. */
  lemma {:induction false} FixedWordsRead(words: seq<U64>, k: nat)
    requires k < |words|
    ensures Word8(FixedWords(words)[8 * k..8 * k + 8]) == words[k]
  {
    var n := |words| - 1;
    var head, last := FixedWords(words[..n]), LittleEndian(words[n], 8);
    assert FixedWords(words) == head + last;
    hide FixedWords, LittleEndian, Word8;
    if k < n {
      FixedWordsRead(words[..n], k);
      assert (head + last)[8 * k..8 * k + 8] == head[8 * k..8 * k + 8];
    } else {
      assert (head + last)[8 * k..8 * k + 8] == last;
      FixedWordReads(words[n]);
    }
  }

  lemma FixedWordReads(word: U64)
    ensures Word8(LittleEndian(word, 8)) == word
  {
    Widths();
    LittleEndianReads(word, 8);
    FixedMeans(LittleEndian(word, 8));
  }

  lemma FixedWordInjective(a: U64, b: U64)
    requires LittleEndian(a, 8) == LittleEndian(b, 8)
    ensures a == b
  {
    Widths();
    LittleEndianReads(a, 8);
    LittleEndianReads(b, 8);
  }

  lemma FixedWordsInjective(a: seq<U64>, b: seq<U64>)
    requires FixedWords(a) == FixedWords(b)
    ensures a == b
  {
    hide FixedWords, Word8;
    forall k | 0 <= k < |a| ensures a[k] == b[k] {
      FixedWordsRead(a, k);
      FixedWordsRead(b, k);
    }
  }
}
