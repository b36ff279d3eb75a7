/** The transcoder of ZisK proofs: a reader with a sticky error over the
    variable-width envelope, and the fixed-width proof the verifier accepts. */
module ZiskProof {
  import opened Wrappers
  import opened Bincode

  const PROGRAM_VK_WORDS := 4
  const PUBLIC_VALUES_WORDS := 64
  const VADCOP_KIND_FINAL := 0

  /** "blake3" in ASCII. */
  const VADCOP_FINAL_HASH_FAMILY: Bytes := [98, 108, 97, 107, 101, 51]

  const MAX_ENVELOPE_BYTES := 4 * 1024 * 1024

  datatype Error =
    | TooLarge
    | Malformed(err: ReadError)
    | NotFinal
    | Plonk
    | UnknownVariant(variant: nat)
    | ProgramVKLength(words: nat)
    | PublicValuesLength(words: nat)

  /** The fields a transcode reads of a vadcop body. */
  datatype Body = Body(proof: seq<U64>, kind: U64, hashFamily: Bytes, publicValues: seq<U64>)

  // ---------- What the transcoder computes ----------

  function ParseBody(buf: Bytes, off: nat): (r: Parsed<Body>)
    requires off <= |buf|
    ensures r.Got? ==> r.next <= |buf|
  {
    var (proof, afterProof) :- ParseVec(buf, off);
    var (_, afterZiskVK) :- ParseVec(buf, afterProof);
    var (kind, afterKind) :- ParseVarint(buf, afterZiskVK);
    var (hashFamily, afterHash) :- ParseText(buf, afterKind);
    var (publicValues, end) :- ParseVec(buf, afterHash);
    Got(Body(proof, kind, hashFamily, publicValues), end)
  }

  predicate IsFinal(body: Body) {
    body.kind == VADCOP_KIND_FINAL && body.hashFamily == VADCOP_FINAL_HASH_FAMILY
  }

  /** The VadcopFinalProof: the proof words, the public values behind a word that
      marks a final proof, the compressed flag, and the hash family. */
  function FixedProof(proof: seq<U64>, publicValues: seq<U64>): Bytes {
    LittleEndian(|proof|, 8) + FixedWords(proof)
    + LittleEndian(1 + |publicValues|, 8) + LittleEndian(1, 8) + FixedWords(publicValues)
    + [0] + LittleEndian(|VADCOP_FINAL_HASH_FAMILY|, 8) + VADCOP_FINAL_HASH_FAMILY
  }

  /** The eight bytes at off as a little-endian word. */
  function WordAt(bytes: Bytes, off: nat): nat
    requires off + 8 <= |bytes|
  {
    Word8(bytes[off..off + 8])
  }

  /** Every byte of the fixed-width proof, by its place: the count of the proof
      words and the words, the count of the public values with the mark of a final
      proof, the mark and the values, a zero, and the hash family with its length. */
  ghost predicate IsFixedProof(bytes: Bytes, proof: seq<U64>, publicValues: seq<U64>) {
    var marked := 8 + 8 * |proof|;
    var end := marked + 16 + 8 * |publicValues|;
    && |bytes| == end + 1 + 8 + 6
    && WordAt(bytes, 0) == |proof|
    && (forall k :: 0 <= k < |proof| ==> WordAt(bytes, 8 + 8 * k) == proof[k])
    && WordAt(bytes, marked) == 1 + |publicValues| && WordAt(bytes, marked + 8) == 1
    && (forall j :: 0 <= j < |publicValues| ==> WordAt(bytes, marked + 16 + 8 * j) == publicValues[j])
    && bytes[end] == 0 && WordAt(bytes, end + 1) == 6
    && bytes[end + 9..] == [98, 108, 97, 107, 101, 51]
  }

  lemma WordStands(bytes: Bytes, off: nat, word: U64)
    requires At(bytes, off, LittleEndian(word, 8))
    ensures off + 8 <= |bytes| && WordAt(bytes, off) == word
  {
    FixedWordReads(word);
  }

  lemma WithinStands(bytes: Bytes, off: nat, part: Bytes, i: nat)
    requires At(bytes, off, part) && i + 8 <= |part|
    ensures off + i + 8 <= |bytes| && bytes[off + i..off + i + 8] == part[i..i + 8]
  {
    var from, to := off + i, off + i + 8;
    assert bytes[off..off + |part|] == part;
    forall j | 0 <= j < 8 ensures bytes[from..to][j] == part[i..i + 8][j] {
      assert bytes[off..off + |part|][i + j] == bytes[from + j];
    }
  }

  lemma WordWithin(bytes: Bytes, off: nat, part: Bytes, i: nat, word: U64)
    requires At(bytes, off, part) && i + 8 <= |part| && Word8(part[i..i + 8]) == word
    ensures off + i + 8 <= |bytes| && WordAt(bytes, off + i) == word
  {
    hide At, Word8;
    WithinStands(bytes, off, part, i);
  }

  lemma WordsStand(bytes: Bytes, off: nat, words: seq<U64>, k: nat)
    requires At(bytes, off, FixedWords(words)) && k < |words|
    ensures off + 8 * k + 8 <= |bytes| && WordAt(bytes, off + 8 * k) == words[k]
  {
    hide FixedWords, Word8, At, WordAt;
    FixedWordsRead(words, k);
    WordWithin(bytes, off, FixedWords(words), 8 * k, words[k]);
  }

  /** The proof as it is printed is that layout. */
  lemma FixedProofStands(proof: seq<U64>, publicValues: seq<U64>)
    requires |proof| < 0x1_0000_0000_0000_0000 && 1 + |publicValues| < 0x1_0000_0000_0000_0000
    ensures IsFixedProof(FixedProof(proof, publicValues), proof, publicValues)
  {
    var bytes := FixedProof(proof, publicValues);
    FixedPartsStand(proof, publicValues);
    hide FixedWords, LittleEndian, WordAt, FixedProof, At;
    var marked := 8 + 8 * |proof|;
    var end := marked + 16 + 8 * |publicValues|;
    WordStands(bytes, 0, |proof|);
    WordStands(bytes, marked, 1 + |publicValues|);
    WordStands(bytes, marked + 8, 1);
    WordStands(bytes, end + 1, 6);
    forall k | 0 <= k < |proof| ensures WordAt(bytes, 8 + 8 * k) == proof[k] {
      WordsStand(bytes, 8, proof, k);
    }
    forall j | 0 <= j < |publicValues| ensures WordAt(bytes, marked + 16 + 8 * j) == publicValues[j] {
      WordsStand(bytes, marked + 16, publicValues, j);
    }
    EndStands(bytes, end, [0]);
    EndStands(bytes, end + 9, VADCOP_FINAL_HASH_FAMILY);
  }

  /** Where the parts of a printed proof stand. */
  lemma FixedPartsStand(proof: seq<U64>, publicValues: seq<U64>)
    ensures var bytes := FixedProof(proof, publicValues);
            var marked := 8 + 8 * |proof|;
            var end := marked + 16 + 8 * |publicValues|;
            && |bytes| == end + 15
            && At(bytes, 0, LittleEndian(|proof|, 8)) && At(bytes, 8, FixedWords(proof))
            && At(bytes, marked, LittleEndian(1 + |publicValues|, 8)) && At(bytes, marked + 8, LittleEndian(1, 8))
            && At(bytes, marked + 16, FixedWords(publicValues)) && At(bytes, end, [0])
            && At(bytes, end + 1, LittleEndian(6, 8)) && At(bytes, end + 9, VADCOP_FINAL_HASH_FAMILY)
  {
    assert |VADCOP_FINAL_HASH_FAMILY| == 6;
    hide *;
    var count, counts, mark, family := LittleEndian(|proof|, 8), LittleEndian(1 + |publicValues|, 8),
                                       LittleEndian(1, 8), LittleEndian(6, 8);
    var words, values := FixedWords(proof), FixedWords(publicValues);
    FixedProofParts(proof, publicValues);
    FixedProofSize(proof, publicValues);
    PartsStand(FixedProof(proof, publicValues), count, words, counts, mark, values, [0], family,
               VADCOP_FINAL_HASH_FAMILY);
  }

  lemma PartsStand(bytes: Bytes, a: Bytes, b: Bytes, c: Bytes, d: Bytes, e: Bytes, f: Bytes, g: Bytes, h: Bytes)
    requires bytes == a + (b + ((c + d) + (e + ((f + g) + h))))
    ensures At(bytes, 0, a) && At(bytes, |a|, b) && At(bytes, |a| + |b|, c) && At(bytes, |a| + |b| + |c|, d)
    ensures var marked := |a| + |b| + |c| + |d|;
            && At(bytes, marked, e) && At(bytes, marked + |e|, f) && At(bytes, marked + |e| + |f|, g)
            && At(bytes, marked + |e| + |f| + |g|, h)
  {
    WholeStands(bytes);
    hide At;
    var tail := (f + g) + h;
    var marked := |a| + |b| + |c| + |d|;
    AtSplitFive(bytes, 0, a, b, c + d, e, tail);
    AtSplit(bytes, |a| + |b|, c, d);
    AtSplit(bytes, marked + |e|, f + g, h);
    AtSplit(bytes, marked + |e|, f, g);
  }

  lemma WholeStands(bytes: Bytes)
    ensures At(bytes, 0, bytes)
  {
  }

  lemma EndStands(bytes: Bytes, off: nat, part: Bytes)
    requires At(bytes, off, part)
    ensures off + |part| <= |bytes| && bytes[off..off + |part|] == part
  {
  }

  /** The result of a transcode and, when it accepts, the offset of its reader. */
  function Transcoded(envelope: Bytes): Result<(Bytes, nat), Error> {
    if |envelope| > MAX_ENVELOPE_BYTES then Err(TooLarge)
    else match ParseVarint(envelope, 0)
      case Failed(err) => Err(Malformed(err))
      case Got(variant, afterVariant) =>
        if variant == 1 then Err(Plonk)
        else if variant != 0 then Err(UnknownVariant(variant))
        else match ParseBody(envelope, afterVariant)
          case Failed(err) => Err(Malformed(err))
          case Got(body, afterBody) =>
            if !IsFinal(body) then Err(NotFinal)
            else match ParseVec(envelope, afterBody)
              case Failed(err) => Err(Malformed(err))
              case Got(vk, end) =>
                if |vk| != PROGRAM_VK_WORDS then Err(ProgramVKLength(|vk|))
                else if |body.publicValues| != PROGRAM_VK_WORDS + PUBLIC_VALUES_WORDS
                  then Err(PublicValuesLength(|body.publicValues|))
                else Ok((FixedProof(body.proof, body.publicValues), end))
  }

  // ---------- The reader ----------

  /** Decodes the primitives in order. After the first error every read gives a
      zero value and moves nothing. */
  class BincodeReader {
    const buf: Bytes
    var off: nat
    var err: Option<ReadError>

    ghost predicate Valid()
      reads this
    {
      off <= |buf|
    }

    constructor (buf: Bytes)
      ensures Valid() && this.buf == buf && off == 0 && err == None
    {
      this.buf := buf;
      off, err := 0, None;
    }

    /** The state after a read that parsed as r, given the state before it. */
    twostate predicate Read<T>(r: Parsed<T>)
      reads this
    {
      if old(err).Some? then off == old(off) && err == old(err)
      else match r
        case Got(_, next) => off == next && err == None
        case Failed(failure) => err == Some(failure)
    }

    method Fail(failure: ReadError)
      modifies this`err
      ensures err == if old(err).None? then Some(failure) else old(err)
    {
      if err.None? { err := Some(failure); }
    }

    method Take(n: nat) returns (taken: Bytes)
      requires Valid()
      modifies this
      ensures Valid() && old(off) <= off
      ensures old(err).None? && old(off) + n <= |buf| ==>
              off == old(off) + n && err == None && taken == buf[old(off)..off]
      ensures old(err).None? && old(off) + n > |buf| ==>
              off == old(off) && err == Some(UnexpectedEnd(off)) && taken == []
      ensures old(err).Some? ==> off == old(off) && err == old(err) && taken == []
    {
      if err.Some? { return []; }
      if off + n > |buf| {
        Fail(UnexpectedEnd(off));
        return [];
      }
      taken := buf[off..off + n];
      off := off + n;
    }

    method Varint() returns (value: U64)
      requires Valid()
      modifies this
      ensures Valid() && old(off) <= off
      ensures Read(ParseVarint(buf, old(off)))
      ensures value == if err.None? then ParseVarint(buf, old(off)).value else 0
    {
      var prefix := Take(1);
      if err.Some? { return 0; }
      var width;
      if prefix[0] == 251 { width := 2; }
      else if prefix[0] == 252 { width := 4; }
      else if prefix[0] == 253 { width := 8; }
      else if prefix[0] == 254 || prefix[0] == 255 {
        Fail(TooWide(off - 1));
        return 0;
      } else {
        return prefix[0];
      }
      var wide := Take(width);
      if err.Some? { return 0; }
      FixedFits(wide);
      value := FromLittleEndian(wide);
    }

    method Length() returns (length: nat)
      requires Valid()
      modifies this
      ensures Valid() && old(off) <= off && length <= |buf| - off
      ensures Read(ParseLength(buf, old(off)))
      ensures length == if err.None? then ParseLength(buf, old(off)).value else 0
    {
      length := Varint();
      if err.Some? { return 0; }
      if length > |buf| - off {
        Fail(LengthBeyondInput(length));
        return 0;
      }
    }

    /** Reads over a vector, in no more rounds than the input has bytes. */
    method SkipU64Vec()
      requires Valid()
      modifies this
      ensures Valid() && old(off) <= off
      ensures Read(ParseVec(buf, old(off)))
    {
      var count := Length();
      if err.Some? { return; }
      ghost var all, words: seq<U64> := ParseWords(buf, off, count), [];
      PrependNothing(all);
      for k := 0 to count
        invariant Valid() && old(off) <= off
        invariant InProgress(all, words, count - k)
      {
        if err.None? {
          ReadOneMore(buf, all, words, off, count - k);
          words := words + [if ParseVarint(buf, off).Got? then ParseVarint(buf, off).value else 0];
        }
        var _ := Varint();
      }
      assert words + [] == words;
    }

    /** Of a vector that parses as all, words are read and left words remain. */
    ghost predicate InProgress(all: Parsed<seq<U64>>, words: seq<U64>, left: nat)
      requires Valid()
      reads this
    {
      match err
      case Some(failure) => all == Failed(failure)
      case None => all == Prepend(words, ParseWords(buf, off, left))
    }

    /** Reads a vector. It allocates no more words than the input has bytes. */
    method U64Vec() returns (words: seq<U64>)
      requires Valid()
      modifies this
      ensures Valid() && old(off) <= off && |words| <= |buf|
      ensures Read(ParseVec(buf, old(off)))
      ensures err.None? ==> words == ParseVec(buf, old(off)).value
    {
      var count := Length();
      words := seq(count, _ => 0);
      if err.Some? { return; }
      ghost var all := ParseWords(buf, off, count);
      assert words[..0] == [];
      PrependNothing(all);
      for k := 0 to count
        invariant Valid() && old(off) <= off && |words| == count
        invariant InProgress(all, words[..k], count - k)
      {
        if err.None? { ReadOneMore(buf, all, words[..k], off, count - k); }
        var word := Varint();
        assert words[k := word][..k + 1] == words[..k] + [word];
        words := words[k := word];
      }
      assert words[..count] + [] == words;
    }

    method Utf8() returns (text: Bytes)
      requires Valid()
      modifies this
      ensures Valid() && old(off) <= off
      ensures Read(ParseText(buf, old(off)))
      ensures err.None? ==> text == ParseText(buf, old(off)).value
    {
      var length := Length();
      text := Take(length);
    }
  }

  // ---------- The transcoder ----------

  method AppendWords(proof: Bytes, words: seq<U64>) returns (appended: Bytes)
    ensures appended == proof + FixedWords(words)
  {
    appended := proof;
    for k := 0 to |words|
      invariant appended == proof + FixedWords(words[..k])
    {
      assert words[..k + 1][..k] == words[..k] && words[..k + 1][k] == words[k];
      appended := appended + LittleEndian(words[k], 8);
    }
    assert words[..|words|] == words;
  }

  method PrintProof(proofWords: seq<U64>, publicValues: seq<U64>) returns (proof: Bytes)
    ensures proof == FixedProof(proofWords, publicValues)
    ensures |proofWords| < 0x1_0000_0000_0000_0000 && 1 + |publicValues| < 0x1_0000_0000_0000_0000 ==>
              IsFixedProof(proof, proofWords, publicValues)
  {
    hide FixedWords, IsFixedProof;
    if |proofWords| < 0x1_0000_0000_0000_0000 && 1 + |publicValues| < 0x1_0000_0000_0000_0000 {
      FixedProofStands(proofWords, publicValues);
    }
    proof := LittleEndian(|proofWords|, 8);
    proof := AppendWords(proof, proofWords);
    proof := proof + LittleEndian(1 + |publicValues|, 8);
    proof := proof + LittleEndian(1, 8);
    proof := AppendWords(proof, publicValues);
    proof := proof + [0];
    proof := proof + LittleEndian(|VADCOP_FINAL_HASH_FAMILY|, 8);
    proof := proof + VADCOP_FINAL_HASH_FAMILY;
  }

  method TranscodeProof(envelope: Bytes) returns (r: Result<Bytes, Error>)
    ensures match Transcoded(envelope)
            case Ok((proof, _)) => r == Ok(proof)
            case Err(err) => r == Err(err)
    ensures r.Ok? ==> exists e: Envelope :: e.IsFinalProof() && e.ToBytes() <= envelope && e.IsWidenedBy(r.value)
  {
    hide ParseVec, ParseVarint, ParseText, FixedProof, IsFixedProof, Envelope.IsWidenedBy, Envelope.Transcoding;
    if |envelope| > MAX_ENVELOPE_BYTES { return Err(TooLarge); }
    var reader := new BincodeReader(envelope);
    var proofWords, publicValues: seq<U64> := [], [];
    var variant := reader.Varint();
    if reader.err.Some? {
    } else if variant == 0 {
      proofWords := reader.U64Vec();
      reader.SkipU64Vec();
      var kind := reader.Varint();
      var hashFamily := reader.Utf8();
      publicValues := reader.U64Vec();
      if reader.err.None? && (kind != VADCOP_KIND_FINAL || hashFamily != VADCOP_FINAL_HASH_FAMILY) {
        return Err(NotFinal);
      }
    } else if variant == 1 {
      return Err(Plonk);
    } else {
      return Err(UnknownVariant(variant));
    }

    var vkWords := reader.U64Vec();
    if reader.err.Some? { return Err(Malformed(reader.err.value)); }
    if |vkWords| != PROGRAM_VK_WORDS { return Err(ProgramVKLength(|vkWords|)); }
    if |publicValues| != PROGRAM_VK_WORDS + PUBLIC_VALUES_WORDS { return Err(PublicValuesLength(|publicValues|)); }

    var proof := PrintProof(proofWords, publicValues);
    ghost var e := AcceptedIsFinalEnvelope(envelope);
    return Ok(proof);
  }

  // ---------- Envelopes as an encoder may write them ----------

  /** A vadcop envelope up to the end of its program vk, with the width of every
      integer. What follows, the hash mode, is never read. */
  datatype Envelope = Envelope(
    variant: Wire, proof: WireVec, ziskVK: WireVec, kind: Wire, hashLength: Wire, hashFamily: Bytes,
    publicValues: WireVec, programVK: WireVec)
  {
    ghost predicate Valid() {
      && variant.Valid() && proof.Valid() && ziskVK.Valid() && kind.Valid()
      && hashLength.Valid() && hashLength.value == |hashFamily| && publicValues.Valid() && programVK.Valid()
    }

    ghost function BodyBytes(): Bytes
      requires Valid()
    {
      proof.ToBytes() + (ziskVK.ToBytes() + (WireBytes(kind)
        + ((WireBytes(hashLength) + hashFamily) + publicValues.ToBytes())))
    }

    ghost function ToBytes(): Bytes
      requires Valid()
    {
      WireBytes(variant) + (BodyBytes() + programVK.ToBytes())
    }

    /** A final blake3 vadcop proof with the fixed lengths of its two vectors. */
    ghost predicate IsFinalProof() {
      && Valid() && variant.value == 0 && kind.value == VADCOP_KIND_FINAL && hashFamily == VADCOP_FINAL_HASH_FAMILY
      && |publicValues.words| == PROGRAM_VK_WORDS + PUBLIC_VALUES_WORDS && |programVK.words| == PROGRAM_VK_WORDS
    }

    ghost function Transcoding(): Bytes {
      FixedProof(Values(proof.words), Values(publicValues.words))
    }

    /** The bytes are the proof words and the public values, each in its place. */
    ghost predicate IsWidenedBy(bytes: Bytes) {
      IsFixedProof(bytes, Values(proof.words), Values(publicValues.words))
    }
  }

  /** The body from the parses of its fields. */
  lemma BodyOf(buf: Bytes, off: nat, proof: seq<U64>, afterProof: nat, ziskVK: seq<U64>, afterZiskVK: nat, kind: U64,
               afterKind: nat,
               hashFamily: Bytes, afterHash: nat, publicValues: seq<U64>, end: nat)
    requires off <= |buf| && ParseVec(buf, off) == Got(proof, afterProof)
    requires ParseVec(buf, afterProof) == Got(ziskVK, afterZiskVK)
    requires ParseVarint(buf, afterZiskVK) == Got(kind, afterKind)
    requires ParseText(buf, afterKind) == Got(hashFamily, afterHash)
    requires ParseVec(buf, afterHash) == Got(publicValues, end)
    ensures ParseBody(buf, off) == Got(Body(proof, kind, hashFamily, publicValues), end)
  {
  }

  /** Where the fields of a body stand. */
  lemma BodyStands(buf: Bytes, off: nat, e: Envelope)
    requires e.Valid()
    ensures var afterProof := off + |e.proof.ToBytes()|;
            var afterZiskVK := afterProof + |e.ziskVK.ToBytes()|;
            var afterKind := afterZiskVK + |WireBytes(e.kind)|;
            var afterHash := afterKind + |WireBytes(e.hashLength) + e.hashFamily|;
            && off + |e.BodyBytes()| == afterHash + |e.publicValues.ToBytes()|
            && (At(buf, off, e.BodyBytes()) <==>
                && At(buf, off, e.proof.ToBytes()) && At(buf, afterProof, e.ziskVK.ToBytes())
                && At(buf, afterZiskVK, WireBytes(e.kind)) && At(buf, afterKind, WireBytes(e.hashLength) + e.hashFamily)
                && At(buf, afterHash, e.publicValues.ToBytes()))
  {
    hide WiresBytes, WireBytes, At;
    AtSplitFive(buf, off, e.proof.ToBytes(), e.ziskVK.ToBytes(), WireBytes(e.kind),
                WireBytes(e.hashLength) + e.hashFamily, e.publicValues.ToBytes());
  }

  lemma BodyReads(buf: Bytes, off: nat, e: Envelope)
    requires e.Valid() && At(buf, off, e.BodyBytes())
    ensures ParseBody(buf, off) ==
            Got(Body(Values(e.proof.words), e.kind.value, e.hashFamily, Values(e.publicValues.words)),
                off + |e.BodyBytes()|)
  {
    hide WiresBytes, WireBytes, At, ParseVec, ParseVarint, ParseText, ParseBody;
    BodyStands(buf, off, e);
    var afterProof := off + |e.proof.ToBytes()|;
    var afterZiskVK := afterProof + |e.ziskVK.ToBytes()|;
    var afterKind := afterZiskVK + |WireBytes(e.kind)|;
    var afterHash := afterKind + |WireBytes(e.hashLength) + e.hashFamily|;
    VecReads(buf, off, e.proof);
    VecReads(buf, afterProof, e.ziskVK);
    VarintReads(buf, afterZiskVK, e.kind);
    TextReads(buf, afterKind, e.hashLength, e.hashFamily);
    VecReads(buf, afterHash, e.publicValues);
    BodyOf(buf, off, Values(e.proof.words), afterProof, Values(e.ziskVK.words), afterZiskVK, e.kind.value, afterKind,
           e.hashFamily, afterHash, Values(e.publicValues.words), off + |e.BodyBytes()|);
  }

  /** The fields of a parsed body, as an encoder may have written them. */
  lemma BodyWritten(buf: Bytes, off: nat, variant: Wire, programVK: WireVec) returns (e: Envelope)
    requires off <= |buf| && ParseBody(buf, off).Got? && variant.Valid() && programVK.Valid()
    ensures e.Valid() && e.variant == variant && e.programVK == programVK && At(buf, off, e.BodyBytes())
    ensures ParseBody(buf, off) ==
            Got(Body(Values(e.proof.words), e.kind.value, e.hashFamily, Values(e.publicValues.words)),
                off + |e.BodyBytes()|)
  {
    hide WiresBytes, WireBytes, At, ParseVec, ParseVarint, ParseText;
    var proof := VecWritten(buf, off);
    var afterProof := ParseVec(buf, off).next;
    var ziskVK := VecWritten(buf, afterProof);
    var afterZiskVK := ParseVec(buf, afterProof).next;
    var kind := VarintWritten(buf, afterZiskVK);
    var afterKind := ParseVarint(buf, afterZiskVK).next;
    var hashLength := TextWritten(buf, afterKind);
    var publicValues := VecWritten(buf, ParseText(buf, afterKind).next);
    e := Envelope(variant, proof, ziskVK, kind, hashLength, ParseText(buf, afterKind).value, publicValues, programVK);
    BodyStands(buf, off, e);
    BodyReads(buf, off, e);
  }

  // ---------- Main results ----------

  /** A transcode from the parses of the parts. */
  lemma TranscodedOf(buf: Bytes, afterVariant: nat, body: Body, afterBody: nat, vk: seq<U64>, end: nat)
    requires |buf| <= MAX_ENVELOPE_BYTES && ParseVarint(buf, 0) == Got(0, afterVariant)
    requires ParseBody(buf, afterVariant) == Got(body, afterBody) && IsFinal(body)
    requires ParseVec(buf, afterBody) == Got(vk, end) && |vk| == PROGRAM_VK_WORDS
    requires |body.publicValues| == PROGRAM_VK_WORDS + PUBLIC_VALUES_WORDS
    ensures Transcoded(buf) == Ok((FixedProof(body.proof, body.publicValues), end))
  {
  }

  lemma EnvelopeStands(buf: Bytes, e: Envelope)
    requires e.Valid()
    ensures var afterVariant := |WireBytes(e.variant)|;
            var afterBody := afterVariant + |e.BodyBytes()|;
            && |e.ToBytes()| == afterBody + |e.programVK.ToBytes()|
            && (At(buf, 0, e.ToBytes()) <==>
                At(buf, 0, WireBytes(e.variant)) && At(buf, afterVariant, e.BodyBytes())
                  && At(buf, afterBody, e.programVK.ToBytes()))
  {
    hide WiresBytes, WireBytes, At;
    AtSplit(buf, 0, WireBytes(e.variant), e.BodyBytes() + e.programVK.ToBytes());
    AtSplit(buf, |WireBytes(e.variant)|, e.BodyBytes(), e.programVK.ToBytes());
  }

  /** What the parts of a standing envelope parse as. */
  lemma StandingParts(buf: Bytes, e: Envelope) returns (afterVariant: nat, afterBody: nat)
    requires e.Valid() && At(buf, 0, e.ToBytes())
    ensures ParseVarint(buf, 0) == Got(e.variant.value, afterVariant) && afterVariant <= |buf|
    ensures ParseBody(buf, afterVariant) ==
            Got(Body(Values(e.proof.words), e.kind.value, e.hashFamily, Values(e.publicValues.words)), afterBody)
    ensures afterBody <= |buf| && ParseVec(buf, afterBody) == Got(Values(e.programVK.words), |e.ToBytes()|)
  {
    hide WiresBytes, WireBytes, At, ParseVec, ParseVarint, ParseText, ParseBody;
    afterVariant := |WireBytes(e.variant)|;
    afterBody := afterVariant + |e.BodyBytes()|;
    EnvelopeStands(buf, e);
    VarintReads(buf, 0, e.variant);
    BodyReads(buf, afterVariant, e);
    VecReads(buf, afterBody, e.programVK);
  }

  /** A buffer that starts with a final envelope is accepted up to its end. */
  lemma StandingEnvelopeTranscodes(buf: Bytes, e: Envelope)
    requires e.IsFinalProof() && At(buf, 0, e.ToBytes()) && |buf| <= MAX_ENVELOPE_BYTES
    ensures Transcoded(buf) == Ok((e.Transcoding(), |e.ToBytes()|))
  {
    hide At, ParseVec, ParseVarint, ParseBody, Transcoded, Envelope.BodyBytes, Envelope.ToBytes, Envelope.Valid;
    var afterVariant, afterBody := StandingParts(buf, e);
    var body := Body(Values(e.proof.words), e.kind.value, e.hashFamily, Values(e.publicValues.words));
    TranscodedOf(buf, afterVariant, body, afterBody, Values(e.programVK.words), |e.ToBytes()|);
  }

  lemma TranscodingIsWide(e: Envelope)
    requires e.IsFinalProof()
    ensures e.IsWidenedBy(e.Transcoding())
  {
    hide FixedProof, IsFixedProof;
    FixedProofStands(Values(e.proof.words), Values(e.publicValues.words));
  }

  /** The fields of an envelope, in the order of their bytes. */
  lemma EnvelopeIsInOrder(e: Envelope)
    requires e.Valid()
    ensures e.ToBytes() == WireBytes(e.variant) + e.proof.ToBytes() + e.ziskVK.ToBytes() + WireBytes(e.kind)
                           + WireBytes(e.hashLength) + e.hashFamily + e.publicValues.ToBytes() + e.programVK.ToBytes()
  {
    hide WireBytes, WiresBytes;
  }

  /** Every envelope that an encoder may write is answered, the accepted one and
      each fault of the others, whatever follows it. */
  lemma EnvelopesAreAnswered(e: Envelope, tail: Bytes)
    requires e.Valid() && |e.ToBytes() + tail| <= 0x40_0000
    ensures var publicValues, programVK := |e.publicValues.words|, |e.programVK.words|;
            match Transcoded(e.ToBytes() + tail)
            case Ok((_, end)) =>
              && e.variant.value == 0 && e.kind.value == 0 && e.hashFamily == [98, 108, 97, 107, 101, 51]
              && programVK == 4 && publicValues == 68 && end == |e.ToBytes()|
            case Err(Plonk) => e.variant.value == 1
            case Err(UnknownVariant(variant)) => e.variant.value == variant && variant >= 2
            case Err(NotFinal) =>
              e.variant.value == 0 && (e.kind.value != 0 || e.hashFamily != [98, 108, 97, 107, 101, 51])
            case Err(ProgramVKLength(words)) => e.variant.value == 0 && words == programVK != 4
            case Err(PublicValuesLength(words)) => e.variant.value == 0 && words == publicValues != 68
            case Err(TooLarge) => false
            case Err(Malformed(_)) => false
  {
    var buf := e.ToBytes() + tail;
    assert At(buf, 0, e.ToBytes());
    hide At, ParseVec, ParseVarint, ParseBody, Transcoded, Envelope.BodyBytes, Envelope.ToBytes, Envelope.Valid;
    var afterVariant, afterBody := StandingParts(buf, e);
    var body := Body(Values(e.proof.words), e.kind.value, e.hashFamily, Values(e.publicValues.words));
    AnswerOfParts(buf, e.variant.value, afterVariant, body, afterBody, Values(e.programVK.words), |e.ToBytes()|);
  }

  lemma AnswerOfParts(buf: Bytes, variant: U64, afterVariant: nat, body: Body, afterBody: nat, vk: seq<U64>, end: nat)
    requires |buf| <= 0x40_0000 && ParseVarint(buf, 0) == Got(variant, afterVariant)
    requires afterVariant <= |buf| && ParseBody(buf, afterVariant) == Got(body, afterBody)
    requires afterBody <= |buf| && ParseVec(buf, afterBody) == Got(vk, end)
    ensures match Transcoded(buf)
            case Ok((_, stop)) =>
              && variant == 0 && body.kind == 0 && body.hashFamily == [98, 108, 97, 107, 101, 51]
              && |vk| == 4 && |body.publicValues| == 68 && stop == end
            case Err(Plonk) => variant == 1
            case Err(UnknownVariant(unknown)) => unknown == variant >= 2
            case Err(NotFinal) => variant == 0 && (body.kind != 0 || body.hashFamily != [98, 108, 97, 107, 101, 51])
            case Err(ProgramVKLength(words)) => variant == 0 && words == |vk| != 4
            case Err(PublicValuesLength(words)) => variant == 0 && words == |body.publicValues| != 68
            case Err(TooLarge) => false
            case Err(Malformed(_)) => false
  {
    hide ParseVec, ParseVarint, ParseBody, FixedProof;
  }

  /** Every final envelope, in whatever widths it is written and whatever follows
      it, transcodes to the fixed-width encoding of its proof words and public
      values, and the reader stops at its end. */
  lemma FinalEnvelopesTranscode(e: Envelope, tail: Bytes)
    requires e.IsFinalProof() && |e.ToBytes() + tail| <= MAX_ENVELOPE_BYTES
    ensures Transcoded(e.ToBytes() + tail) == Ok((e.Transcoding(), |e.ToBytes()|))
    ensures e.IsWidenedBy(e.Transcoding())
  {
    TranscodingIsWide(e);
    hide FixedProof, IsFixedProof;
    assert At(e.ToBytes() + tail, 0, e.ToBytes());
    StandingEnvelopeTranscodes(e.ToBytes() + tail, e);
  }

  /** What the parts of an accepted byte string parse as. */
  lemma AcceptedParts(buf: Bytes) returns (afterVariant: nat, body: Body, afterBody: nat, vk: seq<U64>, end: nat)
    requires Transcoded(buf).Ok?
    ensures |buf| <= MAX_ENVELOPE_BYTES && ParseVarint(buf, 0) == Got(0, afterVariant)
    ensures afterVariant <= |buf| && ParseBody(buf, afterVariant) == Got(body, afterBody) && IsFinal(body)
    ensures afterBody <= |buf| && ParseVec(buf, afterBody) == Got(vk, end) && |vk| == PROGRAM_VK_WORDS
    ensures |body.publicValues| == PROGRAM_VK_WORDS + PUBLIC_VALUES_WORDS
  {
    afterVariant := ParseVarint(buf, 0).next;
    body, afterBody := ParseBody(buf, afterVariant).value, ParseBody(buf, afterVariant).next;
    vk, end := ParseVec(buf, afterBody).value, ParseVec(buf, afterBody).next;
  }

  /** An accepted byte string, as an encoder may have written it. */
  lemma AcceptedStands(buf: Bytes) returns (e: Envelope)
    requires Transcoded(buf).Ok?
    ensures |buf| <= MAX_ENVELOPE_BYTES && e.IsFinalProof() && At(buf, 0, e.ToBytes())
  {
    hide WiresBytes, WireBytes, At, ParseVec, ParseVarint, ParseText, ParseBody, Transcoded, Values, FixedProof,
      Envelope.BodyBytes, Envelope.ToBytes, WireVec.ToBytes;
    var afterVariant, body, afterBody, vk, end := AcceptedParts(buf);
    var variant := VarintWritten(buf, 0);
    var programVK := VecWritten(buf, afterBody);
    e := BodyWritten(buf, afterVariant, variant, programVK);
    EnvelopeStands(buf, e);
    FinalFromBody(e, body);
  }

  lemma FinalFromBody(e: Envelope, body: Body)
    requires e.Valid() && e.variant.value == 0 && |e.programVK.words| == PROGRAM_VK_WORDS
    requires body == Body(Values(e.proof.words), e.kind.value, e.hashFamily, Values(e.publicValues.words))
    requires IsFinal(body) && |body.publicValues| == PROGRAM_VK_WORDS + PUBLIC_VALUES_WORDS
    ensures e.IsFinalProof()
  {
  }

  /** Every accepted byte string starts with such an envelope. */
  lemma AcceptedIsFinalEnvelope(envelope: Bytes) returns (e: Envelope)
    requires Transcoded(envelope).Ok?
    ensures e.IsFinalProof() && e.ToBytes() <= envelope && |envelope| <= MAX_ENVELOPE_BYTES
    ensures Transcoded(envelope) == Ok((e.Transcoding(), |e.ToBytes()|))
    ensures e.IsWidenedBy(e.Transcoding())
  {
    hide Transcoded, FixedProof, At, WiresBytes, WireBytes, IsFixedProof;
    e := AcceptedStands(envelope);
    TranscodingIsWide(e);
    AtStartIsPrefix(envelope, e.ToBytes());
    StandingEnvelopeTranscodes(envelope, e);
  }

  /** The bytes past the consumed prefix decide nothing. */
  lemma TailDecidesNothing(envelope: Bytes, tail: Bytes)
    requires Transcoded(envelope).Ok?
    ensures var end := Transcoded(envelope).value.1;
            && end <= |envelope|
            && (end + |tail| <= MAX_ENVELOPE_BYTES ==> Transcoded(envelope[..end] + tail) == Transcoded(envelope))
  {
    hide Transcoded, FixedProof, IsFixedProof, WireBytes, WiresBytes, Envelope.ToBytes, Envelope.IsWidenedBy;
    var e := AcceptedIsFinalEnvelope(envelope);
    var end := Transcoded(envelope).value.1;
    assert envelope[..end] == e.ToBytes();
    if end + |tail| <= MAX_ENVELOPE_BYTES {
      FinalEnvelopesTranscode(e, tail);
    }
  }

  /** No strictly shorter prefix of the consumed bytes is accepted. */
  lemma ShorterPrefixIsRejected(envelope: Bytes, n: nat)
    requires Transcoded(envelope).Ok? && n < Transcoded(envelope).value.1
    ensures n <= |envelope| && Transcoded(envelope[..n]).Err?
  {
    CapHolds(envelope);
    hide *;
    TailDecidesNothing(envelope, []);
    var shorter := envelope[..n];
    if Transcoded(shorter).Ok? {
      TailDecidesNothing(shorter, []);
      var end := Transcoded(shorter).value.1;
      assert shorter[..end] + envelope[end..] == envelope;
      TailDecidesNothing(shorter, envelope[end..]);
    }
  }

  lemma CapHolds(envelope: Bytes)
    requires Transcoded(envelope).Ok?
    ensures |envelope| <= MAX_ENVELOPE_BYTES
  {
  }

  /** The proof has the length the transcoder reserves, below eight times that
      of the envelope. */
  lemma TranscodingSize(envelope: Bytes)
    requires Transcoded(envelope).Ok?
    ensures var e := ParseBody(envelope, ParseVarint(envelope, 0).next).value;
            |Transcoded(envelope).value.0| == 8 * (1 + |e.proof| + 1 + 1 + |e.publicValues|) + 1 + 8
              + |VADCOP_FINAL_HASH_FAMILY|
    ensures |Transcoded(envelope).value.0| < 8 * Transcoded(envelope).value.1 <= 8 * |envelope|
  {
    hide ParseVec, ParseVarint, ParseText, ParseBody;
    var e := AcceptedIsFinalEnvelope(envelope);
    var _, body, _, _, _ := AcceptedParts(envelope);
    EnvelopeIsLong(e);
    FixedProofSize(Values(e.proof.words), Values(e.publicValues.words));
    FixedProofSize(body.proof, body.publicValues);
  }

  lemma FixedProofSize(proof: seq<U64>, publicValues: seq<U64>)
    ensures |FixedProof(proof, publicValues)| == 8 * (1 + |proof| + 1 + 1 + |publicValues|) + 1 + 8
            + |VADCOP_FINAL_HASH_FAMILY|
  {
  }

  /** Every integer of an envelope takes a byte or more. */
  lemma EnvelopeIsLong(e: Envelope)
    requires e.IsFinalProof()
    ensures |e.ToBytes()| >= 85 + |e.proof.words|
  {
    assert |e.BodyBytes()| >= 1 + |e.proof.words| + 1 + 1 + 1 + |e.hashFamily| + 1 + |e.publicValues.words|;
  }

  /** Two envelopes that transcode to one proof carry the same proof words and
      the same public values. */
  lemma TranscodingLosesNothing(proof: seq<U64>, publicValues: seq<U64>, proof': seq<U64>, publicValues': seq<U64>)
    requires |proof| < 0x1_0000_0000_0000_0000 && |proof'| < 0x1_0000_0000_0000_0000
    requires FixedProof(proof, publicValues) == FixedProof(proof', publicValues')
    ensures proof == proof' && publicValues == publicValues'
  {
    var mid := LittleEndian(1 + |publicValues|, 8) + LittleEndian(1, 8);
    var mid' := LittleEndian(1 + |publicValues'|, 8) + LittleEndian(1, 8);
    var end: Bytes := [0] + LittleEndian(|VADCOP_FINAL_HASH_FAMILY|, 8) + VADCOP_FINAL_HASH_FAMILY;
    FixedProofParts(proof, publicValues);
    FixedProofParts(proof', publicValues');
    hide FixedProof, FixedWords, LittleEndian;
    EqualHeads(LittleEndian(|proof|, 8), FixedWords(proof) + (mid + (FixedWords(publicValues) + end)),
               LittleEndian(|proof'|, 8), FixedWords(proof') + (mid' + (FixedWords(publicValues') + end)));
    FixedWordInjective(|proof|, |proof'|);
    EqualHeads(FixedWords(proof), mid + (FixedWords(publicValues) + end),
               FixedWords(proof'), mid' + (FixedWords(publicValues') + end));
    FixedWordsInjective(proof, proof');
    EqualHeads(mid, FixedWords(publicValues) + end, mid', FixedWords(publicValues') + end);
    EqualHeads(FixedWords(publicValues), end, FixedWords(publicValues'), end);
    FixedWordsInjective(publicValues, publicValues');
  }

  lemma EqualHeads(a: Bytes, rest: Bytes, a': Bytes, rest': Bytes)
    requires a + rest == a' + rest' && (|a| == |a'| || |rest| == |rest'|)
    ensures a == a' && rest == rest'
  {
    assert |a| == |a'|;
    assert (a + rest)[..|a|] == a && (a' + rest')[..|a|] == a';
    assert (a + rest)[|a|..] == rest && (a' + rest')[|a|..] == rest';
  }

  lemma FixedProofParts(proof: seq<U64>, publicValues: seq<U64>)
    ensures FixedProof(proof, publicValues) ==
            LittleEndian(|proof|, 8) + (FixedWords(proof)
            + ((LittleEndian(1 + |publicValues|, 8) + LittleEndian(1, 8)) + (FixedWords(publicValues)
            + ([0] + LittleEndian(|VADCOP_FINAL_HASH_FAMILY|, 8) + VADCOP_FINAL_HASH_FAMILY))))
  {
    hide FixedWords, LittleEndian;
  }

  // ---------- The encoder of the coordinator ----------

  /** The narrowest form of an integer, as a bincode encoder writes it. */
  function Narrowest(value: U64): (wire: Wire)
    ensures wire.value == value
  {
    Wire(value, if value < 251 then 0 else if value < 0x1_0000 then 2 else if value < 0x1_0000_0000 then 4 else 8)
  }

  lemma NarrowestIsShortest(value: U64, wire: Wire)
    requires wire.Valid() && wire.value == value
    ensures Narrowest(value).Valid() && |WireBytes(Narrowest(value))| <= |WireBytes(wire)|
  {
    Widths();
  }

  function NarrowestVec(words: seq<U64>): WireVec
    requires |words| < 0x1_0000_0000_0000_0000
  {
    WireVec(Narrowest(|words|), seq(|words|, k requires 0 <= k < |words| => Narrowest(words[k])))
  }

  /** The envelope of a proof as the coordinator encodes it. */
  function Encoded(proof: seq<U64>, ziskVK: seq<U64>, publicValues: seq<U64>, programVK: seq<U64>): Envelope
    requires |proof| < 0x1_0000_0000_0000_0000 && |ziskVK| < 0x1_0000_0000_0000_0000
    requires |publicValues| < 0x1_0000_0000_0000_0000 && |programVK| < 0x1_0000_0000_0000_0000
  {
    Envelope(Narrowest(0), NarrowestVec(proof), NarrowestVec(ziskVK), Narrowest(VADCOP_KIND_FINAL),
             Narrowest(|VADCOP_FINAL_HASH_FAMILY|), VADCOP_FINAL_HASH_FAMILY, NarrowestVec(publicValues),
               NarrowestVec(programVK))
  }

  /** The round trip: what the coordinator encodes transcodes to the fixed-width
      encoding of the same values. */
  lemma EncodedTranscodes(proof: seq<U64>, ziskVK: seq<U64>, publicValues: seq<U64>, programVK: seq<U64>, tail: Bytes)
    requires |proof| < 0x1_0000_0000_0000_0000 && |ziskVK| < 0x1_0000_0000_0000_0000
    requires |publicValues| == PROGRAM_VK_WORDS + PUBLIC_VALUES_WORDS && |programVK| == PROGRAM_VK_WORDS
    ensures Encoded(proof, ziskVK, publicValues, programVK).IsFinalProof()
    ensures var bytes := Encoded(proof, ziskVK, publicValues, programVK).ToBytes();
            |bytes + tail| <= MAX_ENVELOPE_BYTES ==>
              Transcoded(bytes + tail) == Ok((FixedProof(proof, publicValues), |bytes|))
    ensures IsFixedProof(FixedProof(proof, publicValues), proof, publicValues)
  {
    FixedProofStands(proof, publicValues);
    hide FixedProof, IsFixedProof;
    var e := Encoded(proof, ziskVK, publicValues, programVK);
    forall value: U64 ensures Narrowest(value).Valid() { NarrowestIsShortest(value, Wire(value, 8)) by { Widths(); } }
    assert Values(e.proof.words) == proof && Values(e.publicValues.words) == publicValues;
    if |e.ToBytes() + tail| <= MAX_ENVELOPE_BYTES {
      FinalEnvelopesTranscode(e, tail);
    }
  }
}
