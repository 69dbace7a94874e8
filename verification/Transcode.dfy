/**
  The encoder undoes the decoder: reading back the instruction stream of a valid DEFLATE stream.
 */
module Transcode {
  import opened Bits
  import opened Huffman
  import opened TableSpec
  import opened Format
  import opened FormatLemmas
  import opened LengthCodes
  import opened RunLength
  import opened Instructions
  import opened EncoderSpec

  // ----- the symbols of a block read back -----

  lemma ByteFront(b: byte, s: seq<byte>)
    ensures var bits := ByteBits([b] + s);
            |bits| == 8 + 8 * |s| && Val(bits[..8]) == b && bits[8..] == ByteBits(s)
  {
    ByteBitsCons(b, s);
    Pow2Small();
    ValToBits(b, 8);
  }

  function SymsOf(ts: seq<Tok>): (xs: seq<Sym3>)
    requires ValidToks(ts)
    ensures ValidSyms(xs) && |xs| == |ts|
  {
    if ts == [] then [] else [SymOf(ts[0])] + SymsOf(ts[1..])
  }

  lemma ReadLit(xs: seq<Sym3>, b: byte, s: seq<byte>)
    ensures ReadSyms(xs, ByteBits(LitIns(b) + s)) == Collect(xs, Sym3(0, b), ByteBits(s))
  {
    hide ByteBits, Collect;
    if b == ESC {
      assert LitIns(b) + s == [ESC] + ([ESC] + s);
      ByteFront(ESC, [ESC] + s);
      ByteFront(ESC, s);
    } else {
      ByteFront(b, s);
    }
  }

  lemma ReadMatch(xs: seq<Sym3>, dist: nat, lc: nat, s: seq<byte>)
    requires dist <= 32768 && lc < 256
    ensures ReadSyms(xs, ByteBits(MatchIns(dist, lc) + s)) == Collect(xs, Sym3(dist, lc), ByteBits(s))
  {
    hide ByteBits, Collect;
    var high, low: byte := dist / 256, dist % 256;
    assert MatchIns(dist, lc) + s == [ESC] + ([high] + ([low] + ([lc] + s)));
    ByteFront(ESC, [high] + ([low] + ([lc] + s)));
    ByteFront(high, [low] + ([lc] + s));
    ByteFront(low, [lc] + s);
    ByteFront(lc, s);
    var bits := ByteBits([low] + ([lc] + s));
    assert bits[8..16] == bits[8..][..8] && bits[16..] == bits[8..][8..];
    assert ReadSyms(xs, ByteBits(MatchIns(dist, lc) + s)) == ReadIns1(xs, ByteBits([high] + ([low] + ([lc] + s))));
    assert ReadIns1(xs, ByteBits([high] + ([low] + ([lc] + s)))) == ReadIns2(xs, high, bits);
  }

  lemma ReadMark(xs: seq<Sym3>, s: seq<byte>)
    ensures ReadSyms(xs, ByteBits(MARK + s)) == Syms(xs, ByteBits(s))
  {
    hide ByteBits, Collect;
    assert MARK + s == [ESC] + ([0xff] + s);
    ByteFront(ESC, [0xff] + s);
    ByteFront(0xff, s);
  }

  lemma ReadTok(xs: seq<Sym3>, t: Tok, s: seq<byte>)
    requires ValidTok(t)
    ensures ReadSyms(xs, ByteBits(TokIns(t) + s)) == Collect(xs, SymOf(t), ByteBits(s))
  {
    hide ByteBits, Collect, ReadSyms, ReadIns1, LitIns, MatchIns, ValidTok;
    match t
    case Lit(b) => ReadLit(xs, b, s);
    case Match(_, _, _, _) =>
      TokRange(t);
      ReadMatch(xs, TokDist(t), TokLen(t) - 3, s);
  }

  /**
    The instruction stream has one reading: the parser recovers the symbols of a block, consumes
    exactly through the end mark, and fails only when the block has SYM_MAX symbols or more.
   */
  lemma {:induction false} SymsReadBack(xs: seq<Sym3>, ts: seq<Tok>, more: seq<byte>)
    requires ValidToks(ts) && |xs| < SYM_MAX
    ensures ReadSyms(xs, ByteBits(InsToks(ts) + MARK + more)) ==
            if |xs| + |ts| < SYM_MAX then Syms(xs + SymsOf(ts), ByteBits(more)) else Stop(SymbolsFull)
    decreases |ts|
  {
    hide ByteBits, ReadSyms, ReadIns1, ReadIns2, TokIns, SymOf, ValidTok;
    if ts == [] {
      ReadMark(xs, more);
      assert [] + MARK + more == MARK + more;
      assert xs + [] == xs;
    } else {
      var s := InsToks(ts[1..]) + MARK + more;
      ReadTok(xs, ts[0], s);
      Assoc(TokIns(ts[0]), InsToks(ts[1..]), MARK);
      Assoc(TokIns(ts[0]), InsToks(ts[1..]) + MARK, more);
      if |xs| + 1 < SYM_MAX {
        SymsReadBack(xs + [SymOf(ts[0])], ts[1..], more);
        Assoc(xs, [SymOf(ts[0])], SymsOf(ts[1..]));
      }
    }
  }

  // ----- headers read back -----

  lemma TypeReads(last: bool, t: nat, tail: Bits)
    requires t < 4
    ensures var bits := TypeBits(last, t) + tail;
            |bits| >= 3 && bits[0] == last && Val(bits[1..3]) == t && bits[3..] == tail
  {
    Pow2Small();
    ValToBits(t, 2);
    assert (TypeBits(last, t) + tail)[1..3] == ToBits(t, 2);
  }

  /** Header bits padded to a byte and followed by whole bytes. */
  lemma PackedHead(b: Bits, s: seq<byte>)
    ensures ByteBits(Pack(b) + s) == b + (Zeros(Pad(|b|)) + ByteBits(s))
  {
    ByteBitsAppend(Pack(b), s);
    PackBits(b);
    Assoc(b, Zeros(Pad(|b|)), ByteBits(s));
  }

  lemma SkipPad(p: nat, s: seq<byte>)
    requires p < 8
    ensures var bits := Zeros(p) + ByteBits(s);
            |bits| % 8 == p && Aligned(bits) == ByteBits(s)
  {
  }

  lemma MarkSkipped(s: seq<byte>)
    ensures |ByteBits(MARK + s)| == 16 + 8 * |s| && ByteBits(MARK + s)[16..] == ByteBits(s)
  {
    ByteBitsAppend(MARK, s);
  }

  /** The rest of a block after a coded header, as the encoder reads it. */
  lemma CodedReads(n: nat, last: bool, head: Head, p: nat, ts: seq<Tok>, more: seq<byte>)
    requires !head.Stored? && p < 8 && ValidToks(ts)
    ensures RecSkip(n, last, head, Zeros(p) + ByteBits(MARK + (InsToks(ts) + MARK + more))) ==
            RecCoded(n, last, head, if |ts| < SYM_MAX then Syms(SymsOf(ts), ByteBits(more)) else Stop(SymbolsFull))
  {
    hide ByteBits, ReadSyms, RecCoded, InsToks, SymsOf;
    var body := InsToks(ts) + MARK + more;
    SkipPad(p, MARK + body);
    MarkSkipped(body);
    SymsReadBack([], ts, more);
    assert [] + SymsOf(ts) == SymsOf(ts);
  }

  lemma FixedReads(n: nat, last: bool, ts: seq<Tok>, more: seq<byte>)
    requires ValidToks(ts)
    ensures RecBlocks(n, false, ByteBits(InsBlock(FixedBlock(last, ts)) + more)) ==
            RecCoded(n, last, Fixed, if |ts| < SYM_MAX then Syms(SymsOf(ts), ByteBits(more)) else Stop(SymbolsFull))
  {
    hide ByteBits, ReadSyms, RecCoded, InsToks, SymsOf, Pack, RecSkip, TypeBits, ValidTok;
    var body := InsToks(ts) + MARK + more;
    InsAssoc(Pack(TypeBits(last, 1)), InsToks(ts), more);
    PackedHead(TypeBits(last, 1), MARK + body);
    TypeReads(last, 1, Zeros(Pad(3)) + ByteBits(MARK + body));
    CodedReads(n, last, Fixed, Pad(3), ts, more);
  }

  lemma InsAssoc(a: seq<byte>, b: seq<byte>, more: seq<byte>)
    ensures a + MARK + b + MARK + more == a + (MARK + (b + MARK + more))
  {
  }

  lemma HeaderReads(n: nat, last: bool, bits: Bits, tail: Bits)
    requires ReadHeader(true, bits).Ok?
    ensures var h := ReadHeader(true, bits).v;
            && ValidHeader(h) && AcceptsHeaderLens(h)
            && RecBlocks(n, false, TypeBits(last, 2) + (HeaderBits(h) + tail)) == RecSkip(n, last, Dynamic(h), tail)
  {
    var h := ReadHeader(true, bits).v;
    hide ReadSyms, RecSkip, TypeBits, HeaderBits, Expand, ReadHeader, Accepts;
    HeaderExact(true, bits);
    TypeReads(last, 2, HeaderBits(h) + tail);
    HeaderAgain(bits, tail);
  }

  lemma DynamicReads(n: nat, last: bool, bits: Bits, ts: seq<Tok>, more: seq<byte>)
    requires ReadHeader(true, bits).Ok? && ValidToks(ts)
    ensures var h := ReadHeader(true, bits).v;
            && ValidHeader(h) && AcceptsHeaderLens(h)
            && RecBlocks(n, false, ByteBits(InsBlock(DynamicBlock(last, h, ts)) + more)) ==
               RecCoded(n, last, Dynamic(h), if |ts| < SYM_MAX then Syms(SymsOf(ts), ByteBits(more))
                   else Stop(SymbolsFull))
  {
    var h := ReadHeader(true, bits).v;
    hide ByteBits, ReadSyms, RecCoded, RecBlocks, InsToks, SymsOf, Pack, RecSkip, TypeBits, ValidTok, HeaderBits,
        Expand, ReadHeader, Accepts, ValidHeader, AcceptsHeader, AcceptsHeaderLens;
    var body := InsToks(ts) + MARK + more;
    HeaderReads(n, last, bits, []);
    var head := TypeBits(last, 2) + HeaderBits(h);
    InsAssoc(Pack(head), InsToks(ts), more);
    PackedHead(head, MARK + body);
    var tail := Zeros(Pad(|head|)) + ByteBits(MARK + body);
    Assoc(TypeBits(last, 2), HeaderBits(h), tail);
    HeaderReads(n, last, bits, tail);
    CodedReads(n, last, Dynamic(h), Pad(|head|), ts, more);
  }

  lemma StoredReads(n: nat, last: bool, pad: Bits, data: seq<byte>, more: seq<byte>)
    requires |data| < 65536 && |pad| < 8
    ensures RecBlocks(n, false, ByteBits(InsBlock(StoredBlock(last, pad, data)) + more)) ==
            RecRaw(n, last, data, ByteBits(more))
  {
    hide ByteBits, InsToks, Pack, RecSkip, TypeBits, StoredLens, RecCopy, RecRaw, RawBits;
    var body := data + (MARK + more);
    var lens := Pack(StoredLens(|data|)) + (MARK + body);
    StoredAssoc(Pack(TypeBits(last, 0)), Pack(StoredLens(|data|)), data, more);
    PackedHead(TypeBits(last, 0), lens);
    TypeReads(last, 0, Zeros(Pad(3)) + ByteBits(lens));
    SkipPad(Pad(3), lens);
    PackedHead(StoredLens(|data|), MARK + body);
    assert Zeros(Pad(32)) + ByteBits(MARK + body) == ByteBits(MARK + body);
    StoredLensRead(|data|, ByteBits(MARK + body));
    StoredBody(n, last, data, more);
    assert RecStored(n, last, Zeros(Pad(3)) + ByteBits(lens)) == RecLens(n, last, ByteBits(lens));
    assert RecLens(n, last, ByteBits(lens)) == RecSkip(n, last, Stored(|data|), ByteBits(MARK + body));
  }

  lemma StoredAssoc(a: seq<byte>, b: seq<byte>, data: seq<byte>, more: seq<byte>)
    ensures a + (b + MARK) + data + MARK + more == a + (b + (MARK + (data + (MARK + more))))
  {
  }

  lemma StoredLensRead(k: nat, tail: Bits)
    requires k < 65536
    ensures var b := StoredLens(k) + tail;
            |b| >= 32 && Val(b[..16]) == k && Val(b[16..32]) == 65535 - k && b[32..] == tail
  {
    Pow2Small();
    ValToBits(k, 16);
    ValToBits(65535 - k, 16);
    hide Val, ToBits, Pow2;
    assert (StoredLens(k) + tail)[..16] == ToBits(k, 16);
    assert (StoredLens(k) + tail)[16..32] == ToBits(65535 - k, 16);
  }

  lemma StoredBody(n: nat, last: bool, data: seq<byte>, more: seq<byte>)
    requires |data| < 65536
    ensures RecSkip(n, last, Stored(|data|), ByteBits(MARK + (data + (MARK + more)))) ==
            RecRaw(n, last, data, ByteBits(more))
  {
    hide ByteBits, Pack, RecRaw, RawBits;
    var body := data + (MARK + more);
    MarkSkipped(body);
    ByteBitsAppend(data, MARK + more);
    MarkSkipped(more);
    var bits := ByteBits(body);
    assert bits[..8 * |data|] == ByteBits(data);
    assert bits[8 * |data| + 16..] == bits[8 * |data|..][16..];
    PackByteBits(data);
    assert [] + data == data;
    var all := ByteBits(MARK + body);
    assert all[0..] == all;
    assert RecSkip(n, last, Stored(|data|), all) == RecMark(n, last, Stored(|data|), all);
    assert RecMark(n, last, Stored(|data|), all) == RecCopy(n, last, [], |data|, bits);
  }

  // ----- blocks -----

  /** A block the decoder can have read. */
  ghost predicate Decodable(b: Block) {
    exists bits :: ReadBlock(bits).Ok? && ReadBlock(bits).v == b
  }

  function Tokens(b: Block): seq<Tok> {
    if b.StoredBlock? then [] else b.toks
  }

  lemma DecodableValid(b: Block)
    requires Decodable(b)
    ensures ValidBlock(b)
    ensures b.DynamicBlock? ==> ValidHeader(b.hdr) && AcceptsHeaderLens(b.hdr)
    ensures b.DynamicBlock? ==> exists bits :: ReadHeader(true, bits).Ok? && ReadHeader(true, bits).v == b.hdr
  {
    hide ReadHeader, ReadToks, ReadStored, HeaderBits, ToksBits, Accepts;
    var bits :| ReadBlock(bits).Ok? && ReadBlock(bits).v == b;
    BlockExact(bits);
    if b.DynamicBlock? {
      var p := DynamicHeaderOf(bits);
      HeaderExact(true, bits[3..]);
    }
  }

  lemma DynamicHeaderOf(bits: Bits) returns (p: Parsed<Header>)
    requires ReadBlock(bits).Ok? && ReadBlock(bits).v.DynamicBlock?
    ensures p == ReadHeader(true, bits[3..]) && p.Ok? && p.v == ReadBlock(bits).v.hdr
  {
    hide ReadHeader, ReadToks;
    p := ReadHeader(true, bits[3..]);
  }

  predicate Writable(b: Block) {
    ValidBlock(b) && (b.DynamicBlock? ==> AcceptsHeaderLens(b.hdr))
  }

  /** The bits the encoder writes for a block that starts `n` bits into its output. */
  function Rewritten(n: nat, b: Block): Bits
    requires Writable(b)
  {
    match b
    case StoredBlock(last, _, data) => RawBits(n, last, data)
    case FixedBlock(last, toks) => CodedBits(last, Fixed, SymsOf(toks))
    case DynamicBlock(last, h, toks) => CodedBits(last, Dynamic(h), SymsOf(toks))
  }

  /** The block can be written without running over symbols that are still to be read. */
  predicate HasRoom(n: nat, b: Block)
    requires Writable(b)
  {
    match b
    case StoredBlock(_, _, data) => RawSafe(n, |data|)
    case FixedBlock(last, toks) => SymsSafe(n, last, Fixed, SymsOf(toks))
    case DynamicBlock(last, h, toks) => SymsSafe(n, last, Dynamic(h), SymsOf(toks))
  }

  /** The encoder reads back a block's instructions and writes the block anew. */
  lemma BlockReads(n: nat, b: Block, more: seq<byte>)
    requires Decodable(b)
    ensures Writable(b)
    ensures RecBlocks(n, false, ByteBits(InsBlock(b) + more)) ==
            if |Tokens(b)| >= SYM_MAX then BitTrace([], SymbolsFull)
            else if HasRoom(n, b) then RecPut(n, b.last, Rewritten(n, b), ByteBits(more))
            else BitTrace([], OutOfBounds)
  {
    DecodableValid(b);
    hide RecBlocks, RecPut, InsBlock, ByteBits, Decodable, RawBits, CodedBits, ValidTok, ValidHeader,
        AcceptsHeaderLens, ReadHeader;
    match b
    case StoredBlock(last, pad, data) => StoredReads(n, last, pad, data, more);
    case FixedBlock(last, toks) => FixedReads(n, last, toks, more);
    case DynamicBlock(last, h, toks) =>
      var bits :| ReadHeader(true, bits).Ok? && ReadHeader(true, bits).v == h;
      DynamicReads(n, last, bits, toks, more);
  }

  // ----- which blocks come back -----

  predicate NoLongSpelling(ts: seq<Tok>) {
    forall t :: t in ts ==> !LongSpelling(t)
  }

  /** The code-length instructions are those of send_tree. */
  predicate SendTreeHeader(h: Header)
    requires AcceptsHeaderLens(h)
  {
    h.ops == Rle(LitLens(h)) + Rle(DistLens(h))
  }

  /** A block that starts `n` bits into the stream is written as zlib writes it. */
  predicate Canonical(n: nat, b: Block)
    requires Writable(b)
  {
    match b
    case StoredBlock(_, pad, _) => pad == Zeros(Pad(n + 3))
    case FixedBlock(_, toks) => NoLongSpelling(toks)
    case DynamicBlock(_, h, toks) => NoLongSpelling(toks) && SendTreeHeader(h)
  }

  lemma {:induction false} ToksKept(ts: seq<Tok>)
    requires ValidToks(ts)
    ensures Retoks(SymsOf(ts)) == ts <==> NoLongSpelling(ts)
  {
    if ts != [] {
      hide SymOf, Retok, ValidTok, LongSpelling;
      CanonKeeps(ts[0]);
      ToksKept(ts[1..]);
      assert SymsOf(ts)[1..] == SymsOf(ts[1..]);
      assert Canon(ts[0]) == Retok(SymOf(ts[0]));
      assert ts == [ts[0]] + ts[1..];
      assert Retoks(SymsOf(ts)) == [Canon(ts[0])] + Retoks(SymsOf(ts[1..]));
    }
  }

  /** Every canonical block is written exactly as it was. */
  lemma CanonicalKept(n: nat, b: Block)
    requires Writable(b) && Canonical(n, b)
    ensures Rewritten(n, b) == BlockBits(b)
  {
    hide TypeBits, StoredLens, ByteBits, HeaderBits, ToksBits, Expand, ValidTok, ValidHeader, NoLongSpelling,
        AcceptsHeaderLens, Rle, Retoks, SymsOf;
    if !b.StoredBlock? {
      ToksKept(b.toks);
    }
  }
}
