/**
  Concrete streams that do not come back, one for each condition, and blocks whose differences cancel.
 */
module Examples {
  import opened Bits
  import opened Huffman
  import opened TableSpec
  import opened TableLemmas
  import opened Format
  import opened FormatLemmas
  import opened FixedCode
  import opened LengthCodes
  import opened RunLength
  import opened Instructions
  import opened DecoderSpec
  import opened EncoderSpec
  import opened Transcode
  import opened RoundTrip
  import opened Exactness
  import opened Rereading
  import opened Overlay
  import HeaderReading

  /** The bytes of a stream of one block, filled up with zero bits. */
  function StreamOf(b: Block): seq<byte>
    requires ValidBlock(b)
  {
    Pack(BlockBits(b))
  }

  lemma StreamReads(b: Block)
    requires BlockReadable(0, b) && ValidBlock(b) && b.last
    ensures ReadStream(ByteBits(StreamOf(b))) == Ok([b], Zeros(Pad(|BlockBits(b)|)))
  {
    hide *;
    var bits := BlockBits(b);
    var pad := Zeros(Pad(|bits|));
    OneReadable(0, b);
    StreamOfIs(b);
    PadFills(|bits|, 0);
    BlocksReread(0, [b], pad);
  }

  lemma StreamOfIs(b: Block)
    requires ValidBlock(b)
    ensures ByteBits(StreamOf(b)) == BlockBits(b) + Zeros(Pad(|BlockBits(b)|))
  {
    PackBits(BlockBits(b));
    hide BlockBits, Pack, ByteBits;
  }

  lemma ReadsDecodable(b: Block)
    requires BlockReadable(0, b) && ValidBlock(b) && b.last
    ensures Decodable(b) && DecodableAll([b]) && Writable(b) && WritableAll([b])
  {
    hide *;
    StreamReads(b);
    StreamDecodable(ByteBits(StreamOf(b)));
    OneDecodable(b);
    DecodableWritable([b]);
    OneWritable(b);
  }

  lemma OneDecodable(b: Block)
    requires DecodableAll([b])
    ensures Decodable(b)
  {
    hide Decodable;
    assert b in [b];
  }

  lemma OneWritable(b: Block)
    requires WritableAll([b])
    ensures Writable(b)
  {
    hide Writable;
    assert b in [b];
  }

  /** An ordinary block that is not canonical is a stream that does not come back. */
  lemma NotBack(b: Block)
    requires BlockReadable(0, b) && ValidBlock(b) && b.last && Ordinary(b) && Writable(b) && Reparses(b)
    requires !Canonical(0, b)
    ensures var s := StreamOf(b);
            var rest := Zeros(Pad(|BlockBits(b)|));
            && ReadStream(ByteBits(s)) == Ok([b], rest)
            && Encode(Decode(s).out).out + Aligned(rest) != ByteBits(s)
  {
    hide *;
    StreamReads(b);
    ReadsDecodable(b);
    OneManageable(b);
    StreamExactly(StreamOf(b), [b], Zeros(Pad(|BlockBits(b)|)));
    OneCanonical(b, Zeros(Pad(|BlockBits(b)|)));
  }

  lemma OneManageable(b: Block)
    requires Writable(b) && WritableAll([b]) && Ordinary(b)
    ensures Manageable(0, [b])
    ensures Reparses(b) ==> ReparsesAll([b])
  {
    hide Writable, Ordinary, Manageable, Reparses;
    OrdinaryManageable(0, [b]);
  }

  lemma OneCanonical(b: Block, rest: Bits)
    requires Writable(b) && WritableAll([b])
    ensures ComesBack([b], rest) ==> Canonical(0, b)
  {
    hide Writable, Canonical, BlockBits;
  }

  // ----- fixed codes -----

  lemma FixedCodes(toks: seq<Tok>)
    requires ValidToks(toks)
    ensures Coded(FixedLit(), FixedDist(), toks)
  {
    forall t | t in toks
      ensures TokCoded(FixedLit(), FixedDist(), t)
    {
      assert ValidTok(t);
    }
  }

  lemma FixedReadable(last: bool, toks: seq<Tok>)
    requires ValidToks(toks)
    ensures BlockReadable(0, FixedBlock(last, toks)) && ValidBlock(FixedBlock(last, toks))
    ensures Writable(FixedBlock(last, toks)) && Reparses(FixedBlock(last, toks))
  {
    FixedCodes(toks);
    hide Coded, ValidTok, FixedLit, FixedDist;
  }

  /** Length 258 spelled as symbol 284 with all extra bits set comes back as symbol 285. */
  lemma LongSpellingLost()
    ensures var b := FixedBlock(true, [Lit(65), Match(284, 31, 0, 0)]);
            && ValidBlock(b)
            && var s, rest := StreamOf(b), Zeros(Pad(|BlockBits(b)|));
               && ReadStream(ByteBits(s)) == Ok([b], rest)
               && Encode(Decode(s).out).out + Aligned(rest) != ByteBits(s)
  {
    var toks := [Lit(65), Match(284, 31, 0, 0)];
    Pow2Small();
    assert ValidToks(toks);
    assert !NoLongSpelling(toks) by { assert toks[1] in toks; }
    hide *;
    FixedReadable(true, toks);
    NotCanonical(true, toks);
    NotBack(FixedBlock(true, toks));
  }

  /** With the usual spelling it does come back: a stream that meets every condition of the round trip. */
  lemma UsualSpellingKept()
    ensures var b := FixedBlock(true, [Lit(65), Match(285, 0, 0, 0)]);
            && ValidBlock(b) && WritableAll([b])
            && var s, rest := StreamOf(b), Zeros(Pad(|BlockBits(b)|));
               && ReadStream(ByteBits(s)) == Ok([b], rest)
               && Manageable(0, [b]) && ReparsesAll([b]) && ComesBack([b], rest)
               && Encode(Decode(s).out).out + Aligned(rest) == ByteBits(s)
  {
    var toks := [Lit(65), Match(285, 0, 0, 0)];
    Pow2Small();
    assert ValidToks(toks) && NoLongSpelling(toks);
    hide *;
    FixedReadable(true, toks);
    var b := FixedBlock(true, toks);
    var rest := Zeros(Pad(|BlockBits(b)|));
    StreamReads(b);
    KeepsSpelling(true, toks);
    ReadsDecodable(b);
    OneManageable(b);
    OneKept(b);
    StreamExactly(StreamOf(b), [b], rest);
  }

  lemma KeepsSpelling(last: bool, toks: seq<Tok>)
    requires ValidToks(toks) && Writable(FixedBlock(last, toks)) && NoLongSpelling(toks)
    ensures Canonical(0, FixedBlock(last, toks)) && FixedBlock(last, toks).last == last
    ensures |toks| <= 18725 ==> Ordinary(FixedBlock(last, toks))
  {
    hide NoLongSpelling, ValidTok;
  }

  lemma OneKept(b: Block)
    requires Writable(b) && WritableAll([b]) && ValidBlock(b) && Canonical(0, b)
    ensures ComesBack([b], Zeros(Pad(|BlockBits(b)|)))
  {
    hide Writable, Canonical, BlockBits, ValidBlock;
    assert CanonicalStream(0, [b]);
  }

  lemma NotCanonical(last: bool, toks: seq<Tok>)
    requires ValidToks(toks) && Writable(FixedBlock(last, toks)) && !NoLongSpelling(toks)
    ensures !Canonical(0, FixedBlock(last, toks)) && FixedBlock(last, toks).last == last
    ensures |toks| <= 18725 ==> Ordinary(FixedBlock(last, toks))
  {
    hide NoLongSpelling, ValidTok;
  }

  /** Padding in front of a stored block that is not zero is replaced by zeros. */
  lemma PaddingLost()
    ensures var b := StoredBlock(true, [true, false, false, false, false], []);
            && ValidBlock(b)
            && var s, rest := StreamOf(b), Zeros(Pad(|BlockBits(b)|));
               && ReadStream(ByteBits(s)) == Ok([b], rest)
               && Encode(Decode(s).out).out + Aligned(rest) != ByteBits(s)
  {
    var pad := [true, false, false, false, false];
    var b := StoredBlock(true, pad, []);
    assert pad[0] != Zeros(5)[0];
    assert BlockReadable(0, b) && ValidBlock(b) && Ordinary(b) && Writable(b) && Reparses(b) && !Canonical(0, b);
    hide *;
    NotBack(b);
  }

  /** So are the bits between the end of the last block and the next byte boundary. */
  lemma LastBitsLost(b: Block, rest: Bits)
    requires BlockReadable(0, b) && ValidBlock(b) && b.last && Ordinary(b) && Writable(b) && Reparses(b)
    requires (|BlockBits(b)| + |rest|) % 8 == 0 && !ZeroFront(rest)
    ensures var s := Pack(BlockBits(b) + rest);
            && ReadStream(ByteBits(s)) == Ok([b], rest)
            && Encode(Decode(s).out).out + Aligned(rest) != ByteBits(s)
  {
    hide *;
    var bits := BlockBits(b) + rest;
    WholeBytes(bits);
    OneReadable(0, b);
    BlocksReread(0, [b], rest);
    ReadsDecodable(b);
    OneManageable(b);
    StreamExactly(Pack(bits), [b], rest);
    OneEnd(b, rest);
  }

  lemma OneEnd(b: Block, rest: Bits)
    requires WritableAll([b]) && !ZeroFront(rest)
    ensures !ComesBack([b], rest)
  {
    hide CanonicalStream, Writable, ZeroFront;
  }

  lemma LastBitsExample()
    ensures var b, rest := FixedBlock(true, []), [true, false, false, false, false, false];
            && ValidBlock(b)
            && var s := Pack(BlockBits(b) + rest);
               && ReadStream(ByteBits(s)) == Ok([b], rest)
               && Encode(Decode(s).out).out + Aligned(rest) != ByteBits(s)
  {
    var b, rest := FixedBlock(true, []), [true, false, false, false, false, false];
    assert rest[..6][0] != Zeros(6)[0];
    assert !ZeroFront(rest);
    hide *;
    NoToks();
    FixedReadable(true, []);
    EmptyBits();
    LastBitsLost(b, rest);
  }

  lemma NoToks()
    ensures ValidToks([]) && FixedBlock(true, []).last && Ordinary(FixedBlock(true, []))
  {
  }

  lemma EmptyBits()
    ensures ValidBlock(FixedBlock(true, [])) && |BlockBits(FixedBlock(true, []))| == 10
  {
    EndBits(FixedLit(), FixedDist());
    SymLength(FixedLit(), 256);
    hide ToksBits, SymBits;
  }

  // ----- blocks the encoder cannot hold -----

  /** A block of 65532 literals fills sym_buf, and the encoder gives up. */
  lemma TooManySymbols()
    ensures var b := FixedBlock(true, seq(65532, _ => Lit(0)));
            && ValidBlock(b)
            && ReadStream(ByteBits(StreamOf(b))).Ok?
            && Encode(Decode(StreamOf(b)).out) == BitTrace([], SymbolsFull)
  {
    var toks := seq(65532, _ => Lit(0));
    assert ValidToks(toks);
    hide *;
    FixedReadable(true, toks);
    assert |toks| == 65532;
    FullBlock(FixedBlock(true, toks));
  }

  lemma FullBlock(b: Block)
    requires BlockReadable(0, b) && ValidBlock(b) && b.FixedBlock? && b.last && |b.toks| >= 65532
    ensures ReadStream(ByteBits(StreamOf(b))).Ok? && Encode(Decode(StreamOf(b)).out) == BitTrace([], SymbolsFull)
  {
    hide *;
    StreamReads(b);
    ReadsDecodable(b);
    EncodeDecode(StreamOf(b), [b], Zeros(Pad(|BlockBits(b)|)));
    BlockReads(0, b, []);
    OneIns(b);
    EncodeIs(InsStream([b]));
    ToksOf(b);
  }

  lemma OneIns(b: Block)
    requires ValidBlock(b) && ValidBlocks([b])
    ensures InsBlock(b) + [] == InsStream([b]) && ByteBits([]) == []
  {
    hide InsBlock, ValidBlock;
    assert [b][1..] == [];
    assert InsStream([]) == [];
  }

  lemma ToksOf(b: Block)
    requires b.FixedBlock?
    ensures Tokens(b) == b.toks && SYM_MAX == 65532
  {
  }

  /** Read back, the symbols of rewritten tokens are the symbols. */
  lemma {:induction false} SymsKept(xs: seq<Sym3>)
    requires ValidSyms(xs)
    ensures SymsOf(Retoks(xs)) == xs
  {
    if xs != [] {
      hide Retok, SymOf, ValidSym;
      RetokSym(xs[0]);
      SymsKept(xs[1..]);
      assert Retoks(xs)[1..] == Retoks(xs[1..]);
      assert xs == [xs[0]] + xs[1..];
    }
  }

  /**
    A block of 18728 of the longest matches has few enough symbols for sym_buf, but writing it would run
    over symbols that have not been read.
   */
  lemma Overrun()
    ensures var b := FixedBlock(true, Retoks(Longest(18728)));
            && ValidBlock(b) && |b.toks| < SYM_MAX
            && ReadStream(ByteBits(StreamOf(b))).Ok?
            && Encode(Decode(StreamOf(b)).out) == BitTrace([], OutOfBounds)
  {
    hide *;
    LitBuf();
    var xs := Longest(18728);
    var b := FixedBlock(true, Retoks(xs));
    SymsKept(xs);
    FixedReadable(true, Retoks(xs));
    LongestSafe(0, true, 18728);
    assert b.last && |b.toks| == 18728;
    StreamReads(b);
    ReadsDecodable(b);
    EncodeDecode(StreamOf(b), [b], Zeros(Pad(|BlockBits(b)|)));
    BlockReads(0, b, []);
    OneIns(b);
    EncodeIs(InsStream([b]));
    ToksOf(b);
    NoRoom(b, xs);
  }

  lemma LitBuf()
    ensures SYM_MAX == 65532
  {
  }

  lemma NoRoom(b: Block, xs: seq<Sym3>)
    requires b.FixedBlock? && b.last && Writable(b) && SymsOf(b.toks) == xs && !SymsSafe(0, true, Fixed, xs)
    ensures !HasRoom(0, b)
  {
    hide SymsSafe, SymsOf, ValidTok;
  }

  /** A stored block of more than 16379 bytes would be copied onto itself. */
  lemma StoredOverrun(data: seq<byte>)
    requires 16379 < |data| < 65536
    ensures var b := StoredBlock(true, Zeros(5), data);
            && ValidBlock(b)
            && ReadStream(ByteBits(StreamOf(b))).Ok?
            && Encode(Decode(StreamOf(b)).out) == BitTrace([], OutOfBounds)
  {
    var b := StoredBlock(true, Zeros(5), data);
    assert BlockReadable(0, b) && ValidBlock(b) && Writable(b) && !HasRoom(0, b) && |Tokens(b)| == 0;
    hide *;
    LitBuf();
    assert b.last;
    StreamReads(b);
    ReadsDecodable(b);
    EncodeDecode(StreamOf(b), [b], Zeros(Pad(|BlockBits(b)|)));
    BlockReads(0, b, []);
    OneIns(b);
    EncodeIs(InsStream([b]));
  }

  // ----- codes for dynamic blocks -----

  lemma {:induction false} CountRange(lens: Lens, a: nat, b: nat, v: nat, len: nat)
    requires a <= b <= |lens| && forall i :: a <= i < b ==> lens[i] == v
    ensures CountTo(lens, b, len) == CountTo(lens, a, len) + if v == len then b - a else 0
    decreases b
  {
    if a < b {
      CountRange(lens, a, b - 1, v, len);
    }
  }

  lemma {:induction false} FitsBelow(lens: Lens, len: nat, max: nat)
    requires len <= max && EndCode(lens, max) <= Pow2(max)
    ensures EndCode(lens, len) <= Pow2(len)
    decreases max - len
  {
    if len < max {
      FitsBelow(lens, len + 1, max);
    }
  }

  /** A code of at most `max` bits that uses every bit string, with a table of one level, is accepted. */
  lemma SmallCode(kind: Kind, lens: Lens, max: nat)
    requires Bounded(lens) && 0 < max <= RequestBits(kind) && Pow2(max) <= Enough(kind)
    requires Count(lens, max) > 0 && (forall l :: max < l <= MAXBITS ==> Count(lens, l) == 0)
    requires EndCode(lens, max) == Pow2(max) && max <= MAXBITS
    ensures Fits(lens) && Complete(lens) && Accepts(kind, lens)
  {
    hide EndCode, Count, Accepts, Pow2, Bounded;
    assert MaxLen(lens, MAXBITS) == max;
    CompleteAtMax(lens);
    forall len | 0 <= len <= MAXBITS
      ensures EndCode(lens, len) <= Pow2(len)
    {
      if len <= max {
        FitsBelow(lens, len, max);
      } else {
        EndAfterMax(lens, max, len);
        Pow2Add(max, len - max);
      }
    }
    AcceptedWhole(kind, lens);
  }

  /** A code-length code with a code for every symbol; symbol 0 is `10`. */
  function ClAll(): (r: Lens)
    ensures |r| == 19
  {
    seq(19, s => if s == 18 then 1 else if s == 0 then 2 else if s < 16 then 6 else 7)
  }

  lemma ClAllCounts(len: nat)
    ensures Count(ClAll(), len) == if len == 1 || len == 2 then 1 else if len == 6 then 15 else if len == 7 then 2
            else 0
  {
    CountRange(ClAll(), 0, 1, 2, len);
    CountRange(ClAll(), 1, 16, 6, len);
    CountRange(ClAll(), 16, 18, 7, len);
    CountRange(ClAll(), 18, 19, 1, len);
  }

  lemma ClAllEnds()
    ensures EndCode(ClAll(), 1) == 1 && EndCode(ClAll(), 7) == 128
  {
    hide Count, ClAll;
    forall len: nat
      ensures Count(ClAll(), len) == if len == 1 || len == 2 then 1 else if len == 6 then 15 else if len == 7 then 2
              else 0
    {
      ClAllCounts(len);
    }
    assert EndCode(ClAll(), 2) == 3;
    assert EndCode(ClAll(), 4) == 12;
    assert EndCode(ClAll(), 6) == 63;
  }

  lemma ClAllAccepted()
    ensures Bounded(ClAll()) && Fits(ClAll()) && Accepts(Codes, ClAll())
    ensures forall s :: 0 <= s < 19 ==> Used(ClAll(), s)
  {
    ClAllShape();
    ClAllEnds();
    Pow2Small();
    hide EndCode, Count, Accepts, Fits, Pow2, Complete, ClAll, Bounded, Used;
    ClAllCounts(7);
    forall l | 7 < l <= MAXBITS
      ensures Count(ClAll(), l) == 0
    {
      ClAllCounts(l);
    }
    SmallCode(Codes, ClAll(), 7);
  }

  lemma ClAllShape()
    ensures Bounded(ClAll()) && forall s :: 0 <= s < 19 ==> Used(ClAll(), s)
    ensures forall s :: 0 <= s < 19 ==> ClAll()[s] < 8
  {
  }

  /** Code lengths in the order in which they are sent. */
  function Sent(lens: Lens): (cl: seq<nat>)
    requires |lens| == 19
  {
    seq(19, i requires 0 <= i < 19 => lens[ORDER[i]])
  }

  lemma SentLens(lens: Lens)
    requires |lens| == 19 && forall i :: 0 <= i < 19 ==> lens[i] < 8
    ensures ClLens(Sent(lens)) == lens && |Sent(lens)| == 19 && forall v :: v in Sent(lens) ==> v < 8
  {
    HeaderReading.ClLensIs(lens, Sent(lens), Sent(lens));
    assert lens[..19] == lens;
    hide ClLens;
  }

  /** A header that spells out one zero too many for send_tree. */
  function ZeroTooMany(lit: Lens, dist: Lens): Header {
    Header(|lit|, |dist|, Sent(ClAll()), Rle(lit) + Rle(dist) + [LenOp(0)])
  }

  lemma ZeroTooManyLens(lit: Lens, dist: Lens)
    requires Bounded(lit) && Bounded(dist) && Lost(lit) == 0 && Lost(dist) == 1
    ensures ValidOps(Rle(lit) + Rle(dist)) && ValidOps(ZeroTooMany(lit, dist).ops)
    ensures Expand(ZeroTooMany(lit, dist).ops) == lit + dist
  {
    hide *;
    RleSound(lit);
    RleSound(dist);
    BothValid(Rle(lit), Rle(dist));
    OneZero();
    BothValid(Rle(lit) + Rle(dist), [LenOp(0)]);
    ZeroTooManyIs(lit, dist);
    ExpandTwo(lit, dist);
    ExpandSnoc(Rle(lit) + Rle(dist), LenOp(0));
    LastZero(dist);
    OneLen(lit + dist[..|dist| - 1]);
    assert lit[..|lit| - 0] == lit;
    assert dist == dist[..|dist| - 1] + [0];
    assert lit + dist[..|dist| - 1] + [0] == lit + dist;
  }

  lemma RleSound(lens: Lens)
    requires Bounded(lens)
    ensures ValidOps(Rle(lens))
  {
    RleValid(lens, false);
  }

  lemma OneZero()
    ensures ValidOps([LenOp(0)])
  {
  }

  lemma OneLen(before: seq<nat>)
    ensures OpLens(before, LenOp(0)) == [0]
  {
  }

  lemma LastZero(dist: Lens)
    requires Lost(dist) == 1
    ensures dist != [] && dist[|dist| - 1] == 0
  {
  }

  lemma ZeroTooManyReads(lit: Lens, dist: Lens)
    requires Bounded(lit) && Bounded(dist) && Lost(lit) == 0 && Lost(dist) == 1
    requires 257 <= |lit| <= 286 && 1 <= |dist| <= 30 && lit[256] != 0 && Accepts(LenCodes, lit)
    requires Accepts(DistCodes, dist)
    ensures var h := ZeroTooMany(lit, dist);
            && HeaderReadable(h) && AcceptsHeaderLens(h) && ValidHeader(h) && LitLens(h) == lit && DistLens(h) == dist
            && ClLens(h.cl) == ClAll() && Covers(h)
            && Resent(h).ops == Rle(lit) + Rle(dist) && h.ops == Resent(h).ops + [LenOp(0)]
  {
    hide *;
    var h := ZeroTooMany(lit, dist);
    ZeroTooManyLens(lit, dist);
    ZeroTooManyIs(lit, dist);
    ClAllShape();
    ClAllAccepted();
    SentLens(ClAll());
    DeclaredCodes(h, lit, dist);
    AllCoded(h.ops);
    AllCoded(Rle(lit) + Rle(dist));
    NoRepeatFirst(lit, dist);
    MakeReadable(h);
    MakeCovers(h);
  }

  lemma ZeroTooManyIs(lit: Lens, dist: Lens)
    ensures var h := ZeroTooMany(lit, dist);
            h.nlen == |lit| && h.ndist == |dist| && h.cl == Sent(ClAll()) && h.ops == Rle(lit) + Rle(dist) + [LenOp(0)]
  {
    hide Rle, Sent, ClAll;
  }

  lemma NoRepeatFirst(lit: Lens, dist: Lens)
    ensures !(Rle(lit) + Rle(dist) + [LenOp(0)])[0].RepeatOp?
  {
    RleIs(lit);
    RleIs(dist);
    RleFirst(lit);
    RleFirst(dist);
    hide Rle, RleFrom;
  }

  /** What a header declares, from what its instructions expand to. */
  lemma DeclaredCodes(h: Header, lit: Lens, dist: Lens)
    requires Expand(h.ops) == lit + dist && h.nlen == |lit| && h.ndist == |dist| && 257 <= |lit| <= 286
    requires 1 <= |dist| <= 30
    requires Bounded(lit) && Bounded(dist) && lit[256] != 0 && Accepts(LenCodes, lit) && Accepts(DistCodes, dist)
    ensures AcceptsHeader(h) && AcceptsHeaderLens(h) && LitLens(h) == lit && DistLens(h) == dist
    ensures Resent(h).ops == Rle(lit) + Rle(dist)
  {
    BothBounded(lit, dist);
    hide Rle, Expand, Accepts, Bounded;
    assert (lit + dist)[..|lit|] == lit && (lit + dist)[|lit|..] == dist;
    assert (lit + dist)[256] == lit[256];
  }

  lemma MakeReadable(h: Header)
    requires AcceptsHeader(h) && h.nlen <= 286 && h.ndist <= 30 && 257 <= h.nlen && 1 <= h.ndist && |h.cl| == 19
    requires ValidOps(h.ops)
    requires forall v :: v in h.cl ==> v < 8
    requires Bounded(ClLens(h.cl)) && Accepts(Codes, ClLens(h.cl)) && OpsCoded(ClLens(h.cl), h.ops)
    requires h.ops != [] ==> !h.ops[0].RepeatOp?
    ensures HeaderReadable(h) && ValidHeader(h)
  {
    hide Expand, Accepts, Bounded, ClLens, OpsCoded, ValidOp;
  }

  lemma MakeCovers(h: Header)
    requires AcceptsHeaderLens(h) && OpsCoded(ClLens(h.cl), Rle(LitLens(h)) + Rle(DistLens(h)))
    ensures Covers(h)
  {
    hide Expand, Rle, ClLens, Used, ValidOp, OpSym;
  }

  lemma BothBounded(a: Lens, b: Lens)
    requires Bounded(a) && Bounded(b)
    ensures Bounded(a + b)
  {
  }

  lemma AllCoded(ops: seq<ClOp>)
    requires ValidOps(ops)
    ensures OpsCoded(ClAll(), ops)
  {
    ClAllShape();
    hide ClAll, Used;
    forall op | op in ops
      ensures Used(ClAll(), OpSym(op))
    {
      assert ValidOp(op);
    }
  }

  // ----- a trailing zero -----

  /** Literal 0 and the end of the block have codes of one bit. */
  function TwoCodes(): (r: Lens)
    ensures |r| == 257
  {
    seq(257, s => if s == 0 || s == 256 then 1 else 0)
  }

  lemma TwoCodesAccepted()
    ensures Bounded(TwoCodes()) && Fits(TwoCodes()) && Accepts(LenCodes, TwoCodes()) && Lost(TwoCodes()) == 0
    ensures Used(TwoCodes(), 0) && Used(TwoCodes(), 256) && TwoCodes()[0] == TwoCodes()[256] == 1
  {
    Pow2Small();
    forall len: nat
      ensures len > 0 ==> Count(TwoCodes(), len) == if len == 1 then 2 else 0
    {
      CountRange(TwoCodes(), 0, 1, 1, len);
      CountRange(TwoCodes(), 1, 256, 0, len);
      CountRange(TwoCodes(), 256, 257, 1, len);
    }
    hide Count, Accepts, Fits, Pow2, Complete, TwoCodes, CountTo, Bounded;
    TwoCodesShape();
    assert EndCode(TwoCodes(), 1) == 2;
    SmallCode(LenCodes, TwoCodes(), 1);
  }

  lemma TwoCodesShape()
    ensures Bounded(TwoCodes()) && Lost(TwoCodes()) == 0
    ensures Used(TwoCodes(), 0) && Used(TwoCodes(), 256) && TwoCodes()[0] == TwoCodes()[256] == 1
  {
  }

  /** The block of the next lemma: `t` literals. */
  function ZeroBlock(t: nat): Block {
    DynamicBlock(true, ZeroTooMany(TwoCodes(), [0]), seq(t, _ => Lit(0)))
  }

  lemma NoDistance()
    ensures Bounded([0]) && Accepts(DistCodes, [0]) && Lost([0]) == 1
  {
    assert Count([0], 0) == 1;
    forall len | 0 < len <= MAXBITS
      ensures Count([0], len) == 0
    {
      CountRange([0], 0, 1, 0, len);
    }
    assert TrailingZeros([0]) == 1 by { TrailingZerosAll([0]); }
    hide Count;
    assert MaxLen([0], MAXBITS) == 0;
  }

  lemma ZeroBlockReads(t: nat)
    ensures var b := ZeroBlock(t);
            && BlockReadable(0, b) && ValidBlock(b) && ValidToks(b.toks) && NoLongSpelling(b.toks)
                && AcceptsHeaderLens(b.hdr)
            && ValidHeader(b.hdr) && ValidHeader(Resent(b.hdr)) && b.last && |b.toks| == t
            && ClLens(b.hdr.cl) == ClAll() && b.hdr.ops == Resent(b.hdr).ops + [LenOp(0)]
            && LitLens(b.hdr) == TwoCodes() && DistLens(b.hdr) == [0]
  {
    TwoCodesAccepted();
    NoDistance();
    hide TwoCodes, Accepts, Fits, Bounded, Rle, Expand, ClLens, ValidOp, Lost, HeaderReadable, Covers, ZeroTooMany,
        ClAll, ValidHeader;
    ZeroTooManyReads(TwoCodes(), [0]);
    ResentValid(ZeroTooMany(TwoCodes(), [0]));
  }

  lemma {:induction false} ZeroToks(t: nat, dc: Lens)
    ensures ValidToks(seq(t, _ => Lit(0)))
    ensures |ToksBits(TwoCodes(), dc, seq(t, _ => Lit(0)))| == t + 1
  {
    var ts := seq(t, _ => Lit(0));
    TwoCodesShape();
    hide TwoCodes, SymBits;
    if t == 0 {
      EndBits(TwoCodes(), dc);
      SymLength(TwoCodes(), 256);
      assert ts == [];
    } else {
      var us := seq(t - 1, _ => Lit(0));
      ZeroToks(t - 1, dc);
      assert ts == [Lit(0)] + us;
      ToksBitsCons(TwoCodes(), dc, Lit(0), us);
      SymLength(TwoCodes(), 0);
    }
  }

  /** The zero that send_tree drops takes two bits. */
  lemma ZeroBlockSize(t: nat)
    ensures var b := ZeroBlock(t);
            && ValidBlock(b) && Writable(b) && ValidHeader(b.hdr)
            && |BlockBits(b)| == 4 + |HeaderBits(b.hdr)| + t && |Rewritten(0, b)| == |BlockBits(b)| - 2
  {
    hide *;
    var b := ZeroBlock(t);
    ZeroBlockIs(t);
    ZeroBlockReads(t);
    ReadsDecodable(b);
    DynamicForm(0, b);
    ToksKept(b.toks);
    ZeroToks(t, [0]);
    TypeSize(b.last, 2);
    DroppedZero(b.hdr);
  }

  lemma ZeroBlockIs(t: nat)
    ensures ZeroBlock(t).DynamicBlock? && ZeroBlock(t).hdr == ZeroBlock(0).hdr
    ensures ZeroBlock(t).toks == seq(t, _ => Lit(0))
  {
    hide ZeroTooMany, TwoCodes;
  }

  lemma DroppedZero(h: Header)
    requires ValidHeader(h) && AcceptsHeaderLens(h) && ValidHeader(Resent(h)) && h.ops == Resent(h).ops + [LenOp(0)]
    requires ClLens(h.cl) == ClAll()
    ensures |HeaderBits(Resent(h))| == |HeaderBits(h)| - 2
  {
    ClAllShape();
    OneZero();
    hide Expand, Rle, ClLens, ClAll, SymBits, OpsBits, ValidOp;
    OpsBitsSnoc(ClLens(h.cl), Resent(h).ops, LenOp(0));
    ZeroOpSize();
  }

  lemma ZeroOpSize()
    ensures |OpBits(ClAll(), LenOp(0))| == 2
  {
    SymLength(ClAll(), 0);
  }

  /**
    A dynamic block that declares one unused distance code.  The zero at the end of the code lengths is not
    sent again, and here that makes the whole stream one byte shorter.
   */
  lemma TrailingZeroLost()
    returns (b: Block)
    ensures b.DynamicBlock? && BlockReadable(0, b) && ValidBlock(b) && b.last
    ensures var s, rest := StreamOf(b), Zeros(Pad(|BlockBits(b)|));
            && ReadStream(ByteBits(s)) == Ok([b], rest)
            && |Encode(Decode(s).out).out| + |Aligned(rest)| == |ByteBits(s)| - 8
  {
    hide *;
    ZeroBlockIs(0);
    ZeroBlockReads(0);
    var t := Fill8(|HeaderBits(ZeroBlock(0).hdr)|);
    b := ZeroBlock(t);
    ZeroBlockReads(t);
    ZeroBlockIs(t);
    ZeroBlockSize(t);
    StreamReads(b);
    ReadsDecodable(b);
    SmallBlock(b);
    OneManageable(b);
    EncodeDecode(StreamOf(b), [b], Zeros(Pad(|BlockBits(b)|)));
    OneWritten(0, b);
    StreamOfIs(b);
    FillWorks(|HeaderBits(b.hdr)|, t, |BlockBits(b)|);
  }

  lemma SmallBlock(b: Block)
    requires b.DynamicBlock? && |b.toks| < 8
    ensures Ordinary(b)
  {
  }

  /** How many more bits make 4 + k of them one more than a multiple of 8. */
  function Fill8(k: nat): (t: nat)
    ensures t < 8
  {
    (13 - k % 8) % 8
  }

  lemma FillWorks(k: nat, t: nat, n: nat)
    requires t == Fill8(k) && n == 4 + k + t
    ensures (0 + (n - 2) + Pad(0 + (n - 2))) + 8 == n + Pad(n) && n >= 2
    ensures |Zeros(Pad(n))| == Pad(n) && |Aligned(Zeros(Pad(n)))| == 0
  {
  }

  // ----- differences that cancel -----

  /** Symbol 284 is `0`; of the 32 codes of eight bits, the last one, `10011111`, is that of symbol 285. */
  function LongCodes(): (r: Lens)
    ensures |r| == 286
  {
    seq(286, s => if s < 192 then 9 else if s < 222 || s == 256 || s == 285 then 8 else if s == 284 then 1 else 0)
  }

  lemma LongCodesTo(len: nat)
    requires len > 0
    ensures CountTo(LongCodes(), 286, len) == if len == 1 then 1 else if len == 8 then 32 else if len == 9 then 192
            else 0
    ensures CountTo(LongCodes(), 285, 8) == 31 && CountTo(LongCodes(), 284, 1) == 0
  {
    LongCodesFrom(len);
    LongCodesFrom(8);
    LongCodesFrom(1);
  }

  lemma LongCodesFrom(len: nat)
    requires len > 0
    ensures CountTo(LongCodes(), 284, len) == if len == 8 then 31 else if len == 9 then 192 else 0
    ensures CountTo(LongCodes(), 285, len) == if len == 8 then 31 else if len == 9 then 192 else if len == 1 then 1
            else 0
    ensures CountTo(LongCodes(), 286, len) == if len == 8 then 32 else if len == 9 then 192 else if len == 1 then 1
            else 0
  {
    CountRange(LongCodes(), 0, 192, 9, len);
    CountRange(LongCodes(), 192, 222, 8, len);
    CountRange(LongCodes(), 222, 256, 0, len);
    CountRange(LongCodes(), 256, 257, 8, len);
    CountRange(LongCodes(), 257, 284, 0, len);
    CountRange(LongCodes(), 284, 285, 1, len);
    CountRange(LongCodes(), 285, 286, 8, len);
  }

  lemma LongCodesEnds()
    ensures EndCode(LongCodes(), 7) == 64 && EndCode(LongCodes(), 9) == 512
  {
    hide CountTo, LongCodes;
    forall len: nat
      ensures len > 0 ==> Count(LongCodes(), len) == if len == 1 then 1 else if len == 8 then 32
              else if len == 9 then 192 else 0
    {
      if len > 0 {
        LongCodesTo(len);
      }
    }
    hide Count;
    assert EndCode(LongCodes(), 1) == 1;
    assert EndCode(LongCodes(), 3) == 4;
    assert EndCode(LongCodes(), 5) == 16;
  }

  lemma LongCodesShape()
    ensures Bounded(LongCodes()) && Lost(LongCodes()) == 0 && LongCodes()[256] == 8
    ensures Used(LongCodes(), 256) && Used(LongCodes(), 284) && Used(LongCodes(), 285) && LongCodes()[284] == 1
    ensures LongCodes()[285] == 8
  {
  }

  lemma LongCodesAccepted()
    ensures Bounded(LongCodes()) && Accepts(LenCodes, LongCodes())
  {
    hide *;
    LongCodesShape();
    LongCodesEnds();
    LongCodesCount();
    Powers();
    SmallCode(LenCodes, LongCodes(), 9);
  }

  lemma LongCodesCount()
    ensures Count(LongCodes(), 9) > 0 && forall l :: 9 < l <= MAXBITS ==> Count(LongCodes(), l) == 0
  {
    hide CountTo, LongCodes;
    LongCodesTo(9);
    forall l | 9 < l <= MAXBITS
      ensures Count(LongCodes(), l) == 0
    {
      LongCodesTo(l);
    }
  }

  lemma Powers()
    ensures Pow2(9) == 512 && Pow2(8) == 256 && Pow2(7) == 128 && Pow2(6) == 64 && Pow2(1) == 2 && MAXBITS == 15
    ensures RequestBits(LenCodes) == 9 && RequestBits(Codes) == 7 && RequestBits(DistCodes) == 6
    ensures Enough(LenCodes) >= 512 && Enough(Codes) >= 128 && Enough(DistCodes) >= 2
  {
    Pow2Small();
  }

  /** The codes that make up for the missing zero. */
  lemma LongBits()
    ensures SymBits(LongCodes(), 285) == SymBits(ClAll(), 0) + SymBits(LongCodes(), 284) + ToBits(31, 5)
    ensures OpBits(ClAll(), LenOp(0)) == SymBits(ClAll(), 0)
  {
    hide *;
    LongCode();
    SecondCode();
    FirstCodeBits();
    FiveOnes();
    ZeroOpBits();
    assert [true, false] + [false] + [true, true, true, true, true] ==
        [true, false, false, true, true, true, true, true];
  }

  lemma LongCode()
    ensures SymBits(LongCodes(), 285) == [true, false, false, true, true, true, true, true]
  {
    LongCodesShape();
    LongCodesEnds();
    LongCodesTo(8);
    hide LongCodes, EndCode, CountTo, MsbBits;
    assert Code(LongCodes(), 285) == 159;
    Bits159();
  }

  lemma FirstCodeBits()
    ensures SymBits(LongCodes(), 284) == [false]
  {
    LongCodesShape();
    LongCodesTo(1);
    EndZero(LongCodes());
    hide LongCodes, EndCode, CountTo;
    assert Code(LongCodes(), 284) == 0;
  }

  lemma SecondCode()
    ensures SymBits(ClAll(), 0) == [true, false]
  {
    ClAllShape();
    ClAllEnds();
    assert ClAll()[0] == 2;
    hide ClAll, EndCode, Used;
    assert Code(ClAll(), 0) == 2;
  }

  lemma FiveOnes()
    ensures ToBits(31, 5) == [true, true, true, true, true]
  {
  }

  lemma ZeroOpBits()
    ensures OpBits(ClAll(), LenOp(0)) == SymBits(ClAll(), 0)
  {
    hide SymBits, ClAll;
    NoMore(SymBits(ClAll(), 0));
  }

  lemma EndZero(lens: Lens)
    ensures EndCode(lens, 0) == 0
  {
  }

  lemma Bits159()
    ensures MsbBits(159, 8) == [true, false, false, true, true, true, true, true]
  {
    assert MsbBits(19, 5) == [true, false, false, true, true];
    assert MsbBits(39, 6) == [true, false, false, true, true, true];
    assert MsbBits(79, 7) == [true, false, false, true, true, true, true];
  }

  /** Two distance codes of one bit, and an unused one. */
  function TwoDist(): (r: Lens)
    ensures |r| == 3
  {
    [1, 1, 0]
  }

  lemma TwoDistCount(len: nat)
    ensures len > 0 ==> Count(TwoDist(), len) == if len == 1 then 2 else 0
  {
    CountRange(TwoDist(), 0, 2, 1, len);
    CountRange(TwoDist(), 2, 3, 0, len);
  }

  lemma TwoDistShape()
    ensures Bounded(TwoDist()) && Lost(TwoDist()) == 1 && Used(TwoDist(), 0)
  {
    assert TrailingZeros(TwoDist()[..2]) == 0;
  }

  lemma TwoDistances()
    ensures Bounded(TwoDist()) && Accepts(DistCodes, TwoDist()) && Lost(TwoDist()) == 1 && Used(TwoDist(), 0)
  {
    hide *;
    Powers();
    TwoDistShape();
    TwoDistEnd();
    TwoDistOnly();
    SmallCode(DistCodes, TwoDist(), 1);
  }

  lemma TwoDistOnly()
    ensures Count(TwoDist(), 1) > 0 && forall l :: 1 < l <= MAXBITS ==> Count(TwoDist(), l) == 0
  {
    hide Count, TwoDist;
    TwoDistCount(1);
    forall l | 1 < l <= MAXBITS
      ensures Count(TwoDist(), l) == 0
    {
      TwoDistCount(l);
    }
  }

  lemma TwoDistEnd()
    ensures EndCode(TwoDist(), 1) == 2
  {
    hide Count, TwoDist;
    TwoDistCount(1);
  }

  /** A match of length 258 spelled as symbol 284, in a block with one zero too many in its header. */
  function CancelBlock(): Block {
    DynamicBlock(true, ZeroTooMany(LongCodes(), TwoDist()), [Match(284, 31, 0, 0)])
  }

  lemma CancelReads()
    ensures var b := CancelBlock();
            && BlockReadable(0, b) && ValidBlock(b) && b.DynamicBlock? && b.last && ValidToks(b.toks)
                && b.toks == [Match(284, 31, 0, 0)]
            && AcceptsHeaderLens(b.hdr) && ValidHeader(b.hdr) && Covers(b.hdr) && ClLens(b.hdr.cl) == ClAll()
            && b.hdr.ops == Resent(b.hdr).ops + [LenOp(0)]
            && LitLens(b.hdr) == LongCodes() && DistLens(b.hdr) == TwoDist()
  {
    LongCodesAccepted();
    LongCodesShape();
    TwoDistances();
    Pow2Small();
    hide LongCodes, Accepts, Fits, Bounded, Rle, Expand, ClLens, ValidOp, Lost, HeaderReadable, Covers, ZeroTooMany,
        ClAll, ValidHeader;
    ZeroTooManyReads(LongCodes(), TwoDist());
  }

  lemma {:induction false} OneLong(lc: Lens, dc: Lens, t: Tok)
    requires ValidTok(t) && LongSpelling(t)
    ensures ValidToks([t]) && ValidTok(Match(285, 0, t.dsym, t.dext)) && !NoLongSpelling([t])
    ensures ToksBits(lc, dc, [t]) == TokBits(lc, dc, t) + SymBits(lc, 256)
    ensures ToksBits(lc, dc, Retoks(SymsOf([t]))) == TokBits(lc, dc, Match(285, 0, t.dsym, t.dext)) + SymBits(lc, 256)
  {
    CanonLong(t);
    hide TokBits, SymBits, ValidTok, SymOf, Retok;
    EndBits(lc, dc);
    assert [t] == [t] + [] && t in [t];
    ToksBitsCons(lc, dc, t, []);
    var u := Canon(t);
    assert SymsOf([t]) == [SymOf(t)] by { assert [t][1..] == []; }
    assert Retoks([SymOf(t)]) == [u] by { assert [SymOf(t)][1..] == []; }
    assert [u] == [u] + [];
    ToksBitsCons(lc, dc, u, []);
  }

  /**
    This block is not canonical twice over, and yet it comes back: the match gets two bits longer, and they
    are those of the zero that is dropped.
   */
  lemma CancelsCovered()
    ensures var b := CancelBlock();
            && b.DynamicBlock? && Decodable(b) && Writable(b) && Covers(b.hdr)
            && Rewritten(0, b) == BlockBits(b) && !Canonical(0, b)
  {
    hide *;
    var b := CancelBlock();
    CancelReads();
    ReadsDecodable(b);
    LongTok();
    OneLong(LongCodes(), TwoDist(), Match(284, 31, 0, 0));
    LongBits();
    LongTokBits();
    var p, q := b.hdr.ops, Resent(b.hdr).ops;
    assert q < p && p[|q|..] == [LenOp(0)];
    OneZero();
    OneOpBits(ClAll(), LenOp(0));
    BodyIs(b, p[|q|..], b.toks);
    AssocBits(SymBits(ClAll(), 0), SymBits(LongCodes(), 284), ToBits(31, 5), SymBits(TwoDist(), 0),
        SymBits(LongCodes(), 256));
    MakeMadeUp(b);
    DynamicCovered(0, b);
    NotNow(b);
  }

  lemma AssocBits(a: Bits, b: Bits, c: Bits, d: Bits, e: Bits)
    ensures a + (b + c + d + e) == a + b + c + d + e
  {
  }

  lemma LongTok()
    ensures ValidTok(Match(284, 31, 0, 0)) && LongSpelling(Match(284, 31, 0, 0))
  {
    LongToks();
    hide ValidTok;
  }

  lemma LongTokBits()
    ensures ValidTok(Match(285, 0, 0, 0)) && ValidTok(Match(284, 31, 0, 0))
    ensures TokBits(LongCodes(), TwoDist(), Match(284, 31, 0, 0)) == SymBits(LongCodes(), 284) + ToBits(31, 5) +
            SymBits(TwoDist(), 0)
    ensures TokBits(LongCodes(), TwoDist(), Match(285, 0, 0, 0)) == SymBits(LongCodes(), 285) + SymBits(TwoDist(), 0)
  {
    hide *;
    LongToks();
    MatchBits(LongCodes(), TwoDist(), 284, 31, 0, 0);
    MatchBits(LongCodes(), TwoDist(), 285, 0, 0, 0);
    NoMore(SymBits(LongCodes(), 285));
    NoMore(SymBits(LongCodes(), 284) + ToBits(31, 5) + SymBits(TwoDist(), 0));
    NoMore(SymBits(LongCodes(), 285) + SymBits(TwoDist(), 0));
  }

  lemma LongToks()
    ensures ValidTok(Match(285, 0, 0, 0)) && ValidTok(Match(284, 31, 0, 0))
    ensures LenExtra(284) == 5 && LenExtra(285) == 0 && DistExtra(0) == 0 && ToBits(0, 0) == []
  {
    ExtraSizes();
    ExtraPowers();
    hide LenExtra, DistExtra, Pow2;
  }

  lemma ExtraSizes()
    ensures LenExtra(284) == 5 && LenExtra(285) == 0 && DistExtra(0) == 0
  {
  }

  lemma ExtraPowers()
    ensures Pow2(0) == 1 && Pow2(5) == 32
  {
    Pow2Small();
  }

  lemma MatchBits(lc: Lens, dc: Lens, l: nat, x: nat, d: nat, y: nat)
    requires ValidTok(Match(l, x, d, y))
    ensures TokBits(lc, dc, Match(l, x, d, y)) == SymBits(lc, l) + ToBits(x, LenExtra(l)) + SymBits(dc, d) +
            ToBits(y, DistExtra(d))
  {
    hide SymBits, ToBits, LenExtra, DistExtra;
  }

  lemma OneOpBits(cl: Lens, op: ClOp)
    requires ValidOp(op) && ValidOps([op])
    ensures OpsBits(cl, [op]) == OpBits(cl, op)
  {
    hide OpBits, ValidOp;
    OpsBitsNil(cl);
    assert [op] == [] + [op];
    OpsBitsSnoc(cl, [], op);
  }

  lemma MakeMadeUp(b: Block)
    requires b.DynamicBlock? && ValidBlock(b) && AcceptsHeaderLens(b.hdr) && ValidToks(b.toks)
    requires var q, p := Resent(b.hdr).ops, b.hdr.ops;
             && q < p && ValidOps(p[|q|..])
             && ToksBits(LitLens(b.hdr), DistLens(b.hdr), Retoks(SymsOf(b.toks))) == BodyOf(b, p[|q|..], b.toks)
    ensures MadeUp(b)
  {
    hide BodyOf, ToksBits, Expand, Rle, ValidTok, ValidOp, Retoks, SymsOf;
  }

  lemma NotNow(b: Block)
    requires b.DynamicBlock? && Writable(b) && !NoLongSpelling(b.toks)
    ensures !Canonical(0, b)
  {
    hide NoLongSpelling, Expand, Rle, ValidTok, ValidHeader;
  }

  /** A code-length code without symbol 17; symbol 0 is `0`. */
  function ClShort(): (r: Lens)
    ensures |r| == 19
  {
    seq(19, s => if s == 0 then 1 else if s < 16 then 5 else if s == 17 then 0 else 6)
  }

  lemma ClShortCounts(len: nat)
    requires len > 0
    ensures Count(ClShort(), len) == if len == 1 then 1 else if len == 5 then 15 else if len == 6 then 2 else 0
    ensures CountTo(ClShort(), 0, 1) == 0
  {
    CountRange(ClShort(), 0, 1, 1, len);
    CountRange(ClShort(), 1, 16, 5, len);
    CountRange(ClShort(), 16, 17, 6, len);
    CountRange(ClShort(), 17, 18, 0, len);
    CountRange(ClShort(), 18, 19, 6, len);
  }

  lemma ClShortEnds()
    ensures EndCode(ClShort(), 6) == 64
  {
    hide Count, ClShort;
    forall len: nat
      ensures len > 0 ==> Count(ClShort(), len) == if len == 1 then 1 else if len == 5 then 15 else if len == 6 then 2
              else 0
    {
      if len > 0 {
        ClShortCounts(len);
      }
    }
    assert EndCode(ClShort(), 2) == 2;
    assert EndCode(ClShort(), 4) == 8;
  }

  lemma ClShortShape()
    ensures Bounded(ClShort()) && forall s :: 0 <= s < 19 ==> ClShort()[s] < 8 && (Used(ClShort(), s) <==> s != 17)
    ensures ClShort()[0] == 1
  {
  }

  lemma ClShortOnly()
    ensures Count(ClShort(), 6) > 0 && forall l :: 6 < l <= MAXBITS ==> Count(ClShort(), l) == 0
  {
    hide Count, ClShort;
    ClShortCounts(6);
    forall l | 6 < l <= MAXBITS
      ensures Count(ClShort(), l) == 0
    {
      ClShortCounts(l);
    }
  }

  lemma ClShortAccepted()
    ensures Bounded(ClShort()) && Accepts(Codes, ClShort())
  {
    hide *;
    Powers();
    ClShortShape();
    ClShortEnds();
    ClShortOnly();
    SmallCode(Codes, ClShort(), 6);
  }

  /** Three unused literals, and then no more. */
  function MostCodes(): (r: Lens)
    ensures |r| == 257
  {
    seq(257, s => if s < 3 then 0 else if s < 5 then 7 else 8)
  }

  lemma MostCodesCounts(len: nat)
    requires len > 0
    ensures Count(MostCodes(), len) == if len == 7 then 2 else if len == 8 then 252 else 0
  {
    CountRange(MostCodes(), 0, 3, 0, len);
    CountRange(MostCodes(), 3, 5, 7, len);
    CountRange(MostCodes(), 5, 257, 8, len);
  }

  lemma MostCodesEnds()
    ensures EndCode(MostCodes(), 8) == 256
  {
    hide Count, MostCodes;
    forall len: nat
      ensures len > 0 ==> Count(MostCodes(), len) == if len == 7 then 2 else if len == 8 then 252 else 0
    {
      if len > 0 {
        MostCodesCounts(len);
      }
    }
    assert EndCode(MostCodes(), 2) == 0;
    assert EndCode(MostCodes(), 4) == 0;
    assert EndCode(MostCodes(), 6) == 0;
  }

  lemma MostCodesShape()
    ensures Bounded(MostCodes()) && MostCodes()[256] == 8 && Used(MostCodes(), 256) && Lost(MostCodes()) == 0
    ensures MostCodes() == [0, 0, 0] + MostCodes()[3..] && forall i :: 0 <= i < 254 ==> MostCodes()[3..][i] != 0
  {
  }

  lemma MostCodesOnly()
    ensures Count(MostCodes(), 8) > 0 && forall l :: 8 < l <= MAXBITS ==> Count(MostCodes(), l) == 0
  {
    hide Count, MostCodes;
    MostCodesCounts(8);
    forall l | 8 < l <= MAXBITS
      ensures Count(MostCodes(), l) == 0
    {
      MostCodesCounts(l);
    }
  }

  lemma MostCodesAccepted()
    ensures Bounded(MostCodes()) && Accepts(LenCodes, MostCodes())
  {
    hide *;
    Powers();
    MostCodesShape();
    MostCodesEnds();
    MostCodesOnly();
    SmallCode(LenCodes, MostCodes(), 8);
  }

  /** Both distance codes have one bit. */
  function PairDist(): (r: Lens)
    ensures |r| == 2
  {
    [1, 1]
  }

  lemma PairDistAccepted()
    ensures Bounded(PairDist()) && Accepts(DistCodes, PairDist()) && Lost(PairDist()) == 0
    ensures forall i :: 0 <= i < 2 ==> PairDist()[i] != 0
  {
    PairShape();
    PairOnly();
    hide *;
    Powers();
    SmallCode(DistCodes, PairDist(), 1);
  }

  lemma PairShape()
    ensures Bounded(PairDist()) && Lost(PairDist()) == 0 && forall i :: 0 <= i < 2 ==> PairDist()[i] != 0
  {
  }

  lemma PairOnly()
    ensures Count(PairDist(), 1) == 2 == EndCode(PairDist(), 1) && forall l :: 1 < l <= MAXBITS ==>
            Count(PairDist(), l) == 0
  {
    forall l: nat
      ensures l > 0 ==> Count(PairDist(), l) == if l == 1 then 2 else 0
    {
      CountRange(PairDist(), 0, 2, 1, l);
    }
    hide Count, PairDist;
  }

  /** Without zeros among the lengths, send_tree uses no instruction for zeros. */
  lemma {:induction false} NoZeros(s: seq<nat>, again: bool)
    requires forall i :: 0 <= i < |s| ==> 0 < s[i] <= 15
    ensures forall op :: op in RleFrom(s, again) ==> ValidOp(op) && OpSym(op) != 17
    decreases |s|
  {
    if s != [] {
      RleUnfold(s, again);
      NoZeros(s[Run(s)..], false);
      hide RleFrom;
      RunNoZeros(s, again);
    }
  }

  lemma RunNoZeros(s: seq<nat>, again: bool)
    requires s != [] && 0 < s[0] <= 15
    ensures forall op :: op in RunOps(s, again) ==> ValidOp(op) && OpSym(op) != 17
  {
    RepeatNoZeros(s[0], Run(s));
    RepeatNoZeros(s[0], Run(s) - 1);
    hide RepeatOps, Run;
  }

  lemma {:induction false} RepeatNoZeros(v: nat, r: nat)
    requires 0 < v <= 15
    ensures forall op :: op in RepeatOps(v, r) ==> ValidOp(op) && OpSym(op) != 17
  {
    if r >= 6 {
      RepeatNoZeros(v, r - 6);
    }
  }

  /** Three zeros, spelled out. */
  const THREE := [LenOp(0), LenOp(0), LenOp(0)]

  function RestOps(): seq<ClOp> {
    Rle(MostCodes()[3..]) + Rle(PairDist())
  }

  function SpelledHeader(): Header {
    Header(257, 2, Sent(ClShort()), THREE + RestOps())
  }

  lemma RestSound()
    ensures ValidOps(RestOps()) && OpsCoded(ClShort(), RestOps())
    ensures ValidOps(THREE) && OpsCoded(ClShort(), THREE) && ValidOps(THREE + RestOps())
    ensures OpsCoded(ClShort(), THREE + RestOps())
  {
    MostCodesShape();
    PairShape();
    ClShortShape();
    hide MostCodes, PairDist, ClShort, Used, RleFrom, Lost;
    BoundedAt(MostCodes());
    BoundedAt(PairDist());
    NoZeros(MostCodes()[3..], false);
    NoZeros(PairDist(), false);
    forall op | op in THREE + RestOps()
      ensures ValidOp(op) && Used(ClShort(), OpSym(op))
    {
      if op in THREE {
        assert op == LenOp(0);
      }
    }
  }

  lemma BoundedAt(lens: Lens)
    requires Bounded(lens)
    ensures forall i :: 0 <= i < |lens| ==> lens[i] <= 15
  {
  }

  lemma SpelledExpands()
    ensures Expand(THREE + RestOps()) == MostCodes() + PairDist()
  {
    hide *;
    var s := MostCodes()[3..];
    MostCodesShape();
    PairShape();
    NoLoss(s);
    RleIs(s);
    RleIs(PairDist());
    ExpandThree();
    RleExpands(THREE, s, false);
    RleExpands(THREE + Rle(s), PairDist(), false);
    RestIs();
    Assoc(THREE, Rle(s), Rle(PairDist()));
    assert s[..|s| - 0] == s && PairDist()[..2 - 0] == PairDist();
  }

  lemma RestIs()
    ensures RestOps() == Rle(MostCodes()[3..]) + Rle(PairDist()) && THREE == [LenOp(0), LenOp(0), LenOp(0)]
  {
    hide Rle, MostCodes, PairDist;
  }

  lemma NoLoss(s: seq<nat>)
    requires |s| == 254 && forall i :: 0 <= i < 254 ==> s[i] != 0
    ensures Lost(s) == 0
  {
  }

  lemma ExpandThree()
    ensures Expand(THREE) == [0, 0, 0]
  {
    ExpandNil();
    ExpandSnoc([], LenOp(0));
    ExpandSnoc([LenOp(0)], LenOp(0));
    ExpandSnoc([LenOp(0), LenOp(0)], LenOp(0));
    hide Expand;
    assert [] + [LenOp(0)] == [LenOp(0)];
    assert [LenOp(0)] + [LenOp(0)] == [LenOp(0), LenOp(0)];
    assert [LenOp(0), LenOp(0)] + [LenOp(0)] == THREE;
  }

  /** What send_tree makes of the three zeros. */
  lemma SentThree()
    ensures Rle(MostCodes()) == [ZerosOp(3)] + Rle(MostCodes()[3..])
  {
    MostCodesShape();
    var s := MostCodes();
    assert s[3] != 0;
    hide MostCodes, RleFrom, Lost;
    RunThree(s);
    RleUnfold(s, false);
    assert RunOps(s, false) == [ZerosOp(3)];
  }

  lemma RunThree(s: seq<nat>)
    requires |s| > 3 && s[0] == s[1] == s[2] == 0 != s[3]
    ensures Run(s) == 3
  {
    assert RunFrom(s, 3) == 3;
    assert RunFrom(s, 2) == 3;
  }

  /** An empty block with the three zeros spelled out. */
  function SpelledBlock(): Block {
    DynamicBlock(true, SpelledHeader(), [])
  }

  lemma SpelledReads()
    ensures var b := SpelledBlock();
            && BlockReadable(0, b) && ValidBlock(b) && b.DynamicBlock? && b.last && b.toks == [] && ValidToks(b.toks)
            && AcceptsHeaderLens(b.hdr) && ValidHeader(b.hdr) && ClLens(b.hdr.cl) == ClShort()
            && b.hdr.ops == THREE + RestOps() && Resent(b.hdr).ops == [ZerosOp(3)] + RestOps()
            && LitLens(b.hdr) == MostCodes() && DistLens(b.hdr) == PairDist()
  {
    hide *;
    var h := SpelledHeader();
    SpelledIs();
    RestSound();
    SpelledExpands();
    ClShortShape();
    ClShortAccepted();
    SentLens(ClShort());
    MostCodesShape();
    MostCodesAccepted();
    PairDistAccepted();
    DeclaredCodes(h, MostCodes(), PairDist());
    SentThree();
    RestIs();
    Assoc([ZerosOp(3)], Rle(MostCodes()[3..]), Rle(PairDist()));
    MakeReadable(h);
    EmptyReadable(h, MostCodes(), PairDist());
  }

  lemma SpelledIs()
    ensures var h := SpelledHeader();
            && h.nlen == 257 && h.ndist == 2 && h.cl == Sent(ClShort()) && h.ops == THREE + RestOps() && h.ops != []
                && h.ops[0] == LenOp(0)
            && SpelledBlock() == DynamicBlock(true, h, [])
  {
    hide RestOps, Sent, ClShort;
  }

  lemma EmptyReadable(h: Header, lit: Lens, dist: Lens)
    requires HeaderReadable(h) && ValidHeader(h) && AcceptsHeaderLens(h) && LitLens(h) == lit && DistLens(h) == dist
    requires Used(lit, 256)
    ensures BlockReadable(0, DynamicBlock(true, h, [])) && ValidBlock(DynamicBlock(true, h, [])) && ValidToks([])
  {
    hide HeaderReadable, ValidHeader, Expand, Used, ClLens;
  }

  /**
    This block spells out three zeros as three instructions of one bit each.  send_tree uses symbol 17, which
    has no code here and takes no bits, and its three extra bits are the same three zero bits.
   */
  lemma CancelsUncovered()
    ensures var b := SpelledBlock();
            && b.DynamicBlock? && Decodable(b) && Writable(b) && NoLongSpelling(b.toks) && !Covers(b.hdr)
            && Rewritten(0, b) == BlockBits(b) && !Canonical(0, b)
  {
    hide *;
    var b := SpelledBlock();
    SpelledReads();
    ReadsDecodable(b);
    ResentValid(b.hdr);
    RestSound();
    ThreeBits();
    OpsBitsAppend(ClShort(), THREE, RestOps());
    OneZeros();
    OpsBitsAppend(ClShort(), [ZerosOp(3)], RestOps());
    DynamicBodies(0, b);
    DynamicParts(b);
    EmptyToks(b);
    BodyIs(b, b.hdr.ops, b.toks);
    BodyIs(b, Resent(b.hdr).ops, b.toks);
    NotSpelled(b);
    NotCovered(b);
  }

  lemma OneZeros()
    ensures ValidOps([ZerosOp(3)])
  {
  }

  lemma ThreeBits()
    ensures ValidOps(THREE) && ValidOps([ZerosOp(3)]) && OpsBits(ClShort(), THREE) == OpsBits(ClShort(), [ZerosOp(3)])
  {
    OneZero();
    OneZeros();
    ShortBits0();
    hide ClShort, OpBits;
    var cl := ClShort();
    OneOpBits(cl, ZerosOp(3));
    OneOpBits(cl, LenOp(0));
    OpsBitsSnoc(cl, [LenOp(0)], LenOp(0));
    OpsBitsSnoc(cl, [LenOp(0), LenOp(0)], LenOp(0));
    hide OpsBits;
    assert [LenOp(0)] + [LenOp(0)] == [LenOp(0), LenOp(0)];
    assert [LenOp(0), LenOp(0)] + [LenOp(0)] == THREE;
  }

  lemma ShortBits0()
    ensures OpBits(ClShort(), LenOp(0)) == [false] && OpBits(ClShort(), ZerosOp(3)) == [false, false, false]
  {
    ClShortShape();
    ClShortCounts(1);
    EndZero(ClShort());
    hide ClShort, EndCode, Count;
    assert Code(ClShort(), 0) == 0;
    assert ToBits(0, 3) == [false, false, false];
  }

  lemma EmptyToks(b: Block)
    requires b.DynamicBlock? && b.toks == []
    ensures Retoks(SymsOf(b.toks)) == b.toks && ValidToks(b.toks) && NoLongSpelling(b.toks)
  {
  }

  lemma NotSpelled(b: Block)
    requires b.DynamicBlock? && Writable(b) && AcceptsHeaderLens(b.hdr)
    requires b.hdr.ops == THREE + RestOps() && Resent(b.hdr).ops == [ZerosOp(3)] + RestOps()
    ensures !Canonical(0, b)
  {
    hide NoLongSpelling, Expand, Rle, ValidTok, ValidHeader, RestOps;
    assert b.hdr.ops[0] != Resent(b.hdr).ops[0];
  }

  lemma NotCovered(b: Block)
    requires b.DynamicBlock? && AcceptsHeaderLens(b.hdr) && ClLens(b.hdr.cl) == ClShort()
    requires Resent(b.hdr).ops == [ZerosOp(3)] + RestOps()
    ensures !Covers(b.hdr)
  {
    ClShortShape();
    hide Expand, Rle, RestOps, ClShort, ClLens, Used;
    var ops := Rle(LitLens(b.hdr)) + Rle(DistLens(b.hdr));
    assert ops == Resent(b.hdr).ops && ops[0] == ZerosOp(3) && ops[0] in ops && OpSym(ops[0]) == 17;
  }
}
