/**
  Which byte strings are DEFLATE streams, in the terms of RFC 1951 alone: the decoder reads exactly these, and
  reads each of them as the blocks it consists of.
 */
module Grammar {
  import opened Bits
  import opened Huffman
  import opened TableSpec
  import opened TableSpace
  import opened Format
  import opened FormatLemmas
  import opened FixedCode
  import opened Transcode
  import opened RoundTrip
  import opened Rereading

  /** A code that uses up all there is, or the one-bit code of a single symbol. */
  ghost predicate Whole(lens: Lens)
    requires Bounded(lens)
  {
    Kraft(lens, |lens|) == 32768 || OneBit(lens)
  }

  /** Section 3.2.7 of RFC 1951. */
  ghost predicate HeaderInRfc(h: Header) {
    && 257 <= h.nlen <= 286 && 1 <= h.ndist <= 30 && 4 <= |h.cl| <= 19
    && (forall v :: v in h.cl ==> v < 8)
    && Bounded(ClLens(h.cl)) && Kraft(ClLens(h.cl), 19) == 32768
    && ValidOps(h.ops) && OpsCoded(ClLens(h.cl), h.ops)
    && |Expand(h.ops)| == h.nlen + h.ndist && Bounded(Expand(h.ops)) && Expand(h.ops)[256] != 0
    && h.ops != [] && !h.ops[0].RepeatOp?
    && Bounded(LitLens(h)) && Whole(LitLens(h))
    && Bounded(DistLens(h)) && (Whole(DistLens(h)) || Kraft(DistLens(h), |DistLens(h)|) == 0)
  }

  /** A block that starts `n` bits into a stream. */
  ghost predicate BlockInRfc(n: nat, b: Block) {
    && ValidBlock(b)
    && match b
       case StoredBlock(_, pad, _) => |pad| == Pad(n + 3)
       case FixedBlock(_, toks) => Coded(FixedLit(), FixedDist(), toks)
       case DynamicBlock(_, h, toks) => HeaderInRfc(h) && Coded(LitLens(h), DistLens(h), toks)
  }

  ghost predicate BlocksInRfc(n: nat, bs: seq<Block>)
    decreases |bs|
  {
    bs == [] || (BlockInRfc(n, bs[0]) && BlocksInRfc(n + |BlockBits(bs[0])|, bs[1..]))
  }

  // ----- headers -----

  lemma ClBounded(cl: seq<nat>)
    requires |cl| <= 19 && forall v :: v in cl ==> v < 8
    ensures Bounded(ClLens(cl)) && Declared(Codes, ClLens(cl))
  {
    hide ClLenOf;
    forall i | 0 <= i < 19
      ensures ClLens(cl)[i] <= 7
    {
      ClAtMost(cl, i, 0);
    }
  }

  lemma {:induction false} ClAtMost(cl: seq<nat>, s: nat, k: nat)
    requires k <= |cl| && forall v :: v in cl ==> v < 8
    ensures ClLenOf(cl, s, k) <= 7
    decreases |cl| - k
  {
    hide ORDER;
    if k < |cl| {
      assert cl[k] in cl;
      ClAtMost(cl, s, k + 1);
    }
  }

  lemma UsedKraft(lens: Lens, s: nat)
    requires Bounded(lens) && Used(lens, s)
    ensures Kraft(lens, |lens|) > 0
  {
    hide Kraft, Count;
    CountPrefix(lens, s, lens[s]);
    NoCodesKraft(lens);
  }

  /** The `k`-th code length that was sent for the code-length code; those not sent are 0. */
  function ClSent(cl: seq<nat>, k: nat): nat {
    if k < |cl| then cl[k] else 0
  }

  lemma {:induction false} ClLenIs(cl: seq<nat>, s: nat, i: nat, k: nat)
    requires i <= k < 19 && ORDER[k] == s && forall j :: i <= j < k ==> ORDER[j] != s
    ensures ClLenOf(cl, s, i) == ClSent(cl, k)
    decreases k - i
  {
    hide ORDER;
    if i < k && i < |cl| {
      ClLenIs(cl, s, i + 1, k);
    }
  }

  /** The order in which the lengths of the code-length code are sent (section 3.2.7 of RFC 1951), from 0 to 18. */
  lemma ClOrder(cl: seq<nat>)
    ensures ClLens(cl) ==
            [ClSent(cl, 3), ClSent(cl, 17), ClSent(cl, 15), ClSent(cl, 13), ClSent(cl, 11), ClSent(cl, 9),
             ClSent(cl, 7), ClSent(cl, 5), ClSent(cl, 4), ClSent(cl, 6), ClSent(cl, 8), ClSent(cl, 10),
             ClSent(cl, 12), ClSent(cl, 14), ClSent(cl, 16), ClSent(cl, 18), ClSent(cl, 0), ClSent(cl, 1),
             ClSent(cl, 2)]
  {
    var at := [3, 17, 15, 13, 11, 9, 7, 5, 4, 6, 8, 10, 12, 14, 16, 18, 0, 1, 2];
    forall s | 0 <= s < 19
      ensures ClLens(cl)[s] == ClSent(cl, at[s])
    {
      ClPlaces(s);
      ClLenIs(cl, s, 0, at[s]);
    }
  }

  lemma ClPlaces(s: nat)
    requires s < 19
    ensures var at := [3, 17, 15, 13, 11, 9, 7, 5, 4, 6, 8, 10, 12, 14, 16, 18, 0, 1, 2];
            at[s] < 19 && ORDER[at[s]] == s && forall j :: 0 <= j < at[s] ==> ORDER[j] != s
  {
  }

  /** What the decoder asks of a header is what the RFC asks. */
  lemma HeaderRules(h: Header)
    requires h.ops != []
    ensures HeaderInRfc(h) <==> HeaderReadable(h)
  {
    hide *;
    if HeaderInRfc(h) {
      RfcParts(h);
      RfcCodes(h);
      MakeReadable(h);
    }
    if HeaderReadable(h) {
      HeaderParts(h);
      ReadableCodes(h);
      MakeRfc(h);
    }
  }

  lemma RfcParts(h: Header)
    requires HeaderInRfc(h)
    ensures 257 <= h.nlen <= 286 && 1 <= h.ndist <= 30 && 4 <= |h.cl| <= 19 && forall v :: v in h.cl ==> v < 8
    ensures |Expand(h.ops)| == h.nlen + h.ndist && Bounded(Expand(h.ops)) && Expand(h.ops)[256] != 0
    ensures ValidOps(h.ops) && OpsCoded(ClLens(h.cl), h.ops) && h.ops != [] && !h.ops[0].RepeatOp?
  {
    hide Expand, ClLens, Bounded, OpsCoded, ValidOp, Kraft, Whole, LitLens, DistLens;
  }

  lemma Parts(h: Header)
    requires h.nlen <= 286 && h.ndist <= 30 && |Expand(h.ops)| == h.nlen + h.ndist && Bounded(Expand(h.ops))
    ensures Declared(LenCodes, LitLens(h)) && Declared(DistCodes, DistLens(h))
    ensures Bounded(LitLens(h)) && Bounded(DistLens(h))
    ensures LitLens(h) == Expand(h.ops)[..h.nlen] && DistLens(h) == Expand(h.ops)[h.nlen..]
    ensures h.nlen > 256 ==> LitLens(h)[256] == Expand(h.ops)[256]
  {
    hide Expand;
  }

  lemma RfcCodes(h: Header)
    requires HeaderInRfc(h)
    ensures Bounded(ClLens(h.cl)) && Accepts(Codes, ClLens(h.cl))
    ensures Bounded(LitLens(h)) && Accepts(LenCodes, LitLens(h))
    ensures Bounded(DistLens(h)) && Accepts(DistCodes, DistLens(h))
  {
    hide Expand, ClLens, OpsCoded, ValidOp, Kraft, OneBit, LitLens, DistLens, Accepts, Bounded;
    ClBounded(h.cl);
    Parts(h);
    AcceptsExactly(Codes, ClLens(h.cl));
    AcceptsExactly(LenCodes, LitLens(h));
    AcceptsExactly(DistCodes, DistLens(h));
    EmptyCodes(h);
  }

  lemma EmptyCodes(h: Header)
    ensures |ClLens(h.cl)| == 19 && Codes != LenCodes && Codes != DistCodes
  {
  }

  lemma MakeReadable(h: Header)
    requires 257 <= h.nlen <= 286 && 1 <= h.ndist <= 30 && 4 <= |h.cl| <= 19 && forall v :: v in h.cl ==> v < 8
    requires |Expand(h.ops)| == h.nlen + h.ndist && Bounded(Expand(h.ops)) && Expand(h.ops)[256] != 0
    requires ValidOps(h.ops) && OpsCoded(ClLens(h.cl), h.ops) && h.ops != [] && !h.ops[0].RepeatOp?
    requires Bounded(ClLens(h.cl)) && Accepts(Codes, ClLens(h.cl))
    requires Bounded(LitLens(h)) && Accepts(LenCodes, LitLens(h))
    requires Bounded(DistLens(h)) && Accepts(DistCodes, DistLens(h))
    ensures HeaderReadable(h)
  {
    hide Expand, ClLens, OpsCoded, ValidOp, Accepts, Bounded;
  }

  lemma ReadableLens(h: Header)
    requires HeaderReadable(h)
    ensures |Expand(h.ops)| == h.nlen + h.ndist && Bounded(Expand(h.ops)) && 256 < h.nlen
    ensures Expand(h.ops)[256] != 0
    ensures Accepts(LenCodes, LitLens(h)) && Accepts(DistCodes, DistLens(h))
  {
    hide Expand, ClLens, OpsCoded, ValidOp, Accepts;
  }

  lemma ReadableCodes(h: Header)
    requires HeaderReadable(h) && h.ops != []
    ensures |Expand(h.ops)| == h.nlen + h.ndist && Bounded(Expand(h.ops)) && 256 < h.nlen
    ensures Expand(h.ops)[256] != 0 && |ClLens(h.cl)| == 19
    ensures Bounded(ClLens(h.cl)) && Kraft(ClLens(h.cl), 19) == 32768
    ensures Bounded(LitLens(h)) && Whole(LitLens(h))
    ensures Bounded(DistLens(h)) && (Whole(DistLens(h)) || Kraft(DistLens(h), |DistLens(h)|) == 0)
  {
    hide Expand, ClLens, Kraft, OneBit, LitLens, DistLens, Accepts, Bounded, HeaderReadable, Used, HeaderBits,
        ValidHeader, AcceptsHeader;
    HeaderParts(h);
    ReadableLens(h);
    ClBounded(h.cl);
    Parts(h);
    AcceptsExactly(Codes, ClLens(h.cl));
    AcceptsExactly(LenCodes, LitLens(h));
    AcceptsExactly(DistCodes, DistLens(h));
    EmptyCodes(h);
    assert h.ops[0] in h.ops;
    UsedKraft(ClLens(h.cl), OpSym(h.ops[0]));
    EndUsed(h);
    UsedKraft(LitLens(h), 256);
  }

  lemma EndUsed(h: Header)
    requires 256 < h.nlen <= |Expand(h.ops)| && Expand(h.ops)[256] != 0 && Bounded(LitLens(h))
    ensures Used(LitLens(h), 256)
  {
    hide Expand;
  }

  lemma MakeRfc(h: Header)
    requires 257 <= h.nlen <= 286 && 1 <= h.ndist <= 30 && 4 <= |h.cl| <= 19 && forall v :: v in h.cl ==> v < 8
    requires |Expand(h.ops)| == h.nlen + h.ndist && Bounded(Expand(h.ops)) && Expand(h.ops)[256] != 0
    requires ValidOps(h.ops) && OpsCoded(ClLens(h.cl), h.ops) && h.ops != [] && !h.ops[0].RepeatOp?
    requires Bounded(ClLens(h.cl)) && Kraft(ClLens(h.cl), 19) == 32768
    requires Bounded(LitLens(h)) && Whole(LitLens(h))
    requires Bounded(DistLens(h)) && (Whole(DistLens(h)) || Kraft(DistLens(h), |DistLens(h)|) == 0)
    ensures HeaderInRfc(h)
  {
    hide Expand, ClLens, OpsCoded, ValidOp, Kraft, Whole, Bounded;
  }

  /** Instructions that have been read stay. */
  lemma {:induction false} OpsKept(nlen: nat, ndist: nat, cl: seq<nat>, ops: seq<ClOp>, bits: Bits)
    requires ValidOps(ops) && ReadOps(nlen, ndist, cl, ops, bits).Ok?
    ensures ops <= ReadOps(nlen, ndist, cl, ops, bits).v.ops
    decreases |bits|
  {
    hide Expand, ClLens, ValidOp, OpSym, OpBits;
    if |Expand(ops)| < nlen + ndist {
      var op, rest := ReadOpsStep(nlen, ndist, cl, ops, bits);
      OpsKept(nlen, ndist, cl, ops + [op], rest);
    }
  }

  /** There is a first instruction, and it repeats nothing. */
  lemma {:induction false} FirstRead(nlen: nat, ndist: nat, ncode: nat, cl: seq<nat>, bits: Bits)
    requires ReadCl(nlen, ndist, ncode, cl, bits).Ok? && nlen > 0
    ensures var h := ReadCl(nlen, ndist, ncode, cl, bits).v; h.ops != [] && !h.ops[0].RepeatOp?
    decreases |bits|
  {
    hide ReadOps, ClLens, Bounded, Accepts, Val;
    if |cl| < ncode {
      FirstRead(nlen, ndist, ncode, cl + [Val(bits[..3])], bits[3..]);
    } else {
      FirstOf(nlen, ndist, cl, bits);
    }
  }

  lemma FirstOf(nlen: nat, ndist: nat, cl: seq<nat>, bits: Bits)
    requires ReadOps(nlen, ndist, cl, [], bits).Ok? && nlen > 0
    ensures var h := ReadOps(nlen, ndist, cl, [], bits).v; h.ops != [] && !h.ops[0].RepeatOp?
  {
    assert Expand([]) == [];
    hide Expand, ClLens, ValidOp, OpBits, ReadOps;
    var op, rest := ReadOpsStep(nlen, ndist, cl, [], bits);
    OpsKept(nlen, ndist, cl, [] + [op], rest);
  }

  lemma HeaderFirst(bits: Bits)
    requires ReadHeader(true, bits).Ok?
    ensures var h := ReadHeader(true, bits).v; h.ops != [] && !h.ops[0].RepeatOp?
  {
    hide ReadCl, Val;
    FirstRead(Val(bits[..5]) + 257, Val(bits[5..10]) + 1, Val(bits[10..14]) + 4, [], bits[14..]);
  }

  /** A header that was read is one of the RFC. */
  lemma ReadHeaderRfc(bits: Bits)
    requires ReadHeader(true, bits).Ok?
    ensures HeaderInRfc(ReadHeader(true, bits).v)
  {
    hide *;
    HeaderExact(true, bits);
    HeaderGuarantees(bits);
    HeaderFirst(bits);
    ReadIsReadable(ReadHeader(true, bits).v);
    HeaderRules(ReadHeader(true, bits).v);
  }

  lemma ReadIsReadable(h: Header)
    requires ValidHeader(h) && AcceptsHeader(h) && h.nlen <= 286 && h.ndist <= 30
    requires Bounded(ClLens(h.cl)) && Accepts(Codes, ClLens(h.cl)) && OpsCoded(ClLens(h.cl), h.ops)
    requires h.ops != [] && !h.ops[0].RepeatOp?
    ensures HeaderReadable(h)
  {
    hide ValidHeader, AcceptsHeader, Bounded, Accepts, OpsCoded, ClLens;
  }

  /** The decoder reads a header exactly where there is one. */
  lemma HeaderRead(bits: Bits, h: Header, rest: Bits)
    ensures ReadHeader(true, bits) == Ok(h, rest) <==>
            HeaderInRfc(h) && ValidHeader(h) && bits == HeaderBits(h) + rest
  {
    hide *;
    if ReadHeader(true, bits) == Ok(h, rest) {
      HeaderExact(true, bits);
      ReadHeaderRfc(bits);
    }
    if HeaderInRfc(h) && ValidHeader(h) && bits == HeaderBits(h) + rest {
      RfcParts(h);
      HeaderRules(h);
      HeaderRereads(h, rest);
    }
  }

  // ----- blocks and streams -----

  lemma BlockRules(n: nat, b: Block)
    ensures BlockInRfc(n, b) ==> BlockReadable(n, b)
  {
    hide HeaderInRfc, HeaderReadable, Coded, FixedLit, FixedDist, Expand, ValidHeader, ValidTok;
    if BlockInRfc(n, b) && b.DynamicBlock? {
      RfcParts(b.hdr);
      HeaderRules(b.hdr);
    }
  }

  /** A block that was read is one of the RFC. */
  lemma ReadBlockRfc(n: nat, bits: Bits)
    requires ReadBlock(bits).Ok? && (n + |bits|) % 8 == 0
    ensures BlockInRfc(n, ReadBlock(bits).v)
  {
    hide *;
    BlockExact(bits);
    BlockSource(bits);
    var b := ReadBlock(bits).v;
    IsDecodable(bits);
    if b.StoredBlock? {
      StoredSource(n, bits);
    } else {
      BlockGuarantees(b);
      if b.DynamicBlock? {
        var _ := DynamicHeaderOf(bits);
        ReadHeaderRfc(bits[3..]);
      }
      MakeBlock(n, b);
    }
  }

  lemma IsDecodable(bits: Bits)
    requires ReadBlock(bits).Ok?
    ensures Decodable(ReadBlock(bits).v)
  {
    hide ReadBlock;
  }

  lemma StoredSource(n: nat, bits: Bits)
    requires ReadBlock(bits).Ok? && ReadBlock(bits).v.StoredBlock? && (n + |bits|) % 8 == 0
    ensures BlockInRfc(n, ReadBlock(bits).v)
  {
    hide ReadHeader, ReadToks, ReadStored, ByteBits, BlockBits, StoredLens;
    BlockExact(bits);
    StoredExact(bits[0], bits[3..]);
  }

  lemma MakeBlock(n: nat, b: Block)
    requires !b.StoredBlock? && WellCoded(b) && (b.DynamicBlock? ==> HeaderInRfc(b.hdr))
    ensures BlockInRfc(n, b)
  {
    hide HeaderInRfc, Coded, FixedLit, FixedDist, Expand, ValidHeader, ValidTok, Fits, AcceptsHeader, OpsCoded;
  }

  lemma {:induction false} BlocksRules(n: nat, bs: seq<Block>)
    requires BlocksInRfc(n, bs)
    ensures AllReadable(n, bs) && ValidBlocks(bs)
    decreases |bs|
  {
    hide BlockInRfc, BlockReadable, BlockBits, ValidBlock;
    if bs != [] {
      BlockRules(n, bs[0]);
      ReadableValid(n, bs[0]);
      BlocksRules(n + |BlockBits(bs[0])|, bs[1..]);
    }
  }

  lemma {:induction false} ReadStreamRfc(n: nat, bits: Bits)
    requires ReadStream(bits).Ok? && (n + |bits|) % 8 == 0
    ensures BlocksInRfc(n, ReadStream(bits).v)
    decreases |bits|
  {
    hide BlockInRfc, BlockBits, ReadBlock;
    var p := ReadBlock(bits);
    BlockExact(bits);
    ReadBlockRfc(n, bits);
    if p.v.last {
      assert [p.v][1..] == [];
      assert BlocksInRfc(n + |BlockBits(p.v)|, []);
    } else {
      ReadStreamRfc(n + |BlockBits(p.v)|, p.rest);
      var tail := ReadStream(p.rest).v;
      assert ([p.v] + tail)[1..] == tail;
    }
  }

  /**
    The decoder's notion of a valid stream is that of the RFC, and a stream has one reading: `bs` with `rest`
    left over is what is read exactly when the bytes are the bits of these blocks, each of them as the RFC
    allows it and only the last one marked, and then `rest`.  (The decoder keeps no output, so it does not check
    that a distance stays within what has been written.)
   */
  lemma StreamRead(s: seq<byte>, bs: seq<Block>, rest: Bits)
    ensures ReadStream(ByteBits(s)) == Ok(bs, rest) <==>
            LastOnly(bs) && BlocksInRfc(0, bs) && ValidBlocks(bs) && ByteBits(s) == StreamBits(bs) + rest
  {
    hide *;
    var bits := ByteBits(s);
    assert |bits| == 8 * |s|;
    if ReadStream(bits) == Ok(bs, rest) {
      StreamExact(bits);
      ReadStreamRfc(0, bits);
    }
    if LastOnly(bs) && BlocksInRfc(0, bs) && ValidBlocks(bs) && bits == StreamBits(bs) + rest {
      BlocksRules(0, bs);
      BlocksReread(0, bs, rest);
    }
  }
}
