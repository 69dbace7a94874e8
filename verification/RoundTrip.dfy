/**
  Which blocks and streams come back bit for bit from decoding and encoding again.
 */
module RoundTrip {
  import opened Bits
  import opened Huffman
  import opened TableSpec
  import opened Format
  import opened FormatLemmas
  import opened FixedCode
  import opened LengthCodes
  import opened RunLength
  import opened Instructions
  import opened DecoderSpec
  import opened EncoderSpec
  import opened Transcode

  // ----- different tokens have different bits -----

  /** Two token lists with the same bits are the same. */
  lemma ToksInjective(lc: Lens, dc: Lens, ts: seq<Tok>, us: seq<Tok>)
    requires Fits(lc) && Fits(dc) && ValidToks(ts) && ValidToks(us) && Coded(lc, dc, ts) && Coded(lc, dc, us)
    requires ToksBits(lc, dc, ts) == ToksBits(lc, dc, us)
    ensures ts == us
  {
    hide ToksBits, ReadToks, Coded, ValidToks, Fits;
    ToksRead(lc, dc, ts, []);
    ToksRead(lc, dc, us, []);
  }

  /** Writing a match as symbol 285 instead of 284 keeps it coded when symbol 285 has a code. */
  lemma {:induction false} CanonCoded(lc: Lens, dc: Lens, ts: seq<Tok>)
    requires ValidToks(ts) && Coded(lc, dc, ts) && Used(lc, 285)
    ensures Coded(lc, dc, Retoks(SymsOf(ts)))
  {
    if ts != [] {
      hide ValidTok, Used;
      CanonCoded(lc, dc, ts[1..]);
      CanonTokCoded(lc, dc, ts[0]);
      assert SymsOf(ts)[1..] == SymsOf(ts[1..]);
    }
  }

  lemma CanonTokCoded(lc: Lens, dc: Lens, t: Tok)
    requires ValidTok(t) && TokCoded(lc, dc, t) && Used(lc, 285)
    ensures TokCoded(lc, dc, Retok(SymOf(t)))
  {
    hide Used;
    CanonKeeps(t);
    if LongSpelling(t) {
      CanonLong(t);
    }
  }

  /** The other spelling of length 258 comes back as symbol 285. */
  lemma CanonLong(t: Tok)
    requires ValidTok(t) && LongSpelling(t)
    ensures Canon(t) == Match(285, 0, t.dsym, t.dext)
  {
    TokRange(t);
    LengthKept(t);
    DistKept(t);
    SameBases(28, t.dsym);
  }

  /** Without a code for symbol 285 the rewritten block is shorter. */
  lemma {:induction false} CanonShorter(lc: Lens, dc: Lens, ts: seq<Tok>)
    requires ValidToks(ts) && Coded(lc, dc, ts) && !Used(lc, 285)
    ensures |ToksBits(lc, dc, Retoks(SymsOf(ts)))| <= |ToksBits(lc, dc, ts)|
    ensures !NoLongSpelling(ts) ==> |ToksBits(lc, dc, Retoks(SymsOf(ts)))| < |ToksBits(lc, dc, ts)|
  {
    if ts != [] {
      hide ValidTok, Used, LongSpelling, SymOf, Retok, TokBits;
      CanonShorter(lc, dc, ts[1..]);
      CanonTokShorter(lc, dc, ts[0]);
      assert SymsOf(ts)[1..] == SymsOf(ts[1..]);
      assert Retoks(SymsOf(ts))[1..] == Retoks(SymsOf(ts[1..]));
      assert ts == [ts[0]] + ts[1..];
    }
  }

  lemma CanonTokShorter(lc: Lens, dc: Lens, t: Tok)
    requires ValidTok(t) && TokCoded(lc, dc, t) && !Used(lc, 285)
    ensures |TokBits(lc, dc, Retok(SymOf(t)))| <= |TokBits(lc, dc, t)|
    ensures LongSpelling(t) ==> |TokBits(lc, dc, Retok(SymOf(t)))| < |TokBits(lc, dc, t)|
  {
    CanonKeeps(t);
    if LongSpelling(t) {
      CanonLong(t);
      SameBases(28, 0);
      SymLength(lc, 284);
    }
  }

  /** For any code in use, the tokens come back exactly when none is the other spelling of length 258. */
  lemma TokensExact(lc: Lens, dc: Lens, ts: seq<Tok>)
    requires Fits(lc) && Fits(dc) && ValidToks(ts) && Coded(lc, dc, ts)
    ensures ToksBits(lc, dc, Retoks(SymsOf(ts))) == ToksBits(lc, dc, ts) <==> NoLongSpelling(ts)
  {
    hide ToksBits, Coded, ValidToks, Fits, NoLongSpelling, Used;
    ToksKept(ts);
    if Used(lc, 285) {
      CanonCoded(lc, dc, ts);
      if ToksBits(lc, dc, Retoks(SymsOf(ts))) == ToksBits(lc, dc, ts) {
        ToksInjective(lc, dc, Retoks(SymsOf(ts)), ts);
      }
    } else {
      CanonShorter(lc, dc, ts);
    }
  }

  // ----- different code-length instructions have different bits -----

  ghost predicate OpsCoded(cl: Lens, ops: seq<ClOp>) {
    forall op :: op in ops ==> ValidOp(op) && Used(cl, OpSym(op))
  }

  lemma {:induction false} OpsBitsCons(cl: Lens, op: ClOp, ops: seq<ClOp>)
    requires ValidOp(op) && ValidOps(ops)
    ensures ValidOps([op] + ops)
    ensures OpsBits(cl, [op] + ops) == OpBits(cl, op) + OpsBits(cl, ops)
    decreases |ops|
  {
    hide *;
    ValidFront(op, ops);
    if ops != [] {
      ValidBack(ops);
    }
    if ops == [] {
      OpsBitsSnoc(cl, [], op);
      assert [op] + ops == [] + [op];
      OpsBitsNil(cl);
      assert [] + OpBits(cl, op) == OpBits(cl, op) + [];
    } else {
      var init, x := ops[..|ops| - 1], ops[|ops| - 1];
      assert ops == init + [x];
      OpsBitsCons(cl, op, init);
      OpsBitsSnoc(cl, [op] + init, x);
      OpsBitsSnoc(cl, init, x);
      Assoc([op], init, [x]);
      Assoc(OpBits(cl, op), OpsBits(cl, init), OpBits(cl, x));
    }
  }

  lemma ValidBack(ops: seq<ClOp>)
    requires ValidOps(ops) && ops != []
    ensures ValidOps(ops[..|ops| - 1]) && ValidOp(ops[|ops| - 1])
  {
    hide ValidOp;
  }

  lemma ValidFront(op: ClOp, ops: seq<ClOp>)
    requires ValidOp(op) && ValidOps(ops)
    ensures ValidOps([]) && ValidOps([op] + ops)
  {
    hide ValidOp;
  }

  /** The bits of instructions one after the other. */
  lemma {:induction false} OpsBitsAppend(cl: Lens, a: seq<ClOp>, b: seq<ClOp>)
    requires ValidOps(a) && ValidOps(b)
    ensures ValidOps(a + b)
    ensures OpsBits(cl, a + b) == OpsBits(cl, a) + OpsBits(cl, b)
    decreases |b|
  {
    hide *;
    BothValid(a, b);
    if b == [] {
      OpsBitsNil(cl);
      assert a + b == a;
      assert OpsBits(cl, a) + [] == OpsBits(cl, a);
    } else {
      var init, x := b[..|b| - 1], b[|b| - 1];
      assert b == init + [x];
      ValidBack(b);
      OpsBitsAppend(cl, a, init);
      OpsBitsSnoc(cl, a + init, x);
      OpsBitsSnoc(cl, init, x);
      Assoc(a, init, [x]);
      Assoc(OpsBits(cl, a), OpsBits(cl, init), OpBits(cl, x));
    }
  }

  lemma FrontOp(cl: Lens, op: ClOp, more: Bits)
    requires Fits(cl) && ValidOp(op) && Used(cl, OpSym(op))
    ensures var bits := OpBits(cl, op) + more;
            && DecodeSym(cl, bits) == Sym(OpSym(op))
            && |bits| >= cl[OpSym(op)] + ExtraOf(OpSym(op))
            && OpOf(OpSym(op), Val(bits[cl[OpSym(op)]..][..ExtraOf(OpSym(op))])) == op
            && bits[cl[OpSym(op)]..][ExtraOf(OpSym(op))..] == more
  {
    hide DecodeSym, SymBits, OpExtra, ExtraOf, OpOf, Val, Fits;
    Assoc(SymBits(cl, OpSym(op)), OpExtra(op), more);
    SymReads(cl, OpSym(op), OpExtra(op) + more);
    SymLength(cl, OpSym(op));
    ExtraReads(op, more);
  }

  lemma {:induction false} OpsInjective(cl: Lens, p: seq<ClOp>, q: seq<ClOp>)
    requires Fits(cl) && OpsCoded(cl, p) && OpsCoded(cl, q) && ValidOps(p) && ValidOps(q)
    requires OpsBits(cl, p) == OpsBits(cl, q)
    ensures p == q
    decreases |p|
  {
    hide Fits, ValidOp, DecodeSym, OpSym, OpOf, Val;
    if p != [] {
      OpsFront(cl, p);
    }
    if q != [] {
      OpsFront(cl, q);
    }
    if p != [] && q != [] {
      hide OpsBits;
      OpsInjective(cl, p[1..], q[1..]);
    } else {
      OpsBitsNil(cl);
    }
  }

  lemma OpsFront(cl: Lens, p: seq<ClOp>)
    requires Fits(cl) && p != [] && OpsCoded(cl, p) && ValidOps(p)
    ensures p == [p[0]] + p[1..] && OpsCoded(cl, p[1..]) && ValidOps(p[1..])
    ensures var bits, s := OpsBits(cl, p), OpSym(p[0]);
            && |bits| > 0 && DecodeSym(cl, bits) == Sym(s) && s < |cl|
            && |bits| >= cl[s] + ExtraOf(s)
            && OpOf(s, Val(bits[cl[s]..][..ExtraOf(s)])) == p[0]
            && bits[cl[s]..][ExtraOf(s)..] == OpsBits(cl, p[1..])
  {
    hide Fits, OpsBits, ValidOp, DecodeSym, OpSym, OpOf, Val;
    assert p == [p[0]] + p[1..];
    OpsBitsCons(cl, p[0], p[1..]);
    FrontOp(cl, p[0], OpsBits(cl, p[1..]));
  }

  // ----- what reading a block guarantees -----

  lemma AcceptsFits(kind: Kind, lens: Lens)
    requires Bounded(lens) && Accepts(kind, lens)
    ensures Fits(lens)
  {
    hide Fits, Complete, SpaceNeeded;
    if MaxLen(lens, MAXBITS) == 0 {
      EmptyFits(lens);
    }
  }

  lemma {:induction false} OpsRead(nlen: nat, ndist: nat, cl: seq<nat>, ops: seq<ClOp>, bits: Bits)
    requires ValidOps(ops) && OpsCoded(ClLens(cl), ops) && ReadOps(nlen, ndist, cl, ops, bits).Ok?
    ensures OpsCoded(ClLens(cl), ReadOps(nlen, ndist, cl, ops, bits).v.ops)
    decreases |bits|
  {
    hide Expand, ClLens, ValidOp, OpSym, OpBits;
    if |Expand(ops)| < nlen + ndist {
      var op, rest := ReadOpsStep(nlen, ndist, cl, ops, bits);
      OpsRead(nlen, ndist, cl, ops + [op], rest);
    }
  }

  lemma {:induction false} ClRead(nlen: nat, ndist: nat, ncode: nat, cl: seq<nat>, bits: Bits)
    requires ReadCl(nlen, ndist, ncode, cl, bits).Ok?
    ensures var h := ReadCl(nlen, ndist, ncode, cl, bits).v;
            OpsCoded(ClLens(h.cl), h.ops) && Bounded(ClLens(h.cl)) && Accepts(Codes, ClLens(h.cl))
    decreases |bits|
  {
    hide ReadOps, ClLens, Bounded, Accepts, OpsCoded, Val;
    if |cl| < ncode {
      ClRead(nlen, ndist, ncode, cl + [Val(bits[..3])], bits[3..]);
    } else {
      OpsCodedNil(ClLens(cl));
      OpsRead(nlen, ndist, cl, [], bits);
      OpsKeepCl(nlen, ndist, cl, [], bits);
    }
  }

  lemma OpsCodedNil(cl: Lens)
    ensures OpsCoded(cl, [])
  {
  }

  lemma {:induction false} OpsKeepCl(nlen: nat, ndist: nat, cl: seq<nat>, ops: seq<ClOp>, bits: Bits)
    requires ValidOps(ops) && ReadOps(nlen, ndist, cl, ops, bits).Ok?
    ensures ReadOps(nlen, ndist, cl, ops, bits).v.cl == cl
    decreases |bits|
  {
    hide Expand, ClLens, ValidOp, OpSym, OpBits;
    if |Expand(ops)| < nlen + ndist {
      var op, rest := ReadOpsStep(nlen, ndist, cl, ops, bits);
      OpsKeepCl(nlen, ndist, cl, ops + [op], rest);
    }
  }

  /** The codes of a header that was read have room, and its instructions use symbols with codes. */
  lemma HeaderGuarantees(bits: Bits)
    requires ReadHeader(true, bits).Ok?
    ensures var h := ReadHeader(true, bits).v;
            && ValidHeader(h) && AcceptsHeader(h)
            && Fits(ClLens(h.cl)) && OpsCoded(ClLens(h.cl), h.ops)
            && Fits(LitLens(h)) && Fits(DistLens(h))
  {
    hide ReadCl, ClLens, Bounded, Accepts, OpsCoded, Val, Fits, Expand, ValidHeader, HeaderBits;
    HeaderExact(true, bits);
    var h := ReadHeader(true, bits).v;
    var nlen, ndist, ncode := Val(bits[..5]) + 257, Val(bits[5..10]) + 1, Val(bits[10..14]) + 4;
    ClRead(nlen, ndist, ncode, [], bits[14..]);
    AcceptsFits(Codes, ClLens(h.cl));
    BoundedParts(Expand(h.ops), h.nlen);
    AcceptsFits(LenCodes, LitLens(h));
    AcceptsFits(DistCodes, DistLens(h));
  }

  lemma BoundedParts(lens: Lens, k: nat)
    requires Bounded(lens) && k <= |lens|
    ensures Bounded(lens[..k]) && Bounded(lens[k..])
  {
  }

  /** The codes of a block. */
  function LitCode(b: Block): Lens
    requires ValidBlock(b) && !b.StoredBlock?
  {
    if b.FixedBlock? then FixedLit() else LitLens(b.hdr)
  }

  function DistCodeOf(b: Block): Lens
    requires ValidBlock(b) && !b.StoredBlock?
  {
    if b.FixedBlock? then FixedDist() else DistLens(b.hdr)
  }

  /** The codes of a block that was read have room, and its symbols have codes. */
  ghost predicate WellCoded(b: Block)
    requires !b.StoredBlock?
  {
    && ValidBlock(b)
    && Fits(LitCode(b)) && Fits(DistCodeOf(b)) && Coded(LitCode(b), DistCodeOf(b), b.toks)
    && (b.DynamicBlock? ==>
          && AcceptsHeader(b.hdr) && AcceptsHeaderLens(b.hdr)
          && Fits(ClLens(b.hdr.cl)) && OpsCoded(ClLens(b.hdr.cl), b.hdr.ops))
  }

  /** Where a block that was read came from. */
  lemma BlockSource(bits: Bits)
    requires ReadBlock(bits).Ok?
    ensures var b := ReadBlock(bits).v;
            && |bits| >= 3
            && (b.FixedBlock? ==>
                  var r := ReadToks(FixedLit(), FixedDist(), bits[3..]);
                  r.Ok? && b == FixedBlock(bits[0], r.v))
            && (b.DynamicBlock? ==>
                  var p := ReadHeader(true, bits[3..]);
                  p.Ok? && ReadDynamic(bits[0], p).Ok? && b == ReadDynamic(bits[0], p).v)
  {
    hide ReadHeader, ReadToks, ReadStored, ReadFixed, ReadDynamic, FixedLit, FixedDist, Expand;
    var last, b := bits[0], bits[3..];
    var t := Val(bits[1..3]);
    if t == 0 {
      StoredShape(last, b);
    } else if t == 1 {
      FixedShape(last, b);
    } else if t == 2 {
      DynamicShape(last, ReadHeader(true, b));
    }
  }

  lemma FixedShape(last: bool, bits: Bits)
    requires ReadFixed(last, bits).Ok?
    ensures var r := ReadToks(FixedLit(), FixedDist(), bits);
            r.Ok? && ReadFixed(last, bits).v == FixedBlock(last, r.v)
  {
    hide ReadToks, FixedLit, FixedDist;
  }

  lemma DynamicShape(last: bool, p: Parsed<Header>)
    requires (p.Ok? ==> AcceptsHeader(p.v)) && ReadDynamic(last, p).Ok?
    ensures p.Ok? && ReadDynamic(last, p).v.DynamicBlock?
  {
    hide ReadToks, Expand, Accepts;
  }

  lemma FixedGuarantees(last: bool, bits: Bits)
    requires ReadToks(FixedLit(), FixedDist(), bits).Ok? && ValidToks(ReadToks(FixedLit(), FixedDist(), bits).v)
    ensures WellCoded(FixedBlock(last, ReadToks(FixedLit(), FixedDist(), bits).v))
  {
    hide ReadToks, Fits, Coded, ValidTok, FixedLit, FixedDist, Bounded, Complete;
    FixedComplete();
    ToksCoded(FixedLit(), FixedDist(), bits);
  }

  lemma DynamicGuarantees(last: bool, bits: Bits, b: Block)
    requires ReadHeader(true, bits).Ok? && ReadDynamic(last, ReadHeader(true, bits)).Ok?
    requires b == ReadDynamic(last, ReadHeader(true, bits)).v && ValidBlock(b)
    ensures WellCoded(b)
  {
    hide ReadHeader, ReadToks, Fits, Coded, ValidTok, ValidHeader, ClLens, Expand, OpsCoded, Accepts, LitLens, DistLens;
    var p := ReadHeader(true, bits);
    HeaderGuarantees(bits);
    DynamicToksOf(last, p);
    ToksCoded(LitLens(p.v), DistLens(p.v), p.rest);
  }

  lemma BlockGuarantees(b: Block)
    requires Decodable(b) && !b.StoredBlock?
    ensures WellCoded(b) && ValidToks(b.toks)
  {
    DecodableValid(b);
    var bits :| ReadBlock(bits).Ok? && ReadBlock(bits).v == b;
    hide *;
    BlockSource(bits);
    BlockToksValid(b);
    if b.FixedBlock? {
      FixedGuarantees(b.last, bits[3..]);
    } else {
      DynamicGuarantees(bits[0], bits[3..], b);
    }
  }

  lemma DynamicToksOf(last: bool, p: Parsed<Header>)
    requires p.Ok? && AcceptsHeader(p.v) && ReadDynamic(last, p).Ok?
    ensures ReadToks(LitLens(p.v), DistLens(p.v), p.rest).Ok?
    ensures ReadDynamic(last, p).v == DynamicBlock(last, p.v, ReadToks(LitLens(p.v), DistLens(p.v), p.rest).v)
  {
    hide ReadToks, Expand, Accepts;
  }

  lemma BlockToksValid(b: Block)
    requires ValidBlock(b) && !b.StoredBlock?
    ensures ValidToks(b.toks)
  {
  }

  // ----- streams -----

  predicate WritableAll(bs: seq<Block>) {
    forall b :: b in bs ==> Writable(b)
  }

  /** The bits the encoder writes for a block and, after the last one, the zero bits up to a byte boundary. */
  function RewrittenFull(n: nat, b: Block): Bits
    requires Writable(b)
  {
    Rewritten(n, b) + Tail(n + |Rewritten(n, b)|, b.last)
  }

  function RewrittenStream(n: nat, bs: seq<Block>): Bits
    requires WritableAll(bs)
    decreases |bs|
  {
    if bs == [] then []
    else RewrittenFull(n, bs[0]) + RewrittenStream(n + |RewrittenFull(n, bs[0])|, bs[1..])
  }

  /** No block has too many symbols for sym_buf or too many bits for pending_buf. */
  predicate Manageable(n: nat, bs: seq<Block>)
    requires WritableAll(bs)
    decreases |bs|
  {
    bs == [] ||
    (&& |Tokens(bs[0])| < SYM_MAX && HasRoom(n, bs[0])
     && Manageable(n + |RewrittenFull(n, bs[0])|, bs[1..]))
  }

  predicate CanonicalStream(n: nat, bs: seq<Block>)
    requires WritableAll(bs)
    decreases |bs|
  {
    bs == [] || (Canonical(n, bs[0]) && CanonicalStream(n + |BlockBits(bs[0])|, bs[1..]))
  }

  ghost predicate DecodableAll(bs: seq<Block>) {
    forall b :: b in bs ==> Decodable(b)
  }

  lemma DecodableWritable(bs: seq<Block>)
    requires DecodableAll(bs)
    ensures WritableAll(bs)
  {
    hide Decodable, ValidBlock, AcceptsHeaderLens;
    forall b | b in bs
      ensures Writable(b)
    {
      DecodableValid(b);
    }
  }

  /** A stream is read back block by block; what is written depends on the blocks alone. */
  lemma {:induction false} StreamRecoded(n: nat, bs: seq<Block>, more: seq<byte>)
    requires DecodableAll(bs) && WritableAll(bs) && LastOnly(bs) && Manageable(n, bs)
    ensures ValidBlocks(bs)
    ensures RecBlocks(n, false, ByteBits(InsStream(bs) + more)) == BitTrace(RewrittenStream(n, bs),
            Written(ByteBits(more)))
    decreases |bs|
  {
    hide Decodable, ValidBlock, AcceptsHeaderLens, RecBlocks, Rewritten, InsBlock, ByteBits, HasRoom, Tail;
    var b, rest := bs[0], bs[1..];
    StreamHead(bs);
    InsStreamCons(b, rest);
    assert bs == [b] + rest;
    Assoc(InsBlock(b), InsStream(rest), more);
    BlockReads(n, b, InsStream(rest) + more);
    var n' := n + |RewrittenFull(n, b)|;
    PutRoom(n, b, ByteBits(InsStream(rest) + more));
    if rest == [] {
      assert InsStream([]) + more == more;
      AfterLast(n', more);
    } else {
      StreamRecoded(n', rest, more);
    }
  }

  /** The rewritten stream ends on a byte boundary. */
  lemma {:induction false} RewrittenWhole(n: nat, bs: seq<Block>)
    requires WritableAll(bs) && LastOnly(bs)
    ensures (n + |RewrittenStream(n, bs)|) % 8 == 0
    decreases |bs|
  {
    hide Rewritten, Writable, Zeros;
    var b, rest := bs[0], bs[1..];
    var full := RewrittenFull(n, b);
    if rest == [] {
      assert RewrittenStream(n + |full|, rest) == [];
      FullWhole(n, b);
    } else {
      assert LastOnly(rest);
      RewrittenWhole(n + |full|, rest);
    }
  }

  lemma FullWhole(n: nat, b: Block)
    requires Writable(b)
    ensures b.last ==> (n + |RewrittenFull(n, b)|) % 8 == 0
  {
    hide Rewritten, Writable;
  }

  lemma StreamHead(bs: seq<Block>)
    requires DecodableAll(bs) && LastOnly(bs)
    ensures ValidBlock(bs[0]) && ValidBlocks(bs) && ValidBlocks(bs[1..]) && DecodableAll(bs[1..])
    ensures bs[0].last <==> bs[1..] == []
    ensures bs[1..] != [] ==> LastOnly(bs[1..])
  {
    hide Decodable, ValidBlock;
    forall b | b in bs
      ensures ValidBlock(b)
    {
      DecodableValid(b);
    }
  }

  lemma PutRoom(n: nat, b: Block, rest: Bits)
    requires Writable(b) && HasRoom(n, b)
    ensures RecPut(n, b.last, Rewritten(n, b), rest) ==
            PutBits(RewrittenFull(n, b), RecBlocks(n + |RewrittenFull(n, b)|, b.last, rest))
  {
    hide Rewritten, RecBlocks, Tail, ValidBlock, AcceptsHeaderLens;
  }

  lemma AfterLast(n: nat, more: seq<byte>)
    ensures RecBlocks(n, true, ByteBits(more)) == BitTrace([], Written(ByteBits(more)))
  {
    assert ByteBits(more)[0..] == ByteBits(more);
  }

  /** A canonical stream is written as it was, filled up to a byte boundary. */
  lemma {:induction false} CanonicalStreamKept(n: nat, bs: seq<Block>)
    requires WritableAll(bs) && ValidBlocks(bs) && LastOnly(bs) && CanonicalStream(n, bs)
    ensures RewrittenStream(n, bs) == StreamBits(bs) + Zeros(Pad(n + |StreamBits(bs)|))
    decreases |bs|
  {
    hide Rewritten, BlockBits, ValidBlock, AcceptsHeaderLens, Canonical;
    var b, rest := bs[0], bs[1..];
    CanonicalKept(n, b);
    if rest == [] {
      StreamBitsNil();
      assert RewrittenStream(n + |RewrittenFull(n, b)|, rest) == [];
    } else {
      assert ValidBlocks(rest) && LastOnly(rest);
      var n' := n + |BlockBits(b)|;
      assert RewrittenFull(n, b) == BlockBits(b);
      CanonicalStreamKept(n', rest);
      Assoc(BlockBits(b), StreamBits(rest), Zeros(Pad(n' + |StreamBits(rest)|)));
    }
  }

  // ----- the whole system -----

  /** The decoder and the encoder on whole inputs. */
  ghost function Decode(s: seq<byte>): Trace {
    EmitBlocks(false, ByteBits(s))
  }

  ghost function Encode(s: seq<byte>): BitTrace {
    RecBlocks(0, false, ByteBits(s))
  }

  lemma {:induction false} StreamDecodable(bits: Bits)
    requires ReadStream(bits).Ok?
    ensures DecodableAll(ReadStream(bits).v)
    decreases |bits|
  {
    hide ReadBlock;
    var r := ReadBlock(bits);
    assert Decodable(r.v);
    if !r.v.last {
      StreamDecodable(r.rest);
    }
  }

  /** The bits up to the next byte boundary are zero. */
  predicate ZeroFront(rest: Bits) {
    rest[..|rest| % 8] == Zeros(|rest| % 8)
  }

  /** What it takes for a stream to come back: zlib's own choices, and zero bits at the end of the last byte. */
  predicate ComesBack(bs: seq<Block>, rest: Bits)
    requires WritableAll(bs)
  {
    CanonicalStream(0, bs) && ZeroFront(rest)
  }

  /**
    Encoding undoes decoding.  On a valid stream the decoder writes the instruction stream; if the blocks
    are manageable, the encoder reads all of it and writes the blocks anew; and if the stream is canonical,
    that is the stream itself, up to the bytes after it that the decoder did not read.
   */
  lemma EncodeDecode(s: seq<byte>, bs: seq<Block>, rest: Bits)
    requires ReadStream(ByteBits(s)) == Ok(bs, rest)
    ensures ValidBlocks(bs) && WritableAll(bs)
    ensures Decode(s) == Trace(InsStream(bs), Finished(Aligned(rest)))
    ensures Manageable(0, bs) ==> Encode(Decode(s).out) == BitTrace(RewrittenStream(0, bs), Written([]))
    ensures Manageable(0, bs) && ComesBack(bs, rest) ==> Encode(Decode(s).out).out + Aligned(rest) == ByteBits(s)
  {
    hide *;
    EmitStreamRead(ByteBits(s));
    StreamExact(ByteBits(s));
    StreamDecodable(ByteBits(s));
    DecodableWritable(bs);
    DecodeIs(s, bs, rest);
    if Manageable(0, bs) {
      StreamRecoded(0, bs, []);
      assert InsStream(bs) + [] == InsStream(bs);
      EncodeIs(InsStream(bs));
      if ComesBack(bs, rest) {
        CanonicalParts(bs, rest);
        CanonicalStreamKept(0, bs);
        LastByte(StreamBits(bs), rest, s);
      }
    }
  }

  lemma DecodeIs(s: seq<byte>, bs: seq<Block>, rest: Bits)
    requires BlocksTold(Ok(bs, rest), EmitBlocks(false, ByteBits(s)))
    ensures ValidBlocks(bs) && Decode(s) == Trace(InsStream(bs), Finished(Aligned(rest)))
  {
    hide EmitBlocks, ByteBits, ValidBlock, InsStream;
  }

  lemma EncodeIs(ins: seq<byte>)
    ensures Encode(ins) == RecBlocks(0, false, ByteBits(ins))
    ensures ByteBits([]) == []
  {
    hide RecBlocks;
  }

  lemma CanonicalParts(bs: seq<Block>, rest: Bits)
    requires WritableAll(bs) && ComesBack(bs, rest)
    ensures CanonicalStream(0, bs) && ZeroFront(rest)
  {
    hide CanonicalStream, Writable;
  }

  lemma LastByte(a: Bits, rest: Bits, s: seq<byte>)
    requires ByteBits(s) == a + rest && ZeroFront(rest)
    ensures a + Zeros(Pad(|a|)) + Aligned(rest) == ByteBits(s)
  {
    var k := |rest| % 8;
    LastByteSize(|a|, |rest|, |s|);
    hide *;
    assert |ByteBits(s)| == 8 * |s|;
    assert rest == rest[..k] + rest[k..];
    Assoc(a, Zeros(k), rest[k..]);
  }

  lemma LastByteSize(a: nat, b: nat, k: nat)
    requires a + b == 8 * k
    ensures b % 8 == Pad(a)
  {
  }
}
