/**
  The rewritten stream can be read again: so equal bits mean equal blocks, and a stream comes back exactly
  when it is canonical.
 */
module Rereading {
  import opened Bits
  import opened Huffman
  import opened TableSpec
  import opened Format
  import opened FormatLemmas
  import opened FixedCode
  import opened LengthCodes
  import opened RunLength
  import opened Instructions
  import opened DecoderSpec
  import opened EncoderSpec
  import opened Transcode
  import opened RoundTrip
  import opened Exactness

  // ----- headers -----

  /** Enough for a header to be read back from its bits. */
  ghost predicate HeaderReadable(h: Header) {
    && ValidHeader(h) && AcceptsHeader(h) && h.nlen <= 286 && h.ndist <= 30
    && Bounded(ClLens(h.cl)) && Accepts(Codes, ClLens(h.cl)) && OpsCoded(ClLens(h.cl), h.ops)
    && (h.ops != [] ==> !h.ops[0].RepeatOp?)
  }

  lemma {:induction false} ClBitsCons(v: nat, cl: seq<nat>)
    ensures ClBits([v] + cl) == ToBits(v, 3) + ClBits(cl)
    decreases |cl|
  {
    hide ToBits;
    if cl == [] {
      ClBitsSnoc([], v);
      ClBitsNil();
      assert [v] + cl == [] + [v];
    } else {
      var init, x := cl[..|cl| - 1], cl[|cl| - 1];
      ClBitsCons(v, init);
      ClBitsSnoc([v] + init, x);
      ClBitsSnoc(init, x);
      hide ClBits;
      assert cl == init + [x];
      Assoc([v], init, [x]);
      Assoc(ToBits(v, 3), ClBits(init), ToBits(x, 3));
    }
  }

  lemma {:induction false} ClRereads(nlen: nat, ndist: nat, ncode: nat, done: seq<nat>, todo: seq<nat>, bits: Bits)
    requires |done| + |todo| == ncode && forall v :: v in todo ==> v < 8
    ensures ReadCl(nlen, ndist, ncode, done, ClBits(todo) + bits) == ReadCl(nlen, ndist, ncode, done + todo, bits)
    decreases |todo|
  {
    hide ReadCodes, ClBits, ToBits, Val;
    if todo == [] {
      ClBitsNil();
      assert done + todo == done && ClBits(todo) + bits == bits;
    } else {
      var v, more := todo[0], todo[1..];
      assert todo == [v] + more && v in todo;
      assert forall x :: x in more ==> x in todo;
      ClBitsCons(v, more);
      Three3(v, ClBits(more) + bits);
      Assoc(ToBits(v, 3), ClBits(more), bits);
      Assoc(done, [v], more);
      assert ReadCl(nlen, ndist, ncode, done, ClBits(todo) + bits) == ReadCl(nlen, ndist, ncode, done + [v],
          ClBits(more) + bits);
      hide ReadCl;
      ClRereads(nlen, ndist, ncode, done + [v], more, bits);
    }
  }

  lemma Three3(v: nat, tail: Bits)
    requires v < 8
    ensures |ToBits(v, 3) + tail| >= 3 && Val((ToBits(v, 3) + tail)[..3]) == v && (ToBits(v, 3) + tail)[3..] == tail
  {
    Pow2Small();
    ValToBits(v, 3);
    hide ToBits, Val;
    assert (ToBits(v, 3) + tail)[..3] == ToBits(v, 3);
  }

  lemma {:induction false} OpsReread(nlen: nat, ndist: nat, cl: seq<nat>, done: seq<ClOp>, todo: seq<ClOp>, more: Bits)
    requires ValidOps(done) && ValidOps(todo) && Fits(ClLens(cl)) && OpsCoded(ClLens(cl), todo)
    requires done == [] && todo != [] ==> !todo[0].RepeatOp?
    requires |Expand(done + todo)| == nlen + ndist && AcceptsHeader(Header(nlen, ndist, cl, done + todo))
    ensures ReadOps(nlen, ndist, cl, done, OpsBits(ClLens(cl), todo) + more) ==
            Ok(Header(nlen, ndist, cl, done + todo), more)
    decreases |todo|
  {
    hide OpsBits, OpBits, Expand, AcceptsHeader, ClLens, Fits, ValidOp, OpSym, Used;
    if todo == [] {
      OpsBitsNil(ClLens(cl));
      NoneLeft(done, todo);
      assert OpsBits(ClLens(cl), todo) + more == more;
    } else {
      var op, later := todo[0], todo[1..];
      assert todo == [op] + later;
      OpsBitsCons(ClLens(cl), op, later);
      Assoc(OpBits(ClLens(cl), op), OpsBits(ClLens(cl), later), more);
      Assoc(done, [op], later);
      hide ReadOps;
      NextOp(nlen, ndist, cl, done, op, later, OpsBits(ClLens(cl), later) + more);
      OpsReread(nlen, ndist, cl, done + [op], later, more);
    }
  }

  lemma NoneLeft(done: seq<ClOp>, todo: seq<ClOp>)
    requires todo == []
    ensures done + todo == done
  {
  }

  lemma NextOp(nlen: nat, ndist: nat, cl: seq<nat>, done: seq<ClOp>, op: ClOp, later: seq<ClOp>, rest: Bits)
    requires ValidOps(done) && ValidOp(op) && ValidOps(later) && Fits(ClLens(cl)) && OpsCoded(ClLens(cl), [op] + later)
    requires done == [] ==> !op.RepeatOp?
    requires |Expand(done + [op] + later)| == nlen + ndist
    ensures ValidOps(done + [op]) && OpsCoded(ClLens(cl), later)
    ensures ReadOps(nlen, ndist, cl, done, OpBits(ClLens(cl), op) + rest) == ReadOps(nlen, ndist, cl, done + [op], rest)
  {
    hide *;
    OpsOf(ClLens(cl), done, op, later);
    OpsGrow(ClLens(cl), done + [op], later);
    OpsGrow(ClLens(cl), done, [op]);
    StepOf(cl, done, op, rest);
    ReadOpsAgain(nlen, ndist, cl, done, OpBits(ClLens(cl), op) + rest, op, rest);
  }

  lemma OpsOf(cl: Lens, done: seq<ClOp>, op: ClOp, later: seq<ClOp>)
    requires ValidOps(done) && ValidOp(op) && ValidOps(later) && OpsCoded(cl, [op] + later)
    ensures ValidOps([op]) && ValidOps(done + [op]) && OpsCoded(cl, [op]) && OpsCoded(cl, later)
  {
    hide ValidOp, Used, OpSym;
    assert op in [op] + later;
    forall x | x in later
      ensures ValidOp(x) && Used(cl, OpSym(x))
    {
      assert x in [op] + later;
    }
  }

  lemma StepOf(cl: seq<nat>, done: seq<ClOp>, op: ClOp, rest: Bits)
    requires ValidOps(done) && ValidOp(op) && OpsCoded(ClLens(cl), [op]) && (done == [] ==> !op.RepeatOp?)
    ensures OpStep(cl, done, OpBits(ClLens(cl), op) + rest, op, rest)
  {
    assert op in [op];
    OpGrows(ClLens(cl), [], op);
    hide ClLens, OpBits, ValidOp, OpSym, Expand, Used;
    ExpandSome(ClLens(cl), done);
  }

  lemma {:induction false} ExpandSome(cl: Lens, ops: seq<ClOp>)
    requires ValidOps(ops)
    ensures ops != [] ==> Expand(ops) != []
  {
    if ops != [] {
      var init, x := ops[..|ops| - 1], ops[|ops| - 1];
      assert ValidOp(x);
      assert Expand(ops) == Expand(init) + OpLens(Expand(init), x);
    }
  }

  /** A header is read back from its bits, whatever follows. */
  lemma HeaderRereads(h: Header, more: Bits)
    requires HeaderReadable(h)
    ensures ReadHeader(true, HeaderBits(h) + more) == Ok(h, more)
  {
    hide *;
    HeaderParts(h);
    AcceptsFits(Codes, ClLens(h.cl));
    var a, b, c := SizesBits(h.nlen, h.ndist, |h.cl|), ClBits(h.cl), OpsBits(ClLens(h.cl), h.ops);
    Assoc(a + b, c, more);
    Assoc(a, b, c + more);
    SizesReread(h.nlen, h.ndist, |h.cl|, b + (c + more));
    ClRereads(h.nlen, h.ndist, |h.cl|, [], h.cl, c + more);
    assert [] + h.cl == h.cl && [] + h.ops == h.ops;
    CodesReread(h, c + more);
    OpsReread(h.nlen, h.ndist, h.cl, [], h.ops, more);
  }

  lemma HeaderParts(h: Header)
    requires HeaderReadable(h)
    ensures ValidHeader(h) && AcceptsHeader(h) && 257 <= h.nlen <= 286 && 1 <= h.ndist <= 30 && 4 <= |h.cl| <= 19
    ensures forall v :: v in h.cl ==> v < 8
    ensures ValidOps(h.ops) && ValidOps([]) && |Expand(h.ops)| == h.nlen + h.ndist
    ensures h == Header(h.nlen, h.ndist, h.cl, h.ops)
    ensures Bounded(ClLens(h.cl)) && Accepts(Codes, ClLens(h.cl)) && OpsCoded(ClLens(h.cl), h.ops)
    ensures h.ops != [] ==> !h.ops[0].RepeatOp?
    ensures HeaderBits(h) == SizesBits(h.nlen, h.ndist, |h.cl|) + ClBits(h.cl) + OpsBits(ClLens(h.cl), h.ops)
  {
    hide Expand, ClLens, Accepts, Bounded, OpsBits, ClBits, SizesBits, OpsCoded, ValidOp;
  }

  lemma SizesReread(nlen: nat, ndist: nat, ncode: nat, tail: Bits)
    requires 257 <= nlen <= 286 && 1 <= ndist <= 30 && 4 <= ncode <= 19
    ensures ReadHeader(true, SizesBits(nlen, ndist, ncode) + tail) == ReadCl(nlen, ndist, ncode, [], tail)
  {
    Pow2Small();
    ValToBits(nlen - 257, 5);
    ValToBits(ndist - 1, 5);
    ValToBits(ncode - 4, 4);
    hide ToBits, Val, ReadCl;
    var w := SizesBits(nlen, ndist, ncode) + tail;
    assert w[..5] == ToBits(nlen - 257, 5) && w[5..10] == ToBits(ndist - 1, 5) && w[10..14] == ToBits(ncode - 4, 4);
    assert w[14..] == tail;
  }

  lemma CodesReread(h: Header, bits: Bits)
    requires Bounded(ClLens(h.cl)) && Accepts(Codes, ClLens(h.cl))
    ensures ReadCl(h.nlen, h.ndist, |h.cl|, h.cl, bits) == ReadOps(h.nlen, h.ndist, h.cl, [], bits)
  {
    hide ClLens, Accepts, Bounded, ReadOps;
  }

  // ----- blocks -----

  /** The block the encoder writes for a block that starts `n` bits into the stream. */
  function Rewrite(n: nat, b: Block): Block
    requires Writable(b)
  {
    match b
    case StoredBlock(last, _, data) => StoredBlock(last, Zeros(Pad(n + 3)), data)
    case FixedBlock(last, toks) => FixedBlock(last, Retoks(SymsOf(toks)))
    case DynamicBlock(last, h, toks) => DynamicBlock(last, Resent(h), Retoks(SymsOf(toks)))
  }

  /** What is written for the block can be read again as a block. */
  ghost predicate Reparses(b: Block)
    requires Writable(b)
  {
    b.DynamicBlock? ==>
      && Covers(b.hdr) && Lost(LitLens(b.hdr)) == 0 && Lost(DistLens(b.hdr)) == 0
      && (NoLongSpelling(b.toks) || Used(LitLens(b.hdr), 285))
  }

  /** Enough for a block that starts `n` bits into a stream of whole bytes to be read back. */
  ghost predicate BlockReadable(n: nat, b: Block) {
    && ValidBlock(b)
    && match b
       case StoredBlock(_, pad, _) => |pad| == Pad(n + 3)
       case FixedBlock(_, toks) => Coded(FixedLit(), FixedDist(), toks)
       case DynamicBlock(_, h, toks) => HeaderReadable(h) && Coded(LitLens(h), DistLens(h), toks)
  }

  lemma RetokedCoded(lc: Lens, dc: Lens, ts: seq<Tok>)
    requires ValidToks(ts) && Coded(lc, dc, ts) && (NoLongSpelling(ts) || Used(lc, 285))
    ensures Coded(lc, dc, Retoks(SymsOf(ts)))
  {
    hide Coded, NoLongSpelling, Used, Retoks, SymsOf, ValidTok;
    ToksKept(ts);
    if Used(lc, 285) {
      CanonCoded(lc, dc, ts);
    }
  }

  lemma FixedUses285()
    ensures Used(FixedLit(), 285)
  {
  }

  /** The resent header declares the same codes when no zero is lost. */
  lemma ResentReadable(bits: Bits, h: Header)
    requires ReadHeader(true, bits).Ok? && h == ReadHeader(true, bits).v && AcceptsHeaderLens(h) && Covers(h)
    requires Lost(LitLens(h)) == 0 && Lost(DistLens(h)) == 0
    ensures HeaderReadable(Resent(h)) && AcceptsHeaderLens(Resent(h))
    ensures LitLens(Resent(h)) == LitLens(h) && DistLens(Resent(h)) == DistLens(h)
  {
    hide *;
    HeaderExact(true, bits);
    HeaderGuarantees(bits);
    ResentFields(h);
    ResentSame(h);
    CoversCoded(h);
    FirstOp(h);
    ReadableNow(h);
  }

  lemma ResentFields(h: Header)
    requires ValidHeader(h) && AcceptsHeaderLens(h)
    ensures Resent(h) == h.(ops := Resent(h).ops)
    ensures AcceptsHeader(h) ==> h.nlen <= |Expand(h.ops)|
  {
    hide Expand, Rle;
  }

  lemma ReadableNow(h: Header)
    requires AcceptsHeader(h) && AcceptsHeaderLens(h) && h.nlen <= 286 && h.ndist <= 30 && ValidHeader(Resent(h))
    requires Bounded(ClLens(h.cl)) && Accepts(Codes, ClLens(h.cl)) && OpsCoded(ClLens(h.cl), Resent(h).ops)
    requires Resent(h).ops != [] ==> !Resent(h).ops[0].RepeatOp?
    requires Expand(Resent(h).ops) == Expand(h.ops) && Resent(h) == h.(ops := Resent(h).ops)
    ensures HeaderReadable(Resent(h)) && AcceptsHeaderLens(Resent(h))
    ensures LitLens(Resent(h)) == LitLens(h) && DistLens(Resent(h)) == DistLens(h)
  {
    hide Expand, Rle, ClLens, Accepts, Bounded, OpsCoded, ValidHeader;
  }

  lemma ResentSame(h: Header)
    requires ValidHeader(h) && AcceptsHeaderLens(h) && h.nlen <= |Expand(h.ops)| && Lost(LitLens(h)) == 0
    requires Lost(DistLens(h)) == 0
    ensures ValidHeader(Resent(h)) && Expand(Resent(h).ops) == Expand(h.ops)
  {
    hide *;
    ResentExpands(h);
    Halves(h, Lost(LitLens(h)), Lost(DistLens(h)));
  }

  lemma Halves(h: Header, a: nat, b: nat)
    requires AcceptsHeaderLens(h) && h.nlen <= |Expand(h.ops)| && a == b == 0
    ensures |LitLens(h)| == h.nlen && |DistLens(h)| == h.ndist
    ensures LitLens(h)[..h.nlen - a] + DistLens(h)[..h.ndist - b] == Expand(h.ops)
  {
    hide Expand;
    assert LitLens(h)[..h.nlen] == LitLens(h) && DistLens(h)[..h.ndist] == DistLens(h);
  }

  /** send_tree never starts with a repeat. */
  lemma FirstOp(h: Header)
    requires AcceptsHeader(h) && AcceptsHeaderLens(h)
    ensures Resent(h).ops != [] ==> !Resent(h).ops[0].RepeatOp?
  {
    hide Expand, Accepts, RleFrom;
    RleFirst(LitLens(h));
    RleFirst(DistLens(h));
  }

  lemma RleFirst(s: seq<nat>)
    ensures RleFrom(s, false) != [] ==> !RleFrom(s, false)[0].RepeatOp?
    decreases |s|
  {
    if s != [] {
      ZeroFirst(Run(s), Run(s) == |s|);
      RleUnfold(s, false);
      if RunOps(s, false) == [] {
        RleFirst(s[Run(s)..]);
      }
    }
  }

  lemma ZeroFirst(r: nat, atEnd: bool)
    ensures ZeroOps(r, atEnd) != [] ==> !ZeroOps(r, atEnd)[0].RepeatOp?
  {
  }

  /**
    What is written for a block that was read is a block that can be read, and it is the same block exactly
    when that is canonical.
   */
  lemma RewriteReads(n: nat, b: Block)
    requires Decodable(b) && Writable(b) && Reparses(b)
    ensures BlockReadable(n, Rewrite(n, b)) && BlockBits(Rewrite(n, b)) == Rewritten(n, b)
    ensures Rewrite(n, b) == b <==> Canonical(n, b)
    ensures Rewrite(n, b).last == b.last
  {
    hide *;
    RewriteShape(n, b);
    if !b.StoredBlock? {
      BlockGuarantees(b);
      ToksKept(b.toks);
      if b.FixedBlock? {
        FixedForm(n, b);
        FixedUses285();
        RetokedCoded(FixedLit(), FixedDist(), b.toks);
        FixedRewrite(n, b);
      } else {
        CodesOf(b);
        DecodableValid(b);
        var bits :| ReadHeader(true, bits).Ok? && ReadHeader(true, bits).v == b.hdr;
        ReparsesParts(b);
        ResentReadable(bits, b.hdr);
        RetokedCoded(LitLens(b.hdr), DistLens(b.hdr), b.toks);
        DynamicForm(n, b);
        DynamicRewrite(n, b);
      }
    }
  }

  lemma RewriteShape(n: nat, b: Block)
    requires Writable(b)
    ensures Rewrite(n, b).last == b.last
    ensures b.StoredBlock? ==> BlockReadable(n, Rewrite(n, b)) && BlockBits(Rewrite(n, b)) == Rewritten(n, b)
    ensures b.StoredBlock? ==> (Rewrite(n, b) == b <==> Canonical(n, b))
    ensures !b.StoredBlock? ==> ValidToks(b.toks)
  {
    hide TypeBits, StoredLens, ByteBits, Retoks, SymsOf, Rle, Expand, ValidTok, ValidHeader;
  }

  lemma ReparsesParts(b: Block)
    requires Writable(b) && Reparses(b) && b.DynamicBlock?
    ensures AcceptsHeaderLens(b.hdr)
    ensures Covers(b.hdr) && Lost(LitLens(b.hdr)) == 0 && Lost(DistLens(b.hdr)) == 0
    ensures NoLongSpelling(b.toks) || Used(LitLens(b.hdr), 285)
  {
    hide Covers, Lost, NoLongSpelling, Used, Expand, ValidHeader;
  }

  lemma FixedRewrite(n: nat, b: Block)
    requires Writable(b) && b.FixedBlock? && ValidToks(b.toks) && Coded(FixedLit(), FixedDist(), Retoks(SymsOf(b.toks)))
    requires Retoks(SymsOf(b.toks)) == b.toks <==> NoLongSpelling(b.toks)
    requires Rewritten(n, b) == TypeBits(b.last, 1) + ToksBits(FixedLit(), FixedDist(), Retoks(SymsOf(b.toks)))
    ensures BlockReadable(n, Rewrite(n, b)) && BlockBits(Rewrite(n, b)) == Rewritten(n, b)
    ensures Rewrite(n, b) == b <==> Canonical(n, b)
  {
    hide TypeBits, ToksBits, FixedLit, FixedDist, Coded, Retoks, SymsOf, ValidTok, Rewritten, NoLongSpelling;
  }

  lemma DynamicRewrite(n: nat, b: Block)
    requires Writable(b) && b.DynamicBlock? && ValidToks(b.toks) && AcceptsHeaderLens(b.hdr)
    requires HeaderReadable(Resent(b.hdr)) && AcceptsHeaderLens(Resent(b.hdr)) && ValidHeader(Resent(b.hdr))
    requires LitLens(Resent(b.hdr)) == LitLens(b.hdr) && DistLens(Resent(b.hdr)) == DistLens(b.hdr)
    requires Coded(LitLens(b.hdr), DistLens(b.hdr), Retoks(SymsOf(b.toks)))
    requires Retoks(SymsOf(b.toks)) == b.toks <==> NoLongSpelling(b.toks)
    requires Rewritten(n, b) == TypeBits(b.last, 2) + HeaderBits(Resent(b.hdr)) +
             ToksBits(LitLens(b.hdr), DistLens(b.hdr), Retoks(SymsOf(b.toks)))
    ensures BlockReadable(n, Rewrite(n, b)) && BlockBits(Rewrite(n, b)) == Rewritten(n, b)
    ensures Rewrite(n, b) == b <==> Canonical(n, b)
  {
    hide TypeBits, ToksBits, HeaderBits, Coded, Retoks, SymsOf, ValidTok, Rewritten, NoLongSpelling, HeaderReadable,
        Expand, Rle, LitLens, DistLens, ValidHeader;
    HeaderSame(b.hdr);
  }

  lemma HeaderSame(h: Header)
    requires AcceptsHeaderLens(h)
    ensures Resent(h) == h <==> SendTreeHeader(h)
    ensures Resent(h).nlen == h.nlen && Resent(h).ndist == h.ndist
  {
    hide Expand, Rle;
  }

  /** A block is read back from its bits. */
  lemma BlockRereads(n: nat, b: Block, more: Bits)
    requires BlockReadable(n, b) && (n + |BlockBits(b) + more|) % 8 == 0
    ensures ReadBlock(BlockBits(b) + more) == Ok(b, more)
  {
    hide TypeBits, StoredLens, ByteBits, HeaderBits, ToksBits, Coded, Expand, ValidTok, ValidHeader, HeaderReadable,
        FixedLit, FixedDist, ReadHeader, ReadToks, ReadStored, LitLens, DistLens;
    match b
    case StoredBlock(last, pad, data) => StoredRereads(n, last, pad, data, more);
    case FixedBlock(last, toks) => FixedRereads(last, toks, more);
    case DynamicBlock(last, h, toks) => DynamicRereads(last, h, toks, more);
  }

  lemma FixedRereads(last: bool, toks: seq<Tok>, more: Bits)
    requires ValidToks(toks) && Coded(FixedLit(), FixedDist(), toks)
    ensures ReadBlock(TypeBits(last, 1) + ToksBits(FixedLit(), FixedDist(), toks) + more) ==
            Ok(FixedBlock(last, toks), more)
  {
    hide TypeBits, ToksBits, Coded, ValidTok, FixedLit, FixedDist, ReadHeader, ReadToks, Fits, Complete, Bounded;
    FixedComplete();
    ToksRead(FixedLit(), FixedDist(), toks, more);
    Assoc(TypeBits(last, 1), ToksBits(FixedLit(), FixedDist(), toks), more);
    TypeReads(last, 1, ToksBits(FixedLit(), FixedDist(), toks) + more);
  }

  lemma DynamicRereads(last: bool, h: Header, toks: seq<Tok>, more: Bits)
    requires ValidToks(toks) && HeaderReadable(h) && h.nlen <= |Expand(h.ops)| && Coded(LitLens(h), DistLens(h), toks)
    ensures ValidHeader(h)
    ensures ReadBlock(TypeBits(last, 2) + HeaderBits(h) + ToksBits(LitLens(h), DistLens(h), toks) + more) ==
            Ok(DynamicBlock(last, h, toks), more)
  {
    hide *;
    HeaderParts(h);
    HeaderFits(h);
    var t, x := TypeBits(last, 2), ToksBits(LitLens(h), DistLens(h), toks);
    Assoc(t + HeaderBits(h), x, more);
    Assoc(t, HeaderBits(h), x + more);
    ToksRead(LitLens(h), DistLens(h), toks, more);
    HeaderRereads(h, x + more);
    TypeReads(last, 2, HeaderBits(h) + (x + more));
    DynamicRead(last, h, toks, x + more, more, TypeBits(last, 2) + (HeaderBits(h) + (x + more)));
  }

  lemma HeaderFits(h: Header)
    requires AcceptsHeader(h)
    ensures h.nlen <= |Expand(h.ops)| && Fits(LitLens(h)) && Fits(DistLens(h))
  {
    hide Expand, Accepts, Fits;
    BoundedParts(Expand(h.ops), h.nlen);
    AcceptsFits(LenCodes, LitLens(h));
    AcceptsFits(DistCodes, DistLens(h));
  }

  lemma DynamicRead(last: bool, h: Header, toks: seq<Tok>, x: Bits, more: Bits, bits: Bits)
    requires |bits| >= 3 && bits[0] == last && Val(bits[1..3]) == 2 && ReadHeader(true, bits[3..]) == Ok(h, x)
    requires h.nlen <= |Expand(h.ops)| && ReadToks(LitLens(h), DistLens(h), x) == Ok(toks, more)
    ensures ReadBlock(bits) == Ok(DynamicBlock(last, h, toks), more)
  {
    hide ReadHeader, ReadToks, Expand, Val, Accepts;
  }

  lemma StoredRereads(n: nat, last: bool, pad: Bits, data: seq<byte>, more: Bits)
    requires |pad| == Pad(n + 3) && |data| < 65536
    requires (n + |TypeBits(last, 0) + pad + StoredLens(|data|) + ByteBits(data) + more|) % 8 == 0
    ensures ReadBlock(TypeBits(last, 0) + pad + StoredLens(|data|) + ByteBits(data) + more) ==
            Ok(StoredBlock(last, pad, data), more)
  {
    hide *;
    var t, l, d := TypeBits(last, 0), StoredLens(|data|), ByteBits(data);
    AssocFive(t, pad, l, d, more);
    TypeReads(last, 0, pad + (l + (d + more)));
    StoredLensRead(|data|, d + more);
    PadSizes(n, |pad|, |data|, |more|);
    TypeSize(last, 0);
    DataBack(data, more);
    PadBack(last, pad, l + (d + more), data, d + more, more);
    StoredIs(TypeBits(last, 0) + (pad + (l + (d + more))), last, pad + (l + (d + more)));
  }

  lemma TypeSize(last: bool, t: nat)
    requires t < 4
    ensures |TypeBits(last, t)| == 3
  {
  }

  lemma AssocFive(a: Bits, b: Bits, c: Bits, d: Bits, e: Bits)
    ensures a + b + c + d + e == a + (b + (c + (d + e)))
    ensures |a + b + c + d + e| == |a| + |b| + |c| + |d| + |e|
  {
  }

  lemma PadSizes(n: nat, pad: nat, k: nat, more: nat)
    requires pad == Pad(n + 3) && (n + (3 + pad + 32 + 8 * k + more)) % 8 == 0
    ensures (pad + (32 + (8 * k + more))) % 8 == pad && pad < 8
  {
  }

  lemma DataBack(data: seq<byte>, more: Bits)
    ensures |ByteBits(data)| == 8 * |data| && (ByteBits(data) + more)[..8 * |data|] == ByteBits(data)
    ensures (ByteBits(data) + more)[8 * |data|..] == more
    ensures Pack(ByteBits(data)) == data
  {
    PackByteBits(data);
  }

  lemma PadBack(last: bool, pad: Bits, b: Bits, data: seq<byte>, c: Bits, more: Bits)
    requires |pad + b| % 8 == |pad| < 8 && |b| >= 32 && Val(b[..16]) == |data| && Val(b[16..32]) == 65535 - |data|
    requires b[32..] == c
    requires |c| >= 8 * |data| && c[8 * |data|..] == more && Pack(c[..8 * |data|]) == data
    ensures ReadStored(last, pad + b) == Ok(StoredBlock(last, pad, data), more)
  {
    hide Val, Pack;
    assert (pad + b)[|pad|..] == b && (pad + b)[..|pad|] == pad;
  }

  lemma StoredIs(bits: Bits, last: bool, b: Bits)
    requires |bits| >= 3 && bits[0] == last && Val(bits[1..3]) == 0 && bits[3..] == b
    ensures ReadBlock(bits) == ReadStored(last, b)
  {
    hide ReadStored, Val, ReadHeader;
  }

  // ----- streams -----

  function RewriteAll(n: nat, bs: seq<Block>): (r: seq<Block>)
    requires WritableAll(bs)
    ensures |r| == |bs|
    decreases |bs|
  {
    if bs == [] then [] else [Rewrite(n, bs[0])] + RewriteAll(n + |Rewritten(n, bs[0])|, bs[1..])
  }

  ghost predicate ReparsesAll(bs: seq<Block>)
    requires WritableAll(bs)
  {
    forall b :: b in bs ==> Reparses(b)
  }

  ghost predicate AllReadable(n: nat, cs: seq<Block>)
    decreases |cs|
  {
    cs == [] || (BlockReadable(n, cs[0]) && AllReadable(n + |BlockBits(cs[0])|, cs[1..]))
  }

  /** Blocks are read back from their bits. */
  lemma {:induction false} BlocksReread(n: nat, cs: seq<Block>, more: Bits)
    requires AllReadable(n, cs) && ValidBlocks(cs) && LastOnly(cs) && (n + |StreamBits(cs)| + |more|) % 8 == 0
    ensures ReadStream(StreamBits(cs) + more) == Ok(cs, more)
    decreases |cs|
  {
    hide BlockReadable, BlockBits, ValidBlock, ReadBlock;
    var c, rest := cs[0], cs[1..];
    assert cs == [c] + rest && c in cs;
    var bits := BlockBits(c);
    if rest == [] {
      StreamBitsNil();
      NoMore(bits);
      BlockRereads(n, c, more);
      assert [c] + rest == [c];
    } else {
      assert ValidBlocks(rest) && LastOnly(rest);
      BlocksReread(n + |bits|, rest, more);
      Assoc(bits, StreamBits(rest), more);
      BlockRereads(n, c, StreamBits(rest) + more);
      assert !c.last;
    }
  }

  /** The rewritten blocks, one after the other. */
  lemma {:induction false} RewriteFacts(n: nat, bs: seq<Block>)
    requires DecodableAll(bs) && WritableAll(bs) && LastOnly(bs) && ReparsesAll(bs)
    ensures var cs := RewriteAll(n, bs);
            && AllReadable(n, cs) && ValidBlocks(cs) && LastOnly(cs)
            && RewrittenStream(n, bs) == StreamBits(cs) + Zeros(Pad(n + |StreamBits(cs)|))
            && (cs == bs <==> CanonicalStream(n, bs))
    decreases |bs|
  {
    hide Decodable, Writable, Reparses, Rewritten, BlockBits, Rewrite, BlockReadable, Canonical, ValidBlock;
    var b, rest := bs[0], bs[1..];
    assert bs == [b] + rest && b in bs;
    RewriteReads(n, b);
    var c, n' := Rewrite(n, b), n + |Rewritten(n, b)|;
    ReadableValid(n, c);
    if rest == [] {
      RewriteLast(n, b);
    } else {
      assert !b.last && LastOnly(rest);
      RewriteFacts(n', rest);
      var ds := RewriteAll(n', rest);
      RewriteNext(n, b, c, ds);
      Assoc(BlockBits(c), StreamBits(ds), Zeros(Pad(n' + |StreamBits(ds)|)));
      if c == b {
        assert BlockBits(b) == Rewritten(n, b);
      }
    }
  }

  lemma ReadableValid(n: nat, c: Block)
    requires BlockReadable(n, c)
    ensures ValidBlock(c)
  {
    hide HeaderReadable, Coded, Expand, ValidHeader, ValidTok;
  }

  lemma RewriteLast(n: nat, b: Block)
    requires Writable(b) && b.last && BlockReadable(n, Rewrite(n, b)) && ValidBlock(Rewrite(n, b))
    requires BlockBits(Rewrite(n, b)) == Rewritten(n, b)
    requires Rewrite(n, b).last
    ensures WritableAll([b])
    ensures var cs := RewriteAll(n, [b]);
            && cs == [Rewrite(n, b)] && AllReadable(n, cs) && ValidBlocks(cs) && LastOnly(cs)
            && RewrittenStream(n, [b]) == StreamBits(cs) + Zeros(Pad(n + |StreamBits(cs)|))
  {
    hide *;
    OneBlock(n, b);
    OneReadable(n, Rewrite(n, b));
    OneWritten(n, b);
  }

  lemma OneBlock(n: nat, b: Block)
    requires Writable(b)
    ensures WritableAll([b]) && RewriteAll(n, [b]) == [Rewrite(n, b)]
  {
    hide Writable, Rewritten, Rewrite;
    assert [b][1..] == [];
    assert RewriteAll(n + |Rewritten(n, b)|, []) == [];
  }

  lemma OneReadable(n: nat, c: Block)
    requires BlockReadable(n, c) && ValidBlock(c) && c.last
    ensures AllReadable(n, [c]) && ValidBlocks([c]) && LastOnly([c]) && StreamBits([c]) == BlockBits(c)
  {
    hide BlockReadable, ValidBlock, BlockBits;
    assert [c][1..] == [];
    StreamBitsNil();
    NoMore(BlockBits(c));
    assert AllReadable(n + |BlockBits(c)|, []);
  }

  lemma OneWritten(n: nat, b: Block)
    requires Writable(b) && b.last && WritableAll([b])
    ensures RewrittenStream(n, [b]) == Rewritten(n, b) + Zeros(Pad(n + |Rewritten(n, b)|))
  {
    hide Writable, Rewritten;
    assert [b][1..] == [];
    NoMore(RewrittenFull(n, b));
    assert RewrittenStream(n + |RewrittenFull(n, b)|, []) == [];
  }

  lemma RewriteNext(n: nat, b: Block, c: Block, ds: seq<Block>)
    requires Writable(b) && !b.last && !c.last && BlockReadable(n, c) && ValidBlock(c)
    requires BlockBits(c) == Rewritten(n, b)
    requires AllReadable(n + |BlockBits(c)|, ds) && ValidBlocks(ds) && LastOnly(ds)
    ensures AllReadable(n, [c] + ds) && ValidBlocks([c] + ds) && LastOnly([c] + ds)
    ensures StreamBits([c] + ds) == BlockBits(c) + StreamBits(ds)
    ensures RewrittenFull(n, b) == Rewritten(n, b)
  {
    hide Writable, Rewritten, BlockBits, BlockReadable, ValidBlock, Rewrite;
    StreamBitsCons(c, ds);
    assert ([c] + ds)[1..] == ds;
    NoMore(Rewritten(n, b));
  }

  /**
    Which streams come back.  For manageable streams whose rewritten blocks can be read again, the encoder
    gives back the original exactly when every block is canonical and the bits after the last block are zero.
   */
  lemma StreamExactly(s: seq<byte>, bs: seq<Block>, rest: Bits)
    requires ReadStream(ByteBits(s)) == Ok(bs, rest)
    requires WritableAll(bs) && Manageable(0, bs) && ReparsesAll(bs)
    ensures Encode(Decode(s).out).out + Aligned(rest) == ByteBits(s) <==> ComesBack(bs, rest)
  {
    hide *;
    EncodeDecode(s, bs, rest);
    StreamExact(ByteBits(s));
    StreamDecodable(ByteBits(s));
    RewriteFacts(0, bs);
    var cs, whole := RewriteAll(0, bs), RewrittenStream(0, bs);
    var pad := Zeros(Pad(|StreamBits(cs)|));
    if whole + Aligned(rest) == ByteBits(s) {
      AlignedSize(rest);
      Assoc(StreamBits(cs), pad, Aligned(rest));
      PadFills(|StreamBits(cs)|, |Aligned(rest)|);
      BlocksReread(0, cs, pad + Aligned(rest));
      assert cs == bs && pad + Aligned(rest) == rest;
      PadIsFront(|StreamBits(cs)|, rest);
      MakeComesBack(bs, rest);
    }
  }

  lemma AlignedSize(rest: Bits)
    ensures |Aligned(rest)| % 8 == 0 && Aligned(rest) == rest[|rest| % 8..]
  {
  }

  lemma PadFills(a: nat, b: nat)
    requires b % 8 == 0
    ensures (0 + a + (Pad(a) + b)) % 8 == 0 && |Zeros(Pad(a))| == Pad(a) < 8
  {
  }

  lemma PadIsFront(a: nat, rest: Bits)
    requires Zeros(Pad(a)) + Aligned(rest) == rest && Aligned(rest) == rest[|rest| % 8..]
    ensures ZeroFront(rest)
  {
    assert |Zeros(Pad(a))| == |rest| % 8;
    assert rest[..|rest| % 8] == Zeros(Pad(a));
  }

  lemma MakeComesBack(bs: seq<Block>, rest: Bits)
    requires WritableAll(bs) && CanonicalStream(0, bs) && ZeroFront(rest)
    ensures ComesBack(bs, rest)
  {
    hide CanonicalStream, Writable;
  }
}
