/**
  Which blocks and which streams come back: exact conditions.
 */
module Exactness {
  import opened Bits
  import opened Huffman
  import opened TableSpec
  import opened Format
  import opened FormatLemmas
  import opened FixedCode
  import opened LengthCodes
  import opened RunLength
  import opened Instructions
  import opened DecoderSpec
  import opened EncoderSpec
  import opened Transcode
  import opened RoundTrip

  // ----- which blocks come back -----

  /** The code-length code has a code for every symbol send_tree wants to send. */
  ghost predicate Covers(h: Header)
    requires AcceptsHeaderLens(h)
  {
    forall op :: op in Rle(LitLens(h)) + Rle(DistLens(h)) ==> Used(ClLens(h.cl), OpSym(op))
  }

  /** A stored block comes back exactly when its padding is zero. */
  lemma StoredExactly(n: nat, b: Block)
    requires Decodable(b) && b.StoredBlock?
    ensures ValidBlock(b)
    ensures Rewritten(n, b) == BlockBits(b) <==> Canonical(n, b)
  {
    DecodableValid(b);
    hide TypeBits, StoredLens, ByteBits, Decodable;
    var rest := StoredLens(|b.data|) + ByteBits(b.data);
    var p, q := TypeBits(b.last, 0) + b.pad, TypeBits(b.last, 0) + Zeros(Pad(n + 3));
    Assoc(p, StoredLens(|b.data|), ByteBits(b.data));
    Assoc(q, StoredLens(|b.data|), ByteBits(b.data));
    SameEnds(TypeBits(b.last, 0), b.pad, Zeros(Pad(n + 3)), rest);
  }

  lemma SameEnds(a: Bits, x: Bits, y: Bits, z: Bits)
    ensures a + x + z == a + y + z <==> x == y
  {
    if a + x + z == a + y + z {
      assert |x| == |y|;
      assert (a + x + z)[|a|..|a| + |x|] == x;
      assert (a + y + z)[|a|..|a| + |y|] == y;
    }
  }

  /** A fixed-code block comes back exactly when length 258 is always symbol 285. */
  lemma FixedExactly(n: nat, b: Block)
    requires Decodable(b) && b.FixedBlock?
    ensures ValidBlock(b)
    ensures Rewritten(n, b) == BlockBits(b) <==> Canonical(n, b)
  {
    hide *;
    BlockGuarantees(b);
    FixedForm(n, b);
    TokensExact(FixedLit(), FixedDist(), b.toks);
    var t := TypeBits(b.last, 1);
    var x, y := ToksBits(FixedLit(), FixedDist(), Retoks(SymsOf(b.toks))), ToksBits(FixedLit(), FixedDist(), b.toks);
    SameEnds(t, x, y, []);
    assert t + x + [] == t + x && t + y + [] == t + y;
  }

  lemma FixedForm(n: nat, b: Block)
    requires b.FixedBlock? && WellCoded(b)
    ensures ValidBlock(b)
    ensures Fits(FixedLit()) && Fits(FixedDist()) && Coded(FixedLit(), FixedDist(), b.toks)
    ensures Rewritten(n, b) == TypeBits(b.last, 1) + ToksBits(FixedLit(), FixedDist(), Retoks(SymsOf(b.toks)))
    ensures BlockBits(b) == TypeBits(b.last, 1) + ToksBits(FixedLit(), FixedDist(), b.toks)
    ensures Canonical(n, b) <==> NoLongSpelling(b.toks)
  {
    hide FixedLit, FixedDist, Fits, Coded, ToksBits, Retoks, SymsOf, NoLongSpelling, ValidTok;
  }

  /** Two readings of the same bits agree as far as both go. */
  lemma {:induction false} OpsPrefix(cl: Lens, p: seq<ClOp>, y: Bits, q: seq<ClOp>, x: Bits)
    requires Fits(cl) && OpsCoded(cl, p) && OpsCoded(cl, q) && ValidOps(p) && ValidOps(q)
    requires OpsBits(cl, p) + y == OpsBits(cl, q) + x
    ensures p <= q || q <= p
    decreases |p|
  {
    hide *;
    if p != [] && q != [] {
      OpsFrontThen(cl, p, y);
      OpsFrontThen(cl, q, x);
      var s := OpSym(p[0]);
      assert OpSym(q[0]) == s && q[0] == p[0];
      OpsPrefix(cl, p[1..], y, q[1..], x);
      PrefixCons(p, q);
    }
  }

  lemma PrefixCons(p: seq<ClOp>, q: seq<ClOp>)
    requires p != [] && q != [] && p[0] == q[0]
    ensures p[1..] <= q[1..] ==> p <= q
    ensures q[1..] <= p[1..] ==> q <= p
  {
    assert p == [p[0]] + p[1..] && q == [q[0]] + q[1..];
  }

  lemma OpsFrontThen(cl: Lens, p: seq<ClOp>, more: Bits)
    requires Fits(cl) && p != [] && OpsCoded(cl, p) && ValidOps(p)
    ensures OpsCoded(cl, p[1..]) && ValidOps(p[1..])
    ensures var bits, s := OpsBits(cl, p) + more, OpSym(p[0]);
            && DecodeSym(cl, bits) == Sym(s) && s < |cl|
            && |bits| >= cl[s] + ExtraOf(s)
            && OpOf(s, Val(bits[cl[s]..][..ExtraOf(s)])) == p[0]
            && bits[cl[s]..][ExtraOf(s)..] == OpsBits(cl, p[1..]) + more
  {
    hide Fits, OpsBits, ValidOp, DecodeSym, OpSym, OpOf, Val;
    assert p == [p[0]] + p[1..];
    OpsBitsCons(cl, p[0], p[1..]);
    Assoc(OpBits(cl, p[0]), OpsBits(cl, p[1..]), more);
    FrontOp(cl, p[0], OpsBits(cl, p[1..]) + more);
  }

  /** Every instruction takes at least one bit and stands for at least one length. */
  lemma {:induction false} OpsGrow(cl: Lens, a: seq<ClOp>, b: seq<ClOp>)
    requires ValidOps(a) && ValidOps(b) && OpsCoded(cl, b)
    ensures ValidOps(a + b) && |Expand(a + b)| >= |Expand(a)| + |b|
    ensures |OpsBits(cl, b)| >= |b|
    decreases |b|
  {
    hide OpBits, ValidOp, OpLens;
    if b == [] {
      assert a + b == a;
    } else {
      var init, x := b[..|b| - 1], b[|b| - 1];
      OpsGrow(cl, a, init);
      assert b == init + [x];
      OpGrows(cl, Expand(a + init), x);
      ExpandSnoc(a + init, x);
      OpsBitsSnoc(cl, init, x);
      Assoc(a, init, [x]);
    }
  }

  lemma OpGrows(cl: Lens, before: seq<nat>, op: ClOp)
    requires ValidOp(op) && Used(cl, OpSym(op))
    ensures |OpLens(before, op)| >= 1 && |OpBits(cl, op)| >= 1
  {
    SymLength(cl, OpSym(op));
  }

  /** What the resent header expands to. */
  lemma ResentExpands(h: Header)
    requires ValidHeader(h) && AcceptsHeaderLens(h)
    ensures ValidHeader(Resent(h))
    ensures Expand(Resent(h).ops) == LitLens(h)[..h.nlen - Lost(LitLens(h))] +
            DistLens(h)[..h.ndist - Lost(DistLens(h))]
  {
    ResentValid(h);
    ExpandTwo(LitLens(h), DistLens(h));
    hide Expand, Rle, Lost, ValidOp;
  }

  lemma ExpandTwo(a: seq<nat>, b: seq<nat>)
    ensures Expand(Rle(a) + Rle(b)) == a[..|a| - Lost(a)] + b[..|b| - Lost(b)]
  {
    hide *;
    SendTreeExpands(a);
    RleIs(b);
    RleExpands(Rle(a), b, false);
  }

  lemma RleIs(b: seq<nat>)
    ensures Rle(b) == RleFrom(b, false)
  {
    hide RleFrom;
  }

  /** The part of a dynamic block's bits that can differ: instructions and tokens. */
  function BodyOf(b: Block, ops: seq<ClOp>, toks: seq<Tok>): Bits
    requires b.DynamicBlock? && ValidBlock(b) && ValidOps(ops) && ValidToks(toks)
  {
    OpsBits(ClLens(b.hdr.cl), ops) + ToksBits(LitLens(b.hdr), DistLens(b.hdr), toks)
  }

  /** send_tree stops before the end of the header, and the tokens happen to make up for what is missing. */
  ghost predicate MadeUp(b: Block)
    requires b.DynamicBlock? && ValidBlock(b) && AcceptsHeaderLens(b.hdr)
  {
    var q, p := Resent(b.hdr).ops, b.hdr.ops;
    && q < p && ValidOps(p[|q|..])
    && ToksBits(LitLens(b.hdr), DistLens(b.hdr), Retoks(SymsOf(b.toks))) == BodyOf(b, p[|q|..], b.toks)
  }

  /** How two bodies with the same bits can differ: one list of instructions goes on. */
  lemma OpsSplit(cl: Lens, p: seq<ClOp>, y: Bits, q: seq<ClOp>, x: Bits)
    requires Fits(cl) && OpsCoded(cl, p) && OpsCoded(cl, q) && ValidOps(p) && ValidOps(q)
    requires |Expand(q)| <= |Expand(p)| && OpsBits(cl, q) + x == OpsBits(cl, p) + y
    ensures q <= p && ValidOps(p[|q|..]) && OpsCoded(cl, p[|q|..])
    ensures x == OpsBits(cl, p[|q|..]) + y
  {
    hide *;
    OpsPrefix(cl, p, y, q, x);
    if p <= q {
      NotLonger(cl, p, q);
    }
    PartsCoded(cl, p, |q|);
    assert p == q + p[|q|..];
    OpsBitsAppend(cl, q, p[|q|..]);
    Assoc(OpsBits(cl, q), OpsBits(cl, p[|q|..]), y);
    SameStart(OpsBits(cl, q), x, OpsBits(cl, p[|q|..]) + y);
  }

  lemma NotLonger(cl: Lens, p: seq<ClOp>, q: seq<ClOp>)
    requires OpsCoded(cl, q) && ValidOps(p) && ValidOps(q) && p <= q && |Expand(q)| <= |Expand(p)|
    ensures p == q
  {
    hide *;
    PartsCoded(cl, q, |p|);
    OpsGrow(cl, p, q[|p|..]);
    assert q == p + q[|p|..];
  }

  lemma GoesOn(cl: Lens, p: seq<ClOp>, q: seq<ClOp>)
    requires OpsCoded(cl, p) && ValidOps(p) && ValidOps(q) && q < p
    ensures ValidOps(p[|q|..]) && |OpsBits(cl, p[|q|..])| > 0 && |Expand(q)| < |Expand(p)|
  {
    hide *;
    PartsCoded(cl, p, |q|);
    OpsGrow(cl, q, p[|q|..]);
    assert p == q + p[|q|..];
  }

  lemma BodiesSplit(b: Block, q: seq<ClOp>, us: seq<Tok>)
    requires b.DynamicBlock? && WellCoded(b) && ValidBlock(b) && ValidToks(b.toks) && ValidToks(us)
    requires ValidOps(q) && OpsCoded(ClLens(b.hdr.cl), q) && |Expand(q)| <= |Expand(b.hdr.ops)|
    requires BodyOf(b, q, us) == BodyOf(b, b.hdr.ops, b.toks)
    ensures q <= b.hdr.ops && ValidOps(b.hdr.ops[|q|..])
    ensures ToksBits(LitLens(b.hdr), DistLens(b.hdr), us) == BodyOf(b, b.hdr.ops[|q|..], b.toks)
  {
    hide *;
    CodesOf(b);
    DynamicParts(b);
    BodyIs(b, q, us);
    BodyIs(b, b.hdr.ops, b.toks);
    OpsSplit(ClLens(b.hdr.cl), b.hdr.ops, ToksBits(LitLens(b.hdr), DistLens(b.hdr), b.toks), q,
        ToksBits(LitLens(b.hdr), DistLens(b.hdr), us));
    BodyIs(b, b.hdr.ops[|q|..], b.toks);
  }

  lemma BodyIs(b: Block, ops: seq<ClOp>, toks: seq<Tok>)
    requires b.DynamicBlock? && ValidBlock(b) && ValidOps(ops) && ValidToks(toks)
    ensures b.hdr.nlen <= |Expand(b.hdr.ops)|
    ensures BodyOf(b, ops, toks) == OpsBits(ClLens(b.hdr.cl), ops) + ToksBits(LitLens(b.hdr), DistLens(b.hdr), toks)
  {
    hide OpsBits, ToksBits, Expand, ClLens, ValidOp, ValidTok, LitLens, DistLens;
  }

  lemma PartsCoded(cl: Lens, p: seq<ClOp>, k: nat)
    requires ValidOps(p) && OpsCoded(cl, p) && k <= |p|
    ensures ValidOps(p[k..]) && OpsCoded(cl, p[k..])
  {
    hide ValidOp, Used, OpSym;
  }

  lemma SameStart(a: Bits, x: Bits, y: Bits)
    requires a + x == a + y
    ensures x == y
  {
    assert (a + x)[|a|..] == x;
    assert (a + y)[|a|..] == y;
  }

  /** A dynamic block whose header send_tree can code comes back exactly when it is canonical or made up for. */
  lemma DynamicCovered(n: nat, b: Block)
    requires Decodable(b) && b.DynamicBlock?
    ensures ValidBlock(b) && AcceptsHeaderLens(b.hdr)
    ensures Covers(b.hdr) ==> (Rewritten(n, b) == BlockBits(b) <==> Canonical(n, b) || MadeUp(b))
  {
    hide *;
    BlockGuarantees(b);
    CodesOf(b);
    DynamicForm(n, b);
    DynamicBodies(n, b);
    if Covers(b.hdr) {
      CoversCoded(b.hdr);
      ResentShorter(b.hdr);
      if Rewritten(n, b) == BlockBits(b) {
        BodiesSplit(b, Resent(b.hdr).ops, Retoks(SymsOf(b.toks)));
        SplitCases(n, b);
      }
      if MadeUp(b) {
        MadeUpBodies(b);
      }
      if Canonical(n, b) {
        CanonicalKept(n, b);
      }
    }
  }

  /** When one list of instructions goes on, the block is made up for; else it is canonical. */
  lemma SplitCases(n: nat, b: Block)
    requires b.DynamicBlock? && WellCoded(b) && ValidToks(b.toks)
    requires ValidHeader(Resent(b.hdr)) && Resent(b.hdr).ops <= b.hdr.ops && ValidOps(b.hdr.ops[|Resent(b.hdr).ops|..])
    requires ToksBits(LitLens(b.hdr), DistLens(b.hdr), Retoks(SymsOf(b.toks))) ==
             BodyOf(b, b.hdr.ops[|Resent(b.hdr).ops|..], b.toks)
    ensures ValidBlock(b) && (Canonical(n, b) || MadeUp(b))
  {
    hide Fits, Expand, ClLens, ToksBits, ValidOp, Used, Retoks, LitLens, DistLens, Coded, Rle, NoLongSpelling, ValidTok;
    if Resent(b.hdr).ops == b.hdr.ops {
      assert b.hdr.ops[|b.hdr.ops|..] == [];
      OpsBitsNil(ClLens(b.hdr.cl));
      TokensExact(LitLens(b.hdr), DistLens(b.hdr), b.toks);
      assert [] + ToksBits(LitLens(b.hdr), DistLens(b.hdr), b.toks) ==
          ToksBits(LitLens(b.hdr), DistLens(b.hdr), b.toks);
    }
  }

  lemma MadeUpBodies(b: Block)
    requires b.DynamicBlock? && ValidBlock(b) && AcceptsHeaderLens(b.hdr) && MadeUp(b) && ValidHeader(Resent(b.hdr))
    requires ValidToks(b.toks)
    ensures BodyOf(b, Resent(b.hdr).ops, Retoks(SymsOf(b.toks))) == BodyOf(b, b.hdr.ops, b.toks)
  {
    hide Expand, ClLens, OpsBits, ToksBits, ValidOp, Retoks, LitLens, DistLens, Rle;
    var q, p, cl := Resent(b.hdr).ops, b.hdr.ops, ClLens(b.hdr.cl);
    assert p == q + p[|q|..];
    OpsBitsAppend(cl, q, p[|q|..]);
    Assoc(OpsBits(cl, q), OpsBits(cl, p[|q|..]), ToksBits(LitLens(b.hdr), DistLens(b.hdr), b.toks));
  }

  /** Only the bodies of the two blocks can differ. */
  lemma DynamicBodies(n: nat, b: Block)
    requires ValidBlock(b) && b.DynamicBlock? && AcceptsHeaderLens(b.hdr) && ValidHeader(Resent(b.hdr))
    requires ValidToks(b.toks)
    ensures Rewritten(n, b) == BlockBits(b) <==>
            BodyOf(b, Resent(b.hdr).ops, Retoks(SymsOf(b.toks))) == BodyOf(b, b.hdr.ops, b.toks)
  {
    hide *;
    DynamicForm(n, b);
    DynamicParts(b);
    var h, us := b.hdr, Retoks(SymsOf(b.toks));
    var t := TypeBits(b.last, 2) + (SizesBits(h.nlen, h.ndist, |h.cl|) + ClBits(h.cl));
    var x, y := BodyOf(b, Resent(h).ops, us), BodyOf(b, h.ops, b.toks);
    HeaderForm(b, h, b.toks);
    HeaderForm(b, Resent(h), us);
    SameEnds(t, x, y, []);
    NoMore(t + x);
    NoMore(t + y);
  }

  lemma DynamicParts(b: Block)
    requires ValidBlock(b) && b.DynamicBlock?
    ensures ValidHeader(b.hdr) && ValidOps(b.hdr.ops) && 257 <= b.hdr.nlen && 1 <= b.hdr.ndist && 4 <= |b.hdr.cl|
    ensures AcceptsHeaderLens(b.hdr) && ValidHeader(Resent(b.hdr)) ==> ValidOps(Resent(b.hdr).ops)
    ensures AcceptsHeaderLens(b.hdr) ==> Resent(b.hdr) == b.hdr.(ops := Resent(b.hdr).ops)
  {
    hide Expand, Rle, ValidOp;
  }

  lemma NoMore(a: Bits)
    ensures a + [] == a
  {
  }

  lemma HeaderForm(b: Block, h: Header, toks: seq<Tok>)
    requires b.DynamicBlock? && ValidBlock(b) && ValidHeader(h) && h == b.hdr.(ops := h.ops) && ValidToks(toks)
    ensures h.nlen == b.hdr.nlen && h.ndist == b.hdr.ndist && h.cl == b.hdr.cl && 257 <= h.nlen && 1 <= h.ndist
    ensures 4 <= |h.cl|
    ensures TypeBits(b.last, 2) + HeaderBits(h) + ToksBits(LitLens(b.hdr), DistLens(b.hdr), toks) ==
            TypeBits(b.last, 2) + (SizesBits(h.nlen, h.ndist, |h.cl|) + ClBits(h.cl)) + BodyOf(b, h.ops, toks)
  {
    hide TypeBits, SizesBits, ClBits, OpsBits, ToksBits, Expand, ClLens;
    Assoc6(TypeBits(b.last, 2), SizesBits(h.nlen, h.ndist, |h.cl|), ClBits(h.cl), OpsBits(ClLens(h.cl), h.ops),
           ToksBits(LitLens(b.hdr), DistLens(b.hdr), toks));
  }

  lemma Assoc6(a: Bits, b: Bits, c: Bits, d: Bits, e: Bits)
    ensures a + (b + c + d) + e == a + (b + c) + (d + e)
  {
  }

  lemma CoversCoded(h: Header)
    requires ValidHeader(h) && AcceptsHeaderLens(h) && Covers(h)
    ensures ValidHeader(Resent(h)) && OpsCoded(ClLens(h.cl), Resent(h).ops)
  {
    ResentValid(h);
    hide Expand, ClLens, Rle, Used, ValidOp, OpSym;
  }

  lemma ResentShorter(h: Header)
    requires ValidHeader(h) && AcceptsHeaderLens(h)
    ensures |Expand(Resent(h).ops)| == h.nlen + h.ndist - Lost(LitLens(h)) - Lost(DistLens(h))
    ensures |Expand(Resent(h).ops)| <= |Expand(h.ops)|
  {
    ResentExpands(h);
    hide Expand, Lost, RleFrom;
  }

  /**
    A dynamic block comes back exactly when length 258 is always symbol 285 and its header holds the
    instructions of send_tree, provided the code-length code covers those instructions and the lost zeros
    cannot be made up for: there is no other spelling, or no symbol 285, or no zero is lost at the end of the
    distance lengths.  See CancelsCovered and CancelsUncovered for blocks outside of this that come back.
   */
  lemma DynamicExactly(n: nat, b: Block)
    requires Decodable(b) && b.DynamicBlock?
    ensures ValidBlock(b) && AcceptsHeaderLens(b.hdr)
    ensures SendTreeHeader(b.hdr) || (Covers(b.hdr) && CannotMakeUp(b)) ==>
              (Rewritten(n, b) == BlockBits(b) <==> Canonical(n, b))
  {
    hide *;
    BlockGuarantees(b);
    CodesOf(b);
    DynamicForm(n, b);
    if SendTreeHeader(b.hdr) {
      SameHeader(b.hdr);
      DynamicBodies(n, b);
      SendTreeBodies(n, b);
    } else if Covers(b.hdr) && CannotMakeUp(b) {
      DynamicCovered(n, b);
      NotMadeUp(b);
    }
  }

  ghost predicate CannotMakeUp(b: Block)
    requires b.DynamicBlock? && ValidBlock(b) && AcceptsHeaderLens(b.hdr)
  {
    NoLongSpelling(b.toks) || !Used(LitLens(b.hdr), 285) || Lost(DistLens(b.hdr)) == 0
  }

  lemma SendTreeBodies(n: nat, b: Block)
    requires b.DynamicBlock? && WellCoded(b) && ValidToks(b.toks) && Resent(b.hdr) == b.hdr
    ensures ValidBlock(b) && ValidHeader(b.hdr)
    ensures BodyOf(b, Resent(b.hdr).ops, Retoks(SymsOf(b.toks))) == BodyOf(b, b.hdr.ops, b.toks) <==> Canonical(n, b)
  {
    hide Fits, Expand, ClLens, OpsBits, ToksBits, ValidOp, Used, Retoks, LitLens, DistLens, Coded, Rle, NoLongSpelling,
        ValidTok;
    TokensExact(LitLens(b.hdr), DistLens(b.hdr), b.toks);
    var a, x := OpsBits(ClLens(b.hdr.cl), b.hdr.ops), ToksBits(LitLens(b.hdr), DistLens(b.hdr), Retoks(SymsOf(b.toks)));
    var y := ToksBits(LitLens(b.hdr), DistLens(b.hdr), b.toks);
    SameEnds(a, x, y, []);
    NoMore(a + x);
    NoMore(a + y);
    assert b.hdr.ops == Rle(LitLens(b.hdr)) + Rle(DistLens(b.hdr));
  }

  /** Nothing can be made up for when the rewritten tokens do not get longer, or no zero is lost. */
  lemma NotMadeUp(b: Block)
    requires Decodable(b) && b.DynamicBlock? && WellCoded(b) && ValidToks(b.toks) && ValidBlock(b)
    requires AcceptsHeaderLens(b.hdr)
    requires CannotMakeUp(b)
    ensures !MadeUp(b)
  {
    hide *;
    CodesOf(b);
    StrictSizes(b);
    ResentShorter(b.hdr);
    MakeUpCases(b);
    LitKept(b.hdr);
    if NoLongSpelling(b.toks) || !Used(LitLens(b.hdr), 285) {
      TokensNotLonger(b);
    }
    MadeUpLonger(b);
  }

  lemma MakeUpCases(b: Block)
    requires b.DynamicBlock? && ValidBlock(b) && AcceptsHeaderLens(b.hdr) && CannotMakeUp(b)
    ensures NoLongSpelling(b.toks) || !Used(LitLens(b.hdr), 285) || Lost(DistLens(b.hdr)) == 0
  {
    hide NoLongSpelling, Used, Lost, Expand;
  }

  lemma StrictSizes(b: Block)
    requires Decodable(b) && b.DynamicBlock?
    ensures b.hdr.nlen <= 286
  {
    hide ReadHeader, Decodable, Accepts;
    DecodableValid(b);
    var bits :| ReadHeader(true, bits).Ok? && ReadHeader(true, bits).v == b.hdr;
    HeaderExact(true, bits);
  }

  lemma MadeUpLonger(b: Block)
    requires b.DynamicBlock? && WellCoded(b) && ValidBlock(b) && ValidToks(b.toks) && AcceptsHeaderLens(b.hdr)
    ensures MadeUp(b) ==>
              && |ToksBits(LitLens(b.hdr), DistLens(b.hdr), Retoks(SymsOf(b.toks)))| > |ToksBits(LitLens(b.hdr),
                  DistLens(b.hdr), b.toks)|
              && |Expand(Resent(b.hdr).ops)| < |Expand(b.hdr.ops)|
  {
    hide *;
    CodesOf(b);
    ResentValid(b.hdr);
    DynamicParts(b);
    MadeUpIs(b);
    if Resent(b.hdr).ops < b.hdr.ops {
      GoesOn(ClLens(b.hdr.cl), b.hdr.ops, Resent(b.hdr).ops);
    }
  }

  lemma MadeUpIs(b: Block)
    requires b.DynamicBlock? && ValidBlock(b) && ValidToks(b.toks) && AcceptsHeaderLens(b.hdr)
    ensures var q, p := Resent(b.hdr).ops, b.hdr.ops;
            MadeUp(b) ==>
              && q < p && ValidOps(p[|q|..])
              && |ToksBits(LitLens(b.hdr), DistLens(b.hdr), Retoks(SymsOf(b.toks)))| ==
                 |OpsBits(ClLens(b.hdr.cl), p[|q|..])| + |ToksBits(LitLens(b.hdr), DistLens(b.hdr), b.toks)|
  {
    hide OpsBits, ToksBits, Expand, ClLens, ValidOp, ValidTok, LitLens, DistLens, Rle, Retoks, SymsOf;
  }

  lemma TokensNotLonger(b: Block)
    requires b.DynamicBlock? && WellCoded(b) && ValidToks(b.toks)
             && (NoLongSpelling(b.toks) || !Used(LitLens(b.hdr), 285))
    ensures |ToksBits(LitLens(b.hdr), DistLens(b.hdr), Retoks(SymsOf(b.toks)))| <= |ToksBits(LitLens(b.hdr),
            DistLens(b.hdr), b.toks)|
  {
    hide Fits, Expand, ClLens, ToksBits, Used, Retoks, LitLens, DistLens, Coded, NoLongSpelling, ValidTok;
    ToksKept(b.toks);
    if !Used(LitLens(b.hdr), 285) {
      CanonShorter(LitLens(b.hdr), DistLens(b.hdr), b.toks);
    }
  }

  /** If symbol 285 has a code, no zero is lost at the end of the literal/length lengths. */
  lemma LitKept(h: Header)
    requires AcceptsHeaderLens(h) && h.nlen <= 286 && h.nlen <= |Expand(h.ops)|
    ensures Used(LitLens(h), 285) ==> Lost(LitLens(h)) == 0
  {
    hide Expand;
  }

  lemma CodesOf(b: Block)
    requires !b.StoredBlock? && WellCoded(b) && b.DynamicBlock?
    ensures ValidBlock(b) && ValidHeader(b.hdr) && AcceptsHeaderLens(b.hdr) && b.hdr.nlen <= |Expand(b.hdr.ops)|
    ensures Fits(LitLens(b.hdr)) && Fits(DistLens(b.hdr)) && Coded(LitLens(b.hdr), DistLens(b.hdr), b.toks)
    ensures Fits(ClLens(b.hdr.cl)) && OpsCoded(ClLens(b.hdr.cl), b.hdr.ops) && Writable(b)
  {
  }

  lemma SameHeader(h: Header)
    requires AcceptsHeaderLens(h) && SendTreeHeader(h)
    ensures Resent(h) == h
  {
  }

  lemma DynamicForm(n: nat, b: Block)
    requires ValidBlock(b) && b.DynamicBlock? && AcceptsHeaderLens(b.hdr)
    ensures ValidHeader(Resent(b.hdr))
    ensures Rewritten(n, b) == TypeBits(b.last, 2) + HeaderBits(Resent(b.hdr)) +
            ToksBits(LitLens(b.hdr), DistLens(b.hdr), Retoks(SymsOf(b.toks)))
    ensures BlockBits(b) == TypeBits(b.last, 2) + HeaderBits(b.hdr) + ToksBits(LitLens(b.hdr), DistLens(b.hdr), b.toks)
    ensures Canonical(n, b) <==> NoLongSpelling(b.toks) && SendTreeHeader(b.hdr)
  {
    ResentValid(b.hdr);
  }
}
