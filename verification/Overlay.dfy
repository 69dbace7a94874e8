/**
  pending_buf and sym_buf share one array: when writing a block does not run over symbols that are still
  to be read, and how far the space reaches.
 */
module Overlay {
  import opened Bits
  import opened Huffman
  import opened TableSpec
  import opened Format
  import opened FormatLemmas
  import opened LengthCodes
  import opened RunLength
  import opened FixedCode
  import opened Instructions
  import opened EncoderSpec
  import opened Transcode
  import opened RoundTrip

  // ----- how long symbols are -----

  lemma SymSize(lens: Lens, s: nat)
    requires Bounded(lens)
    ensures |SymBits(lens, s)| <= 15
  {
    if Used(lens, s) {
      SymLength(lens, s);
    }
  }

  /** No token takes more than 48 bits. */
  lemma TokSize(lc: Lens, dc: Lens, t: Tok)
    requires ValidTok(t) && Bounded(lc) && Bounded(dc)
    ensures |TokBits(lc, dc, t)| <= 48
  {
    hide SymBits, ToBits, Pow2, Bounded;
    match t
    case Lit(b) => SymSize(lc, b);
    case Match(lsym, _, dsym, _) =>
      SymSize(lc, lsym);
      SymSize(dc, dsym);
  }

  lemma FixedSymSize(s: nat)
    ensures |SymBits(FixedLit(), s)| <= 9 && (256 <= s ==> |SymBits(FixedLit(), s)| <= 8)
            && |SymBits(FixedDist(), s)| <= 5
    ensures 280 <= s < 288 ==> |SymBits(FixedLit(), s)| == 8
    ensures s < 32 ==> |SymBits(FixedDist(), s)| == 5
  {
    if Used(FixedLit(), s) {
      SymLength(FixedLit(), s);
    }
    if Used(FixedDist(), s) {
      SymLength(FixedDist(), s);
    }
  }

  /** With the fixed codes no token takes more than 31 bits. */
  lemma FixedTokSize(t: Tok)
    requires ValidTok(t)
    ensures |TokBits(FixedLit(), FixedDist(), t)| <= 31
  {
    hide SymBits, ToBits, Pow2, FixedLit, FixedDist;
    match t
    case Lit(b) => FixedSymSize(b);
    case Match(lsym, _, dsym, _) =>
      FixedSymSize(lsym);
      FixedSymSize(dsym);
  }

  lemma {:induction false} BodySize(lc: Lens, dc: Lens, ts: seq<Tok>, k: nat)
    requires k <= |ts| && ValidToks(ts) && Bounded(lc) && Bounded(dc)
    ensures |BodyTo(lc, dc, ts, k)| <= 48 * k
  {
    hide TokBits, ValidTok;
    if k > 0 {
      BodySize(lc, dc, ts, k - 1);
      TokSize(lc, dc, ts[k - 1]);
    }
  }

  lemma {:induction false} FixedBodySize(ts: seq<Tok>, k: nat)
    requires k <= |ts| && ValidToks(ts)
    ensures |BodyTo(FixedLit(), FixedDist(), ts, k)| <= 31 * k
  {
    hide TokBits, ValidTok, FixedLit, FixedDist;
    if k > 0 {
      FixedBodySize(ts, k - 1);
      FixedTokSize(ts[k - 1]);
    }
  }

  lemma {:induction false} OpsSize(cl: Lens, ops: seq<ClOp>)
    requires ValidOps(ops) && forall i :: 0 <= i < |cl| ==> cl[i] <= 7
    ensures |OpsBits(cl, ops)| <= 14 * |ops|
  {
    hide ValidOp, OpBits;
    if ops != [] {
      OpsSize(cl, ops[..|ops| - 1]);
      OpSize(cl, ops[|ops| - 1]);
    }
  }

  lemma OpSize(cl: Lens, op: ClOp)
    requires ValidOp(op) && forall i :: 0 <= i < |cl| ==> cl[i] <= 7
    ensures |OpBits(cl, op)| <= 14
  {
    if Used(cl, OpSym(op)) {
      SymLength(cl, OpSym(op));
    }
  }

  /** Every instruction stands for at least one length. */
  lemma {:induction false} OpsCount(ops: seq<ClOp>)
    requires ValidOps(ops)
    ensures |ops| <= |Expand(ops)|
  {
    if ops != [] {
      var init, op := ops[..|ops| - 1], ops[|ops| - 1];
      OpsCount(init);
      assert Expand(ops) == Expand(init) + OpLens(Expand(init), op);
      assert ValidOp(op);
    }
  }

  lemma HeadSize(last: bool, head: Head)
    requires !head.Stored? && ValidHead(head)
    ensures |HeadBits(last, head)| <= 4554
    ensures head.Fixed? ==> |HeadBits(last, head)| == 3
  {
    if head.Dynamic? {
      var h := head.hdr;
      ResentValid(h);
      ResentCount(h);
      ClSmall(h.cl);
      OpsSize(ClLens(h.cl), Resent(h).ops);
      hide ClLens, Expand, Rle, ValidOp, OpsBits, ClBits, SizesBits, TypeBits;
      assert |TypeBits(last, 2)| == 3;
    }
  }

  lemma ResentCount(h: Header)
    requires ValidHeader(h) && AcceptsHeaderLens(h)
    ensures |Resent(h).ops| <= 320
  {
    var lc, dc := LitLens(h), DistLens(h);
    BoundedParts(Expand(h.ops), h.nlen);
    hide Expand, Rle, Lost;
    RleValid(lc, false);
    RleValid(dc, false);
    SendTreeExpands(lc);
    SendTreeExpands(dc);
    OpsCount(Rle(lc));
    OpsCount(Rle(dc));
  }

  lemma ClSmall(cl: seq<nat>)
    requires |cl| <= 19 && forall v :: v in cl ==> v < 8
    ensures forall i :: 0 <= i < |ClLens(cl)| ==> ClLens(cl)[i] <= 7
  {
    hide ClLenOf;
    forall i | 0 <= i < |ClLens(cl)|
      ensures ClLens(cl)[i] <= 7
    {
      ClOfSmall(cl, i, 0);
    }
  }

  lemma {:induction false} ClOfSmall(cl: seq<nat>, s: nat, k: nat)
    requires k <= |cl| && forall v :: v in cl ==> v < 8
    ensures ClLenOf(cl, s, k) <= 7
    decreases |cl| - k
  {
    hide ORDER;
    if k < |cl| {
      assert cl[k] in cl;
      ClOfSmall(cl, s, k + 1);
    }
  }

  // ----- how much space there is -----

  lemma PosBelow(total: nat)
    ensures 8 * WritePos(total) <= total && total <= 8 * WritePos(total) + 16
  {
  }

  /** A block that stays behind its symbols fits into pending_buf, whatever its codes. */
  lemma RoomFollows(n: nat, last: bool, head: Head, xs: seq<Sym3>)
    requires !head.Stored? && ValidHead(head) && ValidSyms(xs) && |xs| < SYM_MAX && SymsSafe(n, last, head, xs)
    ensures n % 8 + |CodedBits(last, head, xs)| + 7 <= 8 * PENDING_SIZE
  {
    hide Retoks, TokBits, ToksBits, BodyTo, HeadBits, SymBits, WritePos, CodedBits, LitOf, DistOf, ValidTok, ValidSym,
        ValidHead;
    var lc, dc, ts, k := LitOf(head), DistOf(head), Retoks(xs), |xs|;
    HeadCodes(head);
    CodedSize(last, head, xs);
    HeadSize(last, head);
    SymSize(lc, 256);
    if k > 0 {
      var start := n % 8 + |HeadBits(last, head)|;
      assert WritePos(start + |BodyTo(lc, dc, ts, k - 1)|) <= LIT_BUFSIZE + 3 * (k - 1);
      PosBelow(start + |BodyTo(lc, dc, ts, k - 1)|);
      BodyNext(lc, dc, ts, k - 1);
      TokSize(lc, dc, ts[k - 1]);
    } else {
      BodyNone(lc, dc, ts);
    }
  }

  lemma HeadCodes(head: Head)
    requires !head.Stored? && ValidHead(head)
    ensures Bounded(LitOf(head)) && Bounded(DistOf(head))
  {
    if head.Dynamic? {
      BoundedParts(Expand(head.hdr.ops), head.hdr.nlen);
    }
  }

  lemma BodyNone(lc: Lens, dc: Lens, ts: seq<Tok>)
    requires ValidToks(ts)
    ensures BodyTo(lc, dc, ts, 0) == []
  {
  }

  lemma BodyNext(lc: Lens, dc: Lens, ts: seq<Tok>, k: nat)
    requires k < |ts| && ValidToks(ts)
    ensures BodyTo(lc, dc, ts, k + 1) == BodyTo(lc, dc, ts, k) + TokBits(lc, dc, ts[k])
  {
    hide TokBits, ValidTok;
  }

  lemma CodedSize(last: bool, head: Head, xs: seq<Sym3>)
    requires !head.Stored? && ValidHead(head) && ValidSyms(xs)
    ensures |CodedBits(last, head, xs)| ==
            |HeadBits(last, head)| + |BodyTo(LitOf(head), DistOf(head), Retoks(xs), |xs|)| + |SymBits(LitOf(head), 256)|
  {
    WholeBody(LitOf(head), DistOf(head), Retoks(xs), |xs|);
    if head.Dynamic? {
      ResentValid(head.hdr);
    }
    hide TypeBits, HeaderBits, ToksBits, BodyTo, Retoks, Expand, ValidOp, Rle, FixedLit, FixedDist, SymBits;
  }

  lemma {:induction false} WholeBody(lc: Lens, dc: Lens, ts: seq<Tok>, k: nat)
    requires k <= |ts| && ValidToks(ts)
    ensures ToksBits(lc, dc, ts) == BodyTo(lc, dc, ts, k) + ToksBits(lc, dc, ts[k..])
    ensures ToksBits(lc, dc, []) == SymBits(lc, 256)
    ensures k == |ts| ==> ToksBits(lc, dc, ts) == BodyTo(lc, dc, ts, k) + SymBits(lc, 256)
  {
    hide TokBits, ValidTok;
    EndBits(lc, dc);
    if k == 0 {
      assert ts[0..] == ts;
    } else {
      WholeBody(lc, dc, ts, k - 1);
      ToksBitsCons(lc, dc, ts[k - 1], ts[k..]);
      hide ToksBits;
      assert ts[k - 1..] == [ts[k - 1]] + ts[k..];
      Assoc(BodyTo(lc, dc, ts, k - 1), TokBits(lc, dc, ts[k - 1]), ToksBits(lc, dc, ts[k..]));
    }
    assert k == |ts| ==> ts[k..] == [];
  }

  // ----- how many symbols are safe -----

  /** A fixed-code block of at most 18725 symbols is safe; lit_bufsize - 1, which zlib admits, is 16383. */
  lemma FixedFits(n: nat, last: bool, xs: seq<Sym3>)
    requires ValidSyms(xs) && |xs| <= 18725
    ensures SymsSafe(n, last, Fixed, xs)
  {
    hide BodyTo, Retoks, ValidSym;
    forall i | 0 <= i < |xs|
      ensures WritePos(n % 8 + |HeadBits(last, Fixed)| + |BodyTo(FixedLit(), FixedDist(), Retoks(xs),
              i)|) <= LIT_BUFSIZE + 3 * i
    {
      HeadSize(last, Fixed);
      FixedBodySize(Retoks(xs), i);
      hide HeadBits;
    }
  }

  /** Any block of at most 5272 symbols is safe. */
  lemma AnyFits(n: nat, last: bool, head: Head, xs: seq<Sym3>)
    requires !head.Stored? && ValidHead(head) && ValidSyms(xs) && |xs| <= 5272
    ensures SymsSafe(n, last, head, xs)
  {
    hide BodyTo, Retoks, ValidSym, LitOf, DistOf, ValidHead;
    forall i | 0 <= i < |xs|
      ensures WritePos(n % 8 + |HeadBits(last, head)| + |BodyTo(LitOf(head), DistOf(head), Retoks(xs),
              i)|) <= LIT_BUFSIZE + 3 * i
    {
      HeadSize(last, head);
      HeadCodes(head);
      BodySize(LitOf(head), DistOf(head), Retoks(xs), i);
      hide HeadBits;
    }
  }

  /** The longest match the fixed codes have: length 203, distance 32768, 31 bits. */
  const LONGEST := Sym3(32768, 200)

  function Longest(k: nat): (xs: seq<Sym3>)
    ensures ValidSyms(xs) && |xs| == k
  {
    LongestValid();
    seq(k, _ => LONGEST)
  }

  lemma LongestValid()
    ensures ValidSym(LONGEST)
  {
  }

  lemma LongestSize()
    ensures |TokBits(FixedLit(), FixedDist(), Retok(LONGEST))| == 31
  {
    LongestTok();
    FixedSymSize(283);
    FixedSymSize(29);
    hide SymBits, FixedLit, FixedDist, Retok;
  }

  lemma LongestTok()
    ensures Retok(LONGEST) == Match(283, 8, 29, 8191)
    ensures LenExtra(283) == 5 && DistExtra(29) == 13
  {
    LongestValid();
    LengthCodeRange(200, 26);
    DistCodeRange(32767, 29);
    SameBases(26, 29);
    hide LengthCode, DistCode;
    LongestBases();
    hide Pow2, LBase, DBase, BaseLength, BaseDist;
  }

  lemma LongestBases()
    ensures BaseLength(26) == 192 && BaseDist(29) == 24576 && LenShift(26) == 5 && DistShift(29) == 13
  {
    Pow2Small();
    hide Pow2;
  }

  lemma {:induction false} LongestBody(k: nat, i: nat)
    requires i <= k
    ensures |BodyTo(FixedLit(), FixedDist(), Retoks(Longest(k)), i)| == 31 * i
  {
    hide TokBits, FixedLit, FixedDist, Retok;
    if i > 0 {
      LongestBody(k, i - 1);
      RetokNth(Longest(k), i - 1);
      LongestSize();
    }
  }

  lemma {:induction false} RetokNth(xs: seq<Sym3>, i: nat)
    requires ValidSyms(xs) && i < |xs|
    ensures Retoks(xs)[i] == Retok(xs[i])
  {
    hide Retok, ValidSym;
    if i > 0 {
      RetokNth(xs[1..], i - 1);
    }
  }

  /**
    The bound is nearly tight, and sym_end is far above it: a block of the longest matches is safe up to
    18727 of them (18725 when three or more bits are carried), while sym_buf takes 65531.
   */
  lemma LongestSafe(n: nat, last: bool, k: nat)
    ensures SymsSafe(n, last, Fixed, Longest(k)) <==> k <= if n % 8 < 3 then 18727 else 18725
  {
    hide BodyTo, Retoks, Longest;
    var lc, dc, ts, c := FixedLit(), FixedDist(), Retoks(Longest(k)), n % 8;
    HeadSize(last, Fixed);
    forall i | 0 <= i < k
      ensures |BodyTo(lc, dc, ts, i)| == 31 * i
    {
      LongestBody(k, i);
    }
    hide HeadBits;
    if k > 18727 {
      assert WritePos(c + 3 + |BodyTo(lc, dc, ts, 18727)|) > LIT_BUFSIZE + 3 * 18727;
    } else if k > 18725 && c >= 3 {
      assert WritePos(c + 3 + |BodyTo(lc, dc, ts, 18725)|) > LIT_BUFSIZE + 3 * 18725;
    }
  }

  // ----- the exact condition -----

  /** How many bits a symbol takes. */
  function LenAt(lens: Lens, s: nat): nat {
    if s < |lens| && lens[s] <= 15 then lens[s] else 0
  }

  /** How many bits a token takes: its codes and their extra bits. */
  function TokCost(lc: Lens, dc: Lens, t: Tok): nat
    requires ValidTok(t)
  {
    match t
    case Lit(b) => LenAt(lc, b)
    case Match(lsym, _, dsym, _) => LenAt(lc, lsym) + LenExtra(lsym) + LenAt(dc, dsym) + DistExtra(dsym)
  }

  /** How many bits the first `k` tokens take. */
  function CostTo(lc: Lens, dc: Lens, ts: seq<Tok>, k: nat): nat
    requires k <= |ts| && ValidToks(ts)
  {
    if k == 0 then 0 else CostTo(lc, dc, ts, k - 1) + TokCost(lc, dc, ts[k - 1])
  }

  lemma CostOf(lc: Lens, dc: Lens, t: Tok)
    requires ValidTok(t)
    ensures |TokBits(lc, dc, t)| == TokCost(lc, dc, t)
  {
    hide CodeBits, Pow2;
  }

  lemma {:induction false} CostIs(lc: Lens, dc: Lens, ts: seq<Tok>, k: nat)
    requires k <= |ts| && ValidToks(ts)
    ensures |BodyTo(lc, dc, ts, k)| == CostTo(lc, dc, ts, k)
  {
    hide TokBits, TokCost, ValidTok;
    if k > 0 {
      CostIs(lc, dc, ts, k - 1);
      CostOf(lc, dc, ts[k - 1]);
    }
  }

  lemma PosExactly(total: nat, i: nat)
    ensures WritePos(total) <= LIT_BUFSIZE + 3 * i <==> total <= 16 * ((16384 + 3 * i) / 2) + 16
  {
    if total > 0 {
      PosSteps(total);
      hide WritePos;
      Sixteens(total, (16384 + 3 * i) / 2);
    }
  }

  lemma PosSteps(total: nat)
    requires total > 0
    ensures WritePos(total) == 2 * ((total - 1) / 16) && LIT_BUFSIZE == 16384
  {
  }

  lemma Sixteens(total: nat, h: nat)
    requires total > 0
    ensures (total - 1) / 16 <= h <==> total <= 16 * h + 16
  {
  }

  /** Before each symbol is read, at most this much has been written. */
  predicate NeverAhead(start: nat, lc: Lens, dc: Lens, ts: seq<Tok>)
    requires ValidToks(ts)
  {
    forall i :: 0 <= i < |ts| ==> start + CostTo(lc, dc, ts, i) <= 16 * ((16384 + 3 * i) / 2) + 16
  }

  lemma BehindIs(start: nat, lc: Lens, dc: Lens, xs: seq<Sym3>)
    requires ValidSyms(xs)
    ensures Behind(start, lc, dc, xs) <==> NeverAhead(start, lc, dc, Retoks(xs))
  {
    hide BodyTo, CostTo, Retoks, ValidSym, WritePos;
    forall i | 0 <= i < |xs|
      ensures WritePos(start + |BodyTo(lc, dc, Retoks(xs), i)|) <= LIT_BUFSIZE + 3 * i <==>
              start + CostTo(lc, dc, Retoks(xs), i) <= 16 * ((16384 + 3 * i) / 2) + 16
    {
      CostIs(lc, dc, Retoks(xs), i);
      PosExactly(start + |BodyTo(lc, dc, Retoks(xs), i)|, i);
    }
  }

  /** The tokens as they are written, with length 258 always as symbol 285. */
  function SentToks(b: Block): (ts: seq<Tok>)
    requires Writable(b) && !b.StoredBlock?
    ensures ValidToks(ts)
  {
    Retoks(SymsOf(b.toks))
  }

  /** The bits before the first token, and those the byte that is being filled holds already. */
  function Lead(n: nat, b: Block): nat
    requires Writable(b) && !b.StoredBlock?
  {
    if b.FixedBlock? then n % 8 + 3
    else
      ResentValid(b.hdr);
      n % 8 + 3 + |HeaderBits(Resent(b.hdr))|
  }

  /**
    Which blocks can be written, to the bit: those whose tokens, added up, never get ahead of the three bytes
    that each symbol read makes free, and stored blocks of up to 16379 or 16378 bytes.
   */
  lemma RoomExactly(n: nat, b: Block)
    requires Writable(b)
    ensures HasRoom(n, b) <==>
            match b
            case StoredBlock(_, _, data) => |data| <= if n % 8 <= 5 then 16379 else 16378
            case FixedBlock(_, _) => NeverAhead(Lead(n, b), FixedLit(), FixedDist(), SentToks(b))
            case DynamicBlock(_, h, _) => NeverAhead(Lead(n, b), LitLens(h), DistLens(h), SentToks(b))
  {
    hide *;
    RoomForm(n, b);
    if b.FixedBlock? {
      BehindIs(Lead(n, b), FixedLit(), FixedDist(), SymsOf(b.toks));
    } else if b.DynamicBlock? {
      BehindIs(Lead(n, b), LitLens(b.hdr), DistLens(b.hdr), SymsOf(b.toks));
    }
  }

  lemma RoomForm(n: nat, b: Block)
    requires Writable(b)
    ensures b.StoredBlock? ==> (HasRoom(n, b) <==> |b.data| <= if n % 8 <= 5 then 16379 else 16378)
    ensures !b.StoredBlock? ==> ValidToks(b.toks) && ValidSyms(SymsOf(b.toks)) && SentToks(b) == Retoks(SymsOf(b.toks))
    ensures b.FixedBlock? ==>
              (HasRoom(n, b) <==> Behind(Lead(n, b), FixedLit(), FixedDist(), SymsOf(b.toks)))
    ensures b.DynamicBlock? ==> b.hdr.nlen <= |Expand(b.hdr.ops)|
    ensures b.DynamicBlock? ==>
              (HasRoom(n, b) <==> Behind(Lead(n, b), LitLens(b.hdr), DistLens(b.hdr), SymsOf(b.toks)))
  {
    hide Behind, Retoks, SymsOf, ValidTok, Expand, Rle, HeaderBits, FixedLit, FixedDist, ValidHeader;
  }

  /** Each token takes at most 24 bits, as much as its symbol takes up. */
  predicate Light(lc: Lens, dc: Lens, ts: seq<Tok>)
    requires ValidToks(ts)
  {
    forall i :: 0 <= i < |ts| ==> TokCost(lc, dc, ts[i]) <= 24
  }

  lemma {:induction false} LightCost(lc: Lens, dc: Lens, ts: seq<Tok>, k: nat)
    requires k <= |ts| && ValidToks(ts) && Light(lc, dc, ts)
    ensures CostTo(lc, dc, ts, k) <= 24 * k
  {
    hide TokCost, ValidTok;
    if k > 0 {
      LightCost(lc, dc, ts, k - 1);
      assert TokCost(lc, dc, ts[k - 1]) <= 24;
    }
  }

  predicate LightBlock(b: Block)
    requires Writable(b)
  {
    match b
    case StoredBlock(_, _, _) => false
    case FixedBlock(_, _) => Light(FixedLit(), FixedDist(), SentToks(b))
    case DynamicBlock(_, h, _) => Light(LitLens(h), DistLens(h), SentToks(b))
  }

  /** Light tokens are safe in any number, after any header. */
  lemma LightFits(n: nat, b: Block)
    requires Writable(b) && LightBlock(b)
    ensures HasRoom(n, b)
  {
    hide *;
    LightParts(b);
    RoomExactly(n, b);
    LeadSize(n, b);
    if b.FixedBlock? {
      LightAhead(Lead(n, b), FixedLit(), FixedDist(), SentToks(b));
    } else {
      LightAhead(Lead(n, b), LitLens(b.hdr), DistLens(b.hdr), SentToks(b));
    }
  }

  lemma LightParts(b: Block)
    requires Writable(b) && LightBlock(b)
    ensures !b.StoredBlock?
    ensures b.FixedBlock? ==> Light(FixedLit(), FixedDist(), SentToks(b))
    ensures b.DynamicBlock? ==> b.hdr.nlen <= |Expand(b.hdr.ops)|
    ensures b.DynamicBlock? ==> Light(LitLens(b.hdr), DistLens(b.hdr), SentToks(b))
  {
    hide Light, Expand, SentToks, ValidHeader, ValidTok;
  }

  lemma LeadSize(n: nat, b: Block)
    requires Writable(b) && !b.StoredBlock?
    ensures Lead(n, b) <= 4561
    ensures b.DynamicBlock? ==> b.hdr.nlen <= |Expand(b.hdr.ops)|
  {
    if b.DynamicBlock? {
      HeadSize(b.last, Dynamic(b.hdr));
      hide HeaderBits, Expand, ValidHeader, ValidTok, Rle;
    }
  }

  lemma LightAhead(start: nat, lc: Lens, dc: Lens, ts: seq<Tok>)
    requires ValidToks(ts) && Light(lc, dc, ts) && start <= 4561
    ensures NeverAhead(start, lc, dc, ts)
  {
    hide Light, CostTo, ValidTok;
    forall i | 0 <= i < |ts|
      ensures start + CostTo(lc, dc, ts, i) <= 16 * ((16384 + 3 * i) / 2) + 16
    {
      LightCost(lc, dc, ts, i);
    }
  }

  /** Blocks that are safe by their number of symbols: up to 16378 stored bytes, 18725 or 5272 symbols. */
  predicate Ordinary(b: Block) {
    match b
    case StoredBlock(_, _, data) => |data| <= 16378
    case FixedBlock(_, toks) => |toks| <= 18725
    case DynamicBlock(_, _, toks) => |toks| <= 5272
  }

  /** Streams of ordinary blocks, and of light ones that do not fill sym_buf, are manageable. */
  lemma {:induction false} OrdinaryManageable(n: nat, bs: seq<Block>)
    requires WritableAll(bs) && forall b :: b in bs ==> Ordinary(b) || (LightBlock(b) && |b.toks| < 65532)
    ensures Manageable(n, bs)
    decreases |bs|
  {
    hide Ordinary, LightBlock, Writable, HasRoom, Rewritten, Tail;
    if bs != [] {
      if Ordinary(bs[0]) {
        OrdinaryRoom(n, bs[0]);
      } else {
        LightFits(n, bs[0]);
        SymMaxIs();
      }
      OrdinaryManageable(n + |RewrittenFull(n, bs[0])|, bs[1..]);
    }
  }

  lemma SymMaxIs()
    ensures SYM_MAX == 65532
  {
  }

  lemma OrdinaryRoom(n: nat, b: Block)
    requires Writable(b) && Ordinary(b)
    ensures |Tokens(b)| < SYM_MAX && HasRoom(n, b)
  {
    hide SymsSafe, AcceptsHeaderLens, ValidHeader, SymsOf, ValidTok;
    match b
    case StoredBlock(_, _, data) =>
    case FixedBlock(last, toks) => FixedFits(n, last, SymsOf(toks));
    case DynamicBlock(last, h, toks) => AnyFits(n, last, Dynamic(h), SymsOf(toks));
  }
}
