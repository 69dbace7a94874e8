/**
  Reading is exact: what was read is what the bits said, bit for bit, and the same bits followed by
  anything else read the same.
 */
module FormatLemmas {
  import opened Bits
  import opened Huffman
  import opened TableSpec
  import opened Format

  lemma Split(bits: Bits, n: nat)
    requires n <= |bits|
    ensures bits == bits[..n] + bits[n..]
    ensures ToBits(Val(bits[..n]), n) == bits[..n]
    ensures Val(bits[..n]) < Pow2(n)
  {
    ToBitsVal(bits[..n]);
    ValBound(bits[..n]);
  }

  /** A decoded symbol: its code, then the rest. */
  lemma SymSplit(lens: Lens, bits: Bits)
    requires DecodeSym(lens, bits).Sym?
    ensures var s := DecodeSym(lens, bits).sym;
            && Used(lens, s) && lens[s] <= |bits|
            && SymBits(lens, s) == CodeBits(lens, s) == bits[..lens[s]]
            && bits == SymBits(lens, s) + bits[lens[s]..]
  {
    DecodedCode(lens, bits);
    var s := DecodeSym(lens, bits).sym;
    assert bits[..lens[s]] == CodeBits(lens, s);
  }

  /** A symbol's bits read back as the symbol. */
  lemma SymReads(lens: Lens, s: nat, more: Bits)
    requires Fits(lens) && Used(lens, s)
    ensures DecodeSym(lens, SymBits(lens, s) + more) == Sym(s)
    ensures (SymBits(lens, s) + more)[lens[s]..] == more
  {
    assert CodeBits(lens, s) <= SymBits(lens, s) + more;
    DecodeCode(lens, s, SymBits(lens, s) + more);
  }

  // ----- tokens -----

  lemma ToksBitsCons(lc: Lens, dc: Lens, t: Tok, ts: seq<Tok>)
    requires ValidTok(t) && ValidToks(ts)
    ensures ValidToks([t] + ts)
    ensures ToksBits(lc, dc, [t] + ts) == TokBits(lc, dc, t) + ToksBits(lc, dc, ts)
  {
    assert ([t] + ts)[1..] == ts;
  }

  lemma Prepend(a: Bits, b: Bits, c: Bits, whole: Bits, rest: Bits)
    requires whole == a + rest && rest == b + c
    ensures whole == (a + b) + c
  {
  }

  /** Tokens account for exactly the bits read. */
  lemma {:induction false} ToksExact(lc: Lens, dc: Lens, bits: Bits)
    requires ReadToks(lc, dc, bits).Ok?
    ensures var r := ReadToks(lc, dc, bits);
            ValidToks(r.v) && bits == ToksBits(lc, dc, r.v) + r.rest
    decreases |bits|
  {
    hide CodeBits, ToksBits, SymBits, LenExtra, DistExtra, Pow2, Val, ToBits, DecodeSym;
    SymSplit(lc, bits);
    var s := DecodeSym(lc, bits).sym;
    var b := bits[lc[s]..];
    var r := ReadToks(lc, dc, bits);
    if s < 256 {
      ToksExact(lc, dc, b);
      ToksBitsCons(lc, dc, Lit(s), r.v[1..]);
      assert r.v == [Lit(s)] + r.v[1..];
      assert TokBits(lc, dc, Lit(s)) == SymBits(lc, s);
      Prepend(SymBits(lc, s), ToksBits(lc, dc, r.v[1..]), r.rest, bits, b);
    } else if s == 256 {
      EndBits(lc, dc);
    } else {
      MatchExact(lc, dc, s, b);
      assert r == ReadLenExt(lc, dc, s, b);
      Prepend(SymBits(lc, s), MatchTail(lc, dc, s, r.v), r.rest, bits, b);
      MatchTailBits(lc, dc, s, r.v);
    }
  }

  lemma EndBits(lc: Lens, dc: Lens)
    ensures ToksBits(lc, dc, []) == SymBits(lc, 256)
  {
  }

  /** The bits of a match after its length code, and of what follows it. */
  ghost function MatchTail(lc: Lens, dc: Lens, s: nat, ts: seq<Tok>): Bits
    requires ts != [] && ValidToks(ts) && ValidTok(ts[0]) && ts[0].Match? && ts[0].lsym == s && IsLenSym(s)
  {
    ToBits(ts[0].lext, LenExtra(s)) + SymBits(dc, ts[0].dsym) + ToBits(ts[0].dext, DistExtra(ts[0].dsym))
    + ToksBits(lc, dc, ts[1..])
  }

  lemma MatchTailBits(lc: Lens, dc: Lens, s: nat, ts: seq<Tok>)
    requires ts != [] && ValidToks(ts) && ValidTok(ts[0]) && ts[0].Match? && ts[0].lsym == s && IsLenSym(s)
    ensures ToksBits(lc, dc, ts) == SymBits(lc, s) + MatchTail(lc, dc, s, ts)
  {
    hide SymBits, LenExtra, DistExtra, ToksBits;
    ToksBitsCons(lc, dc, ts[0], ts[1..]);
    assert ts == [ts[0]] + ts[1..];
    var a, b, c, d := SymBits(lc, s), ToBits(ts[0].lext, LenExtra(s)), SymBits(dc, ts[0].dsym),
        ToBits(ts[0].dext, DistExtra(ts[0].dsym));
    assert TokBits(lc, dc, ts[0]) == a + b + c + d;
    Assoc4(a, b, c, d, ToksBits(lc, dc, ts[1..]));
  }

  lemma Assoc4(a: Bits, b: Bits, c: Bits, d: Bits, e: Bits)
    ensures a + b + c + d + e == a + (b + c + d + e)
  {
  }

  lemma MatchExact(lc: Lens, dc: Lens, s: nat, bits: Bits)
    requires IsLenSym(s) && ReadLenExt(lc, dc, s, bits).Ok?
    ensures var r := ReadLenExt(lc, dc, s, bits);
            && r.v != [] && ValidToks(r.v) && ValidTok(r.v[0]) && r.v[0].Match? && r.v[0].lsym == s
            && bits == MatchTail(lc, dc, s, r.v) + r.rest
    decreases |bits|, 0
  {
    hide CodeBits, ToksBits, SymBits, LenExtra, DistExtra, Pow2, Val, ToBits, DecodeSym;
    var n := LenExtra(s);
    Split(bits, n);
    var b := bits[n..];
    assert ReadLenExt(lc, dc, s, bits) == ReadDist(lc, dc, s, Val(bits[..n]), b);
    SymSplit(dc, b);
    var d := DecodeSym(dc, b).sym;
    var c := b[dc[d]..];
    assert ReadDist(lc, dc, s, Val(bits[..n]), b) == ReadDistExt(lc, dc, s, Val(bits[..n]), d, c);
    var m := DistExtra(d);
    Split(c, m);
    var e := c[m..];
    var tail := ReadToks(lc, dc, e);
    ToksExact(lc, dc, e);
    var t := Match(s, Val(bits[..n]), d, Val(c[..m]));
    assert ReadLenExt(lc, dc, s, bits) == ConsTok(t, tail);
    assert ([t] + tail.v)[1..] == tail.v;
    Glue(bits, bits[..n], b, SymBits(dc, d), c, c[..m], e, ToksBits(lc, dc, tail.v), tail.rest);
  }

  lemma Glue(w: Bits, a: Bits, w1: Bits, b: Bits, w2: Bits, c: Bits, w3: Bits, d: Bits, rest: Bits)
    requires w == a + w1 && w1 == b + w2 && w2 == c + w3 && w3 == d + rest
    ensures w == a + b + c + d + rest
  {
  }

  /** All symbols of the tokens have codes. */
  ghost predicate Coded(lc: Lens, dc: Lens, ts: seq<Tok>) {
    && Used(lc, 256)
    && forall t :: t in ts ==> TokCoded(lc, dc, t)
  }

  ghost predicate TokCoded(lc: Lens, dc: Lens, t: Tok) {
    match t
    case Lit(b) => Used(lc, b)
    case Match(lsym, _, dsym, _) => Used(lc, lsym) && Used(dc, dsym)
  }

  /** Written tokens read back as themselves, stopping at the end-of-block code. */
  lemma {:induction false} ToksRead(lc: Lens, dc: Lens, ts: seq<Tok>, more: Bits)
    requires Fits(lc) && Fits(dc) && ValidToks(ts) && Coded(lc, dc, ts)
    ensures ReadToks(lc, dc, ToksBits(lc, dc, ts) + more) == Ok(ts, more)
    decreases |ts|
  {
    hide CodeBits, SymBits, LenExtra, DistExtra, Pow2, Val, ToBits, DecodeSym, Fits, ToksBits;
    if ts == [] {
      EndBits(lc, dc);
      SymReads(lc, 256, more);
    } else {
      var tail := ToksBits(lc, dc, ts[1..]);
      assert ts[0] in ts;
      ToksRead(lc, dc, ts[1..], more);
      ToksBitsCons(lc, dc, ts[0], ts[1..]);
      assert ts == [ts[0]] + ts[1..];
      match ts[0] {
        case Lit(b) =>
          Assoc(SymBits(lc, b), tail, more);
          SymReads(lc, b, tail + more);
        case Match(s, x, d, y) =>
          var rest := ToBits(x, LenExtra(s)) + (SymBits(dc, d) + (ToBits(y, DistExtra(d)) + (tail + more)));
          assert ToksBits(lc, dc, ts) + more == SymBits(lc, s) + rest;
          SymReads(lc, s, rest);
          MatchReads(lc, dc, s, x, d, y, tail + more);
      }
    }
  }

  lemma MatchReads(lc: Lens, dc: Lens, s: nat, x: nat, d: nat, y: nat, more: Bits)
    requires Fits(dc) && ValidTok(Match(s, x, d, y)) && Used(dc, d)
    ensures ReadLenExt(lc, dc, s, ToBits(x, LenExtra(s)) + (SymBits(dc, d) + (ToBits(y, DistExtra(d)) + more)))
            == ConsTok(Match(s, x, d, y), ReadToks(lc, dc, more))
  {
    hide CodeBits, SymBits, LenExtra, DistExtra, Pow2, Val, ToBits, DecodeSym, Fits, ReadToks;
    var n, m := LenExtra(s), DistExtra(d);
    var w2 := ToBits(y, m) + more;
    var w1 := SymBits(dc, d) + w2;
    var w := ToBits(x, n) + w1;
    assert w[..n] == ToBits(x, n) && w[n..] == w1;
    ValToBits(x, n);
    assert ReadLenExt(lc, dc, s, w) == ReadDist(lc, dc, s, x, w1);
    SymReads(dc, d, w2);
    assert ReadDist(lc, dc, s, x, w1) == ReadDistExt(lc, dc, s, x, d, w2);
    assert w2[..m] == ToBits(y, m) && w2[m..] == more;
    ValToBits(y, m);
  }

  /** A token list read from some bits has a code for each of its symbols. */
  lemma {:induction false} ToksCoded(lc: Lens, dc: Lens, bits: Bits)
    requires ReadToks(lc, dc, bits).Ok?
    ensures Coded(lc, dc, ReadToks(lc, dc, bits).v)
    decreases |bits|
  {
    hide CodeBits, SymBits, LenExtra, DistExtra, Pow2, Val, ToBits;
    DecodedCode(lc, bits);
    var s := DecodeSym(lc, bits).sym;
    var b := bits[lc[s]..];
    if s < 256 {
      ToksCoded(lc, dc, b);
    } else if s > 256 {
      MatchCoded(lc, dc, s, b);
    }
  }

  lemma MatchCoded(lc: Lens, dc: Lens, s: nat, bits: Bits)
    requires IsLenSym(s) && Used(lc, s) && ReadLenExt(lc, dc, s, bits).Ok?
    ensures Coded(lc, dc, ReadLenExt(lc, dc, s, bits).v)
    decreases |bits|, 0
  {
    hide CodeBits, SymBits, LenExtra, DistExtra, Pow2, Val, ToBits;
    var b := bits[LenExtra(s)..];
    assert ReadLenExt(lc, dc, s, bits) == ReadDist(lc, dc, s, Val(bits[..LenExtra(s)]), b);
    DecodedCode(dc, b);
    var d := DecodeSym(dc, b).sym;
    var c := b[dc[d]..];
    assert ReadLenExt(lc, dc, s, bits) == ReadDistExt(lc, dc, s, Val(bits[..LenExtra(s)]), d, c);
    ToksCoded(lc, dc, c[DistExtra(d)..]);
  }

  // ----- code-length instructions -----

  lemma OpsBitsSnoc(cl: Lens, ops: seq<ClOp>, op: ClOp)
    requires ValidOps(ops) && ValidOp(op)
    ensures ValidOps(ops + [op])
    ensures OpsBits(cl, ops + [op]) == OpsBits(cl, ops) + OpBits(cl, op)
  {
    assert (ops + [op])[..|ops|] == ops;
  }

  lemma ExpandSnoc(ops: seq<ClOp>, op: ClOp)
    ensures Expand(ops + [op]) == Expand(ops) + OpLens(Expand(ops), op)
  {
    assert (ops + [op])[..|ops|] == ops;
  }

  /** One step of reading code-length instructions: the instruction, and the bits after it. */
  ghost predicate OpStep(cl: seq<nat>, ops: seq<ClOp>, bits: Bits, op: ClOp, rest: Bits)
    requires ValidOps(ops)
  {
    && ValidOp(op) && bits == OpBits(ClLens(cl), op) + rest && |rest| < |bits|
    && Used(ClLens(cl), OpSym(op))
    && (op.RepeatOp? ==> Expand(ops) != [])
  }

  lemma OpOfBits(cl: Lens, s: nat, w: Bits)
    requires s < 19 && |w| == ExtraOf(s)
    ensures ValidOp(OpOf(s, Val(w))) && OpSym(OpOf(s, Val(w))) == s
    ensures OpBits(cl, OpOf(s, Val(w))) == SymBits(cl, s) + w
  {
    hide SymBits, Val, ToBits;
    ValBound(w);
    ToBitsVal(w);
    Pow2Small();
    if s < 16 {
      assert w == [];
    }
  }

  /** Reading an instruction, when more lengths are wanted. */
  lemma ReadOpsStep(nlen: nat, ndist: nat, cl: seq<nat>, ops: seq<ClOp>, bits: Bits) returns (op: ClOp, rest: Bits)
    requires ValidOps(ops) && |Expand(ops)| < nlen + ndist && ReadOps(nlen, ndist, cl, ops, bits).Ok?
    ensures OpStep(cl, ops, bits, op, rest)
    ensures |Expand(ops + [op])| <= nlen + ndist
    ensures ReadOps(nlen, ndist, cl, ops, bits) == ReadOps(nlen, ndist, cl, ops + [op], rest)
  {
    hide SymBits, CodeBits, Val, ToBits, Expand, OpLens, ClLens, OpOf, ExtraOf, OpBits;
    var lens := ClLens(cl);
    SymSplit(lens, bits);
    var s := DecodeSym(lens, bits).sym;
    var b, extra := bits[lens[s]..], ExtraOf(s);
    Split(b, extra);
    op, rest := OpOf(s, Val(b[..extra])), b[extra..];
    OpOfBits(lens, s, b[..extra]);
    Regroup(bits, SymBits(lens, s), b, b[..extra], rest);
    ExpandSnoc(ops, op);
    OpOfRepeat(s, Val(b[..extra]));
  }

  lemma OpOfRepeat(s: nat, n: nat)
    ensures OpOf(s, n).RepeatOp? <==> s == 16
  {
  }

  /** An instruction in front of other bits is read as that instruction. */
  lemma ReadOpsAgain(nlen: nat, ndist: nat, cl: seq<nat>, ops: seq<ClOp>, bits: Bits, op: ClOp, rest: Bits)
    requires ValidOps(ops) && |Expand(ops)| < nlen + ndist && Fits(ClLens(cl))
    requires OpStep(cl, ops, bits, op, rest) && |Expand(ops + [op])| <= nlen + ndist
    ensures ReadOps(nlen, ndist, cl, ops, bits) == ReadOps(nlen, ndist, cl, ops + [op], rest)
  {
    hide SymBits, CodeBits, Val, ToBits, Expand, OpLens, Fits, DecodeSym, ClLens, OpSym, OpExtra, OpOf, ExtraOf;
    var lens := ClLens(cl);
    var s, x := OpSym(op), OpExtra(op);
    Assoc(SymBits(lens, s), x, rest);
    SymReads(lens, s, x + rest);
    ExpandSnoc(ops, op);
    ExtraReads(op, rest);
    OpOfRepeat(s, Val((x + rest)[..ExtraOf(s)]));
    assert |SymBits(lens, s)| == lens[s] by { SymLength(lens, s); }
    assert bits[lens[s]..] == x + rest;
  }

  lemma SymLength(lens: Lens, s: nat)
    requires Used(lens, s)
    ensures |SymBits(lens, s)| == lens[s]
  {
  }

  lemma ExtraReads(op: ClOp, rest: Bits)
    requires ValidOp(op)
    ensures var b, e := OpExtra(op) + rest, ExtraOf(OpSym(op));
            && |b| >= e && OpOf(OpSym(op), Val(b[..e])) == op && b[e..] == rest
  {
    hide Val, ToBits;
    var b, e := OpExtra(op) + rest, ExtraOf(OpSym(op));
    Pow2Small();
    assert b[..e] == OpExtra(op);
    match op {
      case LenOp(_) =>
      case RepeatOp(n) => ValToBits(n - 3, 2);
      case ZerosOp(n) => ValToBits(n - 3, 3);
      case ManyZerosOp(n) => ValToBits(n - 11, 7);
    }
  }

  /** Instructions account for exactly the bits read; their number and order are kept. */
  lemma {:induction false} OpsExact(nlen: nat, ndist: nat, cl: seq<nat>, ops: seq<ClOp>, bits: Bits)
    requires ValidOps(ops) && ReadOps(nlen, ndist, cl, ops, bits).Ok?
    ensures var r := ReadOps(nlen, ndist, cl, ops, bits);
            && r.v.nlen == nlen && r.v.ndist == ndist && r.v.cl == cl && ValidOps(r.v.ops)
            && OpsBits(ClLens(cl), ops) + bits == OpsBits(ClLens(cl), r.v.ops) + r.rest
    decreases |bits|
  {
    hide OpsBits, OpBits, Expand, AcceptsHeader, ClLens;
    if |Expand(ops)| < nlen + ndist {
      var op, rest := ReadOpsStep(nlen, ndist, cl, ops, bits);
      OpsBitsSnoc(ClLens(cl), ops, op);
      OpsExact(nlen, ndist, cl, ops + [op], rest);
      Assoc(OpsBits(ClLens(cl), ops), OpBits(ClLens(cl), op), rest);
    }
  }

  lemma SameTail(b: Bits, rest: Bits, w: Bits, rest1: Bits)
    requires b + rest == w + rest1 && |rest| <= |rest1|
    ensures |w| <= |b| && b == w + b[|w|..] && rest1 == b[|w|..] + rest
  {
    assert b == (b + rest)[..|b|];
    assert rest == (b + rest)[|b|..];
  }

  /** Instructions read the same in front of any other bits. */
  lemma {:induction false} OpsAgain(nlen: nat, ndist: nat, cl: seq<nat>, ops: seq<ClOp>, b: Bits, h: Header,
      rest: Bits, more: Bits)
    requires ValidOps(ops) && Fits(ClLens(cl)) && ReadOps(nlen, ndist, cl, ops, b + rest) == Ok(h, rest)
    ensures ReadOps(nlen, ndist, cl, ops, b + more) == Ok(h, more)
    decreases |b|
  {
    hide OpsBits, OpBits, Expand, AcceptsHeader, ClLens, Fits;
    if |Expand(ops)| < nlen + ndist {
      var op, rest1 := ReadOpsStep(nlen, ndist, cl, ops, b + rest);
      var w := OpBits(ClLens(cl), op);
      SameTail(b, rest, w, rest1);
      OpsBitsSnoc(ClLens(cl), ops, op);
      hide ReadOps;
      OpsAgain(nlen, ndist, cl, ops + [op], b[|w|..], h, rest, more);
      Assoc(w, b[|w|..], more);
      ReadOpsAgain(nlen, ndist, cl, ops, b + more, op, b[|w|..] + more);
    } else {
      NoBits(b, rest);
      assert [] + more == more;
    }
  }

  lemma NoBits(b: Bits, rest: Bits)
    requires b + rest == rest
    ensures b == []
  {
    assert |b + rest| == |b| + |rest|;
  }

  // ----- headers -----

  lemma ClBitsSnoc(cl: seq<nat>, v: nat)
    ensures ClBits(cl + [v]) == ClBits(cl) + ToBits(v, 3)
  {
    assert (cl + [v])[..|cl|] == cl;
  }

  lemma {:induction false} ClExact(nlen: nat, ndist: nat, ncode: nat, cl: seq<nat>, bits: Bits)
    requires ReadCl(nlen, ndist, ncode, cl, bits).Ok? && |cl| <= ncode && forall v :: v in cl ==> v < 8
    ensures var h := ReadCl(nlen, ndist, ncode, cl, bits).v;
            && h.nlen == nlen && h.ndist == ndist && |h.cl| == ncode && ValidOps(h.ops)
                && (forall v :: v in h.cl ==> v < 8)
            && Bounded(ClLens(h.cl)) && Accepts(Codes, ClLens(h.cl))
            && ClBits(cl) + bits == (ClBits(h.cl) + OpsBits(ClLens(h.cl), h.ops)) +
                ReadCl(nlen, ndist, ncode, cl, bits).rest
    decreases |bits|
  {
    hide ClBits, OpsBits, ClLens, Accepts, AcceptsHeader, Bounded, ReadOps, ToBits, Val;
    if |cl| < ncode {
      Split(bits, 3);
      Pow2Small();
      var v := Val(bits[..3]);
      ClBitsSnoc(cl, v);
      ClExact(nlen, ndist, ncode, cl + [v], bits[3..]);
      Assoc(ClBits(cl), bits[..3], bits[3..]);
    } else {
      OpsExact(nlen, ndist, cl, [], bits);
      assert OpsBits(ClLens(cl), []) == [] by { OpsBitsNil(ClLens(cl)); }
      assert [] + bits == bits;
      Assoc(ClBits(cl), OpsBits(ClLens(cl), ReadOps(nlen, ndist, cl, [], bits).v.ops),
          ReadOps(nlen, ndist, cl, [], bits).rest);
    }
  }

  lemma OpsBitsNil(cl: Lens)
    ensures OpsBits(cl, []) == []
  {
  }

  lemma {:induction false} ClAgain(nlen: nat, ndist: nat, ncode: nat, cl: seq<nat>, b: Bits, h: Header, rest: Bits,
      more: Bits)
    requires ReadCl(nlen, ndist, ncode, cl, b + rest) == Ok(h, rest)
    ensures ReadCl(nlen, ndist, ncode, cl, b + more) == Ok(h, more)
    decreases |b|
  {
    hide ClLens, AcceptsHeader, Bounded, ReadOps, Val;
    if |cl| < ncode {
      assert ReadCl(nlen, ndist, ncode, cl, b + rest) == ReadCl(nlen, ndist, ncode, cl + [Val((b + rest)[..3])],
          (b + rest)[3..]);
      Peel(b, rest, more, 3);
      assert |b + more| >= 3;
      assert ReadCl(nlen, ndist, ncode, cl, b + more) == ReadCl(nlen, ndist, ncode, cl + [Val((b + more)[..3])],
          (b + more)[3..]);
      hide ReadCl;
      ClAgain(nlen, ndist, ncode, cl + [Val(b[..3])], b[3..], h, rest, more);
    } else {
      OpsFits(cl, nlen, ndist, b + rest);
      OpsAgain(nlen, ndist, cl, [], b, h, rest, more);
    }
  }

  lemma Peel(b: Bits, rest: Bits, more: Bits, n: nat)
    requires n <= |b + rest| && |rest| <= |(b + rest)[n..]|
    ensures n <= |b| && (b + rest)[..n] == b[..n] == (b + more)[..n]
    ensures (b + rest)[n..] == b[n..] + rest && (b + more)[n..] == b[n..] + more
  {
  }

  lemma OpsFits(cl: seq<nat>, nlen: nat, ndist: nat, bits: Bits)
    requires ReadCodes(nlen, ndist, cl, bits).Ok?
    ensures Fits(ClLens(cl))
  {
    var lens := ClLens(cl);
    if MaxLen(lens, MAXBITS) == 0 {
      EmptyFits(lens);
    }
  }

  lemma EmptyFits(lens: Lens)
    requires MaxLen(lens, MAXBITS) == 0
    ensures Fits(lens)
  {
    forall len | 0 <= len <= MAXBITS
      ensures EndCode(lens, len) <= Pow2(len)
    {
      NoCodes(lens, len);
    }
  }

  lemma {:induction false} NoCodes(lens: Lens, len: nat)
    requires len <= MAXBITS && MaxLen(lens, MAXBITS) == 0
    ensures EndCode(lens, len) == 0
  {
    if len > 0 {
      NoCodes(lens, len - 1);
      assert Count(lens, len) == 0;
    }
  }

  lemma SizesRead(bits: Bits)
    requires |bits| >= 14
    ensures Val(bits[..5]) < 32 && Val(bits[5..10]) < 32 && Val(bits[10..14]) < 16
    ensures bits[..14] == SizesBits(Val(bits[..5]) + 257, Val(bits[5..10]) + 1, Val(bits[10..14]) + 4)
  {
    hide ToBits, Val;
    Split(bits, 5);
    assert bits[5..10] == bits[5..][..5] && bits[10..14] == bits[10..][..4];
    Split(bits[5..], 5);
    Split(bits[10..], 4);
    Pow2Small();
    assert bits[..14] == bits[..5] + bits[5..10] + bits[10..14];
  }

  /** A header accounts for exactly the bits read. */
  lemma HeaderExact(strict: bool, bits: Bits)
    requires ReadHeader(strict, bits).Ok?
    ensures var r := ReadHeader(strict, bits);
            && ValidHeader(r.v) && bits == HeaderBits(r.v) + r.rest
            && (strict ==> r.v.nlen <= 286 && r.v.ndist <= 30)
            && Bounded(ClLens(r.v.cl)) && Accepts(Codes, ClLens(r.v.cl))
  {
    hide ClBits, OpsBits, ClLens, Accepts, ReadCl, ToBits, Val, SizesBits, Bounded, Expand;
    var r := ReadHeader(strict, bits);
    SizesRead(bits);
    var nlen, ndist, ncode := Val(bits[..5]) + 257, Val(bits[5..10]) + 1, Val(bits[10..14]) + 4;
    ClExact(nlen, ndist, ncode, [], bits[14..]);
    assert ClBits([]) == [] by { ClBitsNil(); }
    assert [] + bits[14..] == bits[14..];
    assert bits == bits[..14] + bits[14..];
    Assoc(bits[..14], ClBits(r.v.cl) + OpsBits(ClLens(r.v.cl), r.v.ops), r.rest);
    Assoc(bits[..14], ClBits(r.v.cl), OpsBits(ClLens(r.v.cl), r.v.ops));
  }

  lemma ClBitsNil()
    ensures ClBits([]) == []
  {
  }

  /** A header that was read reads back from its bits, whatever follows; the encoder, which does not
      limit the numbers of codes, reads it as well. */
  lemma HeaderAgain(bits: Bits, more: Bits)
    requires ReadHeader(true, bits).Ok?
    ensures var h := ReadHeader(true, bits).v;
            ValidHeader(h) && ReadHeader(false, HeaderBits(h) + more) == Ok(h, more)
  {
    hide HeaderBits, ReadCl, Val, AcceptsHeader;
    var r := ReadHeader(true, bits);
    HeaderExact(true, bits);
    var b := HeaderBits(r.v);
    var nlen, ndist, ncode := Val(bits[..5]) + 257, Val(bits[5..10]) + 1, Val(bits[10..14]) + 4;
    HeaderLong(r.v);
    assert bits[14..] == b[14..] + r.rest;
    ClAgain(nlen, ndist, ncode, [], b[14..], r.v, r.rest, more);
    var w := b + more;
    assert w[..5] == bits[..5] && w[5..10] == bits[5..10] && w[10..14] == bits[10..14];
    assert w[14..] == b[14..] + more;
  }

  lemma HeaderLong(h: Header)
    requires ValidHeader(h)
    ensures |HeaderBits(h)| >= 14
  {
  }

  /** ORDER lists every code-length symbol once. */
  lemma OrderDistinct(n: nat)
    requires n <= 19
    ensures |ORDER| == 19 && forall i, j :: 0 <= i < j < n ==> ORDER[i] != ORDER[j]
    ensures forall i :: 0 <= i < n ==> ORDER[i] < 19
  {
  }

  lemma {:induction false} ClLenAt(cl: seq<nat>, i: nat, k: nat)
    requires k <= i < 19 && |cl| <= 19
    ensures ClLenOf(cl, ORDER[i], k) == if i < |cl| then cl[i] else 0
    decreases i - k
  {
    OrderDistinct(19);
    hide ORDER;
    if k < i && k < |cl| {
      ClLenAt(cl, i, k + 1);
    }
  }

  // ----- blocks -----

  /** A block accounts for exactly the bits read. */
  lemma BlockExact(bits: Bits)
    requires ReadBlock(bits).Ok?
    ensures var r := ReadBlock(bits);
            ValidBlock(r.v) && bits == BlockBits(r.v) + r.rest
  {
    hide HeaderBits, ToksBits, ReadToks, ReadHeader, ByteBits, Pack, ToBits, Val, Expand, AcceptsHeader, FixedLit,
        FixedDist;
    var r := ReadBlock(bits);
    var b := bits[3..];
    var t := Val(bits[1..3]);
    TypeExact(bits);
    match t {
      case 0 =>
        StoredExact(bits[0], b);
        StoredShape(bits[0], b);
        Regroup(bits, TypeBits(bits[0], 0), b, r.v.pad + StoredLens(|r.v.data|) + ByteBits(r.v.data), r.rest);
        Assoc(TypeBits(bits[0], 0), r.v.pad, StoredLens(|r.v.data|));
        Assoc(TypeBits(bits[0], 0), r.v.pad + StoredLens(|r.v.data|), ByteBits(r.v.data));
      case 1 =>
        ToksExact(FixedLit(), FixedDist(), b);
        Regroup(bits, TypeBits(bits[0], 1), b, ToksBits(FixedLit(), FixedDist(), r.v.toks), r.rest);
      case 2 =>
        HeaderExact(true, b);
        var h := ReadHeader(true, b);
        DeclaredLens(h.v);
        ToksExact(LitLens(h.v), DistLens(h.v), h.rest);
        var toks := ToksBits(LitLens(h.v), DistLens(h.v), r.v.toks);
        Regroup(b, HeaderBits(h.v), h.rest, toks, r.rest);
        Regroup(bits, TypeBits(bits[0], 2), b, HeaderBits(h.v) + toks, r.rest);
        Assoc(TypeBits(bits[0], 2), HeaderBits(h.v), toks);
      case _ =>
    }
  }

  lemma DeclaredLens(h: Header)
    requires AcceptsHeader(h)
    ensures |Expand(h.ops)| == h.nlen + h.ndist
  {
  }

  lemma Regroup(w: Bits, a: Bits, w1: Bits, b: Bits, rest: Bits)
    requires w == a + w1 && w1 == b + rest
    ensures w == (a + b) + rest
  {
  }

  lemma TypeExact(bits: Bits)
    requires |bits| >= 3
    ensures Val(bits[1..3]) < 4
    ensures bits == TypeBits(bits[0], Val(bits[1..3])) + bits[3..]
  {
    assert bits[1..3] == bits[1..][..2];
    Split(bits[1..], 2);
    Pow2Small();
  }

  lemma StoredShape(last: bool, bits: Bits)
    requires ReadStored(last, bits).Ok?
    ensures ReadStored(last, bits).v.StoredBlock? && ReadStored(last, bits).v.last == last
  {
  }

  lemma StoredExact(last: bool, bits: Bits)
    requires ReadStored(last, bits).Ok?
    ensures var r := ReadStored(last, bits);
            && r.v.StoredBlock? && ValidBlock(r.v)
            && bits == (r.v.pad + StoredLens(|r.v.data|) + ByteBits(r.v.data)) + r.rest
            && r.v.pad == bits[..|bits| % 8]
  {
    hide ByteBits, Pack, ToBits, Val;
    var k := |bits| % 8;
    var b := bits[k..];
    LenFields(b);
    var n := Val(b[..16]);
    var c := b[32..];
    WholeBytes(c[..8 * n]);
    hide StoredLens, Pow2;
    assert c == c[..8 * n] + c[8 * n..];
    assert b == b[..32] + c;
    assert bits == bits[..k] + b;
    Three(bits, bits[..k], b, b[..32], c, c[..8 * n], c[8 * n..]);
  }

  lemma LenFields(b: Bits)
    requires |b| >= 32 && Val(b[..16]) + Val(b[16..32]) == 65535
    ensures Val(b[..16]) < 65536 && StoredLens(Val(b[..16])) == b[..32]
  {
    hide Val, ToBits, Pow2;
    Split(b, 16);
    assert b[16..32] == b[16..][..16];
    Split(b[16..], 16);
    Pow2Small();
    assert b[..32] == b[..16] + b[16..32];
  }

  lemma WholeBytes(w: Bits)
    requires |w| % 8 == 0
    ensures ByteBits(Pack(w)) == w && 8 * |Pack(w)| == |w|
  {
    PackBits(w);
    assert w + Zeros(0) == w;
  }

  lemma Three(w: Bits, a: Bits, w1: Bits, b: Bits, w2: Bits, c: Bits, rest: Bits)
    requires w == a + w1 && w1 == b + w2 && w2 == c + rest
    ensures w == (a + b + c) + rest
  {
  }

  lemma StreamBitsCons(b: Block, bs: seq<Block>)
    requires ValidBlock(b) && ValidBlocks(bs)
    ensures ValidBlocks([b] + bs) && StreamBits([b] + bs) == BlockBits(b) + StreamBits(bs)
  {
    assert ([b] + bs)[1..] == bs;
  }

  /** The blocks account for exactly the bits read, and only the final one is marked last. */
  lemma {:induction false} StreamExact(bits: Bits)
    requires ReadStream(bits).Ok?
    ensures var r := ReadStream(bits);
            ValidBlocks(r.v) && bits == StreamBits(r.v) + r.rest && LastOnly(r.v)
    decreases |bits|
  {
    hide BlockBits, StreamBits, ReadBlock;
    var p := ReadBlock(bits);
    var r := ReadStream(bits);
    BlockExact(bits);
    if p.v.last {
      StreamBitsCons(p.v, []);
      assert StreamBits([]) == [] by { StreamBitsNil(); }
      assert BlockBits(p.v) + [] == BlockBits(p.v);
      assert [p.v] + [] == [p.v];
    } else {
      StreamExact(p.rest);
      var tail := ReadStream(p.rest);
      StreamBitsCons(p.v, tail.v);
      Regroup(bits, BlockBits(p.v), p.rest, StreamBits(tail.v), r.rest);
    }
  }

  lemma StreamBitsNil()
    ensures StreamBits([]) == []
  {
  }

  /** Exactly the final block is marked last. */
  predicate LastOnly(bs: seq<Block>) {
    && bs != [] && bs[|bs| - 1].last
    && forall i :: 0 <= i < |bs| - 1 ==> !bs[i].last
  }
}
