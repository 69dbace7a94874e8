/**
  Length and distance codes of the encoder (trees.h, d_code in deflate.h) against the base and extra
  tables of the decoder (inftrees.c).
 */
module LengthCodes {
  import opened Bits
  import opened TableSpec
  import opened Format

  /** One entry of the symbol buffer: a distance and a length minus 3, or distance 0 and a literal. */
  datatype Sym3 = Sym3(dist: nat, lc: nat)

  predicate ValidSym(x: Sym3) {
    x.dist <= 32768 && x.lc < 256
  }

  /** j_length_code: the runs of the table, by the length they start at. */
  function LengthCode(lc: nat): (r: nat)
    requires lc < 256
    ensures r < 29
  {
    if lc < 8 then lc
    else if lc < 16 then 8 + (lc - 8) / 2
    else if lc < 32 then 12 + (lc - 16) / 4
    else if lc < 64 then 16 + (lc - 32) / 8
    else if lc < 128 then 20 + (lc - 64) / 16
    else if lc < 255 then 24 + (lc - 128) / 32
    else 28
  }

  /** The first half of j_dist_code, indexed by the distance minus 1. */
  function DistCodeLow(d: nat): (r: nat)
    requires d < 256
    ensures r < 16
  {
    if d < 4 then d
    else if d < 8 then 4 + (d - 4) / 2
    else if d < 16 then 6 + (d - 8) / 4
    else if d < 32 then 8 + (d - 16) / 8
    else if d < 64 then 10 + (d - 32) / 16
    else if d < 128 then 12 + (d - 64) / 32
    else 14 + (d - 128) / 64
  }

  /** The second half of j_dist_code, indexed by the distance minus 1 divided by 128. */
  function DistCodeHigh(k: nat): (r: nat)
    requires k < 256
    ensures r < 30
  {
    if k < 2 then 0
    else if k < 4 then 16 + (k - 2)
    else if k < 8 then 18 + (k - 4) / 2
    else if k < 16 then 20 + (k - 8) / 4
    else if k < 32 then 22 + (k - 16) / 8
    else if k < 64 then 24 + (k - 32) / 16
    else if k < 128 then 26 + (k - 64) / 32
    else 28 + (k - 128) / 64
  }

  /** d_code. */
  function DistCode(d: nat): (r: nat)
    requires d < 32768
    ensures r < 30
  {
    if d < 256 then DistCodeLow(d) else DistCodeHigh(d / 128)
  }

  /** base_length and base_dist: the bases of trees.h count from 0, and code 28 has base 0. */
  function BaseLength(c: nat): nat {
    if c == 28 then 0 else if c < 8 then c else (4 + c % 4) * Pow2(LenShift(c))
  }

  function BaseDist(d: nat): nat {
    if d < 4 then d else (2 + d % 2) * Pow2(DistShift(d))
  }

  lemma BaseLengthTable()
    ensures seq(29, c requires 0 <= c => BaseLength(c)) ==
            [0, 1, 2, 3, 4, 5, 6, 7, 8, 10, 12, 14, 16, 20, 24, 28, 32, 40, 48, 56,
             64, 80, 96, 112, 128, 160, 192, 224, 0]
  {
    Pow2Small();
    hide Pow2;
  }

  lemma BaseDistTable()
    ensures seq(15, d requires 0 <= d => BaseDist(d)) == [0, 1, 2, 3, 4, 6, 8, 12, 16, 24, 32, 48, 64, 96, 128]
  {
    Pow2Small();
    hide Pow2;
  }

  lemma BaseDistTableRest()
    ensures seq(15, d requires 0 <= d => BaseDist(15 + d)) ==
            [192, 256, 384, 512, 768, 1024, 1536, 2048, 3072, 4096, 6144, 8192, 12288, 16384, 24576]
  {
    Pow2Small();
    hide Pow2;
  }

  lemma BaseLengthOf(c: nat)
    requires c < 29
    ensures c < 8 ==> BaseLength(c) == c && Pow2(LenShift(c)) == 1
    ensures 8 <= c < 12 ==> BaseLength(c) == 8 + (c - 8) * 2 && Pow2(LenShift(c)) == 2
    ensures 12 <= c < 16 ==> BaseLength(c) == 16 + (c - 12) * 4 && Pow2(LenShift(c)) == 4
    ensures 16 <= c < 20 ==> BaseLength(c) == 32 + (c - 16) * 8 && Pow2(LenShift(c)) == 8
    ensures 20 <= c < 24 ==> BaseLength(c) == 64 + (c - 20) * 16 && Pow2(LenShift(c)) == 16
    ensures 24 <= c < 28 ==> BaseLength(c) == 128 + (c - 24) * 32 && Pow2(LenShift(c)) == 32
    ensures c == 28 ==> BaseLength(c) == 0 && Pow2(LenShift(c)) == 1
  {
    Pow2Small();
    hide Pow2;
  }

  lemma BaseDistOf(d: nat)
    requires d < 30
    ensures d < 4 ==> BaseDist(d) == d && Pow2(DistShift(d)) == 1
    ensures 4 <= d < 6 ==> BaseDist(d) == 4 + (d - 4) * 2 && Pow2(DistShift(d)) == 2
    ensures 6 <= d < 8 ==> BaseDist(d) == 8 + (d - 6) * 4 && Pow2(DistShift(d)) == 4
    ensures 8 <= d < 10 ==> BaseDist(d) == 16 + (d - 8) * 8 && Pow2(DistShift(d)) == 8
    ensures 10 <= d < 12 ==> BaseDist(d) == 32 + (d - 10) * 16 && Pow2(DistShift(d)) == 16
    ensures 12 <= d < 14 ==> BaseDist(d) == 64 + (d - 12) * 32 && Pow2(DistShift(d)) == 32
    ensures 14 <= d < 16 ==> BaseDist(d) == 128 + (d - 14) * 64 && Pow2(DistShift(d)) == 64
    ensures 16 <= d < 18 ==> BaseDist(d) == 256 + (d - 16) * 128 && Pow2(DistShift(d)) == 128
    ensures 18 <= d < 20 ==> BaseDist(d) == 512 + (d - 18) * 256 && Pow2(DistShift(d)) == 256
    ensures 20 <= d < 22 ==> BaseDist(d) == 1024 + (d - 20) * 512 && Pow2(DistShift(d)) == 512
    ensures 22 <= d < 24 ==> BaseDist(d) == 2048 + (d - 22) * 1024 && Pow2(DistShift(d)) == 1024
    ensures 24 <= d < 26 ==> BaseDist(d) == 4096 + (d - 24) * 2048 && Pow2(DistShift(d)) == 2048
    ensures 26 <= d < 28 ==> BaseDist(d) == 8192 + (d - 26) * 4096 && Pow2(DistShift(d)) == 4096
    ensures 28 <= d < 30 ==> BaseDist(d) == 16384 + (d - 28) * 8192 && Pow2(DistShift(d)) == 8192
  {
    Pow2Small();
    hide Pow2;
  }

  /** Each length code covers exactly its base and the range of its extra bits, except that 255 has its own code. */
  lemma LengthCodeRange(lc: nat, c: nat)
    requires lc < 256 && c < 29
    ensures LengthCode(lc) == c <==>
              if c == 28 then lc == 255 else BaseLength(c) <= lc < BaseLength(c) + Pow2(LenShift(c)) && lc != 255
  {
    hide BaseLength, Pow2, LenShift;
    BaseLengthOf(c);
  }

  lemma DistCodeLowRange(d: nat, c: nat)
    requires d < 32768 && c < 16
    ensures DistCode(d) == c <==> BaseDist(c) <= d < BaseDist(c) + Pow2(DistShift(c))
  {
    hide BaseDist, Pow2, DistShift;
    BaseDistOf(c);
  }

  /** From code 16 on, bases and widths are multiples of 128. */
  lemma DistCodeBlocks(k: nat, c: nat)
    requires k < 256 && 16 <= c < 30
    ensures DistCodeHigh(k) == c <==> BaseDist(c) <= 128 * k < BaseDist(c) + Pow2(DistShift(c))
    ensures BaseDist(c) % 128 == 0 && Pow2(DistShift(c)) % 128 == 0
  {
    hide BaseDist, Pow2, DistShift;
    BaseDistOf(c);
    if k < 16 {
    } else if k < 64 {
    } else {
    }
  }

  lemma DistCodeHighRange(d: nat, c: nat)
    requires d < 32768 && 16 <= c < 30
    ensures DistCode(d) == c <==> BaseDist(c) <= d < BaseDist(c) + Pow2(DistShift(c))
  {
    hide BaseDist, Pow2, DistShift, DistCodeHigh;
    BaseDistOf(c);
    DistCodeBlocks(d / 128, c);
    SameBlock(d, BaseDist(c));
    SameBlock(d, BaseDist(c) + Pow2(DistShift(c)));
  }

  lemma SameBlock(d: nat, m: nat)
    requires m % 128 == 0
    ensures m <= d <==> m <= 128 * (d / 128)
  {
  }

  /** Each distance code covers exactly its base and the range of its extra bits. */
  lemma DistCodeRange(d: nat, c: nat)
    requires d < 32768 && c < 30
    ensures DistCode(d) == c <==> BaseDist(c) <= d < BaseDist(c) + Pow2(DistShift(c))
  {
    hide BaseDist, Pow2, DistShift;
    BaseDistOf(c);
    if c < 16 {
      DistCodeLowRange(d, c);
    } else {
      DistCodeHighRange(d, c);
    }
  }

  /** The decoder's bases are those of the encoder, counting from 3 and from 1; code 28 is length 258. */
  lemma SameBases(c: nat, d: nat)
    requires c < 29 && d < 30
    ensures LBase(c) == if c == 28 then 258 else BaseLength(c) + 3
    ensures LenExtra(257 + c) == LenShift(c)
    ensures DBase(d) == BaseDist(d) + 1
    ensures DistExtra(d) == DistShift(d)
  {
    hide Pow2;
  }

  /** The token compress_block writes for a buffer entry. */
  function Retok(x: Sym3): (t: Tok)
    requires ValidSym(x)
    ensures ValidTok(t)
  {
    if x.dist == 0 then Lit(x.lc)
    else
      var c, k := LengthCode(x.lc), DistCode(x.dist - 1);
      RetokFits(x);
      Match(257 + c, if LenShift(c) != 0 then x.lc - BaseLength(c) else 0, k,
            if DistShift(k) != 0 then x.dist - 1 - BaseDist(k) else 0)
  }

  lemma RetokFits(x: Sym3)
    requires ValidSym(x) && x.dist != 0
    ensures var c, k := LengthCode(x.lc), DistCode(x.dist - 1);
            && LenExtra(257 + c) == LenShift(c) && DistExtra(k) == DistShift(k)
            && (LenShift(c) != 0 ==> 0 <= x.lc - BaseLength(c) < Pow2(LenShift(c)))
            && (DistShift(k) != 0 ==> 0 <= x.dist - 1 - BaseDist(k) < Pow2(DistShift(k)))
            && Pow2(0) == 1
  {
    var c, k := LengthCode(x.lc), DistCode(x.dist - 1);
    LengthCodeRange(x.lc, c);
    DistCodeRange(x.dist - 1, k);
    SameBases(c, k);
    assert LenShift(28) == 0;
    hide *;
  }

  /** The buffer entry for a token. */
  function SymOf(t: Tok): (x: Sym3)
    requires ValidTok(t)
    ensures ValidSym(x)
  {
    match t
    case Lit(b) => Sym3(0, b)
    case Match(lsym, lext, dsym, dext) =>
      TokRange(t);
      Sym3(TokDist(t), TokLen(t) - 3)
  }

  lemma TokRange(t: Tok)
    requires t.Match? && ValidTok(t)
    ensures 3 <= TokLen(t) <= 258 && 1 <= TokDist(t) <= 32768
  {
    Pow2Small();
    hide Pow2;
  }

  /** The one token with two spellings: length 258 as symbol 284 with all extra bits set. */
  predicate LongSpelling(t: Tok) {
    t.Match? && t.lsym == 284 && t.lext == 31
  }

  function Canon(t: Tok): Tok
    requires ValidTok(t)
  {
    Retok(SymOf(t))
  }

  /** Going through the symbol buffer keeps a token, unless it is the other spelling of length 258. */
  lemma CanonKeeps(t: Tok)
    requires ValidTok(t)
    ensures Canon(t) == t <==> !LongSpelling(t)
  {
    if t.Match? {
      TokRange(t);
      LengthKept(t);
      DistKept(t);
    }
  }

  lemma LengthKept(t: Tok)
    requires t.Match? && ValidTok(t) && 3 <= TokLen(t) <= 258
    ensures !LongSpelling(t) ==>
              257 + LengthCode(TokLen(t) - 3) == t.lsym &&
              t.lext == if LenExtra(t.lsym) != 0 then TokLen(t) - 3 - BaseLength(t.lsym - 257) else 0
    ensures LongSpelling(t) ==> LengthCode(TokLen(t) - 3) == 28
  {
    var c := t.lsym - 257;
    SameBases(c, 0);
    BaseLengthOf(c);
    LengthCodeRange(TokLen(t) - 3, c);
    LengthCodeRange(TokLen(t) - 3, 28);
    hide LengthCode, BaseLength, LBase, LenExtra, LenShift, DBase, DistExtra, DistShift, BaseDist, Pow2;
    assert TokLen(t) == LBase(c) + t.lext;
  }

  lemma DistKept(t: Tok)
    requires t.Match? && ValidTok(t) && 1 <= TokDist(t) <= 32768
    ensures DistCode(TokDist(t) - 1) == t.dsym
    ensures t.dext == if DistExtra(t.dsym) != 0 then TokDist(t) - 1 - BaseDist(t.dsym) else 0
  {
    var d := t.dsym;
    SameBases(0, d);
    BaseDistOf(d);
    DistCodeRange(TokDist(t) - 1, d);
    hide DistCode, BaseLength, LBase, LenExtra, LenShift, DBase, DistExtra, DistShift, BaseDist, Pow2;
    assert TokDist(t) == DBase(d) + t.dext;
  }

  /** A buffer entry read back from its token is the same entry. */
  lemma RetokSym(x: Sym3)
    requires ValidSym(x)
    ensures SymOf(Retok(x)) == x
  {
    if x.dist != 0 {
      var c, k := LengthCode(x.lc), DistCode(x.dist - 1);
      LengthCodeRange(x.lc, c);
      DistCodeRange(x.dist - 1, k);
      Pow2Small();
    }
  }
}
