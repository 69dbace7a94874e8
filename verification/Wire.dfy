/**
  Literal byte strings: streams as they stand in a file, what the decoder makes of them, and that the encoder
  gives the same bytes back.  They tie the definitions to the format down to the single bit.
 */
module Wire {
  import opened Bits
  import opened Huffman
  import opened TableSpec
  import opened TableSpace
  import opened Format
  import opened FormatLemmas
  import opened FixedCode
  import opened LengthCodes
  import opened RunLength
  import opened Instructions
  import opened DecoderSpec
  import opened EncoderSpec
  import opened Transcode
  import opened RoundTrip
  import opened Rereading
  import opened Overlay
  import opened Grammar

  // ----- bits as numbers -----

  /** A byte string as one number, least significant byte first. */
  function Little(s: seq<byte>): nat {
    if s == [] then 0 else s[0] + 256 * Little(s[1..])
  }

  lemma {:induction false} LittleIs(s: seq<byte>)
    ensures Val(ByteBits(s)) == Little(s)
  {
    Pow2Small();
    hide ToBits, Val, Pow2;
    if s == [] {
      NoBits();
    } else {
      LittleIs(s[1..]);
      ValToBits(s[0], 8);
      ValAppend(ToBits(s[0], 8), ByteBits(s[1..]));
    }
  }

  lemma NoBits()
    ensures Val([]) == 0 && ByteBits([]) == []
  {
  }

  /** Bits that make up the same number as some bytes are the bits of these bytes. */
  lemma SameBytes(b: Bits, s: seq<byte>)
    requires Val(b) == Little(s) && |b| == 8 * |s|
    ensures b == ByteBits(s) && Pack(b) == s
  {
    hide *;
    LittleIs(s);
    ToBitsVal(b);
    ToBitsVal(ByteBits(s));
    assert |ByteBits(s)| == 8 * |s|;
    PackByteBits(s);
  }

  // ----- a dynamic block -----

  /** The literal/length code: a and f are literals, 256 is the end, 285 is length 258. */
  function LitCode(): (r: Lens)
    ensures |r| == 286
  {
    seq(286, s => if s == 97 then 2 else if s == 102 || s == 256 then 3 else if s == 285 then 1 else 0)
  }

  function EightDist(): (r: Lens)
    ensures |r| == 8
  {
    seq(8, _ => 3)
  }

  const CL: seq<nat> := [4, 4, 1, 0, 0, 0, 0, 0, 0, 0, 0, 0, 0, 2, 0, 4, 0, 4]

  const OPS := [ManyZerosOp(97), LenOp(2), ZerosOp(4), LenOp(3), ManyZerosOp(138), ManyZerosOp(15), LenOp(3),
                ManyZerosOp(28), LenOp(1), LenOp(3), RepeatOp(6), LenOp(3)]

  const HEADER := Header(286, 8, CL, OPS)

  const TOKS := [Lit(97), Match(285, 0, 0, 0), Lit(102), Match(285, 0, 7, 2)]

  const DYNAMIC := DynamicBlock(true, HEADER, TOKS)

  const BYTES: seq<byte> := [0xed, 0xc7, 0xc9, 0x00, 0x00, 0x00, 0x00, 0x02, 0x41, 0xd6, 0xfd, 0xe4, 0x8f, 0x90,
                             0xc8, 0x74, 0x17, 0xcc, 0x3d]

  lemma {:induction false} LitCount(n: nat, len: nat)
    requires n <= 286 && len > 0
    ensures CountTo(LitCode(), n, len) ==
            if len == 1 then (if n > 285 then 1 else 0)
            else if len == 2 then (if n > 97 then 1 else 0)
            else if len == 3 then (if n > 102 then 1 else 0) + (if n > 256 then 1 else 0)
            else 0
  {
    if n > 0 {
      LitCount(n - 1, len);
    }
  }

  lemma LitAt(s: nat)
    requires s < 286
    ensures LitCode()[s] == if s == 97 then 2 else if s == 102 || s == 256 then 3 else if s == 285 then 1 else 0
    ensures Bounded(LitCode())
  {
  }

  lemma KraftNext(lens: Lens, n: nat)
    requires 0 < n <= |lens| && Bounded(lens)
    ensures Kraft(lens, 0) == 0
    ensures Kraft(lens, n) == Kraft(lens, n - 1) + if lens[n - 1] == 0 then 0 else Pow2(15 - lens[n - 1])
  {
  }

  lemma {:induction false} LitKraft(n: nat)
    requires n <= 286
    ensures Bounded(LitCode())
    ensures Kraft(LitCode(), n) == (if n > 97 then 8192 else 0) + (if n > 102 then 4096 else 0) +
            (if n > 256 then 4096 else 0) + (if n > 285 then 16384 else 0)
  {
    Pow2Small();
    LitAt(if n > 0 then n - 1 else 0);
    KraftNext(LitCode(), if n > 0 then n else 1);
    hide Pow2, Kraft, LitCode, Bounded;
    if n > 0 {
      LitKraft(n - 1);
    }
  }

  lemma {:induction false} DistCount(n: nat, len: nat)
    requires n <= 8 && len > 0
    ensures CountTo(EightDist(), n, len) == if len == 3 then n else 0
  {
    if n > 0 {
      DistCount(n - 1, len);
    }
  }

  lemma {:induction false} DistKraft(n: nat)
    requires n <= 8
    ensures Bounded(EightDist()) && Kraft(EightDist(), n) == 4096 * n
  {
    Pow2Small();
    hide Pow2;
    if n > 0 {
      DistKraft(n - 1);
    }
  }

  function ClCode(): (r: Lens)
    ensures |r| == 19
  {
    [0, 4, 4, 2, 0, 0, 0, 0, 0, 0, 0, 0, 0, 0, 0, 0, 4, 4, 1]
  }

  lemma ClCodeIs()
    ensures ClLens(CL) == ClCode()
  {
    hide ClLens;
    ClOrder(CL);
  }

  lemma {:induction false} ClCount(n: nat, len: nat)
    requires n <= 19 && len > 0
    ensures CountTo(ClCode(), n, len) ==
            if len == 1 then (if n > 18 then 1 else 0)
            else if len == 2 then (if n > 3 then 1 else 0)
            else if len == 4 then
              (if n > 1 then 1 else 0) + (if n > 2 then 1 else 0) + (if n > 16 then 1 else 0) +
              (if n > 17 then 1 else 0)
            else 0
  {
    if n > 0 {
      ClCount(n - 1, len);
    }
  }

  lemma {:induction false} ClKraft(n: nat)
    requires n <= 19
    ensures Bounded(ClCode())
    ensures Kraft(ClCode(), n) == (if n > 1 then 2048 else 0) + (if n > 2 then 2048 else 0) +
            (if n > 3 then 8192 else 0) + (if n > 16 then 2048 else 0) + (if n > 17 then 2048 else 0) +
            (if n > 18 then 16384 else 0)
  {
    Pow2Small();
    hide Pow2;
    if n > 0 {
      ClKraft(n - 1);
    }
  }

  // ----- codes, which are written most significant bit first -----

  lemma Code1(a: bool)
    ensures MsbBits(Bit(a), 1) == [a]
  {
    MsbBitsPush(0, 0, a);
  }

  lemma Code2(a: bool, b: bool)
    ensures MsbBits(2 * Bit(a) + Bit(b), 2) == [a, b]
  {
    Code1(a);
    MsbBitsPush(Bit(a), 1, b);
  }

  lemma Code3(a: bool, b: bool, c: bool)
    ensures MsbBits(4 * Bit(a) + 2 * Bit(b) + Bit(c), 3) == [a, b, c]
  {
    Code2(a, b);
    MsbBitsPush(2 * Bit(a) + Bit(b), 2, c);
  }

  lemma Code4(a: bool, b: bool, c: bool, d: bool)
    ensures MsbBits(8 * Bit(a) + 4 * Bit(b) + 2 * Bit(c) + Bit(d), 4) == [a, b, c, d]
  {
    Code3(a, b, c);
    MsbBitsPush(4 * Bit(a) + 2 * Bit(b) + Bit(c), 3, d);
  }

  lemma SymIs(lens: Lens, s: nat, len: nat, k: nat)
    requires s < |lens| && lens[s] == len && 0 < len <= 15 && CountTo(lens, s, len) == k
    ensures SymBits(lens, s) == MsbBits(FirstCode(lens, len) + k, len)
  {
    hide FirstCode, MsbBits, CountTo;
  }

  lemma ClAt()
    ensures ClCode()[18] == 1 && ClCode()[3] == 2
    ensures ClCode()[1] == ClCode()[2] == ClCode()[16] == ClCode()[17] == 4
    ensures Bit(true) == 1 && Bit(false) == 0
  {
  }

  lemma ClSyms()
    ensures SymBits(ClCode(), 18) == [false] && SymBits(ClCode(), 3) == [true, false]
    ensures SymBits(ClCode(), 1) == [true, true, false, false] && SymBits(ClCode(), 2) == [true, true, false, true]
    ensures SymBits(ClCode(), 16) == [true, true, true, false] && SymBits(ClCode(), 17) == [true, true, true, true]
  {
    hide *;
    ClAt();
    ClEnds();
    ClCount(18, 1);
    SymIs(ClCode(), 18, 1, 0);
    Code1(false);
    ClCount(3, 2);
    SymIs(ClCode(), 3, 2, 0);
    Code2(true, false);
    ClCount(1, 4);
    SymIs(ClCode(), 1, 4, 0);
    Code4(true, true, false, false);
    ClCount(2, 4);
    SymIs(ClCode(), 2, 4, 1);
    Code4(true, true, false, true);
    ClCount(16, 4);
    SymIs(ClCode(), 16, 4, 2);
    Code4(true, true, true, false);
    ClCount(17, 4);
    SymIs(ClCode(), 17, 4, 3);
    Code4(true, true, true, true);
  }

  lemma ClEnds()
    ensures FirstCode(ClCode(), 1) == 0 && FirstCode(ClCode(), 2) == 2 && FirstCode(ClCode(), 4) == 12
  {
    ClCount(19, 1);
    ClCount(19, 2);
    ClCount(19, 3);
    hide CountTo;
    assert EndCode(ClCode(), 0) == 0 && EndCode(ClCode(), 1) == 1;
  }

  lemma LitSyms()
    ensures SymBits(LitCode(), 97) == [true, false] && SymBits(LitCode(), 102) == [true, true, false]
    ensures SymBits(LitCode(), 256) == [true, true, true] && SymBits(LitCode(), 285) == [false]
  {
    hide *;
    ClAt();
    LitEnds();
    LitAt(97);
    LitCount(97, 2);
    SymIs(LitCode(), 97, 2, 0);
    Code2(true, false);
    LitAt(102);
    LitCount(102, 3);
    SymIs(LitCode(), 102, 3, 0);
    Code3(true, true, false);
    LitAt(256);
    LitCount(256, 3);
    SymIs(LitCode(), 256, 3, 1);
    Code3(true, true, true);
    LitAt(285);
    LitCount(285, 1);
    SymIs(LitCode(), 285, 1, 0);
    Code1(false);
  }

  lemma LitEnds()
    ensures FirstCode(LitCode(), 1) == 0 && FirstCode(LitCode(), 2) == 2 && FirstCode(LitCode(), 3) == 6
  {
    LitCount(286, 1);
    LitCount(286, 2);
    hide CountTo, LitCode;
    assert EndCode(LitCode(), 0) == 0 && EndCode(LitCode(), 1) == 1;
  }

  lemma DistAt()
    ensures EightDist()[0] == 3 && EightDist()[7] == 3 && Bounded(EightDist())
  {
  }

  lemma DistSyms()
    ensures SymBits(EightDist(), 0) == [false, false, false] && SymBits(EightDist(), 7) == [true, true, true]
  {
    hide *;
    ClAt();
    DistAt();
    DistEnds();
    DistCount(0, 3);
    SymIs(EightDist(), 0, 3, 0);
    Code3(false, false, false);
    DistCount(7, 3);
    SymIs(EightDist(), 7, 3, 7);
    Code3(true, true, true);
  }

  lemma DistEnds()
    ensures FirstCode(EightDist(), 3) == 0
  {
    DistCount(8, 1);
    DistCount(8, 2);
    hide CountTo;
    assert EndCode(EightDist(), 0) == 0 && EndCode(EightDist(), 1) == 0;
  }

  // ----- the bits of the block -----

  /** The bits of a code-length instruction as a number, for the lengths 1, 2 and 3, and how many there are. */
  function OpValue(op: ClOp): nat
    requires ValidOp(op)
  {
    match op
    case LenOp(v) => if v == 1 then 3 else if v == 2 then 11 else 1
    case RepeatOp(n) => 7 + 16 * (n - 3)
    case ZerosOp(n) => 15 + 16 * (n - 3)
    case ManyZerosOp(n) => 2 * (n - 11)
  }

  function OpWidth(op: ClOp): nat {
    match op
    case LenOp(v) => if v == 3 then 2 else 4
    case RepeatOp(_) => 6
    case ZerosOp(_) => 7
    case ManyZerosOp(_) => 8
  }

  predicate Plain(ops: seq<ClOp>) {
    forall op :: op in ops ==> ValidOp(op) && (op.LenOp? ==> 1 <= op.len <= 3)
  }

  lemma SmallVals()
    ensures Val([false]) == 0 && Val([true]) == 1 && Val([true, false]) == 1
    ensures Val([true, true, false, false]) == 3 && Val([true, true, false, true]) == 11
    ensures Val([true, true, true, false]) == 7 && Val([true, true, true, true]) == 15
    ensures Val([true, true, false]) == 3 && Val([true, true, true]) == 7 && Val([false, false, false]) == 0
  {
  }

  lemma OpParts(op: ClOp)
    requires Plain([op])
    ensures ValidOp(op) && OpBits(ClCode(), op) == SymBits(ClCode(), OpSym(op)) + OpExtra(op)
    ensures op.LenOp? ==> OpSym(op) == op.len && 1 <= op.len <= 3
  {
    assert op in [op];
    hide SymBits, ClCode, ValidOp;
  }

  /** The extra bits as a number. */
  lemma ExtraIs(op: ClOp)
    requires ValidOp(op)
    ensures op.LenOp? ==> OpExtra(op) == []
    ensures op.RepeatOp? ==> OpSym(op) == 16 && Val(OpExtra(op)) == op.n - 3 && |OpExtra(op)| == 2
    ensures op.ZerosOp? ==> OpSym(op) == 17 && Val(OpExtra(op)) == op.n - 3 && |OpExtra(op)| == 3
    ensures op.ManyZerosOp? ==> OpSym(op) == 18 && Val(OpExtra(op)) == op.n - 11 && |OpExtra(op)| == 7
  {
    Pow2Small();
    hide ToBits, Val, Pow2;
    match op
    case LenOp(_) =>
    case RepeatOp(n) => ValToBits(n - 3, 2);
    case ZerosOp(n) => ValToBits(n - 3, 3);
    case ManyZerosOp(n) => ValToBits(n - 11, 7);
  }

  lemma Joined(a: Bits, b: Bits, p: nat)
    requires Pow2(|a|) == p
    ensures Val(a + b) == Val(a) + p * Val(b) && |a + b| == |a| + |b|
  {
    ValAppend(a, b);
  }

  lemma OpIs(op: ClOp)
    requires Plain([op])
    ensures ValidOp(op) && Val(OpBits(ClCode(), op)) == OpValue(op) && |OpBits(ClCode(), op)| == OpWidth(op)
  {
    hide *;
    OpParts(op);
    OpNumbers(op);
    ExtraIs(op);
    var code, extra := SymBits(ClCode(), OpSym(op)), OpExtra(op);
    if op.LenOp? {
      LenIs(op.len);
      assert code + [] == code;
    } else if op.RepeatOp? {
      RunSyms();
      Joined(code, extra, 16);
    } else if op.ZerosOp? {
      RunSyms();
      Joined(code, extra, 16);
    } else {
      RunSyms();
      Joined(code, extra, 2);
    }
  }

  lemma LenIs(len: nat)
    requires 1 <= len <= 3
    ensures Val(SymBits(ClCode(), len)) == if len == 1 then 3 else if len == 2 then 11 else 1
    ensures |SymBits(ClCode(), len)| == if len == 3 then 2 else 4
  {
    hide *;
    ClSyms();
    SmallVals();
  }

  lemma RunSyms()
    ensures Val(SymBits(ClCode(), 16)) == 7 && |SymBits(ClCode(), 16)| == 4 && Pow2(4) == 16
    ensures Val(SymBits(ClCode(), 17)) == 15 && |SymBits(ClCode(), 17)| == 4 && Pow2(1) == 2
    ensures Val(SymBits(ClCode(), 18)) == 0 && |SymBits(ClCode(), 18)| == 1
  {
    hide *;
    ClSyms();
    SmallVals();
    Pow2Small();
  }

  lemma OpNumbers(op: ClOp)
    requires ValidOp(op)
    ensures op.LenOp? ==> OpValue(op) == (if op.len == 1 then 3 else if op.len == 2 then 11 else 1)
                          && OpWidth(op) == if op.len == 3 then 2 else 4
    ensures op.RepeatOp? ==> OpValue(op) == 7 + 16 * (op.n - 3) && OpWidth(op) == 6
    ensures op.ZerosOp? ==> OpValue(op) == 15 + 16 * (op.n - 3) && OpWidth(op) == 7
    ensures op.ManyZerosOp? ==> OpValue(op) == 2 * (op.n - 11) && OpWidth(op) == 8
    ensures op.LenOp? || op.RepeatOp? || op.ZerosOp? || op.ManyZerosOp?
  {
  }

  lemma PlainValid(ops: seq<ClOp>, k: nat)
    requires Plain(ops) && k <= |ops|
    ensures ValidOps(ops[k..]) && ops[|ops|..] == []
    ensures k < |ops| ==> Plain([ops[k]]) && ValidOp(ops[k]) && ops[k..] == [ops[k]] + ops[k + 1..]
  {
    hide ValidOp;
  }

  /** The number of a list of instructions, from the `k`-th on. */
  lemma OpsFrom(ops: seq<ClOp>, k: nat)
    requires Plain(ops) && k < |ops|
    ensures ValidOps(ops[k..]) && ValidOps(ops[k + 1..]) && ValidOp(ops[k])
    ensures var rest := OpsBits(ClCode(), ops[k + 1..]);
            && Val(OpsBits(ClCode(), ops[k..])) == OpValue(ops[k]) + Pow2(OpWidth(ops[k])) * Val(rest)
            && |OpsBits(ClCode(), ops[k..])| == OpWidth(ops[k]) + |rest|
  {
    hide *;
    PlainValid(ops, k);
    PlainValid(ops, k + 1);
    OpIs(ops[k]);
    OpsBitsCons(ClCode(), ops[k], ops[k + 1..]);
    ValAppend(OpBits(ClCode(), ops[k]), OpsBits(ClCode(), ops[k + 1..]));
  }

  lemma OpsPlain()
    ensures Plain(OPS) && |OPS| == 12 && ValidOps(OPS) && OPS[0..] == OPS && OPS[12..] == []
  {
  }

  lemma OpsNumber()
    ensures ValidOps(OPS)
    ensures Val(OpsBits(ClCode(), OPS)) == 0xee991211fc9fbac && |OpsBits(ClCode(), OPS)| == 61
  {
    OpsPlain();
    hide OpsBits, ClCode, Val, Pow2, Plain;
    Pow2Small();
    OpsBitsNil(ClCode());
    NoBits();
    OpsFrom(OPS, 11);
    OpsFrom(OPS, 10);
    OpsFrom(OPS, 9);
    OpsFrom(OPS, 8);
    OpsFrom(OPS, 7);
    OpsFrom(OPS, 6);
    OpsFrom(OPS, 5);
    OpsFrom(OPS, 4);
    OpsFrom(OPS, 3);
    OpsFrom(OPS, 2);
    OpsFrom(OPS, 1);
    OpsFrom(OPS, 0);
  }

  function ClNumber(cl: seq<nat>): nat {
    if cl == [] then 0 else cl[0] + 8 * ClNumber(cl[1..])
  }

  lemma {:induction false} ClNumberIs(cl: seq<nat>)
    requires forall v :: v in cl ==> v < 8
    ensures Val(ClBits(cl)) == ClNumber(cl)
  {
    hide ToBits, Val, Pow2, ClBits;
    if cl == [] {
      ClBitsNil();
      NoBits();
    } else {
      assert cl == [cl[0]] + cl[1..] && cl[0] in cl && forall v :: v in cl[1..] ==> v in cl;
      ClNumberIs(cl[1..]);
      ClBitsCons(cl[0], cl[1..]);
      EightIs();
      ValToBits(cl[0], 3);
      Joined(ToBits(cl[0], 3), ClBits(cl[1..]), 8);
    }
  }

  lemma EightIs()
    ensures Pow2(3) == 8 && Pow2(14) == 16384
  {
    Pow2Small();
  }

  lemma ClIs()
    ensures |CL| == 18 && (forall v :: v in CL ==> v < 8) && |ClBits(CL)| == 54
    ensures Val(ClBits(CL)) == 0x20810000000064
  {
    hide ClBits, Val, ClNumber;
    ClNumberIs(CL);
    ClNumberHere();
  }

  lemma ClStep(cl: seq<nat>, k: nat)
    requires k < |cl|
    ensures ClNumber(cl[k..]) == cl[k] + 8 * ClNumber(cl[k + 1..])
  {
    assert cl[k..][1..] == cl[k + 1..];
  }

  lemma ClThree(cl: seq<nat>, k: nat)
    requires k + 3 <= |cl|
    ensures ClNumber(cl[k..]) == cl[k] + 8 * cl[k + 1] + 64 * cl[k + 2] + 512 * ClNumber(cl[k + 3..])
  {
    hide ClNumber;
    ClStep(cl, k);
    ClStep(cl, k + 1);
    ClStep(cl, k + 2);
  }

  lemma ClNumberHere()
    ensures ClNumber(CL) == 0x20810000000064
  {
    hide ClNumber;
    assert CL[0..] == CL && ClNumber(CL[18..]) == 0 by { ClNone(); }
    ClThree(CL, 15);
    ClThree(CL, 12);
    ClThree(CL, 9);
    ClThree(CL, 6);
    ClThree(CL, 3);
    ClThree(CL, 0);
  }

  lemma ClNone()
    ensures |CL| == 18 && ClNumber(CL[18..]) == 0
  {
  }

  lemma SizesIs()
    ensures Val(SizesBits(286, 8, 18)) == 14589 && |SizesBits(286, 8, 18)| == 14
  {
    Pow2Small();
    ValToBits(29, 5);
    ValToBits(7, 5);
    ValToBits(14, 4);
    hide ToBits, Val, Pow2;
    Joined(ToBits(29, 5), ToBits(7, 5), 32);
    Joined(ToBits(29, 5) + ToBits(7, 5), ToBits(14, 4), 1024);
  }

  lemma TypeIs(last: bool, t: nat)
    requires t < 4
    ensures Val(TypeBits(last, t)) == Bit(last) + 2 * t && |TypeBits(last, t)| == 3
  {
    Pow2Small();
    ValToBits(t, 2);
    hide ToBits, Pow2;
    assert TypeBits(last, t)[1..] == ToBits(t, 2);
  }

  lemma BigPowers()
    ensures Pow2(54) == 0x40000000000000 && Pow2(132) == 0x1000000000000000000000000000000000
  {
    Pow2Small();
    hide Pow2;
    Pow2Add(16, 16);
    Pow2Add(32, 16);
    Pow2Add(48, 6);
    Pow2Add(32, 32);
    Pow2Add(64, 64);
    Pow2Add(128, 4);
  }

  lemma HeaderForm()
    ensures ValidHeader(HEADER)
    ensures HeaderBits(HEADER) == SizesBits(286, 8, 18) + ClBits(CL) + OpsBits(ClLens(CL), OPS)
  {
    OpsPlain();
    ClIs();
    hide SizesBits, ClBits, OpsBits, ClLens, ValidOp, Val;
  }

  lemma HeaderIs()
    ensures ValidHeader(HEADER)
    ensures var b := TypeBits(true, 2) + HeaderBits(HEADER);
            |b| == 132 && Val(b) == 0x774c8908fe4fdd6410200000000c9c7ed
  {
    hide *;
    HeaderForm();
    OpsNumber();
    ClCodeIs();
    ClIs();
    SizesIs();
    TypeIs(true, 2);
    EightIs();
    BigPowers();
    BitTrue();
    var sizes, cl, ops := SizesBits(286, 8, 18), ClBits(CL), OpsBits(ClCode(), OPS);
    Assoc(sizes, cl, ops);
    Joined(cl, ops, 0x40000000000000);
    Joined(sizes, cl + ops, 16384);
    Joined(TypeBits(true, 2), sizes + (cl + ops), 8);
  }

  lemma BitTrue()
    ensures Bit(true) == 1 && Bit(false) == 0
  {
  }

  // ----- the instructions of send_tree -----

  lemma RunIs(s: seq<nat>, k: nat)
    requires 0 < k <= |s| && (forall i :: 0 <= i < k ==> s[i] == s[0]) && (k < |s| ==> s[k] != s[0])
    ensures Run(s) == k
  {
  }

  lemma ZeroRun(s: seq<nat>, k: nat)
    requires 0 < k < |s| && (forall i :: 0 <= i < k ==> s[i] == 0) && s[k] != 0
    ensures RleFrom(s, false) == ZeroOps(k, false) + RleFrom(s[k..], false)
  {
    RunIs(s, k);
    RleUnfold(s, false);
    hide Run, RleFrom, ZeroOps;
  }

  lemma OneLen(s: seq<nat>)
    requires s != [] && s[0] != 0 && (|s| > 1 ==> s[1] != s[0])
    ensures RleFrom(s, false) == [LenOp(s[0])] + RleFrom(s[1..], false)
  {
    RunIs(s, 1);
    RleUnfold(s, false);
    assert RepeatOps(s[0], 0) == [] by { assert LenOps(s[0], 0) == []; }
    hide Run, RleFrom, RepeatOps;
  }

  lemma ZeroRuns()
    ensures ZeroOps(97, false) == [ManyZerosOp(97)] && ZeroOps(4, false) == [ZerosOp(4)]
    ensures ZeroOps(153, false) == [ManyZerosOp(138), ManyZerosOp(15)] && ZeroOps(28, false) == [ManyZerosOp(28)]
  {
    ZeroOpsUnfold(153, false);
  }

  lemma LitFrom(a: nat, k: nat)
    requires a <= 286 && a + k <= 286
    ensures LitCode()[a..][k..] == LitCode()[a + k..]
    ensures forall i :: 0 <= i < 286 - a ==> LitCode()[a..][i] == LitCode()[a + i]
  {
    hide LitCode;
  }

  lemma LitZeros(a: nat, k: nat)
    requires (a == 0 && k == 97) || (a == 98 && k == 4) || (a == 103 && k == 153) || (a == 257 && k == 28)
    ensures RleFrom(LitCode()[a..], false) == ZeroOps(k, false) + RleFrom(LitCode()[a + k..], false)
  {
    hide RleFrom, ZeroOps, Run;
    LitFrom(a, k);
    ZeroRun(LitCode()[a..], k);
  }

  lemma LitOne(a: nat)
    requires a == 97 || a == 102 || a == 256 || a == 285
    ensures RleFrom(LitCode()[a..], false) == [LenOp(LitCode()[a])] + RleFrom(LitCode()[a + 1..], false)
  {
    hide RleFrom;
    LitFrom(a, 1);
    OneLen(LitCode()[a..]);
  }

  lemma LitRle()
    ensures Rle(LitCode()) == OPS[..9]
  {
    hide *;
    ZeroRuns();
    LitAt(97);
    LitAt(102);
    LitAt(256);
    LitAt(285);
    LitZeros(0, 97);
    LitOne(97);
    LitZeros(98, 4);
    LitOne(102);
    LitZeros(103, 153);
    LitOne(256);
    LitZeros(257, 28);
    LitOne(285);
    RleNil(false);
    assert |LitCode()| == 286 && LitCode()[0..] == LitCode() && LitCode()[286..] == [];
    RleIs(LitCode());
    LitOps();
  }

  lemma RleIs(s: seq<nat>)
    ensures Rle(s) == RleFrom(s, false)
  {
  }

  lemma LitOps()
    ensures [ManyZerosOp(97)] + ([LenOp(2)] + ([ZerosOp(4)] + ([LenOp(3)] + ([ManyZerosOp(138), ManyZerosOp(15)] +
            ([LenOp(3)] + ([ManyZerosOp(28)] + ([LenOp(1)] + []))))))) == OPS[..9]
  {
  }

  lemma DistRle()
    ensures Rle(EightDist()) == OPS[9..]
  {
    var s := EightDist();
    RunIs(s, 8);
    RleUnfold(s, false);
    RleNil(false);
    EightOps();
    assert s[8..] == [];
  }

  lemma EightOps()
    ensures RepeatOps(3, 7) == [RepeatOp(6), LenOp(3)]
  {
    assert LenOps(3, 1) == [LenOp(3)];
  }

  // ----- the header -----

  lemma NoneLost()
    ensures Lost(LitCode()) == 0 && Lost(EightDist()) == 0
  {
    assert LitCode()[285] != 0;
    hide LitCode;
  }

  lemma HeaderExpands()
    ensures Expand(OPS) == LitCode() + EightDist() && |Expand(OPS)| == 294
    ensures LitLens(HEADER) == LitCode() && DistLens(HEADER) == EightDist()
  {
    LitRle();
    DistRle();
    NoneLost();
    hide Rle, Lost, LitCode, EightDist, Expand;
    SendTreeExpands(LitCode());
    assert OPS[..9] + OPS[9..] == OPS;
    RleExpandsAfter(Rle(LitCode()), EightDist());
    assert (LitCode() + EightDist())[..286] == LitCode() && (LitCode() + EightDist())[286..] == EightDist();
  }

  lemma RleExpandsAfter(a: seq<ClOp>, s: seq<nat>)
    requires Lost(s) == 0
    ensures Expand(a + Rle(s)) == Expand(a) + s
  {
    hide Expand, RleFrom, Lost;
    RleExpands(a, s, false);
    assert s[..|s|] == s;
  }

  lemma HeaderGood()
    ensures HeaderInRfc(HEADER) && AcceptsHeaderLens(HEADER) && Resent(HEADER) == HEADER
    ensures LitLens(HEADER) == LitCode() && DistLens(HEADER) == EightDist()
  {
    hide *;
    HeaderExpands();
    ClIs();
    ClCodeIs();
    ClKraft(19);
    LitAt(256);
    LitKraft(286);
    DistKraft(8);
    DistAt();
    OpsPlain();
    OpsUse();
    BothBounded(LitCode(), EightDist());
    HeaderFacts();
    MakeHeader();
    LitRle();
    DistRle();
    SameResent();
  }

  lemma OpsUse()
    ensures OpsCoded(ClCode(), OPS) && OPS != [] && !OPS[0].RepeatOp?
  {
  }

  lemma BothBounded(a: Lens, b: Lens)
    requires Bounded(a) && Bounded(b)
    ensures Bounded(a + b)
  {
  }

  lemma HeaderFacts()
    ensures HEADER.nlen == 286 && HEADER.ndist == 8 && HEADER.cl == CL && HEADER.ops == OPS
  {
  }

  lemma MakeHeader()
    requires |CL| == 18 && (forall v :: v in CL ==> v < 8) && ClLens(CL) == ClCode()
    requires |ClCode()| == 19 && Bounded(ClCode()) && Kraft(ClCode(), 19) == 32768
    requires ValidOps(OPS) && OpsCoded(ClCode(), OPS) && OPS != [] && !OPS[0].RepeatOp?
    requires Expand(OPS) == LitCode() + EightDist() && Bounded(LitCode() + EightDist()) && LitCode()[256] != 0
    requires LitLens(HEADER) == LitCode() && DistLens(HEADER) == EightDist()
    requires Bounded(LitCode()) && Kraft(LitCode(), 286) == 32768
    requires Bounded(EightDist()) && Kraft(EightDist(), 8) == 32768
    ensures HeaderInRfc(HEADER) && AcceptsHeaderLens(HEADER)
  {
    hide Expand, LitLens, DistLens, Kraft, Bounded, OpsCoded, ValidOp, ClLens, ClCode, LitCode, EightDist, OneBit;
  }

  lemma SameResent()
    requires AcceptsHeaderLens(HEADER) && LitLens(HEADER) == LitCode() && DistLens(HEADER) == EightDist()
    requires Rle(LitCode()) == OPS[..9] && Rle(EightDist()) == OPS[9..]
    ensures Resent(HEADER) == HEADER
  {
    hide Expand, Rle, LitCode, EightDist, LitLens, DistLens;
    assert OPS[..9] + OPS[9..] == OPS;
  }

  // ----- the tokens -----

  lemma Extras()
    ensures LenExtra(285) == 0 && DistExtra(0) == 0 && DistExtra(7) == 2 && LBase(28) == 258
    ensures DBase(0) == 1 && DBase(7) == 13 && LenExtra(266) == 1 && DistExtra(4) == 1 && LenExtra(257) == 0
    ensures LBase(9) == 13 && LBase(0) == 3 && DBase(4) == 5
  {
    Pow2Small();
    hide Pow2;
  }

  lemma ToksGood()
    ensures ValidToks(TOKS) && NoLongSpelling(TOKS)
  {
    Extras();
    Pow2Small();
    hide LenExtra, DistExtra, Pow2, LBase, DBase;
  }

  lemma ToksUse()
    ensures ValidToks(TOKS) && Coded(LitCode(), EightDist(), TOKS)
  {
    ToksGood();
    LitAt(97);
    LitAt(102);
    LitAt(256);
    LitAt(285);
    DistAt();
    hide LitCode, EightDist, ValidTok;
  }

  lemma MatchField(lc: Lens, dc: Lens, l: nat, x: nat, d: nat, y: nat)
    requires ValidTok(Match(l, x, d, y))
    ensures TokBits(lc, dc, Match(l, x, d, y)) ==
            SymBits(lc, l) + ToBits(x, LenExtra(l)) + SymBits(dc, d) + ToBits(y, DistExtra(d))
  {
    hide SymBits, ToBits;
  }

  lemma LitField(lc: Lens, dc: Lens, b: byte)
    ensures ValidTok(Lit(b)) && TokBits(lc, dc, Lit(b)) == SymBits(lc, b)
  {
  }

  lemma MatchesValid()
    ensures ValidTok(Match(285, 0, 0, 0)) && ValidTok(Match(285, 0, 7, 2)) && ValidTok(Lit(97)) && ValidTok(Lit(102))
  {
    ToksGood();
    assert TOKS[1] in TOKS && TOKS[3] in TOKS;
    hide ValidTok;
    LitField([], [], 97);
    LitField([], [], 102);
  }

  lemma NearMatch()
    ensures ValidTok(Match(285, 0, 0, 0))
    ensures TokBits(LitCode(), EightDist(), Match(285, 0, 0, 0)) == [false, false, false, false]
  {
    hide *;
    MatchesValid();
    Extras();
    LitSyms();
    DistSyms();
    MatchField(LitCode(), EightDist(), 285, 0, 0, 0);
    TwoBits();
  }

  lemma FarMatch()
    ensures ValidTok(Match(285, 0, 7, 2))
    ensures TokBits(LitCode(), EightDist(), Match(285, 0, 7, 2)) == [false, true, true, true, false, true]
  {
    hide *;
    MatchesValid();
    Extras();
    LitSyms();
    DistSyms();
    MatchField(LitCode(), EightDist(), 285, 0, 7, 2);
    TwoBits();
  }

  lemma TokenBits()
    ensures ValidToks(TOKS) && ValidTok(Lit(97)) && ValidTok(Lit(102))
    ensures TokBits(LitCode(), EightDist(), Lit(97)) == [true, false]
    ensures TokBits(LitCode(), EightDist(), Lit(102)) == [true, true, false]
  {
    hide *;
    ToksGood();
    LitSyms();
    LitField(LitCode(), EightDist(), 97);
    LitField(LitCode(), EightDist(), 102);
  }

  lemma TwoBits()
    ensures ToBits(0, 0) == [] && ToBits(2, 2) == [false, true] && ToBits(1, 1) == [true]
  {
  }

  lemma ToksForm(lc: Lens, dc: Lens, a: Tok, b: Tok, c: Tok, d: Tok)
    requires ValidTok(a) && ValidTok(b) && ValidTok(c) && ValidTok(d)
    ensures ValidToks([a, b, c, d])
    ensures ToksBits(lc, dc, [a, b, c, d]) == TokBits(lc, dc, a) + (TokBits(lc, dc, b) + (TokBits(lc, dc, c) +
            (TokBits(lc, dc, d) + SymBits(lc, 256))))
  {
    hide TokBits, ValidTok, SymBits;
    EndBits(lc, dc);
    ToksBitsCons(lc, dc, d, []);
    ToksBitsCons(lc, dc, c, [d]);
    ToksBitsCons(lc, dc, b, [c, d]);
    ToksBitsCons(lc, dc, a, [b, c, d]);
    hide ToksBits;
    assert [d] + [] == [d] && [c] + [d] == [c, d] && [b] + [c, d] == [b, c, d] && [a] + [b, c, d] == [a, b, c, d];
  }

  lemma BodyIs()
    ensures ValidToks(TOKS)
    ensures ToksBits(LitCode(), EightDist(), TOKS) ==
            [true, false, false, false, false, false, true, true, false, false, true, true, true, false, true,
             true, true, true]
  {
    hide *;
    TokenBits();
    NearMatch();
    FarMatch();
    LitSyms();
    ToksForm(LitCode(), EightDist(), Lit(97), Match(285, 0, 0, 0), Lit(102), Match(285, 0, 7, 2));
    ToksAre();
  }

  lemma ToksAre()
    ensures TOKS == [Lit(97), Match(285, 0, 0, 0), Lit(102), Match(285, 0, 7, 2)]
  {
  }

  lemma FirstBit(a: bool, b: Bits)
    ensures Val([a] + b) == Bit(a) + 2 * Val(b) && Val([]) == 0
  {
    assert ([a] + b)[1..] == b;
  }

  lemma ThreeBits(a: bool, b: bool, c: bool)
    ensures Val([a, b, c]) == Bit(a) + 2 * Bit(b) + 4 * Bit(c)
  {
    hide Val, Bit;
    FirstBit(c, []);
    FirstBit(b, [c]);
    FirstBit(a, [b, c]);
    assert [c] + [] == [c] && [b] + [c] == [b, c] && [a] + [b, c] == [a, b, c];
  }

  lemma SixBits(a: bool, b: bool, c: bool, d: bool, e: bool, f: bool)
    ensures Val([a, b, c, d, e, f]) ==
            Bit(a) + 2 * Bit(b) + 4 * Bit(c) + 8 * Bit(d) + 16 * Bit(e) + 32 * Bit(f)
  {
    hide *;
    ThreeBits(a, b, c);
    ThreeBits(d, e, f);
    EightIs();
    Joined([a, b, c], [d, e, f], 8);
    assert [a, b, c] + [d, e, f] == [a, b, c, d, e, f];
  }

  lemma BodyNumber()
    ensures Val([true, false, false, false, false, false, true, true, false, false, true, true, true, false, true,
                 true, true, true]) == 0x3dcc1
  {
    var a, b := [true, false, false, false, false, false], [true, true, false, false, true, true];
    var c := [true, false, true, true, true, true];
    hide *;
    Pow2Small();
    BitTrue();
    SixBits(true, false, false, false, false, false);
    SixBits(true, true, false, false, true, true);
    SixBits(true, false, true, true, true, true);
    Joined(b, c, 64);
    Joined(a, b + c, 64);
    assert a + (b + c) == [true, false, false, false, false, false, true, true, false, false, true, true, true, false,
                           true, true, true, true];
  }

  // ----- the bytes -----

  lemma LittleStep(s: seq<byte>, k: nat)
    requires k < |s|
    ensures Little(s[k..]) == s[k] + 256 * Little(s[k + 1..])
  {
    assert s[k..][1..] == s[k + 1..];
  }

  lemma LittleFour(s: seq<byte>, k: nat)
    requires k + 4 <= |s|
    ensures Little(s[k..]) == s[k] + 256 * s[k + 1] + 65536 * s[k + 2] + 16777216 * s[k + 3] +
            4294967296 * Little(s[k + 4..])
  {
    hide Little;
    LittleStep(s, k);
    LittleStep(s, k + 1);
    LittleStep(s, k + 2);
    LittleStep(s, k + 3);
  }

  lemma LittleEnd(s: seq<byte>)
    requires |s| > 0
    ensures Little([]) == 0 && s[|s|..] == [] && Little(s[|s| - 1..]) == s[|s| - 1]
    ensures |s| >= 3 ==>
              Little(s[|s| - 3..]) == s[|s| - 3] as int + 256 * s[|s| - 2] as int + 65536 * s[|s| - 1] as int
  {
    assert Little([]) == 0;
    hide Little;
    assert s[|s|..] == [];
    LittleStep(s, |s| - 1);
    if |s| >= 3 {
      LittleStep(s, |s| - 2);
      LittleStep(s, |s| - 3);
    }
  }

  lemma BytesNumber()
    ensures |BYTES| == 19 && Little(BYTES) == 0x3dcc1774c8908fe4fdd6410200000000c9c7ed
  {
    hide Little;
    assert BYTES[0..] == BYTES;
    LittleEnd(BYTES);
    LittleFour(BYTES, 12);
    LittleFour(BYTES, 8);
    LittleFour(BYTES, 4);
    LittleFour(BYTES, 0);
  }

  lemma HeadNumber()
    ensures |BYTES| == 19 && Little(BYTES[..16] + [0x07]) == 0x774c8908fe4fdd6410200000000c9c7ed
  {
    hide Little;
    var s := BYTES[..16] + [0x07];
    assert s[0..] == s;
    LittleEnd(s);
    LittleFour(s, 12);
    LittleFour(s, 8);
    LittleFour(s, 4);
    LittleFour(s, 0);
  }

  lemma BlockForm()
    ensures ValidBlock(DYNAMIC) && DYNAMIC.last
    ensures BlockBits(DYNAMIC) == TypeBits(true, 2) + HeaderBits(HEADER) + ToksBits(LitCode(), EightDist(), TOKS)
    ensures InsBlock(DYNAMIC) == Pack(TypeBits(true, 2) + HeaderBits(HEADER)) + [0xaa, 0xff] + InsToks(TOKS) +
            [0xaa, 0xff]
  {
    HeaderForm();
    HeaderExpands();
    ToksGood();
    hide HeaderBits, ToksBits, TypeBits, Expand, LitLens, DistLens, InsToks, Pack, ValidTok, ValidHeader, LitCode,
        EightDist;
  }

  lemma PadValue(b: Bits, n: nat)
    ensures Val(b + Zeros(n)) == Val(b) && |b + Zeros(n)| == |b| + n
  {
    ValAppend(b, Zeros(n));
    ValZeros(n);
  }

  /** The block is the 19 bytes. */
  lemma BlockBytes()
    ensures ValidBlock(DYNAMIC) && |BlockBits(DYNAMIC)| == 150
    ensures BlockBits(DYNAMIC) + [false, false] == ByteBits(BYTES)
  {
    hide *;
    BlockForm();
    HeaderIs();
    BodyIs();
    BodyNumber();
    BigPowers();
    Joined(TypeBits(true, 2) + HeaderBits(HEADER), ToksBits(LitCode(), EightDist(), TOKS),
           0x1000000000000000000000000000000000);
    PadValue(BlockBits(DYNAMIC), 2);
    BytesNumber();
    assert Zeros(2) == [false, false] by { TwoZeros(); }
    SameBytes(BlockBits(DYNAMIC) + Zeros(2), BYTES);
  }

  lemma TwoZeros()
    ensures Zeros(2) == [false, false] && Pad(132) == 4 && Pad(150) == 2 && |Zeros(4)| == 4
  {
  }

  lemma HeadBytes()
    ensures ValidHeader(HEADER) && Pack(TypeBits(true, 2) + HeaderBits(HEADER)) == BYTES[..16] + [0x07]
  {
    hide *;
    HeaderIs();
    HeadNumber();
    var b := TypeBits(true, 2) + HeaderBits(HEADER);
    TwoZeros();
    PadValue(b, 4);
    SameBytes(b + Zeros(4), BYTES[..16] + [0x07]);
    PackBits(b);
    ByteBitsInjective(Pack(b), BYTES[..16] + [0x07]);
  }

  lemma ToksIns()
    ensures ValidToks(TOKS)
    ensures InsToks(TOKS) == [0x61, 0xaa, 0x00, 0x01, 0xff, 0x66, 0xaa, 0x00, 0x0f, 0xff]
  {
    ToksGood();
    Extras();
    hide Pow2, LenExtra, DistExtra, LBase, DBase;
    assert TOKS[1..] == [Match(285, 0, 0, 0), Lit(102), Match(285, 0, 7, 2)];
    InsToksCons(Match(285, 0, 7, 2), []);
    InsToksCons(Lit(102), [Match(285, 0, 7, 2)]);
    InsToksCons(Match(285, 0, 0, 0), [Lit(102), Match(285, 0, 7, 2)]);
    InsToksCons(Lit(97), [Match(285, 0, 0, 0), Lit(102), Match(285, 0, 7, 2)]);
  }

  // ----- streams -----

  /** What is known of a stream whose bytes are the bits of these blocks, filled up with zero bits. */
  lemma Known(s: seq<byte>, bs: seq<Block>, rest: Bits)
    requires LastOnly(bs) && BlocksInRfc(0, bs) && ValidBlocks(bs) && ByteBits(s) == StreamBits(bs) + rest
    requires |rest| < 8 && rest == Zeros(|rest|) && (forall b :: b in bs ==> Ordinary(b))
    requires WritableAll(bs) ==> CanonicalStream(0, bs)
    ensures ReadStream(ByteBits(s)) == Ok(bs, rest)
    ensures Decode(s) == Trace(InsStream(bs), Finished([]))
    ensures Encode(InsStream(bs)) == BitTrace(ByteBits(s), EncoderSpec.Written([]))
  {
    hide *;
    StreamRead(s, bs, rest);
    EncodeDecode(s, bs, rest);
    OrdinaryManageable(0, bs);
    NoneAligned(rest);
    MakeBack(bs, rest);
    assert Encode(Decode(s).out).out + [] == Encode(Decode(s).out).out;
  }

  lemma NoneAligned(rest: Bits)
    requires |rest| < 8
    ensures Aligned(rest) == []
  {
  }

  lemma MakeBack(bs: seq<Block>, rest: Bits)
    requires WritableAll(bs) && CanonicalStream(0, bs) && |rest| < 8 && rest == Zeros(|rest|)
    ensures ComesBack(bs, rest)
  {
    hide CanonicalStream;
    assert rest[..|rest| % 8] == rest;
  }

  lemma DynamicGood(n: nat)
    ensures BlockInRfc(n, DYNAMIC) && Ordinary(DYNAMIC) && ValidBlock(DYNAMIC) && DYNAMIC.last
    ensures Writable(DYNAMIC) && Canonical(n, DYNAMIC)
  {
    BlockForm();
    HeaderGood();
    ToksGood();
    ToksUse();
    hide HeaderInRfc, Coded, LitCode, EightDist, Expand, LitLens, DistLens, NoLongSpelling, ValidTok, ValidHeader, Rle;
    HeaderSame(HEADER);
  }

  /** A stored block with the bytes a, 0xaa and b, with more blocks to come. */
  const STORED := StoredBlock(false, [false, false, false, false, false], [0x61, 0xaa, 0x62])

  const STOREDBYTES: seq<byte> := [0x00, 0x03, 0x00, 0xfc, 0xff, 0x61, 0xaa, 0x62]

  lemma StoredGood()
    ensures BlockInRfc(0, STORED) && Ordinary(STORED) && ValidBlock(STORED) && !STORED.last
    ensures Writable(STORED) && Canonical(0, STORED)
  {
    assert Zeros(5) == [false, false, false, false, false];
    hide Zeros;
  }

  lemma LensBytes()
    ensures StoredLens(3) == ByteBits([0x03, 0x00, 0xfc, 0xff])
  {
    Pow2Small();
    ValToBits(3, 16);
    ValToBits(65532, 16);
    hide ToBits, Val, Pow2;
    Joined(ToBits(3, 16), ToBits(65532, 16), 65536);
    LittleFour([0x03, 0x00, 0xfc, 0xff], 0);
    LittleEnd([0x03, 0x00, 0xfc, 0xff]);
    assert [0x03, 0x00, 0xfc, 0xff][0..] == [0x03, 0x00, 0xfc, 0xff];
    SameBytes(StoredLens(3), [0x03, 0x00, 0xfc, 0xff]);
  }

  lemma ZeroType()
    ensures TypeBits(false, 0) + [false, false, false, false, false] == ByteBits([0x00])
    ensures Pack(TypeBits(false, 0)) == [0x00]
  {
    TypeIs(false, 0);
    PadValue(TypeBits(false, 0), 5);
    LittleEnd([0x00]);
    assert Zeros(5) == [false, false, false, false, false];
    hide Val, Little, ByteBits, Pack, Zeros;
    var b := TypeBits(false, 0) + Zeros(5);
    SameBytes(b, [0x00]);
    PackBits(TypeBits(false, 0));
    PadFive();
    ByteBitsInjective(Pack(TypeBits(false, 0)), [0x00]);
  }

  lemma PadFive()
    ensures Pad(3) == 5
  {
  }

  lemma StoredForm()
    ensures ValidBlock(STORED)
    ensures BlockBits(STORED) == TypeBits(false, 0) + [false, false, false, false, false] + StoredLens(3) +
            ByteBits([0x61, 0xaa, 0x62])
    ensures InsBlock(STORED) ==
            Pack(TypeBits(false, 0)) + (Pack(StoredLens(3)) + [0xaa, 0xff]) + [0x61, 0xaa, 0x62] + [0xaa, 0xff]
  {
    hide StoredLens, ByteBits, TypeBits, Pack;
  }

  lemma StoredBytes()
    ensures ValidBlock(STORED) && BlockBits(STORED) == ByteBits(STOREDBYTES) && |BlockBits(STORED)| == 64
    ensures InsBlock(STORED) == [0x00, 0x03, 0x00, 0xfc, 0xff, 0xaa, 0xff, 0x61, 0xaa, 0x62, 0xaa, 0xff]
  {
    hide *;
    StoredForm();
    LensBytes();
    ZeroType();
    var lens: seq<byte> := [0x03, 0x00, 0xfc, 0xff];
    PackByteBits(lens);
    ByteBitsAppend([0x00], lens);
    ByteBitsAppend([0x00] + lens, [0x61, 0xaa, 0x62]);
    StoredJoined();
    assert |ByteBits(STOREDBYTES)| == 8 * |STOREDBYTES|;
  }

  lemma StoredJoined()
    ensures ([0x00] + [0x03, 0x00, 0xfc, 0xff]) + [0x61, 0xaa, 0x62] == STOREDBYTES && |STOREDBYTES| == 8
    ensures [0x00] + ([0x03, 0x00, 0xfc, 0xff] + [0xaa, 0xff]) + [0x61, 0xaa, 0x62] + [0xaa, 0xff] ==
            [0x00, 0x03, 0x00, 0xfc, 0xff, 0xaa, 0xff, 0x61, 0xaa, 0x62, 0xaa, 0xff]
  {
  }

  /**
    A stored block and a dynamic block, as they stand in a file: what the decoder writes for these 27 bytes,
    and that the encoder makes the same 27 bytes of it.  They inflate to a, 0xaa, b, 259 times a, f and the
    258 bytes that start 15 bytes before.
   */
  lemma StoredAndDynamic()
    ensures var s: seq<byte> :=
              [0x00, 0x03, 0x00, 0xfc, 0xff, 0x61, 0xaa, 0x62] +
              [0xed, 0xc7, 0xc9, 0x00, 0x00, 0x00, 0x00, 0x02, 0x41, 0xd6, 0xfd, 0xe4, 0x8f, 0x90, 0xc8, 0x74, 0x17,
               0xcc, 0x3d];
            var ins: seq<byte> :=
              [0x00, 0x03, 0x00, 0xfc, 0xff, 0xaa, 0xff, 0x61, 0xaa, 0x62, 0xaa, 0xff] +
              [0xed, 0xc7, 0xc9, 0x00, 0x00, 0x00, 0x00, 0x02, 0x41, 0xd6, 0xfd, 0xe4, 0x8f, 0x90, 0xc8, 0x74, 0x07,
               0xaa, 0xff, 0x61, 0xaa, 0x00, 0x01, 0xff, 0x66, 0xaa, 0x00, 0x0f, 0xff, 0xaa, 0xff];
            && ReadStream(ByteBits(s)) == Ok([STORED, DYNAMIC], [false, false])
            && Decode(s) == Trace(ins, Finished([]))
            && Encode(ins) == BitTrace(ByteBits(s), EncoderSpec.Written([]))
  {
    hide *;
    var bs := [STORED, DYNAMIC];
    StoredGood();
    StoredBytes();
    DynamicGood(64);
    BlockBytes();
    BothBlocks();
    ByteBitsAppend(STOREDBYTES, BYTES);
    Assoc(BlockBits(STORED), BlockBits(DYNAMIC), [false, false]);
    TwoZeros();
    Known(STOREDBYTES + BYTES, bs, [false, false]);
    TwoBlockIns();
    BothBytes();
  }

  lemma BothBytes()
    ensures STOREDBYTES + BYTES ==
            [0x00, 0x03, 0x00, 0xfc, 0xff, 0x61, 0xaa, 0x62] +
            [0xed, 0xc7, 0xc9, 0x00, 0x00, 0x00, 0x00, 0x02, 0x41, 0xd6, 0xfd, 0xe4, 0x8f, 0x90, 0xc8, 0x74, 0x17,
             0xcc, 0x3d]
  {
  }

  lemma BothBlocks()
    requires ValidBlock(STORED) && ValidBlock(DYNAMIC) && |BlockBits(STORED)| == 64
    requires BlockInRfc(0, STORED) && BlockInRfc(64, DYNAMIC) && !STORED.last && DYNAMIC.last
    requires Ordinary(STORED) && Ordinary(DYNAMIC)
    requires Writable(STORED) && Canonical(0, STORED) && Writable(DYNAMIC) && Canonical(64, DYNAMIC)
    ensures var bs := [STORED, DYNAMIC];
            && ValidBlocks(bs) && LastOnly(bs) && BlocksInRfc(0, bs) && StreamBits(bs) == BlockBits(STORED) +
                BlockBits(DYNAMIC)
            && (forall b :: b in bs ==> Ordinary(b)) && WritableAll(bs) && CanonicalStream(0, bs)
  {
    hide BlockBits, ValidBlock, BlockInRfc, Ordinary, Writable, Canonical, STORED, DYNAMIC;
    assert [STORED, DYNAMIC][1..] == [DYNAMIC] && [DYNAMIC][1..] == [];
    assert BlocksInRfc(64 + |BlockBits(DYNAMIC)|, []);
    assert BlocksInRfc(64, [DYNAMIC]);
    assert CanonicalStream(64 + |BlockBits(DYNAMIC)|, []);
    assert CanonicalStream(64, [DYNAMIC]);
    StreamBitsNil();
    assert StreamBits([DYNAMIC]) == BlockBits(DYNAMIC) + [];
  }

  lemma DynamicIns()
    ensures ValidBlock(DYNAMIC)
    ensures InsBlock(DYNAMIC) ==
            [0xed, 0xc7, 0xc9, 0x00, 0x00, 0x00, 0x00, 0x02, 0x41, 0xd6, 0xfd, 0xe4, 0x8f, 0x90, 0xc8, 0x74, 0x07,
             0xaa, 0xff, 0x61, 0xaa, 0x00, 0x01, 0xff, 0x66, 0xaa, 0x00, 0x0f, 0xff, 0xaa, 0xff]
  {
    hide *;
    BlockForm();
    HeadBytes();
    ToksIns();
    HeadOf();
    var head, toks := BYTES[..16], InsToks(TOKS);
    Assoc(head, [0x07], [0xaa, 0xff]);
    Assoc(head, [0x07] + [0xaa, 0xff], toks);
    Assoc(head, [0x07] + [0xaa, 0xff] + toks, [0xaa, 0xff]);
  }

  lemma TwoBlockIns()
    ensures ValidBlocks([STORED, DYNAMIC])
    ensures InsStream([STORED, DYNAMIC]) ==
            [0x00, 0x03, 0x00, 0xfc, 0xff, 0xaa, 0xff, 0x61, 0xaa, 0x62, 0xaa, 0xff] +
            [0xed, 0xc7, 0xc9, 0x00, 0x00, 0x00, 0x00, 0x02, 0x41, 0xd6, 0xfd, 0xe4, 0x8f, 0x90, 0xc8, 0x74, 0x07,
             0xaa, 0xff, 0x61, 0xaa, 0x00, 0x01, 0xff, 0x66, 0xaa, 0x00, 0x0f, 0xff, 0xaa, 0xff]
  {
    hide *;
    StoredBytes();
    DynamicIns();
    NoneIns();
    InsStreamCons(DYNAMIC, []);
    InsStreamCons(STORED, [DYNAMIC]);
    assert [DYNAMIC] + [] == [DYNAMIC] && [STORED] + [DYNAMIC] == [STORED, DYNAMIC];
    assert InsBlock(DYNAMIC) + [] == InsBlock(DYNAMIC);
  }

  lemma HeadOf()
    ensures |BYTES| == 19 && BYTES[..16] == [0xed, 0xc7, 0xc9, 0x00, 0x00, 0x00, 0x00, 0x02, 0x41, 0xd6, 0xfd, 0xe4,
                                            0x8f, 0x90, 0xc8, 0x74]
  {
  }

  lemma NoneIns()
    ensures ValidBlocks([]) && InsStream([]) == []
  {
  }

  // ----- a block with the fixed codes -----

  const FIXEDTOKS := [Lit(97), Lit(170), Match(266, 1, 0, 0), Match(280, 5, 1, 0)]

  const FIXED := FixedBlock(true, FIXEDTOKS)

  const FIXEDBYTES: seq<byte> := [0x4b, 0x5c, 0x85, 0x0a, 0x06, 0x0a, 0x02, 0x00]

  lemma CodeMore(c: nat, n: nat, x: bool, y: bool, z: bool, w: bool)
    ensures MsbBits(16 * c + 8 * Bit(x) + 4 * Bit(y) + 2 * Bit(z) + Bit(w), n + 4) == MsbBits(c, n) + [x, y, z, w]
  {
    hide MsbBits, Bit;
    MsbBitsPush(c, n, x);
    MsbBitsPush(2 * c + Bit(x), n + 1, y);
    MsbBitsPush(4 * c + 2 * Bit(x) + Bit(y), n + 2, z);
    MsbBitsPush(8 * c + 4 * Bit(x) + 2 * Bit(y) + Bit(z), n + 3, w);
  }

  lemma FixedAt()
    ensures FixedLit()[97] == FixedLit()[280] == 8 && FixedLit()[170] == 9 && FixedLit()[266] == FixedLit()[256] == 7
    ensures FixedDist()[0] == FixedDist()[1] == 5
    ensures FirstCode(FixedLit(), 7) == 0 && FirstCode(FixedLit(), 8) == 48 && FirstCode(FixedLit(), 9) == 400
    ensures FirstCode(FixedDist(), 5) == 0
  {
    FixedEnds(6);
    FixedEnds(7);
    FixedEnds(8);
    FixedDistEnds(4);
    hide EndCode, CountTo;
  }

  lemma FixedSyms()
    ensures SymBits(FixedLit(), 97) == [true, false, false, true, false, false, false, true]
    ensures SymBits(FixedLit(), 170) == [true, true, false, true, false, true, false, true, false]
    ensures SymBits(FixedLit(), 280) == [true, true, false, false, false, false, false, false]
  {
    hide *;
    FixedAt();
    BitTrue();
    FixedCount(97, 8);
    SymIs(FixedLit(), 97, 8, 97);
    Code4(true, false, false, true);
    CodeMore(9, 4, false, false, false, true);
    FixedCount(170, 9);
    SymIs(FixedLit(), 170, 9, 26);
    Code1(true);
    CodeMore(1, 1, true, false, true, false);
    CodeMore(26, 5, true, false, true, false);
    FixedCount(280, 8);
    SymIs(FixedLit(), 280, 8, 144);
    Code4(true, true, false, false);
    CodeMore(12, 4, false, false, false, false);
  }

  lemma ShortSyms()
    ensures SymBits(FixedLit(), 266) == [false, false, false, true, false, true, false]
    ensures SymBits(FixedLit(), 256) == [false, false, false, false, false, false, false]
    ensures SymBits(FixedDist(), 0) == [false, false, false, false, false]
    ensures SymBits(FixedDist(), 1) == [false, false, false, false, true]
  {
    hide *;
    FixedAt();
    BitTrue();
    FixedCount(266, 7);
    SymIs(FixedLit(), 266, 7, 10);
    Code3(false, false, false);
    CodeMore(0, 3, true, false, true, false);
    FixedCount(256, 7);
    SymIs(FixedLit(), 256, 7, 0);
    CodeMore(0, 3, false, false, false, false);
    FixedDistCount(0, 5);
    SymIs(FixedDist(), 0, 5, 0);
    Code1(false);
    CodeMore(0, 1, false, false, false, false);
    FixedDistCount(1, 5);
    SymIs(FixedDist(), 1, 5, 1);
    CodeMore(0, 1, false, false, false, true);
  }

  lemma FixedExtras()
    ensures LenExtra(266) == 1 && LenExtra(280) == 4 && DistExtra(0) == 0 && DistExtra(1) == 0
    ensures LBase(9) == 13 && LBase(23) == 115 && DBase(0) == 1 && DBase(1) == 2
    ensures ToBits(1, 1) == [true] && ToBits(5, 4) == [true, false, true, false] && ToBits(0, 0) == []
    ensures Pow2(1) == 2 && Pow2(4) == 16 && Pow2(0) == 1
  {
    Pow2Small();
    hide Pow2;
  }

  lemma FixedToksGood()
    ensures ValidToks(FIXEDTOKS) && NoLongSpelling(FIXEDTOKS)
    ensures ValidTok(Lit(97)) && ValidTok(Lit(170)) && ValidTok(Match(266, 1, 0, 0)) && ValidTok(Match(280, 5, 1, 0))
  {
    FixedExtras();
    hide LenExtra, DistExtra, Pow2, LBase, DBase, ToBits;
  }

  /** The tokens' bits as numbers. */
  lemma FixedTokens()
    ensures ValidToks(FIXEDTOKS)
    ensures ToksBits(FixedLit(), FixedDist(), FIXEDTOKS) ==
            [true, false, false, true, false, false, false, true] +
            ([true, true, false, true, false, true, false, true, false] +
             ([false, false, false, true, false, true, false, true, false, false, false, false, false] +
              ([true, true, false, false, false, false, false, false, true, false, true, false, false, false, false,
                false, true] +
               [false, false, false, false, false, false, false])))
  {
    hide *;
    FixedToksGood();
    FixedToksAre();
    FixedSyms();
    ShortSyms();
    FixedExtras();
    LitField(FixedLit(), FixedDist(), 97);
    LitField(FixedLit(), FixedDist(), 170);
    MatchField(FixedLit(), FixedDist(), 266, 1, 0, 0);
    MatchField(FixedLit(), FixedDist(), 280, 5, 1, 0);
    ToksForm(FixedLit(), FixedDist(), Lit(97), Lit(170), Match(266, 1, 0, 0), Match(280, 5, 1, 0));
    FixedPieces();
  }

  lemma FixedToksAre()
    ensures FIXEDTOKS == [Lit(97), Lit(170), Match(266, 1, 0, 0), Match(280, 5, 1, 0)]
  {
  }

  lemma FixedPieces()
    ensures [false, false, false, true, false, true, false] + [true] + [false, false, false, false, false] + [] ==
            [false, false, false, true, false, true, false, true, false, false, false, false, false]
    ensures [true, true, false, false, false, false, false, false] + [true, false, true, false] +
            [false, false, false, false, true] + [] ==
            [true, true, false, false, false, false, false, false, true, false, true, false, false, false, false,
             false, true]
  {
  }

  lemma ValMore(a: bool, b: bool, c: bool, d: bool, t: Bits)
    ensures Val([a, b, c, d] + t) == Bit(a) + 2 * Bit(b) + 4 * Bit(c) + 8 * Bit(d) + 16 * Val(t)
  {
    hide Val, Bit;
    FirstBit(d, t);
    FirstBit(c, [d] + t);
    FirstBit(b, [c] + ([d] + t));
    FirstBit(a, [b] + ([c] + ([d] + t)));
    assert [a] + ([b] + ([c] + ([d] + t))) == [a, b, c, d] + t;
  }

  lemma FixedVals()
    ensures Val([true, false, false, true, false, false, false, true]) == 137
    ensures Val([true, true, false, true, false, true, false, true, false]) == 171
    ensures Val([false, false, false, false, false, false, false]) == 0
  {
    hide *;
    BitTrue();
    NoBits();
    ValMore(false, false, false, true, []);
    ValMore(true, false, false, true, [false, false, false, true]);
    ThreeBits(false, true, false);
    Split9();
    ValMore(false, true, false, true, [false]);
    FirstBit(false, []);
    ValMore(true, true, false, true, [false, true, false, true] + [false]);
    ThreeBits(false, false, false);
    ValMore(false, false, false, false, [false, false, false]);
  }

  lemma Split9()
    ensures [false, false, false, true] + [] == [false, false, false, true] && [false] + [] == [false]
    ensures [true, false, false, true] + [false, false, false, true] ==
            [true, false, false, true, false, false, false, true]
    ensures [true, true, false, true] + ([false, true, false, true] + [false]) ==
            [true, true, false, true, false, true, false, true, false]
    ensures [false, false, false, false] + [false, false, false] == [false, false, false, false, false, false, false]
  {
  }

  lemma MatchVals()
    ensures Val([false, false, false, true, false, true, false, true, false, false, false, false, false]) == 168
    ensures Val([true, true, false, false, false, false, false, false, true, false, true, false, false, false, false,
                 false, true]) == 66819
  {
    hide *;
    BitTrue();
    Split17();
    FirstBit(false, []);
    FirstBit(true, []);
    ValMore(false, false, false, false, [false]);
    ValMore(false, true, false, true, [false, false, false, false] + [false]);
    ValMore(false, false, false, true, [false, true, false, true] + ([false, false, false, false] + [false]));
    ValMore(false, false, false, false, [true]);
    ValMore(true, false, true, false, [false, false, false, false] + [true]);
    ValMore(false, false, false, false, [true, false, true, false] + ([false, false, false, false] + [true]));
    ValMore(true, true, false, false,
            [false, false, false, false] + ([true, false, true, false] + ([false, false, false, false] + [true])));
  }

  lemma Split17()
    ensures [false] + [] == [false] && [true] + [] == [true]
    ensures [false, false, false, true] + ([false, true, false, true] + ([false, false, false, false] + [false])) ==
            [false, false, false, true, false, true, false, true, false, false, false, false, false]
    ensures [true, true, false, false] + ([false, false, false, false] + ([true, false, true, false] +
            ([false, false, false, false] + [true]))) ==
            [true, true, false, false, false, false, false, false, true, false, true, false, false, false, false,
             false, true]
  {
  }

  lemma FixedForm()
    ensures ValidBlock(FIXED) && FIXED.last
    ensures BlockBits(FIXED) == TypeBits(true, 1) + ToksBits(FixedLit(), FixedDist(), FIXEDTOKS)
    ensures InsBlock(FIXED) == Pack(TypeBits(true, 1)) + [0xaa, 0xff] + InsToks(FIXEDTOKS) + [0xaa, 0xff]
  {
    FixedToksGood();
    hide ToksBits, TypeBits, InsToks, Pack, ValidTok, FixedLit, FixedDist;
  }

  lemma FixedNumber()
    ensures |FIXEDBYTES| == 8 && Little(FIXEDBYTES) == 0x20a060a855c4b
  {
    hide Little;
    assert FIXEDBYTES[0..] == FIXEDBYTES;
    LittleEnd(FIXEDBYTES);
    LittleFour(FIXEDBYTES, 4);
    LittleFour(FIXEDBYTES, 0);
  }

  lemma Powers()
    ensures Pow2(3) == 8 && Pow2(8) == 256 && Pow2(9) == 512 && Pow2(13) == 8192 && Pow2(17) == 131072
  {
    Pow2Small();
    hide Pow2;
    Pow2Add(16, 1);
  }

  lemma FixedBits()
    ensures ValidBlock(FIXED) && |BlockBits(FIXED)| == 57 && Val(BlockBits(FIXED)) == 0x20a060a855c4b
  {
    hide *;
    FixedForm();
    FixedTokens();
    FixedVals();
    MatchVals();
    Powers();
    BitTrue();
    TypeIs(true, 1);
    var a, b := [true, false, false, true, false, false, false, true],
        [true, true, false, true, false, true, false, true, false];
    var c := [false, false, false, true, false, true, false, true, false, false, false, false, false];
    var d := [true, true, false, false, false, false, false, false, true, false, true, false, false, false, false,
              false, true];
    var e := [false, false, false, false, false, false, false];
    Joined(d, e, 131072);
    Joined(c, d + e, 8192);
    Joined(b, c + (d + e), 512);
    Joined(a, b + (c + (d + e)), 256);
    Joined(TypeBits(true, 1), a + (b + (c + (d + e))), 8);
  }

  lemma FixedBlockBytes()
    ensures ValidBlock(FIXED) && BlockBits(FIXED) + Zeros(7) == ByteBits(FIXEDBYTES)
  {
    hide *;
    FixedBits();
    FixedNumber();
    PadValue(BlockBits(FIXED), 7);
    SameBytes(BlockBits(FIXED) + Zeros(7), FIXEDBYTES);
  }

  lemma FixedHead()
    ensures Pack(TypeBits(true, 1)) == [0x03]
  {
    hide *;
    TypeIs(true, 1);
    BitTrue();
    PadValue(TypeBits(true, 1), 5);
    PadFive();
    LittleEnd([0x03]);
    assert [0x03][0..] == [0x03];
    SameBytes(TypeBits(true, 1) + Zeros(5), [0x03]);
    PackBits(TypeBits(true, 1));
    ByteBitsInjective(Pack(TypeBits(true, 1)), [0x03]);
  }

  lemma FixedIns()
    ensures ValidToks(FIXEDTOKS)
    ensures InsToks(FIXEDTOKS) == [0x61, 0xaa, 0xaa, 0xaa, 0x00, 0x01, 0x0b, 0xaa, 0x00, 0x02, 0x75]
  {
    FixedToksGood();
    FixedExtras();
    hide Pow2, LenExtra, DistExtra, LBase, DBase, ToBits;
    InsToksCons(Match(280, 5, 1, 0), []);
    InsToksCons(Match(266, 1, 0, 0), [Match(280, 5, 1, 0)]);
    InsToksCons(Lit(170), [Match(266, 1, 0, 0), Match(280, 5, 1, 0)]);
    InsToksCons(Lit(97), [Lit(170), Match(266, 1, 0, 0), Match(280, 5, 1, 0)]);
  }

  lemma FixedGood()
    ensures BlockInRfc(0, FIXED) && Ordinary(FIXED) && ValidBlock(FIXED) && FIXED.last
    ensures Writable(FIXED) && Canonical(0, FIXED)
  {
    FixedToksGood();
    FixedUse();
    hide Coded, FixedLit, FixedDist, NoLongSpelling, ValidTok;
  }

  lemma FixedUse()
    ensures Coded(FixedLit(), FixedDist(), FIXEDTOKS)
  {
    FixedAt();
    hide FixedLit, FixedDist, FirstCode;
    assert |FixedLit()| == 288 && |FixedDist()| == 32;
  }

  lemma OneFixed()
    requires ValidBlock(FIXED) && BlockInRfc(0, FIXED) && FIXED.last && Ordinary(FIXED)
    requires Writable(FIXED) && Canonical(0, FIXED)
    ensures var bs := [FIXED];
            && ValidBlocks(bs) && LastOnly(bs) && BlocksInRfc(0, bs) && StreamBits(bs) == BlockBits(FIXED)
            && (forall b :: b in bs ==> Ordinary(b)) && WritableAll(bs) && CanonicalStream(0, bs)
            && InsStream(bs) == InsBlock(FIXED)
  {
    hide BlockBits, ValidBlock, BlockInRfc, Ordinary, Writable, Canonical, FIXED, InsBlock;
    assert [FIXED][1..] == [];
    assert BlocksInRfc(|BlockBits(FIXED)|, []);
    assert CanonicalStream(|BlockBits(FIXED)|, []);
    StreamBitsNil();
    NoneIns();
    assert BlockBits(FIXED) + [] == BlockBits(FIXED) && InsBlock(FIXED) + [] == InsBlock(FIXED);
  }

  /** A block with the fixed codes: a, 0xaa, and two matches, 14 bytes from 1 before and 120 from 2 before. */
  lemma FixedStream()
    ensures var s: seq<byte> := [0x4b, 0x5c, 0x85, 0x0a, 0x06, 0x0a, 0x02, 0x00];
            var ins: seq<byte> :=
              [0x03, 0xaa, 0xff, 0x61, 0xaa, 0xaa, 0xaa, 0x00, 0x01, 0x0b, 0xaa, 0x00, 0x02, 0x75, 0xaa, 0xff];
            && ReadStream(ByteBits(s)) == Ok([FIXED], Zeros(7))
            && Decode(s) == Trace(ins, Finished([]))
            && Encode(ins) == BitTrace(ByteBits(s), EncoderSpec.Written([]))
  {
    hide *;
    FixedGood();
    FixedForm();
    FixedBlockBytes();
    FixedHead();
    FixedIns();
    OneFixed();
    Known(FIXEDBYTES, [FIXED], Zeros(7));
    FixedByteList();
  }

  lemma FixedByteList()
    ensures FIXEDBYTES == [0x4b, 0x5c, 0x85, 0x0a, 0x06, 0x0a, 0x02, 0x00]
    ensures [0x03] + [0xaa, 0xff] + [0x61, 0xaa, 0xaa, 0xaa, 0x00, 0x01, 0x0b, 0xaa, 0x00, 0x02, 0x75] + [0xaa, 0xff] ==
            [0x03, 0xaa, 0xff, 0x61, 0xaa, 0xaa, 0xaa, 0x00, 0x01, 0x0b, 0xaa, 0x00, 0x02, 0x75, 0xaa, 0xff]
  {
  }
}
