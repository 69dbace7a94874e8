/**
  The abstract state behind each mode of deflate_my, and what is still to be written from it.
 */
module DeflateState {
  import opened Bits
  import opened Huffman
  import opened Format
  import opened FormatLemmas
  import opened LengthCodes
  import opened Instructions
  import opened EncoderSpec
  import opened HeaderReading
  import opened Trees

  datatype Mode =
    | HEAD | TYPE | TYPEDO | STORED | COPY_ | COPY | TABLE | LENLENS | CODELENS | SKPI_HEADER_END
    | LEN_ | LEN | INS1 | INS2 | MATCH | LIT | ENDOFBLOCK | DONE | BAD

  datatype State =
    | AtBlock
    | AtStored
    | AtHeader(progress: Progress)
    | AtSkip(head: Head)
    | AtCopy(data: seq<byte>, left: nat)
    | AtSyms(head: Head, xs: seq<Sym3>)
    | AtIns1(head: Head, xs: seq<Sym3>)
    | AtIns2(head: Head, xs: seq<Sym3>, high: nat)
    | AtSym(head: Head, xs: seq<Sym3>, sym: Sym3)            // a symbol that goes into sym_buf next
    | AtPut(head: Head, xs: seq<Sym3>, raw: seq<byte>)       // a block that is written next
    | AtEnd
    | Failed
    | Lost                                                   // sym_buf was full

  predicate Sound(st: State) {
    (st.AtSyms? || st.AtIns1? || st.AtIns2? || st.AtSym?) ==> !st.head.Stored?
  }

  /** What is still to be written, given the input still to be read; `n` bits have been written. */
  ghost function After(n: nat, last: bool, st: State, bits: Bits): BitTrace
    requires Sound(st)
  {
    match st
    case AtBlock => RecBlocks(n, last, bits)
    case AtStored => RecStored(n, last, bits)
    case AtHeader(g) => RecHeader(n, last, Rest(false, g, bits))
    case AtSkip(head) => RecSkip(n, last, head, bits)
    case AtCopy(data, left) => RecCopy(n, last, data, left, bits)
    case AtSyms(head, xs) => RecCoded(n, last, head, ReadSyms(xs, bits))
    case AtIns1(head, xs) => RecCoded(n, last, head, ReadIns1(xs, bits))
    case AtIns2(head, xs, high) => RecCoded(n, last, head, ReadIns2(xs, high, bits))
    case AtSym(head, xs, sym) => RecCoded(n, last, head, Collect(xs, sym, bits))
    case AtPut(head, xs, raw) => if head.Stored? then RecRaw(n, last, raw, bits)
        else RecCoded(n, last, head, Syms(xs, bits))
    case AtEnd => BitTrace([], Written(Aligned(bits)))
    case Failed => BitTrace([], Wrong)
    case Lost => BitTrace([], SymbolsFull)
  }

  const HUNGRY := BitTrace([], Hungry)

  /** A later mode of the same step of the machine has a smaller rank. */
  function Rank(mode: Mode): nat {
    match mode
    case HEAD => 20
    case TABLE => 19
    case LENLENS => 18
    case CODELENS => 17
    case STORED => 17
    case SKPI_HEADER_END => 16
    case COPY_ => 15
    case COPY => 14
    case LEN_ => 13
    case INS1 => 12
    case INS2 => 11
    case MATCH => 10
    case LIT => 9
    case LEN => 8
    case ENDOFBLOCK => 7
    case TYPE => 5
    case TYPEDO => 4
    case DONE => 1
    case BAD => 0
  }

  lemma Ranks()
    ensures Rank(HEAD) == 20 && Rank(TABLE) == 19 && Rank(LENLENS) == 18 && Rank(CODELENS) == 17 && Rank(STORED) == 17
    ensures Rank(SKPI_HEADER_END) == 16 && Rank(COPY_) == 15 && Rank(COPY) == 14 && Rank(LEN_) == 13
    ensures Rank(INS1) == 12 && Rank(INS2) == 11 && Rank(MATCH) == 10 && Rank(LIT) == 9 && Rank(LEN) == 8
    ensures Rank(ENDOFBLOCK) == 7 && Rank(TYPE) == 5 && Rank(TYPEDO) == 4 && Rank(DONE) == 1 && Rank(BAD) == 0
  {
  }

  // ----- one step of each mode on the abstract state -----

  lemma LaterAligned(a: Bits, more: Bits)
    requires |more| % 8 == 0
    ensures Aligned(a + more) == Aligned(a) + more
    ensures Aligned(Aligned(a)) == Aligned(a)
  {
  }

  lemma AlignedWhole(a: Bits)
    requires |a| % 8 == 0
    ensures Aligned(a) == a
  {
  }

  lemma StoredForm(n: nat, last: bool, bits: Bits)
    ensures After(n, last, AtStored, bits) == RecLens(n, last, Aligned(bits))
    ensures |bits| < 32 ==> RecLens(n, last, bits) == HUNGRY && |Aligned(bits)| <= |bits|
  {
    hide RecSkip, Aligned;
  }

  lemma SkipForm(n: nat, last: bool, head: Head, bits: Bits)
    ensures After(n, last, AtSkip(head), bits) == RecMark(n, last, head, Aligned(bits))
    ensures |bits| < 16 ==> RecMark(n, last, head, bits) == HUNGRY && |Aligned(bits)| <= |bits|
  {
    hide RecCopy, RecCoded, ReadSyms, Aligned;
  }

  lemma LastForm(n: nat, bits: Bits)
    ensures After(n, true, AtBlock, bits) == After(n, true, AtEnd, bits) == BitTrace([], Written(Aligned(bits)))
  {
    hide RecStored, RecSkip, RecHeader, ReadHeader, Aligned;
  }

  lemma StepEnd(n: nat, bits: Bits, more: Bits)
    requires |more| % 8 == 0
    ensures After(n, true, AtBlock, bits + more) == After(n, true, AtEnd, Aligned(bits) + more)
  {
    hide *;
    LaterAligned(bits, more);
    LaterAligned(Aligned(bits), more);
    LastForm(n, bits + more);
    LastForm(n, Aligned(bits) + more);
  }

  lemma StepType(n: nat, bits: Bits, more: Bits, g: Progress)
    requires |bits| >= 3 && g.phase.AtSizes?
    ensures var last, t, b := bits[0], Val(bits[1..3]), bits[3..] + more;
            && t < 4
            && After(n, false, AtBlock, bits + more) ==
               After(n, last, if t == 0 then AtStored else if t == 1 then AtSkip(Fixed) else if t == 2 then AtHeader(g)
                   else Failed, b)
  {
    hide RecStored, RecSkip, RecHeader, ReadHeader;
    ValBound(bits[1..3]);
    Pow2Small();
    Later(bits, more, 3);
    assert (bits + more)[1..3] == bits[1..3];
  }

  lemma StallType(n: nat, bits: Bits)
    requires |bits| < 3
    ensures After(n, false, AtBlock, bits) == HUNGRY
  {
  }

  lemma AlignStored(n: nat, last: bool, bits: Bits, more: Bits)
    requires |more| % 8 == 0
    ensures After(n, last, AtStored, bits + more) == After(n, last, AtStored, Aligned(bits) + more)
  {
    hide *;
    LaterAligned(bits, more);
    LaterAligned(Aligned(bits), more);
    StoredForm(n, last, bits + more);
    StoredForm(n, last, Aligned(bits) + more);
  }

  lemma LensForm(n: nat, last: bool, bits: Bits, more: Bits)
    requires |bits| >= 32
    ensures var len := Val(bits[..16]);
            RecLens(n, last, bits + more) ==
            After(n, last, if len + Val(bits[16..32]) != 65535 then Failed else AtSkip(Stored(len)), bits[32..] + more)
  {
    hide RecSkip, Val;
    Later(bits, more, 32);
    assert (bits + more)[..16] == bits[..16] && (bits + more)[16..32] == bits[16..32];
  }

  lemma MarkForm(n: nat, last: bool, head: Head, bits: Bits, more: Bits)
    requires |bits| >= 16
    ensures Sound(AfterMark(head))
    ensures RecMark(n, last, head, bits + more) == After(n, last, AfterMark(head), bits[16..] + more)
  {
    hide RecCopy, RecCoded, ReadSyms;
    Later(bits, more, 16);
  }

  lemma StepStored(n: nat, last: bool, bits: Bits, more: Bits)
    requires |more| % 8 == 0 && |bits| >= 32 && |bits| % 8 == 0
    ensures var len := Val(bits[..16]);
            After(n, last, AtStored, bits + more) ==
            After(n, last, if len + Val(bits[16..32]) != 65535 then Failed else AtSkip(Stored(len)), bits[32..] + more)
  {
    hide *;
    Later(bits, more, 32);
    AlignedWhole(bits + more);
    StoredForm(n, last, bits + more);
    LensForm(n, last, bits, more);
  }

  lemma StallStored(n: nat, last: bool, bits: Bits)
    requires |bits| < 32
    ensures After(n, last, AtStored, bits) == HUNGRY
  {
    hide *;
    StoredForm(n, last, bits);
    StoredForm(n, last, Aligned(bits));
  }

  lemma HeaderAfter(n: nat, last: bool, g: Progress, bits: Bits)
    ensures After(n, last, AtHeader(g), bits) == RecHeader(n, last, Rest(false, g, bits))
    ensures Rest(false, g, bits) == Short ==> After(n, last, AtHeader(g), bits) == HUNGRY
  {
    hide Rest;
  }

  lemma HeaderFails(n: nat, last: bool, bits: Bits)
    ensures RecHeader(n, last, Bad) == After(n, last, Failed, bits)
  {
  }

  lemma HeaderGood(n: nat, last: bool, h: Header, bits: Bits)
    ensures RecHeader(n, last, Ok(h, bits)) == After(n, last, AtSkip(Dynamic(h)), bits)
  {
    hide RecSkip;
  }

  lemma AlignSkip(n: nat, last: bool, head: Head, bits: Bits, more: Bits)
    requires |more| % 8 == 0
    ensures After(n, last, AtSkip(head), bits + more) == After(n, last, AtSkip(head), Aligned(bits) + more)
  {
    hide *;
    LaterAligned(bits, more);
    LaterAligned(Aligned(bits), more);
    SkipForm(n, last, head, bits + more);
    SkipForm(n, last, head, Aligned(bits) + more);
  }

  /** Where the machine goes after the mark behind a header. */
  function AfterMark(head: Head): State {
    if head.Stored? then AtCopy([], head.n) else AtSyms(head, [])
  }

  lemma StepSkip(n: nat, last: bool, head: Head, bits: Bits, more: Bits)
    requires |more| % 8 == 0 && |bits| >= 16 && |bits| % 8 == 0
    ensures Sound(AfterMark(head))
    ensures After(n, last, AtSkip(head), bits + more) == After(n, last, AfterMark(head), bits[16..] + more)
  {
    hide *;
    AlignedWhole(bits + more);
    SkipForm(n, last, head, bits + more);
    MarkForm(n, last, head, bits, more);
  }

  lemma StallSkip(n: nat, last: bool, head: Head, bits: Bits)
    requires |bits| < 16
    ensures After(n, last, AtSkip(head), bits) == HUNGRY
  {
    hide *;
    SkipForm(n, last, head, bits);
    SkipForm(n, last, head, Aligned(bits));
  }

  lemma StepCopy(n: nat, last: bool, data: seq<byte>, left: nat, k: nat, bits: Bits, more: Bits)
    requires k <= left && 8 * k <= |bits|
    ensures After(n, last, AtCopy(data, left), bits + more) ==
            After(n, last, AtCopy(data + Pack(bits[..8 * k]), left - k), bits[8 * k..] + more)
  {
    hide RecRaw, Pack;
    var w := bits + more;
    Later(bits, more, 8 * k);
    if |w| >= 8 * left + 16 {
      var v := w[8 * k..];
      assert w[..8 * left] == w[..8 * k] + v[..8 * (left - k)];
      assert w[8 * left + 16..] == v[8 * (left - k) + 16..];
      PackFront(w[..8 * k], v[..8 * (left - k)], k);
      Assoc(data, Pack(w[..8 * k]), Pack(v[..8 * (left - k)]));
    }
  }

  lemma {:induction false} PackFront(a: Bits, b: Bits, k: nat)
    requires |a| == 8 * k
    ensures Pack(a + b) == Pack(a) + Pack(b)
    decreases k
  {
    if k == 0 {
      assert a + b == b;
    } else {
      PackFirst8(a);
      PackFirst8(a + b);
      assert (a + b)[..8] == a[..8] && (a + b)[8..] == a[8..] + b;
      PackFront(a[8..], b, k - 1);
      hide Pack;
      Assoc(Pack(a[..8]), Pack(a[8..]), Pack(b));
    }
  }

  lemma PackFirst8(b: Bits)
    requires |b| >= 8
    ensures Pack(b) == Pack(b[..8]) + Pack(b[8..])
  {
    assert b[..8][..8] == b[..8];
    assert Pack(b[..8][8..]) == [];
  }

  lemma StallCopy(n: nat, last: bool, data: seq<byte>, left: nat, bits: Bits)
    requires |bits| < 8 * left + 16
    ensures After(n, last, AtCopy(data, left), bits) == HUNGRY
  {
  }

  lemma EndCopy(n: nat, last: bool, data: seq<byte>, bits: Bits, more: Bits)
    requires |bits| >= 16
    ensures After(n, last, AtCopy(data, 0), bits + more) == After(n, last, AtPut(Stored(|data|), [], data),
            bits[16..] + more)
  {
    hide RecRaw;
    Later(bits, more, 16);
    assert Pack((bits + more)[..0]) == [];
    assert data + [] == data;
  }

  lemma StepLen(n: nat, last: bool, head: Head, xs: seq<Sym3>, bits: Bits, more: Bits)
    requires !head.Stored? && |bits| >= 8
    ensures var b := Val(bits[..8]);
            && b < 256
            && After(n, last, AtSyms(head, xs), bits + more) ==
               After(n, last, if b != 0xaa then AtSym(head, xs, Sym3(0, b)) else AtIns1(head, xs), bits[8..] + more)
  {
    hide RecCoded, ReadIns1, Collect;
    ByteVal(bits[..8]);
    Later(bits, more, 8);
  }

  lemma StepIns1(n: nat, last: bool, head: Head, xs: seq<Sym3>, bits: Bits, more: Bits)
    requires !head.Stored? && |bits| >= 8
    ensures var b := Val(bits[..8]);
            && b < 256
            && After(n, last, AtIns1(head, xs), bits + more) ==
               After(n, last, if b == 0xaa then AtSym(head, xs, Sym3(0, b)) else if b == 0xff then AtPut(head, xs, [])
                              else if b > 0x80 then Failed else AtIns2(head, xs, b), bits[8..] + more)
  {
    hide RecCoded, ReadIns1, ReadIns2, Collect, Val;
    ByteVal(bits[..8]);
    Later(bits, more, 8);
    WrongRun(n, last, head);
    Ins1Cases(xs, bits + more);
  }

  lemma Ins1Cases(xs: seq<Sym3>, bits: Bits)
    requires |bits| >= 8
    ensures var b, rest := Val(bits[..8]), bits[8..];
            && b < 256
            && ReadIns1(xs, bits) == if b == 0xaa then Collect(xs, Sym3(0, b), rest)
                else if b == 0xff then Syms(xs, rest)
                                     else if b > 0x80 then Stop(Wrong) else ReadIns2(xs, b, rest)
  {
    hide ReadIns2, Collect, Val;
    ByteVal(bits[..8]);
  }

  lemma WrongRun(n: nat, last: bool, head: Head)
    requires !head.Stored?
    ensures RecCoded(n, last, head, Stop(Wrong)) == BitTrace([], Wrong)
    ensures RecCoded(n, last, head, Stop(Hungry)) == HUNGRY
  {
  }

  lemma StepIns2(n: nat, last: bool, head: Head, xs: seq<Sym3>, high: nat, bits: Bits, more: Bits)
    requires !head.Stored? && |bits| >= 16
    ensures var low, len := Val(bits[..8]), Val(bits[8..][..8]);
            && low < 256 && len < 256
            && After(n, last, AtIns2(head, xs, high), bits + more) ==
               After(n, last, AtSym(head, xs, Sym3(256 * high + low, len)), bits[8..][8..] + more)
  {
    hide RecCoded, Collect;
    ByteVal(bits[..8]);
    ByteVal(bits[8..][..8]);
    Later(bits, more, 16);
    assert (bits + more)[8..16] == bits[8..][..8];
    assert bits[8..][8..] == bits[16..];
    assert (bits + more)[..8] == bits[..8];
  }

  lemma StallSyms(n: nat, last: bool, head: Head, xs: seq<Sym3>, high: nat, bits: Bits)
    requires !head.Stored?
    ensures |bits| < 8 ==> After(n, last, AtSyms(head, xs), bits) == HUNGRY
    ensures |bits| < 8 ==> After(n, last, AtIns1(head, xs), bits) == HUNGRY
    ensures |bits| < 16 ==> After(n, last, AtIns2(head, xs, high), bits) == HUNGRY
  {
  }

  /** A symbol goes into sym_buf; when it takes the last place the machine gives up. */
  lemma StepSym(n: nat, last: bool, head: Head, xs: seq<Sym3>, sym: Sym3, bits: Bits)
    requires !head.Stored?
    ensures After(n, last, AtSym(head, xs, sym), bits) ==
            After(n, last, if |xs| + 1 == SYM_MAX then Lost else AtSyms(head, xs + [sym]), bits)
  {
    hide ReadSyms;
  }

  /** A block is written, unless that is undefined. */
  lemma StepPut(n: nat, last: bool, head: Head, xs: seq<Sym3>, raw: seq<byte>, bits: Bits)
    requires ValidHead(head) && |xs| < SYM_MAX && After(n, last, AtPut(head, xs, raw), bits).end != OutOfBounds
    ensures BlockReady(n, last, head, xs, raw)
    ensures var out := BlockOut(n, last, head, xs, raw);
            var all := out + Tail(n + |out|, last);
            After(n, last, AtPut(head, xs, raw), bits) == PutBits(all, After(n + |all|, last, AtBlock, bits))
  {
    hide RecBlocks, RawBits, CodedBits, SymsSafe, ValidSyms, Tail, ValidHead;
    if head.Stored? {
      assert RecRaw(n, last, raw, bits) == RecPut(n, last, RawBits(n, last, raw), bits);
    } else {
      assert RecCoded(n, last, head, Syms(xs, bits)) == RecPut(n, last, CodedBits(last, head, xs), bits);
    }
  }

  lemma PutBitsTwice(a: Bits, b: Bits, t: BitTrace)
    ensures PutBits(a, PutBits(b, t)) == PutBits(a + b, t)
    ensures PutBits(a, t).end == t.end
  {
    Assoc(a, b, t.out);
  }

  /** Nothing more comes out of these states. */
  lemma EndAfter(n: nat, last: bool, bits: Bits)
    ensures After(n, last, AtEnd, bits) == BitTrace([], Written(Aligned(bits)))
    ensures After(n, last, Failed, bits) == BitTrace([], Wrong)
    ensures After(n, last, Lost, bits) == BitTrace([], SymbolsFull)
  {
  }

  lemma NothingLeft(n: nat, last: bool)
    ensures After(n, last, AtBlock, []).out == []
            && (After(n, last, AtBlock, []).end == Hungry || After(n, last, AtBlock, []).end.Written?)
    ensures After(n, false, AtBlock, []) == HUNGRY
  {
  }
}
