/**
  The abstract state behind each mode of j_inflate, and what is still to be written from it.
 */
module InflateState {
  import opened Bits
  import opened Huffman
  import opened TableSpec
  import opened Format
  import opened FormatLemmas
  import opened LengthCodes
  import opened Instructions
  import opened DecoderSpec
  import opened BitReading
  import opened HeaderReading

  datatype Mode =
    | HEAD | TYPE | TYPEDO | STORED | COPY_ | COPY | TABLE | LENLENS | CODELENS | SEND_HEADER
    | LEN_ | LEN | LENEXT | DIST | DISTEXT | MATCH | LIT | SETENDOFBLOCK | SENDINS
    | CHECK | LENGTH | DONE | BAD

  datatype State =
    | AtBlock
    | AtStored
    | AtHeader(progress: Progress)
    | AtData(n: nat)
    | AtToks(lc: Lens, dc: Lens)
    | AtLenExt(lc: Lens, dc: Lens, s: nat)
    | AtDist(lc: Lens, dc: Lens, s: nat, ext: nat)
    | AtDistExt(lc: Lens, dc: Lens, s: nat, ext: nat, d: nat)
    | Sending(bytes: seq<byte>, tail: State)  // output decided but not yet written
    | AtEnd
    | Failed

  ghost predicate Sound(st: State) {
    match st
    case AtLenExt(lc, dc, s) => IsLenSym(s)
    case AtDist(lc, dc, s, ext) => IsLenSym(s) && ext < Pow2(LenExtra(s))
    case AtDistExt(lc, dc, s, ext, d) => IsLenSym(s) && ext < Pow2(LenExtra(s)) && IsDistSym(d)
    case Sending(bytes, tail) => Sound(tail)
    case _ => true
  }

  /** What is still to be written, given the input still to be read. */
  ghost function After(last: bool, st: State, bits: Bits): Trace
    requires Sound(st)
    decreases st
  {
    match st
    case AtBlock => EmitBlocks(last, bits)
    case AtStored => EmitStored(last, bits)
    case AtHeader(g) => EmitHeader(last, Rest(true, g, bits))
    case AtData(n) => EmitData(last, n, bits)
    case AtToks(lc, dc) => EmitToks(last, lc, dc, bits)
    case AtLenExt(lc, dc, s) => EmitLenExt(last, lc, dc, s, bits)
    case AtDist(lc, dc, s, ext) => EmitDist(last, lc, dc, s, ext, bits)
    case AtDistExt(lc, dc, s, ext, d) => EmitDistExt(last, lc, dc, s, ext, d, bits)
    case Sending(bytes, tail) => Put(bytes, After(last, tail, bits))
    case AtEnd => Trace([], Finished(Aligned(bits)))
    case Failed => INVALID_DATA
  }

  /** A later mode of the same step of the machine has a smaller rank. */
  function Rank(mode: Mode): nat {
    match mode
    case HEAD => 20
    case TABLE => 19
    case LENLENS => 18
    case CODELENS => 17
    case STORED => 17
    case SEND_HEADER => 16
    case COPY_ => 15
    case COPY => 14
    case SETENDOFBLOCK => 13
    case LENEXT => 12
    case DIST => 11
    case DISTEXT => 10
    case MATCH => 9
    case LIT => 9
    case SENDINS => 8
    case LEN_ => 7
    case LEN => 6
    case TYPE => 5
    case TYPEDO => 4
    case CHECK => 3
    case LENGTH => 2
    case DONE => 1
    case BAD => 0
  }

  lemma Ranks()
    ensures Rank(HEAD) == 20 && Rank(TABLE) == 19 && Rank(LENLENS) == 18 && Rank(CODELENS) == 17 && Rank(STORED) == 17
    ensures Rank(SEND_HEADER) == 16 && Rank(COPY_) == 15 && Rank(COPY) == 14 && Rank(SETENDOFBLOCK) == 13
    ensures Rank(LENEXT) == 12 && Rank(DIST) == 11 && Rank(DISTEXT) == 10 && Rank(MATCH) == 9 && Rank(LIT) == 9
    ensures Rank(SENDINS) == 8 && Rank(LEN_) == 7 && Rank(LEN) == 6 && Rank(TYPE) == 5 && Rank(TYPEDO) == 4
    ensures Rank(CHECK) == 3 && Rank(LENGTH) == 2 && Rank(DONE) == 1 && Rank(BAD) == 0
  {
  }

  // ----- one step of each mode on the abstract state -----

  lemma LaterAligned(a: Bits, more: Bits)
    requires |more| % 8 == 0
    ensures Aligned(a + more) == Aligned(a) + more
    ensures Aligned(Aligned(a)) == Aligned(a)
  {
  }

  lemma AlignedWhole(a: Bits)
    requires |a| % 8 == 0
    ensures Aligned(a) == a
  {
  }

  lemma StepEnd(bits: Bits, more: Bits)
    requires |more| % 8 == 0
    ensures After(true, AtBlock, bits + more) == After(true, AtEnd, Aligned(bits) + more)
  {
    hide EmitBlocks, Aligned;
    LaterAligned(bits, more);
    LaterAligned(Aligned(bits), more);
    EmitLast(bits + more);
  }

  lemma StepType(bits: Bits, more: Bits, g: Progress)
    requires |bits| >= 3 && g.phase.AtSizes?
    ensures var last, t, b := bits[0], Val(bits[1..3]), bits[3..] + more;
            && t < 4 && bits[..3] == TypeBits(last, t)
            && After(false, AtBlock, bits + more) ==
               if t == 0 then After(last, AtStored, b)
               else if t == 1 then After(last, Sending(HeadIns(TypeBits(last, 1)), AtToks(FixedLit(), FixedDist())), b)
               else if t == 2 then After(last, AtHeader(g), b)
               else INVALID_DATA
  {
    hide EmitStored, EmitToks, EmitHeader, ReadHeader, FixedLit, FixedDist, TypeBits;
    TypeExact(bits);
    Later(bits, more, 3);
    assert (bits + more)[1..3] == bits[1..3];
    assert bits == bits[..3] + bits[3..];
    FrontOf(TypeBits(bits[0], Val(bits[1..3])), bits);
  }

  lemma FrontOf(a: Bits, bits: Bits)
    requires |a| <= |bits| && bits == a + bits[|a|..]
    ensures bits[..|a|] == a
  {
  }

  lemma StallType(bits: Bits)
    requires |bits| < 3
    ensures After(false, AtBlock, bits) == STARVED
  {
  }

  lemma StepStored(last: bool, bits: Bits, more: Bits)
    requires |more| % 8 == 0 && |bits| >= 32 && |bits| % 8 == 0
    ensures var n, m := Val(bits[..16]), Val(bits[16..32]);
            After(last, AtStored, bits + more) ==
            if n + m != 65535 then INVALID_DATA
            else After(last, Sending(StoredHead(last, n), AtData(n)), bits[32..] + more)
  {
    hide EmitData, StoredHead, Val, EmitBlocks, EmitToks;
    Later(bits, more, 32);
    AlignedWhole(bits + more);
    assert EmitStored(last, bits + more) == EmitLens(last, bits + more);
    assert (bits + more)[..16] == bits[..16] && (bits + more)[16..32] == bits[16..32];
  }

  lemma StallStored(last: bool, bits: Bits)
    requires |bits| < 32
    ensures After(last, AtStored, bits) == STARVED
  {
    assert EmitStored(last, bits) == EmitLens(last, Aligned(bits));
  }

  lemma AlignStored(last: bool, bits: Bits, more: Bits)
    requires |more| % 8 == 0
    ensures After(last, AtStored, bits + more) == After(last, AtStored, Aligned(bits) + more)
  {
    hide EmitLens, Aligned;
    LaterAligned(bits, more);
    LaterAligned(Aligned(bits), more);
  }

  lemma StepData(last: bool, n: nat, k: nat, bits: Bits, more: Bits)
    requires k <= n && 8 * k <= |bits|
    ensures After(last, AtData(n), bits + more) == Put(Pack(bits[..8 * k]),
            After(last, AtData(n - k), bits[8 * k..] + more))
    decreases k
  {
    hide EmitBlocks;
    if k == 0 {
      assert bits[..0] == [] && bits[0..] == bits;
    } else {
      Later(bits, more, 8);
      StepData(last, n - 1, k - 1, bits[8..], more);
      DataSlices(bits, k);
      PackFirst(bits[..8 * k]);
      PutPut(Pack(bits[..8]), Pack(bits[8..][..8 * (k - 1)]), After(last, AtData(n - k), bits[8 * k..] + more));
    }
  }

  lemma DataSlices(bits: Bits, k: nat)
    requires 0 < 8 * k <= |bits|
    ensures bits[..8 * k][..8] == bits[..8] && bits[..8 * k][8..] == bits[8..][..8 * (k - 1)]
    ensures bits[8..][8 * (k - 1)..] == bits[8 * k..]
  {
  }

  lemma SoundData(n: nat)
    ensures Sound(AtData(n))
  {
  }

  lemma StallData(last: bool, n: nat, bits: Bits)
    requires n > 0 && |bits| < 8
    ensures After(last, AtData(n), bits) == STARVED
  {
  }

  lemma DataDone(last: bool, bits: Bits)
    ensures After(last, AtData(0), bits) == After(last, Sending(MARK, AtBlock), bits)
  {
    hide EmitBlocks;
  }

  // ----- output -----

  lemma AfterSending(last: bool, bytes: seq<byte>, tail: State, bits: Bits)
    requires Sound(tail)
    ensures Sound(Sending(bytes, tail))
    ensures After(last, Sending(bytes, tail), bits) == Put(bytes, After(last, tail, bits))
  {
  }

  /** Writing the first `k` of the bytes that are due. */
  lemma SendPart(last: bool, put: seq<byte>, bytes: seq<byte>, k: nat, tail: State, bits: Bits)
    requires Sound(tail) && k <= |bytes|
    ensures Sound(Sending(bytes, tail)) && Sound(Sending(bytes[k..], tail))
    ensures Put(put, After(last, Sending(bytes, tail), bits)) == Put(put + bytes[..k],
            After(last, Sending(bytes[k..], tail), bits))
    ensures k == |bytes| ==>
              Put(put, After(last, Sending(bytes, tail), bits)) == Put(put + bytes[..k], After(last, tail, bits))
  {
    hide After;
    AfterSending(last, bytes, tail, bits);
    AfterSending(last, bytes[k..], tail, bits);
    var t := After(last, tail, bits);
    assert bytes == bytes[..k] + bytes[k..];
    PutPut(bytes[..k], bytes[k..], t);
    PutPut(put, bytes, t);
    PutPut(put + bytes[..k], bytes[k..], t);
    Assoc(put, bytes[..k], bytes[k..]);
    assert k == |bytes| ==> bytes[..k] == bytes;
  }

  // ----- tokens -----

  /** `op & k` for a power of two `k`. */
  predicate HasBit(op: nat, k: nat)
    requires k > 0
  {
    op / k % 2 == 1
  }

  /** How the op field of a literal/length entry tells what it is. */
  lemma LenEntry(lc: Lens, s: nat, here: Entry, n: nat)
    requires Says(LenCodes, lc, Sym(s), here, n)
    ensures here.op == 0 <==> s < 256
    ensures s < 256 ==> here.val == s
    ensures HasBit(here.op, 32) <==> s == 256
    ensures HasBit(here.op, 64) <==> s == 256 || s > 285
    ensures HasBit(here.op, 16) <==> IsLenSym(s)
    ensures IsLenSym(s) ==> here.op % 16 == LenExtra(s) && here.val == LBase(s - 257)
  {
    hide LBase, Pow2;
  }

  lemma DistEntry(dc: Lens, d: nat, here: Entry, n: nat)
    requires Says(DistCodes, dc, Sym(d), here, n)
    ensures HasBit(here.op, 64) <==> d >= 30
    ensures HasBit(here.op, 16) <==> d < 30
    ensures d < 30 ==> here.op % 16 == DistExtra(d) && here.val == DBase(d)
  {
    hide DBase, Pow2;
  }

  lemma NoEntry(kind: Kind, lens: Lens, here: Entry, n: nat)
    requires Says(kind, lens, NoCode, here, n)
    ensures here.op == 64
  {
  }

  lemma StepLen(last: bool, lc: Lens, dc: Lens, bits: Bits, more: Bits)
    requires Bounded(lc) && Accepts(LenCodes, lc) && !DecodeSym(lc, bits).NeedBits?
    ensures var r := DecodeSym(lc, bits);
            match r
            case NoCode => After(last, AtToks(lc, dc), bits + more) == INVALID_DATA
            case Sym(s) =>
              && s < |lc| && lc[s] <= |bits|
              && var b := bits[lc[s]..] + more;
                 After(last, AtToks(lc, dc), bits + more) ==
                 if s < 256 then After(last, Sending(LitIns(s), AtToks(lc, dc)), b)
                 else if s == 256 then After(last, Sending(MARK, AtBlock), b)
                 else if s > 285 then INVALID_DATA
                 else After(last, AtLenExt(lc, dc, s), b)
  {
    hide EmitBlocks, EmitLenExt, Accepts, LitIns, DecodeSym;
    DecodedFront(LenCodes, lc, bits, more);
  }

  lemma DecodedFront(kind: Kind, lens: Lens, bits: Bits, more: Bits)
    requires Bounded(lens) && Accepts(kind, lens) && !DecodeSym(lens, bits).NeedBits?
    ensures DecodeSym(lens, bits + more) == DecodeSym(lens, bits)
    ensures DecodeSym(lens, bits).Sym? ==>
              var s := DecodeSym(lens, bits).sym;
              s < |lens| && lens[s] <= |bits| && (bits + more)[lens[s]..] == bits[lens[s]..] + more
  {
    hide Accepts, CodeBits;
    DecodedStays(kind, lens, bits, more);
    if DecodeSym(lens, bits).Sym? {
      DecodedCode(lens, bits);
      Later(bits, more, lens[DecodeSym(lens, bits).sym]);
    }
  }

  lemma StallLen(last: bool, lc: Lens, dc: Lens, bits: Bits)
    requires DecodeSym(lc, bits).NeedBits?
    ensures After(last, AtToks(lc, dc), bits) == STARVED
  {
    hide DecodeSym;
  }

  lemma StepLenExt(last: bool, lc: Lens, dc: Lens, s: nat, bits: Bits, more: Bits)
    requires IsLenSym(s) && |bits| >= LenExtra(s)
    ensures var n := LenExtra(s);
            && Val(bits[..n]) < Pow2(n)
            && After(last, AtLenExt(lc, dc, s), bits + more) == After(last, AtDist(lc, dc, s, Val(bits[..n])),
                bits[n..] + more)
  {
    hide EmitDist, LenExtra, Val;
    var n := LenExtra(s);
    ValBound(bits[..n]);
    Later(bits, more, n);
  }

  lemma StallLenExt(last: bool, lc: Lens, dc: Lens, s: nat, bits: Bits)
    requires IsLenSym(s) && |bits| < LenExtra(s)
    ensures After(last, AtLenExt(lc, dc, s), bits) == STARVED
  {
    hide LenExtra;
  }

  lemma StepDist(last: bool, lc: Lens, dc: Lens, s: nat, ext: nat, bits: Bits, more: Bits)
    requires IsLenSym(s) && ext < Pow2(LenExtra(s))
    requires Bounded(dc) && Accepts(DistCodes, dc) && !DecodeSym(dc, bits).NeedBits?
    ensures var r := DecodeSym(dc, bits);
            match r
            case NoCode => After(last, AtDist(lc, dc, s, ext), bits + more) == INVALID_DATA
            case Sym(d) =>
              && d < |dc| && dc[d] <= |bits|
              && After(last, AtDist(lc, dc, s, ext), bits + more) ==
                 if d >= 30 then INVALID_DATA else After(last, AtDistExt(lc, dc, s, ext, d), bits[dc[d]..] + more)
  {
    hide EmitDistExt, Accepts, LenExtra, DecodeSym;
    DecodedFront(DistCodes, dc, bits, more);
  }

  lemma StallDist(last: bool, lc: Lens, dc: Lens, s: nat, ext: nat, bits: Bits)
    requires IsLenSym(s) && ext < Pow2(LenExtra(s)) && DecodeSym(dc, bits).NeedBits?
    ensures After(last, AtDist(lc, dc, s, ext), bits) == STARVED
  {
    hide DecodeSym, LenExtra;
  }

  lemma StepDistExt(last: bool, lc: Lens, dc: Lens, s: nat, ext: nat, d: nat, bits: Bits, more: Bits)
    requires IsLenSym(s) && ext < Pow2(LenExtra(s)) && IsDistSym(d) && |bits| >= DistExtra(d)
    ensures var n := DistExtra(d);
            && Val(bits[..n]) < Pow2(n)
            && After(last, AtDistExt(lc, dc, s, ext, d), bits + more) ==
               After(last, Sending(TokIns(Match(s, ext, d, Val(bits[..n]))), AtToks(lc, dc)), bits[n..] + more)
  {
    hide EmitToks, LenExtra, DistExtra, TokIns, Val;
    var n := DistExtra(d);
    ValBound(bits[..n]);
    Later(bits, more, n);
  }

  lemma StallDistExt(last: bool, lc: Lens, dc: Lens, s: nat, ext: nat, d: nat, bits: Bits)
    requires IsLenSym(s) && ext < Pow2(LenExtra(s)) && IsDistSym(d) && |bits| < DistExtra(d)
    ensures After(last, AtDistExt(lc, dc, s, ext, d), bits) == STARVED
  {
    hide LenExtra, DistExtra;
  }

  /** The four bytes of a match instruction, as they are stored byte by byte. */
  lemma MatchBytes(s: nat, ext: nat, d: nat, dext: nat)
    requires ValidTok(Match(s, ext, d, dext))
    ensures var len, dist := LBase(s - 257) + ext, DBase(d) + dext;
            && 3 <= len <= 258 && 1 <= dist <= 32768
            && TokIns(Match(s, ext, d, dext)) == [ESC, dist / 256, dist % 256, len - 3]
  {
    hide LBase, DBase, Pow2, LenExtra, DistExtra;
    TokRange(Match(s, ext, d, dext));
  }

  // ----- dynamic headers -----

  lemma HeaderFails(last: bool)
    ensures EmitHeader(last, Bad) == INVALID_DATA
    ensures EmitHeader(last, Short) == STARVED
  {
  }

  lemma HeaderAfter(last: bool, g: Progress, bits: Bits)
    ensures After(last, AtHeader(g), bits) == EmitHeader(last, Rest(true, g, bits))
    ensures Rest(true, g, bits) == Short ==> After(last, AtHeader(g), bits) == STARVED
  {
    hide EmitHeader, Rest;
    HeaderFails(last);
  }

  /** A header whose codes are accepted. */
  lemma HeaderGood(last: bool, h: Header, lc: Lens, dc: Lens, bits: Bits)
    requires ValidHeader(h) && AcceptsHeader(h) && LitLens(h) == lc && DistLens(h) == dc
    ensures Sound(AtToks(lc, dc)) && Sound(Sending(HeadIns(TypeBits(last, 2) + HeaderBits(h)), AtToks(lc, dc)))
    ensures EmitHeader(last, Ok(h, bits)) ==
            After(last, Sending(HeadIns(TypeBits(last, 2) + HeaderBits(h)), AtToks(lc, dc)), bits)
  {
    hide Accepts, Expand, HeaderBits, TypeBits, EmitToks;
  }

  // ----- symbols in the register -----

  /** The next symbol is not yet complete. */
  ghost predicate Waiting(lens: Lens, hold: nat, bits: nat) {
    bits < MAXBITS && DecodeSym(lens, ToBits(hold, bits)) == NeedBits
  }

  lemma NowWaiting(lens: Lens, hold: nat, bits: nat)
    requires DecodeSym(lens, ToBits(hold, bits)) == NeedBits && bits < MAXBITS
    ensures Waiting(lens, hold, bits)
  {
  }

  /** Fewer than 8 bits are left after a symbol. */
  lemma TokenLeftover(kind: Kind, lens: Lens, ahead: Bits, hold0: nat, bits0: nat, bits: nat, here: Entry, n: nat)
    requires Bounded(lens) && Accepts(kind, lens)
    requires Says(kind, lens, DecodeSym(lens, ahead), here, n) && n <= bits && bits0 <= |ahead|
    requires ahead[..bits0] == ToBits(hold0, bits0) && (bits0 < 8 || Waiting(lens, hold0, bits0))
    requires bits == bits0 || bits < n + 8
    ensures bits < n + 8
  {
    hide Accepts, SymEntry;
    if bits == bits0 && bits0 >= 8 {
      assert (ahead + [])[..bits0] == ahead[..bits0];
      CompleteNow(kind, lens, ahead[..bits0], ahead, [], n);
    }
  }

  lemma DropTwice(bits: Bits, a: nat, b: nat)
    requires a + b <= |bits|
    ensures bits[a..][b..] == bits[a + b..]
  {
  }

  lemma NoExtra(bits: Bits)
    ensures Val(bits[..0]) == 0 && bits[0..] == bits
  {
  }

  lemma LitBytes(b: byte)
    ensures LitIns(b) == if b == 0xaa then [0xaa, 0xaa] else [b]
    ensures |LitIns(b)| > 0
  {
  }

  lemma IsToken(s: nat, ext: nat, d: nat, dext: nat)
    requires IsLenSym(s) && ext < Pow2(LenExtra(s)) && IsDistSym(d) && dext < Pow2(DistExtra(d))
    ensures ValidTok(Match(s, ext, d, dext)) && ESC == 0xaa
  {
  }

  lemma SoundDist(lc: Lens, dc: Lens, s: nat, ext: nat)
    requires IsLenSym(s) && ext < Pow2(LenExtra(s))
    ensures Sound(AtDist(lc, dc, s, ext))
  {
  }

  lemma SoundToks(bytes: seq<byte>, lc: Lens, dc: Lens)
    ensures Sound(AtToks(lc, dc)) && Sound(Sending(bytes, AtToks(lc, dc)))
  {
  }

  /** The four ways a literal/length entry is acted on. */
  lemma LenCases(last: bool, lc: Lens, dc: Lens, bits: Bits, more: Bits, here: Entry, n: nat) returns (s: nat)
    requires Bounded(lc) && Accepts(LenCodes, lc) && Says(LenCodes, lc, DecodeSym(lc, bits), here, n) && n <= |bits|
    ensures Sound(AtToks(lc, dc)) && Sound(Sending([], AtToks(lc, dc))) && Sound(AtBlock)
    ensures HasBit(here.op, 16) ==> here.op != 0 && !HasBit(here.op, 32) && !HasBit(here.op, 64)
    ensures var t, b := After(last, AtToks(lc, dc), bits + more), bits[n..] + more;
            if here.op == 0 then
              here.val < 256 && Sound(Sending(LitIns(here.val), AtToks(lc, dc)))
                  && t == After(last, Sending(LitIns(here.val), AtToks(lc, dc)), b)
            else if HasBit(here.op, 32) then Sound(Sending(MARK, AtBlock))
                && t == After(last, Sending(MARK, AtBlock), b)
            else if HasBit(here.op, 64) then t == INVALID_DATA
            else IsLenSym(s) && here.op % 16 == LenExtra(s) && here.val == LBase(s - 257) && HasBit(here.op, 16)
                 && Sound(AtLenExt(lc, dc, s)) && t == After(last, AtLenExt(lc, dc, s), b)
  {
    hide After, Accepts, DecodeSym, LBase, LenExtra, Bounded, LitIns;
    StepLen(last, lc, dc, bits, more);
    s := 0;
    match DecodeSym(lc, bits) {
      case Sym(sym) =>
        s := sym;
        LenEntry(lc, s, here, n);
      case NoCode => NoEntry(LenCodes, lc, here, n);
      case NeedBits =>
    }
  }

  /** The two ways a distance entry is acted on. */
  lemma DistCases(last: bool, lc: Lens, dc: Lens, s: nat, ext: nat, bits: Bits, more: Bits, here: Entry, n: nat)
      returns (d: nat)
    requires IsLenSym(s) && ext < Pow2(LenExtra(s))
    requires Bounded(dc) && Accepts(DistCodes, dc) && Says(DistCodes, dc, DecodeSym(dc, bits), here, n) && n <= |bits|
    ensures Sound(AtDist(lc, dc, s, ext))
    ensures var t, b := After(last, AtDist(lc, dc, s, ext), bits + more), bits[n..] + more;
            if HasBit(here.op, 64) then t == INVALID_DATA && !HasBit(here.op, 16)
            else IsDistSym(d) && here.op % 16 == DistExtra(d) && here.val == DBase(d) && HasBit(here.op, 16)
                 && Sound(AtDistExt(lc, dc, s, ext, d)) && t == After(last, AtDistExt(lc, dc, s, ext, d), b)
  {
    hide After, Accepts, DecodeSym, DBase, DistExtra, LenExtra, Bounded, Pow2;
    StepDist(last, lc, dc, s, ext, bits, more);
    d := 0;
    match DecodeSym(dc, bits) {
      case Sym(sym) =>
        d := sym;
        DistEntry(dc, d, here, n);
      case NoCode => NoEntry(DistCodes, dc, here, n);
      case NeedBits =>
    }
  }

  lemma AfterFailed(last: bool, bits: Bits)
    ensures After(last, Failed, bits) == INVALID_DATA
  {
  }

  lemma FromStart(q: seq<byte>)
    ensures q[0..] == q
  {
  }

  lemma IsMark()
    ensures |MARK| == 2 && MARK == [0xaa, 0xff]
    ensures forall q: seq<byte> :: q + [0xaa] + [0xff] == q + MARK
  {
    forall q: seq<byte>
      ensures q + [0xaa] + [0xff] == q + MARK
    {
    }
  }
}
