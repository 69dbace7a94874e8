/**
  inflate_fast: the same tokens as the LEN to SENDINS modes, read from registers without checking for
  input or space at every step.
 */
module InfFast {
  import opened Bits
  import opened Huffman
  import opened TableSpec
  import opened Format
  import opened FormatLemmas
  import opened LengthCodes
  import opened Instructions
  import opened DecoderSpec
  import opened BitReading
  import opened InflateState


  /** hold, bits and the input position. */
  datatype Reg = Reg(hold: nat, bits: nat, pos: nat)

  ghost function RegOk(r: Reg, next: seq<byte>): (v: bool)
    ensures v ==> r.pos <= |next| && r.bits <= 30
  {
    r.hold < Pow2(r.bits) && r.bits <= 30 && r.pos <= |next|
  }

  /** The input not yet used. */
  ghost function View(r: Reg, next: seq<byte>): (v: Bits)
    requires r.pos <= |next|
    ensures |v| == r.bits + 8 * (|next| - r.pos)
  {
    ToBits(r.hold, r.bits) + ByteBits(next[r.pos..])
  }

  method PullByte(r: Reg, next: seq<byte>) returns (r': Reg)
    requires RegOk(r, next) && r.pos < |next| && r.bits <= 22
    ensures RegOk(r', next) && View(r', next) == View(r, next) && r'.bits == r.bits + 8 && r'.pos == r.pos + 1
  {
    PullBits(r.hold, r.bits, next[r.pos..]);
    assert next[r.pos..][1..] == next[r.pos + 1..];
    return Reg(r.hold + next[r.pos] * Pow2(r.bits), r.bits + 8, r.pos + 1);
  }

  /** `if (bits < 15)` read two bytes */
  method Fill(r: Reg, next: seq<byte>) returns (r': Reg)
    requires RegOk(r, next) && (r.bits < 15 ==> r.pos + 2 <= |next|)
    ensures RegOk(r', next) && View(r', next) == View(r, next) && r'.bits >= 15
    ensures if r.bits < 15 then r'.bits == r.bits + 16 && r'.pos == r.pos + 2 else r' == r
  {
    hide *;
    r' := r;
    if r.bits < 15 {
      r' := PullByte(r', next);
      r' := PullByte(r', next);
    }
  }

  /** `hold >>= n; bits -= n` */
  method DropReg(r: Reg, n: nat, ghost next: seq<byte>) returns (r': Reg)
    requires RegOk(r, next) && n <= r.bits
    ensures RegOk(r', next) && View(r', next) == View(r, next)[n..] && r'.bits == r.bits - n && r'.pos == r.pos
    ensures r'.hold == Shr(r.hold, n)
  {
    hide ToBits, ByteBits, Shr, Pow2;
    ToBitsDrop(r.hold, r.bits, n);
    ghost var held := ToBits(r.hold, r.bits);
    assert (held + ByteBits(next[r.pos..]))[n..] == held[n..] + ByteBits(next[r.pos..]);
    return Reg(Shr(r.hold, n), r.bits - n, r.pos);
  }

  /** dolen and dodist: the entry for the next symbol, whose bits are dropped; at most one link is followed. */
  method TakeEntry(ghost kind: Kind, ghost lens: Lens, table: seq<Entry>, root: nat, r: Reg, ghost next: seq<byte>)
    returns (here: Entry, r': Reg, ghost n: nat)
    requires RegOk(r, next) && r.bits >= 15 && TableOk(kind, lens, table, root)
    ensures RegOk(r', next) && 0 < n <= 15 && r'.bits == r.bits - n && r'.pos == r.pos
    ensures View(r', next) == View(r, next)[n..]
    ensures Says(kind, lens, DecodeSym(lens, View(r, next)), here, n) && !IsLink(here)
  {
    hide ToBits, ByteBits, Low, Shr, Pow2, TableOk, DecodeSym, Says, Accepts;
    Found(kind, lens, table, root, r.hold, r.bits);
    TableLens(kind, lens, table, root);
    ghost var e, skip := Find(table, root, r.hold), Skip(table, root, r.hold);
    Extended(kind, lens, ToBits(r.hold, r.bits), ByteBits(next[r.pos..]), e, skip + e.bits);
    here := table[Low(r.hold, root)];
    n := here.bits;
    r' := DropReg(r, here.bits, next);
    if IsLink(here) {
      SubIndexIs(here, r.hold);
      var op := here.op;
      here := table[here.val + Low(r'.hold, op)];
      n := n + here.bits;
      DropTwice(View(r, next), n - here.bits, here.bits);
      r' := DropReg(r', here.bits, next);
    }
  }

  lemma SubIndexIs(last: Entry, hold: nat)
    ensures last.val + Low(Shr(hold, last.bits), last.op) == SubIndex(last, hold)
  {
    LowShr(hold, last.bits, last.op);
  }

  lemma Extended(kind: Kind, lens: Lens, held: Bits, more: Bits, e: Entry, n: nat)
    requires Bounded(lens) && Accepts(kind, lens) && Says(kind, lens, DecodeSym(lens, held), e, n)
    ensures Says(kind, lens, DecodeSym(lens, held + more), e, n)
  {
    hide Accepts, DecodeSym, SymEntry;
    DecodedStays(kind, lens, held, more);
  }

  datatype Exit = Going | BlockEnd | Error

  /** What is left to write after an exit. */
  ghost function Left(exit: Exit, last: bool, lc: Lens, dc: Lens, bits: Bits): Trace {
    match exit
    case Going => After(last, AtToks(lc, dc), bits)
    case BlockEnd => After(last, AtBlock, bits)
    case Error => INVALID_DATA
  }

  /** The low bits of the register are the next bits of the input. */
  lemma RegPeek(r: Reg, next: seq<byte>, n: nat)
    requires RegOk(r, next) && n <= r.bits
    ensures Low(r.hold, n) == Val(View(r, next)[..n]) && Low(r.hold, n) < Pow2(n)
  {
    hide ToBits, ByteBits, Val, Low, Pow2;
    ToBitsDrop(r.hold, r.bits, n);
    ShrLow(r.hold, n);
    assert View(r, next)[..n] == ToBits(r.hold, r.bits)[..n];
  }

  lemma TailTail(a: Bits, b: Bits, c: Bits, i: nat, j: nat)
    requires i <= |a| && b == a[i..] && j <= |b| && c == b[j..]
    ensures i + j <= |a| && c == a[i + j..]
  {
  }

  lemma LeftForms(last: bool, lc: Lens, dc: Lens, bits: Bits)
    ensures Sound(AtToks(lc, dc)) && Sound(AtBlock)
    ensures Left(Going, last, lc, dc, bits) == After(last, AtToks(lc, dc), bits)
    ensures Left(BlockEnd, last, lc, dc, bits) == After(last, AtBlock, bits)
    ensures Put([], Left(Error, last, lc, dc, bits)) == INVALID_DATA == Left(Error, last, lc, dc, bits)
  {
  }

  /** If nothing could be decoded from the first `floor` bits, a symbol takes more than that. */
  lemma BeyondFloor(kind: Kind, lens: Lens, v: Bits, floor: nat, here: Entry, n: nat)
    requires Bounded(lens) && Accepts(kind, lens) && Says(kind, lens, DecodeSym(lens, v), here, n) && n > 0
    requires floor == 0 || (floor <= |v| && DecodeSym(lens, v[..floor]) == NeedBits)
    ensures n > floor
  {
    hide Accepts, SymEntry;
    if floor > 0 {
      assert (v + [])[..floor] == v[..floor];
      CompleteNow(kind, lens, v[..floor], v, [], n);
    }
  }

  /** One round of the loop; `c` bits are used, more than `floor`. */
  method Token(ghost last: bool, ghost lc: Lens, ghost dc: Lens, lcode: seq<Entry>, lenbits: nat, dcode: seq<Entry>,
      distbits: nat,
               r: Reg, next: seq<byte>, ghost more: Bits, ghost floor: nat)
    returns (exit: Exit, r': Reg, out: seq<byte>, ghost c: nat)
    requires RegOk(r, next) && r.pos + 6 <= |next|
    requires TableOk(LenCodes, lc, lcode, lenbits) && TableOk(DistCodes, dc, dcode, distbits)
    requires floor == 0 || (floor <= |View(r, next)| && DecodeSym(lc, View(r, next)[..floor]) == NeedBits)
    ensures RegOk(r', next) && |out| <= 4
    ensures floor < c <= |View(r, next)| && View(r', next) == View(r, next)[c..]
    ensures After(last, AtToks(lc, dc), View(r, next) + more) == Put(out,
            Left(exit, last, lc, dc, View(r', next) + more))
  {
    hide *;
    ghost var v0 := View(r, next);
    TableLens(LenCodes, lc, lcode, lenbits);
    var r1 := Fill(r, next);
    var here, r2, n := TakeEntry(LenCodes, lc, lcode, lenbits, r1, next);
    ghost var s := LenCases(last, lc, dc, v0, more, here, n);
    BeyondFloor(LenCodes, lc, v0, floor, here, n);
    LeftForms(last, lc, dc, View(r2, next) + more);
    r', c := r2, n;
    if here.op == 0 {
      LitBytes(here.val);
      out := if here.val == 0xaa then [0xaa, 0xaa] else [here.val];
      AfterSending(last, out, AtToks(lc, dc), View(r2, next) + more);
      exit := Going;
    } else if HasBit(here.op, 16) {
      ghost var k;
      exit, r', out, k := Match(last, lc, dc, dcode, distbits, r2, next, more, here, s);
      TailTail(v0, View(r2, next), View(r', next), n, k);
      c := n + k;
    } else if HasBit(here.op, 32) {
      IsMark();
      out := [0xaa, 255];
      AfterSending(last, out, AtBlock, View(r2, next) + more);
      exit := BlockEnd;
    } else {
      exit, out := Error, [];
    }
  }

  /** The rest of a match, after its length symbol. */
  method Match(ghost last: bool, ghost lc: Lens, ghost dc: Lens, dcode: seq<Entry>, distbits: nat,
               r: Reg, next: seq<byte>, ghost more: Bits, here: Entry, ghost s: nat)
    returns (exit: Exit, r': Reg, out: seq<byte>, ghost c: nat)
    requires RegOk(r, next) && (r.pos + 6 <= |next| || (r.pos + 4 <= |next| && r.bits >= 1))
    requires TableOk(DistCodes, dc, dcode, distbits)
    requires IsLenSym(s) && here.op % 16 == LenExtra(s) && here.val == LBase(s - 257) && Sound(AtLenExt(lc, dc, s))
    ensures RegOk(r', next) && |out| <= 4
    ensures c <= |View(r, next)| && View(r', next) == View(r, next)[c..]
    ensures After(last, AtLenExt(lc, dc, s), View(r, next) + more) == Put(out,
            Left(exit, last, lc, dc, View(r', next) + more))
  {
    hide *;
    ghost var v0 := View(r, next);
    ExtraBounds(s, 0);
    var len, op := here.val, here.op % 16;
    r' := r;
    ghost var ext := 0;
    if op != 0 {
      if r'.bits < op {
        r' := PullByte(r', next);
      }
      StepLenExt(last, lc, dc, s, v0, more);
      RegPeek(r', next, op);
      ext := Low(r'.hold, op);
      len := len + Low(r'.hold, op);
      r' := DropReg(r', op, next);
    } else {
      StepLenExt(last, lc, dc, s, v0, more);
      NoExtra(v0);
    }
    ghost var v1 := View(r', next);
    SoundDist(lc, dc, s, ext);
    ghost var k;
    exit, r', out, k := Distance(last, lc, dc, dcode, distbits, r', next, more, len, s, ext);
    TailTail(v0, v1, View(r', next), op, k);
    c := op + k;
  }

  lemma ExtraBounds(s: nat, d: nat)
    requires IsLenSym(s) && IsDistSym(d)
    ensures LenExtra(s) <= 5 && DistExtra(d) <= 13
  {
  }

  /** The distance of a match. */
  method Distance(ghost last: bool, ghost lc: Lens, ghost dc: Lens, dcode: seq<Entry>, distbits: nat,
                  r: Reg, next: seq<byte>, ghost more: Bits, len: nat, ghost s: nat, ghost ext: nat)
    returns (exit: Exit, r': Reg, out: seq<byte>, ghost c: nat)
    requires RegOk(r, next) && (r.pos + 4 <= |next| || (r.pos + 3 <= |next| && r.bits >= 4))
    requires TableOk(DistCodes, dc, dcode, distbits)
    requires IsLenSym(s) && ext < Pow2(LenExtra(s)) && len == LBase(s - 257) + ext && Sound(AtDist(lc, dc, s, ext))
    ensures RegOk(r', next) && |out| <= 4
    ensures c <= |View(r, next)| && View(r', next) == View(r, next)[c..]
    ensures After(last, AtDist(lc, dc, s, ext), View(r, next) + more) ==
            Put(out, Left(exit, last, lc, dc, View(r', next) + more))
  {
    hide *;
    ghost var v0 := View(r, next);
    TableLens(DistCodes, dc, dcode, distbits);
    r' := Fill(r, next);
    var here;
    here, r', c := TakeEntry(DistCodes, dc, dcode, distbits, r', next);
    ghost var d := DistCases(last, lc, dc, s, ext, v0, more, here, c);
    LeftForms(last, lc, dc, View(r', next) + more);
    if !HasBit(here.op, 16) {
      return Error, r', [], c;
    }
    ExtraBounds(s, d);
    var dist, op := here.val, here.op % 16;
    ghost var v1 := View(r', next);
    if r'.bits < op {
      r' := PullByte(r', next);
      if r'.bits < op {
        r' := PullByte(r', next);
      }
    }
    StepDistExt(last, lc, dc, s, ext, d, v1, more);
    RegPeek(r', next, op);
    ghost var dext := Low(r'.hold, op);
    dist := dist + Low(r'.hold, op);
    r' := DropReg(r', op, next);
    IsToken(s, ext, d, dext);
    MatchBytes(s, ext, d, dext);
    TailTail(v0, v1, View(r', next), c, op);
    c := c + op;
    out := [0xaa, dist / 256, dist % 256, len - 3];
    LeftForms(last, lc, dc, View(r', next) + more);
    AfterSending(last, out, AtToks(lc, dc), View(r', next) + more);
    exit := Going;
  }

  // ----- giving back unused bytes -----

  lemma SuffixOf(a: Bits, v: Bits, c: nat, k: nat)
    requires c <= |a| && v == a[c..] && k <= |v|
    ensures v[|v| - k..] == a[|a| - k..]
  {
  }

  /** Whole bytes in the register are the last bytes taken from the input. */
  lemma UnreadBytes(r: Reg, next: seq<byte>, start: Bits, c: nat, k: nat)
    requires RegOk(r, next) && 8 * k <= r.bits && k <= r.pos
    requires |start| >= 8 * |next| && start[|start| - 8 * |next|..] == ByteBits(next)
    requires c <= |start| && View(r, next) == start[c..]
    ensures var r' := Reg(Low(r.hold, r.bits - 8 * k), r.bits - 8 * k, r.pos - k);
            RegOk(r', next) && View(r', next) == View(r, next)
  {
    var b, p := r.bits - 8 * k, r.pos - k;
    var v := View(r, next);
    ToBitsDrop(r.hold, r.bits, b);
    ShrLow(r.hold, b);
    var held := ToBits(r.hold, r.bits);
    hide ToBits, ByteBits, Low, Shr, Pow2;
    assert v[..b] == held[..b];
    var m := 8 * (|next| - p);
    SuffixOf(start, v, c, m);
    ByteBitsDrop(next, p);
    assert |start| - m == (|start| - 8 * |next|) + 8 * p;
    assert start[|start| - m..] == start[|start| - 8 * |next|..][8 * p..];
    assert v[b..] == ByteBits(next[p..]);
    assert v == v[..b] + v[b..];
  }

  /**
    inflate_fast: tokens until the block ends, or too little input or space is left to go on unchecked.
    The state on entry is that of the LEN mode, so a symbol may already be waiting in the register.
   */
  method InflateFast(ghost last: bool, ghost lc: Lens, ghost dc: Lens, lcode: seq<Entry>, lenbits: nat,
      dcode: seq<Entry>, distbits: nat,
                     hold: nat, bits: nat, next: seq<byte>, left: nat, ghost more: Bits)
    returns (exit: Exit, r: Reg, put: seq<byte>)
    requires hold < Pow2(bits) && (bits < 8 || Waiting(lc, hold, bits)) && bits < 15
    requires |next| >= 6 && left >= 258
    requires TableOk(LenCodes, lc, lcode, lenbits) && TableOk(DistCodes, dc, dcode, distbits)
    ensures RegOk(r, next) && r.bits < 8 && |put| <= left
    ensures |View(r, next)| < bits + 8 * |next|
    ensures After(last, AtToks(lc, dc), ToBits(hold, bits) + ByteBits(next) + more) ==
            Put(put, Left(exit, last, lc, dc, View(r, next) + more))
  {
    hide *;
    r := Reg(hold, bits, 0);
    FirstView(hold, bits, next);
    ghost var start, c := View(r, next), 0;
    ghost var floor: nat := if bits < 8 then 0 else bits;
    FirstFloor(lc, hold, bits, next);
    FirstPut(last, lc, dc, start + more);
    put, exit := [], Going;
    while true
      invariant RegOk(r, next) && c <= |start| && View(r, next) == start[c..] && exit == Going
      invariant r.pos + 6 <= |next| && |put| + 258 <= left
      invariant r.bits < 8 * r.pos + 8 || (c == 0 && r.pos == 0 && r.bits == bits && floor == bits)
      invariant floor == 0 || (floor <= |View(r, next)| && DecodeSym(lc, View(r, next)[..floor]) == NeedBits)
      invariant After(last, AtToks(lc, dc), start + more) == Put(put, Left(exit, last, lc, dc, View(r, next) + more))
      decreases |start| - c
    {
      ghost var v := View(r, next);
      ghost var k;
      var out;
      LeftForms(last, lc, dc, v + more);
      exit, r, out, k := Token(last, lc, dc, lcode, lenbits, dcode, distbits, r, next, more, floor);
      TailTail(start, v, View(r, next), c, k);
      PutPut(put, out, Left(exit, last, lc, dc, View(r, next) + more));
      put := put + out;
      c, floor := c + k, 0;
      if exit != Going || r.pos + 5 >= |next| || |put| + 257 >= left {
        break;
      }
    }
    var len := r.bits / 8;
    UnreadBytes(r, next, start, c, len);
    r := Reg(Low(r.hold, r.bits - 8 * len), r.bits - 8 * len, r.pos - len);
  }

  lemma FirstView(hold: nat, bits: nat, next: seq<byte>)
    requires hold < Pow2(bits) && bits < 15
    ensures var r := Reg(hold, bits, 0);
            RegOk(r, next) && View(r, next) == ToBits(hold, bits) + ByteBits(next)
                && View(r, next)[0..] == View(r, next)
    ensures var v := ToBits(hold, bits) + ByteBits(next);
            v[|v| - 8 * |next|..] == ByteBits(next)
  {
    hide ToBits, ByteBits, Pow2;
    assert next[0..] == next;
  }

  lemma FirstFloor(lc: Lens, hold: nat, bits: nat, next: seq<byte>)
    requires bits < 8 || Waiting(lc, hold, bits)
    ensures bits < 8 || DecodeSym(lc, (ToBits(hold, bits) + ByteBits(next))[..bits]) == NeedBits
  {
    hide ToBits, ByteBits, DecodeSym;
    assert (ToBits(hold, bits) + ByteBits(next))[..bits] == ToBits(hold, bits);
  }

  lemma FirstPut(last: bool, lc: Lens, dc: Lens, bits: Bits)
    ensures Sound(AtToks(lc, dc))
    ensures After(last, AtToks(lc, dc), bits) == Put([], Left(Going, last, lc, dc, bits))
  {
    hide EmitToks;
  }
}
