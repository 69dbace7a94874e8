/**
  The instruction stream the decoder writes and the encoder reads back: block headers bit for bit,
  then one instruction per literal or match, everything aligned to bytes.
 */
module Instructions {
  import opened Bits
  import opened Format
  import opened LengthCodes

  const ESC: byte := 0xaa
  const MARK: seq<byte> := [0xaa, 0xff]  // ends a header and ends a block

  /** A literal; 0xaa is doubled. */
  function LitIns(b: byte): seq<byte> {
    if b == ESC then [ESC, ESC] else [b]
  }

  /** A match: distance, most significant byte first, and length minus 3. */
  function MatchIns(dist: nat, lc: nat): seq<byte>
    requires dist < 65536 && lc < 256
  {
    [ESC, dist / 256, dist % 256, lc]
  }

  /** The instruction for a token. */
  function TokIns(t: Tok): seq<byte>
    requires ValidTok(t)
  {
    match t
    case Lit(b) => LitIns(b)
    case Match(_, _, _, _) =>
      TokRange(t);
      MatchIns(TokDist(t), TokLen(t) - 3)
  }

  function InsToks(ts: seq<Tok>): seq<byte>
    requires ValidToks(ts)
  {
    if ts == [] then [] else TokIns(ts[0]) + InsToks(ts[1..])
  }

  /** What a block's header becomes: its bits, padded to a byte, and the mark. */
  function HeadIns(b: Bits): seq<byte> {
    Pack(b) + MARK
  }

  function StoredHead(last: bool, n: nat): seq<byte>
    requires n < 65536
  {
    Pack(TypeBits(last, 0)) + HeadIns(StoredLens(n))
  }

  function InsBlock(b: Block): seq<byte>
    requires ValidBlock(b)
  {
    match b
    case StoredBlock(last, _, data) => StoredHead(last, |data|) + data + MARK
    case FixedBlock(last, toks) => HeadIns(TypeBits(last, 1)) + InsToks(toks) + MARK
    case DynamicBlock(last, h, toks) => HeadIns(TypeBits(last, 2) + HeaderBits(h)) + InsToks(toks) + MARK
  }

  function InsStream(bs: seq<Block>): seq<byte>
    requires ValidBlocks(bs)
  {
    if bs == [] then [] else InsBlock(bs[0]) + InsStream(bs[1..])
  }

  lemma InsToksCons(t: Tok, ts: seq<Tok>)
    requires ValidTok(t) && ValidToks(ts)
    ensures ValidToks([t] + ts)
    ensures InsToks([t] + ts) == TokIns(t) + InsToks(ts)
  {
    assert ([t] + ts)[1..] == ts;
  }

  lemma InsStreamCons(b: Block, bs: seq<Block>)
    requires ValidBlock(b) && ValidBlocks(bs)
    ensures ValidBlocks([b] + bs)
    ensures InsStream([b] + bs) == InsBlock(b) + InsStream(bs)
  {
    assert ([b] + bs)[1..] == bs;
  }
}

/**
  What the decoder writes for any input at all, mode by mode: the instruction bytes and how it ends.
  A truncated or invalid stream has an output too, up to where it goes wrong.
 */
module DecoderSpec {
  import opened Bits
  import opened Huffman
  import opened TableSpec
  import opened Format
  import opened FormatLemmas
  import opened LengthCodes
  import opened Instructions

  datatype End =
    | Finished(rest: Bits)  // the last block has been read; whole bytes left over
    | Starved               // waiting for more input
    | Invalid

  datatype Trace = Trace(out: seq<byte>, end: End)

  const STARVED := Trace([], Starved)
  const INVALID_DATA := Trace([], Invalid)

  function Put(b: seq<byte>, t: Trace): Trace {
    Trace(b + t.out, t.end)
  }

  /** Between blocks (state TYPEDO). */
  ghost function EmitBlocks(last: bool, bits: Bits): (t: Trace)
    decreases |bits|, 9
  {
    if last then Trace([], Finished(Aligned(bits)))
    else if |bits| < 3 then STARVED
    else
      var t := Val(bits[1..3]);
      if t == 0 then EmitStored(bits[0], bits[3..])
      else if t == 1 then Put(HeadIns(TypeBits(bits[0], 1)), EmitToks(bits[0], FixedLit(), FixedDist(), bits[3..]))
      else if t == 2 then EmitHeader(bits[0], ReadHeader(true, bits[3..]))
      else INVALID_DATA
  }

  lemma HeaderValid(bits: Bits)
    ensures ReadHeader(true, bits).Ok? ==> ValidHeader(ReadHeader(true, bits).v)
  {
    if ReadHeader(true, bits).Ok? {
      HeaderExact(true, bits);
    }
  }

  /** A stored block after its type bits (state STORED). */
  ghost function EmitStored(last: bool, bits: Bits): (t: Trace)
    decreases |bits|, 12
  {
    EmitLens(last, Aligned(bits))
  }

  ghost function EmitLens(last: bool, b: Bits): (t: Trace)
    decreases |b|, 11
  {
    if |b| < 32 then STARVED
    else
      var n := Val(b[..16]);
      if n + Val(b[16..32]) != 65535 then INVALID_DATA
      else Put(StoredHead(last, n), EmitData(last, n, b[32..]))
  }

  /** The rest of a stored block, `n` bytes (state COPY). */
  ghost function EmitData(last: bool, n: nat, bits: Bits): (t: Trace)
    decreases |bits|, 10
  {
    if n == 0 then Put(MARK, EmitBlocks(last, bits))
    else if |bits| < 8 then STARVED
    else Put(Pack(bits[..8]), EmitData(last, n - 1, bits[8..]))
  }

  /** After a dynamic header (state SEND_HEADER).  Every header that was read is valid: see HeaderExact. */
  ghost function EmitHeader(last: bool, p: Parsed<Header>): (t: Trace)
    requires p.Ok? ==> AcceptsHeader(p.v)
    decreases if p.Ok? then |p.rest| else 0, 4
  {
    match p
    case Short => STARVED
    case Bad => INVALID_DATA
    case Ok(h, bits) =>
      if !ValidHeader(h) then INVALID_DATA
      else Put(HeadIns(TypeBits(last, 2) + HeaderBits(h)), EmitToks(last, LitLens(h), DistLens(h), bits))
  }

  /** Tokens (state LEN). */
  ghost function EmitToks(last: bool, lc: Lens, dc: Lens, bits: Bits): (t: Trace)
    decreases |bits|, 3
  {
    match DecodeSym(lc, bits)
    case NeedBits => STARVED
    case NoCode => INVALID_DATA
    case Sym(s) =>
      var b := bits[lc[s]..];
      if s < 256 then Put(LitIns(s), EmitToks(last, lc, dc, b))
      else if s == 256 then Put(MARK, EmitBlocks(last, b))
      else if s > 285 then INVALID_DATA
      else EmitLenExt(last, lc, dc, s, b)
  }

  /** State LENEXT. */
  ghost function EmitLenExt(last: bool, lc: Lens, dc: Lens, s: nat, bits: Bits): (t: Trace)
    requires IsLenSym(s)
    decreases |bits|, 6
  {
    var n := LenExtra(s);
    if |bits| < n then STARVED
    else
      ValBound(bits[..n]);
      EmitDist(last, lc, dc, s, Val(bits[..n]), bits[n..])
  }

  /** State DIST. */
  ghost function EmitDist(last: bool, lc: Lens, dc: Lens, s: nat, ext: nat, bits: Bits): (t: Trace)
    requires IsLenSym(s) && ext < Pow2(LenExtra(s))
    decreases |bits|, 5
  {
    match DecodeSym(dc, bits)
    case NeedBits => STARVED
    case NoCode => INVALID_DATA
    case Sym(d) => if d >= 30 then INVALID_DATA else EmitDistExt(last, lc, dc, s, ext, d, bits[dc[d]..])
  }

  /** State DISTEXT. */
  ghost function EmitDistExt(last: bool, lc: Lens, dc: Lens, s: nat, ext: nat, d: nat, bits: Bits): (t: Trace)
    requires IsLenSym(s) && ext < Pow2(LenExtra(s)) && IsDistSym(d)
    decreases |bits|, 4
  {
    var n := DistExtra(d);
    if |bits| < n then STARVED
    else
      ValBound(bits[..n]);
      Put(TokIns(Match(s, ext, d, Val(bits[..n]))), EmitToks(last, lc, dc, bits[n..]))
  }

  // ----- the output of a valid stream -----

  lemma PutPut(a: seq<byte>, b: seq<byte>, t: Trace)
    ensures Put(a, Put(b, t)) == Put(a + b, t)
  {
    Assoc(a, b, t.out);
  }

  /** How reading tokens shows in the output. */
  ghost predicate TokensTold(last: bool, p: Parsed<seq<Tok>>, t: Trace) {
    match p
    case Ok(ts, rest) => ValidToks(ts) && t == Put(InsToks(ts) + MARK, EmitBlocks(last, rest))
    case Short => t.end == Starved
    case Bad => t.end == Invalid
  }

  lemma TokensToldCons(last: bool, x: Tok, p: Parsed<seq<Tok>>, t: Trace)
    requires ValidTok(x) && TokensTold(last, p, t)
    ensures TokensTold(last, ConsTok(x, p), Put(TokIns(x), t))
  {
    hide EmitBlocks, TokIns;
    if p.Ok? {
      InsToksCons(x, p.v);
      PutPut(TokIns(x), InsToks(p.v) + MARK, EmitBlocks(last, p.rest));
      Assoc(TokIns(x), InsToks(p.v), MARK);
    }
  }

  /** The decoder tells the tokens of a block, one instruction each. */
  lemma {:induction false} EmitToksRead(last: bool, lc: Lens, dc: Lens, bits: Bits)
    ensures TokensTold(last, ReadToks(lc, dc, bits), EmitToks(last, lc, dc, bits))
    decreases |bits|, 0
  {
    hide EmitBlocks, EmitLenExt, ReadLenExt, TokensTold;
    match DecodeSym(lc, bits) {
      case NeedBits => TokensToldEnd(last, ReadToks(lc, dc, bits), EmitToks(last, lc, dc, bits));
      case NoCode => TokensToldEnd(last, ReadToks(lc, dc, bits), EmitToks(last, lc, dc, bits));
      case Sym(s) =>
        var b := bits[lc[s]..];
        if s < 256 {
          EmitToksRead(last, lc, dc, b);
          TokensToldCons(last, Lit(s), ReadToks(lc, dc, b), EmitToks(last, lc, dc, b));
        } else if s == 256 {
          TokensToldNil(last, b);
        } else if s <= 285 {
          EmitMatchRead(last, lc, dc, s, b);
        } else {
          TokensToldEnd(last, ReadToks(lc, dc, bits), EmitToks(last, lc, dc, bits));
        }
    }
  }

  lemma TokensToldEnd(last: bool, p: Parsed<seq<Tok>>, t: Trace)
    requires (p.Short? && t.end == Starved) || (p.Bad? && t.end == Invalid)
    ensures TokensTold(last, p, t)
  {
  }

  lemma TokensToldNil(last: bool, bits: Bits)
    ensures TokensTold(last, Ok([], bits), Put(MARK, EmitBlocks(last, bits)))
  {
    hide EmitBlocks;
    assert InsToks([]) + MARK == MARK;
  }

  lemma {:induction false} EmitMatchRead(last: bool, lc: Lens, dc: Lens, s: nat, bits: Bits)
    requires IsLenSym(s)
    ensures TokensTold(last, ReadLenExt(lc, dc, s, bits), EmitLenExt(last, lc, dc, s, bits))
    decreases |bits|, 3
  {
    hide TokensTold, EmitDist, ReadDist;
    var n := LenExtra(s);
    if |bits| < n {
      TokensToldEnd(last, ReadLenExt(lc, dc, s, bits), EmitLenExt(last, lc, dc, s, bits));
    } else {
      ValBound(bits[..n]);
      EmitDistRead(last, lc, dc, s, Val(bits[..n]), bits[n..]);
    }
  }

  lemma {:induction false} EmitDistRead(last: bool, lc: Lens, dc: Lens, s: nat, ext: nat, bits: Bits)
    requires IsLenSym(s) && ext < Pow2(LenExtra(s))
    ensures TokensTold(last, ReadDist(lc, dc, s, ext, bits), EmitDist(last, lc, dc, s, ext, bits))
    decreases |bits|, 2
  {
    hide TokensTold, EmitDistExt, ReadDistExt, LenExtra;
    match DecodeSym(dc, bits) {
      case NeedBits => TokensToldEnd(last, ReadDist(lc, dc, s, ext, bits), EmitDist(last, lc, dc, s, ext, bits));
      case NoCode => TokensToldEnd(last, ReadDist(lc, dc, s, ext, bits), EmitDist(last, lc, dc, s, ext, bits));
      case Sym(d) =>
        if d >= 30 {
          TokensToldEnd(last, ReadDist(lc, dc, s, ext, bits), EmitDist(last, lc, dc, s, ext, bits));
        } else {
          EmitDistExtRead(last, lc, dc, s, ext, d, bits[dc[d]..]);
        }
    }
  }

  lemma {:induction false} EmitDistExtRead(last: bool, lc: Lens, dc: Lens, s: nat, ext: nat, d: nat, bits: Bits)
    requires IsLenSym(s) && ext < Pow2(LenExtra(s)) && IsDistSym(d)
    ensures TokensTold(last, ReadDistExt(lc, dc, s, ext, d, bits), EmitDistExt(last, lc, dc, s, ext, d, bits))
    decreases |bits|, 1
  {
    hide TokensTold, EmitToks, ReadToks, LenExtra, DistExtra, TokIns, Pow2;
    var n := DistExtra(d);
    if |bits| < n {
      TokensToldEnd(last, ReadDistExt(lc, dc, s, ext, d, bits), EmitDistExt(last, lc, dc, s, ext, d, bits));
    } else {
      ValBound(bits[..n]);
      EmitToksRead(last, lc, dc, bits[n..]);
      TokensToldCons(last, Match(s, ext, d, Val(bits[..n])), ReadToks(lc, dc, bits[n..]),
          EmitToks(last, lc, dc, bits[n..]));
    }
  }

  /** How reading blocks shows in the output. */
  ghost predicate BlocksTold(p: Parsed<seq<Block>>, t: Trace) {
    match p
    case Ok(bs, rest) => ValidBlocks(bs) && t == Trace(InsStream(bs), Finished(Aligned(rest)))
    case Short => t.end == Starved
    case Bad => t.end == Invalid
  }

  ghost predicate BlockTold(p: Parsed<Block>, t: Trace) {
    match p
    case Ok(b, rest) => ValidBlock(b) && t == Put(InsBlock(b), EmitBlocks(b.last, rest))
    case Short => t.end == Starved
    case Bad => t.end == Invalid
  }

  lemma {:induction false} EmitDataRead(last: bool, n: nat, bits: Bits)
    ensures |bits| < 8 * n ==> EmitData(last, n, bits).end == Starved
    ensures |bits| >= 8 * n ==>
                EmitData(last, n, bits) == Put(Pack(bits[..8 * n]) + MARK, EmitBlocks(last, bits[8 * n..]))
    decreases n
  {
    hide EmitBlocks;
    if n == 0 {
      assert Pack(bits[..0]) + MARK == MARK;
      assert bits[0..] == bits;
    } else if |bits| >= 8 {
      EmitDataRead(last, n - 1, bits[8..]);
      if |bits| >= 8 * n {
        PackFirst(bits[..8 * n]);
        EmitDataSlices(bits, n);
        PutPut(Pack(bits[..8]), Pack(bits[8..8 * n]) + MARK, EmitBlocks(last, bits[8 * n..]));
        Assoc(Pack(bits[..8]), Pack(bits[8..8 * n]), MARK);
      }
    }
  }

  lemma EmitDataSlices(bits: Bits, n: nat)
    requires 8 <= 8 * n <= |bits|
    ensures bits[..8 * n][..8] == bits[..8] && bits[..8 * n][8..] == bits[8..8 * n]
    ensures bits[8..][..8 * (n - 1)] == bits[8..8 * n] && bits[8..][8 * (n - 1)..] == bits[8 * n..]
  {
  }

  lemma PackFirst(b: Bits)
    requires |b| >= 8
    ensures Pack(b) == Pack(b[..8]) + Pack(b[8..])
  {
    assert b[..8][..8] == b[..8];
    assert Pack(b[..8][8..]) == [];
  }

  lemma EmitBlockRead(bits: Bits)
    ensures BlockTold(ReadBlock(bits), EmitBlocks(false, bits))
  {
    hide EmitToks, EmitStored, ReadStored, ReadToks, ReadHeader, HeaderBits, InsToks, Pack, FixedLit, FixedDist,
        Expand, TypeBits, ValidHeader;
    if |bits| >= 3 {
      var last, b := bits[0], bits[3..];
      var t := Val(bits[1..3]);
      if t == 0 {
        EmitStoredRead(last, b);
      } else if t == 1 {
        EmitToksRead(last, FixedLit(), FixedDist(), b);
        var r := ReadToks(FixedLit(), FixedDist(), b);
        if r.Ok? {
          BlockParts(HeadIns(TypeBits(last, 1)), InsToks(r.v), EmitBlocks(last, r.rest));
        }
      } else if t == 2 {
        HeaderValid(b);
        var p := ReadHeader(true, b);
        if p.Ok? {
          EmitDynamicRead(last, p.v, p.rest);
        }
      }
    }
  }

  lemma EmitDynamicRead(last: bool, h: Header, bits: Bits)
    requires ValidHeader(h) && AcceptsHeader(h)
    ensures BlockTold(ReadDynamic(last, Ok(h, bits)), EmitHeader(last, Ok(h, bits)))
  {
    hide EmitToks, ReadToks, HeaderBits, InsToks, Pack, Expand, EmitBlocks;
    EmitToksRead(last, LitLens(h), DistLens(h), bits);
    var r := ReadToks(LitLens(h), DistLens(h), bits);
    if r.Ok? {
      BlockParts(HeadIns(TypeBits(last, 2) + HeaderBits(h)), InsToks(r.v), EmitBlocks(last, r.rest));
    }
  }

  lemma BlockParts(head: seq<byte>, body: seq<byte>, t: Trace)
    ensures Put(head, Put(body + MARK, t)) == Put(head + body + MARK, t)
  {
    PutPut(head, body + MARK, t);
    Assoc(head, body, MARK);
  }

  lemma EmitStoredRead(last: bool, bits: Bits)
    ensures BlockTold(ReadStored(last, bits), EmitStored(last, bits))
  {
    hide EmitData, Pack, EmitBlocks;
    var b := Aligned(bits);
    if |b| >= 32 && Val(b[..16]) + Val(b[16..32]) == 65535 {
      var n := Val(b[..16]);
      EmitDataRead(last, n, b[32..]);
      if |b[32..]| >= 8 * n {
        StoredExact(last, bits);
        assert |Pack(b[32..][..8 * n])| == n by { PackLength(b[32..][..8 * n], n); }
        BlockParts(StoredHead(last, n), Pack(b[32..][..8 * n]), EmitBlocks(last, b[32..][8 * n..]));
      }
    }
  }

  lemma PackLength(b: Bits, n: nat)
    requires |b| == 8 * n
    ensures |Pack(b)| == n
  {
  }

  /** The decoder finishes exactly on the valid streams, and then has written their instruction stream. */
  lemma {:induction false} EmitStreamRead(bits: Bits)
    ensures BlocksTold(ReadStream(bits), EmitBlocks(false, bits))
    decreases |bits|
  {
    hide EmitBlocks, ReadBlock, InsBlock;
    EmitBlockRead(bits);
    var r := ReadBlock(bits);
    if r.Ok? {
      if r.v.last {
        EmitLast(r.rest);
        InsStreamCons(r.v, []);
        assert [r.v] + [] == [r.v];
      } else {
        EmitStreamRead(r.rest);
        var p := ReadStream(r.rest);
        if p.Ok? {
          InsStreamCons(r.v, p.v);
        }
      }
    }
  }

  lemma EmitLast(bits: Bits)
    ensures EmitBlocks(true, bits) == Trace([], Finished(Aligned(bits)))
  {
  }
}
