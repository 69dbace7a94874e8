/**
  The DEFLATE format of RFC 1951, to the bit.

  A block is kept as the syntax elements it consists of, so that its bits can be written down
  exactly; the parsers below say how the decoder reads a bit string, in the same order of checks.
 */
module Format {
  import opened Bits
  import opened Huffman
  import opened TableSpec

  // ----- syntax -----

  /** A literal, or a match as a length symbol and a distance symbol with their extra bits. */
  datatype Tok =
    | Lit(b: byte)
    | Match(lsym: nat, lext: nat, dsym: nat, dext: nat)

  /** One code-length instruction of a dynamic header (section 3.2.7 of RFC 1951). */
  datatype ClOp =
    | LenOp(len: nat)       // symbols 0..15
    | RepeatOp(n: nat)      // symbol 16: repeat the previous length 3..6 times
    | ZerosOp(n: nat)       // symbol 17: 3..10 zeros
    | ManyZerosOp(n: nat)   // symbol 18: 11..138 zeros

  /** A dynamic header: `cl` are the code lengths of the code-length code, in transmission order. */
  datatype Header = Header(nlen: nat, ndist: nat, cl: seq<nat>, ops: seq<ClOp>)

  datatype Block =
    | StoredBlock(last: bool, pad: Bits, data: seq<byte>)
    | FixedBlock(last: bool, toks: seq<Tok>)
    | DynamicBlock(last: bool, hdr: Header, toks: seq<Tok>)

  const ORDER: seq<nat> := [16, 17, 18, 0, 8, 7, 9, 6, 10, 5, 11, 4, 12, 3, 13, 2, 14, 1, 15]

  // ----- meaning of the symbols -----

  predicate IsLenSym(s: nat) {
    257 <= s <= 285
  }

  predicate IsDistSym(d: nat) {
    d < 30
  }

  function LenExtra(s: nat): nat
    requires IsLenSym(s)
  {
    LExt(s - 257) % 16
  }

  function DistExtra(d: nat): nat
    requires IsDistSym(d)
  {
    DExt(d) % 16
  }

  predicate ValidTok(t: Tok) {
    t.Match? ==>
      && IsLenSym(t.lsym) && t.lext < Pow2(LenExtra(t.lsym))
      && IsDistSym(t.dsym) && t.dext < Pow2(DistExtra(t.dsym))
  }

  function TokLen(t: Tok): nat
    requires t.Match? && ValidTok(t)
  {
    LBase(t.lsym - 257) + t.lext
  }

  function TokDist(t: Tok): nat
    requires t.Match? && ValidTok(t)
  {
    DBase(t.dsym) + t.dext
  }

  /** Lengths of the code-length code, indexed by symbol. */
  function ClLens(cl: seq<nat>): (r: Lens)
    ensures |r| == 19
  {
    seq(19, s requires 0 <= s < 19 => ClLenOf(cl, s, 0))
  }

  /** The length at the position of symbol `s` in transmission order, 0 if not sent. */
  function ClLenOf(cl: seq<nat>, s: nat, i: nat): nat
    decreases |cl| - i
  {
    if i >= |cl| || i >= 19 then 0 else if ORDER[i] == s then cl[i] else ClLenOf(cl, s, i + 1)
  }

  function OpSym(op: ClOp): nat {
    match op
    case LenOp(v) => v
    case RepeatOp(_) => 16
    case ZerosOp(_) => 17
    case ManyZerosOp(_) => 18
  }

  /** The instruction a code-length symbol and its extra bits make. */
  function OpOf(s: nat, n: nat): ClOp {
    if s < 16 then LenOp(s) else if s == 16 then RepeatOp(3 + n) else if s == 17 then ZerosOp(3 + n)
        else ManyZerosOp(11 + n)
  }

  /** How many extra bits a code-length symbol has. */
  function ExtraOf(s: nat): nat {
    if s < 16 then 0 else if s == 16 then 2 else if s == 17 then 3 else 7
  }

  predicate ValidOp(op: ClOp) {
    match op
    case LenOp(v) => v <= 15
    case RepeatOp(n) => 3 <= n <= 6
    case ZerosOp(n) => 3 <= n <= 10
    case ManyZerosOp(n) => 11 <= n <= 138
  }

  function OpExtra(op: ClOp): Bits
    requires ValidOp(op)
  {
    match op
    case LenOp(_) => []
    case RepeatOp(n) => ToBits(n - 3, 2)
    case ZerosOp(n) => ToBits(n - 3, 3)
    case ManyZerosOp(n) => ToBits(n - 11, 7)
  }

  function Repeated(v: nat, n: nat): (r: seq<nat>)
    ensures |r| == n
  {
    seq(n, _ => v)
  }

  /** The lengths one instruction adds, after the lengths `lens`. */
  function OpLens(lens: seq<nat>, op: ClOp): seq<nat> {
    match op
    case LenOp(v) => [v]
    case RepeatOp(n) => Repeated(if lens == [] then 0 else lens[|lens| - 1], n)
    case ZerosOp(n) => Repeated(0, n)
    case ManyZerosOp(n) => Repeated(0, n)
  }

  /** The code lengths a list of instructions expands to. */
  function Expand(ops: seq<ClOp>): seq<nat> {
    if ops == [] then []
    else
      var before := Expand(ops[..|ops| - 1]);
      before + OpLens(before, ops[|ops| - 1])
  }

  // ----- bits of the syntax elements -----

  /** The bits of a symbol; an unused symbol has none. */
  function SymBits(lens: Lens, s: nat): Bits {
    if Used(lens, s) then CodeBits(lens, s) else []
  }

  function TokBits(lc: Lens, dc: Lens, t: Tok): Bits
    requires ValidTok(t)
  {
    match t
    case Lit(b) => SymBits(lc, b)
    case Match(lsym, lext, dsym, dext) =>
      SymBits(lc, lsym) + ToBits(lext, LenExtra(lsym)) + SymBits(dc, dsym) + ToBits(dext, DistExtra(dsym))
  }

  predicate ValidToks(ts: seq<Tok>) {
    forall t :: t in ts ==> ValidTok(t)
  }

  /** Tokens followed by the end-of-block symbol. */
  function ToksBits(lc: Lens, dc: Lens, ts: seq<Tok>): Bits
    requires ValidToks(ts)
  {
    if ts == [] then SymBits(lc, 256) else TokBits(lc, dc, ts[0]) + ToksBits(lc, dc, ts[1..])
  }

  function OpBits(cl: Lens, op: ClOp): Bits
    requires ValidOp(op)
  {
    SymBits(cl, OpSym(op)) + OpExtra(op)
  }

  predicate ValidOps(ops: seq<ClOp>) {
    forall op :: op in ops ==> ValidOp(op)
  }

  function OpsBits(cl: Lens, ops: seq<ClOp>): Bits
    requires ValidOps(ops)
  {
    if ops == [] then []
    else OpsBits(cl, ops[..|ops| - 1]) + OpBits(cl, ops[|ops| - 1])
  }

  function ClBits(cl: seq<nat>): (r: Bits)
    ensures |r| == 3 * |cl|
  {
    if cl == [] then [] else ClBits(cl[..|cl| - 1]) + ToBits(cl[|cl| - 1], 3)
  }

  function SizesBits(nlen: nat, ndist: nat, ncode: nat): (r: Bits)
    requires nlen >= 257 && ndist >= 1 && ncode >= 4
    ensures |r| == 14
  {
    ToBits(nlen - 257, 5) + ToBits(ndist - 1, 5) + ToBits(ncode - 4, 4)
  }

  predicate ValidHeader(h: Header) {
    && 257 <= h.nlen <= 288 && 1 <= h.ndist <= 32 && 4 <= |h.cl| <= 19
    && (forall v :: v in h.cl ==> v < 8)
    && ValidOps(h.ops)
  }

  function HeaderBits(h: Header): Bits
    requires ValidHeader(h)
  {
    SizesBits(h.nlen, h.ndist, |h.cl|) + ClBits(h.cl) + OpsBits(ClLens(h.cl), h.ops)
  }

  /** The literal/length and distance code lengths a header declares. */
  function LitLens(h: Header): Lens
    requires h.nlen <= |Expand(h.ops)|
  {
    Expand(h.ops)[..h.nlen]
  }

  function DistLens(h: Header): Lens
    requires h.nlen <= |Expand(h.ops)|
  {
    Expand(h.ops)[h.nlen..]
  }

  /** The fixed code of section 3.2.6 of RFC 1951. */
  function FixedLit(): (r: Lens)
    ensures |r| == 288
  {
    seq(288, s => if s < 144 then 8 else if s < 256 then 9 else if s < 280 then 7 else 8)
  }

  function FixedDist(): (r: Lens)
    ensures |r| == 32
  {
    seq(32, _ => 5)
  }

  /** Three bits: the last-block flag and the block type. */
  function TypeBits(last: bool, btype: nat): (r: Bits)
    requires btype < 4
    ensures |r| == 3
  {
    [last] + ToBits(btype, 2)
  }

  function StoredLens(n: nat): (r: Bits)
    requires n < 65536
    ensures |r| == 32
  {
    ToBits(n, 16) + ToBits(65535 - n, 16)
  }

  predicate ValidBlock(b: Block) {
    match b
    case StoredBlock(_, pad, data) => |pad| < 8 && |data| < 65536
    case FixedBlock(_, toks) => ValidToks(toks)
    case DynamicBlock(_, h, toks) =>
      && ValidHeader(h) && ValidToks(toks) && |Expand(h.ops)| == h.nlen + h.ndist
  }

  function BlockBits(b: Block): Bits
    requires ValidBlock(b)
  {
    match b
    case StoredBlock(last, pad, data) => TypeBits(last, 0) + pad + StoredLens(|data|) + ByteBits(data)
    case FixedBlock(last, toks) => TypeBits(last, 1) + ToksBits(FixedLit(), FixedDist(), toks)
    case DynamicBlock(last, h, toks) =>
      TypeBits(last, 2) + HeaderBits(h) + ToksBits(LitLens(h), DistLens(h), toks)
  }

  predicate ValidBlocks(bs: seq<Block>) {
    forall b :: b in bs ==> ValidBlock(b)
  }

  function StreamBits(bs: seq<Block>): Bits
    requires ValidBlocks(bs)
  {
    if bs == [] then [] else BlockBits(bs[0]) + StreamBits(bs[1..])
  }

  // ----- reading bits -----

  datatype Parsed<T> =
    | Ok(v: T, rest: Bits)  // read, with the bits left over
    | Short                 // the input ends too early
    | Bad                   // not valid
  {
    function Map<U>(f: T -> U): (r: Parsed<U>)
      ensures r.Ok? <==> Ok?
      ensures r.Ok? ==> r.v == f(v) && r.rest == rest
    {
      match this
      case Ok(v, rest) => Ok(f(v), rest)
      case Short => Short
      case Bad => Bad
    }
  }

  function ConsTok(t: Tok, r: Parsed<seq<Tok>>): Parsed<seq<Tok>> {
    match r
    case Ok(ts, rest) => Ok([t] + ts, rest)
    case Short => Short
    case Bad => Bad
  }

  /** Tokens up to and including the end-of-block symbol (state LEN). */
  ghost function ReadToks(lc: Lens, dc: Lens, bits: Bits): (r: Parsed<seq<Tok>>)
    ensures r.Ok? ==> |r.rest| < |bits|
    decreases |bits|, 3
  {
    match DecodeSym(lc, bits)
    case NeedBits => Short
    case NoCode => Bad
    case Sym(s) =>
      var b := bits[lc[s]..];
      if s < 256 then ConsTok(Lit(s), ReadToks(lc, dc, b))
      else if s == 256 then Ok([], b)
      else if s > 285 then Bad
      else ReadLenExt(lc, dc, s, b)
  }

  /** The rest of a match, from the extra bits of the length on (state LENEXT). */
  ghost function ReadLenExt(lc: Lens, dc: Lens, s: nat, bits: Bits): (r: Parsed<seq<Tok>>)
    requires IsLenSym(s)
    ensures r.Ok? ==> |r.rest| <= |bits|
    decreases |bits|, 6
  {
    var n := LenExtra(s);
    if |bits| < n then Short else ReadDist(lc, dc, s, Val(bits[..n]), bits[n..])
  }

  /** ... from the distance code on (state DIST). */
  ghost function ReadDist(lc: Lens, dc: Lens, s: nat, ext: nat, bits: Bits): (r: Parsed<seq<Tok>>)
    requires IsLenSym(s)
    ensures r.Ok? ==> |r.rest| <= |bits|
    decreases |bits|, 5
  {
    match DecodeSym(dc, bits)
    case NeedBits => Short
    case NoCode => Bad
    case Sym(d) => if d >= 30 then Bad else ReadDistExt(lc, dc, s, ext, d, bits[dc[d]..])
  }

  /** ... from the extra bits of the distance on (state DISTEXT). */
  ghost function ReadDistExt(lc: Lens, dc: Lens, s: nat, ext: nat, d: nat, bits: Bits): (r: Parsed<seq<Tok>>)
    requires IsLenSym(s) && IsDistSym(d)
    ensures r.Ok? ==> |r.rest| <= |bits|
    decreases |bits|, 4
  {
    var n := DistExtra(d);
    if |bits| < n then Short
    else ConsTok(Match(s, ext, d, Val(bits[..n])), ReadToks(lc, dc, bits[n..]))
  }

  /** A dynamic header (state TABLE); the decoder also limits the numbers of codes. */
  ghost function ReadHeader(strict: bool, bits: Bits): (r: Parsed<Header>)
    ensures r.Ok? ==> |r.rest| <= |bits| && AcceptsHeader(r.v)
  {
    if |bits| < 14 then Short
    else
      var nlen, ndist, ncode := Val(bits[..5]) + 257, Val(bits[5..10]) + 1, Val(bits[10..14]) + 4;
      if strict && (nlen > 286 || ndist > 30) then Bad
      else ReadCl(nlen, ndist, ncode, [], bits[14..])
  }

  /** The code lengths of the code-length code, from the `|cl|`-th on (state LENLENS). */
  ghost function ReadCl(nlen: nat, ndist: nat, ncode: nat, cl: seq<nat>, bits: Bits): (r: Parsed<Header>)
    ensures r.Ok? ==> |r.rest| <= |bits| && AcceptsHeader(r.v)
    decreases |bits|
  {
    if |cl| >= ncode then ReadCodes(nlen, ndist, cl, bits)
    else if |bits| < 3 then Short
    else ReadCl(nlen, ndist, ncode, cl + [Val(bits[..3])], bits[3..])
  }

  ghost function ReadCodes(nlen: nat, ndist: nat, cl: seq<nat>, bits: Bits): (r: Parsed<Header>)
    ensures r.Ok? ==> |r.rest| <= |bits| && AcceptsHeader(r.v)
  {
    if !Bounded(ClLens(cl)) || !Accepts(Codes, ClLens(cl)) then Bad
    else ReadOps(nlen, ndist, cl, [], bits)
  }

  /** The code-length instructions, after `ops` (state CODELENS). */
  ghost function ReadOps(nlen: nat, ndist: nat, cl: seq<nat>, ops: seq<ClOp>, bits: Bits): (r: Parsed<Header>)
    ensures r.Ok? ==> |r.rest| <= |bits| && AcceptsHeader(r.v)
    decreases |bits|
  {
    var lens, total := Expand(ops), nlen + ndist;
    if |lens| >= total then CheckLens(Header(nlen, ndist, cl, ops), bits)
    else
      match DecodeSym(ClLens(cl), bits)
      case NeedBits => Short
      case NoCode =>
        // only when no code-length symbol has a code: each bit is taken for a zero length, and
        // the missing end-of-block code is found at the end
        if |bits| < total - |lens| then Short else Bad
      case Sym(s) =>
        var b, extra := bits[ClLens(cl)[s]..], ExtraOf(s);
        if |b| < extra then Short
        else if s == 16 && lens == [] then Bad
        else
          var op := OpOf(s, Val(b[..extra]));
          if |lens| + |OpLens(lens, op)| > total then Bad
          else ReadOps(nlen, ndist, cl, ops + [op], b[extra..])
  }

  /** The checks on the finished code lengths. */
  ghost function CheckLens(h: Header, bits: Bits): Parsed<Header> {
    if AcceptsHeader(h) then Ok(h, bits) else Bad
  }

  ghost predicate AcceptsHeader(h: Header) {
    var lens := Expand(h.ops);
    && 257 <= h.nlen <= 288 && 1 <= h.ndist <= 32 && |lens| == h.nlen + h.ndist
    && Bounded(lens)
    && lens[256] != 0
    && Accepts(LenCodes, lens[..h.nlen])
    && Accepts(DistCodes, lens[h.nlen..])
  }

  /** A stored block after its type bits (state STORED); the stream as a whole ends on a byte boundary. */
  ghost function ReadStored(last: bool, bits: Bits): (r: Parsed<Block>)
    ensures r.Ok? ==> |r.rest| <= |bits|
  {
    var k := |bits| % 8;
    var b := bits[k..];
    if |b| < 32 then Short
    else
      var n := Val(b[..16]);
      if n + Val(b[16..32]) != 65535 then Bad
      else ReadData(last, bits[..k], n, b[32..])
  }

  ghost function ReadData(last: bool, pad: Bits, n: nat, bits: Bits): (r: Parsed<Block>)
    ensures r.Ok? ==> |r.rest| <= |bits|
  {
    if |bits| < 8 * n then Short else Ok(StoredBlock(last, pad, Pack(bits[..8 * n])), bits[8 * n..])
  }

  ghost function ReadFixed(last: bool, bits: Bits): (r: Parsed<Block>)
    ensures r.Ok? ==> |r.rest| <= |bits|
  {
    ReadToks(FixedLit(), FixedDist(), bits).Map(toks => FixedBlock(last, toks))
  }

  ghost function ReadDynamic(last: bool, p: Parsed<Header>): (r: Parsed<Block>)
    requires p.Ok? ==> AcceptsHeader(p.v)
    ensures r.Ok? ==> p.Ok? && |r.rest| <= |p.rest|
  {
    match p
    case Short => Short
    case Bad => Bad
    case Ok(h, bits) =>
      ReadToks(LitLens(h), DistLens(h), bits).Map(toks => DynamicBlock(last, h, toks))
  }

  /** One block (state TYPEDO). */
  ghost function ReadBlock(bits: Bits): (r: Parsed<Block>)
    ensures r.Ok? ==> |r.rest| < |bits|
  {
    if |bits| < 3 then Short
    else
      var last, b := bits[0], bits[3..];
      var t := Val(bits[1..3]);
      if t == 0 then ReadStored(last, b)
      else if t == 1 then ReadFixed(last, b)
      else if t == 2 then ReadDynamic(last, ReadHeader(true, b))
      else Bad
  }

  /** Blocks up to and including the last one. */
  ghost function ReadStream(bits: Bits): Parsed<seq<Block>>
    decreases |bits|
  {
    match ReadBlock(bits)
    case Short => Short
    case Bad => Bad
    case Ok(b, rest) =>
      if b.last then Ok([b], rest)
      else ReadStream(rest).Map(bs => [b] + bs)
  }
}
