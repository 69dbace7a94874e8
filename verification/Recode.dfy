/**
  What the encoder writes for any instruction stream, mode by mode: the bits and how it ends.
 */
module EncoderSpec {
  import opened Bits
  import opened Huffman
  import opened TableSpec
  import opened Format
  import opened LengthCodes
  import opened RunLength
  import opened Instructions

  const LIT_BUFSIZE: nat := 16384
  const SYM_MAX: nat := 4 * (LIT_BUFSIZE - 1)  // sym_end / 3
  const PENDING_SIZE: nat := 16 * LIT_BUFSIZE  // pending_buf_size

  datatype Outcome =
    | Written(rest: Bits)  // the last block has been written; whole bytes of input left over
    | Hungry               // waiting for more input
    | Wrong
    | SymbolsFull          // sym_buf is full: the encoder returns and loses its place
    | OutOfBounds          // undefined: a distance past the tables, or output written over unread symbols

  datatype BitTrace = BitTrace(out: Bits, end: Outcome)

  function PutBits(b: Bits, t: BitTrace): BitTrace {
    BitTrace(b + t.out, t.end)
  }

  // ----- the symbols of a block -----

  datatype SymRun =
    | Syms(xs: seq<Sym3>, rest: Bits)
    | Stop(why: Outcome)

  /** Instructions up to the end of the block, after the symbols `xs` (state LEN). */
  function ReadSyms(xs: seq<Sym3>, bits: Bits): (r: SymRun)
    ensures r.Syms? ==> |r.rest| < |bits|
    decreases |bits|, 3
  {
    if |bits| < 8 then Stop(Hungry)
    else
      ByteVal(bits[..8]);
      var b: byte := Val(bits[..8]);
      if b != ESC then Collect(xs, Sym3(0, b), bits[8..]) else ReadIns1(xs, bits[8..])
  }

  /** After the escape byte (state INS1). */
  function ReadIns1(xs: seq<Sym3>, bits: Bits): (r: SymRun)
    ensures r.Syms? ==> |r.rest| < |bits|
    decreases |bits|, 5
  {
    if |bits| < 8 then Stop(Hungry)
    else
      ByteVal(bits[..8]);
      var b: byte := Val(bits[..8]);
      if b == ESC then Collect(xs, Sym3(0, b), bits[8..])
      else if b == 0xff then Syms(xs, bits[8..])
      else if b > 0x80 then Stop(Wrong)
      else ReadIns2(xs, b, bits[8..])
  }

  /** After the high byte of a distance (state INS2). */
  function ReadIns2(xs: seq<Sym3>, high: nat, bits: Bits): (r: SymRun)
    ensures r.Syms? ==> |r.rest| < |bits|
    decreases |bits|, 4
  {
    if |bits| < 16 then Stop(Hungry)
    else Collect(xs, Sym3(256 * high + Val(bits[..8]), Val(bits[8..16])), bits[16..])
  }

  /** One more symbol in sym_buf. */
  function Collect(xs: seq<Sym3>, x: Sym3, bits: Bits): (r: SymRun)
    ensures r.Syms? ==> |r.rest| < |bits|
    decreases |bits|, 4
  {
    if |xs| + 1 == SYM_MAX then Stop(SymbolsFull) else ReadSyms(xs + [x], bits)
  }

  predicate ValidSyms(xs: seq<Sym3>) {
    forall x :: x in xs ==> ValidSym(x)
  }

  /** The tokens compress_block writes. */
  function Retoks(xs: seq<Sym3>): (ts: seq<Tok>)
    requires ValidSyms(xs)
    ensures ValidToks(ts) && |ts| == |xs|
  {
    if xs == [] then [] else [Retok(xs[0])] + Retoks(xs[1..])
  }

  // ----- blocks -----

  /** What a block's header says. */
  datatype Head =
    | Stored(n: nat)
    | Fixed
    | Dynamic(hdr: Header)

  /** The header as send_all_trees writes it: the code lengths run-length coded afresh. */
  function Resent(h: Header): Header
    requires AcceptsHeaderLens(h)
  {
    h.(ops := Rle(LitLens(h)) + Rle(DistLens(h)))
  }

  predicate AcceptsHeaderLens(h: Header) {
    |Expand(h.ops)| == h.nlen + h.ndist && Bounded(Expand(h.ops))
  }

  lemma ResentValid(h: Header)
    requires ValidHeader(h) && AcceptsHeaderLens(h)
    ensures ValidHeader(Resent(h))
  {
    RleValid(LitLens(h), false);
    RleValid(DistLens(h), false);
    BothValid(Rle(LitLens(h)), Rle(DistLens(h)));
  }

  predicate ValidHead(head: Head) {
    head.Dynamic? ==> ValidHeader(head.hdr) && AcceptsHeaderLens(head.hdr)
  }

  /** The bits of a block of coded symbols. */
  function CodedBits(last: bool, head: Head, xs: seq<Sym3>): Bits
    requires !head.Stored? && ValidHead(head) && ValidSyms(xs)
  {
    if head.Fixed? then TypeBits(last, 1) + ToksBits(FixedLit(), FixedDist(), Retoks(xs))
    else
      ResentValid(head.hdr);
      TypeBits(last, 2) + HeaderBits(Resent(head.hdr)) + ToksBits(LitLens(head.hdr), DistLens(head.hdr), Retoks(xs))
  }

  /** The bits of a stored block that starts `n` bits into the output. */
  function RawBits(n: nat, last: bool, data: seq<byte>): Bits
    requires |data| < 65536
  {
    TypeBits(last, 0) + Zeros(Pad(n + 3)) + StoredLens(|data|) + ByteBits(data)
  }

  // ----- pending_buf and sym_buf share one array -----

  /** How many bytes send_bits has put after `total` bits: two at a time, as late as possible. */
  function WritePos(total: nat): nat {
    if total == 0 then 0 else (total - 1) / 16 * 2
  }

  function LitOf(head: Head): Lens
    requires !head.Stored? && ValidHead(head)
  {
    if head.Fixed? then FixedLit() else LitLens(head.hdr)
  }

  function DistOf(head: Head): Lens
    requires !head.Stored? && ValidHead(head)
  {
    if head.Fixed? then FixedDist() else DistLens(head.hdr)
  }

  /** What goes before the symbols. */
  function HeadBits(last: bool, head: Head): Bits
    requires !head.Stored? && ValidHead(head)
  {
    if head.Fixed? then TypeBits(last, 1)
    else
      ResentValid(head.hdr);
      TypeBits(last, 2) + HeaderBits(Resent(head.hdr))
  }

  /** The bits of the first `k` tokens. */
  function BodyTo(lc: Lens, dc: Lens, ts: seq<Tok>, k: nat): Bits
    requires k <= |ts| && ValidToks(ts)
  {
    if k == 0 then [] else BodyTo(lc, dc, ts, k - 1) + TokBits(lc, dc, ts[k - 1])
  }

  /**
    With `start` bits written before the symbols, the writer never gets past the symbol that is read next;
    symbol `i` is at sym_buf[3 * i].
   */
  predicate Behind(start: nat, lc: Lens, dc: Lens, xs: seq<Sym3>)
    requires ValidSyms(xs)
  {
    forall i :: 0 <= i < |xs| ==> WritePos(start + |BodyTo(lc, dc, Retoks(xs), i)|) <= LIT_BUFSIZE + 3 * i
  }

  predicate SymsSafe(n: nat, last: bool, head: Head, xs: seq<Sym3>)
    requires !head.Stored? && ValidHead(head) && ValidSyms(xs)
  {
    Behind(n % 8 + |HeadBits(last, head)|, LitOf(head), DistOf(head), xs)
  }

  /** The bytes of a stored block are copied to a place that does not overlap sym_buf. */
  predicate RawSafe(n: nat, len: nat) {
    (n % 8 + 3 + Pad(n + 3)) / 8 + 4 + len <= LIT_BUFSIZE
  }

  /** The zero bits that bring the end of the last block to a byte boundary. */
  function Tail(n: nat, last: bool): Bits {
    if last then Zeros(Pad(n)) else []
  }

  /** Between blocks, `n` bits into the output (state TYPEDO). */
  ghost function RecBlocks(n: nat, last: bool, bits: Bits): BitTrace
    decreases |bits|, 10
  {
    if last then BitTrace([], Written(Aligned(bits)))
    else if |bits| < 3 then BitTrace([], Hungry)
    else
      var t := Val(bits[1..3]);
      if t == 0 then RecStored(n, bits[0], bits[3..])
      else if t == 1 then RecSkip(n, bits[0], Fixed, bits[3..])
      else if t == 2 then RecHeader(n, bits[0], ReadHeader(false, bits[3..]))
      else BitTrace([], Wrong)
  }

  /** State STORED. */
  ghost function RecStored(n: nat, last: bool, bits: Bits): BitTrace
    decreases |bits|, 9
  {
    RecLens(n, last, Aligned(bits))
  }

  ghost function RecLens(n: nat, last: bool, b: Bits): BitTrace
    decreases |b|, 8
  {
    if |b| < 32 then BitTrace([], Hungry)
    else if Val(b[..16]) + Val(b[16..32]) != 65535 then BitTrace([], Wrong)
    else RecSkip(n, last, Stored(Val(b[..16])), b[32..])
  }

  /** After a dynamic header. */
  ghost function RecHeader(n: nat, last: bool, p: Parsed<Header>): BitTrace
    decreases if p.Ok? then |p.rest| else 0, 8
  {
    match p
    case Short => BitTrace([], Hungry)
    case Bad => BitTrace([], Wrong)
    case Ok(h, bits) => RecSkip(n, last, Dynamic(h), bits)
  }

  /** The mark after a header is skipped unread (state SKPI_HEADER_END). */
  ghost function RecSkip(n: nat, last: bool, head: Head, bits: Bits): BitTrace
    decreases |bits|, 7
  {
    RecMark(n, last, head, Aligned(bits))
  }

  ghost function RecMark(n: nat, last: bool, head: Head, b: Bits): BitTrace
    decreases |b|, 6
  {
    if |b| < 16 then BitTrace([], Hungry)
    else if head.Stored? then RecCopy(n, last, [], head.n, b[16..])
    else RecCoded(n, last, head, ReadSyms([], b[16..]))
  }

  /** A stored block with `data` already copied and `left` bytes to go, and the mark after it (state COPY). */
  ghost function RecCopy(n: nat, last: bool, data: seq<byte>, left: nat, bits: Bits): BitTrace
    decreases |bits|, 5
  {
    if |bits| < 8 * left + 16 then BitTrace([], Hungry)
    else RecRaw(n, last, data + Pack(bits[..8 * left]), bits[8 * left + 16..])
  }

  /** A whole stored block. */
  ghost function RecRaw(n: nat, last: bool, data: seq<byte>, rest: Bits): BitTrace
    decreases |rest|, 12
  {
    if !RawSafe(n, |data|) then BitTrace([], OutOfBounds)
    else RecPut(n, last, RawBits(n, last, data), rest)
  }

  /** A block of symbols. */
  ghost function RecCoded(n: nat, last: bool, head: Head, run: SymRun): BitTrace
    requires !head.Stored?
    decreases if run.Syms? then |run.rest| else 0, 12
  {
    match run
    case Stop(why) => BitTrace([], why)
    case Syms(xs, rest) =>
      if !ValidSyms(xs) || !ValidHead(head) || !SymsSafe(n, last, head, xs) then BitTrace([], OutOfBounds)
      else RecPut(n, last, CodedBits(last, head, xs), rest)
  }

  /** The end of a block: its bits are written (state ENDOFBLOCK). */
  ghost function RecPut(n: nat, last: bool, out: Bits, rest: Bits): BitTrace
    decreases |rest|, 11
  {
    var all := out + Tail(n + |out|, last);
    PutBits(all, RecBlocks(n + |all|, last, rest))
  }
}
