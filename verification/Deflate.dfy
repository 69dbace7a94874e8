/**
  j_deflate and deflate_my on raw data: the resumable state machine that reads the instruction stream and
  writes the bits back.

  Each Case method is one `case` of the mode switch.  All of them keep `Told`: what has been written so
  far, followed by what the abstract state still has to write, does not change.
 */
module Deflate {
  import opened Bits
  import opened Huffman
  import opened TableSpec
  import opened InfTrees
  import opened Format
  import opened FormatLemmas
  import opened FixedCode
  import opened LengthCodes
  import opened Instructions
  import opened EncoderSpec
  import opened BitWriting
  import opened BitReading
  import opened HeaderReading
  import opened Trees
  import opened DeflateState

  /** Values of the flush argument. */
  const Z_NO_FLUSH: int := 0
  const Z_FINISH: int := 4

  /** RANK, for the values above and for those last_flush takes besides. */
  function FlushRank(flush: int): int {
    2 * flush - (if flush > 4 then 9 else 0)
  }

  /** static_ltree and static_dtree */
  method StaticTrees() returns (ltree: seq<TreeCode>, dtree: seq<TreeCode>)
    ensures TreeFor(FixedLit(), ltree) && 286 <= |ltree| && TreeFor(FixedDist(), dtree) && 30 <= |dtree|
  {
    hide Accepts, FixedLit, FixedDist, TableFor, Bounded, TreeFor;
    FixedAccepted();
    var ret, table, root;
    ret, table, root, ltree := InflateTable(LenCodes, FixedLit(), 288);
    ret, table, root, dtree := InflateTable(DistCodes, FixedDist(), 32);
  }

  predicate HasSyms(st: State) {
    st.AtSyms? || st.AtIns1? || st.AtIns2? || st.AtSym?
  }

  class Deflater {
    const src: BitReader     // hold, bits, next_in
    const w: BitWriter       // pending_buf, with sym_buf inside it, pending, pending_out, bi_buf, bi_valid
    const rd: HeaderReader   // lens and what TABLE, LENLENS and CODELENS keep
    const staticLtree: seq<TreeCode>
    const staticDtree: seq<TreeCode>
    var mode: Mode
    var last: bool
    var ttype: TreeType
    var length: nat
    var offset: nat
    var insbuf1: nat
    var symNext: nat
    var dynLtree: seq<TreeCode>
    var dynDtree: seq<TreeCode>
    var lastFlush: int
    var out: seq<byte>       // all that has been handed out so far
    var left: nat            // space left in the caller's buffer
    ghost var sent: Bits     // all bits put into the queue so far
    ghost var st: State

    /** What never changes. */
    ghost predicate Built() {
      && w.buf.Length == PENDING_SIZE && rd.lens.Length == 320 && rd.src == src && !rd.strict
      && rd.hdr != w && rd.hdr.buf != w.buf
      && TreeFor(FixedLit(), staticLtree) && 286 <= |staticLtree|
      && TreeFor(FixedDist(), staticDtree) && 30 <= |staticDtree|
    }

    /**
      The output queue: the bytes handed out, then those pending, then the bits not yet in a byte are
      exactly the bits sent, each once and in order.
     */
    ghost function Queued(): (v: bool)
      reads `out, `sent, w, w.buf
      ensures v ==> w.Valid() && w.InBuffer()
    {
      w.Valid() && w.biValid < 8 && (w.have == 0 ==> w.first == 0) && ByteBits(out) + w.Written() == sent
    }

    /** Nothing is pending. */
    predicate Idle()
      reads w`have, w`first
    {
      w.have == 0 && w.first == 0
    }

    ghost function Base(): (v: bool)
      reads `st, `out, `sent, src`hold, src`bits, w, w.buf, rd.hdr, rd`recording
      ensures v ==> Built() && Sound(st) && w.InBuffer()
    {
      Built() && Queued() && src.Valid() && rd.hdr.Valid() && rd.hdr.first == 0 && !rd.recording && Sound(st)
    }

    /** The trees a block is written with. */
    function Ltree(): seq<TreeCode>
      reads `ttype, `dynLtree
    {
      if ttype == FIXED then staticLtree else dynLtree
    }

    function Dtree(): seq<TreeCode>
      reads `ttype, `dynDtree
    {
      if ttype == FIXED then staticDtree else dynDtree
    }

    /** The machine holds what it takes to write a block with this head. */
    ghost predicate HeadReady(head: Head)
      reads `ttype, `dynLtree, `dynDtree, rd`clTree, rd`nlen, rd`ndist, rd`ncode
    {
      && ttype == TypeOf(head) && ValidHead(head)
      && TreesFor(head, Ltree(), Dtree(), rd.clTree)
      && (head.Dynamic? ==> rd.nlen == head.hdr.nlen && rd.ndist == head.hdr.ndist && rd.ncode == |head.hdr.cl|)
    }

    /** sym_buf holds these symbols. */
    ghost predicate Holding(xs: seq<Sym3>)
      reads `symNext, w`have, w`first, w.buf
    {
      Idle() && |xs| < SYM_MAX && symNext == 3 * |xs| && LIT_BUFSIZE + symNext <= w.buf.Length
      && SymsIn(w.buf[LIT_BUFSIZE..LIT_BUFSIZE + symNext], xs)
    }

    /** sym_buf holds these bytes of a stored block. */
    ghost predicate HoldingRaw(data: seq<byte>)
      reads `symNext, w`have, w`first, w.buf
    {
      Idle() && symNext == |data| < 65536 && LIT_BUFSIZE + symNext <= w.buf.Length
      && data == w.buf[LIT_BUFSIZE..LIT_BUFSIZE + symNext]
    }

    ghost predicate InBlock()
      reads `st, `symNext, src`bits
    {
      st == AtBlock && src.bits < 8 && symNext == 0
    }

    ghost predicate InStored()
      reads `st, `symNext, `ttype, src`bits, w`have, w`first
    {
      st == AtStored && Idle() && symNext == 0 && ttype == STORE
          && (src.bits < 8 || (src.bits % 8 == 0 && src.bits <= 24))
    }

    /** A dynamic header is being read. */
    ghost function InDynamic(): (v: bool)
      requires Built() && rd.hdr.InBuffer()
      reads `st, `mode, `symNext, `ttype, src`hold, src`bits, w`have, w`first, rd.hdr, rd.hdr.buf, rd, rd.lens
      ensures v ==> st.AtHeader?
    {
      && st == AtHeader(rd.Now()) && rd.Valid() && Idle() && symNext == 0 && ttype == DYNAMIC
      && match mode
         case TABLE => rd.phase.AtSizes?
         case LENLENS => rd.phase.AtLens?
         case _ => rd.phase.AtOps?
    }

    ghost predicate InSkip()
      reads `st, `symNext, `length, `ttype, `dynLtree, `dynDtree, rd`clTree, rd`nlen, rd`ndist, rd`ncode, src`bits,
          w`have, w`first
    {
      && st.AtSkip? && Idle() && symNext == 0 && src.bits <= 8 && HeadReady(st.head)
      && (st.head.Stored? ==> length == st.head.n < 65536)
    }

    ghost predicate InCopy()
      reads `st, `symNext, `length, `ttype, src`bits, w`have, w`first, w.buf
    {
      && st.AtCopy? && length == st.left && ttype == STORE && HoldingRaw(st.data) && |st.data| + length < 65536
      && (src.bits == 0 || (src.bits == 8 && length == 0))
    }

    ghost predicate InSyms()
      reads `st, `mode, `symNext, `length, `offset, `insbuf1, `ttype, `dynLtree, `dynDtree
      reads rd`clTree, rd`nlen, rd`ndist, rd`ncode, src`bits, w`have, w`first, w.buf
    {
      && Sound(st) && HasSyms(st) && HeadReady(st.head) && Holding(st.xs)
      && src.bits <= 8 && (src.bits == 0 || mode == INS2)
      && match mode
         case INS1 => st.AtIns1?
         case INS2 => st == AtIns2(st.head, st.xs, insbuf1) && insbuf1 <= 0x80 && src.bits % 8 == 0
         case MATCH => st == AtSym(st.head, st.xs, Sym3(offset, length)) && offset < 65536 && length < 256
         case LIT => st == AtSym(st.head, st.xs, Sym3(0, length)) && length < 256
         case _ => st.AtSyms?
    }

    ghost predicate InPut()
      reads `st, `symNext, `ttype, `dynLtree, `dynDtree, rd`clTree, rd`nlen, rd`ndist, rd`ncode, src`bits, w`have,
          w`first, w.buf
    {
      && st.AtPut? && src.bits == 0 && HeadReady(st.head) && |st.xs| < SYM_MAX
      && if st.head.Stored? then HoldingRaw(st.raw) else Holding(st.xs) && st.raw == []
    }

    /** What holds in each mode between steps. */
    ghost predicate InMode()
      requires Built() && rd.hdr.InBuffer()
      reads `st, `mode, `symNext, `length, `offset, `insbuf1, `ttype, `dynLtree, `dynDtree
      reads src`hold, src`bits, w`have, w`first, w.buf, rd.hdr, rd.hdr.buf, rd, rd.lens
    {
      match mode
      case HEAD => InBlock() && Idle()
      case TYPE => InBlock()
      case TYPEDO => InBlock() && Idle()
      case STORED => InStored()
      case TABLE => InDynamic()
      case LENLENS => InDynamic()
      case CODELENS => InDynamic()
      case SKPI_HEADER_END => InSkip()
      case COPY_ => InCopy()
      case COPY => InCopy()
      case ENDOFBLOCK => InPut()
      case DONE => st == AtEnd && src.bits == 0
      case BAD => st == Failed
      case _ => InSyms()
    }

    ghost function Valid(): (v: bool)
      reads `st, `mode, `symNext, `length, `offset, `insbuf1, `ttype, `dynLtree, `dynDtree, `out, `sent
      reads src`hold, src`bits, w, w.buf, rd.hdr, rd.hdr.buf, rd, rd.lens
      ensures v ==> Sound(st)
    {
      Base() && InMode()
    }

    /** The output of the whole run, given the input `more` that is still to come. */
    ghost predicate Told(whole: BitTrace, more: Bits)
      requires Sound(st)
      reads `last, `st, `sent, src
    {
      whole == PutBits(sent, After(|sent|, last, st, src.Ahead() + more))
    }

    /** Without more input there is nothing more to write. */
    ghost predicate Rested()
      requires Sound(st)
      reads `mode, `last, `st, `sent, src
    {
      var t := After(|sent|, last, st, src.Ahead());
      t.out == [] && (t.end == Hungry || t.end.Written? || (t.end == Wrong && mode == BAD))
    }

    /** All input is used. */
    ghost predicate Stuck()
      requires Sound(st)
      reads `last, `st, `sent, src
    {
      src.next == [] && After(|sent|, last, st, src.Ahead()) == HUNGRY
    }

    /** j_deflateInit2_ for raw data; the static trees are built the way inflate_table_my builds trees. */
    constructor ()
      ensures Valid() && mode == HEAD && !last && out == [] && sent == [] && st == AtBlock && Idle() && lastFlush == -2
      ensures src.next == [] && src.bits == 0
      ensures fresh(src) && fresh(w) && fresh(w.buf) && fresh(rd) && fresh(rd.lens) && fresh(rd.hdr)
      ensures fresh(rd.hdr.buf)
    {
      hide *;
      var ltree, dtree := StaticTrees();
      var input := new BitReader();
      var header := new BitWriter(0);
      src := input;
      w := new BitWriter(PENDING_SIZE);
      rd := new HeaderReader(input, header, false);
      staticLtree, staticDtree := ltree, dtree;
      mode, last, ttype, length, offset, insbuf1, symNext := HEAD, false, STORE, 0, 0, 0, 0;
      dynLtree, dynDtree := [], [];
      lastFlush := -2;
      out, left, sent, st := [], 0, [], AtBlock;
      new;
      IsNew();
    }

    lemma IsNew()
      requires w.buf.Length == PENDING_SIZE && rd.lens.Length == 320 && rd.src == src && !rd.strict && rd.hdr != w
      requires rd.hdr.buf != w.buf
      requires TreeFor(FixedLit(), staticLtree) && 286 <= |staticLtree| && TreeFor(FixedDist(), staticDtree)
      requires 30 <= |staticDtree|
      requires w.Valid() && w.have == 0 && w.first == 0 && w.biValid == 0 && src.Valid() && src.bits == 0
      requires rd.hdr.Valid() && rd.hdr.first == 0 && !rd.recording
      requires mode == HEAD && out == [] && sent == [] && st == AtBlock && symNext == 0
      ensures Valid() && Idle()
    {
      hide TreeFor, FixedLit, FixedDist;
      assert w.Written() == [] && ByteBits(out) == [];
    }

    // ----- between blocks -----

    lemma OpenBlock()
      requires Valid() && (mode == TYPE || mode == TYPEDO || mode == HEAD)
      ensures Base() && st == AtBlock && src.bits < 8 && src.Valid() && symNext == 0
    {
      hide Queued, Built;
    }

    lemma CloseBlock()
      requires Base() && (mode == TYPE || (mode == TYPEDO && Idle())) && st == AtBlock && src.bits < 8 && symNext == 0
      ensures Valid()
    {
      hide Queued, Built;
    }

    lemma CloseEnd()
      requires Base() && ((mode == DONE && st == AtEnd && src.bits == 0) || (mode == BAD && st == Failed))
      ensures Valid()
    {
      hide Queued, Built;
    }

    lemma Tell(whole: BitTrace, more: Bits)
      requires Sound(st) && Told(whole, more)
      ensures whole == PutBits(sent, After(|sent|, last, st, src.Ahead() + more))
    {
    }

    lemma Retell(whole: BitTrace, more: Bits)
      requires Sound(st) && whole == PutBits(sent, After(|sent|, last, st, src.Ahead() + more))
      ensures Told(whole, more)
    {
    }

    lemma ShowStuck()
      requires Sound(st) && src.next == [] && After(|sent|, last, st, src.Ahead()) == HUNGRY
      ensures Stuck()
    {
    }

    lemma BaseParts()
      requires Base()
      ensures src.Valid() && w.Valid() && rd.src == src && !rd.strict && rd.lens.Length == 320 && w.buf.Length == 262144
      ensures rd.hdr.Valid() && rd.hdr.first == 0 && !rd.recording && rd.hdr != w && rd.hdr.buf != w.buf
      ensures Built()
    {
      hide TreeFor, FixedLit, FixedDist, BitWriter.Written;
    }

    lemma CloseBase()
      requires Built() && Queued() && src.Valid() && rd.hdr.Valid() && rd.hdr.first == 0 && !rd.recording && Sound(st)
      ensures Base()
    {
      hide Queued, Built;
    }

    lemma OpenBase()
      requires Base()
      ensures Built() && Queued() && src.Valid() && rd.hdr.Valid() && rd.hdr.first == 0 && !rd.recording && Sound(st)
    {
      hide Queued, Built;
    }

    /** Data that is not an instruction stream. */
    method Fail(ghost whole: BitTrace, ghost more: Bits)
      requires Base() && whole == PutBits(sent, After(|sent|, last, Failed, src.Ahead() + more))
      modifies `mode, `st
      ensures Valid() && Told(whole, more) && mode == BAD
    {
      hide *;
      OpenBase();
      mode, st := BAD, Failed;
      SimplySound();
      CloseBase();
      CloseEnd();
      Retell(whole, more);
    }

    /** The three bits at the start of a block. */
    method ReadType() returns (ok: bool, t: nat)
      requires src.Valid() && src.bits < 8
      modifies `last, src
      ensures src.Valid() && src.bits < 8
      ensures !ok ==> src.next == [] && src.Ahead() == old(src.Ahead()) && |src.Ahead()| < 3 && last == old(last)
      ensures ok ==> |old(src.Ahead())| >= 3 && last == old(src.Ahead())[0] && t == Val(old(src.Ahead())[1..3])
      ensures ok ==> src.Ahead() == old(src.Ahead())[3..]
    {
      hide *;
      ghost var start := src.Ahead();
      ok := src.Need(3);
      if !ok {
        return false, 0;
      }
      TypeSlices(start);
      src.Peeked(1);
      last := src.Peek(1) == 1;
      src.Drop(1);
      src.Peeked(2);
      t := src.Peek(2);
      src.Drop(2);
    }

    /** The switch on the block type. */
    method SetType(t: nat)
      requires Base() && Idle() && src.bits < 8 && t < 4 && symNext == 0
      modifies `ttype, `mode, `st, rd`phase
      ensures Valid() && mode != TYPE && mode != TYPEDO && mode != DONE
      ensures t == 2 ==> rd.Now().phase.AtSizes?
      ensures st == if t == 0 then AtStored else if t == 1 then AtSkip(Fixed) else if t == 2 then AtHeader(rd.Now())
              else Failed
    {
      hide *;
      OpenBase();
      BaseParts();
      if t == 0 {
        ttype, mode, st := STORE, STORED, AtStored;
        SimplySound();
        CloseBase();
        CloseStored();
      } else if t == 1 {
        ttype, mode, st := FIXED, SKPI_HEADER_END, AtSkip(Fixed);
        SimplySound();
        CloseBase();
        FixedReady();
        CloseSkip(Fixed);
      } else if t == 2 {
        ttype, mode := DYNAMIC, TABLE;
        rd.phase := AtSizes;
        NewHeader();
        st := AtHeader(rd.Now());
        SimplySound();
        CloseBase();
        CloseDynamic(AtSizes);
      } else {
        mode, st := BAD, Failed;
        SimplySound();
        CloseBase();
        CloseEnd();
      }
    }

    /** TYPE and TYPEDO */
    method CaseBlock(ghost whole: BitTrace, ghost more: Bits) returns (stop: bool)
      requires Valid() && (mode == TYPE || mode == TYPEDO) && Idle() && Told(whole, more) && |more| % 8 == 0
      modifies `ttype, `mode, `last, `st, `dynLtree, `dynDtree, rd`clTree, rd`phase, src
      ensures Valid() && Told(whole, more)
      ensures stop ==> Stuck()
      ensures !stop ==> |src.Ahead()| < old(|src.Ahead()|) || (|src.Ahead()| <= old(|src.Ahead()|) && mode == DONE)
    {
      hide *;
      OpenBlock();
      rd.clTree, dynLtree, dynDtree := seq(39, _ => TreeCode(0, 0)), seq(573, _ => TreeCode(0, 0)),
          seq(61, _ => TreeCode(0, 0));
      mode := TYPEDO;
      if last {
        EndBlocks(whole, more);
        return false;
      }
      stop := NextBlock(whole, more);
    }

    /** After the last block. */
    method EndBlocks(ghost whole: BitTrace, ghost more: Bits)
      requires Base() && st == AtBlock && src.bits < 8 && last && Told(whole, more) && |more| % 8 == 0
      modifies `mode, `st, src`hold, src`bits
      ensures Valid() && Told(whole, more) && mode == DONE && |src.Ahead()| <= old(|src.Ahead()|)
    {
      hide *;
      OpenBase();
      Tell(whole, more);
      StepEnd(|sent|, src.Ahead(), more);
      AlignShrinks(src.Ahead());
      src.Align();
      mode, st := DONE, AtEnd;
      SimplySound();
      CloseBase();
      CloseEnd();
      Retell(whole, more);
    }

    /** The start of a block. */
    method NextBlock(ghost whole: BitTrace, ghost more: Bits) returns (stop: bool)
      requires Base() && mode == TYPEDO && st == AtBlock && src.bits < 8 && symNext == 0 && Idle() && !last
      requires Told(whole, more)
      modifies `ttype, `mode, `last, `st, rd`phase, src
      ensures Valid() && Told(whole, more)
      ensures stop ==> Stuck()
      ensures !stop ==> |src.Ahead()| < old(|src.Ahead()|)
    {
      hide *;
      OpenBase();
      Tell(whole, more);
      ghost var start, n := src.Ahead(), |sent|;
      var ok, t := ReadType();
      CloseBase();
      if !ok {
        StallType(n, start);
        CloseBlock();
        Retell(whole, more);
        ShowStuck();
        return true;
      }
      TypeBound(start);
      SetType(t);
      StepType(n, start, more, if t == 2 then rd.Now() else Progress(AtSizes, 0, 0, 0, 0));
      Retell(whole, more);
      return false;
    }

    lemma NewHeader()
      requires Built() && src.Valid() && rd.hdr.Valid() && rd.hdr.first == 0 && src.bits < 8
      requires !rd.recording && rd.phase == AtSizes
      ensures rd.Valid() && rd.Now().phase == AtSizes
    {
      hide TreeFor, FixedLit, FixedDist, BitWriter.Written;
    }

    lemma FixedReady()
      requires Built() && ttype == FIXED
      ensures HeadReady(Fixed)
    {
      hide TreeFor, FixedLit, FixedDist;
    }

    // ----- stored blocks -----

    lemma OpenStored()
      requires Valid() && mode == STORED
      ensures Base() && st == AtStored && src.Valid() && Idle() && symNext == 0 && ttype == STORE
      ensures src.bits < 8 || (src.bits % 8 == 0 && src.bits <= 24)
    {
      hide Queued, Built;
    }

    lemma CloseStored()
      requires Base() && mode == STORED && st == AtStored && Idle() && symNext == 0 && ttype == STORE
      requires src.bits < 8 || (src.bits % 8 == 0 && src.bits <= 24)
      ensures Valid()
    {
      hide Queued, Built;
    }

    lemma StoredReady(len: nat)
      requires ttype == STORE
      ensures HeadReady(Stored(len))
    {
    }

    /** STORED */
    method CaseStored(ghost whole: BitTrace, ghost more: Bits) returns (stop: bool)
      requires Valid() && mode == STORED && Told(whole, more) && |more| % 8 == 0
      modifies `mode, `st, `length, src
      ensures Valid() && Told(whole, more)
      ensures stop ==> Stuck()
      ensures !stop ==> |src.Ahead()| <= old(|src.Ahead()|) && (mode == SKPI_HEADER_END || mode == BAD)
    {
      hide *;
      OpenStored();
      OpenBase();
      Tell(whole, more);
      AlignStored(|sent|, last, src.Ahead(), more);
      src.Align();
      var ok := src.Need(32);
      ghost var start, n := src.Ahead(), |sent|;
      if !ok {
        StallStored(n, last, start);
        CloseBase();
        CloseStored();
        Retell(whole, more);
        ShowStuck();
        return true;
      }
      CloseBase();
      Retell(whole, more);
      TakeLens(whole, more);
      return false;
    }

    /** The stored block's lengths are in the register. */
    method TakeLens(ghost whole: BitTrace, ghost more: Bits)
      requires Base() && st == AtStored && Idle() && symNext == 0 && ttype == STORE && src.bits == 32
      requires Told(whole, more) && |more| % 8 == 0
      modifies `mode, `st, `length, src
      ensures Valid() && Told(whole, more)
      ensures |src.Ahead()| <= old(|src.Ahead()|) && (mode == SKPI_HEADER_END || mode == BAD)
    {
      hide *;
      OpenBase();
      Tell(whole, more);
      ghost var start := src.Ahead();
      StepStored(|sent|, last, start, more);
      src.Peeked(16);
      src.PeekedRest(16);
      LenParts(start);
      var low, high := src.Peek(16), Shr(src.hold, 16);
      src.Held();
      NothingHeld(start, src.hold, src.bits, src.next);
      src.Load(0, 0, src.next);
      CloseBase();
      if low != 65535 - high {
        Fail(whole, more);
        return;
      }
      length := low;
      mode, st := SKPI_HEADER_END, AtSkip(Stored(low));
      SimplySound();
      CloseBase();
      StoredReady(low);
      CloseSkip(Stored(low));
      Retell(whole, more);
    }

    // ----- dynamic headers -----

    lemma OpenDynamic()
      requires Valid() && (mode == TABLE || mode == LENLENS || mode == CODELENS)
      ensures Base() && st == AtHeader(rd.Now()) && rd.Valid() && Idle() && symNext == 0 && ttype == DYNAMIC
      ensures mode == (if rd.phase.AtSizes? then TABLE else if rd.phase.AtLens? then LENLENS else CODELENS)
    {
      hide Queued, Built, HeaderReader.Valid;
    }

    lemma CloseDynamic(phase: Phase)
      requires Base() && st == AtHeader(rd.Now()) && rd.Valid() && Idle() && symNext == 0 && ttype == DYNAMIC
      requires rd.phase == phase && mode == (if phase.AtSizes? then TABLE else if phase.AtLens? then LENLENS
               else CODELENS)
      ensures Valid()
    {
      hide Queued, Built, HeaderReader.Valid;
    }

    /** What the header will be read as decides what is still to be written. */
    lemma HeaderTold(whole: BitTrace, more: Bits) returns (p: Parsed<Header>)
      requires Built() && Sound(st) && st == AtHeader(rd.Now()) && Told(whole, more)
      ensures rd.Told(p, more) && whole == PutBits(sent, RecHeader(|sent|, last, p))
    {
      hide RecHeader, Rest;
      p := Rest(false, rd.Now(), src.Ahead() + more);
      HeaderAfter(|sent|, last, rd.Now(), src.Ahead() + more);
    }

    lemma HeaderRetold(whole: BitTrace, more: Bits, p: Parsed<Header>)
      requires Built() && Sound(st) && st == AtHeader(rd.Now()) && rd.Told(p, more)
      requires whole == PutBits(sent, RecHeader(|sent|, last, p))
      ensures Told(whole, more)
    {
      hide RecHeader, Rest;
      HeaderAfter(|sent|, last, rd.Now(), src.Ahead() + more);
    }

    lemma HeaderStuck()
      requires Built() && Sound(st) && st == AtHeader(rd.Now()) && rd.Stuck()
      ensures Stuck()
    {
      hide RecHeader, Rest;
      HeaderAfter(|sent|, last, rd.Now(), src.Ahead());
    }

    /** A phase of the header ends. */
    method EndPart(o: Reply, next: Mode, ghost p: Parsed<Header>, ghost whole: BitTrace, ghost more: Bits)
        returns (stop: bool)
      requires Built() && Queued() && src.Valid() && rd.hdr.Valid() && rd.hdr.first == 0 && !rd.recording
      requires Idle() && symNext == 0 && ttype == DYNAMIC
      requires whole == PutBits(sent, RecHeader(|sent|, last, p))
      requires if o == Fault then p == Bad else rd.Valid() && rd.Told(p, more)
      requires o == NeedsInput ==> rd.Stuck()
      requires o == NeedsInput ==>
                 mode == (if rd.phase.AtSizes? then TABLE else if rd.phase.AtLens? then LENLENS else CODELENS)
      requires o == Ready ==> next == (if rd.phase.AtSizes? then TABLE else if rd.phase.AtLens? then LENLENS
               else CODELENS)
      modifies `mode, `st
      ensures Valid() && Told(whole, more) && (stop ==> Stuck())
      ensures stop <==> o == NeedsInput
      ensures !stop ==> mode == BAD || (o == Ready && mode == next)
    {
      hide *;
      if o == Fault {
        HeaderFails(|sent|, last, src.Ahead() + more);
        st := Failed;
        SimplySound();
        CloseBase();
        Fail(whole, more);
        return false;
      }
      stop := o == NeedsInput;
      if !stop {
        mode := next;
      }
      st := AtHeader(rd.Now());
      SimplySound();
      CloseBase();
      CloseDynamic(rd.phase);
      HeaderRetold(whole, more, p);
      if stop {
        HeaderStuck();
      }
    }

    /** TABLE */
    method CaseTable(ghost whole: BitTrace, ghost more: Bits) returns (stop: bool)
      requires Valid() && mode == TABLE && Told(whole, more)
      modifies `mode, `st, rd`phase, rd`nlen, rd`ndist, rd`ncode, rd`have, src, rd.hdr`have, rd.hdr`biBuf,
          rd.hdr`biValid, rd.hdr.buf
      ensures Valid() && Told(whole, more)
      ensures stop ==> Stuck()
      ensures !stop ==> |src.Ahead()| <= old(|src.Ahead()|) && (mode == LENLENS || mode == BAD)
    {
      hide *;
      OpenDynamic();
      OpenBase();
      BaseParts();
      ghost var p := HeaderTold(whole, more);
      var o := rd.Table(p, more);
      stop := EndPart(o, LENLENS, p, whole, more);
    }

    /** LENLENS */
    method CaseLenLens(ghost whole: BitTrace, ghost more: Bits) returns (stop: bool)
      requires Valid() && mode == LENLENS && Told(whole, more)
      modifies `mode, `st, rd`phase, rd`have, rd`lencode, rd`lenbits, rd`clTree, src
      modifies rd.hdr`have, rd.hdr`biBuf, rd.hdr`biValid, rd.hdr.buf, rd.lens
      ensures Valid() && Told(whole, more)
      ensures stop ==> Stuck()
      ensures !stop ==> |src.Ahead()| <= old(|src.Ahead()|) && (mode == CODELENS || mode == BAD)
    {
      hide *;
      OpenDynamic();
      OpenBase();
      BaseParts();
      ghost var p := HeaderTold(whole, more);
      var o := rd.LenLens(p, more);
      stop := EndPart(o, CODELENS, p, whole, more);
    }

    /** CODELENS */
    method CaseCodeLens(ghost whole: BitTrace, ghost more: Bits) returns (stop: bool)
      requires Valid() && mode == CODELENS && Told(whole, more)
      modifies `mode, `st, `dynLtree, `dynDtree, rd`phase, rd`have, src
      modifies rd.hdr`have, rd.hdr`biBuf, rd.hdr`biValid, rd.hdr.buf, rd.lens
      ensures Valid() && Told(whole, more)
      ensures stop ==> Stuck()
      ensures !stop ==> |src.Ahead()| <= old(|src.Ahead()|) && (mode == SKPI_HEADER_END || mode == BAD)
    {
      hide *;
      OpenDynamic();
      OpenBase();
      BaseParts();
      ghost var p := HeaderTold(whole, more);
      var o;
      ghost var h;
      o, h := rd.CodeLengths(p, more);
      if o == Ready {
        BuildTrees(whole, more, p, h);
        return false;
      }
      stop := EndPart(o, CODELENS, p, whole, more);
    }

    /** All code lengths have been read. */
    method BuildTrees(ghost whole: BitTrace, ghost more: Bits, ghost p: Parsed<Header>, ghost h: Header)
      requires Built() && Queued() && src.Valid() && rd.hdr.Valid() && rd.hdr.first == 0 && !rd.recording
      requires Idle() && symNext == 0 && ttype == DYNAMIC && src.bits < 8
      requires whole == PutBits(sent, RecHeader(|sent|, last, p))
      requires h.nlen == rd.nlen && h.ndist == rd.ndist && ValidHeader(h) && rd.SizesOk() && rd.TreeMade(h.cl)
      requires rd.nlen + rd.ndist <= rd.lens.Length
      requires Declared(h, rd.lens[..rd.nlen], rd.lens[rd.nlen..rd.nlen + rd.ndist])
      requires p == (if !Dead(h.cl) && AcceptsHeader(h) then Ok(h, src.Ahead() + more) else Bad)
      modifies `mode, `st, `dynLtree, `dynDtree
      ensures Valid() && Told(whole, more) && (mode == SKPI_HEADER_END || mode == BAD)
    {
      hide *;
      var lc, dc := rd.lens[..rd.nlen], rd.lens[rd.nlen..rd.nlen + rd.ndist];
      DeclaredSizes(h, lc, dc);
      DeclaredAccepts(h, lc, dc);
      SizesFit();
      var ok := MakeTrees(lc, dc);
      if !ok {
        HeaderFails(|sent|, last, src.Ahead() + more);
        st := Failed;
        SimplySound();
        CloseBase();
        Fail(whole, more);
        return;
      }
      HeaderGood(|sent|, last, h, src.Ahead() + more);
      mode, st := SKPI_HEADER_END, AtSkip(Dynamic(h));
      SimplySound();
      CloseBase();
      DynamicReady(h, lc, dc);
      CloseSkip(Dynamic(h));
      Retell(whole, more);
    }

    lemma SizesFit()
      requires rd.SizesOk()
      ensures 257 <= rd.nlen <= 288 && 1 <= rd.ndist <= 32
    {
    }

    lemma DynamicReady(h: Header, lc: Lens, dc: Lens)
      requires ttype == DYNAMIC && ValidHeader(h) && rd.TreeMade(h.cl)
      requires h.nlen == rd.nlen && h.ndist == rd.ndist && h.nlen <= |Expand(h.ops)|
      requires |Expand(h.ops)| == h.nlen + h.ndist && Bounded(Expand(h.ops)) && LitLens(h) == lc && DistLens(h) == dc
      requires TreeFor(lc, dynLtree) && 289 <= |dynLtree| && TreeFor(dc, dynDtree) && 33 <= |dynDtree|
      ensures HeadReady(Dynamic(h))
    {
      hide TreeFor, Expand, ClLens, Bounded, ValidHeader;
    }

    /** The end-of-block check and both calls of the table builder. */
    method MakeTrees(lc: Lens, dc: Lens) returns (ok: bool)
      requires Bounded(lc) && Bounded(dc) && 257 <= |lc| <= 288 && |dc| <= 32
      modifies `dynLtree, `dynDtree
      ensures ok <==> lc[256] != 0 && Accepts(LenCodes, lc) && Accepts(DistCodes, dc)
      ensures ok ==> TreeFor(lc, dynLtree) && 289 <= |dynLtree| && TreeFor(dc, dynDtree) && 33 <= |dynDtree|
    {
      hide Accepts, TableFor, TreeFor, Bounded;
      if lc[256] == 0 {
        return false;
      }
      var ret, _, _, ltree := InflateTable(LenCodes, lc, 573);
      if ret != 0 {
        return false;
      }
      dynLtree := ltree;
      var ret2, _, _, dtree := InflateTable(DistCodes, dc, 61);
      if ret2 != 0 {
        return false;
      }
      dynDtree := dtree;
      return true;
    }

    // ----- the mark after a header -----

    lemma OpenSkip()
      requires Valid() && mode == SKPI_HEADER_END
      ensures Base() && src.Valid() && st.AtSkip? && st == AtSkip(st.head) && Idle() && symNext == 0 && src.bits <= 8
      ensures HeadReady(st.head)
      ensures st.head.Stored? ==> length == st.head.n < 65536
    {
      hide Queued, Built, HeadReady;
    }

    lemma CloseSkip(head: Head)
      requires Base() && mode == SKPI_HEADER_END && st == AtSkip(head) && Idle() && symNext == 0 && src.bits <= 8
      requires HeadReady(head)
      requires head.Stored? ==> length == head.n < 65536
      ensures Valid()
    {
      hide Queued, Built, HeadReady;
    }

    /** SKPI_HEADER_END */
    method CaseSkip(ghost whole: BitTrace, ghost more: Bits) returns (stop: bool)
      requires Valid() && mode == SKPI_HEADER_END && Told(whole, more) && |more| % 8 == 0
      modifies `mode, `st, src
      ensures Valid() && Told(whole, more)
      ensures stop ==> Stuck()
      ensures !stop ==> |src.Ahead()| < old(|src.Ahead()|)
    {
      hide *;
      OpenSkip();
      OpenBase();
      Tell(whole, more);
      ghost var head, n := st.head, |sent|;
      AlignSkip(n, last, head, src.Ahead(), more);
      AlignShrinks(src.Ahead());
      src.Align();
      var ok := src.Need(16);
      ghost var start := src.Ahead();
      if !ok {
        StallSkip(n, last, head, start);
        CloseBase();
        CloseSkip(head);
        Retell(whole, more);
        ShowStuck();
        return true;
      }
      StepSkip(n, last, head, start, more);
      src.Drop(16);
      ReadyType(head);
      mode := if ttype == STORE then COPY_ else LEN_;
      st := AfterMark(head);
      CloseBase();
      BaseParts();
      AfterMarkIs(head);
      if ttype == STORE {
        StartRaw();
        CloseCopy([], length);
      } else {
        StartSyms();
        CloseSyms(head, []);
      }
      Retell(whole, more);
      return false;
    }

    lemma ReadyType(head: Head)
      requires HeadReady(head)
      ensures ttype == STORE <==> head.Stored?
      ensures ValidHead(head)
    {
      hide ValidHead, TreesFor;
    }

    lemma StartRaw()
      requires Idle() && symNext == 0 && w.buf.Length == 262144
      ensures HoldingRaw([])
    {
    }

    lemma StartSyms()
      requires Idle() && symNext == 0 && w.buf.Length == 262144
      ensures Holding([])
    {
    }

    // ----- copying a stored block -----

    lemma OpenCopy()
      requires Valid() && (mode == COPY || mode == COPY_)
      ensures Base() && src.Valid() && st.AtCopy? && st == AtCopy(st.data, length) && ttype == STORE
      ensures HoldingRaw(st.data)
      ensures |st.data| + length < 65536 && (src.bits == 0 || (src.bits == 8 && length == 0))
    {
      hide Queued, Built, HoldingRaw;
    }

    lemma CloseCopy(data: seq<byte>, k: nat)
      requires Base() && (mode == COPY || mode == COPY_) && st == AtCopy(data, k) && k == length && ttype == STORE
               && HoldingRaw(data)
      requires |data| + length < 65536 && (src.bits == 0 || (src.bits == 8 && length == 0))
      ensures Valid()
    {
      hide Queued, Built, HoldingRaw;
    }

    lemma RawIs(data: seq<byte>)
      requires HoldingRaw(data)
      ensures symNext == |data| < 65536 && Idle()
      ensures 16384 + symNext <= w.buf.Length && data == w.buf[16384..16384 + symNext]
    {
    }

    lemma MakeRaw(data: seq<byte>)
      requires Idle() && symNext == |data| < 65536 && 16384 + symNext <= w.buf.Length
      requires data == w.buf[16384..16384 + symNext]
      ensures HoldingRaw(data)
    {
    }

    /** `zmemcpy` of input to sym_buf. */
    method KeepBytes(bytes: seq<byte>)
      requires Queued() && Idle() && 16384 + symNext + |bytes| <= w.buf.Length
      modifies `symNext, w.buf
      ensures Queued() && symNext == old(symNext) + |bytes|
      ensures w.buf[16384..16384 + symNext] == old(w.buf[16384..16384 + symNext]) + bytes
    {
      var i := 0;
      while i < |bytes|
        invariant i <= |bytes| && symNext == old(symNext) + i && Queued()
        invariant w.buf[16384..16384 + symNext] == old(w.buf[16384..16384 + symNext]) + bytes[..i]
      {
        SetByte(16384 + symNext, bytes[i]);
        symNext := symNext + 1;
        i := i + 1;
      }
    }

    /** A byte of sym_buf; nothing is pending. */
    method SetByte(at: nat, b: byte)
      requires Queued() && Idle() && at < w.buf.Length
      modifies w.buf
      ensures Queued() && w.buf[..] == old(w.buf[..])[at := b]
    {
      hide ByteBits, ToBits;
      assert w.Queue() == [];
      w.buf[at] := b;
      assert w.Queue() == [];
    }

    /** COPY */
    method CaseCopy(ghost whole: BitTrace, ghost more: Bits) returns (stop: bool)
      requires Valid() && mode == COPY && Told(whole, more)
      modifies `mode, `st, `length, `symNext, src, w.buf
      ensures Valid() && Told(whole, more)
      ensures stop ==> Stuck()
      ensures !stop ==> |src.Ahead()| < old(|src.Ahead()|)
    {
      hide *;
      OpenCopy();
      OpenBase();
      BaseParts();
      Tell(whole, more);
      ghost var data, n := st.data, |sent|;
      if length == 0 {
        stop := EndRaw(whole, more, data);
        return;
      }
      var copy := if length > |src.next| then |src.next| else length;
      if copy == 0 {
        StallCopy(n, last, data, length, src.Ahead());
        ShowStuck();
        return true;
      }
      CopyRaw(whole, more, copy, data);
      return false;
    }

    /** Some of the data of a stored block. */
    method CopyRaw(ghost whole: BitTrace, ghost more: Bits, copy: nat, ghost data: seq<byte>)
      requires Base() && mode == COPY && st == AtCopy(data, length) && ttype == STORE && HoldingRaw(data)
      requires |data| + length < 65536 && src.bits == 0 && 0 < copy <= length && copy <= |src.next| && Told(whole, more)
      modifies `mode, `st, `length, `symNext, src`next, w.buf
      ensures Valid() && Told(whole, more)
      ensures |src.Ahead()| < old(|src.Ahead()|)
    {
      hide *;
      OpenBase();
      BaseParts();
      Tell(whole, more);
      StepCopy(|sent|, last, data, length, copy, src.Ahead(), more);
      RawIs(data);
      var bytes := src.TakeBytes(copy);
      KeepBytes(bytes);
      length := length - copy;
      st := AtCopy(data + bytes, length);
      SimplySound();
      CloseBase();
      MakeRaw(data + bytes);
      CloseCopy(data + bytes, length);
      Retell(whole, more);
    }

    /** The mark after a stored block. */
    method EndRaw(ghost whole: BitTrace, ghost more: Bits, ghost data: seq<byte>) returns (stop: bool)
      requires Base() && mode == COPY && st == AtCopy(data, 0) && length == 0 && ttype == STORE && HoldingRaw(data)
      requires |data| < 65536 && (src.bits == 0 || src.bits == 8) && Told(whole, more)
      modifies `mode, `st, src
      ensures Valid() && Told(whole, more)
      ensures stop ==> Stuck()
      ensures !stop ==> |src.Ahead()| < old(|src.Ahead()|)
    {
      hide *;
      OpenBase();
      Tell(whole, more);
      ghost var n := |sent|;
      var ok := src.Need(16);
      if !ok {
        StallCopy(n, last, data, 0, src.Ahead());
        CloseBase();
        CloseCopy(data, 0);
        Retell(whole, more);
        ShowStuck();
        return true;
      }
      EndCopy(n, last, data, src.Ahead(), more);
      src.Drop(16);
      mode, st := ENDOFBLOCK, AtPut(Stored(|data|), [], data);
      SimplySound();
      CloseBase();
      StoredReady(|data|);
      CloseRawPut(data);
      Retell(whole, more);
      return false;
    }

    // ----- symbols -----

    lemma CloseSyms(head: Head, xs: seq<Sym3>)
      requires Base() && (mode == LEN || mode == LEN_) && st == AtSyms(head, xs) && HeadReady(head) && Holding(xs)
               && src.bits == 0
      ensures Valid()
    {
      hide Queued, Built, HeadReady, Holding;
    }

    lemma OpenSyms()
      requires Valid() && (mode == LEN || mode == LEN_ || mode == INS1 || mode == INS2 || mode == MATCH || mode == LIT)
      ensures Base() && src.Valid() && HasSyms(st) && !st.head.Stored? && HeadReady(st.head) && Holding(st.xs)
      ensures mode == LEN || mode == LEN_ ==> st == AtSyms(st.head, st.xs) && src.bits == 0
      ensures mode == INS1 ==> st == AtIns1(st.head, st.xs) && src.bits == 0
      ensures mode == INS2 ==>
                  st == AtIns2(st.head, st.xs, insbuf1) && insbuf1 <= 0x80 && (src.bits == 0 || src.bits == 8)
      ensures mode == MATCH ==>
                  st == AtSym(st.head, st.xs, Sym3(offset, length)) && offset < 65536 && length < 256 && src.bits == 0
      ensures mode == LIT ==> st == AtSym(st.head, st.xs, Sym3(0, length)) && length < 256 && src.bits == 0
    {
      hide Queued, Built, HeadReady, Holding;
    }

    lemma CloseIns1(head: Head, xs: seq<Sym3>)
      requires Base() && mode == INS1 && st == AtIns1(head, xs) && HeadReady(head) && Holding(xs) && src.bits == 0
      ensures Valid()
    {
      hide Queued, Built, HeadReady, Holding;
    }

    lemma CloseIns2(head: Head, xs: seq<Sym3>)
      requires Base() && mode == INS2 && st == AtIns2(head, xs, insbuf1) && insbuf1 <= 0x80 && HeadReady(head)
      requires Holding(xs)
      requires src.bits == 0 || src.bits == 8
      ensures Valid()
    {
      hide Queued, Built, HeadReady, Holding;
    }

    lemma CloseSym(head: Head, xs: seq<Sym3>)
      requires Base() && HeadReady(head) && Holding(xs) && src.bits == 0 && length < 256
      requires (mode == LIT && st == AtSym(head, xs, Sym3(0, length)))
               || (mode == MATCH && offset < 65536 && st == AtSym(head, xs, Sym3(offset, length)))
      ensures Valid()
    {
      hide Queued, Built, HeadReady, Holding;
    }

    lemma ClosePut(head: Head, xs: seq<Sym3>)
      requires Base() && mode == ENDOFBLOCK && st == AtPut(head, xs, []) && !head.Stored? && HeadReady(head)
      requires Holding(xs) && src.bits == 0
      ensures Valid()
    {
      hide Queued, Built, HeadReady;
    }

    lemma CloseRawPut(data: seq<byte>)
      requires Base() && mode == ENDOFBLOCK && st == AtPut(Stored(|data|), [], data) && HeadReady(Stored(|data|))
      requires HoldingRaw(data) && src.bits == 0
      ensures Valid()
    {
      hide Queued, Built, HeadReady, HoldingRaw;
    }

    /** LEN */
    method CaseLen(ghost whole: BitTrace, ghost more: Bits) returns (stop: bool)
      requires Valid() && mode == LEN && Told(whole, more)
      modifies `mode, `st, `length, src
      ensures Valid() && Told(whole, more)
      ensures stop ==> Stuck()
      ensures !stop ==> |src.Ahead()| < old(|src.Ahead()|)
    {
      hide *;
      OpenSyms();
      OpenBase();
      Tell(whole, more);
      ghost var head, xs, n := st.head, st.xs, |sent|;
      var ok := src.Need(8);
      ghost var start := src.Ahead();
      if !ok {
        StallSyms(n, last, head, xs, 0, start);
        CloseBase();
        CloseSyms(head, xs);
        Retell(whole, more);
        ShowStuck();
        return true;
      }
      CloseBase();
      Retell(whole, more);
      TakeByte(whole, more, head, xs);
      return false;
    }

    /** A literal, or the escape byte. */
    method TakeByte(ghost whole: BitTrace, ghost more: Bits, ghost head: Head, ghost xs: seq<Sym3>)
      requires Base() && st == AtSyms(head, xs) && !head.Stored? && HeadReady(head) && Holding(xs) && src.bits == 8
      requires Told(whole, more)
      modifies `mode, `st, `length, src`hold, src`bits
      ensures Valid() && Told(whole, more) && |src.Ahead()| < old(|src.Ahead()|)
    {
      hide *;
      OpenBase();
      Tell(whole, more);
      StepLen(|sent|, last, head, xs, src.Ahead(), more);
      src.Peeked(8);
      var b := src.Peek(8);
      src.Drop(8);
      SimplySound();
      if b != 0xaa {
        length := b;
        mode, st := LIT, AtSym(head, xs, Sym3(0, b));
        CloseBase();
        CloseSym(head, xs);
      } else {
        mode, st := INS1, AtIns1(head, xs);
        CloseBase();
        CloseIns1(head, xs);
      }
      Retell(whole, more);
    }

    /** INS1 */
    method CaseIns1(ghost whole: BitTrace, ghost more: Bits) returns (stop: bool)
      requires Valid() && mode == INS1 && Told(whole, more)
      modifies `mode, `st, `length, `insbuf1, src
      ensures Valid() && Told(whole, more)
      ensures stop ==> Stuck()
      ensures !stop ==> |src.Ahead()| < old(|src.Ahead()|)
    {
      hide *;
      OpenSyms();
      OpenBase();
      Tell(whole, more);
      ghost var head, xs, n := st.head, st.xs, |sent|;
      var ok := src.Need(8);
      ghost var start := src.Ahead();
      if !ok {
        StallSyms(n, last, head, xs, 0, start);
        CloseBase();
        CloseIns1(head, xs);
        Retell(whole, more);
        ShowStuck();
        return true;
      }
      StepIns1(n, last, head, xs, start, more);
      src.Peeked(8);
      insbuf1 := src.Peek(8);
      src.Drop(8);
      CloseBase();
      SimplySound();
      TakeIns1(whole, more, head, xs);
      return false;
    }

    /** The byte after the escape byte. */
    method TakeIns1(ghost whole: BitTrace, ghost more: Bits, ghost head: Head, ghost xs: seq<Sym3>)
      requires Base() && insbuf1 < 256 && !head.Stored? && HeadReady(head) && Holding(xs) && src.bits == 0
      requires var next := if insbuf1 == 0xaa then AtSym(head, xs, Sym3(0, insbuf1))
               else if insbuf1 == 0xff then AtPut(head, xs, [])
                           else if insbuf1 > 0x80 then Failed else AtIns2(head, xs, insbuf1);
               Sound(next) && whole == PutBits(sent, After(|sent|, last, next, src.Ahead() + more))
      modifies `mode, `st, `length
      ensures Valid() && Told(whole, more)
    {
      hide *;
      OpenBase();
      if insbuf1 == 0xaa {
        length := 0xaa;
        mode, st := LIT, AtSym(head, xs, Sym3(0, 0xaa));
        CloseBase();
        CloseSym(head, xs);
      } else if insbuf1 == 0xff {
        mode, st := ENDOFBLOCK, AtPut(head, xs, []);
        CloseBase();
        ClosePut(head, xs);
      } else if insbuf1 > 0x80 {
        Fail(whole, more);
        return;
      } else {
        mode, st := INS2, AtIns2(head, xs, insbuf1);
        CloseBase();
        CloseIns2(head, xs);
      }
      Retell(whole, more);
    }

    /** Two bytes from the register. */
    method TwoBytes() returns (low: nat, high: nat)
      requires src.Valid() && src.bits == 16
      modifies src`hold, src`bits
      ensures src.Valid() && src.bits == 0 && src.Ahead() == old(src.Ahead())[8..][8..]
      ensures low == Val(old(src.Ahead())[..8]) && high == Val(old(src.Ahead())[8..][..8])
    {
      hide *;
      src.Peeked(8);
      low := src.Peek(8);
      src.Drop(8);
      src.Peeked(8);
      high := src.Peek(8);
      src.Drop(8);
    }

    /** INS2 */
    method CaseIns2(ghost whole: BitTrace, ghost more: Bits) returns (stop: bool)
      requires Valid() && mode == INS2 && Told(whole, more)
      modifies `mode, `st, `length, `offset, src
      ensures Valid() && Told(whole, more)
      ensures stop ==> Stuck()
      ensures !stop ==> |src.Ahead()| < old(|src.Ahead()|)
    {
      hide *;
      OpenSyms();
      OpenBase();
      Tell(whole, more);
      ghost var head, xs, n := st.head, st.xs, |sent|;
      var ok := src.Need(16);
      ghost var start := src.Ahead();
      if !ok {
        StallSyms(n, last, head, xs, insbuf1, start);
        CloseBase();
        CloseIns2(head, xs);
        Retell(whole, more);
        ShowStuck();
        return true;
      }
      CloseBase();
      Retell(whole, more);
      TakeMatch(whole, more, head, xs);
      return false;
    }

    /** The rest of a match. */
    method TakeMatch(ghost whole: BitTrace, ghost more: Bits, ghost head: Head, ghost xs: seq<Sym3>)
      requires Base() && st == AtIns2(head, xs, insbuf1) && insbuf1 <= 0x80 && !head.Stored? && HeadReady(head)
      requires Holding(xs)
      requires src.bits == 16 && Told(whole, more)
      modifies `mode, `st, `length, `offset, src`hold, src`bits
      ensures Valid() && Told(whole, more) && |src.Ahead()| < old(|src.Ahead()|)
    {
      hide *;
      OpenBase();
      Tell(whole, more);
      StepIns2(|sent|, last, head, xs, insbuf1, src.Ahead(), more);
      var low;
      low, length := TwoBytes();
      offset := low + 256 * insbuf1;
      mode, st := MATCH, AtSym(head, xs, Sym3(offset, length));
      SimplySound();
      CloseBase();
      CloseSym(head, xs);
      Retell(whole, more);
    }

    /** MATCH and LIT: _tr_tally_dist_my and _tr_tally_lit_my; true when sym_buf is full. */
    method CaseTally(ghost whole: BitTrace, ghost more: Bits) returns (full: bool)
      requires Valid() && (mode == MATCH || mode == LIT) && Told(whole, more)
      modifies `mode, `st, `symNext, w.buf
      ensures !full ==> Valid() && Told(whole, more) && mode == LEN
      ensures full ==> whole == PutBits(sent, BitTrace([], SymbolsFull)) && Queued() && Idle()
    {
      hide *;
      OpenSyms();
      OpenBase();
      BaseParts();
      Tell(whole, more);
      ghost var head, xs, n := st.head, st.xs, |sent|;
      var dist := if mode == MATCH then offset else 0;
      ghost var x := Sym3(dist, length);
      StepSym(n, last, head, xs, x, src.Ahead() + more);
      HeldSyms(xs);
      Tally(dist, length, xs);
      full := symNext == 12 * (16384 - 1);
      if full {
        EndAfter(n, last, src.Ahead() + more);
        return true;
      }
      mode, st := LEN, AtSyms(head, xs + [x]);
      SimplySound();
      CloseBase();
      MakeHolding(xs + [x]);
      CloseSyms(head, xs + [x]);
      Retell(whole, more);
      return false;
    }

    lemma HeldSyms(xs: seq<Sym3>)
      requires Holding(xs)
      ensures Idle() && |xs| < 65532 && SYM_MAX == 65532 && symNext == 3 * |xs| && 16384 + symNext <= w.buf.Length
      ensures SymsIn(w.buf[16384..16384 + symNext], xs)
    {
      hide SymsIn;
    }

    lemma MakeHolding(xs: seq<Sym3>)
      requires Idle() && |xs| < 65532 && symNext == 3 * |xs| && 16384 + symNext <= w.buf.Length
      requires SymsIn(w.buf[16384..16384 + symNext], xs)
      ensures Holding(xs)
    {
      hide SymsIn;
    }

    /** Three bytes in sym_buf. */
    method Tally(dist: nat, len: nat, ghost xs: seq<Sym3>)
      requires Queued() && Idle() && dist < 65536 && len < 256
      requires symNext == 3 * |xs| && 16384 + symNext + 3 <= w.buf.Length && SymsIn(w.buf[16384..16384 + symNext], xs)
      modifies `symNext, w.buf
      ensures Queued() && symNext == old(symNext) + 3
      ensures SymsIn(w.buf[16384..16384 + symNext], xs + [Sym3(dist, len)])
    {
      hide *;
      ghost var a := w.buf[..];
      SetByte(16384 + symNext, dist % 256);
      SetByte(16384 + symNext + 1, dist / 256);
      SetByte(16384 + symNext + 2, len);
      Tallied(a, w.buf[..], symNext, dist, len, xs);
      symNext := symNext + 3;
    }

    // ----- writing a block -----

    lemma OpenPut()
      requires Valid() && mode == ENDOFBLOCK
      ensures Base() && st.AtPut? && st == AtPut(st.head, st.xs, st.raw) && src.bits == 0 && HeadReady(st.head)
      ensures |st.xs| < SYM_MAX
      ensures Idle() && 16384 + symNext <= w.buf.Length
      ensures st.head.Stored? ==> st.raw == w.buf[16384..16384 + symNext]
      ensures !st.head.Stored? ==> SymsIn(w.buf[16384..16384 + symNext], st.xs) && st.raw == []
    {
      hide Queued, Built, HeadReady, SymsIn;
    }

    lemma ReadyParts(head: Head)
      requires HeadReady(head)
      ensures ttype == TypeOf(head) && ValidHead(head) && TreesFor(head, Ltree(), Dtree(), rd.clTree)
      ensures head.Dynamic? ==> rd.nlen == head.hdr.nlen && rd.ndist == head.hdr.ndist && rd.ncode == |head.hdr.cl|
    {
      hide ValidHead, TreesFor;
    }

    lemma QueuedIs()
      requires Queued()
      ensures w.Valid() && w.biValid < 8 && (w.have == 0 ==> w.first == 0) && ByteBits(out) + w.Written() == sent
      ensures Idle() ==> |sent| == 8 * |out| + w.biValid
    {
      hide ByteBits, ToBits;
    }

    lemma MakeQueued()
      requires w.Valid() && w.biValid < 8 && (w.have == 0 ==> w.first == 0) && ByteBits(out) + w.Written() == sent
      ensures Queued()
    {
    }

    /**
      flush_pending: what is pending is handed out as far as there is space.  Nothing is put when the bit
      buffer has been flushed before.
     */
    method FlushPending()
      requires w.Valid() && (w.biValid >= 8 ==> w.first == 0) && (w.have == 0 ==> w.first == 0)
      requires 8 * w.have + w.biValid <= 8 * w.buf.Length + 7 && ByteBits(out) + w.Written() == sent
      modifies `out, `left, w`have, w`first, w`biBuf, w`biValid, w.buf
      ensures Queued() && old(out) <= out && |out| + left == old(|out| + left)
      ensures left > 0 ==> Idle()
      ensures old(w.biValid) < 8 ==> old(w.Queue()) == out[|old(out)|..] + w.Queue() && w.biValid == old(w.biValid)
    {
      hide *;
      w.Flush();
      ghost var q, o, b := w.Queue(), out, ToBits(w.biBuf, w.biValid);
      WrittenIs(w);
      var bytes := w.Take(left);
      WrittenIs(w);
      TakenBits(o, q, bytes, w.Queue(), b);
      out := out + bytes;
      left := left - |bytes|;
      assert |q| == |bytes| + w.have;
      MakeIdle();
      MakeQueued();
    }

    lemma MakeIdle()
      requires w.have == 0 ==> w.first == 0
      ensures w.have == 0 ==> Idle()
    {
    }

    lemma IdleIs()
      ensures Idle() <==> w.have == 0 && w.first == 0
    {
    }

    /** _tr_flush_block_my: the block is put into the empty queue. */
    method WriteBlock(ghost whole: BitTrace, ghost more: Bits)
      requires Valid() && mode == ENDOFBLOCK && Told(whole, more) && whole.end != OutOfBounds
      modifies `mode, `st, `symNext, `sent, w`have, w`biBuf, w`biValid, w.buf
      ensures Built() && src.Valid() && rd.hdr.Valid() && rd.hdr.first == 0 && !rd.recording
      ensures w.Valid() && w.first == 0 && 8 * w.have + w.biValid <= 8 * w.buf.Length
      ensures ByteBits(out) + w.Written() == sent
      ensures mode == TYPE && st == AtBlock && symNext == 0 && src.bits == 0 && Sound(st) && Told(whole, more)
      ensures old(sent) <= sent
    {
      hide *;
      OpenPut();
      OpenBase();
      QueuedIs();
      IdleIs();
      SimplySound();
      Tell(whole, more);
      ghost var head, xs, raw, n, bits := st.head, st.xs, st.raw, |sent|, src.Ahead() + more;
      ghost var all := BlockTold(whole, head, xs, raw, n, bits);
      BlockFlushed(n, head, xs, raw, all);
      sent := sent + all;
      symNext := 0;
      mode, st := TYPE, AtBlock;
      Retell(whole, more);
    }

    /** What the block adds to what has been written. */
    lemma BlockTold(whole: BitTrace, head: Head, xs: seq<Sym3>, raw: seq<byte>, n: nat, bits: Bits) returns (all: Bits)
      requires n == |sent| && whole == PutBits(sent, After(n, last, AtPut(head, xs, raw), bits))
      requires whole.end != OutOfBounds
      requires HeadReady(head) && |xs| < SYM_MAX
      ensures ValidHead(head) && BlockReady(n, last, head, xs, raw)
      ensures all == BlockOut(n, last, head, xs, raw) + Tail(n + |BlockOut(n, last, head, xs, raw)|, last)
      ensures Sound(AtBlock) && whole == PutBits(sent + all, After(|sent + all|, last, AtBlock, bits))
    {
      hide *;
      ReadyParts(head);
      SimplySound();
      SameEnd(sent, After(n, last, AtPut(head, xs, raw), bits));
      StepPut(n, last, head, xs, raw, bits);
      var block := BlockOut(n, last, head, xs, raw);
      all := block + Tail(n + |block|, last);
      PutBitsTwice(sent, all, After(n + |all|, last, AtBlock, bits));
    }

    method BlockFlushed(ghost n: nat, ghost head: Head, ghost xs: seq<Sym3>, ghost raw: seq<byte>, ghost all: Bits)
      requires Built() && Queued() && Idle() && n == |sent| == 8 * |out| + w.biValid && HeadReady(head)
      requires 16384 + symNext <= w.buf.Length && BlockReady(n, last, head, xs, raw)
      requires head.Stored? ==> raw == w.buf[16384..16384 + symNext]
      requires !head.Stored? ==> SymsIn(w.buf[16384..16384 + symNext], xs)
      requires all == BlockOut(n, last, head, xs, raw) + Tail(n + |BlockOut(n, last, head, xs, raw)|, last)
      modifies w`have, w`biBuf, w`biValid, w.buf
      ensures w.Valid() && w.first == 0 && 8 * w.have + w.biValid <= 8 * w.buf.Length
      ensures ByteBits(out) + w.Written() == sent + all
    {
      hide *;
      BuiltSize();
      QueuedIs();
      IdleIs();
      LitBufsize();
      ReadyParts(head);
      RawMatters(n, last, head, xs, raw, w.buf[16384..16384 + symNext]);
      SentMod(n, |out|, w.biValid);
      ghost var before := w.Written();
      FlushBlock(w, symNext, ttype, last, Ltree(), Dtree(), rd.clTree, rd.nlen, rd.ndist, rd.ncode, n, head, xs);
      Assoc(ByteBits(out), before, all);
    }

    lemma BuiltSize()
      requires Built()
      ensures w.buf.Length == 262144 && rd.hdr != w && rd.src == src
    {
      hide TreeFor, FixedLit, FixedDist;
    }

    /** ENDOFBLOCK: the block is put into the empty queue, and the queue is handed out as far as there is space. */
    method CaseEndOfBlock(ghost whole: BitTrace, ghost more: Bits) returns (stop: bool)
      requires Valid() && mode == ENDOFBLOCK && left > 0 && Told(whole, more) && whole.end != OutOfBounds
      modifies `mode, `st, `symNext, `sent, `out, `left, w`have, w`first, w`biBuf, w`biValid, w.buf
      ensures Valid() && Told(whole, more) && mode == TYPE && st == AtBlock && src.bits == 0
      ensures old(sent) <= sent && old(out) <= out && |out| + left == old(|out| + left)
      ensures if stop then left == 0 else left > 0 && Idle()
    {
      hide *;
      WriteBlock(whole, more);
      BuiltSize();
      Tell(whole, more);
      FlushPending();
      stop := left == 0;
      CloseBase();
      CloseBlock();
      Retell(whole, more);
    }

    // ----- the machine -----

    /** The modes that only lead to the next: HEAD, COPY_, LEN_. */
    method CasePass()
      requires Valid() && Idle() && (mode == HEAD || mode == COPY_ || mode == LEN_)
      modifies `mode, src`hold, src`bits
      ensures Valid() && src.Ahead() == old(src.Ahead())
      ensures mode == if old(mode) == HEAD then TYPEDO else if old(mode) == COPY_ then COPY else LEN
    {
      hide *;
      if mode == HEAD {
        OpenBlock();
        mode := TYPEDO;
        CloseBlock();
      } else if mode == COPY_ {
        OpenCopy();
        mode := COPY;
        CloseCopy(st.data, length);
      } else {
        OpenSyms();
        OpenBase();
        src.Held();
        NothingHeld(src.Ahead(), src.hold, src.bits, src.next);
        src.hold, src.bits := 0, 0;
        Emptied(src);
        mode := LEN;
        CloseBase();
        CloseSyms(st.head, st.xs);
      }
    }

    /** How a turn of the mode switch ends: another one, a return, or a return without saving the registers. */
    method Turn(ghost whole: BitTrace, ghost more: Bits) returns (stop: bool, full: bool)
      requires Valid() && Idle() && left > 0 && Told(whole, more) && whole.end != OutOfBounds && |more| % 8 == 0
      modifies this, src, w, w.buf, rd, rd.lens, rd.hdr`have, rd.hdr`biBuf, rd.hdr`biValid, rd.hdr.buf
      ensures old(sent) <= sent && old(out) <= out && |out| + left == old(|out| + left) && lastFlush == old(lastFlush)
      ensures full ==> whole == PutBits(sent, BitTrace([], SymbolsFull)) && Queued() && Idle()
      ensures !full ==> Valid() && Told(whole, more)
      ensures !full && stop ==> Stuck() || mode == DONE || mode == BAD || (left == 0 && mode == TYPE && src.bits == 0)
      ensures !full && left > 0 ==> Idle()
      ensures old(mode) == DONE ==> !full && stop && mode == DONE
      ensures !full && !stop ==> left > 0 && Lower(|src.Ahead()|, mode, old(|src.Ahead()|), old(mode))
    {
      hide *;
      LowerIs();
      Ranks();
      OpenSound();
      BaseParts();
      stop, full := false, false;
      match mode {
        case TYPE => stop := CaseBlock(whole, more);
        case TYPEDO => stop := CaseBlock(whole, more);
        case STORED => stop := CaseStored(whole, more);
        case COPY => stop := CaseCopy(whole, more);
        case TABLE => stop := CaseTable(whole, more);
        case LENLENS => stop := CaseLenLens(whole, more);
        case CODELENS => stop := CaseCodeLens(whole, more);
        case SKPI_HEADER_END => stop := CaseSkip(whole, more);
        case LEN => stop := CaseLen(whole, more);
        case INS1 => stop := CaseIns1(whole, more);
        case INS2 => stop := CaseIns2(whole, more);
        case MATCH => full := CaseTally(whole, more);
        case LIT => full := CaseTally(whole, more);
        case ENDOFBLOCK => stop := CaseEndOfBlock(whole, more);
        case DONE => stop := true;
        case BAD => stop := true;
        case _ => TurnPass(whole, more);
      }
    }

    method TurnPass(ghost whole: BitTrace, ghost more: Bits)
      requires Valid() && Idle() && (mode == HEAD || mode == COPY_ || mode == LEN_) && Told(whole, more)
      modifies `mode, src`hold, src`bits
      ensures Valid() && Told(whole, more) && src.Ahead() == old(src.Ahead())
      ensures mode == if old(mode) == HEAD then TYPEDO else if old(mode) == COPY_ then COPY else LEN
    {
      hide *;
      OpenSound();
      Tell(whole, more);
      CasePass();
      Retell(whole, more);
    }

    lemma OpenSound()
      requires Valid()
      ensures Sound(st) && Base()
    {
      hide InMode, Queued, Built;
    }

    /** deflate_my */
    method DeflateMy(ghost whole: BitTrace, ghost more: Bits) returns (full: bool)
      requires Valid() && Idle() && left > 0 && Told(whole, more) && whole.end != OutOfBounds && |more| % 8 == 0
      modifies this, src, w, w.buf, rd, rd.lens, rd.hdr`have, rd.hdr`biBuf, rd.hdr`biValid, rd.hdr.buf
      ensures old(sent) <= sent && old(out) <= out && |out| + left == old(|out| + left) && lastFlush == old(lastFlush)
      ensures full ==> whole == PutBits(sent, BitTrace([], SymbolsFull)) && Queued() && Idle()
      ensures !full ==> Valid() && Told(whole, more)
      ensures !full && left > 0 ==> Idle() && (Stuck() || mode == DONE || mode == BAD)
      ensures !full && left > 0 ==> src.next == [] || mode == DONE || mode == BAD
      ensures !full && src.next == [] ==> Rested()
      ensures !full && (mode == DONE || mode == BAD) ==> Rested()
      ensures old(mode) == DONE ==> !full && mode == DONE
    {
      hide *;
      if mode == TYPE {
        SkipCheck(whole, more);
      }
      full := false;
      var stop := false;
      while !stop
        invariant Valid() && Told(whole, more)
        invariant old(sent) <= sent && old(out) <= out && |out| + left == old(|out| + left)
        invariant lastFlush == old(lastFlush)
        invariant !stop ==> left > 0 && Idle()
        invariant stop ==> left == 0 || (Idle() && (Stuck() || mode == DONE || mode == BAD))
        invariant stop ==> Stuck() || mode == DONE || mode == BAD || (mode == TYPE && src.bits == 0)
        invariant old(mode) == DONE ==> mode == DONE
        decreases !stop, |src.Ahead()|, Rank(mode)
      {
        ghost var a, m := |src.Ahead()|, mode;
        stop, full := Turn(whole, more);
        if full {
          return;
        }
        if !stop {
          LowerMeans(|src.Ahead()|, mode, a, m);
        }
      }
      AtRest();
    }

    /** Why a call has nothing more to write without input. */
    lemma AtRest()
      requires Valid() && (Stuck() || mode == DONE || mode == BAD || (mode == TYPE && src.bits == 0))
      ensures src.next == [] || mode == DONE || mode == BAD ==> Rested()
      ensures Stuck() ==> src.next == []
    {
      hide Queued, Built, RecBlocks, Aligned;
      EndAfter(|sent|, last, src.Ahead());
      NothingLeft(|sent|, last);
      if src.next == [] && src.bits == 0 {
        assert src.Ahead() == [];
      }
    }

    method SkipCheck(ghost whole: BitTrace, ghost more: Bits)
      requires Valid() && mode == TYPE && Idle() && Told(whole, more)
      modifies `mode
      ensures Valid() && mode == TYPEDO && Told(whole, more)
    {
      hide *;
      OpenBlock();
      mode := TYPEDO;
      CloseBlock();
    }

    /** The values last_flush takes, and what a call without input relies on: the one before it did all it could. */
    ghost predicate Settled()
      requires Sound(st)
      reads `lastFlush, `mode, `last, `st, `sent, src
    {
      (lastFlush == -2 || lastFlush == -1 || lastFlush == Z_NO_FLUSH || lastFlush == Z_FINISH)
      && (lastFlush >= 0 && src.next == [] ==> Rested())
    }

    /**
      j_deflate: `bad` stands for Z_DATA_ERROR, the one result its caller acts upon.  The whole output stays
      the same whatever the call does, what is handed out is only added to, and the call returns only when
      it must: the space is used up, the input is used up, or the stream has ended.
     */
    method Deflate(flush: int, ghost whole: BitTrace, ghost more: Bits) returns (bad: bool, full: bool)
      requires Valid() && Settled() && Told(whole, more) && (flush == Z_NO_FLUSH || flush == Z_FINISH)
      requires whole.end != OutOfBounds && |more| % 8 == 0
      modifies this, src, w, w.buf, rd, rd.lens, rd.hdr`have, rd.hdr`biBuf, rd.hdr`biValid, rd.hdr.buf
      ensures old(sent) <= sent && old(out) <= out && |out| + left == old(|out| + left)
      ensures full ==> whole == PutBits(sent, BitTrace([], SymbolsFull)) && Queued() && Idle() && !bad
      ensures !full ==> Valid() && Settled() && Told(whole, more)
      ensures !full && left > 0 ==> Idle() && Rested() && (src.next == [] || mode == DONE || mode == BAD)
      ensures !full && left > 0 && flush == Z_FINISH ==> Stuck() || mode == DONE || mode == BAD
      ensures bad ==> mode == BAD
      ensures !full && mode == BAD && old(mode) != BAD ==> bad
      ensures !full && mode == DONE ==> src.bits == 0 && whole == BitTrace(sent, Written(ByteBits(src.next) + more))
      ensures old(mode) == DONE ==> !full && mode == DONE
    {
      hide *;
      bad, full := false, false;
      OpenSound();
      OpenSettled();
      if mode == DONE {
        AtDone(whole, more);
      }
      if left == 0 {
        return;
      }
      var oldFlush := lastFlush;
      lastFlush := flush;
      OpenBase();
      QueuedIs();
      MakeIdle();
      if w.have != 0 {
        FlushAgain();
        if left == 0 {
          lastFlush := -1;
          Resettle();
          return;
        }
      } else if src.next == [] && FlushRank(flush) <= FlushRank(oldFlush) && flush != Z_FINISH {
        RanksOf(flush, oldFlush);
        Resettle();
        return;
      }
      full := DeflateMy(whole, more);
      if !full {
        bad := mode == BAD;
        Resettle();
        if mode == DONE {
          AtDone(whole, more);
        }
      }
    }

    lemma OpenSettled()
      requires Sound(st) && Settled()
      ensures lastFlush == -2 || lastFlush == -1 || lastFlush == 0 || lastFlush == 4
      ensures lastFlush >= 0 && src.next == [] ==> Rested()
      ensures Z_NO_FLUSH == 0 && Z_FINISH == 4
    {
      hide Rested;
    }

    lemma Resettle()
      requires Sound(st) && (lastFlush == -2 || lastFlush == -1 || lastFlush == 0 || lastFlush == 4)
      requires lastFlush >= 0 && src.next == [] ==> Rested()
      ensures Settled()
    {
      hide Rested;
    }

    lemma RanksOf(flush: int, before: int)
      requires FlushRank(flush) <= FlushRank(before) && (flush == 0 || flush == 4)
      requires before == -2 || before == -1 || before == 0 || before == 4
      ensures before >= 0
    {
    }

    /** What an earlier call left pending is handed out; the machine stays where it is. */
    method FlushAgain()
      requires Valid() && w.have != 0
      modifies `out, `left, w`have, w`first, w`biBuf, w`biValid, w.buf
      ensures Valid() && old(out) <= out && |out| + left == old(|out| + left)
      ensures left > 0 ==> Idle()
      ensures old(w.Queue()) == out[|old(out)|..] + w.Queue() && w.biValid == old(w.biValid)
    {
      hide *;
      OpenPending();
      OpenBase();
      BaseParts();
      QueuedIs();
      assert |w.Queue()| == w.have;
      FlushPending();
      CloseBase();
      if mode == TYPE {
        CloseBlock();
      } else {
        CloseEnd();
      }
    }

    lemma OpenPending()
      requires Valid() && w.have != 0
      ensures Base() && (mode == TYPE || mode == DONE || mode == BAD)
      ensures mode == TYPE ==> st == AtBlock && src.bits < 8 && symNext == 0
      ensures mode == DONE ==> st == AtEnd && src.bits == 0
      ensures mode == BAD ==> st == Failed
      ensures 8 * w.have + w.biValid <= 8 * w.buf.Length + 7
    {
      hide Built, ByteBits, ToBits, HeadReady, HeaderReader.Valid, SymsIn;
    }

    /** Input that was still to come is handed in. */
    method Supply(chunk: seq<byte>, ghost whole: BitTrace, ghost later: seq<byte>)
      requires Valid() && Settled() && src.next == [] && Told(whole, ByteBits(chunk + later))
      modifies src`next
      ensures Valid() && Settled() && Told(whole, ByteBits(later)) && src.next == chunk
    {
      hide *;
      OpenSound();
      Tell(whole, ByteBits(chunk + later));
      OpenSettled();
      src.HeldIsAhead();
      src.next := chunk;
      src.HeldAnd(chunk, later);
      Retell(whole, ByteBits(later));
      Resettle();
    }

    /** Input after the end is not looked at. */
    method Ignore(chunk: seq<byte>)
      requires Valid() && Settled() && mode == DONE
      modifies src`next
      ensures Valid() && Settled()
    {
      hide *;
      OpenSound();
      OpenSettled();
      src.next := chunk;
      DoneRests();
      Resettle();
    }

    lemma DoneRests()
      requires Valid() && mode == DONE
      ensures Rested()
    {
      hide Queued, Built;
    }

    /** At the end everything has been written, and the bytes after the stream have not been read. */
    lemma AtDone(whole: BitTrace, more: Bits)
      requires Valid() && mode == DONE && Told(whole, more) && |more| % 8 == 0
      ensures src.bits == 0 && whole == BitTrace(sent, Written(ByteBits(src.next) + more))
    {
      hide *;
      OpenSound();
      OpenDone();
      Tell(whole, more);
      src.NoneHeld();
      EndTrace(sent, last, src.Ahead() + more);
    }

    lemma OpenDone()
      requires Valid() && mode == DONE
      ensures st == AtEnd && src.bits == 0
    {
      hide Queued, Built;
    }

    lemma AtBad(whole: BitTrace, more: Bits)
      requires Valid() && mode == BAD && Told(whole, more)
      ensures whole.end == Wrong
    {
      hide Queued, Built;
    }

    lemma StuckIs()
      requires Valid() && Stuck()
      ensures !After(|sent|, last, st, src.Ahead()).end.Written?
    {
    }

    /** A machine that rests has not met an error. */
    lemma RestedEnd()
      requires Valid() && Rested() && mode != BAD && src.next == []
      ensures var t := After(|sent|, last, st, src.Ahead()); t.out == [] && t.end != Wrong && t.end != SymbolsFull
    {
    }

    /** What has been handed out is the front of what has been sent, and what is pending comes next. */
    lemma InOrder()
      requires Queued()
      ensures 8 * (|out| + w.have) <= |sent| && |sent| < 8 * (|out| + w.have) + 8
      ensures ByteBits(out) == sent[..8 * |out|]
      ensures ByteBits(w.Queue()) == sent[8 * |out|..8 * (|out| + w.have)]
    {
      hide ByteBits, ToBits;
      WrittenIs(w);
      var a, b, c := ByteBits(out), ByteBits(w.Queue()), ToBits(w.biBuf, w.biValid);
      assert sent == a + (b + c);
    }
  }

  lemma Emptied(src: BitReader)
    requires src.hold == 0 && src.bits == 0
    ensures src.Valid() && src.Ahead() == ToBits(0, 0) + ByteBits(src.next)
  {
  }

  /** A turn makes progress: fewer bits ahead, or a later mode. */
  predicate Lower(a: nat, m: Mode, a0: nat, m0: Mode) {
    a < a0 || (a == a0 && Rank(m) < Rank(m0))
  }

  lemma LowerIs()
    ensures forall a: nat, m, a0: nat, m0 :: Lower(a, m, a0, m0) <==> a < a0 || (a == a0 && Rank(m) < Rank(m0))
  {
  }

  lemma LowerMeans(a: nat, m: Mode, a0: nat, m0: Mode)
    requires Lower(a, m, a0, m0)
    ensures a < a0 || (a == a0 && Rank(m) < Rank(m0))
  {
  }

  lemma SimplySound()
    ensures Sound(AtBlock) && Sound(AtStored) && Sound(AtEnd) && Sound(Failed)
    ensures forall g :: Sound(AtHeader(g))
    ensures forall head :: Sound(AtSkip(head))
    ensures forall data, left :: Sound(AtCopy(data, left))
    ensures forall head, xs, raw :: Sound(AtPut(head, xs, raw))
    ensures forall head: Head, xs: seq<Sym3> :: !head.Stored? ==> Sound(AtSyms(head, xs))
    ensures forall head: Head, xs: seq<Sym3> :: !head.Stored? ==> Sound(AtIns1(head, xs))
    ensures forall head: Head, xs: seq<Sym3>, high: nat :: !head.Stored? ==> Sound(AtIns2(head, xs, high))
    ensures forall head: Head, xs: seq<Sym3>, sym: Sym3 :: !head.Stored? ==> Sound(AtSym(head, xs, sym))
  {
  }

  lemma TypeSlices(bits: Bits)
    requires |bits| >= 3
    ensures Val(bits[..1]) == Bit(bits[0]) && (bits[0] <==> Bit(bits[0]) == 1)
    ensures bits[1..][..2] == bits[1..3] && bits[1..][2..] == bits[3..]
  {
    assert bits[..1][1..] == [];
  }

  lemma TypeBound(bits: Bits)
    requires |bits| >= 3
    ensures Val(bits[1..3]) < 4
  {
    ValBound(bits[1..3]);
    Pow2Small();
  }

  lemma LenParts(bits: Bits)
    requires |bits| >= 32
    ensures Val(bits[..16]) < 65536 && Val(bits[16..32]) < 65536
  {
    ValBound(bits[..16]);
    ValBound(bits[16..32]);
    Pow2Small();
  }

  lemma NothingHeld(start: Bits, hold: nat, bits: nat, next: seq<byte>)
    requires start == ToBits(hold, bits) + ByteBits(next)
    ensures ToBits(0, 0) + ByteBits(next) == start[bits..] && 0 < Pow2(0)
  {
    assert ToBits(0, 0) == [];
  }

  lemma AlignShrinks(bits: Bits)
    ensures |Aligned(bits)| <= |bits|
  {
  }

  lemma AfterMarkIs(head: Head)
    ensures AfterMark(head) == if head.Stored? then AtCopy([], head.n) else AtSyms(head, [])
    ensures Sound(AfterMark(head))
  {
  }

  lemma Tallied(a: seq<byte>, b: seq<byte>, symNext: nat, dist: nat, len: nat, xs: seq<Sym3>)
    requires dist < 65536 && len < 256 && symNext == 3 * |xs| && 16384 + symNext + 3 <= |a|
    requires SymsIn(a[16384..16384 + symNext], xs)
    requires b == a[16384 + symNext := dist % 256][16384 + symNext + 1 := dist / 256][16384 + symNext + 2 := len]
    ensures SymsIn(b[16384..16384 + symNext + 3], xs + [Sym3(dist, len)])
  {
    var p, q, ys := a[16384..16384 + symNext], b[16384..16384 + symNext + 3], xs + [Sym3(dist, len)];
    assert forall k :: 0 <= k < symNext ==> q[k] == p[k];
    forall i | 0 <= i < |ys|
      ensures SymAt(q, i, ys[i])
    {
      if i < |xs| {
        assert SymAt(p, i, xs[i]);
      }
    }
  }

  lemma WrittenIs(w: BitWriter)
    requires w.Valid()
    ensures w.Written() == ByteBits(w.Queue()) + ToBits(w.biBuf, w.biValid)
  {
  }

  /** Bytes move from the queue to the output. */
  lemma TakenBits(o: seq<byte>, q: seq<byte>, bytes: seq<byte>, rest: seq<byte>, b: Bits)
    requires q == bytes + rest
    ensures ByteBits(o + bytes) + (ByteBits(rest) + b) == ByteBits(o) + (ByteBits(q) + b)
    ensures (o + bytes)[|o|..] == bytes
  {
    hide ByteBits;
    ByteBitsAppend(o, bytes);
    ByteBitsAppend(bytes, rest);
    Assoc(ByteBits(o), ByteBits(bytes), ByteBits(rest) + b);
    Assoc(ByteBits(bytes), ByteBits(rest), b);
  }

  lemma SameEnd(a: Bits, t: BitTrace)
    ensures PutBits(a, t).end == t.end
  {
  }

  /** Only stored blocks look at the raw bytes. */
  lemma RawMatters(n: nat, last: bool, head: Head, xs: seq<Sym3>, raw: seq<byte>, buf: seq<byte>)
    requires BlockReady(n, last, head, xs, raw) && (head.Stored? ==> raw == buf)
    ensures BlockReady(n, last, head, xs, buf) && BlockOut(n, last, head, xs, buf) == BlockOut(n, last, head, xs, raw)
  {
    hide SymsSafe, ValidSyms, ValidHead, RawSafe;
  }

  lemma SentMod(n: nat, k: nat, valid: nat)
    requires n == 8 * k + valid && valid < 8
    ensures n % 8 == valid
  {
  }

  lemma EndTrace(sent: Bits, last: bool, bits: Bits)
    requires |bits| % 8 == 0
    ensures PutBits(sent, After(|sent|, last, AtEnd, bits)) == BitTrace(sent, Written(bits))
  {
  }
}
