/**
  j_inflate on raw DEFLATE data: the resumable state machine that writes the instruction stream.

  Each Case method is one `case` of the mode switch.  All of them keep `Told`: what has been written so
  far, followed by what the abstract state still has to write, does not change.
 */
module Inflate {
  import opened Bits
  import opened Huffman
  import opened TableSpec
  import opened InfTrees
  import opened Format
  import opened FormatLemmas
  import opened FixedCode
  import opened LengthCodes
  import opened Instructions
  import opened DecoderSpec
  import opened BitWriting
  import opened BitReading
  import opened HeaderReading
  import opened InflateState
  import InfFast

  const HEADER_BUF: nat := 605

  class Inflater {
    const src: BitReader   // hold, bits, next_in
    const hdr: BitWriter   // header_buf, header_have, my_bi_buf, my_bi_valid
    const rd: HeaderReader // lens, header_flag and what TABLE, LENLENS and CODELENS keep
    const lenfix: seq<Entry>
    const distfix: seq<Entry>
    const lenfixBits: nat
    const distfixBits: nat
    var mode: Mode
    var last: bool
    var headerIndex: nat
    var treeType: nat
    var length: nat
    var offset: nat
    var extra: nat
    var lencode: seq<Entry>
    var lenbits: nat
    var distcode: seq<Entry>
    var distbits: nat
    var ins: seq<byte>     // ins_buffer; ins_buffer_have is its length
    var insIndex: nat
    var insType: nat
    var put: seq<byte>     // what this call has written; left is the space after it
    var left: nat
    ghost var st: State

    /** What never changes. */
    ghost predicate Built() {
      && hdr.buf.Length == HEADER_BUF && rd.lens.Length == 320 && rd.src == src && rd.hdr == hdr && rd.strict
      && TableOk(LenCodes, FixedLit(), lenfix, lenfixBits)
      && TableOk(DistCodes, FixedDist(), distfix, distfixBits)
    }

    ghost function Base(): (v: bool)
      reads `st, src`hold, src`bits, hdr
      ensures v ==> Built() && Sound(st) && hdr.InBuffer()
    {
      Built() && src.Valid() && hdr.Valid() && hdr.first == 0 && Sound(st)
    }

    /** The current tables decode these codes. */
    ghost predicate Tables(lc: Lens, dc: Lens)
      reads `lencode, `lenbits, `distcode, `distbits
    {
      TableOk(LenCodes, lc, lencode, lenbits) && TableOk(DistCodes, dc, distcode, distbits)
    }

    ghost predicate InCode(lc: Lens, bits: nat)
      reads src`hold, src`bits
    {
      bits == src.bits && (bits < 8 || Waiting(lc, src.hold, bits))
    }

    ghost predicate InStored()
      requires hdr.InBuffer()
      reads `st, rd`recording, `headerIndex, `treeType, `last, src`hold, src`bits, hdr, hdr.buf
    {
      && st == AtStored && rd.recording && headerIndex == 0 && treeType == 0
      && (src.bits < 8 || (src.bits % 8 == 0 && src.bits <= 24))
      && (hdr.Written() == TypeBits(last, 0) || hdr.Written() == ByteBits(Pack(TypeBits(last, 0))))
    }

    /** A dynamic header is being read. */
    ghost function InDynamic(): (v: bool)
      requires Built() && hdr.InBuffer()
      reads `st, `mode, `headerIndex, `treeType, `last, src`hold, src`bits, hdr, hdr.buf, rd, rd.lens
      ensures v ==> st.AtHeader?
    {
      && st == AtHeader(rd.Now()) && rd.Valid() && rd.recording && rd.base == TypeBits(last, 2) && headerIndex == 0
          && treeType == 2
      && match mode
         case TABLE => rd.phase.AtSizes?
         case LENLENS => rd.phase.AtLens?
         case _ => rd.phase.AtOps?
    }

    ghost predicate InHeader()
      requires hdr.InBuffer()
      reads `st, rd`recording, `headerIndex, `treeType, `length, `lencode, `lenbits, `distcode, `distbits, src`hold,
          src`bits, hdr, hdr.buf
    {
      && st.Sending? && src.bits < 8
      && (if rd.recording then headerIndex == 0 && st.bytes == Pack(hdr.Written()) + MARK
          && 8 * hdr.have + hdr.biValid <= 2286
          else headerIndex < hdr.have <= 288 && st.bytes == hdr.Queue()[headerIndex..])
      && (if treeType == 0 then st.tail == AtData(length) && src.bits == 0
          else st.tail.AtToks? && Tables(st.tail.lc, st.tail.dc))
    }

    ghost predicate InIns()
      reads `st, rd`recording, `ins, `insIndex, `insType, `lencode, `lenbits, `distcode, `distbits, src`hold, src`bits
    {
      && st.Sending? && src.bits < 8 && !rd.recording
      && insIndex < |ins| && st.bytes == ins[insIndex..]
      && (if insType == 2 then st.tail == AtBlock else st.tail.AtToks? && Tables(st.tail.lc, st.tail.dc))
    }

    ghost predicate InLen()
      reads `st, rd`recording, `lencode, `lenbits, `distcode, `distbits, src`hold, src`bits
    {
      !rd.recording && st.AtToks? && Tables(st.lc, st.dc) && InCode(st.lc, src.bits)
    }

    ghost predicate InLenExt()
      reads `st, rd`recording, `extra, `length, `lencode, `lenbits, `distcode, `distbits, src`hold, src`bits
    {
      !rd.recording && st.AtLenExt? && Tables(st.lc, st.dc) && src.bits < 8 && IsLenSym(st.s)
          && extra == LenExtra(st.s) && length == LBase(st.s - 257)
    }

    ghost predicate InDist()
      reads `st, rd`recording, `length, `lencode, `lenbits, `distcode, `distbits, src`hold, src`bits
    {
      !rd.recording && st.AtDist? && Tables(st.lc, st.dc) && InCode(st.dc, src.bits) && IsLenSym(st.s)
          && length == LBase(st.s - 257) + st.ext
    }

    ghost predicate InDistExt()
      reads `st, rd`recording, `extra, `length, `offset, `lencode, `lenbits, `distcode, `distbits, src`hold, src`bits
    {
      && !rd.recording && st.AtDistExt? && Tables(st.lc, st.dc) && (src.bits < 8 || src.bits < extra)
      && IsLenSym(st.s) && IsDistSym(st.d) && extra == DistExtra(st.d)
      && length == LBase(st.s - 257) + st.ext && offset == DBase(st.d)
    }

    /** What holds in each mode between steps. */
    ghost predicate InMode()
      requires Built() && hdr.InBuffer()
      reads `st, `mode, `last, `headerIndex, `treeType, `length, `offset, `extra
      reads `lencode, `lenbits, `distcode, `distbits, `ins, `insIndex, `insType, src`hold, src`bits, hdr, hdr.buf, rd,
          rd.lens
    {
      match mode
      case HEAD => st == AtBlock && src.bits < 8
      case TYPE => st == AtBlock && src.bits < 8
      case TYPEDO => st == AtBlock && src.bits < 8
      case STORED => InStored()
      case TABLE => InDynamic()
      case LENLENS => InDynamic()
      case CODELENS => InDynamic()
      case SEND_HEADER => InHeader()
      case COPY_ => st == AtData(length) && src.bits == 0 && !rd.recording
      case COPY => st == AtData(length) && src.bits == 0 && !rd.recording
      case LEN_ => st.AtToks? && Tables(st.lc, st.dc) && src.bits < 8 && !rd.recording
      case LEN => InLen()
      case LENEXT => InLenExt()
      case DIST => InDist()
      case DISTEXT => InDistExt()
      case MATCH => InIns()
      case LIT => InIns()
      case SENDINS => InIns()
      case SETENDOFBLOCK => st == Sending(MARK, AtBlock) && src.bits < 8 && !rd.recording
      case CHECK => st == AtEnd && src.bits == 0
      case LENGTH => st == AtEnd && src.bits == 0
      case DONE => st == AtEnd && src.bits == 0
      case BAD => st == Failed
    }

    ghost function Valid(): (v: bool)
      reads `st, `mode, `last, `headerIndex, `treeType, `length, `offset, `extra
      reads `lencode, `lenbits, `distcode, `distbits, `ins, `insIndex, `insType, src`hold, src`bits, hdr, hdr.buf, rd,
          rd.lens
      ensures v ==> Sound(st)
    {
      Base() && InMode()
    }

    /** The output of the whole run, given the input `more` that is still to come. */
    ghost predicate Told(whole: Trace, more: Bits)
      requires Sound(st)
      reads `put, `last, `st, src
    {
      whole == Put(put, After(last, st, src.Ahead() + more))
    }

    /** All input is used and the machine can do nothing without more. */
    ghost predicate Stuck()
      requires Sound(st)
      reads `last, `st, src
    {
      src.next == [] && After(last, st, src.Ahead()) == STARVED
    }

    /** j_inflateInit2_ for raw data; the fixed tables are built the way inflate_table builds them. */
    constructor ()
      ensures Valid() && mode == HEAD && !last && put == [] && st == AtBlock
      ensures src.next == [] && src.bits == 0
      ensures fresh(src) && fresh(hdr) && fresh(hdr.buf) && fresh(rd) && fresh(rd.lens)
    {
      hide Accepts, FixedLit, FixedDist, TableFor, Bounded, TableOk, TreeFor;
      FixedAccepted();
      var ret1, table1, root1, _ := InflateTable(LenCodes, FixedLit(), 288);
      var ret2, table2, root2, _ := InflateTable(DistCodes, FixedDist(), 32);
      TableMade(LenCodes, FixedLit(), table1, root1);
      TableMade(DistCodes, FixedDist(), table2, root2);
      var input := new BitReader();
      var header := new BitWriter(HEADER_BUF);
      src, hdr := input, header;
      rd := new HeaderReader(input, header, true);
      lenfix, distfix, lenfixBits, distfixBits := table1, table2, root1, root2;
      mode, last, headerIndex, treeType := HEAD, false, 0, 0;
      length, offset, extra := 0, 0, 0;
      lencode, lenbits, distcode, distbits := [], 0, [], 0;
      ins, insIndex, insType := [], 0, 0;
      put, left := [], 0;
      st := AtBlock;
    }

    /** The three bits at the start of a block. */
    method ReadType() returns (ok: bool, t: nat)
      requires src.Valid() && hdr.Valid() && hdr.first == 0 && hdr.buf.Length >= 1 && src.bits < 8
      requires rd.src == src && rd.hdr == hdr && rd.recording && hdr.Written() == []
      modifies this`last, src, hdr`have, hdr`biBuf, hdr`biValid, hdr.buf
      ensures src.Valid() && hdr.Valid() && src.bits < 8
      ensures !ok ==> src.next == [] && src.Ahead() == old(src.Ahead()) && |src.Ahead()| < 3 && last == old(last)
      ensures ok ==> |old(src.Ahead())| >= 3 && last == old(src.Ahead())[0] && t == Val(old(src.Ahead())[1..3]) && t < 4
      ensures ok ==> src.Ahead() == old(src.Ahead())[3..] && hdr.Written() == TypeBits(last, t)
    {
      hide *;
      ghost var start := src.Ahead();
      ok := src.Need(3);
      if !ok {
        return false, 0;
      }
      TypeRead(start);
      src.Peeked(1);
      last := src.Peek(1) == 1;
      rd.DropBits(1);
      src.Peeked(2);
      t := src.Peek(2);
      rd.DropBits(2);
    }

    /** The switch on the block type. */
    method SetType(t: nat)
      requires Built() && src.Valid() && hdr.Valid() && hdr.first == 0 && src.bits < 8
      requires rd.recording && headerIndex == 0 && t < 4 && hdr.Written() == TypeBits(last, t)
      modifies this`treeType, this`mode, this`st, this`lencode, this`lenbits, this`distcode, this`distbits, rd`base,
          rd`phase
      ensures Valid() && mode != TYPE && mode != TYPEDO && (t == 2 ==> rd.phase == AtSizes && rd.Now().phase == AtSizes)
      ensures st == if t == 0 then AtStored
                    else if t == 1 then Sending(HeadIns(TypeBits(last, 1)), AtToks(FixedLit(), FixedDist()))
                    else if t == 2 then AtHeader(rd.Now())
                    else Failed
    {
      hide *;
      if t == 0 {
        treeType, mode, st := 0, STORED, AtStored;
        CloseStored();
      } else if t == 1 {
        lencode, lenbits, distcode, distbits := lenfix, lenfixBits, distfix, distfixBits;
        treeType, mode, st := 1, SEND_HEADER, Sending(HeadIns(TypeBits(last, 1)), AtToks(FixedLit(), FixedDist()));
        CloseFixed();
      } else if t == 2 {
        treeType, mode := 2, TABLE;
        rd.base, rd.phase := TypeBits(last, 2), AtSizes;
        NewHeader();
        st := AtHeader(rd.Now());
        CloseDynamic(AtSizes);
      } else {
        mode, st := BAD, Failed;
        CloseBad();
      }
    }

    /** After the last block. */
    method EndBlocks(ghost whole: Trace, ghost more: Bits) returns (stop: bool)
      requires Built() && src.Valid() && hdr.Valid() && hdr.first == 0
      requires last && st == AtBlock && src.bits < 8 && Told(whole, more) && |more| % 8 == 0
      modifies this`mode, this`st, src`hold, src`bits
      ensures Valid() && Told(whole, more) && !stop && mode == CHECK
      ensures |src.Ahead()| <= old(|src.Ahead()|)
    {
      hide *;
      Tell(whole, more);
      StepEnd(src.Ahead(), more);
      src.Align();
      mode, st := CHECK, AtEnd;
      CloseEnd();
      Retell(whole, more);
      return false;
    }

    /** TYPE and TYPEDO */
    method CaseBlock(ghost whole: Trace, ghost more: Bits) returns (stop: bool)
      requires Valid() && (mode == TYPE || mode == TYPEDO) && Told(whole, more) && |more| % 8 == 0
      modifies rd`recording, rd`base, rd`phase, this`headerIndex, this`treeType, this`mode, this`last, this`st
      modifies this`lencode, this`lenbits, this`distcode, this`distbits, src, hdr, hdr.buf
      ensures Valid() && Told(whole, more)
      ensures stop ==> Stuck()
      ensures !stop ==> |src.Ahead()| < old(|src.Ahead()|) || (|src.Ahead()| <= old(|src.Ahead()|) && mode == CHECK)
    {
      hide *;
      OpenBlock();
      Tell(whole, more);
      rd.recording, headerIndex := true, 0;
      hdr.Reset();
      if last {
        stop := EndBlocks(whole, more);
        return;
      }
      ghost var start := src.Ahead();
      BuiltRd();
      var ok, t := ReadType();
      if !ok {
        StallType(start);
        CloseBlock();
        Retell(whole, more);
        ShowStuck();
        return true;
      }
      SetType(t);
      StepType(start, more, if t == 2 then rd.Now() else Progress(AtSizes, 0, 0, 0, 0));
      AfterFailed(last, src.Ahead() + more);
      Retell(whole, more);
      return false;
    }

    // ----- stored blocks -----

    lemma OpenStored()
      requires Valid() && mode == STORED
      ensures Built() && src.Valid() && hdr.Valid() && hdr.first == 0 && hdr.buf.Length == 605
      ensures st == AtStored && rd.recording && headerIndex == 0 && treeType == 0
      ensures src.bits < 8 || (src.bits % 8 == 0 && src.bits <= 24)
      ensures hdr.Written() == TypeBits(last, 0) || hdr.Written() == ByteBits(Pack(TypeBits(last, 0)))
    {
      hide TableOk, FixedLit, FixedDist, BitWriter.Written, ByteBits, Pack, TypeBits;
    }

    /** The start of the STORED case, which may run more than once. */
    method NeedStoredLens() returns (ok: bool)
      requires src.Valid() && hdr.Valid() && hdr.first == 0 && hdr.buf.Length == 605
      requires src.bits < 8 || (src.bits % 8 == 0 && src.bits <= 24)
      requires hdr.Written() == TypeBits(last, 0) || hdr.Written() == ByteBits(Pack(TypeBits(last, 0)))
      modifies src, hdr`have, hdr`biBuf, hdr`biValid, hdr.buf
      ensures src.Valid() && src.Ahead() == Aligned(old(src.Ahead()))
      ensures hdr.Valid() && hdr.Written() == ByteBits(Pack(TypeBits(last, 0))) && 8 * hdr.have + hdr.biValid <= 8
      ensures ok ==> src.bits == 32
      ensures !ok ==> src.next == [] && src.bits <= 24 && src.bits % 8 == 0
    {
      hide *;
      src.Align();
      WoundType(hdr.Written(), last, hdr.have, hdr.biValid);
      hdr.Windup();
      assert |hdr.Written()| == 8;
      ok := src.Need(32);
    }

    /** STORED */
    method CaseStored(ghost whole: Trace, ghost more: Bits) returns (stop: bool)
      requires Valid() && mode == STORED && Told(whole, more) && |more| % 8 == 0
      modifies this`mode, this`st, this`length, src, hdr`have, hdr`biBuf, hdr`biValid, hdr.buf
      ensures Valid() && Told(whole, more)
      ensures stop ==> Stuck()
      ensures !stop ==> |src.Ahead()| <= old(|src.Ahead()|) && (mode == SEND_HEADER || mode == BAD)
    {
      hide *;
      OpenStored();
      Tell(whole, more);
      AlignStored(last, src.Ahead(), more);
      var ok := NeedStoredLens();
      ghost var start := src.Ahead();
      if !ok {
        StallStored(last, start);
        CloseStored();
        Retell(whole, more);
        ShowStuck();
        return true;
      }
      Retell(whole, more);
      stop := TakeStoredLens(whole, more);
    }

    /** The stored block's lengths are in the register. */
    method TakeStoredLens(ghost whole: Trace, ghost more: Bits) returns (stop: bool)
      requires Built() && src.Valid() && hdr.Valid() && hdr.first == 0 && hdr.buf.Length == 605
      requires mode == STORED && st == AtStored && rd.recording && headerIndex == 0 && treeType == 0
      requires hdr.Written() == ByteBits(Pack(TypeBits(last, 0))) && 8 * hdr.have + hdr.biValid <= 8
      requires src.bits == 32 && Told(whole, more) && |more| % 8 == 0
      modifies this`mode, this`st, this`length, src, hdr`have, hdr`biBuf, hdr`biValid, hdr.buf
      ensures Valid() && Told(whole, more) && !stop
      ensures |src.Ahead()| <= old(|src.Ahead()|) && (mode == SEND_HEADER || mode == BAD)
    {
      hide *;
      Tell(whole, more);
      ghost var start := src.Ahead();
      StepStored(last, start, more);
      src.Peeked(16);
      src.PeekedRest(16);
      stop := false;
      if src.Peek(16) != 65535 - Shr(src.hold, 16) {
        Fail(whole, more);
        return;
      }
      length := src.Peek(16);
      LensMade(start, length);
      AfterLensIs(last, length, start[32..] + more);
      KeepStoredLens(whole, more);
    }

    /** The lengths fit: they go into the recorded header. */
    method KeepStoredLens(ghost whole: Trace, ghost more: Bits)
      requires Built() && src.Valid() && hdr.Valid() && hdr.first == 0 && hdr.buf.Length == 605
      requires rd.recording && headerIndex == 0 && treeType == 0
      requires hdr.Written() == ByteBits(Pack(TypeBits(last, 0))) && 8 * hdr.have + hdr.biValid <= 8 && src.bits == 32
      requires length < 65536 && LensGood(src.Ahead(), length)
      requires whole == Put(put, AfterLens(last, length, src.Ahead()[32..] + more))
      modifies this`mode, this`st, src, hdr`have, hdr`biBuf, hdr`biValid, hdr.buf
      ensures Valid() && Told(whole, more) && mode == SEND_HEADER && |src.Ahead()| <= old(|src.Ahead()|)
    {
      hide *;
      LensAre(src.Ahead(), length);
      AfterLensIs(last, length, src.Ahead()[32..] + more);
      StoredCaptured(last, src.Ahead());
      BuiltRd();
      rd.DropBits(16);
      rd.DropBits(16);
      mode, st := SEND_HEADER, Sending(StoredHead(last, length), AtData(length));
      StoredSound();
      CloseStoredHead();
      Retell(whole, more);
    }

    lemma StoredSound()
      requires st.Sending? && st.tail.AtData?
      ensures Sound(st)
    {
    }

    lemma CloseStoredHead()
      requires Built() && src.Valid() && hdr.Valid() && hdr.first == 0
      requires mode == SEND_HEADER && rd.recording && headerIndex == 0 && treeType == 0 && src.bits == 0
      requires length < 65536
      requires st == Sending(StoredHead(last, length), AtData(length))
      requires st.bytes == Pack(hdr.Written()) + MARK && |hdr.Written()| == 40
      ensures Valid()
    {
      hide TableOk, FixedLit, FixedDist, BitWriter.Written, StoredHead, Pack;
      assert Sound(st.tail);
    }

    // ----- sending a header -----

    lemma OpenHeader()
      requires Valid() && mode == SEND_HEADER
      ensures Built() && src.Valid() && hdr.Valid() && hdr.first == 0 && hdr.buf.Length == 605
      ensures st.Sending? && Sound(st.tail) && src.bits < 8
      ensures rd.recording ==>
                  headerIndex == 0 && st.bytes == Pack(hdr.Written()) + MARK && 8 * hdr.have + hdr.biValid <= 2286
      ensures !rd.recording ==> headerIndex < hdr.have <= 288 && st.bytes == hdr.Queue()[headerIndex..]
      ensures HeaderTail(st.tail)
    {
      hide TableOk, FixedLit, FixedDist, BitWriter.Written, Pack, BitWriter.Queue;
    }

    /** Where the machine goes after the header. */
    ghost predicate HeaderTail(tail: State)
      reads `treeType, `length, `lencode, `lenbits, `distcode, `distbits, src`bits
    {
      if treeType == 0 then tail == AtData(length) && src.bits == 0
      else tail.AtToks? && Tables(tail.lc, tail.dc)
    }

    lemma CloseHeader(tail: State)
      requires Built() && src.Valid() && hdr.Valid() && hdr.first == 0
      requires mode == SEND_HEADER && !rd.recording && headerIndex < hdr.have <= 288 && src.bits < 8
      requires Sound(tail) && st == Sending(hdr.Queue()[headerIndex..], tail) && HeaderTail(tail)
      ensures Valid()
    {
      hide TableOk, FixedLit, FixedDist, BitWriter.Written, BitWriter.Queue;
    }

    lemma CloseHeaderSent(tail: State)
      requires Built() && src.Valid() && hdr.Valid() && hdr.first == 0
      requires mode == (if treeType == 0 then COPY_ else LEN_) && src.bits < 8 && !rd.recording
      requires Sound(tail) && st == tail && HeaderTail(tail)
      ensures Valid()
    {
      hide TableOk, FixedLit, FixedDist;
    }

    /** Ends the recorded header with padding and the mark. */
    method FinishHeader()
      requires hdr.Valid() && hdr.first == 0 && hdr.buf.Length == 605 && 8 * hdr.have + hdr.biValid <= 2286
      modifies hdr`have, hdr`biBuf, hdr`biValid, hdr.buf
      ensures hdr.Valid() && hdr.Queue() == Pack(old(hdr.Written())) + MARK && hdr.have == |hdr.Queue()| <= 288
    {
      hide *;
      hdr.Windup();
      assert |hdr.Written()| == 8 * hdr.have;
      PackSize(old(hdr.Written()), old(hdr.have), old(hdr.biValid));
      hdr.PutByte(0xaa);
      hdr.PutByte(0xff);
      IsMark();
    }

    /** SEND_HEADER */
    method CaseHeader(ghost whole: Trace, ghost more: Bits) returns (stop: bool)
      requires Valid() && mode == SEND_HEADER && Told(whole, more)
      modifies this`mode, this`st, rd`recording, this`headerIndex, this`put, this`left
      modifies hdr`have, hdr`biBuf, hdr`biValid, hdr.buf
      ensures Valid() && Told(whole, more)
      ensures stop ==> left == 0
      ensures !stop ==> mode == COPY_ || mode == LEN_ || (mode == old(mode) && left < old(left))
      ensures |put| + left == old(|put| + left)
    {
      hide *;
      OpenHeader();
      Tell(whole, more);
      if rd.recording {
        FinishHeader();
        IsMark();
        rd.recording := false;
        FromStart(st.bytes);
        NameSending(st);
        CloseHeader(st.tail);
      }
      Retell(whole, more);
      stop := SendHeader(whole, more);
    }

    method SendHeader(ghost whole: Trace, ghost more: Bits) returns (stop: bool)
      requires Valid() && mode == SEND_HEADER && !rd.recording && Told(whole, more)
      modifies this`mode, this`st, this`headerIndex, this`put, this`left
      ensures Valid() && Told(whole, more)
      ensures stop ==> left == 0
      ensures !stop ==> mode == COPY_ || mode == LEN_ || (mode == old(mode) && left < old(left))
      ensures |put| + left == old(|put| + left)
    {
      hide *;
      OpenHeader();
      Tell(whole, more);
      ghost var tail, due := st.tail, st.bytes;
      NameSending(st);
      if left == 0 {
        return true;
      }
      var copy := if hdr.have - headerIndex > left then left else hdr.have - headerIndex;
      QueueSlices(hdr.Queue(), due, headerIndex, copy);
      var sent := hdr.Part(headerIndex, headerIndex + copy);
      Output(sent, whole, more, due, tail);
      headerIndex := headerIndex + copy;
      HeaderSent(whole, more, due[copy..], tail);
      return false;
    }

    method HeaderSent(ghost whole: Trace, ghost more: Bits, ghost due: seq<byte>, ghost tail: State)
      requires Built() && src.Valid() && hdr.Valid() && hdr.first == 0
      requires mode == SEND_HEADER && !rd.recording && headerIndex <= hdr.have <= 288 && src.bits < 8
      requires Sound(tail) && Sound(Sending(due, tail)) && HeaderTail(tail) && due == hdr.Queue()[headerIndex..]
      requires whole == Put(put, After(last, Sending(due, tail), src.Ahead() + more))
      requires due == [] ==> whole == Put(put, After(last, tail, src.Ahead() + more))
      modifies this`mode, this`st
      ensures Valid() && Told(whole, more) && (mode == COPY_ || mode == LEN_ || mode == SEND_HEADER)
    {
      hide *;
      if hdr.have == headerIndex {
        mode := if treeType == 0 then COPY_ else LEN_;
        st := tail;
        CloseHeaderSent(tail);
      } else {
        st := Sending(due, tail);
        CloseHeader(tail);
      }
      Retell(whole, more);
    }

    /** Writes some of the bytes that are due. */
    method Output(sent: seq<byte>, ghost whole: Trace, ghost more: Bits, ghost due: seq<byte>, ghost tail: State)
      requires Sound(tail) && Sound(Sending(due, tail)) && sent <= due && |sent| <= left
      requires whole == Put(put, After(last, Sending(due, tail), src.Ahead() + more))
      modifies `put, `left
      ensures put == old(put) + sent && left == old(left) - |sent|
      ensures Sound(Sending(due[|sent|..], tail))
      ensures whole == Put(put, After(last, Sending(due[|sent|..], tail), src.Ahead() + more))
      ensures sent == due ==> whole == Put(put, After(last, tail, src.Ahead() + more))
    {
      hide *;
      SendPart(last, put, due, |sent|, tail, src.Ahead() + more);
      assert due[..|sent|] == sent;
      put := put + sent;
      left := left - |sent|;
    }

    // ----- sending an instruction -----

    ghost predicate InsTail(tail: State)
      reads `insType, `lencode, `lenbits, `distcode, `distbits
    {
      if insType == 2 then tail == AtBlock else tail.AtToks? && Tables(tail.lc, tail.dc)
    }

    lemma OpenIns()
      requires Valid() && (mode == MATCH || mode == LIT || mode == SENDINS)
      ensures Built() && src.Valid() && hdr.Valid() && hdr.first == 0
      ensures st.Sending? && Sound(st.tail) && src.bits < 8 && InsTail(st.tail) && !rd.recording
      ensures insIndex < |ins| && st.bytes == ins[insIndex..]
    {
      hide TableOk, FixedLit, FixedDist;
    }

    lemma CloseIns(tail: State)
      requires Built() && src.Valid() && hdr.Valid() && hdr.first == 0
      requires (mode == MATCH || mode == LIT || mode == SENDINS) && src.bits < 8 && insIndex < |ins| && !rd.recording
      requires Sound(tail) && st == Sending(ins[insIndex..], tail) && InsTail(tail)
      ensures Valid()
    {
      hide TableOk, FixedLit, FixedDist;
    }

    lemma CloseInsSent(tail: State)
      requires Built() && src.Valid() && hdr.Valid() && hdr.first == 0
      requires mode == (if insType == 2 then TYPE else LEN) && src.bits < 8 && !rd.recording
      requires Sound(tail) && st == tail && InsTail(tail)
      ensures Valid()
    {
      hide TableOk, FixedLit, FixedDist;
    }

    /** SENDINS */
    method CaseIns(ghost whole: Trace, ghost more: Bits) returns (stop: bool)
      requires Valid() && mode == SENDINS && Told(whole, more)
      modifies this`mode, this`st, this`insIndex, this`put, this`left
      ensures Valid() && Told(whole, more)
      ensures stop ==> left == 0
      ensures !stop ==> mode == TYPE || mode == LEN || (mode == old(mode) && left < old(left))
      ensures |put| + left == old(|put| + left)
    {
      hide *;
      OpenIns();
      Tell(whole, more);
      ghost var tail, due := st.tail, st.bytes;
      NameSending(st);
      if left == 0 {
        return true;
      }
      var copy := if |ins| - insIndex > left then left else |ins| - insIndex;
      QueueSlices(ins, due, insIndex, copy);
      Output(ins[insIndex..insIndex + copy], whole, more, due, tail);
      insIndex := insIndex + copy;
      InsSent(whole, more, due[copy..], tail);
      return false;
    }

    method InsSent(ghost whole: Trace, ghost more: Bits, ghost due: seq<byte>, ghost tail: State)
      requires Built() && src.Valid() && hdr.Valid() && hdr.first == 0
      requires mode == SENDINS && !rd.recording && insIndex <= |ins| && src.bits < 8
      requires Sound(tail) && Sound(Sending(due, tail)) && InsTail(tail) && due == ins[insIndex..]
      requires whole == Put(put, After(last, Sending(due, tail), src.Ahead() + more))
      requires due == [] ==> whole == Put(put, After(last, tail, src.Ahead() + more))
      modifies this`mode, this`st
      ensures Valid() && Told(whole, more) && (mode == TYPE || mode == LEN || mode == SENDINS)
      ensures mode == SENDINS ==> insIndex < |ins|
    {
      hide *;
      if insIndex == |ins| {
        mode := if insType == 2 then TYPE else LEN;
        st := tail;
        CloseInsSent(tail);
      } else {
        st := Sending(due, tail);
        CloseIns(tail);
      }
      Retell(whole, more);
    }

    /** The modes that only lead to the next: HEAD, COPY_, LEN_, MATCH, LIT, CHECK, LENGTH. */
    method CasePass()
      requires Valid() && (mode == HEAD || mode == COPY_ || mode == LEN_ || mode == MATCH || mode == LIT || mode ==
               CHECK || mode == LENGTH)
      modifies this`mode
      ensures Valid()
      ensures mode == match old(mode)
        case HEAD => TYPEDO
        case COPY_ => COPY
        case LEN_ => LEN
        case CHECK => LENGTH
        case LENGTH => DONE
        case _ => SENDINS
    {
      hide TableOk, FixedLit, FixedDist, InStored, InDynamic, InHeader, InLenExt, InDist, InDistExt, Waiting, Sound;
      mode := match mode
        case HEAD => TYPEDO
        case COPY_ => COPY
        case LEN_ => LEN
        case CHECK => LENGTH
        case LENGTH => DONE
        case _ => SENDINS;
    }

    /** SETENDOFBLOCK */
    method CaseEndOfBlock(ghost whole: Trace, ghost more: Bits)
      requires Valid() && mode == SETENDOFBLOCK && Told(whole, more)
      modifies this`mode, this`ins, this`insIndex, this`insType
      ensures Valid() && Told(whole, more) && mode == SENDINS
    {
      hide *;
      OpenMark();
      ins, insIndex, insType := [0xaa, 0xff], 0, 2;
      mode := SENDINS;
      IsMark();
      assert ins == MARK;
      FromStart(ins);
      MarkTail();
      CloseIns(AtBlock);
    }

    lemma MarkTail()
      requires insType == 2
      ensures InsTail(AtBlock)
    {
    }

    lemma OpenMark()
      requires Valid() && mode == SETENDOFBLOCK
      ensures Built() && src.Valid() && hdr.Valid() && hdr.first == 0
      ensures st == Sending(MARK, AtBlock) && src.bits < 8 && Sound(AtBlock) && !rd.recording
      ensures MARK == [0xaa, 0xff]
    {
      hide TableOk, FixedLit, FixedDist;
    }

    // ----- copying a stored block -----

    lemma OpenCopy()
      requires Valid() && mode == COPY
      ensures Built() && src.Valid() && hdr.Valid() && hdr.first == 0
      ensures st == AtData(length) && src.bits == 0 && Sound(st) && !rd.recording
    {
      hide TableOk, FixedLit, FixedDist;
    }

    lemma CloseCopy()
      requires Built() && src.Valid() && hdr.Valid() && hdr.first == 0
      requires mode == COPY && st == AtData(length) && src.bits == 0 && !rd.recording
      ensures Valid()
    {
      hide TableOk, FixedLit, FixedDist;
    }

    lemma CloseMark()
      requires Built() && src.Valid() && hdr.Valid() && hdr.first == 0
      requires mode == SETENDOFBLOCK && st == Sending(MARK, AtBlock) && src.bits < 8 && !rd.recording
      ensures Valid()
    {
      hide TableOk, FixedLit, FixedDist;
      assert Sound(AtBlock);
    }

    /** COPY */
    method CaseCopy(ghost whole: Trace, ghost more: Bits) returns (stop: bool)
      requires Valid() && mode == COPY && Told(whole, more)
      modifies this`mode, this`st, this`length, this`put, this`left, src`next
      ensures Valid() && Told(whole, more)
      ensures stop ==> left == 0 || Stuck()
      ensures !stop ==>
                  |src.Ahead()| < old(|src.Ahead()|) || (|src.Ahead()| == old(|src.Ahead()|) && mode == SETENDOFBLOCK)
      ensures |put| + left == old(|put| + left)
    {
      hide *;
      OpenCopy();
      Tell(whole, more);
      if length == 0 {
        DataDone(last, src.Ahead() + more);
        mode, st := SETENDOFBLOCK, Sending(MARK, AtBlock);
        CloseMark();
        Retell(whole, more);
        return false;
      }
      var copy := length;
      copy := if copy > |src.next| then |src.next| else copy;
      copy := if copy > left then left else copy;
      if copy == 0 {
        if left != 0 {
          StallData(last, length, src.Ahead());
          ShowStuck();
        }
        return true;
      }
      StepData(last, length, copy, src.Ahead(), more);
      ghost var start := src.Ahead();
      var bytes := src.TakeBytes(copy);
      SoundData(length - copy);
      PutPut(put, bytes, After(last, AtData(length - copy), start[8 * copy..] + more));
      put, left := put + bytes, left - copy;
      length := length - copy;
      st := AtData(length);
      CloseCopy();
      Retell(whole, more);
      return false;
    }

    // ----- dynamic headers -----

    lemma NewHeader()
      requires Built() && src.Valid() && hdr.Valid() && hdr.first == 0 && src.bits < 8
      requires rd.recording && rd.phase == AtSizes && rd.base == TypeBits(last, 2) && hdr.Written() == TypeBits(last, 2)
      ensures rd.Valid() && rd.Now().phase == AtSizes
    {
      hide TableOk, FixedLit, FixedDist, BitWriter.Written, TypeBits;
      assert |hdr.Written()| == 3;
    }

    lemma OpenDynamic()
      requires Valid() && (mode == TABLE || mode == LENLENS || mode == CODELENS)
      ensures Built() && src.Valid() && hdr.Valid() && hdr.first == 0 && rd.src == src && rd.hdr == hdr && rd.strict
      ensures st == AtHeader(rd.Now()) && rd.Valid() && rd.recording && rd.base == TypeBits(last, 2)
      ensures headerIndex == 0 && treeType == 2
      ensures mode == (if rd.phase.AtSizes? then TABLE else if rd.phase.AtLens? then LENLENS else CODELENS)
    {
      hide TableOk, FixedLit, FixedDist, HeaderReader.Valid, TypeBits;
    }

    lemma CloseDynamic(phase: Phase)
      requires Built() && src.Valid() && hdr.Valid() && hdr.first == 0
      requires st == AtHeader(rd.Now()) && rd.Valid() && rd.recording && rd.base == TypeBits(last, 2)
      requires headerIndex == 0 && treeType == 2
      requires rd.phase == phase && mode == (if phase.AtSizes? then TABLE else if phase.AtLens? then LENLENS
               else CODELENS)
      ensures Valid()
    {
      hide TableOk, FixedLit, FixedDist, HeaderReader.Valid, TypeBits;
    }

    /** What the header will be read as decides what is still to be written. */
    lemma HeaderTold(whole: Trace, more: Bits) returns (p: Parsed<Header>)
      requires Built() && st == AtHeader(rd.Now()) && Told(whole, more)
      ensures rd.Told(p, more) && (p.Ok? ==> AcceptsHeader(p.v)) && whole == Put(put, EmitHeader(last, p))
    {
      hide EmitHeader, Rest;
      p := Rest(true, rd.Now(), src.Ahead() + more);
      HeaderAfter(last, rd.Now(), src.Ahead() + more);
    }

    lemma HeaderRetold(whole: Trace, more: Bits, p: Parsed<Header>)
      requires Built() && st == AtHeader(rd.Now()) && rd.Told(p, more)
      requires (p.Ok? ==> AcceptsHeader(p.v)) && whole == Put(put, EmitHeader(last, p))
      ensures Told(whole, more)
    {
      hide EmitHeader, Rest;
      HeaderAfter(last, rd.Now(), src.Ahead() + more);
    }

    lemma HeaderStuck()
      requires Built() && st == AtHeader(rd.Now()) && rd.Stuck()
      ensures Stuck()
    {
      hide EmitHeader, Rest;
      HeaderAfter(last, rd.Now(), src.Ahead());
    }

    lemma BuiltRd()
      requires Built()
      ensures rd.src == src && rd.hdr == hdr && rd.strict && rd.lens.Length == 320
    {
    }

    /** A phase of the header ends. */
    method EndPart(o: Reply, next: Mode, ghost p: Parsed<Header>, ghost whole: Trace, ghost more: Bits)
        returns (stop: bool)
      requires Built() && src.Valid() && hdr.Valid() && hdr.first == 0
      requires rd.recording && rd.base == TypeBits(last, 2) && headerIndex == 0 && treeType == 2
      requires p.Ok? ==> AcceptsHeader(p.v)
      requires whole == Put(put, EmitHeader(last, p))
      requires if o == Fault then p == Bad else rd.Valid() && rd.Told(p, more)
      requires o == NeedsInput ==> rd.Stuck()
      requires o == NeedsInput ==>
                 mode == (if rd.phase.AtSizes? then TABLE else if rd.phase.AtLens? then LENLENS else CODELENS)
      requires o == Ready ==> next == (if rd.phase.AtSizes? then TABLE else if rd.phase.AtLens? then LENLENS
               else CODELENS)
      modifies `mode, `st
      ensures Valid() && Told(whole, more) && (stop ==> Stuck())
      ensures stop <==> o == NeedsInput
      ensures !stop ==> mode == BAD || (o == Ready && mode == next)
    {
      hide *;
      if o == Fault {
        HeaderFails(last);
        Fail(whole, more);
        return false;
      }
      stop := o == NeedsInput;
      if !stop {
        mode := next;
      }
      st := AtHeader(rd.Now());
      CloseDynamic(rd.phase);
      HeaderRetold(whole, more, p);
      if stop {
        HeaderStuck();
      }
    }

    /** TABLE */
    method CaseTable(ghost whole: Trace, ghost more: Bits) returns (stop: bool)
      requires Valid() && mode == TABLE && Told(whole, more)
      modifies `mode, `st, rd`phase, rd`nlen, rd`ndist, rd`ncode, rd`have, src, hdr`have, hdr`biBuf, hdr`biValid,
          hdr.buf
      ensures Valid() && Told(whole, more)
      ensures stop ==> Stuck()
      ensures !stop ==> |src.Ahead()| <= old(|src.Ahead()|) && (mode == LENLENS || mode == BAD)
    {
      hide *;
      OpenDynamic();
      ghost var p := HeaderTold(whole, more);
      var o := rd.Table(p, more);
      stop := EndPart(o, LENLENS, p, whole, more);
    }

    /** LENLENS */
    method CaseLenLens(ghost whole: Trace, ghost more: Bits) returns (stop: bool)
      requires Valid() && mode == LENLENS && Told(whole, more)
      modifies `mode, `st, rd`phase, rd`have, rd`lencode, rd`lenbits, rd`clTree, src, hdr`have, hdr`biBuf, hdr`biValid,
          hdr.buf, rd.lens
      ensures Valid() && Told(whole, more)
      ensures stop ==> Stuck()
      ensures !stop ==> |src.Ahead()| <= old(|src.Ahead()|) && (mode == CODELENS || mode == BAD)
    {
      hide *;
      OpenDynamic();
      ghost var p := HeaderTold(whole, more);
      var o := rd.LenLens(p, more);
      stop := EndPart(o, CODELENS, p, whole, more);
    }

    /** CODELENS */
    method CaseCodeLens(ghost whole: Trace, ghost more: Bits) returns (stop: bool)
      requires Valid() && mode == CODELENS && Told(whole, more)
      modifies `mode, `st, `lencode, `lenbits, `distcode, `distbits
      modifies rd`phase, rd`have, src, hdr`have, hdr`biBuf, hdr`biValid, hdr.buf, rd.lens
      ensures Valid() && Told(whole, more)
      ensures stop ==> Stuck()
      ensures !stop ==> |src.Ahead()| <= old(|src.Ahead()|) && (mode == SEND_HEADER || mode == BAD)
    {
      hide *;
      OpenDynamic();
      ghost var p := HeaderTold(whole, more);
      var o;
      ghost var h;
      o, h := rd.CodeLengths(p, more);
      if o == Ready {
        BuildTables(whole, more, p, h);
        return false;
      }
      stop := EndPart(o, CODELENS, p, whole, more);
    }

    /** All code lengths have been read. */
    method BuildTables(ghost whole: Trace, ghost more: Bits, ghost p: Parsed<Header>, ghost h: Header)
      requires Built() && src.Valid() && hdr.Valid() && hdr.first == 0 && src.bits < 8
      requires rd.recording && rd.base == TypeBits(last, 2) && headerIndex == 0 && treeType == 2
      requires p.Ok? ==> AcceptsHeader(p.v)
      requires whole == Put(put, EmitHeader(last, p))
      requires h.nlen == rd.nlen && h.ndist == rd.ndist && ValidHeader(h) && rd.SizesOk()
      requires rd.nlen + rd.ndist <= rd.lens.Length
      requires Declared(h, rd.lens[..rd.nlen], rd.lens[rd.nlen..rd.nlen + rd.ndist])
      requires p == (if !Dead(h.cl) && AcceptsHeader(h) then Ok(h, src.Ahead() + more) else Bad)
      requires 8 * hdr.have + hdr.biValid <= 74 + 7 * (rd.nlen + rd.ndist)
      requires !Dead(h.cl) ==> hdr.Written() == TypeBits(last, 2) + HeaderBits(h)
      modifies `mode, `st, `lencode, `lenbits, `distcode, `distbits
      ensures Valid() && Told(whole, more) && (mode == SEND_HEADER || mode == BAD)
    {
      hide *;
      BuiltRd();
      var lc, dc := rd.lens[..rd.nlen], rd.lens[rd.nlen..rd.nlen + rd.ndist];
      DeclaredSizes(h, lc, dc);
      DeclaredAccepts(h, lc, dc);
      SmallSizes();
      var ok := MakeTables(lc, dc);
      if !ok {
        HeaderFails(last);
        Fail(whole, more);
        return;
      }
      HeaderGood(last, h, lc, dc, src.Ahead() + more);
      mode, st := SEND_HEADER, Sending(HeadIns(TypeBits(last, 2) + HeaderBits(h)), AtToks(lc, dc));
      CloseDynamicHead(lc, dc, h);
      Retell(whole, more);
    }

    lemma SmallSizes()
      requires Built() && rd.SizesOk()
      ensures 257 <= rd.nlen <= 286 && 1 <= rd.ndist <= 30
    {
    }

    /** An error was found. */
    method Fail(ghost whole: Trace, ghost more: Bits)
      requires Built() && src.Valid() && hdr.Valid() && hdr.first == 0
      requires whole == Put(put, INVALID_DATA)
      modifies `mode, `st
      ensures Valid() && Told(whole, more) && mode == BAD
    {
      hide *;
      mode, st := BAD, Failed;
      AfterFailed(last, src.Ahead() + more);
      CloseBad();
      Retell(whole, more);
    }

    /** The end-of-block check and both calls of the table builder. */
    method MakeTables(lc: Lens, dc: Lens) returns (ok: bool)
      requires Bounded(lc) && Bounded(dc) && 257 <= |lc| <= 286 && |dc| <= 30
      modifies `lencode, `lenbits, `distcode, `distbits
      ensures ok <==> lc[256] != 0 && Accepts(LenCodes, lc) && Accepts(DistCodes, dc)
      ensures ok ==> Tables(lc, dc)
    {
      hide Accepts, TableFor, TreeFor, Bounded, TableOk;
      if lc[256] == 0 {
        return false;
      }
      var ret, table, root, tree := InflateTable(LenCodes, lc, 288);
      if ret != 0 {
        return false;
      }
      lencode, lenbits := table, root;
      ret, table, root, tree := InflateTable(DistCodes, dc, 32);
      if ret != 0 {
        return false;
      }
      distcode, distbits := table, root;
      TableMade(LenCodes, lc, lencode, lenbits);
      TableMade(DistCodes, dc, distcode, distbits);
      return true;
    }

    lemma CloseDynamicHead(lc: Lens, dc: Lens, h: Header)
      requires Built() && src.Valid() && hdr.Valid() && hdr.first == 0
      requires mode == SEND_HEADER && rd.recording && headerIndex == 0 && treeType == 2 && src.bits < 8
      requires 8 * hdr.have + hdr.biValid <= 74 + 7 * (rd.nlen + rd.ndist) && rd.nlen <= 286 && rd.ndist <= 30
      requires Tables(lc, dc) && ValidHeader(h) && hdr.Written() == TypeBits(last, 2) + HeaderBits(h)
      requires st == Sending(HeadIns(TypeBits(last, 2) + HeaderBits(h)), AtToks(lc, dc))
      ensures Valid()
    {
      hide TableOk, FixedLit, FixedDist, BitWriter.Written, Pack, HeaderBits, TypeBits;
      assert Sound(st.tail);
    }

    // ----- tokens -----

    lemma OpenLen()
      requires Valid() && mode == LEN
      ensures Built() && src.Valid() && hdr.Valid() && hdr.first == 0 && !rd.recording
      ensures st.AtToks? && st == AtToks(st.lc, st.dc) && Tables(st.lc, st.dc)
      ensures (src.bits < 8 || Waiting(st.lc, src.hold, src.bits)) && src.bits < 15
    {
      hide TableOk, FixedLit, FixedDist, DecodeSym, ToBits;
    }

    lemma CloseLen(lc: Lens, dc: Lens)
      requires Built() && src.Valid() && hdr.Valid() && hdr.first == 0 && !rd.recording
      requires mode == LEN && st == AtToks(lc, dc) && Tables(lc, dc)
      requires src.bits < 8 || Waiting(lc, src.hold, src.bits)
      ensures Valid()
    {
      hide TableOk, FixedLit, FixedDist, Waiting;
    }

    lemma CloseLenExt(lc: Lens, dc: Lens, s: nat)
      requires Built() && src.Valid() && hdr.Valid() && hdr.first == 0 && !rd.recording
      requires mode == LENEXT && IsLenSym(s) && st == AtLenExt(lc, dc, s) && Tables(lc, dc) && src.bits < 8
      requires extra == LenExtra(s) && length == LBase(s - 257)
      ensures Valid()
    {
      hide TableOk, FixedLit, FixedDist, LBase, LenExtra;
    }

    lemma CloseDist(lc: Lens, dc: Lens, s: nat, ext: nat)
      requires Built() && src.Valid() && hdr.Valid() && hdr.first == 0 && !rd.recording
      requires IsLenSym(s) && ext < Pow2(LenExtra(s))
      requires mode == DIST && st == AtDist(lc, dc, s, ext) && Tables(lc, dc) && length == LBase(s - 257) + ext
      requires src.bits < 8 || Waiting(dc, src.hold, src.bits)
      ensures Valid()
    {
      hide TableOk, FixedLit, FixedDist, LBase, LenExtra, Waiting, Pow2;
    }

    lemma CloseDistExt(lc: Lens, dc: Lens, s: nat, ext: nat, d: nat)
      requires Built() && src.Valid() && hdr.Valid() && hdr.first == 0 && !rd.recording
      requires IsLenSym(s) && ext < Pow2(LenExtra(s)) && IsDistSym(d)
      requires mode == DISTEXT && st == AtDistExt(lc, dc, s, ext, d) && Tables(lc, dc)
      requires length == LBase(s - 257) + ext && offset == DBase(d) && extra == DistExtra(d)
      requires src.bits < 8 || src.bits < extra
      ensures Valid()
    {
      hide TableOk, FixedLit, FixedDist, LBase, LenExtra, DBase, DistExtra, Pow2;
    }

    lemma TablesOf(lc: Lens, dc: Lens)
      requires Tables(lc, dc)
      ensures TableOk(LenCodes, lc, lencode, lenbits) && TableOk(DistCodes, dc, distcode, distbits)
      ensures Bounded(lc) && Accepts(LenCodes, lc) && Bounded(dc) && Accepts(DistCodes, dc)
    {
    }

    /** LEN, one token at a time. */
    method CaseLen(ghost whole: Trace, ghost more: Bits) returns (stop: bool)
      requires Valid() && mode == LEN && Told(whole, more)
      modifies `mode, `st, `length, `extra, `ins, `insIndex, `insType, src
      ensures Valid() && Told(whole, more)
      ensures stop ==> Stuck()
      ensures !stop ==> |src.Ahead()| < old(|src.Ahead()|)
    {
      hide *;
      OpenLen();
      Tell(whole, more);
      ghost var lc, dc, hold0, bits0 := st.lc, st.dc, src.hold, src.bits;
      src.HeldIsFront();
      TablesOf(lc, dc);
      var ok, here, skip := src.Lookup(LenCodes, lc, lencode, lenbits);
      Retell(whole, more);
      if !ok {
        StallLen(last, lc, dc, src.Ahead());
        src.HeldIsAhead();
        NowWaiting(lc, src.hold, src.bits);
        CloseLen(lc, dc);
        ShowStuck();
        return true;
      }
      TokenLeftover(LenCodes, lc, src.Ahead(), hold0, bits0, src.bits, here, skip + here.bits);
      TakeLen(whole, more, here, skip, lc, dc);
      return false;
    }

    /** A literal/length symbol is in the register. */
    method TakeLen(ghost whole: Trace, ghost more: Bits, here: Entry, skip: nat, ghost lc: Lens, ghost dc: Lens)
      requires Built() && src.Valid() && hdr.Valid() && hdr.first == 0 && !rd.recording
      requires st == AtToks(lc, dc) && Tables(lc, dc) && Told(whole, more)
      requires Bounded(lc) && Accepts(LenCodes, lc)
      requires Says(LenCodes, lc, DecodeSym(lc, src.Ahead()), here, skip + here.bits)
      requires 0 < skip + here.bits <= src.bits < skip + here.bits + 8
      modifies `mode, `st, `length, `extra, `ins, `insIndex, `insType, src`hold, src`bits
      ensures Valid() && Told(whole, more)
      ensures |src.Ahead()| < old(|src.Ahead()|)
    {
      hide *;
      Tell(whole, more);
      ghost var s := LenCases(last, lc, dc, src.Ahead(), more, here, skip + here.bits);
      DropTwice(src.Ahead(), skip, here.bits);
      src.Drop(skip);
      src.Drop(here.bits);
      if here.op == 0 {
        length := here.val;
        MakeLit(whole, more, here.val, lc, dc);
      } else {
        ActLen(whole, more, here, lc, dc, s);
      }
    }

    /** End of block, an error, or the start of a match. */
    method ActLen(ghost whole: Trace, ghost more: Bits, here: Entry, ghost lc: Lens, ghost dc: Lens, ghost s: nat)
      requires Built() && src.Valid() && hdr.Valid() && hdr.first == 0 && !rd.recording && src.bits < 8
      requires Tables(lc, dc)
      requires if HasBit(here.op, 32) then
                 Sound(Sending(MARK, AtBlock))
                     && whole == Put(put, After(last, Sending(MARK, AtBlock), src.Ahead() + more))
               else if HasBit(here.op, 64) then whole == Put(put, INVALID_DATA)
               else
                 && IsLenSym(s) && here.op % 16 == LenExtra(s) && here.val == LBase(s - 257)
                     && Sound(AtLenExt(lc, dc, s))
                 && whole == Put(put, After(last, AtLenExt(lc, dc, s), src.Ahead() + more))
      modifies `mode, `st, `length, `extra
      ensures Valid() && Told(whole, more)
    {
      hide *;
      length := here.val;
      if HasBit(here.op, 32) {
        mode, st := SETENDOFBLOCK, Sending(MARK, AtBlock);
        CloseMark();
        Retell(whole, more);
      } else if HasBit(here.op, 64) {
        Fail(whole, more);
      } else {
        extra := here.op % 16;
        mode, st := LENEXT, AtLenExt(lc, dc, s);
        CloseLenExt(lc, dc, s);
        Retell(whole, more);
      }
    }

    /** A literal instruction. */
    method MakeLit(ghost whole: Trace, ghost more: Bits, b: byte, ghost lc: Lens, ghost dc: Lens)
      requires Built() && src.Valid() && hdr.Valid() && hdr.first == 0 && !rd.recording && src.bits < 8
      requires Sound(AtToks(lc, dc)) && Sound(Sending(LitIns(b), AtToks(lc, dc))) && Tables(lc, dc)
      requires whole == Put(put, After(last, Sending(LitIns(b), AtToks(lc, dc)), src.Ahead() + more))
      modifies `mode, `st, `ins, `insIndex, `insType
      ensures Valid() && Told(whole, more)
    {
      hide *;
      mode := LIT;
      ins, insIndex, insType := if b == 0xaa then [0xaa, 0xaa] else [b], 0, 0;
      st := Sending(LitIns(b), AtToks(lc, dc));
      LitBytes(b);
      FromStart(ins);
      ToksTail(lc, dc);
      CloseIns(AtToks(lc, dc));
      Retell(whole, more);
    }

    /** A match instruction. */
    method MakeMatch(ghost whole: Trace, ghost more: Bits, ghost lc: Lens, ghost dc: Lens, ghost t: Tok)
      requires Built() && src.Valid() && hdr.Valid() && hdr.first == 0 && !rd.recording && src.bits < 8
      requires ValidTok(t) && TokIns(t) == [0xaa, offset / 256, offset % 256, length - 3] && Tables(lc, dc)
      requires Sound(Sending(TokIns(t), AtToks(lc, dc)))
      requires whole == Put(put, After(last, Sending(TokIns(t), AtToks(lc, dc)), src.Ahead() + more))
      requires 3 <= length <= 258 && offset < 65536
      modifies `mode, `st, `ins, `insIndex, `insType
      ensures Valid() && Told(whole, more) && mode == MATCH
    {
      hide *;
      mode := MATCH;
      ins, insIndex, insType := [0xaa, offset / 256, offset % 256, length - 3], 0, 1;
      st := Sending(TokIns(t), AtToks(lc, dc));
      FromStart(ins);
      ToksTail(lc, dc);
      SoundToks(ins, lc, dc);
      CloseIns(AtToks(lc, dc));
      Retell(whole, more);
    }

    lemma ToksTail(lc: Lens, dc: Lens)
      requires Tables(lc, dc) && insType != 2
      ensures InsTail(AtToks(lc, dc))
    {
      hide TableOk;
    }

    lemma OpenLenExt()
      requires Valid() && mode == LENEXT
      ensures Built() && src.Valid() && hdr.Valid() && hdr.first == 0 && !rd.recording
      ensures st.AtLenExt? && st == AtLenExt(st.lc, st.dc, st.s) && Tables(st.lc, st.dc) && src.bits < 8
      ensures IsLenSym(st.s)
      ensures extra == LenExtra(st.s) <= 5 && length == LBase(st.s - 257)
    {
      hide TableOk, FixedLit, FixedDist, LBase;
    }

    /** LENEXT */
    method CaseLenExt(ghost whole: Trace, ghost more: Bits) returns (stop: bool)
      requires Valid() && mode == LENEXT && Told(whole, more)
      modifies `mode, `st, `length, src
      ensures Valid() && Told(whole, more)
      ensures stop ==> Stuck()
      ensures !stop ==> mode == DIST && |src.Ahead()| <= old(|src.Ahead()|)
    {
      hide *;
      OpenLenExt();
      Tell(whole, more);
      ghost var lc, dc, s := st.lc, st.dc, st.s;
      ghost var ext := 0;
      if extra != 0 {
        var ok := src.Need(extra);
        if !ok {
          StallLenExt(last, lc, dc, s, src.Ahead());
          CloseLenExt(lc, dc, s);
          Retell(whole, more);
          ShowStuck();
          return true;
        }
        StepLenExt(last, lc, dc, s, src.Ahead(), more);
        src.Peeked(extra);
        ext := src.Peek(extra);
        length := length + src.Peek(extra);
        src.Drop(extra);
      } else {
        StepLenExt(last, lc, dc, s, src.Ahead(), more);
        NoExtra(src.Ahead());
      }
      mode, st := DIST, AtDist(lc, dc, s, ext);
      CloseDist(lc, dc, s, ext);
      Retell(whole, more);
      return false;
    }

    lemma OpenDist()
      requires Valid() && mode == DIST
      ensures Built() && src.Valid() && hdr.Valid() && hdr.first == 0 && !rd.recording
      ensures st.AtDist? && st == AtDist(st.lc, st.dc, st.s, st.ext) && Tables(st.lc, st.dc)
      ensures IsLenSym(st.s) && st.ext < Pow2(LenExtra(st.s)) && length == LBase(st.s - 257) + st.ext
      ensures (src.bits < 8 || Waiting(st.dc, src.hold, src.bits)) && src.bits < 15
    {
      hide TableOk, FixedLit, FixedDist, DecodeSym, ToBits, LBase, LenExtra, Pow2;
    }

    /** DIST */
    method CaseDist(ghost whole: Trace, ghost more: Bits) returns (stop: bool)
      requires Valid() && mode == DIST && Told(whole, more)
      modifies `mode, `st, `offset, `extra, src
      ensures Valid() && Told(whole, more)
      ensures stop ==> Stuck()
      ensures !stop ==> |src.Ahead()| < old(|src.Ahead()|)
    {
      hide *;
      OpenDist();
      Tell(whole, more);
      ghost var lc, dc, s, ext, hold0, bits0 := st.lc, st.dc, st.s, st.ext, src.hold, src.bits;
      src.HeldIsFront();
      TablesOf(lc, dc);
      var ok, here, skip := src.Lookup(DistCodes, dc, distcode, distbits);
      if !ok {
        StallDist(last, lc, dc, s, ext, src.Ahead());
        src.HeldIsAhead();
        NowWaiting(dc, src.hold, src.bits);
        CloseDist(lc, dc, s, ext);
        Retell(whole, more);
        ShowStuck();
        return true;
      }
      TokenLeftover(DistCodes, dc, src.Ahead(), hold0, bits0, src.bits, here, skip + here.bits);
      Retell(whole, more);
      TakeDist(whole, more, here, skip, lc, dc, s, ext);
      return false;
    }

    /** A distance symbol is in the register. */
    method TakeDist(ghost whole: Trace, ghost more: Bits, here: Entry, skip: nat, ghost lc: Lens, ghost dc: Lens,
        ghost s: nat, ghost ext: nat)
      requires Built() && src.Valid() && hdr.Valid() && hdr.first == 0 && !rd.recording
      requires IsLenSym(s) && ext < Pow2(LenExtra(s)) && length == LBase(s - 257) + ext
      requires Sound(st) && st == AtDist(lc, dc, s, ext) && Tables(lc, dc) && Told(whole, more)
      requires Bounded(dc) && Accepts(DistCodes, dc)
      requires Says(DistCodes, dc, DecodeSym(dc, src.Ahead()), here, skip + here.bits)
      requires 0 < skip + here.bits <= src.bits < skip + here.bits + 8
      modifies `mode, `st, `offset, `extra, src`hold, src`bits
      ensures Valid() && Told(whole, more)
      ensures |src.Ahead()| < old(|src.Ahead()|)
    {
      hide *;
      Tell(whole, more);
      ghost var d := DistCases(last, lc, dc, s, ext, src.Ahead(), more, here, skip + here.bits);
      DropTwice(src.Ahead(), skip, here.bits);
      src.Drop(skip);
      src.Drop(here.bits);
      if HasBit(here.op, 64) {
        Fail(whole, more);
        return;
      }
      offset, extra := here.val, here.op % 16;
      mode, st := DISTEXT, AtDistExt(lc, dc, s, ext, d);
      CloseDistExt(lc, dc, s, ext, d);
      Retell(whole, more);
    }

    lemma OpenDistExt()
      requires Valid() && mode == DISTEXT
      ensures Built() && src.Valid() && hdr.Valid() && hdr.first == 0 && !rd.recording
      ensures st.AtDistExt? && st == AtDistExt(st.lc, st.dc, st.s, st.ext, st.d) && Tables(st.lc, st.dc)
      ensures IsLenSym(st.s) && st.ext < Pow2(LenExtra(st.s)) && IsDistSym(st.d)
      ensures length == LBase(st.s - 257) + st.ext && offset == DBase(st.d) && extra == DistExtra(st.d) <= 13
      ensures src.bits < 8 || src.bits < extra
    {
      hide TableOk, FixedLit, FixedDist, LBase, LenExtra, DBase, Pow2;
    }

    /** DISTEXT */
    method CaseDistExt(ghost whole: Trace, ghost more: Bits) returns (stop: bool)
      requires Valid() && mode == DISTEXT && Told(whole, more)
      modifies `mode, `st, `offset, `ins, `insIndex, `insType, src
      ensures Valid() && Told(whole, more)
      ensures stop ==> Stuck()
      ensures !stop ==> mode == MATCH && |src.Ahead()| <= old(|src.Ahead()|)
    {
      hide *;
      OpenDistExt();
      Tell(whole, more);
      ghost var lc, dc, s, ext, d := st.lc, st.dc, st.s, st.ext, st.d;
      ghost var dext := 0;
      if extra != 0 {
        var ok := src.Need(extra);
        if !ok {
          StallDistExt(last, lc, dc, s, ext, d, src.Ahead());
          CloseDistExt(lc, dc, s, ext, d);
          Retell(whole, more);
          ShowStuck();
          return true;
        }
        StepDistExt(last, lc, dc, s, ext, d, src.Ahead(), more);
        src.Peeked(extra);
        dext := src.Peek(extra);
        offset := offset + src.Peek(extra);
        src.Drop(extra);
      } else {
        StepDistExt(last, lc, dc, s, ext, d, src.Ahead(), more);
        NoExtra(src.Ahead());
      }
      IsToken(s, ext, d, dext);
      MatchBytes(s, ext, d, dext);
      SoundToks(TokIns(Match(s, ext, d, dext)), lc, dc);
      MakeMatch(whole, more, lc, dc, Match(s, ext, d, dext));
      return false;
    }

    /** LEN, when there is input and space enough for inflate_fast. */
    method CaseFast(ghost whole: Trace, ghost more: Bits)
      requires Valid() && mode == LEN && |src.next| >= 6 && left >= 258 && Told(whole, more)
      modifies `mode, `st, `put, `left, src
      ensures Valid() && Told(whole, more)
      ensures |src.Ahead()| < old(|src.Ahead()|) && |put| + left == old(|put| + left)
    {
      hide *;
      OpenLen();
      Tell(whole, more);
      ghost var lc, dc := st.lc, st.dc;
      TablesOf(lc, dc);
      src.Held();
      var next := src.next;
      var exit, r, out := InfFast.InflateFast(last, lc, dc, lencode, lenbits, distcode, distbits, src.hold, src.bits,
          next, left, more);
      RegHeld(r, next);
      src.Load(r.hold, r.bits, next[r.pos..]);
      ghost var b := src.Ahead() + more;
      InfFast.LeftForms(last, lc, dc, b);
      PutPut(put, out, InfFast.Left(exit, last, lc, dc, b));
      put, left := put + out, left - |out|;
      match exit {
        case Going =>
          CloseLen(lc, dc);
          Retell(whole, more);
        case BlockEnd =>
          mode, st := TYPE, AtBlock;
          CloseBlock();
          Retell(whole, more);
        case Error => Fail(whole, more);
      }
    }

    lemma RegHeld(r: InfFast.Reg, next: seq<byte>)
      requires InfFast.RegOk(r, next)
      ensures r.hold < Pow2(r.bits) && InfFast.View(r, next) == ToBits(r.hold, r.bits) + ByteBits(next[r.pos..])
    {
    }

    // ----- the machine -----

    /** Nothing is read, nothing is written, and nothing can be done without input. */
    lemma AtStart(whole: Bits)
      requires Valid() && !last && st == AtBlock && put == [] && src.next == [] && src.bits == 0
      ensures Told(EmitBlocks(false, whole), whole) && Stuck()
    {
      hide *;
      StallType([]);
      assert src.Ahead() == [];
      assert [] + whole == whole;
      BlockForm(whole);
      Retell(EmitBlocks(false, whole), whole);
      ShowStuck();
    }

    /** Input that was still to come is handed in. */
    method Supply(chunk: seq<byte>, ghost rel: Trace, ghost later: seq<byte>)
      requires Valid() && src.next == [] && Told(rel, ByteBits(chunk + later))
      modifies src`next
      ensures Valid() && Told(rel, ByteBits(later)) && src.next == chunk
    {
      hide *;
      Tell(rel, ByteBits(chunk + later));
      src.HeldIsAhead();
      src.next := chunk;
      src.HeldAnd(chunk, later);
      Retell(rel, ByteBits(later));
    }

    lemma Ended(more: Bits)
      requires Valid()
      ensures mode == DONE ==>
                  After(last, st, src.Ahead() + more).out == [] && After(last, st, src.Ahead() + more).end.Finished?
      ensures mode == BAD ==> After(last, st, src.Ahead() + more) == INVALID_DATA
    {
      hide TableOk, FixedLit, FixedDist, InStored, InDynamic, InHeader, InIns, InLen, InLenExt, InDist, InDistExt;
      hide EmitBlocks, EmitStored, EmitData, EmitToks, EmitLenExt, EmitDist, EmitDistExt, EmitHeader;
    }

    lemma OpenDone()
      requires Valid() && mode == DONE
      ensures st == AtEnd && Sound(st) && src.bits == 0
    {
      hide TableOk, FixedLit, FixedDist;
    }

    /** At the end of the stream no bit is held, and the bytes after it have not been read. */
    lemma AtDone(whole: Trace, more: Bits)
      requires Valid() && mode == DONE && Told(whole, more) && |more| % 8 == 0
      ensures src.bits == 0 && whole == Trace(put, Finished(ByteBits(src.next) + more))
    {
      hide *;
      OpenDone();
      Tell(whole, more);
      src.NoneHeld();
      EndTrace(put, last, src.Ahead() + more);
    }

    /** One turn of the mode switch; false when the call returns. */
    method Turn(ghost whole: Trace, ghost more: Bits) returns (stop: bool)
      requires Valid() && Told(whole, more) && |more| % 8 == 0
      modifies this, src, hdr, hdr.buf, rd, rd.lens
      ensures Valid() && Told(whole, more)
      ensures |put| + left == old(|put| + left)
      ensures stop ==> left == 0 || Stuck() || mode == DONE || mode == BAD
      ensures old(mode) == DONE ==> stop && mode == DONE && put == old(put)
      ensures !stop ==> Lower(|src.Ahead()|, mode, left, old(|src.Ahead()|), old(mode), old(left))
    {
      hide *;
      LowerIs();
      Ranks();
      stop := false;
      match mode {
        case TYPE => stop := CaseBlock(whole, more);
        case TYPEDO => stop := CaseBlock(whole, more);
        case STORED => stop := CaseStored(whole, more);
        case COPY => stop := CaseCopy(whole, more);
        case TABLE => stop := CaseTable(whole, more);
        case LENLENS => stop := CaseLenLens(whole, more);
        case CODELENS => stop := CaseCodeLens(whole, more);
        case SEND_HEADER => stop := CaseHeader(whole, more);
        case LEN => stop := TurnLen(whole, more);
        case LENEXT => stop := CaseLenExt(whole, more);
        case DIST => stop := CaseDist(whole, more);
        case DISTEXT => stop := CaseDistExt(whole, more);
        case SETENDOFBLOCK => CaseEndOfBlock(whole, more);
        case SENDINS => stop := CaseIns(whole, more);
        case DONE => stop := true;
        case BAD => stop := true;
        case _ => CasePass();
      }
    }

    method TurnLen(ghost whole: Trace, ghost more: Bits) returns (stop: bool)
      requires Valid() && mode == LEN && Told(whole, more)
      modifies `mode, `st, `length, `extra, `ins, `insIndex, `insType, `put, `left, src
      ensures Valid() && Told(whole, more) && |put| + left == old(|put| + left)
      ensures stop ==> Stuck()
      ensures !stop ==> |src.Ahead()| < old(|src.Ahead()|)
    {
      hide *;
      if |src.next| >= 6 && left >= 258 {
        CaseFast(whole, more);
        return false;
      }
      stop := CaseLen(whole, more);
    }

    /**
      j_inflate.  The output so far and what is still to come stay the same whatever happens, and the call
      returns only when it must: the output is full, the input is used up, or the stream has ended.  The result
      is Z_STREAM_END at the end, where exactly the bytes of the stream have been read, Z_DATA_ERROR on invalid
      data, Z_BUF_ERROR when nothing was read or written, and Z_OK otherwise.
     */
    method Inflate(ghost whole: Trace, ghost more: Bits) returns (ret: int)
      requires Valid() && Told(whole, more) && |more| % 8 == 0
      modifies this, src, hdr, hdr.buf, rd, rd.lens
      ensures Valid() && Told(whole, more)
      ensures |put| + left == old(|put| + left)
      ensures left == 0 || Stuck() || mode == DONE || mode == BAD
      ensures mode == DONE ==> ret == 1 && src.bits == 0 && whole == Trace(put, Finished(ByteBits(src.next) + more))
      ensures mode == BAD ==> ret == -3
      ensures mode != DONE && mode != BAD ==>
                  ret == if |src.next| == old(|src.next|) && left == old(left) then -5 else 0
      ensures old(mode) == DONE ==> mode == DONE && put == old(put)
    {
      hide *;
      var available, space := |src.next|, left;
      if mode == TYPE {
        SkipCheck();
      }
      var stop := false;
      while !stop
        invariant Valid() && Told(whole, more) && |put| + left == old(|put| + left)
        invariant stop ==> left == 0 || Stuck() || mode == DONE || mode == BAD
        invariant old(mode) == DONE ==> mode == DONE && put == old(put)
        decreases !stop, |src.Ahead()|, Rank(mode), left
      {
        ghost var a, m, l := |src.Ahead()|, mode, left;
        stop := Turn(whole, more);
        if !stop {
          LowerMeans(|src.Ahead()|, mode, left, a, m, l);
        }
      }
      ret := if mode == DONE then 1 else if mode == BAD then -3 else if |src.next| == available
          && left == space then -5 else 0;
      if mode == DONE {
        AtDone(whole, more);
      }
    }

    method SkipCheck()
      requires Valid() && mode == TYPE
      modifies `mode
      ensures Valid() && mode == TYPEDO
    {
      hide *;
      OpenBlock();
      mode := TYPEDO;
      CloseBlock();
    }

    // ----- opening and closing Valid -----

    lemma OpenBlock()
      requires Valid() && (mode == TYPE || mode == TYPEDO)
      ensures Built() && src.Valid() && hdr.Valid() && hdr.first == 0 && hdr.buf.Length == 605
      ensures st == AtBlock && src.bits < 8
    {
      hide TableOk, FixedLit, FixedDist;
    }

    lemma CloseBlock()
      requires Built() && src.Valid() && hdr.Valid() && hdr.first == 0
      requires (mode == TYPE || mode == TYPEDO) && st == AtBlock && src.bits < 8
      ensures Valid()
    {
      hide TableOk, FixedLit, FixedDist;
    }

    lemma CloseEnd()
      requires Built() && src.Valid() && hdr.Valid() && hdr.first == 0
      requires (mode == CHECK || mode == LENGTH || mode == DONE) && st == AtEnd && src.bits == 0
      ensures Valid()
    {
      hide TableOk, FixedLit, FixedDist;
    }

    lemma CloseBad()
      requires Built() && src.Valid() && hdr.Valid() && hdr.first == 0
      requires mode == BAD && st == Failed
      ensures Valid()
    {
      hide TableOk, FixedLit, FixedDist;
    }

    lemma CloseStored()
      requires Built() && src.Valid() && hdr.Valid() && hdr.first == 0
      requires mode == STORED && st == AtStored && rd.recording && headerIndex == 0 && treeType == 0
      requires src.bits < 8 || (src.bits % 8 == 0 && src.bits <= 24)
      requires hdr.Written() == TypeBits(last, 0) || hdr.Written() == ByteBits(Pack(TypeBits(last, 0)))
      ensures Valid()
    {
      hide TableOk, FixedLit, FixedDist, BitWriter.Written, ByteBits, Pack, TypeBits;
    }

    lemma CloseFixed()
      requires Built() && src.Valid() && hdr.Valid() && hdr.first == 0
      requires mode == SEND_HEADER && rd.recording && headerIndex == 0 && treeType == 1 && src.bits < 8
      requires st == Sending(HeadIns(TypeBits(last, 1)), AtToks(FixedLit(), FixedDist()))
      requires lencode == lenfix && lenbits == lenfixBits && distcode == distfix && distbits == distfixBits
      requires hdr.Written() == TypeBits(last, 1)
      ensures Valid()
    {
      hide TableOk, FixedLit, FixedDist, BitWriter.Written, TypeBits, Pack;
      assert |hdr.Written()| == 3;
      assert Sound(st.tail);
    }

    lemma Tell(whole: Trace, more: Bits)
      requires Sound(st) && Told(whole, more)
      ensures whole == Put(put, After(last, st, src.Ahead() + more))
    {
    }

    lemma Retell(whole: Trace, more: Bits)
      requires Sound(st) && whole == Put(put, After(last, st, src.Ahead() + more))
      ensures Told(whole, more)
    {
    }

    lemma ShownStuck()
      requires Sound(st) && Stuck()
      ensures src.next == [] && After(last, st, src.Ahead()) == STARVED
    {
    }

    lemma ShowStuck()
      requires Sound(st) && src.next == [] && After(last, st, src.Ahead()) == STARVED
      ensures Stuck()
    {
    }
  }

  lemma EndTrace(put: seq<byte>, last: bool, bits: Bits)
    requires |bits| % 8 == 0
    ensures Put(put, After(last, AtEnd, bits)) == Trace(put, Finished(bits))
  {
  }

  lemma FirstBit(bits: Bits)
    requires |bits| >= 1
    ensures Val(bits[..1]) == Bit(bits[0])
  {
    assert bits[..1][1..] == [];
  }

  lemma TypeRead(bits: Bits)
    requires |bits| >= 3
    ensures Val(bits[..1]) == Bit(bits[0]) && (bits[0] <==> Bit(bits[0]) == 1)
    ensures bits[1..][..2] == bits[1..3] && bits[1..][2..] == bits[3..]
    ensures Val(bits[1..3]) < 4
    ensures [] + bits[..1] + bits[1..3] == TypeBits(bits[0], Val(bits[1..3]))
  {
    FirstBit(bits);
    TypeExact(bits);
    hide Val, TypeBits;
    FrontOf(TypeBits(bits[0], Val(bits[1..3])), bits);
    assert [] + bits[..1] + bits[1..3] == bits[..3];
  }

  /** bi_windup after the type bits of a stored block, and again when the mode is entered anew. */
  lemma WoundType(w: Bits, last: bool, have: nat, valid: nat)
    requires w == TypeBits(last, 0) || w == ByteBits(Pack(TypeBits(last, 0)))
    requires |w| == 8 * have + valid && valid <= 16
    ensures w + Zeros(Pad(valid)) == ByteBits(Pack(TypeBits(last, 0)))
    ensures 8 * have + valid <= 8
  {
    var t := TypeBits(last, 0);
    hide ByteBits, Pack, TypeBits;
    PackBits(t);
    if w == t {
      assert have == 0 && valid == 3;
    } else {
      assert |w| == 8;
      assert Pad(valid) == 0;
    }
  }

  /** The length of a stored block and its complement. */
  predicate LensGood(bits: Bits, len: nat) {
    |bits| >= 32 && Val(bits[..16]) == len && len + Val(bits[16..32]) == 65535
  }

  lemma LensAre(bits: Bits, len: nat)
    requires LensGood(bits, len)
    ensures |bits| >= 32 && Val(bits[..16]) == len && len + Val(bits[16..32]) == 65535
  {
    hide Val;
  }

  lemma LensMade(bits: Bits, len: nat)
    requires |bits| >= 32 && Val(bits[..16]) == len && len + Val(bits[16..32]) == 65535
    ensures LensGood(bits, len) && len < 65536
  {
    hide Val;
  }

  ghost function AfterLens(last: bool, len: nat, bits: Bits): Trace
    requires len < 65536
  {
    After(last, Sending(StoredHead(last, len), AtData(len)), bits)
  }

  lemma AfterLensIs(last: bool, len: nat, bits: Bits)
    requires len < 65536
    ensures Sound(Sending(StoredHead(last, len), AtData(len)))
    ensures AfterLens(last, len, bits) == After(last, Sending(StoredHead(last, len), AtData(len)), bits)
  {
    hide EmitData, StoredHead;
  }

  /** What has been recorded when a stored block's lengths have been read. */
  lemma StoredCaptured(last: bool, start: Bits)
    requires |start| >= 32 && Val(start[..16]) + Val(start[16..32]) == 65535
    ensures var n := Val(start[..16]);
            var w := ByteBits(Pack(TypeBits(last, 0))) + start[..16] + start[16..][..16];
            n < 65536 && |w| == 40 && StoredHead(last, n) == Pack(w) + MARK
    ensures start[16..][16..] == start[32..]
  {
    LenFields(start);
    var n, t := Val(start[..16]), Pack(TypeBits(last, 0));
    hide Val, TypeBits, StoredLens, Pack;
    var w := ByteBits(t) + start[..16] + start[16..][..16];
    assert |TypeBits(last, 0)| == 3;
    assert w == ByteBits(t) + start[..32];
    PackAfterBytes(t, StoredLens(n));
    Assoc(t, Pack(StoredLens(n)), MARK);
  }

  /** Packing bits that start on a byte boundary leaves the bytes before them alone. */
  lemma PackAfterBytes(q: seq<byte>, b: Bits)
    ensures Pack(ByteBits(q) + b) == q + Pack(b)
  {
    hide ByteBits, Pack;
    ByteBitsAppend(q, Pack(b));
    PackBits(b);
    Assoc(ByteBits(q), b, Zeros(Pad(|b|)));
    SamePad(|q|, |b|);
    PackIs(q + Pack(b), ByteBits(q) + b);
  }

  lemma PackSize(w: Bits, have: nat, valid: nat)
    requires |w| == 8 * have + valid && valid <= 16
    ensures |Pack(w)| <= have + 2 && |Pack(w)| == (8 * have + valid + 7) / 8
  {
  }

  lemma NameSending(st: State)
    requires st.Sending?
    ensures st == Sending(st.bytes, st.tail)
  {
  }

  lemma QueueSlices(q: seq<byte>, due: seq<byte>, index: nat, copy: nat)
    requires index + copy <= |q| && due == q[index..]
    ensures q[index..index + copy] <= due && |q[index..index + copy]| == copy && due[copy..] == q[index + copy..]
    ensures due[copy..] == [] ==> due == q[index..index + copy]
  {
  }

  /** A turn makes progress: fewer bits ahead, or a later mode, or less space. */
  predicate Lower(a: nat, m: Mode, l: nat, a0: nat, m0: Mode, l0: nat) {
    a < a0 || (a <= a0 && (Rank(m) < Rank(m0) || (m == m0 && l < l0)))
  }

  lemma LowerIs()
    ensures forall a: nat, m, l: nat, a0: nat, m0, l0: nat ::
              Lower(a, m, l, a0, m0, l0) <==> a < a0 || (a <= a0 && (Rank(m) < Rank(m0) || (m == m0 && l < l0)))
  {
  }

  lemma LowerMeans(a: nat, m: Mode, l: nat, a0: nat, m0: Mode, l0: nat)
    requires Lower(a, m, l, a0, m0, l0)
    ensures a < a0 || (a == a0 && (Rank(m) < Rank(m0) || (m == m0 && l < l0)))
  {
  }

  lemma BlockForm(bits: Bits)
    ensures Put([], After(false, AtBlock, bits)) == EmitBlocks(false, bits)
  {
    hide EmitBlocks;
  }

}
