/**
  Reading a dynamic header (modes TABLE, LENLENS and CODELENS): the same text in inflate.c and deflate.c,
  except that the decoder limits the numbers of codes and records the bits it reads.
 */
module HeaderReading {
  import opened Bits
  import opened Huffman
  import opened TableSpec
  import opened InfTrees
  import opened Format
  import opened FormatLemmas
  import opened BitWriting
  import opened BitReading

  /** How far the reader is. */
  datatype Phase =
    | AtSizes
    | AtLens(cl: seq<nat>)
    | AtOps(cl: seq<nat>, ops: seq<ClOp>)

  datatype Progress = Progress(phase: Phase, nlen: nat, ndist: nat, ncode: nat, have: nat)

  /** How a call ends: more input is needed, the phase is complete, or the header is not valid. */
  datatype Reply = NeedsInput | Ready | Fault

  /** The next code-length symbol is not complete, or its extra bits are not. */
  ghost predicate WaitingOp(cl: Lens, hold: nat, bits: nat) {
    match DecodeSym(cl, ToBits(hold, bits))
    case NeedBits => bits < MAXBITS
    case NoCode => false
    case Sym(s) => s < 19 && s < |cl| && bits < cl[s] + ExtraOf(s) && cl[s] <= 7
  }

  predicate CodeLens(cl: seq<nat>) {
    4 <= |cl| <= 19 && forall v :: v in cl ==> v < 8
  }

  /** The code lengths `cl` are stored at the symbols ORDER lists. */
  predicate LensAt(a: seq<nat>, cl: seq<nat>) {
    |cl| <= 19 <= |a| && forall i :: 0 <= i < |cl| ==> a[ORDER[i]] == cl[i]
  }

  /** A dynamic header as far as it has been read, after the bits `base`, up to the code-length code. */
  function SizesHead(base: Bits, nlen: nat, ndist: nat, ncode: nat, cl: seq<nat>): Bits
    requires nlen >= 257 && ndist >= 1 && ncode >= 4
  {
    base + SizesBits(nlen, ndist, ncode) + ClBits(cl)
  }

  /** ... up to the code-length instructions. */
  function OpsHead(base: Bits, nlen: nat, ndist: nat, cl: seq<nat>, ops: seq<ClOp>): Bits
    requires nlen >= 257 && ndist >= 1 && CodeLens(cl) && ValidOps(ops)
  {
    SizesHead(base, nlen, ndist, |cl|, cl) + OpsBits(ClLens(cl), ops)
  }

  /** The first `have` code lengths are those the instructions spell. */
  predicate LensRead(a: seq<nat>, have: nat, cl: seq<nat>, ops: seq<ClOp>) {
    have <= |a| && if Dead(cl) then forall i :: 0 <= i < have ==> a[i] == 0 else a[..have] == Expand(ops)
  }

  /** If bits are recorded, then the header has been so far, unless it is bound to fail. */
  predicate Heard(on: bool, w: Bits, base: Bits, nlen: nat, ndist: nat, cl: seq<nat>, ops: seq<ClOp>)
    requires nlen >= 257 && ndist >= 1 && CodeLens(cl) && ValidOps(ops)
  {
    on ==> Dead(cl) || w == OpsHead(base, nlen, ndist, cl, ops)
  }

  /** The table of the code-length code decodes it, in one step. */
  ghost predicate ClTable(cl: seq<nat>, table: seq<Entry>, root: nat) {
    TableOk(Codes, ClLens(cl), table, root) && MaxLen(ClLens(cl), MAXBITS) <= root
  }

  class HeaderReader {
    const src: BitReader
    const hdr: BitWriter     // where the bits are recorded
    const lens: array<nat>
    const strict: bool       // inflate.c limits the numbers of codes
    var recording: bool      // header_flag
    var nlen: nat
    var ndist: nat
    var ncode: nat
    var have: nat
    var lencode: seq<Entry>
    var lenbits: nat
    var clTree: seq<TreeCode>  // bl_tree; deflate.c only
    ghost var base: Bits     // what was recorded before the header
    ghost var phase: Phase

    ghost function Now(): Progress
      reads `phase, `nlen, `ndist, `ncode, `have
    {
      Progress(phase, nlen, ndist, ncode, have)
    }

    predicate SizesOk()
      reads `nlen, `ndist
    {
      257 <= nlen <= (if strict then 286 else 288) && 1 <= ndist <= (if strict then 30 else 32)
    }

    predicate RoomOk()
      reads `recording
    {
      lens.Length == 320 && (recording ==> hdr.buf.Length == 605)
    }

    ghost predicate InSizes()
      requires hdr.InBuffer()
      reads `phase, `recording, `base, src`bits, hdr, hdr.buf
    {
      phase == AtSizes && src.bits < 14 && (recording ==> hdr.Written() == base && |base| == 3)
    }

    ghost predicate InLens()
      requires hdr.InBuffer()
      reads `phase, `recording, `base, `nlen, `ndist, `ncode, `have, src`bits, hdr, hdr.buf, lens
    {
      && phase.AtLens? && SizesOk() && 4 <= ncode <= 19 && have == |phase.cl| <= ncode && src.bits < 8
      && (forall v :: v in phase.cl ==> v < 8)
      && LensAt(lens[..], phase.cl)
      && (recording ==> hdr.Written() == SizesHead(base, nlen, ndist, ncode, phase.cl) && |base| == 3)
    }

    /** bl_tree spells the code-length code. */
    ghost predicate TreeMade(cl: seq<nat>)
      reads `clTree, `ncode
    {
      TreeFor(ClLens(cl), clTree) && 19 <= |clTree| && ncode == |cl|
    }

    ghost predicate InOps()
      requires hdr.InBuffer()
      reads `phase, `recording, `base, `nlen, `ndist, `ncode, `have, `lencode, `lenbits, `clTree, src`hold, src`bits,
          hdr, hdr.buf, lens
    {
      && phase.AtOps? && SizesOk() && have <= nlen + ndist
      && CodeLens(phase.cl) && ValidOps(phase.ops) && ClTable(phase.cl, lencode, lenbits) && TreeMade(phase.cl)
      && (recording ==> 8 * hdr.have + hdr.biValid <= 74 + 7 * have)
      && LensRead(lens[..], have, phase.cl, phase.ops)
      && Heard(recording, hdr.Written(), base, nlen, ndist, phase.cl, phase.ops)
      && (src.bits < 8 || (have < nlen + ndist && WaitingOp(ClLens(phase.cl), src.hold, src.bits)))
    }

    ghost function Valid(): (v: bool)
      reads `phase, `recording, `base, `nlen, `ndist, `ncode, `have, `lencode, `lenbits, `clTree, src`hold, src`bits,
          hdr, hdr.buf, lens
      ensures v ==> src.Valid() && hdr.Valid() && hdr.first == 0
    {
      && RoomOk() && src.Valid() && hdr.Valid() && hdr.first == 0
      && match phase
         case AtSizes => InSizes()
         case AtLens(_) => InLens()
         case AtOps(_, _) => InOps()
    }

    /** What the whole header will be read as, given the input `more` that is still to come. */
    ghost predicate Told(p: Parsed<Header>, more: Bits)
      reads `phase, `nlen, `ndist, `ncode, `have, src
    {
      p == Rest(strict, Now(), src.Ahead() + more)
    }

    /** All input is used and the header is not complete. */
    ghost predicate Stuck()
      reads `phase, `nlen, `ndist, `ncode, `have, src
    {
      src.next == [] && Rest(strict, Now(), src.Ahead()) == Short
    }

    constructor (src: BitReader, hdr: BitWriter, strict: bool)
      ensures this.src == src && this.hdr == hdr && this.strict == strict && fresh(lens) && lens.Length == 320
      ensures !recording
    {
      this.src, this.hdr, this.strict := src, hdr, strict;
      lens := new nat[320];
      recording, nlen, ndist, ncode, have := false, 0, 0, 0, 0;
      lencode, lenbits, clTree := [], 0, [];
      base, phase := [], AtSizes;
    }

    /** DROPBITS(n); while a header is recorded, with DROP_HEADER_BITS. */
    method DropBits(n: nat)
      requires src.Valid() && hdr.Valid() && hdr.first == 0 && n <= src.bits && n <= 16
      requires recording ==> 8 * hdr.have + hdr.biValid + n <= 8 * hdr.buf.Length
      modifies src`hold, src`bits, hdr`have, hdr`biBuf, hdr`biValid, hdr.buf
      ensures src.Valid() && src.Ahead() == old(src.Ahead())[n..] && src.bits == old(src.bits) - n
      ensures hdr.Valid()
      ensures recording ==> hdr.Written() == old(hdr.Written()) + old(src.Ahead())[..n]
      ensures recording ==> 8 * hdr.have + hdr.biValid == old(8 * hdr.have + hdr.biValid) + n
    {
      src.Peeked(n);
      ghost var w := src.Ahead()[..n];
      if recording {
        ghost var k := |hdr.Written()|;
        hdr.SendBits(src.Peek(n), n);
        assert |hdr.Written()| == k + n;
      }
      src.Drop(n);
    }

    lemma OpenSizes()
      requires Valid() && phase.AtSizes?
      ensures phase == AtSizes && lens.Length == 320 && (recording ==> hdr.buf.Length == 605)
      ensures src.bits < 14 && (recording ==> hdr.Written() == base && |base| == 3)
    {
    }

    lemma CloseLens(cl: seq<nat>)
      requires src.Valid() && hdr.Valid() && hdr.first == 0 && lens.Length == 320
               && (recording ==> hdr.buf.Length == 605)
      requires phase == AtLens(cl) && src.bits < 8 && SizesOk() && 4 <= ncode <= 19 && have == |cl| <= ncode
      requires 257 <= nlen && 1 <= ndist
      requires forall v :: v in cl ==> v < 8
      requires LensAt(lens[..], cl)
      requires recording ==> hdr.Written() == SizesHead(base, nlen, ndist, ncode, cl) && |base| == 3
      ensures Valid()
    {
      hide BitWriter.Written, SizesHead, LensAt;
    }

    lemma OpenLens()
      requires Valid() && phase.AtLens?
      ensures lens.Length == 320 && (recording ==> hdr.buf.Length == 605)
      ensures phase == AtLens(phase.cl) && src.bits < 8 && SizesOk() && 4 <= ncode <= 19 && have == |phase.cl| <= ncode
      ensures 257 <= nlen <= 288 && 1 <= ndist <= 32
      ensures forall v :: v in phase.cl ==> v < 8
      ensures LensAt(lens[..], phase.cl)
      ensures recording ==> hdr.Written() == SizesHead(base, nlen, ndist, ncode, phase.cl) && |base| == 3
    {
      hide BitWriter.Written, SizesHead, LensAt;
    }

    lemma CloseOps(cl: seq<nat>, ops: seq<ClOp>)
      requires src.Valid() && hdr.Valid() && hdr.first == 0 && lens.Length == 320
               && (recording ==> hdr.buf.Length == 605)
      requires phase == AtOps(cl, ops) && SizesOk() && 257 <= nlen && 1 <= ndist && have <= nlen + ndist
      requires CodeLens(cl) && ValidOps(ops) && ClTable(cl, lencode, lenbits) && TreeMade(cl)
      requires recording ==> 8 * hdr.have + hdr.biValid <= 74 + 7 * have
      requires LensRead(lens[..], have, cl, ops) && Heard(recording, hdr.Written(), base, nlen, ndist, cl, ops)
      requires src.bits < 8 || (have < nlen + ndist && WaitingOp(ClLens(cl), src.hold, src.bits))
      ensures Valid()
    {
      hide BitWriter.Written, Heard, LensRead, ClTable, CodeLens, WaitingOp, TreeMade;
    }

    lemma OpenOps()
      requires Valid() && phase.AtOps?
      ensures lens.Length == 320 && (recording ==> hdr.buf.Length == 605)
      ensures phase == AtOps(phase.cl, phase.ops) && SizesOk() && 257 <= nlen <= 288 && 1 <= ndist <= 32
      ensures have <= nlen + ndist
      ensures CodeLens(phase.cl) && ValidOps(phase.ops) && ClTable(phase.cl, lencode, lenbits) && TreeMade(phase.cl)
      ensures recording ==> 8 * hdr.have + hdr.biValid <= 74 + 7 * have
      ensures LensRead(lens[..], have, phase.cl, phase.ops)
      ensures Heard(recording, hdr.Written(), base, nlen, ndist, phase.cl, phase.ops)
      ensures src.bits < 8 || (have < nlen + ndist && WaitingOp(ClLens(phase.cl), src.hold, src.bits))
      ensures src.bits <= 24
    {
      hide BitWriter.Written, Heard, LensRead, ClTable, CodeLens, TreeMade;
    }

    lemma Tell(p: Parsed<Header>, more: Bits)
      requires Told(p, more)
      ensures p == Rest(strict, Progress(phase, nlen, ndist, ncode, have), src.Ahead() + more)
    {
    }

    lemma Retell(p: Parsed<Header>, more: Bits)
      requires p == Rest(strict, Progress(phase, nlen, ndist, ncode, have), src.Ahead() + more)
      ensures Told(p, more)
    {
    }

    lemma ShowStuck()
      requires src.next == [] && Rest(strict, Progress(phase, nlen, ndist, ncode, have), src.Ahead()) == Short
      ensures Stuck()
    {
    }

    // ----- TABLE -----

    /** The three numbers at the start. */
    method TakeNumbers()
      requires src.Valid() && hdr.Valid() && hdr.first == 0 && src.bits >= 14
      requires recording ==> hdr.buf.Length == 605 && hdr.Written() == base && |base| == 3
      modifies `nlen, `ndist, `ncode, src`hold, src`bits, hdr`have, hdr`biBuf, hdr`biValid, hdr.buf
      ensures src.Valid() && src.Ahead() == old(src.Ahead())[14..] && src.bits == old(src.bits) - 14
      ensures nlen == Val(old(src.Ahead())[..5]) + 257 && ndist == Val(old(src.Ahead())[5..10]) + 1
      ensures ncode == Val(old(src.Ahead())[10..14]) + 4
      ensures hdr.Valid() && (recording ==> hdr.Written() == base + old(src.Ahead())[..14])
    {
      hide *;
      ghost var start := src.Ahead();
      SizeSlices(start);
      assert recording ==> |hdr.Written()| == 3;
      src.Peeked(5);
      nlen := src.Peek(5) + 257;
      DropBits(5);
      src.Peeked(5);
      ndist := src.Peek(5) + 1;
      DropBits(5);
      src.Peeked(4);
      ncode := src.Peek(4) + 4;
      DropBits(4);
      SizeBits(base, start);
    }

    /** TABLE */
    method Table(ghost p: Parsed<Header>, ghost more: Bits) returns (o: Reply)
      requires Valid() && phase.AtSizes? && Told(p, more)
      modifies `phase, `nlen, `ndist, `ncode, `have, src, hdr`have, hdr`biBuf, hdr`biValid, hdr.buf
      ensures src.Valid() && hdr.Valid() && |src.Ahead()| <= old(|src.Ahead()|)
      ensures o == NeedsInput ==> Valid() && Told(p, more) && Stuck() && phase.AtSizes?
      ensures o == Ready ==> Valid() && Told(p, more) && phase.AtLens? && |src.Ahead()| < old(|src.Ahead()|)
      ensures o == Fault ==> p == Bad
    {
      hide *;
      OpenSizes();
      Tell(p, more);
      var ok := src.Need(14);
      ghost var start := src.Ahead();
      if !ok {
        StallEarly(strict, Progress(phase, nlen, ndist, ncode, have), start);
        BeginAgain();
        Retell(p, more);
        ShowStuck();
        return NeedsInput;
      }
      StepSizes(strict, Progress(phase, nlen, ndist, ncode, have), start, more);
      TakeNumbers();
      if strict && (nlen > 286 || ndist > 30) {
        return Fault;
      }
      have := 0;
      phase := AtLens([]);
      SizesHeadNil(base, nlen, ndist, ncode);
      NoLensYet(lens[..]);
      SizesFit();
      CloseLens([]);
      Retell(p, more);
      return Ready;
    }

    lemma BeginAgain()
      requires lens.Length == 320 && (recording ==> hdr.buf.Length == 605) && src.Valid() && hdr.Valid()
               && hdr.first == 0 && src.bits < 14
      requires phase == AtSizes && (recording ==> hdr.Written() == base && |base| == 3)
      ensures Valid()
    {
    }

    lemma SizesFit()
      requires 257 <= nlen <= (if strict then 286 else 288) && 1 <= ndist <= (if strict then 30 else 32)
      ensures SizesOk()
    {
    }

    // ----- LENLENS -----

    /** One code length of the code-length code. */
    method NextLenLen(ghost p: Parsed<Header>, ghost more: Bits) returns (ok: bool)
      requires Valid() && phase.AtLens? && have < ncode && Told(p, more)
      modifies `phase, `have, src, hdr`have, hdr`biBuf, hdr`biValid, hdr.buf, lens
      ensures Valid() && phase.AtLens? && Told(p, more)
      ensures !ok ==> Stuck() && src.Ahead() == old(src.Ahead())
      ensures ok ==> |src.Ahead()| < old(|src.Ahead()|) && have == old(have) + 1
    {
      hide *;
      OpenLens();
      Tell(p, more);
      ghost var cl := phase.cl;
      ok := src.Need(3);
      ghost var start := src.Ahead();
      if !ok {
        StallEarly(strict, Progress(AtLens(cl), nlen, ndist, ncode, have), start);
        CloseLens(cl);
        Retell(p, more);
        ShowStuck();
        return;
      }
      StepLens(strict, nlen, ndist, ncode, cl, start, more);
      src.Peeked(3);
      OrderRange(have);
      LensAtSnoc(lens[..], cl, src.Peek(3));
      lens[ORDER[have]] := src.Peek(3);
      SizesHeadSnoc(base, nlen, ndist, ncode, cl, start);
      ghost var v := src.Peek(3);
      DropBits(3);
      have := have + 1;
      phase := AtLens(cl + [v]);
      CloseLens(cl + [v]);
      Retell(p, more);
    }

    /** Sets the code-length code lengths that were not sent to 0. */
    method PadLenLens(ghost cl: seq<nat>)
      requires have == |cl| <= 19 && lens.Length == 320 && LensAt(lens[..], cl)
      modifies `have, lens
      ensures lens[..19] == ClLens(cl)
    {
      hide *;
      ghost var all := cl;
      while have < 19
        invariant |cl| <= have <= 19 && have == |all| && lens.Length == 320 && LensAt(lens[..], all)
        invariant cl <= all && forall i :: |cl| <= i < |all| ==> all[i] == 0
      {
        LensAtSnoc(lens[..], all, 0);
        OrderRange(have);
        lens[ORDER[have]] := 0;
        all := all + [0];
        have := have + 1;
      }
      ClLensIs(lens[..], cl, all);
    }

    /** LENLENS */
    method LenLens(ghost p: Parsed<Header>, ghost more: Bits) returns (o: Reply)
      requires Valid() && phase.AtLens? && Told(p, more)
      modifies `phase, `have, `lencode, `lenbits, `clTree, src, hdr`have, hdr`biBuf, hdr`biValid, hdr.buf, lens
      ensures src.Valid() && hdr.Valid() && |src.Ahead()| <= old(|src.Ahead()|)
      ensures o == NeedsInput ==> Valid() && Told(p, more) && Stuck() && phase.AtLens?
      ensures o == Ready ==> Valid() && Told(p, more) && phase.AtOps?
      ensures o == Fault ==> p == Bad
    {
      hide *;
      while have < ncode
        invariant Valid() && phase.AtLens? && Told(p, more) && |src.Ahead()| <= old(|src.Ahead()|)
        decreases ncode - have
      {
        var ok := NextLenLen(p, more);
        if !ok {
          return NeedsInput;
        }
      }
      o := BuildCodeLens(p, more);
    }

    method BuildCodeLens(ghost p: Parsed<Header>, ghost more: Bits) returns (o: Reply)
      requires Valid() && phase.AtLens? && have >= ncode && Told(p, more)
      modifies `phase, `have, `lencode, `lenbits, `clTree, lens
      ensures o == Ready ==> Valid() && Told(p, more) && phase.AtOps?
      ensures o == Fault ==> p == Bad
      ensures o != NeedsInput
    {
      hide *;
      OpenLens();
      Tell(p, more);
      ghost var cl := phase.cl;
      PadLenLens(cl);
      ShortLens(cl);
      var ret, table, root, tree := InflateTable(Codes, lens[..19], 39);
      EndLens(strict, nlen, ndist, ncode, cl, src.Ahead() + more);
      if ret != 0 {
        return Fault;
      }
      ClTableMade(cl, table, root);
      have := 0;
      lencode, lenbits, clTree := table, root, tree;
      TreeIsMade(cl);
      phase := AtOps(cl, []);
      FirstLens(recording, lens[..], base, nlen, ndist, cl);
      assert |hdr.Written()| == 8 * hdr.have + hdr.biValid;
      if !recording {
        NotHeard(recording, hdr.Written(), base, nlen, ndist, cl, []);
      }
      CloseOps(cl, []);
      Retell(p, more);
      return Ready;
    }

    lemma TreeIsMade(cl: seq<nat>)
      requires TreeFor(ClLens(cl), clTree) && |clTree| == 39 && ncode == |cl|
      ensures TreeMade(cl)
    {
      hide TreeFor;
    }

    // ----- CODELENS -----

    /** One code length, or a run of them. */
    method NextLength(ghost p: Parsed<Header>, ghost more: Bits) returns (o: Reply)
      requires Valid() && phase.AtOps? && have < nlen + ndist && Told(p, more)
      modifies `phase, `have, src, hdr`have, hdr`biBuf, hdr`biValid, hdr.buf, lens
      ensures src.Valid() && hdr.Valid() && |src.Ahead()| <= old(|src.Ahead()|)
      ensures o == NeedsInput ==> Valid() && Told(p, more) && Stuck() && phase.AtOps?
      ensures o == Ready ==> Valid() && Told(p, more) && phase.AtOps? && have > old(have)
      ensures o == Fault ==> p == Bad
    {
      hide *;
      OpenOps();
      ghost var cl, ops, hold0, bits0 := phase.cl, phase.ops, src.hold, src.bits;
      src.HeldIsFront();
      ClTableFacts(cl, lencode, lenbits);
      Tell(p, more);
      var ok, here := src.Fetch(Codes, ClLens(cl), lencode, lenbits);
      if !ok {
        StallCodes(strict, nlen, ndist, ncode, cl, ops, have, lens[..], src.Ahead());
        src.HeldIsAhead();
        NoSymbolYet(cl, src.hold, src.bits);
        CloseOps(cl, ops);
        Retell(p, more);
        ShowStuck();
        return NeedsInput;
      }
      HaveFetched(cl, here, hold0, bits0);
      Retell(p, more);
      if here.val < 16 {
        TakeLength(p, more, here, cl, ops);
        o := Ready;
      } else {
        o := TakeRepeat(p, more, here, cl, ops, bits0);
      }
    }

    lemma HaveFetched(cl: seq<nat>, here: Entry, hold0: nat, bits0: nat)
      requires src.Valid() && CodeLens(cl) && ClTable(cl, lencode, lenbits)
      requires Findable(lencode, lenbits, src.hold) && here == lencode[Low(src.hold, lenbits)] && here.bits <= src.bits
      requires Waited(ClLens(cl), src.Ahead(), bits0, src.bits) && bits0 <= src.bits
      requires src.Ahead()[..bits0] == ToBits(hold0, bits0) && (bits0 < 8 || WaitingOp(ClLens(cl), hold0, bits0))
      ensures Says(Codes, ClLens(cl), DecodeSym(ClLens(cl), src.Ahead()), here, here.bits)
      ensures LateEnough(ClLens(cl), here, src.Ahead(), src.bits, bits0)
      ensures here.val < 16 ==> src.bits < here.bits + 8
    {
      hide ToBits, ByteBits, Waited, WaitingOp, ClLens, ClTable, CodeLens, Says, LateEnough, Low;
      Fetched(cl, lencode, lenbits, src.hold, src.bits, src.next, here, hold0, bits0);
    }

    /** A single code length. */
    method TakeLength(ghost p: Parsed<Header>, ghost more: Bits, here: Entry, ghost cl: seq<nat>, ghost ops: seq<ClOp>)
      requires src.Valid() && hdr.Valid() && hdr.first == 0 && lens.Length == 320
               && (recording ==> hdr.buf.Length == 605)
      requires phase == AtOps(cl, ops) && SizesOk() && 257 <= nlen <= 288 && 1 <= ndist <= 32 && have < nlen + ndist
      requires CodeLens(cl) && ValidOps(ops) && ClTable(cl, lencode, lenbits) && TreeMade(cl)
      requires recording ==> 8 * hdr.have + hdr.biValid <= 74 + 7 * have
      requires LensRead(lens[..], have, cl, ops) && Heard(recording, hdr.Written(), base, nlen, ndist, cl, ops)
      requires Says(Codes, ClLens(cl), DecodeSym(ClLens(cl), src.Ahead()), here, here.bits) && here.val < 16
      requires here.bits <= src.bits < here.bits + 8
      requires Told(p, more)
      modifies `phase, `have, src`hold, src`bits, hdr`have, hdr`biBuf, hdr`biValid, hdr.buf, lens
      ensures Valid() && Told(p, more) && phase.AtOps? && have == old(have) + 1 && |src.Ahead()| <= old(|src.Ahead()|)
    {
      hide *;
      Tell(p, more);
      ghost var ops' := if Dead(cl) then ops else ops + [LenOp(here.val)];
      LengthStep(strict, recording, base, nlen, ndist, ncode, cl, ops, ops', have, lens[..], hdr.Written(),
          src.Ahead(), more, here, lencode, lenbits);
      DropBits(here.bits);
      lens[have] := here.val;
      have := have + 1;
      phase := AtOps(cl, ops');
      if !recording {
        NotHeard(recording, hdr.Written(), base, nlen, ndist, cl, ops');
      }
      CloseOps(cl, ops');
      Retell(p, more);
    }

    /** A run of code lengths, once its symbol is known. */
    method TakeRepeat(ghost p: Parsed<Header>, ghost more: Bits, here: Entry, ghost cl: seq<nat>, ghost ops: seq<ClOp>,
        ghost bits0: nat)
      returns (o: Reply)
      requires src.Valid() && hdr.Valid() && hdr.first == 0 && lens.Length == 320
               && (recording ==> hdr.buf.Length == 605)
      requires phase == AtOps(cl, ops) && SizesOk() && 257 <= nlen <= 288 && 1 <= ndist <= 32 && have < nlen + ndist
      requires CodeLens(cl) && ValidOps(ops) && ClTable(cl, lencode, lenbits) && TreeMade(cl)
      requires recording ==> 8 * hdr.have + hdr.biValid <= 74 + 7 * have
      requires LensRead(lens[..], have, cl, ops) && Heard(recording, hdr.Written(), base, nlen, ndist, cl, ops)
      requires Says(Codes, ClLens(cl), DecodeSym(ClLens(cl), src.Ahead()), here, here.bits) && here.val >= 16
      requires here.bits <= src.bits <= 24 && LateEnough(ClLens(cl), here, src.Ahead(), src.bits, bits0)
      requires Told(p, more)
      modifies `phase, `have, src, hdr`have, hdr`biBuf, hdr`biValid, hdr.buf, lens
      ensures src.Valid() && hdr.Valid() && |src.Ahead()| <= old(|src.Ahead()|)
      ensures o == NeedsInput ==> Valid() && Told(p, more) && Stuck() && phase.AtOps?
      ensures o == Ready ==> Valid() && Told(p, more) && phase.AtOps? && have > old(have)
      ensures o == Fault ==> p == Bad
    {
      hide *;
      Tell(p, more);
      var n := if here.val == 16 then 2 else if here.val == 17 then 3 else 7;
      RepeatSymbol(cl, lencode, lenbits, src.Ahead(), here);
      ghost var held := src.bits;
      var ok := src.Need(here.bits + n);
      if !ok {
        src.HeldIsAhead();
        StallRun(strict, nlen, ndist, ncode, cl, ops, have, lens[..], src.Ahead(), here, n);
        RunWaits(cl, src.hold, src.bits, here, n);
        CloseOps(cl, ops);
        Retell(p, more);
        ShowStuck();
        return NeedsInput;
      }
      RunLeftover(ClLens(cl), here, src.Ahead(), held, bits0, src.bits, n);
      Retell(p, more);
      o := TakeRun(p, more, here, n, cl, ops);
    }

    /** The symbol of a run and its extra bits are in the register. */
    method TakeRun(ghost p: Parsed<Header>, ghost more: Bits, here: Entry, n: nat, ghost cl: seq<nat>,
        ghost ops: seq<ClOp>)
      returns (o: Reply)
      requires src.Valid() && hdr.Valid() && hdr.first == 0 && lens.Length == 320
               && (recording ==> hdr.buf.Length == 605)
      requires phase == AtOps(cl, ops) && SizesOk() && 257 <= nlen <= 288 && 1 <= ndist <= 32 && have < nlen + ndist
      requires CodeLens(cl) && ValidOps(ops) && ClTable(cl, lencode, lenbits) && TreeMade(cl)
      requires recording ==> 8 * hdr.have + hdr.biValid <= 74 + 7 * have
      requires LensRead(lens[..], have, cl, ops) && Heard(recording, hdr.Written(), base, nlen, ndist, cl, ops)
      requires Says(Codes, ClLens(cl), DecodeSym(ClLens(cl), src.Ahead()), here, here.bits) && here.val >= 16
      requires n == if here.val == 16 then 2 else if here.val == 17 then 3 else 7
      requires here.bits + n <= src.bits < here.bits + n + 8 && 0 < here.bits <= 7
      requires Told(p, more)
      modifies `phase, `have, src`hold, src`bits, hdr`have, hdr`biBuf, hdr`biValid, hdr.buf, lens
      ensures src.Valid() && hdr.Valid() && |src.Ahead()| <= old(|src.Ahead()|)
      ensures o == Ready ==> Valid() && Told(p, more) && phase.AtOps? && have > old(have)
      ensures o == Fault ==> p == Bad
      ensures o != NeedsInput
    {
      hide *;
      Tell(p, more);
      ghost var start := src.Ahead();
      RunStep(strict, recording, base, nlen, ndist, ncode, cl, ops, have, lens[..], hdr.Written(), start, more, here,
          n, lencode, lenbits);
      var ok, len, copy := ReadRun(here, n);
      if !ok || have + copy > nlen + ndist {
        return Fault;
      }
      ghost var ops' := ops + [RunOp(here, start, n)];
      CopyLens(len, copy);
      LensReadNow(lens[..], have, cl, ops');
      phase := AtOps(cl, ops');
      if !recording {
        NotHeard(recording, hdr.Written(), base, nlen, ndist, cl, ops');
      }
      CloseOps(cl, ops');
      Retell(p, more);
      return Ready;
    }

    /** What a run repeats and how often; a run of the previous length needs one. */
    method ReadRun(here: Entry, n: nat) returns (ok: bool, len: nat, copy: nat)
      requires src.Valid() && hdr.Valid() && hdr.first == 0
      requires have <= lens.Length && here.bits + n <= src.bits && here.bits <= 7 && n <= 7
      requires recording ==> hdr.buf.Length == 605 && 8 * hdr.have + hdr.biValid + 14 <= 8 * 605
      modifies src`hold, src`bits, hdr`have, hdr`biBuf, hdr`biValid, hdr.buf
      ensures src.Valid() && hdr.Valid() && |src.Ahead()| <= old(|src.Ahead()|)
      ensures ok <==> here.val != 16 || have > 0
      ensures ok ==> len == if here.val == 16 then lens[have - 1] else 0
      ensures ok ==> copy == (if here.val <= 17 then 3 else 11) + Val(old(src.Ahead())[here.bits..][..n])
      ensures ok ==> src.Ahead() == old(src.Ahead())[here.bits..][n..] && src.bits == old(src.bits) - here.bits - n
      ensures ok && recording ==>
                && hdr.Written() == old(hdr.Written()) + old(src.Ahead())[..here.bits] +
                    old(src.Ahead())[here.bits..][..n]
                && 8 * hdr.have + hdr.biValid == old(8 * hdr.have + hdr.biValid) + here.bits + n
    {
      hide *;
      DropBits(here.bits);
      len, copy := 0, 0;
      if here.val == 16 {
        if have == 0 {
          return false, 0, 0;
        }
        len := lens[have - 1];
      }
      src.Peeked(n);
      copy := (if here.val <= 17 then 3 else 11) + src.Peek(n);
      DropBits(n);
      return true, len, copy;
    }

    /** Appends `copy` times `len` to the code lengths. */
    method CopyLens(len: nat, copy: nat)
      requires lens.Length == 320 && have + copy <= 320
      modifies `have, lens
      ensures have == old(have) + copy
      ensures lens[..have] == old(lens[..have]) + Repeated(len, copy)
    {
      var i := 0;
      while i < copy
        invariant i <= copy && have == old(have) + i
        invariant lens[..have] == old(lens[..have]) + Repeated(len, i)
      {
        lens[have] := len;
        have := have + 1;
        i := i + 1;
      }
    }

    /** CODELENS, up to the checks on the lengths: `h` is the header, unless no code-length code was sent. */
    method CodeLengths(ghost p: Parsed<Header>, ghost more: Bits) returns (o: Reply, ghost h: Header)
      requires Valid() && phase.AtOps? && Told(p, more)
      modifies `phase, `have, src, hdr`have, hdr`biBuf, hdr`biValid, hdr.buf, lens
      ensures src.Valid() && hdr.Valid() && |src.Ahead()| <= old(|src.Ahead()|)
      ensures o == NeedsInput ==> Valid() && Told(p, more) && Stuck() && phase.AtOps?
      ensures o == Fault ==> p == Bad
      ensures o == Ready ==>
                && h.nlen == nlen && h.ndist == ndist && TreeMade(h.cl) && ValidHeader(h) && SizesOk() && src.bits < 8
                    && nlen + ndist <= lens.Length
                && Declared(h, lens[..nlen], lens[nlen..nlen + ndist])
                && p == (if !Dead(h.cl) && AcceptsHeader(h) then Ok(h, src.Ahead() + more) else Bad)
                && (recording ==> 8 * hdr.have + hdr.biValid <= 74 + 7 * (nlen + ndist))
                && (recording && !Dead(h.cl) ==> hdr.Written() == base + HeaderBits(h))
    {
      hide *;
      h := Header(0, 0, [], []);
      while have < nlen + ndist
        invariant Valid() && phase.AtOps? && Told(p, more) && |src.Ahead()| <= old(|src.Ahead()|)
        decreases nlen + ndist - have
      {
        o := NextLength(p, more);
        if o != Ready {
          return;
        }
      }
      OpenOps();
      Tell(p, more);
      h := Header(nlen, ndist, phase.cl, phase.ops);
      LensSplit(h, have, lens[..], lens[..nlen], lens[nlen..nlen + ndist]);
      EndOps(strict, ncode, h, have, src.Ahead() + more);
      HeardAll(recording, hdr.Written(), base, h);
      o := Ready;
    }
  }

  /** The codes a header declares are these, or it has no code-length code and everything is zero. */
  ghost predicate Declared(h: Header, lc: Lens, dc: Lens) {
    && |lc| == h.nlen && |dc| == h.ndist && 257 <= |lc| && Bounded(lc) && Bounded(dc)
    && if Dead(h.cl) then lc[256] == 0 else Expand(h.ops) == lc + dc
  }

  /** No code-length symbol has a code: every bit is taken for a zero length. */
  predicate Dead(cl: seq<nat>) {
    MaxLen(ClLens(cl), MAXBITS) == 0
  }

  /** What reading the rest of the header will give. */
  ghost function Rest(strict: bool, g: Progress, bits: Bits): (p: Parsed<Header>)
    ensures p.Ok? ==> |p.rest| <= |bits| && AcceptsHeader(p.v)
  {
    match g.phase
    case AtSizes => ReadHeader(strict, bits)
    case AtLens(cl) => ReadCl(g.nlen, g.ndist, g.ncode, cl, bits)
    case AtOps(cl, ops) =>
      if !Dead(cl) then ReadOps(g.nlen, g.ndist, cl, ops, bits)
      else if |bits| < g.nlen + g.ndist - g.have then Short
      else Bad
  }

  // ----- one step of each phase -----

  lemma StepSizes(strict: bool, g: Progress, bits: Bits, more: Bits)
    requires g.phase.AtSizes? && |bits| >= 14
    ensures var nlen, ndist, ncode := Val(bits[..5]) + 257, Val(bits[5..10]) + 1, Val(bits[10..14]) + 4;
            && nlen <= 288 && ndist <= 32 && ncode <= 19
            && bits[..14] == SizesBits(nlen, ndist, ncode)
            && Rest(strict, g, bits + more) ==
               if strict && (nlen > 286 || ndist > 30) then Bad
               else Rest(strict, Progress(AtLens([]), nlen, ndist, ncode, 0), bits[14..] + more)
  {
    hide ReadCl, Val, SizesBits;
    SizesRead(bits);
    Later(bits, more, 14);
    var w := bits + more;
    assert w[..5] == bits[..5] && w[5..10] == bits[5..10] && w[10..14] == bits[10..14];
  }

  lemma StepLens(strict: bool, nlen: nat, ndist: nat, ncode: nat, cl: seq<nat>, bits: Bits, more: Bits)
    requires |cl| < ncode && |bits| >= 3
    ensures Val(bits[..3]) < 8
    ensures Rest(strict, Progress(AtLens(cl), nlen, ndist, ncode, |cl|), bits + more) ==
            Rest(strict, Progress(AtLens(cl + [Val(bits[..3])]), nlen, ndist, ncode, |cl| + 1), bits[3..] + more)
  {
    hide ReadCodes, Val;
    ValBound(bits[..3]);
    Pow2Small();
    Later(bits, more, 3);
    var w := bits + more;
    assert ReadCl(nlen, ndist, ncode, cl, w) == ReadCl(nlen, ndist, ncode, cl + [Val(w[..3])], w[3..]);
  }

  /** Too few bits for the next step. */
  lemma StallEarly(strict: bool, g: Progress, bits: Bits)
    requires g.phase.AtSizes? || (g.phase.AtLens? && |g.phase.cl| < g.ncode)
    requires |bits| < if g.phase.AtSizes? then 14 else 3
    ensures Rest(strict, g, bits) == Short
  {
  }

  lemma EndLens(strict: bool, nlen: nat, ndist: nat, ncode: nat, cl: seq<nat>, bits: Bits)
    requires |cl| >= ncode && nlen + ndist > 0 && Bounded(ClLens(cl))
    ensures Rest(strict, Progress(AtLens(cl), nlen, ndist, ncode, |cl|), bits) ==
            if Accepts(Codes, ClLens(cl)) then Rest(strict, Progress(AtOps(cl, []), nlen, ndist, ncode, 0), bits)
                else Bad
  {
    hide ReadOps, ClLens, Accepts, MaxLen;
    assert ReadCl(nlen, ndist, ncode, cl, bits) == ReadCodes(nlen, ndist, cl, bits);
    if Dead(cl) {
      DeadReads(nlen, ndist, cl, bits);
    }
  }

  /** Without any code-length code, the lengths are all zero and the end-of-block code is missing. */
  lemma DeadReads(nlen: nat, ndist: nat, cl: seq<nat>, bits: Bits)
    requires Dead(cl) && nlen + ndist > 0
    ensures ReadOps(nlen, ndist, cl, [], bits) == if |bits| < nlen + ndist then Short else Bad
  {
    hide ClLens, MaxLen;
    DeadDecode(ClLens(cl), bits);
    assert Expand([]) == [];
  }

  lemma StepOps(strict: bool, nlen: nat, ndist: nat, ncode: nat, cl: seq<nat>, ops: seq<ClOp>, have: nat, have': nat,
      bits: Bits, more: Bits)
    requires !Dead(cl) && |Expand(ops)| < nlen + ndist && Bounded(ClLens(cl)) && Accepts(Codes, ClLens(cl))
    requires DecodeSym(ClLens(cl), bits).Sym?
    requires var s := DecodeSym(ClLens(cl), bits).sym; s < 19 && |bits| >= ClLens(cl)[s] + ExtraOf(s)
    ensures var s := DecodeSym(ClLens(cl), bits).sym;
            var n, extra := ClLens(cl)[s], ExtraOf(s);
            var op := OpOf(s, Val(bits[n..][..extra]));
            Rest(strict, Progress(AtOps(cl, ops), nlen, ndist, ncode, have), bits + more) ==
            if s == 16 && Expand(ops) == [] then Bad
            else if |Expand(ops)| + |OpLens(Expand(ops), op)| > nlen + ndist then Bad
            else Rest(strict, Progress(AtOps(cl, ops + [op]), nlen, ndist, ncode, have'), bits[n..][extra..] + more)
  {
    hide ClLens, Accepts, DecodeSym, Expand, OpLens, OpOf, ExtraOf, Val, CheckLens, MaxLen;
    DecodedStays(Codes, ClLens(cl), bits, more);
    var s := DecodeSym(ClLens(cl), bits).sym;
    var n, extra := ClLens(cl)[s], ExtraOf(s);
    Later(bits, more, n);
    Later(bits[n..], more, extra);
  }

  lemma StallOps(strict: bool, nlen: nat, ndist: nat, ncode: nat, cl: seq<nat>, ops: seq<ClOp>, have: nat, bits: Bits)
    requires !Dead(cl) && |Expand(ops)| < nlen + ndist
    requires match DecodeSym(ClLens(cl), bits)
             case NeedBits => true
             case NoCode => false
             case Sym(s) => s < 19 && ClLens(cl)[s] <= |bits| < ClLens(cl)[s] + ExtraOf(s)
    ensures Rest(strict, Progress(AtOps(cl, ops), nlen, ndist, ncode, have), bits) == Short
  {
    hide ClLens, DecodeSym, Expand, OpLens, OpOf, ExtraOf, Val, CheckLens, MaxLen;
  }

  lemma StepDead(strict: bool, nlen: nat, ndist: nat, ncode: nat, cl: seq<nat>, ops: seq<ClOp>, have: nat, bits: Bits,
      more: Bits)
    requires Dead(cl) && have < nlen + ndist
    ensures bits != [] ==>
              Rest(strict, Progress(AtOps(cl, ops), nlen, ndist, ncode, have), bits + more) ==
              Rest(strict, Progress(AtOps(cl, ops), nlen, ndist, ncode, have + 1), bits[1..] + more)
    ensures bits == [] ==> Rest(strict, Progress(AtOps(cl, ops), nlen, ndist, ncode, have), bits) == Short
  {
  }

  /** All lengths have been read: what is left are the checks on them. */
  lemma EndOps(strict: bool, ncode: nat, h: Header, have: nat, bits: Bits)
    requires if Dead(h.cl) then have >= h.nlen + h.ndist else |Expand(h.ops)| >= h.nlen + h.ndist
    ensures Rest(strict, Progress(AtOps(h.cl, h.ops), h.nlen, h.ndist, ncode, have), bits) ==
            if !Dead(h.cl) && AcceptsHeader(h) then Ok(h, bits) else Bad
  {
    hide ClLens, DecodeSym, Expand, MaxLen, AcceptsHeader;
    if !Dead(h.cl) {
      assert ReadOps(h.nlen, h.ndist, h.cl, h.ops, bits) == CheckLens(h, bits);
      assert h == Header(h.nlen, h.ndist, h.cl, h.ops);
    }
  }

  /** A header that is bound to fail has nothing to be recorded. */
  lemma NotHeard(on: bool, w: Bits, base: Bits, nlen: nat, ndist: nat, cl: seq<nat>, ops: seq<ClOp>)
    requires nlen >= 257 && ndist >= 1 && CodeLens(cl) && ValidOps(ops) && !on
    ensures Heard(on, w, base, nlen, ndist, cl, ops)
  {
  }

  /** The recorded header is the whole header. */
  lemma HeardAll(on: bool, w: Bits, base: Bits, h: Header)
    requires ValidHeader(h) && CodeLens(h.cl) && Heard(on, w, base, h.nlen, h.ndist, h.cl, h.ops)
    ensures on && !Dead(h.cl) ==> w == base + HeaderBits(h)
  {
    hide OpsBits, ClBits, SizesBits, Dead, ClLens;
    AssocHead(base, SizesBits(h.nlen, h.ndist, |h.cl|), ClBits(h.cl), OpsBits(ClLens(h.cl), h.ops));
  }

  lemma AssocHead(a: Bits, b: Bits, c: Bits, d: Bits)
    ensures a + (b + c + d) == a + b + c + d
  {
  }

  lemma SizeSlices(bits: Bits)
    requires |bits| >= 14
    ensures bits[5..][..5] == bits[5..10] && bits[5..][5..] == bits[10..]
    ensures bits[10..][..4] == bits[10..14] && bits[10..][4..] == bits[14..]
  {
  }

  lemma SizeBits(head: Bits, bits: Bits)
    requires |bits| >= 14
    ensures head + bits[..5] + bits[5..10] + bits[10..14] == head + bits[..14]
  {
  }

  lemma SizesHeadNil(base: Bits, nlen: nat, ndist: nat, ncode: nat)
    requires nlen >= 257 && ndist >= 1 && ncode >= 4
    ensures SizesHead(base, nlen, ndist, ncode, []) == base + SizesBits(nlen, ndist, ncode)
  {
    ClBitsNil();
    hide ClBits, TypeBits, SizesBits;
  }

  lemma SizesHeadSnoc(base: Bits, nlen: nat, ndist: nat, ncode: nat, cl: seq<nat>, bits: Bits)
    requires nlen >= 257 && ndist >= 1 && ncode >= 4 && |bits| >= 3
    ensures SizesHead(base, nlen, ndist, ncode, cl) + bits[..3] == SizesHead(base, nlen, ndist, ncode,
            cl + [Val(bits[..3])])
    ensures |SizesHead(base, nlen, ndist, ncode, cl)| == |base| + 14 + 3 * |cl|
  {
    ClBitsSnoc(cl, Val(bits[..3]));
    ToBitsVal(bits[..3]);
    hide ClBits, TypeBits, SizesBits, Val, ToBits;
    Assoc(base + SizesBits(nlen, ndist, ncode), ClBits(cl), bits[..3]);
  }

  lemma OrderRange(i: nat)
    requires i < 19
    ensures |ORDER| == 19 && ORDER[i] < 19
  {
  }

  lemma NoLensYet(a: seq<nat>)
    requires |a| >= 19
    ensures LensAt(a, [])
  {
  }

  lemma LensAtSnoc(a: seq<nat>, cl: seq<nat>, v: nat)
    requires |cl| < 19 <= |a| && LensAt(a, cl)
    ensures ORDER[|cl|] < 19 && LensAt(a[ORDER[|cl|] := v], cl + [v])
  {
    OrderDistinct(|cl| + 1);
    hide ORDER;
  }

  /** The position of a symbol in ORDER. */
  function Pos(s: nat): (i: nat)
    requires s < 19
    ensures i < 19
  {
    if s == 16 then 0 else if s == 17 then 1 else if s == 18 then 2 else if s == 0 then 3
    else if s == 8 then 4 else if s < 8 then 19 - 2 * s else 2 * s - 12
  }

  lemma OrderPos(s: nat)
    requires s < 19
    ensures ORDER[Pos(s)] == s
  {
  }

  lemma ClLensIs(a: seq<nat>, cl: seq<nat>, all: seq<nat>)
    requires |all| == 19 && cl <= all && LensAt(a, all) && forall i :: |cl| <= i < 19 ==> all[i] == 0
    ensures a[..19] == ClLens(cl)
  {
    hide ORDER, ClLenOf, Pos;
    forall s | 0 <= s < 19
      ensures a[s] == ClLens(cl)[s]
    {
      OrderPos(s);
      ClLenAt(cl, Pos(s), 0);
    }
  }

  lemma ShortLens(cl: seq<nat>)
    requires |cl| <= 19 && forall v :: v in cl ==> v < 8
    ensures Bounded(ClLens(cl)) && forall i :: 0 <= i < |ClLens(cl)| ==> ClLens(cl)[i] <= 7
    ensures |ClLens(cl)| == 19 == MaxSyms(Codes)
  {
    hide ClLenOf;
    forall i | 0 <= i < 19
      ensures ClLens(cl)[i] <= 7
    {
      ShortLen(cl, i, 0);
    }
  }

  lemma {:induction false} ShortLen(cl: seq<nat>, s: nat, k: nat)
    requires k <= |cl| && forall v :: v in cl ==> v < 8
    ensures ClLenOf(cl, s, k) <= 7
    decreases |cl| - k
  {
    hide ORDER;
    if k < |cl| {
      assert cl[k] in cl;
      ShortLen(cl, s, k + 1);
    }
  }

  lemma ClTableMade(cl: seq<nat>, table: seq<Entry>, root: nat)
    requires Bounded(ClLens(cl)) && |ClLens(cl)| <= MaxSyms(Codes) && Accepts(Codes, ClLens(cl))
    requires TableFor(Codes, ClLens(cl), table, root) && MaxLen(ClLens(cl), MAXBITS) <= root
    ensures ClTable(cl, table, root)
  {
    hide Accepts, TableFor, MaxLen, ClLens, Bounded;
    TableMade(Codes, ClLens(cl), table, root);
  }

  lemma FirstLens(on: bool, a: seq<nat>, base: Bits, nlen: nat, ndist: nat, cl: seq<nat>)
    requires nlen >= 257 && ndist >= 1 && 4 <= |cl| <= 19 && forall v :: v in cl ==> v < 8
    ensures CodeLens(cl) && ValidOps([]) && LensRead(a, 0, cl, [])
    ensures Heard(on, SizesHead(base, nlen, ndist, |cl|, cl), base, nlen, ndist, cl, [])
    ensures |SizesHead(base, nlen, ndist, |cl|, cl)| == |base| + 14 + 3 * |cl|
  {
    hide TypeBits, SizesBits, ClBits, Dead, ClLens;
    OpsBitsNil(ClLens(cl));
    assert Expand([]) == [];
    assert a[..0] == [];
    assert SizesHead(base, nlen, ndist, |cl|, cl) + [] == SizesHead(base, nlen, ndist, |cl|, cl);
  }

  lemma ClTableFacts(cl: seq<nat>, table: seq<Entry>, root: nat)
    requires ClTable(cl, table, root)
    ensures TableOk(Codes, ClLens(cl), table, root) && MaxLen(ClLens(cl), MAXBITS) <= root
    ensures Bounded(ClLens(cl)) && Accepts(Codes, ClLens(cl))
  {
  }

  /** How bits decode under the code-length code. */
  lemma CodesDecode(cl: seq<nat>, bits: Bits)
    requires CodeLens(cl) && Bounded(ClLens(cl)) && Accepts(Codes, ClLens(cl))
    ensures var r := DecodeSym(ClLens(cl), bits);
            && (Dead(cl) ==> r == if |bits| > 0 then NoCode else NeedBits)
            && (!Dead(cl) ==> r != NoCode)
            && (r.Sym? ==> r.sym < 19 && 0 < ClLens(cl)[r.sym] <= 7 && ClLens(cl)[r.sym] <= |bits|)
  {
    ShortLens(cl);
    hide ClLens, CodeLens, Fits, Accepts, SpaceNeeded, MaxLen, DecodeSym, CodeBits;
    var lens := ClLens(cl);
    if Dead(cl) {
      DeadDecode(lens, bits);
    } else {
      LiveDecode(cl, bits);
    }
    if DecodeSym(lens, bits).Sym? {
      DecodedCode(lens, bits);
    }
  }

  lemma LiveDecode(cl: seq<nat>, bits: Bits)
    requires Bounded(ClLens(cl)) && Accepts(Codes, ClLens(cl)) && !Dead(cl)
    ensures DecodeSym(ClLens(cl), bits) != NoCode
  {
    hide ClLens, MaxLen, Fits, SpaceNeeded;
  }

  lemma DeadDecode(lens: Lens, bits: Bits)
    requires MaxLen(lens, MAXBITS) == 0
    ensures DecodeSym(lens, bits) == if |bits| > 0 then NoCode else NeedBits
  {
    forall s: nat
      ensures !Used(lens, s)
    {
      if Used(lens, s) {
        CountPrefix(lens, s, lens[s]);
      }
    }
    NoCodes(lens, MAXBITS);
    hide MaxLen, EndCode;
  }

  lemma StallCodes(strict: bool, nlen: nat, ndist: nat, ncode: nat, cl: seq<nat>, ops: seq<ClOp>, have: nat,
      a: seq<nat>, bits: Bits)
    requires CodeLens(cl) && Bounded(ClLens(cl)) && Accepts(Codes, ClLens(cl))
    requires have < nlen + ndist && LensRead(a, have, cl, ops) && DecodeSym(ClLens(cl), bits) == NeedBits
    ensures Rest(strict, Progress(AtOps(cl, ops), nlen, ndist, ncode, have), bits) == Short
  {
    hide Rest, ClLens, CodeLens, Accepts, Bounded, Expand, DecodeSym;
    CodesDecode(cl, bits);
    if Dead(cl) {
      StepDead(strict, nlen, ndist, ncode, cl, ops, have, bits, []);
    } else {
      StallOps(strict, nlen, ndist, ncode, cl, ops, have, bits);
    }
  }

  lemma NoSymbolYet(cl: seq<nat>, hold: nat, bits: nat)
    requires DecodeSym(ClLens(cl), ToBits(hold, bits)) == NeedBits && bits < MAXBITS
    ensures WaitingOp(ClLens(cl), hold, bits)
  {
  }

  /** A table whose codes all fit into the root index has no links. */
  lemma FlatFirst(cl: seq<nat>, table: seq<Entry>, root: nat, hold: nat)
    requires ClTable(cl, table, root)
    ensures Low(hold, root) < |table| && !IsLink(table[Low(hold, root)])
  {
    var lens := ClLens(cl);
    hide ClLens, Accepts, Fits, SymEntry;
    var h := Low(hold, MAXBITS);
    ShrLow(hold, MAXBITS);
    LowLow(hold, root, MAXBITS);
    assert LookupOk(Codes, lens, table, root, h);
    var r := DecodeSym(lens, ToBits(h, MAXBITS));
    if r.Sym? {
      DecodedCode(lens, ToBits(h, MAXBITS));
      LongestUsed(lens, r.sym);
    }
  }

  lemma LongestUsed(lens: Lens, s: nat)
    requires Used(lens, s)
    ensures lens[s] <= MaxLen(lens, MAXBITS)
  {
    CountPrefix(lens, s, lens[s]);
  }

  /** If a symbol was found without pulling, then it was not waited for. */
  ghost predicate LateEnough(lens: Lens, here: Entry, ahead: Bits, bits: nat, before: nat) {
    bits < here.bits + 8 || (bits == before && bits <= |ahead| && WaitingOpBits(lens, ahead[..bits]))
  }

  ghost predicate WaitingOpBits(cl: Lens, held: Bits) {
    match DecodeSym(cl, held)
    case NeedBits => false
    case NoCode => false
    case Sym(s) => s < 19 && s < |cl| && |held| < cl[s] + ExtraOf(s)
  }

  /** What the first look-up loop has found. */
  lemma Fetched(cl: seq<nat>, table: seq<Entry>, root: nat, hold: nat, bits: nat, next: seq<byte>, here: Entry,
      hold0: nat, bits0: nat)
    requires CodeLens(cl) && ClTable(cl, table, root) && hold < Pow2(bits)
    requires Low(hold, root) < |table| && here == table[Low(hold, root)] && here.bits <= bits && bits0 <= bits
    requires var ahead := ToBits(hold, bits) + ByteBits(next);
             && Waited(ClLens(cl), ahead, bits0, bits)
             && ahead[..bits0] == ToBits(hold0, bits0)
    requires bits0 < 8 || WaitingOp(ClLens(cl), hold0, bits0)
    ensures var ahead := ToBits(hold, bits) + ByteBits(next);
            && Says(Codes, ClLens(cl), DecodeSym(ClLens(cl), ahead), here, here.bits)
            && LateEnough(ClLens(cl), here, ahead, bits, bits0)
            && (here.val < 16 ==> bits < here.bits + 8)
  {
    hide ToBits, ByteBits, Pow2, CodeLens, ClLens, Accepts, Low, Shr;
    var lens, ahead := ClLens(cl), ToBits(hold, bits) + ByteBits(next);
    ClTableFacts(cl, table, root);
    FlatFirst(cl, table, root, hold);
    Found(Codes, lens, table, root, hold, bits);
    Settled(Codes, lens, hold, bits, next, here, here.bits, bits0);
    CodesDecode(cl, ToBits(hold, bits));
    assert ahead[..bits] == ToBits(hold, bits);
  }

  /** One symbol below 16, or one bit when there is no code at all. */
  lemma LengthStep(strict: bool, on: bool, base: Bits, nlen: nat, ndist: nat, ncode: nat, cl: seq<nat>, ops: seq<ClOp>,
      ops': seq<ClOp>, have: nat,
                   a: seq<nat>, w: Bits, start: Bits, more: Bits, here: Entry, table: seq<Entry>, root: nat)
    requires 257 <= nlen && 1 <= ndist && CodeLens(cl) && ValidOps(ops) && have < nlen + ndist && |a| == 320
    requires ClTable(cl, table, root) && LensRead(a, have, cl, ops) && Heard(on, w, base, nlen, ndist, cl, ops)
    requires Says(Codes, ClLens(cl), DecodeSym(ClLens(cl), start), here, here.bits) && here.val < 16
    requires ops' == if Dead(cl) then ops else ops + [LenOp(here.val)]
    requires have < 320
    ensures here.bits <= |start| && 0 < here.bits <= 7
    ensures Rest(strict, Progress(AtOps(cl, ops), nlen, ndist, ncode, have), start + more) ==
            Rest(strict, Progress(AtOps(cl, ops'), nlen, ndist, ncode, have + 1), start[here.bits..] + more)
    ensures ValidOps(ops') && LensRead(a[have := here.val], have + 1, cl, ops')
    ensures Heard(on, w + start[..here.bits], base, nlen, ndist, cl, ops')
  {
    hide Rest, CodeLens, ClLens, Accepts, Bounded, DecodeSym, OpsHead, Expand, ClTable;
    ClTableFacts(cl, table, root);
    CodesDecode(cl, start);
    if Dead(cl) {
      StepDead(strict, nlen, ndist, ncode, cl, ops, have, start, more);
    } else {
      var s, op := DecodeSym(ClLens(cl), start).sym, LenOp(here.val);
      LenOpOf(s, start, here.bits);
      StepOps(strict, nlen, ndist, ncode, cl, ops, have, have + 1, start, more);
      OpHeard(base, nlen, ndist, cl, ops, op, start, s, []);
      ExpandSnoc(ops, op);
      assert a[have := here.val][..have + 1] == a[..have] + [here.val];
      assert start[here.bits..][0..] == start[here.bits..];
      assert start[..here.bits] + [] == start[..here.bits];
      assert w + start[..here.bits] + [] == w + start[..here.bits];
    }
  }

  lemma LenOpOf(s: nat, start: Bits, n: nat)
    requires s < 16 && n <= |start|
    ensures ExtraOf(s) == 0 && start[n..][..0] == [] && OpOf(s, Val(start[n..][..0])) == LenOp(s)
    ensures OpLens([], LenOp(s)) == [s] && forall lens :: OpLens(lens, LenOp(s)) == [s]
  {
  }

  /** Recording one instruction: its code and its extra bits. */
  lemma OpHeard(base: Bits, nlen: nat, ndist: nat, cl: seq<nat>, ops: seq<ClOp>, op: ClOp, start: Bits, s: nat, w: Bits)
    requires 257 <= nlen && 1 <= ndist && CodeLens(cl) && ValidOps(ops)
    requires DecodeSym(ClLens(cl), start) == Sym(s) && s < 19 && |w| == ExtraOf(s) && op == OpOf(s, Val(w))
    ensures s < |ClLens(cl)| && ClLens(cl)[s] <= |start|
    ensures ValidOps(ops + [op])
    ensures OpsHead(base, nlen, ndist, cl, ops) + start[..ClLens(cl)[s]] + w ==
            OpsHead(base, nlen, ndist, cl, ops + [op])
  {
    hide ClLens, SizesHead, OpsBits, ClBits, DecodeSym, OpOf, Val, OpBits, SymBits, ExtraOf;
    SymSplit(ClLens(cl), start);
    OpOfBits(ClLens(cl), s, w);
    OpsBitsSnoc(ClLens(cl), ops, op);
    SymFront(ClLens(cl), start, s);
    Assoc3(SizesHead(base, nlen, ndist, |cl|, cl), OpsBits(ClLens(cl), ops), SymBits(ClLens(cl), s), w);
  }

  lemma Assoc3(a: Bits, b: Bits, c: Bits, d: Bits)
    ensures a + b + c + d == a + (b + (c + d))
  {
  }

  lemma SymFront(lens: Lens, bits: Bits, s: nat)
    requires DecodeSym(lens, bits) == Sym(s)
    ensures s < |lens| && lens[s] <= |bits| && bits[..lens[s]] == SymBits(lens, s)
  {
    DecodedCode(lens, bits);
  }

  /** The instruction a run makes. */
  function RunOp(here: Entry, start: Bits, n: nat): ClOp
    requires here.bits + n <= |start|
  {
    OpOf(here.val, Val(start[here.bits..][..n]))
  }

  lemma RepeatSymbol(cl: seq<nat>, table: seq<Entry>, root: nat, ahead: Bits, here: Entry)
    requires CodeLens(cl) && ClTable(cl, table, root)
    requires Says(Codes, ClLens(cl), DecodeSym(ClLens(cl), ahead), here, here.bits) && here.val >= 16
    ensures !Dead(cl) && DecodeSym(ClLens(cl), ahead) == Sym(here.val) && here.val < 19
    ensures 0 < here.bits == ClLens(cl)[here.val] <= 7 && here.bits <= |ahead| && Fits(ClLens(cl))
    ensures ExtraOf(here.val) == if here.val == 16 then 2 else if here.val == 17 then 3 else 7
  {
    hide CodeLens, ClLens, Accepts, Bounded, DecodeSym, ClTable, Fits;
    ClTableFacts(cl, table, root);
    AcceptedFits(Codes, ClLens(cl));
    CodesDecode(cl, ahead);
  }

  lemma StallRun(strict: bool, nlen: nat, ndist: nat, ncode: nat, cl: seq<nat>, ops: seq<ClOp>, have: nat, a: seq<nat>,
      bits: Bits, here: Entry, n: nat)
    requires have < nlen + ndist && LensRead(a, have, cl, ops) && !Dead(cl)
    requires DecodeSym(ClLens(cl), bits) == Sym(here.val) && here.val < 19 && ClLens(cl)[here.val] == here.bits
    requires here.bits <= |bits| < here.bits + n && n == ExtraOf(here.val)
    ensures Rest(strict, Progress(AtOps(cl, ops), nlen, ndist, ncode, have), bits) == Short
  {
    hide Rest, ClLens, Expand, DecodeSym, Dead;
    StallOps(strict, nlen, ndist, ncode, cl, ops, have, bits);
  }

  lemma RunWaits(cl: seq<nat>, hold: nat, bits: nat, here: Entry, n: nat)
    requires DecodeSym(ClLens(cl), ToBits(hold, bits)) == Sym(here.val) && here.val < 19 && n == ExtraOf(here.val)
    requires here.bits == ClLens(cl)[here.val] <= 7 && bits < here.bits + n
    ensures WaitingOp(ClLens(cl), hold, bits)
  {
  }

  /** Fewer than 8 bits are left after a run. */
  lemma RunLeftover(lens: Lens, here: Entry, ahead: Bits, held: nat, before: nat, bits: nat, n: nat)
    requires LateEnough(lens, here, ahead, held, before) && held <= |ahead| && here.val < |lens|
    requires here.bits == lens[here.val] <= held && n == ExtraOf(here.val)
    requires DecodeSym(lens, ahead) == Sym(here.val) && Fits(lens)
    requires here.bits + n <= bits && (bits == held || bits < here.bits + n + 8)
    ensures bits < here.bits + n + 8
  {
    hide ExtraOf, Fits, CodeBits;
    if bits == held && held >= here.bits + 8 {
      var front := ahead[..held];
      assert ahead == front + ahead[held..];
      DecodedCode(lens, ahead);
      MatchEarly(lens, here.val, front, ahead[held..]);
      DecodeCode(lens, here.val, front);
    }
  }

  lemma LensReadNow(a: seq<nat>, have: nat, cl: seq<nat>, ops: seq<ClOp>)
    requires have <= |a| && !Dead(cl) && a[..have] == Expand(ops)
    ensures LensRead(a, have, cl, ops)
  {
  }

  /** One run of code lengths. */
  lemma RunStep(strict: bool, on: bool, base: Bits, nlen: nat, ndist: nat, ncode: nat, cl: seq<nat>, ops: seq<ClOp>,
      have: nat, a: seq<nat>, w: Bits,
                start: Bits, more: Bits, here: Entry, n: nat, table: seq<Entry>, root: nat)
    requires 257 <= nlen && 1 <= ndist && CodeLens(cl) && ValidOps(ops) && have < nlen + ndist && |a| == 320
    requires ClTable(cl, table, root) && LensRead(a, have, cl, ops) && Heard(on, w, base, nlen, ndist, cl, ops)
    requires Says(Codes, ClLens(cl), DecodeSym(ClLens(cl), start), here, here.bits) && here.val >= 16
    requires n == if here.val == 16 then 2 else if here.val == 17 then 3 else 7
    requires here.bits + n <= |start|
    ensures var v := Val(start[here.bits..][..n]);
            var copy := (if here.val <= 17 then 3 else 11) + v;
            var len := if here.val == 16 && have > 0 then a[have - 1] else 0;
            var op := RunOp(here, start, n);
            && ValidOps(ops + [op]) && here.bits + n <= 7 * copy
            && Rest(strict, Progress(AtOps(cl, ops), nlen, ndist, ncode, have), start + more) ==
               (if (here.val == 16 && have == 0) || have + copy > nlen + ndist then Bad
                else Rest(strict, Progress(AtOps(cl, ops + [op]), nlen, ndist, ncode, have + copy),
                    start[here.bits..][n..] + more))
            && Heard(on, w + start[..here.bits] + start[here.bits..][..n], base, nlen, ndist, cl, ops + [op])
            && !Dead(cl) && Expand(ops + [op]) == a[..have] + Repeated(len, copy)
  {
    hide Rest, CodeLens, ClLens, Accepts, Bounded, DecodeSym, OpsHead, Expand, ClTable, Val, Dead;
    RepeatSymbol(cl, table, root, start, here);
    ClTableFacts(cl, table, root);
    var op, v := RunOp(here, start, n), Val(start[here.bits..][..n]);
    var copy := (if here.val <= 17 then 3 else 11) + v;
    StepOps(strict, nlen, ndist, ncode, cl, ops, have, have + copy, start, more);
    OpHeard(base, nlen, ndist, cl, ops, op, start, here.val, start[here.bits..][..n]);
    ExpandSnoc(ops, op);
  }

  lemma {:induction false} ExpandBounded(ops: seq<ClOp>)
    requires ValidOps(ops)
    ensures Bounded(Expand(ops))
  {
    if ops != [] {
      var init, op := ops[..|ops| - 1], ops[|ops| - 1];
      ExpandBounded(init);
      assert Expand(ops) == Expand(init) + OpLens(Expand(init), op);
      assert ValidOp(op);
    }
  }

  /** The two codes a header declares, in the array of code lengths. */
  lemma LensSplit(h: Header, have: nat, a: seq<nat>, lc: Lens, dc: Lens)
    requires 257 <= h.nlen <= 288 && 1 <= h.ndist <= 32 && CodeLens(h.cl) && ValidOps(h.ops)
    requires have == h.nlen + h.ndist <= |a| && LensRead(a, have, h.cl, h.ops)
    requires lc == a[..h.nlen] && dc == a[h.nlen..have]
    ensures ValidHeader(h) && Declared(h, lc, dc)
    ensures if Dead(h.cl) then have >= h.nlen + h.ndist else |Expand(h.ops)| >= h.nlen + h.ndist
  {
    hide Expand, Dead;
    var b := a[..have];
    assert b == lc + dc;
    if Dead(h.cl) {
      assert forall i :: 0 <= i < |b| ==> b[i] == 0;
    } else {
      ExpandBounded(h.ops);
    }
    assert Bounded(b);
    BoundedHalves(lc, dc);
  }

  lemma BoundedHalves(a: Lens, b: Lens)
    requires Bounded(a + b)
    ensures Bounded(a) && Bounded(b)
  {
    forall i | 0 <= i < |a|
      ensures a[i] <= MAXBITS
    {
      assert (a + b)[i] == a[i];
    }
    forall i | 0 <= i < |b|
      ensures b[i] <= MAXBITS
    {
      assert (a + b)[|a| + i] == b[i];
    }
  }

  lemma DeclaredSizes(h: Header, lc: Lens, dc: Lens)
    requires Declared(h, lc, dc)
    ensures |lc| == h.nlen && |dc| == h.ndist && 257 <= |lc| && Bounded(lc) && Bounded(dc)
  {
  }

  /** The checks at the end of a header are those on its two codes. */
  lemma DeclaredAccepts(h: Header, lc: Lens, dc: Lens)
    requires ValidHeader(h) && Declared(h, lc, dc)
    ensures !Dead(h.cl) && AcceptsHeader(h) <==> lc[256] != 0 && Accepts(LenCodes, lc) && Accepts(DistCodes, dc)
    ensures !Dead(h.cl) ==> |Expand(h.ops)| == h.nlen + h.ndist && Bounded(Expand(h.ops))
    ensures !Dead(h.cl) ==> LitLens(h) == lc && DistLens(h) == dc
  {
    hide Accepts, Dead, Expand;
    if !Dead(h.cl) {
      assert (lc + dc)[..h.nlen] == lc && (lc + dc)[h.nlen..] == dc;
      assert (lc + dc)[256] == lc[256];
      BoundedWhole(lc, dc);
    }
  }

  lemma BoundedWhole(a: Lens, b: Lens)
    requires Bounded(a) && Bounded(b)
    ensures Bounded(a + b)
  {
  }
}
