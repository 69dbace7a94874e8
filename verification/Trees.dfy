/**
  The block writers of trees.c: send_code, send_tree, send_all_trees, compress_block, the stored block
  and _tr_flush_block_my.
 */
module Trees {
  import opened Bits
  import opened Huffman
  import opened TableSpec
  import opened Format
  import opened FormatLemmas
  import opened LengthCodes
  import opened RunLength
  import opened RoundTrip
  import opened EncoderSpec
  import opened Overlay
  import opened BitWriting

  // ----- one code -----

  /** An entry of the encoder's tree spells the symbol's code; without a code it spells nothing. */
  lemma TreeEntry(lens: Lens, tree: seq<TreeCode>, c: nat)
    requires TreeFor(lens, tree) && c < |tree|
    ensures tree[c].len <= 15 && tree[c].code < Pow2(tree[c].len)
    ensures ToBits(tree[c].code, tree[c].len) == SymBits(lens, c)
  {
    hide Pow2, CodeBits;
    if Used(lens, c) {
      ValBound(CodeBits(lens, c));
      ToBitsVal(CodeBits(lens, c));
    } else {
      assert Pow2(0) == 1 by { Pow2Small(); }
    }
  }

  /** send_code */
  method SendCode(w: BitWriter, tree: seq<TreeCode>, c: nat, ghost lens: Lens)
    requires w.Valid() && w.first == 0 && TreeFor(lens, tree) && c < |tree|
    requires |w.Written()| + |SymBits(lens, c)| <= 8 * w.buf.Length + 7
    modifies w`have, w`biBuf, w`biValid, w.buf
    ensures w.Valid() && w.Written() == old(w.Written()) + SymBits(lens, c) && Grown(old(w.Fill()), w.Fill())
  {
    hide *;
    TreeEntry(lens, tree, c);
    w.SendBits(tree[c].code, tree[c].len);
  }

  // ----- send_tree -----

  /** What send_tree writes for `k` equal lengths `v` once it stops counting. */
  function ChunkOps(v: nat, k: nat, again: bool): seq<ClOp>
    requires k > 0
  {
    if k < (if v == 0 || again then 3 else 4) then LenOps(v, k)
    else if v != 0 then if again then [RepeatOp(k)] else [LenOp(v), RepeatOp(k - 1)]
    else if k <= 10 then [ZerosOp(k)]
    else [ManyZerosOp(k)]
  }

  /** How far send_tree counts. */
  function MaxCount(v: nat, again: bool): nat {
    if v == 0 then 138 else if again then 6 else 7
  }

  /** Counting stops when the run ends or the count is full; the rest of a full run is coded after it. */
  lemma ChunkRle(s: seq<nat>, again: bool, k: nat)
    requires 0 < k <= |s| && k <= MaxCount(s[0], again) && (forall i :: 0 <= i < k ==> s[i] == s[0])
    requires again ==> s[0] != 0
    requires k == MaxCount(s[0], again) || (if k < |s| then s[k] != s[0] else s[0] != 0)
    ensures RleFrom(s, again) == ChunkOps(s[0], k, again) + RleFrom(s[k..], k < |s| && s[k] == s[0] && s[0] != 0)
  {
    hide *;
    var r := Run(s);
    RunAtLeast(s, k);
    RleUnfold(s, again);
    RunOpsCode(s, again);
    if k < r {
      RunShift(s, k);
      DropDrop(s, k, r);
      RleUnfold(s[k..], s[0] != 0);
      RunOpsCode(s[k..], s[0] != 0);
      FullChunk(s[0], r, k, r == |s|, again);
      Assoc(ChunkOps(s[0], k, again), RunOps(s[k..], s[0] != 0), RleFrom(s[r..], false));
    } else {
      LastChunk(s[0], k, k == |s|, again);
    }
  }

  lemma DropDrop(s: seq<nat>, k: nat, r: nat)
    requires k <= r <= |s|
    ensures |s[k..]| == |s| - k && s[k..][r - k..] == s[r..]
  {
  }

  lemma RunAtLeast(s: seq<nat>, k: nat)
    requires 0 < k <= |s| && forall i :: 0 <= i < k ==> s[i] == s[0]
    ensures k <= Run(s) && (k < |s| && s[k] != s[0] ==> Run(s) == k)
  {
  }

  lemma RunShift(s: seq<nat>, k: nat)
    requires s != [] && k < Run(s)
    ensures Run(s[k..]) == Run(s) - k && s[k..][0] == s[0] == s[k]
  {
    var t := s[k..];
    assert forall i :: 0 <= i < |t| ==> t[i] == s[k + i];
    assert t[0] == s[0];
  }

  /** The instructions of a run of `r` lengths. */
  function RunCode(v: nat, r: nat, atEnd: bool, again: bool): seq<ClOp>
    requires r > 0
  {
    if v == 0 then ZeroOps(r, atEnd)
    else if again then RepeatOps(v, r)
    else [LenOp(v)] + RepeatOps(v, r - 1)
  }

  lemma RunOpsCode(s: seq<nat>, again: bool)
    requires s != []
    ensures RunOps(s, again) == RunCode(s[0], Run(s), Run(s) == |s|, again)
  {
    hide Run, ZeroOps, RepeatOps;
  }

  lemma FullChunk(v: nat, r: nat, k: nat, atEnd: bool, again: bool)
    requires 0 < k < r && k == MaxCount(v, again)
    ensures RunCode(v, r, atEnd, again) == ChunkOps(v, k, again) + RunCode(v, r - k, atEnd, v != 0)
  {
  }

  lemma LastChunk(v: nat, k: nat, atEnd: bool, again: bool)
    requires 0 < k <= MaxCount(v, again) && (v == 0 && atEnd ==> k == MaxCount(v, again)) && (again ==> v != 0)
    ensures RunCode(v, k, atEnd, again) == ChunkOps(v, k, again)
  {
    assert LenOps(v, 0) == [] && ZeroOps(0, atEnd) == [];
    if v != 0 && !again {
      LastFresh(v, k);
    } else if v != 0 {
      assert RepeatOps(v, 0) == [];
      assert k == 6 ==> RepeatOps(v, k) == [RepeatOp(6)] + RepeatOps(v, 0) == [RepeatOp(6)];
    } else {
      assert k == 138 ==> ZeroOps(k, atEnd) == [ManyZerosOp(138)] + ZeroOps(0, atEnd) == [ManyZerosOp(138)];
    }
  }

  lemma LastFresh(v: nat, k: nat)
    requires 0 < k <= 7 && v != 0
    ensures [LenOp(v)] + RepeatOps(v, k - 1) == ChunkOps(v, k, false)
  {
    assert RepeatOps(v, 0) == [];
    if k < 4 {
      assert RepeatOps(v, k - 1) == LenOps(v, k - 1);
      assert [LenOp(v)] + LenOps(v, k - 1) == LenOps(v, k);
    } else {
      assert RepeatOps(v, k - 1) == [RepeatOp(k - 1)];
    }
  }

  /** send_code and the extra bits of one instruction. */
  method SendOp(w: BitWriter, blTree: seq<TreeCode>, ghost op: ClOp, sym: nat, extra: nat, n: nat, ghost cl: Lens)
    requires w.Valid() && w.first == 0 && TreeFor(cl, blTree) && 19 <= |blTree|
    requires ValidOp(op) && sym == OpSym(op) < 19 && OpExtra(op) == ToBits(extra, n) && n <= 7 && extra < Pow2(n)
    requires |w.Written()| + |OpBits(cl, op)| <= 8 * w.buf.Length + 7
    modifies w`have, w`biBuf, w`biValid, w.buf
    ensures w.Valid() && w.Written() == old(w.Written()) + OpBits(cl, op) && Grown(old(w.Fill()), w.Fill())
  {
    hide *;
    OpBitsIs(cl, op);
    SendCode(w, blTree, sym, cl);
    if n != 0 {
      ghost var coded := w.Fill();
      w.SendBits(extra, n);
      GrownOn(old(w.Fill()), coded, w.Fill());
    }
    NoBitsLeft(extra);
    Assoc(old(w.Written()), SymBits(cl, sym), OpExtra(op));
    NothingAdded(old(w.Written()) + SymBits(cl, sym));
  }

  lemma OpBitsIs(cl: Lens, op: ClOp)
    requires ValidOp(op)
    ensures OpBits(cl, op) == SymBits(cl, OpSym(op)) + OpExtra(op)
  {
  }

  lemma NoBitsLeft(v: nat)
    ensures ToBits(v, 0) == []
  {
  }

  lemma NothingAdded(b: Bits)
    ensures b + [] == b
  {
  }

  /** The branches of send_tree that write a finished count. */
  method SendChunk(w: BitWriter, blTree: seq<TreeCode>, curlen: nat, prevlen: int, count: nat, minCount: nat,
      ghost cl: Lens)
    requires w.Valid() && w.first == 0 && TreeFor(cl, blTree) && 19 <= |blTree|
    requires curlen <= 15 && 0 < count <= (if curlen == 0 then 138 else if curlen == prevlen then 6 else 7)
    requires minCount == if curlen == 0 || curlen == prevlen then 3 else 4
    requires var ops := ChunkOps(curlen, count, curlen != 0 && curlen == prevlen);
             ValidOps(ops) && |w.Written()| + |OpsBits(cl, ops)| <= 8 * w.buf.Length + 7
    modifies w`have, w`biBuf, w`biValid, w.buf
    ensures w.Valid() && Grown(old(w.Fill()), w.Fill())
    ensures ValidOps(ChunkOps(curlen, count, curlen != 0 && curlen == prevlen))
    ensures w.Written() == old(w.Written()) + OpsBits(cl, ChunkOps(curlen, count, curlen != 0 && curlen == prevlen))
  {
    hide *;
    ghost var start := w.Written();
    ChunkForms(cl, curlen, count, curlen != 0 && curlen == prevlen);
    if count < minCount {
      SendLens(w, blTree, curlen, count, cl);
    } else if curlen != 0 {
      if curlen != prevlen {
        SendOp(w, blTree, LenOp(curlen), curlen, 0, 0, cl);
        ghost var once := w.Fill();
        SendOp(w, blTree, RepeatOp(count - 1), 16, count - 1 - 3, 2, cl);
        GrownOn(old(w.Fill()), once, w.Fill());
        Assoc(start, OpBits(cl, LenOp(curlen)), OpBits(cl, RepeatOp(count - 1)));
      } else {
        SendOp(w, blTree, RepeatOp(count), 16, count - 3, 2, cl);
      }
    } else if count <= 10 {
      SendOp(w, blTree, ZerosOp(count), 17, count - 3, 3, cl);
    } else {
      SendOp(w, blTree, ManyZerosOp(count), 18, count - 11, 7, cl);
    }
  }

  lemma ChunkForms(cl: Lens, v: nat, k: nat, again: bool)
    requires v <= 15 && 0 < k <= (if v == 0 then 138 else if again then 6 else 7) && (again ==> v != 0)
    ensures ValidOps(ChunkOps(v, k, again)) && ValidOps(LenOps(v, k))
    ensures MaxCount(v, again) == if v == 0 then 138 else if again then 6 else 7
    ensures k < (if v == 0 || again then 3 else 4) ==> ChunkOps(v, k, again) == LenOps(v, k)
    ensures ValidOp(LenOp(v)) && OpSym(LenOp(v)) == v && OpExtra(LenOp(v)) == ToBits(0, 0) && 0 < Pow2(0)
    ensures 3 <= k <= 6 ==>
                && ValidOp(RepeatOp(k))
                && OpSym(RepeatOp(k)) == 16
                && OpExtra(RepeatOp(k)) == ToBits(k - 3, 2)
                && k - 3 < Pow2(2)
    ensures 4 <= k <= 7 ==>
                && ValidOp(RepeatOp(k - 1))
                && OpSym(RepeatOp(k - 1)) == 16
                && OpExtra(RepeatOp(k - 1)) == ToBits(k - 1 - 3, 2)
                && k - 1 - 3 < Pow2(2)
    ensures 3 <= k <= 10 ==>
                && ValidOp(ZerosOp(k))
                && OpSym(ZerosOp(k)) == 17
                && OpExtra(ZerosOp(k)) == ToBits(k - 3, 3)
                && k - 3 < Pow2(3)
    ensures 11 <= k <= 138 ==>
                && ValidOp(ManyZerosOp(k))
                && OpSym(ManyZerosOp(k)) == 18
                && OpExtra(ManyZerosOp(k)) == ToBits(k - 11, 7)
                && k - 11 < Pow2(7)
    ensures v != 0 && again && k >= 3 ==> OpsBits(cl, ChunkOps(v, k, again)) == OpBits(cl, RepeatOp(k))
    ensures v != 0 && !again && k >= 4 ==>
                OpsBits(cl, ChunkOps(v, k, again)) == OpBits(cl, LenOp(v)) + OpBits(cl, RepeatOp(k - 1))
    ensures v == 0 && 3 <= k <= 10 ==> OpsBits(cl, ChunkOps(v, k, again)) == OpBits(cl, ZerosOp(k))
    ensures v == 0 && 11 <= k ==> OpsBits(cl, ChunkOps(v, k, again)) == OpBits(cl, ManyZerosOp(k))
  {
    Pow2Small();
    hide OpBits, Pow2, ToBits;
    if v != 0 && again && 3 <= k {
      OneOp(cl, RepeatOp(k));
    }
    if v != 0 && !again && 4 <= k {
      TwoOps(cl, LenOp(v), RepeatOp(k - 1));
    }
    if v == 0 && 3 <= k <= 10 {
      OneOp(cl, ZerosOp(k));
    }
    if v == 0 && 11 <= k {
      OneOp(cl, ManyZerosOp(k));
    }
  }

  lemma OneOp(cl: Lens, op: ClOp)
    requires ValidOp(op)
    ensures OpsBits(cl, [op]) == OpBits(cl, op)
  {
    OpsBitsCons(cl, op, []);
    OpsBitsNil(cl);
    assert [op] + [] == [op];
    NothingAdded(OpBits(cl, op));
  }

  lemma TwoOps(cl: Lens, p: ClOp, q: ClOp)
    requires ValidOp(p) && ValidOp(q)
    ensures OpsBits(cl, [p, q]) == OpBits(cl, p) + OpBits(cl, q)
  {
    OneOp(cl, q);
    OpsBitsCons(cl, p, [q]);
    assert [p] + [q] == [p, q];
  }

  /** `do { send_code(curlen) } while (--count != 0)` */
  method SendLens(w: BitWriter, blTree: seq<TreeCode>, curlen: nat, count: nat, ghost cl: Lens)
    requires w.Valid() && w.first == 0 && TreeFor(cl, blTree) && 19 <= |blTree| && curlen <= 15
    requires ValidOps(LenOps(curlen, count))
    requires |w.Written()| + |OpsBits(cl, LenOps(curlen, count))| <= 8 * w.buf.Length + 7
    modifies w`have, w`biBuf, w`biValid, w.buf
    ensures w.Valid() && w.Written() == old(w.Written()) + OpsBits(cl, LenOps(curlen, count))
    ensures Grown(old(w.Fill()), w.Fill())
  {
    hide *;
    w.FillSame();
    var i := 0;
    LenOpsMore(cl, curlen, 0);
    NothingAdded(w.Written());
    while i < count
      invariant i <= count && w.Valid() && ValidOps(LenOps(curlen, i)) && Grown(old(w.Fill()), w.Fill())
      invariant w.Written() == old(w.Written()) + OpsBits(cl, LenOps(curlen, i))
    {
      LenOpsMore(cl, curlen, i);
      LenOpsUpTo(cl, curlen, i + 1, count);
      Assoc(old(w.Written()), OpsBits(cl, LenOps(curlen, i)), OpBits(cl, LenOp(curlen)));
      ghost var before := w.Fill();
      SendOp(w, blTree, LenOp(curlen), curlen, 0, 0, cl);
      GrownOn(old(w.Fill()), before, w.Fill());
      i := i + 1;
    }
  }

  lemma LenOpsMore(cl: Lens, v: nat, i: nat)
    requires v <= 15
    ensures ValidOps(LenOps(v, i)) && ValidOps(LenOps(v, i + 1)) && ValidOp(LenOp(v)) && OpSym(LenOp(v)) == v
    ensures OpsBits(cl, LenOps(v, i + 1)) == OpsBits(cl, LenOps(v, i)) + OpBits(cl, LenOp(v))
    ensures OpExtra(LenOp(v)) == ToBits(0, 0) && 0 < Pow2(0)
    ensures i == 0 ==> OpsBits(cl, LenOps(v, i)) == []
  {
    hide OpBits;
    assert LenOps(v, i + 1) == LenOps(v, i) + [LenOp(v)];
    OpsBitsSnoc(cl, LenOps(v, i), LenOp(v));
    OpsBitsNil(cl);
    assert LenOps(v, 0) == [];
  }

  lemma {:induction false} LenOpsUpTo(cl: Lens, v: nat, i: nat, n: nat)
    requires i <= n && v <= 15
    ensures ValidOps(LenOps(v, i)) && ValidOps(LenOps(v, n))
    ensures |OpsBits(cl, LenOps(v, i))| <= |OpsBits(cl, LenOps(v, n))|
  {
    hide OpBits;
    if i < n {
      LenOpsUpTo(cl, v, i, n - 1);
      LenOpsMore(cl, v, n - 1);
    }
  }

  /** Zeros at the very end are never written. */
  lemma ZeroTail(s: seq<nat>, again: bool)
    requires |s| < 138 && forall i :: 0 <= i < |s| ==> s[i] == 0
    ensures RleFrom(s, again) == []
  {
    if s != [] {
      RunAtLeast(s, |s|);
      RleUnfold(s, again);
      RleNil(false);
    }
  }

  /** Splitting the instructions into those written, the next and the rest. */
  lemma OpsParts(cl: Lens, all: seq<ClOp>, done: seq<ClOp>, now: seq<ClOp>, rest: seq<ClOp>)
    requires ValidOps(all) && all == done + (now + rest)
    ensures ValidOps(done) && ValidOps(now) && ValidOps(done + now) && all == (done + now) + rest
    ensures OpsBits(cl, done + now) == OpsBits(cl, done) + OpsBits(cl, now)
    ensures |OpsBits(cl, done)| + |OpsBits(cl, now)| <= |OpsBits(cl, all)|
  {
    hide ValidOp, OpsBits;
    PartsValid(done, now + rest);
    PartsValid(now, rest);
    OpsBitsAppend(cl, now, rest);
    OpsBitsAppend(cl, done, now + rest);
    OpsBitsAppend(cl, done, now);
    Assoc(done, now, rest);
  }

  lemma PartsValid(a: seq<ClOp>, b: seq<ClOp>)
    requires ValidOps(a + b)
    ensures ValidOps(a) && ValidOps(b)
  {
    forall op | op in a
      ensures ValidOp(op)
    {
      assert op in a + b;
    }
    forall op | op in b
      ensures ValidOp(op)
    {
      assert op in a + b;
    }
  }

  /** The lengths of a tree, with the guard after them. */
  ghost predicate Guarded(tree: seq<TreeCode>, lens: seq<nat>) {
    && 0 < |lens| < |tree| && tree[|lens|].len == 0
    && forall i :: 0 <= i < |lens| ==> tree[i].len == lens[i] <= 15
  }

  /** `count` lengths equal to `nextlen` have been counted before position `n`. */
  ghost predicate Counted(lens: seq<nat>, n: nat, count: nat, nextlen: nat) {
    count <= n <= |lens| && forall j :: n - count <= j < n ==> lens[j] == nextlen
  }

  /** What is still to be written when counting started `count` lengths ago. */
  function StillCounted(lens: seq<nat>, n: nat, count: nat, nextlen: nat, prevlen: int): seq<ClOp>
    requires count <= n <= |lens|
  {
    RleFrom(lens[n - count..], nextlen != 0 && prevlen == nextlen)
  }

  /** send_tree */
  method SendTree(w: BitWriter, tree: seq<TreeCode>, maxCode: nat, blTree: seq<TreeCode>, ghost cl: Lens,
      ghost lens: seq<nat>)
    requires w.Valid() && w.first == 0 && TreeFor(cl, blTree) && 19 <= |blTree|
    requires |lens| == maxCode + 1 && Guarded(tree, lens)
    requires ValidOps(Rle(lens)) && |w.Written()| + |OpsBits(cl, Rle(lens))| <= 8 * w.buf.Length + 7
    modifies w`have, w`biBuf, w`biValid, w.buf
    ensures w.Valid() && w.Written() == old(w.Written()) + OpsBits(cl, Rle(lens)) && Grown(old(w.Fill()), w.Fill())
  {
    hide *;
    w.FillSame();
    ghost var done: seq<ClOp> := [];
    var prevlen: int := -1;
    var nextlen, count, maxCount, minCount := LenAt(tree, lens, 0), 0, 7, 4;
    if nextlen == 0 {
      maxCount, minCount := 138, 3;
    }
    StartTree(cl, lens, nextlen);
    NothingAdded(w.Written());
    var n := 0;
    while n <= maxCode
      invariant n <= maxCode + 1 && nextlen == LenAt(tree, lens, n) && Counted(lens, n, count, nextlen)
      invariant count <= n && count < maxCount
      invariant maxCount == if nextlen == 0 then 138 else if prevlen == nextlen then 6 else 7
      invariant minCount == if nextlen == 0 || prevlen == nextlen then 3 else 4
      invariant w.Valid() && ValidOps(done) && w.Written() == old(w.Written()) + OpsBits(cl, done)
      invariant Grown(old(w.Fill()), w.Fill())
      invariant done + StillCounted(lens, n, count, nextlen, prevlen) == Rle(lens)
    {
      var curlen := nextlen;
      nextlen := LenAt(tree, lens, n + 1);
      count := count + 1;
      CountOne(tree, lens, n, count, curlen, prevlen);
      n := n + 1;
      if count < maxCount && curlen == nextlen {
        continue;
      }
      ghost var again := curlen != 0 && prevlen == curlen;
      ghost var ops := ChunkOps(curlen, count, again);
      ChunkDone(tree, lens, n, count, curlen, nextlen, prevlen);
      OpsParts(cl, Rle(lens), done, ops, StillCounted(lens, n, 0, nextlen, curlen));
      Assoc(old(w.Written()), OpsBits(cl, done), OpsBits(cl, ops));
      ghost var before := w.Fill();
      SendChunk(w, blTree, curlen, prevlen, count, minCount, cl);
      GrownOn(old(w.Fill()), before, w.Fill());
      done := done + ops;
      count := 0;
      prevlen := curlen;
      if nextlen == 0 {
        maxCount, minCount := 138, 3;
      } else if curlen == nextlen {
        maxCount, minCount := 6, 3;
      } else {
        maxCount, minCount := 7, 4;
      }
      CountNone(lens, n, nextlen);
    }
    NothingPending(tree, lens, n, count, nextlen, prevlen);
    assert done + [] == done;
  }

  /** tree[n].Len */
  function LenAt(tree: seq<TreeCode>, ghost lens: seq<nat>, n: nat): nat
    requires Guarded(tree, lens) && n <= |lens|
  {
    tree[n].len
  }

  lemma StartTree(cl: Lens, lens: seq<nat>, nextlen: nat)
    ensures Counted(lens, 0, 0, nextlen) && ValidOps([]) && OpsBits(cl, []) == []
    ensures [] + StillCounted(lens, 0, 0, nextlen, -1) == Rle(lens)
  {
    hide RleFrom;
    OpsBitsNil(cl);
    assert lens[0..] == lens;
  }

  lemma CountOne(tree: seq<TreeCode>, lens: seq<nat>, n: nat, count: nat, curlen: nat, prevlen: int)
    requires Guarded(tree, lens) && n < |lens| && count > 0 && Counted(lens, n, count - 1, curlen)
    requires curlen == LenAt(tree, lens, n)
    ensures Counted(lens, n + 1, count, curlen) && lens[n] == curlen <= 15
    ensures StillCounted(lens, n + 1, count, curlen, prevlen) == StillCounted(lens, n, count - 1, curlen, prevlen)
  {
    hide RleFrom;
  }

  lemma CountNone(lens: seq<nat>, n: nat, nextlen: nat)
    requires n <= |lens|
    ensures Counted(lens, n, 0, nextlen)
  {
  }

  /** A finished count, by ChunkRle. */
  lemma ChunkDone(tree: seq<TreeCode>, lens: seq<nat>, n: nat, count: nat, curlen: nat, nextlen: nat, prevlen: int)
    requires Guarded(tree, lens) && 0 < count <= n <= |lens| && Counted(lens, n, count, curlen)
    requires nextlen == LenAt(tree, lens, n)
    requires var max := if curlen == 0 then 138 else if prevlen == curlen then 6 else 7;
             count <= max && (count == max || curlen != nextlen)
    ensures StillCounted(lens, n, count, curlen, prevlen) ==
            ChunkOps(curlen, count, curlen != 0 && prevlen == curlen) + StillCounted(lens, n, 0, nextlen, curlen)
    ensures curlen <= 15
  {
    hide RleFrom, ChunkOps;
    var s := lens[n - count..];
    assert s[0] == curlen;
    assert s[count..] == lens[n..];
    ChunkRle(s, curlen != 0 && prevlen == curlen, count);
    if n == |lens| {
      RleNil(false);
      RleNil(nextlen != 0 && curlen == nextlen);
    }
  }

  lemma NothingPending(tree: seq<TreeCode>, lens: seq<nat>, n: nat, count: nat, nextlen: nat, prevlen: int)
    requires Guarded(tree, lens) && n == |lens| && count < 138 && Counted(lens, n, count, nextlen)
    requires nextlen == LenAt(tree, lens, n)
    ensures StillCounted(lens, n, count, nextlen, prevlen) == []
  {
    hide RleFrom;
    ZeroTail(lens[n - count..], nextlen != 0 && prevlen == nextlen);
  }

  // ----- send_all_trees -----

  /** A tree built for bounded lengths holds them, followed by the guard. */
  lemma TreeGuarded(lens: Lens, tree: seq<TreeCode>)
    requires TreeFor(lens, tree) && Bounded(lens) && 0 < |lens| < |tree|
    ensures Guarded(tree, lens)
  {
    hide Huff;
  }

  lemma ClLenBits(cl: seq<nat>, tree: seq<TreeCode>, i: nat)
    requires TreeFor(ClLens(cl), tree) && 19 <= |tree| && i < |cl| <= 19 && forall v :: v in cl ==> v < 8
    ensures ORDER[i] < |tree| && tree[ORDER[i]].len == cl[i] < 8
    ensures ClBits(cl[..i]) + ToBits(cl[i], 3) == ClBits(cl[..i + 1])
    ensures |ClBits(cl[..i])| == 3 * i
  {
    ClLenAt(cl, i, 0);
    hide Huff, ORDER, ClLenOf;
    ClBitsSnoc(cl[..i], cl[i]);
    assert cl[..i + 1] == cl[..i] + [cl[i]];
    assert cl[i] in cl;
  }

  /** The bits send_all_trees writes, from the trees alone. */
  lemma ResentBits(h: Header)
    requires ValidHeader(h) && AcceptsHeaderLens(h)
    ensures ValidHeader(Resent(h)) && ValidOps(Rle(LitLens(h))) && ValidOps(Rle(DistLens(h)))
    ensures HeaderBits(Resent(h)) ==
            SizesBits(h.nlen, h.ndist, |h.cl|) + ClBits(h.cl) + (OpsBits(ClLens(h.cl), Rle(LitLens(h))) +
                OpsBits(ClLens(h.cl), Rle(DistLens(h))))
  {
    ResentValid(h);
    hide OpsBits, ClBits, SizesBits, Rle, Expand, ClLens, ValidOp;
    PartsValid(Rle(LitLens(h)), Rle(DistLens(h)));
    OpsBitsAppend(ClLens(h.cl), Rle(LitLens(h)), Rle(DistLens(h)));
  }

  /** The three numbers at the start of a dynamic header. */
  method SendSizes(w: BitWriter, lcodes: nat, dcodes: nat, blcodes: nat)
    requires w.Valid() && w.first == 0
    requires 257 <= lcodes <= 288 && 1 <= dcodes <= 32 && 4 <= blcodes <= 19
    requires |w.Written()| + 14 <= 8 * w.buf.Length + 7
    modifies w`have, w`biBuf, w`biValid, w.buf
    ensures w.Valid() && w.Written() == old(w.Written()) + SizesBits(lcodes, dcodes, blcodes)
    ensures Grown(old(w.Fill()), w.Fill())
  {
    hide *;
    SmallPowers();
    SizesAre(w.Written(), lcodes, dcodes, blcodes);
    ghost var start := w.Fill();
    w.SendBits(lcodes - 257, 5);
    ghost var one := w.Fill();
    w.SendBits(dcodes - 1, 5);
    ghost var two := w.Fill();
    w.SendBits(blcodes - 4, 4);
    GrownOn(start, one, two);
    GrownOn(start, two, w.Fill());
  }

  lemma SmallPowers()
    ensures Pow2(3) == 8 && Pow2(4) == 16 && Pow2(5) == 32
  {
    Pow2Small();
  }

  /** The loop over bl_order. */
  method SendClLens(w: BitWriter, blTree: seq<TreeCode>, blcodes: nat, ghost cl: seq<nat>)
    requires w.Valid() && w.first == 0 && blcodes == |cl| <= 19 && forall v :: v in cl ==> v < 8
    requires TreeFor(ClLens(cl), blTree) && 19 <= |blTree|
    requires |w.Written()| + |ClBits(cl)| <= 8 * w.buf.Length + 7 && |ClBits(cl)| == 3 * |cl|
    modifies w`have, w`biBuf, w`biValid, w.buf
    ensures w.Valid() && w.Written() == old(w.Written()) + ClBits(cl) && Grown(old(w.Fill()), w.Fill())
  {
    hide *;
    ClBitsFrom(w.Written(), cl);
    w.FillSame();
    SmallPowers();
    var rank := 0;
    while rank < blcodes
      invariant rank <= blcodes && w.Valid() && w.Written() == old(w.Written()) + ClBits(cl[..rank])
      invariant Grown(old(w.Fill()), w.Fill())
    {
      ClLenBits(cl, blTree, rank);
      OrderSmall(rank);
      Assoc(old(w.Written()), ClBits(cl[..rank]), ToBits(cl[rank], 3));
      ghost var before := w.Fill();
      w.SendBits(blTree[ORDER[rank]].len, 3);
      GrownOn(old(w.Fill()), before, w.Fill());
      rank := rank + 1;
    }
    assert cl[..blcodes] == cl;
  }

  /** send_all_trees */
  method SendAllTrees(w: BitWriter, ltree: seq<TreeCode>, dtree: seq<TreeCode>, blTree: seq<TreeCode>,
                      lcodes: nat, dcodes: nat, blcodes: nat, ghost h: Header)
    requires w.Valid() && w.first == 0 && ValidHeader(h) && AcceptsHeaderLens(h)
    requires lcodes == h.nlen && dcodes == h.ndist && blcodes == |h.cl|
    requires TreeFor(LitLens(h), ltree) && lcodes < |ltree| && TreeFor(DistLens(h), dtree) && dcodes < |dtree|
    requires TreeFor(ClLens(h.cl), blTree) && 19 <= |blTree|
    requires ValidHeader(Resent(h)) && |w.Written()| + |HeaderBits(Resent(h))| <= 8 * w.buf.Length + 7
    modifies w`have, w`biBuf, w`biValid, w.buf
    ensures w.Valid() && w.Written() == old(w.Written()) + HeaderBits(Resent(h)) && Grown(old(w.Fill()), w.Fill())
  {
    hide *;
    ResentBits(h);
    HeaderParts(h);
    ghost var start, cl, f := w.Written(), ClLens(h.cl), w.Fill();
    AssocTrees(start, SizesBits(h.nlen, h.ndist, |h.cl|), ClBits(h.cl), OpsBits(cl, Rle(LitLens(h))),
        OpsBits(cl, Rle(DistLens(h))));
    SendSizes(w, lcodes, dcodes, blcodes);
    ghost var f1 := w.Fill();
    SendClLens(w, blTree, blcodes, h.cl);
    ghost var f2 := w.Fill();
    TreeGuarded(LitLens(h), ltree);
    TreeGuarded(DistLens(h), dtree);
    SendTree(w, ltree, lcodes - 1, blTree, cl, LitLens(h));
    ghost var f3 := w.Fill();
    SendTree(w, dtree, dcodes - 1, blTree, cl, DistLens(h));
    GrownOn(f, f1, f2);
    GrownOn(f, f2, f3);
    GrownOn(f, f3, w.Fill());
  }

  lemma HeaderParts(h: Header)
    requires ValidHeader(h) && AcceptsHeaderLens(h)
    ensures 257 <= h.nlen <= 288 && 1 <= h.ndist <= 32 && 4 <= |h.cl| <= 19 && forall v :: v in h.cl ==> v < 8
    ensures h.nlen - 257 < Pow2(5) && h.ndist - 1 < Pow2(5) && |h.cl| - 4 < Pow2(4) && 8 == Pow2(3)
    ensures h.nlen <= |Expand(h.ops)|
    ensures |LitLens(h)| == h.nlen && Bounded(LitLens(h)) && |DistLens(h)| == h.ndist && Bounded(DistLens(h))
    ensures |SizesBits(h.nlen, h.ndist, |h.cl|)| == 14 && |ClBits(h.cl)| == 3 * |h.cl|
  {
    Pow2Small();
    BoundedParts(Expand(h.ops), h.nlen);
  }

  lemma SizesAre(start: Bits, nlen: nat, ndist: nat, ncode: nat)
    requires nlen >= 257 && ndist >= 1 && ncode >= 4
    ensures start + ToBits(nlen - 257, 5) + ToBits(ndist - 1, 5) + ToBits(ncode - 4, 4) ==
            start + SizesBits(nlen, ndist, ncode)
  {
    hide ToBits;
  }

  lemma ClBitsFrom(b: Bits, cl: seq<nat>)
    ensures b + ClBits(cl[..0]) == b
  {
    ClBitsNil();
    assert cl[..0] == [];
  }

  lemma OrderSmall(i: nat)
    requires i < 19
    ensures |ORDER| == 19
  {
  }

  lemma AssocTrees(s: Bits, a: Bits, b: Bits, c: Bits, d: Bits)
    ensures s + a + b + c + d == s + (a + b + (c + d))
    ensures |a + b + (c + d)| == |a| + |b| + |c| + |d|
  {
  }

  // ----- compress_block -----

  /** The symbol buffer holds these symbols, three bytes each. */
  ghost predicate SymsIn(buf: seq<byte>, xs: seq<Sym3>) {
    && |buf| == 3 * |xs|
    && forall i :: 0 <= i < |xs| ==> SymAt(buf, i, xs[i])
  }

  predicate SymAt(buf: seq<byte>, i: nat, x: Sym3) {
    3 * i + 2 < |buf| && x.dist < 65536 &&
    buf[3 * i] == x.dist % 256 && buf[3 * i + 1] == x.dist / 256 && buf[3 * i + 2] == x.lc
  }

  /** One symbol of compress_block. */
  method SendSym(w: BitWriter, ltree: seq<TreeCode>, dtree: seq<TreeCode>, dist0: nat, lc0: nat, ghost lc: Lens,
      ghost dc: Lens)
    requires w.Valid() && w.first == 0 && TreeFor(lc, ltree) && 286 <= |ltree| && TreeFor(dc, dtree) && 30 <= |dtree|
    requires dist0 <= 32768 && lc0 < 256 && ValidSym(Sym3(dist0, lc0))
    requires |w.Written()| + |TokBits(lc, dc, Retok(Sym3(dist0, lc0)))| <= 8 * w.buf.Length + 7
    modifies w`have, w`biBuf, w`biValid, w.buf
    ensures w.Valid() && w.Written() == old(w.Written()) + TokBits(lc, dc, Retok(Sym3(dist0, lc0)))
    ensures Grown(old(w.Fill()), w.Fill())
  {
    hide *;
    RetokBits(Sym3(dist0, lc0), lc, dc);
    if dist0 == 0 {
      SendCode(w, ltree, lc0, lc);
    } else {
      ghost var start := w.Written();
      var code := LengthCode(lc0);
      var dcode := DistCode(dist0 - 1);
      ghost var le, de := LenShift(code), DistShift(dcode);
      ghost var lext, dext := (if le != 0 then lc0 - BaseLength(code) else 0),
          (if de != 0 then dist0 - 1 - BaseDist(dcode) else 0);
      SendCode(w, ltree, code + 256 + 1, lc);
      ghost var f := w.Fill();
      w.FillSame();
      var extra := LenShift(code);
      NoBitsLeft(0);
      NothingAdded(w.Written());
      if extra != 0 {
        w.SendBits(lc0 - BaseLength(code), extra);
      }
      GrownOn(old(w.Fill()), f, w.Fill());
      f := w.Fill();
      SendCode(w, dtree, dcode, dc);
      GrownOn(old(w.Fill()), f, w.Fill());
      f := w.Fill();
      w.FillSame();
      extra := DistShift(dcode);
      NothingAdded(w.Written());
      if extra != 0 {
        w.SendBits(dist0 - 1 - BaseDist(dcode), extra);
      }
      GrownOn(old(w.Fill()), f, w.Fill());
      Assoc5(start, SymBits(lc, 257 + code), ToBits(lext, le), SymBits(dc, dcode), ToBits(dext, de));
    }
  }

  lemma Assoc5(s: Bits, a: Bits, b: Bits, c: Bits, d: Bits)
    ensures s + a + b + c + d == s + (a + b + c + d)
    ensures |a + b + c + d| == |a| + |b| + |c| + |d|
  {
  }

  /** The bits of a rewritten symbol, piece by piece. */
  lemma RetokBits(x: Sym3, lc: Lens, dc: Lens)
    requires ValidSym(x)
    ensures x.dist == 0 ==> TokBits(lc, dc, Retok(x)) == SymBits(lc, x.lc)
    ensures x.dist != 0 ==>
              var c, k := LengthCode(x.lc), DistCode(x.dist - 1);
              var le, de := LenShift(c), DistShift(k);
              && le <= 5 && de <= 13
              && (le != 0 ==> 0 <= x.lc - BaseLength(c) < Pow2(le))
              && (de != 0 ==> 0 <= x.dist - 1 - BaseDist(k) < Pow2(de))
              && var lext, dext := (if le != 0 then x.lc - BaseLength(c) else 0),
                  (if de != 0 then x.dist - 1 - BaseDist(k) else 0);
                 && TokBits(lc, dc, Retok(x)) == SymBits(lc, 257 + c) + ToBits(lext, le) + SymBits(dc, k) +
                     ToBits(dext, de)
                 && |TokBits(lc, dc, Retok(x))| == |SymBits(lc, 257 + c)| + le + |SymBits(dc, k)| + de
  {
    hide SymBits, ToBits, LengthCode, DistCode, BaseLength, BaseDist;
    if x.dist != 0 {
      RetokFits(x);
    }
  }

  lemma BodyStart(lc: Lens, dc: Lens, ts: seq<Tok>)
    requires ValidToks(ts)
    ensures BodyTo(lc, dc, ts, 0) == []
  {
  }

  /** The bits up to symbol `i`, the symbol and the rest. */
  lemma BodyStep(lc: Lens, dc: Lens, xs: seq<Sym3>, i: nat)
    requires ValidSyms(xs) && i < |xs|
    ensures ValidToks(Retoks(xs)) && |Retoks(xs)| == |xs|
    ensures ValidSym(xs[i]) && BodyTo(lc, dc, Retoks(xs), i + 1) == BodyTo(lc, dc, Retoks(xs), i) +
            TokBits(lc, dc, Retok(xs[i]))
    ensures |BodyTo(lc, dc, Retoks(xs), i + 1)| <= |ToksBits(lc, dc, Retoks(xs))|
  {
    RetokNth(xs, i);
    WholeBody(lc, dc, Retoks(xs), i + 1);
    hide TokBits, ToksBits, Retok, Retoks, ValidTok;
  }

  lemma BodyEnd(lc: Lens, dc: Lens, xs: seq<Sym3>)
    requires ValidSyms(xs)
    ensures ValidToks(Retoks(xs)) && |Retoks(xs)| == |xs|
    ensures ToksBits(lc, dc, Retoks(xs)) == BodyTo(lc, dc, Retoks(xs), |xs|) + SymBits(lc, 256)
  {
    WholeBody(lc, dc, Retoks(xs), |xs|);
    EndBits(lc, dc);
    hide TokBits, ToksBits, Retok, Retoks, ValidTok;
    assert Retoks(xs)[|xs|..] == [];
  }

  lemma SymCount(buf: seq<byte>, xs: seq<Sym3>)
    requires SymsIn(buf, xs)
    ensures |buf| == 3 * |xs|
  {
  }

  lemma SymBounds(x: Sym3)
    requires ValidSym(x)
    ensures x.dist <= 32768 && x.lc < 256
  {
  }

  /** Where send_bits has put its shorts. */
  lemma PacedPos(w: BitWriter)
    requires w.Valid() && w.first == 0 && w.Paced()
    ensures w.have == WritePos(|w.Written()|)
  {
  }

  lemma PacedFill(w: BitWriter, f: Fill)
    requires Grown(f, w.Fill()) && f.paced
    ensures w.Paced()
  {
  }

  lemma FillPaced(w: BitWriter)
    requires w.Paced()
    ensures w.Fill().paced && w.Fill().bytes == w.buf[..]
  {
  }

  /** A symbol the writer has not reached is still there. */
  lemma StillThere(w: BitWriter, f: Fill, xs: seq<Sym3>, i: nat)
    requires Grown(f, w.Fill()) && i < |xs| && LIT_BUFSIZE + 3 * |xs| <= w.buf.Length == |f.bytes|
    requires SymsIn(f.bytes[16384..16384 + 3 * |xs|], xs) && w.have <= LIT_BUFSIZE + 3 * i
    ensures 16384 + 3 * i + 2 < w.buf.Length
    ensures Sym3((w.buf[16384 + 3 * i] as int) + 256 * (w.buf[16384 + 3 * i + 1] as int), w.buf[16384 + 3 * i + 2]) ==
            xs[i]
  {
    var buf := f.bytes[16384..16384 + 3 * |xs|];
    assert SymAt(buf, i, xs[i]);
    ByteStays(w, f, 16384 + 3 * i);
    ByteStays(w, f, 16384 + 3 * i + 1);
    ByteStays(w, f, 16384 + 3 * i + 2);
  }

  lemma ByteStays(w: BitWriter, f: Fill, at: nat)
    requires Grown(f, w.Fill()) && w.have <= at < w.buf.Length == |f.bytes|
    ensures w.buf[at] == f.bytes[at]
  {
    assert w.buf[..][w.have..][at - w.have] == f.bytes[w.have..][at - w.have];
  }

  lemma BehindAt(start: nat, lc: Lens, dc: Lens, xs: seq<Sym3>, i: nat)
    requires ValidSyms(xs) && Behind(start, lc, dc, xs) && i < |xs|
    ensures i <= |Retoks(xs)|
    ensures WritePos(start + |BodyTo(lc, dc, Retoks(xs), i)|) <= 16384 + 3 * i
  {
    hide BodyTo, Retoks, WritePos;
  }

  lemma LitBufsize()
    ensures LIT_BUFSIZE == 16384 && PENDING_SIZE == 262144 && SYM_MAX == 65532
  {
  }

  /**
    compress_block.  The symbols are in the buffer that is written to; `at` says where the writer was
    when each of them was read.
   */
  method CompressBlock(w: BitWriter, symNext: nat, ltree: seq<TreeCode>, dtree: seq<TreeCode>,
                       ghost lc: Lens, ghost dc: Lens, ghost xs: seq<Sym3>)
    returns (ghost at: seq<nat>)
    requires w.Valid() && w.first == 0 && w.Paced()
    requires TreeFor(lc, ltree) && 286 <= |ltree| && TreeFor(dc, dtree) && 30 <= |dtree|
    requires LIT_BUFSIZE + symNext <= w.buf.Length && ValidSyms(xs)
    requires SymsIn(w.buf[LIT_BUFSIZE..LIT_BUFSIZE + symNext], xs) && Behind(|w.Written()|, lc, dc, xs)
    requires |w.Written()| + |ToksBits(lc, dc, Retoks(xs))| <= 8 * w.buf.Length + 7
    modifies w`have, w`biBuf, w`biValid, w.buf
    ensures w.Valid() && w.Written() == old(w.Written()) + ToksBits(lc, dc, Retoks(xs))
    ensures |at| == |xs| == |Retoks(xs)|
    ensures forall i :: 0 <= i < |xs| ==> at[i] == WritePos(|old(w.Written())| + |BodyTo(lc, dc, Retoks(xs), i)|)
  {
    hide *;
    LitBufsize();
    BodyEnd(lc, dc, xs);
    BodyStart(lc, dc, Retoks(xs));
    ghost var start, f := w.Written(), w.Fill();
    NothingAdded(start);
    SymCount(w.buf[LIT_BUFSIZE..LIT_BUFSIZE + symNext], xs);
    w.FillSame();
    FillPaced(w);
    FillSlice(w, f, symNext);
    at := [];
    var sx := 0;
    ghost var i := 0;
    while sx < symNext
      invariant sx == 3 * i <= symNext == 3 * |xs| && w.Valid() && |at| == i
      invariant w.Written() == start + BodyTo(lc, dc, Retoks(xs), i) && Grown(f, w.Fill())
      invariant forall j :: 0 <= j < i ==> at[j] == WritePos(|start| + |BodyTo(lc, dc, Retoks(xs), j)|)
    {
      PacedFill(w, f);
      PacedPos(w);
      BehindAt(|start|, lc, dc, xs, i);
      StillThere(w, f, xs, i);
      BodyStep(lc, dc, xs, i);
      SymBounds(xs[i]);
      at := at + [w.have];
      var dist := (w.buf[LIT_BUFSIZE + sx] as int) + 256 * (w.buf[LIT_BUFSIZE + sx + 1] as int);
      var len := w.buf[LIT_BUFSIZE + sx + 2];
      Assoc(start, BodyTo(lc, dc, Retoks(xs), i), TokBits(lc, dc, Retok(xs[i])));
      ghost var before := w.Fill();
      SendSym(w, ltree, dtree, dist, len, lc, dc);
      GrownOn(f, before, w.Fill());
      sx := sx + 3;
      i := i + 1;
    }
    SendCode(w, ltree, 256, lc);
    Assoc(start, BodyTo(lc, dc, Retoks(xs), |xs|), SymBits(lc, 256));
  }

  lemma FillSlice(w: BitWriter, f: Fill, k: nat)
    requires f == w.Fill() && 16384 + k <= w.buf.Length
    ensures |f.bytes| == w.buf.Length && f.bytes[16384..16384 + k] == w.buf[16384..16384 + k]
  {
  }

  // ----- blocks -----

  /** `zmemcpy` to the queue from a place in the buffer it does not reach, one byte after the other. */
  method PutBytes(w: BitWriter, from: nat, n: nat)
    requires w.Valid() && w.first == 0 && w.biValid == 0 && w.have + n <= from && from + n <= w.buf.Length
    modifies w`have, w.buf
    ensures w.Valid() && w.have == old(w.have) + n && w.Queue() == old(w.Queue()) + old(w.buf[from..from + n])
  {
    hide *;
    ghost var q, d := w.Queue(), w.buf[from..from + n];
    var i := 0;
    assert q + d[..0] == q;
    while i < n
      invariant i <= n && w.Valid() && w.have == old(w.have) + i && w.buf[from..from + n] == d
      invariant w.Queue() == q + d[..i]
    {
      assert d[..i + 1] == d[..i] + [d[i]];
      Assoc2(q, d[..i], [d[i]]);
      assert w.buf[from + i] == d[i];
      ghost var before := w.buf[..];
      w.PutByte(w.buf[from + i]);
      BeyondSlice(before, w.buf[..], w.have, from, n);
      i := i + 1;
    }
    assert d[..n] == d;
  }

  lemma BeyondSlice(a: seq<byte>, b: seq<byte>, have: nat, from: nat, n: nat)
    requires |a| == |b| && have <= from && from + n <= |a| && b[have..] == a[have..]
    ensures b[from..from + n] == a[from..from + n]
  {
    assert b[from..from + n] == b[have..][from - have..from - have + n];
    assert a[from..from + n] == a[have..][from - have..from - have + n];
  }

  lemma Assoc2<T>(a: seq<T>, b: seq<T>, c: seq<T>)
    ensures a + b + c == a + (b + c)
  {
  }

  /** The type bits of a stored block, filled up to a byte boundary. */
  method SendRawType(w: BitWriter, len: nat, last: bool, ghost n: nat)
    requires w.Valid() && w.first == 0 && w.have == 0 && w.biValid < 8 && n % 8 == w.biValid
    requires LIT_BUFSIZE + len <= w.buf.Length && RawSafe(n, len)
    modifies w`have, w`biBuf, w`biValid, w.buf
    ensures w.Valid() && w.biValid == 0 && w.have + 4 + len <= LIT_BUFSIZE
    ensures ByteBits(w.Queue()) == old(w.Written()) + TypeBits(last, 0) + Zeros(Pad(n + 3))
    ensures w.buf[LIT_BUFSIZE..LIT_BUFSIZE + len] == old(w.buf[LIT_BUFSIZE..LIT_BUFSIZE + len])
  {
    hide *;
    LitBufsize();
    RawSmall(n, len);
    ghost var start, f := w.Written(), w.Fill();
    EmptyPaced(w);
    RawSize(n, last, []);
    TypeValue(last, 0);
    w.SendBits(if last then 1 else 0, 3);
    SameMod(|start|, w.biValid, w.have, n);
    WindSmall(n, w.have, w.biValid);
    GrownKeeps(w, f.bytes, f);
    BeyondSlice(f.bytes, w.buf[..], w.have, LIT_BUFSIZE, len);
    ghost var b := w.buf[..];
    w.Windup();
    BeyondSlice(b, w.buf[..], w.have, LIT_BUFSIZE, len);
    QueueOnly(w);
    assert |w.Written()| == 8 * w.have;
    WoundUp(n, w.have, |start|);
    BufferSlice(w, len);
  }

  /** The length of a stored block and its complement. */
  method SendRawLens(w: BitWriter, len: nat)
    requires w.Valid() && w.first == 0 && w.biValid == 0 && len < 65536
    requires w.have + 4 + len <= LIT_BUFSIZE && LIT_BUFSIZE + len <= w.buf.Length
    modifies w`have, w.buf
    ensures w.Valid() && w.have == old(w.have) + 4
    ensures w.Queue() == old(w.Queue()) + [len % 256, len / 256] + [(65535 - len) % 256, (65535 - len) / 256]
    ensures w.buf[LIT_BUFSIZE..LIT_BUFSIZE + len] == old(w.buf[LIT_BUFSIZE..LIT_BUFSIZE + len])
  {
    hide *;
    ghost var b := w.buf[..];
    w.PutShort(len);
    BeyondSlice(b, w.buf[..], w.have, LIT_BUFSIZE, len);
    b := w.buf[..];
    w.PutShort(65535 - len);
    BeyondSlice(b, w.buf[..], w.have, LIT_BUFSIZE, len);
  }

  /** j_tr_stored_block, with the data in sym_buf. */
  method StoredBlock(w: BitWriter, len: nat, last: bool, ghost n: nat)
    requires w.Valid() && w.first == 0 && w.have == 0 && w.biValid < 8 && n % 8 == w.biValid
    requires LIT_BUFSIZE + len <= w.buf.Length && RawSafe(n, len)
    modifies w`have, w`biBuf, w`biValid, w.buf
    ensures w.Valid() && len < 65536
    ensures w.Written() == old(w.Written()) + RawBits(n, last, old(w.buf[LIT_BUFSIZE..LIT_BUFSIZE + len]))
  {
    hide *;
    LitBufsize();
    RawSmall(n, len);
    ghost var start, d := w.Written(), w.buf[LIT_BUFSIZE..LIT_BUFSIZE + len];
    SendRawType(w, len, last, n);
    ghost var q := w.Queue();
    SendRawLens(w, len);
    PutBytes(w, LIT_BUFSIZE, len);
    QueueOnly(w);
    RawIs(start, n, last, d, q);
  }

  lemma RawSize(n: nat, last: bool, d: seq<byte>)
    requires |d| < 65536
    ensures |RawBits(n, last, d)| == 3 + Pad(n + 3) + 32 + 8 * |d| && |TypeBits(last, 0)| == 3
  {
  }

  lemma SameMod(size: nat, valid: nat, have: nat, n: nat)
    requires 8 * have + valid == size + 3 && size % 8 == n % 8
    ensures Pad(valid) == Pad(n + 3)
  {
    hide Pad;
    ModBytes(have, valid);
    ModBytes(size / 8, size % 8 + 3);
    ModBytes(n / 8, n % 8 + 3);
    PadSame(valid, n + 3);
  }

  lemma RawIs(start: Bits, n: nat, last: bool, d: seq<byte>, q: seq<byte>)
    requires |d| < 65536 && ByteBits(q) == start + TypeBits(last, 0) + Zeros(Pad(n + 3))
    ensures var len := |d|;
            ByteBits(q + [len % 256, len / 256] + [(65535 - len) % 256, (65535 - len) / 256] + d) ==
                start + RawBits(n, last, d)
  {
    var len := |d|;
    var q1 := q + [len % 256, len / 256];
    var q2 := q1 + [(65535 - len) % 256, (65535 - len) / 256];
    ShortBits(q, len);
    ShortBits(q1, 65535 - len);
    ByteBitsAppend(q2, d);
    hide ByteBits, ToBits, TypeBits, Pad;
    AssocRaw(start, TypeBits(last, 0), Zeros(Pad(n + 3)), ToBits(len, 16), ToBits(65535 - len, 16), ByteBits(d));
  }

  lemma AssocRaw(s: Bits, a: Bits, b: Bits, c: Bits, d: Bits, e: Bits)
    ensures s + a + b + c + d + e == s + (a + b + (c + d) + e)
  {
  }

  /** With no bits in the bit buffer, all that was written is the queue. */
  lemma QueueOnly(w: BitWriter)
    requires w.Valid() && w.biValid == 0
    ensures w.Written() == ByteBits(w.Queue())
  {
    NoBitsLeft(w.biBuf);
    NothingAdded(ByteBits(w.Queue()));
  }

  lemma TypeValue(last: bool, t: nat)
    requires t < 4
    ensures 2 * t + (if last then 1 else 0) < Pow2(3)
    ensures ToBits(2 * t + (if last then 1 else 0), 3) == TypeBits(last, t)
  {
    Pow2Small();
  }

  /** tree_type */
  datatype TreeType = STORE | FIXED | DYNAMIC

  function TypeOf(head: Head): TreeType {
    match head
    case Stored(_) => STORE
    case Fixed => FIXED
    case Dynamic(_) => DYNAMIC
  }

  /** What a head and its symbols make of a block that starts `n` bits into the output. */
  ghost predicate BlockReady(n: nat, last: bool, head: Head, xs: seq<Sym3>, data: seq<byte>) {
    if head.Stored? then RawSafe(n, |data|)
    else ValidHead(head) && ValidSyms(xs) && SymsSafe(n, last, head, xs) && |xs| < SYM_MAX
  }

  /** The bits of the block. */
  ghost function BlockOut(n: nat, last: bool, head: Head, xs: seq<Sym3>, data: seq<byte>): Bits
    requires BlockReady(n, last, head, xs, data)
  {
    if head.Stored? then RawBits(n, last, data) else CodedBits(last, head, xs)
  }

  /** The trees spell the codes a block is written with. */
  ghost predicate TreesFor(head: Head, ltree: seq<TreeCode>, dtree: seq<TreeCode>, blTree: seq<TreeCode>)
    requires ValidHead(head)
  {
    match head
    case Stored(_) => true
    case Fixed => TreeFor(FixedLit(), ltree) && 286 <= |ltree| && TreeFor(FixedDist(), dtree) && 30 <= |dtree|
    case Dynamic(h) =>
      && TreeFor(LitLens(h), ltree) && 289 <= |ltree| && TreeFor(DistLens(h), dtree) && 33 <= |dtree|
      && TreeFor(ClLens(h.cl), blTree) && 19 <= |blTree|
  }

  /** The body of a fixed-code or dynamic block. */
  method CodedBlock(w: BitWriter, symNext: nat, last: bool,
                    ltree: seq<TreeCode>, dtree: seq<TreeCode>, blTree: seq<TreeCode>,
                    dynamic: bool, lcodes: nat, dcodes: nat, blcodes: nat, ghost n: nat, ghost head: Head,
                        ghost xs: seq<Sym3>)
    requires w.Valid() && w.first == 0 && w.have == 0 && w.biValid < 8 && n % 8 == w.biValid
    requires !head.Stored? && BlockReady(n, last, head, xs, []) && TreesFor(head, ltree, dtree, blTree)
    requires dynamic <==> head.Dynamic?
    requires dynamic ==> lcodes == head.hdr.nlen && dcodes == head.hdr.ndist && blcodes == |head.hdr.cl|
    requires LIT_BUFSIZE + symNext <= w.buf.Length && SymsIn(w.buf[LIT_BUFSIZE..LIT_BUFSIZE + symNext], xs)
    requires n % 8 + |CodedBits(last, head, xs)| <= 8 * w.buf.Length
    modifies w`have, w`biBuf, w`biValid, w.buf
    ensures w.Valid() && w.Written() == old(w.Written()) + CodedBits(last, head, xs)
  {
    hide *;
    LitBufsize();
    ghost var start, f := w.Written(), w.Fill();
    CodedReady(n, last, head, xs);
    CodedParts(last, head, xs);
    TreesOf(head, ltree, dtree, blTree);
    EmptyPaced(w);
    BufferSlice(w, symNext);
    SymCount(w.buf[LIT_BUFSIZE..LIT_BUFSIZE + symNext], xs);
    if dynamic {
      ghost var h := head.hdr;
      TypeValue(last, 2);
      w.SendBits(if last then 5 else 4, 3);
      ghost var f1 := w.Fill();
      SendAllTrees(w, ltree, dtree, blTree, lcodes, dcodes, blcodes, h);
      GrownOn(f, f1, w.Fill());
      Assoc(start, TypeBits(last, 2), HeaderBits(Resent(h)));
    } else {
      TypeValue(last, 1);
      w.SendBits(if last then 3 else 2, 3);
    }
    PacedFill(w, f);
    PacedPos(w);
    StartBehind(n, last, head, xs);
    FirstBehind(w, f, xs);
    ghost var at := CompressBlock(w, symNext, ltree, dtree, LitOf(head), DistOf(head), xs);
    Assoc(start, HeadBits(last, head), ToksBits(LitOf(head), DistOf(head), Retoks(xs)));
  }

  /** _tr_flush_block_my */
  method FlushBlock(w: BitWriter, symNext: nat, ttype: TreeType, last: bool,
                    ltree: seq<TreeCode>, dtree: seq<TreeCode>, blTree: seq<TreeCode>,
                    lcodes: nat, dcodes: nat, blcodes: nat, ghost n: nat, ghost head: Head, ghost xs: seq<Sym3>)
    requires w.Valid() && w.first == 0 && w.have == 0 && w.biValid < 8 && n % 8 == w.biValid
    requires w.buf.Length == PENDING_SIZE
    requires ttype == TypeOf(head) && LIT_BUFSIZE + symNext <= w.buf.Length
    requires BlockReady(n, last, head, xs, w.buf[LIT_BUFSIZE..LIT_BUFSIZE + symNext])
    requires ValidHead(head) && TreesFor(head, ltree, dtree, blTree)
    requires head.Dynamic? ==> lcodes == head.hdr.nlen && dcodes == head.hdr.ndist && blcodes == |head.hdr.cl|
    requires !head.Stored? ==> SymsIn(w.buf[LIT_BUFSIZE..LIT_BUFSIZE + symNext], xs)
    modifies w`have, w`biBuf, w`biValid, w.buf
    ensures w.Valid() && 8 * w.have + w.biValid <= 8 * w.buf.Length
    ensures var out := BlockOut(n, last, head, xs, old(w.buf[LIT_BUFSIZE..LIT_BUFSIZE + symNext]));
            w.Written() == old(w.Written()) + (out + Tail(n + |out|, last))
  {
    hide *;
    ghost var start, data := w.Written(), w.buf[LIT_BUFSIZE..LIT_BUFSIZE + symNext];
    EmptyPaced(w);
    OutRoom(n, last, head, xs, data);
    match ttype {
      case STORE => StoredBlock(w, symNext, last, n);
      case FIXED => CodedBlock(w, symNext, last, ltree, dtree, blTree, false, lcodes, dcodes, blcodes, n, head, xs);
      case DYNAMIC => CodedBlock(w, symNext, last, ltree, dtree, blTree, true, lcodes, dcodes, blcodes, n, head, xs);
    }
    ghost var out := BlockOut(n, last, head, xs, data);
    TailIs(n, last, |out|, w.have, w.biValid);
    Assoc(start, out, Tail(n + |out|, last));
    NothingAdded(start + out);
    assert |w.Written()| == 8 * w.have + w.biValid;
    if last {
      w.Windup();
      assert |w.Written()| == 8 * w.have + w.biValid;
      PadSmall(w.have);
    }
  }

  lemma PadSmall(k: nat)
    ensures forall v :: 0 <= Pad(v) < 8
  {
  }

  /** A block that may be written fits into pending_buf. */
  lemma OutRoom(n: nat, last: bool, head: Head, xs: seq<Sym3>, data: seq<byte>)
    requires ValidHead(head) && BlockReady(n, last, head, xs, data) && |data| <= PENDING_SIZE
    ensures n % 8 + |BlockOut(n, last, head, xs, data)| + 7 <= 8 * PENDING_SIZE
    ensures head.Stored? ==>
                RawSafe(n, |data|) && |data| < 65536 && BlockOut(n, last, head, xs, data) == RawBits(n, last, data)
    ensures !head.Stored? ==>
                BlockReady(n, last, head, xs, []) && BlockOut(n, last, head, xs, data) == CodedBits(last, head, xs)
    ensures TypeOf(head) == (match head case Stored(_) => STORE case Fixed => FIXED case Dynamic(_) => DYNAMIC)
    ensures PENDING_SIZE == 262144
  {
    hide CodedBits, SymsSafe, ValidHead, ValidSyms;
    if !head.Stored? {
      RoomFollows(n, last, head, xs);
    }
  }

  lemma TailIs(n: nat, last: bool, out: nat, have: nat, valid: nat)
    requires 8 * have + valid == n % 8 + out
    ensures Tail(n + out, last) == if last then Zeros(Pad(valid)) else []
  {
    assert (n + out) % 8 == valid % 8;
  }

  lemma CodedReady(n: nat, last: bool, head: Head, xs: seq<Sym3>)
    requires !head.Stored? && BlockReady(n, last, head, xs, [])
    ensures ValidHead(head) && ValidSyms(xs) && SymsSafe(n, last, head, xs) && |xs| < SYM_MAX
  {
    hide ValidHead, ValidSyms, SymsSafe;
  }

  lemma CodedParts(last: bool, head: Head, xs: seq<Sym3>)
    requires !head.Stored? && ValidHead(head) && ValidSyms(xs)
    ensures CodedBits(last, head, xs) == HeadBits(last, head) + ToksBits(LitOf(head), DistOf(head), Retoks(xs))
    ensures head.Fixed? ==> HeadBits(last, head) == TypeBits(last, 1)
    ensures head.Dynamic? ==>
              && ValidHeader(head.hdr) && AcceptsHeaderLens(head.hdr) && ValidHeader(Resent(head.hdr))
              && head.hdr.nlen <= 288 && head.hdr.ndist <= 32
              && HeadBits(last, head) == TypeBits(last, 2) + HeaderBits(Resent(head.hdr))
              && head.hdr.nlen <= |Expand(head.hdr.ops)|
              && LitOf(head) == LitLens(head.hdr) && DistOf(head) == DistLens(head.hdr)
    ensures |TypeBits(last, 1)| == |TypeBits(last, 2)| == 3
  {
    if head.Dynamic? {
      ResentValid(head.hdr);
    }
    hide TypeBits, HeaderBits, ToksBits, Retoks, Expand, ValidOp, Rle, FixedLit, FixedDist;
  }

  lemma TreesOf(head: Head, lt: seq<TreeCode>, dt: seq<TreeCode>, bt: seq<TreeCode>)
    requires !head.Stored? && ValidHead(head) && TreesFor(head, lt, dt, bt)
    ensures TreeFor(LitOf(head), lt) && 286 <= |lt| && TreeFor(DistOf(head), dt) && 30 <= |dt|
    ensures head.Dynamic? ==> 289 <= |lt| && 33 <= |dt| && TreeFor(ClLens(head.hdr.cl), bt) && 19 <= |bt|
  {
    hide TreeFor, FixedLit, FixedDist, Expand, ClLens;
  }

  lemma StartBehind(n: nat, last: bool, head: Head, xs: seq<Sym3>)
    requires !head.Stored? && ValidHead(head) && ValidSyms(xs) && SymsSafe(n, last, head, xs)
    ensures Behind(n % 8 + |HeadBits(last, head)|, LitOf(head), DistOf(head), xs)
    ensures xs != [] ==> WritePos(n % 8 + |HeadBits(last, head)|) <= 16384
  {
    hide LitOf, DistOf, HeadBits, WritePos, ValidSyms, Retoks;
    if xs != [] {
      assert BodyTo(LitOf(head), DistOf(head), Retoks(xs), 0) == [];
    }
  }

  lemma EmptyPaced(w: BitWriter)
    requires w.Valid() && w.have == 0
    ensures w.Paced() && w.Fill().paced && w.Fill().bytes == w.buf[..] && |w.Written()| == w.biValid
  {
  }

  /** The header has not reached the first symbol. */
  lemma FirstBehind(w: BitWriter, f: Fill, xs: seq<Sym3>)
    requires Grown(f, w.Fill()) && 16384 + 3 * |xs| <= w.buf.Length == |f.bytes|
    requires SymsIn(f.bytes[16384..16384 + 3 * |xs|], xs) && (xs != [] ==> w.have <= 16384)
    ensures SymsIn(w.buf[16384..16384 + 3 * |xs|], xs)
  {
    if xs != [] {
      BeyondSlice(f.bytes, w.buf[..], w.have, 16384, 3 * |xs|);
    }
  }

  lemma RawSmall(n: nat, len: nat)
    requires RawSafe(n, len)
    ensures len < 65536 && (n % 8 + 3 + Pad(n + 3)) / 8 + 4 + len <= 16384
  {
  }

  /** After the type bits the writer has not reached the data. */
  lemma GrownKeeps(w: BitWriter, before: seq<byte>, f: Fill)
    requires Grown(f, w.Fill()) && f.bytes == before
    ensures |before| == w.buf.Length && w.have <= |before| && w.buf[w.have..] == before[w.have..]
  {
  }

  lemma WindSmall(n: nat, have: nat, valid: nat)
    requires 8 * have + valid == n % 8 + 3
    ensures have <= 1 && valid <= 10
  {
  }

  lemma BufferSlice(w: BitWriter, k: nat)
    requires 16384 + k <= w.buf.Length
    ensures |w.buf[..]| == w.buf.Length && w.buf[..][16384..16384 + k] == w.buf[16384..16384 + k]
  {
  }

  lemma WoundUp(n: nat, have: nat, start: nat)
    requires 8 * have == start + 3 + Pad(n + 3) && start == n % 8
    ensures have == (n % 8 + 3 + Pad(n + 3)) / 8
  {
  }
}
