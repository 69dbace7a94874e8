/**
  The fixed code of section 3.2.6 of RFC 1951 is complete, and the table builder accepts it.
 */
module FixedCode {
  import opened Bits
  import opened Huffman
  import opened TableSpec
  import opened Format

  lemma {:induction false} FixedCount(n: nat, len: nat)
    requires n <= 288
    ensures CountTo(FixedLit(), n, 7) == if n < 256 then 0 else if n < 280 then n - 256 else 24
    ensures CountTo(FixedLit(), n, 8) == if n < 144 then n else if n < 280 then 144 else n - 136
    ensures CountTo(FixedLit(), n, 9) == if n < 144 then 0 else if n < 256 then n - 144 else 112
    ensures len < 7 || len > 9 ==> CountTo(FixedLit(), n, len) == 0
  {
    if n > 0 {
      FixedCount(n - 1, len);
    }
  }

  lemma {:induction false} FixedDistCount(n: nat, len: nat)
    requires n <= 32
    ensures CountTo(FixedDist(), n, len) == if len == 5 then n else 0
  {
    if n > 0 {
      FixedDistCount(n - 1, len);
    }
  }

  lemma {:induction false} FixedEnds(len: nat)
    requires len <= MAXBITS
    ensures EndCode(FixedLit(), len) ==
            if len < 7 then 0 else if len == 7 then 24 else if len == 8 then 200 else Pow2(len)
  {
    hide FixedLit, CountTo;
    FixedCount(288, len);
    Pow2Small();
    if len > 0 {
      FixedEnds(len - 1);
    }
  }

  lemma {:induction false} FixedDistEnds(len: nat)
    requires len <= MAXBITS
    ensures EndCode(FixedDist(), len) == if len < 5 then 0 else Pow2(len)
  {
    hide FixedDist, CountTo;
    FixedDistCount(32, len);
    Pow2Small();
    if len > 0 {
      FixedDistEnds(len - 1);
    }
  }

  /** Both fixed codes use every bit string. */
  lemma FixedComplete()
    ensures Fits(FixedLit()) && Complete(FixedLit()) && Bounded(FixedLit())
    ensures Fits(FixedDist()) && Complete(FixedDist()) && Bounded(FixedDist())
  {
    hide EndCode;
    Pow2Small();
    forall len | 0 <= len <= MAXBITS
      ensures EndCode(FixedLit(), len) <= Pow2(len) && EndCode(FixedDist(), len) <= Pow2(len)
    {
      FixedEnds(len);
      FixedDistEnds(len);
    }
    FixedEnds(MAXBITS);
    FixedDistEnds(MAXBITS);
  }

  lemma FixedMax()
    ensures MaxLen(FixedLit(), MAXBITS) == 9
    ensures MaxLen(FixedDist(), MAXBITS) == 5
  {
    hide FixedLit, FixedDist, CountTo;
    FixedCount(288, 9);
    FixedDistCount(32, 5);
    FixedCount(288, MaxLen(FixedLit(), MAXBITS));
    FixedDistCount(32, MaxLen(FixedDist(), MAXBITS));
  }

  /** No code is longer than the root index, so there are no sub-tables. */
  lemma {:induction false} NoSubTables(lens: Lens, root: nat, max: nat, order: seq<nat>, i: nat)
    requires i < |order| && InUse(lens, max, order) && max <= root
    ensures TableSize(lens, root, max, order, i) == Pow2(root)
  {
    if i > 0 {
      NoSubTables(lens, root, max, order, i - 1);
    }
  }

  lemma FixedAccepted()
    ensures Bounded(FixedLit()) && Accepts(LenCodes, FixedLit())
    ensures Bounded(FixedDist()) && Accepts(DistCodes, FixedDist())
  {
    hide FixedLit, FixedDist, MaxLen, Fits, Complete, RootBits, Pow2, Bounded, Accepts;
    FixedComplete();
    FixedMax();
    FixedRoots();
    Pow2Small();
    AcceptedWhole(LenCodes, FixedLit());
    AcceptedWhole(DistCodes, FixedDist());
  }

  /** A complete code without sub-tables is accepted when its root table fits. */
  lemma AcceptedWhole(kind: Kind, lens: Lens)
    requires Bounded(lens) && Fits(lens) && Complete(lens) && 0 < MaxLen(lens, MAXBITS) == RootBits(kind, lens)
    requires Pow2(MaxLen(lens, MAXBITS)) <= Enough(kind)
    ensures Accepts(kind, lens)
  {
    hide MaxLen, Fits, Complete, RootBits, Pow2, Bounded, SpaceNeeded;
    FixedSpace(kind, lens);
  }

  lemma FixedRoots()
    requires MaxLen(FixedLit(), MAXBITS) == 9 && MaxLen(FixedDist(), MAXBITS) == 5
    ensures RootBits(LenCodes, FixedLit()) == 9
    ensures RootBits(DistCodes, FixedDist()) == 5
  {
    hide FixedLit, FixedDist, MaxLen, Count;
  }

  lemma FixedSpace(kind: Kind, lens: Lens)
    requires Bounded(lens) && 0 < MaxLen(lens, MAXBITS) == RootBits(kind, lens)
    ensures SpaceNeeded(kind, lens) == Pow2(MaxLen(lens, MAXBITS))
  {
    hide Order;
    var max, order := MaxLen(lens, MAXBITS), Order(lens, MAXBITS);
    OrderNonEmpty(lens, max, MAXBITS);
    OrderInUse(lens, MAXBITS);
    NoSubTables(lens, max, max, order, |order| - 1);
  }
}
