/**
  How much room decoding tables take: every complete code a block can declare fits, so the table builder
  refuses none of them.  The sizes 852 and 592 are derived here for all codes of up to 286 and 30 symbols.
 */
module TableSpace {
  import opened Bits
  import opened Huffman
  import opened TableSpec
  import opened TableLemmas
  import opened FixedCode

  // ----- places in the order -----

  lemma Longer(lens: Lens, len: nat)
    requires len > 0
    ensures |Order(lens, len)| == |Order(lens, len - 1)| + Count(lens, len)
  {
  }

  lemma {:induction false} LongerMono(lens: Lens, a: nat, b: nat)
    requires a <= b
    ensures |Order(lens, a)| <= |Order(lens, b)|
    decreases b
  {
    if a < b {
      LongerMono(lens, a, b - 1);
      Longer(lens, b);
    }
  }

  /** Codes are handed out in the order of the symbols. */
  lemma Place(lens: Lens, i: nat)
    requires Bounded(lens) && i < |Order(lens, MAXBITS)|
    ensures var s := Order(lens, MAXBITS)[i];
            && Used(lens, s) && CountTo(lens, s, lens[s]) < Count(lens, lens[s])
            && i == |Order(lens, lens[s] - 1)| + CountTo(lens, s, lens[s])
            && i + FirstCode(lens, lens[s]) == |Order(lens, lens[s] - 1)| + Code(lens, s)
            && FirstCode(lens, lens[s]) <= Code(lens, s) < EndCode(lens, lens[s])
  {
    hide Order, Count, CountTo;
    OrderAt(lens, MAXBITS, i);
    var s := Order(lens, MAXBITS)[i];
    CountPrefix(lens, s, lens[s]);
  }

  /** The code of the next symbol is the next code, made longer. */
  lemma NextInOrder(lens: Lens, i: nat)
    requires Bounded(lens) && 0 < i < |Order(lens, MAXBITS)|
    ensures var s, t := Order(lens, MAXBITS)[i - 1], Order(lens, MAXBITS)[i];
            && Used(lens, s) && Used(lens, t) && lens[s] <= lens[t]
            && Code(lens, t) == (Code(lens, s) + 1) * Pow2(lens[t] - lens[s])
            && (lens[s] < lens[t] ==> i == |Order(lens, lens[t] - 1)| == |Order(lens, lens[s])|)
  {
    hide Order, Count, CountTo, Code, FirstCode, EndCode, Pow2;
    var s, t := Order(lens, MAXBITS)[i - 1], Order(lens, MAXBITS)[i];
    OrderSorted(lens, i - 1, i);
    Place(lens, i - 1);
    Place(lens, i);
    if lens[s] < lens[t] {
      Longer(lens, lens[s]);
      LongerMono(lens, lens[s], lens[t] - 1);
      forall l | lens[s] < l < lens[t]
        ensures Count(lens, l) == 0
      {
        LongerMono(lens, lens[s], l - 1);
        Longer(lens, l);
        LongerMono(lens, l, lens[t] - 1);
      }
    }
    NextCodeValue(lens, s, t);
  }

  // ----- where sub-tables start -----

  lemma LeadingOf(v: nat, k: nat, p: nat, low: nat)
    requires v == p * Pow2(k) + low && low < Pow2(k)
    ensures Shr(v, k) == p
  {
    hide Pow2, Shr, Low;
    ShrLowUnique(v, k, low, p);
  }

  /** Doubling several times. */
  lemma Twice(a: nat, k: nat, d: nat)
    ensures a * Pow2(k) * Pow2(d) == a * Pow2(k + d)
  {
    Pow2Add(k, d);
    hide Pow2;
  }

  /** A sub-table starts with the first code its leading bits can have. */
  lemma StartsEven(lens: Lens, root: nat, max: nat, i: nat)
    requires Bounded(lens) && 0 < i < |Order(lens, MAXBITS)| && InUse(lens, max, Order(lens, MAXBITS))
    requires NewSub(lens, root, max, Order(lens, MAXBITS), i)
    ensures var t := Order(lens, MAXBITS)[i];
            Used(lens, t) && lens[t] > root && Code(lens, t) == RootCode(lens, root, t) * Pow2(lens[t] - root)
  {
    hide Order, Code, Pow2, Shr, Low;
    var s, t := Order(lens, MAXBITS)[i - 1], Order(lens, MAXBITS)[i];
    NextInOrder(lens, i);
    if lens[s] <= root {
      EvenAfterShort(Code(lens, s) + 1, root - lens[s], lens[t] - root, Code(lens, t));
    } else {
      EvenAfterLong(Code(lens, s), lens[s] - root, lens[t] - lens[s], Code(lens, t));
    }
  }

  lemma EvenAfterShort(c: nat, k: nat, d: nat, code: nat)
    requires code == c * Pow2(k + d)
    ensures code == Shr(code, d) * Pow2(d)
  {
    hide Pow2, Shr;
    Twice(c, k, d);
    LeadingOf(code, d, c * Pow2(k), 0);
  }

  lemma EvenAfterLong(c: nat, k: nat, d: nat, code: nat)
    requires code == (c + 1) * Pow2(d) && Shr(c, k) != Shr(code, k + d)
    ensures code == Shr(code, k + d) * Pow2(k + d)
  {
    hide Pow2, Shr, Low;
    ShrLow(c, k);
    var p, low := Shr(c, k), Low(c, k);
    if low + 1 < Pow2(k) {
      Within(p, low + 1, k, d);
      LeadingOf(code, k + d, p, (low + 1) * Pow2(d));
    } else {
      Times(p, Pow2(k));
      Twice(p + 1, k, d);
      LeadingOf(code, k + d, p + 1, 0);
    }
  }

  lemma Times(p: nat, q: nat)
    ensures q * p + q == (p + 1) * q
  {
  }

  lemma Within(p: nat, low: nat, k: nat, d: nat)
    requires low < Pow2(k)
    ensures (Pow2(k) * p + low) * Pow2(d) == p * Pow2(k + d) + low * Pow2(d) && low * Pow2(d) < Pow2(k + d)
  {
    hide Pow2;
    Pow2Add(k, d);
    Spread(Pow2(k), Pow2(d), p, low);
    MulGap(Pow2(d), Pow2(k), low);
  }

  lemma Spread(a: nat, b: nat, p: nat, low: nat)
    ensures (a * p + low) * b == p * (a * b) + low * b
  {
    assert (a * p + low) * b == (a * p) * b + low * b;
    assert (a * p) * b == p * (a * b);
  }

  // ----- how many symbols a sub-table holds -----

  /** Up to the length where the look-ahead stops, some codes with these leading bits are left. */
  lemma {:induction false} SubBitsOpen(lens: Lens, root: nat, max: nat, p: nat, len: nat, left: int, c: nat, l: nat)
    requires root < len <= max
    requires left - c == (p + 1) * Pow2(len - root) - EndCode(lens, len)
    requires len <= l < root + SubBits(lens, root, max, len, left, c)
    ensures EndCode(lens, l) < (p + 1) * Pow2(l - root)
    decreases max - len
  {
    hide Pow2, EndCode, FirstCode;
    if len < l {
      TwicePow(p + 1, len - root);
      EndTwice(lens, len + 1);
      SubBitsOpen(lens, root, max, p, len + 1, 2 * (left - c), Count(lens, len + 1), l);
    }
  }

  /** A sub-table that starts with the `j`-th symbol: its leading bits and its size. */
  ghost predicate Sub(lens: Lens, root: nat, max: nat, j: nat, p: nat, c: nat, curr: nat) {
    && Bounded(lens) && Fits(lens) && Complete(lens) && max == MaxLen(lens, MAXBITS)
    && j < |Order(lens, MAXBITS)|
    && var t := Order(lens, MAXBITS)[j];
       && Used(lens, t) && lens[t] == root + c && 0 < c <= curr <= max - root
       && RootCode(lens, root, t) == p && Code(lens, t) == p * Pow2(c)
       && (forall l :: root + c <= l < root + curr ==> EndCode(lens, l) < (p + 1) * Pow2(l - root))
       && EndCode(lens, root + curr) >= (p + 1) * Pow2(curr)
  }

  lemma SubMade(lens: Lens, root: nat, max: nat, j: nat) returns (p: nat, c: nat, curr: nat)
    requires Bounded(lens) && Fits(lens) && Complete(lens) && max == MaxLen(lens, MAXBITS)
    requires 0 < j < |Order(lens, MAXBITS)| && InUse(lens, max, Order(lens, MAXBITS))
    requires NewSub(lens, root, max, Order(lens, MAXBITS), j)
    ensures Sub(lens, root, max, j, p, c, curr)
    ensures var t := Order(lens, MAXBITS)[j];
            curr == SubBitsAt(lens, root, max, t) && p == RootCode(lens, root, t) && c == lens[t] - root
  {
    hide *;
    StartsEven(lens, root, max, j);
    NewSubLong(lens, root, max, Order(lens, MAXBITS), j);
    var t := Order(lens, MAXBITS)[j];
    c, p, curr := lens[t] - root, RootCode(lens, root, t), SubBitsAt(lens, root, max, t);
    SubOpen(lens, root, max, t);
    SubClosed(lens, root, max, t);
    MakeSub(lens, root, max, j, p, c, curr);
  }

  lemma MakeSub(lens: Lens, root: nat, max: nat, j: nat, p: nat, c: nat, curr: nat)
    requires Bounded(lens) && Fits(lens) && Complete(lens) && max == MaxLen(lens, MAXBITS)
    requires j < |Order(lens, MAXBITS)|
    requires var t := Order(lens, MAXBITS)[j];
             && Used(lens, t) && lens[t] == root + c && 0 < c <= curr <= max - root
             && RootCode(lens, root, t) == p && Code(lens, t) == p * Pow2(c)
    requires forall l :: root + c <= l < root + curr ==> EndCode(lens, l) < (p + 1) * Pow2(l - root)
    requires EndCode(lens, root + curr) >= (p + 1) * Pow2(curr)
    ensures Sub(lens, root, max, j, p, c, curr)
  {
    hide Order, Pow2, Fits, Complete, MaxLen, EndCode, RootCode, Code, Bounded, Used;
  }

  /** The look-ahead does not stop while codes are left ... */
  lemma SubOpen(lens: Lens, root: nat, max: nat, t: nat)
    requires Used(lens, t) && root < lens[t] <= max
    requires Code(lens, t) == RootCode(lens, root, t) * Pow2(lens[t] - root)
    ensures lens[t] - root <= SubBitsAt(lens, root, max, t) <= max - root
    ensures forall l :: lens[t] <= l < root + SubBitsAt(lens, root, max, t) ==>
              EndCode(lens, l) < (RootCode(lens, root, t) + 1) * Pow2(l - root)
  {
    hide Pow2, EndCode, FirstCode, SubBits, CountTo, Count, RootCode;
    var p, c := RootCode(lens, root, t), lens[t] - root;
    CountMono(lens, t, |lens|, lens[t]);
    CountAll(lens, lens[t]);
    EndFirst(lens, lens[t]);
    PlusOne(p, Pow2(c));
    forall l | lens[t] <= l < root + SubBitsAt(lens, root, max, t)
      ensures EndCode(lens, l) < (p + 1) * Pow2(l - root)
    {
      SubBitsOpen(lens, root, max, p, lens[t], Pow2(c), Count(lens, lens[t]) - CountTo(lens, t, lens[t]), l);
    }
  }

  lemma CountAll(lens: Lens, len: nat)
    ensures CountTo(lens, |lens|, len) == Count(lens, len)
  {
  }

  /** ... and stops at the longest length at the latest, where the leading bits of a complete code are used up. */
  lemma SubClosed(lens: Lens, root: nat, max: nat, t: nat)
    requires Fits(lens) && Complete(lens) && max == MaxLen(lens, MAXBITS)
    requires Used(lens, t) && root < lens[t] <= max && SubBitsAt(lens, root, max, t) <= max - root
    ensures EndCode(lens, root + SubBitsAt(lens, root, max, t)) >=
            (RootCode(lens, root, t) + 1) * Pow2(SubBitsAt(lens, root, max, t))
  {
    hide Pow2, EndCode, SubBitsAt, RootCode, Fits, Complete, MaxLen;
    SubBitsAtRoomy(lens, root, max, t);
    CompleteAtMax(lens);
    ClosedAtMax(lens, root, max, t);
  }

  lemma EndFirst(lens: Lens, len: nat)
    requires len > 0
    ensures EndCode(lens, len) == FirstCode(lens, len) + Count(lens, len)
  {
  }

  lemma ClosedAtMax(lens: Lens, root: nat, max: nat, t: nat)
    requires Used(lens, t) && Fits(lens) && root < lens[t] <= max
    ensures (RootCode(lens, root, t) + 1) * Pow2(max - root) <= Pow2(max)
  {
    hide Pow2, Shr, Code;
    CodeBound(lens, t);
    ShrBound(Code(lens, t), lens[t] - root, root);
    var p := RootCode(lens, root, t);
    Scale(p + 1, 1, Pow2(max - root), Pow2(root));
    Pow2Add(root, max - root);
  }

  lemma OpenAt(lens: Lens, root: nat, max: nat, j: nat, p: nat, c: nat, curr: nat, l: nat)
    requires Sub(lens, root, max, j, p, c, curr) && root + c <= l < root + curr
    ensures EndCode(lens, l) < (p + 1) * Pow2(l - root)
  {
    hide Order, Fits, Complete, MaxLen, RootCode, Pow2, EndCode, Code, Used, Bounded;
  }

  lemma ClosedAt(lens: Lens, root: nat, max: nat, j: nat, p: nat, c: nat, curr: nat)
    requires Sub(lens, root, max, j, p, c, curr)
    ensures c <= curr && EndCode(lens, root + curr) >= (p + 1) * Pow2(curr)
  {
    hide Order, Fits, Complete, MaxLen, RootCode, Pow2, EndCode, Code, Used, Bounded;
  }

  lemma SubFirst(lens: Lens, root: nat, max: nat, j: nat, p: nat, c: nat, curr: nat)
    requires Sub(lens, root, max, j, p, c, curr)
    ensures Bounded(lens) && j < |Order(lens, MAXBITS)| && 0 < c
    ensures var t := Order(lens, MAXBITS)[j]; Used(lens, t) && lens[t] == root + c && Code(lens, t) == p * Pow2(c)
  {
    hide Order, Fits, Complete, MaxLen, RootCode, Pow2, EndCode, Code, Used, Bounded;
  }

  /** At the length of its first symbol a sub-table has room for Pow2(c) codes. */
  lemma FirstLevel(lens: Lens, root: nat, max: nat, j: nat, p: nat, c: nat, curr: nat)
    requires Sub(lens, root, max, j, p, c, curr)
    ensures |Order(lens, root + c)| - j + (p + 1) * Pow2(c) - EndCode(lens, root + c) == Pow2(c)
    ensures j + FirstCode(lens, root + c) == |Order(lens, root + c - 1)| + p * Pow2(c)
    ensures (p + 1) * Pow2(c) == p * Pow2(c) + Pow2(c)
  {
    hide *;
    SubFirst(lens, root, max, j, p, c, curr);
    Place(lens, j);
    PlusOne(p, Pow2(c));
    Longer(lens, root + c);
    EndFirst(lens, root + c);
  }

  /** Each length at which codes are left adds at least one symbol to a sub-table. */
  lemma {:induction false} Holds(lens: Lens, root: nat, max: nat, j: nat, p: nat, c: nat, curr: nat, l: nat)
    requires Sub(lens, root, max, j, p, c, curr) && root + c <= l <= root + curr
    ensures |Order(lens, l)| - j + (p + 1) * Pow2(l - root) - EndCode(lens, l) >= Pow2(c) + (l - root - c)
    decreases l
  {
    hide *;
    if l == root + c {
      FirstLevel(lens, root, max, j, p, c, curr);
    } else {
      Holds(lens, root, max, j, p, c, curr, l - 1);
      OpenAt(lens, root, max, j, p, c, curr, l - 1);
      TwicePow(p + 1, l - 1 - root);
      Longer(lens, l);
      EndTwice(lens, l);
    }
  }

  lemma EndTwice(lens: Lens, len: nat)
    requires len > 0
    ensures EndCode(lens, len) == 2 * EndCode(lens, len - 1) + Count(lens, len)
    ensures FirstCode(lens, len) == 2 * EndCode(lens, len - 1)
  {
  }

  lemma TwicePow(a: nat, k: nat)
    ensures a * Pow2(k + 1) == 2 * (a * Pow2(k))
  {
    hide Pow2;
    assert Pow2(k + 1) == 2 * Pow2(k) by { PowStep(k); }
  }

  lemma PowStep(k: nat)
    ensures Pow2(k + 1) == 2 * Pow2(k)
  {
  }

  /** The symbols that follow the sub-table in the order. */
  lemma SubEnds(lens: Lens, root: nat, max: nat, j: nat, p: nat, c: nat, curr: nat, n: nat)
    requires Sub(lens, root, max, j, p, c, curr) && j < n < |Order(lens, MAXBITS)|
    requires var t := Order(lens, MAXBITS)[n];
             Used(lens, t) && lens[t] > root && RootCode(lens, root, t) != p
    ensures lens[Order(lens, MAXBITS)[n]] >= root + curr && n - j >= Pow2(c) + (curr - c)
  {
    hide Order, Fits, Complete, MaxLen, RootCode, Pow2, FirstCode, EndCode, Code;
    var s, t := Order(lens, MAXBITS)[j], Order(lens, MAXBITS)[n];
    OrderSorted(lens, j, n);
    RootCodeMono(lens, root, s, t);
    var len := lens[t];
    Place(lens, n);
    AboveNext(lens, root, t, p);
    if len < root + curr {
      assert false;
    } else if len == root + curr {
      LastLevel(lens, root, max, j, p, c, curr, n);
    } else {
      LongerMono(lens, root + curr, len - 1);
      ClosedAt(lens, root, max, j, p, c, curr);
      Holds(lens, root, max, j, p, c, curr, root + curr);
    }
  }

  lemma AboveNext(lens: Lens, root: nat, t: nat, p: nat)
    requires Used(lens, t) && lens[t] > root && RootCode(lens, root, t) > p
    ensures Code(lens, t) >= (p + 1) * Pow2(lens[t] - root)
  {
    hide Code, Pow2, Shr, Low;
    ShrLow(Code(lens, t), lens[t] - root);
    MulMono(Pow2(lens[t] - root), p + 1, RootCode(lens, root, t));
  }

  lemma LastLevel(lens: Lens, root: nat, max: nat, j: nat, p: nat, c: nat, curr: nat, n: nat)
    requires Sub(lens, root, max, j, p, c, curr) && j < n < |Order(lens, MAXBITS)|
    requires var t := Order(lens, MAXBITS)[n];
             && Used(lens, t) && lens[t] == root + curr
             && n + FirstCode(lens, root + curr) == |Order(lens, root + curr - 1)| + Code(lens, t)
             && Code(lens, t) >= (p + 1) * Pow2(curr)
    ensures n - j >= Pow2(c) + (curr - c)
  {
    hide *;
    FirstLevel(lens, root, max, j, p, c, curr);
    ClosedAt(lens, root, max, j, p, c, curr);
    if curr > c {
      var before := root + curr - 1;
      Holds(lens, root, max, j, p, c, curr, before);
      OpenAt(lens, root, max, j, p, c, curr, before);
      TwicePow(p + 1, curr - 1);
      EndTwice(lens, root + curr);
      Rest(n - j, Pow2(c) + (curr - c), |Order(lens, before)| - j, (p + 1) * Pow2(curr - 1), EndCode(lens, before));
    }
  }

  lemma Rest(n: int, want: int, held: int, room: nat, end: nat)
    requires n >= held + 2 * room - 2 * end
    requires held + room - end >= want - 1 && end < room
    ensures n >= want
  {
  }

  // ----- the sum over all sub-tables -----

  /** By how much `c` index bits outnumber the symbols that force a sub-table to have them. */
  function Excess(c: nat): int {
    Pow2(c) - c - 1
  }

  lemma {:induction false} ExcessMono(a: nat, b: nat)
    requires a <= b
    ensures 0 <= Excess(a) <= Excess(b)
    decreases b
  {
    if a < b {
      ExcessMono(a, b - 1);
    } else if a > 0 {
      ExcessMono(a - 1, a - 1);
    }
  }

  /** The code is complete, some of its codes are longer than `root` bits, and the first one is not. */
  ghost predicate Long(lens: Lens, root: nat, max: nat) {
    && Bounded(lens) && Fits(lens) && Complete(lens) && max == MaxLen(lens, MAXBITS) && root < max
    && InUse(lens, max, Order(lens, MAXBITS)) && |Order(lens, MAXBITS)| > 0
    && lens[Order(lens, MAXBITS)[0]] <= root
  }

  /** Before the first long code there is only the root table. */
  lemma {:induction false} OnlyRoot(lens: Lens, root: nat, max: nat, i: nat)
    requires Long(lens, root, max) && i < |Order(lens, MAXBITS)| && lens[Order(lens, MAXBITS)[i]] <= root
    ensures TableSize(lens, root, max, Order(lens, MAXBITS), i) == Pow2(root)
  {
    hide Order, Fits, Complete, MaxLen, Pow2, RootCode;
    if i > 0 {
      OrderSorted(lens, i - 1, i);
      OnlyRoot(lens, root, max, i - 1);
    }
  }

  /** The first long code stands after all short ones. */
  lemma FirstLong(lens: Lens, root: nat, max: nat, i: nat)
    requires Long(lens, root, max) && 0 < i < |Order(lens, MAXBITS)|
    requires lens[Order(lens, MAXBITS)[i - 1]] <= root < lens[Order(lens, MAXBITS)[i]]
    ensures i == |Order(lens, root)|
  {
    hide Order, Fits, Complete, MaxLen, Pow2, RootCode, Code;
    NextInOrder(lens, i);
    var s, t := Order(lens, MAXBITS)[i - 1], Order(lens, MAXBITS)[i];
    LongerMono(lens, lens[s], root);
    LongerMono(lens, root, lens[t] - 1);
  }

  /** What has been taken up by the sub-tables up to the one that the `i`-th symbol is in. */
  ghost predicate Taken(lens: Lens, root: nat, max: nat, i: nat, j: nat, p: nat, c: nat, curr: nat) {
    && Long(lens, root, max) && j <= i < |Order(lens, MAXBITS)| && Sub(lens, root, max, j, p, c, curr)
    && var t := Order(lens, MAXBITS)[i];
       && Used(lens, t) && lens[t] > root && RootCode(lens, root, t) == p
       && TableSize(lens, root, max, Order(lens, MAXBITS), i) + |Order(lens, root)|
          <= Pow2(root) + j + Excess(c) + Pow2(curr)
  }

  lemma {:induction false} SubSpace(lens: Lens, root: nat, max: nat, i: nat)
    returns (j: nat, p: nat, c: nat, curr: nat)
    requires Long(lens, root, max) && i < |Order(lens, MAXBITS)| && lens[Order(lens, MAXBITS)[i]] > root
    ensures Taken(lens, root, max, i, j, p, c, curr)
  {
    hide *;
    LongParts(lens, root, max);
    var order := Order(lens, MAXBITS);
    SizeNext(lens, root, max, order, i);
    Place(lens, i);
    if lens[order[i - 1]] <= root {
      OnlyRoot(lens, root, max, i - 1);
      FirstLong(lens, root, max, i);
      NewSubIs(lens, root, max, order, i);
      p, c, curr := SubMade(lens, root, max, i);
      j := i;
      ExcessMono(c, c);
      MakeTaken(lens, root, max, i, i, p, c, curr);
    } else {
      j, p, c, curr := SubSpace(lens, root, max, i - 1);
      NewSubIs(lens, root, max, order, i);
      TakenParts(lens, root, max, i - 1, j, p, c, curr);
      if NewSub(lens, root, max, order, i) {
        SubEnds(lens, root, max, j, p, c, curr, i);
        var p', c', curr' := SubMade(lens, root, max, i);
        ExcessIs(c, curr);
        ExcessMono(curr, c');
        MakeTaken(lens, root, max, i, i, p', c', curr');
        return i, p', c', curr';
      }
      MakeTaken(lens, root, max, i, j, p, c, curr);
    }
  }

  lemma LongParts(lens: Lens, root: nat, max: nat)
    requires Long(lens, root, max)
    ensures Bounded(lens) && Fits(lens) && Complete(lens) && max == MaxLen(lens, MAXBITS) && root < max
    ensures InUse(lens, max, Order(lens, MAXBITS)) && |Order(lens, MAXBITS)| > 0
    ensures forall i :: 0 <= i < |Order(lens, MAXBITS)| ==> Order(lens, MAXBITS)[i] < |lens|
    ensures lens[Order(lens, MAXBITS)[0]] <= root
  {
    hide Order, Fits, Complete, MaxLen, Bounded;
  }

  lemma NewSubIs(lens: Lens, root: nat, max: nat, order: seq<nat>, i: nat)
    requires 0 < i < |order| && InUse(lens, max, order)
    requires Used(lens, order[i]) && lens[order[i]] > root
    ensures order[i] < |lens| && order[i - 1] < |lens|
    ensures lens[order[i - 1]] <= root ==> NewSub(lens, root, max, order, i)
    ensures lens[order[i - 1]] > root ==>
              Used(lens, order[i - 1]) && (NewSub(lens, root, max, order, i) <==>
                RootCode(lens, root, order[i]) != RootCode(lens, root, order[i - 1]))
  {
    hide RootCode;
  }

  lemma SizeNext(lens: Lens, root: nat, max: nat, order: seq<nat>, i: nat)
    requires i < |order| && InUse(lens, max, order) && order[0] < |lens| && order[i] < |lens|
    requires lens[order[0]] <= root < lens[order[i]]
    ensures i > 0
    ensures TableSize(lens, root, max, order, i) == TableSize(lens, root, max, order, i - 1) +
            if NewSub(lens, root, max, order, i) then Pow2(SubBitsAt(lens, root, max, order[i])) else 0
  {
    hide NewSub, SubBitsAt, Pow2;
  }

  lemma ExcessIs(c: nat, curr: nat)
    ensures Excess(c) == Pow2(c) - c - 1 && Excess(curr) == Pow2(curr) - curr - 1
  {
    hide Pow2;
  }

  lemma TakenParts(lens: Lens, root: nat, max: nat, i: nat, j: nat, p: nat, c: nat, curr: nat)
    requires Taken(lens, root, max, i, j, p, c, curr)
    ensures Long(lens, root, max) && j <= i < |Order(lens, MAXBITS)| && Sub(lens, root, max, j, p, c, curr)
    ensures InUse(lens, max, Order(lens, MAXBITS)) && c <= curr <= max - root && 0 < c
    ensures TableSize(lens, root, max, Order(lens, MAXBITS), i) + |Order(lens, root)|
            <= Pow2(root) + j + Excess(c) + Pow2(curr)
    ensures var t := Order(lens, MAXBITS)[i]; Used(lens, t) && lens[t] > root && RootCode(lens, root, t) == p
  {
    hide Order, Fits, Complete, MaxLen, Bounded, RootCode, Excess, Pow2, TableSize, EndCode, Code;
  }

  lemma MakeTaken(lens: Lens, root: nat, max: nat, i: nat, j: nat, p: nat, c: nat, curr: nat)
    requires Long(lens, root, max) && j <= i < |Order(lens, MAXBITS)| && Sub(lens, root, max, j, p, c, curr)
    requires InUse(lens, max, Order(lens, MAXBITS))
    requires var t := Order(lens, MAXBITS)[i]; Used(lens, t) && lens[t] > root && RootCode(lens, root, t) == p
    requires TableSize(lens, root, max, Order(lens, MAXBITS), i) + |Order(lens, root)|
             <= Pow2(root) + j + Excess(c) + Pow2(curr)
    ensures Taken(lens, root, max, i, j, p, c, curr)
  {
    hide Order, Long, Sub, RootCode, Excess, Pow2, TableSize;
  }

  /** All tables together: one entry for each long code, and what the longest look-ahead adds. */
  lemma SpaceBound(lens: Lens, root: nat, max: nat)
    requires Long(lens, root, max)
    ensures InUse(lens, max, Order(lens, MAXBITS)) && |Order(lens, MAXBITS)| > 0
    ensures TableSize(lens, root, max, Order(lens, MAXBITS), |Order(lens, MAXBITS)| - 1)
            <= Pow2(root) + |Order(lens, MAXBITS)| - |Order(lens, root)| + Excess(max - root)
  {
    hide *;
    LongParts(lens, root, max);
    var order := Order(lens, MAXBITS);
    var i := |order| - 1;
    LastIsLong(lens, root, max);
    var j, p, c, curr := SubSpace(lens, root, max, i);
    TakenParts(lens, root, max, i, j, p, c, curr);
    Holds(lens, root, max, j, p, c, curr, root + curr);
    ClosedAt(lens, root, max, j, p, c, curr);
    MaxIs(lens);
    LongerMono(lens, root + curr, MAXBITS);
    ExcessIs(c, curr);
    ExcessMono(curr, max - root);
  }

  lemma MaxIs(lens: Lens)
    ensures MAXBITS == 15 && MaxLen(lens, MAXBITS) <= 15
  {
  }

  /** The last code in the order has the greatest length. */
  lemma LastIsLong(lens: Lens, root: nat, max: nat)
    requires Long(lens, root, max)
    ensures var order := Order(lens, MAXBITS); |order| > 0 && lens[order[|order| - 1]] == max
  {
    hide Order, Fits, Complete, Bounded, Count, EndCode;
    var order := Order(lens, MAXBITS);
    Longer(lens, max);
    LongerMono(lens, max, MAXBITS);
    Place(lens, |order| - 1);
    var s := order[|order| - 1];
    if lens[s] < max {
      LongerMono(lens, lens[s], max - 1);
      Longer(lens, lens[s]);
    }
  }

  lemma {:induction false} SizeEven(lens: Lens, root: nat, max: nat, order: seq<nat>, i: nat)
    requires i < |order| && InUse(lens, max, order) && root > 0
    ensures TableSize(lens, root, max, order, i) % 2 == 0
  {
    hide Pow2, NewSub;
    PowStep(root - 1);
    if i > 0 {
      SizeEven(lens, root, max, order, i - 1);
      if NewSub(lens, root, max, order, i) {
        NewSubLong(lens, root, max, order, i);
        PowStep(SubBitsAt(lens, root, max, order[i]) - 1);
      }
    }
  }

  lemma NewSubLong(lens: Lens, root: nat, max: nat, order: seq<nat>, i: nat)
    requires 0 < i < |order| && InUse(lens, max, order) && NewSub(lens, root, max, order, i)
    ensures Used(lens, order[i]) && order[i] < |lens| && root < lens[order[i]] <= max
    ensures 0 < lens[order[i]] - root <= SubBitsAt(lens, root, max, order[i]) <= max - root
  {
    hide Pow2, RootCode;
  }

  // ----- how many symbols there are -----

  /** Used symbols of length at most `len` among the first `n`. */
  function Tally(lens: Lens, n: nat, len: nat): nat
    requires n <= |lens|
  {
    if len == 0 then 0 else Tally(lens, n, len - 1) + CountTo(lens, n, len)
  }

  lemma {:induction false} TallyNext(lens: Lens, n: nat, len: nat)
    requires n < |lens|
    ensures Tally(lens, n + 1, len) == Tally(lens, n, len) + if 0 < lens[n] <= len then 1 else 0
  {
    if len > 0 {
      TallyNext(lens, n, len - 1);
    }
  }

  lemma {:induction false} TallyBound(lens: Lens, n: nat, len: nat)
    requires n <= |lens|
    ensures Tally(lens, n, len) <= n
  {
    hide CountTo;
    if n > 0 {
      TallyBound(lens, n - 1, len);
      TallyNext(lens, n - 1, len);
    } else {
      NoneTallied(lens, len);
    }
  }

  lemma {:induction false} NoneTallied(lens: Lens, len: nat)
    ensures Tally(lens, 0, len) == 0
  {
    if len > 0 {
      NoneTallied(lens, len - 1);
    }
  }

  lemma {:induction false} TallyIs(lens: Lens, len: nat)
    ensures |Order(lens, len)| == Tally(lens, |lens|, len)
  {
    hide CountTo;
    if len > 0 {
      TallyIs(lens, len - 1);
      Longer(lens, len);
    }
  }

  lemma UsedBound(lens: Lens, len: nat)
    ensures |Order(lens, len)| <= |lens|
  {
    hide Order, Tally;
    TallyIs(lens, len);
    TallyBound(lens, |lens|, len);
  }

  /** Where short codes leave room, there are at least two long codes for each place. */
  lemma {:induction false} LongCount(lens: Lens, root: nat, len: nat)
    requires Fits(lens) && root < len <= MAXBITS
    ensures |Order(lens, len)| - |Order(lens, root)| + Pow2(len) - EndCode(lens, len)
            >= 2 * (Pow2(root) - EndCode(lens, root))
    decreases len
  {
    hide Order, Pow2, EndCode, FirstCode;
    Longer(lens, len);
    EndTwice(lens, len);
    PowStep(len - 1);
    if len > root + 1 {
      LongCount(lens, root, len - 1);
      assert EndCode(lens, len - 1) <= Pow2(len - 1);
    }
  }

  lemma LongAll(lens: Lens, root: nat)
    requires Fits(lens) && Complete(lens) && root < MAXBITS
    ensures |Order(lens, MAXBITS)| >= |Order(lens, root)| + 2 * (Pow2(root) - EndCode(lens, root))
  {
    hide Order, Pow2, EndCode, Fits;
    LongCount(lens, root, MAXBITS);
  }

  /** Few short codes leave much room, unless there are two of one bit. */
  lemma {:induction false} ShortCount(lens: Lens, len: nat)
    requires Count(lens, 1) <= 1 && 0 < len
    ensures 4 * EndCode(lens, len) <= (|Order(lens, len)| + 1) * Pow2(len)
  {
    hide Order, EndCode, FirstCode, Pow2;
    Longer(lens, len);
    EndTwice(lens, len);
    PowStep(len - 1);
    if len > 1 {
      ShortCount(lens, len - 1);
      PowStep(len - 2);
      Grow(EndCode(lens, len - 1), |Order(lens, len - 1)|, Count(lens, len), Pow2(len - 1));
    } else {
      ZeroOrder(lens);
    }
  }

  lemma ZeroOrder(lens: Lens)
    ensures |Order(lens, 0)| == 0 && EndCode(lens, 0) == 0 && Pow2(0) == 1 && Pow2(1) == 2
  {
  }

  lemma Grow(e: nat, o: nat, c: nat, q: nat)
    requires 4 * e <= (o + 1) * q && q >= 2
    ensures 4 * (2 * e + c) <= (o + c + 1) * (2 * q)
  {
    assert (o + c + 1) * (2 * q) == 2 * ((o + 1) * q) + c * (2 * q);
    MulMono(c, 4, 2 * q);
  }

  /** Two codes of one bit leave no room for others. */
  lemma OneOfOne(lens: Lens, max: nat)
    requires Fits(lens) && 1 < max <= MAXBITS && Count(lens, max) > 0
    ensures Count(lens, 1) <= 1
  {
    hide Order, FirstCode, Pow2, Count;
    EndOne(lens);
    if Count(lens, 1) > 1 {
      FirstAfterEnd(lens, 1, max);
      EndFirst(lens, max);
      assert EndCode(lens, max) <= Pow2(max);
      PowStep(max - 1);
    }
  }

  lemma EndOne(lens: Lens)
    ensures EndCode(lens, 1) == Count(lens, 1)
  {
    assert EndCode(lens, 0) == 0;
  }

  // ----- the root table -----

  lemma {:induction false} NoneShorter(lens: Lens, len: nat)
    requires forall l :: 0 < l <= len ==> Count(lens, l) == 0
    ensures EndCode(lens, len) == 0 && |Order(lens, len)| == 0
  {
    if len > 0 {
      NoneShorter(lens, len - 1);
      Longer(lens, len);
    }
  }

  /** The shortest code has few bits, because there are few symbols. */
  lemma ShortestFits(lens: Lens, min: nat, max: nat)
    requires Bounded(lens) && Fits(lens) && Complete(lens) && 0 < max == MaxLen(lens, MAXBITS)
    requires min == MinLen(lens, 1, max)
    ensures Pow2(min) <= |lens|
  {
    hide Order, Pow2, Count, Fits, Complete, EndCode, MaxLen, Bounded;
    MinMax(lens, max);
    NoneShorter(lens, min - 1);
    LongAll(lens, min - 1);
    PowStep(min - 1);
    UsedBound(lens, MAXBITS);
  }

  lemma MinMax(lens: Lens, max: nat)
    requires 0 < max == MaxLen(lens, MAXBITS)
    ensures var min := MinLen(lens, 1, max);
            && 0 < min <= max <= MAXBITS && Count(lens, min) > 0 && Count(lens, max) > 0
            && forall l :: 0 < l <= min - 1 ==> Count(lens, l) == 0
  {
    hide Count;
  }

  lemma FirstIsShort(lens: Lens, min: nat)
    requires Bounded(lens) && 0 < min <= MAXBITS && Count(lens, min) > 0
    ensures |Order(lens, MAXBITS)| > 0
    ensures Order(lens, MAXBITS)[0] < |lens| && lens[Order(lens, MAXBITS)[0]] <= min
  {
    hide Order, Count, Bounded, EndCode, FirstCode, Code;
    Longer(lens, min);
    LongerMono(lens, min, MAXBITS);
    Place(lens, 0);
    var s := Order(lens, MAXBITS)[0];
    if min < lens[s] {
      LongerMono(lens, min, lens[s] - 1);
    }
  }

  // ----- which codes are accepted -----

  /** Code lengths as a block can declare them: sections 3.2.5 to 3.2.7 of RFC 1951. */
  predicate Declared(kind: Kind, lens: Lens) {
    match kind
    case Codes => |lens| <= 19 && forall i :: 0 <= i < |lens| ==> lens[i] <= 7
    case LenCodes => |lens| <= 286 && forall i :: 0 <= i < |lens| ==> lens[i] <= 15
    case DistCodes => |lens| <= 30 && forall i :: 0 <= i < |lens| ==> lens[i] <= 15
  }

  lemma RootIs(kind: Kind, lens: Lens)
    requires Declared(kind, lens) && Fits(lens) && Complete(lens) && MaxLen(lens, MAXBITS) > 0
    ensures Bounded(lens)
    ensures var root, max := RootBits(kind, lens), MaxLen(lens, MAXBITS);
            && (root == max <= RequestBits(kind) || (kind != Codes && root == RequestBits(kind) < max))
            && MinLen(lens, 1, max) <= root
  {
    hide Pow2, Count, Fits, Complete, MaxLen;
    var max := MaxLen(lens, MAXBITS);
    MinMax(lens, max);
    MaxUsed(lens, max);
    var min := MinLen(lens, 1, max);
    ShortestFits(lens, min, max);
    Pow2Small();
    if min > RequestBits(kind) {
      Pow2Mono(RequestBits(kind) + 1, min);
    }
  }

  lemma {:induction false} CountedAt(lens: Lens, n: nat, len: nat) returns (s: nat)
    requires n <= |lens| && CountTo(lens, n, len) > 0
    ensures s < n && lens[s] == len
  {
    if lens[n - 1] == len {
      s := n - 1;
    } else {
      s := CountedAt(lens, n - 1, len);
    }
  }

  lemma MaxUsed(lens: Lens, max: nat)
    requires Count(lens, max) > 0
    ensures exists s :: 0 <= s < |lens| && lens[s] == max
  {
    var s := CountedAt(lens, |lens|, max);
  }

  /** Every complete code that a block can declare fits into the space for its tables. */
  lemma CompleteFits(kind: Kind, lens: Lens)
    requires Declared(kind, lens) && Fits(lens) && Complete(lens) && MaxLen(lens, MAXBITS) > 0
    ensures Bounded(lens) && SpaceNeeded(kind, lens) <= Enough(kind)
  {
    hide *;
    RootIs(kind, lens);
    MaxIs(lens);
    Pow2Small();
    Numbers(kind, lens);
    var root, max := RootBits(kind, lens), MaxLen(lens, MAXBITS);
    MinMax(lens, max);
    FirstIsShort(lens, MinLen(lens, 1, max));
    OrderInUse(lens, MAXBITS);
    var order := Order(lens, MAXBITS);
    SpaceIs(kind, lens);
    if root == max {
      NoSubTables(lens, root, max, order, |order| - 1);
      Pow2Mono(root, RequestBits(kind));
    } else {
      MakeLong(lens, root, max);
      SpaceBound(lens, root, max);
      SizeEven(lens, root, max, order, |order| - 1);
      UsedBound(lens, MAXBITS);
      OneOfOne(lens, max);
      ShortCount(lens, root);
      LongAll(lens, root);
      ExcessIs(max - root, 15 - root);
      ExcessMono(max - root, 15 - root);
    }
  }

  lemma Numbers(kind: Kind, lens: Lens)
    requires Declared(kind, lens)
    ensures RequestBits(LenCodes) == 9 && RequestBits(DistCodes) == 6 && RequestBits(Codes) == 7
    ensures Enough(LenCodes) == 852 && Enough(DistCodes) == 592 && Enough(Codes) >= 128
    ensures kind == LenCodes || kind == DistCodes || kind == Codes
    ensures |lens| <= if kind == LenCodes then 286 else 30
  {
  }

  lemma SpaceIs(kind: Kind, lens: Lens)
    requires Bounded(lens) && MaxLen(lens, MAXBITS) > 0
    requires |Order(lens, MAXBITS)| > 0 && InUse(lens, MaxLen(lens, MAXBITS), Order(lens, MAXBITS))
    ensures SpaceNeeded(kind, lens) == TableSize(lens, RootBits(kind, lens), MaxLen(lens, MAXBITS),
            Order(lens, MAXBITS), |Order(lens, MAXBITS)| - 1)
  {
    hide TableSize, Order, RootBits, MaxLen;
  }

  lemma MakeLong(lens: Lens, root: nat, max: nat)
    requires Bounded(lens) && Fits(lens) && Complete(lens) && max == MaxLen(lens, MAXBITS) && root < max
    requires InUse(lens, max, Order(lens, MAXBITS)) && |Order(lens, MAXBITS)| > 0
    requires Order(lens, MAXBITS)[0] < |lens| && lens[Order(lens, MAXBITS)[0]] <= root
    ensures Long(lens, root, max)
  {
    hide Order, Fits, Complete, MaxLen, Bounded;
  }

  /** The Kraft sum of the first `n` lengths, in units of the smallest code: the share of all codes they use up. */
  function Kraft(lens: Lens, n: nat): nat
    requires n <= |lens| && Bounded(lens)
  {
    if n == 0 then 0 else Kraft(lens, n - 1) + if lens[n - 1] == 0 then 0 else Pow2(MAXBITS - lens[n - 1])
  }

  /** The same sum, length by length. */
  function Weighed(lens: Lens, n: nat, len: nat): nat
    requires n <= |lens| && len <= MAXBITS
  {
    if len == 0 then 0 else Weighed(lens, n, len - 1) + CountTo(lens, n, len) * Pow2(MAXBITS - len)
  }

  lemma {:induction false} WeighedNext(lens: Lens, n: nat, len: nat)
    requires n < |lens| && len <= MAXBITS
    ensures Weighed(lens, n + 1, len) ==
            Weighed(lens, n, len) + if 0 < lens[n] <= len then Pow2(MAXBITS - lens[n]) else 0
  {
    hide Pow2;
    if len > 0 {
      WeighedNext(lens, n, len - 1);
      Times(CountTo(lens, n, len), Pow2(MAXBITS - len));
    }
  }

  lemma {:induction false} NoneWeighed(lens: Lens, len: nat)
    requires len <= MAXBITS
    ensures Weighed(lens, 0, len) == 0
  {
    hide Pow2;
    if len > 0 {
      NoneWeighed(lens, len - 1);
    }
  }

  lemma {:induction false} KraftWeighed(lens: Lens, n: nat)
    requires n <= |lens| && Bounded(lens)
    ensures Kraft(lens, n) == Weighed(lens, n, MAXBITS)
  {
    hide Pow2, Weighed;
    if n > 0 {
      KraftWeighed(lens, n - 1);
      WeighedNext(lens, n - 1, MAXBITS);
    } else {
      NoneWeighed(lens, MAXBITS);
    }
  }

  lemma {:induction false} EndWeighed(lens: Lens, len: nat)
    requires len <= MAXBITS
    ensures EndCode(lens, len) * Pow2(MAXBITS - len) == Weighed(lens, |lens|, len)
    ensures EndCode(lens, len) * Pow2(MAXBITS - len) <= Weighed(lens, |lens|, MAXBITS)
  {
    hide Pow2, FirstCode, EndCode;
    if len > 0 {
      EndWeighed(lens, len - 1);
      EndTwice(lens, len);
      PowStep(MAXBITS - len);
      Halves(EndCode(lens, len - 1), Count(lens, len), Pow2(MAXBITS - len));
    } else {
      ZeroOrder(lens);
    }
    WeighedMono(lens, len, MAXBITS);
  }

  lemma Halves(e: nat, c: nat, q: nat)
    ensures (2 * e + c) * q == e * (2 * q) + c * q
  {
  }

  lemma {:induction false} WeighedMono(lens: Lens, a: nat, b: nat)
    requires a <= b <= MAXBITS
    ensures Weighed(lens, |lens|, a) <= Weighed(lens, |lens|, b)
    decreases b
  {
    hide Pow2, CountTo;
    if a < b {
      WeighedMono(lens, a, b - 1);
    }
  }

  /** The codes that do not use up more than there is, and those that use up everything. */
  lemma KraftIs(lens: Lens)
    requires Bounded(lens)
    ensures Fits(lens) <==> Kraft(lens, |lens|) <= 32768
    ensures Complete(lens) <==> Kraft(lens, |lens|) == 32768
  {
    hide EndCode, Weighed, Kraft;
    KraftWeighed(lens, |lens|);
    EndWeighed(lens, MAXBITS);
    Pow2Small();
    if Kraft(lens, |lens|) <= 32768 {
      forall len | 0 <= len <= MAXBITS
        ensures EndCode(lens, len) <= Pow2(len)
      {
        EndWeighed(lens, len);
        Pow2Add(len, MAXBITS - len);
        hide Pow2;
        if EndCode(lens, len) > Pow2(len) {
          MulGap(Pow2(MAXBITS - len), EndCode(lens, len), Pow2(len));
        }
      }
    }
  }

  /** One symbol has a code, and it has one bit. */
  predicate OneBit(lens: Lens) {
    exists s :: 0 <= s < |lens| && lens[s] == 1 && forall t :: 0 <= t < |lens| && t != s ==> lens[t] == 0
  }

  /**
    The table builder refuses no valid code: of the lengths a block can declare it accepts those with no codes,
    the complete codes, and the one-bit code for a single symbol, except for code lengths.  Space never runs
    out.
   */
  lemma AcceptsExactly(kind: Kind, lens: Lens)
    requires Declared(kind, lens)
    ensures Bounded(lens)
    ensures Accepts(kind, lens) <==>
            Kraft(lens, |lens|) == 0 || Kraft(lens, |lens|) == 32768 || (kind != Codes && OneBit(lens))
  {
    hide *;
    DeclaredBounded(kind, lens);
    KraftIs(lens);
    AcceptsForm(kind, lens);
    var max := MaxLen(lens, MAXBITS);
    NoCodesKraft(lens);
    if max > 0 {
      if Fits(lens) && Complete(lens) {
        CompleteFits(kind, lens);
      } else if kind != Codes {
        SingleIs(lens);
        if OneBit(lens) {
          SingleFits(kind, lens);
        }
      }
    } else {
      NotOneBit(lens);
    }
  }

  lemma DeclaredBounded(kind: Kind, lens: Lens)
    requires Declared(kind, lens)
    ensures Bounded(lens)
  {
  }

  lemma AcceptsForm(kind: Kind, lens: Lens)
    requires Bounded(lens)
    ensures var max := MaxLen(lens, MAXBITS);
            Accepts(kind, lens) <==>
            max == 0 ||
            (Fits(lens) && (Complete(lens) || (kind != Codes && max == 1)) && SpaceNeeded(kind, lens) <= Enough(kind))
  {
    hide SpaceNeeded, Fits, Complete, MaxLen;
  }

  lemma NoCodesKraft(lens: Lens)
    requires Bounded(lens)
    ensures MaxLen(lens, MAXBITS) == 0 <==> Kraft(lens, |lens|) == 0
  {
    hide Kraft, Weighed, Count;
    KraftWeighed(lens, |lens|);
    var max := MaxLen(lens, MAXBITS);
    if max > 0 {
      WeighedAt(lens, max);
    } else {
      forall l | 0 < l <= MAXBITS
        ensures Count(lens, l) == 0
      {
      }
      NoneCounted(lens, MAXBITS);
    }
  }

  lemma WeighedAt(lens: Lens, len: nat)
    requires 0 < len <= MAXBITS && Count(lens, len) > 0
    ensures Weighed(lens, |lens|, MAXBITS) > 0
  {
    WeighedMono(lens, len, MAXBITS);
    hide Pow2;
    MulMono(Pow2(MAXBITS - len), 1, Count(lens, len));
  }

  lemma {:induction false} NoneCounted(lens: Lens, len: nat)
    requires len <= MAXBITS && forall l :: 0 < l <= len ==> Count(lens, l) == 0
    ensures Weighed(lens, |lens|, len) == 0
  {
    hide Pow2;
    if len > 0 {
      NoneCounted(lens, len - 1);
      assert Count(lens, len) == 0;
    }
  }

  lemma NotOneBit(lens: Lens)
    requires MaxLen(lens, MAXBITS) == 0
    ensures !OneBit(lens)
  {
    if OneBit(lens) {
      var s :| 0 <= s < |lens| && lens[s] == 1 && forall t :: 0 <= t < |lens| && t != s ==> lens[t] == 0;
      CountPrefix(lens, s, 1);
    }
  }

  /** An incomplete code of one bit is the code of a single symbol. */
  lemma SingleIs(lens: Lens)
    requires Bounded(lens) && 0 < MaxLen(lens, MAXBITS) && !(Fits(lens) && Complete(lens))
    ensures Fits(lens) && MaxLen(lens, MAXBITS) == 1 <==> OneBit(lens)
  {
    hide *;
    if OneBit(lens) {
      OneBitCount(lens);
    }
    if Fits(lens) && MaxLen(lens, MAXBITS) == 1 {
      OneOnly(lens);
    }
  }

  lemma {:induction false} OnlyOne(lens: Lens, n: nat, s: nat, len: nat)
    requires n <= |lens| && s < |lens| && lens[s] == 1 && forall t :: 0 <= t < |lens| && t != s ==> lens[t] == 0
    requires len > 0
    ensures CountTo(lens, n, len) == if s < n && len == 1 then 1 else 0
  {
    if n > 0 {
      OnlyOne(lens, n - 1, s, len);
    }
  }

  lemma {:induction false} OneKraft(lens: Lens, n: nat, s: nat)
    requires n <= |lens| && s < |lens| && lens[s] == 1 && forall t :: 0 <= t < |lens| && t != s ==> lens[t] == 0
    ensures Bounded(lens) && Kraft(lens, n) == if s < n then 16384 else 0
  {
    Pow2Small();
    hide Pow2;
    if n > 0 {
      OneKraft(lens, n - 1, s);
    }
  }

  lemma OneBitCount(lens: Lens)
    requires OneBit(lens)
    ensures Bounded(lens) && Fits(lens) && !Complete(lens) && MaxLen(lens, MAXBITS) == 1
  {
    var s :| 0 <= s < |lens| && lens[s] == 1 && forall t :: 0 <= t < |lens| && t != s ==> lens[t] == 0;
    OneKraft(lens, |lens|, s);
    hide Kraft, Pow2, EndCode, Fits, Complete;
    KraftIs(lens);
    CountPrefix(lens, s, 1);
    OnlyOne(lens, |lens|, s, if MaxLen(lens, MAXBITS) == 0 then 1 else MaxLen(lens, MAXBITS));
  }

  lemma OneOnly(lens: Lens)
    requires MaxLen(lens, MAXBITS) == 1 && Fits(lens) && !Complete(lens) && Bounded(lens)
    ensures OneBit(lens)
  {
    hide Fits, Complete, EndCode;
    CompleteAtMax(lens);
    EndOne(lens);
    assert EndCode(lens, 1) <= Pow2(1) == 2 by { FitsAt(lens, 1); Pow2Small(); }
    var s := CountedAt(lens, |lens|, 1);
    forall t | 0 <= t < |lens| && t != s
      ensures lens[t] == 0
    {
      CountPrefix(lens, t, lens[t]);
      if lens[t] == 1 {
        CountMono(lens, (if s < t then s else t) + 1, if s < t then t else s, 1);
        CountMono(lens, (if s < t then t else s) + 1, |lens|, 1);
      }
    }
  }

  lemma FitsAt(lens: Lens, len: nat)
    requires Fits(lens) && len <= MAXBITS
    ensures EndCode(lens, len) <= Pow2(len)
  {
  }

  /** The table for a single code has two entries. */
  lemma SingleFits(kind: Kind, lens: Lens)
    requires Bounded(lens) && MaxLen(lens, MAXBITS) == 1
    ensures SpaceNeeded(kind, lens) <= Enough(kind)
  {
    hide MaxLen, SpaceNeeded, Count;
    FixedSpace(kind, lens);
    assert Pow2(1) == 2;
  }
}
