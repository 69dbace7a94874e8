/**
  Why the table builder works: stepping through the codes with their bits reversed, and what each
  step leaves in the table.
 */
module TableLemmas {
  import opened Bits
  import opened Huffman
  import opened TableSpec

  // ----- the backwards increment -----

  /** Add one to a bit-reversed number of `len` bits; wraps to 0. */
  function RevIncr(huff: nat, len: nat): nat {
    if len == 0 then 0
    else if Shr(huff, len - 1) % 2 == 0 then Low(huff, len - 1) + Pow2(len - 1)
    else RevIncr(huff, len - 1)
  }

  lemma {:induction false} RevIncrLow(a: nat, b: nat, len: nat)
    requires Low(a, len) == Low(b, len)
    ensures RevIncr(a, len) == RevIncr(b, len)
  {
    if len > 0 {
      hide Low, Shr, Pow2;
      TopBit(a, len - 1);
      TopBit(b, len - 1);
      RevIncrLow(a, b, len - 1);
    }
  }

  lemma TopBit(v: nat, n: nat)
    ensures Shr(v, n) % 2 == Shr(Low(v, n + 1), n)
    ensures Low(v, n) == Low(Low(v, n + 1), n)
  {
    LowLow(v, n, n + 1);
    LowShr(v, n, 1);
    assert Low(Shr(v, n), 1) == Shr(v, n) % 2 + 2 * Low(Shr(v, n) / 2, 0);
  }

  lemma ValPush(w: Bits, b: bool)
    ensures Val(w + [b]) == Val(w) + Pow2(|w|) * Bit(b)
    ensures Shr(Val(w + [b]), |w|) == Bit(b) && Low(Val(w + [b]), |w|) == Val(w)
  {
    ValAppend(w, [b]);
    assert Val([b]) == Bit(b) by { assert Val([b][1..]) == 0; }
    ValBound(w);
    ShrLowUnique(Val(w + [b]), |w|, Val(w), Bit(b));
  }

  /** The backwards increment of a reversed code is the reversal of the next code. */
  lemma {:induction false} RevIncrCode(code: nat, len: nat)
    requires code < Pow2(len)
    ensures RevIncr(Val(MsbBits(code, len)), len) ==
            if code + 1 < Pow2(len) then Val(MsbBits(code + 1, len)) else 0
  {
    if len > 0 {
      hide Val, MsbBits, RevIncr;
      if code % 2 == 0 {
        RevIncrCodeEven(code, code / 2, len - 1);
      } else {
        RevIncrCode(code / 2, len - 1);
        RevIncrCodeOdd(code, code / 2, len - 1);
      }
    }
  }

  lemma RevIncrCodeEven(code: nat, c: nat, n: nat)
    requires code == 2 * c && code < Pow2(n + 1)
    ensures code + 1 < Pow2(n + 1)
    ensures RevIncr(Val(MsbBits(code, n + 1)), n + 1) == Val(MsbBits(code + 1, n + 1))
  {
    assert Pow2(n + 1) == 2 * Pow2(n);
    hide Pow2, Val, Low, Shr, MsbBits, RevIncr;
    RevIncrEven(MsbBits(c, n));
    MsbBitsPush(c, n, false);
    MsbBitsPush(c, n, true);
  }

  lemma RevIncrCodeOdd(code: nat, c: nat, n: nat)
    requires code == 2 * c + 1
    requires RevIncr(Val(MsbBits(c, n)), n) == if c + 1 < Pow2(n) then Val(MsbBits(c + 1, n)) else 0
    ensures RevIncr(Val(MsbBits(code, n + 1)), n + 1) ==
            if code + 1 < Pow2(n + 1) then Val(MsbBits(code + 1, n + 1)) else 0
  {
    assert Pow2(n + 1) == 2 * Pow2(n);
    hide Pow2, Val, Low, Shr, MsbBits, RevIncr;
    RevIncrOdd(MsbBits(c, n));
    ValPush(MsbBits(c + 1, n), false);
    MsbBitsPush(c, n, true);
    MsbBitsPush(c + 1, n, false);
  }

  lemma RevIncrEven(w: Bits)
    ensures RevIncr(Val(w + [false]), |w| + 1) == Val(w + [true])
  {
    hide Val, Low, Shr, Pow2;
    ValPush(w, false);
    ValPush(w, true);
  }

  lemma RevIncrOdd(w: Bits)
    ensures RevIncr(Val(w + [true]), |w| + 1) == RevIncr(Val(w), |w|)
  {
    ValPush(w, true);
    ValBound(w);
    LowSmall(Val(w), |w|);
    RevIncrLow(Val(w + [true]), Val(w), |w|);
  }

  /** Appending zeros to a code leaves its reversal unchanged. */
  lemma {:induction false} LongerCode(code: nat, len: nat, d: nat)
    ensures Val(MsbBits(code * Pow2(d), len + d)) == Val(MsbBits(code, len))
  {
    if d > 0 {
      LongerCode(code, len, d - 1);
      var c := code * Pow2(d - 1);
      assert code * Pow2(d) == 2 * c;
      var w := MsbBits(c, len + d - 1);
      assert MsbBits(2 * c, len + d) == w + [false];
      ValPush(w, false);
    }
  }

  /** Lengths nobody uses only double the running code. */
  lemma {:induction false} SkipLengths(lens: Lens, a: nat, b: nat)
    requires a < b && forall l :: a < l < b ==> Count(lens, l) == 0
    ensures FirstCode(lens, b) == EndCode(lens, a) * Pow2(b - a)
  {
    if a == b - 1 {
      assert Pow2(1) == 2;
    } else {
      SkipLengths(lens, a, b - 1);
      assert Count(lens, b - 1) == 0;
      assert 2 * (EndCode(lens, a) * Pow2(b - 1 - a)) == EndCode(lens, a) * Pow2(b - a);
    }
  }

  // ----- order -----

  lemma {:induction false} OrderSplit(lens: Lens, len: nat, max: nat)
    requires 0 < len <= max
    ensures |Order(lens, len - 1)| + Count(lens, len) <= |Order(lens, max)|
    ensures Order(lens, max)[|Order(lens, len - 1)|..|Order(lens, len - 1)| + Count(lens, len)] == SymsOfLen(lens, len)
    decreases max
  {
    hide Count, SymsOfLen;
    var start, end := |Order(lens, len - 1)|, |Order(lens, len - 1)| + Count(lens, len);
    var before, syms := Order(lens, max - 1), SymsOfLen(lens, max);
    assert Order(lens, max) == before + syms;
    if len < max {
      OrderSplit(lens, len, max - 1);
      assert (before + syms)[start..end] == before[start..end];
    } else {
      assert (before + syms)[start..end] == syms;
    }
  }

  /** The symbol at position |Order(len - 1)| + r is the r-th of its length, so it has code FirstCode + r. */
  lemma OrderCode(lens: Lens, len: nat, r: nat)
    requires Bounded(lens) && 0 < len <= MAXBITS && r < Count(lens, len)
    ensures |Order(lens, len - 1)| + r < |Order(lens, MAXBITS)|
    ensures var s := Order(lens, MAXBITS)[|Order(lens, len - 1)| + r];
            && Used(lens, s) && lens[s] == len && Code(lens, s) == FirstCode(lens, len) + r
            && CountTo(lens, s, len) == r
  {
    hide Order, SymsOfLen, Count, FirstCode, EndCode;
    OrderSplit(lens, len, MAXBITS);
    var start := |Order(lens, len - 1)|;
    assert SymsOfLen(lens, len)[r] == Order(lens, MAXBITS)[start..start + Count(lens, len)][r];
    SymsOfLenRank(lens, len, r);
  }

  lemma {:induction false} SymAtRank(lens: Lens, n: nat, s: nat)
    requires s < n <= |lens|
    ensures CountTo(lens, s, lens[s]) < CountTo(lens, n, lens[s])
    ensures SymsTo(lens, n, lens[s])[CountTo(lens, s, lens[s])] == s
  {
    if s < n - 1 {
      SymAtRank(lens, n - 1, s);
    }
  }

  /** Every used symbol has a place in the order. */
  lemma InOrder(lens: Lens, s: nat) returns (i: nat)
    requires Used(lens, s)
    ensures i < |Order(lens, MAXBITS)| && Order(lens, MAXBITS)[i] == s
  {
    hide CountTo, SymsTo, Order;
    SymAtRank(lens, |lens|, s);
    OrderSplit(lens, lens[s], MAXBITS);
    var start := |Order(lens, lens[s] - 1)|;
    i := start + CountTo(lens, s, lens[s]);
    assert Order(lens, MAXBITS)[start..start + Count(lens, lens[s])][i - start] == s;
  }

  ghost predicate StandsAt(lens: Lens, len: nat, s: nat, i: nat) {
    && s < |lens| && 0 < lens[s] <= len
    && i == |Order(lens, lens[s] - 1)| + CountTo(lens, s, lens[s])
  }

  /** Where a symbol stands in the order. */
  lemma {:induction false} OrderAt(lens: Lens, len: nat, i: nat)
    requires i < |Order(lens, len)|
    ensures StandsAt(lens, len, Order(lens, len)[i], i)
    decreases len
  {
    if len > 0 {
      OrderUnfold(lens, len);
      hide Order, SymsOfLen, Count, StandsAt;
      var before := Order(lens, len - 1);
      if i < |before| {
        OrderAt(lens, len - 1, i);
        StandsAtMore(lens, len, before[i], i);
      } else {
        StandsAtRank(lens, len, i - |before|);
      }
    }
  }

  lemma StandsAtMore(lens: Lens, len: nat, s: nat, i: nat)
    requires len > 0 && StandsAt(lens, len - 1, s, i)
    ensures StandsAt(lens, len, s, i)
  {
  }

  lemma StandsAtRank(lens: Lens, len: nat, k: nat)
    requires 0 < len && k < Count(lens, len)
    ensures StandsAt(lens, len, SymsOfLen(lens, len)[k], |Order(lens, len - 1)| + k)
  {
    hide Order, Count;
    SymsOfLenRank(lens, len, k);
  }

  lemma OrderUnfold(lens: Lens, len: nat)
    requires len > 0
    ensures Order(lens, len) == Order(lens, len - 1) + SymsOfLen(lens, len)
  {
  }

  lemma OrderSorted(lens: Lens, i: nat, j: nat)
    requires Bounded(lens) && i < j < |Order(lens, MAXBITS)|
    ensures var s, t := Order(lens, MAXBITS)[i], Order(lens, MAXBITS)[j];
            && Used(lens, s) && Used(lens, t)
            && (lens[s] < lens[t] || (lens[s] == lens[t] && s < t))
  {
    hide Order, SymsOfLen, Count;
    var s, t := Order(lens, MAXBITS)[i], Order(lens, MAXBITS)[j];
    OrderAt(lens, MAXBITS, i);
    OrderAt(lens, MAXBITS, j);
    if lens[t] < lens[s] {
      CountPrefix(lens, t, lens[t]);
      OrderSplit(lens, lens[t], lens[s] - 1);
    } else if lens[s] == lens[t] && t <= s {
      CountMono(lens, t, s, lens[t]);
    }
  }

  /** The symbol after one with code `c`: its reversed code is the backwards increment. */
  lemma NextCode(lens: Lens, s: nat, t: nat)
    requires Fits(lens) && Used(lens, s) && Used(lens, t)
    requires (lens[t] == lens[s] && CountTo(lens, t, lens[t]) == CountTo(lens, s, lens[s]) + 1)
          || (lens[t] > lens[s] && CountTo(lens, t, lens[t]) == 0 && CountTo(lens, s, lens[s]) + 1 ==
              Count(lens, lens[s])
              && forall l :: lens[s] < l < lens[t] ==> Count(lens, l) == 0)
    ensures Huff(lens, t) == RevIncr(Huff(lens, s), lens[s])
  {
    hide FirstCode, EndCode, Code, Count, CountTo, Pow2, Val, MsbBits, RevIncr, Fits;
    NextCodeValue(lens, s, t);
    CodeBound(lens, s);
    CodeBound(lens, t);
    NextReversed(Code(lens, s), lens[s], lens[t] - lens[s], Code(lens, t));
  }

  lemma NextCodeValue(lens: Lens, s: nat, t: nat)
    requires Used(lens, s) && Used(lens, t)
    requires (lens[t] == lens[s] && CountTo(lens, t, lens[t]) == CountTo(lens, s, lens[s]) + 1)
          || (lens[t] > lens[s] && CountTo(lens, t, lens[t]) == 0 && CountTo(lens, s, lens[s]) + 1 ==
              Count(lens, lens[s])
              && forall l :: lens[s] < l < lens[t] ==> Count(lens, l) == 0)
    ensures Code(lens, t) == (Code(lens, s) + 1) * Pow2(lens[t] - lens[s])
  {
    hide CountTo;
    if lens[t] > lens[s] {
      SkipLengths(lens, lens[s], lens[t]);
    }
  }

  lemma NextReversed(c: nat, len: nat, d: nat, code: nat)
    requires c < Pow2(len) && code == (c + 1) * Pow2(d) < Pow2(len + d)
    ensures Val(MsbBits(code, len + d)) == RevIncr(Val(MsbBits(c, len)), len)
  {
    hide Val, MsbBits, RevIncr, Pow2;
    RevIncrCode(c, len);
    NextLonger(c + 1, len, d, code);
  }

  lemma NextLonger(c: nat, len: nat, d: nat, code: nat)
    requires code == c * Pow2(d) < Pow2(len + d)
    ensures c < Pow2(len) && Val(MsbBits(code, len + d)) == Val(MsbBits(c, len))
  {
    hide Pow2, Val, MsbBits;
    LongerCode(c, len, d);
    Pow2Add(len, d);
    if c >= Pow2(len) {
      MulMono(Pow2(d), Pow2(len), c);
    }
  }

  /** After the last symbol the increment wraps exactly when the code is complete. */
  lemma LastCode(lens: Lens, s: nat)
    requires Fits(lens) && Used(lens, s) && lens[s] == MaxLen(lens, MAXBITS)
    requires CountTo(lens, s, lens[s]) + 1 == Count(lens, lens[s])
    ensures Complete(lens) ==> RevIncr(Huff(lens, s), lens[s]) == 0
    ensures !Complete(lens) && lens[s] == 1 ==> RevIncr(Huff(lens, s), lens[s]) == 1 && Count(lens, 1) == 1
  {
    CodeBound(lens, s);
    CompleteAtMax(lens);
    RevIncrCode(Code(lens, s), lens[s]);
    if !Complete(lens) && lens[s] == 1 {
      assert EndCode(lens, 0) == 0 && FirstCode(lens, 1) == 0 && Pow2(1) == 2;
      assert MsbBits(1, 1) == [true];
      assert Val([true]) == 1 by { assert Val([true][1..]) == 0; }
    }
  }

  // ----- what the table holds -----

  /** A register that starts with two codes starts with one code. */
  lemma Clash(lens: Lens, s: nat, t: nat, k: nat)
    requires Fits(lens) && Used(lens, s) && Used(lens, t)
    requires Low(k, lens[s]) == Huff(lens, s) && Low(k, lens[t]) == Huff(lens, t)
    ensures s == t
  {
    var bits := ToBits(Low(k, MAXBITS), MAXBITS);
    StartsWith(lens, s, k);
    StartsWith(lens, t, k);
    PrefixFree(lens, s, t, bits);
  }

  lemma StartsWith(lens: Lens, s: nat, k: nat)
    requires Used(lens, s)
    ensures Low(k, lens[s]) == Huff(lens, s) <==> Matches(lens, s, ToBits(Low(k, MAXBITS), MAXBITS))
  {
    hide Pow2, Low, ToBits, Val, Code;
    var len, w, bits := lens[s], CodeBits(lens, s), ToBits(Low(k, MAXBITS), MAXBITS);
    ShrLow(k, MAXBITS);
    LowLow(k, len, MAXBITS);
    ToBitsDrop(Low(k, MAXBITS), MAXBITS, len);
    ToBitsVal(w);
    assert bits[..len] == ToBits(Low(k, len), len) && Val(bits[..len]) == Low(k, len);
    assert w <= bits <==> bits[..len] == w;
  }

  /** The root index of a symbol with a longer code. */
  function RootIndex(lens: Lens, root: nat, s: nat): (r: nat)
    requires Used(lens, s)
    ensures r < Pow2(root)
  {
    ShrLow(Huff(lens, s), root);
    Low(Huff(lens, s), root)
  }

  /** Sub-table `link` of `t` has room for codes of length `len`. */
  predicate LinkOk(t: seq<Entry>, root: nat, len: nat, link: Entry) {
    && root < len && IsLink(link) && link.bits == root && len - root <= link.op <= MAXBITS - root
    && Pow2(root) <= link.val && link.val + Pow2(link.op) <= |t|
  }

  /** The table of `curr` index bits at `base` has `e` at every index whose low `m` bits are `h`. */
  ghost predicate HasEntry(t: seq<Entry>, base: nat, curr: nat, h: nat, m: nat, e: Entry)
    requires base + Pow2(curr) <= |t|
  {
    forall i :: base <= i < base + Pow2(curr) && Low(i - base, m) == h ==> t[i] == e
  }

  /** All entries for symbol `s` are in place. */
  ghost predicate Placed(kind: Kind, lens: Lens, t: seq<Entry>, root: nat, s: nat)
    requires Used(lens, s) && s < MaxSyms(kind) && Pow2(root) <= |t|
  {
    if lens[s] <= root then
      HasEntry(t, 0, root, Huff(lens, s), lens[s], SymEntry(kind, s, lens[s]))
    else
      var link := t[RootIndex(lens, root, s)];
      && LinkOk(t, root, lens[s], link)
      && HasEntry(t, link.val, link.op, Shr(Huff(lens, s), root), lens[s] - root, SymEntry(kind, s, lens[s] - root))
  }

  /** `t'` is `t` with the entry `e` at every index of the table at `next` whose low `m` bits are `h`. */
  ghost predicate Filled(t: seq<Entry>, t': seq<Entry>, next: nat, curr: nat, h: nat, m: nat, e: Entry) {
    && |t'| == |t| && next + Pow2(curr) <= |t|
    && forall i :: 0 <= i < |t| ==>
         t'[i] == if next <= i < next + Pow2(curr) && Low(i - next, m) == h then e else t[i]
  }

  /** Filling the root table for `s` leaves the entries of other symbols alone. */
  lemma FillRootKeeps(kind: Kind, lens: Lens, t: seq<Entry>, t': seq<Entry>, root: nat, s: nat, j: nat)
    requires Fits(lens) && Used(lens, s) && Used(lens, j) && s != j && j < MaxSyms(kind) && s < MaxSyms(kind)
    requires Pow2(root) <= |t| && Placed(kind, lens, t, root, j) && lens[s] <= root && lens[j] <= root
    requires Filled(t, t', 0, root, Huff(lens, s), lens[s], SymEntry(kind, s, lens[s]))
    ensures Placed(kind, lens, t', root, j)
  {
    hide Pow2, Low, Huff, SymEntry;
    forall i | 0 <= i < Pow2(root) && Low(i, lens[j]) == Huff(lens, j)
      ensures t'[i] == SymEntry(kind, j, lens[j])
    {
      if Low(i, lens[s]) == Huff(lens, s) {
        Clash(lens, s, j, i);
      }
    }
  }

  /** Filling a sub-table for `s` leaves the entries of other symbols alone. */
  lemma FillSubKeeps(kind: Kind, lens: Lens, t: seq<Entry>, t': seq<Entry>, root: nat, s: nat, j: nat)
    requires Fits(lens) && Used(lens, s) && Used(lens, j) && s != j && j < MaxSyms(kind) && s < MaxSyms(kind)
    requires Pow2(root) <= |t| && Placed(kind, lens, t, root, j) && lens[s] > root
    requires var link := t[RootIndex(lens, root, s)];
             && LinkOk(t, root, lens[s], link)
             && Filled(t, t', link.val, link.op, Shr(Huff(lens, s), root), lens[s] - root,
                 SymEntry(kind, s, lens[s] - root))
             && (lens[j] > root && RootIndex(lens, root, j) != RootIndex(lens, root, s) ==>
                   var other := t[RootIndex(lens, root, j)]; other.val + Pow2(other.op) <= link.val)
    ensures Placed(kind, lens, t', root, j)
    ensures forall k :: 0 <= k < Pow2(root) ==> t'[k] == t[k]
  {
    hide Pow2, Low, Shr, Huff, SymEntry;
    var p := RootIndex(lens, root, s);
    var link := t[p];
    assert forall k :: 0 <= k < Pow2(root) ==> t'[k] == t[k];
    if lens[j] > root {
      var q, m := RootIndex(lens, root, j), lens[j] - root;
      var other := t[q];
      forall i | other.val <= i < other.val + Pow2(other.op) && Low(i - other.val, m) == Shr(Huff(lens, j), root)
        ensures t'[i] == SymEntry(kind, j, lens[j] - root)
      {
        if q == p && Low(i - other.val, lens[s] - root) == Shr(Huff(lens, s), root) {
          SubClash(lens, root, s, j, i - other.val);
        }
      }
    }
  }

  lemma SubClash(lens: Lens, root: nat, s: nat, j: nat, k: nat)
    requires Fits(lens) && Used(lens, s) && Used(lens, j) && lens[s] > root && lens[j] > root
    requires RootIndex(lens, root, s) == RootIndex(lens, root, j)
    requires Low(k, lens[s] - root) == Shr(Huff(lens, s), root) && Low(k, lens[j] - root) == Shr(Huff(lens, j), root)
    ensures s == j
  {
    hide Pow2, Low, Shr, Huff;
    Join(lens, root, s, k);
    Join(lens, root, j, k);
    Clash(lens, s, j, RootIndex(lens, root, s) + Pow2(root) * k);
  }

  /** A root index and a sub-table index together form a register starting with the code. */
  lemma Join(lens: Lens, root: nat, s: nat, k: nat)
    requires Used(lens, s) && lens[s] > root
    requires Low(k, lens[s] - root) == Shr(Huff(lens, s), root)
    ensures Low(RootIndex(lens, root, s) + Pow2(root) * k, lens[s]) == Huff(lens, s)
  {
    var p, m := RootIndex(lens, root, s), lens[s] - root;
    var x := p + Pow2(root) * k;
    ShrLowUnique(x, root, p, k);
    LowShr(x, root, m);
    LowLow(x, root, lens[s]);
    ShrLow(Low(x, lens[s]), root);
    ShrLow(Huff(lens, s), root);
  }

  /** Entering a link at a root index no code uses yet keeps every placed symbol. */
  lemma LinkKeeps(kind: Kind, lens: Lens, t: seq<Entry>, root: nat, s: nat, link: Entry, j: nat)
    requires Fits(lens) && Used(lens, s) && Used(lens, j) && s != j && j < MaxSyms(kind)
    requires Pow2(root) <= |t| && Placed(kind, lens, t, root, j) && lens[s] > root
    requires lens[j] > root ==> RootIndex(lens, root, j) != RootIndex(lens, root, s)
    ensures Placed(kind, lens, t[RootIndex(lens, root, s) := link], root, j)
  {
    hide Pow2, Low, Shr, Huff, SymEntry;
    if lens[j] <= root {
      RootClash(lens, root, s, j);
    }
  }

  /** A short code does not begin the root index of a longer one. */
  lemma RootClash(lens: Lens, root: nat, s: nat, j: nat)
    requires Fits(lens) && Used(lens, s) && Used(lens, j) && lens[j] <= root < lens[s]
    ensures Low(RootIndex(lens, root, s), lens[j]) != Huff(lens, j)
  {
    hide Pow2, Low;
    LowLow(Huff(lens, s), lens[j], root);
    ValBound(CodeBits(lens, s));
    LowSmall(Huff(lens, s), lens[s]);
    if Low(Huff(lens, s), lens[j]) == Huff(lens, j) {
      Clash(lens, s, j, Huff(lens, s));
    }
  }

  /** Where a symbol is placed, registers starting with its code lead to it. */
  lemma PlacedLeads(kind: Kind, lens: Lens, t: seq<Entry>, root: nat, s: nat, h: nat)
    requires Used(lens, s) && s < MaxSyms(kind) && Pow2(root) <= |t| && Placed(kind, lens, t, root, s)
    requires Low(h, lens[s]) == Huff(lens, s)
    ensures Leads(t, root, h, SymEntry(kind, s, 0), lens[s])
  {
    hide Pow2, Low, Shr, Huff, SymEntry;
    ShrLow(h, root);
    SymEntryShape(kind, s, lens[s]);
    if lens[s] <= root {
      LowLow(h, lens[s], root);
    } else {
      SymEntryShape(kind, s, lens[s] - root);
      LowLow(h, root, lens[s]);
      assert Low(h, root) == RootIndex(lens, root, s);
      var link := t[Low(h, root)];
      var k := Low(Shr(h, root), link.op);
      ShrLow(Shr(h, root), link.op);
      LowLow(Shr(h, root), lens[s] - root, link.op);
      LowShr(h, root, lens[s] - root);
    }
  }

  // ----- sub-tables -----

  /** In the order, the leading bits of long codes never decrease. */
  lemma RootCodeMono(lens: Lens, root: nat, s: nat, t: nat)
    requires Fits(lens) && Used(lens, s) && Used(lens, t) && lens[s] > root && lens[t] > root
    requires lens[s] < lens[t] || (lens[s] == lens[t] && s <= t)
    ensures RootCode(lens, root, s) <= RootCode(lens, root, t)
  {
    hide Pow2, Shr, Code, EndCode, FirstCode, Low;
    var k := lens[s] - root;
    CodeBound(lens, s);
    assert RootCode(lens, root, s) * Pow2(k) <= Code(lens, s) by { ShrLow(Code(lens, s), k); }
    if lens[s] < lens[t] {
      CodeBound(lens, t);
      FirstAfterEnd(lens, lens[s], lens[t]);
      LeadingBits(EndCode(lens, lens[s]), k, RootCode(lens, root, s), lens[t] - lens[s], Code(lens, t));
    } else {
      if s < t {
        CodeOrder(lens, s, t);
      }
      ShrAtLeast(Code(lens, t), k, RootCode(lens, root, s));
    }
  }

  lemma LeadingBits(c: nat, k: nat, p: nat, d: nat, e: nat)
    requires c >= p * Pow2(k) && e >= c * Pow2(d)
    ensures Shr(e, k + d) >= p
  {
    hide Pow2, Shr;
    Scale(p, Pow2(k), Pow2(d), c);
    Pow2Add(k, d);
    ShrAtLeast(e, k + d, p);
  }

  /** Equal root indices are equal leading bits. */
  lemma RootIndexCode(lens: Lens, root: nat, s: nat, t: nat)
    requires Fits(lens) && Used(lens, s) && Used(lens, t) && lens[s] > root && lens[t] > root
    ensures RootIndex(lens, root, s) == RootIndex(lens, root, t) <==> RootCode(lens, root, s) == RootCode(lens, root, t)
  {
    RootBitsOf(lens, root, s);
    RootBitsOf(lens, root, t);
  }

  lemma RootBitsOf(lens: Lens, root: nat, s: nat)
    requires Fits(lens) && Used(lens, s) && lens[s] > root
    ensures ToBits(RootIndex(lens, root, s), root) == MsbBits(RootCode(lens, root, s), root)
    ensures Val(ToBits(RootIndex(lens, root, s), root)) == RootIndex(lens, root, s)
    ensures Msb(MsbBits(RootCode(lens, root, s), root)) == RootCode(lens, root, s)
  {
    var w := CodeBits(lens, s);
    ValBound(w);
    ToBitsDrop(Val(w), |w|, root);
    ToBitsVal(w);
    CodeBound(lens, s);
    MsbBitsPrefix(Code(lens, s), lens[s], root);
    ShrBound(Code(lens, s), lens[s] - root, root);
    MsbOfMsbBits(RootCode(lens, root, s), root);
    ShrLow(Val(w), root);
    ValToBits(RootIndex(lens, root, s), root);
  }

  /** A sub-table of `curr` bits for leading bits `p` holds every code with these leading bits. */
  ghost predicate Roomy(lens: Lens, root: nat, max: nat, p: nat, curr: nat) {
    root + curr == max || EndCode(lens, root + curr) >= (p + 1) * Pow2(curr)
  }

  /** The look-ahead makes sub-tables big enough. */
  lemma {:induction false} SubBitsRoomy(lens: Lens, root: nat, max: nat, p: nat, len: nat, left: int, c: nat,
      slack: nat)
    requires root < len <= max
    requires left - c == (p + 1) * Pow2(len - root) - EndCode(lens, len) + slack
    ensures Roomy(lens, root, max, p, SubBits(lens, root, max, len, left, c))
    decreases max - len
  {
    if len == max {
    } else if left - c <= 0 {
    } else {
      assert 2 * ((p + 1) * Pow2(len - root)) == (p + 1) * Pow2(len + 1 - root);
      SubBitsRoomy(lens, root, max, p, len + 1, 2 * (left - c), Count(lens, len + 1), 2 * slack);
    }
  }

  lemma PlusOne(p: nat, q: nat)
    ensures (p + 1) * q == q * p + q
  {
  }

  lemma SubBitsAtRoomy(lens: Lens, root: nat, max: nat, s: nat)
    requires Used(lens, s) && root < lens[s] <= max
    ensures Roomy(lens, root, max, RootCode(lens, root, s), SubBitsAt(lens, root, max, s))
  {
    var len, p, q := lens[s], RootCode(lens, root, s), Pow2(lens[s] - root);
    CountMono(lens, s, |lens|, len);
    var before, all := CountTo(lens, s, len), Count(lens, len);
    assert Code(lens, s) == FirstCode(lens, len) + before && EndCode(lens, len) == FirstCode(lens, len) + all;
    hide Pow2, Shr, Low, Count, FirstCode, EndCode, Code, SubBits, Roomy;
    ShrLow(Code(lens, s), len - root);
    PlusOne(p, q);
    SubBitsRoomy(lens, root, max, p, len, q, all - before, Low(Code(lens, s), len - root));
  }

  /** A symbol whose leading bits have a roomy sub-table fits into it. */
  lemma FitsRoom(lens: Lens, root: nat, max: nat, s: nat, curr: nat)
    requires Fits(lens) && Used(lens, s) && root < lens[s] <= max
    requires Roomy(lens, root, max, RootCode(lens, root, s), curr)
    ensures lens[s] - root <= curr
  {
    hide Pow2, Shr, Code, EndCode;
    var p := RootCode(lens, root, s);
    if lens[s] > root + curr {
      var d := lens[s] - root - curr;
      CodeBound(lens, s);
      FirstAfterEnd(lens, root + curr, lens[s]);
      Pow2Add(curr, d);
      Scale(p + 1, Pow2(curr), Pow2(d), EndCode(lens, root + curr));
      ShrAtLeast(Code(lens, s), lens[s] - root, p + 1);
    }
  }

  // ----- the finished table -----

  /** Below the longest length the codes double, so completeness shows at the longest length. */
  lemma {:induction false} EndAfterMax(lens: Lens, max: nat, len: nat)
    requires max <= len && forall l :: max < l <= len ==> Count(lens, l) == 0
    ensures EndCode(lens, len) == EndCode(lens, max) * Pow2(len - max)
    decreases len
  {
    if max < len {
      EndAfterMax(lens, max, len - 1);
      assert Count(lens, len) == 0;
      assert 2 * (EndCode(lens, max) * Pow2(len - 1 - max)) == EndCode(lens, max) * Pow2(len - max);
    }
  }

  lemma CompleteAtMax(lens: Lens)
    ensures var max := MaxLen(lens, MAXBITS); Complete(lens) <==> EndCode(lens, max) == Pow2(max)
  {
    hide Pow2, EndCode, MaxLen;
    var max := MaxLen(lens, MAXBITS);
    EndAfterMax(lens, max, MAXBITS);
    Pow2Add(max, MAXBITS - max);
    var e, p, q := EndCode(lens, max), Pow2(max), Pow2(MAXBITS - max);
    if e < p {
      MulGap(q, p, e);
    } else if e > p {
      MulGap(q, e, p);
    }
  }

  /** The only incomplete code in use: one symbol, coded as a zero bit. */
  ghost predicate SingleCode(lens: Lens) {
    && (exists s: nat :: Used(lens, s))
    && forall s: nat :: Used(lens, s) ==> lens[s] == 1 && Huff(lens, s) == 0
  }

  lemma FinishedTable(kind: Kind, lens: Lens, t: seq<Entry>, root: nat)
    requires Bounded(lens) && Fits(lens) && |lens| <= MaxSyms(kind) && 0 < root <= MAXBITS && Pow2(root) <= |t|
    requires forall s: nat :: Used(lens, s) ==> Placed(kind, lens, t, root, s)
    requires !Complete(lens) ==> root == 1 && |t| >= 2 && t[1] == INVALID && SingleCode(lens)
    ensures TableFor(kind, lens, t, root)
  {
    hide Pow2, Low, Code, EndCode, ToBits, Placed, Huff, SymEntry;
    forall h: nat | h < Pow2(MAXBITS)
      ensures LookupOk(kind, lens, t, root, h)
    {
      var bits := ToBits(h, MAXBITS);
      LowSmall(h, MAXBITS);
      if Complete(lens) {
        MatchExists(lens, bits);
      }
      if exists s: nat :: Matches(lens, s, bits) {
        DecodedCode(lens, bits);
        var s := DecodeSym(lens, bits).sym;
        StartsWith(lens, s, h);
        PlacedLeads(kind, lens, t, root, s, h);
      } else {
        NoCodeLeads(lens, t, h);
      }
    }
  }

  lemma NoCodeLeads(lens: Lens, t: seq<Entry>, h: nat)
    requires |t| >= 2 && t[1] == INVALID && h < Pow2(MAXBITS)
    requires SingleCode(lens)
    requires !exists s: nat :: Matches(lens, s, ToBits(h, MAXBITS))
    ensures Leads(t, 1, h, INVALID, 1)
  {
    var s: nat :| Used(lens, s);
    LowSmall(h, MAXBITS);
    StartsWith(lens, s, h);
    assert Low(h, 1) == h % 2 by { assert Low(h / 2, 0) == 0; }
  }

  // ----- one round of the main loop -----

  /** The first `n` symbols of the order are in place; sub-tables end at `used`, and those of other
      root indices than `low` end at `next`. */
  ghost predicate Slots(kind: Kind, lens: Lens, t: seq<Entry>, root: nat, n: nat, low: int, next: nat, used: nat)
    requires Bounded(lens) && |lens| <= MaxSyms(kind)
  {
    && n <= |Order(lens, MAXBITS)| && Pow2(root) <= used <= |t|
    && forall j :: 0 <= j < n ==> SlotOk(kind, lens, t, root, Order(lens, MAXBITS)[j], low, next, used)
  }

  ghost predicate SlotOk(kind: Kind, lens: Lens, t: seq<Entry>, root: nat, s: nat, low: int, next: nat, used: nat)
    requires Bounded(lens) && |lens| <= MaxSyms(kind) && Pow2(root) <= |t|
  {
    && Used(lens, s)
    && Placed(kind, lens, t, root, s)
    && (lens[s] > root ==>
          && var link := t[RootIndex(lens, root, s)];
          && link.val + Pow2(link.op) <= used
          && (RootIndex(lens, root, s) != low ==> link.val + Pow2(link.op) <= next))
  }

  /** Entering a symbol in the root table. */
  lemma RootRound(kind: Kind, lens: Lens, t: seq<Entry>, t': seq<Entry>, root: nat, n: nat, low: int, next: nat,
      used: nat)
    requires Bounded(lens) && Fits(lens) && |lens| <= MaxSyms(kind) && n < |Order(lens, MAXBITS)|
    requires Slots(kind, lens, t, root, n, low, next, used)
    requires var s := Order(lens, MAXBITS)[n];
             && Used(lens, s) && lens[s] <= root
             && Filled(t, t', 0, root, Huff(lens, s), lens[s], SymEntry(kind, s, lens[s]))
    ensures Slots(kind, lens, t', root, n + 1, low, next, used)
  {
    hide Pow2, Order, Huff, SymEntry;
    var order := Order(lens, MAXBITS);
    forall j | 0 <= j < n + 1
      ensures SlotOk(kind, lens, t', root, order[j], low, next, used)
    {
      if j < n {
        assert SlotOk(kind, lens, t, root, order[j], low, next, used);
        OrderSorted(lens, j, n);
        FillRootKeeps(kind, lens, t, t', root, order[n], order[j]);
      }
    }
  }

  /** Entering a symbol in the current sub-table. */
  lemma SubRound(kind: Kind, lens: Lens, t: seq<Entry>, t': seq<Entry>, root: nat, n: nat, low: int, next: nat,
      used: nat)
    requires Bounded(lens) && Fits(lens) && |lens| <= MaxSyms(kind) && n < |Order(lens, MAXBITS)|
    requires Slots(kind, lens, t, root, n, low, next, used)
    requires var s := Order(lens, MAXBITS)[n];
             && Used(lens, s) && lens[s] > root && low == RootIndex(lens, root, s)
             && var link := t[low];
             && LinkOk(t, root, lens[s], link) && link.val == next && link.val + Pow2(link.op) == used
             && Filled(t, t', next, link.op, Shr(Huff(lens, s), root), lens[s] - root,
                 SymEntry(kind, s, lens[s] - root))
    ensures Slots(kind, lens, t', root, n + 1, low, next, used)
    ensures t'[low] == t[low]
  {
    hide Pow2, Order, Huff, SymEntry, Shr, Low;
    var order := Order(lens, MAXBITS);
    forall j | 0 <= j < n + 1
      ensures SlotOk(kind, lens, t', root, order[j], low, next, used)
    {
      if j < n {
        assert SlotOk(kind, lens, t, root, order[j], low, next, used);
        OrderSorted(lens, j, n);
        FillSubKeeps(kind, lens, t, t', root, order[n], order[j]);
      }
    }
  }

  /** Starting a new sub-table for the symbol at `n`. */
  lemma LinkRound(kind: Kind, lens: Lens, t: seq<Entry>, root: nat, n: nat, low: int, next: nat, used: nat, curr: nat)
    requires Bounded(lens) && Fits(lens) && |lens| <= MaxSyms(kind) && 0 < n < |Order(lens, MAXBITS)|
    requires Slots(kind, lens, t, root, n, low, next, used) && used + Pow2(curr) <= |t|
    requires var s, r := Order(lens, MAXBITS)[n], Order(lens, MAXBITS)[n - 1];
             && Used(lens, s) && Used(lens, r) && lens[s] > root
             && (lens[r] > root ==> low == RootIndex(lens, root, r) && RootCode(lens, root, r) != RootCode(lens, root,
                 s))
    ensures var s := Order(lens, MAXBITS)[n];
            var p := RootIndex(lens, root, s);
            Slots(kind, lens, t[p := Entry(curr, root, used)], root, n, p, used, used + Pow2(curr))
  {
    hide Pow2, Order, Huff, SymEntry, Shr, Low, LinkOk;
    var order := Order(lens, MAXBITS);
    var s, r := order[n], order[n - 1];
    var p := RootIndex(lens, root, s);
    var t' := t[p := Entry(curr, root, used)];
    forall j | 0 <= j < n
      ensures SlotOk(kind, lens, t', root, order[j], p, used, used + Pow2(curr))
    {
      assert SlotOk(kind, lens, t, root, order[j], low, next, used);
      OrderSorted(lens, j, n);
      if lens[order[j]] > root {
        NewRootIndex(lens, root, j, n);
      }
      LinkKeeps(kind, lens, t, root, s, Entry(curr, root, used), order[j]);
    }
  }

  /** Leading bits that differ from those of the symbol just before are new. */
  lemma NewRootIndex(lens: Lens, root: nat, j: nat, n: nat)
    requires Bounded(lens) && Fits(lens) && j < n < |Order(lens, MAXBITS)|
    requires var order := Order(lens, MAXBITS);
             && Used(lens, order[j]) && Used(lens, order[n]) && Used(lens, order[n - 1])
             && lens[order[j]] > root && lens[order[n]] > root
             && (lens[order[n - 1]] > root ==> RootCode(lens, root, order[n - 1]) != RootCode(lens, root, order[n]))
    ensures RootIndex(lens, root, Order(lens, MAXBITS)[j]) != RootIndex(lens, root, Order(lens, MAXBITS)[n])
  {
    hide Order, RootCode, RootIndex;
    var order := Order(lens, MAXBITS);
    if j < n - 1 {
      OrderSorted(lens, j, n - 1);
      RootCodeMono(lens, root, order[j], order[n - 1]);
    }
    OrderSorted(lens, n - 1, n);
    RootCodeMono(lens, root, order[n - 1], order[n]);
    RootIndexCode(lens, root, order[j], order[n]);
  }
}
