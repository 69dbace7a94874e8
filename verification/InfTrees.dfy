/**
  The table builder, inflate_table in inftrees.c and inflate_table_my in deflate.c: canonical codes
  are generated with their bits reversed, symbol by symbol, and entered into a root table and
  sub-tables.  inflate_table_my also records the code of each symbol for the encoder.
 */
module InfTrees {
  import opened Bits
  import opened Huffman
  import opened TableSpec
  import opened TableLemmas

  method CountLengths(lens: Lens) returns (count: seq<nat>)
    requires Bounded(lens)
    ensures |count| == MAXBITS + 1
    ensures forall l :: 0 <= l <= MAXBITS ==> count[l] == Count(lens, l)
  {
    count := seq(MAXBITS + 1, _ => 0);
    for sym := 0 to |lens|
      invariant |count| == MAXBITS + 1
      invariant forall l :: 0 <= l <= MAXBITS ==> count[l] == CountTo(lens, sym, l)
    {
      count := count[lens[sym] := count[lens[sym]] + 1];
    }
  }

  /** The counting sort: symbols by length, and in symbol order within each length. */
  method SortSymbols(lens: Lens, count: seq<nat>) returns (work: seq<nat>)
    requires Bounded(lens) && |count| == MAXBITS + 1
    requires forall l :: 0 <= l <= MAXBITS ==> count[l] == Count(lens, l)
    ensures work == Order(lens, MAXBITS)
  {
    hide CountTo, SymsTo;
    // offs[l] is where the next symbol of length l goes
    var offs := seq(MAXBITS + 1, _ => 0);
    for len := 1 to MAXBITS
      invariant |offs| == MAXBITS + 1
      invariant forall l :: 1 <= l <= len ==> offs[l] == |Order(lens, l - 1)|
    {
      offs := offs[len + 1 := offs[len] + count[len]];
    }
    var total := offs[MAXBITS] + count[MAXBITS];
    work := seq(total, _ => 0);
    forall l | 1 <= l <= MAXBITS
      ensures Segment(lens, 0, work, offs, l)
    {
      EmptySegment(lens, l);
      OrderSplit(lens, l, MAXBITS);
    }
    for sym := 0 to |lens|
      invariant |offs| == MAXBITS + 1 && |work| == total
      invariant forall l :: 1 <= l <= MAXBITS ==> Segment(lens, sym, work, offs, l)
    {
      var len := lens[sym];
      ghost var work0, offs0, seen := work, offs, sym + 1;
      if len != 0 {
        SegmentRoom(lens, sym);
        assert Segment(lens, sym, work, offs, len);
        OrderSplit(lens, len, MAXBITS);
        work := work[offs[len] := sym];
        offs := offs[len := offs[len] + 1];
      }
      forall l | 1 <= l <= MAXBITS
        ensures Segment(lens, seen, work, offs, l)
      {
        assert Segment(lens, sym, work0, offs0, l);
        if len == 0 {
          SegmentSkip(lens, sym, work0, offs0, l);
        } else if len == l {
          SegmentGrow(lens, sym, work0, offs0, l);
        } else {
          SegmentKeep(lens, sym, work0, offs0, len, l);
        }
      }
    }
    Assemble(lens, work, offs, MAXBITS);
    assert work[..total] == work;
  }

  /** The symbols of length `l` among `seen` stand in their part of `work`. */
  ghost predicate Segment(lens: Lens, seen: nat, work: seq<nat>, offs: seq<nat>, l: nat)
    requires 1 <= l < |offs| && seen <= |lens|
  {
    var start := |Order(lens, l - 1)|;
    && offs[l] == start + CountTo(lens, seen, l)
    && start + Count(lens, l) <= |work|
    && CountTo(lens, seen, l) <= Count(lens, l)
    && work[start..offs[l]] == SymsTo(lens, seen, l)
  }

  lemma EmptySegment(lens: Lens, l: nat)
    ensures CountTo(lens, 0, l) == 0 && SymsTo(lens, 0, l) == []
  {
  }

  lemma SegmentRoom(lens: Lens, sym: nat)
    requires sym < |lens|
    ensures CountTo(lens, sym, lens[sym]) < Count(lens, lens[sym])
  {
    CountPrefix(lens, sym, lens[sym]);
  }

  /** Taking in one more symbol extends the segment of its length ... */
  lemma SegmentGrow(lens: Lens, sym: nat, work: seq<nat>, offs: seq<nat>, l: nat)
    requires sym < |lens| && |offs| == MAXBITS + 1 && 1 <= l == lens[sym] <= MAXBITS
    requires Segment(lens, sym, work, offs, l) && CountTo(lens, sym, l) < Count(lens, l)
    ensures Segment(lens, sym + 1, work[offs[l] := sym], offs[l := offs[l] + 1], l)
  {
    hide Count, CountTo, SymsTo, SymsOfLen, Order;
    SeenStep(lens, sym, l);
    Extend(work, |Order(lens, l - 1)|, offs[l], sym);
  }

  /** ... and leaves the others alone. */
  lemma SegmentKeep(lens: Lens, sym: nat, work: seq<nat>, offs: seq<nat>, len: nat, l: nat)
    requires sym < |lens| && |offs| == MAXBITS + 1 && 1 <= l <= MAXBITS && 1 <= len == lens[sym] <= MAXBITS && l != len
    requires Segment(lens, sym, work, offs, l)
    requires Segment(lens, sym, work, offs, len) && CountTo(lens, sym, len) < Count(lens, len)
    ensures Segment(lens, sym + 1, work[offs[len] := sym], offs[len := offs[len] + 1], l)
  {
    hide Count, CountTo, SymsTo, SymsOfLen, Order;
    SeenStep(lens, sym, l);
    SegmentsApart(lens, len, l);
    Untouched(work, |Order(lens, l - 1)|, offs[l], offs[len], sym);
  }

  lemma SegmentSkip(lens: Lens, sym: nat, work: seq<nat>, offs: seq<nat>, l: nat)
    requires sym < |lens| && |offs| == MAXBITS + 1 && 1 <= l <= MAXBITS && lens[sym] == 0
    requires Segment(lens, sym, work, offs, l)
    ensures Segment(lens, sym + 1, work, offs, l)
  {
    hide Count, CountTo, SymsTo, SymsOfLen, Order;
    SeenStep(lens, sym, l);
  }

  lemma Extend(work: seq<nat>, start: nat, end: nat, x: nat)
    requires start <= end < |work|
    ensures work[end := x][start..end + 1] == work[start..end] + [x]
  {
  }

  lemma Untouched(work: seq<nat>, start: nat, end: nat, i: nat, x: nat)
    requires start <= end <= |work| && i < |work| && !(start <= i < end)
    ensures work[i := x][start..end] == work[start..end]
  {
  }

  lemma SeenStep(lens: Lens, sym: nat, l: nat)
    requires sym < |lens|
    ensures CountTo(lens, sym + 1, l) == CountTo(lens, sym, l) + if lens[sym] == l then 1 else 0
    ensures SymsTo(lens, sym + 1, l) == SymsTo(lens, sym, l) + if lens[sym] == l then [sym] else []
    ensures CountTo(lens, sym + 1, l) <= Count(lens, l)
  {
    CountMono(lens, sym + 1, |lens|, l);
  }

  lemma SegmentsApart(lens: Lens, a: nat, b: nat)
    requires 0 < a && 0 < b && a != b
    ensures a < b ==> |Order(lens, a - 1)| + Count(lens, a) <= |Order(lens, b - 1)|
    ensures b < a ==> |Order(lens, b - 1)| + Count(lens, b) <= |Order(lens, a - 1)|
  {
    hide Order, Count, SymsOfLen;
    if a < b {
      OrderSplit(lens, a, b - 1);
    } else {
      OrderSplit(lens, b, a - 1);
    }
  }

  lemma {:induction false} Assemble(lens: Lens, work: seq<nat>, offs: seq<nat>, len: nat)
    requires |offs| == MAXBITS + 1 && len <= MAXBITS
    requires forall l :: 1 <= l <= len ==> Segment(lens, |lens|, work, offs, l)
    ensures |Order(lens, len)| <= |work| && work[..|Order(lens, len)|] == Order(lens, len)
  {
    hide CountTo, SymsTo;
    if len > 0 {
      Assemble(lens, work, offs, len - 1);
      var start, end := |Order(lens, len - 1)|, |Order(lens, len)|;
      assert Segment(lens, |lens|, work, offs, len);
      assert work[..end] == work[..start] + work[start..end];
    }
  }

  /** The backwards increment: clear the run of ones at the top, set the zero below it. */
  method BackwardsIncrement(huff: nat, len: nat) returns (r: nat)
    ensures r == RevIncr(huff, len)
  {
    hide Low, Shr, Pow2;
    // the source's incr is 1 << (bit - 1), and 0 when bit is 0
    var bit := len;
    while bit > 0 && Shr(huff, bit - 1) % 2 == 1
      invariant 0 <= bit <= len && RevIncr(huff, len) == RevIncr(huff, bit)
    {
      bit := bit - 1;
    }
    if bit > 0 {
      r := Low(huff, bit - 1) + Pow2(bit - 1);
    } else {
      r := 0;
    }
  }

  /** Over-subscription check; the result is the number of codes left over at the longest length. */
  method CheckLeft(lens: Lens, count: seq<nat>) returns (left: int)
    requires |count| == MAXBITS + 1 && forall l :: 0 <= l <= MAXBITS ==> count[l] == Count(lens, l)
    ensures left < 0 <==> !Fits(lens)
    ensures left >= 0 ==> (left == 0 <==> Complete(lens))
  {
    hide Count;
    left := 1;
    var len := 1;
    while len <= MAXBITS
      invariant 1 <= len <= MAXBITS + 1 && left >= 0
      invariant left == Pow2(len - 1) - EndCode(lens, len - 1)
      invariant forall l :: 0 <= l < len ==> EndCode(lens, l) <= Pow2(l)
    {
      left := left * 2;
      left := left - count[len];
      assert left == Pow2(len) - EndCode(lens, len);
      if left < 0 {
        assert EndCode(lens, len) > Pow2(len);
        return;
      }
      len := len + 1;
    }
  }

  /** The `q`-th multiple of 1 << m, out of reach of the solver's multiplication rules. */
  ghost function Mult(m: nat, q: nat): nat {
    Pow2(m) * q
  }

  lemma MultStep(m: nat, q: nat)
    ensures Mult(m, 0) == 0 && Mult(m, q + 1) == Mult(m, q) + Pow2(m)
  {
    TimesSucc(Pow2(m), q);
    TimesSucc(Pow2(m), 0);
  }

  lemma LowBetween(k: nat, m: nat, q: nat)
    requires Mult(m, q) <= k < Mult(m, q + 1)
    ensures Low(k, m) == k - Mult(m, q)
  {
    MultStep(m, q);
    ShrLowUnique(k, m, k - Mult(m, q), q);
  }

  /** `s` is `t` filled from index `fill` on. */
  ghost predicate FilledFrom(t: seq<Entry>, s: seq<Entry>, next: nat, curr: nat, h: nat, m: nat, here: Entry,
      fill: nat) {
    && |s| == |t| && next + Pow2(curr) <= |t|
    && forall i :: 0 <= i < |t| ==>
         s[i] == if next + fill <= i < next + Pow2(curr) && Low(i - next, m) == h then here else t[i]
  }

  lemma FillStep(t: seq<Entry>, s: seq<Entry>, next: nat, curr: nat, h: nat, m: nat, here: Entry, q: nat)
    requires FilledFrom(t, s, next, curr, h, m, here, Mult(m, q + 1)) && h < Pow2(m) && Mult(m, q + 1) <= Pow2(curr)
    ensures Mult(m, q) + h < Mult(m, q + 1)
    ensures FilledFrom(t, s[next + (Mult(m, q) + h) := here], next, curr, h, m, here, Mult(m, q))
  {
    hide Pow2, Mult, Low;
    MultStep(m, q);
    var fill, s' := Mult(m, q), s[next + (Mult(m, q) + h) := here];
    forall i | 0 <= i < |t|
      ensures s'[i] == if next + fill <= i < next + Pow2(curr) && Low(i - next, m) == h then here else t[i]
    {
      if fill <= i - next < Mult(m, q + 1) {
        LowBetween(i - next, m, q);
      }
    }
  }

  /** Replicate an entry over all indices whose low `m` bits are `h`. */
  method Fill(t: array<Entry>, next: nat, curr: nat, h: nat, m: nat, here: Entry)
    requires m <= curr && h < Pow2(m) && next + Pow2(curr) <= t.Length
    modifies t
    ensures Filled(old(t[..]), t[..], next, curr, h, m, here)
  {
    ghost var t0 := t[..];
    var incr := Pow2(m);
    var fill := Pow2(curr);
    ghost var q := Pow2(curr - m);
    Pow2Add(m, curr - m);
    assert fill == Mult(m, q);
    assert FilledFrom(t0, t[..], next, curr, h, m, here, fill);
    hide Low, Pow2, Mult, FilledFrom;
    MultStep(m, 0);
    while fill != 0
      invariant fill == Mult(m, q) && fill <= Pow2(curr)
      invariant FilledFrom(t0, t[..], next, curr, h, m, here, fill)
    {
      q := q - 1;
      MultStep(m, q);
      FillStep(t0, t[..], next, curr, h, m, here, q);
      fill := fill - incr;
      t[next + (fill + h)] := here;
    }
    FilledAll(t0, t[..], next, curr, h, m, here);
  }

  lemma FilledAll(t: seq<Entry>, s: seq<Entry>, next: nat, curr: nat, h: nat, m: nat, here: Entry)
    requires FilledFrom(t, s, next, curr, h, m, here, 0)
    ensures Filled(t, s, next, curr, h, m, here)
  {
  }

  /** What the main loop knows about the symbol it is about to enter. */
  ghost predicate AtSymbol(lens: Lens, count: seq<nat>, sym: nat, len: nat, huff: nat)
  {
    && sym < |Order(lens, MAXBITS)| && |count| == MAXBITS + 1
    && var s := Order(lens, MAXBITS)[sym];
    && Used(lens, s) && lens[s] == len && huff == Huff(lens, s)
    && sym == |Order(lens, len - 1)| + CountTo(lens, s, len)
    && CountTo(lens, s, len) < Count(lens, len)
    && count[len] == Count(lens, len) - CountTo(lens, s, len)
    && forall l :: len < l <= MAXBITS ==> count[l] == Count(lens, l)
  }

  lemma FirstSymbol(lens: Lens, count: seq<nat>, min: nat)
    requires Bounded(lens) && Fits(lens) && 0 < min <= MAXBITS && Count(lens, min) > 0 && |count| == MAXBITS + 1
    requires forall l :: 0 < l < min ==> Count(lens, l) == 0
    requires forall l :: 0 <= l <= MAXBITS ==> count[l] == Count(lens, l)
    ensures AtSymbol(lens, count, 0, min, 0)
  {
    hide Order, Count, CountTo;
    OrderEmpty(lens, min - 1);
    OrderCode(lens, min, 0);
    FirstCodeZero(lens, min);
    var s := Order(lens, MAXBITS)[0];
    assert Val(MsbBits(0, min)) == 0 by {
      MsbZero(min);
    }
  }

  lemma {:induction false} MsbZero(n: nat)
    ensures Val(MsbBits(0, n)) == 0
  {
    if n > 0 {
      MsbZero(n - 1);
      ValPush(MsbBits(0, n - 1), false);
    }
  }

  lemma {:induction false} OrderEmpty(lens: Lens, len: nat)
    requires forall l :: 0 < l <= len ==> Count(lens, l) == 0
    ensures Order(lens, len) == []
  {
    if len > 0 {
      OrderEmpty(lens, len - 1);
      assert Count(lens, len) == 0;
    }
  }

  lemma {:induction false} OrderSame(lens: Lens, a: nat, b: nat)
    requires a <= b && forall l :: a < l <= b ==> Count(lens, l) == 0
    ensures Order(lens, a) == Order(lens, b)
  {
    if a < b {
      OrderSame(lens, a, b - 1);
      assert Count(lens, b) == 0;
      OrderUnfold(lens, b);
      assert SymsOfLen(lens, b) == [];
    }
  }

  lemma {:induction false} FirstCodeZero(lens: Lens, len: nat)
    requires 0 < len && forall l :: 0 < l < len ==> Count(lens, l) == 0
    ensures FirstCode(lens, len) == 0
  {
    if len > 1 {
      FirstCodeZero(lens, len - 1);
      assert Count(lens, len - 1) == 0;
    }
  }

  /** Moving on to the next symbol of the same length. */
  lemma NextSameLength(lens: Lens, count: seq<nat>, sym: nat, len: nat, huff: nat)
    requires Bounded(lens) && Fits(lens) && AtSymbol(lens, count, sym, len, huff) && 0 < len <= MAXBITS
    requires count[len] > 1
    ensures AtSymbol(lens, count[len := count[len] - 1], sym + 1, len, RevIncr(huff, len))
  {
    hide Order, Count, CountTo, RevIncr, Huff, Fits;
    var s := Order(lens, MAXBITS)[sym];
    OrderCode(lens, len, CountTo(lens, s, len) + 1);
    NextCode(lens, s, Order(lens, MAXBITS)[sym + 1]);
  }

  /** Moving on to the first symbol of the next length in use. */
  lemma NextLength(lens: Lens, count: seq<nat>, sym: nat, len: nat, huff: nat, len': nat)
    requires Bounded(lens) && Fits(lens) && AtSymbol(lens, count, sym, len, huff) && 0 < len < len' <= MAXBITS
    requires count[len] == 1
    requires Count(lens, len') > 0 && forall l :: len < l < len' ==> Count(lens, l) == 0
    ensures AtSymbol(lens, count[len := 0], sym + 1, len', RevIncr(huff, len))
  {
    hide Order, Count, CountTo, RevIncr, Huff, Fits;
    var s := Order(lens, MAXBITS)[sym];
    OrderUnfold(lens, len);
    OrderSame(lens, len, len' - 1);
    OrderCode(lens, len', 0);
    NextCode(lens, s, Order(lens, MAXBITS)[sym + 1]);
  }

  /** Going to the next symbol: one fewer of this length, and perhaps on to the next length. */
  lemma NextSymbol(lens: Lens, count: seq<nat>, sym: nat, len: nat, huff: nat, max: nat)
    requires Bounded(lens) && Fits(lens) && AtSymbol(lens, count, sym, len, huff)
    requires 0 < len <= max == MaxLen(lens, MAXBITS) && 0 < count[len] && !(count[len] == 1 && len == max)
    ensures sym + 1 < |Order(lens, MAXBITS)|
    ensures var t := Order(lens, MAXBITS)[sym + 1];
            && t < |lens| && len <= lens[t] <= max
            && (count[len] > 1 ==> lens[t] == len)
            && AtSymbol(lens, count[len := count[len] - 1], sym + 1, lens[t], RevIncr(huff, len))
            && forall root :: Low(RevIncr(huff, len), root) == RootIndex(lens, root, t)
  {
    hide Order, Count, CountTo, RevIncr, Huff, Fits, MaxLen, MinLen;
    if count[len] > 1 {
      NextSameLength(lens, count, sym, len, huff);
    } else {
      MinMaxUsed(lens, len);
      NextLength(lens, count, sym, len, huff, MinLen(lens, len + 1, max));
    }
  }

  /** The table currently being filled. */
  ghost predicate AtTable(lens: Lens, t: seq<Entry>, root: nat, max: nat, s: nat,
                          next: nat, curr: nat, drop: nat, low: int, used: nat)
    requires Used(lens, s)
  {
    && next + Pow2(curr) == used <= |t|
    && if lens[s] <= root then next == 0 && curr == root && drop == 0 && low == -1
       else
         && drop == root && low == RootIndex(lens, root, s) && low < |t|
         && LinkOk(t, root, lens[s], t[low]) && t[low].val == next && t[low].op == curr
         && Roomy(lens, root, max, RootCode(lens, root, s), curr)
  }

  /** Index bits for a new sub-table, looking ahead at the counts. */
  method SubTableBits(ghost lens: Lens, count: seq<nat>, root: nat, max: nat, ghost sym: nat, len: nat,
      ghost huff: nat) returns (curr: nat)
    requires Bounded(lens) && AtSymbol(lens, count, sym, len, huff) && root < len <= max <= MAXBITS
    ensures curr == SubBitsAt(lens, root, max, Order(lens, MAXBITS)[sym])
  {
    hide Order, Count, CountTo, Huff;
    curr := len - root;
    var left: int := Pow2(curr);
    ghost var goal := SubBits(lens, root, max, len, left, count[len]);
    while curr + root < max
      invariant 0 < curr && len <= curr + root <= max
      invariant goal == SubBits(lens, root, max, curr + root, left, count[curr + root])
    {
      left := left - count[curr + root];
      if left <= 0 {
        break;
      }
      curr := curr + 1;
      left := left * 2;
    }
  }

  /** Enter one symbol: replicate its entry and, for the encoder, record its code. */
  method EnterSymbol(kind: Kind, lens: Lens, t: array<Entry>, root: nat, ghost max: nat, ghost sym: nat, s: nat,
      len: nat,
                     huff: nat, next: nat, curr: nat, drop: nat, ghost low: int, ghost used: nat, ghost count: seq<nat>)
    requires Bounded(lens) && Fits(lens) && |lens| <= MaxSyms(kind)
    requires AtSymbol(lens, count, sym, len, huff) && 0 < len <= max <= MAXBITS && 0 < root
    requires s == Order(lens, MAXBITS)[sym]
    requires AtTable(lens, t[..], root, max, s, next, curr, drop, low, used)
    requires Slots(kind, lens, t[..], root, sym, low, next, used)
    modifies t
    ensures AtTable(lens, t[..], root, max, s, next, curr, drop, low, used)
    ensures Slots(kind, lens, t[..], root, sym + 1, low, next, used)
  {
    hide Order, Pow2, Count, CountTo, Shr, Low, SymEntry, Roomy, Slots;
    ghost var t0 := t[..];
    ValBound(CodeBits(lens, s));
    if len > root {
      ShrBound(huff, drop, len - root);
      assert Shr(huff, drop) < Pow2(len - drop);
    } else {
      assert Shr(huff, 0) < Pow2(len) by { ShrZero(huff); }
    }
    Fill(t, next, curr, Shr(huff, drop), len - drop, SymEntry(kind, s, len - drop));
    if len <= root {
      ShrZero(huff);
      RootRound(kind, lens, t0, t[..], root, sym, low, next, used);
    } else {
      SubRound(kind, lens, t0, t[..], root, sym, low, next, used);
    }
  }

  lemma ShrZero(v: nat)
    ensures Shr(v, 0) == v
  {
  }

  /** Size the next sub-table, check the space, and link it into the root table. */
  method StartSubTable(kind: Kind, lens: Lens, t: array<Entry>, root: nat, max: nat, ghost work: seq<nat>,
      ghost sym: nat, len: nat,
                       huff: nat, count: seq<nat>, next: nat, low: int, used: nat, min: nat)
    returns (ok: bool, curr: nat, low': int, used': nat)
    requires Bounded(lens) && Fits(lens) && |lens| <= MaxSyms(kind) && work == Order(lens, MAXBITS)
    requires t.Length == Enough(kind)
    requires kind != Codes && InUse(lens, max, work) && AtSymbol(lens, count, sym, len, huff) && 0 < sym
    requires 0 < root < len <= max
    requires next + min == used && Slots(kind, lens, t[..], root, sym, low, next, used)
    requires NewSub(lens, root, max, work, sym)
    requires lens[work[sym - 1]] > root ==> low == RootIndex(lens, root, work[sym - 1])
    modifies t
    ensures used' == used + Pow2(SubBitsAt(lens, root, max, work[sym]))
    ensures ok <==> used' <= Enough(kind)
    ensures ok ==> AtTable(lens, t[..], root, max, work[sym], next + min, curr, root, low', used')
    ensures ok ==> Slots(kind, lens, t[..], root, sym, low', next + min, used')
  {
    hide Order, Pow2, Count, CountTo, Huff, Slots, AtTable, SubBitsAt, RootCode;
    SymbolFacts(lens, count, sym, len, huff);
    ghost var t0 := t[..];
    curr := SubTableBits(lens, count, root, max, sym, len, huff);
    low', used', ok := low, used + Pow2(curr), true;
    if used + Pow2(curr) > Enough(kind) {
      ok := false;
      return;
    }
    SlotsRoom(kind, lens, t0, root, sym, low, next, used);
    LinkRound(kind, lens, t0, root, sym, low, next, used, curr);
    NewTable(lens, t0, root, max, work[sym], used, curr);
    low' := Low(huff, root);
    t[low'] := Entry(curr, root, next + min);
    assert t[..] == t0[low' := Entry(curr, root, next + min)];
  }

  lemma SlotsRoom(kind: Kind, lens: Lens, t: seq<Entry>, root: nat, n: nat, low: int, next: nat, used: nat)
    requires Bounded(lens) && |lens| <= MaxSyms(kind) && Slots(kind, lens, t, root, n, low, next, used)
    ensures Pow2(root) <= used <= |t|
  {
  }

  /** The main loop: enter all symbols in order, starting sub-tables as needed. */
  method PlaceSymbols(kind: Kind, lens: Lens, lengthCount: seq<nat>, work: seq<nat>, min: nat, max: nat, root: nat,
      treeSize: nat)
    returns (ok: bool, t: array<Entry>, used: nat, tree: seq<TreeCode>, huff: nat, ghost last: nat)
    requires Bounded(lens) && Fits(lens) && |lens| <= MaxSyms(kind) && |lens| <= treeSize
    requires |lengthCount| == MAXBITS + 1 && forall l :: 0 <= l <= MAXBITS ==> lengthCount[l] == Count(lens, l)
    requires work == Order(lens, MAXBITS) && 0 < max == MaxLen(lens, MAXBITS) && min == MinLen(lens, 1, max)
    requires min <= root <= max && InUse(lens, max, work) && |work| > 0
    requires kind == Codes ==> root == max <= 7
    ensures ok <==> TableSize(lens, root, max, work, |work| - 1) <= Enough(kind)
    ensures fresh(t)
    ensures ok ==> used == TableSize(lens, root, max, work, |work| - 1) <= t.Length
    ensures ok ==> forall s: nat :: Used(lens, s) ==> Placed(kind, lens, t[..used], root, s)
    ensures ok ==> |tree| == treeSize && TreeFor(lens, tree)
    ensures ok ==> Used(lens, last) && lens[last] == max && CountTo(lens, last, max) + 1 == Count(lens, max)
                   && huff == RevIncr(Huff(lens, last), max)
  {
    hide Order, Pow2, Count, CountTo, Shr, Low, Huff, SymEntry, Slots, AtTable, AtSymbol, RevIncr, MaxLen, MinLen,
        TableSize, SubBitsAt, NewSub;
    tree := seq(treeSize, _ => TreeCode(0, 0));
    var sym, len, next, curr, drop := 0, min, 0, root, 0;
    var low: int := -1;
    var count := lengthCount;
    huff, last := 0, 0;
    used := Pow2(root);
    t := new Entry[Enough(kind)];
    FirstSize(lens, root, max, work);
    SizeMono(lens, root, max, work, 0, |work| - 1);
    Pow2Mono(root, if root <= 7 then 7 else root);
    assert Pow2(7) == 128 by { Pow2Small(); }
    if kind != Codes && used > Enough(kind) {
      ok := false;
      return;
    }
    MinMaxUsed(lens, max);
    FirstSymbol(lens, count, min);
    SymbolFacts(lens, count, 0, min, 0);
    StartRoot(kind, lens, t[..], root, max, work, used);
    assert TreePart(lens, tree, work, 0);
    ok := true;
    while true
      invariant sym < |work| && 0 < len <= max && t.Length == Enough(kind) && fresh(t) && |tree| == treeSize && ok
      invariant AtSymbol(lens, count, sym, len, huff)
      invariant AtTable(lens, t[..], root, max, work[sym], next, curr, drop, low, used)
      invariant Slots(kind, lens, t[..], root, sym, low, next, used)
      invariant used == TableSize(lens, root, max, work, sym)
      invariant TreePart(lens, tree, work, sym)
      decreases |work| - sym
    {
      SymbolFacts(lens, count, sym, len, huff);
      EnterSymbol(kind, lens, t, root, max, sym, work[sym], len, huff, next, curr, drop, low, used, count);
      TreeStep(lens, tree, work, sym, treeSize);
      tree := tree[work[sym] := TreeCode(huff, len)];
      var min' := Pow2(curr);  // the offset to the next table
      var huff' := BackwardsIncrement(huff, len);
      if count[len] == 1 && len == max {
        last := work[sym];
        LastSymbol(lens, count, sym, len, huff);
        huff := huff';
        sym := sym + 1;
        break;
      }
      NextSymbol(lens, count, sym, len, huff, max);
      count := count[len := count[len] - 1];
      if count[len] == 0 {
        len := lens[work[sym + 1]];
      }
      huff := huff';
      sym := sym + 1;
      TableAfter(lens, t[..], root, max, work, sym, next, curr, drop, low, used);
      SizeStep(lens, root, max, work, sym);
      if len > root && Low(huff, root) != low {
        SizeMono(lens, root, max, work, sym, |work| - 1);
        drop := root;
        ok, curr, low, used := StartSubTable(kind, lens, t, root, max, work, sym, len, huff, count, next, low, used,
            min');
        if !ok {
          return;
        }
        next := next + min';
      }
    }
    SlotsRoom(kind, lens, t[..], root, sym, low, next, used);
    AllPlaced(kind, lens, t[..], root, low, next, used);
    TreeDone(lens, tree, work);
  }

  lemma FirstSize(lens: Lens, root: nat, max: nat, order: seq<nat>)
    requires |order| > 0 && InUse(lens, max, order)
    ensures TableSize(lens, root, max, order, 0) == Pow2(root)
  {
  }

  lemma SizeStep(lens: Lens, root: nat, max: nat, order: seq<nat>, i: nat)
    requires 0 < i < |order| && InUse(lens, max, order)
    ensures TableSize(lens, root, max, order, i) == TableSize(lens, root, max, order, i - 1) +
            if NewSub(lens, root, max, order, i) then Pow2(SubBitsAt(lens, root, max, order[i])) else 0
  {
  }

  lemma {:induction false} SizeMono(lens: Lens, root: nat, max: nat, order: seq<nat>, i: nat, j: nat)
    requires i <= j < |order| && InUse(lens, max, order)
    ensures TableSize(lens, root, max, order, i) <= TableSize(lens, root, max, order, j)
    decreases j
  {
    if i < j {
      SizeMono(lens, root, max, order, i, j - 1);
      SizeStep(lens, root, max, order, j);
    }
  }

  lemma MinMaxUsed(lens: Lens, len: nat)
    requires 0 < MaxLen(lens, MAXBITS) && len <= MaxLen(lens, MAXBITS)
    ensures var max := MaxLen(lens, MAXBITS);
            && Count(lens, max) > 0
            && (len < max ==> Count(lens, MinLen(lens, len + 1, max)) > 0)
            && Count(lens, MinLen(lens, 1, max)) > 0
  {
  }

  lemma StartRoot(kind: Kind, lens: Lens, t: seq<Entry>, root: nat, max: nat, order: seq<nat>, used: nat)
    requires Bounded(lens) && |lens| <= MaxSyms(kind) && order == Order(lens, MAXBITS) && |order| > 0
    requires Used(lens, order[0]) && lens[order[0]] <= root && used == Pow2(root) <= |t|
    ensures AtTable(lens, t, root, max, order[0], 0, root, 0, -1, used)
    ensures Slots(kind, lens, t, root, 0, -1, 0, used)
  {
  }

  lemma SymbolFacts(lens: Lens, count: seq<nat>, sym: nat, len: nat, huff: nat)
    requires AtSymbol(lens, count, sym, len, huff)
    ensures var s := Order(lens, MAXBITS)[sym];
            && sym < |Order(lens, MAXBITS)| && Used(lens, s) && lens[s] == len && huff == Huff(lens, s)
            && 0 < len <= MAXBITS && |count| == MAXBITS + 1 && count[len] > 0
            && (len > 0 ==> forall root :: Low(huff, root) == RootIndex(lens, root, s))
  {
  }

  lemma LastSymbol(lens: Lens, count: seq<nat>, sym: nat, len: nat, huff: nat)
    requires AtSymbol(lens, count, sym, len, huff) && 0 < len == MaxLen(lens, MAXBITS) && count[len] == 1
    ensures sym + 1 == |Order(lens, MAXBITS)|
    ensures CountTo(lens, Order(lens, MAXBITS)[sym], len) + 1 == Count(lens, len)
  {
    OrderSame(lens, len, MAXBITS);
    OrderUnfold(lens, len);
  }

  /** After the step to the next symbol the table at hand is still right, unless a new one is needed. */
  lemma TableAfter(lens: Lens, t: seq<Entry>, root: nat, max: nat, order: seq<nat>, i: nat,
                   next: nat, curr: nat, drop: nat, low: int, used: nat)
    requires Bounded(lens) && Fits(lens) && order == Order(lens, MAXBITS) && 0 < i < |order| && InUse(lens, max, order)
    requires AtTable(lens, t, root, max, order[i - 1], next, curr, drop, low, used)
    ensures lens[order[i]] > root ==> (RootIndex(lens, root, order[i]) != low <==> NewSub(lens, root, max, order, i))
    ensures lens[order[i]] <= root || RootIndex(lens, root, order[i]) == low ==>
              AtTable(lens, t, root, max, order[i], next, curr, drop, low, used) && !NewSub(lens, root, max, order, i)
    ensures lens[order[i - 1]] > root ==>
              && low == RootIndex(lens, root, order[i - 1])
              && (lens[order[i]] > root && RootIndex(lens, root, order[i]) != low ==>
                    RootCode(lens, root, order[i - 1]) != RootCode(lens, root, order[i]))
    ensures next + Pow2(curr) == used
  {
    hide Order, Pow2, Shr, Low, Roomy, RootIndex, RootCode, Code;
    OrderSorted(lens, i - 1, i);
    var s, r := order[i], order[i - 1];
    if lens[s] > root {
      if lens[r] > root {
        RootIndexCode(lens, root, r, s);
        if RootIndex(lens, root, s) == low {
          FitsRoom(lens, root, max, s, curr);
        }
      }
    }
  }

  lemma NewTable(lens: Lens, t: seq<Entry>, root: nat, max: nat, s: nat, used: nat, curr: nat)
    requires Used(lens, s) && root < lens[s] <= max <= MAXBITS && 0 < root
    requires curr == SubBitsAt(lens, root, max, s) && Pow2(root) <= used && used + Pow2(curr) <= |t|
    ensures var p := RootIndex(lens, root, s);
            AtTable(lens, t[p := Entry(curr, root, used)], root, max, s, used, curr, root, p, used + Pow2(curr))
  {
    hide Pow2, SubBits, RootIndex;
    SubBitsAtRoomy(lens, root, max, s);
  }

  lemma AllPlaced(kind: Kind, lens: Lens, t: seq<Entry>, root: nat, low: int, next: nat, used: nat)
    requires Bounded(lens) && |lens| <= MaxSyms(kind)
    requires Slots(kind, lens, t, root, |Order(lens, MAXBITS)|, low, next, used)
    ensures forall s: nat :: Used(lens, s) ==> Placed(kind, lens, t[..used], root, s)
  {
    hide Pow2, Order, Huff, SymEntry, Shr, Low;
    forall s: nat | Used(lens, s)
      ensures Placed(kind, lens, t[..used], root, s)
    {
      var i := InOrder(lens, s);
      assert SlotOk(kind, lens, t, root, s, low, next, used);
    }
  }

  // ----- the encoder's tree -----

  /** The codes of the first `n` symbols of the order are recorded, all others are clear. */
  ghost predicate TreePart(lens: Lens, tree: seq<TreeCode>, order: seq<nat>, n: nat)
  {
    && n <= |order|
    && (forall j :: 0 <= j < n ==> Used(lens, order[j]) && order[j] < |tree|)
    && (forall j :: 0 <= j < n ==> tree[order[j]] == TreeCode(Huff(lens, order[j]), lens[order[j]]))
    && forall s :: 0 <= s < |tree| && s !in order[..n] ==> tree[s] == TreeCode(0, 0)
  }

  lemma TreeStep(lens: Lens, tree: seq<TreeCode>, order: seq<nat>, n: nat, size: nat)
    requires TreePart(lens, tree, order, n) && n < |order| && Used(lens, order[n]) && |lens| <= size == |tree|
    ensures TreePart(lens, tree[order[n] := TreeCode(Huff(lens, order[n]), lens[order[n]])], order, n + 1)
  {
    hide Huff;
    assert order[..n + 1] == order[..n] + [order[n]];
  }

  lemma TreeDone(lens: Lens, tree: seq<TreeCode>, order: seq<nat>)
    requires TreePart(lens, tree, order, |order|) && order == Order(lens, MAXBITS) && |lens| <= |tree|
    ensures TreeFor(lens, tree)
  {
    hide Huff, Order;
    assert order[..|order|] == order;
    forall s | 0 <= s < |tree|
      ensures tree[s] == if Used(lens, s) then TreeCode(Huff(lens, s), lens[s]) else TreeCode(0, 0)
    {
      if Used(lens, s) {
        var i := InOrder(lens, s);
      } else {
        assert s !in order;
      }
    }
  }

  lemma NoSymbols(kind: Kind, lens: Lens, size: nat)
    requires Bounded(lens) && |lens| <= size && MaxLen(lens, MAXBITS) == 0
    ensures TableFor(kind, lens, [INVALID, INVALID], 1)
    ensures TreeFor(lens, seq(size, _ => TreeCode(0, 0)))
  {
    hide MaxLen, Complete, ToBits, Pow2, Count, Leads, DecodeSym;
    NothingUsed(lens);
    forall h: nat | h < Pow2(MAXBITS)
      ensures LookupOk(kind, lens, [INVALID, INVALID], 1, h)
    {
      InvalidPair(h);
      NothingDecodes(lens, ToBits(h, MAXBITS));
    }
  }

  lemma NothingUsed(lens: Lens)
    requires MaxLen(lens, MAXBITS) == 0
    ensures !Complete(lens)
    ensures forall s: nat :: s < |lens| ==> !Used(lens, s)
  {
    hide Complete, EndCode, CountTo;
    CompleteAtMax(lens);
    assert EndCode(lens, 0) == 0 && Pow2(0) == 1 by { EndZero(lens); }
    forall s: nat | s < |lens|
      ensures !Used(lens, s)
    {
      CountPrefix(lens, s, lens[s]);
    }
  }

  lemma EndZero(lens: Lens)
    ensures EndCode(lens, 0) == 0 && Pow2(0) == 1
  {
  }

  lemma NothingDecodes(lens: Lens, bits: Bits)
    requires !Complete(lens) && |bits| > 0 && forall s: nat :: s < |lens| ==> !Used(lens, s)
    ensures DecodeSym(lens, bits) == NoCode
  {
  }

  lemma InvalidPair(h: nat)
    ensures Leads([INVALID, INVALID], 1, h, INVALID, 1)
  {
    ShrLow(h, 1);
    assert Pow2(1) == 2;
  }

  lemma CodesShort(lens: Lens)
    requires Bounded(lens) && forall i :: 0 <= i < |lens| ==> lens[i] <= 7
    ensures MaxLen(lens, MAXBITS) <= 7
  {
    var max := MaxLen(lens, MAXBITS);
    if max > 7 {
      var s := NthSym(lens, |lens|, max, 0);
    }
  }

  lemma FinishComplete(kind: Kind, lens: Lens, t: seq<Entry>, root: nat, last: nat)
    requires Bounded(lens) && Fits(lens) && |lens| <= MaxSyms(kind) && 0 < root <= MAXBITS && Pow2(root) <= |t|
    requires forall s: nat :: Used(lens, s) ==> Placed(kind, lens, t, root, s)
    requires Complete(lens)
    ensures TableFor(kind, lens, t, root)
  {
    FinishedTable(kind, lens, t, root);
  }

  lemma FinishIncomplete(kind: Kind, lens: Lens, t: seq<Entry>, last: nat)
    requires Bounded(lens) && Fits(lens) && |lens| <= MaxSyms(kind) && 2 <= |t|
    requires forall s: nat :: Used(lens, s) ==> Placed(kind, lens, t, 1, s)
    requires !Complete(lens) && MaxLen(lens, MAXBITS) == 1 && Count(lens, 1) == 1
    requires Used(lens, last) && lens[last] == 1
    ensures TableFor(kind, lens, t[1 := INVALID], 1)
  {
    hide *;
    IsSingleCode(lens, last);
    ZerosKept(kind, lens, t);
    assert Pow2(1) == 2 by { Pow2Small(); }
    assert 1 <= MAXBITS;
    FinishedTable(kind, lens, t[1 := INVALID], 1);
  }

  lemma IsSingleCode(lens: Lens, last: nat)
    requires MaxLen(lens, MAXBITS) == 1 && Count(lens, 1) == 1 && Used(lens, last)
    ensures SingleCode(lens)
  {
    hide MaxLen, Count, Huff;
    forall s: nat | Used(lens, s)
      ensures lens[s] == 1 && Huff(lens, s) == 0
    {
      OnlyCode(lens, s);
    }
  }

  lemma ZerosKept(kind: Kind, lens: Lens, t: seq<Entry>)
    requires |lens| <= MaxSyms(kind) && 2 <= |t| && SingleCode(lens)
    requires forall s: nat :: Used(lens, s) ==> Placed(kind, lens, t, 1, s)
    ensures forall s: nat :: Used(lens, s) ==> Placed(kind, lens, t[1 := INVALID], 1, s)
  {
    hide Huff, Placed;
    forall s: nat | Used(lens, s)
      ensures Placed(kind, lens, t[1 := INVALID], 1, s)
    {
      ZeroKept(kind, lens, t, s);
    }
  }

  lemma ZeroKept(kind: Kind, lens: Lens, t: seq<Entry>, s: nat)
    requires Used(lens, s) && lens[s] == 1 && Huff(lens, s) == 0 && s < MaxSyms(kind) && 2 <= |t|
    requires Placed(kind, lens, t, 1, s)
    ensures Placed(kind, lens, t[1 := INVALID], 1, s)
  {
    assert Pow2(1) == 2 && Low(1, 1) == 1;
    hide Huff, SymEntry;
  }

  lemma OnlyCode(lens: Lens, s: nat)
    requires Used(lens, s) && MaxLen(lens, MAXBITS) == 1 && Count(lens, 1) == 1
    ensures lens[s] == 1 && Huff(lens, s) == 0
  {
    CountPrefix(lens, s, lens[s]);
    FirstCodeZero(lens, 1);
    MsbZero(1);
  }

  method LongestLength(lens: Lens, count: seq<nat>) returns (max: nat)
    requires |count| == MAXBITS + 1 && forall l :: 0 <= l <= MAXBITS ==> count[l] == Count(lens, l)
    ensures max == MaxLen(lens, MAXBITS)
  {
    hide Count;
    max := MAXBITS;
    while max >= 1 && count[max] == 0
      invariant 0 <= max <= MAXBITS && MaxLen(lens, MAXBITS) == MaxLen(lens, max)
    {
      max := max - 1;
    }
  }

  method ShortestLength(lens: Lens, count: seq<nat>, max: nat) returns (min: nat)
    requires |count| == MAXBITS + 1 && forall l :: 0 <= l <= MAXBITS ==> count[l] == Count(lens, l)
    requires 1 <= max <= MAXBITS
    ensures min == MinLen(lens, 1, max)
  {
    hide Count;
    min := 1;
    while min < max && count[min] == 0
      invariant 1 <= min <= max && MinLen(lens, 1, max) == MinLen(lens, min, max)
    {
      min := min + 1;
    }
  }

  /** inflate_table and inflate_table_my.  `table` is 0-based: the source's next free entry moves up by its length. */
  method InflateTable(kind: Kind, lens: Lens, treeSize: nat)
    returns (ret: int, table: seq<Entry>, root: nat, tree: seq<TreeCode>)
    requires Bounded(lens) && |lens| <= MaxSyms(kind) && |lens| <= treeSize
    requires kind == Codes ==> forall i :: 0 <= i < |lens| ==> lens[i] <= 7
    ensures ret == 0 <==> Accepts(kind, lens)
    ensures ret == 0 ==> TableFor(kind, lens, table, root)
    ensures ret == 0 ==> |tree| == treeSize && TreeFor(lens, tree)
    ensures ret == 0 && kind == Codes ==> MaxLen(lens, MAXBITS) <= root
  {
    hide Order, Pow2, Count, CountTo, Huff, TableSize, Complete, EndCode, Fits, Placed, TableFor, TreeFor, MaxLen,
        MinLen, RevIncr, InUse;
    table, tree := [], seq(treeSize, _ => TreeCode(0, 0));
    var count := CountLengths(lens);
    root := RequestBits(kind);
    var max := LongestLength(lens, count);
    if root > max {
      root := max;
    }
    if max == 0 {
      NoSymbols(kind, lens, treeSize);
      return 0, [INVALID, INVALID], 1, tree;
    }
    var min := ShortestLength(lens, count, max);
    if root < min {
      root := min;
    }
    var left := CheckLeft(lens, count);
    if left < 0 {
      return -1, [], root, tree;
    }
    if left > 0 && (kind == Codes || max != 1) {
      return -1, [], root, tree;
    }
    var work := SortSymbols(lens, count);
    OrderNonEmpty(lens, max, MAXBITS);
    OrderInUse(lens, MAXBITS);
    if kind == Codes {
      CodesShort(lens);
    }
    var ok, t, used, tree', huff;
    ghost var last;
    ok, t, used, tree', huff, last := PlaceSymbols(kind, lens, count, work, min, max, root, treeSize);
    if !ok {
      return 1, [], root, tree;
    }
    LastCode(lens, last);
    ghost var full := t[..used];
    assert Pow2(1) == 2 by { Pow2Small(); }
    Pow2Mono(1, root);
    if huff != 0 {
      // at most one entry is left, since an incomplete code got this far only with one code of one bit
      FinishIncomplete(kind, lens, full, last);
      t[huff] := INVALID;
      assert t[..used] == full[1 := INVALID];
    } else {
      FinishComplete(kind, lens, full, root, last);
    }
    return 0, t[..used], root, tree';
  }
}
