/**
  The bit accumulator in front of the input: PULLBYTE, NEEDBITS, BITS, DROPBITS and BYTEBITS, and the
  table look-up loops; inflate.c and deflate.c use the same text.
 */
module BitReading {
  import opened Bits
  import opened Huffman
  import opened TableSpec
  import opened FormatLemmas

  /** A table as the table builder leaves it. */
  ghost predicate TableOk(kind: Kind, lens: Lens, table: seq<Entry>, root: nat) {
    Bounded(lens) && |lens| <= MaxSyms(kind) && Accepts(kind, lens) && TableFor(kind, lens, table, root)
  }

  /** The entry says what was decoded: the symbol, or that there is none. */
  ghost predicate Says(kind: Kind, lens: Lens, r: SymResult, e: Entry, n: nat) {
    match r
    case Sym(s) =>
      && s < |lens| && s < MaxSyms(kind) && n == lens[s]
      && e.op == SymEntry(kind, s, 0).op && e.val == SymEntry(kind, s, 0).val
    case NoCode => e.op == INVALID.op && e.val == INVALID.val && n == 1
    case NeedBits => false
  }

  /** Index into a sub-table: `BITS(last.bits + last.op) >> last.bits`, starting at `last.val`. */
  function SubIndex(last: Entry, hold: nat): nat {
    last.val + Shr(Low(hold, last.bits + last.op), last.bits)
  }

  /** The entry found for a register in one or two steps. */
  function Find(table: seq<Entry>, root: nat, hold: nat): Entry
    requires Low(hold, root) < |table|
    requires var first := table[Low(hold, root)]; IsLink(first) ==> SubIndex(first, hold) < |table|
  {
    var first := table[Low(hold, root)];
    if IsLink(first) then table[SubIndex(first, hold)] else first
  }

  /** The bits dropped for the first of two steps. */
  function Skip(table: seq<Entry>, root: nat, hold: nat): nat
    requires Low(hold, root) < |table|
  {
    var first := table[Low(hold, root)];
    if IsLink(first) then first.bits else 0
  }

  ghost predicate Findable(table: seq<Entry>, root: nat, hold: nat) {
    && Low(hold, root) < |table|
    && var first := table[Low(hold, root)];
       (IsLink(first) ==> first.bits == root && root + first.op <= MAXBITS && SubIndex(first, hold) < |table|)
  }

  class BitReader {
    var hold: nat        // bits not yet used, in the low `bits` bits
    var bits: nat
    var next: seq<byte>  // the rest of the current input; next_in and avail_in

    ghost function Valid(): (v: bool)
      reads `hold, `bits
      ensures v ==> bits <= 32
    {
      bits <= 32 && hold < Pow2(bits)
    }

    /** The input not yet used. */
    ghost function Ahead(): (r: Bits)
      reads this
      ensures |r| == bits + 8 * |next|
    {
      ToBits(hold, bits) + ByteBits(next)
    }

    constructor ()
      ensures Valid() && hold == 0 && bits == 0 && next == []
    {
      hold, bits, next := 0, 0, [];
      new;
      assert Pow2(0) == 1;
    }

    /** PULLBYTE: one more input byte above the bits held. */
    method Pull() returns (ok: bool)
      requires Valid() && bits <= 24
      modifies this
      ensures Valid() && Ahead() == old(Ahead())
      ensures ok <==> old(next) != []
      ensures ok ==> bits == old(bits) + 8 && next == old(next)[1..]
      ensures !ok ==> bits == old(bits) && next == [] && hold == old(hold)
      ensures Low(hold, old(bits)) == old(hold)
    {
      hide ToBits, ByteBits, Pow2, Low;
      if next == [] {
        LowSmall(hold, bits);
        return false;
      }
      PullBits(hold, bits, next);
      hold := hold + next[0] * Pow2(bits);
      bits := bits + 8;
      next := next[1..];
      return true;
    }

    /** NEEDBITS(n) */
    method Need(n: nat) returns (ok: bool)
      requires Valid() && (n <= 25 || (n == 32 && bits % 8 == 0))
      modifies this
      ensures Valid() && Ahead() == old(Ahead())
      ensures ok <==> bits >= n
      ensures !ok ==> next == []
      ensures old(bits) >= n ==> bits == old(bits)
      ensures old(bits) < n ==> bits < n + 8 && bits % 8 == old(bits) % 8 && bits >= old(bits)
    {
      hide ToBits, ByteBits, Pow2, Low;
      while bits < n
        invariant Valid() && Ahead() == old(Ahead())
        invariant old(bits) <= bits && bits % 8 == old(bits) % 8
        invariant bits == old(bits) || bits < n + 8
        decreases |next|
      {
        var pulled := Pull();
        if !pulled {
          return false;
        }
      }
      return true;
    }

    /** BITS(n) */
    function Peek(n: nat): nat
      reads this
    {
      Low(hold, n)
    }

    /** BITS(n) is the number the next n bits spell. */
    lemma Peeked(n: nat)
      requires Valid() && n <= bits
      ensures Peek(n) == Val(Ahead()[..n]) && Peek(n) < Pow2(n)
      ensures ToBits(Peek(n), n) == Ahead()[..n]
    {
      hide ToBits, Val, Low, Pow2;
      ToBitsDrop(hold, bits, n);
      ShrLow(hold, n);
      assert Ahead()[..n] == ToBits(hold, bits)[..n];
    }

    /** `hold >> n` is the number the bits after the next n spell. */
    lemma PeekedRest(n: nat)
      requires Valid() && n <= bits
      ensures Shr(hold, n) == Val(Ahead()[n..bits])
    {
      hide ToBits, Val, Low, Shr, Pow2;
      ToBitsDrop(hold, bits, n);
      ValToBits(Shr(hold, n), bits - n);
      assert Ahead()[n..bits] == ToBits(hold, bits)[n..];
    }

    /** Whole bytes straight from the input, when no bits are held. */
    method TakeBytes(k: nat) returns (bytes: seq<byte>)
      requires Valid() && bits == 0 && k <= |next|
      modifies this`next
      ensures Valid() && bytes == old(next)[..k] && next == old(next)[k..]
      ensures Ahead() == old(Ahead())[8 * k..] && bytes == Pack(old(Ahead())[..8 * k])
    {
      ByteBitsDrop(next, k);
      PackByteBits(next[..k]);
      assert Ahead() == ByteBits(next);
      bytes := next[..k];
      next := next[k..];
      assert Ahead() == ByteBits(next);
    }

    /** RESTORE(): the registers are stored back. */
    method Load(h: nat, b: nat, rest: seq<byte>)
      requires h < Pow2(b) && b <= 32
      modifies this
      ensures Valid() && Ahead() == ToBits(h, b) + ByteBits(rest) && bits == b && next == rest
    {
      hold, bits, next := h, b, rest;
    }

    lemma Held()
      requires Valid()
      ensures hold < Pow2(bits) && Ahead() == ToBits(hold, bits) + ByteBits(next)
    {
    }

    /** Input that comes next, and input that comes after it. */
    lemma HeldAnd(chunk: seq<byte>, later: seq<byte>)
      requires next == chunk
      ensures Ahead() + ByteBits(later) == ToBits(hold, bits) + ByteBits(chunk + later)
    {
      hide ToBits, ByteBits;
      ByteBitsAppend(chunk, later);
      Assoc(ToBits(hold, bits), ByteBits(chunk), ByteBits(later));
    }

    lemma HeldIsAhead()
      requires next == []
      ensures Ahead() == ToBits(hold, bits)
    {
    }

    lemma HeldIsFront()
      ensures Ahead()[..bits] == ToBits(hold, bits)
    {
    }

    /** DROPBITS(n) */
    method Drop(n: nat)
      requires Valid() && n <= bits
      modifies this`hold, this`bits
      ensures Valid() && Ahead() == old(Ahead())[n..] && bits == old(bits) - n
    {
      hide ToBits, Shr, Pow2;
      ToBitsDrop(hold, bits, n);
      ghost var before := ToBits(hold, bits);
      hold := Shr(hold, n);
      bits := bits - n;
      assert before[n..] + ByteBits(next) == (before + ByteBits(next))[n..];
    }

    lemma NoneHeld()
      requires bits == 0
      ensures Ahead() == ByteBits(next) && |Ahead()| == 8 * |next|
    {
      assert ToBits(hold, 0) == [];
    }

    /** BYTEBITS */
    method Align()
      requires Valid()
      modifies this`hold, this`bits
      ensures Valid() && Ahead() == Aligned(old(Ahead()))
      ensures bits == old(bits) - old(bits) % 8
    {
      hide ToBits, ByteBits;
      Drop(bits % 8);
    }

    /** The first look-up loop: pulls bytes until the bits of the root entry are there. */
    method Fetch(ghost kind: Kind, ghost lens: Lens, table: seq<Entry>, root: nat) returns (ok: bool, here: Entry)
      requires Valid() && bits <= 24 && TableOk(kind, lens, table, root)
      modifies this
      ensures Valid() && Ahead() == old(Ahead()) && old(bits) <= bits <= 24
      ensures Waited(lens, Ahead(), old(bits), bits)
      ensures Findable(table, root, hold) && here == table[Low(hold, root)]
      ensures ok <==> here.bits <= bits
      ensures !ok ==> next == [] && DecodeSym(lens, Ahead()) == NeedBits && bits < MAXBITS
    {
      hide ToBits, ByteBits, Low, Pow2, TableOk, DecodeSym, SymEntry, Shr, Says, Accepts, Waited;
      AtFirst(lens, Ahead(), bits);
      while true
        invariant Valid() && Ahead() == old(Ahead())
        invariant Waited(lens, Ahead(), old(bits), bits)
        invariant old(bits) <= bits <= 24
        decreases |next|
      {
        Found(kind, lens, table, root, hold, bits);
        here := table[Low(hold, root)];
        if here.bits <= bits {
          return true, here;
        }
        StillWaiting(lens, hold, bits, next, old(bits));
        var pulled := Pull();
        if !pulled {
          return false, here;
        }
      }
    }

    /** Both look-up loops; `skip` bits belong to the first step. */
    method Lookup(ghost kind: Kind, ghost lens: Lens, table: seq<Entry>, root: nat)
      returns (ok: bool, here: Entry, skip: nat)
      requires Valid() && bits <= 24 && TableOk(kind, lens, table, root)
      modifies this
      ensures Valid() && Ahead() == old(Ahead())
      ensures !ok ==> next == [] && DecodeSym(lens, Ahead()) == NeedBits
      ensures ok ==> 0 < skip + here.bits <= bits && skip + here.bits <= MAXBITS && !IsLink(here)
      ensures ok ==> Says(kind, lens, DecodeSym(lens, Ahead()), here, skip + here.bits)
      ensures ok ==> bits == old(bits) || bits < skip + here.bits + 8
      ensures !ok ==> bits < MAXBITS
    {
      hide ToBits, ByteBits, Low, Pow2, TableOk, DecodeSym, SymEntry, Shr, Says, Accepts, Waited;
      ok, here := Fetch(kind, lens, table, root);
      skip := 0;
      if ok && IsLink(here) {
        skip := here.bits;
        ok, here := LookupSub(kind, lens, table, root, here, old(bits));
      }
      if ok {
        TableLens(kind, lens, table, root);
        Found(kind, lens, table, root, hold, bits);
        Settled(kind, lens, hold, bits, next, here, skip + here.bits, old(bits));
      }
    }

    /** The second look-up loop, in the sub-table `last` links to. */
    method LookupSub(ghost kind: Kind, ghost lens: Lens, table: seq<Entry>, root: nat, last: Entry, ghost before: nat)
      returns (ok: bool, here: Entry)
      requires Valid() && root <= bits && before <= bits <= 24 && TableOk(kind, lens, table, root)
      requires Low(hold, root) < |table| && last == table[Low(hold, root)] && IsLink(last)
      requires Waited(lens, Ahead(), before, bits)
      modifies this
      ensures Valid() && Ahead() == old(Ahead()) && old(bits) <= bits
      ensures Waited(lens, Ahead(), before, bits)
      ensures Low(hold, root) < |table| && last == table[Low(hold, root)]
      ensures Findable(table, root, hold) && here == Find(table, root, hold)
      ensures !ok ==> next == [] && DecodeSym(lens, Ahead()) == NeedBits && bits < MAXBITS
      ensures ok ==> last.bits + here.bits <= bits
    {
      hide ToBits, ByteBits, Low, Pow2, TableOk, DecodeSym, SymEntry, Shr, Says, Accepts, Waited;
      while true
        invariant Valid() && Ahead() == old(Ahead())
        invariant Waited(lens, Ahead(), before, bits)
        invariant old(bits) <= bits <= 24
        invariant Low(hold, root) < |table| && last == table[Low(hold, root)]
        decreases |next|
      {
        Found(kind, lens, table, root, hold, bits);
        here := table[SubIndex(last, hold)];
        if last.bits + here.bits <= bits {
          return true, here;
        }
        StillWaiting(lens, hold, bits, next, before);
        ghost var held := bits;
        LowLow(hold, root, held);
        var pulled := Pull();
        LowLow(hold, root, held);
        if !pulled {
          return false, here;
        }
      }
    }
  }

  /** After pulling bytes, the symbol was not complete one byte earlier. */
  ghost predicate Waited(lens: Lens, ahead: Bits, before: nat, bits: nat) {
    before < bits ==> 8 <= bits <= 8 + |ahead| && DecodeSym(lens, ahead[..bits - 8]) == NeedBits
  }

  lemma AtFirst(lens: Lens, ahead: Bits, bits: nat)
    ensures Waited(lens, ahead, bits, bits)
  {
  }

  lemma StillWaiting(lens: Lens, hold: nat, bits: nat, next: seq<byte>, before: nat)
    requires DecodeSym(lens, ToBits(hold, bits)) == NeedBits
    ensures Waited(lens, ToBits(hold, bits) + ByteBits(next), before, bits + 8)
    ensures next == [] ==> DecodeSym(lens, ToBits(hold, bits) + ByteBits(next)) == NeedBits
  {
    assert (ToBits(hold, bits) + ByteBits(next))[..bits] == ToBits(hold, bits);
    if next == [] {
      assert ToBits(hold, bits) + ByteBits(next) == ToBits(hold, bits);
    }
  }

  /** Looking up a register finds what its valid bits decode to, or an entry with more bits than that. */
  lemma Found(kind: Kind, lens: Lens, table: seq<Entry>, root: nat, hold: nat, bits: nat)
    requires TableOk(kind, lens, table, root) && hold < Pow2(bits)
    ensures Findable(table, root, hold)
    ensures var e, skip := Find(table, root, hold), Skip(table, root, hold);
            && 0 < skip + e.bits <= MAXBITS && !IsLink(e) && 0 < e.bits
            && (skip + e.bits <= bits ==> Says(kind, lens, DecodeSym(lens, ToBits(hold, bits)), e, skip + e.bits))
            && (skip + e.bits > bits ==> DecodeSym(lens, ToBits(hold, bits)) == NeedBits)
  {
    var h := Low(hold, MAXBITS);
    ShrLow(hold, MAXBITS);
    assert LookupOk(kind, lens, table, root, h);
    var r := DecodeSym(lens, ToBits(h, MAXBITS));
    var e, n := if r.Sym? then SymEntry(kind, r.sym, 0) else INVALID, if r.Sym? then lens[r.sym] else 1;
    assert 0 < n <= MAXBITS by { if r.Sym? { DecodedCode(lens, ToBits(h, MAXBITS)); } }
    assert !IsLink(e) by { if r.Sym? { SymEntryShape(kind, r.sym, 0); } }
    LeadsFind(table, root, hold, e, n);
    RegisterDecodes(kind, lens, hold, bits);
  }

  /** The two-step look-up on the 15-bit register is the one on the full register. */
  lemma LeadsFind(table: seq<Entry>, root: nat, hold: nat, e: Entry, n: nat)
    requires 0 < root <= MAXBITS && !IsLink(e) && n > 0
    requires Leads(table, root, Low(hold, MAXBITS), e, n)
    ensures Findable(table, root, hold)
    ensures var f := Find(table, root, hold);
            f.op == e.op && f.val == e.val && Skip(table, root, hold) + f.bits == n && f.bits > 0
  {
    hide Low, Shr;
    var h := Low(hold, MAXBITS);
    LowLow(hold, root, MAXBITS);
    var first := table[Low(hold, root)];
    if n > root {
      LowShr(h, root, first.op);
      LowLow(hold, root + first.op, MAXBITS);
    }
  }

  /** What the valid bits of a register decode to, against the register filled up with zeros. */
  lemma RegisterDecodes(kind: Kind, lens: Lens, hold: nat, bits: nat)
    requires Bounded(lens) && Accepts(kind, lens) && hold < Pow2(bits)
    requires !DecodeSym(lens, ToBits(Low(hold, MAXBITS), MAXBITS)).NeedBits?
    ensures var r := DecodeSym(lens, ToBits(Low(hold, MAXBITS), MAXBITS));
            var n := if r.Sym? then lens[r.sym] else 1;
            DecodeSym(lens, ToBits(hold, bits)) == if n <= bits then r else NeedBits
  {
    hide ToBits, Low, Fits, CodeBits, Accepts;
    var valid, full := ToBits(hold, bits), ToBits(Low(hold, MAXBITS), MAXBITS);
    var r := DecodeSym(lens, full);
    AcceptedFits(kind, lens);
    var k := if bits < MAXBITS then bits else MAXBITS;
    Overlap(hold, bits, k);
    if r.Sym? && lens[r.sym] <= bits {
      DecodedCode(lens, full);
      SamePrefix(CodeBits(lens, r.sym), full, valid, k);
      DecodeCode(lens, r.sym, valid);
    } else {
      forall t: nat | Matches(lens, t, valid)
        ensures false
      {
        SamePrefix(CodeBits(lens, t), valid, full, k);
        DecodeCode(lens, t, full);
      }
      if r.Sym? && !Complete(lens) && bits > 0 {
        DecodedCode(lens, full);
        ShortCode(kind, lens, r.sym);
      }
    }
  }

  lemma SamePrefix(c: Bits, a: Bits, b: Bits, k: nat)
    requires c <= a && k <= |a| && k <= |b| && |c| <= k && a[..k] == b[..k]
    ensures c <= b
  {
    assert c == a[..|c|] == a[..k][..|c|] == b[..k][..|c|] == b[..|c|];
  }

  lemma Overlap(hold: nat, bits: nat, k: nat)
    requires hold < Pow2(bits) && k <= bits && k <= MAXBITS
    ensures ToBits(hold, bits)[..k] == ToBits(Low(hold, MAXBITS), MAXBITS)[..k]
  {
    ToBitsSplit(hold, k, bits - k);
    ToBitsSplit(Low(hold, MAXBITS), k, MAXBITS - k);
    LowLow(hold, k, MAXBITS);
    ToBitsSplit(Low(hold, MAXBITS), k, 0);
    ToBitsSplit(hold, k, 0);
  }

  lemma AcceptedFits(kind: Kind, lens: Lens)
    requires Bounded(lens) && Accepts(kind, lens)
    ensures Fits(lens)
  {
    hide Fits, SpaceNeeded, Complete;
    if MaxLen(lens, MAXBITS) == 0 {
      EmptyFits(lens);
    }
  }

  /** An incomplete code that is accepted has at most one code, of one bit. */
  lemma ShortCode(kind: Kind, lens: Lens, s: nat)
    requires Bounded(lens) && Accepts(kind, lens) && !Complete(lens) && Used(lens, s)
    ensures lens[s] == 1
  {
    hide Fits, SpaceNeeded, Complete;
    CountPrefix(lens, s, lens[s]);
  }

  /** A code that fits into the first bits is found there. */
  lemma MatchEarly(lens: Lens, s: nat, bits: Bits, more: Bits)
    requires Matches(lens, s, bits + more) && lens[s] <= |bits|
    ensures Matches(lens, s, bits)
  {
    hide CodeBits;
    assert CodeBits(lens, s) == (bits + more)[..lens[s]] == bits[..lens[s]];
  }

  /** More input does not change what was decoded. */
  lemma DecodedStays(kind: Kind, lens: Lens, bits: Bits, more: Bits)
    requires Bounded(lens) && Accepts(kind, lens) && !DecodeSym(lens, bits).NeedBits?
    ensures DecodeSym(lens, bits + more) == DecodeSym(lens, bits)
  {
    hide Fits, SpaceNeeded, Accepts, CodeBits;
    AcceptedFits(kind, lens);
    if DecodeSym(lens, bits).Sym? {
      DecodeStable(lens, bits, more);
    } else {
      forall t: nat | Matches(lens, t, bits + more)
        ensures false
      {
        ShortCode(kind, lens, t);
        MatchEarly(lens, t, bits, more);
      }
    }
  }

  /** The decoded symbol is complete, and was not complete one byte earlier. */
  lemma Settled(kind: Kind, lens: Lens, hold: nat, bits: nat, next: seq<byte>, here: Entry, n: nat, before: nat)
    requires Bounded(lens) && Accepts(kind, lens)
    requires Says(kind, lens, DecodeSym(lens, ToBits(hold, bits)), here, n) && n <= bits
    requires Waited(lens, ToBits(hold, bits) + ByteBits(next), before, bits) && before <= bits
    ensures Says(kind, lens, DecodeSym(lens, ToBits(hold, bits) + ByteBits(next)), here, n)
    ensures bits == before || bits < n + 8
  {
    hide ToBits, ByteBits, Accepts, CodeBits, SymEntry;
    var valid := ToBits(hold, bits);
    DecodedStays(kind, lens, valid, ByteBits(next));
    if before < bits {
      CompleteNow(kind, lens, (valid + ByteBits(next))[..bits - 8], valid, ByteBits(next), n);
    }
  }

  lemma CompleteNow(kind: Kind, lens: Lens, early: Bits, valid: Bits, more: Bits, n: nat)
    requires Bounded(lens) && Accepts(kind, lens)
    requires |early| <= |valid| && early == (valid + more)[..|early|] && DecodeSym(lens, early) == NeedBits
    requires match DecodeSym(lens, valid) case Sym(s) => s < |lens|
             && n == lens[s] case NoCode => n == 1 case NeedBits => false
    ensures n > |early|
  {
    hide Accepts, CodeBits;
    var late := valid[|early|..];
    assert valid == early + late;
    if DecodeSym(lens, valid).Sym? {
      var s := DecodeSym(lens, valid).sym;
      DecodedCode(lens, valid);
      if n <= |early| {
        MatchEarly(lens, s, early, late);
      }
    }
  }

  lemma TableMade(kind: Kind, lens: Lens, table: seq<Entry>, root: nat)
    requires Bounded(lens) && |lens| <= MaxSyms(kind) && Accepts(kind, lens) && TableFor(kind, lens, table, root)
    ensures TableOk(kind, lens, table, root)
  {
  }

  lemma TableLens(kind: Kind, lens: Lens, table: seq<Entry>, root: nat)
    requires TableOk(kind, lens, table, root)
    ensures Bounded(lens) && |lens| <= MaxSyms(kind) && Accepts(kind, lens)
  {
  }

  lemma PullBits(hold: nat, bits: nat, next: seq<byte>)
    requires hold < Pow2(bits) && next != []
    ensures var h := hold + next[0] * Pow2(bits);
            && h < Pow2(bits + 8) && Low(h, bits) == hold
            && ToBits(h, bits + 8) + ByteBits(next[1..]) == ToBits(hold, bits) + ByteBits(next)
  {
    hide ToBits, ByteBits, Pow2, Low;
    var b: byte := next[0];
    var p := Pow2(bits);
    assert Pow2(8) == 256 by { Pow2Small(); }
    ToBitsAppend(hold, bits, b, 8);
    ShrLowUnique(hold + p * b, bits, hold, b);
    assert b * p == p * b;
    ByteBitsCons(b, next[1..]);
    assert next == [b] + next[1..];
    hide *;
    Assoc(ToBits(hold, bits), ToBits(b, 8), ByteBits(next[1..]));
  }
}
