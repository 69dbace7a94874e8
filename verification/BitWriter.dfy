/**
  The 16-bit bit buffer in front of a byte buffer: send_bits, bi_flush, bi_windup and put_byte of the
  encoder (trees.c, deflate.h) and their textual copies in the decoder (my_send_bits, my_bi_windup).
 */
module BitWriting {
  import opened Bits

  /** Bitwise or. */
  function Or(a: nat, b: nat): nat {
    if a == 0 then b
    else if b == 0 then a
    else (if a % 2 == 1 || b % 2 == 1 then 1 else 0) + 2 * Or(a / 2, b / 2)
  }

  /** A 16-bit value, as the cast to ush makes it. */
  function Ush(v: nat): (r: nat)
    ensures r < 65536
  {
    v % 65536
  }

  /** Or of disjoint bits is addition. */
  lemma {:induction false} OrDisjoint(a: nat, n: nat, w: nat)
    requires a < Pow2(n)
    ensures Or(a, Pow2(n) * w) == a + Pow2(n) * w
  {
    if n > 0 && a > 0 && w > 0 {
      assert Pow2(n) * w == 2 * (Pow2(n - 1) * w);
      OrDisjoint(a / 2, n - 1, w);
      if a / 2 == 0 {
        assert Or(0, Pow2(n - 1) * w) == Pow2(n - 1) * w;
      }
    }
  }

  /** How far a buffer is filled; `paced` when send_bits alone has filled it. */
  datatype Fill = Filled(bytes: seq<byte>, have: nat, paced: bool)

  /** Bytes were added; what lies beyond them is as it was. */
  predicate Grown(a: Fill, b: Fill) {
    && a.have <= b.have <= |b.bytes| == |a.bytes| && b.bytes[b.have..] == a.bytes[b.have..]
    && (a.paced ==> b.paced)
  }

  lemma GrownOn(a: Fill, b: Fill, c: Fill)
    requires Grown(a, b) && Grown(b, c)
    ensures Grown(a, c)
  {
    assert b.bytes[c.have..] == b.bytes[b.have..][c.have - b.have..];
    assert a.bytes[c.have..] == a.bytes[b.have..][c.have - b.have..];
  }

  class BitWriter {
    const buf: array<byte>
    var have: nat     // bytes not yet taken out
    var first: nat    // where they start
    var biBuf: nat    // bits not yet in a byte, in the low biValid bits
    var biValid: nat

    predicate InBuffer()
      reads this
    {
      first + have <= buf.Length
    }

    ghost function Valid(): (v: bool)
      reads this
      ensures v ==> InBuffer() && biValid <= 16
    {
      InBuffer() && biValid <= 16 && biBuf < Pow2(biValid)
    }

    ghost function Queue(): (q: seq<byte>)
      requires InBuffer()
      reads this, buf
      ensures |q| == have
    {
      buf[first..first + have]
    }

    /** Whole shorts have been put, each only when the next bits came. */
    predicate Paced()
      reads `have, `biValid
    {
      have % 2 == 0 && (biValid == 0 ==> have == 0)
    }

    ghost function Fill(): (f: Fill)
      reads this, buf
    {
      Filled(buf[..], have, Paced())
    }

    lemma FillSame()
      requires Valid()
      ensures Grown(Fill(), Fill())
    {
    }

    /** Everything put and not yet taken out. */
    ghost function Written(): (r: Bits)
      requires InBuffer()
      reads this, buf
      ensures |r| == 8 * have + biValid
    {
      ByteBits(Queue()) + ToBits(biBuf, biValid)
    }

    constructor (size: nat)
      ensures Valid() && fresh(buf) && buf.Length == size
      ensures have == 0 && first == 0 && biValid == 0 && biBuf == 0
    {
      buf := new byte[size];
      have, first, biBuf, biValid := 0, 0, 0, 0;
      new;
      assert Pow2(0) == 1;
    }

    /** Starts over with nothing written. */
    method Reset()
      modifies this`have, this`first, this`biBuf, this`biValid
      ensures Valid() && have == 0 && first == 0 && biValid == 0 && Written() == []
    {
      have, first, biBuf, biValid := 0, 0, 0, 0;
      assert Pow2(0) == 1;
    }

    method PutByte(b: byte)
      requires first == 0 && have < buf.Length
      modifies this`have, buf
      ensures InBuffer() && have == old(have) + 1
      ensures old(Valid()) ==> Valid()
      ensures Queue() == old(Queue()) + [b]
      ensures buf[have..] == old(buf[..])[have..]
    {
      buf[have] := b;
      have := have + 1;
    }

    method PutShort(w: nat)
      requires first == 0 && have + 2 <= buf.Length && w < 65536
      modifies this`have, buf
      ensures InBuffer() && have == old(have) + 2
      ensures old(Valid()) ==> Valid()
      ensures Queue() == old(Queue()) + [w % 256, w / 256]
      ensures buf[have..] == old(buf[..])[have..]
    {
      PutByte(w % 256);
      PutByte(w / 256);
    }

    /** Appends the low `length` bits of `value`. */
    method SendBits(value: nat, length: nat)
      requires Valid() && first == 0 && length <= 16 && value < Pow2(length)
      requires 8 * have + biValid + length <= 8 * buf.Length + 7
      modifies this`have, this`biBuf, this`biValid, buf
      ensures Valid()
      ensures Written() == old(Written()) + ToBits(value, length)
      ensures Grown(old(Fill()), Fill())
    {
      hide ByteBits, ToBits, Or, Ush, Shr, Pow2;
      ghost var q, b, n := Queue(), biBuf, biValid;
      if biValid > 16 - length {
        SentShort(q, b, n, value, length);
        biBuf := Or(biBuf, Ush(value * Pow2(biValid)));
        PutShort(biBuf);
        biBuf := Shr(value, 16 - biValid);
        biValid := biValid + length - 16;
      } else {
        biBuf := Or(biBuf, Ush(value * Pow2(biValid)));
        biValid := biValid + length;
        KeptValue(b, n, value, length);
        Assoc(ByteBits(q), ToBits(b, n), ToBits(value, length));
      }
    }

    /** bi_flush: moves the whole bytes out of the bit buffer. */
    method Flush()
      requires Valid() && (biValid >= 8 ==> first == 0)
      requires 8 * have + biValid <= 8 * buf.Length + 7
      modifies this`have, this`biBuf, this`biValid, buf
      ensures Valid() && biValid == old(biValid) % 8
      ensures Written() == old(Written())
      ensures old(biValid) < 8 ==> have == old(have) && Queue() == old(Queue())
    {
      hide ByteBits, ToBits, Shr, Pow2;
      ghost var q, b := Queue(), biBuf;
      if biValid == 16 {
        Pow2Small();
        PutShort(biBuf);
        ShortBits(q, b);
        biBuf, biValid := 0, 0;
        assert ToBits(biBuf, biValid) == [];
      } else if biValid >= 8 {
        Pow2Small();
        PutByte(biBuf % 256);
        ByteOut(q, b, biValid);
        biBuf := Shr(biBuf, 8);
        biValid := biValid - 8;
      }
    }

    /** bi_windup: fills up with zero bits to a byte boundary. */
    method Windup()
      requires Valid() && first == 0 && 8 * have + biValid <= 8 * buf.Length
      modifies this`have, this`biBuf, this`biValid, buf
      ensures Valid() && biValid == 0 && biBuf == 0
      ensures Written() == old(Written() + Zeros(Pad(biValid)))
      ensures Queue() == Pack(old(Written()))
      ensures buf[have..] == old(buf[..])[have..]
    {
      hide ByteBits, ToBits, Pow2, Pack, Pad;
      ghost var q, b, n := Queue(), biBuf, biValid;
      Pow2Small();
      Pow2Mono(biValid, 16);
      if biValid > 8 {
        PutShort(biBuf);
        WoundShort(q, b, n);
      } else if biValid > 0 {
        Pow2Mono(biValid, 8);
        PutByte(biBuf % 256);
        WoundByte(q, b, n);
      } else {
        WoundNone(q, b);
      }
      biBuf, biValid := 0, 0;
      assert ToBits(biBuf, biValid) == [];
      WoundPack(q, b, n, Queue());
    }

    /** Bytes of the queue, left in place. */
    method Part(lo: nat, hi: nat) returns (bytes: seq<byte>)
      requires InBuffer() && lo <= hi <= have
      ensures bytes == Queue()[lo..hi]
    {
      bytes := buf[first + lo..first + hi];
      SliceSlice(buf[..], first, have, lo, hi);
    }

    /** flush_pending without its bi_flush: hands out at most `space` bytes. */
    method Take(space: nat) returns (bytes: seq<byte>)
      requires Valid()
      modifies this`have, this`first
      ensures Valid() && |bytes| == (if old(have) > space then space else old(have))
      ensures old(Queue()) == bytes + Queue()
      ensures have == 0 ==> first == 0 || |bytes| == 0
      ensures |bytes| == 0 ==> first == old(first)
    {
      var len := have;
      if len > space {
        len := space;
      }
      if len == 0 {
        return [];
      }
      bytes := buf[first..first + len];
      first := first + len;
      have := have - len;
      if have == 0 {
        first := 0;
      }
    }
  }

  // ----- what each step does to the bits -----

  lemma SliceSlice(s: seq<byte>, first: nat, have: nat, lo: nat, hi: nat)
    requires lo <= hi <= have && first + have <= |s|
    ensures s[first..first + have][lo..hi] == s[first + lo..first + hi]
  {
    var q := s[first..first + have];
    forall i | 0 <= i < hi - lo
      ensures q[lo..hi][i] == s[first + lo..first + hi][i]
    {
      assert q[lo + i] == s[first + (lo + i)];
    }
    assert q[lo..hi] == s[first + lo..first + hi];
  }

  /** Bytes that spell a bit string and its padding are that bit string packed. */
  lemma PackIs(q: seq<byte>, w: Bits)
    requires ByteBits(q) == w + Zeros(Pad(|w|))
    ensures q == Pack(w)
  {
    PackBits(w);
    ByteBitsInjective(q, Pack(w));
  }

  lemma UshShift(n: nat, value: nat, length: nat)
    requires n + length <= 16 && value < Pow2(length)
    ensures Ush(value * Pow2(n)) == Pow2(n) * value
  {
    hide Pow2, Ush;
    Pow2Add(n, length);
    Pow2Mono(n + length, 16);
    Pow2Small();
    UshSmall(Pow2(n), Pow2(length), value);
  }

  lemma UshSmall(p: nat, q: nat, v: nat)
    requires p * q <= 65536 && v < q && p > 0
    ensures Ush(v * p) == p * v
  {
    MulGap(p, q, v);
  }

  lemma KeptValue(b: nat, n: nat, value: nat, length: nat)
    requires b < Pow2(n) && n + length <= 16 && value < Pow2(length)
    ensures var r := Or(b, Ush(value * Pow2(n)));
            r < Pow2(n + length) && ToBits(r, n + length) == ToBits(b, n) + ToBits(value, length)
  {
    hide ToBits, Pow2, Or, Ush;
    UshShift(n, value, length);
    OrDisjoint(b, n, value);
    ToBitsAppend(b, n, value, length);
  }

  /** The part of the value that fits is its low bits; the 16-bit cast cuts off the rest. */
  lemma SplitValue(b: nat, n: nat, value: nat, length: nat)
    requires b < Pow2(n) && n <= 16 < n + length && length <= 16 && value < Pow2(length)
    ensures var low, high := Low(value, 16 - n), Shr(value, 16 - n);
            && Or(b, Ush(value * Pow2(n))) == b + Pow2(n) * low
            && b + Pow2(n) * low < 65536
            && ToBits(b + Pow2(n) * low, 16) == ToBits(b, n) + ToBits(low, 16 - n)
            && high < Pow2(n + length - 16)
            && ToBits(value, length) == ToBits(low, 16 - n) + ToBits(high, n + length - 16)
  {
    hide ToBits, Pow2, Or, Ush, Low, Shr;
    var k := 16 - n;
    var low, high := Low(value, k), Shr(value, k);
    ShrLow(value, k);
    Pow2Add(n, k);
    Pow2Small();
    UshCut(Pow2(n), Pow2(k), low, high);
    OrDisjoint(b, n, low);
    ToBitsAppend(b, n, low, k);
    ToBitsDrop(value, length, k);
    ToBitsSplit(value, k, length - k);
  }

  lemma UshCut(p: nat, q: nat, low: nat, high: nat)
    requires p * q == 65536 && low < q && p > 0
    ensures Ush((low + q * high) * p) == p * low
  {
    assert (low + q * high) * p == p * low + (p * q) * high;
    MulGap(p, q, low);
    DivUnique((low + q * high) * p, 65536, high, p * low);
  }

  lemma ShortBits(q: seq<byte>, w: nat)
    requires w < 65536
    ensures ByteBits(q + [w % 256, w / 256]) == ByteBits(q) + ToBits(w, 16)
  {
    var lo, hi: byte := w % 256, w / 256;
    ByteBitsAppend(q, [lo, hi]);
    ByteBitsAppend([lo], [hi]);
    assert [lo, hi] == [lo] + [hi];
    ByteBitsOne(lo);
    ByteBitsOne(hi);
    Pow2Small();
    ShrLowUnique(w, 8, w % 256, w / 256);
    ToBitsSplit(w, 8, 8);
  }

  lemma SentShort(q: seq<byte>, b: nat, n: nat, value: nat, length: nat)
    requires b < Pow2(n) && n <= 16 < n + length && length <= 16 && value < Pow2(length)
    ensures var w := Or(b, Ush(value * Pow2(n)));
            && w < 65536
            && Shr(value, 16 - n) < Pow2(n + length - 16)
            && ByteBits(q + [w % 256, w / 256]) + ToBits(Shr(value, 16 - n), n + length - 16) ==
               ByteBits(q) + ToBits(b, n) + ToBits(value, length)
  {
    hide ByteBits, ToBits, Shr, Low, Pow2, Or, Ush;
    SplitValue(b, n, value, length);
    var w, low, high := Or(b, Ush(value * Pow2(n))), Low(value, 16 - n), Shr(value, 16 - n);
    ShortBits(q, w);
    var x, y, z := ToBits(b, n), ToBits(low, 16 - n), ToBits(high, n + length - 16);
    hide *;
    Assoc4(ByteBits(q), x, y, z);
  }

  lemma Assoc4(a: Bits, b: Bits, c: Bits, d: Bits)
    ensures a + (b + c) + d == a + b + (c + d)
  {
  }

  lemma ByteOut(q: seq<byte>, b: nat, n: nat)
    requires 8 <= n < 16 && b < Pow2(n)
    ensures Shr(b, 8) < Pow2(n - 8)
    ensures ByteBits(q + [b % 256]) + ToBits(Shr(b, 8), n - 8) == ByteBits(q) + ToBits(b, n)
  {
    Pow2Small();
    ShrLow(b, 8);
    DivUnique(b, 256, Shr(b, 8), Low(b, 8));
    ByteBitsAppend(q, [b % 256]);
    ByteBitsOne(b % 256);
    ToBitsDrop(b, n, 8);
    ToBitsSplit(b, 8, n - 8);
    Assoc(ByteBits(q), ToBits(b % 256, 8), ToBits(Shr(b, 8), n - 8));
  }

  /** A register of `n` bits seen as one of `m` bits has zeros above. */
  lemma Widen(b: nat, n: nat, m: nat)
    requires b < Pow2(n) && n <= m
    ensures ToBits(b, m) == ToBits(b, n) + Zeros(m - n)
  {
    ToBitsSplit(b, n, m - n);
    LowSmall(b, n);
    ToBitsZero(m - n);
  }

  lemma WoundShort(q: seq<byte>, b: nat, n: nat)
    requires 8 < n <= 16 && b < Pow2(n) && b < 65536
    ensures ByteBits(q + [b % 256, b / 256]) == ByteBits(q) + ToBits(b, n) + Zeros(Pad(n))
  {
    hide ByteBits, ToBits, Pow2;
    ShortBits(q, b);
    Widen(b, n, 16);
    Assoc(ByteBits(q), ToBits(b, n), Zeros(Pad(n)));
  }

  lemma WoundNone(q: seq<byte>, b: nat)
    ensures ByteBits(q) == ByteBits(q) + ToBits(b, 0) + Zeros(Pad(0))
  {
    assert ToBits(b, 0) == [] && Zeros(Pad(0)) == [];
  }

  lemma WoundPack(q: seq<byte>, b: nat, n: nat, whole: seq<byte>)
    requires ByteBits(whole) == ByteBits(q) + ToBits(b, n) + Zeros(Pad(n))
    ensures ByteBits(whole) + [] == ByteBits(q) + ToBits(b, n) + Zeros(Pad(n))
    ensures whole == Pack(ByteBits(q) + ToBits(b, n))
  {
    hide ByteBits, ToBits, Pack;
    hide Pad;
    SamePad(|q|, n);
    var w := ByteBits(q) + ToBits(b, n);
    assert |w| == 8 * |q| + n;
    PackIs(whole, w);
  }

  lemma WoundByte(q: seq<byte>, b: nat, n: nat)
    requires 0 < n <= 8 && b < Pow2(n) && b < 256
    ensures ByteBits(q + [b % 256]) == ByteBits(q) + ToBits(b, n) + Zeros(Pad(n))
  {
    hide ByteBits, ToBits, Pow2;
    ByteBitsAppend(q, [b]);
    ByteBitsOne(b);
    Widen(b, n, 8);
    Assoc(ByteBits(q), ToBits(b, n), Zeros(Pad(n)));
  }
}
