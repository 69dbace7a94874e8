/**
  Bit strings and their numeric readings.

  DEFLATE packs data elements starting from the least significant bit of a byte; Huffman codes are
  packed starting from their most significant bit.  A bit string is a `seq<bool>` in stream order;
  `Val` reads it least significant bit first and `Msb` most significant bit first.
 */
module Bits {
  type byte = x: int | 0 <= x < 256
  type Bits = seq<bool>

  function Pow2(n: nat): (r: nat)
    ensures r > 0
  {
    if n == 0 then 1 else 2 * Pow2(n - 1)
  }

  function Bit(b: bool): (r: nat)
    ensures r < 2
  {
    if b then 1 else 0
  }

  /** The number whose binary digits, least significant first, are `b`. */
  function Val(b: Bits): nat {
    if b == [] then 0 else Bit(b[0]) + 2 * Val(b[1..])
  }

  /** The number whose binary digits, most significant first, are `b`. */
  function Msb(b: Bits): nat {
    if b == [] then 0 else 2 * Msb(b[..|b| - 1]) + Bit(b[|b| - 1])
  }

  /** The low `n` binary digits of `v`, least significant first. */
  function ToBits(v: nat, n: nat): (r: Bits)
    ensures |r| == n
  {
    if n == 0 then [] else [v % 2 == 1] + ToBits(v / 2, n - 1)
  }

  /** The low `n` binary digits of `v`, most significant first. */
  function MsbBits(v: nat, n: nat): (r: Bits)
    ensures |r| == n
  {
    if n == 0 then [] else MsbBits(v / 2, n - 1) + [v % 2 == 1]
  }

  function Zeros(n: nat): (r: Bits)
    ensures |r| == n
  {
    seq(n, _ => false)
  }

  /** A byte sequence as a bit string, each byte least significant bit first. */
  function ByteBits(s: seq<byte>): (r: Bits)
    ensures |r| == 8 * |s|
  {
    if s == [] then [] else ToBits(s[0], 8) + ByteBits(s[1..])
  }

  /** The number of bits needed to bring a position `n` bits into a byte stream to a byte boundary. */
  function Pad(n: nat): (r: nat)
    ensures r < 8 && (n + r) % 8 == 0
  {
    (8 - n % 8) % 8
  }

  /** A bit string packed into bytes, the last byte filled up with zero bits. */
  function Pack(b: Bits): (r: seq<byte>)
    ensures 8 * |r| == |b| + Pad(|b|)
    decreases |b|
  {
    if b == [] then []
    else if |b| < 8 then
      ByteVal(b);
      [Val(b)]
    else
      ByteVal(b[..8]);
      assert Pad(|b|) == Pad(|b| - 8);
      [Val(b[..8])] + Pack(b[8..])
  }

  /** What follows the next byte boundary, in a stream that ends on one. */
  function Aligned(b: Bits): (r: Bits)
    ensures |r| == |b| - |b| % 8
  {
    b[|b| % 8..]
  }

  // ----- powers of two -----

  lemma {:induction false} Pow2Add(a: nat, b: nat)
    ensures Pow2(a + b) == Pow2(a) * Pow2(b)
  {
    if a > 0 {
      Pow2Add(a - 1, b);
    }
  }

  lemma {:induction false} Pow2Mono(a: nat, b: nat)
    requires a <= b
    ensures Pow2(a) <= Pow2(b)
    ensures b == 8 ==> Pow2(b) == 256
  {
    if a < b {
      Pow2Mono(a, b - 1);
    }
  }

  lemma ByteVal(b: Bits)
    requires |b| <= 8
    ensures Val(b) < 256
  {
    ValBound(b);
    Pow2Mono(|b|, 8);
  }

  lemma Pow2Small()
    ensures Pow2(0) == 1 && Pow2(1) == 2 && Pow2(2) == 4 && Pow2(3) == 8 && Pow2(4) == 16 && Pow2(5) == 32
    ensures Pow2(6) == 64 && Pow2(7) == 128 && Pow2(8) == 256 && Pow2(9) == 512 && Pow2(10) == 1024
    ensures Pow2(11) == 2048 && Pow2(12) == 4096 && Pow2(13) == 8192 && Pow2(14) == 16384
    ensures Pow2(15) == 32768 && Pow2(16) == 65536
  {
    assert Pow2(3) == 8;
    assert Pow2(6) == 64;
    assert Pow2(9) == 512;
    assert Pow2(12) == 4096;
    assert Pow2(14) == 16384;
  }

  // ----- Val and ToBits are inverse -----

  lemma {:induction false} ValBound(b: Bits)
    ensures Val(b) < Pow2(|b|)
  {
    if b != [] {
      ValBound(b[1..]);
    }
  }

  lemma {:induction false} ToBitsVal(b: Bits)
    ensures ToBits(Val(b), |b|) == b
  {
    if b != [] {
      ToBitsVal(b[1..]);
      assert Val(b) % 2 == Bit(b[0]) && Val(b) / 2 == Val(b[1..]);
      assert b == [b[0]] + b[1..];
    }
  }

  lemma {:induction false} ValToBits(v: nat, n: nat)
    requires v < Pow2(n)
    ensures Val(ToBits(v, n)) == v
  {
    if n > 0 {
      ValToBits(v / 2, n - 1);
      assert ToBits(v, n)[1..] == ToBits(v / 2, n - 1);
    }
  }

  lemma {:induction false} ValAppend(a: Bits, b: Bits)
    ensures Val(a + b) == Val(a) + Pow2(|a|) * Val(b)
  {
    if a == [] {
      assert a + b == b;
    } else {
      ValAppend(a[1..], b);
      assert (a + b)[1..] == a[1..] + b;
      assert 2 * (Pow2(|a| - 1) * Val(b)) == Pow2(|a|) * Val(b);
    }
  }

  lemma {:induction false} ValZeros(n: nat)
    ensures Val(Zeros(n)) == 0
  {
    if n > 0 {
      ValZeros(n - 1);
      assert Zeros(n)[1..] == Zeros(n - 1);
    }
  }

  // ----- shifting and masking -----

  /** `v >> n`. */
  function Shr(v: nat, n: nat): nat {
    if n == 0 then v else Shr(v / 2, n - 1)
  }

  /** `v & ((1 << n) - 1)`. */
  function Low(v: nat, n: nat): nat {
    if n == 0 then 0 else v % 2 + 2 * Low(v / 2, n - 1)
  }

  /** Shift and mask are quotient and remainder by a power of two. */
  lemma {:induction false} ShrLow(v: nat, n: nat)
    ensures v == Low(v, n) + Pow2(n) * Shr(v, n)
    ensures Low(v, n) < Pow2(n)
  {
    if n > 0 {
      ShrLow(v / 2, n - 1);
      Double(v, v / 2, v % 2, Pow2(n - 1), Shr(v / 2, n - 1), Low(v / 2, n - 1));
    }
  }

  lemma Double(v: nat, h: nat, b: nat, p: nat, q: nat, r: nat)
    requires v == 2 * h + b && h == r + p * q
    ensures v == b + 2 * r + 2 * p * q
  {
  }

  lemma ShrLowUnique(v: nat, n: nat, low: nat, high: nat)
    requires v == low + Pow2(n) * high && low < Pow2(n)
    ensures Low(v, n) == low && Shr(v, n) == high
  {
    ShrLow(v, n);
    DivUnique(v, Pow2(n), high, low);
    DivUnique(v, Pow2(n), Shr(v, n), Low(v, n));
  }

  /** Splitting a register into its low `n` bits and the `m` bits above them. */
  lemma {:induction false} ToBitsSplit(v: nat, n: nat, m: nat)
    ensures ToBits(v, n + m) == ToBits(v, n) + ToBits(Shr(v, n), m)
    ensures ToBits(v, n) == ToBits(Low(v, n), n)
  {
    if n > 0 {
      ToBitsSplit(v / 2, n - 1, m);
    }
  }

  /** Masking and shifting a register of `k` bits take the first `n` bits and the rest. */
  lemma {:induction false} ToBitsDrop(v: nat, k: nat, n: nat)
    requires n <= k && v < Pow2(k)
    ensures ToBits(v, k)[..n] == ToBits(Low(v, n), n)
    ensures Val(ToBits(v, k)[..n]) == Low(v, n)
    ensures ToBits(v, k)[n..] == ToBits(Shr(v, n), k - n)
    ensures Shr(v, n) < Pow2(k - n)
  {
    ToBitsSplit(v, n, k - n);
    ShrLow(v, n);
    ValToBits(Low(v, n), n);
    Pow2Add(n, k - n);
    if Shr(v, n) >= Pow2(k - n) {
      MulMono(Pow2(n), Pow2(k - n), Shr(v, n));
    }
  }

  lemma {:induction false} LowLow(v: nat, a: nat, b: nat)
    requires a <= b
    ensures Low(Low(v, b), a) == Low(v, a)
  {
    if a > 0 {
      LowLow(v / 2, a - 1, b - 1);
    }
  }

  lemma {:induction false} LowShr(v: nat, r: nat, m: nat)
    ensures Low(Shr(v, r), m) == Shr(Low(v, r + m), r)
  {
    if r > 0 {
      LowShr(v / 2, r - 1, m);
    }
  }

  lemma LowSmall(v: nat, n: nat)
    requires v < Pow2(n)
    ensures Low(v, n) == v && Shr(v, n) == 0
  {
    ShrLowUnique(v, n, v, 0);
  }

  lemma MulMono(c: nat, a: nat, b: nat)
    requires a <= b
    ensures c * a <= c * b
  {
  }

  lemma DivUnique(v: int, d: int, q: int, r: int)
    requires d > 0 && v == d * q + r && 0 <= r < d
    ensures v / d == q && v % d == r
  {
    var q' := v / d;
    if q > q' {
      MulGap(d, q, q');
    } else if q < q' {
      MulGap(d, q', q);
    }
  }

  lemma TimesSucc(a: nat, b: nat)
    ensures a * (b + 1) == a * b + a
    ensures a * 0 == 0
  {
  }

  lemma Scale(p: nat, a: nat, b: nat, e: nat)
    requires e >= p * a
    ensures e * b >= p * (a * b)
  {
    MulMono(b, p * a, e);
    assert p * a * b == p * (a * b);
  }

  lemma MulGap(d: int, a: int, b: int)
    requires d > 0 && a > b
    ensures d * a >= d * b + d
  {
    var k := a - b - 1;
    assert d * k >= 0;
    assert d * (b + 1 + k) == d * b + d + d * k;
  }

  /** Appending a value above the low `n` bits of a register. */
  lemma ToBitsAppend(v: nat, n: nat, w: nat, m: nat)
    requires v < Pow2(n)
    ensures ToBits(v + Pow2(n) * w, n + m) == ToBits(v, n) + ToBits(w, m)
    ensures w < Pow2(m) ==> v + Pow2(n) * w < Pow2(n + m)
  {
    ShrLowUnique(v + Pow2(n) * w, n, v, w);
    ToBitsSplit(v + Pow2(n) * w, n, m);
    ToBitsSplit(v, n, 0);
    ShrLowUnique(v, n, v, 0);
    Pow2Add(n, m);
    if w < Pow2(m) {
      MulGap(Pow2(n), Pow2(m), w);
    }
  }

  lemma {:induction false} ToBitsZero(n: nat)
    ensures ToBits(0, n) == Zeros(n)
  {
    if n > 0 {
      ToBitsZero(n - 1);
    }
  }

  // ----- most significant bit first -----

  lemma MsbBitsPush(c: nat, n: nat, b: bool)
    ensures MsbBits(2 * c + Bit(b), n + 1) == MsbBits(c, n) + [b]
  {
  }

  lemma MsbPush(p: Bits, x: bool)
    ensures Msb(p + [x]) == 2 * Msb(p) + Bit(x)
  {
    assert (p + [x])[..|p|] == p;
  }

  lemma {:induction false} MsbOfMsbBits(v: nat, n: nat)
    requires v < Pow2(n)
    ensures Msb(MsbBits(v, n)) == v
  {
    if n > 0 {
      assert Pow2(n) == 2 * Pow2(n - 1);
      MsbOfMsbBits(v / 2, n - 1);
      MsbPush(MsbBits(v / 2, n - 1), v % 2 == 1);
      assert MsbBits(v, n) == MsbBits(v / 2, n - 1) + [v % 2 == 1];
    }
  }

  lemma {:induction false} MsbBitsOfMsb(b: Bits)
    ensures MsbBits(Msb(b), |b|) == b
    ensures Msb(b) < Pow2(|b|)
  {
    if b != [] {
      var p, x := b[..|b| - 1], b[|b| - 1];
      MsbBitsOfMsb(p);
      assert Msb(b) == 2 * Msb(p) + Bit(x);
      MsbBitsPush(Msb(p), |p|, x);
      assert Pow2(|b|) == 2 * Pow2(|p|);
      hide *;
      assert b == p + [x];
    }
  }

  lemma {:induction false} MsbBitsPrefix(v: nat, n: nat, k: nat)
    requires k <= n
    ensures MsbBits(v, n)[..k] == MsbBits(Shr(v, n - k), k)
    decreases n
  {
    if k < n {
      MsbBitsPrefix(v / 2, n - 1, k);
    }
  }

  // ----- bytes -----

  lemma Assoc<T>(a: seq<T>, b: seq<T>, c: seq<T>)
    ensures a + b + c == a + (b + c)
  {
  }

  lemma ByteBitsCons(x: byte, t: seq<byte>)
    ensures ByteBits([x] + t) == ToBits(x, 8) + ByteBits(t)
  {
    assert ([x] + t)[1..] == t;
  }

  lemma {:induction false} ByteBitsAppend(a: seq<byte>, b: seq<byte>)
    ensures ByteBits(a + b) == ByteBits(a) + ByteBits(b)
  {
    if a == [] {
      assert a + b == b;
    } else {
      hide ByteBits, ToBits;
      ByteBitsAppend(a[1..], b);
      ByteBitsAppendStep(a[0], a[1..], b);
      assert a == [a[0]] + a[1..];
    }
  }

  lemma ByteBitsAppendStep(x: byte, t: seq<byte>, b: seq<byte>)
    requires ByteBits(t + b) == ByteBits(t) + ByteBits(b)
    ensures ByteBits([x] + t + b) == ByteBits([x] + t) + ByteBits(b)
  {
    ByteBitsCons(x, t);
    ByteBitsCons(x, t + b);
    hide *;
    Assoc([x], t, b);
    Assoc(ToBits(x, 8), ByteBits(t), ByteBits(b));
  }

  lemma ByteBitsOne(c: byte)
    ensures ByteBits([c]) == ToBits(c, 8)
  {
    assert ByteBits([c][1..]) == [];
  }

  lemma {:induction false} ByteBitsDrop(s: seq<byte>, k: nat)
    requires k <= |s|
    ensures ByteBits(s)[8 * k..] == ByteBits(s[k..])
    ensures ByteBits(s)[..8 * k] == ByteBits(s[..k])
  {
    ByteBitsAppend(s[..k], s[k..]);
    assert s == s[..k] + s[k..];
  }

  lemma {:induction false} ByteBitsInjective(a: seq<byte>, b: seq<byte>)
    requires ByteBits(a) == ByteBits(b)
    ensures a == b
    decreases |a|
  {
    assert |a| == |b|;
    if a != [] {
      assert ToBits(a[0], 8) == ByteBits(a)[..8] == ByteBits(b)[..8] == ToBits(b[0], 8);
      Pow2Small();
      ValToBits(a[0], 8);
      ValToBits(b[0], 8);
      assert ByteBits(a[1..]) == ByteBits(a)[8..] == ByteBits(b)[8..] == ByteBits(b[1..]);
      ByteBitsInjective(a[1..], b[1..]);
      assert a == [a[0]] + a[1..] && b == [b[0]] + b[1..];
    }
  }

  /** Packing keeps the bits and adds only zero padding. */
  lemma {:induction false} PackBits(b: Bits)
    ensures ByteBits(Pack(b)) == b + Zeros(Pad(|b|))
    decreases |b|
  {
    if b == [] {
    } else if |b| < 8 {
      ValBound(b);
      Pow2Mono(|b|, 8);
      ByteBitsOne(Val(b));
      ToBitsSplit(Val(b), |b|, 8 - |b|);
      ToBitsVal(b);
      ShrLowUnique(Val(b), |b|, Val(b), 0);
      ToBitsZero(8 - |b|);
    } else {
      PackBits(b[8..]);
      ValBound(b[..8]);
      Pow2Mono(8, 8);
      ToBitsVal(b[..8]);
      assert Pack(b)[1..] == Pack(b[8..]);
      assert b == b[..8] + b[8..];
      assert Pad(|b|) == Pad(|b| - 8);
    }
  }

  lemma {:induction false} PackByteBits(s: seq<byte>)
    ensures Pack(ByteBits(s)) == s
  {
    PackBits(ByteBits(s));
    assert ByteBits(Pack(ByteBits(s))) == ByteBits(s);
    ByteBitsInjective(Pack(ByteBits(s)), s);
  }

  /** Cutting what comes first from what comes first and more. */
  lemma Later(a: Bits, more: Bits, n: nat)
    requires n <= |a|
    ensures (a + more)[..n] == a[..n] && (a + more)[n..] == a[n..] + more
  {
  }

  lemma PadSame(a: nat, b: nat)
    requires a % 8 == b % 8
    ensures Pad(a) == Pad(b)
  {
  }

  /** Whole bytes in front do not change the padding. */
  lemma SamePad(k: nat, n: nat)
    ensures Pad(8 * k + n) == Pad(n)
  {
    hide Pad;
    ModBytes(k, n);
    PadSame(8 * k + n, n);
  }

  lemma ModBytes(k: nat, n: nat)
    ensures (8 * k + n) % 8 == n % 8
  {
  }
}
