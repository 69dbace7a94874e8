/**
  Canonical Huffman codes, as section 3.2.2 of RFC 1951 defines them from code lengths alone.

  This is the reference both table builders (inflate_table and inflate_table_my) are proved against.
 */
module Huffman {
  import opened Bits

  const MAXBITS: nat := 15

  /** Code lengths, indexed by symbol; 0 marks an unused symbol. */
  type Lens = seq<nat>

  predicate Bounded(lens: Lens) {
    forall i :: 0 <= i < |lens| ==> lens[i] <= MAXBITS
  }

  /** How many of the first `n` symbols have code length `len`. */
  function CountTo(lens: Lens, n: nat, len: nat): (r: nat)
    requires n <= |lens|
    ensures r <= n
  {
    if n == 0 then 0 else CountTo(lens, n - 1, len) + if lens[n - 1] == len then 1 else 0
  }

  /** How many symbols have code length `len`. */
  function Count(lens: Lens, len: nat): (r: nat)
    ensures r <= |lens|
  {
    CountTo(lens, |lens|, len)
  }

  /** next_code[len] of RFC 1951: the smallest code of length `len`. */
  function FirstCode(lens: Lens, len: nat): nat
    decreases len, 0
  {
    if len == 0 then 0 else 2 * EndCode(lens, len - 1)
  }

  /** One past the largest code of length `len`. */
  function EndCode(lens: Lens, len: nat): nat
    decreases len, 1
  {
    FirstCode(lens, len) + if len == 0 then 0 else Count(lens, len)
  }

  /** No length is over-subscribed. */
  ghost predicate Fits(lens: Lens) {
    forall len :: 0 <= len <= MAXBITS ==> EndCode(lens, len) <= Pow2(len)
  }

  /** Every bit string of MAXBITS bits starts with some code. */
  predicate Complete(lens: Lens) {
    EndCode(lens, MAXBITS) == Pow2(MAXBITS)
  }

  predicate Used(lens: Lens, s: nat) {
    s < |lens| && 0 < lens[s] <= MAXBITS
  }

  /** The code of a symbol: codes of one length are consecutive, in symbol order. */
  function Code(lens: Lens, s: nat): nat
    requires Used(lens, s)
  {
    FirstCode(lens, lens[s]) + CountTo(lens, s, lens[s])
  }

  /** The code of a symbol as it appears in the stream: most significant bit first. */
  function CodeBits(lens: Lens, s: nat): (r: Bits)
    requires Used(lens, s)
    ensures |r| == lens[s]
  {
    MsbBits(Code(lens, s), lens[s])
  }

  // ----- decoding -----

  ghost predicate Matches(lens: Lens, s: nat, bits: Bits) {
    Used(lens, s) && CodeBits(lens, s) <= bits
  }

  datatype SymResult =
    | Sym(sym: nat)  // the bits start with the code of this symbol
    | NoCode         // no code starts these bits, whatever follows
    | NeedBits       // too few bits to tell

  /** What decoding one symbol from the front of `bits` means. */
  ghost function DecodeSym(lens: Lens, bits: Bits): SymResult {
    if exists s: nat :: Matches(lens, s, bits) then
      var s: nat :| Matches(lens, s, bits);
      Sym(s)
    else if |bits| > 0 && !Complete(lens) then NoCode
    else NeedBits
  }

  // ----- facts about counts and codes -----

  lemma {:induction false} CountMono(lens: Lens, a: nat, b: nat, len: nat)
    requires a <= b <= |lens|
    ensures CountTo(lens, a, len) <= CountTo(lens, b, len)
  {
    if a < b {
      CountMono(lens, a, b - 1, len);
    }
  }

  lemma CountPrefix(lens: Lens, s: nat, len: nat)
    requires s < |lens| && lens[s] == len
    ensures CountTo(lens, s, len) < Count(lens, len)
  {
    CountMono(lens, s + 1, |lens|, len);
  }

  /** The `r`-th symbol of a given length. */
  lemma {:induction false} NthSym(lens: Lens, n: nat, len: nat, r: nat) returns (s: nat)
    requires n <= |lens| && r < CountTo(lens, n, len)
    ensures s < n && lens[s] == len && CountTo(lens, s, len) == r
  {
    if lens[n - 1] == len && CountTo(lens, n - 1, len) == r {
      s := n - 1;
    } else {
      s := NthSym(lens, n - 1, len, r);
    }
  }

  lemma CodeBound(lens: Lens, s: nat)
    requires Fits(lens) && Used(lens, s)
    ensures FirstCode(lens, lens[s]) <= Code(lens, s) < EndCode(lens, lens[s]) <= Pow2(lens[s])
  {
    CountPrefix(lens, s, lens[s]);
  }

  /** A longer length starts past everything a shorter one covers. */
  lemma {:induction false} FirstAfterEnd(lens: Lens, a: nat, b: nat)
    requires a < b
    ensures FirstCode(lens, b) >= EndCode(lens, a) * Pow2(b - a)
    decreases b
  {
    if a == b - 1 {
      assert Pow2(1) == 2;
    } else {
      FirstAfterEnd(lens, a, b - 1);
      assert 2 * (EndCode(lens, a) * Pow2(b - 1 - a)) == EndCode(lens, a) * Pow2(b - a);
    }
  }

  lemma ShrAtLeast(v: nat, n: nat, q: nat)
    requires v >= q * Pow2(n)
    ensures Shr(v, n) >= q
  {
    ShrLow(v, n);
    if Shr(v, n) < q {
      MulGap(Pow2(n), q, Shr(v, n));
    }
  }

  lemma CodeOrder(lens: Lens, s: nat, t: nat)
    requires Used(lens, s) && Used(lens, t) && lens[s] == lens[t] && s < t
    ensures Code(lens, s) < Code(lens, t)
  {
    CountMono(lens, s + 1, t, lens[s]);
  }

  /** A shorter code is not the beginning of a longer one. */
  lemma NotPrefix(lens: Lens, s: nat, t: nat)
    requires Fits(lens) && Used(lens, s) && Used(lens, t) && lens[s] < lens[t]
    ensures CodeBits(lens, t)[..lens[s]] != CodeBits(lens, s)
  {
    hide Pow2, Shr, MsbBits, Msb, FirstCode, EndCode, Code;
    var d := lens[t] - lens[s];
    CodeBound(lens, s);
    CodeBound(lens, t);
    FirstAfterEnd(lens, lens[s], lens[t]);
    ShrAtLeast(Code(lens, t), d, EndCode(lens, lens[s]));
    MsbBitsPrefix(Code(lens, t), lens[t], lens[s]);
    ShrBound(Code(lens, t), d, lens[s]);
    MsbOfMsbBits(Code(lens, s), lens[s]);
    MsbOfMsbBits(Shr(Code(lens, t), d), lens[s]);
  }

  /** No code is the beginning of another: decoding is unambiguous. */
  lemma PrefixFree(lens: Lens, s: nat, t: nat, bits: Bits)
    requires Fits(lens) && Matches(lens, s, bits) && Matches(lens, t, bits)
    ensures s == t
  {
    var a, b := CodeBits(lens, s), CodeBits(lens, t);
    assert a == bits[..|a|] && b == bits[..|b|];
    if |a| < |b| {
      NotPrefix(lens, s, t);
    } else if |b| < |a| {
      NotPrefix(lens, t, s);
    } else {
      CodeBound(lens, s);
      CodeBound(lens, t);
      MsbOfMsbBits(Code(lens, s), lens[s]);
      MsbOfMsbBits(Code(lens, t), lens[t]);
      if s < t {
        CodeOrder(lens, s, t);
      } else if t < s {
        CodeOrder(lens, t, s);
      }
    }
  }

  lemma ShrBound(v: nat, n: nat, k: nat)
    requires v < Pow2(n + k)
    ensures Shr(v, n) < Pow2(k)
  {
    ShrLow(v, n);
    Pow2Add(n, k);
    if Shr(v, n) >= Pow2(k) {
      MulMono(Pow2(n), Pow2(k), Shr(v, n));
    }
  }

  /** In a complete code every sufficiently long bit string starts with a code. */
  lemma MatchExists(lens: Lens, bits: Bits)
    requires Fits(lens) && Complete(lens) && |bits| >= MAXBITS
    ensures exists s: nat :: Matches(lens, s, bits)
  {
    MsbBitsOfMsb(bits[..MAXBITS]);
    var s := FindMatch(lens, bits, 0);
  }

  lemma MatchAt(lens: Lens, w: Bits) returns (s: nat)
    requires 0 < |w| <= MAXBITS && FirstCode(lens, |w|) <= Msb(w) < EndCode(lens, |w|)
    ensures Used(lens, s) && CodeBits(lens, s) == w
  {
    s := NthSym(lens, |lens|, |w|, Msb(w) - FirstCode(lens, |w|));
    MsbBitsOfMsb(w);
  }

  lemma {:induction false} FindMatch(lens: Lens, bits: Bits, len: nat) returns (s: nat)
    requires Fits(lens) && len < MAXBITS <= |bits|
    requires Msb(bits[..len]) >= EndCode(lens, len)
    requires Msb(bits[..MAXBITS]) < EndCode(lens, MAXBITS)
    ensures Matches(lens, s, bits)
    decreases MAXBITS - len
  {
    hide *;
    var n := len + 1;
    NextLevel(lens, bits, len);
    if Msb(bits[..n]) < EndCode(lens, n) {
      s := MatchAt(lens, bits[..n]);
      assert CodeBits(lens, s) == bits[..n];
      FrontMatches(lens, s, bits, n);
    } else {
      s := FindMatch(lens, bits, n);
    }
  }

  lemma NextLevel(lens: Lens, bits: Bits, len: nat)
    requires len < |bits| && Msb(bits[..len]) >= EndCode(lens, len)
    ensures Msb(bits[..len + 1]) >= FirstCode(lens, len + 1)
  {
    assert bits[..len + 1] == bits[..len] + [bits[len]];
    MsbPush(bits[..len], bits[len]);
    hide Msb, Count;
  }

  lemma FrontMatches(lens: Lens, s: nat, bits: Bits, n: nat)
    requires n <= |bits| && Used(lens, s) && CodeBits(lens, s) == bits[..n]
    ensures Matches(lens, s, bits)
  {
    hide CodeBits;
  }

  /** Decoding finds the symbol whose code was written, whatever follows it. */
  lemma DecodeCode(lens: Lens, s: nat, bits: Bits)
    requires Fits(lens) && Matches(lens, s, bits)
    ensures DecodeSym(lens, bits) == Sym(s)
  {
    var t: nat :| Matches(lens, t, bits) && DecodeSym(lens, bits) == Sym(t);
    PrefixFree(lens, s, t, bits);
  }

  /** A symbol decoded from some bits has its code at their front. */
  lemma DecodedCode(lens: Lens, bits: Bits)
    requires DecodeSym(lens, bits).Sym?
    ensures Matches(lens, DecodeSym(lens, bits).sym, bits)
  {
  }

  /** More input does not change a symbol that was already decoded. */
  lemma DecodeStable(lens: Lens, bits: Bits, more: Bits)
    requires Fits(lens) && DecodeSym(lens, bits).Sym?
    ensures DecodeSym(lens, bits + more) == DecodeSym(lens, bits)
  {
    DecodeCode(lens, DecodeSym(lens, bits).sym, bits + more);
  }
}
