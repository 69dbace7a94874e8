/**
  What a decoding table has to say, and which code lengths the table builder accepts.
 */
module TableSpec {
  import opened Bits
  import opened Huffman

  /** The three codes of a DEFLATE block: code lengths, literal/length, distance. */
  datatype Kind = Codes | LenCodes | DistCodes

  /** Table entry: a symbol (op 0, 16+extra, 96 or 64) or a link to a sub-table (op 1..15). */
  datatype Entry = Entry(op: nat, bits: nat, val: nat)

  // The base and extra-bits tables.  `Tables` below shows them as the sources spell them out.

  /** Number of extra bits of the `c`-th length code, and of the `d`-th distance code. */
  function LenShift(c: nat): nat {
    if c < 8 || c >= 28 then 0 else c / 4 - 1
  }

  function DistShift(d: nat): nat {
    if d < 4 || d >= 30 then 0 else d / 2 - 1
  }

  /** lbase */
  function LBase(c: nat): nat {
    if c >= 29 then 0 else if c == 28 then 258 else if c < 8 then c + 3 else (4 + c % 4) * Pow2(LenShift(c)) + 3
  }

  /** lext: 16 plus the number of extra bits; not a length for 286 and 287 */
  function LExt(c: nat): nat {
    if c == 29 then 194 else if c == 30 then 65 else 16 + LenShift(c)
  }

  /** dbase */
  function DBase(d: nat): nat {
    if d >= 30 then 0 else if d < 4 then d + 1 else (2 + d % 2) * Pow2(DistShift(d)) + 1
  }

  /** dext */
  function DExt(d: nat): nat {
    if d >= 30 then 64 else 16 + DistShift(d)
  }

  lemma LBaseTable()
    ensures seq(31, c requires 0 <= c => LBase(c)) ==
            [3, 4, 5, 6, 7, 8, 9, 10, 11, 13, 15, 17, 19, 23, 27, 31,
             35, 43, 51, 59, 67, 83, 99, 115, 131, 163, 195, 227, 258, 0, 0]
  {
    Pow2Small();
    hide Pow2;
  }

  lemma LExtTable()
    ensures seq(31, c requires 0 <= c => LExt(c)) ==
            [16, 16, 16, 16, 16, 16, 16, 16, 17, 17, 17, 17, 18, 18, 18, 18,
             19, 19, 19, 19, 20, 20, 20, 20, 21, 21, 21, 21, 16, 194, 65]
  {
  }

  lemma DBaseTable()
    ensures seq(32, d requires 0 <= d => DBase(d)) ==
            [1, 2, 3, 4, 5, 7, 9, 13, 17, 25, 33, 49, 65, 97, 129, 193,
             257, 385, 513, 769, 1025, 1537, 2049, 3073, 4097, 6145,
             8193, 12289, 16385, 24577, 0, 0]
  {
    Pow2Small();
    hide Pow2;
  }

  lemma DExtTable()
    ensures seq(32, d requires 0 <= d => DExt(d)) ==
            [16, 16, 16, 16, 17, 17, 18, 18, 19, 19, 20, 20, 21, 21, 22, 22,
             23, 23, 24, 24, 25, 25, 26, 26, 27, 27, 28, 28, 29, 29, 64, 64]
  {
  }

  /** How many symbols each kind of code may have. */
  function MaxSyms(kind: Kind): nat {
    match kind
    case Codes => 19
    case LenCodes => 288
    case DistCodes => 32
  }

  /** The entry for symbol `s` when `n` of its bits are still to be dropped. */
  function SymEntry(kind: Kind, s: nat, n: nat): Entry
    requires s < MaxSyms(kind)
  {
    match kind
    case Codes => Entry(0, n, s)
    case LenCodes =>
      if s < 256 then Entry(0, n, s)
      else if s == 256 then Entry(96, n, 0)
      else Entry(LExt(s - 257), n, LBase(s - 257))
    case DistCodes => Entry(DExt(s), n, DBase(s))
  }

  /** Symbol entries carry their bit count and are never links. */
  lemma SymEntryShape(kind: Kind, s: nat, n: nat)
    requires s < MaxSyms(kind)
    ensures SymEntry(kind, s, n) == SymEntry(kind, s, 0).(bits := n)
    ensures !IsLink(SymEntry(kind, s, n))
  {
  }

  const INVALID := Entry(64, 1, 0)

  predicate IsLink(e: Entry) {
    0 < e.op < 16
  }

  /** Looking up the register `h` leads, in one or two steps, to `e`, whose code has `n` bits in all. */
  ghost predicate Leads(table: seq<Entry>, root: nat, h: nat, e: Entry, n: nat) {
    && Low(h, root) < |table|
    && var first := table[Low(h, root)];
       if n <= root then first == e.(bits := n) && !IsLink(first)
       else
         && IsLink(first) && first.bits == root && n - root <= first.op <= MAXBITS - root
         && first.val + Low(Shr(h, root), first.op) < |table|
         && table[first.val + Low(Shr(h, root), first.op)] == e.(bits := n - root)
  }

  /** A register of MAXBITS bits leads to the entry of the symbol its bits decode to. */
  ghost predicate LookupOk(kind: Kind, lens: Lens, table: seq<Entry>, root: nat, h: nat) {
    match DecodeSym(lens, ToBits(h, MAXBITS))
    case Sym(s) => s < |lens| && s < MaxSyms(kind) && Leads(table, root, h, SymEntry(kind, s, 0), lens[s])
    case NoCode => Leads(table, root, h, INVALID, 1)
    case NeedBits => false
  }

  ghost predicate TableFor(kind: Kind, lens: Lens, table: seq<Entry>, root: nat) {
    && 0 < root <= MAXBITS
    && forall h: nat :: h < Pow2(MAXBITS) ==> LookupOk(kind, lens, table, root, h)
  }

  /** The encoder's code for a symbol: the code bits read least significant bit first. */
  function Huff(lens: Lens, s: nat): nat
    requires Used(lens, s)
  {
    Val(CodeBits(lens, s))
  }

  datatype TreeCode = TreeCode(code: nat, len: nat)

  ghost predicate TreeFor(lens: Lens, tree: seq<TreeCode>) {
    && |lens| <= |tree|
    && forall s :: 0 <= s < |tree| ==>
         tree[s] == if Used(lens, s) then TreeCode(Huff(lens, s), lens[s]) else TreeCode(0, 0)
  }

  // ----- which lengths are accepted -----

  /** The longest length in use, at most `len`. */
  function MaxLen(lens: Lens, len: nat): (r: nat)
    ensures r <= len
    ensures r > 0 ==> Count(lens, r) > 0
    ensures forall l :: r < l <= len ==> Count(lens, l) == 0
  {
    if len == 0 || Count(lens, len) != 0 then len else MaxLen(lens, len - 1)
  }

  /** The shortest length in use, at least `len` and at most `max`. */
  function MinLen(lens: Lens, len: nat, max: nat): (r: nat)
    requires len <= max
    ensures len <= r <= max
    ensures r < max ==> Count(lens, r) > 0
    ensures forall l :: len <= l < r ==> Count(lens, l) == 0
    decreases max - len
  {
    if len == max || Count(lens, len) != 0 then len else MinLen(lens, len + 1, max)
  }

  function RequestBits(kind: Kind): nat {
    match kind
    case Codes => 7
    case LenCodes => 9
    case DistCodes => 6
  }

  /** Index bits of the root table: the requested number, forced into the range of lengths in use. */
  function RootBits(kind: Kind, lens: Lens): nat
    requires MaxLen(lens, MAXBITS) > 0
  {
    var max := MaxLen(lens, MAXBITS);
    var min := MinLen(lens, 1, max);
    var root := if RequestBits(kind) > max then max else RequestBits(kind);
    if root < min then min else root
  }

  /** Symbols of length `len` among the first `n`, in increasing order. */
  function SymsTo(lens: Lens, n: nat, len: nat): (r: seq<nat>)
    requires n <= |lens|
    ensures |r| == CountTo(lens, n, len)
    ensures forall k :: 0 <= k < |r| ==> r[k] < n && lens[r[k]] == len
  {
    if n == 0 then [] else SymsTo(lens, n - 1, len) + if lens[n - 1] == len then [n - 1] else []
  }

  function SymsOfLen(lens: Lens, len: nat): (r: seq<nat>)
    ensures |r| == Count(lens, len)
    ensures forall k :: 0 <= k < |r| ==> r[k] < |lens| && lens[r[k]] == len
  {
    SymsTo(lens, |lens|, len)
  }

  lemma {:induction false} SymsToRank(lens: Lens, n: nat, len: nat, k: nat)
    requires n <= |lens| && k < CountTo(lens, n, len)
    ensures CountTo(lens, SymsTo(lens, n, len)[k], len) == k
  {
    if k < CountTo(lens, n - 1, len) {
      SymsToRank(lens, n - 1, len, k);
    }
  }

  lemma SymsOfLenRank(lens: Lens, len: nat, k: nat)
    requires k < Count(lens, len)
    ensures CountTo(lens, SymsOfLen(lens, len)[k], len) == k
  {
    SymsToRank(lens, |lens|, len, k);
  }

  /** Used symbols of length at most `len`, sorted by length and then by symbol. */
  function Order(lens: Lens, len: nat): seq<nat> {
    if len == 0 then [] else Order(lens, len - 1) + SymsOfLen(lens, len)
  }

  /** Leading `root` bits of a symbol's code, as a number. */
  function RootCode(lens: Lens, root: nat, s: nat): nat
    requires Used(lens, s) && lens[s] > root
  {
    Shr(Code(lens, s), lens[s] - root)
  }

  /** Index bits of a sub-table: look ahead until its share of the code space is used up.
      `len` is the length looked at, `left` the codes of that length still free, `c` how many are in use. */
  function SubBits(lens: Lens, root: nat, max: nat, len: nat, left: int, c: nat): (r: nat)
    requires root < len <= max
    ensures len - root <= r <= max - root
    decreases max - len
  {
    if len == max || left - c <= 0 then len - root
    else SubBits(lens, root, max, len + 1, 2 * (left - c), Count(lens, len + 1))
  }

  predicate InUse(lens: Lens, max: nat, order: seq<nat>) {
    forall k :: 0 <= k < |order| ==> order[k] < |lens| && 0 < lens[order[k]] <= max <= MAXBITS
  }

  /** A sub-table starts at the `i`-th symbol. */
  predicate NewSub(lens: Lens, root: nat, max: nat, order: seq<nat>, i: nat)
    requires 0 < i < |order| && InUse(lens, max, order)
  {
    lens[order[i]] > root &&
    (lens[order[i - 1]] <= root || RootCode(lens, root, order[i]) != RootCode(lens, root, order[i - 1]))
  }

  function SubBitsAt(lens: Lens, root: nat, max: nat, s: nat): (r: nat)
    requires Used(lens, s) && root < lens[s] <= max
  {
    var len := lens[s];
    CountMono(lens, s, |lens|, len);
    SubBits(lens, root, max, len, Pow2(len - root), Count(lens, len) - CountTo(lens, s, len))
  }

  /** Table entries in use once the first `i + 1` symbols are placed. */
  function TableSize(lens: Lens, root: nat, max: nat, order: seq<nat>, i: nat): (r: nat)
    requires i < |order|
    requires InUse(lens, max, order)
    ensures r >= Pow2(root)
  {
    if i == 0 then Pow2(root)
    else TableSize(lens, root, max, order, i - 1) +
         if NewSub(lens, root, max, order, i) then Pow2(SubBitsAt(lens, root, max, order[i])) else 0
  }

  /** ENOUGH_LENS and ENOUGH_DISTS; the code-length table has the whole space. */
  function Enough(kind: Kind): nat {
    match kind
    case Codes => 1444
    case LenCodes => 852
    case DistCodes => 592
  }

  ghost predicate Accepts(kind: Kind, lens: Lens)
    requires Bounded(lens)
  {
    var max := MaxLen(lens, MAXBITS);
    max == 0 ||
    (&& Fits(lens)
     && (Complete(lens) || (kind != Codes && max == 1))
     && SpaceNeeded(kind, lens) <= Enough(kind))
  }

  ghost function SpaceNeeded(kind: Kind, lens: Lens): nat
    requires Bounded(lens) && MaxLen(lens, MAXBITS) > 0
  {
    var max := MaxLen(lens, MAXBITS);
    var order := Order(lens, MAXBITS);
    OrderNonEmpty(lens, max, MAXBITS);
    OrderInUse(lens, MAXBITS);
    TableSize(lens, RootBits(kind, lens), max, order, |order| - 1)
  }

  lemma {:induction false} OrderNonEmpty(lens: Lens, max: nat, len: nat)
    requires 0 < max <= len
    ensures |Order(lens, len)| >= Count(lens, max)
    decreases len
  {
    assert |Order(lens, len)| == |Order(lens, len - 1)| + Count(lens, len);
    hide *;
    if max < len {
      OrderNonEmpty(lens, max, len - 1);
    }
  }

  lemma {:induction false} OrderInUse(lens: Lens, len: nat)
    requires len <= MAXBITS
    ensures InUse(lens, MaxLen(lens, MAXBITS), Order(lens, len))
  {
    if len > 0 {
      OrderInUse(lens, len - 1);
      var syms := SymsOfLen(lens, len);
      forall k | 0 <= k < |syms|
        ensures lens[syms[k]] <= MaxLen(lens, MAXBITS)
      {
        CountPrefix(lens, syms[k], len);
      }
    }
  }
}
