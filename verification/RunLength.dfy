/**
  The run-length choice of send_tree: which code-length instructions the encoder writes for a list
  of code lengths.  The guard after the last length is 0, so a run of zeros at the very end is not
  closed: whatever does not fill an instruction of 138 zeros is dropped.
 */
module RunLength {
  import opened Bits
  import opened Format
  import opened FormatLemmas

  /** Length of the run of equal values at the front. */
  function Run(s: seq<nat>): (r: nat)
    requires s != []
    ensures 1 <= r <= |s|
    ensures forall i :: 0 <= i < r ==> s[i] == s[0]
    ensures r < |s| ==> s[r] != s[0]
  {
    RunFrom(s, 1)
  }

  function RunFrom(s: seq<nat>, i: nat): (r: nat)
    requires 1 <= i <= |s| && forall k :: 0 <= k < i ==> s[k] == s[0]
    ensures i <= r <= |s|
    ensures forall k :: 0 <= k < r ==> s[k] == s[0]
    ensures r < |s| ==> s[r] != s[0]
    decreases |s| - i
  {
    if i == |s| || s[i] != s[0] then i else RunFrom(s, i + 1)
  }

  function LenOps(v: nat, n: nat): (r: seq<ClOp>)
    ensures |r| == n
  {
    seq(n, _ => LenOp(v))
  }

  /** A run of `r` zeros; at the end of the list the last, unfinished instruction is not sent. */
  function ZeroOps(r: nat, atEnd: bool): seq<ClOp> {
    if r >= 138 then [ManyZerosOp(138)] + ZeroOps(r - 138, atEnd)
    else if atEnd then []
    else if r >= 11 then [ManyZerosOp(r)]
    else if r >= 3 then [ZerosOp(r)]
    else LenOps(0, r)
  }

  /** `r` more of a length that was just sent. */
  function RepeatOps(v: nat, r: nat): seq<ClOp> {
    if r >= 6 then [RepeatOp(6)] + RepeatOps(v, r - 6)
    else if r >= 3 then [RepeatOp(r)]
    else LenOps(v, r)
  }

  /** The first run of a list; `again` tells that its (non-zero) length was the last one sent. */
  function RunOps(s: seq<nat>, again: bool): seq<ClOp>
    requires s != []
  {
    var r := Run(s);
    if s[0] == 0 then ZeroOps(r, r == |s|)
    else if again then RepeatOps(s[0], r)
    else [LenOp(s[0])] + RepeatOps(s[0], r - 1)
  }

  function RleFrom(s: seq<nat>, again: bool): seq<ClOp>
    decreases |s|
  {
    if s == [] then [] else RunOps(s, again) + RleFrom(s[Run(s)..], false)
  }

  /** The instructions send_tree writes for the lengths `lens`. */
  function Rle(lens: seq<nat>): seq<ClOp> {
    RleFrom(lens, false)
  }

  function TrailingZeros(s: seq<nat>): (r: nat)
    ensures r <= |s|
  {
    if s == [] || s[|s| - 1] != 0 then 0 else 1 + TrailingZeros(s[..|s| - 1])
  }

  /** How many zeros at the end are lost: those that do not fill an instruction of 138. */
  function Lost(s: seq<nat>): (r: nat)
    ensures r <= |s|
  {
    TrailingZeros(s) % 138
  }

  // ----- expanding what was sent -----

  lemma {:induction false} ExpandLenOps(a: seq<ClOp>, v: nat, n: nat)
    ensures Expand(a + LenOps(v, n)) == Expand(a) + Repeated(v, n)
  {
    hide Expand;
    if n == 0 {
      assert a + LenOps(v, n) == a;
    } else {
      ExpandLenOps(a, v, n - 1);
      assert a + LenOps(v, n) == a + LenOps(v, n - 1) + [LenOp(v)];
      ExpandSnoc(a + LenOps(v, n - 1), LenOp(v));
      assert Repeated(v, n) == Repeated(v, n - 1) + [v];
      hide LenOps, Repeated;
      Assoc(Expand(a), Repeated(v, n - 1), [v]);
    }
  }

  /** An instruction in the middle of a list. */
  lemma ExpandThen(a: seq<ClOp>, op: ClOp, b: seq<ClOp>, n: nat, m: nat, v: nat)
    requires OpLens(Expand(a), op) == Repeated(v, n)
    requires Expand(a + [op] + b) == Expand(a + [op]) + Repeated(v, m)
    ensures Expand(a + ([op] + b)) == Expand(a) + Repeated(v, n + m)
  {
    hide Expand, OpLens;
    ExpandSnoc(a, op);
    Assoc(a, [op], b);
    assert Repeated(v, n + m) == Repeated(v, n) + Repeated(v, m);
    hide Repeated;
    Assoc(Expand(a), Repeated(v, n), Repeated(v, m));
  }

  lemma {:induction false} ExpandZeroOps(a: seq<ClOp>, r: nat, atEnd: bool)
    ensures Expand(a + ZeroOps(r, atEnd)) == Expand(a) + Repeated(0, if atEnd then r - r % 138 else r)
    decreases r
  {
    hide Expand;
    if r >= 138 {
      ExpandZeroOps(a + [ManyZerosOp(138)], r - 138, atEnd);
      ZeroOpsUnfold(r, atEnd);
      hide ZeroOps;
      var k := if atEnd then r - 138 - (r - 138) % 138 else r - 138;
      ExpandThen(a, ManyZerosOp(138), ZeroOps(r - 138, atEnd), 138, k, 0);
    } else if atEnd {
      assert a + [] == a;
    } else if r >= 11 {
      ExpandSnoc(a, ManyZerosOp(r));
    } else if r >= 3 {
      ExpandSnoc(a, ZerosOp(r));
    } else {
      ExpandLenOps(a, 0, r);
    }
  }

  lemma ZeroOpsUnfold(r: nat, atEnd: bool)
    requires r >= 138
    ensures ZeroOps(r, atEnd) == [ManyZerosOp(138)] + ZeroOps(r - 138, atEnd)
  {
  }

  lemma {:induction false} ExpandRepeatOps(a: seq<ClOp>, v: nat, r: nat)
    requires Expand(a) != [] && Expand(a)[|Expand(a)| - 1] == v
    ensures Expand(a + RepeatOps(v, r)) == Expand(a) + Repeated(v, r)
    decreases r
  {
    hide Expand;
    if r >= 6 {
      ExpandSnoc(a, RepeatOp(6));
      ExpandRepeatOps(a + [RepeatOp(6)], v, r - 6);
      assert RepeatOps(v, r) == [RepeatOp(6)] + RepeatOps(v, r - 6);
      hide RepeatOps;
      ExpandThen(a, RepeatOp(6), RepeatOps(v, r - 6), 6, r - 6, v);
    } else if r >= 3 {
      ExpandSnoc(a, RepeatOp(r));
    } else {
      ExpandLenOps(a, v, r);
    }
  }

  lemma RunIsRepeated(s: seq<nat>)
    requires s != []
    ensures s[..Run(s)] == Repeated(s[0], Run(s))
  {
  }

  /** One run expands to itself, except for what is cut off zeros at the end. */
  lemma ExpandRunOps(a: seq<ClOp>, s: seq<nat>, again: bool)
    requires s != []
    requires again ==> s[0] != 0 && Expand(a) != [] && Expand(a)[|Expand(a)| - 1] == s[0]
    ensures var r := Run(s);
            Expand(a + RunOps(s, again)) == Expand(a) + s[..if s[0] == 0 && r == |s| then r - r % 138 else r]
  {
    hide Expand, Run, ZeroOps, RepeatOps;
    var r, v := Run(s), s[0];
    RunIsRepeated(s);
    if v == 0 {
      ExpandZeroOps(a, r, r == |s|);
      assert s[..r - r % 138] == Repeated(0, r - r % 138);
    } else if again {
      ExpandRepeatOps(a, v, r);
    } else {
      ExpandSnoc(a, LenOp(v));
      ExpandRepeatOps(a + [LenOp(v)], v, r - 1);
      ExpandThen(a, LenOp(v), RepeatOps(v, r - 1), 1, r - 1, v);
    }
  }

  lemma {:induction false} TrailingZerosTail(s: seq<nat>, k: nat)
    requires k < |s| && exists i :: k <= i < |s| && s[i] != 0
    ensures TrailingZeros(s) == TrailingZeros(s[k..])
    decreases |s|
  {
    var n := |s| - 1;
    if s[n] == 0 {
      assert s[k..][..n - k] == s[..n][k..];
      TrailingZerosTail(s[..n], k);
    }
  }

  lemma {:induction false} TrailingZerosAll(s: seq<nat>)
    requires forall i :: 0 <= i < |s| ==> s[i] == 0
    ensures TrailingZeros(s) == |s|
  {
    if s != [] {
      TrailingZerosAll(s[..|s| - 1]);
    }
  }

  lemma {:induction false} TrailingZerosStop(s: seq<nat>, k: nat)
    requires 0 < k <= |s| && s[k - 1] != 0
    ensures TrailingZeros(s) == TrailingZeros(s[k..])
    decreases |s|
  {
    var n := |s| - 1;
    if k <= n && s[n] == 0 {
      assert s[k..][..n - k] == s[..n][k..];
      TrailingZerosStop(s[..n], k);
    }
  }

  /** Zeros cut off at the end of what is left after the first run. */
  lemma TrailingZerosRun(s: seq<nat>)
    requires s != [] && !(s[0] == 0 && Run(s) == |s|)
    ensures TrailingZeros(s) == TrailingZeros(s[Run(s)..])
  {
    hide Run, TrailingZeros;
    if s[0] == 0 {
      TrailingZerosTail(s, Run(s));
    } else {
      assert s[Run(s) - 1] == s[0];
      TrailingZerosStop(s, Run(s));
    }
  }

  /** What the code-length reader makes of what send_tree wrote: the same lengths, up to the zeros cut off. */
  lemma {:induction false} RleExpands(a: seq<ClOp>, s: seq<nat>, again: bool)
    requires again ==> s != [] && s[0] != 0 && Expand(a) != [] && Expand(a)[|Expand(a)| - 1] == s[0]
    ensures Expand(a + RleFrom(s, again)) == Expand(a) + s[..|s| - Lost(s)]
    decreases |s|
  {
    hide Expand, Run, RunOps, RleFrom, TrailingZeros;
    if s == [] {
      RleNil(again);
      assert a + [] == a;
    } else {
      var r := Run(s);
      var head, tail := RunOps(s, again), RleFrom(s[r..], false);
      RleUnfold(s, again);
      ExpandRunOps(a, s, again);
      if s[0] == 0 && r == |s| {
        TrailingZerosAll(s);
        RleNil(false);
        assert s[r..] == [];
        assert head + [] == head;
      } else {
        RleExpands(a + head, s[r..], false);
        TrailingZerosRun(s);
        Assoc(a, head, tail);
        CutAfter(s, r, Lost(s), Expand(a));
      }
    }
  }

  lemma CutAfter(s: seq<nat>, r: nat, cut: nat, a: seq<nat>)
    requires r + cut <= |s|
    ensures a + s[..r] + s[r..][..|s[r..]| - cut] == a + s[..|s| - cut]
  {
  }

  lemma RleUnfold(s: seq<nat>, again: bool)
    requires s != []
    ensures RleFrom(s, again) == RunOps(s, again) + RleFrom(s[Run(s)..], false)
  {
  }

  lemma RleNil(again: bool)
    ensures RleFrom([], again) == []
  {
  }

  /** send_tree is undone by the expansion exactly when the zeros at the end come in full instructions. */
  lemma SendTreeExpands(lens: seq<nat>)
    ensures Expand(Rle(lens)) == lens[..|lens| - Lost(lens)]
    ensures Expand(Rle(lens)) == lens <==> Lost(lens) == 0
  {
    hide Expand, RleFrom, TrailingZeros, Lost;
    RleExpands([], lens, false);
    NothingBefore(RleFrom(lens, false));
    ExpandNil();
    var cut := Lost(lens);
    NothingBefore(lens[..|lens| - cut]);
    CutNothing(lens, cut);
  }

  lemma NothingBefore<T>(s: seq<T>)
    ensures [] + s == s
  {
  }

  lemma CutNothing(s: seq<nat>, cut: nat)
    requires cut <= |s|
    ensures s[..|s| - cut] == s <==> cut == 0
  {
  }

  lemma ExpandNil()
    ensures Expand([]) == []
  {
  }

  lemma {:induction false} ZeroOpsValid(r: nat, atEnd: bool)
    ensures ValidOps(ZeroOps(r, atEnd))
  {
    if r >= 138 {
      ZeroOpsValid(r - 138, atEnd);
    }
  }

  lemma {:induction false} RepeatOpsValid(v: nat, r: nat)
    requires v <= 15
    ensures ValidOps(RepeatOps(v, r))
  {
    if r >= 6 {
      RepeatOpsValid(v, r - 6);
    }
  }

  /** Every repeat count written lies in its range: 3..6, 3..10 or 11..138. */
  lemma {:induction false} RleValid(s: seq<nat>, again: bool)
    requires forall i :: 0 <= i < |s| ==> s[i] <= 15
    ensures ValidOps(RleFrom(s, again))
    decreases |s|
  {
    if s != [] {
      hide Run, ZeroOps, RepeatOps;
      ZeroOpsValid(Run(s), Run(s) == |s|);
      RepeatOpsValid(s[0], Run(s));
      RepeatOpsValid(s[0], Run(s) - 1);
      RleValid(s[Run(s)..], false);
      RleUnfold(s, again);
      assert ValidOps(RunOps(s, again));
      hide RleFrom, RunOps;
      BothValid(RunOps(s, again), RleFrom(s[Run(s)..], false));
    }
  }

  lemma BothValid(a: seq<ClOp>, b: seq<ClOp>)
    requires ValidOps(a) && ValidOps(b)
    ensures ValidOps(a + b)
  {
  }
}
