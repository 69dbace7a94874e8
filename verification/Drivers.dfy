/**
  The two tools as drivers of the machines: they hand in the input piece by piece and take the output
  whenever the buffer is full (decompressBytes in decode_docker.cpp, compress_data in encode_docker.cpp).
 */
module Drivers {
  import opened Bits
  import opened Instructions
  import opened DecoderSpec
  import opened Format
  import opened FormatLemmas
  import opened RoundTrip
  import opened Transcode
  import opened Rereading
  import opened BitReading
  import opened InflateState
  import opened Inflate
  import opened EncoderSpec
  import opened Deflate
  import DeflateState

  /** All pieces, one after the other. */
  function Flat(chunks: seq<seq<byte>>): seq<byte> {
    if chunks == [] then [] else chunks[0] + Flat(chunks[1..])
  }

  lemma FlatFrom(chunks: seq<seq<byte>>, i: nat)
    requires i < |chunks|
    ensures Flat(chunks[i..]) == chunks[i] + Flat(chunks[i + 1..])
  {
    assert chunks[i..][1..] == chunks[i + 1..];
  }

  lemma FlatEnds(chunks: seq<seq<byte>>)
    ensures chunks[0..] == chunks && Flat(chunks[|chunks|..]) == [] && ByteBits([]) == []
  {
  }

  // ----- the decoder -----

  /** Nothing is left to write, or `rel` is what is left. */
  ghost predicate Telling(m: Inflater, rel: Trace, more: Bits)
    reads m, m.src, m.hdr, m.hdr.buf, m.rd, m.rd.lens
  {
    m.Valid() && m.put == [] && if m.mode == DONE then rel.out == [] && rel.end.Finished? else m.Told(rel, more)
  }

  /** ... and the machine waits for the next piece. */
  ghost predicate Standing(m: Inflater, rel: Trace, more: Bits)
    reads m, m.src, m.hdr, m.hdr.buf, m.rd, m.rd.lens
  {
    Telling(m, rel, more) && (m.mode == DONE || (m.Stuck() && m.src.next == []))
  }

  lemma OpenStanding(m: Inflater, rel: Trace, more: Bits)
    requires Standing(m, rel, more)
    ensures m.Valid() && Telling(m, rel, more) && m.put == []
    ensures m.mode == DONE || (m.Stuck() && m.src.next == [] && m.Told(rel, more))
    ensures m.mode == DONE ==> rel.out == [] && rel.end.Finished?
  {
    hide Inflater.Valid, Inflater.Told, Inflater.Stuck;
  }

  lemma OpenTelling(m: Inflater, rel: Trace, more: Bits)
    requires Telling(m, rel, more)
    ensures m.Valid() && m.put == []
    ensures if m.mode == DONE then rel.out == [] && rel.end.Finished? else m.Told(rel, more)
  {
    hide Inflater.Valid, Inflater.Told;
  }

  lemma CloseTelling(m: Inflater, rel: Trace, more: Bits)
    requires m.Valid() && m.put == []
    requires if m.mode == DONE then rel.out == [] && rel.end.Finished? else m.Told(rel, more)
    ensures Telling(m, rel, more)
    ensures m.mode == DONE || (m.Stuck() && m.src.next == []) ==> Standing(m, rel, more)
  {
    hide Inflater.Valid, Inflater.Told, Inflater.Stuck;
  }

  /** A fresh decoder has everything still to write. */
  method StartDecoder(ghost whole: seq<byte>) returns (m: Inflater)
    ensures fresh(m) && fresh(m.src) && fresh(m.hdr) && fresh(m.hdr.buf) && fresh(m.rd) && fresh(m.rd.lens)
    ensures Standing(m, Decode(whole), ByteBits(whole)) && m.mode != DONE
  {
    hide *;
    m := new Inflater();
    m.AtStart(ByteBits(whole));
    DecodeDef(whole);
    CloseTelling(m, Decode(whole), ByteBits(whole));
  }

  lemma DecodeDef(s: seq<byte>)
    ensures Decode(s) == EmitBlocks(false, ByteBits(s))
    ensures HEAD != DONE
  {
    hide EmitBlocks;
  }

  /** The next piece is handed in; a machine that has ended ignores it. */
  method Feed(m: Inflater, chunk: seq<byte>, ghost later: seq<byte>, ghost rel: Trace)
    requires Standing(m, rel, ByteBits(chunk + later))
    modifies m.src`next
    ensures Telling(m, rel, ByteBits(later)) && m.mode == old(m.mode)
  {
    hide *;
    OpenStanding(m, rel, ByteBits(chunk + later));
    if m.mode == DONE {
      m.src.next := chunk;
    } else {
      m.Supply(chunk, rel, later);
    }
    CloseTelling(m, rel, ByteBits(later));
  }

  /**
    The calls for one piece of input: as long as the output buffer comes back full, it is emptied and the
    machine called again.
   */
  method Drain(m: Inflater, space: nat, ghost rel: Trace, ghost more: Bits)
      returns (ok: bool, out: seq<byte>, ghost rest: Trace)
    requires Telling(m, rel, more) && space > 0 && |more| % 8 == 0
    modifies m, m.src, m.hdr, m.hdr.buf, m.rd, m.rd.lens
    ensures ok ==> Standing(m, rest, more) && rel == Put(out, rest)
    ensures ok && old(m.mode) == DONE ==> m.mode == DONE && rest == rel
    ensures ok && old(m.mode) != DONE && m.mode == DONE ==> rest.end == Finished(ByteBits(m.src.next) + more)
    ensures !ok ==> rel.end.Invalid?
  {
    hide *;
    out, rest := [], rel;
    NothingPut(rel);
    while true
      invariant Telling(m, rest, more) && rel == Put(out, rest)
      invariant old(m.mode) == DONE ==> m.mode == DONE && rest == rel
      invariant old(m.mode) != DONE && m.mode == DONE ==> rest.end == Finished(ByteBits(m.src.next) + more)
      decreases |rest.out|
    {
      var full;
      ghost var before := rest;
      var written;
      ok, written, full, rest := Call(m, space, rest, more);
      if !ok {
        InvalidWhole(out, before);
        return false, [], rest;
      }
      PutPut(out, written, rest);
      PutSize(written, rest);
      out := out + written;
      if !full {
        return true, out, rest;
      }
    }
  }

  lemma NothingPut(t: Trace)
    ensures Put([], t) == t
  {
  }

  lemma InvalidWhole(out: seq<byte>, t: Trace)
    requires t.end.Invalid?
    ensures Put(out, t).end.Invalid?
  {
  }

  lemma PutSize(b: seq<byte>, t: Trace)
    ensures |Put(b, t).out| == |b| + |t.out|
  {
  }

  /** One call of j_inflate with an empty output buffer. */
  method Call(m: Inflater, space: nat, ghost rel: Trace, ghost more: Bits)
      returns (ok: bool, out: seq<byte>, full: bool, ghost rest: Trace)
    requires Telling(m, rel, more) && space > 0 && |more| % 8 == 0
    modifies m, m.src, m.hdr, m.hdr.buf, m.rd, m.rd.lens
    ensures ok ==> Telling(m, rest, more) && rel == Put(out, rest)
    ensures ok && full ==> |out| == space
    ensures ok && !full ==> Standing(m, rest, more)
    ensures ok && old(m.mode) == DONE ==> m.mode == DONE && rest == rel
    ensures ok && old(m.mode) == DONE ==> ByteBits(m.src.next) + more == old(ByteBits(m.src.next)) + more
    ensures ok && old(m.mode) != DONE && m.mode == DONE ==> rest.end == Finished(ByteBits(m.src.next) + more)
    ensures !ok ==> rel.end.Invalid?
  {
    hide *;
    OpenTelling(m, rel, more);
    m.left := space;
    ghost var done := m.mode == DONE;
    ghost var now := if done then Put([], After(m.last, m.st, m.src.Ahead() + more)) else rel;
    if done {
      m.Retell(now, more);
      m.AtDone(now, more);
    }
    var ret := m.Inflate(now, more);
    m.Tell(now, more);
    m.Ended(more);
    SameEnd(m.put, After(m.last, m.st, m.src.Ahead() + more));
    out, full := m.put, m.left == 0;
    rest := After(m.last, m.st, m.src.Ahead() + more);
    InvalidPut(out);
    if done {
      PutSize([], rest);
      PutSize(out, rest);
      rest := rel;
      NothingPut(rel);
    }
    if ret == Z_NEED_DICT || ret == Z_STREAM_ERROR || ret == Z_DATA_ERROR || ret == Z_MEM_ERROR {
      Codes();
      return false, [], false, rest;
    }
    Codes();
    m.put := [];
    if !done {
      NothingPut(rest);
      if m.mode != DONE {
        m.Retell(rest, more);
        if !full {
          m.ShownStuck();
        }
      }
    }
    CloseTelling(m, rest, more);
    ok := true;
  }

  // the results on which the tool gives up
  const Z_NEED_DICT := 2
  const Z_STREAM_ERROR := -2
  const Z_DATA_ERROR := -3
  const Z_MEM_ERROR := -4

  lemma Codes()
    ensures Z_NEED_DICT == 2 && Z_STREAM_ERROR == -2 && Z_DATA_ERROR == -3 && Z_MEM_ERROR == -4
  {
  }

  lemma SameEnd(put: seq<byte>, t: Trace)
    ensures Put(put, t).end == t.end
  {
  }

  lemma InvalidPut(out: seq<byte>)
    ensures Put(out, INVALID_DATA).end.Invalid?
    ensures DONE != BAD
  {
  }

  /**
    decompressBytes, for any way of cutting up the input and any size of the output buffer: what is
    written depends on the whole input alone, and it fails exactly on invalid data.  At the end of the stream
    the machine has read exactly the stream: `unread` is what its input still holds then and the pieces that
    are yet to be handed in.
   */
  method Decompress(chunks: seq<seq<byte>>, space: nat) returns (ok: bool, out: seq<byte>, ghost unread: seq<byte>)
    requires space > 0
    ensures ok <==> !Decode(Flat(chunks)).end.Invalid?
    ensures ok ==> out == Decode(Flat(chunks)).out
    ensures Decode(Flat(chunks)).end.Finished? ==> Decode(Flat(chunks)).end == Finished(ByteBits(unread))
  {
    hide *;
    var m := StartDecoder(Flat(chunks));
    ghost var rel := Decode(Flat(chunks));   // what is still to be written
    out, unread := [], [];
    NothingPut(rel);
    FlatEnds(chunks);
    var i := 0;
    while i < |chunks|
      invariant i <= |chunks| && Decode(Flat(chunks)) == Put(out, rel)
      invariant Standing(m, rel, ByteBits(Flat(chunks[i..])))
      invariant m.mode == DONE ==> rel.end == Finished(ByteBits(unread))
      invariant fresh(m) && fresh(m.src) && fresh(m.hdr) && fresh(m.hdr.buf) && fresh(m.rd) && fresh(m.rd.lens)
    {
      FlatFrom(chunks, i);
      Feed(m, chunks[i], Flat(chunks[i + 1..]), rel);
      ghost var before, ended := rel, m.mode == DONE;
      var written;
      ok, written, rel := Drain(m, space, rel, ByteBits(Flat(chunks[i + 1..])));
      if !ok {
        InvalidWhole(out, before);
        return false, [], [];
      }
      if m.mode == DONE && !ended {
        unread := m.src.next + Flat(chunks[i + 1..]);
        ByteBitsAppend(m.src.next, Flat(chunks[i + 1..]));
      }
      PutPut(out, written, rel);
      out := out + written;
      i := i + 1;
    }
    AllTold(m, out, rel);
    SameEnd(out, rel);
    return true, out, unread;
  }

  /** When all input has been handed in, all output has been written. */
  lemma AllTold(m: Inflater, out: seq<byte>, rel: Trace)
    requires Standing(m, rel, [])
    ensures Put(out, rel).out == out && !Put(out, rel).end.Invalid?
    ensures rel.end.Finished? ==> m.mode == DONE
  {
    hide *;
    OpenStanding(m, rel, []);
    if m.mode == DONE {
      FinishedPut(out, rel);
    } else {
      m.Tell(rel, []);
      m.ShownStuck();
      assert m.src.Ahead() + [] == m.src.Ahead();
      StarvedPut(out);
    }
  }

  lemma FinishedPut(out: seq<byte>, rel: Trace)
    requires rel.out == [] && rel.end.Finished?
    ensures Put(out, rel).out == out && !Put(out, rel).end.Invalid?
  {
  }

  lemma StarvedPut(out: seq<byte>)
    ensures !Put([], STARVED).end.Finished?
    ensures Put(out, Put([], STARVED)).out == out && !Put(out, Put([], STARVED)).end.Invalid?
  {
  }

  // ----- the encoder -----

  /** How compress_data ends; after PlaceLost the original goes on from registers it has not saved. */
  datatype Ending = AllRead | BadData | PlaceLost

  /** The run stays on course for `whole`; a machine that has ended has written all of it. */
  ghost function OnCourse(m: Deflater, whole: BitTrace, more: Bits): (v: bool)
    ensures v ==> DeflateState.Sound(m.st)
    reads m, m.src, m.w, m.w.buf, m.rd.hdr, m.rd.hdr.buf, m.rd, m.rd.lens
  {
    m.Valid() && m.Settled() && if m.mode == DeflateState.DONE then whole.out == m.sent
        && whole.end.Written? else m.Told(whole, more)
  }

  lemma OpenCourse(m: Deflater, whole: BitTrace, more: Bits)
    requires OnCourse(m, whole, more)
    ensures m.Valid() && m.Settled()
    ensures if m.mode == DeflateState.DONE then whole.out == m.sent && whole.end.Written? else m.Told(whole, more)
    ensures m.sent <= whole.out
  {
    hide Deflater.Valid, Deflater.Settled, DeflateState.After;
  }

  lemma CloseCourse(m: Deflater, whole: BitTrace, more: Bits)
    requires m.Valid() && m.Settled()
    requires if m.mode == DeflateState.DONE then whole.out == m.sent && whole.end.Written? else m.Told(whole, more)
    ensures OnCourse(m, whole, more)
  {
    hide Deflater.Valid, Deflater.Settled, Deflater.Told;
  }

  /** A fresh encoder has everything still to write. */
  method StartEncoder(ghost whole: seq<byte>) returns (m: Deflater)
    ensures fresh(m) && fresh(m.src) && fresh(m.w) && fresh(m.w.buf) && fresh(m.rd) && fresh(m.rd.lens)
    ensures fresh(m.rd.hdr) && fresh(m.rd.hdr.buf)
    ensures OnCourse(m, Encode(whole), ByteBits(whole)) && m.out == [] && m.src.next == []
    ensures m.Idle() && m.Rested() && m.Stuck() && m.mode != DeflateState.BAD && m.mode != DeflateState.DONE
  {
    hide *;
    m := new Deflater();
    Started(m, whole);
    CloseCourse(m, Encode(whole), ByteBits(whole));
  }

  lemma Started(m: Deflater, whole: seq<byte>)
    requires m.Valid() && m.mode == DeflateState.HEAD && !m.last && m.sent == [] && m.st == DeflateState.AtBlock
    requires m.lastFlush == -2 && m.src.next == [] && m.src.bits == 0
    ensures m.Settled() && m.Told(Encode(whole), ByteBits(whole)) && m.mode != DeflateState.DONE
    ensures m.mode != DeflateState.BAD
    ensures m.Rested() && m.Stuck()
  {
    hide Deflater.Valid, RecBlocks;
    DeflateState.NothingLeft(0, false);
    assert m.src.Ahead() == [];
    assert [] + ByteBits(whole) == ByteBits(whole);
  }

  /** The next piece is handed in; a machine that has ended ignores it. */
  method Hand(m: Deflater, chunk: seq<byte>, ghost later: seq<byte>, ghost whole: BitTrace)
    requires OnCourse(m, whole, ByteBits(chunk + later)) && (m.mode == DeflateState.DONE || m.src.next == [])
    modifies m.src`next
    ensures OnCourse(m, whole, ByteBits(later)) && m.mode == old(m.mode)
  {
    hide *;
    OpenCourse(m, whole, ByteBits(chunk + later));
    if m.mode == DeflateState.DONE {
      m.Ignore(chunk);
    } else {
      m.Supply(chunk, whole, later);
    }
    CloseCourse(m, whole, ByteBits(later));
  }

  /** One call of j_deflate with an empty output buffer. */
  method Round(m: Deflater, space: nat, flush: int, ghost whole: BitTrace, ghost more: Bits)
      returns (bad: bool, full: bool)
    requires OnCourse(m, whole, more) && m.mode != DeflateState.BAD && space > 0 && |more| % 8 == 0
    requires whole.end != OutOfBounds && (flush == 0 || flush == 4)
    modifies m, m.src, m.w, m.w.buf, m.rd, m.rd.lens, m.rd.hdr, m.rd.hdr.buf
    ensures old(m.out) <= m.out && |m.out| + m.left == |old(m.out)| + space
    ensures full ==> whole.end == SymbolsFull && ByteBits(m.out) == Whole(whole.out) && !bad
    ensures bad ==> whole.end == Wrong
    ensures !bad && !full ==> OnCourse(m, whole, more) && m.mode != DeflateState.BAD
    ensures !bad && !full && m.left > 0 ==> m.Idle() && m.Rested() && (m.src.next == [] || m.mode == DeflateState.DONE)
    ensures !bad && !full && m.left > 0 && flush == 4 ==> m.Stuck() || m.mode == DeflateState.DONE
    ensures !bad && !full && old(m.mode) == DeflateState.DONE ==> m.mode == DeflateState.DONE
    ensures !bad && !full && old(m.mode) == DeflateState.DONE ==>
              ByteBits(m.src.next) + more == old(ByteBits(m.src.next)) + more
    ensures !bad && !full && old(m.mode) != DeflateState.DONE && m.mode == DeflateState.DONE ==>
              whole.end == Written(ByteBits(m.src.next) + more)
  {
    hide *;
    OpenCourse(m, whole, more);
    m.left := space;
    ghost var done := m.mode == DeflateState.DONE;
    ghost var now := if done then PutBits(m.sent, DeflateState.After(|m.sent|, m.last, m.st, m.src.Ahead() + more))
        else whole;
    if done {
      m.Retell(now, more);
      m.AtDone(now, more);
    }
    FlushValues();
    bad, full := m.Deflate(flush, now, more);
    if full {
      FullEnds(m.sent);
      m.InOrder();
      m.IdleIs();
      WholeIs(m, m.sent);
      return;
    }
    m.OpenSound();
    m.Tell(now, more);
    if bad {
      m.AtBad(now, more);
      return;
    }
    if m.mode == DeflateState.DONE {
      m.AtDone(now, more);
    }
    CloseCourse(m, whole, more);
  }

  lemma FlushValues()
    ensures Z_NO_FLUSH == 0 && Z_FINISH == 4
  {
  }

  lemma FullEnds(sent: Bits)
    ensures PutBits(sent, BitTrace([], SymbolsFull)).end == SymbolsFull && SymbolsFull != Wrong
    ensures PutBits(sent, BitTrace([], SymbolsFull)).out == sent
    ensures SymbolsFull != OutOfBounds
  {
  }

  /** The calls for one piece of input. */
  method Exhaust(m: Deflater, space: nat, flush: int, ghost whole: BitTrace, ghost more: Bits)
      returns (bad: bool, full: bool)
    requires OnCourse(m, whole, more) && m.mode != DeflateState.BAD && space > 0 && |more| % 8 == 0
    requires whole.end != OutOfBounds && (flush == 0 || flush == 4)
    modifies m, m.src, m.w, m.w.buf, m.rd, m.rd.lens, m.rd.hdr, m.rd.hdr.buf
    ensures old(m.out) <= m.out
    ensures full ==> whole.end == SymbolsFull && ByteBits(m.out) == Whole(whole.out) && !bad
    ensures bad ==> whole.end == Wrong
    ensures !bad && !full ==> OnCourse(m, whole, more) && m.mode != DeflateState.BAD
    ensures !bad && !full ==> m.Idle() && m.Rested() && (m.src.next == [] || m.mode == DeflateState.DONE)
    ensures !bad && !full && flush == 4 ==> m.Stuck() || m.mode == DeflateState.DONE
    ensures !bad && !full && old(m.mode) == DeflateState.DONE ==> m.mode == DeflateState.DONE
    ensures !bad && !full && old(m.mode) == DeflateState.DONE ==>
              ByteBits(m.src.next) + more == old(ByteBits(m.src.next)) + more
    ensures !bad && !full && old(m.mode) != DeflateState.DONE && m.mode == DeflateState.DONE ==>
              whole.end == Written(ByteBits(m.src.next) + more)
  {
    hide *;
    while true
      invariant OnCourse(m, whole, more) && m.mode != DeflateState.BAD && old(m.out) <= m.out
      invariant old(m.mode) == DeflateState.DONE ==>
                  m.mode == DeflateState.DONE && ByteBits(m.src.next) + more == old(ByteBits(m.src.next)) + more
      invariant old(m.mode) != DeflateState.DONE && m.mode == DeflateState.DONE ==>
                  whole.end == Written(ByteBits(m.src.next) + more)
      decreases |whole.out| - |m.out|
    {
      ghost var before := |m.out|;
      OutFits(m, whole, more);
      bad, full := Round(m, space, flush, whole, more);
      if bad || full || m.left > 0 {
        return;
      }
      OutFits(m, whole, more);
    }
  }

  /** What has been handed out is part of the whole. */
  lemma OutFits(m: Deflater, whole: BitTrace, more: Bits)
    requires OnCourse(m, whole, more)
    ensures 8 * |m.out| <= |whole.out|
  {
    hide *;
    OpenCourse(m, whole, more);
    m.OpenSound();
    m.OpenBase();
    m.InOrder();
  }

  /**
    compress_data, for any way of cutting up the input and any size of the output buffer: what is written
    depends on the whole input alone.  Input that ends early leaves up to 7 bits in the bit buffer.  At the
    end of the stream the machine has read exactly what stands for the stream, and not `unread`.
   */
  method Compress(chunks: seq<seq<byte>>, space: nat) returns (r: Ending, out: seq<byte>, ghost unread: seq<byte>)
    requires space > 0 && Encode(Flat(chunks)).end != OutOfBounds
    ensures r == BadData <==> Encode(Flat(chunks)).end == Wrong
    ensures r == PlaceLost <==> Encode(Flat(chunks)).end == SymbolsFull
    ensures r != BadData ==> ByteBits(out) == Whole(Encode(Flat(chunks)).out)
    ensures Encode(Flat(chunks)).end.Written? ==> Encode(Flat(chunks)).end == Written(ByteBits(unread))
  {
    hide *;
    ghost var whole := Encode(Flat(chunks));
    var m := StartEncoder(Flat(chunks));
    unread := [];
    FlatEnds(chunks);
    Endings(whole);
    var i := 0;
    while i < |chunks|
      invariant i <= |chunks| && OnCourse(m, whole, ByteBits(Flat(chunks[i..]))) && m.mode != DeflateState.BAD
      invariant m.src.next == [] || m.mode == DeflateState.DONE
      invariant m.Idle() && m.Rested()
      invariant i == 0 || i == |chunks| ==> m.Stuck() || m.mode == DeflateState.DONE
      invariant m.mode == DeflateState.DONE ==> whole.end == Written(ByteBits(unread))
      invariant fresh(m) && fresh(m.src) && fresh(m.w) && fresh(m.w.buf) && fresh(m.rd) && fresh(m.rd.lens)
      invariant fresh(m.rd.hdr) && fresh(m.rd.hdr.buf)
    {
      FlatFrom(chunks, i);
      ghost var ended := m.mode == DeflateState.DONE;
      Hand(m, chunks[i], Flat(chunks[i + 1..]), whole);
      var bad, full := Exhaust(m, space, if i + 1 == |chunks| then 4 else 0, whole, ByteBits(Flat(chunks[i + 1..])));
      if bad {
        return BadData, [], [];
      }
      if full {
        return PlaceLost, m.out, [];
      }
      if m.mode == DeflateState.DONE && !ended {
        unread := m.src.next + Flat(chunks[i + 1..]);
        ByteBitsAppend(m.src.next, Flat(chunks[i + 1..]));
      }
      i := i + 1;
    }
    AllWritten(m, whole);
    return AllRead, m.out, unread;
  }

  lemma Endings(t: BitTrace)
    ensures Wrong != SymbolsFull && Hungry != Wrong && Hungry != SymbolsFull
    ensures t.end.Written? ==> t.end != Wrong && t.end != SymbolsFull
  {
  }

  /** The bits that make up whole bytes. */
  function Whole(b: Bits): Bits {
    b[..|b| - |b| % 8]
  }

  /** When all input has been handed in, all output has been handed out. */
  lemma AllWritten(m: Deflater, whole: BitTrace)
    requires OnCourse(m, whole, []) && m.Idle() && m.Rested() && m.mode != DeflateState.BAD
    requires m.Stuck() || m.mode == DeflateState.DONE
    requires m.src.next == [] || m.mode == DeflateState.DONE
    ensures ByteBits(m.out) == Whole(whole.out) && whole.end != Wrong && whole.end != SymbolsFull
    ensures whole.end.Written? ==> m.mode == DeflateState.DONE
  {
    hide *;
    OpenCourse(m, whole, []);
    m.OpenSound();
    m.OpenBase();
    m.InOrder();
    m.IdleIs();
    Endings(whole);
    if m.mode != DeflateState.DONE {
      m.Tell(whole, []);
      assert m.src.Ahead() + [] == m.src.Ahead();
      m.RestedEnd();
      m.StuckIs();
      RestIs(m.sent, DeflateState.After(|m.sent|, m.last, m.st, m.src.Ahead()));
    }
    WholeIs(m, whole.out);
  }

  lemma RestIs(sent: Bits, t: BitTrace)
    requires t.out == []
    ensures PutBits(sent, t).out == sent && PutBits(sent, t).end == t.end
  {
  }

  lemma WholeIs(m: Deflater, b: Bits)
    requires 8 * |m.out| <= |b| < 8 * |m.out| + 8
    ensures Whole(b) == b[..8 * |m.out|]
  {
  }

  // ----- both tools -----

  /** A byte string cut into pieces of at most `k` bytes. */
  function Pieces(s: seq<byte>, k: nat): (r: seq<seq<byte>>)
    requires k > 0
    ensures Flat(r) == s
    decreases |s|
  {
    if |s| <= k then OnePiece(s); [s]
    else
      MorePieces(s[..k], Pieces(s[k..], k), s);
      [s[..k]] + Pieces(s[k..], k)
  }

  lemma OnePiece(s: seq<byte>)
    ensures Flat([s]) == s
  {
    assert [s][1..] == [];
    assert s + [] == s;
  }

  lemma MorePieces(a: seq<byte>, rest: seq<seq<byte>>, s: seq<byte>)
    requires s == a + Flat(rest)
    ensures Flat([a] + rest) == s
  {
    assert ([a] + rest)[1..] == rest;
  }

  /**
    The whole system: a stream goes through the decoder and what that writes goes through the encoder, each
    with its input cut up and its output buffer sized in any way.  Encoding undoes decoding on manageable
    canonical streams, up to the bytes after the stream, and, where the rewritten blocks can be read again,
    on no others.
   */
  method DecodeThenEncode(chunks: seq<seq<byte>>, space1: nat, piece: nat, space2: nat, ghost bs: seq<Block>,
      ghost rest: Bits)
    returns (out: seq<byte>)
    requires space1 > 0 && piece > 0 && space2 > 0
    requires ReadStream(ByteBits(Flat(chunks))) == Ok(bs, rest) && WritableAll(bs) && Manageable(0, bs)
    ensures ByteBits(out) == RewrittenStream(0, bs)
    ensures ComesBack(bs, rest) ==> ByteBits(out) + Aligned(rest) == ByteBits(Flat(chunks))
    ensures ReparsesAll(bs) ==> (ByteBits(out) + Aligned(rest) == ByteBits(Flat(chunks)) <==> ComesBack(bs, rest))
  {
    hide *;
    ghost var s := Flat(chunks);
    EncodeDecode(s, bs, rest);
    StreamExact(ByteBits(s));
    RewrittenWhole(0, bs);
    WholeWhole(RewrittenStream(0, bs));
    FinishedEnds(Decode(s));
    var ok, ins, _ := Decompress(chunks, space1);
    WrittenEnds(Encode(ins), []);
    var r;
    ghost var unread;
    r, out, unread := Compress(Pieces(ins, piece), space2);
    if ReparsesAll(bs) {
      StreamExactly(s, bs, rest);
    }
  }

  lemma WholeWhole(b: Bits)
    ensures (0 + |b|) % 8 == 0 ==> Whole(b) == b
  {
  }

  lemma FinishedEnds(t: Trace)
    ensures t.end.Finished? ==> !t.end.Invalid?
  {
  }

  lemma WrittenEnds(t: BitTrace, rest: Bits)
    ensures t.end == Written(rest) ==> t.end != OutOfBounds && t.end != Wrong && t.end != SymbolsFull
    ensures AllRead != BadData && AllRead != PlaceLost
  {
  }
}
