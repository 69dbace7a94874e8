# The DEFLATE transcoder: a verified model

The tools in `partial/` undo and redo the Huffman layer of a raw DEFLATE stream (RFC 1951).  The decoder,
`j_inflate`, turns each block into a byte-aligned instruction stream: the bits of the block header, `aa ff`,
one instruction per literal or match, `aa ff`.  The encoder, `j_deflate` with `deflate_my`, reads that stream,
builds the same Huffman codes and writes the bits back.  The system rests on one claim: encoding undoes
decoding.

This project models both tools and proves that claim, with the exact conditions under which it holds.

* **Reference definitions.**  `Huffman` (canonical codes, section 3.2.2 of RFC 1951), `Format` (the syntax of a
  stream, its bits, and how it is read), `Instructions` (the instruction stream), `DecoderSpec` and
  `EncoderSpec` (what each machine writes for any input at all, also for input that is truncated or invalid).
* **The machines.**  `BitReader`, `BitWriter`, `HeaderReader`, `Inflater` and `Deflater` are classes with the
  fields of the C structures; each `case` of the two mode switches is a method.  All of them keep one
  invariant, `Told`: what has been written, followed by what the definition says is still to be written, never
  changes.  So the output depends on the input alone, not on how it is cut up, not on the size of the output
  buffer, and not on whether tokens go through `inflate_fast`.
* **One array.**  As in the source, `sym_buf` lies inside `pending_buf`.  `compress_block` is verified on that
  one array, under the exact condition that the write position never passes the next unread symbol.
* **The format.**  The reader is pinned from outside: `Grammar.StreamRead` says that it reads exactly the streams of
  RFC 1951, stated without the reader, without the table builder and without its space limits, and
  `Wire.StoredAndDynamic` and `Wire.FixedStream` follow literal bytes through both tools.  That the space limits 852
  and 592 never refuse a valid code, which the sources take from an exhaustive search, is proved for all codes
  (`TableSpace.AcceptsExactly`).
* **The theorems.**  `RoundTrip.EncodeDecode` on the definitions, `Drivers.DecodeThenEncode` on the two machines
  run by their drivers, and `Rereading.StreamExactly` for the converse.

The files in reading order: `Bits`, `Huffman`, `TableSpec`, `TableLemmas`, `InfTrees`, `Format`, `FormatLemmas`,
`FixedCode`, `TableSpace`, `LengthCodes`, `RunLength`, `Instructions`, `Recode`, `Transcode`, `RoundTrip`, `Exact`,
`Reread`, `Grammar`, `Overlay`, `Examples`, `Wire`, `BitWriter`, `BitReader`, `HeaderReader`, `InflateState`,
`InfFast`, `Inflate`, `Trees`, `DeflateState`, `Deflate`, `Drivers`.  `dafny verify dfyconfig.toml` checks everything.

A stream is *canonical* when every stored block is padded with zeros, no match of length 258 is spelled as
symbol 284, and every dynamic header consists of the instructions `send_tree` writes.  It is *manageable* when
no block fills `sym_buf` and every block can be written in the shared array.

## Findings

Each of these is a lemma about a concrete stream, and each has its exact condition for all streams.

* **A zero at the end of the code lengths is lost** (partial/libz_j/trees.c:213-219).  The guard entry after the
  last code length is 0 here, so a run of zeros at the end is never sent unless it fills instructions of 138.
  `Examples.TrailingZeroLost`: a valid stream that comes back one byte shorter.  Condition:
  `RunLength.SendTreeExpands`.
* **Length 258 spelled as symbol 284** with all extra bits set comes back as symbol 285
  (partial/libz_j/trees.c:412-414).  `Examples.LongSpellingLost`; condition `RoundTrip.TokensExact`.
* **Padding that is not zero** is replaced by zeros, in front of a stored block (`Examples.PaddingLost`,
  condition `Exactness.StoredExactly`) and after the last block (`Examples.LastBitsLost`).
* **A full symbol buffer** makes the encoder return without saving its registers
  (partial/libz_j/deflate.c:1023 and 1029).  `Examples.TooManySymbols`; condition `Transcode.SymsReadBack`.
* **The overlay of the two buffers is unsafe for large blocks.**  The argument in partial/libz_j/deflate.c:121-155
  is about a buffer that fills at 16383 symbols; this fork admits 65531.  Any fixed-code block of up to 18725
  symbols, any block of up to 5272 symbols and any number of tokens of up to 24 bits are safe (`Overlay.FixedFits`,
  `Overlay.AnyFits`, `Overlay.LightFits`); a block of 18728 longest matches is not (`Overlay.LongestSafe`,
  `Examples.Overrun`).  A stored block of more than 16379 bytes is copied with `memcpy` between overlapping regions
  (`Examples.StoredOverrun`).  The condition for all blocks, as sums of code lengths: `Overlay.RoomExactly`.
* **Two wrongs can make a right.**  `Examples.CancelsCovered` and `Examples.CancelsUncovered` are blocks that are
  not canonical and still come back bit for bit, because two differences cancel.  This is why
  `Exactness.DynamicExactly` has a side condition; `Exactness.DynamicCovered` says exactly what happens beyond it.

## Model

| member | source | states |
|---|---|---|
| Drivers.DecodeThenEncode | partial/encode_docker.cpp:67-106 | a valid manageable stream that goes through both machines, each with its input cut up and its output buffer sized in any way, comes back if it is canonical, and if the rewritten blocks can be read again then only if it is |
| Rereading.StreamExactly | partial/libz_j/deflate.c:750-1082 | the encoder's output on the decoder's output is the original stream if and only if the stream is canonical and ends in zero bits |
| RoundTrip.EncodeDecode | partial/libz_j/inflate.c:652-1120 | on every valid stream the decoder writes the instruction stream and stops where the stream ends; on manageable ones the encoder reads all of it and writes the blocks anew, and on canonical ones that is the original |
| RoundTrip.StreamRecoded | partial/libz_j/deflate.c:750-1082 | for any number of blocks of any kind the encoder consumes exactly the instruction stream and what it writes depends on the blocks alone |
| Exactness.StoredExactly | partial/libz_j/trees.c:313-332 | a stored block comes back if and only if its padding is zero |
| Exactness.FixedExactly | partial/libz_j/trees.c:368-371 | a fixed-code block comes back if and only if no match of length 258 is spelled as symbol 284 |
| Exactness.DynamicExactly | partial/libz_j/trees.c:372-378 | a dynamic block comes back if and only if it is canonical, unless a dropped zero and a longer match can make up for each other |
| Exactness.DynamicCovered | partial/libz_j/trees.c:200-245 | whenever the code-length code covers what send_tree sends, a dynamic block comes back if and only if it is canonical or the longer matches spell exactly the instructions that were dropped |
| Examples.TrailingZeroLost | partial/libz_j/trees.c:213-219 | a concrete valid stream with one unused distance code comes back one byte shorter |
| Examples.LongSpellingLost | partial/libz_j/trees.c:412-414 | a concrete valid stream with length 258 as symbol 284 does not come back |
| Examples.UsualSpellingKept | partial/libz_j/trees.c:394-438 | a concrete stream that meets every condition of the round trip, and comes back |
| Examples.PaddingLost | partial/libz_j/trees.c:319-320 | a concrete valid stream with non-zero padding does not come back |
| Examples.LastBitsLost | partial/libz_j/trees.c:386-388 | a canonical block followed by bits that are not zero up to the byte boundary does not come back |
| Examples.TooManySymbols | partial/libz_j/deflate.c:1026-1029 | a block of 65532 literals ends the encoder with its symbol buffer full and nothing written |
| Examples.Overrun | partial/libz_j/trees.c:435-436 | a valid stream of 18728 matches would be written over symbols that have not been read |
| Examples.StoredOverrun | partial/libz_j/trees.c:323-324 | every stored block of more than 16379 bytes would be copied between overlapping regions |
| Examples.CancelsCovered | partial/libz_j/trees.c:213-219 | a block that is not canonical, with a header send_tree can code, and that comes back |
| Examples.CancelsUncovered | partial/libz_j/trees.c:236-237 | a block whose header needs a symbol that has no code, and that comes back |
| Wire.StoredAndDynamic | partial/libz_j/inflate.c:652-1120 | 27 literal bytes, a stored and a dynamic block: the literal bytes the decoder writes for them, and that the encoder writes the 27 bytes for those |
| Wire.FixedStream | partial/libz_j/inflate.c:918-1044 | the same for 8 literal bytes, a block with the fixed codes |
| Grammar.StreamRead | partial/libz_j/inflate.c:652-1120 | a byte string is read as these blocks if and only if it consists of their bits, each block is as RFC 1951 allows it and only the last one is marked; the RFC's conditions, all but the one that distances stay within the output, are stated without the reader and its tables |
| Grammar.HeaderRead | partial/libz_j/inflate.c:754-907 | a dynamic header is read exactly where there is one: at most 286 and 30 codes, complete codes or single one-bit codes, a code for the end of the block, and instructions that give exactly the declared number of lengths |
| Grammar.ClOrder | partial/libz_j/inflate.c:417-418 | which place in the header each length of the code-length code comes from |
| TableSpace.AcceptsExactly | partial/libz_j/inftrees.h:30-50 | of all lengths a block can declare the table builder accepts exactly those with no codes, with Kraft sum 1, and with one code of one bit (not for code lengths): 852 and 592 entries always suffice |
| TableSpace.SpaceBound | partial/libz_j/inftrees.c:242-281 | all tables of a complete code take at most the root table, one entry for each long code, and 2^c - c - 1 for the c bits by which the longest code exceeds the root index |
| DecoderSpec.EmitStreamRead | partial/libz_j/inflate.c:652-1120 | the decoder finishes exactly on the valid streams, having written their instruction stream; it waits exactly on the truncated ones and fails on the others |
| Transcode.SymsReadBack | partial/libz_j/deflate.c:967-1031 | the instruction stream has one reading: the parser recovers the symbols of every block, consumes exactly through the end mark, and fails exactly when sym_buf is full |
| Transcode.BlockReads | partial/libz_j/deflate.c:960-1081 | the encoder reads a block's instructions back and writes the block anew; it gives up exactly on too many symbols and is undefined exactly when the block has no room (Overlay.RoomExactly says when that is) |
| Inflate.Inflater.Inflate | partial/libz_j/inflate.c:397-1148 | one call of j_inflate: written output and what is still to come stay the same for any input and any space, and the call returns only when the space is full, the input is used up, or the stream has ended; the result is Z_STREAM_END, with exactly the bytes of the stream read, Z_DATA_ERROR, Z_BUF_ERROR if and only if nothing was read or written, and otherwise Z_OK |
| Inflate.Inflater.CaseFast | partial/libz_j/inflate.c:919-925 | switching to inflate_fast changes nothing about the output |
| InfFast.InflateFast | partial/libz_j/inffast.c:98-321 | the fast path writes what the slow path writes and hands back its unread bytes, for every input and every table that was built |
| Drivers.Decompress | partial/decode_docker.cpp:114-160 | the decoder's whole output is the one the definition gives, however the input is cut up and whatever the output buffer holds, it fails exactly on invalid data, and at the end of the stream the unread input is exactly what follows the stream |
| Deflate.Deflater.Deflate | partial/libz_j/deflate.c:325-373 | one call of j_deflate: what is sent and what is still to come stay the same, output is only added to, and the call returns only when the space is used up, the input is used up, or the stream has ended; without input it does nothing exactly when there is nothing to do; at the end exactly the bytes that stand for the stream have been read |
| Deflate.Deflater.DeflateMy | partial/libz_j/deflate.c:683-1093 | the mode switch, resumable anywhere, for any input and space; it ends without its place exactly when sym_buf is full |
| Deflate.Deflater.FlushPending | partial/libz_j/deflate.c:303-323 | bytes move from the queue to the output, in order and each once, and a bit buffer that was flushed before puts nothing |
| Deflate.Deflater.InOrder | partial/libz_j/deflate.c:303-323 | at any moment of any run the bytes handed out are the first bits sent, those pending come next, and fewer than eight bits are left over |
| Deflate.Deflater.WriteBlock | partial/libz_j/deflate.c:1074-1081 | a block is put only into the empty queue, and exactly its bits are sent |
| Drivers.Compress | partial/encode_docker.cpp:45-113 | the encoder's whole output is the one the definition gives, however the input is cut up and whatever the size of the output buffer; it reports bad data, and loses its place, exactly when the definition says so; at the end the unread input is exactly what follows |
| InfTrees.InflateTable | partial/libz_j/inftrees.c:17-299 | both table builders: accepts exactly the codes with room, complete or a single one-bit code, that need no more than ENOUGH entries (TableSpace.AcceptsExactly: none is lost to that); every look-up in the two-level table gives the symbol of the canonical code and its length; the encoder's tree holds the reversed canonical codes |
| TableLemmas.RevIncrCode | partial/libz_j/deflate.c:612-622 | the backwards increment of a reversed code is the reversal of the next code |
| TableLemmas.LongerCode | partial/libz_j/inftrees.c:244-249 | a reversed code is unchanged when its length grows and its value is shifted |
| Huffman.PrefixFree | partial/libz_j/inftrees.c:114-123 | in a code with room no code is a prefix of another |
| Huffman.DecodeCode | partial/libz_j/inflate.c:927-948 | decoding finds the symbol whose code was written, whatever follows |
| BitReading.BitReader.Lookup | partial/libz_j/inflate.c:927-948 | the two look-up loops find the next symbol with the fewest bytes pulled, or all input is used and it is not complete |
| HeaderReading.HeaderReader.CodeLengths | partial/libz_j/inflate.c:801-851 | resumable reading of the code lengths gives the header the definition reads, and the recorded bits are exactly those of the header, at most 7 for each length |
| FormatLemmas.HeaderAgain | partial/libz_j/deflate.c:833-959 | the encoder reads back from the recorded bits the header the decoder has read |
| RunLength.SendTreeExpands | partial/libz_j/trees.c:200-245 | the instructions of send_tree expand to the lengths without the last TrailingZeros mod 138 zeros, and so to the lengths themselves if and only if that is none |
| Trees.SendTree | partial/libz_j/trees.c:200-245 | the counting loop writes exactly the run-length code |
| Trees.SendAllTrees | partial/libz_j/trees.c:285-308 | writes exactly the header with its code lengths coded afresh |
| Trees.CompressBlock | partial/libz_j/trees.c:394-438 | with the symbols in the buffer that is written to, writes exactly their tokens and the end of the block, and reads each symbol when the writer is exactly where the overlay condition says |
| Trees.StoredBlock | partial/libz_j/trees.c:313-332 | writes the header, the padding, the lengths and the bytes of a stored block |
| Trees.FlushBlock | partial/libz_j/trees.c:359-389 | writes exactly the block, and after the last one zero bits up to a byte boundary |
| Overlay.RoomExactly | partial/libz_j/trees.c:405-436 | a block can be written if and only if, before each symbol is read, the bits so far, a sum of code lengths and extra bits, are within what the symbols read have made free; a stored block if and only if it has at most 16379 bytes (16378 when six or seven bits are carried) |
| Overlay.LightFits | partial/libz_j/deflate.c:121-155 | tokens of at most 24 bits are safe in any number, after any header |
| Overlay.FixedFits | partial/libz_j/deflate.c:121-155 | a fixed-code block of at most 18725 symbols never overwrites an unread symbol |
| Overlay.AnyFits | partial/libz_j/deflate.c:121-155 | nor does any block of at most 5272 symbols |
| Overlay.LongestSafe | partial/libz_j/deflate.c:161-171 | a block of longest matches is safe if and only if it has at most 18727 of them (18725 when three or more bits are carried) |
| Overlay.RoomFollows | partial/libz_j/deflate.c:156-159 | a block that stays behind its symbols fits into pending_buf |
| Overlay.OrdinaryManageable | partial/libz_j/deflate.c:161-171 | streams of blocks within those sizes, and of light blocks that do not fill sym_buf, are manageable |
| LengthCodes.CanonKeeps | partial/libz_j/trees.c:406-431 | a token that went through the instruction stream comes back as it was, unless it is the other spelling of length 258 |
| LengthCodes.LengthCodeRange | partial/libz_j/trees.h:102-121 | the length code of a match is the one whose range of section 3.2.5 of RFC 1951 holds the length |
| LengthCodes.DistCodeRange | partial/libz_j/trees.h:73-128 | the distance code of a match is the one whose range holds the distance |
| RoundTrip.TokensExact | partial/libz_j/trees.c:394-438 | for any code in use the tokens of a block come back bit for bit if and only if length 258 is never spelled as symbol 284 |
| FormatLemmas.ToksRead | partial/libz_j/inflate.c:918-1044 | the bits of any coded token list decode to that list and stop at the end of the block |
| FixedCode.FixedAccepted | partial/libz_j/inflate.c:163-170 | the fixed codes of section 3.2.6 of RFC 1951 are complete and the table builder accepts them |
| BitWriting.BitWriter.SendBits | partial/libz_j/trees.c:134-148 | appends exactly the given bits through the 16-bit buffer, and leaves every byte beyond the write position alone |
| BitWriting.BitWriter.Windup | partial/libz_j/trees.c:477-490 | fills up with zero bits: the queue is the written bits packed into bytes |
| BitWriting.BitWriter.Flush | partial/libz_j/trees.c:460-472 | moves whole bytes out of the bit buffer; changes nothing about what has been written |

## Left out

- Wrapped streams: the zlib and gzip headers and trailers of both machines (`wrap != 0`), dictionaries, and the walk over the gzip header in the tools.
- Distances that reach back before the start of the output: the decoder keeps no output and does not check them.
- File input and output, allocation, stream validity checks, tracing and byte counts.
- The flush modes Z_BLOCK and Z_TREES, which the tools do not use.
- Return codes: of the results of `j_deflate` only Z_DATA_ERROR is modelled; whether the others are Z_OK, Z_BUF_ERROR or Z_STREAM_END depends on an uninitialised variable (partial/libz_j/deflate.c:1088), and the tool acts on none of them.
- Uninitialised fields: `last`, `hold` and `bits` of the encoder are taken to be 0 at the start; its initialisation does not set them.
- The fixed tables: inflate.c takes them from the constants in partial/libz_j/inffixed.h and trees.c from partial/libz_j/trees.h; here `InflateTable` builds both from the code lengths of section 3.2.6 of RFC 1951.
- Table space: both code tables and the work areas are results of `InflateTable`, not slices of one array; the bound on the entries used is checked as in the source.
- Drivers.Compress: does not say what happens when a block has symbols or distances outside the tables, or is written over its own symbols, which is undefined in the source; and it stops where the source goes on from registers it has not saved.
- Rereading.StreamExactly: the converse is for streams whose rewritten blocks can be read again; where a zero is lost or a symbol has no code, single blocks can come back without being canonical.
- HeaderReading.HeaderReader.CodeLengths: the code tables for literals and distances are built by the callers, each its own way.
- LZ4, CRC-32, Adler-32 and the xxHash functions are separate algorithms the transcoder on raw data does not call.
- The stock parts of zlib that the tools never reach: matching, tree construction from frequencies, and the dictionary.
