# Compression and the Redis protocol, verified

A Dafny model of two libraries the repository carries: zlib 1.2.3 (`3rd/zip`) and
hiredis (`3rd/hiredis`).  `dafny verify dfyconfig.toml` checks all of it.

The largest results are about whole systems:

* **deflate and inflate undo each other.**  The compressor is modelled from the match
  finder and its hash chains, through the lazy and the fast loop, the Huffman trees with
  their length limit, the run-length coded headers and the bit buffer, up to `deflate()`
  with its flush modes, header and check value.  The decompressor is modelled from the
  bit accumulator and the two-level tables, through every mode of `inflate()` and
  `inflate_fast`, to the ring window.  `RoundTrip.InflateAfterDeflate` joins them.  It has
  one condition, on the memory that output and tokens share; what is known about it comes
  first under "What the proofs found".
* **inflate accepts exactly the format.**  `DeflateFormat` writes RFC 1951 and RFC 1950 down as
  a grammar of bit strings with what they stand for; only which sets of lengths make a code is
  the rule of `inflate_table`.  `Uncompress.EndsExactly` says that inflate comes to
  Z_STREAM_END if and only if its input starts with such a stream, in whatever calls.
* **The incremental RESP reader is a recursive-descent parser.**  The reader's stack of
  nine tasks can stop after any byte; `RespReader.ReadChunks` says that what a client gets
  depends on the bytes only, and is what the parser gives on the whole stream;
  `RespGrammar.ReadsExactly` and `RespGrammar.RefusesExactly` say what that is.

## How the files fit together

| part | files |
|---|---|
| bits, exclusive or, checksums | Bits, ExclusiveOr, AdlerSpec, Adler, CrcSpec, Crc |
| Huffman codes and decoding tables | Canonical, InflateTable, Enough |
| inflate: reference machine | InflateMachine |
| inflate: the code | InflateState, InflateModes, InflateCodes, InflateDecode, InflateFast, InflateStream |
| trees.c: building codes | HuffmanHeap, HuffmanTree, CodeSums, TreeList, BitLengths, HuffmanCodes, TreeTables, TreeBuilder |
| trees.c: these codes are the cheapest | HuffmanBest, HuffmanBags, TreeBest, CodeUnique |
| trees.c: sending blocks | BitWriter, Tokens, TokensUnique, CodeLengths, HeaderRuns, BlockCost, Overlay, BlockEncoder |
| where the shared memory works and where not | OverlaySafe, OverlayBreaks, DefaultCounts, DefaultBlock, DefaultTokens, DefaultCodes, DefaultHeader, DefaultBreaks |
| inputs that lead there | ForcedParse, DeflateRuns, FixedInput, FixedRun, DefaultInput, DefaultRun |
| what the decoder makes of sent blocks | BlockDecode, HeaderDecode, StreamDecode |
| deflate: matches and tokens | RollingHash, Matcher, Lz77, LazyParse, Deflate |
| deflate: blocks, streams and their history | DeflateBlocks, DeflateTrace, FlushPoints, DeflateStream |
| the formats, and that inflate reads exactly them | DeflateFormat, FormatRead, FormatHeader, FormatStream, FormatRun, Uncompress |
| both together | RoundTrip |
| hiredis | RespSpec, RespReader, RespFormat, RespGrammar, Quoting, Spelling, AsyncSpec, AsyncTrace, Async, Dict |

The decoder is proved against `InflateMachine.Step`, a machine over a string of bits that
knows neither calls nor buffers nor tables: one transition for each decision of the
deflate format (sections 3.1 and 3.2 of RFC 1951, section 2.2 of RFC 1950).  Every mode of
the code, and `inflate_fast`, is shown to follow its transitions; determinism of the
machine then gives independence of the calls, and running it on encoded streams gives the
round trip.  The encoder is proved against the same bit strings.

## What the proofs found

* **The overlay of `pending_buf` with `d_buf` and `l_buf` does not always work.**  The
  comment at deflate.c:232 says it does because a match takes at most 24 bits on average,
  and trees.c:1111 asserts it in debug builds.  `Overlay.CompressBlock` gives the exact
  condition for a block: it is sent right if and only if no entry is overwritten by another
  value before it is read; such a block is called clear.  The round trip holds for streams
  of clear blocks.
  * Always clear: level 0, Z_HUFFMAN_ONLY, Z_RLE with memLevel 4 or more, Z_FIXED with
    windowBits 8 or 9 (`OverlaySafe.HarmlessClear`, `RoundTrip.CleanAlways`).
  * Z_FIXED is not always clear with any larger window, whatever memLevel:
    `FixedRun.FixedLoss` gives an input for which the stream that `deflate` makes ends with a
    token lost.  The input repeats blocks of 132 bytes, in every other round with neighbours
    exchanged, so that at level 9 the match finder has no choice: each block is a match at
    one of two distances, which takes 25 bits or more in the fixed codes, with no eight of
    them zero in a row.
  * The default strategy is not always clear with memLevel 1: `DefaultRun.DefaultLoss` gives
    an input that has to be cut into 96 matches and 31 literals.  Their symbols
    are spread so that the fixed codes are shorter than the best codes of the block with
    their header, and overtake the entries where the matches end.  That no other codes are
    shorter needs Huffman's theorem (`HuffmanBest.Best`), the uniqueness of the code and a
    bound on all headers.
  * Not decided here: the default strategy with more memory, Z_FILTERED, and Z_RLE with
    less.  The condition on each block is the same and exact.
* `adler32_combine` is the checksum of the concatenation if and only if two sums that the
  caller can form from its arguments are not 0 (`Adler.CombineExact`); for two empty
  buffers it is not (`Adler.CombineEmpty`).  `adler32` goes on from its result all the same
  (`Adler.CombineContinues`).
* `adler32` takes any start value, but adds a single byte with one subtraction only, which
  leaves the high half unreduced in just the cases that `Adler.Adler32` names.
* `inflate_table` lets a dynamic block pass whose code for the lengths has no symbols; its
  lengths are then all read as 0, and the block is refused at its first symbol
  (`FormatHeader.NoLengths`).
* In sdssplitargs a word in apostrophes cannot end with a backslash, and a vertical tab or form
  feed separates words only at the start of one or behind a quote (`Spelling.SplitsExactly`,
  `Spelling.ApostrophesExactly`).
* The space that `inflate_table` checks for at inftrees.c:280 is always there
  (`Enough.AlwaysRoomy`); the source notes that this was not known.
* `inflate_fast` expects fewer than 8 bits on entry (inffast.c:287).  It may be entered
  with more, after a call that stopped inside a code; the bytes it gives back are still
  bytes of the current call (`InflateFast.Fast`).

## Model

| member | source | states |
|---|---|---|
| RoundTrip.InflateAfterDeflate | 3rd/zip/deflate.c:552-856 | decompressing a finished stream gives back the input and ends without error, for every level 0 to 9, window size, memory level and strategy, with or without the zlib wrapper, every cut of input and output of both sides into calls and every flush on the way; the parameters are those of CleanAlways, or every block was clear when it was sent |
| RoundTrip.CleanAlways | 3rd/zip/deflate.c:231-234 | for the parameters of deflateInit2, level 0, Z_HUFFMAN_ONLY, Z_RLE from memLevel 4 on, or Z_FIXED with windowBits up to 9: at every moment of every run all blocks so far were clear, so that the round trip needs no condition |
| RoundTrip.InflateOnTheWay | 3rd/zip/inflate.c:554-1153 | fed any part of such a stream, in any calls, inflate has written a prefix of the input and reports no error |
| RoundTrip.InflateAfterSync | 3rd/zip/deflate.c:808-824 | after a completed Z_SYNC_FLUSH or Z_FULL_FLUSH the output so far, all blocks clear, decompresses to all the input so far |
| RoundTrip.InflateAfterPartial | 3rd/zip/deflate.c:809-810 | after a completed Z_PARTIAL_FLUSH, all blocks clear, the output so far decompresses to all the input so far, although up to 7 bits are held back |
| RoundTrip.InflateFromFlush | 3rd/zip/deflate.c:811-818 | a raw inflate started at a completed Z_FULL_FLUSH of a finished stream, all blocks clear, gives exactly the input since that flush, for every full flush of the run and every cut into calls |
| RoundTrip.FlushForgets | 3rd/zip/deflate.c:816-818 | at every moment of every run the blocks sent since any full flush are legal from an empty history and stand for the input since then: no token reaches in front of the flush |
| RoundTrip.StreamIs | 3rd/zip/deflate.c:624-649 | the bits of a finished stream, all blocks clear, are header, blocks, padding and check value, and the blocks stand for the whole input |
| StreamDecode.StreamRun | 3rd/zip/inflate.c:589-1119 | the decoder reads any encoded stream to its end, writes what the blocks stand for and leaves what follows unread |
| FormatStream.StreamOf | 3rd/zip/inflate.c:589-1119 | the converse for all inputs: if the machine ends without error, the bits it took are a stream of the format as DeflateFormat defines it, with header, blocks, padding and, in a zlib stream, the Adler-32 of the output, and the output is what the stream stands for |
| FormatRun.StreamRun | 3rd/zip/inflate.c:589-1119 | every stream of the format, from whatever encoder and with any padding bits, is read to its end, to what it stands for, and what follows stays unread |
| FormatRead.StoredOf | 3rd/zip/inflate.c:807-836 | a stored block that is read has a length with its complement and that many bytes behind a byte boundary |
| FormatRead.BodyOf | 3rd/zip/inflate.c:950-1076 | the symbols of a block that is read are literals and copies of the format up to the end-of-block symbol, and no copy reaches in front of the output |
| FormatHeader.HeaderOf | 3rd/zip/inflate.c:837-949 | the header of a dynamic block that is read is one of the format: counts in range, a complete code for the lengths, lengths that neither start with a repetition nor run over, and two codes that inflate_table accepts |
| FormatHeader.NoLengths | 3rd/zip/inflate.c:855-923 | a dynamic block without any code for its lengths, which inflate_table lets pass, is never read to its end |
| FormatStream.HeaderIs | 3rd/zip/inflate.c:606-631 | the tests on the first two bytes are those of section 2.2 of RFC 1950: multiple of 31, method 8, window of at most 32K, and the dictionary flag |
| DeflateFormat.LengthTable | 3rd/zip/inftrees.c:60-65 | lbase and lext hold the lengths of section 3.2.5 of RFC 1951, given by a formula |
| DeflateFormat.DistanceTable | 3rd/zip/inftrees.c:66-73 | dbase and dext hold the distances of section 3.2.5 of RFC 1951, given by a formula |
| DeflateFormat.OrderTable | 3rd/zip/inflate.c:574-575 | the order of the code length code is 16, 17, 18, 0 and then from 8 to both sides |
| Uncompress.EndIsStream | 3rd/zip/inflate.c:1077-1119 | a decoder that reports Z_STREAM_END has consumed a stream of the format and written what it stands for; the last four bytes of a zlib stream, high byte first, are the Adler-32 of the output |
| Uncompress.EndsExactly | 3rd/zip/inflate.c:554-1153 | a decoder that is done with its input has come to Z_STREAM_END if and only if the input starts with a stream of the format; the output is what that stream stands for |
| Uncompress.Uncompress | 3rd/zip/uncompr.c:26-61 | uncompress gives Z_OK if and only if the source starts with a zlib stream whose output fits the room, with that output; if it does not fit the answer is Z_BUF_ERROR, and that answer is given only with the room full |
| InflateStream.ChunkIndependence | 3rd/zip/inflate.c:554-1153 | two decoders that finish the same input have the same output and the same verdict, however input and output space were cut into calls |
| InflateStream.PrefixAgreement | 3rd/zip/inflate.c:554-1153 | two decoders fed parts of the same input: the output of one is a prefix of the other's |
| InflateStream.RunsEndAlike | 3rd/zip/inflate.c:473-552 | two runs of the reference machine that end on the same input end with the same mode, output and input left over |
| InflateStream.Inflater.Inflate | 3rd/zip/inflate.c:554-1153 | a call consumes and writes along the reference machine's transitions, stops only when input is used up, output is full or the stream has ended, and reports the right code; what that means for the stream is Uncompress.EndsExactly |
| InflateStream.Inflater.constructor | 3rd/zip/inflate.c:144-185 | a new decoder is the reference machine at its start |
| InflateStream.RunOf | 3rd/zip/inflate.c:554-1153 | whatever calls were made, the decoder's state is one the reference machine reaches from the start on the bytes consumed, with the bytes written as its output |
| InflateStream.Loop | 3rd/zip/inflate.c:587-1126 | the mode loop keeps the correspondence with the reference machine and stops only where the machine cannot go on, or output is full |
| InflateStream.UpdateWindow | 3rd/zip/inflate.c:323-371 | the ring keeps holding the last bytes of the output, wrap-around and first allocation included |
| InflateStream.Leave | 3rd/zip/inflate.c:1133-1152 | leaving a call updates the window so that the ring invariant holds for the output so far |
| InflateState.RingAppend | 3rd/zip/inflate.c:354-368 | writing into the ring without wrapping extends the history it holds |
| InflateState.RingWrap | 3rd/zip/inflate.c:355-363 | writing across the end of the ring keeps the history it holds |
| InflateState.NeedBits | 3rd/zip/inflate.c:433-448 | bytes go into the accumulator so that accumulator and unread input are the same bit string as before |
| InflateState.PullByte | 3rd/zip/inflate.c:433-440 | one byte more in the accumulator, one less in the input |
| InflateMachine.StepMono | 3rd/zip/inflate.c:473-552 | a transition taken on some input is taken alike when more input follows |
| InflateMachine.StepOk | 3rd/zip/inflate.c:587-1126 | every transition keeps the machine's invariant: table space, lengths, extra bits and distances in range |
| InflateMachine.TableIsRef | 3rd/zip/inftrees.c:216-324 | a lookup in the built tables decodes exactly the code that a bit string starts with |
| InflateMachine.EncoderAgrees | 3rd/zip/inftrees.c:216-324 | the code that gen_codes gives a symbol, whatever bits follow, is looked up to that symbol and exactly its length is used, through root table and sub-tables |
| InflateMachine.NothingLeft | 3rd/zip/inftrees.c:216-324 | with a complete code every bit string is looked up to a symbol |
| InflateMachine.FixedComplete | 3rd/zip/inflate.c:205-246 | the fixed literal/length and distance codes are complete |
| InflateModes.DoHead | 3rd/zip/inflate.c:589-632 | the zlib header is checked as the machine does |
| InflateModes.DoDictId | 3rd/zip/inflate.c:761-772 | the dictionary id is read and the stream waits |
| InflateModes.DoType | 3rd/zip/inflate.c:773-806 | block type, or the end of the stream at a byte boundary |
| InflateModes.DoStored | 3rd/zip/inflate.c:807-819 | length and complement of a stored block |
| InflateModes.DoCopy | 3rd/zip/inflate.c:820-836 | stored bytes are copied as far as input and output allow |
| InflateModes.DoTable | 3rd/zip/inflate.c:837-854 | the three counts of a dynamic block, with their limits |
| InflateCodes.DoLenLens | 3rd/zip/inflate.c:855-875 | the code length code in its permuted order, and its table |
| InflateCodes.ReadCodeLen | 3rd/zip/inflate.c:876-923 | one symbol of the code lengths with its repeat, resumable after any bit |
| InflateCodes.DoCodeLens | 3rd/zip/inflate.c:876-949 | all code lengths, then both tables, or the error the machine finds |
| InflateCodes.SlowDecode | 3rd/zip/inflate.c:957-972 | the two-level lookup loop finds the code's entry as soon as its bits are there, and reads no more than needed |
| InflateDecode.DoLen | 3rd/zip/inflate.c:950-992 | literal, length, end of block or invalid code |
| InflateDecode.DoLenExt | 3rd/zip/inflate.c:993-1000 | extra bits of a length |
| InflateDecode.DoDist | 3rd/zip/inflate.c:1001-1025 | the distance code |
| InflateDecode.DoDistExt | 3rd/zip/inflate.c:1026-1045 | extra bits of a distance, and the check against the bytes there are |
| InflateDecode.DoMatch | 3rd/zip/inflate.c:1046-1070 | a match copied from window or output is the copy from the full history |
| InflateDecode.DoLit | 3rd/zip/inflate.c:1071-1076 | a literal |
| InflateDecode.DoCheck | 3rd/zip/inflate.c:1077-1099 | the check value must be the Adler-32 of all output |
| InflateFast.Fast | 3rd/zip/inffast.c:67-302 | inflate_fast goes from a state of the slow path to a state of the slow path along the same transitions, gives back whole unused bytes and leaves fewer than 8 bits |
| InflateFast.FastStep | 3rd/zip/inffast.c:120-285 | one iteration reads at most 6 bytes, writes at most 258, and is a run of the slow path |
| InflateFast.FastCopy | 3rd/zip/inffast.c:186-259 | the copies from window, wrapped window and output are byte by byte copies at the distance, overlaps included |
| InflateFast.LeaveFast | 3rd/zip/inffast.c:287-302 | returning unused bytes to the input leaves the same unread bits |
| InflateTable.BuildTable | 3rd/zip/inftrees.c:32-329 | the table is refused exactly for over-subscribed or not permitted incomplete lengths; otherwise it decodes every code of the canonical code and marks every other bit string invalid |
| InflateTable.SubTableBits | 3rd/zip/inftrees.c:268-276 | a sub-table is as large as the codes that share its root slot need |
| InflateTable.BackwardIncrement | 3rd/zip/inftrees.c:241-250 | the backwards increment goes to the next code, bit-reversed |
| InflateTable.SortSymbols | 3rd/zip/inftrees.c:140-147 | symbols sorted by length, and by value within a length |
| InflateTable.SpaceLeft | 3rd/zip/inftrees.c:130-139 | the running count of free codes is negative at some length exactly for an over-subscribed code |
| Enough.AlwaysRoomy | 3rd/zip/inftrees.c:278-281 | ENOUGH is enough: no accepted code of up to 288 literal/length symbols with a 9-bit root runs out of table space |
| Canonical.PrefixFree | 3rd/zip/trees.c:569-609 | no bit string starts with the codes of two symbols |
| Canonical.Covered | 3rd/zip/inftrees.c:130-139 | in a complete code every bit string starts with a code |
| Canonical.LastCodeAllOnes | 3rd/zip/trees.c:590-597 | the last code is all ones exactly if the lengths are complete |
| Adler.Adler32 | 3rd/zip/adler32.c:57-125 | the unrolled loops with deferred modulo give the byte by byte definition for every buffer and every start value, whose halves are reduced, if and only if the one subtraction for a single byte is enough; if not, the high half is 65521 too large |
| Adler.NmaxIsTight | 3rd/zip/adler32.c:11-13 | NMAX is the largest block for which no sum exceeds 32 bits |
| Adler.Accumulate | 3rd/zip/adler32.c:15-19 | within a block the sums stay below 2^32 |
| Adler.CombineSound | 3rd/zip/adler32.c:128-149 | adler32_combine gives the checksum of the concatenation in each half, with 65521 in place of 0 |
| Adler.CombineExact | 3rd/zip/adler32.c:128-149 | adler32_combine equals the checksum of the concatenation if and only if two sums of the halves of adler1 and adler2 and of len2 are not 0 modulo 65521 |
| Adler.CombineContinues | 3rd/zip/adler32.c:57-149 | adler32 goes on from the combined value as from the checksum of the concatenation, also where they differ |
| Adler.CombineEmpty | 3rd/zip/adler32.c:128-149 | two empty buffers: the combination is not their checksum |
| Crc.Crc32 | 3rd/zip/crc32.c:219-251 | the table-driven byte loop equals the bit-serial CRC |
| Crc.Crc32Little | 3rd/zip/crc32.c:262-293 | the little-endian word loop equals the bit-serial CRC for every buffer and alignment |
| Crc.Crc32Big | 3rd/zip/crc32.c:302-335 | the byte-reversed big-endian word loop equals the bit-serial CRC for every buffer and alignment |
| Crc.MakeTables | 3rd/zip/crc32.c:106-148 | the eight tables hold every byte followed by zero to three zero bytes, and the same byte-reversed |
| Crc.MakePattern | 3rd/zip/crc32.c:112-124 | the pattern or-ed together from the terms 0, 1, 2, 4, 5, 7, 8, 10, 11, 12, 16, 22, 23 and 26 of the polynomial is 0xedb88320 |
| CrcSpec.PolyIsPattern | 3rd/zip/crc32.c:112-124 | 0xedb88320 is the polynomial with those terms below x^32, x^k at bit 31 - k |
| CrcSpec.Complemented | 3rd/zip/crc32.c:242-250 | the exclusive or before and behind the data complements all 32 bits |
| Crc.Lit4Is | 3rd/zip/crc32.c:256-258 | four table lookups are 32 bit steps |
| Crc.Big4Is | 3rd/zip/crc32.c:296-298 | four lookups in the reversed tables are 32 bit steps on the reversed register |
| Crc.MatrixTimes | 3rd/zip/crc32.c:342-356 | the matrix of a number of zero bits applied to a register makes that many steps |
| Crc.MatrixSquare | 3rd/zip/crc32.c:359-367 | squaring the matrix doubles the zero bits |
| Crc.Crc32Combine | 3rd/zip/crc32.c:370-423 | crc32_combine applies the zero operator of the second length and adds |
| Crc.CombineTwo | 3rd/zip/crc32.c:370-423 | crc32_combine of the check values of two buffers is that of their concatenation |
| CrcSpec.FeedIsSteps | 3rd/zip/crc32.c:80-105 | feeding bytes one by one is adding them as one polynomial and reducing it |
| CrcSpec.CrcAppend | 3rd/zip/crc32.c:370-423 | the CRC of a concatenation from the CRCs of its parts |
| CrcSpec.CrcContinues | 3rd/zip/crc32.c:219-251 | continuing from a check value is taking that of all the data |
| BitWriter.Writer.SendBits | 3rd/zip/trees.c:192-229 | the value's bits are appended, low bit first, across the 16-bit buffer |
| BitWriter.Writer.Flush | 3rd/zip/trees.c:1161-1173 | at most 7 bits stay behind and nothing sent changes |
| BitWriter.Writer.Windup | 3rd/zip/trees.c:1178-1191 | zero bits up to the byte boundary |
| HuffmanCodes.BiReverse | 3rd/zip/trees.c:1146-1156 | the low bits in reverse order |
| HuffmanCodes.GenCodes | 3rd/zip/trees.c:577-609 | the encoder's codes are the canonical codes the decoder's tables are built from |
| TreeTables.StaticInit | 3rd/zip/trees.c:238-316 | length and distance code tables: every length and distance has its code, base and extra bits |
| HuffmanHeap.PqDownHeap | 3rd/zip/trees.c:455-478 | the heap order is restored from k on and the nodes are only permuted |
| HuffmanTree.GrowTree | 3rd/zip/trees.c:664-692 | repeatedly joining the two least frequent nodes gives one tree with every leaf, listed by frequency, whose inner nodes weigh what Huffman's recursion gives, and whose height the total frequency limits |
| HuffmanBest.Best | 3rd/zip/trees.c:664-692 | no prefix code costs less than joining the two least weights again and again |
| TreeBest.TreeCheapest | 3rd/zip/trees.c:664-692 | the code that the tree gives its leaves is as cheap as any prefix code |
| HuffmanTree.ForceTwo | 3rd/zip/trees.c:645-656 | at least two codes of non-zero frequency |
| BitLengths.GenBitlen | 3rd/zip/trees.c:490-567 | lengths up to max_length for exactly the leaves, filling the code space exactly, with the exact cost |
| BitLengths.FirstPass | 3rd/zip/trees.c:507-530 | the lengths the tree gives, clamped, with their counts, cost and the number of nodes clamped |
| BitLengths.CountsFill | 3rd/zip/trees.c:507-530 | after the first pass the overflow is even and twice the excess over the code space |
| BitLengths.MovedSums | 3rd/zip/trees.c:539-541 | moving a leaf down lowers the space taken by exactly one unit and keeps the number of codes |
| BitLengths.MakeFit | 3rd/zip/trees.c:535-546 | each repair lowers the excess by one and keeps the number of codes, until none is left |
| BitLengths.Movable | 3rd/zip/trees.c:535-541 | while there is an excess, a shorter leaf to move exists |
| BitLengths.GiveOut | 3rd/zip/trees.c:548-566 | the corrected lengths are given out to the leaves by frequency, with the cost kept exact |
| TreeBuilder.BuildTree | 3rd/zip/trees.c:619-701 | for any frequencies a complete code with a code for every symbol used, and exactly its cost added to opt_len and static_len; the cheapest of all codes when the frequencies are too small for a length to be cut; frequencies and depths fit their 16 and 8 bits |
| BlockEncoder.BuildLit | 3rd/zip/trees.c:937-940 | the tree of literals and lengths, with the exact costs in both codes, and no field overflows for up to 32767 tokens |
| BlockEncoder.BuildDist | 3rd/zip/trees.c:942-947 | the same for the tree of distances |
| CodeLengths.ScanTree | 3rd/zip/trees.c:707-746 | scan_tree counts exactly the symbols send_tree sends |
| CodeLengths.SendTree | 3rd/zip/trees.c:752-797 | the lengths as runs in the code length code |
| CodeLengths.TreeRoundTrip | 3rd/zip/trees.c:752-797 | the runs mean exactly the lengths they were made from |
| CodeLengths.ItemsAllOk | 3rd/zip/trees.c:775-787 | every repeat count is in its field's range |
| HeaderDecode.TreesRun | 3rd/zip/inflate.c:837-949 | the decoder reads the header of a dynamic block back to the same two codes |
| HeaderDecode.ItemsRun | 3rd/zip/inflate.c:876-923 | the CODELENS loop turns the runs back into the lengths |
| TokensUnique.SameTokens | 3rd/zip/trees.c:1072-1118 | two lists of tokens with the same bits are the same, so that a wrong token is sent as wrong bits |
| Overlay.CompressBlock | 3rd/zip/trees.c:1072-1118 | the tokens are read from the memory that the bits are written to: the bits sent are those of the tokens buffered and of the end of block if and only if no entry of d_buf or l_buf has been overwritten by another value before it is read |
| OverlaySafe.RoomSpares | 3rd/zip/trees.c:1110-1112 | if before each token the bits take no more than the bytes below its entry, and a word that waits, no token is lost |
| OverlaySafe.HarmlessClear | 3rd/zip/deflate.c:231-234 | whatever tokens the match finder buffers, the block chosen for them is clear: without matches, with runs only and a buffer of 1024 or more, or with the fixed codes and distances up to 256 |
| OverlaySafe.StaticClear | 3rd/zip/deflate.c:231-234 | the 24 bits hold for the fixed codes and distances up to 256, so that every such block is clear |
| OverlaySafe.LiteralsClear | 3rd/zip/trees.c:986-997 | a block of literals for which its own codes were the shorter ones is clear for every buffer size |
| OverlaySafe.RunsClear | 3rd/zip/trees.c:986-997 | a block with its own codes and distances of 1 only is clear from memLevel 4 on |
| OverlaySafe.CountsFit | 3rd/zip/trees.c:937-956 | opt_len and static_len of a block of up to 32767 tokens fit 32 bits |
| OverlayBreaks.FixedLoses | 3rd/zip/trees.c:986 | a block of matches of length 132 at any of twelve distances, with a literal behind them that fills the token buffer: with Z_FIXED it is sent in the fixed codes and is not clear, for every buffer size |
| FixedRun.FixedLoss | 3rd/zip/deflate.c:231-234 | Z_FIXED at level 9, for every windowBits from 10 to 15 and every memLevel: a stream that is given a certain input in two calls ends with a token lost; with CleanAlways, windowBits up to 9 is exactly where Z_FIXED never loses one |
| FixedInput.RowIsForced | 3rd/zip/deflate.c:1576-1664 | on that input the match finder has only one string to find at each block, within 4096 of the chain, and the next string has no longer match |
| FixedInput.PieceMatches | 3rd/zip/deflate.c:1027-1168 | each block occurred just once within reach, and what follows it differs |
| DefaultBreaks.DefaultLoses | 3rd/zip/trees.c:986 | memLevel 1: a block of 96 matches with the codes of the tables and 31 literals is sent in the fixed codes, as the shorter ones, and is not clear |
| DefaultRun.DefaultLoss | 3rd/zip/deflate.c:231-234 | the default strategy at level 9 with memLevel 1 and a window of 32K: a stream that is given a certain input in two calls ends with a token lost |
| DefaultInput.RowIsForced | 3rd/zip/deflate.c:1576-1664 | on that input the match finder has to find the 96 matches, one behind the other, and to take them |
| DefaultInput.RowIsCoded | 3rd/zip/trees.c:1022-1067 | their length and distance codes occur just as often as the tables say |
| DefaultInput.NothingAlike | 3rd/zip/deflate.c:1027-1168 | behind them no string begins like an earlier one, so that literals are left |
| DefaultCodes.OwnLensAre | 3rd/zip/trees.c:619-701 | build_tree gives such a block exactly the code lengths of the tables, as no other code is as cheap |
| ForcedParse.WholeRun | 3rd/zip/deflate.c:1554-1674 | the tokens of a call of deflate_slow on an input that leaves it no choice: a row of matches, each the only string in reach and within the effort, and literals behind them |
| DeflateRuns.TwoCalls | 3rd/zip/deflate.c:552-856 | a call with Z_SYNC_FLUSH and one with Z_FINISH, with room enough: the stream is finished, and the searches and blocks of the second call start from an empty token buffer and see every string of the first input |
| DeflateRuns.ForcedBlock | 3rd/zip/deflate.c:1364-1373 | on such an input the first block of the second call holds exactly those tokens, if they fill the buffer |
| CodeUnique.OnlyCode | 3rd/zip/trees.c:619-701 | for frequencies that are multiples of powers of two the cheapest code is unique |
| DefaultHeader.HeaderLeast | 3rd/zip/trees.c:838-862 | no code length code sends the lengths of the block's own codes in fewer than 524 bits with the counts |
| Tokens.SendToken | 3rd/zip/trees.c:1083-1108 | code, extra bits, distance code, extra bits |
| BlockDecode.BlockRun | 3rd/zip/inflate.c:950-1076 | the decoder turns a block's bits back into its tokens and copies, and stops behind the end of block |
| BlockDecode.TokenRun | 3rd/zip/inflate.c:950-1076 | one token through length and distance base tables and extra bits |
| BlockCost.CostIsBits | 3rd/zip/trees.c:527-528 | frequencies times lengths are exactly the bits of the block |
| BlockCost.ItemsCost | 3rd/zip/trees.c:803-831 | the same for the code length symbols |
| BlockEncoder.BuildBlTree | 3rd/zip/trees.c:803-831 | the code length code, its cost with the header's, and the last index sent, with no field overflowing |
| BlockEncoder.BuildCodes | 3rd/zip/trees.c:937-956 | opt_len and static_len are exactly the bits that the two encodings would send |
| BlockEncoder.SendAllTrees | 3rd/zip/trees.c:838-862 | the header of a dynamic block |
| BlockEncoder.StaticTrees | 3rd/zip/trees.c:292-309 | the fixed trees are those the decoder uses |
| BlockEncoder.Encoder.Tally | 3rd/zip/trees.c:1022-1067 | a token is written to d_buf and l_buf in the shared memory, where all the tokens before stay, and its symbols are counted |
| BlockEncoder.Encoder.FlushBlock | 3rd/zip/trees.c:921-1016 | the block stands for exactly its bytes and is the shortest of stored, fixed and own codes as far as the strategy and the bytes at hand allow; if it is clear exactly its bits are sent, and padding if it is the last; last_eob_len is the length of its end-of-block code, or 8 |
| BlockEncoder.Encoder.SendBest | 3rd/zip/trees.c:937-1004 | the bits of the block chosen are sent if and only if it is clear |
| BlockEncoder.Encoder.StoredBlockOnly | 3rd/zip/trees.c:867-879 | a stored block |
| BlockEncoder.Encoder.Align | 3rd/zip/trees.c:892-915 | one or two empty blocks with the fixed codes, so that with the end of the block before at least 9 bits follow its last code, two only if that end has fewer than 5 bits; less than a byte is held back |
| StreamDecode.AnyBlockRun | 3rd/zip/inflate.c:773-1076 | a block of any kind is decoded to what it stands for and nothing beyond it is read |
| RollingHash.ThirdByte | 3rd/zip/deflate.c:1093-1096 | two strings with the same hash and first two bytes have the same third byte, which longest_match does not compare |
| RollingHash.RollsTo | 3rd/zip/deflate.c:164-170 | the rolling hash depends on the last three bytes only |
| RollingHash.KeyEnds | 3rd/zip/deflate.c:164-170 | its low three bits are those of the last byte, whatever hash_bits is |
| Matcher.IsTried | 3rd/zip/deflate.c:1067-1157 | a string in the chains with the same hash, with no more than chain_length others behind it, is among those that longest_match goes through |
| Matcher.SearchedAll | 3rd/zip/deflate.c:1027-1168 | so longest_match finds no shorter a match than any such string within MAX_DIST gives, unless it stops at nice_match |
| LazyParse.MoreInput | 3rd/zip/deflate.c:1576-1664 | the tokens are a function of the searches, and more input does not change those that have been made |
| Matcher.InsertString | 3rd/zip/deflate.c:189-192 | the chains keep linking strings of equal hash, newest first |
| Matcher.SlideOk | 3rd/zip/deflate.c:1290-1326 | sliding the window keeps chains, window and rolling hash right |
| Matcher.FillWindow | 3rd/zip/deflate.c:1266-1358 | the window holds the last bytes of the input and reads until there is enough lookahead or no more input |
| Matcher.LongestMatch | 3rd/zip/deflate.c:1027-1168 | a match longer than the one before is an earlier occurrence within reach on the chain, and ends where the strings differ or the limit is reached; unless it is nice_match long no longer one is on the part of the chain that chain_length and limit allow |
| Matcher.TryString | 3rd/zip/deflate.c:1067-1157 | the string at one place of the chain is skipped only if it cannot be longer, and else measured exactly |
| Matcher.LongestMatchFast | 3rd/zip/deflate.c:1175-1226 | the same for the one candidate tried |
| Lz77.StandsMatch | 3rd/zip/deflate.c:1499-1502 | a match that was found may stand for the bytes it matches, overlaps included |
| Deflate.StandsMatchAt | 3rd/zip/deflate.c:1499-1502 | every match sent has a length of 3 to 258 and a distance of 1 to MAX_DIST, and stands for the next bytes |
| Deflate.FastToken | 3rd/zip/deflate.c:1469-1541 | each round of deflate_fast adds the match that its search found, and a literal only if it found none; the search misses no longer match among the strings it has to see, with Z_RLE no run; the strings of a match are inserted unless it is too long; no token reaches further back than the strategy allows or in front of the last full flush |
| Deflate.SlowToken | 3rd/zip/deflate.c:1576-1664 | each round of deflate_slow adopts the match before, or makes it a literal, or waits, just as the search it made says; the search saw all strings in reach that it had to; the tokens stand for the input up to there |
| DeflateBlocks.FlushBlockOnly | 3rd/zip/deflate.c:1364-1373 | the blocks stand for the input up to strstart, also when the block's bytes have left the window, and the output stays as meant exactly as long as every block is clear |
| DeflateStream.Deflater.constructor | 3rd/zip/deflate.c:216-312 | a new stream, with any windowBits from 8 to 15 (8 becomes 9), the configuration of its level and a token buffer of 64 times 2 to the memLevel |
| DeflateStream.Deflater.DeflateStored | 3rd/zip/deflate.c:1390-1439 | level 0: the block's bytes are still in the window when it is flushed, and all input is sent |
| DeflateStream.Deflater.DeflateFast | 3rd/zip/deflate.c:1448-1546 | the loop over any call: tokens and blocks stand for all the input read, through window slides and block flushes |
| DeflateStream.Deflater.DeflateSlow | 3rd/zip/deflate.c:1554-1674 | the same for lazy matching |
| DeflateStream.Deflater.FlushPending | 3rd/zip/deflate.c:532-549 | as much pending output as there is room for is given out, in order |
| DeflateStream.Deflater.MarkFlush | 3rd/zip/deflate.c:808-819 | the empty blocks that mark a flush; a full flush also empties the chains, and from there on no token may reach in front of it |
| DeflateStream.Deflater.WriteTrailer | 3rd/zip/deflate.c:846-849 | the Adler-32 of all input |
| DeflateStream.Deflater.Deflate | 3rd/zip/deflate.c:552-856 | a call keeps the invariant, reads all input or fills the output, and reports the end of the stream only when all of it has been given out; asked to finish, it goes on unless the output is full; with lazy matching it adds to the history only searches that saw enough input and all strings since the call began, and full blocks but for the last; Z_STREAM_ERROR and Z_BUF_ERROR are returned exactly in the cases named, and a flush for which there was no room can be asked for again; a completed full flush is noted with the input and the output there was |
| RespReader.ReadChunks | 3rd/hiredis/read.c:445-525 | a client that feeds what it receives, chunk by chunk, and takes the replies after each gets the replies and the error of the recursive-descent parser on the whole stream, however the input was cut; what that parser gives is settled by the rows of RespGrammar |
| RespReader.TakeAll | 3rd/hiredis/read.c:477-525 | asking until no reply comes ends, and gives the replies of all that was fed |
| RespGrammar.ReadsExactly | 3rd/hiredis/read.c:215-414 | a reply is read from exactly the texts of a grammar of its own: status and error lines, integers with or without sign, strings by their length, the nil forms, and arrays by their count, nested at most 8 deep |
| RespGrammar.RefusesExactly | 3rd/hiredis/read.c:305-311 | the reader refuses exactly an unknown type byte, or an array inside 8 others, behind whatever complete elements of open arrays |
| RespGrammar.CutShort | 3rd/hiredis/read.c:109-143 | of a reply of which the end is missing nothing is read and nothing is refused, wherever it is cut |
| RespGrammar.MoreInput | 3rd/hiredis/read.c:477-525 | more input changes neither a reply that was read nor a refusal |
| RespGrammar.StreamRead | 3rd/hiredis/read.c:477-525 | replies one behind the other are read in order, up to what is no whole reply |
| RespGrammar.NumeralRead | 3rd/hiredis/read.c:146-177 | a number is its sign and decimal digits up to the first carriage return; with anything else in it, it is -1 |
| RespGrammar.RepliesComeBack | 3rd/hiredis/read.c:215-414 | every list of replies, lines without CR LF and arrays at most 8 deep, comes back from what a server sends for it |
| RespGrammar.ReadReplies | 3rd/hiredis/read.c:445-525 | the same for the reader itself, fed the bytes in any chunks |
| RespReader.Reader.GetReply | 3rd/hiredis/read.c:477-525 | the next reply of the stream, or nothing because the stream so far has none, or the stream's error; the trim of the buffer changes nothing |
| RespReader.Reader.Feed | 3rd/hiredis/read.c:445-475 | bytes are appended unless the reader has failed |
| RespReader.Reader.constructor | 3rd/hiredis/read.c:416-435 | a new reader |
| RespReader.Reader.ProcessItem | 3rd/hiredis/read.c:367-414 | a step leads to a state from which the reply resumes alike, or completes it, or finds the stream wrong, or has to wait |
| RespReader.Reader.MoveToNextTask | 3rd/hiredis/read.c:190-213 | a complete item completes the arrays it is the last of and the stack goes on where the recursive parser does |
| RespReader.Reader.ProcessLineItem | 3rd/hiredis/read.c:215-247 | status, error and integer replies |
| RespReader.Reader.ProcessBulkItem | 3rd/hiredis/read.c:249-300 | strings and nil, only when complete |
| RespReader.Reader.ProcessMultiBulkItem | 3rd/hiredis/read.c:302-365 | array headers: nil, empty, or a new task on the stack |
| RespReader.SeekNewline | 3rd/hiredis/read.c:120-144 | the first CR LF |
| RespReader.ReadLongLong | 3rd/hiredis/read.c:148-173 | the number up to the first CR, or -1 |
| RespFormat.FormatCommandArgv | 3rd/hiredis/hiredis.c:530-566 | exactly the computed number of bytes is written, and they are the command |
| RespFormat.FormatSdsCommandArgv | 3rd/hiredis/hiredis.c:477-519 | the same bytes from the sds formatter |
| RespFormat.TotalLength | 3rd/hiredis/hiredis.c:489-494 | the computed length is that of the command |
| RespFormat.CountDigits | 3rd/hiredis/hiredis.c:193-203 | the number of decimal digits, four at a time |
| RespFormat.Ull2Str | 3rd/hiredis/sds.c:331-357 | the decimal digits, made backwards and turned round in place |
| RespFormat.CommandRead | 3rd/hiredis/read.c:249-365 | a command reads back as one array of its arguments, whatever bytes they hold |
| RespFormat.FormatThenRead | 3rd/hiredis/hiredis.c:530-566 | any number of commands in a row, fed in any chunks, come back one by one |
| Quoting.CatRepr | 3rd/hiredis/sds.c:740-763 | the quoted form of any bytes |
| Quoting.ReprOfText | 3rd/hiredis/sds.c:740-763 | text without quotes, backslashes and control characters is only put between quotes |
| Quoting.ReprIsPrintable | 3rd/hiredis/sds.c:740-763 | what is written is printable, whatever the bytes |
| Quoting.SplitArgs | 3rd/hiredis/sds.c:815-923 | the words of a line, or none if the quotes are wrong, as SplitsExactly settles for every line |
| Quoting.GetWord | 3rd/hiredis/sds.c:824-903 | one word in any mix of quotes, as SplitsExactly settles it |
| Spelling.SplitsExactly | 3rd/hiredis/sds.c:815-923 | a line is split if and only if it is one of a grammar of its own: blanks, and words that are bare, in apostrophes or in quotes, with every way to write a byte; and then into the words that it spells, however they are spelled |
| Spelling.NotClosed | 3rd/hiredis/sds.c:867-888 | quotes or apostrophes not closed before the end give none, behind whatever words |
| Spelling.ClosedTooEarly | 3rd/hiredis/sds.c:859-884 | a closing quote with anything but a blank or the end behind it gives none |
| Spelling.ApostrophesExactly | 3rd/hiredis/sds.c:873-891 | a word in apostrophes comes back if and only if it does not end with a backslash |
| Quoting.SplitQuoted | 3rd/hiredis/sds.c:807-923 | splitting a line of quoted words gives the words back, whatever their bytes and whatever the locale calls printable |
| AsyncSpec.RunsKeep | 3rd/hiredis/async.c:411-648 | over any run, whatever callbacks do at each firing, those of accepted commands fire in the order of issue, once each, with the replies in the order in which they were read, none skipped and all of them while the connection lives, and NULL only at the end, to all that wait; what has fired stays fired |
| AsyncSpec.IssueIsAccepted | 3rd/hiredis/async.c:583-648 | a command issued in a run while the connection is neither disconnecting nor being freed is accepted in its place; once it is, none is |
| AsyncSpec.EndsFreed | 3rd/hiredis/async.c:275-362 | a call of redisAsyncFree, a disconnect with no callback waiting and any failed read, parse or write free the connection, with a callback fired for every command accepted |
| AsyncTrace.AcceptedExactly | 3rd/hiredis/async.c:593-594 | over any run the commands accepted are exactly those asked for, by the user or by any callback that fired, in front of the first call that asks to disconnect or free and the first callback given NULL; while the connection lives no callback has asked to free it |
| AsyncTrace.FreedExactly | 3rd/hiredis/async.c:411-489 | the connection is freed by exactly the events that must end it; a disconnect that had to wait, whoever asked for it, happens at the read that delivers the last reply when everything was written, and a callback that frees ends it with that event |
| AsyncTrace.UnsentIs | 3rd/hiredis/async.c:537-561 | the commands that hold a disconnect back are those accepted since everything was last written |
| AsyncSpec.DeliverKeeps | 3rd/hiredis/async.c:411-489 | the replies of a read go to the callbacks as far as the connection lives, a prefix of them if it ends, even when callbacks issue commands, disconnect or free |
| AsyncSpec.DrainKeeps | 3rd/hiredis/async.c:275-317 | at the end every waiting callback is given NULL, and none can add to the queue |
| AsyncSpec.DeliverIsSome | 3rd/hiredis/async.c:434-466 | the assertion that a context without callbacks is subscribed holds if the server sends no more replies than it is asked for, but for errors |
| Async.Context.Run | 3rd/hiredis/async.c:411-648 | the connection with its linked list goes through any run of events as the machine on values does, and asserts exactly where that does |
| Async.Context.ProcessCallbacks | 3rd/hiredis/async.c:411-489 | the same for the replies of a read: which callbacks have fired with which replies, and whether the connection is freed |
| Async.Context.Command | 3rd/hiredis/async.c:583-648 | a command is accepted exactly if the connection is neither disconnecting nor being freed |
| Async.Context.RunNext | 3rd/hiredis/async.c:249-273 | the first callback that waits is taken from the list and run, with all that it does to the connection |
| Async.Context.TearDown | 3rd/hiredis/async.c:275-317 | every waiting callback is run with NULL, in order |
| Async.Context.DisconnectNow | 3rd/hiredis/async.c:331-349 | a clean disconnect finds the queue empty |
| Async.Context.Request | 3rd/hiredis/async.c:323-362 | disconnect and free from outside a callback |
| Async.Context.HandleRead | 3rd/hiredis/async.c:516-535 | a read event on an established connection |
| Async.Context.HandleWrite | 3rd/hiredis/async.c:537-562 | a write event on an established connection |
| Async.List.Push | 3rd/hiredis/async.c:227-247 | appends to the linked list |
| Async.List.Shift | 3rd/hiredis/async.c:249-263 | takes from the front of the linked list |
| Dict.Table.Add | 3rd/hiredis/dict.c:135-154 | adds exactly if the key is absent, doubling the table when it is full |
| Dict.Table.Replace | 3rd/hiredis/dict.c:160-179 | the map with the key updated, and whether it is new |
| Dict.Table.Delete | 3rd/hiredis/dict.c:182-210 | the map without the key, and whether it was there |
| Dict.Table.Get | 3rd/hiredis/dict.c:243-256 | the value of the map |
| Dict.Table.Expand | 3rd/hiredis/dict.c:88-132 | the same map in a larger table, every entry in the chain of its masked hash |
| Dict.Table.Rehash | 3rd/hiredis/dict.c:102-127 | every entry moves, and the loop that stops when none is left has moved all |
| Dict.Visit | 3rd/hiredis/dict.c:268-286 | an iterator run visits every entry of the map exactly once, even if each is deleted as it is visited |
| Dict.Cursor.Next | 3rd/hiredis/dict.c:268-286 | the next entry of those left |
| Dict.SlotIsMask | 3rd/hiredis/dict.c:118 | the masked hash is the hash modulo the size |

## Left out

Weaker than the source, or with a limit:

- InflateTable.BuildTable: says nothing about the space a distance table takes, which the source does not check either.
- InflateStream.Inflater.Inflate: the window is the default one of 32K, so that every distance the format allows is in reach after any cut; Z_BLOCK, the gzip header and trailer and preset dictionaries are not modelled, so a stream that asks for a dictionary stays in that mode.
- DeflateStream.Deflater.constructor: the gzip wrapper, preset dictionaries, deflateParams, deflateTune and deflatePrime are not modelled.
- DeflateStream.Deflater.Deflate: NULL pointers and allocation failures are not modelled.
- Overlay.CompressBlock: d_buf is little-endian here, and the method stops where the source would go on with an entry that no tree has a code for.
- OverlaySafe.HarmlessClear: the default strategy above memLevel 1, Z_FILTERED, and Z_RLE below memLevel 4, are neither shown safe nor refuted.
- FixedRun.FixedLoss: the input is one for level 9; for the other levels from 1 on Z_FIXED with such a window is not decided.
- DefaultRun.DefaultLoss: likewise for level 9, and for a window of 32K.
- BlockEncoder.Encoder.FlushBlock: the guess whether data is text is not modelled.
- Matcher.InsertString: the chain array starts with zeros, where the source leaves it unset and never reads it before writing.
- TreeBuilder.BuildTree: opt_len and static_len are integers, which fit 32 bits in the end (OverlaySafe.CountsFit); the source's counters may pass below 0 and back when codes are forced.  That the code is the cheapest is stated only where no length has to be cut.
- Adler.Adler32: a NULL buffer and the NO_DIVIDE form are not modelled.
- Crc.MakeTables: the numbers printed in crc32.h are not compared with the tables.
- RespReader.ReadLongLong: no overflow of 64 bits, and array counts are not cut to 32 bits.
- RespReader.Reader.GetReply: replies are values put together when complete, where the source fills reply objects through a table of functions; out of memory, error texts and the release of a large empty buffer are not modelled, and a negative array count other than -1 gives an empty array.
- RespFormat.FormatSdsCommandArgv: the growth of sds strings is not modelled, and one routine prints both numbers.
- Async.Context.Run: subscriptions, MONITOR, the connecting phase and the hooks for connecting, disconnecting and event loops are not modelled; a callback is a list of calls back into the connection.
- Uncompress.Uncompress: lengths beyond an unsigned int and allocation failures are not modelled.
- Dict.Table.Expand: sizes near LONG_MAX are not modelled; the hash is any function.

Form: where the source changes fields and arrays in place, the model has classes for the
decoder and its window array, the bit writer, the block encoder, the compressor, the RESP
reader with its stack array, the callback list, the connection and the hash table.  The
local variables of inflate() are a record passed from mode to mode (`Vars`), the working
state of build_tree and gen_bitlen is a record (`Forest`, `Tally`), so is the match
finder's (`Lz`); decoding tables, heaps, trees, the sliding window and hash chains are
sequences and maps in them.  Update in place and aliasing of these are not captured.

Not modelled at all:

- gzio.c, infback.c, compress.c, inflateSync, inflateCopy, deflateCopy and deflateBound.
- The blocking hiredis interface, net.c, redisvFormatCommand and the rest of sds.c.
- The server's own sources, which hold little logic.
