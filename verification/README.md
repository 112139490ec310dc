# Verified models of libchdman-rs

Dafny models of the parts of libchdman-rs and of the MAME core it wraps that have the most
state, branching or arithmetic, with proofs about them. `dafny verify dfyconfig.toml` checks
the project. Every property is stated for all inputs, all runs or all interleavings.

## What is proved

**DEFLATE, end to end** (`mame-chd-src/3rdparty/zlib`). `RoundTrip.ThereAndBack`: whatever
`deflate_slow` makes of an input that is supplied in any chunks, `inflate` turns back into that
input, however the stream and the room for the output are cut. It rests on

- *inflate.* `StreamDecoding.Flow` says what a raw stream of any number of stored, fixed and
  dynamic blocks decodes to, in terms of canonical codes only. `Inflater.State` has the fields
  of `inflate_state`; its method `Inflate` runs through the states TYPE to DONE, reading headers,
  code lengths and codes with stops in any place. `Inflater.InflatePieces` loops over calls with
  arbitrary pieces and shows that the cuts never matter. `InflateFast.Fast` refines the slow
  states, and the circular window always holds the end of the output.
- *inflate_table.* `InflateTable.Build` decodes exactly the canonical code (section 3.2.2 of
  RFC 1951), refuses exactly the sets of lengths it should, and never runs out of table space
  when called as `inflate` calls it. The constants ENOUGH_LENS and ENOUGH_DISTS were found by
  search in zlib; here they are proved sufficient.
- *trees.* `MakeCodes.BuildCode` turns frequencies into a complete length-limited code; the repair
  of over-long codes always succeeds. `HuffmanShortest` proves what the comment on `smaller` promises:
  breaking ties by depth minimizes the longest length. So the result is of least cost if and only if
  some code of least cost keeps to the limit.
  `opt_len` and `static_len` are exact, so that the check `compressed_len == bits_sent`, which
  release builds leave out, always holds. `BlockFlow` shows that inflate reads each kind of block
  back from its first bit to its last, and `StreamWriter.TrFlushBlock` composes this over a stream.
- *deflate_slow.* `DeflateSlow.DeflateState` keeps the window, the hash chains, the undecided match
  and the buffered symbols in step with the input, through sliding, waiting strings and stops for
  lack of output room. The third byte of a match need not be compared because equal hashes imply it.

**The compression work queue** (`sys/minimal_osd.cpp`) is a transition system with one step per
critical section, notify, sleep and callback. In every interleaving no wake-up is lost, every item
runs exactly once before the queue is freed, nothing deleted is touched, thread ids stay in 0..15,
there is no deadlock, and every call returns: in every run the steps that carry calls on are bounded
by the work there was and what new calls and spurious wake-ups added.

**CD frame mapping** (`sys/cd_shim.cpp`, `src/cd.rs`). `CdImage.CdCompressor.ReadData` delivers slices
of one reference disc image whatever the access pattern; `CdReader.CdAudioReader` delivers slices of
the BIN that `extract_to_cue` writes, with a sector cache that is never stale.

**Arithmetic kernels.** Braided CRC-32 and its combination (for lengths of any size, which needs
x^(2^32) = x), Adler-32 with deferred reduction, `muldivu_64`, and utf8proc's canonical reordering.

## Where the code and its comments differ

The models follow the code.

- inffast.c:290 says that fewer than 8 bits are held on entry. When LEN was left for lack of input
  in the middle of a code and is resumed, more can be held, up to 14: eight ones, for instance, begin a
  fixed code of nine bits (`Inflater.EightBitsHeld`). Handing back bytes is still safe: the first code
  uses all those bits (`InflateFast.UsesOldBits`).
- trees.c:530-534 calls the lengths of `gen_bitlen` optimal. They are if and only if some code of least
  cost keeps to the limit (`MakeCodes.BuildCode`); `MakeCodes.LimitCosts` gives nine counts for which none does.
- src/cd.rs:1203 converts a position beyond 2^64 - 1 with `as u64`, which wraps: from there a seek by 1
  succeeds and is at the start (`CdReader.CdAudioReader.SeekPastEnd`).
- eminline.h:352-357 calls the result of `muldivu_64` unpredictable when it does not fit. It is the
  quotient modulo 2^64, for all inputs (`MulDiv.MulDivU64`).
- trees.c:1075-1078 compares `compressed_len` and `bits_sent` modulo 2^32 and in debug builds only; here
  both are exact integers, and equal.

## How to read the models

Bits are `seq<bool>` in the order in which they are sent. Where a method has a parameter that is
always 8 or 16 (`n == 8`) it stands for the width of a byte or of two. Large predicates begin with
`var` so that each names its parts. A ghost parameter `u` stands for whatever bits may follow the
input of a call.

## Model

| member | source | states |
|---|---|---|
| `RoundTrip.ThereAndBack` | mame-chd-src/3rdparty/zlib/deflate.c:1956-2076 | whatever deflate_slow makes of an input supplied in any chunks, inflate, called with the stream and the room cut in any way, never outputs anything but the start of that input, never reports invalid data, and at the end of the stream has output all of it and read every byte; the end is reached once all of the stream has been taken with room left |
| `RoundTrip.EndedStream` | mame-chd-src/3rdparty/zlib/trees.c:1081-1086 | a stream whose last block has been written decodes to its data, and bytes that follow it are left unread |
| `StreamWriter.TrFlushBlock` | mame-chd-src/3rdparty/zlib/trees.c:997-1089 | for every buffer of symbols and every choice of stored, static or dynamic block: if what was sent before decodes to `out`, then what has been sent now decodes to `out` and the bytes the symbols stand for, whatever follows; what was sent grows by exactly the block's bits, 3 + opt_len or 3 + static_len of them unless it is stored (the disabled check compressed_len == bits_sent), and after the last block by fewer than 8 zeros |
| `StreamWriter.CodedLast` | mame-chd-src/3rdparty/zlib/trees.c:1081-1086 | the zero bits that pad the last block to a byte do not disturb decoding: the stream ends and what follows stays |
| `Inflater.InflatePieces` | mame-chd-src/3rdparty/zlib/inflate.c:474-1153 | cutting a raw deflate stream (any number of blocks of any type, cut anywhere, also in the middle of a header) and the room for its output into arbitrary pieces never changes the bytes decoded: the output is always a prefix of what the whole stream decodes to, and all of it at the end of the stream, at invalid data, and when all input was taken with room left; then the end is reported if the stream has one |
| `Inflater.State.Inflate` | mame-chd-src/3rdparty/zlib/inflate.c:474-1153 | one call keeps the meaning of output so far, saved state and unread input, whatever follows the input; the window again holds the last min(total, 32K) bytes; the return code says exactly why the call stopped, and Z_OK only after progress |
| `Inflater.Leave` | mame-chd-src/3rdparty/zlib/inflate.c:1131-1136 | the condition for calling updatewindow keeps the window in step with all output, except at the end of a stream or at invalid data when no window was ever needed |
| `Inflater.BlockState` | mame-chd-src/3rdparty/zlib/inflate.c:911-1071 | a pass through LEN to LIT (or inflate_fast) is a stretch of the flow of the whole stream, and the end of a block leads on to the next |
| `StreamDecoding.FlowStep` | mame-chd-src/3rdparty/zlib/inflate.c:402-470 | a step taken on the bits at hand is a step of the decoding of the whole stream, in every state of a header: no later bit can change it |
| `StreamDecoding.NextOk` | mame-chd-src/3rdparty/zlib/inflate.c:708-911 | what the header states remember stays within what a header can say (at most 286 and 30 lengths, lengths at most 15, accepted codes only) |
| `StreamDecoding.FlowGrows` | mame-chd-src/3rdparty/zlib/inflate.c:474-1153 | output once made is never taken back |
| `StreamDecoding.FlowAligned` | mame-chd-src/3rdparty/zlib/inflate.c:747-748 | dropping to the byte boundary before waiting for the lengths of a stored block is the same as dropping after it |
| `StreamStates.TypeState` | mame-chd-src/3rdparty/zlib/inflate.c:708-746 | the three header bits lead to the right kind of block, to the end after the last block, and to BAD for type 3; resumable after any bit |
| `StreamStates.StoredState` | mame-chd-src/3rdparty/zlib/inflate.c:747-761 | a stored block is accepted exactly when its length and complement agree, with all 32 bits held and none lost when the accumulator is cleared |
| `StreamStates.CopyState` | mame-chd-src/3rdparty/zlib/inflate.c:762-781 | stored bytes go straight from input to output, exactly as many in one pass as the block, the input and the room allow, and no bit is held back meanwhile |
| `StreamStates.FlowCopies` | mame-chd-src/3rdparty/zlib/inflate.c:765-777 | copying stored bytes in any portions gives the same as copying them one by one |
| `StreamStates.TableState` | mame-chd-src/3rdparty/zlib/inflate.c:782-801 | the three counts are read, and more than 286 or 30 symbols are refused |
| `LengthStates.LenLensState` | mame-chd-src/3rdparty/zlib/inflate.c:802-823 | the lengths of the code-length code, read with stops anywhere, land at their places in lens, the others become 0, and the table is built exactly when the set is acceptable |
| `LengthStates.ReadLength` | mame-chd-src/3rdparty/zlib/inflate.c:826-860 | one look-up in the first-level table is enough for a code-length code; a stop between a repeat code and its extra bits loses nothing and holds at most 7 bits too many afterwards |
| `LengthStates.Repeated` | mame-chd-src/3rdparty/zlib/inflate.c:834-869 | repeat codes 16, 17 and 18 write what the rules say, and are refused with nothing to repeat or too many lengths |
| `LengthStates.CodeLensState` | mame-chd-src/3rdparty/zlib/inflate.c:824-911 | both length arrays are read and both tables built; invalid repeats, a missing end-of-block code and unacceptable codes are refused, and nothing else is |
| `LengthStates.BuildTables` | mame-chd-src/3rdparty/zlib/inflate.c:888-909 | with widths 9 and 6 inflate_table fails exactly for refused sets of lengths: it never runs out of table space |
| `Inflater.BuildFixed` | mame-chd-src/3rdparty/zlib/inftrees.c:327-348 | the fixed tables decode exactly the fixed codes of section 3.2.6 of RFC 1951 |
| `Inflating.PullByte` | mame-chd-src/3rdparty/zlib/inflate.c:358-364 | moving a byte into the accumulator leaves the string of bits still to be used unchanged |
| `Inflating.NeedBits` | mame-chd-src/3rdparty/zlib/inflate.c:368-372 | fails only at the end of the input, and holds fewer than 8 bits too many |
| `Inflating.ReadCode` | mame-chd-src/3rdparty/zlib/inflate.c:922-941 | the two-level look-up loop reads the canonical code that the coming bits begin with, pulling no byte more than it needs |
| `Inflating.CodeState` | mame-chd-src/3rdparty/zlib/inflate.c:914-1002 | LEN and DIST keep the meaning of what is left to decode, and hold fewer than 8 bits afterwards, also when resumed with more |
| `Inflating.ExtraState` | mame-chd-src/3rdparty/zlib/inflate.c:964-1019 | LENEXT and DISTEXT likewise; lengths stay within 3..258 and distances within 1..32768 |
| `Decoding.PeekIsCanon` | mame-chd-src/3rdparty/zlib/inflate.c:922-941 | any table that inflate_table accepts says, of any bits padded with zeros, what the canonical code says |
| `Decoding.CanonStable` | mame-chd-src/3rdparty/zlib/inflate.c:922-926 | a code that lies within the bits at hand is not changed by the bits that follow |
| `Decoding.CanonBack` | mame-chd-src/3rdparty/zlib/inflate.c:922-926 | and is found without them |
| `Decoding.RunPrefix` | mame-chd-src/3rdparty/zlib/inflate.c:911-1071 | decoding a prefix of the bits of a block stops on the way of decoding them all |
| `Decoding.CanonicalBounded` | mame-chd-src/3rdparty/zlib/inflate.c:943-1019 | the entries of every accepted code keep lengths and distances in range |
| `InflateWindow.UpdateWindow` | mame-chd-src/3rdparty/zlib/inflate.c:252-296 | whatever portions output is delivered in, the circular window holds the last min(total, wsize) bytes in order, and wnext counts them until it first fills |
| `InflateCopy.MatchState` | mame-chd-src/3rdparty/zlib/inflate.c:1020-1065 | exactly as much of a match as its source (the output, or the window up to its wrap) and the room allow is copied, as an overlapping copy from `offset` back; a distance is BAD exactly when it exceeds what window and output hold |
| `InflateCopy.ExtendWindow` | mame-chd-src/3rdparty/zlib/inflate.c:1043-1049 | a stretch of the circular window before the write index is the continuation of the match |
| `InflateCopy.RunCopies` | mame-chd-src/3rdparty/zlib/inflate.c:1055-1064 | copying a match in portions is the same as copying it byte by byte |
| `InflateFast.Fast` | mame-chd-src/3rdparty/zlib/inffast.c:50-305 | refines LEN to LIT: with at least 6 bytes of input and 258 of room it outputs and uses exactly what the slow states would, never leaves its buffers, hands back whole unread bytes and holds fewer than 8 bits at the end |
| `InflateFast.FastCopy` | mame-chd-src/3rdparty/zlib/inffast.c:167-262 | the three-way copy from the window, its wrapped part and the output is the overlapping copy of the whole match |
| `InflateFast.FastCode` | mame-chd-src/3rdparty/zlib/inffast.c:107-143 | the unchecked two-level look-up reads the same code as the slow one |
| `InflateFast.GiveBack` | mame-chd-src/3rdparty/zlib/inffast.c:290-294 | the bytes returned are the last ones read: the bits still to be used are the same |
| `Inflater.EightBitsHeld` | mame-chd-src/3rdparty/zlib/inffast.c:290-290 | a state of LEN in which inflate_fast may be entered with 8 bits held, against its comment |
| `InflateTable.Build` | mame-chd-src/3rdparty/zlib/inftrees.c:46-311 | returns -1 exactly for over-subscribed sets and for incomplete ones (but a single one-bit code is allowed, except for code lengths, and so is no code at all); otherwise the root/sub-table look-up of any bit string gives the symbol whose canonical code it begins with and that code's length, and the invalid marker for strings that begin with none; it never returns 1 when asked as inflate asks, and code-length tables have one level |
| `InflateTable.FillTables` | mame-chd-src/3rdparty/zlib/inftrees.c:220-295 | the main loop enters every code, in order, at every slot that agrees with it, opens each sub-table once with the right size, and ends |
| `InflateTable.SortSymbols` | mame-chd-src/3rdparty/zlib/inftrees.c:149-156 | the counting sort: symbols in use by length and then by number |
| `InflateTable.NextCode` | mame-chd-src/3rdparty/zlib/inftrees.c:246-255 | the backward increment of the bit-reversed code is the increment of the code |
| `InflateTable.SpaceSuffices` | mame-chd-src/3rdparty/zlib/inftrees.h:41-51 | ENOUGH_LENS and ENOUGH_DISTS suffice for 286 symbols with 9 root bits and 30 symbols with 6, by an accounting argument over all complete codes and not by search |
| `InflateTable.MarkFree` | mame-chd-src/3rdparty/zlib/inftrees.c:297-305 | an incomplete code leaves exactly one slot, which gets the invalid marker |
| `Huffman.PrefixFree` | mame-chd-src/3rdparty/zlib/inftrees.c:139-147 | canonical codes that are not over-subscribed are prefix-free |
| `Huffman.CompleteCovers` | mame-chd-src/3rdparty/zlib/inftrees.c:139-147 | in a complete canonical code every string of 15 bits begins with exactly one codeword |
| `NodeHeap.PqDownHeap` | mame-chd-src/3rdparty/zlib/trees.c:509-527 | extends the heap property to slot k, with the same nodes in the queue and everything above untouched |
| `NodeHeap.PqRemove` | mame-chd-src/3rdparty/zlib/trees.c:488-493 | takes out a smallest node and leaves a heap of the others |
| `BuildTree.MakeTree` | mame-chd-src/3rdparty/zlib/trees.c:627-697 | the list of nodes is a Huffman tree over exactly the symbols in use (at least two, forced if need be), each pair combined from two least frequent nodes |
| `GenBitLen.Repair` | mame-chd-src/3rdparty/zlib/trees.c:582-594 | overflow is twice the Kraft excess: a shorter leaf always exists, the loop ends, the number of leaves is kept and the Kraft sum is exactly 1 afterwards |
| `GenBitLen.CodeLengths` | mame-chd-src/3rdparty/zlib/trees.c:540-613 | lengths at most max_length with Kraft sum exactly 1, and opt_len and static_len grow by the bits of all symbols, also after a repair |
| `HuffmanTree.LeafKraft` | mame-chd-src/3rdparty/zlib/trees.c:556-576 | after clamping, the Kraft sum of the leaves exceeds 1 by one unit of the last length per clamped pair |
| `HuffmanOptimal.Optimal` | mame-chd-src/3rdparty/zlib/trees.c:669-697 | if no length was clamped, the code costs no more than any other prefix code for the same symbols |
| `HuffmanShortest.Shortest` | mame-chd-src/3rdparty/zlib/trees.c:495-503 | the tie-breaking of `smaller` minimizes the worst case length: no code of least cost has a shorter longest codeword than the depth of build_tree's tree |
| `HuffmanShortest.ClampedIfDeep` | mame-chd-src/3rdparty/zlib/trees.c:566-570 | lengths are clamped if and only if the tree is deeper than max_length |
| `HuffmanShortest.DeepNeedsMany` | mame-chd-src/3rdparty/zlib/trees.c:627-697 | a tree deeper than h has been counted at least Fib(h + 3) times; so in 16 bits the byte that holds a depth never wraps |
| `MakeCodes.BuildCode` | mame-chd-src/3rdparty/zlib/trees.c:627-706 | frequencies to codes: a complete code within the length limit with canonical codewords for every symbol in use; opt_len and static_len are exact even with forced dummy codes; and, for counts of 16 bits, lengths of least cost if and only if such lengths exist within the limit; always if fewer symbols were counted than the Fibonacci number of max_length + 3 |
| `MakeCodes.LimitCosts` | mame-chd-src/3rdparty/zlib/trees.c:529-538 | the lengths are not always optimal: nine counts for which build_tree with a limit of seven bits, as for code lengths, gives a code that is not of least cost |
| `MakeCodes.GenCodes` | mame-chd-src/3rdparty/zlib/trees.c:203-232 | the codes are the canonical codewords of section 3.2.2 of RFC 1951, first bit least significant; 16 bits suffice |
| `MakeCodes.BiReverse` | mame-chd-src/3rdparty/zlib/trees.c:154-161 | the code read from its other end |
| `TreeSending.ScanTree` | mame-chd-src/3rdparty/zlib/trees.c:712-747 | counts exactly the items that send_tree sends later |
| `TreeSending.SendTree` | mame-chd-src/3rdparty/zlib/trees.c:753-794 | sends the run-coded items of a tree with the code-length code |
| `TreeSending.ItemsCost` | mame-chd-src/3rdparty/zlib/trees.c:800-822 | the counted items, weighted by code lengths and extra bits, are the bits sent for them |
| `RunCoding.TreesRoundTrip` | mame-chd-src/3rdparty/zlib/inflate.c:824-872 | the items of the literal tree and then of the distance tree, read by the rules of section 3.2.7 of RFC 1951, restore both arrays of lengths |
| `BlockHeader.BuildBlTree` | mame-chd-src/3rdparty/zlib/trees.c:800-822 | a complete code of lengths at most 7 for all items of both trees; what it adds to opt_len is exactly what send_all_trees sends |
| `BlockHeader.SendAllTrees` | mame-chd-src/3rdparty/zlib/trees.c:834-855 | the counts, the lengths in bl_order and the items of both trees, one after another |
| `SymbolTables.StaticInit` | mame-chd-src/3rdparty/zlib/trees.c:295-377 | every length 3..258 and distance 1..32768 gets a code whose base and extra bits reach it |
| `SymbolTables.LengthDecodes` | mame-chd-src/3rdparty/zlib/inftrees.c:69-74 | base plus extra bits, as the decoder's tables have them, give the length back (258 included) |
| `SymbolTables.DistDecodes` | mame-chd-src/3rdparty/zlib/inftrees.c:75-83 | the same for distances |
| `StaticTrees.StaticLTree` | mame-chd-src/3rdparty/zlib/trees.c:350-361 | the static literal tree is the canonical code for the lengths of section 3.2.6 of RFC 1951 |
| `StaticTrees.StaticDTree` | mame-chd-src/3rdparty/zlib/trees.c:363-367 | five reversed bits are the canonical distance codes |
| `BitWriter.Writer.SendBits` | mame-chd-src/3rdparty/zlib/trees.c:253-272 | the bits sent, whole bytes and buffer together, are those before and then the value, least significant bit first |
| `BitWriter.Writer.Flush` | mame-chd-src/3rdparty/zlib/trees.c:166-176 | at most 7 bits stay in the buffer and no bit is lost |
| `BitWriter.Writer.Windup` | mame-chd-src/3rdparty/zlib/trees.c:181-192 | at most 7 zero bits are added, up to a byte boundary, and bi_used is 1..8 |
| `BlockCost.TallySym` | mame-chd-src/3rdparty/zlib/trees.c:1095-1119 | the frequencies stay those of the buffered symbols |
| `BlockCost.DynamicCost` | mame-chd-src/3rdparty/zlib/trees.c:540-613 | the tallied frequencies weighted by code lengths and extra bits are the number of bits compress_block sends |
| `BlockCost.StaticCost` | mame-chd-src/3rdparty/zlib/trees.c:540-613 | the same for the static codes |
| `CompressBlock.Compress` | mame-chd-src/3rdparty/zlib/trees.c:900-951 | sends for each symbol its codes and extra bits, and then the end of the block |
| `FlushBlock.BuildTrees` | mame-chd-src/3rdparty/zlib/trees.c:1009-1024 | complete trees with codes for every buffered symbol; opt_len is exactly the size of the block with its header, for every buffer |
| `BlockWriter.MakePlan` | mame-chd-src/3rdparty/zlib/trees.c:997-1048 | the kind of block follows from the two exact sizes and the bytes at hand |
| `BlockWriter.ChooseShortest` | mame-chd-src/3rdparty/zlib/trees.c:1026-1065 | the chosen kind is a shortest one in bytes |
| `BlockWriter.SendStored` | mame-chd-src/3rdparty/zlib/trees.c:860-869 | header, padding to a byte, length, complement and the bytes; the writer is left on a byte boundary |
| `BlockRoundTrip.RoundTrip` | mame-chd-src/3rdparty/zlib/trees.c:900-951 | the bits of any buffered literals and matches are read back by LEN to MATCH as the bytes they stand for, up to the end of the block, with what follows left |
| `BlockFlow.DynamicReadBack` | mame-chd-src/3rdparty/zlib/trees.c:1066-1069 | a whole dynamic block, from its type bits through counts, code-length code, both arrays of lengths and the tables built from them, gives back the bytes and leaves the rest, for every buffer |
| `BlockFlow.StaticReadBack` | mame-chd-src/3rdparty/zlib/trees.c:1058-1061 | the same for a static block |
| `BlockFlow.StoredReadBack` | mame-chd-src/3rdparty/zlib/trees.c:860-869 | the same for a stored block, whatever the padding |
| `DeflateSlow.DeflateState.Deflate` | mame-chd-src/3rdparty/zlib/deflate.c:1956-2076 | whatever the calls, chunks and stops for lack of output room: the symbols tallied expand to the input up to strstart (less the pending byte), no input is lost, and unless more input or output is needed the blocks stand for all the input and what was written decodes to it |
| `DeflateSlow.DeflateState.FillWindow` | mame-chd-src/3rdparty/zlib/deflate.c:252-371 | sliding and reading keep every invariant; afterwards there is enough lookahead or no input, and strstart is far enough from the end of the window |
| `DeflateSlow.Round` | mame-chd-src/3rdparty/zlib/deflate.c:1978-2057 | one round of lazy matching keeps window, hash chains, undecided match and symbols in step with the input and with the stream written |
| `DeflateOutput.FlushOnly` | mame-chd-src/3rdparty/zlib/deflate.c:1630-1639 | the block's bytes, if still in the window, are what its symbols stand for, so it may be stored; the stream goes on decoding to the input |
| `DeflateInvariant.SlideInv` | mame-chd-src/3rdparty/zlib/deflate.c:252-290 | the whole invariant survives a slide of the window |
| `HashChains.ThirdByte` | mame-chd-src/3rdparty/zlib/deflate.c:1487-1494 | equal hashes and two equal bytes imply the third equal: longest_match need not compare it |
| `HashChains.InsertKeeps` | mame-chd-src/3rdparty/zlib/deflate.c:160-163 | INSERT_STRING keeps every string reached from head[h] through prev one with hash h |
| `HashChains.SlideKeeps` | mame-chd-src/3rdparty/zlib/deflate.c:187-210 | slide_hash keeps that too |
| `HashChains.ThreeUpdates` | mame-chd-src/3rdparty/zlib/deflate.c:141-141 | three updates forget everything before them |
| `Dictionary.CatchUp` | mame-chd-src/3rdparty/zlib/deflate.c:314-333 | strings that waited at the end of an earlier input are inserted once their third byte is there |
| `Dictionary.BackSlides` | mame-chd-src/3rdparty/zlib/deflate.c:187-210 | a match start that wraps below 0 when the window slides still gives the right distance |
| `LongestMatch.MatchLen` | mame-chd-src/3rdparty/zlib/deflate.c:1499-1510 | the eight-at-a-time comparison finds exactly the first difference, or 258 |
| `LongestMatch.Longest` | mame-chd-src/3rdparty/zlib/deflate.c:1389-1530 | the length is within the lookahead; if better than before, the input really holds that many equal bytes within MAX_DIST; no string of the chain that was visited has a longer match; and the search stops only for one of its four reasons |
| `DeflateTokens.ToldMatch` | mame-chd-src/3rdparty/zlib/deflate.c:2016-2017 | a match tallied extends what the symbols stand for by exactly the bytes matched, overlapping or not |
| `WorkQueue.NoLostWakeUp` | sys/minimal_osd.cpp:65-105 | in every reachable state: a sleeper whose condition holds has a worker on its way to notify, queued work has a busy worker or an outstanding notify, and a worker asleep during shutdown has the shutdown notify outstanding |
| `WorkQueue.PendingIsExact` | sys/minimal_osd.cpp:81-90 | pending_items equals queued plus running items in every interleaving, no callback runs twice, and 0 means all have run |
| `WorkQueue.FreeRunsEverythingOnce` | sys/minimal_osd.cpp:154-162 | when osd_work_queue_free has returned every item ever queued has run exactly once |
| `WorkQueue.NoUseAfterFree` | sys/minimal_osd.cpp:81-93 | no step touches a deleted item or queue; no worker holds a completed item, so its caller may delete it at once |
| `WorkQueue.SomeThreadCanMove` | sys/minimal_osd.cpp:65-204 | deadlock freedom: while a call is in progress some thread can move |
| `WorkQueue.RunWork` | sys/minimal_osd.cpp:65-204 | along every run, with any mixture of calls, timeouts and spurious wake-ups, progress made and work left together never exceed the work there was and what was added |
| `WorkQueue.EveryCallReturns` | sys/minimal_osd.cpp:65-204 | liveness in every run: the steps that carry calls on are at most the work there was plus a fixed amount for each new call and spurious wake-up (nothing for a timeout), and when none is left every call has returned |
| `WorkQueue.CallbackThreadId` | sys/minimal_osd.cpp:107-140 | in every run the thread id given to a callback is below the number of threads made, and so at most 15 |
| `WorkQueue.RunKeepsInv` | sys/minimal_osd.cpp:65-204 | the inductive invariant holds along every run |
| `CdImage.CdCompressor.ReadData` | sys/cd_shim.cpp:48-126 | any frame-aligned read delivers exactly that stretch of one reference disc image (own file, zero pad, next file's split frames, swap, trailing padding), whatever the chunking and whatever file was left open; all of it when every file opens; unaligned reads deliver nothing |
| `CdImage.CdCompressor.PutFrame` | sys/cd_shim.cpp:60-118 | one frame, and the open file again matches its name; failure only for a missing next file |
| `CdImage.LogicalBytes` | sys/cd_shim.cpp:242-251 | exactly the bytes that read_data can deliver |
| `CdImage.PadTracks` | sys/cd_shim.cpp:231-240 | every track is padded up to a multiple of four frames |
| `CdImage.PaddedStarts` | sys/cd_shim.cpp:231-240 | so every track starts at one |
| `CdReader.CdAudioReader.Read` | src/cd.rs:1173-1189 | a read returns the bytes at the current offset of the BIN that extract_to_cue writes, at most to the end of a sector, and nothing only at the end; a failed read moves nothing |
| `CdReader.CdAudioReader.Seek` | src/cd.rs:1191-1206 | every seek lands where it says or fails without moving; the exact case in which a relative seek wraps |
| `CdReader.CdAudioReader.SeekPastEnd` | src/cd.rs:1203-1204 | a seek one past the greatest position of a u64 succeeds and is at 0 |
| `CdReader.CdAudioReader.LoadSector` | src/cd.rs:1147-1162 | after a failed load nothing is cached, so the cache is never stale |
| `CdReader.CdAudioReader.ReadSectors` | src/cd.rs:1111-1120 | whole sectors of the same BIN, whatever position and cache; a wrong range or buffer length is refused with nothing written |
| `CdReader.FoundSpan` | src/cd.rs:1135-1146 | the span found by partition_point holds the sector, even with zero-length tracks |
| `CdReader.PartitionPoint` | src/cd.rs:1135-1140 | the number of spans that start at or before the sector |
| `CdReader.ExtractBin` | src/cd.rs:545-552 | the frame loop writes the reference BIN unless a frame cannot be read |
| `CdReader.OpenDisc` | src/cd.rs:1028-1054 | opens exactly when all tracks are raw and sectors fit 32 bits, with a view equal to the BIN of extract_to_cue |
| `CdReader.OpenTrack` | src/cd.rs:1056-1069 | the slice of one track, and the two refusals |
| `CdReader.Straight` | src/cd.rs:386-410 | without split frames the frames of a track follow each other from its physical start |
| `Crc32.Crc32Z` | mame-chd-src/3rdparty/zlib/crc32.c:626-941 | with n braids of words of w bytes, any alignment and any length, the braided CRC is the bit-by-bit CRC of section 8 of RFC 1952 |
| `Crc32.Combine` | mame-chd-src/3rdparty/zlib/crc32.c:954-978 | from the CRCs of two strings and the second's length, the CRC of their concatenation, for lengths of any size; 0 for a negative length |
| `Crc32.CombinedCrc` | mame-chd-src/3rdparty/zlib/crc32.c:969-973 | the law behind it, for all strings |
| `CrcBraid.BlockMove` | mame-chd-src/3rdparty/zlib/crc32.c:706-766 | a block of n words may be dropped if the next block is given the braids' new values |
| `Crc32.CrcWord` | mame-chd-src/3rdparty/zlib/crc32.c:608-613 | the CRC of the bytes of a word |
| `CrcTables.MultModP` | mame-chd-src/3rdparty/zlib/crc32.c:163-178 | the product modulo the CRC polynomial |
| `CrcTables.MakePowers` | mame-chd-src/3rdparty/zlib/crc32.c:256-262 | squaring gives x^(2^k) for k in 0..31 |
| `CrcTables.X2nModP` | mame-chd-src/3rdparty/zlib/crc32.c:184-195 | x^(n 2^k), though the table has only 32 entries |
| `CrcPeriod.PowerPeriod` | mame-chd-src/3rdparty/zlib/crc32.c:184-195 | x^(2^32) = x modulo the polynomial: why `k & 31` is right for long lengths |
| `CrcTables.MakeCrcTable` | mame-chd-src/3rdparty/zlib/crc32.c:243-267 | entry i is the CRC of the byte i |
| `CrcTables.Braid` | mame-chd-src/3rdparty/zlib/crc32.c:461-473 | entry k, i is byte i moved on over the other braids |
| `MulDiv.MulDivU64` | mame-chd-src/src/osd/eminline.h:359-424 | a b / c rounded down, modulo 2^64, for all a, b and c > 0: exact if and only if the quotient fits |
| `MulDiv.Digit` | mame-chd-src/src/osd/eminline.h:399-408 | the estimate p2 / ch, less one in each round of the loop, gives the exact digit after at most two rounds; no product overflows |
| `MulDiv.Normalised` | mame-chd-src/src/osd/eminline.h:377-380 | scaling by norm makes the divisor at least 2^63 and keeps the quotient |
| `MulDiv.Subtract` | mame-chd-src/src/osd/eminline.h:409-412 | the wrapping subtraction leaves the true remainder |
| `MulDiv.Mul64x64` | mame-chd-src/src/osd/eminline.h:269-293 | the two words of the full signed product |
| `MulDiv.MulU64x64` | mame-chd-src/src/osd/eminline.h:301-325 | the two words of the full unsigned product |
| `CanonicalOrder.Reorder` | mame-chd-src/3rdparty/utf8proc/utf8proc.c:588-606 | the in-place loop ends for every buffer with each run of non-starters stably sorted by class |
| `CanonicalOrder.OrderedPermutes` | mame-chd-src/3rdparty/utf8proc/utf8proc.c:588-606 | no code point is lost or made: the result is a permutation of the buffer |
| `CanonicalOrder.OrderedInOrder` | mame-chd-src/3rdparty/utf8proc/utf8proc.c:588-606 | no neighbours with class1 > class2 > 0 are left (D109 of the Unicode Standard) |
| `CanonicalOrder.OrderedStable` | mame-chd-src/3rdparty/utf8proc/utf8proc.c:588-606 | code points of one class keep their order |
| `CanonicalOrder.StarterSplits` | mame-chd-src/3rdparty/utf8proc/utf8proc.c:588-606 | starters keep their places, and runs do not mix |
| `CanonicalOrder.SortedRunUnique` | mame-chd-src/3rdparty/utf8proc/utf8proc.c:588-606 | these properties determine the result |
| `Adler32.AdlerZ` | mame-chd-src/3rdparty/zlib/adler32.c:61-125 | every buffer and valid running value: the per-byte definition of section 2.2 of RFC 1950, with no sum above 32 bits |
| `Adler32.NoOverflow` | mame-chd-src/3rdparty/zlib/adler32.c:10-12 | NMAX bytes without reduction fit in 32 bits |
| `Adler32.NmaxIsLargest` | mame-chd-src/3rdparty/zlib/adler32.c:10-12 | and no more would |
| `Adler32.Combine` | mame-chd-src/3rdparty/zlib/adler32.c:133-155 | the checksum of a concatenation for every length of the second part |

## Left out

- FLUSH parameters Z_BLOCK and Z_TREES of `inflate`, which only add places to return: the states TYPE and TYPEDO, COPY_ and COPY, LEN_ and LEN are one each.
- gzip and zlib headers and trailers (`wrap` is 0), so that CHECK leads straight to DONE; preset dictionaries, `inflateSync`, `inflateCopy`, `inflateMark` and the field `back`.
- `sane == 0`, PKZIP_BUG_WORKAROUND and INFLATE_STRICT builds of inflate.
- The window of `inflate` is 32K and exists from the start (an unused one is all zeros); failing allocations are not modelled.
- The two decoding tables of a block are separate sequences, not consecutive parts of `codes[ENOUGH]`; each is proved to fit its own share.
- The constant tables of `inffixed.h` and `trees.h`: the code that generates them is modelled instead. The static distance tree has 32 lengths here; codes 30 and 31 are never sent.
- 16-bit frequencies in `ct_data` are unbounded integers here; a symbol buffer of at most 64K symbols cannot overflow them.
- `deflate()` itself: `_tr_align`, empty stored blocks for flushes, `deflateParams`, `deflate_stored`, `deflate_fast`, `deflate_rle`, `deflate_huff`; `flush_pending` copies bytes out and the model keeps all of them in `pending`. Whether the output buffer is full is a parameter of every call.
- Only the portable byte-wise comparison of `longest_match` is modelled, not UNALIGNED_OK or FASTEST; the window is not initialised beyond the input (WIN_INIT), because no match reaches there.
- `detect_data_type`: it does not influence the stream.
- Real-time timeouts in `wait_for_ticks` are wakes at any time; spurious wake-ups re-test the predicate and are included.
- Callbacks of work items do not call the queue themselves; the `result` pointer is not modelled.
- GD-ROM split frames on the read side follow the code, but the link from creating to extracting is only made without them (`CdReader.Straight`).
- Files are maps from names to contents; `util::read` errors read as zeros, as the code has it. Track geometry and physical starts are parameters: MAME's cdrom.cpp is not part of this model.
- The cooked readers, the ISO and GDI extraction loops, CUE text, progress and cancellation.
- The unrolling of the CRC loops by N and W is a loop over n braids and w bytes; the big-endian and ARM branches are mirror images and not modelled. The words of a CRC are bit strings.
- The Unicode property table is an uninterpreted function from code points to combining classes.
- CrcTables.MultModP: asks for a non-zero first operand, because `multmodp` does not end for zero; all its callers pass powers of x, which are not zero.
- `utf8proc_decompose_custom` before the loop, composition and grapheme breaks.
