# A verified model of `qwt`

`qwt` answers `get`, `rank`, `select` and range queries about a sequence of
integers from a compressed form of it: quad vectors with packed counters, a
wavelet matrix over base-4 digits, a Huffman-shaped variant of it, borrowed
views over untrusted bytes, and builders that stream one level at a time. Every
fast form refines a naive specification over a plain sequence, `Rank` (count)
and `IsSelect` (find) in `RankSelect.dfy`. This project models the packed forms
and the algorithms on them, and proves these refinements for every input.

How the files build on one another:

| layer | files |
|---|---|
| specification and stable partition | `RankSelect`, `StablePartition`, `PartitionInto`, `Arithmetic` |
| theory of the wavelet matrix on digit strings | `Words`, `WaveletMatrix`, `SymbolWords`, `LevelSteps` |
| quad vectors with rank and select | `Bits`, `QuadVector`, `Superblock`, `RankSupport`, `BuildSupport`, `IntraBlock`, `RSQVectors` |
| plain tree, ranges, iterators | `QuadWavelet`, `BuildQuadWavelet`, `RangeRuns`, `RangeFrames`, `RangeIterators`, `RangeDistinct`, `RangeNext`, `BulkExtract` |
| Huffman codes and tree | `CodeOrder`, `CraftCodes`, `AssignCodes`, `SortByKey`, `LimitLengths`, `HuffmanCodes`, `CodeTables`, `DecodeTables`, `HuffPaths`, `HuffWavelet`, `BuildHuffWavelet`, `HuffRuns`, `HuffIterators` |
| untrusted levels, parts and views | `LevelViews`, `SelectAfters`, `SelectCursors`, `LevelStacks`, `PlainParts`, `ViewParts`, `HuffParts`, `HuffWalk`, `HuffAssembly` |
| streamed builders and their space | `PackedLines`, `LevelEncoders`, `BucketRuns`, `DirectWriter`, `DirectHuffWriter`, `LevelPlaces`, `SpaceBounds`, `StreamedContainers` |
| containers | `ByteCodec`, `LevelBytes`, `Containers`, `QwtbFormat`, `CodeTableBytes`, `HqwbFormat` |
| bit vectors | `BitLines`, `BitHints`, `WideRS`, `NarrowRS` |

A tree is tied to its text by a predicate: `Represents(s)` for what construction
leaves, `Serves(s)` for the weaker condition on which every query of the Huffman
tree relies, `Opens(s)` for what the borrowed Huffman view guarantees even about
an empty text. Queries take the text as a ghost argument and their `ensures`
name nothing but that text. 128-bit words are sequences of bits, packed counters
are natural numbers taken apart by division, and a file is the sequence of its
records. The `sqrt` step of the sampled search is an arbitrary positive number,
since no result depends on it; the block size of the streamed readers is
arbitrary for the same reason.

`dafny verify dfyconfig.toml` checks the whole project.

## Model

| member | source | states |
|---|---|---|
| RankSelect.SelectRankInverse | src/lib.rs:92-109 | whatever meets the specification of `select` has rank k at its position and k+1 just behind it, and every position of the symbol with rank k is that answer |
| QuadVector.QVectorBuilder.Push | src/qvector/mod.rs:463-477 | appends the symbol modulo 4 to the contents and changes no earlier symbol, across word and line boundaries |
| BuildSupport.NewSupport | src/qvector/rs_qvector/rs_support_plain.rs:31-128 | one pass leaves every packed counter equal to the rank it stands for, every field in its width, the samples of every 8192nd occurrence, the sentinel block and the sentinel sample |
| RankSupport.RSSupportPlain.RankBlock | src/qvector/rs_qvector/rs_support_plain.rs:133-150 | the two packed counters give the exact rank at the start of the block of any position up to and including the length |
| RankSupport.RSSupportPlain.SelectBlock | src/qvector/rs_qvector/rs_support_plain.rs:152-190 | for every positive skip width the sampled search ends in the block of the wanted occurrence and returns its exact rank, never leaving the arrays |
| Superblock.SuperblockPlain.BlockPredecessor | src/qvector/rs_qvector/rs_support_plain.rs:365-380 | the last block of a superblock whose counter is below the target, with that counter |
| IntraBlock.RankIntraBlockAll | src/qvector/rs_qvector.rs:251-290 | for 256 and 512 symbols a block, the four counts from block start to position, with one pass over the lines |
| IntraBlock.SelectIntraBlock | src/qvector/rs_qvector.rs:141-170 | the offset of the wanted occurrence in its block, found half line by half line |
| RSQVectors.FromQVector | src/qvector/rs_qvector.rs:86-106 | counting and summing in place leaves the number of smaller symbols before each symbol, beside exact support |
| RSQVectors.RSQVector.RankUnchecked | src/qvector/rs_qvector.rs:414-417 | equals the naive count for every symbol and every position up to the length |
| RSQVectors.RSQVector.RankAllUnchecked | src/qvector/rs_qvector.rs:424-447 | all four naive counts at once |
| RSQVectors.RSQVector.Select | src/qvector/rs_qvector.rs:471-496 | the k-th occurrence, and nothing exactly when there are not that many |
| PartitionInto.StablePartitionOf4Into | src/utils/mod.rs:264-286 | the in-place writes through running positions leave the stable partition by the digit at the shift, which lists bucket after bucket in the old order |
| PartitionInto.StablePartitionOf4WithCodesInto | src/utils/mod.rs:316-345 | the same for five buckets, the last for rows whose code has ended |
| BuildQuadWavelet.FromOwned | src/quadwt/mod.rs:168-227 | every level holds digit `l` of the rows in the order of that level, with the counters of a full pass; the largest symbol determines the number of levels |
| QuadWavelet.QWaveletTree.GetUnchecked | src/quadwt/mod.rs:1617-1635 | returns the i-th symbol of the text |
| QuadWavelet.QWaveletTree.RankUnchecked | src/quadwt/mod.rs:1532-1557 | returns the naive count of the symbol before the position |
| QuadWavelet.QWaveletTree.RankOf | src/quadwt/mod.rs:1496-1503 | nothing exactly for a position past the end or a symbol above the largest, else the naive count; also for the empty tree |
| QuadWavelet.QWaveletTree.GetAndRank | src/quadwt/mod.rs:885-924 | one descent gives both `get(i)` and `rank(get(i), i + 1)` |
| QuadWavelet.QWaveletTree.Select | src/quadwt/mod.rs:1666-1706 | meets the naive specification exactly when the text is not empty or the symbol is not 0; in that one case it answers with its own index |
| PlainParts.OwnedFromParts | src/quadwt/mod.rs:327-418 | accepts exactly the stacks of equal length whose largest decoded symbol is sigma and whose number of levels is that of sigma, and what it accepts answers about the decoded text |
| PlainParts.AcceptedIsBuilt | src/quadwt/mod.rs:352-405 | an accepted stack has, level by level, the symbols of the tree that construction makes of its own decoded text, and the same sigma |
| PlainParts.BuiltIsAcceptable | src/quadwt/mod.rs:327-418 | whatever construction leaves is accepted |
| ViewParts.WalkSigma | src/bytes/view.rs:148-177 | following the largest populated digit once gives the largest symbol of all rows |
| ViewParts.OpenView | src/bytes/view.rs:66-180 | the view accepts exactly what the owned tree accepts |
| RangeNext.RangeNextValueUnchecked | src/quadwt/mod.rs:460-563 | the least symbol of the range from the target up to the reach of the level count, or nothing when there is none, after at most 2 n + 1 pops for n levels |
| RangeNext.RangeNextValue | src/quadwt/mod.rs:420-458 | the exact successor in the range if and only if there is one within reach or none at all, which always holds up to 31 levels |
| RangeNext.LargestSymbolMissed | src/quadwt/mod.rs:533-536 | with 32 levels a text of the largest 64-bit symbol alone has a successor that the query does not find |
| RangeFrames.RunsAreRankDifferences | src/quadwt/mod.rs:1251-1286 | every listed count is the difference of the two ranks at the ends of the range, and positive |
| RangeIterators.OccsRange | src/quadwt/mod.rs:1184-1226 | refuses exactly ranges that are not inside the text; otherwise what the iterator still lists is the distinct symbols of the range, strictly ascending, with their counts |
| RangeIterators.OccsRangeIter.Next | src/quadwt/mod.rs:1251-1286 | takes the next of the listed symbols off the front, ends exactly when none is left, and leaves at most 3 n + 1 frames |
| RangeDistinct.RangeDistinctIter.NextSymbol | src/quadwt/mod.rs:1359-1450 | the same through a fixed array of 128 frames and collapsed unary paths |
| RangeDistinct.BothIterators | src/quadwt/mod.rs:1295-1450 | both iterators list the same pairs |
| BulkExtract.ExtractRange | src/quadwt/mod.rs:957-1107 | the recursion fills the output with a sorted permutation of the range |
| BulkExtract.ExtractRangeDistinct | src/quadwt/mod.rs:994-1162 | the strictly ascending list of exactly the symbols in the range |
| LimitLengths.LimitCodeLengths | src/quadwt/huffqwt.rs:83-127 | lengths within 32 bits are untouched; otherwise they are capped and lengthened by even steps until the codes fit the 2^32 slots and not a step further: whoever was lengthened has every less frequent symbol at 32 bits, and without the last step of some symbol the codes would not fit; this fails exactly when an alphabet of more than 2^32 symbols needs capping |
| AssignCodes.Assign | src/quadwt/huffqwt.rs:141-164 | every symbol gets the greatest code of its length, in reversed-digit order, that no earlier code begins; symbols without length get no code; succeeds exactly when the scratch array of four slots a symbol is large enough at every split |
| AssignCodes.StateSplit | src/quadwt/huffqwt.rs:145-155 | splitting all open prefixes keeps them strictly descending, below every code handed out, and as many as the code space still holds |
| AssignCodes.NearlyFullFits | src/quadwt/huffqwt.rs:136-155 | the scratch array is large enough for all lengths that leave less than one node of the last but one depth unused |
| AssignCodes.LooseLengthsOverflow | src/quadwt/huffqwt.rs:136-155 | one symbol with a two-digit code is too much for the scratch array |
| HuffmanCodes.CraftWmCodes | src/quadwt/huffqwt.rs:130-166 | codes have the limited lengths; shorter before longer, among equal lengths more frequent before rarer and then smaller before larger symbols, each gets the greatest code that none before it begins; with the exact condition under which this succeeds |
| HuffmanCodes.EqualLengths | src/quadwt/huffqwt.rs:133-164 | of two symbols with equally long codes the more frequent one, or the smaller of equally frequent ones, has the greater code in reversed-digit order |
| HuffmanCodes.CraftedOnce | src/quadwt/huffqwt.rs:130-166 | lengths and frequencies determine every code |
| CodeOrder.FinishedLastPrefixFree | src/quadwt/huffqwt.rs:130-166 | codes whose finished words exceed all longer ones in reversed-digit order are prefix-free |
| CodeOrder.CodeOrderAligns | src/quadwt/huffqwt.rs:1011-1026 | with such codes, after every stable partition the finished rows are exactly those past the end of the next level, which is all that `get` tests |
| BuildHuffWavelet.FromOwned | src/quadwt/huffqwt.rs:218-338 | for all even lengths with room for all codes: the code of every symbol has its limited length, the longest has two bits a level, every level holds the digits of exactly the rows that reach it, the tables read each other backwards, and the text is refused exactly when no codes could be built |
| HuffWavelet.HuffQWaveletTree.RepresentsServes | src/quadwt/huffqwt.rs:218-338 | a tree from construction meets all that queries rely on, and exactly the symbols of the text have a code |
| HuffWavelet.HuffQWaveletTree.GetUnchecked | src/quadwt/huffqwt.rs:1005-1036 | the digits read until the row leaves the levels are the code of the i-th symbol, the table entry is found, and the symbol is returned |
| HuffWavelet.HuffQWaveletTree.RankUnchecked | src/quadwt/huffqwt.rs:1246-1269 | returns the naive count |
| HuffWavelet.HuffQWaveletTree.RankOf | src/quadwt/huffqwt.rs:1210-1218 | nothing exactly for a position past the end or a symbol without code, else the naive count |
| HuffWavelet.HuffQWaveletTree.Select | src/quadwt/huffqwt.rs:1300-1350 | answers with the end of the climb, and on every tree that serves its text this is the k-th occurrence, or nothing exactly when there are not that many |
| HuffWavelet.HuffQWaveletTree.ClimbSelects | src/bytes/view.rs:1101-1144 | where the climb arrives is the occurrence, in both directions, for every stack of levels that serves a text |
| HuffPaths.ClimbBegins | src/quadwt/huffqwt.rs:1333-1349 | a descent from where the climb arrives reads the code and returns to where the climb started |
| HuffPaths.BeginsClimb | src/quadwt/huffqwt.rs:1333-1349 | and every row whose path reads the code is found by the climb |
| HuffWavelet.HuffQWaveletTree.EmptyTextSelect | src/bytes/view.rs:1101-1144 | about an empty text `select` finds nothing for all symbols and indices if and only if no row of the first level begins with a code, if and only if it finds no first occurrence of a symbol with a code |
| HuffParts.CheckTables | src/quadwt/huffqwt.rs:476-539 | the two loops accept exactly the encode and decode tables that describe the same codes, sorted and within the levels |
| HuffParts.AcceptedServes | src/quadwt/huffqwt.rs:540-644 | everything accepted answers every query about the text it decodes to: no failing table search, no index out of range |
| HuffWalk.WalkPrefixes | src/bytes/view.rs:901-968 | the worklist over populated prefixes terminates and accepts exactly the levels of which every row decodes |
| HuffAssembly.OwnedFromParts | src/quadwt/huffqwt.rs:425-656 | accepts exactly the described parts, and what it accepts serves its decoded text |
| HuffAssembly.OpenView | src/bytes/view.rs:701-980 | the same for the borrowed view, which lets an empty text keep its levels |
| HuffAssembly.ServesAccepted | src/quadwt/huffqwt.rs:425-656 | whatever answers about some text is accepted, and that text is the one it decodes to |
| HuffAssembly.BuiltIsAccepted | src/quadwt/huffqwt.rs:425-656 | construction passes the checks and is reopened with the same text |
| HuffParts.ViewAcceptsMore | src/bytes/view.rs:899-908 | the owned tree accepts exactly what the view accepts with rows or without levels |
| HuffAssembly.EmptyViewSelect | src/bytes/view.rs:1101-1144 | the exact condition for `select` on an accepted view of an empty text, which no level or an empty first level meets |
| HuffAssembly.EmptyTextWithRows | src/bytes/view.rs:899-908 | an accepted view of an empty text on which `select` of symbol 0 answers with row 0 |
| HuffIterators.OccsRange | src/quadwt/huffqwt.rs:1069-1112 | the listed pairs are the distinct symbols of the range with their counts, each once, if and only if the decode table has no entry for zero digits; else the only pair is the symbol of such an entry with the length of the range |
| HuffIterators.HuffOccsRangeIter.Next | src/quadwt/huffqwt.rs:1137-1180 | takes the next pair off the front, ends exactly when none is left, and leaves at most 3 n + 1 frames |
| HuffIterators.BuiltHasNoEmptyCode | src/quadwt/huffqwt.rs:238-252 | no tree from construction has such an entry |
| HuffIterators.EmptyCodeAccepted | src/quadwt/huffqwt.rs:501-539 | the checks accept a table that has one |
| LevelViews.FromDir | src/bytes/level.rs:127-399 | accepts exactly the levels whose every counter is the rank it stands for, whose samples bracket their occurrences and whose offsets are the numbers of smaller symbols; all queries are then those of a built level |
| LevelViews.Reopen | src/bytes/level.rs:127-399 | accepts every level that the builder makes |
| SelectAfters.SelectAfter | src/bytes/level.rs:530-590 | advancing by `a` from a position is `select` of the rank behind it plus a - 1, never into the padding of the last line |
| SelectCursors.SelectCursor | src/bytes/view.rs:210-245 | refuses exactly the empty text and symbols above the largest |
| SelectCursors.QwtSelectCursor.Next | src/bytes/view.rs:511-536 | the n-th call returns the n-th occurrence and ends exactly after the last; every remembered position stays the `select` of its remembered index, and every advance is positive |
| SelectCursors.Drain | src/bytes/view.rs:504-549 | a cursor run to its end yields all positions of its symbol, ascending |
| LevelEncoders.LevelEncoder.Push | src/bytes/direct.rs:333-378 | one digit at a time keeps lines, counters and samples those of the digits so far |
| LevelEncoders.LevelEncoder.PushBlock | src/bytes/direct.rs:380-458 | so does any block, cut into pieces of at most 64 rows counted by population counts |
| LevelEncoders.StateDetermined | src/bytes/direct.rs:285-458 | the state depends on the digits alone, so every chunking, by `push` or `push_block`, leaves the same |
| LevelEncoders.LevelEncoder.Finish | src/bytes/direct.rs:460-528 | the files are the lines of the quad vector, and the superblocks are those of the support builder if and only if there is a row |
| BucketRuns.WriteBucketRuns | src/bytes/direct.rs:208-232 | writing maximal runs appends to every bucket its own elements in order |
| DirectWriter.WriteDirect | src/bytes/direct.rs:647-783 | for every block size the levels hold the digits of the wavelet matrix, and the builder refuses exactly a declared maximum that is wrong |
| DirectWriter.StreamedIsBuilt | src/bytes/direct.rs:647-783 | lines, superblocks, samples and counts of every level are those of the tree in memory |
| DirectHuffWriter.CountFrequencies | src/bytes/direct_huff.rs:135-167 | refuses exactly sources that are not dense, and counts all occurrences |
| DirectHuffWriter.WriteHuffDirect | src/bytes/direct_huff.rs:264-409 | the five-bucket passes give every level the digits of exactly the rows that reach it, in order |
| DirectHuffWriter.StreamedHuffIsBuilt | src/bytes/direct_huff.rs:264-409 | levels and their lengths are those of the Huffman tree in memory |
| StreamedContainers.WriteQwtb | src/bytes/direct.rs:573-798 | for every source the final cursor is within the announced output bound, which exceeds it by at most 144 bytes a level, and every level is within the announced scratch space, which exceeds the needs of the first level by at most 16 bytes |
| StreamedContainers.StreamedQwtb | src/bytes/direct.rs:742-766 | the directory and the size are those of the container of the tree in memory |
| StreamedContainers.WriteHqwb | src/bytes/direct_huff.rs:80-431 | for all codes the final cursor is within the bound that is announced for the alphabet size alone, and every level within the scratch bound, as closely as in the plain builder |
| StreamedContainers.StreamedHqwb | src/bytes/direct_huff.rs:188-396 | code tables, directory and size are those of the container of the Huffman tree in memory |
| StreamedContainers.TableBytes | src/bytes/direct_huff.rs:63-69 | a decode table has at most one entry a symbol |
| SpaceBounds.SampleTotal | src/bytes/direct.rs:826-831 | however the rows are spread over four symbols, the samples stay within one bound |
| SpaceBounds.PeaksWithinScratch | src/bytes/direct.rs:868-898 | source, partition and level files together fit the scratch bound at every level, and the first level leaves at most 16 bytes of it unused |
| SpaceBounds.OutputTight | src/bytes/direct.rs:800-841 | the output bound exceeds the end of the last payload by at most 144 bytes a level when every level holds all rows |
| SpaceBounds.BoundsFit | src/bytes/direct.rs:800-841 | the bounds themselves fit 64 bits for every row count of the format |
| LevelPlaces.PlaceLevels | src/bytes/qwtb.rs:186-226 | all payloads are aligned, disjoint and in order, and the size follows from the largest level |
| LevelPlaces.AllPlacedOnce | src/bytes/qwtb.rs:186-226 | counts and start determine every offset |
| ByteCodec.FieldIsLe | src/bytes/qwtb.rs:103-117 | little-endian writing puts digit k to the base 256 at byte k, and such bytes stand for no other number |
| ByteCodec.SymbolInBytes | src/qvector/mod.rs:53-67 | the two bits of every symbol of a written line, at byte `i / 8` and 32 bytes further |
| LevelBytes.ReadVector | src/bytes/qwtb.rs:385-425 | a directory entry is used exactly when all its regions are aligned and inside the file and its position fits its lines |
| Containers.ReadPreamble | src/bytes/qwtb.rs:324-355 | accepted exactly with the magic, version 1, no prefetch flag, the block-size flag of the type asked for and its width |
| QwtbFormat.ToBytes | src/bytes/qwtb.rs:169-282 | the buffer holds header, directory and payloads, each number byte by byte at its place, lowest byte first, every directory entry with the offsets and counts of its level, and zeros everywhere else |
| QwtbFormat.FromBytes | src/bytes/qwtb.rs:316-437 | returns a tree if and only if magic, version, flags and width are those asked for and header, directory and lines describe that tree, with all counters rebuilt from its symbols; it answers about its own text, and every written tree is read back |
| QwtbFormat.PartsOnce | src/bytes/qwtb.rs:316-437 | the bytes determine header numbers and all symbols |
| QwtbFormat.Reload | src/bytes/qwtb.rs:169-437 | writing and reading gives the same tree, word for word, the empty one included |
| HqwbFormat.ToBytes | src/bytes/hqwb.rs:174-336 | the same with code tables, entry by entry, refused exactly when a table is too long for its 16-bit length |
| HqwbFormat.FromBytes | src/bytes/hqwb.rs:370-516 | the same exact condition with lengths and code tables; what is read serves the text it decodes to, and every written tree is read back |
| HqwbFormat.Reload | src/bytes/hqwb.rs:174-516 | writing and reading gives the same tree, word for word, the empty one included |
| WideRS.NewWide | src/bitvector/wide.rs:50-148 | one pass leaves exact 44-bit and 12-bit counters that never overlap, and hints that bracket their superblocks |
| WideRS.RS.Rank1Unchecked | src/bitvector/wide.rs:329-347 | equals the naive count of ones |
| WideRS.RS.Select | src/bitvector/wide.rs:217-294 | ones and zeros: the i-th occurrence, or nothing exactly when there are not that many; padding never answers |
| NarrowRS.NewNarrow | src/bitvector/narrow.rs:46-126 | exact block ranks and 9-bit word ranks, and hints that bracket their blocks |
| NarrowRS.RS.Rank1Unchecked | src/bitvector/narrow.rs:299-322 | equals the naive count of ones |
| NarrowRS.RS.Select | src/bitvector/narrow.rs:183-262 | the i-th occurrence of a bit, or nothing exactly when there are not that many |

## Findings

Where the code does not do what its documentation promises, the model keeps the
code and states exactly when the promise holds.

- `select` on an empty plain tree. The guard `symbol > sigma` lets symbol 0
  through, and `n_levels - 1` (`src/quadwt/mod.rs:1678`) wraps in a release
  build, so no level is visited and the index itself is returned
  (`QuadWavelet.QWaveletTree.Select`: right if and only if the text is not empty
  or the symbol is not 0).
- `range_next_value` with 32 levels. The width of the root, 2^64
  (`src/quadwt/mod.rs:533`), does not fit `usize`; a text that needs 32 levels
  can miss its successor (`RangeNext.RangeNextValue`: right if and only if the
  successor is within reach or does not exist; `LargestSymbolMissed` is a text).
- The borrowed Huffman view of an empty text. The checks skip the walk over
  paths when `n == 0` but keep levels and codes, and `select` never looks at
  `n` (`HuffAssembly.EmptyTextWithRows` is such a view, `EmptyViewSelect` the
  exact condition). A caller is safe with `n > 0` or `n_levels == 0`. `get` and
  `rank` are right about every accepted view.
- An entry for zero digits. Both Huffman checks accept a decode table with an
  entry in bucket 0 for a symbol without code; `occs_range` then lists that
  symbol for the whole range (`HuffIterators.OccsRange`: right if and only if
  there is no such entry; `BuiltHasNoEmptyCode` and `EmptyCodeAccepted`). `get`,
  `rank` and `select` are not affected.
- `LevelEncoder::finish` after no rows writes two superblocks where the support
  builder makes one (`LevelEncoders.LevelEncoder.Finish`: equal if and only if
  there is a row). The builders never call it so.
- The scratch array of `craft_wm_codes` has four slots a symbol. Lengths that
  waste much of the code space overrun it (`LooseLengthsOverflow`);
  `AssignCodes.Assign` succeeds if and only if every split fits, and
  `NearlyFullFits` covers the lengths of optimal four-way codes.
- `limit_code_lengths` panics for more than 2^32 symbols that need capping, and
  for no other input (`LimitLengths.LimitCodeLengths`).

## Left out

- Huffman lengths: the crate that computes optimal lengths is not part of this model; lengths are an input, any even lengths with room for all codes are covered, and optimality is not claimed.
- `src/binwt`: the radix-2 tree, whose codes, levels and queries repeat the four-way ones with two digits; nothing in the model speaks about it.
- `DArray`: not modelled; its `select` is exact only while no dense block follows a sparse one.
- Prefetching (`PrefetchSupport`, `rank_prefetch`), CPU dispatch and profiling: they change no result.
- `BitVectorMut`, the safe `DataLine::select0` of bit vectors, conversions and serde: not used by what is modelled.
- Word-level `select_in_word` and population count: given by their meaning, the position of the k-th set bit and the number of set bits; the table and the broadword arithmetic are not modelled.
- Files, directories, renames, syncs, byte casts, alignment of addresses and byte order of the host: a file is the sequence of its records, and a container is a sequence of bytes.
- `src/bytes/level.rs` queries: a borrowed level is modelled as the level it describes, so the queries of the owned level stand for those of the view.
- Integer width: positions and counts are unbounded except where a field, a shift or a wrap-around is named; texts are shorter than 2^43, the limit of the counters, and symbols are below 2^64. An occurrence index that makes `rank + index` pass 2^64 is not modelled.
- Error values: a refusal is `None` whatever its message; a panic that a check can reach is a refusal, too.
- The streamed containers' bytes: payloads, directory entries and offsets are proved equal to those of the container in memory, but the copying of the files into the output is not modelled.
- `range_next_value_scan`, `iter` and the convenience wrappers around the queries: they add easy members only.
