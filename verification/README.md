# Verified models of the emulator's arithmetic and protocol cores

This project states and proves what the hardest parts of the emulator are for. The whole project
verifies with `dafny verify dfyconfig.toml`.

* **Gfx10 detiler** (`Bits`, `PopulationCount`, `Permutations`, `Swizzle`, `Detile`, `DetileLaws`,
  `SwizzleTables`, `SurfaceLaws`, `MipChain`, `MipNumbers`, `MipTail`). The twenty XOR tables and
  both bit interleaves permute every swizzle block. The argument is linear algebra over GF(2): two
  coordinates of one block with equal offsets differ by a vector in the kernel of the table, and
  back-substitution shows the kernel to be trivial; counting turns one-to-one into onto. What each
  table says is pinned in numbers: the byte offset of every single coordinate bit, and the XOR law
  that gives all others. Above it, detiling reads disjoint ranges inside the tiled surface, inverts
  tiling, and is inverted by it on whole blocks. Mip chains are partitions of their slice, and the
  tail rectangle is copied from the right bytes. Products and quotients of variables go through
  `Mul` and `Quotient`, which `MulIsProduct` and `DivisionIsDivision` show to be the ordinary
  operations.
* **Configuration** (`Json`, `JsonLaws`, `JsonText`, `JsonCode`, `Config`, `ConfigLaws`,
  `ConfigText`, `ConfigCode`, `ConfigService`). Printing and parsing JSON undo each other, and load,
  save and load again is the same configuration. Doubles are abstract: a machine brings a spelling,
  a scanner and casts, of which `Faithful` and `Sound` say what the C++ library guarantees.
* **Crypto** (`AesTables`, `Aes`, `AesField`, `AesKeys`, `AesExample`, `AesModes`, `AesCode`,
  `AesModeCode`, `Sha256`, `Sha256Words`, `Sha256Example`, `Sha256Code`). The in-place AES rounds
  and mode loops compute functions that are inverse to each other (FIPS 197, NIST SP 800-38A, IEEE
  1619). The streaming SHA-256 context is the hash of everything it was given, however the message
  was split (FIPS 180-4). The S-box is the affine image of the field inverse, and the published
  examples of both standards are proved step by step.
* **Lifecycles** (`ThreadModel` and `ThreadRegistry`, `PadOutput` and `PadCode`, `Present`,
  `ShaderCache`, `Dedup`). State machines whose steps are the locked sections, single statements,
  driver calls or file operations of the source, with invariants over every run. The registry, the
  controller slot, the ring buffer and the dedup gate are also written as the objects they are, each
  method tied to a step or to a function of the old state.
* **Bit-level cores** (`BitScatter`, `BitFields`, `Pm4`, `Nid`, `NidText`, `NidCode`, `Sha1`,
  `Sha1Code`, `Sha1Example`). PDEP and PEXT, bit fields, PM4 packets and their patching, the name
  table, and the two implementations of the NID spelling from the name on.

Some statements hold only under a condition, which the lemmas give exactly:

* A JSON value with an infinity or a NaN prints as text that no longer parses, so a configuration
  with such a float is saved into a file that cannot be loaded (`JsonLaws.PrintThenParse`,
  `ConfigLaws.SaveThenLoad`).
* The tail position of mip 0 has the tail offset as its swizzled offset for the base equations
  and some layouts without a table only. The pipe XOR of modes 24 and 27 spreads the top x bit
  (`MipTail.TailPlaceIsTailOffset`, `MipTail.PipeXorTop`).
* A bare database key whose last character has a padding bit set is stored, but its identifier finds
  the entry of the canonical spelling instead, or nothing (`Nid.LineIsFound`, `Nid.StoredAndMissed`).
* A dedup window outside 64 bits is saved as another number when the cast left one that no double
  holds (`ConfigLaws.LoadThenSaveThenLoad`).
* A surface whose extent wraps in rounding up to blocks has byte count zero, and a chain of 2^64 bytes
  loses the high part of its offsets (`Detile.TiledSurfaceByteCount`, `MipChain.GetBaseMipPlacement`).
* A message whose key changes at clock time zero loses the pending line before it, because zero
  stands for "nothing to flush" (`Dedup.Gate.Gated`, `Dedup.ClockZero`).
* A cache entry of 2^32 words or more is written but dropped as corrupt by the next load
  (`ShaderCache.StoreThenLoad`).

Where a comment of the source and its code disagree the model follows the code: critical log
messages flush first and then still go through the dedup gate (src/common/log.cpp:402-448).

## Model

| member | source | states |
|---|---|---|
| PopulationCount.FoldedPopCount | src/gpu/gfx10_state.cpp:609-613 | the shift, mask and multiply folds give the number of one bits of every 32-bit word |
| PopulationCount.Collect | src/gpu/gfx10_state.cpp:612 | the product by 0x01010101 adds the four byte counts in its top byte and nothing spills into it |
| Swizzle.ParityIsXor | src/gpu/gfx10_state.cpp:593-607 | masking and counting computes the XOR of exactly the coordinate bits a table row names |
| Swizzle.RenderXKernel | src/gpu/gfx10_state.cpp:618-639 | with the block bits fixed, only equal coordinates agree on all sixteen R_X rows, at each of the five element sizes |
| Swizzle.DepthXKernel | src/gpu/gfx10_state.cpp:641-658 | the same for the five Z_X tables |
| Swizzle.Standard64KKernel | src/gpu/gfx10_state.cpp:660-674 | the same for the five 64 KiB S tables |
| Swizzle.Standard4KKernel | src/gpu/gfx10_state.cpp:676-689 | the same for the five 12-row 4 KiB S tables |
| Swizzle.InterleaveKernel | src/gpu/gfx10_state.cpp:764-783 | the same for both interleaves at any width and height bit counts |
| Swizzle.OffsetsAreDistinct | src/gpu/gfx10_state.cpp:753-761 | two whole coordinates in the same block with the same swizzled offset are the same coordinate |
| Swizzle.OffsetIsElementOffset | src/gpu/gfx10_state.cpp:753-761 | an offset is a multiple of the element size and lies inside the block |
| Swizzle.PlacesAreDistinct | src/gpu/gfx10_state.cpp:618-689 | inside every block the element order is one to one |
| Swizzle.EveryOffsetIsTaken | src/gpu/gfx10_state.cpp:618-689 | and onto: every element offset below the block size belongs to a place of the block, found by the lemma |
| Swizzle.ComputePatternOffset | src/gpu/gfx10_state.cpp:753-761 | the counting loop returns the number whose bit i is the parity of table row i |
| Swizzle.StandardSwizzleOffset | src/gpu/gfx10_state.cpp:764-772 | the x-first loop computes the interleave equation, for unequal bit counts too |
| Swizzle.MortonInterleave | src/gpu/gfx10_state.cpp:775-783 | the y-first loop computes its interleave equation |
| SwizzleTables.RenderX0 | src/gpu/gfx10_state.cpp:620-622 | 64 KiB R_X, 1 byte an element, in numbers: the byte offset of every coordinate with one bit set |
| SwizzleTables.RenderX1 | src/gpu/gfx10_state.cpp:624-626 | 64 KiB R_X, 2 bytes an element, in numbers: the byte offset of every coordinate with one bit set |
| SwizzleTables.RenderX2 | src/gpu/gfx10_state.cpp:628-630 | 64 KiB R_X, 4 bytes an element, in numbers: the byte offset of every coordinate with one bit set |
| SwizzleTables.RenderX3 | src/gpu/gfx10_state.cpp:632-634 | 64 KiB R_X, 8 bytes an element, in numbers: the byte offset of every coordinate with one bit set |
| SwizzleTables.RenderX4 | src/gpu/gfx10_state.cpp:636-638 | 64 KiB R_X, 16 bytes an element, in numbers: the byte offset of every coordinate with one bit set |
| SwizzleTables.DepthX0 | src/gpu/gfx10_state.cpp:642-644 | 64 KiB Z_X, 1 byte an element, in numbers: the byte offset of every coordinate with one bit set |
| SwizzleTables.DepthX1 | src/gpu/gfx10_state.cpp:645-647 | 64 KiB Z_X, 2 bytes an element, in numbers: the byte offset of every coordinate with one bit set |
| SwizzleTables.DepthX2 | src/gpu/gfx10_state.cpp:648-650 | 64 KiB Z_X, 4 bytes an element, in numbers: the byte offset of every coordinate with one bit set |
| SwizzleTables.DepthX3 | src/gpu/gfx10_state.cpp:651-653 | 64 KiB Z_X, 8 bytes an element, in numbers: the byte offset of every coordinate with one bit set |
| SwizzleTables.DepthX4 | src/gpu/gfx10_state.cpp:655-657 | 64 KiB Z_X, 16 bytes an element, in numbers: the byte offset of every coordinate with one bit set |
| SwizzleTables.Standard64K0 | src/gpu/gfx10_state.cpp:662-663 | 64 KiB S, 1 byte an element, in numbers: the byte offset of every coordinate with one bit set |
| SwizzleTables.Standard64K1 | src/gpu/gfx10_state.cpp:664-665 | 64 KiB S, 2 bytes an element, in numbers: the byte offset of every coordinate with one bit set |
| SwizzleTables.Standard64K2 | src/gpu/gfx10_state.cpp:666-667 | 64 KiB S, 4 bytes an element, in numbers: the byte offset of every coordinate with one bit set |
| SwizzleTables.Standard64K3 | src/gpu/gfx10_state.cpp:669-670 | 64 KiB S, 8 bytes an element, in numbers: the byte offset of every coordinate with one bit set |
| SwizzleTables.Standard64K4 | src/gpu/gfx10_state.cpp:672-673 | 64 KiB S, 16 bytes an element, in numbers: the byte offset of every coordinate with one bit set |
| SwizzleTables.Standard4K0 | src/gpu/gfx10_state.cpp:679-680 | 4 KiB S, 1 byte an element, in numbers: the byte offset of every coordinate with one bit set |
| SwizzleTables.Standard4K1 | src/gpu/gfx10_state.cpp:681-682 | 4 KiB S, 2 bytes an element, in numbers: the byte offset of every coordinate with one bit set |
| SwizzleTables.Standard4K2 | src/gpu/gfx10_state.cpp:683-684 | 4 KiB S, 4 bytes an element, in numbers: the byte offset of every coordinate with one bit set |
| SwizzleTables.Standard4K3 | src/gpu/gfx10_state.cpp:685-686 | 4 KiB S, 8 bytes an element, in numbers: the byte offset of every coordinate with one bit set |
| SwizzleTables.Standard4K4 | src/gpu/gfx10_state.cpp:687-688 | 4 KiB S, 16 bytes an element, in numbers: the byte offset of every coordinate with one bit set |
| SwizzleTables.StepIsSum | src/gpu/gfx10_state.cpp:753-761 | the byte offset of one coordinate bit is the sum of 2^r over the table rows r that name it |
| SwizzleTables.OffsetOfXor | src/gpu/gfx10_state.cpp:753-761 | the offset of an XOR of coordinates is the XOR of their offsets, so the one-bit offsets give every offset of every equation |
| SwizzleTables.InterleaveSteps | src/gpu/gfx10_state.cpp:764-783 | the one-bit offsets of both interleaves: alternating places, x or y first, then the rest of the longer axis |
| SurfaceLaws.SupportedModes | src/gpu/gfx10_state.cpp:705-726 | modes 1, 4, 5, 8, 9, 24 and 27 with the powers of two up to 256, 4096 or 65536 bytes, and nothing else |
| SurfaceLaws.BlockShape | src/gpu/gfx10_state.cpp:730-738 | a block is square or twice as wide as high and holds exactly the bytes of its mode |
| SurfaceLaws.BlocksAreCeiling | src/gpu/gfx10_state.cpp:814-815 | the number of blocks along an axis is the least that covers the extent |
| SurfaceLaws.EquationOfMode | src/gpu/gfx10_state.cpp:742-751 | which mode and element size has which table, and which interleave otherwise, y first in modes 4, 8 and 24 |
| SurfaceLaws.SourceInNumbers | src/gpu/gfx10_state.cpp:867-883 | the source byte of an element in ordinary division: the block of (x, y), row by row, times the block size, plus the offset of the equation |
| SurfaceLaws.FirstElements | src/gpu/gfx10_state.cpp:628 | mode 27 at 4 bytes: elements (1, 0), (2, 0) and (0, 1) of a 128 wide surface are read at bytes 4, 8 and 16 |
| Detile.BitLog2 | src/gpu/gfx10_state.cpp:693-698 | the exponent of a power of two, -1 of everything else |
| Detile.SquareBlockDimensions | src/gpu/gfx10_state.cpp:730-738 | fails exactly off the powers of two; otherwise the squarer split with the odd bit in the width |
| Detile.BlockHolds | src/gpu/gfx10_state.cpp:705-726 | an element larger than the block is refused by the logarithm of zero, every smaller power of two is accepted |
| Detile.BlockGeometry | src/gpu/gfx10_state.cpp:827-840 | the entry checks succeed exactly for a supported mode and a power-of-two element size up to the block, and give that block |
| Detile.BuildBlockTable | src/gpu/gfx10_state.cpp:851-864 | every entry of the table holds the interleave value of its in-block coordinate |
| Detile.TableHolds | src/gpu/gfx10_state.cpp:881-883 | the cached entry for any coordinate equals the in-block element offset the equation gives |
| Detile.TiledSurfaceByteCount | src/gpu/gfx10_state.cpp:795-817 | succeeds exactly on non-empty surfaces of a supported layout; for all 32-bit extents the count is that of the whole blocks covering them exactly when neither the rounding nor the product wraps |
| Detile.DescriptorsFitWords | src/gpu/gfx10_state.cpp:809-815 | surfaces with extents up to 65536 wrap nowhere and stay below 2^48 bytes |
| Detile.SourceInRange | src/gpu/gfx10_state.cpp:877-889 | every element of a surface is read inside TiledSurfaceByteCount bytes |
| Detile.SourcesAreDistinct | src/gpu/gfx10_state.cpp:874-883 | elements read from the same tiled position are the same element |
| Detile.SourcesAreDisjoint | src/gpu/gfx10_state.cpp:877-891 | distinct elements read disjoint byte ranges |
| Detile.SourceOf | src/gpu/gfx10_state.cpp:874-883 | both branches of the source expression give the byte the swizzle equation names |
| Detile.MemCpy | src/gpu/gfx10_state.cpp:890-891 | one copy changes the destination range and nothing else |
| Detile.DetileSurface | src/gpu/gfx10_state.cpp:819-895 | returns true exactly under the listed conditions; then the whole buffer is the detiled image over its old contents, and a false call leaves it untouched |
| DetileLaws.DescriptorWidth | src/gpu/gfx10_state.cpp:169 | a descriptor width is between 1 and 65536 |
| DetileLaws.DescriptorHeight | src/gpu/gfx10_state.cpp:170 | a descriptor height is between 1 and 65536 |
| SurfaceLaws.DescriptorExtents | src/gpu/gfx10_state.cpp:169-170 | an extent minus one, split over the fields of words 1 and 2, decodes to the extent whatever the bits around it |
| DetileLaws.EveryElementIsCopied | src/gpu/gfx10_state.cpp:867-893 | with a whole tiled surface the skip guard never fires: byte j of element (x, y) is byte j of its own source |
| DetileLaws.NothingElseIsWritten | src/gpu/gfx10_state.cpp:867-893 | bytes behind the image keep their values |
| DetileLaws.DetilingUndoesTiling | src/gpu/gfx10_state.cpp:819-895 | detiling a tiled image gives the image back: every supported mode, element size, extent and image |
| DetileLaws.EveryElementIsRead | src/gpu/gfx10_state.cpp:867-893 | when the extents are whole blocks every tiled element is the source of some element |
| DetileLaws.TilingUndoesDetiling | src/gpu/gfx10_state.cpp:819-895 | when the extents are whole blocks, tiling the detiled buffer gives every tiled byte back |
| MipChain.FirstFits | src/gpu/gfx10_state.cpp:934-942 | the walk stops at the first mip that fits the tail with every smaller one, and at no earlier one |
| MipChain.MipIsASurface | src/gpu/gfx10_state.cpp:943-947 | a mip takes exactly the TiledSurfaceByteCount of its own extents |
| MipChain.StartsAreAligned | src/gpu/gfx10_state.cpp:990-1000 | every mip of the chain starts on a block boundary |
| MipChain.ChainIsGapFree | src/gpu/gfx10_state.cpp:990-1000 | the tail block and the mips laid smallest first follow one another without a gap, up to the slice size |
| MipChain.StartsAreOrdered | src/gpu/gfx10_state.cpp:994-996 | a smaller mip ends before a larger one starts |
| MipChain.EveryByteHasOneOwner | src/gpu/gfx10_state.cpp:990-1000 | a partition: every byte of the slice lies in the tail block or in exactly one mip |
| MipChain.TailOffsets | src/gpu/gfx10_state.cpp:953-955 | the tail offsets that occur are half a block |
| MipChain.MicroTiles | src/gpu/gfx10_state.cpp:969-976 | the deinterleaved micro-tile position is exactly half the block width, and fails exactly for elements above 256 bytes |
| MipChain.PlacementHoldsMip0 | src/gpu/gfx10_state.cpp:950-1001 | a successful placement holds mip 0: inside the tail block, or block-aligned with offset plus size equal to the slice |
| MipChain.GetBaseMipPlacement | src/gpu/gfx10_state.cpp:900-1002 | for all 32-bit extents: succeeds exactly when mip 0 is not in the tail or fits beside its middle; every output field is stated, and the offsets are those in whole numbers exactly when the slice has less than 2^64 bytes |
| MipChain.DescriptorChainsFit | src/gpu/gfx10_state.cpp:943-999 | chains of surfaces with extents up to 65536 stay below 2^64 bytes |
| MipNumbers.ExtentIsQuotient | src/gpu/gfx10_state.cpp:935-936 | the extent of mip i is the quotient by 2^i, and 1 where that is zero |
| MipNumbers.MipBytesInNumbers | src/gpu/gfx10_state.cpp:943-947 | a mip takes the covering blocks of both axes times the block size |
| MipNumbers.TailInNumbers | src/gpu/gfx10_state.cpp:922-942 | a mip fits the tail when it is at most a block wide and half a block high and at most eight or twelve levels are left; never in mode 1 |
| MipNumbers.LargeChain | tests/gfx10_state_tests.cpp:566-577 | 13 levels of 4096 by 4096 at 4 bytes in mode 9: mip 0 at byte 22413312 of 89522176 |
| MipNumbers.TailChain | tests/gfx10_state_tests.cpp:579-587 | 7 levels of 64 by 64 at 4 bytes in mode 9: in the tail at element (64, 0) of one 65536 byte block |
| MipNumbers.SmallBlockChain | tests/gfx10_state_tests.cpp:589-596 | 6 levels of 32 by 32 at 4 bytes in mode 5: mip 0 at byte 4096 of 8192 |
| MipNumbers.NoTailChain | tests/gfx10_state_tests.cpp:598-605 | 7 levels of 64 by 64 bytes in mode 1: no tail, mip 0 at byte 2304 of 6400 |
| MipTail.TailPlaceIsTailOffset | src/gpu/gfx10_state.cpp:950-976 | the tail position of mip 0 has the tail offset as its swizzled byte offset exactly for the Z and S base equations and the tableless layouts of TailAgrees; the X modes with a table fail it |
| MipTail.OffsetAtPower | src/gpu/gfx10_state.cpp:753-761 | a single x bit reaches the top offset bit alone exactly when no other row uses it |
| MipTail.PipeXorTop | src/gpu/gfx10_state.cpp:618-658 | in both X tables the top x bit reaches further offset bits: the counterexample behind the tail condition |
| MipTail.DetileTailMip0 | src/gpu/gfx10_state.cpp:1007-1049 | returns true exactly under the listed conditions, wherever its 32-bit guard tells them; then the buffer is the rectangle of the detiled first block over its old contents |
| MipTail.RectangleElement | src/gpu/gfx10_state.cpp:1039-1047 | byte j of element (x, y) of the copy is that byte of element (tail_x + x, tail_y + y) of the block |
| MipTail.TailElementIsCopied | src/gpu/gfx10_state.cpp:1033-1047 | end to end: each copied byte is the byte of that element at its own swizzled source in the tail block |
| JsonCode.JsonParser.SkipWs | src/config/config.cpp:80-86 | advances behind the blanks and no further |
| JsonCode.JsonParser.Consume | src/config/config.cpp:88-92 | takes the character exactly when it is next behind blanks |
| JsonCode.JsonParser.ParseValue | src/config/config.cpp:94-109 | stays in bounds, terminates on every input and does what the grammar function says |
| JsonCode.JsonParser.ParseObject | src/config/config.cpp:111-131 | the object loop against the grammar, later keys replacing earlier ones |
| JsonCode.JsonParser.ParseArray | src/config/config.cpp:133-148 | the array loop against the grammar |
| JsonCode.JsonParser.ParseString | src/config/config.cpp:150-209 | the escape loop against the grammar, on every byte string |
| JsonCode.JsonParser.ParseNull | src/config/config.cpp:219-224 | including the literal that ends the text after "nul" |
| JsonCode.JsonParser.ParseNumber | src/config/config.cpp:226-243 | takes the longest run of number characters |
| JsonCode.JsonParser.Parse | src/config/config.cpp:65-74 | accepts exactly the texts that are one value with blanks around it, and returns that value |
| JsonCode.WriteString | src/config/config.cpp:247-270 | appends the quoted form and nothing else |
| JsonCode.WriteJson | src/config/config.cpp:274-313 | appends the printed form, compact or pretty, at any depth |
| JsonLaws.StringRoundTrip | src/config/config.cpp:150-209 | every byte string survives quoting and parsing (section 7 of RFC 8259) |
| JsonLaws.NumberRoundTrip | src/config/config.cpp:226-243 | a spelled number is read back in one piece in front of anything a printer writes next |
| JsonLaws.NonFiniteFails | src/config/config.cpp:226-243 | the spelling of an infinity or a NaN is refused in every context |
| JsonLaws.ValueRoundTrip | src/config/config.cpp:94-148 | a printed value in front of any following text parses to itself and leaves that text, or fails when a number inside is not finite |
| JsonLaws.PrintThenParse | src/config/config.cpp:61-313 | parsing the printed text succeeds, consumes everything and returns the value exactly when all numbers are finite; pretty or compact, any depth |
| JsonLaws.ParsedIsPrintable | src/config/config.cpp:94-243 | whatever the parser accepts satisfies the printer's assumptions: keys sorted and distinct at every depth |
| JsonLaws.ParseThenPrint | src/config/config.cpp:61-313 | parse, print and parse again returns the first result exactly when no number overflowed |
| JsonLaws.InsertSets | src/config/config.cpp:111-131 | assigning a member sets that key and no other |
| JsonText.Utf8Form | src/config/config.cpp:186-196 | the bytes of a code point: a lead byte that tells the length, continuation bytes behind it, payload bits that join to the code point, and no shorter form |
| JsonText.UnicodeEscape | src/config/config.cpp:169-198 | a \u escape of any four hex digits appends the bytes of that number and goes on behind them |
| JsonText.AccentAndEuro | src/config/config.cpp:186-196 | the escapes 00e9 and 20AC are the bytes C3 A9 and E2 82 AC |
| JsonText.SimpleEscapes | src/config/config.cpp:157-168 | a string of all one-letter escapes and its eight characters |
| JsonText.PrintedEscapes | src/config/config.cpp:247-270 | quote, backslash, slash and backspace as they are printed |
| JsonText.PrintedControls | src/config/config.cpp:247-270 | form feed, line feed, carriage return and tab as they are printed |
| JsonText.CompactSample | src/config/config.cpp:274-313 | the compact text of an object of an array and an object |
| JsonText.PrettySample | src/config/config.cpp:274-313 | the indented text of an object of an array |
| JsonText.NumberCharacters | src/config/config.cpp:226-243 | a number is the longest run of digits, points, exponent letters and signs |
| JsonText.CutNull | src/config/config.cpp:219-224 | "nul" is null at the end of the text only |
| JsonText.BeforeIsLexicographic | src/config/config.cpp:43 | members stand in dictionary order of their keys |
| ConfigCode.DecodeHex | src/config/config.cpp:491-507 | decodes as far as the digits are good, leaving the bytes in front of a bad digit overwritten |
| ConfigCode.EncodeHex | src/config/config.cpp:509-519 | two digits a byte, high nibble first |
| ConfigService.Settings.ReadLogging | src/config/config.cpp:350-360 | six fields, each named by its key: a member of the right kind replaces the field, a level only under one of its four names; anything else keeps it |
| ConfigService.Settings.ReadCrash | src/config/config.cpp:362-367 | both fields by key: a member of the right kind replaces the field, anything else keeps it |
| ConfigService.Settings.ReadHle | src/config/config.cpp:369-375 | the same for its three fields, numbers through the cast to int |
| ConfigService.Settings.ReadGraphics | src/config/config.cpp:377-385 | the same for the five fields on disk; the other five stay |
| ConfigService.Settings.ReadAudio | src/config/config.cpp:387-393 | the same for its three fields, the volume through the cast to float |
| ConfigService.Settings.ReadInput | src/config/config.cpp:395-401 | the same for its three fields |
| ConfigService.Settings.ReadCpu | src/config/config.cpp:450-455 | the same for its two fields |
| ConfigService.Settings.ReadUi | src/config/config.cpp:464-468 | the same for its field |
| ConfigService.Settings.ReadLoader | src/config/config.cpp:476-480 | the same for its field |
| ConfigService.Settings.ReadSaveDataCrypto | src/config/config.cpp:521-542 | keys are decoded into copies, and malformed ones disarm the section |
| ConfigService.Settings.WriteLogging | src/config/config.cpp:403-412 | the object written holds each of the six fields under its key, the level by its name; no other member of the root changes |
| ConfigService.Settings.WriteGraphics | src/config/config.cpp:426-434 | the object written holds the five fields under their keys; no other member of the root changes |
| ConfigService.Settings.WriteCrash | src/config/config.cpp:413-418 | the object written holds each field of the section under its key; no other member of the root changes |
| ConfigService.Settings.WriteHle | src/config/config.cpp:419-425 | the object written holds each field of the section under its key; no other member of the root changes |
| ConfigService.Settings.WriteAudio | src/config/config.cpp:435-441 | the object written holds each field of the section under its key; no other member of the root changes |
| ConfigService.Settings.WriteInput | src/config/config.cpp:442-448 | the object written holds each field of the section under its key; no other member of the root changes |
| ConfigService.Settings.WriteCpu | src/config/config.cpp:457-462 | the object written holds each field of the section under its key; no other member of the root changes |
| ConfigService.Settings.WriteUi | src/config/config.cpp:470-474 | the object written holds each field of the section under its key; no other member of the root changes |
| ConfigService.Settings.WriteLoader | src/config/config.cpp:483-487 | the object written holds each field of the section under its key; no other member of the root changes |
| ConfigService.Settings.WriteSaveDataCrypto | src/config/config.cpp:544-550 | the object written holds the switch and both keys in hex; no other member of the root changes |
| ConfigService.Settings.WriteUsers | src/config/config.cpp:582-595 | the object written holds the profiles in order and the active index; no other member of the root changes |
| ConfigLaws.HexRoundTrip | src/config/config.cpp:491-519 | the hex text of a key decodes to that key over any old contents |
| ConfigText.HexDigits | src/config/config.cpp:509-519 | digit 2i of a key text spells the high half of byte i, digit 2i + 1 the low half |
| ConfigText.LevelNames | src/config/config.cpp:318-336 | the four level names both ways; the other two levels are written as Info |
| ConfigText.VersionStrings | src/config/config.cpp:803-806 | a version string is a signed decimal number with anything behind it, read when it fits 32 bits |
| ConfigText.EmptyFile | src/config/config.cpp:776-833 | the file {} loads every compiled-in default, value by value |
| ConfigText.SavedText | src/config/config.cpp:855-858 | a saved file is an indented object and a line feed |
| ConfigLaws.LoggingRoundTrip | src/config/config.cpp:350-412 | the section is read back with the level its name shows and the window its double holds |
| ConfigLaws.CrashRoundTrip | src/config/config.cpp:362-418 | a written section is read back whole, over any old values |
| ConfigLaws.HleRoundTrip | src/config/config.cpp:369-425 | a written section is read back whole when its integer is one of 32 bits |
| ConfigLaws.GraphicsRoundTrip | src/config/config.cpp:377-434 | the five fields on disk are read back, the other five stay |
| ConfigLaws.AudioRoundTrip | src/config/config.cpp:387-441 | a written section is read back whole when its values have their types |
| ConfigLaws.InputRoundTrip | src/config/config.cpp:395-448 | a written section is read back whole when its values have their types |
| ConfigLaws.CpuRoundTrip | src/config/config.cpp:450-462 | a written section is read back whole when its integers are of 32 bits |
| ConfigLaws.TextSectionsRoundTrip | src/config/config.cpp:464-487 | the language and the firmware directory are read back as written |
| ConfigLaws.SaveDataRoundTrip | src/config/config.cpp:521-550 | both keys and the switch survive the hex form |
| ConfigCode.LoadProfiles | src/config/config.cpp:555-568 | the profile loop: items that are no objects are passed over, fields default one by one |
| ConfigService.Settings.ReadUsers | src/config/config.cpp:552-580 | the section is overwritten by what the file gives and its active index clamped |
| ConfigLaws.UsersRoundTrip | src/config/config.cpp:552-595 | the section is read back up to the empty list and the clamp |
| ConfigLaws.UsersAreNormal | src/config/config.cpp:552-580 | after every load the active user indexes a profile |
| ConfigService.Settings.LoadFromFile | src/config/config.cpp:776-833 | parse, version, sections and migration; a refused file leaves the settings alone, or read but not migrated when only its version is unknown; after a load the active user indexes a profile |
| ConfigService.Settings.MigrateToCurrent | src/config/config.cpp:861-882 | succeeds exactly from version 1 on, leaves the current version, sets the language of version 1 files only, and changes no other field |
| ConfigService.Settings.SaveToFile | src/config/config.cpp:835-859 | assigning the sections one by one and printing gives the text whose round trip is proved |
| ConfigService.Settings.Carry | src/config/config.cpp:776-859 | saving into a file and loading it into other settings carries the normal form over, and works exactly when the three floats are finite |
| ConfigLaws.RootPrintable | src/config/config.cpp:835-856 | a saved configuration prints, and all its numbers are finite exactly when its three floats are |
| ConfigLaws.SaveThenLoad | src/config/config.cpp:776-859 | loading what was saved gives the normal form, or fails, exactly when a float is an infinity or a NaN |
| ConfigLaws.LoadedIsNormal | src/config/config.cpp:776-833 | what any file loads as has an active profile and is in normal form, exactly when its dedup window survives being written as a double, as every window that fits its type does |
| ConfigLaws.LoadThenSaveThenLoad | src/config/config.cpp:776-882 | for every file that loads: load, save and load again gives the same configuration exactly when its floats are finite and its dedup window survives being written as a double; every window that fits its type does |
| ConfigLaws.SomeMachineIsSound | src/config/config.cpp:226-243 | the assumptions on number texts and casts can be met together, so the round trips are not about nothing |
| AesTables.Sbox | src/common/crypto.cpp:20-57 | the inverse table undoes the S-box on all 256 bytes |
| AesTables.SboxOfInvSbox | src/common/crypto.cpp:20-57 | and the other way round: the S-box takes every value |
| Aes.XtimeIsLinear | src/common/crypto.cpp:65-67 | multiplication by x distributes over XOR |
| AesField.XtimeBits | src/common/crypto.cpp:65-67 | bit j of a doubled byte is bit j - 1 of it, flipped exactly when its top bit is set and j is 0, 1, 3 or 4 |
| AesField.GmulIsProduct | src/common/crypto.cpp:70-78 | the product is the sum of the doublings of the first byte over the set bits of the second |
| AesField.SboxIsAffineInverse | src/common/crypto.cpp:20-38 | every S-box entry is the affine image of the inverse of its index in GF(2^8) (section 5.1.1 of FIPS 197) |
| AesKeys.ExpandKey | src/common/crypto.cpp:236-262 | the byte loop expands the key into the forty-four words of the recurrence |
| AesKeys.RoundKeyWords | src/common/crypto.cpp:236-262 | round key n is words 4n to 4n + 3 of the recurrence, and round key 0 the key |
| AesKeys.RconDoubles | src/common/crypto.cpp:60-62 | the round constants are the powers of x |
| AesKeys.RoundKeysDiffer | src/common/crypto.cpp:236-262 | the schedule runs backwards: two keys with the same round key n are the same key, for every n |
| AesExample.Key10 | src/common/crypto.cpp:236-262 | the last round key of the key of FIPS 197, appendix A.1, in bytes |
| AesExample.Example | src/common/crypto.cpp:264-282 | the block of FIPS 197, appendix B, under its key encrypts to 3925841d02dc09fbdc118597196a0b32 |
| Aes.Multiples | src/common/crypto.cpp:70-78 | the multiples 9, 11, 13 and 14 as sums of doublings |
| Aes.InvRowOfMix | src/common/crypto.cpp:142-160 | inverse matrix times matrix is the identity, column by column |
| Aes.MixColumnIsUndone | src/common/crypto.cpp:142-160 | each mixing matrix undoes the other on every column |
| Aes.DecryptOfEncrypt | src/common/crypto.cpp:264-302 | decryption inverts encryption for every key schedule and block (sections 5.1 and 5.3 of FIPS 197) |
| Aes.EncryptOfDecrypt | src/common/crypto.cpp:264-302 | encryption inverts decryption, so encryption permutes the blocks |
| AesCode.Gmul | src/common/crypto.cpp:70-78 | the shift-and-add loop computes the product |
| AesCode.StateFromBlock | src/common/crypto.cpp:82-86 | the column-major copy into the state |
| AesCode.BlockFromState | src/common/crypto.cpp:88-92 | the copy back, leaving the bytes around the block alone |
| AesCode.ShiftRows | src/common/crypto.cpp:112-125 | the in-place row moves are the row shift |
| AesCode.InvShiftRows | src/common/crypto.cpp:127-140 | the in-place row moves are the inverse shift |
| AesCode.MixColumns | src/common/crypto.cpp:142-150 | the in-place column loop against the matrix |
| AesCode.InvMixColumns | src/common/crypto.cpp:152-160 | the in-place column loop against the inverse matrix |
| AesCode.EncryptBlock | src/common/crypto.cpp:264-282 | the in-place rounds compute the cipher of the old input, which may be the output buffer |
| AesCode.DecryptBlock | src/common/crypto.cpp:284-302 | the in-place rounds compute the inverse cipher of the old input |
| AesModes.EcbRoundTrip | src/common/crypto.cpp:304-320 | both compositions of the ECB directions are the identity, for every length that is a multiple of 16 |
| AesModes.CbcRoundTrip | src/common/crypto.cpp:322-356 | the same for CBC under every initialisation vector (NIST SP 800-38A) |
| AesModes.XtsRoundTrip | src/common/crypto.cpp:358-394 | the same for XTS under every tweak (IEEE 1619) |
| AesModes.XtsUnitRoundTrip | src/common/crypto.cpp:358-394 | the same with the first tweak encrypted under the second key |
| AesModes.DoublingTimesX | src/common/crypto.cpp:166-177 | each of the 128 coefficients of a doubled tweak is that of the product by x modulo x^128 + x^7 + x^2 + x + 1 |
| AesModes.EcbBlocks | src/common/crypto.cpp:304-320 | block i of either ECB direction is the cipher of block i |
| AesModes.CbcBlocks | src/common/crypto.cpp:322-356 | block i of a CBC ciphertext is the cipher of plaintext block i plus ciphertext block i - 1, the vector for i = 0; block i of the plaintext is the inverse cipher plus that block |
| AesModes.XtsBlocks | src/common/crypto.cpp:358-394 | block i of either XTS direction adds the tweak times x^i before and after the cipher |
| AesModes.XtsUnitBlocks | src/common/crypto.cpp:358-394 | the same with the tweak encrypted under the second key and the blocks under the first |
| AesModeCode.XtsMultiplyByX | src/common/crypto.cpp:168-177 | the carry loop doubles the tweak |
| AesModeCode.EcbEncrypt | src/common/crypto.cpp:304-311 | also with one buffer for both: the ECB form of the old input, the rest untouched; other lengths return false and change nothing |
| AesModeCode.EcbDecrypt | src/common/crypto.cpp:313-320 | the inverse direction, in place or not |
| AesModeCode.CbcEncrypt | src/common/crypto.cpp:322-336 | the chained form of the old input, in place or not |
| AesModeCode.CbcDecrypt | src/common/crypto.cpp:338-356 | also in place, where each ciphertext block is captured before it is overwritten |
| AesModeCode.XtsEncrypt | src/common/crypto.cpp:358-375 | the XTS form of the old input, in place or not |
| AesModeCode.XtsDecrypt | src/common/crypto.cpp:377-394 | the inverse direction, in place or not |
| Sha256.Padding | src/common/crypto.cpp:425-435 | the padding brings every length to a multiple of 64 (section 5.1.1 of FIPS 180-4) |
| Sha256.ZeroCountIsLeast | src/common/crypto.cpp:428-430 | the number of zeros is the least that leaves room for the length |
| Sha256Words.ChChooses | src/common/crypto.cpp:217 | the bits of the second word where the first has ones, those of the third elsewhere |
| Sha256Words.MajIsMajority | src/common/crypto.cpp:220 | a one where two of the three words have one |
| Sha256Words.RotrMovesBits | src/common/crypto.cpp:194-196 | rotating right by n moves bit i + n, modulo 32, to bit i, for every n |
| Sha256Words.LengthIsBigEndian | src/common/crypto.cpp:432-435 | the last eight bytes of the padding spell the bit length, most significant first |
| Sha256Example.Example | tests/crypto_tests.cpp:279-281 | the hash of "abc" is ba7816bf 8f01cfea 414140de 5dae2223 b00361a3 96177a9c b410ff61 f20015ad |
| Sha256Code.Compress | src/common/crypto.cpp:198-228 | the expanded schedule and the moving working variables compute the compression function |
| Sha256Code.Context.Update | src/common/crypto.cpp:407-420 | the context stands for the old message with the new bytes behind it, whatever the split into blocks |
| Sha256Code.Context.Final | src/common/crypto.cpp:422-445 | the digest is the compression fold over the padded message; the padding loop terminates |
| Sha256Code.Sha256Hash | src/common/crypto.cpp:447-452 | the one-shot hash is the hash of the message |
| Sha256Code.HashInChunks | tests/crypto_tests.cpp:290-330 | any split of a message into updates gives the one-shot digest |
| ThreadModel.StepKeeps | src/cpu/cpu.cpp:46-88 | every locked section keeps the account of every handle, event, stack and TLS block |
| ThreadModel.NothingIsReleasedTwice | src/cpu/cpu.cpp:422-476 | in every interleaving of the sections nothing is released twice, nothing the registry still holds is released, and no thread is both joined and detached |
| ThreadModel.ErasedOnlyWhenDone | src/cpu/cpu.cpp:62-88 | a record is erased only by a finished join or by the exit of a detached thread |
| ThreadModel.ErasedIsFreed | src/cpu/cpu.cpp:46-59 | what an erased record owned, wake events aside, was released exactly once |
| ThreadModel.LateDetachStays | src/cpu/cpu.cpp:462-476 | detaching after the exit leaves record and stack in place; before the exit both go |
| ThreadRegistry.Registry.NextThreadId | src/cpu/cpu.cpp:272-279 | a fresh id, distinct from every published one |
| ThreadRegistry.Registry.CreateThread | src/cpu/cpu.cpp:289-351 | publishes a fresh record, or none when the registry is full or the host refuses |
| ThreadRegistry.Registry.RegisterExistingThread | src/cpu/cpu.cpp:353-373 | publishes a record for a fresh id, unless the registry is full; an id that is there keeps its record |
| ThreadRegistry.Registry.UnregisterThread | src/cpu/cpu.cpp:375-388 | stops a running thread and closes its wake event once |
| ThreadRegistry.Registry.HandleThreadExit | src/cpu/cpu.cpp:62-88 | one exit step; the record goes exactly when the thread was detached |
| ThreadRegistry.Registry.JoinClaim | src/cpu/cpu.cpp:422-432 | succeeds exactly when nobody joined or detached before |
| ThreadRegistry.Registry.JoinFinish | src/cpu/cpu.cpp:447-454 | frees the guest memory and erases the record |
| ThreadRegistry.Registry.DetachThread | src/cpu/cpu.cpp:462-476 | succeeds exactly on a known thread nobody joined, and closes the host handle once |
| ThreadRegistry.Registry.TerminateThread | src/cpu/cpu.cpp:516-537 | stops a running thread and closes its wake event once |
| PadOutput.StepKeeps | src/gpu/dualsense_ds5w.cpp:205-262 | every statement of setters and reader keeps the handshake invariant |
| PadOutput.NoOutputIsLost | src/gpu/dualsense_ds5w.cpp:1000-1064 | in every interleaving, once all setters returned, a bound slot that is not dirty has sent the latest value of every field, and no report ever mixed two updates |
| PadOutput.NewDevicesAreServed | src/gpu/dualsense_ds5w.cpp:296-336 | until its first report a newly bound device has a dirty slot or a mark on its way |
| PadCode.PadSlot.SetRumble | src/gpu/dualsense_ds5w.cpp:1000-1009 | both motor fields, no other, and the mark |
| PadCode.PadSlot.SetTriggerEffect | src/gpu/dualsense_ds5w.cpp:1011-1022 | mode and ten parameters of one trigger, zeros without parameters, and the mark |
| PadCode.PadSlot.SetLightBar | src/gpu/dualsense_ds5w.cpp:1024-1032 | three colour fields and the mark |
| PadCode.PadSlot.SetPlayerLeds | src/gpu/dualsense_ds5w.cpp:1034-1043 | two fields and the mark |
| PadCode.PadSlot.SetMicLed | src/gpu/dualsense_ds5w.cpp:1045-1053 | one field and the mark |
| PadCode.PadSlot.SetLedOptions | src/gpu/dualsense_ds5w.cpp:1055-1064 | two fields and the mark |
| PadCode.PadSlot.BuildOutput | src/gpu/dualsense_ds5w.cpp:205-257 | the report of all fields, which stay as they are; the slot is clean |
| PadCode.PadSlot.ServiceSlot | src/gpu/dualsense_ds5w.cpp:340-417 | a dirty slot sends exactly one report, of its present fields, and is clean; a device that is gone leaves a free slot whose fields wait for the next one |
| PadCode.RefreshBindings | src/gpu/dualsense_ds5w.cpp:296-336 | bound pads keep their slots, no path is bound twice, new slots are dirty and carry enumerated paths, a device is left out only when it does not open or no slot is free; the result counts the slots in use |
| Present.Device.constructor | src/gpu/vk_present.cpp:283-300 | the loop starts with a signalled fence and clean semaphores, one per image |
| Present.AdvanceFits | src/gpu/vk_present.cpp:463-527 | device progress at any moment keeps the state of fence, semaphores and images consistent |
| Present.AcquireRecordPresent | src/gpu/vk_present.cpp:463-527 | every valid-usage rule holds at its call: acquire_sem idle at each acquire, done_sems[i] without a pending wait when signalled, the fence signalled or attached to a submit when waited on; failed acquires and presents included |
| Present.PresentLoop | src/gpu/vk_present.cpp:463-527 | so it does in every run of frames with any outcomes |
| Present.ComputeFitRect | src/gpu/vk_present.cpp:89-108 | the offsets are those of a centred rectangle that fills one side and keeps the aspect, exactly when its far corner is a signed 32-bit point |
| ShaderCache.StepKeeps | src/gpu/shader_cache.cpp:102-187 | every file operation keeps published files complete and temporary ones private |
| ShaderCache.LoadsAreNeverTorn | src/gpu/shader_cache.cpp:102-187 | however loads and stores interleave, a successful load returns the complete payload some store published under that key, exactly when its count fits 32 bits |
| ShaderCache.LoadsAreStored | src/gpu/shader_cache.cpp:102-187 | from an empty cache on, what a load returns is the payload of a store that this run opened under that key |
| ShaderCache.StorePublishes | src/gpu/shader_cache.cpp:143-187 | a store without errors publishes its entry and leaves every other one alone |
| ShaderCache.StoreThenLoad | src/gpu/shader_cache.cpp:102-187 | a load behind an undisturbed store returns its payload, exactly when the word count fits the header |
| Dedup.RingBuffer.Push | src/common/log.cpp:64-69 | one more event in the history |
| Dedup.RingBuffer.Snapshot | src/common/log.cpp:71-85 | the most recent events in order, as many as asked for, kept and pushed |
| Dedup.RingBuffer.Clear | src/common/log.cpp:87-92 | an empty history |
| Dedup.Gate.FlushDedup | src/common/log.cpp:323-333 | the pending message reaches the sinks with its total and its key is forgotten |
| Dedup.Gate.Gated | src/common/log.cpp:407-448 | the pending total is the number of raw events of its key since that key was last erased, alone or with the whole full table, and every other counted key has its total on its last flushed line; kept exactly when the clock is past zero or nothing had to be said; the table stays below its cap and the pending time behind the clock, so calls chain |
| Dedup.Gate.Count | src/common/log.cpp:417-422 | a new key that would fill the table empties it first; either way the table agrees with the log of events |
| Dedup.Gate.LogMessage | src/common/log.cpp:376-450 | at any clock value: the ring sees every event, a critical one flushes first and still goes through the gate, ungated ones go straight to the sinks |
| Dedup.LogAll | src/common/log.cpp:376-450 | any number of calls under a started clock: every message is in the ring, every gated one is counted exactly once, the pending total is the count of its key, and every other count is on the last line flushed for it |
| Dedup.ClockZero | src/common/log.cpp:424-446 | two keys at clock zero: the first line is lost and the sinks contradict its count |
| Dedup.DecimalIsInjective | src/common/log.cpp:141-143 | the count written on a line determines the total |
| Dedup.TwelveTimes | src/common/log.cpp:141-143 | twelve occurrences of m read "m (x12)" |
| BitScatter.PextOfPdep | src/cpu/amd_compat.cpp:158-186 | pext(pdep(s, m), m) is s modulo 2^popcount of the active mask, at any width |
| BitScatter.PdepOfPext | src/cpu/amd_compat.cpp:158-186 | pdep(pext(s, m), m) is s & m over the active width |
| BitScatter.RankIsPopCount | src/cpu/amd_compat.cpp:158-186 | the number of bits moved is the population count of the active mask |
| BitScatter.OnlyActiveBits | src/cpu/amd_compat.cpp:158-186 | the results depend on the active bits of the inputs only, so the 32-bit forms ignore the high halves |
| BitScatter.EmulatePdep | src/cpu/amd_compat.cpp:158-171 | the deposit loop, its source mask shifted out of the word included |
| BitScatter.EmulatePext | src/cpu/amd_compat.cpp:173-186 | the extract loop |
| BitScatter.EmulateTzcnt | src/cpu/amd_compat.cpp:85-95 | no bit below the count is set, and the next one is |
| BitScatter.EmulateLzcnt | src/cpu/amd_compat.cpp:97-109 | no bit above the position is set, and the next one is |
| BitFields.ExtractedBit | src/cpu/amd_compat.cpp:15-26 | a valid field moves to the bottom of the word with nothing above it |
| BitFields.ValidFields | src/cpu/amd_compat.cpp:9-13 | a field is valid when it ends inside the word, the whole word when it starts at bit 0 |
| BitFields.InsertedBit | src/cpu/amd_compat.cpp:28-41 | a valid field takes the low bits of the source; every other bit stays |
| BitFields.ExtractOfInsert | src/cpu/amd_compat.cpp:9-41 | extracting what was inserted gives the inserted bits, and zero exactly where the field is invalid |
| BitFields.InsertOfExtract | src/cpu/amd_compat.cpp:9-41 | inserting what was extracted changes nothing, for every length and index, negative ones included |
| BitFields.LastInsertWins | src/cpu/amd_compat.cpp:28-41 | the last of two inserts into a field wins |
| BitFields.FieldIsPext | src/cpu/amd_compat.cpp:15-26 | extracting a field is PEXT under its contiguous mask: two instructions, one result |
| BitFields.LowestBitOperations | src/cpu/amd_compat.cpp:49-62 | BLSI isolates the lowest one bit of the active word, BLSR clears it, BLSMSK reaches up to it; zero, zero and all ones without one |
| BitFields.ActiveOperands | src/cpu/amd_compat.cpp:49-62 | at 32 bits the results are those of the low half alone |
| Pm4.BuildHeader | tools/pm4_replay.cpp:79-82 | masking, shifting and joining gives the header word of any three 32-bit arguments |
| Pm4.FieldsRead | tools/pm4_replay.cpp:328-332 | the shifts and masks of the walker read the fields of any word |
| Pm4.HeaderReadsBack | tools/pm4_replay.cpp:79-82 | the walker's shifts and masks give back length, opcode and register |
| Pm4.Stream.EmitDmaFill | tools/pm4_replay.cpp:151-159 | seven words are appended |
| Pm4.Stream.EmitDmaCopy | tools/pm4_replay.cpp:163-172 | eight words are appended |
| Pm4.Stream.EmitFlip | tools/pm4_replay.cpp:176-183 | six words are appended |
| Pm4.FillPacket | tools/pm4_replay.cpp:149-159 | header C0051064, destination at byte 4, value at 12, byte count at 20, zeros between |
| Pm4.CopyPacket | tools/pm4_replay.cpp:161-172 | header C0065000, byte count at byte 12, destination at 16, source at 24 |
| Pm4.FlipPacket | tools/pm4_replay.cpp:174-183 | header C004105C, handle at byte 4, buffer index at 8, mode at 12, argument at 16 |
| Pm4.PatchRetargets | tools/pm4_replay.cpp:323-339 | on any concatenation of emitted packets exactly the handle of each flip changes, whatever the payload words look like |
| Pm4.PatchKeepsWalk | tools/pm4_replay.cpp:323-339 | on any word stream the patched walk visits the same positions |
| Pm4.LastPatchWins | tools/pm4_replay.cpp:323-339 | patching h1 and then h2 is patching h2 |
| Pm4.ShortStreams | tools/pm4_replay.cpp:325-333 | streams of up to 2^32 - 0x4001 words hold no packet whose end wraps |
| Pm4.PatchFlipHandles | tools/pm4_replay.cpp:323-339 | the walking loop terminates and patches exactly those words, on every stream whose packet ends its 32-bit guard sees |
| Nid.AlphabetIs | src/common/nid.h:41-42 | the 64 characters, each at its value |
| NidText.AlphabetText | src/common/nid.h:41-42 | upper case, lower case, digits, plus and minus, in that order |
| NidText.TypeTags | src/common/nid.cpp:71-82 | the second character of a tag names the type |
| NidCode.ReverseTable.Build | src/common/nid.cpp:27-33 | characters of a list map to their positions, everything else to 0xFF |
| NidCode.ReverseTable.Lookup | src/common/nid.cpp:36-41 | in the built table succeeds exactly on the characters of the alphabet, with their values |
| NidCode.GetReverseTable | src/common/nid.cpp:44-52 | the table of the alphabet: every byte has its value or the marker |
| NidCode.Encode | src/common/nid.cpp:121-142 | the masks, shifts and joins and the alphabet string spell the identifier, for every eight bytes |
| NidCode.Decode | src/common/nid.cpp:83-119 | the table lookups, masks, shifts and joins give the eight bytes, or nothing exactly off the alphabet or length |
| Nid.DecodeOfEncode | src/common/nid.cpp:83-142 | every identifier survives spelling |
| Nid.EncodeOfDecode | src/common/nid.cpp:83-142 | spelling a decoded text again only clears the two padding bits of its last character |
| Nid.SextetsSpellNumber | tools/resolve_nids.py:49-52 | the eleven groups are the base-64 digits of the 64-bit number times four |
| Nid.EncodingsAgree | tools/resolve_nids.py:49-52 | the byte-wise encoder on the reversed digest and the integer-shift encoder give the same text for every digest |
| Sha1Code.Compress | tools/nid_scan.cpp:108-150 | the expanded schedule and the moving working variables compute the SHA-1 compression function (FIPS 180-4) |
| Sha1Code.Sha1Context.Update | tools/nid_scan.cpp:66-79 | the context stands for the old message with the new bytes behind it |
| Sha1Code.Sha1Context.Final | tools/nid_scan.cpp:81-101 | the digest is the compression fold over the padded message; the padding loop terminates |
| Sha1Code.HashInChunks | tools/nid_scan.cpp:66-101 | any split of a message into updates gives the digest of the whole |
| NidCode.NidOfDigest | tools/nid_scan.cpp:169-173 | the reversing loop and the encoder of bytes spell what the shift encoder makes of the first eight digest bytes |
| Sha1Code.NameToNid | tools/nid_scan.cpp:163-174 | for every name: hashing it with the salt, reversing and encoding gives the identifier the resolver computes with shifts |
| Sha1Example.Example | src/common/nid.cpp:200-202 | the identifier of memmove is +P6FRGH4LfA, through the salted SHA-1 hash in numbers |
| Nid.KeyIsFound | src/common/nid.cpp:236-258 | in any table a lookup through a stored key's identifier finds the entry of the canonical spelling or nothing; that spelling is the key exactly when it came with a tag or its padding bits are clear |
| Nid.LineIsFound | src/common/nid.cpp:249-312 | through a whole file: the last line of a key is in the table, and its identifier finds that line's name exactly when the key is canonical, otherwise the entry of the canonical spelling, if there is one |
| Nid.StoredAndMissed | src/common/nid.cpp:236-258 | the witness: a file whose one key AAAAAAAAAAB is stored and not found |
| Nid.LastLineWins | src/common/nid.cpp:260-312 | the last accepted line of a key decides its entry; without one the old entry stays |
| NidText.LineFields | src/common/nid.cpp:271-299 | a line of identifier, library and name with tabs between gives that entry exactly when the identifier parses; blanks in front and a carriage return behind are dropped |
| NidText.TrimmedName | src/common/nid.cpp:297-299 | a name loses the blanks behind it, unless it is nothing else |
| NidText.PassedOver | src/common/nid.cpp:273-286 | comments and lines without two tabs or without a name are passed over |
| NidCode.NameTable.LoadNidDatabase | src/common/nid.cpp:271-307 | the merge loop stores exactly the accepted lines, in order, and counts them |
| NidCode.NameTable.LookupNidName | src/common/nid.cpp:249-258 | the lookup by the encoded identifier |

## Left out

- Detile.DetileSurface: asks that the width rounds up to blocks within 32 bits and that the tiled and
  linear byte counts fit 64 (`Detile.FitsWords`); every surface an image descriptor names does. What the
  source copies when its offsets wrap is not modelled.
- MipTail.DetileTailMip0: asks that the 32-bit guard tells whether the rectangle lies in the block
  (`MipTail.GuardTells`), as it does unless the coordinates wrap into the block; the copy the source then
  makes is undefined.
- The image descriptor fields beside the extents, format tables, samplers and viewports: lookups.
- The JSON parser's error texts; the recursion depth of the C++ stack.
- Casts of numbers outside the range of their type, undefined in the source, give any value of the type.
- The digits of %.17g and strtod: number spellings are abstract, with the property that a finite
  double survives them.
- Per-title overlays (`EffectiveFor`), the service's globals and directory, and failing file I/O.
- Input and output buffers that overlap without being the same buffer.
- `CpuCore::Shutdown`, the unlocked stores that follow the start of a host thread (creation is one
  step), id wrap-around at 2^64 and the exit callback. That a detached thread is always freed in
  the end is false: see `ThreadModel.LateDetachStays`. Nor are the wake events of erased records
  accounted as released.
- ThreadRegistry.Registry.RegisterExistingThread: asks for an id the allocator gave out and does not
  accept that of an erased record again, because releases are counted by id.
- Controller input, audio and the transfer of a report to the device.
- Swapchain resize and failing submits; that the presentation engine releases an image only after
  its present has waited is an assumption on the driver (src/gpu/vk_present.cpp:31-36).
- The shader cache, the reader thread of the controllers and the thread registry's interleavings are
  transition functions over state values, and the present loop is a ghost method over a ghost device:
  what one step does is in place in the source, and aliasing between steps is not captured.
- Shader cache keys and paths: a key is a number. Files are words, the rename is atomic, and no
  other process touches the directory.
- Dedup.Gate.Gated: asks that the clock does not run backwards, and so does Dedup.Gate.LogMessage; the
  category filter and the formatting of the message are outside it.
- ANDN, BEXTR, BZHI, RORX and the BMI2 shifts, which are single expressions, and instruction decoding,
  whose VEX map selection does not match the encodings in src/cpu/amd_compat.h:33-46.
- Pm4.PatchFlipHandles: asks that no packet end wraps past 2^32 to a position inside the stream
  (`Pm4.EndsAreSeen`), which only streams of almost 2^32 words can hold; the source may then walk forever.
- The rest of the replayer, the names compiled into the NID table, and reading database files.
- Vulkan, HID, Win32 and filesystem calls beyond the results and the order modelled here.
