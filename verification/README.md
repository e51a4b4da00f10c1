# Verified models of UAE's self-contained cores

The repository is an Amiga emulator. This project models the parts of it whose
results do not depend on hosts, ROMs or threads, and proves what they promise.
`dafny verify dfyconfig.toml` checks all of it.

**The blitter** copies and combines rectangles of words in chip memory, fills
areas and draws lines. The repository has it four times over: a word loop that
does the blit at once, about 44 loops specialised to one minterm each, a machine
that advances one bus slot at a time and can be stalled at every slot, and a
line drawer in both manners. `BlitFast` is the word loop and `BlitExact` the
machine, as functions of one step, `BlitWords` the word loop by enable bits that
stands between them; `Blitter` and `LineBlitter` are the same routines as
classes that update registers and memory in place, proved equal to them. The
grants of the bus are an arbitrary sequence: `Free`, `Busy` or `DmaOff` for each
slot. `BlitTheorem` proves that for every such sequence the machine ends as the
`BlitWords` loop does, after an exact number of counted slots; `BlitImmediate`,
`BlitStuck` and `BlitAgree` when that is what the immediate form does;
`BlitSpecial` that the specialised loops compute what the word loop does;
`BlitFunc` that all 256 formulas compute their minterm; `BlitFill` that the byte
table fills as a serial fill does; `BlitResult`, `BlitBits` and `BlitLeaves` what
a blit leaves, bit by bit from the numbers in its registers, and `BlitCount` in
how many slots; `BlitOnlyD`, `BlitNoSource` and `BlitRowCarry` what the two
forms do without a source, where they can differ, and exactly when they do;
`BlitLine`, `BlitLineGeometry` and `BlitLinePixels` that the line machine draws
the immediate line, that the line is a Bresenham line, and what each of its
pixels writes. Machine
words are sequences of bits, lowest first, because the blitter only shifts,
masks and combines them.

**Codes and checksums.** `CdEdc`, `Gf256`, `CdCode` and `CdSector` build a CD
mode 1 sector (ECMA-130) in an array: the error detection code of section 14.3
and the product code of Annex A. `Crc` has the table CRCs against division one
bit at a time. `Sha1Spec` is section 6.1.2 of FIPS 180-4 with the padding of
section 5.1.1; `Sha1` is the program's streaming context with its schedule of 16
words rolling in place. `Sha1Bits` says what the constants and functions of the
standard are, `Sha1Vectors` computes its two example digests and `CrcCheck` the
check values of the CRCs.

**calc.cpp.** `CalcSyntax` has infix formulas and their trees, `ShuntingYard` the
translation to postfix with its stack of 32 characters, `CalcExecute` the
evaluation with its stack of 32 values; `CalcGrammar` has the grammar that needs
no precedence. The arithmetic on doubles is
uninterpreted: any three functions will do.

**Paula.** `Paula` is one audio channel's state machine, `PaulaRun` its runs with
DMA on: period ends, request collection and request service in any order in
which a request is served before its word is needed. `PaulaManual` has its runs
with DMA off, the words written by the processor.

**A2065.** `LanceReceive` and `LanceTransmit` are the descriptor-ring loops over
the 32 KB of board memory, `Mac` the trading of the card's address for the host's
with the UDP checksum that has to follow, `MacFrames` what that does to each kind
of frame, `A2065` the card itself.

**Akiko and subchannel.** `AkikoRx` is the reply channel with its circular buffer
and compare register, `ChunkyToPlanar` the conversion engine in its two forms
with the registers in front, `Subchannel` the bit transposition of CD
subchannels.

## What the code does that its description does not say

- With D as the only channel, the cycle-exact fill hands its carry from row to
  row; the immediate form starts every row anew (blitter.cpp:488).
  `BlitOnlyD` says what happens instead, `BlitTraps.CarryRunsOn` is an example,
  and `BlitRowCarry.DAloneAgrees` has the exact conditions, read off the
  registers, under which it makes no difference.
- The immediate blit takes a running pointer of 0 for a channel that is off
  (blitter.cpp:492), and a pointer that comes to 0 stays there. The cycle-exact
  form goes by the enable bits. `BlitAgree.AgreeExactly` and `AgreeExactlyD` have
  the exact conditions under which that never shows. A D pointer of 0 to begin
  with makes the immediate form write nothing (`BlitTraps.ZeroPointer`); one
  that comes to 0 later makes it write all further words over the last address
  (`BlitStuck.StuckOverwrites`, `BlitTraps.StuckPointer`).
- A blit without channels leaves blitzero set in the cycle-exact form; the
  immediate form computes it from the data registers. `BlitTraps.BlitzeroParts`
  is an example; `BlitNoSource.NoChannelsAgree` says when they agree.
- In the descending word loop a C fetch also loads the B data register
  (`BlitImmediate.BRegisterParts`).
- The immediate form draws no line of another width than 2, the cycle-exact one
  draws them all (`BlitLine.WidthParts`).
- A formula without an operator evaluates to 0, not to its operand.
- calc's check for a full stack comes in front of every character, blanks
  included. No formula can tell (`CalcCompile.HeightCoversPending`); an operand
  followed by 32 times ! can (`CalcCompile.BlankCanFail`). The stack of values is
  checked in the same way and can be the smaller one (`CalcExecute.ChainFails`).
- With AUDxLEN 1 the end of the first word raises no interrupt of its own.
- The A2065 stores a UDP checksum of 0x0000 where the sum folds to 0xffff: the
  test that should turn 0 into 0xffff looks at 32 bits (a2065.cpp:247), so it
  never fires (`Mac.NeverReplaced`, `MacExamples.RightButZero`). A header length
  of 2 or 3 words puts the checksum among the addresses it covers, which the sum
  then meets twice (`MacExamples.TwiceIsWrong`); with less than 7 bytes the
  datagram does not reach its own checksum. `Mac.MungedChecksumFolds` has the
  exact condition. The rewrite also clears the byte behind the datagram.
- mungepacket does not report a client address it has traded in a datagram
  without a checksum.
- The sync pattern of encode_l2 ends with 0xff where ECMA-130 has 0x00: the fill
  covers bytes 1 to 11 (cdrom.cpp:223).

## Model

| member | source | states |
|---|---|---|
| `BlitTheorem.ExactRefinesWords` | blitter.cpp:925-1236 | for every sequence of bus grants and all pointers, the cycle-exact block blit with a source channel is complete exactly when TotalSlots slots are counted (2 + period*width*height + 2 with D), and then memory, blitzero, data registers and the four pointers are those of the word loop over its enabled channels; any width, height, modulo, shift, mask, fill and overlap |
| `BlitLeaves.Leaves` | blitter.cpp:450-647 | the result of a blit, from the numbers in its registers and the memory it starts on: for any channels, minterm, shifts, masks, sizes, modulos, fill and direction, every completed cycle-exact run, under any grants, and with all pointers clear the immediate form, leave in the cell of each row and column of the D rectangle exactly the bits of BlitBits.DBit, all other cells as they were, and blitzero if no bit is set; source and destination may overlap as long as no word is overwritten before it is read |
| `BlitLeaves.LeavesWithoutD` | blitter.cpp:450-543 | without D the memory stays, and blitzero still tells whether a bit would have been set |
| `BlitLeaves.CopyLeaves` | blitter.cpp:459-474 | BLTCON0 0x09F0, 0x05CC and 0x03AA with full masks copy the A, B and C rectangle to D, word by word, upwards and downwards, for any sizes, modulos and grants, in both forms |
| `BlitLeaves.MovesInTime` | blitter.cpp:484-540 | a rectangle that moves within its own rows is read in time: downwards to higher addresses, upwards to lower ones, however much source and destination overlap |
| `BlitLeaves.MoveIsLaid` | blitter.cpp:450-647 | so a copy from A over itself in that direction meets all that CopyLeaves asks, and every word arrives |
| `BlitBits.WordIs` | blitter.cpp:484-528 | bit by bit: with BLTCON1 bit 4 a bit is flipped inside an outline, with only bit 3 set it is set inside and on it, without both it stays; a row starts inside with bit 2 |
| `BlitBits.RawIs` | blitter.cpp:491-514 | each bit before the fill is the bit of BLTCON0 mod 0x100 selected by the bits of A, B and C that shifts, masks, columns and direction give, words of channels that are on from their rectangles, the others from their data registers |
| `BlitResult.BlitIs` | blitter.cpp:450-543 | the word loop of any configuration leaves exactly the words that configuration, registers and memory at the start give, each at the address of its row and column, and blitzero says whether all of them were zero, if no source word is overwritten before it is read |
| `BlitResult.Lands` | blitter.cpp:512-538 | wherever the words go, a cell ends up with the last one that went to it |
| `BlitFields.FieldsAre` | blitter.cpp:1280-1345 | which masks of BLTCON0 and BLTCON1 enable the channels, set direction, fill and its carry, the minterm byte and the two shifts |
| `BlitCount.SlotCount` | blitter.cpp:120-170 | the slots of a blit of n words as a number of its registers: with D 2 + n*(2 + [B] + [C and D] + [fill and D and not C]) + 2, without D and without any channel likewise; under any grants it is done exactly when as many have been counted, and once as many were free |
| `BlitCount.ChannelIs` | blitter.cpp:120-170 | which channel each slot of a word serves: A the first, B the second, C the one after that, D the one after C, and in the first period none for D |
| `BlitCount.FinalIs` | blitter.cpp:311-318 | the two slots behind the last word: an idle one, and the last D word |
| `BlitCount.CountedWhen` | blitter.cpp:1150-1216 | a slot counts if and only if the bus is free in it; only the idle slot behind the last word counts in any case, unless a fill needs its bus |
| `BlitCount.WantedWhen` | blitter.cpp:1150-1216 | which slots count against the processor: those of a channel, granted or not, unless DMA is off while words are left, and the idle slot behind a fill that has to wait; every slot not counted is missed |
| `BlitCount.FreeSlotsCount` | blitter.cpp:1146-1236 | as long as a blit is at its words it has counted exactly the free slots, one the copper started all but its first slot |
| `BlitImmediate.ImmediateIsWords` | blitter.cpp:450-647 | the immediate loop, which takes a running pointer of 0 for a channel that is off, leaves memory, blitzero and registers of that word loop if no enabled pointer is 0 where it is tested |
| `BlitImmediate.ExactRefinesFast` | blitter.cpp:925-1236 | then a completed cycle-exact blit, under any grants, has the result of the immediate one, BLTBDAT of a descending blit with C apart |
| `BlitAgree.AgreeExactly` | blitter.cpp:489-538 | exactly then: for fitted addresses that do not alias, every completed run from every memory and data registers has the result of the immediate form (BLTBDAT apart if descending with C) if and only if no enabled pointer is 0 where it is tested |
| `BlitAgree.AgreeExactlyD` | blitter.cpp:489-538 | the same with D alone: if and only if the D pointer is clear and the running fill carry is harmless whatever the data registers hold |
| `BlitStuck.StuckShows` | blitter.cpp:489-538 | a pointer that comes to 0 stays 0 in the immediate loop, and for some memory and data registers that shows in the last source word or the last cell |
| `BlitStuck.StuckOverwrites` | blitter.cpp:512-538 | behind a D pointer that has come to 0 every further word is written over the last address |
| `BlitImmediate.BRegisterParts` | blitter.cpp:600-612 | descending with C, all pointers clear, a completed cycle-exact blit leaves the last B word, or the old value, in BLTBDAT and the immediate one the last C word |
| `BlitOnlyD.FairScheduleCompletes` | blitter.cpp:1146-1236 | a schedule in which free slots never run out completes every blit, whatever its channels and pointers |
| `BlitTheorem.IdealRefines` | blitter.cpp:925-1062 | never stalled, the machine takes TotalSlots slots and ends in the result of the word loop, for all pointers |
| `BlitTheorem.MainRun` | blitter.cpp:999-1062 | any number of periods of the diagram keep the machine related to the word loop, word by word |
| `BlitRefine.PeriodRefines` | blitter.cpp:925-1062 | one period does to memory, pointers and registers what one trip of the word loop does: the ddat1/ddat2 pipeline is the one-word write delay |
| `BlitPeriod.RestOfPeriod` | blitter.cpp:320-344 | the slots of a period are served in the order of the cycle diagram |
| `BlitSchedule.StepStallsOrAdvances` | blitter.cpp:1150-1236 | one trip of the loop either changes nothing but the stall counters or is the step of the machine that is never stalled |
| `BlitSchedule.RunFollowsIdeal` | blitter.cpp:1146-1236 | under any grants the machine is where the free-running one is after as many counted slots |
| `BlitSchedule.RunExact` | blitter.cpp:1182-1236 | completion after an exact number of counted slots, independent of how stalls are interleaved; enough free slots complete it |
| `BlitSchedule.FairGrantsEnough` | blitter.cpp:350-364 | a fair schedule grants any number of free slots in finite time |
| `BlitOnlyD.ExactWithDAlone` | blitter.cpp:960-997 | with D alone the cycle-exact blit does, under any grants, for all pointers and in exactly TotalSlots slots, the word loop whose fill carry runs on from row to row |
| `BlitNoSource.BlitsAre` | blitter.cpp:450-543 | without a source, the word loop and the loop with the running carry leave exactly the words that the registers give, at the addresses of the rows, and blitzero says whether all of them were zero |
| `BlitRowCarry.MemoryAgrees` | blitter.cpp:484-528 | with D alone and any destination addresses, overlapping or not, the two loops leave the same memory if and only if for every cell the last word written to it lies below an even number of edges, or is all ones before inclusive fill |
| `BlitRowCarry.HarmlessIs` | blitter.cpp:484-528 | that holds of every word exactly when there is no fill, or one row, or the first row has an even number of edges and either there are two rows or the later ones have an even number as well, or fill is inclusive and the later rows are all ones |
| `BlitRowCarry.RunningCarryIsHarmless` | blitter.cpp:484-528 | under that condition on the registers memory and blitzero agree, and where the words have fitted cells of their own, only under it; blitzero agrees exactly when both carries leave only zeros or neither does |
| `BlitRowCarry.DAloneAgrees` | blitter.cpp:960-997 | every run of the cycle-exact machine against the immediate form, for what the control registers set up and any grants: the exact conditions for the same memory and, with blitzero, for the whole result, for any addresses; and the closed one |
| `BlitOnlyD.NoChannelsDoNothing` | blitter.cpp:1182-1205 | without any channel nothing is read, computed or written and blitzero stays set; exact slot count |
| `BlitNoSource.NoChannelsAgree` | blitter.cpp:450-543 | without any channel both forms leave memory and data registers alone, the immediate one clears blitzero exactly when some word that the registers give is not zero, and the forms agree on blitzero exactly when all are |
| `BlitTraps.CarryRunsOn` | blitter.cpp:964-985 | concrete registers: a D-only exclusive fill in which the immediate form, which resets the carry per row (line 488), fills the second row and every completed run of the cycle-exact machine leaves it empty |
| `BlitTraps.BlitzeroParts` | blitter.cpp:1182-1205 | concrete registers without a channel for which the immediate form clears blitzero and the cycle-exact one leaves it set |
| `BlitTraps.ZeroPointer` | blitter.cpp:512-538 | with a D pointer of 0 the immediate form writes nothing, whatever the blit; with D alone every completed cycle-exact run writes every word |
| `BlitTraps.StuckPointer` | blitter.cpp:512-538 | two words of D alone, the second at address 0: the immediate form writes it over the first one, every completed cycle-exact run to address 0 |
| `BlitFunc.FuncBitSelects` | blit.h:1-518 | for all 256 minterm formulas: output bit i is bit 4a+2b+c of the minterm byte, a, b, c the input bits i |
| `BlitSpecial.SpecialBitIsFuncBit` | blitfunc.cpp:9-1494 | the simplified formula of each specialised routine is the formula of its minterm |
| `BlitSpecial.UnusedSources` | blitfunc.cpp:9-1494 | a routine that skips a source computes a function that does not depend on it |
| `BlitSpecial.SourcesNeeded` | blitfunc.cpp:9-1494 | and every routine skips all the sources that its function does not depend on |
| `BlitSpecial.SpecialisedIsGeneric` | blitfunc.cpp:9-1494 | every specialised routine, either direction, leaves the memory and blitzero of the generic loop for its minterm, for all sizes and data |
| `BlitSpecial.RegistersCompute` | blittable.cpp:9-77 | the datapath the registers select computes the minterm of the routine the tables dispatch to |
| `BlitFill.CarryIsParity` | blitter.cpp:235-261 | the fill carry is the initial carry exclusive-or the parity of the bits seen |
| `BlitFill.FillAt` | blitter.cpp:235-261 | each filled bit from its input bit and the parity below: inclusive is input OR carry, exclusive is input XOR carry |
| `BlitFill.ExclusiveIsRunningParity` | blitter.cpp:235-261 | exclusive fill yields the running parity |
| `BlitFill.ExclusiveIsInvertible` | blitter.cpp:235-261 | the input of an exclusive fill is recovered from its output |
| `BlitFill.FillAppend` | blitter.cpp:515-522 | filling two pieces with the carry handed on is filling the whole |
| `BlitFill.BuildFillTable` | blitter.cpp:235-261 | the table loop stores for every byte, mode and carry the serial fill and its carry |
| `BlitFill.FillWordFills` | blitter.cpp:515-522 | two table lookups are the bit-serial fill of a word, low bit first |
| `BlitFill.FillRowFills` | blitter.cpp:944-951 | lookups chained along a row of any length are the bit-serial fill of the row |
| `BlitRegisters.WordAt` | blitter.cpp:491-514 | every bit of an unfilled D word is the bit of the minterm byte selected by one bit of A behind masks and shifter, one of B behind its shifter and one of C, in both directions |
| `BlitRegisters.PathIsBitwise` | blitter.cpp:1280-1424 | the logic unit depends only on the low word of B |
| `Blitter.Blitter.DoFast` | blitter.cpp:450-647 | in place: memory, blitzero, registers and pointers of the word loop, through the dispatch tables or not, in both directions |
| `Blitter.Blitter.DoGeneric` | blitter.cpp:450-543 | the generic double loop, in place, is the word loop with its delayed last write |
| `Blitter.Blitter.DoSpecial` | blitfunc.cpp:9-1494 | a specialised double loop, in place |
| `Blitter.Blitter.CountSlots` | blitter.cpp:1397-1411 | the loop over the diagram finds the number of source slots and whether D is absent |
| `Blitter.Blitter.StartBlit` | blitter.cpp:1567-1590 | the counters a cycle-exact blit starts with |
| `Blitter.Blitter.WriteSlot` | blitter.cpp:960-997 | a D slot in place: pipeline, write, pointers and counters |
| `Blitter.Blitter.FetchSlot` | blitter.cpp:999-1062 | a source slot in place: fetch, shift, combine and push into the pipeline |
| `Blitter.Blitter.Slot` | blitter.cpp:1150-1216 | one trip of the inner loop under a grant |
| `Blitter.Blitter.DecideBlitter` | blitter.cpp:1102-1240 | all slots up to a line position are a run of the machine under the grants of that line |
| `BlitLine.StepKeepsTrack` | blitter.cpp:766-850 | every line slot, granted or stalled, keeps the line on its way to the end state of the immediate loop |
| `BlitLine.LineRefinesImmediate` | blitter.cpp:766-850 | for every sequence of grants, VSIZE > 0 and one-dot on or off, the line is complete after exactly 2 + 4*VSIZE + 2 counted slots, with memory, bltcpt, bltdpt, blitzero, sign and accumulator of the immediate loop |
| `BlitLinePixels.LineDraws` | blitter.cpp:704-757 | for every sequence of grants a completed line, and the immediate one, leave exactly the words that the registers give for each pixel, where C is on and, in one-dot mode, the pixel is the first one of its row; the first word goes where BLTDPT points; blitzero if every such word is zero |
| `BlitLinePixels.PlottedWord` | blitter.cpp:704-713 | bit i of the word a pixel makes is bit 4a+2b+c of BLTCON0 mod 0x100: a bit i of the masked texture moved down by the shift, b the pattern bit, c bit i of the C word |
| `BlitLinePixels.Shades` | blitter.cpp:704-713 | an ordinary line (minterm 0xCA, one dot of texture, C and D pointers equal): every bit of the memory is the pattern bit of the last pixel drawn on it, and the bits no pixel is drawn on stay |
| `BlitLinePixels.DisplacementIs` | blitter.cpp:724-748 | where the line stands after k pixels and m minor steps, for each of the eight values of the octant bits of BLTCON1 |
| `BlitLine.LineWantedWhen` | blitter.cpp:785-845 | the same for lines: the refused slots, the read slot, and the write slot if there is a word to write |
| `BlitLine.LineLasts` | blitter.cpp:777-785 | behind the last pixel two slots go by whatever the bus does |
| `LineBlitter.LineBlitter.DrawLine` | blitter.cpp:856-872 | the immediate line loop in place |
| `LineBlitter.LineBlitter.BlitterLineProc` | blitter.cpp:715-751 | one step of the line in place: accumulator, sign, x and y moves |
| `LineBlitter.LineBlitter.DecideLine` | blitter.cpp:766-850 | all line slots up to a position are a run of the line machine |
| `BlitLine.WidthParts` | blitter.cpp:854-894 | a completed cycle-exact line is that of the immediate form if and only if the width register is 2, and has the same memory if and only if that or the line leaves no trace |
| `BlitLineGeometry.PatternBit` | blitter.cpp:1457-1476 | the pattern of a line, set up from B data and shift: pixel k uses the bit k places below the one the shift points at, round the word |
| `BlitLineGeometry.PathOfLine` | blitter.cpp:676-702 | after k pixels the drawer stands k major and MinorSteps minor steps away, each x step one column of 16*word+shift, the shift in 0..15 |
| `BlitLineGeometry.Accumulator` | blitter.cpp:715-751 | the 16-bit accumulator is exactly 4(k+1)dmin - 4m*dmaj - 2dmaj modulo 2^16, and its sign bit the sign of that |
| `BlitLineGeometry.WithinHalfAPixel` | blitter.cpp:715-751 | after k steps the minor displacement m satisfies |k*dmin - m*dmaj| <= dmaj/2 |
| `Gf256.AlogIsPower` | cdrom.cpp:100-101 | the antilogarithm table holds the powers of alpha in GF(2^8) modulo x^8+x^4+x^3+x^2+1 |
| `Gf256.TableTimesIsTimes` | cdrom.cpp:142-148 | adding logarithms, reducing once and looking up is multiplication by a power of alpha, zero included |
| `Gf256.TimesLinear` | cdrom.cpp:142-148 | multiplication distributes over exclusive or |
| `Gf256.TimesInjective` | cdrom.cpp:100-103 | two powers below 255 that agree on a nonzero element are the same power |
| `CdCode.WeightsAreGood` | cdrom.cpp:104-111 | every entry of the DP and DQ tables is the logarithm that makes both syndromes vanish |
| `CdCode.CodeWordHasNoSyndrome` | cdrom.cpp:130-211 | 24 or 43 data bytes with their two parity bytes satisfy both syndrome equations over GF(2^8), whatever the data |
| `CdCode.ChangeIsDetected` | cdrom.cpp:130-211 | changing one or two bytes of a word without syndromes leaves a syndrome that is not zero |
| `CdEdc.TableIsDivision` | cdrom.cpp:28-94 | each of the 256 literal table entries is the division of its index by the polynomial of the header comment, bits reversed |
| `CdEdc.BuildEdc` | cdrom.cpp:121-128 | the table-driven loop is division by that polynomial, bit by bit, for every range of bytes |
| `CdEdc.ResidueIsZero` | cdrom.cpp:228-232 | data followed by its own code, low byte first, divides without remainder |
| `CdSector.EncodeParity` | cdrom.cpp:130-211 | encode_L2_P and encode_L2_Q in place: every column or diagonal gets its own parity, nothing else changes |
| `CdSector.EncodeL2` | cdrom.cpp:218-236 | the whole sector in place |
| `CdSector.SectorIsGood` | cdrom.cpp:218-236 | user data untouched, header in front, eight zeros, EDC residue zero, for every sector and address |
| `CdSector.SectorStarts` | cdrom.cpp:213-227 | the first sixteen bytes below 100 minutes: sync pattern, minute, second and frame in two decimal digits each, mode 1 |
| `CdSector.SectorHasNoSyndrome` | cdrom.cpp:130-236 | in every encoded sector all 86 P columns and all 52 Q diagonals have both syndromes zero |
| `CdSector.SectorDetectsChange` | cdrom.cpp:130-236 | one or two changed bytes within one column or diagonal of an encoded sector leave a syndrome that is not zero there |
| `CdSector.EachByteOnce` | cdrom.cpp:138-154 | every byte a code covers is a place of some word: the index map modulo 1118 word pairs is onto |
| `CdSector.OnlyOnce` | cdrom.cpp:138-154 | and of only one: word and index are recovered from the place |
| `CdSector.WordIsCodeWord` | cdrom.cpp:130-211 | after encoding, a column or diagonal is the code word of the data it had |
| `CdSector.HeaderReadsBack` | cdrom.cpp:213-227 | minute, second and frame of the header give the address back if and only if it is below 160 minutes |
| `Crc.MakeEntries` | crc32.cpp:15-22 | the inner loop of make_crc_table is eight division steps, for both tables |
| `Crc.UpdateFeeds` | crc32.cpp:30 | one table lookup of get_crc32 feeds the eight bits of a byte, low bit first, into a bit-serial division |
| `Crc.Update16Feeds` | crc32.cpp:52 | one table lookup of get_crc16 feeds the eight bits of a byte, high bit first |
| `Crc.CrcResumes` | crc32.cpp:25-43 | get_crc32 of a concatenation continues get_crc32_val from the first part |
| `Crc.CrcIsFold` | crc32.cpp:25-43 | get_crc32 is get_crc32_val folded from 0 |
| `Crc.Tables.Prepare` | crc32.cpp:27-28 | the first-use guard: afterwards both tables are complete and the guard does not fire again |
| `Crc.Tables.GetCrc32Val` | crc32.cpp:25-32 | one more byte |
| `Crc.Tables.GetCrc32` | crc32.cpp:33-43 | the bit-serial CRC-32 of the buffer, every length, negative lengths as none |
| `Crc.Tables.GetCrc16` | crc32.cpp:44-54 | the bit-serial CRC-16 of the buffer |
| `CrcCheck.CheckValues` | crc32.cpp:15-54 | the check values: for the nine bytes "123456789" the CRC-32 is 0xcbf43926 and the CRC-16 0x29b1 |
| `Sha1Vectors.AbcDigest` | crc32.cpp:95-341 | the first example message of FIPS 180-1, through all rounds: SHA-1 of "abc" is a9993e36 4706816a ba3e2571 7850c26c 9cd0d89d |
| `Sha1Vectors.LongDigest` | crc32.cpp:95-341 | the second, of 56 bytes and two blocks: 84983e44 1c3bd26e baae4aa1 f95129e5 e54670f1 |
| `Sha1Bits.KIsRoot` | crc32.cpp:136-218 | the four round constants are the square roots of 2, 3, 5 and 10 times 2^30, cut off |
| `Sha1Bits.RotlBits` | crc32.cpp:118-134 | the rotations by 1, 5 and 30 move bit i to bit i + n modulo 32 |
| `Sha1Bits.FBits` | crc32.cpp:136-218 | which function each of the 80 rounds takes, bit by bit: choice, parity, majority, parity |
| `Sha1.MacroFIsF` | crc32.cpp:136-218 | the three short forms of F are Ch, Parity and Maj of FIPS 180-4 section 4.1.1 |
| `Sha1.NextWord` | crc32.cpp:118-123 | the 16 words rolling in place give word t of the 80-word schedule of section 6.1.2 |
| `Sha1.RollOn` | crc32.cpp:118-123 | overwriting the oldest word keeps the part of the schedule that is still needed |
| `Sha1.FiveRounds` | crc32.cpp:139-143 | five uses of P with rotated names are five rounds of section 6.1.2 |
| `Sha1.Process` | crc32.cpp:95-249 | sha1_process is the compression of section 6.1.2, every block and state |
| `Sha1.Context.Count` | crc32.cpp:265-269 | the two-word byte count with its carry is the count modulo 2^64 |
| `Sha1.Context.Update` | crc32.cpp:254-292 | sha1_update in place: hash value of the whole blocks, the block begun, the count |
| `Sha1Spec.FeedFeed` | crc32.cpp:254-292 | two updates are one update with the concatenation, from every context |
| `Sha1Spec.Streaming` | crc32.cpp:254-292 | any number of updates leaves the context one update leaves |
| `Sha1.LengthInBits` | crc32.cpp:312-317 | the two length words are the 64-bit big-endian number of bits |
| `Sha1Spec.PadZeros` | crc32.cpp:319-320 | the zeros between end mark and length, as section 5.1.1 asks |
| `Sha1Spec.FinishIsSha1` | crc32.cpp:306-330 | feeding end mark, zeros and length hashes the padded message |
| `Sha1.GetSha1` | crc32.cpp:332-341 | get_sha1 is the hash of the message padded per section 5.1.1 of FIPS 180-4, every length |
| `CalcSyntax.TreeExists` | calc.cpp:43-69 | every infix formula over operands, binary operators and parentheses is the text of a tree grouped by op_preced and op_left_assoc |
| `ShuntingYard.ShuntingYard` | calc.cpp:88-220 | the loop on an array of 32 characters is the translation by characters, failures included |
| `ShuntingYard.TranslationConserves` | calc.cpp:88-220 | every accepted translation, of any input, has the same operands, operators and functions, each as often |
| `CalcCompile.RunFormula` | calc.cpp:97-205 | on any stack a formula runs out of room exactly when its Height says so, and otherwise leaves its pending operators and the rest of its postorder |
| `CalcCompile.RunStrips` | calc.cpp:97-102 | on any string, blanks change nothing, except that each asks for room on the stack |
| `CalcCompile.HeightCoversPending` | calc.cpp:97-102 | behind a formula there is room whenever there was room in front of each of its characters |
| `CalcCompile.BlankCanFail` | calc.cpp:97-102 | outside the formulas a blank can fail: an operand and 32 times ! translate, with a blank behind them they do not |
| `CalcCompile.TranslateIsPostorder` | calc.cpp:88-220 | shunting_yard emits the postorder of the tree if and only if the stack has room in front of every character; blanks, wherever they are, change nothing |
| `CalcExecute.ExecutionOrder` | calc.cpp:294-386 | the loop on an array of 32 values is evaluation by characters, failures included |
| `CalcExecute.ExecTree` | calc.cpp:307-370 | executing a postorder pushes the value of its tree, or runs out of stack exactly when Values says so |
| `CalcExecute.ValuesFit` | calc.cpp:294-306 | the value stack is at most one higher than the operator stack was |
| `CalcExecute.CalcIsEval` | calc.cpp:88-386 | every infix formula, blanks anywhere, evaluates to the docalcx value of its tree, exactly when both stacks have room; without an operator to the initial 0 |
| `CalcGrammar.CalcIsGrammar` | calc.cpp:45-69 | without precedence: for the grammar in which an assignment joins sums to the right, a sum products and a product operands and groups to the left, calc answers the value that the grammar gives, blanks anywhere, exactly when both stacks have room |
| `CalcGrammar.Reads` | calc.cpp:45-69 | and every infix formula is one of that grammar |
| `CalcGrammar.ThreeOperands` | calc.cpp:45-69 | any three operands x, y, z and any two binary operators: x o1 y o2 z is grouped to the right exactly if o1 is =, or o1 is + or - and o2 is *, / or % |
| `CalcExecute.MarkActs` | calc.cpp:70-84 | the operator ! takes one value |
| `CalcExecute.FunctionActs` | calc.cpp:70-84 | a function takes as many values as its letter stands behind A, and leaves the last result |
| `CalcExecute.ChainFails` | calc.cpp:305-308 | 31 assignments in a row translate and fail to evaluate: the value stack is a limit of its own |
| `CalcExecute.LoneOperandIsLost` | calc.cpp:371-379 | a lone operand evaluates to 0, whatever it stands for |
| `Paula.Channel.AudioStateChannel2` | audio.cpp:1393-1589 | the state machine in place, all five states |
| `Paula.Channel.AudioStateChannel` | audio.cpp:1593-1604 | a period end or a look at the state machine, after which the data register counts as seen |
| `Paula.Channel.WriteDat` | audio.cpp:1986-2026 | AUDxDAT in place: the word count and the end-of-block flag, or a start |
| `Paula.Channel.DmalEmu` | custom.cpp:7777-7795 | a served request: audio_getpt, memory, AUDxDAT |
| `Paula.Channel.AudioDmal` | audio.cpp:1275-1287 | the request bits are handed over and cleared |
| `Paula.CallOfItself` | audio.cpp:1521 | the calls the state machine makes of itself find state 2 or 3 and no period end, and only play a sample that is due |
| `PaulaRun.RunKeeps` | audio.cpp:1393-1589 | an invariant over every fair run from rest: pointer, word count, flags, data, samples and interrupts from the number of words fetched |
| `PaulaRun.StepKeeps` | audio.cpp:1393-1589 | every event keeps it |
| `PaulaRun.NeverStuck` | audio.cpp:1393-1589 | a request can always be collected, a collected one served, and without one the period of a sample can end |
| `PaulaRun.GetsToPlay` | audio.cpp:1438-1521 | a channel at rest reaches its first sample, the high byte at LC, through the dummy fetch |
| `PaulaRun.UsefulCounts` | audio.cpp:1393-1589 | in every fair run the events that get the channel on are exactly accounted for by fetches, samples and a request under way |
| `PaulaRun.ReachesFetch` | audio.cpp:1393-1589 | so every fair run with 4k such events has made k fetches |
| `PaulaRun.CanReachFetch` | audio.cpp:1393-1589 | and every fair run can be continued until it has |
| `PaulaRun.FetchesLoop` | audio.cpp:2033-2042 | after the dummy fetch, fetch k reads LC + 2*(k mod LEN), for ever; LEN 0 counts as 65536 |
| `PaulaRun.PlaysAndInterrupts` | audio.cpp:1523-1588 | everything played is the words of the loop, high byte before low byte; interrupts are one at the start and one per LEN words begun, with LEN 1 none for the first word |
| `PaulaRun.EndsPerBlock` | audio.cpp:1563-1569 | block ends counted in closed form, LEN 1 included |
| `PaulaRun.LastWord` | audio.cpp:1321-1337 | the counter stands at 1, and the next fetch resets the pointer, exactly in front of the last word of a block |
| `Paula.SwitchedOff` | audio.cpp:1438-1589 | DMA switched off: a channel waiting for its first words stops at once, one that plays goes on and stops at the end of a word whose interrupt still waits |
| `PaulaManual.RunPlays` | audio.cpp:1393-1589 | DMA off, over every run of writes to AUDxDAT and period ends: the channel takes up a word written at rest, and at the end of each word the one written last unless its interrupt still waits, then it stops; both bytes of every word are played, high byte first, and each word raises one interrupt |
| `PaulaManual.AnswersHeard` | audio.cpp:1393-1589 | a processor that answers every interrupt in time is heard word after word, without a gap |
| `PaulaManual.StopHeard` | audio.cpp:1393-1589 | left alone, the channel plays the last low byte and stops at the end of the word |
| `LanceReceive.Delivery` | a2065.cpp:378-422 | a frame is delivered exactly when the descriptors with room for it, from the ring offset on, are all free and fit in one lap; otherwise the free ones in front are filled, the ring offset stays at the one in the way, and that is marked unless it was the first |
| `LanceReceive.OverflowDescriptors` | a2065.cpp:389-402 | after an overflow: OWN cleared and no ENP on the descriptors filled, BUFF and OFLO on the one in the way, which after a lap is the first one |
| `LanceReceive.OverflowBytes` | a2065.cpp:409-411 | after an overflow the filled buffers hold the beginning of the frame |
| `LanceReceive.DeliveredDescriptors` | a2065.cpp:401-418 | on delivery: OWN cleared on each used descriptor, STP set on the first, ENP and the length on the last, all others untouched |
| `LanceReceive.DeliveredBytes` | a2065.cpp:409-415 | the filled pieces of the buffers hold the frame, piece after piece |
| `LanceReceive.PiecesAddUp` | a2065.cpp:409-415 | and together they have its length |
| `LanceReceive.FilledElsewhere` | a2065.cpp:378-422 | all other memory is unchanged |
| `LanceReceive.ExampleDelivers` | a2065.cpp:378-422 | a ring of one free descriptor of 64 bytes takes frames of up to 64 bytes and no longer ones |
| `LanceMemory.MaskedAddress` | a2065.cpp:379-380 | the masked descriptor address is the position in the ring |
| `LanceReceive.ReceiveFrom` | a2065.cpp:378-422 | the loop from any trip on, against the descriptors as they were |
| `LanceTransmit.CountDrops` | a2065.cpp:472-501 | every trip of the transmit loop gives back one descriptor, so it ends |
| `LanceTransmit.GatherFrom` | a2065.cpp:472-501 | the loop collects the chain; it succeeds exactly when the chain ends with ENP within a lap |
| `LanceTransmit.Transmission` | a2065.cpp:459-501 | on success the frame is the buffers one after another up to the first descriptor with ENP, and every descriptor of the chain is given back; on an error all in front of the descriptor in the way are, and that is marked |
| `LanceTransmit.FailedDescriptors` | a2065.cpp:481-498 | after an error: OWN cleared in front, ERR, BUFF and UFLO on the descriptor in the way, which after a lap is the first one |
| `LanceTransmit.UnderflowBits` | a2065.cpp:481-483 | BUFF and UFLO are the two highest bits of the status word, the others stay |
| `LanceTransmit.ReturnedDescriptors` | a2065.cpp:488-498 | only OWN changes, and only in the descriptors of the chain |
| `A2065.Card.GotFunc` | a2065.cpp:269-426 | a received frame in place: filter, addresses traded, check sequence appended, ring |
| `A2065.Card.Deliver` | a2065.cpp:378-424 | the ring loop in place, with the CSR0 bit of each outcome |
| `A2065.Card.DoTransmit` | a2065.cpp:446-535 | do_transmit in place: the gathered bytes in the transmit buffer whatever becomes of them, the short frame, the error and the cut check sequence |
| `A2065.ReachesRing` | a2065.cpp:286-330 | which frames reach the ring, by their addresses: those for the host and broadcasts unless the host sent them, other multicasts with a filter, other addresses in promiscuous mode, none shorter than 20 bytes or with the receiver off |
| `A2065.GoesOut` | a2065.cpp:503-535 | a whole chain of 60 bytes or more goes out with its addresses traded, without the last four bytes where the chip would make its own check sequence, and the transmitter stays on |
| `A2065.Fails` | a2065.cpp:503-535 | a shorter chain, or one that does not end within a lap, only switches the transmitter off and interrupts |
| `A2065.Skips` | a2065.cpp:459-466 | a first descriptor that is not own or does not start a frame is skipped |
| `LanceMemory.FlagMasks` | a2065.cpp:378-420 | the masks of the descriptor flags, 0x80 for OWN down to 1 for ENP |
| `MacFrames.ArpFrames` | a2065.cpp:205-216 | an ARP frame (EtherType 0x0806, hardware type 1, six-byte addresses), byte by byte: both header addresses, sender and target are traded, nothing else changes |
| `MacFrames.DhcpAddresses` | a2065.cpp:217-235 | a DHCP frame (UDP port 67 or 68): both header addresses and the client address are traded |
| `MacFrames.DhcpRest` | a2065.cpp:229-252 | of the rest only the checksum changes and the byte behind the datagram is cleared, and both only if the client address is traded and there was a checksum |
| `MacFrames.OtherFrames` | a2065.cpp:200-210 | any other frame: both header addresses, and below 20 bytes nothing |
| `Mac.MungePacket` | a2065.cpp:194-260 | mungepacket in the packet buffer, and what it reports |
| `Mac.MungeTwice` | a2065.cpp:194-260 | on every frame whose checksum is not rewritten, so on every frame that is not UDP, it undoes itself, ARP sender and target included |
| `Mac.TradeAllTwice` | a2065.cpp:177-188 | trading all addresses twice gives any frame back |
| `Mac.MungedChecksumFolds` | a2065.cpp:229-252 | after a rewrite, pseudo-header and datagram fold to 0xffff if and only if the sum meets the checksum once or the traded datagram without its checksum folds to 0xffff, and the stored checksum is 0 exactly in that case; once it is for every UDP header behind an IP header of at least five words |
| `Mac.RechecksumFolds` | a2065.cpp:229-252 | the same for any datagram in any buffer |
| `Mac.Not32IsComplement` | a2065.cpp:246 | the complement of a 32-bit word |
| `Mac.NeverReplaced` | a2065.cpp:246-250 | the complement of a folded sum is never 0 on 32 bits, so 0xffff is stored as 0 |
| `MacExamples.TwiceIsWrong` | a2065.cpp:229-252 | a frame with a header length of 2 words whose rewritten datagram does not fold to 0xffff |
| `MacExamples.RightButZero` | a2065.cpp:246-250 | a regular DHCP frame that leaves with checksum 0, which stands for no checksum |
| `Mac.FoldIsRemainder` | a2065.cpp:244-245 | adding the carries back in is the remainder modulo 65535, with 65535 for 0 |
| `AkikoRx.Channel.ReturnReply` | akiko.cpp:651-700 | cdrom_return_data in place |
| `AkikoRx.RunFollows` | akiko.cpp:632-700 | whatever the drive replies, whatever is written to the compare register and whenever the channel gets its turn, what is out is a prefix of all replies with their checksums, at consecutive places |
| `AkikoRx.RepliesDelivered` | akiko.cpp:678-699 | replies lie end to end in the circular buffer: each of the last 256 bytes out is in its place, a place not reached is untouched, and the channel is idle exactly when all that it owes is out |
| `AkikoRx.TurnMoves` | akiko.cpp:678-697 | an allowed turn moves exactly what compare register and reply leave |
| `AkikoRx.EveryReplyEnds` | akiko.cpp:651-700 | every run with as many allowed turns as bytes are owed has delivered every reply and left the channel idle |
| `AkikoRx.MovedOnDelivers` | akiko.cpp:651-700 | with the compare register moved on far enough one turn delivers all that is left |
| `AkikoRx.CheckedSum` | akiko.cpp:670-677 | reply and checksum add up to 0xff |
| `AkikoRx.Channel.StartReturnData` | akiko.cpp:632-641 | a reply of any length starts only on an idle channel |
| `AkikoRx.StartAnswers` | akiko.cpp:632-641 | 0 exactly while a reply is under way, -1 exactly without one to send, 1 and the new reply otherwise |
| `ChunkyToPlanar.SimpleC2p` | akiko.cpp:136-147 | the bit loop computes the planes |
| `ChunkyToPlanar.Tables.C2pDo` | akiko.cpp:163-201 | the precomputed form computes the same planes, for every input |
| `ChunkyToPlanar.PlanesHoldPixels` | akiko.cpp:136-147 | plane p holds bit p of every pixel, the first pixel in its highest bit |
| `ChunkyToPlanar.Bijection` | akiko.cpp:136-147 | the conversion is a bijection on the 256 bits |
| `ChunkyToPlanar.WriteThenRead` | akiko.cpp:204-227 | eight long writes and eight long reads return the eight planes in order, and leave the engine ready for the next eight |
| `ChunkyToPlanar.Engine.LPut` | akiko.cpp:1716-1727 | a long write in place, byte after byte from the low end |
| `ChunkyToPlanar.Engine.LGet` | akiko.cpp:1559-1573 | a long read in place |
| `Subchannel.ThereAndBack` | blkdev_cdimage.cpp:275-300 | the two conversions are mutual inverses on every 96-byte block |
| `Subchannel.SubToInterleaved` | blkdev_cdimage.cpp:275-287 | the nested loops move every bit where the bit map says |
| `Subchannel.SubToDeinterleaved` | blkdev_cdimage.cpp:288-300 | and back |

## Left out

- BlitAgree.AgreeExactly: for addresses that do not alias; where they do, a pointer of 0 may change nothing (a repeated word, a cell written twice), and BlitImmediate.ExactRefinesFast is one way only.
- BlitLeaves.Leaves: for D words with cells of their own in fitted memory and sources read before they are overwritten; where D words share cells BlitResult.Lands says which one stays, and a blit that overwrites its own source is covered by the theorems that compare the forms.
- BlitLinePixels.Shades: for C and D pointers that start equal, as the registers of an ordinary line do; LineDraws is for any.
- Blitter.Blitter.DoFast: after a specialised routine, says nothing of the data registers of sources the routine skips.
- BlitLineGeometry.WithinHalfAPixel: for accumulators that fit in 16 bits, as the registers of a proper line do.
- Blitter: register writes during a blit, freezing and faulty modes, bus allocation side effects, slow-down, interrupts, logging and saved states are timing hacks or calls into code not modelled.
- CdSector.EncodeL2: the address is a machine int divided towards zero; the sector is an array of exactly 2352 bytes.
- Crc.Tables.GetCrc32: the buffer is read as a sequence; longs are taken as 32 bits, which the tables never exceed.
- Sha1.Process: longs are taken as 32 bits (the rotation macro masks wider ones); the 80 lines of rounds are written as 16 trips of five; the five summands of a round stand in the order of the code.
- ShuntingYard.ShuntingYard: the output buffer is a growing string; a NUL ends the input and is not part of it.
- CalcExecute.CalcIsEval: reading numbers out of the text (parse_values), the functions A to Z and the operator ! are outside the formulas, though the two loops are modelled with them.
- Paula.Channel.AudioStateChannel2: attached channels, the hacks for fast processors, the muted output and the sample ripper are left out; filters and mixers are floating point.
- PaulaRun.FetchesLoop: LEN and LC constant, DMA on, each request served before its word is due; a late service makes the channel fetch out of step.
- LanceReceive.Delivery: buffers of free descriptors lie apart from the ring and from each other; the loop itself is modelled for any memory.
- LanceTransmit.Transmission: buffers lie apart from the ring.
- A2065.Card.DoTransmit: a chain longer than the transmit buffer, which the code would write past, is excluded; so is a datagram that reaches past the packet buffer (also in Mac.MungePacket and A2065.Card.GotFunc).
- A2065.Card.GotFunc: the bytes of the work buffer behind the frame are taken as 0; the check sequence is the CRC that Crc.Tables.GetCrc32 is proved to compute; the interrupt line is not modelled.
- AkikoRx.RunFollows: the drive fills the result buffer only while the channel is idle, as its two callers check (akiko.cpp:935, akiko.cpp:1133).
- AkikoRx.Channel.ReturnReply: memory is the page of 256 bytes at the channel's address; the delay counter is an input.
- ChunkyToPlanar.Tables.C2pDo: the 32 terms of each plane are the trips of two loops.
- Subchannel.SubToInterleaved: source and destination do not overlap.
- Threads, semaphores, preferences, file, socket and ROM plumbing, floating point, and the other emulated chips.
