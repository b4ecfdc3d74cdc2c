# Desktop and video driver protocols, verified

This project models the parts of the repository where an order of events, a rewrite in place or a
rounding decides whether the display and the video encoder work, and proves what they promise.

* **Ownership of GPU memory** (`Ownership*.dfy`, `Owner.dfy`): the catalogue, sixteen
  context slots, holds, deferred unmaps and the retained budget of `hevc_recovery.cpp`. Each lock section
  is a function of the locked state (`Ownership`), and also a method over the arrays, with the source's
  scans and loops (`OwnerTables.Owner`), proved equal to it. `OwnershipRuns` puts the sections into one
  transition system: any number of threads, each with its place between two sections; native calls, callers
  and the recovery thread move in any order. What the kernel answers is the environment's choice.
* **Rewriting command batches** (`Sideband`, `Rewrite*`, `PacketStream`, `Prepare*`): the splice with its
  position map, the relocation pass, and `prepare`'s in-place edits of the relocation table, each loop proved
  against a function on packets or records. A grammar of relocation tables (`Sideband`) is shown to be what
  both of the repository's parsers accept. `Submission` joins the passes, the scratch buffers (`ScratchDesk`)
  and the executor to one call of `prepare`.
* **Scanout flips** (`FlipState`, `Mapping`, `Framebuffer*`): the flip state, pins, the cache of mapping
  proofs, and the plane hardware as an environment that latches the armed base at a frame or not.
* **Desktop handoff** (`Handoff`): a run is the trace of its observations, saved markers and signals; a crash
  cuts the trace anywhere; the next run starts from the last marker saved.
* **Bounded computations** (`Pwm`, `Timing`, `Layout`, `Capture`).

The results about whole runs and whole batches speak of packets, records, handles and observations. What
these are in bits and fields is said apart, in results that name none of the functions the programs use:
`RewriteWords`, `PrepareWords`, `OwnershipWords` and `CaptureWords` for packets, relocations, batches and
captured commands, and members ending in `OnWords`, `OnNumbers`, `OnFields` or `OnRegisters` elsewhere.

Words are naturals below 2^32 and are masked as the source masks them; a shift is a division and a mask a
remainder. 64-bit products that could wrap are reduced modulo 2^64 (`Timing`). Pointers and mach addresses
are naturals, with null as 0.

Where a promise fails, the condition under which it holds is proved, and a concrete input shows it failing
(for the thresholds in `Pwm` the equivalence itself names the inputs):

* a range that is in use is not given back to the kernel: `OwnershipSafety.DeallocationExactly`, and
  `OwnershipWitnesses.TopOfSpaceForwarded` for a range that reaches the top of the address space;
* nor is the memory of a resource that a running batch names: `OwnershipBatches.RangeRecordedExactly` and
  `ForwardedMidBatchExactly`, and `OwnershipWitnesses.DataBufferForwarded` for one that is also a data buffer;
* no transaction ends on an unconfirmed completion (`hevc_recovery.cpp:21-22`):
  `OwnershipSlotLife.EndsUnconfirmedExactly`, and `OwnershipWitnesses.EarlyEnd`;
* the VDEnc rows are bound: `PrepareRun.VdencBoundExactly`, and `SubmissionWitness.HandedOnWithoutVdenc`;
* the rewritten stream decodes to the translated packets: `PacketStream.RewrittenStream`, and `WaitIsSplit`;
* the refresh rate is exact: `Timing.RefreshExactly`, and `RefreshCanWrap`;
* every frame is counted: `FramebufferRuns.PollCountsExactly` and `FirstPollExactly`, and
  `FramebufferWitness.FramesLost`;
* the resource scanned out is pinned: `FramebufferRuns.ScannedApartIsPinned` and `SharedBaseUncovers`, and
  `FramebufferWitness.ScannedUnpinned`;
* brightness levels come back: the thresholds in `Pwm`.

## Model

| member | source | states |
|---|---|---|
| `Sideband.ParseEncode` | hevc-encode-implementation/backend/hevc_recovery.cpp:234-256 | every relocation table the grammar can write is walked by the executor with the same block and record boundaries, and read back unchanged |
| `Sideband.FramingIsGrammar` | hevc-encode-implementation/backend/hevc_recovery.cpp:234-256 | the executor accepts a sideband, as far as framing goes, if and only if it is the encoding of a valid table |
| `Sideband.WalksAgree` | hevc-encode-implementation/backend/video_batch_rewrite.cpp:74-80 | the rewriter's inner loop, which looks for an all-zero rest before each record, accepts exactly the bodies the executor's loop accepts |
| `Sideband.TokensOnWords` | hevc-encode-implementation/backend/hevc_recovery.cpp:234-241 | an encoded table, on its words: the size and kind in the two halves of a token, 0x8200 for relocations only, and the word 0x200 before the end word |
| `RewriteLoops.RewriteVideoBatch` | hevc-encode-implementation/backend/video_batch_rewrite.cpp:6-92 | the whole rewrite: accepted or refused, and with the very batch the specification `Rewrite.Result` gives, whose acceptance `RewriteWords.AcceptsExactly` states on the words |
| `RewriteLoops.ReadHeader` | hevc-encode-implementation/backend/video_batch_rewrite.cpp:14-23 | on the header's bits: the low 6 and two words for the memory-interface opcodes 32, 36, 38 and 46, one for 0, for a batch end that is last and for a wait, the low 12 and two for other media packets, and 0 for every other header |
| `RewriteWords.AcceptsExactly` | hevc-encode-implementation/backend/video_batch_rewrite.cpp:6-90 | which batches are accepted, on their words: used words of audited packets that end in 0x05000000 with zeros behind; replacements of whole media packets by packets of the same kind, in order, each behind no prolog or one of the three allowed ones, with address pairs inside both packets and no old word twice; no more words than there is room for; and a sideband of the right capacity with zero bases, targets that have a new position below 2^20, exactly one used size, which is right, and no unknown block |
| `RewriteWords.AcceptedParts` | hevc-encode-implementation/backend/video_batch_rewrite.cpp:11-26 | every accepted batch splits into such packets and carries the encoding of a table |
| `RewriteWords.OtherHeaderRefused` | hevc-encode-implementation/backend/video_batch_rewrite.cpp:14-25 | a batch is refused where the packets before some word are fine and the next is of another kind, a batch end too early, or too long for the used words |
| `RewriteWords.SidebandOnWords` | hevc-encode-implementation/backend/video_batch_rewrite.cpp:68-87 | what an accepted rewrite does to each word of the sideband: bits 5 to 24 of a relocation become the new position of the word they meant, the used size becomes the new one, and no other bit changes |
| `RewriteLoops.MarkBoundaries` | hevc-encode-implementation/backend/video_batch_rewrite.cpp:11-26 | the walk succeeds exactly on a stream of audited packets, and then marks exactly the packet starts |
| `RewriteLoops.Splice` | hevc-encode-implementation/backend/video_batch_rewrite.cpp:27-59 | accepts exactly the well-formed replacement lists whose result fits, and leaves the spliced words and the position map |
| `RewriteLoops.DeclareAddresses` | hevc-encode-implementation/backend/video_batch_rewrite.cpp:49-53 | accepts exactly address pairs inside both packets with no old index twice, and maps those |
| `RewriteLoops.RelocateWords` | hevc-encode-implementation/backend/video_batch_rewrite.cpp:74-80 | in place: every record of a block gets its mapped target, or the block is refused |
| `RewriteLoops.RelocateOne` | hevc-encode-implementation/backend/video_batch_rewrite.cpp:68-87 | in place: one block is refused or left as its relocated encoding, nothing else changing |
| `RewriteLoops.Relocate` | hevc-encode-implementation/backend/video_batch_rewrite.cpp:64-89 | in place: the table is accepted exactly when framing, targets, size and one used-size token are right, and then left as the relocated table |
| `RewriteMeaning.RelocationMeaning` | hevc-encode-implementation/backend/video_batch_rewrite.cpp:27-91 | for every accepted rewrite the sideband differs from the input in target fields and the used-size word only; every relocation moves by the one position map: to the place its copied word has moved to, or to the new packet's start plus the index declared for it |
| `RewriteMeaning.DeclaredExactly` | hevc-encode-implementation/backend/video_batch_rewrite.cpp:49-53 | a word of a replaced packet is mapped to an index of the new packet if and only if the pair is declared, and by one replacement and one pair only |
| `RewriteMeaning.CopiedWord` | hevc-encode-implementation/backend/video_batch_rewrite.cpp:38-58 | a copied word is found, unchanged, where the position map says |
| `RewriteMeaning.CopiedOrder` | hevc-encode-implementation/backend/video_batch_rewrite.cpp:38-58 | the position map is strictly increasing on copied words |
| `RewriteMeaning.ReplacedPacket` | hevc-encode-implementation/backend/video_batch_rewrite.cpp:45-55 | each new packet stands in the output behind its prolog at the position the map is computed from |
| `RewriteMeaning.Identity` | hevc-encode-implementation/backend/video_batch_rewrite.cpp:6-92 | with no replacements an accepted batch comes back unchanged, which is what `prepare` relies on when it uses the rewrite as a check |
| `PacketStream.RewrittenStream` | hevc-encode-implementation/backend/video_batch_rewrite.cpp:8-63 | the used words decode, with `length`, to the old packets in order with each replaced one turned into prolog and new packet, and zeros follow, if and only if no replacement is aimed at a wait header 0x6800xxxx |
| `PacketStream.WaitIsSplit` | hevc-encode-implementation/backend/video_batch_rewrite.cpp:14-23 | a concrete accepted batch with a replacement at a wait header whose output does not decode to the translated packets |
| `PacketStream.PrologPackets` | hevc-encode-implementation/backend/prepare_gen12_probe.cpp:16-19 | the audited prologs decode: the initialisation into four packets, the others into one |
| `Prepare.KeepIsFilter` | hevc-encode-implementation/backend/prepare_gen12_probe.cpp:98-111 | the surviving records are the non-row records, each as often as before |
| `Prepare.KeepAppend` | hevc-encode-implementation/backend/prepare_gen12_probe.cpp:98-111 | the filter keeps the order of the survivors |
| `Prepare.ClonesDifferOnlyInTarget` | hevc-encode-implementation/backend/prepare_gen12_probe.cpp:127-146 | a clone equals the record it was made from but for the target field and, for the first surface word, the surface-id nibble |
| `PrepareWords.RowsOnWords` | hevc-encode-implementation/backend/prepare_gen12_probe.cpp:103-108 | exactly the records for the words 4, 13 and 22 of the old pipe-buffer packet are dropped, and they must have a head below 2^31 with low bits 0x11 |
| `PrepareWords.ClonesOnWords` | hevc-encode-implementation/backend/prepare_gen12_probe.cpp:127-146 | the clones of a list of records, on words: one for the next word of each chroma target, one for the same word of the reference surface for each of the two of the reconstructed one, with surface id 5 in the first |
| `Prepare.PlanKeepsGrammar` | hevc-encode-implementation/backend/prepare_gen12_probe.cpp:127-220 | whatever table the edits start from, the executor walks the result with the same block boundaries, every edited block ends in a zero word, and its records are the old ones rebound, then the clones, then the appended bindings |
| `PrepareLoops.DropRowStores` | hevc-encode-implementation/backend/prepare_gen12_probe.cpp:98-111 | in place: the compaction over the whole table, refused exactly where a row record has another access type |
| `PrepareLoops.CloneRelocations` | hevc-encode-implementation/backend/prepare_gen12_probe.cpp:127-151 | in place: the clones are added behind each block's records, refused exactly where one has a wrong head or no zero word would be left, with their number |
| `PrepareLoops.RebindLineBuffers` | hevc-encode-implementation/backend/prepare_gen12_probe.cpp:172-186 | in place: every untiled record at a line-buffer slot gets that buffer's handle (`PrepareWords.LineBuffersOnWords` says which), and their number is counted |
| `PrepareLoops.AppendVdenc` | hevc-encode-implementation/backend/prepare_gen12_probe.cpp:187-205 | in place: the two VDEnc bindings go to every relocation block with room for them and a zero word, counted two by two |
| `PrepareLoops.AppendOffchip` | hevc-encode-implementation/backend/prepare_gen12_probe.cpp:206-220 | in place: the three off-chip bindings go to every relocation block, refused exactly where one lacks the room |
| `PrepareRun.EditSideband` | hevc-encode-implementation/backend/prepare_gen12_probe.cpp:127-220 | the passes in the source's order with its counts deciding between them: accepted exactly when the counts come out, and then the sideband is the plan's table, whose records `LineBuffersOnWords` and `NewRowsOnWords` give word by word |
| `PrepareRun.PassesArePlan` | hevc-encode-implementation/backend/prepare_gen12_probe.cpp:127-220 | four sweeps over the whole table are one block-by-block plan |
| `PrepareRun.PreparedIsWalked` | hevc-encode-implementation/backend/prepare_gen12_probe.cpp:127-241 | whatever sideband is handed to the executor, it walks it as the plan's table, block for block, each ending in a zero word |
| `PrepareRun.VdencBoundExactly` | hevc-encode-implementation/backend/prepare_gen12_probe.cpp:187-221 | the records of every block that is handed on; the VDEnc rows are among them if and only if the line-buffer pass bound exactly six records, and then in one block; otherwise it bound eight, or eleven above 2048 pixels |
| `PrepareWords.LineBuffersOnWords` | hevc-encode-implementation/backend/prepare_gen12_probe.cpp:156-186 | in the sideband that is handed on, each record and clone of a block keeps its place and all its words but the handles; with a head below 2^31 and the target [7, 10, 16, 19, 25, 28][n] behind the pipe-buffer packet it names buffer n; with any other it names what it named |
| `PrepareWords.LinesOnWords` | hevc-encode-implementation/backend/prepare_gen12_probe.cpp:172-186 | the number the later passes go by is that of the records and clones with a head below 2^31 and one of those six targets |
| `PrepareWords.NewRowsOnWords` | hevc-encode-implementation/backend/prepare_gen12_probe.cpp:187-220 | behind them come, exactly if six were bound and the zero tail is longer than ten words, the rows for the words 62 and 65 of the VDEnc packet, and then, exactly in a wide frame in which six or eight were bound, those for the words 4, 13 and 22 of the pipe-buffer packet, with head (word << 5) | 0x11 and the next buffers' handles |
| `SubmissionWitness.HandedOnWithoutVdenc` | hevc-encode-implementation/backend/prepare_gen12_probe.cpp:187-241 | a concrete call, from an accepted batch over an accepted rewrite to the executor: its commands have a VDEnc packet, eight records were bound, and no relocation of what is handed over is for the words of the VDEnc rows |
| `Submission.PrepareBatch` | hevc-encode-implementation/backend/prepare_gen12_probe.cpp:29-255 | one whole call: the executor is asked exactly when every step before succeeds, with exactly the request of the specification; at every exit the process owns the scratch it owned before, plus all the buffers of the request exactly if the executor's reply is acceptance; none is lost and none given back twice |
| `Submission.HandlesAreKnown` | hevc-encode-implementation/backend/prepare_gen12_probe.cpp:98-241 | every relocation handed to the executor names what the same block of the incoming sideband named, or one of the scratch buffers handed over with it |
| `Submission.LineBuffersFit` | hevc-encode-implementation/backend/prepare_gen12_probe.cpp:157-186 | an untiled relocation handed to the executor at word [7, 10, 16, 19, 25, 28][n] of the pipe-buffer packet names the n-th scratch buffer handed over, which has the n-th size of the frame in whole pages |
| `Submission.NewRowsFit` | hevc-encode-implementation/backend/prepare_gen12_probe.cpp:157-220 | the rows added to a block name the other buffers, the off-chip ones only in frames wider than 2048 pixels |
| `Submission.BufferSize` | hevc-encode-implementation/backend/prepare_gen12_probe.cpp:157-163 | each scratch buffer handed over has the size the frame needs for it, in whole pages |
| `Submission.UseOnWords` | hevc-encode-implementation/backend/prepare_gen12_probe.cpp:35-41 | the used size is that of the last token 0x38000 |
| `Submission.PipeOnWords` | hevc-encode-implementation/backend/prepare_gen12_probe.cpp:95-97 | the old pipe-buffer packet is that of the last replacement at a header 0x73820077 |
| `Submission.LastChecksHold` | hevc-encode-implementation/backend/prepare_gen12_probe.cpp:226-241 | what is handed over has the sizes of the incoming streams and exactly one event token, so the last checks of `prepare` never fail |
| `Submission.HandOver` | hevc-encode-implementation/backend/hevc_recovery.cpp:213-258 | the buffers an accepted call loses are exactly those its slot and thread gain, in the transition system of all threads; a refused one moves none |
| `Ownership.OverlapsExactly` | hevc-encode-implementation/backend/hevc_recovery.cpp:58-60 | two ranges overlap by the test if and only if they share an address and neither ends at or past the top of the address space |
| `OwnershipKeeps.StepKeeps` | hevc-encode-implementation/backend/hevc_recovery.cpp:57-279 | one step, whichever thread takes it, keeps the whole invariant: slots, threads, catalogue, deferred table and every account |
| `OwnershipKeeps.RunKeeps` | hevc-encode-implementation/backend/hevc_recovery.cpp:57-279 | in every interleaving: reserved bytes are the sum of the slots' charges within 512 MiB, transactions begun are active in a slot or owed an end, every reference, use count, scratch buffer and native context taken is with a slot, the catalogue, a caller or a thread about to drop it, each deferred range was unmapped or is in the table, and a slot pointer kept outside the lock still denotes its context |
| `OwnershipKeeps.RejectLeavesNothing` | hevc-encode-implementation/backend/hevc_recovery.cpp:257 | a rejected preflight leaves only the occupied slot and one sweep of the deferred table |
| `OwnershipSafety.HeldExactly` | hevc-encode-implementation/backend/hevc_recovery.cpp:61-65 | the hooks' check is exact: it says held exactly when some context holds an address of the range and the range ends below the top of the address space |
| `OwnershipSafety.DeallocationExactly` | hevc-encode-implementation/backend/hevc_recovery.cpp:176-185 | after any run a deallocation of our own task goes to the kernel if and only if no context holds any of the range, or the range ends at or past the top of the address space |
| `OwnershipSafety.UnmapsNothingHeld` | hevc-encode-implementation/backend/hevc_recovery.cpp:105-109 | in any run, no context holds any address of a range a step unmaps |
| `OwnershipSafety.DeferredUntilLastHold` | hevc-encode-implementation/backend/hevc_recovery.cpp:97-113 | a deferred range stays in the table, mapped, while any of it is held; the step that drops the last hold unmaps it once and drops the entry if the kernel agrees in that step, and keeps it otherwise |
| `OwnershipSafety.DeferredAreHeld` | hevc-encode-implementation/backend/hevc_recovery.cpp:105-109 | in every run in which no unmap is refused, each entry of the deferred table has an address some context holds |
| `OwnershipSlotLife.SlotMoves` | hevc-encode-implementation/backend/hevc_recovery.cpp:114-279 | what one step can do to one slot, and nothing else |
| `OwnershipSlotLife.HeldUntilConfirmed` | hevc-encode-implementation/backend/hevc_recovery.cpp:264-278 | in any run what a slot holds for a batch stays held until a successful fence or full-context drain |
| `OwnershipSlotLife.LosePoisons` | hevc-encode-implementation/backend/hevc_recovery.cpp:270-275 | a lost batch leaves the first of submit result, device error and fence result, and never 0 |
| `OwnershipSlotLife.PoisonStep` | hevc-encode-implementation/backend/hevc_recovery.cpp:186-218 | a failed context keeps its first error through any step, or its slot is cleared |
| `OwnershipSlotLife.PoisonPersists` | hevc-encode-implementation/backend/hevc_recovery.cpp:186-218 | as long as a failed context keeps a slot, every error query and fence wait gets its first error, and every execute is refused with it |
| `OwnershipSlotLife.EndsUnconfirmedExactly` | hevc-encode-implementation/backend/hevc_recovery.cpp:192-206 | the promise never to end a transaction on an unconfirmed completion is broken by the release hook if and only if the failed slot holds nothing, has no scratch, and its recovery thread never ran or gave up |
| `OwnershipBooks.AcceptedIsCovered` | hevc-encode-implementation/backend/hevc_recovery.cpp:228-258 | for every record of an accepted batch, on its words: bits 1 to 3 of the head are not 7, and the low half of the second word, and for 2, 4, 5 and 6 the high half too, is a scratch buffer of the slot, or the catalogue's first match for it is an object the slot holds, or it is a held object's own |
| `OwnershipWords.OnlyHandlesMatter` | hevc-encode-implementation/backend/hevc_recovery.cpp:234-256 | nothing else of a well-framed sideband matters to the executor: two that agree in those bits and halves, whatever the high halves for operations 0, 1 and 3, get the same answer and leave the same state |
| `OwnershipWords.AcceptedOnNumbers` | hevc-encode-implementation/backend/hevc_recovery.cpp:207-258 | in any run an accepted batch has at most 11 scratch buffers, 16 data buffers and 256 holds within 512 MiB in all, and names no handle 0 |
| `OwnershipWords.TablesOnNumbers` | hevc-encode-implementation/backend/hevc_recovery.cpp:27-28 | the tables in any run: 4096 resources, 16 contexts, 4096 deferred unmaps, 512 MiB |
| `OwnershipWords.TurnedAwayExactly` | hevc-encode-implementation/backend/hevc_recovery.cpp:207-226 | the answers of a call that does not get to its preflight: 0 for a malformed one, the recorded error of a failed context, the busy error of a busy one or a full table, 0 past the budget |
| `OwnershipWords.HoldOnNumbers` | hevc-encode-implementation/backend/hevc_recovery.cpp:66-80 | what a new hold costs and records, and when it is refused, in numbers |
| `OwnershipWords.MatchIsFirst` | hevc-encode-implementation/backend/hevc_recovery.cpp:84 | a handle means the first catalogue entry in use with it in the caller's namespace |
| `OwnershipBatches.CoveredUntilDone` | hevc-encode-implementation/backend/hevc_recovery.cpp:207-279 | that stays so, word for word, in every run until the batch is seen to finish |
| `OwnershipWords.HoldsExactly` | hevc-encode-implementation/backend/hevc_recovery.cpp:228-258 | in any run an accepted batch holds exactly its data buffers and the catalogued resources its relocations name by a handle none of its scratch buffers has |
| `OwnershipBatches.RefusedLeavesNothing` | hevc-encode-implementation/backend/hevc_recovery.cpp:213-257 | a batch that is not accepted leaves no hold, no charge and no activity behind |
| `OwnershipBatches.RangeRecordedExactly` | hevc-encode-implementation/backend/hevc_recovery.cpp:66-93 | an accepted batch records the range of a catalogued resource its relocations name if and only if the resource is not also one of its data buffers |
| `OwnershipBatches.HeldRangesAreProtected` | hevc-encode-implementation/backend/hevc_recovery.cpp:176-185 | in every run, from the acceptance of a batch to its fence or drain, deallocating any part of a catalogued resource it names is put off, if the resource is not one of its data buffers |
| `OwnershipBatches.ForwardedMidBatchExactly` | hevc-encode-implementation/backend/hevc_recovery.cpp:176-185 | meanwhile, where no other hold meets its range, the deallocation of a named resource goes to the kernel if and only if the resource is one of the data buffers |
| `OwnershipWitnesses.EarlyEnd` | hevc-encode-implementation/backend/hevc_recovery.cpp:192-206 | a concrete run in which a lost, empty batch has its transaction ended without confirmation |
| `OwnershipWitnesses.DataBufferForwarded` | hevc-encode-implementation/backend/hevc_recovery.cpp:66-80 | a concrete run: a resource is created, named by an accepted batch that also has it as a data buffer, and the deallocation of its range is passed on to the kernel in the middle of the batch |
| `OwnershipWitnesses.TopOfSpaceForwarded` | hevc-encode-implementation/backend/hevc_recovery.cpp:58-65 | a concrete run in which the deallocation of a range that is in use, but reaches the top of the address space, is passed on to the kernel |
| `OwnerTables.Owner.IsHeld` | hevc-encode-implementation/backend/hevc_recovery.cpp:61-65 | the nested scan finds a held range if and only if there is one |
| `OwnerTables.Owner.Create` | hevc-encode-implementation/backend/hevc_recovery.cpp:166-169 | the created resource enters the first free slot of the catalogue, if there is one |
| `OwnerTables.Owner.ResourceRelease` | hevc-encode-implementation/backend/hevc_recovery.cpp:171-175 | the first entry of the object leaves the catalogue with its surface reference |
| `OwnerTables.Owner.VmDeallocate` | hevc-encode-implementation/backend/hevc_recovery.cpp:176-185 | deferred once, refused when the table is full, or passed on |
| `OwnerTables.Owner.AddHold` | hevc-encode-implementation/backend/hevc_recovery.cpp:66-80 | a hold is refused, already there, or recorded, charged and referenced |
| `OwnerTables.Owner.AddHandle` | hevc-encode-implementation/backend/hevc_recovery.cpp:81-93 | a handle is scratch, catalogued, a held object's own, or unknown |
| `OwnerTables.Owner.Walk` | hevc-encode-implementation/backend/hevc_recovery.cpp:234-256 | the sideband walk takes the holds the parsed table asks for, up to the first refusal |
| `OwnerTables.Owner.ReleaseHolds` | hevc-encode-implementation/backend/hevc_recovery.cpp:97-113 | references dropped, deferred ranges swept, scratch destroyed, charge returned |
| `OwnerTables.Owner.Execute` | hevc-encode-implementation/backend/hevc_recovery.cpp:207-260 | the executor's first lock section, with every refusal and the accepted state, equal to `Ownership.Begin`, about which the rows above speak |
| `OwnerTables.Owner.Complete` | hevc-encode-implementation/backend/hevc_recovery.cpp:264-269 | the section after a fence that passed |
| `OwnerTables.Owner.Fail` | hevc-encode-implementation/backend/hevc_recovery.cpp:270-275 | the section after a batch was lost |
| `OwnerTables.Owner.Recover` | hevc-encode-implementation/backend/hevc_recovery.cpp:130-146 | the recovery thread's section, drained or not |
| `OwnerTables.Owner.ReleaseContext` | hevc-encode-implementation/backend/hevc_recovery.cpp:192-206 | the native owner lets go of a context |
| `OwnerTables.Owner.Error` | hevc-encode-implementation/backend/hevc_recovery.cpp:186-188 | the error a context reports |
| `ScratchDesk.Desk.Create` | hevc-encode-implementation/backend/gen12_scratch.c:13-37 | a live buffer if and only if every check passes; every failure gives back what was obtained before it |
| `ScratchDesk.MadeOnNumbers` | hevc-encode-implementation/backend/gen12_scratch.c:13-37 | in numbers: 1 byte to 64 MiB, met with the fewest whole pages, a 16-bit handle that is not 0, and kernel sizes that are enough |
| `ScratchDesk.Desk.Destroy` | hevc-encode-implementation/backend/gen12_scratch.c:38-43 | a buffer is given back once and forgotten; a forgotten one costs nothing more |
| `FlipState.AlwaysOrdered` | desktop-reset-recovery-20260917/source/desktop-link/flip_state.hpp:11-24 | completed <= latched <= submitted <= completed + 1, pending exactly when submitted exceeds completed, in every order of calls |
| `FlipState.CompleteIsTrue` | desktop-reset-recovery-20260917/source/desktop-link/flip_state.hpp:7-26 | completion is only reported when the last armed base was read live, at a frame strictly after it was armed |
| `FlipState.ObservedExactly` | desktop-reset-recovery-20260917/source/desktop-link/flip_state.hpp:16-26 | one observation and a finish complete a waiting update if and only if the observation is of a later frame and shows the armed base, the low 12 bits aside |
| `FlipState.State.Arm` | desktop-reset-recovery-20260917/source/desktop-link/flip_state.hpp:11-15 | armed unless an update is pending |
| `FlipState.State.Observe` | desktop-reset-recovery-20260917/source/desktop-link/flip_state.hpp:16-20 | latched only by the armed base, at a later frame |
| `FlipState.State.Finish` | desktop-reset-recovery-20260917/source/desktop-link/flip_state.hpp:21-24 | completed only once latched |
| `Mapping.Compare` | desktop-reset-recovery-20260917/source/desktop-link/physical_alias.hpp:12-26 | the two descriptors are walked page by page to the first page that is missing or differs, and the answer says which |
| `Mapping.WalkTable` | desktop-reset-recovery-20260917/source/desktop-link/native_mapping.hpp:328-372 | success if and only if every page's table entry is stable, present and equal to the native descriptor's page |
| `Mapping.InspectPages` | desktop-reset-recovery-20260917/source/desktop-link/native_mapping.hpp:291-404 | success if and only if the pages are related, the table agrees on every page and nothing changed meanwhile |
| `Mapping.Inspect` | desktop-reset-recovery-20260917/source/desktop-link/native_mapping.hpp:138-404 | the entry point: the kept proof is dropped first and comes back only with success |
| `Mapping.SucceedsExactly` | desktop-reset-recovery-20260917/source/desktop-link/native_mapping.hpp:235-404 | the check without a kept proof, on the fields: the range and its at most 4096 pages, the surface's pages against the native ones, the entries inside the register window, and for each page the address, length, stable word, present bit and page number |
| `FramebufferRuns.RunKeeps` | desktop-reset-recovery-20260917/source/desktop-link/intel_framebuffer.cpp:569-679 | every run of ticks, polls, flips, completion queries and remappings keeps pins, flip state, plane and proofs in step |
| `FramebufferRuns.PinsBalance` | desktop-reset-recovery-20260917/source/desktop-link/intel_framebuffer.cpp:74-195 | pins taken less pins dropped are exactly the front, the pending update and the kept proofs |
| `FramebufferRuns.LiveBaseIsCovered` | desktop-reset-recovery-20260917/source/desktop-link/intel_framebuffer.cpp:179-233 | the base being scanned out is the front's or the pending update's, and the resource behind either is pinned |
| `FramebufferRuns.ScannedIsPinned` | desktop-reset-recovery-20260917/source/desktop-link/intel_framebuffer.cpp:179-233 | if the plane latches at every frame, the very resource it scans out is pinned in every state |
| `FramebufferRuns.ScannedApartIsPinned` | desktop-reset-recovery-20260917/source/desktop-link/intel_framebuffer.cpp:179-233 | whether frames latch or not: as long as no update is armed at the front's base for another resource, the resource scanned out is pinned in every state |
| `FramebufferRuns.SharedBaseUncovers` | desktop-reset-recovery-20260917/source/desktop-link/intel_framebuffer.cpp:179-233 | from any state in which one is, a frame that does not latch and a completion query leave the scanned resource without front and pending, and pinned if and only if a mapping proof of it is kept |
| `FramebufferWitness.ScannedUnpinned` | desktop-reset-recovery-20260917/source/desktop-link/intel_framebuffer.cpp:179-233 | a concrete run of two flips to one base after which the resource scanned out has no pin |
| `FramebufferRuns.KeptProofsAreTrue` | desktop-reset-recovery-20260917/source/desktop-link/intel_framebuffer.cpp:64-90 | a kept proof belongs to a pinned resource and the full page walk would succeed on it right now |
| `FramebufferRuns.ArmedIsProven` | desktop-reset-recovery-20260917/source/desktop-link/intel_framebuffer.cpp:629-672 | a surface flip is armed only if the full page walk would succeed, whatever the cache holds |
| `FramebufferRuns.CompleteIsLive` | desktop-reset-recovery-20260917/source/desktop-link/intel_framebuffer.cpp:675-679 | when a completion query says complete, the last armed base is the one being scanned out and its resource the front |
| `FramebufferRuns.PollCountsExactly` | desktop-reset-recovery-20260917/source/desktop-link/intel_framebuffer.cpp:179-184 | a poll keeps the 64-bit count true if and only if fewer than 2^32 frames passed since the last |
| `FramebufferRuns.FramesAreCounted` | desktop-reset-recovery-20260917/source/desktop-link/intel_framebuffer.cpp:179-184 | in every run with polls that close together the count is the true number of frames |
| `FramebufferRuns.FirstPollExactly` | desktop-reset-recovery-20260917/source/desktop-link/intel_framebuffer.cpp:179-184 | from every start: after n frames without a poll, one poll counts them right if and only if n is below 2^32 |
| `FramebufferWitness.FramesLost` | desktop-reset-recovery-20260917/source/desktop-link/intel_framebuffer.cpp:179-184 | a concrete run in which 2^32 frames pass between two polls and none is counted |
| `FramebufferDriver.Driver.ClearProofs` | desktop-reset-recovery-20260917/source/desktop-link/intel_framebuffer.cpp:74 | every entry is dropped with its pin |
| `FramebufferDriver.Driver.ProofFor` | desktop-reset-recovery-20260917/source/desktop-link/intel_framebuffer.cpp:75-90 | hit, hole, or the oldest entry not on screen, with its own pin; nothing if that fails |
| `FramebufferDriver.Driver.Choose` | desktop-reset-recovery-20260917/source/desktop-link/intel_framebuffer.cpp:78-84 | the scan of the entries: a hit exactly if the entry stands before the first hole; a hole only as the first, with no hit before it; an entry in use only without both, neither front nor pending, and as the oldest of those; nothing exactly if each is front or pending |
| `Framebuffer.ScanIsOldest` | desktop-reset-recovery-20260917/source/desktop-link/intel_framebuffer.cpp:78-84 | the same of the specification the runs are about |
| `Framebuffer.ProofIsRefreshed` | desktop-reset-recovery-20260917/source/desktop-link/intel_framebuffer.cpp:79 | a hit makes the entry the newest and changes nothing else |
| `Framebuffer.HoleIsTaken` | desktop-reset-recovery-20260917/source/desktop-link/intel_framebuffer.cpp:80-90 | the first hole takes the resource with a pin of its own |
| `Framebuffer.OldestGivesUp` | desktop-reset-recovery-20260917/source/desktop-link/intel_framebuffer.cpp:81-90 | the oldest entry that is neither front nor pending, the first of its age, gives up its pin, and its place if the new pin succeeds |
| `FramebufferDriver.Driver.ObserveScanout` | desktop-reset-recovery-20260917/source/desktop-link/intel_framebuffer.cpp:179-186 | the frame counter and live base are read and the latch noted |
| `FramebufferDriver.Driver.FinishFlip` | desktop-reset-recovery-20260917/source/desktop-link/intel_framebuffer.cpp:187-197 | the old front is dropped once and the pending resource moves up |
| `FramebufferDriver.Driver.ArmPrimary` | desktop-reset-recovery-20260917/source/desktop-link/intel_framebuffer.cpp:198-233 | busy, refused, or armed behind a poll |
| `FramebufferDriver.Driver.Flip` | desktop-reset-recovery-20260917/source/desktop-link/intel_framebuffer.cpp:569-673 | every refusal of a flip request and the armed state |
| `Framebuffer.FlipAnswers` | desktop-reset-recovery-20260917/source/desktop-link/intel_framebuffer.cpp:569-673 | the answer to each flip request, in order, on its fields |
| `FramebufferDriver.Driver.Itcm` | desktop-reset-recovery-20260917/source/desktop-link/intel_framebuffer.cpp:675-679 | the completion query |
| `Handoff.EnsureDesktop` | desktop-manual-20260917/fix/desktop_handoff.py:71-129 | the whole run, as the sequence of its observations, saved markers and signals, about which the rows below speak |
| `Handoff.ForceStuckExit` | desktop-manual-20260917/fix/desktop_handoff.py:25-43 | the bounded escalation: observe, sample, observe again, record, kill |
| `Handoff.Wait` | desktop-manual-20260917/fix/desktop_handoff.py:111-129 | the wait loop with its one forced exit |
| `Handoff.SignalsAreJustified` | desktop-manual-20260917/fix/desktop_handoff.py:25-110 | every signal goes to the process just recorded as `before`, right after saving a record of this boot with the matching phase, behind two observations with equal fields that show it powered down with no flip completed; all on the fields |
| `Handoff.SignalsNeedLeave` | desktop-manual-20260917/fix/desktop_handoff.py:89-99 | a run signals only if the marker is missing or of another boot, or has no phase and names the same process, whose attempt timed out, and then it only kills |
| `Handoff.StuckIsAsked` | desktop-manual-20260917/fix/desktop_handoff.py:83-107 | a desktop seen stuck three times is asked to exit, behind a saved intent, if the marker says nothing of this boot |
| `Handoff.KillIsLate` | desktop-manual-20260917/fix/desktop_handoff.py:111-127 | a run that asked first kills only in a turn past the force time that still sees the same process |
| `Handoff.CutSpends` | desktop-manual-20260917/fix/desktop_handoff.py:100-110 | a run cut anywhere either did nothing lasting or left a marker that allows no more than the signals not yet sent |
| `Handoff.AtMostOneEach` | desktop-manual-20260917/fix/desktop_handoff.py:71-129 | over any number of runs in one boot, each cut anywhere, at most one SIGTERM and one SIGKILL are sent |
| `Handoff.SuccessIsProgress` | desktop-manual-20260917/fix/desktop_handoff.py:61-124 | success ends a run, behind two observations of one process with power 2 in both, integer counters, more flips completed in the later one, completed never above submitted, and 0 or 1 pending; and never for a process the run signalled |
| `Handoff.ReturnsAtOnceExactly` | desktop-manual-20260917/fix/desktop_handoff.py:61-82 | a run returns behind its first two observations if and only if they are such a pair |
| `Handoff.StalledIsLeftAlone` | desktop-manual-20260917/fix/desktop_handoff.py:83-87 | two equal observations, powered or with a flip completed, and two of different processes, end in an error with nothing saved or signalled |
| `Pwm.UserRoundTripExactly` | desktop-reset-recovery-20260917/source/backlight/pwm.hpp:7-8 | all user levels 0..255 come back if and only if the period is at least 255 |
| `Pwm.LinearRoundTripExactly` | desktop-reset-recovery-20260917/source/backlight/pwm.hpp:10-12 | all linear levels come back if and only if the period is at least 65535 |
| `Pwm.LinearWithinOneExactly` | desktop-reset-recovery-20260917/source/backlight/pwm.hpp:10-12 | they come back within one if and only if the period is at least 21845 |
| `Pwm.ScalesAgree` | desktop-reset-recovery-20260917/source/backlight/pwm.hpp:7-13 | for every period, going through the linear scale gives the duty of the user scale |
| `Pwm.LinearLevelsComeBack` | desktop-reset-recovery-20260917/source/backlight/pwm.hpp:13-14 | user levels survive the linear scale |
| `Pwm.PanelDutyBounds` | desktop-reset-recovery-20260917/source/backlight/pwm.hpp:17-21 | the panel duty is monotone, between the rounded-up hundredth of the period and the period, and either the nearest step for the level or the least duty of a hundredth |
| `Timing.Get` | desktop-reset-recovery-20260917/source/desktop-link/display_timing.hpp:14-20 | the captured value of a register, 0 for one not captured |
| `Timing.Decode` | desktop-reset-recovery-20260917/source/desktop-link/display_timing.hpp:29-76 | the status is that of the first check, in the source's order, that fails; on success every clock is exact and correctly rounded, with no 64-bit wrap, and every size, lane count, depth and sign is read off the bits named |
| `Timing.ClocksOnRegisters` | desktop-reset-recovery-20260917/source/desktop-link/display_timing.hpp:46-72 | the three clocks of an accepted mode as quotients of register fields |
| `Timing.SupportedOnFields` | desktop-reset-recovery-20260917/source/desktop-link/display_timing.hpp:29-76 | which fields make an accepted mode, with the clocks as quotients |
| `Timing.ReadsSnapshot` | desktop-reset-recovery-20260917/source/desktop-link/display_timing.hpp:8-19 | the decoder reads only registers that the snapshot captures |
| `Timing.RefreshExactly` | desktop-reset-recovery-20260917/source/desktop-link/display_timing.hpp:64-65 | the refresh computation is exact if and only if its product stays below 2^64 |
| `Timing.LinkMakesRefreshExact` | desktop-reset-recovery-20260917/source/desktop-link/display_timing.hpp:65-73 | it does wherever the later link check passes |
| `Timing.RefreshCanWrap` | desktop-reset-recovery-20260917/source/desktop-link/display_timing.hpp:29-66 | concrete registers whose fields pass every check before the refresh rate, and for which the computed rate is not the exact one |
| `Timing.BlankingOf` | desktop-reset-recovery-20260917/source/desktop-link/intel_framebuffer.cpp:117-125 | in both directions the blanking and the pulse are positive, the sync offset is not negative, offset plus pulse fit in the blanking, and together with the active size they give back the mode |
| `Layout.Describe` | desktop-reset-recovery-20260917/source/desktop-link/native_layout.hpp:26-56 | the status is that of the first check, in the source's order, that fails; with none the plan has every derived number |
| `Layout.PlanOnNumbers` | desktop-reset-recovery-20260917/source/desktop-link/native_layout.hpp:38-62 | the plan in numbers: tiles of 64 by 1, 512 by 8 and 128 by 32, the tiling bits 0, 1 << 10 and 4 << 10, bases of 256 KiB or 1 MiB, and the rows of storage |
| `Layout.FitsOnNumbers` | desktop-reset-recovery-20260917/source/desktop-link/native_layout.hpp:30-54 | which surfaces get a plan, in numbers |
| `Layout.AddressInTiles` | desktop-reset-recovery-20260917/source/tools/verify_native_layout.cpp:20-22 | the address of a byte place by tile row, tile, column and row of the tile |
| `Layout.PlaceOfAddress` | desktop-reset-recovery-20260917/source/tools/verify_native_layout.cpp:15-24 | every byte place of the padded surface has its own address below the required bytes |
| `Layout.AddressOfPlace` | desktop-reset-recovery-20260917/source/tools/verify_native_layout.cpp:15-24 | and every address below is the address of its place, for every pitch of whole tiles |
| `Layout.PixelsFit` | desktop-reset-recovery-20260917/source/desktop-link/native_layout.hpp:26-62 | for every accepted Y-tiled plan (tile mode 3) the visible pixels have disjoint 4-byte runs inside the required bytes, and from a suitable base all lie below 2^32 |
| `Capture.WalkReader.Touch` | desktop-reset-recovery-20260917/source/desktop-link/command_capture.hpp:59-70 | a page enters the cache with its first sample, once, while there is room |
| `Capture.WalkReader.Read` | desktop-reset-recovery-20260917/source/desktop-link/command_capture.hpp:53-77 | an answer is what the snapshot holds, then and ever after, and there is one exactly when the request is in bounds, the budget lasts and the snapshot has every byte |
| `Capture.ConsistentStays` | desktop-reset-recovery-20260917/source/desktop-link/command_capture.hpp:53-77 | all answers of a walk agree with one snapshot, however memory changes between reads |
| `Capture.Audit.QueueCandidate` | desktop-reset-recovery-20260917/source/desktop-link/capture_walk.hpp:17-21 | a candidate is added unless it is malformed, known, or one too many |
| `Capture.Audit.Collect` | desktop-reset-recovery-20260917/source/desktop-link/capture_walk.hpp:38-42 | the chained batch, instruction base and shader offsets a packet names are found, or the walk is marked truncated; nothing else is |
| `CaptureWords.EntryOnWords` | desktop-reset-recovery-20260917/source/desktop-link/capture_walk.hpp:38 | which packets chain to another batch, and to which, on their words |
| `CaptureWords.BaseOnWords` | desktop-reset-recovery-20260917/source/desktop-link/capture_walk.hpp:40 | which set the instruction base, and to what, on their words |
| `CaptureWords.OffsetOnWords` | desktop-reset-recovery-20260917/source/desktop-link/capture_walk.hpp:41-42 | which set a shader offset, and to what, on their words |
| `CaptureWords.BindingOnWords` | desktop-reset-recovery-20260917/source/desktop-link/capture_walk.hpp:43 | what a group of a vertex buffer packet binds, on its words |
| `CaptureWords.DrawableOnWords` | desktop-reset-recovery-20260917/source/desktop-link/capture_walk.hpp:50 | which draws are followed, on their words |
| `Capture.Audit.BindVertices` | desktop-reset-recovery-20260917/source/desktop-link/capture_walk.hpp:43 | the slots are bound group by group, the last group for a slot winning, and the walk notes whether every group named a slot there is |
| `Capture.Audit.Draw` | desktop-reset-recovery-20260917/source/desktop-link/capture_walk.hpp:46-64 | a draw reads its indices first, from w[3] on, w[2] of them of 1, 2 or 4 bytes, and then nothing but vertices of bound buffers that these indices name, whole and inside the buffers |
| `CaptureWords.NumbersOnBytes` | desktop-reset-recovery-20260917/source/desktop-link/capture_walk.hpp:55-56 | the index values, low byte first |
| `Capture.Audit.Follow` | desktop-reset-recovery-20260917/source/desktop-link/capture_walk.hpp:25-67 | the packets of one entry, one behind the other, up to a batch end, to where the snapshot has no packet, or to a cap; every batch they chain to is queued or the walk is marked truncated |
| `Capture.Audit.Run` | desktop-reset-recovery-20260917/source/desktop-link/capture_walk.hpp:23-73 | the walk ends although its worklist grows, visits each address and space once within the caps, and gives each its path; unless marked truncated it leaves out no batch a path chains to, everything it finds was named by a packet it read, and it notes whether any packet on its paths binds a vertex buffer slot beyond the array |

## Left out

- Capture.Audit.BindVertices: a vertex buffer packet names its slot with six bits and the walk's array has 32 entries (`capture_walk.hpp:43`); a group for a slot from 32 on is ignored here and written outside the array there. So the results about a walk are results about the source for the walks whose paths have no such packet, `PathsInside(paths)`; the walk's ghost field `inside` says exactly that when `Run` is done.
- Capture.WalkReader.Read: how one page is sampled (translation, two readings and their comparison, `command_capture.hpp:9-46`) is the environment's answer; a page that could not be recorded in the dictionary is one that could not be read. The ring seed of `followCommands` is a candidate queued before `Run`.
- OwnerTables.Owner.Execute: locks are not taken; that each section runs alone is what the transition system assumes. Native submit, fence and drain calls, `CFRetain`, surface lookups and `pthread_create` are the environment's choices, and their effects are entries in a ledger.
- OwnershipKeeps.RunKeeps: assumes that the address of a live object is not handed out again while it is catalogued, and that a batch brings scratch its caller owns.
- OwnershipSafety.DeferredUntilLastHold: a range whose unmap the kernel refused is remembered as stuck; any later sweep may unmap it.
- Submission.PrepareBatch: the byte sizes' remainders modulo 4, saving the candidate files and dumping surfaces are left out; the copy of the streams back to the caller is the `side` of the request.
- FramebufferRuns.ScannedIsPinned: a poll and the surface register write behind it are one step here; in the source a frame can start between the reads of the counter and the live base, or between them and the write.
- ScratchDesk.Desk.Create: the creation request handed to the kernel (`gen12_scratch.c:21-30`) is not modelled, only the kernel's answers to it.
- Handoff.EnsureDesktop: reading the registry, the process list and the clock is given as input, with every failure they raise; the `force_evidence` entry of the marker, log files and a failing `os.kill` are not modelled. Runs are serialised by a lock in `session.py`, which is not part of this model.
- PrepareRun.EditSideband: the command words `prepare` overwrites beside the sideband (`prepare_gen12_probe.cpp:193,214`), its scan of the rewritten commands for clone targets and packets (`Submission.Call.find`), the frame size read off them, and the packet converter are inputs; the converter may supply any replacement the rewriter's own checks let through.
- RewriteLoops.RewriteVideoBatch: the map marks missing words with None where the source uses 0xffffffff; the two agree because the batch's capacity has to fit a word of the terminal token.
- FramebufferDriver.Driver.Flip: the record and layout checks before the pin are one Boolean of the request, and the display page table switch one outcome; enabling, stopping, power management, diagnostics, flip profiling and surface retain counts are not modelled.
- Mapping.Inspect: the class and object checks at the start and the final comparison are one condition each; the identity record is the addresses and lengths that can differ between two mappings.
- FlipState.State.Arm: the counters are unbounded naturals where the source has 64 bits.
- Timing.Decode: capturing the registers is left out; the register values are given.
- PWM register validation (`pwm.hpp:4-6`) and the backlight driver around the conversions.
- `gate.cpp`, `session.py`, `runtime_video.py`, `publisher.cpp`, `reset_registry.hpp`, `recorder.py`, `worker.m`: guards, publication and plumbing.
