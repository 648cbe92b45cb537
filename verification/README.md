# gem5-SALAM utilities: a verified model

This project models the self-contained algorithms in the scripts and support code of gem5-SALAM and
proves what whole runs of them do. Each component is imperative where the original is: classes whose
fields the methods update, loops with invariants. Every such method is proved against functions on
values, and the main theorems are about those functions.

| file | component |
|---|---|
| `Migration.dfy`, `MigrationLayers.dfy`, `CptUpgrader.dfy` | the checkpoint migration scheduler |
| `PortBinding.dfy`, `PortOrder.dfy` | the order in which port connections are bound when a configuration is read back |
| `ReorderBuffer.dfy`, `PrintOrder.dfy`, `TraceRegion.dfy`, `Timeline.dfy`, `TimelineFields.dfy` | the O3 pipeline viewer: its print queue, its region of interest and its timelines |
| `VarintFraming.dfy`, `DepTrace.dfy` | trace files: varint framing, and dependency records as text |
| `SectionNames.dfy`, `CheckpointAggregator.dfy` | merging several checkpoints into one |
| `DmaQueue.dfy` | the DMA job ring together with the device that it feeds |
| `SimOracle.dfy`, `ScriptedCheckpoints.dfy`, `CpuSwitching.dfy`, `SimulationControl.dfy` | scripted checkpoints and repeated CPU switching, for every behaviour of the simulator |
| `MemTest.dfy`, `CopyrightYears.dfy`, `LatencySweep.dfy`, `GpuWiring.dfy` | step-by-step code against closed forms |
| `Sequences.dfy`, `Text.dfy`, `Bits.dfy`, `Arithmetic.dfy` | shared facts about sequences, strings, bits and quotients |

`dafny verify dfyconfig.toml` checks everything.

## Where the code does not do what is said about it

The model follows the code. Each of these is a theorem that says exactly when the code does meet
the promise, and most come with an input on which it does not.

- A header comment (util/cpt_upgrader.py:60-65) says that a tag which depends on a downgraded tag
  waits for the downgrade. It never does (`DowngradeNeverAwaited`), and once the tag is gone the
  migration aborts (`AbsentDowngradeAborts`). Which catalogues can be migrated at all, with or
  without downgraders, is `FinishesIffLayered`.
- A comment (configs/example/read_config.py:321-323) says that sorting makes one direction of every
  connection bindable. `CrossedRefused` is a configuration with an in-order binding that is refused.
  `AcceptedIff` says what acceptance means: some selection that keeps the sorted order works.
- A comment (util/o3-pipeview.py:51-52) says that instructions which are too far out of order appear
  out of order. Whether they do depends on where the drains fall: a trace that never fills the queue
  always comes out sorted (`ShortTraceSorted`, `FarButSortedExample`). `SortedIffAlmostSorted` is the
  exact condition for what leaves the queue, `PrintedSortedIff` the one for what is shown of it, and
  the documented one is sufficient (`PrintedIsSorted`).
- A stream of messages reads back exactly if no message is empty (`StreamRoundTrip`).
- A dependency record reads back exactly if it is well-formed (`LineRoundTrip`), and a set of years
  exactly if years that follow each other have four digits (`DatesRoundTrip`).
- The recorded size of merged memory is its length exactly if no memory file is too short
  (`RangeRecorded`).
- Jobs given to the DMA ring all reach the device, in order, exactly if nothing is launched or reset
  while the start bit is still set (`DeliversIffNoOverrun`); two calls in a row lose the first job
  (`BackToBackLosesJob`).
- A comment (configs/common/Simulation.py:701-704) says that checkpoint instructions of the benchmark
  are skipped. An interrupted period still takes its checkpoint, but ends the loop, because the
  loop condition looks at the cause of the first call. `AllDroppedIffUndisturbed` says for which
  responses of the simulator no requested checkpoint is lost; `InterruptedPlanExample` loses one.
- Repeated switching stays within the maximum tick, whatever the simulator does, if and only if one
  switching period is left at the start (`EveryRunStaysWithinIff`). The caller compares the period
  with the maximum tick and not with what is left of it (configs/common/Simulation.py:722), and so
  lets through a run that overshoots and fails (`OvershootExample`).
- The data TLBs for pairs of compute units are wired correctly exactly for an even number of units,
  and for three (`TwoCuWired`).

## Model

| member | source | states |
|---|---|---|
| Migration.MigrationResult | util/cpt_upgrader.py:240-258 | a run that does not abort leaves (tags + tag_set) - untag_set |
| Migration.SecondRunDoesNothing | util/cpt_upgrader.py:240-256 | migrating the result again has no pending tag and no round |
| Migration.AbortsIffMissingCycle | util/cpt_upgrader.py:240-252 | with upgraders only and dependencies audited, a run aborts if and only if some dependency cycle consists of tags missing from the checkpoint |
| Migration.RingInClosedSet | util/cpt_upgrader.py:242-246 | in a finite set where every tag depends on a tag of the set, dependencies close a ring |
| Migration.RingBlocksRun | util/cpt_upgrader.py:242-246 | the tags of a missing ring are all stuck at the end of the run |
| Migration.RoundAt | util/cpt_upgrader.py:241-252 | round k applies exactly the waiting tags that the rounds before it made ready |
| Migration.AppliedExactlyOnce | util/cpt_upgrader.py:248-252 | whatever the set iteration order, each pending tag that is not stuck is applied once, and no other tag |
| Migration.DependenciesFirst | util/cpt_upgrader.py:140-144 | when a migration runs, each of its dependencies was in the checkpoint or has run |
| Migration.DependencyOrder | util/cpt_upgrader.py:140-144 | in upgrade-only runs a tag never runs before a tag it depends on |
| Migration.DowngradeNeverAwaited | util/cpt_upgrader.py:60-65 | a tag that depends on a downgraded tag runs only while that tag is still present, never in a round after its downgrade |
| Migration.AbsentDowngradeAborts | util/cpt_upgrader.py:140-144 | a pending tag whose dependency was downgraded away is stuck |
| Migration.DowngradeDependencyExample | util/cpt_upgrader.py:60-65 | for any two tags, the dependent may run before the downgrade, and without the downgraded tag the run aborts |
| MigrationLayers.FinishesIffLayered | util/cpt_upgrader.py:240-252 | for every audited catalogue, with downgraders too, a run finishes if and only if the pending tags can be layered: directly above the upgrades they wait for, not above the downgrade of a dependency |
| MigrationLayers.RoundIsLayer | util/cpt_upgrader.py:242-252 | after the layers below k, the tags that are ready are exactly layer k |
| CptUpgrader.SecondFileRun | util/cpt_upgrader.py:211-262 | a file that was migrated and written back is left alone by every later run, and holds the tags that the migration promises |
| CptUpgrader.LegacyFileRuns | util/cpt_upgrader.py:211-252 | on a checkpoint of legacy version n exactly the upgraders run whose tag no version from 2 to n has, and the downgraders whose tag one of them has |
| CptUpgrader.TaggedFileRuns | util/cpt_upgrader.py:224-256 | a checkpoint with version tags starts with the words of that option; it is left alone exactly if nothing runs |
| CptUpgrader.FileOutcomes | util/cpt_upgrader.py:211-258 | exactly when a file gives a KeyError or has no version; a legacy checkpoint is never left alone |
| CptUpgrader.LegacyFileAbortsIff | util/cpt_upgrader.py:211-246 | with upgraders only, a legacy checkpoint aborts if and only if some dependency cycle avoids the tags of its versions |
| CptUpgrader.LinkedChained | util/cpt_upgrader.py:167-180 | a chained legacy upgrader depends on the version below it and on the tags that forward-depend on it, not on what it declares |
| CptUpgrader.LinkedDeclared | util/cpt_upgrader.py:174-180 | every other upgrader depends on what it declares and on the tags that forward-depend on it |
| CptUpgrader.LinkableIff | util/cpt_upgrader.py:167-185 | linking succeeds exactly if version 3 has a version 2 below it and all dependencies are known tags |
| CptUpgrader.LegacyAscending | util/cpt_upgrader.py:167-171 | a log that respects dependencies has chained legacy upgrades in ascending version order |
| CptUpgrader.LegacyRunsAscending | util/cpt_upgrader.py:167-171 | every schedule of an upgrade-only run applies chained legacy upgrades that all have to run in ascending version order |
| CptUpgrader.LegacyAllRun | util/cpt_upgrader.py:214-220 | migrating a checkpoint of legacy version n runs every legacy upgrade above n |
| CptUpgrader.LegacyMigration | util/cpt_upgrader.py:167-256 | migrating a checkpoint of legacy version n runs the chained versions above n, once each and in ascending order |
| CptUpgrader.LastTagWins | util/cpt_upgrader.py:138-138 | of scripts that share a tag, the last one is used |
| CptUpgrader.CurrentIff | util/cpt_upgrader.py:135-138 | a legacy version refers to the upgrader that its tag leads to exactly if that one declares the version, that is, if no later script takes the tag over |
| CptUpgrader.UniqueTagsValid | util/cpt_upgrader.py:135-138 | scripts that share no tags give every legacy version its own upgrader |
| CptUpgrader.ChainLegacy | util/cpt_upgrader.py:167-171 | replaces the dependencies of the unbroken run of legacy versions, and fails exactly if version 3 has no version 2 below it |
| CptUpgrader.AppendForward | util/cpt_upgrader.py:175-180 | adds a tag to exactly the tags it forward-depends on, and fails exactly if one is unknown |
| CptUpgrader.LinkOne | util/cpt_upgrader.py:174-185 | succeeds exactly if all forward and normal dependencies of the tag are known |
| CptUpgrader.LinkEach | util/cpt_upgrader.py:174-185 | in any dictionary order, succeeds exactly if all dependencies are known |
| CptUpgrader.RunRound | util/cpt_upgrader.py:146-154 | in any set order, applies the round's effect on the tags, runs each migration once, and never removes an absent tag |
| CptUpgrader.RunRounds | util/cpt_upgrader.py:240-252 | ends in the outcome of the run, with a schedule of its rounds and the options changed in that order |
| CptUpgrader.Registry.Register | util/cpt_upgrader.py:94-138 | the whole new class-level state, also when a tag is used again |
| CptUpgrader.Registry.LoadAll | util/cpt_upgrader.py:160-185 | for any scripts, succeeds exactly if they are linkable, and then holds the linked, audited catalogue |
| CptUpgrader.Registry.ProcessFile | util/cpt_upgrader.py:187-262 | every outcome of processing a file, with the order and effect of the migrations and the error for a missing Globals section |
| PortBinding.AcceptedIff | configs/example/read_config.py:331-346 | a connection list is accepted if and only if some selection that keeps the sorted order binds every end with each port filled from index 0 up |
| PortBinding.GreedyDominates | configs/example/read_config.py:331-341 | no order-keeping selection binds an end that the greedy pass misses |
| PortBinding.OneDirectionEach | configs/example/read_config.py:321-346 | acceptance binds exactly one direction of each connection, exactly once |
| PortBinding.AcceptedRebuilds | configs/example/read_config.py:348-354 | replaying the accepted binds as appends makes the k-th peer of every port the peer listed at index k |
| PortBinding.VectorHolds | configs/example/read_config.py:348-354 | in-order binds connect exactly the elements that they name |
| PortBinding.EndsCounted | configs/example/read_config.py:313-341 | in-order binds use no end twice |
| PortBinding.HalfMeansAll | configs/example/read_config.py:343-346 | half of the entries are bound exactly when every end is |
| PortBinding.CrossedRefused | configs/example/read_config.py:321-346 | a configuration that has an in-order binding and is refused |
| PortBinding.GatherLists | configs/example/read_config.py:288-298 | the gathered list has exactly one entry for each end, towards its listed peer |
| PortBinding.SortSorts | configs/example/read_config.py:158-160 | sorting connections gives an ordered permutation |
| PortOrder.SortVisits | configs/example/read_config.py:158-160 | connections are visited by object name, then port name, then index of their first end, and then of their second end, names in the order of strings |
| PortOrder.ObjectsFirst | configs/example/read_config.py:158-160 | a configuration that is accepted because object names decide before port names |
| PortOrder.VectorsMutual | configs/example/read_config.py:348-354 | whatever is bound, the peer of an element is another element, whose peer it is |
| PortBinding.ConfigManager.ChooseBinds | configs/example/read_config.py:305-341 | the counters choose exactly the greedy binds |
| PortBinding.ConfigManager.BindPorts | configs/example/read_config.py:300-354 | fails exactly if not accepted, and otherwise leaves the replayed vectors |
| PortBinding.ConfigManager.ConnectAll | configs/example/read_config.py:374-381 | from configuration to port vectors: success rebuilds every listed vector |
| ReorderBuffer.SortedIffAlmostSorted | util/o3-pipeview.py:159-171 | the whole output leaves the queue sorted if and only if, at every drain, at most min_threshold seen instructions are larger than any later one |
| ReorderBuffer.PrintedIsSorted | util/o3-pipeview.py:47-57 | with at most min_threshold larger instructions before each one, the printout to end of file is sorted |
| ReorderBuffer.ShortTraceSorted | util/o3-pipeview.py:47-57 | a trace that never fills the queue comes out sorted |
| ReorderBuffer.FarButSortedExample | util/o3-pipeview.py:51-52 | an instruction more than min_threshold places out of order that does not appear out of order |
| PrintOrder.KeepsLargest | util/o3-pipeview.py:159-171 | once it was drained, the queue always holds the min_threshold largest instructions of the trace so far |
| PrintOrder.LeftAtDrain | util/o3-pipeview.py:167-171 | after a drain, exactly the other instructions have left |
| PrintOrder.PrintedSortedIff | util/o3-pipeview.py:159-188 | for any filters, the printout is sorted if and only if at every drain no shown instruction to come is below a shown one that is not among the min_threshold largest |
| ReorderBuffer.PrintedIsComplete | util/o3-pipeview.py:167-188 | the printout is the multiset of queued instructions that pass the filters, across all drains |
| ReorderBuffer.PrintedIff | util/o3-pipeview.py:172-188 | which instructions are printed, in terms of the options and of sequence number, fetch and retire tick |
| ReorderBuffer.SortIsStable | util/o3-pipeview.py:169-169 | instructions with the same sequence number keep their order |
| ReorderBuffer.DefaultQueueLength | util/o3-pipeview.py:53-57 | with thresholds 2000 and 1000, the queue drains at instruction 2001 and then every 1001 |
| ReorderBuffer.PoppedIsPermutation | util/o3-pipeview.py:159-171 | nothing is lost, duplicated or made up in the queue |
| ReorderBuffer.RunLength | util/o3-pipeview.py:159-164 | the queue length after n instructions, and so the drains, in closed form |
| ReorderBuffer.Viewer.PrintInsts | util/o3-pipeview.py:167-188 | drains the sorted queue to the threshold and prints what passes the filters |
| ReorderBuffer.Viewer.QueueInst | util/o3-pipeview.py:159-164 | queues one instruction, with a drain above the upper threshold |
| ReorderBuffer.SkipToRegion | util/o3-pipeview.py:84-108 | skips to the first fetch at or after the start of the region of interest |
| ReorderBuffer.Viewer.ProcessTrace | util/o3-pipeview.py:71-150 | fails exactly if it has to stop early, and otherwise prints the whole region of interest |
| TraceRegion.BlockStandsAlone | util/o3-pipeview.py:126-144 | the record of an instruction does not depend on earlier instructions, although it is never cleared |
| TraceRegion.BlockFields | util/o3-pipeview.py:128-144 | which line each field of an instruction comes from: fetch, sequence number, address and text from the fetch line, retire and store tick from the retire line, and a mark for an instruction that did not retire |
| TraceRegion.LastStageLine | util/o3-pipeview.py:130-130 | every other stage has the tick of its last line |
| TraceRegion.RegionStarts | util/o3-pipeview.py:84-108 | the region starts with the first fetch at or after the first line that reaches the start tick or, if none is set, the first fetch that reaches the start number |
| TraceRegion.NoRegion | util/o3-pipeview.py:84-108 | there is no other region |
| TraceRegion.StopsPastRange | util/o3-pipeview.py:132-133 | a fetch stops the viewer past the drift of ticks, or 2000 instructions past the range |
| TraceRegion.RegionOfBlocks | util/o3-pipeview.py:84-108 | skipping leaves out whole instructions, none of which the filters would show |
| TraceRegion.TracePrintsShown | util/o3-pipeview.py:71-188 | from lines to printout: the instructions of the whole trace that pass the filters are printed, once each |
| Timeline.OnExactlyOneLine | util/o3-pipeview.py:227-262 | every nonzero tick not before fetch is an event on exactly one line, in compact and in multi-line form |
| Timeline.LineFits | util/o3-pipeview.py:264-283 | a line is `width` cells long if and only if no two drawn marks share a cell, and never shorter |
| Timeline.LineShowsStage | util/o3-pipeview.py:268-281 | without clashes a drawn stage stands at column (tick mod time_width) / cycle_time |
| TimelineFields.FieldsMarked | util/o3-pipeview.py:196-262 | on a line without clashes, fetch, decode, rename, dispatch, issue, complete, retire and store stand as f, d, n, p, i, c, r and s in the cell of their tick, on the line of their tick |
| TimelineFields.OtherCells | util/o3-pipeview.py:246-248 | all other cells hold '=' if the retire tick is zero and '.' otherwise |
| TimelineFields.ColumnIs | util/o3-pipeview.py:272-281 | a tick stands in cell (tick mod (width * cycle)) / cycle |
| TimelineFields.LineFitsIff | util/o3-pipeview.py:264-283 | a line has `width` cells exactly if no two of its drawn ticks fall into one cell, where a dispatch that equals the issue is not drawn |
| TimelineFields.LineCountIs | util/o3-pipeview.py:227-244 | one line if the latest tick is within a line's ticks of the fetch, and otherwise up to the line of the latest tick |
| TimelineFields.MarksInOrder | util/o3-pipeview.py:259-263 | marks stand in the order of their ticks, and equal ticks in the order of the stage names |
| TimelineFields.AllZeroIff | util/o3-pipeview.py:266-267 | the only input that fails: all ticks are zero |
| Timeline.LineShowsDots | util/o3-pipeview.py:247-248 | without clashes all other cells hold the dot of the instruction |
| Timeline.MarksHold | util/o3-pipeview.py:255-271 | the marks of a line are exactly its events without a dispatch that equals the issue, once each and ordered |
| Timeline.PrintInst | util/o3-pipeview.py:191-294 | the text of every line; fails exactly if all stage ticks are zero |
| VarintFraming.VarintRoundTrip | util/protolib.py:101-158 | the decoder inverts the encoder below 2^32 and leaves all later bytes unread |
| VarintFraming.VarintBytes | util/protolib.py:146-158 | byte k holds bits 7k to 7k + 6, with the high bit set on all bytes but the last, and no needless bytes |
| VarintFraming.UnvarintIs | util/protolib.py:101-126 | the value of any varint of up to ten bytes, with the mask and the sign |
| VarintFraming.UnvarintFails | util/protolib.py:113-129 | end of file and too many bytes |
| VarintFraming.UnframeShort | util/protolib.py:140-141 | a message that was cut off reads as what is left of it |
| VarintFraming.UnframesFrames | util/protolib.py:131-166 | decoding a concatenation of messages returns them up to the first empty one |
| VarintFraming.StreamRoundTrip | util/protolib.py:131-166 | a stream reads back as written if and only if no message is empty |
| VarintFraming.EncodeVarint32 | util/protolib.py:146-158 | the loop writes seven bits a byte, lowest first |
| VarintFraming.OutFile.EncodeMessage | util/protolib.py:160-166 | appends the framed message |
| VarintFraming.InFile.DecodeVarint32 | util/protolib.py:101-129 | value, end of file or too many bytes, with exactly the varint consumed |
| VarintFraming.InFile.DecodeMessage | util/protolib.py:131-144 | one message, or none |
| VarintFraming.InFile.DecodeAll | util/decode_inst_dep_trace.py:156-158 | all messages of the file |
| DepTrace.LineRoundTrip | util/encode_inst_dep_trace.py:150-195 | parsing a printed line gives the record back with defaults filled in and both lists in order, if and only if the record is well-formed |
| DepTrace.AccessLineIs | util/decode_inst_dep_trace.py:160-206 | the text of a load or store, field by field |
| DepTrace.CompLineIs | util/decode_inst_dep_trace.py:160-206 | the text of a computation |
| DepTrace.DepTextIs | util/decode_inst_dep_trace.py:195-203 | a dependency list is written number by number, each behind a comma |
| DepTrace.DepsAcceptedIff | util/encode_inst_dep_trace.py:182-195 | a dependency list is accepted exactly if every part is empty or a 64-bit number |
| DepTrace.DepsOfNext | util/encode_inst_dep_trace.py:182-195 | it holds the numbers of its parts in order, without the empty ones |
| DepTrace.SpacesIgnored | util/encode_inst_dep_trace.py:151-151 | white space around a line is ignored |
| DepTrace.ParsedIsStable | util/encode_inst_dep_trace.py:150-195 | whatever line is accepted, its record is well-formed and prints and parses to itself |
| DepTrace.TraceRoundTrip | util/decode_inst_dep_trace.py:156-206 | a printed trace parses back record by record |
| DepTrace.PrintRecord | util/decode_inst_dep_trace.py:160-206 | the line written for a record |
| DepTrace.ReadRecord | util/encode_inst_dep_trace.py:151-195 | the record of a line, or failure |
| DepTrace.DecodeTrace | util/decode_inst_dep_trace.py:156-206 | the text of all records |
| DepTrace.EncodeTrace | util/encode_inst_dep_trace.py:150-198 | the records of all lines, or failure |
| SectionNames.RenamingIsInjective | util/checkpoint_aggregator.py:59-70 | for any number of checkpoints the new name determines the checkpoint and the old name |
| SectionNames.UnrenameRename | util/checkpoint_aggregator.py:69-69 | the old name can be read back from the new one |
| SectionNames.HasCpuIff | util/checkpoint_aggregator.py:68-68 | a section counts as a cpu section exactly if "cpu" stands anywhere in its name |
| SectionNames.RenameFirstCpu | util/checkpoint_aggregator.py:69-69 | the number is put behind every "cpu" |
| SectionNames.NumberReadsBack | util/checkpoint_aggregator.py:59-69 | checkpoint numbers have one width and read back as numbers |
| CheckpointAggregator.Relocated | util/checkpoint_aggregator.py:97-112 | byte a of checkpoint i is at a + (base_i << 12) in the merged memory |
| CheckpointAggregator.NoOverlap | util/checkpoint_aggregator.py:97-112 | relocated addresses of different checkpoints differ |
| CheckpointAggregator.AddressFollowsByte | util/checkpoint_aggregator.py:73-77 | a relocated paddr leads to the byte that it led to before |
| CheckpointAggregator.CpuSectionsMerged | util/checkpoint_aggregator.py:67-81 | every section with "cpu" in its name is in the merged file, under its new name |
| CheckpointAggregator.OtherSectionsMerged | util/checkpoint_aggregator.py:82-92 | of the other sections, those of the last checkpoint are kept as they are, except system and Globals |
| CheckpointAggregator.CpuOptions | util/checkpoint_aggregator.py:72-81 | paddr moves by 4096 bytes a page, the process number of a file descriptor section is the checkpoint's, all other options stay |
| CheckpointAggregator.IsFdMapIff | util/checkpoint_aggregator.py:80-80 | which sections hold file descriptors |
| CheckpointAggregator.WrittenAnew | util/checkpoint_aggregator.py:116-139 | pagePtr is the number of all pages, nextPID the number of checkpoints, and curTick the latest tick |
| CheckpointAggregator.MemoryBytes | util/checkpoint_aggregator.py:97-129 | pages have 4096 bytes, and the memory is filled up with the character '0' |
| CheckpointAggregator.RangeRecorded | util/checkpoint_aggregator.py:121-134 | the recorded range_size is at least memory_size, and equals the length of the padded memory if and only if no memory file is too short |
| CheckpointAggregator.MergedNamesDistinct | util/checkpoint_aggregator.py:67-92 | sections of all checkpoints get different names |
| CheckpointAggregator.NoCollisions | util/checkpoint_aggregator.py:67-139 | no two sections of the merged checkpoint share a name |
| CheckpointAggregator.MaxTickIsLatest | util/checkpoint_aggregator.py:84-87 | the merged tick is the latest one |
| CheckpointAggregator.Aggregate | util/checkpoint_aggregator.py:44-145 | the merged sections and memory; fails exactly if the last checkpoint has no memory store section |
| DmaQueue.EveryRunInOrder | benchmarks/common/queue_dma.c:4-50 | in every interleaving, launched jobs followed by waiting ones are the accepted jobs in order, and at most QUEUE_SIZE wait |
| DmaQueue.DeliversIffNoOverrun | src/hwacc/noncoherent_dma.cc:70-111 | the device gets every accepted job, once and in order, if and only if nothing is launched or reset while the start bit is set |
| DmaQueue.OverrunsLose | benchmarks/common/queue_dma.c:9-12 | each overrun loses exactly one launched job |
| DmaQueue.DmacpyIs | benchmarks/common/queue_dma.c:30-50 | a job is refused when eight wait; otherwise the first of the waiting jobs goes to the registers unless the device is busy |
| DmaQueue.LaunchIs | benchmarks/common/queue_dma.c:4-26 | the next waiting job goes to the registers, and without one all flags are cleared |
| DmaQueue.TickIs | src/hwacc/noncoherent_dma.cc:70-111 | when a tick starts the job in the registers, and what finishing does to the flags |
| DmaQueue.BusyIffRunning | src/hwacc/noncoherent_dma.cc:70-111 | the busy bit is set exactly while a transfer runs, as long as nobody clears the flags |
| DmaQueue.LaunchedAfterFinish | benchmarks/common/queue_dma.c:43-44 | in every run, after a finished transfer the next call launches a job at once |
| DmaQueue.BackToBackLosesJob | benchmarks/common/queue_dma.c:43-44 | two calls before the device ticks lose the first job |
| DmaQueue.MarkedFront | benchmarks/common/queue_dma.c:6-19 | the valid bits stay the circular segment when the front is taken |
| DmaQueue.MarkedBack | benchmarks/common/queue_dma.c:31-42 | the write slot is free exactly below QUEUE_SIZE jobs, and the valid bits stay a segment |
| DmaQueue.Driver.LaunchCpy | benchmarks/common/queue_dma.c:4-26 | the ring step of the queue, and the return code |
| DmaQueue.Driver.Dmacpy | benchmarks/common/queue_dma.c:30-50 | the ring step of the queue; refuses exactly when QUEUE_SIZE jobs wait |
| DmaQueue.Driver.DeviceTick | src/hwacc/noncoherent_dma.cc:70-111 | start and completion of a transfer |
| DmaQueue.Driver.Interleave | benchmarks/common/queue_dma.h:22-26 | any sequence of calls and ticks runs the bounded queue |
| ScriptedCheckpoints.DropsOnTime | configs/common/Simulation.py:232-266 | the k-th checkpoint is dropped at when + k * period, without gaps, at most max(1, max_checkpoints) of them, none after the first past maxtick |
| ScriptedCheckpoints.RequestedIff | configs/common/Simulation.py:250-253 | which checkpoints a plan asks for, in closed form |
| ScriptedCheckpoints.ReachByCauses | configs/common/Simulation.py:237-241 | whether a tick is reached through interruptions depends on the causes of the responses only |
| ScriptedCheckpoints.DropsCounted | configs/common/Simulation.py:237-264 | how many checkpoints are dropped, as a function of the causes of the responses |
| ScriptedCheckpoints.AllDroppedIffUndisturbed | configs/common/Simulation.py:237-264 | with n checkpoints requested after the first, all are dropped if and only if the responses begin with checkpoint instructions and a limit and, for n > 0, go on with n - 1 limits, checkpoint instructions and a limit |
| ScriptedCheckpoints.UndisturbedIff | configs/common/Simulation.py:237-264 | these responses, one by one |
| ScriptedCheckpoints.ScriptEnds | configs/common/Simulation.py:250-266 | exactly when a simulate call gets a negative number of ticks, and the tick at which the script ends |
| ScriptedCheckpoints.InterruptedPlanExample | configs/common/Simulation.py:260-261 | one checkpoint instruction loses a requested checkpoint |
| SimulationControl.Simulator.RunTo | configs/common/Simulation.py:237-241 | simulates to a tick through all interruptions |
| SimulationControl.Simulator.ScriptCheckpoints | configs/common/Simulation.py:232-266 | for every oracle: the checkpoints dropped, each on time, the last cause, the final tick, and exactly when it fails |
| CpuSwitching.TestPairs | src/python/m5/simulate.py:265-287 | the tests pair by pair accept exactly if all old processors are active and all new ones are neither active nor old |
| SimulationControl.Simulator.SwitchCpus | src/python/m5/simulate.py:244-317 | succeeds exactly if the list passes the tests and no processor would be switched out or in twice; which processors are active then |
| CpuSwitching.SwitchesBack | configs/common/Simulation.py:421-426 | after a switch the turned list fits again |
| CpuSwitching.HistoryIs | configs/common/Simulation.py:414-426 | switch i comes after i + 1 periods and takes out the old processors of the list if i is even and the new ones otherwise |
| CpuSwitching.SwitchCountIs | configs/common/Simulation.py:414-430 | the loop switches after every undisturbed period up to its quota |
| CpuSwitching.QuotaReached | configs/common/Simulation.py:428-428 | after which switch the loop stops |
| CpuSwitching.StaysWithinIff | configs/common/Simulation.py:412-430 | a run stays within maxtick exactly if a period is left at the start or the first call stops by itself in time; it fails exactly if it overshoots at its first switch |
| CpuSwitching.EveryRunStaysWithinIff | configs/common/Simulation.py:412-430 | every oracle stays within maxtick if and only if a period is left at the start |
| CpuSwitching.EndsAtMaxTickIff | configs/common/Simulation.py:428-430 | with a period left at the start, the run ends at a limit exactly if every simulate call reaches its limit, and then it ends exactly at maxtick |
| CpuSwitching.OvershootExample | configs/common/Simulation.py:722-724 | a run that the caller lets through, and that overshoots |
| SimulationControl.Simulator.RepeatSwitch | configs/common/Simulation.py:412-430 | for every oracle and list: how many switches there are, the tick of each, the processors active before it and those it takes out, and how the run ends; fails at the first switch exactly if the list does not fit |
| MemTest.TreeMatchesClosedForm | configs/example/memtest.py:119-130 | the testers of the tree are the closed form |
| MemTest.WidthIsProduct | configs/example/memtest.py:234-248 | each level has the product of the preceding cache counts as subsystems |
| MemTest.NamesInjective | configs/example/memtest.py:248-248 | different subsystems get different attribute names |
| MemTest.NameIs | configs/example/memtest.py:248-248 | the name holds the level first and the index last |
| MemTest.NumTesters | configs/example/memtest.py:119-130 | the loops compute the closed form |
| MemTest.Builder.MakeCacheLevel | configs/example/memtest.py:239-300 | counters, testers and names after one subtree; the lists are never indexed outside |
| MemTest.Builder.MakeTree | configs/example/memtest.py:303-303 | the whole tree has the predicted testers and subsystems |
| CopyrightYears.DatesRoundTrip | util/find_copyrights.py:98-199 | reading a printed set never invents a year, and gives the set if and only if years that follow each other have four digits |
| CopyrightYears.RunsAreMaximal | util/find_copyrights.py:186-197 | the runs cover the years, and neighbours are at least two years apart |
| CopyrightYears.RangeRoundTrip | util/find_copyrights.py:98-114 | what is read from a printed range lies inside it and reaches its end exactly if it is readable |
| CopyrightYears.ConsecutiveText | util/find_copyrights.py:180-184 | consecutive years print as the first and the last with a dash, a single year as itself |
| CopyrightYears.GapText | util/find_copyrights.py:186-199 | years with a gap between them print one after the other with a comma |
| CopyrightYears.ReadRange | util/find_copyrights.py:98-109 | a range of four-digit years is read with any white space around it and around its dash |
| CopyrightYears.ReadYear | util/find_copyrights.py:110-113 | a single year is read with any white space around it |
| CopyrightYears.ListIsUnion | util/find_copyrights.py:100-103 | commas separate the parts of a list |
| CopyrightYears.DateStr | util/find_copyrights.py:175-199 | the printed text of the sorted years; fails on the empty set |
| CopyrightYears.ProcessDates | util/find_copyrights.py:99-116 | the years of a text |
| LatencySweep.BuildRanges | configs/dram/lat_mem_rd.py:154-162 | ranges[4k+j] = (4+j) * 2^(10+k), up to the first size that reaches the maximum |
| LatencySweep.IsPow2Trick | configs/dram/lat_mem_rd.py:146-147 | the bit trick is true exactly at powers of two |
| GpuWiring.SqcWiring | configs/common/GPUTLBConfig.py:179-186 | the instruction TLB wiring is injective and below num_sqc |
| GpuWiring.AttachPorts | configs/example/apu_se.py:478-497 | compute unit i gets memory port base + i and SQC port base + n_cu + i div cu_per_sqc; exactly num_sqc SQC ports are used |
| GpuWiring.L1Injective | configs/common/GPUTLBConfig.py:159-171 | no two translation ports share a coalescer port |
| GpuWiring.L1SlaveIs | configs/common/GPUTLBConfig.py:83-171 | which coalescer and port each unit gets in each configuration |
| GpuWiring.NumSqcIs | configs/example/apu_se.py:197-199 | as many SQCs as the groups of units need, and no more |
| GpuWiring.SimpleConfigsWired | configs/common/GPUTLBConfig.py:83-90 | perLane, perCU and mono wire every port to a coalescer that exists |
| GpuWiring.TwoCuWired | configs/common/GPUTLBConfig.py:89-90 | 2CU does so if and only if the number of units is even or three |

## Left out

- CptUpgrader.Registry.LoadAll: the type errors of script variables, and scripts without an upgrader or a downgrader.
- CptUpgrader.Registry.ProcessFile: file handling, backups and warnings; upgrader functions are arbitrary functions on the options. No tag may have both an upgrader and a downgrader script, since a tag can only be used once (util/cpt_upgrader.py:64-65).
- PortBinding.ConfigManager.ConnectAll: parsing of port names; an end that is connected to itself is excluded, as it is not a connection that a configuration can list from both ends.
- ReorderBuffer.Viewer.ProcessTrace: splitting lines into fields, and the KeyError for a stage that a trace never mentions (its tick is 0 here).
- Timeline.PrintInst: colours, padding and the columns after the timeline.
- VarintFraming.InFile.DecodeMessage: parsing of the payload by the protocol buffer library, which could reject a truncated one.
- DepTrace.ReadRecord: `long()` also accepts signs and surrounding white space, which the model rejects; all ways of failing are one result.
- CheckpointAggregator.Aggregate: compression and the configuration file syntax; page counts and ticks are fields of a checkpoint instead of options that could be absent.
- DmaQueue.Driver.Dmacpy: a call is one step, so device ticks and interrupts between its register writes are not covered; neither are `dma_signal` and the flag bits above 0x04.
- SimulationControl.Simulator.ScriptCheckpoints: the branch that counts instructions, and negative periods; the oracle is a finite list of responses, after which the simulated program has ended.
- SimulationControl.Simulator.RepeatSwitch: the caller never passes a period of 0 (configs/common/Simulation.py:722), and a negative one, with which the first call fails, is not modelled.
- SimulationControl.Simulator.SwitchCpus: types, support for handover, memory modes, draining and the handover of state.
- CopyrightYears.ProcessDates: negative years, which `int()` accepts.
- Simulator components in src/ (caches, CPUs, event queues), configuration scripts that only construct objects, commit hooks, style checkers and image tools.
