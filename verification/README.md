# Verified models of vLLM's outer layer

A Dafny model of the parts of vLLM that surround its engine and whose correctness does not follow from
one function body: compiler patches that split a graph into closed functions, a prefix-cached state-space
scan, the sleep-mode memory allocator, a build-time sweep, two small concurrent protocols, bad-word
filtering, scalar type layouts, and the merging and flattening of streamed results.

`dafny verify dfyconfig.toml` checks the whole project. Every lemma turns automatic induction off, and every proof by
induction is written out.

| files | what they model |
|---|---|
| `GraphPartition`, `PartitionExecution`, `PartitionSoundness`, `PartitionSignatures` | the backward liveness pass that gives every graph partition a signature, an execution semantics for whole graphs and for partitions as closed functions, the theorem that relates the two, and what every field of a signature says of the nodes |
| `MemoryPlan` | the memory planner over nested subgraphs |
| `Blocks`, `ScanChunks`, `SelectiveScan`, `ScanResponse`, `PrefixCachedScan`, `BatchedScan` | the selective scan kernel, the numbers it computes as a closed form, the chunk metadata it is given, the prefix cache it keeps, and whole batches and interleaved requests over one cache |
| `Quantize` | dynamic per-token integer quantization of one row, over the reals |
| `CumemDriver`, `CumemChunks`, `CumemRuns`, `CumemSound`, `CumemAllocator`, `CumemFailures` | the ROCm path of the sleep-mode allocator: the driver, chunk sizes in 64-bit arithmetic, runs of malloc, sleep, wake and free, what failures spare, the allocator's code with its rollbacks under any answers of the driver, and runs in which a failure leaves something behind |
| `NinjaSweep`, `NinjaLog`, `NinjaReport` | the event sweep over build steps, the log reader, and the report of a log |
| `Spinloop`, `ClientQueue` | two protocols as state machines over all interleavings |
| `BadWords` | the logits processor that forbids bad words |
| `ScalarTypes`, `ScalarIds`, `Powers` | the largest value of a float layout as the bits of a double, the packed id and its registry |
| `RequestOutputs` | merging of streamed request outputs |
| `FlatLogprobs` | logprobs in flat lists |
| `Options` | a value that may be missing |

## Where the code and its promises differ

For each of these a contract or a lemma says exactly when the code does what is promised, and where it does
not, a lemma or a method named below gives an input, a family of inputs or a run.

- A comment in the signature pass says that weak dependencies do not become partition inputs. The code
  does not filter them. A scheduled graph runs as closed functions if and only if no partition has a weak
  dependency that an earlier partition freed, and no partition frees a buffer without a layout that an
  earlier one made (`PartitionedRunIffScoped`, `StaleWeakDepFails`, `UnallocatedFreeFails`).
- The planner accepts some lines whose brackets are not balanced (`LeaveAndReenterAccepted`). What it
  accepts is stated exactly (`MemoryPlanReuse`).
- The 8-bit cast of the quantizer keeps every value exactly when the width is at most 8 (`CastFitsIff`). The
  zero point leaves 32 bits for a constant row of large values (`ZeroPointFitsIff`, `ZeroPointOverflows`).
- With an error code left over from an earlier call `my_malloc` does nothing (`MallocFate`, `MyMalloc`), going to sleep
  reports a failure although it worked (`Sleep`), and waking loses a handle exactly when the driver grants the first
  one (`CreateAll`, `Wake`). From the start of the program, `LosesHandle` reaches a state in which a handle is alive
  although every allocation is asleep.
- Waking an allocation that is awake fails, but overwrites its recorded handles as far as creates are granted. With a
  clear error code the driver still holds exactly what the table says if and only if the first create is refused
  (`Wake`); `OverwritesHandle` is a run in which the recorded handle is dead and the live one is in no record.
- A `my_malloc` that fails after its callback leaves its record in the Python table: of an address that is not
  reserved any more if the chunks could not be mapped, of chunks that stay mapped if only their access could not be
  set, and never otherwise (`MyMalloc`, `LeavesRecord`).
- A chunk size whose rounding overflows becomes zero and is divided by (`RoundUpIff`, `MyMalloc`). The guard against
  overflow lets this happen: with a granularity of two megabytes exactly for the largest number of megabytes that it
  admits (`ZeroChunkIff`, `DividesByZero`).
- `spinloop` arms the monitor for every buffer that is not longer than the largest monitor line, but the monitor
  watches only the line that holds the buffer's first byte. No wakeup is lost if and only if the watched line decides
  the condition (`NoLostWakeupIff`); for all callbacks on the buffer, if and only if the buffer lies in one line
  (`SafeLayoutIff`). The writer of the shared memory ring waits on buffers that do not: with eight readers and lines of
  64 bytes all reader flags of block 7 are in the next line (`WriterSafeIff`, `EighthBlockLosesWakeups`). Such a wait
  ends with the hardware timeout.
- Merging of outputs is associative if and only if some logprobs come too late, so that the left side fails, or no delta
  without logprobs stands in between (`AddAssociative`, `AddedTwiceFailsIff`, `NotAssociative`). A completion that is
  appended is shared with the output it came from, so that a later merge changes that output too
  (`LaterAddReachesBack`). An output that is added to itself is doubled (`SelfAddDoubles`).
- A slice of flat logprobs that runs backwards over several positions has the sliced view only when its positions are
  empty (`HasSliceIff`, `BackwardSlice`).
- A bad-words processor that sees logits of another length than at its first call forbids by broadcasting, or fails
  (`Call`): after a first call on one token, a bad word of that token forbids every token (`ForbidsEverything`).
- The largest value of a float layout within the asserted limits is right if and only if the layout has more than one
  exponent bit or does not follow the IEEE convention, and it has a mantissa or not the extended-range convention
  (`MaxIsLargestIff`). With one exponent bit under the IEEE convention the value is too large (`OneBitExponent`);
  without a mantissa under the extended-range convention, as for `float8_e8m0fnu`, packing the bits fails
  (`NoMantissaFails`, `Float8E8M0Fails`).
- The scan kernel loads a chunk position past the end of the list for a request from which on no request of the batch
  has new tokens and the computed tokens of all end at block boundaries, and only then (`StrayLoadIff`). What it loads
  is not used (`ScanSequence`).
- Two scalar types share an id exactly when their fields agree up to the field widths (`SameIdIff`), so a type
  whose bias does not fit can be replaced by another in the registry (`BiasOutOfRange`).

## Model

| member | source | states |
|---|---|---|
| GraphPartition.Collect | vllm/env_override.py:238-272 | the loops over the nodes of a partition gather exactly the names it makes, mentions and frees |
| GraphPartition.PartitionStep | vllm/env_override.py:235-334 | one step of the backward pass computes the signature of a partition and the names still unmet before it, or fails on a missing node |
| GraphPartition.GetGraphPartitionSignature | vllm/env_override.py:198-336 | the backward pass gives every partition, in order, the signature determined by the partitions after it, with its own flag for skipping CUDA graphs; it fails exactly when a look-up does |
| PartitionSignatures.SignatureIs | vllm/env_override.py:238-328 | every field of a signature, on scheduled graphs and in terms of nodes: the inputs are the named storages that the partition asks for, each deallocated exactly when a node of the partition frees it; the outputs are what it hands back; the constants are the graph constants its nodes depend on; and the flag is the one given for it |
| PartitionSignatures.AsksForIff | vllm/env_override.py:238-280 | a partition asks for exactly the storages that its nodes depend on under an allocated name made elsewhere, and the named buffers made elsewhere that it frees |
| PartitionSignatures.HandsBackIff | vllm/env_override.py:243-313 | a partition hands back exactly the allocated storages that it asked for and does not free, and those of which it makes a version that is a graph output or asked for later |
| PartitionSignatures.UnmetIff | vllm/env_override.py:332-334 | an allocated buffer is unmet before a partition exactly when it is a graph output or that partition or a later one asks for it |
| PartitionSignatures.ConstantsAre | vllm/env_override.py:315-317 | the constants of a partition are exactly the graph constants that its nodes depend on |
| PartitionSignatures.NoneLayoutIff | vllm/env_override.py:215-233 | a buffer counts as not allocated exactly when it has no layout and is not a mutation of an allocated storage |
| PartitionSoundness.PartitionedRunIffScoped | vllm/env_override.py:212-336 | for every scheduled graph, all kernels and all inputs: running the partitions as closed functions succeeds if and only if there is no stale weak dependency and no unallocated free, and then every graph output is that of running all nodes in one scope |
| PartitionSoundness.ScopedRunAgrees | vllm/env_override.py:212-336 | under that condition no call misses an input, no output is out of scope, and the outputs agree |
| PartitionSoundness.RunIsScoped | vllm/env_override.py:251-280 | the condition is necessary: a run that succeeds has no stale weak dependency and no unallocated free |
| PartitionSoundness.Simulation | vllm/env_override.py:235-334 | before every partition the caller holds everything that exists by then and that the later partitions ask for, and all that it holds are the values of the one-scope run |
| PartitionSoundness.LookupsNeverFail | vllm/env_override.py:282-313 | on a scheduled graph the pass finds every node it looks up |
| PartitionSoundness.DeallocatedNotReused | vllm/env_override.py:287-334 | a buffer deallocated by one partition is neither input nor output of a later one |
| PartitionSoundness.UnmetOrigin | vllm/env_override.py:332-334 | an unmet name is a graph output or an input of a later partition |
| PartitionSoundness.MutatedIsInput | vllm/env_override.py:264-268 | a partition that mutates a storage made elsewhere has the storage's real name as an input |
| PartitionCounterexamples.StaleWeakDepFails | vllm/env_override.py:251-263 | a scheduled graph whose third partition asks for a buffer that the second freed |
| PartitionCounterexamples.UnallocatedFreeFails | vllm/env_override.py:274-280 | a scheduled graph whose second partition frees, and so asks for, a buffer that was never allocated |
| MemoryPlan.PlanLines | vllm/env_override.py:174-186 | the pass succeeds exactly on plannable lines; every planning line is planned against the state made by the earlier lines of its own innermost subgraph instance, and two lines use the same state object exactly when they share that instance |
| MemoryPlan.WrapperCodegen.MemoryPlanReuse | vllm/env_override.py:166-186 | the same on the lines that are left after the pointless ones at the end are dropped, in place |
| MemoryPlan.TrimmedBalanced | vllm/env_override.py:166-172 | dropping pointless lines at the end keeps the brackets balanced, and does not repair them |
| MemoryPlan.BalancedPlannable | vllm/env_override.py:166-186 | every balanced list of lines is planned to the end without underflow |
| MemoryPlan.InstanceIff | vllm/env_override.py:174-184 | the instance of a line is the subgraph that was entered last and is still open |
| MemoryPlan.StateChanges | vllm/env_override.py:174-184 | the state of an instance changes at its own planning lines, as planning says, and nowhere else |
| MemoryPlan.LeaveAndReenterAccepted | vllm/env_override.py:184-186 | an unbalanced list that passes the final assertion |
| ScanChunks.RequestChunks | vllm/v1/attention/backends/mamba_attn.py:253-283 | the chunks of one request start at its boundaries: the first finishes a block, the others fill one; without new tokens there is one empty chunk inside a block and none at its start |
| ScanChunks.ComputeChunkMetadata | vllm/v1/attention/backends/mamba_attn.py:248-287 | the cumulative chunk starts of all requests, the request of each chunk and the index of each request's last chunk, for batches with and without new tokens |
| ScanChunks.OwnerOf | vllm/v1/attention/backends/mamba_attn.py:267-281 | the chunks between two last chunk indices belong to the later request |
| ScanChunks.ChunksFollowIff | vllm/v1/attention/backends/mamba_attn.py:253-287 | chunks follow those of the first requests exactly when a later request has new tokens or its computed ones end inside a block |
| ScanChunks.BoundsChunked | vllm/v1/attention/backends/mamba_attn.py:237-246 | every block boundary between the first and the last token is a chunk boundary, and no chunk crosses one |
| ScanChunks.ChunkOfRequest | vllm/v1/attention/backends/mamba_attn.py:253-287 | chunk `c` of a request, found through the last chunk indices, runs between the `c`-th boundaries of that request's tokens |
| SelectiveScan.ScanTokens | vllm/_xpu_ops.py:624-676 | the inner loop advances the state by the recurrence and stores each output over its own `delta` and `z`, leaving later tokens intact |
| SelectiveScan.Resume | vllm/_xpu_ops.py:575-590 | a scan resumed from the state after some tokens is the rest of the scan |
| ScanResponse.StateIs | vllm/_xpu_ops.py:627-660 | closed form of the state: lane by lane, the state after some tokens is the initial state times the product of all decays, plus every earlier input times the product of the decays since |
| ScanResponse.FreshState | vllm/_xpu_ops.py:543-558 | a sequence without a loaded state starts from zero, so that only the inputs are left |
| ScanResponse.OutputIs | vllm/_xpu_ops.py:627-676 | the outputs of a fresh sequence are that sum against `C`, plus `D` times the input, times the gate where there is one |
| ScanResponse.StateLanes | vllm/_xpu_ops.py:624-676 | the state vector has one entry per lane, each in closed form |
| ScanResponse.ScanHolds | vllm/_xpu_ops.py:624-676 | buffers that were overwritten by a fresh scan hold these numbers |
| ScanResponse.ResponseLinear | vllm/_xpu_ops.py:627-660 | the state is linear in the inputs, for any two sequences with the same steps |
| ScanResponse.OutputLinear | vllm/_xpu_ops.py:627-676 | so are the outputs |
| PrefixCachedScan.ScanSequence | vllm/_xpu_ops.py:495-704 | one program of the kernel with the cache, also for a request without new tokens: nothing happens on the null block; otherwise outputs are those of the scan from the loaded state and every chunk's final state is stored in its slot, although outputs overwrite their inputs; without a loaded state the outputs are the numbers of the closed form |
| PrefixCachedScan.ScanUncached | vllm/_xpu_ops.py:516-715 | the same without the cache, with one final state, which is in closed form too |
| PrefixCachedScan.StoreIndexIsBlock | vllm/_xpu_ops.py:680-695 | the slot that the kernel computes for chunk `c` is that of block `k + c`, from a position that it only guesses for the first chunk |
| PrefixCachedScan.BlockIndices | vllm/v1/attention/backends/mamba_attn.py:342-365 | the block indices computed for a request are those of its first and last scheduled token, and block 0 when there is none |
| PrefixCachedScan.RequestJobAlong | vllm/_xpu_ops.py:591-609 | the metadata built for a batch describes, for each request, chunks along its own boundaries |
| PrefixCachedScan.KernelIsPrefill | vllm/_xpu_ops.py:591-704 | the kernel, run on that metadata, stores the state after every block it passes and after the last token, and leaves the cache as it is without new tokens |
| PrefixCachedScan.StrayLoadIff | vllm/_xpu_ops.py:591-602 | the load of the first chunk's end is past the chunk positions exactly when no request from this one on has a chunk, stated on the tokens of the requests |
| PrefixCachedScan.PrefillKeepsCache | vllm/_xpu_ops.py:591-715 | one prefill step loads the state after the computed tokens, and then every full block's slot holds the plain scan's state at the end of that block |
| PrefixCachedScan.RunKeepsCache | vllm/_xpu_ops.py:591-715 | so does any sequence of prefill steps of any sizes, none included, and the outputs of every step are those of one uninterrupted scan |
| PrefixCachedScan.CachedNumbers | vllm/_xpu_ops.py:591-715 | a cache that is right for a request holds in every full block's slot, lane by lane, the closed form at the end of that block |
| PrefixCachedScan.OthersKeepCache | vllm/_xpu_ops.py:678-702 | a step leaves the cache of requests with other slots right |
| PrefixCachedScan.SharedPrefix | vllm/_xpu_ops.py:509-515 | a request that shares a prefix of full blocks can resume from the slots of another |
| PrefixCachedScan.ResumedScan | vllm/_xpu_ops.py:624-676 | states and outputs of a resumed scan are those of one uninterrupted scan |
| BatchedScan.PrefillRequest | vllm/_xpu_ops.py:495-704 | the kernel on the metadata and block indices computed for a request, with new tokens or without, leaves the outputs of the plain scan over its whole sequence, the right states in the cache, both also as numbers in closed form, and everything else as it was |
| BatchedScan.PrefillBatch | vllm/v1/attention/backends/mamba_attn.py:227-287 | from the builder to the kernel, for requests with and without new tokens: after a batch every request has the outputs of the plain scan over its whole sequence, and its states are in the cache after every full block and its last token; both are the numbers of the closed form |
| BatchedScan.ServedNumbers | vllm/_xpu_ops.py:495-704 | what a request of a batch gets are the closed forms over its whole sequence, computed tokens included |
| BatchedScan.TurnsKeepCache | vllm/_xpu_ops.py:591-715 | however prefills of several requests are cut and interleaved over one cache, it is right for every request after every step |
| BatchedScan.TurnOutputs | vllm/_xpu_ops.py:624-676 | and every step has the outputs that one uninterrupted scan of its request has there |
| Quantize.QuantizationError | vllm/_xpu_ops.py:733-750 | for every row and width from 2 on, in both modes: values are in range, and undoing the quantization is off by at most half a scale |
| Quantize.ScaleTight | vllm/_xpu_ops.py:735-743 | the scale is at least the floor 0.00001, the range of the row is at most `qmax` scales, and exactly so above the floor |
| Quantize.ScaleLeast | vllm/_xpu_ops.py:735-743 | no smaller scale from the floor on covers the range of the row |
| Quantize.ScaleReached | vllm/_xpu_ops.py:735-743 | stated on the entries: all are within `qmax` scales of zero, or of each other, and above the floor one entry, or one pair, is exactly so far |
| Quantize.ZeroRowScale | vllm/_xpu_ops.py:735-743 | a row of zeros has the floor as its scale |
| Quantize.ZeroPointIs | vllm/_xpu_ops.py:741-744 | the zero point is the integer nearest to where the least entry is, the even one of two, and none in symmetric mode |
| Quantize.QuantizedNear | vllm/_xpu_ops.py:746-750 | a quantized value is the integer nearest to the scaled entry, the even one of two unless that is above the range |
| Quantize.RangeIs | vllm/_xpu_ops.py:733-734 | a width has as many values as it should, one more below zero than above in symmetric mode |
| Quantize.RoundNear | vllm/_xpu_ops.py:744-747 | rounding gives the nearest integer and, of two, the even one |
| Quantize.InRange | vllm/_xpu_ops.py:737-749 | before clamping every scaled entry is at most a half outside the range |
| Quantize.ClampActs | vllm/_xpu_ops.py:746-750 | a row on which the clamp changes a value |
| Quantize.CastFitsIff | vllm/_xpu_ops.py:746-750 | the 8-bit cast is exact for all rows if and only if the width is at most 8 |
| Quantize.ZeroPointFitsIff | vllm/_xpu_ops.py:743-744 | when the zero point fits 32 bits |
| Quantize.ZeroPointOverflows | vllm/_xpu_ops.py:743-744 | a row for which it does not |
| CumemChunks.RoundUpIff | csrc/cumem_allocator.cpp:343-343 | rounding up gives the least multiple unless the 64-bit sum overflows, and zero exactly then |
| CumemChunks.NumChunksIff | csrc/cumem_allocator.cpp:371-372 | the number of chunks is the least that covers the size, and zero exactly when the sum overflows |
| CumemChunks.ChunkSizes | csrc/cumem_allocator.cpp:371-393 | the chunk sizes are positive, all but the last equal, and add up to the size; the subtraction does not underflow |
| CumemChunks.ChunkSizeIs | csrc/cumem_allocator.cpp:25-43 | the configured megabytes in bytes if they are at least one and fit in 64 bits, and 256 megabytes otherwise |
| CumemChunks.ChunksAligned | csrc/cumem_allocator.cpp:368-393 | every chunk is a multiple of the granularity |
| CumemDriver.TilesCover | csrc/cumem_allocator.cpp:184-203 | every byte of a range tiled by chunks lies in exactly one of them |
| CumemAllocator.Allocator.ReserveRocmAddress | csrc/cumem_allocator.cpp:50-72 | stated on the driver's answers: if the first call grants a free and aligned address, that one, after one call; otherwise, with an alignment, the address of a second call if that is granted, free and aligned; otherwise failure after exactly two calls, or one without an alignment, and nothing stays reserved |
| CumemAllocator.Allocator.CreateAll | csrc/cumem_allocator.cpp:174-183 | it succeeds exactly when the error code is clear and the driver grants every create, and stores exactly the handles that were created before the first refusal, or one with an error code set; a failing create undoes the others; with an error code set the driver changes exactly when the first create is granted, by that one handle |
| CumemAllocator.Allocator.MapAll | csrc/cumem_allocator.cpp:184-197 | either all chunks are mapped one after the other, over nothing that was mapped, or the driver is as before; with room for the chunks it succeeds exactly when the driver grants every map |
| CumemAllocator.Allocator.CreateAndMap | csrc/cumem_allocator.cpp:119-217 | it succeeds exactly when every call is granted; a refused create or map returns the driver to its state before the call, a refused access leaves all chunks mapped, and with an error code set one handle is lost exactly when the first create is granted; the handles it stores are stated |
| CumemAllocator.Allocator.UnmapAndRelease | csrc/cumem_allocator.cpp:219-263 | it unmaps exactly what is mapped with the recorded sizes and releases exactly the recorded handles, and records an error if and only if some chunk was not mapped so or some handle not live |
| CumemAllocator.Allocator.MyMalloc | csrc/cumem_allocator.cpp:323-451 | from any sound driver: the driver's answers decide between five outcomes, each with its whole new state: nothing, a division by zero, a forgotten record of an address that is free again, chunks that stay mapped, and a malloc step with an aligned address and a tiling of the rounded size; all spare every allocation, and the driver still holds exactly what the table says in exactly three of them |
| CumemAllocator.MallocFateIs | csrc/cumem_allocator.cpp:323-451 | which of the five outcomes it is, stated on the driver's answers to each call: device properties, reservation, its retry, a create and a map for every chunk, and the access; and that the address is the first call's if that was granted, and the retry's otherwise |
| CumemAllocator.Allocator.ReservePlaceholder | csrc/cumem_allocator.cpp:684-706 | the address is freed and the same one reserved again exactly when the driver answers with it; otherwise the reservation is lost and an error is recorded |
| CumemAllocator.Allocator.Sleep | csrc/cumem_allocator.cpp:599-716 | it succeeds exactly for an allocation that is awake, with a clear error code and the old address reserved again, and is a sleep step then; a failure with a clear error code loses only the placeholder; with an error code set the sleep step happens and an error is reported; an allocation that is asleep stays so; every outcome spares the other allocations, and only a lost placeholder is not as it should be |
| CumemAllocator.Allocator.Wake | csrc/cumem_allocator.cpp:720-785 | it succeeds exactly for an allocation that is asleep, with a clear error code and every call granted, and is a wake step then; otherwise the first handles of the record are the new ones that were stored, as many as stated, and the driver is as before, or holds all chunks exactly when only the access was refused, or one handle exactly when an error code was set and the first create granted; every outcome spares the other allocations; exactly when this one is as it should be, and exactly when the driver still holds what the table says |
| CumemAllocator.Allocator.MyFree | csrc/cumem_allocator.cpp:454-571 | with the reserved size it is a free step, awake or asleep; with another size the chunks go but the address stays; an unknown address changes nothing; an allocation that a failure left asleep is freed exactly when its address is reserved with that size and nothing is mapped there; the other allocations are spared |
| CumemAllocator.Allocator.SleepAll | vllm/device_allocator/cumem.py:251-269 | after sleeping every allocation each has nothing in its range and its address still reserved, and nothing at all is mapped or live if the driver held exactly what the table says; it fails if anything was asleep before; when it fails, every other allocation is as it should be, and asleep or as before |
| CumemAllocator.Allocator.WakeAll | vllm/device_allocator/cumem.py:294-298 | after waking the chosen allocations each has its address, size and chunk sizes again and the others are as before; it fails if one of them was awake; when it fails, every other allocation is as it should be, and awake or as before |
| CumemAllocator.OverwrittenKeeps | csrc/cumem_allocator.cpp:174-182 | the handles that a failed wake leaves in the record of an allocation that is asleep do not matter to the invariant |
| CumemAllocator.NotWokenInv | csrc/cumem_allocator.cpp:174-182 | after a wake that maps nothing the driver still holds exactly what the table says if and only if no handle was stored, or the allocation is asleep and no handle stays alive |
| CumemSound.MallocSpares | csrc/cumem_allocator.cpp:323-451 | a malloc step keeps the driver sound and every allocation as it should be, and makes its own so |
| CumemSound.SleepSpares | csrc/cumem_allocator.cpp:599-716 | so does a sleep step, from any sound driver |
| CumemSound.WakeSpares | csrc/cumem_allocator.cpp:720-785 | mapping the chunks of an allocation that is asleep spares the others, whether its record says so or not |
| CumemSound.GiveUpSpares | csrc/cumem_allocator.cpp:536-706 | so does giving up its address |
| CumemSound.FailingRunSpares | csrc/cumem_allocator.cpp:323-785 | over every run in which calls may fail, the driver stays sound, with disjoint reservations, disjoint chunks inside them and a live handle for each, and an allocation that is as it should be stays so as long as no call is for it |
| CumemSound.InvSound | csrc/cumem_allocator.cpp:323-785 | a driver that holds exactly what the table says is sound |
| CumemSound.InvRight | csrc/cumem_allocator.cpp:323-785 | then every allocation is as it should be, unless one that is asleep has a handle on record that is mapped |
| CumemFailures.RefusedThenWake | csrc/cumem_allocator.cpp:337-342 | from any sound driver: a `my_malloc` that is refused and a wake after it lose a handle when the first create is granted |
| CumemFailures.ServedByRetry | csrc/cumem_allocator.cpp:50-72 | from the start: the first reservation is refused and the retry serves the call, with its own address, after six calls of the driver |
| CumemFailures.LosesHandle | csrc/cumem_allocator.cpp:323-785 | from the start: a malloc, a sleep, a refused malloc and a wake leave a handle alive although everything is asleep |
| CumemFailures.OverwritesHandle | csrc/cumem_allocator.cpp:720-785 | from the start: a malloc and a wake of the allocation while it is awake leave a record whose handle is dead, and a live handle in no record |
| CumemFailures.LeavesRecord | csrc/cumem_allocator.cpp:404-447 | from the start: a refused create leaves the record of an address that is not reserved |
| CumemFailures.ZeroChunkIff | csrc/cumem_allocator.cpp:25-43 | with a granularity of two megabytes the chunk size is zero exactly for the largest setting that the guard admits |
| CumemFailures.DividesByZero | csrc/cumem_allocator.cpp:366-372 | from the start: with that setting an allocation divides by zero |
| CumemRuns.RunKeepsInv | csrc/cumem_allocator.cpp:323-785 | over every run of mallocs, sleeps, wakes and frees, in any order over any allocations, the driver holds exactly what the table says: one reservation per allocation, disjoint, with all chunks of awake ones mapped by live handles and nothing else mapped or live |
| CumemRuns.MallocKeeps | csrc/cumem_allocator.cpp:323-451 | a malloc step keeps that invariant and takes a new address |
| CumemRuns.WakeKeeps | csrc/cumem_allocator.cpp:771-773 | a wake step keeps it |
| CumemRuns.SleepKeeps | csrc/cumem_allocator.cpp:681-706 | a sleep step keeps it |
| CumemRuns.FreeKeeps | csrc/cumem_allocator.cpp:536-560 | a free step, awake or asleep, keeps it |
| CumemRuns.AwakeByte | csrc/cumem_allocator.cpp:184-203 | every byte of an awake allocation lies in exactly one mapped chunk, backed by a live handle of that allocation |
| CumemRuns.AsleepByte | csrc/cumem_allocator.cpp:684-706 | no byte of an allocation that is asleep is mapped, and its range is still reserved |
| CumemRuns.OutsideByte | csrc/cumem_allocator.cpp:536-560 | a byte outside every allocation, so also of a freed one, is neither reserved nor mapped |
| CumemRuns.NoSharedHandle | csrc/cumem_allocator.cpp:174-203 | no two mapped chunks share a handle, and the handle of each is live |
| NinjaSweep.SummarizeEntries | tools/report_build_time_ninja.py:198-256 | it fails exactly on no entries or on a build step that ends before it starts; otherwise weighted durations are the shares, their total is the busy time, the rest of the length is the idle time, and none exceeds the step's own duration |
| NinjaSweep.Sweep | tools/report_build_time_ninja.py:230-256 | over events in order, every build step gets its share, every stop finds its step running exactly when all steps end no earlier than they start, and nothing is left running |
| NinjaSweep.Collect | tools/report_build_time_ninja.py:207-219 | two events per build step, and the earliest start and latest end |
| NinjaSweep.Sort | tools/report_build_time_ninja.py:222-228 | the events in order of time, starts first, none lost or repeated |
| NinjaSweep.SharesAddUp | tools/report_build_time_ninja.py:238-255 | the shares of all build steps add up to the time during which some step runs |
| NinjaSweep.BusyPlusIdle | tools/report_build_time_ninja.py:220-221 | busy and idle time make up the time from the first event to the last |
| NinjaSweep.ShareAtMost | tools/report_build_time_ninja.py:84-89 | a step's share never exceeds the time it has been running |
| NinjaSweep.ActiveConstant | tools/report_build_time_ninja.py:225-237 | between two consecutive events the same steps run at every instant, so the sums measure real time |
| NinjaLog.ReadTargets | tools/report_build_time_ninja.py:104-149 | the targets are the grouping by command hash of all well-formed lines, or of those of the last build; a wrong header or a time that is no number is an error |
| NinjaLog.BuildConsistent | tools/report_build_time_ninja.py:123-144 | within the last build ends never decrease, and a command has the same times everywhere |
| NinjaLog.BuildStartReason | tools/report_build_time_ninja.py:123-144 | the last build starts at the first line or where a line shows a new build |
| NinjaLog.TargetOfRecord | tools/report_build_time_ninja.py:132-148 | every line of the last build belongs to a target with exactly its times |
| NinjaLog.EveryRecordOnce | tools/report_build_time_ninja.py:144-148 | every line gives exactly one name to exactly one target |
| NinjaLog.HashesDistinct | tools/report_build_time_ninja.py:132-148 | every command has one target |
| NinjaLog.RecordsAre | tools/report_build_time_ninja.py:113-122 | the records are those of the lines with five fields, in order |
| NinjaLog.GroupingAt | tools/report_build_time_ninja.py:132-149 | every target has the times of the first record with its hash and the names of all records with it |
| NinjaLog.TargetOfFirst | tools/report_build_time_ninja.py:144-149 | every first record of a hash has a target, and targets are in the order of these records |
| NinjaLog.NamesAre | tools/report_build_time_ninja.py:148-148 | the names of a target are those of its records, in order |
| NinjaReport.BuildReport | tools/report_build_time_ninja.py:316-318 | from the log to the summary: it fails exactly on a wrong header, a time that is no number, no well-formed line, or a line of the last build that ends before it starts; otherwise the weighted duration of a target counts each of its milliseconds as one over the number of targets running in it, and the total is the number of milliseconds in which some line of the last build runs |
| NinjaReport.ActiveIff | tools/report_build_time_ninja.py:132-148 | at every instant some target runs exactly when some line of the last build does |
| NinjaReport.WeightedMs | tools/report_build_time_ninja.py:238-255 | a target's share of the sweep, in milliseconds, is the sum over its milliseconds of one over the number of targets running |
| NinjaReport.TotalMs | tools/report_build_time_ninja.py:220-256 | the busy time of the sweep is, in milliseconds, the number of those in which some line runs |
| Spinloop.NoLostWakeup | csrc/spinloop.cpp:128-151 | in every interleaving of stores to single bytes, if the monitor is not used or the watched line decides the condition, the waiter is never in the hardware wait on a monitor that was not triggered while the condition holds |
| Spinloop.NoLostWakeupIff | csrc/spinloop.cpp:91-151 | and that is necessary: otherwise there is a run that sits in the hardware wait, armed, while the condition holds |
| Spinloop.SafeLayoutIff | csrc/spinloop.cpp:91-129 | an address, length and line size lose no wakeup of any callback on the buffer if and only if the monitor is not used or the buffer lies in one line, which the length test does not imply |
| Spinloop.WriterSafeIff | vllm/distributed/device_communicators/shm_broadcast.py:556-563 | the writer of the shared memory ring loses no wakeup if and only if the monitor is not used or the flags of its block lie in one line |
| Spinloop.EighthBlockLosesWakeups | vllm/distributed/device_communicators/shm_broadcast.py:346-348 | with eight readers and lines of 64 bytes it loses wakeups on block 7 |
| Spinloop.RunInv | csrc/spinloop.cpp:93-168 | every state of every run, for every layout, keeps the invariant behind it |
| Spinloop.StoreWakes | csrc/spinloop.cpp:128-151 | a store after the monitor is armed triggers it if and only if it is to the watched line |
| Spinloop.TrueWasSeen | csrc/spinloop.cpp:94-105 | true is returned only after a callback that returned true |
| Spinloop.TimeoutWasSeen | csrc/spinloop.cpp:107-125 | false is returned only after the clock was read past the timeout |
| Spinloop.ClockReadOften | csrc/spinloop.cpp:107-126 | with a timeout, at most sixteen polls fail between two readings of the clock, across the wrap-around of the counter, and it is read after exactly sixteen, or after the first poll of all |
| Spinloop.AfterReadClock | csrc/spinloop.cpp:107-126 | a reading of the clock past the timeout is followed by the return of false, and an earlier one by the next round |
| Spinloop.TimesOut | csrc/spinloop.cpp:93-168 | in every run, once the time is up at most sixteen more polls fail, after which the clock is read unless the condition was seen or the loop was left; the waiter takes at most 135 more steps, and can take the next one until it has returned or raised |
| Spinloop.NotTrue | csrc/spinloop.cpp:93-168 | while the condition does not hold the waiter does not return true, so that it can then only return false or raise |
| Spinloop.Responds | csrc/spinloop.cpp:93-168 | while the condition holds the waiter can always take a step, with neither a failing clock or callback nor the hardware timeout, if no wakeup can be lost |
| Spinloop.Closer | csrc/spinloop.cpp:93-168 | while the condition holds every step of the waiter brings it closer to its return |
| Spinloop.RespondsInRun | csrc/spinloop.cpp:93-168 | in every run, between two states from one to the other of which the condition holds, the waiter takes at most seven steps, and it is not stuck |
| ClientQueue.Fill | benchmarks/benchmark_hidden_state_extraction.py:238-244 | the queue holds the prompts in order and then one sentinel per client |
| ClientQueue.RunInv | benchmarks/benchmark_hidden_state_extraction.py:142-176 | in every state of every run prompts were taken in order, each is a result or being worked on exactly once, and sentinels left match clients not stopped |
| ClientQueue.Complete | benchmarks/benchmark_hidden_state_extraction.py:238-256 | when all clients have stopped every prompt has exactly one result, each client took one sentinel, the queue is empty and every item is reported done exactly once |
| ClientQueue.NeverStarved | benchmarks/benchmark_hidden_state_extraction.py:143-146 | no client ever waits on an empty queue |
| ClientQueue.NoDeadlock | benchmarks/benchmark_hidden_state_extraction.py:142-176 | until all clients have stopped, some client can take a step |
| ClientQueue.RunIsShort | benchmarks/benchmark_hidden_state_extraction.py:142-176 | no run has more than two steps per item |
| ClientQueue.AtMostOnce | benchmarks/benchmark_hidden_state_extraction.py:169-176 | no prompt has two results; a prompt is reported done exactly as often as it has a result, sentinels as often as clients stopped, and the queue counts each report once |
| ClientQueue.NoClients | benchmarks/benchmark_hidden_state_extraction.py:238-256 | without clients nothing is taken |
| BadWords.NoBadWordsLogitsProcessor.Call | vllm/logits_process.py:56-87 | with logits of the first length exactly the tokens that would complete a bad word get minus infinity and all others keep their logit; ids out of bounds and empty words are errors; with another length the sum broadcasts, or an id or the shape is an error |
| BadWords.ForbidsEverything | vllm/logits_process.py:85-85 | a bias built for one token forbids all tokens of longer logits |
| BadWords.NoBadWordsLogitsProcessor.InitWordBias | vllm/logits_process.py:89-104 | the bias is that of the one-token words, and nothing is kept when an id is out of bounds |
| BadWords.NoBadWordsLogitsProcessor.CheckTokenIdsBounds | vllm/logits_process.py:106-113 | the ids out of bounds, in order |
| BadWords.NoBadWordsLogitsProcessor.LastTokenBias | vllm/logits_process.py:64-83 | the bias of longer words, and failure exactly on an empty word or on a last id beyond the logits |
| BadWords.InvalidIff | vllm/logits_process.py:106-121 | there are ids out of bounds exactly when some word has one |
| BadWords.InvalidAt | vllm/logits_process.py:106-121 | each id out of bounds is reported at its place, and as many as there are |
| BadWords.ShapeIs | vllm/logits_process.py:85-85 | lengths broadcast exactly when each is the length of the result or one |
| BadWords.RunSafe | vllm/logits_process.py:56-87 | for runs of any length, all generated tokens were allowed if and only if no bad word ends among them |
| BadWords.GetBadWordsIds | vllm/logits_process.py:21-45 | the ids are the plain encodings and, where the space gives a new word token, the spaced ones; it fails exactly when an encoding is empty |
| BadWords.VariantsHold | vllm/logits_process.py:26-43 | every word is forbidden in its plain form, and in its spaced form under that condition; nothing forbidden is empty |
| BadWords.VariantsIff | vllm/logits_process.py:26-43 | what is forbidden is exactly the plain form of every word and the spaced form where it has as many tokens and another first one |
| BadWords.CleanText | vllm/logits_process.py:21-87 | when no forbidden id sequence ends among the tokens, no bad word ends among them in either form |
| BadWords.Generate | vllm/logits_process.py:56-87 | a generation loop that samples only tokens whose processed logit is not minus infinity, with a processor that may have been called before and logits of any lengths: no bad word ends among the generated tokens, each of them passes, and it stops early exactly at a pick that does not |
| BadWords.PassesIff | vllm/logits_process.py:56-87 | with logits of the first length a pick passes exactly when the ids are in bounds, no word is empty, its logit is not minus infinity and it completes no bad word |
| BadWords.PassesSafe | vllm/logits_process.py:64-85 | with any lengths a pick that passes completes no bad word |
| BadWords.GenerateWithout | vllm/logits_process.py:21-87 | the same from the words, through their ids and the processor, in both forms of every word |
| ScalarTypes.MaxIsExact | vllm/scalar_type.py:71-109 | for every layout within the asserted limits but one-bit IEEE ones and extended-range ones without a mantissa, the bits are a finite double, equal to the value of a finite encoding that no other finite encoding exceeds, under each NaN convention |
| ScalarTypes.MaxIsLargestIff | vllm/scalar_type.py:71-109 | over all layouts that the assertions admit: the result is the largest finite value if and only if the layout is not a one-bit IEEE one and not an extended-range one without a mantissa |
| ScalarTypes.AdmittedIff | vllm/scalar_type.py:71-97 | the assertions admit exactly the layouts with at most 52 mantissa and eleven exponent bits, and eleven only under the IEEE convention |
| ScalarTypes.KnownMaxima | vllm/scalar_type.py:332-340 | the largest values of four of the defined types are 448, 57344, 65504 and 28 |
| ScalarTypes.NoMantissaFails | vllm/scalar_type.py:76-109 | without a mantissa under the extended-range convention the pattern is negative and cannot be packed, for every exponent width that is admitted |
| ScalarTypes.Float8E8M0Fails | vllm/scalar_type.py:334-334 | one of the defined types is such a layout |
| ScalarTypes.MaxBitsDecode | vllm/scalar_type.py:71-105 | the bits decode to the largest exponent and mantissa with a leading one |
| ScalarTypes.OneBitExponent | vllm/scalar_type.py:80-101 | with one exponent bit under the IEEE convention they decode to more than any finite encoding |
| ScalarTypes.MinNegates | vllm/scalar_type.py:116-125 | the sign bit gives the negation |
| ScalarTypes.OrDisjoint | vllm/scalar_type.py:99-101 | bits that do not overlap add up |
| ScalarIds.OrAndAdvance | vllm/scalar_type.py:146-151 | one member is reduced to its width and put at the offset |
| ScalarIds.ComputeId | vllm/scalar_type.py:136-164 | the id has every field at its place, in 58 bits |
| ScalarIds.IdIs | vllm/scalar_type.py:136-164 | the place of every field in the id, as a number |
| ScalarIds.AndMask | vllm/scalar_type.py:149-150 | masking an integer, negative or not, reduces it |
| ScalarIds.RoundTrip | csrc/core/scalar_type.hpp:149-164 | for fields in range the id decodes back to the type |
| ScalarIds.SameIdIff | vllm/scalar_type.py:136-164 | two types share an id exactly when their fields agree up to the widths |
| ScalarIds.Registry.TypeId | vllm/scalar_type.py:136-164 | the id is computed and the registry holds the type after all earlier ones |
| ScalarIds.Registry.FromId | vllm/scalar_type.py:308-312 | over any constructions: an error exactly when no type with this id was constructed; otherwise the last one with it, which is the type the id encodes if all fields were in range |
| ScalarIds.ConstructAndFind | vllm/scalar_type.py:136-164 | types that are constructed, one of them looked up by its id: it comes back when all fields are in range, and in any case the last one with that id |
| ScalarIds.LastWins | vllm/scalar_type.py:160-164 | after any constructions a look-up finds the last type with that id |
| ScalarIds.FromIdOfId | vllm/scalar_type.py:308-312 | after any constructions of types in range every id leads back to its type |
| ScalarIds.BiasOutOfRange | vllm/scalar_type.py:153-162 | a type out of range that is replaced by another |
| RequestOutputs.RequestOutput.Add | vllm/outputs.py:145-173 | on completion objects updated in place, shared or not: which objects the output has afterwards and what all objects of both outputs hold; without objects in common these are the values after merging; a failed assertion exactly when logprobs are missing, with the state it leaves; then the other output is unchanged when its indices are distinct |
| RequestOutputs.CellFoldApart | vllm/outputs.py:151-173 | on objects that are not shared, the rounds on objects are the rounds on values |
| RequestOutputs.SelfAddDoubles | vllm/outputs.py:151-173 | an output with distinct indices that is added to itself never fails, keeps its objects and is doubled |
| RequestOutputs.LaterAddReachesBack | vllm/outputs.py:155-173 | an appended completion is shared: a later merge changes the output it came from |
| RequestOutputs.FoldFailsIff | vllm/outputs.py:160-162 | adding an output fails exactly when a completion brings logprobs for one that has none |
| RequestOutputs.AddedTwiceFailsIff | vllm/outputs.py:160-162 | adding two outputs fails exactly when logprobs come too late, stated on the three lists |
| RequestOutputs.AddAssociative | vllm/outputs.py:145-173 | adding two outputs one after the other equals adding their merge if and only if logprobs come too late, or no delta without logprobs stands before one with logprobs on a completion that has some; replacing is always associative |
| RequestOutputs.NotAssociative | vllm/outputs.py:160-162 | a family of outputs on which it is not |
| RequestOutputs.FoldDistinct | vllm/outputs.py:151-173 | completion indices stay distinct |
| RequestOutputs.Concatenated | vllm/outputs.py:154-159 | with aggregation text and tokens of every index are the concatenation of all its deltas in order |
| RequestOutputs.NeverFails | vllm/outputs.py:160-162 | with logprobs consistently present or absent nothing fails |
| RequestOutputs.ConcatenatedLogprobs | vllm/outputs.py:160-162 | then logprobs are the concatenation too |
| RequestOutputs.LatestWins | vllm/outputs.py:163-170 | cumulative logprob and finish and stop reasons are those of the last delta; without aggregation the whole completion is |
| FlatLogprobs.FlatLogprobs.Append | vllm/logprobs.py:63-72 | the view gains the dictionary, and the container stays valid |
| FlatLogprobs.FlatLogprobs.AppendFast | vllm/logprobs.py:74-93 | the view gains the dictionary of the zipped lists, later entries overriding |
| FlatLogprobs.FlatLogprobs.Extend | vllm/logprobs.py:95-98 | the view gains all dictionaries in order, entry by entry |
| FlatLogprobs.FlatLogprobs.GetItem | vllm/logprobs.py:110-120 | the dictionary of a position, counted from either end, read from the entries between its indices, or an error exactly when there is no such position |
| FlatLogprobs.FlatLogprobs.GetSlice | vllm/logprobs.py:121-133 | an error when no position is chosen; otherwise the result holds the dictionaries of the chosen positions if and only if the slice runs forwards, has one position or has only empty ones, and in the first two cases it can be appended to |
| FlatLogprobs.PositionAdded | vllm/logprobs.py:63-93 | appending changes no earlier position |
| FlatLogprobs.PositiveSlice | vllm/logprobs.py:121-133 | a slice with positive step is valid, so it can be appended to, and has the sliced view |
| FlatLogprobs.BackwardSlice | vllm/logprobs.py:121-133 | a slice backwards over several positions has the sliced view if and only if all of them are empty |
| FlatLogprobs.HasSliceIff | vllm/logprobs.py:121-133 | that equivalence for every choice of positions |
| FlatLogprobs.ReadIs | vllm/logprobs.py:113-120 | the dictionary read from a position has exactly the tokens of its entries, each with the logprob, rank and text of its last entry |
| FlatLogprobs.SlicePositionsIff | vllm/logprobs.py:121-133 | a slice chooses exactly the positions between its bounds, counted from either end and clamped, that are whole steps from its start, in the order of its step |
| FlatLogprobs.LastPositions | vllm/logprobs.py:121-133 | the slice from `-k` on chooses the last `k` positions |
| FlatLogprobs.AppendNextFlat | vllm/logprobs.py:175-193 | the flat container gains the dictionary for the next position |
| FlatLogprobs.AppendNextList | vllm/logprobs.py:175-206 | a list of dictionaries gains the same one, also with repeated token ids |
| FlatLogprobs.NextEntriesAre | vllm/logprobs.py:184-206 | the entries for the next position are the sampled token with its rank and then the top tokens with ranks from 1 on, as many as all lists have and as are asked for |
| FlatLogprobs.DictOfIs | vllm/logprobs.py:195-206 | the dictionary of some entries has exactly their tokens, each with its last entry |

## Left out

- Floating-point rounding: quantization, the scan and the build-time sweep are over the reals; the scan's step and
  activation are parameters, and the cast of the scale to the input type is not modelled.
- vllm/env_override.py: symbol inputs of a signature, the order inside ordered sets, and the other patches of
  that file; what a kernel computes, and what planning a line does, are parameters.
- vllm/_xpu_ops.py: the layout of heads and groups, and the other operators; programs of one launch run one after the
  other.
- csrc/cumem_allocator.cpp: the CUDA path, Python reference counts, failing host allocations and callbacks,
  device contexts and the contents of memory, including the copy kept on the CPU while asleep.
- csrc/cumem_allocator.cpp: operations on the record that a failed `my_malloc` leaves, whose list of handles is freed
  memory by then.
- CumemAllocator.Allocator.Sleep: takes an allocation that is as it should be, not one whose own sleep or wake failed.
- CumemAllocator.Allocator.Wake: takes an allocation that is as it should be, not one whose own sleep or wake failed.
- vllm/device_allocator/cumem.py: how tags choose the allocations to wake; the chosen ones are a parameter.
- CumemAllocator.Allocator.AddressReserve: the driver may choose any free address and may fail at any time; that it
  honours the address asked for is not assumed.
- tools/report_build_time_ninja.py: the printed report, the grouping by extension, and times above the precision of
  a double.
- csrc/spinloop.cpp: detection of the processor, failures before the loop, and the order in which the ring's threads
  store their flags; any thread may store to any byte at any time.
- benchmarks/benchmark_hidden_state_extraction.py: failing clients, the engine and the timing.
- vllm/logits_process.py: logits that are plus infinity or not numbers.
- vllm/scalar_type.py: integer types' bounds, infinities in layouts that do not follow
  the IEEE convention, and the naming of types.
- FlatLogprobs.FlatLogprobs.Append: takes the items of a dictionary; that `None` reads back as an empty dictionary is
  the case of no items.
- Kernel wrappers, build and installation scripts, network clients and small helpers of the repository: their functions
  do what their bodies say, without state or cases that interact.
