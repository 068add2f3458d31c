# Verified models of SPDK tools

This project models the algorithms of several SPDK applications and scripts in Dafny and proves what they guarantee
over all inputs and all interleavings. `dafny verify dfyconfig.toml` checks everything.

| files | system |
|---|---|
| `DdModel`, `DdData`, `DdSteps`, `DdCount`, `DdProgress`, `DdTheorems`, `DdClaims`, `DdComplete`, `DdSparse`, `DdDeadlock`, `DdHalt`, `DdExits`, `DdCounted`, `DdSetUp`, `DdJob` | the asynchronous copy engine of `spdk_dd` |
| `TraceRecord`, `TraceSession`, `TraceAggregate` | the trace recorder: ring, lcore files, aggregated file |
| `PerfWorker`, `PerfSgl`, `PerfAssoc` | the NVMe perf worker: tasks, budget, io_uring accounting, scatter-gather lists, worker association |
| `Virtio` | split virtqueue layout and event suppression |
| `MemInfo`, `MemPools`, `Histogram`, `HistogramReport`, `Chunked` | the memory report, latency histogram and RPC proxy scripts |
| `Basics`, `Arith`, `Bits` | shared types, rounding, division, sums, powers of two and masks |

## The copy engine

The job state is a value (`DdModel.State`) and every pipeline function of the program is a function on it. A run is a
start-up followed by any sequence of events: a device carries out the transfer of one slot, a slot completes (with or
without an error, and with any result of the submissions the completion makes), the user interrupts, the status poller
fires. `DdJob.Job` is the same engine as an object whose methods update fields in place; each method is proved to do
what the corresponding function says, so that what `DdJob.Copy` does is always an execution of the model
(`Execution`), and everything proved about executions holds of it.

Assumptions (`Config.Valid`): input and output are different devices; the region lies inside both; the output is a
whole number of blocks; `--bs` is a multiple of the output's block size. The program checks `--bs` against the input's
block size only, and the room in the output only with `--count`; given those two, `DdSetUp.CommandLineCopies` goes
from an accepted command line to the copied bytes. Sparse copies also need: no `--count`, holes that read as zeros
with edges on output blocks, and a zeroed output region. A regular output file is modelled with its bytes beyond the
end of file present as zeros, next to its size.

Main results: a run that ends without error or interrupt has performed the plain slice copy, dense or sparse
(`FinishedRunIsSliceCopy`); in every state of every run nothing outside the region has changed (`CopyIsContained`);
the claimed chunks tile the region (`ClaimsTile`); every run is finite (`RunsAreFinite`). Sparse copies from block
devices apart, `outstanding` is exact and dd_exit has been called exactly when it is zero (`OutstandingIsExact`), no
run gets stuck (`Progress`), so every run without failures, followed as far as it goes, ends in the copy
(`CleanRunsCopy`), and every job has such a run (`EveryJobCanFinish`).

Where the code does less than one would expect:

- A sparse copy from a block device can stop with slots left in the seek queue and nobody seeking. Without any error
  or interrupt this can happen if and only if there are at least three slots, there is data in the region and the
  input ends in a hole (`HangCharacterization`).
- A seek that completes after an error or interrupt is never counted down. So a job that halts ends if and only if a
  chunk and no seek was in flight when it halted, and otherwise never does (`HaltedRunEnds`); every sparse copy from a
  block device with something to copy can hang in this way, whatever its queue depth (`HangsIff`, `InterruptedSeek`).
- After a refused claim the callback of a hole seek calls dd_exit and then still submits the next seek, or calls
  dd_exit again (`StepExitsExactly`). This can happen exactly for sparse copies from block devices with at least two
  slots and more than one chunk (`ExitsLateIff`).
- Start-up calls dd_exit once per slot when it is interrupted, when its first submission fails, or when a sparse input
  file has no data (`StartUpExits`). With nothing to copy there is only one slot (`SetUpDepth`).
- With `--sparse` and `--count` the position can jump over the end of the region and the slots go on copying behind it.
  This can happen if and only if there is data behind a hole that reaches over the end of the region, or, for a block
  device with at least two slots, begins there (`CountOvershoot`).
- A trace recorder whose first entry has timestamp zero repeats entries; `ZeroTimestamp` says which sessions stay exact.
  The producer stamps entries with the tick counter when no time is given, so this needs a tick counter that reads zero.
- A trace recorder whose write fails has already counted the entries (`Record`).
- Cleaning up a perf worker counts tasks that were only queued as completed and wraps the queue depth (`Cleanup`).
- A memzone of size zero between two heap elements is associated with one of them only (`EmptyZoneMissesOne`); in
  general the removal during iteration misses an element exactly when two neighbours contain the zone
  (`PassCompleteIff`).
- A memzone whose name contains the names of two mempools is counted in both; the sizes in the memory report add up if
  and only if this does not happen (`SizesAddUpIff`).
- The histogram script shows values below 2^63 only (`ShownIffBelow`).
- `vring_size` is the size of the rings if and only if that is less than 2^32 bytes (`Init`).
- The RPC proxy refuses chunk extensions and consumes only one line after the zero chunk; it reads a message completely
  if and only if there is neither an extension nor a trailer (`DecodedIff`).

## Model

| member | source | states |
|---|---|---|
| DdModel.Find | app/spdk_dd/spdk_dd.c:551-589 | SEEK_DATA and SEEK_HOLE: the least position from `p` on with the wanted kind of byte, or none |
| DdModel.Store | app/spdk_dd/spdk_dd.c:374-392 | a device write replaces exactly the addressed bytes |
| DdData.WholeFits | app/spdk_dd/spdk_dd.c:352-356 | a chunk rounded up to output blocks fits the slot's buffer and the device and overhangs only past the end of the region |
| DdData.StoreEffect | app/spdk_dd/spdk_dd.c:348-404 | a write of whole blocks changes exactly the bytes of its chunk, to the input's bytes; the rewritten tail keeps its old value |
| DdData.SkipHole | app/spdk_dd/spdk_dd.c:736-742 | moving the position over a hole keeps every passed byte final |
| DdSteps.ExtentClaimOk | app/spdk_dd/spdk_dd.c:744-754 | the chunk cut from a data extent holds only data and ends on an output block or at the end of the region |
| DdSteps.PopulateKeeps | app/spdk_dd/spdk_dd.c:481-549 | claiming a chunk keeps chunks disjoint, buffers right and every passed byte finished or held |
| DdSteps.StepKeepsData | app/spdk_dd/spdk_dd.c:348-549 | every event keeps the invariant about chunks, buffers and output bytes |
| DdSteps.StepKeepsQueue | app/spdk_dd/spdk_dd.c:591-778 | every event keeps the seek queue free of duplicates with at most its head seeking, from the current position |
| DdCount.CompletionIsCounted | app/spdk_dd/spdk_dd.c:780-800 | the assert before each decrement of `outstanding` holds |
| DdCount.StepKeepsCount | app/spdk_dd/spdk_dd.c:348-800 | every event keeps `outstanding` equal to the operations in flight plus the bdev seeks that completed after an error or interrupt, of which there is at most one |
| DdCount.StepExits | app/spdk_dd/spdk_dd.c:348-549 | dd_exit without error is called only when nothing is left to copy; it is called with nothing outstanding, and something stays in flight until then, except in sparse copies from block devices, for which StepExitsExactly and the hang results say what happens |
| DdProgress.StepAccounts | app/spdk_dd/spdk_dd.c:230-233 | under any interleaving with the status poller the byte counters plus the chunks not yet handed to the output equal the copied bytes passed by the position |
| DdProgress.StepWork | app/spdk_dd/spdk_dd.c:348-800 | every transfer and completion strictly decreases a measure of unclaimed bytes and slot stages |
| DdTheorems.StartUp | app/spdk_dd/spdk_dd.c:1246-1248 | start-up establishes the invariant and leaves something in flight or has called dd_exit |
| DdTheorems.StartUpExits | app/spdk_dd/spdk_dd.c:1246-1248 | in every mode start-up puts something in flight exactly when there is something to copy, no interrupt and the first submission is accepted; otherwise it calls dd_exit once per slot |
| DdTheorems.CopyIsContained | app/spdk_dd/spdk_dd.c:348-549 | in every state of every run, failed and interrupted ones included, bytes outside the region are unchanged and bytes inside are old or copied |
| DdTheorems.FinishedRunIsSliceCopy | app/spdk_dd/spdk_dd.c:348-778 | every run that exits without error or interrupt leaves the output equal to the slice copy, and a file output long enough, whatever the interleaving, queue depth and mode |
| DdTheorems.OutstandingIsExact | app/spdk_dd/spdk_dd.c:348-549 | `outstanding` is the number of operations in flight, and dd_exit has been called exactly when it is zero |
| DdTheorems.ExitsOnce | app/spdk_dd/spdk_dd.c:348-549 | after a start-up that did not exit, dd_exit is called at most once |
| DdTheorems.Progress | app/spdk_dd/spdk_dd.c:348-549 | until dd_exit is called some transfer or completion is possible |
| DdTheorems.RunsAreFinite | app/spdk_dd/spdk_dd.c:348-800 | the number of transfers and completions of any run is bounded by the copy size and the queue depth |
| DdTheorems.ReportedTotal | app/spdk_dd/spdk_dd.c:215-237 | at a clean finish the reported total is the number of copied bytes: the copy size, or in sparse mode the bytes outside holes |
| DdTheorems.EveryByteOnce | app/spdk_dd/spdk_dd.c:484-506 | every byte passed by the position has its final value or is held by a slot, no byte is held by two slots, none ahead of the position is held, and the byte counters and chunks add up |
| DdClaims.ClaimsTile | app/spdk_dd/spdk_dd.c:484-506 | while nothing has failed, the chunks claimed by start-up and by every event so far, in order, tile the region up to the position: every byte to copy was claimed exactly once and no other byte was |
| DdClaims.TiledOnce | app/spdk_dd/spdk_dd.c:484-506 | in a tiling a byte lies in a chunk exactly when it is to be copied, and then in only one |
| DdTheorems.WriteRangesApart | app/spdk_dd/spdk_dd.c:352-356 | the rounded ranges of two slots in the pipeline never overlap and fit their buffers |
| DdComplete.CleanRunsCopy | app/spdk_dd/spdk_dd.c:348-800 | every run without failures or interrupt that can go no further has called dd_exit with 0 and performed the slice copy (dense, or sparse from a file) |
| DdComplete.EveryJobCanFinish | app/spdk_dd/spdk_dd.c:348-800 | every such job has a run that completes the copy |
| DdSparse.OneSeekAtATime | app/spdk_dd/spdk_dd.c:755-766 | in every reachable state at most one seek is in flight, it belongs to the head of the queue and started at the current position |
| DdSparse.SkippedBytesAreHoles | app/spdk_dd/spdk_dd.c:591-754 | every byte an event moves the position past is claimed by a slot or lies in a hole, unless the submission failed |
| DdDeadlock.NoHang | app/spdk_dd/spdk_dd.c:591-778 | with at most two slots, data in the last byte or no data at all, no run gets stuck without an error or interrupt |
| DdDeadlock.SafeBdevRunsCopy | app/spdk_dd/spdk_dd.c:591-778 | for such jobs every run without failures that can go no further has performed the copy |
| DdDeadlock.HangingRun | app/spdk_dd/spdk_dd.c:619-627 | for every other sparse job from a block device there is a run that gets stuck without an error or interrupt |
| DdDeadlock.HangCharacterization | app/spdk_dd/spdk_dd.c:619-627 | a sparse copy from a block device can hang without error or interrupt if and only if it has at least three slots, data, and a trailing hole |
| DdHalt.HaltedEnds | app/spdk_dd/spdk_dd.c:601-611 | a halted job is either bound to end or bound never to: it can end, and cannot get stuck, if and only if chunks are in flight and nothing else is counted |
| DdHalt.HaltedRunEnds | app/spdk_dd/spdk_dd.c:601-671 | a run that an error or interrupt halts without ending it can end if and only if at that moment a chunk is in flight and no seek is; otherwise it gets stuck |
| DdHalt.InterruptedSeek | app/spdk_dd/spdk_dd.c:601-611 | an interrupt during the first seek makes every sparse copy from a block device hang, with any number of slots |
| DdHalt.HangsIff | app/spdk_dd/spdk_dd.c:348-800 | of all jobs exactly the sparse copies from block devices with something to copy can hang |
| DdExits.StepExitsExactly | app/spdk_dd/spdk_dd.c:348-800 | every event leaves dd_exit uncalled, or called once with the current error and nothing outstanding, except a refused claim of the only operation in flight with a slot waiting and input left: then a seek is submitted after dd_exit, or dd_exit is called twice |
| DdExits.RunExits | app/spdk_dd/spdk_dd.c:348-800 | a run that called dd_exit did so in its last event, in the way StepExitsExactly says |
| DdExits.RefusedClaim | app/spdk_dd/spdk_dd.c:687-707 | constructs a run that submits a seek after dd_exit, or calls it twice, for every job that can |
| DdExits.ExitsLateIff | app/spdk_dd/spdk_dd.c:687-707 | that can happen exactly for sparse copies from block devices with at least two slots and more than one chunk |
| DdSetUp.SetUpDepth | app/spdk_dd/spdk_dd.c:947-955 | an accepted command line keeps between one and the requested number of slots, and exactly one when there is nothing to copy |
| DdSetUp.CommandLineCopies | app/spdk_dd/spdk_dd.c:1096-1248 | from the command line to the bytes: if dd_run accepts it, `--bs` is a multiple of the output block size and the input fits, every run without failures that can go no further has called dd_exit with 0 and copied exactly the blocks asked for |
| DdSetUp.SparseSetUp | app/spdk_dd/spdk_dd.c:1159-1172 | holes of whole input blocks and output blocks dividing input blocks suit a sparse copy |
| DdSetUp.SparseCommandLineCopies | app/spdk_dd/spdk_dd.c:1096-1248 | the same for sparse copies of such devices that cannot hang |
| DdCounted.CountOvershoot | app/spdk_dd/spdk_dd.c:591-778 | with `--count` some run of a sparse copy, from a file or a block device, moves a chunk behind the region if and only if data lies behind a hole over (or, with two slots on a block device, at) its end |
| DdCounted.OvershootingRun | app/spdk_dd/spdk_dd.c:484-506 | constructs such a run for every such job |
| DdCounted.CountExample | app/spdk_dd/spdk_dd.c:736-754 | a four-byte job with `--count 2` for which it happens |
| DdJob.Job.ShowProgress | app/spdk_dd/spdk_dd.c:230-233 | moves the incremental bytes to the total |
| DdJob.Job.FinalizeOutput | app/spdk_dd/spdk_dd.c:286-315 | with nothing outstanding extends a short output file to the end of the region, reports and exits |
| DdJob.Job.TargetWrite | app/spdk_dd/spdk_dd.c:348-404 | updates the job as the model's TargetWrite |
| DdJob.Job.TargetRead | app/spdk_dd/spdk_dd.c:420-466 | updates the job as the model's TargetRead |
| DdJob.Job.PopulateBuffer | app/spdk_dd/spdk_dd.c:481-549 | updates the job as the model's PopulateBuffer |
| DdJob.Job.TargetSeek | app/spdk_dd/spdk_dd.c:710-778 | updates the job as the model's TargetSeek |
| DdJob.Job.SeekDataDone | app/spdk_dd/spdk_dd.c:591-646 | updates the job as the model's SeekDataDone |
| DdJob.Job.SeekHoleDone | app/spdk_dd/spdk_dd.c:648-708 | updates the job as the model's SeekHoleDone |
| DdJob.Job.CompletePoll | app/spdk_dd/spdk_dd.c:780-800 | updates the job as the model's CompletePoll |
| DdJob.Job.StartSlots | app/spdk_dd/spdk_dd.c:1246-1248 | the start-up loop does what the model's StartSlots says |
| DdJob.Job.Serve | app/spdk_dd/spdk_dd.c:780-864 | handling events in any order takes the job through a run of the model, so it keeps the invariant, and a job that ended cleanly holds the slice copy |
| DdJob.Copy | app/spdk_dd/spdk_dd.c:1173-1250 | a new job, started and served, has gone through an execution of the model |
| TraceRecord.History.Cell | lib/trace/trace.c:36-40 | masking an index with the ring size minus one is its remainder |
| TraceRecord.History.Record | lib/trace/trace.c:78-159 | a record appends its entries to the log and keeps the ring equal to the end of the log |
| TraceRecord.Recorder.PaddingBackward | app/trace_record/trace_record.c:272-291 | appends a stretch of cells; fails exactly on an empty stretch or a failed write, and then appends nothing |
| TraceRecord.Recorder.PaddingAcross | app/trace_record/trace_record.c:293-323 | appends the cells from `start` round to `end`; fails exactly on a wrong order or a failed write, and then appends only a first part |
| TraceRecord.Recorder.WholeRing | app/trace_record/trace_record.c:325-330 | the ring read from the next cell round to itself is the last `n` log entries in order |
| TraceRecord.Recorder.PartRing | app/trace_record/trace_record.c:399-412 | a partial stretch, straight or over the edge, is the new part of the log |
| TraceRecord.Recorder.LastCell | app/trace_record/trace_record.c:258-270 | the last-entry index is the cell of the newest log entry |
| TraceRecord.Recorder.AppendFirst | app/trace_record/trace_record.c:365-386 | the first poll appends everything the ring still holds and stores the oldest timestamp |
| TraceRecord.Recorder.AppendMore | app/trace_record/trace_record.c:388-412 | a later poll appends the log from the later of the last recorded entry and the oldest one in the ring |
| TraceRecord.Recorder.Record | app/trace_record/trace_record.c:332-433 | a poll fails on a rollback, succeeds if all writes do, and on success appends exactly that part of the log and updates all counters; after a failed write the entry count is that of a success, the file holds only a first part and the position is the old one |
| TraceSession.SessionOk | app/trace_record/trace_record.c:332-433 | over any session the entry count is the file length and the timestamps are those of the first and last recorded entries |
| TraceSession.SessionCounts | app/trace_record/trace_record.c:388-394 | recorded and missed entries add up to the log |
| TraceSession.GapFreeIffKeptUp | app/trace_record/trace_record.c:388-412 | the file is the gap-free beginning of the log if and only if no poll found more new entries than the ring holds |
| TraceSession.ZeroTimestamp | app/trace_record/trace_record.c:365-386 | for any timestamps, the file is the log so far after every poll of a session if and only if no poll was overrun and every poll that adds to earlier entries comes after a first timestamp or finds the whole ring new |
| TraceSession.RepeatedEntry | app/trace_record/trace_record.c:365-386 | two polls of one entry each, the first stamped zero, put the first entry into the file twice |
| TraceAggregate.CopyFile | app/trace_record/trace_record.c:527-535 | copying through the fixed buffer reproduces the file and its length |
| TraceAggregate.LayOut | app/trace_record/trace_record.c:459-469 | the offset table and running offset of the first loop |
| TraceAggregate.Aggregate | app/trace_record/trace_record.c:435-548 | the output is size, metadata, offset table, owner offset, all sections in order, owner data |
| TraceAggregate.SectionsEndAtOffset | app/trace_record/trace_record.c:505-518 | the write position when an lcore's header is emitted is its offset |
| TraceAggregate.SectionsApart | app/trace_record/trace_record.c:459-473 | sections do not overlap and lie between the file header and the owner data |
| TraceAggregate.Parts | app/trace_record/trace_record.c:470-548 | the size written first is the final length, and every part lies where the header says |
| TraceAggregate.ReadBack | include/spdk/trace.h:163-178 | reading an lcore from the aggregated file returns its header with the recorded count and exactly its entries; a missing lcore reads as absent |
| TraceAggregate.ReadOwner | include/spdk/trace.h:180-192 | owner records read back unchanged from their new place, by the counts in the written metadata; there are no others |
| TraceAggregate.RecordedTraceReadsBack | app/trace_record/trace_record.c:332-548 | from ring to aggregated file: reading an lcore back yields the entries its session recorded, and the whole log if it kept up |
| PerfWorker.NsWorker.SubmitSingle | app/spdk_nvme_perf/perf.c:1487-1540 | entered only when not draining; moves the task in flight, to the queue or to the free list, keeps all counts, and starts draining exactly when the budget is used up |
| PerfWorker.NsWorker.TaskComplete | app/spdk_nvme_perf/perf.c:1542-1584 | frees the task while draining, else resubmits it; counts stay exact |
| PerfWorker.NsWorker.SubmitIo | app/spdk_nvme_perf/perf.c:1631-1640 | the unguarded initial loop never submits while draining and allocates one task per queue slot |
| PerfWorker.NsWorker.Resubmit | app/spdk_nvme_perf/perf.c:1780-1794 | retrying through the local list loses no task |
| PerfWorker.NsWorker.CheckIo | app/spdk_nvme_perf/perf.c:493-539 | pending plus in-flight operations equal the queue depth before and after, and never more than the queue depth completions are processed |
| PerfWorker.NsWorker.ProcessBatch | app/spdk_nvme_perf/perf.c:517-536 | while completions resubmit, the depth is pending plus in-flight plus unprocessed completions |
| PerfWorker.NsWorker.InflightFits | app/spdk_nvme_perf/perf.c:513-515 | the completions asked for never exceed the completion array |
| PerfWorker.NsWorker.Cleanup | app/spdk_nvme_perf/perf.c:1649-1659 | after cleanup every task is freed; completions overcount by, and the depth wraps by, the number of queued tasks |
| PerfWorker.NsWorker.WorkFn | app/spdk_nvme_perf/perf.c:1766-1880 | after any run every allocated task has been freed, the budget was never exceeded, and completions are submissions plus the depth at the last reset plus an excess by which the final depth has wrapped; there is no excess without continue-on-error |
| PerfWorker.TaskConservation | app/spdk_nvme_perf/perf.c:1766-1880 | allocated tasks = queue depth + queued tasks, local list included, + freed tasks |
| PerfSgl.SglTask.AllocateIovs | app/spdk_nvme_perf/perf.c:419-442 | the buffer is partitioned into exactly ceil(length/unit) contiguous pieces, all but the last full |
| PerfSgl.SglTask.ResetSgl | app/spdk_nvme_perf/perf.c:383-398 | the cursor stands at the given offset |
| PerfSgl.SglTask.NextSge | app/spdk_nvme_perf/perf.c:400-417 | returns the non-empty stretch from the cursor to the end of its piece and moves the cursor behind it |
| PerfSgl.SglTask.Walk | app/spdk_nvme_perf/perf.c:383-417 | reset and repeated next yield segments whose concatenation is exactly the bytes from the offset to the end |
| PerfAssoc.Associate | app/spdk_nvme_perf/perf.c:3124-3146 | the larger of both numbers of pairs, the i-th pairing namespace i mod N with worker i mod W; none without namespaces |
| PerfAssoc.LoadsAreFair | app/spdk_nvme_perf/perf.c:3124-3146 | in the list of pairs the loads of two workers, and of two namespaces, differ by at most one |
| PerfAssoc.EveryoneServed | app/spdk_nvme_perf/perf.c:3106-3112 | every worker and every namespace has a pair in the list |
| PerfAssoc.NoPairTwice | app/spdk_nvme_perf/perf.c:3124-3146 | no pair is made twice |
| Virtio.AlignUpSpec | include/linux/virtio_ring.h:176-177 | adding align minus one and clearing the low bits gives the least multiple not below |
| Virtio.LayoutOf | include/linux/virtio_ring.h:168-186 | the used ring is aligned, starts behind the used_event slot and ends, with its avail_event slot, at base plus the untruncated vring_size; the 32-bit result is that size if and only if it is below 2^32 |
| Virtio.Vring.Init | include/linux/virtio_ring.h:168-178 | descriptors, available ring and used ring with their event slots are disjoint, aligned and fill vring_size bytes, provided that this is below 2^32 |
| Virtio.NeedEventIffCrossed | include/linux/virtio_ring.h:188-201 | on 16-bit truncations the test is true exactly when the event index lies in the batch |
| Virtio.ExactlyOneFires | include/linux/virtio_ring.h:188-201 | over any division of an advance below 2^16 exactly one batch fires if the event index is crossed and none otherwise |
| MemInfo.AssociateOne | scripts/dpdk_mem_info.py:92-95 | the loop with removal keeps and moves exactly what the stepping-over iteration keeps and moves, with the zone recorded |
| MemInfo.Memory.AssociateHeaps | scripts/dpdk_mem_info.py:89-95 | every heap ends as after passes for all zones in order |
| MemInfo.PassConserves | scripts/dpdk_mem_info.py:92-95 | a pass preserves the elements as a multiset over both lists |
| MemInfo.AssociationConserves | scripts/dpdk_mem_info.py:89-95 | all passes preserve each heap's busy elements as a multiset |
| MemInfo.PassCompleteIff | scripts/dpdk_mem_info.py:92-95 | a pass moves every element containing the zone if and only if no two neighbours contain it |
| MemInfo.PassIsComplete | scripts/dpdk_mem_info.py:92-95 | on disjoint elements and a non-empty zone a pass moves exactly the elements containing it |
| MemInfo.AssociationIsComplete | scripts/dpdk_mem_info.py:89-130 | after all zones each moved element has a zone it contains and no remaining element contains any zone |
| MemInfo.EmptyZoneMissesOne | scripts/dpdk_mem_info.py:92-127 | an empty zone between two elements fits both but moves only the first |
| MemPools.Report.HandOut | scripts/dpdk_mem_info.py:97-101 | every pool gets exactly the zones whose name contains its name, in order |
| MemPools.Report.TakeOff | scripts/dpdk_mem_info.py:103-106 | exactly the zones no pool was handed stay on the common list, in order |
| MemPools.Report.Associate | scripts/dpdk_mem_info.py:97-106 | both loops together |
| MemPools.SizesAddUpIff | scripts/dpdk_mem_info.py:37-47 | pool sizes and remaining memzones exceed the original total by exactly what was counted more than once, so they add up if and only if no zone with a size matches two pools |
| Histogram.BoundsMatchTally | include/spdk/histogram_data.h:93-122 | a value is tallied in bucket (i, j) exactly when it lies between the bounds the script prints for it |
| Histogram.BucketsAreContiguous | scripts/histogram.py:38-42 | buckets are contiguous and increasing and range i ends at 2^(i+shift) |
| Histogram.RelativeWidth | scripts/histogram.py:38-42 | beyond range 0 the width times 2^shift is at most the start |
| Histogram.ShownIffBelow | scripts/histogram.py:31 | the script's ranges show a value if and only if it is below 2^63 |
| HistogramReport.HistogramData.Tally | include/spdk/histogram_data.h:124-131 | every bucket holds the number of datapoints tallied in it |
| HistogramReport.Total | scripts/histogram.py:24-29 | one plus the sum of the shown counts |
| HistogramReport.ReportRange | scripts/histogram.py:32-42 | bounds, count and cumulative count of every bucket of one range, continuing where the previous range ended |
| HistogramReport.Report | scripts/histogram.py:22-46 | the table of all ranges and the total |
| HistogramReport.TableIsTrue | scripts/histogram.py:26-46 | every printed count is the number of datapoints between the printed bounds, and the last cumulative count is the number below 2^63 |
| Chunked.ReadChunked | scripts/rpc_http_proxy.py:101-116 | the loop terminates on every stream and computes the decoding function |
| Chunked.RoundTrip | scripts/rpc_http_proxy.py:102-116 | any list of non-empty chunks, sizes in either case and with leading zeros, decodes to the concatenation of the data, consuming one line after the zero chunk |
| Chunked.ExtensionIsRefused | scripts/rpc_http_proxy.py:103-104 | a size line with a chunk extension is a ValueError |
| Chunked.MessageDecodes | scripts/rpc_http_proxy.py:101-116 | the result for every message that RFC 7230 allows: a ValueError if any chunk has an extension, else the data, with all trailer lines but the first left unread |
| Chunked.DecodedIff | scripts/rpc_http_proxy.py:101-116 | a message decodes to its data with nothing of it left unread if and only if no chunk, the zero chunk included, has an extension and there is no trailer |

## Left out

- Results of bdev operations: the bdev callbacks ignore `success`, so transfers of block devices are taken to succeed; read and write errors of files are modelled.
- dd_uring_poll and dd_aio_poll beyond one completion at a time: EAGAIN handling, short-transfer checks and io_getevents failures.
- dd_run for files: parsing of flags, opening, buffer allocation, and lseek failures other than "no more data".
- Populating from a file that ends inside the last block: regular files have block size one, so it does not arise.
- cont_write and cont_read with short transfers: each call moves all its bytes or fails.
- The producer overwriting ring cells while a poll copies them: a poll is one step.
- 64-bit overflow of file positions, entry counts and statistics, except where it matters: the queue depth in `Cleanup`, the length computation of the copy engine and the 16-bit ring indices.
- Perf: offsets, timing, latency statistics, warm-up printing, DIF, the NVMe and AIO backends, and the `--use-every-core` mode. Of several namespaces of one worker one is modelled; the others enter as an arbitrary choice of when the polling rounds end.
- Text parsing and printing of the memory report.
- Percentages and microseconds in the histogram script, and decoding of its base64 input.
- HTTP headers, authentication and the JSON-RPC call of the proxy.
