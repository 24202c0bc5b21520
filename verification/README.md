# Models of the SysBios-RPMsg remote processor code

This project models five parts of the software that runs on the M3 and DSP processors of an OMAP device and
on its host, and proves what every run of them keeps.

1. **Barriers and the kernels that rely on them.** `Barrier` models the sense-reversing barrier of
   `callBarrier` and `callLocalBarrier` as a state machine with two steps a call, the arrival under the lock
   and the spin; threads run arbitrary programs over arbitrary barriers. `BarrierProgress` says exactly when
   threads that follow one sequence of calls can get stuck, and `BarrierPairs` that two threads sharing a barrier
   called back to back can. `Phases` adds shared memory: between two barrier
   calls each thread performs operations that interleave freely with all others, and if threads write their
   own cells only, the memory after every segment is determined. `Sweeps` specializes this to loops over the
   rows a thread owns. Five kernels are instances or variations: Floyd-Warshall (`FloydWarshall`,
   `FloydWarshallParallel`, `ShortestWalks`), reg-detect (`RegDetect`, `RegDetectRuns`), edge detection
   (`EdgeDetect`, `EdgePixels`, `EdgeDetectRuns`), and with two M3 tasks behind a local barrier the histogram (`Histogram`,
   `HistogramStages`, `TwoLevel`, `HistogramRuns`) and the dot product (`DotProduct`, `DotProductOrder`,
   `DotProductRuns`). The number of threads, the division of the rows, the sizes and the iterations are
   parameters; ranges of rows may be empty and come in any order.
2. **The RCM client's reply delivery** (`Mailman`, `MailmanRuns`, `MessageIds`). Many callers of
   `RcmClient_getReturnMsg_P` share one queue; one of them is the mailman for all.
3. **The RCM server** (`JobServer`, `JobStreams`, `JobOrder`, `JobRuns`, `JobPools`, `JobProgress`): thread pools,
   job streams and semaphores; and its function tables (`SymbolTable`).
4. **The ARM relocator** (`ArmCodec`, `ArmFields`, `ArmBits`, `ArmRoundTrip`, `ArmKeeps`, `ArmEncodings`,
   `ArmGroups`, `RelocDriver`): the instruction-field codec in 32-bit vectors, group relocations (section 4.6.1.4 of ELF
   for the ARM Architecture) and the loops that hand entries to segments.
5. **The MMU table** genextbin generates (`MmuTable`).

`Wrappers`, `Grid` and `Arithmetic` hold what these share: sums, row-major addresses, divisions of rows, and
C's division.

Sequential code is written as methods over arrays and classes, proved against specification functions;
protocols are step relations between states, and a run is a sequence of states linked by steps. What holds in
every run is proved for each index of each run. Fields named as history (`round`, `sent`, `started`, `current`,
`serial`, `issued`) record what happened; no step depends on them.

Readings of the code that the models share:

- Barrier memory starts with counter and sense equal to the number of members, as `main` sets it for the local
  barrier (common/m3.c:394). Participants on the host are taken to follow the DSP's calls.
- A section under a lock, semaphore or gate is one step; a kernel's update of one cell is one step.
- A caller that calls several times is several callers of the model, each with its own message id; `IdsDiffer`
  says why ids outstanding together differ.
- The job list's gate is not held over the post of a pool's semaphore that follows a put. The code holds it, so
  the model has more interleavings.
- `abs` of the most negative 32-bit number, which C leaves open, is that number itself, so the overflow check
  passes it.
- Histogram fractions are exact in the code's float arithmetic for 4096 by 4096 pixels, so they are modelled
  by reals.
- Where the header comment of `RcmClient_getReturnMsg_P` says delivery never stalls, the theorem is `NoStall`:
  while a reply that was sent is not yet returned to a caller that waits, some caller can move.

## Model

| member | source | states |
|---|---|---|
| Barrier.ArriveAtBarrier | common/m3.c:258-293 | the locked part of a call joins the open round of its barrier, notes the counter value that ends it, flips the sense at the end of the range, and leaves all other barriers' words alone |
| Barrier.BarrierSafety | common/m3.c:258-318 | for any programs and any reuse, nobody leaves a round of a barrier before all members arrived at it, members are at most one round apart, and the counter stays in 0..N |
| Barrier.OpenArrived | common/m3.c:271-288 | the words of a round with k of n arrived determine the next ones, and the value spun on is reached by the n-th arrival only |
| BarrierProgress.OverStays | common/dsp.c:235-273 | a completed round's counter value stays put until its last spinner has left, unless somebody already in the next call calls the same barrier |
| BarrierProgress.NoDeadlock | common/dsp.c:235-273 | if neighbouring calls name different barriers, every reachable state is final or has a step |
| BarrierProgress.DeadlockFreeIff | common/m3.c:258-318 | threads following one sequence of calls are deadlock free if and only if there is one thread or neighbouring calls differ; otherwise a run into the deadlock exists |
| BarrierProgress.LostRoundIsStuck | common/m3.c:298-318 | when one thread re-enters a barrier before the others saw the round end, nobody moves again |
| BarrierProgress.RunLength | common/m3.c:258-296 | every run is finite: two steps for each call of each thread at most |
| BarrierPairs.PairDeadlock | common/m3.c:298-318 | in any configuration, two threads that share a barrier the first calls twice in a row, after calls common to all but the second, can deadlock |
| TwoLevel.DeadlockFreeIff | sysbios-rpmsg_histo/m3_test_omx.c:77-95 | the histogram kernel's barrier calls are deadlock free if and only if there are no iterations |
| DotProductOrder.DeadlockFreeIff | sysbios-rpmsg_dotproduct/m3_test_omx.c:32-53 | the same for the dot product's |
| Phases.Determined | sysbios-rpmsg_floydwarshall/dsp_test_omx.c:13-48 | in every state of every run all threads are in one segment and every cell holds what its owner alone would have made of the segment's first memory |
| Phases.FinalMemory | sysbios-rpmsg_floydwarshall/dsp_test_omx.c:31-51 | all completed runs end with the same memory |
| Phases.NeverStuck | sysbios-rpmsg_floydwarshall/dsp_test_omx.c:20-23 | a kernel whose neighbouring barrier calls differ can always go on until all threads end |
| Phases.RunLength | sysbios-rpmsg_floydwarshall/dsp_test_omx.c:31-51 | no schedule takes more steps than the threads' programs have |
| FloydWarshall.FillRows | sysbios-rpmsg_floydwarshall/dsp_test_omx.c:15-18 | the first loop nest sets the thread's rows to abs(i - j) and nothing else |
| FloydWarshall.RelaxRows | sysbios-rpmsg_floydwarshall/dsp_test_omx.c:24-27 | a phase's loops, in place, give the thread's cells the relaxation of the matrix the phase started with |
| FloydWarshallParallel.SegmentOutcome | sysbios-rpmsg_floydwarshall/dsp_test_omx.c:20-28 | for any division of the rows a phase relaxes the whole matrix at once |
| FloydWarshallParallel.FinalIsPhase | sysbios-rpmsg_floydwarshall/dsp_test_omx.c:13-48 | every completed run leaves the matrix of n whole phases, in the last iteration |
| ShortestWalks.PhasesAreDistances | sysbios-rpmsg_floydwarshall/dsp_test_omx.c:20-28 | n phases give the least cost of a walk, for any non-negative weights with zero diagonal |
| ShortestWalks.ParallelFloydWarshall | sysbios-rpmsg_floydwarshall/dsp_test_omx.c:13-51 | every completed run of the parallel in-place kernel leaves the shortest-walk distances, whatever the interleaving, the division and the first memory |
| ShortestWalks.AbsoluteStays | sysbios-rpmsg_floydwarshall/dsp_test_omx.c:15-27 | from the kernel's own start abs(i - j) every phase leaves the matrix as it is |
| ShortestWalks.AbsoluteEnds | sysbios-rpmsg_floydwarshall/dsp_test_omx.c:13-48 | every completed run of the kernel leaves abs(i - j) at i * n + j |
| ShortestWalks.AbsoluteRuns | sysbios-rpmsg_floydwarshall/dsp_test_omx.c:13-48 | in every state of every run a cell holds its first value or abs(i - j), and for n up to 2^30 it and the sums a phase compares fit 32 bits |
| ShortestWalks.FloydWarshallEnds | sysbios-rpmsg_floydwarshall/dsp_test_omx.c:20-23 | no run of the kernel gets stuck |
| Sweeps.SegmentOutcome | sysbios-rpmsg_regdetect/dsp_test_omx.c:13-66 | a segment in which threads sweep over their own rows acts on the memory as if it had one owner |
| Sweeps.EveryValue | sysbios-rpmsg_regdetect/dsp_test_omx.c:13-66 | in every state of every run an address holds what some number of passes makes of the segment's first memory |
| RegDetect.FillTables | sysbios-rpmsg_regdetect/dsp_test_omx.c:13-18 | sum_tang of the thread's rows is (i + 1)(j + 1), mean is (i - j) / n and path is i(j - 1) / n, both cut off toward zero, and no others change |
| RegDetect.CopyTangs | sysbios-rpmsg_regdetect/dsp_test_omx.c:20-25 | every diff value of a cell on or right of the diagonal is the cell's sum_tang |
| RegDetect.Accumulate | sysbios-rpmsg_regdetect/dsp_test_omx.c:31-38 | sum_diff holds the running sums of one cell and its mean is LENGTH times the value |
| RegDetect.SumDiffs | sysbios-rpmsg_regdetect/dsp_test_omx.c:27-40 | the means of the thread's rows on and right of the diagonal are LENGTH(j + 1)(i + 1), the others stay |
| RegDetect.SumColumns | sysbios-rpmsg_regdetect/dsp_test_omx.c:45-54 | tmp of the thread's rows holds the sums of mean down the diagonals |
| RegDetect.CopyPaths | sysbios-rpmsg_regdetect/dsp_test_omx.c:60-66 | path of the thread's rows is tmp of row i - j |
| RegDetect.DiagonalIsWeights | sysbios-rpmsg_regdetect/dsp_test_omx.c:45-54 | a diagonal of complete means adds up to LENGTH times the sum of (x + 1)(d + x + 1) |
| RegDetect.WeightsClosed | sysbios-rpmsg_regdetect/dsp_test_omx.c:45-66 | that sum over 0..j is (j + 1)(j + 2)(2j + 3 + 3d) / 6 |
| RegDetectRuns.PathsAreRecurrence | sysbios-rpmsg_regdetect/dsp_test_omx.c:13-96 | every completed run satisfies path[0][i] = mean[0][i] and path[j][i] = path[j-1][i-1] + mean[j][i] for i >= j, and the closed form, for any division and interleaving |
| RegDetectRuns.LeftOfDiagonal | sysbios-rpmsg_regdetect/dsp_test_omx.c:13-66 | left of the diagonal every completed run leaves 0 in mean and the starting quotient in path, 0 in column 0 |
| RegDetectRuns.NoOverflow | sysbios-rpmsg_regdetect/dsp_test_omx.c:3-66 | for grids up to 64 and LENGTH up to 2048 no state of any run holds a value outside 32 bits |
| RegDetectRuns.RunningSumFits | sysbios-rpmsg_regdetect/dsp_test_omx.c:31-36 | nor do the running sums in sum_diff |
| RegDetectRuns.RegDetectEnds | sysbios-rpmsg_regdetect/dsp_test_omx.c:42-56 | no run of the kernel gets stuck |
| EdgeDetect.Initialize | sysbios-rpmsg_edgedetect/dsp_test_omx.c:21-39 | the thread's rows of the buffers are i + j, 0 and 0, the others stay |
| EdgeDetect.SetFilter | sysbios-rpmsg_edgedetect/dsp_test_omx.c:91-124 | the filter gets the given kernel |
| EdgeDetect.Convolve2d | sysbios-rpmsg_edgedetect/dsp_test_omx.c:43-89 | exactly the pixels in the loops' range become the sum of their 3 by 3 neighbourhood over the normal factor, cut off toward zero |
| EdgeDetect.ApplyThreshold | sysbios-rpmsg_edgedetect/dsp_test_omx.c:126-143 | the thread's rows are 255 where the larger magnitude exceeds the threshold, else 0 (127, by `EdgePixels.EdgeIff`) |
| EdgeDetect.ConvolutionBounded | sysbios-rpmsg_edgedetect/dsp_test_omx.c:65-87 | convolution never increases the largest magnitude, for every kernel |
| EdgeDetect.StagesBounded | sysbios-rpmsg_edgedetect/dsp_test_omx.c:189-222 | no pixel of the filtered images exceeds twice the image's side |
| EdgeDetect.HaloWritesOwnRows | sysbios-rpmsg_edgedetect/dsp_test_omx.c:62-89 | asked for its rows and one halo row on each side that has one, a thread writes exactly the inner pixels of its own rows |
| EdgeDetect.DetectEdges | sysbios-rpmsg_edgedetect/dsp_test_omx.c:190-222 | one processor with the whole image computes the pipeline: both filtered images and the edges |
| Arithmetic.TruncDivTruncates | sysbios-rpmsg_edgedetect/dsp_test_omx.c:86 | the quotient leaves a remainder smaller than the divisor and of the dividend's sign, as C's division does |
| EdgePixels.GaussianPixel | sysbios-rpmsg_edgedetect/dsp_test_omx.c:65-103 | the Gaussian filter weighs a pixel 4, its sides 2 and its corners 1, over 16, cut off toward zero |
| EdgePixels.SobelPixels | sysbios-rpmsg_edgedetect/dsp_test_omx.c:65-124 | the Sobel filters take one side from the opposite one, the middle twice, over 8, cut off toward zero |
| EdgePixels.EdgeIff | sysbios-rpmsg_edgedetect/dsp_test_omx.c:126-143 | a pixel is 255 if and only if one of the filtered images exceeds 127 there, either way |
| EdgePixels.BorderPixels | sysbios-rpmsg_edgedetect/dsp_test_omx.c:189-222 | on the border the blurred and the horizontal image are 0 and the vertical one keeps i + j |
| EdgePixels.BlurKeepsRamp | sysbios-rpmsg_edgedetect/dsp_test_omx.c:189-222 | blurring leaves the inner pixels of the kernel's own image as they are |
| EdgePixels.NoEdgesInside | sysbios-rpmsg_edgedetect/dsp_test_omx.c:189-222 | two pixels and more from the border both filtered images are -1 and there is no edge |
| EdgePixels.EdgesBesideBorder | sysbios-rpmsg_edgedetect/dsp_test_omx.c:189-222 | beside the left border there is an edge exactly from row 254 on |
| EdgeDetectRuns.TiledIsWhole | sysbios-rpmsg_edgedetect/dsp_test_omx.c:189-222 | every completed run of all threads leaves the same three images as the whole-image pipeline, for any division and interleaving |
| EdgeDetectRuns.ValuesStayInRange | sysbios-rpmsg_edgedetect/dsp_test_omx.c:189-222 | in every state of every run a pixel holds its first value or one of magnitude at most 2n or 255 |
| EdgeDetectRuns.RunningSumsFit | sysbios-rpmsg_edgedetect/dsp_test_omx.c:80-85 | past the first barrier the convolutions' running sums are bounded by the kernel's weight, and for n up to 2^24 fit 32 bits |
| EdgeDetectRuns.EdgeDetectEnds | sysbios-rpmsg_edgedetect/dsp_test_omx.c:194-219 | no run of the kernel gets stuck |
| Histogram.ComputeHisto | sysbios-rpmsg_histo/dsp_test_omx.c:10-33 | fills the thread's rows and counts their levels |
| Histogram.ComputeGrayLevelMapping | sysbios-rpmsg_histo/m3_test_omx.c:49-69 | from the threads' completed histograms, the mapping from the cumulative distribution of the whole image |
| Histogram.ComputeImage | sysbios-rpmsg_histo/m3_test_omx.c:35-47 | the thread's pixels are mapped, the others stay |
| Histogram.SharesMakeWhole | sysbios-rpmsg_histo/m3_test_omx.c:54-61 | the threads' histograms add up to the image's |
| Histogram.MapIsEqualizing | sysbios-rpmsg_histo/m3_test_omx.c:63-68 | the mapping is non-decreasing, within 0..255, and ends at 255 |
| Histogram.MapIsShare | sysbios-rpmsg_histo/m3_test_omx.c:63-68 | the new level of v is 255 times the number of pixels of level v or less over the number of pixels, rounded down, where pixel c has level (c / n)(c % n) % 255 |
| HistogramRuns.HistogramsComplete | sysbios-rpmsg_histo/m3_test_omx.c:71-95 | in any reachable state in which a processor adds up histograms, every thread's is complete, the second M3 task's included |
| HistogramRuns.MapsWholeImage | sysbios-rpmsg_histo/m3_test_omx.c:49-95 | in every run each processor's sums are taken over histograms that make up the whole image's |
| HistogramRuns.PaintsWithMap | sysbios-rpmsg_histo/dsp_test_omx.c:91-99 | in every run whoever maps pixels uses the equalizing mapping, the same on all processors |
| HistogramRuns.EqualizedImage | sysbios-rpmsg_histo/m3_test_omx.c:71-95 | every completed run leaves in each thread's rows the equalized image: of 255, the share of the pixels that are as bright as that pixel was at first or less |
| DotProduct.DotSlice | sysbios-rpmsg_dotproduct/m3_test_omx.c:5-22 | a slice's product modulo 2^32 |
| DotProduct.ProductsMakeWhole | sysbios-rpmsg_dotproduct/dsp_test_omx.c:15-23 | the slices' products add up to the whole one |
| DotProduct.ProductClosed | sysbios-rpmsg_dotproduct/m3_test_omx.c:5-22 | the whole product is the sum of the squares below n, n(n - 1)(2n - 1) / 6 |
| DotProductOrder.RoundsAreClose | sysbios-rpmsg_dotproduct/m3_test_omx.c:32-53 | the three global barriers' rounds stay in step |
| DotProductRuns.ResultIsProduct | sysbios-rpmsg_dotproduct/m3_test_omx.c:32-53 | in every run, from the m-th exit from barrier 2 until the last processor reaches its next barrier 0, result[0] is n(n - 1)(2n - 1) / 6 modulo 2^32, whatever the order of the additions |
| Mailman.Mailbox.Collect | common/src/ti/grcm/RcmClient.c:1416-1426 | takes the first packet with the caller's id out of newMail, and only that |
| Mailman.Mailbox.Deliver | common/src/ti/grcm/RcmClient.c:1504-1525 | puts the packet in its owner's record and signals it, or at the end of newMail |
| Mailman.Mailbox.HandOver | common/src/ti/grcm/RcmClient.c:1472-1483 | signals the first recipient without a message, if there is one |
| Mailman.MailIsFirst | common/src/ti/grcm/RcmClient.c:1416-1426 | no packet before the one taken has the caller's id |
| Mailman.OwnerIsFirst | common/src/ti/grcm/RcmClient.c:1504-1525 | no recipient listed before the packet's owner has its id |
| Mailman.UnservedIsFirst | common/src/ti/grcm/RcmClient.c:1472-1483 | all recipients listed before the one signalled have a message |
| MailmanRuns.RepliesConserved | common/src/ti/grcm/RcmClient.c:1407-1625 | every reply sent is in exactly one place, is returned only to the caller with its id, and a listed caller's reply is never in newMail |
| MailmanRuns.NobodyForgotten | common/src/ti/grcm/RcmClient.c:1443-1625 | while a recipient is unserved and unsignalled, some caller is the mailman or is on its way to try |
| MailmanRuns.NoStall | common/src/ti/grcm/RcmClient.c:1377-1383 | while a caller's reply was sent and not returned, some caller can move |
| MailmanRuns.EveryReplyArrives | common/src/ti/grcm/RcmClient.c:1384-1630 | when nobody can move, every caller whose reply was sent has returned with it |
| MailmanRuns.RunLength | common/src/ti/grcm/RcmClient.c:1407-1625 | every run has at most 12 steps for each caller, so delivery cannot go on for ever without delivering |
| MessageIds.Ids.GenMsgId | common/src/ti/grcm/RcmClient.c:1349-1364 | the next id of the cycle 1..65535 |
| MessageIds.IdsDiffer | common/src/ti/grcm/RcmClient.c:1349-1364 | fewer than 65535 messages apart, ids differ, and none is 0 |
| JobServer.JobStream.Dispatch | common/src/ti/grcm/RcmServer.c:1479-1497 | a message goes to the ready queue exactly if the stream was empty, which it then is not; else to the end of the job's queue |
| JobServer.JobStream.Continue | common/src/ti/grcm/RcmServer.c:2413-2478 | the head of the job's queue is passed on exactly if the low byte of its pool id is less than the number of pools, else handed back and kept in hand; the stream becomes empty exactly if the queue is |
| JobServer.JobIds.Acquire | common/src/ti/grcm/RcmServer.c:1327-1381 | the first id after the last one, in the cycle 1..65535, that no live job has; none exactly if all are taken |
| JobServer.LaterSteps | common/src/ti/grcm/RcmServer.c:1328-1331 | the cycle goes up by one and from 65535 to 1 |
| JobRuns.Serial | common/src/ti/grcm/RcmServer.c:2378-2480 | at most one message of a live job is on any ready queue or being executed |
| JobRuns.ReuseCollidesIff | common/src/ti/grcm/RcmServer.c:1327-1375 | when an id is used again, the new stream's first message is on its way together with an old one if and only if an old one was still on a ready queue or being executed |
| JobRuns.TakesInOrder | common/src/ti/grcm/RcmServer.c:2364-2382 | a worker that takes up a live job's message takes up the next one in the order of sending, whatever the pools |
| JobRuns.SentInOrder | common/src/ti/grcm/RcmServer.c:1444-1500 | what was sent to a job is what was taken up, then at most one message on its way, then the job's queue |
| JobRuns.EmptyMeansIdle | common/src/ti/grcm/RcmServer.c:1480-1497 | empty holds exactly when no message of the job is on its way, and then none is queued |
| JobRuns.QueuedNamesPool | common/src/ti/grcm/RcmServer.c:2425-2428 | every queued job message's pool id has a low byte less than the number of pools |
| JobPools.OnOwnPool | common/src/ti/grcm/RcmServer.c:1742-1747 | in every state of every run a packet on pool i's ready queue, or executed by a worker of pool i, has i as the low byte of its pool id |
| JobPools.RefusesExactly | common/src/ti/grcm/RcmServer.c:1430-1500 | dispatch refuses a discrete message or one of a live job exactly if the low byte of its pool id is no pool's index; an accepted discrete message joins the end of that pool's queue |
| JobPools.ReadyIsFifo | common/src/ti/grcm/RcmServer.c:1447-1491 | every step leaves a pool's ready queue, adds one packet at its end, or moves its head to a worker of the pool |
| JobRuns.NoRerun | common/src/ti/grcm/RcmServer.c:2429-2461 | so the branch that returns a message and would execute it again is never taken |
| JobRuns.ReadyIsPaidFor | common/src/ti/grcm/RcmServer.c:1447-1491 | a ready queue's length is the semaphore's count, the workers woken and not yet dequeued, and the puts not yet posted |
| JobRuns.NoEmptyWake | common/src/ti/grcm/RcmServer.c:2347-2373 | a woken worker never finds an empty queue |
| JobProgress.EveryMessageRuns | common/src/ti/grcm/RcmServer.c:2317-2482 | left alone the workers stop after a bounded number of steps, and then every message sent to a live job has been executed, in order |
| SymbolTable.Symbols.GetNextKey | common/src/ti/grcm/RcmServer.c:1705-1726 | the next key is 2047 after 0 and 1, else one less |
| SymbolTable.KeyCycle | common/src/ti/grcm/RcmServer.c:1714-1720 | keys issued fewer than 2047 apart differ, and 2047 later the same key comes again |
| SymbolTable.Symbols.FindSlot | common/src/ti/grcm/RcmServer.c:1134-1174 | finds an empty slot, allocating the next table if need be; fails exactly if all tables are full |
| SymbolTable.Symbols.AddSymbol | common/src/ti/grcm/RcmServer.c:1176-1212 | the symbol is added under the next key, its index key * 2^20 + table * 2^12 + offset; reports full exactly if all slots are taken, and then changes nothing |
| SymbolTable.Sizes | common/src/ti/grcm/RcmServer.c:1137-1146 | the eight dynamic tables have 8160 slots together |
| SymbolTable.Symbols.GetSymIdx | common/src/ti/grcm/RcmServer.c:1661-1689 | the index of the first slot with the name, static symbols first; not found exactly if there is none |
| SymbolTable.Symbols.RemoveSymbol | common/src/ti/grcm/RcmServer.c:1220-1270 | clears the first slot with the name; refuses exactly an unknown name and one a static symbol has, changing nothing |
| SymbolTable.Symbols.GetFxnAddr | common/src/ti/grcm/RcmServer.c:1583-1640 | a dynamic index is good exactly if its slot exists and carries its key, a static one exactly if its offset lies in the table; it gives the slot's address, or none at offset 0 of a dynamic table |
| SymbolTable.DistinctIndices | common/src/ti/grcm/RcmServer.c:1190-1193 | symbols present together have different indices |
| SymbolTable.LiveResolves | common/src/ti/grcm/RcmServer.c:1603-1640 | a dynamic symbol's index gives its own address exactly if its offset is not 0 |
| SymbolTable.StaleIndex | common/src/ti/grcm/RcmServer.c:1616-1621 | an index issued for a slot is accepted later exactly if the slot has a symbol whose key was issued a whole number of 2047-long cycles after |
| SymbolTable.IndexOverTime | common/src/ti/grcm/RcmServer.c:1134-1264 | the same over every run of additions and removals |
| SymbolTable.RefusedOnceReused | common/src/ti/grcm/RcmServer.c:1583-1640 | over every run, an index is refused once its slot is cleared, or taken again under a key issued fewer than 2047 later |
| ArmFields.RelField.WriteRelocR | common/src/utils/elfload/arm_reloc.c:315-866 | the word after the in-place edits for each relocation type |
| ArmFields.RelField.Relocate | common/src/utils/elfload/arm_reloc.c:1189-1203 | after the field is relocated in place it holds the value as its encoding says, every bit outside the field is as before, and reading it gives the value back exactly if the field can hold it |
| ArmRoundTrip.RoundTrip | common/src/utils/elfload/arm_reloc.c:315-1567 | for every type, word, value and symbol: unpacking the relocated field gives the value back if and only if the field can hold it |
| ArmRoundTrip.MovReads | common/src/utils/elfload/arm_reloc.c:872-1013 | MOVW carries the lower half of every value, MOVT its upper half, both read back as signed 16-bit numbers |
| ArmRoundTrip.SignedRanges | common/src/utils/elfload/arm_reloc.c:1220-1567 | the field widths as ranges of signed numbers |
| ArmRoundTrip.OverflowRanges | common/src/utils/elfload/arm_reloc.c:1020-1068 | the values reported as an overflow, by range for each type |
| ArmKeeps.KeepsOtherBits | common/src/utils/elfload/arm_reloc.c:315-866 | relocating a field leaves every other bit of the word as it was |
| ArmEncodings.RelocatedExactly | common/src/utils/elfload/arm_reloc.c:315-866 | the relocated word is the one word whose field holds the value as the type's encoding says, position by position, and whose other bits are the old ones |
| ArmEncodings.CallConverted | common/src/utils/elfload/arm_reloc.c:352-392 | a call of Thumb code gets the top bits of BLX, a BL becomes a BLX whose bit 24 is the value's bit 1, and a call of ARM code keeps its top byte unless it is a BLX |
| ArmEncodings.ThumbCallConverted | common/src/utils/elfload/arm_reloc.c:401-444 | bit 28 of a Thumb call is cleared exactly for an ARM target, which makes it a BLX |
| ArmGroups.RelAluMaskOffset | common/src/utils/elfload/arm_reloc.c:195-209 | the offset the loop finds, a function of the value that `MaskOffsetLaw` pins |
| ArmGroups.MaskOffsetLaw | common/src/utils/elfload/arm_reloc.c:195-209 | with t the highest bit from 8 up, or 7, the offset is t - 7 moved up to clear its bit 1, by 2 from an even number and by 1 from an odd one |
| ArmGroups.RelMaskForGroup | common/src/utils/elfload/arm_reloc.c:217-236 | the chunk of the group, or what the groups before left if the instruction concludes the sequence |
| ArmGroups.ChunkPlaced | common/src/utils/elfload/arm_reloc.c:226-231 | a chunk lies in the eight bits from the offset on and what it leaves lies below them |
| ArmGroups.GroupsAddUp | common/src/utils/elfload/arm_reloc.c:217-236 | for every offset the group 0 and group 1 chunks and the residual at group 2 have no bit in common and add up to it |
| ArmGroups.ResidualsShrink | common/src/utils/elfload/arm_reloc.c:217-236 | one group leaves less than 2^24, two less than 2^16 |
| RelocDriver.ProcessRelTable | common/src/utils/elfload/arm_reloc.c:1572-1662 | handles the first run of entries in the segment at or after the cursor, which starts over past the end, and leaves the cursor behind it |
| RelocDriver.ProcessGotRelocs | common/src/utils/elfload/arm_reloc.c:1812-1851 | the entries handled over all file-backed segments with the cursor carried along |
| RelocDriver.EachOnceIff | common/src/utils/elfload/arm_reloc.c:1579-1661 | with disjoint segments every entry in a file-backed segment is handled exactly once if and only if each segment's entries stand together and, of each two neighbouring file-backed segments, the first has no entries, or the table's last one, or all before the second's |
| RelocDriver.VisitedOnce | common/src/utils/elfload/arm_reloc.c:1584-1660 | with disjoint segments, in any order, no entry is handled twice and none outside the file-backed segments |
| RelocDriver.EachOnce | common/src/utils/elfload/arm_reloc.c:1812-1851 | so with entries grouped in segment order every entry in a file-backed segment is handled exactly once and no other is |
| RelocDriver.OutOfOrderIsMissed | common/src/utils/elfload/arm_reloc.c:1584-1658 | a table outside that condition, and the entry it misses |
| MmuTable.AddMemEntry | common/src/utils/genextbin.c:205-230 | the entry goes to the first free place; fails exactly if there is none, changing nothing |
| MmuTable.VaToPa | common/src/utils/genextbin.c:235-252 | the translation by the first entry that holds the address |
| MmuTable.LookupLaw | common/src/utils/genextbin.c:240-248 | the first region [va, va + len) that holds the address gives pa plus the offset in it; nothing exactly if none does |
| MmuTable.UsedLaw | common/src/utils/genextbin.c:240 | the lookup looks at the entries before the first of length 0 |
| MmuTable.CreateTtb | common/src/utils/genextbin.c:280-336 | terminates, and every slot holds the word of its 1M block for the last congruent entry that covers it, a supersection if that entry covers its 16M congruently, or zero |
| MmuTable.TableShape | common/src/utils/genextbin.c:304-320 | every word is zero or ends in binary 10; with bit 18 set its low 24 bits are 0x40002, else its low 20 bits 0x00002; bit 18 is set exactly if the last entry that can map the block covers its aligned 16M, in the same place on both sides |
| MmuTable.TableAgrees | common/src/utils/genextbin.c:235-336 | for disjoint entries the table, read by bit 18 as the MMU does, sends an address where the lookup does if and only if its block lies inside a congruent entry or no entry holds it; other slots are zero |
| MmuTable.AlignedTableAgrees | common/src/utils/genextbin.c:235-336 | with 1M-aligned entries the table and the lookup agree for every address |
| MmuTable.ProgrammedIsUsed | common/src/utils/genextbin.c:240-290 | the table generator and the lookup use the same entries if and only if all those the lookup uses have a physical address |

## Left out

- BarrierProgress.NoDeadlock: progress is claimed for threads that all follow one sequence of calls. The local barrier is called back to back, and then some run deadlocks (`TwoLevel.DeadlockFreeIff`, `DotProductOrder.DeadlockFreeIff`), so for the histogram and dot product kernels only safety is claimed.
- RegDetectRuns.PathsAreRecurrence: sum_tang, diff and sum_diff, which only the thread that owns a row reads, are not part of the shared memory; the methods of `RegDetect` prove what the loops over them give. A cell's starting mean and path are written in one step.
- EdgeDetectRuns.TiledIsWhole: a pixel of all three buffers is initialized in one step, and the global filter is the constant kernel in force.
- Histogram.ComputeGrayLevelMapping: the histograms are numbered by thread; which buffer a thread has does not matter to their sum.
- DotProductRuns.ResultIsProduct: the vectors' contents are those DotSlice proves; the run model multiplies i by i.
- SymbolTable.Symbols.GetFxnAddr: an offset beyond the end of a dynamic table is refused here; the code reads the memory behind the table. Indices the server hands out have no such offset.
- SymbolTable.Symbols.AddSymbol: allocations succeed.
- JobServer.GetPool: pool ids with bit 15 clear name dynamic pools, for which the code sets no pool; only static pools are modelled.
- JobStreams.Acquire: in the runs an id is acquired again only when no message on its way carries it, which the code does not check; `ReuseCollidesIff` says what happens otherwise. Messages that a worker returns are sent without IPC errors.
- MmuTable.CreateTtb: entries are page-aligned regions inside 32-bit spaces; for others the code's search for a page size fails. Alignment is expressed by remainders, not masks.
- RelocDriver.ProcessRelTable: symbol lookup always succeeds, and endianness is not changed; process_rela_table has the same loop.
- ArmRoundTrip.RoundTrip: THM_JUMP19, PREL31, the ALU_PC immediates, THM_ALU_PREL_11_0, LDC and PLT32 do not read back as written and are not among the types. JUMP24 in a word that begins with 0xFB reads bit 24 as half a word; the condition has that case.
- ArmGroups.RelAluMaskOffset: the alignment is as coded, odd offsets included; the even rotation the standard asks for is not claimed.
- Kernels compute in unbounded integers except the dot product; Floyd-Warshall's sums are bounded for the kernel's own start only.
- Server shutdown, in-band processing, the MessageQCopy build (whose packets share one buffer), IPC and allocation errors.
- Transport, tasks, events, caches and spinlock internals: queues are FIFO, list operations atomic, locks correct.
- The M3 versions of floydwarshall, regdetect and edgedetect, whose second task the global barrier does not fully cover.
- Matrix multiply, doitgen, the optimized and unoptimized copies, service manager, name map, power, watchdog, resource tables and host programs: nothing hard is added.
