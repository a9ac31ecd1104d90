# OQTOPUS engine: a verified model of its core

This project models the parts of the OQTOPUS engine that decide whether a user gets the
right numbers back, and proves laws about them for every input, every run and every
interleaving.

| part | files |
|---|---|
| Multi-programming: combine circuits, measure once, divide the result again | `Collections`, `Bits`, `Histograms`, `QubitMapping`, `CircuitCombiner`, `Measurement`, `VirtualOrder`, `SwapOrders`, `KeyCutting`, `ResultDivider`, `Demultiplexing`, `RoundTrip`, `TranspilerMapping` |
| The scheduler: handlers, queue, worker and record consumer as a transition system | `Jobs`, `Scheduler`, `SchedulerInvariant`, `SchedulerTheorems`, `SchedulerProgress`, `SchedulerHistory`, `SchedulerPostProcessing`, `SchedulerReports`, `SchedulerEndings`, `SchedulerCrashes`, `SchedulerTraces`, `SchedulerRefusals`, `SchedulerRuns`, `SchedulerSse` |
| The poller's back-off machine and its ticker | `Poller` |
| The device-information cache, mitigated counts and estimation layouts | `DeviceCache`, `Mitigation`, `Layout` |

How to read the model:

- **Loops over Go maps and Python sets** pick the next element arbitrarily, so a contract on
  such a method holds for every iteration order.
- **Histograms** are maps from keys to counts. `Push(c, f)` relabels every key of `c` by `f`
  and adds up what falls together; `Hist` is the histogram of a sequence of shots. The swap
  is a relabelling by a permutation of bit positions and the division one relabelling per
  circuit, so round trips and conservation follow from the laws of `Push`.
- **Bit `i` of a key** is counted from its right end (`Bit`), as the keys are little-endian.
- **The scheduler** is a step relation. A state holds any number of handlers with their
  program counters, the queue goroutine, the FIFO, the worker and the record in the
  consumer's hands. An event is one step of one goroutine between two synchronisation
  points. Outcomes of the job methods, panics included, are part of the event. The two
  channels are unbuffered, so a send needs an idle receiver.

What the proofs say about the code beyond its own documentation:

- The divider takes combined bit b to be measured from virtual qubit b, but the combiner
  counts qubits and classical bits separately. Results are divided correctly under every
  mapping exactly when there is at most one classical bit, or every circuit measures its
  qubit c into its bit c and every circuit followed by one with classical bits measures all
  its qubits. For any other circuits some injective mapping gives some circuit a wrong
  histogram. With a two-qubit, one-bit circuit next to a one-qubit, one-bit circuit the two
  outcomes can be exchanged (`RoundTrip.OutcomesExchanged`). For one given mapping the exact
  condition is that the measured qubits lie on the device in the same order as the virtual
  qubits of their bits' numbers (`RoundTrip.Aligned`).
- The swap succeeds exactly when the mapping is empty, or there are no counts, or all keys
  have one length n and the mapping lists the virtual qubits 0..n-1. The "physical qubit out
  of range" error can never occur.
- When two measured virtual qubits share a physical one, the leading bit of a key is never
  read, keys merge, and the plain assignment at line 120 of `result_divider.go` loses shots.
  Totals are kept for all histograms, and the result is independent of the iteration
  order, exactly when the mapping is injective.
- A missing `TranspilerInfo` panics at line 157 of `result_divider.go`, before the nil check
  at line 164.
- A bad length list is reported as an error, except that a negative length, or a running
  sum past 2^31 - 1, makes the slice expression panic (`KeyCutting.Panics` is the exact
  condition). The key's own length is compared as a 32-bit integer, so a key of 2^31
  characters or more is refused even when the lengths add up to it.
- A job refused by a full queue leaves its handler waiting for good. Among n arrivals that
  can happen exactly if n is greater than the queue size (or than 0, for a size below 0):
  the queue fills up when the worker does not keep pace. It is the only way to get stuck: otherwise a non-SSE job is done after at most 23 events.
- A job whose `PreProcess` panics is published without the job-info flag, so its FAILED
  status is never sent to the cloud; every other job that arrives READY and ends is reported
  (SSE and unknown types aside).
- A job whose `Process` panics ends FAILED, unless it is an Estimation job: that one is
  still post-processed and may end SUCCEEDED.
- An SSE job may turn READY again after processing, and is then reported as running once
  per pass, without bound.
- The poller never falls idle on the first empty poll, whatever the retry limit: the
  threshold is max(2, MaxRetry). The poll made at start-up never resets the ticker.
- If one device update fails while another succeeds, the cache records the new information
  anyway, and polling the same information again never repairs the remote.
- `getNumOfQubits` restarts its comparison after an empty key, so its answer depends on the
  iteration order exactly when the counts hold the empty key next to other keys that all
  share one length.
- A completed estimation layout is a permutation of the circuit's qubits exactly when the
  mapping list is empty, or free of duplicates with the circuit's last qubit as its highest
  entry.

## Model

| member | source | states |
|---|---|---|
| CircuitCombiner.CombineCircuits | circuit_combiner/src/circuit_combiner/circuit_combiner.py:153-204 | Failure exactly if a program does not load, or the qubits fit and exporting raises; success exactly if all load, the qubits fit in max(limit, 0) and exporting works; on success the list is the reversed list of classical-bit counts and each circuit starts where the previous ones end |
| CircuitCombiner.PlaceCircuits | circuit_combiner/src/circuit_combiner/circuit_combiner.py:177-193 | Circuit i is placed on the qubits and classical bits right after those of circuits 0..i-1; the accumulated list is the reversed bit counts |
| CircuitCombiner.CombinedKeyIsLaidOut | circuit_combiner/src/circuit_combiner/circuit_combiner.py:181-189 | Writing the circuits' outcomes last circuit first puts bit c of circuit i at combined bit offset(i) + c |
| CircuitCombiner.ReversedPrefix | circuit_combiner/src/circuit_combiner/circuit_combiner.py:190-193 | Prefix sums of the reversed list count from the other end of the original one |
| CircuitCombiner.CutRecoversOutcome | coreapp/multiprog/manual/resultdivider/result_divider.go:125-144 | Cutting a combined key by the reversed list fits, and the part counted from the end gives circuit j its own outcome |
| Measurement.SourcesAreQubits | circuit_combiner/src/circuit_combiner/circuit_combiner.py:177-193 | One source qubit per combined classical bit, all different and inside the combined circuit |
| Measurement.SourceAt | circuit_combiner/src/circuit_combiner/circuit_combiner.py:181-189 | Bit c of circuit i is measured from the qubit its circuit measures, shifted by the qubits of the circuits before |
| Measurement.SourcesFollowPlacement | circuit_combiner/src/circuit_combiner/circuit_combiner.py:182-186 | The source of a combined bit is the placed qubit of the placed bit, for the placement the combiner makes |
| Measurement.FullIff | circuit_combiner/src/circuit_combiner/circuit_combiner.py:187-189 | The two running offsets agree exactly if every circuit so far measures all its qubits |
| Measurement.StraightIffInOrder | circuit_combiner/src/circuit_combiner/circuit_combiner.py:177-193 | Combined bit b comes from combined qubit b for all b, iff every circuit measures qubit c into bit c and every circuit followed by one with bits measures all its qubits |
| QubitMapping.SameWiresIffSameOrder | coreapp/multiprog/manual/resultdivider/result_divider.go:32-42 | Two injective mappings read the same bits of every key iff they place the qubits in the same order |
| QubitMapping.PhysicalsSize | coreapp/multiprog/manual/resultdivider/result_divider.go:88-92 | n virtual qubits use at most n physical ones, and exactly n iff the mapping is injective on them |
| QubitMapping.WireInjective | coreapp/multiprog/manual/resultdivider/result_divider.go:105-119 | On an injective mapping no two virtual qubits read the same bit of the key |
| QubitMapping.WireOnto | coreapp/multiprog/manual/resultdivider/result_divider.go:105-119 | On an injective mapping every bit of the key is read by some virtual qubit |
| QubitMapping.ReorderInjective | coreapp/multiprog/manual/resultdivider/result_divider.go:104-120 | On an injective mapping the swap of keys is injective |
| QubitMapping.WireSkipsLeadingBit | coreapp/multiprog/manual/resultdivider/result_divider.go:32-42 | If two measured qubits share a physical one, nobody reads the leading bit |
| QubitMapping.ReorderMerges | coreapp/multiprog/manual/resultdivider/result_divider.go:104-120 | Then keys that differ in the leading bit only are swapped to one and the same key |
| QubitMapping.ReorderUndoesReadout | coreapp/multiprog/manual/resultdivider/result_divider.go:74-78 | Swapping the readout in physical-qubit order of a virtual-order key gives that key back |
| QubitMapping.ReadoutUndoesReorder | coreapp/multiprog/manual/resultdivider/result_divider.go:74-78 | Reading out a swapped key in physical-qubit order gives the original key back |
| VirtualOrder.MaxPhysical | coreapp/multiprog/manual/resultdivider/result_divider.go:23-29 | The largest listed qubit, or 0 |
| VirtualOrder.FillMissingDigits | coreapp/multiprog/manual/resultdivider/result_divider.go:16-44 | Refused exactly on a length mismatch; otherwise, duplicates included, never reads outside the input, and each listed position holds the input bit of its rank, every other position 0 |
| VirtualOrder.ExtractVirtualPhysicalMapping | coreapp/multiprog/manual/resultdivider/result_divider.go:51-72 | The entries in use are those below the length of some key of the counts, or all of them if there are too few |
| VirtualOrder.KeepBelow | coreapp/multiprog/manual/resultdivider/result_divider.go:61-67 | Exactly the entries of virtual qubits below the bit count, whatever the order |
| VirtualOrder.ExtractedCovers | coreapp/multiprog/manual/resultdivider/result_divider.go:59-71 | The entries in use have domain exactly 0..n-1 iff the given mapping covers 0..n-1 |
| VirtualOrder.ListPhysicals | coreapp/multiprog/manual/resultdivider/result_divider.go:88-92 | One list element per entry, together exactly the mapping's values |
| VirtualOrder.PlaceBits | coreapp/multiprog/manual/resultdivider/result_divider.go:105-119 | Succeeds exactly if every virtual qubit is below the key length; then cell n-1-v holds the padded bit of v's physical qubit; the physical check never fires |
| VirtualOrder.SwapKey | coreapp/multiprog/manual/resultdivider/result_divider.go:94-120 | A key is accepted iff the entries in use have domain 0..n-1 for its length n; then every cell is written and the result is the reordered key of the same length; which error otherwise |
| VirtualOrder.SwapKeys | coreapp/multiprog/manual/resultdivider/result_divider.go:94-122 | All keys or none; on success every key moves to its reordering and, where keys merge, one of their counts survives; a refusal names the fault of some key: its length differs from the number of entries in use, or equals it and an entry lies outside the key |
| VirtualOrder.SwapVirtualPhysical | coreapp/multiprog/manual/resultdivider/result_divider.go:78-123 | Succeeds iff the mapping is empty or all keys share a length the mapping covers, in every iteration order; never fails for a physical qubit out of range; hands the input back on error, with the fault of some key for the entries in use |
| VirtualOrder.UniformSwapError | coreapp/multiprog/manual/resultdivider/result_divider.go:18-21 | With keys of one length n a refusal is a length mismatch iff the number of entries in use is not n, and otherwise a virtual qubit out of range |
| VirtualOrder.FilledBits | coreapp/multiprog/manual/resultdivider/result_divider.go:33-42 | A listed position holds the input bit indexed by the number of listed qubits below it, any other position 0 |
| KeyCutting.DivideStringByLengths | coreapp/multiprog/manual/resultdivider/result_divider.go:125-144 | Cuts iff the lengths are non-negative and add up to the key, into the consecutive parts, lengths and key length being 32-bit; panics iff the first part that does not fit goes back inside the key or ends past 32 bits; otherwise an error |
| KeyCutting.WholeKeyFits | coreapp/multiprog/manual/resultdivider/result_divider.go:131-141 | Lengths that add up to the key are accepted exactly if the key has fewer than 2^31 characters |
| KeyCutting.PanicWitness | coreapp/multiprog/manual/resultdivider/result_divider.go:130-137 | The key 01 with lengths 2 and -1 panics |
| KeyCutting.FirstStop | coreapp/multiprog/manual/resultdivider/result_divider.go:130-137 | The first part that does not fit alone decides between error and panic |
| KeyCutting.NoPanicBelowLimit | coreapp/multiprog/manual/resultdivider/result_divider.go:131-135 | Non-negative lengths whose sum is a 32-bit integer never make the division panic |
| ResultDivider.AddPieces | coreapp/multiprog/manual/resultdivider/result_divider.go:179-188 | Every circuit's table gets the count at its own part of the key, circuits counted from the end of the list |
| ResultDivider.DivideKey | coreapp/multiprog/manual/resultdivider/result_divider.go:173-189 | After one more key every circuit's table is the marginal of the counts seen so far |
| ResultDivider.DivideCounts | coreapp/multiprog/manual/resultdivider/result_divider.go:172-190 | Succeeds iff every key is as long as the lengths add up to; then circuits 0..m-1 are present and each table is the marginal modulo 2^32; a panic or an error each needs a key that causes it |
| ResultDivider.DivideResult | coreapp/multiprog/manual/resultdivider/result_divider.go:146-192 | The whole case analysis: empty counts, missing transpiler info (panic), bad mapping, failed swap, inconsistent lengths; what is left in the job's counts and tables in each case |
| ResultDivider.WrappedCounts | coreapp/multiprog/manual/resultdivider/result_divider.go:187-187 | An accumulated count is below 2^32 and differs from the true one by a multiple of 2^32 |
| ResultDivider.WrappedSmall | coreapp/multiprog/manual/resultdivider/result_divider.go:187-187 | Below 2^32 shots no accumulated count wraps around |
| ResultDivider.SwapKeepsWidth | coreapp/multiprog/manual/resultdivider/result_divider.go:105-120 | The swap keeps key lengths |
| Histograms.PushTotal | coreapp/multiprog/manual/resultdivider/result_divider.go:187-187 | Relabelling with addition conserves the shots |
| Histograms.PushPush | coreapp/multiprog/manual/resultdivider/result_divider.go:172-190 | Relabelling twice is relabelling by the composition |
| Histograms.PushInjective | coreapp/multiprog/manual/resultdivider/result_divider.go:120-120 | Where no keys merge every count moves unchanged and the number of keys stays |
| Histograms.HistMap | coreapp/multiprog/manual/resultdivider/result_divider.go:172-190 | The histogram of relabelled shots is the relabelled histogram |
| Histograms.HistCountsOccurrences | coreapp/core/data.go:21-21 | A histogram counts each key's occurrences and totals the number of shots |
| Demultiplexing.SwapIsPush | coreapp/multiprog/manual/resultdivider/result_divider.go:94-122 | On an injective mapping the result of the swap is one histogram, whatever the order |
| Demultiplexing.SwapKeepsShots | coreapp/multiprog/manual/resultdivider/result_divider.go:94-121 | On an injective mapping the swap keeps the number of keys, the total and every count, and is invertible key by key |
| Demultiplexing.SwapLosesShots | coreapp/multiprog/manual/resultdivider/result_divider.go:120-120 | For every mapping that is not injective, a histogram of two shots of which every swap keeps one |
| Demultiplexing.SwapKeepsTotalIffInjective | coreapp/multiprog/manual/resultdivider/result_divider.go:94-121 | The swap keeps every histogram's total iff the mapping is injective on the measured qubits |
| SwapOrders.RelabelsIffSomeOrder | coreapp/multiprog/manual/resultdivider/result_divider.go:94-121 | The relation that specifies the assignments of line 120 holds of exactly the results some iteration order yields |
| Demultiplexing.IsSwapIffSomeOrder | coreapp/multiprog/manual/resultdivider/result_divider.go:94-122 | The results of a swap are exactly those some iteration order over the counts yields |
| Demultiplexing.MergedSwap | coreapp/multiprog/manual/resultdivider/result_divider.go:94-121 | Where two keys merge, the key visited last keeps its count, so each of the two orders gives another result |
| Demultiplexing.SwapDeterminedIffInjective | coreapp/multiprog/manual/resultdivider/result_divider.go:94-121 | Along all iteration orders the swap yields one result, for all counts, iff the mapping is injective on the measured qubits |
| RoundTrip.SwapOfReport | coreapp/multiprog/manual/resultdivider/result_divider.go:74-123 | The swap of the device's report is the histogram of the returned keys, with or without a mapping |
| RoundTrip.AlignedReturns | coreapp/multiprog/manual/resultdivider/result_divider.go:74-123 | If the measured qubits are aligned every key comes back as it was measured |
| RoundTrip.MisalignedScrambles | coreapp/multiprog/manual/resultdivider/result_divider.go:74-123 | If they are not, some key comes back different |
| RoundTrip.DivisionReturns | coreapp/multiprog/manual/resultdivider/result_divider.go:146-192 | In general the division succeeds and every circuit gets the histogram of its part of the returned keys |
| RoundTrip.MarginalIsColumn | coreapp/multiprog/manual/resultdivider/result_divider.go:172-190 | The marginal over circuit j of a run's histogram is the histogram of circuit j's own outcomes |
| RoundTrip.DemultiplexingRoundTrip | coreapp/multiprog/manual/resultdivider/result_divider.go:146-192 | For all bit lists, sources, mappings (or none) under which the sources are aligned, and runs of fewer than 2^32 shots: combine, report by physical qubit, divide gives every circuit exactly the histogram of its own outcomes |
| RoundTrip.MisalignedFails | coreapp/multiprog/manual/resultdivider/result_divider.go:146-192 | Wherever the sources are not aligned, one shot suffices for a successful division with a wrong table |
| RoundTrip.RoundTripIffAligned | coreapp/multiprog/manual/resultdivider/result_divider.go:146-192 | Under a given mapping every run is recovered iff the sources are aligned |
| RoundTrip.AlwaysAlignedIff | coreapp/multiprog/manual/resultdivider/result_divider.go:104-120 | Sources are aligned under every readable mapping iff there is at most one bit or bit b comes from qubit b for all b |
| RoundTrip.RoundTripForEveryMappingIff | coreapp/multiprog/manual/resultdivider/result_divider.go:146-192 | For all circuits and the qubits they measure: every run under every mapping is recovered iff there is at most one classical bit or the circuits are in order; otherwise an injective mapping of just the circuits' qubits fails |
| RoundTrip.OutcomesExchanged | circuit_combiner/tests/test_circuit_combiner.py:85-89 | On a small instance of circuits with more qubits than bits, each of two circuits is given the other's outcome |
| RoundTrip.ExchangeHappens | circuit_combiner/tests/test_circuit_combiner.py:85-89 | For any two outcomes there is such a run, and its division succeeds |
| Demultiplexing.DivisionConservesShots | coreapp/multiprog/manual/resultdivider/result_divider.go:163-190 | After a successful division on an injective mapping every circuit is present and its table sums to the shots |
| Demultiplexing.DivisionIgnoresOrder | coreapp/multiprog/manual/resultdivider/result_divider.go:146-192 | Success is decided by the input alone and the result on an injective mapping does not depend on the iteration orders |
| TranspilerMapping.ToPhysicalVirtualMapping | coreapp/transpiler/tranqu.go:188-199 | The inverse has an entry for every physical qubit in use, leading back to a virtual qubit placed there |
| TranspilerMapping.InverseIsTwoSided | coreapp/transpiler/tranqu.go:188-199 | For every permutation of 0..n-1 the client's mapping is its two-sided inverse |
| TranspilerMapping.InverseUndoesReorder | coreapp/multiprog/manual/resultdivider/result_divider.go:104-120 | Swapping a key by a permutation and then by its inverse changes nothing |
| TranspilerMapping.InverseUndoesSwap | coreapp/multiprog/manual/resultdivider/result_divider.go:78-123 | For every permutation both swaps succeed and the second returns the original counts |
| SchedulerInvariant.StepKeepsInv | coreapp/scheduler/scheduler.go:35-171 | Every step of every goroutine keeps the invariant on places, wait groups, queue, history, status and remote calls |
| SchedulerInvariant.RunKeepsInv | coreapp/scheduler/scheduler.go:35-171 | The invariant holds after every run of any number of jobs in any interleaving |
| SchedulerInvariant.IdentityKept | coreapp/core/job.go:64-148 | A job keeps its identifier and type for life |
| SchedulerInvariant.OthersChangeNoJob | coreapp/scheduler/queue.go:83-104 | The queue goroutine, the record consumer and new arrivals write to no job |
| SchedulerInvariant.QueueSafeKept | coreapp/scheduler/queue.go:92-98 | Although the length check and the enqueue are separate steps, no step takes the FIFO over its limit |
| SchedulerTheorems.ExclusivePlace | coreapp/scheduler/scheduler.go:36-66 | In every reachable state a job is at exactly one of handler, queue goroutine, FIFO (once), worker, finished or dropped |
| SchedulerTheorems.HolderTouches | coreapp/scheduler/scheduler.go:111-168 | A handler acts on its job only while the handler holds it, the worker only while the worker holds it |
| SchedulerTheorems.OnlyHolderWrites | coreapp/scheduler/scheduler.go:46-66 | A job's data change only by an event of its own handler or of the worker holding it |
| SchedulerTheorems.RemoteTrace | coreapp/db/service.go:85-122 | The remote calls for a non-SSE job are none, one running, one terminal, or running and then one or two of the same terminal status |
| SchedulerTraces.RemoteTraceOfEveryKind | coreapp/db/service.go:85-122 | For jobs of every kind, SSE included: running patches followed by at most two patches of one terminal status, with at most one running patch unless SSE |
| Scheduler.UpdateSends | coreapp/db/service.go:85-122 | With the job-info flag one patch of the status, cancelled as failed; without it a running patch for a running job and nothing else |
| SchedulerPostProcessing.WakeDecides | coreapp/scheduler/scheduler.go:145-159 | After its wait a handler goes on to PostProcess exactly for a Manual job left SUCCEEDED, a Sampling job left SUCCEEDED that asked for mitigation, an Estimation job not finished, an unknown job, or an SSE job without terminal status |
| SchedulerPostProcessing.PublishDecides | coreapp/scheduler/scheduler.go:126-137 | After pre-processing a handler gives up exactly for a FAILED job |
| SchedulerPostProcessing.PostOnlyIfNeeded | coreapp/scheduler/scheduler.go:148-160 | Whenever PostProcess is about to run, the job is one of those; never a Normal job, a failed Manual job or a Sampling job without mitigation |
| SchedulerPostProcessing.SuccessIsComplete | coreapp/multiprog/manual/job.go:71-73 | Of the jobs that arrived READY and ended SUCCEEDED, every Manual job was divided, every Sampling job that asked for it mitigated and every Estimation job evaluated; PostProcess returned for no Normal job and no Sampling job without mitigation |
| SchedulerPostProcessing.FinalTrace | coreapp/scheduler/scheduler.go:99-171 | The exact history and remote calls of an ended job: nothing sent if not READY or if PreProcess panicked, one FAILED patch if it failed before submission, a running patch and then two terminal patches if it finished after Process or one if it reached PostProcess |
| SchedulerEndings.EndsBeforeProcess | coreapp/scheduler/scheduler.go:126-137 | For each kind handled once, a run that fails in PreProcess and reports it |
| SchedulerEndings.EndsAfterProcess | coreapp/scheduler/scheduler.go:148-157 | For each kind handled once a run that finishes failed after Process, and for Normal and Sampling jobs one that finishes succeeded |
| SchedulerEndings.EndsAfterPost | coreapp/scheduler/scheduler.go:159-168 | Runs of Manual, Sampling and Estimation jobs that are post-processed, succeeded or failed |
| SchedulerEndings.EndsInPostPanic | coreapp/scheduler/scheduler.go:100-109 | Runs in which PostProcess panics and the failure is reported |
| SchedulerTheorems.FinalReport | coreapp/db/service.go:85-122 | When a job has ended, its last remote call is its final status iff it carries the job-info flag, the history ends in that status, and otherwise nothing terminal was sent |
| SchedulerTheorems.BoundedPasses | coreapp/scheduler/scheduler.go:111-170 | A non-SSE job reaches PreProcess at most once and its notes are a prefix of READY RUNNING X, READY X or X |
| SchedulerTheorems.WaitMatchesDone | coreapp/scheduler/scheduler.go:138-146 | A handler leaves its wait only after the worker ended each of its submissions; Done always finds the wait group open, so at most one Done per submission |
| SchedulerTheorems.QueueBoundedAndOrdered | coreapp/scheduler/queue.go:83-104 | The FIFO holds at most max(0, maxSize) jobs and jobs start in the order they were accepted |
| SchedulerProgress.RefusedForever | coreapp/scheduler/queue.go:92-96 | In every continuation a refused job is never processed and its handler stays in its wait |
| SchedulerRefusals.NoRefusalWithRoom | coreapp/scheduler/queue.go:92-98 | No job has been refused in any run with at most max(maxSize, 0) arrivals |
| SchedulerRefusals.RefusalHappens | coreapp/scheduler/queue.go:92-98 | For every queue size, every number of arrivals above it and every kind, a run that fills the queue and has the next job refused |
| SchedulerRefusals.RefusalPossibleIff | coreapp/scheduler/queue.go:92-98 | Among n arrivals a job can be refused iff n > max(maxSize, 0) |
| SchedulerProgress.NoDeadlock | coreapp/scheduler/scheduler.go:35-171 | If nothing can move, every job has ended or was refused and all shared goroutines are idle |
| SchedulerProgress.BudgetStep | coreapp/scheduler/scheduler.go:99-171 | Every event about a non-SSE job spends its budget and no other event touches it |
| SchedulerProgress.BoundedWork | coreapp/scheduler/scheduler.go:99-171 | No run holds more than 23 events about one non-SSE job |
| SchedulerProgress.EveryEventInvolves | coreapp/scheduler/scheduler.go:35-171 | Every event of a run is about exactly one job that has arrived |
| SchedulerProgress.RunsAreBounded | coreapp/scheduler/scheduler.go:35-171 | A run with n arrivals, none SSE, has at most 23n events, so the scheduler comes to rest |
| SchedulerHistory.HistoryKeysLive | coreapp/scheduler/scheduler.go:80-88 | The status history only has keys of live handlers |
| SchedulerHistory.HistoryMatches | coreapp/scheduler/scheduler.go:104-167 | With distinct identifiers a live job's entry is exactly the list of its own notes |
| SchedulerHistory.RecordedHistoryShape | coreapp/scheduler/scheduler.go:99-170 | With distinct identifiers the recorded entry of a live non-SSE job is a prefix of READY RUNNING X, READY X or X |
| SchedulerReports.MarredIffPanicked | coreapp/scheduler/scheduler.go:100-109 | A job carries the mark of a recovered pre-processing panic iff the run contains one for it |
| SchedulerReports.FirstStatusIsArrival | coreapp/scheduler/scheduler.go:114-117 | A job's history starts with READY iff the job arrived READY |
| SchedulerReports.ReportedIff | coreapp/scheduler/scheduler.go:100-167 | An ended Normal, Sampling, Estimation or Manual job has its final status as last remote call iff it arrived READY and its PreProcess did not panic; otherwise no call was made |
| SchedulerReports.PanicGoesUnreported | coreapp/scheduler/scheduler.go:100-126 | A run in which a READY job ends FAILED without any remote call |
| SchedulerCrashes.CrashDooms | coreapp/scheduler/scheduler.go:47-54 | After a panic of Process a job of any kind but Estimation stays FAILED for the rest of every run |
| SchedulerCrashes.CrashIsFinalIff | coreapp/scheduler/scheduler.go:47-54 | For every kind, SSE and unknown included: all jobs of the kind that ended after a panic of Process are FAILED iff the kind is not Estimation |
| SchedulerCrashes.CrashOverwritten | coreapp/estimation/job.go:192-238 | A run in which an Estimation job panics in Process and ends SUCCEEDED |
| SchedulerSse.SseRepeats | coreapp/sse/sserun.go:656-661 | For every k a run that reports one SSE job as running k times |
| Poller.StreakIsTail | coreapp/poller/poller.go:182-230 | The streak is the longest tail of polls without a job |
| Poller.Poller.constructor | coreapp/poller/poller.go:173-177 | Setup establishes the state of an empty poll history |
| Poller.Poller.GetJobs | coreapp/poller/poller.go:241-264 | A poll fails iff the queue is over its threshold, the device is not available or the request fails, and then changes nothing; otherwise every job of the reply goes to the scheduler once, in order, and is counted |
| Poller.Poller.Task | coreapp/poller/poller.go:182-230 | State, counter and period stay a function of the streak r: POLLING if r = 0, SUB_IDLE with count r while r is below 2 or below MaxRetry, IDLE with count 0 from there on; a poll that passes the condition schedules the jobs of its reply |
| Poller.RunPeriodically | coreapp/core/run.go:355-383 | After every tick the ticker's period is the one the poll history so far calls for |
| Poller.IdlePeriodIffStreak | coreapp/core/run.go:371-381 | With distinct periods the period is IdlePeriod iff the streak is at least 2 and at least MaxRetry, that is iff the last two polls, and the last MaxRetry ones, exist and brought no job |
| DeviceCache.GatewayAgent.CallDeviceApiOnChange | coreapp/qpu/gateway.go:228-256 | A new status causes one status update, a new number of qubits one device update, a difference in any of the other six fields one info update, in this order and with these contents; a sent status shows as available iff it is Available; unchanged information causes no attempt |
| DeviceCache.GatewayAgent.Reset | coreapp/qpu/gateway.go:202-216 | The cache is empty after a successful reconnection and untouched after a failed one |
| DeviceCache.CacheStaysCoherent | coreapp/qpu/gateway.go:228-256 | Over all polls and resets whose rounds succeed or fail as a whole, the remote shows the cached information whenever there is any, available iff the status is Available |
| DeviceCache.CoherentIffNothingLost | coreapp/qpu/gateway.go:228-256 | The cache is coherent throughout a run iff no round loses an update the remote needed while another succeeds |
| DeviceCache.StaleUntilReset | coreapp/qpu/gateway.go:353-421 | Once the cache holds some information, polls that report it again change nothing, so a lost update is not repaired |
| DeviceCache.MixedRoundGoesStale | coreapp/qpu/gateway.go:228-256 | From an empty cache, a round whose info update alone fails leaves the remote wrong through any number of equal polls |
| Mitigation.Truncate | mitigation/src/mitigator.py:108-108 | Conversion to int rounds towards zero |
| Mitigation.TruncationLoss | mitigation/src/mitigator.py:103-108 | Truncation loses less than one shot per key, and none iff every share is whole |
| Mitigation.RoundingBound | mitigation/src/mitigator.py:103-108 | For a distribution over K keys the total lies between shots - K + 1 and shots, and equals shots iff every share is whole |
| Mitigation.RoundedShares | mitigation/src/mitigator.py:108-108 | The same keys, each with the whole part of its own probability times the shots |
| Mitigation.GetNumOfQubits | coreapp/mitig/mitig.go:161-176 | Empty counts are refused; otherwise the answer is that of comparing lengths along some order that visits every key once |
| Mitigation.ScanAnswer | coreapp/mitig/mitig.go:165-175 | The answer along any order: the common length of the non-empty keys if they have one and an empty key, if any, comes first; otherwise a refusal |
| Mitigation.OrdersDisagreeIff | coreapp/mitig/mitig.go:165-175 | Two orders disagree iff the empty key is present, so is another, and all others share one length |
| Mitigation.EmptyKeyWitness | coreapp/mitig/mitig.go:165-175 | Both answers for the keys "" and "01" |
| Mitigation.CutKeys | coreapp/mitig/mitig.go:151-156 | Every key moves to its lower bits and, where keys collide, one of their counts survives |
| Mitigation.LowerBitsAre | coreapp/mitig/mitig.go:210-216 | A cut key has min(n, length) bits, each the key's own bit of that index |
| Mitigation.CutKeepsKeysIff | coreapp/mitig/mitig.go:210-216 | Cutting keeps the number of keys iff no two collide, and then keeps the total |
| Mitigation.MitigatedCounts | coreapp/mitig/mitig.go:151-156 | With keys of the measured width every key is stored with the whole part of its own share, and the total is within the rounding bound |
| Layout.CollectKeys | coreapp/estimation/job.go:292-295 | The keys without repetition, in any order |
| Layout.MappingList | coreapp/estimation/job.go:292-302 | The list has the physical qubit of the r-th smallest virtual qubit at index r |
| Layout.ContiguousList | coreapp/estimation/job.go:292-302 | On virtual qubits 0..k-1 entry v is the image of v, and the list is free of duplicates iff the mapping is injective |
| Layout.Complete | estimation/src/estimator.py:138-143 | An empty list becomes 0..n-1, a full one stays, any other is followed by the missing indices below its maximum, once each |
| Layout.CompletionListsAll | estimation/src/estimator.py:140-143 | A completed list holds exactly 0..max and is free of duplicates iff the given one was |
| Layout.CompletionIsLayoutIff | estimation/src/estimator.py:138-143 | The outcome is a permutation of the circuit's qubits iff the list was empty, or free of duplicates with highest entry n-1 |

## Left out

- JSON decoding of mappings and `ParseUint`: a mapping arrives decoded, or as a key that is not a number. Two spellings of one number ("1" and "01") are not distinguished.
- RoundTrip.DemultiplexingRoundTrip: assumes fewer than 2^32 shots, since each table's `+=` is a 32-bit addition, and fewer than 2^31 combined bits, since beyond that the division is refused (`KeyCutting.WholeKeyFits`); for any number of shots `ResultDivider.DivideCounts` gives every count modulo 2^32.
- RoundTrip.RoundTripForEveryMappingIff: every classical bit is taken to be measured once, from a qubit of its own; mappings that leave a measured qubit, or one of the first n virtual qubits, without a physical qubit of its own are not counted as readable.
- The device: it is taken to report measured bits by ascending physical qubit, which is the order the divider's own comment and its padding step presuppose.
- Circuit contents: qiskit parsing, `append` and `decompose` are a program that loads or does not, and an export that works or raises.
- The scheduler's in-place form: goroutines, mutex, wait group and channels are a transition system over values; aliasing of a job between handler and worker is what `SchedulerTheorems.HolderTouches` rules out at the level of steps.
- Job methods: their calls to the transpiler, the device, the mitigator, the estimator and the combiner are nondeterministic outcomes; their effect on status and flags is a relation (`Jobs`), and the text of QASM programs and its rollback is not modelled.
- Panics outside PreProcess, Process and PostProcess; errors of `fifo.Enqueue`; `TearDown`; deletion from the queue. The FIFO library is a sequence.
- `ServiceDB.Update` beyond which patch is sent with which status: failing requests, results, times and the additional transpiler-info request.
- Time: periods are numbers, and the time between events is not modelled.
- DeviceCache.GatewayAgent.CallDeviceApiOnChange: a nil device information (a panic in Go) is not an input; the calibration time is kept as its text, so two texts of one instant count as different.
- Mitigation.MitigatedCounts: the mitigated distribution is an input and probabilities are exact reals, so floating-point rounding of `v * shots` is not captured; counts are below 2^31, where the int32 conversions change nothing.
- Layout.Complete: qiskit's `apply_layout` is not part of this model.
- `coreapp/sse`, `coreapp/oas`, `coreapp/qpu/ir.go`, generated clients, settings, logging and metrics: plumbing without laws of their own.
