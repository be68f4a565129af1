# ESOP runtime and configuration: a Dafny model

ESOP couples a real-time EtherCAT master with a command gateway, an eBPF based
observer of the host and a generator for process-image configurations. This project
models the parts whose correctness is a matter of whole runs or of whole inputs:

- **Command ingress** (`CommandIngress`, `IngressTraces`, `FixedWindow`): admission of
  motion commands with replay ordering, a rate limit per source and an audit ring.
- **Incident correlator and health lease** (`Evidence`, `IncidentCorrelator`,
  `IncidentHistory`, `RuntimeAgent`): a ring of incidents that merge evidence, and the
  health state that heartbeats report.
- **Kernel probes** (`ProbeSteps`, `KernelProbes`, `StartStamps`, `ThresholdWindows`,
  `ProbeRuns`, `CounterRuns`, `OperationPairing`, `GatewayStalls`, `GatewayInterleavings`,
  `ObservationPipeline`): the handlers, whole runs of them, their map accesses when they
  interleave, and the contract between their records and the agent that consumes them.
- **Configuration generator** (`ProductManifest`, `Sorting`, `EsiModel`, `EsiParser`,
  `EsiInvariant`, `EsiRoundTrip`, `EsiCatalogs`, `SdoInformation`, `SlaveResolution`, `DomainLayout`,
  `DomainPlan`, `ProcessImage`, `ImageTheorems`, `Generator`): from manifest and device
  descriptions to bit offsets, status bits and datagrams.
- **Device lifecycle** (`DeviceRegistry`, `DeviceRuns`), **histogram quantiles**
  (`Histogram`) and the **fixed-capacity allocators** (`Arena`, `FramePool`).

`Machine` and `Bits` define bounded words and the saturating, wrapping and bitwise
operations on them. State that the source updates in place is a class over arrays, maps
and counters; each of its methods is proved against a value-level function, and the
properties of whole runs are lemmas about those functions.

Two properties one might expect are false of the code, and the model keeps the code:

- The network-drop counter raises an event once per window if and only if its threshold
  is not 2^32-1 (`ThresholdWindows.DropRaisesOnceIff`).
- "One stall record per begin" fails when the lookup and the delete of an end probe are
  separate steps (`GatewayInterleavings.InterleavedEndsShareABegin`). A delete is stale when
  it takes an entry other than the one its invocation looked up. Without evictions the
  property holds if and only if no delete is stale
  (`GatewayInterleavings.OneStallPerBeginIff`). With evictions that still suffices
  (`GatewayInterleavings.NeverStaleOneStall`) but is not needed
  (`GatewayInterleavings.EvictionHidesStaleDelete`); there it is exactly the condition for
  every end to report the begin it removes (`OperationPairing.PairedIff`). Handlers that run
  one at a time are never stale (`GatewayInterleavings.AtomicHandlersAreInterleavings`), and
  the counting law holds for all interleavings (`OperationPairing.QuiescentBalance`).

## Model

| member | source | states |
|---|---|---|
| CommandIngress.Normalized | crates/esop-command-gateway/src/lib.rs:53-92 | the result is a usable policy, a usable policy is left as it is, and the source list and axis mask are never touched |
| CommandIngress.FindSource | crates/esop-command-gateway/src/lib.rs:302-305 | the first authorized slot that names the source, and `None` exactly when no authorized slot does, also for policies that list a source twice |
| CommandIngress.AdmissionIff | crates/esop-command-gateway/src/lib.rs:251-300 | a command is admitted if and only if it is of this boot, from an authorized source, of sufficient authority and right policy version, alive but not for longer than the TTL, nonzero in sequence, epoch and axes, names allowed axes only (bit by bit), advances its source's order and is within its rate |
| CommandIngress.AxesOutsideIff | crates/esop-command-gateway/src/lib.rs:282-284 | the mask test is zero exactly when every requested axis bit is an allowed one |
| CommandIngress.Ingress.constructor | crates/esop-command-gateway/src/lib.rs:180-190 | an empty trace, empty audit trail and the normalized policy |
| CommandIngress.Ingress.Admit | crates/esop-command-gateway/src/lib.rs:215-249 | the decision is the one the whole earlier trace determines; source table and audit ring move to those of the extended trace |
| CommandIngress.Ingress.RecordAudit | crates/esop-command-gateway/src/lib.rs:307-327 | the ring holds the newest 32 entries of an unbounded log to which exactly this decision is appended, with a saturating sequence number |
| CommandIngress.Ingress.AuditAt | crates/esop-command-gateway/src/lib.rs:200-213 | index `i` returns the decision on command `n - min(n, 32) + i` of the trace and nothing at or past `min(n, 32)` |
| CommandIngress.AuditLogAt | crates/esop-command-gateway/src/lib.rs:307-327 | log entry `i` carries sequence number `i + 1` short of saturation, so the enumerated entries are numbered consecutively, and the decision made on command `i` |
| IngressTraces.FilterKeepsState | crates/esop-command-gateway/src/lib.rs:215-249 | dropping any commands except a source's admitted ones leaves that source's state unchanged |
| IngressTraces.SourcesDoNotInterfere | crates/esop-command-gateway/src/lib.rs:215-305 | for every trace, the decisions one source gets equal those of a run on that source's commands alone |
| IngressTraces.RejectedCommandsLeaveNoTrace | crates/esop-command-gateway/src/lib.rs:215-249 | deleting any set of rejected commands changes no remaining decision |
| IngressTraces.OrderMark | crates/esop-command-gateway/src/lib.rs:222-240 | a source's stored (epoch, sequence) is at or past every pair it was ever granted |
| IngressTraces.AdmittedPairsIncrease | crates/esop-command-gateway/src/lib.rs:287-293 | admitted (epoch, sequence) pairs of a source strictly increase over the whole run, so none is admitted twice |
| IngressTraces.RateFactsHold | crates/esop-command-gateway/src/lib.rs:222-240 | after any trace with a non-decreasing clock, window start and count are functions of the source's admission times alone, and no window is over budget |
| IngressTraces.RateLimitedIff | crates/esop-command-gateway/src/lib.rs:294-299 | `RateLimited` is returned if and only if all other checks pass and exactly `max_commands_per_window` admissions lie in the current window, which opened less than `rate_window_ns` ago |
| IngressTraces.AtMostTwiceTheBudget | crates/esop-command-gateway/src/lib.rs:294-299 | any half-open interval of length `rate_window_ns` holds at most twice `max_commands_per_window` admissions of one source |
| Evidence.Classify | crates/esop-ebpf-agent/src/lib.rs:582-677 | an incident always asks for more than observation; without correlation only kill, exit and capability failures are reported; critical severity, fault latching and those two process kinds coincide |
| IncidentCorrelator.FindMergeTarget | crates/esop-ebpf-agent/src/lib.rs:462-498 | the newest mergeable incident, or none exactly when no retained incident is mergeable |
| IncidentCorrelator.Push | crates/esop-ebpf-agent/src/lib.rs:543-556 | a bounded queue, element by element: everything stays in order before the new element, less the oldest when it is full, for every capacity including zero |
| IncidentCorrelator.PushHolds | crates/esop-ebpf-agent/src/lib.rs:543-556 | writing at the head and advancing it makes the ring hold the pushed queue |
| IncidentCorrelator.UpdateHolds | crates/esop-ebpf-agent/src/lib.rs:501-530 | rewriting one ring slot rewrites exactly one queue element in place |
| IncidentCorrelator.Correlator.constructor | crates/esop-ebpf-agent/src/lib.rs:327-339 | an empty ring of any capacity, identifiers from 1 |
| IncidentCorrelator.Correlator.Observe | crates/esop-ebpf-agent/src/lib.rs:357-363 | a context of another boot is refused without effect |
| IncidentCorrelator.Correlator.FindTarget | crates/esop-ebpf-agent/src/lib.rs:462-498 | the backwards walk over the ring finds the queue's newest mergeable element and its slot |
| IncidentCorrelator.Correlator.MergeIncident | crates/esop-ebpf-agent/src/lib.rs:501-530 | one retained element becomes its merged form, all others stay |
| IncidentCorrelator.Correlator.PushIncident | crates/esop-ebpf-agent/src/lib.rs:543-556 | the ring refines the bounded queue's push and counts an overwrite exactly when the queue was full |
| IncidentCorrelator.Correlator.IngestEvidence | crates/esop-ebpf-agent/src/lib.rs:365-428 | the ring implementation refines the value-level `Ingest`, result and state, error cases included |
| IncidentCorrelator.Correlator.Latest | crates/esop-ebpf-agent/src/lib.rs:430-440 | the last element of the queue |
| IncidentCorrelator.Correlator.PopOldest | crates/esop-ebpf-agent/src/lib.rs:442-451 | takes the oldest element of the queue |
| IncidentCorrelator.Correlator.StartEpoch | crates/esop-ebpf-agent/src/lib.rs:453-460 | restart yields the state of a new correlator of that epoch |
| IncidentHistory.FoldIgnoresOrder | crates/esop-ebpf-agent/src/lib.rs:501-530 | the summary of an incident is the same for every order of the same evidence |
| IncidentHistory.FoldBounds | crates/esop-ebpf-agent/src/lib.rs:501-530 | every summary field bounds all merged evidence; the count is the saturated total |
| IncidentHistory.FoldAttained | crates/esop-ebpf-agent/src/lib.rs:558-580 | each bound is attained by some piece of evidence, so the fields are exact minima and maxima |
| IncidentHistory.OpenedExplained | crates/esop-ebpf-agent/src/lib.rs:397-427 | a new incident is an exact account of its one piece of evidence |
| IncidentHistory.MergedNoGap | crates/esop-ebpf-agent/src/lib.rs:494-498 | merging inside the window leaves no gap above `window_ns` between neighbouring timestamps |
| IncidentHistory.MergedShortSpan | crates/esop-ebpf-agent/src/lib.rs:494-510 | each merge extends the span by at most one window |
| IncidentHistory.MergedExplained | crates/esop-ebpf-agent/src/lib.rs:501-530 | merging keeps the incident the fold of its history, with exactly the first eight pieces stored and the rest counted as lost |
| IncidentHistory.StepKeepsConsistent | crates/esop-ebpf-agent/src/lib.rs:365-460 | every operation keeps: each retained or departed incident is explained by its history, identifiers follow the creation count, and creations are accounted for |
| IncidentHistory.LogFollowsCorrelator | crates/esop-ebpf-agent/src/lib.rs:357-460 | the run that carries the histories moves the correlator state exactly as the correlator's own operations do |
| IncidentHistory.RetainedIdsConsecutive | crates/esop-ebpf-agent/src/lib.rs:409-426 | in every run retained ids are nonzero, cyclically consecutive and end just before `next_incident_id` |
| IncidentHistory.CreatedIncidentsAccounted | crates/esop-ebpf-agent/src/lib.rs:442-460 | in every run, short of saturation, created = retained + popped + dropped within the epoch |
| IncidentHistory.IncidentSpan | crates/esop-ebpf-agent/src/lib.rs:494-530 | in every run each incident spans at most `(evidence_count + lost_events - 1)` windows, short of saturation |
| RuntimeAgent.Agent.constructor | crates/esop-ebpf-agent/src/lib.rs:836-841 | a starting agent with no evidence and an empty correlator |
| RuntimeAgent.Agent.Ingest | crates/esop-ebpf-agent/src/lib.rs:863-874 | the facade's correlator and health move together; health changes only for reported incidents |
| RuntimeAgent.Agent.RecordLoss | crates/esop-ebpf-agent/src/lib.rs:756-765 | health after event loss is the value-level step |
| RuntimeAgent.Agent.ApplySnapshot | crates/esop-ebpf-agent/src/lib.rs:735-754 | health after a capability snapshot is the value-level step |
| RuntimeAgent.Agent.ApplyCapabilities | crates/esop-ebpf-agent/src/lib.rs:718-733 | health after plain capabilities is the value-level step |
| RuntimeAgent.Agent.NextHeartbeat | crates/esop-ebpf-agent/src/lib.rs:803-824 | the observation and the new health are those of the value-level heartbeat |
| RuntimeAgent.Agent.RestartAgent | crates/esop-ebpf-agent/src/lib.rs:884-888 | both halves restart into the new epoch |
| RuntimeAgent.FaultCodeIff | crates/esop-ebpf-agent/src/lib.rs:718-801 | in every run `fault_code` is nonzero exactly in Degraded or Failed |
| RuntimeAgent.LossRulesOutHealth | crates/esop-ebpf-agent/src/lib.rs:756-765 | after event loss no heartbeat reports Healthy before the next restart |
| RuntimeAgent.HealthyIff | crates/esop-ebpf-agent/src/lib.rs:718-824 | in every run a heartbeat reports Healthy if and only if some complete capability application of this epoch had no event loss before it in the epoch, and no loss, incident, incomplete capability application or restart came since |
| RuntimeAgent.FailedPersists | crates/esop-ebpf-agent/src/lib.rs:756-790 | loss, incidents, heartbeats, cycles and pops never leave Failed |
| RuntimeAgent.IncidentCountTracksEvidence | crates/esop-ebpf-agent/src/lib.rs:775-790 | in every run `incident_count` is the saturated number of evidence pieces merged into all incidents of the epoch |
| RuntimeAgent.IncidentCountIsTotal | crates/esop-ebpf-agent/src/lib.rs:775-790 | short of saturation, `incident_count` equals the sum of `evidence_count + lost_events` over all incidents of the epoch, retained, popped or overwritten |
| ThresholdWindows.HitAt | bpf/esop_runtime.bpf.c:923-955 | for a non-decreasing clock, stored window, reported age and crossing of hit `j` are determined by its position in its fixed window |
| ThresholdWindows.RaisesIff | bpf/esop_runtime.bpf.c:818-864 | a hit raises an event exactly when it is the T-th of its window, for T up to 2^32-1 |
| ThresholdWindows.RaisesOncePerWindow | bpf/esop_runtime.bpf.c:923-970 | one event per window at most, with all T hits inside less than one window length |
| ThresholdWindows.BurstRaises | bpf/esop_runtime.bpf.c:923-970 | any 2T-1 hits spanning less than a window fall into at most two windows, one of which reaches T and raises |
| ThresholdWindows.DropRaisesIff | bpf/esop_runtime.bpf.c:1059-1066 | the drop counter raises on the T-th hit only, except at T = 2^32-1, where every later hit of the window raises too |
| ThresholdWindows.DropRaisesOnceIff | bpf/esop_runtime.bpf.c:1059-1066 | drop events are unique per window, for all hit sequences, if and only if the threshold is not 2^32-1 |
| ThresholdWindows.KeysAreIndependent | bpf/esop_runtime.bpf.c:923-955 | without eviction the window of a key is that of its own hits |
| ThresholdWindows.KeyedHitAt | bpf/esop_runtime.bpf.c:923-970 | in a run of hits on many keys, window, age and crossing of the last hit are determined by its position in its own key's window |
| OperationPairing.RunBalanced | bpf/esop_runtime.bpf.c:453-548 | every interleaving of inserts, lookups, deletes, counter updates and evictions keeps begins = completions + entries + evictions + overwrites, corrected for probes halfway |
| OperationPairing.QuiescentBalance | bpf/esop_runtime.bpf.c:453-548 | whenever no probe is halfway the balance is exact; exclusive inserts never overwrite; ends never outnumber begins |
| OperationPairing.PairedIff | bpf/esop_runtime.bpf.c:523-548 | for every interleaving with every eviction, each end reports the begin it removes if and only if no delete is stale, that is none takes an entry other than the one its invocation looked up |
| OperationPairing.FinishedAtMostOnce | bpf/esop_runtime.bpf.c:523-548 | without stale deletes no begin is finished twice, whatever is evicted and however far the probes have come |
| OperationPairing.FinishedOnceIff | bpf/esop_runtime.bpf.c:523-548 | without evictions, once no probe is halfway, every begin was finished at most once if and only if no delete was stale |
| OperationPairing.AtomicNeverStale | bpf/esop_runtime.bpf.c:523-548 | if every lookup is followed at once by its own delete, no delete is stale, even with evictions in between |
| GatewayInterleavings.NeverStaleOneStall | bpf/esop_runtime.bpf.c:496-581 | without stale deletes every begin is behind at most one stall record, whatever is evicted and however the ends are called |
| GatewayInterleavings.OneStallPerBeginIff | bpf/esop_runtime.bpf.c:496-581 | without evictions, once no probe is halfway: every begin is behind at most one stall record, however the ends are called, if and only if no delete was stale |
| GatewayInterleavings.InterleavedEndsShareABegin | bpf/esop_runtime.bpf.c:523-581 | the failing case: an interleaving of two begins and two ends with a stale delete, in which both ends emit a stall record of the first begin and the second begin has none |
| GatewayInterleavings.EvictionHidesStaleDelete | bpf/esop_runtime.bpf.c:523-581 | with an eviction between lookup and delete a stale delete can leave every begin finished at most once, so there the condition is needed for the pairing only |
| GatewayInterleavings.AtomicHandlersAreInterleavings | bpf/esop_runtime.bpf.c:453-581 | runs of uninterrupted handlers are interleavings without stale deletes, with the same open operations and exactly the same stall records |
| KernelProbes.Probes.constructor | bpf/esop_runtime.bpf.c:167-249 | empty maps and counters |
| KernelProbes.Probes.GatewayBegin | bpf/esop_runtime.bpf.c:453-494 | opens an operation exactly for a valid, tracked, unused key with room; begins, mismatches and losses are counted accordingly |
| KernelProbes.Probes.GatewayEnd | bpf/esop_runtime.bpf.c:496-581 | closes exactly the keyed operation and returns the record the run theorems are about; completions, stalls, mismatches, emissions and losses are counted accordingly |
| KernelProbes.Probes.RawPortBegin | bpf/esop_runtime.bpf.c:617-656 | the in-place update is the stamp over which `ProbeRuns.RawPortStallIff` reasons; a loss is counted exactly when an allowed begin finds no room |
| KernelProbes.Probes.RawPortEnd | bpf/esop_runtime.bpf.c:658-732 | removes the task's stamp on every path and returns the record of `ProbeRuns.RawPortStallIff`; emissions and losses add up |
| KernelProbes.Probes.SchedWakeup | bpf/esop_runtime.bpf.c:746-761 | the in-place update is the stamp over which `ProbeRuns.LatencyRecordIff` reasons |
| KernelProbes.Probes.SchedSwitch | bpf/esop_runtime.bpf.c:763-788 | removes a tracked task's stamp and returns the record of `ProbeRuns.LatencyRecordIff`; emissions and losses add up |
| KernelProbes.Probes.MigrateTask | bpf/esop_runtime.bpf.c:790-876 | the branches over new, stale-epoch, expired and running windows amount to one hit of the window theory; the record is that of `CounterRuns.MoveRecordIff` |
| KernelProbes.Probes.ProcessExit | bpf/esop_runtime.bpf.c:878-903 | a record exactly for the exit of a tracked thread-group leader, emitted or counted as lost |
| KernelProbes.Probes.PageFaultUser | bpf/esop_runtime.bpf.c:905-972 | the branches over new, expired and running windows amount to one hit of the window theory; the record is that of `CounterRuns.FaultRecordIff` |
| KernelProbes.Probes.OomKill | bpf/esop_runtime.bpf.c:974-995 | a record exactly for a tracked victim, emitted or counted as lost |
| KernelProbes.Probes.NetworkDrop | bpf/esop_runtime.bpf.c:997-1076 | the branches over new, expired and running windows amount to one hit of the window theory; a record exactly when the count equals the threshold |
| KernelProbes.Probes.CpuFrequencyLimit | bpf/esop_runtime.bpf.c:1078-1154 | the two-way state update amounts to storing the new cap; the record is that of `CounterRuns.ThrottleRecordIff` |
| KernelProbes.Probes.InterruptEntry | bpf/esop_runtime.bpf.c:1156-1242 | the in-place update of the hard or the soft table is the stamp over which `ProbeRuns.OverrunRecordIff` reasons |
| KernelProbes.Probes.InterruptExit | bpf/esop_runtime.bpf.c:1182-1278 | removes the stamp on every path and returns the record of `ProbeRuns.OverrunRecordIff`; emissions and losses add up |
| ProbeSteps.EmittedIsReportable | bpf/esop_runtime.bpf.c:303-349 | for every handler and everything it can read: what it emits decodes to its own kind, carries the context's boot, epoch and cycle, and is classified when it correlates |
| ProbeSteps.ProducedIsReportable | crates/esop-ebpf-runtime/src/linux.rs:1390-1463 | every record some handler can emit is decoded and classified by the agent when it correlates |
| StartStamps.StoredIff | bpf/esop_runtime.bpf.c:617-732 | in every run of starts, finishes and evictions a table entry is the value of the start in force, and there is one exactly if a start is in force |
| StartStamps.StartsPairOnce | bpf/esop_runtime.bpf.c:658-690 | a start serves at most one finish and a finish at most one start |
| ProbeRuns.RawPortStallIff | bpf/esop_runtime.bpf.c:617-732 | in every run an end emits a stall record if and only if the task's latest recorded begin, neither ended nor evicted since, matches it in interface, operation and policy and lies more than the threshold back |
| ProbeRuns.RawPortStallTells | bpf/esop_runtime.bpf.c:697-732 | that record is reportable and tells the time from begin to end, the threshold, the begin's task, interface and operation and the end's outcome |
| ProbeRuns.RawPortStallsDistinct | bpf/esop_runtime.bpf.c:617-732 | no begin is behind two raw-port stall records |
| ProbeRuns.LatencyRecordIff | bpf/esop_runtime.bpf.c:746-788 | in every run a switch emits a record if and only if it is tracked and the task's latest tracked wakeup lies more than the threshold back on the wrapping clock; the record tells that latency |
| ProbeRuns.OverrunRecordIff | bpf/esop_runtime.bpf.c:1156-1278 | in every run an exit emits a record if and only if the latest tracked entry of its CPU, vector and sort lies more than its threshold back; the record tells that duration |
| CounterRuns.FaultRecordIff | bpf/esop_runtime.bpf.c:905-972 | in every run over any number of processes and CPUs, under one policy, a fault emits a record if and only if it is the T-th counted one of its key's window; the record has count T and an age below the window length |
| CounterRuns.MoveRecordIff | bpf/esop_runtime.bpf.c:790-876 | the same for migrations of any number of tasks under one policy epoch |
| CounterRuns.ThrottleRecordIff | bpf/esop_runtime.bpf.c:1078-1154 | in every run a counted cap below the floor is reported if and only if there is room and no earlier report of the same CPU and policy epoch is still uncleared |
| CounterRuns.ReportsAreSeparated | bpf/esop_runtime.bpf.c:1078-1154 | between two throttle records of one CPU its cap recovered, its policy epoch changed or its entry was evicted |
| GatewayStalls.RunSound | bpf/esop_runtime.bpf.c:453-581 | in every run of atomic handlers each open operation and stall belongs to one earlier begin |
| GatewayStalls.StallsBelongToDistinctBegins | bpf/esop_runtime.bpf.c:453-581 | each stall record has its begin's request id, route, class and policy epoch, a duration strictly over the threshold, and shares its begin with no other record |
| ObservationPipeline.EmittedRecordIsReported | crates/esop-ebpf-agent/src/lib.rs:365-428 | every record that any handler can emit becomes, when its context correlates with a risky cycle, part of an incident of the right code that covers its time, whatever its threshold, count and duration |
| DeviceRegistry.IndexOf | crates/esop-device/src/lib.rs:244-250 | the first record of the id, or none exactly when the id is not registered |
| DeviceRegistry.DeviceManager.constructor | crates/esop-device/src/lib.rs:106-112 | an empty registry with epoch zero |
| DeviceRegistry.DeviceManager.Index | crates/esop-device/src/lib.rs:244-250 | the loop finds the first record of the id |
| DeviceRegistry.DeviceManager.RegisterDevice | crates/esop-device/src/lib.rs:139-161 | the array refines the value-level registration, error cases included |
| DeviceRegistry.DeviceManager.AdvanceDevice | crates/esop-device/src/lib.rs:163-208 | the array refines the value-level move, error cases included |
| DeviceRegistry.DeviceManager.FailDevice | crates/esop-device/src/lib.rs:210-230 | either the device is in Fault with its code or nothing changed, although the code is written first |
| DeviceRuns.StepMovesOnce | crates/esop-device/src/lib.rs:258-281 | an operation leaves every device alone or moves it along one allowed transition |
| DeviceRuns.WayBackFromFault | crates/esop-device/src/lib.rs:163-238 | between Fault and a later Cyclic lie Recovering (or Inactive then Probed), Identified, Configuring, Configured and Active in this order, at least six transitions and a new generation, short of saturation |
| DeviceRuns.DevicesRecoverTheHardWay | crates/esop-device/src/lib.rs:139-281 | the same for every registered device in every run of the registry |
| DeviceRuns.RunsKeepRegistry | crates/esop-device/src/lib.rs:139-230 | in every run ids are distinct, no record is half-written and `fault_code` is nonzero only in Fault |
| DeviceRuns.EpochCountsTransitions | crates/esop-device/src/lib.rs:163-208 | in every run, short of saturation, `lifecycle_epoch` is the sum of all transition counts modulo 2^32 |
| Histogram.RecordedIsAccepted | scripts/import-performance-measurements.py:70-92 | the histogram of any list of samples passes every check |
| Histogram.AcceptedIsRecorded | scripts/import-performance-measurements.py:70-92 | every accepted histogram is the histogram of some list of samples, so the checks are exact |
| Histogram.Quantile | scripts/import-performance-measurements.py:93-100 | the loop reports the last nanosecond of the bucket in which the nearest rank falls, capped by the maximum |
| Histogram.HistogramStats | scripts/import-performance-measurements.py:70-101 | the first failing check is the error; otherwise the three quantiles and the maximum are in order |
| Histogram.ReportedInOrder | scripts/validate-performance-report.py:75-80 | a higher rank is never reported lower nor above the maximum, so the validator's ordering check always accepts |
| Histogram.QuantileError | scripts/import-performance-measurements.py:93-100 | for every sample list behind the histogram the nearest-rank sample is at most the reported quantile, which exceeds it by less than one bucket unless the rank is in the overflow |
| Arena.AlignUpRounds | crates/esop-ethercat-core/src/arena.rs:97-100 | for powers of two the mask gives the least multiple at or above the value and fails exactly on overflow |
| Arena.PlaceFailsIff | crates/esop-ethercat-core/src/arena.rs:70-95 | an unfrozen arena refuses exactly when no aligned range of that size is left above the cursor |
| Arena.Arena.constructor | crates/esop-ethercat-core/src/arena.rs:26-32 | an unfrozen arena with nothing handed out |
| Arena.Arena.Freeze | crates/esop-ethercat-core/src/arena.rs:51-54 | only the frozen flag changes |
| Arena.Arena.Reset | crates/esop-ethercat-core/src/arena.rs:56-59 | nothing is handed out any more |
| Arena.Arena.AllocSlice | crates/esop-ethercat-core/src/arena.rs:70-95 | ranges handed out since the last reset stay ascending, disjoint, aligned and inside the capacity; a refused allocation changes nothing and a frozen arena refuses all |
| FramePool.MarkArmedAdds | crates/esop-ethercat-core/src/frame_pool.rs:45-48 | arming adds exactly one index to the armed set and touches nothing else |
| FramePool.ResetDisarms | crates/esop-ethercat-core/src/frame_pool.rs:36-43 | a reset slot is armed for nothing |
| FramePool.Pool.constructor | crates/esop-ethercat-core/src/frame_pool.rs:70-75 | no slot is live |
| FramePool.Pool.Acquire | crates/esop-ethercat-core/src/frame_pool.rs:77-104 | hands out the least free index, reset and stamped; fails exactly when all are live or the size is unsupported; no other slot is touched |
| FramePool.Pool.Release | crates/esop-ethercat-core/src/frame_pool.rs:106-118 | releases exactly a live index; any other handle changes nothing |
| FramePool.Pool.MayWrite | crates/esop-ethercat-core/src/frame_pool.rs:129-136 | a slot is reachable for writing exactly when it is live |
| FramePool.Pool.InUse | crates/esop-ethercat-core/src/frame_pool.rs:138-140 | the population count is the number of live slots: successful acquires minus successful releases |
| ProductManifest.CheckDomain | crates/esop-cfggen/src/generator.rs:653-693 | no error exactly when the name is acceptable text, the domain is in bounds and apart from every earlier one |
| ProductManifest.CheckDomains | crates/esop-cfggen/src/generator.rs:650-693 | no error exactly when all names are acceptable and all domains are in bounds and pairwise apart in id, name and image range |
| ProductManifest.HasDuplicates | crates/esop-cfggen/src/generator.rs:2673-2681 | true exactly when the list repeats a value |
| ProductManifest.CheckSlave | crates/esop-cfggen/src/generator.rs:700-760 | no error exactly when the slave passes every check of its own, is apart from every earlier one and is not a second reference clock |
| ProductManifest.CheckSlaves | crates/esop-cfggen/src/generator.rs:695-760 | no error exactly when all slaves pass and are pairwise apart in name, position and station address, with one reference clock at most |
| ProductManifest.CheckAxes | crates/esop-cfggen/src/generator.rs:762-777 | no error exactly when the sorted axes are numbered 0..n-1, have names of their own and belong to known slaves |
| ProductManifest.CheckCopies | crates/esop-cfggen/src/generator.rs:778-805 | no error exactly when there are at most 32 copies with names of their own that refer to known slaves |
| ProductManifest.NormalizeAndValidate | crates/esop-cfggen/src/generator.rs:587-806 | accepts exactly the manifests whose sorted form passes every check, and returns that form |
| Sorting.SortFacts | crates/esop-cfggen/src/generator.rs:646-648 | sorting keeps the multiset of elements and puts it in key order |
| Sorting.SortSorted | crates/esop-cfggen/src/generator.rs:646-648 | a list already in key order is left as it is, so a normalized manifest stays as it is |
| Sorting.SortStable | crates/esop-cfggen/src/generator.rs:646-648 | the elements of each key keep their order |
| EsiParser.MailboxFromSyncManagers | crates/esop-cfggen/src/esi.rs:325-373 | the two-slot loop agrees with selecting all managers of each kind |
| EsiInvariant.MailboxOfIff | crates/esop-cfggen/src/esi.rs:325-373 | a mailbox is delivered exactly when the managers hold one enabled, complete manager of each kind, none exactly when they hold no mailbox manager |
| EsiInvariant.StartKeepsSound | crates/esop-cfggen/src/esi.rs:475-642 | every opening tag, in any nesting, keeps the reader's invariant |
| EsiInvariant.CloseKeepsSound | crates/esop-cfggen/src/esi.rs:674-1023 | every closing tag, in any nesting, keeps the reader's invariant |
| EsiInvariant.FinishedIsWellFormed | crates/esop-cfggen/src/esi.rs:209-246 | a device that can be finished is well formed |
| EsiInvariant.EventKeepsSound | crates/esop-cfggen/src/esi.rs:467-1033 | every event keeps the reader's invariant |
| EsiInvariant.ParsedIsWellFormed | crates/esop-cfggen/src/esi.rs:453-1054 | for every event sequence, an accepted catalog has nonempty PDOs of 1..64-bit entries that fill whole bytes, managers numbered 0..n-1, OpOnly on outputs only, mailbox managers in pairs, unique nonempty DC mode names and at most 16 FMMUs |
| EsiInvariant.ParseText | crates/esop-cfggen/src/esi.rs:453-1054 | the event loop computes the document's meaning and keeps the invariant above at every turn |
| EsiRoundTrip.RunPdos | crates/esop-cfggen/src/esi.rs:396-446 | the PDOs and entries of a direction are read back, in order, into that direction |
| EsiCatalogs.RunDevice | crates/esop-cfggen/src/esi.rs:453-1054 | a device is read back from its document in every field |
| EsiCatalogs.CatalogRoundTrip | crates/esop-cfggen/src/esi.rs:453-1054 | every well-formed catalog whose scalars can be written as text is read back unchanged from its document, so the well-formedness above is also complete |
| SlaveResolution.SelectPdos | crates/esop-cfggen/src/generator.rs:1051-1079 | delivers the selection in order if each index names exactly one PDO with a SyncManager; refuses exactly when there is no such selection |
| SlaveResolution.SelectionUnique | crates/esop-cfggen/src/generator.rs:1051-1079 | a selection list determines the selected PDOs |
| SlaveResolution.ValidateSelectedEntries | crates/esop-cfggen/src/generator.rs:1081-1098 | accepts exactly the selections that map no object address twice |
| SlaveResolution.ValidateOpOnlyOutputs | crates/esop-cfggen/src/generator.rs:1023-1049 | accepts exactly when every OpOnly manager is an output, used by a selected RxPDO and by no selected TxPDO |
| SdoInformation.DeriveExpectations | crates/esop-cfggen/src/generator.rs:916-977 | refuses exactly selections that map an object with two types or widths, no object or more than 256; otherwise the plan has one expectation per object with its type, width and exactly the directions it is mapped in |
| SlaveResolution.ResolveSlave | crates/esop-cfggen/src/generator.rs:833-900 | resolves against the only matching device of the right vendor if everything fits, SDO Information included, and refuses exactly the slaves that nothing fits |
| SlaveResolution.ResolvedIsPlannable | crates/esop-cfggen/src/generator.rs:809-913 | a slave resolved against an accepted catalog has usable PDOs and few enough FMMUs |
| DomainLayout.AppendPdo | crates/esop-cfggen/src/generator.rs:1479-1515 | the entries of a PDO are laid back to back behind what is already there |
| DomainLayout.AppendSlavePdos | crates/esop-cfggen/src/generator.rs:1479-1515 | a usable selection ends on a byte boundary, so no bit is skipped and the not-byte-addressable error cannot occur |
| DomainLayout.AppendDirection | crates/esop-cfggen/src/generator.rs:1129-1165 | one direction of a domain is laid back to back and the participating slaves are collected |
| DomainLayout.LaidTiles | crates/esop-cfggen/src/generator.rs:1479-1515 | back-to-back layout starts at bit 0 and has neither gap nor overlap |
| DomainPlan.CollectStatus | crates/esop-cfggen/src/generator.rs:1330-1350 | lists the slaves with a status FMMU in order; with at most 16 FMMUs only a double declaration is refused |
| DomainPlan.MapStatus | crates/esop-cfggen/src/generator.rs:1166-1211 | consecutive status bits behind the entries, at most one per slave; a duplicate mapping is impossible for distinct new positions |
| DomainPlan.FinishDomain | crates/esop-cfggen/src/generator.rs:1212-1235 | accepted exactly when image, entry count and both working counters fit; then outputs and inputs together are the rounded image |
| DomainPlan.LayOut | crates/esop-cfggen/src/generator.rs:1129-1165 | outputs from bit 0, inputs behind them, split at a byte boundary |
| DomainPlan.CompleteDomain | crates/esop-cfggen/src/generator.rs:1166-1235 | a laid-out domain with its status bits is as planned, and its internal errors are unreachable for resolved slaves |
| DomainPlan.BuildDomain | crates/esop-cfggen/src/generator.rs:1119-1235 | a domain's plan follows the layout rules; internal errors are unreachable for resolved slaves |
| DomainPlan.WkcFits | crates/esop-cfggen/src/generator.rs:1227-1232 | working counters fit 16 bits |
| ProcessImage.EmitOne | crates/esop-cfggen/src/generator.rs:1540-1604 | the next index and the datagram of that direction; index exhaustion and zero working counters are unreachable in an answered domain |
| ProcessImage.EmitDomain | crates/esop-cfggen/src/generator.rs:1271-1298 | the write datagram before the read datagram, each only if it has bytes |
| ProcessImage.EmitDatagrams | crates/esop-cfggen/src/generator.rs:1236-1298 | all domains' datagrams with consecutive indices, which 16 domains cannot exhaust |
| ProcessImage.WorkAnswered | crates/esop-cfggen/src/generator.rs:1558-1563 | a direction with bytes has a slave that answers, so no working counter of a datagram is zero |
| ProcessImage.PlanDomains | crates/esop-cfggen/src/generator.rs:1112-1235 | every domain is planned from its own slaves, and status bits of earlier domains stay in place |
| ProcessImage.BuildDomainPlan | crates/esop-cfggen/src/generator.rs:1112-1328 | an accepted plan is the one the layout rules give; for accepted inputs the zero-WKC, index-exhausted, duplicate-status, not-byte-addressable and FMMU-index errors are unreachable |
| ImageTheorems.DomainImageIsTiled | crates/esop-cfggen/src/generator.rs:1129-1211 | entries tile the image from bit 0 without gap or overlap, outputs before inputs; output and input bytes are the image with its status bits, rounded up by less than a byte |
| ImageTheorems.StatusBitsApart | crates/esop-cfggen/src/generator.rs:1166-1211 | status bits are distinct, behind every entry and inside the image |
| ImageTheorems.DatagramsAreSound | crates/esop-cfggen/src/generator.rs:1236-1298 | across all domains datagram indices are distinct, byte ranges in the global image pairwise disjoint and below `max_process_image_bytes`, and working counters nonzero |
| ImageTheorems.EveryImageByteIsMoved | crates/esop-cfggen/src/generator.rs:1271-1298 | every byte of every domain image is in some datagram, so with the previous row the datagrams partition the images |
| Generator.ResolveSlaves | crates/esop-cfggen/src/generator.rs:809-913 | all slaves resolve against the catalogs of their own files and each label stands for one description; nothing is refused that could be resolved |
| Generator.SlaveCount | crates/esop-cfggen/src/generator.rs:709-718 | distinct nonzero station addresses leave at most 65535 slaves |
| Generator.InputsHold | crates/esop-cfggen/src/generator.rs:335-352 | accepted manifest, accepted descriptions and resolved slaves give the planner exactly what rules out its internal errors |
| Generator.Generate | crates/esop-cfggen/src/generator.rs:335-352 | end to end: a plan is the one the layout rules give for the accepted manifest and resolved slaves, an invalid manifest is refused for cause, and no manifest and no description files reach the planner's internal errors |

## Left out

- `DomainRegistry`, `ScheduleTable`, `FramePlanSet`, `SlaveCopyPlan` and `DcSyncTiming` are not part of this model.
- Generator.Generate: ends with the domain plan and treats registry calls as succeeding, so it accepts at least what the program accepts; axis policies, slave-copy offsets, cycle metrics and rendering come after it.
- Generator.ResolveSlaves: description files are a map from path to events, so canonical paths and I/O errors are left out; a label is compared by the description itself instead of its hash.
- ProductManifest.NormalizeAndValidate: which names are acceptable text and which paths are confined is a parameter.
- XML tokenising, namespace prefixes and the decoding of numbers, booleans, data types and timeouts: the ESI model starts from events and takes the decoders, and the validation of a mailbox configuration, as parameters. The per-PDO bit-length overflow of `usize` is not modelled.
- EsiCatalogs.CatalogRoundTrip: assumes that the scalar texts are trimmed and decode to the value they were written for; which values those are is up to the decoders.
- Error messages are reduced to constructors; where several checks of one element fail together, the model may name a different one than the program.
- Counters of the probes are unbounded naturals, the statistics that only count observations are omitted, and the context and statistics maps are those of one CPU. Map capacity is an input of each handler (`room`); eviction is an event of its own in the runs of the gateway, raw-port and frequency maps; in the window theorems policy, threshold and window are fixed and nothing is evicted.
- KernelProbes.Probes.InterruptEntry: negative IRQ numbers are filtered by the program before the part that is modelled.
- FramePool.Pool.MayWrite: takes handles below 64, because the program's shift has no defined meaning for others.
- RuntimeAgent.After: runs use the facade's own operations; callers that reach the health or the correlator through the mutable accessors, or call `record_incident`, are outside of it.
- Physical mailbox registers of a status bit, rendering of C and Rust sources, JSON, file publication and command lines: text and I/O.
- `diag.rs`, `port.rs`, the DMA and wire types and the single-producer ring: thin, or traits only.
- Axis policies and percentage regressions of performance reports: floating point.
- Concurrency beyond the pairing map: each handler reads one consistent context.
