# Verified model of the passive network asset discovery core

The program watches network traffic and keeps an inventory of the devices it sees. These Dafny files
model its core and prove what the code is for:

- **The capture pipeline** (`BoundedQueue`, `QueueHistory`, `QueueThreads`, `Pipeline*`). One producer, any
  number of parser workers and one aggregator around two closable bounded queues. `Pipeline` is a state
  machine whose schedules are arbitrary sequences of thread steps; every statement that touches shared state
  is a step, a blocking call is a step guarded by its wait condition, and a step that may throw in the source
  has a throwing alternative. `QueueThreads` makes the two condition variables of a queue explicit and proves
  that a blocking call may be treated as one guarded step; `PipelineSleepers` does so for the whole pipeline,
  with threads asleep on both queues at once. `PipelineRunner` holds the code of the threads as methods, error
  handlers included, each proved to take exactly its thread's steps when it runs undisturbed. What a run makes
  of its packets, which batches it drops and which error it reports is in `PipelineBatches` and `PipelineErrors`.
- **The inventory** (`Asset*`, `DisplayNames`, `InventoryTheorems`, `DeviceFacts`, `MonitorCallbacks`,
  `DhcpRanking`, `WindowsHints`, `LiveInventory`). One asset per MAC address folded from observations, in closed
  form; the monitor's callbacks; the second detector of new assets; a derived hint traced back to the bytes of
  DHCP messages; and the pipeline compared with the sequential loop of the command line.
- **Decoders** (`DnsName`, `DnsMessage`, `Dhcp`, `DhcpObservation`, `Layers`, `Address*`). Cursor arithmetic,
  pointer jumps and loops over untrusted counts, with encoders to state round trips against, and the exact set
  of byte strings that decode.
- **Two wire formats** (`PacketStream*`, `ChildProtocol*`, `Decimal`). Printers and parsers that undo each
  other, whole streams and cut streams included, and what any other text is read as.

Code that updates state is modelled by classes and loops and proved against functions; the theorems are about
those functions. Parsers, monitors, packet sources and the OUI table are parameters wherever a theorem does
not depend on them, so it holds of every parser, every packet source and every table. To keep proofs small,
lemmas about runs quantify over the update function (`apply`) and name what they need of it as a predicate;
`ApplyWithAddsBasics`, `ApplyWithRanks` and `ApplyWithMergesMetadata` prove that the program's own update has
these properties, and `InventoryTheorems` states the results for it without any such condition.

Where a property one would expect is false of the code, the exact condition is proved instead:

- A child message is read back as itself exactly when its field keys are not reserved and hold no tab or equals
  sign and no value ends in a carriage return (`MessageRoundTrip`); it takes one line exactly when no field key
  holds a newline (`OneLinePerMessage`).
- A written frame is read back exactly when its payload length fits 32 bits; the writer does not check that
  (`ReadableExactlyWhen`).
- A DHCP operating system hint outlasts what other sources say exactly when it is not one of the two vague
  values (`OnlyVagueHintsGiveWay`), which the DHCP plugin never produces (`PluginMeetsTheProvisos`). The DHCP
  clause of the display name ranking never has an effect on observations that the DHCP plugin makes
  (`DhcpRuleIsIdle`).
- The dotted text of a DNS name shows its labels exactly when no label holds a dot (`DottedNameShowsLabels`).
- The two detectors of new assets differ in the reported hostname exactly when an observation carries an empty
  one (`DetectorsAgree`).

## Model

| member | source | states |
|---|---|---|
| BoundedQueues.BoundedQueue.TryPush | include/pnad/system/BoundedQueue.hpp:25-39 | never blocks; refuses when closed or full and then changes nothing, else appends and raises the watermark |
| BoundedQueues.BoundedQueue.WaitPush | include/pnad/system/BoundedQueue.hpp:41-55 | the critical section behind the wait: appends unless closed |
| BoundedQueues.BoundedQueue.WaitPop | include/pnad/system/BoundedQueue.hpp:57-71 | hands out the oldest item; fails, leaving the caller's value alone, only when nothing is left |
| BoundedQueues.BoundedQueue.Close | include/pnad/system/BoundedQueue.hpp:73-79 | closes and keeps all items |
| QueueHistories.FifoHistory | include/pnad/system/BoundedQueue.hpp:25-79 | over every history, pushed = popped ++ queued, capacity is never exceeded and the watermark is the largest size ever reached |
| QueueHistories.ClosedForGood | include/pnad/system/BoundedQueue.hpp:25-79 | after a close nothing is ever accepted again, whatever follows |
| QueueHistories.TryPushIsExact | include/pnad/system/BoundedQueue.hpp:25-39 | after any history a value is taken if and only if nobody closed the queue and fewer than its capacity are inside; otherwise nothing changes, and the answer says which of the two it was |
| QueueHistories.WaitPushIsExact | include/pnad/system/BoundedQueue.hpp:41-55 | a blocked push goes on if and only if there was a close or there is room, and the value is taken if and only if there was no close |
| QueueHistories.WaitPopIsExact | include/pnad/system/BoundedQueue.hpp:57-71 | a blocked pop goes on if and only if there was a close or something is inside, and hands out the oldest value not handed out yet |
| QueueThreads.NotifyOneSuffices | include/pnad/system/BoundedQueue.hpp:25-79 | no lost wakeup: with any number of threads, interleaving, choice of sleeper and spurious wakeups, a sleeping consumer implies no more items than woken consumers, dually for producers, and after close nobody sleeps |
| QueueThreads.SleepersHaveNothingToDo | include/pnad/system/BoundedQueue.hpp:41-71 | if a sleeper's condition holds, some thread on its side is runnable |
| QueueThreads.FollowsQueue | include/pnad/system/BoundedQueue.hpp:25-79 | every interleaving of sleeping and waking threads is, for the queue, a history of whole critical sections run only when their condition held |
| PipelineRunners.PipelineRunner.constructor | src/app/LiveCapturePipeline.cpp:62-80 | a new runner is the starting state of the state machine, with normalised options |
| PipelineRunners.PipelineRunner.SetError | src/app/LiveCapturePipeline.cpp:248-254 | only the first error is kept; it is the handler's recording step |
| PipelineRunners.PipelineRunner.FlushPacketBatch | src/app/LiveCapturePipeline.cpp:219-240 | an empty batch changes nothing; otherwise it is the pushing step and then the counting step |
| PipelineRunners.PipelineRunner.EnqueuePacket | src/app/LiveCapturePipeline.cpp:210-217 | is the delivery step, followed by a flush when the batch is full |
| PipelineRunners.PipelineRunner.ProducePackets | src/app/LiveCapturePipeline.cpp:83-94 | all callbacks, the last flush and the close are a path of producer steps to the first join |
| PipelineRunners.PipelineRunner.ParseBatch | src/app/LiveCapturePipeline.cpp:168-189 | the worker's inner loop takes two steps a packet and yields exactly the observations of the batch, non-Ethernet packets counted but skipped; if the parser throws on a packet it stops there, that packet counted, its observations not |
| PipelineRunners.PipelineRunner.PushObservations | src/app/LiveCapturePipeline.cpp:191-197 | the push after the wait is one step; a queue found closed is an error step and closes the packet queue |
| PipelineRunners.PipelineRunner.FailWorker | src/app/LiveCapturePipeline.cpp:199-207 | the worker's handler records the error and closes both queues, in that order |
| PipelineRunners.PipelineRunner.ApplyBatch | src/app/LiveCapturePipeline.cpp:133-141 | the aggregator's inner loop takes a step for each observation and one to count the batch; if a callback throws it stops there and counts nothing |
| PipelineRunners.PipelineRunner.FailAggregator | src/app/LiveCapturePipeline.cpp:142-150 | the aggregator's handler records the error and closes both queues, in that order |
| PipelineInvariants.StepKeepsControl | src/app/LiveCapturePipeline.cpp:83-254 | every step of every thread, throwing ones included, keeps the shutdown order, the recorded error and what a failure-free run guarantees |
| PipelineTheorems.ReachedInvariant | src/app/LiveCapturePipeline.cpp:83-254 | control, packet, count and per-value observation ledgers hold after every schedule |
| PipelineTheorems.ThrowsAreReported | src/app/LiveCapturePipeline.cpp:83-208 | a finished run carries a worker's or the aggregator's error if and only if one of its steps threw, and reports the producer's error otherwise |
| PipelineTheorems.NoSilentLoss | src/app/LiveCapturePipeline.cpp:129-240 | at return captured = enqueued + dropped = packets delivered, batches dropped are counted, parsed <= enqueued and applied <= produced, equalities when no error was recorded; packet queue capacity may be 0 |
| PipelineTheorems.ScheduleIndependence | src/app/LiveCapturePipeline.cpp:129-208 | with any number of workers an error-free run applies a permutation of the observations of the accepted packets, and the monitor is what that permutation makes of a new one |
| PipelineTheorems.NothingInvented | src/app/LiveCapturePipeline.cpp:129-208 | every run, failing or not, applies each observation at most as often as the accepted packets contain it |
| PipelineTheorems.SingleWorkerRefinement | src/app/LiveCapturePipeline.cpp:83-240 | with one worker, every error-free schedule applies exactly the sequential observations of the accepted packets in capture order |
| PipelineTheorems.AlwaysAStep | src/app/LiveCapturePipeline.cpp:83-240 | deadlock freedom: until run returns some thread can take a step without throwing, after any throws |
| PipelineBatches.BatchesAreCutInOrder | src/app/LiveCapturePipeline.cpp:210-240 | after every schedule the i-th batch offered is the i-th stretch of packetBatchSize packets (128 by default), fewer than that are waiting while packets are captured, and at return everything was offered |
| PipelineBatches.OffersAreDecided | src/app/LiveCapturePipeline.cpp:219-233 | each batch was dropped if and only if, in the state in which it was offered, the packet queue was closed or held packetQueueCapacity batches |
| PipelineBatches.RoomyQueueDropsNothing | src/app/LiveCapturePipeline.cpp:219-233 | with room for all batches and nothing thrown no batch is dropped, whatever the schedule |
| PipelineBatches.BatchesStayWhole | src/app/LiveCapturePipeline.cpp:164-198 | the packet queue holds the batches it took last, in order; each batch of observations is what one batch of packets makes, complete and never empty |
| PipelineBatches.RunsAsRequested | src/app/LiveCapturePipeline.cpp:307-319 | worker count and queue capacities are those asked for or the defaults, and neither queue ever outgrows its capacity |
| PipelineErrors.FirstErrorIsKept | src/app/LiveCapturePipeline.cpp:248-254 | however many threads fail, the error kept is the one recorded first |
| PipelineErrors.ReportedError | src/app/LiveCapturePipeline.cpp:112-120 | the producer's error is reported if there is one; otherwise nothing if no step threw, else the text that belongs to a step that threw |
| PipelineErrors.RecordedBeforeClosing | src/app/LiveCapturePipeline.cpp:142-207 | no queue is closed before its time unless an error is on record already |
| PipelineErrors.ThrowersCloseBoth | src/app/LiveCapturePipeline.cpp:142-207 | a worker or aggregator that threw never works again and has closed both queues when it ends |
| PipelineErrors.ClosedPushStops | src/app/LiveCapturePipeline.cpp:191-197 | a worker that finds the observation queue closed never works again, even when it is not the first to fail |
| PipelineErrors.EndedMeansClosed | src/app/LiveCapturePipeline.cpp:129-208 | no worker ends before the packet queue is closed, and the aggregator not before the observation queue is |
| PipelineSleepers.SleepersFollowASchedule | src/app/LiveCapturePipeline.cpp:83-240 | with threads really asleep on both queues, the pipeline underneath follows a schedule, so whatever holds of all schedules holds with sleepers |
| PipelineSleepers.AlwaysResting | include/pnad/system/BoundedQueue.hpp:25-79 | no lost wakeup in the whole pipeline: sleeping workers imply no more batches, or free places, than workers awake for them, and a sleeping aggregator an open empty queue |
| PipelineSleepers.SomeoneCanAlwaysStep | src/app/LiveCapturePipeline.cpp:83-240 | deadlock freedom with sleepers: after any throws and spurious wakeups some thread that is awake can take a step, until run returns |
| PipelineSleepers.SleepingIsBounded | src/app/LiveCapturePipeline.cpp:83-240 | termination with sleepers: the number of steps, sleeps and wakeups is bounded by the packets, up to twice the spurious wakeups |
| PipelineTermination.StepSpends | src/app/LiveCapturePipeline.cpp:83-254 | a measure drops at every step of every thread |
| PipelineTermination.SchedulesAreBounded | src/app/LiveCapturePipeline.cpp:83-254 | no schedule is longer than a budget fixed by the packets |
| PipelineTermination.ReachedCanReturn | src/app/LiveCapturePipeline.cpp:83-121 | from every reachable state run can return within the remaining budget |
| LiveInventory.ProcessOfflinePackets | src/main.cpp:138-183 | the sequential loop leaves the monitor that the parsed observations, in order, make of a new one |
| LiveInventory.OneWorkerIsSequential | src/app/LiveCapturePipeline.cpp:83-240 | one worker and nothing threw: final assets and the sequence of asset and event callbacks are those of the sequential loop over the accepted packets |
| LiveInventory.AnyWorkersSameInventory | src/app/LiveCapturePipeline.cpp:83-240 | any workers, any schedule in which nothing threw: same MAC set, and per asset the same addresses, sources, times, metadata values, times of observed metadata and derived hints as the sequential loop |
| LiveInventory.NothingDroppedNothingMissing | src/app/LiveCapturePipeline.cpp:219-240 | when no batch was dropped the sequential loop over the accepted packets is the one over all packets |
| LiveInventory.RoomyQueueMissesNothing | src/app/LiveCapturePipeline.cpp:219-240 | with room for every batch and nothing thrown no batch is dropped and the sequential loop over the accepted packets is the one over all packets |
| LiveInventory.OneWorkerCallbacks | src/app/LiveCapturePipeline.cpp:62-80 | one worker and nothing thrown: the asset and event callbacks are, in order, exactly those the accepted packets' observations call for |
| AssetObservations.AddDerivedHint | src/discovery/domain/AssetObservation.cpp:106-121 | appends a hint unless it is incomplete or one with the same category and value is there |
| AssetObservations.HintsAreDistinct | src/discovery/domain/AssetObservation.cpp:62-65 | however many hints are added, no two agree in category and value, none is invented and every complete one is represented |
| AssetObservations.MergeStructuredMetadata | src/discovery/domain/AssetObservation.cpp:123-134 | merges observed, reference and hints, record by record in key order |
| AssetObservations.MergedValues | src/discovery/domain/AssetObservation.cpp:34-60 | merging records adds under each key exactly the values contributed, in whatever order records are visited |
| AssetObservations.MergedMetadata | src/discovery/domain/AssetObservation.cpp:123-134 | merging adds observed to observed and reference to reference, and behind the hints already there those that are new |
| AssetObservations.ObservedIsExact | src/discovery/domain/AssetObservation.cpp:82-90 | after adding any entries, under each key stand exactly the non-empty values added, and flat the last of them |
| AssetStores.RegenerateDerivedHints | src/discovery/domain/AssetStore.cpp:307-351 | earlier hints are forgotten and the hints that the metadata calls for are added |
| AssetStores.EnrichMetadata | src/discovery/domain/AssetStore.cpp:231-270 | adds the reference facts of the MAC address, fills an absent vendor and recomputes the hints |
| DeviceFacts.ReferenceIsToldByBytes | src/discovery/domain/AssetStore.cpp:231-270 | for a MAC address decoded from a packet, over every run and key, the reference values are what the bits and the first three bytes of the address tell, and what observations brought as reference |
| DeviceFacts.FactRecordIsKnown | src/discovery/domain/AssetStore.cpp:231-270 | the whole record of each such fact: its one value, its source, seen since the device was and until its first observation arrived |
| DeviceFacts.VendorIsToldByBytes | src/discovery/domain/AssetStore.cpp:256-263 | its vendor is the last one a source gave, else the table's entry for its first three bytes, else none |
| DeviceFacts.HintsAreConclusions | src/discovery/domain/AssetStore.cpp:307-351 | after every run the derived hints are exactly the four conclusions drawn from the values that stand in the metadata, searched letter by letter without regard to case |
| AssetStores.AssetStore.ApplyObservation | src/discovery/domain/AssetStore.cpp:376-434 | new and known assets alike become the one update function's result; every other asset is untouched |
| AssetHistories.OneAssetPerMac | src/discovery/domain/AssetStore.cpp:376-434 | an asset exists exactly for the case-folded MAC addresses seen and depends on that device's observations alone |
| AssetHistories.SetsInClosedForm | src/discovery/domain/AssetStore.cpp:376-434 | addresses and sources are exactly those observed |
| AssetHistories.TimesInClosedForm | src/discovery/domain/AssetStore.cpp:361-367 | firstSeen and lastSeen are the least and greatest timestamps in any arrival order |
| AssetRankings.VendorInClosedForm | src/discovery/domain/AssetStore.cpp:277-305 | vendor is the last explicit non-empty one, else the OUI registrant, else absent |
| AssetRankings.DeviceInClosedForm | src/discovery/domain/AssetStore.cpp:277-305 | device type and model are the last mDNS value, else the first non-empty one |
| AssetRankings.DhcpOsHintWins | src/discovery/domain/AssetStore.cpp:297-304 | once DHCP gave a hint the OS hint is the latest DHCP hint, if DHCP never says a vague value |
| AssetRankings.OnlyVagueHintsGiveWay | src/discovery/domain/AssetStore.cpp:297-304 | a hint survives every run of other sources if and only if it is not vague |
| AssetRankings.OsHintInClosedForm | src/discovery/domain/AssetStore.cpp:297-304 | the OS hint goes back to the last DHCP hint, else the first hint of all; if that is vague, to the first precise SSDP hint after it, else the last SSDP hint; that first observation is unique |
| AssetRankings.DhcpRuleIsIdle | src/discovery/domain/AssetStore.cpp:279-284 | for DHCP observations whose display name is their hostname the DHCP clause never changes a name |
| AssetRankings.DisplayNameInClosedForm | src/discovery/domain/AssetStore.cpp:279-284 | the display name is then the last mDNS name, else the first name of any kind |
| AssetRankings.MdnsDisplayNameWins | src/discovery/domain/AssetStore.cpp:279-284 | once mDNS gave a display name only another mDNS name replaces it, if DHCP display names are hostnames |
| DisplayNames.SuccessorIsTheName | src/discovery/domain/AssetStore.cpp:277-284 | whatever sources say, the display name is the one that the last of any succession of name givers gave: the last mDNS name or else the first name, and then each DHCP name that took the place of the hostname of its time |
| DisplayNames.NameIsSucceeded | src/discovery/domain/AssetStore.cpp:376-434 | such a succession exists exactly when anybody gave a name; otherwise there is none |
| AssetMetadatas.MetadataInClosedForm | src/discovery/domain/AssetStore.cpp:231-270 | each key holds exactly the values some observation contributed, plus the facts about the MAC address |
| AssetMetadatas.HintsAreExact | src/discovery/domain/AssetStore.cpp:307-351 | a hint is there if and only if the metadata calls for it, each once |
| AssetMetadatas.HintsFollowValues | src/discovery/domain/AssetStore.cpp:202-229 | hints depend on the values under each key and on nothing else |
| AssetMetadatas.OrderDoesNotMatter | src/discovery/domain/AssetStore.cpp:376-434 | permuted runs build the same inventory up to fields that depend on who spoke last |
| AssetRecordTimes.ObservedTimesInClosedForm | src/discovery/domain/AssetObservation.cpp:34-60 | after any run, observed metadata spans exactly from the earliest to the latest record brought under its key |
| AssetRecordTimes.TimesSurviveReordering | src/discovery/domain/AssetObservation.cpp:34-60 | those times do not depend on the order of arrival |
| AssetRecordTimes.OriginInClosedForm | src/discovery/domain/AssetObservation.cpp:34-60 | a record of observed metadata keeps the first source and the first confidence that were given under its key |
| AssetMonitors.GrowsWhenNew | src/discovery/monitor/AssetMonitor.cpp:39-43 | the number of assets grows exactly when the observation's non-empty folded MAC is unknown |
| AssetMonitors.AssetMonitor.ApplyObservation | src/discovery/monitor/AssetMonitor.cpp:39-60 | updates the store and fires the asset callback, then the event callback for a new asset only |
| MonitorCallbacks.CallbacksAreExact | src/discovery/monitor/AssetMonitor.cpp:8-60 | over every run the callbacks are, observation by observation: none for an empty MAC; else the asset as it is then and whether it is the first of its device; directly behind it, for a first one, the event, told in terms of the observation |
| MonitorCallbacks.ToldAboutEach | src/discovery/monitor/AssetMonitor.cpp:45-48 | right after an observation with a MAC address the inventory holds its asset, so none but those with an empty one go untold |
| AssetEventDetectors.AssetEventDetector.DetectAndRemember | src/event/AssetEventDetector.cpp:64-86 | reports an unknown non-empty MAC once and remembers the observation |
| AssetEventDetectors.AssetEventDetector.RememberObservation | src/event/AssetEventDetector.cpp:43-62 | keeps the least and greatest timestamp of the MAC |
| AssetEventDetectors.DetectorKnowsTheStore | src/event/AssetEventDetector.cpp:43-62 | after any run the detector's MACs and first and last times are the store's |
| AssetEventDetectors.DetectorsAgree | src/event/AssetEventDetector.cpp:24-86 | both detectors fire on the same observations, exactly on the first of each folded non-empty MAC, with equal timestamp, MAC, IP and protocol; hostnames differ exactly for an empty one |
| AssetEventDetectors.RunsAgree | src/event/AssetEventDetector.cpp:64-86 | over any whole run both report the same events in the same order, as many as there are assets; equal ones if no hostname is empty |
| InventoryTheorems.InventoryInClosedForm | src/discovery/domain/AssetStore.cpp:231-434 | after any run and for any OUI table, which assets exist, what every field of them is, and since when, until when and from whom each piece of observed metadata is, from that device's observations |
| InventoryTheorems.ArrivalOrderDoesNotMatter | src/discovery/domain/AssetStore.cpp:376-434 | the program's own fold gives the same view for permuted runs, times of observed metadata included |
| InventoryTheorems.MonitorAndDetectorAgree | src/discovery/monitor/AssetMonitor.cpp:8-60 | the program's own monitor and detector agree after any run and for any next observation |
| InventoryTheorems.ReportsAgreeOverRuns | src/discovery/monitor/AssetMonitor.cpp:39-60 | the program's own monitor and detector report the same events over whole runs |
| InventoryTheorems.RankingHolds | src/discovery/domain/AssetStore.cpp:277-305 | with DHCP observations from the plugin: OS hint is the latest DHCP hint once there is one, display name the latest mDNS name, else the first name given |
| DhcpRanking.PluginMeetsTheProvisos | src/packet/parser-plugins/DhcpPlugin.cpp:98-134 | neither of the two matching functions ever answers with a vague value, so the plugin never produces one; its display name is its hostname |
| WindowsHints.MatchersAgree | src/packet/parser-plugins/DhcpPlugin.cpp:115-134 | the plugin's reading of a vendor class as Windows and the inventory's search for Microsoft names are the same test |
| WindowsHints.WindowsHintComesFromDhcp | src/discovery/domain/AssetStore.cpp:320-329 | a device has the Windows hint if and only if some DHCP message of it, however long ago, carried an option 60 that the plugin reads as Windows |
| DnsNames.ReadDnsName | src/packet/parser-plugins/DnsPlugin.cpp:61-119 | the loop terminates, never indexes outside the payload, computes the dotted text of the decompressed labels and the end, and moves the offset only forward even on failure |
| DnsNames.DottedNameShowsLabels | src/packet/parser-plugins/DnsPlugin.cpp:75-83 | splitting the text of a name at dots gives its labels back if and only if no label holds a dot |
| DnsNames.ReadTextShowsLabels | src/packet/parser-plugins/DnsPlugin.cpp:68-116 | the same for every name that was read, whose labels are never empty |
| DnsNames.RootIsDot | src/packet/parser-plugins/DnsPlugin.cpp:75 | a name's text is a single dot if and only if it has no labels or one label that is a dot |
| DnsNames.ReadsExactlyTheNames | src/packet/parser-plugins/DnsPlugin.cpp:61-119 | succeeds with labels and end exactly when an inductive reading of section 4.1.4 of RFC 1035 derives them within 16 pointer jumps |
| DnsNames.OneDerivation | src/packet/parser-plugins/DnsPlugin.cpp:61-119 | a position spells at most one name |
| DnsNames.CyclesAreRejected | src/packet/parser-plugins/DnsPlugin.cpp:78-97 | any cycle of labels and pointers is rejected, and no derivation exists for it |
| DnsNames.PlainRoundTrip | src/packet/parser-plugins/DnsPlugin.cpp:68-116 | labels of 1 to 63 bytes written in full read back, ending after the zero byte |
| DnsNames.CompressedRoundTrip | src/packet/parser-plugins/DnsPlugin.cpp:68-116 | a prefix and a pointer to a decodable suffix within the jump budget read back, ending after the pointer |
| DnsNames.NameRoundTrip | src/packet/parser-plugins/DnsPlugin.cpp:61-119 | a name written in either way is read back wherever it stands |
| DnsMessages.ReadResourceRecord | src/packet/parser-plugins/DnsPlugin.cpp:121-140 | reads name, type and data range; fails exactly when the header or the data would overrun |
| DnsMessages.RecordFrom | src/packet/parser-plugins/DnsPlugin.cpp:121-140 | a record's data lies in the payload, at least 11 bytes after its start, and ends where the next one begins |
| DnsMessages.ParseDnsPayload | src/packet/parser-plugins/DnsPlugin.cpp:321-375 | the walk over questions and the three record sections, cursor after cursor |
| DnsMessages.WorkIsBoundedByLength | src/packet/parser-plugins/DnsPlugin.cpp:350-372 | success implies 12 + 5 questions + 11 records <= payload size, so declared counts do not bound the work, length does |
| DnsMessages.RecordRoundTrip | src/packet/parser-plugins/DnsPlugin.cpp:121-140 | a record written anywhere reads back with its data in place |
| DnsMessages.MessageRoundTrip | src/packet/parser-plugins/DnsPlugin.cpp:350-372 | a message written with its header, its questions and its three sections of records is read back one by one, the sections in order, names in full or compressed, whatever follows |
| DnsMessages.ReadTexts | src/packet/parser-plugins/DnsPlugin.cpp:276-291 | collects the character strings of TXT data |
| DnsMessages.TextsAreExact | src/packet/parser-plugins/DnsPlugin.cpp:276-291 | the data is those strings followed by nothing or by one string that overruns it |
| DnsMessages.TextsRoundTrip | src/packet/parser-plugins/DnsPlugin.cpp:276-291 | written strings are read back, whatever overrunning rest follows |
| Dhcp.ScanOption | src/packet/parser-plugins/DhcpPlugin.cpp:191-208 | one element is consumed: end, pad, overrun or an option with its value |
| Dhcp.ReadOptions | src/packet/parser-plugins/DhcpPlugin.cpp:189-250 | the loop folds exactly the options of the list, or rejects |
| Dhcp.OptionListIsExact | src/packet/parser-plugins/DhcpPlugin.cpp:189-250 | accepted with these options if and only if pads and options spelling them, up to 255 or the end, make up the bytes |
| Dhcp.ParseDhcpPayload | src/packet/parser-plugins/DhcpPlugin.cpp:160-259 | the whole observation of a message: address, names, OS hint, client address and all its metadata entries in order, with every rejection |
| Dhcp.EntriesInClosedForm | src/packet/parser-plugins/DhcpPlugin.cpp:209-248 | the metadata of the options is that of each option, in their order, repeated options included |
| Dhcp.AscendingIsExact | src/packet/parser-plugins/DhcpPlugin.cpp:84-96 | the list of seen options holds each code once, ascending |
| Dhcp.OsHintInClosedForm | src/packet/parser-plugins/DhcpPlugin.cpp:230-247 | a recognised option 60 beats option 55 in any order; the last 60, else the first recognised 55 |
| Dhcp.AddressInClosedForm | src/packet/parser-plugins/DhcpPlugin.cpp:214-219 | the header's address, else the first 4-byte option 50 |
| Dhcp.NamesInClosedForm | src/packet/parser-plugins/DhcpPlugin.cpp:209-213 | hostname and display name are the last option 12 |
| Dhcp.MessageInClosedForm | src/packet/parser-plugins/DhcpPlugin.cpp:160-259 | accepted exactly when length, cookie, option list and client address are good; the address is yiaddr, else ciaddr, else requested |
| DhcpObservations.ObservationInClosedForm | src/packet/parser-plugins/DhcpPlugin.cpp:160-259 | a datagram makes an observation exactly when length, cookie, option list and client address are good, and every field is read off its bytes |
| DhcpObservations.MetadataIsTold | src/packet/parser-plugins/DhcpPlugin.cpp:175-255 | under each key the inventory learns exactly the non-empty values that ports, header fields, options and the ascending list of option codes tell |
| DhcpObservations.ReadingsAreClues | src/packet/parser-plugins/DhcpPlugin.cpp:98-134 | the hint of a vendor class or request list is that of the first clue in an ordered table that its text holds, none without a clue |
| DhcpObservations.DecimalListIsRead | src/packet/parser-plugins/DhcpPlugin.cpp:72-82 | between the commas of a list stand its numbers in order |
| DhcpObservations.HexBytesAreRead | src/packet/parser-plugins/DhcpPlugin.cpp:59-70 | between the colons of a client identifier stand its bytes, two digits each |
| AddressFacts.HexByteIsExact | src/discovery/domain/AssetStore.cpp:45-57 | exactly which two characters are read as which byte, in either case, with what the stream reader lets pass |
| AddressFacts.OuiIsExact | src/discovery/domain/AssetStore.cpp:68-75 | a prefix is found in exactly the texts that begin with three parts between colons, the third one ended by a colon or being the end of the text |
| Addresses.Ipv4TextIsInjective | src/packet/parser-plugins/DhcpPlugin.cpp:47-57 | different IPv4 addresses have different texts |
| Addresses.MacTextIsInjective | src/packet/parser-plugins/DhcpPlugin.cpp:34-45 | different MAC addresses have different texts |
| AddressFacts.Ipv4TextIsRead | src/packet/parser-plugins/DhcpPlugin.cpp:47-57 | between the dots stand the four bytes in wire order |
| AddressFacts.MacTextIsRead | src/packet/primitives/EthernetFrame.cpp:11-22 | between the colons stand the six bytes in wire order |
| Text.PiecesAreExact | src/discovery/domain/AssetStore.cpp:34-43 | exactly how a text is split: no piece holds the separator, and the pieces with separators between them make up the text, but for one at its very end |
| AddressFacts.DecodedMacIsUnderstood | src/discovery/domain/AssetStore.cpp:13-75 | of a decoded MAC address the store reads back the first byte and the three-byte prefix, and case folding changes nothing |
| Layers.BuildPacketContext | src/packet/parser-core/PacketContext.cpp:101-145 | layers decode in order, TCP only without UDP, into the specified context |
| Layers.ContextIsNested | src/packet/parser-core/PacketContext.cpp:28-138 | for arbitrary bytes every exposed view is valid and a part of its parent |
| Layers.LimitedBytes | include/pnad/system/ByteView.hpp:34-49 | a limited view is exactly that slice of its parent as far as the parent goes, and nothing behind its end |
| Layers.EthernetRoundTrip | src/packet/primitives/EthernetFrame.cpp:37-50 | an Ethernet header decodes to its addresses and type |
| Layers.Ipv4RoundTrip | src/packet/parser-core/PacketContext.cpp:28-55 | a header of 20 to 60 bytes decodes to its fields, fragments marked as such, and to a payload cut at the total length |
| Layers.UdpRoundTrip | src/packet/parser-core/PacketContext.cpp:57-73 | a UDP header decodes to its ports and exactly its data, bytes behind the datagram ignored |
| Layers.TcpRoundTrip | src/packet/parser-core/PacketContext.cpp:75-97 | a TCP header of 20 to 60 bytes decodes to its ports, its SYN, ACK, RST and FIN bits and exactly its data |
| Layers.FrameCarriesSegment | src/packet/parser-core/PacketContext.cpp:28-55 | a frame of any protocol, with any IPv4 options and any padding, decodes to its addresses and exactly its segment |
| Layers.FrameRoundTrip | src/packet/parser-core/PacketContext.cpp:101-138 | the context of a sent UDP or TCP frame has its addresses, exactly one transport layer with the ports sent, and exactly the data sent |
| Layers.FragmentsHaveNoTransport | src/packet/parser-core/PacketContext.cpp:52-77 | a fragment shows its IPv4 payload and no transport layer |
| Layers.FrameDecodesExactly | src/packet/parser-core/PacketContext.cpp:101-122 | fourteen bytes make an Ethernet frame, and an IPv4 packet is found in exactly the byte strings that some frame with padding spells |
| Layers.Ipv4DecodesExactly | src/packet/parser-core/PacketContext.cpp:28-55 | a view decodes if and only if some packet and padding spell its bytes |
| Layers.UdpDecodesExactly | src/packet/parser-core/PacketContext.cpp:57-73 | a datagram is found if and only if the packet is UDP, whole, and its payload is a datagram with anything behind it |
| Layers.TcpDecodesExactly | src/packet/parser-core/PacketContext.cpp:75-97 | a segment is found if and only if the packet is TCP, whole, and its payload is a segment |
| PacketStreams.InputStream.ReadPacketStreamFrames | src/capture/CapturePacketStream.cpp:74-145 | the loop computes the specified frames and leaves the stream where they end |
| PacketStreamTheorems.BatchesAddUp | src/capture/CapturePacketStream.cpp:74-145 | of any stream, reading a then b frames is reading a + b frames, if the first batch met no error |
| PacketStreamTheorems.BatchedReading | src/capture/CapturePacketStream.cpp:74-145 | the same for the program's own reader |
| PacketStreamTheorems.HeaderRoundTrip | src/capture/CapturePacketStream.cpp:55-72 | a written header parses to its fields, or is rejected when the size exceeds 32 bits |
| PacketStreamTheorems.FrameRoundTrip | src/capture/CapturePacketStream.cpp:55-72 | a frame followed by anything is read as its packet, payload newlines included, leaving the rest |
| PacketStreamTheorems.ReadableExactlyWhen | src/capture/CapturePacketStream.cpp:55-145 | a frame reads back if and only if its payload length fits 32 bits |
| PacketStreamTheorems.StreamRoundTrip | src/capture/CapturePacketStream.cpp:74-145 | reading with a limit returns the first packets unchanged and leaves the stream at the next frame |
| PacketStreamTheorems.PrefixSafety | src/capture/CapturePacketStream.cpp:74-145 | a stream cut at any byte yields exactly the complete packets, with an error if and only if the cut is inside a frame |
| PacketStreamReading.TurnIsExplained | src/capture/CapturePacketStream.cpp:77-139 | on any text the reader finds a packet exactly where one is written, skips a blank line, and reports each of its four errors for its own reason |
| PacketStreamReading.TokensAreExact | src/capture/CapturePacketStream.cpp:82-90 | the header's fields are exactly the words that blanks set apart in it |
| PacketStreamReading.BlankLinesAreSkipped | src/capture/CapturePacketStream.cpp:78-80 | blank lines between frames change nothing |
| Decimals.UnsignedRoundTrip | src/capture/CapturePacketStream.cpp:12-22 | a printed number is read back exactly when it fits 64 bits |
| Decimals.SignedRoundTrip | src/capture/CapturePacketStream.cpp:24-34 | the same for signed numbers |
| Decimals.PrintedIsCanonical | src/capture/CapturePacketStream.cpp:55-65 | a number is printed with a minus sign exactly when negative and with no zero in front of other digits |
| Decimals.UnsignedIsExact | src/capture/CapturePacketStream.cpp:12-22 | a text is a number if and only if it spells one in decimal below 2 to the 64th, leading zeros allowed, nothing around it |
| Decimals.SignedIsExact | src/capture/CapturePacketStream.cpp:24-34 | the same with a minus sign for negative numbers |
| ChildProtocol.EscapeField | src/capture/CaptureChildProtocol.cpp:21-42 | the loop escapes character by character |
| ChildProtocol.UnescapeField | src/capture/CaptureChildProtocol.cpp:44-75 | the loop with its pending backslash, a lone one at the end kept |
| ChildProtocol.SerializeCaptureChildMessage | src/capture/CaptureChildProtocol.cpp:116-134 | writes the message's entries in order, empty path and text left out |
| ChildProtocol.ParseCaptureChildMessage | src/capture/CaptureChildProtocol.cpp:136-188 | enters token after token, rejecting bad types and numbers and a missing event |
| ChildProtocolTheorems.EscapeRoundTrip | src/capture/CaptureChildProtocol.cpp:21-75 | every value survives escaping and unescaping |
| ChildProtocolTheorems.EscapedHasNoDelimiter | src/capture/CaptureChildProtocol.cpp:21-42 | an escaped value holds no tab and no newline |
| ChildProtocolTheorems.TokensAreFound | src/capture/CaptureChildProtocol.cpp:136-142 | splitting at tabs finds the written tokens |
| ChildProtocolTheorems.ParsedKeysAreUsable | src/capture/CaptureChildProtocol.cpp:149-180 | whatever line was read, its field keys are not reserved and hold no tab or equals sign |
| ChildProtocolTheorems.WrittenIsRead | src/capture/CaptureChildProtocol.cpp:116-188 | a written message is read as itself without final carriage returns, with or without its newline |
| ChildProtocolReading.ParseIsExact | src/capture/CaptureChildProtocol.cpp:136-188 | any line is read as m if and only if every entry is acceptable, some entry is an event, and each part of m is what the last entry of its key says |
| ChildProtocolReading.EntryInIsExact | src/capture/CaptureChildProtocol.cpp:142-154 | a token is an entry if and only if it holds an equals sign: the key up to the first one, behind it the escaped value without the end of the line |
| ChildProtocolReading.UnescapeIsMeaning | src/capture/CaptureChildProtocol.cpp:44-75 | every text, whether escaped by the program or not, is unescaped to what it means |
| ChildProtocolTheorems.MessageRoundTrip | src/capture/CaptureChildProtocol.cpp:116-188 | parse(serialize(m)) = m if and only if the keys are usable and no value ends in a carriage return |
| ChildProtocolTheorems.ReservedKeyIsLost | src/capture/CaptureChildProtocol.cpp:158-180 | a concrete message with a reserved key that is not read back |
| ChildProtocolTheorems.OneLinePerMessage | src/capture/CaptureChildProtocol.cpp:116-134 | a message is one line if and only if no key holds a newline |
| ChildProtocolTheorems.MessageStreamRoundTrip | src/capture/CaptureChildProtocol.cpp:116-188 | concatenated messages split at newlines parse back to the same list |

## Left out

- libpcap capture and file reading, BPF filters, interface enumeration, fork/exec supervision, Qt models, settings, command line and YAML parsing, table, JSON and CSV output, SQLite and email: foreign calls, plumbing, or easier members only.
- Exceptions thrown by the packet source itself, allocation failure, wall-clock and backend statistics, the counter of produced events, and log text.
- Memory ordering: the counters are relaxed atomics; they are read after the joins, and the model's steps are interleaved one by one.
- The text of exceptions: a throwing step carries any text, and the separate messages for unknown exceptions are not distinguished from it.
- Callbacks' effects: the monitor records the calls it makes, in order; what the callbacks do, the dispatcher's flush after a run, and a throwing callback in the sequential loop are not modelled.
- The packet parser inside the pipeline is any function from a packet to observations. With the option `coreParsersOnly`, which the desktop program sets, it is another function than the one `processOfflinePackets` uses, so the comparison with the sequential loop is for the same parser in both. The TCP, NetBIOS, SSDP and IPv4 plugins are not modelled.
- The rows of the curated OUI table: the table is a parameter, and every theorem holds for every table.
- The wording of derived hint reasons, which are constructors here, and the type, severity and message of the one kind of event; the confidence and event type of observations, which no modelled code reads.
- Schedule independence says nothing about hostname, display name, vendor, device type, model, OS hint and flat metadata, nor about the source of metadata records and the times of reference records: these depend on who spoke last.
- PipelineRunners.PipelineRunner.ProducePackets: states what a thread does undisturbed; interference is the state machine's matter.
- AssetStores.AssetStore.ApplyObservation: an asset is a value that replaces the old one under its key; no reference to an asset is shared, so aliasing is not modelled.
- DnsMessages.ParseDnsPayload: models the walk, names, data ranges and TXT strings; A, AAAA, PTR and SRV data, service classification and the observation's metadata are not modelled.
- DnsMessages.ReadTexts: finds the strings of TXT data; the metadata entry and the mDNS summary made of each are not modelled.
- DHCP fingerprints: OS hint matching stays a substring search as in the code, so nothing is claimed about fingerprints as lists.
- PacketStreams.InputStream.ReadPacketStreamFrames: the stream is a value with the two state bits; stream buffers, locales and write errors are not modelled.
- Characters are Dafny characters; the source's are bytes. Case folding is that of the "C" locale, as in the source.
- AssetStores.EnrichMetadata: reading the first octet follows libstdc++, which matters only for MAC texts that are not hexadecimal pairs.
