/** The pipeline around the real monitor, against the sequential loop of the command line. */
module LiveInventory {
  import opened Options
  import opened Sequences
  import opened AssetObservations
  import opened AssetStores
  import opened AssetHistories
  import opened AssetMetadatas
  import opened AssetRecordTimes
  import opened AssetMonitors
  import opened AssetEventDetectors
  import opened MonitorCallbacks
  import opened InventoryTheorems
  import opened Pipeline
  import opened PipelineLedgers
  import opened PipelineTheorems
  import opened PipelineBatches

  type LiveConfig<!P> = Config<P, AssetObservation, Monitor>

  function MonitorStep(config: MonitorConfig, apply: Update): (Monitor, AssetObservation) -> Monitor {
    (m, o) => MonitorAfter(config, apply, m, o)
  }

  /** The pipeline runs the monitor that the rest of the program uses. */
  ghost predicate RunsMonitor<P>(c: LiveConfig<P>, config: MonitorConfig, registry: OuiRegistry) {
    c.newMonitor == NewMonitor() && c.apply == MonitorStep(config, ApplyWith(registry))
  }

  lemma MonitorOneMore<P>(
    c: LiveConfig<P>, config: MonitorConfig, registry: OuiRegistry, os: seq<AssetObservation>, o: AssetObservation)
    requires RunsMonitor(c, config, registry)
    ensures c.Monitor(os + [o]) == MonitorAfter(config, ApplyWith(registry), c.Monitor(os), o)
  {
    assert (os + [o])[..|os|] == os;
  }

  type Fold = seq<AssetObservation> -> Monitor

  /** `fold` says what a new monitor becomes under a sequence of observations. */
  ghost predicate Follows(fold: Fold, config: MonitorConfig, registry: OuiRegistry) {
    && fold([]) == NewMonitor()
    && forall os, o {:trigger MonitorAfter(config, ApplyWith(registry), fold(os), o)} ::
         fold(os + [o]) == MonitorAfter(config, ApplyWith(registry), fold(os), o)
  }

  method ApplyOne(monitor: AssetMonitor, o: AssetObservation, ghost fold: Fold, ghost before: seq<AssetObservation>)
    requires Follows(fold, monitor.config, monitor.store.registry) && monitor.State() == fold(before)
    modifies monitor, monitor.store
    ensures monitor.State() == fold(before + [o])
  {
    monitor.ApplyObservation(o);
  }

  /** The inner loop over one packet's observations; `before` is what was applied already. */
  method ApplyAll(
    monitor: AssetMonitor, observations: seq<AssetObservation>, ghost fold: Fold, ghost before: seq<AssetObservation>)
    requires Follows(fold, monitor.config, monitor.store.registry) && monitor.State() == fold(before)
    modifies monitor, monitor.store
    ensures monitor.State() == fold(before + observations)
  {
    assert before + observations[..0] == before;
    for j := 0 to |observations|
      invariant monitor.State() == fold(before + observations[..j])
    {
      assert before + observations[..j + 1] == (before + observations[..j]) + [observations[j]];
      ApplyOne(monitor, observations[j], fold, before + observations[..j]);
    }
    assert observations[..|observations|] == observations;
  }

  /** The sequential loop: packets in order, each one's observations in order. */
  method FoldPackets<P>(
    c: LiveConfig<P>, packets: seq<P>, config: MonitorConfig, registry: OuiRegistry, ghost fold: Fold)
    returns (monitor: AssetMonitor)
    requires Follows(fold, config, registry)
    ensures fresh(monitor) && fresh(monitor.store)
    ensures monitor.State() == fold(c.ParseAll(packets))
  {
    monitor := new AssetMonitor(config, registry);
    for i := 0 to |packets|
      invariant monitor.config == config && monitor.store.registry == registry
      invariant fresh(monitor) && fresh(monitor.store)
      invariant monitor.State() == fold(c.ParseAll(packets[..i]))
    {
      ParseAllOneMore(c, packets, i);
      if !c.ethernet(packets[i]) {
        assert c.ParseAll(packets[..i]) + [] == c.ParseAll(packets[..i]);
        continue;
      }
      ApplyAll(monitor, c.parse(packets[i]), fold, c.ParseAll(packets[..i]));
    }
    assert packets[..|packets|] == packets;
  }

  lemma MonitorFollows<P>(c: LiveConfig<P>, config: MonitorConfig, registry: OuiRegistry)
    requires RunsMonitor(c, config, registry)
    ensures Follows(os => c.Monitor(os), config, registry)
  {
    forall os, o ensures c.Monitor(os + [o]) == MonitorAfter(config, ApplyWith(registry), c.Monitor(os), o) {
      MonitorOneMore(c, config, registry, os, o);
    }
  }

  method ProcessOfflinePackets<P>(c: LiveConfig<P>, packets: seq<P>, config: MonitorConfig, registry: OuiRegistry)
    returns (monitor: AssetMonitor)
    requires RunsMonitor(c, config, registry)
    ensures fresh(monitor) && fresh(monitor.store)
    ensures monitor.State() == c.Monitor(c.ParseAll(packets))
  {
    MonitorFollows(c, config, registry);
    monitor := FoldPackets(c, packets, config, registry, os => c.Monitor(os));
  }

  /** The state that the sequential loop ends in for the packets a run accepted. */
  function Sequential<P>(c: LiveConfig<P>, s: State<P, AssetObservation, Monitor>): Monitor {
    c.Monitor(c.ParseAll(Accepted(s.producer.offered)))
  }

  ghost predicate EndsWell<P>(
    c: LiveConfig<P>, schedule: seq<Action<Monitor>>, s: State<P, AssetObservation, Monitor>)
  {
    Reached(c, schedule) == Some(s) && s.producer.at.Returned? && NothingThrew(schedule)
  }

  /** One worker: assets, and asset and event callbacks in order, are the sequential ones. */
  lemma OneWorkerIsSequential<P>(
    c: LiveConfig<P>, schedule: seq<Action<Monitor>>, s: State<P, AssetObservation, Monitor>)
    requires EndsWell(c, schedule, s) && c.Options().parserWorkerCount == 1
    ensures s.aggregator.monitor == Sequential(c, s)
  {
    ThrowsAreReported(c, schedule);
    SingleWorkerRefinement(c, schedule);
  }

  lemma {:induction false} MonitorIsRun<P>(
    c: LiveConfig<P>, config: MonitorConfig, registry: OuiRegistry, os: seq<AssetObservation>)
    requires RunsMonitor(c, config, registry)
    ensures c.Monitor(os) == RunMonitor(config, ApplyWith(registry), os)
  {
    if os != [] {
      MonitorIsRun(c, config, registry, os[..|os| - 1]);
      MonitorOneMore(c, config, registry, os[..|os| - 1], os[|os| - 1]);
      assert os == os[..|os| - 1] + [os[|os| - 1]];
    }
  }

  lemma MonitorStoreIsRunStore<P>(
    c: LiveConfig<P>, config: MonitorConfig, registry: OuiRegistry, os: seq<AssetObservation>)
    requires RunsMonitor(c, config, registry)
    ensures c.Monitor(os).store == RunStore(os, ApplyWith(registry))
  {
    MonitorIsRun(c, config, registry, os);
    MonitorHoldsStore(config, ApplyWith(registry), os);
  }

  /** One worker: the callbacks are those that the observations of the accepted packets, in the
      order of capture, call for. */
  lemma OneWorkerCallbacks<P>(
    c: LiveConfig<P>, config: MonitorConfig, registry: OuiRegistry,
    schedule: seq<Action<Monitor>>, s: State<P, AssetObservation, Monitor>)
    requires RunsMonitor(c, config, registry)
    requires EndsWell(c, schedule, s) && c.Options().parserWorkerCount == 1
    ensures var run := c.ParseAll(Accepted(s.producer.offered));
            s.aggregator.monitor.calls == Flat(AllCalls(config, run, r => Inventory(r, registry)))
  {
    var run := c.ParseAll(Accepted(s.producer.offered));
    OneWorkerIsSequential(c, schedule, s);
    MonitorIsRun(c, config, registry, run);
    CallbacksAreExact(config, run, registry);
  }

  /** Any number of workers, any schedule: the inventory has the MAC addresses of the
      sequential one, and each asset looks the same in every respect that does not depend on
      which source spoke last, down to the times of each piece of observed metadata. */
  lemma AnyWorkersSameInventory<P>(
    c: LiveConfig<P>, config: MonitorConfig, registry: OuiRegistry,
    schedule: seq<Action<Monitor>>, s: State<P, AssetObservation, Monitor>, mac: string)
    requires RunsMonitor(c, config, registry) && EndsWell(c, schedule, s)
    ensures mac in s.aggregator.monitor.store <==> mac in Sequential(c, s).store
    ensures mac in s.aggregator.monitor.store ==>
              && SameView(s.aggregator.monitor.store[mac], Sequential(c, s).store[mac])
              && forall key :: SameTimes(s.aggregator.monitor.store[mac].structuredMetadata.observed,
                                         Sequential(c, s).store[mac].structuredMetadata.observed, key)
  {
    ThrowsAreReported(c, schedule);
    ScheduleIndependence(c, schedule);
    var all := c.ParseAll(Accepted(s.producer.offered));
    MonitorStoreIsRunStore(c, config, registry, s.aggregator.applied);
    MonitorStoreIsRunStore(c, config, registry, all);
    ArrivalOrderDoesNotMatter(s.aggregator.applied, all, registry, mac);
  }

  /** When nothing was dropped, the accepted packets are all packets. */
  lemma NothingDroppedNothingMissing<P>(
    c: LiveConfig<P>, schedule: seq<Action<Monitor>>, s: State<P, AssetObservation, Monitor>)
    requires EndsWell(c, schedule, s) && s.shared.counters.batchesDropped == 0
    ensures Accepted(s.producer.offered) == c.packets
    ensures Sequential(c, s) == c.Monitor(c.ParseAll(c.packets))
  {
    NoSilentLoss(c, schedule);
    AcceptedWhenNoneRefused(s.producer.offered);
  }

  /** With room in the packet queue for every batch of packets, and nothing throwing, the whole
      capture is in the inventory, in whatever way the threads take turns. */
  lemma RoomyQueueMissesNothing<P(!new)>(
    c: LiveConfig<P>, schedule: seq<Action<Monitor>>, s: State<P, AssetObservation, Monitor>)
    requires EndsWell(c, schedule, s)
    requires |c.packets| <= c.requested.packetQueueCapacity * BatchSize(c.requested.packetBatchSize)
    ensures s.shared.counters.batchesDropped == 0
    ensures Sequential(c, s) == c.Monitor(c.ParseAll(c.packets))
  {
    RoomyQueueDropsNothing(c, schedule);
    NoneRefusedWhenTaken(s.producer.offered);
    NoSilentLoss(c, schedule);
    NothingDroppedNothingMissing(c, schedule, s);
  }

  lemma {:induction false} NoneRefusedWhenTaken<P>(offered: seq<Offer<P>>)
    requires forall i :: 0 <= i < |offered| ==> offered[i].taken
    ensures Refused(offered) == 0
  {
    if offered != [] {
      NoneRefusedWhenTaken(offered[..|offered| - 1]);
    }
  }

  lemma {:induction false} AcceptedWhenNoneRefused<P>(offered: seq<Offer<P>>)
    ensures Refused(offered) == 0 ==> Accepted(offered) == Batches(offered)
  {
    if offered != [] {
      AcceptedWhenNoneRefused(offered[..|offered| - 1]);
    }
  }
}
