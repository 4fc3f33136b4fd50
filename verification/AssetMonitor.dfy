/** The monitor: applies observations to the inventory and reports what it did. */
module AssetMonitors {
  import opened Options
  import opened Text
  import opened AssetObservations
  import opened AssetStores

  /** The only kind of event is "new asset", so its type, severity and message are not kept. */
  datatype AssetEvent = AssetEvent(
    timestamp: Timestamp, ipAddress: Option<string>, macAddress: Option<string>, hostname: Option<string>,
    protocol: string, interfaceName: string)

  datatype MonitorConfig = MonitorConfig(interfaceName: string, hasEventCallback: bool, hasAssetCallback: bool)

  datatype Call = AssetCall(asset: Asset, isNew: bool) | EventCall(event: AssetEvent)

  /** A monitor's inventory, and the callbacks it has made so far. */
  datatype Monitor = Monitor(store: map<string, Asset>, calls: seq<Call>)

  function NewMonitor(): Monitor {
    Monitor(map[], [])
  }

  function NewAssetEvent(asset: Asset, interfaceName: string): AssetEvent {
    AssetEvent(
      asset.firstSeen,
      if asset.ipAddresses == {} then None else Some(First(asset.ipAddresses)),
      Some(asset.macAddress),
      asset.hostname,
      if asset.sources == {} then "" else First(asset.sources),
      interfaceName)
  }

  predicate IsNew(store: map<string, Asset>, o: AssetObservation) {
    o.macAddress != "" && Lower(o.macAddress) !in store
  }

  /** The callbacks for one observation: the asset's first, then the event's. */
  function CallsFor(config: MonitorConfig, store: map<string, Asset>, o: AssetObservation, apply: Update): seq<Call> {
    var mac := Lower(o.macAddress);
    var after := StoreAfter(store, o, apply);
    if mac !in after then []
    else
      (if config.hasAssetCallback then [AssetCall(after[mac], IsNew(store, o))] else [])
      + if config.hasEventCallback && IsNew(store, o)
        then [EventCall(NewAssetEvent(after[mac], config.interfaceName))] else []
  }

  function MonitorAfter(config: MonitorConfig, apply: Update, m: Monitor, o: AssetObservation): Monitor {
    Monitor(StoreAfter(m.store, o, apply), m.calls + CallsFor(config, m.store, o, apply))
  }

  /** An asset is new exactly when the number of assets grows. */
  lemma GrowsWhenNew(store: map<string, Asset>, o: AssetObservation, apply: Update)
    ensures |StoreAfter(store, o, apply)| > |store| <==> IsNew(store, o)
  {
    var mac := Lower(o.macAddress);
    if o.macAddress != "" {
      assert StoreAfter(store, o, apply).Keys == store.Keys + {mac};
      assert |StoreAfter(store, o, apply)| == |StoreAfter(store, o, apply).Keys| && |store| == |store.Keys|;
    }
  }

  class AssetMonitor {
    const config: MonitorConfig
    const store: AssetStore
    var calls: seq<Call>

    ghost function State(): Monitor
      reads this, store
    {
      Monitor(store.assetsByMac, calls)
    }

    constructor (config: MonitorConfig, registry: OuiRegistry)
      ensures this.config == config && store.registry == registry
      ensures fresh(store) && State() == NewMonitor()
    {
      this.config := config;
      this.store := new AssetStore(registry);
      calls := [];
    }

    method ApplyObservation(o: AssetObservation)
      modifies this, store
      ensures State() == MonitorAfter(config, ApplyWith(store.registry), old(State()), o)
    {
      var before := |store.assetsByMac|;
      ghost var assets := store.assetsByMac;
      GrowsWhenNew(assets, o, ApplyWith(store.registry));
      store.ApplyObservation(o);
      Report(o, |store.assetsByMac| > before, assets, ApplyWith(store.registry));
    }

    /** The second half: the callbacks, the inventory being updated already. */
    method Report(o: AssetObservation, isNew: bool, ghost before: map<string, Asset>, ghost apply: Update)
      requires store.assetsByMac == StoreAfter(before, o, apply) && isNew == IsNew(before, o)
      modifies this
      ensures calls == old(calls) + CallsFor(config, before, o, apply)
    {
      if config.hasAssetCallback {
        var asset := store.FindByMacAddress(o.macAddress);
        if asset.Some? {
          calls := calls + [AssetCall(asset.value, isNew)];
        }
      }
      if !config.hasEventCallback || !isNew {
        return;
      }
      var asset := store.FindByMacAddress(o.macAddress);
      if asset.Some? {
        calls := calls + [EventCall(NewAssetEvent(asset.value, config.interfaceName))];
      }
    }
  }
}
