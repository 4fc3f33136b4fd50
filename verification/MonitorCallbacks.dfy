/** Every callback that the monitor makes over a run, in closed form. */
module MonitorCallbacks {
  import opened Options
  import opened Sequences
  import opened Text
  import opened AssetObservations
  import opened AssetStores
  import opened AssetHistories
  import opened AssetRankings
  import opened AssetMonitors
  import opened AssetEventDetectors
  import opened InventoryTheorems

  /** No observation before the `i`-th has its MAC address, letter case aside. */
  ghost predicate IsFirst(run: seq<AssetObservation>, i: nat)
    requires i < |run|
  {
    forall j :: 0 <= j < i ==> run[j].macAddress == "" || Lower(run[j].macAddress) != Lower(run[i].macAddress)
  }

  /** The report of a new asset, from the observation that showed it. */
  function EventAbout(o: AssetObservation, interfaceName: string): AssetEvent {
    AssetEvent(
      o.timestamp, o.ipAddress, Some(Lower(o.macAddress)),
      if o.hostname == Some("") then None else o.hostname,
      o.sourceId, interfaceName)
  }

  /** What the callbacks are told about the `i`-th observation. */
  ghost function CallsAt(
    config: MonitorConfig, run: seq<AssetObservation>, i: nat, inventory: seq<AssetObservation> -> map<string, Asset>)
    : seq<Call>
    requires i < |run|
  {
    CallsAbout(config, run[i], inventory(run[..i + 1]), IsFirst(run, i))
  }

  /** Nothing without a MAC address; otherwise the asset as it is right after the observation,
      and whether this was the first of its device; and behind that, for a first one, the event. */
  function CallsAbout(config: MonitorConfig, o: AssetObservation, after: map<string, Asset>, first: bool): seq<Call> {
    var mac := Lower(o.macAddress);
    if o.macAddress == "" || mac !in after then []
    else
      var told := if config.hasAssetCallback then [AssetCall(after[mac], first)] else [];
      if config.hasEventCallback && first then told + [EventCall(EventAbout(o, config.interfaceName))] else told
  }

  ghost function AllCalls(
    config: MonitorConfig, run: seq<AssetObservation>, inventory: seq<AssetObservation> -> map<string, Asset>)
    : seq<seq<Call>>
  {
    seq(|run|, i requires 0 <= i < |run| => CallsAt(config, run, i, inventory))
  }

  lemma AllCallsOneMore(
    config: MonitorConfig, before: seq<AssetObservation>, o: AssetObservation,
    inventory: seq<AssetObservation> -> map<string, Asset>)
    ensures AllCalls(config, before + [o], inventory)
         == AllCalls(config, before, inventory) + [CallsAt(config, before + [o], |before|, inventory)]
  {
    var run := before + [o];
    forall i | 0 <= i < |before|
      ensures AllCalls(config, run, inventory)[i] == AllCalls(config, before, inventory)[i]
    {
      assert run[..i + 1] == before[..i + 1] && run[i] == before[i];
      assert IsFirst(run, i) == IsFirst(before, i);
    }
  }

  lemma FirstIsNew(before: seq<AssetObservation>, o: AssetObservation, apply: Update)
    requires o.macAddress != ""
    ensures IsFirst(before + [o], |before|) <==> IsNew(RunStore(before, apply), o)
  {
    var run := before + [o];
    NewMeansUntouched(before, o, apply);
    forall j | 0 <= j < |before| ensures run[j] == before[j] && before[j] in before {
    }
    if IsFirst(run, |before|) {
      forall p | p in before ensures !Touches(p, Lower(o.macAddress)) {
        var j :| 0 <= j < |before| && before[j] == p;
        assert run[j] == p;
      }
    }
  }

  lemma EventIsAboutIt(
    store: map<string, Asset>, o: AssetObservation, interfaceName: string, apply: Update, registry: OuiRegistry)
    requires AddsBasics(apply) && Ranks(apply, registry) && IsNew(store, o)
    ensures NewAssetEvent(StoreAfter(store, o, apply)[Lower(o.macAddress)], interfaceName)
         == EventAbout(o, interfaceName)
  {
    NewAssetIsTheObservation(o, apply, registry);
  }

  /** The calls of one more observation. */
  lemma {:induction false} CallsForNext(
    config: MonitorConfig, before: seq<AssetObservation>, o: AssetObservation, apply: Update, registry: OuiRegistry,
    inventory: seq<AssetObservation> -> map<string, Asset>)
    requires AddsBasics(apply) && Ranks(apply, registry)
    requires inventory(before + [o]) == StoreAfter(RunStore(before, apply), o, apply)
    ensures CallsAt(config, before + [o], |before|, inventory) == CallsFor(config, RunStore(before, apply), o, apply)
  {
    var run := before + [o];
    assert run[..|before| + 1] == run && run[|before|] == o;
    if o.macAddress != "" {
      FirstIsNew(before, o, apply);
    }
    NoAssetWithoutMac(before, apply);
    CallsAreAboutIt(config, RunStore(before, apply), o, apply, registry);
  }

  lemma {:induction false} NoAssetWithoutMac(run: seq<AssetObservation>, apply: Update)
    ensures "" !in RunStore(run, apply)
  {
    if run != [] {
      NoAssetWithoutMac(run[..|run| - 1], apply);
      assert run[|run| - 1].macAddress != "" ==> |Lower(run[|run| - 1].macAddress)| > 0;
    }
  }

  lemma CallsAreAboutIt(
    config: MonitorConfig, store: map<string, Asset>, o: AssetObservation, apply: Update, registry: OuiRegistry)
    requires AddsBasics(apply) && Ranks(apply, registry) && "" !in store
    ensures CallsFor(config, store, o, apply)
         == CallsAbout(config, o, StoreAfter(store, o, apply), IsNew(store, o))
  {
    var mac, after := Lower(o.macAddress), StoreAfter(store, o, apply);
    if o.macAddress == "" {
      assert mac == "";
    } else {
      var told := if config.hasAssetCallback then [AssetCall(after[mac], IsNew(store, o))] else [];
      assert told + [] == told;
      if IsNew(store, o) {
        EventIsAboutIt(store, o, config.interfaceName, apply, registry);
      }
    }
  }

  lemma {:induction false} CallsInClosedForm(
    config: MonitorConfig, run: seq<AssetObservation>, apply: Update, registry: OuiRegistry,
    inventory: seq<AssetObservation> -> map<string, Asset>)
    requires AddsBasics(apply) && Ranks(apply, registry)
    requires forall r {:trigger inventory(r)} :: inventory(r) == RunStore(r, apply)
    ensures RunMonitor(config, apply, run).calls == Flat(AllCalls(config, run, inventory))
  {
    if run == [] {
      assert AllCalls(config, run, inventory) == [];
    } else {
      var before, o := run[..|run| - 1], run[|run| - 1];
      assert run == before + [o];
      CallsInClosedForm(config, before, apply, registry, inventory);
      MonitorHoldsStore(config, apply, before);
      AllCallsOneMore(config, before, o, inventory);
      CallsForNext(config, before, o, apply, registry, inventory);
      FlatAppend(AllCalls(config, before, inventory), CallsAt(config, run, |before|, inventory));
    }
  }

  /** Over every run, and whichever callbacks are set, the program's monitor makes exactly these
      calls, in this order. */
  lemma CallbacksAreExact(config: MonitorConfig, run: seq<AssetObservation>, registry: OuiRegistry)
    ensures RunMonitor(config, ApplyWith(registry), run).calls
         == Flat(AllCalls(config, run, r => Inventory(r, registry)))
  {
    UpdateHasItsProperties(registry);
    CallsInClosedForm(config, run, ApplyWith(registry), registry, r => Inventory(r, registry));
  }

  /** The condition under which nothing is told is only the empty MAC address: the inventory
      holds an asset right after each other observation. */
  lemma ToldAboutEach(run: seq<AssetObservation>, i: nat, registry: OuiRegistry)
    requires i < |run| && run[i].macAddress != ""
    ensures Lower(run[i].macAddress) in Inventory(run[..i + 1], registry)
  {
    var upTo := run[..i + 1];
    assert upTo[i] == run[i] && run[i] in upTo;
    InventoryInClosedForm(upTo, registry, Lower(run[i].macAddress));
  }
}
