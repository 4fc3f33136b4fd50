/** The second implementation of "new asset", and its agreement with the monitor. */
module AssetEventDetectors {
  import opened Options
  import opened Text
  import opened AssetObservations
  import opened AssetStores
  import opened AssetHistories
  import opened AssetRankings
  import opened AssetMonitors

  datatype MacState = MacState(firstSeen: Timestamp, lastSeen: Timestamp)

  type KnownMacs = map<string, MacState>

  function BaseEvent(o: AssetObservation, interfaceName: string): AssetEvent {
    AssetEvent(o.timestamp, o.ipAddress, Some(Lower(o.macAddress)), o.hostname, o.sourceId, interfaceName)
  }

  function Remembered(known: KnownMacs, o: AssetObservation): KnownMacs {
    var mac := Lower(o.macAddress);
    if o.macAddress == "" then known
    else if mac !in known then known[mac := MacState(o.timestamp, o.timestamp)]
    else known[mac := MacState(Earlier(o.timestamp, known[mac].firstSeen), Later(o.timestamp, known[mac].lastSeen))]
  }

  function Detected(known: KnownMacs, o: AssetObservation, interfaceName: string): seq<AssetEvent> {
    if o.macAddress != "" && Lower(o.macAddress) !in known then [BaseEvent(o, interfaceName)] else []
  }

  class AssetEventDetector {
    const interfaceName: string
    var knownMacs: KnownMacs

    constructor (interfaceName: string)
      ensures this.interfaceName == interfaceName && knownMacs == map[]
    {
      this.interfaceName := interfaceName;
      knownMacs := map[];
    }

    method RememberObservation(o: AssetObservation, mac: string)
      requires o.macAddress != "" && mac == Lower(o.macAddress)
      modifies this
      ensures knownMacs == Remembered(old(knownMacs), o)
    {
      if mac !in knownMacs {
        knownMacs := knownMacs[mac := MacState(o.timestamp, o.timestamp)];
      } else {
        var known := knownMacs[mac];
        if TimestampLess(o.timestamp, known.firstSeen) {
          known := known.(firstSeen := o.timestamp);
        }
        if TimestampLess(known.lastSeen, o.timestamp) {
          known := known.(lastSeen := o.timestamp);
        }
        knownMacs := knownMacs[mac := known];
      }
    }

    method DetectAndRemember(o: AssetObservation) returns (events: seq<AssetEvent>)
      modifies this
      ensures events == Detected(old(knownMacs), o, interfaceName)
      ensures knownMacs == Remembered(old(knownMacs), o)
    {
      events := [];
      if o.macAddress == "" {
        return;
      }
      var mac := Lower(o.macAddress);
      if mac !in knownMacs {
        events := events + [BaseEvent(o, interfaceName)];
      }
      RememberObservation(o, mac);
    }
  }

  function RunDetector(run: seq<AssetObservation>): KnownMacs {
    if run == [] then map[] else Remembered(RunDetector(run[..|run| - 1]), run[|run| - 1])
  }

  /** What the detector knows about each MAC is what the inventory says about its asset. */
  lemma {:induction false} DetectorKnowsTheStore(run: seq<AssetObservation>, apply: Update)
    requires AddsBasics(apply)
    ensures RunDetector(run).Keys == RunStore(run, apply).Keys
    ensures forall mac :: mac in RunDetector(run) ==>
              && RunDetector(run)[mac].firstSeen == RunStore(run, apply)[mac].firstSeen
              && RunDetector(run)[mac].lastSeen == RunStore(run, apply)[mac].lastSeen
  {
    if run != [] {
      DetectorKnowsTheStore(run[..|run| - 1], apply);
    }
  }

  function EventsOf(calls: seq<Call>): seq<AssetEvent> {
    if calls == [] then []
    else EventsOf(calls[..|calls| - 1]) + if calls[|calls| - 1].EventCall? then [calls[|calls| - 1].event] else []
  }

  /** Equal in everything but the hostname. */
  predicate SameEvent(a: AssetEvent, b: AssetEvent) {
    a.(hostname := None) == b.(hostname := None)
  }

  /** After any run the two implementations react to the next observation alike: both report
      it or neither does, and they report it exactly when its MAC address is not empty and no
      earlier observation had the same one, letter case aside. The reports agree in
      timestamp, MAC, IP, protocol and interface; in the hostname they differ exactly when
      the observation carries an empty hostname. */
  lemma DetectorsAgree(
    run: seq<AssetObservation>, o: AssetObservation, config: MonitorConfig, apply: Update, registry: OuiRegistry)
    requires AddsBasics(apply) && Ranks(apply, registry) && config.hasEventCallback
    ensures var mine := EventsOf(CallsFor(config, RunStore(run, apply), o, apply));
            var theirs := Detected(RunDetector(run), o, config.interfaceName);
            && |mine| == |theirs|
            && (mine != [] <==> o.macAddress != "" && forall p :: p in run ==> !Touches(p, Lower(o.macAddress)))
            && (mine != [] ==> |mine| == 1 && SameEvent(mine[0], theirs[0]))
            && (mine != [] ==> (mine[0].hostname == theirs[0].hostname <==> o.hostname != Some("")))
  {
    DetectorKnowsTheStore(run, apply);
    var store := RunStore(run, apply);
    NewMeansUntouched(run, o, apply);
    OneEvent(config, store, o, apply);
    if IsNew(store, o) {
      SameReport(store, o, config.interfaceName, apply, registry);
    }
  }

  lemma NewMeansUntouched(run: seq<AssetObservation>, o: AssetObservation, apply: Update)
    ensures IsNew(RunStore(run, apply), o) <==>
              o.macAddress != "" && forall p :: p in run ==> !Touches(p, Lower(o.macAddress))
  {
    OneAssetPerMac(run, Lower(o.macAddress), apply);
    TouchedAtAll(run, Lower(o.macAddress));
  }

  lemma SameReport(
    store: map<string, Asset>, o: AssetObservation, interfaceName: string, apply: Update, registry: OuiRegistry)
    requires AddsBasics(apply) && Ranks(apply, registry) && IsNew(store, o)
    ensures var mine := NewAssetEvent(StoreAfter(store, o, apply)[Lower(o.macAddress)], interfaceName);
            var theirs := BaseEvent(o, interfaceName);
            SameEvent(mine, theirs) && (mine.hostname == theirs.hostname <==> o.hostname != Some(""))
  {
    NewAssetIsTheObservation(o, apply, registry);
  }

  lemma {:induction false} TouchedAtAll(run: seq<AssetObservation>, mac: string)
    ensures Touching(run, mac) != [] <==> exists p :: p in run && Touches(p, mac)
  {
    if run != [] {
      TouchedAtAll(run[..|run| - 1], mac);
      assert run == run[..|run| - 1] + [run[|run| - 1]];
    }
  }

  lemma OneEvent(config: MonitorConfig, store: map<string, Asset>, o: AssetObservation, apply: Update)
    requires config.hasEventCallback
    ensures EventsOf(CallsFor(config, store, o, apply)) ==
            if IsNew(store, o)
            then [NewAssetEvent(StoreAfter(store, o, apply)[Lower(o.macAddress)], config.interfaceName)] else []
  {
    var after, mac := StoreAfter(store, o, apply), Lower(o.macAddress);
    if mac in after {
      var first := if config.hasAssetCallback then [AssetCall(after[mac], IsNew(store, o))] else [];
      var second := if IsNew(store, o) then [EventCall(NewAssetEvent(after[mac], config.interfaceName))] else [];
      assert CallsFor(config, store, o, apply) == first + second;
      assert EventsOf(first) == [];
      if second == [] {
        assert first + second == first;
      } else {
        assert (first + second)[..|first|] == first;
      }
    }
  }

  lemma NewAssetIsTheObservation(o: AssetObservation, apply: Update, registry: OuiRegistry)
    requires AddsBasics(apply) && Ranks(apply, registry)
    ensures var a := apply(BlankAsset(Lower(o.macAddress), o.timestamp), o);
            && a.macAddress == Lower(o.macAddress)
            && a.firstSeen == o.timestamp
            && a.hostname == (if HasValue(o.hostname) then o.hostname else None)
            && (if a.ipAddresses == {} then None else Some(First(a.ipAddresses))) == o.ipAddress
            && (if a.sources == {} then "" else First(a.sources)) == o.sourceId
  {
    var blank := BlankAsset(Lower(o.macAddress), o.timestamp);
    var a := apply(blank, o);
    assert a.ipAddresses == if o.ipAddress.Some? then {o.ipAddress.value} else {};
    assert a.sources == if o.sourceId != "" then {o.sourceId} else {};
  }

  // ---------------------------------------------------------------- whole runs

  /** The monitor after a run, with all the callbacks it made. */
  function RunMonitor(config: MonitorConfig, apply: Update, run: seq<AssetObservation>): Monitor {
    if run == [] then NewMonitor()
    else MonitorAfter(config, apply, RunMonitor(config, apply, run[..|run| - 1]), run[|run| - 1])
  }

  /** All the events that the detector returned over a run. */
  function AllDetected(run: seq<AssetObservation>, interfaceName: string): seq<AssetEvent> {
    if run == [] then []
    else
      var before := run[..|run| - 1];
      AllDetected(before, interfaceName) + Detected(RunDetector(before), run[|run| - 1], interfaceName)
  }

  lemma {:induction false} EventsConcat(a: seq<Call>, b: seq<Call>)
    ensures EventsOf(a + b) == EventsOf(a) + EventsOf(b)
    decreases |b|
  {
    if b == [] {
      assert a + b == a;
    } else {
      assert (a + b)[..|a + b| - 1] == a + b[..|b| - 1];
      EventsConcat(a, b[..|b| - 1]);
    }
  }

  predicate SameEvents(a: seq<AssetEvent>, b: seq<AssetEvent>) {
    |a| == |b| && forall i :: 0 <= i < |a| ==> SameEvent(a[i], b[i])
  }

  /** Equal hostnames make the same events equal. */
  lemma SameEventsAreEqual(a: seq<AssetEvent>, b: seq<AssetEvent>)
    requires SameEvents(a, b) && forall i :: 0 <= i < |a| ==> a[i].hostname == b[i].hostname
    ensures a == b
  {
    forall i | 0 <= i < |a| ensures a[i] == b[i] {
      assert a[i] == a[i].(hostname := None).(hostname := a[i].hostname);
      assert b[i] == b[i].(hostname := None).(hostname := b[i].hostname);
    }
  }

  lemma {:induction false} MonitorHoldsStore(config: MonitorConfig, apply: Update, run: seq<AssetObservation>)
    ensures RunMonitor(config, apply, run).store == RunStore(run, apply)
  {
    if run != [] {
      MonitorHoldsStore(config, apply, run[..|run| - 1]);
    }
  }

  predicate NoEmptyHostname(run: seq<AssetObservation>) {
    forall o :: o in run ==> o.hostname != Some("")
  }

  ghost predicate Agree(mine: seq<AssetEvent>, theirs: seq<AssetEvent>, run: seq<AssetObservation>, assets: nat) {
    && SameEvents(mine, theirs) && |mine| == assets
    && (NoEmptyHostname(run) ==> mine == theirs)
  }

  lemma AgreeOneMore(
    mine: seq<AssetEvent>, theirs: seq<AssetEvent>, run: seq<AssetObservation>, assets: nat,
    a: seq<AssetEvent>, b: seq<AssetEvent>, o: AssetObservation)
    requires Agree(mine, theirs, run, assets) && SameEvents(a, b)
    requires o.hostname != Some("") ==> forall i :: 0 <= i < |a| ==> a[i].hostname == b[i].hostname
    ensures Agree(mine + a, theirs + b, run + [o], assets + |a|)
  {
    OneMoreEvent(mine, theirs, a, b);
    if NoEmptyHostname(run + [o]) {
      assert o in run + [o];
      assert forall p :: p in run ==> p in run + [o];
    }
  }

  /** What both say of one more observation. */
  lemma StepEvents(
    before: seq<AssetObservation>, o: AssetObservation, config: MonitorConfig, apply: Update, registry: OuiRegistry)
    requires AddsBasics(apply) && Ranks(apply, registry) && config.hasEventCallback
    ensures var store := RunStore(before, apply);
            var a := EventsOf(CallsFor(config, store, o, apply));
            var b := Detected(RunDetector(before), o, config.interfaceName);
            && SameEvents(a, b) && |a| == |StoreAfter(store, o, apply)| - |store|
            && (o.hostname != Some("") ==> forall i :: 0 <= i < |a| ==> a[i].hostname == b[i].hostname)
  {
    DetectorsAgree(before, o, config, apply, registry);
    OneEvent(config, RunStore(before, apply), o, apply);
    OneMoreAsset(RunStore(before, apply), o, apply);
  }

  lemma MonitorOneMore(config: MonitorConfig, apply: Update, before: seq<AssetObservation>, o: AssetObservation)
    ensures RunMonitor(config, apply, before + [o]).calls
            == RunMonitor(config, apply, before).calls + CallsFor(config, RunStore(before, apply), o, apply)
    ensures RunStore(before + [o], apply) == StoreAfter(RunStore(before, apply), o, apply)
  {
    assert (before + [o])[..|before|] == before;
    MonitorHoldsStore(config, apply, before);
  }

  lemma DetectedOneMore(before: seq<AssetObservation>, o: AssetObservation, interfaceName: string)
    ensures AllDetected(before + [o], interfaceName)
            == AllDetected(before, interfaceName) + Detected(RunDetector(before), o, interfaceName)
  {
    assert (before + [o])[..|before|] == before;
  }

  /** Over any run both implementations report the same events in the same order, one for each
      asset of the inventory; if no observation carries an empty hostname they are equal. */
  lemma {:induction false} RunsAgree(
    run: seq<AssetObservation>, config: MonitorConfig, apply: Update, registry: OuiRegistry)
    requires AddsBasics(apply) && Ranks(apply, registry) && config.hasEventCallback
    ensures Agree(EventsOf(RunMonitor(config, apply, run).calls), AllDetected(run, config.interfaceName),
                  run, |RunStore(run, apply)|)
  {
    if run != [] {
      var before, o := run[..|run| - 1], run[|run| - 1];
      assert run == before + [o];
      RunsAgree(before, config, apply, registry);
      StepEvents(before, o, config, apply, registry);
      var store := RunStore(before, apply);
      StepAgrees(RunMonitor(config, apply, before).calls, AllDetected(before, config.interfaceName), before, |store|,
                 CallsFor(config, store, o, apply), Detected(RunDetector(before), o, config.interfaceName), o);
      MonitorOneMore(config, apply, before, o);
      DetectedOneMore(before, o, config.interfaceName);
    }
  }

  lemma StepAgrees(
    calls: seq<Call>, theirs: seq<AssetEvent>, run: seq<AssetObservation>, assets: nat,
    more: seq<Call>, b: seq<AssetEvent>, o: AssetObservation)
    requires Agree(EventsOf(calls), theirs, run, assets) && SameEvents(EventsOf(more), b)
    requires o.hostname != Some("") ==>
               forall i :: 0 <= i < |EventsOf(more)| ==> EventsOf(more)[i].hostname == b[i].hostname
    ensures Agree(EventsOf(calls + more), theirs + b, run + [o], assets + |EventsOf(more)|)
  {
    EventsConcat(calls, more);
    AgreeOneMore(EventsOf(calls), theirs, run, assets, EventsOf(more), b, o);
  }

  lemma OneMoreAsset(store: map<string, Asset>, o: AssetObservation, apply: Update)
    ensures |StoreAfter(store, o, apply)| == |store| + if IsNew(store, o) then 1 else 0
  {
    var mac := Lower(o.macAddress);
    if o.macAddress != "" {
      assert StoreAfter(store, o, apply).Keys == store.Keys + {mac};
      assert |StoreAfter(store, o, apply)| == |StoreAfter(store, o, apply).Keys| && |store| == |store.Keys|;
    }
  }

  lemma OneMoreEvent(mine: seq<AssetEvent>, theirs: seq<AssetEvent>, a: seq<AssetEvent>, b: seq<AssetEvent>)
    requires SameEvents(mine, theirs) && SameEvents(a, b)
    ensures SameEvents(mine + a, theirs + b)
    ensures mine == theirs && (forall i :: 0 <= i < |a| ==> a[i].hostname == b[i].hostname) ==> mine + a == theirs + b
  {
    if forall i :: 0 <= i < |a| ==> a[i].hostname == b[i].hostname {
      SameEventsAreEqual(a, b);
    }
  }
}
