/** What the inventory, the two detectors and the ranking amount to for the program's own
    update of an asset, over every run of observations and every OUI table. */
module InventoryTheorems {
  import opened Options
  import opened Text
  import opened AssetObservations
  import opened AssetStores
  import opened AssetHistories
  import opened AssetRankings
  import opened AssetMetadatas
  import opened AssetRecordTimes
  import opened AssetMonitors
  import opened AssetEventDetectors
  import opened DhcpRanking
  import opened DisplayNames

  function Inventory(run: seq<AssetObservation>, registry: OuiRegistry): map<string, Asset> {
    RunStore(run, ApplyWith(registry))
  }

  /** Identity, addresses, sources and times. */
  ghost predicate BasicsAre(a: Asset, mac: string, history: seq<AssetObservation>) {
    && a.macAddress == mac && a.ipAddresses == Addresses(history) && a.sources == SourceIds(history)
    && IsEarliest(a.firstSeen, history) && IsLatest(a.lastSeen, history)
  }

  /** The descriptive fields: who has the last word on each. */
  ghost predicate DescriptionIs(a: Asset, mac: string, history: seq<AssetObservation>, registry: OuiRegistry) {
    && a.vendor ==
       (if LastSaid(history, VendorOf).Some? then LastSaid(history, VendorOf) else Registrant(mac, registry))
    && a.hostname == LastSaid(history, HostnameOf)
    && a.deviceType == MdnsElseFirst(history, DeviceTypeOf)
    && a.modelHint == MdnsElseFirst(history, ModelHintOf)
    && OsHintIs(a.osHint, history)
    && DisplayNameIs(a.displayName, history)
    && ((forall o :: o in history ==> NamedByHostname(o)) ==> a.displayName == NameInClosedForm(history))
  }

  /** Every value under every key, and every hint. */
  ghost predicate MetadataIs(a: Asset, mac: string, history: seq<AssetObservation>, registry: OuiRegistry) {
    var m := a.structuredMetadata;
    && Tidy(m.observed) && Tidy(m.reference)
    && (forall key, v :: v in Values(m.observed, key) <==> ObservedIn(history, key, v))
    && (forall key, v :: v in Values(m.reference, key) <==>
          ReferredIn(history, key, v) || States(MacFacts(mac, registry), key, v))
    && (forall h :: h in m.derivedHints <==> CalledFor(m, h))
    && AllDiffer(m.derivedHints)
  }

  /** Of each piece of observed metadata: since when and until when, and who brought it first. */
  ghost predicate RecordsAre(a: Asset, history: seq<AssetObservation>) {
    var observed := a.structuredMetadata.observed;
    forall key :: SpansAt(observed, key, Brought(history, key)) && Originates(observed, key, Arrived(history, key))
  }

  lemma RecordsInClosedForm(mac: string, history: seq<AssetObservation>, apply: Update, facts: Facts)
    requires history != [] && MergesMetadata(apply, facts)
    ensures RecordsAre(AssetFrom(mac, history, apply), history)
  {
    var observed := AssetFrom(mac, history, apply).structuredMetadata.observed;
    forall key
      ensures SpansAt(observed, key, Brought(history, key)) && Originates(observed, key, Arrived(history, key))
    {
      ObservedTimesInClosedForm(mac, history, apply, facts, key);
      OriginInClosedForm(mac, history, apply, facts, key);
    }
  }

  function Gave(key: string): AssetObservation -> bool {
    (o: AssetObservation) => key in o.metadata
  }

  /** Under `key` the flat metadata holds the value that was given last. */
  ghost predicate FlatValueIs(a: Asset, history: seq<AssetObservation>, key: string) {
    match LastThat(history, Gave(key))
    case Some(o) => key in a.metadata && key in o.metadata && a.metadata[key] == o.metadata[key]
    case None => key !in a.metadata
  }

  ghost predicate AddsFlatMetadata(apply: Update) {
    forall a, o :: apply(a, o).metadata == a.metadata + o.metadata
  }

  lemma {:induction false} FlatMetadataInClosedForm(
    mac: string, history: seq<AssetObservation>, apply: Update, key: string)
    requires history != [] && AddsFlatMetadata(apply)
    ensures FlatValueIs(AssetFrom(mac, history, apply), history, key)
  {
    var before, last, a := AssetFromOneMore(mac, history, apply);
    LastThatOneMore(before, last, Gave(key));
    assert Gave(key)(last) == (key in last.metadata);
    if before != [] {
      FlatMetadataInClosedForm(mac, before, apply, key);
    }
  }

  lemma {:induction false} HostnameInClosedForm(
    mac: string, history: seq<AssetObservation>, apply: Update, registry: OuiRegistry)
    requires history != [] && Ranks(apply, registry)
    ensures AssetFrom(mac, history, apply).hostname == LastSaid(history, HostnameOf)
  {
    var before, last, a := AssetFromOneMore(mac, history, apply);
    LastThatOneMore(before, last, Says(HostnameOf));
    assert Says(HostnameOf)(last) == HasValue(last.hostname);
    if before != [] {
      HostnameInClosedForm(mac, before, apply, registry);
    }
  }

  lemma VendorIsLastSaid(mac: string, history: seq<AssetObservation>, apply: Update, registry: OuiRegistry)
    requires history != [] && Ranks(apply, registry)
    ensures AssetFrom(mac, history, apply).vendor ==
            if LastSaid(history, VendorOf).Some? then LastSaid(history, VendorOf) else Registrant(mac, registry)
  {
    VendorInClosedForm(mac, history, apply, registry);
    SaidAtAll(history, Says(VendorOf));
  }

  lemma DescriptionInClosedForm(mac: string, history: seq<AssetObservation>, apply: Update, registry: OuiRegistry)
    requires history != [] && Ranks(apply, registry)
    ensures DescriptionIs(AssetFrom(mac, history, apply), mac, history, registry)
  {
    VendorIsLastSaid(mac, history, apply, registry);
    HostnameInClosedForm(mac, history, apply, registry);
    DeviceInClosedForm(mac, history, apply, registry);
    OsHintIsFolded(mac, history, apply, registry);
    OsHintInClosedForm(history);
    NamesAreFolded(mac, history, apply, registry);
    NameIsSucceeded(history);
    if forall o :: o in history ==> NamedByHostname(o) {
      DisplayNameInClosedForm(history);
    }
  }

  lemma AllMetadataInClosedForm(
    mac: string, history: seq<AssetObservation>, apply: Update, facts: Facts, registry: OuiRegistry)
    requires history != [] && MergesMetadata(apply, facts) && facts(mac) == MacFacts(mac, registry)
    ensures MetadataIs(AssetFrom(mac, history, apply), mac, history, registry)
  {
    var m := AssetFrom(mac, history, apply).structuredMetadata;
    MetadataInClosedForm(mac, history, apply, facts, "");
    forall key
      ensures forall v :: v in Values(m.observed, key) <==> ObservedIn(history, key, v)
      ensures forall v :: v in Values(m.reference, key) <==>
                ReferredIn(history, key, v) || States(MacFacts(mac, registry), key, v)
    {
      MetadataInClosedForm(mac, history, apply, facts, key);
    }
    HintsAreRecomputed(mac, history, apply, facts);
    HintsAreExact(m);
  }

  /** The whole inventory in closed form: an asset for exactly the MAC addresses seen, and
      every field of it said in terms of the observations of that device alone. */
  lemma InventoryInClosedForm(run: seq<AssetObservation>, registry: OuiRegistry, mac: string)
    ensures mac in Inventory(run, registry) <==> exists o :: o in run && Touches(o, mac)
    ensures mac in Inventory(run, registry) ==>
              var a, history := Inventory(run, registry)[mac], Touching(run, mac);
              && BasicsAre(a, mac, history) && DescriptionIs(a, mac, history, registry)
              && MetadataIs(a, mac, history, registry) && RecordsAre(a, history)
              && forall key :: FlatValueIs(a, history, key)
  {
    var apply, history := ApplyWith(registry), Touching(run, mac);
    OneAssetPerMac(run, mac, apply);
    TouchedAtAll(run, mac);
    if history != [] {
      UpdateHasItsProperties(registry);
      SetsInClosedForm(mac, history, apply);
      TimesInClosedForm(mac, history, apply);
      DescriptionInClosedForm(mac, history, apply, registry);
      AllMetadataInClosedForm(mac, history, apply, FactsFrom(registry), registry);
      RecordsInClosedForm(mac, history, apply, FactsFrom(registry));
      forall key ensures FlatValueIs(AssetFrom(mac, history, apply), history, key) {
        FlatMetadataInClosedForm(mac, history, apply, key);
      }
    }
  }

  lemma UpdateHasItsProperties(registry: OuiRegistry)
    ensures AddsBasics(ApplyWith(registry)) && Ranks(ApplyWith(registry), registry)
    ensures MergesMetadata(ApplyWith(registry), FactsFrom(registry)) && AddsFlatMetadata(ApplyWith(registry))
  {
    ApplyWithAddsBasics(registry);
    ApplyWithRanks(registry);
    ApplyWithMergesMetadata(registry);
    ApplyWithAddsFlatMetadata(registry);
  }

  lemma ApplyWithAddsFlatMetadata(registry: OuiRegistry)
    ensures AddsFlatMetadata(ApplyWith(registry))
  {
  }

  /** Whatever order the observations of a run arrive in, the inventory has the same MAC
      addresses, and each asset is the same but for what depends on who spoke last. */
  lemma ArrivalOrderDoesNotMatter(
    run1: seq<AssetObservation>, run2: seq<AssetObservation>, registry: OuiRegistry, mac: string)
    requires multiset(run1) == multiset(run2)
    ensures mac in Inventory(run1, registry) <==> mac in Inventory(run2, registry)
    ensures mac in Inventory(run1, registry) ==>
              && SameView(Inventory(run1, registry)[mac], Inventory(run2, registry)[mac])
              && forall key :: SameTimes(Inventory(run1, registry)[mac].structuredMetadata.observed,
                                         Inventory(run2, registry)[mac].structuredMetadata.observed, key)
  {
    UpdateHasItsProperties(registry);
    OrderDoesNotMatter(run1, run2, mac, ApplyWith(registry), FactsFrom(registry));
    if mac in Inventory(run1, registry) {
      forall key
        ensures SameTimes(Inventory(run1, registry)[mac].structuredMetadata.observed,
                          Inventory(run2, registry)[mac].structuredMetadata.observed, key)
      {
        TimesSurviveReordering(run1, run2, mac, registry, key);
      }
    }
  }

  /** The monitor and the event detector, after any run and for any next observation. */
  lemma MonitorAndDetectorAgree(
    run: seq<AssetObservation>, o: AssetObservation, config: MonitorConfig, registry: OuiRegistry)
    requires config.hasEventCallback
    ensures var mine := EventsOf(CallsFor(config, Inventory(run, registry), o, ApplyWith(registry)));
            var theirs := Detected(RunDetector(run), o, config.interfaceName);
            && |mine| == |theirs| <= 1
            && (mine != [] <==> o.macAddress != "" && forall p :: p in run ==> !Touches(p, Lower(o.macAddress)))
            && (mine != [] ==> SameEvent(mine[0], theirs[0]))
            && (mine != [] ==> (mine[0].hostname == theirs[0].hostname <==> o.hostname != Some("")))
    ensures RunDetector(run).Keys == Inventory(run, registry).Keys
    ensures forall mac :: mac in RunDetector(run) ==>
              && RunDetector(run)[mac].firstSeen == Inventory(run, registry)[mac].firstSeen
              && RunDetector(run)[mac].lastSeen == Inventory(run, registry)[mac].lastSeen
  {
    UpdateHasItsProperties(registry);
    DetectorsAgree(run, o, config, ApplyWith(registry), registry);
    DetectorKnowsTheStore(run, ApplyWith(registry));
  }

  /** Over whole runs: the program's own monitor and detector report the same events in the
      same order, one for each asset, and equal ones if no observation has an empty hostname. */
  lemma ReportsAgreeOverRuns(run: seq<AssetObservation>, config: MonitorConfig, registry: OuiRegistry)
    requires config.hasEventCallback
    ensures var mine := EventsOf(RunMonitor(config, ApplyWith(registry), run).calls);
            var theirs := AllDetected(run, config.interfaceName);
            && SameEvents(mine, theirs) && |mine| == |Inventory(run, registry)|
            && (NoEmptyHostname(run) ==> mine == theirs)
  {
    UpdateHasItsProperties(registry);
    RunsAgree(run, config, ApplyWith(registry), registry);
  }

  /** Over every run whose DHCP observations come from the DHCP plugin. */
  lemma RankingHolds(run: seq<AssetObservation>, registry: OuiRegistry, mac: string)
    requires mac in Inventory(run, registry)
    requires forall o :: o in run && o.sourceId == SOURCE_DHCP ==> FromPlugin(o)
    ensures var dhcp := LastThat(Touching(run, mac), DhcpSaysOs);
            dhcp.Some? ==> Inventory(run, registry)[mac].osHint == dhcp.value.osHint
    ensures Inventory(run, registry)[mac].displayName == NameInClosedForm(Touching(run, mac))
  {
    OneAssetPerMac(run, mac, ApplyWith(registry));
    ApplyWithRanks(registry);
    TouchingIsPart(run, mac);
    RankingOverRuns(mac, Touching(run, mac), ApplyWith(registry), registry);
  }

  lemma {:induction false} TouchingIsPart(run: seq<AssetObservation>, mac: string)
    ensures forall o :: o in Touching(run, mac) ==> o in run
  {
    if run != [] {
      TouchingIsPart(run[..|run| - 1], mac);
      assert run == run[..|run| - 1] + [run[|run| - 1]];
    }
  }
}
