/** From the bytes of DHCP messages to a derived hint: when the inventory calls a device a
    Windows machine. */
module WindowsHints {
  import opened Options
  import opened Text
  import opened Bytes
  import opened AssetObservations
  import opened AssetStores
  import opened AssetHistories
  import opened AssetMetadatas
  import opened Dhcp
  import opened DhcpRanking
  import opened InventoryTheorems

  const WINDOWS := "windows"

  // ---------------------------------------------------------------- one message

  /** No metadata key but the vendor class's is as long as it. */
  lemma OptionKeys(o: DhcpOption, e: MetadataEntry)
    requires e in EntriesFor(o)
    ensures if o.code == 60 then e == MetadataEntry(VENDOR_CLASS_KEY, AsText(o.value)) else |e.key| != 28
    ensures |VENDOR_CLASS_KEY| == 28
  {
  }

  lemma FixedKeys(payload: seq<Byte>, ports: Ports, codes: set<Byte>, e: MetadataEntry)
    requires |payload| >= FIXED_HEADER_LENGTH
    requires e in HeaderEntries(payload, ports) || e in SeenEntries(codes)
    ensures |e.key| != 28
  {
  }

  ghost predicate HasVendorClass(options: seq<DhcpOption>, v: string) {
    exists o :: o in options && o.code == 60 && AsText(o.value) == v
  }

  lemma VendorClassEntries(options: seq<DhcpOption>, v: string)
    ensures MetadataEntry(VENDOR_CLASS_KEY, v) in EntriesOf(SourceReadings(), options) <==> HasVendorClass(options, v)
  {
    var e := MetadataEntry(VENDOR_CLASS_KEY, v);
    EntriesComeFromOptions(SourceReadings(), options, e);
    forall o | o in options ensures e in EntriesFor(o) <==> o.code == 60 && AsText(o.value) == v {
      if e in EntriesFor(o) {
        OptionKeys(o, e);
      }
      if o.code == 60 {
        assert EntriesFor(o)[0] == MetadataEntry(VENDOR_CLASS_KEY, AsText(o.value));
      }
    }
    assert forall o :: SourceReadings().entries(o) == EntriesFor(o);
  }

  /** The options of the datagram. */
  function OptionsOfMessage(payload: seq<Byte>): seq<DhcpOption> {
    if |payload| < FIXED_HEADER_LENGTH + 4 then []
    else
      match OptionsIn(payload[FIXED_HEADER_LENGTH + 4..])
      case Some(options) => options
      case None => []
  }

  /** A message contributes as vendor classes exactly the texts of its options 60. */
  lemma VendorClassContributed(o: AssetObservation, payload: seq<Byte>, ports: Ports, t: Timestamp, v: string)
    requires MadeFrom(o, payload, ports, t)
    ensures Contributes(o.structuredMetadata.observed, VENDOR_CLASS_KEY, v) <==>
              v != "" && HasVendorClass(OptionsOfMessage(payload), v)
  {
    var r := SourceReadings();
    MessageInClosedForm(payload, r);
    var lease := MessageIn(payload, r).value.lease;
    var all, e := AllEntries(payload, ports, lease), MetadataEntry(VENDOR_CLASS_KEY, v);
    assert lease.entries == EntriesOf(r, OptionsOfMessage(payload));
    ObservedContributes(all, SOURCE_DHCP, t, VENDOR_CLASS_KEY, v);
    VendorClassEntries(OptionsOfMessage(payload), v);
    if e in HeaderEntries(payload, ports) || e in SeenEntries(lease.optionsSeen) {
      FixedKeys(payload, ports, lease.optionsSeen, e);
    }
    assert e in all <==>
      e in HeaderEntries(payload, ports) || e in lease.entries || e in SeenEntries(lease.optionsSeen);
  }

  // ---------------------------------------------------------------- the two matchers agree

  predicate NamesMicrosoft(v: string) {
    ContainsCaseInsensitive(v, "MSFT") || ContainsCaseInsensitive(v, "Microsoft")
  }

  lemma LowerNames()
    ensures Lower("MSFT") == "msft" && Lower("Microsoft") == "microsoft"
  {
  }

  /** The plugin's reading of a vendor class and the inventory's are the same test. */
  lemma MatchersAgree(v: string)
    ensures OsHintFromVendorClass(v) == Some(WINDOWS) <==> NamesMicrosoft(v)
    ensures NamesMicrosoft(v) ==> v != ""
  {
    LowerNames();
    assert "windows"[0] == 'w' && "android"[0] == 'a' && "macos/ios"[0] == 'm' && "embedded-linux"[0] == 'e';
  }

  // ---------------------------------------------------------------- the inventory

  lemma WindowsHintExactlyWhen(m: StructuredMetadata)
    ensures WindowsHint() in DerivedHints(m) <==> LooksLikeWindows(m)
  {
    HintsAreExact(m);
    CategoriesDiffer(WindowsHint().value);
  }

  lemma MacKeys(mac: string, registry: OuiRegistry, v: string)
    ensures !States(MacFacts(mac, registry), VENDOR_CLASS_KEY, v)
  {
    assert |VENDOR_CLASS_KEY| == 28;
    var facts := MacFacts(mac, registry);
    forall i | 0 <= i < |facts| ensures |facts[i].key| != 28 {
    }
  }

  lemma LooksLikeWindowsExactlyWhen(m: StructuredMetadata)
    requires Tidy(m.observed) && Tidy(m.reference) && Values(m.reference, VENDOR_CLASS_KEY) == {}
    ensures LooksLikeWindows(m) <==> exists v :: v in Values(m.observed, VENDOR_CLASS_KEY) && NamesMicrosoft(v)
  {
    var values := MetadataValues(m, VENDOR_CLASS_KEY);
    assert (if values.Some? then values.value else {}) == Values(m.observed, VENDOR_CLASS_KEY);
  }

  /** Nobody but the DHCP plugin says anything about vendor classes. */
  ghost predicate VendorClassesAreDhcp(history: seq<AssetObservation>) {
    forall o :: o in history ==>
      && (FromPlugin(o) || forall v :: !Contributes(o.structuredMetadata.observed, VENDOR_CLASS_KEY, v))
      && forall v :: !Contributes(o.structuredMetadata.reference, VENDOR_CLASS_KEY, v)
  }

  /** One of the device's DHCP messages carries an option 60 that the plugin reads as Windows. */
  ghost predicate SaidWindows(history: seq<AssetObservation>) {
    exists o, payload, ports, t, option ::
      && o in history && MadeFrom(o, payload, ports, t)
      && option in OptionsOfMessage(payload) && option.code == 60
      && OsHintFromVendorClass(AsText(option.value)) == Some(WINDOWS)
  }

  lemma SaidWindowsIsObserved(history: seq<AssetObservation>)
    requires VendorClassesAreDhcp(history)
    ensures SaidWindows(history) <==> exists v :: ObservedIn(history, VENDOR_CLASS_KEY, v) && NamesMicrosoft(v)
  {
    if SaidWindows(history) {
      var o, payload, ports, t, option :|
        && o in history && MadeFrom(o, payload, ports, t)
        && option in OptionsOfMessage(payload) && option.code == 60
        && OsHintFromVendorClass(AsText(option.value)) == Some(WINDOWS);
      var v := AsText(option.value);
      MatchersAgree(v);
      VendorClassContributed(o, payload, ports, t, v);
      assert ObservedIn(history, VENDOR_CLASS_KEY, v);
    }
    if v :| ObservedIn(history, VENDOR_CLASS_KEY, v) && NamesMicrosoft(v) {
      var o :| o in history && Contributes(o.structuredMetadata.observed, VENDOR_CLASS_KEY, v);
      var payload, ports, t :| MadeFrom(o, payload, ports, t);
      VendorClassContributed(o, payload, ports, t, v);
      var option :| option in OptionsOfMessage(payload) && option.code == 60 && AsText(option.value) == v;
      MatchersAgree(v);
    }
  }

  /** A device gets the Windows hint if and only if one of its DHCP messages, however long ago,
      carried a vendor class that the plugin reads as Windows. */
  lemma WindowsHintComesFromDhcp(run: seq<AssetObservation>, registry: OuiRegistry, mac: string)
    requires mac in Inventory(run, registry) && VendorClassesAreDhcp(Touching(run, mac))
    ensures WindowsHint() in Inventory(run, registry)[mac].structuredMetadata.derivedHints <==>
              SaidWindows(Touching(run, mac))
  {
    var history := Touching(run, mac);
    var m := Inventory(run, registry)[mac].structuredMetadata;
    InventoryInClosedForm(run, registry, mac);
    OneAssetPerMac(run, mac, ApplyWith(registry));
    ApplyWithMergesMetadata(registry);
    HintsAreRecomputed(mac, history, ApplyWith(registry), FactsFrom(registry));
    forall v ensures v !in Values(m.reference, VENDOR_CLASS_KEY) {
      MacKeys(mac, registry, v);
    }
    WindowsHintExactlyWhen(m);
    LooksLikeWindowsExactlyWhen(m);
    SaidWindowsIsObserved(history);
  }
}
