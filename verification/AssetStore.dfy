/** The inventory: one asset per MAC address, folded from the stream of observations. */
module AssetStores {
  import opened Options
  import opened Text
  import opened AssetObservations

  datatype Asset = Asset(
    macAddress: string, ipAddresses: set<string>, hostname: Option<string>, displayName: Option<string>,
    vendor: Option<string>, osHint: Option<string>, deviceType: Option<string>, modelHint: Option<string>,
    firstSeen: Timestamp, lastSeen: Timestamp, sources: set<string>, metadata: map<string, string>,
    structuredMetadata: StructuredMetadata)

  /** Which organisation registered a MAC prefix. Everything below holds of any table. */
  type OuiRegistry = map<string, string>

  predicate HasValue(value: Option<string>) {
    value.Some? && value.value != ""
  }

  // ---------------------------------------------------------------- what a MAC address tells

  function HexDigit(c: char): Option<nat> {
    if '0' <= c <= '9' then Some(c as nat - '0' as nat)
    else if 'a' <= c <= 'f' then Some(c as nat - 'a' as nat + 10)
    else if 'A' <= c <= 'F' then Some(c as nat - 'A' as nat + 10)
    else None
  }

  /** Reading a two-character string with `std::hex`: a leading blank or sign is accepted, the
      second character may end the number, and a negative value wraps beyond 0xff. */
  function ParseHexByte(value: string): Option<nat> {
    if |value| != 2 then None
    else
      var high, low := HexDigit(value[0]), HexDigit(value[1]);
      if value[0] in " \t\n\r" || value[0] == 11 as char || value[0] == 12 as char || value[0] == '+' then low
      else if value[0] == '-' then if low == Some(0) then low else None
      else if high.None? then None
      else if low.Some? then Some(16 * high.value + low.value)
      else if value[0] == '0' && (value[1] == 'x' || value[1] == 'X') then None
      else high
  }

  datatype Fact = Fact(key: string, value: string, source: string)

  function MacOui(macAddress: string): Option<string> {
    var parts := Pieces(macAddress, ':');
    if |parts| < 3 then None else Some(parts[0] + ":" + parts[1] + ":" + parts[2])
  }

  function Registrant(macAddress: string, registry: OuiRegistry): Option<string> {
    var oui := MacOui(macAddress);
    if oui.Some? && oui.value in registry then Some(registry[oui.value]) else None
  }

  /** The reference facts about a MAC address, in the order in which they are added. */
  function MacFacts(macAddress: string, registry: OuiRegistry): seq<Fact> {
    var parts := Pieces(macAddress, ':');
    var octet := if parts == [] then None else ParseHexByte(parts[0]);
    var oui := MacOui(macAddress);
    var registrant := Registrant(macAddress, registry);
    (if octet.None? then []
     else [Fact("mac.is_multicast", if octet.value % 2 != 0 then "true" else "false", "mac-address"),
           Fact("mac.is_locally_administered", if octet.value / 2 % 2 != 0 then "true" else "false", "mac-address")])
    + (if oui.None? then [] else [Fact("mac.oui", oui.value, "mac-address")])
    + (if registrant.None? then []
       else [Fact("mac.oui.registrant", registrant.value, "curated-oui"),
             Fact("mac.oui.registry_version", "curated-oui-v1", "curated-oui")])
  }

  function AddFact(reference: Records, fact: Fact, t: Timestamp): Records {
    if fact.key == "" || fact.value == "" then reference
    else MergeRecord(reference, MakeRecord(fact.key, fact.value, fact.source, "reference", t))
  }

  function AddFacts(reference: Records, facts: seq<Fact>, t: Timestamp): Records {
    if facts == [] then reference
    else AddFact(AddFacts(reference, facts[..|facts| - 1], t), facts[|facts| - 1], t)
  }

  // ---------------------------------------------------------------- source ranking

  /** An mDNS value always wins, any other value only where there is none yet. */
  function Ranked(current: Option<string>, sourceId: string, candidate: Option<string>): Option<string> {
    if HasValue(candidate) && (sourceId == SOURCE_MDNS || !HasValue(current)) then candidate else current
  }

  function RankedDisplayName(current: Option<string>, hostname: Option<string>, o: AssetObservation): Option<string> {
    if HasValue(o.displayName)
       && (o.sourceId == SOURCE_MDNS || !HasValue(current) || (o.sourceId == SOURCE_DHCP && current == hostname))
    then o.displayName
    else current
  }

  predicate Vague(osHint: Option<string>) {
    osHint == Some("linux/unix") || osHint == Some("network-device")
  }

  function RankedOsHint(current: Option<string>, sourceId: string, candidate: Option<string>): Option<string> {
    if HasValue(candidate)
       && (sourceId == SOURCE_DHCP || !HasValue(current) || (sourceId == SOURCE_SSDP && Vague(current)))
    then candidate
    else current
  }

  function ApplySummary(a: Asset, o: AssetObservation): Asset {
    a.(displayName := RankedDisplayName(a.displayName, a.hostname, o),
       vendor := if HasValue(o.vendor) then o.vendor else a.vendor,
       deviceType := Ranked(a.deviceType, o.sourceId, o.deviceType),
       modelHint := Ranked(a.modelHint, o.sourceId, o.modelHint),
       osHint := RankedOsHint(a.osHint, o.sourceId, o.osHint))
  }

  // ---------------------------------------------------------------- derived hints

  /** Observed metadata hides reference metadata of the same key. */
  function MetadataValues(m: StructuredMetadata, key: string): Option<set<string>> {
    if key in m.observed then Some(m.observed[key].values)
    else if key in m.reference then Some(m.reference[key].values)
    else None
  }

  predicate MetadataContains(m: StructuredMetadata, key: string, needle: string) {
    var values := MetadataValues(m, key);
    values.Some? && exists v :: v in values.value && ContainsCaseInsensitive(v, needle)
  }

  function PrinterHint(): DerivedHint {
    DerivedHint("device_type", "printer", "high", PrinterServiceSeen, ["mdns.services"])
  }

  function WindowsHint(): DerivedHint {
    DerivedHint("os", "windows", "medium", MicrosoftVendorClass, ["dhcp.vendor_class_identifier"])
  }

  function ServerHint(): DerivedHint {
    DerivedHint("role", "server_candidate", "medium", SentSynAck, ["tcp.syn_ack_ports"])
  }

  function VendorHint(registrant: string): DerivedHint {
    DerivedHint("vendor", registrant, "medium", OuiRegistryEntry, ["mac.oui.registrant"])
  }

  function VendorHints(registrants: seq<string>): seq<DerivedHint> {
    seq(|registrants|, i requires 0 <= i < |registrants| => VendorHint(registrants[i]))
  }

  predicate LooksLikePrinter(m: StructuredMetadata) {
    MetadataContains(m, "mdns.services", "_ipp._tcp.local")
    || MetadataContains(m, "mdns.services", "_printer._tcp.local")
  }

  predicate LooksLikeWindows(m: StructuredMetadata) {
    MetadataContains(m, "dhcp.vendor_class_identifier", "MSFT")
    || MetadataContains(m, "dhcp.vendor_class_identifier", "Microsoft")
  }

  predicate LooksLikeServer(m: StructuredMetadata) {
    MetadataValues(m, "tcp.syn_ack_ports").Some?
  }

  function Registrants(m: StructuredMetadata): set<string> {
    var values := MetadataValues(m, "mac.oui.registrant");
    if values.Some? then values.value else {}
  }

  function DeviceHints(m: StructuredMetadata): seq<DerivedHint> {
    (if LooksLikePrinter(m) then [PrinterHint()] else [])
    + (if LooksLikeWindows(m) then [WindowsHint()] else [])
    + (if LooksLikeServer(m) then [ServerHint()] else [])
  }

  /** The hints that the present metadata calls for, earlier hints forgotten. */
  function DerivedHints(m: StructuredMetadata): seq<DerivedHint> {
    AddHints([], DeviceHints(m) + VendorHints(InOrder(Registrants(m))))
  }

  /** `calls` lists the hints added so far. */
  method AddHintWhen(wanted: bool, hint: DerivedHint, hints: seq<DerivedHint>, ghost calls: seq<DerivedHint>)
    returns (hints': seq<DerivedHint>)
    requires hints == AddHints([], calls)
    ensures hints' == AddHints([], calls + if wanted then [hint] else [])
  {
    if wanted {
      assert (calls + [hint])[..|calls|] == calls;
      hints' := AddDerivedHint(hints, hint);
    } else {
      assert calls + [] == calls;
      hints' := hints;
    }
  }

  method AddVendorHints(registrants: seq<string>, hints: seq<DerivedHint>, ghost calls: seq<DerivedHint>)
    returns (hints': seq<DerivedHint>)
    requires hints == AddHints([], calls)
    ensures hints' == AddHints([], calls + VendorHints(registrants))
  {
    hints' := hints;
    ghost var done := calls;
    assert calls + VendorHints(registrants[..0]) == calls;
    for i := 0 to |registrants|
      invariant done == calls + VendorHints(registrants[..i]) && hints' == AddHints([], done)
    {
      var hint := VendorHint(registrants[i]);
      hints' := AddHintWhen(true, hint, hints', done);
      VendorHintsOneMore(registrants, i, calls);
      done := done + [hint];
    }
    assert registrants[..|registrants|] == registrants;
  }

  lemma VendorHintsOneMore(registrants: seq<string>, i: nat, calls: seq<DerivedHint>)
    requires i < |registrants|
    ensures calls + VendorHints(registrants[..i + 1])
         == calls + VendorHints(registrants[..i]) + [VendorHint(registrants[i])]
  {
  }

  method RegenerateDerivedHints(m: StructuredMetadata) returns (m': StructuredMetadata)
    ensures m' == m.(derivedHints := DerivedHints(m))
  {
    var printer, windows, server := LooksLikePrinter(m), LooksLikeWindows(m), LooksLikeServer(m);
    ghost var first := if printer then [PrinterHint()] else [];
    ghost var second := first + if windows then [WindowsHint()] else [];
    var hints := AddHintWhen(printer, PrinterHint(), [], []);
    assert [] + first == first;
    hints := AddHintWhen(windows, WindowsHint(), hints, first);
    hints := AddHintWhen(server, ServerHint(), hints, second);
    hints := AddVendorHints(InOrder(Registrants(m)), hints, DeviceHints(m));
    m' := m.(derivedHints := hints);
  }

  // ---------------------------------------------------------------- applying an observation

  function Earlier(t: Timestamp, current: Timestamp): Timestamp {
    if TimestampLess(t, current) then t else current
  }

  function Later(t: Timestamp, current: Timestamp): Timestamp {
    if TimestampLess(current, t) then t else current
  }

  function BlankAsset(macAddress: string, t: Timestamp): Asset {
    Asset(macAddress, {}, None, None, None, None, None, None, t, t, {}, map[], StructuredMetadata(map[], map[], []))
  }

  function Seen(a: Asset, t: Timestamp): Asset {
    a.(firstSeen := Earlier(t, a.firstSeen), lastSeen := Later(t, a.lastSeen))
  }

  function Named(a: Asset, o: AssetObservation): Asset {
    a.(ipAddresses := a.ipAddresses + (if o.ipAddress.Some? then {o.ipAddress.value} else {}),
       hostname := if HasValue(o.hostname) then o.hostname else a.hostname,
       displayName := if HasValue(o.hostname) && !HasValue(a.displayName) then o.hostname else a.displayName)
  }

  function Described(a: Asset, o: AssetObservation): Asset {
    ApplySummary(Named(a, o), o).(
      sources := a.sources + (if o.sourceId != "" then {o.sourceId} else {}),
      metadata := a.metadata + o.metadata,
      structuredMetadata := MergeMetadata(a.structuredMetadata, o.structuredMetadata))
  }

  function Enriched(a: Asset, registry: OuiRegistry): Asset {
    var registrant := Registrant(a.macAddress, registry);
    var m := a.structuredMetadata.(
      reference := AddFacts(a.structuredMetadata.reference, MacFacts(a.macAddress, registry), a.firstSeen));
    a.(vendor := if registrant.Some? && a.vendor.None? then registrant else a.vendor,
       structuredMetadata := m.(derivedHints := DerivedHints(m)))
  }

  function Applied(a: Asset, o: AssetObservation, registry: OuiRegistry): Asset {
    Enriched(Described(Seen(a, o.timestamp), o), registry)
  }

  type Update = (Asset, AssetObservation) -> Asset

  function ApplyWith(registry: OuiRegistry): Update {
    (a, o) => Applied(a, o, registry)
  }

  /** What one observation makes of the whole inventory, `apply` being what it makes of the
      one asset it is about. */
  function StoreAfter(assets: map<string, Asset>, o: AssetObservation, apply: Update): map<string, Asset> {
    var mac := Lower(o.macAddress);
    if o.macAddress == "" then assets
    else assets[mac := apply(if mac in assets then assets[mac] else BlankAsset(mac, o.timestamp), o)]
  }

  method AddNameAndAddress(a: Asset, o: AssetObservation) returns (a': Asset)
    ensures a' == Named(a, o)
  {
    a' := a;
    if o.ipAddress.Some? {
      a' := a'.(ipAddresses := a'.ipAddresses + {o.ipAddress.value});
    }
    if HasValue(o.hostname) {
      a' := a'.(hostname := o.hostname);
      if !HasValue(a'.displayName) {
        a' := a'.(displayName := o.hostname);
      }
    }
  }

  /** The lines that the source has twice, once for a new and once for a known asset. */
  method Describe(a: Asset, o: AssetObservation) returns (a': Asset)
    ensures a' == Described(a, o)
  {
    a' := AddNameAndAddress(a, o);
    a' := ApplySummary(a', o);
    if o.sourceId != "" {
      a' := a'.(sources := a'.sources + {o.sourceId});
    }
    var m := MergeStructuredMetadata(a'.structuredMetadata, o.structuredMetadata);
    a' := a'.(metadata := a'.metadata + o.metadata, structuredMetadata := m);
  }

  lemma AddFactsOneMore(reference: Records, facts: seq<Fact>, t: Timestamp, i: nat)
    requires i < |facts|
    ensures AddFacts(reference, facts[..i + 1], t) == AddFact(AddFacts(reference, facts[..i], t), facts[i], t)
  {
    assert facts[..i + 1][..i] == facts[..i];
  }

  method AddAllFacts(reference: Records, facts: seq<Fact>, t: Timestamp) returns (reference': Records)
    ensures reference' == AddFacts(reference, facts, t)
  {
    reference' := reference;
    for i := 0 to |facts|
      invariant reference' == AddFacts(reference, facts[..i], t)
    {
      AddFactsOneMore(reference, facts, t, i);
      reference' := AddFact(reference', facts[i], t);
    }
    assert facts[..|facts|] == facts;
  }

  method EnrichMetadata(a: Asset, registry: OuiRegistry) returns (a': Asset)
    ensures a' == Enriched(a, registry)
  {
    var facts := MacFacts(a.macAddress, registry);
    var reference := AddAllFacts(a.structuredMetadata.reference, facts, a.firstSeen);
    var registrant := Registrant(a.macAddress, registry);
    var vendor := a.vendor;
    if registrant.Some? && a.vendor.None? {
      vendor := registrant;
    }
    var m := RegenerateDerivedHints(a.structuredMetadata.(reference := reference));
    a' := a.(vendor := vendor, structuredMetadata := m);
  }

  class AssetStore {
    const registry: OuiRegistry
    var assetsByMac: map<string, Asset>

    constructor (registry: OuiRegistry)
      ensures this.registry == registry && assetsByMac == map[]
    {
      this.registry := registry;
      assetsByMac := map[];
    }

    /** A new asset is built field by field; a known one is updated in place. */
    method ApplyObservation(o: AssetObservation)
      modifies this
      ensures assetsByMac == StoreAfter(old(assetsByMac), o, ApplyWith(registry))
    {
      UpdateAsset(o, ApplyWith(registry));
    }

    /** `apply` is what is done to an asset, under a name. */
    ghost predicate IsUpdate(apply: Update) {
      forall a, o {:trigger Applied(a, o, registry)} :: apply(a, o) == Applied(a, o, registry)
    }

    /** What follows once the times are right; `before` is the asset as it was. */
    method Complete(a: Asset, o: AssetObservation, ghost before: Asset, ghost apply: Update) returns (a': Asset)
      requires IsUpdate(apply) && a == Seen(before, o.timestamp)
      ensures a' == apply(before, o)
    {
      assert apply(before, o) == Applied(before, o, registry);
      a' := Describe(a, o);
      a' := EnrichMetadata(a', registry);
    }

    method UpdateAsset(o: AssetObservation, ghost apply: Update)
      requires IsUpdate(apply)
      modifies this
      ensures assetsByMac == StoreAfter(old(assetsByMac), o, apply)
    {
      if o.macAddress == "" {
        return;
      }
      var mac := Lower(o.macAddress);
      if mac !in assetsByMac {
        var blank := BlankAsset(mac, o.timestamp);
        var created := Complete(blank, o, blank, apply);
        assetsByMac := assetsByMac[mac := created];
        return;
      }
      var asset := assetsByMac[mac];
      if TimestampLess(o.timestamp, asset.firstSeen) {
        asset := asset.(firstSeen := o.timestamp);
      }
      if TimestampLess(asset.lastSeen, o.timestamp) {
        asset := asset.(lastSeen := o.timestamp);
      }
      asset := Complete(asset, o, assetsByMac[mac], apply);
      assetsByMac := assetsByMac[mac := asset];
    }

    method FindByMacAddress(macAddress: string) returns (asset: Option<Asset>)
      ensures asset == if Lower(macAddress) in assetsByMac then Some(assetsByMac[Lower(macAddress)]) else None
    {
      var mac := Lower(macAddress);
      asset := if mac in assetsByMac then Some(assetsByMac[mac]) else None;
    }
  }
}
