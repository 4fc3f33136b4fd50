/** What the inventory concludes about a device: from the bytes of its MAC address, and from the
    metadata that its observations brought. */
module DeviceFacts {
  import opened Options
  import opened Bytes
  import opened Text
  import opened Addresses
  import opened AddressFacts
  import opened AssetObservations
  import opened AssetStores
  import opened AssetHistories
  import opened AssetRankings
  import opened AssetMetadatas
  import opened AssetRecordTimes
  import opened InventoryTheorems

  // ---------------------------------------------------------------- the MAC address

  /** The first three bytes, which say who registered the address. */
  function Prefix(bytes: seq<Byte>, i: nat): string
    requires i + 6 <= |bytes|
  {
    Pair(bytes[i]) + ":" + Pair(bytes[i + 1]) + ":" + Pair(bytes[i + 2])
  }

  function YesNo(b: bool): string {
    if b then "true" else "false"
  }

  /** The lowest bit of the first byte means multicast, the next one locally administered; the
      first three bytes are the prefix, and the table may know who registered it. */
  ghost predicate BytesTell(bytes: seq<Byte>, i: nat, registry: OuiRegistry, key: string, v: string)
    requires i + 6 <= |bytes|
  {
    || (key == "mac.is_multicast" && v == YesNo(bytes[i] % 2 == 1))
    || (key == "mac.is_locally_administered" && v == YesNo((bytes[i] / 2) % 2 == 1))
    || (key == "mac.oui" && v == Prefix(bytes, i))
    || (Prefix(bytes, i) in registry
        && ((key == "mac.oui.registrant" && v == registry[Prefix(bytes, i)])
            || (key == "mac.oui.registry_version" && v == "curated-oui-v1")))
  }

  ghost predicate HasFact(facts: seq<Fact>, key: string, v: string) {
    exists f :: f in facts && f.key == key && f.value == v
  }

  lemma StatedIsThere(facts: seq<Fact>, key: string, v: string)
    ensures States(facts, key, v) <==> key != "" && v != "" && HasFact(facts, key, v)
  {
    if States(facts, key, v) {
      var i :| 0 <= i < |facts| && facts[i].key == key && facts[i].value == v;
      assert facts[i] in facts;
    }
  }

  lemma HasFactConcat(a: seq<Fact>, b: seq<Fact>, key: string, v: string)
    ensures HasFact(a + b, key, v) <==> HasFact(a, key, v) || HasFact(b, key, v)
  {
    assert forall f :: f in a + b <==> f in a || f in b;
  }

  lemma OneFact(f: Fact, key: string, v: string)
    ensures HasFact([f], key, v) <==> key == f.key && v == f.value
  {
    assert f in [f];
  }

  lemma TwoFacts(f: Fact, g: Fact, key: string, v: string)
    ensures HasFact([f, g], key, v) <==> (key == f.key && v == f.value) || (key == g.key && v == g.value)
  {
    assert [f, g] == [f] + [g];
    HasFactConcat([f], [g], key, v);
    OneFact(f, key, v);
    OneFact(g, key, v);
  }

  function BitFacts(b: Byte): seq<Fact> {
    [Fact("mac.is_multicast", YesNo(b % 2 == 1), "mac-address"),
     Fact("mac.is_locally_administered", YesNo((b / 2) % 2 == 1), "mac-address")]
  }

  function RegistrantFacts(prefix: string, registry: OuiRegistry): seq<Fact> {
    if prefix in registry
    then [Fact("mac.oui.registrant", registry[prefix], "curated-oui"),
          Fact("mac.oui.registry_version", "curated-oui-v1", "curated-oui")]
    else []
  }

  lemma FactsOfBytes(bytes: seq<Byte>, i: nat, registry: OuiRegistry)
    requires i + 6 <= |bytes|
    ensures MacFacts(FormatMacAddress(bytes, i), registry) == AllFacts(bytes, i, registry)
  {
    DecodedMacIsUnderstood(bytes, i);
  }

  lemma RegistrantIsTold(prefix: string, registry: OuiRegistry, key: string, v: string)
    ensures HasFact(RegistrantFacts(prefix, registry), key, v) <==>
              prefix in registry
              && ((key == "mac.oui.registrant" && v == registry[prefix])
                  || (key == "mac.oui.registry_version" && v == "curated-oui-v1"))
  {
    if prefix in registry {
      var facts := RegistrantFacts(prefix, registry);
      assert facts == [facts[0], facts[1]];
      TwoFacts(facts[0], facts[1], key, v);
    }
  }

  lemma MacFactsAreTold(bytes: seq<Byte>, i: nat, registry: OuiRegistry, key: string, v: string)
    requires i + 6 <= |bytes|
    ensures HasFact(MacFacts(FormatMacAddress(bytes, i), registry), key, v) <==>
              BytesTell(bytes, i, registry, key, v)
  {
    var bits, oui := BitFacts(bytes[i]), Fact("mac.oui", Prefix(bytes, i), "mac-address");
    var registrant := RegistrantFacts(Prefix(bytes, i), registry);
    FactsOfBytes(bytes, i, registry);
    HasFactConcat(bits + [oui], registrant, key, v);
    HasFactConcat(bits, [oui], key, v);
    assert bits == [bits[0], bits[1]];
    TwoFacts(bits[0], bits[1], key, v);
    OneFact(oui, key, v);
    RegistrantIsTold(Prefix(bytes, i), registry, key, v);
  }

  /** Of a device whose MAC address was decoded from a packet, the reference metadata is what the
      bytes of the address tell, and whatever observations brought as reference. */
  lemma ReferenceIsToldByBytes(
    run: seq<AssetObservation>, registry: OuiRegistry, bytes: seq<Byte>, i: nat, key: string, v: string)
    requires i + 6 <= |bytes| && FormatMacAddress(bytes, i) in Inventory(run, registry)
    ensures var mac := FormatMacAddress(bytes, i);
            v in Values(Inventory(run, registry)[mac].structuredMetadata.reference, key) <==>
              ReferredIn(Touching(run, mac), key, v)
              || (key != "" && v != "" && BytesTell(bytes, i, registry, key, v))
  {
    var mac := FormatMacAddress(bytes, i);
    InventoryInClosedForm(run, registry, mac);
    StatedIsThere(MacFacts(mac, registry), key, v);
    MacFactsAreTold(bytes, i, registry, key, v);
  }

  /** The facts that the bytes of a MAC address tell, with where they come from. */
  function AllFacts(bytes: seq<Byte>, i: nat, registry: OuiRegistry): seq<Fact>
    requires i + 6 <= |bytes|
  {
    BitFacts(bytes[i]) + [Fact("mac.oui", Prefix(bytes, i), "mac-address")]
    + RegistrantFacts(Prefix(bytes, i), registry)
  }

  lemma FactsHaveOwnKeys(bytes: seq<Byte>, i: nat, registry: OuiRegistry, n: nat)
    requires i + 6 <= |bytes|
    requires n < |AllFacts(bytes, i, registry)| && AllFacts(bytes, i, registry)[n].value != ""
    ensures OnlyFact(AllFacts(bytes, i, registry), n) && AllFacts(bytes, i, registry)[n].source != ""
  {
    var facts := AllFacts(bytes, i, registry);
    assert |facts[0].key| == 16 && |facts[1].key| == 27 && |facts[2].key| == 7;
    assert |facts| > 3 ==> |facts| == 5 && |facts[3].key| == 18 && |facts[4].key| == 24;
    assert |facts[n].source| == 11;
  }

  /** The whole record of such a fact, when no observation brings reference metadata about it:
      its one value and its source, seen since the device was, until its first observation. */
  lemma FactRecordIsKnown(run: seq<AssetObservation>, registry: OuiRegistry, bytes: seq<Byte>, i: nat, n: nat)
    requires i + 6 <= |bytes| && FormatMacAddress(bytes, i) in Inventory(run, registry)
    requires n < |AllFacts(bytes, i, registry)| && AllFacts(bytes, i, registry)[n].value != ""
    requires NoReferenceTo(AllFacts(bytes, i, registry)[n].key, Touching(run, FormatMacAddress(bytes, i)))
    ensures var mac, f := FormatMacAddress(bytes, i), AllFacts(bytes, i, registry)[n];
            var a, history := Inventory(run, registry)[mac], Touching(run, mac);
            && history != []
            && Lookup(a.structuredMetadata.reference, f.key)
               == Some(MetadataRecord(f.key, {f.value}, f.source, "reference", a.firstSeen, history[0].timestamp))
  {
    var mac := FormatMacAddress(bytes, i);
    OneAssetPerMac(run, mac, ApplyWith(registry));
    UpdateHasItsProperties(registry);
    FactsOfBytes(bytes, i, registry);
    FactsHaveOwnKeys(bytes, i, registry, n);
    FactsInClosedForm(mac, Touching(run, mac), ApplyWith(registry), FactsFrom(registry), n);
  }

  /** The vendor of such a device: what a source said last, else who registered the prefix. */
  lemma VendorIsToldByBytes(run: seq<AssetObservation>, registry: OuiRegistry, bytes: seq<Byte>, i: nat)
    requires i + 6 <= |bytes| && FormatMacAddress(bytes, i) in Inventory(run, registry)
    ensures var mac := FormatMacAddress(bytes, i);
            var said := LastSaid(Touching(run, mac), VendorOf);
            Inventory(run, registry)[mac].vendor ==
            if said.Some? then said
            else if Prefix(bytes, i) in registry then Some(registry[Prefix(bytes, i)]) else None
  {
    InventoryInClosedForm(run, registry, FormatMacAddress(bytes, i));
    DecodedMacIsUnderstood(bytes, i);
  }

  // ---------------------------------------------------------------- derived hints

  /** A value stands under a key: observed, or as reference where nothing was observed. */
  ghost predicate Stands(m: StructuredMetadata, key: string, v: string) {
    if Values(m.observed, key) != {} then v in Values(m.observed, key) else v in Values(m.reference, key)
  }

  /** From some place on the value spells the words, letter case aside. */
  ghost predicate Mentions(v: string, words: string) {
    exists i: nat :: SpeltAt(v, words, i)
  }

  ghost predicate SpeltAt(v: string, words: string, i: nat) {
    i + |words| <= |v| && forall j :: 0 <= j < |words| ==> SameLetter(v[i + j], words[j])
  }

  ghost predicate SameLetter(a: char, b: char) {
    || a == b
    || ('A' <= a <= 'Z' && a as int + 32 == b as int)
    || ('A' <= b <= 'Z' && b as int + 32 == a as int)
  }

  ghost predicate SomeMention(m: StructuredMetadata, key: string, words: string) {
    exists v :: Stands(m, key, v) && Mentions(v, words)
  }

  /** What is concluded from what stands in the metadata. */
  ghost predicate Concluded(m: StructuredMetadata, h: DerivedHint) {
    || (h == DerivedHint("device_type", "printer", "high", PrinterServiceSeen, ["mdns.services"])
        && (SomeMention(m, "mdns.services", "_ipp._tcp.local")
            || SomeMention(m, "mdns.services", "_printer._tcp.local")))
    || (h == DerivedHint("os", "windows", "medium", MicrosoftVendorClass, ["dhcp.vendor_class_identifier"])
        && (SomeMention(m, "dhcp.vendor_class_identifier", "MSFT")
            || SomeMention(m, "dhcp.vendor_class_identifier", "Microsoft")))
    || (h == DerivedHint("role", "server_candidate", "medium", SentSynAck, ["tcp.syn_ack_ports"])
        && exists v :: Stands(m, "tcp.syn_ack_ports", v))
    || (h == DerivedHint("vendor", h.value, "medium", OuiRegistryEntry, ["mac.oui.registrant"])
        && h.value != "" && Stands(m, "mac.oui.registrant", h.value))
  }

  lemma SameLetterIsFolded(a: char, b: char)
    ensures LowerChar(a) == LowerChar(b) <==> SameLetter(a, b)
  {
  }

  lemma SpeltIsPart(v: string, words: string, i: nat)
    ensures PartAt(Lower(v), Lower(words), i) <==> SpeltAt(v, words, i)
  {
    if i + |words| <= |v| {
      var part := Lower(v)[i..i + |words|];
      forall j | 0 <= j < |words| ensures part[j] == Lower(words)[j] <==> SameLetter(v[i + j], words[j]) {
        SameLetterIsFolded(v[i + j], words[j]);
      }
    }
  }

  lemma MentionsIsContained(v: string, words: string)
    ensures ContainsCaseInsensitive(v, words) <==> Mentions(v, words)
  {
    forall i: nat ensures PartAt(Lower(v), Lower(words), i) <==> SpeltAt(v, words, i) {
      SpeltIsPart(v, words, i);
    }
    if ContainsCaseInsensitive(v, words) {
      var i :| 0 <= i <= |Lower(v)| && PartAt(Lower(v), Lower(words), i);
      assert SpeltAt(v, words, i);
    }
    if Mentions(v, words) {
      var i: nat :| SpeltAt(v, words, i);
      assert PartAt(Lower(v), Lower(words), i);
    }
  }

  lemma StandsIsLookedUp(m: StructuredMetadata, key: string)
    requires Tidy(m.observed) && Tidy(m.reference)
    ensures MetadataValues(m, key).Some? <==> exists v :: Stands(m, key, v)
    ensures forall v :: Stands(m, key, v) <==> MetadataValues(m, key).Some? && v in MetadataValues(m, key).value
  {
    if MetadataValues(m, key).Some? {
      var v :| v in MetadataValues(m, key).value;
      assert Stands(m, key, v);
    }
  }

  lemma MentionIsFound(m: StructuredMetadata, key: string, words: string)
    requires Tidy(m.observed) && Tidy(m.reference)
    ensures MetadataContains(m, key, words) <==> SomeMention(m, key, words)
  {
    StandsIsLookedUp(m, key);
    forall v ensures ContainsCaseInsensitive(v, words) <==> Mentions(v, words) {
      MentionsIsContained(v, words);
    }
  }

  lemma LooksAreConclusions(m: StructuredMetadata)
    requires Tidy(m.observed) && Tidy(m.reference)
    ensures LooksLikePrinter(m) <==>
              || SomeMention(m, "mdns.services", "_ipp._tcp.local")
              || SomeMention(m, "mdns.services", "_printer._tcp.local")
    ensures LooksLikeWindows(m) <==>
              || SomeMention(m, "dhcp.vendor_class_identifier", "MSFT")
              || SomeMention(m, "dhcp.vendor_class_identifier", "Microsoft")
    ensures LooksLikeServer(m) <==> exists v :: Stands(m, "tcp.syn_ack_ports", v)
  {
    MentionIsFound(m, "mdns.services", "_ipp._tcp.local");
    MentionIsFound(m, "mdns.services", "_printer._tcp.local");
    MentionIsFound(m, "dhcp.vendor_class_identifier", "MSFT");
    MentionIsFound(m, "dhcp.vendor_class_identifier", "Microsoft");
    StandsIsLookedUp(m, "tcp.syn_ack_ports");
  }

  lemma CalledForIsConcluded(m: StructuredMetadata, h: DerivedHint)
    requires Tidy(m.observed) && Tidy(m.reference)
    ensures CalledFor(m, h) <==> Concluded(m, h)
  {
    LooksAreConclusions(m);
    StandsIsLookedUp(m, "mac.oui.registrant");
    CategoriesDiffer(h.value);
  }

  /** After every run the hints of a device are exactly the conclusions from its metadata, each
      once. */
  lemma HintsAreConclusions(run: seq<AssetObservation>, registry: OuiRegistry, mac: string)
    requires mac in Inventory(run, registry)
    ensures var m := Inventory(run, registry)[mac].structuredMetadata;
            && (forall h :: h in m.derivedHints <==> Concluded(m, h))
            && AllDiffer(m.derivedHints)
  {
    InventoryInClosedForm(run, registry, mac);
    var m := Inventory(run, registry)[mac].structuredMetadata;
    forall h ensures h in m.derivedHints <==> Concluded(m, h) {
      CalledForIsConcluded(m, h);
    }
  }
}
