/** An asset's metadata and derived hints over whole runs, and what the order of
    observations can and cannot change. */
module AssetMetadatas {
  import opened Text
  import opened AssetObservations
  import opened AssetStores
  import opened AssetHistories

  type Facts = string -> seq<Fact>

  function FactsFrom(registry: OuiRegistry): Facts {
    mac => MacFacts(mac, registry)
  }

  ghost predicate MergesOne(a: Asset, o: AssetObservation, b: Asset, facts: Facts) {
    var m, n, p := a.structuredMetadata, o.structuredMetadata, b.structuredMetadata;
    && b.macAddress == a.macAddress
    && p.observed == MergeRecords(m.observed, n.observed, InOrder(n.observed.Keys))
    && p.reference == AddFacts(MergeRecords(m.reference, n.reference, InOrder(n.reference.Keys)),
                               facts(a.macAddress), b.firstSeen)
    && p.derivedHints == DerivedHints(p)
  }

  ghost predicate MergesMetadata(apply: Update, facts: Facts) {
    forall a, o :: MergesOne(a, o, apply(a, o), facts)
  }

  lemma EnrichedMetadata(a: Asset, registry: OuiRegistry)
    ensures var m, n := a.structuredMetadata, Enriched(a, registry).structuredMetadata;
            && n.observed == m.observed
            && n.reference == AddFacts(m.reference, MacFacts(a.macAddress, registry), a.firstSeen)
            && n.derivedHints == DerivedHints(n)
    ensures Enriched(a, registry).macAddress == a.macAddress && Enriched(a, registry).firstSeen == a.firstSeen
  {
    var m := a.structuredMetadata.(
      reference := AddFacts(a.structuredMetadata.reference, MacFacts(a.macAddress, registry), a.firstSeen));
    HintsFollowValues(m, Enriched(a, registry).structuredMetadata);
  }

  lemma DescribedMetadata(a: Asset, o: AssetObservation)
    ensures var b := Described(Seen(a, o.timestamp), o);
            && b.macAddress == a.macAddress
            && b.structuredMetadata == MergeMetadata(a.structuredMetadata, o.structuredMetadata)
  {
  }

  lemma AppliedMergesOne(a: Asset, o: AssetObservation, registry: OuiRegistry)
    ensures MergesOne(a, o, Applied(a, o, registry), FactsFrom(registry))
  {
    DescribedMetadata(a, o);
    EnrichedMetadata(Described(Seen(a, o.timestamp), o), registry);
  }

  lemma ApplyWithMergesMetadata(registry: OuiRegistry)
    ensures MergesMetadata(ApplyWith(registry), FactsFrom(registry))
  {
    forall a, o ensures MergesOne(a, o, ApplyWith(registry)(a, o), FactsFrom(registry)) {
      AppliedMergesOne(a, o, registry);
    }
  }

  // ---------------------------------------------------------------- values by key

  ghost predicate States(facts: seq<Fact>, key: string, value: string) {
    key != "" && value != "" && exists i :: 0 <= i < |facts| && facts[i].key == key && facts[i].value == value
  }

  lemma {:induction false} AddFactsValues(reference: Records, facts: seq<Fact>, t: Timestamp, key: string)
    requires Tidy(reference)
    ensures Tidy(AddFacts(reference, facts, t))
    ensures forall v :: v in Values(AddFacts(reference, facts, t), key) <==>
              v in Values(reference, key) || States(facts, key, v)
  {
    if facts != [] {
      var before, last := facts[..|facts| - 1], facts[|facts| - 1];
      AddFactsValues(reference, before, t, key);
      var records := AddFacts(reference, before, t);
      if last.key != "" && last.value != "" {
        MergeRecordValues(records, MakeRecord(last.key, last.value, last.source, "reference", t), key);
      }
      forall v ensures v in Values(AddFacts(reference, facts, t), key) <==>
          v in Values(reference, key) || States(facts, key, v)
      {
        assert facts[|before|] == last;
        assert States(before, key, v) ==> States(facts, key, v);
      }
    }
  }

  ghost predicate ObservedIn(history: seq<AssetObservation>, key: string, value: string) {
    exists o :: o in history && Contributes(o.structuredMetadata.observed, key, value)
  }

  ghost predicate ReferredIn(history: seq<AssetObservation>, key: string, value: string) {
    exists o :: o in history && Contributes(o.structuredMetadata.reference, key, value)
  }

  lemma ObservedOneMore(before: seq<AssetObservation>, o: AssetObservation, key: string, v: string)
    ensures ObservedIn(before + [o], key, v) <==>
              ObservedIn(before, key, v) || Contributes(o.structuredMetadata.observed, key, v)
    ensures ReferredIn(before + [o], key, v) <==>
              ReferredIn(before, key, v) || Contributes(o.structuredMetadata.reference, key, v)
  {
    assert forall p :: p in before + [o] <==> p in before || p == o;
    assert o in before + [o];
  }

  /** Under every key stand exactly the values that some observation contributed; the facts
      about the MAC address join the reference values. */
  lemma {:induction false} MetadataInClosedForm(
    mac: string, history: seq<AssetObservation>, apply: Update, facts: Facts, key: string)
    requires history != [] && MergesMetadata(apply, facts)
    ensures AssetFrom(mac, history, apply).macAddress == mac
    ensures var m := AssetFrom(mac, history, apply).structuredMetadata;
            && Tidy(m.observed) && Tidy(m.reference)
            && (forall v :: v in Values(m.observed, key) <==> ObservedIn(history, key, v))
            && (forall v :: v in Values(m.reference, key) <==>
                  ReferredIn(history, key, v) || States(facts(mac), key, v))
  {
    var before, last, a := AssetFromOneMore(mac, history, apply);
    var m := a.structuredMetadata;
    if before != [] {
      MetadataInClosedForm(mac, before, apply, facts, key);
    }
    MergeAddsValues(m.observed, last.structuredMetadata.observed, key);
    MergeAddsValues(m.reference, last.structuredMetadata.reference, key);
    AddFactsValues(MergeRecords(m.reference, last.structuredMetadata.reference,
                                InOrder(last.structuredMetadata.reference.Keys)),
                   facts(mac), apply(a, last).firstSeen, key);
    forall v {
      ObservedOneMore(before, last, key, v);
    }
  }

  // ---------------------------------------------------------------- derived hints

  /** The derived hints depend on the values under each key, and on nothing else. */
  lemma HintsFollowValues(m: StructuredMetadata, n: StructuredMetadata)
    requires forall key :: MetadataValues(m, key) == MetadataValues(n, key)
    ensures DerivedHints(m) == DerivedHints(n)
  {
    forall key, needle ensures MetadataContains(m, key, needle) == MetadataContains(n, key, needle) {
      ContainsFollowsValues(m, n, key, needle);
    }
    LooksFollowContents(m, n);
    assert Registrants(m) == Registrants(n);
  }

  lemma ContainsFollowsValues(m: StructuredMetadata, n: StructuredMetadata, key: string, needle: string)
    requires MetadataValues(m, key) == MetadataValues(n, key)
    ensures MetadataContains(m, key, needle) == MetadataContains(n, key, needle)
  {
  }

  lemma LooksFollowContents(m: StructuredMetadata, n: StructuredMetadata)
    requires forall key :: MetadataValues(m, key) == MetadataValues(n, key)
    requires forall key, needle :: MetadataContains(m, key, needle) == MetadataContains(n, key, needle)
    ensures LooksLikePrinter(m) == LooksLikePrinter(n) && LooksLikeWindows(m) == LooksLikeWindows(n)
    ensures LooksLikeServer(m) == LooksLikeServer(n)
  {
  }

  ghost predicate AllDiffer(hints: seq<DerivedHint>) {
    forall i, j :: 0 <= i < j < |hints| ==> !SameHint(hints[i], hints[j])
  }

  lemma DistinctHintsAreKept(more: seq<DerivedHint>, h: DerivedHint)
    requires AllDiffer(more)
    ensures h in AddHints([], more) <==> h in more && Complete(h)
  {
    HintsAreDistinct(more);
    var hints := AddHints([], more);
    if h in more && Complete(h) {
      var i :| 0 <= i < |hints| && SameHint(hints[i], h);
      assert hints[i] in more;
      var j :| 0 <= j < |more| && more[j] == hints[i];
      var k :| 0 <= k < |more| && more[k] == h;
    }
  }

  lemma CategoriesDiffer(registrant: string)
    ensures !SameHint(PrinterHint(), WindowsHint()) && !SameHint(PrinterHint(), ServerHint())
    ensures !SameHint(WindowsHint(), ServerHint()) && !SameHint(PrinterHint(), VendorHint(registrant))
    ensures !SameHint(WindowsHint(), VendorHint(registrant)) && !SameHint(ServerHint(), VendorHint(registrant))
    ensures Complete(PrinterHint()) && Complete(WindowsHint()) && Complete(ServerHint())
    ensures Complete(VendorHint(registrant)) <==> registrant != ""
  {
    assert |PrinterHint().category| == 11 && |WindowsHint().category| == 2;
    assert |ServerHint().category| == 4 && |VendorHint(registrant).category| == 6;
  }

  ghost predicate IsCandidate(m: StructuredMetadata, h: DerivedHint) {
    || (h == PrinterHint() && LooksLikePrinter(m))
    || (h == WindowsHint() && LooksLikeWindows(m))
    || (h == ServerHint() && LooksLikeServer(m))
    || (h == VendorHint(h.value) && h.value in Registrants(m))
  }

  ghost predicate CalledFor(m: StructuredMetadata, h: DerivedHint) {
    IsCandidate(m, h) && Complete(h)
  }

  lemma VendorHintsDiffer(names: seq<string>)
    requires forall i, j :: 0 <= i < j < |names| ==> names[i] != names[j]
    ensures AllDiffer(VendorHints(names))
    ensures forall h: DerivedHint :: h in VendorHints(names) <==> h == VendorHint(h.value) && h.value in names
  {
    forall h: DerivedHint | h == VendorHint(h.value) && h.value in names ensures h in VendorHints(names) {
      var i :| 0 <= i < |names| && names[i] == h.value;
      assert VendorHints(names)[i] == h;
    }
  }

  lemma DeviceHintsDiffer(m: StructuredMetadata)
    ensures AllDiffer(DeviceHints(m))
    ensures forall h :: h in DeviceHints(m) <==>
              || (h == PrinterHint() && LooksLikePrinter(m))
              || (h == WindowsHint() && LooksLikeWindows(m))
              || (h == ServerHint() && LooksLikeServer(m))
  {
    CategoriesDiffer("");
  }

  lemma AllDifferConcat(a: seq<DerivedHint>, b: seq<DerivedHint>)
    requires AllDiffer(a) && AllDiffer(b) && forall x, y :: x in a && y in b ==> !SameHint(x, y)
    ensures AllDiffer(a + b)
  {
  }

  lemma CandidatesDiffer(m: StructuredMetadata)
    ensures AllDiffer(DeviceHints(m) + VendorHints(InOrder(Registrants(m))))
    ensures forall h :: h in DeviceHints(m) + VendorHints(InOrder(Registrants(m))) <==> IsCandidate(m, h)
  {
    var names := InOrder(Registrants(m));
    DeviceHintsDiffer(m);
    VendorHintsDiffer(names);
    forall x, y | x in DeviceHints(m) && y in VendorHints(names) ensures !SameHint(x, y) {
      CategoriesDiffer(y.value);
    }
    AllDifferConcat(DeviceHints(m), VendorHints(names));
  }

  /** Exactly the hints that the metadata calls for are there, each once. */
  lemma HintsAreExact(m: StructuredMetadata)
    ensures forall h :: h in DerivedHints(m) <==> CalledFor(m, h)
    ensures AllDiffer(DerivedHints(m))
  {
    var more := DeviceHints(m) + VendorHints(InOrder(Registrants(m)));
    CandidatesDiffer(m);
    AddedHintsDiffer(more);
    forall h ensures h in DerivedHints(m) <==> CalledFor(m, h) {
      DistinctHintsAreKept(more, h);
    }
  }

  lemma AddedHintsDiffer(more: seq<DerivedHint>)
    ensures AllDiffer(AddHints([], more))
  {
    HintsAreDistinct(more);
  }

  lemma {:induction false} HintsAreRecomputed(
    mac: string, history: seq<AssetObservation>, apply: Update, facts: Facts)
    requires history != [] && MergesMetadata(apply, facts)
    ensures var m := AssetFrom(mac, history, apply).structuredMetadata; m.derivedHints == DerivedHints(m)
  {
    var before, last, a := AssetFromOneMore(mac, history, apply);
    assert MergesOne(a, last, apply(a, last), facts);
  }

  // ---------------------------------------------------------------- order does not matter

  /** Agreement on everything about an asset that does not depend on who spoke last. */
  ghost predicate SameView(a: Asset, b: Asset) {
    && a.macAddress == b.macAddress
    && a.ipAddresses == b.ipAddresses && a.sources == b.sources
    && a.firstSeen == b.firstSeen && a.lastSeen == b.lastSeen
    && (forall key :: Values(a.structuredMetadata.observed, key) == Values(b.structuredMetadata.observed, key))
    && (forall key :: Values(a.structuredMetadata.reference, key) == Values(b.structuredMetadata.reference, key))
    && a.structuredMetadata.derivedHints == b.structuredMetadata.derivedHints
  }

  lemma SameMembersSameValues(
    mac: string, h1: seq<AssetObservation>, h2: seq<AssetObservation>, apply: Update, facts: Facts, key: string)
    requires h1 != [] && h2 != [] && MergesMetadata(apply, facts)
    requires forall o :: o in h1 <==> o in h2
    ensures var m1 := AssetFrom(mac, h1, apply).structuredMetadata;
            var m2 := AssetFrom(mac, h2, apply).structuredMetadata;
            && Values(m1.observed, key) == Values(m2.observed, key)
            && Values(m1.reference, key) == Values(m2.reference, key)
            && MetadataValues(m1, key) == MetadataValues(m2, key)
  {
    MetadataInClosedForm(mac, h1, apply, facts, key);
    MetadataInClosedForm(mac, h2, apply, facts, key);
    assert forall v :: ObservedIn(h1, key, v) <==> ObservedIn(h2, key, v);
    assert forall v :: ReferredIn(h1, key, v) <==> ReferredIn(h2, key, v);
    SameValuesSameLookup(AssetFrom(mac, h1, apply).structuredMetadata,
                         AssetFrom(mac, h2, apply).structuredMetadata, key);
  }

  lemma SameValuesSameLookup(m1: StructuredMetadata, m2: StructuredMetadata, key: string)
    requires Tidy(m1.observed) && Tidy(m1.reference) && Tidy(m2.observed) && Tidy(m2.reference)
    requires forall v :: v in Values(m1.observed, key) <==> v in Values(m2.observed, key)
    requires forall v :: v in Values(m1.reference, key) <==> v in Values(m2.reference, key)
    ensures Values(m1.observed, key) == Values(m2.observed, key)
    ensures Values(m1.reference, key) == Values(m2.reference, key)
    ensures MetadataValues(m1, key) == MetadataValues(m2, key)
  {
  }

  lemma SameMembersSameView(
    mac: string, h1: seq<AssetObservation>, h2: seq<AssetObservation>, apply: Update, facts: Facts)
    requires h1 != [] && h2 != [] && MergesMetadata(apply, facts) && AddsBasics(apply)
    requires forall o :: o in h1 <==> o in h2
    ensures SameView(AssetFrom(mac, h1, apply), AssetFrom(mac, h2, apply))
  {
    SetsInClosedForm(mac, h1, apply);
    SetsInClosedForm(mac, h2, apply);
    TimesInClosedForm(mac, h1, apply);
    TimesInClosedForm(mac, h2, apply);
    HintsAreRecomputed(mac, h1, apply, facts);
    HintsAreRecomputed(mac, h2, apply, facts);
    var m1, m2 := AssetFrom(mac, h1, apply).structuredMetadata, AssetFrom(mac, h2, apply).structuredMetadata;
    forall key
      ensures Values(m1.observed, key) == Values(m2.observed, key)
      ensures Values(m1.reference, key) == Values(m2.reference, key)
      ensures MetadataValues(m1, key) == MetadataValues(m2, key)
    {
      SameMembersSameValues(mac, h1, h2, apply, facts, key);
    }
    HintsFollowValues(m1, m2);
  }

  lemma SameTouching(run1: seq<AssetObservation>, run2: seq<AssetObservation>, mac: string)
    requires multiset(run1) == multiset(run2)
    ensures forall o :: o in Touching(run1, mac) <==> o in Touching(run2, mac)
    ensures Touching(run1, mac) == [] <==> Touching(run2, mac) == []
  {
    forall o ensures o in Touching(run1, mac) <==> o in Touching(run2, mac) {
      TouchingCount(run1, mac, o);
      TouchingCount(run2, mac, o);
      assert o in Touching(run1, mac) <==> o in multiset(Touching(run1, mac));
      assert o in Touching(run2, mac) <==> o in multiset(Touching(run2, mac));
    }
    assert Touching(run1, mac) != [] ==> Touching(run1, mac)[0] in Touching(run2, mac);
    assert Touching(run2, mac) != [] ==> Touching(run2, mac)[0] in Touching(run1, mac);
  }

  /** Two runs with the same observations in any two orders build inventories with the same
      MAC addresses and, asset by asset, the same view. */
  lemma OrderDoesNotMatter(
    run1: seq<AssetObservation>, run2: seq<AssetObservation>, mac: string, apply: Update, facts: Facts)
    requires multiset(run1) == multiset(run2) && MergesMetadata(apply, facts) && AddsBasics(apply)
    ensures mac in RunStore(run1, apply) <==> mac in RunStore(run2, apply)
    ensures mac in RunStore(run1, apply) ==> SameView(RunStore(run1, apply)[mac], RunStore(run2, apply)[mac])
  {
    OneAssetPerMac(run1, mac, apply);
    OneAssetPerMac(run2, mac, apply);
    SameTouching(run1, run2, mac);
    if Touching(run1, mac) != [] {
      SameMembersSameView(mac, Touching(run1, mac), Touching(run2, mac), apply, facts);
    }
  }
}
