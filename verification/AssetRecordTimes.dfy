/** How long each piece of observed metadata has been seen, and who brought it first, over
    whole runs. */
module AssetRecordTimes {
  import opened Options
  import opened Sequences
  import opened Text
  import opened AssetObservations
  import opened AssetStores
  import opened AssetHistories
  import opened AssetMetadatas

  /** The records of `source`, among those under the given keys, that merging adds under `key`. */
  ghost function Adding(source: Records, keys: seq<string>, key: string): set<MetadataRecord>
    requires forall k :: k in keys ==> k in source
  {
    set k | k in keys && key != "" && source[k].key == key && source[k].values != {} :: source[k]
  }

  /** Every record about `key` that a run of observations brought. */
  ghost function Brought(history: seq<AssetObservation>, key: string): set<MetadataRecord> {
    set o, k | o in history && k in o.structuredMetadata.observed
               && key != "" && o.structuredMetadata.observed[k].key == key
               && o.structuredMetadata.observed[k].values != {} :: o.structuredMetadata.observed[k]
  }

  /** The record begins with the earliest of `rs` and ends with the latest. */
  ghost predicate Spans(r: MetadataRecord, rs: set<MetadataRecord>) {
    && (exists s :: s in rs && s.firstSeen == r.firstSeen)
    && (exists s :: s in rs && s.lastSeen == r.lastSeen)
    && forall s :: s in rs ==> NotAfter(r.firstSeen, s.firstSeen) && NotAfter(s.lastSeen, r.lastSeen)
  }

  ghost predicate SpansAt(records: Records, key: string, rs: set<MetadataRecord>) {
    if key in records then Spans(records[key], rs) else rs == {}
  }

  lemma MergedSpan(target: MetadataRecord, record: MetadataRecord, rs: set<MetadataRecord>)
    requires Spans(target, rs)
    ensures Spans(MergeInto(target, record), rs + {record})
  {
    assert record in rs + {record};
    assert forall s :: s in rs ==> s in rs + {record};
  }

  lemma MergeKeepsSpan(records: Records, record: MetadataRecord, key: string, rs: set<MetadataRecord>)
    requires SpansAt(records, key, rs)
    ensures SpansAt(MergeRecord(records, record), key,
                    rs + if key != "" && record.key == key && record.values != {} then {record} else {})
  {
    if key != "" && record.key == key && record.values != {} {
      if key in records {
        MergedSpan(records[key], record, rs);
      } else {
        assert record in {record};
        assert rs + {record} == {record};
      }
    } else {
      assert rs + {} == rs;
    }
  }

  lemma {:induction false} MergesKeepSpan(
    records: Records, source: Records, keys: seq<string>, key: string, rs: set<MetadataRecord>)
    requires SpansAt(records, key, rs) && forall k :: k in keys ==> k in source
    ensures SpansAt(MergeRecords(records, source, keys), key, rs + Adding(source, keys, key))
    decreases |keys|
  {
    if keys == [] {
      assert rs + Adding(source, keys, key) == rs;
    } else {
      var before, last := keys[..|keys| - 1], keys[|keys| - 1];
      assert keys == before + [last];
      MergesKeepSpan(records, source, before, key, rs);
      MergeKeepsSpan(MergeRecords(records, source, before), source[last], key, rs + Adding(source, before, key));
      AddingOneMore(source, before, last, key, rs);
    }
  }

  lemma AddingOneMore(source: Records, keys: seq<string>, last: string, key: string, rs: set<MetadataRecord>)
    requires last in source && forall k :: k in keys ==> k in source
    ensures rs + Adding(source, keys + [last], key)
         == rs + Adding(source, keys, key)
            + if key != "" && source[last].key == key && source[last].values != {} then {source[last]} else {}
  {
    assert forall k :: k in keys + [last] <==> k in keys || k == last;
  }

  lemma BroughtOneMore(before: seq<AssetObservation>, o: AssetObservation, key: string)
    ensures Brought(before + [o], key)
         == Brought(before, key)
            + Adding(o.structuredMetadata.observed, InOrder(o.structuredMetadata.observed.Keys), key)
  {
    assert forall p :: p in before + [o] <==> p in before || p == o;
  }

  /** The record of observed metadata under a key was first seen when the earliest record that
      any observation brought under that key was, and last seen when the latest was, in
      whatever order they came. */
  lemma {:induction false} ObservedTimesInClosedForm(
    mac: string, history: seq<AssetObservation>, apply: Update, facts: Facts, key: string)
    requires history != [] && MergesMetadata(apply, facts)
    ensures SpansAt(AssetFrom(mac, history, apply).structuredMetadata.observed, key, Brought(history, key))
  {
    var before, last, a := AssetFromOneMore(mac, history, apply);
    var source := last.structuredMetadata.observed;
    if before != [] {
      ObservedTimesInClosedForm(mac, before, apply, facts, key);
    }
    assert SpansAt(a.structuredMetadata.observed, key, Brought(before, key));
    MergesKeepSpan(a.structuredMetadata.observed, source, InOrder(source.Keys), key, Brought(before, key));
    BroughtOneMore(before, last, key);
    assert MergesOne(a, last, apply(a, last), facts);
  }

  lemma SpanIsUnique(a: MetadataRecord, b: MetadataRecord, rs: set<MetadataRecord>)
    requires Spans(a, rs) && Spans(b, rs)
    ensures a.firstSeen == b.firstSeen && a.lastSeen == b.lastSeen
  {
  }

  /** Observed metadata is there under the same keys and with the same times. */
  ghost predicate SameTimes(a: Records, b: Records, key: string) {
    && (key in a <==> key in b)
    && (key in a ==> a[key].firstSeen == b[key].firstSeen && a[key].lastSeen == b[key].lastSeen)
  }

  lemma SameBrought(h1: seq<AssetObservation>, h2: seq<AssetObservation>, key: string)
    requires forall o :: o in h1 <==> o in h2
    ensures Brought(h1, key) == Brought(h2, key)
  {
  }

  lemma SpansAgree(a: Records, b: Records, key: string, rs: set<MetadataRecord>)
    requires SpansAt(a, key, rs) && SpansAt(b, key, rs)
    ensures SameTimes(a, b, key)
  {
    if key in a && key in b {
      SpanIsUnique(a[key], b[key], rs);
    }
  }

  lemma SameMembersSameTimes(
    mac: string, h1: seq<AssetObservation>, h2: seq<AssetObservation>, apply: Update, facts: Facts, key: string)
    requires h1 != [] && h2 != [] && MergesMetadata(apply, facts)
    requires forall o :: o in h1 <==> o in h2
    ensures SameTimes(AssetFrom(mac, h1, apply).structuredMetadata.observed,
                      AssetFrom(mac, h2, apply).structuredMetadata.observed, key)
  {
    ObservedTimesInClosedForm(mac, h1, apply, facts, key);
    ObservedTimesInClosedForm(mac, h2, apply, facts, key);
    SameBrought(h1, h2, key);
    SpansAgree(AssetFrom(mac, h1, apply).structuredMetadata.observed,
               AssetFrom(mac, h2, apply).structuredMetadata.observed, key, Brought(h1, key));
  }

  /** The times of observed metadata do not depend on the order of arrival. */
  lemma TimesSurviveReordering(
    run1: seq<AssetObservation>, run2: seq<AssetObservation>, mac: string, registry: OuiRegistry, key: string)
    requires multiset(run1) == multiset(run2)
    requires mac in RunStore(run1, ApplyWith(registry)) && mac in RunStore(run2, ApplyWith(registry))
    ensures SameTimes(RunStore(run1, ApplyWith(registry))[mac].structuredMetadata.observed,
                      RunStore(run2, ApplyWith(registry))[mac].structuredMetadata.observed, key)
  {
    var apply := ApplyWith(registry);
    ApplyWithMergesMetadata(registry);
    OneAssetPerMac(run1, mac, apply);
    OneAssetPerMac(run2, mac, apply);
    SameTouching(run1, run2, mac);
    SameMembersSameTimes(mac, Touching(run1, mac), Touching(run2, mac), apply, FactsFrom(registry), key);
  }

  // ---------------------------------------------------------------- where a record comes from

  /** The records of `source` about `key`, in the order in which merging visits them. */
  function About(source: Records, keys: seq<string>, key: string): seq<MetadataRecord>
    requires forall k :: k in keys ==> k in source
  {
    if keys == [] then []
    else
      var before, last := About(source, keys[..|keys| - 1], key), source[keys[|keys| - 1]];
      if key != "" && last.key == key && last.values != {} then before + [last] else before
  }

  /** All records about `key` in the order of their arrival. */
  function Arrived(history: seq<AssetObservation>, key: string): seq<MetadataRecord> {
    if history == [] then []
    else
      var observed := history[|history| - 1].structuredMetadata.observed;
      Arrived(history[..|history| - 1], key) + About(observed, InOrder(observed.Keys), key)
  }

  type Saying = MetadataRecord -> string

  /** The first of these records that says something says this. */
  function FirstSaid(rs: seq<MetadataRecord>, says: Saying): string {
    if rs == [] then "" else if says(rs[0]) != "" then says(rs[0]) else FirstSaid(rs[1..], says)
  }

  lemma {:induction false} FirstSaidOneMore(rs: seq<MetadataRecord>, r: MetadataRecord, says: Saying)
    ensures FirstSaid(rs + [r], says) == if FirstSaid(rs, says) != "" then FirstSaid(rs, says) else says(r)
  {
    if rs == [] {
      assert [r][1..] == [];
    } else {
      assert (rs + [r])[1..] == rs[1..] + [r];
      FirstSaidOneMore(rs[1..], r, says);
    }
  }

  function SourceOf(): Saying {
    (r: MetadataRecord) => r.source
  }

  function ConfidenceOf(): Saying {
    (r: MetadataRecord) => r.confidenceCategory
  }

  /** A record keeps the first source and the first confidence that were given for its key. */
  ghost predicate Originates(records: Records, key: string, rs: seq<MetadataRecord>) {
    && (key in records <==> rs != [])
    && (key in records ==>
          && records[key].source == FirstSaid(rs, SourceOf())
          && records[key].confidenceCategory == FirstSaid(rs, ConfidenceOf()))
  }

  lemma MergeKeepsOrigin(records: Records, record: MetadataRecord, key: string, rs: seq<MetadataRecord>)
    requires Originates(records, key, rs)
    ensures Originates(MergeRecord(records, record), key,
                       if key != "" && record.key == key && record.values != {} then rs + [record] else rs)
  {
    FirstSaidOneMore(rs, record, SourceOf());
    FirstSaidOneMore(rs, record, ConfidenceOf());
  }

  lemma {:induction false} MergesKeepOrigin(
    records: Records, source: Records, keys: seq<string>, key: string, rs: seq<MetadataRecord>)
    requires Originates(records, key, rs) && forall k :: k in keys ==> k in source
    ensures Originates(MergeRecords(records, source, keys), key, rs + About(source, keys, key))
    decreases |keys|
  {
    if keys == [] {
      assert rs + About(source, keys, key) == rs;
    } else {
      var before, last := keys[..|keys| - 1], keys[|keys| - 1];
      MergesKeepOrigin(records, source, before, key, rs);
      MergeKeepsOrigin(MergeRecords(records, source, before), source[last], key, rs + About(source, before, key));
      Associative(rs, About(source, before, key), [source[last]]);
    }
  }

  /** After any run each record of observed metadata names the source and the confidence that
      came first among all that observations brought under its key. */
  lemma {:induction false} OriginInClosedForm(
    mac: string, history: seq<AssetObservation>, apply: Update, facts: Facts, key: string)
    requires history != [] && MergesMetadata(apply, facts)
    ensures Originates(AssetFrom(mac, history, apply).structuredMetadata.observed, key, Arrived(history, key))
  {
    var before, last, a := AssetFromOneMore(mac, history, apply);
    var source := last.structuredMetadata.observed;
    if before != [] {
      OriginInClosedForm(mac, before, apply, facts, key);
    }
    assert history[..|history| - 1] == before;
    assert MergesOne(a, last, apply(a, last), facts);
    MergesKeepOrigin(a.structuredMetadata.observed, source, InOrder(source.Keys), key, Arrived(before, key));
  }

  // ---------------------------------------------------------------- facts about the MAC address

  function Lookup(records: Records, key: string): Option<MetadataRecord> {
    if key in records then Some(records[key]) else None
  }

  /** The record after this one joined it. */
  function Joined(present: Option<MetadataRecord>, r: MetadataRecord): MetadataRecord {
    if present.Some? then MergeInto(present.value, r) else r
  }

  /** The `i`-th fact says something, and no other fact has its key. */
  ghost predicate OnlyFact(facts: seq<Fact>, i: nat) {
    && i < |facts| && facts[i].key != "" && facts[i].value != ""
    && forall j :: 0 <= j < |facts| && j != i ==> facts[j].key != facts[i].key
  }

  function FactRecord(f: Fact, t: Timestamp): MetadataRecord {
    MakeRecord(f.key, f.value, f.source, "reference", t)
  }

  lemma {:induction false} OtherFactsStayOut(reference: Records, facts: seq<Fact>, t: Timestamp, key: string)
    requires forall j :: 0 <= j < |facts| ==> facts[j].key != key
    ensures Lookup(AddFacts(reference, facts, t), key) == Lookup(reference, key)
  {
    if facts != [] {
      OtherFactsStayOut(reference, facts[..|facts| - 1], t, key);
    }
  }

  lemma {:induction false} FactJoins(reference: Records, facts: seq<Fact>, t: Timestamp, i: nat)
    requires OnlyFact(facts, i)
    ensures Lookup(AddFacts(reference, facts, t), facts[i].key)
         == Some(Joined(Lookup(reference, facts[i].key), FactRecord(facts[i], t)))
    decreases |facts|
  {
    var before := facts[..|facts| - 1];
    if i == |facts| - 1 {
      OtherFactsStayOut(reference, before, t, facts[i].key);
    } else {
      FactJoins(reference, before, t, i);
    }
  }

  /** No observation brings a reference record about `key`. */
  ghost predicate NoReferenceTo(key: string, history: seq<AssetObservation>) {
    forall o, k :: o in history && k in o.structuredMetadata.reference ==>
      o.structuredMetadata.reference[k].key != key
  }

  lemma {:induction false} OtherRecordsStayOut(records: Records, source: Records, keys: seq<string>, key: string)
    requires forall k :: k in keys ==> k in source && source[k].key != key
    ensures Lookup(MergeRecords(records, source, keys), key) == Lookup(records, key)
  {
    if keys != [] {
      OtherRecordsStayOut(records, source, keys[..|keys| - 1], key);
    }
  }

  /** A fact that is added again and again keeps its one value and its source; it begins with the
      asset itself, and ends with the first observation that arrived. */
  function FactStands(f: Fact, firstSeen: Timestamp, arrived: Timestamp): MetadataRecord {
    MetadataRecord(f.key, {f.value}, f.source, "reference", firstSeen, arrived)
  }

  lemma FactStandsOn(f: Fact, before: Timestamp, now: Timestamp, arrived: Timestamp)
    requires NotAfter(now, before) && NotAfter(before, arrived) && f.source != ""
    ensures MergeInto(FactStands(f, before, arrived), FactRecord(f, now)) == FactStands(f, now, arrived)
  {
    assert {f.value} + {f.value} == {f.value};
  }

  lemma {:induction false} FactsInClosedForm(
    mac: string, history: seq<AssetObservation>, apply: Update, facts: Facts, i: nat)
    requires history != [] && MergesMetadata(apply, facts) && AddsBasics(apply)
    requires OnlyFact(facts(mac), i) && facts(mac)[i].source != "" && NoReferenceTo(facts(mac)[i].key, history)
    ensures var a, f := AssetFrom(mac, history, apply), facts(mac)[i];
            Lookup(a.structuredMetadata.reference, f.key)
            == Some(FactStands(f, a.firstSeen, history[0].timestamp))
    decreases |history|
  {
    var before, last, a := AssetFromOneMore(mac, history, apply);
    var b := apply(a, last);
    NoReferenceInParts(facts(mac)[i].key, before, last);
    assert MergesOne(a, last, b, facts);
    if before == [] {
      FactStarts(mac, last, b, apply, facts, i);
    } else {
      FactsInClosedForm(mac, before, apply, facts, i);
      SeenSinceTheFirst(mac, before, apply);
      EarlierStill(a, last, apply);
      StandsOneMore(a, last, b, facts, i, before[0].timestamp);
    }
  }

  lemma SeenSinceTheFirst(mac: string, history: seq<AssetObservation>, apply: Update)
    requires history != [] && AddsBasics(apply)
    ensures var a := AssetFrom(mac, history, apply);
            a.macAddress == mac && NotAfter(a.firstSeen, history[0].timestamp)
  {
    SetsInClosedForm(mac, history, apply);
    TimesInClosedForm(mac, history, apply);
  }

  lemma EarlierStill(a: Asset, o: AssetObservation, apply: Update)
    requires AddsBasics(apply)
    ensures NotAfter(apply(a, o).firstSeen, a.firstSeen)
  {
  }

  lemma NoReferenceInParts(key: string, before: seq<AssetObservation>, last: AssetObservation)
    requires NoReferenceTo(key, before + [last])
    ensures NoReferenceTo(key, before) && NoReferenceTo(key, [last])
  {
    assert forall o :: o in before || o in [last] ==> o in before + [last];
  }

  lemma FactStarts(
    mac: string, o: AssetObservation, b: Asset, apply: Update, facts: Facts, i: nat)
    requires AddsBasics(apply) && b == apply(BlankAsset(mac, o.timestamp), o)
    requires MergesOne(BlankAsset(mac, o.timestamp), o, b, facts)
    requires OnlyFact(facts(mac), i) && NoReferenceTo(facts(mac)[i].key, [o])
    ensures Lookup(b.structuredMetadata.reference, facts(mac)[i].key)
         == Some(FactStands(facts(mac)[i], b.firstSeen, o.timestamp))
  {
    FactOneMore(BlankAsset(mac, o.timestamp), o, b, facts, i);
  }

  lemma StandsOneMore(a: Asset, o: AssetObservation, b: Asset, facts: Facts, i: nat, arrived: Timestamp)
    requires MergesOne(a, o, b, facts) && OnlyFact(facts(a.macAddress), i)
    requires NoReferenceTo(facts(a.macAddress)[i].key, [o]) && facts(a.macAddress)[i].source != ""
    requires NotAfter(b.firstSeen, a.firstSeen) && NotAfter(a.firstSeen, arrived)
    requires var f := facts(a.macAddress)[i];
             Lookup(a.structuredMetadata.reference, f.key) == Some(FactStands(f, a.firstSeen, arrived))
    ensures var f := facts(a.macAddress)[i];
            Lookup(b.structuredMetadata.reference, f.key) == Some(FactStands(f, b.firstSeen, arrived))
  {
    FactOneMore(a, o, b, facts, i);
    FactStandsOn(facts(a.macAddress)[i], a.firstSeen, b.firstSeen, arrived);
  }

  lemma FactOneMore(a: Asset, o: AssetObservation, b: Asset, facts: Facts, i: nat)
    requires MergesOne(a, o, b, facts) && OnlyFact(facts(a.macAddress), i)
    requires NoReferenceTo(facts(a.macAddress)[i].key, [o])
    ensures var f := facts(a.macAddress)[i];
            Lookup(b.structuredMetadata.reference, f.key)
            == Some(Joined(Lookup(a.structuredMetadata.reference, f.key), FactRecord(f, b.firstSeen)))
  {
    var source := o.structuredMetadata.reference;
    var f := facts(a.macAddress)[i];
    assert o in [o];
    OtherRecordsStayOut(a.structuredMetadata.reference, source, InOrder(source.Keys), f.key);
    FactJoins(MergeRecords(a.structuredMetadata.reference, source, InOrder(source.Keys)),
              facts(a.macAddress), b.firstSeen, i);
  }
}
