/** Observations, and the metadata records that observations and assets carry. */
module AssetObservations {
  import opened Options
  import opened Text

  const SOURCE_DHCP := "dhcp"
  const SOURCE_MDNS := "mdns"
  const SOURCE_SSDP := "ssdp"

  datatype Timestamp = Timestamp(seconds: int, microseconds: int)

  predicate TimestampLess(left: Timestamp, right: Timestamp) {
    if left.seconds != right.seconds then left.seconds < right.seconds else left.microseconds < right.microseconds
  }

  predicate TimestampLessOrEqual(left: Timestamp, right: Timestamp) {
    if left.seconds != right.seconds then left.seconds < right.seconds else left.microseconds <= right.microseconds
  }

  datatype MetadataRecord = MetadataRecord(
    key: string, values: set<string>, source: string, confidenceCategory: string,
    firstSeen: Timestamp, lastSeen: Timestamp)

  /** The fixed sentences that explain a hint are named, not spelled out. */
  datatype Reason =
    | PrinterServiceSeen | MicrosoftVendorClass | SentSynAck | OuiRegistryEntry
    | OtherReason(text: string)

  datatype DerivedHint = DerivedHint(
    category: string, value: string, confidence: string, reason: Reason, evidenceKeys: seq<string>)

  type Records = map<string, MetadataRecord>

  datatype StructuredMetadata = StructuredMetadata(
    observed: Records, reference: Records, derivedHints: seq<DerivedHint>)

  datatype AssetObservation = AssetObservation(
    macAddress: string, ipAddress: Option<string>, hostname: Option<string>, displayName: Option<string>,
    vendor: Option<string>, osHint: Option<string>, deviceType: Option<string>, modelHint: Option<string>,
    sourceId: string, metadata: map<string, string>, structuredMetadata: StructuredMetadata,
    timestamp: Timestamp)

  // ---------------------------------------------------------------- records

  function MakeRecord(key: string, value: string, source: string, category: string, t: Timestamp): MetadataRecord {
    MetadataRecord(key, {value}, source, category, t, t)
  }

  function MergeInto(target: MetadataRecord, record: MetadataRecord): MetadataRecord {
    MetadataRecord(
      target.key,
      target.values + record.values,
      if target.source == "" && record.source != "" then record.source else target.source,
      if target.confidenceCategory == "" && record.confidenceCategory != "" then record.confidenceCategory
      else target.confidenceCategory,
      if TimestampLessOrEqual(record.firstSeen, target.firstSeen) then record.firstSeen else target.firstSeen,
      if TimestampLessOrEqual(target.lastSeen, record.lastSeen) then record.lastSeen else target.lastSeen)
  }

  /** Note that it is the record's own key that is looked up, not the key it is stored under. */
  function MergeRecord(records: Records, record: MetadataRecord): Records {
    if record.key == "" || record.values == {} then records
    else if record.key !in records then records[record.key := record]
    else records[record.key := MergeInto(records[record.key], record)]
  }

  function MergeRecords(records: Records, source: Records, keys: seq<string>): Records
    requires forall k :: k in keys ==> k in source
  {
    if keys == [] then records
    else MergeRecord(MergeRecords(records, source, keys[..|keys| - 1]), source[keys[|keys| - 1]])
  }

  /** The values recorded under a key. */
  function Values(records: Records, key: string): set<string> {
    if key in records then records[key].values else {}
  }

  ghost predicate Gives(source: Records, k: string, key: string, value: string) {
    key != "" && k in source && source[k].key == key && value in source[k].values
  }

  /** Merging `source` is to add `value` under `key`. */
  ghost predicate Contributes(source: Records, key: string, value: string) {
    exists k :: Gives(source, k, key, value)
  }

  /** A record is never empty, and is stored under its own key. */
  ghost predicate Tidy(records: Records) {
    forall k :: k in records ==> records[k].key == k && k != "" && records[k].values != {}
  }

  lemma MergeRecordValues(records: Records, record: MetadataRecord, key: string)
    requires Tidy(records)
    ensures Tidy(MergeRecord(records, record))
    ensures Values(MergeRecord(records, record), key)
            == Values(records, key) + if key != "" && record.key == key then record.values else {}
  {
  }

  /** Merging a whole map of records adds the values it contributes, key by key, and nothing
      else, in whatever order the records are visited. */
  lemma {:induction false} MergedValues(records: Records, source: Records, keys: seq<string>, key: string)
    requires Tidy(records) && forall k :: k in keys ==> k in source
    ensures Tidy(MergeRecords(records, source, keys))
    ensures var merged := MergeRecords(records, source, keys);
            forall v :: v in Values(merged, key) <==>
              v in Values(records, key)
              || exists k :: k in keys && Gives(source, k, key, v)
  {
    if keys != [] {
      var before, last := keys[..|keys| - 1], keys[|keys| - 1];
      assert keys == before + [last];
      MergedValues(records, source, before, key);
      var merged := MergeRecords(records, source, before);
      MergeRecordValues(merged, source[last], key);
      forall v ensures v in Values(MergeRecord(merged, source[last]), key) <==>
          v in Values(records, key) || exists k :: k in keys && Gives(source, k, key, v)
      {
        assert Gives(source, last, key, v) <==> key != "" && source[last].key == key && v in source[last].values;
        assert last in keys && forall k :: k in keys <==> k in before || k == last;
      }
    }
  }

  // ---------------------------------------------------------------- observed metadata

  datatype MetadataEntry = MetadataEntry(key: string, value: string)

  /** The metadata of an observation under construction, flat and structured. */
  datatype Gathered = Gathered(metadata: map<string, string>, observed: Records)

  function AddObserved(g: Gathered, e: MetadataEntry, sourceId: string, t: Timestamp): Gathered {
    if e.key == "" || e.value == "" then g
    else Gathered(g.metadata[e.key := e.value],
                  MergeRecord(g.observed, MakeRecord(e.key, e.value, sourceId, "observed", t)))
  }

  function AddAllObserved(es: seq<MetadataEntry>, sourceId: string, t: Timestamp): Gathered {
    if es == [] then Gathered(map[], map[])
    else AddObserved(AddAllObserved(es[..|es| - 1], sourceId, t), es[|es| - 1], sourceId, t)
  }

  function LastEntry(es: seq<MetadataEntry>, key: string): Option<string> {
    if es == [] then None
    else if es[|es| - 1].key == key && es[|es| - 1].value != "" then Some(es[|es| - 1].value)
    else LastEntry(es[..|es| - 1], key)
  }

  /** The record was made here and now. */
  predicate MadeBy(r: MetadataRecord, sourceId: string, t: Timestamp) {
    r.source == sourceId && r.confidenceCategory == "observed" && r.firstSeen == r.lastSeen == t
  }

  /** Under every key stand exactly the values that were added and are not empty, and flat the
      last of them. */
  lemma {:induction false} ObservedIsExact(es: seq<MetadataEntry>, sourceId: string, t: Timestamp, key: string)
    requires key != ""
    ensures var g := AddAllObserved(es, sourceId, t);
            && Tidy(g.observed)
            && (forall v :: v in Values(g.observed, key) <==> v != "" && MetadataEntry(key, v) in es)
            && (key in g.observed ==> MadeBy(g.observed[key], sourceId, t))
            && (key in g.metadata <==> LastEntry(es, key).Some?)
            && (key in g.metadata ==> g.metadata[key] == LastEntry(es, key).value)
  {
    if es != [] {
      var before, last := es[..|es| - 1], es[|es| - 1];
      ObservedIsExact(before, sourceId, t, key);
      var g := AddAllObserved(before, sourceId, t);
      MergeRecordValues(g.observed, MakeRecord(last.key, last.value, sourceId, "observed", t), key);
      assert es == before + [last];
    }
  }

  /** A record is stored under its own key, so merging them contributes just these values. */
  lemma ObservedContributes(es: seq<MetadataEntry>, sourceId: string, t: Timestamp, key: string, v: string)
    requires key != ""
    ensures Contributes(AddAllObserved(es, sourceId, t).observed, key, v) <==> v != "" && MetadataEntry(key, v) in es
  {
    ObservedIsExact(es, sourceId, t, key);
    var observed := AddAllObserved(es, sourceId, t).observed;
    if Contributes(observed, key, v) {
      var k :| Gives(observed, k, key, v);
      assert k == key;
    }
    if v in Values(observed, key) {
      assert Gives(observed, key, key, v);
    }
  }

  method GatherObserved(es: seq<MetadataEntry>, sourceId: string, t: Timestamp) returns (g: Gathered)
    ensures g == AddAllObserved(es, sourceId, t)
  {
    g := Gathered(map[], map[]);
    for i := 0 to |es|
      invariant g == AddAllObserved(es[..i], sourceId, t)
    {
      assert es[..i + 1][..i] == es[..i];
      g := AddObserved(g, es[i], sourceId, t);
    }
    assert es[..|es|] == es;
  }

  // ---------------------------------------------------------------- derived hints

  predicate SameHint(left: DerivedHint, right: DerivedHint) {
    left.category == right.category && left.value == right.value
  }

  predicate Complete(hint: DerivedHint) {
    && hint.category != "" && hint.value != "" && hint.confidence != ""
    && hint.reason != OtherReason("") && hint.evidenceKeys != []
  }

  function AddHint(hints: seq<DerivedHint>, hint: DerivedHint): seq<DerivedHint> {
    if !Complete(hint) || exists i :: 0 <= i < |hints| && SameHint(hints[i], hint) then hints
    else hints + [hint]
  }

  method AddDerivedHint(hints: seq<DerivedHint>, hint: DerivedHint) returns (hints': seq<DerivedHint>)
    ensures hints' == AddHint(hints, hint)
  {
    if !Complete(hint) {
      return hints;
    }
    var i := 0;
    while i < |hints| && !SameHint(hints[i], hint)
      invariant 0 <= i <= |hints|
      invariant forall j :: 0 <= j < i ==> !SameHint(hints[j], hint)
    {
      i := i + 1;
    }
    hints' := if i == |hints| then hints + [hint] else hints;
  }

  function AddHints(hints: seq<DerivedHint>, more: seq<DerivedHint>): seq<DerivedHint> {
    if more == [] then hints else AddHint(AddHints(hints, more[..|more| - 1]), more[|more| - 1])
  }

  /** Category, value, confidence, reason and evidence are all there. */
  predicate NothingMissing(h: DerivedHint) {
    && |h.category| > 0 && |h.value| > 0 && |h.confidence| > 0 && |h.evidenceKeys| > 0
    && (h.reason.OtherReason? ==> |h.reason.text| > 0)
  }

  lemma CompleteMeansNothingMissing(h: DerivedHint)
    ensures Complete(h) <==> NothingMissing(h)
  {
  }

  /** However many hints are added, no two of the result agree in category and value, all
      of them were among those added, and every complete one is represented. */
  lemma {:induction false} HintsAreDistinct(more: seq<DerivedHint>)
    ensures var hints := AddHints([], more);
            && (forall i, j :: 0 <= i < j < |hints| ==> !SameHint(hints[i], hints[j]))
            && (forall h :: h in hints ==> h in more && NothingMissing(h))
            && (forall h :: h in more && NothingMissing(h) ==> exists i :: 0 <= i < |hints| && SameHint(hints[i], h))
  {
    if more != [] {
      var before, last := more[..|more| - 1], more[|more| - 1];
      HintsAreDistinct(before);
      CompleteMeansNothingMissing(last);
      var hints, hints' := AddHints([], before), AddHints([], more);
      assert more == before + [last];
      assert hints' == hints || (hints' == hints + [last] && NothingMissing(last));
      forall h | h in more && NothingMissing(h) ensures exists i :: 0 <= i < |hints'| && SameHint(hints'[i], h) {
        if h in before {
          var i :| 0 <= i < |hints| && SameHint(hints[i], h);
          assert SameHint(hints'[i], h);
        } else if hints' == hints + [last] {
          assert SameHint(hints'[|hints|], h);
        }
      }
    }
  }

  /** Adding hints to those of an asset keeps these, in front and in order. */
  lemma {:induction false} HintsAreKept(hints: seq<DerivedHint>, more: seq<DerivedHint>)
    ensures hints <= AddHints(hints, more)
    ensures forall h :: h in AddHints(hints, more) ==> h in hints || h in more
    ensures forall h :: h in more && NothingMissing(h) ==>
              exists i :: 0 <= i < |AddHints(hints, more)| && SameHint(AddHints(hints, more)[i], h)
  {
    if more != [] {
      var before, last := more[..|more| - 1], more[|more| - 1];
      HintsAreKept(hints, before);
      CompleteMeansNothingMissing(last);
      var some, all := AddHints(hints, before), AddHints(hints, more);
      assert all == some || all == some + [last];
      assert forall i :: 0 <= i < |some| ==> all[i] == some[i];
      forall h | h in more && NothingMissing(h) ensures exists i :: 0 <= i < |all| && SameHint(all[i], h) {
        if h in before {
          var i :| 0 <= i < |some| && SameHint(some[i], h);
          assert SameHint(all[i], h);
        } else if all == some + [last] {
          assert h == last && SameHint(all[|some|], h);
        }
      }
    }
  }

  // ---------------------------------------------------------------- whole metadata

  function MergeMetadata(target: StructuredMetadata, source: StructuredMetadata): StructuredMetadata {
    StructuredMetadata(
      MergeRecords(target.observed, source.observed, InOrder(source.observed.Keys)),
      MergeRecords(target.reference, source.reference, InOrder(source.reference.Keys)),
      AddHints(target.derivedHints, source.derivedHints))
  }

  lemma MergeOneMore(target: Records, source: Records, keys: seq<string>, i: nat)
    requires i < |keys| && forall k :: k in keys ==> k in source
    ensures MergeRecords(target, source, keys[..i + 1])
         == MergeRecord(MergeRecords(target, source, keys[..i]), source[keys[i]])
  {
    assert keys[..i + 1][..i] == keys[..i];
  }

  lemma AddOneMore(hints: seq<DerivedHint>, more: seq<DerivedHint>, i: nat)
    requires i < |more|
    ensures AddHints(hints, more[..i + 1]) == AddHint(AddHints(hints, more[..i]), more[i])
  {
    assert more[..i + 1][..i] == more[..i];
  }

  method AddAllHints(hints: seq<DerivedHint>, more: seq<DerivedHint>) returns (hints': seq<DerivedHint>)
    ensures hints' == AddHints(hints, more)
  {
    hints' := hints;
    for i := 0 to |more|
      invariant hints' == AddHints(hints, more[..i])
    {
      AddOneMore(hints, more, i);
      hints' := AddDerivedHint(hints', more[i]);
    }
    assert more[..|more|] == more;
  }

  method MergeAllRecords(target: Records, source: Records) returns (merged: Records)
    ensures merged == MergeRecords(target, source, InOrder(source.Keys))
  {
    var keys := InOrder(source.Keys);
    merged := target;
    for i := 0 to |keys|
      invariant merged == MergeRecords(target, source, keys[..i])
    {
      MergeOneMore(target, source, keys, i);
      merged := MergeRecord(merged, source[keys[i]]);
    }
    assert keys[..|keys|] == keys;
  }

  method MergeStructuredMetadata(target: StructuredMetadata, source: StructuredMetadata)
    returns (merged: StructuredMetadata)
    ensures merged == MergeMetadata(target, source)
  {
    var observed := MergeAllRecords(target.observed, source.observed);
    var reference := MergeAllRecords(target.reference, source.reference);
    var hints := AddAllHints(target.derivedHints, source.derivedHints);
    merged := StructuredMetadata(observed, reference, hints);
  }

  /** What the merge of one map of records leaves under each key. */
  lemma MergeAddsValues(target: Records, source: Records, key: string)
    requires Tidy(target)
    ensures var merged := MergeRecords(target, source, InOrder(source.Keys));
            && Tidy(merged)
            && forall v :: v in Values(merged, key) <==> v in Values(target, key) || Contributes(source, key, v)
  {
    MergedValues(target, source, InOrder(source.Keys), key);
  }

  /** Merging whole metadata adds the values that the source contributes, observed to observed
      and reference to reference, and behind the hints of the target those that are new. */
  lemma MergedMetadata(target: StructuredMetadata, source: StructuredMetadata, key: string)
    requires Tidy(target.observed) && Tidy(target.reference)
    ensures var merged := MergeMetadata(target, source);
            && (forall v :: v in Values(merged.observed, key) <==>
                  v in Values(target.observed, key) || Contributes(source.observed, key, v))
            && (forall v :: v in Values(merged.reference, key) <==>
                  v in Values(target.reference, key) || Contributes(source.reference, key, v))
            && target.derivedHints <= merged.derivedHints
            && (forall h :: h in merged.derivedHints ==> h in target.derivedHints || h in source.derivedHints)
            && (forall h :: h in source.derivedHints && NothingMissing(h) ==>
                  exists i :: 0 <= i < |merged.derivedHints| && SameHint(merged.derivedHints[i], h))
  {
    MergeAddsValues(target.observed, source.observed, key);
    MergeAddsValues(target.reference, source.reference, key);
    HintsAreKept(target.derivedHints, source.derivedHints);
  }
}
