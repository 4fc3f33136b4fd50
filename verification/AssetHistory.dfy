/** The inventory after a whole run of observations, in closed form. Runs are folded with any
    update function; what a closed form needs of it is a named property, and the source's
    own update has them all. */
module AssetHistories {
  import opened Text
  import opened AssetObservations
  import opened AssetStores

  function RunStore(run: seq<AssetObservation>, apply: Update): map<string, Asset> {
    if run == [] then map[]
    else StoreAfter(RunStore(run[..|run| - 1], apply), run[|run| - 1], apply)
  }

  predicate Touches(o: AssetObservation, mac: string) {
    o.macAddress != "" && Lower(o.macAddress) == mac
  }

  /** The observations of one device, in order. */
  function Touching(run: seq<AssetObservation>, mac: string): seq<AssetObservation> {
    if run == [] then []
    else
      var last := run[|run| - 1];
      Touching(run[..|run| - 1], mac) + if Touches(last, mac) then [last] else []
  }

  function AssetFrom(mac: string, history: seq<AssetObservation>, apply: Update): Asset
    requires history != []
  {
    var before, last := history[..|history| - 1], history[|history| - 1];
    apply(if before == [] then BlankAsset(mac, last.timestamp) else AssetFrom(mac, before, apply), last)
  }

  lemma AssetFromOneMore(mac: string, history: seq<AssetObservation>, apply: Update)
    returns (before: seq<AssetObservation>, last: AssetObservation, a: Asset)
    requires history != []
    ensures history == before + [last] && |before| < |history|
    ensures a == if before == [] then BlankAsset(mac, last.timestamp) else AssetFrom(mac, before, apply)
    ensures AssetFrom(mac, history, apply) == apply(a, last)
  {
    before, last := history[..|history| - 1], history[|history| - 1];
    a := if before == [] then BlankAsset(mac, last.timestamp) else AssetFrom(mac, before, apply);
  }

  lemma AssetFromNext(mac: string, before: seq<AssetObservation>, last: AssetObservation, apply: Update)
    ensures AssetFrom(mac, before + [last], apply)
         == apply(if before == [] then BlankAsset(mac, last.timestamp) else AssetFrom(mac, before, apply), last)
  {
    assert (before + [last])[..|before|] == before;
  }

  /** Devices do not influence each other: an asset exists exactly for the case-folded MAC
      addresses seen, and depends on the observations of that device alone. */
  lemma {:induction false} OneAssetPerMac(run: seq<AssetObservation>, mac: string, apply: Update)
    ensures mac in RunStore(run, apply) <==> Touching(run, mac) != []
    ensures mac in RunStore(run, apply) ==> RunStore(run, apply)[mac] == AssetFrom(mac, Touching(run, mac), apply)
  {
    if run != [] {
      var before, last := run[..|run| - 1], run[|run| - 1];
      OneAssetPerMac(before, mac, apply);
      if Touches(last, mac) {
        AssetFromNext(mac, Touching(before, mac), last, apply);
      } else {
        assert Touching(run, mac) == Touching(before, mac);
      }
    }
  }

  lemma {:induction false} TouchingCount(run: seq<AssetObservation>, mac: string, o: AssetObservation)
    ensures multiset(Touching(run, mac))[o] == if Touches(o, mac) then multiset(run)[o] else 0
  {
    if run != [] {
      TouchingCount(run[..|run| - 1], mac, o);
      assert run == run[..|run| - 1] + [run[|run| - 1]];
    }
  }

  // ---------------------------------------------------------------- addresses, sources, times

  ghost function Addresses(history: seq<AssetObservation>): set<string> {
    set o | o in history && o.ipAddress.Some? :: o.ipAddress.value
  }

  ghost function SourceIds(history: seq<AssetObservation>): set<string> {
    set o | o in history && o.sourceId != "" :: o.sourceId
  }

  /** Seconds count first, then microseconds. */
  predicate NotAfter(t: Timestamp, u: Timestamp) {
    t.seconds < u.seconds || (t.seconds == u.seconds && t.microseconds <= u.microseconds)
  }

  ghost predicate IsEarliest(t: Timestamp, history: seq<AssetObservation>) {
    && (exists o :: o in history && o.timestamp == t)
    && forall o :: o in history ==> NotAfter(t, o.timestamp)
  }

  ghost predicate IsLatest(t: Timestamp, history: seq<AssetObservation>) {
    && (exists o :: o in history && o.timestamp == t)
    && forall o :: o in history ==> NotAfter(o.timestamp, t)
  }

  ghost predicate AddsBasics(apply: Update) {
    forall a, o ::
      && apply(a, o).macAddress == a.macAddress
      && apply(a, o).ipAddresses == a.ipAddresses + (if o.ipAddress.Some? then {o.ipAddress.value} else {})
      && apply(a, o).sources == a.sources + (if o.sourceId != "" then {o.sourceId} else {})
      && apply(a, o).firstSeen == Earlier(o.timestamp, a.firstSeen)
      && apply(a, o).lastSeen == Later(o.timestamp, a.lastSeen)
  }

  lemma ApplyWithAddsBasics(registry: OuiRegistry)
    ensures AddsBasics(ApplyWith(registry))
  {
  }

  lemma SetsOfOneMore(before: seq<AssetObservation>, o: AssetObservation)
    ensures Addresses(before + [o]) == Addresses(before) + if o.ipAddress.Some? then {o.ipAddress.value} else {}
    ensures SourceIds(before + [o]) == SourceIds(before) + if o.sourceId != "" then {o.sourceId} else {}
  {
    assert o in before + [o];
    assert forall p :: p in before + [o] <==> p in before || p == o;
  }

  lemma {:induction false} SetsInClosedForm(mac: string, history: seq<AssetObservation>, apply: Update)
    requires history != [] && AddsBasics(apply)
    ensures var a := AssetFrom(mac, history, apply);
            a.macAddress == mac && a.ipAddresses == Addresses(history) && a.sources == SourceIds(history)
  {
    var before, last := history[..|history| - 1], history[|history| - 1];
    assert history == before + [last];
    if before != [] {
      SetsInClosedForm(mac, before, apply);
    }
    SetsOfOneMore(before, last);
  }

  lemma EarliestOfOneMore(t: Timestamp, history: seq<AssetObservation>, o: AssetObservation)
    requires IsEarliest(t, history)
    ensures IsEarliest(Earlier(o.timestamp, t), history + [o])
  {
    assert o in history + [o];
    assert forall p :: p in history + [o] <==> p in history || p == o;
  }

  lemma LatestOfOneMore(t: Timestamp, history: seq<AssetObservation>, o: AssetObservation)
    requires IsLatest(t, history)
    ensures IsLatest(Later(o.timestamp, t), history + [o])
  {
    assert o in history + [o];
    assert forall p :: p in history + [o] <==> p in history || p == o;
  }

  lemma FirstObservationSetsTimes(mac: string, o: AssetObservation, apply: Update)
    requires AddsBasics(apply)
    ensures var a := apply(BlankAsset(mac, o.timestamp), o);
            IsEarliest(a.firstSeen, [o]) && IsLatest(a.lastSeen, [o])
  {
    OneTime(o);
  }

  lemma OneTime(o: AssetObservation)
    ensures IsEarliest(o.timestamp, [o]) && IsLatest(o.timestamp, [o])
  {
    assert o in [o];
  }

  lemma {:induction false} TimesInClosedForm(mac: string, history: seq<AssetObservation>, apply: Update)
    requires history != [] && AddsBasics(apply)
    ensures IsEarliest(AssetFrom(mac, history, apply).firstSeen, history)
    ensures IsLatest(AssetFrom(mac, history, apply).lastSeen, history)
  {
    var before, last := history[..|history| - 1], history[|history| - 1];
    assert history == before + [last];
    if before == [] {
      FirstObservationSetsTimes(mac, last, apply);
      assert history == [last];
    } else {
      TimesInClosedForm(mac, before, apply);
      var a := AssetFrom(mac, before, apply);
      EarliestOfOneMore(a.firstSeen, before, last);
      LatestOfOneMore(a.lastSeen, before, last);
    }
  }
}
