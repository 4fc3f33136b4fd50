/** Which source's word counts for an asset's descriptive fields, over whole runs. */
module AssetRankings {
  import opened Options
  import opened AssetObservations
  import opened AssetStores
  import opened AssetHistories

  type Field = AssetObservation -> Option<string>

  function VendorOf(o: AssetObservation): Option<string> { o.vendor }
  function DeviceTypeOf(o: AssetObservation): Option<string> { o.deviceType }
  function HostnameOf(o: AssetObservation): Option<string> { o.hostname }
  function ModelHintOf(o: AssetObservation): Option<string> { o.modelHint }

  /** Does the observation give the field a value? */
  function Says(field: Field): AssetObservation -> bool {
    o => HasValue(field(o))
  }

  function SaysFrom(sourceId: string, field: Field): AssetObservation -> bool {
    (o: AssetObservation) => o.sourceId == sourceId && HasValue(field(o))
  }

  function LastThat(history: seq<AssetObservation>, p: AssetObservation -> bool): Option<AssetObservation> {
    if history == [] then None
    else if p(history[|history| - 1]) then Some(history[|history| - 1])
    else LastThat(history[..|history| - 1], p)
  }

  function FirstThat(history: seq<AssetObservation>, p: AssetObservation -> bool): Option<AssetObservation> {
    if history == [] then None
    else
      var first := FirstThat(history[..|history| - 1], p);
      if first.Some? then first
      else if p(history[|history| - 1]) then Some(history[|history| - 1])
      else None
  }

  lemma {:induction false} SaidAtAll(history: seq<AssetObservation>, p: AssetObservation -> bool)
    ensures LastThat(history, p).Some? <==> FirstThat(history, p).Some?
    ensures LastThat(history, p).Some? <==> exists o :: o in history && p(o)
    ensures LastThat(history, p).Some? ==> LastThat(history, p).value in history && p(LastThat(history, p).value)
    ensures FirstThat(history, p).Some? ==> FirstThat(history, p).value in history && p(FirstThat(history, p).value)
  {
    if history != [] {
      var before, last := history[..|history| - 1], history[|history| - 1];
      SaidAtAll(before, p);
      assert forall o :: o in history <==> o in before || o == last;
    }
  }

  lemma LastThatOneMore(before: seq<AssetObservation>, last: AssetObservation, p: AssetObservation -> bool)
    ensures LastThat(before + [last], p) == if p(last) then Some(last) else LastThat(before, p)
  {
    assert (before + [last])[..|before|] == before;
  }

  function LastSaid(history: seq<AssetObservation>, field: Field): Option<string> {
    match LastThat(history, Says(field))
    case Some(o) => field(o)
    case None => None
  }

  ghost predicate RanksOne(a: Asset, o: AssetObservation, b: Asset, registry: OuiRegistry) {
    && b.macAddress == a.macAddress
    && b.deviceType == Ranked(a.deviceType, o.sourceId, o.deviceType)
    && b.modelHint == Ranked(a.modelHint, o.sourceId, o.modelHint)
    && b.osHint == RankedOsHint(a.osHint, o.sourceId, o.osHint)
    && b.vendor ==
       (if HasValue(o.vendor) then o.vendor
        else if a.vendor.Some? then a.vendor else Registrant(a.macAddress, registry))
    && b.hostname == (if HasValue(o.hostname) then o.hostname else a.hostname)
    && b.displayName ==
       RankedDisplayName(if HasValue(o.hostname) && !HasValue(a.displayName) then o.hostname else a.displayName,
                         b.hostname, o)
  }

  ghost predicate Ranks(apply: Update, registry: OuiRegistry) {
    forall a, o :: RanksOne(a, o, apply(a, o), registry)
  }

  lemma AppliedRanksOne(a: Asset, o: AssetObservation, registry: OuiRegistry)
    ensures RanksOne(a, o, Applied(a, o, registry), registry)
  {
  }

  lemma ApplyWithRanks(registry: OuiRegistry)
    ensures Ranks(ApplyWith(registry), registry)
  {
    forall a, o ensures RanksOne(a, o, ApplyWith(registry)(a, o), registry) {
      AppliedRanksOne(a, o, registry);
    }
  }

  // ---------------------------------------------------------------- vendor, device type, model

  /** The vendor is the last one stated outright, else the registrant of the MAC prefix. */
  lemma {:induction false} VendorInClosedForm(
    mac: string, history: seq<AssetObservation>, apply: Update, registry: OuiRegistry)
    requires history != [] && Ranks(apply, registry)
    ensures AssetFrom(mac, history, apply).macAddress == mac
    ensures AssetFrom(mac, history, apply).vendor ==
            match LastThat(history, Says(VendorOf))
            case Some(o) => o.vendor
            case None => Registrant(mac, registry)
  {
    var before, last, a := AssetFromOneMore(mac, history, apply);
    LastThatOneMore(before, last, Says(VendorOf));
    assert Says(VendorOf)(last) == HasValue(last.vendor);
    if before != [] {
      VendorInClosedForm(mac, before, apply, registry);
      SaidAtAll(before, Says(VendorOf));
    }
  }

  /** The last mDNS value, else the first value from any source. */
  function MdnsElseFirst(history: seq<AssetObservation>, field: Field): Option<string> {
    match LastThat(history, SaysFrom("mdns", field))
    case Some(o) => field(o)
    case None =>
      match FirstThat(history, Says(field))
      case Some(o) => field(o)
      case None => None
  }

  lemma RankedOneMore(history: seq<AssetObservation>, last: AssetObservation, field: Field)
    ensures MdnsElseFirst(history + [last], field) == Ranked(MdnsElseFirst(history, field), last.sourceId, field(last))
    ensures MdnsElseFirst(history, field).Some? ==> HasValue(MdnsElseFirst(history, field))
  {
    var longer := history + [last];
    assert longer[..|longer| - 1] == history && longer[|longer| - 1] == last;
    SaidAtAll(history, Says(field));
    SaidAtAll(history, SaysFrom("mdns", field));
  }

  lemma {:induction false} DeviceInClosedForm(
    mac: string, history: seq<AssetObservation>, apply: Update, registry: OuiRegistry)
    requires history != [] && Ranks(apply, registry)
    ensures AssetFrom(mac, history, apply).deviceType == MdnsElseFirst(history, DeviceTypeOf)
    ensures AssetFrom(mac, history, apply).modelHint == MdnsElseFirst(history, ModelHintOf)
  {
    var before, last := history[..|history| - 1], history[|history| - 1];
    assert history == before + [last];
    RankedOneMore(before, last, DeviceTypeOf);
    RankedOneMore(before, last, ModelHintOf);
    if before != [] {
      DeviceInClosedForm(mac, before, apply, registry);
    } else {
      assert MdnsElseFirst(before, DeviceTypeOf) == None && MdnsElseFirst(before, ModelHintOf) == None;
    }
  }

  // ---------------------------------------------------------------- operating system

  /** The operating system hint after more observations. */
  function OsHintAfter(current: Option<string>, more: seq<AssetObservation>): Option<string> {
    if more == [] then current
    else
      var last := more[|more| - 1];
      RankedOsHint(OsHintAfter(current, more[..|more| - 1]), last.sourceId, last.osHint)
  }

  lemma {:induction false} OsHintIsFolded(
    mac: string, history: seq<AssetObservation>, apply: Update, registry: OuiRegistry)
    requires history != [] && Ranks(apply, registry)
    ensures AssetFrom(mac, history, apply).osHint == OsHintAfter(None, history)
  {
    var before, last, a := AssetFromOneMore(mac, history, apply);
    assert history[..|history| - 1] == before;
    if before != [] {
      OsHintIsFolded(mac, before, apply, registry);
    }
  }

  predicate DhcpSaysOs(o: AssetObservation) {
    o.sourceId == "dhcp" && HasValue(o.osHint)
  }

  lemma OsHintStep(current: Option<string>, o: AssetObservation)
    ensures DhcpSaysOs(o) ==> RankedOsHint(current, o.sourceId, o.osHint) == o.osHint
    ensures !DhcpSaysOs(o) && HasValue(current) && !Vague(current) ==>
              RankedOsHint(current, o.sourceId, o.osHint) == current
  {
  }

  /** Once a DHCP hint was applied the OS hint is always the latest DHCP hint, provided that
      DHCP never says one of the two vague values. */
  lemma {:induction false} DhcpOsHintWins(history: seq<AssetObservation>)
    requires forall o :: o in history && DhcpSaysOs(o) ==> !Vague(o.osHint)
    ensures var dhcp := LastThat(history, DhcpSaysOs);
            dhcp.Some? ==> OsHintAfter(None, history) == dhcp.value.osHint
  {
    if history != [] {
      var before, last := history[..|history| - 1], history[|history| - 1];
      DhcpOsHintWins(before);
      SaidAtAll(before, DhcpSaysOs);
      OsHintStep(OsHintAfter(None, before), last);
    }
  }

  ghost predicate SurvivesOthers(hint: Option<string>) {
    forall more: seq<AssetObservation> ::
      (forall o :: o in more ==> o.sourceId != "dhcp") ==> OsHintAfter(hint, more) == hint
  }

  lemma {:induction false} PreciseHintSurvives(hint: Option<string>, more: seq<AssetObservation>)
    requires HasValue(hint) && !Vague(hint)
    requires forall o :: o in more ==> o.sourceId != "dhcp"
    ensures OsHintAfter(hint, more) == hint
  {
    if more != [] {
      PreciseHintSurvives(hint, more[..|more| - 1]);
    }
  }

  /** The proviso is exactly what is needed: a DHCP hint outlasts everything that other
      sources may say if and only if it is not one of the two vague values. */
  lemma OnlyVagueHintsGiveWay(hint: Option<string>)
    requires HasValue(hint)
    ensures SurvivesOthers(hint) <==> hint.value != "linux/unix" && hint.value != "network-device"
  {
    if Vague(hint) {
      var blank := StructuredMetadata(map[], map[], []);
      var o := AssetObservation("", None, None, None, None, Some("windows"), None, None, SOURCE_SSDP, map[], blank,
                                Timestamp(0, 0));
      assert OsHintAfter(hint, [o][..0]) == hint;
      assert OsHintAfter(hint, [o]) == Some("windows");
      assert "windows"[0] != "linux/unix"[0] && "windows"[0] != "network-device"[0];
      assert Some("windows") != hint;
      assert !SurvivesOthers(hint);
    } else {
      forall more: seq<AssetObservation> | forall o :: o in more ==> o.sourceId != "dhcp"
        ensures OsHintAfter(hint, more) == hint
      {
        PreciseHintSurvives(hint, more);
      }
    }
  }

  predicate SsdpSaysOs(o: AssetObservation) {
    o.sourceId == "ssdp" && HasValue(o.osHint)
  }

  predicate SsdpIsPrecise(o: AssetObservation) {
    SsdpSaysOs(o) && !Vague(o.osHint)
  }

  /** What becomes of a hint when DHCP says nothing more: a precise one stays; a vague one
      gives way to the first precise SSDP hint, else to the last SSDP hint. */
  function Settled(base: Option<string>, later: seq<AssetObservation>): Option<string> {
    if !Vague(base) then base
    else
      match FirstThat(later, SsdpIsPrecise)
      case Some(o) => o.osHint
      case None =>
        match LastThat(later, SsdpSaysOs)
        case Some(o) => o.osHint
        case None => base
  }

  lemma SettledOneMore(base: Option<string>, later: seq<AssetObservation>, last: AssetObservation)
    requires HasValue(base) && !DhcpSaysOs(last)
    ensures HasValue(Settled(base, later))
    ensures Settled(base, later + [last]) == RankedOsHint(Settled(base, later), last.sourceId, last.osHint)
  {
    var longer := later + [last];
    assert longer[..|longer| - 1] == later;
    SaidAtAll(later, SsdpIsPrecise);
    SaidAtAll(later, SsdpSaysOs);
    if Vague(base) && FirstThat(later, SsdpIsPrecise).None? && LastThat(later, SsdpSaysOs).Some? {
      assert !SsdpIsPrecise(LastThat(later, SsdpSaysOs).value);
    }
  }

  lemma {:induction false} HintSettles(base: Option<string>, later: seq<AssetObservation>)
    requires HasValue(base) && forall o :: o in later ==> !DhcpSaysOs(o)
    ensures OsHintAfter(base, later) == Settled(base, later)
    decreases |later|
  {
    if later != [] {
      var before, last := later[..|later| - 1], later[|later| - 1];
      assert later == before + [last];
      HintSettles(base, before);
      SettledOneMore(base, before, last);
    }
  }

  lemma {:induction false} HintInTwoParts(current: Option<string>, a: seq<AssetObservation>, b: seq<AssetObservation>)
    ensures OsHintAfter(current, a + b) == OsHintAfter(OsHintAfter(current, a), b)
    decreases |b|
  {
    if b == [] {
      assert a + b == a;
    } else {
      assert (a + b)[..|a + b| - 1] == a + b[..|b| - 1];
      HintInTwoParts(current, a, b[..|b| - 1]);
    }
  }

  lemma {:induction false} SilenceGivesNoHint(history: seq<AssetObservation>)
    requires forall o :: o in history ==> !HasValue(o.osHint)
    ensures OsHintAfter(None, history) == None
  {
    if history != [] {
      SilenceGivesNoHint(history[..|history| - 1]);
    }
  }

  /** The observation that the OS hint goes back to is the last DHCP hint, or without one the
      first hint of any source. */
  ghost predicate IsBase(history: seq<AssetObservation>, i: nat) {
    && i < |history| && HasValue(history[i].osHint)
    && (forall j :: i < j < |history| ==> !DhcpSaysOs(history[j]))
    && (DhcpSaysOs(history[i]) || forall j :: 0 <= j < i ==> !HasValue(history[j].osHint))
  }

  /** None if nobody said anything, else what the base hint settles to. */
  ghost predicate OsHintIs(hint: Option<string>, history: seq<AssetObservation>) {
    if forall o :: o in history ==> !HasValue(o.osHint) then hint == None
    else exists i: nat :: IsBase(history, i) && hint == Settled(history[i].osHint, history[i + 1..])
  }

  lemma BaseSettles(history: seq<AssetObservation>, i: nat)
    requires IsBase(history, i)
    ensures OsHintAfter(None, history) == Settled(history[i].osHint, history[i + 1..])
  {
    var before, base, later := history[..i], history[i].osHint, history[i + 1..];
    assert history[..i + 1] == before + [history[i]];
    assert history == (before + [history[i]]) + later;
    HintInTwoParts(None, before + [history[i]], later);
    assert (before + [history[i]])[..i] == before;
    if !DhcpSaysOs(history[i]) {
      SilenceGivesNoHint(before);
    }
    HintSettles(base, later);
  }

  lemma OneBase(history: seq<AssetObservation>, i: nat, j: nat)
    requires IsBase(history, i) && IsBase(history, j)
    ensures i == j
  {
  }

  /** The OS hint in closed form, whoever said what and in whatever order. */
  lemma OsHintInClosedForm(history: seq<AssetObservation>)
    ensures OsHintIs(OsHintAfter(None, history), history)
    ensures forall i: nat, j: nat :: IsBase(history, i) && IsBase(history, j) ==> i == j
  {
    forall i: nat, j: nat | IsBase(history, i) && IsBase(history, j) ensures i == j {
      OneBase(history, i, j);
    }
    if forall o :: o in history ==> !HasValue(o.osHint) {
      SilenceGivesNoHint(history);
    } else {
      var i := BaseExists(history);
      BaseSettles(history, i);
    }
  }

  /** There always is a base, unless nobody said anything. */
  lemma {:induction false} BaseExists(history: seq<AssetObservation>) returns (i: nat)
    requires exists o :: o in history && HasValue(o.osHint)
    ensures IsBase(history, i)
  {
    var before, last := history[..|history| - 1], history[|history| - 1];
    assert history == before + [last];
    if DhcpSaysOs(last) || !exists o :: o in before && HasValue(o.osHint) {
      i := |before|;
      forall j | 0 <= j < i ensures !HasValue(history[j].osHint) || DhcpSaysOs(history[i]) {
        assert history[j] in before;
      }
    } else {
      i := BaseExists(before);
    }
  }

  // ---------------------------------------------------------------- display name

  /** What every DHCP observation satisfies: its display name is its hostname. */
  predicate NamedByHostname(o: AssetObservation) {
    o.sourceId == "dhcp" && HasValue(o.displayName) ==> o.displayName == o.hostname
  }

  predicate MdnsSaysName(o: AssetObservation) {
    o.sourceId == "mdns" && HasValue(o.displayName)
  }

  /** The display name and the hostname after one more observation. */
  function NamesAfter(displayName: Option<string>, hostname: Option<string>, o: AssetObservation)
    : (Option<string>, Option<string>)
  {
    var host := if HasValue(o.hostname) then o.hostname else hostname;
    var named := if HasValue(o.hostname) && !HasValue(displayName) then o.hostname else displayName;
    (RankedDisplayName(named, host, o), host)
  }

  /** Exactly when an observation of another source changes a display name that is set. */
  lemma WhenADisplayNameIsReplaced(displayName: Option<string>, hostname: Option<string>, o: AssetObservation)
    requires HasValue(displayName) && o.sourceId != SOURCE_MDNS
    ensures NamesAfter(displayName, hostname, o).0 != displayName <==>
              && o.sourceId == SOURCE_DHCP
              && HasValue(o.displayName) && o.displayName != displayName
              && displayName == (if HasValue(o.hostname) then o.hostname else hostname)
  {
  }

  function NamesOf(history: seq<AssetObservation>): (Option<string>, Option<string>) {
    if history == [] then (None, None)
    else
      var (displayName, hostname) := NamesOf(history[..|history| - 1]);
      NamesAfter(displayName, hostname, history[|history| - 1])
  }

  lemma {:induction false} NamesAreFolded(
    mac: string, history: seq<AssetObservation>, apply: Update, registry: OuiRegistry)
    requires history != [] && Ranks(apply, registry)
    ensures NamesOf(history) == (AssetFrom(mac, history, apply).displayName, AssetFrom(mac, history, apply).hostname)
  {
    var before, last, a := AssetFromOneMore(mac, history, apply);
    assert history[..|history| - 1] == before;
    if before != [] {
      NamesAreFolded(mac, before, apply, registry);
    }
  }

  lemma SaysHostname(o: AssetObservation)
    ensures Says(HostnameOf)(o) == HasValue(o.hostname) && HostnameOf(o) == o.hostname
  {
    var field: Field := HostnameOf;
    assert Says(field)(o) == HasValue(field(o));
  }

  lemma {:induction false} HostnameIsLastSaid(history: seq<AssetObservation>)
    ensures NamesOf(history).1 == LastSaid(history, HostnameOf)
  {
    if history != [] {
      var before, last := history[..|history| - 1], history[|history| - 1];
      assert history == before + [last];
      HostnameIsLastSaid(before);
      LastThatOneMore(before, last, Says(HostnameOf));
      SaysHostname(last);
    }
  }

  /** Once an mDNS display name was applied only another mDNS display name replaces it. */
  lemma {:induction false} MdnsDisplayNameWins(history: seq<AssetObservation>)
    requires forall o :: o in history ==> NamedByHostname(o)
    ensures var mdns := LastThat(history, MdnsSaysName);
            mdns.Some? ==> NamesOf(history).0 == mdns.value.displayName
  {
    if history != [] {
      var before, last := history[..|history| - 1], history[|history| - 1];
      MdnsDisplayNameWins(before);
      SaidAtAll(before, MdnsSaysName);
      var (displayName, hostname) := NamesOf(before);
      if LastThat(before, MdnsSaysName).Some? && last.sourceId != SOURCE_MDNS {
        assert NamedByHostname(last);
        WhenADisplayNameIsReplaced(displayName, hostname, last);
      }
    }
  }

  predicate SaysAnyName(o: AssetObservation) {
    HasValue(o.hostname) || HasValue(o.displayName)
  }

  function AnyNameOf(o: AssetObservation): Option<string> {
    if HasValue(o.hostname) then o.hostname else o.displayName
  }

  /** For observations that name a device by its hostname the DHCP rule of the display name
      ranking never matters: when it applies, it assigns the name that is there already. */
  lemma DhcpRuleIsIdle(displayName: Option<string>, hostname: Option<string>, o: AssetObservation)
    requires NamedByHostname(o)
    ensures NamesAfter(displayName, hostname, o).0 ==
            if MdnsSaysName(o) then o.displayName
            else if HasValue(displayName) || !SaysAnyName(o) then displayName
            else AnyNameOf(o)
  {
  }

  /** The last mDNS display name, else the first name of any kind. */
  function NameInClosedForm(history: seq<AssetObservation>): Option<string> {
    match LastThat(history, MdnsSaysName)
    case Some(o) => o.displayName
    case None =>
      match FirstThat(history, SaysAnyName)
      case Some(o) => AnyNameOf(o)
      case None => None
  }

  lemma {:induction false} DisplayNameInClosedForm(history: seq<AssetObservation>)
    requires forall o :: o in history ==> NamedByHostname(o)
    ensures NamesOf(history).0 == NameInClosedForm(history)
  {
    if history != [] {
      var before, last := history[..|history| - 1], history[|history| - 1];
      assert history == before + [last];
      DisplayNameInClosedForm(before);
      SaidAtAll(before, MdnsSaysName);
      SaidAtAll(before, SaysAnyName);
      var (displayName, hostname) := NamesOf(before);
      DhcpRuleIsIdle(displayName, hostname, last);
      if LastThat(before, MdnsSaysName).Some? {
        assert SaysAnyName(LastThat(before, MdnsSaysName).value);
      }
    }
  }
}
