/** What the DHCP plugin's observations mean to the inventory. */
module DhcpRanking {
  import opened Options
  import opened Bytes
  import opened AssetObservations
  import opened AssetStores
  import opened AssetHistories
  import opened AssetRankings
  import opened Dhcp

  ghost predicate MadeFrom(o: AssetObservation, payload: seq<Byte>, ports: Ports, t: Timestamp) {
    ObservationIn(payload, ports, t, SourceReadings()) == Some(o)
  }

  /** The DHCP plugin makes this observation of some datagram. */
  ghost predicate FromPlugin(o: AssetObservation) {
    exists payload, ports, t :: MadeFrom(o, payload, ports, t)
  }

  predicate Precise(hint: Option<string>) {
    hint.Some? ==> hint.value != "" && !Vague(hint)
  }

  lemma VagueNames()
    ensures |"linux/unix"| == 10 && "linux/unix"[5] == '/' && |"network-device"| == 14 && "network-device"[0] == 'n'
  {
  }

  lemma VendorClassIsPrecise(value: string)
    ensures Precise(OsHintFromVendorClass(value))
  {
    VagueNames();
    assert |"windows"| == 7 && |"android"| == 7 && |"macos/ios"| == 9;
    assert |"embedded-linux"| == 14 && "embedded-linux"[0] == 'e';
  }

  lemma RequestListIsPrecise(options: string)
    ensures Precise(OsHintFromParameterRequestList(options))
  {
    VagueNames();
    assert |"windows"| == 7 && |"linux"| == 5 && |"macos"| == 5 && |"android"| == 7;
  }

  ghost predicate ReadsPrecisely(r: Readings) {
    forall bytes :: Precise(r.vendorClass(bytes)) && Precise(r.requestList(bytes))
  }

  lemma SourceReadsPrecisely()
    ensures ReadsPrecisely(SourceReadings())
  {
    forall bytes
      ensures Precise(SourceReadings().vendorClass(bytes)) && Precise(SourceReadings().requestList(bytes))
    {
      VendorClassIsPrecise(AsText(bytes));
      RequestListIsPrecise(FormatDecimalList(bytes));
    }
  }

  lemma {:induction false} HintsArePrecise(r: Readings, options: seq<DhcpOption>)
    requires ReadsPrecisely(r)
    ensures Precise(LastVendorClass(r, options)) && Precise(FirstRequestList(r, options))
    decreases |options|
  {
    if options != [] {
      HintsArePrecise(r, options[..|options| - 1]);
      HintsArePrecise(r, options[1..]);
    }
  }

  lemma MessageMeetsTheProvisos(payload: seq<Byte>, r: Readings)
    requires ReadsPrecisely(r) && MessageIn(payload, r).Some?
    ensures var lease := MessageIn(payload, r).value.lease;
            Precise(lease.osHint) && lease.displayName == lease.hostname
  {
    MessageInClosedForm(payload, r);
    HintsArePrecise(r, OptionsIn(payload[FIXED_HEADER_LENGTH + 4..]).value);
  }

  /** The plugin never says one of the two vague values, whatever the options hold, and its
      display name is its hostname. */
  lemma PluginMeetsTheProvisos(o: AssetObservation)
    requires FromPlugin(o)
    ensures NamedByHostname(o) && (DhcpSaysOs(o) ==> !Vague(o.osHint))
  {
    var payload, ports, t :| MadeFrom(o, payload, ports, t);
    SourceReadsPrecisely();
    MessageMeetsTheProvisos(payload, SourceReadings());
  }

  /** In every run whose DHCP observations come from the DHCP plugin, the OS hint of an asset
      is the latest DHCP hint once there is one, and its display name the latest mDNS name
      once there is one, else the first name that any source gave. */
  lemma RankingOverRuns(mac: string, history: seq<AssetObservation>, apply: Update, registry: OuiRegistry)
    requires history != [] && Ranks(apply, registry)
    requires forall o :: o in history && o.sourceId == SOURCE_DHCP ==> FromPlugin(o)
    ensures var dhcp := LastThat(history, DhcpSaysOs);
            dhcp.Some? ==> AssetFrom(mac, history, apply).osHint == dhcp.value.osHint
    ensures AssetFrom(mac, history, apply).displayName == NameInClosedForm(history)
  {
    forall o | o in history ensures NamedByHostname(o) && (DhcpSaysOs(o) ==> !Vague(o.osHint)) {
      if o.sourceId == SOURCE_DHCP {
        PluginMeetsTheProvisos(o);
      }
    }
    DhcpOsHintWins(history);
    DisplayNameInClosedForm(history);
    OsHintIsFolded(mac, history, apply, registry);
    NamesAreFolded(mac, history, apply, registry);
  }
}
