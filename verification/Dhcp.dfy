/** DHCP messages: the option list (sections 2 and 3 of RFC 2132) and what is made of it. */
module Dhcp {
  import opened Options
  import opened Sequences
  import opened Bytes
  import opened Text
  import opened AssetObservations
  import opened Decimals
  import opened Addresses

  const FIXED_HEADER_LENGTH: nat := 236
  const MAGIC_COOKIE: seq<Byte> := [0x63, 0x82, 0x53, 0x63]

  datatype DhcpOption = DhcpOption(code: Byte, value: seq<Byte>)

  // ---------------------------------------------------------------- the option list

  /** What the loop reads from the remaining bytes, or None when it rejects the message. */
  function OptionsIn(bytes: seq<Byte>): Option<seq<DhcpOption>> {
    if bytes == [] || bytes[0] == 255 then Some([])
    else if bytes[0] == 0 then OptionsIn(bytes[1..])
    else if |bytes| < 2 || |bytes| - 2 < bytes[1] then None
    else
      var end: nat := 2 + bytes[1] as int;
      var rest := OptionsIn(bytes[end..]);
      if rest.None? then None else Some([DhcpOption(bytes[0], bytes[2..end])] + rest.value)
  }

  /** One element of an option list as it is sent. */
  datatype Item = Pad | Item(option: DhcpOption)

  predicate Sendable(i: Item) {
    i.Pad? || (i.option.code != 0 && i.option.code != 255 && |i.option.value| < 256)
  }

  function WriteItem(i: Item): seq<Byte>
    requires Sendable(i)
  {
    match i
    case Pad => [0]
    case Item(o) => [o.code, |o.value|] + o.value
  }

  function WriteItems(items: seq<Item>): seq<Byte>
    requires forall i :: 0 <= i < |items| ==> Sendable(items[i])
  {
    if items == [] then [] else WriteItem(items[0]) + WriteItems(items[1..])
  }

  function OptionsOf(items: seq<Item>): seq<DhcpOption> {
    if items == [] then []
    else (if items[0].Pad? then [] else [items[0].option]) + OptionsOf(items[1..])
  }

  /** An option list ends at the end option or at the end of the payload. */
  predicate Ends(tail: seq<Byte>) {
    tail == [] || tail[0] == 255
  }

  predicate Spells(bytes: seq<Byte>, items: seq<Item>, tail: seq<Byte>) {
    && (forall i :: 0 <= i < |items| ==> Sendable(items[i]))
    && bytes == WriteItems(items) + tail
    && Ends(tail)
  }

  lemma FirstItem(i: Item, more: seq<Byte>)
    requires Sendable(i)
    ensures OptionsIn(WriteItem(i) + more) ==
            if i.Pad? then OptionsIn(more)
            else if OptionsIn(more).None? then None else Some([i.option] + OptionsIn(more).value)
  {
    var bytes := WriteItem(i) + more;
    assert bytes[|WriteItem(i)|..] == more;
    if i.Item? {
      assert bytes[2..2 + |i.option.value|] == i.option.value;
    }
  }

  lemma {:induction false} SpelledListIsRead(bytes: seq<Byte>, items: seq<Item>, tail: seq<Byte>)
    requires Spells(bytes, items, tail)
    ensures OptionsIn(bytes) == Some(OptionsOf(items))
    decreases |items|
  {
    if items == [] {
      assert bytes == tail;
    } else {
      var more := WriteItems(items[1..]) + tail;
      SpelledListIsRead(more, items[1..], tail);
      Associative(WriteItem(items[0]), WriteItems(items[1..]), tail);
      FirstItem(items[0], more);
      assert bytes == WriteItem(items[0]) + more;
      assert [] + OptionsOf(items[1..]) == OptionsOf(items[1..]);
    }
  }

  lemma {:induction false} ReadListIsSpelled(bytes: seq<Byte>) returns (items: seq<Item>, tail: seq<Byte>)
    requires OptionsIn(bytes).Some?
    ensures Spells(bytes, items, tail)
  {
    if bytes == [] || bytes[0] == 255 {
      items, tail := [], bytes;
      assert [] + tail == tail;
    } else {
      var length: nat := if bytes[0] == 0 then 1 else 2 + bytes[1] as int;
      var first := if bytes[0] == 0 then Pad else Item(DhcpOption(bytes[0], bytes[2..length]));
      var more;
      more, tail := ReadListIsSpelled(bytes[length..]);
      items := [first] + more;
      assert items[1..] == more;
      assert bytes == WriteItem(first) + bytes[length..];
      Associative(WriteItem(first), WriteItems(more), tail);
    }
  }

  /** The loop accepts exactly the byte strings that some list of pads and options spells, up
      to an end option or the end of the payload, and sees exactly those options; every
      overrun is rejected. */
  lemma OptionListIsExact(bytes: seq<Byte>, options: seq<DhcpOption>)
    ensures OptionsIn(bytes) == Some(options) <==>
              exists items, tail :: Spells(bytes, items, tail) && OptionsOf(items) == options
  {
    forall items, tail | Spells(bytes, items, tail) ensures OptionsIn(bytes) == Some(OptionsOf(items)) {
      SpelledListIsRead(bytes, items, tail);
    }
    if OptionsIn(bytes) == Some(options) {
      var items, tail := ReadListIsSpelled(bytes);
    }
  }

  // ---------------------------------------------------------------- operating system hints

  function FormatDecimalList(bytes: seq<Byte>): string {
    Join(seq(|bytes|, i requires 0 <= i < |bytes| => PrintNat(bytes[i])), ',')
  }

  function OsHintFromParameterRequestList(options: string): Option<string> {
    if Contains(options, "1,3,6,15,31,33,43,44,46,47,119,121,249,252") then Some("windows")
    else if Contains(options, "1,121,33,3,6,15,26,28,51,58,59,119") then Some("linux")
    else if Contains(options, "1,3,6,15,119,252") then Some("macos")
    else if Contains(options, "1,3,6,15,26,28,51,58,59") then Some("android")
    else None
  }

  function OsHintFromVendorClass(value: string): Option<string> {
    var lower := Lower(value);
    if Contains(lower, "msft") || Contains(lower, "microsoft") then Some("windows")
    else if Contains(lower, "android") then Some("android")
    else if Contains(lower, "apple") || Contains(lower, "darwin") then Some("macos/ios")
    else if Contains(lower, "udhcp") || Contains(lower, "busybox") then Some("embedded-linux")
    else None
  }

  // ---------------------------------------------------------------- what the options say

  function MessageTypeName(messageType: Byte): string {
    match messageType
    case 1 => "discover"
    case 2 => "offer"
    case 3 => "request"
    case 4 => "decline"
    case 5 => "ack"
    case 6 => "nak"
    case 7 => "release"
    case 8 => "inform"
    case _ => "unknown"
  }

  const VENDOR_CLASS_KEY := "dhcp.vendor_class_identifier"

  /** The metadata that one option adds. */
  function EntriesFor(o: DhcpOption): seq<MetadataEntry> {
    var length := |o.value|;
    if o.code == 12 then [MetadataEntry("dhcp.option.hostname", AsText(o.value))]
    else if o.code == 50 && length == 4 then [MetadataEntry("dhcp.requested_ip", FormatIpv4Address(o.value, 0))]
    else if o.code == 53 && length == 1 then
      [MetadataEntry("dhcp.message_type", PrintNat(o.value[0])),
       MetadataEntry("dhcp.message_type_name", MessageTypeName(o.value[0]))]
    else if o.code == 54 && length == 4 then [MetadataEntry("dhcp.server_identifier", FormatIpv4Address(o.value, 0))]
    else if o.code == 51 && length == 4 then
      [MetadataEntry("dhcp.lease_time_seconds", PrintNat(UInt32At(o.value, 0)))]
    else if o.code == 58 && length == 4 then
      [MetadataEntry("dhcp.renewal_time_seconds", PrintNat(UInt32At(o.value, 0)))]
    else if o.code == 59 && length == 4 then
      [MetadataEntry("dhcp.rebinding_time_seconds", PrintNat(UInt32At(o.value, 0)))]
    else if o.code == 60 then [MetadataEntry(VENDOR_CLASS_KEY, AsText(o.value))]
    else if o.code == 61 then [MetadataEntry("dhcp.client_identifier", FormatHexBytes(o.value))]
    else if o.code == 55 then [MetadataEntry("dhcp.parameter_request_list", FormatDecimalList(o.value))]
    else []
  }

  /** The parts of the observation that options can change. */
  datatype Lease = Lease(
    ipAddress: Option<string>, hostname: Option<string>, displayName: Option<string>, osHint: Option<string>,
    optionsSeen: set<Byte>, entries: seq<MetadataEntry>)

  /** The readings of option values, so that a lease does not depend on how they are done. */
  datatype Readings = Readings(
    vendorClass: seq<Byte> -> Option<string>, requestList: seq<Byte> -> Option<string>,
    entries: DhcpOption -> seq<MetadataEntry>)

  /** The readings of the source. */
  function SourceReadings(): Readings {
    Readings(bytes => OsHintFromVendorClass(AsText(bytes)),
             bytes => OsHintFromParameterRequestList(FormatDecimalList(bytes)),
             EntriesFor)
  }

  function AfterOption(r: Readings, l: Lease, o: DhcpOption): Lease {
    var seen := l.(optionsSeen := l.optionsSeen + {o.code}, entries := l.entries + r.entries(o));
    if o.code == 12 then seen.(hostname := Some(AsText(o.value)), displayName := Some(AsText(o.value)))
    else if o.code == 50 && |o.value| == 4 && l.ipAddress.None? then
      seen.(ipAddress := Some(FormatIpv4Address(o.value, 0)))
    else if o.code == 60 then
      var hint := r.vendorClass(o.value);
      if hint.Some? then seen.(osHint := hint) else seen
    else if o.code == 55 then
      var hint := r.requestList(o.value);
      if hint.Some? && l.osHint.None? then seen.(osHint := hint) else seen
    else seen
  }

  type LeaseStep = (Lease, DhcpOption) -> Lease

  function StepWith(r: Readings): LeaseStep {
    (l, o) => AfterOption(r, l, o)
  }

  function AfterOptions(step: LeaseStep, l: Lease, options: seq<DhcpOption>): Lease {
    if options == [] then l
    else step(AfterOptions(step, l, options[..|options| - 1]), options[|options| - 1])
  }

  /** yiaddr, else ciaddr, else nothing yet. */
  function AddressFromHeader(payload: seq<Byte>): Option<string>
    requires |payload| >= FIXED_HEADER_LENGTH
  {
    if FormatIpv4Address(payload, 16) != "0.0.0.0" then Some(FormatIpv4Address(payload, 16))
    else if FormatIpv4Address(payload, 12) != "0.0.0.0" then Some(FormatIpv4Address(payload, 12))
    else None
  }

  datatype DhcpMessage = DhcpMessage(macAddress: string, lease: Lease)

  function MessageIn(payload: seq<Byte>, r: Readings): Option<DhcpMessage> {
    if |payload| < FIXED_HEADER_LENGTH + 4 || payload[FIXED_HEADER_LENGTH..FIXED_HEADER_LENGTH + 4] != MAGIC_COOKIE
    then None
    else
      var options := OptionsIn(payload[FIXED_HEADER_LENGTH + 4..]);
      var mac := FormatMacAddress(payload, 28);
      if options.None? || mac == "00:00:00:00:00:00" then None
      else
        var fromHeader := Lease(AddressFromHeader(payload), None, None, None, {}, []);
        Some(DhcpMessage(mac, AfterOptions(StepWith(r), fromHeader, options.value)))
  }

  /** The codes in ascending order, as `std::set<int>` holds them. */
  function Ascending(codes: set<Byte>, from: nat): seq<Byte>
    decreases 256 - from
  {
    if from >= 256 then [] else (if from in codes then [from] else []) + Ascending(codes, from + 1)
  }

  /** The ports of the datagram. */
  datatype Ports = Ports(source: nat, destination: nat)

  function HeaderEntries(payload: seq<Byte>, ports: Ports): seq<MetadataEntry>
    requires |payload| >= FIXED_HEADER_LENGTH
  {
    [MetadataEntry("udp.source_port", PrintNat(ports.source)),
     MetadataEntry("udp.destination_port", PrintNat(ports.destination)),
     MetadataEntry("dhcp.ciaddr", FormatIpv4Address(payload, 12)),
     MetadataEntry("dhcp.yiaddr", FormatIpv4Address(payload, 16))]
  }

  function SeenEntries(codes: set<Byte>): seq<MetadataEntry> {
    if codes == {} then [] else [MetadataEntry("dhcp.options_seen", FormatDecimalList(Ascending(codes, 0)))]
  }

  function AllEntries(payload: seq<Byte>, ports: Ports, lease: Lease): seq<MetadataEntry>
    requires |payload| >= FIXED_HEADER_LENGTH
  {
    HeaderEntries(payload, ports) + lease.entries + SeenEntries(lease.optionsSeen)
  }

  function AsObservation(m: DhcpMessage, g: Gathered, t: Timestamp): AssetObservation {
    AssetObservation(
      m.macAddress, m.lease.ipAddress, m.lease.hostname, m.lease.displayName, None, m.lease.osHint, None, None,
      SOURCE_DHCP, g.metadata, StructuredMetadata(g.observed, map[], []), t)
  }

  /** The observation that the plugin makes of a datagram. */
  function ObservationIn(payload: seq<Byte>, ports: Ports, t: Timestamp, r: Readings): Option<AssetObservation> {
    var m := MessageIn(payload, r);
    if m.None? then None
    else Some(AsObservation(m.value, AddAllObserved(AllEntries(payload, ports, m.value.lease), SOURCE_DHCP, t), t))
  }

  datatype Scan = EndOption | PadOption | Overrun | Found(option: DhcpOption)

  /** What the scan of one element says about the whole list. */
  ghost predicate Explains(scan: Scan, here: Option<seq<DhcpOption>>, rest: Option<seq<DhcpOption>>) {
    match scan
    case EndOption => here == Some([])
    case PadOption => here == rest
    case Overrun => here.None?
    case Found(o) => here == if rest.None? then None else Some([o] + rest.value)
  }

  /** The first half of the loop body: one code byte, its length and its value. */
  method ScanOption(payload: seq<Byte>, start: nat) returns (scan: Scan, offset: nat)
    requires start < |payload|
    ensures start < offset <= |payload|
    ensures Explains(scan, OptionsIn(payload[start..]), OptionsIn(payload[offset..]))
  {
    ghost var bytes := payload[start..];
    offset := start;
    var option := payload[offset];
    offset := offset + 1;
    assert bytes[1..] == payload[offset..];
    if option == 255 {
      return EndOption, offset;
    }
    if option == 0 {
      return PadOption, offset;
    }
    if offset >= |payload| {
      return Overrun, offset;
    }
    var length: nat := payload[offset];
    offset := offset + 1;
    if |payload| - offset < length {
      return Overrun, offset;
    }
    var value := payload[offset..offset + length];
    assert bytes[2..2 + length] == value && bytes[2 + length..] == payload[offset + length..];
    scan, offset := Found(DhcpOption(option, value)), offset + length;
  }

  /** The loop of the source over the options. */
  method ReadOptions(payload: seq<Byte>, step: LeaseStep, start: Lease) returns (lease: Option<Lease>)
    requires |payload| >= FIXED_HEADER_LENGTH + 4
    ensures var options := OptionsIn(payload[FIXED_HEADER_LENGTH + 4..]);
            lease == if options.None? then None else Some(AfterOptions(step, start, options.value))
  {
    var offset := FIXED_HEADER_LENGTH + 4;
    ghost var all, read: seq<DhcpOption> := OptionsIn(payload[offset..]), [];
    var l := start;
    assert all.Some? ==> [] + all.value == all.value;
    while offset < |payload|
      invariant offset <= |payload|
      invariant l == AfterOptions(step, start, read)
      invariant var rest := OptionsIn(payload[offset..]);
                all == if rest.None? then None else Some(read + rest.value)
    {
      var scan;
      scan, offset := ScanOption(payload, offset);
      if scan.Overrun? {
        return None;
      } else if scan.EndOption? {
        break;
      } else if scan.Found? {
        OneMoreOption(step, start, read, scan.option, OptionsIn(payload[offset..]));
        read := read + [scan.option];
        l := step(l, scan.option);
      }
    }
    assert read + [] == read;
    lease := Some(l);
  }

  lemma OneMoreOption(
    step: LeaseStep, l: Lease, read: seq<DhcpOption>, o: DhcpOption, rest: Option<seq<DhcpOption>>)
    ensures AfterOptions(step, l, read + [o]) == step(AfterOptions(step, l, read), o)
    ensures rest.Some? ==> read + ([o] + rest.value) == (read + [o]) + rest.value
  {
    assert (read + [o])[..|read|] == read;
    if rest.Some? {
      Associative(read, [o], rest.value);
    }
  }

  method ReadMessage(payload: seq<Byte>, r: Readings) returns (message: Option<DhcpMessage>)
    ensures message == MessageIn(payload, r)
  {
    if |payload| < FIXED_HEADER_LENGTH + 4 {
      return None;
    }
    if payload[FIXED_HEADER_LENGTH..FIXED_HEADER_LENGTH + 4] != MAGIC_COOKIE {
      return None;
    }
    var mac := FormatMacAddress(payload, 28);
    var yiaddr, ciaddr := FormatIpv4Address(payload, 16), FormatIpv4Address(payload, 12);
    var ipAddress: Option<string> := None;
    if yiaddr != "0.0.0.0" {
      ipAddress := Some(yiaddr);
    } else if ciaddr != "0.0.0.0" {
      ipAddress := Some(ciaddr);
    }
    var lease := ReadOptions(payload, StepWith(r), Lease(ipAddress, None, None, None, {}, []));
    if lease.None? {
      return None;
    }
    if mac == "00:00:00:00:00:00" {
      return None;
    }
    message := Some(DhcpMessage(mac, lease.value));
  }

  method ParseDhcpPayload(payload: seq<Byte>, ports: Ports, t: Timestamp, r: Readings)
    returns (observation: Option<AssetObservation>)
    ensures observation == ObservationIn(payload, ports, t, r)
  {
    var m := ReadMessage(payload, r);
    if m.None? {
      return None;
    }
    var g := GatherObserved(AllEntries(payload, ports, m.value.lease), SOURCE_DHCP, t);
    observation := Some(AsObservation(m.value, g, t));
  }

  // ---------------------------------------------------------------- closed form

  /** The last recognised vendor class. */
  function LastVendorClass(r: Readings, options: seq<DhcpOption>): Option<string> {
    if options == [] then None
    else
      var o := options[|options| - 1];
      if o.code == 60 && r.vendorClass(o.value).Some? then r.vendorClass(o.value)
      else LastVendorClass(r, options[..|options| - 1])
  }

  /** The first recognised parameter request list. */
  function FirstRequestList(r: Readings, options: seq<DhcpOption>): Option<string> {
    if options == [] then None
    else if options[0].code == 55 && r.requestList(options[0].value).Some? then r.requestList(options[0].value)
    else FirstRequestList(r, options[1..])
  }

  function FirstRequestedAddress(options: seq<DhcpOption>): Option<string> {
    if options == [] then None
    else if options[0].code == 50 && |options[0].value| == 4 then Some(FormatIpv4Address(options[0].value, 0))
    else FirstRequestedAddress(options[1..])
  }

  function LastHostname(options: seq<DhcpOption>): Option<string> {
    if options == [] then None
    else if options[|options| - 1].code == 12 then Some(AsText(options[|options| - 1].value))
    else LastHostname(options[..|options| - 1])
  }

  lemma {:induction false} FirstOfOneMore(r: Readings, options: seq<DhcpOption>, o: DhcpOption)
    ensures FirstRequestList(r, options + [o]) ==
            if FirstRequestList(r, options).Some? then FirstRequestList(r, options)
            else if o.code == 55 then r.requestList(o.value) else None
    ensures FirstRequestedAddress(options + [o]) ==
            if FirstRequestedAddress(options).Some? then FirstRequestedAddress(options)
            else if o.code == 50 && |o.value| == 4 then Some(FormatIpv4Address(o.value, 0)) else None
  {
    if options == [] {
      assert [o][1..] == [];
    } else {
      assert (options + [o])[1..] == options[1..] + [o];
      FirstOfOneMore(r, options[1..], o);
    }
  }

  /** A recognised vendor class beats every parameter request list, in whatever order they
      come, the last one among several; else the first recognised request list counts. */
  lemma {:induction false} OsHintInClosedForm(r: Readings, start: Lease, options: seq<DhcpOption>)
    requires start.osHint.None?
    ensures AfterOptions(StepWith(r), start, options).osHint ==
            if LastVendorClass(r, options).Some? then LastVendorClass(r, options) else FirstRequestList(r, options)
  {
    if options != [] {
      var before, last := options[..|options| - 1], options[|options| - 1];
      OsHintInClosedForm(r, start, before);
      assert options == before + [last];
      FirstOfOneMore(r, before, last);
    }
  }

  /** The address is the header's, else the first 4-byte requested address. */
  lemma {:induction false} AddressInClosedForm(r: Readings, start: Lease, options: seq<DhcpOption>)
    ensures AfterOptions(StepWith(r), start, options).ipAddress ==
            if start.ipAddress.Some? then start.ipAddress else FirstRequestedAddress(options)
  {
    if options != [] {
      var before, last := options[..|options| - 1], options[|options| - 1];
      AddressInClosedForm(r, start, before);
      assert options == before + [last];
      FirstOfOneMore(r, before, last);
    }
  }

  function CodesOf(options: seq<DhcpOption>): set<Byte> {
    set o | o in options :: o.code
  }

  lemma CodesOfOneMore(options: seq<DhcpOption>, before: seq<DhcpOption>, last: DhcpOption)
    requires options != [] && before == options[..|options| - 1] && last == options[|options| - 1]
    ensures CodesOf(options) == CodesOf(before) + {last.code}
  {
    assert options == before + [last];
  }

  /** Hostname and display name are both the last option 12; all codes are remembered. */
  lemma {:induction false} NamesInClosedForm(r: Readings, start: Lease, options: seq<DhcpOption>)
    requires start.hostname.None? && start.displayName.None? && start.optionsSeen == {}
    ensures var lease := AfterOptions(StepWith(r), start, options);
            && lease.hostname == lease.displayName == LastHostname(options)
            && lease.optionsSeen == CodesOf(options)
  {
    if options != [] {
      var before, last := options[..|options| - 1], options[|options| - 1];
      NamesInClosedForm(r, start, before);
      CodesOfOneMore(options, before, last);
    }
  }

  /** The metadata of all options, in their order. */
  function EntriesOf(r: Readings, options: seq<DhcpOption>): seq<MetadataEntry> {
    if options == [] then [] else EntriesOf(r, options[..|options| - 1]) + r.entries(options[|options| - 1])
  }

  lemma {:induction false} EntriesInClosedForm(r: Readings, start: Lease, options: seq<DhcpOption>)
    requires start.entries == []
    ensures AfterOptions(StepWith(r), start, options).entries == EntriesOf(r, options)
  {
    if options != [] {
      EntriesInClosedForm(r, start, options[..|options| - 1]);
    }
  }

  lemma {:induction false} EntriesComeFromOptions(r: Readings, options: seq<DhcpOption>, e: MetadataEntry)
    ensures e in EntriesOf(r, options) <==> exists o :: o in options && e in r.entries(o)
  {
    if options != [] {
      var before, last := options[..|options| - 1], options[|options| - 1];
      EntriesComeFromOptions(r, before, e);
      assert forall o :: o in options <==> o in before || o == last;
    }
  }

  ghost predicate IsAscending(s: seq<Byte>) {
    forall i, j :: 0 <= i < j < |s| ==> s[i] < s[j]
  }

  /** Each code once, the smaller before the greater. */
  lemma AscendingIsExact(codes: set<Byte>, from: nat)
    requires from <= 256
    ensures forall c :: c in Ascending(codes, from) <==> c in codes && c >= from
    ensures IsAscending(Ascending(codes, from))
  {
    forall c: Byte ensures c in Ascending(codes, from) <==> c in codes && c >= from {
      AscendingMember(codes, from, c);
    }
    AscendingOrder(codes, from);
  }

  lemma {:induction false} AscendingMember(codes: set<Byte>, from: nat, c: Byte)
    requires from <= 256
    ensures c in Ascending(codes, from) <==> c in codes && c >= from
    decreases 256 - from
  {
    if from < 256 {
      AscendingMember(codes, from + 1, c);
    }
  }

  lemma {:induction false} AscendingOrder(codes: set<Byte>, from: nat)
    requires from <= 256
    ensures IsAscending(Ascending(codes, from))
    decreases 256 - from
  {
    if from < 256 {
      AscendingOrder(codes, from + 1);
      var more := Ascending(codes, from + 1);
      if from in codes {
        forall c | c in more ensures from < c {
          AscendingMember(codes, from + 1, c);
        }
        AscendingCons(from, more);
      } else {
        assert Ascending(codes, from) == [] + more == more;
      }
    }
  }

  lemma AscendingCons(first: Byte, more: seq<Byte>)
    requires IsAscending(more) && forall c :: c in more ==> first < c
    ensures IsAscending([first] + more)
  {
    forall i | 0 <= i < |more| ensures first < more[i] {
      assert more[i] in more;
    }
  }

  lemma ZeroAddressText(payload: seq<Byte>, offset: nat)
    requires offset + 4 <= |payload|
    ensures FormatIpv4Address(payload, offset) == "0.0.0.0" <==> payload[offset..offset + 4] == [0, 0, 0, 0]
  {
    var zero: seq<Byte> := [0, 0, 0, 0];
    assert PrintNat(0) == "0";
    assert FormatIpv4Address(zero, 0) == "0.0.0.0";
    assert zero[0..4] == zero;
    FourBytes(payload, offset);
    if FormatIpv4Address(payload, offset) == "0.0.0.0" {
      Ipv4TextIsInjective(payload, offset, zero, 0);
    }
  }

  lemma ZeroMacText(payload: seq<Byte>, offset: nat)
    requires offset + 6 <= |payload|
    ensures FormatMacAddress(payload, offset) == "00:00:00:00:00:00" <==>
              payload[offset..offset + 6] == [0, 0, 0, 0, 0, 0]
  {
    var zero: seq<Byte> := [0, 0, 0, 0, 0, 0];
    assert zero[0..6] == zero;
    assert FormatMacAddress(zero, 0) == "00:00:00:00:00:00";
    if FormatMacAddress(payload, offset) == "00:00:00:00:00:00" {
      MacTextIsInjective(payload, offset, zero, 0);
    }
  }

  /** The whole message: accepted exactly when cookie, option list and client address are
      good; the address is yiaddr, else ciaddr, else the first requested address, where an
      all-zero header field counts as absent. */
  lemma MessageInClosedForm(payload: seq<Byte>, r: Readings)
    ensures MessageIn(payload, r).Some? <==>
              && |payload| >= 240
              && payload[236..240] == [0x63, 0x82, 0x53, 0x63]
              && OptionsIn(payload[240..]).Some?
              && payload[28..34] != [0, 0, 0, 0, 0, 0]
    ensures MessageIn(payload, r).Some? ==>
              var lease := MessageIn(payload, r).value.lease;
              var options := OptionsIn(payload[240..]).value;
              && MessageIn(payload, r).value.macAddress == FormatMacAddress(payload, 28)
              && lease.ipAddress ==
                 (if payload[16..20] != [0, 0, 0, 0] then Some(FormatIpv4Address(payload, 16))
                  else if payload[12..16] != [0, 0, 0, 0] then Some(FormatIpv4Address(payload, 12))
                  else FirstRequestedAddress(options))
              && lease.osHint ==
                 (if LastVendorClass(r, options).Some? then LastVendorClass(r, options)
                  else FirstRequestList(r, options))
              && lease.hostname == lease.displayName == LastHostname(options)
              && lease.optionsSeen == CodesOf(options)
              && lease.entries == EntriesOf(r, options)
  {
    if |payload| >= FIXED_HEADER_LENGTH + 4 {
      ZeroMacText(payload, 28);
      ZeroAddressText(payload, 16);
      ZeroAddressText(payload, 12);
      if OptionsIn(payload[FIXED_HEADER_LENGTH + 4..]).Some? {
        var options := OptionsIn(payload[FIXED_HEADER_LENGTH + 4..]).value;
        var start := Lease(AddressFromHeader(payload), None, None, None, {}, []);
        OsHintInClosedForm(r, start, options);
        AddressInClosedForm(r, start, options);
        NamesInClosedForm(r, start, options);
        EntriesInClosedForm(r, start, options);
      }
    }
  }
}
