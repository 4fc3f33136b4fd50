/** The observation that a DHCP message makes, read off its bytes and its options. */
module DhcpObservations {
  import opened Options
  import opened Bytes
  import opened Text
  import opened Decimals
  import opened Addresses
  import opened AssetObservations
  import opened Dhcp
  import opened DhcpRanking

  // ---------------------------------------------------------------- lists as text

  /** Between the commas stand the numbers, in order. */
  lemma DecimalListIsRead(bytes: seq<Byte>)
    requires bytes != []
    ensures Pieces(FormatDecimalList(bytes), ',') == seq(|bytes|, i requires 0 <= i < |bytes| => PrintNat(bytes[i]))
  {
    var parts := seq(|bytes|, i requires 0 <= i < |bytes| => PrintNat(bytes[i]));
    forall i | 0 <= i < |parts| ensures parts[i] != "" && ',' !in parts[i] {
      NoCommas(bytes[i]);
    }
    JoinedPieces(parts, ',');
  }

  lemma NoCommas(n: nat)
    ensures PrintNat(n) != "" && ',' !in PrintNat(n)
  {
  }

  /** Between the colons stand the bytes, two hexadecimal digits each. */
  lemma HexBytesAreRead(bytes: seq<Byte>)
    requires bytes != []
    ensures Pieces(FormatHexBytes(bytes), ':') == seq(|bytes|, i requires 0 <= i < |bytes| => Pair(bytes[i]))
  {
    JoinedPieces(seq(|bytes|, i requires 0 <= i < |bytes| => Pair(bytes[i])), ':');
  }

  // ---------------------------------------------------------------- what a message tells

  /** The names of message types 1 to 8 (section 9.6 of RFC 2132). */
  const MESSAGE_TYPES := ["discover", "offer", "request", "decline", "ack", "nak", "release", "inform"]

  predicate OfFour(o: DhcpOption, code: Byte) {
    o.code == code && |o.value| == 4
  }

  /** What one option tells, by the codes of RFC 2132. */
  ghost predicate OptionTells(o: DhcpOption, key: string, v: string) {
    || (o.code == 12 && key == "dhcp.option.hostname" && v == AsText(o.value))
    || (o.code == 60 && key == "dhcp.vendor_class_identifier" && v == AsText(o.value))
    || (o.code == 61 && key == "dhcp.client_identifier" && v == FormatHexBytes(o.value))
    || (o.code == 55 && key == "dhcp.parameter_request_list" && v == FormatDecimalList(o.value))
    || (OfFour(o, 50) && key == "dhcp.requested_ip" && v == FormatIpv4Address(o.value, 0))
    || (OfFour(o, 54) && key == "dhcp.server_identifier" && v == FormatIpv4Address(o.value, 0))
    || (OfFour(o, 51) && key == "dhcp.lease_time_seconds" && v == PrintNat(UInt32At(o.value, 0)))
    || (OfFour(o, 58) && key == "dhcp.renewal_time_seconds" && v == PrintNat(UInt32At(o.value, 0)))
    || (OfFour(o, 59) && key == "dhcp.rebinding_time_seconds" && v == PrintNat(UInt32At(o.value, 0)))
    || (o.code == 53 && |o.value| == 1
        && ((key == "dhcp.message_type" && v == PrintNat(o.value[0]))
            || (key == "dhcp.message_type_name"
                && v == if 1 <= o.value[0] <= 8 then MESSAGE_TYPES[o.value[0] - 1] else "unknown")))
  }

  /** What the message tells: its ports, its two address fields, its options, and which codes
      these have, each once and in ascending order. */
  ghost predicate MessageTells(payload: seq<Byte>, ports: Ports, options: seq<DhcpOption>, key: string, v: string)
    requires |payload| >= 236
  {
    || (key == "udp.source_port" && v == PrintNat(ports.source))
    || (key == "udp.destination_port" && v == PrintNat(ports.destination))
    || (key == "dhcp.ciaddr" && v == FormatIpv4Address(payload, 12))
    || (key == "dhcp.yiaddr" && v == FormatIpv4Address(payload, 16))
    || (exists o :: o in options && OptionTells(o, key, v))
    || (options != [] && key == "dhcp.options_seen"
        && exists codes :: ListsCodes(codes, options) && v == FormatDecimalList(codes))
  }

  ghost predicate ListsCodes(codes: seq<Byte>, options: seq<DhcpOption>) {
    IsAscending(codes) && forall c :: c in codes <==> c in CodesOf(options)
  }

  lemma TypeNames(t: Byte)
    ensures MessageTypeName(t) == if 1 <= t <= 8 then MESSAGE_TYPES[t - 1] else "unknown"
  {
  }

  lemma OptionTellsItsEntries(o: DhcpOption, key: string, v: string)
    ensures MetadataEntry(key, v) in EntriesFor(o) <==> OptionTells(o, key, v)
  {
    if o.code == 53 {
      TypeTells(o, key, v);
    }
  }

  lemma TypeTells(o: DhcpOption, key: string, v: string)
    requires o.code == 53
    ensures MetadataEntry(key, v) in EntriesFor(o) <==> OptionTells(o, key, v)
  {
    if |o.value| == 1 {
      TypeNames(o.value[0]);
    }
  }

  lemma OptionsTell(options: seq<DhcpOption>, key: string, v: string)
    ensures MetadataEntry(key, v) in EntriesOf(SourceReadings(), options) <==>
              exists o :: o in options && OptionTells(o, key, v)
  {
    var e := MetadataEntry(key, v);
    EntriesComeFromOptions(SourceReadings(), options, e);
    forall o ensures e in EntriesFor(o) <==> OptionTells(o, key, v) {
      OptionTellsItsEntries(o, key, v);
    }
    assert forall o :: SourceReadings().entries(o) == EntriesFor(o);
  }

  lemma HeaderTells(payload: seq<Byte>, ports: Ports, key: string, v: string)
    requires |payload| >= 236
    ensures MetadataEntry(key, v) in HeaderEntries(payload, ports) <==>
              || (key == "udp.source_port" && v == PrintNat(ports.source))
              || (key == "udp.destination_port" && v == PrintNat(ports.destination))
              || (key == "dhcp.ciaddr" && v == FormatIpv4Address(payload, 12))
              || (key == "dhcp.yiaddr" && v == FormatIpv4Address(payload, 16))
  {
  }

  lemma {:induction false} AscendingIsUnique(a: seq<Byte>, b: seq<Byte>)
    requires IsAscending(a) && IsAscending(b) && forall c :: c in a <==> c in b
    ensures a == b
  {
    assert a != [] ==> a[0] in b;
    assert b != [] ==> b[0] in a;
    if a != [] {
      assert a[0] == b[0];
      forall c ensures c in a[1..] <==> c in b[1..] {
        assert c in a <==> c == a[0] || c in a[1..];
        assert c in b <==> c == b[0] || c in b[1..];
      }
      AscendingIsUnique(a[1..], b[1..]);
      assert a == [a[0]] + a[1..] && b == [b[0]] + b[1..];
    }
  }

  lemma SeenTells(options: seq<DhcpOption>, key: string, v: string)
    ensures MetadataEntry(key, v) in SeenEntries(CodesOf(options)) <==>
              options != [] && key == "dhcp.options_seen"
              && exists codes :: ListsCodes(codes, options) && v == FormatDecimalList(codes)
  {
    if options != [] {
      assert options[0].code in CodesOf(options);
    }
    SeenAreListed(options);
  }

  lemma SeenAreListed(options: seq<DhcpOption>)
    ensures forall codes :: ListsCodes(codes, options) <==> codes == Ascending(CodesOf(options), 0)
  {
    var seen := Ascending(CodesOf(options), 0);
    AscendingIsExact(CodesOf(options), 0);
    forall codes | ListsCodes(codes, options) ensures codes == seen {
      AscendingIsUnique(codes, seen);
    }
  }

  /** Of a DHCP message the inventory learns under each key exactly what the message tells, and
      it is not empty. */
  lemma MetadataIsTold(o: AssetObservation, payload: seq<Byte>, ports: Ports, t: Timestamp, key: string, v: string)
    requires MadeFrom(o, payload, ports, t) && key != ""
    ensures |payload| >= 240 && OptionsIn(payload[240..]).Some?
    ensures Contributes(o.structuredMetadata.observed, key, v) <==>
              v != "" && MessageTells(payload, ports, OptionsIn(payload[240..]).value, key, v)
  {
    var r := SourceReadings();
    MessageInClosedForm(payload, r);
    var lease, options := MessageIn(payload, r).value.lease, OptionsIn(payload[240..]).value;
    ObservedContributes(AllEntries(payload, ports, lease), SOURCE_DHCP, t, key, v);
    HeaderTells(payload, ports, key, v);
    OptionsTell(options, key, v);
    SeenTells(options, key, v);
    var e := MetadataEntry(key, v);
    assert e in AllEntries(payload, ports, lease) <==>
      e in HeaderEntries(payload, ports) || e in lease.entries || e in SeenEntries(lease.optionsSeen);
  }

  // ---------------------------------------------------------------- the whole observation

  /** Words to look for, the most telling first, and what they give away. */
  type Clues = seq<(string, string)>

  const VENDOR_CLUES: Clues :=
    [("msft", "windows"), ("microsoft", "windows"), ("android", "android"), ("apple", "macos/ios"),
     ("darwin", "macos/ios"), ("udhcp", "embedded-linux"), ("busybox", "embedded-linux")]

  const REQUEST_CLUES: Clues :=
    [("1,3,6,15,31,33,43,44,46,47,119,121,249,252", "windows"),
     ("1,121,33,3,6,15,26,28,51,58,59,119", "linux"),
     ("1,3,6,15,119,252", "macos"),
     ("1,3,6,15,26,28,51,58,59", "android")]

  /** The first clue that the text holds gives the hint; without any clue there is none. */
  ghost predicate FirstClue(clues: Clues, text: string, hint: Option<string>) {
    match hint
    case None => forall i :: 0 <= i < |clues| ==> !Contains(text, clues[i].0)
    case Some(h) => exists i: nat :: i < |clues| && h == clues[i].1 && IsFirstClue(clues, text, i)
  }

  ghost predicate IsFirstClue(clues: Clues, text: string, i: nat)
    requires i < |clues|
  {
    Contains(text, clues[i].0) && forall j :: 0 <= j < i ==> !Contains(text, clues[j].0)
  }

  lemma {:induction false} ClueFrom(clues: Clues, text: string, from: nat) returns (i: nat)
    requires from <= |clues| && forall j :: 0 <= j < from ==> !Contains(text, clues[j].0)
    ensures i <= |clues| && if i < |clues| then IsFirstClue(clues, text, i)
                            else forall j :: 0 <= j < |clues| ==> !Contains(text, clues[j].0)
    decreases |clues| - from
  {
    if from < |clues| && !Contains(text, clues[from].0) {
      i := ClueFrom(clues, text, from + 1);
    } else {
      i := from;
    }
  }

  lemma VendorClassIsClue(value: string)
    ensures FirstClue(VENDOR_CLUES, Lower(value), OsHintFromVendorClass(value))
  {
    var clues := VENDOR_CLUES;
    var i := ClueFrom(clues, Lower(value), 0);
    assert |clues[0].0| == 4 && |clues[1].0| == 9 && |clues[2].0| == 7 && |clues[3].0| == 5;
    assert |clues[4].0| == 6 && |clues[5].0| == 5 && |clues[6].0| == 7;
    assert OsHintFromVendorClass(value) == if i < 7 then Some(clues[i].1) else None;
  }

  lemma RequestListIsClue(options: string)
    ensures FirstClue(REQUEST_CLUES, options, OsHintFromParameterRequestList(options))
  {
    var clues := REQUEST_CLUES;
    var i := ClueFrom(clues, options, 0);
    assert |clues[0].0| == 42 && |clues[1].0| == 34 && |clues[2].0| == 16 && |clues[3].0| == 23;
    assert OsHintFromParameterRequestList(options) == if i < 4 then Some(clues[i].1) else None;
  }

  /** A vendor class is searched as folded text, a request list as decimal numbers. */
  lemma ReadingsAreClues(bytes: seq<Byte>)
    ensures FirstClue(VENDOR_CLUES, Lower(AsText(bytes)), SourceReadings().vendorClass(bytes))
    ensures FirstClue(REQUEST_CLUES, FormatDecimalList(bytes), SourceReadings().requestList(bytes))
  {
    VendorClassIsClue(AsText(bytes));
    RequestListIsClue(FormatDecimalList(bytes));
  }

  /** A datagram makes an observation exactly when it is long enough, has the magic cookie and a
      readable option list, and its client address is not all zero; and then every field of the
      observation is read off its bytes. */
  lemma ObservationInClosedForm(payload: seq<Byte>, ports: Ports, t: Timestamp)
    ensures var made := ObservationIn(payload, ports, t, SourceReadings());
            && (made.Some? <==>
                  && |payload| >= 240 && payload[236..240] == [0x63, 0x82, 0x53, 0x63]
                  && OptionsIn(payload[240..]).Some? && payload[28..34] != [0, 0, 0, 0, 0, 0])
            && (made.Some? ==> FieldsAre(made.value, payload, OptionsIn(payload[240..]).value, t))
  {
    MessageInClosedForm(payload, SourceReadings());
  }

  ghost predicate FieldsAre(o: AssetObservation, payload: seq<Byte>, options: seq<DhcpOption>, t: Timestamp)
    requires |payload| >= 240
  {
    var r := SourceReadings();
    && o.macAddress == FormatMacAddress(payload, 28) && o.sourceId == "dhcp" && o.timestamp == t
    && o.ipAddress ==
       (if payload[16..20] != [0, 0, 0, 0] then Some(FormatIpv4Address(payload, 16))
        else if payload[12..16] != [0, 0, 0, 0] then Some(FormatIpv4Address(payload, 12))
        else FirstRequestedAddress(options))
    && o.hostname == o.displayName == LastHostname(options)
    && o.osHint ==
       (if LastVendorClass(r, options).Some? then LastVendorClass(r, options) else FirstRequestList(r, options))
    && o.vendor == o.deviceType == o.modelHint == None
    && o.structuredMetadata.reference == map[] && o.structuredMetadata.derivedHints == []
  }
}
