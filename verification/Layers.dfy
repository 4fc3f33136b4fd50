/** Ethernet, IPv4 (section 3.1 of RFC 791), UDP (RFC 768) and TCP as nested byte views. */
module Layers {
  import opened Options
  import opened Sequences
  import opened Bytes
  import opened Addresses

  const ETHERNET_HEADER_LENGTH: nat := 14
  const ETHER_TYPE_IPV4: nat := 0x0800
  const PROTOCOL_TCP: nat := 6
  const PROTOCOL_UDP: nat := 17
  const UDP_HEADER_LENGTH: nat := 8
  const TCP_MINIMUM_HEADER_LENGTH: nat := 20

  /** A pointer into a buffer and a size. The empty view points nowhere. */
  datatype ByteView = ByteView(buffer: seq<Byte>, from: nat, size: nat)
  {
    predicate Valid() {
      from + size <= |buffer|
    }

    function Bytes(): (bytes: seq<Byte>)
      requires Valid()
      ensures |bytes| == size
    {
      buffer[from..from + size]
    }

    function Subview(offset: nat): ByteView {
      if offset >= size then NoBytes() else ByteView(buffer, from + offset, size - offset)
    }

    function Limited(offset: nat, length: nat): ByteView {
      if offset >= size then NoBytes()
      else ByteView(buffer, from + offset, if length < size - offset then length else size - offset)
    }
  }

  function NoBytes(): ByteView {
    ByteView([], 0, 0)
  }

  function ViewOf(bytes: seq<Byte>): ByteView {
    ByteView(bytes, 0, |bytes|)
  }

  datatype EthernetFrame = EthernetFrame(
    destinationMac: string, sourceMac: string, etherType: nat, payload: ByteView)

  datatype Ipv4Packet = Ipv4Packet(
    sourceIp: string, destinationIp: string, ttl: Byte, protocol: Byte, headerLength: nat, totalLength: nat,
    fragmented: bool, payload: ByteView)

  datatype UdpDatagram = UdpDatagram(sourcePort: nat, destinationPort: nat, length: nat, payload: ByteView)

  datatype TcpSegment = TcpSegment(
    sourcePort: nat, destinationPort: nat, headerLength: nat, syn: bool, ack: bool, rst: bool, fin: bool,
    payload: ByteView)

  function DecodeEthernetFrame(view: ByteView): Option<EthernetFrame>
    requires view.Valid()
  {
    var b := view.Bytes();
    if view.size < ETHERNET_HEADER_LENGTH then None
    else Some(EthernetFrame(FormatMacAddress(b, 0), FormatMacAddress(b, 6), UInt16At(b, 12),
                            view.Subview(ETHERNET_HEADER_LENGTH)))
  }

  function DecodeIpv4Packet(view: ByteView): Option<Ipv4Packet>
    requires view.Valid()
  {
    var b := view.Bytes();
    if view.size < 20 then None
    else
      var version, headerLength: nat := b[0] / 16, b[0] % 16 * 4;
      if version != 4 || headerLength < 20 || view.size < headerLength then None
      else
        var totalLength := UInt16At(b, 2);
        if totalLength < headerLength || view.size < totalLength then None
        else
          Some(Ipv4Packet(
            FormatIpv4Address(b, 12), FormatIpv4Address(b, 16), b[8], b[9], headerLength, totalLength,
            UInt16At(b, 6) % 0x4000 != 0,
            view.Limited(headerLength, totalLength - headerLength)))
  }

  function DecodeUdpDatagram(ip: Ipv4Packet): Option<UdpDatagram>
    requires ip.payload.Valid()
  {
    var b := ip.payload.Bytes();
    if ip.protocol != PROTOCOL_UDP || ip.fragmented || ip.payload.size < UDP_HEADER_LENGTH then None
    else
      var length := UInt16At(b, 4);
      if length < UDP_HEADER_LENGTH || length > ip.payload.size then None
      else
        Some(UdpDatagram(UInt16At(b, 0), UInt16At(b, 2), length,
                         ip.payload.Limited(UDP_HEADER_LENGTH, length - UDP_HEADER_LENGTH)))
  }

  function DecodeTcpSegment(ip: Ipv4Packet): Option<TcpSegment>
    requires ip.payload.Valid()
  {
    var b := ip.payload.Bytes();
    if ip.protocol != PROTOCOL_TCP || ip.fragmented || ip.payload.size < TCP_MINIMUM_HEADER_LENGTH then None
    else
      var headerLength: nat := b[12] / 16 * 4;
      if headerLength < TCP_MINIMUM_HEADER_LENGTH || ip.payload.size < headerLength then None
      else
        var flags := b[13];
        Some(TcpSegment(UInt16At(b, 0), UInt16At(b, 2), headerLength,
                        flags / 2 % 2 != 0, flags / 16 % 2 != 0, flags / 4 % 2 != 0, flags % 2 != 0,
                        ip.payload.Subview(headerLength)))
  }

  datatype PacketContext = PacketContext(
    rawBytes: ByteView, ethernet: Option<EthernetFrame>, ipv4: Option<Ipv4Packet>, udp: Option<UdpDatagram>,
    tcp: Option<TcpSegment>, transportPayload: ByteView)

  /** `inner` is empty or a part of `outer`, in the same buffer. */
  predicate Within(inner: ByteView, outer: ByteView) {
    inner.size == 0
    || (inner.buffer == outer.buffer && outer.from <= inner.from
        && inner.from + inner.size <= outer.from + outer.size)
  }

  /** Every view that a context exposes is valid and lies within the next outer one. */
  predicate Nested(c: PacketContext) {
    && c.rawBytes.Valid() && c.transportPayload.Valid()
    && (c.ethernet.Some? ==> c.ethernet.value.payload.Valid() && Within(c.ethernet.value.payload, c.rawBytes))
    && (c.ipv4.Some? ==>
          c.ethernet.Some? && c.ipv4.value.payload.Valid() && Within(c.ipv4.value.payload, c.ethernet.value.payload))
    && (c.udp.Some? ==>
          && c.ipv4.Some? && c.tcp.None? && c.udp.value.payload.Valid()
          && Within(c.udp.value.payload, c.ipv4.value.payload) && c.transportPayload == c.udp.value.payload)
    && (c.tcp.Some? ==>
          && c.ipv4.Some? && c.udp.None? && c.tcp.value.payload.Valid()
          && Within(c.tcp.value.payload, c.ipv4.value.payload) && c.transportPayload == c.tcp.value.payload)
    && (c.udp.None? && c.tcp.None? ==> c.transportPayload == NoBytes())
  }

  /** The context of some bytes: each layer is looked for in the payload of the one outside it. */
  function ContextOf(view: ByteView): PacketContext
    requires view.Valid()
  {
    var ethernet := DecodeEthernetFrame(view);
    var ipv4 :=
      if ethernet.Some? && ethernet.value.etherType == ETHER_TYPE_IPV4
      then DecodeIpv4Packet(ethernet.value.payload) else None;
    var udp := if ipv4.Some? then DecodeUdpDatagram(ipv4.value) else None;
    var tcp := if ipv4.Some? && udp.None? then DecodeTcpSegment(ipv4.value) else None;
    PacketContext(view, ethernet, ipv4, udp, tcp,
                  if udp.Some? then udp.value.payload else if tcp.Some? then tcp.value.payload else NoBytes())
  }

  lemma SubviewWithin(view: ByteView, offset: nat)
    requires view.Valid()
    ensures view.Subview(offset).Valid() && Within(view.Subview(offset), view)
  {
  }

  lemma LimitedWithin(view: ByteView, offset: nat, length: nat)
    requires view.Valid()
    ensures view.Limited(offset, length).Valid() && Within(view.Limited(offset, length), view)
  {
  }

  lemma EthernetWithin(view: ByteView)
    requires view.Valid() && DecodeEthernetFrame(view).Some?
    ensures var payload := DecodeEthernetFrame(view).value.payload; payload.Valid() && Within(payload, view)
  {
    SubviewWithin(view, ETHERNET_HEADER_LENGTH);
  }

  lemma Ipv4Within(view: ByteView)
    requires view.Valid() && DecodeIpv4Packet(view).Some?
    ensures var payload := DecodeIpv4Packet(view).value.payload; payload.Valid() && Within(payload, view)
  {
    var ip := DecodeIpv4Packet(view).value;
    LimitedWithin(view, ip.headerLength, ip.totalLength - ip.headerLength);
  }

  lemma UdpWithin(ip: Ipv4Packet)
    requires ip.payload.Valid() && DecodeUdpDatagram(ip).Some?
    ensures var payload := DecodeUdpDatagram(ip).value.payload; payload.Valid() && Within(payload, ip.payload)
  {
    LimitedWithin(ip.payload, UDP_HEADER_LENGTH, DecodeUdpDatagram(ip).value.length - UDP_HEADER_LENGTH);
  }

  lemma TcpWithin(ip: Ipv4Packet)
    requires ip.payload.Valid() && DecodeTcpSegment(ip).Some?
    ensures var payload := DecodeTcpSegment(ip).value.payload; payload.Valid() && Within(payload, ip.payload)
  {
    SubviewWithin(ip.payload, DecodeTcpSegment(ip).value.headerLength);
  }

  /** For arbitrary bytes every view that the context exposes lies within the next outer one. */
  lemma ContextIsNested(view: ByteView)
    requires view.Valid()
    ensures Nested(ContextOf(view))
  {
    var ethernet := DecodeEthernetFrame(view);
    if ethernet.Some? {
      EthernetWithin(view);
      if ethernet.value.etherType == ETHER_TYPE_IPV4 && DecodeIpv4Packet(ethernet.value.payload).Some? {
        Ipv4Within(ethernet.value.payload);
        var ip := DecodeIpv4Packet(ethernet.value.payload).value;
        if DecodeUdpDatagram(ip).Some? {
          UdpWithin(ip);
        } else if DecodeTcpSegment(ip).Some? {
          TcpWithin(ip);
        }
      }
    }
  }

  /** Layer by layer, stopping at the first one that does not decode; a TCP segment is looked
      for only where there is no UDP datagram. */
  method BuildPacketContext(view: ByteView) returns (c: PacketContext)
    requires view.Valid()
    ensures c == ContextOf(view) && c.rawBytes == view && Nested(c)
  {
    ContextIsNested(view);
    c := PacketContext(view, None, None, None, None, NoBytes());
    var ethernet := DecodeEthernetFrame(view);
    if ethernet.None? {
      return;
    }
    c := c.(ethernet := ethernet);
    if ethernet.value.etherType != ETHER_TYPE_IPV4 {
      return;
    }
    var ipv4 := DecodeIpv4Packet(ethernet.value.payload);
    if ipv4.None? {
      return;
    }
    c := c.(ipv4 := ipv4);
    var udp := DecodeUdpDatagram(ipv4.value);
    if udp.Some? {
      c := c.(udp := udp, transportPayload := udp.value.payload);
      return;
    }
    var tcp := DecodeTcpSegment(ipv4.value);
    if tcp.Some? {
      c := c.(tcp := tcp, transportPayload := tcp.value.payload);
    }
  }

  // ---------------------------------------------------------------- writing

  type Bytes2 = b: seq<Byte> | |b| == 2 witness [0, 0]
  type Bytes4 = b: seq<Byte> | |b| == 4 witness [0, 0, 0, 0]
  type Bytes6 = b: seq<Byte> | |b| == 6 witness [0, 0, 0, 0, 0, 0]

  function Bit(on: bool, weight: nat): nat {
    if on then weight else 0
  }

  /** What travels in an IPv4 packet. `upperFlags` are the three highest TCP flag bits,
      `reserved` the four bits behind the data offset. */
  datatype Transport =
    | Udp(sourcePort: nat, destinationPort: nat, checksum: Bytes2, data: seq<Byte>)
    | Tcp(sourcePort: nat, destinationPort: nat, sequence: Bytes4, acknowledged: Bytes4, reserved: nat,
          upperFlags: nat, ack: bool, psh: bool, rst: bool, syn: bool, fin: bool, windowAndMore: Bytes6,
          options: seq<Byte>, data: seq<Byte>)
  {
    predicate Sendable() {
      && sourcePort < 0x1_0000 && destinationPort < 0x1_0000
      && match this
         case Udp(_, _, _, data) => UDP_HEADER_LENGTH + |data| < 0x1_0000
         case Tcp(_, _, _, _, reserved, upperFlags, _, _, _, _, _, _, options, _) =>
           reserved < 16 && upperFlags < 8 && |options| % 4 == 0 && |options| <= 40
    }

    function Protocol(): Byte {
      if Udp? then 17 else 6
    }

    function Flags(): Byte
      requires Tcp? && Sendable()
    {
      upperFlags * 32 + Bit(ack, 16) + Bit(psh, 8) + Bit(rst, 4) + Bit(syn, 2) + Bit(fin, 1)
    }

    /** The header without TCP options. */
    function Header(): (h: seq<Byte>)
      requires Sendable()
      ensures |h| == if Udp? then UDP_HEADER_LENGTH else TCP_MINIMUM_HEADER_LENGTH
    {
      var ports := [sourcePort / 256, sourcePort % 256, destinationPort / 256, destinationPort % 256];
      match this
      case Udp(_, _, checksum, data) =>
        var length := UDP_HEADER_LENGTH + |data|;
        ports + [length / 256, length % 256] + checksum
      case Tcp(_, _, sequence, acknowledged, reserved, _, _, _, _, _, _, windowAndMore, options, _) =>
        var words := (TCP_MINIMUM_HEADER_LENGTH + |options|) / 4;
        ports + sequence + acknowledged + [words * 16 + reserved, Flags()] + windowAndMore
    }

    function Segment(): seq<Byte>
      requires Sendable()
    {
      if Udp? then Header() + data else Header() + (options + data)
    }
  }

  /** A segment of any protocol, or a fragment of one, and the headers it travels in.
      `upperFlags` are the two flag bits that do not concern fragmentation. */
  datatype Sent = Sent(
    destinationMac: Bytes6, sourceMac: Bytes6,
    tos: Byte, identification: Bytes2, upperFlags: nat, moreFragments: bool, fragmentOffset: nat,
    ttl: Byte, ipChecksum: Bytes2,
    sourceIp: Bytes4, destinationIp: Bytes4, ipOptions: seq<Byte>, protocol: Byte, segment: seq<Byte>)
  {
    /** A packet is whole if it is the first part and no other follows. */
    predicate Fragmented() {
      moreFragments || fragmentOffset > 0
    }

    function FragmentWord(): nat {
      upperFlags * 0x4000 + Bit(moreFragments, 0x2000) + fragmentOffset
    }

    function HeaderLength(): nat {
      20 + |ipOptions|
    }

    function TotalLength(): nat {
      HeaderLength() + |segment|
    }

    predicate Sendable() {
      && upperFlags < 4 && fragmentOffset < 0x2000
      && |ipOptions| % 4 == 0 && |ipOptions| <= 40 && TotalLength() < 0x1_0000
    }

    function EthernetHeader(): (h: seq<Byte>)
      ensures |h| == 14
    {
      destinationMac + sourceMac + [0x08, 0x00]
    }

    function Ipv4Header(): (h: seq<Byte>)
      requires Sendable()
      ensures |h| == 20
    {
      [0x40 + HeaderLength() / 4, tos, TotalLength() / 256, TotalLength() % 256,
       identification[0], identification[1], FragmentWord() / 256, FragmentWord() % 256,
       ttl, protocol, ipChecksum[0], ipChecksum[1],
       sourceIp[0], sourceIp[1], sourceIp[2], sourceIp[3],
       destinationIp[0], destinationIp[1], destinationIp[2], destinationIp[3]]
    }

    function Packet(): seq<Byte>
      requires Sendable()
    {
      Ipv4Header() + (ipOptions + segment)
    }

    function Wire(): seq<Byte>
      requires Sendable()
    {
      EthernetHeader() + Packet()
    }
  }

  lemma EthernetRoundTrip(s: Sent, padding: seq<Byte>)
    requires s.Sendable()
    ensures var view := ViewOf(s.Wire() + padding);
            DecodeEthernetFrame(view) ==
            Some(EthernetFrame(FormatMacAddress(s.destinationMac, 0), FormatMacAddress(s.sourceMac, 0),
                               ETHER_TYPE_IPV4, view.Subview(14)))
  {
    var bytes := s.Wire() + padding;
    WholeView(bytes);
    assert s.EthernetHeader() <= bytes;
    EthernetFields(s.destinationMac, s.sourceMac, bytes);
  }

  lemma EthernetFields(destination: Bytes6, source: Bytes6, bytes: seq<Byte>)
    requires destination + source + [0x08, 0x00] <= bytes
    ensures FormatMacAddress(bytes, 0) == FormatMacAddress(destination, 0)
    ensures FormatMacAddress(bytes, 6) == FormatMacAddress(source, 0)
    ensures UInt16At(bytes, 12) == 0x0800
  {
    var h := destination + source + [0x08, 0x00];
    assert bytes[..14] == h;
    assert bytes[0..6] == h[0..6] == destination && bytes[6..12] == h[6..12] == source;
    SameMacText(bytes, 0, destination);
    SameMacText(bytes, 6, source);
    SamePrefix(bytes, h, 12);
    SamePrefix(bytes, h, 13);
  }

  lemma SameMacText(bytes: seq<Byte>, offset: nat, mac: Bytes6)
    requires offset + 6 <= |bytes| && bytes[offset..offset + 6] == mac
    ensures FormatMacAddress(bytes, offset) == FormatMacAddress(mac, 0)
  {
    assert mac[0..6] == mac;
  }

  lemma SamePrefix(b: seq<Byte>, h: seq<Byte>, i: nat)
    requires h <= b && i < |h|
    ensures b[i] == h[i]
  {
  }

  lemma Ipv4AddressText(b: seq<Byte>, offset: nat, address: Bytes4)
    requires offset + 4 <= |b|
    requires b[offset] == address[0] && b[offset + 1] == address[1]
    requires b[offset + 2] == address[2] && b[offset + 3] == address[3]
    ensures FormatIpv4Address(b, offset) == FormatIpv4Address(address, 0)
  {
  }

  lemma Ipv4Fields(s: Sent, b: seq<Byte>)
    requires s.Sendable() && s.Ipv4Header() <= b
    ensures b[0] / 16 == 4 && b[0] % 16 * 4 == s.HeaderLength() && b[8] == s.ttl && b[9] == s.protocol
    ensures UInt16At(b, 2) == s.TotalLength() && (UInt16At(b, 6) % 0x4000 != 0 <==> s.Fragmented())
    ensures FormatIpv4Address(b, 12) == FormatIpv4Address(s.sourceIp, 0)
    ensures FormatIpv4Address(b, 16) == FormatIpv4Address(s.destinationIp, 0)
  {
    var h := s.Ipv4Header();
    forall i: nat | i < 20 ensures b[i] == h[i] {
      SamePrefix(b, h, i);
    }
    Ipv4AddressText(b, 12, s.sourceIp);
    Ipv4AddressText(b, 16, s.destinationIp);
    assert b[0] == 0x40 + s.HeaderLength() / 4;
    assert UInt16At(b, 6) == s.FragmentWord();
    FragmentedByWord(s);
  }

  lemma FragmentedByWord(s: Sent)
    requires s.Sendable()
    ensures s.FragmentWord() % 0x4000 != 0 <==> s.Fragmented()
  {
  }

  lemma Ipv4RoundTrip(s: Sent, view: ByteView, padding: seq<Byte>)
    requires s.Sendable() && view.Valid()
    requires view.Bytes() == s.Packet() + padding
    ensures DecodeIpv4Packet(view) ==
            Some(Ipv4Packet(FormatIpv4Address(s.sourceIp, 0), FormatIpv4Address(s.destinationIp, 0), s.ttl, s.protocol,
                            s.HeaderLength(), s.TotalLength(), s.Fragmented(),
                            view.Limited(s.HeaderLength(), s.TotalLength() - s.HeaderLength())))
  {
    var b := view.Bytes();
    assert s.Ipv4Header() <= b;
    assert |b| >= s.TotalLength();
    Ipv4Fields(s, b);
  }

  /** Bytes behind the datagram, which its length field leaves out, are ignored. */
  lemma UdpRoundTrip(t: Transport, ip: Ipv4Packet, more: seq<Byte>)
    requires t.Udp? && t.Sendable() && ip.protocol == 17 && !ip.fragmented && ip.payload.Valid()
    requires ip.payload.Bytes() == t.Segment() + more
    ensures var udp := DecodeUdpDatagram(ip);
            && udp.Some? && udp.value.payload.Valid() && udp.value.payload.Bytes() == t.data
            && udp.value.sourcePort == t.sourcePort && udp.value.destinationPort == t.destinationPort
            && udp.value.length == UDP_HEADER_LENGTH + |t.data|
  {
    var b := ip.payload.Bytes();
    assert b[8..8 + |t.data|] == t.data;
    forall i: nat | i < 8 ensures b[i] == t.Header()[i] {
      SamePrefix(b, t.Header(), i);
    }
    assert UInt16At(b, 0) == t.sourcePort && UInt16At(b, 2) == t.destinationPort;
    assert UInt16At(b, 4) == UDP_HEADER_LENGTH + |t.data|;
    LimitedBytes(ip.payload, 8, |t.data|);
  }

  /** The flag bits of section 3.1 of RFC 793, one by one. */
  lemma FlagBits(t: Transport)
    requires t.Tcp? && t.Sendable()
    ensures var flags := t.Flags();
            && flags / 2 % 2 == Bit(t.syn, 1) && flags / 16 % 2 == Bit(t.ack, 1)
            && flags / 4 % 2 == Bit(t.rst, 1) && flags % 2 == Bit(t.fin, 1)
  {
    FlagsAsSum(t);
    BitsOfSum(t.upperFlags, Bit(t.ack, 1), Bit(t.psh, 1), Bit(t.rst, 1), Bit(t.syn, 1), Bit(t.fin, 1));
  }

  lemma FlagsAsSum(t: Transport)
    requires t.Tcp? && t.Sendable()
    ensures t.Flags() as int == t.upperFlags * 32 + Bit(t.ack, 1) * 16 + Bit(t.psh, 1) * 8
                                + Bit(t.rst, 1) * 4 + Bit(t.syn, 1) * 2 + Bit(t.fin, 1)
  {
  }

  lemma BitsOfSum(upper: nat, a: nat, p: nat, r: nat, s: nat, f: nat)
    requires a < 2 && p < 2 && r < 2 && s < 2 && f < 2
    ensures var n := upper * 32 + a * 16 + p * 8 + r * 4 + s * 2 + f;
            n % 2 == f && n / 2 % 2 == s && n / 4 % 2 == r && n / 16 % 2 == a
  {
    var n := upper * 32 + a * 16 + p * 8 + r * 4 + s * 2 + f;
    Quotient2(n, upper * 16 + a * 8 + p * 4 + r * 2 + s, f);
    Quotient2(upper * 16 + a * 8 + p * 4 + r * 2 + s, upper * 8 + a * 4 + p * 2 + r, s);
    Quotient4(n, upper * 8 + a * 4 + p * 2 + r, s * 2 + f);
    Quotient2(upper * 8 + a * 4 + p * 2 + r, upper * 4 + a * 2 + p, r);
    Quotient16(n, upper * 2 + a, p * 8 + r * 4 + s * 2 + f);
    Quotient2(upper * 2 + a, upper, a);
  }

  lemma Quotient2(n: nat, q: nat, r: nat)
    requires n == 2 * q + r && r < 2
    ensures n / 2 == q && n % 2 == r
  {
  }

  lemma Quotient4(n: nat, q: nat, r: nat)
    requires n == 4 * q + r && r < 4
    ensures n / 4 == q
  {
  }

  lemma Quotient16(n: nat, q: nat, r: nat)
    requires n == 16 * q + r && r < 16
    ensures n / 16 == q
  {
  }

  lemma TcpFields(t: Transport, b: seq<Byte>)
    requires t.Tcp? && t.Sendable() && t.Header() <= b
    ensures UInt16At(b, 0) == t.sourcePort && UInt16At(b, 2) == t.destinationPort
    ensures b[12] / 16 * 4 == TCP_MINIMUM_HEADER_LENGTH + |t.options| && b[13] == t.Flags()
  {
    forall i: nat | i < 20 ensures b[i] == t.Header()[i] {
      SamePrefix(b, t.Header(), i);
    }
    var words := (TCP_MINIMUM_HEADER_LENGTH + |t.options|) / 4;
    assert b[12] == words * 16 + t.reserved;
  }

  lemma TcpRoundTrip(t: Transport, ip: Ipv4Packet)
    requires t.Tcp? && t.Sendable() && ip.protocol == 6 && !ip.fragmented && ip.payload.Valid()
    requires ip.payload.Bytes() == t.Segment()
    ensures var tcp := DecodeTcpSegment(ip);
            && tcp.Some? && tcp.value.payload.Valid() && tcp.value.payload.Bytes() == t.data
            && tcp.value.sourcePort == t.sourcePort && tcp.value.destinationPort == t.destinationPort
            && tcp.value.headerLength == TCP_MINIMUM_HEADER_LENGTH + |t.options|
            && tcp.value.syn == t.syn && tcp.value.ack == t.ack && tcp.value.rst == t.rst && tcp.value.fin == t.fin
  {
    TcpFields(t, ip.payload.Bytes());
    FlagBits(t);
    var headerLength := TCP_MINIMUM_HEADER_LENGTH + |t.options|;
    assert t.Segment()[headerLength..] == t.data;
    SubviewBytes(ip.payload, headerLength);
  }

  function UpTo(n: nat, limit: nat): nat {
    if n <= limit then n else limit
  }

  /** A limited view is that slice of its parent, as far as the parent goes; from its end on
      there is only the view that points nowhere. */
  lemma LimitedBytes(view: ByteView, offset: nat, length: nat)
    requires view.Valid()
    ensures view.Limited(offset, length).Valid()
    ensures view.Limited(offset, length).Bytes()
         == view.Bytes()[UpTo(offset, view.size)..UpTo(offset + length, view.size)]
    ensures offset >= view.size ==> view.Limited(offset, length) == NoBytes()
  {
    if offset < view.size {
      SliceOfSlice(view.buffer, view.from, view.from + view.size, offset, UpTo(offset + length, view.size));
    }
  }

  lemma SubviewBytes(view: ByteView, offset: nat)
    requires view.Valid() && offset <= view.size
    ensures view.Subview(offset).Valid()
    ensures view.Subview(offset).Bytes() == view.Bytes()[offset..]
    ensures offset == view.size ==> view.Subview(offset) == NoBytes()
  {
    if offset < view.size {
      SliceOfSlice(view.buffer, view.from, view.from + view.size, offset, view.size);
      assert view.Bytes()[offset..] == view.Bytes()[offset..view.size];
    } else {
      assert view.Bytes()[offset..] == [];
    }
  }

  /** A frame with any IPv4 options and any padding behind it decodes to the same addresses
      and to exactly the bytes of the segment. */
  lemma FrameCarriesSegment(s: Sent, padding: seq<Byte>) returns (ip: Ipv4Packet)
    requires s.Sendable()
    ensures var frame := DecodeEthernetFrame(ViewOf(s.Wire() + padding));
            && frame.Some? && frame.value.etherType == ETHER_TYPE_IPV4 && frame.value.payload.Valid()
            && frame.value.destinationMac == FormatMacAddress(s.destinationMac, 0)
            && frame.value.sourceMac == FormatMacAddress(s.sourceMac, 0)
            && DecodeIpv4Packet(frame.value.payload) == Some(ip)
    ensures ip.sourceIp == FormatIpv4Address(s.sourceIp, 0) && ip.destinationIp == FormatIpv4Address(s.destinationIp, 0)
    ensures ip.ttl == s.ttl && ip.protocol == s.protocol && ip.fragmented == s.Fragmented()
    ensures ip.payload.Valid() && ip.payload.Bytes() == s.segment
  {
    var bytes := s.Wire() + padding;
    CutLayers(s.EthernetHeader(), s.Ipv4Header(), s.ipOptions, s.segment, padding);
    EthernetRoundTrip(s, padding);
    SubviewBytes(ViewOf(bytes), 14);
    WholeView(bytes);
    var view := ViewOf(bytes).Subview(14);
    Ipv4RoundTrip(s, view, padding);
    ip := DecodeIpv4Packet(view).value;
    LimitedBytes(view, s.HeaderLength(), s.TotalLength() - s.HeaderLength());
  }

  /** The context of a frame that was sent has its addresses, its one transport layer with
      the ports sent, and exactly the data sent as transport payload. */
  lemma FrameRoundTrip(s: Sent, t: Transport, padding: seq<Byte>)
    requires s.Sendable() && t.Sendable() && s.protocol == t.Protocol() && s.segment == t.Segment()
    requires !s.Fragmented()
    ensures var c := ContextOf(ViewOf(s.Wire() + padding));
            && c.ethernet.Some? && c.ipv4.Some?
            && c.ethernet.value.destinationMac == FormatMacAddress(s.destinationMac, 0)
            && c.ethernet.value.sourceMac == FormatMacAddress(s.sourceMac, 0)
            && c.ipv4.value.sourceIp == FormatIpv4Address(s.sourceIp, 0)
            && c.ipv4.value.destinationIp == FormatIpv4Address(s.destinationIp, 0)
            && c.transportPayload.Valid() && c.transportPayload.Bytes() == t.data
            && (t.Udp? ==>
                  && c.udp.Some? && c.tcp.None?
                  && c.udp.value.sourcePort == t.sourcePort
                  && c.udp.value.destinationPort == t.destinationPort)
            && (t.Tcp? ==>
                  && c.tcp.Some? && c.udp.None?
                  && c.tcp.value.sourcePort == t.sourcePort
                  && c.tcp.value.destinationPort == t.destinationPort
                  && c.tcp.value.syn == t.syn && c.tcp.value.ack == t.ack
                  && c.tcp.value.rst == t.rst && c.tcp.value.fin == t.fin)
  {
    var ip := FrameCarriesSegment(s, padding);
    if t.Udp? {
      assert t.Segment() + [] == t.Segment();
      UdpRoundTrip(t, ip, []);
    } else {
      TcpRoundTrip(t, ip);
    }
  }

  /** A fragment shows no transport layer: its bytes are the IPv4 payload and nothing more. */
  lemma FragmentsHaveNoTransport(s: Sent, padding: seq<Byte>)
    requires s.Sendable() && s.Fragmented()
    ensures var c := ContextOf(ViewOf(s.Wire() + padding));
            && c.ipv4.Some? && c.ipv4.value.fragmented && c.ipv4.value.payload.Valid()
            && c.ipv4.value.payload.Bytes() == s.segment
            && c.udp.None? && c.tcp.None? && c.transportPayload.size == 0
  {
    var ip := FrameCarriesSegment(s, padding);
  }

  // ---------------------------------------------------------------- nothing else decodes

  /** Exactly the byte strings that some packet spells, with padding behind it, decode. */
  lemma Ipv4DecodesExactly(view: ByteView)
    requires view.Valid()
    ensures DecodeIpv4Packet(view).Some? <==>
              exists s: Sent, padding :: s.Sendable() && view.Bytes() == s.Packet() + padding
  {
    if DecodeIpv4Packet(view).Some? {
      var s, padding := DecodedIpv4WasSent(view);
    }
    forall s: Sent, padding | s.Sendable() && view.Bytes() == s.Packet() + padding
      ensures DecodeIpv4Packet(view).Some?
    {
      Ipv4RoundTrip(s, view, padding);
    }
  }

  lemma DecodedIpv4WasSent(view: ByteView) returns (s: Sent, padding: seq<Byte>)
    requires view.Valid() && DecodeIpv4Packet(view).Some?
    ensures s.Sendable() && view.Bytes() == s.Packet() + padding
  {
    var b := view.Bytes();
    var header: nat, total := b[0] % 16 * 4, UInt16At(b, 2);
    s := SentFrom(b, header, total);
    padding := b[total..];
    WordOfBits(UInt16At(b, 6));
    Ipv4HeaderBytes(s, b);
    CutInFour(b, 20, header, total);
  }

  /** The packet that these bytes spell, if they spell one. */
  function SentFrom(b: seq<Byte>, header: nat, total: nat): Sent
    requires 20 <= header <= total <= |b|
  {
    var word := UInt16At(b, 6);
    Sent([0, 0, 0, 0, 0, 0], [0, 0, 0, 0, 0, 0], b[1], b[4..6], word / 0x4000,
         word / 0x2000 % 2 == 1, word % 0x2000, b[8], b[10..12], b[12..16], b[16..20], b[20..header], b[9],
         b[header..total])
  }

  lemma Ipv4HeaderBytes(s: Sent, b: seq<Byte>)
    requires s.Sendable() && |b| >= 20
    requires b[0] == 0x40 + s.HeaderLength() / 4 && b[1] == s.tos && b[8] == s.ttl && b[9] == s.protocol
    requires UInt16At(b, 2) == s.TotalLength() && UInt16At(b, 6) == s.FragmentWord()
    requires s.identification == b[4..6] && s.ipChecksum == b[10..12]
    requires s.sourceIp == b[12..16] && s.destinationIp == b[16..20]
    ensures s.Ipv4Header() == b[..20]
  {
    var h := s.Ipv4Header();
    assert h[0] == b[0] && h[1] == b[1] && h[2] == b[2] && h[3] == b[3] && h[6] == b[6] && h[7] == b[7];
    assert h[4] == b[4] && h[5] == b[5] && h[8] == b[8] && h[9] == b[9] && h[10] == b[10] && h[11] == b[11];
    assert h[12] == b[12] && h[13] == b[13] && h[14] == b[14] && h[15] == b[15];
    assert h[16] == b[16] && h[17] == b[17] && h[18] == b[18] && h[19] == b[19];
  }

  lemma CutInFour(b: seq<Byte>, i: nat, j: nat, k: nat)
    requires i <= j <= k <= |b|
    ensures b == b[..i] + (b[i..j] + b[j..k]) + b[k..]
  {
  }

  lemma WordOfBits(word: nat)
    ensures word == word / 0x4000 * 0x4000 + Bit(word / 0x2000 % 2 == 1, 0x2000) + word % 0x2000
  {
    var q, r := word / 0x2000, word % 0x2000;
    QuotientWord(word, q / 2, q % 2 * 0x2000 + r);
  }

  lemma QuotientWord(n: nat, q: nat, r: nat)
    requires n == 0x4000 * q + r && r < 0x4000
    ensures n / 0x4000 == q
  {
  }

  /** Of a whole frame: fourteen bytes make an Ethernet frame; and an IPv4 packet is found in
      exactly the byte strings that somebody may have sent, with padding behind it. */
  lemma FrameDecodesExactly(bytes: seq<Byte>)
    ensures var c := ContextOf(ViewOf(bytes));
            && (c.ethernet.Some? <==> |bytes| >= 14)
            && (c.ipv4.Some? <==> exists s: Sent, padding :: s.Sendable() && bytes == s.Wire() + padding)
  {
    if ContextOf(ViewOf(bytes)).ipv4.Some? {
      var s, padding := DecodedFrameWasSent(bytes);
    }
    forall s: Sent, padding | s.Sendable() && bytes == s.Wire() + padding
      ensures ContextOf(ViewOf(bytes)).ipv4.Some?
    {
      var ip := FrameCarriesSegment(s, padding);
    }
  }

  lemma DecodedFrameWasSent(bytes: seq<Byte>) returns (s: Sent, padding: seq<Byte>)
    requires ContextOf(ViewOf(bytes)).ipv4.Some?
    ensures s.Sendable() && bytes == s.Wire() + padding
  {
    var view := ViewOf(bytes);
    WholeView(bytes);
    EthernetWithin(view);
    SubviewBytes(view, 14);
    var p: Sent;
    p, padding := DecodedIpv4WasSent(DecodeEthernetFrame(view).value.payload);
    s := InFrame(bytes, p, padding);
  }

  lemma InFrame(bytes: seq<Byte>, p: Sent, padding: seq<Byte>) returns (s: Sent)
    requires p.Sendable() && |bytes| >= 14 && UInt16At(bytes, 12) == 0x0800 && bytes[14..] == p.Packet() + padding
    ensures s.Sendable() && bytes == s.Wire() + padding
  {
    s := p.(destinationMac := bytes[0..6], sourceMac := bytes[6..12]);
    assert s.Ipv4Header() == p.Ipv4Header();
    HeaderAndPayload(bytes);
    Associative(s.EthernetHeader(), p.Packet(), padding);
  }

  lemma HeaderAndPayload(bytes: seq<Byte>)
    requires |bytes| >= 14 && UInt16At(bytes, 12) == 0x0800
    ensures bytes == bytes[0..6] + bytes[6..12] + [0x08, 0x00] + bytes[14..]
  {
    assert bytes[12] == 8 && bytes[13] == 0;
  }

  lemma UdpDecodesExactly(ip: Ipv4Packet)
    requires ip.payload.Valid()
    ensures DecodeUdpDatagram(ip).Some? <==>
              ip.protocol == 17 && !ip.fragmented
              && exists t: Transport, more ::
                   t.Udp? && t.Sendable() && ip.payload.Bytes() == t.Segment() + more
  {
    if DecodeUdpDatagram(ip).Some? {
      var t, more := DecodedUdpWasSent(ip);
    }
    if ip.protocol == 17 && !ip.fragmented {
      forall t: Transport, more | t.Udp? && t.Sendable() && ip.payload.Bytes() == t.Segment() + more
        ensures DecodeUdpDatagram(ip).Some?
      {
        UdpRoundTrip(t, ip, more);
      }
    }
  }

  lemma DecodedUdpWasSent(ip: Ipv4Packet) returns (t: Transport, more: seq<Byte>)
    requires ip.payload.Valid() && DecodeUdpDatagram(ip).Some?
    ensures t.Udp? && t.Sendable() && ip.payload.Bytes() == t.Segment() + more
  {
    var b := ip.payload.Bytes();
    var length := UInt16At(b, 4);
    t := Udp(UInt16At(b, 0), UInt16At(b, 2), [b[6], b[7]], b[8..length]);
    more := b[length..];
    UdpHeaderBytes(t, b);
    assert b == b[..8] + b[8..length] + b[length..];
  }

  lemma UdpHeaderBytes(t: Transport, b: seq<Byte>)
    requires t.Udp? && t.Sendable() && |b| >= 8
    requires t.sourcePort == UInt16At(b, 0) && t.destinationPort == UInt16At(b, 2)
    requires 8 + |t.data| == UInt16At(b, 4) && t.checksum == [b[6], b[7]]
    ensures t.Header() == b[..8]
  {
    assert t.Header() == [b[0], b[1], b[2], b[3], b[4], b[5]] + t.checksum;
  }

  lemma TcpDecodesExactly(ip: Ipv4Packet)
    requires ip.payload.Valid()
    ensures DecodeTcpSegment(ip).Some? <==>
              ip.protocol == 6 && !ip.fragmented
              && exists t: Transport :: t.Tcp? && t.Sendable() && ip.payload.Bytes() == t.Segment()
  {
    if DecodeTcpSegment(ip).Some? {
      var t := DecodedTcpWasSent(ip);
    }
    if ip.protocol == 6 && !ip.fragmented {
      forall t: Transport | t.Tcp? && t.Sendable() && ip.payload.Bytes() == t.Segment()
        ensures DecodeTcpSegment(ip).Some?
      {
        TcpRoundTrip(t, ip);
      }
    }
  }

  function BitAt(b: nat, weight: nat): bool
    requires weight > 0
  {
    b / weight % 2 == 1
  }

  lemma FlagsOfByte(n: nat)
    ensures n == n / 32 * 32 + Bit(BitAt(n, 16), 16) + Bit(BitAt(n, 8), 8) + Bit(BitAt(n, 4), 4)
                 + Bit(BitAt(n, 2), 2) + Bit(BitAt(n, 1), 1)
  {
    Halvings(n);
    SumOfBits(n / 32, n / 16, n / 8, n / 4, n / 2, n);
    Weight(n / 16, 16);
    Weight(n / 8, 8);
    Weight(n / 4, 4);
    Weight(n / 2, 2);
    Weight(n, 1);
  }

  lemma Weight(h: nat, weight: nat)
    ensures Bit(h % 2 == 1, weight) == h % 2 * weight
  {
  }

  lemma Halvings(n: nat)
    ensures n / 4 == n / 2 / 2 && n / 8 == n / 4 / 2 && n / 16 == n / 8 / 2 && n / 32 == n / 16 / 2
  {
    Quotient4(n, n / 2 / 2, n / 2 % 2 * 2 + n % 2);
    Quotient8(n, n / 4 / 2, n / 4 % 2 * 4 + n % 4);
    Quotient16(n, n / 8 / 2, n / 8 % 2 * 8 + n % 8);
    Quotient32(n, n / 16 / 2, n / 16 % 2 * 16 + n % 16);
  }

  lemma SumOfBits(h5: nat, h4: nat, h3: nat, h2: nat, h1: nat, n: nat)
    requires h5 == h4 / 2 && h4 == h3 / 2 && h3 == h2 / 2 && h2 == h1 / 2 && h1 == n / 2
    ensures n == h5 * 32 + h4 % 2 * 16 + h3 % 2 * 8 + h2 % 2 * 4 + h1 % 2 * 2 + n % 2
  {
  }

  lemma Quotient8(n: nat, q: nat, r: nat)
    requires n == 8 * q + r && r < 8
    ensures n / 8 == q
  {
  }

  lemma Quotient32(n: nat, q: nat, r: nat)
    requires n == 32 * q + r && r < 32
    ensures n / 32 == q
  {
  }

  lemma DecodedTcpWasSent(ip: Ipv4Packet) returns (t: Transport)
    requires ip.payload.Valid() && DecodeTcpSegment(ip).Some?
    ensures t.Tcp? && t.Sendable() && ip.payload.Bytes() == t.Segment()
  {
    var b := ip.payload.Bytes();
    var header: nat, flags := b[12] / 16 * 4, b[13];
    t := Tcp(UInt16At(b, 0), UInt16At(b, 2), b[4..8], b[8..12], b[12] % 16, flags / 32,
             BitAt(flags, 16), BitAt(flags, 8), BitAt(flags, 4), BitAt(flags, 2), BitAt(flags, 1),
             b[14..20], b[20..header], b[header..]);
    FlagsOfByte(flags);
    assert t.Flags() == flags;
    TcpHeaderBytes(t, b);
    assert b == b[..20] + (b[20..header] + b[header..]);
  }

  lemma TcpHeaderBytes(t: Transport, b: seq<Byte>)
    requires t.Tcp? && t.Sendable() && |b| >= 20
    requires t.sourcePort == UInt16At(b, 0) && t.destinationPort == UInt16At(b, 2)
    requires t.sequence == b[4..8] && t.acknowledged == b[8..12] && t.windowAndMore == b[14..20]
    requires TCP_MINIMUM_HEADER_LENGTH + |t.options| == b[12] / 16 * 4 && t.reserved == b[12] % 16
    requires t.Flags() == b[13]
    ensures t.Header() == b[..20]
  {
    var ports := [t.sourcePort / 256, t.sourcePort % 256, t.destinationPort / 256, t.destinationPort % 256];
    assert ports == [b[0], b[1], b[2], b[3]] == b[..4];
    assert t.Header() == ports + t.sequence + t.acknowledged + [b[12], b[13]] + t.windowAndMore;
    TcpPieces(b);
  }

  lemma TcpPieces(b: seq<Byte>)
    requires |b| >= 20
    ensures b[..4] + b[4..8] + b[8..12] + [b[12], b[13]] + b[14..20] == b[..20]
  {
  }

  lemma WholeView(bytes: seq<Byte>)
    ensures ViewOf(bytes).Bytes() == bytes
  {
  }

  lemma CutLayers(e: seq<Byte>, h: seq<Byte>, o: seq<Byte>, u: seq<Byte>, padding: seq<Byte>)
    ensures (e + (h + (o + u)) + padding)[|e|..] == h + (o + u) + padding
    ensures (h + (o + u) + padding)[|h| + |o|..|h| + |o| + |u|] == u
  {
  }
}
