/** Building and parsing the IPv4/UDP packets that carry DNS messages. */
module DnsPacket {
  import opened Bits
  import opened Common
  import opened InternetChecksum

  const IPV4_MIN_HEADER: nat := 20
  const UDP_HEADER: nat := 8
  const DNS_PORT: u16 := 53

  /** Fields of a parsed packet: source, destination and UDP payload. */
  datatype Query = Query(clientIp: Ip4, clientPort: u16, serverIp: Ip4, serverPort: u16, dns: seq<byte>)

  // ---------------------------------------------------------------------
  // Building.
  // ---------------------------------------------------------------------

  /** The 16 bits a length is truncated to. */
  function Truncate16(n: nat): (t: u16)
    ensures t <= n
  {
    CastOut(n, 0x1_0000)
  }

  function IpHeader(total: nat, src: Ip4, dst: Ip4, csum: u16): (h: seq<byte>)
    ensures |h| == IPV4_MIN_HEADER
  {
    var t := Truncate16(total);
    [0x45, 0, High(t), Low(t), 0, 0, 0x40, 0, 64, PROTO_UDP, High(csum), Low(csum),
     src[0], src[1], src[2], src[3], dst[0], dst[1], dst[2], dst[3]]
  }

  function UdpHead(sport: u16, dport: u16, length: u16, csum: u16): (h: seq<byte>)
    ensures |h| == UDP_HEADER
  {
    [High(sport), Low(sport), High(dport), Low(dport), High(length), Low(length), High(csum), Low(csum)]
  }

  function UdpSegment(sport: u16, dport: u16, csum: u16, payload: seq<byte>): (u: seq<byte>)
    ensures |u| == UDP_HEADER + |payload|
  {
    UdpHead(sport, dport, Truncate16(UDP_HEADER + |payload|), csum) + payload
  }

  /** A computed zero is sent as all ones. */
  function StoredUdpChecksum(src: Ip4, sport: u16, dst: Ip4, dport: u16, payload: seq<byte>): (c: u16)
    ensures c != 0
  {
    var raw := UdpChecksumOf(src, dst, UdpSegment(sport, dport, 0, payload));
    if raw == 0 then 0xFFFF else raw
  }

  function StoredIpChecksum(src: Ip4, dst: Ip4, length: nat): u16 {
    ChecksumOf(IpHeader(IPV4_MIN_HEADER + UDP_HEADER + length, src, dst, 0))
  }

  function Packet(src: Ip4, sport: u16, dst: Ip4, dport: u16, payload: seq<byte>): (pkt: seq<byte>)
    ensures |pkt| == IPV4_MIN_HEADER + UDP_HEADER + |payload|
  {
    IpHeader(IPV4_MIN_HEADER + UDP_HEADER + |payload|, src, dst, StoredIpChecksum(src, dst, |payload|))
    + UdpSegment(sport, dport, StoredUdpChecksum(src, sport, dst, dport, payload), payload)
  }

  /** `pkt[at..at + n].copy_from_slice(part)`. */
  method CopyInto(pkt: array<byte>, at: nat, part: seq<byte>)
    requires at + |part| <= pkt.Length
    modifies pkt
    ensures pkt[..at] == old(pkt[..at])
    ensures pkt[at..at + |part|] == part
    ensures pkt[at + |part|..] == old(pkt[at + |part|..])
  {
    forall i | 0 <= i < |part| {
      pkt[at + i] := part[i];
    }
  }

  ghost predicate ZeroFrom(pkt: array<byte>, k: nat)
    requires k <= pkt.Length
    reads pkt
  {
    forall i :: k <= i < pkt.Length ==> pkt[i] == 0
  }

  /** Appends to the written prefix of a zeroed buffer. */
  method Put(pkt: array<byte>, at: nat, part: seq<byte>) returns (next: nat)
    requires at + |part| <= pkt.Length && ZeroFrom(pkt, at)
    modifies pkt
    ensures next == at + |part| && ZeroFrom(pkt, next)
    ensures pkt[..next] == old(pkt[..at]) + part
  {
    CopyInto(pkt, at, part);
    next := at + |part|;
    assert pkt[..next] == pkt[..at] + pkt[at..next];
    forall i | next <= i < pkt.Length
      ensures pkt[i] == 0
    {
      assert pkt[next..][i - next] == old(pkt[next..][i - next]);
    }
  }

  lemma SegmentWithChecksum(sport: u16, dport: u16, csum: u16, payload: seq<byte>)
    ensures var z := UdpSegment(sport, dport, 0, payload);
            && z[6] == 0 && z[7] == 0
            && UdpSegment(sport, dport, csum, payload) == z[6 := High(csum)][7 := Low(csum)]
  {
    hide Truncate16;
    assert High(0) == 0 && Low(0) == 0;
  }

  lemma HeaderWithChecksum(total: nat, src: Ip4, dst: Ip4, csum: u16)
    ensures var z := IpHeader(total, src, dst, 0);
            && z[10] == 0 && z[11] == 0 && z[0] == 0x45
            && IpHeader(total, src, dst, csum) == z[10 := High(csum)][11 := Low(csum)]
  {
    hide Truncate16;
    assert High(0) == 0 && Low(0) == 0;
  }

  lemma HeaderParts(total: nat, src: Ip4, dst: Ip4)
    ensures IpHeader(total, src, dst, 0)
            == [] + [0x45, 0] + Be16(Truncate16(total)) + [0, 0, 0x40, 0, 64, PROTO_UDP] + Be16(0) + src + dst
  {
    hide Truncate16, High, Low;
  }

  lemma HeadParts(sport: u16, dport: u16, length: u16)
    ensures UdpHead(sport, dport, length, 0) == Be16(sport) + Be16(dport) + Be16(length) + Be16(0)
  {
    hide High, Low;
  }

  lemma FiveParts(pre: seq<byte>, a: seq<byte>, b: seq<byte>, c: seq<byte>, d: seq<byte>, rest: seq<byte>)
    ensures pre + (a + b + c + d + rest) == pre + a + b + c + d + rest
  {
  }

  lemma SegmentParts(pre: seq<byte>, sport: u16, dport: u16, payload: seq<byte>)
    ensures pre + UdpSegment(sport, dport, 0, payload)
            == pre + Be16(sport) + Be16(dport) + Be16(Truncate16(UDP_HEADER + |payload|)) + Be16(0) + payload
  {
    hide Truncate16, Be16, UdpHead;
    var length := Truncate16(UDP_HEADER + |payload|);
    HeadParts(sport, dport, length);
    FiveParts(pre, Be16(sport), Be16(dport), Be16(length), Be16(0), payload);
  }

  /** `build_udp_ipv4`: fill the buffer in place, checksum fields last. */
  method BuildUdpIpv4(src: Ip4, sport: u16, dst: Ip4, dport: u16, payload: seq<byte>)
    returns (pkt: array<byte>)
    ensures fresh(pkt)
    ensures pkt[..] == Packet(src, sport, dst, dport, payload)
  {
    hide ChecksumOf, UdpChecksumOf, Be16, IpHeader, UdpSegment, Truncate16, High, Low;
    var udpLen := UDP_HEADER + |payload|;
    var totalLen := IPV4_MIN_HEADER + udpLen;
    pkt := new byte[totalLen](_ => 0);
    PutIpHeader(pkt, totalLen, src, dst);
    var ipCsum := Checksum(pkt[..IPV4_MIN_HEADER]);
    HeaderWithChecksum(totalLen, src, dst, ipCsum);
    pkt[10], pkt[11] := High(ipCsum), Low(ipCsum);
    assert pkt[..IPV4_MIN_HEADER] == IpHeader(totalLen, src, dst, ipCsum);

    PutUdpSegment(pkt, sport, dport, payload);
    var udpCsum := UdpChecksum(src, dst, pkt[IPV4_MIN_HEADER..]);
    udpCsum := if udpCsum == 0 then 0xFFFF else udpCsum;
    SegmentWithChecksum(sport, dport, udpCsum, payload);
    pkt[26], pkt[27] := High(udpCsum), Low(udpCsum);
    assert pkt[IPV4_MIN_HEADER..] == UdpSegment(sport, dport, udpCsum, payload);
    assert pkt[..] == pkt[..IPV4_MIN_HEADER] + pkt[IPV4_MIN_HEADER..];
  }

  /** The IPv4 header fields in order, checksum still zero. */
  method PutIpHeader(pkt: array<byte>, totalLen: nat, src: Ip4, dst: Ip4)
    requires pkt.Length >= IPV4_MIN_HEADER && ZeroFrom(pkt, 0)
    modifies pkt
    ensures pkt[..IPV4_MIN_HEADER] == IpHeader(totalLen, src, dst, 0)
    ensures ZeroFrom(pkt, IPV4_MIN_HEADER)
  {
    hide Be16, IpHeader, Truncate16;
    var at := Put(pkt, 0, [0x45, 0]);
    at := Put(pkt, at, Be16(Truncate16(totalLen)));
    at := Put(pkt, at, [0, 0, 0x40, 0, 64, PROTO_UDP]);
    at := Put(pkt, at, Be16(0));
    at := Put(pkt, at, src);
    at := Put(pkt, at, dst);
    HeaderParts(totalLen, src, dst);
  }

  /** The UDP header fields and the payload, checksum still zero. */
  method PutUdpSegment(pkt: array<byte>, sport: u16, dport: u16, payload: seq<byte>)
    requires pkt.Length == IPV4_MIN_HEADER + UDP_HEADER + |payload| && ZeroFrom(pkt, IPV4_MIN_HEADER)
    modifies pkt
    ensures pkt[..IPV4_MIN_HEADER] == old(pkt[..IPV4_MIN_HEADER])
    ensures pkt[IPV4_MIN_HEADER..] == UdpSegment(sport, dport, 0, payload)
  {
    hide Be16, UdpSegment, Truncate16;
    ghost var header := pkt[..IPV4_MIN_HEADER];
    var at := Put(pkt, IPV4_MIN_HEADER, Be16(sport));
    at := Put(pkt, at, Be16(dport));
    at := Put(pkt, at, Be16(Truncate16(UDP_HEADER + |payload|)));
    at := Put(pkt, at, Be16(0));
    at := Put(pkt, at, payload);
    SegmentParts(header, sport, dport, payload);
    assert pkt[..at] == pkt[..];
    assert pkt[..] == header + UdpSegment(sport, dport, 0, payload);
    assert pkt[IPV4_MIN_HEADER..] == pkt[..][IPV4_MIN_HEADER..];
    assert pkt[..IPV4_MIN_HEADER] == pkt[..][..IPV4_MIN_HEADER];
  }

  // ---------------------------------------------------------------------
  // The stored checksums verify.
  // ---------------------------------------------------------------------

  /** Largest payload of a UDP datagram in an IPv4 packet without options. */
  const MAX_PAYLOAD: nat := MAX_PACKET - IPV4_MIN_HEADER - UDP_HEADER

  /** The header of a built packet checks to zero, whatever the payload length. */
  lemma {:induction false} HeaderVerifies(src: Ip4, sport: u16, dst: Ip4, dport: u16, payload: seq<byte>)
    ensures ChecksumOf(Packet(src, sport, dst, dport, payload)[..IPV4_MIN_HEADER]) == 0
  {
    hide WordSum, IpHeader, UdpSegment, StoredUdpChecksum, High, Low, Norm;
    var total := IPV4_MIN_HEADER + UDP_HEADER + |payload|;
    var c := StoredIpChecksum(src, dst, |payload|);
    var z := IpHeader(total, src, dst, 0);
    HeaderWithChecksum(total, src, dst, c);
    WordSumStore(z, 10, c);
    SumsFit(src, dst, z);
    SumsFit(src, dst, IpHeader(total, src, dst, c));
    HeaderNotEmpty(z);
    ComplementCompletes(WordSum(z));
    ZeroMeans(WordSum(IpHeader(total, src, dst, c)));
    assert Packet(src, sport, dst, dport, payload)[..IPV4_MIN_HEADER] == IpHeader(total, src, dst, c);
  }

  lemma HeaderNotEmpty(z: seq<byte>)
    requires |z| >= 2 && z[0] == 0x45
    ensures WordSum(z) > 0
  {
  }

  /** The segment of a built packet checks to zero, including after the substitution of all
      ones for zero and with an odd payload; the stored field is never zero. */
  lemma {:induction false} SegmentVerifies(src: Ip4, sport: u16, dst: Ip4, dport: u16, payload: seq<byte>)
    requires |payload| <= MAX_PAYLOAD
    ensures var u := Packet(src, sport, dst, dport, payload)[IPV4_MIN_HEADER..];
            && UdpChecksumOf(src, dst, u) == 0
            && (u[6] != 0 || u[7] != 0)
  {
    hide WordSum, IpHeader, UdpSegment, High, Low, Norm, PseudoSum;
    var z := UdpSegment(sport, dport, 0, payload);
    var c := StoredUdpChecksum(src, sport, dst, dport, payload);
    var u := UdpSegment(sport, dport, c, payload);
    SegmentWithChecksum(sport, dport, c, payload);
    WordSumStore(z, 6, c);
    SumsFit(src, dst, z);
    SumsFit(src, dst, u);
    var n := PseudoSum(src, dst, |z|) + WordSum(z);
    SubstitutedCompletes(n, c);
    ZeroMeans(n + c);
    assert Packet(src, sport, dst, dport, payload)[IPV4_MIN_HEADER..] == u;
    BytesOfNonZero(c);
  }

  lemma SubstitutedCompletes(n: nat, c: u16)
    requires n > 0 && c == if 65535 - Norm(n) == 0 then 0xFFFF else 65535 - Norm(n)
    ensures (n + c) % 65535 == 0
  {
    hide Norm;
    ComplementCompletes(n);
    ZeroMeans(n);
    if 65535 - Norm(n) == 0 {
      Congruent65535(n);
    }
  }

  lemma BytesOfNonZero(c: u16)
    requires c != 0
    ensures High(c) != 0 || Low(c) != 0
  {
  }

  /** A changed byte of a header that checks to zero is seen. */
  lemma {:induction false} HeaderByteSeen(pkt: seq<byte>, i: nat, v: byte)
    requires i < IPV4_MIN_HEADER <= |pkt| && v != pkt[i] && ChecksumOf(pkt[..IPV4_MIN_HEADER]) == 0
    ensures ChecksumOf(pkt[i := v][..IPV4_MIN_HEADER]) != 0
  {
    hide ChecksumOf;
    ChecksumDetectsByte(pkt[..IPV4_MIN_HEADER], i, v);
    assert pkt[i := v][..IPV4_MIN_HEADER] == pkt[..IPV4_MIN_HEADER][i := v];
  }

  /** A changed byte of a segment that checks to zero is seen. */
  lemma {:induction false} SegmentByteSeen(src: Ip4, dst: Ip4, pkt: seq<byte>, i: nat, v: byte)
    requires IPV4_MIN_HEADER <= i < |pkt| <= MAX_PACKET && v != pkt[i]
    requires UdpChecksumOf(src, dst, pkt[IPV4_MIN_HEADER..]) == 0
    ensures UdpChecksumOf(src, dst, pkt[i := v][IPV4_MIN_HEADER..]) != 0
  {
    hide UdpChecksumOf;
    UdpChecksumDetectsByte(src, dst, pkt[IPV4_MIN_HEADER..], i - IPV4_MIN_HEADER, v);
    assert pkt[i := v][IPV4_MIN_HEADER..] == pkt[IPV4_MIN_HEADER..][i - IPV4_MIN_HEADER := v];
  }

  /** With byte `i` changed to `v`, the part the byte is in does not check to zero. */
  ghost predicate ChangeSeen(src: Ip4, dst: Ip4, pkt: seq<byte>, i: nat, v: byte) {
    IPV4_MIN_HEADER <= |pkt| && i < |pkt| &&
    if i < IPV4_MIN_HEADER then ChecksumOf(pkt[i := v][..IPV4_MIN_HEADER]) != 0
    else UdpChecksumOf(src, dst, pkt[i := v][IPV4_MIN_HEADER..]) != 0
  }

  /** Any one changed byte anywhere in a built packet is caught by the checksum of its part. */
  lemma {:induction false} OneByteChangeDetected(src: Ip4, sport: u16, dst: Ip4, dport: u16, payload: seq<byte>)
    requires |payload| <= MAX_PAYLOAD
    ensures var pkt := Packet(src, sport, dst, dport, payload);
            forall i: nat, v: byte :: i < |pkt| && v != pkt[i] ==> ChangeSeen(src, dst, pkt, i, v)
  {
    hide Packet, ChecksumOf, UdpChecksumOf;
    var pkt := Packet(src, sport, dst, dport, payload);
    PacketLength(src, sport, dst, dport, payload);
    HeaderVerifies(src, sport, dst, dport, payload);
    SegmentVerifies(src, sport, dst, dport, payload);
    forall i: nat, v: byte | i < |pkt| && v != pkt[i]
      ensures ChangeSeen(src, dst, pkt, i, v)
    {
      if i < IPV4_MIN_HEADER { HeaderByteSeen(pkt, i, v); } else { SegmentByteSeen(src, dst, pkt, i, v); }
    }
  }

  lemma PacketLength(src: Ip4, sport: u16, dst: Ip4, dport: u16, payload: seq<byte>)
    ensures |Packet(src, sport, dst, dport, payload)| == IPV4_MIN_HEADER + UDP_HEADER + |payload|
  {
  }

  // ---------------------------------------------------------------------
  // Parsing.
  // ---------------------------------------------------------------------

  /** Where the UDP header starts in a well-formed, unfragmented IPv4/UDP packet. */
  function UdpStart(pkt: seq<byte>): (ihl: Option<nat>)
    ensures ihl.Some? ==> IPV4_MIN_HEADER <= ihl.value && ihl.value + UDP_HEADER <= |pkt|
  {
    if |pkt| < IPV4_MIN_HEADER then None
    else if pkt[0] / 16 != 4 then None
    else
      var ihl := pkt[0] % 16 * 4;
      if ihl < IPV4_MIN_HEADER || |pkt| < ihl + UDP_HEADER then None
      else if pkt[9] != PROTO_UDP then None
      else
        var flagsFrag := Word(pkt[6], pkt[7]);
        var moreFragments := flagsFrag / 0x2000 % 2 == 1;
        if moreFragments || flagsFrag % 0x2000 != 0 then None else Some(ihl)
  }

  /** `parse_udp_dns_query`: only such packets to port 53, with a length that fits. */
  function ParseUdpDnsQuery(pkt: seq<byte>): Option<Query> {
    match UdpStart(pkt)
    case None => None
    case Some(ihl) =>
      var udp := pkt[ihl..];
      var dstPort := Word(udp[2], udp[3]);
      if dstPort != DNS_PORT then None
      else
        var udpLen := Word(udp[4], udp[5]);
        if udpLen < UDP_HEADER || ihl + udpLen > |pkt| then None
        else
          var dns := udp[UDP_HEADER..udpLen];
          if dns == [] then None
          else Some(Query(pkt[12..16], Word(udp[0], udp[1]), pkt[16..20], dstPort, dns))
  }

  /** What the comment at the length test describes: a length past the buffer is cut to it. */
  function ParseClamping(pkt: seq<byte>): Option<Query> {
    match UdpStart(pkt)
    case None => None
    case Some(ihl) =>
      var udp := pkt[ihl..];
      var dstPort := Word(udp[2], udp[3]);
      if dstPort != DNS_PORT then None
      else
        var udpLen := Word(udp[4], udp[5]);
        if udpLen < UDP_HEADER then None
        else
          var dns := udp[UDP_HEADER..Min(udpLen, |udp|)];
          if dns == [] then None
          else Some(Query(pkt[12..16], Word(udp[0], udp[1]), pkt[16..20], dstPort, dns))
  }

  /** The packet reaches the length test, its length is past the buffer, and there is payload. */
  predicate ClampFires(pkt: seq<byte>) {
    match UdpStart(pkt)
    case None => false
    case Some(ihl) =>
      && Word(pkt[ihl + 2], pkt[ihl + 3]) == DNS_PORT
      && ihl + Word(pkt[ihl + 4], pkt[ihl + 5]) > |pkt| > ihl + UDP_HEADER
  }

  /** For every packet: the parser clamps as its comment says exactly when there is nothing to
      clamp; where the clamp would fire it gives nothing. */
  lemma {:induction false} ClampedIff(pkt: seq<byte>)
    ensures ParseUdpDnsQuery(pkt) == ParseClamping(pkt) <==> !ClampFires(pkt)
    ensures ClampFires(pkt) ==> ParseUdpDnsQuery(pkt).None?
  {
    hide UdpStart, Word;
    if UdpStart(pkt).Some? {
      var ihl := UdpStart(pkt).value;
      assert pkt[ihl..][2] == pkt[ihl + 2] && pkt[ihl..][4] == pkt[ihl + 4];
      assert |pkt[ihl..][UDP_HEADER..]| == |pkt| - ihl - UDP_HEADER;
    }
  }

  lemma PacketBytes(src: Ip4, sport: u16, dst: Ip4, dport: u16, payload: seq<byte>)
    ensures var pkt := Packet(src, sport, dst, dport, payload);
            var udp := pkt[IPV4_MIN_HEADER..];
            && |pkt| == IPV4_MIN_HEADER + UDP_HEADER + |payload|
            && pkt[0] == 0x45 && pkt[9] == PROTO_UDP && pkt[6] == 0x40 && pkt[7] == 0
            && pkt[12..16] == src && pkt[16..20] == dst
            && Word(udp[0], udp[1]) == sport && Word(udp[2], udp[3]) == dport
            && Word(udp[4], udp[5]) == Truncate16(UDP_HEADER + |payload|)
            && udp[UDP_HEADER..] == payload
  {
    hide Truncate16, StoredIpChecksum, StoredUdpChecksum, High, Low, Word;
    var pkt := Packet(src, sport, dst, dport, payload);
    WordOf(sport);
    WordOf(dport);
    WordOf(Truncate16(UDP_HEADER + |payload|));
  }

  lemma WordOf(x: u16)
    ensures Word(High(x), Low(x)) == x
  {
  }

  /** How many of n payload bytes the UDP length field of a built packet counts. */
  function Counted(n: nat): (c: nat)
    ensures c <= n
  {
    var length := Truncate16(UDP_HEADER + n);
    if length > UDP_HEADER then length - UDP_HEADER else 0
  }

  /** What parsing a built packet gives, for every payload length: the length field is the
      true length modulo 2^16. */
  lemma {:induction false} ParseBuilt(src: Ip4, sport: u16, dst: Ip4, dport: u16, payload: seq<byte>)
    ensures var counted := Counted(|payload|);
            ParseUdpDnsQuery(Packet(src, sport, dst, dport, payload))
              == if dport == DNS_PORT && counted > 0
                 then Some(Query(src, sport, dst, dport, payload[..counted]))
                 else None
  {
    hide Packet, Word, ParseUdpDnsQuery, Truncate16;
    PacketBytes(src, sport, dst, dport, payload);
    var pkt := Packet(src, sport, dst, dport, payload);
    DontFragment(pkt[6], pkt[7]);
    ParsePlainHeader(pkt);
    var length := Truncate16(UDP_HEADER + |payload|);
    SlicePayload(pkt[IPV4_MIN_HEADER..], payload, length);
  }

  lemma SlicePayload(udp: seq<byte>, payload: seq<byte>, length: nat)
    requires |udp| == UDP_HEADER + |payload| && udp[UDP_HEADER..] == payload
    requires length <= |udp|
    ensures length > UDP_HEADER ==> udp[UDP_HEADER..length] == payload[..length - UDP_HEADER]
  {
    if length > UDP_HEADER {
      assert udp[UDP_HEADER..length] == udp[UDP_HEADER..][..length - UDP_HEADER];
    }
  }

  /** Past an IPv4/UDP header of 20 bytes only the UDP fields decide. */
  lemma ParsePlainHeader(pkt: seq<byte>)
    requires |pkt| >= IPV4_MIN_HEADER + UDP_HEADER
    requires pkt[0] == 0x45 && pkt[9] == PROTO_UDP && Word(pkt[6], pkt[7]) == 0x4000
    ensures var udp := pkt[IPV4_MIN_HEADER..];
            var length := Word(udp[4], udp[5]);
            ParseUdpDnsQuery(pkt) ==
            if Word(udp[2], udp[3]) != DNS_PORT || length <= UDP_HEADER || length > |udp| then None
            else Some(Query(pkt[12..16], Word(udp[0], udp[1]), pkt[16..20], DNS_PORT, udp[UDP_HEADER..length]))
  {
    hide Word;
  }

  lemma DontFragment(hi: byte, lo: byte)
    requires hi == 0x40 && lo == 0
    ensures Word(hi, lo) == 0x4000
  {
  }

  /** A built packet parses back to all five of its fields exactly when it goes to port 53
      with a payload of 1 to 65,527 bytes. */
  lemma {:induction false} BuildParseRoundTrip(src: Ip4, sport: u16, dst: Ip4, dport: u16, payload: seq<byte>)
    ensures ParseUdpDnsQuery(Packet(src, sport, dst, dport, payload)) == Some(Query(src, sport, dst, dport, payload))
            <==> dport == DNS_PORT && 1 <= |payload| <= 65527
    ensures dport != DNS_PORT ==> ParseUdpDnsQuery(Packet(src, sport, dst, dport, payload)).None?
  {
    hide Packet, ParseUdpDnsQuery;
    ParseBuilt(src, sport, dst, dport, payload);
    if 1 <= |payload| <= 65527 {
      assert payload[..Counted(|payload|)] == payload;
    }
  }

  /** The input: any built query cut short within its payload. As written it is dropped; clamped,
      what is left of the payload would be parsed. */
  lemma {:induction false} CutQueryDropped(
      src: Ip4, sport: u16, dst: Ip4, payload: seq<byte>, kept: nat)
    requires 1 <= kept < |payload| <= MAX_PAYLOAD
    ensures var cut := Packet(src, sport, dst, DNS_PORT, payload)[..IPV4_MIN_HEADER + UDP_HEADER + kept];
            && ClampFires(cut)
            && ParseUdpDnsQuery(cut) == None
            && ParseClamping(cut) == Some(Query(src, sport, dst, DNS_PORT, payload[..kept]))
  {
    hide Packet, Word, ParseUdpDnsQuery, ParseClamping, UdpStart;
    PacketBytes(src, sport, dst, DNS_PORT, payload);
    var pkt := Packet(src, sport, dst, DNS_PORT, payload);
    var cut := pkt[..IPV4_MIN_HEADER + UDP_HEADER + kept];
    DontFragment(pkt[6], pkt[7]);
    PlainStart(cut);
    ClampedIff(cut);
    assert pkt[IPV4_MIN_HEADER..][UDP_HEADER..][..kept] == payload[..kept];
    assert cut[IPV4_MIN_HEADER..][UDP_HEADER..] == payload[..kept];
    assert cut[12..16] == pkt[12..16] && cut[16..20] == pkt[16..20];
    ClampedPlain(cut);
  }

  lemma PlainStart(pkt: seq<byte>)
    requires |pkt| >= IPV4_MIN_HEADER + UDP_HEADER
    requires pkt[0] == 0x45 && pkt[9] == PROTO_UDP && Word(pkt[6], pkt[7]) == 0x4000
    ensures UdpStart(pkt) == Some(IPV4_MIN_HEADER)
  {
    hide Word;
  }

  lemma ClampedPlain(pkt: seq<byte>)
    requires UdpStart(pkt) == Some(IPV4_MIN_HEADER) && ClampFires(pkt)
    ensures var udp := pkt[IPV4_MIN_HEADER..];
            ParseClamping(pkt) ==
            Some(Query(pkt[12..16], Word(udp[0], udp[1]), pkt[16..20], DNS_PORT, udp[UDP_HEADER..]))
  {
    hide UdpStart, Word;
    var udp := pkt[IPV4_MIN_HEADER..];
    assert udp[4] == pkt[IPV4_MIN_HEADER + 4] && udp[2] == pkt[IPV4_MIN_HEADER + 2];
    assert Min(Word(udp[4], udp[5]), |udp|) == |udp|;
    assert udp[UDP_HEADER..|udp|] == udp[UDP_HEADER..] != [];
  }
}
