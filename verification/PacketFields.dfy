/** IPv4 packets with UDP datagrams, written field by field (section 3.1 of RFC 791, RFC 768): what
    the builder puts in each field, and what the parser makes of any fields. */
module PacketFields {
  import opened Bits
  import opened Common
  import opened InternetChecksum
  import opened DnsPacket

  /** The fields of an IPv4 header, the three flags apart and the offset in its own units. */
  datatype Ip = Ip(
    tos: byte, length: u16, id: u16, reserved: bool, df: bool, mf: bool, offset: nat, ttl: byte, proto: byte,
    csum: u16, src: Ip4, dst: Ip4, options: seq<byte>)

  datatype Udp = Udp(sport: u16, dport: u16, length: u16, csum: u16)

  /** Up to 40 bytes of options in words of four, and 13 bits of offset. */
  predicate IpOk(h: Ip) {
    |h.options| % 4 == 0 && |h.options| <= 40 && h.offset < 0x2000
  }

  function Bit(b: bool, weight: nat): nat {
    if b then weight else 0
  }

  /** The byte of the flags and the high bits of the offset. */
  function FlagByte(h: Ip): byte
    requires IpOk(h)
  {
    Bit(h.reserved, 128) + Bit(h.df, 64) + Bit(h.mf, 32) + h.offset / 256
  }

  function FixedBytes(h: Ip): (s: seq<byte>)
    requires IpOk(h)
    ensures |s| == 12
  {
    [0x40 + 5 + |h.options| / 4, h.tos, h.length / 256, h.length % 256, h.id / 256, h.id % 256,
     FlagByte(h), h.offset % 256, h.ttl, h.proto, h.csum / 256, h.csum % 256]
  }

  function UdpBytes(u: Udp): (s: seq<byte>)
    ensures |s| == 8
  {
    [u.sport / 256, u.sport % 256, u.dport / 256, u.dport % 256,
     u.length / 256, u.length % 256, u.csum / 256, u.csum % 256]
  }

  /** `rest` is everything after the UDP header. */
  function Serialized(h: Ip, u: Udp, rest: seq<byte>): (s: seq<byte>)
    requires IpOk(h)
    ensures |s| == 28 + |h.options| + |rest|
  {
    FixedBytes(h) + h.src + h.dst + h.options + UdpBytes(u) + rest
  }

  // ---------------------------------------------------------------------
  // The builder.
  // ---------------------------------------------------------------------

  /** The packet carries `payload` from one address and port to another. */
  ghost predicate IsDatagram(
      pkt: seq<byte>, srcIp: Ip4, srcPort: u16, dstIp: Ip4, dstPort: u16, payload: seq<byte>) {
    && |pkt| == 28 + |payload|
    && pkt[0] == 0x45 && pkt[9] == 17
    && pkt[12..16] == srcIp && pkt[16..20] == dstIp
    && pkt[20] as int * 256 + pkt[21] == srcPort && pkt[22] as int * 256 + pkt[23] == dstPort
    && pkt[28..] == payload
  }

  lemma BytePair(x: u16)
    ensures High(x) == x / 256 && Low(x) == x % 256
  {
  }

  /** A built packet is the one with these fields: no options, "don't fragment" alone set, a time to
      live of 64, and lengths modulo 2^16. */
  lemma {:induction false} BuiltFields(src: Ip4, sport: u16, dst: Ip4, dport: u16, payload: seq<byte>)
    ensures var c, k := StoredIpChecksum(src, dst, |payload|), StoredUdpChecksum(src, sport, dst, dport, payload);
            Packet(src, sport, dst, dport, payload) ==
            Serialized(
              Ip(0, (28 + |payload|) % 0x1_0000, 0, false, true, false, 0, 64, 17, c, src, dst, []),
              Udp(sport, dport, (8 + |payload|) % 0x1_0000, k), payload)
  {
    var c, k := StoredIpChecksum(src, dst, |payload|), StoredUdpChecksum(src, sport, dst, dport, payload);
    CastOutIsModulo(28 + |payload|, 0x1_0000);
    CastOutIsModulo(8 + |payload|, 0x1_0000);
    hide StoredIpChecksum, StoredUdpChecksum, CastOut, High, Low;
    var total: u16, length: u16 := Truncate16(28 + |payload|), Truncate16(8 + |payload|);
    BytePair(total);
    BytePair(length);
    BytePair(c);
    BytePair(k);
    BytePair(sport);
    BytePair(dport);
    var h := Ip(0, total, 0, false, true, false, 0, 64, 17, c, src, dst, []);
    var u := Udp(sport, dport, length, k);
    assert UdpHead(sport, dport, length, k) == UdpBytes(u);
    assert IpHeader(28 + |payload|, src, dst, c) == FixedBytes(h) + src + dst + [];
    assert Packet(src, sport, dst, dport, payload) == Serialized(h, u, payload);
  }

  lemma {:induction false} BuiltDatagram(src: Ip4, sport: u16, dst: Ip4, dport: u16, payload: seq<byte>)
    ensures IsDatagram(Packet(src, sport, dst, dport, payload), src, sport, dst, dport, payload)
  {
    var c, k := StoredIpChecksum(src, dst, |payload|), StoredUdpChecksum(src, sport, dst, dport, payload);
    var h := Ip(0, (28 + |payload|) % 0x1_0000, 0, false, true, false, 0, 64, 17, c, src, dst, []);
    var u := Udp(sport, dport, (8 + |payload|) % 0x1_0000, k);
    hide Packet, Serialized, StoredIpChecksum, StoredUdpChecksum, IsDatagram;
    BuiltFields(src, sport, dst, dport, payload);
    DatagramOfFields(h, u, payload);
  }

  lemma DatagramOfFields(h: Ip, u: Udp, rest: seq<byte>)
    requires IpOk(h) && h.options == [] && h.proto == 17
    ensures IsDatagram(Serialized(h, u, rest), h.src, u.sport, h.dst, u.dport, rest)
  {
    var pkt := Serialized(h, u, rest);
    assert pkt[12..16] == h.src && pkt[16..20] == h.dst && pkt[20..28] == UdpBytes(u) && pkt[28..] == rest;
    assert pkt[20] == pkt[20..28][0] && pkt[21] == pkt[20..28][1];
    assert pkt[22] == pkt[20..28][2] && pkt[23] == pkt[20..28][3];
  }

  // ---------------------------------------------------------------------
  // The parser.
  // ---------------------------------------------------------------------

  /** Where the fields are in the bytes. */
  lemma FieldPositions(h: Ip, u: Udp, rest: seq<byte>)
    requires IpOk(h)
    ensures var pkt, ihl := Serialized(h, u, rest), 20 + |h.options|;
            && pkt[0] == 0x40 + 5 + |h.options| / 4 && pkt[6] == FlagByte(h) && pkt[7] == h.offset % 256
            && pkt[9] == h.proto && pkt[12..16] == h.src && pkt[16..20] == h.dst
            && pkt[ihl..] == UdpBytes(u) + rest
  {
    hide FlagByte;
  }

  lemma FlagsRead(h: Ip)
    requires IpOk(h)
    ensures var w := Word(FlagByte(h), h.offset % 256);
            (w / 0x2000 % 2 == 1 <==> h.mf) && w % 0x2000 == h.offset
  {
    var w := Word(FlagByte(h), h.offset % 256);
    assert w == (Bit(h.reserved, 4) + Bit(h.df, 2) + Bit(h.mf, 1)) * 0x2000 + h.offset;
  }

  lemma HeaderWords(n: nat)
    requires n <= 10
    ensures (0x40 + 5 + n) / 16 == 4 && (0x40 + 5 + n) % 16 * 4 == 20 + 4 * n
  {
  }

  lemma StartOfFields(h: Ip, u: Udp, rest: seq<byte>)
    requires IpOk(h)
    ensures UdpStart(Serialized(h, u, rest)) ==
            if h.proto == 17 && !h.mf && h.offset == 0 then Some(20 + |h.options|) else None
  {
    hide Serialized, FlagByte, Word;
    FieldPositions(h, u, rest);
    FlagsRead(h);
    HeaderWords(|h.options| / 4);
  }

  lemma PortWord(x: u16)
    ensures Word(x / 256, x % 256) == x
  {
  }

  lemma UdpRead(u: Udp, rest: seq<byte>)
    ensures var udp := UdpBytes(u) + rest;
            && Word(udp[0], udp[1]) == u.sport && Word(udp[2], udp[3]) == u.dport && Word(udp[4], udp[5]) == u.length
            && (8 <= u.length <= 8 + |rest| ==> udp[8..u.length] == rest[..u.length - 8])
  {
    hide Word;
    PortWord(u.sport);
    PortWord(u.dport);
    PortWord(u.length);
  }

  /** Every packet of any fields: it parses to its addresses, its ports and the bytes that the UDP
      length counts, exactly when it is an unfragmented UDP packet to port 53 whose length counts
      some bytes and no more than there are. Type of service, identification, reserved and
      "don't fragment" bits, time to live, checksums, options and trailing bytes do not matter. */
  lemma {:induction false} ParsedFields(h: Ip, u: Udp, rest: seq<byte>)
    requires IpOk(h)
    ensures ParseUdpDnsQuery(Serialized(h, u, rest)) ==
            if h.proto == 17 && !h.mf && h.offset == 0 && u.dport == 53 && 8 < u.length <= 8 + |rest|
            then Some(Query(h.src, u.sport, h.dst, u.dport, rest[..u.length - 8]))
            else None
  {
    StartOfFields(h, u, rest);
    FieldPositions(h, u, rest);
    UdpRead(u, rest);
    hide Serialized, FlagByte, Word, UdpStart, UdpBytes;
  }

  lemma TailOf(head: seq<byte>, rest: seq<byte>, end: nat)
    requires |head| <= end <= |head| + |rest|
    ensures (head + rest)[|head|..end] == rest[..end - |head|]
  {
  }

  /** The reader that clamps, on any fields: a length past the end counts all there is. */
  lemma ClampedFields(h: Ip, u: Udp, rest: seq<byte>)
    requires IpOk(h)
    ensures ParseClamping(Serialized(h, u, rest)) ==
            if h.proto == 17 && !h.mf && h.offset == 0 && u.dport == 53 && 8 < u.length && rest != []
            then Some(Query(h.src, u.sport, h.dst, u.dport, rest[..Min(u.length - 8, |rest|)]))
            else None
  {
    StartOfFields(h, u, rest);
    FieldPositions(h, u, rest);
    UdpRead(u, rest);
    hide Serialized, FlagByte, Word, UdpStart, UdpBytes;
    if u.length > 8 {
      TailOf(UdpBytes(u), rest, Min(u.length, 8 + |rest|));
    }
  }

  /** The packet has room for the headers it announces. */
  predicate HasHeaders(pkt: seq<byte>) {
    |pkt| >= 20 && pkt[0] / 16 == 4 && pkt[0] % 16 >= 5 && |pkt| >= pkt[0] % 16 * 4 + 8
  }

  /** Every such packet is one of some fields. */
  lemma FieldsOf(pkt: seq<byte>) returns (h: Ip, u: Udp, rest: seq<byte>)
    requires HasHeaders(pkt)
    ensures IpOk(h) && pkt == Serialized(h, u, rest)
  {
    var ihl := pkt[0] % 16 * 4;
    var f: nat := pkt[6];
    h := Ip(pkt[1], Word(pkt[2], pkt[3]), Word(pkt[4], pkt[5]), f / 128 == 1, f / 64 % 2 == 1, f / 32 % 2 == 1,
            f % 32 * 256 + pkt[7], pkt[8], pkt[9], Word(pkt[10], pkt[11]), pkt[12..16], pkt[16..20], pkt[20..ihl]);
    u := Udp(Word(pkt[ihl], pkt[ihl + 1]), Word(pkt[ihl + 2], pkt[ihl + 3]),
             Word(pkt[ihl + 4], pkt[ihl + 5]), Word(pkt[ihl + 6], pkt[ihl + 7]));
    rest := pkt[ihl + 8..];
    hide Word, FlagByte, FixedBytes, UdpBytes;
    FlagsWritten(pkt[6], pkt[7], h);
    FixedRead(pkt, h);
    UdpWritten(pkt, ihl, u);
    SixParts(pkt, ihl);
  }

  lemma WordBytes(hi: byte, lo: byte)
    ensures Word(hi, lo) / 256 == hi && Word(hi, lo) % 256 == lo
  {
  }

  /** The flags and the offset read from their two bytes give these back. */
  lemma FlagsWritten(f: byte, low: byte, h: Ip)
    requires IpOk(h) && h.offset == (f % 32) as int * 256 + low
    requires h.reserved == (f / 128 == 1) && h.df == (f / 64 % 2 == 1) && h.mf == (f / 32 % 2 == 1)
    ensures FlagByte(h) == f && h.offset % 256 == low
  {
    assert h.offset / 256 == f % 32;
  }

  lemma FixedRead(pkt: seq<byte>, h: Ip)
    requires HasHeaders(pkt) && IpOk(h) && |h.options| == pkt[0] % 16 * 4 - 20
    requires h.tos == pkt[1] && h.length == Word(pkt[2], pkt[3]) && h.id == Word(pkt[4], pkt[5])
    requires FlagByte(h) == pkt[6] && h.offset % 256 == pkt[7]
    requires h.ttl == pkt[8] && h.proto == pkt[9] && h.csum == Word(pkt[10], pkt[11])
    ensures FixedBytes(h) == pkt[..12]
  {
    hide Word, FlagByte;
    WordBytes(pkt[2], pkt[3]);
    WordBytes(pkt[4], pkt[5]);
    WordBytes(pkt[10], pkt[11]);
  }

  lemma UdpWritten(pkt: seq<byte>, at: nat, u: Udp)
    requires at + 8 <= |pkt|
    requires u.sport == Word(pkt[at], pkt[at + 1]) && u.dport == Word(pkt[at + 2], pkt[at + 3])
    requires u.length == Word(pkt[at + 4], pkt[at + 5]) && u.csum == Word(pkt[at + 6], pkt[at + 7])
    ensures UdpBytes(u) == pkt[at..at + 8]
  {
    hide Word;
    WordBytes(pkt[at], pkt[at + 1]);
    WordBytes(pkt[at + 2], pkt[at + 3]);
    WordBytes(pkt[at + 4], pkt[at + 5]);
    WordBytes(pkt[at + 6], pkt[at + 7]);
  }

  lemma SixParts(pkt: seq<byte>, ihl: nat)
    requires 20 <= ihl && ihl + 8 <= |pkt|
    ensures pkt == pkt[..12] + pkt[12..16] + pkt[16..20] + pkt[20..ihl] + pkt[ihl..ihl + 8] + pkt[ihl + 8..]
  {
  }

  lemma NoHeadersRefused(pkt: seq<byte>)
    requires !HasHeaders(pkt)
    ensures ParseUdpDnsQuery(pkt) == None
  {
  }

  /** Some fields of an unfragmented query to port 53 whose payload is followed by `trailing`. */
  ghost predicate QueryFields(h: Ip, u: Udp, payload: seq<byte>, q: Query) {
    && IpOk(h) && h.proto == 17 && !h.mf && h.offset == 0
    && u.dport == 53 && u.length == 8 + |payload| && payload != []
    && q == Query(h.src, u.sport, h.dst, u.dport, payload)
  }

  /** All packets: what is accepted, and as what, is exactly what such fields serialize to. */
  lemma {:induction false} AcceptedIff(pkt: seq<byte>, q: Query)
    ensures ParseUdpDnsQuery(pkt) == Some(q) <==>
              exists h: Ip, u: Udp, payload: seq<byte>, trailing: seq<byte> ::
                QueryFields(h, u, payload, q) && pkt == Serialized(h, u, payload + trailing)
  {
    hide Serialized, ParseUdpDnsQuery;
    if ParseUdpDnsQuery(pkt) == Some(q) {
      if HasHeaders(pkt) {
        AcceptedFields(pkt, q);
      } else {
        NoHeadersRefused(pkt);
      }
    }
    forall h: Ip, u: Udp, payload: seq<byte>, trailing: seq<byte>
      | QueryFields(h, u, payload, q) && pkt == Serialized(h, u, payload + trailing)
      ensures ParseUdpDnsQuery(pkt) == Some(q)
    {
      ParsedFields(h, u, payload + trailing);
      assert (payload + trailing)[..|payload|] == payload;
    }
  }

  lemma AcceptedFields(pkt: seq<byte>, q: Query)
    requires HasHeaders(pkt) && ParseUdpDnsQuery(pkt) == Some(q)
    ensures exists h: Ip, u: Udp, payload: seq<byte>, trailing: seq<byte> ::
              QueryFields(h, u, payload, q) && pkt == Serialized(h, u, payload + trailing)
  {
    hide Serialized, ParseUdpDnsQuery;
    var h, u, rest := FieldsOf(pkt);
    ParsedFields(h, u, rest);
    var payload, trailing := rest[..u.length - 8], rest[u.length - 8..];
    assert payload + trailing == rest;
    assert QueryFields(h, u, payload, q);
  }
}
