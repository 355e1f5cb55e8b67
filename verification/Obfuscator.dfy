/** Carrier shaping: the QUIC short-header look-alike and the choice between it and base64. */
module Obfuscation {
  import opened Bits
  import opened Common
  import Base64

  /** Packet-number bytes emitted; a peer may use 1 to 4. */
  const PN_LEN: nat := 2

  /** `rnd & 0x3C`. */
  function MiddleBits(rnd: byte): byte {
    rnd / 4 % 16 * 4
  }

  lemma MiddleBitsIsMask(rnd: byte)
    ensures And(rnd, 0x3C) == MiddleBits(rnd)
  {
    hide And;
    AndDoubled(rnd, 30);
    AndDoubled(rnd / 2, 15);
    AndFifteen(rnd / 2 / 2);
  }

  lemma AndDoubled(x: nat, m: nat)
    ensures And(x, 2 * m) == 2 * And(x / 2, m)
  {
    AndEven(x, m);
  }

  lemma AndFifteen(x: nat)
    ensures And(x, 15) == x % 16
  {
    AndLowFour(x / 2 / 2 / 2);
    assert 15 / 2 == 7 && 7 / 2 == 3 && 3 / 2 == 1 && 1 / 2 == 0;
    assert And(x / 2 / 2, 3) == 2 * And(x / 2 / 2 / 2, 1) + x / 2 / 2 % 2;
    assert And(x / 2, 7) == 2 * And(x / 2 / 2, 3) + x / 2 % 2;
    assert And(x, 15) == 2 * And(x / 2, 7) + x % 2;
  }

  lemma AndLowFour(x: nat)
    ensures And(x, 1) == x % 2
  {
  }

  /** The three parts of the head have no bit in common. */
  lemma HeadBits(rnd: byte, pnLen: nat)
    requires 1 <= pnLen <= 4
    ensures And(pnLen - 1, 0x03) == pnLen - 1
    ensures Or(Or(0x40, And(rnd, 0x3C)), pnLen - 1) == 0x40 + MiddleBits(rnd) + (pnLen - 1)
  {
    hide Or;
    MiddleBitsIsMask(rnd);
    MiddleApart(rnd / 4 % 16);
    OrDisjoint(0x40, MiddleBits(rnd));
    LowApart(16 + rnd / 4 % 16, pnLen - 1);
    OrDisjoint(0x40 + MiddleBits(rnd), pnLen - 1);
  }

  lemma MiddleApart(b: nat)
    requires b < 16
    ensures And(0x40, b * 4) == 0
  {
    hide And;
    AndEven(0x40, 2 * b);
    AndEven(0x20, b);
    AndSixteen(b);
  }

  lemma AndSixteen(b: nat)
    requires b < 16
    ensures And(16, b) == 0
  {
    assert And(16, b) == 2 * And(8, b / 2);
    assert And(8, b / 2) == 2 * And(4, b / 2 / 2);
    assert And(4, b / 2 / 2) == 2 * And(2, b / 2 / 2 / 2);
    assert And(2, b / 2 / 2 / 2) == 2 * And(1, 0);
  }

  lemma LowApart(a: nat, b: nat)
    requires b < 4
    ensures And(a * 4, b) == 0 && And(b, 0x03) == b
  {
    assert And(a * 4, b) == 2 * And(a * 2, b / 2);
    assert And(a * 2, b / 2) == 2 * And(a, 0);
    assert And(b, 0x03) == 2 * And(b / 2, 1) + b % 2;
  }

  /** The masks and the ors of the source on one byte. */
  function HeadByte(rnd: byte, pnLen: nat): (head: byte)
    requires 1 <= pnLen <= 4
    ensures head == FirstByte(rnd, pnLen)
  {
    HeadBits(rnd, pnLen);
    Or(Or(0x40, And(rnd, 0x3C)), And(pnLen - 1, 0x03))
  }

  /** Form bit clear, fixed bit set, random middle bits, packet-number length minus one. */
  function FirstByte(rnd: byte, pnLen: nat): byte
    requires 1 <= pnLen <= 4
  {
    0x40 + MiddleBits(rnd) + (pnLen - 1)
  }

  /** The last `pnLen` of the four big-endian bytes of the packet number. */
  function PnBytes(pn: u32, pnLen: nat): (s: seq<byte>)
    requires 1 <= pnLen <= 4
    ensures |s| == pnLen
  {
    [Shr(pn, 24) % 256, Shr(pn, 16) % 256, Shr(pn, 8) % 256, pn % 256][4 - pnLen..]
  }

  lemma WholeShifts(n: u32)
    ensures Shr(n, 8) == n / 0x100 && Shr(n, 16) == n / 0x1_0000 && Shr(n, 24) == n / 0x100_0000
  {
    hide Shr;
    P2Values();
    ShrBounds(n, 8);
    ShrBounds(n, 16);
    ShrBounds(n, 24);
  }

  lemma BigEndianStep(s: seq<byte>, d: byte)
    ensures BigEndian(s + [d]) == BigEndian(s) * 256 + d as int
  {
    assert (s + [d])[..|s|] == s;
  }

  lemma FourBytesSpell(a: byte, b: byte, c: byte, d: byte)
    ensures BigEndian([d]) == d as int && BigEndian([c, d]) == c * 0x100 + d
    ensures BigEndian([b, c, d]) == b * 0x1_0000 + c * 0x100 + d
    ensures BigEndian([a, b, c, d]) == a * 0x100_0000 + b * 0x1_0000 + c * 0x100 + d
  {
    assert BigEndian([]) == 0;
    hide BigEndian;
    SpellOn([], 0, a, b, c, d);
    SpellOn([], 0, b, c, d, 0);
    SpellOn([], 0, c, d, 0, 0);
    SpellOn([], 0, d, 0, 0, 0);
    assert [] + [a, b, c, d] == [a, b, c, d] && [] + [b, c, d] == [b, c, d];
    assert [] + [c, d] == [c, d] && [] + [d] == [d];
  }

  lemma SpellOn(s: seq<byte>, v: nat, a: byte, b: byte, c: byte, d: byte)
    requires BigEndian(s) == v
    ensures BigEndian(s + [a]) == v * 0x100 + a
    ensures BigEndian(s + [a, b]) == v * 0x1_0000 + a * 0x100 + b
    ensures BigEndian(s + [a, b, c]) == v * 0x100_0000 + a * 0x1_0000 + b * 0x100 + c
    ensures BigEndian(s + [a, b, c, d]) == v * TWO32 + a * 0x100_0000 + b * 0x1_0000 + c * 0x100 + d
  {
    hide BigEndian;
    BigEndianStep(s, a);
    BigEndianStep(s + [a], b);
    BigEndianStep(s + [a, b], c);
    BigEndianStep(s + [a, b, c], d);
    assert s + [a] + [b] == s + [a, b] && s + [a, b] + [c] == s + [a, b, c];
    assert s + [a, b, c] + [d] == s + [a, b, c, d];
  }

  lemma BytesMakeUp(n: u32)
    ensures n % 0x1_0000 == n / 0x100 % 256 * 0x100 + n % 256
    ensures n % 0x100_0000 == n / 0x1_0000 % 256 * 0x1_0000 + n / 0x100 % 256 * 0x100 + n % 256
    ensures n == n / 0x100_0000 % 256 * 0x100_0000 + n / 0x1_0000 % 256 * 0x1_0000 + n / 0x100 % 256 * 0x100 + n % 256
  {
  }

  lemma TailsOfFour(a: byte, b: byte, c: byte, d: byte)
    ensures [a, b, c, d][3..] == [d] && [a, b, c, d][2..] == [c, d]
    ensures [a, b, c, d][1..] == [b, c, d] && [a, b, c, d][0..] == [a, b, c, d]
  {
  }

  lemma PnBytesByQuotients(pn: u32, pnLen: nat)
    requires 1 <= pnLen <= 4
    ensures PnBytes(pn, pnLen)
         == [pn / 0x100_0000 % 256, pn / 0x1_0000 % 256, pn / 0x100 % 256, pn % 256][4 - pnLen..]
  {
    hide Shr;
    WholeShifts(pn);
  }

  /** The number bytes spell the packet number modulo 256 for each of them. */
  lemma {:induction false} PnValue(pn: u32, pnLen: nat)
    requires 1 <= pnLen <= 4
    ensures BigEndian(PnBytes(pn, pnLen)) == pn % P2(8 * pnLen)
  {
    hide PnBytes, P2, BigEndian;
    var b0: byte, b1: byte := pn / 0x100_0000 % 256, pn / 0x1_0000 % 256;
    var b2: byte, b3: byte := pn / 0x100 % 256, pn % 256;
    P2Values();
    PnBytesByQuotients(pn, pnLen);
    TailsOfFour(b0, b1, b2, b3);
    FourBytesSpell(b0, b1, b2, b3);
    BytesMakeUp(pn);
  }

  function QuicPacket(dcid: seq<byte>, pn: u32, pnLen: nat, rnd: byte, datagram: seq<byte>): seq<byte>
    requires 1 <= pnLen <= 4
  {
    [FirstByte(rnd, pnLen)] + dcid + PnBytes(pn, pnLen) + datagram
  }

  /** `QuicObfs::unwrap`, which needs only the length of the connection id. */
  function QuicUnwrap(dcidLen: nat, pkt: seq<byte>): Option<seq<byte>> {
    if pkt == [] then None
    else if pkt[0] / 128 % 2 != 0 || pkt[0] / 64 % 2 == 0 then None
    else
      var hdr := 1 + dcidLen + (pkt[0] % 4 + 1);
      if |pkt| < hdr then None else Some(pkt[hdr..])
  }

  /** The number in the two bytes behind the connection id. */
  function NumberOf(pkt: seq<byte>, dcidLen: nat): nat {
    if |pkt| < 3 + dcidLen then 0 else BigEndian(pkt[1 + dcidLen..3 + dcidLen])
  }

  /** The parts of a wrapped datagram, read off its bytes. */
  lemma {:induction false} WrappedBytes(dcid: seq<byte>, pn: u32, rnd: byte, datagram: seq<byte>)
    ensures var out := QuicPacket(dcid, pn, PN_LEN, rnd, datagram);
            && |out| == 3 + |dcid| + |datagram| && out[1..1 + |dcid|] == dcid && out[3 + |dcid|..] == datagram
            && out[0] / 64 == 1 && out[0] / 4 % 16 == rnd / 4 % 16 && out[0] % 4 == 1
            && NumberOf(out, |dcid|) == pn % 0x1_0000
  {
    hide FirstByte, PnBytes, BigEndian, P2;
    PnValue(pn, PN_LEN);
    P2Values();
    FirstByteParts(rnd);
    var out := QuicPacket(dcid, pn, PN_LEN, rnd, datagram);
    assert out == [FirstByte(rnd, PN_LEN)] + dcid + PnBytes(pn, PN_LEN) + datagram;
    assert out[1 + |dcid|..3 + |dcid|] == PnBytes(pn, PN_LEN);
  }

  lemma FirstByteParts(rnd: byte)
    ensures FirstByte(rnd, PN_LEN) / 64 == 1 && FirstByte(rnd, PN_LEN) / 4 % 16 == rnd / 4 % 16
    ensures FirstByte(rnd, PN_LEN) % 4 == 1
  {
  }

  class QuicObfs {
    const dcid: seq<byte>
    var pn: u32

    constructor (dcid: seq<byte>, seed: u32)
      ensures this.dcid == dcid && pn == seed
    {
      this.dcid := dcid;
      pn := seed;
    }

    /** `wrap`: the counter advances and wraps at 2^32; `rnd` is the random byte drawn. */
    method Wrap(datagram: seq<byte>, rnd: byte) returns (out: seq<byte>)
      modifies this`pn
      ensures pn == (old(pn) + 1) % TWO32
      ensures out == QuicPacket(dcid, old(pn), PN_LEN, rnd, datagram)
      ensures |out| == 3 + |dcid| + |datagram| && out[1..1 + |dcid|] == dcid && out[3 + |dcid|..] == datagram
      ensures out[0] / 64 == 1 && out[0] / 4 % 16 == rnd / 4 % 16 && out[0] % 4 == 1
      ensures NumberOf(out, |dcid|) == old(pn) % 0x1_0000
    {
      hide NumberOf, BigEndian, PnBytes, FirstByte;
      WrappedBytes(dcid, pn, rnd, datagram);
      var number := pn;
      pn := (pn + 1) % TWO32;
      out := [HeadByte(rnd, PN_LEN)];
      out := out + dcid;
      out := out + PnBytes(number, PN_LEN);
      out := out + datagram;
    }
  }

  lemma NextNumber(pn: u32)
    ensures (pn + 1) % TWO32 % 0x1_0000 == (pn % 0x1_0000 + 1) % 0x1_0000
  {
  }

  /** Two datagrams wrapped one after the other carry consecutive packet numbers, as a real
      connection's do, whatever the counter started from. */
  method WrapTwo(obfs: QuicObfs, first: seq<byte>, second: seq<byte>, rnd1: byte, rnd2: byte)
    returns (a: seq<byte>, b: seq<byte>)
    modifies obfs`pn
    ensures |a| == 3 + |obfs.dcid| + |first| && |b| == 3 + |obfs.dcid| + |second|
    ensures NumberOf(b, |obfs.dcid|) == (NumberOf(a, |obfs.dcid|) + 1) % 0x1_0000
  {
    hide NumberOf, QuicPacket;
    NextNumber(obfs.pn);
    a := obfs.Wrap(first, rnd1);
    b := obfs.Wrap(second, rnd2);
  }

  /** Unwrapping undoes wrapping for any packet number, random bits and packet-number length. */
  lemma {:induction false} QuicRoundTrip(dcid: seq<byte>, pn: u32, pnLen: nat, rnd: byte, datagram: seq<byte>)
    requires 1 <= pnLen <= 4
    ensures QuicUnwrap(|dcid|, QuicPacket(dcid, pn, pnLen, rnd, datagram)) == Some(datagram)
    ensures |QuicPacket(dcid, pn, pnLen, rnd, datagram)| == 1 + |dcid| + pnLen + |datagram|
  {
    hide PnBytes;
    var pkt := QuicPacket(dcid, pn, pnLen, rnd, datagram);
    FirstByteFields(rnd, pnLen);
    assert pkt[0] == FirstByte(rnd, pnLen);
    assert pkt[1 + |dcid| + pnLen..] == datagram;
  }

  lemma FirstByteFields(rnd: byte, pnLen: nat)
    requires 1 <= pnLen <= 4
    ensures FirstByte(rnd, pnLen) / 128 % 2 == 0 && FirstByte(rnd, pnLen) / 64 % 2 == 1
    ensures FirstByte(rnd, pnLen) % 4 == pnLen - 1
  {
  }

  /** Every byte with the two form bits is the first byte some random byte gives. */
  lemma HeadIsFirstByte(head: byte)
    requires 0x40 <= head < 0x80
    ensures FirstByte(head, head % 4 + 1) == head
  {
  }

  /** Any bytes are the tail of some packet number. */
  lemma PnOfBytes(bs: seq<byte>) returns (pn: u32)
    requires 1 <= |bs| <= 4
    ensures PnBytes(pn, |bs|) == bs
  {
    hide Shr;
    var all := seq(4 - |bs|, _ => 0) + bs;
    assert all[4 - |bs|..] == bs;
    pn := BytesOfNumber(all[0], all[1], all[2], all[3]);
    assert [Shr(pn, 24) % 256, Shr(pn, 16) % 256, Shr(pn, 8) % 256, pn % 256] == all;
  }

  /** What is accepted: exactly the packets a peer can have made of the result, with some
      connection id of that length, packet number, packet-number length and random byte. */
  lemma {:induction false} QuicAccepts(dcidLen: nat, pkt: seq<byte>, datagram: seq<byte>)
    ensures QuicUnwrap(dcidLen, pkt) == Some(datagram) <==>
              exists dcid: seq<byte>, pn: u32, pnLen: nat, rnd: byte ::
                |dcid| == dcidLen && 1 <= pnLen <= 4 && pkt == QuicPacket(dcid, pn, pnLen, rnd, datagram)
  {
    hide PnBytes, QuicPacket;
    if QuicUnwrap(dcidLen, pkt) == Some(datagram) {
      AcceptedWasWrapped(dcidLen, pkt, datagram);
    }
    forall dcid: seq<byte>, pn: u32, pnLen: nat, rnd: byte
      | |dcid| == dcidLen && 1 <= pnLen <= 4 && pkt == QuicPacket(dcid, pn, pnLen, rnd, datagram)
      ensures QuicUnwrap(dcidLen, pkt) == Some(datagram)
    {
      QuicRoundTrip(dcid, pn, pnLen, rnd, datagram);
    }
  }

  lemma AcceptedWasWrapped(dcidLen: nat, pkt: seq<byte>, datagram: seq<byte>)
    requires QuicUnwrap(dcidLen, pkt) == Some(datagram)
    ensures exists dcid: seq<byte>, pn: u32, pnLen: nat, rnd: byte ::
              |dcid| == dcidLen && 1 <= pnLen <= 4 && pkt == QuicPacket(dcid, pn, pnLen, rnd, datagram)
  {
    hide PnBytes, FirstByte;
    var head, pnLen := pkt[0], pkt[0] % 4 + 1;
    HeadIsFirstByte(head);
    var dcid := pkt[1..1 + dcidLen];
    var number := pkt[1 + dcidLen..1 + dcidLen + pnLen];
    var pn := PnOfBytes(number);
    assert pkt == [head] + dcid + number + datagram;
    assert pkt == QuicPacket(dcid, pn, pnLen, head, datagram);
  }

  // ---------------------------------------------------------------------
  // The choice of shaping.
  // ---------------------------------------------------------------------

  datatype Shape = Quic(dcid: seq<byte>) | Base64Text

  /** What `wrap` may put on the wire. */
  function Wrapped(shape: Shape, pn: u32, rnd: byte, datagram: seq<byte>): seq<byte> {
    match shape
    case Quic(dcid) => QuicPacket(dcid, pn, PN_LEN, rnd, datagram)
    case Base64Text => Base64.EncodeSpec(datagram)
  }

  function Unwrapped(shape: Shape, pkt: seq<byte>): Option<seq<byte>> {
    match shape
    case Quic(dcid) => QuicUnwrap(|dcid|, pkt)
    case Base64Text => Base64.DecodeSpec(pkt)
  }

  /** Both shapings are undone by the peer that selected the same one. */
  lemma {:induction false} ShapeRoundTrip(shape: Shape, pn: u32, rnd: byte, datagram: seq<byte>)
    ensures Unwrapped(shape, Wrapped(shape, pn, rnd, datagram)) == Some(datagram)
  {
    hide QuicPacket, QuicUnwrap, Base64.EncodeSpec, Base64.DecodeSpec;
    match shape
    case Quic(dcid) => QuicRoundTrip(dcid, pn, PN_LEN, rnd, datagram);
    case Base64Text => Base64.DecodeEncode(datagram);
  }
}
