/** The one's-complement checksums of the packet builder (sections 1 and 2 of RFC 1071, RFC 768),
    with the source's 32-bit running sums. */
module InternetChecksum {
  import opened Bits

  /** The four octets of an IPv4 address. */
  type Ip4 = s: seq<byte> | |s| == 4 witness [0, 0, 0, 0]

  const PROTO_UDP: byte := 17

  /** Sum of the 16-bit big-endian words, an odd last byte being the high half of its word. */
  function WordSum(data: seq<byte>): nat {
    if |data| == 0 then 0
    else if |data| == 1 then data[0] * 256
    else Word(data[0], data[1]) + WordSum(data[2..])
  }

  /** A one's complement sum after all carries are folded back: 65535 is cast out. */
  function Norm(n: nat): u16 {
    if n <= 65535 then n else Norm(n - 65535)
  }

  /** It is the value in 0..65535 that is congruent to n modulo 65535, and 0 only for 0. */
  lemma {:induction false} NormSpec(n: nat)
    ensures Norm(n) == 0 <==> n == 0
    ensures Norm(n) % 65535 == n % 65535
  {
    if n > 65535 { NormSpec(n - 65535); }
  }

  lemma NormUnique(n: nat, r: u16)
    requires (r == 0 <==> n == 0) && r % 65535 == n % 65535
    ensures r == Norm(n)
  {
    hide Norm;
    NormSpec(n);
  }

  /** Folding the carries of a 32-bit sum back in terminates, with the one's-complement residue. */
  method FoldCarries(start: u32) returns (r: u16)
    ensures r == Norm(start)
  {
    var sum: u32 := start;
    while sum / 0x1_0000 != 0
      invariant sum == 0 <==> start == 0
      invariant sum % 65535 == start % 65535
      decreases sum
    {
      FoldStep(sum);
      sum := sum % 0x1_0000 + sum / 0x1_0000;
    }
    NormUnique(start, sum);
    r := sum;
  }

  lemma FoldStep(sum: nat)
    ensures (sum % 0x1_0000 + sum / 0x1_0000) % 65535 == sum % 65535
  {
    var q, r := sum / 0x1_0000, sum % 0x1_0000;
    assert sum == q * 65535 + (q + r);
    ModMultiple(q, q + r);
  }

  lemma {:induction false} ModMultiple(q: nat, x: nat)
    ensures (q * 65535 + x) % 65535 == x % 65535
  {
    if q > 0 {
      ModMultiple(q - 1, x);
      assert q * 65535 + x == ((q - 1) * 65535 + x) + 65535;
    }
  }

  /** The 32 bits of a sum. */
  function Wrap32(n: nat): u32 {
    CastOut(n, TWO32)
  }

  lemma WrapIsModulo(n: nat)
    ensures Wrap32(n) == n % TWO32
  {
    CastOutIsModulo(n, TWO32);
  }

  lemma WrapAdd(a: nat, b: nat)
    ensures (a % TWO32 + b) % TWO32 == (a + b) % TWO32
  {
  }

  /** The loop shared by both checksums: add the words of `data` to a 32-bit sum that wraps. */
  method AddWords(start: u32, data: seq<byte>) returns (sum: u32)
    ensures sum == (start + WordSum(data)) % TWO32
  {
    sum := start;
    var i := 0;
    while i + 2 <= |data|
      invariant 0 <= i <= |data|
      invariant (sum + WordSum(data[i..])) % TWO32 == (start + WordSum(data)) % TWO32
    {
      assert data[i..][2..] == data[i + 2..];
      WrapAdd(sum + Word(data[i], data[i + 1]), WordSum(data[i + 2..]));
      sum := (sum + Word(data[i], data[i + 1])) % TWO32;
      i := i + 2;
    }
    if i < |data| {
      var last: int := data[i];
      sum := (sum + last * 256) % TWO32;
    }
  }

  /** `checksum` as a function of its bytes. */
  function ChecksumOf(data: seq<byte>): u16 {
    65535 - Norm(Wrap32(WordSum(data)))
  }

  method Checksum(data: seq<byte>) returns (c: u16)
    ensures c == ChecksumOf(data)
  {
    var sum := AddWords(0, data);
    WrapIsModulo(WordSum(data));
    var folded := FoldCarries(sum);
    c := 65535 - folded;
  }

  /** The pseudo-header: both addresses, the protocol and the segment length. */
  function PseudoSum(src: Ip4, dst: Ip4, length: nat): nat {
    Word(src[0], src[1]) + Word(src[2], src[3]) + Word(dst[0], dst[1]) + Word(dst[2], dst[3])
    + PROTO_UDP + Wrap32(length)
  }

  function UdpChecksumOf(src: Ip4, dst: Ip4, udp: seq<byte>): u16 {
    65535 - Norm(Wrap32(PseudoSum(src, dst, |udp|) + WordSum(udp)))
  }

  /** The twelve octets of the pseudo-header. */
  function PseudoHeader(src: Ip4, dst: Ip4, length: u16): (s: seq<byte>)
    ensures |s| == 12
  {
    src + dst + [0, 17, length / 256, length % 256]
  }

  lemma {:induction false} WordSumConcat(a: seq<byte>, b: seq<byte>)
    requires |a| % 2 == 0
    ensures WordSum(a + b) == WordSum(a) + WordSum(b)
    decreases |a|
  {
    if a == [] {
      assert a + b == b;
    } else {
      assert (a + b)[2..] == a[2..] + b;
      WordSumConcat(a[2..], b);
    }
  }

  lemma FourOctets(s: Ip4)
    ensures WordSum(s) == Word(s[0], s[1]) + Word(s[2], s[3])
  {
    hide Word;
    assert s[2..][2..] == [];
    assert WordSum(s[2..]) == Word(s[2], s[3]) + WordSum([]);
  }

  /** The sum the source starts from is that of the pseudo-header, so its UDP checksum is the internet
      checksum of the pseudo-header with the segment behind it. */
  lemma {:induction false} PseudoHeaderSum(src: Ip4, dst: Ip4, udp: seq<byte>)
    requires |udp| < 0x1_0000
    ensures PseudoSum(src, dst, |udp|) == WordSum(PseudoHeader(src, dst, |udp|))
    ensures UdpChecksumOf(src, dst, udp) == ChecksumOf(PseudoHeader(src, dst, |udp|) + udp)
  {
    hide WordSum, Norm, CastOut;
    var length: u16 := |udp|;
    var tail: Ip4 := [0, 17, length / 256, length % 256];
    FourOctets(src);
    FourOctets(dst);
    FourOctets(tail);
    WordSumConcat(src, dst);
    WordSumConcat(src + dst, tail);
    WordSumConcat(PseudoHeader(src, dst, length), udp);
    SmallWrap(length);
    assert Word(tail[2], tail[3]) == length;
  }

  lemma SmallWrap(length: u16)
    ensures Wrap32(length) == length
  {
  }

  method AddPseudoHeader(src: Ip4, dst: Ip4, length: nat) returns (sum: u32)
    ensures sum == PseudoSum(src, dst, length) % TWO32
  {
    hide Word;
    sum := Word(src[0], src[1]);
    sum := sum + Word(src[2], src[3]);
    sum := sum + Word(dst[0], dst[1]);
    sum := sum + Word(dst[2], dst[3]);
    sum := sum + PROTO_UDP;
    sum := (sum + Wrap32(length)) % TWO32;
  }

  method UdpChecksum(src: Ip4, dst: Ip4, udp: seq<byte>) returns (c: u16)
    ensures c == UdpChecksumOf(src, dst, udp)
  {
    hide WordSum, PseudoSum, Norm;
    var sum := AddPseudoHeader(src, dst, |udp|);
    WrapAdd(PseudoSum(src, dst, |udp|), WordSum(udp));
    sum := AddWords(sum, udp);
    WrapIsModulo(PseudoSum(src, dst, |udp|) + WordSum(udp));
    var folded := FoldCarries(sum);
    c := 65535 - folded;
  }

  // ---------------------------------------------------------------------
  // No overflow, and what a zero result means.
  // ---------------------------------------------------------------------

  lemma {:induction false} WordSumBound(data: seq<byte>)
    ensures WordSum(data) <= (|data| + 1) / 2 * 65535
    decreases |data|
  {
    if |data| >= 2 {
      WordSumBound(data[2..]);
    }
  }

  /** Longest input an IPv4 packet can hold, header included. */
  const MAX_PACKET: nat := 65535

  /** The running sums stay within 32 bits for anything that fits an IPv4 packet. */
  lemma {:induction false} SumsFit(src: Ip4, dst: Ip4, data: seq<byte>)
    requires |data| <= MAX_PACKET
    ensures WordSum(data) < TWO32
    ensures 0 < PseudoSum(src, dst, |data|) + WordSum(data) < TWO32
  {
    WordSumBound(data);
    assert (|data| + 1) / 2 <= 32768;
  }

  lemma ZeroMeans(n: nat)
    ensures 65535 - Norm(n) == 0 <==> n > 0 && n % 65535 == 0
  {
    hide Norm;
    NormSpec(n);
  }

  /** Changing one byte shifts the sum by the difference, times 256 in an even position. */
  lemma {:induction false} WordSumUpdate(data: seq<byte>, i: nat, v: byte)
    requires i < |data|
    ensures WordSum(data[i := v]) == WordSum(data) + (v - data[i]) * (if i % 2 == 0 then 256 else 1)
    decreases |data|
  {
    var after := data[i := v];
    if i >= 2 {
      WordSumUpdate(data[2..], i - 2, v);
      assert after[2..] == data[2..][i - 2 := v];
    } else if |data| >= 2 {
      assert after[2..] == data[2..];
    }
  }

  lemma ByteShiftVisible(sum: nat, delta: int, weight: int)
    requires sum % 65535 == 0 && -255 <= delta <= 255 && delta != 0
    requires weight == 1 || weight == 256
    requires sum + delta * weight >= 0
    ensures (sum + delta * weight) % 65535 != 0
  {
    var d := delta * weight;
    assert -65280 <= d <= 65280 && d != 0;
    assert sum == sum / 65535 * 65535;
    NotMultiple(sum / 65535, d);
  }

  lemma NotMultiple(q: int, d: int)
    requires -65535 < d < 65535 && d != 0
    ensures (q * 65535 + d) % 65535 != 0
  {
    if d > 0 {
      ModIs(q, d);
    } else {
      ModIs(q - 1, d + 65535);
    }
  }

  lemma ModIs(q: int, r: nat)
    requires r < 65535
    ensures (q * 65535 + r) % 65535 == r
  {
  }

  lemma {:induction false} ByteBreaksSum(base: nat, data: seq<byte>, i: nat, v: byte)
    requires i < |data| && v != data[i] && (base + WordSum(data)) % 65535 == 0
    ensures (base + WordSum(data[i := v])) % 65535 != 0
  {
    hide WordSum;
    WordSumUpdate(data, i, v);
    ByteShiftVisible(base + WordSum(data), v - data[i], if i % 2 == 0 then 256 else 1);
  }

  /** A header that checks to zero no longer does after any one-byte change. */
  lemma {:induction false} ChecksumDetectsByte(data: seq<byte>, i: nat, v: byte)
    requires |data| <= MAX_PACKET && ChecksumOf(data) == 0
    requires i < |data| && v != data[i]
    ensures ChecksumOf(data[i := v]) != 0
  {
    hide WordSum;
    SumsFit([0, 0, 0, 0], [0, 0, 0, 0], data);
    SumsFit([0, 0, 0, 0], [0, 0, 0, 0], data[i := v]);
    ZeroMeans(WordSum(data));
    ZeroMeans(WordSum(data[i := v]));
    ByteBreaksSum(0, data, i, v);
  }

  lemma {:induction false} UdpChecksumDetectsByte(src: Ip4, dst: Ip4, udp: seq<byte>, i: nat, v: byte)
    requires |udp| <= MAX_PACKET && UdpChecksumOf(src, dst, udp) == 0
    requires i < |udp| && v != udp[i]
    ensures UdpChecksumOf(src, dst, udp[i := v]) != 0
  {
    hide WordSum, PseudoSum, Norm;
    SumsFit(src, dst, udp);
    SumsFit(src, dst, udp[i := v]);
    var p := PseudoSum(src, dst, |udp|);
    ZeroMeans(p + WordSum(udp));
    ZeroMeans(p + WordSum(udp[i := v]));
    ByteBreaksSum(p, udp, i, v);
  }

  /** Writing the complement of a sum into a zero word makes the sum a multiple of 65535. */
  lemma ComplementCompletes(sum: nat)
    requires sum > 0
    ensures (sum + (65535 - Norm(sum))) % 65535 == 0
  {
    hide Norm;
    NormSpec(sum);
    var r := Norm(sum);
    assert (sum - r) % 65535 == 0 by { Congruent(sum, r); }
    Congruent65535(sum - r);
  }

  lemma Congruent(a: nat, b: nat)
    requires a % 65535 == b % 65535
    ensures (a - b) % 65535 == 0
  {
    assert a - b == (a / 65535 - b / 65535) * 65535;
  }

  lemma Congruent65535(d: int)
    requires d % 65535 == 0
    ensures (d + 65535) % 65535 == 0
  {
  }

  /** Storing a word in an all-zero even slot adds that word. */
  lemma {:induction false} WordSumStore(data: seq<byte>, i: nat, c: u16)
    requires i + 1 < |data| && i % 2 == 0 && data[i] == 0 && data[i + 1] == 0
    ensures WordSum(data[i := High(c)][i + 1 := Low(c)]) == WordSum(data) + c
  {
    hide WordSum;
    WordSumUpdate(data, i, High(c));
    WordSumUpdate(data[i := High(c)], i + 1, Low(c));
  }
}
