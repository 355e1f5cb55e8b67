/** Taking the tunnel's /30 out of a private /8: the sibling halves met on the way down. */
module SupernetWalk {
  import opened Bits
  import opened Common
  import opened Cidrs
  import opened DottedText
  import opened TunnelSettings

  /** The block of length `len` that contains `ip`. */
  function Half(ip: u32, len: nat): Cidr
    requires len <= 32
  {
    ShrBounds(ip, 32 - len);
    Cidr(FloorTo(ip, 32 - len), len)
  }

  function OtherHalf(q: nat): nat {
    if q % 2 == 1 then q - 1 else q + 1
  }

  /** The other half of the block one shorter. */
  function Sibling(ip: u32, len: nat): (c: Cidr)
    requires 1 <= len <= 32
  {
    SiblingFits(ip, len);
    Cidr(OtherHalf(Shr(ip, 32 - len)) * P2(32 - len), len)
  }

  lemma HighBitsFit(ip: u32, len: nat)
    requires len <= 32
    ensures Shr(ip, 32 - len) < P2(len)
  {
    hide P2, Shr;
    var k := 32 - len;
    P2Values();
    P2Add(len, k);
    ShrBounds(ip, k);
    if Shr(ip, k) >= P2(len) {
      MulLess(P2(len), Shr(ip, k), P2(k));
    }
  }

  lemma OtherHalfFits(q: nat, len: nat)
    requires len >= 1 && q < P2(len)
    ensures OtherHalf(q) < P2(len)
  {
    hide P2;
    DoublePower(1, len);
  }

  lemma SiblingFits(ip: u32, len: nat)
    requires 1 <= len <= 32
    ensures OtherHalf(Shr(ip, 32 - len)) * P2(32 - len) < TWO32
  {
    hide P2, Shr, OtherHalf;
    var k := 32 - len;
    P2Values();
    P2Add(len, k);
    HighBitsFit(ip, len);
    OtherHalfFits(Shr(ip, k), len);
    MulLess(OtherHalf(Shr(ip, k)), P2(len), P2(k));
  }

  /** Blocks kept by the walk for lengths 9 up to `len`. */
  function Kept(ip: u32, len: nat): (cs: seq<Cidr>)
    requires 8 <= len <= 30
    ensures |cs| == len - 8
    ensures forall i :: 0 <= i < |cs| ==> cs[i] == Sibling(ip, 9 + i)
  {
    if len == 8 then [] else Kept(ip, len - 1) + [Sibling(ip, len)]
  }

  function KeptRoutes(ip: u32, len: nat): seq<Route>
    requires 8 <= len <= 30
  {
    BlockRoutes(Kept(ip, len))
  }

  /** `appendTen8ExcludingTunnel:into:`, with its masks and exclusive or. */
  method AppendTen8ExcludingTunnel(tunnelIP: string, routes: seq<Route>) returns (out: seq<Route>)
    ensures out == match Pton(tunnelIP)
                   case None => routes
                   case Some(ip) => routes + KeptRoutes(ip, 30)
  {
    hide Sibling, DottedMaskForPrefix, DottedAddrForUInt, P2, And, Xor, Shl32, Pton, BlockRoute;
    out := routes;
    match Pton(tunnelIP) {
      case None =>
      case Some(ip) =>
        P2Values();
        Base30(ip);
        var base30: u32 := And(ip, Shl32(0xFFFF_FFFF, 2));
        for len := 9 to 31
          invariant base30 == FloorTo(ip, 2)
          invariant out == routes + KeptRoutes(ip, len - 1)
        {
          KeepNet(ip, len);
          var bit := P2(32 - len);
          var maskNext := Shl32(0xFFFF_FFFF, 32 - len);
          var halfWithTunnel := And(base30, maskNext);
          var keepNet: u32 := Xor(halfWithTunnel, bit);
          KeptRoutesStep(ip, len);
          out := out + [Route(DottedAddrForUInt(keepNet), DottedMaskForPrefix(len))];
        }
    }
  }

  lemma KeptRoutesStep(ip: u32, len: nat)
    requires 9 <= len <= 30
    ensures KeptRoutes(ip, len) ==
            KeptRoutes(ip, len - 1) + [Route(DottedAddrForUInt(Sibling(ip, len).addr), DottedMaskForPrefix(len))]
  {
    hide Sibling, DottedMaskForPrefix, DottedAddrForUInt;
    SiblingPrefix(ip, len);
    DottedAddrIsDotted(Sibling(ip, len).addr);
  }

  lemma SiblingPrefix(ip: u32, len: nat)
    requires 1 <= len <= 32
    ensures Sibling(ip, len).prefix == len
  {
  }

  lemma Base30(ip: u32)
    ensures And(ip, Shl32(0xFFFF_FFFF, 2)) == FloorTo(ip, 2) <= ip
  {
    hide And, Shl32, P2;
    P2Values();
    MaskBitsIsHighMask(30);
    AndHighMask(ip, 32, 2);
    ShrBounds(ip, 2);
  }

  /** Masking the /30 and flipping one bit gives the sibling half. */
  lemma KeepNet(ip: u32, len: nat)
    requires 9 <= len <= 30
    ensures Xor(And(FloorTo(ip, 2), Shl32(0xFFFF_FFFF, 32 - len)), P2(32 - len)) == Sibling(ip, len).addr
  {
    hide And, Shl32, P2, Xor;
    var k := 32 - len;
    P2Values();
    MaskBitsIsHighMask(len);
    ShrBounds(ip, 2);
    AndHighMask(FloorTo(ip, 2), 32, k);
    FloorFloor(ip, 2, k);
    XorBit(Shr(ip, k), k);
  }

  lemma FloorFloor(x: nat, j: nat, k: nat)
    requires j <= k
    ensures FloorTo(FloorTo(x, j), k) == FloorTo(x, k)
  {
    AlignedMultiple(Shr(x, j), j);
    ShrShr(FloorTo(x, j), j, k - j);
    ShrShr(x, j, k - j);
  }

  // ---------------------------------------------------------------------
  // What the kept blocks cover.
  // ---------------------------------------------------------------------

  lemma HalfCovers(ip: u32, len: nat, a: u32)
    requires len <= 32
    ensures Valid(Half(ip, len))
    ensures Covers(Half(ip, len), a) <==> Shr(a, 32 - len) == Shr(ip, 32 - len)
  {
    hide Shr, P2;
    var k := 32 - len;
    AlignedMultiple(Shr(ip, k), k);
    CoversByPrefix(Half(ip, len), a);
  }

  lemma SiblingCovers(ip: u32, len: nat, a: u32)
    requires 1 <= len <= 32
    ensures Valid(Sibling(ip, len))
    ensures Covers(Sibling(ip, len), a) <==> Shr(a, 32 - len) == OtherHalf(Shr(ip, 32 - len))
  {
    hide Shr, P2, OtherHalf;
    var k := 32 - len;
    AlignedMultiple(OtherHalf(Shr(ip, k)), k);
    CoversByPrefix(Sibling(ip, len), a);
  }

  /** A block is the disjoint union of its half with the tunnel and the sibling of that half. */
  lemma HalvesTile(ip: u32, len: nat, a: u32)
    requires 1 <= len <= 32
    ensures Covers(Half(ip, len - 1), a) <==> Covers(Half(ip, len), a) || Covers(Sibling(ip, len), a)
    ensures !(Covers(Half(ip, len), a) && Covers(Sibling(ip, len), a))
  {
    hide Half, Sibling, Covers;
    var k := 32 - len;
    HalfCovers(ip, len - 1, a);
    HalfCovers(ip, len, a);
    SiblingCovers(ip, len, a);
    ShrShr(a, k, 1);
    ShrShr(ip, k, 1);
    assert Shr(a, k + 1) == Shr(a, k) / 2 && Shr(ip, k + 1) == Shr(ip, k) / 2;
  }

  lemma {:induction false} HalfShrinks(ip: u32, i: nat, j: nat, a: u32)
    requires i <= j <= 32 && Covers(Half(ip, j), a)
    ensures Covers(Half(ip, i), a)
    decreases j - i
  {
    hide Half, Sibling, Covers;
    if i < j {
      HalvesTile(ip, j, a);
      HalfShrinks(ip, i, j - 1, a);
    }
  }

  /** The kept blocks and the tunnel's block tile the /8 around the tunnel address. */
  lemma {:induction false} KeptTile(ip: u32, len: nat, a: u32)
    requires 8 <= len <= 30
    ensures Covers(Half(ip, 8), a) <==> Covers(Half(ip, len), a) || CoveredBy(Kept(ip, len), a)
    ensures !(Covers(Half(ip, len), a) && CoveredBy(Kept(ip, len), a))
  {
    hide Half, Sibling, Covers;
    if len > 8 {
      KeptTile(ip, len - 1, a);
      HalvesTile(ip, len, a);
      CoveredConcat(Kept(ip, len - 1), [Sibling(ip, len)], a);
      CoveredSingle(Sibling(ip, len), a);
    }
  }

  lemma CoveredSingle(c: Cidr, a: u32)
    ensures CoveredBy([c], a) <==> Covers(c, a)
  {
    assert [c][0] == c;
  }

  lemma {:induction false} KeptDisjoint(ip: u32)
    ensures AllValid(Kept(ip, 30)) && Disjoint(Kept(ip, 30))
  {
    hide Half, Sibling, Covers, Valid;
    var cs := Kept(ip, 30);
    forall i | 0 <= i < |cs|
      ensures Valid(cs[i])
    {
      SiblingCovers(ip, 9 + i, 0);
    }
    forall i, j, a: u32 | 0 <= i < j < |cs|
      ensures !(Covers(cs[i], a) && Covers(cs[j], a))
    {
      HalvesTile(ip, 9 + i, a);
      HalvesTile(ip, 9 + j, a);
      if Covers(cs[j], a) {
        HalfShrinks(ip, 9 + i, 8 + j, a);
      }
    }
  }

  lemma {:induction false} KeptMaximal(ip: u32)
    ensures AllMaximal(Kept(ip, 30))
  {
    hide Half, Sibling, Covers, Valid, Parent;
    var cs := Kept(ip, 30);
    forall i | 0 <= i < |cs|
      ensures MaximalIn(cs[i], cs)
    {
      SiblingPrefix(ip, 9 + i);
      SiblingParent(ip, 9 + i);
      HalfCoversSelf(ip, 8 + i);
      HalfCoversSelf(ip, 30);
      KeptTile(ip, 30, ip);
    }
  }

  lemma HalfCoversSelf(ip: u32, len: nat)
    requires len <= 32
    ensures Covers(Half(ip, len), ip)
  {
    hide Half;
    HalfCovers(ip, len, ip);
  }

  lemma SiblingParent(ip: u32, len: nat)
    requires 1 <= len <= 32
    ensures 0 < Sibling(ip, len).prefix <= 32
    ensures Parent(Sibling(ip, len)) == Half(ip, len - 1)
  {
    hide Shr, P2;
    var k := 32 - len;
    var q, s := Shr(ip, k), OtherHalf(Shr(ip, k));
    AlignedMultiple(s, k);
    ShrShr(s * P2(k), k, 1);
    ShrShr(ip, k, 1);
    assert Shr(s, 1) == Shr(q, 1) by { HalfOfOther(q); }
  }

  lemma HalfOfOther(q: nat)
    ensures Shr(OtherHalf(q), 1) == Shr(q, 1)
  {
  }

  /** The walk keeps exactly 22 disjoint blocks, they are the /8 of the tunnel address without
      the tunnel's /30, and no list of aligned blocks does it with fewer. */
  lemma {:induction false} TwentyTwoRoutes(ip: u32, ds: seq<Cidr>)
    requires AllValid(ds)
    requires forall a: u32 :: CoveredBy(ds, a) <==> Covers(Half(ip, 8), a) && !Covers(Half(ip, 30), a)
    ensures |Kept(ip, 30)| == 22 <= |ds|
    ensures AllValid(Kept(ip, 30)) && Disjoint(Kept(ip, 30))
    ensures forall a: u32 :: CoveredBy(Kept(ip, 30), a) <==> Covers(Half(ip, 8), a) && !Covers(Half(ip, 30), a)
  {
    hide Half, Covers, CoveredBy, Kept, AllValid, Disjoint, AllMaximal;
    forall a: u32
      ensures CoveredBy(Kept(ip, 30), a) <==> Covers(Half(ip, 8), a) && !Covers(Half(ip, 30), a)
    {
      KeptTile(ip, 30, a);
    }
    KeptDisjoint(ip);
    KeptMaximal(ip);
    MaximalIsShortest(Kept(ip, 30), ds);
  }

  /** The private block the comments and the settings are about. */
  const TEN8: Cidr := Cidr(0x0A00_0000, 8)

  ghost predicate LeavesOnlyTunnel(ip: u32) {
    forall a: u32 :: Excluded(KeptRoutes(ip, 30), a) <==> Covers(TEN8, a) && !Covers(Half(ip, 30), a)
  }

  lemma {:induction false} KeptRoutesExclude(ip: u32, a: u32)
    ensures Excluded(KeptRoutes(ip, 30), a) <==> Covers(Half(ip, 8), a) && !Covers(Half(ip, 30), a)
  {
    hide Half, Covers, CoveredBy, Excluded, Sibling;
    KeptDisjoint(ip);
    KeptTile(ip, 30, a);
    RoutesExclude(Kept(ip, 30), a) by {
      forall i | 0 <= i < 22
        ensures Kept(ip, 30)[i].prefix <= 32
      {
        SiblingPrefix(ip, 9 + i);
      }
    }
  }

  /** The excluded routes are 10.0.0.0/8 minus the tunnel's /30 exactly when the tunnel
      address is in 10.0.0.0/8; any other address excludes its own /8 instead. */
  lemma {:induction false} TenExcludedIffInside(ip: u32)
    ensures LeavesOnlyTunnel(ip) <==> Octet(ip, 0) == 10
  {
    hide Half, Covers, Excluded, KeptRoutes, Octet;
    TopOctet(ip);
    forall a: u32
      ensures Excluded(KeptRoutes(ip, 30), a) <==> Covers(Half(ip, 8), a) && !Covers(Half(ip, 30), a)
    {
      KeptRoutesExclude(ip, a);
    }
    if Octet(ip, 0) != 10 {
      var a: u32 := 0x0A00_0000;
      TenStart();
      if Covers(Half(ip, 30), a) {
        HalfShrinks(ip, 8, 30, a);
      }
    }
  }

  lemma TenStart()
    ensures Covers(TEN8, 0x0A00_0000)
  {
  }

  lemma TopOctet(ip: u32)
    ensures Octet(ip, 0) == 10 ==> Half(ip, 8) == TEN8
    ensures Octet(ip, 0) != 10 ==> !Covers(Half(ip, 8), 0x0A00_0000)
  {
    hide Shr, P2;
    P2Values();
    HalfCovers(ip, 8, 0x0A00_0000);
    ShrBounds(ip, 24);
    ShrUnique(0x0A00_0000, 24, 10);
  }
}
