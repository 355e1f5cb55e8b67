/** Aligned IPv4 blocks in the prefix notation of section 3.1 of RFC 4632, and what
    makes a list of them the shortest one with its union. */
module Cidrs {
  import opened Bits

  /** `addr/prefix`: 2^(32-prefix) addresses from `addr` on. */
  datatype Cidr = Cidr(addr: u32, prefix: nat)

  function HostBits(c: Cidr): nat {
    if c.prefix <= 32 then 32 - c.prefix else 0
  }

  function Size(c: Cidr): nat {
    P2(HostBits(c))
  }

  /** One past the last address of the block. */
  function End(c: Cidr): nat {
    c.addr + Size(c)
  }

  ghost predicate Valid(c: Cidr) {
    c.prefix <= 32 && Aligned(c.addr, HostBits(c))
  }

  predicate Covers(c: Cidr, a: u32) {
    c.addr <= a < End(c)
  }

  ghost predicate CoveredBy(cs: seq<Cidr>, a: u32) {
    exists i :: 0 <= i < |cs| && Covers(cs[i], a)
  }

  ghost predicate AllValid(cs: seq<Cidr>) {
    forall i :: 0 <= i < |cs| ==> Valid(cs[i])
  }

  /** Blocks in increasing address order that do not overlap. */
  ghost predicate Ordered(cs: seq<Cidr>) {
    forall i, j :: 0 <= i < j < |cs| ==> End(cs[i]) <= cs[j].addr
  }

  /** No address is in two blocks. */
  ghost predicate Disjoint(cs: seq<Cidr>) {
    forall i, j, a: u32 :: 0 <= i < j < |cs| ==> !(Covers(cs[i], a) && Covers(cs[j], a))
  }

  lemma OrderedDisjoint(cs: seq<Cidr>)
    requires Ordered(cs)
    ensures Disjoint(cs)
  {
  }

  /** Every block of the list lies in the half-open interval [lo, hi). */
  ghost predicate Within(cs: seq<Cidr>, lo: int, hi: int) {
    forall i :: 0 <= i < |cs| ==> lo <= cs[i].addr && End(cs[i]) <= hi
  }

  ghost predicate SameUnion(cs: seq<Cidr>, ds: seq<Cidr>) {
    forall a: u32 :: CoveredBy(cs, a) <==> CoveredBy(ds, a)
  }

  /** The block twice as large that contains `c`. */
  function Parent(c: Cidr): Cidr
    requires 0 < c.prefix <= 32
  {
    ShrBounds(c.addr, HostBits(c) + 1);
    Cidr(FloorTo(c.addr, HostBits(c) + 1), c.prefix - 1)
  }

  lemma {:induction false} ValidEnd(c: Cidr)
    requires Valid(c)
    ensures End(c) <= TWO32
  {
    P2Values();
    AlignedPower(32, HostBits(c));
    AlignedGap(c.addr, TWO32, HostBits(c));
  }

  /** An aligned block is the set of addresses with its leading bits. */
  lemma {:induction false} CoversByPrefix(c: Cidr, a: u32)
    requires Valid(c)
    ensures Covers(c, a) <==> Shr(a, HostBits(c)) == Shr(c.addr, HostBits(c))
  {
    var k := HostBits(c);
    ShrBounds(a, k);
    if Covers(c, a) {
      ShrUnique(a, k, Shr(c.addr, k));
    }
  }

  /** Two aligned blocks that share an address are nested. */
  lemma {:induction false} Nested(c: Cidr, d: Cidr, a: u32, b: u32)
    requires Valid(c) && Valid(d) && d.prefix <= c.prefix
    requires Covers(c, a) && Covers(d, a) && Covers(c, b)
    ensures Covers(d, b)
  {
    CoversByPrefix(c, a);
    CoversByPrefix(c, b);
    CoversByPrefix(d, a);
    CoversByPrefix(d, b);
    ShrShr(a, HostBits(c), HostBits(d) - HostBits(c));
    ShrShr(b, HostBits(c), HostBits(d) - HostBits(c));
  }

  lemma {:induction false} ParentValid(c: Cidr)
    requires Valid(c) && c.prefix > 0
    ensures Valid(Parent(c)) && Covers(Parent(c), c.addr)
  {
    AlignedMultiple(Shr(c.addr, HostBits(c) + 1), HostBits(c) + 1);
    ShrBounds(c.addr, HostBits(c) + 1);
  }

  /** A block that holds an address of `c` and is larger than `c` contains the parent of `c`. */
  lemma {:induction false} LargerContainsParent(c: Cidr, d: Cidr, a: u32)
    requires Valid(c) && Valid(d) && d.prefix < c.prefix && Covers(c, a) && Covers(d, a)
    ensures forall x: u32 :: Covers(Parent(c), x) ==> Covers(d, x)
  {
    ParentValid(c);
    SelfCovers(c);
    Nested(c, Parent(c), c.addr, a);
    forall x: u32 | Covers(Parent(c), x)
      ensures Covers(d, x)
    {
      Nested(Parent(c), d, a, x);
    }
  }

  lemma SelfCovers(c: Cidr)
    ensures Covers(c, c.addr)
  {
  }

  lemma Concat(xs: seq<Cidr>, ys: seq<Cidr>, lo: int, mid: int, hi: int)
    requires AllValid(xs) && Ordered(xs) && Within(xs, lo, mid)
    requires AllValid(ys) && Ordered(ys) && Within(ys, mid, hi)
    requires lo <= mid <= hi
    ensures AllValid(xs + ys) && Ordered(xs + ys) && Within(xs + ys, lo, hi)
  {
    hide P2, Aligned, Size;
  }

  lemma CoveredConcat(xs: seq<Cidr>, ys: seq<Cidr>, a: u32)
    ensures CoveredBy(xs + ys, a) <==> CoveredBy(xs, a) || CoveredBy(ys, a)
  {
    var zs := xs + ys;
    assert forall i :: 0 <= i < |xs| ==> zs[i] == xs[i];
    assert forall i :: 0 <= i < |ys| ==> zs[|xs| + i] == ys[i];
  }

  // ---------------------------------------------------------------------
  // Minimality.
  // ---------------------------------------------------------------------

  /** `c` lies in the union of `cs` and its parent does not. */
  ghost predicate MaximalIn(c: Cidr, cs: seq<Cidr>) {
    && (forall a: u32 :: Covers(c, a) ==> CoveredBy(cs, a))
    && (0 < c.prefix <= 32 ==> exists x: u32 :: Covers(Parent(c), x) && !CoveredBy(cs, x))
  }

  ghost predicate AllMaximal(cs: seq<Cidr>) {
    forall i :: 0 <= i < |cs| ==> MaximalIn(cs[i], cs)
  }

  ghost function Holder(ds: seq<Cidr>, a: u32): (j: nat)
    requires CoveredBy(ds, a)
    ensures j < |ds| && Covers(ds[j], a)
  {
    var i :| 0 <= i < |ds| && Covers(ds[i], a);
    i
  }

  /** A block with the same union cannot be larger than a maximal block it meets. */
  lemma {:induction false} NoLarger(cs: seq<Cidr>, ds: seq<Cidr>, c: Cidr, d: Cidr, a: u32)
    requires SameUnion(cs, ds) && Valid(c) && MaximalIn(c, cs)
    requires Valid(d) && d in ds && Covers(c, a) && Covers(d, a)
    ensures c.prefix <= d.prefix
    ensures forall x: u32 :: Covers(d, x) ==> Covers(c, x)
  {
    if d.prefix < c.prefix {
      LargerContainsParent(c, d, a);
      assert false;
    }
    forall x: u32 | Covers(d, x)
      ensures Covers(c, x)
    {
      Nested(d, c, a, x);
    }
  }

  /** Distinct values below `n` are at most `n` many. */
  lemma {:induction false} Pigeonhole(f: seq<nat>, n: nat)
    requires forall i :: 0 <= i < |f| ==> f[i] < n
    requires forall i, j :: 0 <= i < j < |f| ==> f[i] != f[j]
    ensures |f| <= n
  {
    if |f| > 0 {
      assert f[0] < n;
      if n - 1 in f {
        var k :| 0 <= k < |f| && f[k] == n - 1;
        Pigeonhole(f[..k] + f[k + 1..], n - 1);
      } else {
        Pigeonhole(f, n - 1);
      }
    }
  }

  /** NoLarger for list positions: whatever shares an address with cs[i] lies inside it. */
  lemma {:induction false} HolderInside(cs: seq<Cidr>, ds: seq<Cidr>, i: nat, j: nat, a: u32, x: u32)
    requires AllValid(cs) && AllMaximal(cs) && AllValid(ds) && SameUnion(cs, ds)
    requires i < |cs| && j < |ds| && Covers(cs[i], a) && Covers(ds[j], a) && Covers(ds[j], x)
    ensures Covers(cs[i], x)
  {
    NoLarger(cs, ds, cs[i], ds[j], a);
  }

  lemma OneBlockHolds(cs: seq<Cidr>, i: nat, j: nat, a: u32)
    requires Disjoint(cs) && i < |cs| && j < |cs| && Covers(cs[i], a) && Covers(cs[j], a)
    ensures i == j
  {
  }

  ghost function Holders(cs: seq<Cidr>, ds: seq<Cidr>): (f: seq<nat>)
    requires SameUnion(cs, ds)
    ensures |f| == |cs|
    ensures forall i :: 0 <= i < |cs| ==> f[i] < |ds| && Covers(ds[f[i]], cs[i].addr)
  {
    seq(|cs|, i requires 0 <= i < |cs| =>
      SelfCovers(cs[i]);
      assert CoveredBy(cs, cs[i].addr);
      Holder(ds, cs[i].addr))
  }

  lemma {:induction false} HoldersDistinct(cs: seq<Cidr>, ds: seq<Cidr>)
    requires AllValid(cs) && Disjoint(cs) && AllMaximal(cs)
    requires AllValid(ds) && SameUnion(cs, ds)
    ensures var f := Holders(cs, ds); forall i, j :: 0 <= i < j < |f| ==> f[i] != f[j]
  {
    var f := Holders(cs, ds);
    forall i, j | 0 <= i < j < |f|
      ensures f[i] != f[j]
    {
      HolderInside(cs, ds, i, f[i], cs[i].addr, ds[f[i]].addr);
      HolderInside(cs, ds, j, f[j], cs[j].addr, ds[f[j]].addr);
    }
  }

  /** Disjoint maximal blocks are the shortest list of aligned blocks with their union. */
  lemma {:induction false} MaximalIsShortest(cs: seq<Cidr>, ds: seq<Cidr>)
    requires AllValid(cs) && Disjoint(cs) && AllMaximal(cs)
    requires AllValid(ds) && SameUnion(cs, ds)
    ensures |cs| <= |ds|
  {
    HoldersDistinct(cs, ds);
    Pigeonhole(Holders(cs, ds), |ds|);
  }

  /** And it is the only shortest one: a list of the same length has the same blocks. */
  lemma {:induction false} ShortestIsUnique(cs: seq<Cidr>, ds: seq<Cidr>)
    requires AllValid(cs) && Disjoint(cs) && AllMaximal(cs)
    requires AllValid(ds) && SameUnion(cs, ds) && |ds| == |cs|
    ensures forall d :: d in ds <==> d in cs
  {
    var f := Holders(cs, ds);
    HoldersDistinct(cs, ds);
    forall j | 0 <= j < |ds|
      ensures j in f
    {
      if j !in f {
        Pigeonhole(f + [j], |ds|);
        assert false;
      }
    }
    forall i | 0 <= i < |cs|
      ensures ds[f[i]] == cs[i]
    {
      OnlyHolder(cs, ds, f, i);
    }
    forall d | d in ds
      ensures d in cs
    {
      var j :| 0 <= j < |ds| && ds[j] == d;
      assert j in f;
    }
  }

  /** When every block of `ds` holds the start of some block of `cs`, the one holding the
      start of cs[i] is cs[i] itself. */
  lemma {:induction false} OnlyHolder(cs: seq<Cidr>, ds: seq<Cidr>, f: seq<nat>, i: nat)
    requires AllValid(cs) && Disjoint(cs) && AllMaximal(cs)
    requires AllValid(ds) && SameUnion(cs, ds) && i < |cs|
    requires f == Holders(cs, ds)
    requires forall j :: 0 <= j < |ds| ==> j in f
    ensures ds[f[i]] == cs[i]
  {
    var c, d := cs[i], ds[f[i]];
    ValidEnd(c);
    var last: u32 := End(c) - 1;
    HolderReaches(cs, ds, f, i, last);
    HolderInside(cs, ds, i, f[i], c.addr, d.addr);
    NoLarger(cs, ds, c, d, c.addr);
    SameExtent(c, d);
  }

  lemma SameExtent(c: Cidr, d: Cidr)
    requires Valid(c) && Valid(d) && c.prefix <= d.prefix
    requires Covers(c, d.addr) && Covers(d, c.addr) && End(c) <= End(d)
    ensures c == d
  {
    if c.prefix < d.prefix {
      P2Less(HostBits(d), HostBits(c));
    }
  }

  lemma {:induction false} HolderReaches(cs: seq<Cidr>, ds: seq<Cidr>, f: seq<nat>, i: nat, a: u32)
    requires AllValid(cs) && Disjoint(cs) && AllMaximal(cs)
    requires AllValid(ds) && SameUnion(cs, ds) && i < |cs| && Covers(cs[i], a)
    requires f == Holders(cs, ds)
    requires forall j :: 0 <= j < |ds| ==> j in f
    ensures Covers(ds[f[i]], a)
  {
    var j := OtherHolder(cs, ds, i, a);
    var k := PositionOf(f, j);
    HeldByOne(cs, ds, i, k, j, a);
  }

  lemma OtherHolder(cs: seq<Cidr>, ds: seq<Cidr>, i: nat, a: u32) returns (j: nat)
    requires SameUnion(cs, ds) && i < |cs| && Covers(cs[i], a)
    ensures j < |ds| && Covers(ds[j], a)
  {
    assert CoveredBy(cs, a);
    j := Holder(ds, a);
  }

  lemma PositionOf(f: seq<nat>, j: nat) returns (k: nat)
    requires j in f
    ensures k < |f| && f[k] == j
  {
    k :| k < |f| && f[k] == j;
  }

  lemma {:induction false} HeldByOne(cs: seq<Cidr>, ds: seq<Cidr>, i: nat, k: nat, j: nat, a: u32)
    requires AllValid(cs) && Disjoint(cs) && AllMaximal(cs)
    requires AllValid(ds) && SameUnion(cs, ds)
    requires i < |cs| && k < |cs| && j < |ds|
    requires Covers(cs[i], a) && Covers(ds[j], a) && Covers(ds[j], cs[k].addr)
    ensures k == i
  {
    HolderInside(cs, ds, i, j, a, cs[k].addr);
    SelfCovers(cs[k]);
    OneBlockHolds(cs, i, k, cs[k].addr);
  }
}
