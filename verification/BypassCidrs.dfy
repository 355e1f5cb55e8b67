/** The block list of a country: sort, merge, split. What it covers, and why no shorter
    list of aligned blocks covers the same addresses. */
module BypassCidrs {
  import opened Bits
  import opened Cidrs
  import opened RangeMerge
  import opened RangeSplit
  import ChnrouteGen

  /** All merged ranges split in turn. */
  function SplitAll(rs: seq<Range>): seq<Cidr>
    requires Proper(rs)
  {
    if rs == [] then []
    else SplitAll(rs[..|rs| - 1]) + Split(rs[|rs| - 1].lo, rs[|rs| - 1].hi)
  }

  function Blocks(ranges: seq<Range>): seq<Cidr>
    requires Proper(ranges)
  {
    MergedSpec(ranges);
    SplitAll(Merged(ranges))
  }

  /** The body of `build_country_cidrs` after the database walk. */
  method CompileRanges(ranges: seq<Range>) returns (cidrs: seq<Cidr>)
    requires Proper(ranges)
    ensures cidrs == Blocks(ranges)
  {
    MergedSpec(ranges);
    var merged := MergeRanges(Sort(ranges));
    cidrs := [];
    for i := 0 to |merged|
      invariant cidrs == SplitAll(merged[..i])
    {
      assert merged[..i + 1][..i] == merged[..i];
      cidrs := RangeToCidrs(merged[i].lo, merged[i].hi, cidrs);
    }
    assert merged[..|merged|] == merged;
  }

  function Bound(rs: seq<Range>): nat {
    if rs == [] then 0 else rs[|rs| - 1].hi + 1
  }

  lemma {:induction false} SplitAllShape(rs: seq<Range>)
    requires Canonical(rs)
    ensures AllValid(SplitAll(rs)) && Ordered(SplitAll(rs)) && Within(SplitAll(rs), 0, Bound(rs))
  {
    hide Split;
    if rs != [] {
      var prev, r := rs[..|rs| - 1], rs[|rs| - 1];
      SplitAllShape(prev);
      SplitShape(r.lo, r.hi);
      assert Bound(prev) <= r.lo;
      assert Within(SplitAll(prev), 0, r.lo);
      Concat(SplitAll(prev), Split(r.lo, r.hi), 0, r.lo, r.hi + 1);
    }
  }

  lemma {:induction false} SplitAllCovers(rs: seq<Range>, a: u32)
    requires Proper(rs)
    ensures CoveredBy(SplitAll(rs), a) <==> InRanges(rs, a)
  {
    hide Split;
    if rs != [] {
      var prev, r := rs[..|rs| - 1], rs[|rs| - 1];
      SplitAllCovers(prev, a);
      SplitCovers(r.lo, r.hi, a);
      CoveredConcat(SplitAll(prev), Split(r.lo, r.hi), a);
      SplitLast(rs, a);
    }
  }

  /** No block spans two merged ranges. */
  lemma {:induction false} BlockInOneRange(rs: seq<Range>, c: Cidr) returns (k: nat)
    requires Proper(rs) && c in SplitAll(rs)
    ensures k < |rs| && c in Split(rs[k].lo, rs[k].hi)
  {
    hide Split;
    var prev, r := rs[..|rs| - 1], rs[|rs| - 1];
    if c in Split(r.lo, r.hi) {
      k := |rs| - 1;
    } else {
      k := BlockInOneRange(prev, c);
    }
  }

  /** The parent of any block reaches an address outside every range. */
  lemma {:induction false} ParentLeaves(rs: seq<Range>, c: Cidr, k: nat) returns (x: u32)
    requires Canonical(rs) && k < |rs| && Valid(c) && c.prefix > 0
    requires rs[k].lo <= c.addr && End(c) <= rs[k].hi + 1
    requires Escapes(c, rs[k].lo, rs[k].hi)
    ensures Covers(Parent(c), x) && !InRanges(rs, x)
  {
    hide FloorTo, Shr, Aligned;
    var p := Parent(c);
    ParentValid(c);
    ValidEnd(p);
    x := if p.addr < rs[k].lo then rs[k].lo - 1 else rs[k].hi + 1;
    OutsideBetween(rs, k, x);
  }

  lemma OutsideBetween(rs: seq<Range>, k: nat, x: u32)
    requires Canonical(rs) && k < |rs| && (x == rs[k].lo - 1 || x == rs[k].hi + 1)
    ensures !InRanges(rs, x)
  {
  }

  lemma {:induction false} BlockMaximal(ranges: seq<Range>, c: Cidr)
    requires Proper(ranges) && c in Blocks(ranges)
    ensures MaximalIn(c, Blocks(ranges))
  {
    hide Split, Parent, Escapes, SplitAll, MergeFold, Sort;
    MergedSpec(ranges);
    var rs := Merged(ranges);
    var cs := Blocks(ranges);
    var k := BlockInOneRange(rs, c);
    var r := rs[k];
    SplitShape(r.lo, r.hi);
    SplitEscapes(r.lo, r.lo, r.hi);
    SplitAllShape(rs);
    forall a: u32 | Covers(c, a)
      ensures CoveredBy(cs, a)
    {
      var i :| 0 <= i < |cs| && cs[i] == c;
    }
    if c.prefix > 0 {
      var x := ParentLeaves(rs, c, k);
      SplitAllCovers(rs, x);
    }
  }

  /** The compiled list covers exactly the input ranges, in order and without overlap. */
  lemma {:induction false} BlocksCover(ranges: seq<Range>)
    requires Proper(ranges)
    ensures AllValid(Blocks(ranges)) && Ordered(Blocks(ranges))
    ensures forall a: u32 :: CoveredBy(Blocks(ranges), a) <==> InRanges(ranges, a)
  {
    hide SplitAll, Merged;
    MergedSpec(ranges);
    SplitAllShape(Merged(ranges));
    forall a: u32
      ensures CoveredBy(Blocks(ranges), a) <==> InRanges(ranges, a)
    {
      SplitAllCovers(Merged(ranges), a);
    }
  }

  /** `ds` is a list of aligned blocks whose union is the input ranges. */
  ghost predicate Encodes(ds: seq<Cidr>, ranges: seq<Range>) {
    AllValid(ds) && forall a: u32 :: CoveredBy(ds, a) <==> InRanges(ranges, a)
  }

  lemma {:induction false} AllBlocksMaximal(ranges: seq<Range>)
    requires Proper(ranges)
    ensures AllMaximal(Blocks(ranges))
  {
    hide Blocks, MaximalIn;
    forall i | 0 <= i < |Blocks(ranges)|
      ensures MaximalIn(Blocks(ranges)[i], Blocks(ranges))
    {
      BlockMaximal(ranges, Blocks(ranges)[i]);
    }
  }

  /** Minimality: no list of aligned blocks with the same addresses is shorter, and one of
      the same length has the same blocks. */
  lemma {:induction false} BlocksMinimal(ranges: seq<Range>, ds: seq<Cidr>)
    requires Proper(ranges) && Encodes(ds, ranges)
    ensures Encodes(Blocks(ranges), ranges)
    ensures |Blocks(ranges)| <= |ds|
    ensures |Blocks(ranges)| == |ds| ==> forall d :: d in ds <==> d in Blocks(ranges)
  {
    hide Blocks, MaximalIn, CoveredBy, InRanges, Ordered, Disjoint, Valid;
    BlocksCover(ranges);
    AllBlocksMaximal(ranges);
    OrderedDisjoint(Blocks(ranges));
    MaximalIsShortest(Blocks(ranges), ds);
    if |Blocks(ranges)| == |ds| {
      ShortestIsUnique(Blocks(ranges), ds);
    }
  }

  /** The list is a function of the address set alone: order, duplicates and overlaps of the
      database networks do not matter. */
  lemma {:induction false} BlocksCanonical(rs: seq<Range>, ts: seq<Range>)
    requires Proper(rs) && Proper(ts)
    ensures Blocks(rs) == Blocks(ts) <==> SameAddresses(rs, ts)
  {
    hide SplitAll, Merged, CoveredBy, InRanges;
    if SameAddresses(rs, ts) {
      MergeDependsOnAddresses(rs, ts);
    }
    if Blocks(rs) == Blocks(ts) {
      BlocksCover(rs);
      BlocksCover(ts);
      forall a: u32
        ensures InRanges(rs, a) <==> InRanges(ts, a)
      {
        assert CoveredBy(Blocks(rs), a) <==> InRanges(rs, a);
      }
    }
  }

  // ---------------------------------------------------------------------
  // The host tool: same merge, its own splitter.
  // ---------------------------------------------------------------------

  function SplitAllGen(rs: seq<Range>): seq<Cidr> {
    if rs == [] then []
    else SplitAllGen(rs[..|rs| - 1]) + ChnrouteGen.SplitGen(rs[|rs| - 1].lo, rs[|rs| - 1].hi)
  }

  function GenBlocks(ranges: seq<Range>): seq<Cidr> {
    SplitAllGen(Merged(ranges))
  }

  /** The host tool's `main` after the database walk. */
  method CompileRangesGen(ranges: seq<Range>) returns (cidrs: seq<Cidr>)
    ensures cidrs == GenBlocks(ranges)
  {
    var merged := MergeRanges(Sort(ranges));
    cidrs := [];
    for i := 0 to |merged|
      invariant cidrs == SplitAllGen(merged[..i])
    {
      assert merged[..i + 1][..i] == merged[..i];
      cidrs := ChnrouteGen.RangeToCidrs32(merged[i].lo, merged[i].hi, cidrs);
    }
    assert merged[..|merged|] == merged;
  }

  const WHOLE: Range := Range(0, TWO32 - 1)

  lemma {:induction false} GenAgrees(rs: seq<Range>)
    requires Canonical(rs) && WHOLE !in rs
    ensures SplitAllGen(rs) == SplitAll(rs)
  {
    if rs != [] {
      GenAgrees(rs[..|rs| - 1]);
    }
  }

  lemma GapBetween(rs: seq<Range>, i: nat, j: nat)
    requires Canonical(rs) && j < |rs|
    ensures i < j ==> rs[i].hi + 1 < rs[j].lo
  {
  }

  lemma WholeIsAlone(rs: seq<Range>)
    requires Canonical(rs) && WHOLE in rs
    ensures rs == [WHOLE]
  {
    hide Canonical;
    var k :| 0 <= k < |rs| && rs[k] == WHOLE;
    GapBetween(rs, 0, k);
    GapBetween(rs, k, |rs| - 1);
  }

  ghost predicate EveryAddress(ranges: seq<Range>) {
    forall a: u32 :: InRanges(ranges, a)
  }

  lemma {:induction false} WholeIffEvery(ranges: seq<Range>)
    requires Proper(ranges)
    ensures WHOLE in Merged(ranges) <==> EveryAddress(ranges)
  {
    hide Merged;
    MergedSpec(ranges);
    if EveryAddress(ranges) {
      assert Canonical([WHOLE]);
      assert forall a: u32 :: Holds([WHOLE][0], a);
      CanonicalUnique(Merged(ranges), [WHOLE]);
    }
    if WHOLE in Merged(ranges) {
      WholeIsAlone(Merged(ranges));
      assert forall a: u32 :: Holds(Merged(ranges)[0], a);
    }
  }

  /** The host tool's list is shortest, and equal to the runtime list, exactly when some
      address is outside the country; on the whole space it spends two blocks where one does. */
  lemma {:induction false} GenMinimalUnlessWhole(ranges: seq<Range>)
    requires Proper(ranges)
    ensures GenBlocks(ranges) == Blocks(ranges) <==> !EveryAddress(ranges)
    ensures |GenBlocks(ranges)| == |Blocks(ranges)| + if EveryAddress(ranges) then 1 else 0
  {
    hide Merged, EveryAddress, Canonical, Split, Proper;
    MergedSpec(ranges);
    WholeIffEvery(ranges);
    var rs := Merged(ranges);
    if WHOLE in rs {
      WholeIsAlone(rs);
      WholeBoth();
    } else {
      GenAgrees(rs);
    }
  }

  lemma WholeBoth()
    ensures SplitAllGen([WHOLE]) == [Cidr(0, 1), Cidr(0x8000_0000, 1)]
    ensures Proper([WHOLE]) && SplitAll([WHOLE]) == [Cidr(0, 0)]
  {
    hide Split;
    ChnrouteGen.WholeSpaceSplit();
    assert [WHOLE][..0] == [];
  }

  /** The host tool's blocks cover the input, minimal or not. */
  lemma {:induction false} GenBlocksCover(ranges: seq<Range>)
    requires Proper(ranges)
    ensures Encodes(GenBlocks(ranges), ranges)
  {
    hide Merged, Canonical, Split, Proper, CoveredBy, InRanges, SplitAll, SplitAllGen;
    MergedSpec(ranges);
    WholeIffEvery(ranges);
    BlocksCover(ranges);
    if WHOLE in Merged(ranges) {
      WholeIsAlone(Merged(ranges));
      WholeBoth();
      HalvesCover();
    } else {
      GenAgrees(Merged(ranges));
    }
  }

  lemma HalvesCover()
    ensures var halves := [Cidr(0, 1), Cidr(0x8000_0000, 1)];
            AllValid(halves) && forall a: u32 :: CoveredBy(halves, a)
  {
    var halves := [Cidr(0, 1), Cidr(0x8000_0000, 1)];
    P2Values();
    AlignedMultiple(0, 31);
    AlignedMultiple(1, 31);
    forall a: u32
      ensures CoveredBy(halves, a)
    {
      var half := if a < 0x8000_0000 then 0 else 1;
      assert Covers(halves[half], a);
    }
  }
}
