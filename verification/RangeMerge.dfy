/** Sorting and in-place merging of inclusive address ranges, and why the result depends
    only on the set of addresses. */
module RangeMerge {
  import opened Bits

  /** An inclusive range: the network and broadcast address of one database network. */
  datatype Range = Range(lo: u32, hi: u32)

  ghost predicate Proper(rs: seq<Range>) {
    forall i :: 0 <= i < |rs| ==> rs[i].lo <= rs[i].hi
  }

  predicate Holds(r: Range, a: u32) {
    r.lo <= a <= r.hi
  }

  ghost predicate InRanges(rs: seq<Range>, a: u32) {
    exists i :: 0 <= i < |rs| && Holds(rs[i], a)
  }

  /** The order of `sort_unstable` on pairs. */
  predicate AtMost(r: Range, s: Range) {
    r.lo < s.lo || (r.lo == s.lo && r.hi <= s.hi)
  }

  ghost predicate Sorted(rs: seq<Range>) {
    forall i, j :: 0 <= i < j < |rs| ==> AtMost(rs[i], rs[j])
  }

  /** Non-empty ranges in increasing order with at least one missing address between
      consecutive ones. */
  ghost predicate Canonical(rs: seq<Range>) {
    && Proper(rs)
    && forall i, j :: 0 <= i < j < |rs| ==> rs[i].hi + 1 < rs[j].lo
  }

  // ---------------------------------------------------------------------
  // Sorting.
  // ---------------------------------------------------------------------

  function Insert(r: Range, rs: seq<Range>): seq<Range> {
    if rs == [] || AtMost(r, rs[0]) then [r] + rs else [rs[0]] + Insert(r, rs[1..])
  }

  /** The only list in order with the same elements, which is what the library sort returns. */
  function Sort(rs: seq<Range>): seq<Range> {
    if rs == [] then [] else Insert(rs[0], Sort(rs[1..]))
  }

  lemma {:induction false} InsertBag(r: Range, rs: seq<Range>)
    ensures multiset(Insert(r, rs)) == multiset{r} + multiset(rs)
  {
    if rs != [] && !AtMost(r, rs[0]) {
      InsertBag(r, rs[1..]);
      assert rs == [rs[0]] + rs[1..];
    } else {
      assert Insert(r, rs) == [r] + rs;
    }
  }

  lemma {:induction false} InsertSorted(r: Range, rs: seq<Range>)
    requires Sorted(rs)
    ensures Sorted(Insert(r, rs))
  {
    if rs != [] && !AtMost(r, rs[0]) {
      var t := Insert(r, rs[1..]);
      InsertSorted(r, rs[1..]);
      InsertBag(r, rs[1..]);
      forall k | 0 <= k < |t|
        ensures AtMost(rs[0], t[k])
      {
        assert t[k] in multiset(t);
        assert t[k] == r || t[k] in rs[1..];
      }
      HeadFirst(rs[0], t);
    }
  }

  lemma HeadFirst(r: Range, rs: seq<Range>)
    requires Sorted(rs) && forall k :: 0 <= k < |rs| ==> AtMost(r, rs[k])
    ensures Sorted([r] + rs)
  {
    hide AtMost;
  }

  lemma {:induction false} SortSpec(rs: seq<Range>)
    ensures Sorted(Sort(rs)) && multiset(Sort(rs)) == multiset(rs)
  {
    if rs != [] {
      SortSpec(rs[1..]);
      InsertBag(rs[0], Sort(rs[1..]));
      InsertSorted(rs[0], Sort(rs[1..]));
      assert rs == [rs[0]] + rs[1..];
    }
  }

  lemma {:induction false} SortKeeps(rs: seq<Range>, a: u32)
    ensures InRanges(Sort(rs), a) <==> InRanges(rs, a)
    ensures Proper(rs) ==> Proper(Sort(rs))
    ensures |Sort(rs)| == |rs|
  {
    SortSpec(rs);
    var s := Sort(rs);
    assert |s| == |multiset(s)| == |multiset(rs)| == |rs|;
    forall i | 0 <= i < |s|
      ensures s[i] in rs
    {
      assert s[i] in multiset(s);
    }
    forall i | 0 <= i < |rs|
      ensures rs[i] in s
    {
      assert rs[i] in multiset(rs);
    }
  }

  // ---------------------------------------------------------------------
  // Merging.
  // ---------------------------------------------------------------------

  function SaturatingSucc(a: u32): u32 {
    if a == TWO32 - 1 then a else a + 1
  }

  /** What one iteration of the loop does to the list built so far. */
  function MergeStep(merged: seq<Range>, r: Range): seq<Range> {
    if merged != [] && r.lo <= SaturatingSucc(merged[|merged| - 1].hi) then
      var last := merged[|merged| - 1];
      if r.hi > last.hi then merged[|merged| - 1 := Range(last.lo, r.hi)] else merged
    else
      merged + [r]
  }

  function MergeFold(rs: seq<Range>): seq<Range> {
    if rs == [] then [] else MergeStep(MergeFold(rs[..|rs| - 1]), rs[|rs| - 1])
  }

  /** The merge loop over already sorted ranges; `last_mut` updates the tail in place. */
  method MergeRanges(ranges: seq<Range>) returns (merged: seq<Range>)
    ensures merged == MergeFold(ranges)
  {
    merged := [];
    for i := 0 to |ranges|
      invariant merged == MergeFold(ranges[..i])
    {
      assert ranges[..i + 1][..i] == ranges[..i];
      var r := ranges[i];
      if |merged| > 0 {
        var last := merged[|merged| - 1];
        if r.lo <= SaturatingSucc(last.hi) {
          if r.hi > last.hi {
            merged := merged[|merged| - 1 := Range(last.lo, r.hi)];
          }
          continue;
        }
      }
      merged := merged + [r];
    }
    assert ranges[..|ranges|] == ranges;
  }

  /** Later ranges start no earlier than anything already merged. */
  ghost predicate StartsAtMost(merged: seq<Range>, s: u32) {
    forall i :: 0 <= i < |merged| ==> merged[i].lo <= s
  }

  lemma MergeStepCanonical(merged: seq<Range>, r: Range)
    requires Canonical(merged) && r.lo <= r.hi && StartsAtMost(merged, r.lo)
    ensures Canonical(MergeStep(merged, r))
    ensures StartsAtMost(MergeStep(merged, r), r.lo)
  {
  }

  lemma MergeStepUnion(merged: seq<Range>, r: Range, a: u32)
    requires Proper(merged) && r.lo <= r.hi && StartsAtMost(merged, r.lo)
    ensures InRanges(MergeStep(merged, r), a) <==> InRanges(merged, a) || Holds(r, a)
  {
    var out := MergeStep(merged, r);
    var n := |merged| - 1;
    if n >= 0 && r.lo <= SaturatingSucc(merged[n].hi) {
      assert forall i :: 0 <= i < n ==> out[i] == merged[i];
      assert Holds(out[n], a) <==> Holds(merged[n], a) || Holds(r, a);
    } else {
      assert forall i :: 0 <= i < |merged| ==> out[i] == merged[i];
      assert out[|merged|] == r;
    }
  }

  /** Merging sorted ranges gives canonical ranges with the same addresses. */
  lemma {:induction false} MergeFoldSpec(rs: seq<Range>)
    requires Sorted(rs) && Proper(rs)
    ensures Canonical(MergeFold(rs))
    ensures rs != [] ==> StartsAtMost(MergeFold(rs), rs[|rs| - 1].lo)
    ensures forall a: u32 :: InRanges(MergeFold(rs), a) <==> InRanges(rs, a)
  {
    if rs != [] {
      var prev, r := rs[..|rs| - 1], rs[|rs| - 1];
      MergeFoldSpec(prev);
      assert prev != [] ==> AtMost(prev[|prev| - 1], r);
      assert StartsAtMost(MergeFold(prev), r.lo);
      MergeStepCanonical(MergeFold(prev), r);
      forall a: u32
        ensures InRanges(MergeFold(rs), a) <==> InRanges(rs, a)
      {
        MergeStepUnion(MergeFold(prev), r, a);
        SplitLast(rs, a);
      }
    }
  }

  lemma SplitLast(rs: seq<Range>, a: u32)
    requires rs != []
    ensures InRanges(rs, a) <==> InRanges(rs[..|rs| - 1], a) || Holds(rs[|rs| - 1], a)
  {
    var prev := rs[..|rs| - 1];
    if InRanges(rs, a) {
      var i :| 0 <= i < |rs| && Holds(rs[i], a);
      assert i < |prev| ==> prev[i] == rs[i];
    }
    if InRanges(prev, a) {
      var i :| 0 <= i < |prev| && Holds(prev[i], a);
      assert rs[i] == prev[i];
    }
  }

  /** Merged ranges of any bag of ranges. */
  function Merged(rs: seq<Range>): seq<Range> {
    MergeFold(Sort(rs))
  }

  lemma {:induction false} MergedSpec(rs: seq<Range>)
    requires Proper(rs)
    ensures Canonical(Merged(rs))
    ensures forall a: u32 :: InRanges(Merged(rs), a) <==> InRanges(rs, a)
  {
    SortSpec(rs);
    SortKeeps(rs, 0);
    MergeFoldSpec(Sort(rs));
    forall a: u32
      ensures InRanges(Merged(rs), a) <==> InRanges(rs, a)
    {
      SortKeeps(rs, a);
    }
  }

  // ---------------------------------------------------------------------
  // The canonical form is unique.
  // ---------------------------------------------------------------------

  ghost predicate SameAddresses(rs: seq<Range>, ts: seq<Range>) {
    forall a: u32 :: InRanges(rs, a) <==> InRanges(ts, a)
  }

  lemma HeadIn(rs: seq<Range>, a: u32)
    requires rs != [] && Holds(rs[0], a)
    ensures InRanges(rs, a)
  {
  }

  /** The head of a canonical list starts and ends where the address set first does. */
  lemma {:induction false} HeadAtMost(rs: seq<Range>, ts: seq<Range>)
    requires Canonical(rs) && Canonical(ts) && SameAddresses(rs, ts) && rs != []
    ensures ts != [] && ts[0].lo <= rs[0].lo
  {
    HeadIn(rs, rs[0].lo);
    assert InRanges(ts, rs[0].lo);
    var i :| 0 <= i < |ts| && Holds(ts[i], rs[0].lo);
    assert i > 0 ==> ts[0].hi + 1 < ts[i].lo;
  }

  lemma {:induction false} HeadEndAtMost(rs: seq<Range>, ts: seq<Range>)
    requires Canonical(rs) && Canonical(ts) && SameAddresses(rs, ts)
    requires rs != [] && ts != [] && rs[0].lo == ts[0].lo
    ensures rs[0].hi <= ts[0].hi
  {
    var a := Min(ts[0].hi + 1, rs[0].hi);
    HeadIn(rs, a);
    assert InRanges(ts, a);
    var i :| 0 <= i < |ts| && Holds(ts[i], a);
    assert i > 0 ==> ts[0].hi + 1 < ts[i].lo;
  }

  lemma {:induction false} TailAddresses(rs: seq<Range>, a: u32)
    requires Canonical(rs) && rs != []
    ensures Canonical(rs[1..])
    ensures InRanges(rs[1..], a) <==> InRanges(rs, a) && !Holds(rs[0], a)
  {
    if InRanges(rs, a) && !Holds(rs[0], a) {
      var i :| 0 <= i < |rs| && Holds(rs[i], a);
      assert rs[1..][i - 1] == rs[i];
    }
    if InRanges(rs[1..], a) {
      var i :| 0 <= i < |rs[1..]| && Holds(rs[1..][i], a);
      assert rs[i + 1] == rs[1..][i];
    }
  }

  /** A set of addresses has only one canonical list. */
  lemma {:induction false} CanonicalUnique(rs: seq<Range>, ts: seq<Range>)
    requires Canonical(rs) && Canonical(ts) && SameAddresses(rs, ts)
    ensures rs == ts
  {
    if rs == [] {
      if ts != [] {
        HeadAtMost(ts, rs);
      }
    } else {
      HeadAtMost(rs, ts);
      HeadAtMost(ts, rs);
      HeadEndAtMost(rs, ts);
      HeadEndAtMost(ts, rs);
      forall a: u32
        ensures InRanges(rs[1..], a) <==> InRanges(ts[1..], a)
      {
        TailAddresses(rs, a);
        TailAddresses(ts, a);
      }
      TailAddresses(rs, 0);
      TailAddresses(ts, 0);
      CanonicalUnique(rs[1..], ts[1..]);
      assert rs == [rs[0]] + rs[1..] && ts == [ts[0]] + ts[1..];
    }
  }

  /** Two bags of ranges merge to the same list exactly when they hold the same addresses. */
  lemma {:induction false} MergeDependsOnAddresses(rs: seq<Range>, ts: seq<Range>)
    requires Proper(rs) && Proper(ts)
    ensures Merged(rs) == Merged(ts) <==> SameAddresses(rs, ts)
  {
    MergedSpec(rs);
    MergedSpec(ts);
    if SameAddresses(rs, ts) {
      CanonicalUnique(Merged(rs), Merged(ts));
    }
  }
}
