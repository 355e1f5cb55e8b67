/** The range-to-prefix splitter of the runtime extractor: an inclusive address range
    becomes a list of aligned blocks, largest first fit. */
module RangeSplit {
  import opened Bits
  import opened Cidrs

  /** `63 - span.leading_zeros()` on a 64-bit span: the floor of its base-2 logarithm. */
  function LeadingZeros64(x: nat): int {
    64 - BitLength(x)
  }

  function SpanBits(span: nat): (r: nat)
    requires span > 0
    ensures P2(r) <= span < P2(r + 1)
  {
    BitLengthSpec(span);
    BitLength(span) - 1
  }

  /** Host bits of the block emitted at `start`: limited by alignment and by what is left. */
  function BlockBits(start: u32, end: u32): (bits: nat)
    requires start <= end
    ensures bits <= 32 && Aligned(start, bits)
    ensures start + P2(bits) <= end + 1
  {
    TrailingZerosSpec(start);
    var t, s := TrailingZeros(start), SpanBits(end - start + 1);
    AlignedWeaken(start, Min(t, s), t);
    P2Monotone(Min(t, s), s);
    Min(t, s)
  }

  /** The block list as a function of the range. */
  function Split(start: u32, end: u32): seq<Cidr>
    requires start <= end
    decreases end - start
  {
    var bits := BlockBits(start, end);
    var next := start + P2(bits);
    [Cidr(start, 32 - bits)] + if next > end then [] else Split(next, end)
  }

  lemma BlockBitsIs(start: u32, end: u32)
    requires start <= end
    ensures BlockBits(start, end) == Min(TrailingZeros(start), BitLength(end - start + 1) - 1)
    ensures BlockBits(start, end) == Min(TrailingZeros(start), SpanBits(end - start + 1))
  {
    hide Shr, FloorTo, Aligned, OddShift, BitLength, TrailingZeros, P2;
  }

  lemma SplitStep(start: u32, end: u32, acc: seq<Cidr>)
    requires start <= end
    ensures var bits := BlockBits(start, end);
            var next := start + P2(bits);
            var rest := if next > end then [] else Split(next, end);
            acc + Split(start, end) == acc + [Cidr(start, 32 - bits)] + rest
  {
    hide Shr, FloorTo, Aligned, OddShift, BitLength, BlockBits, P2;
  }

  /** `range_to_cidrs`, with the source's 64-bit span and its truncation back to 32 bits. */
  method RangeToCidrs(first: u32, end: u32, acc: seq<Cidr>) returns (out: seq<Cidr>)
    requires first <= end
    ensures out == acc + Split(first, end)
  {
    hide Shr, FloorTo, Aligned, OddShift, BitLength, SpanBits, BlockBits, Split, TrailingZeros;
    var start := first;
    out := acc;
    while true
      invariant start <= end
      invariant out + Split(start, end) == acc + Split(first, end)
      decreases end - start
    {
      var alignBits := TrailingZeros(start);
      var span: nat := end - start + 1;
      var spanBits := 63 - LeadingZeros64(span);
      var bits := Min(alignBits, spanBits);
      BlockBitsIs(start, end);
      SplitStep(start, end, out);
      var next := start + P2(bits);
      out := out + [Cidr(start, 32 - bits)];
      if next > end {
        break;
      }
      start := next % TWO32;
    }
  }

  // ---------------------------------------------------------------------
  // The split covers exactly the range.
  // ---------------------------------------------------------------------

  lemma {:induction false} SplitShape(start: u32, end: u32)
    requires start <= end
    ensures AllValid(Split(start, end)) && Ordered(Split(start, end))
    ensures Within(Split(start, end), start, end + 1)
    decreases end - start
  {
    hide Shr, FloorTo, BitLength, SpanBits, BlockBits;
    var next := start + P2(BlockBits(start, end));
    var c := Cidr(start, 32 - BlockBits(start, end));
    if next <= end {
      SplitShape(next, end);
      Concat([c], Split(next, end), start, next, end + 1);
    }
  }

  lemma {:induction false} SplitCovers(start: u32, end: u32, a: u32)
    requires start <= end
    ensures CoveredBy(Split(start, end), a) <==> start <= a <= end
    decreases end - start
  {
    hide Shr, FloorTo, BitLength, SpanBits, BlockBits;
    var next := start + P2(BlockBits(start, end));
    var c := Cidr(start, 32 - BlockBits(start, end));
    assert CoveredBy([c], a) <==> Covers([c][0], a);
    if next <= end {
      SplitCovers(next, end, a);
      CoveredConcat([c], Split(next, end), a);
    } else {
      assert Split(start, end) == [c];
    }
  }

  // ---------------------------------------------------------------------
  // Every block is as large as the range allows.
  // ---------------------------------------------------------------------

  /** The parent of the block sticks out of [lo, hi]. */
  ghost predicate Escapes(c: Cidr, lo: int, hi: int) {
    0 < c.prefix <= 32 ==> Parent(c).addr < lo || End(Parent(c)) > hi + 1
  }

  /** Where a run that began at `lo` has got to: still limited by alignment, or limited by
      the span for good. */
  ghost predicate Rising(lo: u32, start: u32) {
    lo <= start && start - lo < P2(TrailingZeros(start))
  }

  ghost predicate Falling(start: u32, end: u32) {
    start <= end && SpanBits(end - start + 1) < TrailingZeros(start)
  }

  /** The parent of a block at `start`, twice as long, begins before `lo`. */
  lemma RisingEscapes(lo: u32, start: u32, end: u32, t: nat)
    requires t == TrailingZeros(start) <= 32 && lo <= start && start - lo < P2(t)
    ensures Escapes(Cidr(start, 32 - t), lo, end)
  {
    hide Shr, FloorTo, Aligned, OddShift, P2;
    TrailingZerosSpec(start);
  }

  lemma RisingNext(lo: u32, start: u32, t: nat)
    requires 0 < start && t == TrailingZeros(start) && lo <= start && start - lo < P2(t) && start + P2(t) < TWO32
    ensures Rising(lo, start + P2(t)) && TrailingZeros(start + P2(t)) > t
  {
    hide Shr, FloorTo, Aligned, OddShift, TrailingZeros, P2;
    TrailingZerosSpec(start);
    var next := start + P2(t);
    DoublePower(1, t + 1);
    assert next == FloorTo(start, t + 1) + P2(t + 1);
    FloorAligned(start, t + 1);
    AlignedAfter(FloorTo(start, t + 1), t + 1);
    TrailingZerosMax(next, t + 1);
    P2Monotone(t + 1, TrailingZeros(next));
  }

  lemma FloorAligned(a: nat, k: nat)
    ensures Aligned(FloorTo(a, k), k)
  {
    hide Shr, Aligned;
    AlignedMultiple(Shr(a, k), k);
  }

  lemma {:induction false} RisingStep(lo: u32, start: u32, end: u32)
    requires start <= end && Rising(lo, start) && !Falling(start, end)
    ensures BlockBits(start, end) == TrailingZeros(start)
    ensures Escapes(Cidr(start, 32 - BlockBits(start, end)), lo, end)
    ensures var next := start + P2(BlockBits(start, end));
            next <= end ==> Rising(lo, next) && TrailingZeros(next) > TrailingZeros(start)
  {
    hide Shr, FloorTo, Aligned, OddShift, BitLength, SpanBits, BlockBits, Escapes, P2;
    var t := TrailingZeros(start);
    TrailingZerosSpec(start);
    BlockBitsIs(start, end);
    RisingEscapes(lo, start, end, t);
    if start + P2(t) <= end {
      P2Values();
      RisingNext(lo, start, t);
    }
  }

  lemma {:induction false} FallingStep(lo: u32, start: u32, end: u32)
    requires Falling(start, end)
    ensures BlockBits(start, end) == SpanBits(end - start + 1) <= 31
    ensures Escapes(Cidr(start, 32 - BlockBits(start, end)), lo, end)
    ensures var next := start + P2(BlockBits(start, end));
            next <= end ==> Falling(next, end) && SpanBits(end - next + 1) < SpanBits(end - start + 1)
  {
    hide Shr, FloorTo, Aligned, OddShift, BitLength, SpanBits, BlockBits, TrailingZeros;
    TrailingZerosSpec(start);
    BlockBitsIs(start, end);
    var b := SpanBits(end - start + 1);
    AlignedWeaken(start, b + 1, TrailingZeros(start));
    AlignedParentEscapes(lo, start, end, b);
    var next := start + P2(b);
    if next <= end {
      AlignedWeaken(start, b, b + 1);
      AlignedAfter(start, b);
      TrailingZerosMax(next, b);
      DoublePower(1, b + 1);
      SpanBitsBelow(end - next + 1, b);
    }
  }

  lemma AlignedAfter(start: nat, b: nat)
    requires Aligned(start, b)
    ensures Aligned(start + P2(b), b)
  {
    AlignedPower(b, b);
    AlignedAdd(start, P2(b), b);
  }

  lemma AlignedParentEscapes(lo: u32, start: u32, end: u32, b: nat)
    requires b <= 31 && Aligned(start, b + 1) && start <= end && end - start + 1 < P2(b + 1)
    ensures Escapes(Cidr(start, 32 - b), lo, end)
  {
    hide Shr;
  }

  lemma {:induction false} SplitEscapes(lo: u32, start: u32, end: u32)
    requires start <= end && lo <= start && (Rising(lo, start) || Falling(start, end))
    ensures forall i :: 0 <= i < |Split(start, end)| ==> Escapes(Split(start, end)[i], lo, end)
    decreases end - start
  {
    hide Shr, FloorTo, Aligned, OddShift, BitLength, SpanBits, BlockBits;
    hide Falling, Rising, Escapes, TrailingZeros;
    if Falling(start, end) {
      FallingStep(lo, start, end);
    } else {
      RisingStep(lo, start, end);
    }
    var next := start + P2(BlockBits(start, end));
    if next <= end {
      SplitEscapes(lo, next, end);
    }
  }

  // ---------------------------------------------------------------------
  // Block sizes rise, then fall; at most 62 blocks.
  // ---------------------------------------------------------------------

  /** Sizes strictly increase before position m and strictly decrease from it on. */
  ghost predicate UnimodalAt(cs: seq<Cidr>, m: nat) {
    && m <= |cs|
    && (forall i, j :: 0 <= i < j < m ==> HostBits(cs[i]) < HostBits(cs[j]))
    && (forall i, j :: m <= i < j < |cs| ==> HostBits(cs[i]) > HostBits(cs[j]))
  }

  /** The size of a block is what the alignment of its start allows, or what the span does. */
  ghost predicate AlignmentDecides(c: Cidr, end: u32) {
    c.addr <= end && HostBits(c) == TrailingZeros(c.addr) <= SpanBits(end - c.addr + 1)
  }

  ghost predicate SpanDecides(c: Cidr, end: u32) {
    c.addr <= end && HostBits(c) == SpanBits(end - c.addr + 1) < TrailingZeros(c.addr)
  }

  /** Alignment decides before position m, the span from it on. */
  ghost predicate SwitchesAt(cs: seq<Cidr>, end: u32, m: nat) {
    && m <= |cs|
    && (forall i :: 0 <= i < m ==> AlignmentDecides(cs[i], end))
    && (forall i :: m <= i < |cs| ==> SpanDecides(cs[i], end))
  }

  lemma FallingDecides(start: u32, end: u32)
    requires Falling(start, end)
    ensures BlockBits(start, end) <= 32 && SpanDecides(Cidr(start, 32 - BlockBits(start, end)), end)
    ensures var next := start + P2(BlockBits(start, end));
            next <= end ==> Falling(next, end)
  {
    hide Shr, FloorTo, Aligned, OddShift, BitLength, SpanBits, BlockBits, TrailingZeros;
    FallingStep(start, start, end);
  }

  lemma {:induction false} FallingSwitched(start: u32, end: u32)
    requires Falling(start, end)
    ensures SwitchesAt(Split(start, end), end, 0)
    decreases end - start
  {
    hide Shr, FloorTo, Aligned, OddShift, BitLength, SpanBits, BlockBits, TrailingZeros, SpanDecides, Falling;
    FallingDecides(start, end);
    var next := start + P2(BlockBits(start, end));
    if next <= end {
      FallingSwitched(next, end);
      var rest, cs := Split(next, end), Split(start, end);
      assert forall k :: 1 <= k < |cs| ==> cs[k] == rest[k - 1];
    }
  }

  lemma PrependRising(c: Cidr, rest: seq<Cidr>, end: u32, n: nat)
    requires SwitchesAt(rest, end, n) && AlignmentDecides(c, end)
    ensures SwitchesAt([c] + rest, end, n + 1)
  {
    hide AlignmentDecides, SpanDecides;
    var cs := [c] + rest;
    assert forall k :: 1 <= k < |cs| ==> cs[k] == rest[k - 1];
  }

  lemma PrependLarger(c: Cidr, rest: seq<Cidr>)
    requires UnimodalAt(rest, 0) && rest != [] && HostBits(c) > HostBits(rest[0])
    ensures UnimodalAt([c] + rest, 0)
  {
    hide HostBits;
    var cs := [c] + rest;
    assert forall k :: 1 <= k < |cs| ==> cs[k] == rest[k - 1];
    assert forall k :: 0 <= k < |rest| ==> HostBits(rest[k]) <= HostBits(rest[0]);
  }

  lemma OneBlock(c: Cidr)
    ensures UnimodalAt([c], 0) && UnimodalAt([c], 1)
  {
  }

  lemma {:induction false} FallingSizes(start: u32, end: u32)
    requires Falling(start, end)
    ensures var cs := Split(start, end);
            && HostBits(cs[0]) == SpanBits(end - start + 1)
            && UnimodalAt(cs, 0)
            && |cs| <= HostBits(cs[0]) + 1
    decreases end - start
  {
    hide Shr, FloorTo, Aligned, OddShift, BitLength, SpanBits, BlockBits, TrailingZeros, Falling, P2, UnimodalAt;
    FallingStep(start, start, end);
    var next := start + P2(BlockBits(start, end));
    var c := Cidr(start, 32 - BlockBits(start, end));
    if next <= end {
      FallingSizes(next, end);
      assert Split(start, end) == [c] + Split(next, end);
      PrependLarger(c, Split(next, end));
    } else {
      assert Split(start, end) == [c];
      OneBlock(c);
    }
  }

  lemma PrependSmaller(c: Cidr, rest: seq<Cidr>, n: nat)
    requires UnimodalAt(rest, n)
    requires forall i :: 0 <= i < n ==> HostBits(c) < HostBits(rest[i])
    ensures UnimodalAt([c] + rest, n + 1)
  {
    var cs := [c] + rest;
    assert forall k :: 1 <= k < |cs| ==> cs[k] == rest[k - 1];
  }

  /** The number of blocks whose size alignment decides. */
  ghost function SwitchOf(start: u32, end: u32): nat
    requires start <= end
    decreases end - start
  {
    if Falling(start, end) then 0
    else
      var next := start + P2(BlockBits(start, end));
      1 + if next > end then 0 else SwitchOf(next, end)
  }

  lemma RisingDecides(lo: u32, start: u32, end: u32)
    requires start <= end && Rising(lo, start) && !Falling(start, end)
    ensures BlockBits(start, end) <= 32 && AlignmentDecides(Cidr(start, 32 - BlockBits(start, end)), end)
    ensures var next := start + P2(BlockBits(start, end));
            next <= end ==> Rising(lo, next)
  {
    hide Shr, FloorTo, Aligned, OddShift, BitLength, SpanBits, BlockBits, TrailingZeros, Rising, P2, Escapes;
    RisingStep(lo, start, end);
  }

  lemma {:induction false} RisingSwitched(lo: u32, start: u32, end: u32)
    requires start <= end && Rising(lo, start)
    ensures SwitchesAt(Split(start, end), end, SwitchOf(start, end))
    decreases end - start
  {
    hide Shr, FloorTo, Aligned, OddShift, BitLength, SpanBits, BlockBits, TrailingZeros, Falling, Rising;
    hide AlignmentDecides, SpanDecides;
    if Falling(start, end) {
      FallingSwitched(start, end);
    } else {
      RisingDecides(lo, start, end);
      var next := start + P2(BlockBits(start, end));
      var c := Cidr(start, 32 - BlockBits(start, end));
      if next <= end {
        RisingSwitched(lo, next, end);
        PrependRising(c, Split(next, end), end, SwitchOf(next, end));
      } else {
        assert Split(start, end) == [c];
      }
    }
  }

  /** Sizes rise up to the switch and fall from it on. */
  lemma {:induction false} RisingSizes(lo: u32, start: u32, end: u32)
    requires start <= end && Rising(lo, start)
    ensures UnimodalAt(Split(start, end), SwitchOf(start, end))
    ensures forall i :: 0 <= i < SwitchOf(start, end) ==> HostBits(Split(start, end)[i]) >= TrailingZeros(start)
    decreases end - start
  {
    hide Shr, FloorTo, Aligned, OddShift, BitLength, SpanBits, BlockBits, TrailingZeros, Falling, Rising, P2, Escapes;
    hide UnimodalAt;
    if Falling(start, end) {
      FallingSizes(start, end);
    } else {
      RisingStep(lo, start, end);
      var next := start + P2(BlockBits(start, end));
      var c := Cidr(start, 32 - BlockBits(start, end));
      if next <= end {
        RisingSizes(lo, next, end);
        assert Split(start, end) == [c] + Split(next, end);
        PrependSmaller(c, Split(next, end), SwitchOf(next, end));
      } else {
        assert Split(start, end) == [c];
        OneBlock(c);
      }
    }
  }

  lemma {:induction false} RisingCount(lo: u32, start: u32, end: u32)
    requires 0 < start <= end && Rising(lo, start)
    ensures |Split(start, end)| <= 62 - TrailingZeros(start)
    decreases end - start
  {
    hide Shr, FloorTo, Aligned, OddShift, BitLength, SpanBits, BlockBits;
    TrailingZerosSpec(start);
    if Falling(start, end) {
      FallingSizes(start, end);
    } else {
      RisingStep(lo, start, end);
      var next := start + P2(BlockBits(start, end));
      if next <= end {
        RisingCount(lo, next, end);
      }
    }
  }

  /** Sizes rise strictly while alignment decides them and fall strictly once the span does. */
  lemma {:induction false} SplitUnimodal(start: u32, end: u32)
    requires start <= end
    ensures exists m :: UnimodalAt(Split(start, end), m) && SwitchesAt(Split(start, end), end, m)
  {
    RisingSizes(start, start, end);
    RisingSwitched(start, start, end);
  }

  /** A 32-bit range never needs more than 62 blocks. */
  lemma {:induction false} SplitAtMost62(start: u32, end: u32)
    requires start <= end
    ensures |Split(start, end)| <= 62
  {
    if start > 0 {
      RisingCount(start, start, end);
    } else if Falling(0, end) {
      FallingSizes(0, end);
      FallingStep(0, 0, end);
    } else {
      RisingStep(0, 0, end);
      P2Values();
    }
  }

  lemma {:induction false} FallingRun(j: nat)
    requires 1 <= j <= 31
    ensures 0 < TWO32 - P2(j) <= TWO32 - 2
    ensures |Split(TWO32 - P2(j), TWO32 - 2)| == j
  {
    hide Shr, FloorTo, Aligned, OddShift, BitLength, SpanBits, BlockBits, TrailingZeros, P2;
    FallingRunBits(j);
    DoublePower(1, j);
    if j > 1 {
      FallingRun(j - 1);
    }
  }

  lemma FallingRunBits(j: nat)
    requires 1 <= j <= 31
    ensures 2 <= P2(j) < TWO32 && P2(0) == 1
    ensures BlockBits(TWO32 - P2(j), TWO32 - 2) == j - 1
  {
    hide Shr, FloorTo, Aligned, OddShift, BitLength, SpanBits, BlockBits, TrailingZeros, P2;
    P2Values();
    P2Monotone(j, 31);
    P2Monotone(1, j);
    DoublePower(1, j);
    var start: u32, end: u32 := TWO32 - P2(j), TWO32 - 2;
    AlignedAbove(j);
    TrailingZerosMax(start, j);
    BitLengthUnique(end - start + 1, j - 1);
    BlockBitsIs(start, end);
  }

  lemma AlignedAbove(j: nat)
    requires j <= 32
    ensures P2(j) <= TWO32 && Aligned(TWO32 - P2(j), j)
  {
    hide Shr, FloorTo, Aligned, P2;
    P2Values();
    P2Add(32 - j, j);
    P2Monotone(j, 32);
    PredTimes(P2(32 - j), P2(j));
    AlignedMultiple(P2(32 - j) - 1, j);
  }

  lemma PredTimes(q: nat, p: nat)
    requires q >= 1
    ensures (q - 1) * p == q * p - p
  {
  }

  lemma {:induction false} RisingRun(k: nat)
    requires k <= 31
    ensures 0 < P2(k) <= TWO32 - 2
    ensures |Split(P2(k), TWO32 - 2)| == 62 - k
    decreases 31 - k
  {
    hide Shr, FloorTo, Aligned, OddShift, BitLength, SpanBits, TrailingZeros, BlockBits, P2;
    P2Values();
    P2Monotone(k, 31);
    DoublePower(1, k + 1);
    if k == 31 {
      FallingRun(31);
    } else {
      P2Monotone(k, 30);
      RisingRun(k + 1);
      RisingRunStep(P2(k), k);
    }
  }

  lemma RisingRunStep(start: u32, k: nat)
    requires k <= 30 && start == P2(k) <= TWO32 / 4
    ensures BlockBits(start, TWO32 - 2) == k
  {
    hide Shr, FloorTo, Aligned, OddShift, BitLength, SpanBits, TrailingZeros, BlockBits;
    BlockBitsIs(start, TWO32 - 2);
    PowerTrailingZeros(start, k);
    SpanBitsAtLeast(TWO32 - 2 - start + 1, k);
  }

  lemma PowerTrailingZeros(x: u32, k: nat)
    requires x == P2(k)
    ensures TrailingZeros(x) == k
  {
    hide Shr, FloorTo, OddShift, TrailingZeros;
    TrailingZerosSpec(x);
    AlignedPower(k, k);
    TrailingZerosMax(x, k);
    var t := TrailingZeros(x);
    if t > k {
      AlignedMultiple(0, t);
      AlignedGap(0, x, t);
      P2Less(k, t);
    }
  }

  lemma SpanBitsAtLeast(span: nat, k: nat)
    requires 0 < span && P2(k) <= span
    ensures SpanBits(span) >= k
  {
    hide BitLength, SpanBits;
    var s := SpanBits(span);
    if s < k {
      P2Monotone(s + 1, k);
    }
  }

  lemma SpanBitsBelow(span: nat, k: nat)
    requires 0 < span < P2(k)
    ensures SpanBits(span) < k
  {
    hide BitLength, SpanBits;
    var s := SpanBits(span);
    if s >= k {
      P2Monotone(k, s);
    }
  }

  /** The bound of 62 blocks is reached, by [0.0.0.1, 255.255.255.254]. */
  lemma SixtyTwoReached()
    ensures |Split(1, TWO32 - 2)| == 62
  {
    RisingRun(0);
  }
}
