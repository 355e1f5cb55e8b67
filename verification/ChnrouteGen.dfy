/** The host tool's own copy of the splitter: 32-bit saturating span, checked shift and
    checked addition in place of the 64-bit arithmetic of the runtime extractor. */
module ChnrouteGen {
  import opened Bits
  import opened Common
  import opened Cidrs
  import opened RangeSplit

  const MAX32: u32 := TWO32 - 1

  function SaturatingAdd(a: u32, b: u32): u32 {
    if a + b < TWO32 then a + b else MAX32
  }

  function CheckedAdd(a: u32, b: u32): Option<u32> {
    if a + b < TWO32 then Some(a + b) else None
  }

  /** `u32::leading_zeros`. */
  function LeadingZeros32(x: u32): int {
    32 - BitLength(x)
  }

  /** `1u32.checked_shl(bits).unwrap_or(0)`. */
  function ShiftOrZero(bits: nat): u32 {
    if bits < 32 then (P2Values(); P2Monotone(bits, 31); P2(bits)) else 0
  }

  /** What this splitter emits: the other splitter's list, except that the whole address
      space, whose span does not fit 32 bits, becomes two halves. */
  function SplitGen(start: u32, end: u32): seq<Cidr> {
    if start > end then []
    else if start == 0 && end == MAX32 then [Cidr(0, 1), Cidr(0x8000_0000, 1)]
    else Split(start, end)
  }

  function GenBits(start: u32, end: u32): (bits: int)
    requires start <= end
  {
    var byAlign := if start == 0 then 32 else TrailingZeros(start);
    var bySpan := 32 - Min(LeadingZeros32(SaturatingAdd(end - start, 1)), 32);
    Min(byAlign, if bySpan == 0 then 0 else bySpan - 1)
  }

  lemma GenBitsIs(start: u32, end: u32)
    requires start <= end
    ensures start == 0 && end == MAX32 ==> GenBits(start, end) == 31
    ensures !(start == 0 && end == MAX32) ==> GenBits(start, end) == BlockBits(start, end) <= 31
  {
    hide P2, BitLength, OddShift, Shr, FloorTo, Aligned, BlockBits, SpanBits, TrailingZeros;
    P2Values();
    if start == 0 && end == MAX32 {
      BitLengthUnique(MAX32, 31);
      assert TrailingZeros(0) == 32 by { TrailingZerosOfZero(); }
    } else {
      BlockBitsIs(start, end);
      var span := end - start + 1;
      BitLengthSpec(span);
      if BitLength(span) > 32 {
        P2Monotone(32, BitLength(span) - 1);
      }
      TrailingZerosSpec(start);
      assert start == 0 ==> TrailingZeros(start) == 32 by { TrailingZerosOfZero(); }
    }
  }

  lemma TrailingZerosOfZero()
    ensures TrailingZeros(0) == 32
  {
  }

  /** One iteration peels one block off, on every range. */
  lemma GenStep(start: u32, end: u32, acc: seq<Cidr>)
    requires start <= end
    ensures 0 <= GenBits(start, end) <= 31
    ensures var bits := GenBits(start, end);
            var next := start + P2(bits);
            acc + SplitGen(start, end)
              == acc + [Cidr(start, 32 - bits)] + (if next >= TWO32 then [] else SplitGen(next, end))
  {
    hide P2, BitLength, OddShift, Shr, FloorTo, Aligned, BlockBits, SpanBits, TrailingZeros, GenBits;
    GenBitsIs(start, end);
    P2Values();
    if start == 0 && end == MAX32 {
      UpperHalf();
    } else {
      SplitStep(start, end, acc);
    }
  }

  lemma UpperHalf()
    ensures Split(0x8000_0000, MAX32) == [Cidr(0x8000_0000, 1)]
  {
    hide P2, BitLength, OddShift, Shr, FloorTo, Aligned, BlockBits, SpanBits, TrailingZeros;
    P2Values();
    BlockBitsIs(0x8000_0000, MAX32);
    PowerTrailingZeros(0x8000_0000, 31);
    BitLengthUnique(0x8000_0000, 31) by { assert P2(32) == TWO32; }
    SplitStep(0x8000_0000, MAX32, []);
  }

  method RangeToCidrs32(first: u32, end: u32, acc: seq<Cidr>) returns (out: seq<Cidr>)
    ensures out == acc + SplitGen(first, end)
  {
    hide P2, BitLength, OddShift, Shr, FloorTo, Aligned, BlockBits, SpanBits, TrailingZeros;
    var start: u32 := first;
    out := acc;
    while start <= end
      invariant out + SplitGen(start, end) == acc + SplitGen(first, end)
      decreases end - start
    {
      var byAlign := if start == 0 then 32 else TrailingZeros(start);
      var bySpan := 32 - Min(LeadingZeros32(SaturatingAdd(end - start, 1)), 32);
      var bits := Min(byAlign, if bySpan == 0 then 0 else bySpan - 1);
      GenStep(start, end, out);
      out := out + [Cidr(start, 32 - bits)];
      var block := ShiftOrZero(bits);
      match CheckedAdd(start, block) {
        case Some(next) =>
          if block == 0 { break; }
          start := next;
        case None =>
          break;
      }
    }
  }

  /** The two splitters emit the same list exactly when the range is not the whole space. */
  lemma SplittersAgree(start: u32, end: u32)
    requires start <= end
    ensures SplitGen(start, end) == Split(start, end) <==> !(start == 0 && end == MAX32)
  {
    if start == 0 && end == MAX32 {
      WholeSpaceSplit();
    }
  }

  lemma WholeSpaceSplit()
    ensures Split(0, MAX32) == [Cidr(0, 0)]
  {
    hide P2, BitLength, OddShift, Shr, FloorTo, Aligned, BlockBits, SpanBits, TrailingZeros;
    P2Values();
    BlockBitsIs(0, MAX32);
    TrailingZerosOfZero();
    BitLengthUnique(TWO32, 32) by { assert P2(33) == 2 * P2(32) by { DoublePower(1, 33); } }
    SplitStep(0, MAX32, []);
  }

  /** Both cover exactly the range, whole space included. */
  lemma {:induction false} SplitGenCovers(start: u32, end: u32, a: u32)
    ensures CoveredBy(SplitGen(start, end), a) <==> start <= a <= end
  {
    hide BitLength, OddShift, Shr, FloorTo, Aligned, BlockBits, SpanBits, TrailingZeros, P2, Split;
    if start == 0 && end == MAX32 {
      P2Values();
      var cs := SplitGen(start, end);
      assert Covers(cs[0], a) || Covers(cs[1], a);
    } else if start <= end {
      SplitCovers(start, end, a);
    }
  }
}
