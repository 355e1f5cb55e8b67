/** The base64 carrier encoding (section 4 of RFC 4648): an encoder working on groups of three
    bytes and a decoder whose 32-bit accumulator is never masked. */
module Base64 {
  import opened Bits
  import opened Common

  /** Value of a six-bit group. */
  type Six = x: int | 0 <= x < 64

  const PAD: byte := 61
  const INVALID: byte := 0xFF

  /** The standard alphabet, by code ranges. */
  function Symbol(v: Six): (c: byte)
    ensures c != PAD
  {
    if v < 26 then 65 + v
    else if v < 52 then 71 + v
    else if v < 62 then v - 4
    else if v == 62 then 43
    else 47
  }

  const ALPHABET := "ABCDEFGHIJKLMNOPQRSTUVWXYZ" + "abcdefghijklmnopqrstuvwxyz" + "0123456789+/"

  /** The alphabet literal spells exactly these codes. */
  lemma AlphabetSpelled()
    ensures |ALPHABET| == 64
    ensures forall v: Six :: ALPHABET[v] as int == Symbol(v)
  {
    forall v: Six
      ensures ALPHABET[v] as int == Symbol(v)
    {
      if v < 26 {
        UpperSpelled(v);
      } else if v < 52 {
        LowerSpelled(v - 26);
      } else {
        DigitsSpelled(v - 52);
      }
    }
  }

  lemma UpperSpelled(i: nat)
    requires i < 26
    ensures "ABCDEFGHIJKLMNOPQRSTUVWXYZ"[i] as int == 65 + i
  {
  }

  lemma LowerSpelled(i: nat)
    requires i < 26
    ensures "abcdefghijklmnopqrstuvwxyz"[i] as int == 97 + i
  {
  }

  lemma DigitsSpelled(i: nat)
    requires i < 12
    ensures "0123456789+/"[i] as int == if i < 10 then 48 + i else if i == 10 then 43 else 47
  {
  }

  /** `B64[v]`. */
  function Letter(v: Six): (c: byte)
    ensures c == Symbol(v)
  {
    AlphabetSpelled();
    ALPHABET[v] as int
  }

  /** The reverse lookup: the value of a symbol, or the invalid mark. */
  function Reverse(c: byte): (r: byte)
    ensures r == INVALID || (r < 64 && Symbol(r) == c)
  {
    if 65 <= c <= 90 then c - 65
    else if 97 <= c <= 122 then c - 71
    else if 48 <= c <= 57 then c + 4
    else if c == 43 then 62
    else if c == 47 then 63
    else INVALID
  }

  lemma ReverseInverts(v: Six)
    ensures Reverse(Symbol(v)) == v
  {
  }

  /** Building the 256-entry table symbol by symbol yields the reverse lookup. */
  method BuildReverseTable() returns (t: array<byte>)
    ensures t.Length == 256
    ensures forall c: byte :: t[c] == Reverse(c)
  {
    t := new byte[256](_ => INVALID);
    for i := 0 to 64
      invariant forall c: byte :: t[c] == if Reverse(c) < i then Reverse(c) else INVALID
    {
      ReverseInverts(i);
      t[Letter(i)] := i;
    }
  }

  // ---------------------------------------------------------------------
  // Numbers behind the two digit strings.
  // ---------------------------------------------------------------------

  /** Big-endian value of six-bit groups. */
  function SixValue(vs: seq<Six>): nat {
    if vs == [] then 0 else SixValue(vs[..|vs| - 1]) * 64 + vs[|vs| - 1]
  }

  /** Big-endian value of bytes. */
  function ByteValue(bs: seq<byte>): nat {
    if bs == [] then 0 else ByteValue(bs[..|bs| - 1]) * 256 + bs[|bs| - 1]
  }

  /** Complete bytes in n groups, and the bits left over. */
  function ByteCount(n: nat): nat {
    6 * n / 8
  }

  function RestBits(n: nat): nat {
    6 * n % 8
  }

  /** Byte j of the bit string of the groups, read from the most significant end. */
  function StreamByte(vs: seq<Six>, j: nat): byte
    requires 8 * (j + 1) <= 6 * |vs|
  {
    Shr(SixValue(vs), 6 * |vs| - 8 * (j + 1)) % 256
  }

  /** The complete bytes of the bit string of the groups: what decoding means. */
  function StreamBytes(vs: seq<Six>): (bs: seq<byte>)
    ensures |bs| == ByteCount(|vs|)
    ensures forall j :: 0 <= j < |bs| ==> bs[j] == StreamByte(vs, j)
  {
    seq(ByteCount(|vs|), j requires 0 <= j < ByteCount(|vs|) => StreamByte(vs, j))
  }

  // ---------------------------------------------------------------------
  // Decoding.
  // ---------------------------------------------------------------------

  /** The bytes before the first padding character. */
  function BeforePad(input: seq<byte>): seq<byte> {
    if input == [] || input[0] == PAD then [] else [input[0]] + BeforePad(input[1..])
  }

  predicate AllSymbols(s: seq<byte>) {
    forall i :: 0 <= i < |s| ==> Reverse(s[i]) != INVALID
  }

  function Values(s: seq<byte>): (vs: seq<Six>)
    requires AllSymbols(s)
    ensures |vs| == |s| && forall i :: 0 <= i < |s| ==> vs[i] == Reverse(s[i])
  {
    seq(|s|, i requires 0 <= i < |s| => Reverse(s[i]))
  }

  lemma SixShift(v: nat, x: Six, k: nat)
    ensures Shr(v * 64 + x, k + 6) == Shr(v, k)
  {
    P2Values();
    ShrUnique(v * 64 + x, 6, v);
    ShrShr(v * 64 + x, 6, k);
  }

  /** Appending a group leaves the bytes already complete unchanged. */
  lemma StreamByteStable(vs: seq<Six>, x: Six, j: nat)
    requires 8 * (j + 1) <= 6 * |vs|
    ensures StreamByte(vs + [x], j) == StreamByte(vs, j)
  {
    hide Shr;
    assert (vs + [x])[..|vs|] == vs;
    SixShift(SixValue(vs), x, 6 * |vs| - 8 * (j + 1));
  }

  /** A multiple of 2^(j + k) only adds a multiple of 2^j to what is left after k bits. */
  lemma ShrPlusMultiple(q: nat, m: nat, j: nat, k: nat)
    ensures Shr(q * P2(j + k) + m, k) == q * P2(j) + Shr(m, k)
  {
    hide Shr, P2;
    P2Add(j, k);
    ProductAssoc(q, P2(j), P2(k));
    ShrBounds(m, k);
    SumTimes(q * P2(j), Shr(m, k), P2(k));
    ShrUnique(q * P2(j + k) + m, k, q * P2(j) + Shr(m, k));
  }

  /** The low bits of the unmasked accumulator are all a byte extraction needs. */
  lemma LowBitsSuffice(v: nat, k: nat)
    requires k <= 24
    ensures Shr(v % TWO32, k) % 256 == Shr(v, k) % 256
  {
    hide Shr, P2;
    P2Values();
    var q := v / TWO32;
    ShrPlusMultiple(q, v % TWO32, 32 - k, k);
    P2Add(24 - k, 8);
    ProductAssoc(q, P2(24 - k), 256);
    MultipleOf256(q * P2(24 - k), Shr(v % TWO32, k));
  }

  lemma ProductAssoc(a: nat, b: nat, c: nat)
    ensures a * b * c == a * (b * c)
  {
  }

  lemma SumTimes(a: nat, b: nat, c: nat)
    ensures (a + b) * c == a * c + b * c
  {
  }

  lemma MultipleOf256(a: nat, r: nat)
    ensures (a * 256 + r) % 256 == r % 256
  {
  }

  /** One loop iteration on the accumulator. */
  lemma PushStep(vs: seq<Six>, x: Six, buf: u32)
    requires buf == SixValue(vs) % TWO32
    ensures (buf * 64 + x) % TWO32 == SixValue(vs + [x]) % TWO32
  {
    assert (vs + [x])[..|vs|] == vs;
    var v := SixValue(vs);
    assert v * 64 + x == (v / TWO32 * 64) * TWO32 + (buf * 64 + x);
    WrapMultiple(v / TWO32 * 64, buf * 64 + x);
  }

  lemma WrapMultiple(q: nat, r: nat)
    ensures (q * TWO32 + r) % TWO32 == r % TWO32
  {
  }

  lemma EmptyValue()
    ensures SixValue([]) == 0 && RestBits(0) == 0 && IsStream([], [])
  {
  }

  /** `out` holds the complete bytes of the bit string of the groups. */
  ghost predicate IsStream(out: seq<byte>, vs: seq<Six>) {
    |out| == ByteCount(|vs|) && forall j :: 0 <= j < |out| ==> out[j] == StreamByte(vs, j)
  }

  /** Every byte of `out` is a complete byte of the groups. */
  ghost predicate StartsStream(out: seq<byte>, ws: seq<Six>) {
    forall j :: 0 <= j < |out| ==> 8 * (j + 1) <= 6 * |ws| && out[j] == StreamByte(ws, j)
  }

  lemma StreamStable(vs: seq<Six>, x: Six, out: seq<byte>)
    requires IsStream(out, vs)
    ensures StartsStream(out, vs + [x])
  {
    hide Shr, SixValue, StreamByte;
    forall j | 0 <= j < |out|
      ensures 8 * (j + 1) <= 6 * |vs + [x]| && out[j] == StreamByte(vs + [x], j)
    {
      StreamByteStable(vs, x, j);
    }
  }

  /** Each group completes at most one byte, the one the loop pushes. */
  lemma StreamGrows(vs: seq<Six>, x: Six, out: seq<byte>)
    requires IsStream(out, vs)
    ensures RestBits(|vs|) + 6 < 8 ==> IsStream(out, vs + [x])
    ensures RestBits(|vs|) + 6 >= 8 ==>
              IsStream(out + [Shr(SixValue(vs + [x]), RestBits(|vs|) - 2) % 256], vs + [x])
  {
    hide Shr, SixValue, StreamByte, RestBits, ByteCount, StartsStream;
    CountGrows(|vs|);
    StreamStable(vs, x, out);
    assert |vs + [x]| == |vs| + 1;
    if RestBits(|vs|) + 6 >= 8 {
      LastStreamByte(vs + [x]);
      StreamAppend(out, vs + [x], Shr(SixValue(vs + [x]), RestBits(|vs|) - 2) % 256);
    } else {
      StreamComplete(out, vs + [x]);
    }
  }

  lemma StreamComplete(out: seq<byte>, ws: seq<Six>)
    requires StartsStream(out, ws) && ByteCount(|ws|) == |out|
    ensures IsStream(out, ws)
  {
    hide StreamByte;
  }

  lemma StreamAppend(out: seq<byte>, ws: seq<Six>, b: byte)
    requires ByteCount(|ws|) == |out| + 1
    requires StartsStream(out, ws)
    requires b == StreamByte(ws, |out|)
    ensures IsStream(out + [b], ws)
  {
    hide StreamByte;
  }

  lemma IsStreamBytes(out: seq<byte>, vs: seq<Six>)
    requires IsStream(out, vs)
    ensures out == StreamBytes(vs)
  {
    hide StreamByte, ByteCount;
  }

  lemma CountGrows(n: nat)
    ensures ByteCount(n + 1) == ByteCount(n) + if RestBits(n) + 6 >= 8 then 1 else 0
    ensures RestBits(n + 1) == if RestBits(n) + 6 >= 8 then RestBits(n) - 2 else RestBits(n) + 6
    ensures RestBits(n) <= 6
  {
  }

  lemma LastStreamByte(ws: seq<Six>)
    requires ByteCount(|ws|) > 0
    ensures StreamByte(ws, ByteCount(|ws|) - 1) == Shr(SixValue(ws), RestBits(|ws|)) % 256
  {
    hide Shr, SixValue;
  }

  function DecodeSpec(input: seq<byte>): Option<seq<byte>> {
    var s := BeforePad(input);
    if AllSymbols(s) then Some(StreamBytes(Values(s))) else None
  }

  lemma {:induction false} BeforePadAt(input: seq<byte>, i: nat)
    requires i <= |input| && forall k :: 0 <= k < i ==> input[k] != PAD
    ensures i == |input| || input[i] == PAD ==> BeforePad(input) == input[..i]
    ensures i < |input| && input[i] != PAD ==> |BeforePad(input)| > i && BeforePad(input)[i] == input[i]
  {
    if i > 0 {
      BeforePadAt(input[1..], i - 1);
      assert input[..i] == [input[0]] + input[1..][..i - 1];
    }
  }

  /** `base64_decode`: accept exactly the inputs whose bytes before the padding are all symbols,
      and return the complete bytes of their bit string. */
  method Decode(input: seq<byte>) returns (r: Option<seq<byte>>)
    ensures r == DecodeSpec(input)
  {
    hide StreamByte, StreamBytes, Symbol, Reverse, BeforePad, SixValue, RestBits, ByteCount, IsStream;
    var out: seq<byte> := [];
    var buf: u32 := 0;
    var bits: nat := 0;
    ghost var vs: seq<Six> := [];
    var i := 0;
    EmptyValue();
    while i < |input| && input[i] != PAD
      invariant 0 <= i <= |input| && forall k :: 0 <= k < i ==> input[k] != PAD
      invariant AllSymbols(input[..i]) && vs == Values(input[..i])
      invariant buf == SixValue(vs) % TWO32
      invariant bits == RestBits(i) <= 6
      invariant IsStream(out, vs)
    {
      var v := Reverse(input[i]);
      if v == INVALID {
        BeforePadAt(input, i);
        assert !AllSymbols(BeforePad(input));
        return None;
      }
      PushStep(vs, v, buf);
      CountGrows(i);
      CountGrows(i + 1);
      StreamGrows(vs, v, out);
      ghost var longer := vs + [v];
      assert input[..i + 1] == input[..i] + [input[i]];
      assert longer == Values(input[..i + 1]);
      vs := longer;
      buf := (buf * 64 + v) % TWO32;
      bits := bits + 6;
      if bits >= 8 {
        bits := bits - 8;
        LowBitsSuffice(SixValue(vs), bits);
        out := out + [Shr(buf, bits) % 256];
      }
      i := i + 1;
    }
    BeforePadAt(input, i);
    IsStreamBytes(out, vs);
    r := Some(out);
  }

  // ---------------------------------------------------------------------
  // Encoding.
  // ---------------------------------------------------------------------

  function ByteOrZero(s: seq<byte>, i: nat): byte {
    if i < |s| then s[i] else 0
  }

  /** `(n >> k) & 63`. */
  function SixAt(n: nat, k: nat): Six {
    Shr(n, k) % 64
  }

  function GroupNumber(chunk: seq<byte>): nat
    requires 1 <= |chunk| <= 3
  {
    chunk[0] * 0x1_0000 + ByteOrZero(chunk, 1) * 0x100 + ByteOrZero(chunk, 2)
  }

  function EncodeGroup(chunk: seq<byte>): (s: seq<byte>)
    requires 1 <= |chunk| <= 3
    ensures |s| == 4
  {
    var n := GroupNumber(chunk);
    [Symbol(SixAt(n, 18)), Symbol(SixAt(n, 12)),
     if |chunk| > 1 then Symbol(SixAt(n, 6)) else PAD,
     if |chunk| > 2 then Symbol(SixAt(n, 0)) else PAD]
  }

  function EncodeSpec(data: seq<byte>): seq<byte> {
    if data == [] then []
    else
      var k := Min(3, |data|);
      EncodeGroup(data[..k]) + EncodeSpec(data[k..])
  }

  /** The four characters pushed for a group. */
  lemma GroupSpelled(chunk: seq<byte>, before: seq<byte>, out: seq<byte>)
    requires 1 <= |chunk| <= 3
    requires var n := GroupNumber(chunk);
             out == before + [Letter(SixAt(n, 18))] + [Letter(SixAt(n, 12))]
                    + [if |chunk| > 1 then Letter(SixAt(n, 6)) else PAD]
                    + [if |chunk| > 2 then Letter(SixAt(n, 0)) else PAD]
    ensures out == before + EncodeGroup(chunk)
  {
    hide Letter, SixAt, GroupNumber;
  }

  /** `base64_encode`. */
  lemma EncodeNothing()
    ensures EncodeSpec([]) == []
  {
  }

  lemma EncodeNext(data: seq<byte>, i: nat)
    requires i < |data|
    ensures var k := Min(3, |data| - i);
            EncodeSpec(data[i..]) == EncodeGroup(data[i..i + k]) + EncodeSpec(data[i + k..])
  {
    var k := Min(3, |data| - i);
    assert data[i..][..k] == data[i..i + k] && data[i..][k..] == data[i + k..];
  }

  method Encode(data: seq<byte>) returns (out: seq<byte>)
    ensures out == EncodeSpec(data)
  {
    hide EncodeGroup, SixAt, Letter, EncodeSpec;
    EncodeNothing();
    out := [];
    var i := 0;
    while i < |data|
      invariant 0 <= i <= |data|
      invariant out + EncodeSpec(data[i..]) == EncodeSpec(data)
    {
      var k := Min(3, |data| - i);
      var chunk := data[i..i + k];
      EncodeNext(data, i);
      ghost var before := out;
      var b0: nat, b1: nat, b2: nat := chunk[0], ByteOrZero(chunk, 1), ByteOrZero(chunk, 2);
      var n := b0 * 0x1_0000 + b1 * 0x100 + b2;
      out := out + [Letter(SixAt(n, 18))];
      out := out + [Letter(SixAt(n, 12))];
      out := out + [if k > 1 then Letter(SixAt(n, 6)) else PAD];
      out := out + [if k > 2 then Letter(SixAt(n, 0)) else PAD];
      GroupSpelled(chunk, before, out);
      i := i + k;
    }
    assert data[|data|..] == [];
  }

  /** The six-bit groups of the data, without padding. */
  function SixesOf(data: seq<byte>): seq<Six> {
    if data == [] then []
    else
      var k := Min(3, |data|);
      GroupSixes(data[..k]) + SixesOf(data[k..])
  }

  function GroupSixes(chunk: seq<byte>): (vs: seq<Six>)
    requires 1 <= |chunk| <= 3
    ensures |vs| == |chunk| + 1
  {
    var n := GroupNumber(chunk);
    [SixAt(n, 18), SixAt(n, 12)]
    + (if |chunk| > 1 then [SixAt(n, 6)] else [])
    + (if |chunk| > 2 then [SixAt(n, 0)] else [])
  }

  function Symbols(vs: seq<Six>): (s: seq<byte>)
    ensures |s| == |vs| && forall i :: 0 <= i < |vs| ==> s[i] == Symbol(vs[i])
  {
    seq(|vs|, i requires 0 <= i < |vs| => Symbol(vs[i]))
  }

  lemma {:induction false} BeforePadSymbols(vs: seq<Six>, rest: seq<byte>)
    ensures BeforePad(Symbols(vs) + rest) == Symbols(vs) + BeforePad(rest)
  {
    hide Symbol;
    if vs != [] {
      BeforePadSymbols(vs[1..], rest);
      assert Symbols(vs)[1..] == Symbols(vs[1..]);
      assert (Symbols(vs) + rest)[1..] == Symbols(vs[1..]) + rest;
    } else {
      assert Symbols(vs) + rest == rest;
    }
  }

  lemma GroupText(chunk: seq<byte>)
    requires 1 <= |chunk| <= 3
    ensures EncodeGroup(chunk)[..|chunk| + 1] == Symbols(GroupSixes(chunk))
    ensures |chunk| < 3 ==> EncodeGroup(chunk)[|chunk| + 1] == PAD
  {
    hide Symbol, SixAt, GroupNumber;
  }

  lemma SymbolsConcat(a: seq<Six>, b: seq<Six>)
    ensures Symbols(a + b) == Symbols(a) + Symbols(b)
  {
    hide Symbol;
  }

  /** One group in front of an already encoded rest. */
  lemma GroupThenRest(chunk: seq<byte>, rest: seq<byte>)
    requires 1 <= |chunk| <= 3 && (|chunk| < 3 ==> rest == [])
    ensures BeforePad(EncodeGroup(chunk) + rest) == Symbols(GroupSixes(chunk)) + BeforePad(rest)
  {
    hide Symbol, EncodeGroup, GroupSixes, Symbols, BeforePad;
    var g, k := EncodeGroup(chunk), |chunk|;
    GroupText(chunk);
    BeforePadSymbols(GroupSixes(chunk), g[k + 1..] + rest);
    assert g + rest == g[..k + 1] + (g[k + 1..] + rest);
    if k == 3 {
      assert g[4..] + rest == rest;
    } else {
      PadEnds(g[k + 1..]);
      assert g[k + 1..] + rest == g[k + 1..];
      PadEnds([]);
    }
  }

  lemma PadEnds(s: seq<byte>)
    requires s == [] || s[0] == PAD
    ensures BeforePad(s) == []
  {
  }

  /** What precedes the padding of an encoding is the text of the groups. */
  lemma {:induction false} EncodedSymbols(data: seq<byte>)
    ensures BeforePad(EncodeSpec(data)) == Symbols(SixesOf(data))
  {
    hide Symbol, EncodeGroup, GroupSixes;
    if data != [] {
      var k := Min(3, |data|);
      EncodedSymbols(data[k..]);
      GroupThenRest(data[..k], EncodeSpec(data[k..]));
      SymbolsConcat(GroupSixes(data[..k]), SixesOf(data[k..]));
    }
  }

  lemma ValuesOfSymbols(vs: seq<Six>)
    ensures AllSymbols(Symbols(vs)) && Values(Symbols(vs)) == vs
  {
    hide Symbol, Reverse;
    forall i | 0 <= i < |vs|
      ensures Reverse(Symbol(vs[i])) == vs[i]
    {
      ReverseInverts(vs[i]);
    }
  }

  // Values of concatenations.

  lemma {:induction false} SixValueConcat(a: seq<Six>, b: seq<Six>)
    ensures SixValue(a + b) == SixValue(a) * P2(6 * |b|) + SixValue(b)
  {
    if b == [] {
      assert a + b == a;
    } else {
      var init, last := b[..|b| - 1], b[|b| - 1];
      SixValueConcat(a, init);
      assert (a + b)[..|a + b| - 1] == a + init;
      P2Add(6 * |init|, 6);
      P2Values();
      Distribute(SixValue(a), P2(6 * |init|), SixValue(init), 64);
    }
  }

  lemma {:induction false} ByteValueConcat(a: seq<byte>, b: seq<byte>)
    ensures ByteValue(a + b) == ByteValue(a) * P2(8 * |b|) + ByteValue(b)
  {
    if b == [] {
      assert a + b == a;
    } else {
      var init, last := b[..|b| - 1], b[|b| - 1];
      ByteValueConcat(a, init);
      assert (a + b)[..|a + b| - 1] == a + init;
      P2Add(8 * |init|, 8);
      P2Values();
      Distribute(ByteValue(a), P2(8 * |init|), ByteValue(init), 256);
    }
  }

  lemma Distribute(a: nat, p: nat, b: nat, m: nat)
    ensures (a * p + b) * m == a * (p * m) + b * m
  {
    SumTimes(a * p, b, m);
    ProductAssoc(a, p, m);
  }

  function Join(hi: nat, base: nat, lo: nat): nat {
    hi * base + lo
  }

  /** A padded group holds its bytes followed by zero bits. */
  lemma GroupValue(chunk: seq<byte>)
    requires 1 <= |chunk| <= 3
    ensures SixValue(GroupSixes(chunk)) == ByteValue(chunk) * P2(6 - 2 * |chunk|)
  {
    hide SixAt, P2, SixValue, ByteValue, GroupSixes, GroupNumber;
    P2Values();
    if |chunk| == 1 {
      GroupValue1(chunk);
    } else if |chunk| == 2 {
      GroupValue2(chunk);
    } else {
      GroupValue3(chunk);
    }
  }

  lemma GroupValue1(chunk: seq<byte>)
    requires |chunk| == 1
    ensures SixValue(GroupSixes(chunk)) == ByteValue(chunk) * 16
  {
    hide SixAt, SixValue, ByteValue;
    var n := GroupNumber(chunk);
    FourSixes(n);
    var a, b, c, d := SixAt(n, 18), SixAt(n, 12), SixAt(n, 6), SixAt(n, 0);
    assert GroupSixes(chunk) == [a, b];
    SixValueSmall([a, b]);
    ByteValueSmall(chunk);
    OneByteGroup(chunk[0], Join(a, 64, b), Join(c, 64, d));
  }

  lemma GroupValue2(chunk: seq<byte>)
    requires |chunk| == 2
    ensures SixValue(GroupSixes(chunk)) == ByteValue(chunk) * 4
  {
    hide SixAt, SixValue, ByteValue;
    var n := GroupNumber(chunk);
    FourSixes(n);
    var a, b, c, d := SixAt(n, 18), SixAt(n, 12), SixAt(n, 6), SixAt(n, 0);
    assert GroupSixes(chunk) == [a, b, c];
    SixValueSmall([a, b, c]);
    ByteValueSmall(chunk);
    TwoByteGroup(Join(chunk[0], 256, chunk[1]), Join(Join(a, 64, b), 64, c), d);
  }

  lemma GroupValue3(chunk: seq<byte>)
    requires |chunk| == 3
    ensures SixValue(GroupSixes(chunk)) == ByteValue(chunk)
  {
    hide SixAt, SixValue, ByteValue;
    var n := GroupNumber(chunk);
    FourSixes(n);
    var a, b, c, d := SixAt(n, 18), SixAt(n, 12), SixAt(n, 6), SixAt(n, 0);
    assert GroupSixes(chunk) == [a, b, c, d];
    SixValueSmall([a, b, c, d]);
    ByteValueSmall(chunk);
  }

  lemma OneByteGroup(x: nat, high: nat, low: nat)
    requires x * 0x1_0000 == high * 4096 + low && low < 4096
    ensures high == x * 16
  {
  }

  lemma TwoByteGroup(x: nat, high: nat, low: nat)
    requires x * 256 == high * 64 + low && low < 64
    ensures high == x * 4
  {
  }

  lemma FourSixes(n: nat)
    requires n < 0x100_0000
    ensures n == ((SixAt(n, 18) * 64 + SixAt(n, 12)) * 64 + SixAt(n, 6)) * 64 + SixAt(n, 0)
  {
    hide Shr;
    ShrSix(n, 12);
    ShrSix(n, 6);
    ShrSix(n, 0);
    ShrIdentity(n);
    P2Add(6, 18);
    P2Values();
    P2Add(2, 16);
    ShrBounds(n, 18);
  }

  lemma ShrIdentity(n: nat)
    ensures Shr(n, 0) == n
  {
  }

  lemma ShrSix(n: nat, k: nat)
    ensures Shr(n, k) == Shr(n, k + 6) * 64 + Shr(n, k) % 64
  {
    hide Shr;
    ShrShr(n, k, 6);
    ShrBounds(Shr(n, k), 6);
    P2Values();
  }

  lemma SixValueSmall(vs: seq<Six>)
    requires 2 <= |vs| <= 4
    ensures |vs| == 2 ==> SixValue(vs) == Join(vs[0], 64, vs[1])
    ensures |vs| == 3 ==> SixValue(vs) == Join(Join(vs[0], 64, vs[1]), 64, vs[2])
    ensures |vs| == 4 ==> SixValue(vs) == Join(Join(Join(vs[0], 64, vs[1]), 64, vs[2]), 64, vs[3])
  {
    var two := vs[..2];
    assert two[..1] == [vs[0]] && [vs[0]][..0] == [];
    assert SixValue([vs[0]]) == vs[0];
    if |vs| == 2 {
      assert vs == two;
    } else {
      var three := vs[..3];
      assert three[..2] == two;
      if |vs| == 3 {
        assert vs == three;
      }
    }
  }

  lemma ByteValueSmall(bs: seq<byte>)
    requires 1 <= |bs| <= 3
    ensures |bs| == 1 ==> ByteValue(bs) == bs[0]
    ensures |bs| == 2 ==> ByteValue(bs) == Join(bs[0], 256, bs[1])
    ensures |bs| == 3 ==> ByteValue(bs) == Join(Join(bs[0], 256, bs[1]), 256, bs[2])
  {
    var one := bs[..1];
    assert one[..0] == [];
    assert ByteValue(one) == bs[0];
    if |bs| == 1 {
      assert bs == one;
    } else {
      var two := bs[..2];
      assert two[..1] == one;
      assert |bs| == 2 ==> bs == two;
    }
  }

  /** Number of zero bits that pad the last group. */
  function PadBits(n: nat): nat {
    if n % 3 == 0 then 0 else if n % 3 == 1 then 4 else 2
  }

  lemma {:induction false} SixesLength(data: seq<byte>)
    ensures 6 * |SixesOf(data)| == 8 * |data| + PadBits(|data|)
  {
    hide GroupSixes;
    if data != [] {
      SixesLength(data[Min(3, |data|)..]);
    }
  }

  /** The groups spell the data as one number, shifted by the padding bits. */
  lemma {:induction false} SixesValue(data: seq<byte>)
    ensures SixValue(SixesOf(data)) == ByteValue(data) * P2(PadBits(|data|))
  {
    hide GroupSixes, SixesOf, SixValue, ByteValue, P2, PadBits;
    if data == [] {
      EmptySixes();
    } else if |data| <= 3 {
      LastGroupValue(data);
    } else {
      var chunk, rest := data[..3], data[3..];
      GroupValue(chunk);
      P2Zero();
      SixesValue(rest);
      SixesLength(rest);
      SixesStep(data);
      SplitThree(data);
      JoinedValue(GroupSixes(chunk), SixesOf(rest), chunk, rest, PadBits(|rest|));
    }
  }

  lemma SixesStep(data: seq<byte>)
    requires |data| > 3
    ensures SixesOf(data) == GroupSixes(data[..3]) + SixesOf(data[3..])
  {
    hide GroupSixes;
  }

  lemma SplitThree(data: seq<byte>)
    requires |data| > 3
    ensures data == data[..3] + data[3..]
    ensures PadBits(|data|) == PadBits(|data[3..]|)
  {
  }

  lemma LastGroupValue(data: seq<byte>)
    requires 1 <= |data| <= 3
    ensures SixValue(SixesOf(data)) == ByteValue(data) * P2(PadBits(|data|))
  {
    hide GroupSixes, SixValue, ByteValue, P2, PadBits, SixesOf;
    GroupValue(data);
    LastSixes(data);
  }

  lemma LastSixes(data: seq<byte>)
    requires 1 <= |data| <= 3
    ensures SixesOf(data) == GroupSixes(data) && PadBits(|data|) == 6 - 2 * |data|
  {
    hide GroupSixes;
    assert data[..|data|] == data && data[|data|..] == [];
  }

  lemma P2Zero()
    ensures P2(0) == 1
  {
  }

  lemma JoinedValue(a6: seq<Six>, b6: seq<Six>, a8: seq<byte>, b8: seq<byte>, pad: nat)
    requires SixValue(a6) == ByteValue(a8) && SixValue(b6) == ByteValue(b8) * P2(pad)
    requires 6 * |b6| == 8 * |b8| + pad
    ensures SixValue(a6 + b6) == ByteValue(a8 + b8) * P2(pad)
  {
    hide SixValue, ByteValue, P2;
    SixValueConcat(a6, b6);
    ByteValueConcat(a8, b8);
    P2Add(8 * |b8|, pad);
    Distribute(ByteValue(a8), P2(8 * |b8|), ByteValue(b8), P2(pad));
  }

  lemma EmptySixes()
    ensures SixValue(SixesOf([])) == ByteValue([]) * P2(PadBits(0))
  {
  }

  lemma ShrTimes(v: nat, p: nat, m: nat)
    ensures Shr(v * P2(p), p + m) == Shr(v, m)
  {
    hide Shr;
    AlignedMultiple(v, p);
    ShrShr(v * P2(p), p, m);
  }

  /** Byte j of a byte string, read off its number. */
  lemma {:induction false} ByteOfValue(bs: seq<byte>, j: nat)
    requires j < |bs|
    ensures Shr(ByteValue(bs), 8 * (|bs| - 1 - j)) % 256 == bs[j]
  {
    hide Shr;
    var init, last := bs[..|bs| - 1], bs[|bs| - 1];
    var v := ByteValue(init);
    P2Values();
    if j == |bs| - 1 {
      ShrIdentity(ByteValue(bs));
      MultipleOf256(v, last);
    } else {
      ByteOfValue(init, j);
      ShrUnique(v * 256 + last, 8, v);
      ShrShr(v * 256 + last, 8, 8 * (|init| - 1 - j));
    }
  }

  lemma {:induction false} StreamOfSixes(data: seq<byte>)
    ensures StreamBytes(SixesOf(data)) == data
  {
    hide Shr, SixesOf, SixValue, ByteValue;
    var vs := SixesOf(data);
    SixesLength(data);
    SixesValue(data);
    forall j | 0 <= j < |data|
      ensures StreamByte(vs, j) == data[j]
    {
      ShrTimes(ByteValue(data), PadBits(|data|), 8 * (|data| - 1 - j));
      ByteOfValue(data, j);
    }
  }

  lemma SixDigitsUnique(a: Six, b: Six, c: Six, d: Six, e: Six, f: Six, g: Six, h: Six)
    requires ((a * 64 + b) * 64 + c) * 64 + d == ((e * 64 + f) * 64 + g) * 64 + h
    ensures a == e && b == f && c == g && d == h
  {
  }

  lemma SixesOfThree(a: byte, b: byte, c: byte)
    ensures var n := a * 0x1_0000 + b * 0x100 + c;
            && SixAt(n, 18) == a / 4 && SixAt(n, 12) == a % 4 * 16 + b / 16
            && SixAt(n, 6) == b % 16 * 4 + c / 64 && SixAt(n, 0) == c % 64
  {
    hide SixAt;
    var n: nat := a * 0x1_0000 + b * 0x100 + c;
    FourSixes(n);
    SixDigitsUnique(SixAt(n, 18), SixAt(n, 12), SixAt(n, 6), SixAt(n, 0),
                    a / 4, a % 4 * 16 + b / 16, b % 16 * 4 + c / 64, c % 64);
  }

  /** Which bits make up each character, as in section 4 of RFC 4648. */
  lemma {:induction false} GroupBits(a: byte, b: byte, c: byte)
    ensures EncodeGroup([a, b, c])
         == [Symbol(a / 4), Symbol(a % 4 * 16 + b / 16), Symbol(b % 16 * 4 + c / 64), Symbol(c % 64)]
    ensures EncodeGroup([a, b]) == [Symbol(a / 4), Symbol(a % 4 * 16 + b / 16), Symbol(b % 16 * 4), 61]
    ensures EncodeGroup([a]) == [Symbol(a / 4), Symbol(a % 4 * 16), 61, 61]
  {
    hide SixAt, Symbol;
    SixesOfThree(a, b, c);
    SixesOfThree(a, b, 0);
    SixesOfThree(a, 0, 0);
  }

  /** Decoding an encoding gives the data back. */
  lemma {:induction false} DecodeEncode(data: seq<byte>)
    ensures DecodeSpec(EncodeSpec(data)) == Some(data)
  {
    hide StreamBytes, SixesOf, Symbols, EncodeSpec, BeforePad, Values;
    EncodedSymbols(data);
    ValuesOfSymbols(SixesOf(data));
    StreamOfSixes(data);
  }

  /** A capital or small letter, a digit, plus, slash or the equals sign. */
  predicate Printed(c: byte) {
    65 <= c <= 90 || 97 <= c <= 122 || 48 <= c <= 57 || c == 43 || c == 47 || c == 61
  }

  /** The encoding has four characters for every started group of three bytes, all of them of the
      standard alphabet or padding. */
  lemma {:induction false} EncodedShape(data: seq<byte>)
    ensures |EncodeSpec(data)| == 4 * ((|data| + 2) / 3)
    ensures forall i :: 0 <= i < |EncodeSpec(data)| ==> Printed(EncodeSpec(data)[i])
  {
    hide SixAt, GroupNumber;
    if data != [] {
      EncodedShape(data[Min(3, |data|)..]);
    }
  }

  /** A byte that is neither a symbol nor padding. */
  predicate Foreign(c: byte) {
    c != PAD && Reverse(c) == INVALID
  }

  ghost predicate HoldsForeign(input: seq<byte>) {
    exists i :: 0 <= i < |input| && Foreign(input[i])
  }

  /** Some foreign byte precedes every padding character. */
  ghost predicate ForeignFirst(input: seq<byte>) {
    exists i :: 0 <= i < |input| && Foreign(input[i]) && PAD !in input[..i]
  }

  lemma {:induction false} BeforePadPrefix(input: seq<byte>)
    ensures var n := |BeforePad(input)|;
            && n <= |input| && BeforePad(input) == input[..n]
            && PAD !in input[..n] && (n < |input| ==> input[n] == PAD)
  {
    if input != [] && input[0] != PAD {
      BeforePadPrefix(input[1..]);
      var n := |BeforePad(input[1..])|;
      assert input[..n + 1] == [input[0]] + input[1..][..n];
    }
  }

  /** Rejection, for every input: exactly when a foreign byte precedes every padding character. So
      the promise to reject a foreign byte anywhere is kept exactly on such inputs and on inputs
      without one. */
  lemma {:induction false} RejectedIff(input: seq<byte>)
    ensures DecodeSpec(input).None? <==> ForeignFirst(input)
    ensures (HoldsForeign(input) ==> DecodeSpec(input).None?) <==> !HoldsForeign(input) || ForeignFirst(input)
  {
    hide Reverse, BeforePad;
    BeforePadPrefix(input);
    var s := BeforePad(input);
    if !AllSymbols(s) {
      var i :| 0 <= i < |s| && Reverse(s[i]) == INVALID;
      assert input[i] == s[i] && input[i] in input[..|s|];
      assert forall c :: c in input[..i] ==> c in input[..|s|];
      assert Foreign(input[i]);
    }
    if ForeignFirst(input) {
      var i :| 0 <= i < |input| && Foreign(input[i]) && PAD !in input[..i];
      assert forall k :: 0 <= k < i ==> input[k] in input[..i];
      assert i < |s|;
      assert s[i] == input[i];
    }
  }

  /** The promise broken: a foreign byte after the padding is not looked at. */
  lemma PaddingHidesForeign()
    ensures HoldsForeign([PAD, 0]) && DecodeSpec([PAD, 0]) == Some([])
  {
    assert Foreign([PAD, 0][1]);
  }
}
