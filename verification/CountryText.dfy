/** The runtime extractor: which database networks belong to a country, and the text file
    written for it. The database reader itself is a list of decoded items. */
module CountryText {
  import opened Bits
  import opened Common
  import opened Cidrs
  import opened RangeMerge
  import opened BypassCidrs
  import opened DottedText

  /** One step of the database walk. */
  datatype Item =
    | Network4(addr: u32, prefix: nat, iso: Option<string>)
    | Network6
    | Broken(reason: string)

  predicate IsAsciiAlnum(c: char) {
    'A' <= c <= 'Z' || 'a' <= c <= 'z' || '0' <= c <= '9'
  }

  function Upper(c: char): char {
    if 'a' <= c <= 'z' then c - 'a' + 'A' else c
  }

  /** Keep ASCII letters and digits, in upper case. */
  function NormalizeCountry(s: string): string {
    if s == [] then []
    else if IsAsciiAlnum(s[0]) then [Upper(s[0])] + NormalizeCountry(s[1..])
    else NormalizeCountry(s[1..])
  }

  ghost predicate UpperAlnum(s: string) {
    forall i :: 0 <= i < |s| ==> 'A' <= s[i] <= 'Z' || '0' <= s[i] <= '9'
  }

  /** Normalizing yields only upper-case letters and digits and is idempotent. */
  lemma {:induction false} NormalizeSpec(s: string)
    ensures UpperAlnum(NormalizeCountry(s))
    ensures UpperAlnum(s) ==> NormalizeCountry(s) == s
    ensures NormalizeCountry(NormalizeCountry(s)) == NormalizeCountry(s)
  {
    if s != [] {
      NormalizeSpec(s[1..]);
      var n := NormalizeCountry(s[1..]);
      if IsAsciiAlnum(s[0]) {
        var t := [Upper(s[0])] + n;
        assert t[1..] == n;
      }
    }
  }

  /** It goes through the text character by character: capitals and digits are kept, a small letter
      becomes the capital 32 places before it, and anything else is dropped. */
  lemma {:induction false} NormalizeByCharacter(s: string, t: string, c: char)
    ensures NormalizeCountry("") == "" && NormalizeCountry(s + t) == NormalizeCountry(s) + NormalizeCountry(t)
    ensures 'A' <= c <= 'Z' || '0' <= c <= '9' ==> NormalizeCountry([c]) == [c]
    ensures 'a' <= c <= 'z' ==> |NormalizeCountry([c])| == 1 && NormalizeCountry([c])[0] as int + 32 == c as int
    ensures !('A' <= c <= 'Z' || 'a' <= c <= 'z' || '0' <= c <= '9') ==> NormalizeCountry([c]) == ""
    decreases |s|
  {
    assert [c][1..] == "";
    if s == "" {
      assert s + t == t;
    } else {
      NormalizeByCharacter(s[1..], t, c);
      assert (s + t)[1..] == s[1..] + t;
    }
  }

  predicate EqIgnoreCase(s: string, t: string) {
    |s| == |t| && forall i :: 0 <= i < |s| ==> Upper(s[i]) == Upper(t[i])
  }

  predicate Matches(item: Item, code: string) {
    item.Network4? && item.prefix <= 32 && item.iso.Some? && EqIgnoreCase(item.iso.value, code)
  }

  /** Network and broadcast address of a prefix. */
  function ItemRange(item: Item): (r: Range)
    requires item.Network4? && item.prefix <= 32
    ensures r.lo <= r.hi
  {
    var k := 32 - item.prefix;
    NetworkBounds(item.addr, k);
    Range(FloorTo(item.addr, k), FloorTo(item.addr, k) + P2(k) - 1)
  }

  lemma NetworkBounds(addr: u32, k: nat)
    requires k <= 32
    ensures FloorTo(addr, k) <= addr && FloorTo(addr, k) + P2(k) <= TWO32
  {
    ShrBounds(addr, k);
    AlignedMultiple(Shr(addr, k), k);
    P2Values();
    AlignedPower(32, k);
    AlignedGap(FloorTo(addr, k), TWO32, k);
  }

  function CollectRanges(items: seq<Item>, code: string): Result<seq<Range>> {
    if items == [] then Ok([])
    else
      var prev := CollectRanges(items[..|items| - 1], code);
      var item := items[|items| - 1];
      if prev.Err? then prev
      else if item.Broken? then Err(item.reason)
      else if Matches(item, code) then Ok(prev.value + [ItemRange(item)])
      else prev
  }

  // ---------------------------------------------------------------------
  // What it means to belong to a country.
  // ---------------------------------------------------------------------

  /** The same character, or a letter and its other case. */
  ghost predicate SameLetter(c: char, d: char) {
    || c == d
    || ('A' <= c <= 'Z' && d as int == c as int + 32)
    || ('a' <= c <= 'z' && d as int + 32 == c as int)
  }

  /** The same country code but for the case of its letters. */
  ghost predicate SameCode(iso: string, code: string) {
    |iso| == |code| && forall i :: 0 <= i < |iso| ==> SameLetter(iso[i], code[i])
  }

  /** The two addresses agree in their first `prefix` bits. */
  ghost predicate SameNetwork(addr: u32, prefix: nat, a: u32) {
    prefix <= 32 && addr / P2(32 - prefix) == a / P2(32 - prefix)
  }

  /** A decoded network with that country code holds the address. */
  ghost predicate NetworkHas(item: Item, code: string, a: u32) {
    item.Network4? && item.iso.Some? && SameCode(item.iso.value, code) && SameNetwork(item.addr, item.prefix, a)
  }

  /** Address `a` belongs to a network of the country. */
  ghost predicate CountryHas(items: seq<Item>, code: string, a: u32) {
    exists i :: 0 <= i < |items| && NetworkHas(items[i], code, a)
  }

  lemma {:induction false} SameCodeIff(iso: string, code: string)
    ensures EqIgnoreCase(iso, code) <==> SameCode(iso, code)
  {
    hide SameLetter, Upper;
    forall i | 0 <= i < |iso| && i < |code|
      ensures Upper(iso[i]) == Upper(code[i]) <==> SameLetter(iso[i], code[i])
    {
      SameLetterIff(iso[i], code[i]);
    }
  }

  lemma SameLetterIff(c: char, d: char)
    ensures Upper(c) == Upper(d) <==> SameLetter(c, d)
  {
  }

  lemma QuotientIs(a: nat, p: nat, q: nat)
    requires p > 0 && q * p <= a < q * p + p
    ensures a / p == q
  {
    var d := a / p;
    assert d * p <= a < d * p + p;
    MulLess(d, q, p);
    MulLess(q, d, p);
  }

  lemma SameNetworkIff(addr: u32, prefix: nat, a: u32)
    requires prefix <= 32
    ensures var k := 32 - prefix;
            SameNetwork(addr, prefix, a) <==> FloorTo(addr, k) <= a < FloorTo(addr, k) + P2(k)
  {
    hide Shr, P2;
    var k := 32 - prefix;
    ShrBounds(addr, k);
    ShrBounds(a, k);
    QuotientIs(addr, P2(k), Shr(addr, k));
    QuotientIs(a, P2(k), Shr(a, k));
    MulLess(Shr(a, k), Shr(addr, k), P2(k));
    MulLess(Shr(addr, k), Shr(a, k), P2(k));
  }

  /** The test of the walk and the range it adds mean membership. */
  lemma MatchMeans(item: Item, code: string, a: u32)
    ensures NetworkHas(item, code, a) <==> Matches(item, code) && Holds(ItemRange(item), a)
  {
    hide SameCode, EqIgnoreCase, FloorTo, P2;
    if item.Network4? && item.prefix <= 32 {
      SameNetworkIff(item.addr, item.prefix, a);
      if item.iso.Some? { SameCodeIff(item.iso.value, code); }
    }
  }

  lemma {:induction false} CollectRangesSpec(items: seq<Item>, code: string)
    ensures CollectRanges(items, code).Ok? <==> forall i :: 0 <= i < |items| ==> !items[i].Broken?
    ensures CollectRanges(items, code).Ok? ==>
              var rs := CollectRanges(items, code).value;
              && Proper(rs)
              && (forall a: u32 :: InRanges(rs, a) <==> CountryHas(items, code, a))
  {
    if items != [] {
      var before, item := items[..|items| - 1], items[|items| - 1];
      CollectRangesSpec(before, code);
      var c := CollectRanges(items, code);
      if c.Ok? {
        var rs, ps := c.value, CollectRanges(before, code).value;
        forall a: u32
          ensures InRanges(rs, a) <==> CountryHas(items, code, a)
        {
          HasSplit(items, code, a);
          assert InRanges(ps, a) <==> CountryHas(before, code, a);
          if Matches(item, code) {
            assert rs[..|rs| - 1] == ps;
            SplitLast(rs, a);
          }
        }
      }
    }
  }

  lemma HasSplit(items: seq<Item>, code: string, a: u32)
    requires items != []
    ensures CountryHas(items, code, a) <==>
              CountryHas(items[..|items| - 1], code, a)
              || (Matches(items[|items| - 1], code) && Holds(ItemRange(items[|items| - 1]), a))
  {
    hide ItemRange, Matches, NetworkHas;
    var before := items[..|items| - 1];
    MatchMeans(items[|items| - 1], code, a);
    if CountryHas(items, code, a) {
      var i :| 0 <= i < |items| && NetworkHas(items[i], code, a);
      assert i < |before| ==> before[i] == items[i];
    }
    if CountryHas(before, code, a) {
      var i :| 0 <= i < |before| && NetworkHas(before[i], code, a);
      assert items[i] == before[i];
    }
  }

  // ---------------------------------------------------------------------
  // The text.
  // ---------------------------------------------------------------------

  function CidrLine(c: Cidr): string {
    Dotted(c.addr) + "/" + Dec(c.prefix)
  }

  function JoinLines(cs: seq<Cidr>): string {
    if cs == [] then []
    else if |cs| == 1 then CidrLine(cs[0])
    else CidrLine(cs[0]) + "\n" + JoinLines(cs[1..])
  }

  // The fixed comment texts, in short pieces.
  const INTRO := [") \U{2014} generated ", "at runtime from a ", "MaxMind GeoLite2 ", "Country mmdb"]
  const ADVICE := [" CIDR ranges. Cached;", " delete this file ", "to force ", "regeneration."]

  function TitleLine(code: string): string {
    "# chnroute (" + code + INTRO[0] + INTRO[1] + INTRO[2] + INTRO[3]
  }

  function CountLine(n: nat): string {
    "# " + Dec(n) + ADVICE[0] + ADVICE[1] + ADVICE[2] + ADVICE[3]
  }

  /** Two comment lines, one line per block, and a final newline. */
  function FileText(code: string, cs: seq<Cidr>): string {
    TitleLine(code) + "\n" + (CountLine(|cs|) + "\n" + (JoinLines(cs) + "\n"))
  }

  function CountryFile(items: seq<Item>, code: string): Result<string> {
    CollectRangesSpec(items, code);
    match CollectRanges(items, code)
    case Err(e) => Err(e)
    case Ok(rs) =>
      if rs == [] then Err("no IPv4 networks found for country " + code)
      else Ok(FileText(code, Blocks(rs)))
  }

  /** The walk over the database. */
  method CollectCountry(items: seq<Item>, code: string) returns (r: Result<seq<Range>>)
    ensures r == CollectRanges(items, code)
  {
    var ranges: seq<Range> := [];
    for i := 0 to |items|
      invariant CollectRanges(items[..i], code) == Ok(ranges)
    {
      assert items[..i + 1][..i] == items[..i];
      match items[i] {
        case Broken(reason) =>
          BrokenStays(items, code, i, reason);
          return Err(reason);
        case Network6 =>
          continue;
        case Network4(_, _, _) =>
          if Matches(items[i], code) {
            ranges := ranges + [ItemRange(items[i])];
          }
      }
    }
    assert items[..|items|] == items;
    r := Ok(ranges);
  }

  /** `build_country_cidrs`: walk, sort, merge, split, print. */
  method BuildCountryCidrs(items: seq<Item>, code: string) returns (r: Result<string>)
    ensures r == CountryFile(items, code)
  {
    CollectRangesSpec(items, code);
    var ranges := CollectCountry(items, code);
    if ranges.Err? {
      return Err(ranges.message);
    }
    if ranges.value == [] {
      return Err("no IPv4 networks found for country " + code);
    }
    var cidrs := CompileRanges(ranges.value);
    r := Ok(FileText(code, cidrs));
  }

  /** The first broken item decides the error. */
  lemma {:induction false} BrokenStays(items: seq<Item>, code: string, i: nat, reason: string)
    requires i < |items| && items[i] == Broken(reason) && CollectRanges(items[..i], code).Ok?
    ensures CollectRanges(items, code) == Err(reason)
  {
    if i == |items| - 1 {
    } else {
      assert items[..|items| - 1][..i] == items[..i];
      BrokenStays(items[..|items| - 1], code, i, reason);
    }
  }

  /** A decoded network has that country code. */
  ghost predicate OfCountry(item: Item, code: string) {
    item.Network4? && item.prefix <= 32 && item.iso.Some? && SameCode(item.iso.value, code)
  }

  lemma {:induction false} SomeRangeIff(items: seq<Item>, code: string)
    requires CollectRanges(items, code).Ok?
    ensures CollectRanges(items, code).value != [] <==> exists i :: 0 <= i < |items| && OfCountry(items[i], code)
  {
    if items != [] {
      var before, item := items[..|items| - 1], items[|items| - 1];
      SomeRangeIff(before, code);
      if item.Network4? && item.iso.Some? { SameCodeIff(item.iso.value, code); }
      assert Matches(item, code) <==> OfCountry(item, code);
      hide OfCountry, Matches;
      assert forall i :: 0 <= i < |before| ==> before[i] == items[i];
    }
  }

  /** The outcome for every database: a file exactly when every item can be decoded and one is a
      network of the country; otherwise the first item that cannot be decoded, or the lack of
      networks, is the error. */
  lemma {:induction false} FileOutcome(items: seq<Item>, code: string)
    ensures CountryFile(items, code).Ok? <==>
              && (forall i :: 0 <= i < |items| ==> !items[i].Broken?)
              && exists i :: 0 <= i < |items| && OfCountry(items[i], code)
    ensures (forall i :: 0 <= i < |items| ==> !items[i].Broken?) && CountryFile(items, code).Err? ==>
              CountryFile(items, code).message == "no IPv4 networks found for country " + code
    ensures forall i: nat :: i < |items| && items[i].Broken? && (forall j :: 0 <= j < i ==> !items[j].Broken?) ==>
              CountryFile(items, code) == Err(items[i].reason)
  {
    hide FileText, OfCountry, CollectRanges, Blocks;
    CollectRangesSpec(items, code);
    if CollectRanges(items, code).Ok? { SomeRangeIff(items, code); }
    forall i: nat | i < |items| && items[i].Broken? && (forall j :: 0 <= j < i ==> !items[j].Broken?)
      ensures CountryFile(items, code) == Err(items[i].reason)
    {
      CollectRangesSpec(items[..i], code);
      BrokenStays(items, code, i, items[i].reason);
    }
  }
}
