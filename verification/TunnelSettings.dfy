/** The routing settings built by the extension: routes excluded from the tunnel, parsed from
    the country file. */
module TunnelSettings {
  import opened Bits
  import opened Common
  import opened Cidrs
  import opened RangeMerge
  import opened BypassCidrs
  import opened DottedText
  import opened CountryText

  /** A destination address and a dotted mask, both as text. */
  datatype Route = Route(dest: string, mask: string)

  /** The route applies to `a`. */
  ghost predicate RouteMatches(r: Route, a: u32) {
    var d, m := Pton(r.dest), Pton(r.mask);
    d.Some? && m.Some? && And(a, m.value) == And(d.value, m.value)
  }

  ghost predicate Excluded(rs: seq<Route>, a: u32) {
    exists i :: 0 <= i < |rs| && RouteMatches(rs[i], a)
  }

  // ---------------------------------------------------------------------
  // Masks.
  // ---------------------------------------------------------------------

  /** A 32-bit left shift. */
  function Shl32(x: u32, k: nat): u32 {
    (x * P2(k)) % TWO32
  }

  function MaskBits(prefix: nat): u32
    requires prefix <= 32
  {
    if prefix == 0 then 0 else Shl32(0xFFFF_FFFF, 32 - prefix)
  }

  /** `%u.%u.%u.%u` of the four masked shifts. */
  function DottedAddrForUInt(a: u32): string {
    Dec(And(Shr(a, 24), 0xFF)) + "." + Dec(And(Shr(a, 16), 0xFF)) + "."
    + Dec(And(Shr(a, 8), 0xFF)) + "." + Dec(And(a, 0xFF))
  }

  function DottedMaskForPrefix(prefix: nat): string
    requires prefix <= 32
  {
    DottedAddrForUInt(MaskBits(prefix))
  }

  lemma MaskBitsIsHighMask(prefix: nat)
    requires prefix <= 32
    ensures MaskBits(prefix) == HighMask(32, 32 - prefix)
  {
    P2Values();
    var p := P2(32 - prefix);
    if prefix > 0 {
      P2Monotone(32 - prefix, 31);
      assert 0xFFFF_FFFF * p == (p - 1) * TWO32 + (TWO32 - p);
    }
  }

  lemma {:induction false} AndLowByte(x: nat)
    ensures And(x, 0xFF) == x % 256
  {
    hide And, Shr;
    AndLow(x, 8);
    P2Values();
    ShrBounds(x, 8);
  }

  lemma {:induction false} AndLow(x: nat, w: nat)
    ensures And(x, P2(w) - 1) == x - FloorTo(x, w)
    decreases w
  {
    if w > 0 {
      AndLow(x / 2, w - 1);
      FloorDouble(x, w);
      assert (P2(w) - 1) / 2 == P2(w - 1) - 1;
    }
  }

  lemma DottedAddrIsDotted(a: u32)
    ensures DottedAddrForUInt(a) == Dotted(a)
  {
    hide Dec, And;
    AndLowByte(Shr(a, 24));
    AndLowByte(Shr(a, 16));
    AndLowByte(Shr(a, 8));
    AndLowByte(a);
    ShrZero(a);
  }

  /** A route printed for an aligned block matches exactly the addresses of the block. */
  lemma {:induction false} RouteIsBlock(c: Cidr, a: u32)
    requires Valid(c)
    ensures RouteMatches(Route(Dotted(c.addr), DottedMaskForPrefix(c.prefix)), a) <==> Covers(c, a)
  {
    hide Dec, And, Dotted, Pton, DottedAddrForUInt, FloorTo, Shr, Shl32, HighMask;
    var k := HostBits(c);
    PtonDotted(c.addr);
    DottedAddrIsDotted(MaskBits(c.prefix));
    PtonDotted(MaskBits(c.prefix));
    MaskBitsIsHighMask(c.prefix);
    P2Values();
    AndHighMask(a, 32, k);
    AndHighMask(c.addr, 32, k);
    FloorEqual(a, c.addr, k);
    CoversByPrefix(c, a);
  }

  lemma FloorEqual(a: nat, b: nat, k: nat)
    ensures FloorTo(a, k) == FloorTo(b, k) <==> Shr(a, k) == Shr(b, k)
  {
    MulLess(Shr(a, k), Shr(b, k), P2(k));
    MulLess(Shr(b, k), Shr(a, k), P2(k));
  }

  // ---------------------------------------------------------------------
  // The line parser.
  // ---------------------------------------------------------------------

  datatype LineResult = Blank | Malformed | Parsed(route: Route)

  function ParseLine(raw: string): LineResult {
    var line := Trim(raw);
    if line == [] || line[0] == '#' then Blank
    else match IndexOf(line, '/')
      case None => Malformed
      case Some(slash) =>
        var addr, prefix := line[..slash], IntegerValue(line[slash + 1..]);
        if prefix < 0 || prefix > 32 then Malformed
        else if Pton(addr).None? then Malformed
        else Parsed(Route(addr, DottedMaskForPrefix(prefix)))
  }

  function RoutesOf(lines: seq<string>): seq<Route> {
    if lines == [] then []
    else match ParseLine(lines[|lines| - 1])
      case Parsed(r) => RoutesOf(lines[..|lines| - 1]) + [r]
      case _ => RoutesOf(lines[..|lines| - 1])
  }

  function SkippedIn(lines: seq<string>): nat {
    if lines == [] then 0
    else SkippedIn(lines[..|lines| - 1]) + if ParseLine(lines[|lines| - 1]).Malformed? then 1 else 0
  }

  /** `appendChnrouteExclusions:fromURL:` on the file's text, `None` when it cannot be read. */
  method AppendChnrouteExclusions(text: Option<string>, excluded: seq<Route>)
    returns (routes: seq<Route>, appended: nat, skipped: nat)
    ensures text.None? ==> routes == excluded && appended == 0 && skipped == 0
    ensures text.Some? ==>
              && routes == excluded + RoutesOf(Lines(text.value))
              && appended == |RoutesOf(Lines(text.value))|
              && skipped == SkippedIn(Lines(text.value))
  {
    hide Trim, IntegerValue, IndexOf, Pton, DottedMaskForPrefix, Lines;
    routes, appended, skipped := excluded, 0, 0;
    if text.None? {
      return;
    }
    var lines := Lines(text.value);
    for i := 0 to |lines|
      invariant routes == excluded + RoutesOf(lines[..i])
      invariant appended == |RoutesOf(lines[..i])| && skipped == SkippedIn(lines[..i])
    {
      assert lines[..i + 1][..i] == lines[..i];
      var line := Trim(lines[i]);
      if line == [] || line[0] == '#' {
        continue;
      }
      var slash := IndexOf(line, '/');
      if slash.None? {
        skipped := skipped + 1;
        continue;
      }
      var addr := line[..slash.value];
      var prefix := IntegerValue(line[slash.value + 1..]);
      if prefix < 0 || prefix > 32 {
        skipped := skipped + 1;
        continue;
      }
      if Pton(addr).None? {
        skipped := skipped + 1;
        continue;
      }
      routes := routes + [Route(addr, DottedMaskForPrefix(prefix))];
      appended := appended + 1;
    }
    assert lines[..|lines|] == lines;
  }

  function BlockRoute(c: Cidr): Route
    requires c.prefix <= 32
  {
    Route(Dotted(c.addr), DottedMaskForPrefix(c.prefix))
  }

  function BlockRoutes(cs: seq<Cidr>): (rs: seq<Route>)
    requires forall i :: 0 <= i < |cs| ==> cs[i].prefix <= 32
    ensures |rs| == |cs|
    ensures forall i :: 0 <= i < |cs| ==> rs[i] == BlockRoute(cs[i])
  {
    seq(|cs|, i requires 0 <= i < |cs| => BlockRoute(cs[i]))
  }

  /** A printed block line parses back to its own route. */
  lemma {:induction false} ParseCidrLine(c: Cidr)
    requires c.prefix <= 32
    ensures OneLine(CidrLine(c))
    ensures ParseLine(CidrLine(c)) == Parsed(BlockRoute(c))
  {
    hide Dec, Dotted, Pton, DottedMaskForPrefix, IntegerValue, Trim;
    var line := CidrLine(c);
    DottedPlain(c.addr);
    assert line[0] == Dotted(c.addr)[0];
    PlainUntouched(line);
    var slash := |Dotted(c.addr)|;
    assert line[slash] == '/';
    assert forall i :: 0 <= i < slash ==> line[i] == Dotted(c.addr)[i];
    assert IndexOf(line, '/') == Some(slash);
    assert line[..slash] == Dotted(c.addr);
    assert line[slash + 1..] == Dec(c.prefix);
    IntegerValueDec(c.prefix);
    PtonDotted(c.addr);
  }

  // ---------------------------------------------------------------------
  // From database to routes and back to addresses.
  // ---------------------------------------------------------------------

  function CidrLines(cs: seq<Cidr>): (ls: seq<string>)
    ensures |ls| == |cs| && forall i :: 0 <= i < |cs| ==> ls[i] == CidrLine(cs[i])
  {
    seq(|cs|, i requires 0 <= i < |cs| => CidrLine(cs[i]))
  }

  ghost predicate Prefixes(cs: seq<Cidr>) {
    forall i :: 0 <= i < |cs| ==> cs[i].prefix <= 32
  }

  lemma {:induction false} LinesOfBlocks(cs: seq<Cidr>)
    requires cs != [] && Prefixes(cs)
    ensures Lines(JoinLines(cs) + "\n") == CidrLines(cs) + [[]]
  {
    hide Lines, CidrLine, ParseLine;
    ParseCidrLine(cs[0]);
    var line := CidrLine(cs[0]);
    if |cs| == 1 {
      LinesCons(line, []);
      assert JoinLines(cs) + "\n" == line + "\n" + [];
      assert Lines([]) == [[]] by { LinesEmpty(); }
    } else {
      LinesOfBlocks(cs[1..]);
      var rest := JoinLines(cs[1..]) + "\n";
      LinesCons(line, rest);
      assert JoinLines(cs) + "\n" == line + "\n" + rest;
      assert CidrLines(cs) == [line] + CidrLines(cs[1..]);
    }
  }

  lemma LinesEmpty()
    ensures Lines([]) == [[]]
  {
  }

  lemma {:induction false} TrimRightKeepsHead(s: string)
    requires s != [] && !IsSpace(s[0])
    ensures TrimRight(s) != [] && TrimRight(s)[0] == s[0]
  {
    if IsSpace(s[|s| - 1]) {
      TrimRightKeepsHead(s[..|s| - 1]);
    }
  }

  lemma CommentIsBlank(s: string)
    requires s != [] && s[0] == '#'
    ensures ParseLine(s) == Blank
  {
    TrimRightKeepsHead(s);
  }

  lemma OneLineConcat(a: string, b: string)
    requires OneLine(a) && OneLine(b)
    ensures OneLine(a + b)
  {
  }

  lemma IntroOneLine()
    ensures OneLine(INTRO[0]) && OneLine(INTRO[1]) && OneLine(INTRO[2]) && OneLine(INTRO[3])
  {
  }

  lemma AdviceOneLine()
    ensures OneLine(ADVICE[0]) && OneLine(ADVICE[1]) && OneLine(ADVICE[2]) && OneLine(ADVICE[3])
  {
  }

  lemma FourPieces(s: string, p: seq<string>)
    requires |p| == 4 && OneLine(s) && OneLine(p[0]) && OneLine(p[1]) && OneLine(p[2]) && OneLine(p[3])
    ensures OneLine(s + p[0] + p[1] + p[2] + p[3])
  {
    hide OneLine;
    OneLineConcat(s, p[0]);
    OneLineConcat(s + p[0], p[1]);
    OneLineConcat(s + p[0] + p[1], p[2]);
    OneLineConcat(s + p[0] + p[1] + p[2], p[3]);
  }

  lemma TitleOneLine(code: string)
    requires UpperAlnum(code)
    ensures OneLine(TitleLine(code)) && ParseLine(TitleLine(code)) == Blank
  {
    hide Trim, ParseLine;
    CommentIsBlank(TitleLine(code));
    IntroOneLine();
    FourPieces("# chnroute (" + code, INTRO);
  }

  lemma CountOneLine(n: nat)
    ensures OneLine(CountLine(n)) && ParseLine(CountLine(n)) == Blank
  {
    hide Trim, ParseLine, Dec;
    CommentIsBlank(CountLine(n));
    AdviceOneLine();
    FourPieces("# " + Dec(n), ADVICE);
  }

  lemma Regroup(a: string, b: string, xs: seq<string>, ys: seq<string>)
    ensures [a] + ([b] + (xs + ys)) == [a, b] + xs + ys
  {
  }

  /** The file's lines: two comments, the blocks, and the empty piece after the last newline. */
  lemma {:induction false} LinesOfFile(code: string, cs: seq<Cidr>)
    requires UpperAlnum(code) && cs != [] && Prefixes(cs)
    ensures Lines(FileText(code, cs)) == [TitleLine(code), CountLine(|cs|)] + CidrLines(cs) + [[]]
  {
    hide Lines, TitleLine, CountLine, JoinLines, ParseLine, OneLine, CidrLines, UpperAlnum;
    TitleOneLine(code);
    CountOneLine(|cs|);
    LinesOfBlocks(cs);
    var tail := JoinLines(cs) + "\n";
    LinesCons(CountLine(|cs|), tail);
    LinesCons(TitleLine(code), CountLine(|cs|) + "\n" + tail);
    Regroup(TitleLine(code), CountLine(|cs|), CidrLines(cs), [[]]);
  }

  lemma {:induction false} RoutesOfBlocks(pre: seq<string>, cs: seq<Cidr>)
    requires Prefixes(cs)
    ensures RoutesOf(pre + CidrLines(cs)) == RoutesOf(pre) + BlockRoutes(cs)
    ensures SkippedIn(pre + CidrLines(cs)) == SkippedIn(pre)
  {
    hide ParseLine, CidrLine, BlockRoute, RoutesOf, SkippedIn;
    if cs == [] {
      assert pre + CidrLines(cs) == pre;
    } else {
      var init, c := cs[..|cs| - 1], cs[|cs| - 1];
      RoutesOfBlocks(pre, init);
      ParseCidrLine(c);
      RouteEnd(pre + CidrLines(init), CidrLine(c), BlockRoute(c));
      assert pre + CidrLines(cs) == pre + CidrLines(init) + [CidrLine(c)];
      assert BlockRoutes(cs) == BlockRoutes(init) + [BlockRoute(c)];
    }
  }

  lemma RouteEnd(ls: seq<string>, line: string, r: Route)
    requires ParseLine(line) == Parsed(r)
    ensures RoutesOf(ls + [line]) == RoutesOf(ls) + [r] && SkippedIn(ls + [line]) == SkippedIn(ls)
  {
    assert (ls + [line])[..|ls|] == ls;
  }

  lemma {:induction false} LinesAdd(ls: seq<string>, ms: seq<string>)
    ensures RoutesOf(ls + ms) == RoutesOf(ls) + RoutesOf(ms) && SkippedIn(ls + ms) == SkippedIn(ls) + SkippedIn(ms)
    decreases |ms|
  {
    hide ParseLine;
    if ms == [] {
      assert ls + ms == ls;
    } else {
      assert (ls + ms)[..|ls + ms| - 1] == ls + ms[..|ms| - 1];
      LinesAdd(ls, ms[..|ms| - 1]);
    }
  }

  /** A file is read line by line: each line gives its route, is skipped and counted, or is passed over
      without being counted, and the routes come in the order of their lines. */
  lemma {:induction false} ReadLineByLine(line: string, newline: char, more: string)
    requires OneLine(line) && IsNewline(newline)
    ensures var first := match ParseLine(line) case Parsed(r) => [r] case _ => [];
            && RoutesOf(Lines(line)) == first
            && RoutesOf(Lines(line + ([newline] + more))) == first + RoutesOf(Lines(more))
    ensures var one := if ParseLine(line) == Malformed then 1 else 0;
            && SkippedIn(Lines(line)) == one
            && SkippedIn(Lines(line + ([newline] + more))) == one + SkippedIn(Lines(more))
  {
    hide ParseLine, Lines;
    LinesOfOne(line);
    LinesApart(line, newline, more);
    LinesAdd([line], Lines(more));
    assert [line][..0] == [];
  }

  /** Parsing the printed file gives the block list back and skips no line. */
  lemma {:induction false} FileRoundTrip(code: string, cs: seq<Cidr>)
    requires UpperAlnum(code) && cs != [] && Prefixes(cs)
    ensures RoutesOf(Lines(FileText(code, cs))) == BlockRoutes(cs)
    ensures SkippedIn(Lines(FileText(code, cs))) == 0
  {
    hide Lines, FileText, TitleLine, CountLine, ParseLine, CidrLines, BlockRoutes;
    LinesOfFile(code, cs);
    var head := [TitleLine(code), CountLine(|cs|)];
    HeadIsBlank(code, |cs|);
    RoutesOfBlocks(head, cs);
    BlankEnd(head + CidrLines(cs), []) by { assert ParseLine([]) == Blank by { EmptyIsBlank(); } }
  }

  lemma HeadIsBlank(code: string, n: nat)
    requires UpperAlnum(code)
    ensures RoutesOf([TitleLine(code), CountLine(n)]) == []
    ensures SkippedIn([TitleLine(code), CountLine(n)]) == 0
  {
    hide TitleLine, CountLine, ParseLine;
    TitleOneLine(code);
    CountOneLine(n);
    assert [TitleLine(code), CountLine(n)] == [] + [TitleLine(code)] + [CountLine(n)];
    BlankEnd([], TitleLine(code));
    BlankEnd([] + [TitleLine(code)], CountLine(n));
  }

  lemma EmptyIsBlank()
    ensures ParseLine([]) == Blank
  {
  }

  lemma BlankEnd(ls: seq<string>, line: string)
    requires ParseLine(line) == Blank
    ensures RoutesOf(ls + [line]) == RoutesOf(ls) && SkippedIn(ls + [line]) == SkippedIn(ls)
  {
    assert (ls + [line])[..|ls|] == ls;
  }

  /** Routes of blocks exclude exactly what the blocks cover. */
  lemma {:induction false} RoutesExclude(cs: seq<Cidr>, a: u32)
    requires AllValid(cs) && Prefixes(cs)
    ensures Excluded(BlockRoutes(cs), a) <==> CoveredBy(cs, a)
  {
    hide RouteMatches, Covers, BlockRoute;
    forall i | 0 <= i < |cs|
      ensures RouteMatches(BlockRoute(cs[i]), a) <==> Covers(cs[i], a)
    {
      BlockRouteMatches(cs[i], a);
    }
  }

  lemma BlockRouteMatches(c: Cidr, a: u32)
    requires Valid(c)
    ensures RouteMatches(BlockRoute(c), a) <==> Covers(c, a)
  {
    RouteIsBlock(c, a);
  }

  /** End to end: whenever the extractor produces a file for a normalized country code, the
      extension reads it without skipping a line and excludes exactly the addresses of that
      country's networks, with no more routes than any list of aligned blocks would need. */
  lemma {:induction false} CountryExcludedExactly(items: seq<Item>, country: string, ds: seq<Cidr>)
    requires CountryFile(items, NormalizeCountry(country)).Ok?
    requires AllValid(ds)
    requires forall a: u32 :: CoveredBy(ds, a) <==> CountryHas(items, NormalizeCountry(country), a)
    ensures var lines := Lines(CountryFile(items, NormalizeCountry(country)).value);
            && SkippedIn(lines) == 0
            && |RoutesOf(lines)| <= |ds|
            && forall a: u32 :: Excluded(RoutesOf(lines), a) <==> CountryHas(items, NormalizeCountry(country), a)
  {
    hide Lines, FileText, RoutesOf, SkippedIn, Blocks, CoveredBy, InRanges, CountryHas, Excluded, CollectRanges;
    var code := NormalizeCountry(country);
    NormalizeSpec(country);
    CollectRangesSpec(items, code);
    var rs := CollectRanges(items, code).value;
    BlocksCover(rs);
    BlocksMinimal(rs, ds);
    var cs := Blocks(rs);
    SomeBlock(rs);
    FileRoundTrip(code, cs);
    forall a: u32
      ensures Excluded(BlockRoutes(cs), a) <==> CountryHas(items, code, a)
    {
      RoutesExclude(cs, a);
    }
  }

  lemma SomeBlock(rs: seq<Range>)
    requires Proper(rs) && rs != []
    ensures Blocks(rs) != []
  {
    hide Blocks;
    BlocksCover(rs);
    HeadIn(rs, rs[0].lo);
    assert CoveredBy(Blocks(rs), rs[0].lo);
  }

  // ---------------------------------------------------------------------
  // Every line: which are taken as routes, and which of them should not be.
  // ---------------------------------------------------------------------

  lemma {:induction false} TrimRightTail(head: string, t: string)
    requires head != [] && !IsSpace(head[|head| - 1])
    ensures TrimRight(head + t) == head + TrimRight(t)
    decreases |t|
  {
    if t == [] {
      assert head + t == head;
    } else {
      assert (head + t)[..|head + t| - 1] == head + t[..|t| - 1];
      if IsSpace(t[|t| - 1]) { TrimRightTail(head, t[..|t| - 1]); }
    }
  }

  lemma {:induction false} LeadingDigitsDrop(s: string, acc: nat)
    requires s != [] && IsSpace(s[|s| - 1])
    ensures LeadingDigits(s[..|s| - 1], acc) == LeadingDigits(s, acc)
    decreases |s|
  {
    if IsDigit(s[0]) {
      assert s[..|s| - 1][1..] == s[1..][..|s| - 2];
      LeadingDigitsDrop(s[1..], acc * 10 + DigitValue(s[0]));
    }
  }

  lemma {:induction false} TrimLeftDrop(s: string)
    requires s != [] && IsSpace(s[|s| - 1])
    ensures var t := TrimLeft(s);
            if t == [] then TrimLeft(s[..|s| - 1]) == []
            else IsSpace(t[|t| - 1]) && TrimLeft(s[..|s| - 1]) == t[..|t| - 1]
    decreases |s|
  {
    if IsSpace(s[0]) && |s| > 1 {
      assert s[..|s| - 1][1..] == s[1..][..|s| - 2];
      TrimLeftDrop(s[1..]);
    }
  }

  lemma IntegerValueDrop(s: string)
    requires s != [] && IsSpace(s[|s| - 1])
    ensures IntegerValue(s[..|s| - 1]) == IntegerValue(s)
  {
    TrimLeftDrop(s);
    var t := TrimLeft(s);
    if t != [] {
      LeadingDigitsDrop(t, 0);
      if t[0] == '-' || t[0] == '+' {
        assert t[..|t| - 1][1..] == t[1..][..|t| - 2];
        LeadingDigitsDrop(t[1..], 0);
      }
    }
  }

  /** Space at the end does not change the number read. */
  lemma {:induction false} IntegerValueTrimmed(s: string)
    ensures IntegerValue(TrimRight(s)) == IntegerValue(s)
    decreases |s|
  {
    hide IntegerValue;
    if s != [] && IsSpace(s[|s| - 1]) {
      IntegerValueDrop(s);
      IntegerValueTrimmed(s[..|s| - 1]);
    }
  }

  function TailLine(dest: u32, t: string): string {
    Dotted(dest) + "/" + t
  }

  /** The line is an address as a C string reader sees it, the first slash, and a text. */
  ghost predicate Written(line: string, a: u32, x: string, t: string) {
    line == x + "/" + t && '/' !in x && CString(x) == Dotted(a)
  }

  lemma FirstSlash(x: string, t: string)
    requires '/' !in x
    ensures IndexOf(x + "/" + t, '/') == Some(|x|)
    ensures (x + "/" + t)[..|x|] == x && (x + "/" + t)[|x| + 1..] == t
  {
    var line := x + "/" + t;
    assert line[|x|] == '/' && forall i :: 0 <= i < |x| ==> line[i] == x[i];
  }

  /** Such a line is decided by the number read from the text after the slash alone. */
  lemma WrittenRoute(raw: string, a: u32, x: string, t: string)
    requires Written(Trim(raw), a, x, t)
    ensures ParseLine(raw) == if 0 <= IntegerValue(t) <= 32 then Parsed(Route(x, DottedMaskForPrefix(IntegerValue(t))))
                              else Malformed
    ensures Pton(x) == Some(a)
  {
    hide Dotted, Pton, DottedMaskForPrefix, IntegerValue, Trim, IndexOf;
    DottedPlain(a);
    FirstSlash(x, t);
    assert Trim(raw)[0] == x[0] == CString(x)[0];
    PtonIff(x, a);
  }

  lemma ParsedIsWritten(raw: string)
    requires ParseLine(raw).Parsed?
    ensures exists a: u32, x: string, t: string :: Written(Trim(raw), a, x, t) && 0 <= IntegerValue(t) <= 32
  {
    hide Dotted, Pton, DottedMaskForPrefix, IntegerValue, Trim, CString;
    var line := Trim(raw);
    var slash := IndexOf(line, '/').value;
    var x, t := line[..slash], line[slash + 1..];
    PtonIff(x, Pton(x).value);
    assert line == x + "/" + t;
    assert Written(line, Pton(x).value, x, t);
  }

  /** Every raw line is taken as a route exactly when, without surrounding space, it is a printed
      address, possibly with more text behind a NUL, then a slash and a text from which a number
      between 0 and 32 is read. */
  lemma {:induction false} ParsedIff(raw: string)
    ensures ParseLine(raw).Parsed? <==>
              exists a: u32, x: string, t: string :: Written(Trim(raw), a, x, t) && 0 <= IntegerValue(t) <= 32
  {
    hide ParseLine, Written, Trim, IntegerValue, DottedMaskForPrefix;
    if ParseLine(raw).Parsed? {
      ParsedIsWritten(raw);
    }
    forall a: u32, x: string, t: string | Written(Trim(raw), a, x, t) && 0 <= IntegerValue(t) <= 32
      ensures ParseLine(raw).Parsed?
    {
      WrittenRoute(raw, a, x, t);
    }
  }

  ghost predicate ExcludesAll(line: string) {
    ParseLine(line).Parsed? && forall a: u32 :: RouteMatches(ParseLine(line).route, a)
  }

  lemma ZeroMaskMatches(x: string, a: u32)
    requires Pton(x).Some?
    ensures RouteMatches(Route(x, DottedMaskForPrefix(0)), a)
  {
    hide Dotted, Pton, DottedAddrForUInt, FloorTo, Shr;
    DottedAddrIsDotted(0);
    PtonDotted(0);
  }

  /** A mask of positive length tells the two halves of the address space apart. */
  lemma HalfMissed(x: string, dest: u32, prefix: nat, a: u32)
    requires Pton(x) == Some(dest) && 1 <= prefix <= 32
    requires a == dest + 0x8000_0000 || dest == a + 0x8000_0000
    ensures !RouteMatches(Route(x, DottedMaskForPrefix(prefix)), a)
  {
    hide Dec, And, Dotted, Pton, DottedAddrForUInt, FloorTo, Shr, Shl32, HighMask, MaskBits;
    var k := 32 - prefix;
    DottedAddrIsDotted(MaskBits(prefix));
    PtonDotted(MaskBits(prefix));
    MaskBitsIsHighMask(prefix);
    P2Values();
    P2Monotone(k, 31);
    AndHighMask(a, 32, k);
    AndHighMask(dest, 32, k);
    FloorEqual(a, dest, k);
    ShrBounds(a, k);
    ShrBounds(dest, k);
  }

  lemma WrittenExcludesAll(raw: string, a: u32, x: string, t: string)
    requires Written(Trim(raw), a, x, t)
    ensures ExcludesAll(raw) <==> IntegerValue(t) == 0
  {
    hide ParseLine, Written, Trim, IntegerValue, DottedMaskForPrefix, RouteMatches, Pton;
    WrittenRoute(raw, a, x, t);
    if IntegerValue(t) == 0 {
      forall b: u32
        ensures RouteMatches(ParseLine(raw).route, b)
      {
        ZeroMaskMatches(x, b);
      }
    } else if 0 < IntegerValue(t) <= 32 {
      var b: u32 := if a < 0x8000_0000 then a + 0x8000_0000 else a - 0x8000_0000;
      HalfMissed(x, a, IntegerValue(t), b);
    }
  }

  /** Every raw line excludes every address exactly when it is such a line and the number read is
      0, as it is from a text without a number. */
  lemma {:induction false} ExcludesAllIff(raw: string)
    ensures ExcludesAll(raw) <==>
              exists a: u32, x: string, t: string :: Written(Trim(raw), a, x, t) && IntegerValue(t) == 0
  {
    hide ParseLine, Written, Trim, IntegerValue, RouteMatches;
    ParsedIff(raw);
    forall a: u32, x: string, t: string | Written(Trim(raw), a, x, t)
      ensures ExcludesAll(raw) <==> IntegerValue(t) == 0
    {
      WrittenExcludesAll(raw, a, x, t);
    }
  }

  /** A decimal prefix length. */
  ghost predicate IsPrefixLength(s: string) {
    exists n: nat :: n <= 32 && s == Dec(n)
  }

  /** A line of the documented format. */
  ghost predicate IsCidrLine(line: string) {
    exists c: Cidr :: c.prefix <= 32 && line == CidrLine(c)
  }

  predicate IsComment(line: string) {
    line == [] || line[0] == '#'
  }

  lemma CidrLineWritten(line: string, c: Cidr)
    requires c.prefix <= 32 && line == CidrLine(c)
    ensures Written(line, c.addr, Dotted(c.addr), Dec(c.prefix)) && IntegerValue(Dec(c.prefix)) == c.prefix
  {
    hide Dotted, Dec, IntegerValue;
    DottedPlain(c.addr);
    CStringWhole(Dotted(c.addr));
    IntegerValueDec(c.prefix);
  }

  lemma WrittenOnce(line: string, a: u32, x: string, t: string, b: u32, y: string, u: string)
    requires Written(line, a, x, t) && Written(line, b, y, u)
    ensures x == y && t == u
  {
    hide Dotted, CString, IndexOf;
    FirstSlash(x, t);
    FirstSlash(y, u);
  }

  lemma WrittenIsCidrIff(line: string, a: u32, x: string, t: string)
    requires Written(line, a, x, t)
    ensures IsCidrLine(line) <==> x == Dotted(a) && IsPrefixLength(t)
  {
    hide Dotted, Dec, IntegerValue, CString;
    if IsCidrLine(line) {
      var c: Cidr :| c.prefix <= 32 && line == CidrLine(c);
      CidrLineWritten(line, c);
      WrittenOnce(line, a, x, t, c.addr, Dotted(c.addr), Dec(c.prefix));
      CStringDotted(c.addr);
    }
    if x == Dotted(a) && IsPrefixLength(t) {
      var n: nat :| n <= 32 && t == Dec(n);
      assert line == CidrLine(Cidr(a, n));
    }
  }

  lemma CStringDotted(a: u32)
    ensures CString(Dotted(a)) == Dotted(a)
  {
    hide Dotted, Pton;
    PtonDotted(a);
  }

  lemma CidrLineParsed(raw: string)
    requires IsCidrLine(Trim(raw))
    ensures ParseLine(raw).Parsed?
  {
    hide ParseLine, Written, Trim, IntegerValue, CidrLine, Dotted, Dec;
    var c: Cidr :| c.prefix <= 32 && Trim(raw) == CidrLine(c);
    CidrLineWritten(Trim(raw), c);
    WrittenRoute(raw, c.addr, Dotted(c.addr), Dec(c.prefix));
  }

  lemma BlankIsComment(raw: string)
    ensures ParseLine(raw).Blank? <==> IsComment(Trim(raw))
  {
    hide Trim, Pton, IntegerValue, DottedMaskForPrefix;
  }

  /** The promise to skip malformed lines, and only those, for every raw line: it is kept exactly
      when the line is not one that is taken as a route with text behind a NUL in the address, or
      with something other than a prefix length after the slash. */
  lemma {:induction false} SkipPromiseIff(raw: string)
    ensures (ParseLine(raw).Malformed? <==> !IsComment(Trim(raw)) && !IsCidrLine(Trim(raw)))
            <==> (forall a: u32, x: string, t: string ::
                    Written(Trim(raw), a, x, t) && 0 <= IntegerValue(t) <= 32 ==> x == Dotted(a) && IsPrefixLength(t))
  {
    hide ParseLine, Written, Trim, IntegerValue, IsCidrLine, IsPrefixLength, IsComment, Dotted;
    BlankIsComment(raw);
    ParsedIff(raw);
    if IsCidrLine(Trim(raw)) { CidrLineParsed(raw); }
    forall a: u32, x: string, t: string | Written(Trim(raw), a, x, t)
      ensures IsCidrLine(Trim(raw)) <==> x == Dotted(a) && IsPrefixLength(t)
    {
      WrittenIsCidrIff(Trim(raw), a, x, t);
    }
  }

  /** A printed address, a slash and any text. */
  lemma TailWritten(dest: u32, t: string)
    ensures Written(Trim(TailLine(dest, t)), dest, Dotted(dest), TrimRight(t))
    ensures IntegerValue(TrimRight(t)) == IntegerValue(t)
  {
    hide Dotted, IntegerValue, TrimRight, CString;
    var head := Dotted(dest) + "/";
    DottedPlain(dest);
    CStringDotted(dest);
    assert TailLine(dest, t) == head + t && head[0] == Dotted(dest)[0];
    TrimRightTail(head, t);
    assert Trim(TailLine(dest, t)) == head + TrimRight(t);
    IntegerValueTrimmed(t);
  }

  /** The promise broken: a missing number, a sign alone and a hexadecimal number become length 0
      and exclude everything; trailing letters are dropped. */
  lemma {:induction false} BrokenTails(dest: u32)
    ensures ExcludesAll(TailLine(dest, "")) && ExcludesAll(TailLine(dest, "-")) && ExcludesAll(TailLine(dest, "0x18"))
    ensures ParseLine(TailLine(dest, "8abc")) == ParseLine(TailLine(dest, "8"))
    ensures !IsPrefixLength("") && !IsPrefixLength("-") && !IsPrefixLength("0x18") && !IsPrefixLength("8abc")
  {
    hide ParseLine, TailLine, ExcludesAll, Dotted, DottedMaskForPrefix, Dec, Written, Trim, TrimRight;
    NumbersRead();
    forall t: string | t in ["", "-", "0x18"]
      ensures ExcludesAll(TailLine(dest, t))
    {
      TailWritten(dest, t);
      WrittenExcludesAll(TailLine(dest, t), dest, Dotted(dest), TrimRight(t));
    }
    TailWritten(dest, "8abc");
    TailWritten(dest, "8");
    WrittenRoute(TailLine(dest, "8abc"), dest, Dotted(dest), TrimRight("8abc"));
    WrittenRoute(TailLine(dest, "8"), dest, Dotted(dest), TrimRight("8"));
    assert !IsDigit("-"[0]) && !IsDigit("0x18"[1]) && !IsDigit("8abc"[1]);
  }

  /** And text behind a NUL in the address. */
  lemma {:induction false} BrokenAddress(dest: u32, junk: string, n: nat)
    requires n <= 32 && '/' !in junk
    ensures var raw := Dotted(dest) + "\0" + junk + "/" + Dec(n);
            ParseLine(raw) == Parsed(Route(Dotted(dest) + "\0" + junk, DottedMaskForPrefix(n)))
  {
    hide ParseLine, Dotted, Dec, CString, DottedMaskForPrefix, IntegerValue;
    var x := Dotted(dest) + "\0" + junk;
    var raw := x + "/" + Dec(n);
    DottedPlain(dest);
    CutAtNul(Dotted(dest), junk);
    assert x[0] == Dotted(dest)[0] && raw[0] == x[0];
    assert raw[|raw| - 1] == Dec(n)[|Dec(n)| - 1];
    assert Trim(raw) == raw by { hide TailLine; TrimEnds(raw); }
    IntegerValueDec(n);
    WrittenRoute(raw, dest, x, Dec(n));
  }

  lemma TrimEnds(s: string)
    requires s != [] && !IsSpace(s[0]) && !IsSpace(s[|s| - 1])
    ensures Trim(s) == s
  {
  }

  lemma {:induction false} CutAtNul(s: string, rest: string)
    requires '\0' !in s
    ensures CString(s + "\0" + rest) == s
  {
    if s != [] {
      CutAtNul(s[1..], rest);
      assert (s + "\0" + rest)[1..] == s[1..] + "\0" + rest;
      assert s == [s[0]] + s[1..];
    }
  }

  lemma NumbersRead()
    ensures IntegerValue("") == 0 && IntegerValue("-") == 0 && IntegerValue("0x18") == 0
    ensures IntegerValue("8abc") == 8 && IntegerValue("8") == 8
  {
    assert "-"[1..] == [];
    assert LeadingDigits("0x18"[1..], 0) == 0;
    assert LeadingDigits("8abc"[1..], 8) == 8;
    assert "8"[1..] == [];
  }
}
