/** The host tool's run on a database, and the file it writes, which the application bundles for
    its default country and reads in place of an extracted one. */
module BundledFile {
  import opened Bits
  import opened Common
  import opened Cidrs
  import opened RangeMerge
  import opened BypassCidrs
  import opened DottedText
  import opened CountryText
  import opened TunnelSettings

  // The fixed comment texts, in short pieces.
  const ORIGIN := [") \U{2014} generated ", "once from a ", "MaxMind GeoLite2 ", "Country mmdb"]
  const MAKER := "# by core/rust/chnroute-gen. "
  const UNIT := " CIDR ranges."

  /** The country is printed as it was given. */
  function OriginLine(country: string): string {
    "# chnroute (" + country + ORIGIN[0] + ORIGIN[1] + ORIGIN[2] + ORIGIN[3]
  }

  function MakerLine(n: nat): string {
    MAKER + Dec(n) + UNIT
  }

  function BundledText(country: string, cs: seq<Cidr>): string {
    OriginLine(country) + "\n" + (MakerLine(|cs|) + "\n" + (JoinLines(cs) + "\n"))
  }

  /** What the tool writes: with no networks, the comments and an empty line. */
  function HostFile(items: seq<Item>, country: string): Result<string> {
    match CollectRanges(items, country)
    case Err(e) => Err(e)
    case Ok(rs) => Ok(BundledText(country, GenBlocks(rs)))
  }

  method GenerateChnroute(items: seq<Item>, country: string) returns (r: Result<string>)
    ensures r == HostFile(items, country)
  {
    var ranges := CollectCountry(items, country);
    if ranges.Err? {
      return Err(ranges.message);
    }
    var cidrs := CompileRangesGen(ranges.value);
    r := Ok(BundledText(country, cidrs));
  }

  // ---------------------------------------------------------------------
  // Reading the file back.
  // ---------------------------------------------------------------------

  lemma PiecesOneLine()
    ensures OneLine(ORIGIN[0]) && OneLine(ORIGIN[1]) && OneLine(ORIGIN[2]) && OneLine(ORIGIN[3])
  {
  }

  lemma MakerOneLine()
    ensures OneLine(MAKER) && OneLine(UNIT)
  {
  }

  lemma OriginOneLine(country: string)
    requires OneLine(country)
    ensures OneLine(OriginLine(country)) && ParseLine(OriginLine(country)) == Blank
  {
    hide ParseLine;
    CommentIsBlank(OriginLine(country));
    PiecesOneLine();
    FourPieces("# chnroute (" + country, ORIGIN);
  }

  lemma MakerIsBlank(n: nat)
    ensures OneLine(MakerLine(n)) && ParseLine(MakerLine(n)) == Blank
  {
    hide ParseLine, Dec;
    CommentIsBlank(MakerLine(n));
    MakerOneLine();
  }

  lemma LinesOfJoined(cs: seq<Cidr>)
    requires Prefixes(cs)
    ensures Lines(JoinLines(cs) + "\n") == CidrLines(cs) + if cs == [] then [[], []] else [[]]
  {
    if cs == [] {
      assert JoinLines(cs) + "\n" == "\n" && "\n"[1..] == [];
    } else {
      LinesOfBlocks(cs);
    }
  }

  lemma {:induction false} BlanksEnd(ls: seq<string>, blanks: seq<string>)
    requires blanks == [[]] || blanks == [[], []]
    ensures RoutesOf(ls + blanks) == RoutesOf(ls) && SkippedIn(ls + blanks) == SkippedIn(ls)
  {
    hide ParseLine, RoutesOf, SkippedIn;
    EmptyIsBlank();
    BlankEnd(ls, []);
    BlankEnd(ls + [[]], []);
    assert ls + [[]] + [[]] == ls + [[], []];
  }

  lemma TextLines(country: string, cs: seq<Cidr>)
    requires Prefixes(cs)
    ensures Lines(BundledText(country, cs))
            == Lines(OriginLine(country)) + [MakerLine(|cs|)] + CidrLines(cs) + if cs == [] then [[], []] else [[]]
  {
    hide Lines, OriginLine, MakerLine, JoinLines, ParseLine, OneLine, CidrLines;
    MakerIsBlank(|cs|);
    LinesOfJoined(cs);
    var tail := JoinLines(cs) + "\n";
    LinesCons(MakerLine(|cs|), tail);
    var rest := MakerLine(|cs|) + "\n" + tail;
    LinesApart(OriginLine(country), '\n', rest);
    assert BundledText(country, cs) == OriginLine(country) + (['\n'] + rest);
  }

  /** Parsing the file gives the block list back, for any list and any country without a line
      break in it; what follows a line break in the country would be read as lines of its own. */
  lemma {:induction false} BundledRoundTrip(country: string, cs: seq<Cidr>)
    requires Prefixes(cs)
    ensures var lines, title := Lines(BundledText(country, cs)), Lines(OriginLine(country));
            && RoutesOf(lines) == RoutesOf(title) + BlockRoutes(cs) && SkippedIn(lines) == SkippedIn(title)
            && (OneLine(country) ==> RoutesOf(lines) == BlockRoutes(cs) && SkippedIn(lines) == 0)
  {
    hide Lines, BundledText, OriginLine, MakerLine, ParseLine, CidrLines, BlockRoutes, RoutesOf, SkippedIn, OneLine;
    TextLines(country, cs);
    var title := Lines(OriginLine(country));
    MakerIsBlank(|cs|);
    BlankEnd(title, MakerLine(|cs|));
    RoutesOfBlocks(title + [MakerLine(|cs|)], cs);
    BlanksEnd(title + [MakerLine(|cs|)] + CidrLines(cs), if cs == [] then [[], []] else [[]]);
    if OneLine(country) {
      TitleIsBlank(country);
    }
  }

  lemma TitleIsBlank(country: string)
    requires OneLine(country)
    ensures RoutesOf(Lines(OriginLine(country))) == [] && SkippedIn(Lines(OriginLine(country))) == 0
  {
    hide Lines, OriginLine, ParseLine;
    OriginOneLine(country);
    LinesCons(OriginLine(country), []);
    BlankEnd([], OriginLine(country));
    assert [] + [OriginLine(country)] == [OriginLine(country)];
  }

  // ---------------------------------------------------------------------
  // From database to routes, and against the extracted file.
  // ---------------------------------------------------------------------

  ghost predicate EverywhereIn(items: seq<Item>, country: string) {
    forall a: u32 :: CountryHas(items, country, a)
  }

  /** Whenever the tool writes a file, the extension reads it without skipping a line and excludes
      exactly the addresses of the country's networks; with as few routes as any list of aligned
      blocks, or one more when the country has every address. */
  lemma {:induction false} BundledExcludedExactly(items: seq<Item>, country: string, ds: seq<Cidr>)
    requires HostFile(items, country).Ok? && OneLine(country)
    requires AllValid(ds) && forall a: u32 :: CoveredBy(ds, a) <==> CountryHas(items, country, a)
    ensures var lines := Lines(HostFile(items, country).value);
            && SkippedIn(lines) == 0
            && |RoutesOf(lines)| <= |ds| + (if EverywhereIn(items, country) then 1 else 0)
            && forall a: u32 :: Excluded(RoutesOf(lines), a) <==> CountryHas(items, country, a)
  {
    hide Lines, BundledText, RoutesOf, SkippedIn, GenBlocks, Blocks, CoveredBy, InRanges, CountryHas, Excluded,
         CollectRanges, OneLine;
    CollectRangesSpec(items, country);
    var rs := CollectRanges(items, country).value;
    GenBlocksCover(rs);
    GenMinimalUnlessWhole(rs);
    BlocksMinimal(rs, ds);
    var cs := GenBlocks(rs);
    BundledRoundTrip(country, cs);
    forall a: u32
      ensures Excluded(BlockRoutes(cs), a) <==> CountryHas(items, country, a)
    {
      RoutesExclude(cs, a);
    }
  }

  lemma RoutesDiffer(cs: seq<Cidr>, ds: seq<Cidr>)
    requires Prefixes(cs) && Prefixes(ds) && (cs == ds || |cs| != |ds|)
    ensures BlockRoutes(cs) == BlockRoutes(ds) <==> cs == ds
  {
    hide BlockRoute;
    assert |BlockRoutes(cs)| == |cs| && |BlockRoutes(ds)| == |ds|;
  }

  /** The bundled file and the file extracted at run time give the same routes, in the same order,
      exactly when some address is outside the country. */
  lemma {:induction false} BundledAgreesIff(items: seq<Item>, code: string)
    requires UpperAlnum(code) && CountryFile(items, code).Ok?
    ensures HostFile(items, code).Ok?
    ensures RoutesOf(Lines(HostFile(items, code).value)) == RoutesOf(Lines(CountryFile(items, code).value))
            <==> !EverywhereIn(items, code)
  {
    hide Lines, FileText, BundledText, RoutesOf, SkippedIn, GenBlocks, Blocks;
    hide CoveredBy, InRanges, CountryHas, CollectRanges;
    CollectRangesSpec(items, code);
    var rs := CollectRanges(items, code).value;
    BlocksCover(rs);
    GenBlocksCover(rs);
    GenMinimalUnlessWhole(rs);
    SomeBlock(rs);
    FileRoundTrip(code, Blocks(rs));
    CodeOneLine(code);
    BundledRoundTrip(code, GenBlocks(rs));
    RoutesDiffer(GenBlocks(rs), Blocks(rs));
  }

  lemma CodeOneLine(code: string)
    requires UpperAlnum(code)
    ensures OneLine(code)
  {
  }
}
