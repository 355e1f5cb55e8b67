/** Printing and parsing of the text the two sides exchange: decimal numbers, dotted
    addresses, and the platform's line, trim and number readers. */
module DottedText {
  import opened Bits
  import opened Common

  predicate IsDigit(c: char) {
    '0' <= c <= '9'
  }

  function DigitOf(d: nat): (c: char)
    requires d < 10
    ensures IsDigit(c) && DigitValue(c) == d
  {
    '0' + d as char
  }

  function DigitValue(c: char): nat
    requires IsDigit(c)
  {
    (c - '0') as int
  }

  /** Decimal rendering without leading zeros. */
  function Dec(n: nat): (s: string)
    ensures |s| >= 1
    ensures forall i :: 0 <= i < |s| ==> IsDigit(s[i])
  {
    if n < 10 then [DigitOf(n)] else Dec(n / 10) + [DigitOf(n % 10)]
  }

  /** Octet k (0 = most significant) of an address. */
  function Octet(a: u32, k: nat): (o: nat)
    requires k < 4
    ensures o < 256
  {
    Shr(a, 24 - 8 * k) % 256
  }

  lemma OctetsDetermine(a: u32)
    ensures a == ((Octet(a, 0) * 256 + Octet(a, 1)) * 256 + Octet(a, 2)) * 256 + Octet(a, 3)
  {
    hide Shr;
    ShrByte(a, 16);
    ShrByte(a, 8);
    ShrByte(a, 0);
    assert Shr(a, 0) == a by { ShrZero(a); }
    P2Values();
    ShrBounds(a, 24);
  }

  lemma ShrZero(a: nat)
    ensures Shr(a, 0) == a
  {
  }

  lemma ShrByte(a: nat, k: nat)
    ensures Shr(a, k) == Shr(a, k + 8) * 256 + Shr(a, k) % 256
  {
    hide Shr;
    ShrShr(a, k, 8);
    ShrBounds(Shr(a, k), 8);
    P2Values();
  }

  /** The usual rendering of an address, as `Ipv4Addr`'s display and `%u.%u.%u.%u` give it. */
  function Dotted(a: u32): string {
    Dec(Octet(a, 0)) + "." + Dec(Octet(a, 1)) + "." + Dec(Octet(a, 2)) + "." + Dec(Octet(a, 3))
  }

  // ---------------------------------------------------------------------
  // inet_pton
  // ---------------------------------------------------------------------

  /** One pass over the text: `done` holds finished octets, `cur` the one being read or -1.
      A second digit after a zero, a value over 255, a dot without digits before it and a
      fifth octet are refused. */
  function PtonScan(s: string, done: seq<nat>, cur: int): Option<seq<nat>> {
    if s == [] then
      if |done| == 3 && cur >= 0 then Some(done + [cur]) else None
    else if IsDigit(s[0]) then
      var v := (if cur < 0 then 0 else cur) * 10 + DigitValue(s[0]);
      if cur == 0 || v > 255 then None else PtonScan(s[1..], done, v)
    else if s[0] == '.' then
      if cur < 0 || |done| == 3 then None else PtonScan(s[1..], done + [cur], -1)
    else None
  }

  /** What a reader of a C string sees: the text before the first NUL. */
  function CString(s: string): string {
    if s == [] || s[0] == '\0' then [] else [s[0]] + CString(s[1..])
  }

  /** The platform's reader as it is called, on the text as a C string. */
  function Pton(s: string): Option<u32> {
    match PtonScan(CString(s), [], -1)
    case None => None
    case Some(o) =>
      if |o| == 4 && o[0] < 256 && o[1] < 256 && o[2] < 256 && o[3] < 256
      then Some(((o[0] * 256 + o[1]) * 256 + o[2]) * 256 + o[3])
      else None
  }

  lemma ScanDigit(d: nat, rest: string, done: seq<nat>, cur: int)
    requires d < 10 && cur != 0 && (if cur < 0 then 0 else cur) * 10 + d <= 255
    ensures PtonScan([DigitOf(d)] + rest, done, cur) == PtonScan(rest, done, (if cur < 0 then 0 else cur) * 10 + d)
  {
    assert ([DigitOf(d)] + rest)[1..] == rest;
  }

  /** A scan of the digits of an octet reads that octet. */
  lemma {:induction false} ScanOctet(n: nat, rest: string, done: seq<nat>)
    requires n < 256
    ensures PtonScan(Dec(n) + rest, done, -1) == PtonScan(rest, done, n)
  {
    hide PtonScan;
    var low := [DigitOf(n % 10)] + rest;
    if n < 10 {
      ScanDigit(n, rest, done, -1);
    } else if n < 100 {
      assert Dec(n) + rest == [DigitOf(n / 10)] + low;
      ScanDigit(n / 10, low, done, -1);
      ScanDigit(n % 10, rest, done, n / 10);
    } else {
      var mid := [DigitOf(n / 10 % 10)] + low;
      assert Dec(n / 10) == [DigitOf(n / 100), DigitOf(n / 10 % 10)];
      assert Dec(n) + rest == [DigitOf(n / 100)] + mid;
      ScanDigit(n / 100, mid, done, -1);
      ScanDigit(n / 10 % 10, low, done, n / 100);
      ScanDigit(n % 10, rest, done, n / 10);
    }
  }

  lemma ScanDot(rest: string, done: seq<nat>, cur: nat)
    requires |done| < 3
    ensures PtonScan("." + rest, done, cur) == PtonScan(rest, done + [cur], -1)
  {
    assert ("." + rest)[1..] == rest;
  }

  lemma {:induction false} CStringWhole(s: string)
    requires '\0' !in s
    ensures CString(s) == s
  {
    if s != [] { CStringWhole(s[1..]); }
  }

  /** Reading back a printed address gives that address. */
  lemma {:induction false} PtonDotted(a: u32)
    ensures CString(Dotted(a)) == Dotted(a) && Pton(Dotted(a)) == Some(a)
  {
    hide Dec, PtonScan;
    DottedPlain(a);
    CStringWhole(Dotted(a));
    var o0, o1, o2, o3 := Octet(a, 0), Octet(a, 1), Octet(a, 2), Octet(a, 3);
    var s3 := Dec(o3);
    var s2 := Dec(o2) + ("." + s3);
    var s1 := Dec(o1) + ("." + s2);
    var s0 := Dec(o0) + ("." + s1);
    assert Dotted(a) == s0;
    ScanOctet(o0, "." + s1, []);
    ScanDot(s1, [], o0);
    assert [] + [o0] == [o0];
    ScanOctet(o1, "." + s2, [o0]);
    ScanDot(s2, [o0], o1);
    assert [o0] + [o1] == [o0, o1];
    ScanOctet(o2, "." + s3, [o0, o1]);
    ScanDot(s3, [o0, o1], o2);
    assert [o0, o1] + [o2] == [o0, o1, o2];
    assert s3 == Dec(o3) + [];
    ScanOctet(o3, [], [o0, o1, o2]);
    assert PtonScan([], [o0, o1, o2], o3) == Some([o0, o1, o2] + [o3]) by { ScanEnd([o0, o1, o2], o3); }
    assert [o0, o1, o2] + [o3] == [o0, o1, o2, o3];
    assert PtonScan(s0, [], -1) == Some([o0, o1, o2, o3]);
    OctetsDetermine(a);
  }

  lemma ScanEnd(done: seq<nat>, cur: nat)
    requires |done| == 3
    ensures PtonScan([], done, cur) == Some(done + [cur])
  {
  }

  /** The rest of a printed address, from octet k on. */
  function Rest(o: seq<nat>, k: nat): string
    requires |o| == 4 && k < 4
    decreases 4 - k
  {
    Dec(o[k]) + if k == 3 then "" else "." + Rest(o, k + 1)
  }

  /** The part of the current octet that has been read. */
  function ReadPart(cur: int): string {
    if cur < 0 then "" else Dec(cur)
  }

  ghost predicate Octets(o: seq<nat>) {
    forall i :: 0 <= i < |o| ==> o[i] < 256
  }

  lemma ReadDigit(cur: int, c: char, rest: string)
    requires IsDigit(c) && cur != 0
    ensures ReadPart((if cur < 0 then 0 else cur) * 10 + DigitValue(c)) + rest == ReadPart(cur) + ([c] + rest)
  {
    var v := (if cur < 0 then 0 else cur) * 10 + DigitValue(c);
    assert DigitOf(DigitValue(c)) == c;
    assert ReadPart(v) == ReadPart(cur) + [c];
    Reassociate(ReadPart(cur), [c], rest);
  }

  lemma Reassociate(a: string, b: string, c: string)
    ensures (a + b) + c == a + (b + c)
  {
  }

  lemma ReadDot(o: seq<nat>, done: seq<nat>, cur: nat, rest: string)
    requires |o| == 4 && |done| < 3 && o[..|done| + 1] == done + [cur] && "" + rest == Rest(o, |done| + 1)
    ensures o[..|done|] == done && Dec(cur) + ("." + rest) == Rest(o, |done|)
  {
    hide Dec;
    assert o[..|done|] == o[..|done| + 1][..|done|] == done;
    assert o[|done|] == o[..|done| + 1][|done|] == cur;
    assert "" + rest == rest;
  }

  lemma ReadLast(done: seq<nat>, cur: nat)
    requires |done| == 3
    ensures (done + [cur])[..3] == done && Dec(cur) + [] == Rest(done + [cur], 3)
  {
    hide Dec;
  }

  lemma OctetNext(done: seq<nat>, cur: nat)
    requires Octets(done) && cur < 256
    ensures Octets(done + [cur])
  {
  }

  /** Whatever the scan accepts is the printed form of what it returns. */
  lemma {:induction false} ScanReads(s: string, done: seq<nat>, cur: int)
    requires |done| <= 3 && Octets(done) && cur < 256 && PtonScan(s, done, cur).Some?
    ensures var o := PtonScan(s, done, cur).value;
            |o| == 4 && Octets(o) && o[..|done|] == done && ReadPart(cur) + s == Rest(o, |done|)
    decreases |s|
  {
    hide Dec, Rest, Octets;
    var o := PtonScan(s, done, cur).value;
    if s == [] {
      OctetNext(done, cur);
      ReadLast(done, cur);
    } else {
      assert s == [s[0]] + s[1..];
      if IsDigit(s[0]) {
        hide ReadPart;
        ScanReads(s[1..], done, (if cur < 0 then 0 else cur) * 10 + DigitValue(s[0]));
        ReadDigit(cur, s[0], s[1..]);
      } else {
        OctetNext(done, cur);
        ScanReads(s[1..], done + [cur], -1);
        ReadDot(o, done, cur, s[1..]);
      }
    }
  }

  /** The octets of the number made of four bytes. */
  lemma OctetsOf(o: seq<nat>, a: u32)
    requires |o| == 4 && Octets(o) && a == ((o[0] * 256 + o[1]) * 256 + o[2]) * 256 + o[3]
    ensures Rest(o, 0) == Dotted(a)
  {
    hide Shr, Dec;
    var n := BytesOfNumber(o[0], o[1], o[2], o[3]);
    ShrZero(a);
    assert Octet(a, 0) == o[0] && Octet(a, 1) == o[1] && Octet(a, 2) == o[2] && Octet(a, 3) == o[3];
    RestFour(o);
  }

  lemma RestFour(o: seq<nat>)
    requires |o| == 4
    ensures Rest(o, 0) == Dec(o[0]) + "." + Dec(o[1]) + "." + Dec(o[2]) + "." + Dec(o[3])
  {
    hide Dec;
    var r3 := Dec(o[3]);
    assert Rest(o, 3) == r3;
    assert Rest(o, 2) == Dec(o[2]) + ("." + r3);
    assert Rest(o, 1) == Dec(o[1]) + ("." + (Dec(o[2]) + ("." + r3)));
    assert Rest(o, 0) == Dec(o[0]) + ("." + (Dec(o[1]) + ("." + (Dec(o[2]) + ("." + r3)))));
  }

  /** The reader accepts exactly printed addresses, up to text behind a NUL, and returns the
      address printed: nothing looser, such as leading zeros, spaces or missing octets. */
  lemma {:induction false} PtonIff(s: string, a: u32)
    ensures Pton(s) == Some(a) <==> CString(s) == Dotted(a)
  {
    hide Dotted, PtonScan, Octet;
    if CString(s) == Dotted(a) {
      PtonDotted(a);
    }
    if Pton(s) == Some(a) {
      ScanReads(CString(s), [], -1);
      var o := PtonScan(CString(s), [], -1).value;
      OctetsOf(o, a);
    }
  }

  // ---------------------------------------------------------------------
  // NSString readers.
  // ---------------------------------------------------------------------

  const INTEGER_MAX: int := 0x7FFF_FFFF_FFFF_FFFF

  /** Horizontal tab and the Unicode space separators. */
  predicate IsSpace(c: char) {
    || c == '\t' || c == ' ' || c == '\U{00A0}' || c == '\U{1680}'
    || '\U{2000}' <= c <= '\U{200A}'
    || c == '\U{202F}' || c == '\U{205F}' || c == '\U{3000}'
  }

  /** `newlineCharacterSet`: U+000A to U+000D, U+0085, U+2028 and U+2029. */
  predicate IsNewline(c: char) {
    '\n' <= c <= '\r' || c == '\U{0085}' || c == '\U{2028}' || c == '\U{2029}'
  }

  function LeadingDigits(s: string, acc: nat): nat {
    if s != [] && IsDigit(s[0]) then LeadingDigits(s[1..], acc * 10 + DigitValue(s[0])) else acc
  }

  function TrimLeft(s: string): string {
    if s != [] && IsSpace(s[0]) then TrimLeft(s[1..]) else s
  }

  function TrimRight(s: string): string {
    if s != [] && IsSpace(s[|s| - 1]) then TrimRight(s[..|s| - 1]) else s
  }

  function Trim(s: string): string {
    TrimRight(TrimLeft(s))
  }

  /** `integerValue`: optional white space and sign, then digits up to the first non-digit,
      clamped to 64 bits; 0 without digits. */
  function IntegerValue(s: string): int {
    var t := TrimLeft(s);
    if t != [] && t[0] == '-' then -Min(LeadingDigits(t[1..], 0), INTEGER_MAX + 1)
    else if t != [] && t[0] == '+' then Min(LeadingDigits(t[1..], 0), INTEGER_MAX)
    else Min(LeadingDigits(t, 0), INTEGER_MAX)
  }

  /** Index of the first `c`. */
  function IndexOf(s: string, c: char): (r: Option<nat>)
    ensures r.Some? ==> r.value < |s| && s[r.value] == c
    ensures r.Some? ==> forall i :: 0 <= i < r.value ==> s[i] != c
    ensures r.None? ==> forall i :: 0 <= i < |s| ==> s[i] != c
  {
    if s == [] then None
    else if s[0] == c then Some(0)
    else match IndexOf(s[1..], c)
         case None => None
         case Some(i) => Some(i + 1)
  }

  /** `componentsSeparatedByCharactersInSet:` with the newline set. */
  function Lines(t: string): (ls: seq<string>)
    ensures |ls| >= 1
  {
    if t == [] then [[]]
    else if IsNewline(t[0]) then [[]] + Lines(t[1..])
    else
      var rest := Lines(t[1..]);
      [[t[0]] + rest[0]] + rest[1..]
  }

  ghost predicate OneLine(s: string) {
    forall i :: 0 <= i < |s| ==> !IsNewline(s[i])
  }

  lemma {:induction false} LinesOfOne(line: string)
    requires OneLine(line)
    ensures Lines(line) == [line]
  {
    if line != [] {
      LinesOfOne(line[1..]);
      assert line == [line[0]] + line[1..];
    }
  }

  lemma LinesOne(c: char, rest: string)
    ensures var ls := Lines(rest);
            Lines([c] + rest) == if IsNewline(c) then [[]] + ls else [[c] + ls[0]] + ls[1..]
    ensures Lines([]) == [[]]
  {
    assert ([c] + rest)[1..] == rest;
  }

  lemma FirstOf(ls: seq<string>, ms: seq<string>)
    requires ls != []
    ensures (ls + ms)[0] == ls[0] && (ls + ms)[1..] == ls[1..] + ms
  {
  }

  lemma PeelOne(a: string, b: string)
    requires a != []
    ensures a == [a[0]] + a[1..] && a + b == [a[0]] + (a[1..] + b)
  {
  }

  /** A newline of any kind separates what comes before it from what comes after. */
  lemma {:induction false} LinesApart(a: string, newline: char, b: string)
    requires IsNewline(newline)
    ensures Lines(a + ([newline] + b)) == Lines(a) + Lines(b)
  {
    hide Lines, IsNewline;
    if a == [] {
      assert a + ([newline] + b) == [newline] + b;
      LinesOne(newline, b);
    } else {
      LinesApart(a[1..], newline, b);
      PeelOne(a, [newline] + b);
      LinesOne(a[0], a[1..]);
      LinesOne(a[0], a[1..] + ([newline] + b));
      FirstOf(Lines(a[1..]), Lines(b));
    }
  }

  lemma LinesCons(line: string, rest: string)
    requires OneLine(line)
    ensures Lines(line + "\n" + rest) == [line] + Lines(rest)
    ensures Lines(line) == [line]
  {
    hide Lines;
    LinesOfOne(line);
    LinesApart(line, '\n', rest);
    assert line + "\n" + rest == line + (['\n'] + rest);
  }

  /** No digit is a space or a newline, nor are the dot and the slash. */
  predicate Plain(s: string) {
    forall i :: 0 <= i < |s| ==> IsDigit(s[i]) || s[i] == '.' || s[i] == '/'
  }

  lemma {:induction false} PlainUntouched(s: string)
    requires Plain(s)
    ensures OneLine(s) && Trim(s) == s && TrimLeft(s) == s
  {
  }

  lemma DottedPlain(a: u32)
    ensures Plain(Dotted(a)) && |Dotted(a)| >= 7
    ensures forall i :: 0 <= i < |Dotted(a)| ==> Dotted(a)[i] != '/'
    ensures IsDigit(Dotted(a)[0])
  {
    hide Octet;
  }

  /** Numbers below 100 read back. */
  lemma {:induction false} IntegerValueDec(n: nat)
    requires n < 100
    ensures IntegerValue(Dec(n)) == n
  {
    var s := Dec(n);
    if n < 10 {
      assert s[1..] == [];
    } else {
      var high := n / 10;
      assert high < 10 && Dec(high) == [DigitOf(high)];
      assert s == [DigitOf(high), DigitOf(n % 10)];
      assert s[1..] == [DigitOf(n % 10)];
      assert s[1..][1..] == [];
      assert LeadingDigits(s[1..], high) == LeadingDigits([], n);
      assert TrimLeft(s) == s;
    }
  }

  // ---------------------------------------------------------------------
  // What the readers and the printer mean.
  // ---------------------------------------------------------------------

  predicate Digits(s: string) {
    forall i :: 0 <= i < |s| ==> IsDigit(s[i])
  }

  predicate Spaces(s: string) {
    forall i :: 0 <= i < |s| ==> IsSpace(s[i])
  }

  /** Base ten, the most significant digit first. */
  function DecimalValue(s: string): nat
    requires Digits(s)
  {
    if s == [] then 0 else DecimalValue(s[..|s| - 1]) * 10 + (s[|s| - 1] as int - 48)
  }

  /** The printed number has that value and no leading zero. */
  lemma {:induction false} DecSpells(n: nat)
    ensures DecimalValue(Dec(n)) == n
    ensures |Dec(n)| > 1 ==> Dec(n)[0] != '0'
  {
    if n >= 10 {
      DecSpells(n / 10);
      assert Dec(n)[..|Dec(n)| - 1] == Dec(n / 10);
    }
  }

  lemma {:induction false} LeadingConcat(a: string, b: string, acc: nat)
    requires Digits(a)
    ensures LeadingDigits(a + b, acc) == LeadingDigits(b, LeadingDigits(a, acc))
    decreases |a|
  {
    if a == [] {
      assert a + b == b;
    } else {
      assert (a + b)[1..] == a[1..] + b;
      LeadingConcat(a[1..], b, acc * 10 + DigitValue(a[0]));
    }
  }

  lemma {:induction false} LeadingValue(digits: string, rest: string)
    requires Digits(digits) && (rest == [] || !IsDigit(rest[0]))
    ensures LeadingDigits(digits + rest, 0) == DecimalValue(digits)
    decreases |digits|
  {
    LeadingConcat(digits, rest, 0);
    if digits != [] {
      var high, low := digits[..|digits| - 1], digits[|digits| - 1..];
      assert high + low == digits && low[1..] == [];
      LeadingConcat(high, low, 0);
      LeadingValue(high, []);
      assert high + [] == high;
      assert LeadingDigits(low, DecimalValue(high)) == LeadingDigits([], DecimalValue(digits));
    }
  }

  lemma {:induction false} TrimLeftSpaces(space: string, s: string)
    requires Spaces(space) && (s == [] || !IsSpace(s[0]))
    ensures TrimLeft(space + s) == s
    decreases |space|
  {
    if space == [] {
      assert space + s == s;
    } else {
      assert (space + s)[1..] == space[1..] + s;
      TrimLeftSpaces(space[1..], s);
    }
  }

  /** The number a text stands for: white space is skipped, one sign obeyed, digits read up to the
      first other character, the value clamped to 64 bits. Without digits it is 0. */
  lemma {:induction false} IntegerValueMeans(space: string, digits: string, rest: string)
    requires Spaces(space) && Digits(digits) && (rest == [] || !IsDigit(rest[0]))
    ensures IntegerValue(space + ("+" + (digits + rest))) == Min(DecimalValue(digits), 0x7FFF_FFFF_FFFF_FFFF)
    ensures IntegerValue(space + ("-" + (digits + rest))) == -Min(DecimalValue(digits), 0x8000_0000_0000_0000)
    ensures digits != [] ==> IntegerValue(space + (digits + rest)) == Min(DecimalValue(digits), 0x7FFF_FFFF_FFFF_FFFF)
    ensures rest == [] || (!IsSpace(rest[0]) && rest[0] != '+' && rest[0] != '-') ==> IntegerValue(space + rest) == 0
  {
    hide TrimLeft, LeadingDigits, DecimalValue;
    LeadingValue(digits, rest);
    LeadingValue([], rest);
    NoDigits(rest);
    TrimLeftSpaces(space, "+" + (digits + rest));
    TrimLeftSpaces(space, "-" + (digits + rest));
    assert ("+" + (digits + rest))[1..] == digits + rest && ("-" + (digits + rest))[1..] == digits + rest;
    if digits != [] {
      TrimLeftSpaces(space, digits + rest);
      assert (digits + rest)[0] == digits[0];
    }
    if rest == [] || !IsSpace(rest[0]) {
      TrimLeftSpaces(space, rest);
    }
  }

  lemma NoDigits(rest: string)
    requires rest == [] || !IsDigit(rest[0])
    ensures LeadingDigits(rest, 0) == 0
  {
  }

  lemma {:induction false} TrimLeftCuts(s: string)
    ensures var t := TrimLeft(s);
            |t| <= |s| && s[|s| - |t|..] == t && Spaces(s[..|s| - |t|]) && (t == [] || !IsSpace(t[0]))
  {
    if s != [] && IsSpace(s[0]) {
      TrimLeftCuts(s[1..]);
      var k := |s| - |TrimLeft(s)|;
      assert s[k..] == s[1..][k - 1..] && s[..k] == [s[0]] + s[1..][..k - 1];
    }
  }

  lemma {:induction false} TrimRightCuts(s: string)
    ensures var t := TrimRight(s);
            |t| <= |s| && s[..|t|] == t && Spaces(s[|t|..]) && (t == [] || !IsSpace(t[|t| - 1]))
  {
    if s != [] && IsSpace(s[|s| - 1]) {
      TrimRightCuts(s[..|s| - 1]);
      var t := TrimRight(s);
      assert s[|t|..] == s[..|s| - 1][|t|..] + [s[|s| - 1]];
    }
  }

  /** Trimming takes the white space at both ends and nothing else. */
  lemma {:induction false} TrimMeans(s: string) returns (before: string, after: string)
    ensures s == before + Trim(s) + after && Spaces(before) && Spaces(after)
    ensures Trim(s) == [] || (!IsSpace(Trim(s)[0]) && !IsSpace(Trim(s)[|Trim(s)| - 1]))
  {
    hide TrimLeft, TrimRight, IsSpace;
    var t := TrimLeft(s);
    TrimLeftCuts(s);
    TrimRightCuts(t);
    before, after := s[..|s| - |t|], t[|TrimRight(t)|..];
    assert s == before + t && t == TrimRight(t) + after;
    if TrimRight(t) != [] { assert TrimRight(t)[0] == t[0]; }
  }
}
