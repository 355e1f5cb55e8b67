/** Reading the server name out of a TLS ClientHello (section 4.1.2 of RFC 8446, section 3 of
    RFC 6066), the cursor walk and the messages it inverts. */
module TlsSni {
  import opened Bits
  import opened Common

  function U16At(s: seq<byte>, p: nat): u16
    requires p + 1 < |s|
  {
    Word(s[p], s[p + 1])
  }

  /** `rec.get(from..to)`. */
  function Get(s: seq<byte>, from: nat, to: nat): Option<seq<byte>>
  {
    if from <= to <= |s| then Some(s[from..to]) else None
  }

  // ---------------------------------------------------------------------
  // The walk.
  // ---------------------------------------------------------------------

  /** The name in the body of a server-name extension. */
  function NameOf(body: seq<byte>): Option<seq<byte>> {
    if |body| < 5 || body[2] != 0 then None
    else Get(body, 5, 5 + U16At(body, 3))
  }

  /** The extension loop from cursor `p`: the first extension of type 0 decides. */
  function WalkExtensions(rec: seq<byte>, p: nat, end: nat): Option<seq<byte>>
    requires end <= |rec|
    decreases |rec| - p
  {
    if p + 4 > end then None
    else
      var etype, elen := U16At(rec, p), U16At(rec, p + 2);
      match Get(rec, p + 4, p + 4 + elen)
      case None => None
      case Some(body) => if etype == 0 then NameOf(body) else WalkExtensions(rec, p + 4 + elen, end)
  }

  /** Cursor after a one-byte length and its bytes. */
  function Skip8(rec: seq<byte>, p: nat): Option<nat> {
    if p < |rec| then Some(p + 1 + rec[p]) else None
  }

  /** Cursor after a two-byte length and its bytes. */
  function Skip16(rec: seq<byte>, p: nat): Option<nat> {
    if p + 1 < |rec| then Some(p + 2 + U16At(rec, p)) else None
  }

  /** Everything after the five-byte record header; 38 bytes of type, length, version and random
      come before the session id. */
  function HandshakeSni(rec: seq<byte>): Option<seq<byte>> {
    if rec == [] || rec[0] != 1 then None
    else match Skip8(rec, 38)
      case None => None
      case Some(cs) =>
        match Skip16(rec, cs)
        case None => None
        case Some(cm) =>
          match Skip8(rec, cm)
          case None => None
          case Some(ext) =>
            if ext + 1 >= |rec| then None
            else WalkExtensions(rec, ext + 2, Min(ext + 2 + U16At(rec, ext), |rec|))
  }

  /** `tls_sni` up to the UTF-8 check of the name. */
  function SniBytes(b: seq<byte>): Option<seq<byte>> {
    if b == [] || b[0] != 0x16 || |b| < 5 then None else HandshakeSni(b[5..])
  }

  function TextOnly(name: Option<seq<byte>>, utf8: seq<byte> -> bool): Option<seq<byte>> {
    if name.Some? && utf8(name.value) then name else None
  }

  /** `tls_sni`: one cursor moved through the record, every access checked. `utf8` decides
      whether a name is text. */
  method ReadSni(b: seq<byte>, utf8: seq<byte> -> bool) returns (r: Option<seq<byte>>)
    ensures r == TextOnly(SniBytes(b), utf8)
  {
    hide WalkExtensions;
    if |b| == 0 || b[0] != 0x16 || |b| < 5 {
      return None;
    }
    var rec := b[5..];
    if |rec| == 0 || rec[0] != 1 {
      return None;
    }
    var p: nat := 4;
    p := p + 2;
    p := p + 32;
    if p >= |rec| { return None; }
    p := p + 1 + rec[p];
    if p + 1 >= |rec| { return None; }
    p := p + 2 + U16At(rec, p);
    if p >= |rec| { return None; }
    p := p + 1 + rec[p];
    if p + 1 >= |rec| { return None; }
    var extTotal := U16At(rec, p);
    p := p + 2;
    r := ReadExtensions(rec, p, Min(p + extTotal, |rec|), utf8);
  }

  /** The while loop of `tls_sni`. */
  method ReadExtensions(rec: seq<byte>, start: nat, extEnd: nat, utf8: seq<byte> -> bool)
    returns (r: Option<seq<byte>>)
    requires extEnd <= |rec|
    ensures r == TextOnly(WalkExtensions(rec, start, extEnd), utf8)
  {
    var p := start;
    while p + 4 <= extEnd
      invariant WalkExtensions(rec, start, extEnd) == WalkExtensions(rec, p, extEnd)
      decreases |rec| - p
    {
      var etype := U16At(rec, p);
      var elen: nat := U16At(rec, p + 2);
      var body := Get(rec, p + 4, p + 4 + elen);
      if body.None? { return None; }
      if etype == 0 {
        if |body.value| < 5 || body.value[2] != 0 { return None; }
        var nameLen: nat := U16At(body.value, 3);
        var name := Get(body.value, 5, 5 + nameLen);
        if name.None? || !utf8(name.value) { return None; }
        return name;
      }
      p := p + 4 + elen;
    }
    r := None;
  }

  // ---------------------------------------------------------------------
  // The messages.
  // ---------------------------------------------------------------------

  datatype Extension = Extension(etype: u16, body: seq<byte>)

  /** The fields of a ClientHello; `lead` is the three-byte length, the version and the random. */
  datatype Hello = Hello(lead: seq<byte>, session: seq<byte>, suites: seq<byte>, compression: seq<byte>,
                         extensions: seq<Extension>)

  predicate PartsFit(h: Hello) {
    |h.lead| == 37 && |h.session| < 0x100 && |h.suites| < 0x1_0000 && |h.compression| < 0x100
  }

  ghost predicate FitsWire(h: Hello) {
    && PartsFit(h) && BodiesFit(h.extensions)
    && |ExtensionBytes(h.extensions)| < 0x1_0000
  }

  ghost predicate BodiesFit(es: seq<Extension>) {
    forall i :: 0 <= i < |es| ==> |es[i].body| < 0x1_0000
  }

  function LengthByte(n: nat): byte {
    if n < 0x100 then n else 0
  }

  function Be16OrZero(n: nat): (s: seq<byte>)
    ensures |s| == 2 && (n < 0x1_0000 ==> U16At(s, 0) == n)
  {
    if n < 0x1_0000 then Be16(n) else [0, 0]
  }

  function OneExtension(e: Extension): seq<byte> {
    Be16(e.etype) + Be16OrZero(|e.body|) + e.body
  }

  function ExtensionBytes(es: seq<Extension>): seq<byte> {
    if es == [] then [] else OneExtension(es[0]) + ExtensionBytes(es[1..])
  }

  function SessionPart(h: Hello): seq<byte> {
    [1] + h.lead + [LengthByte(|h.session|)] + h.session
  }

  function SuitesPart(h: Hello): seq<byte> {
    Be16OrZero(|h.suites|) + h.suites
  }

  function CompressionPart(h: Hello): seq<byte> {
    [LengthByte(|h.compression|)] + h.compression
  }

  /** Everything before the extension bytes, which are said to be `total`. */
  function Opening(h: Hello, total: nat): seq<byte> {
    SessionPart(h) + SuitesPart(h) + CompressionPart(h) + Be16OrZero(total)
  }

  function Prelude(h: Hello): seq<byte> {
    Opening(h, |ExtensionBytes(h.extensions)|)
  }

  function HandshakeBytes(h: Hello): seq<byte> {
    Prelude(h) + ExtensionBytes(h.extensions)
  }

  /** A handshake record: type, version and length in front. */
  function RecordBytes(version: seq<byte>, length: seq<byte>, h: Hello): seq<byte> {
    [0x16] + version + length + HandshakeBytes(h)
  }

  /** What the walk yields when `avail` bytes of the extensions are there. */
  function Expected(es: seq<Extension>, avail: nat): Option<seq<byte>> {
    if es == [] then None
    else if avail < 4 + |es[0].body| then None
    else if es[0].etype == 0 then NameOf(es[0].body)
    else Expected(es[1..], avail - 4 - |es[0].body|)
  }

  lemma OneExtensionLength(e: Extension)
    ensures |OneExtension(e)| == 4 + |e.body|
  {
  }

  /** The fields of an extension that starts at `p`. */
  lemma ExtensionAt(rec: seq<byte>, p: nat, e: Extension, rest: seq<byte>)
    requires p <= |rec| && rec[p..] == OneExtension(e) + rest && |e.body| < 0x1_0000
    ensures p + 4 + |e.body| <= |rec|
    ensures U16At(rec, p) == e.etype && U16At(rec, p + 2) == |e.body|
    ensures rec[p + 4..p + 4 + |e.body|] == e.body
    ensures rec[p + 4 + |e.body|..] == rest
  {
    hide U16At;
    var t := OneExtension(e) + rest;
    assert rec == rec[..p] + t;
    U16OfBe16(e.etype);
    SameU16(rec, p, Be16(e.etype));
    SameU16(rec, p + 2, Be16OrZero(|e.body|));
  }

  lemma U16OfBe16(x: u16)
    ensures U16At(Be16(x), 0) == x
  {
  }

  lemma SameU16(rec: seq<byte>, p: nat, two: seq<byte>)
    requires p + 1 < |rec| && |two| == 2 && rec[p] == two[0] && rec[p + 1] == two[1]
    ensures U16At(rec, p) == U16At(two, 0)
  {
  }

  /** On the first m bytes of a record whose tail is the extensions, the walk yields what the
      extensions that are there promise. */
  lemma {:induction false} WalkPrefix(rec: seq<byte>, p: nat, es: seq<Extension>, m: nat)
    requires p <= m <= |rec| && rec[p..] == ExtensionBytes(es) && BodiesFit(es)
    ensures WalkExtensions(rec[..m], p, m) == Expected(es, m - p)
    decreases |es|
  {
    hide NameOf, OneExtension;
    if es != [] {
      var e := es[0];
      ExtensionAt(rec, p, e, ExtensionBytes(es[1..]));
      WalkOne(rec, p, e, m);
      if m >= p + 4 + |e.body| && e.etype != 0 {
        WalkPrefix(rec, p + 4 + |e.body|, es[1..], m);
      }
    }
  }

  /** One turn of the walk on a prefix. */
  lemma WalkOne(rec: seq<byte>, p: nat, e: Extension, m: nat)
    requires p <= m <= |rec| && p + 4 + |e.body| <= |rec|
    requires U16At(rec, p) == e.etype && U16At(rec, p + 2) == |e.body|
    requires rec[p + 4..p + 4 + |e.body|] == e.body
    ensures WalkExtensions(rec[..m], p, m)
            == if m < p + 4 + |e.body| then None
               else if e.etype == 0 then NameOf(e.body)
               else WalkExtensions(rec[..m], p + 4 + |e.body|, m)
  {
    hide NameOf, U16At;
    var cut := rec[..m];
    if p + 4 <= m {
      SameU16(cut, p, rec[p..p + 2]);
      SameU16(rec, p, rec[p..p + 2]);
      SameU16(cut, p + 2, rec[p + 2..p + 4]);
      SameU16(rec, p + 2, rec[p + 2..p + 4]);
      if p + 4 + |e.body| <= m {
        assert cut[p + 4..p + 4 + |e.body|] == e.body;
      }
    }
  }

  // ---------------------------------------------------------------------
  // The fields before the extensions.
  // ---------------------------------------------------------------------

  /** Reading each length field of a handshake. */
  lemma OpeningFields(h: Hello, total: nat, e: seq<byte>)
    requires PartsFit(h) && total < 0x1_0000
    ensures var rec := Opening(h, total) + e;
            var cs := 39 + |h.session|;
            var cm := cs + 2 + |h.suites|;
            var ext := cm + 1 + |h.compression|;
            && |Opening(h, total)| == ext + 2
            && rec[0] == 1 && rec[38] == |h.session|
            && U16At(rec, cs) == |h.suites|
            && rec[cm] == |h.compression|
            && U16At(rec, ext) == total
            && rec[ext + 2..] == e
  {
    hide U16At, SuitesPart, CompressionPart, SessionPart;
    SessionFields(h);
    SuitesFields(h);
    CompressionFields(h);
    var rec := Opening(h, total) + e;
    var s, c, m := SessionPart(h), SuitesPart(h), CompressionPart(h);
    var t := Be16OrZero(total);
    var cs, cm, ext := |s|, |s| + |c|, |s| + |c| + |m|;
    FourParts(s, c, m, t, e);
    SameU16(rec, cs, c[..2]);
    SameU16(c, 0, c[..2]);
    SameU16(rec, ext, t);
  }

  /** The same of a complete handshake. */
  lemma PreludeFields(h: Hello)
    requires FitsWire(h)
    ensures var rec := HandshakeBytes(h);
            var cs := 39 + |h.session|;
            var cm := cs + 2 + |h.suites|;
            var ext := cm + 1 + |h.compression|;
            && |Prelude(h)| == ext + 2 <= |rec|
            && rec[0] == 1 && rec[38] == |h.session|
            && U16At(rec, cs) == |h.suites|
            && rec[cm] == |h.compression|
            && U16At(rec, ext) == |ExtensionBytes(h.extensions)|
            && rec[ext + 2..] == ExtensionBytes(h.extensions)
  {
    hide ExtensionBytes, U16At, Opening;
    OpeningFields(h, |ExtensionBytes(h.extensions)|, ExtensionBytes(h.extensions));
  }

  lemma FourParts(s: seq<byte>, c: seq<byte>, m: seq<byte>, t: seq<byte>, e: seq<byte>)
    ensures var r := s + c + m + t + e;
            && (forall i :: 0 <= i < |s| ==> r[i] == s[i])
            && (forall i :: 0 <= i < |c| ==> r[|s| + i] == c[i])
            && (forall i :: 0 <= i < |m| ==> r[|s| + |c| + i] == m[i])
            && (forall i :: 0 <= i < |t| ==> r[|s| + |c| + |m| + i] == t[i])
            && r[|s| + |c| + |m| + |t|..] == e
  {
  }

  lemma SessionFields(h: Hello)
    requires PartsFit(h)
    ensures |SessionPart(h)| == 39 + |h.session|
    ensures SessionPart(h)[0] == 1 && SessionPart(h)[38] == |h.session|
  {
    hide ExtensionBytes;
  }

  lemma SuitesFields(h: Hello)
    requires PartsFit(h)
    ensures |SuitesPart(h)| == 2 + |h.suites| && U16At(SuitesPart(h), 0) == |h.suites|
  {
    hide ExtensionBytes, U16At;
    SameU16(SuitesPart(h), 0, Be16OrZero(|h.suites|));
  }

  lemma CompressionFields(h: Hello)
    requires PartsFit(h)
    ensures |CompressionPart(h)| == 1 + |h.compression| && CompressionPart(h)[0] == |h.compression|
  {
    hide ExtensionBytes;
  }

  /** On the first m bytes of a handshake: nothing without the whole prelude, else the walk. */
  lemma {:induction false} HandshakePrefix(h: Hello, m: nat)
    requires FitsWire(h) && m <= |HandshakeBytes(h)|
    ensures HandshakeSni(HandshakeBytes(h)[..m])
            == if m < |Prelude(h)| then None else Expected(h.extensions, m - |Prelude(h)|)
  {
    hide WalkExtensions, U16At, HandshakeBytes, Prelude, ExtensionBytes, Expected;
    PreludeFields(h);
    var rec := HandshakeBytes(h);
    var cut := rec[..m];
    var cs := 39 + |h.session|;
    var cm := cs + 2 + |h.suites|;
    var ext := cm + 1 + |h.compression|;
    if m > cs + 1 { CutU16(rec, cs, m); }
    if m > ext + 1 { CutU16(rec, ext, m); }
    if m >= ext + 2 {
      WalkPrefix(rec, ext + 2, h.extensions, m);
    }
  }

  lemma CutU16(rec: seq<byte>, p: nat, m: nat)
    requires p + 1 < m <= |rec|
    ensures U16At(rec[..m], p) == U16At(rec, p)
  {
  }

  ghost predicate NoServerName(es: seq<Extension>) {
    forall i :: 0 <= i < |es| ==> es[i].etype != 0
  }

  /** A server-name body whose first entry is a host name; list length and later entries free. */
  function HostNameBody(listLength: seq<byte>, name: seq<byte>, more: seq<byte>): seq<byte> {
    listLength + [0] + Be16OrZero(|name|) + name + more
  }

  lemma NameOfHost(listLength: seq<byte>, name: seq<byte>, more: seq<byte>)
    requires |listLength| == 2 && |name| < 0x1_0000
    ensures NameOf(HostNameBody(listLength, name, more)) == Some(name)
  {
    hide U16At;
    var body := HostNameBody(listLength, name, more);
    SameU16(body, 3, Be16OrZero(|name|));
    assert body[5..5 + |name|] == name;
  }

  lemma {:induction false} ExpectedAfter(before: seq<Extension>, sni: Extension, after: seq<Extension>, avail: nat)
    requires NoServerName(before) && sni.etype == 0
    ensures Expected(before + [sni] + after, avail)
            == if avail < |ExtensionBytes(before)| + 4 + |sni.body| then None else NameOf(sni.body)
    decreases |before|
  {
    hide NameOf, OneExtension;
    var es := before + [sni] + after;
    if before == [] {
      assert es[0] == sni;
    } else {
      OneExtensionLength(before[0]);
      assert es[1..] == before[1..] + [sni] + after;
      if avail >= 4 + |before[0].body| {
        ExpectedAfter(before[1..], sni, after, avail - 4 - |before[0].body|);
      }
    }
  }

  lemma {:induction false} ExpectedNone(es: seq<Extension>, avail: nat)
    requires NoServerName(es)
    ensures Expected(es, avail) == None
  {
    if es != [] && avail >= 4 + |es[0].body| {
      ExpectedNone(es[1..], avail - 4 - |es[0].body|);
    }
  }

  lemma RecordPrefix(version: seq<byte>, length: seq<byte>, h: Hello, n: nat)
    requires |version| == 2 && |length| == 2 && n <= |RecordBytes(version, length, h)|
    ensures |RecordBytes(version, length, h)| == 5 + |HandshakeBytes(h)|
    ensures SniBytes(RecordBytes(version, length, h)[..n])
            == if n < 5 then None else HandshakeSni(HandshakeBytes(h)[..n - 5])
  {
    hide HandshakeSni, HandshakeBytes;
    var b := RecordBytes(version, length, h);
    if n >= 5 {
      assert b[..n][5..] == HandshakeBytes(h)[..n - 5];
    }
  }

  /** The walk inverts serialization: for any record holding a ClientHello whose first
      server-name extension begins with a host name, every prefix of the record that reaches the
      end of that extension yields the name and every shorter prefix yields nothing. */
  lemma {:induction false} SniInverts(
      version: seq<byte>, length: seq<byte>, h: Hello,
      before: seq<Extension>, listLength: seq<byte>, name: seq<byte>, more: seq<byte>, after: seq<Extension>, n: nat)
    requires |version| == 2 && |length| == 2 && FitsWire(h) && NoServerName(before)
    requires |listLength| == 2 && |name| < 0x1_0000
    requires h.extensions == before + [Extension(0, HostNameBody(listLength, name, more))] + after
    requires n <= |RecordBytes(version, length, h)|
    ensures SniBytes(RecordBytes(version, length, h)[..n])
            == if n < 5 + |Prelude(h)| + |ExtensionBytes(before)| + 4 + |HostNameBody(listLength, name, more)|
               then None else Some(name)
  {
    hide SniBytes, HandshakeSni, HandshakeBytes, Prelude, ExtensionBytes, Expected, NameOf, HostNameBody, RecordBytes;
    RecordPrefix(version, length, h, n);
    if n >= 5 {
      HandshakePrefix(h, n - 5);
      if n >= 5 + |Prelude(h)| {
        ExpectedAfter(before, Extension(0, HostNameBody(listLength, name, more)), after, n - 5 - |Prelude(h)|);
        NameOfHost(listLength, name, more);
      }
    }
  }

  /** Without a server-name extension no prefix yields anything. */
  lemma {:induction false} NoSniNoName(version: seq<byte>, length: seq<byte>, h: Hello, n: nat)
    requires |version| == 2 && |length| == 2 && FitsWire(h) && NoServerName(h.extensions)
    requires n <= |RecordBytes(version, length, h)|
    ensures SniBytes(RecordBytes(version, length, h)[..n]) == None
  {
    hide SniBytes, HandshakeSni, HandshakeBytes, Prelude, ExtensionBytes, Expected, RecordBytes;
    RecordPrefix(version, length, h, n);
    if n >= 5 {
      HandshakePrefix(h, n - 5);
      if n >= 5 + |Prelude(h)| {
        ExpectedNone(h.extensions, n - 5 - |Prelude(h)|);
      }
    }
  }

  // ---------------------------------------------------------------------
  // All inputs: which bytes yield a name.
  // ---------------------------------------------------------------------

  /** The server-name extension at which the walk stops. */
  function NamePart(body: seq<byte>): seq<byte> {
    [0, 0] + Be16OrZero(|body|) + body
  }

  lemma NamePartIs(body: seq<byte>)
    ensures NamePart(body) == OneExtension(Extension(0, body)) && |NamePart(body)| == 4 + |body|
  {
    ZeroType();
    hide Be16, Word, High, Low, U16At, Be16OrZero;
  }

  lemma ZeroType()
    ensures Be16(0) == [0, 0]
  {
    hide Word;
  }

  ghost predicate SniFits(listLength: seq<byte>, name: seq<byte>, more: seq<byte>) {
    |listLength| == 2 && |HostNameBody(listLength, name, more)| < 0x1_0000
  }

  lemma WalkTurn(rec: seq<byte>, p: nat, end: nat, e: Extension, rest: seq<byte>)
    requires p <= |rec| && rec[p..] == OneExtension(e) + rest && |e.body| < 0x1_0000 && p + 4 <= end <= |rec|
    ensures p + 4 + |e.body| <= |rec| && rec[p + 4 + |e.body|..] == rest
    ensures WalkExtensions(rec, p, end)
            == if e.etype == 0 then NameOf(e.body) else WalkExtensions(rec, p + 4 + |e.body|, end)
  {
    hide NameOf, OneExtension, U16At;
    ExtensionAt(rec, p, e, rest);
  }

  /** Extensions, a server-name extension behind them, and other bytes. */
  function Laid(before: seq<Extension>, body: seq<byte>, tail: seq<byte>): seq<byte> {
    ExtensionBytes(before) + NamePart(body) + tail
  }

  lemma LaidOut(before: seq<Extension>, body: seq<byte>, tail: seq<byte>)
    ensures Laid(before, body, tail)
         == if before == [] then NamePart(body) + tail else OneExtension(before[0]) + Laid(before[1..], body, tail)
    ensures |ExtensionBytes(before)|
         == if before == [] then 0 else 4 + |before[0].body| + |ExtensionBytes(before[1..])|
  {
    hide OneExtension, NamePart;
    if before != [] { OneExtensionLength(before[0]); }
  }

  predicate StandsAt(rec: seq<byte>, p: nat, rest: seq<byte>) {
    p <= |rec| && rec[p..] == rest
  }

  lemma RestFits(before: seq<Extension>)
    requires NoServerName(before) && BodiesFit(before) && before != []
    ensures NoServerName(before[1..]) && BodiesFit(before[1..])
    ensures before[0].etype != 0 && |before[0].body| < 0x1_0000
  {
  }

  lemma {:induction false} WalkReads(
      rec: seq<byte>, p: nat, end: nat, before: seq<Extension>, body: seq<byte>, tail: seq<byte>)
    requires end <= |rec| && StandsAt(rec, p, Laid(before, body, tail))
    requires NoServerName(before) && BodiesFit(before) && |body| < 0x1_0000
    requires p + |ExtensionBytes(before)| + 4 <= end
    ensures WalkExtensions(rec, p, end) == NameOf(body)
    decreases |before|
  {
    hide NameOf, OneExtension, WalkExtensions, ExtensionBytes, NoServerName, BodiesFit, Laid, NamePart;
    LaidOut(before, body, tail);
    if before == [] {
      NamePartIs(body);
      WalkTurn(rec, p, end, Extension(0, body), tail);
    } else {
      RestFits(before);
      WalkTurn(rec, p, end, before[0], Laid(before[1..], body, tail));
      WalkReads(rec, p + 4 + |before[0].body|, end, before[1..], body, tail);
    }
  }

  lemma BytesOfU16(rec: seq<byte>, p: nat)
    requires p + 1 < |rec|
    ensures Be16OrZero(U16At(rec, p)) == rec[p..p + 2] && Be16(U16At(rec, p)) == rec[p..p + 2]
  {
  }

  /** The extension in the bytes at `p`. */
  lemma ExtensionFound(rec: seq<byte>, p: nat) returns (e: Extension)
    requires p + 4 <= |rec| && p + 4 + U16At(rec, p + 2) <= |rec|
    ensures e.etype == U16At(rec, p) && e.body == rec[p + 4..p + 4 + U16At(rec, p + 2)] && |e.body| < 0x1_0000
    ensures rec[p..] == OneExtension(e) + rec[p + 4 + |e.body|..]
  {
    hide U16At;
    BytesOfU16(rec, p);
    BytesOfU16(rec, p + 2);
    e := Extension(U16At(rec, p), rec[p + 4..p + 4 + U16At(rec, p + 2)]);
  }

  lemma HostFound(body: seq<byte>, name: seq<byte>) returns (listLength: seq<byte>, more: seq<byte>)
    requires NameOf(body) == Some(name)
    ensures |listLength| == 2 && body == HostNameBody(listLength, name, more)
  {
    hide U16At;
    BytesOfU16(body, 3);
    listLength, more := body[..2], body[5 + |name|..];
  }

  lemma {:induction false} WalkFinds(rec: seq<byte>, p: nat, end: nat, name: seq<byte>)
    returns (before: seq<Extension>, listLength: seq<byte>, more: seq<byte>, tail: seq<byte>)
    requires end <= |rec| && WalkExtensions(rec, p, end) == Some(name)
    ensures p <= |rec|
    ensures rec[p..] == Laid(before, HostNameBody(listLength, name, more), tail)
    ensures NoServerName(before) && BodiesFit(before) && SniFits(listLength, name, more)
    ensures p + |ExtensionBytes(before)| + 4 <= end
    decreases |rec| - p
  {
    hide NameOf, OneExtension, U16At, HostNameBody, Laid, NamePart;
    var e := ExtensionFound(rec, p);
    var next := p + 4 + |e.body|;
    if e.etype == 0 {
      listLength, more := HostFound(e.body, name);
      before, tail := [], rec[next..];
      NamePartIs(e.body);
      LaidOut(before, e.body, tail);
    } else {
      ghost var after;
      after, listLength, more, tail := WalkFinds(rec, next, end, name);
      before := [e] + after;
      assert before[1..] == after;
      LaidOut(before, HostNameBody(listLength, name, more), tail);
    }
  }

  lemma HandshakeReads(h: Hello, total: nat, e: seq<byte>)
    requires PartsFit(h) && total < 0x1_0000
    ensures var rec, p := Opening(h, total) + e, |Opening(h, total)|;
            HandshakeSni(rec) == WalkExtensions(rec, p, Min(p + total, |rec|))
  {
    hide Opening, U16At, WalkExtensions;
    OpeningFields(h, total, e);
  }

  /** A name is only found in bytes that hold all fields. */
  lemma FieldsThere(rec: seq<byte>)
    requires HandshakeSni(rec).Some?
    ensures |rec| > 38 && rec[0] == 1
    ensures var cs := 39 + rec[38] as int;
            && cs + 1 < |rec|
            && var cm := cs + 2 + U16At(rec, cs) as int;
            && cm < |rec|
            && cm + 1 + rec[cm] as int + 1 < |rec|
  {
    hide WalkExtensions, U16At;
  }

  lemma FourPieces(rec: seq<byte>, i: nat, j: nat, k: nat)
    requires i <= j <= k <= |rec| - 2
    ensures rec == rec[..i] + rec[i..j] + rec[j..k] + rec[k..k + 2] + rec[k + 2..]
  {
  }

  lemma SessionFound(rec: seq<byte>, h: Hello)
    requires |rec| >= 39 + |h.session| && rec[0] == 1 && h.lead == rec[1..38] && |h.session| == rec[38]
    requires h.session == rec[39..39 + |h.session|]
    ensures SessionPart(h) == rec[..39 + |h.session|]
  {
  }

  lemma SuitesFound(rec: seq<byte>, p: nat, h: Hello)
    requires p + 2 + |h.suites| <= |rec| && |h.suites| == U16At(rec, p) && h.suites == rec[p + 2..p + 2 + |h.suites|]
    ensures SuitesPart(h) == rec[p..p + 2 + |h.suites|]
  {
    hide U16At;
    BytesOfU16(rec, p);
  }

  lemma CompressionFound(rec: seq<byte>, p: nat, h: Hello)
    requires p + 1 + |h.compression| <= |rec| && |h.compression| == rec[p]
    requires h.compression == rec[p + 1..p + 1 + |h.compression|]
    ensures CompressionPart(h) == rec[p..p + 1 + |h.compression|]
  {
  }

  /** The fields before the extensions. */
  lemma OpeningFound(rec: seq<byte>) returns (h: Hello, total: nat, e: seq<byte>)
    requires HandshakeSni(rec).Some?
    ensures PartsFit(h) && total < 0x1_0000 && rec == Opening(h, total) + e
  {
    FieldsThere(rec);
    hide U16At, HandshakeSni, SessionPart, SuitesPart, CompressionPart, Be16OrZero;
    var cs: nat := 39 + rec[38] as int;
    var cm: nat := cs + 2 + U16At(rec, cs) as int;
    var ext: nat := cm + 1 + rec[cm] as int;
    h := Hello(rec[1..38], rec[39..cs], rec[cs + 2..cm], rec[cm + 1..ext], []);
    total, e := U16At(rec, ext), rec[ext + 2..];
    SessionFound(rec, h);
    SuitesFound(rec, cs, h);
    CompressionFound(rec, cm, h);
    BytesOfU16(rec, ext);
    FourPieces(rec, cs, cm, ext);
  }

  /** A handshake record whose ClientHello carries the name: `total` is what it says its extensions
      take, `tail` what follows the one that decides, and `kind` the record's version and length. */
  ghost predicate Carries(
      b: seq<byte>, name: seq<byte>, kind: seq<byte>, h: Hello, total: nat,
      listLength: seq<byte>, more: seq<byte>, tail: seq<byte>) {
    && |kind| == 4 && PartsFit(h) && total < 0x1_0000
    && NoServerName(h.extensions) && BodiesFit(h.extensions) && SniFits(listLength, name, more)
    && |ExtensionBytes(h.extensions)| + 4 <= total
    && b == [0x16] + kind + (Opening(h, total) + Laid(h.extensions, HostNameBody(listLength, name, more), tail))
  }

  /** Any bytes yield a name exactly when they are a record that carries it: handshake type, ClientHello,
      whole fields, and a first server-name extension that is there in full and begins with the name as
      a host name. */
  lemma {:induction false} SniIff(b: seq<byte>, name: seq<byte>)
    ensures SniBytes(b) == Some(name) <==>
              exists kind: seq<byte>, h: Hello, total: nat, listLength: seq<byte>, more: seq<byte>, tail: seq<byte> ::
                Carries(b, name, kind, h, total, listLength, more, tail)
  {
    hide Carries, SniBytes;
    if SniBytes(b) == Some(name) {
      NameCarried(b, name);
    }
    forall kind: seq<byte>, h: Hello, total: nat, listLength: seq<byte>, more: seq<byte>, tail: seq<byte>
      | Carries(b, name, kind, h, total, listLength, more, tail)
      ensures SniBytes(b) == Some(name)
    {
      CarriedName(b, name, kind, h, total, listLength, more, tail);
    }
  }

  lemma NameCarried(b: seq<byte>, name: seq<byte>)
    requires SniBytes(b) == Some(name)
    ensures exists kind: seq<byte>, h: Hello, total: nat, listLength: seq<byte>, more: seq<byte>, tail: seq<byte> ::
              Carries(b, name, kind, h, total, listLength, more, tail)
  {
    hide HandshakeSni, Opening, WalkExtensions, ExtensionBytes, HostNameBody, Laid;
    var rec := b[5..];
    var f, total, e := OpeningFound(rec);
    HandshakeReads(f, total, e);
    var p := |Opening(f, total)|;
    var before, listLength, more, tail := WalkFinds(rec, p, Min(p + total, |rec|), name);
    var h := f.(extensions := before);
    SameOpening(f, h, total);
    assert rec[p..] == e;
    assert b == [0x16] + b[1..5] + rec;
    assert Carries(b, name, b[1..5], h, total, listLength, more, tail);
  }

  lemma SameOpening(f: Hello, h: Hello, total: nat)
    requires h == f.(extensions := h.extensions)
    ensures Opening(f, total) == Opening(h, total)
  {
  }

  lemma CarriedName(
      b: seq<byte>, name: seq<byte>, kind: seq<byte>, h: Hello, total: nat,
      listLength: seq<byte>, more: seq<byte>, tail: seq<byte>)
    requires Carries(b, name, kind, h, total, listLength, more, tail)
    ensures SniBytes(b) == Some(name)
  {
    hide HandshakeSni, Opening, WalkExtensions, ExtensionBytes, HostNameBody, NameOf, Laid;
    var body := HostNameBody(listLength, name, more);
    var e := Laid(h.extensions, body, tail);
    var rec := Opening(h, total) + e;
    assert b[5..] == rec;
    HandshakeReads(h, total, e);
    var p := |Opening(h, total)|;
    assert rec[p..] == e;
    LaidLength(h.extensions, body, tail);
    WalkReads(rec, p, Min(p + total, |rec|), h.extensions, body, tail);
    HostShort(listLength, name, more);
    NameOfHost(listLength, name, more);
  }

  lemma LaidLength(before: seq<Extension>, body: seq<byte>, tail: seq<byte>)
    ensures |Laid(before, body, tail)| == |ExtensionBytes(before)| + 4 + |body| + |tail|
  {
    NamePartIs(body);
  }

  lemma HostShort(listLength: seq<byte>, name: seq<byte>, more: seq<byte>)
    ensures |name| <= |HostNameBody(listLength, name, more)|
  {
  }
}
