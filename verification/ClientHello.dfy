/**
 The ClientHello of the Fake-TLS handshake and a parser for it by sections 4.1.2 and 4.2 of RFC 8446 and section 3
 of RFC 6066. The parser accepts a hello only when every length field covers its contents to the byte.
 */
module ClientHello {
  import opened Bytes
  import opened Wrappers
  import opened FakeTlsSocket

  const CIPHER_SUITES: bytes :=
    [0x13, 0x01, 0x13, 0x02, 0x13, 0x03, 0xc0, 0x2b, 0xc0, 0x2f, 0xc0, 0x2c, 0xc0, 0x30, 0xcc, 0xa9,
     0xcc, 0xa8, 0xc0, 0x13, 0xc0, 0x14, 0x00, 0x9c, 0x00, 0x9d, 0x00, 0x2f, 0x00, 0x35]
  const SIG_ALGS: bytes :=
    [0x04, 0x03, 0x08, 0x04, 0x04, 0x01, 0x05, 0x03, 0x08, 0x05, 0x05, 0x01, 0x08, 0x06, 0x06, 0x01, 0x02, 0x01]
  /** "\x02h2\x08http/1.1" */
  const ALPN: bytes := [0x02, 0x68, 0x32, 0x08, 0x68, 0x74, 0x74, 0x70, 0x2f, 0x31, 0x2e, 0x31]
  const MIN_HELLO := 517

  datatype Extension = Extension(typ: nat, body: bytes) {
    ghost predicate Valid() { typ < 0x1_0000 && |body| < 0x1_0000 }

    function Print(): (r: bytes)
      ensures |r| == 4 + |body|
    {
      Be16(typ) + Be16(|body|) + body
    }
  }

  datatype Hello = Hello(random: bytes, sessionId: bytes, cipherSuites: bytes, compression: bytes,
                         extensions: seq<Extension>)

  // --- the printer, piece by piece as the source concatenates it

  function Zeros(n: nat): (z: bytes)
    ensures |z| == n
  {
    seq(n, _ => 0)
  }

  function SniBody(domain: bytes): bytes {
    var inner := [0x00] + Be16(|domain|) + domain;
    Be16(|inner|) + inner
  }

  function BuildSniExtension(domain: bytes): bytes {
    [0x00, 0x00] + Be16(|SniBody(domain)|) + SniBody(domain)
  }

  function Ext(typ: nat, body: bytes): (r: bytes)
    ensures |r| == 4 + |body|
  {
    Extension(typ, body).Print()
  }

  function KeyShareList(x25519Pub: Digest): (r: bytes)
    ensures |r| == 38
  {
    var entry := [0x00, 0x1d, 0x00, 0x20] + x25519Pub;
    Be16(|entry|) + entry
  }

  /** The buffers that are concatenated into the extension block before padding. */
  function ExtensionPieces(domain: bytes, x25519Pub: Digest): seq<bytes> {
    [BuildSniExtension(domain)] + (NamedGroupPieces() + SignaturePieces(x25519Pub))
  }

  function NamedGroupPieces(): seq<bytes> {
    [ Ext(0x0017, []),
      [0xff, 0x01, 0x00, 0x01, 0x00],
      Ext(0x000a, [0x00, 0x06, 0x00, 0x1d, 0x00, 0x17, 0x00, 0x18]),
      Ext(0x000b, [0x01, 0x00]),
      Ext(0x0023, []),
      Ext(0x0010, Be16(|ALPN|) + ALPN),
      Ext(0x0005, [0x01, 0x00, 0x00, 0x00, 0x00]) ]
  }

  function SignaturePieces(x25519Pub: Digest): seq<bytes> {
    [ Ext(0x000d, Be16(|SIG_ALGS|) + SIG_ALGS),
      Ext(0x0012, []),
      Ext(0x0033, KeyShareList(x25519Pub)),
      Ext(0x002d, [0x01, 0x01]),
      Ext(0x002b, [0x04, 0x03, 0x04, 0x03, 0x03]),
      Ext(0x001b, [0x02, 0x00, 0x02]) ]
  }

  function UnpaddedTotal(extensions: bytes): nat {
    5 + 4 + 2 + 32 + 1 + 32 + 2 + |CIPHER_SUITES| + 2 + 2 + |extensions|
  }

  function PadNeeded(total: nat): nat {
    if total + 4 < MIN_HELLO then MIN_HELLO - total - 4 else 0
  }

  function Padded(extensions: bytes): bytes {
    extensions + Ext(0x0015, Zeros(PadNeeded(UnpaddedTotal(extensions))))
  }

  function Body(random: Digest, sessionId: Digest, extensions: bytes): bytes {
    [0x03, 0x03] + random + ([DIGEST_LEN] + sessionId) + (Be16(|CIPHER_SUITES|) + CIPHER_SUITES)
    + [0x01, 0x00] + (Be16(|extensions|) + extensions)
  }

  function HandshakeMessage(body: bytes): bytes {
    [0x01] + Be24(|body|) + body
  }

  function RecordOf(handshake: bytes): bytes {
    [0x16, 0x03, 0x01] + Be16(|handshake|) + handshake
  }

  function HandshakeBytes(domain: bytes, random: Digest, sessionId: Digest, x25519Pub: Digest): bytes {
    HandshakeMessage(Body(random, sessionId, Padded(Flat(ExtensionPieces(domain, x25519Pub)))))
  }

  function HelloBytes(domain: bytes, random: Digest, sessionId: Digest, x25519Pub: Digest): bytes {
    RecordOf(HandshakeBytes(domain, random, sessionId, x25519Pub))
  }

  // --- the parser

  function TakeVec8(s: bytes): Option<(bytes, bytes)> {
    if |s| < 1 then None
    else if |s[1..]| < s[0] then None
    else Some((s[1..][..s[0]], s[1..][s[0]..]))
  }

  function TakeVec16(s: bytes): Option<(bytes, bytes)> {
    if |s| < 2 then None
    else
      var n := FromBe16(s[0], s[1]);
      if |s[2..]| < n then None else Some((s[2..][..n], s[2..][n..]))
  }

  function TakeVec24(s: bytes): Option<(bytes, bytes)> {
    if |s| < 3 then None
    else
      var n := FromBe24(s[0], s[1], s[2]);
      if |s[3..]| < n then None else Some((s[3..][..n], s[3..][n..]))
  }

  /** The contents of a vector that fills its input. */
  function Whole(v: Option<(bytes, bytes)>): Option<bytes> {
    if v.Some? && v.value.1 == [] then Some(v.value.0) else None
  }

  function ParseExtensions(s: bytes): Option<seq<Extension>>
    decreases |s|
  {
    if s == [] then Some([])
    else if |s| < 2 then None
    else
      match TakeVec16(s[2..])
      case None => None
      case Some(v) =>
        match ParseExtensions(v.1)
        case None => None
        case Some(later) => Some([Extension(FromBe16(s[0], s[1]), v.0)] + later)
  }

  /** server_name_list with one entry of type host_name */
  function ParseSni(body: bytes): Option<bytes> {
    match Whole(TakeVec16(body))
    case None => None
    case Some(list) => if |list| == 0 || list[0] != 0 then None else Whole(TakeVec16(list[1..]))
  }

  /** key_share (section 4.2.8): a list of groups with their keys, each laid out like an extension. */
  function ParseKeyShares(body: bytes): Option<seq<Extension>> {
    match Whole(TakeVec16(body))
    case None => None
    case Some(list) => ParseExtensions(list)
  }

  /** The body of the first extension of a type. */
  function Find(extensions: seq<Extension>, typ: nat): Option<bytes> {
    if extensions == [] then None
    else if extensions[0].typ == typ then Some(extensions[0].body)
    else Find(extensions[1..], typ)
  }

  function ParseTail(random: bytes, sessionId: bytes, s: bytes): Option<Hello> {
    match TakeVec16(s)
    case None => None
    case Some(ciphers) =>
      match TakeVec8(ciphers.1)
      case None => None
      case Some(compression) =>
        match Whole(TakeVec16(compression.1))
        case None => None
        case Some(block) =>
          match ParseExtensions(block)
          case None => None
          case Some(extensions) =>
            if ciphers.0 == [] || |ciphers.0| % 2 != 0 || compression.0 == [] then None
            else Some(Hello(random, sessionId, ciphers.0, compression.0, extensions))
  }

  function ParseBody(body: bytes): Option<Hello> {
    if |body| < 34 || body[..2] != [0x03, 0x03] then None
    else
      match TakeVec8(body[34..])
      case None => None
      case Some(session) => if 32 < |session.0| then None else ParseTail(body[2..34], session.0, session.1)
  }

  function ParseHandshake(message: bytes): Option<Hello> {
    if message == [] || message[0] != 0x01 then None
    else
      match Whole(TakeVec24(message[1..]))
      case None => None
      case Some(body) => ParseBody(body)
  }

  function ParseHello(wire: bytes): Option<Hello> {
    if |wire| < 3 || wire[..3] != [0x16, 0x03, 0x01] then None
    else
      match Whole(TakeVec16(wire[3..]))
      case None => None
      case Some(message) => ParseHandshake(message)
  }

  // --- the two agree

  lemma Vec8RoundTrip(v: bytes, rest: bytes)
    requires |v| < 0x100
    ensures TakeVec8([|v|] + v + rest) == Some((v, rest))
  {
    assert ([|v|] + v + rest)[1..] == v + rest;
  }

  lemma Vec16RoundTrip(v: bytes, rest: bytes)
    requires |v| < 0x1_0000
    ensures TakeVec16(Be16(|v|) + v + rest) == Some((v, rest))
    ensures rest == [] ==> Whole(TakeVec16(Be16(|v|) + v)) == Some(v)
  {
    Be16RoundTrip(|v|);
    hide Be16;
    var s := Be16(|v|) + v + rest;
    assert s[0] == Be16(|v|)[0] && s[1] == Be16(|v|)[1] && s[2..] == v + rest;
    assert rest == [] ==> s == Be16(|v|) + v;
  }

  lemma Vec24RoundTrip(v: bytes)
    requires |v| < 0x100_0000
    ensures Whole(TakeVec24(Be24(|v|) + v)) == Some(v)
  {
    Be24RoundTrip(|v|);
    hide Be24;
    var s := Be24(|v|) + v;
    assert s[0] == Be24(|v|)[0] && s[1] == Be24(|v|)[1] && s[2] == Be24(|v|)[2] && s[3..] == v;
    assert v[..|v|] == v && v[|v|..] == [];
  }

  ghost predicate ValidExtensions(extensions: seq<Extension>) {
    forall i :: 0 <= i < |extensions| ==> extensions[i].Valid()
  }

  function PrintExtensions(extensions: seq<Extension>): bytes {
    if extensions == [] then [] else extensions[0].Print() + PrintExtensions(extensions[1..])
  }

  lemma ExtensionHeader(typ: bytes, vector: bytes)
    requires |typ| == 2
    ensures ParseExtensions(typ + vector) ==
            match TakeVec16(vector)
            case None => None
            case Some(v) =>
              match ParseExtensions(v.1)
              case None => None
              case Some(later) => Some([Extension(FromBe16(typ[0], typ[1]), v.0)] + later)
  {
    hide TakeVec16;
    assert (typ + vector)[2..] == vector;
  }

  lemma FirstExtension(e: Extension, later: bytes)
    requires e.Valid()
    ensures ParseExtensions(e.Print() + later) ==
            match ParseExtensions(later) case None => None case Some(rest) => Some([e] + rest)
  {
    var vector := Be16(|e.body|) + e.body + later;
    Vec16RoundTrip(e.body, later);
    Be16RoundTrip(e.typ);
    hide Be16, TakeVec16, ParseExtensions, FromBe16;
    assert e.Print() + later == Be16(e.typ) + vector;
    ExtensionHeader(Be16(e.typ), vector);
  }

  lemma {:induction false} ExtensionsRoundTrip(extensions: seq<Extension>)
    requires ValidExtensions(extensions)
    ensures ParseExtensions(PrintExtensions(extensions)) == Some(extensions)
  {
    if extensions != [] {
      hide Extension.Print, ParseExtensions;
      ExtensionsRoundTrip(extensions[1..]);
      FirstExtension(extensions[0], PrintExtensions(extensions[1..]));
      assert extensions == [extensions[0]] + extensions[1..];
    }
  }

  /** The extensions that the pieces stand for. */
  function Extensions(domain: bytes, x25519Pub: Digest): seq<Extension> {
    [Extension(0x0000, SniBody(domain))] + (NamedGroupExtensions() + SignatureExtensions(x25519Pub))
  }

  function NamedGroupExtensions(): seq<Extension> {
    [ Extension(0x0017, []),
      Extension(0xff01, [0x00]),
      Extension(0x000a, [0x00, 0x06, 0x00, 0x1d, 0x00, 0x17, 0x00, 0x18]),
      Extension(0x000b, [0x01, 0x00]),
      Extension(0x0023, []),
      Extension(0x0010, Be16(|ALPN|) + ALPN),
      Extension(0x0005, [0x01, 0x00, 0x00, 0x00, 0x00]) ]
  }

  function SignatureExtensions(x25519Pub: Digest): seq<Extension> {
    [ Extension(0x000d, Be16(|SIG_ALGS|) + SIG_ALGS),
      Extension(0x0012, []),
      Extension(0x0033, KeyShareList(x25519Pub)),
      Extension(0x002d, [0x01, 0x01]),
      Extension(0x002b, [0x04, 0x03, 0x04, 0x03, 0x03]),
      Extension(0x001b, [0x02, 0x00, 0x02]) ]
  }

  lemma {:induction false} PiecesArePrinted(pieces: seq<bytes>, extensions: seq<Extension>)
    requires |pieces| == |extensions| && forall i :: 0 <= i < |pieces| ==> pieces[i] == extensions[i].Print()
    ensures Flat(pieces) == PrintExtensions(extensions)
  {
    if pieces != [] {
      PiecesArePrinted(pieces[1..], extensions[1..]);
    }
  }

  lemma {:induction false} PrintExtensionsAppend(a: seq<Extension>, e: Extension)
    ensures PrintExtensions(a + [e]) == PrintExtensions(a) + e.Print()
  {
    hide Extension.Print;
    if a == [] {
      assert PrintExtensions([e]) == e.Print() + PrintExtensions([]);
    } else {
      assert (a + [e])[1..] == a[1..] + [e];
      PrintExtensionsAppend(a[1..], e);
      Assoc(a[0].Print(), PrintExtensions(a[1..]), e.Print());
    }
  }

  /** The extension list of the finished hello: the padding comes last. */
  function AllExtensions(domain: bytes, x25519Pub: Digest): seq<Extension> {
    Extensions(domain, x25519Pub) + [Extension(0x0015, Zeros(PadNeeded(271 + |domain|)))]
  }

  /** The largest domain whose handshake length fits the record header. */
  const MAX_DOMAIN := 65265

  function Total(lengths: seq<nat>): nat {
    if lengths == [] then 0 else lengths[0] + Total(lengths[1..])
  }

  lemma {:induction false} FlatLength(pieces: seq<bytes>, lengths: seq<nat>)
    requires |pieces| == |lengths| && forall i :: 0 <= i < |pieces| ==> |pieces[i]| == lengths[i]
    ensures |Flat(pieces)| == Total(lengths)
  {
    if pieces != [] {
      FlatLength(pieces[1..], lengths[1..]);
    }
  }

  lemma NamedGroupLength()
    ensures |Flat(NamedGroupPieces())| == 58
  {
    var p := NamedGroupPieces();
    var lengths: seq<nat> := [4, 5, 12, 6, 4, 18, 9];
    assert Total(lengths) == 58 && |ALPN| == 12;
    hide Be16, Flat, Total, Ext, ALPN;
    FlatLength(p, lengths);
  }

  lemma SignatureLength(x25519Pub: Digest)
    ensures |Flat(SignaturePieces(x25519Pub))| == 92
  {
    var p := SignaturePieces(x25519Pub);
    var lengths: seq<nat> := [24, 4, 42, 6, 9, 7];
    assert Total(lengths) == 92 && |SIG_ALGS| == 18;
    hide Be16, Flat, Total, Ext, KeyShareList, SIG_ALGS;
    FlatLength(p, lengths);
  }

  lemma PieceLengths(domain: bytes, x25519Pub: Digest)
    ensures |Flat(ExtensionPieces(domain, x25519Pub))| == 159 + |domain|
  {
    var sni := BuildSniExtension(domain);
    assert |sni| == 9 + |domain|;
    hide Flat, NamedGroupPieces, SignaturePieces, BuildSniExtension;
    NamedGroupLength();
    SignatureLength(x25519Pub);
    FlatAppend(NamedGroupPieces(), SignaturePieces(x25519Pub));
    FlatAppend([sni], NamedGroupPieces() + SignaturePieces(x25519Pub));
    OneFlat(sni);
  }

  lemma OneFlat(a: bytes)
    ensures Flat([a]) == a
  {
    assert Flat([a]) == a + Flat([a][1..]);
  }

  lemma HandshakeLength(domain: bytes, random: Digest, sessionId: Digest, x25519Pub: Digest)
    ensures var block := Padded(Flat(ExtensionPieces(domain, x25519Pub)));
            && |block| == (if 275 + |domain| < MIN_HELLO then MIN_HELLO else 275 + |domain|) - 112
            && |Body(random, sessionId, block)| == |block| + 103
            && |HandshakeBytes(domain, random, sessionId, x25519Pub)| == |block| + 107
            && |HelloBytes(domain, random, sessionId, x25519Pub)| == |block| + 112
  {
    PieceLengths(domain, x25519Pub);
    hide Be16, Be24, Flat, ExtensionPieces;
  }

  /** The domain comes back out of the extension. */
  lemma SniRoundTrip(domain: bytes)
    requires |domain| <= MAX_DOMAIN
    ensures ParseSni(SniBody(domain)) == Some(domain)
  {
    var inner := [0x00] + Be16(|domain|) + domain;
    Vec16RoundTrip(inner, []);
    Vec16RoundTrip(domain, []);
    hide Be16, TakeVec16, Whole;
    assert inner[1..] == Be16(|domain|) + domain;
  }

  /** The public key comes back out of the key share, under the group x25519. */
  lemma KeyShareRoundTrip(x25519Pub: Digest)
    ensures ParseKeyShares(KeyShareList(x25519Pub)) == Some([Extension(0x001d, x25519Pub)])
  {
    var share := Extension(0x001d, x25519Pub);
    var entry := [0x00, 0x1d, 0x00, 0x20] + x25519Pub;
    assert Be16(0x1d) == [0x00, 0x1d] && Be16(0x20) == [0x00, 0x20];
    assert share.Print() == entry;
    assert PrintExtensions([share]) == entry by {
      assert [share][1..] == [];
      assert entry + [] == entry;
    }
    ExtensionsRoundTrip([share]);
    Vec16RoundTrip(entry, []);
  }

  lemma FindKeyShare(domain: bytes, x25519Pub: Digest)
    ensures Find(AllExtensions(domain, x25519Pub), 0x0033) == Some(KeyShareList(x25519Pub))
    ensures Find(AllExtensions(domain, x25519Pub), 0x0000) == Some(SniBody(domain))
  {
    hide KeyShareList, SniBody, Be16, Zeros, PadNeeded, ALPN, SIG_ALGS;
    var all := AllExtensions(domain, x25519Pub);
    FindAt(all, 0x0033, 10);
    FindAt(all, 0x0000, 0);
  }

  lemma {:induction false} FindAt(extensions: seq<Extension>, typ: nat, i: nat)
    requires i < |extensions| && extensions[i].typ == typ
    requires forall j :: 0 <= j < i ==> extensions[j].typ != typ
    ensures Find(extensions, typ) == Some(extensions[i].body)
  {
    if 0 < i {
      FindAt(extensions[1..], typ, i - 1);
    }
  }

  /** What a server reads from the hello: the name it is asked for and the client's key. */
  ghost predicate Offers(hello: bytes, domain: bytes, x25519Pub: Digest) {
    && ParseHello(hello).Some?
    && var extensions := ParseHello(hello).value.extensions;
       && Find(extensions, 0x0000).Some? && ParseSni(Find(extensions, 0x0000).value) == Some(domain)
       && Find(extensions, 0x0033).Some?
       && ParseKeyShares(Find(extensions, 0x0033).value) == Some([Extension(0x001d, x25519Pub)])
  }

  lemma HelloOffers(domain: bytes, random: Digest, sessionId: Digest, x25519Pub: Digest)
    requires |domain| <= MAX_DOMAIN
    ensures Offers(HelloBytes(domain, random, sessionId, x25519Pub), domain, x25519Pub)
  {
    hide ParseHello, AllExtensions, HelloBytes, ParseSni, ParseKeyShares, SniBody, KeyShareList, Find;
    HelloWellFormed(domain, random, sessionId, x25519Pub);
    FindKeyShare(domain, x25519Pub);
    SniRoundTrip(domain);
    KeyShareRoundTrip(x25519Pub);
  }

  ghost predicate Prints(pieces: seq<bytes>, extensions: seq<Extension>) {
    && |pieces| == |extensions|
    && forall i :: 0 <= i < |pieces| ==> pieces[i] == extensions[i].Print() && extensions[i].Valid()
  }

  lemma SniPrints(domain: bytes)
    requires |domain| <= MAX_DOMAIN
    ensures Prints([BuildSniExtension(domain)], [Extension(0x0000, SniBody(domain))])
  {
    assert Be16(0) == [0, 0] && |SniBody(domain)| < 0x1_0000;
    hide Be16, SniBody;
  }

  lemma NamedGroupPrints()
    ensures Prints(NamedGroupPieces(), NamedGroupExtensions())
  {
    assert Be16(0xff01) == [0xff, 0x01] && Be16(1) == [0, 1] && |ALPN| == 12;
    hide Be16, ALPN;
    assert Extension(0xff01, [0x00]).Print() == [0xff, 0x01, 0x00, 0x01, 0x00];
  }

  lemma SignaturePrints(x25519Pub: Digest)
    ensures Prints(SignaturePieces(x25519Pub), SignatureExtensions(x25519Pub))
  {
    assert |SIG_ALGS| == 18;
    hide Be16, SIG_ALGS, KeyShareList;
  }

  lemma PrintsAppend(p: seq<bytes>, q: seq<bytes>, e: seq<Extension>, f: seq<Extension>)
    requires Prints(p, e) && Prints(q, f)
    ensures Prints(p + q, e + f)
  {
    hide Extension.Print;
  }

  lemma BlockIsPrinted(domain: bytes, x25519Pub: Digest)
    requires |domain| <= MAX_DOMAIN
    ensures ValidExtensions(AllExtensions(domain, x25519Pub))
    ensures Padded(Flat(ExtensionPieces(domain, x25519Pub))) == PrintExtensions(AllExtensions(domain, x25519Pub))
  {
    SniPrints(domain);
    NamedGroupPrints();
    SignaturePrints(x25519Pub);
    hide Flat, Be16, PrintExtensions, Extension.Print, BuildSniExtension, SniBody,
         NamedGroupPieces, NamedGroupExtensions, SignaturePieces, SignatureExtensions;
    PrintsAppend(NamedGroupPieces(), SignaturePieces(x25519Pub), NamedGroupExtensions(),
                 SignatureExtensions(x25519Pub));
    PrintsAppend([BuildSniExtension(domain)], NamedGroupPieces() + SignaturePieces(x25519Pub),
                 [Extension(0x0000, SniBody(domain))], NamedGroupExtensions() + SignatureExtensions(x25519Pub));
    PiecesArePrinted(ExtensionPieces(domain, x25519Pub), Extensions(domain, x25519Pub));
    PieceLengths(domain, x25519Pub);
    PrintExtensionsAppend(Extensions(domain, x25519Pub), Extension(0x0015, Zeros(PadNeeded(271 + |domain|))));
  }

  lemma NullCompression(rest: bytes)
    ensures TakeVec8([0x01, 0x00] + rest) == Some(([0x00], rest))
  {
    Vec8RoundTrip([0x00], rest);
    assert [|[0x00]|] + [0x00] + rest == [0x01, 0x00] + rest;
  }

  lemma TailRoundTrip(random: bytes, sessionId: bytes, ciphers: bytes, extensions: seq<Extension>)
    requires ValidExtensions(extensions) && |PrintExtensions(extensions)| < 0x1_0000
    requires ciphers != [] && |ciphers| % 2 == 0 && |ciphers| < 0x1_0000
    ensures var block := PrintExtensions(extensions);
            ParseTail(random, sessionId, Be16(|ciphers|) + ciphers + ([0x01, 0x00] + (Be16(|block|) + block)))
            == Some(Hello(random, sessionId, ciphers, [0x00], extensions))
  {
    var block := PrintExtensions(extensions);
    hide Be16, TakeVec16, TakeVec8, Whole, ParseExtensions, PrintExtensions, ValidExtensions;
    var end := Be16(|block|) + block;
    var middle := [0x01, 0x00] + end;
    ExtensionsRoundTrip(extensions);
    Vec16RoundTrip(block, []);
    NullCompression(end);
    Vec16RoundTrip(ciphers, middle);
  }

  lemma BodyRoundTrip(random: Digest, sessionId: Digest, extensions: seq<Extension>)
    requires ValidExtensions(extensions) && |PrintExtensions(extensions)| < 0x1_0000
    ensures ParseBody(Body(random, sessionId, PrintExtensions(extensions)))
         == Some(Hello(random, sessionId, CIPHER_SUITES, [0x00], extensions))
  {
    var ciphers := CIPHER_SUITES;
    assert ciphers != [] && |ciphers| == 30;
    var block := PrintExtensions(extensions);
    hide Be16, TakeVec8, ParseTail, PrintExtensions, ValidExtensions, CIPHER_SUITES, Body;
    TailRoundTrip(random, sessionId, ciphers, extensions);
    var tail := Be16(|ciphers|) + ciphers + ([0x01, 0x00] + (Be16(|block|) + block));
    BodyShape(random, sessionId, block);
    Vec8RoundTrip(sessionId, tail);
  }

  lemma BodyShape(random: Digest, sessionId: Digest, block: bytes)
    ensures var body := Body(random, sessionId, block);
            && |body| >= 34 && body[..2] == [0x03, 0x03] && body[2..34] == random
            && body[34..] == [|sessionId|] + sessionId
                             + (Be16(|CIPHER_SUITES|) + CIPHER_SUITES + ([0x01, 0x00] + (Be16(|block|) + block)))
  {
    hide Be16, CIPHER_SUITES;
  }

  /**
   For every domain that fits, the hello parses to the last byte, with the domain as its server name; its length is
   517, or four more than its unpadded length where that is longer.
   */
  lemma HelloWellFormed(domain: bytes, random: Digest, sessionId: Digest, x25519Pub: Digest)
    requires |domain| <= MAX_DOMAIN
    ensures var hello := HelloBytes(domain, random, sessionId, x25519Pub);
            var extensions := AllExtensions(domain, x25519Pub);
            && ParseHello(hello) == Some(Hello(random, sessionId, CIPHER_SUITES, [0x00], extensions))
            && extensions[0].typ == 0x0000 && ParseSni(extensions[0].body) == Some(domain)
            && |hello| == (if 275 + |domain| < MIN_HELLO then MIN_HELLO else 275 + |domain|)
            && UnpaddedTotal(Flat(ExtensionPieces(domain, x25519Pub))) == 271 + |domain|
  {
    var extensions := AllExtensions(domain, x25519Pub);
    assert extensions[0] == Extension(0x0000, SniBody(domain));
    hide *;
    BlockIsPrinted(domain, x25519Pub);
    HandshakeLength(domain, random, sessionId, x25519Pub);
    PieceLengths(domain, x25519Pub);
    SniRoundTrip(domain);
    BodyRoundTrip(random, sessionId, extensions);
    LayersRoundTrip(domain, random, sessionId, x25519Pub);
    UnpaddedLength(Flat(ExtensionPieces(domain, x25519Pub)));
  }

  lemma UnpaddedLength(extensions: bytes)
    ensures UnpaddedTotal(extensions) == |extensions| + 112
  {
  }

  /** Record and handshake header: the two outer lengths cover the body exactly. */
  lemma LayersRoundTrip(domain: bytes, random: Digest, sessionId: Digest, x25519Pub: Digest)
    requires |domain| <= MAX_DOMAIN
    ensures ParseHello(HelloBytes(domain, random, sessionId, x25519Pub))
         == ParseBody(Body(random, sessionId, Padded(Flat(ExtensionPieces(domain, x25519Pub)))))
  {
    HandshakeLength(domain, random, sessionId, x25519Pub);
    hide ParseBody, Body, Be24, Be16, TakeVec16, TakeVec24, Whole, ExtensionPieces, Flat, Padded;
    var body := Body(random, sessionId, Padded(Flat(ExtensionPieces(domain, x25519Pub))));
    var message := HandshakeMessage(body);
    Vec24RoundTrip(body);
    assert message[1..] == Be24(|body|) + body;
    Vec16RoundTrip(message, []);
    assert RecordOf(message)[3..] == Be16(|message|) + message;
  }

  // --- the random field

  /** Bitwise exclusive or of the low `bits` bits. */
  function Xor(bits: nat, a: nat, b: nat): nat {
    if bits == 0 then 0 else (if a % 2 == b % 2 then 0 else 1) + 2 * Xor(bits - 1, a / 2, b / 2)
  }

  function Pow2(bits: nat): nat {
    if bits == 0 then 1 else 2 * Pow2(bits - 1)
  }

  lemma {:induction false} XorCancels(bits: nat, a: nat, b: nat)
    requires b < Pow2(bits)
    ensures Xor(bits, a, b) < Pow2(bits)
    ensures Xor(bits, a, Xor(bits, a, b)) == b
  {
    if 0 < bits {
      XorCancels(bits - 1, a / 2, b / 2);
      var x := Xor(bits, a, b);
      assert x / 2 == Xor(bits - 1, a / 2, b / 2);
    }
  }

  function XorByte(a: byte, b: byte): (x: byte)
    ensures Xor(8, a, x) == b
  {
    assert Pow2(8) == 0x100;
    XorCancels(8, a, b);
    Xor(8, a, b)
  }

  /** The digest with the little-endian timestamp folded into its last four bytes. */
  function StampedDigest(digest: Digest, now: nat): Digest {
    var ts := Le32(now);
    digest[..28] + [XorByte(digest[28], ts[0]), XorByte(digest[29], ts[1]), XorByte(digest[30], ts[2]),
                    XorByte(digest[31], ts[3])]
  }

  /** What a server that shares the secret reads from a hello: the sender's clock, if the digest is right. */
  function ServerTimestamp(hello: bytes, mac: Mac, secret: bytes): Option<nat>
    requires DIGEST_POS + DIGEST_LEN <= |hello|
  {
    var digest: Digest := mac(secret, Zeroed(hello));
    var random := HelloRandom(hello);
    if random[..28] != digest[..28] then None
    else Some(FromLe32([XorByte(digest[28], random[28]), XorByte(digest[29], random[29]),
                        XorByte(digest[30], random[30]), XorByte(digest[31], random[31])]))
  }

  const ZERO_RANDOM: Digest := seq(DIGEST_LEN, _ => 0)

  /** Overwriting the random field of a hello gives the hello with that random field. */
  lemma RandomField(domain: bytes, random: Digest, sessionId: Digest, x25519Pub: Digest)
    ensures var hello := HelloBytes(domain, random, sessionId, x25519Pub);
            var blank := HelloBytes(domain, ZERO_RANDOM, sessionId, x25519Pub);
            && |hello| == |blank| >= DIGEST_POS + DIGEST_LEN
            && hello == blank[..DIGEST_POS] + random + blank[DIGEST_POS + DIGEST_LEN..]
            && HelloRandom(hello) == random
            && Zeroed(hello) == blank
  {
    hide Be16, Be24, Padded;
    HandshakeLength(domain, random, sessionId, x25519Pub);
    HandshakeLength(domain, ZERO_RANDOM, sessionId, x25519Pub);
  }

  /** The server's check succeeds and gives back the sender's clock, as 32 bits of it. */
  lemma ServerReadsClock(domain: bytes, sessionId: Digest, x25519Pub: Digest, mac: Mac, secret: bytes, now: nat)
    ensures var blank := HelloBytes(domain, ZERO_RANDOM, sessionId, x25519Pub);
            var hello := HelloBytes(domain, StampedDigest(mac(secret, blank), now), sessionId, x25519Pub);
            && DIGEST_POS + DIGEST_LEN <= |hello|
            && HelloRandom(hello)[..28] == mac(secret, Zeroed(hello))[..28]
            && ServerTimestamp(hello, mac, secret) == Some(FromLe32(Le32(now)))
            && (now < 0x1_0000_0000 ==> ServerTimestamp(hello, mac, secret) == Some(now))
  {
    var digest := mac(secret, HelloBytes(domain, ZERO_RANDOM, sessionId, x25519Pub));
    RandomField(domain, StampedDigest(digest, now), sessionId, x25519Pub);
    StampCancels(digest, now);
    if now < 0x1_0000_0000 {
      Le32RoundTrip(now);
    }
    hide HelloBytes, Le32, FromLe32, XorByte, Zeroed, HelloRandom;
  }

  lemma StampCancels(digest: Digest, now: nat)
    ensures var random, ts := StampedDigest(digest, now), Le32(now);
            && random[..28] == digest[..28]
            && [XorByte(digest[28], random[28]), XorByte(digest[29], random[29]),
                XorByte(digest[30], random[30]), XorByte(digest[31], random[31])] == ts
  {
    hide Le32;
    var random, ts := StampedDigest(digest, now), Le32(now);
    assert random[28] == XorByte(digest[28], ts[0]) && random[29] == XorByte(digest[29], ts[1]);
    assert random[30] == XorByte(digest[30], ts[2]) && random[31] == XorByte(digest[31], ts[3]);
    assert forall i :: 0 <= i < 4 ==> XorByte(digest[28 + i], XorByte(digest[28 + i], ts[i])) == ts[i];
  }

  /** None is the RangeError of the record length for a domain that does not fit. */
  method BuildFakeTlsClientHello(domain: bytes, secret: bytes, sessionId: Digest, x25519Pub: Digest, mac: Mac, now: nat)
    returns (r: Option<bytes>)
    ensures r.None? <==> MAX_DOMAIN < |domain|
    ensures r.Some? ==>
      var digest := mac(secret, HelloBytes(domain, ZERO_RANDOM, sessionId, x25519Pub));
      r.value == HelloBytes(domain, StampedDigest(digest, now), sessionId, x25519Pub)
    ensures r.Some? ==> Offers(r.value, domain, x25519Pub)
    ensures r.Some? ==>
      && ParseHello(r.value).Some? && ParseHello(r.value).value.extensions == AllExtensions(domain, x25519Pub)
      && |r.value| == (if 275 + |domain| < MIN_HELLO then MIN_HELLO else 275 + |domain|)
      && ServerTimestamp(r.value, mac, secret) == Some(FromLe32(Le32(now)))
  {
    HandshakeFits(domain, ZERO_RANDOM, sessionId, x25519Pub);
    hide HandshakeMessage, Body, Padded, Flat, ExtensionPieces, RecordOf, StampedDigest, Le32, FromLe32,
         ServerTimestamp, ParseHello, AllExtensions, ZERO_RANDOM, Zeroed, HelloRandom, Offers;
    var extensions := Flat(ExtensionPieces(domain, x25519Pub));
    extensions := Padded(extensions);
    var handshake := HandshakeMessage(Body(ZERO_RANDOM, sessionId, extensions));
    if 0x1_0000 <= |handshake| {
      return None;
    }
    var blank := RecordOf(handshake);
    var digest := mac(secret, blank);
    RandomField(domain, StampedDigest(digest, now), sessionId, x25519Pub);
    HelloWellFormed(domain, StampedDigest(digest, now), sessionId, x25519Pub);
    HelloOffers(domain, StampedDigest(digest, now), sessionId, x25519Pub);
    ServerReadsClock(domain, sessionId, x25519Pub, mac, secret, now);
    var hello := new byte[|blank|](i requires 0 <= i < |blank| => blank[i]);
    assert hello[..] == blank;
    StampRandom(hello, digest, now);
    return Some(hello[..]);
  }

  /** The digest and the clock go into the random field of the finished buffer, in place. */
  method StampRandom(hello: array<byte>, digest: Digest, now: nat)
    requires DIGEST_POS + DIGEST_LEN <= hello.Length
    modifies hello
    ensures hello[..] == old(hello[..DIGEST_POS]) + StampedDigest(digest, now) + old(hello[DIGEST_POS + DIGEST_LEN..])
  {
    hide Le32, XorByte;
    var ts := Le32(now);
    var randomField := new byte[32](i requires 0 <= i < 32 => digest[i]);
    randomField[28] := XorByte(randomField[28], ts[0]);
    randomField[29] := XorByte(randomField[29], ts[1]);
    randomField[30] := XorByte(randomField[30], ts[2]);
    randomField[31] := XorByte(randomField[31], ts[3]);
    assert randomField[..] == StampedDigest(digest, now);
    for i := 0 to 32
      invariant randomField[..] == StampedDigest(digest, now)
      invariant forall j :: 0 <= j < i ==> hello[11 + j] == randomField[j]
      invariant forall j :: 0 <= j < hello.Length && !(11 <= j < 11 + i) ==> hello[j] == old(hello[j])
    {
      hello[11 + i] := randomField[i];
    }
    assert hello[..11] == old(hello[..11]) && hello[43..] == old(hello[43..]);
    assert hello[11..43] == randomField[..];
    assert hello[..] == hello[..11] + hello[11..43] + hello[43..];
  }

  lemma HandshakeFits(domain: bytes, random: Digest, sessionId: Digest, x25519Pub: Digest)
    ensures |HandshakeBytes(domain, random, sessionId, x25519Pub)| < 0x1_0000 <==> |domain| <= MAX_DOMAIN
  {
    HandshakeLength(domain, random, sessionId, x25519Pub);
    hide HandshakeBytes, Padded, Body, HelloBytes, Flat;
  }
}
