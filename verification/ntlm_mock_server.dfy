/**
 * The context-info responder of the NTLM SharePoint mock server
 * (app/ntlm_mock_server.py): `POST /sites/{site}/_api/contextinfo`.
 *
 * The handler classifies the `Authorization` header by substring into an NTLM
 * AUTHENTICATE (Type 3) message, an NTLM NEGOTIATE (Type 1) message, or
 * anything else, and answers each with a fixed envelope: 200 with the site's
 * context information as XML, or 401 with the NTLM challenge pair, the Type 1
 * answer carrying a cookie that the anonymous answer lacks.
 *
 * The clock and `uuid.uuid4` are the handler's only non-determinism; their
 * outputs are the fields of an `Environment`, so the handler is a function.
 */
module NtlmMockServer {
  import opened Wrappers
  import opened Strings
  import opened Headers
  import Base64

  // ---------------------------------------------------------------------
  // Configuration constants
  // ---------------------------------------------------------------------

  const MockHostname: string := "localhost"

  /** A fixed NTLM CHALLENGE (Type 2) message, base64-encoded. */
  const MockNtlmType2Token: string :=
    "TlRMTVNTUAACAAAACAAIADgAAAAGgokCgmS2NZAaeckAAAAAAAAAAKIAogBAAAAACgA5OAAAAA9NQVNXT1JMRAIAEABNAEEAUwBXAE8AUgBMAEQAAQAYAFcATQBQAEQATQBTAFcARgBFADAAMAAyAAQAFABtAGEAcwAuAGcAbwB2AC4AcwBnAAMALgBXAE0AUABEAE0AUwBXAEYARQAwADAAMgAuAG0AYQBzAC4AZwBvAHYALgBzAGcABQAUAG0AYQBzAC4AZwBvAHYALgBzAGcABwAIAM+R4/bnv9sBAAAAAA=="

  const MockSharePointVersion: string := "16.0.0.5478"

  const MockFormDigestTimeoutSeconds: nat := 1800

  /** The four module constants the handler reads, as one value. */
  datatype Config = Config(
    hostname: string,
    ntlmType2Token: string,
    sharePointVersion: string,
    formDigestTimeoutSeconds: nat
  )

  /** The values the module sets. */
  const MockConfig: Config :=
    Config(MockHostname, MockNtlmType2Token, MockSharePointVersion, MockFormDigestTimeoutSeconds)

  /** Base64 of an AUTHENTICATE message's signature and MessageType byte 3. */
  const Type3Marker: string := "TlRMTVNTUAAD"

  /** Base64 of a NEGOTIATE message's signature and MessageType byte 1. */
  const Type1Marker: string := "TlRMTVNTUAAB"

  /** The eight-byte NTLM message signature `NTLMSSP\0` (MS-NLMP section 2.2.1). */
  const NtlmSignature: seq<Base64.Byte> := [78, 84, 76, 77, 83, 83, 80, 0]

  /** The signature's first six bytes, `NTLMSS`, encode as `TlRMTVNT`. */
  lemma SignatureGroupsEncoding()
    ensures Base64.EncodeGroup(78, 84, 76) == "TlRM"
    ensures Base64.EncodeGroup(77, 83, 83) == "TVNT"
  {
    assert Base64.EncodeGroup(78, 84, 76) == [Base64.Digit(19), Base64.Digit(37), Base64.Digit(17), Base64.Digit(12)];
    assert Base64.EncodeGroup(77, 83, 83) == [Base64.Digit(19), Base64.Digit(21), Base64.Digit(13), Base64.Digit(19)];
  }

  /** The Type 3 marker is the base64 of the signature followed by MessageType
      byte 3 (AUTHENTICATE; the low byte of the little-endian 32-bit field). */
  lemma Type3MarkerEncodesAuthenticate()
    ensures Type3Marker == Base64.EncodeGroups(NtlmSignature + [3])
  {
    var b := NtlmSignature + [3];
    assert b == [78, 84, 76, 77, 83, 83, 80, 0, 3];
    Base64.EncodeNineBytes(b);
    SignatureGroupsEncoding();
    assert Base64.EncodeGroup(80, 0, 3) == "UAAD" by {
      assert Base64.EncodeGroup(80, 0, 3) == [Base64.Digit(20), Base64.Digit(0), Base64.Digit(0), Base64.Digit(3)];
    }
    assert "TlRM" + "TVNT" + "UAAD" == "TlRMTVNTUAAD";
  }

  /** The Type 1 marker is the base64 of the signature followed by MessageType
      byte 1 (NEGOTIATE). */
  lemma Type1MarkerEncodesNegotiate()
    ensures Type1Marker == Base64.EncodeGroups(NtlmSignature + [1])
  {
    var b := NtlmSignature + [1];
    assert b == [78, 84, 76, 77, 83, 83, 80, 0, 1];
    Base64.EncodeNineBytes(b);
    SignatureGroupsEncoding();
    assert Base64.EncodeGroup(80, 0, 1) == "UAAB" by {
      assert Base64.EncodeGroup(80, 0, 1) == [Base64.Digit(20), Base64.Digit(0), Base64.Digit(0), Base64.Digit(1)];
    }
    assert "TlRM" + "TVNT" + "UAAB" == "TlRMTVNTUAAB";
  }

  // ---------------------------------------------------------------------
  // Request classification
  // ---------------------------------------------------------------------

  datatype AuthKind = Type3 | Type1 | Anonymous

  /** The header value the handler inspects; a missing header reads as "". */
  function AuthorizationValue(header: Option<string>): (auth: string)
    ensures header.None? ==> auth == ""
    ensures header.Some? ==> auth == header.value
  {
    header.GetOr("")
  }

  /** The three-way dispatch: the Type 3 test first, then Type 1, else anonymous. */
  function Classify(auth: string): (k: AuthKind)
  {
    if Contains(auth, Type3Marker) then Type3
    else if Contains(auth, Type1Marker) then Type1
    else Anonymous
  }

  /** The classification in terms of where the markers occur in the header:
      Type 3 whenever its marker occurs anywhere, whatever else occurs;
      Type 1 when only the Type 1 marker occurs; anonymous when neither does. */
  lemma ClassifyByOccurrence(auth: string)
    ensures Classify(auth) == Type3 <==> exists i :: OccursAt(auth, Type3Marker, i)
    ensures Classify(auth) == Type1 <==>
      (forall i :: !OccursAt(auth, Type3Marker, i)) && exists j :: OccursAt(auth, Type1Marker, j)
    ensures Classify(auth) == Anonymous <==>
      forall i :: !OccursAt(auth, Type3Marker, i) && !OccursAt(auth, Type1Marker, i)
  {
    ContainsIff(auth, Type3Marker);
    ContainsIff(auth, Type1Marker);
  }

  /** A missing header, the empty header, and any header shorter than a
      marker are anonymous. */
  lemma ShortHeaderIsAnonymous(header: Option<string>)
    requires |AuthorizationValue(header)| < |Type1Marker|
    ensures Classify(AuthorizationValue(header)) == Anonymous
  {
  }

  // ---------------------------------------------------------------------
  // Non-determinism, lifted to parameters
  // ---------------------------------------------------------------------

  /** What the handler takes from the clock and from `uuid.uuid4` for one request. */
  datatype Environment = Environment(
    requestGuid: string,   // str(uuid4()), shared by SPRequestGuid and request-id
    nowGmt: string,        // the current time, RFC 1123 "GMT" layout
    expiresGmt: string,    // five minutes before now, same layout
    digestHexA: string,    // uuid4().hex, 32 lower-case hex digits
    digestHexB: string,    // a second uuid4().hex
    digestStamp: string    // the current time, "%d %b %Y %H:%M:%S -0000" layout
  )

  // ---------------------------------------------------------------------
  // The form digest
  // ---------------------------------------------------------------------

  /** `form_digest_value`: "0x", two hex strings, a comma, then the timestamp. */
  function FormDigestValue(hexA: string, hexB: string, stamp: string): (d: string)
    ensures |d| == 3 + |hexA| + |hexB| + |stamp|
    ensures d[..2] == "0x" && d[2 + |hexA| + |hexB|] == ','
    ensures d[2..2 + |hexA| + |hexB|] == hexA + hexB
    ensures d[3 + |hexA| + |hexB|..] == stamp
  {
    "0x" + hexA + hexB + "," + stamp
  }

  /** Reads a digest of the shape `0x<64 lower-case hex digits>,<stamp>` back
      into its two UUID hex strings and its timestamp. */
  function SplitDigest(d: string): (parts: Option<(string, string, string)>)
    ensures parts.Some? ==> |parts.value.0| == 32 && |parts.value.1| == 32
    ensures parts.Some? ==> IsLowerHex(parts.value.0) && IsLowerHex(parts.value.1)
  {
    if |d| >= 67 && d[..2] == "0x" && IsLowerHex(d[2..66]) && d[66] == ',' then
      assert d[2..34] == d[2..66][..32] && d[34..66] == d[2..66][32..];
      Some((d[2..34], d[34..66], d[67..]))
    else None
  }

  /** The digest built from two UUID hex strings has a 66-character part
      before the comma, starting with "0x", and reads back as its inputs. */
  lemma DigestShape(hexA: string, hexB: string, stamp: string)
    requires |hexA| == 32 && |hexB| == 32 && IsLowerHex(hexA) && IsLowerHex(hexB)
    ensures var d := FormDigestValue(hexA, hexB, stamp);
      d[..2] == "0x" && d[66] == ',' && IsLowerHex(d[2..66])
    ensures SplitDigest(FormDigestValue(hexA, hexB, stamp)) == Some((hexA, hexB, stamp))
  {
    var d := FormDigestValue(hexA, hexB, stamp);
    assert d[2..66] == hexA + hexB;
    assert d[2..34] == hexA;
    assert d[34..66] == hexB;
  }

  /** Every string that reads as a digest is the digest of what it reads as. */
  lemma SplitDigestSound(d: string)
    requires SplitDigest(d).Some?
    ensures var (a, b, t) := SplitDigest(d).value; FormDigestValue(a, b, t) == d
  {
    var (a, b, t) := SplitDigest(d).value;
    assert d == d[..2] + d[2..34] + d[34..66] + [d[66]] + d[67..];
  }

  // ---------------------------------------------------------------------
  // The context-information XML body
  // ---------------------------------------------------------------------

  /** The URL the handler reports for `site`: inserted verbatim, not escaped. */
  function SiteUrl(cfg: Config, site: string): (url: string)
    ensures |url| == |"https://" + cfg.hostname + "/sites/"| + |site|
    ensures url[..|url| - |site|] == "https://" + cfg.hostname + "/sites/"
    ensures url[|url| - |site|..] == site
  {
    "https://" + cfg.hostname + "/sites/" + site
  }

  /** `<d:tag>text</d:tag>` */
  function Element(tag: string, text: string): (e: string) {
    "<d:" + tag + ">" + text + "</d:" + tag + ">"
  }

  /** The fixed pieces of the document's text. */
  const XmlDeclaration: string := "<?xml version=\"1.0\" encoding=\"utf-8\"?>"
  const StringCollectionType: string := "Collection(Edm.String)"
  const DataServicesNs: string := "http://schemas.microsoft.com/ado/2007/08/dataservices"

  /** The timeout element, its value written in decimal. */
  function TimeoutElement(cfg: Config): (e: string) {
    "<d:FormDigestTimeoutSeconds m:type=\"Edm.Int32\">" + Decimal(cfg.formDigestTimeoutSeconds)
      + "</d:FormDigestTimeoutSeconds>"
  }

  /** The lines of the GetContextWebInformation document, in order. */
  function ContextInfoLines(cfg: Config, site: string, digest: string): (lines: seq<string>) {
    [ XmlDeclaration,
      "<d:GetContextWebInformation xmlns:d=\"" + DataServicesNs + "\"",
      " xmlns:m=\"" + DataServicesNs + "/metadata\">",
      "    " + TimeoutElement(cfg),
      "    " + Element("FormDigestValue", digest),
      "    " + Element("LibraryVersion", "16.0.5478.1000"),
      "    " + Element("SiteFullUrl", SiteUrl(cfg, site)),
      "    <d:SupportedSchemaVersions m:type=\"" + StringCollectionType + "\">",
      "        " + Element("element", "14.0.0.0"),
      "        " + Element("element", "15.0.0.0"),
      "    </d:SupportedSchemaVersions>",
      "    " + Element("WebFullUrl", SiteUrl(cfg, site)),
      "</d:GetContextWebInformation>" ]
  }

  /** The body of the 200 answer. It reports the timeout and the digest,
      reports the site's URL as both its SiteFullUrl and its WebFullUrl, and
      lists the two supported schema versions. */
  function ContextInfoXml(cfg: Config, site: string, digest: string): (xml: string)
    ensures Contains(xml, TimeoutElement(cfg))
    ensures Contains(xml, Element("FormDigestValue", digest))
    ensures Contains(xml, Element("SiteFullUrl", SiteUrl(cfg, site)))
    ensures Contains(xml, Element("WebFullUrl", SiteUrl(cfg, site)))
    ensures Contains(xml, Element("LibraryVersion", "16.0.5478.1000"))
    ensures Contains(xml, Element("element", "14.0.0.0"))
    ensures Contains(xml, Element("element", "15.0.0.0"))
  {
    var lines := ContextInfoLines(cfg, site, digest);
    JoinLinesContainsIndented(lines, 3, "    ", TimeoutElement(cfg));
    JoinLinesContainsIndented(lines, 4, "    ", Element("FormDigestValue", digest));
    JoinLinesContainsIndented(lines, 5, "    ", Element("LibraryVersion", "16.0.5478.1000"));
    JoinLinesContainsIndented(lines, 6, "    ", Element("SiteFullUrl", SiteUrl(cfg, site)));
    JoinLinesContainsIndented(lines, 11, "    ", Element("WebFullUrl", SiteUrl(cfg, site)));
    JoinLinesContainsIndented(lines, 8, "        ", Element("element", "14.0.0.0"));
    JoinLinesContainsIndented(lines, 9, "        ", Element("element", "15.0.0.0"));
    JoinLines(lines)
  }

  /** With the module's values, the body holds the timeout element, whose
      value is written as the decimal digits of 1800 seconds. */
  lemma TimeoutRendered(site: string, digest: string)
    ensures Contains(ContextInfoXml(MockConfig, site, digest), TimeoutElement(MockConfig))
    ensures Decimal(MockConfig.formDigestTimeoutSeconds) == "1800"
    ensures DecimalValue(Decimal(MockConfig.formDigestTimeoutSeconds)) == 1800
  {
    DecimalRoundTrip(MockConfig.formDigestTimeoutSeconds);
  }

  // ---------------------------------------------------------------------
  // The three response envelopes
  // ---------------------------------------------------------------------

  datatype Response = Response(status: int, headers: seq<Header>, body: string)

  const ContentTypeXml: string := "application/xml;charset=utf-8"
  const Type1Cookie: string := "MAS_intranet_cookie=fake_type1_flow; path=/; Httponly; Secure"

  /** The challenge pair both 401 answers send, in this order. */
  function ChallengeValues(cfg: Config): (vs: seq<string>)
    ensures |vs| == 2 && vs[1] == "Negotiate" && |vs[0]| == 5 + |cfg.ntlmType2Token|
    ensures vs[0][..5] == "NTLM " && vs[0][5..] == cfg.ntlmType2Token
  {
    ["NTLM " + cfg.ntlmType2Token, "Negotiate"]
  }

  /** The 200 answer's headers, a dictionary in insertion order. */
  function Type3Headers(cfg: Config, env: Environment): (hs: seq<Header>) {
    [ ("Content-Type", ContentTypeXml),
      ("Cache-Control", "private, max-age=0"),
      ("Expires", env.expiresGmt),
      ("Last-Modified", env.nowGmt),
      ("X-SharePointHealthScore", "0"),
      ("X-SP-SERVERSTATE", "ReadOnly=0"),
      ("DATASERVICEVERSION", "3.0"),
      ("SPClientServiceRequestDuration", "27"),
      ("SPRequestGuid", env.requestGuid),
      ("request-id", env.requestGuid),
      ("X-FRAME-OPTIONS", "SAMEORIGIN"),
      ("Content-Security-Policy", "frame-ancestors 'self';"),
      ("Persistent-Auth", "true"),
      ("X-Powered-By", "ASP.NET (Mock)"),
      ("MicrosoftSharePointTeamServices", cfg.sharePointVersion),
      ("X-Content-Type-Options", "nosniff"),
      ("X-MS-InvokeApp", "1; RequireReadOnly"),
      ("Date", env.nowGmt),
      ("Connection", "keep-alive") ]
  }

  /** The 401 answer to a NEGOTIATE message. */
  function Type1Headers(cfg: Config, env: Environment): (hs: seq<Header>) {
    [ ("WWW-Authenticate", "NTLM " + cfg.ntlmType2Token),
      ("WWW-Authenticate", "Negotiate"),
      ("SPRequestGuid", env.requestGuid),
      ("request-id", env.requestGuid),
      ("X-FRAME-OPTIONS", "SAMEORIGIN"),
      ("Content-Security-Policy", "frame-ancestors 'self';"),
      ("SPRequestDuration", "1"),
      ("SPIisLatency", "0"),
      ("X-Powered-By", "ASP.NET (Mock)"),
      ("MicrosoftSharePointTeamServices", cfg.sharePointVersion),
      ("X-Content-Type-Options", "nosniff"),
      ("X-MS-InvokeApp", "1; RequireReadOnly"),
      ("Date", env.nowGmt),
      ("Content-Length", "0"),
      ("Set-Cookie", Type1Cookie),
      ("Connection", "keep-alive") ]
  }

  /** The 401 answer to an anonymous or unrecognised request. */
  function AnonymousHeaders(cfg: Config, env: Environment): (hs: seq<Header>) {
    [ ("WWW-Authenticate", "NTLM " + cfg.ntlmType2Token),
      ("WWW-Authenticate", "Negotiate"),
      ("SPRequestGuid", env.requestGuid),
      ("request-id", env.requestGuid),
      ("X-FRAME-OPTIONS", "SAMEORIGIN"),
      ("Content-Security-Policy", "frame-ancestors 'self';"),
      ("SPRequestDuration", "1"),
      ("SPIisLatency", "0"),
      ("X-Powered-By", "ASP.NET (Mock)"),
      ("MicrosoftSharePointTeamServices", cfg.sharePointVersion),
      ("X-Content-Type-Options", "nosniff"),
      ("X-MS-InvokeApp", "1; RequireReadOnly"),
      ("Date", env.nowGmt),
      ("Content-Length", "0"),
      ("Connection", "keep-alive") ]
  }

  // ---------------------------------------------------------------------
  // The handler
  // ---------------------------------------------------------------------

  /** `handle_context_info(site)` for one request. */
  function HandleContextInfo(cfg: Config, site: string, authorization: Option<string>, env: Environment): (r: Response)
    ensures r.status == 200 <==> Classify(AuthorizationValue(authorization)) == Type3
    ensures r.status == 401 <==> Classify(AuthorizationValue(authorization)) != Type3
    ensures r.body == "" <==> r.status == 401
  {
    var auth := AuthorizationValue(authorization);
    match Classify(auth)
    case Type3 =>
      var digest := FormDigestValue(env.digestHexA, env.digestHexB, env.digestStamp);
      var xml := ContextInfoXml(cfg, site, digest);
      Response(200, Type3Headers(cfg, env), xml)
    case Type1 =>
      Response(401, Type1Headers(cfg, env), "")
    case Anonymous =>
      Response(401, AnonymousHeaders(cfg, env), "")
  }

  // ---------------------------------------------------------------------
  // Properties of the three header lists
  // ---------------------------------------------------------------------

  /** Built from a dictionary, the 200 headers name each header once. */
  lemma Type3HeadersNameEachOnce(cfg: Config, env: Environment)
    ensures NamesDistinct(Type3Headers(cfg, env))
  {
  }

  /** The 200 headers: XML content type, and the request GUID under both names. */
  lemma Type3HeaderValues(cfg: Config, env: Environment)
    ensures var hs := Type3Headers(cfg, env);
      && Values(hs, "Content-Type") == [ContentTypeXml]
      && Values(hs, "SPRequestGuid") == [env.requestGuid]
      && Values(hs, "request-id") == [env.requestGuid]
  {
    var hs := Type3Headers(cfg, env);
    Type3HeadersNameEachOnce(cfg, env);
    DistinctNamesSingleValue(hs, 0);
    DistinctNamesSingleValue(hs, 8);
    DistinctNamesSingleValue(hs, 9);
  }

  /** The Type 1 headers: the challenge pair, `Content-Length: 0` and one cookie. */
  lemma Type1ChallengeHeaders(cfg: Config, env: Environment)
    ensures var hs := Type1Headers(cfg, env);
      && Values(hs, "WWW-Authenticate") == ChallengeValues(cfg)
      && Values(hs, "Content-Length") == ["0"]
      && Values(hs, "Set-Cookie") == [Type1Cookie]
  {
    var hs := Type1Headers(cfg, env);
    assert Values(hs, "WWW-Authenticate") == ChallengeValues(cfg) by { ValuesPair(hs, "WWW-Authenticate", 0, 1); }
    assert Values(hs, "Content-Length") == ["0"] by { ValuesSingle(hs, "Content-Length", 13); }
    assert Values(hs, "Set-Cookie") == [Type1Cookie] by { ValuesSingle(hs, "Set-Cookie", 14); }
  }

  /** The Type 1 headers carry the request GUID once under each of its two names. */
  lemma Type1RequestIds(cfg: Config, env: Environment)
    ensures var hs := Type1Headers(cfg, env);
      && Values(hs, "SPRequestGuid") == [env.requestGuid]
      && Values(hs, "request-id") == [env.requestGuid]
  {
    var hs := Type1Headers(cfg, env);
    assert Values(hs, "SPRequestGuid") == [env.requestGuid] by { ValuesSingle(hs, "SPRequestGuid", 2); }
    assert Values(hs, "request-id") == [env.requestGuid] by { ValuesSingle(hs, "request-id", 3); }
  }

  /** The anonymous headers: the challenge pair and `Content-Length: 0`, but no cookie at all. */
  lemma AnonymousChallengeHeaders(cfg: Config, env: Environment)
    ensures var hs := AnonymousHeaders(cfg, env);
      && Values(hs, "WWW-Authenticate") == ChallengeValues(cfg)
      && Values(hs, "Content-Length") == ["0"]
      && Values(hs, "Set-Cookie") == []
  {
    var hs := AnonymousHeaders(cfg, env);
    assert Values(hs, "WWW-Authenticate") == ChallengeValues(cfg) by { ValuesPair(hs, "WWW-Authenticate", 0, 1); }
    assert Values(hs, "Content-Length") == ["0"] by { ValuesSingle(hs, "Content-Length", 13); }
    assert Values(hs, "Set-Cookie") == [] by { ValuesEmptyIff(hs, "Set-Cookie"); }
  }

  /** The anonymous headers carry the request GUID once under each of its two names. */
  lemma AnonymousRequestIds(cfg: Config, env: Environment)
    ensures var hs := AnonymousHeaders(cfg, env);
      && Values(hs, "SPRequestGuid") == [env.requestGuid]
      && Values(hs, "request-id") == [env.requestGuid]
  {
    var hs := AnonymousHeaders(cfg, env);
    assert Values(hs, "SPRequestGuid") == [env.requestGuid] by { ValuesSingle(hs, "SPRequestGuid", 2); }
    assert Values(hs, "request-id") == [env.requestGuid] by { ValuesSingle(hs, "request-id", 3); }
  }

  /** The two 401 header lists differ only by the cookie: dropping the one
      `Set-Cookie` entry of the Type 1 list gives the anonymous list, entry
      for entry and in order. */
  lemma CookieIsTheOnlyDifference(cfg: Config, env: Environment)
    ensures |Values(Type1Headers(cfg, env), "Set-Cookie")| == 1
    ensures Without(Type1Headers(cfg, env), "Set-Cookie") == AnonymousHeaders(cfg, env)
  {
    var t1, anon := Type1Headers(cfg, env), AnonymousHeaders(cfg, env);
    Type1ChallengeHeaders(cfg, env);
    WithoutSingle(t1, "Set-Cookie", 14);
    assert t1[..14] == anon[..14];
    assert t1[15..] == anon[14..];
    assert anon == anon[..14] + anon[14..];
  }

  // ---------------------------------------------------------------------
  // Properties of the handler
  // ---------------------------------------------------------------------

  /** A header holding the Type 3 marker gets the 200 XML answer, whether or
      not it also holds the Type 1 marker; the answer reports the site's URL
      and the request's form digest. */
  lemma Type3Wins(cfg: Config, site: string, auth: string, env: Environment)
    requires Contains(auth, Type3Marker)
    ensures var r := HandleContextInfo(cfg, site, Some(auth), env);
      && r.status == 200
      && Values(r.headers, "Content-Type") == [ContentTypeXml]
      && Contains(r.body, Element("SiteFullUrl", SiteUrl(cfg, site)))
      && Contains(r.body, Element("WebFullUrl", SiteUrl(cfg, site)))
      && Contains(r.body, Element("FormDigestValue",
           FormDigestValue(env.digestHexA, env.digestHexB, env.digestStamp)))
  {
    Type3HeaderValues(cfg, env);
  }

  /** A NEGOTIATE header without the Type 3 marker gets a 401 with an empty
      body, `Content-Length: 0`, the challenge pair and the Type 1 cookie. */
  lemma Type1Branch(cfg: Config, site: string, auth: string, env: Environment)
    requires Contains(auth, Type1Marker) && !Contains(auth, Type3Marker)
    ensures var r := HandleContextInfo(cfg, site, Some(auth), env);
      && r.status == 401 && r.body == ""
      && Values(r.headers, "Content-Length") == ["0"]
      && Values(r.headers, "WWW-Authenticate") == ChallengeValues(cfg)
      && Values(r.headers, "Set-Cookie") == [Type1Cookie]
  {
    Type1ChallengeHeaders(cfg, env);
  }

  /** A missing header, or one holding neither marker, gets a 401 with an
      empty body, the challenge pair and no cookie at all. */
  lemma AnonymousBranch(cfg: Config, site: string, authorization: Option<string>, env: Environment)
    requires !Contains(AuthorizationValue(authorization), Type3Marker)
    requires !Contains(AuthorizationValue(authorization), Type1Marker)
    ensures var r := HandleContextInfo(cfg, site, authorization, env);
      && r.status == 401 && r.body == ""
      && Values(r.headers, "Content-Length") == ["0"]
      && Values(r.headers, "WWW-Authenticate") == ChallengeValues(cfg)
      && Values(r.headers, "Set-Cookie") == []
  {
    AnonymousChallengeHeaders(cfg, env);
  }

  /** Both 401 answers carry exactly the two challenges, NTLM first, and
      they differ from each other only by the Type 1 cookie. */
  lemma ChallengePair(cfg: Config, site: string, authorization: Option<string>, env: Environment)
    requires HandleContextInfo(cfg, site, authorization, env).status == 401
    ensures var r := HandleContextInfo(cfg, site, authorization, env);
      && Values(r.headers, "WWW-Authenticate") == ["NTLM " + cfg.ntlmType2Token, "Negotiate"]
      && Without(r.headers, "Set-Cookie") == AnonymousHeaders(cfg, env)
  {
    Type1ChallengeHeaders(cfg, env);
    AnonymousChallengeHeaders(cfg, env);
    CookieIsTheOnlyDifference(cfg, env);
    WithoutAbsent(AnonymousHeaders(cfg, env), "Set-Cookie") by {
      ValuesEmptyIff(AnonymousHeaders(cfg, env), "Set-Cookie");
    }
  }

  /** In every branch SPRequestGuid and request-id each appear once, both
      carrying the request's one GUID. */
  lemma MatchingRequestIds(cfg: Config, site: string, authorization: Option<string>, env: Environment)
    ensures var r := HandleContextInfo(cfg, site, authorization, env);
      && Values(r.headers, "SPRequestGuid") == [env.requestGuid]
      && Values(r.headers, "request-id") == [env.requestGuid]
  {
    Type3HeaderValues(cfg, env);
    Type1RequestIds(cfg, env);
    AnonymousRequestIds(cfg, env);
  }

  /** The branch, the status and the headers depend on the header alone;
      the site reaches nothing but the 200 body. */
  lemma SiteDoesNotSteer(cfg: Config, site1: string, site2: string, authorization: Option<string>, env: Environment)
    ensures var r1 := HandleContextInfo(cfg, site1, authorization, env);
      var r2 := HandleContextInfo(cfg, site2, authorization, env);
      r1.status == r2.status && r1.headers == r2.headers && (r1.status == 401 ==> r1 == r2)
  {
  }

  /** Requests whose headers classify alike get the same status, whatever
      the site, the clock or the identifiers. */
  lemma StatusFollowsClassification(cfg: Config, site1: string, a1: Option<string>, env1: Environment,
                                    site2: string, a2: Option<string>, env2: Environment)
    requires Classify(AuthorizationValue(a1)) == Classify(AuthorizationValue(a2))
    ensures HandleContextInfo(cfg, site1, a1, env1).status == HandleContextInfo(cfg, site2, a2, env2).status
  {
  }
}
