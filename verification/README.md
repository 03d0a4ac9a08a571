# NTLM SharePoint mock server: the context-info responder

This project models the one request handler of a small mock SharePoint
server. The handler is `handle_context_info` in `app/ntlm_mock_server.py`,
serving `POST /sites/{site}/_api/contextinfo`. The model also covers the
form-digest builder `form_digest_value` and the module's four configuration
constants.

The handler reads the `Authorization` header, which defaults to the empty
string when it is missing. It sorts the header into one of three kinds by
substring:

- An NTLM AUTHENTICATE (Type 3) message: the header contains `TlRMTVNTUAAD`.
  The answer is 200 with an XML `GetContextWebInformation` document.
- An NTLM NEGOTIATE (Type 1) message: the header contains `TlRMTVNTUAAB` but
  not the Type 3 marker. The answer is 401 with the NTLM challenge pair and
  a cookie.
- Anything else, including a missing header. The answer is 401 with the same
  challenge pair and no cookie.

The two markers are proved to be the base64 (section 4 of RFC 4648) of the
NTLM signature `NTLMSSP\0` followed by MessageType byte 3 or byte 1, as
section 2.2.1 of MS-NLMP lays out the message header.

The model is pure, like the source:

- Functions build the responses and lemmas state their properties.
- The clock and `uuid.uuid4` are the handler's only sources of
  non-determinism. Their outputs are the fields of an `Environment` value,
  so the handler is a function of its inputs.
- The four module constants are bundled as a `Config` value that every
  operation takes. `MockConfig` holds the values the module sets.
- A header list is a sequence of name/value pairs in the order the source
  writes them, since a name may repeat. The 200 branch builds a dictionary;
  its names are proved distinct.
- Python's `p in s` on strings is `Strings.Contains`, a left-to-right scan.
  It is proved equivalent to the reference definition "p occurs at some
  index of s".

Modules:

- `Wrappers`: the optional value.
- `Strings`: substring search, line joining and decimal rendering.
- `Base64`: the RFC 4648 alphabet and a whole-group encoder.
- `Headers`: lookup and removal by name in an ordered header list.
- `NtlmMockServer`: the constants, the classification, the digest, the XML
  body, the three envelopes, the handler and its properties.

## Model

| member | source | states |
|---|---|---|
| NtlmMockServer.Type3MarkerEncodesAuthenticate | app/ntlm_mock_server.py:35 | The Type 3 marker is the base64 encoding of `NTLMSSP\0` followed by MessageType byte 3. |
| NtlmMockServer.Type1MarkerEncodesNegotiate | app/ntlm_mock_server.py:77 | The Type 1 marker is the base64 encoding of `NTLMSSP\0` followed by MessageType byte 1. |
| NtlmMockServer.SignatureGroupsEncoding | app/ntlm_mock_server.py:35 | The signature's first six bytes encode as `TlRMTVNT`, the prefix the two markers share. |
| NtlmMockServer.AuthorizationValue | app/ntlm_mock_server.py:29 | A missing `Authorization` header reads as the empty string; a present one reads as its value. |
| NtlmMockServer.ClassifyByOccurrence | app/ntlm_mock_server.py:35-121 | The dispatch in terms of marker occurrences, each an if-and-only-if. Type 3 is chosen exactly when its marker occurs anywhere, whatever else occurs. Type 1 is chosen exactly when only the Type 1 marker occurs. Anonymous is chosen exactly when neither occurs. |
| NtlmMockServer.ShortHeaderIsAnonymous | app/ntlm_mock_server.py:29 | A missing header, the empty header, and any header shorter than a marker are anonymous. |
| NtlmMockServer.FormDigestValue | app/ntlm_mock_server.py:21-24 | The digest is "0x", then the two hex strings, then a comma at the position after them, then the timestamp. Its length is three more than the three parts together. |
| NtlmMockServer.SplitDigest | app/ntlm_mock_server.py:21-24 | A reader for the digest layout. What it accepts has two 32-character lower-case hex parts. |
| NtlmMockServer.DigestShape | app/ntlm_mock_server.py:21-24 | With two 32-digit lower-case hex inputs, the part before the comma is 66 characters of "0x" and hex. The digest reads back as exactly its three inputs. |
| NtlmMockServer.SplitDigestSound | app/ntlm_mock_server.py:21-24 | Every string the reader accepts is the digest of the parts it reads. The two directions make the builder and the reader inverse on this layout. |
| NtlmMockServer.SiteUrl | app/ntlm_mock_server.py:45 | The reported URL is `https://`, the hostname and `/sites/`, followed by `site` verbatim and unescaped, so the site can be recovered as its tail. |
| NtlmMockServer.ContextInfoXml | app/ntlm_mock_server.py:39-51 | The 200 body contains the `FormDigestTimeoutSeconds` element holding the configured timeout in decimal. It contains the `FormDigestValue` element holding the digest, and `SiteFullUrl` and `WebFullUrl` elements both holding the site URL. It contains the fixed `LibraryVersion` element and both `SupportedSchemaVersions` entries, `14.0.0.0` and `15.0.0.0`. |
| NtlmMockServer.TimeoutRendered | app/ntlm_mock_server.py:42 | With the module's values, the body holds the timeout element, and its value is the decimal digits `1800`, which read back as 1800. |
| NtlmMockServer.ChallengeValues | app/ntlm_mock_server.py:82-83 | The challenge pair: `NTLM ` followed by the configured Type 2 token, then `Negotiate`. |
| NtlmMockServer.HandleContextInfo | app/ntlm_mock_server.py:27-121 | Status 200 exactly when the header classifies as Type 3, and 401 exactly otherwise. The body is empty exactly when the status is 401. |
| NtlmMockServer.Type3HeadersNameEachOnce | app/ntlm_mock_server.py:52-73 | The 200 header dictionary names each header once. |
| NtlmMockServer.Type3HeaderValues | app/ntlm_mock_server.py:53-63 | The 200 headers have the XML content type. They carry the request GUID once as `SPRequestGuid` and once as `request-id`. |
| NtlmMockServer.Type1ChallengeHeaders | app/ntlm_mock_server.py:81-98 | The Type 1 headers carry the challenge pair in order, `Content-Length: 0`, and exactly one `Set-Cookie` with the fixed cookie. |
| NtlmMockServer.Type1RequestIds | app/ntlm_mock_server.py:84-85 | The Type 1 headers carry the request GUID once under each of its two names. |
| NtlmMockServer.AnonymousChallengeHeaders | app/ntlm_mock_server.py:103-120 | The anonymous headers carry the challenge pair in order and `Content-Length: 0`, and no `Set-Cookie` at all. |
| NtlmMockServer.AnonymousRequestIds | app/ntlm_mock_server.py:106-107 | The anonymous headers carry the request GUID once under each of its two names. |
| NtlmMockServer.CookieIsTheOnlyDifference | app/ntlm_mock_server.py:81-120 | The Type 1 list has one `Set-Cookie` entry. Dropping it gives the anonymous list, entry for entry and in order. |
| NtlmMockServer.Type3Wins | app/ntlm_mock_server.py:35-74 | A header containing the Type 3 marker gets status 200 and the XML content type, even if it also contains the Type 1 marker. The body reports the site URL as both `SiteFullUrl` and `WebFullUrl`, and reports the request's digest. |
| NtlmMockServer.Type1Branch | app/ntlm_mock_server.py:77-99 | A header containing the Type 1 marker and not the Type 3 marker gets 401 with an empty body. It also gets `Content-Length: 0`, the challenge pair and the Type 1 cookie. |
| NtlmMockServer.AnonymousBranch | app/ntlm_mock_server.py:101-121 | A missing header, or one containing neither marker, gets 401 with an empty body. It also gets `Content-Length: 0`, the challenge pair and no `Set-Cookie`. |
| NtlmMockServer.ChallengePair | app/ntlm_mock_server.py:81-120 | Every 401 answer has exactly the two `WWW-Authenticate` values in order, and is the anonymous list once any cookie is dropped. |
| NtlmMockServer.MatchingRequestIds | app/ntlm_mock_server.py:30 | In every branch, `SPRequestGuid` and `request-id` each appear once, both carrying the request's one GUID. |
| NtlmMockServer.SiteDoesNotSteer | app/ntlm_mock_server.py:35-121 | Changing the site changes neither the status nor the headers, and changes nothing at all in a 401 answer. |
| NtlmMockServer.StatusFollowsClassification | app/ntlm_mock_server.py:35-121 | Two requests whose headers classify alike get the same status, whatever their sites, clocks and identifiers. |
| Strings.Contains | app/ntlm_mock_server.py:35 | Python's substring test. A match implies the pattern is no longer than the text. |
| Strings.ContainsIff | app/ntlm_mock_server.py:35 | The scan answers true exactly when the pattern occurs at some index of the text. |
| Strings.ContainsInfix | app/ntlm_mock_server.py:39-51 | A string written between two others is found in the result. |
| Strings.ContainsTransitive | app/ntlm_mock_server.py:39-51 | A substring of a substring is a substring. |
| Strings.JoinLines | app/ntlm_mock_server.py:39-51 | The triple-quoted body as lines joined by newlines. The result is at least as long as its first line. |
| Strings.JoinLinesContains | app/ntlm_mock_server.py:39-51 | Every line occurs in the joined text. |
| Strings.JoinLinesContainsIndented | app/ntlm_mock_server.py:43-50 | Whatever follows a line's indentation occurs in the joined text. |
| Strings.DigitChar | app/ntlm_mock_server.py:42 | A digit value below ten becomes the decimal character that stands for it. |
| Strings.Decimal | app/ntlm_mock_server.py:42 | The f-string rendering of a natural number is a non-empty run of decimal digits with no leading zero. |
| Strings.DecimalRoundTrip | app/ntlm_mock_server.py:42 | Reading the decimal rendering back gives the number. |
| Base64.DigitRoundTrip | app/ntlm_mock_server.py:35 | Every six-bit value has a character in the RFC 4648 alphabet, and decoding that character gives the value back. |
| Base64.EncodeGroup | app/ntlm_mock_server.py:35 | Three bytes encode as four characters. |
| Base64.EncodeGroups | app/ntlm_mock_server.py:35 | Whole three-byte groups encode as four characters each. |
| Base64.EncodeGroupsAlphabet | app/ntlm_mock_server.py:35 | Every character of an encoding is in the RFC 4648 alphabet. |
| Base64.EncodeNineBytes | app/ntlm_mock_server.py:35 | Nine bytes encode as their three groups, in order. |
| Headers.Values | app/ntlm_mock_server.py:81-98 | The values of every entry with a given name, in list order. There are never more values than entries. |
| Headers.ValuesEmptyIff | app/ntlm_mock_server.py:103-120 | A name has no values exactly when no entry carries it. |
| Headers.ValuesAppend | app/ntlm_mock_server.py:81-98 | Looking up a name in two lists written one after the other gives the first list's values, then the second's. |
| Headers.ValuesSingle | app/ntlm_mock_server.py:81-98 | A name carried by exactly one entry has exactly that entry's value. |
| Headers.ValuesPair | app/ntlm_mock_server.py:82-83 | A name carried by exactly two entries has their two values, in list order. |
| Headers.Without | app/ntlm_mock_server.py:81-120 | Dropping a name leaves no entry with that name and never lengthens the list. |
| Headers.WithoutKeepsOthers | app/ntlm_mock_server.py:81-120 | Dropping a name leaves every other name's values as they were. |
| Headers.WithoutAppend | app/ntlm_mock_server.py:81-120 | Dropping a name from two lists written one after the other drops it from each. |
| Headers.WithoutAbsent | app/ntlm_mock_server.py:103-120 | Dropping a name that no entry carries changes nothing. |
| Headers.WithoutSingle | app/ntlm_mock_server.py:96 | Dropping a name carried by exactly one entry removes just that entry and keeps the rest in order. |
| Headers.DistinctNamesSingleValue | app/ntlm_mock_server.py:52-73 | In a dictionary-like list with distinct names, a present name has exactly its one value. |

## Left out

- The web framework: the application object, the route decorator, the header lookup and the HTTP response object. The header value is an input and the response is a plain value. Headers a framework adds on its own are not modelled.
- The diagnostic `print` calls are side effects only and do not shape the response.
- The clock, `strftime` and `uuid.uuid4` are not modelled. Their outputs are opaque `Environment` strings. The date layouts are not checked, and neither is the fact that `Expires` is five minutes before `Date`. That two requests get different GUIDs and digests is a property of the random source and is not modelled.
- DigestShape: the hex strings are taken as inputs of 32 lower-case hex digits, the form `uuid.UUID.hex` produces. The timestamp's layout is not checked.
- The contents of the Type 2 challenge token are carried through unexamined. The model neither decodes them nor checks that they are a valid NTLM CHALLENGE message, and neither does the source.
- The `base64` module is imported by the source but never used. The model's base64 encoder serves only to explain the two markers. There is no decoder, because the source never decodes.
- Server start-up, the debug server and the commented-out HTTPS mode are process setup and are left out.
- The configuration is a `Config` parameter instead of module globals, and `MockConfig` holds the module's values. Lemmas hold for every configuration.
- ContextInfoXml: the contract states which elements the body contains, not the whole document text or the elements' order. The exact text is the function's definition, and the model does not check that it is well-formed XML.
