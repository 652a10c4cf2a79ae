/** The AWS Signature Version 4 pipeline both edge functions share: canonical
    request, string to sign, signing-key derivation and signature, and the
    `Authorization` header value. SHA-256 (section 6.2 of FIPS 180-4) and
    HMAC-SHA256 (section 2 of RFC 2104) are not modelled: they are whatever
    functions the `Crypto` value holds. */
module SigV4 {
  import opened Wrappers
  import opened Bytes
  import opened Text
  import opened Hex
  import opened Fields

  /** The two primitives: `crypto.subtle.digest("SHA-256", bytes)`, and the
      handlers' `hmacSha256(key, data)` helper, which imports the raw key and
      signs the UTF-8 encoding of the text `data` with HMAC-SHA256. */
  datatype Crypto = Crypto(sha256: seq<byte> -> seq<byte>, hmacSha256: (seq<byte>, string) -> seq<byte>)

  const Algorithm: string := "AWS4-HMAC-SHA256"
  const Region: string := "auto"
  const Service: string := "s3"
  const ScopeTerminator: string := "aws4_request"
  const SecretPrefix: string := "AWS4"

  predicate NoNewline(s: string) {
    '\n' !in s
  }

  /** `sha256Hex(data)`: the digest of `data`, rendered in lowercase hex. */
  function Sha256Hex(c: Crypto, data: seq<byte>): (r: string)
    ensures FromHex(r) == Some(c.sha256(data))
    ensures NoNewline(r)
  {
    HexRoundTrip(c.sha256(data));
    ToHex(c.sha256(data))
  }

  /** A key-derivation chain: every step's MAC becomes the key of the next. */
  function HmacChain(c: Crypto, key: seq<byte>, steps: seq<string>): seq<byte>
    decreases |steps|
  {
    if |steps| == 0 then key else HmacChain(c, c.hmacSha256(key, steps[0]), steps[1..])
  }

  /** `getSignatureKey(secretKey, dateStamp, region, service)`: the four-step
      chain seeded with `"AWS4" + secretKey`, so a pure function of its four
      inputs and nothing else. */
  function SigningKey(c: Crypto, secretKey: string, dateStamp: string, region: string, service: string): (k: seq<byte>)
    ensures k == c.hmacSha256(c.hmacSha256(c.hmacSha256(c.hmacSha256(Utf8(SecretPrefix + secretKey), dateStamp), region), service), ScopeTerminator)
  {
    var k0 := Utf8(SecretPrefix + secretKey);
    var kDate := c.hmacSha256(k0, dateStamp);
    var kRegion := c.hmacSha256(kDate, region);
    var kService := c.hmacSha256(kRegion, service);
    var kSigning := c.hmacSha256(kService, ScopeTerminator);
    assert HmacChain(c, kSigning, []) == kSigning;
    assert [ScopeTerminator][1..] == [];
    assert HmacChain(c, kService, [ScopeTerminator]) == kSigning;
    assert [service, ScopeTerminator][1..] == [ScopeTerminator];
    assert HmacChain(c, kRegion, [service, ScopeTerminator]) == kSigning;
    assert [region, service, ScopeTerminator][1..] == [service, ScopeTerminator];
    assert HmacChain(c, kDate, [region, service, ScopeTerminator]) == kSigning;
    assert [dateStamp, region, service, ScopeTerminator][1..] == [region, service, ScopeTerminator];
    HmacChain(c, k0, [dateStamp, region, service, ScopeTerminator])
  }

  /** `credentialScope`: `{dateStamp}/auto/s3/aws4_request`. Split at its
      slashes it gives back the date stamp, region, service and terminator. */
  function CredentialScope(dateStamp: string): (r: string)
    ensures '/' !in dateStamp ==> Split(r, '/') == [dateStamp, Region, Service, ScopeTerminator]
    ensures NoNewline(dateStamp) ==> NoNewline(r)
  {
    ScopeParts(dateStamp);
    Join([dateStamp, Region, Service, ScopeTerminator], "/")
  }

  lemma ScopeParts(dateStamp: string)
    ensures var parts := [dateStamp, Region, Service, ScopeTerminator];
      && ('/' !in dateStamp ==> Split(Join(parts, "/"), '/') == parts)
      && (NoNewline(dateStamp) ==> NoNewline(Join(parts, "/")))
  {
    var parts := [dateStamp, Region, Service, ScopeTerminator];
    ScopeConstantsFreeOf('/');
    ScopeConstantsFreeOf('\n');
    if '/' !in dateStamp {
      SplitJoin(parts, '/');
    }
    if NoNewline(dateStamp) {
      JoinFreeOf(parts, "/", '\n');
    }
  }

  lemma ScopeConstantsFreeOf(ch: char)
    requires ch == '/' || ch == '\n'
    ensures ch !in Region && ch !in Service && ch !in ScopeTerminator
  {
  }

  /** The scope written out: the date stamp, then `/auto/s3/aws4_request`. */
  lemma ScopeText(dateStamp: string)
    ensures CredentialScope(dateStamp) == dateStamp + "/auto/s3/aws4_request"
  {
    JoinFour(dateStamp, Region, Service, ScopeTerminator, "/");
    ScopeSuffix();
    assert dateStamp + "/" + Region + "/" + Service + "/" + ScopeTerminator
        == dateStamp + ("/" + Region + "/" + Service + "/" + ScopeTerminator);
  }

  /** The constant tail of every scope, spelled out. */
  lemma ScopeSuffix()
    ensures "/" + Region + "/" + Service + "/" + ScopeTerminator == "/auto/s3/aws4_request"
  {
    assert "/" + Region + "/" + Service == "/auto/s3";
  }

  /** `name:value`, one canonical header line without its newline. */
  function HeaderLine(f: Field): string {
    f.name + ":" + f.value
  }

  function HeaderLines(hs: seq<Field>): (r: seq<string>)
    ensures |r| == |hs| && forall i :: 0 <= i < |hs| ==> r[i] == HeaderLine(hs[i])
  {
    if |hs| == 0 then [] else [HeaderLine(hs[0])] + HeaderLines(hs[1..])
  }

  /** The canonical-header block: every header as `name:value\n`, in list order. */
  function CanonicalHeaders(hs: seq<Field>): string {
    if |hs| == 0 then "" else HeaderLine(hs[0]) + "\n" + CanonicalHeaders(hs[1..])
  }

  /** `signedHeaders`: the header names of the block, in the same order, joined by `;`. */
  function SignedHeaders(hs: seq<Field>): string {
    Join(Names(hs), ";")
  }

  /** The block is its lines joined by newlines, with one final newline. */
  lemma {:induction false} CanonicalHeadersAsJoin(hs: seq<Field>)
    ensures CanonicalHeaders(hs) == Join(HeaderLines(hs) + [""], "\n")
  {
    if |hs| > 0 {
      CanonicalHeadersAsJoin(hs[1..]);
      assert HeaderLines(hs) + [""] == [HeaderLine(hs[0])] + (HeaderLines(hs[1..]) + [""]);
    }
  }

  /** The canonical-header block and the signed-header list name the same
      headers in the same order: the i-th `;`-separated name is the name the
      i-th header line starts with. */
  lemma SignedHeadersMatchBlock(hs: seq<Field>)
    requires |hs| >= 1
    requires forall i :: 0 <= i < |hs| ==> ';' !in hs[i].name
    ensures |Split(SignedHeaders(hs), ';')| == |HeaderLines(hs)|
    ensures forall i :: 0 <= i < |hs| ==>
      var n := Split(SignedHeaders(hs), ';')[i];
      |n| < |HeaderLines(hs)[i]| && HeaderLines(hs)[i][..|n| + 1] == n + ":"
  {
    SplitJoin(Names(hs), ';');
    forall i | 0 <= i < |hs|
      ensures HeaderLines(hs)[i][..|hs[i].name| + 1] == hs[i].name + ":"
    {
      assert HeaderLines(hs)[i] == hs[i].name + ":" + hs[i].value;
    }
  }

  /** The canonical request: method, URI, query, header block, signed-header
      list and payload hash, joined by newlines. */
  function CanonicalRequest(verb: string, uri: string, query: string, hs: seq<Field>, payloadHash: string): string {
    Join([verb, uri, query, CanonicalHeaders(hs), SignedHeaders(hs), payloadHash], "\n")
  }

  predicate FieldsFreeOf(hs: seq<Field>, ch: char) {
    forall i :: 0 <= i < |hs| ==> ch !in hs[i].name && ch !in hs[i].value
  }

  lemma {:induction false} HeaderLinesNoNewline(hs: seq<Field>)
    requires FieldsFreeOf(hs, '\n')
    ensures forall i :: 0 <= i < |hs| ==> NoNewline(HeaderLines(hs)[i])
  {
    forall i | 0 <= i < |hs|
      ensures NoNewline(HeaderLines(hs)[i])
    {
      assert HeaderLines(hs)[i] == hs[i].name + [':'] + hs[i].value;
    }
  }

  /** Read line by line, the canonical request is exactly: method, URI, query,
      one line per header, the blank line closing the block, the signed-header
      list, the payload hash. No component can spill into its neighbour. */
  lemma CanonicalRequestLines(verb: string, uri: string, query: string, hs: seq<Field>, payloadHash: string)
    requires NoNewline(verb) && NoNewline(uri) && NoNewline(query) && NoNewline(payloadHash)
    requires FieldsFreeOf(hs, '\n')
    ensures Split(CanonicalRequest(verb, uri, query, hs, payloadHash), '\n')
         == [verb, uri, query] + HeaderLines(hs) + ["", SignedHeaders(hs), payloadHash]
  {
    var lines := [verb, uri, query] + HeaderLines(hs) + ["", SignedHeaders(hs), payloadHash];
    CanonicalRequestAsLines(verb, uri, query, hs, payloadHash);
    JoinFreeOf(Names(hs), ";", '\n');
    HeaderLinesNoNewline(hs);
    forall i | 0 <= i < |lines|
      ensures '\n' !in lines[i]
    {
      if 3 <= i < 3 + |hs| {
        assert lines[i] == HeaderLines(hs)[i - 3];
      }
    }
    SplitJoin(lines, '\n');
  }

  /** The canonical request is its lines joined by newlines, the header block
      contributing one line per header and a blank one. */
  lemma CanonicalRequestAsLines(verb: string, uri: string, query: string, hs: seq<Field>, payloadHash: string)
    ensures CanonicalRequest(verb, uri, query, hs, payloadHash)
         == Join([verb, uri, query] + HeaderLines(hs) + ["", SignedHeaders(hs), payloadHash], "\n")
  {
    var pre := [verb, uri, query];
    var post := [SignedHeaders(hs), payloadHash];
    var block := HeaderLines(hs) + [""];
    CanonicalHeadersAsJoin(hs);
    assert [verb, uri, query, CanonicalHeaders(hs), SignedHeaders(hs), payloadHash]
        == (pre + [CanonicalHeaders(hs)]) + post;
    JoinConcat(pre + [CanonicalHeaders(hs)], post, "\n");
    JoinConcat(pre, [CanonicalHeaders(hs)], "\n");
    JoinConcat(pre, block, "\n");
    JoinConcat(pre + block, post, "\n");
    assert pre + block + post == [verb, uri, query] + HeaderLines(hs) + ["", SignedHeaders(hs), payloadHash];
  }

  /** The string to sign: algorithm, `amzDate`, scope, and the hex SHA-256 of
      the UTF-8 canonical request, joined by newlines. */
  function StringToSign(c: Crypto, amzDate: string, scope: string, canonicalRequest: string): string {
    Join([Algorithm, amzDate, scope, Sha256Hex(c, Utf8(canonicalRequest))], "\n")
  }

  /** The string to sign has exactly four lines, the last of which decodes to
      the digest of the canonical request. */
  lemma StringToSignLines(c: Crypto, amzDate: string, scope: string, canonicalRequest: string)
    requires NoNewline(amzDate) && NoNewline(scope)
    ensures var lines := Split(StringToSign(c, amzDate, scope, canonicalRequest), '\n');
      |lines| == 4 && lines[..3] == [Algorithm, amzDate, scope]
      && FromHex(lines[3]) == Some(c.sha256(Utf8(canonicalRequest)))
  {
    SplitJoin([Algorithm, amzDate, scope, Sha256Hex(c, Utf8(canonicalRequest))], '\n');
  }

  /** `toHex(hmacSha256(signingKey, stringToSign))`: decodes to the MAC of the
      string to sign under the key, and is twice as long as that MAC. */
  function Signature(c: Crypto, signingKey: seq<byte>, stringToSign: string): (r: string)
    ensures FromHex(r) == Some(c.hmacSha256(signingKey, stringToSign))
    ensures |r| == 2 * |c.hmacSha256(signingKey, stringToSign)|
    ensures forall i :: 0 <= i < |r| ==> IsLowerHex(r[i])
  {
    HexRoundTrip(c.hmacSha256(signingKey, stringToSign));
    ToHex(c.hmacSha256(signingKey, stringToSign))
  }

  /** What signing a canonical request produces. */
  datatype SigningPass = SigningPass(stringToSign: string, signature: string)

  /** The string to sign for a request dated `dateStamp`/`amzDate`: four
      lines, the algorithm, the timestamp, the scope and the digest of the
      canonical request. */
  function ScopedStringToSign(c: Crypto, dateStamp: string, amzDate: string, canonicalRequest: string): (sts: string)
    ensures (NoNewline(dateStamp) && NoNewline(amzDate)) ==>
      var lines := Split(sts, '\n');
      |lines| == 4 && lines[0] == Algorithm && lines[1] == amzDate
      && lines[2] == dateStamp + "/auto/s3/aws4_request"
      && FromHex(lines[3]) == Some(c.sha256(Utf8(canonicalRequest)))
  {
    var scope := CredentialScope(dateStamp);
    if NoNewline(dateStamp) && NoNewline(amzDate) then
      ScopeText(dateStamp);
      StringToSignLines(c, amzDate, scope, canonicalRequest);
      StringToSign(c, amzDate, scope, canonicalRequest)
    else StringToSign(c, amzDate, scope, canonicalRequest)
  }

  /** The signing pass both edge functions run once they hold a canonical
      request: the string to sign for the request's dates, and its MAC under
      the key derived from `"AWS4" + secretKey`, the date stamp, `auto`, `s3`
      and `aws4_request`. */
  function SignCanonicalRequest(c: Crypto, secretKey: string, dateStamp: string, amzDate: string,
                                canonicalRequest: string): (p: SigningPass)
    ensures p.stringToSign == ScopedStringToSign(c, dateStamp, amzDate, canonicalRequest)
    ensures var key := c.hmacSha256(c.hmacSha256(c.hmacSha256(c.hmacSha256(Utf8("AWS4" + secretKey), dateStamp), "auto"), "s3"), "aws4_request");
      FromHex(p.signature) == Some(c.hmacSha256(key, p.stringToSign))
    ensures forall i :: 0 <= i < |p.signature| ==> IsLowerHex(p.signature[i])
  {
    var stringToSign := ScopedStringToSign(c, dateStamp, amzDate, canonicalRequest);
    var signingKey := SigningKey(c, secretKey, dateStamp, Region, Service);
    SigningPass(stringToSign, Signature(c, signingKey, stringToSign))
  }

  /** The `Authorization` header value of a header-signed request: the
      credential, the signed-header list and the signature, separated by `, `. */
  function Authorization(accessKeyId: string, scope: string, signedHeaders: string, signature: string): string {
    Join([Algorithm + " Credential=" + accessKeyId + "/" + scope,
          " SignedHeaders=" + signedHeaders,
          " Signature=" + signature], ",")
  }

  /** Split at its commas, the header value is exactly the credential, the
      signed-header list and the signature parts, each tagged by its label. */
  lemma AuthorizationParts(accessKeyId: string, scope: string, signedHeaders: string, signature: string)
    requires ',' !in accessKeyId && ',' !in scope && ',' !in signedHeaders && ',' !in signature
    ensures Split(Authorization(accessKeyId, scope, signedHeaders, signature), ',')
         == [Algorithm + " Credential=" + accessKeyId + "/" + scope,
             " SignedHeaders=" + signedHeaders,
             " Signature=" + signature]
  {
    assert ',' !in Algorithm + " Credential=" by {
      assert Algorithm + " Credential=" == "AWS4-HMAC-SHA256 Credential=";
    }
    assert ',' !in " SignedHeaders=" && ',' !in " Signature=";
    SplitJoin([Algorithm + " Credential=" + accessKeyId + "/" + scope,
               " SignedHeaders=" + signedHeaders,
               " Signature=" + signature], ',');
  }
}
