/** The `generate-presigned-url` edge function: instead of carrying the file,
    the server signs a PUT URL with SigV4 query-string authentication and the
    browser uploads to the store with it. Same pipeline as the proxied upload,
    with the payload left unsigned, two signed headers, and the signature
    carried as the last query parameter. */
module PresignedUrl {
  import opened Wrappers
  import opened Text
  import opened Hex
  import opened Fields
  import opened UtcDate
  import opened SigV4
  import opened ObjectKey
  import opened Edge
  import opened FormUrlEncoded

  /** The JSON body; None for a field that is absent. */
  datatype PresignRequest = PresignRequest(fileName: Option<string>, fileType: Option<string>, folder: Option<string>)

  /** `expiresIn.toString()`: the URL is valid for an hour. */
  const ExpiresIn: string := "3600"

  /** The signed-header list of every presigned URL, `host;x-amz-acl`. */
  const PresignSignedHeaders: string := "host" + ";" + "x-amz-acl"

  /** The payload-hash sentinel of a request whose body is not signed. */
  const UnsignedPayload: string := "UNSIGNED-PAYLOAD"

  /** The parameter appended after signing. */
  const SignatureParam: string := "X-Amz-Signature"

  /** A SigV4 query parameter name: `X-Amz-` followed by `suffix`. */
  function AmzParam(suffix: string): string {
    "X-Amz-" + suffix
  }

  /** `${accessKeyId}/${credentialScope}`. */
  function Credential(accessKeyId: string, dateStamp: string): string {
    accessKeyId + "/" + CredentialScope(dateStamp)
  }

  /** The six parameters given to `new URLSearchParams`, in insertion order. */
  function QueryParams(accessKeyId: string, dateStamp: string, amzDate: string): seq<Field> {
    [ Field(AmzParam("Algorithm"), Algorithm),
      Field(AmzParam("Credential"), Credential(accessKeyId, dateStamp)),
      Field(AmzParam("Date"), amzDate),
      Field(AmzParam("Expires"), ExpiresIn),
      Field(AmzParam("SignedHeaders"), PresignSignedHeaders),
      Field("x-amz-acl", PublicRead) ]
  }

  /** Two `X-Amz-` names whose suffixes differ in their first letter are
      ordered by that letter. */
  lemma AmzParamsAscend(a: string, b: string)
    requires |a| > 0 && |b| > 0 && a[0] < b[0]
    ensures NameLe(AmzParam(a), AmzParam(b))
  {
    NameLeCommonPrefix("X-Amz-", a, b);
  }

  /** The insertion order is already the sorted order SigV4 asks of a
      canonical query: `X-Amz-Algorithm` < `X-Amz-Credential` < `X-Amz-Date`
      < `X-Amz-Expires` < `X-Amz-SignedHeaders` < `x-amz-acl`. */
  lemma QueryParamsSorted(accessKeyId: string, dateStamp: string, amzDate: string)
    ensures SortedByName(QueryParams(accessKeyId, dateStamp, amzDate))
  {
    var ps := QueryParams(accessKeyId, dateStamp, amzDate);
    QueryNamesAscend();
    SortedSix(ps);
  }

  /** Six fields whose neighbours are in order are sorted. */
  lemma SortedSix(fs: seq<Field>)
    requires |fs| == 6
    requires NameLe(fs[0].name, fs[1].name) && NameLe(fs[1].name, fs[2].name)
    requires NameLe(fs[2].name, fs[3].name) && NameLe(fs[3].name, fs[4].name)
    requires NameLe(fs[4].name, fs[5].name)
    ensures SortedByName(fs)
  {
    NeighboursSorted(fs);
  }

  /** The six parameter names, neighbour by neighbour. */
  lemma QueryNamesAscend()
    ensures NameLe(AmzParam("Algorithm"), AmzParam("Credential"))
    ensures NameLe(AmzParam("Credential"), AmzParam("Date"))
    ensures NameLe(AmzParam("Date"), AmzParam("Expires"))
    ensures NameLe(AmzParam("Expires"), AmzParam("SignedHeaders"))
    ensures NameLe(AmzParam("SignedHeaders"), "x-amz-acl")
  {
    AmzParamsAscend("Algorithm", "Credential");
    AmzParamsAscend("Credential", "Date");
    AmzParamsAscend("Date", "Expires");
    AmzParamsAscend("Expires", "SignedHeaders");
    assert AmzParam("SignedHeaders")[0] == 'X';
  }

  /** The two headers the URL signs. */
  function PresignHeaders(host: string): seq<Field> {
    [Field("host", host), Field("x-amz-acl", PublicRead)]
  }

  /** `host:${host}\nx-amz-acl:public-read\n`, the block as the handler writes it. */
  function PresignHeaderBlock(host: string): string {
    "host:" + host + "\n" + "x-amz-acl:public-read" + "\n"
  }

  /** The two canonical header lines, spelled out. */
  lemma PresignHeaderLines(host: string)
    ensures var hs := PresignHeaders(host);
      HeaderLine(hs[0]) == "host:" + host && HeaderLine(hs[1]) == "x-amz-acl:public-read"
  {
    assert "host" + ":" == "host:";
    assert "host" + ":" + host == "host:" + host;
  }

  /** The hand-written block is the canonical block of the two signed
      headers, and `host;x-amz-acl` is their signed-header list, which is also
      the value of the `X-Amz-SignedHeaders` parameter. */
  lemma PresignHeadersCanonical(host: string)
    ensures PresignHeaderBlock(host) == CanonicalHeaders(PresignHeaders(host))
    ensures SignedHeaders(PresignHeaders(host)) == PresignSignedHeaders
  {
    var hs := PresignHeaders(host);
    PresignHeaderLines(host);
    assert CanonicalHeaders(hs[1..][1..]) == "";
    assert CanonicalHeaders(hs[1..]) == "x-amz-acl:public-read" + "\n";
    assert CanonicalHeaders(hs) == "host:" + host + "\n" + ("x-amz-acl:public-read" + "\n");
    assert Names(hs) == ["host", "x-amz-acl"];
    assert ["host", "x-amz-acl"][1..] == ["x-amz-acl"];
  }

  /** The canonical request joined as the handler writes it: `PUT`, the URI,
      the serialised query, the header block, `host;x-amz-acl` and
      `UNSIGNED-PAYLOAD`. It is the shared SigV4 canonical request of the two
      signed headers with the unsigned-payload sentinel. */
  function PresignCanonicalRequest(canonicalUri: string, query: string, host: string): (cr: string)
    ensures cr == CanonicalRequest("PUT", canonicalUri, query, PresignHeaders(host), UnsignedPayload)
  {
    PresignHeadersCanonical(host);
    Join(["PUT", canonicalUri, query, PresignHeaderBlock(host), PresignSignedHeaders, UnsignedPayload], "\n")
  }

  /** Read line by line, the presign canonical request is the method, the
      URI, the query, the two header lines, the blank line, the signed-header
      list and the sentinel. */
  lemma PresignRequestLines(canonicalUri: string, query: string, host: string)
    requires NoNewline(canonicalUri) && NoNewline(query) && NoNewline(host)
    ensures Split(PresignCanonicalRequest(canonicalUri, query, host), '\n')
         == ["PUT", canonicalUri, query, "host:" + host, "x-amz-acl:public-read", "", "host;x-amz-acl", "UNSIGNED-PAYLOAD"]
  {
    var hs := PresignHeaders(host);
    PresignHeadersFree(host);
    SentinelsFree();
    CanonicalRequestLines("PUT", canonicalUri, query, hs, UnsignedPayload);
    PresignLineList(canonicalUri, query, host);
  }

  /** Neither signed header holds a line break when the host does not. */
  lemma PresignHeadersFree(host: string)
    requires NoNewline(host)
    ensures FieldsFreeOf(PresignHeaders(host), '\n')
  {
  }

  lemma SentinelsFree()
    ensures NoNewline("PUT") && NoNewline(UnsignedPayload)
  {
  }

  /** The generic line list of the canonical request, written out for the
      two presign headers. */
  lemma PresignLineList(canonicalUri: string, query: string, host: string)
    ensures var hs := PresignHeaders(host);
      [ "PUT", canonicalUri, query] + HeaderLines(hs) + ["", SignedHeaders(hs), UnsignedPayload]
      == ["PUT", canonicalUri, query, "host:" + host, "x-amz-acl:public-read", "", "host;x-amz-acl", "UNSIGNED-PAYLOAD"]
  {
    var hs := PresignHeaders(host);
    PresignHeaderLines(host);
    PresignHeadersCanonical(host);
    assert HeaderLines(hs) == ["host:" + host, "x-amz-acl:public-read"];
    assert PresignSignedHeaders == "host;x-amz-acl";
  }

  /** Everything one signing pass computes. */
  datatype Presignature = Presignature(
    dateStamp: string,
    amzDate: string,
    canonicalUri: string,
    params: seq<Field>,
    canonicalRequest: string,
    pass: SigningPass,
    presignedUrl: string)

  /** From host, key and signing instant to the presigned URL: the dates of
      the instant, the pathname of `/{bucket}/{key}` as the canonical URI and
      the six parameters for those dates, signed by `SignQuery`. */
  function Presign(c: Crypto, url: UrlLib, cfg: StorageConfig, host: string, key: string, now: UtcInstant): (p: Presignature)
    ensures p.dateStamp == DateStamp(now) && p.amzDate == AmzDate(now)
    ensures p.canonicalUri == url.pathname(cfg.endpoint, ObjectPath(cfg.bucketName, key))
    ensures p.params == QueryParams(cfg.accessKeyId, p.dateStamp, p.amzDate)
    ensures |p.dateStamp| <= |p.amzDate| && p.amzDate[..|p.dateStamp|] == p.dateStamp
    ensures p.canonicalRequest
         == CanonicalRequest("PUT", p.canonicalUri, Serialize(p.params), PresignHeaders(host), UnsignedPayload)
    ensures p.pass == SignCanonicalRequest(c, cfg.secretAccessKey, p.dateStamp, p.amzDate, p.canonicalRequest)
    ensures p.presignedUrl
         == url.href(cfg.endpoint, ObjectPath(cfg.bucketName, key)) + "?"
            + (Serialize(p.params) + "&" + SignatureParam + "=" + p.pass.signature)
  {
    var dateStamp := DateStamp(now);
    var amzDate := AmzDate(now);
    SignQuery(c, cfg.secretAccessKey, url.href(cfg.endpoint, ObjectPath(cfg.bucketName, key)),
              url.pathname(cfg.endpoint, ObjectPath(cfg.bucketName, key)), host, dateStamp, amzDate,
              QueryParams(cfg.accessKeyId, dateStamp, amzDate))
  }

  /** Signs a parameter list for the object at `href`: the canonical request
      is the shared SigV4 one over the serialised parameters, the two headers
      and `UNSIGNED-PAYLOAD`; the signing pass is the shared one; the URL is
      `href`, `?`, the query that was signed, and then `&X-Amz-Signature=`
      with the signature. */
  function SignQuery(c: Crypto, secretKey: string, href: string, canonicalUri: string, host: string,
                     dateStamp: string, amzDate: string, params: seq<Field>): (p: Presignature)
    requires |params| >= 1
    ensures p.dateStamp == dateStamp && p.amzDate == amzDate
    ensures p.canonicalUri == canonicalUri && p.params == params
    ensures p.canonicalRequest
         == CanonicalRequest("PUT", canonicalUri, Serialize(params), PresignHeaders(host), UnsignedPayload)
    ensures p.pass == SignCanonicalRequest(c, secretKey, dateStamp, amzDate, p.canonicalRequest)
    ensures p.presignedUrl == href + "?" + (Serialize(params) + "&" + SignatureParam + "=" + p.pass.signature)
  {
    var canonicalRequest := PresignCanonicalRequest(canonicalUri, Serialize(params), host);
    var pass := SignCanonicalRequest(c, secretKey, dateStamp, amzDate, canonicalRequest);
    Presignature(dateStamp, amzDate, canonicalUri, params, canonicalRequest, pass,
                 href + "?" + SignedQuery(params, pass.signature))
  }

  /** `queryParams.append("X-Amz-Signature", signature)` followed by
      `toString()`: the serialised parameters, then the signature pair written
      verbatim, since neither its name nor a lower-case hex signature needs
      escaping. */
  function SignedQuery(params: seq<Field>, signature: string): (q: string)
    requires |params| >= 1
    requires forall i :: 0 <= i < |signature| ==> IsLowerHex(signature[i])
    ensures q == Serialize(params) + "&" + SignatureParam + "=" + signature
  {
    SignatureParamSafe();
    LowerHexFormSafe(signature);
    AppendVerbatim(params, SignatureParam, signature);
    Serialize(params + [Field(SignatureParam, signature)])
  }

  lemma SignatureParamSafe()
    ensures FormSafe(SignatureParam)
  {
  }

  /** The query of the presigned URL holds seven pairs: the six that were
      signed, in order, and the signature pair last. The signature is not part
      of what it signs. */
  lemma PresignedQueryPairs(params: seq<Field>, signature: string)
    requires |params| >= 1
    requires forall i :: 0 <= i < |signature| ==> IsLowerHex(signature[i])
    ensures Split(SignedQuery(params, signature), '&') == Pairs(params) + [SignatureParam + "=" + signature]
  {
    SignatureParamSafe();
    LowerHexFormSafe(signature);
    AppendedPairs(params, SignatureParam, signature);
  }

  /** The scope in `X-Amz-Credential` is the scope line of the string to
      sign, the timestamp in `X-Amz-Date` is its timestamp line, and both
      come from one date stamp, which `X-Amz-Date` starts with. */
  lemma ScopeAgrees(c: Crypto, accessKeyId: string, now: UtcInstant, canonicalRequest: string)
    ensures var dateStamp, amzDate := DateStamp(now), AmzDate(now);
      var params := QueryParams(accessKeyId, dateStamp, amzDate);
      var lines := Split(ScopedStringToSign(c, dateStamp, amzDate, canonicalRequest), '\n');
      && |lines| == 4
      && params[1].value == accessKeyId + "/" + lines[2]
      && lines[1] == params[2].value
      && |dateStamp| <= |amzDate| && amzDate[..|dateStamp|] == dateStamp
  {
    TimestampsHaveNoNewline(now);
    ScopeText(DateStamp(now));
  }

  /** The handler's answer. */
  datatype PresignResponse =
    | Presigned(presignedUrl: string, publicUrl: string, fileName: string)
    | MissingParameters
    | NotConfigured
    | PresignFailed(details: string)
  {
    function Status(): nat {
      match this
      case Presigned(_, _, _) => 200
      case MissingParameters => 400
      case NotConfigured => 500
      case PresignFailed(_) => 500
    }

    /** The `error` member of the JSON body, absent on success. */
    function ErrorText(): Option<string> {
      match this
      case Presigned(_, _, _) => None
      case MissingParameters => Some("Missing fileName or fileType")
      case NotConfigured => Some("Server storage is not configured")
      case PresignFailed(_) => Some("Failed to generate presigned URL")
    }
  }

  /** Both required parameters are present and non-empty. */
  predicate HasParameters(req: PresignRequest) {
    Truthy(req.fileName) && Truthy(req.fileType)
  }

  /** The request passes both gates. */
  predicate Accepted(request: Completion<PresignRequest>, cfg: StorageConfig) {
    request.Normal? && HasParameters(request.value) && cfg.Complete()
  }

  /** `uniqueFileName`: folder (`"uploads"` when absent), clock reading,
      random token and the extension of the file name. */
  function PresignKey(req: PresignRequest, env: Ambient): string
    requires Truthy(req.fileName)
  {
    Key(req.folder.GetOr(DefaultFolder), env.nowMillis, env.randomToken, req.fileName.value)
  }

  /** One request to `generate-presigned-url`. `request` is the parsed JSON
      body (abrupt when it does not parse); the endpoint may fail to parse.

      The handler answers 400 exactly when a parameter is missing and 500 "not
      configured" exactly when a complete request meets an incomplete
      configuration. On success the key is one and the same in the returned
      `fileName`, the public URL and the signed URL. */
  function HandlePresign(c: Crypto, url: UrlLib, cfg: StorageConfig, request: Completion<PresignRequest>,
                         env: Ambient): (r: PresignResponse)
    ensures r.MissingParameters? <==> request.Normal? && !HasParameters(request.value)
    ensures r.NotConfigured? <==> request.Normal? && HasParameters(request.value) && !cfg.Complete()
    ensures request.Abrupt? ==> r == PresignFailed(request.message)
    ensures r.Presigned? <==> Accepted(request, cfg) && url.host(cfg.endpoint).Normal?
    ensures Accepted(request, cfg) && url.host(cfg.endpoint).Abrupt? ==>
      r == PresignFailed(url.host(cfg.endpoint).message)
    ensures r.Presigned? ==>
      && r.fileName == PresignKey(request.value, env)
      && r.publicUrl == PublicUrl(cfg.publicBaseUrl, r.fileName)
      && r.presignedUrl == Presign(c, url, cfg, url.host(cfg.endpoint).value, r.fileName, env.now).presignedUrl
  {
    if request.Abrupt? then PresignFailed(request.message)
    else if !HasParameters(request.value) then MissingParameters
    else if !cfg.Complete() then NotConfigured
    else if url.host(cfg.endpoint).Abrupt? then PresignFailed(url.host(cfg.endpoint).message)
    else
      Presigned(Presign(c, url, cfg, url.host(cfg.endpoint).value, PresignKey(request.value, env), env.now).presignedUrl,
                PublicUrl(cfg.publicBaseUrl, PresignKey(request.value, env)),
                PresignKey(request.value, env))
  }
}
