/** The `upload-to-r2` edge function: the server receives the file as base64,
    signs a PUT with an `Authorization` header and forwards it to the store. */
module ProxyUpload {
  import opened Wrappers
  import opened Bytes
  import opened Text
  import opened Hex
  import opened Fields
  import opened UtcDate
  import opened SigV4
  import opened ObjectKey
  import opened Edge
  import Decimal

  /** The `file` object of the JSON body; None for a field that is absent. */
  datatype FileData = FileData(name: Option<string>, fileType: Option<string>, base64: Option<string>)

  datatype UploadRequest = UploadRequest(file: Option<FileData>, folder: Option<string>)

  /** The request carries a file with non-empty `base64`, `name` and `type`. */
  predicate HasFileData(file: Option<FileData>) {
    file.Some? && Truthy(file.value.base64) && Truthy(file.value.name) && Truthy(file.value.fileType)
  }

  /** `file.base64.split(",")[1] || file.base64`: the payload after a data-URL
      header, or the whole text when there is no non-empty second piece. */
  function Base64Payload(s: string): (r: string)
    ensures r == s || (r != "" && ',' !in r)
    ensures SecondPiece(s, r)
  {
    var parts := Split(s, ',');
    var r := if |parts| >= 2 && parts[1] != "" then parts[1] else s;
    assert ',' !in s ==> r == s by {
      if ',' !in s { SplitWithout(s, ','); }
    }
    assert forall i :: 0 <= i < |s| && s[i] == ',' && ',' !in s[..i] ==>
      if RunAfter(s, i, "") then r == s else r != "" && RunAfter(s, i, r)
    by {
      forall i | 0 <= i < |s| && s[i] == ',' && ',' !in s[..i]
        ensures if RunAfter(s, i, "") then r == s else r != "" && RunAfter(s, i, r)
      {
        FirstCommaRun(s, i);
        EmptyRun(s, i, parts[1]);
      }
    }
    r
  }

  /** `r` is what the handler decodes from `s`: all of `s` when it has no
      comma, or when nothing but a comma or the end follows its first comma;
      otherwise the non-empty comma-free run right after the first comma. */
  predicate SecondPiece(s: string, r: string) {
    && (',' !in s ==> r == s)
    && forall i :: 0 <= i < |s| && s[i] == ',' && ',' !in s[..i] ==>
         if RunAfter(s, i, "") then r == s else r != "" && RunAfter(s, i, r)
  }

  /** `r` is the comma-free run of `s` that starts just after position `i`
      and stops at the next comma or at the end. */
  predicate RunAfter(s: string, i: nat, r: string) {
    && i + 1 + |r| <= |s| && s[i + 1..i + 1 + |r|] == r && ',' !in r
    && (i + 1 + |r| == |s| || s[i + 1 + |r|] == ',')
  }

  /** A run after position `i` is empty exactly when the empty run is one. */
  lemma EmptyRun(s: string, i: nat, p: string)
    requires RunAfter(s, i, p)
    ensures p == "" <==> RunAfter(s, i, "")
  {
    if p != "" {
      assert s[i + 1] == p[0];
    }
  }

  /** Split at commas, the second piece is the run after the first comma. */
  lemma FirstCommaRun(s: string, i: nat)
    requires i < |s| && s[i] == ',' && ',' !in s[..i]
    ensures |Split(s, ',')| >= 2 && RunAfter(s, i, Split(s, ',')[1])
  {
    var t := s[i + 1..];
    assert s == s[..i] + [','] + t;
    SplitAfter(s[..i], t, ',');
    SplitFirst(t, ',');
    var p := Split(t, ',')[0];
    assert s[i + 1..i + 1 + |p|] == t[..|p|];
  }

  /** A data URL `header,payload` yields exactly its payload. */
  lemma DataUrlPayload(header: string, payload: string)
    requires ',' !in header && ',' !in payload && payload != ""
    ensures Base64Payload(header + "," + payload) == payload
  {
    SplitAfter(header, payload, ',');
    SplitWithout(payload, ',');
  }

  /** The signed-header list of every upload, `content-type;host;x-amz-acl;x-amz-content-sha256;x-amz-date`:
      the `SignedHeaders=` part of the authorization and the next-to-last
      canonical-request line. */
  const SignedHeaderList: string :=
    "content-type" + ";" + "host" + ";" + "x-amz-acl" + ";" + "x-amz-content-sha256" + ";" + "x-amz-date"

  /** `canonicalHeadersMap`, in the order the handler writes its keys. */
  function HeaderRecord(contentType: string, host: string, payloadHash: string, amzDate: string): seq<Field> {
    [ Field("content-type", contentType),
      Field("host", host),
      Field("x-amz-acl", PublicRead),
      Field("x-amz-content-sha256", payloadHash),
      Field("x-amz-date", amzDate) ]
  }

  /** The record is written in sorted order already, so `sort()` keeps it as
      it is. */
  lemma HeaderRecordSorted(contentType: string, host: string, payloadHash: string, amzDate: string)
    ensures var hs := HeaderRecord(contentType, host, payloadHash, amzDate);
      SortByName(hs) == hs
  {
    var hs := HeaderRecord(contentType, host, payloadHash, amzDate);
    RecordAscends(contentType, host, payloadHash, amzDate);
    SortedFive(hs);
    SortSortedIsIdentity(hs);
  }

  /** Neighbouring names of the record ascend. */
  lemma RecordAscends(contentType: string, host: string, payloadHash: string, amzDate: string)
    ensures var hs := HeaderRecord(contentType, host, payloadHash, amzDate);
      NameLe(hs[0].name, hs[1].name) && NameLe(hs[1].name, hs[2].name)
      && NameLe(hs[2].name, hs[3].name) && NameLe(hs[3].name, hs[4].name)
  {
    SignedHeaderNamesAscend();
  }

  /** Five fields whose neighbours are in order are sorted. */
  lemma SortedFive(hs: seq<Field>)
    requires |hs| == 5
    requires NameLe(hs[0].name, hs[1].name) && NameLe(hs[1].name, hs[2].name)
    requires NameLe(hs[2].name, hs[3].name) && NameLe(hs[3].name, hs[4].name)
    ensures SortedByName(hs)
  {
    NeighboursSorted(hs);
  }

  /** The record's names joined by `;` are the five signed headers. */
  lemma HeaderRecordSignedHeaders(contentType: string, host: string, payloadHash: string, amzDate: string)
    ensures SignedHeaders(HeaderRecord(contentType, host, payloadHash, amzDate)) == SignedHeaderList
  {
    var hs := HeaderRecord(contentType, host, payloadHash, amzDate);
    assert Names(hs) == ["content-type", "host", "x-amz-acl", "x-amz-content-sha256", "x-amz-date"];
    SignedHeaderListSpelled();
  }

  /** `SignedHeaderList` is the five names joined by `;`. */
  lemma SignedHeaderListSpelled()
    ensures Join(["content-type", "host", "x-amz-acl", "x-amz-content-sha256", "x-amz-date"], ";") == SignedHeaderList
  {
    JoinFive("content-type", "host", "x-amz-acl", "x-amz-content-sha256", "x-amz-date", ";");
  }

  /** `Object.keys(canonicalHeadersMap).sort()` paired with the values: the
      record exactly as written, whose names join to `SignedHeaderList`. */
  function SortedHeaders(contentType: string, host: string, payloadHash: string, amzDate: string): (hs: seq<Field>)
    ensures hs == HeaderRecord(contentType, host, payloadHash, amzDate)
    ensures SignedHeaders(hs) == SignedHeaderList
  {
    HeaderRecordSorted(contentType, host, payloadHash, amzDate);
    HeaderRecordSignedHeaders(contentType, host, payloadHash, amzDate);
    SortByName(HeaderRecord(contentType, host, payloadHash, amzDate))
  }

  /** The five signed header names, as written, ascend. */
  lemma SignedHeaderNamesAscend()
    ensures NameLe("content-type", "host")
    ensures NameLe("host", "x-amz-acl")
    ensures NameLe("x-amz-acl", "x-amz-content-sha256")
    ensures NameLe("x-amz-content-sha256", "x-amz-date")
  {
    assert NameLe("acl", "content-sha256");
    NameLeCommonPrefix("x-amz-", "acl", "content-sha256");
    assert "x-amz-" + "acl" == "x-amz-acl";
    assert "x-amz-" + "content-sha256" == "x-amz-content-sha256";
    assert NameLe("content-sha256", "date");
    NameLeCommonPrefix("x-amz-", "content-sha256", "date");
    assert "x-amz-" + "date" == "x-amz-date";
  }

  /** The PUT sent to the store. */
  datatype StorePut = StorePut(url: string, headers: seq<Field>, body: seq<byte>)

  /** Some header of `sent` has `f`'s name (compared case-insensitively) and
      exactly `f`'s value. */
  predicate Carries(sent: seq<Field>, f: Field) {
    exists k :: 0 <= k < |sent| && AsciiLower(sent[k].name) == f.name && sent[k].value == f.value
  }

  /** Every field of `signed` is carried by `sent`. */
  predicate CarriesAll(sent: seq<Field>, signed: seq<Field>) {
    forall i :: 0 <= i < |signed| ==> Carries(sent, signed[i])
  }

  /** The `headers` object of the `fetch` call, in the order it is written. */
  function SentHeaders(host: string, contentType: string, payloadHash: string, amzDate: string, authorization: string): seq<Field> {
    [ Field("host", host),
      Field("Content-Type", contentType),
      Field("x-amz-acl", PublicRead),
      Field("x-amz-content-sha256", payloadHash),
      Field("x-amz-date", amzDate),
      Field("Authorization", authorization) ]
  }

  /** A name with no upper-case ASCII letter is its own case fold. */
  lemma LowerCaseName(s: string)
    requires forall i :: 0 <= i < |s| ==> !('A' <= s[i] <= 'Z')
    ensures AsciiLower(s) == s
  {
  }

  /** `Content-Type`, as the handler writes it, folds to the signed name. */
  lemma ContentTypeFolds()
    ensures AsciiLower("Content-Type") == "content-type"
  {
    var ct := AsciiLower("Content-Type");
    assert ct[0] == 'c' && ct[8] == 't';
  }

  /** `Authorization` folds to the name HTTP carries it under. */
  lemma AuthorizationFolds()
    ensures AsciiLower("Authorization") == "authorization"
  {
    var au := AsciiLower("Authorization");
    assert au[0] == 'a';
  }

  /** The four names the handler writes in lower case are their own folds. */
  lemma LowerNamesFold()
    ensures AsciiLower("host") == "host" && AsciiLower("x-amz-acl") == "x-amz-acl"
    ensures AsciiLower("x-amz-content-sha256") == "x-amz-content-sha256"
    ensures AsciiLower("x-amz-date") == "x-amz-date"
  {
    LowerCaseName("host");
    LowerCaseName("x-amz-acl");
    LowerCaseName("x-amz-content-sha256");
    LowerCaseName("x-amz-date");
  }

  lemma CarriesAt(sent: seq<Field>, k: nat, f: Field)
    requires k < |sent| && AsciiLower(sent[k].name) == f.name && sent[k].value == f.value
    ensures Carries(sent, f)
  {
  }

  /** The sent header at `k` is carried under the lower-case name `name`. */
  lemma SentCarries(host: string, contentType: string, payloadHash: string, amzDate: string, authorization: string,
                    k: nat, name: string)
    requires k < 6
    requires AsciiLower(SentHeaders(host, contentType, payloadHash, amzDate, authorization)[k].name) == name
    ensures var sent := SentHeaders(host, contentType, payloadHash, amzDate, authorization);
      Carries(sent, Field(name, sent[k].value))
  {
    var sent := SentHeaders(host, contentType, payloadHash, amzDate, authorization);
    CarriesAt(sent, k, Field(name, sent[k].value));
  }

  /** Every signed header is handed to `fetch` with the value that was
      signed, under a name that folds to the signed name, and so is the
      `Authorization` header. */
  lemma SentHeadersCarrySigned(host: string, contentType: string, payloadHash: string, amzDate: string, authorization: string)
    ensures var sent := SentHeaders(host, contentType, payloadHash, amzDate, authorization);
      CarriesAll(sent, HeaderRecord(contentType, host, payloadHash, amzDate))
      && Carries(sent, Field("authorization", authorization))
  {
    var sent := SentHeaders(host, contentType, payloadHash, amzDate, authorization);
    var signed := HeaderRecord(contentType, host, payloadHash, amzDate);
    ContentTypeFolds();
    AuthorizationFolds();
    LowerNamesFold();
    forall i | 0 <= i < |signed| ensures Carries(sent, signed[i]) {
      if i == 0 {
        SentCarries(host, contentType, payloadHash, amzDate, authorization, 1, "content-type");
      } else if i == 1 {
        SentCarries(host, contentType, payloadHash, amzDate, authorization, 0, "host");
      } else if i == 2 {
        SentCarries(host, contentType, payloadHash, amzDate, authorization, 2, "x-amz-acl");
      } else if i == 3 {
        SentCarries(host, contentType, payloadHash, amzDate, authorization, 3, "x-amz-content-sha256");
      } else {
        SentCarries(host, contentType, payloadHash, amzDate, authorization, 4, "x-amz-date");
      }
    }
    SentCarries(host, contentType, payloadHash, amzDate, authorization, 5, "authorization");
  }

  /** One signing pass of the handler, with its intermediate values. */
  datatype SignedUpload = SignedUpload(
    canonicalUri: string,
    payloadHash: string,
    dateStamp: string,
    amzDate: string,
    canonicalHeaders: seq<Field>,
    canonicalRequest: string,
    pass: SigningPass,
    authorization: string,
    put: StorePut)

  /** From host, key, content type, body bytes and the signing instant to the
      signed PUT: the payload hash is the body's digest, the headers are signed
      in the order written, the signature is the MAC under the key derived for
      `auto`/`s3`, and the PUT carries every signed header and the
      authorization built from them. */
  function SignUpload(c: Crypto, url: UrlLib, cfg: StorageConfig, host: string, key: string,
                      contentType: string, body: seq<byte>, now: UtcInstant): (s: SignedUpload)
    ensures FromHex(s.payloadHash) == Some(c.sha256(body))
    ensures s.dateStamp == DateStamp(now) && s.amzDate == AmzDate(now)
    ensures NoNewline(s.payloadHash) && NoNewline(s.amzDate)
    ensures s.canonicalUri == url.pathname(cfg.endpoint, ObjectPath(cfg.bucketName, key))
    ensures s.canonicalHeaders == HeaderRecord(contentType, host, s.payloadHash, s.amzDate)
    ensures s.canonicalRequest == UploadCanonicalRequest(s.canonicalUri, contentType, host, s.payloadHash, s.amzDate)
    ensures s.pass == SignCanonicalRequest(c, cfg.secretAccessKey, s.dateStamp, s.amzDate, s.canonicalRequest)
    ensures s.authorization
         == Authorization(cfg.accessKeyId, CredentialScope(s.dateStamp), SignedHeaderList, s.pass.signature)
    ensures s.put.url == url.href(cfg.endpoint, ObjectPath(cfg.bucketName, key)) && s.put.body == body
    ensures CarriesAll(s.put.headers, s.canonicalHeaders)
    ensures Carries(s.put.headers, Field("authorization", s.authorization))
  {
    var dateStamp := DateStamp(now);
    var amzDate := AmzDate(now);
    var canonicalUri := url.pathname(cfg.endpoint, ObjectPath(cfg.bucketName, key));
    var payloadHash := Sha256Hex(c, body);
    var headers := SortedHeaders(contentType, host, payloadHash, amzDate);
    var canonicalRequest := UploadCanonicalRequest(canonicalUri, contentType, host, payloadHash, amzDate);
    TimestampsHaveNoNewline(now);
    var pass := SignCanonicalRequest(c, cfg.secretAccessKey, dateStamp, amzDate, canonicalRequest);
    var authorization := Authorization(cfg.accessKeyId, CredentialScope(dateStamp), SignedHeaders(headers), pass.signature);
    var put := UploadPut(url.href(cfg.endpoint, ObjectPath(cfg.bucketName, key)), host, contentType,
                         payloadHash, amzDate, authorization, body);
    SignedUpload(canonicalUri, payloadHash, dateStamp, amzDate, headers, canonicalRequest, pass, authorization, put)
  }

  /** The `fetch` request: the headers it writes and the body bytes. Every
      signed header is handed to `fetch` with the value that was signed, and
      so is the authorization. */
  function UploadPut(putUrl: string, host: string, contentType: string, payloadHash: string, amzDate: string,
                     authorization: string, body: seq<byte>): (put: StorePut)
    ensures put.url == putUrl && put.body == body
    ensures CarriesAll(put.headers, HeaderRecord(contentType, host, payloadHash, amzDate))
    ensures Carries(put.headers, Field("authorization", authorization))
  {
    SentHeadersCarrySigned(host, contentType, payloadHash, amzDate, authorization);
    StorePut(putUrl, SentHeaders(host, contentType, payloadHash, amzDate, authorization), body)
  }

  /** The upload's canonical request. Read line by line it is the method,
      the object path, the empty query, the five header lines in sorted order,
      the blank line, the signed-header list and the payload hash. */
  function UploadCanonicalRequest(canonicalUri: string, contentType: string, host: string,
                                  payloadHash: string, amzDate: string): (cr: string)
    ensures (NoNewline(canonicalUri) && NoNewline(contentType) && NoNewline(host)
             && NoNewline(payloadHash) && NoNewline(amzDate)) ==>
      Split(cr, '\n')
      == ["PUT", canonicalUri, "",
          "content-type:" + contentType, "host:" + host, "x-amz-acl:public-read",
          "x-amz-content-sha256:" + payloadHash, "x-amz-date:" + amzDate,
          "", SignedHeaderList, payloadHash]
  {
    var cr := CanonicalRequest("PUT", canonicalUri, "", SortedHeaders(contentType, host, payloadHash, amzDate), payloadHash);
    if NoNewline(canonicalUri) && NoNewline(contentType) && NoNewline(host) && NoNewline(payloadHash) && NoNewline(amzDate) then
      UploadRequestLines(canonicalUri, contentType, host, payloadHash, amzDate);
      cr
    else cr
  }

  lemma UploadRequestLines(canonicalUri: string, contentType: string, host: string, payloadHash: string, amzDate: string)
    requires NoNewline(canonicalUri) && NoNewline(contentType) && NoNewline(host)
    requires NoNewline(payloadHash) && NoNewline(amzDate)
    ensures Split(CanonicalRequest("PUT", canonicalUri, "", HeaderRecord(contentType, host, payloadHash, amzDate), payloadHash), '\n')
      == ["PUT", canonicalUri, "",
          "content-type:" + contentType, "host:" + host, "x-amz-acl:public-read",
          "x-amz-content-sha256:" + payloadHash, "x-amz-date:" + amzDate,
          "", SignedHeaderList, payloadHash]
  {
    var hs := HeaderRecord(contentType, host, payloadHash, amzDate);
    RecordFreeOfNewline(contentType, host, payloadHash, amzDate);
    CanonicalRequestLines("PUT", canonicalUri, "", hs, payloadHash);
    HeaderRecordSignedHeaders(contentType, host, payloadHash, amzDate);
    RecordLines(contentType, host, payloadHash, amzDate);
  }

  lemma RecordFreeOfNewline(contentType: string, host: string, payloadHash: string, amzDate: string)
    requires NoNewline(contentType) && NoNewline(host) && NoNewline(payloadHash) && NoNewline(amzDate)
    ensures FieldsFreeOf(HeaderRecord(contentType, host, payloadHash, amzDate), '\n')
  {
    var hs := HeaderRecord(contentType, host, payloadHash, amzDate);
    forall i | 0 <= i < |hs|
      ensures '\n' !in hs[i].name && '\n' !in hs[i].value
    {
      HeaderNameAt(contentType, host, payloadHash, amzDate, i);
    }
  }

  /** The names of the record are lower-case ASCII: letters, digits and `-`. */
  lemma HeaderNameAt(contentType: string, host: string, payloadHash: string, amzDate: string, i: nat)
    requires i < 5
    ensures var n := HeaderRecord(contentType, host, payloadHash, amzDate)[i].name;
      forall k :: 0 <= k < |n| ==> 'a' <= n[k] <= 'z' || '0' <= n[k] <= '9' || n[k] == '-'
  {
  }

  lemma RecordLines(contentType: string, host: string, payloadHash: string, amzDate: string)
    ensures HeaderLines(HeaderRecord(contentType, host, payloadHash, amzDate))
         == ["content-type:" + contentType, "host:" + host, "x-amz-acl:public-read",
             "x-amz-content-sha256:" + payloadHash, "x-amz-date:" + amzDate]
  {
    var lines := HeaderLines(HeaderRecord(contentType, host, payloadHash, amzDate));
    assert lines[0] == "content-type" + ":" + contentType;
    assert lines[1] == "host" + ":" + host;
    assert lines[2] == "x-amz-acl" + ":" + "public-read";
    assert lines[3] == "x-amz-content-sha256" + ":" + payloadHash;
    assert lines[4] == "x-amz-date" + ":" + amzDate;
    assert "content-type" + ":" == "content-type:" && "host" + ":" == "host:";
    assert "x-amz-acl" + ":" + "public-read" == "x-amz-acl:public-read";
    assert "x-amz-content-sha256" + ":" == "x-amz-content-sha256:" && "x-amz-date" + ":" == "x-amz-date:";
  }

  /** The JSON answer of the handler and its HTTP status. */
  datatype UploadResponse =
    | Uploaded(url: string, fileName: string)
    | MissingFileData
    | NotConfigured
    | UploadFailed(details: string)
  {
    function Status(): nat {
      match this
      case Uploaded(_, _) => 200
      case MissingFileData => 400
      case NotConfigured => 500
      case UploadFailed(_) => 500
    }

    /** The `error` member of the JSON body, absent on success. */
    function ErrorText(): Option<string> {
      match this
      case Uploaded(_, _) => None
      case MissingFileData => Some("Missing required file data")
      case NotConfigured => Some("Server storage is not configured correctly")
      case UploadFailed(_) => Some("Upload failed")
    }
  }

  /** The store's answer to the PUT: its status and its body text. */
  datatype StoreReply = StoreReply(status: nat, text: string)

  /** `response.ok`: a 2xx status. */
  predicate IsOk(reply: StoreReply) {
    200 <= reply.status <= 299
  }

  /** `R2 error {status}: {text}`. */
  function StoreErrorDetails(reply: StoreReply): string {
    "R2 error " + Decimal.NatToString(reply.status) + ": " + reply.text
  }

  /** The handler's answer, and the PUT it sent to the store, if any. */
  datatype Handled = Handled(response: UploadResponse, sent: Option<StorePut>)

  /** The key the handler stores under: the folder (`"uploads"` when the
      request has none), the clock reading, the random token and the
      extension of the file name. */
  function UploadKey(req: UploadRequest, env: Ambient): string
    requires HasFileData(req.file)
  {
    Key(req.folder.GetOr(DefaultFolder), env.nowMillis, env.randomToken, req.file.value.name.value)
  }

  /** The request passes both gates: it carries file data, and the server
      holds all five settings. */
  predicate Accepted(request: Completion<UploadRequest>, cfg: StorageConfig) {
    request.Normal? && HasFileData(request.value.file) && cfg.Complete()
  }

  /** Everything the PUT needs could be computed: the payload decodes and the
      endpoint parses. */
  predicate Signable(url: UrlLib, atob: string -> Completion<seq<byte>>, cfg: StorageConfig, request: Completion<UploadRequest>) {
    Accepted(request, cfg)
    && atob(Base64Payload(request.value.file.value.base64.value)).Normal?
    && url.host(cfg.endpoint).Normal?
  }

  /** The last step: send the signed PUT and read the store's answer. The
      handler reports success exactly when the store accepted the PUT, naming
      the key and its public URL, and otherwise passes on the store's status
      and text or the thrown message. */
  function Send(publicBaseUrl: string, key: string, put: StorePut,
                fetch: StorePut -> Completion<StoreReply>): (h: Handled)
    ensures h.sent == Some(put)
    ensures h.response.Uploaded? || h.response.UploadFailed?
    ensures h.response.Uploaded? <==> fetch(put).Normal? && IsOk(fetch(put).value)
    ensures h.response.Uploaded? ==> h.response == Uploaded(PublicUrl(publicBaseUrl, key), key)
    ensures fetch(put).Normal? && !IsOk(fetch(put).value) ==>
      h.response == UploadFailed(StoreErrorDetails(fetch(put).value))
    ensures fetch(put).Abrupt? ==> h.response == UploadFailed(fetch(put).message)
  {
    match fetch(put)
    case Abrupt(m) => Handled(UploadFailed(m), Some(put))
    case Normal(reply) =>
      if !IsOk(reply) then Handled(UploadFailed(StoreErrorDetails(reply)), Some(put))
      else Handled(Uploaded(PublicUrl(publicBaseUrl, key), key), Some(put))
  }

  /** After both gates: decode the payload and parse the endpoint (either may
      throw), then sign and send. A PUT goes out exactly when both succeed. */
  function DecodeAndSend(c: Crypto, url: UrlLib, atob: string -> Completion<seq<byte>>, cfg: StorageConfig,
                         req: UploadRequest, env: Ambient, fetch: StorePut -> Completion<StoreReply>): (h: Handled)
    requires HasFileData(req.file)
    ensures var payload := atob(Base64Payload(req.file.value.base64.value));
      && (h.sent.Some? <==> payload.Normal? && url.host(cfg.endpoint).Normal?)
      && (h.sent.Some? ==>
            h == Send(cfg.publicBaseUrl, UploadKey(req, env),
                      SignUpload(c, url, cfg, url.host(cfg.endpoint).value, UploadKey(req, env),
                                 req.file.value.fileType.value, payload.value, env.now).put, fetch))
      && (payload.Abrupt? ==> h.response == UploadFailed(payload.message))
    ensures atob(Base64Payload(req.file.value.base64.value)).Normal? && url.host(cfg.endpoint).Abrupt? ==>
      h.response == UploadFailed(url.host(cfg.endpoint).message)
    ensures h.response.Uploaded? || h.response.UploadFailed?
  {
    var payload := atob(Base64Payload(req.file.value.base64.value));
    if payload.Abrupt? then Handled(UploadFailed(payload.message), None)
    else if url.host(cfg.endpoint).Abrupt? then Handled(UploadFailed(url.host(cfg.endpoint).message), None)
    else
      Send(cfg.publicBaseUrl, UploadKey(req, env),
           SignUpload(c, url, cfg, url.host(cfg.endpoint).value, UploadKey(req, env),
                      req.file.value.fileType.value, payload.value, env.now).put, fetch)
  }

  /** One request to `upload-to-r2`. `request` is the parsed JSON body (abrupt
      when it does not parse), `atob` the base64 decoder, `fetch` the call to
      the store (abrupt when the network call throws). Every throw ends in a
      500 with the error's message.

      The handler answers 400 exactly when the file data is incomplete and 500
      "not configured" exactly when a complete request meets an incomplete
      configuration; nothing reaches the store unless both gates pass. */
  function HandleUpload(c: Crypto, url: UrlLib, atob: string -> Completion<seq<byte>>, cfg: StorageConfig,
                        request: Completion<UploadRequest>, env: Ambient,
                        fetch: StorePut -> Completion<StoreReply>): (h: Handled)
    ensures h.response.MissingFileData? <==> request.Normal? && !HasFileData(request.value.file)
    ensures h.response.NotConfigured? <==> request.Normal? && HasFileData(request.value.file) && !cfg.Complete()
    ensures request.Abrupt? ==> h == Handled(UploadFailed(request.message), None)
    ensures Accepted(request, cfg) ==> h == DecodeAndSend(c, url, atob, cfg, request.value, env, fetch)
    ensures h.sent.Some? <==> Signable(url, atob, cfg, request)
  {
    if request.Abrupt? then Handled(UploadFailed(request.message), None)
    else if !HasFileData(request.value.file) then Handled(MissingFileData, None)
    else if !cfg.Complete() then Handled(NotConfigured, None)
    else DecodeAndSend(c, url, atob, cfg, request.value, env, fetch)
  }
}
