# Media upload to Cloudflare R2: a Dafny model

The application stores user media in a Cloudflare R2 bucket and offers two ways to get it there.

- **Proxied upload.** The browser client (`src/lib/supabase-upload.ts`) reads the file as a data URL. It hands the file to the `upload-to-r2` edge function. That function:
  - names the object;
  - signs an S3 `PUT` with AWS Signature Version 4, using an `Authorization` header;
  - sends the `PUT` to R2;
  - answers with the object's public URL.
- **Presigned upload.** The `generate-presigned-url` edge function signs the same kind of `PUT` in the query string (`X-Amz-*` parameters, `UNSIGNED-PAYLOAD`). The client can then upload directly.

A second browser client (`src/lib/r2-upload.ts`) sends a `PutObjectCommand` itself through the S3 client library. When no real endpoint is configured, it simulates the upload with a timer instead. The two client libraries export the same `validateFile` (at most 100 MiB, and one of seven image or video MIME types); the media upload component calls it before `uploadToR2`, and the upload functions themselves do not.

The model covers:

- The signer, step by step:
  - the lowercase hex of digests;
  - the HMAC key chain;
  - the credential scope `date/auto/s3/aws4_request`;
  - canonical headers;
  - the signed-header list;
  - the canonical request;
  - the string to sign;
  - the signature;
  - the `Authorization` header;
  - the `URLSearchParams` serialisation of the presigned query.
- The two edge handlers, with all of their error answers.
- The object key.
- File validation.
- The progress reports and results of both clients.

SHA-256 and HMAC-SHA256 are not computed. They are uninterpreted functions passed in as a `Crypto` value, and every signing property is stated in terms of them. The same holds for:

- the WHATWG URL library (`UrlLib`);
- `atob`;
- `fetch`;
- the S3 client's `send`;
- `supabase.functions.invoke`;
- the clocks and the random token.

Each is an input of the operation that uses it. A thrown JavaScript exception is an `Abrupt` completion.

Modules follow the program's structure:

- **Utility modules:** `Wrappers`, `Text` (split and join), `Decimal`, `Bytes` (UTF-8), `Hex`, `Fields` (sorting name/value pairs), `FormUrlEncoded` and `UtcDate`.
- **Signer:** `SigV4`.
- **Edge functions:** `Edge` and `ObjectKey` (shared by both), then `ProxyUpload` (`upload-to-r2`) and `PresignedUrl` (`generate-presigned-url`).
- **Browser clients:** `FileValidation` and `ClientResult` (shared), then `ProxyClient` (`supabase-upload.ts`) and `DirectClient` (`r2-upload.ts`).

Three details of the code shape the signed texts:

- **Header values go into the canonical headers untrimmed.** Each line is `name:value` exactly as the handler writes it.
- **The presigned expiry is the constant 3600.** It is not a parameter of the handler.
- **The canonical query is the `URLSearchParams` serialisation of the six parameters in insertion order.** That order is proved sorted by name.

## Model

| member | source | states |
|---|---|---|
| Hex.ToHex | supabase/functions/upload-to-r2/index.ts:17-21 | every byte becomes two lowercase hex digits, so the text is twice as long as the bytes |
| Hex.HexRoundTrip | supabase/functions/generate-presigned-url/index.ts:14-18 | decoding the hex text gives back exactly the bytes: the rendering loses nothing |
| Hex.HexInjective | supabase/functions/upload-to-r2/index.ts:17-21 | two byte strings with the same hex are equal |
| Bytes.Utf8 | supabase/functions/upload-to-r2/index.ts:23-28 | `TextEncoder` output is at least one byte per character, and ASCII text is copied byte for byte |
| Bytes.Utf8Char | supabase/functions/upload-to-r2/index.ts:30-41 | one character encodes to 1 to 4 bytes; exactly the ASCII characters take one byte, and longer encodings open with a lead byte followed by continuation bytes |
| Bytes.Utf8Concat | supabase/functions/upload-to-r2/index.ts:49-50 | encoding `"AWS4" + secret` equals encoding the prefix followed by encoding the secret |
| SigV4.Sha256Hex | supabase/functions/upload-to-r2/index.ts:23-28 | the hex decodes to the SHA-256 digest of the data and holds no newline |
| SigV4.SigningKey | supabase/functions/upload-to-r2/index.ts:43-55 | the signing key is HMAC of `aws4_request` under HMAC of the service under HMAC of the region under HMAC of the date under the UTF-8 of `AWS4` + secret |
| SigV4.CredentialScope | supabase/functions/upload-to-r2/index.ts:149 | split at `/`, the scope is exactly date stamp, `auto`, `s3`, `aws4_request`; a newline-free date gives a newline-free scope |
| SigV4.ScopeParts | supabase/functions/upload-to-r2/index.ts:149 | the four scope parts joined by `/` split back into the same four parts |
| SigV4.ScopeText | supabase/functions/generate-presigned-url/index.ts:115 | the scope the presigner writes by hand, `date/auto/s3/aws4_request`, is the scope the header signer builds |
| SigV4.CanonicalHeadersAsJoin | supabase/functions/upload-to-r2/index.ts:135-137 | the canonical header block is the `name:value` lines joined by newlines with one final newline |
| SigV4.HeaderLines | supabase/functions/upload-to-r2/index.ts:135-137 | one `name:value` line per header, in the headers' order |
| SigV4.SignedHeadersMatchBlock | supabase/functions/upload-to-r2/index.ts:134-138 | the signed-header list has one name per header line, and the i-th name opens the i-th line: the list and the block agree in order |
| SigV4.CanonicalRequestLines | supabase/functions/upload-to-r2/index.ts:140-147 | split at newlines, the canonical request is verb, URI, query, one line per header, an empty line, the signed-header list and the payload hash |
| SigV4.CanonicalRequestAsLines | supabase/functions/upload-to-r2/index.ts:140-147 | the canonical request is that line list joined by newlines |
| SigV4.StringToSignLines | supabase/functions/upload-to-r2/index.ts:150-155 | the string to sign has four lines: algorithm, timestamp, scope, and a hex line that decodes to the digest of the UTF-8 canonical request |
| SigV4.Signature | supabase/functions/upload-to-r2/index.ts:157-159 | the signature is lowercase hex, twice the MAC length, and decodes to the HMAC of the string to sign under the signing key |
| SigV4.ScopedStringToSign | supabase/functions/upload-to-r2/index.ts:149-155 | for newline-free dates, the string to sign is exactly the algorithm, the timestamp, `date/auto/s3/aws4_request` and the request digest, one per line |
| SigV4.SignCanonicalRequest | supabase/functions/upload-to-r2/index.ts:149-159 | the signature decodes to the HMAC of the scoped string to sign under the four-step key for region `auto` and service `s3` |
| SigV4.AuthorizationParts | supabase/functions/upload-to-r2/index.ts:161-162 | split at commas, the `Authorization` value is exactly the credential part, the signed-headers part and the signature part |
| UtcDate.DateStamp | supabase/functions/upload-to-r2/index.ts:106-110 | the date stamp is all digits, and eight of them for a four-digit year |
| UtcDate.AmzDate | supabase/functions/upload-to-r2/index.ts:111-114 | the timestamp opens with the date stamp, then `T`, and ends in `Z`; only digits otherwise; eight characters longer than the date stamp |
| UtcDate.AmzDateRoundTrip | supabase/functions/upload-to-r2/index.ts:106-114 | for a valid instant of a four-digit year, reading the timestamp back gives the instant: no two instants share a timestamp |
| UtcDate.AmzDateShapeOf | supabase/functions/upload-to-r2/index.ts:111-114 | eight date digits and six time digits give the sixteen-character `YYYYMMDDThhmmssZ` shape |
| UtcDate.TimestampsHaveNoNewline | supabase/functions/upload-to-r2/index.ts:106-114 | neither the date stamp nor the timestamp holds a newline, so each stays one line of the signed texts |
| Decimal.NatToString | supabase/functions/upload-to-r2/index.ts:91-93 | the decimal rendering is non-empty, all digits, and has no leading zero |
| Decimal.NatToStringRoundTrip | supabase/functions/upload-to-r2/index.ts:91-93 | the digits read back as the number |
| Decimal.NatToStringFourDigits | supabase/functions/upload-to-r2/index.ts:107 | a year from 1000 to 9999 renders as four digits |
| Decimal.PadStart | supabase/functions/upload-to-r2/index.ts:108-109 | `padStart` keeps the text as the suffix, fills the front with the fill character, and reaches the width |
| Decimal.Pad2 | supabase/functions/upload-to-r2/index.ts:108-113 | a field below 100 becomes two digits that read back as its value |
| Decimal.PadOneDigit | supabase/functions/upload-to-r2/index.ts:108-109 | a one-digit field padded with `0` is two digits with the same value |
| Fields.Insert | supabase/functions/upload-to-r2/index.ts:134 | inserting a field adds exactly that field to the collection |
| Fields.InsertSorted | supabase/functions/upload-to-r2/index.ts:134 | inserting into a sorted list keeps it sorted |
| Fields.SortByName | supabase/functions/upload-to-r2/index.ts:134 | `sort()` on the header names yields a list sorted by code point that is a permutation of its input |
| Fields.SortSortedIsIdentity | supabase/functions/upload-to-r2/index.ts:134 | sorting a list that is already sorted leaves it unchanged |
| Fields.SortIdempotent | supabase/functions/upload-to-r2/index.ts:134 | sorting twice is sorting once |
| Fields.NameLeTotal | supabase/functions/upload-to-r2/index.ts:134 | any two names are comparable |
| Fields.NameLeTransitive | supabase/functions/upload-to-r2/index.ts:134 | the name order is transitive |
| Fields.NameLeAntisymmetric | supabase/functions/upload-to-r2/index.ts:134 | two names ordered both ways are equal |
| Fields.NameLeCommonPrefix | supabase/functions/generate-presigned-url/index.ts:118-125 | a common prefix does not change the order of two names |
| Fields.NeighboursSorted | supabase/functions/upload-to-r2/index.ts:134 | a list whose neighbours are in order is sorted |
| FormUrlEncoded.Encode | supabase/functions/generate-presigned-url/index.ts:118-125 | an encoded name or value never holds `&`, `=` or a newline |
| FormUrlEncoded.EncodeRoundTrip | supabase/functions/generate-presigned-url/index.ts:118-125 | percent-decoding an encoded text gives its UTF-8 bytes: nothing is lost |
| FormUrlEncoded.EncodeBytesRoundTrip | supabase/functions/generate-presigned-url/index.ts:118-125 | percent-decoding the encoding of bytes gives the bytes back |
| FormUrlEncoded.Pairs | supabase/functions/generate-presigned-url/index.ts:133 | one `name=value` pair per parameter, in the parameters' order |
| FormUrlEncoded.EncodeFormSafe | supabase/functions/generate-presigned-url/index.ts:118-125 | text of letters, digits, `*`, `-`, `.` and `_` is left as it is |
| FormUrlEncoded.EncodeBytes | supabase/functions/generate-presigned-url/index.ts:118-125 | the percent-encoding of bytes never holds `&`, `=` or a newline |
| FormUrlEncoded.SerializeSplits | supabase/functions/generate-presigned-url/index.ts:133 | split at `&`, the query is one `name=value` pair per parameter, in order, and each pair splits at `=` into the encoded name and value |
| FormUrlEncoded.SerializeAppend | supabase/functions/generate-presigned-url/index.ts:153 | appending a parameter extends the serialised query by `&` and the new pair, keeping the old query as a prefix |
| FormUrlEncoded.AppendVerbatim | supabase/functions/generate-presigned-url/index.ts:153 | a parameter whose name and value need no escaping is appended as `&name=value` verbatim |
| FormUrlEncoded.AppendedPairs | supabase/functions/generate-presigned-url/index.ts:153-156 | after such an append the query splits into the old pairs followed by `name=value` |
| FormUrlEncoded.SerializeNoNewline | supabase/functions/generate-presigned-url/index.ts:130-137 | the serialised query holds no newline, so it is one line of the canonical request |
| ObjectKey.Extension | supabase/functions/upload-to-r2/index.ts:90 | `split(".").pop()` is the dot-free suffix after the last dot, or the whole name when it has no dot |
| ObjectKey.KeyInjective | supabase/functions/upload-to-r2/index.ts:89-93 | within one folder, equal keys come from the same timestamp, random token and extension |
| ObjectKey.KeyFieldsDetermined | supabase/functions/upload-to-r2/index.ts:93 | the key text determines its timestamp, token and extension fields |
| Text.LastSegment | supabase/functions/upload-to-r2/index.ts:90 | the last piece after splitting is a suffix free of the separator, and the separator sits just before it when the text holds one |
| Text.Split | supabase/functions/upload-to-r2/index.ts:98 | splitting gives at least one piece and no piece holds the separator |
| ProxyUpload.Base64Payload | supabase/functions/upload-to-r2/index.ts:98 | the decoded payload is the non-empty comma-free run right after the first comma; it is the whole text when there is no comma, or when that run is empty |
| ProxyUpload.DataUrlPayload | supabase/functions/upload-to-r2/index.ts:98 | for a data URL `header,payload` the payload after the comma is what is decoded |
| ProxyUpload.HeaderRecordSorted | supabase/functions/upload-to-r2/index.ts:126-134 | the header record is written in sorted order, so `sort()` leaves it as it is |
| ProxyUpload.RecordAscends | supabase/functions/upload-to-r2/index.ts:126-134 | each header name of the record precedes the next |
| ProxyUpload.HeaderRecordSignedHeaders | supabase/functions/upload-to-r2/index.ts:134-138 | the signed-header list is `content-type;host;x-amz-acl;x-amz-content-sha256;x-amz-date` |
| ProxyUpload.SortedHeaders | supabase/functions/upload-to-r2/index.ts:126-138 | the sorted headers are the record itself, with that signed-header list |
| ProxyUpload.RecordLines | supabase/functions/upload-to-r2/index.ts:135-137 | the five canonical header lines, spelled out |
| ProxyUpload.SentHeadersCarrySigned | supabase/functions/upload-to-r2/index.ts:164-175 | every signed header is handed to `fetch` with the value that was signed, under a name that folds case-insensitively to the signed name, and so is the `Authorization` header |
| ProxyUpload.UploadCanonicalRequest | supabase/functions/upload-to-r2/index.ts:140-147 | the upload's canonical request is eleven lines: `PUT`, the path, an empty query, the five header lines, an empty line, the signed-header list and the payload hash |
| ProxyUpload.UploadRequestLines | supabase/functions/upload-to-r2/index.ts:140-147 | the same eleven lines, derived from the generic canonical request |
| ProxyUpload.SignUpload | supabase/functions/upload-to-r2/index.ts:105-175 | the payload hash decodes to the body's digest; the canonical request covers the sorted record; the signature is the SigV4 signature of it; the `PUT` goes to the object URL with the body and carries every signed header and the authorization |
| ProxyUpload.UploadPut | supabase/functions/upload-to-r2/index.ts:164-175 | the `PUT` request carries the body, every signed header and the authorization |
| ProxyUpload.Send | supabase/functions/upload-to-r2/index.ts:164-196 | success exactly when the store answers 2xx, naming the key and its public URL; otherwise the store's status and text, or the thrown message |
| ProxyUpload.DecodeAndSend | supabase/functions/upload-to-r2/index.ts:89-196 | a `PUT` is sent exactly when the payload decodes and the endpoint parses; a payload that does not decode fails with its message, and so does an endpoint that does not parse |
| ProxyUpload.HandleUpload | supabase/functions/upload-to-r2/index.ts:62-206 | 400 exactly for missing file data, 500 not-configured exactly for a valid request without full configuration, a body that does not parse fails, and a `PUT` is sent exactly when everything it needs could be computed |
| PresignedUrl.QueryParamsSorted | supabase/functions/generate-presigned-url/index.ts:118-125 | the six query parameters are inserted in ascending name order, so the serialised query is the sorted canonical query |
| PresignedUrl.QueryNamesAscend | supabase/functions/generate-presigned-url/index.ts:118-125 | each parameter name precedes the next: Algorithm, Credential, Date, Expires, SignedHeaders, then `x-amz-acl` |
| PresignedUrl.AmzParamsAscend | supabase/functions/generate-presigned-url/index.ts:118-125 | two `X-Amz-` names are ordered by the first letter of their suffixes |
| PresignedUrl.PresignHeadersCanonical | supabase/functions/generate-presigned-url/index.ts:128-129 | the hand-written header block and signed list equal the canonical ones for the `host` and `x-amz-acl` headers |
| PresignedUrl.PresignCanonicalRequest | supabase/functions/generate-presigned-url/index.ts:130-137 | the presigned canonical request is the SigV4 canonical request of a `PUT` with the query, the two headers and `UNSIGNED-PAYLOAD` |
| PresignedUrl.PresignRequestLines | supabase/functions/generate-presigned-url/index.ts:130-137 | split at newlines, that request is `PUT`, path, query, `host:…`, `x-amz-acl:public-read`, an empty line, `host;x-amz-acl`, `UNSIGNED-PAYLOAD` |
| PresignedUrl.Presign | supabase/functions/generate-presigned-url/index.ts:94-125 | the presignature uses the date stamp and timestamp of one clock reading, the object's path, and exactly the six query parameters; the timestamp begins with the date stamp; the canonical request is the SigV4 one over the serialised query, and the signature is its SigV4 signature; the URL is the object URL, `?`, the signed query, `&X-Amz-Signature=` and the signature |
| PresignedUrl.SignQuery | supabase/functions/generate-presigned-url/index.ts:130-156 | the signature is the SigV4 signature of the canonical request over the serialised query, and the URL is the object URL, `?`, that query, and the signature appended as the last parameter |
| PresignedUrl.SignedQuery | supabase/functions/generate-presigned-url/index.ts:153-156 | appending `X-Amz-Signature` leaves the signed query as a prefix and adds `&X-Amz-Signature=` and the hex |
| PresignedUrl.PresignedQueryPairs | supabase/functions/generate-presigned-url/index.ts:153-156 | the final query splits into the six signed pairs followed by the signature pair |
| PresignedUrl.ScopeAgrees | supabase/functions/generate-presigned-url/index.ts:96-145 | the `X-Amz-Credential` value is the access key, `/`, and the scope line of the string to sign; `X-Amz-Date` is its timestamp line |
| PresignedUrl.HandlePresign | supabase/functions/generate-presigned-url/index.ts:58-179 | 400 exactly when a name or type is missing, 500 not-configured exactly for a valid request without full configuration, success exactly when the endpoint also parses, failure with the parser's message when it does not, and on success the generated key, its public URL and the presigned URL for that key |
| FileValidation.Includes | src/lib/supabase-upload.ts:106 | `includes` is true exactly when the type is in the list |
| FileValidation.ValidateFile | src/lib/supabase-upload.ts:96-111 | valid exactly when the size is at most 100 MiB and the type is allowed; an error exactly when invalid; size is reported before type |
| FileValidation.AllowedTypesListed | src/lib/supabase-upload.ts:98-100 | seven distinct allowed types, exactly the image and video types |
| FileValidation.SizeBoundary | src/lib/r2-upload.ts:128-135 | 104857601 bytes fail for size whatever the type; 104857600 bytes of an allowed type pass |
| FileValidation.ValidationMonotone | src/lib/r2-upload.ts:127-142 | a valid file stays valid when it shrinks or is renamed |
| FileValidation.FormatFileSize | src/lib/supabase-upload.ts:116-117 | a zero size is shown as `0 Bytes` |
| ClientResult.Report | src/lib/supabase-upload.ts:48-54 | a report for p per cent counts p per cent of the file's bytes, all of them at 100 |
| ClientResult.Reports | src/lib/supabase-upload.ts:37-84 | with a callback there is one proportional report per percentage, in order; without one there are none |
| ProxyClient.RejectionMessage | src/lib/supabase-upload.ts:73-75 | the message is the reply's error when it is a non-empty text, and `Upload failed` in every other case |
| ProxyClient.ClientUpload | src/lib/supabase-upload.ts:30-91 | reports 0, then 30 once read, then 100 only after a delivered reply; the function is invoked exactly when the file was read, with name, type, data and folder; success exactly when read and delivered, with the reply's URL; an invocation error fails with its message, and an undelivered reply with the rejection message |
| ProxyClient.UnsuccessfulReply | src/lib/supabase-upload.ts:73-75 | a reply without `success` and without an invocation error fails with the reply's non-empty error text, or `Upload failed`, after reports 0 and 30 |
| ProxyClient.InvokedBodyGate | src/lib/supabase-upload.ts:57-66 | the invoked body passes the edge function's file-data check exactly when name, type and data are non-empty |
| ProxyClient.EdgeReply | src/lib/supabase-upload.ts:57-71 | a reply counts as delivered exactly when the edge function answered 200 |
| ProxyClient.ClientFollowsEdge | src/lib/supabase-upload.ts:57-86 | with the edge function behind the call, the client succeeds exactly when the object was stored, holds its public URL, and otherwise stops at 30 per cent and fails with the client library's error message |
| DirectClient.TemplateText | src/lib/r2-upload.ts:98 | a set public URL is used as it is, and an unset one renders as `undefined` |
| DirectClient.MockReports | src/lib/r2-upload.ts:47-69 | the simulation's ten reports strictly increase, each counts its share of the file, and the last is 100 per cent of all of it |
| DirectClient.MockProgress | src/lib/r2-upload.ts:47-69 | the simulation makes exactly ten reports, 10 to 100 per cent, strictly increasing and proportional, the last counting the whole file |
| DirectClient.DirectUpload | src/lib/r2-upload.ts:34-104 | mock mode sends nothing and returns the blob URL after the simulated reports; otherwise the command names the generated key and the file's type, success exactly when the send succeeds, reports 0 and then 100, and the URL is the public URL of that key |
| DirectClient.Simulated | src/lib/r2-upload.ts:47-69 | the mock branch sends nothing, reports the simulation and returns the blob URL |
| DirectClient.Sent | src/lib/r2-upload.ts:72-103 | the real branch sends the command, succeeds exactly when the send does, with the public URL of the command's key |

## Left out

- SHA-256 and HMAC-SHA256: Web Crypto is not modelled. The `Crypto` parameter stands for it. The key chain, the hex rendering and every line of the signed texts are modelled around it.
- The WHATWG URL parser and serialiser are not modelled. They are the `UrlLib` parameter: the host of the endpoint, the pathname after assigning the raw object path, and the resulting URL text. The canonical URI is taken to be whatever the pathname reads back as. That reading depends on the endpoint as well as the path: a special scheme reads `\` as `/`, and an opaque path ignores the assignment.
- `atob`, `FileReader.readAsDataURL`, `fetch`, `r2Client.send` and `supabase.functions.invoke` are parameters. Their outcome is normal or abrupt.
- Deno's request handling is left out: the `OPTIONS`/CORS answer, JSON parsing and printing, response headers and console logging.
- ProxyClient.ClientUpload: the `onProgress` callback is assumed to return normally. A throw from it lands in the `catch` and the client reports failure; on the 100 per cent report that happens after the object was stored. Such runs are not modelled.
- DirectClient.DirectUpload: the `onProgress` callback is assumed to return normally. In the real branch a throw lands in the `catch`, and on the 100 per cent report it turns a stored object into a failure; in mock mode a throw inside the timer leaves the promise unsettled. Neither run is modelled.
- ClientResult.UploadResult: both clients return the caught value itself as `error` (an `Error`, a `FunctionsError`, or the reader's `ProgressEvent`, which has no message). The model keeps only a message string, the value of `read.message`, the invocation error or the thrown text.
- ProxyClient.EdgeReply: the client library's handling of a non-2xx answer is not modelled. The model assumes that `functions.invoke` surfaces such an answer as an invocation error, with no `data`.
- `getPresignedUploadUrl` (`src/lib/r2-upload.ts:111-122`) is left out. It only calls the S3 presigner library, which is not part of this model.
- The S3 client library's own signing of `PutObjectCommand` is left out.
- The timer's 200 ms period and the asynchronous scheduling of the clients are left out. The simulation is a loop of ticks.
- `Math.random().toString(36).substring(7)` is a token parameter. `ObjectKey.KeyInjective` asks only that it be lowercase base-36.
- A `folder` sent as JSON `null` is left out. The default applies only to an absent folder. `null` would produce a key starting `null/`.
- FileValidation.FormatFileSize: only the zero case is modelled. Every other size goes through `Math.log`, `Math.pow` and `Math.round` on floating point, which the model does not represent (it returns None there).
- ClientResult.Report: `loaded` is an exact real, `size * p / 100`. JavaScript's `file.size * 0.3` rounds to the nearest double, which is not modelled.
- UtcDate.DateStamp: the year is a natural number rendered without padding, as `getUTCFullYear().toString()` does. Negative years are not modelled. The sixteen-character round trip holds only for years 1000 to 9999.
- Fields.NameLe: `sort()` compares UTF-16 code units, but the model compares Unicode code points. The two orders agree on the ASCII header and parameter names sorted here.
- SigV4's own URI-encoding of query values is not modelled. The canonical query is the `URLSearchParams` text the handler signs, not a re-encoding of its values.
- ProxyUpload.HandleUpload: every thrown value is taken to be an `Error` that carries a message. The `Unknown error` detail for other thrown values is not modelled.
- PresignedUrl.HandlePresign: the same holds for the presigner's `Unknown error` detail.
- ProxyUpload.SentHeadersCarrySigned: the header list is stated as handed to `fetch`. `fetch` is a parameter, so what reaches the store after the `Headers` class normalises values (it strips leading and trailing whitespace) is not modelled. A `file.type` with surrounding spaces is signed untrimmed, so the store would see a different value.
- ProxyUpload.Send: `fetch` also stands for reading the body of a non-2xx answer (`uploadResponse.text()`, `supabase/functions/upload-to-r2/index.ts:178`). A rejected read is an abrupt `fetch`. Like a network error, it ends in the 500 of the catch block with its message.
- Bytes.Utf8: JavaScript strings are UTF-16, and `TextEncoder` encodes a lone surrogate as U+FFFD. A Dafny `char` is a Unicode scalar value and cannot hold a surrogate, so strings with lone surrogates are not representable.
