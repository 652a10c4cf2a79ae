/** `uploadToR2` of the direct client: the browser names the object itself
    and either simulates the upload (when no real endpoint is configured) or
    sends a `PutObjectCommand` through the S3 client library. */
module DirectClient {
  import opened Wrappers
  import opened ObjectKey
  import opened FileValidation
  import opened ClientResult

  /** The placeholder endpoint the client falls back to. */
  const DemoEndpoint: string := "https://example.r2.cloudflarestorage.com"

  /** `VITE_R2_ENDPOINT`, `VITE_R2_BUCKET_NAME` and `VITE_R2_PUBLIC_URL`,
      None when unset. */
  datatype ClientEnv = ClientEnv(endpoint: Option<string>, bucketName: Option<string>, publicUrl: Option<string>)

  /** `new PutObjectCommand({ Bucket, Key, Body, ContentType })`, the body
      being the file itself. */
  datatype PutCommand = PutCommand(bucket: Option<string>, key: string, contentType: string)

  /** One run: the reports, the command sent (none in mock mode) and the
      result. */
  datatype DirectRun = DirectRun(reports: seq<Progress>, command: Option<PutCommand>, result: UploadResult)

  /** No endpoint, an empty one, or the placeholder: the upload is simulated. */
  predicate MockMode(env: ClientEnv) {
    env.endpoint.None? || env.endpoint.value == "" || env.endpoint.value == DemoEndpoint
  }

  /** A template literal's rendering of an optional value: `undefined` when
      unset. */
  function TemplateText(v: Option<string>): (t: string)
    ensures v.Some? ==> t == v.value
    ensures v.None? ==> t == "undefined"
  {
    if v.Some? then v.value else "undefined"
  }

  /** The ten reports of the simulated upload, 10 per cent apart: strictly
      increasing, each counting its share of the file, the last at 100 per
      cent. */
  function MockReports(size: nat): (rs: seq<Progress>)
    ensures |rs| == 10
    ensures Increasing(rs) && Proportional(rs, size)
    ensures rs[9].percentage == 100 && rs[9].loaded == size as real
  {
    seq(10, i requires 0 <= i < 10 => Report(size, 10 * (i + 1)))
  }

  /** The simulation timer: every tick adds 10 per cent and reports it; the
      tick that reaches 100 stops the timer. It makes exactly the ten reports
      10, 20, ..., 100, strictly increasing, each counting its share of the
      file, the last counting all of it. */
  method MockProgress(size: nat) returns (reports: seq<Progress>)
    ensures reports == MockReports(size)
    ensures |reports| == 10 && Increasing(reports) && Proportional(reports, size)
    ensures forall i :: 0 <= i < 10 ==> reports[i].percentage == 10 * (i + 1)
    ensures reports[9].loaded == size as real && reports[9].total == size
  {
    var progress := 0;
    reports := [];
    while progress < 100
      invariant 0 <= progress <= 100 && progress % 10 == 0
      invariant |reports| == progress / 10
      invariant forall i :: 0 <= i < |reports| ==> reports[i] == Report(size, 10 * (i + 1))
      decreases 100 - progress
    {
      progress := progress + 10;
      reports := reports + [Report(size, progress)];
    }
  }

  /** One call of `uploadToR2(file, folder, onProgress)`. `nowMillis` and
      `token` are `Date.now()` and the random string of the object name;
      `blobUrl` is what `URL.createObjectURL(file)` returns; `send` is the
      outcome of `r2Client.send`.

      In mock mode nothing is sent and the blob URL is returned after the
      ten simulated reports. Otherwise the command names the generated key,
      0 per cent is reported before sending and 100 only after the send
      succeeded, and success carries the public URL of that same key. */
  function DirectUpload(file: FileInfo, folder: Option<string>, notify: bool, env: ClientEnv,
                        nowMillis: nat, token: string, blobUrl: string, send: Completion<()>): (run: DirectRun)
    ensures Proportional(run.reports, file.size) && Increasing(run.reports)
    ensures !notify ==> run.reports == []
    ensures MockMode(env) ==>
      && run.command == None
      && run.result == Succeeded(Some(blobUrl))
      && (notify ==> run.reports == MockReports(file.size))
    ensures !MockMode(env) ==>
      && run.command == Some(PutCommand(env.bucketName, Key(folder.GetOr(DefaultFolder), nowMillis, token, file.name), file.fileType))
      && (run.result.Succeeded? <==> send.Normal?)
      && (send.Abrupt? ==> run.result == Failed(send.message))
      && (notify ==> Percentages(run.reports) == if send.Normal? then [0, 100] else [0])
    ensures !MockMode(env) && run.result.Succeeded? ==>
      run.result.url == Some(PublicUrl(TemplateText(env.publicUrl), run.command.value.key))
  {
    if MockMode(env) then Simulated(file.size, notify, blobUrl)
    else Sent(file, notify, PutCommand(env.bucketName, Key(folder.GetOr(DefaultFolder), nowMillis, token, file.name), file.fileType),
              TemplateText(env.publicUrl), send)
  }

  /** The mock branch: the ten simulated reports, nothing sent, the blob URL. */
  function Simulated(size: nat, notify: bool, blobUrl: string): (run: DirectRun)
    ensures Proportional(run.reports, size) && Increasing(run.reports)
    ensures run.reports == if notify then MockReports(size) else []
    ensures run.command == None && run.result == Succeeded(Some(blobUrl))
  {
    MockReportsAscend(size);
    DirectRun(if notify then MockReports(size) else [], None, Succeeded(Some(blobUrl)))
  }

  /** The real branch: 0 per cent, the send, and on success 100 per cent and
      the public URL of the command's key. */
  function Sent(file: FileInfo, notify: bool, command: PutCommand, publicBase: string, send: Completion<()>): (run: DirectRun)
    ensures Proportional(run.reports, file.size) && Increasing(run.reports)
    ensures !notify ==> run.reports == []
    ensures notify ==> Percentages(run.reports) == if send.Normal? then [0, 100] else [0]
    ensures run.command == Some(command)
    ensures run.result == if send.Normal? then Succeeded(Some(PublicUrl(publicBase, command.key))) else Failed(send.message)
  {
    if send.Abrupt? then DirectRun(Reports(notify, file.size, [0]), Some(command), Failed(send.message))
    else DirectRun(Reports(notify, file.size, [0, 100]), Some(command), Succeeded(Some(PublicUrl(publicBase, command.key))))
  }

  /** The simulated reports are proportional and strictly increasing. */
  lemma MockReportsAscend(size: nat)
    ensures Proportional(MockReports(size), size) && Increasing(MockReports(size))
  {
  }
}
