/** `uploadToR2` of the proxied client: the browser reads the file as a data
    URL, hands it to the `upload-to-r2` edge function through
    `supabase.functions.invoke`, and reports 0, 30 and 100 per cent along
    the way. */
module ProxyClient {
  import opened Wrappers
  import opened Edge
  import opened ObjectKey
  import opened FileValidation
  import opened ClientResult
  import opened ProxyUpload

  /** The parsed body of a successful invocation: `success`, `url` and
      `error` as the edge function may send them. */
  datatype ReplyData = ReplyData(success: bool, url: Option<string>, error: Option<string>)

  /** `{ data, error }` as `functions.invoke` resolves. */
  datatype InvokeReply = InvokeReply(data: Option<ReplyData>, error: Option<string>)

  /** One run of the client: the progress reports, the body it invoked the
      edge function with (if it got that far), and the result. */
  datatype ClientRun = ClientRun(reports: seq<Progress>, invoked: Option<UploadRequest>, result: UploadResult)

  /** `{ file: { name, type, base64 }, folder }`, with `folder` defaulting to
      `"uploads"`. */
  function InvokeBody(file: FileInfo, folder: Option<string>, base64: string): UploadRequest {
    UploadRequest(Some(FileData(Some(file.name), Some(file.fileType), Some(base64))), Some(folder.GetOr(DefaultFolder)))
  }

  /** No invocation error, and the data says `success`. */
  predicate Delivered(reply: InvokeReply) {
    reply.error.None? && reply.data.Some? && reply.data.value.success
  }

  /** `data?.error || "Upload failed"`: the message thrown when the data
      does not report success. */
  function RejectionMessage(data: Option<ReplyData>): (m: string)
    ensures m != ""
    ensures data.Some? && Truthy(data.value.error) ==> m == data.value.error.value
    ensures !(data.Some? && Truthy(data.value.error)) ==> m == "Upload failed"
  {
    if data.Some? && Truthy(data.value.error) then data.value.error.value else "Upload failed"
  }

  /** One call of `uploadToR2(file, folder, onProgress)`. `notify` says
      whether `onProgress` was given; `read` is what `fileToBase64` resolves
      to (abrupt when the reader fails); `invoke` is the edge-function call.

      It reports 0 per cent first, 30 once the file is read, and 100 only
      after the edge function delivered; every report counts its share of
      the file's bytes. It succeeds exactly when the file was read and the
      reply delivered, with the reply's URL. */
  function ClientUpload(file: FileInfo, folder: Option<string>, notify: bool, read: Completion<string>,
                        invoke: UploadRequest -> InvokeReply): (run: ClientRun)
    ensures Proportional(run.reports, file.size) && Increasing(run.reports)
    ensures !notify ==> run.reports == []
    ensures notify ==> Percentages(run.reports)
                       == if run.result.Succeeded? then [0, 30, 100] else if read.Normal? then [0, 30] else [0]
    ensures run.invoked.Some? <==> read.Normal?
    ensures read.Normal? ==> run.invoked == Some(InvokeBody(file, folder, read.value))
    ensures run.result.Succeeded? <==> read.Normal? && Delivered(invoke(InvokeBody(file, folder, read.value)))
    ensures run.result.Succeeded? ==> run.result.url == invoke(InvokeBody(file, folder, read.value)).data.value.url
    ensures read.Abrupt? ==> run.result == Failed(read.message)
    ensures read.Normal? && invoke(InvokeBody(file, folder, read.value)).error.Some? ==>
      run.result == Failed(invoke(InvokeBody(file, folder, read.value)).error.value)
    ensures read.Normal? && invoke(InvokeBody(file, folder, read.value)).error.None?
            && !Delivered(invoke(InvokeBody(file, folder, read.value))) ==>
      run.result == Failed(RejectionMessage(invoke(InvokeBody(file, folder, read.value)).data))
  {
    if read.Abrupt? then
      ClientRun(Reports(notify, file.size, [0]), None, Failed(read.message))
    else if invoke(InvokeBody(file, folder, read.value)).error.Some? then
      ClientRun(Reports(notify, file.size, [0, 30]), Some(InvokeBody(file, folder, read.value)),
                Failed(invoke(InvokeBody(file, folder, read.value)).error.value))
    else if !Delivered(invoke(InvokeBody(file, folder, read.value))) then
      ClientRun(Reports(notify, file.size, [0, 30]), Some(InvokeBody(file, folder, read.value)),
                Failed(RejectionMessage(invoke(InvokeBody(file, folder, read.value)).data)))
    else
      ClientRun(Reports(notify, file.size, [0, 30, 100]), Some(InvokeBody(file, folder, read.value)),
                Succeeded(invoke(InvokeBody(file, folder, read.value)).data.value.url))
  }

  /** A reply that arrives without an invocation error but does not report
      success fails the upload with the reply's own error text when it has
      a non-empty one, and with `Upload failed` otherwise; the reports stop
      at 30 per cent. */
  lemma UnsuccessfulReply(file: FileInfo, folder: Option<string>, notify: bool, read: Completion<string>,
                          invoke: UploadRequest -> InvokeReply, url: Option<string>, error: Option<string>)
    requires read.Normal?
    requires invoke(InvokeBody(file, folder, read.value)) == InvokeReply(Some(ReplyData(false, url, error)), None)
    ensures var run := ClientUpload(file, folder, notify, read, invoke);
      && run.result == Failed(if error.Some? && error.value != "" then error.value else "Upload failed")
      && (notify ==> Percentages(run.reports) == [0, 30])
  {
  }

  /** The body sent passes the edge function's file-data gate exactly when
      the file has a name and a type and the read text is not empty. */
  lemma InvokedBodyGate(file: FileInfo, folder: Option<string>, base64: string)
    ensures HasFileData(InvokeBody(file, folder, base64).file) <==> file.name != "" && file.fileType != "" && base64 != ""
  {
  }

  /** How `functions.invoke` surfaces an answer of the edge function: a 200
      answer is parsed into `data` with `success` and the URL; any other
      status becomes an invocation error with the client library's message. */
  function EdgeReply(response: UploadResponse, httpError: string): (reply: InvokeReply)
    ensures Delivered(reply) <==> response.Status() == 200
  {
    if response.Uploaded? then InvokeReply(Some(ReplyData(true, Some(response.url), None)), None)
    else InvokeReply(None, Some(httpError))
  }

  /** End to end: with the edge function behind `invoke`, the client succeeds
      exactly when the edge function stored the file, and then holds the
      public URL the edge function answered with; otherwise it never reports
      100 per cent and fails with the client library's error message. */
  lemma ClientFollowsEdge(file: FileInfo, folder: Option<string>, read: Completion<string>,
                          handle: UploadRequest -> UploadResponse, httpError: string)
    requires read.Normal?
    ensures var run := ClientUpload(file, folder, true, read, r => EdgeReply(handle(r), httpError));
      var response := handle(InvokeBody(file, folder, read.value));
      && (run.result.Succeeded? <==> response.Uploaded?)
      && (run.result.Succeeded? ==> run.result.url == Some(response.url))
      && (!response.Uploaded? ==> Percentages(run.reports) == [0, 30] && run.result == Failed(httpError))
  {
    var invoke := r => EdgeReply(handle(r), httpError);
    var body := InvokeBody(file, folder, read.value);
    assert invoke(body) == EdgeReply(handle(body), httpError);
  }
}
