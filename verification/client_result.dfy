/** The `UploadProgress` and `UploadResult` shapes both browser upload
    clients declare, and the progress reports they make. */
module ClientResult {
  import opened Wrappers

  /** One `onProgress` call: bytes counted as loaded, the file size, and the
      percentage. `loaded` is a JavaScript number; it is kept exact here. */
  datatype Progress = Progress(loaded: real, total: nat, percentage: nat)

  /** `{ success: true, url }` or `{ success: false, error }`; the error is
      kept as its message. */
  datatype UploadResult = Succeeded(url: Option<string>) | Failed(error: string)

  /** The report for `percentage` per cent of a file of `size` bytes. */
  function Report(size: nat, percentage: nat): (p: Progress)
    ensures p.total == size && p.percentage == percentage
    ensures p.loaded * 100.0 == (size * percentage) as real
    ensures percentage == 100 ==> p.loaded == size as real
  {
    Progress((size * percentage) as real / 100.0, size, percentage)
  }

  /** Every report in `reports` is for a file of `size` bytes and counts
      exactly its percentage of them as loaded. */
  predicate Proportional(reports: seq<Progress>, size: nat) {
    forall i :: 0 <= i < |reports| ==>
      reports[i].total == size && reports[i].loaded * 100.0 == (size * reports[i].percentage) as real
  }

  /** The percentages strictly increase from report to report. */
  predicate Increasing(reports: seq<Progress>) {
    forall i, j :: 0 <= i < j < |reports| ==> reports[i].percentage < reports[j].percentage
  }

  /** The percentages of a run of reports, in order: a projection the
      clients' contracts are stated with, not an operation of the clients. */
  function Percentages(reports: seq<Progress>): (ps: seq<nat>)
    ensures |ps| == |reports| && forall i :: 0 <= i < |reports| ==> ps[i] == reports[i].percentage
  {
    if |reports| == 0 then [] else [reports[0].percentage] + Percentages(reports[1..])
  }

  /** The reports made at the given percentages, when a callback is present;
      none otherwise. */
  function Reports(notify: bool, size: nat, percentages: seq<nat>): (rs: seq<Progress>)
    ensures notify ==> |rs| == |percentages| && Percentages(rs) == percentages
    ensures !notify ==> rs == []
    ensures Proportional(rs, size)
  {
    if !notify || |percentages| == 0 then []
    else [Report(size, percentages[0])] + Reports(notify, size, percentages[1..])
  }
}
