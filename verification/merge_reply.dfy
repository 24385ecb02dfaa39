/**
 * What happens once the merge request has been answered: the reply is sorted
 * into a server error, a malformed response or a success, and a success is
 * followed by a separate download of the merged video.
 */
module MergeReply {
  import opened Wrappers

  /**
   * The body of a non-ok reply, as `response.json()` reads it: a JSON value
   * with an optional `error` field (a number, string or array has none), the
   * JSON value `null`, or a body that is not JSON at all.
   */
  datatype ErrorBody = ErrorJson(error: Option<string>) | ErrorNull | ErrorBodyUnreadable

  /** The body of an ok reply, read the same way, with its optional `video_url` field. */
  datatype ResultBody = ResultJson(videoUrl: Option<string>) | ResultNull | ResultBodyUnreadable

  /** A status for which `response.ok` is false: anything outside 200-299. */
  type FailStatus = s: int | !(200 <= s <= 299) witness 500

  /**
   * The merge service's answer. `Thrown` is a request that never produced a
   * response; its message is absent when what was thrown is not an `Error`.
   */
  datatype Reply =
    | Thrown(message: Option<string>)
    | NotOk(status: FailStatus, errorBody: ErrorBody)
    | OkReply(body: ResultBody)

  /** Why a merge failed; each is reported as "Failed to merge videos: ...". */
  datatype FailureReason =
    | RequestFailed(thrown: Option<string>)   // its message, or "Unknown error"
    | ServerSaid(message: string)             // the server's `error` field
    | HttpStatus(status: int)                 // "HTTP error! status: N"
    | FieldOfNull                             // the TypeError of reading a field of a `null` body
    | ResultUnreadable                        // the SyntaxError of an ok body that is not JSON
    | NoVideoUrlReturned                      // "No video URL returned from server"

  /**
   * The steps of the download, in order: `fetch` of the merged video, reading
   * its blob, `createObjectURL`, and saving through a temporary anchor (append,
   * click, remove). `revokeObjectURL` follows only once all of them completed.
   */
  datatype DownloadStep = Fetch | ReadBlob | CreateObjectUrl | Save

  const DownloadSteps: seq<DownloadStep> := [Fetch, ReadBlob, CreateObjectUrl, Save]

  /** How the download of the merged video ended: completed, or failed at one step. */
  datatype DownloadAttempt = Downloaded | FailedAt(step: DownloadStep)

  /** Where a step stands in the download. */
  function Position(step: DownloadStep): (i: nat)
    ensures i < |DownloadSteps| && DownloadSteps[i] == step
  {
    match step
    case Fetch => 0
    case ReadBlob => 1
    case CreateObjectUrl => 2
    case Save => 3
  }

  /** The steps that completed: all of them, or those before the failing one. */
  function StepsCompleted(d: DownloadAttempt): seq<DownloadStep>
  {
    match d
    case Downloaded => DownloadSteps
    case FailedAt(step) => DownloadSteps[..Position(step)]
  }

  /** An object URL exists once `createObjectURL` completed. */
  predicate ObjectUrlCreated(d: DownloadAttempt)
  {
    CreateObjectUrl in StepsCompleted(d)
  }

  /** `revokeObjectURL` runs after the save, outside any `finally`: only when every step completed. */
  predicate ObjectUrlRevoked(d: DownloadAttempt)
  {
    StepsCompleted(d) == DownloadSteps
  }

  /** A merge either fails, or succeeds with the merged video's URL and a download attempt. */
  datatype MergeOutcome =
    | MergeFailed(reason: FailureReason)
    | Merged(resultUrl: string, delivery: DownloadAttempt)

  /** The notices the user sees, in the order they are issued. */
  datatype Notice =
    | MergedNotice(count: nat)      // "Successfully merged N videos!"
    | DownloadedNotice              // "Video downloaded successfully!"
    | DownloadFailedNotice          // "Video merged but download failed. ..."
    | MergeFailedNotice(reason: FailureReason)

  /** The message a non-ok reply is reported with. */
  function ServerFailure(status: int, body: ErrorBody): (reason: FailureReason)
    ensures body.ErrorJson? && Truthy(body.error) ==> reason == ServerSaid(body.error.value)
    ensures body.ErrorJson? && !Truthy(body.error) ==> reason == HttpStatus(status)
    ensures body.ErrorNull? ==> reason == FieldOfNull
    ensures body.ErrorBodyUnreadable? ==> reason == ServerSaid("Unknown error")
  {
    match body
    case ErrorBodyUnreadable => ServerSaid("Unknown error")
    case ErrorNull => FieldOfNull
    case ErrorJson(error) => if Truthy(error) then ServerSaid(error.value) else HttpStatus(status)
  }

  /**
   * Sorting the reply: only an ok reply whose JSON carries a non-empty
   * `video_url` is a success, and only a success involves the download.
   */
  function Classify(reply: Reply, download: DownloadAttempt): (r: MergeOutcome)
    ensures r.Merged? <==> reply.OkReply? && reply.body.ResultJson? && Truthy(reply.body.videoUrl)
    ensures r.Merged? ==> r.resultUrl == reply.body.videoUrl.value && r.resultUrl != "" && r.delivery == download
    ensures reply.Thrown? ==> r == MergeFailed(RequestFailed(reply.message))
    ensures reply.NotOk? ==> r == MergeFailed(ServerFailure(reply.status, reply.errorBody))
    ensures reply.OkReply? && reply.body.ResultBodyUnreadable? ==> r == MergeFailed(ResultUnreadable)
    ensures reply.OkReply? && reply.body.ResultNull? ==> r == MergeFailed(FieldOfNull)
    ensures reply.OkReply? && reply.body.ResultJson? && !Truthy(reply.body.videoUrl) ==>
              r == MergeFailed(NoVideoUrlReturned)
  {
    match reply
    case Thrown(message) => MergeFailed(RequestFailed(message))
    case NotOk(status, body) => MergeFailed(ServerFailure(status, body))
    case OkReply(ResultBodyUnreadable) => MergeFailed(ResultUnreadable)
    case OkReply(ResultNull) => MergeFailed(FieldOfNull)
    case OkReply(ResultJson(videoUrl)) =>
      if Truthy(videoUrl) then Merged(videoUrl.value, download) else MergeFailed(NoVideoUrlReturned)
  }

  /** The notices a finished merge of `count` clips issues, in order. */
  function Notices(count: nat, outcome: MergeOutcome): (ns: seq<Notice>)
    ensures outcome.Merged? ==> |ns| == 2 && ns[0] == MergedNotice(count)
    ensures outcome.Merged? ==> ns[1] == (if outcome.delivery == Downloaded then DownloadedNotice else DownloadFailedNotice)
    ensures outcome.MergeFailed? ==> ns == [MergeFailedNotice(outcome.reason)]
  {
    match outcome
    case MergeFailed(reason) => [MergeFailedNotice(reason)]
    case Merged(_, Downloaded) => [MergedNotice(count), DownloadedNotice]
    case Merged(_, _) => [MergedNotice(count), DownloadFailedNotice]
  }

  /**
   * A download failure does not turn a merge into a failure: whether the merge
   * succeeded, and with which URL, depends on the reply alone, and a failed
   * merge looks the same whatever the download would have done.
   */
  lemma DownloadNeverUndoesMerge(reply: Reply, d1: DownloadAttempt, d2: DownloadAttempt)
    ensures Classify(reply, d1).Merged? == Classify(reply, d2).Merged?
    ensures Classify(reply, d1).Merged? ==> Classify(reply, d1).resultUrl == Classify(reply, d2).resultUrl
    ensures Classify(reply, d1).MergeFailed? ==> Classify(reply, d1) == Classify(reply, d2)
  {
  }

  /**
   * On a successful merge the success notice comes first and names the number
   * of clips; the download then adds one notice of its own, and no
   * merge-failure notice is ever issued. A failed merge issues exactly one
   * failure notice and nothing about a download.
   */
  lemma NoticesOfMerge(count: nat, reply: Reply, download: DownloadAttempt)
    ensures var ns := Notices(count, Classify(reply, download));
      Classify(reply, download).Merged? ==>
        |ns| == 2 && ns[0] == MergedNotice(count) &&
        ns[1] == (if download == Downloaded then DownloadedNotice else DownloadFailedNotice) &&
        forall k :: 0 <= k < |ns| ==> !ns[k].MergeFailedNotice?
    ensures var ns := Notices(count, Classify(reply, download));
      Classify(reply, download).MergeFailed? ==>
        ns == [MergeFailedNotice(Classify(reply, download).reason)]
  {
  }

  /**
   * The object URL is revoked exactly when the download completed, and it is
   * left unrevoked exactly when the save failed after the URL was created; a
   * failure at an earlier step never created one.
   */
  lemma ObjectUrlRevokedOnlyOnCompletion(d: DownloadAttempt)
    ensures ObjectUrlRevoked(d) <==> d == Downloaded
    ensures ObjectUrlRevoked(d) ==> ObjectUrlCreated(d)
    ensures ObjectUrlCreated(d) && !ObjectUrlRevoked(d) <==> d == FailedAt(Save)
  {
    match d
    case Downloaded =>
      assert DownloadSteps[2] == CreateObjectUrl;
    case FailedAt(step) =>
      var done := DownloadSteps[..Position(step)];
      assert |done| < |DownloadSteps|;
      if step == Save {
        assert done[2] == CreateObjectUrl;
      } else {
        assert forall k :: 0 <= k < |done| ==> done[k] != CreateObjectUrl;
      }
  }
}
