# Merge-videos action of the storydeck-studio canvas toolbar

This project models the "Merge" button of the canvas toolbar in
storydeck-studio (`frontend/src/components/canvas/CanvasToolbar.tsx`). The user
builds a tree of frames on a tldraw canvas. Frames are joined by generation
arrows, and each arrow can carry a finished video clip. Pressing Merge with a
frame selected does the following:

1. It picks the first selected shape whose type is `"aspect-frame"`.
2. It asks the frame graph for the root-to-frame path.
3. It collects the video URL of every finished arrow on that path, root first.
4. It runs its checks in a fixed order, and the first failing check decides the
   one error shown.
5. It posts the URL list to the merge service. While the request is in flight,
   the `isMerging` flag disables the button.
6. It sorts the reply into a server error, a malformed response or a success.
   A success is followed by a download, and a failed download does not undo
   the merge.

Modules:

- `Wrappers` (`wrappers.dfy`): `Option`, `Result`, and JavaScript truthiness of
  an optional string.
- `Shapes` (`shapes.dfy`): the editor snapshot (shapes by id, the selection),
  path nodes, and the choice of the selected frame.
- `VideoPath` (`video_path.dfy`): the clip list of a path. `Extracted` is the
  specification. `CollectVideoUrls` is the source's index loop, proved equal to
  it. `Sources` gives the path indices the clips come from, and the lemmas state
  order, exactness and length.
- `MergeReply` (`merge_reply.dfy`): how a reply is classified, the notices shown
  to the user, and the download attempt.
- `CanvasToolbar` (`canvas_toolbar.dfy`): the precondition chain `Preflight` and
  the class `MergeToolbar`, which holds `isMerging`. The handler awaits the
  merge service, so it is split at that point. `BeginMerge` runs from the button
  press until the request is sent. `FinishMerge` runs from the reply through
  the `finally` block.

Inputs the toolbar gets from outside are parameters of the model:

- the editor (`editorRef.current`; `None` means not ready);
- the frame graph's `getFramePath`, as a function from frame id to path;
- the merge service's reply;
- how the download ended.

The download releases its object URL only on the success path.
`revokeObjectURL` runs after a completed save (line 177), not in a `finally`.
So a save that fails after `createObjectURL` leaves the URL unrevoked, as
`ObjectUrlRevokedOnlyOnCompletion` states.

`handleMergeVideos` never tests `isMerging` itself. The only guard against a
second merge is the button's `disabled={isMerging}` (line 231), which
`BeginMerge` models as a press that does nothing.

## Model

| member | source | states |
|---|---|---|
| `Shapes.FirstFrameIndex` | frontend/src/components/canvas/CanvasToolbar.tsx:88-90 | the index found is the first selected id whose shape exists and has type "aspect-frame"; none is found exactly when no selected id is such a frame |
| `Shapes.SelectFrame` | frontend/src/components/canvas/CanvasToolbar.tsx:85-95 | the chosen frame is a selected aspect frame preceded by no other selected aspect frame; there is no choice exactly when the selection has no aspect frame |
| `VideoPath.Contributes` | frontend/src/components/canvas/CanvasToolbar.tsx:114-118 | a path element adds a clip when its arrow id is set, the shape is found, its type is "arrow", its `meta.videoUrl` is a non-empty string and its `meta.status` is "done" |
| `VideoPath.ClipUrl` | frontend/src/components/canvas/CanvasToolbar.tsx:117-119 | a contributing arrow's clip URL is a non-empty string |
| `VideoPath.CollectVideoUrls` | frontend/src/components/canvas/CanvasToolbar.tsx:107-123 | the index loop from 1 that pushes finished clips returns exactly the path's clip list `Extracted` |
| `VideoPath.SourcesExactlyContributing` | frontend/src/components/canvas/CanvasToolbar.tsx:110-121 | an index is a clip source exactly when it is after the root and its arrow id is set, the shape exists, is an arrow, and has a non-empty videoUrl with status "done" |
| `VideoPath.SourcesIncreasing` | frontend/src/components/canvas/CanvasToolbar.tsx:106-110 | clip sources lie in [1, n) and are listed in strictly increasing path order |
| `VideoPath.ClipsFollowSources` | frontend/src/components/canvas/CanvasToolbar.tsx:110-121 | the k-th collected URL is the clip of the k-th source, so there is one URL per contributing element and none for the others |
| `VideoPath.ExtractedInPathOrder` | frontend/src/components/canvas/CanvasToolbar.tsx:106-123 | for the whole path, an element at index i contributes before one at index j whenever i < j, the root never contributes, and every contributing element adds exactly its clip |
| `VideoPath.ClipsLengthBound` | frontend/src/components/canvas/CanvasToolbar.tsx:110-119 | the first n path elements yield at most n - 1 URLs |
| `VideoPath.Extracted` | frontend/src/components/canvas/CanvasToolbar.tsx:107-123 | the path's clip list has at most path.length - 1 URLs, none for a root-only path, and every URL is a non-empty string |
| `VideoPath.ExtractedEmptyIff` | frontend/src/components/canvas/CanvasToolbar.tsx:107-123 | the list is empty exactly when no element after the root contributes; skipped elements raise no error |
| `MergeReply.ServerFailure` | frontend/src/components/canvas/CanvasToolbar.tsx:148-154 | a non-ok reply fails with the server's non-empty `error` field, else with "HTTP error! status: N"; an unreadable error body gives "Unknown error", and a `null` JSON body fails with the TypeError of reading its `error` field |
| `MergeReply.Classify` | frontend/src/components/canvas/CanvasToolbar.tsx:139-162 | success exactly for an ok reply whose JSON has a non-empty `video_url`, carrying that URL and the download attempt; otherwise a thrown request fails with its message, a non-ok reply as `ServerFailure` gives, a `null` ok body with the TypeError of reading its field, an ok body that is not JSON with the parse error, and an ok JSON body without `video_url` with "No video URL returned from server" |
| `MergeReply.Notices` | frontend/src/components/canvas/CanvasToolbar.tsx:164-188 | a merged outcome issues the "merged N videos" notice and then the download's notice, which is the success notice exactly when the download completed; a failed merge issues exactly one failure notice with its reason |
| `MergeReply.DownloadNeverUndoesMerge` | frontend/src/components/canvas/CanvasToolbar.tsx:164-184 | whether the merge succeeded, and its URL, do not depend on the download; a failed merge is the same whatever the download would have done |
| `MergeReply.NoticesOfMerge` | frontend/src/components/canvas/CanvasToolbar.tsx:164-188 | for any reply and download: on success the "merged N videos" notice comes first, then "Video downloaded successfully!" if the download completed and "Video merged but download failed" otherwise, with no merge-failure notice; a failed merge issues only its failure notice |
| `MergeReply.ObjectUrlRevokedOnlyOnCompletion` | frontend/src/components/canvas/CanvasToolbar.tsx:168-184 | from the order of the download steps: the object URL is revoked exactly when the download completed, and it is left unrevoked exactly when the save failed after `createObjectURL` |
| `CanvasToolbar.Preflight` | frontend/src/components/canvas/CanvasToolbar.tsx:77-133 | "editor not ready" exactly when there is no editor; "no frame" exactly when the editor is ready and no selected shape is an aspect frame; a passing chain yields at least 2 non-empty URLs |
| `CanvasToolbar.PreflightVerdicts` | frontend/src/components/canvas/CanvasToolbar.tsx:98-133 | each later check's error is reported exactly when the earlier checks pass and it fails (empty path; no contributing element; exactly one contributing element); the chain passes exactly when at least two elements contribute, and the body is then the path's clip list in order |
| `CanvasToolbar.RootTargetHasNoVideos` | frontend/src/components/canvas/CanvasToolbar.tsx:98-128 | when the selected frame is the root (path of length 1), the action reports "No videos found" |
| `CanvasToolbar.TwoDoneStepsAreMerged` | frontend/src/components/canvas/CanvasToolbar.tsx:85-133 | root, A1 done (url1), F1, A2 done (url2), selected F2: the request body is [url1, url2] |
| `CanvasToolbar.RunningStepLeavesOneVideo` | frontend/src/components/canvas/CanvasToolbar.tsx:114-133 | the same canvas with A2 still running: one clip is found and the action reports "At least 2 videos are required" |
| `CanvasToolbar.MergeToolbar.constructor` | frontend/src/components/canvas/CanvasToolbar.tsx:23 | the toolbar starts not merging, with nothing sent |
| `CanvasToolbar.MergeToolbar.BeginMerge` | frontend/src/components/canvas/CanvasToolbar.tsx:76-146 | a press while merging (button disabled, line 231) changes nothing and sends nothing; otherwise a failing check is reported with state unchanged; only when all checks pass is `isMerging` set and exactly one request sent, its body the extracted list |
| `CanvasToolbar.MergeToolbar.FinishMerge` | frontend/src/components/canvas/CanvasToolbar.tsx:148-192 | the outcome is the classified reply and the notices follow it; on success the first notice counts the URLs of the last request sent; `isMerging` is false afterwards whatever the reply and the download, and nothing more is sent |

## Left out

- Credit balance fetch and realtime subscription (`CanvasToolbar.tsx:27-74`): database and network I/O with a subscription lifecycle.
- Download mechanics (`fetch`, `blob`, `createObjectURL`, anchor click, `revokeObjectURL`, the timestamped file name): reduced to the step at which the attempt failed, if any (`DownloadAttempt`). A download whose HTTP status is an error still resolves `fetch`; the model only sees how the attempt ended.
- `frameGraph.getFramePath`: the frame graph context is not part of this model. The path is an input function, so root reachability and cycles are not modelled.
- `apiFetch`, the backend URL and JSON serialisation of `{ video_urls }`: the request is recorded as its URL list in the ghost log `sent`. The reply is an input value.
- Toast text, `console` logging, `navigate`, and all JSX other than `disabled={isMerging}`: errors and notices are structured values, not formatted strings.
- The dynamic types behind the TypeScript casts: `meta.videoUrl`, `meta.status`, and the server's `error` and `video_url` fields are modelled as optional strings. A non-string truthy value is not modelled. A `null` reply body is modelled; other non-object JSON bodies are read as having no field.
- `CanvasToolbar.MergeToolbar.BeginMerge`: it models the button's `disabled` attribute as the first step of the press. `handleMergeVideos` itself does not test `isMerging`, and the button is its only caller.
- The rest of the repository (pricing, dashboard, landing components, navigation bar, background, bootstrap): payment, profile and presentation code with no merge logic.
