/**
 * The merge action of the canvas toolbar: an ordered chain of checks that
 * picks the selected frame and collects the clips on its path, and a busy
 * flag that lets at most one merge request be in flight.
 */
module CanvasToolbar {
  import opened Wrappers
  import opened Shapes
  import opened VideoPath
  import opened MergeReply

  /** The checks of the merge action, in the order they run. */
  datatype MergeError =
    | EditorNotReady      // "Editor not ready. ..."
    | NoFrameSelected     // "Please select a frame to merge videos from."
    | NoPathFound         // "No path found for the selected frame."
    | NoVideosInPath      // "No videos found in the path from root to selected frame."
    | InsufficientVideos  // "At least 2 videos are required for merging."

  /** What a press of the Merge button did. */
  datatype Press =
    | Ignored                       // the button was disabled
    | Rejected(error: MergeError)   // a check failed; nothing was sent
    | Submitted(body: seq<string>)  // the request went out with these URLs

  /** The root-to-target path of the selected frame, when a frame is selected. */
  function TargetPath(ed: Editor, framePath: Id -> seq<PathNode>): Option<seq<PathNode>>
  {
    match SelectFrame(ed.selected, ed.shapes)
    case None => None
    case Some(frame) => Some(framePath(frame))
  }

  /**
   * The precondition chain: the first failing check decides the one error
   * reported; when all pass, the result is the request body.
   */
  function Preflight(editor: Option<Editor>, framePath: Id -> seq<PathNode>): (r: Result<seq<string>, MergeError>)
    ensures r == Failure(EditorNotReady) <==> editor.None?
    ensures r == Failure(NoFrameSelected) <==>
              editor.Some? && forall k :: 0 <= k < |editor.value.selected| ==>
                                !IsAspectFrame(editor.value.shapes, editor.value.selected[k])
    ensures r.Success? ==> |r.value| >= 2 && forall k :: 0 <= k < |r.value| ==> r.value[k] != ""
  {
    match editor
    case None => Failure(EditorNotReady)
    case Some(ed) =>
      match TargetPath(ed, framePath)
      case None => Failure(NoFrameSelected)
      case Some(path) =>
        if |path| == 0 then Failure(NoPathFound)
        else
          var videoUrls := Extracted(path, ed.shapes);
          ExtractedInPathOrder(path, ed.shapes);
          if |videoUrls| == 0 then Failure(NoVideosInPath)
          else if |videoUrls| < 2 then Failure(InsufficientVideos)
          else Success(videoUrls)
  }

  /**
   * Which check decides, stated per error: each error is reported exactly when
   * every earlier check passed and its own fails, and the request body is the
   * path's clip list whenever all pass.
   */
  lemma PreflightVerdicts(editor: Option<Editor>, framePath: Id -> seq<PathNode>)
    ensures var r := Preflight(editor, framePath);
      r == Failure(NoPathFound) <==>
        editor.Some? && TargetPath(editor.value, framePath) == Some([])
    ensures var r := Preflight(editor, framePath);
      r == Failure(NoVideosInPath) <==>
        editor.Some? && TargetPath(editor.value, framePath).Some? &&
        var path := TargetPath(editor.value, framePath).value;
        |path| > 0 && forall i :: 1 <= i < |path| ==> !Contributes(editor.value.shapes, path[i])
    ensures var r := Preflight(editor, framePath);
      r == Failure(InsufficientVideos) <==>
        editor.Some? && TargetPath(editor.value, framePath).Some? &&
        |Sources(TargetPath(editor.value, framePath).value, editor.value.shapes)| == 1
    ensures var r := Preflight(editor, framePath);
      r.Success? <==>
        editor.Some? && TargetPath(editor.value, framePath).Some? &&
        |Sources(TargetPath(editor.value, framePath).value, editor.value.shapes)| >= 2
    ensures var r := Preflight(editor, framePath);
      r.Success? ==> r.value == Extracted(TargetPath(editor.value, framePath).value, editor.value.shapes)
  {
    if editor.Some? && TargetPath(editor.value, framePath).Some? {
      var path := TargetPath(editor.value, framePath).value;
      ExtractedInPathOrder(path, editor.value.shapes);
      ExtractedEmptyIff(path, editor.value.shapes);
    }
  }

  /** A target that is the root itself has no clips on its path. */
  lemma RootTargetHasNoVideos(ed: Editor, framePath: Id -> seq<PathNode>)
    requires TargetPath(ed, framePath).Some? && |TargetPath(ed, framePath).value| == 1
    ensures Preflight(Some(ed), framePath) == Failure(NoVideosInPath)
  {
  }

  /** A canvas with root R, then arrow A1 to F1, then arrow A2 to the selected frame F2. */
  function TwoStepCanvas(secondArrow: Shape): Editor
  {
    Editor(map["A1" := Shape(ArrowKind, Some(Done), Some("url1")), "A2" := secondArrow,
               "F2" := Shape(AspectFrame, None, None)],
           ["F2"])
  }

  function TwoStepPath(frame: Id): seq<PathNode>
  {
    [PathNode("R", None), PathNode("F1", Some("A1")), PathNode(frame, Some("A2"))]
  }

  /** Both steps done: the clips are sent root first. */
  lemma TwoDoneStepsAreMerged()
    ensures Preflight(Some(TwoStepCanvas(Shape(ArrowKind, Some(Done), Some("url2")))), TwoStepPath) ==
            Success(["url1", "url2"])
  {
    var ed := TwoStepCanvas(Shape(ArrowKind, Some(Done), Some("url2")));
    assert SelectFrame(ed.selected, ed.shapes) == Some("F2");
    var path := TwoStepPath("F2");
    assert Contributes(ed.shapes, path[1]) && Contributes(ed.shapes, path[2]);
    assert ClipsUpTo(path, ed.shapes, 2) == ["url1"];
    assert Extracted(path, ed.shapes) == ["url1"] + ["url2"];
    assert TargetPath(ed, TwoStepPath) == Some(path);
    assert ["url1"] + ["url2"] == ["url1", "url2"];
    assert Preflight(Some(ed), TwoStepPath) == Success(Extracted(path, ed.shapes));
  }

  /** The second step still running: one clip is found and the merge is refused. */
  lemma RunningStepLeavesOneVideo()
    ensures Preflight(Some(TwoStepCanvas(Shape(ArrowKind, Some("running"), None))), TwoStepPath) ==
            Failure(InsufficientVideos)
  {
    var ed := TwoStepCanvas(Shape(ArrowKind, Some("running"), None));
    assert SelectFrame(ed.selected, ed.shapes) == Some("F2");
    var path := TwoStepPath("F2");
    assert Contributes(ed.shapes, path[1]) && !Contributes(ed.shapes, path[2]);
    assert ClipsUpTo(path, ed.shapes, 2) == ["url1"];
  }

  /**
   * The toolbar's merge state. `isMerging` is the component's state flag;
   * `inFlight` is the URL list the suspended handler holds while it awaits
   * the reply; `sent` records every request body sent to the merge service.
   */
  class MergeToolbar {
    var isMerging: bool
    var inFlight: seq<string>
    ghost var sent: seq<seq<string>>

    /** Busy exactly while a request is in flight, and that request is the last one sent. */
    ghost predicate Valid()
      reads this
    {
      (isMerging ==> |inFlight| >= 2 && |sent| > 0 && sent[|sent| - 1] == inFlight) &&
      (!isMerging ==> inFlight == [])
    }

    /** `useState(false)` */
    constructor ()
      ensures Valid() && !isMerging && sent == []
    {
      isMerging := false;
      inFlight := [];
      sent := [];
    }

    /**
     * A press of the Merge button up to the moment the request is sent. While
     * a merge is in flight the button is disabled and the press does nothing.
     * Otherwise the checks run in order; only when all pass is the busy flag
     * set and one request sent, with the path's clips as its body.
     */
    method BeginMerge(editor: Option<Editor>, framePath: Id -> seq<PathNode>) returns (r: Press)
      requires Valid()
      modifies this
      ensures Valid()
      ensures old(isMerging) ==> r == Ignored && isMerging && inFlight == old(inFlight) && sent == old(sent)
      ensures !old(isMerging) ==>
                match Preflight(editor, framePath)
                case Failure(e) => r == Rejected(e) && !isMerging && inFlight == [] && sent == old(sent)
                case Success(body) =>
                  r == Submitted(body) && isMerging && inFlight == body && sent == old(sent) + [body]
    {
      if isMerging {
        return Ignored;
      }
      if editor.None? {
        return Rejected(EditorNotReady);
      }
      var ed := editor.value;
      var selectedFrame := SelectFrame(ed.selected, ed.shapes);
      if selectedFrame.None? {
        return Rejected(NoFrameSelected);
      }
      var path := framePath(selectedFrame.value);
      if |path| == 0 {
        return Rejected(NoPathFound);
      }
      var videoUrls := CollectVideoUrls(path, ed.shapes);
      if |videoUrls| == 0 {
        return Rejected(NoVideosInPath);
      }
      if |videoUrls| < 2 {
        return Rejected(InsufficientVideos);
      }
      isMerging := true;
      inFlight := videoUrls;
      sent := sent + [videoUrls];
      r := Submitted(videoUrls);
    }

    /**
     * The rest of the handler once the reply is in: classify it, issue the
     * notices (the merge-success notice before the download's own), and
     * clear the busy flag whatever the outcome.
     */
    method FinishMerge(reply: Reply, download: DownloadAttempt) returns (outcome: MergeOutcome, notices: seq<Notice>)
      requires Valid() && isMerging
      modifies this
      ensures Valid() && !isMerging && sent == old(sent)
      ensures outcome == Classify(reply, download)
      ensures notices == Notices(|old(inFlight)|, outcome)
      ensures outcome.Merged? ==> notices[0] == MergedNotice(|old(sent)[|old(sent)| - 1]|)
      ensures outcome.Merged? ==> notices[0] == MergedNotice(|old(inFlight)|)
    {
      outcome := Classify(reply, download);
      notices := Notices(|inFlight|, outcome);
      isMerging := false;
      inFlight := [];
    }
  }
}
