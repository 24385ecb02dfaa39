/**
 * Collecting the video clips along a root-to-target frame path: every path
 * element after the root whose arrow is a finished generation step adds that
 * step's video URL, in path order.
 */
module VideoPath {
  import opened Wrappers
  import opened Shapes

  /**
   * Whether path element `node` adds a clip: its arrow id is set, the shape
   * exists and is an arrow, its video URL is a non-empty string and its
   * status is "done".
   */
  predicate Contributes(shapes: map<Id, Shape>, node: PathNode)
  {
    Truthy(node.arrowId) && node.arrowId.value in shapes &&
    shapes[node.arrowId.value].kind == ArrowKind &&
    Truthy(shapes[node.arrowId.value].videoUrl) &&
    shapes[node.arrowId.value].status == Some(Done)
  }

  /** The clip URL a contributing path element adds. */
  function ClipUrl(shapes: map<Id, Shape>, node: PathNode): (url: string)
    requires Contributes(shapes, node)
    ensures url != ""
  {
    shapes[node.arrowId.value].videoUrl.value
  }

  /** What one path element adds to the list: its clip, or nothing. */
  function Contribution(shapes: map<Id, Shape>, node: PathNode): seq<string>
  {
    if Contributes(shapes, node) then [ClipUrl(shapes, node)] else []
  }

  /** The URLs collected from path indices 1 .. n-1, in index order. */
  function ClipsUpTo(path: seq<PathNode>, shapes: map<Id, Shape>, n: nat): seq<string>
    requires n <= |path|
  {
    if n <= 1 then [] else ClipsUpTo(path, shapes, n - 1) + Contribution(shapes, path[n - 1])
  }

  /** The path indices among 1 .. n-1 that contribute, in increasing order. */
  function SourcesUpTo(path: seq<PathNode>, shapes: map<Id, Shape>, n: nat): seq<nat>
    requires n <= |path|
  {
    if n <= 1 then []
    else SourcesUpTo(path, shapes, n - 1) + (if Contributes(shapes, path[n - 1]) then [n - 1] else [])
  }

  /**
   * The clip URLs of the whole path: at most one per element after the root,
   * none for a root-only path, and each a non-empty string.
   */
  function Extracted(path: seq<PathNode>, shapes: map<Id, Shape>): (urls: seq<string>)
    ensures |path| >= 1 ==> |urls| <= |path| - 1
    ensures |path| <= 1 ==> urls == []
    ensures forall k :: 0 <= k < |urls| ==> urls[k] != ""
  {
    ClipsFollowSources(path, shapes, |path|);
    if |path| >= 1 then
      ClipsLengthBound(path, shapes, |path|);
      ClipsUpTo(path, shapes, |path|)
    else
      ClipsUpTo(path, shapes, |path|)
  }

  /** The path indices whose clips make up `Extracted(path, shapes)`. */
  function Sources(path: seq<PathNode>, shapes: map<Id, Shape>): seq<nat>
  {
    SourcesUpTo(path, shapes, |path|)
  }

  function Min(a: int, b: int): int
  {
    if a <= b then a else b
  }

  /**
   * The loop of the merge action: walks the path from index 1 and appends the
   * clip of every contributing element.
   */
  method CollectVideoUrls(path: seq<PathNode>, shapes: map<Id, Shape>) returns (videoUrls: seq<string>)
    ensures videoUrls == Extracted(path, shapes)
  {
    videoUrls := [];
    var i := 1;
    while i < |path|
      invariant 1 <= i
      invariant |path| > 0 ==> i <= |path|
      invariant videoUrls == ClipsUpTo(path, shapes, Min(i, |path|))
    {
      var node := path[i];
      if node.arrowId.Some? && node.arrowId.value != "" {
        var arrowId := node.arrowId.value;
        if arrowId in shapes && shapes[arrowId].kind == ArrowKind {
          var arrow := shapes[arrowId];
          if arrow.videoUrl.Some? && arrow.videoUrl.value != "" && arrow.status == Some(Done) {
            videoUrls := videoUrls + [arrow.videoUrl.value];
          }
        }
      }
      i := i + 1;
    }
  }

  /** Exactly the path indices 1 .. n-1 that contribute are sources; the root never is. */
  lemma {:induction false} SourcesExactlyContributing(path: seq<PathNode>, shapes: map<Id, Shape>, n: nat)
    requires n <= |path|
    ensures forall i :: i in SourcesUpTo(path, shapes, n) <==> 1 <= i < n && Contributes(shapes, path[i])
  {
    if n > 1 {
      SourcesExactlyContributing(path, shapes, n - 1);
    }
  }

  /** Sources are listed in strictly increasing path order, all below n and above the root. */
  lemma {:induction false} SourcesIncreasing(path: seq<PathNode>, shapes: map<Id, Shape>, n: nat)
    requires n <= |path|
    ensures forall k :: 0 <= k < |SourcesUpTo(path, shapes, n)| ==> 1 <= SourcesUpTo(path, shapes, n)[k] < n
    ensures forall a, b :: 0 <= a < b < |SourcesUpTo(path, shapes, n)| ==>
              SourcesUpTo(path, shapes, n)[a] < SourcesUpTo(path, shapes, n)[b]
  {
    if n > 1 {
      SourcesIncreasing(path, shapes, n - 1);
    }
  }

  /** The k-th collected URL is the clip of the k-th source, one URL per source. */
  lemma {:induction false} ClipsFollowSources(path: seq<PathNode>, shapes: map<Id, Shape>, n: nat)
    requires n <= |path|
    ensures |ClipsUpTo(path, shapes, n)| == |SourcesUpTo(path, shapes, n)|
    ensures forall k :: 0 <= k < |SourcesUpTo(path, shapes, n)| ==>
              SourcesUpTo(path, shapes, n)[k] < |path| &&
              Contributes(shapes, path[SourcesUpTo(path, shapes, n)[k]]) &&
              ClipsUpTo(path, shapes, n)[k] == ClipUrl(shapes, path[SourcesUpTo(path, shapes, n)[k]])
  {
    if n > 1 {
      ClipsFollowSources(path, shapes, n - 1);
    }
  }

  /**
   * The collected list keeps path order: its k-th URL is the clip of path
   * element Sources[k], the sources increase strictly, the root (index 0)
   * never contributes, and an element after the root is a source exactly when
   * it contributes. So each contributing element adds one URL and every other
   * element adds none.
   */
  lemma ExtractedInPathOrder(path: seq<PathNode>, shapes: map<Id, Shape>)
    ensures |Extracted(path, shapes)| == |Sources(path, shapes)|
    ensures forall k :: 0 <= k < |Sources(path, shapes)| ==>
              1 <= Sources(path, shapes)[k] < |path| &&
              Contributes(shapes, path[Sources(path, shapes)[k]]) &&
              Extracted(path, shapes)[k] == ClipUrl(shapes, path[Sources(path, shapes)[k]])
    ensures forall a, b :: 0 <= a < b < |Sources(path, shapes)| ==> Sources(path, shapes)[a] < Sources(path, shapes)[b]
    ensures forall i :: i in Sources(path, shapes) <==> 1 <= i < |path| && Contributes(shapes, path[i])
  {
    SourcesExactlyContributing(path, shapes, |path|);
    SourcesIncreasing(path, shapes, |path|);
    ClipsFollowSources(path, shapes, |path|);
  }

  /** At most one URL per path element after the root. */
  lemma {:induction false} ClipsLengthBound(path: seq<PathNode>, shapes: map<Id, Shape>, n: nat)
    requires 1 <= n <= |path|
    ensures |ClipsUpTo(path, shapes, n)| <= n - 1
  {
    if n > 1 {
      ClipsLengthBound(path, shapes, n - 1);
    }
  }

  /** The list is empty exactly when no element after the root contributes. */
  lemma ExtractedEmptyIff(path: seq<PathNode>, shapes: map<Id, Shape>)
    ensures Extracted(path, shapes) == [] <==> forall i :: 1 <= i < |path| ==> !Contributes(shapes, path[i])
  {
    ExtractedInPathOrder(path, shapes);
    if Extracted(path, shapes) != [] {
      assert Sources(path, shapes)[0] in Sources(path, shapes);
    } else {
      forall i | 1 <= i < |path| ensures !Contributes(shapes, path[i]) {
        assert i !in Sources(path, shapes);
      }
    }
  }
}
