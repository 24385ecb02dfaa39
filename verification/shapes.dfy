/**
 * The editor snapshot the merge action reads: the shapes on the canvas, the
 * current selection, and the root-to-target path nodes that the frame graph
 * hands back for a frame.
 */
module Shapes {
  import opened Wrappers

  /** Opaque shape identifier. */
  type Id = string

  /**
   * A canvas shape: its `type` discriminator and the two entries of its `meta`
   * record the merge action looks at. A shape without `meta` has both absent.
   */
  datatype Shape = Shape(kind: string, status: Option<string>, videoUrl: Option<string>)

  /** One element of a frame path: the frame and the arrow that produced it. */
  datatype PathNode = PathNode(frameId: Id, arrowId: Option<Id>)

  /** What `editor.getShape` and `editor.getSelectedShapeIds` see. */
  datatype Editor = Editor(shapes: map<Id, Shape>, selected: seq<Id>)

  const AspectFrame: string := "aspect-frame"
  const ArrowKind: string := "arrow"
  const Done: string := "done"

  /** `editor.getShape(id)?.type === "aspect-frame"` */
  predicate IsAspectFrame(shapes: map<Id, Shape>, id: Id)
  {
    id in shapes && shapes[id].kind == AspectFrame
  }

  /**
   * The position of the first selected id whose shape is an aspect frame:
   * the `map(getShape).find(...)` over the selection.
   */
  function FirstFrameIndex(selected: seq<Id>, shapes: map<Id, Shape>): (r: Option<nat>)
    ensures r.Some? ==> r.value < |selected| && IsAspectFrame(shapes, selected[r.value])
    ensures r.Some? ==> forall j :: 0 <= j < r.value ==> !IsAspectFrame(shapes, selected[j])
    ensures r.None? <==> forall k :: 0 <= k < |selected| ==> !IsAspectFrame(shapes, selected[k])
  {
    if selected == [] then None
    else if IsAspectFrame(shapes, selected[0]) then Some(0)
    else
      match FirstFrameIndex(selected[1..], shapes)
      case None => None
      case Some(i) => Some(i + 1)
  }

  /** The id of the selected frame the merge starts from, if any. */
  function SelectFrame(selected: seq<Id>, shapes: map<Id, Shape>): (r: Option<Id>)
    ensures r.Some? ==> r.value in selected && IsAspectFrame(shapes, r.value)
    ensures r.None? <==> forall k :: 0 <= k < |selected| ==> !IsAspectFrame(shapes, selected[k])
    ensures r.Some? ==>
              exists k :: 0 <= k < |selected| && selected[k] == r.value &&
                          forall j :: 0 <= j < k ==> !IsAspectFrame(shapes, selected[j])
  {
    match FirstFrameIndex(selected, shapes)
    case None => None
    case Some(k) => Some(selected[k])
  }
}
