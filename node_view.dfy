/** The view of one node on the canvas (NodeView.swift): its frame, the node it shows, and
    the edge test that asks the canvas to grow while the node is dragged.

    The size UIKit measures for the node's text is an input: `Measure` gives, for a text,
    the width the text view needs (`sizeThatFits`) and the height of the label at the
    width chosen for it. */
module NodeViews {
  import opened Common
  import opened NodeTree

  /** An edge of the canvas. */
  datatype Direction = Top | Bottom | Left | Right

  type Measure = string -> Size

  const ViewHeight: real := 120.0
  const MinWidth: real := 120.0
  const MaxWidth: real := 350.0
  const Padding: real := 16.0

  /** How close to an edge a drag must come for the canvas to grow on that side. */
  const ExpandMargin: real := 100.0

  /** The text a node shows once editing ends with an empty text. */
  const Placeholder: string := "Type your idea here..."

  /** The order in which `needsExpand` reports edges. */
  function EdgeOrder(d: Direction): nat {
    match d
    case Right => 0
    case Left => 1
    case Bottom => 2
    case Top => 3
  }

  /** `needsExpand(location:)`: the edges of the canvas (the view's superview, `None` when
      there is none) that lie within 100 of the location, reported right, left, bottom,
      top. */
  function NeedsExpand(container: Option<Size>, location: Point): (r: seq<Direction>)
    ensures container.None? ==> r == []
    ensures Right in r <==> container.Some? && container.value.width - location.x <= ExpandMargin
    ensures Left in r <==> container.Some? && location.x <= ExpandMargin
    ensures Bottom in r <==> container.Some? && container.value.height - location.y <= ExpandMargin
    ensures Top in r <==> container.Some? && location.y <= ExpandMargin
    ensures forall i, j :: 0 <= i < j < |r| ==> EdgeOrder(r[i]) < EdgeOrder(r[j])
  {
    match container
    case None => []
    case Some(size) =>
      (if size.width - location.x <= ExpandMargin then [Right] else [])
      + (if location.x <= ExpandMargin then [Left] else [])
      + (if size.height - location.y <= ExpandMargin then [Bottom] else [])
      + (if location.y <= ExpandMargin then [Top] else [])
  }

  /** A location farther than 100 from every edge of the canvas makes it grow nowhere. */
  lemma InteriorNeedsNothing(size: Size, location: Point)
    requires ExpandMargin < location.x < size.width - ExpandMargin
    requires ExpandMargin < location.y < size.height - ExpandMargin
    ensures NeedsExpand(Some(size), location) == []
  {
  }

  /** The frame `init(at:name:node:isRoot:)` starts from: a 120 by 120 square centred on
      the position. */
  function InitialFrame(position: Point): (r: Rect)
    ensures r.Center() == position
    ensures r.width == 120.0 && r.height == 120.0
  {
    Rect(position.x - 120.0 / 2.0, position.y - 120.0 / 2.0, 120.0, 120.0)
  }

  /** The frame after `update()`: as wide as the text needs plus padding on both sides but
      never narrower than `minWidth`, centred on the same x, with the same top edge, as
      tall as the label plus padding above and below. */
  function UpdatedFrame(frame: Rect, fitted: Size): (r: Rect)
    ensures r.width >= MinWidth && r.width >= fitted.width + 2.0 * Padding
    ensures r.width == MinWidth || r.width == fitted.width + 2.0 * Padding
    ensures r.Center().x == frame.Center().x
    ensures r.y == frame.y && r.height == fitted.height + 2.0 * Padding
  {
    var width := if MinWidth >= fitted.width + 2.0 * Padding then MinWidth else fitted.width + 2.0 * Padding;
    Rect(frame.Center().x - width / 2.0, frame.y, width, fitted.height + 2.0 * Padding)
  }

  /** The text `textViewDidEndEditing` keeps: the placeholder instead of an empty text. It
      is never empty. */
  function CommittedText(text: string): (r: string)
    ensures r != []
    ensures text != [] ==> r == text
    ensures text == [] ==> r == Placeholder
  {
    if text == [] then Placeholder else text
  }

  class NodeView {
    var frame: Rect
    /** The node the view shows; `init` sets it and nothing changes it afterwards. */
    const node: Option<Uuid>
    const isRoot: bool
    /** The text of the view's text view. */
    var text: string

    /** `init(at:name:node:isRoot:)`: the square around the position, showing the name,
        then `update()`. */
    constructor (position: Point, name: string, node: Uuid, isRoot: bool, measure: Measure)
      ensures frame == UpdatedFrame(InitialFrame(position), measure(name))
      ensures this.node == Some(node) && this.isRoot == isRoot && text == name
    {
      frame := InitialFrame(position);
      text := name;
      this.node := Some(node);
      this.isRoot := isRoot;
      new;
      Update(measure);
    }

    /** `update()`: resizes the frame to the text. */
    method Update(measure: Measure)
      modifies this
      ensures frame == UpdatedFrame(old(frame), measure(old(text)))
      ensures text == old(text)
    {
      frame := UpdatedFrame(frame, measure(text));
    }

    /** `textViewDidEndEditing`: puts the placeholder in place of an empty text, resizes
        the frame, and hands the text to the delegate's `didEditText` (returned). */
    method TextViewDidEndEditing(measure: Measure) returns (edited: string)
      modifies this
      ensures edited == CommittedText(old(text)) && text == edited && edited != []
      ensures frame == UpdatedFrame(old(frame), measure(edited))
    {
      text := CommittedText(text);
      Update(measure);
      edited := text;
    }
  }
}
