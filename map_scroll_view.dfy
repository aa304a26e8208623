/** The editing canvas of one map (MapScrollView.swift): the node tree of the document, the
    views that show its nodes, the canvas size, and the saves that follow every edit.

    `subviews` stands for the node views inside the canvas (`containerView.subviews`),
    in the order they were added; `nodeViews` is every node view the canvas has made.
    The rendering of the canvas that `saveMap` stores (`image(with:)`), the current time
    and the text measurements are inputs. */
module MapScroll {
  import opened Common
  import opened NodeTree
  import opened FileCells
  import opened MapFiles
  import opened Storage
  import opened NodeViews

  /** How far `expandView` grows the canvas. */
  const Step: real := 50.0

  /** The side of the canvas of a new map. */
  const DefaultSide: real := 2000.0

  const SaveError: string := "Wasn't able to save map"

  /** The canvas size after `expandView(direction:)`. */
  function Grown(size: Size, direction: Direction): Size {
    match direction
    case Top => Size(size.width, size.height + Step)
    case Bottom => Size(size.width, size.height + Step)
    case Left => Size(size.width + Step, size.height)
    case Right => Size(size.width + Step, size.height)
  }

  /** The canvas size after growing towards each direction of `directions` in turn. */
  function Expanded(size: Size, directions: seq<Direction>): Size
    decreases |directions|
  {
    if directions == [] then size
    else Grown(Expanded(size, directions[..|directions| - 1]), directions[|directions| - 1])
  }

  /** How many of the directions are horizontal (left or right). */
  function Horizontal(directions: seq<Direction>): nat {
    if directions == [] then 0
    else (if directions[0].Left? || directions[0].Right? then 1 else 0) + Horizontal(directions[1..])
  }

  /** Every horizontal request widens the canvas by 50 and every vertical one heightens
      it by 50; nothing else changes its size. */
  lemma {:induction false} ExpandedSize(size: Size, directions: seq<Direction>)
    ensures Expanded(size, directions).width == size.width + Step * Horizontal(directions) as real
    ensures Expanded(size, directions).height == size.height + Step * (|directions| - Horizontal(directions)) as real
    decreases |directions|
  {
    if directions != [] {
      var n := |directions|;
      ExpandedSize(size, directions[..n - 1]);
      HorizontalSnoc(directions[..n - 1], directions[n - 1]);
      assert directions[..n - 1] + [directions[n - 1]] == directions;
    }
  }

  lemma {:induction false} HorizontalSnoc(directions: seq<Direction>, d: Direction)
    ensures Horizontal(directions + [d]) == Horizontal(directions) + (if d.Left? || d.Right? then 1 else 0)
    ensures Horizontal(directions) <= |directions|
  {
    if directions != [] {
      assert (directions + [d])[1..] == directions[1..] + [d];
      HorizontalSnoc(directions[1..], d);
    }
  }

  /** The canvas never shrinks: after any further requests it is at least as wide and
      as tall as before them. */
  lemma {:induction false} ExpandedNeverShrinks(size: Size, directions: seq<Direction>, k: nat)
    requires k <= |directions|
    ensures Expanded(size, directions[..k]).width <= Expanded(size, directions).width
    ensures Expanded(size, directions[..k]).height <= Expanded(size, directions).height
    decreases |directions|
  {
    if k < |directions| {
      var n := |directions|;
      ExpandedNeverShrinks(size, directions[..n - 1], k);
      assert directions[..n - 1][..k] == directions[..k];
    } else {
      assert directions[..k] == directions;
    }
  }

  /** The frame of a view after `expandView(direction:)`: a growth at the top or the left
      moves it down or right by half a step, so that it stays in place relative to the
      centre of the grown canvas. */
  function Shifted(frame: Rect, direction: Direction): (r: Rect)
    ensures r.width == frame.width && r.height == frame.height
    ensures direction.Top? ==> r.x == frame.x && r.y == frame.y + Step / 2.0
    ensures direction.Left? ==> r.x == frame.x + Step / 2.0 && r.y == frame.y
    ensures direction.Bottom? || direction.Right? ==> r == frame
  {
    match direction
    case Top => frame.(y := frame.y + Step / 2.0)
    case Left => frame.(x := frame.x + Step / 2.0)
    case _ => frame
  }

  /** The elements of `views` that are not in `gone`, in order. */
  function Without(views: seq<NodeView>, gone: set<NodeView>): (r: seq<NodeView>)
    ensures forall i :: 0 <= i < |r| ==> r[i] in views && r[i] !in gone
    ensures forall i :: 0 <= i < |views| && views[i] !in gone ==> views[i] in r
    ensures Distinct(views) ==> Distinct(r)
    ensures (forall i :: 0 <= i < |views| ==> views[i] !in gone) ==> r == views
  {
    if views == [] then []
    else if views[0] in gone then Without(views[1..], gone)
    else
      var rest := Without(views[1..], gone);
      assert Distinct(views) ==> views[0] !in views[1..];
      [views[0]] + rest
  }

  /** Filtering works view by view: the views kept from a concatenation are those kept
      from its first part followed by those kept from its second part, so the kept views
      stay in order. */
  lemma {:induction false} WithoutAppend(a: seq<NodeView>, b: seq<NodeView>, gone: set<NodeView>)
    ensures Without(a + b, gone) == Without(a, gone) + Without(b, gone)
  {
    if a == [] {
      assert a + b == b;
    } else {
      assert (a + b)[0] == a[0];
      assert (a + b)[1..] == a[1..] + b;
      WithoutAppend(a[1..], b, gone);
    }
  }

  /** Removing one more view from a filtered sequence filters by the larger set. */
  lemma {:induction false} RemoveAllWithout(views: seq<NodeView>, gone: set<NodeView>, v: NodeView)
    ensures RemoveAll(Without(views, gone), v) == Without(views, gone + {v})
  {
    if views != [] {
      RemoveAllWithout(views[1..], gone, v);
    }
  }

  /** The views among `views` that show one of the nodes `ids`. */
  ghost function Showing(views: seq<NodeView>, ids: seq<Uuid>): set<NodeView>
  {
    set v | v in views && v.node.Some? && v.node.value in ids
  }

  /** One more view considered adds it to the views showing `ids` exactly when it shows
      one of them. */
  lemma ShowingExtend(views: seq<NodeView>, i: nat, ids: seq<Uuid>)
    requires i < |views|
    ensures Showing(views[..i + 1], ids) ==
            Showing(views[..i], ids) + (if views[i].node.Some? && views[i].node.value in ids then {views[i]} else {})
  {
    assert views[..i + 1] == views[..i] + [views[i]];
  }

  /** A file name made of a map name and an extension such as ".png" or ".mmd" can be
      written exactly when the map name holds no '/'. */
  lemma FlatWithExtension(name: string, extension: string)
    requires |extension| >= 3 && '/' !in extension
    ensures Flat(name + extension) <==> '/' !in name
  {
    var path := name + extension;
    if '/' in name {
      var k :| 0 <= k < |name| && name[k] == '/';
      assert path[k] == '/';
    } else {
      assert |path| >= 3;
      assert path != "" && path != "." && path != "..";
      forall k | 0 <= k < |path| ensures path[k] != '/' {
        if k < |name| { assert path[k] == name[k]; } else { assert path[k] == extension[k - |name|]; }
      }
    }
  }

  /** The files after `saveMap()` stores a map named `name`, and the message it reports:
      the preview first, then, when the state is set, the map file. The names can be
      written unless the map name holds a '/' (see `FlatWithExtension`). */
  function SaveOutcome(files: map<string, Data>, name: string, rootNode: NodeValue, size: Size,
                       state: Option<MapState>, screen: Image): (map<string, Data>, Status)
  {
    var png, mmd := name + PngExtension, name + MmdExtension;
    if '/' in name then (files, Failed(SaveError))
    else if state.None? then (files[png := PngData(screen)], Ok)
    else (files[png := PngData(screen)][mmd := Encode(MapFile(screen, rootNode, size, state.value))], Ok)
  }

  /** A save succeeds exactly when both names can be written; a failed save leaves every
      file as it was; a successful save leaves the canvas's rendering as the preview and,
      when the state is set, a map file that reads back as the map; no other file
      changes. */
  lemma SaveOutcomeEffects(files: map<string, Data>, name: string, rootNode: NodeValue, size: Size,
                           state: Option<MapState>, screen: Image)
    ensures var (after, report) := SaveOutcome(files, name, rootNode, size, state, screen);
      && (report.Ok? || report == Failed(SaveError))
      && (report.Ok? <==> Flat(name + PngExtension) && Flat(name + MmdExtension))
      && (report.Failed? ==> after == files)
      && (report.Ok? ==> name + PngExtension in after && after[name + PngExtension] == ImageData(screen))
      && (report.Ok? && state.Some? ==>
            name + MmdExtension in after && Decode(after[name + MmdExtension]) == Some(MapFile(screen, rootNode, size, state.value)))
      && (state.None? ==> name + MmdExtension !in files ==> name + MmdExtension !in after)
      && (forall p :: p != name + PngExtension && p != name + MmdExtension ==>
            (p in after <==> p in files) && (p in files ==> after[p] == files[p]))
  {
    FlatWithExtension(name, PngExtension);
    FlatWithExtension(name, MmdExtension);
    var png, mmd := name + PngExtension, name + MmdExtension;
    assert png[|name| + 1] != mmd[|name| + 1];
  }

  /** The views show the nodes `ids`, one each, in order. */
  ghost predicate ShowsInOrder(views: seq<NodeView>, ids: seq<Uuid>) {
    |views| == |ids| && forall k :: 0 <= k < |views| ==> views[k].node == Some(ids[k])
  }

  lemma ShowsInOrderAppend(views: seq<NodeView>, ids: seq<Uuid>, more: seq<NodeView>, moreIds: seq<Uuid>)
    requires ShowsInOrder(views, ids) && ShowsInOrder(more, moreIds)
    ensures ShowsInOrder(views + more, ids + moreIds)
  {
    forall k | 0 <= k < |views + more|
      ensures (views + more)[k].node == Some((ids + moreIds)[k])
    {
      if k >= |views| {
        assert (views + more)[k] == more[k - |views|];
      }
    }
  }

  /** The last node after drawing the nodes `ids` in order: the last of them, or the
      last node `before` when there are none. */
  function LastDrawn(ids: seq<Uuid>, before: Option<Uuid>): Option<Uuid> {
    if ids == [] then before else Some(ids[|ids| - 1])
  }

  lemma LastDrawnAppend(ids: seq<Uuid>, more: seq<Uuid>, before: Option<Uuid>)
    ensures LastDrawn(ids + more, before) == LastDrawn(more, LastDrawn(ids, before))
  {
    if more == [] {
      assert ids + more == ids;
    } else {
      assert (ids + more)[|ids + more| - 1] == more[|more| - 1];
    }
  }

  /** Drawing the nodes `ids` took the canvas from the views `s0` and the last node `l0`
      to the views `s` and the last node `last`: the views that were there are kept in
      front, the new views after them show `ids` in order, and the last node is the last
      of `ids`. */
  ghost predicate Drew(s0: seq<NodeView>, l0: Option<Uuid>, ids: seq<Uuid>, s: seq<NodeView>, last: Option<Uuid>) {
    && |s0| <= |s| && s[..|s0|] == s0
    && ShowsInOrder(s[|s0|..], ids)
    && last == LastDrawn(ids, l0)
  }

  /** Drawing `a` and then `b` is drawing `a + b`. */
  lemma DrewAppend(s0: seq<NodeView>, l0: Option<Uuid>, a: seq<Uuid>, s1: seq<NodeView>, l1: Option<Uuid>,
                   b: seq<Uuid>, s2: seq<NodeView>, l2: Option<Uuid>)
    requires Drew(s0, l0, a, s1, l1) && Drew(s1, l1, b, s2, l2)
    ensures Drew(s0, l0, a + b, s2, l2)
  {
    assert s2[..|s0|] == s0 by {
      assert s2[..|s0|] == s2[..|s1|][..|s0|];
    }
    assert s2[|s0|..] == s1[|s0|..] + s2[|s1|..] by {
      assert s2 == s2[..|s1|] + s2[|s1|..];
    }
    ShowsInOrderAppend(s1[|s0|..], a, s2[|s1|..], b);
    LastDrawnAppend(a, b, l0);
  }

  /** Drawing one view of `c` and then `rest` is drawing `[c] + rest`. */
  lemma DrewCons(s0: seq<NodeView>, l0: Option<Uuid>, view: NodeView, c: Uuid, rest: seq<Uuid>, s: seq<NodeView>, last: Option<Uuid>)
    requires view.node == Some(c) && Drew(s0 + [view], Some(c), rest, s, last)
    ensures Drew(s0, l0, [c] + rest, s, last)
  {
    assert (s0 + [view])[|s0|..] == [view];
    DrewAppend(s0, l0, [c], s0 + [view], Some(c), rest, s, last);
  }

  class MapScrollView {
    /** `rootNode`: the document's node tree, when there is one. */
    var tree: Tree?
    var rootNodeName: Option<string>
    var mapFile: Option<MapFile>
    var state: Option<MapState>
    var nodeViews: seq<NodeView>
    var lastNode: Option<Uuid>
    /** The size of `containerView`, the canvas. */
    var containerSize: Size
    var subviews: seq<NodeView>
    const storage: FileStorage

    /** Each node view appears once on the canvas, was made by the canvas, and shows a
        node of the document. */
    ghost predicate Valid()
      reads this, tree, storage
    {
      && storage.Valid()
      && (tree != null ==> tree.Valid())
      && Distinct(subviews)
      && (forall v :: v in subviews ==> v in nodeViews)
      && (forall v :: v in subviews ==> tree != null && v.node.Some? && v.node.value in tree.nodes)
    }

    /** The name under which the document is saved: the root node's name. */
    function RootName(): string
      reads this, tree
      requires tree != null && tree.Valid()
    {
      tree.nodes[tree.root].name
    }

    /** The document's node tree as it is written into the map file. */
    function Document(): NodeValue
      reads this, tree
      requires tree != null && tree.Valid()
    {
      Snapshot(tree.nodes, tree.rank, tree.root)
    }

    /** The files, the report and the recorded map file are those of a `saveMap()` of the
        current document, the current canvas size and state, over the files `before` and
        the map file `mapBefore`: the map is recorded once the preview is written and only
        when the state is set, and is recorded even when writing the map file then fails. */
    ghost predicate SavedOver(before: map<string, Data>, mapBefore: Option<MapFile>, screen: Image, report: Status)
      reads this, tree, storage
      requires tree != null && tree.Valid()
    {
      && (storage.files, report) == SaveOutcome(before, RootName(), Document(), containerSize, state, screen)
      && mapFile == if '/' !in RootName() && state.Some?
                    then Some(MapFile(screen, Document(), containerSize, state.value))
                    else mapBefore
    }

    /** A canvas without a document, over the given document directory. */
    constructor (storage: FileStorage)
      requires storage.Valid()
      ensures Valid() && this.storage == storage
      ensures tree == null && subviews == [] && nodeViews == [] && mapFile == None && state == None
    {
      tree := null;
      rootNodeName := None;
      mapFile := None;
      state := None;
      nodeViews := [];
      lastNode := None;
      containerSize := Size(0.0, 0.0);
      subviews := [];
      this.storage := storage;
    }

    /** `configureUI(rootNodeName:)` with `setup(viewSize:)`: a new, empty 2000 by 2000
        canvas, the regular state, and the root's view added at the middle of the canvas. */
    method ConfigureUI(name: string, rootId: Uuid, measure: Measure) returns (rootView: NodeView?)
      requires Valid()
      modifies this`rootNodeName, this`state, this`containerSize, this`tree, this`lastNode, this`subviews, this`nodeViews, tree
      ensures Valid()
      ensures rootNodeName == Some(name) && state == Some(Regular) && containerSize == Size(DefaultSide, DefaultSide)
      ensures mapFile.None? ==> tree != null && fresh(tree)
      ensures mapFile.Some? ==> tree == old(tree)
      ensures rootView == null <==> tree == null
      ensures tree == null ==> subviews == [] && lastNode == None && nodeViews == old(nodeViews)
      ensures rootView != null ==>
                && fresh(rootView) && subviews == [rootView] && nodeViews == old(nodeViews) + [rootView]
                && rootView.node == Some(tree.root) && rootView.isRoot && rootView.text == name
                && rootView.frame == UpdatedFrame(InitialFrame(Point(DefaultSide / 2.0, DefaultSide / 2.0)), measure(name))
                && lastNode == Some(tree.root)
      ensures mapFile.None? && rootView != null ==>
                tree.root == rootId && tree.nodes == map[rootId := Node(name, Some(rootView.frame.Center()), [], None)]
      ensures mapFile.Some? && rootView != null ==>
                tree.nodes == old(tree.nodes)[tree.root := old(tree.nodes)[tree.root].(centerPosition := Some(Point(DefaultSide / 2.0, DefaultSide / 2.0)))]
    {
      rootNodeName := Some(name);
      containerSize := Size(DefaultSide, DefaultSide);
      subviews := [];
      state := Some(Regular);
      rootView := AddRootNode(Point(DefaultSide / 2.0, DefaultSide / 2.0), rootId, measure);
    }

    /** `addRootNode(at:)` on a canvas without views: without an opened map file the
        document becomes a new tree whose single root is named after the map and whose
        position is the centre of the root's view; with one, the existing root is placed at
        the location. The root's view, around the location, joins the canvas and the root
        becomes the last node. Without a document nothing is drawn (the `saveMap()` the
        code then makes has nothing to save). */
    method AddRootNode(location: Point, rootId: Uuid, measure: Measure) returns (rootView: NodeView?)
      requires Valid() && rootNodeName.Some? && subviews == []
      modifies this`tree, this`lastNode, this`subviews, this`nodeViews, tree
      ensures Valid()
      ensures mapFile.None? ==> tree != null && fresh(tree)
      ensures mapFile.Some? ==> tree == old(tree)
      ensures rootView == null <==> tree == null
      ensures tree == null ==> subviews == [] && lastNode == None && nodeViews == old(nodeViews)
      ensures rootView != null ==>
                && fresh(rootView) && subviews == [rootView] && nodeViews == old(nodeViews) + [rootView]
                && rootView.node == Some(tree.root) && rootView.isRoot && rootView.text == rootNodeName.value
                && rootView.frame == UpdatedFrame(InitialFrame(location), measure(rootNodeName.value))
                && lastNode == Some(tree.root)
      ensures mapFile.None? && rootView != null ==>
                tree.root == rootId && tree.nodes == map[rootId := Node(rootNodeName.value, Some(rootView.frame.Center()), [], None)]
      ensures mapFile.Some? && rootView != null ==>
                tree.nodes == old(tree.nodes)[tree.root := old(tree.nodes)[tree.root].(centerPosition := Some(location))]
    {
      if mapFile.None? {
        tree := new Tree(rootId, rootNodeName.value);
        rootView := DrawRoot(location, measure);
        tree.SetCenterPosition(tree.root, rootView.frame.Center());
      } else if tree == null {
        lastNode := None;
        rootView := null;
      } else {
        rootView := DrawRoot(location, measure);
        tree.SetCenterPosition(tree.root, location);
      }
    }

    /** The view part of `addRootNode(at:)`: the root becomes the last node and its view,
        around the location, joins the empty canvas. */
    method DrawRoot(location: Point, measure: Measure) returns (rootView: NodeView)
      requires Valid() && tree != null && rootNodeName.Some? && subviews == []
      modifies this`lastNode, this`subviews, this`nodeViews
      ensures Valid()
      ensures fresh(rootView) && subviews == [rootView] && nodeViews == old(nodeViews) + [rootView]
      ensures rootView.node == Some(tree.root) && rootView.isRoot && rootView.text == rootNodeName.value
      ensures rootView.frame == UpdatedFrame(InitialFrame(location), measure(rootNodeName.value))
      ensures lastNode == Some(tree.root)
    {
      lastNode := Some(tree.root);
      rootView := new NodeView(location, rootNodeName.value, tree.root, true, measure);
      subviews, nodeViews := [rootView], nodeViews + [rootView];
    }

    /** `expandView(direction:)`: grows the canvas by 50 towards the edge and, for the top
        and the left edge, moves every view on the canvas by 25 away from it. */
    method ExpandView(direction: Direction)
      requires Valid()
      modifies this`containerSize, subviews`frame
      ensures Valid()
      ensures containerSize == Grown(old(containerSize), direction)
      ensures forall v :: v in subviews ==> v.frame == Shifted(old(v.frame), direction)
    {
      if direction.Top? || direction.Left? {
        var i := 0;
        while i < |subviews|
          invariant 0 <= i <= |subviews|
          invariant Valid()
          invariant forall k :: 0 <= k < i ==> subviews[k].frame == Shifted(old(subviews[k].frame), direction)
          invariant forall k :: i <= k < |subviews| ==> subviews[k].frame == old(subviews[k].frame)
          invariant containerSize == old(containerSize)
        {
          subviews[i].frame := Shifted(subviews[i].frame, direction);
          i := i + 1;
        }
      }
      containerSize := Grown(containerSize, direction);
    }

    /** `saveMap()` with `saveMapImagePreview` and `saveMapFile`: with a document, writes the
        rendering of the canvas as `<root name>.png`, then, when the state is set, records
        the map and writes it as `<root name>.mmd`; a failed write reports the save error
        and ends the save. Without a document nothing happens. */
    method SaveMap(screen: Image, now: Date) returns (report: Status)
      requires Valid()
      modifies this`mapFile, storage
      ensures Valid()
      ensures tree == null ==> report == Ok && mapFile == old(mapFile) &&
                               storage.files == old(storage.files) && storage.modified == old(storage.modified)
      ensures tree != null ==> SavedOver(old(storage.files), old(mapFile), screen, report)
    {
      if tree == null {
        return Ok;
      }
      var name := tree.nodes[tree.root].name;
      FlatWithExtension(name, PngExtension);
      FlatWithExtension(name, MmdExtension);
      var ok := storage.WriteFile(PngData(screen), name + PngExtension, now);
      if !ok {
        return Failed(SaveError);
      }
      if state.Some? {
        var m := MapFile(screen, Snapshot(tree.nodes, tree.rank, tree.root), containerSize, state.value);
        mapFile := Some(m);
        ok := storage.WriteFile(Encode(m), name + MmdExtension, now);
        report := if ok then Ok else Failed(SaveError);
      } else {
        report := Ok;
      }
    }

    /** The node-view loop of `delete(view:)`: every node view that shows one of the nodes
        `ids` leaves the canvas. */
    method RemoveViews(ids: seq<Uuid>)
      modifies this`subviews
      ensures subviews == Without(old(subviews), Showing(nodeViews, ids))
    {
      ghost var gone: set<NodeView> := {};
      var i := 0;
      while i < |nodeViews|
        invariant 0 <= i <= |nodeViews|
        invariant subviews == Without(old(subviews), gone)
        invariant gone == Showing(nodeViews[..i], ids)
      {
        var v := nodeViews[i];
        ShowingExtend(nodeViews, i, ids);
        if v.node.Some? && v.node.value in ids {
          RemoveAllWithout(old(subviews), gone, v);
          subviews := RemoveAll(subviews, v);
          gone := gone + {v};
        }
        i := i + 1;
      }
      assert nodeViews[..i] == nodeViews;
    }

    /** `delete(view:)`: for the root's view, removes nothing and returns the map file for
        the delegate's whole-map deletion alert (`showDeletingAlert`, only when there is a
        map file); for any other view, removes the node's subtree from the document and
        takes off the canvas exactly the views of the subtree's nodes. Then saves. */
    method Delete(view: NodeView, screen: Image, now: Date) returns (alert: Option<MapFile>, report: Status)
      requires Valid() && view in subviews
      modifies this`subviews, this`mapFile, tree, storage
      ensures Valid() && tree != null && tree.rank == old(tree.rank)
      ensures view.node.Some?
      ensures view.node.value == tree.root ==>
                alert == old(mapFile) && tree.nodes == old(tree.nodes) && subviews == old(subviews)
      ensures view.node.value != tree.root ==>
                && alert == None
                && tree.nodes == Detached(old(tree.nodes), tree.rank, view.node.value)
                && (forall x :: x in tree.nodes <==> x in old(tree.nodes) && x !in old(PreOrder(tree.nodes, tree.rank, view.node.value)))
                && subviews == Without(old(subviews), old(Showing(nodeViews, PreOrder(tree.nodes, tree.rank, view.node.value))))
                && (forall v :: v in subviews <==>
                      v in old(subviews) && v.node.value !in old(PreOrder(tree.nodes, tree.rank, view.node.value)))
      ensures SavedOver(old(storage.files), old(mapFile), screen, report)
    {
      var id := view.node.value;
      if id == tree.root {
        alert := mapFile;
      } else {
        alert := None;
        RemoveSubtree(id);
      }
      report := SaveMap(screen, now);
    }

    /** The non-root case of `delete(view:)`: the subtree of `id` leaves the document, and
        the views of its nodes leave the canvas. */
    method RemoveSubtree(id: Uuid)
      requires Valid() && tree != null && id in tree.nodes && id != tree.root
      modifies this`subviews, tree
      ensures Valid() && tree.rank == old(tree.rank)
      ensures tree.nodes == Detached(old(tree.nodes), tree.rank, id)
      ensures forall x :: x in tree.nodes <==> x in old(tree.nodes) && x !in old(PreOrder(tree.nodes, tree.rank, id))
      ensures subviews == Without(old(subviews), old(Showing(nodeViews, PreOrder(tree.nodes, tree.rank, id))))
    {
      var ids := PreOrder(tree.nodes, tree.rank, id);
      ghost var gone := Showing(nodeViews, ids);
      NodeTree.Reachable(tree.nodes, tree.rank, tree.root, id);
      var outcome := tree.Remove(tree.root, id);
      RemoveViews(ids);
      assert forall v :: v in subviews ==> tree != null && v.node.Some? && v.node.value in tree.nodes by {
        forall v | v in subviews ensures tree != null && v.node.Some? && v.node.value in tree.nodes {
          assert v in old(subviews) && v !in gone;
        }
      }
    }

    /** `didEditText(view:text:)`: renames the node the view shows, when the document has
        it, and leaves every other node as it was. Then saves. */
    method DidEditText(view: NodeView, text: string, screen: Image, now: Date) returns (report: Status)
      requires Valid()
      modifies this`mapFile, tree, storage
      ensures Valid() && tree == old(tree) && subviews == old(subviews)
      ensures tree != null ==> tree.rank == old(tree.rank)
      ensures tree != null && view.node.Some? && view.node.value in old(tree.nodes) ==>
                tree.nodes == old(tree.nodes)[view.node.value := old(tree.nodes)[view.node.value].(name := text)]
      ensures tree != null && (view.node.None? || view.node.value !in old(tree.nodes)) ==> tree.nodes == old(tree.nodes)
      ensures tree == null ==> report == Ok && storage.files == old(storage.files) && mapFile == old(mapFile)
      ensures tree != null ==> SavedOver(old(storage.files), old(mapFile), screen, report)
    {
      if view.node.Some? && tree != null {
        var id := view.node.value;
        SearchFromRoot(tree.nodes, tree.rank, tree.root, id);
        var found := tree.SearchFrom(tree.root, id);
        if found.Some? {
          tree.Rename(found.value, text);
        }
      }
      report := SaveMap(screen, now);
    }

    /** `drawNode(parentNodeView:at:childNode:externally:)`: a view for the node around the
        location joins the canvas, the node's position becomes the view's centre, and the
        map is saved. */
    method DrawNode(location: Point, childId: Uuid, measure: Measure, screen: Image, now: Date)
      returns (childView: NodeView, report: Status)
      requires Valid() && tree != null && childId in tree.nodes
      modifies this`subviews, this`nodeViews, this`mapFile, tree, storage
      ensures Valid() && tree.rank == old(tree.rank)
      ensures fresh(childView) && subviews == old(subviews) + [childView] && nodeViews == old(nodeViews) + [childView]
      ensures childView.node == Some(childId) && !childView.isRoot && childView.text == old(tree.nodes)[childId].name
      ensures childView.frame == UpdatedFrame(InitialFrame(location), measure(old(tree.nodes)[childId].name))
      ensures tree.nodes == old(tree.nodes)[childId := old(tree.nodes)[childId].(centerPosition := Some(childView.frame.Center()))]
      ensures SavedOver(old(storage.files), old(mapFile), screen, report)
    {
      childView := PlaceNode(location, childId, measure);
      report := SaveMap(screen, now);
    }

    /** The view part of `drawNode`: the node's view joins the canvas and the node's
        position becomes the view's centre. */
    method PlaceNode(location: Point, childId: Uuid, measure: Measure) returns (childView: NodeView)
      requires Valid() && tree != null && childId in tree.nodes
      modifies this`subviews, this`nodeViews, tree
      ensures Valid() && tree.rank == old(tree.rank)
      ensures fresh(childView) && subviews == old(subviews) + [childView] && nodeViews == old(nodeViews) + [childView]
      ensures childView.node == Some(childId) && !childView.isRoot && childView.text == old(tree.nodes)[childId].name
      ensures childView.frame == UpdatedFrame(InitialFrame(location), measure(old(tree.nodes)[childId].name))
      ensures tree.nodes == old(tree.nodes)[childId := old(tree.nodes)[childId].(centerPosition := Some(childView.frame.Center()))]
    {
      childView := new NodeView(location, tree.nodes[childId].name, childId, false, measure);
      subviews := subviews + [childView];
      nodeViews := nodeViews + [childView];
      tree.SetCenterPosition(childId, childView.frame.Center());
    }

    /** `addChildNode(parentNodeView:at:)`: appends a new node named "" to the children of
        the node the view shows, makes it the last node, and draws it at the location.
        `childView` is the view `drawNode` returns, which the app discards. */
    method AddChildNode(parentView: NodeView, location: Point, childId: Uuid, measure: Measure, screen: Image, now: Date)
      returns (childView: NodeView, report: Status)
      requires Valid() && parentView in subviews && childId !in tree.nodes
      modifies this`lastNode, this`subviews, this`nodeViews, this`mapFile, tree, storage
      ensures Valid() && tree != null
      ensures parentView.node.Some?
      ensures lastNode == Some(childId)
      ensures fresh(childView) && subviews == old(subviews) + [childView] && nodeViews == old(nodeViews) + [childView]
      ensures childView.node == Some(childId) && childView.frame == UpdatedFrame(InitialFrame(location), measure(""))
      ensures var parentId := parentView.node.value;
              tree.nodes == old(tree.nodes)[parentId := old(tree.nodes)[parentId].(children := old(tree.nodes)[parentId].children + [childId])]
                                           [childId := Node("", Some(childView.frame.Center()), [], Some(parentId))]
      ensures SavedOver(old(storage.files), old(mapFile), screen, report)
    {
      var parentId := parentView.node.value;
      ghost var before := tree.nodes;
      tree.Add(parentId, childId, "");
      assert tree.nodes == Attached(before, parentId, childId, "");
      lastNode := Some(childId);
      childView, report := DrawNode(location, childId, measure, screen, now);
      AttachedThenPlaced(before, parentId, childId, "", childView.frame.Center());
    }

    /** `addNodeExternally(parentNodeView:at:childNode:)`: the node becomes the last node
        and is drawn at the location. */
    method AddNodeExternally(location: Point, childId: Uuid, measure: Measure, screen: Image, now: Date)
      returns (childView: NodeView, report: Status)
      requires Valid() && tree != null && childId in tree.nodes
      modifies this`lastNode, this`subviews, this`nodeViews, this`mapFile, tree, storage
      ensures Valid() && tree.rank == old(tree.rank) && lastNode == Some(childId)
      ensures fresh(childView) && subviews == old(subviews) + [childView] && nodeViews == old(nodeViews) + [childView]
      ensures childView.node == Some(childId) && childView.frame == UpdatedFrame(InitialFrame(location), measure(old(tree.nodes)[childId].name))
      ensures tree.nodes == old(tree.nodes)[childId := old(tree.nodes)[childId].(centerPosition := Some(childView.frame.Center()))]
      ensures SavedOver(old(storage.files), old(mapFile), screen, report)
    {
      lastNode := Some(childId);
      childView, report := DrawNode(location, childId, measure, screen, now);
    }

    /** `addChildUI(node:parentView:)`: draws, through `addNodeExternally`, a view for
        every node below `n`, depth first in `children` order, each at its stored position
        or, when it has none, at the middle of the canvas; the last node drawn becomes
        the last node. Only positions change in the document. */
    method AddChildUI(n: Uuid, measure: Measure, screen: Image, now: Date)
      requires Valid() && tree != null && n in tree.nodes
      modifies this`lastNode, this`subviews, this`nodeViews, this`mapFile, tree, storage
      ensures Valid() && tree.rank == old(tree.rank)
      ensures SameShape(tree.nodes, old(tree.nodes))
      ensures Drew(old(subviews), old(lastNode), PreOrderFrom(old(tree.nodes), tree.rank, n, 0), subviews, lastNode)
      decreases tree.rank[n], 1
    {
      ghost var shape, rank := tree.nodes, tree.rank;
      ghost var done: seq<Uuid> := [];
      var children := tree.nodes[n].children;
      assert Ranked(shape, rank) && n in shape;
      var i := 0;
      while i < |children|
        invariant 0 <= i <= |children| && children == shape[n].children
        invariant Valid() && tree.rank == rank && SameShape(tree.nodes, shape)
        invariant Drew(old(subviews), old(lastNode), done, subviews, lastNode)
        invariant done + PreOrderFrom(shape, rank, n, i) == PreOrderFrom(shape, rank, n, 0)
      {
        ghost var drawn := DrawChild(n, i, measure, screen, now, shape, rank, old(subviews), old(lastNode), done);
        done := done + drawn;
        i := i + 1;
      }
      assert done == PreOrderFrom(old(tree.nodes), rank, n, 0) by {
        SameShapePreOrderFrom(old(tree.nodes), shape, rank, n, 0);
      }
    }

    /** One turn of `addChildUI`'s loop: the subtree of `n`'s child number `i` is drawn
        after the nodes `done` drawn so far. */
    method DrawChild(n: Uuid, i: nat, measure: Measure, screen: Image, now: Date, ghost shape: Arena,
                     ghost rank: map<Uuid, nat>, ghost s0: seq<NodeView>, ghost l0: Option<Uuid>, ghost done: seq<Uuid>)
      returns (ghost drawn: seq<Uuid>)
      requires Valid() && tree != null && tree.rank == rank && SameShape(tree.nodes, shape)
      requires Ranked(shape, rank) && n in shape && i < |shape[n].children|
      requires Drew(s0, l0, done, subviews, lastNode)
      requires done + PreOrderFrom(shape, rank, n, i) == PreOrderFrom(shape, rank, n, 0)
      modifies this`lastNode, this`subviews, this`nodeViews, this`mapFile, tree, storage
      ensures Valid() && tree.rank == rank && SameShape(tree.nodes, shape)
      ensures Drew(s0, l0, done + drawn, subviews, lastNode)
      ensures done + drawn + PreOrderFrom(shape, rank, n, i + 1) == PreOrderFrom(shape, rank, n, 0)
      decreases rank[n], 0
    {
      var c := tree.nodes[n].children[i];
      ghost var before := tree.nodes;
      AddSubtree(c, measure, screen, now);
      drawn := PreOrder(shape, rank, c);
      assert SameShape(tree.nodes, shape) && drawn == PreOrder(before, rank, c) by {
        SameShapeTransitive(tree.nodes, before, shape);
        SameShapePreOrder(before, shape, rank, c);
      }
      DrewAppend(s0, l0, done, old(subviews), old(lastNode), drawn, subviews, lastNode);
      ConcatAssociative(done, drawn, PreOrderFrom(shape, rank, n, i + 1));
    }

    /** The body of `addChildUI`'s loop for the child `c`: `c` is drawn at its stored
        position, or at the middle of the canvas when it has none, then everything below
        it. */
    method AddSubtree(c: Uuid, measure: Measure, screen: Image, now: Date)
      requires Valid() && tree != null && c in tree.nodes
      modifies this`lastNode, this`subviews, this`nodeViews, this`mapFile, tree, storage
      ensures Valid() && tree.rank == old(tree.rank)
      ensures SameShape(tree.nodes, old(tree.nodes))
      ensures Drew(old(subviews), old(lastNode), PreOrder(old(tree.nodes), tree.rank, c), subviews, lastNode)
      ensures |subviews| > |old(subviews)|
      ensures subviews[|old(subviews)|].frame ==
                old(UpdatedFrame(InitialFrame(tree.nodes[c].centerPosition.GetOr(Point(containerSize.width / 2.0, containerSize.height / 2.0))),
                                 measure(tree.nodes[c].name)))
      decreases tree.rank[c], 2
    {
      ghost var shape := tree.nodes;
      var position := tree.nodes[c].centerPosition.GetOr(Point(containerSize.width / 2.0, containerSize.height / 2.0));
      var childView, _ := AddNodeExternally(position, c, measure, screen, now);
      ghost var frame := childView.frame;
      assert frame == UpdatedFrame(InitialFrame(position), measure(shape[c].name));
      SameShapeMoved(shape, shape, c, childView.frame.Center());
      ghost var moved, drawn := tree.nodes, subviews;
      AddChildUI(c, measure, screen, now);
      assert subviews[|old(subviews)|] == childView && childView.frame == frame by {
        assert subviews[..|drawn|] == drawn;
        assert drawn[|old(subviews)|] == childView;
      }
      ghost var rest := PreOrderFrom(shape, tree.rank, c, 0);
      assert SameShape(tree.nodes, shape) && rest == PreOrderFrom(moved, tree.rank, c, 0) by {
        SameShapeTransitive(tree.nodes, moved, shape);
        SameShapePreOrderFrom(moved, shape, tree.rank, c, 0);
      }
      DrewCons(old(subviews), old(lastNode), childView, c, rest, subviews, lastNode);
      assert subviews[|old(subviews)|].frame == frame;
    }
  }
}
