/** A stored map (MapFile.swift): the preview image, the node tree, the canvas size and the
    lock state, and what the JSON coder makes of them.

    The bytes of a file are represented by what the app's decoders make of them: bytes
    that `UIImage(data:)` accepts, a JSON object with the four keys of `MapFile`, or
    anything else. */
module MapFiles {
  import opened Common
  import opened NodeTree
  import opened FileCells

  /** A node as it is written into a map file: its name, position and children. The id
      is not written, so it is not part of the value: decoding gives every node a fresh
      UUID. */
  datatype NodeValue = NodeValue(name: string, centerPosition: Option<Point>, children: seq<NodeValue>)

  datatype MapFile = MapFile(image: Image, rootNode: NodeValue, contentViewSize: Size, state: MapState)

  datatype Data =
    | ImageData(image: Image)
    | MapJson(rootNode: NodeValue, contentViewSize: Size, state: MapState, imageData: Data)
    | OtherData(bytes: seq<int>)

  /** The subtree of `n` as a value, children in `children` order. */
  function Snapshot(nodes: Arena, ghost rank: map<Uuid, nat>, n: Uuid): (r: NodeValue)
    requires Ranked(nodes, rank) && n in nodes
    ensures r.name == nodes[n].name && r.centerPosition == nodes[n].centerPosition
    ensures |r.children| == |nodes[n].children|
    decreases rank[n], 1
  {
    NodeValue(nodes[n].name, nodes[n].centerPosition, SnapshotFrom(nodes, rank, n, 0))
  }

  /** The values of `n`'s children from index `i` on. */
  function SnapshotFrom(nodes: Arena, ghost rank: map<Uuid, nat>, n: Uuid, i: nat): (r: seq<NodeValue>)
    requires Ranked(nodes, rank) && n in nodes && i <= |nodes[n].children|
    ensures |r| == |nodes[n].children| - i
    decreases rank[n], 0, |nodes[n].children| - i
  {
    if i == |nodes[n].children| then []
    else [Snapshot(nodes, rank, nodes[n].children[i])] + SnapshotFrom(nodes, rank, n, i + 1)
  }

  /** What a node value records of each node, name and position, in pre-order. */
  function Labels(v: NodeValue): seq<(string, Option<Point>)>
    decreases v, 1
  {
    [(v.name, v.centerPosition)] + LabelsOf(v.children)
  }

  function LabelsOf(vs: seq<NodeValue>): seq<(string, Option<Point>)>
    decreases vs, 0
  {
    if vs == [] then [] else Labels(vs[0]) + LabelsOf(vs[1..])
  }

  /** The names and positions of the arena's nodes `ids`, in order. */
  function LabelsAt(nodes: Arena, ids: seq<Uuid>): (r: seq<(string, Option<Point>)>)
    requires forall k :: 0 <= k < |ids| ==> ids[k] in nodes
    ensures |r| == |ids|
  {
    if ids == [] then [] else [(nodes[ids[0]].name, nodes[ids[0]].centerPosition)] + LabelsAt(nodes, ids[1..])
  }

  lemma {:induction false} LabelsAtAppend(nodes: Arena, a: seq<Uuid>, b: seq<Uuid>)
    requires forall k :: 0 <= k < |a| ==> a[k] in nodes
    requires forall k :: 0 <= k < |b| ==> b[k] in nodes
    ensures forall k :: 0 <= k < |a + b| ==> (a + b)[k] in nodes
    ensures LabelsAt(nodes, a + b) == LabelsAt(nodes, a) + LabelsAt(nodes, b)
  {
    if a == [] {
      assert a + b == b;
    } else {
      assert (a + b)[0] == a[0];
      assert (a + b)[1..] == a[1..] + b;
      LabelsAtAppend(nodes, a[1..], b);
    }
  }

  /** A snapshot records the names and positions of the subtree's nodes in the order
      `forEachDepthFirst` visits them. */
  lemma {:induction false} SnapshotLabels(nodes: Arena, rank: map<Uuid, nat>, n: Uuid)
    requires Ranked(nodes, rank) && n in nodes
    ensures Labels(Snapshot(nodes, rank, n)) == LabelsAt(nodes, PreOrder(nodes, rank, n))
    decreases rank[n], 1
  {
    var rest := PreOrderFrom(nodes, rank, n, 0);
    SnapshotFromLabels(nodes, rank, n, 0);
    LabelsAtAppend(nodes, [n], rest);
  }

  lemma {:induction false} SnapshotFromLabels(nodes: Arena, rank: map<Uuid, nat>, n: Uuid, i: nat)
    requires Ranked(nodes, rank) && n in nodes && i <= |nodes[n].children|
    ensures LabelsOf(SnapshotFrom(nodes, rank, n, i)) == LabelsAt(nodes, PreOrderFrom(nodes, rank, n, i))
    decreases rank[n], 0, |nodes[n].children| - i
  {
    if i < |nodes[n].children| {
      var s := SnapshotFrom(nodes, rank, n, i);
      var c := nodes[n].children[i];
      assert s[0] == Snapshot(nodes, rank, c);
      assert s[1..] == SnapshotFrom(nodes, rank, n, i + 1);
      SnapshotLabels(nodes, rank, c);
      SnapshotFromLabels(nodes, rank, n, i + 1);
      LabelsAtAppend(nodes, PreOrder(nodes, rank, c), PreOrderFrom(nodes, rank, n, i + 1));
    }
  }

  /** `image.pngData()`: the image's bytes, which decode back to the same image. */
  function PngData(image: Image): (r: Data)
    ensures ImageFrom(r) == Some(image)
  {
    ImageData(image)
  }

  /** `UIImage(data:)`: the image the bytes hold, when they hold one. */
  function ImageFrom(d: Data): (r: Option<Image>)
    ensures r.Some? <==> d.ImageData?
  {
    if d.ImageData? then Some(d.image) else None
  }

  /** `JSONEncoder().encode(mapFile)` through `encode(to:)`: the root node, the canvas size,
      the state and the image's PNG bytes under their four keys. */
  function Encode(m: MapFile): Data {
    MapJson(m.rootNode, m.contentViewSize, m.state, PngData(m.image))
  }

  /** `JSONDecoder().decode(MapFile.self, from:)` through `init(from:)`: fails unless the
      bytes are a map object, and fails when its image bytes are not an image. */
  function Decode(d: Data): (r: Option<MapFile>)
    ensures r.None? <==> !d.MapJson? || !d.imageData.ImageData?
    ensures r.Some? ==> r.value.rootNode == d.rootNode && r.value.contentViewSize == d.contentViewSize
                        && r.value.state == d.state && r.value.image == d.imageData.image
  {
    match d
    case MapJson(rootNode, size, state, ImageData(image)) => Some(MapFile(image, rootNode, size, state))
    case _ => None
  }

  /** Every map file written by the app reads back as the same map: the same tree shape,
      names and positions, canvas size, state and image. Node ids are not written, so
      they are not part of what comes back. */
  lemma DecodeEncode(m: MapFile)
    ensures Decode(Encode(m)) == Some(m)
  {
  }

  /** Whatever decodes as a map is what encoding that map writes. */
  lemma EncodeDecode(d: Data)
    requires Decode(d).Some?
    ensures Encode(Decode(d).value) == d
  {
  }
}
