/** The mind map's node tree (Node.swift).

    A Swift `Node` is an object with a UUID, a name, an optional centre position, an
    ordered `children` array and a weak `parent` back-link. Here the nodes of one
    document live in an arena: a map from each node's UUID to a record holding its
    fields, where `children` and `parent` hold UUIDs instead of references. A node's
    object identity is its UUID; the arena's keys keep the UUIDs of a tree distinct,
    which the Swift code gets from `UUID()` never repeating. */
module NodeTree {
  import opened Common

  type Uuid = nat

  /** One node's stored fields. `parent` is the weak back-link: `None` for the root. */
  datatype Node = Node(name: string, centerPosition: Option<Point>, children: seq<Uuid>, parent: Option<Uuid>)

  type Arena = map<Uuid, Node>

  /** Every child link leads to a node of the arena whose rank is smaller: the ranks
      bound every walk down the tree. */
  ghost predicate Ranked(nodes: Arena, rank: map<Uuid, nat>) {
    && (forall n :: n in nodes ==> n in rank)
    && (forall n, i :: n in nodes && 0 <= i < |nodes[n].children| ==>
          nodes[n].children[i] in nodes && rank[nodes[n].children[i]] < rank[n])
  }

  /** A non-root node's parent link names a node of the arena that lists it as a child. */
  ghost predicate ParentLinked(nodes: Arena, n: Uuid)
    requires n in nodes
  {
    nodes[n].parent.Some? && nodes[n].parent.value in nodes && n in nodes[nodes[n].parent.value].children
  }

  /** The tree invariant: one root without a parent, children and parent links that agree,
      no node listed twice among its parent's children, and no cycles (ranks fall along
      child links and none exceeds the root's, so walks up the parent links end too). */
  ghost predicate WellFormed(nodes: Arena, rank: map<Uuid, nat>, root: Uuid) {
    && root in nodes && nodes[root].parent == None
    && Ranked(nodes, rank)
    && (forall n :: n in nodes ==> rank[n] <= rank[root])
    && (forall n :: n in nodes ==> Distinct(nodes[n].children))
    && (forall n, i :: n in nodes && 0 <= i < |nodes[n].children| ==>
          nodes[nodes[n].children[i]].parent == Some(n))
    && (forall n {:trigger nodes[n].parent} :: n in nodes && n != root ==> ParentLinked(nodes, n))
  }

  /** `forEachDepthFirst` as the sequence of ids it visits: the node itself, then the
      subtree of each child in `children` order. */
  function PreOrder(nodes: Arena, ghost rank: map<Uuid, nat>, n: Uuid): (r: seq<Uuid>)
    requires Ranked(nodes, rank) && n in nodes
    ensures |r| >= 1 && r[0] == n
    ensures forall k :: 0 <= k < |r| ==> r[k] in nodes && rank[r[k]] <= rank[n]
    ensures forall k :: 1 <= k < |r| ==> rank[r[k]] < rank[n]
    decreases rank[n], 1
  {
    [n] + PreOrderFrom(nodes, rank, n, 0)
  }

  /** The pre-order ids of the subtrees of `n`'s children from index `i` on. */
  function PreOrderFrom(nodes: Arena, ghost rank: map<Uuid, nat>, n: Uuid, i: nat): (r: seq<Uuid>)
    requires Ranked(nodes, rank) && n in nodes && i <= |nodes[n].children|
    ensures forall k :: 0 <= k < |r| ==> r[k] in nodes && rank[r[k]] < rank[n]
    decreases rank[n], 0, |nodes[n].children| - i
  {
    if i == |nodes[n].children| then []
    else PreOrder(nodes, rank, nodes[n].children[i]) + PreOrderFrom(nodes, rank, n, i + 1)
  }

  /** `search(id:)`: checks the node itself, then searches each child's subtree in turn and
      returns the first hit. The node found is named by its id. */
  function Search(nodes: Arena, ghost rank: map<Uuid, nat>, n: Uuid, id: Uuid): (r: Option<Uuid>)
    requires Ranked(nodes, rank) && n in nodes
    ensures r == (if id in PreOrder(nodes, rank, n) then Some(id) else None)
    decreases rank[n], 1
  {
    if id == n then Some(n) else SearchFrom(nodes, rank, n, 0, id)
  }

  /** The `for child in children` loop of `search(id:)`, from the child at index `i` on. */
  function SearchFrom(nodes: Arena, ghost rank: map<Uuid, nat>, n: Uuid, i: nat, id: Uuid): (r: Option<Uuid>)
    requires Ranked(nodes, rank) && n in nodes && i <= |nodes[n].children|
    ensures r == (if id in PreOrderFrom(nodes, rank, n, i) then Some(id) else None)
    decreases rank[n], 0, |nodes[n].children| - i
  {
    if i == |nodes[n].children| then None
    else
      match Search(nodes, rank, nodes[n].children[i], id)
      case Some(found) => Some(found)
      case None => SearchFrom(nodes, rank, n, i + 1, id)
  }

  /** `description`: the name alone for a leaf; otherwise the name, " {", the children's
      descriptions separated by ", ", and "} ". */
  function Description(nodes: Arena, ghost rank: map<Uuid, nat>, n: Uuid): (r: string)
    requires Ranked(nodes, rank) && n in nodes
    ensures |nodes[n].name| <= |r| && r[..|nodes[n].name|] == nodes[n].name
    ensures r == nodes[n].name <==> nodes[n].children == []
    decreases rank[n], 1
  {
    if nodes[n].children == [] then nodes[n].name
    else nodes[n].name + " {" + JoinedDescriptions(nodes, rank, n, 0) + "} "
  }

  /** The descriptions of `n`'s children from index `i` on, joined by ", ". */
  function JoinedDescriptions(nodes: Arena, ghost rank: map<Uuid, nat>, n: Uuid, i: nat): string
    requires Ranked(nodes, rank) && n in nodes && i < |nodes[n].children|
    decreases rank[n], 0, |nodes[n].children| - i
  {
    if i == |nodes[n].children| - 1 then Description(nodes, rank, nodes[n].children[i])
    else Description(nodes, rank, nodes[n].children[i]) + ", " + JoinedDescriptions(nodes, rank, n, i + 1)
  }

  /** The descriptions of the nodes `ids`, in order (`ids.map { $0.description }`). */
  function Descriptions(nodes: Arena, ghost rank: map<Uuid, nat>, ids: seq<Uuid>): (r: seq<string>)
    requires Ranked(nodes, rank) && forall k :: 0 <= k < |ids| ==> ids[k] in nodes
    ensures |r| == |ids|
  {
    if ids == [] then [] else [Description(nodes, rank, ids[0])] + Descriptions(nodes, rank, ids[1..])
  }

  /** A node with children is described as its name, " {", its children's descriptions
      joined by ", ", and "} ". */
  lemma DescriptionOfParent(nodes: Arena, rank: map<Uuid, nat>, n: Uuid)
    requires Ranked(nodes, rank) && n in nodes && nodes[n].children != []
    ensures Description(nodes, rank, n)
            == nodes[n].name + " {" + Join(Descriptions(nodes, rank, nodes[n].children), ", ") + "} "
  {
    JoinedDescriptionsJoin(nodes, rank, n, 0);
    assert nodes[n].children[0..] == nodes[n].children;
  }

  lemma {:induction false} JoinedDescriptionsJoin(nodes: Arena, rank: map<Uuid, nat>, n: Uuid, i: nat)
    requires Ranked(nodes, rank) && n in nodes && i < |nodes[n].children|
    ensures JoinedDescriptions(nodes, rank, n, i)
            == Join(Descriptions(nodes, rank, nodes[n].children[i..]), ", ")
    decreases |nodes[n].children| - i
  {
    var cs := nodes[n].children;
    var ds := Descriptions(nodes, rank, cs[i..]);
    assert cs[i..][0] == cs[i];
    assert cs[i..][1..] == cs[i + 1..];
    if i < |cs| - 1 {
      JoinedDescriptionsJoin(nodes, rank, n, i + 1);
      assert ds[1..] == Descriptions(nodes, rank, cs[i + 1..]);
    }
  }

  /** The number of parent links from `x` up to the node without a parent. */
  ghost function Depth(nodes: Arena, rank: map<Uuid, nat>, root: Uuid, x: Uuid): nat
    requires WellFormed(nodes, rank, root) && x in nodes
    decreases rank[root] - rank[x]
  {
    match nodes[x].parent
    case None => 0
    case Some(p) =>
      assert ParentLinked(nodes, x);
      ChildRankBelowParent(nodes, rank, p, x);
      1 + Depth(nodes, rank, root, p)
  }

  lemma ChildRankBelowParent(nodes: Arena, rank: map<Uuid, nat>, p: Uuid, c: Uuid)
    requires Ranked(nodes, rank) && p in nodes && c in nodes[p].children
    ensures c in nodes && rank[c] < rank[p]
  {
    var i :| 0 <= i < |nodes[p].children| && nodes[p].children[i] == c;
  }

  /** A node lies in the pre-order of `n`'s children from `i` on exactly when it lies in
      the subtree of one of those children. */
  lemma {:induction false} InPreOrderFrom(nodes: Arena, rank: map<Uuid, nat>, n: Uuid, i: nat, x: Uuid)
    requires Ranked(nodes, rank) && n in nodes && i <= |nodes[n].children|
    ensures x in PreOrderFrom(nodes, rank, n, i) <==>
            exists j :: i <= j < |nodes[n].children| && x in PreOrder(nodes, rank, nodes[n].children[j])
    decreases |nodes[n].children| - i
  {
    var ch := nodes[n].children;
    if i < |ch| {
      var head, tail := PreOrder(nodes, rank, ch[i]), PreOrderFrom(nodes, rank, n, i + 1);
      assert PreOrderFrom(nodes, rank, n, i) == head + tail;
      InPreOrderFrom(nodes, rank, n, i + 1, x);
      if x in head {
        assert i <= i < |ch| && x in PreOrder(nodes, rank, ch[i]);
      } else if x in tail {
        var j :| i + 1 <= j < |ch| && x in PreOrder(nodes, rank, ch[j]);
        assert i <= j < |ch|;
      } else {
        forall j | i <= j < |ch|
          ensures x !in PreOrder(nodes, rank, ch[j])
        {
          if j == i {
            assert x !in head;
          } else {
            assert i + 1 <= j < |ch|;
          }
        }
      }
    }
  }

  /** Subtrees are closed under child links: the children of a visited node are visited. */
  lemma {:induction false} ChildInPreOrder(nodes: Arena, rank: map<Uuid, nat>, n: Uuid, m: Uuid, c: Uuid)
    requires Ranked(nodes, rank) && n in nodes
    requires m in PreOrder(nodes, rank, n) && c in nodes[m].children
    ensures c in PreOrder(nodes, rank, n)
    decreases rank[n]
  {
    var ch := nodes[n].children;
    if m == n {
      var j :| 0 <= j < |ch| && ch[j] == c;
      assert c in PreOrder(nodes, rank, ch[j]);
      InPreOrderFrom(nodes, rank, n, 0, c);
    } else {
      InPreOrderFrom(nodes, rank, n, 0, m);
      var j :| 0 <= j < |ch| && m in PreOrder(nodes, rank, ch[j]);
      ChildInPreOrder(nodes, rank, ch[j], m, c);
      InPreOrderFrom(nodes, rank, n, 0, c);
    }
  }

  /** In a well-formed tree, the parent of every visited node other than the start is
      visited too. */
  lemma {:induction false} ParentInPreOrder(nodes: Arena, rank: map<Uuid, nat>, root: Uuid, n: Uuid, x: Uuid)
    requires WellFormed(nodes, rank, root) && n in nodes
    requires x in PreOrder(nodes, rank, n) && x != n
    ensures nodes[x].parent.Some? && nodes[x].parent.value in PreOrder(nodes, rank, n)
    decreases rank[n]
  {
    var ch := nodes[n].children;
    InPreOrderFrom(nodes, rank, n, 0, x);
    var j :| 0 <= j < |ch| && x in PreOrder(nodes, rank, ch[j]);
    if x == ch[j] {
      assert nodes[x].parent == Some(n);
    } else {
      ParentInPreOrder(nodes, rank, root, ch[j], x);
      var p := nodes[x].parent.value;
      InPreOrderFrom(nodes, rank, n, 0, p);
    }
  }

  /** Every node of a well-formed arena is reachable from the root. */
  lemma {:induction false} Reachable(nodes: Arena, rank: map<Uuid, nat>, root: Uuid, x: Uuid)
    requires WellFormed(nodes, rank, root) && x in nodes
    ensures x in PreOrder(nodes, rank, root)
    decreases rank[root] - rank[x]
  {
    if x != root {
      assert ParentLinked(nodes, x);
      var p := nodes[x].parent.value;
      ChildRankBelowParent(nodes, rank, p, x);
      Reachable(nodes, rank, root, p);
      ChildInPreOrder(nodes, rank, root, p, x);
    }
  }

  /** A visited node lies in the arena and its rank is at most the start's. */
  lemma InPreOrderRank(nodes: Arena, rank: map<Uuid, nat>, n: Uuid, x: Uuid)
    requires Ranked(nodes, rank) && n in nodes && x in PreOrder(nodes, rank, n)
    ensures x in nodes && rank[x] <= rank[n]
  {
    var s := PreOrder(nodes, rank, n);
    var k :| 0 <= k < |s| && s[k] == x;
  }

  /** The subtrees of two different children of one parent share no node. */
  lemma {:induction false} SiblingsDisjoint(nodes: Arena, rank: map<Uuid, nat>, root: Uuid, a: Uuid, b: Uuid, x: Uuid)
    requires WellFormed(nodes, rank, root) && a in nodes && b in nodes && a != b
    requires nodes[a].parent.Some? && nodes[a].parent == nodes[b].parent
    requires x in PreOrder(nodes, rank, a)
    ensures x !in PreOrder(nodes, rank, b)
    decreases rank[a] - rank[x]
  {
    InPreOrderRank(nodes, rank, a, x);
    if x in PreOrder(nodes, rank, b) {
      var p := nodes[a].parent.value;
      if x == a {
        ParentInPreOrder(nodes, rank, root, b, x);
        InPreOrderRank(nodes, rank, b, p);
        assert ParentLinked(nodes, b);
        ChildRankBelowParent(nodes, rank, p, b);
      } else if x == b {
        ParentInPreOrder(nodes, rank, root, a, x);
        InPreOrderRank(nodes, rank, a, p);
        assert ParentLinked(nodes, a);
        ChildRankBelowParent(nodes, rank, p, a);
      } else {
        ParentInPreOrder(nodes, rank, root, a, x);
        ParentInPreOrder(nodes, rank, root, b, x);
        var q := nodes[x].parent.value;
        InPreOrderRank(nodes, rank, a, q);
        assert ParentLinked(nodes, x);
        ChildRankBelowParent(nodes, rank, q, x);
        SiblingsDisjoint(nodes, rank, root, a, b, q);
      }
    }
  }

  /** In a well-formed tree the depth-first walk visits each node of the subtree once. */
  lemma {:induction false} PreOrderDistinct(nodes: Arena, rank: map<Uuid, nat>, root: Uuid, n: Uuid)
    requires WellFormed(nodes, rank, root) && n in nodes
    ensures Distinct(PreOrder(nodes, rank, n))
    decreases rank[n], 1
  {
    var rest := PreOrderFrom(nodes, rank, n, 0);
    PreOrderFromDistinct(nodes, rank, root, n, 0);
    DistinctConcat([n], rest);
  }

  lemma {:induction false} PreOrderFromDistinct(nodes: Arena, rank: map<Uuid, nat>, root: Uuid, n: Uuid, i: nat)
    requires WellFormed(nodes, rank, root) && n in nodes && i <= |nodes[n].children|
    ensures Distinct(PreOrderFrom(nodes, rank, n, i))
    decreases rank[n], 0, |nodes[n].children| - i
  {
    var ch := nodes[n].children;
    if i < |ch| {
      var head, tail := PreOrder(nodes, rank, ch[i]), PreOrderFrom(nodes, rank, n, i + 1);
      PreOrderDistinct(nodes, rank, root, ch[i]);
      PreOrderFromDistinct(nodes, rank, root, n, i + 1);
      forall k | 0 <= k < |head|
        ensures head[k] !in tail
      {
        if head[k] in tail {
          InPreOrderFrom(nodes, rank, n, i + 1, head[k]);
          var j :| i + 1 <= j < |ch| && head[k] in PreOrder(nodes, rank, ch[j]);
          assert ch[i] != ch[j] && nodes[ch[i]].parent == nodes[ch[j]].parent == Some(n);
          SiblingsDisjoint(nodes, rank, root, ch[i], ch[j], head[k]);
        }
      }
      DistinctConcat(head, tail);
    }
  }

  /** Searching from the root finds exactly the ids of the document's nodes. */
  lemma SearchFromRoot(nodes: Arena, rank: map<Uuid, nat>, root: Uuid, id: Uuid)
    requires WellFormed(nodes, rank, root)
    ensures Search(nodes, rank, root, id) == (if id in nodes then Some(id) else None)
  {
    if id in nodes {
      Reachable(nodes, rank, root, id);
    }
  }

  /** A child is one parent link further from the root than its parent. */
  lemma DepthOfChild(nodes: Arena, rank: map<Uuid, nat>, root: Uuid, p: Uuid, c: Uuid)
    requires WellFormed(nodes, rank, root) && p in nodes && c in nodes[p].children
    ensures c in nodes && Depth(nodes, rank, root, c) == Depth(nodes, rank, root, p) + 1
  {
    var i :| 0 <= i < |nodes[p].children| && nodes[p].children[i] == c;
  }

  /** A node that is not yet in the arena can join a child list without repeating it. */
  lemma AppendedFreshDistinct(nodes: Arena, rank: map<Uuid, nat>, p: Uuid, c: Uuid)
    requires Ranked(nodes, rank) && p in nodes && Distinct(nodes[p].children) && c !in nodes
    ensures Distinct(nodes[p].children + [c])
  {
    var ch := nodes[p].children + [c];
    forall i, j | 0 <= i < j < |ch|
      ensures ch[i] != ch[j]
    {
      if j == |ch| - 1 {
        assert ch[i] == nodes[p].children[i] && ch[i] in nodes;
      }
    }
  }

  /** The arena after `add(child:)` attaches a new node `c` named `name` under `p`. */
  function Attached(nodes: Arena, p: Uuid, c: Uuid, name: string): Arena
    requires p in nodes
  {
    nodes[p := nodes[p].(children := nodes[p].children + [c])][c := Node(name, None, [], Some(p))]
  }

  /** Placing the node just attached records its position in the attached record. */
  lemma AttachedThenPlaced(nodes: Arena, p: Uuid, c: Uuid, name: string, position: Point)
    requires p in nodes
    ensures var added := Attached(nodes, p, c, name);
            added[c := added[c].(centerPosition := Some(position))] ==
            nodes[p := nodes[p].(children := nodes[p].children + [c])][c := Node(name, Some(position), [], Some(p))]
  {
  }

  /** Ranks for the arena with `c` attached: `c` is a leaf below everyone else. */
  ghost function AttachedRank(rank: map<Uuid, nat>, c: Uuid): map<Uuid, nat> {
    (map x | x in rank :: rank[x] + 1)[c := 0]
  }

  /** Attaching a new node keeps the tree well formed. */
  lemma AttachedWellFormed(nodes: Arena, rank: map<Uuid, nat>, root: Uuid, p: Uuid, c: Uuid, name: string)
    requires WellFormed(nodes, rank, root) && p in nodes && c !in nodes
    ensures WellFormed(Attached(nodes, p, c, name), AttachedRank(rank, c), root)
  {
    var after, rank' := Attached(nodes, p, c, name), AttachedRank(rank, c);
    forall n, i | n in after && 0 <= i < |after[n].children|
      ensures after[n].children[i] in after && rank'[after[n].children[i]] < rank'[n]
      ensures after[after[n].children[i]].parent == Some(n)
    {
      AttachedChild(nodes, rank, root, p, c, name, n, i);
    }
    AttachedParents(nodes, rank, root, p, c, name);
    AttachedDistinct(nodes, rank, root, p, c, name);
  }

  /** After attaching, every node but the root still has a parent that lists it. */
  lemma AttachedParents(nodes: Arena, rank: map<Uuid, nat>, root: Uuid, p: Uuid, c: Uuid, name: string)
    requires WellFormed(nodes, rank, root) && p in nodes && c !in nodes
    ensures forall x :: x in Attached(nodes, p, c, name) && x != root ==> ParentLinked(Attached(nodes, p, c, name), x)
  {
    var after := Attached(nodes, p, c, name);
    forall x | x in after && x != root
      ensures ParentLinked(after, x)
    {
      if x != c {
        assert ParentLinked(nodes, x);
      }
    }
  }

  /** After attaching, every child link still leads down to a node that links back. */
  lemma AttachedChild(nodes: Arena, rank: map<Uuid, nat>, root: Uuid, p: Uuid, c: Uuid, name: string, n: Uuid, i: nat)
    requires WellFormed(nodes, rank, root) && p in nodes && c !in nodes
    requires n in Attached(nodes, p, c, name) && i < |Attached(nodes, p, c, name)[n].children|
    ensures var after, rank' := Attached(nodes, p, c, name), AttachedRank(rank, c);
            && after[n].children[i] in after && rank'[after[n].children[i]] < rank'[n]
            && after[after[n].children[i]].parent == Some(n)
  {
    var after := Attached(nodes, p, c, name);
    if n != p || i != |nodes[p].children| {
      assert n != c;
      assert after[n].children[i] == nodes[n].children[i];
    }
  }

  /** After attaching, no child list repeats a node. */
  lemma AttachedDistinct(nodes: Arena, rank: map<Uuid, nat>, root: Uuid, p: Uuid, c: Uuid, name: string)
    requires WellFormed(nodes, rank, root) && p in nodes && c !in nodes
    ensures forall m :: m in Attached(nodes, p, c, name) ==> Distinct(Attached(nodes, p, c, name)[m].children)
  {
    var after := Attached(nodes, p, c, name);
    AppendedFreshDistinct(nodes, rank, p, c);
    forall m | m in after
      ensures Distinct(after[m].children)
    {
      if m != p && m != c {
        assert after[m].children == nodes[m].children;
      }
    }
  }

  /** Two arenas with the same nodes, names, children and parent links: they differ at
      most in the nodes' positions. */
  ghost predicate SameShape(a: Arena, b: Arena) {
    && a.Keys == b.Keys
    && forall n :: n in a ==> a[n].name == b[n].name && a[n].children == b[n].children && a[n].parent == b[n].parent
  }

  /** Changing only names and positions keeps the tree well formed. */
  lemma LinksKeptWellFormed(a: Arena, b: Arena, rank: map<Uuid, nat>, root: Uuid)
    requires WellFormed(a, rank, root) && a.Keys == b.Keys
    requires forall n :: n in a ==> a[n].children == b[n].children && a[n].parent == b[n].parent
    ensures WellFormed(b, rank, root)
  {
    forall x | x in b && x != root
      ensures ParentLinked(b, x)
    {
      assert ParentLinked(a, x);
    }
  }

  /** Moving a node keeps the shape. */
  lemma SameShapeMoved(a: Arena, b: Arena, id: Uuid, position: Point)
    requires SameShape(a, b) && id in a
    ensures SameShape(a[id := a[id].(centerPosition := Some(position))], b)
  {
  }

  lemma SameShapeTransitive(a: Arena, b: Arena, c: Arena)
    requires SameShape(a, b) && SameShape(b, c)
    ensures SameShape(a, c)
  {
  }

  /** Positions play no part in the depth-first order. */
  lemma {:induction false} SameShapePreOrder(a: Arena, b: Arena, rank: map<Uuid, nat>, n: Uuid)
    requires Ranked(a, rank) && Ranked(b, rank) && SameShape(a, b) && n in a
    ensures PreOrder(a, rank, n) == PreOrder(b, rank, n)
    decreases rank[n], 1
  {
    SameShapePreOrderFrom(a, b, rank, n, 0);
  }

  lemma {:induction false} SameShapePreOrderFrom(a: Arena, b: Arena, rank: map<Uuid, nat>, n: Uuid, i: nat)
    requires Ranked(a, rank) && Ranked(b, rank) && SameShape(a, b) && n in a && i <= |a[n].children|
    ensures PreOrderFrom(a, rank, n, i) == PreOrderFrom(b, rank, n, i)
    decreases rank[n], 0, |a[n].children| - i
  {
    if i < |a[n].children| {
      SameShapePreOrder(a, b, rank, a[n].children[i]);
      SameShapePreOrderFrom(a, b, rank, n, i + 1);
    }
  }

  /** The arena after detaching `target` from its parent: the parent's `children` lose
      `target` (other children keep their order), and the records of `target`'s subtree
      leave the document with it. */
  function Detached(nodes: Arena, ghost rank: map<Uuid, nat>, target: Uuid): Arena
    requires Ranked(nodes, rank) && target in nodes && nodes[target].parent.Some?
    requires nodes[target].parent.value in nodes
  {
    var p := nodes[target].parent.value;
    var gone := set x | x in PreOrder(nodes, rank, target);
    (nodes - gone)[p := nodes[p].(children := RemoveAll(nodes[p].children, target))]
  }

  /** The records that remain after detaching `target` are those outside its subtree; the
      root and `target`'s parent are among them. */
  lemma DetachedKeys(nodes: Arena, rank: map<Uuid, nat>, root: Uuid, target: Uuid)
    requires WellFormed(nodes, rank, root) && target in nodes && target != root
    ensures ParentLinked(nodes, target)
    ensures var d := Detached(nodes, rank, target);
            && root in d && nodes[target].parent.value in d
            && forall x :: x in d <==> x in nodes && x !in PreOrder(nodes, rank, target)
  {
    assert ParentLinked(nodes, target);
    var p := nodes[target].parent.value;
    ChildRankBelowParent(nodes, rank, p, target);
  }

  /** After detaching, a remaining node's children remain, have smaller ranks and still
      link back to it. */
  lemma {:induction false} DetachedChildren(nodes: Arena, rank: map<Uuid, nat>, root: Uuid, target: Uuid, n: Uuid, i: nat)
    requires WellFormed(nodes, rank, root) && target in nodes && target != root
    requires ParentLinked(nodes, target)
    requires n in Detached(nodes, rank, target) && i < |Detached(nodes, rank, target)[n].children|
    ensures var d := Detached(nodes, rank, target);
            && d[n].children[i] in d && rank[d[n].children[i]] < rank[n]
            && d[d[n].children[i]].parent == Some(n)
  {
    DetachedKeys(nodes, rank, root, target);
    var d := Detached(nodes, rank, target);
    var p := nodes[target].parent.value;
    var c := d[n].children[i];
    assert c in nodes[n].children;
    ChildRankBelowParent(nodes, rank, n, c);
    var k :| 0 <= k < |nodes[n].children| && nodes[n].children[k] == c;
    assert nodes[c].parent == Some(n);
    if c in PreOrder(nodes, rank, target) {
      if c == target {
        assert false;
      }
      ParentInPreOrder(nodes, rank, root, target, c);
      assert false;
    }
  }

  /** After detaching, a remaining non-root node's parent remains and still lists it. */
  lemma {:induction false} DetachedParent(nodes: Arena, rank: map<Uuid, nat>, root: Uuid, target: Uuid, x: Uuid)
    requires WellFormed(nodes, rank, root) && target in nodes && target != root
    requires ParentLinked(nodes, target)
    requires x in Detached(nodes, rank, target) && x != root
    ensures ParentLinked(Detached(nodes, rank, target), x)
  {
    DetachedKeys(nodes, rank, root, target);
    var p := nodes[target].parent.value;
    assert ParentLinked(nodes, x);
    var q := nodes[x].parent.value;
    if q in PreOrder(nodes, rank, target) {
      ChildInPreOrder(nodes, rank, target, q, x);
      assert false;
    }
    if q == p {
      assert x != target;
    }
  }

  /** Detaching a non-root node keeps the tree well formed. */
  lemma DetachedWellFormed(nodes: Arena, rank: map<Uuid, nat>, root: Uuid, target: Uuid)
    requires WellFormed(nodes, rank, root) && target in nodes && target != root
    ensures ParentLinked(nodes, target)
    ensures WellFormed(Detached(nodes, rank, target), rank, root)
  {
    DetachedKeys(nodes, rank, root, target);
    var d := Detached(nodes, rank, target);
    forall n, i | n in d && 0 <= i < |d[n].children|
      ensures d[n].children[i] in d && rank[d[n].children[i]] < rank[n]
      ensures d[d[n].children[i]].parent == Some(n)
    {
      DetachedChildren(nodes, rank, root, target, n, i);
    }
    forall x | x in d && x != root
      ensures ParentLinked(d, x)
    {
      DetachedParent(nodes, rank, root, target, x);
    }
  }

  /** What `remove(node:)` did. The two refusals are the cases the Swift code only logs. */
  datatype Removal = Removed | RootRefused | NotFound

  /** The nodes of one document: the arena and the id of its root. */
  class Tree {
    const root: Uuid
    var nodes: Arena
    ghost var rank: map<Uuid, nat>

    ghost predicate Valid()
      reads this
    {
      WellFormed(nodes, rank, root)
    }

    /** `Node(name:)` for a new document's root: no parent, no children, no position yet. */
    constructor (rootId: Uuid, name: string)
      ensures Valid() && root == rootId
      ensures nodes == map[rootId := Node(name, None, [], None)]
    {
      root := rootId;
      nodes := map[rootId := Node(name, None, [], None)];
      rank := map[rootId := 0];
    }

    /** `Node(name:)` for a fresh node, then `parent.add(child:)`: the child is appended at
        the end of the parent's `children`, earlier children are kept, and the child's
        parent link is set to the receiver. */
    method Add(parentId: Uuid, childId: Uuid, name: string)
      requires Valid() && parentId in nodes && childId !in nodes
      modifies this
      ensures Valid()
      ensures nodes == old(nodes)[parentId := old(nodes)[parentId].(children := old(nodes)[parentId].children + [childId])]
                                 [childId := Node(name, None, [], Some(parentId))]
    {
      AttachedWellFormed(nodes, rank, root, parentId, childId, name);
      nodes := Attached(nodes, parentId, childId, name);
      rank := AttachedRank(rank, childId);
    }

    /** `search(id:)` started at the node `from`. */
    function SearchFrom(from: Uuid, id: Uuid): (r: Option<Uuid>)
      requires Valid() && from in nodes
      reads this
      ensures r.Some? ==> r.value == id && id in nodes
      ensures r.None? <==> id !in PreOrder(nodes, rank, from)
    {
      Search(nodes, rank, from, id)
    }

    /** `from.remove(node: target)`: searches `from`'s subtree for `target`; when it is
        found and has a parent, the parent's `children` lose it (with its subtree).
        Removing a node without a parent or a node that is not there changes nothing. */
    method Remove(from: Uuid, target: Uuid) returns (outcome: Removal)
      requires Valid() && from in nodes
      modifies this
      ensures Valid() && rank == old(rank)
      ensures outcome == NotFound <==> target !in old(PreOrder(nodes, rank, from))
      ensures outcome == RootRefused <==> target in old(PreOrder(nodes, rank, from)) && target == root
      ensures outcome != Removed ==> nodes == old(nodes)
      ensures outcome == Removed ==>
                old(nodes)[target].parent.Some? && old(nodes)[target].parent.value in old(nodes) &&
                nodes == Detached(old(nodes), rank, target)
      ensures outcome == Removed ==> forall x :: x in nodes <==> x in old(nodes) && x !in old(PreOrder(nodes, rank, target))
    {
      var found := Search(nodes, rank, from, target);
      assert target in nodes && target != root ==> ParentLinked(nodes, target);
      if found.None? {
        outcome := NotFound;
      } else if nodes[target].parent.None? {
        outcome := RootRefused;
      } else {
        DetachedWellFormed(nodes, rank, root, target);
        DetachedKeys(nodes, rank, root, target);
        nodes := Detached(nodes, rank, target);
        outcome := Removed;
      }
    }

    /** `depthOfNode(id:)`: the number of parent links from the node with that id up to a
        node without a parent; 0 when the id is not in the receiver's subtree. */
    method DepthOfNode(from: Uuid, id: Uuid) returns (result: nat)
      requires Valid() && from in nodes
      ensures id in PreOrder(nodes, rank, from) ==> id in nodes && result == Depth(nodes, rank, root, id)
      ensures id !in PreOrder(nodes, rank, from) ==> result == 0
    {
      result := 0;
      var node := Search(nodes, rank, from, id);
      while node.Some? && nodes[node.value].parent.Some?
        invariant node.Some? ==> node.value in nodes && id in nodes && id in PreOrder(nodes, rank, from)
        invariant node.Some? ==> result + Depth(nodes, rank, root, node.value) == Depth(nodes, rank, root, id)
        invariant node.None? ==> result == 0 && id !in PreOrder(nodes, rank, from)
        decreases if node.Some? then rank[root] - rank[node.value] else 0
      {
        var x := node.value;
        assert ParentLinked(nodes, x);
        ChildRankBelowParent(nodes, rank, nodes[x].parent.value, x);
        result := result + 1;
        node := nodes[x].parent;
      }
    }

    /** `node.name = text` on the node with id `id`. */
    method Rename(id: Uuid, name: string)
      requires Valid() && id in nodes
      modifies this
      ensures Valid() && rank == old(rank)
      ensures nodes == old(nodes)[id := old(nodes)[id].(name := name)]
    {
      nodes := nodes[id := nodes[id].(name := name)];
      LinksKeptWellFormed(old(nodes), nodes, rank, root);
    }

    /** `node.centerPosition = position` on the node with id `id`. */
    method SetCenterPosition(id: Uuid, position: Point)
      requires Valid() && id in nodes
      modifies this
      ensures Valid() && rank == old(rank)
      ensures nodes == old(nodes)[id := old(nodes)[id].(centerPosition := Some(position))]
    {
      nodes := nodes[id := nodes[id].(centerPosition := Some(position))];
      LinksKeptWellFormed(old(nodes), nodes, rank, root);
    }
  }
}
