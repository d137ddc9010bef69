/**
 * The parsed map: every lump the reader consumes, the leaves ordered by
 * visibility cluster, the grouping of those leaves into clusters, the
 * index accessors, and the descent of the node tree to the leaf that holds
 * a point.
 */
module Vbsp {
  import opened Wrappers
  import opened Bytes
  import opened Records
  import opened BspFile
  import opened Entity
  import opened Reader

  /**
   * A parsed map. The texture string table and texture string data are
   * consulted by texture-name lookups but are not among the lumps the
   * reader fills in.
   */
  datatype Bsp = Bsp(
    header: Header,
    entities: Entities,
    texturesData: seq<TextureData>,
    texturesInfo: seq<TextureInfo>,
    planes: seq<Plane>,
    nodes: seq<Node>,
    leaves: seq<Leaf>,
    leafFaces: seq<LeafFace>,
    leafBrushes: seq<LeafBrush>,
    models: seq<Model>,
    brushes: seq<Brush>,
    brushSides: seq<BrushSide>,
    vertices: seq<Vertex>,
    edges: seq<Edge>,
    surfaceEdges: seq<SurfaceEdge>,
    faces: seq<Face>,
    originalFaces: seq<Face>,
    visData: VisData,
    displacements: seq<DisplacementInfo>,
    textureStringTables: seq<nat>,
    textureStringData: string)

  // ---------------------------------------------------------------------
  // Leaves ordered by cluster

  predicate SortedByCluster(s: seq<Leaf>)
  {
    forall p, q :: 0 <= p < q < |s| ==> s[p].cluster <= s[q].cluster
  }

  /**
   * The in-place sort `Leaves::new` applies: afterwards the leaves are in
   * non-decreasing cluster order and are a rearrangement of what was there.
   * Nothing is promised about the order of leaves that share a cluster.
   */
  method SortByCluster(a: array<Leaf>)
    modifies a
    ensures SortedByCluster(a[..])
    ensures multiset(a[..]) == multiset(old(a[..]))
  {
    var i := 0;
    while i < a.Length
      invariant 0 <= i <= a.Length
      invariant SortedByCluster(a[..i])
      invariant multiset(a[..]) == multiset(old(a[..]))
    {
      InsertByCluster(a, i);
      i := i + 1;
    }
    assert a[..a.Length] == a[..];
  }

  /** Moves `a[i]` back into the sorted prefix before it, leaving the rest of the array alone. */
  method InsertByCluster(a: array<Leaf>, i: nat)
    requires i < a.Length && SortedByCluster(a[..i])
    modifies a
    ensures SortedByCluster(a[..i + 1])
    ensures multiset(a[..]) == multiset(old(a[..]))
    ensures a[i + 1..] == old(a[i + 1..])
  {
    InsertStart(a[..], i);
    var j: nat := i;
    while j > 0 && a[j - 1].cluster > a[j].cluster
      invariant j <= i
      invariant Inserting(a[..], i, j)
      invariant multiset(a[..]) == multiset(old(a[..]))
      invariant a[i + 1..] == old(a[i + 1..])
    {
      ghost var before := a[..];
      InsertShift(before, i, j);
      SwapKeepsMultiset(before, j - 1, j);
      a[j - 1], a[j] := a[j], a[j - 1];
      assert a[..] == before[j - 1 := before[j]][j := before[j - 1]];
      assert a[i + 1..] == before[i + 1..];
      j := j - 1;
    }
    InsertEnd(a[..], i, j);
  }

  /**
   * Half-way through inserting `s[j]`: the leaves up to `i` other than the
   * one at `j` are in order, and the ones after `j` are in higher clusters.
   */
  ghost predicate Inserting(s: seq<Leaf>, i: nat, j: nat)
  {
    && j <= i < |s|
    && (forall m, n :: 0 <= m < n <= i && m != j && n != j ==> s[m].cluster <= s[n].cluster)
    && (forall n :: j < n <= i ==> s[j].cluster < s[n].cluster)
  }

  lemma InsertStart(s: seq<Leaf>, i: nat)
    requires i < |s| && SortedByCluster(s[..i])
    ensures Inserting(s, i, i)
  {
    assert forall m :: 0 <= m < i ==> s[..i][m] == s[m];
  }

  lemma InsertShift(s: seq<Leaf>, i: nat, j: nat)
    requires Inserting(s, i, j) && 0 < j && s[j - 1].cluster > s[j].cluster
    ensures Inserting(s[j - 1 := s[j]][j := s[j - 1]], i, j - 1)
  {
  }

  lemma InsertEnd(s: seq<Leaf>, i: nat, j: nat)
    requires Inserting(s, i, j) && (j == 0 || s[j - 1].cluster <= s[j].cluster)
    ensures SortedByCluster(s[..i + 1])
  {
    assert forall m :: 0 <= m <= i ==> s[..i + 1][m] == s[m];
  }

  /** Exchanging two elements rearranges a sequence. */
  lemma SwapKeepsMultiset(s: seq<Leaf>, i: nat, j: nat)
    requires i < j < |s|
    ensures multiset(s[i := s[j]][j := s[i]]) == multiset(s)
  {
    var t := s[i := s[j]][j := s[i]];
    assert s == s[..i] + [s[i]] + s[i + 1..j] + [s[j]] + s[j + 1..];
    assert t == s[..i] + [s[j]] + s[i + 1..j] + [s[i]] + s[j + 1..];
  }

  /** `Leaves::new`: the leaves, sorted by cluster. */
  method NewLeaves(leaves: seq<Leaf>) returns (r: seq<Leaf>)
    ensures SortedByCluster(r)
    ensures multiset(r) == multiset(leaves)
  {
    var a := new Leaf[|leaves|](i requires 0 <= i < |leaves| => leaves[i]);
    assert a[..] == leaves;
    SortByCluster(a);
    r := a[..];
  }

  // ---------------------------------------------------------------------
  // Cluster groups

  /** How many leading leaves of `s` are in cluster `c`. */
  function RunLength(s: seq<Leaf>, c: i16): (n: nat)
    ensures n <= |s|
    ensures forall k :: 0 <= k < n ==> s[k].cluster == c
    ensures n < |s| ==> s[n].cluster != c
  {
    if |s| == 0 || s[0].cluster != c then 0 else 1 + RunLength(s[1..], c)
  }

  /** The groups `clusters` yields, in order: each one the run of leaves sharing the first remaining leaf's cluster. */
  function Clusters(s: seq<Leaf>): seq<seq<Leaf>>
    decreases |s|
  {
    if |s| == 0 then []
    else
      var n := RunLength(s, s[0].cluster);
      [s[..n]] + Clusters(s[n..])
  }

  function Concat(groups: seq<seq<Leaf>>): seq<Leaf>
  {
    if |groups| == 0 then [] else groups[0] + Concat(groups[1..])
  }

  /** The iterator `clusters` returns: the leaves and the index of the first leaf not yet grouped. */
  class LeafClusters {
    const leaves: seq<Leaf>
    var index: nat

    ghost predicate Valid()
      reads this
    {
      index <= |leaves|
    }

    constructor (leaves: seq<Leaf>)
      ensures Valid() && this.leaves == leaves && index == 0
    {
      this.leaves := leaves;
      index := 0;
    }

    /** The groups this iterator has still to yield. */
    ghost function Remaining(): seq<seq<Leaf>>
      requires Valid()
      reads this
    {
      Clusters(leaves[index..])
    }

    /** `next`: the next group, with the index moved past it; `None` once every leaf is grouped. */
    method Next() returns (r: Option<seq<Leaf>>)
      requires Valid()
      modifies this
      ensures Valid()
      ensures old(Remaining()) == [] ==> r == None && index == old(index)
      ensures old(Remaining()) != [] ==> r == Some(old(Remaining())[0]) && Remaining() == old(Remaining())[1..]
    {
      if index >= |leaves| {
        return None;
      }
      var cluster := leaves[index].cluster;
      var remaining := leaves[index..];
      var size := RunLength(remaining, cluster);
      index := index + size;
      assert leaves[index..] == remaining[size..];
      return Some(remaining[..size]);
    }
  }

  /** Every group is non-empty and all of its leaves share the group's first leaf's cluster. */
  predicate UniformGroups(groups: seq<seq<Leaf>>)
  {
    forall k :: 0 <= k < |groups| ==> |groups[k]| > 0 && forall m :: 0 <= m < |groups[k]| ==> groups[k][m].cluster == groups[k][0].cluster
  }

  /** Each group's cluster differs from the one of the group before it. */
  ghost predicate NeighboursDiffer(groups: seq<seq<Leaf>>)
  {
    forall k, l :: 0 <= k < l < |groups| && l == k + 1 ==> |groups[k]| > 0 && |groups[l]| > 0 && groups[k][0].cluster != groups[l][0].cluster
  }

  /** Every group is non-empty and uniform. */
  lemma {:induction false} ClustersUniform(s: seq<Leaf>)
    ensures UniformGroups(Clusters(s))
    decreases |s|
  {
    if |s| > 0 {
      var n := RunLength(s, s[0].cluster);
      ClustersUniform(s[n..]);
      assert Clusters(s) == [s[..n]] + Clusters(s[n..]);
    }
  }

  /** Concatenating the groups gives back the leaves, in order. */
  lemma {:induction false} ClustersConcat(s: seq<Leaf>)
    ensures Concat(Clusters(s)) == s
    decreases |s|
  {
    if |s| > 0 {
      var n := RunLength(s, s[0].cluster);
      var groups := Clusters(s);
      ClustersConcat(s[n..]);
      assert groups == [s[..n]] + Clusters(s[n..]);
      assert groups[0] == s[..n] && groups[1..] == Clusters(s[n..]);
      assert Concat(groups) == s[..n] + Concat(Clusters(s[n..]));
      assert s[..n] + s[n..] == s;
    }
  }

  /** Consecutive groups are in different clusters, so every group is a maximal run. */
  lemma {:induction false} ClustersMaximal(s: seq<Leaf>)
    ensures NeighboursDiffer(Clusters(s))
    decreases |s|
  {
    if |s| > 0 {
      var n := RunLength(s, s[0].cluster);
      ClustersMaximal(s[n..]);
      ClustersUniform(s[n..]);
      var rest := Clusters(s[n..]);
      assert Clusters(s) == [s[..n]] + rest;
      if |rest| > 0 {
        assert rest[0] == s[n..][..RunLength(s[n..], s[n..][0].cluster)];
        assert rest[0][0] == s[n];
      }
    }
  }

  function TestLeaf(contents: i32, cluster: i16): Leaf
  {
    Leaf(contents, cluster, 0, 0)
  }

  function ContentsOf(g: seq<Leaf>): seq<i32>
  {
    if |g| == 0 then [] else [g[0].contents] + ContentsOf(g[1..])
  }

  /** Five leaves with contents 0 to 4, in clusters 0, 0, 1, 2, 2. */
  function ExampleLeaves(): seq<Leaf>
  {
    [TestLeaf(0, 0), TestLeaf(1, 0), TestLeaf(2, 1), TestLeaf(3, 2), TestLeaf(4, 2)]
  }

  /** The example leaves in cluster order: only the order inside each cluster is open. */
  predicate ExampleOrder(s: seq<Leaf>)
  {
    var e := ExampleLeaves();
    && |s| == 5
    && ((s[0] == e[0] && s[1] == e[1]) || (s[0] == e[1] && s[1] == e[0]))
    && s[2] == e[2]
    && ((s[3] == e[3] && s[4] == e[4]) || (s[3] == e[4] && s[4] == e[3]))
  }

  /** Sorting the five example leaves by cluster can only leave them in an example order. */
  lemma ExampleArrangement(s: seq<Leaf>)
    requires SortedByCluster(s)
    requires multiset(s) == multiset(ExampleLeaves())
    ensures ExampleOrder(s)
  {
    var e := ExampleLeaves();
    assert |s| == 5 by {
      assert |multiset(s)| == |s|;
      assert |multiset(e)| == |e|;
    }
    // Where each example leaf sits in s.
    assert e[0] in multiset(s);
    var i0 :| 0 <= i0 < 5 && s[i0] == e[0];
    assert e[1] in multiset(s);
    var i1 :| 0 <= i1 < 5 && s[i1] == e[1];
    assert e[2] in multiset(s);
    var i2 :| 0 <= i2 < 5 && s[i2] == e[2];
    assert e[3] in multiset(s);
    var i3 :| 0 <= i3 < 5 && s[i3] == e[3];
    assert e[4] in multiset(s);
    var i4 :| 0 <= i4 < 5 && s[i4] == e[4];
    assert s[i0].cluster < s[i2].cluster && s[i1].cluster < s[i2].cluster;
    assert s[i2].cluster < s[i3].cluster && s[i2].cluster < s[i4].cluster;
    assert i0 < i2 && i1 < i2 && i2 < i3 && i2 < i4;
    assert i0 != i1 && i3 != i4;
    assert i2 == 2;
    assert (i0 == 0 && i1 == 1) || (i0 == 1 && i1 == 0);
    assert (i3 == 3 && i4 == 4) || (i3 == 4 && i4 == 3);
  }

  /** Five leaves whose clusters run two, one, two group as those three runs. */
  lemma ClustersOfRuns(s: seq<Leaf>)
    requires |s| == 5
    requires s[0].cluster == s[1].cluster && s[1].cluster != s[2].cluster
    requires s[2].cluster != s[3].cluster && s[3].cluster == s[4].cluster
    ensures Clusters(s) == [s[..2], s[2..3], s[3..5]]
  {
    assert RunLength(s[4..], s[3].cluster) == 1;
    assert RunLength(s[3..], s[3].cluster) == 2;
    assert RunLength(s[2..], s[2].cluster) == 1;
    assert RunLength(s[1..], s[0].cluster) == 1;
    assert RunLength(s, s[0].cluster) == 2;
    assert Clusters(s[5..]) == [];
    assert s[3..][..2] == s[3..5] && s[3..][2..] == s[5..];
    assert Clusters(s[3..]) == [s[3..5]] + Clusters(s[5..]);
    assert s[2..][..1] == s[2..3] && s[2..][1..] == s[3..];
    assert Clusters(s[2..]) == [s[2..3]] + Clusters(s[3..]);
  }

  /** A group of one leaf holds that leaf's contents. */
  lemma OneLeafContents(g: seq<Leaf>)
    requires |g| == 1
    ensures multiset(ContentsOf(g)) == multiset{g[0].contents}
  {
    assert g[1..] == [];
  }

  /** A group of two leaves holds their contents, whichever comes first. */
  lemma TwoLeafContents(g: seq<Leaf>, x: Leaf, y: Leaf)
    requires |g| == 2
    requires (g[0] == x && g[1] == y) || (g[0] == y && g[1] == x)
    ensures multiset(ContentsOf(g)) == multiset{x.contents, y.contents}
  {
    ContentsOfTwo(g);
    PairContents(g[0], g[1], x, y);
  }

  lemma ContentsOfTwo(g: seq<Leaf>)
    requires |g| == 2
    ensures ContentsOf(g) == [g[0].contents, g[1].contents]
  {
    assert g[1..][1..] == [];
    assert ContentsOf(g[1..][1..]) == [];
    assert ContentsOf(g[1..]) == [g[1].contents];
  }

  lemma PairContents(a: Leaf, b: Leaf, x: Leaf, y: Leaf)
    requires (a == x && b == y) || (a == y && b == x)
    ensures multiset([a.contents, b.contents]) == multiset{x.contents, y.contents}
  {
  }

  /** The groups of any example order hold the contents {0, 1}, {2} and {3, 4}. */
  lemma ClustersOfExampleOrder(s: seq<Leaf>)
    requires ExampleOrder(s)
    ensures var groups := Clusters(s);
      && |groups| == 3
      && multiset(ContentsOf(groups[0])) == multiset{0, 1}
      && multiset(ContentsOf(groups[1])) == multiset{2}
      && multiset(ContentsOf(groups[2])) == multiset{3, 4}
  {
    var e := ExampleLeaves();
    assert s[0].cluster == 0 && s[1].cluster == 0 && s[2].cluster == 1 && s[3].cluster == 2 && s[4].cluster == 2;
    assert e[0].contents == 0 && e[1].contents == 1 && e[2].contents == 2 && e[3].contents == 3 && e[4].contents == 4;
    ClustersOfRuns(s);
    var groups := Clusters(s);
    assert groups[0] == s[..2] && groups[1] == s[2..3] && groups[2] == s[3..5];
    TwoLeafContents(groups[0], e[0], e[1]);
    OneLeafContents(groups[1]);
    TwoLeafContents(groups[2], e[3], e[4]);
  }

  /**
   * However the sort orders the five example leaves, grouping them by cluster
   * gives three groups holding the contents {0, 1}, {2} and {3, 4}.
   */
  lemma ClustersExample(s: seq<Leaf>)
    requires SortedByCluster(s)
    requires multiset(s) == multiset(ExampleLeaves())
    ensures var groups := Clusters(s);
      && |groups| == 3
      && multiset(ContentsOf(groups[0])) == multiset{0, 1}
      && multiset(ContentsOf(groups[1])) == multiset{2}
      && multiset(ContentsOf(groups[2])) == multiset{3, 4}
  {
    ExampleArrangement(s);
    ClustersOfExampleOrder(s);
  }

  // ---------------------------------------------------------------------
  // Index accessors

  /** `leaf(n)`. */
  function LeafAt(bsp: Bsp, n: nat): (r: Option<Leaf>)
    ensures r.None? <==> n >= |bsp.leaves|
    ensures r.Some? ==> r.value == bsp.leaves[n]
  {
    if n < |bsp.leaves| then Some(bsp.leaves[n]) else None
  }

  /** `plane(n)`. */
  function PlaneAt(bsp: Bsp, n: nat): (r: Option<Plane>)
    ensures r.None? <==> n >= |bsp.planes|
    ensures r.Some? ==> r.value == bsp.planes[n]
  {
    if n < |bsp.planes| then Some(bsp.planes[n]) else None
  }

  /** `face(n)`. */
  function FaceAt(bsp: Bsp, n: nat): (r: Option<Face>)
    ensures r.None? <==> n >= |bsp.faces|
    ensures r.Some? ==> r.value == bsp.faces[n]
  {
    if n < |bsp.faces| then Some(bsp.faces[n]) else None
  }

  /** `node(n)`. */
  function NodeAt(bsp: Bsp, n: nat): (r: Option<Node>)
    ensures r.None? <==> n >= |bsp.nodes|
    ensures r.Some? ==> r.value == bsp.nodes[n]
  {
    if n < |bsp.nodes| then Some(bsp.nodes[n]) else None
  }

  /** `displacement(n)`. */
  function DisplacementAt(bsp: Bsp, n: nat): (r: Option<DisplacementInfo>)
    ensures r.None? <==> n >= |bsp.displacements|
    ensures r.Some? ==> r.value == bsp.displacements[n]
  {
    if n < |bsp.displacements| then Some(bsp.displacements[n]) else None
  }

  /** `root_node`: node 0, absent when there are no nodes. */
  function RootNode(bsp: Bsp): (r: Option<Node>)
    ensures r.None? <==> |bsp.nodes| == 0
    ensures r.Some? ==> r == NodeAt(bsp, 0)
  {
    NodeAt(bsp, 0)
  }

  /**
   * A node's plane as the descent looks it up: the `i32` plane index cast
   * to `usize`. A negative index becomes a value beyond any array length,
   * so it finds no plane.
   */
  function NodePlane(bsp: Bsp, node: Node): (r: Option<Plane>)
    ensures r.Some? <==> 0 <= node.planeIndex < |bsp.planes|
    ensures r.Some? ==> r.value == bsp.planes[node.planeIndex]
  {
    if node.planeIndex < 0 then None else PlaneAt(bsp, node.planeIndex as nat)
  }

  // ---------------------------------------------------------------------
  // Tree descent

  /** Bitwise complement of a two's complement `i32`. */
  function BitNot(x: i32): (r: i32)
    ensures x < 0 <==> r >= 0
  {
    (-(x as int) - 1) as i32
  }

  /** The child the point descends into: the back child when it is strictly behind the plane. */
  function ChildFor(plane: Plane, node: Node, point: Vector): i32
  {
    if Dot(point, plane.normal) < plane.dist then node.back else node.front
  }

  /** What the descent from one node ends in. */
  datatype Descent = Reached(leaf: Option<Leaf>) | OutOfSteps

  /**
   * The descent from `node` with at most `steps` node visits: a missing
   * plane or node ends it with no leaf; a negative child `c` ends it with
   * `leaf(!c)`; a non-negative child is the next node.
   */
  function Descend(bsp: Bsp, point: Vector, node: Node, steps: nat): (r: Descent)
    ensures r == Reached(None) || r == OutOfSteps || (r.Reached? && r.leaf.value in bsp.leaves)
    decreases steps
  {
    if steps == 0 then OutOfSteps
    else match NodePlane(bsp, node)
      case None => Reached(None)
      case Some(plane) =>
        var next := ChildFor(plane, node, point);
        if next < 0 then Reached(LeafAt(bsp, BitNot(next) as nat))
        else match NodeAt(bsp, next as nat)
          case None => Reached(None)
          case Some(child) => Descend(bsp, point, child, steps - 1)
  }

  /** `leaf_at` with at most `steps` node visits, starting at the root. */
  function LeafAtPointSpec(bsp: Bsp, point: Vector, steps: nat): Descent
  {
    match RootNode(bsp)
    case None => Reached(None)
    case Some(root) => Descend(bsp, point, root, steps)
  }

  /** `leaf_at`: the loop that walks from the root towards the leaf holding `point`. */
  method LeafAtPoint(bsp: Bsp, point: Vector, steps: nat) returns (r: Descent)
    ensures r == LeafAtPointSpec(bsp, point, steps)
  {
    var root := RootNode(bsp);
    if root.None? {
      return Reached(None);
    }
    var current := root.value;
    var left := steps;
    while left > 0
      invariant Descend(bsp, point, current, left) == LeafAtPointSpec(bsp, point, steps)
    {
      var plane := NodePlane(bsp, current);
      if plane.None? {
        return Reached(None);
      }
      var next := ChildFor(plane.value, current, point);
      if next < 0 {
        return Reached(LeafAt(bsp, BitNot(next) as nat));
      }
      var child := NodeAt(bsp, next as nat);
      if child.None? {
        return Reached(None);
      }
      current := child.value;
      left := left - 1;
    }
    return OutOfSteps;
  }

  /** A point strictly behind the plane goes to the back child, any other point, one on the plane included, to the front child. */
  lemma ChildSides(plane: Plane, node: Node, point: Vector)
    ensures Dot(point, plane.normal) < plane.dist ==> ChildFor(plane, node, point) == node.back
    ensures Dot(point, plane.normal) >= plane.dist ==> ChildFor(plane, node, point) == node.front
    ensures Dot(point, plane.normal) == plane.dist ==> ChildFor(plane, node, point) == node.front
  {
  }

  /** A map with no nodes has no leaf at any point. */
  lemma NoNodesNoLeaf(bsp: Bsp, point: Vector, steps: nat)
    requires |bsp.nodes| == 0
    ensures LeafAtPointSpec(bsp, point, steps) == Reached(None)
  {
  }

  /** One step of the descent: where a node's chosen child leads. */
  lemma DescendStep(bsp: Bsp, point: Vector, node: Node, steps: nat)
    requires steps > 0 && 0 <= node.planeIndex < |bsp.planes|
    ensures var next := ChildFor(bsp.planes[node.planeIndex], node, point);
      && (next < 0 && -(next as int) - 1 >= |bsp.leaves| ==> Descend(bsp, point, node, steps) == Reached(None))
      && (next < 0 && -(next as int) - 1 < |bsp.leaves| ==> Descend(bsp, point, node, steps) == Reached(Some(bsp.leaves[-(next as int) - 1])))
      && (next >= 0 && next >= |bsp.nodes| ==> Descend(bsp, point, node, steps) == Reached(None))
      && (0 <= next < |bsp.nodes| ==> Descend(bsp, point, node, steps) == Descend(bsp, point, bsp.nodes[next], steps - 1))
  {
  }

  /** A descent that ends within some number of steps ends the same way with any larger allowance. */
  lemma {:induction false} DescendMoreSteps(bsp: Bsp, point: Vector, node: Node, steps: nat, more: nat)
    requires Descend(bsp, point, node, steps).Reached?
    requires steps <= more
    ensures Descend(bsp, point, node, more) == Descend(bsp, point, node, steps)
    decreases steps
  {
    match NodePlane(bsp, node)
    case None =>
    case Some(plane) =>
      var next := ChildFor(plane, node, point);
      if next >= 0 {
        match NodeAt(bsp, next as nat)
        case None =>
        case Some(child) => DescendMoreSteps(bsp, point, child, steps - 1, more - 1);
      }
  }

  /** Every child index that names a node names a later node, so no descent can revisit a node. */
  predicate ChildrenForward(bsp: Bsp)
  {
    forall i :: 0 <= i < |bsp.nodes| ==>
      && (bsp.nodes[i].front >= 0 ==> bsp.nodes[i].front as int > i)
      && (bsp.nodes[i].back >= 0 ==> bsp.nodes[i].back as int > i)
  }

  /** In such a tree the descent from node `i` ends within the number of nodes from `i` on. */
  lemma {:induction false} DescendForwardEnds(bsp: Bsp, point: Vector, i: nat)
    requires ChildrenForward(bsp)
    requires i < |bsp.nodes|
    ensures Descend(bsp, point, bsp.nodes[i], |bsp.nodes| - i).Reached?
    decreases |bsp.nodes| - i
  {
    match NodePlane(bsp, bsp.nodes[i])
    case None =>
    case Some(plane) =>
      var next := ChildFor(plane, bsp.nodes[i], point);
      if 0 <= next && (next as int) < |bsp.nodes| {
        assert next as int > i;
        DescendForwardEnds(bsp, point, next as nat);
        DescendMoreSteps(bsp, point, bsp.nodes[next], |bsp.nodes| - next as int, |bsp.nodes| - i - 1);
      }
  }

  /** `leaf_at` on such a tree finishes within as many steps as there are nodes, and more steps change nothing. */
  lemma LeafAtPointEnds(bsp: Bsp, point: Vector, more: nat)
    requires ChildrenForward(bsp)
    requires |bsp.nodes| <= more
    ensures LeafAtPointSpec(bsp, point, |bsp.nodes|).Reached?
    ensures LeafAtPointSpec(bsp, point, more) == LeafAtPointSpec(bsp, point, |bsp.nodes|)
  {
    if |bsp.nodes| > 0 {
      DescendForwardEnds(bsp, point, 0);
      DescendMoreSteps(bsp, point, bsp.nodes[0], |bsp.nodes|, more);
    }
  }

  // ---------------------------------------------------------------------
  // Reading a map

  /** A record decoder: the record's byte width and how one record is read from that many bytes. */
  datatype Codec<T> = Codec(size: nat, decode: seq<byte> -> Result<T, ReadError>)

  /** The record decoders of the lumps the map reader reads as record runs. */
  datatype Decoders = Decoders(
    textureData: Codec<TextureData>,
    textureInfo: Codec<TextureInfo>,
    plane: Codec<Plane>,
    node: Codec<Node>,
    leaf: Codec<Leaf>,
    leafFace: Codec<LeafFace>,
    leafBrush: Codec<LeafBrush>,
    model: Codec<Model>,
    brush: Codec<Brush>,
    brushSide: Codec<BrushSide>,
    vertex: Codec<Vertex>,
    edge: Codec<Edge>,
    surfaceEdge: Codec<SurfaceEdge>,
    face: Codec<Face>,
    displacement: Codec<DisplacementInfo>)
  {
    /** Every record has a non-zero width. */
    predicate Valid()
    {
      && textureData.size > 0 && textureInfo.size > 0 && plane.size > 0 && node.size > 0
      && leaf.size > 0 && leafFace.size > 0 && leafBrush.size > 0 && model.size > 0
      && brush.size > 0 && brushSide.size > 0 && vertex.size > 0 && edge.size > 0
      && surfaceEdge.size > 0 && face.size > 0 && displacement.size > 0
    }
  }

  /** A lump read as a run of records by a fresh lump reader. */
  function LumpVec<T>(file: BspFile, lump: LumpType, decompress: Decompressor, codec: Codec<T>): Result<seq<T>, BspError>
    requires codec.size > 0
  {
    var (_, bytes) :- GetLump(file, lump, decompress);
    ReadVecSpec(bytes, 0, |bytes|, lump, codec.size, codec.decode).0
  }

  /** The entity lump read as text. */
  function LumpEntities(file: BspFile, decompress: Decompressor, toText: seq<byte> -> Option<string>): Result<Entities, BspError>
  {
    var (_, bytes) :- GetLump(file, LumpType.Entities, decompress);
    ReadEntitiesSpec(bytes, toText)
  }

  /** The visibility lump read as visibility data. */
  function LumpVisData(file: BspFile, decompress: Decompressor): Result<VisData, BspError>
  {
    var (_, bytes) :- GetLump(file, LumpType.Visibility, decompress);
    ReadVisDataSpec(bytes, 0, |bytes|).0
  }

  /**
   * `Bsp::read` with the leaves in file order: the container, then each lump
   * in turn, the first failure ending the read.
   */
  function ReadSpec(data: seq<byte>, decompress: Decompressor, toText: seq<byte> -> Option<string>, d: Decoders): Result<Bsp, BspError>
    requires d.Valid()
  {
    var file :- ParseBspFile(data);
    var entities :- LumpEntities(file, decompress, toText);
    var texturesData :- LumpVec(file, LumpType.TextureData, decompress, d.textureData);
    var texturesInfo :- LumpVec(file, LumpType.TextureInfo, decompress, d.textureInfo);
    var planes :- LumpVec(file, LumpType.Planes, decompress, d.plane);
    var nodes :- LumpVec(file, LumpType.Nodes, decompress, d.node);
    var leaves :- LumpVec(file, LumpType.Leaves, decompress, d.leaf);
    var leafFaces :- LumpVec(file, LumpType.LeafFaces, decompress, d.leafFace);
    var leafBrushes :- LumpVec(file, LumpType.LeafBrushes, decompress, d.leafBrush);
    var models :- LumpVec(file, LumpType.Models, decompress, d.model);
    var brushes :- LumpVec(file, LumpType.Brushes, decompress, d.brush);
    var brushSides :- LumpVec(file, LumpType.BrushSides, decompress, d.brushSide);
    var vertices :- LumpVec(file, LumpType.Vertices, decompress, d.vertex);
    var edges :- LumpVec(file, LumpType.Edges, decompress, d.edge);
    var surfaceEdges :- LumpVec(file, LumpType.SurfaceEdges, decompress, d.surfaceEdge);
    var faces :- LumpVec(file, LumpType.Faces, decompress, d.face);
    var originalFaces :- LumpVec(file, LumpType.OriginalFaces, decompress, d.face);
    var visData :- LumpVisData(file, decompress);
    var displacements :- LumpVec(file, LumpType.DisplacementInfo, decompress, d.displacement);
    Ok(Bsp(file.header, entities, texturesData, texturesInfo, planes, nodes, leaves, leafFaces,
           leafBrushes, models, brushes, brushSides, vertices, edges, surfaceEdges, faces,
           originalFaces, visData, displacements, [], []))
  }

  /** `lump_reader(lump)?.read_vec(..)`. */
  method ReadLumpVec<T>(file: BspFile, lump: LumpType, decompress: Decompressor, codec: Codec<T>) returns (r: Result<seq<T>, BspError>)
    requires codec.size > 0
    ensures r == LumpVec(file, lump, decompress, codec)
  {
    var reader :- OpenLumpReader(file, lump, decompress);
    r := reader.ReadVec(codec.size, codec.decode);
  }

  /** `lump_reader(Entities)?.read_entities()`. */
  method ReadLumpEntities(file: BspFile, decompress: Decompressor, toText: seq<byte> -> Option<string>) returns (r: Result<Entities, BspError>)
    ensures r == LumpEntities(file, decompress, toText)
  {
    var reader :- OpenLumpReader(file, LumpType.Entities, decompress);
    assert reader.inner.data[reader.inner.pos..] == reader.inner.data;
    r := reader.ReadEntities(toText);
  }

  /** `lump_reader(Visibility)?.read_visdata()`. */
  method ReadLumpVisData(file: BspFile, decompress: Decompressor) returns (r: Result<VisData, BspError>)
    ensures r == LumpVisData(file, decompress)
  {
    var reader :- OpenLumpReader(file, LumpType.Visibility, decompress);
    r := reader.ReadVisData();
  }

  /**
   * `Bsp::read`: the map as the lumps give it, with the leaves sorted by
   * cluster; the first failure is the result and no map is built.
   */
  method Read(data: seq<byte>, decompress: Decompressor, toText: seq<byte> -> Option<string>, d: Decoders) returns (r: Result<Bsp, BspError>)
    requires d.Valid()
    ensures ReadSpec(data, decompress, toText, d).Err? ==> r == Err(ReadSpec(data, decompress, toText, d).error)
    ensures ReadSpec(data, decompress, toText, d).Ok? ==>
      var spec := ReadSpec(data, decompress, toText, d).value;
      && r.Ok? && r.value == spec.(leaves := r.value.leaves)
      && SortedByCluster(r.value.leaves) && multiset(r.value.leaves) == multiset(spec.leaves)
  {
    var file :- Open(data);
    var entities :- ReadLumpEntities(file, decompress, toText);
    var texturesData :- ReadLumpVec(file, LumpType.TextureData, decompress, d.textureData);
    var texturesInfo :- ReadLumpVec(file, LumpType.TextureInfo, decompress, d.textureInfo);
    var planes :- ReadLumpVec(file, LumpType.Planes, decompress, d.plane);
    var nodes :- ReadLumpVec(file, LumpType.Nodes, decompress, d.node);
    var fileLeaves :- ReadLumpVec(file, LumpType.Leaves, decompress, d.leaf);
    var leaves := NewLeaves(fileLeaves);
    var leafFaces :- ReadLumpVec(file, LumpType.LeafFaces, decompress, d.leafFace);
    var leafBrushes :- ReadLumpVec(file, LumpType.LeafBrushes, decompress, d.leafBrush);
    var models :- ReadLumpVec(file, LumpType.Models, decompress, d.model);
    var brushes :- ReadLumpVec(file, LumpType.Brushes, decompress, d.brush);
    var brushSides :- ReadLumpVec(file, LumpType.BrushSides, decompress, d.brushSide);
    var vertices :- ReadLumpVec(file, LumpType.Vertices, decompress, d.vertex);
    var edges :- ReadLumpVec(file, LumpType.Edges, decompress, d.edge);
    var surfaceEdges :- ReadLumpVec(file, LumpType.SurfaceEdges, decompress, d.surfaceEdge);
    var faces :- ReadLumpVec(file, LumpType.Faces, decompress, d.face);
    var originalFaces :- ReadLumpVec(file, LumpType.OriginalFaces, decompress, d.face);
    var visData :- ReadLumpVisData(file, decompress);
    var displacements :- ReadLumpVec(file, LumpType.DisplacementInfo, decompress, d.displacement);
    return Ok(Bsp(file.header, entities, texturesData, texturesInfo, planes, nodes, leaves, leafFaces,
                  leafBrushes, models, brushes, brushSides, vertices, edges, surfaceEdges, faces,
                  originalFaces, visData, displacements, [], []));
  }

  function ErrorOf<T>(r: Result<T, BspError>): (e: Option<BspError>)
    ensures e.None? <==> r.Ok?
    ensures e.Some? ==> r == Err(e.value)
  {
    if r.Err? then Some(r.error) else None
  }

  /** The outcome of every lump read, in the order the map reader performs them. */
  function LumpErrors(file: BspFile, decompress: Decompressor, toText: seq<byte> -> Option<string>, d: Decoders): seq<Option<BspError>>
    requires d.Valid()
  {
    EarlyLumpErrors(file, decompress, toText, d) + LateLumpErrors(file, decompress, d)
  }

  /** The outcomes from the entity lump to the model lump. */
  function EarlyLumpErrors(file: BspFile, decompress: Decompressor, toText: seq<byte> -> Option<string>, d: Decoders): seq<Option<BspError>>
    requires d.Valid()
  {
    [ErrorOf(LumpEntities(file, decompress, toText))] +
    ([ErrorOf(LumpVec(file, LumpType.TextureData, decompress, d.textureData))] +
    ([ErrorOf(LumpVec(file, LumpType.TextureInfo, decompress, d.textureInfo))] +
    ([ErrorOf(LumpVec(file, LumpType.Planes, decompress, d.plane))] +
    ([ErrorOf(LumpVec(file, LumpType.Nodes, decompress, d.node))] +
    ([ErrorOf(LumpVec(file, LumpType.Leaves, decompress, d.leaf))] +
    ([ErrorOf(LumpVec(file, LumpType.LeafFaces, decompress, d.leafFace))] +
    ([ErrorOf(LumpVec(file, LumpType.LeafBrushes, decompress, d.leafBrush))] +
    ([ErrorOf(LumpVec(file, LumpType.Models, decompress, d.model))]))))))))
  }

  /** The outcomes from the brush lump to the displacement lump. */
  function LateLumpErrors(file: BspFile, decompress: Decompressor, d: Decoders): seq<Option<BspError>>
    requires d.Valid()
  {
    [ErrorOf(LumpVec(file, LumpType.Brushes, decompress, d.brush))] +
    ([ErrorOf(LumpVec(file, LumpType.BrushSides, decompress, d.brushSide))] +
    ([ErrorOf(LumpVec(file, LumpType.Vertices, decompress, d.vertex))] +
    ([ErrorOf(LumpVec(file, LumpType.Edges, decompress, d.edge))] +
    ([ErrorOf(LumpVec(file, LumpType.SurfaceEdges, decompress, d.surfaceEdge))] +
    ([ErrorOf(LumpVec(file, LumpType.Faces, decompress, d.face))] +
    ([ErrorOf(LumpVec(file, LumpType.OriginalFaces, decompress, d.face))] +
    ([ErrorOf(LumpVisData(file, decompress))] +
    ([ErrorOf(LumpVec(file, LumpType.DisplacementInfo, decompress, d.displacement))]))))))))
  }

  /** The first failure in a run of outcomes. */
  function FirstError(errs: seq<Option<BspError>>): Option<BspError>
  {
    if |errs| == 0 then None
    else if errs[0].Some? then errs[0]
    else FirstError(errs[1..])
  }

  /** `FirstError` is absent exactly when every outcome succeeded, and otherwise is the earliest failure. */
  lemma {:induction false} FirstErrorIsEarliest(errs: seq<Option<BspError>>)
    ensures FirstError(errs).None? <==> forall i :: 0 <= i < |errs| ==> errs[i].None?
    ensures FirstError(errs).Some? ==>
      exists i :: 0 <= i < |errs| && errs[i] == FirstError(errs) && forall j :: 0 <= j < i ==> errs[j].None?
  {
    if |errs| > 0 && errs[0].None? {
      FirstErrorIsEarliest(errs[1..]);
      if FirstError(errs).Some? {
        var i :| 0 <= i < |errs[1..]| && errs[1..][i] == FirstError(errs[1..]) && forall j :: 0 <= j < i ==> errs[1..][j].None?;
        assert errs[i + 1] == FirstError(errs);
      }
    }
  }

  lemma FirstErrorCons(e: Option<BspError>, rest: seq<Option<BspError>>)
    ensures FirstError([e] + rest) == if e.Some? then e else FirstError(rest)
  {
    assert ([e] + rest)[1..] == rest;
  }

  /** The first failure of two runs is the first run's, if it has one. */
  lemma {:induction false} FirstErrorAppend(a: seq<Option<BspError>>, b: seq<Option<BspError>>)
    ensures FirstError(a + b) == if FirstError(a).Some? then FirstError(a) else FirstError(b)
  {
    if |a| > 0 {
      FirstErrorCons(a[0], a[1..] + b);
      FirstErrorCons(a[0], a[1..]);
      FirstErrorAppend(a[1..], b);
      assert a + b == [a[0]] + (a[1..] + b);
      assert a == [a[0]] + a[1..];
    } else {
      assert a + b == b;
    }
  }

  /**
   * Reading a map fails exactly when the container or one of the lumps
   * fails, and then with the container's error or the first failing lump's.
   */
  lemma ReadFailsAtFirstError(data: seq<byte>, decompress: Decompressor, toText: seq<byte> -> Option<string>, d: Decoders)
    requires d.Valid()
    ensures ParseBspFile(data).Err? ==> ReadSpec(data, decompress, toText, d) == Err(ParseBspFile(data).error)
    ensures ParseBspFile(data).Ok? ==>
      var first := FirstError(LumpErrors(ParseBspFile(data).value, decompress, toText, d));
      && (ReadSpec(data, decompress, toText, d).Ok? <==> first.None?)
      && (first.Some? ==> ReadSpec(data, decompress, toText, d) == Err(first.value))
  {
    if ParseBspFile(data).Ok? {
      var file := ParseBspFile(data).value;
      FirstErrorAppend(EarlyLumpErrors(file, decompress, toText, d), LateLumpErrors(file, decompress, d));
      EarlyChain(file, decompress, toText, d);
      LateChain(file, decompress, d);
    }
  }

  /** `FirstError` of the early outcomes, one lump at a time. */
  lemma EarlyChain(file: BspFile, decompress: Decompressor, toText: seq<byte> -> Option<string>, d: Decoders)
    requires d.Valid()
    ensures FirstError(EarlyLumpErrors(file, decompress, toText, d)) ==
      if LumpEntities(file, decompress, toText).Err? then Some(LumpEntities(file, decompress, toText).error) else
      if LumpVec(file, LumpType.TextureData, decompress, d.textureData).Err? then Some(LumpVec(file, LumpType.TextureData, decompress, d.textureData).error) else
      if LumpVec(file, LumpType.TextureInfo, decompress, d.textureInfo).Err? then Some(LumpVec(file, LumpType.TextureInfo, decompress, d.textureInfo).error) else
      if LumpVec(file, LumpType.Planes, decompress, d.plane).Err? then Some(LumpVec(file, LumpType.Planes, decompress, d.plane).error) else
      if LumpVec(file, LumpType.Nodes, decompress, d.node).Err? then Some(LumpVec(file, LumpType.Nodes, decompress, d.node).error) else
      if LumpVec(file, LumpType.Leaves, decompress, d.leaf).Err? then Some(LumpVec(file, LumpType.Leaves, decompress, d.leaf).error) else
      if LumpVec(file, LumpType.LeafFaces, decompress, d.leafFace).Err? then Some(LumpVec(file, LumpType.LeafFaces, decompress, d.leafFace).error) else
      if LumpVec(file, LumpType.LeafBrushes, decompress, d.leafBrush).Err? then Some(LumpVec(file, LumpType.LeafBrushes, decompress, d.leafBrush).error) else
      if LumpVec(file, LumpType.Models, decompress, d.model).Err? then Some(LumpVec(file, LumpType.Models, decompress, d.model).error) else
      None
  {
    var e0 := ErrorOf(LumpEntities(file, decompress, toText));
    var e1 := ErrorOf(LumpVec(file, LumpType.TextureData, decompress, d.textureData));
    var e2 := ErrorOf(LumpVec(file, LumpType.TextureInfo, decompress, d.textureInfo));
    var e3 := ErrorOf(LumpVec(file, LumpType.Planes, decompress, d.plane));
    var e4 := ErrorOf(LumpVec(file, LumpType.Nodes, decompress, d.node));
    var e5 := ErrorOf(LumpVec(file, LumpType.Leaves, decompress, d.leaf));
    var e6 := ErrorOf(LumpVec(file, LumpType.LeafFaces, decompress, d.leafFace));
    var e7 := ErrorOf(LumpVec(file, LumpType.LeafBrushes, decompress, d.leafBrush));
    var e8 := ErrorOf(LumpVec(file, LumpType.Models, decompress, d.model));
    var r8 := [e8];
    var r7 := [e7] + r8;
    var r6 := [e6] + r7;
    var r5 := [e5] + r6;
    var r4 := [e4] + r5;
    var r3 := [e3] + r4;
    var r2 := [e2] + r3;
    var r1 := [e1] + r2;
    var r0 := [e0] + r1;
    FirstErrorCons(e0, r1);
    FirstErrorCons(e1, r2);
    FirstErrorCons(e2, r3);
    FirstErrorCons(e3, r4);
    FirstErrorCons(e4, r5);
    FirstErrorCons(e5, r6);
    FirstErrorCons(e6, r7);
    FirstErrorCons(e7, r8);
    FirstErrorCons(e8, []);
    assert [e8] + [] == r8;
    assert r0 == EarlyLumpErrors(file, decompress, toText, d);
  }

  /** `FirstError` of the late outcomes, one lump at a time. */
  lemma LateChain(file: BspFile, decompress: Decompressor, d: Decoders)
    requires d.Valid()
    ensures FirstError(LateLumpErrors(file, decompress, d)) ==
      if LumpVec(file, LumpType.Brushes, decompress, d.brush).Err? then Some(LumpVec(file, LumpType.Brushes, decompress, d.brush).error) else
      if LumpVec(file, LumpType.BrushSides, decompress, d.brushSide).Err? then Some(LumpVec(file, LumpType.BrushSides, decompress, d.brushSide).error) else
      if LumpVec(file, LumpType.Vertices, decompress, d.vertex).Err? then Some(LumpVec(file, LumpType.Vertices, decompress, d.vertex).error) else
      if LumpVec(file, LumpType.Edges, decompress, d.edge).Err? then Some(LumpVec(file, LumpType.Edges, decompress, d.edge).error) else
      if LumpVec(file, LumpType.SurfaceEdges, decompress, d.surfaceEdge).Err? then Some(LumpVec(file, LumpType.SurfaceEdges, decompress, d.surfaceEdge).error) else
      if LumpVec(file, LumpType.Faces, decompress, d.face).Err? then Some(LumpVec(file, LumpType.Faces, decompress, d.face).error) else
      if LumpVec(file, LumpType.OriginalFaces, decompress, d.face).Err? then Some(LumpVec(file, LumpType.OriginalFaces, decompress, d.face).error) else
      if LumpVisData(file, decompress).Err? then Some(LumpVisData(file, decompress).error) else
      if LumpVec(file, LumpType.DisplacementInfo, decompress, d.displacement).Err? then Some(LumpVec(file, LumpType.DisplacementInfo, decompress, d.displacement).error) else
      None
  {
    var e0 := ErrorOf(LumpVec(file, LumpType.Brushes, decompress, d.brush));
    var e1 := ErrorOf(LumpVec(file, LumpType.BrushSides, decompress, d.brushSide));
    var e2 := ErrorOf(LumpVec(file, LumpType.Vertices, decompress, d.vertex));
    var e3 := ErrorOf(LumpVec(file, LumpType.Edges, decompress, d.edge));
    var e4 := ErrorOf(LumpVec(file, LumpType.SurfaceEdges, decompress, d.surfaceEdge));
    var e5 := ErrorOf(LumpVec(file, LumpType.Faces, decompress, d.face));
    var e6 := ErrorOf(LumpVec(file, LumpType.OriginalFaces, decompress, d.face));
    var e7 := ErrorOf(LumpVisData(file, decompress));
    var e8 := ErrorOf(LumpVec(file, LumpType.DisplacementInfo, decompress, d.displacement));
    var r8 := [e8];
    var r7 := [e7] + r8;
    var r6 := [e6] + r7;
    var r5 := [e5] + r6;
    var r4 := [e4] + r5;
    var r3 := [e3] + r4;
    var r2 := [e2] + r3;
    var r1 := [e1] + r2;
    var r0 := [e0] + r1;
    FirstErrorCons(e0, r1);
    FirstErrorCons(e1, r2);
    FirstErrorCons(e2, r3);
    FirstErrorCons(e3, r4);
    FirstErrorCons(e4, r5);
    FirstErrorCons(e5, r6);
    FirstErrorCons(e6, r7);
    FirstErrorCons(e7, r8);
    FirstErrorCons(e8, []);
    assert [e8] + [] == r8;
    assert r0 == LateLumpErrors(file, decompress, d);
  }
}
