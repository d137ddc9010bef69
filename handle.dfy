/**
 * Handles: a record of a parsed map paired with the map itself, so that the
 * record's indices can be followed into the map's other arrays. A handle's
 * operations are modelled as functions of the map and the record; they
 * return the records the handles would wrap.
 */
module Handle {
  import opened Wrappers
  import opened Bytes
  import opened Records
  import opened Vbsp

  // ---------------------------------------------------------------------
  // Children of a node

  /** What a child index of a node refers to. */
  datatype NodeOrLeaf = NodeChild(node: Node) | LeafChild(leaf: Leaf)

  /**
   * `node_leaf`: a negative index `idx` names leaf `-(idx + 1)`, any other
   * index names a node; an index past the end of its array names nothing.
   */
  function NodeLeaf(bsp: Bsp, idx: i32): (r: Option<NodeOrLeaf>)
    ensures r.Some? <==> (idx < 0 && BitNot(idx) < |bsp.leaves|) || (0 <= idx < |bsp.nodes|)
    ensures r.Some? && r.value.LeafChild? ==> idx < 0 && r.value.leaf == bsp.leaves[BitNot(idx)]
    ensures r.Some? && r.value.NodeChild? ==> idx >= 0 && r.value.node == bsp.nodes[idx]
  {
    if idx < 0 then
      var leafIdx := -(idx as int + 1);
      match LeafAt(bsp, leafIdx)
      case Some(leaf) => Some(LeafChild(leaf))
      case None => None
    else
      match NodeAt(bsp, idx as nat)
      case Some(node) => Some(NodeChild(node))
      case None => None
  }

  /** `children`: what the front and the back child indices refer to. */
  function Children(bsp: Bsp, node: Node): (Option<NodeOrLeaf>, Option<NodeOrLeaf>)
  {
    (NodeLeaf(bsp, node.front), NodeLeaf(bsp, node.back))
  }

  /**
   * The child a descent takes, looked up through `children`, leads where
   * the descent goes: nowhere when it names nothing, to its leaf when it is
   * a leaf, and on from its node when it is a node.
   */
  lemma ChildrenLeadDescent(bsp: Bsp, point: Vector, node: Node, steps: nat)
    requires steps > 0 && 0 <= node.planeIndex < |bsp.planes|
    ensures var plane := bsp.planes[node.planeIndex];
      var taken := if Dot(point, plane.normal) < plane.dist then Children(bsp, node).1 else Children(bsp, node).0;
      && (taken.None? ==> Descend(bsp, point, node, steps) == Reached(None))
      && (taken.Some? && taken.value.LeafChild? ==> Descend(bsp, point, node, steps) == Reached(Some(taken.value.leaf)))
      && (taken.Some? && taken.value.NodeChild? ==> Descend(bsp, point, node, steps) == Descend(bsp, point, taken.value.node, steps - 1))
  {
    DescendStep(bsp, point, node, steps);
    ChildSides(bsp.planes[node.planeIndex], node, point);
  }

  /** `Handle<Node>::plane`: the node's splitting plane, which must exist. */
  function PlaneOf(bsp: Bsp, node: Node): (r: Plane)
    requires 0 <= node.planeIndex < |bsp.planes|
    ensures NodePlane(bsp, node) == Some(r)
    ensures r in bsp.planes
  {
    bsp.planes[node.planeIndex]
  }

  // ---------------------------------------------------------------------
  // Faces of a model and of a leaf

  /** `Handle<Model>::faces`: the model's contiguous range of faces, in order. */
  function ModelFaces(bsp: Bsp, model: Model): (r: seq<Face>)
    requires model.firstFace + model.faceCount <= |bsp.faces|
    ensures |r| == model.faceCount
    ensures forall i :: 0 <= i < |r| ==> r[i] == bsp.faces[model.firstFace + i]
  {
    bsp.faces[model.firstFace..model.firstFace + model.faceCount]
  }

  /** The face one leaf-face entry names, or nothing when its index is out of range. */
  function EntryFaces(bsp: Bsp, entry: LeafFace): (r: seq<Face>)
    ensures |r| <= 1
    ensures |r| == 1 <==> entry.face < |bsp.faces|
    ensures |r| == 1 ==> r[0] == bsp.faces[entry.face]
  {
    match FaceAt(bsp, entry.face)
    case Some(f) => [f]
    case None => []
  }

  /**
   * The faces a run of leaf-face entries names, in order, with every entry
   * whose face index is out of range dropped.
   */
  function FilterFaces(bsp: Bsp, entries: seq<LeafFace>): (r: seq<Face>)
    ensures |r| <= |entries|
    ensures forall f :: f in r ==> f in bsp.faces
    ensures |r| == |entries| <==> forall i :: 0 <= i < |entries| ==> entries[i].face < |bsp.faces|
    decreases |entries|
  {
    if |entries| == 0 then []
    else
      EntryFaces(bsp, entries[0]) + FilterFaces(bsp, entries[1..])
  }

  /** Filtering a concatenation filters each part, keeping their order. */
  lemma {:induction false} FilterFacesAppend(bsp: Bsp, a: seq<LeafFace>, b: seq<LeafFace>)
    ensures FilterFaces(bsp, a + b) == FilterFaces(bsp, a) + FilterFaces(bsp, b)
    decreases |a|
  {
    if |a| == 0 {
      assert a + b == b;
    } else {
      assert (a + b)[0] == a[0] && (a + b)[1..] == a[1..] + b;
      FilterFacesAppend(bsp, a[1..], b);
    }
  }

  /** When every entry is in range, the result is exactly the named faces, one per entry. */
  lemma {:induction false} FilterFacesInRange(bsp: Bsp, entries: seq<LeafFace>)
    requires forall i :: 0 <= i < |entries| ==> entries[i].face < |bsp.faces|
    ensures |FilterFaces(bsp, entries)| == |entries|
    ensures forall i :: 0 <= i < |entries| ==> FilterFaces(bsp, entries)[i] == bsp.faces[entries[i].face]
    decreases |entries|
  {
    if |entries| > 0 {
      FilterFacesInRange(bsp, entries[1..]);
      var rest := FilterFaces(bsp, entries[1..]);
      assert FilterFaces(bsp, entries) == [bsp.faces[entries[0].face]] + rest;
      forall i | 0 < i < |entries|
        ensures FilterFaces(bsp, entries)[i] == bsp.faces[entries[i].face]
      {
        assert entries[1..][i - 1] == entries[i];
      }
    }
  }

  /**
   * `Handle<Leaf>::faces`: the faces named by the leaf's range of leaf-face
   * entries, with out-of-range face indices dropped.
   */
  function LeafFaces(bsp: Bsp, leaf: Leaf): (r: seq<Face>)
    requires leaf.firstLeafFace + leaf.leafFaceCount <= |bsp.leafFaces|
    ensures |r| <= leaf.leafFaceCount
    ensures forall f :: f in r ==> f in bsp.faces
    ensures |r| == leaf.leafFaceCount <==>
      forall i :: leaf.firstLeafFace <= i < leaf.firstLeafFace + leaf.leafFaceCount ==> bsp.leafFaces[i].face < |bsp.faces|
  {
    var entries := bsp.leafFaces[leaf.firstLeafFace..leaf.firstLeafFace + leaf.leafFaceCount];
    assert forall i :: leaf.firstLeafFace <= i < leaf.firstLeafFace + leaf.leafFaceCount ==>
      bsp.leafFaces[i] == entries[i - leaf.firstLeafFace];
    FilterFaces(bsp, entries)
  }

  // ---------------------------------------------------------------------
  // Visible set of a leaf

  /** `r` can be obtained from `s` by deleting elements, keeping the order of the rest. */
  predicate IsSubsequence<T(==)>(r: seq<T>, s: seq<T>)
    decreases |s|
  {
    if |r| == 0 then true
    else if |s| == 0 then false
    else (r[0] == s[0] && IsSubsequence(r[1..], s[1..])) || IsSubsequence(r, s[1..])
  }

  /**
   * The filter of `visible_set`: a leaf is kept when it shares the query
   * cluster, or when its cluster is positive and its bit is set. Cluster 0
   * is never seen from another cluster.
   */
  predicate Sees(cluster: i16, bits: seq<bool>, leaf: Leaf)
    requires leaf.cluster != cluster && leaf.cluster > 0 ==> leaf.cluster < |bits|
  {
    if leaf.cluster == cluster then true
    else if leaf.cluster > 0 then bits[leaf.cluster]
    else false
  }

  /** The bit vector covers every other positive cluster among `leaves`. */
  predicate BitsCover(leaves: seq<Leaf>, cluster: i16, bits: seq<bool>)
  {
    forall l :: l in leaves && l.cluster != cluster && l.cluster > 0 ==> l.cluster < |bits|
  }

  /** The leaves of `leaves` that `Sees` keeps, in order. */
  function FilterVisible(leaves: seq<Leaf>, cluster: i16, bits: seq<bool>): (r: seq<Leaf>)
    requires BitsCover(leaves, cluster, bits)
    ensures forall l :: l in r <==> l in leaves && Sees(cluster, bits, l)
    ensures IsSubsequence(r, leaves)
    decreases |leaves|
  {
    if |leaves| == 0 then []
    else
      assert leaves[0] in leaves;
      assert forall l :: l in leaves[1..] ==> l in leaves;
      var rest := FilterVisible(leaves[1..], cluster, bits);
      if Sees(cluster, bits, leaves[0]) then
        assert ([leaves[0]] + rest)[1..] == rest;
        [leaves[0]] + rest
      else rest
  }

  /** A bit vector that covers a run of leaves covers each part of it. */
  lemma BitsCoverParts(a: seq<Leaf>, b: seq<Leaf>, cluster: i16, bits: seq<bool>)
    requires BitsCover(a + b, cluster, bits)
    ensures BitsCover(a, cluster, bits) && BitsCover(b, cluster, bits)
  {
    assert forall l :: l in a ==> l in a + b;
    assert forall l :: l in b ==> l in a + b;
  }

  /** Filtering two runs of leaves one after the other is filtering each and joining the results. */
  lemma {:induction false} FilterVisibleAppend(a: seq<Leaf>, b: seq<Leaf>, cluster: i16, bits: seq<bool>)
    requires BitsCover(a + b, cluster, bits)
    ensures BitsCover(a, cluster, bits) && BitsCover(b, cluster, bits)
    ensures FilterVisible(a + b, cluster, bits) == FilterVisible(a, cluster, bits) + FilterVisible(b, cluster, bits)
    decreases |a|
  {
    BitsCoverParts(a, b, cluster, bits);
    if |a| == 0 {
      assert a + b == b;
    } else {
      assert (a + b)[0] == a[0];
      assert (a + b)[1..] == a[1..] + b;
      BitsCoverParts([a[0]], a[1..], cluster, bits);
      assert [a[0]] + a[1..] == a;
      FilterVisibleAppend(a[1..], b, cluster, bits);
    }
  }

  /** A single leaf is kept exactly when the query leaf sees it. */
  lemma FilterVisibleOne(l: Leaf, cluster: i16, bits: seq<bool>)
    requires BitsCover([l], cluster, bits)
    ensures FilterVisible([l], cluster, bits) == if Sees(cluster, bits, l) then [l] else []
  {
    assert l in [l];
    assert [l][1..] == [];
  }

  /** A leaf that is seen is kept as many times as it occurs; one that is not seen is not kept at all. */
  lemma {:induction false} FilterVisibleCount(leaves: seq<Leaf>, cluster: i16, bits: seq<bool>)
    requires BitsCover(leaves, cluster, bits)
    ensures forall l :: l in leaves ==>
      multiset(FilterVisible(leaves, cluster, bits))[l] == if Sees(cluster, bits, l) then multiset(leaves)[l] else 0
    decreases |leaves|
  {
    if |leaves| > 0 {
      var head, tail := leaves[0], leaves[1..];
      assert leaves == [head] + tail;
      BitsCoverParts([head], tail, cluster, bits);
      FilterVisibleCount(tail, cluster, bits);
      var rest := FilterVisible(tail, cluster, bits);
      assert multiset(leaves) == multiset([head]) + multiset(tail);
      forall l | l in leaves
        ensures multiset(FilterVisible(leaves, cluster, bits))[l] == if Sees(cluster, bits, l) then multiset(leaves)[l] else 0
      {
        if l !in tail {
          assert multiset(tail)[l] == 0;
          assert l !in rest;
          assert multiset(rest)[l] == 0;
        }
      }
    }
  }

  /**
   * `Handle<Leaf>::visible_set`: nothing for a leaf outside every cluster;
   * otherwise the map's leaves the query leaf can see, in their order in
   * the map. `visibleClusters` decodes the visibility lump's bit vector for
   * a cluster.
   */
  function VisibleSet(bsp: Bsp, leaf: Leaf, visibleClusters: (VisData, i16) -> seq<bool>): (r: Option<seq<Leaf>>)
    requires leaf.cluster >= 0 ==> BitsCover(bsp.leaves, leaf.cluster, visibleClusters(bsp.visData, leaf.cluster))
    ensures r.None? <==> leaf.cluster < 0
    ensures r.Some? ==> forall l :: l in bsp.leaves && l.cluster == leaf.cluster ==> l in r.value
    ensures r.Some? ==> forall l :: l in bsp.leaves && l.cluster != leaf.cluster && l.cluster <= 0 ==> l !in r.value
    ensures r.Some? ==> var bits := visibleClusters(bsp.visData, leaf.cluster);
      forall l :: l in bsp.leaves && l.cluster != leaf.cluster && l.cluster > 0 ==> (l in r.value <==> bits[l.cluster])
    ensures r.Some? ==> forall l :: l in r.value ==> l in bsp.leaves
    ensures r.Some? ==> IsSubsequence(r.value, bsp.leaves)
    ensures r.Some? ==> var bits := visibleClusters(bsp.visData, leaf.cluster);
      forall l :: l in bsp.leaves ==>
        multiset(r.value)[l] == if Sees(leaf.cluster, bits, l) then multiset(bsp.leaves)[l] else 0
  {
    if leaf.cluster < 0 then None
    else
      var bits := visibleClusters(bsp.visData, leaf.cluster);
      FilterVisibleCount(bsp.leaves, leaf.cluster, bits);
      Some(FilterVisible(bsp.leaves, leaf.cluster, bits))
  }

  // ---------------------------------------------------------------------
  // Textures

  /** `Handle<TextureInfo>::texture` and `texture_data`: the texture data the info names, which must exist. */
  function TextureDataOf(bsp: Bsp, info: TextureInfo): (r: TextureData)
    requires info.textureDataIndex < |bsp.texturesData|
    ensures r in bsp.texturesData
    ensures r == bsp.texturesData[info.textureDataIndex]
  {
    bsp.texturesData[info.textureDataIndex]
  }

  /** The part of `s` before its first NUL, or all of `s` when it has none. */
  function UpToNul(s: string): (r: string)
    ensures r <= s
    ensures '\0' !in r
    ensures |r| < |s| ==> s[|r|] == '\0'
    decreases |s|
  {
    if |s| == 0 || s[0] == '\0' then []
    else [s[0]] + UpToNul(s[1..])
  }

  /** A name without NUL followed by a NUL reads back as that name, whatever follows. */
  lemma {:induction false} UpToNulTerminated(name: string, rest: string)
    requires '\0' !in name
    ensures UpToNul(name + ['\0'] + rest) == name
    decreases |name|
  {
    if |name| > 0 {
      assert (name + ['\0'] + rest)[1..] == name[1..] + ['\0'] + rest;
      UpToNulTerminated(name[1..], rest);
    } else {
      assert (name + ['\0'] + rest)[0] == '\0';
    }
  }

  /** Text without NUL reads back whole. */
  lemma {:induction false} UpToNulUnterminated(s: string)
    requires '\0' !in s
    ensures UpToNul(s) == s
    decreases |s|
  {
    if |s| > 0 {
      UpToNulUnterminated(s[1..]);
    }
  }

  /** The string-table offset of a texture data's name, when the table and the text have room for it. */
  predicate HasName(bsp: Bsp, data: TextureData)
  {
    data.nameStringTableId < |bsp.textureStringTables|
    && bsp.textureStringTables[data.nameStringTableId] <= |bsp.textureStringData|
  }

  /**
   * `Handle<TextureData>::name`: the string data from the name's table
   * offset up to the first NUL, or to the end of the data when there is none.
   */
  function TextureName(bsp: Bsp, data: TextureData): (r: string)
    requires HasName(bsp, data)
    ensures var part := bsp.textureStringData[bsp.textureStringTables[data.nameStringTableId]..];
      && r <= part && '\0' !in r && (|r| < |part| ==> part[|r|] == '\0')
  {
    UpToNul(bsp.textureStringData[bsp.textureStringTables[data.nameStringTableId]..])
  }

  /** `Handle<TextureInfo>::name`: the name of the texture data the info names. */
  function TextureInfoName(bsp: Bsp, info: TextureInfo): (r: string)
    requires info.textureDataIndex < |bsp.texturesData|
    requires HasName(bsp, bsp.texturesData[info.textureDataIndex])
    ensures r == TextureName(bsp, TextureDataOf(bsp, info))
    ensures '\0' !in r
  {
    TextureName(bsp, TextureDataOf(bsp, info))
  }
}
