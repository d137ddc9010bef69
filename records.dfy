/**
 * The fixed-size records the core reads out of lumps. Their binary layouts
 * belong to the data module and are not part of this model: each record is
 * produced by a record decoder supplied from outside. The fields below are
 * the ones the container reader, the leaf ordering, the tree descent and the
 * handle lookups consult; records that the core only stores keep their
 * bytes.
 */
module Records {
  import opened Bytes

  /** A point or direction; `f32` components are modelled as reals. */
  datatype Vector = Vector(x: real, y: real, z: real)

  /** The dot product the tree descent compares with a plane's distance. */
  function Dot(a: Vector, b: Vector): real
  {
    a.x * b.x + a.y * b.y + a.z * b.z
  }

  datatype Plane = Plane(normal: Vector, dist: real)

  /**
   * An interior node of the tree: the index of its splitting plane and its
   * `[front, back]` children, each a node index when non-negative and the
   * complement of a leaf index when negative.
   */
  datatype Node = Node(planeIndex: i32, front: i32, back: i32)

  /** A leaf of the tree: its contents flags, its visibility cluster and its range of leaf faces. */
  datatype Leaf = Leaf(contents: i32, cluster: i16, firstLeafFace: u16, leafFaceCount: u16)

  /** An entry of the leaf-face lump: the index of a face. */
  datatype LeafFace = LeafFace(face: u16)

  /** A model: a contiguous range of the face array. */
  datatype Model = Model(firstFace: nat, faceCount: nat)

  /** A texture info: the index of its texture data. */
  datatype TextureInfo = TextureInfo(textureDataIndex: nat)

  /** Texture data: the index of its name in the texture string table. */
  datatype TextureData = TextureData(nameStringTableId: nat)

  /** Records the core stores without looking inside. */
  datatype Face = Face(raw: seq<byte>)
  datatype LeafBrush = LeafBrush(raw: seq<byte>)
  datatype Brush = Brush(raw: seq<byte>)
  datatype BrushSide = BrushSide(raw: seq<byte>)
  datatype Vertex = Vertex(raw: seq<byte>)
  datatype Edge = Edge(raw: seq<byte>)
  datatype SurfaceEdge = SurfaceEdge(raw: seq<byte>)
  datatype DisplacementInfo = DisplacementInfo(raw: seq<byte>)

  /**
   * The visibility lump: the cluster count, a potentially-visible-set and a
   * potentially-audible-set offset per cluster, and the run-length-encoded
   * bit vectors those offsets point into.
   */
  datatype VisData = VisData(clusterCount: u32, pvsOffsets: seq<u32>, pasOffsets: seq<u32>, data: seq<byte>)

  /** `VisData::default()`. */
  const EmptyVisData: VisData := VisData(0, [], [], [])
}
