/**
 * The BSP container (src/bspfile.rs): the `VBSP` header with format
 * version 0x14, a directory of 64 lump entries and a map revision, and the
 * bounds-checked, optionally compressed lump payloads it addresses.
 *
 * The directory is read as 64 entries of four little-endian `u32` fields
 * (offset, length, version, compression ident), followed by a `u32` map
 * revision; LZMA decompression is an opaque, failable function.
 */
module BspFile {
  import opened Wrappers
  import opened Bytes

  /** The lump slots of the directory (src/bspfile.rs:74-146). */
  datatype LumpType =
    | Entities
    | Planes
    | TextureData
    | Vertices
    | Visibility
    | Nodes
    | TextureInfo
    | Faces
    | Lighting
    | Occlusion
    | Leaves
    | FaceIds
    | Edges
    | SurfaceEdges
    | Models
    | WorldLights
    | LeafFaces
    | LeafBrushes
    | Brushes
    | BrushSides
    | Areas
    | AreaPortals
    | Unused0
    | Unused1
    | Unused2
    | Unused3
    | DisplacementInfo
    | OriginalFaces
    | PhysDisplacement
    | PhysCollide
    | VertNormals
    | VertNormalIndices
    | DisplacementLightMapAlphas
    | DisplacementVertices
    | DisplacementLightMapSamplePositions
    | GameLump
    | LeafWaterData
    | Primitives
    | PrimVertices
    | PrimIndices
    | PakFile
    | ClipPortalVertices
    | CubeMaps
    | TextureDataStringData
    | TextureDataStringTable
    | Overlays
    | LeafMinimumDistanceToWater
    | FaceMacroTextureInfo
    | DisplacementTris
    | PhysicsCollideSurface
    | WaterOverlays
    | LeafAmbientIndexHdr
    | LeafAmbientIndex
    | LightingHdr
    | WorldLightsHdr
    | LeafAmbientLightingHdr
    | LeafAmbientLighting
    | XZipPakFile
    | FacesHdr
    | MapFlags
    | OverlayFades
    | OverlaySystemLevels
    | PhysLevel
    | DisplacementMultiBlend
  {
    /** The variant's discriminant: its position in the declaration (`repr(C)`). */
    function Index(): (i: nat)
      ensures i < 64
    {
      match this
      case Entities => 0
      case Planes => 1
      case TextureData => 2
      case Vertices => 3
      case Visibility => 4
      case Nodes => 5
      case TextureInfo => 6
      case Faces => 7
      case Lighting => 8
      case Occlusion => 9
      case Leaves => 10
      case FaceIds => 11
      case Edges => 12
      case SurfaceEdges => 13
      case Models => 14
      case WorldLights => 15
      case LeafFaces => 16
      case LeafBrushes => 17
      case Brushes => 18
      case BrushSides => 19
      case Areas => 20
      case AreaPortals => 21
      case Unused0 => 22
      case Unused1 => 23
      case Unused2 => 24
      case Unused3 => 25
      case DisplacementInfo => 26
      case OriginalFaces => 27
      case PhysDisplacement => 28
      case PhysCollide => 29
      case VertNormals => 30
      case VertNormalIndices => 31
      case DisplacementLightMapAlphas => 32
      case DisplacementVertices => 33
      case DisplacementLightMapSamplePositions => 34
      case GameLump => 35
      case LeafWaterData => 36
      case Primitives => 37
      case PrimVertices => 38
      case PrimIndices => 39
      case PakFile => 40
      case ClipPortalVertices => 41
      case CubeMaps => 42
      case TextureDataStringData => 43
      case TextureDataStringTable => 44
      case Overlays => 45
      case LeafMinimumDistanceToWater => 46
      case FaceMacroTextureInfo => 47
      case DisplacementTris => 48
      case PhysicsCollideSurface => 49
      case WaterOverlays => 50
      case LeafAmbientIndexHdr => 51
      case LeafAmbientIndex => 52
      case LightingHdr => 53
      case WorldLightsHdr => 54
      case LeafAmbientLightingHdr => 55
      case LeafAmbientLighting => 56
      case XZipPakFile => 57
      case FacesHdr => 58
      case MapFlags => 59
      case OverlayFades => 60
      case OverlaySystemLevels => 61
      case PhysLevel => 62
      case DisplacementMultiBlend => 63
    }
  }

  /** The lump type with a given discriminant, if there is one. */
  function FromIndex(i: nat): Option<LumpType>
  {
    if i < 64 then Some(LumpTypeAt(i / 8, i % 8)) else None
  }

  /** The declaration order, eight variants to a row. */
  function LumpTypeAt(row: nat, col: nat): LumpType
    requires row < 8 && col < 8
  {
    match row
    case 0 =>
      match col {
        case 0 => Entities
        case 1 => Planes
        case 2 => TextureData
        case 3 => Vertices
        case 4 => Visibility
        case 5 => Nodes
        case 6 => TextureInfo
        case _ => Faces
      }
    case 1 =>
      match col {
        case 0 => Lighting
        case 1 => Occlusion
        case 2 => Leaves
        case 3 => FaceIds
        case 4 => Edges
        case 5 => SurfaceEdges
        case 6 => Models
        case _ => WorldLights
      }
    case 2 =>
      match col {
        case 0 => LeafFaces
        case 1 => LeafBrushes
        case 2 => Brushes
        case 3 => BrushSides
        case 4 => Areas
        case 5 => AreaPortals
        case 6 => Unused0
        case _ => Unused1
      }
    case 3 =>
      match col {
        case 0 => Unused2
        case 1 => Unused3
        case 2 => DisplacementInfo
        case 3 => OriginalFaces
        case 4 => PhysDisplacement
        case 5 => PhysCollide
        case 6 => VertNormals
        case _ => VertNormalIndices
      }
    case 4 =>
      match col {
        case 0 => DisplacementLightMapAlphas
        case 1 => DisplacementVertices
        case 2 => DisplacementLightMapSamplePositions
        case 3 => GameLump
        case 4 => LeafWaterData
        case 5 => Primitives
        case 6 => PrimVertices
        case _ => PrimIndices
      }
    case 5 =>
      match col {
        case 0 => PakFile
        case 1 => ClipPortalVertices
        case 2 => CubeMaps
        case 3 => TextureDataStringData
        case 4 => TextureDataStringTable
        case 5 => Overlays
        case 6 => LeafMinimumDistanceToWater
        case _ => FaceMacroTextureInfo
      }
    case 6 =>
      match col {
        case 0 => DisplacementTris
        case 1 => PhysicsCollideSurface
        case 2 => WaterOverlays
        case 3 => LeafAmbientIndexHdr
        case 4 => LeafAmbientIndex
        case 5 => LightingHdr
        case 6 => WorldLightsHdr
        case _ => LeafAmbientLightingHdr
      }
    case _ =>
      match col {
        case 0 => LeafAmbientLighting
        case 1 => XZipPakFile
        case 2 => FacesHdr
        case 3 => MapFlags
        case 4 => OverlayFades
        case 5 => OverlaySystemLevels
        case 6 => PhysLevel
        case _ => DisplacementMultiBlend
      }
  }

  /** Every variant's discriminant leads back to it. */
  lemma LumpTypeIndexRoundTrip(t: LumpType)
    ensures FromIndex(t.Index()) == Some(t)
  {
    LumpTypeIndexRoundTripLow(t);
    LumpTypeIndexRoundTripHigh(t);
  }

  // The round trip is checked in two halves, to keep each proof small.
  lemma LumpTypeIndexRoundTripLow(t: LumpType)
    ensures t.Index() < 32 ==> FromIndex(t.Index()) == Some(t)
  {
    match t
    case Entities =>
    case Planes =>
    case TextureData =>
    case Vertices =>
    case Visibility =>
    case Nodes =>
    case TextureInfo =>
    case Faces =>
    case Lighting =>
    case Occlusion =>
    case Leaves =>
    case FaceIds =>
    case Edges =>
    case SurfaceEdges =>
    case Models =>
    case WorldLights =>
    case LeafFaces =>
    case LeafBrushes =>
    case Brushes =>
    case BrushSides =>
    case Areas =>
    case AreaPortals =>
    case Unused0 =>
    case Unused1 =>
    case Unused2 =>
    case Unused3 =>
    case DisplacementInfo =>
    case OriginalFaces =>
    case PhysDisplacement =>
    case PhysCollide =>
    case VertNormals =>
    case VertNormalIndices =>
    case DisplacementLightMapAlphas =>
    case DisplacementVertices =>
    case DisplacementLightMapSamplePositions =>
    case GameLump =>
    case LeafWaterData =>
    case Primitives =>
    case PrimVertices =>
    case PrimIndices =>
    case PakFile =>
    case ClipPortalVertices =>
    case CubeMaps =>
    case TextureDataStringData =>
    case TextureDataStringTable =>
    case Overlays =>
    case LeafMinimumDistanceToWater =>
    case FaceMacroTextureInfo =>
    case DisplacementTris =>
    case PhysicsCollideSurface =>
    case WaterOverlays =>
    case LeafAmbientIndexHdr =>
    case LeafAmbientIndex =>
    case LightingHdr =>
    case WorldLightsHdr =>
    case LeafAmbientLightingHdr =>
    case LeafAmbientLighting =>
    case XZipPakFile =>
    case FacesHdr =>
    case MapFlags =>
    case OverlayFades =>
    case OverlaySystemLevels =>
    case PhysLevel =>
    case DisplacementMultiBlend =>
  }

  lemma LumpTypeIndexRoundTripHigh(t: LumpType)
    ensures t.Index() >= 32 ==> FromIndex(t.Index()) == Some(t)
  {
    match t
    case Entities =>
    case Planes =>
    case TextureData =>
    case Vertices =>
    case Visibility =>
    case Nodes =>
    case TextureInfo =>
    case Faces =>
    case Lighting =>
    case Occlusion =>
    case Leaves =>
    case FaceIds =>
    case Edges =>
    case SurfaceEdges =>
    case Models =>
    case WorldLights =>
    case LeafFaces =>
    case LeafBrushes =>
    case Brushes =>
    case BrushSides =>
    case Areas =>
    case AreaPortals =>
    case Unused0 =>
    case Unused1 =>
    case Unused2 =>
    case Unused3 =>
    case DisplacementInfo =>
    case OriginalFaces =>
    case PhysDisplacement =>
    case PhysCollide =>
    case VertNormals =>
    case VertNormalIndices =>
    case DisplacementLightMapAlphas =>
    case DisplacementVertices =>
    case DisplacementLightMapSamplePositions =>
    case GameLump =>
    case LeafWaterData =>
    case Primitives =>
    case PrimVertices =>
    case PrimIndices =>
    case PakFile =>
    case ClipPortalVertices =>
    case CubeMaps =>
    case TextureDataStringData =>
    case TextureDataStringTable =>
    case Overlays =>
    case LeafMinimumDistanceToWater =>
    case FaceMacroTextureInfo =>
    case DisplacementTris =>
    case PhysicsCollideSurface =>
    case WaterOverlays =>
    case LeafAmbientIndexHdr =>
    case LeafAmbientIndex =>
    case LightingHdr =>
    case WorldLightsHdr =>
    case LeafAmbientLightingHdr =>
    case LeafAmbientLighting =>
    case XZipPakFile =>
    case FacesHdr =>
    case MapFlags =>
    case OverlayFades =>
    case OverlaySystemLevels =>
    case PhysLevel =>
    case DisplacementMultiBlend =>
  }

  /** The discriminants are exactly 0..63, and each names the variant that has it. */
  lemma LumpTypeIndexRange(i: nat)
    ensures FromIndex(i).Some? <==> i < 64
    ensures FromIndex(i).Some? ==> FromIndex(i).value.Index() == i
  {
    if i < 8 {
      LumpTypeIndexBlock0(i);
    } else if i < 16 {
      LumpTypeIndexBlock8(i);
    } else if i < 24 {
      LumpTypeIndexBlock16(i);
    } else if i < 32 {
      LumpTypeIndexBlock24(i);
    } else if i < 40 {
      LumpTypeIndexBlock32(i);
    } else if i < 48 {
      LumpTypeIndexBlock40(i);
    } else if i < 52 {
      LumpTypeIndexBlock48(i);
    } else if i < 56 {
      LumpTypeIndexBlock52(i);
    } else if i < 60 {
      LumpTypeIndexBlock56(i);
    } else if i < 64 {
      LumpTypeIndexBlock60(i);
    }
  }

  // The discriminants are checked a few at a time, to keep each proof small.
  lemma LumpTypeIndexBlock0(i: nat)
    requires 0 <= i < 8
    ensures FromIndex(i).Some? && FromIndex(i).value.Index() == i
  {
    match i
    case 0 =>
    case 1 =>
    case 2 =>
    case 3 =>
    case 4 =>
    case 5 =>
    case 6 =>
    case _ =>
  }

  lemma LumpTypeIndexBlock8(i: nat)
    requires 8 <= i < 16
    ensures FromIndex(i).Some? && FromIndex(i).value.Index() == i
  {
    match i
    case 8 =>
    case 9 =>
    case 10 =>
    case 11 =>
    case 12 =>
    case 13 =>
    case 14 =>
    case _ =>
  }

  lemma LumpTypeIndexBlock16(i: nat)
    requires 16 <= i < 24
    ensures FromIndex(i).Some? && FromIndex(i).value.Index() == i
  {
    match i
    case 16 =>
    case 17 =>
    case 18 =>
    case 19 =>
    case 20 =>
    case 21 =>
    case 22 =>
    case _ =>
  }

  lemma LumpTypeIndexBlock24(i: nat)
    requires 24 <= i < 32
    ensures FromIndex(i).Some? && FromIndex(i).value.Index() == i
  {
    match i
    case 24 =>
    case 25 =>
    case 26 =>
    case 27 =>
    case 28 =>
    case 29 =>
    case 30 =>
    case _ =>
  }

  lemma LumpTypeIndexBlock32(i: nat)
    requires 32 <= i < 40
    ensures FromIndex(i).Some? && FromIndex(i).value.Index() == i
  {
    match i
    case 32 =>
    case 33 =>
    case 34 =>
    case 35 =>
    case 36 =>
    case 37 =>
    case 38 =>
    case _ =>
  }

  lemma LumpTypeIndexBlock40(i: nat)
    requires 40 <= i < 48
    ensures FromIndex(i).Some? && FromIndex(i).value.Index() == i
  {
    match i
    case 40 =>
    case 41 =>
    case 42 =>
    case 43 =>
    case 44 =>
    case 45 =>
    case 46 =>
    case _ =>
  }

  lemma LumpTypeIndexBlock48(i: nat)
    requires 48 <= i < 52
    ensures FromIndex(i).Some? && FromIndex(i).value.Index() == i
  {
    match i
    case 48 =>
    case 49 =>
    case 50 =>
    case _ =>
  }

  lemma LumpTypeIndexBlock52(i: nat)
    requires 52 <= i < 56
    ensures FromIndex(i).Some? && FromIndex(i).value.Index() == i
  {
    match i
    case 52 =>
    case 53 =>
    case 54 =>
    case _ =>
  }

  lemma LumpTypeIndexBlock56(i: nat)
    requires 56 <= i < 60
    ensures FromIndex(i).Some? && FromIndex(i).value.Index() == i
  {
    match i
    case 56 =>
    case 57 =>
    case 58 =>
    case _ =>
  }

  lemma LumpTypeIndexBlock60(i: nat)
    requires 60 <= i < 64
    ensures FromIndex(i).Some? && FromIndex(i).value.Index() == i
  {
    match i
    case 60 =>
    case 61 =>
    case 62 =>
    case _ =>
  }

  /**
   * `LumpType` has exactly 64 variants: `Index` is a bijection onto 0..63,
   * and `DisplacementMultiBlend` is number 63.
   */
  lemma LumpTypeIndexBijection()
    ensures forall s: LumpType, t: LumpType :: s.Index() == t.Index() ==> s == t
    ensures forall i: nat :: i < 64 ==> FromIndex(i).Some? && FromIndex(i).value.Index() == i
    ensures DisplacementMultiBlend.Index() == 63
  {
    forall s: LumpType, t: LumpType | s.Index() == t.Index() ensures s == t {
      LumpTypeIndexRoundTrip(s);
      LumpTypeIndexRoundTrip(t);
    }
    forall i: nat | i < 64 ensures FromIndex(i).Some? && FromIndex(i).value.Index() == i {
      LumpTypeIndexRange(i);
    }
  }

  /** The four magic bytes at the start of the file. */
  datatype Header = Header(v: u8, b: u8, s: u8, p: u8)

  /** `VBSP`. */
  const ExpectedHeader: Header := Header(0x56, 0x42, 0x53, 0x50)
  const ExpectedVersion: u32 := 0x14

  /** A directory entry: where a lump lies, its version and its compression ident. */
  datatype LumpEntry = LumpEntry(offset: u32, length: u32, version: u32, ident: u32)

  type Directories = s: seq<LumpEntry> | |s| == 64 witness seq(64, _ => LumpEntry(0, 0, 0, 0))

  datatype DecompressError = DecompressError(detail: string)

  /** `lzma_decompress_with_header`: the lump's bytes and its ident in, a new buffer or an error out. */
  type Decompressor = (seq<byte>, u32) -> Result<seq<byte>, DecompressError>

  datatype BspError =
    | UnexpectedHeader(header: Header)
    | LumpOutOfBounds(entry: LumpEntry)
    | InvalidLumpSize(lump: LumpType, elementSize: nat, lumpSize: nat)
    | LumpDecompress(decompressError: DecompressError)
    | BinRead(readError: ReadError)
    | InvalidText

  /** An opened container: the whole file and its decoded directory. */
  datatype BspFile = BspFile(data: seq<byte>, directories: Directories, header: Header, mapRevision: u32)

  function DecodeHeader(b: seq<byte>): (r: Result<Header, ReadError>)
  {
    if |b| == 4 then Ok(Header(b[0], b[1], b[2], b[3])) else Err(UnexpectedEof)
  }

  /** Byte width of one directory entry. */
  const EntrySize: nat := 16

  function DecodeLumpEntry(b: seq<byte>): (r: Result<LumpEntry, ReadError>)
  {
    if |b| == EntrySize then Ok(LumpEntry(LeU32(b[0..4]), LeU32(b[4..8]), LeU32(b[8..12]), LeU32(b[12..16])))
    else Err(UnexpectedEof)
  }

  /** The header as the first four bytes give it. */
  function HeaderOf(data: seq<byte>): Header
    requires |data| >= 4
  {
    Header(data[0], data[1], data[2], data[3])
  }

  /** Whether the first eight bytes are the magic `VBSP` and version 0x14. */
  predicate HeaderMatches(data: seq<byte>)
    requires |data| >= 8
  {
    HeaderOf(data) == ExpectedHeader && LeU32(data[4..8]) == ExpectedVersion
  }

  /**
   * `BspFile::new` as a function of the file: header, version, the check,
   * then the directory and the map revision, each read by the cursor in turn.
   */
  function ParseBspFile(data: seq<byte>): Result<BspFile, BspError>
  {
    var (h, p1) := RecordAt(data, 0, 4, DecodeHeader);
    if h.Err? then Err(BinRead(h.error))
    else
      var (v, p2) := U32At(data, p1);
      if v.Err? then Err(BinRead(v.error))
      else if h.value != ExpectedHeader || v.value != ExpectedVersion then Err(UnexpectedHeader(h.value))
      else
        var (d, p3) := ReadRecords(data, p2, 64, EntrySize, DecodeLumpEntry, []);
        if d.Err? then Err(BinRead(d.error))
        else
          ReadRecordsOk(data, p2, 64, EntrySize, DecodeLumpEntry, []);
          var (m, _) := U32At(data, p3);
          if m.Err? then Err(BinRead(m.error))
          else Ok(BspFile(data, d.value, h.value, m.value))
  }

  /** `BspFile::new`: the header and version checks come before any other read. */
  method Open(data: seq<byte>) returns (r: Result<BspFile, BspError>)
    ensures r == ParseBspFile(data)
  {
    var cursor := new Cursor(data);
    var header := cursor.ReadRecord(4, DecodeHeader);
    if header.Err? {
      return Err(BinRead(header.error));
    }
    var version := cursor.ReadU32();
    if version.Err? {
      return Err(BinRead(version.error));
    }
    if header.value != ExpectedHeader || version.value != ExpectedVersion {
      return Err(UnexpectedHeader(header.value));
    }
    var entries: seq<LumpEntry> := [];
    var i := 0;
    while i < 64
      invariant cursor.Valid() && cursor.data == data && i <= 64 && |entries| == i
      invariant ReadRecords(data, 8, 64, EntrySize, DecodeLumpEntry, [])
             == ReadRecords(data, cursor.pos, 64 - i, EntrySize, DecodeLumpEntry, entries)
    {
      var e := cursor.ReadRecord(EntrySize, DecodeLumpEntry);
      if e.Err? {
        return Err(BinRead(e.error));
      }
      entries := entries + [e.value];
      i := i + 1;
    }
    var revision := cursor.ReadU32();
    if revision.Err? {
      return Err(BinRead(revision.error));
    }
    return Ok(BspFile(data, entries, header.value, revision.value));
  }

  /** Fewer than eight bytes: the header or the version read runs out of input. */
  lemma OpenShortInput(data: seq<byte>)
    requires |data| < 8
    ensures ParseBspFile(data) == Err(BinRead(UnexpectedEof))
  {
  }

  /**
   * With eight bytes present, opening fails with `UnexpectedHeader` carrying
   * the four magic bytes exactly when the magic is not `VBSP` or the
   * version is not 0x14.
   */
  lemma OpenRejectsHeader(data: seq<byte>)
    requires |data| >= 8
    ensures ParseBspFile(data) == Err(UnexpectedHeader(HeaderOf(data))) <==> !HeaderMatches(data)
  {
    assert data[0..4] == data[..4];
    if HeaderMatches(data) {
      var (d, p3) := ReadRecords(data, 8, 64, EntrySize, DecodeLumpEntry, []);
      if d.Err? {
        ReadRecordsFirstError(data, 8, 64, EntrySize, DecodeLumpEntry, []);
      }
    }
  }

  /** A rejected header is decided by the first eight bytes alone. */
  lemma OpenHeaderReadsNothingMore(data: seq<byte>, other: seq<byte>)
    requires |data| >= 8 && |other| >= 8 && data[..8] == other[..8]
    requires !HeaderMatches(data)
    ensures ParseBspFile(data) == ParseBspFile(other) == Err(UnexpectedHeader(HeaderOf(data)))
  {
    assert data[0..4] == data[..8][0..4] && other[0..4] == other[..8][0..4];
    assert data[4..8] == data[..8][4..8] && other[4..8] == other[..8][4..8];
    OpenRejectsHeader(data);
    OpenRejectsHeader(other);
  }

  /** Byte offset of entry `i` of the directory. */
  function EntryOffset(i: nat): nat
  {
    8 + i * EntrySize
  }

  /** The directory read: 64 entries of 16 bytes from offset 8, each decoded from its own bytes. */
  lemma DirectoryRead(data: seq<byte>)
    requires |data| >= 8
    ensures var (d, p) := ReadRecords(data, 8, 64, EntrySize, DecodeLumpEntry, []);
      && (d.Ok? <==> |data| >= EntryOffset(64))
      && (d.Ok? ==>
            && |d.value| == 64 && p == EntryOffset(64)
            && forall i :: 0 <= i < 64 ==>
                 d.value[i] == DecodeLumpEntry(data[EntryOffset(i)..EntryOffset(i + 1)]).value)
  {
    ReadRecordsOk(data, 8, 64, EntrySize, DecodeLumpEntry, []);
    if |data| >= EntryOffset(64) {
      forall i | 0 <= i < 64
        ensures RecordResult(data, 8, EntrySize, DecodeLumpEntry, i)
             == DecodeLumpEntry(data[EntryOffset(i)..EntryOffset(i + 1)])
        ensures RecordResult(data, 8, EntrySize, DecodeLumpEntry, i).Ok?
      {
        assert EntryOffset(i + 1) == EntryOffset(i) + EntrySize <= EntryOffset(64);
      }
    } else {
      var k := (|data| - 8) / EntrySize;
      assert EntryOffset(k + 1) > |data|;
      assert !RecordResult(data, 8, EntrySize, DecodeLumpEntry, k).Ok?;
    }
  }

  /** With a valid header, a file too short for the directory and revision fails with a read error. */
  lemma OpenTruncated(data: seq<byte>)
    requires |data| >= 8 && HeaderMatches(data) && |data| < EntryOffset(64) + 4
    ensures ParseBspFile(data) == Err(BinRead(UnexpectedEof))
  {
    assert data[0..4] == data[..4];
    DirectoryRead(data);
    var (d, p3) := ReadRecords(data, 8, 64, EntrySize, DecodeLumpEntry, []);
    if d.Err? {
      ReadRecordsFirstError(data, 8, 64, EntrySize, DecodeLumpEntry, []);
      var k :| 0 <= k < 64 && RecordResult(data, 8, EntrySize, DecodeLumpEntry, k) == Err(d.error);
      assert d.error == UnexpectedEof;
    }
  }

  /** With a valid header and the whole 1036-byte prefix, opening succeeds with the encoded entries and revision. */
  lemma OpenComplete(data: seq<byte>)
    requires |data| >= EntryOffset(64) + 4 && HeaderMatches(data)
    ensures ParseBspFile(data).Ok?
    ensures var f := ParseBspFile(data).value;
      && f.data == data && f.header == ExpectedHeader
      && f.mapRevision == LeU32(data[EntryOffset(64)..EntryOffset(64) + 4])
      && forall i :: 0 <= i < 64 ==>
           f.directories[i] == DecodeLumpEntry(data[EntryOffset(i)..EntryOffset(i + 1)]).value
  {
    assert data[0..4] == data[..4];
    DirectoryRead(data);
  }

  /**
   * A valid header and the whole fixed-size prefix (header, 64 entries and
   * the revision: 1036 bytes) are exactly what opening needs; the result
   * holds the entries and revision as those bytes encode them.
   */
  lemma OpenSucceeds(data: seq<byte>)
    ensures ParseBspFile(data).Ok? <==> |data| >= EntryOffset(64) + 4 && HeaderMatches(data)
    ensures ParseBspFile(data).Ok? ==>
      var f := ParseBspFile(data).value;
      && f.data == data && f.header == ExpectedHeader
      && f.mapRevision == LeU32(data[EntryOffset(64)..EntryOffset(64) + 4])
      && forall i :: 0 <= i < 64 ==>
           f.directories[i] == DecodeLumpEntry(data[EntryOffset(i)..EntryOffset(i + 1)]).value
  {
    if |data| < 8 {
      OpenShortInput(data);
    } else if !HeaderMatches(data) {
      OpenRejectsHeader(data);
    } else if |data| < EntryOffset(64) + 4 {
      OpenTruncated(data);
    } else {
      OpenComplete(data);
    }
  }

  /**
   * `get_lump`: the entry's byte range, rejected when it runs past the end of
   * the file; stored lumps (ident 0) come back as they are, compressed ones
   * go through the decompressor, whose error is passed on.
   */
  function GetLump(file: BspFile, lump: LumpType, decompress: Decompressor): Result<(u32, seq<byte>), BspError>
  {
    var entry := file.directories[lump.Index()];
    if entry.offset + entry.length > |file.data| then Err(LumpOutOfBounds(entry))
    else
      var raw := file.data[entry.offset..entry.offset + entry.length];
      if entry.ident == 0 then Ok((entry.version, raw))
      else match decompress(raw, entry.ident)
        case Err(e) => Err(LumpDecompress(e))
        case Ok(bytes) => Ok((entry.version, bytes))
  }

  /** The directory entry of a lump type. */
  function Entry(file: BspFile, lump: LumpType): LumpEntry
  {
    file.directories[lump.Index()]
  }

  /** `get_lump` fails with `LumpOutOfBounds(entry)` exactly when the range passes the end of the file. */
  lemma GetLumpBounds(file: BspFile, lump: LumpType, decompress: Decompressor)
    ensures var e := Entry(file, lump);
      GetLump(file, lump, decompress) == Err(LumpOutOfBounds(e)) <==> e.offset + e.length > |file.data|
  {
  }

  /** A stored lump is the entry's byte range, unchanged, with the entry's version. */
  lemma GetLumpStored(file: BspFile, lump: LumpType, decompress: Decompressor)
    requires var e := Entry(file, lump); e.ident == 0 && e.offset + e.length <= |file.data|
    ensures var e := Entry(file, lump);
      GetLump(file, lump, decompress) == Ok((e.version, file.data[e.offset..e.offset + e.length]))
  {
  }

  /** A compressed lump is the decompressor's output with the entry's version, or its error. */
  lemma GetLumpCompressed(file: BspFile, lump: LumpType, decompress: Decompressor)
    requires var e := Entry(file, lump); e.ident != 0 && e.offset + e.length <= |file.data|
    ensures var e := Entry(file, lump);
      var out := decompress(file.data[e.offset..e.offset + e.length], e.ident);
      GetLump(file, lump, decompress)
        == (if out.Ok? then Ok((e.version, out.value)) else Err(LumpDecompress(out.error)))
  {
  }
}
