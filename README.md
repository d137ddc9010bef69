# vbsp in Dafny

A model of the core of `vbsp`, a reader for Valve's BSP map format as used by the Source engine games.

The model covers:

- Opening a map file:
  - checking the `VBSP` magic and version `0x14`;
  - reading the 64-entry lump directory and the map revision;
  - slicing lumps out of the file with a bounds check, then handing compressed lumps to a decompressor.
- The lump reader:
  - fixed-size record vectors, checked for a length the record size divides;
  - the visibility lump header: a cluster count, interleaved PVS/PAS offsets, then the remaining bytes;
  - the entity text.
- The entity text scanners:
  - brace blocks;
  - quoted key/value pairs, with first-match property lookup;
  - property conversions for arrays, `bool`, `&str`, `Option`, `u8`, `RenderMode` and `LightSpotStyle`;
  - the classname table of `Entity`.
- The map:
  - the fixed lump order of `Bsp::read`, which stops at the first error;
  - the leaf array sorted by cluster, and its grouping into clusters;
  - the index accessors;
  - the tree descent of `leaf_at`.
- Handles: node children, model and leaf faces, the visible set of a leaf, texture data and texture names.

Modules, one per file:

| module | file | models |
|---|---|---|
| `Wrappers` | wrappers.dfy | `Option` and `Result` |
| `Bytes` | bytes.dfy | byte and integer widths, little-endian `u32`, `find`, a byte cursor |
| `Records` | records.dfy | the records the core reads |
| `BspFile` | bspfile.dfy | `src/bspfile.rs` |
| `Reader` | reader.dfy | `src/reader.rs` and `BspFile::lump_reader` |
| `Entity` | entity.dfy | the scanners and conversions of `src/data/entity.rs` |
| `EntityClass` | entity_class.dfy | the classname table of `Entity` in `src/data/entity.rs` |
| `Vbsp` | bsp.dfy | `src/lib.rs` |
| `Handle` | handle.dfy | `src/handle/mod.rs` |

Imperative parts of the source are imperative here. Each such method is tied to a function that specifies it. The properties are proved about that function:

- `Cursor`, `LumpReader`, `BlockIter`, `PropertyIter` and `LeafClusters` are classes.
- The reads are methods with loops.
- `Leaves::new` sorts an array in place.
- `leaf_at` is a loop.

Four things are parameters of the operations rather than parts of the model:

- record decoders;
- the decompressor;
- the text decoding of the entity lump;
- the visibility bit-vector decoding (`VisData::visible_clusters`), which `Handle.VisibleSet` takes as `visibleClusters`.

Three behaviours of the code that a reader may not expect, which the model keeps:

- `Leaves::new` uses an unstable sort. The model promises only a permutation sorted by cluster, not the order of leaves within a cluster.
- `visible_set` admits another cluster only when it is `> 0` (`src/handle/mod.rs:117`). Cluster 0 is therefore never visible from another cluster.
- `leaf_at` indexes the sorted leaf array with the leaf index found in the tree (`src/lib.rs:307`). The model does the same. It does not claim that the leaf found is the one the file numbered that way.

## Model

| member | source | states |
|---|---|---|
| Bytes.LeU32OfEncode | src/bspfile.rs:27 | decoding the four little-endian bytes of a `u32` gives the value back |
| Bytes.EncodeOfLeU32 | src/bspfile.rs:27 | encoding a decoded four-byte group gives the bytes back, so the `u32` read is a bijection |
| Bytes.Find | src/data/entity.rs:39 | `find` is absent exactly when the character does not occur; otherwise it is the first index holding it |
| Bytes.ReadRecordsOk | src/reader.rs:56-58 | a run of `n` record reads succeeds exactly when each record decodes; it yields their values in read order and moves the cursor `n * size` bytes |
| Bytes.ReadRecordsFirstError | src/reader.rs:56-58 | a failed run fails with the error of its first failing record, all records before it having decoded |
| Bytes.Cursor.ReadRecord | src/reader.rs:90 | one record read from the cursor: the record's outcome and the cursor after it |
| Bytes.Cursor.ReadU32 | src/reader.rs:114 | one little-endian `u32` read from the cursor; at the end of input it fails with an end-of-input error |
| Bytes.Cursor.ReadToEnd | src/reader.rs:123-124 | `read_to_end` yields every remaining byte and leaves the cursor at the end |
| BspFile.LumpType.Index | src/bspfile.rs:74-146 | every lump type has an index below 64 |
| BspFile.LumpTypeIndexRoundTrip | src/bspfile.rs:74-146 | the lump type at a lump type's index is that lump type |
| BspFile.LumpTypeIndexRange | src/bspfile.rs:74-146 | exactly the indices below 64 name a lump type, each the one with that index |
| BspFile.LumpTypeIndexBijection | src/bspfile.rs:148 | distinct lump types have distinct indices, all 64 indices are used, and `DisplacementMultiBlend` is 63 |
| BspFile.Open | src/bspfile.rs:15-43 | `BspFile::new`, a cursor walk over header, version, directory and revision, gives exactly `ParseBspFile` |
| BspFile.OpenShortInput | src/bspfile.rs:26-27 | fewer than eight bytes fail with an end-of-input error before any check |
| BspFile.OpenRejectsHeader | src/bspfile.rs:16-31 | with eight bytes present, the result is `UnexpectedHeader(header)` exactly when the magic is not `VBSP` or the version is not `0x14` |
| BspFile.OpenHeaderReadsNothingMore | src/bspfile.rs:26-35 | a rejected header gives the same error whatever follows the first eight bytes |
| BspFile.DirectoryRead | src/bspfile.rs:33 | the directory read succeeds exactly when all 64 entries are present, and then holds the entries at their offsets |
| BspFile.OpenTruncated | src/bspfile.rs:33-35 | a good header followed by a cut-off directory or revision fails with an end-of-input error |
| BspFile.OpenComplete | src/bspfile.rs:33-42 | a good header with a whole directory and revision opens, keeping the data, the header, the revision and each directory entry |
| BspFile.OpenSucceeds | src/bspfile.rs:15-43 | opening succeeds exactly when the header is good and the directory and revision are present, with the contents above |
| BspFile.GetLumpBounds | src/bspfile.rs:56-59 | `get_lump` fails with `LumpOutOfBounds(entry)` exactly when `offset + length` passes the end of the file |
| BspFile.GetLumpStored | src/bspfile.rs:61-62 | an in-bounds lump with ident 0 is the entry's version and the bytes `data[offset..offset + length]`, unchanged |
| BspFile.GetLumpCompressed | src/bspfile.rs:63-66 | an in-bounds lump with a nonzero ident is the entry's version and the decompressor's output; a decompressor error becomes `LumpDecompress` |
| Reader.LumpReader.constructor | src/reader.rs:18-27 | a new reader is at position 0 of its bytes, with `length` their count and the given version and lump |
| Reader.OpenLumpReader | src/bspfile.rs:49-52 | `lump_reader` passes on `get_lump`'s error, or builds a reader over the lump's bytes with the entry's version and the byte count as length |
| Reader.LumpReader.ReadVec | src/reader.rs:42-61 | the record loop of `read_vec` gives exactly `ReadVecSpec`'s result and cursor position |
| Reader.LumpReader.ReadVecVer | src/reader.rs:64-83 | `read_vec_ver` is `read_vec` with a decoder that receives the reader's stored version on every record |
| Reader.LumpReader.ReadVisData | src/reader.rs:109-132 | the count, the pair loop and `read_to_end` together give exactly `ReadVisDataSpec` |
| Reader.LumpReader.ReadEntities | src/reader.rs:35-39 | `read_entities` decodes every remaining byte of the lump as text, or fails with `InvalidText` |
| Reader.ReadVecSizeMismatch | src/reader.rs:46-52 | `read_vec` fails with `InvalidLumpSize(lump, size, length)` exactly when `size` does not divide `length`, and then reads nothing |
| Reader.ReadVecMismatchIgnoresDecoder | src/reader.rs:46-52 | with a length the size does not divide, the decoder is never consulted |
| Reader.ReadVecOk | src/reader.rs:53-60 | with a length the size divides, `read_vec` succeeds exactly when each of the `length / size` records decodes, yielding all of them in read order and moving `length` bytes |
| Reader.ReadVecFirstError | src/reader.rs:56-58 | a failing `read_vec` fails with the first failing record's error, every record before it having decoded |
| Reader.ReadVisDataShort | src/reader.rs:110-112 | a visibility lump under eight bytes is the default visibility data, read without moving the cursor |
| Reader.ReadVisDataOk | src/reader.rs:114-131 | from eight bytes on, `read_visdata` succeeds exactly when the count and all its offset pairs are present. It then has `cluster_count` PVS and PAS offsets, read interleaved as little-endian `u32`s, with every later byte as its data. A failure is an end-of-input error |
| Reader.VisDataPresent | src/reader.rs:114-131 | the success half of the statement above |
| Reader.VisDataTruncated | src/reader.rs:118-121 | a count or pair list running past the end fails with an end-of-input error |
| Reader.OffsetPairRead | src/reader.rs:119-120 | a PVS read followed by a PAS read is one eight-byte record read, failures included |
| Reader.OffsetPairsRead | src/reader.rs:118-121 | with all pairs present, the `i`-th pair is the two `u32`s at `4 + 8 * i` |
| Entity.ScanBlock | src/data/entity.rs:38-47 | if a block is found, the text before its `{` holds no `{`, the block holds no `}`, and the rest is shorter than the buffer |
| Entity.ScanBlockShape | src/data/entity.rs:39-44 | skipped text, `{`, block, `}` and rest make up the whole buffer |
| Entity.ScanBlockEnds | src/data/entity.rs:39-40 | the iterator ends exactly when no `{` has a `}` after it |
| Entity.Blocks | src/data/entity.rs:35-47 | no block yielded holds a `}` |
| Entity.BlocksPartitionText | src/data/entity.rs:38-46 | the blocks, braced and interleaved with the skipped text, give back the whole text in order without overlap; what is left holds no terminated block |
| Entity.UnterminatedBlockEnds | src/data/entity.rs:39-40 | a `{` with no `}` after it yields nothing |
| Entity.BlockIter.constructor | src/data/entity.rs:50-52 | `iter` starts at the beginning of the text |
| Entity.BlockIter.Next | src/data/entity.rs:38-47 | `next` yields the scanned block and moves past its `}`, or yields nothing and changes nothing |
| Entity.ScanProperty | src/data/entity.rs:78-94 | a pair is found exactly when four `"` remain; key and value hold no `"`, and the rest has four fewer |
| Entity.ScanPropertyShape | src/data/entity.rs:79-91 | the pieces of a pair step with their four `"` make up the whole buffer |
| Entity.ScanQuoted | src/data/entity.rs:79-80 | a quoted stretch is found exactly when two `"` remain, and it holds none |
| Entity.ScanQuotedShape | src/data/entity.rs:79-84 | the pieces of a quoted stretch with their two `"` make up the whole text |
| Entity.TakeQuoted | src/data/entity.rs:79-82 | the two `find` calls of half a pair step give exactly `ScanQuoted` |
| Entity.PropertiesQuoteFree | src/data/entity.rs:79-93 | no key or value yielded holds a `"` |
| Entity.PropertiesCount | src/data/entity.rs:79-93 | the number of pairs is the number of `"` divided by four, so an incomplete pair ends the sequence |
| Entity.PropertyIter.constructor | src/data/entity.rs:97 | `properties` starts at the beginning of the block |
| Entity.PropertyIter.Next | src/data/entity.rs:78-94 | `next` yields the scanned pair and moves past the value's closing `"`, or yields nothing and changes nothing |
| Entity.Lookup | src/data/entity.rs:101-102 | `find_map` on the key is absent exactly when no pair has the key, and otherwise is the value of the first pair that has it |
| Entity.Prop | src/data/entity.rs:100-104 | `prop(k)` is the value of the first pair with key `k`, or `NoSuchProperty(k)` exactly when no pair has that key |
| Entity.PropFirstWins | src/data/entity.rs:100-104 | the first pair with the key decides; later pairs with the same key are never seen |
| Entity.Split | src/data/entity.rs:142 | `split(' ')` yields at least one piece |
| Entity.SplitSpaceFree | src/data/entity.rs:142 | no piece holds a space |
| Entity.SplitJoin | src/data/entity.rs:142 | the pieces joined with single spaces give back the text |
| Entity.JoinSplit | src/data/entity.rs:142 | space-free pieces joined and split again give back the pieces |
| Entity.ParseArray | src/data/entity.rs:141-148 | the `[T; N]` conversion succeeds exactly when at least `N` pieces exist and the first `N` convert, yielding them in order and ignoring extra pieces. Otherwise it fails with `ElementCount` when the pieces run out first, or with the first failing conversion's error |
| Entity.ParseBool | src/data/entity.rs:157-161 | the `bool` conversion never fails and is false exactly for `0` |
| Entity.ParseStr | src/data/entity.rs:151-155 | the `&str` conversion never fails and is the text itself |
| Entity.ParseOptional | src/data/entity.rs:163-167 | the `Option<T>` conversion is `Some` of the inner conversion, and fails exactly when that does, with its error |
| Entity.ParseDigitsValue | src/data/entity.rs:131-133 | on digits only, the `u8` digit loop gives the decimal value, or `PosOverflow` past 255 |
| Entity.ParseDigitsRejects | src/data/entity.rs:131-133 | the digit loop fails on any input that is not all digits |
| Entity.ParseU8Accepts | src/data/entity.rs:121-133 | `u8` conversion accepts exactly an optional `+` then a non-empty digit run worth at most 255, and yields its value |
| Entity.ParseU8DecimalText | src/data/entity.rs:121-133 | every byte value's decimal text converts back to it |
| Entity.DecimalTextValue | src/data/entity.rs:131-133 | a number's decimal text reads back as the number |
| Entity.RenderModeTable | src/data/entity.rs:275-293 | the match accepts exactly 0..=10, each byte naming the mode with that discriminant, and every mode is reached |
| Entity.ParseRenderMode | src/data/entity.rs:275-293 | `RenderMode::parse` succeeds exactly on a `u8` text worth at most 10, giving the mode with that discriminant. A `u8` error passes through, and a larger byte is `InvalidEnumValue("RenderMode")` |
| Entity.LightSpotStyleTable | src/data/entity.rs:349-369 | the match accepts exactly 0..=12, each byte naming the style with that discriminant, and every style is reached |
| Entity.ParseLightSpotStyle | src/data/entity.rs:349-369 | `LightSpotStyle::parse` succeeds exactly on a `u8` text worth at most 12, giving its style. A `u8` error passes through, and a larger byte is `InvalidEnumValue("LightSpotStyle")` |
| EntityClass.Lookup | src/data/entity.rs:169-249 | a classname lookup that finds a kind found an entry of the table pairing that classname with it |
| EntityClass.DeclaredNamesDistinct | src/data/entity.rs:170-249 | the 38 classnames of the `Entity` table are pairwise distinct |
| EntityClass.CorrectedNamesDistinct | src/data/entity.rs:170-249 | the corrected table has the same classnames in the same places, still pairwise distinct |
| EntityClass.LookupFindsEntry | src/data/entity.rs:169-249 | a lookup yields the kind of the first entry with the classname |
| EntityClass.LookupUnlisted | src/data/entity.rs:247-248 | a classname in no entry falls through to `Unknown` |
| EntityClass.DeclaredSelects | src/data/entity.rs:170-249 | as written, each entry's classname selects that entry's variant |
| EntityClass.ClassifySelects | src/data/entity.rs:170-249 | in the corrected table, each entry's classname selects that entry's variant |
| EntityClass.ClassifyUnlisted | src/data/entity.rs:247-248 | a classname no entry names is `Unknown` |
| EntityClass.AmmoPackPayload | src/data/entity.rs:199-210 | exactly the three ammo-pack variants carry an `AmmoPack` |
| EntityClass.HealthPackPayload | src/data/entity.rs:199-210 | exactly the three health-pack variants carry a `HealthPack` |
| EntityClass.PickupClassnames | src/data/entity.rs:199-210 | corrected: each `item_ammopack_*` classname selects the ammo-pack variant of its size, and each `item_healthkit_*` the health-pack variant of its size |
| EntityClass.AsWrittenCrossesFullPickups | src/data/entity.rs:203-210 | as written, `item_ammopack_full` selects `HealthPackFull` and `item_healthkit_full` selects `AmmoPackFull` |
| EntityClass.AsWrittenAgreesElsewhere | src/data/entity.rs:170-249 | every other classname is classified the same by both tables |
| Vbsp.SortByCluster | src/lib.rs:27-31 | the in-place sort leaves the array non-decreasing by cluster and a permutation of what it was |
| Vbsp.InsertByCluster | src/lib.rs:28 | one insertion step extends the sorted prefix, keeps the multiset and leaves the rest of the array alone |
| Vbsp.NewLeaves | src/lib.rs:27-31 | `Leaves::new` returns a permutation of its input that is sorted by cluster |
| Vbsp.RunLength | src/lib.rs:64-67 | `take_while(..).count()` gives a run of leaves that all have the cluster, bounded by the input, and stopped by a different cluster or the end |
| Vbsp.LeafClusters.constructor | src/lib.rs:45-50 | `clusters` starts at index 0, with every group still to come |
| Vbsp.LeafClusters.Next | src/lib.rs:61-70 | `next` yields the first remaining group and drops it, or yields nothing at the end and stays there |
| Vbsp.ClustersUniform | src/lib.rs:61-70 | every group is non-empty and all its leaves share one cluster |
| Vbsp.ClustersConcat | src/lib.rs:61-70 | the groups concatenated give back the leaf array in order |
| Vbsp.ClustersMaximal | src/lib.rs:62-68 | neighbouring groups have different clusters, so groups are maximal runs |
| Vbsp.ExampleArrangement | src/lib.rs:75-102 | sorting the five example leaves (contents 0..4, clusters `[0,0,1,2,2]`) by cluster leaves them in file order up to the order inside each cluster |
| Vbsp.ClustersOfExampleOrder | src/lib.rs:104-108 | every such order groups into three runs holding the contents `{0,1}`, `{2}` and `{3,4}` |
| Vbsp.ClustersExample | src/lib.rs:73-109 | the test's leaves, in whatever cluster order `Leaves::new` sorts them, group into three clusters holding the contents `{0,1}`, `{2}` and `{3,4}` |
| Vbsp.LeafAt | src/lib.rs:258-260 | `leaf(n)` is absent exactly when `n` is at least the leaf count, and is leaf `n` otherwise |
| Vbsp.PlaneAt | src/lib.rs:262-264 | the same for `plane(n)` |
| Vbsp.FaceAt | src/lib.rs:266-268 | the same for `face(n)` |
| Vbsp.NodeAt | src/lib.rs:270-272 | the same for `node(n)` |
| Vbsp.DisplacementAt | src/lib.rs:274-278 | the same for `displacement(n)` |
| Vbsp.RootNode | src/lib.rs:281-283 | `root_node` is `node(0)`, absent exactly when there are no nodes |
| Vbsp.NodePlane | src/lib.rs:295 | the plane lookup of the descent finds a plane exactly when the `i32` index is in range |
| Vbsp.BitNot | src/lib.rs:307 | `!c` of an `i32` is non-negative exactly when `c` is negative |
| Vbsp.Descend | src/lib.rs:294-311 | a descent reaches no leaf, runs out of steps, or reaches a leaf of the map |
| Vbsp.LeafAtPoint | src/lib.rs:291-312 | the `leaf_at` loop gives exactly the descent from the root |
| Vbsp.ChildSides | src/lib.rs:304 | a point goes to the back child exactly when `dot < dist`; a point on the plane goes to the front |
| Vbsp.NoNodesNoLeaf | src/lib.rs:292 | a map without nodes has no leaf at any point |
| Vbsp.DescendStep | src/lib.rs:306-310 | a negative child `c` ends with leaf `-(c + 1)`, or nothing when that is out of range; a non-negative child out of range ends with nothing; one in range continues from that node |
| Vbsp.DescendMoreSteps | src/lib.rs:294-311 | a descent that ends within some number of steps ends the same way with more |
| Vbsp.DescendForwardEnds | src/lib.rs:294-311 | when every child node index exceeds its parent's, the descent from node `i` ends within `|nodes| - i` steps |
| Vbsp.LeafAtPointEnds | src/lib.rs:290-311 | on such a tree `leaf_at` ends within as many steps as there are nodes, and any larger budget gives the same answer |
| Vbsp.ReadLumpVec | src/lib.rs:182-184 | one `lump_reader(..)?.read_vec(..)?` stage gives exactly `LumpVec` |
| Vbsp.ReadLumpEntities | src/lib.rs:181 | the entity stage gives exactly `LumpEntities` |
| Vbsp.ReadLumpVisData | src/lib.rs:228 | the visibility stage gives exactly `LumpVisData` |
| Vbsp.Read | src/lib.rs:178-256 | `Bsp::read` fails with `ReadSpec`'s error. Otherwise it builds `ReadSpec`'s map, except that the leaves are a permutation of the file's leaves sorted by cluster |
| Vbsp.ErrorOf | src/lib.rs:178-231 | a stage's error is absent exactly when the stage succeeds |
| Vbsp.FirstErrorIsEarliest | src/lib.rs:178-231 | the first error is absent exactly when every stage succeeds, and is otherwise the error of the earliest failing stage |
| Vbsp.FirstErrorAppend | src/lib.rs:178-231 | the first error of two lists of stages in a row is the first of the first list, or else the first of the second |
| Vbsp.ReadFailsAtFirstError | src/lib.rs:178-255 | a file that does not open fails with that error. Otherwise `Bsp::read` succeeds exactly when no lump stage fails, in the fixed order entities, texture data, texture info, planes, nodes, leaves, leaf faces, leaf brushes, models, brushes, brush sides, vertices, edges, surface edges, faces, original faces, visibility, displacements. It fails with the first stage's error, and no partial map is built |
| Vbsp.EarlyChain | src/lib.rs:181-206 | the first nine stages' first error is the error of the first of them to fail |
| Vbsp.LateChain | src/lib.rs:207-231 | the same for the last nine stages |
| Handle.NodeLeaf | src/handle/mod.rs:90-99 | `node_leaf(idx)` is leaf `!idx` (`-(idx + 1)`) for negative `idx` and node `idx` otherwise, absent exactly when that index is out of range |
| Handle.ChildrenLeadDescent | src/handle/mod.rs:84-87 | the child `children` reports on the side the point falls leads where `leaf_at` goes: nowhere, to that leaf, or on from that node |
| Handle.PlaneOf | src/handle/mod.rs:80-82 | a node's plane, which must exist, is the one the descent looks up |
| Handle.ModelFaces | src/handle/mod.rs:55-63 | a model's faces are exactly `faces[first_face .. first_face + face_count]` in order |
| Handle.EntryFaces | src/handle/mod.rs:135 | one leaf-face entry gives its face, or nothing exactly when the face index is out of range |
| Handle.FilterFaces | src/handle/mod.rs:133-135 | the `filter_map` yields at most one face per entry, all faces of the map, and one for every entry exactly when every index is in range |
| Handle.FilterFacesAppend | src/handle/mod.rs:133-135 | the `filter_map` of a concatenation is the concatenation of the two results, so the order is kept |
| Handle.FilterFacesInRange | src/handle/mod.rs:133-135 | with every index in range, the `i`-th face is the face the `i`-th entry names |
| Handle.LeafFaces | src/handle/mod.rs:129-136 | a leaf's faces are at most `leaf_face_count`, all faces of the map, and exactly that many when every entry's face index is in range |
| Handle.FilterVisible | src/handle/mod.rs:112-122 | the filter keeps exactly the leaves that share the cluster or have a positive cluster whose bit is set, as a subsequence of the leaves |
| Handle.FilterVisibleAppend | src/handle/mod.rs:112-122 | filtering two runs of leaves in a row is filtering each and joining the results, so the filter keeps the map's order |
| Handle.FilterVisibleOne | src/handle/mod.rs:112-122 | a single leaf is kept exactly when the query leaf sees it |
| Handle.FilterVisibleCount | src/handle/mod.rs:112-122 | a seen leaf is kept as many times as it occurs, an unseen one not at all |
| Handle.VisibleSet | src/handle/mod.rs:103-126 | `visible_set` is absent exactly when the cluster is negative. Otherwise it holds every leaf of the same cluster and no other leaf of cluster at most 0. It holds another leaf of positive cluster exactly when that cluster's bit is set, each kept leaf as often as it occurs in the map, and it is an in-order subsequence of the map's leaves |
| Handle.TextureDataOf | src/handle/mod.rs:139-145 | `texture_data` (and `texture`) is `textures_data[texture_data_index]`, which must exist |
| Handle.UpToNul | src/handle/mod.rs:155-159 | `split_once('\0')` keeps a prefix of the text with no NUL, stopping at the first NUL or at the end |
| Handle.UpToNulTerminated | src/handle/mod.rs:155-159 | a NUL-free name followed by a NUL reads back as the name, whatever follows |
| Handle.UpToNulUnterminated | src/handle/mod.rs:155-159 | NUL-free text reads back whole |
| Handle.TextureName | src/handle/mod.rs:152-160 | the name is the string data from the table offset up to, not including, the first NUL, or to the end when there is none |
| Handle.TextureInfoName | src/handle/mod.rs:146-148 | a texture info's name is the name of its texture data, and holds no NUL |

## Left out

- LZMA decompression (`lzma_decompress_with_header`): a parameter `decompress` that may fail; its algorithm is out of scope.
- Reader.LumpReader.ReadVec, Bytes.RecordAt: the model takes the bytes one record read consumes to be exactly the element size the lump length is divided by. The source divides by `size_of::<T>()` (`src/reader.rs:45`, `52`), while the binrw read consumes its own layout's width (`src/reader.rs:89`); the check that the two agree is commented out (`src/reader.rs:90-98`), so a record whose layout width differs from its in-memory size reads differently in the source.
- The byte layouts of `Header` and the directory entries: the binrw layouts live in the `data` module, which is not part of this model. The model assumes a 4-byte header (`DecodeHeader`) and a 16-byte directory entry of four little-endian `u32`s, in the order offset, length, version, ident (`DecodeLumpEntry`). `BspFile.OpenSucceeds` and `BspFile.OpenComplete` are stated about that assumed layout.
- The byte layouts of the lump records: each record is read by a decoder passed in with its size (`Codec`, `Decoders`). Records the core does not look inside keep their raw bytes.
- `read_to_string` UTF-8 validation in `read_entities`: a parameter `toText` that may reject the bytes.
- Floating point: `f32` coordinates and the dot product are reals, so rounding is not modelled; `f32`, `u32`, `i32` and `Vector` text conversion is left out, and `u8` is the only integer conversion modelled.
- `VisData::visible_clusters` run-length decoding: a parameter `visibleClusters` giving a cluster's bit vector.
- Handle.VisibleSet: requires the bit vector to cover every other positive cluster, because indexing past it panics in the source.
- Derive-generated entity extraction (the per-struct field parsing and `default` attribute semantics of the `Entity` derive): only the classname table and the payload kind of each variant are modelled.
- Debug impls, `Clone`, `AsRef`, `Deref` and `IntoIterator` boilerplate, `Leaves::iter`/`iter_mut`/`into_inner`, `Bsp::models` (a plain iterator over a field), and the capacity hints of `Vec::with_capacity`.
- `Bsp::original_faces` (`src/lib.rs:314-316`): despite its name it iterates `self.faces`, not `self.original_faces`; as a plain iterator over a field it is not modelled, and the model promises nothing about which lump it yields.
- The file-reading test `tf2_file`, which needs a map file.
- The handle submodules `displacement`, `face` and `game` are not part of this model.
- Handles are modelled as the record they wrap; the map they carry is the `bsp` argument.
- `Bsp::read` does not fill the texture string table and data, since the shown `Bsp::read` does not read them; the model's `Read` leaves them empty, and `Handle.TextureName` reads them from the map value it is given.
- Vbsp.Read: the order of leaves within one cluster is not promised, because the source sorts with an unstable sort.
- Vbsp.LeafAtPoint: takes a step budget, because a cyclic child index would make `leaf_at` loop forever; once a descent ends, any larger step budget gives the same result (`DescendMoreSteps`). A tree whose child node indices always exceed their parent's index ends within as many steps as it has nodes (`LeafAtPointEnds`); nothing is proved about other acyclic trees.
- Vbsp.Descend, Vbsp.LeafAtPoint: the two source texts disagree about a node's missing plane. `leaf_at` writes `current.plane()?` (`src/lib.rs:295`), which returns nothing when the plane is missing, but the `plane()` shown at `src/handle/mod.rs:80-82` unwraps and so would panic, and its result could not take `?`. The descent follows `leaf_at`'s reading and returns nothing; Handle.PlaneOf follows `plane()`'s and makes the plane's presence a precondition.
- Vbsp.NodePlane: a negative `i32` plane index is cast to `usize` in the source, giving a huge index that finds nothing; the model returns nothing for it directly.
- Handle.TextureName: the string-table offsets are taken as character positions in the string data. In the source they are byte offsets into UTF-8 text, and slicing at an offset that is not on a character boundary panics; that panic is not modelled.
- Handle.PlaneOf, Handle.TextureDataOf, Handle.ModelFaces, Handle.LeafFaces, Handle.TextureName: the source panics (`unwrap`, out-of-range slice or index) on a missing record; the model makes the record's presence a precondition.
- `EntityParseError` and the error module are not part of this model beyond the cases the core raises or passes on.
- `LumpReader::read`, `read_args` and `into_data`: the first two are binrw calls, modelled by the record decoder; `into_data` is not used by the core.

## Findings

| source | as written | input that shows it | evidently intended | confidence | as-written member | corrected member |
|---|---|---|---|---|---|---|
| src/data/entity.rs:203-210 | the classname `item_ammopack_full` selects `HealthPackFull(HealthPack)` and `item_healthkit_full` selects `AmmoPackFull(AmmoPack)` | an entity with `"classname" "item_ammopack_full"` | `item_ammopack_full` selects `AmmoPackFull` and `item_healthkit_full` selects `HealthPackFull`, like the small and medium sizes | medium, not executed | EntityClass.AsWrittenCrossesFullPickups | EntityClass.PickupClassnames |
