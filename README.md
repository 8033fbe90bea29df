# ViveQuake core in Dafny

A model of the part of ViveQuake that turns Quake game data into what the Unity client
draws, and of the client side that imports it:

- **Server/qdata.py**: the binary record codecs. `QData` is a lazily decoded record
  that is unpacked from a file buffer on first attribute access. Its `FIELDS` are
  scalars (`FCharPtr`, `FInt*`, `FUShort`, `FUChar`, `FEnum`, `FSignature`), offset
  arrays, fixed-width arrays and lumps. The records built from them are the BSP
  (`QBsp` and its lumps), the alias model (`QMdl`: skins, texture vertices, triangles
  and quantised frames, with `fix` and `getbbox`), the mipmapped texture (`QMipmap`)
  and the PAK archive (`QPak` with `GUESS_CLASS`).
  - Modules `Bytes`, `Streams`, `PyLists`, `Scalars`, `Fields`, `FieldsRoundTrip` and
    `Packing` model the scalars, the field kinds and the unpack/pack loops.
    `Streams.Stream` is the `cStringIO` buffer; `Packing` drives it.
  - `Records.Record` is the lazy `QData` object.
  - `Mipmaps`, `Schemas`, `Runs`, `Mdl`/`MdlStreams` and `Paks`/`PakStreams` model the
    concrete records.
  - Each codec is paired with its inverse and a proved round trip.
- **Server/maploader.py**: the conversion of a BSP sub-model and of an alias model into
  the mesh dictionary sent to the client.
  - `Geometry` covers `map_vertex`, `_dist2`, `triangulate` and `explode`.
  - `BspMesh` gives the specification of `load_bsp_model`. `BspLoad` is its
    step-by-step method, with the `get_vertex` cache as class `VertexCache`.
  - `Lights` is `load_light`.
  - `Meshes` holds the mesh dictionary and `_get_texture_key`.
  - `MdlMesh` is `load_model`.
  - `Compaction` is the first-seen numbering that both loaders' vertex dictionaries
    implement.
- **Unity/Assets/Scripts/NetworkImporter.cs**: the client's importer.
  - `ClientTexture` covers `ImportSingleTexture` and the sky split of `ImportTexture`.
  - `ClientMesh` covers `ImportMesh`.
  - `Client` holds the `NetworkImporter` class: memoised material and model imports,
    light-style updates and the entity loop of `NetworkUpdateData`. That loop starts
    imports, and shows the entities whose model is ready.
- **Unity/Assets/Scripts/QuakeEntity.cs**: `Entities.QuakeEntity` with `Setup`,
  `SetModel`, `SetFlags` and `SetDynamicLight`. The pure mapping from solidity flags to
  layer and collider, and from model flags to a dynamic light, is proved on its own.

Errors the source raises (IndexError, KeyError, AttributeError, AssertionError,
struct.error, ZeroDivisionError, a C# IndexOutOfRange or NullReference) are values of
`Results.Error`. Every operation returns a `Result`, so its error paths are part of
its contract.

## Model

| member | source | states |
|---|---|---|
| Bytes.FromLEOfLE | Server/qdata.py:241-253 | an unsigned value below 256^n reads back from its n little-endian bytes (`<H`, `<B`) |
| Bytes.LEOfFromLE | Server/qdata.py:241-253 | any n bytes read as an unsigned value re-encode to themselves |
| Bytes.SignedRoundTrip | Server/qdata.py:213-239 | a value that fits n signed bytes reads back from its two's-complement little-endian encoding (`<i`, `<h`, `<b`) |
| Bytes.SignedBytesRoundTrip | Server/qdata.py:213-239 | any n bytes read as a signed value give a value that fits n bytes and re-encodes to the same bytes |
| Bytes.PadLen | Server/qdata.py:128 | the lump padding is below the alignment and makes the length a multiple of it |
| Bytes.Chunk | Server/qdata.py:114 | `f.read(n)` gives exactly n bytes when they are there, the rest of the buffer when fewer remain or n is negative, and nothing past the end |
| Bytes.Overwrite | Server/qdata.py:124-125 | a write at a seek position replaces the bytes there and keeps those before and after; the buffer grows only as far as the write reaches |
| Bytes.OverwriteAtEnd | Server/qdata.py:121 | writing at the end of the buffer appends |
| Bytes.UpToNulPrefix | Server/qdata.py:205-207 | the string cut at the first NUL is a NUL-free prefix followed by a NUL or by the end |
| Bytes.UpToNulOfPadded | Server/qdata.py:203-211 | a NUL-free string padded with NULs cuts back to itself |
| Streams.Stream.constructor | Server/qdata.py:24 | the stream made from a record's bytes holds them with its cursor at 0 |
| Streams.Stream.Read | Server/qdata.py:114 | `read` returns the chunk at the cursor and advances the cursor by its length; the buffer is unchanged |
| Streams.Stream.Seek | Server/qdata.py:113 | `seek` moves the cursor (a negative position clamps to 0) and leaves the buffer alone |
| Streams.Stream.SeekEnd | Server/qdata.py:142 | `seek(0, 2)` puts the cursor at the end |
| Streams.Stream.Write | Server/qdata.py:121 | `write` overwrites at the cursor and advances it by the data's length |
| PyLists.PyIndex | Server/maploader.py:97 | `s[i]` succeeds exactly for `-len(s) <= i < len(s)`, counts a negative index from the end, and otherwise raises IndexError |
| PyLists.PySlice | Server/maploader.py:91 | an in-range slice is the subsequence; any slice is no longer than the list |
| PyLists.IndexOf | Server/qdata.py:281 | `list.index(v)` is the first position holding v |
| Scalars.SignatureOfInt | Server/qdata.py:93-96 | an int signature is expected as its 4 signed little-endian bytes |
| Scalars.SignatureCheck | Server/qdata.py:97-101 | a signature read succeeds iff the bytes at the cursor equal the expected ones, and then moves past them |
| Scalars.CharPtrWrite | Server/qdata.py:209-211 | `FCharPtr.write` succeeds iff the string is shorter than the field, and writes it NUL-padded to the field size |
| Scalars.CharPtrRoundTrip | Server/qdata.py:200-211 | a NUL-free string that fits reads back from what is written |
| Scalars.Int24Range | Server/qdata.py:221-223 | `FInt3b` reads an unsigned 24-bit value |
| Scalars.Int24RoundTrip | Server/qdata.py:220-225 | `FInt3b` writes the low 3 bytes of `<i`, so a value reads back modulo 2^24 |
| Scalars.IntRoundTrip | Server/qdata.py:213-253 | an integer field writes iff the value fits its struct format, writes exactly its width, and a canonical value reads back |
| Scalars.IntBytesRoundTrip | Server/qdata.py:213-253 | any chunk of the field's width reads as a value that writes back to the same chunk |
| Scalars.EnumRoundTrip | Server/qdata.py:274-282 | a choice of an `FEnum` writes as its index and reads back as itself |
| Scalars.EnumBytesRoundTrip | Server/qdata.py:274-282 | an in-range index reads as a choice that writes back to the same 4 bytes (for distinct choices) |
| Scalars.ScalarRoundTrip | Server/qdata.py:200-282 | every scalar kind reads back what it writes, in the middle of any buffer, consuming exactly its width |
| Fields.DecodeInts | Server/qdata.py:140 | the offset table decodes to exactly `count` ints |
| Fields.ElementAt | Server/qdata.py:144-147 | element i of an offset array is the chunk from offset i up to offset i+1 |
| Fields.ReadRow | Server/qdata.py:176-177 | one array element reads one value per item field and leaves the cursor forward, within the buffer |
| Fields.ReadFields | Server/qdata.py:71-74 | `unpack` stops at the first failing field: it fails iff it read fewer values than there are fields |
| Fields.WriteOfsArray | Server/qdata.py:149-164 | `FOfsArray.write` only appends to the buffer |
| Fields.WriteCount | Server/qdata.py:150-153 | the count is written iff it fits `<i`, or equals the fixed length when there is one |
| Fields.WriteField | Server/qdata.py:118-121 | a lump writes an 8-byte placeholder and leaves a pending patch for its data; every other field leaves none |
| Fields.WriteFields | Server/qdata.py:76-80 | `pack` only appends to the buffer |
| Fields.RunPatch | Server/qdata.py:122-129 | a patch only lengthens the buffer |
| FieldsRoundTrip.RowRoundTrip | Server/qdata.py:166-182 | one `FArray` element written reads back as itself, with the cursor just after it, whatever follows |
| FieldsRoundTrip.RowsRoundTrip | Server/qdata.py:166-182 | `FArray.read` of what `FArray.write` wrote gives the rows back and ends at the end of the buffer |
| FieldsRoundTrip.IntsRoundTrip | Server/qdata.py:140 | a table of ints that fit `<i` decodes back to itself |
| FieldsRoundTrip.OfsArrayRoundTrip | Server/qdata.py:131-164 | `FOfsArray.read` of what `FOfsArray.write` wrote gives each element's bytes back and ends at the end of the buffer |
| FieldsRoundTrip.WriteOfsArrayShape | Server/qdata.py:149-164 | the written offset array is the count, the table patched with each element's start, then the elements back to back |
| FieldsRoundTrip.ElementsLocate | Server/qdata.py:141-147 | the element read between consecutive offsets is the element written there |
| FieldsRoundTrip.PatchOne | Server/qdata.py:122-129 | a lump patch writes the lump's offset and size into its slot, then appends its data padded to the alignment |
| FieldsRoundTrip.PatchesLayout | Server/qdata.py:81-83 | running every pending patch lays each lump's data out after the header, with its slot pointing at it |
| FieldsRoundTrip.PatchesResolve | Server/qdata.py:81-83 | after the patches the header bytes are as written and every slot resolves to its lump's data |
| FieldsRoundTrip.LumpRead | Server/qdata.py:110-117 | `FLump.read` of a resolved slot gives back the lump's data |
| FieldsRoundTrip.WriteFieldsShape | Server/qdata.py:76-80 | the pending patches point at distinct slots inside the written header; none without lumps |
| FieldsRoundTrip.FieldsRoundTrip | Server/qdata.py:71-83 | unpacking what pack wrote gives back every field's value and stops at the end of the header |
| FieldsRoundTrip.EncodeDecode | Server/qdata.py:71-83 | for every layout that is well laid, decode of encode gives back the attribute values |
| FieldsRoundTrip.HeaderDecode | Server/qdata.py:638-639 | an encoded header decodes back whatever bytes follow it |
| Packing.ReadScalarFrom | Server/qdata.py:200-282 | reading a scalar from the stream gives the value and the cursor of the pure reader |
| Packing.ReadLumpFrom | Server/qdata.py:110-117 | `FLump.read` on the stream is the pure lump reader |
| Packing.ReadCountFrom | Server/qdata.py:137-139 | the count of an offset array read from the stream is the pure reader's |
| Packing.ReadElementsFrom | Server/qdata.py:144-147 | the element loop reads the elements the offsets delimit and leaves the cursor after the last one |
| Packing.ReadOfsArrayFrom | Server/qdata.py:135-148 | `FOfsArray.read` on the stream is the pure reader |
| Packing.ReadRowFrom | Server/qdata.py:176-177 | one array element read from the stream is the pure row reader's |
| Packing.ReadRowsFrom | Server/qdata.py:169-179 | the `FArray.read` loop is the pure rows reader, including its error for an element that consumes nothing |
| Packing.ReadElemsFrom | Server/qdata.py:187-195 | the `FArrayOf.read` loop is the pure reader |
| Packing.ReadFieldFrom | Server/qdata.py:71-74 | one field's `read` on the stream is the pure field reader |
| Packing.WriteScalarTo | Server/qdata.py:200-282 | a scalar write appends the encoded bytes or fails with the encoder's error |
| Packing.WriteOfsArrayTo | Server/qdata.py:149-164 | `FOfsArray.write` on the stream produces the pure writer's buffer |
| Packing.WriteCountTo | Server/qdata.py:150-153 | the count and the empty table are written when the count fits, else the writer's error |
| Packing.WriteElementsTo | Server/qdata.py:156-160 | the element loop appends every element and records each one's start offset |
| Packing.WriteRowTo | Server/qdata.py:180-182 | one element written on the stream is the pure row writer's result |
| Packing.WriteRowsTo | Server/qdata.py:180-182 | `FArray.write` on the stream is the pure rows writer |
| Packing.WriteFieldTo | Server/qdata.py:118-129 | one field's `write` on the stream is the pure field writer, with the same pending patches |
| Packing.RunPatchOn | Server/qdata.py:122-129 | one lump patch on the stream is the pure patch |
| Packing.WriteFieldsTo | Server/qdata.py:77-80 | the field loop of `pack` is the pure writer |
| Packing.RunPatchesOn | Server/qdata.py:81-83 | the patch loop of `pack` is the pure patch run |
| Packing.PackInto | Server/qdata.py:76-83 | `QData.pack` on the stream gives exactly the pure encoding |
| Records.Access | Server/qdata.py:14-26 | the first access of a public attribute unpacks the raw bytes and drops them; a held attribute is returned as it is; `rawdata` of an undecoded record is its bytes |
| Records.Record.FromBytes | Server/qdata.py:8-12 | a record made from bytes holds them and no attributes |
| Records.Record.FromAttrs | Server/qdata.py:8-12 | a record made from keywords holds them and no bytes |
| Records.Record.Unpack | Server/qdata.py:71-74 | `unpack` assigns the values read, in field order, up to the first failure |
| Records.Record.RawData | Server/qdata.py:15-21 | `rawdata` is the held bytes, or else the packed attributes |
| Records.Record.GetAttr | Server/qdata.py:14-26 | `__getattr__` on the object is `Access` on its state |
| Records.AssignOther | Server/qdata.py:71-74 | unpacking never touches an attribute that is not a field |
| Records.AssignVals | Server/qdata.py:71-74 | after unpacking every field holds the value it was packed with |
| Records.FirstAccess | Server/qdata.py:22-26 | the first access of a field of a packed record gives that field's value and leaves the decoded record |
| Records.RepackAfterAccess | Server/qdata.py:15-21 | the `rawdata` of a record decoded on access is the bytes it came from |
| Mipmaps.Unpack | Server/qdata.py:301-320 | a level is indexed at 1/2^index of the size or, for level 0, 24-bit of 3 bytes per pixel; any other length fails the assertion |
| Mipmaps.Pack | Server/qdata.py:321-327 | packing succeeds iff the data's length matches the size, and gives the data |
| Mipmaps.UnpackPack | Server/qdata.py:300-327 | bytes that unpack pack back to themselves |
| Mipmaps.PackUnpack | Server/qdata.py:300-327 | an indexed mipmap that packs unpacks back to itself at its level |
| Mipmaps.PackUnpackRgb | Server/qdata.py:309-313 | a 24-bit mipmap that packs unpacks back to itself at level 0 |
| Mipmaps.UnpackLevels | Server/qdata.py:331-338 | `QTexture` unpacks each offset-array element as the mipmap of its level |
| Schemas.TextureFields | Server/qdata.py:331-338 | the `QTexture` layout meets the round-trip conditions |
| Schemas.TexturesFields | Server/qdata.py:340-343 | the `QTextures` layout meets the round-trip conditions |
| Schemas.TexinfoItem | Server/qdata.py:345-351 | a texinfo element is 40 bytes |
| Schemas.BspFaceItem | Server/qdata.py:358-370 | a face element is 20 bytes |
| Schemas.BspEdgeItem | Server/qdata.py:377-381 | an edge element is 4 bytes |
| Schemas.BspModelItem | Server/qdata.py:388-400 | a sub-model element is 64 bytes |
| Schemas.ArrayFields | Server/qdata.py:353-356 | an `FArray` list layout meets the round-trip conditions |
| Schemas.ListFields | Server/qdata.py:407-415 | the int and vector list layouts meet the round-trip conditions |
| Schemas.BspFields | Server/qdata.py:417-435 | the BSP header is version 29 then 15 lumps aligned to 4, in the file's order |
| Schemas.MdlFields | Server/qdata.py:448-465 | the MDL header is the 15 scalar fields of `QMdl`, with no lump |
| Schemas.PakEntryItem | Server/qdata.py:720-725 | a directory entry is 64 bytes |
| Schemas.PakEntryFields | Server/qdata.py:720-725 | the `QPakEntry` layout is three scalars with no lump |
| Schemas.PakFields | Server/qdata.py:727-731 | the PAK header is the signature `PACK` |
| Mdl.ZeroTagRead | Server/qdata.py:657-658 | the skin and frame type tag checks test for 4 zero bytes |
| Mdl.MinOf | Server/qdata.py:716-717 | `min` is an element no greater than any other |
| Mdl.MaxOf | Server/qdata.py:716-717 | `max` is an element no smaller than any other |
| Mdl.BBox | Server/qdata.py:714-717 | `getbbox` fails with ValueError exactly on no vertices, and otherwise bounds every vertex |
| Mdl.BBoxAttained | Server/qdata.py:714-717 | every bound of `getbbox` is attained by some vertex |
| Mdl.FrameBounds | Server/qdata.py:708-710 | a frame's packed bounds are 8 bytes, and an empty frame raises ValueError |
| Mdl.AllVerts | Server/qdata.py:671-673 | the vertices gathered by `fix` include every vertex of every frame |
| Mdl.WordsAt | Server/qdata.py:649-654 | `<iii` words read back from what is written |
| Mdl.VertexAt | Server/qdata.py:693-694 | a texture vertex packed reads back by `unpack` |
| Mdl.TriangleAt | Server/qdata.py:695-696 | a triangle packed reads back by `unpack` |
| Mdl.SkinAt | Server/qdata.py:688-692 | a single skin packed with its zero tag reads back by `unpack` |
| Mdl.PackVFull | Server/qdata.py:697-704 | against the full byte box, `packv` writes the coordinate bytes unchanged |
| Mdl.TrivertAt | Server/qdata.py:697-704 | a frame vertex packed against the full box reads back |
| Mdl.NameReadsBack | Server/qdata.py:711 | a frame name written as a 16-byte field cuts back to itself |
| Mdl.FrameShape | Server/qdata.py:705-712 | a packed frame is the zero tag, its bounds, its name and its vertices |
| Mdl.FrameAt | Server/qdata.py:705-712 | a packed frame reads back by `unpack` |
| Mdl.RunRoundTrip | Server/qdata.py:688-712 | a counted run of items that each read back reads back as a whole |
| Mdl.TrivertsAt | Server/qdata.py:712 | a frame's vertex run reads back |
| Mdl.SkinsAt | Server/qdata.py:688-692 | the skin run reads back |
| Mdl.VerticesAt | Server/qdata.py:693-694 | the texture vertex run reads back |
| Mdl.TrianglesAt | Server/qdata.py:695-696 | the triangle run reads back |
| Mdl.FramesAt | Server/qdata.py:705-712 | the frame run reads back |
| Mdl.Fix | Server/qdata.py:670-683 | `fix` sets the four counts to the body's list lengths and keeps every other attribute, `scale` and `scale_origin` included |
| Mdl.BodyRoundTrip | Server/qdata.py:640-712 | the body `pack` writes is read back by `unpack` as the same skins, vertices, triangles and frames |
| Mdl.PackBodyParts | Server/qdata.py:688-712 | the packed body is the four runs one after the other |
| Mdl.ReadBodyCongruent | Server/qdata.py:640-668 | reading the body depends only on the counts and the skin size of the header |
| Mdl.ModelRoundTrip | Server/qdata.py:638-712 | `unpack` of `pack` gives back the fixed header and the same body |
| Mdl.PackModelParts | Server/qdata.py:685-687 | a packed model is the header of the fixed attributes, then the body |
| Mdl.DecodeModelOf | Server/qdata.py:638-668 | decoding a header followed by a body gives the header's values and the body |
| Mdl.FixNamed | Server/qdata.py:670-683 | after `fix` every header field has a value |
| Mdl.KeptKeys | Server/qdata.py:670-683 | the decoded header keeps the counts and skin size that the body was packed with |
| MdlStreams.ReadSkinFrom | Server/qdata.py:642-646 | one skin read from the stream is the pure skin reader's |
| MdlStreams.ReadVertexFrom | Server/qdata.py:649-650 | one texture vertex read from the stream is the pure reader's |
| MdlStreams.ReadTriangleFrom | Server/qdata.py:653-654 | one triangle read from the stream is the pure reader's |
| MdlStreams.ReadTrivertFrom | Server/qdata.py:663-667 | one frame vertex read from the stream is the pure reader's |
| MdlStreams.ReadFrameHeadFrom | Server/qdata.py:657-660 | the frame tag, bounds and name read from the stream are the pure reader's |
| MdlStreams.ReadFrameFrom | Server/qdata.py:657-668 | one frame read from the stream is the pure frame reader's |
| MdlStreams.ReadSkinsFrom | Server/qdata.py:641-646 | the skin loop is the pure run reader |
| MdlStreams.ReadVerticesFrom | Server/qdata.py:648-650 | the texture vertex loop is the pure run reader |
| MdlStreams.ReadTrianglesFrom | Server/qdata.py:652-654 | the triangle loop is the pure run reader |
| MdlStreams.ReadTrivertsFrom | Server/qdata.py:662-667 | a frame's vertex loop is the pure run reader |
| MdlStreams.ReadFramesFrom | Server/qdata.py:656-668 | the frame loop is the pure run reader |
| MdlStreams.ReadNextFrame | Server/qdata.py:656-668 | one step of the frame loop keeps the loop's specification |
| MdlStreams.ReadBodyFrom | Server/qdata.py:640-668 | the four loops of `unpack` read the pure body |
| MdlStreams.WriteSkinTo | Server/qdata.py:689-692 | one skin written on the stream is its pure encoding |
| MdlStreams.WriteVertexTo | Server/qdata.py:694 | one texture vertex written is its encoding |
| MdlStreams.WriteTriangleTo | Server/qdata.py:696 | one triangle written is its encoding |
| MdlStreams.PackTriverts | Server/qdata.py:712 | the frame's vertex loop gives the pure run of `packv` |
| MdlStreams.WriteFrameTo | Server/qdata.py:706-712 | one frame written is its pure encoding |
| MdlStreams.WriteSkinsTo | Server/qdata.py:688-692 | the skin loop is the pure run writer |
| MdlStreams.WriteVerticesTo | Server/qdata.py:693-694 | the texture vertex loop is the pure run writer |
| MdlStreams.WriteTrianglesTo | Server/qdata.py:695-696 | the triangle loop is the pure run writer |
| MdlStreams.WriteFramesTo | Server/qdata.py:705-712 | the frame loop is the pure run writer |
| MdlStreams.WriteBodyTo | Server/qdata.py:688-712 | the body loops of `pack` give the pure packed body |
| MdlStreams.CollectVerts | Server/qdata.py:671-673 | the vertex-gathering loop of `fix` gives every frame's vertices in order |
| MdlStreams.Model.constructor | Server/qdata.py:8-12 | a model made from keywords holds them in its header and the given lists |
| MdlStreams.Model.Unpack | Server/qdata.py:638-668 | `QMdl.unpack` reads the header, then the body, into the object's lists, or reports the first failure |
| MdlStreams.Model.Pack | Server/qdata.py:685-712 | `QMdl.pack` fixes the header when the frames have a box and writes the pure packed model |
| Paks.PackSigIsSchema | Server/qdata.py:727-731 | the signature checked is the header's `PACK` |
| Paks.RFind | Server/qdata.py:742 | `rfind` is the last position of the byte, or -1 |
| Paks.ExtIs | Server/qdata.py:742 | the extension taken is the suffix the name ends with |
| Paks.GuessClassOfName | Server/qdata.py:773-777 | a member is a PAK, BSP or MDL record exactly when its name ends in `.pak`, `.bsp` or `.mdl`, and plain data otherwise |
| Paks.EncodeEntry | Server/qdata.py:720-725 | an encoded directory entry is 64 bytes |
| Paks.EntryRoundTrip | Server/qdata.py:720-725 | an entry encodes iff its name fits and its numbers fit `<i`, and it decodes back to itself |
| Paks.DecodeEntryIsDecode | Server/qdata.py:720-725 | the entry decoder is the generic decode of the `QPakEntry` layout |
| Paks.EncodeEntryIsEncode | Server/qdata.py:720-725 | the entry encoder is the generic encode of the `QPakEntry` layout |
| Paks.DirLen | Server/qdata.py:736 | the directory holds as many whole entries as its size allows |
| Paks.DecodeEntries | Server/qdata.py:739 | the directory decodes iff every entry does, each to its own value in order |
| Paks.Names | Server/qdata.py:740 | `names` lists the entries' names in directory order |
| Paks.ContentsKeys | Server/qdata.py:741-746 | `content` has a key exactly for each entry's name |
| Paks.ContentsLast | Server/qdata.py:741-746 | under a repeated name `content` keeps the last entry's member |
| Paks.KeptNames | Server/qdata.py:749-754 | the kept names are those listed and still present, in order |
| Paks.KeptRepeats | Server/qdata.py:751-753 | a name listed twice and still present raises KeyError on its second removal |
| Paks.Padded | Server/qdata.py:760-765 | each blob is padded to the alignment, with its data at the front |
| Paks.Layout | Server/qdata.py:760-765 | there is one directory entry per name |
| Paks.LayoutAt | Server/qdata.py:760-765 | each name's entry points at its data in the blob area |
| Paks.DirectorySize | Server/qdata.py:767-768 | the directory is 64 bytes per entry |
| Paks.DirectoryAt | Server/qdata.py:767-768 | entry i is encoded at offset 64*i of the directory |
| Paks.HeaderOf | Server/qdata.py:735-736 | the header written reads back as the directory's offset and size |
| Paks.MemberOfLayout | Server/qdata.py:741-746 | the member read at a written entry is the name's data as the class its extension selects |
| Paks.MembersOf | Server/qdata.py:739-746 | the unpacked names are the packed names, and the content is the packed content reclassed |
| Paks.DirectoryReads | Server/qdata.py:733-746 | the packed directory unpacks to the entries written |
| Paks.PackUnpack | Server/qdata.py:733-770 | unpacking what `pack` wrote gives back the names in order and every member's data under its guessed class |
| PakStreams.ReadRawEntryFrom | Server/qdata.py:739 | one raw entry read from the stream is the pure reader's |
| PakStreams.ReadRawEntriesFrom | Server/qdata.py:739 | the directory loop reads the pure run of raw entries |
| PakStreams.DecodeAll | Server/qdata.py:739 | the decode loop is the pure directory decoder |
| PakStreams.LoadMembers | Server/qdata.py:741-746 | the member loop builds exactly the pure `content` |
| PakStreams.KeepNames | Server/qdata.py:749-754 | the removal loop keeps the listed names still present, and leaves the rest as the new ones |
| PakStreams.AppendNew | Server/qdata.py:755-756 | the new names are appended after the kept ones, each once, and the names are then exactly the content's |
| PakStreams.WriteBlobs | Server/qdata.py:760-765 | the blob loop writes the layout's blobs and entries |
| PakStreams.WriteEntryTo | Server/qdata.py:767-768 | one entry written is its encoding |
| PakStreams.WriteEntriesTo | Server/qdata.py:767-768 | the directory loop is the pure run writer |
| PakStreams.WritePak | Server/qdata.py:757-770 | the write part of `QPak.pack` produces the pure packed archive, header patched |
| PakStreams.PatchedPak | Server/qdata.py:769-770 | patching the placeholder header gives the pure archive |
| PakStreams.Pak.constructor | Server/qdata.py:8-12 | a PAK object holds the given signature, names and content |
| PakStreams.Pak.Unpack | Server/qdata.py:733-746 | `QPak.unpack` sets `names` and `content` from the archive, or fails leaving the state the source leaves |
| PakStreams.Pak.Pack | Server/qdata.py:747-770 | `QPak.pack` checks the signature, drops removed names, appends new ones once each, and writes the archive |
| Geometry.MapVertexInvolution | Server/maploader.py:13-17 | `map_vertex` swaps y and z, so applying it twice gives the vertex back |
| Geometry.Dist2 | Server/maploader.py:176-180 | the squared distance is non-negative, and zero from a point to itself |
| Geometry.Dist2Symmetric | Server/maploader.py:176-180 | the squared distance is symmetric and unchanged by `map_vertex` |
| Geometry.FanCloses | Server/maploader.py:158-174 | the fan has one triangle per vertex, all at the centroid, and each triangle starts where the previous one ended |
| Geometry.Triangulate | Server/maploader.py:158-174 | `triangulate` divides by zero on an empty polygon and otherwise returns the fan |
| Geometry.SmallIsLongest | Server/maploader.py:182-194 | a triangle is small exactly when its longest side is within the limit |
| Geometry.MidMid | Server/maploader.py:186-188 | the side between two midpoints is half the third side |
| Geometry.SplitQuarters | Server/maploader.py:186-192 | each of the four children has a quarter of the parent's longest squared side |
| Geometry.ChildShrinks | Server/maploader.py:185-192 | a child of a large triangle is strictly smaller, which ends the recursion |
| Geometry.ExplodedSmall | Server/maploader.py:182-194 | `explode` yields only small triangles, and a small triangle alone |
| Geometry.ExplodeInto | Server/maploader.py:182-194 | the method appends exactly the exploded triangles |
| Geometry.ShrunkBounds | Server/maploader.py:182-194 | quartering stops at the first value within the limit |
| Geometry.ExplodedCount | Server/maploader.py:182-194 | a triangle explodes into 4^levels pieces |
| Geometry.ExplodedLongest | Server/maploader.py:182-194 | every piece has the parent's longest side quartered down to the limit |
| BspMesh.EndsOf | Server/maploader.py:95-103 | the edge loop succeeds with two end lists iff they are the faces' edge runs |
| BspMesh.VertexLoopClosed | Server/maploader.py:95-104 | a face's vertex list is its edges' starts, each edge running to the next vertex, the last back to the first |
| BspMesh.LoopChains | Server/maploader.py:95-104 | a loaded vertex loop chains along the face's edges |
| BspMesh.ChainsLoop | Server/maploader.py:95-104 | a chain along the edges is the vertex loop the code loads |
| BspMesh.RotateNext | Server/maploader.py:104 | the rotated list holds each vertex's successor |
| BspMesh.PointsAt | Server/maploader.py:111 | each point is the vertex its index selects |
| BspMesh.EffectOf | Server/maploader.py:140-145 | a texture is sky exactly when named so, water when liquid and not sky |
| BspMesh.ExplodedAllSmall | Server/maploader.py:112-116 | every sky triangle is small |
| BspMesh.SkyPolygonsSmall | Server/maploader.py:112-116 | a sky face becomes small triangles |
| BspMesh.CornersOf | Server/maploader.py:125-131 | there is one corner per polygon vertex |
| BspMesh.FacePlanShape | Server/maploader.py:91-131 | a face's plan has its texture, its polygons and their corners as the face loop computes them |
| BspMesh.TexIds | Server/maploader.py:124 | the texture ids are read off the polygons in order |
| BspMesh.TextureNamesAt | Server/maploader.py:133-148 | each texture slot's name is the key of the texture it numbers, with its effect |
| BspMesh.Keys | Server/maploader.py:73-83 | each corner's key is its position, normal and rounded uv |
| BspMesh.FirstCornersKeys | Server/maploader.py:73-83 | the first corner per key lists the keys in first-seen order |
| BspMesh.PlanesAsWritten | Server/maploader.py:121 | as written, a planes lump without fields raises AttributeError on `.list`, so any face fails |
| BspMesh.OutlineAsWritten | Server/maploader.py:91-131 | as written, only a sub-model without faces loads |
| BspMesh.PlaneNormalDecoded | Server/maploader.py:121-123 | with decoded planes, a face's normal is the indexed plane's, and an out-of-range index raises IndexError |
| BspLoad.VertexCache.constructor | Server/maploader.py:68-72 | the cache and the vertex lists start empty |
| BspLoad.VertexCache.GetVertex | Server/maploader.py:73-83 | `get_vertex` returns the cached number of a known key, and otherwise appends the vertex and numbers it next |
| BspLoad.CacheStep | Server/maploader.py:73-83 | one `get_vertex` call keeps the cache numbering the first-seen keys |
| BspLoad.CornerVertex | Server/maploader.py:125-131 | one corner is looked up or added, and its number names its key |
| BspLoad.EmitPolygon | Server/maploader.py:125-131 | a polygon becomes a face whose indices name its corners' keys |
| BspLoad.EmitFace | Server/maploader.py:124-131 | a face's polygons become faces that show them |
| BspLoad.ShowsGrow | Server/maploader.py:91-131 | a face emitted later keeps earlier faces shown |
| BspLoad.FaceShowsGrows | Server/maploader.py:91-131 | a shown face stays shown as the numbering grows |
| BspLoad.TakeFace | Server/maploader.py:91-131 | one pass of the face loop keeps everything emitted so far loaded |
| BspLoad.EdgeLoop | Server/maploader.py:95-104 | the edge loop gives the face's vertex loop |
| BspLoad.EndsStuck | Server/maploader.py:95-103 | once an edge fails, the loop's error stands |
| BspLoad.SkySplit | Server/maploader.py:112-116 | the sky branch gives the exploded fan |
| BspLoad.FaceStartStep | Server/maploader.py:95-112 | the start of the face loop is the pure face start |
| BspLoad.FacePlanStep | Server/maploader.py:91-123 | a face's plan is computed as specified |
| BspLoad.TextureKeyFor | Server/maploader.py:136-148 | one texture's key is as specified |
| BspLoad.TextureNamesOf | Server/maploader.py:133-148 | the texture pass gives the names in slot order |
| BspLoad.MeshDescribed | Server/maploader.py:150-156 | what the loops built is the outline's mesh |
| BspLoad.LoadBspModel | Server/maploader.py:67-156 | `load_bsp_model` fails with the outline's error, or returns a mesh whose every face shows its polygon's corners through the first-seen vertex numbering |
| Lights.Truncate | Server/maploader.py:58 | `int()` of a float truncates toward zero |
| Lights.ToFloat | Server/maploader.py:56 | `float()` of a number is its value |
| Lights.ToInt | Server/maploader.py:58 | `int()` of a number is within 1 of it, toward zero |
| Lights.LightOf | Server/maploader.py:51-59 | `load_light` needs an origin, defaults the light to 200, and records a style exactly when one is given and non-zero |
| Lights.StringStyleKept | Server/maploader.py:57-58 | a string style is always recorded, as its parsed value |
| Lights.NumbersLoad | Server/maploader.py:51-59 | with a parsable origin and numeric light and style, `load_light` succeeds |
| Meshes.TextureKeyOf | Server/maploader.py:205-213 | an indexed mipmap gets a key of its size, data and effect; a 24-bit one raises AttributeError |
| Meshes.TextureKeyInjective | Server/maploader.py:205-213 | distinct textures get distinct keys |
| MdlMesh.SkinUV | Server/maploader.py:233-238 | a back-facing corner on the seam is shifted by half the skin width; uv is the texel over the skin size |
| MdlMesh.FrameOf | Server/maploader.py:247-254 | `get_frame` succeeds iff every used vertex and its normal index are in range, else IndexError |
| MdlMesh.FramesOf | Server/maploader.py:256-263 | there is one animation per frame |
| MdlMesh.CornersPrefix | Server/maploader.py:226-243 | the corner keys grow triangle by triangle |
| MdlMesh.FacesOfShow | Server/maploader.py:226-243 | every face shows its triangle's corners through the numbering |
| MdlMesh.ModelMeshParts | Server/maploader.py:216-275 | a loaded model has non-zero skin size, in-range vertices, its first skin's key and the model's flags |
| MdlMesh.UVsDescribed | Server/maploader.py:226-243 | each face corner's uv is its vertex's skin uv, with the seam shift for back faces |
| MdlMesh.FrameDescribed | Server/maploader.py:250-253 | each output vertex of a frame is its model vertex dequantised and swapped, with its normal |
| MdlMesh.ModelDescribed | Server/maploader.py:216-275 | `load_model` numbers the distinct corners first-seen, gives every face its corners' uvs and every frame their positions and normals, keys the first skin and keeps the flags |
| MdlMesh.FramesOfAt | Server/maploader.py:256-263 | animation n holds frame n alone |
| MdlMesh.ExpandedAre | Server/maploader.py:226-243 | what the expand loop built is the specified numbering, sources and uvs |
| MdlMesh.ExpandKnown | Server/maploader.py:230-231 | a known corner keeps the numbering and gives its number |
| MdlMesh.ExpandNew | Server/maploader.py:232-239 | a new corner is numbered next and gets its uv |
| MdlMesh.ExpandCorner | Server/maploader.py:229-240 | one corner is looked up or added, or raises IndexError for a missing vertex |
| MdlMesh.EmitTriangle | Server/maploader.py:228-243 | a triangle's corners are numbered, or IndexError for a missing vertex |
| MdlMesh.NumberedInRange | Server/maploader.py:228-243 | numbered corners name existing vertices |
| MdlMesh.GetFrame | Server/maploader.py:247-254 | the `get_frame` loops compute the specified frame |
| MdlMesh.NotAllInRange | Server/maploader.py:226-243 | a triangle naming a missing vertex makes the whole numbering fail |
| MdlMesh.FramesFail | Server/maploader.py:256-263 | a failing frame fails the frame list |
| MdlMesh.ExpandTriangles | Server/maploader.py:226-243 | the expand loop succeeds iff every corner's vertex exists, and gives the faces, sources and uvs of the first-seen numbering |
| MdlMesh.ReadFrames | Server/maploader.py:256-263 | the frame loop gives the specified frames |
| MdlMesh.LoadModel | Server/maploader.py:216-275 | `load_model` computes the specified mesh, errors included |
| Compaction.FirstSeenStep | Server/maploader.py:124 | `setdefault` numbering: a new key goes to the end, a known one changes nothing |
| Compaction.FirstSeenDistinct | Server/maploader.py:124 | the first-seen order lists each key once, and exactly the keys seen |
| Compaction.FirstSeenPrefix | Server/maploader.py:124 | the order only grows |
| Compaction.NumbersLookup | Server/maploader.py:124 | a key's number is its place in the order |
| Compaction.NumbersSize | Server/maploader.py:124 | the dictionary has one entry per ordered key |
| Compaction.SetDefault | Server/maploader.py:124 | `setdefault(k, len(d))` keeps the dictionary numbering the first-seen order |
| ClientMesh.Fan | Unity/Assets/Scripts/NetworkImporter.cs:342-347 | a polygon of n >= 3 vertices fans into 3(n-2) indices, a smaller one into none |
| ClientMesh.FanTriangle | Unity/Assets/Scripts/NetworkImporter.cs:342-347 | fan triangle i is vertex 0, i+1 and i+2 |
| ClientMesh.ExpectedCovers | Unity/Assets/Scripts/NetworkImporter.cs:325-347 | the fans fill the counted slots exactly iff no face of the texture has fewer than two vertices |
| ClientMesh.MeshOk | Unity/Assets/Scripts/NetworkImporter.cs:317-359 | `ImportMesh` succeeds iff the frame exists, every face's texture is in range and every face has at least two vertices; each texture's triangles are its faces' fans |
| ClientMesh.EmitFan | Unity/Assets/Scripts/NetworkImporter.cs:342-347 | one face's fan is written after the earlier ones, or the index is out of range |
| ClientMesh.CountTriangles | Unity/Assets/Scripts/NetworkImporter.cs:325-329 | the counting loop counts each texture's faces, or fails on an out-of-range texture |
| ClientMesh.AllocateBuffers | Unity/Assets/Scripts/NetworkImporter.cs:331-332 | one fresh, distinct buffer of three slots per counted face, per texture |
| ClientMesh.FillBuffers | Unity/Assets/Scripts/NetworkImporter.cs:334-349 | the fill loop writes each texture's fans, or fails when they overrun |
| ClientMesh.ImportMesh | Unity/Assets/Scripts/NetworkImporter.cs:317-359 | `ImportMesh` computes the specified mesh |
| ClientTexture.Sum | Unity/Assets/Scripts/NetworkImporter.cs:244-246 | a channel sum is at most 255 per pixel |
| ClientTexture.MeanFits | Unity/Assets/Scripts/NetworkImporter.cs:249 | the mean colour fits a byte |
| ClientTexture.Mean | Unity/Assets/Scripts/NetworkImporter.cs:249 | the mean colour has alpha 0 |
| ClientTexture.PixelAt | Unity/Assets/Scripts/NetworkImporter.cs:236-248 | pixel (x, y) is the palette colour of the source byte at that row and column |
| ClientTexture.UniformMean | Unity/Assets/Scripts/NetworkImporter.cs:249 | the mean of a single colour is that colour |
| ClientTexture.ImportRow | Unity/Assets/Scripts/NetworkImporter.cs:238-247 | one row is written after the earlier ones, its sums added, or an index is out of range |
| ClientTexture.ExpandRows | Unity/Assets/Scripts/NetworkImporter.cs:236-248 | the row loop writes every row and the channel sums, or an index is out of range |
| ClientTexture.ImportSingleTexture | Unity/Assets/Scripts/NetworkImporter.cs:230-256 | `ImportSingleTexture` computes the specified texture and mean |
| ClientTexture.SkyHalves | Unity/Assets/Scripts/NetworkImporter.cs:271-288 | the sky splits into right and left halves, each pixel coming from its half of the source |
| ClientTexture.SkyPaletteOf | Unity/Assets/Scripts/NetworkImporter.cs:279-282 | the alpha palette loop is the specified palette |
| ClientTexture.ImportSky | Unity/Assets/Scripts/NetworkImporter.cs:271-288 | the sky branch computes the specified two textures |
| Client.MaterialOf | Unity/Assets/Scripts/NetworkImporter.cs:258-302 | a material is sky exactly for a sky texture and water exactly for a water texture |
| Client.MeshesErrStays | Unity/Assets/Scripts/NetworkImporter.cs:304-315 | a failing frame's error stands for the whole model |
| Client.MaterialsErrStays | Unity/Assets/Scripts/NetworkImporter.cs:304-315 | a missing material's error stands for the whole model |
| Client.OneMeshPerFrame | Unity/Assets/Scripts/NetworkImporter.cs:304-315 | `ImportMeshes` makes one mesh per frame, with that frame's positions and normals |
| Client.MaterialsInOrder | Unity/Assets/Scripts/NetworkImporter.cs:304-315 | the materials are those of the texture names, in order, and fail iff one is missing |
| Client.LoadEntityOf | Unity/Assets/Scripts/NetworkImporter.cs:376-384 | showing a frame succeeds exactly for an existing frame |
| Client.Started | Unity/Assets/Scripts/NetworkImporter.cs:400-404 | the entity's model is importing afterwards and no import is forgotten |
| Client.Shows | Unity/Assets/Scripts/NetworkImporter.cs:405-414 | showing an entity never changes the imports |
| Client.StepStartsOnce | Unity/Assets/Scripts/NetworkImporter.cs:398-415 | one entity keeps every import started at most once |
| Client.ImportsStartOnce | Unity/Assets/Scripts/NetworkImporter.cs:398-415 | the loop starts an import at most once per name, and every entity's model is importing after a loop that did not fail |
| Client.RunImportingGrows | Unity/Assets/Scripts/NetworkImporter.cs:398-415 | the loop never forgets an import |
| Client.RunCongruent | Unity/Assets/Scripts/NetworkImporter.cs:398-415 | models added by imports the loop itself started do not change the loop |
| Client.ShownFromModels | Unity/Assets/Scripts/NetworkImporter.cs:405-414 | every object shown has a mesh and the materials of its imported model, and every rotating one has autorotate set |
| Client.StopsAtFailure | Unity/Assets/Scripts/NetworkImporter.cs:398-415 | at most one object per entity, and the loop stops at the first failure |
| Client.RunStops | Unity/Assets/Scripts/NetworkImporter.cs:398-415 | after a failure the rest of the snapshot changes nothing |
| Client.QModel.constructor | Unity/Assets/Scripts/NetworkImporter.cs:44-57 | a downloaded model has no meshes or materials yet |
| Client.ViewsOf | Unity/Assets/Scripts/NetworkImporter.cs:398-415 | the loop sees one view per imported model |
| Client.ViewsOfAdded | Unity/Assets/Scripts/NetworkImporter.cs:208-228 | importing a model adds its view and leaves the others |
| Client.LoadEntity | Unity/Assets/Scripts/NetworkImporter.cs:376-384 | `LoadEntity` shows the frame's mesh with the model's materials, and fails for a missing frame |
| Client.NetworkImporter.constructor | Unity/Assets/Scripts/NetworkImporter.cs:96-113 | the importer starts with no models, materials, imports or objects |
| Client.NetworkImporter.Views | Unity/Assets/Scripts/NetworkImporter.cs:398-415 | the loop sees one view per imported model |
| Client.NetworkImporter.IsVaryingLightLevel | Unity/Assets/Scripts/NetworkImporter.cs:467-470 | a style from 32 on always varies, a lower one iff its string has more than one letter, and an index past the table fails |
| Client.NetworkImporter.ImportMaterial | Unity/Assets/Scripts/NetworkImporter.cs:258-302 | the material made is the specified one |
| Client.NetworkImporter.ImportTexture | Unity/Assets/Scripts/NetworkImporter.cs:258-302 | a texture is imported once: a known name keeps the materials, a new one adds its material or fails leaving them |
| Client.NetworkImporter.ImportMeshes | Unity/Assets/Scripts/NetworkImporter.cs:304-315 | the model gets its meshes and materials, or the first error |
| Client.NetworkImporter.PaletteFor | Unity/Assets/Scripts/NetworkImporter.cs:216-218 | a model's own palette when it has one; otherwise the world model's, with a KeyError when the world is not imported |
| Client.ImportedTextures | Unity/Assets/Scripts/NetworkImporter.cs:219-221 | the texture loop keeps every existing material; each material it adds is the `MaterialOf` of that name's download through the palette; it succeeds iff every name already has a material or its texture expands, and then every name has one; on failure some name without a material failed with that error |
| Client.NetworkImporter.ImportTextures | Unity/Assets/Scripts/NetworkImporter.cs:219-221 | the loop leaves exactly the materials and the outcome of `ImportedTextures` |
| Client.NetworkImporter.ImportModel | Unity/Assets/Scripts/NetworkImporter.cs:208-228 | a model imported before is left unchanged and only marked finished; a new one is imported through `PaletteFor` (its error stops the import), then `ImportedTextures` (the materials become its result, its failure stops the import with the model unchanged), then `MeshesOf` (its failure stops it with the model unchanged); on success the model holds `MeshesOf` of its frames and `MaterialsOf` of its texture names, and is installed and marked finished; every material added is its download's `MaterialOf` under that palette; on failure no model is installed |
| Client.NetworkImporter.UpdateLightStyles | Unity/Assets/Scripts/NetworkImporter.cs:395-396 | the styles from 32 on are replaced by the snapshot's, the rest kept, or an out-of-range copy fails |
| Client.NetworkImporter.StartImport | Unity/Assets/Scripts/NetworkImporter.cs:400-404 | starting an import follows the specified step; a cached model completes at once, and a model installed by it is the downloaded one, holding `MeshesOf` of its frames and `MaterialsOf` of its texture names |
| Client.NetworkImporter.ImportAtOnce | Unity/Assets/Scripts/NetworkImporter.cs:208-228 | an import whose files are cached either installs the model or stays importing; the installed model is the downloaded one, holding `MeshesOf` of its frames and `MaterialsOf` of its texture names; only that name's view is added |
| Client.NetworkImporter.ShowEntity | Unity/Assets/Scripts/NetworkImporter.cs:405-414 | showing an entity follows the specified step and changes no model |
| Client.NetworkImporter.PlaceEntity | Unity/Assets/Scripts/NetworkImporter.cs:398-415 | one pass of the entity loop is the specified step |
| Client.NetworkImporter.PlaceEntities | Unity/Assets/Scripts/NetworkImporter.cs:398-415 | the entity loop is the specified run, failing iff the run does |
| Client.NetworkImporter.NetworkUpdateData | Unity/Assets/Scripts/NetworkImporter.cs:386-416 | a snapshot clears the objects, updates the light styles, then runs the entity loop; a style overflow stops it first |
| Entities.Masked | Unity/Assets/Scripts/QuakeEntity.cs:54 | only the two solidity bits are kept |
| Entities.FlagsMapping | Unity/Assets/Scripts/QuakeEntity.cs:52-77 | `SOLID_NOT` and `SOLID_TRIGGER` go to the no-block layer, `SOLID_NOT` disables the collider, `SOLID_TRIGGER` makes it a convex trigger |
| Entities.FlagsIdempotent | Unity/Assets/Scripts/QuakeEntity.cs:52-77 | setting the same flags twice is setting them once |
| Entities.DisabledStaysDisabled | Unity/Assets/Scripts/QuakeEntity.cs:59-75 | as written, once disabled the collider stays disabled whatever flags follow |
| Entities.SolidAgainStaysOff | Unity/Assets/Scripts/QuakeEntity.cs:59-75 | as written, `SOLID_NOT` then 0 leaves a solid entity without a collider |
| Entities.IntendedStep | Unity/Assets/Scripts/QuakeEntity.cs:59-75 | the corrected update agrees with the written one except that it re-enables the collider |
| Entities.IntendedCollides | Unity/Assets/Scripts/QuakeEntity.cs:59-75 | with the correction, the collider is enabled exactly when the flags are not `SOLID_NOT`, after any sequence of updates |
| Entities.RocketCarriesLight | Unity/Assets/Scripts/QuakeEntity.cs:38-43 | a model with the rocket flag gets a 200/1.5 light, any other none |
| Entities.QuakeEntity.constructor | Unity/Assets/Scripts/QuakeEntity.cs:9-13 | a new entity has no model, frame -1, no flags and no light |
| Entities.QuakeEntity.Setup | Unity/Assets/Scripts/QuakeEntity.cs:15-19 | `Setup` records the manager and deactivates the object |
| Entities.QuakeEntity.SetDynamicLight | Unity/Assets/Scripts/QuakeEntity.cs:79-87 | the old light is destroyed and the new one is the level's |
| Entities.QuakeEntity.SetModel | Unity/Assets/Scripts/QuakeEntity.cs:26-44 | an unchanged model and frame change nothing; otherwise they are recorded, the object is active iff there is a model, and it is shown with its light |
| Entities.QuakeEntity.SetFlags | Unity/Assets/Scripts/QuakeEntity.cs:52-77 | the layer and collider become the flags' mapping of the old state |

## Left out

- Floats: `FFloat`, `FVec3` and `FVec4` are opaque 4-, 12- and 16-byte fields (`Scalars.ScalarKind`, `Schemas`). They are read and written as bytes, never as IEEE values.
- Geometry: coordinates, normals and uvs are exact reals, not doubles. `BspMesh.Round3` takes `round(u, 3)` on reals, and `Geometry.Dist2` and `Geometry.Exploded` have no rounding error.
- Mdl.Fix: recomputes only the four counts, not `scale` and `scale_origin` from `getbbox` (qdata.py:675-683), because these are floats.
- Mdl.ModelRoundTrip: proved only when the frames span the whole byte range on every axis (`IsFull(FullBox(body))`). Only then is the float re-quantisation of `packv` the identity.
- Mdl: frame vertices are kept as the file's quantised bytes. `MdlMesh.Dequantise` computes `scale_origin + q * scale` where the mesh needs positions.
- MdlMesh.FramesOf: treats every frame as a standalone frame lasting 1.0. As written, maploader.py:257 evaluates `qdata.QFrameGroup`, which qdata.py does not define, so every model with frames raises AttributeError there. Frame groups are not modelled.
- Meshes.TextureKeyOf: the texture key is the (effect, width, height, data) tuple itself, not its md5 hex digest (maploader.py:209-210). Collisions of the digest are not modelled.
- Entities: `SOLID_NOT`, `SOLID_TRIGGER` and `EF_ROCKET` are fixed to 1, 2 and 1. Their definitions are not part of this model.
- PakStreams.AppendNew: the order in which new names are appended is any order, standing for Python 2 dict iteration order.
- Paks.MembersOf: a member of `content` is `Member(cls, data)`, the class and raw bytes. A member whose attributes were changed after decoding would be re-packed by the source; here it is written as its bytes.
- ClientTexture.ImportSingleTexture: C# 32-bit wrap-around is not modelled for `width * height` or for the `rr`/`gg`/`bb` sums. Integers are unbounded.
- ClientMesh.ImportMesh: `countTriangles[t] * 3` does not wrap around at 32 bits.
- Client: coroutines are modelled as a queue of started imports. Downloads, the file cache, JSON, base64 and the WebSocket are left out; a downloaded model or texture arrives as a value in `downloaded`.
- Client.NetworkImporter.StartImport: when every file of the model is cached, the import completes synchronously, as `StartCoroutine` does when `DownloadJson` never yields. A failed synchronous import stays marked as importing and is not queued, assuming Unity logs the exception.
- Client.NetworkImporter.PlaceEntities: that an imported model holds `MeshesOf` of its frames and `MaterialsOf` of its texture names is proved where the model is installed (`ImportModel`, `ImportAtOnce`, `StartImport`), not carried through the entity loop as an invariant over every imported model, so `ShownFromModels` relates a shown mesh to its model's view and not to its frames.
- Client.LoadEntityOf: a model that was never imported gives IndexError here. The source gives KeyNotFound or NullReference at the call site.
- MdlStreams.Model.Unpack: a failed body read leaves the skin, vertex, triangle and frame lists unchanged. The source has by then already reset or appended to them.
- QuakeEntity.cs does not compile against NetworkImporter.cs. It uses `QModel.flags`, `QModel.EF_ROCKET`, a public `LoadEntity`, a static `AnglesToQuaternion` and a 4-argument `AddLight`, none of which NetworkImporter.cs has. The model keeps a `flags` field on `Client.QModel` and a light level on the entity.
- Not modelled, as Unity or I/O operations: `GetQModel`, `SetPositionAngles`, `AnglesToQuaternion`, `AddLight`, `LoadLights`, `GetLightFactor`, `Update`, `DebugShowNormals`, `RemoveOldCachedFiles`, `DownloadJson`, and `GetHelloWorld` beyond the importer's state setup.
- Not modelled, as server glue outside the conversion: `load_palette`, `load_level`, `load_bsp`, `map_angles`, `load_texture` and its `_textures_by_name` memo, `QData.__repr__`, `save`, `force` and `qdata.load`.
- `parse_entities`, `parse_vec3`, `float` of a string and `int` of a string are parameters of `Lights.LoadLight`. The table of 162 vertex normals is a parameter of `MdlMesh`.
- Packing.ReadRowsFrom: an `FArray` element of zero width makes the source loop forever; the model stops with `NoProgress`. No schema here has a zero-width element.
- ClientMesh.MeshOk: `Debug.Assert(face.v.Length >= 3)` is not enforced, as in a release build.

## Findings

| source | as written | input that shows it | evidently intended | confidence | as-written member | corrected member |
|---|---|---|---|---|---|---|
| Server/maploader.py:121 | `bsp.planes[face.plane_id].normal`; the index goes through `QData.__getitem__` (qdata.py:85-86) to `self.list`, whose lazy unpack of the plain `FLump(QData)` record without FIELDS (qdata.py:421) raises AttributeError | any BSP sub-model with at least one face | the plane's normal is read from a decoded planes lump | not executed | BspMesh.PlanesAsWritten, BspMesh.OutlineAsWritten | BspMesh.PlaneNormalDecoded |
| Unity/Assets/Scripts/QuakeEntity.cs:59-75 | `SOLID_NOT` disables the collider, and no branch enables it again | `SetFlags(SOLID_NOT)` then `SetFlags(0)` on a solid entity | a solid entity collides again once `SOLID_NOT` is cleared | not executed | Entities.DisabledStaysDisabled, Entities.SolidAgainStaysOff | Entities.IntendedCollides |
