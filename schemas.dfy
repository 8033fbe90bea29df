/** The FIELDS lists of the record classes of Server/qdata.py, as layouts for module
    Fields.  Floats and float vectors are opaque 4/12/16-byte fields.  Each layout is
    well laid, so the packing round trip of FieldsRoundTrip.EncodeDecode applies. */
module Schemas {
  import opened Results
  import opened Bytes
  import opened Scalars
  import opened Fields
  import opened FieldsRoundTrip

  const Float := Opaque(4)
  const Vec3 := Opaque(12)
  const Vec4 := Opaque(16)

  /** The bytes of a short ASCII name (signatures such as 'PACK'): each character's
      code, taken modulo 256. */
  function Ascii(s: string): (r: seq<byte>)
    ensures |r| == |s|
    ensures forall i | 0 <= i < |s| :: r[i] as int == s[i] as int % 256
  {
    if s == [] then [] else [(s[0] as int % 256) as byte] + Ascii(s[1..])
  }

  function Scalar1(name: string, k: ScalarKind): (r: Field)
  {
    Field(name, Scalar(k))
  }

  /** QTexture: name, width, height (three bytes), gl_resolution (one byte), then the
      four mip levels as an FOfsArray of fixed length 4. */
  function TextureFields(): (fs: seq<Field>)
    ensures WellLaid(fs) && Tailed(fs)
  {
    [Scalar1("name", CharPtr(16)), Scalar1("width", Int32), Scalar1("height", Int24),
     Scalar1("gl_resolution", Int8), Field("mipmaps", OfsArray(Some(4)))]
  }

  function TexturesFields(): (fs: seq<Field>)
    ensures WellLaid(fs) && Tailed(fs)
  {
    [Field("list", OfsArray(None))]
  }

  /** The scalar fields of one QTexinfo: the s and t vectors, miptex and flags. */
  function TexinfoItem(): (item: seq<ScalarKind>)
    ensures RowWidth(item) == 40
  {
    [Opaque(16), Opaque(16), Int32, Int32]
  }

  /** One QBspFace: plane_id, side, ledge_id, ledge_num, texinfo_id, typelight,
      baselight, light0, light1, lightmap. */
  function BspFaceItem(): (item: seq<ScalarKind>)
    ensures RowWidth(item) == 20
  {
    [UInt16, UInt16, Int32, UInt16, UInt16, UInt8, UInt8, UInt8, UInt8, Int32]
  }

  /** One QBspEdge: vertex0, vertex1. */
  function BspEdgeItem(): (item: seq<ScalarKind>)
    ensures RowWidth(item) == 4
  {
    [UInt16, UInt16]
  }

  /** One QBspModel: three vectors, four node ids, numleafs, face_id, face_num. */
  function BspModelItem(): (item: seq<ScalarKind>)
    ensures RowWidth(item) == 64
  {
    [Opaque(12), Opaque(12), Opaque(12), Int32, Int32, Int32, Int32, Int32, Int32, Int32]
  }

  function ArrayFields(item: seq<ScalarKind>): (fs: seq<Field>)
    ensures WellLaid(fs) && Tailed(fs)
  {
    [Field("list", Array(item))]
  }

  function ListFields(elem: ScalarKind): (fs: seq<Field>)
    ensures WellLaid(fs) && Tailed(fs)
  {
    [Field("list", ArrayOf(elem))]
  }

  /** The lump names of QBsp, in file order, behind the version signature 29. */
  const BspLumps: seq<string> := ["entities", "planes", "textures", "vertexes", "visibility",
    "nodes", "texinfo", "faces", "lighting", "clipnodes", "leafs", "lface", "edges",
    "ledges", "models"]

  /** QBsp: the version, then fifteen (offset, size) lumps aligned to 4. */
  function BspFields(): (fs: seq<Field>)
    ensures |fs| == 16 && fs[0].kind == Scalar(SignatureOfInt(29))
    ensures forall i | 1 <= i < 16 :: fs[i].kind == Lump(4) && fs[i].name == BspLumps[i - 1]
    ensures WellLaid(fs) && !Tailed(fs)
  {
    VersionAndLumps(29, BspLumps)
  }

  /** A version signature followed by one FLump(align 4) per name. */
  function VersionAndLumps(version: int, names: seq<string>): (fs: seq<Field>)
    requires SignedFits(version, 4) && |names| > 0
    ensures |fs| == |names| + 1 && fs[0].kind == Scalar(SignatureOfInt(version))
    ensures forall i | 1 <= i < |fs| :: fs[i].kind == Lump(4) && fs[i].name == names[i - 1]
    ensures WellLaid(fs) && !Tailed(fs)
  {
    var lumps := LumpFields(names);
    var fs := [Field("signature", Scalar(SignatureOfInt(version)))] + lumps;
    assert forall i | 1 <= i < |fs| :: fs[i] == lumps[i - 1];
    fs
  }

  function LumpFields(names: seq<string>): (fs: seq<Field>)
    ensures |fs| == |names|
    ensures forall i | 0 <= i < |names| :: fs[i].kind == Lump(4) && fs[i].name == names[i]
  {
    if names == [] then [] else [Field(names[0], Lump(4))] + LumpFields(names[1..])
  }

  /** The header fields of QMdl that the body depends on. */
  const NumSkins := "numskins_"
  const SkinWidth := "skinwidth"
  const SkinHeight := "skinheight"
  const NumVerts := "numverts_"
  const NumTris := "numtris_"
  const NumFrames := "numframes_"

  /** The names of QMdl's header fields, in file order. */
  const MdlNames: seq<string> := ["signature", "version", "scale", "scale_origin", "boundingradius",
    "eyeposition", NumSkins, SkinWidth, SkinHeight, NumVerts, NumTris, NumFrames,
    "synctype", "flags", "size"]

  /** Their kinds: signature 'IDPO', version 6, the float parts as opaque bytes, the
      counts, synctype ('sync' or 'rand') and flags. */
  const MdlKinds: seq<ScalarKind> := [Signature(Ascii("IDPO")), SignatureOfInt(6), Vec3, Vec3, Float,
    Vec3, Int32, Int32, Int32, Int32, Int32, Int32, Enum([Str(Ascii("sync")), Str(Ascii("rand"))]),
    Int32, Float]

  /** The header of QMdl: scalar fields only, so no lumps and no tail. */
  function MdlFields(): (fs: seq<Field>)
    ensures |fs| == 15 && WellLaid(fs) && NoLumps(fs) && !Tailed(fs)
    ensures forall i | 0 <= i < 15 :: fs[i] == Field(MdlNames[i], Scalar(MdlKinds[i]))
  {
    seq(15, i requires 0 <= i < 15 => Scalar1(MdlNames[i], MdlKinds[i]))
  }

  /** QPakEntry: a 56-byte name, then offset and size: 64 bytes in all. */
  function PakEntryItem(): (item: seq<ScalarKind>)
    ensures RowWidth(item) == 64
  {
    [CharPtr(56), Int32, Int32]
  }

  function PakEntryFields(): (fs: seq<Field>)
    ensures |fs| == 3 && WellLaid(fs) && NoLumps(fs) && !Tailed(fs)
  {
    [Scalar1("name", CharPtr(56)), Scalar1("ofs", Int32), Scalar1("size", Int32)]
  }

  /** QPak's own FIELDS: the signature 'PACK'. */
  function PakFields(): (fs: seq<Field>)
    ensures |fs| == 1 && fs[0].kind == Scalar(Signature(Ascii("PACK")))
  {
    [Scalar1("signature", Signature(Ascii("PACK")))]
  }
}
