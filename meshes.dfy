/** The mesh description that Server/maploader.py hands to the client (as JSON): one
    list of vertex positions and normals per animation frame, texture coordinates
    shared by all frames, polygons indexing those lists, and the keys of the
    textures the polygons use. */
module Meshes {
  import opened Bytes
  import opened Results
  import opened Mipmaps
  import opened Geometry

  /** `{'x': u, 'y': v}`. */
  datatype UV = UV(x: real, y: real)

  /** `{'v': [vertex indices], 't': texture number}`. */
  datatype Face = Face(v: seq<int>, t: int)

  /** `{'v': positions, 'n': normals}`, with `'time'` for model frames only. */
  datatype FrameData = FrameData(v: seq<Vec3>, n: seq<Vec3>, time: Option<real>)

  /** The `extra` argument of `_get_texture_key`. */
  datatype Effect = NoEffect | SkyEffect | WaterEffect

  /** What the texture key is computed from: `'%r %d %d %s' % (extra, w, h, data)`.
      The key itself is a digest of that text and is modelled by the tuple, which is
      what the digest is meant to identify. */
  datatype TextureKey = TextureKey(effect: Effect, w: int, h: int, data: seq<byte>)

  /** The dictionary `load_bsp_model` and `load_model` return; `flags` is absent for a
      level. */
  datatype Mesh = Mesh(frames: seq<seq<FrameData>>, uvs: seq<UV>, faces: seq<Face>,
                       texturenames: seq<TextureKey>, flags: Option<int>)

  /** `_get_texture_key(mipmap, extra)`: the key reads the mipmap's palette-indexed
      `data`; a 24-bit mipmap has only `data24`, so asking it for `data` raises. */
  function TextureKeyOf(m: Mipmap, effect: Effect): (r: Result<TextureKey>)
    ensures r.Ok? <==> m.Indexed?
    ensures r.Ok? ==> r.value.w == m.w && r.value.h == m.h && r.value.data == m.data
    ensures r.Ok? ==> r.value.effect == effect
    ensures r.Err? ==> r.error == AttributeError
  {
    if m.Rgb? then Err(AttributeError) else Ok(TextureKey(effect, m.w, m.h, m.data))
  }

  /** Keys of different mipmaps or effects differ: the key names one texture.  This
      holds here by construction, since the key is the tuple itself; for the md5
      digest of the source it is the collision resistance the digest is relied on for. */
  lemma TextureKeyInjective(m1: Mipmap, e1: Effect, m2: Mipmap, e2: Effect)
    requires TextureKeyOf(m1, e1).Ok? && TextureKeyOf(m2, e2).Ok?
    requires TextureKeyOf(m1, e1) == TextureKeyOf(m2, e2)
    ensures m1 == m2 && e1 == e2
  {
  }
}
