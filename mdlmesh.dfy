/** `load_model` of Server/maploader.py: an alias model becomes a mesh whose vertices
    are the distinct (model vertex, faces front) pairs its triangles use, numbered in
    first-seen order (`expanded` and `compressed`), with one position and one normal
    list per animation frame.

    The specification (`ModelMesh`) numbers the corners with Compaction.FirstSeen;
    the method `LoadModel` builds the same mesh step by step with the dictionary and
    lists the source uses. */
module MdlMesh {
  import opened Results
  import opened Bytes
  import opened PyLists
  import opened Mipmaps
  import opened Fields
  import opened Schemas
  import opened Geometry
  import opened Meshes
  import opened Compaction
  import opened Mdl

  /** A key of `expanded`: a model vertex index (as read from the triangle, so possibly
      negative) and whether the triangle faces front. */
  type Key = (int, bool)

  const Flags := "flags"

  /** The three corners of a triangle as keys of `expanded`. */
  function TriKeys(t: Triangle): (r: seq<Key>)
    ensures |r| == 3
  {
    [(t.p1, t.front), (t.p2, t.front), (t.p3, t.front)]
  }

  /** Every corner of every triangle, in the order the source visits them. */
  function Corners(ts: seq<Triangle>): (r: seq<Key>)
    ensures |r| == 3 * |ts|
  {
    if ts == [] then [] else Corners(ts[..|ts| - 1]) + TriKeys(ts[|ts| - 1])
  }

  /** `mdl.vertices[i]` succeeds. */
  predicate InRange<T>(s: seq<T>, i: int)
  {
    -|s| <= i < |s|
  }

  /** `s[i]` for an index Python accepts. */
  function At<T>(s: seq<T>, i: int): (r: T)
    requires InRange(s, i)
  {
    PyIndex(s, i).value
  }

  predicate AllInRange(vs: seq<Vertex>, order: seq<Key>)
  {
    forall m | 0 <= m < |order| :: InRange(vs, order[m].0)
  }

  /** The texture coordinate of a model vertex met on a triangle facing `front`: a seam
      vertex on a back-facing triangle reads the right half of the skin, `skinwidth // 2`
      further on. */
  function SkinUV(v: Vertex, front: bool, sw: int, sh: int): (r: UV)
    requires sw != 0 && sh != 0
    ensures v.onseam && !front ==> r.x == (v.s + sw / 2) as real / sw as real
    ensures !(v.onseam && !front) ==> r.x == v.s as real / sw as real
    ensures r.y == v.t as real / sh as real
  {
    var s := if v.onseam && !front then v.s + sw / 2 else v.s;
    UV(s as real * (1.0 / sw as real), v.t as real * (1.0 / sh as real))
  }

  /** `r_uvs`: one texture coordinate per numbered corner. */
  function UVsOf(vs: seq<Vertex>, order: seq<Key>, sw: int, sh: int): (r: seq<UV>)
    requires sw != 0 && sh != 0 && AllInRange(vs, order)
  {
    seq(|order|, m requires 0 <= m < |order| => SkinUV(At(vs, order[m].0), order[m].1, sw, sh))
  }

  /** `compressed`: the model vertex behind each output vertex. */
  function Sources(order: seq<Key>): (r: seq<int>)
  {
    seq(|order|, m requires 0 <= m < |order| => order[m].0)
  }

  /** The number a corner was given (`expanded[key]`). */
  function Slot(order: seq<Key>, k: Key): (r: nat)
  {
    if k in order then IndexOf(order, k) else |order|
  }

  /** `{'v': r_v, 't': 0}` for one triangle. */
  function FaceOf(t: Triangle, order: seq<Key>): (r: Face)
  {
    var k := TriKeys(t);
    Face([Slot(order, k[0]), Slot(order, k[1]), Slot(order, k[2])], 0)
  }

  function FacesOf(ts: seq<Triangle>, order: seq<Key>): (r: seq<Face>)
  {
    seq(|ts|, i requires 0 <= i < |ts| => FaceOf(ts[i], order))
  }

  /** The position a quantised frame vertex stands for, `scale_origin + q * scale`, as
      QMdl.unpack computes it. */
  function Dequantise(t: Trivert, scale: Vec3, origin: Vec3): (r: Vec3)
  {
    Vec3(origin.x + t.x as real * scale.x, origin.y + t.y as real * scale.y, origin.z + t.z as real * scale.z)
  }

  /** `frame.v[i]` and `Normals[n]` both succeed for a frame vertex. */
  predicate Readable(fr: Frame, i: int, normals: seq<Vec3>)
  {
    InRange(fr.v, i) && At(fr.v, i).light as int < |normals|
  }

  /** `get_frame(frame)`: for each output vertex, the position of its model vertex in
      this frame and the normal its light byte selects, both swapped into the client's
      axes; a standalone frame lasts 1. */
  function FrameOf(fr: Frame, compressed: seq<int>, scale: Vec3, origin: Vec3, normals: seq<Vec3>): (r: Result<FrameData>)
    ensures r.Ok? <==> forall m | 0 <= m < |compressed| :: Readable(fr, compressed[m], normals)
    ensures r.Err? ==> r.error == IndexError
  {
    if forall m | 0 <= m < |compressed| :: Readable(fr, compressed[m], normals) then
      Ok(FrameData(
        seq(|compressed|, m requires 0 <= m < |compressed| && Readable(fr, compressed[m], normals) =>
          MapVertex(Dequantise(At(fr.v, compressed[m]), scale, origin))),
        seq(|compressed|, m requires 0 <= m < |compressed| && Readable(fr, compressed[m], normals) =>
          MapVertex(normals[At(fr.v, compressed[m]).light])),
        Some(1.0)))
    else Err(IndexError)
  }

  /** `r_frames`: each frame as a one-frame animation, the first failing frame raising. */
  function FramesOf(frs: seq<Frame>, compressed: seq<int>, scale: Vec3, origin: Vec3, normals: seq<Vec3>): (r: Result<seq<seq<FrameData>>>)
    ensures r.Ok? ==> |r.value| == |frs|
    ensures r.Err? ==> r.error == IndexError
  {
    if frs == [] then Ok([])
    else
      var done :- FramesOf(frs[..|frs| - 1], compressed, scale, origin, normals);
      var f :- FrameOf(frs[|frs| - 1], compressed, scale, origin, normals);
      Ok(done + [[f]])
  }

  /** The mesh `load_model` returns for a decoded model (header fields `attrs`, body
      `body`), given the header's dequantisation and the table of normals. */
  function ModelMesh(attrs: map<string, Value>, body: Body, scale: Vec3, origin: Vec3, normals: seq<Vec3>): (r: Result<Mesh>)
  {
    var sw := HeaderInt(attrs, SkinWidth);
    var sh := HeaderInt(attrs, SkinHeight);
    if sw == 0 || sh == 0 then Err(ZeroDivision)
    else
      var order := FirstSeen(Corners(body.triangles));
      if !AllInRange(body.vertices, order) then Err(IndexError)
      else
        var frames :- FramesOf(body.frames, Sources(order), scale, origin, normals);
        var skin :- PyIndex(body.skins, 0);
        if skin.w != sw || skin.h != sh then Err(AssertionFailed)
        else
          var key :- TextureKeyOf(skin, NoEffect);
          Ok(Mesh(frames, UVsOf(body.vertices, order, sw, sh), FacesOf(body.triangles, order),
                  [key], Some(HeaderInt(attrs, Flags))))
  }

  // ---------------------------------------------------------------- what the mesh says

  /** Each face corner points at an output vertex carrying that corner's key. */
  ghost predicate FaceShows(f: Face, t: Triangle, order: seq<Key>)
  {
    |f.v| == 3 && f.t == 0 &&
    forall j | 0 <= j < 3 :: 0 <= f.v[j] < |order| && order[f.v[j]] == TriKeys(t)[j]
  }

  ghost predicate FacesShow(fs: seq<Face>, ts: seq<Triangle>, order: seq<Key>)
  {
    |fs| == |ts| && forall i | 0 <= i < |ts| :: FaceShows(fs[i], ts[i], order)
  }

  /** A corner of a triangle is among the corners of the model. */
  lemma {:induction false} CornerIn(ts: seq<Triangle>, i: nat, j: nat)
    requires i < |ts| && j < 3
    ensures TriKeys(ts[i])[j] in Corners(ts)
    decreases |ts|
  {
    var p := ts[..|ts| - 1];
    if i < |ts| - 1 {
      assert p[i] == ts[i];
      CornerIn(p, i, j);
    }
  }

  /** The corners of a prefix of the triangles are a prefix of the corners. */
  lemma {:induction false} CornersPrefix(ts: seq<Triangle>, i: nat)
    requires i < |ts|
    ensures Corners(ts[..i]) + TriKeys(ts[i]) == Corners(ts[..i + 1])
  {
    assert ts[..i + 1][..i] == ts[..i];
  }

  /** In a numbering without repeats, the slot of a numbered key is its position. */
  lemma SlotAt(order: seq<Key>, m: nat)
    requires Distinct(order) && m < |order|
    ensures Slot(order, order[m]) == m
  {
  }

  /** The faces the loop built are the specification's faces. */
  lemma {:induction false} FacesShowAre(fs: seq<Face>, ts: seq<Triangle>, order: seq<Key>)
    requires FacesShow(fs, ts, order) && Distinct(order)
    ensures fs == FacesOf(ts, order)
  {
    forall i | 0 <= i < |ts|
      ensures fs[i] == FaceOf(ts[i], order)
    {
      var f := fs[i];
      forall j | 0 <= j < 3
        ensures f.v[j] == Slot(order, TriKeys(ts[i])[j])
      {
        SlotAt(order, f.v[j]);
      }
    }
  }

  /** The specification's faces point at the corners' numbers. */
  lemma {:induction false} FacesOfShow(ts: seq<Triangle>, order: seq<Key>)
    requires Distinct(order) && forall k :: k in order <==> k in Corners(ts)
    ensures FacesShow(FacesOf(ts, order), ts, order)
  {
    forall i | 0 <= i < |ts|
      ensures FaceShows(FacesOf(ts, order)[i], ts[i], order)
    {
      forall j | 0 <= j < 3
        ensures Slot(order, TriKeys(ts[i])[j]) < |order| && order[Slot(order, TriKeys(ts[i])[j])] == TriKeys(ts[i])[j]
      {
        CornerIn(ts, i, j);
      }
    }
  }

  /** Corner `j` of triangle `t` is drawn with output vertex `idx`, which was numbered
      for that corner's pair and carries the model vertex's texture coordinate. */
  ghost predicate CornerUV(vs: seq<Vertex>, t: Triangle, j: nat, idx: int, order: seq<Key>, uvs: seq<UV>, sw: int, sh: int)
    requires j < 3 && sw != 0 && sh != 0
  {
    0 <= idx < |uvs| && idx < |order| && order[idx] == TriKeys(t)[j] && InRange(vs, TriKeys(t)[j].0) &&
    uvs[idx] == SkinUV(At(vs, TriKeys(t)[j].0), t.front, sw, sh)
  }

  /** Output vertex `idx`, numbered for the pair `k`, sits in frame data `fd` at the
      frame's position and normal of model vertex `k.0`. */
  ghost predicate CornerInFrame(fr: Frame, k: Key, idx: int, fd: FrameData, scale: Vec3, origin: Vec3, normals: seq<Vec3>)
  {
    Readable(fr, k.0, normals) && fd.time == Some(1.0) && 0 <= idx < |fd.v| && idx < |fd.n| &&
    fd.v[idx] == MapVertex(Dequantise(At(fr.v, k.0), scale, origin)) &&
    fd.n[idx] == MapVertex(normals[At(fr.v, k.0).light])
  }

  /** The parts of a mesh `ModelMesh` returns. */
  lemma ModelMeshParts(attrs: map<string, Value>, body: Body, scale: Vec3, origin: Vec3, normals: seq<Vec3>, mesh: Mesh)
    requires ModelMesh(attrs, body, scale, origin, normals) == Ok(mesh)
    ensures var sw, sh := HeaderInt(attrs, SkinWidth), HeaderInt(attrs, SkinHeight);
      var order := FirstSeen(Corners(body.triangles));
      sw != 0 && sh != 0 && AllInRange(body.vertices, order) &&
      FramesOf(body.frames, Sources(order), scale, origin, normals) == Ok(mesh.frames) &&
      mesh.uvs == UVsOf(body.vertices, order, sw, sh) && mesh.faces == FacesOf(body.triangles, order)
    ensures |body.skins| > 0 && mesh.texturenames == [TextureKeyOf(body.skins[0], NoEffect).value]
    ensures mesh.flags == Some(HeaderInt(attrs, Flags))
  {
  }

  /** Every corner of every triangle is drawn with the output vertex of its pair. */
  lemma {:induction false} UVsDescribed(vs: seq<Vertex>, ts: seq<Triangle>, sw: int, sh: int)
    requires sw != 0 && sh != 0 && AllInRange(vs, FirstSeen(Corners(ts)))
    ensures var order := FirstSeen(Corners(ts));
      forall i, j | 0 <= i < |ts| && 0 <= j < 3 ::
        |FacesOf(ts, order)[i].v| == 3 && FacesOf(ts, order)[i].t == 0 &&
        CornerUV(vs, ts[i], j, FacesOf(ts, order)[i].v[j], order, UVsOf(vs, order, sw, sh), sw, sh)
  {
    var order := FirstSeen(Corners(ts));
    FirstSeenDistinct(Corners(ts));
    FacesOfShow(ts, order);
  }

  /** `get_frame` places each output vertex's position and normal at its number. */
  lemma FrameDescribed(fr: Frame, order: seq<Key>, scale: Vec3, origin: Vec3, normals: seq<Vec3>, fd: FrameData)
    requires FrameOf(fr, Sources(order), scale, origin, normals) == Ok(fd)
    ensures |fd.v| == |order| && |fd.n| == |order|
    ensures forall m | 0 <= m < |order| :: CornerInFrame(fr, order[m], m, fd, scale, origin, normals)
  {
    forall m | 0 <= m < |order|
      ensures CornerInFrame(fr, order[m], m, fd, scale, origin, normals)
    {
      assert Sources(order)[m] == order[m].0;
    }
  }

  /** What `load_model` promises about the mesh it returns: there is one output vertex
      per distinct (vertex index, faces front) pair of the triangles; every face has
      three corners and texture 0; each corner of triangle `i` indexes the output vertex
      of its pair, whose texture coordinate is the model vertex's (moved by half the
      skin for a seam vertex of a back-facing triangle); and every frame is a single
      frame of time 1 holding, at that index, the frame's position and normal of that
      model vertex. */
  lemma {:induction false} ModelDescribed(attrs: map<string, Value>, body: Body, scale: Vec3, origin: Vec3,
                                          normals: seq<Vec3>, mesh: Mesh)
    requires ModelMesh(attrs, body, scale, origin, normals) == Ok(mesh)
    ensures var order := FirstSeen(Corners(body.triangles));
      Distinct(order) && (forall k :: k in order <==> k in Corners(body.triangles)) &&
      |mesh.uvs| == |order| && |mesh.faces| == |body.triangles| && |mesh.frames| == |body.frames|
    ensures HeaderInt(attrs, SkinWidth) != 0 && HeaderInt(attrs, SkinHeight) != 0
    ensures forall i, j | 0 <= i < |body.triangles| && 0 <= j < 3 ::
      |mesh.faces[i].v| == 3 && mesh.faces[i].t == 0 &&
      CornerUV(body.vertices, body.triangles[i], j, mesh.faces[i].v[j], FirstSeen(Corners(body.triangles)),
               mesh.uvs, HeaderInt(attrs, SkinWidth), HeaderInt(attrs, SkinHeight))
    ensures forall n, i, j | 0 <= n < |body.frames| && 0 <= i < |body.triangles| && 0 <= j < 3 ::
      |mesh.frames[n]| == 1 &&
      CornerInFrame(body.frames[n], TriKeys(body.triangles[i])[j], mesh.faces[i].v[j], mesh.frames[n][0],
                    scale, origin, normals)
    ensures |body.skins| > 0 && mesh.texturenames == [TextureKeyOf(body.skins[0], NoEffect).value]
    ensures mesh.flags == Some(HeaderInt(attrs, Flags))
  {
    var ts := body.triangles;
    var order := FirstSeen(Corners(ts));
    ModelMeshParts(attrs, body, scale, origin, normals, mesh);
    FirstSeenDistinct(Corners(ts));
    UVsDescribed(body.vertices, ts, HeaderInt(attrs, SkinWidth), HeaderInt(attrs, SkinHeight));
    forall n, i, j | 0 <= n < |body.frames| && 0 <= i < |ts| && 0 <= j < 3
      ensures |mesh.frames[n]| == 1
      ensures CornerInFrame(body.frames[n], TriKeys(ts[i])[j], mesh.faces[i].v[j], mesh.frames[n][0], scale, origin, normals)
    {
      FramesOfAt(body.frames, Sources(order), scale, origin, normals, n);
      FrameDescribed(body.frames[n], order, scale, origin, normals, mesh.frames[n][0]);
      var idx := mesh.faces[i].v[j];
      assert order[idx] == TriKeys(ts[i])[j];
    }
  }

  /** Frame `n` of a successful `r_frames` is `get_frame` of model frame `n`. */
  lemma {:induction false} FramesOfAt(frs: seq<Frame>, compressed: seq<int>, scale: Vec3, origin: Vec3,
                                      normals: seq<Vec3>, n: nat)
    requires FramesOf(frs, compressed, scale, origin, normals).Ok? && n < |frs|
    ensures var r := FramesOf(frs, compressed, scale, origin, normals).value;
      |r[n]| == 1 && FrameOf(frs[n], compressed, scale, origin, normals) == Ok(r[n][0])
    decreases |frs|
  {
    var p := frs[..|frs| - 1];
    if n < |frs| - 1 {
      assert p[n] == frs[n];
      FramesOfAt(p, compressed, scale, origin, normals, n);
    }
  }

  // ---------------------------------------------------------------- the loader

  /** The corners met so far: `expanded` numbers them in first-seen order `order`, and
      `compressed` and `r_uvs` hold each numbered pair's model vertex and texture
      coordinate. */
  ghost predicate Expanded(vs: seq<Vertex>, sw: int, sh: int, expanded: map<Key, nat>, compressed: seq<int>,
                           uvs: seq<UV>, order: seq<Key>)
    requires sw != 0 && sh != 0
  {
    Numbers(expanded, order) && |compressed| == |order| && |uvs| == |order| &&
    forall m | 0 <= m < |order| ::
      InRange(vs, order[m].0) && compressed[m] == order[m].0 &&
      uvs[m] == SkinUV(At(vs, order[m].0), order[m].1, sw, sh)
  }

  /** Once every corner is met, the lists are the specification's. */
  lemma ExpandedAre(vs: seq<Vertex>, sw: int, sh: int, expanded: map<Key, nat>, compressed: seq<int>,
                    uvs: seq<UV>, order: seq<Key>)
    requires sw != 0 && sh != 0 && Expanded(vs, sw, sh, expanded, compressed, uvs, order)
    ensures AllInRange(vs, order) && compressed == Sources(order) && uvs == UVsOf(vs, order, sw, sh)
  {
  }

  /** A pair met before keeps its number and adds nothing. */
  lemma ExpandKnown(vs: seq<Vertex>, sw: int, sh: int, expanded: map<Key, nat>, compressed: seq<int>,
                    uvs: seq<UV>, seen: seq<Key>, key: Key)
    requires sw != 0 && sh != 0 && Expanded(vs, sw, sh, expanded, compressed, uvs, FirstSeen(seen))
    requires key in expanded
    ensures FirstSeen(seen + [key]) == FirstSeen(seen) && InRange(vs, key.0)
    ensures expanded[key] < |FirstSeen(seen)| && FirstSeen(seen)[expanded[key]] == key
  {
    SetDefault(expanded, seen, key);
    NumbersLookup(expanded, FirstSeen(seen), key);
    FirstSeenStep(seen, key);
  }

  /** A pair met for the first time gets the next number, its model vertex and its
      texture coordinate. */
  lemma ExpandNew(vs: seq<Vertex>, sw: int, sh: int, expanded: map<Key, nat>, compressed: seq<int>,
                  uvs: seq<UV>, seen: seq<Key>, key: Key)
    requires sw != 0 && sh != 0 && Expanded(vs, sw, sh, expanded, compressed, uvs, FirstSeen(seen))
    requires key !in expanded && InRange(vs, key.0)
    ensures FirstSeen(seen + [key]) == FirstSeen(seen) + [key]
    ensures Expanded(vs, sw, sh, expanded[key := |compressed|], compressed + [key.0],
                     uvs + [SkinUV(At(vs, key.0), key.1, sw, sh)], FirstSeen(seen + [key]))
  {
    SetDefault(expanded, seen, key);
    FirstSeenStep(seen, key);
    NumbersSize(expanded, FirstSeen(seen));
  }

  /** One corner of the inner loop of `load_model`: the pair is looked up in
      `expanded`, and a pair not met before reads its model vertex (which may raise),
      gets the next number and appends to `compressed` and `r_uvs`. */
  method ExpandCorner(vs: seq<Vertex>, sw: int, sh: int, expanded: map<Key, nat>, compressed: seq<int>,
                      uvs: seq<UV>, ghost seen: seq<Key>, key: Key)
    returns (r: Result<nat>, expanded': map<Key, nat>, compressed': seq<int>, uvs': seq<UV>)
    requires sw != 0 && sh != 0 && Expanded(vs, sw, sh, expanded, compressed, uvs, FirstSeen(seen))
    ensures r.Ok? <==> InRange(vs, key.0)
    ensures r.Err? ==> r.error == IndexError
    ensures r.Ok? ==> Expanded(vs, sw, sh, expanded', compressed', uvs', FirstSeen(seen + [key]))
    ensures r.Ok? ==> FirstSeen(seen) <= FirstSeen(seen + [key])
    ensures r.Ok? ==> r.value < |FirstSeen(seen + [key])| && FirstSeen(seen + [key])[r.value] == key
  {
    if key in expanded {
      ExpandKnown(vs, sw, sh, expanded, compressed, uvs, seen, key);
      return Ok(expanded[key]), expanded, compressed, uvs;
    }
    var v := PyIndex(vs, key.0);
    if v.Err? {
      return Err(IndexError), expanded, compressed, uvs;
    }
    ExpandNew(vs, sw, sh, expanded, compressed, uvs, seen, key);
    var vindex := |compressed|;
    r := Ok(vindex);
    compressed' := compressed + [key.0];
    uvs' := uvs + [SkinUV(v.value, key.1, sw, sh)];
    expanded' := expanded[key := vindex];
  }

  /** `r_v` gives each corner met so far the number of its pair. */
  ghost predicate Numbered(rv: seq<int>, keys: seq<Key>, order: seq<Key>)
  {
    |rv| == |keys| && forall j | 0 <= j < |rv| :: 0 <= rv[j] < |order| && order[rv[j]] == keys[j]
  }

  lemma NumberedGrow(rv: seq<int>, keys: seq<Key>, o1: seq<Key>, o2: seq<Key>, idx: int, key: Key)
    requires Numbered(rv, keys, o1) && o1 <= o2 && 0 <= idx < |o2| && o2[idx] == key
    ensures Numbered(rv + [idx], keys + [key], o2)
  {
    forall j | 0 <= j < |rv|
      ensures o2[rv[j]] == keys[j]
    {
      assert o1[rv[j]] == o2[rv[j]];
    }
  }

  /** The inner loop of `load_model`: the three corners of one triangle. */
  method EmitTriangle(vs: seq<Vertex>, sw: int, sh: int, expanded: map<Key, nat>, compressed: seq<int>,
                      uvs: seq<UV>, ghost seen: seq<Key>, keys: seq<Key>)
    returns (r: Result<seq<int>>, expanded': map<Key, nat>, compressed': seq<int>, uvs': seq<UV>)
    requires sw != 0 && sh != 0 && Expanded(vs, sw, sh, expanded, compressed, uvs, FirstSeen(seen))
    ensures r.Ok? <==> forall j | 0 <= j < |keys| :: InRange(vs, keys[j].0)
    ensures r.Err? ==> r.error == IndexError
    ensures r.Ok? ==> Expanded(vs, sw, sh, expanded', compressed', uvs', FirstSeen(seen + keys))
    ensures r.Ok? ==> FirstSeen(seen) <= FirstSeen(seen + keys)
    ensures r.Ok? ==> Numbered(r.value, keys, FirstSeen(seen + keys))
  {
    expanded', compressed', uvs' := expanded, compressed, uvs;
    var rv: seq<int> := [];
    var j := 0;
    ghost var sj := seen;
    assert seen + keys[..0] == seen;
    while j < |keys|
      invariant 0 <= j <= |keys| && sj == seen + keys[..j]
      invariant Expanded(vs, sw, sh, expanded', compressed', uvs', FirstSeen(sj))
      invariant FirstSeen(seen) <= FirstSeen(sj)
      invariant Numbered(rv, keys[..j], FirstSeen(sj))
    {
      var vindex;
      vindex, expanded', compressed', uvs' := ExpandCorner(vs, sw, sh, expanded', compressed', uvs', sj, keys[j]);
      if vindex.Err? {
        return Err(IndexError), expanded', compressed', uvs';
      }
      NumberedGrow(rv, keys[..j], FirstSeen(sj), FirstSeen(sj + [keys[j]]), vindex.value, keys[j]);
      PrefixTrans(FirstSeen(seen), FirstSeen(sj), FirstSeen(sj + [keys[j]]));
      TakeOneMore(seen, keys, j);
      rv := rv + [vindex.value];
      sj := sj + [keys[j]];
      j := j + 1;
    }
    assert keys[..j] == keys;
    NumberedInRange(vs, sw, sh, expanded', compressed', uvs', rv, keys, FirstSeen(sj));
    r := Ok(rv);
  }

  /** Corners that were given a number had their model vertex read. */
  lemma NumberedInRange(vs: seq<Vertex>, sw: int, sh: int, expanded: map<Key, nat>, compressed: seq<int>,
                        uvs: seq<UV>, rv: seq<int>, keys: seq<Key>, order: seq<Key>)
    requires sw != 0 && sh != 0 && Expanded(vs, sw, sh, expanded, compressed, uvs, order)
    requires Numbered(rv, keys, order)
    ensures forall j | 0 <= j < |keys| :: InRange(vs, keys[j].0)
  {
    forall j | 0 <= j < |keys|
      ensures InRange(vs, keys[j].0)
    {
      assert order[rv[j]] == keys[j];
    }
  }

  lemma NumberedFace(rv: seq<int>, tri: Triangle, order: seq<Key>)
    requires Numbered(rv, TriKeys(tri), order)
    ensures FaceShows(Face(rv, 0), tri, order)
  {
  }

  /** `get_frame(frame)`, looping over `compressed`. */
  method GetFrame(fr: Frame, compressed: seq<int>, scale: Vec3, origin: Vec3, normals: seq<Vec3>)
    returns (r: Result<FrameData>)
    ensures r == FrameOf(fr, compressed, scale, origin, normals)
  {
    var vertices: seq<Vec3> := [];
    var ns: seq<Vec3> := [];
    var m := 0;
    while m < |compressed|
      invariant 0 <= m <= |compressed| && |vertices| == m && |ns| == m
      invariant forall m' | 0 <= m' < m ::
        && Readable(fr, compressed[m'], normals)
        && vertices[m'] == MapVertex(Dequantise(At(fr.v, compressed[m']), scale, origin))
        && ns[m'] == MapVertex(normals[At(fr.v, compressed[m']).light])
    {
      var t :- PyIndex(fr.v, compressed[m]);
      var n :- PyIndex(normals, t.light as int);
      vertices := vertices + [MapVertex(Dequantise(t, scale, origin))];
      ns := ns + [MapVertex(n)];
      m := m + 1;
    }
    r := Ok(FrameData(vertices, ns, Some(1.0)));
    assert FrameOf(fr, compressed, scale, origin, normals).Ok?;
    assert FrameOf(fr, compressed, scale, origin, normals).value.v == vertices;
    assert FrameOf(fr, compressed, scale, origin, normals).value.n == ns;
  }

  /** A corner that cannot be read makes the whole model fail to load. */
  lemma NotAllInRange(vs: seq<Vertex>, ts: seq<Triangle>, i: nat, j: nat)
    requires i < |ts| && j < 3 && !InRange(vs, TriKeys(ts[i])[j].0)
    ensures !AllInRange(vs, FirstSeen(Corners(ts)))
  {
    CornerIn(ts, i, j);
    FirstSeenDistinct(Corners(ts));
    var order := FirstSeen(Corners(ts));
    var m :| 0 <= m < |order| && order[m] == TriKeys(ts[i])[j];
  }

  /** A frame that cannot be read makes `r_frames` fail. */
  lemma FramesFail(frs: seq<Frame>, compressed: seq<int>, scale: Vec3, origin: Vec3, normals: seq<Vec3>, n: nat)
    requires n < |frs| && FrameOf(frs[n], compressed, scale, origin, normals).Err?
    ensures FramesOf(frs, compressed, scale, origin, normals) == Err(IndexError)
  {
    if FramesOf(frs, compressed, scale, origin, normals).Ok? {
      FramesOfAt(frs, compressed, scale, origin, normals, n);
    }
  }

  /** One more frame read onto `r_frames`. */
  lemma FramesSnoc(frs: seq<Frame>, compressed: seq<int>, scale: Vec3, origin: Vec3, normals: seq<Vec3>, n: nat)
    requires n < |frs|
    ensures FramesOf(frs[..n + 1], compressed, scale, origin, normals) ==
      (var done :- FramesOf(frs[..n], compressed, scale, origin, normals);
       var f :- FrameOf(frs[n], compressed, scale, origin, normals);
       Ok(done + [[f]]))
  {
    assert frs[..n + 1][..n] == frs[..n];
  }

  /** The triangle loop of `load_model`: `compressed`, `r_uvs` and `r_faces`, or the
      IndexError of the first corner whose model vertex is missing. */
  method ExpandTriangles(vs: seq<Vertex>, sw: int, sh: int, ts: seq<Triangle>)
    returns (r: Result<seq<Face>>, compressed: seq<int>, uvs: seq<UV>)
    requires sw != 0 && sh != 0
    ensures var order := FirstSeen(Corners(ts));
      r.Ok? <==> AllInRange(vs, order)
    ensures r.Err? ==> r.error == IndexError
    ensures var order := FirstSeen(Corners(ts));
      r.Ok? ==> AllInRange(vs, order) && r.value == FacesOf(ts, order) &&
                compressed == Sources(order) && uvs == UVsOf(vs, order, sw, sh)
  {
    var expanded: map<Key, nat> := map[];
    compressed, uvs := [], [];
    var faces: seq<Face> := [];
    var i := 0;
    ghost var seen: seq<Key> := [];
    assert ts[..0] == [];
    while i < |ts|
      invariant 0 <= i <= |ts| && seen == Corners(ts[..i])
      invariant Expanded(vs, sw, sh, expanded, compressed, uvs, FirstSeen(seen))
      invariant FacesShow(faces, ts[..i], FirstSeen(seen))
    {
      var rv;
      rv, expanded, compressed, uvs := EmitTriangle(vs, sw, sh, expanded, compressed, uvs, seen, TriKeys(ts[i]));
      if rv.Err? {
        var j :| 0 <= j < 3 && !InRange(vs, TriKeys(ts[i])[j].0);
        NotAllInRange(vs, ts, i, j);
        return Err(IndexError), compressed, uvs;
      }
      ghost var seen' := seen + TriKeys(ts[i]);
      NumberedFace(rv.value, ts[i], FirstSeen(seen'));
      FacesShowGrow(faces, ts[..i], FirstSeen(seen), FirstSeen(seen'), Face(rv.value, 0), ts[i]);
      CornersPrefix(ts, i);
      TakeOneMore([], ts, i);
      faces := faces + [Face(rv.value, 0)];
      seen := seen';
      i := i + 1;
    }
    assert ts[..i] == ts;
    ghost var order := FirstSeen(Corners(ts));
    ExpandedAre(vs, sw, sh, expanded, compressed, uvs, order);
    FirstSeenDistinct(Corners(ts));
    FacesShowAre(faces, ts, order);
    r := Ok(faces);
  }

  /** The frame loop of `load_model`: `r_frames`. */
  method ReadFrames(frs: seq<Frame>, compressed: seq<int>, scale: Vec3, origin: Vec3, normals: seq<Vec3>)
    returns (r: Result<seq<seq<FrameData>>>)
    ensures r == FramesOf(frs, compressed, scale, origin, normals)
  {
    var frames: seq<seq<FrameData>> := [];
    var n := 0;
    while n < |frs|
      invariant 0 <= n <= |frs|
      invariant FramesOf(frs[..n], compressed, scale, origin, normals) == Ok(frames)
    {
      var fd := GetFrame(frs[n], compressed, scale, origin, normals);
      FramesSnoc(frs, compressed, scale, origin, normals, n);
      if fd.Err? {
        FramesFail(frs, compressed, scale, origin, normals, n);
        return Err(IndexError);
      }
      frames := frames + [[fd.value]];
      n := n + 1;
    }
    assert frs[..n] == frs;
    return Ok(frames);
  }

  /** `load_model(modelname)` for the decoded model `attrs`/`body`. */
  method LoadModel(attrs: map<string, Value>, body: Body, scale: Vec3, origin: Vec3, normals: seq<Vec3>)
    returns (r: Result<Mesh>)
    ensures r == ModelMesh(attrs, body, scale, origin, normals)
  {
    var sw := HeaderInt(attrs, SkinWidth);
    var sh := HeaderInt(attrs, SkinHeight);
    if sw == 0 || sh == 0 {
      return Err(ZeroDivision);
    }
    var faces, compressed, uvs := ExpandTriangles(body.vertices, sw, sh, body.triangles);
    if faces.Err? {
      return Err(IndexError);
    }
    var frames :- ReadFrames(body.frames, compressed, scale, origin, normals);
    var skin :- PyIndex(body.skins, 0);
    if skin.w != sw || skin.h != sh {
      return Err(AssertionFailed);
    }
    var key :- TextureKeyOf(skin, NoEffect);
    return Ok(Mesh(frames, uvs, faces.value, [key], Some(HeaderInt(attrs, Flags))));
  }

  /** Faces already built keep pointing at the right numbers as the numbering grows. */
  lemma FacesShowGrow(fs: seq<Face>, ts: seq<Triangle>, o1: seq<Key>, o2: seq<Key>, f: Face, t: Triangle)
    requires FacesShow(fs, ts, o1) && o1 <= o2 && FaceShows(f, t, o2)
    ensures FacesShow(fs + [f], ts + [t], o2)
  {
    forall i | 0 <= i < |ts|
      ensures FaceShows(fs[i], ts[i], o2)
    {
      assert forall j | 0 <= j < 3 :: fs[i].v[j] < |o1| && o2[fs[i].v[j]] == o1[fs[i].v[j]];
    }
    assert (fs + [f])[|fs|] == f;
  }
}
