/** What `load_bsp_model` of Server/maploader.py computes, stated as functions of the
    decoded level: each face of the chosen sub-model becomes a list of polygons (the
    face itself, or small triangles for a sky face), every polygon corner carries its
    position, the face's normal and its texture coordinates, and the textures used are
    numbered in the order they are first met.  Module BspLoad builds the same result
    step by step, as the source does. */
module BspMesh {
  import opened Results
  import opened Bytes
  import opened PyLists
  import opened Mipmaps
  import opened Records
  import Schemas
  import opened Geometry
  import opened Meshes
  import opened Compaction

  // ---------------------------------------------------------------- the level

  /** QBspEdge. */
  datatype Edge = Edge(vertex0: int, vertex1: int)

  /** A texture axis `(x, y, z, offset)`. */
  datatype Vec4 = Vec4(x: real, y: real, z: real, w: real)

  /** QTexinfo: the two texture axes and the texture number (`flags` is not used). */
  datatype TexInfo = TexInfo(s: Vec4, t: Vec4, miptex: int)

  /** QTexture: name, size, and the bytes of its first mip level, which are decoded
      against the texture's size when the level is first looked at. */
  datatype Texture = Texture(name: seq<byte>, width: int, height: int, mip0: seq<byte>)

  /** QBspFace, the fields the loader reads. */
  datatype BspFace = BspFace(planeId: int, side: int, ledgeId: int, ledgeNum: nat, texinfoId: int)

  /** QBspModel: the sub-model's run of faces. */
  datatype BspModel = BspModel(faceId: int, faceNum: int)

  /** The planes lump.  The level file gives it as a plain record of bytes
      (`Undecoded`); `Normals` is the list of plane normals the loader needs. */
  datatype Planes = Undecoded(raw: seq<byte>) | Normals(normals: seq<Vec3>)

  /** The lumps of QBsp that the loader reads, each as the `list` of its record. */
  datatype Bsp = Bsp(vertexes: seq<Vec3>, edges: seq<Edge>, ledges: seq<int>,
                     faces: seq<BspFace>, texinfo: seq<TexInfo>, textures: seq<Texture>,
                     planes: Planes)

  // ---------------------------------------------------------------- edge loops

  function Abs(x: int): (r: nat)
  {
    if x < 0 then -x else x
  }

  /** Entry `lindex` of the edge list, as (start, end): a negative entry names edge
      `-e` walked backwards. */
  function OrientedEdge(bsp: Bsp, lindex: int): (r: Result<(int, int)>)
  {
    var e :- PyIndex(bsp.ledges, lindex);
    var edge :- PyIndex(bsp.edges, Abs(e));
    if e < 0 then Ok((edge.vertex1, edge.vertex0)) else Ok((edge.vertex0, edge.vertex1))
  }

  /** `(vlist0, vlist1)` after the first `k` entries of the face's edge list. */
  function Ends(bsp: Bsp, first: int, k: nat): (r: Result<(seq<int>, seq<int>)>)
  {
    if k == 0 then Ok(([], []))
    else
      var p :- Ends(bsp, first, k - 1);
      var e :- OrientedEdge(bsp, first + k - 1);
      Ok((p.0 + [e.0], p.1 + [e.1]))
  }

  /** `s[1:] + s[:1]`. */
  function Rotate<T>(s: seq<T>): (r: seq<T>)
  {
    if s == [] then [] else s[1..] + s[..1]
  }

  /** The position after `i` in a cycle of `n`. */
  function Next(i: nat, n: nat): (r: nat)
    requires i < n
  {
    if i + 1 == n then 0 else i + 1
  }

  /** The face's corners as vertex numbers: the starts of its edges, which must form
      a closed loop (each edge ends where the next one starts, the last where the
      first starts). */
  function VertexLoop(bsp: Bsp, face: BspFace): (r: Result<seq<int>>)
  {
    var ends :- Ends(bsp, face.ledgeId, face.ledgeNum);
    if Rotate(ends.0) != ends.1 then Err(AssertionFailed) else Ok(ends.0)
  }

  /** Entry `first + i` of the edge list is the edge from `a[i]` to `b[i]`, for each i. */
  ghost predicate Runs(bsp: Bsp, first: int, a: seq<int>, b: seq<int>)
    requires |a| == |b|
  {
    forall i | 0 <= i < |a| :: OrientedEdge(bsp, first + i) == Ok((a[i], b[i]))
  }

  /** The edge lists read so far are exactly the oriented edges, in order. */
  lemma EndsOf(bsp: Bsp, first: int, k: nat, a: seq<int>, b: seq<int>)
    ensures Ends(bsp, first, k) == Ok((a, b)) <==> (|a| == k && |b| == k && Runs(bsp, first, a, b))
  {
    if Ends(bsp, first, k) == Ok((a, b)) {
      EndsRun(bsp, first, k);
    }
    if |a| == k && |b| == k && Runs(bsp, first, a, b) {
      RunsEnd(bsp, first, a, b);
    }
  }

  /** Lists that were read are the oriented edges. */
  lemma {:induction false} EndsRun(bsp: Bsp, first: int, k: nat)
    ensures Ends(bsp, first, k).Ok? ==>
              var v := Ends(bsp, first, k).value;
              |v.0| == k && |v.1| == k && Runs(bsp, first, v.0, v.1)
  {
    if k > 0 && Ends(bsp, first, k).Ok? {
      EndsRun(bsp, first, k - 1);
      var p := Ends(bsp, first, k - 1).value;
      var v := Ends(bsp, first, k).value;
      forall i | 0 <= i < k
        ensures OrientedEdge(bsp, first + i) == Ok((v.0[i], v.1[i]))
      {
        if i < k - 1 {
          assert v.0[i] == p.0[i] && v.1[i] == p.1[i];
        }
      }
    }
  }

  /** The oriented edges are read as they are. */
  lemma {:induction false} RunsEnd(bsp: Bsp, first: int, a: seq<int>, b: seq<int>)
    requires |a| == |b| && Runs(bsp, first, a, b)
    ensures Ends(bsp, first, |a|) == Ok((a, b))
  {
    if a != [] {
      var k := |a|;
      var a', b' := a[..k - 1], b[..k - 1];
      assert Runs(bsp, first, a', b') by {
        forall i | 0 <= i < k - 1
          ensures OrientedEdge(bsp, first + i) == Ok((a'[i], b'[i]))
        {
          assert OrientedEdge(bsp, first + i) == Ok((a[i], b[i]));
        }
      }
      RunsEnd(bsp, first, a', b');
      var e := (a[k - 1], b[k - 1]);
      assert OrientedEdge(bsp, first + k - 1) == Ok(e);
      assert Ends(bsp, first, k) == Ok((a' + [e.0], b' + [e.1]));
      assert a == a' + [e.0] && b == b' + [e.1];
    }
  }

  /** The edge loop of a face is accepted exactly when its oriented edges chain
      around: edge i runs from corner i to corner i + 1, the last back to the first. */
  lemma {:induction false} VertexLoopClosed(bsp: Bsp, face: BspFace, vs: seq<int>)
    ensures VertexLoop(bsp, face) == Ok(vs) <==>
      (|vs| == face.ledgeNum &&
       forall i | 0 <= i < |vs| :: OrientedEdge(bsp, face.ledgeId + i) == Ok((vs[i], vs[Next(i, |vs|)])))
  {
    if VertexLoop(bsp, face) == Ok(vs) {
      LoopChains(bsp, face, vs);
    }
    if |vs| == face.ledgeNum && Chains(bsp, face.ledgeId, vs) {
      ChainsLoop(bsp, face, vs);
    }
  }

  /** Edge i of the list runs from corner i to the next corner of the cycle. */
  ghost predicate Chains(bsp: Bsp, first: int, vs: seq<int>)
  {
    forall i | 0 <= i < |vs| :: OrientedEdge(bsp, first + i) == Ok((vs[i], vs[Next(i, |vs|)]))
  }

  lemma LoopChains(bsp: Bsp, face: BspFace, vs: seq<int>)
    requires VertexLoop(bsp, face) == Ok(vs)
    ensures |vs| == face.ledgeNum && Chains(bsp, face.ledgeId, vs)
  {
    var ends := Ends(bsp, face.ledgeId, face.ledgeNum);
    assert ends.Ok? && ends.value.0 == vs && ends.value.1 == Rotate(vs);
    assert ends == Ok((vs, Rotate(vs)));
    EndsOf(bsp, face.ledgeId, face.ledgeNum, vs, Rotate(vs));
    RotatedChains(bsp, face.ledgeId, vs);
  }

  lemma RotatedChains(bsp: Bsp, first: int, vs: seq<int>)
    requires |Rotate(vs)| == |vs| && Runs(bsp, first, vs, Rotate(vs))
    ensures Chains(bsp, first, vs)
  {
    RotateNext(vs);
  }

  lemma ChainsLoop(bsp: Bsp, face: BspFace, vs: seq<int>)
    requires |vs| == face.ledgeNum && Chains(bsp, face.ledgeId, vs)
    ensures VertexLoop(bsp, face) == Ok(vs)
  {
    RotateNext(vs);
    assert Runs(bsp, face.ledgeId, vs, Rotate(vs));
    EndsOf(bsp, face.ledgeId, face.ledgeNum, vs, Rotate(vs));
  }

  /** Rotating puts the next element of the cycle at each position. */
  lemma RotateNext<T>(vs: seq<T>)
    ensures |Rotate(vs)| == |vs|
    ensures forall i | 0 <= i < |vs| :: Rotate(vs)[i] == vs[Next(i, |vs|)]
  {
    var n := |vs|;
    forall i | 0 <= i < n
      ensures Rotate(vs)[i] == vs[Next(i, n)]
    {
      if i + 1 < n {
        assert Rotate(vs)[i] == vs[1..][i];
      }
    }
  }

  // ---------------------------------------------------------------- corners

  /** `[vertexes[vindex] for vindex in vlist0]`. */
  function Points(vertexes: seq<Vec3>, ids: seq<int>): (r: Result<seq<Vec3>>)
    decreases |ids|
  {
    if ids == [] then Ok([])
    else
      var p :- Points(vertexes, ids[..|ids| - 1]);
      var v :- PyIndex(vertexes, ids[|ids| - 1]);
      Ok(p + [v])
  }

  /** The points are the vertices the numbers name, one per number. */
  lemma {:induction false} PointsAt(vertexes: seq<Vec3>, ids: seq<int>)
    requires Points(vertexes, ids).Ok?
    ensures |Points(vertexes, ids).value| == |ids|
    ensures forall i | 0 <= i < |ids| :: PyIndex(vertexes, ids[i]) == Ok(Points(vertexes, ids).value[i])
    decreases |ids|
  {
    if ids != [] {
      PointsAt(vertexes, ids[..|ids| - 1]);
    }
  }

  /** A texture whose name starts with `sky`. */
  predicate IsSky(name: seq<byte>)
  {
    |name| >= 3 && name[..3] == Schemas.Ascii("sky")
  }

  /** A liquid texture: its name starts with `*`. */
  predicate IsLiquid(name: seq<byte>)
  {
    |name| >= 1 && name[0] == 42
  }

  /** The `extra` tag of a texture: sky, water, or none, decided in that order. */
  function EffectOf(name: seq<byte>): (r: Effect)
    ensures r == SkyEffect <==> IsSky(name)
    ensures r == WaterEffect <==> !IsSky(name) && IsLiquid(name)
  {
    if IsSky(name) then SkyEffect else if IsLiquid(name) then WaterEffect else NoEffect
  }

  /** What the subdivision appends for each of the triangles, in turn. */
  function ExplodedAll(ts: seq<Tri>): (r: seq<Tri>)
    decreases |ts|
  {
    if ts == [] then [] else ExplodedAll(ts[..|ts| - 1]) + Exploded(ts[|ts| - 1])
  }

  function TriPoints(t: Tri): (r: seq<Vec3>)
  {
    [t.a, t.b, t.c]
  }

  /** A sky face: the fan around its centre, each triangle subdivided until small. */
  function SkyPolygons(pts: seq<Vec3>): (r: Result<seq<seq<Vec3>>>)
  {
    if pts == [] then Err(ZeroDivision)
    else
      var ts := ExplodedAll(Fan(pts));
      Ok(seq(|ts|, i requires 0 <= i < |ts| => TriPoints(ts[i])))
  }

  lemma {:induction false} ExplodedAllSmall(ts: seq<Tri>)
    ensures forall u | u in ExplodedAll(ts) :: Small(u)
    decreases |ts|
  {
    if ts != [] {
      var p := ts[..|ts| - 1];
      ExplodedAllSmall(p);
      ExplodedSmall(ts[|ts| - 1]);
      forall u | u in ExplodedAll(ts)
        ensures Small(u)
      {
        assert u in ExplodedAll(p) || u in Exploded(ts[|ts| - 1]);
      }
    }
  }

  /** Every polygon of a sky face is a triangle with no edge over the limit. */
  lemma SkyPolygonsSmall(pts: seq<Vec3>)
    requires pts != []
    ensures forall p | p in SkyPolygons(pts).value :: |p| == 3 && Small(Tri(p[0], p[1], p[2]))
  {
    var ts := ExplodedAll(Fan(pts));
    ExplodedAllSmall(Fan(pts));
    forall p | p in SkyPolygons(pts).value
      ensures |p| == 3 && Small(Tri(p[0], p[1], p[2]))
    {
      var i :| 0 <= i < |ts| && SkyPolygons(pts).value[i] == p;
      assert ts[i] in ts;
    }
  }

  /** A polygon corner: the point, the face's normal, and `(s * i_width, t * i_height)`. */
  datatype Corner = Corner(pos: Vec3, normal: Vec3, u: real, v: real)

  /** `v . axis + offset`. */
  function Dot(v: Vec3, a: Vec4): (r: real)
  {
    v.x * a.x + v.y * a.y + v.z * a.z + a.w
  }

  /** The corner of point `v`: its texture coordinates are the projections on the
      texture axes, scaled by the inverse texture size. */
  function CornerAt(v: Vec3, normal: Vec3, ti: TexInfo, iw: real, ih: real): (r: Corner)
  {
    Corner(v, normal, Dot(v, ti.s) * iw, Dot(v, ti.t) * ih)
  }

  function CornersOf(vlist: seq<Vec3>, normal: Vec3, ti: TexInfo, iw: real, ih: real): (r: seq<Corner>)
    ensures |r| == |vlist|
  {
    seq(|vlist|, k requires 0 <= k < |vlist| => CornerAt(vlist[k], normal, ti, iw, ih))
  }

  /** The normal of plane `id`.  The planes lump is read as a plain record, whose
      class has no FIELDS: asking it for its `list` raises AttributeError before any
      plane is found (PlanesAsWritten derives this from the record model).  With the
      normals decoded, the lookup is a list index. */
  function PlaneNormal(planes: Planes, id: int): (r: Result<Vec3>)
  {
    match planes
    case Undecoded(_) => Err(AttributeError)
    case Normals(ns) => PyIndex(ns, id)
  }

  /** What a face contributes once its lookups succeed: its texture number, its
      polygons as point lists, and what the corners are computed from. */
  datatype FacePlan = FacePlan(texid: int, vlists: seq<seq<Vec3>>, normal: Vec3, ti: TexInfo, iw: real, ih: real)

  /** The first lookups of a face, in the source's order: its corner loop, its
      texture axes, its texture, its points and, for a sky, the split. */
  function FaceStart(bsp: Bsp, face: BspFace): (r: Result<(TexInfo, Texture, seq<seq<Vec3>>)>)
  {
    var vlist0 :- VertexLoop(bsp, face);
    var ti :- PyIndex(bsp.texinfo, face.texinfoId);
    var tex :- PyIndex(bsp.textures, ti.miptex);
    var pts :- Points(bsp.vertexes, vlist0);
    var vlists :- if IsSky(tex.name) then SkyPolygons(pts) else Ok([pts]);
    Ok((ti, tex, vlists))
  }

  /** One face: the first lookups, then the texture size and the plane. */
  function FacePlanOf(bsp: Bsp, face: BspFace): (r: Result<FacePlan>)
  {
    var start :- FaceStart(bsp, face);
    var ti, tex, vlists := start.0, start.1, start.2;
    if tex.width == 0 || tex.height == 0 then Err(ZeroDivision)
    else
      var n :- PlaneNormal(bsp.planes, face.planeId);
      var side := if face.side == 0 then 1.0 else -1.0;
      Ok(FacePlan(ti.miptex, vlists, Vec3(side * n.x, side * n.y, side * n.z), ti,
                  1.0 / tex.width as real, 1.0 / tex.height as real))
  }

  /** A face is emitted as its own corner loop unless its texture is a sky, whose
      polygons are small triangles; the normal is the plane's, reversed for side 1. */
  lemma FacePlanShape(bsp: Bsp, face: BspFace)
    requires FacePlanOf(bsp, face).Ok?
    ensures var p := FacePlanOf(bsp, face).value;
      var ti := PyIndex(bsp.texinfo, face.texinfoId).value;
      var tex := PyIndex(bsp.textures, ti.miptex).value;
      var pts := Points(bsp.vertexes, VertexLoop(bsp, face).value).value;
      var n := PlaneNormal(bsp.planes, face.planeId).value;
      p.texid == ti.miptex && tex.width != 0 && tex.height != 0 &&
      (!IsSky(tex.name) ==> p.vlists == [pts]) &&
      (IsSky(tex.name) ==> forall q | q in p.vlists :: |q| == 3 && Small(Tri(q[0], q[1], q[2]))) &&
      p.normal == (if face.side == 0 then n else Vec3(-n.x, -n.y, -n.z))
  {
    var ti := PyIndex(bsp.texinfo, face.texinfoId).value;
    var tex := PyIndex(bsp.textures, ti.miptex).value;
    var pts := Points(bsp.vertexes, VertexLoop(bsp, face).value).value;
    if IsSky(tex.name) {
      SkyPolygonsSmall(pts);
    }
  }

  /** The faces of the level a sub-model owns: `faces[face_id : face_id + face_num]`. */
  function ModelFaces(bsp: Bsp, model: BspModel): (r: seq<BspFace>)
  {
    PySlice(bsp.faces, model.faceId, model.faceId + model.faceNum)
  }

  function FacesOf(bsp: Bsp, faces: seq<BspFace>): (r: Result<seq<FacePlan>>)
    decreases |faces|
  {
    if faces == [] then Ok([])
    else
      var p :- FacePlanOf(bsp, faces[0]);
      var rest :- FacesOf(bsp, faces[1..]);
      Ok([p] + rest)
  }

  /** The plans of faces done so far put in front of the outcome for the rest. */
  function Prepend<T>(done: seq<T>, rest: Result<seq<T>>): (r: Result<seq<T>>)
  {
    if rest.Err? then rest else Ok(done + rest.value)
  }

  lemma PrependNothing<T>(rest: Result<seq<T>>)
    ensures Prepend([], rest) == rest
  {
    if rest.Ok? {
      assert [] + rest.value == rest.value;
    }
  }

  function TexIds(ps: seq<FacePlan>): (r: seq<int>)
    ensures |r| == |ps|
    ensures forall i | 0 <= i < |ps| :: r[i] == ps[i].texid
  {
    seq(|ps|, i requires 0 <= i < |ps| => ps[i].texid)
  }

  // ---------------------------------------------------------------- textures

  /** The key of texture `texid`: its first mip level must have the texture's size,
      and is tagged with the texture's effect. */
  function TextureNameOf(bsp: Bsp, texid: int): (r: Result<TextureKey>)
  {
    var tex :- PyIndex(bsp.textures, texid);
    var m :- Mipmaps.Unpack(tex.mip0, tex.width, tex.height, 0);
    if tex.width != m.w || tex.height != m.h then Err(AssertionFailed)
    else TextureKeyOf(m, EffectOf(tex.name))
  }

  /** `r_texturenames` for the textures in numbering order. */
  function TextureNames(bsp: Bsp, order: seq<int>): (r: Result<seq<TextureKey>>)
    decreases |order|
  {
    if order == [] then Ok([])
    else
      var k :- TextureNameOf(bsp, order[0]);
      var rest :- TextureNames(bsp, order[1..]);
      Ok([k] + rest)
  }

  /** Texture number i names the i-th texture met: a texture of the level's list
      whose first mip level has the texture's size and palette pixels, tagged with
      the texture's effect. */
  lemma {:induction false} TextureNamesAt(bsp: Bsp, order: seq<int>)
    requires TextureNames(bsp, order).Ok?
    ensures var names := TextureNames(bsp, order).value;
      |names| == |order| &&
      forall i | 0 <= i < |order| ::
        var tex := PyIndex(bsp.textures, order[i]);
        tex.Ok? && names[i].effect == EffectOf(tex.value.name) &&
        names[i].w == tex.value.width && names[i].h == tex.value.height &&
        Mipmaps.Unpack(tex.value.mip0, tex.value.width, tex.value.height, 0) ==
          Ok(Indexed(names[i].w, names[i].h, names[i].data))
    decreases |order|
  {
    if order != [] {
      TextureNamesAt(bsp, order[1..]);
      var names := TextureNames(bsp, order).value;
      forall i | 0 <= i < |order|
        ensures var tex := PyIndex(bsp.textures, order[i]);
          tex.Ok? && names[i].effect == EffectOf(tex.value.name) &&
          names[i].w == tex.value.width && names[i].h == tex.value.height &&
          Mipmaps.Unpack(tex.value.mip0, tex.value.width, tex.value.height, 0) ==
            Ok(Indexed(names[i].w, names[i].h, names[i].data))
      {
        if i > 0 {
          assert order[i] == order[1..][i - 1];
        }
      }
    }
  }

  // ---------------------------------------------------------------- the mesh

  /** One output polygon: its texture and its corners. */
  datatype Polygon = Polygon(texid: int, corners: seq<Corner>)

  function PlanPolygons(p: FacePlan): (r: seq<Polygon>)
    ensures |r| == |p.vlists|
  {
    seq(|p.vlists|, i requires 0 <= i < |p.vlists| =>
      Polygon(p.texid, CornersOf(p.vlists[i], p.normal, p.ti, p.iw, p.ih)))
  }

  /** The polygons of the faces, face after face. */
  function Polygons(ps: seq<FacePlan>): (r: seq<Polygon>)
    decreases |ps|
  {
    if ps == [] then [] else Polygons(ps[..|ps| - 1]) + PlanPolygons(ps[|ps| - 1])
  }

  /** The corners of the polygons, polygon after polygon. */
  function AllCorners(polys: seq<Polygon>): (r: seq<Corner>)
    decreases |polys|
  {
    if polys == [] then [] else AllCorners(polys[..|polys| - 1]) + polys[|polys| - 1].corners
  }

  /** Python 2's `round(x, 3)`: to the nearest thousandth, halves away from zero. */
  function Round3(x: real): (r: real)
  {
    if x >= 0.0 then (x * 1000.0 + 0.5).Floor as real / 1000.0
    else -((-x * 1000.0 + 0.5).Floor as real / 1000.0)
  }

  /** The key of `_vertex_cache`. */
  datatype VKey = VKey(pos: Vec3, normal: Vec3, u: real, v: real)

  function KeyOf(c: Corner): (r: VKey)
  {
    VKey(c.pos, c.normal, Round3(c.u), Round3(c.v))
  }

  function Keys(cs: seq<Corner>): (r: seq<VKey>)
    ensures |r| == |cs|
    ensures forall i | 0 <= i < |cs| :: r[i] == KeyOf(cs[i])
  {
    seq(|cs|, i requires 0 <= i < |cs| => KeyOf(cs[i]))
  }

  /** For each key, in first-seen order, the first corner that has it: the corner
      whose position, normal and exact texture coordinates the vertex keeps. */
  function FirstCorners(cs: seq<Corner>): (r: seq<Corner>)
    decreases |cs|
  {
    if cs == [] then []
    else
      var p := FirstCorners(cs[..|cs| - 1]);
      var c := cs[|cs| - 1];
      if KeyOf(c) in Keys(p) then p else p + [c]
  }

  lemma {:induction false} FirstCornersKeys(cs: seq<Corner>)
    ensures Keys(FirstCorners(cs)) == FirstSeen(Keys(cs))
    decreases |cs|
  {
    if cs != [] {
      var p := cs[..|cs| - 1];
      FirstCornersKeys(p);
      assert Keys(cs) == Keys(p) + [KeyOf(cs[|cs| - 1])];
      FirstSeenStep(Keys(p), KeyOf(cs[|cs| - 1]));
      assert Keys(FirstCorners(p) + [cs[|cs| - 1]]) == Keys(FirstCorners(p)) + [KeyOf(cs[|cs| - 1])];
    }
  }

  /** A face of the output shows polygon `poly`: it uses the polygon's texture number
      and, corner by corner, the vertex whose key is the corner's. */
  ghost predicate FaceShows(f: Face, poly: Polygon, order: seq<int>, keys: seq<VKey>)
  {
    f.t >= 0 && f.t < |order| && order[f.t] == poly.texid && |f.v| == |poly.corners| &&
    forall k | 0 <= k < |f.v| :: 0 <= f.v[k] < |keys| && keys[f.v[k]] == KeyOf(poly.corners[k])
  }

  /** The output faces `fs` show the polygons `polys`, one each. */
  ghost predicate Shows(fs: seq<Face>, polys: seq<Polygon>, order: seq<int>, keys: seq<VKey>)
  {
    |fs| == |polys| && forall j | 0 <= j < |polys| :: FaceShows(fs[j], polys[j], order, keys)
  }

  /** The vertex lists hold, in order, the first corner of each distinct key. */
  ghost predicate VerticesOf(vs: seq<Vec3>, uvs: seq<UV>, ns: seq<Vec3>, firsts: seq<Corner>)
  {
    |vs| == |firsts| && |uvs| == |firsts| && |ns| == |firsts| &&
    forall i | 0 <= i < |firsts| ::
      vs[i] == MapVertex(firsts[i].pos) && ns[i] == MapVertex(firsts[i].normal) &&
      uvs[i] == UV(firsts[i].u, firsts[i].v)
  }

  /** The level's faces and the keys of the textures they use, or the first error. */
  function Outline(bsp: Bsp, model: BspModel): (r: Result<(seq<FacePlan>, seq<TextureKey>)>)
  {
    var ps :- FacesOf(bsp, ModelFaces(bsp, model));
    var names :- TextureNames(bsp, FirstSeen(TexIds(ps)));
    Ok((ps, names))
  }

  /** `m` is the mesh of the faces `ps` with texture keys `names`: one frame holding
      a vertex per distinct corner key (the first corner with that key), one output
      face per polygon with its texture numbered in first-seen order, and every
      corner pointing at the vertex with its key. */
  ghost predicate Describes(m: Mesh, ps: seq<FacePlan>, names: seq<TextureKey>)
  {
    var polys := Polygons(ps);
    var order := FirstSeen(TexIds(ps));
    var firsts := FirstCorners(AllCorners(polys));
    m.flags == None && m.texturenames == names && |m.frames| == 1 && |m.frames[0]| == 1 &&
    m.frames[0][0].time == None &&
    VerticesOf(m.frames[0][0].v, m.uvs, m.frames[0][0].n, firsts) &&
    Shows(m.faces, polys, order, Keys(firsts))
  }

  // ---------------------------------------------------------------- the plane lump

  /** As the level file gives it, the planes lump has no `list`: looking up any plane
      raises AttributeError, so no face gets through. */
  lemma PlanesAsWritten(bsp: Bsp, face: BspFace)
    requires bsp.planes.Undecoded?
    ensures Access(None, State(Some(bsp.planes.raw), map[]), "list").0 == Err(AttributeError)
    ensures PlaneNormal(bsp.planes, face.planeId) == Err(AttributeError)
    ensures FacePlanOf(bsp, face).Err?
  {
  }

  /** Hence, as written, the loader only succeeds for a sub-model without faces. */
  lemma {:induction false} OutlineAsWritten(bsp: Bsp, model: BspModel)
    requires bsp.planes.Undecoded? && Outline(bsp, model).Ok?
    ensures ModelFaces(bsp, model) == []
  {
    var faces := ModelFaces(bsp, model);
    if faces != [] {
      PlanesAsWritten(bsp, faces[0]);
    }
  }

  /** With decoded normals the lookup is the list's: plane `id` in range, counted
      from the end when negative, and IndexError otherwise. */
  lemma PlaneNormalDecoded(ns: seq<Vec3>, id: int)
    ensures PlaneNormal(Normals(ns), id).Ok? <==> -|ns| <= id < |ns|
    ensures 0 <= id < |ns| ==> PlaneNormal(Normals(ns), id) == Ok(ns[id])
    ensures PlaneNormal(Normals(ns), id).Err? ==> PlaneNormal(Normals(ns), id).error == IndexError
  {
  }
}
