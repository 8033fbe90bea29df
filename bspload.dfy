/** `load_bsp_model` of Server/maploader.py as the source runs it: the edge loop of
    each face, the sky split, the `_vertex_cache` behind `get_vertex` with the lists
    it appends to, the `used_textures` numbering, and the final pass over the
    textures.  Each method is proved to compute what module BspMesh specifies. */
module BspLoad {
  import opened Results
  import opened PyLists
  import opened Mipmaps
  import opened Geometry
  import opened Meshes
  import opened Compaction
  import opened BspMesh

  /** The closure `get_vertex` and the lists it appends to: `r_vertices`, `r_uvs`,
      `r_normals` and `_vertex_cache`.  `seen` is every corner asked for so far. */
  class VertexCache {
    var vertices: seq<Vec3>
    var uvs: seq<UV>
    var normals: seq<Vec3>
    var cache: map<VKey, nat>
    ghost var seen: seq<Corner>

    /** The cache numbers the distinct keys asked for in first-seen order, and
        vertex i holds the first corner asked for with the i-th key: the three lists
        have one entry per key. */
    ghost predicate Valid()
      reads this
    {
      Numbers(cache, FirstSeen(Keys(seen))) && VerticesOf(vertices, uvs, normals, FirstCorners(seen))
    }

    constructor ()
      ensures Valid() && seen == []
      ensures vertices == [] && uvs == [] && normals == [] && cache == map[]
    {
      vertices, uvs, normals, cache := [], [], [], map[];
      seen := [];
    }

    /** `get_vertex(vec3, norm3, u, v)`: a key already met gives its vertex back and
        changes nothing; a new key gets the next index, and one entry is appended to
        each list.  Either way the vertex returned has the corner's key. */
    method GetVertex(vec3: Vec3, norm3: Vec3, u: real, v: real) returns (result: nat)
      requires Valid()
      modifies this
      ensures Valid()
      ensures seen == old(seen) + [Corner(vec3, norm3, u, v)]
      ensures FirstSeen(Keys(old(seen))) <= FirstSeen(Keys(seen))
      ensures result < |FirstSeen(Keys(seen))|
      ensures FirstSeen(Keys(seen))[result] == VKey(vec3, norm3, Round3(u), Round3(v))
      ensures var key := VKey(vec3, norm3, Round3(u), Round3(v));
        key in old(cache) ==>
          (result == old(cache)[key] && vertices == old(vertices) &&
           uvs == old(uvs) && normals == old(normals) && cache == old(cache))
      ensures var key := VKey(vec3, norm3, Round3(u), Round3(v));
        key !in old(cache) ==>
          (result == old(|vertices|) &&
           vertices == old(vertices) + [MapVertex(vec3)] && uvs == old(uvs) + [UV(u, v)] &&
           normals == old(normals) + [MapVertex(norm3)] && cache == old(cache)[key := result])
    {
      var key := VKey(vec3, norm3, Round3(u), Round3(v));
      ghost var c := Corner(vec3, norm3, u, v);
      ghost var s' := seen + [c];
      assert key == KeyOf(c);
      CacheStep(seen, c, cache, vertices, uvs, normals);
      if key in cache {
        result := cache[key];
      } else {
        result := |vertices|;
        vertices := vertices + [MapVertex(vec3)];
        uvs := uvs + [UV(u, v)];
        normals := normals + [MapVertex(norm3)];
        cache := cache[key := result];
      }
      seen := s';
    }
  }

  /** One more corner asked for: a known key keeps the numbering and the lists, a new
      key is numbered next and its corner appended. */
  lemma CacheStep(seen: seq<Corner>, c: Corner, cache: map<VKey, nat>, vs: seq<Vec3>, uvs: seq<UV>, ns: seq<Vec3>)
    requires Numbers(cache, FirstSeen(Keys(seen))) && VerticesOf(vs, uvs, ns, FirstCorners(seen))
    ensures FirstSeen(Keys(seen)) <= FirstSeen(Keys(seen + [c]))
    ensures KeyOf(c) in cache ==>
      Numbers(cache, FirstSeen(Keys(seen + [c]))) && VerticesOf(vs, uvs, ns, FirstCorners(seen + [c])) &&
      cache[KeyOf(c)] < |FirstSeen(Keys(seen + [c]))| && FirstSeen(Keys(seen + [c]))[cache[KeyOf(c)]] == KeyOf(c)
    ensures KeyOf(c) !in cache ==>
      Numbers(cache[KeyOf(c) := |vs|], FirstSeen(Keys(seen + [c]))) &&
      VerticesOf(vs + [MapVertex(c.pos)], uvs + [UV(c.u, c.v)], ns + [MapVertex(c.normal)], FirstCorners(seen + [c])) &&
      |vs| < |FirstSeen(Keys(seen + [c]))| && FirstSeen(Keys(seen + [c]))[|vs|] == KeyOf(c)
  {
    var key := KeyOf(c);
    var s' := seen + [c];
    assert Keys(s') == Keys(seen) + [key];
    assert s'[..|seen|] == seen;
    SetDefault(cache, Keys(seen), key);
    FirstSeenStep(Keys(seen), key);
    FirstCornersKeys(seen);
    var firsts := FirstCorners(seen);
    assert FirstCorners(s') == if key in Keys(firsts) then firsts else firsts + [c];
    if key in cache {
      NumbersLookup(cache, FirstSeen(Keys(seen)), key);
    } else {
      NumbersSize(cache, FirstSeen(Keys(seen)));
      VerticesOfSnoc(vs, uvs, ns, firsts, c);
    }
  }

  lemma VerticesOfSnoc(vs: seq<Vec3>, uvs: seq<UV>, ns: seq<Vec3>, firsts: seq<Corner>, c: Corner)
    requires VerticesOf(vs, uvs, ns, firsts)
    ensures VerticesOf(vs + [MapVertex(c.pos)], uvs + [UV(c.u, c.v)], ns + [MapVertex(c.normal)], firsts + [c])
  {
  }

  /** The indices `r_v` point, one by one, at the vertices with the keys of the
      corners `cs`. */
  ghost predicate Indexes(r_v: seq<int>, cs: seq<Corner>, keys: seq<VKey>)
  {
    |r_v| == |cs| &&
    forall j | 0 <= j < |cs| :: 0 <= r_v[j] < |keys| && keys[r_v[j]] == KeyOf(cs[j])
  }

  lemma IndexesGrow(r_v: seq<int>, cs: seq<Corner>, k1: seq<VKey>, k2: seq<VKey>, idx: int, c: Corner)
    requires Indexes(r_v, cs, k1) && k1 <= k2
    requires 0 <= idx < |k2| && k2[idx] == KeyOf(c)
    ensures Indexes(r_v + [idx], cs + [c], k2)
  {
    forall j | 0 <= j < |cs|
      ensures k2[r_v[j]] == KeyOf(cs[j])
    {
      assert k1[r_v[j]] == k2[r_v[j]];
    }
  }

  /** One point of a polygon: its texture coordinates, then `get_vertex`. */
  method CornerVertex(vc: VertexCache, v: Vec3, normal: Vec3, ti: TexInfo, iw: real, ih: real)
    returns (idx: nat)
    requires vc.Valid()
    modifies vc
    ensures vc.Valid()
    ensures vc.seen == old(vc.seen) + [CornerAt(v, normal, ti, iw, ih)]
    ensures FirstSeen(Keys(old(vc.seen))) <= FirstSeen(Keys(vc.seen))
    ensures idx < |FirstSeen(Keys(vc.seen))|
    ensures FirstSeen(Keys(vc.seen))[idx] == KeyOf(CornerAt(v, normal, ti, iw, ih))
  {
    var s := Dot(v, ti.s);
    var t := Dot(v, ti.t);
    assert CornerAt(v, normal, ti, iw, ih) == Corner(v, normal, s * iw, t * ih);
    idx := vc.GetVertex(v, normal, s * iw, t * ih);
  }

  /** A polygon of a face, `r_faces.append({'v': r_v, 't': texnum})`: each point
      becomes a corner with the face's normal and its texture coordinates, looked up
      in the vertex cache. */
  method EmitPolygon(vc: VertexCache, vlist: seq<Vec3>, normal: Vec3, ti: TexInfo, iw: real, ih: real, texnum: int)
    returns (f: Face)
    requires vc.Valid()
    modifies vc
    ensures vc.Valid()
    ensures vc.seen == old(vc.seen) + CornersOf(vlist, normal, ti, iw, ih)
    ensures FirstSeen(Keys(old(vc.seen))) <= FirstSeen(Keys(vc.seen))
    ensures f.t == texnum
    ensures Indexes(f.v, CornersOf(vlist, normal, ti, iw, ih), FirstSeen(Keys(vc.seen)))
  {
    ghost var cs := CornersOf(vlist, normal, ti, iw, ih);
    ghost var seen0 := vc.seen;
    var r_v: seq<int> := [];
    var k := 0;
    while k < |vlist|
      invariant 0 <= k <= |vlist|
      invariant vc.Valid() && vc.seen == seen0 + cs[..k]
      invariant FirstSeen(Keys(seen0)) <= FirstSeen(Keys(vc.seen))
      invariant Indexes(r_v, cs[..k], FirstSeen(Keys(vc.seen)))
    {
      ghost var before := FirstSeen(Keys(vc.seen));
      var idx := CornerVertex(vc, vlist[k], normal, ti, iw, ih);
      TakeOneMore(seen0, cs, k);
      IndexesGrow(r_v, cs[..k], before, FirstSeen(Keys(vc.seen)), idx, cs[k]);
      r_v := r_v + [idx];
      k := k + 1;
    }
    assert cs[..k] == cs;
    f := Face(r_v, texnum);
  }

  lemma {:induction false} AllCornersAppend(a: seq<Polygon>, b: seq<Polygon>)
    ensures AllCorners(a + b) == AllCorners(a) + AllCorners(b)
    decreases |b|
  {
    if b != [] {
      var b' := b[..|b| - 1];
      AllCornersAppend(a, b');
      var last := b[|b| - 1];
      assert a + b == (a + b') + [last];
      AllCornersSnoc(a + b, |a + b| - 1);
      AllCornersSnoc(b, |b| - 1);
      assert (a + b)[..|a + b| - 1] == a + b';
      assert b[..|b| - 1] == b';
      assert (a + b)[..|a + b|] == a + b;
      assert b[..|b|] == b;
    } else {
      assert a + b == a;
    }
  }

  /** The polygons of one face, in turn. */
  method EmitFace(vc: VertexCache, plan: FacePlan, texnum: int, ghost order: seq<int>) returns (fs: seq<Face>)
    requires vc.Valid() && 0 <= texnum < |order| && order[texnum] == plan.texid
    modifies vc
    ensures vc.Valid()
    ensures vc.seen == old(vc.seen) + AllCorners(PlanPolygons(plan))
    ensures FirstSeen(Keys(old(vc.seen))) <= FirstSeen(Keys(vc.seen))
    ensures Shows(fs, PlanPolygons(plan), order, FirstSeen(Keys(vc.seen)))
  {
    ghost var polys := PlanPolygons(plan);
    ghost var seen0 := vc.seen;
    fs := [];
    var j := 0;
    while j < |plan.vlists|
      invariant 0 <= j <= |plan.vlists|
      invariant vc.Valid() && vc.seen == seen0 + AllCorners(polys[..j])
      invariant FirstSeen(Keys(seen0)) <= FirstSeen(Keys(vc.seen))
      invariant Shows(fs, polys[..j], order, FirstSeen(Keys(vc.seen)))
    {
      ghost var before := FirstSeen(Keys(vc.seen));
      ghost var seen1 := vc.seen;
      var f := EmitPolygon(vc, plan.vlists[j], plan.normal, plan.ti, plan.iw, plan.ih, texnum);
      ghost var now := FirstSeen(Keys(vc.seen));
      assert polys[j] == Polygon(plan.texid, CornersOf(plan.vlists[j], plan.normal, plan.ti, plan.iw, plan.ih));
      IndexesShow(f, polys[j], order, now);
      AllCornersSnoc(polys, j);
      Assoc3(seen0, AllCorners(polys[..j]), polys[j].corners);
      ShowsGrow(fs, polys[..j], order, before, now, f, polys[j]);
      TakeOneMore([], polys, j);
      fs := fs + [f];
      j := j + 1;
    }
    assert polys[..j] == polys;
  }

  lemma Assoc3<T>(a: seq<T>, b: seq<T>, c: seq<T>)
    ensures a + b + c == a + (b + c)
  {
  }

  /** One more face showing one more polygon. */
  lemma ShowsGrow(fs: seq<Face>, polys: seq<Polygon>, order: seq<int>, k1: seq<VKey>, k2: seq<VKey>, f: Face, p: Polygon)
    requires Shows(fs, polys, order, k1) && k1 <= k2 && FaceShows(f, p, order, k2)
    ensures Shows(fs + [f], polys + [p], order, k2)
  {
    forall j | 0 <= j < |polys|
      ensures FaceShows(fs[j], polys[j], order, k2)
    {
      FaceShowsGrows(fs[j], polys[j], order, order, k1, k2);
    }
  }

  /** The faces of earlier polygons, then those of the later ones. */
  lemma ShowsAppend(a: seq<Face>, pa: seq<Polygon>, o1: seq<int>, k1: seq<VKey>,
                    b: seq<Face>, pb: seq<Polygon>, o2: seq<int>, k2: seq<VKey>)
    requires Shows(a, pa, o1, k1) && o1 <= o2 && k1 <= k2 && Shows(b, pb, o2, k2)
    ensures Shows(a + b, pa + pb, o2, k2)
  {
    forall j | 0 <= j < |pa + pb|
      ensures FaceShows((a + b)[j], (pa + pb)[j], o2, k2)
    {
      if j < |pa| {
        FaceShowsGrows(a[j], pa[j], o1, o2, k1, k2);
      } else {
        assert (a + b)[j] == b[j - |a|] && (pa + pb)[j] == pb[j - |pa|];
      }
    }
  }

  lemma IndexesShow(f: Face, poly: Polygon, order: seq<int>, keys: seq<VKey>)
    requires Indexes(f.v, poly.corners, keys)
    requires 0 <= f.t < |order| && order[f.t] == poly.texid
    ensures FaceShows(f, poly, order, keys)
  {
  }

  lemma AllCornersSnoc(ps: seq<Polygon>, j: nat)
    requires j < |ps|
    ensures AllCorners(ps[..j + 1]) == AllCorners(ps[..j]) + ps[j].corners
  {
    assert ps[..j + 1][..j] == ps[..j];
  }

  /** Showing a polygon survives numberings that only grow. */
  lemma FaceShowsGrows(f: Face, poly: Polygon, o1: seq<int>, o2: seq<int>, k1: seq<VKey>, k2: seq<VKey>)
    requires FaceShows(f, poly, o1, k1) && o1 <= o2 && k1 <= k2
    ensures FaceShows(f, poly, o2, k2)
  {
    forall k | 0 <= k < |f.v|
      ensures 0 <= f.v[k] < |k2| && k2[f.v[k]] == KeyOf(poly.corners[k])
    {
      assert k1[f.v[k]] == k2[f.v[k]];
    }
  }

  /** The state of the face loop after the faces `ps`: `used_textures` numbers their
      textures in first-seen order, the cache has seen all their corners, and the
      output faces show their polygons. */
  ghost predicate Loaded(seen: seq<Corner>, used: map<int, nat>, faces: seq<Face>, ps: seq<FacePlan>)
  {
    Numbers(used, FirstSeen(TexIds(ps))) && seen == AllCorners(Polygons(ps)) &&
    Shows(faces, Polygons(ps), FirstSeen(TexIds(ps)), FirstSeen(Keys(seen)))
  }

  /** The end of the face loop's body: `texnum = used_textures.setdefault(texid,
      len(used_textures))`, then the face's polygons. */
  method TakeFace(vc: VertexCache, used: map<int, nat>, faces: seq<Face>, ghost ps: seq<FacePlan>, plan: FacePlan)
    returns (used': map<int, nat>, faces': seq<Face>)
    requires vc.Valid() && Loaded(vc.seen, used, faces, ps)
    modifies vc
    ensures vc.Valid() && Loaded(vc.seen, used', faces', ps + [plan])
  {
    ghost var ids := TexIds(ps);
    assert TexIds(ps + [plan]) == ids + [plan.texid];
    SetDefault(used, ids, plan.texid);
    FirstSeenStep(ids, plan.texid);
    ghost var order := FirstSeen(ids + [plan.texid]);
    var texnum: nat;
    if plan.texid in used {
      texnum := used[plan.texid];
      used' := used;
      NumbersLookup(used, order, plan.texid);
    } else {
      texnum := |used|;
      used' := used[plan.texid := texnum];
    }
    ghost var before := FirstSeen(Keys(vc.seen));
    ghost var seen0 := vc.seen;
    var fs := EmitFace(vc, plan, texnum, order);
    faces' := faces + fs;
    ghost var now := FirstSeen(Keys(vc.seen));
    assert (ps + [plan])[..|ps|] == ps;
    assert Polygons(ps + [plan]) == Polygons(ps) + PlanPolygons(plan);
    AllCornersAppend(Polygons(ps), PlanPolygons(plan));
    ShowsAppend(faces, Polygons(ps), FirstSeen(ids), before, fs, PlanPolygons(plan), order, now);
  }

  /** The loop over the entries of a face's edge list, building `vlist0` (starts)
      and `vlist1` (ends), and the closed-loop check. */
  method EdgeLoop(bsp: Bsp, face: BspFace) returns (r: Result<seq<int>>)
    ensures r == VertexLoop(bsp, face)
  {
    var vlist0: seq<int> := [];
    var vlist1: seq<int> := [];
    var lindex := face.ledgeId;
    while lindex < face.ledgeId + face.ledgeNum
      invariant face.ledgeId <= lindex <= face.ledgeId + face.ledgeNum
      invariant Ends(bsp, face.ledgeId, lindex - face.ledgeId) == Ok((vlist0, vlist1))
      decreases face.ledgeId + face.ledgeNum - lindex
    {
      ghost var k := lindex - face.ledgeId + 1;
      var e := PyIndex(bsp.ledges, lindex);
      if e.Err? {
        EndsStuck(bsp, face.ledgeId, k, face.ledgeNum);
        return Err(e.error);
      }
      var eindex := e.value;
      var edge := PyIndex(bsp.edges, Abs(eindex));
      if edge.Err? {
        EndsStuck(bsp, face.ledgeId, k, face.ledgeNum);
        return Err(edge.error);
      }
      var v0, v1 := edge.value.vertex0, edge.value.vertex1;
      if eindex < 0 {
        v0, v1 := v1, v0;
      }
      vlist0 := vlist0 + [v0];
      vlist1 := vlist1 + [v1];
      lindex := lindex + 1;
    }
    if Rotate(vlist0) != vlist1 {
      return Err(AssertionFailed);
    }
    return Ok(vlist0);
  }

  /** Once an entry of the edge list fails, the whole list fails the same way. */
  lemma {:induction false} EndsStuck(bsp: Bsp, first: int, k: nat, n: nat)
    requires k <= n && Ends(bsp, first, k).Err?
    ensures Ends(bsp, first, n) == Ends(bsp, first, k)
    decreases n - k
  {
    if k < n {
      EndsStuck(bsp, first, k, n - 1);
    }
  }

  /** `for vtri in triangulate(vlist0): explode_into_smaller_faces(vtri, vlistlist)`. */
  method SkySplit(pts: seq<Vec3>) returns (r: Result<seq<seq<Vec3>>>)
    ensures r == SkyPolygons(pts)
  {
    var tris :- Triangulate(pts);
    var acc: seq<Tri> := [];
    for i := 0 to |tris|
      invariant acc == ExplodedAll(tris[..i])
    {
      acc := ExplodeInto(tris[i], acc);
      assert tris[..i + 1][..i] == tris[..i];
    }
    assert tris[..|tris|] == tris;
    return Ok(seq(|acc|, i requires 0 <= i < |acc| => TriPoints(acc[i])));
  }

  /** The face loop's body up to the plane lookup: the edge loop, the texture
      lookups, the corner points, the sky split, the texture scale factors and the
      normal. */
  method FaceStartStep(bsp: Bsp, face: BspFace) returns (r: Result<(TexInfo, Texture, seq<seq<Vec3>>)>)
    ensures r == FaceStart(bsp, face)
  {
    var loop := EdgeLoop(bsp, face);
    if loop.Err? {
      return Err(loop.error);
    }
    var ti :- PyIndex(bsp.texinfo, face.texinfoId);
    var tex :- PyIndex(bsp.textures, ti.miptex);
    var pts :- Points(bsp.vertexes, loop.value);
    var vlistlist: seq<seq<Vec3>>;
    if IsSky(tex.name) {
      vlistlist :- SkySplit(pts);
    } else {
      vlistlist := [pts];
    }
    return Ok((ti, tex, vlistlist));
  }

  method FacePlanStep(bsp: Bsp, face: BspFace) returns (r: Result<FacePlan>)
    ensures r == FacePlanOf(bsp, face)
  {
    var start :- FaceStartStep(bsp, face);
    var ti, tex, vlistlist := start.0, start.1, start.2;
    if tex.width == 0 || tex.height == 0 {
      return Err(ZeroDivision);
    }
    var iw := 1.0 / tex.width as real;
    var ih := 1.0 / tex.height as real;
    var n :- PlaneNormal(bsp.planes, face.planeId);
    var side := if face.side == 0 then 1.0 else -1.0;
    return Ok(FacePlan(ti.miptex, vlistlist, Vec3(side * n.x, side * n.y, side * n.z), ti, iw, ih));
  }

  /** One texture of the final pass: its first mip level must have the texture's
      size; then the effect tag and the key. */
  method TextureKeyFor(bsp: Bsp, texid: int) returns (r: Result<TextureKey>)
    ensures r == TextureNameOf(bsp, texid)
  {
    var tex :- PyIndex(bsp.textures, texid);
    var m :- Mipmaps.Unpack(tex.mip0, tex.width, tex.height, 0);
    if tex.width != m.w || tex.height != m.h {
      return Err(AssertionFailed);
    }
    var extra := if IsSky(tex.name) then SkyEffect else if IsLiquid(tex.name) then WaterEffect else NoEffect;
    r := TextureKeyOf(m, extra);
  }

  /** The final pass over `used_textures` sorted by number: the texture of number
      n is the n-th one met. */
  method TextureNamesOf(bsp: Bsp, used: map<int, nat>, ghost order: seq<int>) returns (r: Result<seq<TextureKey>>)
    requires Numbers(used, order)
    ensures r == TextureNames(bsp, order)
  {
    NumbersSize(used, order);
    var names: seq<TextureKey> := [];
    var n := 0;
    assert order[n..] == order;
    PrependNothing(TextureNames(bsp, order));
    while n < |used|
      invariant 0 <= n <= |order| && |names| == n
      invariant TextureNames(bsp, order) == Prepend(names, TextureNames(bsp, order[n..]))
    {
      assert order[n] in used;
      var texid :| texid in used && used[texid] == n;
      NumbersLookup(used, order, texid);
      TextureNamesStep(bsp, order, n);
      var k := TextureKeyFor(bsp, texid);
      if k.Err? {
        return Err(k.error);
      }
      PrependStep(names, k.value, TextureNames(bsp, order[n + 1..]));
      names := names + [k.value];
      n := n + 1;
    }
    assert order[n..] == [];
    assert names + [] == names;
    return Ok(names);
  }

  lemma TextureNamesStep(bsp: Bsp, order: seq<int>, n: nat)
    requires n < |order|
    ensures TextureNames(bsp, order[n..]) ==
      (var k :- TextureNameOf(bsp, order[n]); var rest :- TextureNames(bsp, order[n + 1..]); Ok([k] + rest))
  {
    assert order[n..][0] == order[n] && order[n..][1..] == order[n + 1..];
  }

  lemma FacesStep(bsp: Bsp, list: seq<BspFace>, i: nat)
    requires i < |list|
    ensures FacesOf(bsp, list[i..]) ==
      (var p :- FacePlanOf(bsp, list[i]); var rest :- FacesOf(bsp, list[i + 1..]); Ok([p] + rest))
  {
    assert list[i..][0] == list[i] && list[i..][1..] == list[i + 1..];
  }

  /** Moving one finished item from the outcome to the done part. */
  lemma PrependStep<T>(done: seq<T>, x: T, rest: Result<seq<T>>)
    ensures Prepend(done, (var r :- rest; Ok([x] + r))) == Prepend(done + [x], rest)
  {
    if rest.Ok? {
      assert done + ([x] + rest.value) == done + [x] + rest.value;
    }
  }

  /** The mesh the loop has built once every face and texture is through. */
  lemma MeshDescribed(bsp: Bsp, model: BspModel, ps: seq<FacePlan>, names: seq<TextureKey>, seen: seq<Corner>,
                      used: map<int, nat>, faces: seq<Face>, vs: seq<Vec3>, uvs: seq<UV>, ns: seq<Vec3>)
    requires FacesOf(bsp, ModelFaces(bsp, model)) == Ok(ps)
    requires TextureNames(bsp, FirstSeen(TexIds(ps))) == Ok(names)
    requires Loaded(seen, used, faces, ps) && VerticesOf(vs, uvs, ns, FirstCorners(seen))
    ensures Outline(bsp, model) == Ok((ps, names))
    ensures Describes(Mesh([[FrameData(vs, ns, None)]], uvs, faces, names, None), ps, names)
  {
    FirstCornersKeys(seen);
  }

  /** `load_bsp_model(bsp, model)`: the mesh of the sub-model's faces, or the first
      error met. */
  method LoadBspModel(bsp: Bsp, model: BspModel) returns (r: Result<Mesh>)
    ensures Outline(bsp, model).Err? ==> r == Err(Outline(bsp, model).error)
    ensures Outline(bsp, model).Ok? ==>
      r.Ok? && Describes(r.value, Outline(bsp, model).value.0, Outline(bsp, model).value.1)
  {
    var vc := new VertexCache();
    var used: map<int, nat> := map[];
    var faces: seq<Face> := [];
    ghost var ps: seq<FacePlan> := [];
    var list := ModelFaces(bsp, model);
    var i := 0;
    assert list[i..] == list;
    PrependNothing(FacesOf(bsp, list));
    while i < |list|
      invariant 0 <= i <= |list|
      invariant vc.Valid() && Loaded(vc.seen, used, faces, ps)
      invariant FacesOf(bsp, list) == Prepend(ps, FacesOf(bsp, list[i..]))
    {
      FacesStep(bsp, list, i);
      var p := FacePlanStep(bsp, list[i]);
      if p.Err? {
        return Err(p.error);
      }
      used, faces := TakeFace(vc, used, faces, ps, p.value);
      PrependStep(ps, p.value, FacesOf(bsp, list[i + 1..]));
      ps := ps + [p.value];
      i := i + 1;
    }
    assert list[i..] == [];
    assert ps + [] == ps;
    var names := TextureNamesOf(bsp, used, FirstSeen(TexIds(ps)));
    if names.Err? {
      return Err(names.error);
    }
    MeshDescribed(bsp, model, ps, names.value, vc.seen, used, faces, vc.vertices, vc.uvs, vc.normals);
    r := Ok(Mesh([[FrameData(vc.vertices, vc.normals, None)]], vc.uvs, faces, names.value, None));
  }
}
