/** `ImportMesh` of Unity/Assets/Scripts/NetworkImporter.cs: one frame of a model
    becomes a Unity mesh whose sub-mesh `t` lists, as vertex-index triples, the
    triangle fans of the faces drawn with texture `t`.

    The source counts the triangles of every texture first, allocates one buffer of
    three slots per triangle for each texture, and then fills the buffers face by face
    through one write cursor per texture. */
module ClientMesh {
  import opened Results
  import opened Geometry
  import opened Meshes

  /** A `QFrame`: the positions and normals of one pose, index for index. */
  datatype QFrame = QFrame(v: seq<Vec3>, n: seq<Vec3>)

  /** A Unity mesh as `ImportMesh` fills it: the frame's vertices and normals, the
      model's texture coordinates, and one triangle list per texture. */
  datatype MeshData = MeshData(vertices: seq<Vec3>, uv: seq<UV>, normals: seq<Vec3>,
                               triangles: seq<seq<int>>)

  /** The triangle fan of a polygon: `(v[0], v[i+1], v[i+2])` for each `i < |v| - 2`,
      three indices per triangle; a polygon of fewer than three vertices has none. */
  function Fan(v: seq<int>): (r: seq<int>)
    ensures |r| == if |v| < 3 then 0 else 3 * (|v| - 2)
    decreases |v|
  {
    if |v| < 3 then [] else Fan(v[..|v| - 1]) + [v[0], v[|v| - 2], v[|v| - 1]]
  }

  /** `countTriangles[t]` after the counting loop: each face drawn with texture `t`
      adds `|v| - 2`, which is negative for a face of fewer than two vertices. */
  function Count(faces: seq<Face>, t: int): (r: int)
    decreases |faces|
  {
    if faces == [] then 0
    else
      var f := faces[|faces| - 1];
      Count(faces[..|faces| - 1], t) + (if f.t == t then |f.v| - 2 else 0)
  }

  /** What the cursor of texture `t` has written after the faces `faces`: their fans,
      in face order. */
  function Expected(faces: seq<Face>, t: int): (r: seq<int>)
    decreases |faces|
  {
    if faces == [] then []
    else
      var f := faces[|faces| - 1];
      Expected(faces[..|faces| - 1], t) + (if f.t == t then Fan(f.v) else [])
  }

  /** Every face names one of the model's `n` textures. */
  predicate TexturesInRange(faces: seq<Face>, n: int)
  {
    forall k | 0 <= k < |faces| :: 0 <= faces[k].t < n
  }

  /** Every face has at least two vertices, so none makes a texture's count smaller
      than its fans. */
  predicate Polygons(faces: seq<Face>)
  {
    forall k | 0 <= k < |faces| :: |faces[k].v| >= 2
  }

  /** `ImportMesh(model, frameindex)` on the model's frames, texture coordinates,
      faces and texture count. The failures are C#'s: an index out of range (the
      frame, a face's texture, or a write past a buffer), and an array of negative
      length. */
  function MeshOf(frames: seq<QFrame>, uvs: seq<UV>, faces: seq<Face>, numTextures: nat,
                  frameindex: int): (r: Result<MeshData>)
  {
    if !(0 <= frameindex < |frames|) then Err(IndexError)
    else if !TexturesInRange(faces, numTextures) then Err(IndexError)
    else if exists u | 0 <= u < numTextures :: Count(faces, u) < 0 then Err(Overflow)
    else if exists u | 0 <= u < numTextures :: |Expected(faces, u)| > 3 * Count(faces, u) then
      Err(IndexError)
    else
      Ok(MeshData(frames[frameindex].v, uvs, frames[frameindex].n,
                  seq(numTextures, u => Expected(faces, u))))
  }

  /** The i-th triangle of a fan is `(v[0], v[i+1], v[i+2])`. */
  lemma {:induction false} FanTriangle(v: seq<int>, i: int)
    requires 0 <= i < |v| - 2
    ensures Fan(v)[3 * i..3 * i + 3] == [v[0], v[i + 1], v[i + 2]]
    decreases |v|
  {
    var p := v[..|v| - 1];
    if i < |v| - 3 {
      FanTriangle(p, i);
      assert Fan(v)[3 * i..3 * i + 3] == Fan(p)[3 * i..3 * i + 3];
    } else {
      assert Fan(v)[3 * i..3 * i + 3] == [v[0], v[|v| - 2], v[|v| - 1]];
    }
  }

  /** The fans written for a texture never fall short of three slots per counted
      triangle, and they fill them exactly when no face of that texture has fewer than
      two vertices. */
  lemma {:induction false} ExpectedCovers(faces: seq<Face>, t: int)
    ensures |Expected(faces, t)| >= 3 * Count(faces, t)
    ensures |Expected(faces, t)| == 3 * Count(faces, t) <==>
            forall k | 0 <= k < |faces| && faces[k].t == t :: |faces[k].v| >= 2
    decreases |faces|
  {
    if faces != [] {
      var p := faces[..|faces| - 1];
      ExpectedCovers(p, t);
      forall k | 0 <= k < |p| ensures p[k] == faces[k] { }
    }
  }

  /** A cursor only advances: what the faces of a prefix write is a prefix of what all
      faces write. */
  lemma {:induction false} ExpectedPrefix(faces: seq<Face>, i: nat, t: int)
    requires i <= |faces|
    ensures Expected(faces[..i], t) <= Expected(faces, t)
    decreases |faces| - i
  {
    if i < |faces| {
      ExpectedPrefix(faces, i + 1, t);
      assert faces[..i + 1][..i] == faces[..i];
    } else {
      assert faces[..i] == faces;
    }
  }

  /** `ImportMesh` succeeds exactly when the frame exists, every face names a texture
      of the model and has at least two vertices; the check of at least three vertices
      in the source is a debug assertion only, and a two-vertex face adds no triangle.
      On success every texture's buffer holds exactly its faces' fans, with no unused
      slot. */
  lemma MeshOk(frames: seq<QFrame>, uvs: seq<UV>, faces: seq<Face>, numTextures: nat,
               frameindex: int)
    ensures MeshOf(frames, uvs, faces, numTextures, frameindex).Ok? <==>
            0 <= frameindex < |frames| && TexturesInRange(faces, numTextures) && Polygons(faces)
    ensures var r := MeshOf(frames, uvs, faces, numTextures, frameindex);
            r.Ok? ==> |r.value.triangles| == numTextures &&
                      forall u | 0 <= u < numTextures ::
                        |r.value.triangles[u]| == 3 * Count(faces, u) &&
                        r.value.triangles[u] == Expected(faces, u)
  {
    forall u | 0 <= u < numTextures ensures |Expected(faces, u)| >= 3 * Count(faces, u) {
      ExpectedCovers(faces, u);
    }
    var r := MeshOf(frames, uvs, faces, numTextures, frameindex);
    if 0 <= frameindex < |frames| && TexturesInRange(faces, numTextures) && Polygons(faces) {
      forall u | 0 <= u < numTextures ensures |Expected(faces, u)| == 3 * Count(faces, u) {
        ExpectedCovers(faces, u);
      }
    }
    if r.Ok? {
      forall k | 0 <= k < |faces| ensures |faces[k].v| >= 2 {
        ExpectedCovers(faces, faces[k].t);
      }
    }
  }

  /** Writes the fan of `v` into `tri` from slot `b0` on, three slots per triangle,
      failing when a write would fall past the end of the buffer. */
  method EmitFan(tri: array<int>, b0: nat, v: seq<int>) returns (ok: bool, b: nat)
    requires b0 <= tri.Length
    modifies tri
    ensures ok <==> b0 + |Fan(v)| <= tri.Length
    ensures ok ==> b == b0 + |Fan(v)| && tri[..b] == old(tri[..b0]) + Fan(v)
  {
    var n := |v|;
    b := b0;
    var i := 0;
    while i < n - 2
      invariant 0 <= i && (n >= 2 ==> i <= n - 2)
      invariant b == b0 + 3 * i <= tri.Length
      invariant tri[..b] == old(tri[..b0]) + Fan(v[..if n < 2 then n else i + 2])
    {
      if b + 3 > tri.Length {
        return false, b;
      }
      tri[b + 0] := v[0];
      tri[b + 1] := v[i + 1];
      tri[b + 2] := v[i + 2];
      assert v[..i + 3][..i + 2] == v[..i + 2];
      assert tri[..b + 3] == tri[..b] + [v[0], v[i + 1], v[i + 2]];
      b := b + 3;
      i := i + 1;
    }
    assert v[..if n < 2 then n else i + 2] == v;
    ok := true;
  }

  /** The counting loop of `ImportMesh`: `countTriangles[t]` becomes the sum of
      `|v| - 2` over the faces drawn with texture `t`; a face naming no texture of
      the model stops it. */
  method CountTriangles(faces: seq<Face>, numTextures: nat) returns (ok: bool, counts: array<int>)
    ensures fresh(counts) && counts.Length == numTextures
    ensures ok <==> TexturesInRange(faces, numTextures)
    ensures ok ==> forall u | 0 <= u < numTextures :: counts[u] == Count(faces, u)
  {
    counts := new int[numTextures](_ => 0);
    var k := 0;
    while k < |faces|
      invariant 0 <= k <= |faces|
      invariant TexturesInRange(faces[..k], numTextures)
      invariant forall u | 0 <= u < numTextures :: counts[u] == Count(faces[..k], u)
    {
      var face := faces[k];
      if !(0 <= face.t < numTextures) {
        return false, counts;
      }
      counts[face.t] := counts[face.t] + |face.v| - 2;
      assert faces[..k + 1][..k] == faces[..k];
      k := k + 1;
    }
    assert faces[..k] == faces;
    ok := true;
  }

  /** The allocation loop of `ImportMesh`: one zeroed buffer of three slots per
      counted triangle for each texture; a negative count stops it. */
  method AllocateBuffers(counts: array<int>, ghost faces: seq<Face>)
    returns (ok: bool, triangles: seq<array<int>>)
    requires forall u | 0 <= u < counts.Length :: counts[u] == Count(faces, u)
    ensures ok <==> forall u | 0 <= u < counts.Length :: 0 <= Count(faces, u)
    ensures ok ==> |triangles| == counts.Length
    ensures ok ==> forall u | 0 <= u < |triangles| ::
      fresh(triangles[u]) && triangles[u].Length == 3 * Count(faces, u)
    ensures ok ==> forall u, w | 0 <= u < w < |triangles| :: triangles[u] != triangles[w]
  {
    triangles := [];
    var i := 0;
    while i < counts.Length
      invariant 0 <= i <= counts.Length
      invariant |triangles| == i
      invariant forall u | 0 <= u < counts.Length :: counts[u] == Count(faces, u)
      invariant forall u | 0 <= u < i :: 0 <= Count(faces, u)
      invariant forall u | 0 <= u < i ::
        fresh(triangles[u]) && triangles[u].Length == 3 * Count(faces, u)
      invariant forall u, w | 0 <= u < w < i :: triangles[u] != triangles[w]
    {
      if counts[i] < 0 {
        return false, triangles;
      }
      var tri := new int[3 * counts[i]](_ => 0);
      triangles := triangles + [tri];
      i := i + 1;
    }
    ok := true;
  }

  /** The filling loop of `ImportMesh`: each face's fan is written at its texture's
      cursor `bb[t]`, which advances three slots per triangle. It fails when a write
      falls past a buffer; otherwise every cursor ends at the end of its buffer, and
      every buffer holds exactly the fans of its faces. */
  method FillBuffers(triangles: seq<array<int>>, faces: seq<Face>) returns (ok: bool)
    requires TexturesInRange(faces, |triangles|)
    requires forall u | 0 <= u < |triangles| :: triangles[u].Length == 3 * Count(faces, u)
    requires forall u, w | 0 <= u < w < |triangles| :: triangles[u] != triangles[w]
    modifies set u | 0 <= u < |triangles| :: triangles[u]
    ensures ok <==> forall u | 0 <= u < |triangles| :: |Expected(faces, u)| <= 3 * Count(faces, u)
    ensures ok ==> forall u | 0 <= u < |triangles| :: triangles[u][..] == Expected(faces, u)
  {
    var bb := new int[|triangles|](_ => 0);
    var k := 0;
    while k < |faces|
      invariant 0 <= k <= |faces|
      invariant forall u | 0 <= u < |triangles| ::
        bb[u] == |Expected(faces[..k], u)| <= triangles[u].Length &&
        triangles[u][..bb[u]] == Expected(faces[..k], u)
    {
      var face := faces[k];
      var t := face.t;
      var tri := triangles[t];
      assert faces[..k + 1][..k] == faces[..k];
      assert faces[..k + 1][k] == face;
      ok, bb[t] := EmitFan(tri, bb[t], face.v);
      if !ok {
        ExpectedPrefix(faces, k + 1, t);
        return;
      }
      k := k + 1;
    }
    assert faces[..k] == faces;
    forall u | 0 <= u < |triangles| ensures triangles[u][..] == Expected(faces, u) {
      ExpectedCovers(faces, u);
      assert triangles[u][..bb[u]] == triangles[u][..];
    }
    ok := true;
  }

  /** `ImportMesh(model, frameindex)`, with the model's parts passed in. */
  method ImportMesh(frames: seq<QFrame>, uvs: seq<UV>, faces: seq<Face>, numTextures: nat,
                    frameindex: int) returns (r: Result<MeshData>)
    ensures r == MeshOf(frames, uvs, faces, numTextures, frameindex)
  {
    if !(0 <= frameindex < |frames|) {
      return Err(IndexError);
    }
    var frame := frames[frameindex];
    var ok, countTriangles := CountTriangles(faces, numTextures);
    if !ok {
      return Err(IndexError);
    }
    var triangles;
    ok, triangles := AllocateBuffers(countTriangles, faces);
    if !ok {
      return Err(Overflow);
    }
    ok := FillBuffers(triangles, faces);
    if !ok {
      return Err(IndexError);
    }
    var subs: seq<seq<int>> := [];
    var i := 0;
    while i < numTextures
      invariant 0 <= i <= numTextures
      invariant |subs| == i
      invariant forall u | 0 <= u < i :: subs[u] == Expected(faces, u)
    {
      subs := subs + [triangles[i][..]];
      i := i + 1;
    }
    assert subs == seq(numTextures, u => Expected(faces, u));
    return Ok(MeshData(frame.v, uvs, frame.n, subs));
  }
}
