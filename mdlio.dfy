/** QMdl of Server/qdata.py on a stream: the loops of `unpack` that append skins,
    vertices, triangles and frames, the loops of `pack` that write them, and the
    record that holds them.  Every method is proved against the functions of module
    Mdl, so the round trip proved there (Mdl.ModelRoundTrip) is what these loops do. */
module MdlStreams {
  import opened Results
  import opened Bytes
  import opened Scalars
  import opened Streams
  import opened Mipmaps
  import Fields
  import opened Records
  import opened Packing
  import opened Schemas
  import opened Mdl
  import opened Runs

  // ---------------------------------------------------------------- reading items

  /** One skin: `f.read(4)` must be the zero skin type, then `f.read(w * h)`. */
  method ReadSkinFrom(f: Stream, size: (int, int)) returns (r: Result<Mipmap>)
    modifies f
    ensures f.buf == old(f.buf)
    ensures Follows(r, ReadSkin(size, After(old(f.buf), old(f.pos))), After(f.buf, f.pos))
  {
    ghost var s := After(f.buf, f.pos);
    ChunkAfter(f.buf, f.pos, 4);
    ZeroTagRead(s);
    var tag := f.Read(4);
    if tag != Zeros(4) {
      return Err(AssertionFailed);
    }
    assert After(f.buf, f.pos) == s[4..];
    ChunkAfter(f.buf, f.pos, size.0 * size.1);
    var data := f.Read(size.0 * size.1);
    DropDrop(s, 4, |data|);
    return Ok(Indexed(size.0, size.1, data));
  }

  /** One vertex: `struct.unpack("<iii", f.read(12))`. */
  method ReadVertexFrom(f: Stream) returns (r: Result<Vertex>)
    modifies f
    ensures f.buf == old(f.buf)
    ensures Follows(r, ReadVertex((), After(old(f.buf), old(f.pos))), After(f.buf, f.pos))
  {
    ChunkAfter(f.buf, f.pos, 12);
    var c := f.Read(12);
    if |c| != 12 {
      return Err(StructError);
    }
    var w := Fields.DecodeInts(c, 3);
    return Ok(Vertex(w[1], w[2], OnSeam(w[0])));
  }

  /** One triangle: `struct.unpack("<iiii", f.read(16))`. */
  method ReadTriangleFrom(f: Stream) returns (r: Result<Triangle>)
    modifies f
    ensures f.buf == old(f.buf)
    ensures Follows(r, ReadTriangle((), After(old(f.buf), old(f.pos))), After(f.buf, f.pos))
  {
    ChunkAfter(f.buf, f.pos, 16);
    var c := f.Read(16);
    if |c| != 16 {
      return Err(StructError);
    }
    var w := Fields.DecodeInts(c, 4);
    return Ok(Triangle(w[1], w[2], w[3], w[0] != 0));
  }

  /** One frame vertex: `struct.unpack("BBBB", f.read(4))`. */
  method ReadTrivertFrom(f: Stream) returns (r: Result<Trivert>)
    modifies f
    ensures f.buf == old(f.buf)
    ensures Follows(r, ReadTrivert((), After(old(f.buf), old(f.pos))), After(f.buf, f.pos))
  {
    ChunkAfter(f.buf, f.pos, 4);
    var c := f.Read(4);
    if |c| != 4 {
      return Err(StructError);
    }
    return Ok(Trivert(c[0], c[1], c[2], c[3]));
  }

  /** The head of one frame: the zero frame type, the 8 bbox bytes skipped, then
      `f.read(16)` for the FCharPtr(16) name. */
  method ReadFrameHeadFrom(f: Stream) returns (r: Result<seq<byte>>)
    modifies f
    ensures f.buf == old(f.buf)
    ensures Follows(r, FrameHead(After(old(f.buf), old(f.pos))), After(f.buf, f.pos))
  {
    ghost var s := After(f.buf, f.pos);
    ChunkAfter(f.buf, f.pos, 4);
    ZeroTagRead(s);
    var tag := f.Read(4);
    if tag != Zeros(4) {
      return Err(AssertionFailed);
    }
    ChunkAfter(f.buf, f.pos, 8);
    var bbox := f.Read(8);
    DropDrop(s, 4, |bbox|);
    ChunkAfter(f.buf, f.pos, 16);
    var name := f.Read(16);
    DropDrop(s, 4 + |bbox|, |name|);
    ghost var a := if |s| < 12 then |s| else 12;
    ghost var b := if |s| < 28 then |s| else 28;
    assert 4 + |bbox| == a && a + |name| == b;
    assert name == s[a..b];
    return Ok(name);
  }

  /** One frame: its head, then `numverts_` frame vertices. */
  method ReadFrameFrom(f: Stream, nv: int) returns (r: Result<Frame>)
    modifies f
    ensures f.buf == old(f.buf)
    ensures Follows(r, ReadFrame(nv, After(old(f.buf), old(f.pos))), After(f.buf, f.pos))
  {
    var name := ReadFrameHeadFrom(f);
    if name.Err? {
      return Err(name.error);
    }
    var v := ReadTrivertsFrom(f, nv);
    if v.Err? {
      return Err(v.error);
    }
    return Ok(Frame(UpToNul(name.value), v.value));
  }

  // ---------------------------------------------------------------- reading runs

  /** `for i in range(numskins_)`: the skins in file order, the first failure ending
      the run. */
  method ReadSkinsFrom(f: Stream, size: (int, int), n: int) returns (r: Result<seq<Mipmap>>)
    modifies f
    ensures f.buf == old(f.buf)
    ensures Follows(r, ReadRun(ReadSkin, size, After(old(f.buf), old(f.pos)), Clamp(n)), After(f.buf, f.pos))
  {
    var xs: seq<Mipmap> := [];
    var i := 0;
    ghost var N := Clamp(n);
    ghost var spec := ReadRun(ReadSkin, size, After(f.buf, f.pos), N);
    PrependRunNil(spec);
    while i < n
      invariant 0 <= i <= N && f.buf == old(f.buf)
      invariant spec == PrependRun(xs, ReadRun(ReadSkin, size, After(f.buf, f.pos), N - i))
    {
      ghost var s := After(f.buf, f.pos);
      var x := ReadSkinFrom(f, size);
      RunStep(ReadSkin, size, spec, N, i, xs, s, x, After(f.buf, f.pos));
      if x.Err? {
        return Err(x.error);
      }
      xs := xs + [x.value];
      i := i + 1;
    }
    PrependRunDone(xs, After(f.buf, f.pos));
    return Ok(xs);
  }

  /** `for i in range(numverts_)`: the texture-space vertices. */
  method ReadVerticesFrom(f: Stream, n: int) returns (r: Result<seq<Vertex>>)
    modifies f
    ensures f.buf == old(f.buf)
    ensures Follows(r, ReadRun(ReadVertex, (), After(old(f.buf), old(f.pos)), Clamp(n)), After(f.buf, f.pos))
  {
    var xs: seq<Vertex> := [];
    var i := 0;
    ghost var N := Clamp(n);
    ghost var spec := ReadRun(ReadVertex, (), After(f.buf, f.pos), N);
    PrependRunNil(spec);
    while i < n
      invariant 0 <= i <= N && f.buf == old(f.buf)
      invariant spec == PrependRun(xs, ReadRun(ReadVertex, (), After(f.buf, f.pos), N - i))
    {
      ghost var s := After(f.buf, f.pos);
      var x := ReadVertexFrom(f);
      RunStep(ReadVertex, (), spec, N, i, xs, s, x, After(f.buf, f.pos));
      if x.Err? {
        return Err(x.error);
      }
      xs := xs + [x.value];
      i := i + 1;
    }
    PrependRunDone(xs, After(f.buf, f.pos));
    return Ok(xs);
  }

  /** `for i in range(numtris_)`: the triangles. */
  method ReadTrianglesFrom(f: Stream, n: int) returns (r: Result<seq<Triangle>>)
    modifies f
    ensures f.buf == old(f.buf)
    ensures Follows(r, ReadRun(ReadTriangle, (), After(old(f.buf), old(f.pos)), Clamp(n)), After(f.buf, f.pos))
  {
    var xs: seq<Triangle> := [];
    var i := 0;
    ghost var N := Clamp(n);
    ghost var spec := ReadRun(ReadTriangle, (), After(f.buf, f.pos), N);
    PrependRunNil(spec);
    while i < n
      invariant 0 <= i <= N && f.buf == old(f.buf)
      invariant spec == PrependRun(xs, ReadRun(ReadTriangle, (), After(f.buf, f.pos), N - i))
    {
      ghost var s := After(f.buf, f.pos);
      var x := ReadTriangleFrom(f);
      RunStep(ReadTriangle, (), spec, N, i, xs, s, x, After(f.buf, f.pos));
      if x.Err? {
        return Err(x.error);
      }
      xs := xs + [x.value];
      i := i + 1;
    }
    PrependRunDone(xs, After(f.buf, f.pos));
    return Ok(xs);
  }

  /** The inner `for i in range(numverts_)` of a frame: its vertices. */
  method ReadTrivertsFrom(f: Stream, n: int) returns (r: Result<seq<Trivert>>)
    modifies f
    ensures f.buf == old(f.buf)
    ensures Follows(r, ReadRun(ReadTrivert, (), After(old(f.buf), old(f.pos)), Clamp(n)), After(f.buf, f.pos))
  {
    var xs: seq<Trivert> := [];
    var i := 0;
    ghost var N := Clamp(n);
    ghost var spec := ReadRun(ReadTrivert, (), After(f.buf, f.pos), N);
    PrependRunNil(spec);
    while i < n
      invariant 0 <= i <= N && f.buf == old(f.buf)
      invariant spec == PrependRun(xs, ReadRun(ReadTrivert, (), After(f.buf, f.pos), N - i))
    {
      ghost var s := After(f.buf, f.pos);
      var x := ReadTrivertFrom(f);
      RunStep(ReadTrivert, (), spec, N, i, xs, s, x, After(f.buf, f.pos));
      if x.Err? {
        return Err(x.error);
      }
      xs := xs + [x.value];
      i := i + 1;
    }
    PrependRunDone(xs, After(f.buf, f.pos));
    return Ok(xs);
  }

  /** `rd` reads what ReadFrame reads.  The frame loop is stated for such a reader,
      which keeps the frame layout out of the loop's own proof. */
  ghost predicate ReadsFrames(rd: Reader<int, Frame>)
  {
    forall nv, s {:trigger ReadFrame(nv, s)} :: rd(nv, s) == ReadFrame(nv, s)
  }

  /** `for i in range(numframes_)`: the frames, each of `numverts_` vertices. */
  method ReadFramesFrom(f: Stream, nv: int, n: int, ghost rd: Reader<int, Frame>) returns (r: Result<seq<Frame>>)
    requires ReadsFrames(rd)
    modifies f
    ensures f.buf == old(f.buf)
    ensures Follows(r, ReadRun(rd, nv, After(old(f.buf), old(f.pos)), Clamp(n)), After(f.buf, f.pos))
  {
    var xs: seq<Frame> := [];
    var i := 0;
    ghost var N := Clamp(n);
    ghost var spec := ReadRun(rd, nv, After(f.buf, f.pos), N);
    PrependRunNil(spec);
    while i < n
      invariant 0 <= i <= N && f.buf == old(f.buf)
      invariant spec == PrependRun(xs, ReadRun(rd, nv, After(f.buf, f.pos), N - i))
    {
      var x := ReadNextFrame(f, nv, rd, spec, N, i, xs);
      if x.Err? {
        return Err(x.error);
      }
      xs := xs + [x.value];
      i := i + 1;
    }
    PrependRunDone(xs, After(f.buf, f.pos));
    return Ok(xs);
  }

  /** One pass of the frame loop: the next frame of a run of which `xs` were read. */
  method ReadNextFrame(f: Stream, nv: int, ghost rd: Reader<int, Frame>, ghost spec: Result<(seq<Frame>, seq<byte>)>,
    ghost n: nat, ghost i: nat, ghost xs: seq<Frame>) returns (x: Result<Frame>)
    requires ReadsFrames(rd)
    requires i < n && spec == PrependRun(xs, ReadRun(rd, nv, After(f.buf, f.pos), n - i))
    modifies f
    ensures f.buf == old(f.buf)
    ensures x.Err? ==> spec == Err(x.error)
    ensures x.Ok? ==> spec == PrependRun(xs + [x.value], ReadRun(rd, nv, After(f.buf, f.pos), n - (i + 1)))
  {
    ghost var s := After(f.buf, f.pos);
    x := ReadFrameFrom(f, nv);
    RunStep(rd, nv, spec, n, i, xs, s, x, After(f.buf, f.pos));
  }

  // ---------------------------------------------------------------- writing

  /** One skin: the zero skin type, the size asserts, then `skin.pack(f)`. */
  method WriteSkinTo(f: Stream, size: (int, int), m: Mipmap) returns (r: Result<()>)
    requires f.pos == |f.buf|
    modifies f
    ensures f.pos == |f.buf|
    ensures r == Done(EncodeSkin(size, m))
    ensures r.Ok? ==> f.buf == old(f.buf) + EncodeSkin(size, m).value
  {
    Append(f, Zeros(4));
    if m.w != size.0 || m.h != size.1 {
      return Err(AssertionFailed);
    }
    var d := Mipmaps.Pack(m);
    if d.Err? {
      return Err(d.error);
    }
    Assoc(old(f.buf), Zeros(4), d.value);
    Append(f, d.value);
    return Ok(());
  }

  /** One vertex: `struct.pack("<iii", ...)` written. */
  method WriteVertexTo(f: Stream, v: Vertex) returns (r: Result<()>)
    requires f.pos == |f.buf|
    modifies f
    ensures f.pos == |f.buf|
    ensures r == Done(EncodeVertex((), v))
    ensures r.Ok? ==> f.buf == old(f.buf) + EncodeVertex((), v).value
  {
    var e := EncodeVertex((), v);
    if e.Err? {
      return Err(e.error);
    }
    Append(f, e.value);
    return Ok(());
  }

  /** One triangle: `struct.pack("<iiii", ...)` written. */
  method WriteTriangleTo(f: Stream, t: Triangle) returns (r: Result<()>)
    requires f.pos == |f.buf|
    modifies f
    ensures f.pos == |f.buf|
    ensures r == Done(EncodeTriangle((), t))
    ensures r.Ok? ==> f.buf == old(f.buf) + EncodeTriangle((), t).value
  {
    var e := EncodeTriangle((), t);
    if e.Err? {
      return Err(e.error);
    }
    Append(f, e.value);
    return Ok(());
  }

  /** `map(packv, frame.v)`: every vertex re-quantised before any is written; the
      first failure stops the map. */
  method PackTriverts(box: Box, v: seq<Trivert>) returns (r: Result<seq<byte>>)
    ensures r == WriteRun(PackTrivert, box, v)
  {
    ghost var spec := WriteRun(PackTrivert, box, v);
    var acc: seq<byte> := [];
    var i := 0;
    AppendToNil(spec);
    assert v[0..] == v;
    while i < |v|
      invariant 0 <= i <= |v|
      invariant spec == AppendTo(acc, WriteRun(PackTrivert, box, v[i..]))
    {
      var e := PackV(v[i].x, v[i].y, v[i].z, v[i].light, box);
      WriteStep(PackTrivert, box, spec, v, i, acc, e);
      if e.Err? {
        return Err(e.error);
      }
      acc := acc + e.value;
      i := i + 1;
    }
    WriteDone(PackTrivert, box, spec, v, acc);
    return Ok(acc);
  }

  /** One frame: the zero frame type, the length assert, the frame's bounding box
      through packv, the name through FCharPtr(16), then the packed vertices. */
  method WriteFrameTo(f: Stream, k: FrameLayout, fr: Frame) returns (r: Result<()>)
    requires f.pos == |f.buf|
    modifies f
    ensures f.pos == |f.buf|
    ensures r == Done(EncodeFrame(k, fr))
    ensures r.Ok? ==> f.buf == old(f.buf) + EncodeFrame(k, fr).value
  {
    Append(f, Zeros(4));
    if |fr.v| != k.nv {
      return Err(AssertionFailed);
    }
    var bb := BBox(fr.v);
    if bb.Err? {
      return Err(bb.error);
    }
    var lo := PackV(bb.value.0.x, bb.value.0.y, bb.value.0.z, 0, k.box);
    if lo.Err? {
      return Err(lo.error);
    }
    Append(f, lo.value);
    var hi := PackV(bb.value.1.x, bb.value.1.y, bb.value.1.z, 0, k.box);
    if hi.Err? {
      return Err(hi.error);
    }
    Append(f, hi.value);
    var name := EncodeScalar(CharPtr(16), Str(fr.name));
    if name.Err? {
      return Err(name.error);
    }
    Append(f, name.value);
    var vs := PackTriverts(k.box, fr.v);
    if vs.Err? {
      return Err(vs.error);
    }
    Append(f, vs.value);
    FrameBytes(old(f.buf), lo.value, hi.value, name.value, vs.value);
    return Ok(());
  }

  lemma {:induction false} FrameBytes(b: seq<byte>, lo: seq<byte>, hi: seq<byte>, name: seq<byte>, vs: seq<byte>)
    ensures b + Zeros(4) + lo + hi + name + vs == b + (Zeros(4) + (lo + hi) + name + vs)
  {
  }

  /** `for skin in self.skins`. */
  method WriteSkinsTo(f: Stream, size: (int, int), xs: seq<Mipmap>) returns (r: Result<()>)
    requires f.pos == |f.buf|
    modifies f
    ensures f.pos == |f.buf|
    ensures r == Done(WriteRun(EncodeSkin, size, xs))
    ensures r.Ok? ==> f.buf == old(f.buf) + WriteRun(EncodeSkin, size, xs).value
  {
    ghost var spec := WriteRun(EncodeSkin, size, xs);
    ghost var w: seq<byte> := [];
    var i := 0;
    AppendToNil(spec);
    assert xs[0..] == xs;
    assert old(f.buf) + [] == old(f.buf);
    while i < |xs|
      invariant 0 <= i <= |xs| && f.pos == |f.buf| && f.buf == old(f.buf) + w
      invariant spec == AppendTo(w, WriteRun(EncodeSkin, size, xs[i..]))
    {
      ghost var e := EncodeSkin(size, xs[i]);
      WriteStep(EncodeSkin, size, spec, xs, i, w, e);
      var x := WriteSkinTo(f, size, xs[i]);
      if x.Err? {
        return x;
      }
      Assoc(old(f.buf), w, e.value);
      w := w + e.value;
      i := i + 1;
    }
    WriteDone(EncodeSkin, size, spec, xs, w);
    return Ok(());
  }

  /** `for s, t, onseam in self.vertices`. */
  method WriteVerticesTo(f: Stream, xs: seq<Vertex>) returns (r: Result<()>)
    requires f.pos == |f.buf|
    modifies f
    ensures f.pos == |f.buf|
    ensures r == Done(WriteRun(EncodeVertex, (), xs))
    ensures r.Ok? ==> f.buf == old(f.buf) + WriteRun(EncodeVertex, (), xs).value
  {
    ghost var spec := WriteRun(EncodeVertex, (), xs);
    ghost var w: seq<byte> := [];
    var i := 0;
    AppendToNil(spec);
    assert xs[0..] == xs;
    assert old(f.buf) + [] == old(f.buf);
    while i < |xs|
      invariant 0 <= i <= |xs| && f.pos == |f.buf| && f.buf == old(f.buf) + w
      invariant spec == AppendTo(w, WriteRun(EncodeVertex, (), xs[i..]))
    {
      ghost var e := EncodeVertex((), xs[i]);
      WriteStep(EncodeVertex, (), spec, xs, i, w, e);
      var x := WriteVertexTo(f, xs[i]);
      if x.Err? {
        return x;
      }
      Assoc(old(f.buf), w, e.value);
      w := w + e.value;
      i := i + 1;
    }
    WriteDone(EncodeVertex, (), spec, xs, w);
    return Ok(());
  }

  /** `for p1, p2, p3, front in self.triangles`. */
  method WriteTrianglesTo(f: Stream, xs: seq<Triangle>) returns (r: Result<()>)
    requires f.pos == |f.buf|
    modifies f
    ensures f.pos == |f.buf|
    ensures r == Done(WriteRun(EncodeTriangle, (), xs))
    ensures r.Ok? ==> f.buf == old(f.buf) + WriteRun(EncodeTriangle, (), xs).value
  {
    ghost var spec := WriteRun(EncodeTriangle, (), xs);
    ghost var w: seq<byte> := [];
    var i := 0;
    AppendToNil(spec);
    assert xs[0..] == xs;
    assert old(f.buf) + [] == old(f.buf);
    while i < |xs|
      invariant 0 <= i <= |xs| && f.pos == |f.buf| && f.buf == old(f.buf) + w
      invariant spec == AppendTo(w, WriteRun(EncodeTriangle, (), xs[i..]))
    {
      ghost var e := EncodeTriangle((), xs[i]);
      WriteStep(EncodeTriangle, (), spec, xs, i, w, e);
      var x := WriteTriangleTo(f, xs[i]);
      if x.Err? {
        return x;
      }
      Assoc(old(f.buf), w, e.value);
      w := w + e.value;
      i := i + 1;
    }
    WriteDone(EncodeTriangle, (), spec, xs, w);
    return Ok(());
  }

  /** `for frame in self.frames`. */
  method WriteFramesTo(f: Stream, k: FrameLayout, xs: seq<Frame>) returns (r: Result<()>)
    requires f.pos == |f.buf|
    modifies f
    ensures f.pos == |f.buf|
    ensures r == Done(WriteRun(EncodeFrame, k, xs))
    ensures r.Ok? ==> f.buf == old(f.buf) + WriteRun(EncodeFrame, k, xs).value
  {
    ghost var spec := WriteRun(EncodeFrame, k, xs);
    ghost var w: seq<byte> := [];
    var i := 0;
    AppendToNil(spec);
    assert xs[0..] == xs;
    assert old(f.buf) + [] == old(f.buf);
    while i < |xs|
      invariant 0 <= i <= |xs| && f.pos == |f.buf| && f.buf == old(f.buf) + w
      invariant spec == AppendTo(w, WriteRun(EncodeFrame, k, xs[i..]))
    {
      ghost var e := EncodeFrame(k, xs[i]);
      WriteStep(EncodeFrame, k, spec, xs, i, w, e);
      var x := WriteFrameTo(f, k, xs[i]);
      if x.Err? {
        return x;
      }
      Assoc(old(f.buf), w, e.value);
      w := w + e.value;
      i := i + 1;
    }
    WriteDone(EncodeFrame, k, spec, xs, w);
    return Ok(());
  }

  /** fix's `allv += frame.v` over the frames. */
  method CollectVerts(frames: seq<Frame>) returns (allv: seq<Trivert>)
    ensures allv == AllVerts(frames)
  {
    allv := [];
    var i := 0;
    assert frames[0..] == frames;
    while i < |frames|
      invariant 0 <= i <= |frames|
      invariant AllVerts(frames) == allv + AllVerts(frames[i..])
    {
      AllVertsFrom(frames, i);
      allv := allv + frames[i].v;
      i := i + 1;
    }
    assert frames[i..] == [];
    assert allv + [] == allv;
  }

  lemma {:induction false} AllVertsFrom(frames: seq<Frame>, i: nat)
    requires i < |frames|
    ensures AllVerts(frames[i..]) == frames[i].v + AllVerts(frames[i + 1..])
  {
    assert frames[i..][0] == frames[i] && frames[i..][1..] == frames[i + 1..];
  }

  // ---------------------------------------------------------------- the record

  /** A QMdl: the header fields of its `__dict__` (a field-based record of MdlFields)
      and the four lists `unpack` sets after them. */
  class Model {
    const header: Record
    var skins: seq<Mipmap>
    var vertices: seq<Vertex>
    var triangles: seq<Triangle>
    var frames: seq<Frame>

    function Contents(): (r: Body)
      reads this
    {
      Body(skins, vertices, triangles, frames)
    }

    /** `QMdl(**kwds)` with the lists given. */
    constructor (kwds: map<string, Fields.Value>, body: Body)
      ensures header.layout == Some(MdlFields()) && header.raw == None && header.attrs == kwds
      ensures Contents() == body && fresh(header)
    {
      header := new Record.FromAttrs(Some(MdlFields()), kwds);
      skins, vertices, triangles, frames := body.skins, body.vertices, body.triangles, body.frames;
    }

    /** QMdl.unpack: the header fields through QData.unpack, then the skins, the
        vertices, the triangles and the frames, each counted by the header just
        read.  With the layout MdlFields, on a stream of a model's bytes and with
        nothing in `__dict__` yet, this is Mdl.DecodeModel. */
    method Unpack(f: Stream) returns (failure: Option<Error>)
      requires header.layout.Some?
      modifies this, header, f
      ensures f.buf == old(f.buf) && header.raw == old(header.raw)
      ensures var u := UnpackWith(header.layout.value, old(f.buf), old(f.pos), old(header.attrs));
        header.attrs == u.0 && BodyFollows(failure, Contents(), u.1, After(f.buf, f.pos))
    {
      failure := header.Unpack(f);
      if failure.Some? {
        return;
      }
      var b := ReadBodyFrom(f, header.attrs);
      if b.Err? {
        return Some(b.error);
      }
      skins, vertices, triangles, frames := b.value.skins, b.value.vertices, b.value.triangles, b.value.frames;
    }

    /** QMdl.pack: fix (getbbox of every frame vertex, then the counts), QData.pack
        of the header fields, then the skins, vertices, triangles and frames, every
        frame vertex re-quantised against the box of all of them.  With the layout
        MdlFields this is Mdl.PackModel. */
    method Pack(f: Stream) returns (r: Result<()>)
      requires header.layout.Some? && f.pos == |f.buf|
      modifies header, f
      ensures header.raw == old(header.raw)
      ensures header.attrs == if BBox(AllVerts(frames)).Ok? then Fix(old(header.attrs), Contents()) else old(header.attrs)
      ensures var spec := PackModelWith(header.layout.value, old(f.buf), old(header.attrs), Contents());
        r == Done(spec) && (spec.Ok? ==> f.buf == spec.value && f.pos == |f.buf|)
    {
      var allv := CollectVerts(frames);
      var box := BBox(allv);
      if box.Err? {
        return Err(box.error);
      }
      header.attrs := Fix(header.attrs, Contents());
      r := PackInto(f, header.layout.value, header.attrs);
      if r.Err? {
        return;
      }
      r := WriteBodyTo(f, header.attrs, Contents(), Box(box.value.0, box.value.1));
    }
  }

  /** The body loops of QMdl.unpack, with the header's counts and skin size. */
  method ReadBodyFrom(f: Stream, attrs: map<string, Fields.Value>) returns (r: Result<Body>)
    modifies f
    ensures f.buf == old(f.buf)
    ensures Follows(r, ReadBody(After(old(f.buf), old(f.pos)), attrs), After(f.buf, f.pos))
  {
    var sk := ReadSkinsFrom(f, SkinSize(attrs), HeaderInt(attrs, NumSkins));
    if sk.Err? {
      return Err(sk.error);
    }
    var vs := ReadVerticesFrom(f, HeaderInt(attrs, NumVerts));
    if vs.Err? {
      return Err(vs.error);
    }
    var ts := ReadTrianglesFrom(f, HeaderInt(attrs, NumTris));
    if ts.Err? {
      return Err(ts.error);
    }
    var fr := ReadFramesFrom(f, HeaderInt(attrs, NumVerts), HeaderInt(attrs, NumFrames), ReadFrame);
    if fr.Err? {
      return Err(fr.error);
    }
    return Ok(Body(sk.value, vs.value, ts.value, fr.value));
  }

  /** The body loops of QMdl.pack, against the box of every frame vertex. */
  method WriteBodyTo(f: Stream, attrs: map<string, Fields.Value>, body: Body, box: Box) returns (r: Result<()>)
    requires f.pos == |f.buf|
    modifies f
    ensures f.pos == |f.buf|
    ensures r == Done(PackBody(attrs, body, box))
    ensures r.Ok? ==> f.buf == old(f.buf) + PackBody(attrs, body, box).value
  {
    var k := FrameLayout(|body.vertices|, box);
    r := WriteSkinsTo(f, SkinSize(attrs), body.skins);
    if r.Err? {
      return;
    }
    r := WriteVerticesTo(f, body.vertices);
    if r.Err? {
      return;
    }
    r := WriteTrianglesTo(f, body.triangles);
    if r.Err? {
      return;
    }
    r := WriteFramesTo(f, k, body.frames);
    if r.Err? {
      return;
    }
    PackBytes(old(f.buf), WriteRun(EncodeSkin, SkinSize(attrs), body.skins).value, WriteRun(EncodeVertex, (), body.vertices).value,
      WriteRun(EncodeTriangle, (), body.triangles).value, WriteRun(EncodeFrame, k, body.frames).value);
  }

  /** What the body loops of `unpack` report: the failure ReadBody ends with, or no
      failure with the lists ReadBody reads and the cursor where it stops. */
  predicate BodyFollows(failure: Option<Error>, body: Body, spec: Result<(Body, seq<byte>)>, rest: seq<byte>)
  {
    match spec
    case Ok(b) => failure.None? && body == b.0 && rest == b.1
    case Err(e) => failure == Some(e)
  }

  lemma {:induction false} PackBytes(h: seq<byte>, sk: seq<byte>, vs: seq<byte>, ts: seq<byte>, fr: seq<byte>)
    ensures h + sk + vs + ts + fr == h + (sk + vs + ts + fr)
  {
  }
}
