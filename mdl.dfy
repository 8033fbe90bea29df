/** The body of an alias model (QMdl of Server/qdata.py): after the header fields come
    `numskins_` skins, `numverts_` texture-space vertices, `numtris_` triangles and
    `numframes_` animation frames, each a run of fixed-layout little-endian items.

    The body is read from the bytes left after the header (the stream's buffer from
    its cursor on): every reader returns the item and the bytes after it.

    Frame vertices are kept as the quantised bytes of the file: a coordinate byte `q`
    stands for `scale_origin + q * scale`, and the header's float scale is assumed
    positive.  Packing re-quantises every coordinate against the bounding box of all
    frames, which in exact arithmetic is `(q - lo) * 255 / (hi - lo)` truncated. */
module Mdl {
  import opened Results
  import opened Bytes
  import opened Scalars
  import opened Mipmaps
  import opened Fields
  import opened FieldsRoundTrip
  import opened Records
  import opened Schemas
  import opened Runs

  /** `(s, t, onseam)`. */
  datatype Vertex = Vertex(s: int, t: int, onseam: bool)

  /** `(p1, p2, p3, front)`. */
  datatype Triangle = Triangle(p1: int, p2: int, p3: int, front: bool)

  /** `(x, y, z, l)`: quantised position and normal index. */
  datatype Trivert = Trivert(x: byte, y: byte, z: byte, light: byte)

  /** QFrame. */
  datatype Frame = Frame(name: seq<byte>, v: seq<Trivert>)

  /** The lists QMdl.unpack sets after the header fields. */
  datatype Body = Body(skins: seq<Mipmap>, vertices: seq<Vertex>, triangles: seq<Triangle>, frames: seq<Frame>)

  datatype Point = Point(x: int, y: int, z: int)

  // ---------------------------------------------------------------- items

  /** `bool(onseam & 0x20)`: bit 5 of the two's complement flags. */
  predicate OnSeam(flags: int)
  {
    (flags % 64) / 32 == 1
  }

  /** `struct.unpack("<iii", f.read(12))` as `(onseam, s, t)`; vertices need nothing
      from the header. */
  function ReadVertex(none: (), s: seq<byte>): (r: Result<(Vertex, seq<byte>)>)
  {
    var c := Read(s, 12);
    if |c| != 12 then Err(StructError)
    else
      var w := DecodeInts(c, 3);
      Ok((Vertex(w[1], w[2], OnSeam(w[0])), s[12..]))
  }

  /** `struct.pack("<iii", onseam and 0x20 or 0, s, t)`. */
  function EncodeVertex(none: (), v: Vertex): (r: Result<seq<byte>>)
  {
    if SignedFits(v.s, 4) && SignedFits(v.t, 4) then Ok(Ints([if v.onseam then 0x20 else 0, v.s, v.t]))
    else Err(StructError)
  }

  /** `struct.unpack("<iiii", f.read(16))` as `(front, p1, p2, p3)`. */
  function ReadTriangle(none: (), s: seq<byte>): (r: Result<(Triangle, seq<byte>)>)
  {
    var c := Read(s, 16);
    if |c| != 16 then Err(StructError)
    else
      var w := DecodeInts(c, 4);
      Ok((Triangle(w[1], w[2], w[3], w[0] != 0), s[16..]))
  }

  /** `struct.pack("<iiii", front, p1, p2, p3)`, a boolean `front` packing as 0 or 1. */
  function EncodeTriangle(none: (), t: Triangle): (r: Result<seq<byte>>)
  {
    if SignedFits(t.p1, 4) && SignedFits(t.p2, 4) && SignedFits(t.p3, 4) then
      Ok(Ints([if t.front then 1 else 0, t.p1, t.p2, t.p3]))
    else Err(StructError)
  }

  /** `struct.unpack("BBBB", f.read(4))`. */
  function ReadTrivert(none: (), s: seq<byte>): (r: Result<(Trivert, seq<byte>)>)
  {
    if |s| < 4 then Err(StructError) else Ok((Trivert(s[0], s[1], s[2], s[3]), s[4..]))
  }

  /** One skin of the header's `(skinwidth, skinheight)`: a 4-byte skin type that must
      be zero, then `f.read(skinwidth * skinheight)` with no length check (a negative
      size reads the rest). */
  function ReadSkin(size: (int, int), s: seq<byte>): (r: Result<(Mipmap, seq<byte>)>)
  {
    var tag := Read(s, 4);
    if tag != Zeros(4) then Err(AssertionFailed)
    else
      var data := Read(s[4..], size.0 * size.1);
      Ok((Indexed(size.0, size.1, data), s[4 + |data|..]))
  }

  /** The pack loop's body for one skin: the zero skin type, then the skin's pixels
      once its size is checked against the header. */
  function EncodeSkin(size: (int, int), m: Mipmap): (r: Result<seq<byte>>)
  {
    if m.w != size.0 || m.h != size.1 then Err(AssertionFailed)
    else
      var d :- Mipmaps.Pack(m);
      Ok(Zeros(4) + d)
  }

  /** One frame of the header's `numverts_`: its head, then `numverts_` triverts. */
  function ReadFrame(nv: int, s: seq<byte>): (r: Result<(Frame, seq<byte>)>)
  {
    var h :- FrameHead(s);
    var v :- ReadRun(ReadTrivert, (), h.1, Clamp(nv));
    Ok((Frame(UpToNul(h.0), v.0), v.1))
  }

  /** The head of a frame: a zero frame type, 8 ignored bbox bytes, then the 16 bytes
      of the FCharPtr(16) name (as read, before the cut at NUL); the reads after the
      type word stop short at the end of the bytes. */
  function FrameHead(s: seq<byte>): (r: Result<(seq<byte>, seq<byte>)>)
  {
    if !ZeroTag(s) then Err(AssertionFailed)
    else
      var a := if |s| < 12 then |s| else 12;
      var b := if |s| < 28 then |s| else 28;
      Ok((s[a..b], s[b..]))
  }

  /** `f.read(4) == '\x00' * 4`: the bytes left start with four zero bytes. */
  predicate ZeroTag(s: seq<byte>)
  {
    |s| >= 4 && s[0] == NUL && s[1] == NUL && s[2] == NUL && s[3] == NUL
  }

  lemma {:induction false} ZeroTagRead(s: seq<byte>)
    ensures ZeroTag(s) <==> Read(s, 4) == Zeros(4)
  {
    if ZeroTag(s) {
      assert s[..4] == Zeros(4);
    }
    if Read(s, 4) == Zeros(4) {
      assert |s| >= 4 && s[..4][0] == NUL && s[..4][1] == NUL && s[..4][2] == NUL && s[..4][3] == NUL;
    }
  }

  // ---------------------------------------------------------------- bounding boxes

  function MinOf(s: seq<int>): (r: int)
    requires s != []
    ensures r in s && forall i | 0 <= i < |s| :: r <= s[i]
  {
    if |s| == 1 then s[0] else var m := MinOf(s[1..]); if s[0] <= m then s[0] else m
  }

  function MaxOf(s: seq<int>): (r: int)
    requires s != []
    ensures r in s && forall i | 0 <= i < |s| :: s[i] <= r
  {
    if |s| == 1 then s[0] else var m := MaxOf(s[1..]); if s[0] >= m then s[0] else m
  }

  function Xs(v: seq<Trivert>): (r: seq<int>)
    ensures |r| == |v| && forall i | 0 <= i < |v| :: r[i] == v[i].x
  {
    seq(|v|, i requires 0 <= i < |v| => v[i].x as int)
  }

  function Ys(v: seq<Trivert>): (r: seq<int>)
    ensures |r| == |v| && forall i | 0 <= i < |v| :: r[i] == v[i].y
  {
    seq(|v|, i requires 0 <= i < |v| => v[i].y as int)
  }

  function Zs(v: seq<Trivert>): (r: seq<int>)
    ensures |r| == |v| && forall i | 0 <= i < |v| :: r[i] == v[i].z
  {
    seq(|v|, i requires 0 <= i < |v| => v[i].z as int)
  }

  /** getbbox: the per-axis minimum and maximum of the positions; `zip(*[])` leaves
      nothing to unpack, so an empty list raises ValueError. */
  function BBox(v: seq<Trivert>): (r: Result<(Point, Point)>)
    ensures r.Err? <==> v == []
    ensures r.Err? ==> r.error == ValueError
    ensures r.Ok? ==> forall i | 0 <= i < |v| ::
      r.value.0.x <= v[i].x <= r.value.1.x && r.value.0.y <= v[i].y <= r.value.1.y &&
      r.value.0.z <= v[i].z <= r.value.1.z
  {
    if v == [] then Err(ValueError)
    else Ok((Point(MinOf(Xs(v)), MinOf(Ys(v)), MinOf(Zs(v))), Point(MaxOf(Xs(v)), MaxOf(Ys(v)), MaxOf(Zs(v)))))
  }

  /** Every bound of getbbox is the coordinate of some position. */
  lemma {:induction false} BBoxAttained(v: seq<Trivert>)
    requires v != []
    ensures var b := BBox(v).value;
      (exists i | 0 <= i < |v| :: v[i].x == b.0.x) && (exists i | 0 <= i < |v| :: v[i].x == b.1.x) &&
      (exists i | 0 <= i < |v| :: v[i].y == b.0.y) && (exists i | 0 <= i < |v| :: v[i].y == b.1.y) &&
      (exists i | 0 <= i < |v| :: v[i].z == b.0.z) && (exists i | 0 <= i < |v| :: v[i].z == b.1.z)
  {
    var b := BBox(v).value;
    var i0 :| 0 <= i0 < |v| && Xs(v)[i0] == b.0.x;
    var i1 :| 0 <= i1 < |v| && Xs(v)[i1] == b.1.x;
    var i2 :| 0 <= i2 < |v| && Ys(v)[i2] == b.0.y;
    var i3 :| 0 <= i3 < |v| && Ys(v)[i3] == b.1.y;
    var i4 :| 0 <= i4 < |v| && Zs(v)[i4] == b.0.z;
    var i5 :| 0 <= i5 < |v| && Zs(v)[i5] == b.1.z;
  }

  // ---------------------------------------------------------------- frames on the way out

  /** Python's `int()` of an exact quotient: truncation toward zero. */
  function TruncDiv(a: int, b: int): (r: int)
    requires b != 0
  {
    if (a < 0) == (b < 0) then Abs(a) / Abs(b) else -(Abs(a) / Abs(b))
  }

  function Abs(a: int): (r: nat)
  {
    if a < 0 then -a else a
  }

  /** `int((x - scale_origin) / scale)` with `scale_origin = lo` and
      `scale = (hi - lo) / 255`, computed exactly. */
  function Requantise(q: int, lo: int, hi: int): (r: int)
    requires lo != hi
  {
    TruncDiv((q - lo) * 255, hi - lo)
  }

  /** The box `(lo, hi)` of every frame's positions, which packing quantises against. */
  datatype Box = Box(lo: Point, hi: Point)

  /** packv against the box of every frame: a flat axis has scale 0 and divides by
      zero; otherwise each coordinate is re-quantised and must land in 0..255. */
  function PackV(x: int, y: int, z: int, l: byte, box: Box): (r: Result<seq<byte>>)
  {
    var lo, hi := box.lo, box.hi;
    if lo.x == hi.x || lo.y == hi.y || lo.z == hi.z then Err(ZeroDivision)
    else
      var qx, qy, qz := Requantise(x, lo.x, hi.x), Requantise(y, lo.y, hi.y), Requantise(z, lo.z, hi.z);
      if 0 <= qx < 256 && 0 <= qy < 256 && 0 <= qz < 256 then Ok([qx as byte, qy as byte, qz as byte, l])
      else Err(AssertionFailed)
  }

  /** `packv(v.x, v.y, v.z, v.l)` for one frame vertex. */
  function PackTrivert(box: Box, t: Trivert): (r: Result<seq<byte>>)
  {
    PackV(t.x, t.y, t.z, t.light, box)
  }

  /** What packing one frame needs: `numverts_` and the box of every frame. */
  datatype FrameLayout = FrameLayout(nv: nat, box: Box)

  /** The pack loop's body for one frame: the zero frame type, the length check
      against `numverts_`, the frame's own bounding box through packv, the name, then
      every vertex through packv. */
  function EncodeFrame(k: FrameLayout, fr: Frame): (r: Result<seq<byte>>)
  {
    if |fr.v| != k.nv then Err(AssertionFailed)
    else
      var bb :- FrameBounds(k.box, fr.v);
      var name :- EncodeScalar(CharPtr(16), Str(fr.name));
      var vs :- WriteRun(PackTrivert, k.box, fr.v);
      Ok(Zeros(4) + bb + name + vs)
  }

  /** The frame's own bounding box, both corners through packv with light 0: eight
      bytes, or the error of getbbox or packv. */
  function FrameBounds(box: Box, v: seq<Trivert>): (r: Result<seq<byte>>)
    ensures r.Ok? ==> |r.value| == 8
    ensures v == [] ==> r == Err(ValueError)
  {
    var fb :- BBox(v);
    var a :- PackV(fb.0.x, fb.0.y, fb.0.z, 0, box);
    var b :- PackV(fb.1.x, fb.1.y, fb.1.z, 0, box);
    Ok(a + b)
  }

  /** `allv += frame.v` over the frames. */
  function AllVerts(frames: seq<Frame>): (r: seq<Trivert>)
    ensures forall i, j | 0 <= i < |frames| && 0 <= j < |frames[i].v| :: frames[i].v[j] in r
  {
    if frames == [] then [] else frames[0].v + AllVerts(frames[1..])
  }


  // ---------------------------------------------------------------- item round trips

  /** Little-endian int32s that fit read back as themselves, and reading stops just
      after them. */
  lemma {:induction false} WordsAt(ws: seq<int>, rest: seq<byte>)
    requires AllFit(ws)
    ensures Read(Ints(ws) + rest, 4 * |ws|) == Ints(ws)
    ensures DecodeInts(Ints(ws), |ws|) == ws && (Ints(ws) + rest)[4 * |ws|..] == rest
  {
    assert (Ints(ws) + rest)[..4 * |ws|] == Ints(ws);
    IntsRoundTrip(ws);
  }

  /** A vertex that packs reads back as itself, whatever bytes follow it. */
  lemma {:induction false} VertexAt(v: Vertex, rest: seq<byte>)
    requires EncodeVertex((), v).Ok?
    ensures ReadVertex((), EncodeVertex((), v).value + rest) == Ok((v, rest))
  {
    var ws := [if v.onseam then 0x20 else 0, v.s, v.t];
    assert AllFit(ws);
    WordsAt(ws, rest);
  }

  /** A triangle that packs reads back as itself, whatever bytes follow it. */
  lemma {:induction false} TriangleAt(t: Triangle, rest: seq<byte>)
    requires EncodeTriangle((), t).Ok?
    ensures ReadTriangle((), EncodeTriangle((), t).value + rest) == Ok((t, rest))
  {
    var ws := [if t.front then 1 else 0, t.p1, t.p2, t.p3];
    assert AllFit(ws);
    WordsAt(ws, rest);
  }

  /** A skin of the header's size whose pixels fill it reads back as itself. */
  lemma {:induction false} SkinAt(m: Mipmap, size: (int, int), rest: seq<byte>)
    requires m.Indexed? && EncodeSkin(size, m).Ok?
    ensures ReadSkin(size, EncodeSkin(size, m).value + rest) == Ok((m, rest))
  {
    var s := EncodeSkin(size, m).value + rest;
    assert s == Zeros(4) + (m.data + rest);
    assert s[..4] == Zeros(4) && s[4..] == m.data + rest;
    assert (m.data + rest)[..|m.data|] == m.data;
    assert s[4 + |m.data|..] == rest;
  }

  /** The box of a file whose coordinates span the whole byte range on every axis. */
  predicate IsFull(box: Box)
  {
    box == Box(Point(0, 0, 0), Point(255, 255, 255))
  }

  /** Against the full box re-quantisation is the identity, so packv writes each
      position's bytes unchanged. */
  lemma {:induction false} PackVFull(x: byte, y: byte, z: byte, l: byte, box: Box)
    requires IsFull(box)
    ensures PackV(x, y, z, l, box) == Ok([x, y, z, l])
  {
    assert Requantise(x, 0, 255) == x by { DivMulExact(x, 255); }
    assert Requantise(y, 0, 255) == y by { DivMulExact(y, 255); }
    assert Requantise(z, 0, 255) == z by { DivMulExact(z, 255); }
  }

  /** Against the full box a frame vertex packs to its own four bytes and reads back. */
  lemma {:induction false} TrivertAt(t: Trivert, box: Box, rest: seq<byte>)
    requires IsFull(box)
    ensures PackTrivert(box, t) == Ok([t.x, t.y, t.z, t.light])
    ensures ReadTrivert((), [t.x, t.y, t.z, t.light] + rest) == Ok((t, rest))
  {
    PackVFull(t.x, t.y, t.z, t.light, box);
    assert ([t.x, t.y, t.z, t.light] + rest)[4..] == rest;
  }

  lemma {:induction false} NameReadsBack(s: seq<byte>)
    requires |s| < 16 && NUL !in s
    ensures EncodeScalar(CharPtr(16), Str(s)).Ok? && UpToNul(EncodeScalar(CharPtr(16), Str(s)).value) == s
  {
    UpToNulOfPadded(s, 16 - |s|);
  }

  /** The layout of an encoded frame: type, 8 bbox bytes, the name, the triverts. */
  lemma {:induction false} FrameShape(fr: Frame, k: FrameLayout) returns (bb: seq<byte>)
    requires EncodeFrame(k, fr).Ok?
    ensures EncodeScalar(CharPtr(16), Str(fr.name)).Ok? && WriteRun(PackTrivert, k.box, fr.v).Ok? && |fr.v| == k.nv
    ensures |bb| == 8 && |EncodeScalar(CharPtr(16), Str(fr.name)).value| == 16
    ensures EncodeFrame(k, fr).value ==
      Zeros(4) + (bb + (EncodeScalar(CharPtr(16), Str(fr.name)).value + WriteRun(PackTrivert, k.box, fr.v).value))
  {
    CharPtrWrite(16, fr.name);
    bb := FrameBounds(k.box, fr.v).value;
    var name, vs := EncodeScalar(CharPtr(16), Str(fr.name)).value, WriteRun(PackTrivert, k.box, fr.v).value;
    Assoc(Zeros(4) + bb, name, vs);
    Assoc(Zeros(4), bb, name + vs);
  }

  /** A frame of `numverts_` triverts in a file spanning the full box, with a name that
      fits FCharPtr(16) and has no NUL, reads back as itself. */
  lemma {:induction false} FrameAt(fr: Frame, k: FrameLayout, rest: seq<byte>)
    requires IsFull(k.box) && EncodeFrame(k, fr).Ok? && NUL !in fr.name
    ensures ReadFrame(k.nv, EncodeFrame(k, fr).value + rest) == Ok((fr, rest))
  {
    var bb := FrameShape(fr, k);
    NameReadsBack(fr.name);
    TrivertsAt(fr.v, k.box, rest);
    ReadFrameOf(k.nv, bb, EncodeScalar(CharPtr(16), Str(fr.name)).value, WriteRun(PackTrivert, k.box, fr.v).value, rest, fr);
  }

  /** Reading a frame from its four parts. */
  lemma {:induction false} ReadFrameOf(nv: nat, bb: seq<byte>, name: seq<byte>, vs: seq<byte>, rest: seq<byte>, fr: Frame)
    requires |bb| == 8 && |name| == 16 && UpToNul(name) == fr.name
    requires ReadRun(ReadTrivert, (), vs + rest, nv) == Ok((fr.v, rest))
    ensures ReadFrame(nv, Zeros(4) + (bb + (name + vs)) + rest) == Ok((fr, rest))
  {
    var s := Zeros(4) + (bb + (name + vs)) + rest;
    assert s == Zeros(4) + bb + name + (vs + rest);
    assert s[0] == NUL && s[1] == NUL && s[2] == NUL && s[3] == NUL;
    assert s[12..28] == name && s[28..] == vs + rest;
  }

  // ---------------------------------------------------------------- run round trips

  /** `x` is written without error, and whatever bytes follow its bytes, `rd` reads
      `x` back from them and stops just after them. */
  ghost predicate ReadsBack<C, D, T>(rd: Reader<C, T>, c: C, enc: Writer<D, T>, d: D, x: T)
  {
    enc(d, x).Ok? &&
    forall rest: seq<byte> {:trigger rd(c, enc(d, x).value + rest)} :: rd(c, enc(d, x).value + rest) == Ok((x, rest))
  }

  /** Every item of a run that was written was encoded without error. */
  lemma {:induction false} WriteRunOk<C, T>(enc: Writer<C, T>, c: C, xs: seq<T>, i: nat)
    requires WriteRun(enc, c, xs).Ok? && i < |xs|
    ensures enc(c, xs[i]).Ok?
    decreases |xs|
  {
    if i > 0 {
      WriteRunOk(enc, c, xs[1..], i - 1);
    }
  }

  /** A run written item by item, whose items each read back, reads back as itself
      whatever bytes follow it. */
  lemma {:induction false} RunRoundTrip<C, D, T>(rd: Reader<C, T>, c: C, enc: Writer<D, T>, d: D, xs: seq<T>, rest: seq<byte>)
    requires WriteRun(enc, d, xs).Ok?
    requires forall i | 0 <= i < |xs| :: ReadsBack(rd, c, enc, d, xs[i])
    ensures ReadRun(rd, c, WriteRun(enc, d, xs).value + rest, |xs|) == Ok((xs, rest))
    decreases |xs|
  {
    if xs == [] {
      assert WriteRun(enc, d, xs).value + rest == rest;
    } else {
      WriteRunCons(enc, d, xs);
      var e, tail := enc(d, xs[0]).value, WriteRun(enc, d, xs[1..]).value;
      Assoc(e, tail, rest);
      assert ReadsBack(rd, c, enc, d, xs[0]);
      assert rd(c, e + (tail + rest)) == Ok((xs[0], tail + rest));
      assert forall i | 0 <= i < |xs[1..]| :: xs[1..][i] == xs[i + 1];
      RunRoundTrip(rd, c, enc, d, xs[1..], rest);
      ReadRunCons(rd, c, e + (tail + rest), |xs|, xs[0], tail + rest, xs[1..], rest);
      Cons(xs);
    }
  }

  /** Frame vertices packed against the full box read back as themselves. */
  lemma {:induction false} TrivertsAt(v: seq<Trivert>, box: Box, rest: seq<byte>)
    requires IsFull(box) && WriteRun(PackTrivert, box, v).Ok?
    ensures ReadRun(ReadTrivert, (), WriteRun(PackTrivert, box, v).value + rest, |v|) == Ok((v, rest))
  {
    forall i | 0 <= i < |v| ensures ReadsBack(ReadTrivert, (), PackTrivert, box, v[i]) {
      forall rest': seq<byte> ensures ReadTrivert((), PackTrivert(box, v[i]).value + rest') == Ok((v[i], rest')) {
        TrivertAt(v[i], box, rest');
      }
    }
    RunRoundTrip(ReadTrivert, (), PackTrivert, box, v, rest);
  }

  /** Skins of the header's size read back as themselves. */
  lemma {:induction false} SkinsAt(skins: seq<Mipmap>, size: (int, int), rest: seq<byte>)
    requires forall i | 0 <= i < |skins| :: skins[i].Indexed?
    requires WriteRun(EncodeSkin, size, skins).Ok?
    ensures ReadRun(ReadSkin, size, WriteRun(EncodeSkin, size, skins).value + rest, |skins|) == Ok((skins, rest))
  {
    forall i | 0 <= i < |skins| ensures ReadsBack(ReadSkin, size, EncodeSkin, size, skins[i]) {
      WriteRunOk(EncodeSkin, size, skins, i);
      forall rest': seq<byte> ensures ReadSkin(size, EncodeSkin(size, skins[i]).value + rest') == Ok((skins[i], rest')) {
        SkinAt(skins[i], size, rest');
      }
    }
    RunRoundTrip(ReadSkin, size, EncodeSkin, size, skins, rest);
  }

  lemma {:induction false} VerticesAt(vs: seq<Vertex>, rest: seq<byte>)
    requires WriteRun(EncodeVertex, (), vs).Ok?
    ensures ReadRun(ReadVertex, (), WriteRun(EncodeVertex, (), vs).value + rest, |vs|) == Ok((vs, rest))
  {
    forall i | 0 <= i < |vs| ensures ReadsBack(ReadVertex, (), EncodeVertex, (), vs[i]) {
      WriteRunOk(EncodeVertex, (), vs, i);
      forall rest': seq<byte> ensures ReadVertex((), EncodeVertex((), vs[i]).value + rest') == Ok((vs[i], rest')) {
        VertexAt(vs[i], rest');
      }
    }
    RunRoundTrip(ReadVertex, (), EncodeVertex, (), vs, rest);
  }

  lemma {:induction false} TrianglesAt(ts: seq<Triangle>, rest: seq<byte>)
    requires WriteRun(EncodeTriangle, (), ts).Ok?
    ensures ReadRun(ReadTriangle, (), WriteRun(EncodeTriangle, (), ts).value + rest, |ts|) == Ok((ts, rest))
  {
    forall i | 0 <= i < |ts| ensures ReadsBack(ReadTriangle, (), EncodeTriangle, (), ts[i]) {
      WriteRunOk(EncodeTriangle, (), ts, i);
      forall rest': seq<byte> ensures ReadTriangle((), EncodeTriangle((), ts[i]).value + rest') == Ok((ts[i], rest')) {
        TriangleAt(ts[i], rest');
      }
    }
    RunRoundTrip(ReadTriangle, (), EncodeTriangle, (), ts, rest);
  }

  /** Against the full box, frames with NUL-free names read back as themselves. */
  lemma {:induction false} FramesAt(frames: seq<Frame>, k: FrameLayout, rest: seq<byte>)
    requires IsFull(k.box) && forall i | 0 <= i < |frames| :: NUL !in frames[i].name
    requires WriteRun(EncodeFrame, k, frames).Ok?
    ensures ReadRun<int, Frame>(ReadFrame, k.nv, WriteRun(EncodeFrame, k, frames).value + rest, |frames|) == Ok((frames, rest))
  {
    forall i | 0 <= i < |frames| ensures ReadsBack<int, FrameLayout, Frame>(ReadFrame, k.nv, EncodeFrame, k, frames[i]) {
      WriteRunOk(EncodeFrame, k, frames, i);
      FrameBack(frames[i], k);
    }
    RunRoundTrip<int, FrameLayout, Frame>(ReadFrame, k.nv, EncodeFrame, k, frames, rest);
  }

  lemma {:induction false} FrameBack(fr: Frame, k: FrameLayout)
    requires IsFull(k.box) && EncodeFrame(k, fr).Ok? && NUL !in fr.name
    ensures ReadsBack<int, FrameLayout, Frame>(ReadFrame, k.nv, EncodeFrame, k, fr)
  {
    forall rest: seq<byte> ensures ReadFrame(k.nv, EncodeFrame(k, fr).value + rest) == Ok((fr, rest)) {
      FrameAt(fr, k, rest);
    }
  }

  // ---------------------------------------------------------------- the whole body

  /** `self.<name>` for one of the header's FInt fields (always an int once the
      header has been decoded or encoded). */
  function HeaderInt(attrs: map<string, Value>, name: string): (r: int)
  {
    if name in attrs && attrs[name].Atom? && attrs[name].v.Int? then attrs[name].v.i else 0
  }

  function SkinSize(attrs: map<string, Value>): (r: (int, int))
  {
    (HeaderInt(attrs, SkinWidth), HeaderInt(attrs, SkinHeight))
  }

  /** The body after the header, read with the header's counts and skin size; a
      negative count reads nothing, as `range` of it is empty. */
  function ReadBody(s: seq<byte>, attrs: map<string, Value>): (r: Result<(Body, seq<byte>)>)
  {
    var nv := HeaderInt(attrs, NumVerts);
    var sk :- ReadRun(ReadSkin, SkinSize(attrs), s, Clamp(HeaderInt(attrs, NumSkins)));
    var vs :- ReadRun(ReadVertex, (), sk.1, Clamp(nv));
    var ts :- ReadRun(ReadTriangle, (), vs.1, Clamp(HeaderInt(attrs, NumTris)));
    var fr :- ReadRun<int, Frame>(ReadFrame, nv, ts.1, Clamp(HeaderInt(attrs, NumFrames)));
    Ok((Body(sk.0, vs.0, ts.0, fr.0), fr.1))
  }

  /** QMdl.fix's counts: each set to the length of its list.  (The new float scale
      and origin are not modelled.) */
  function Fix(attrs: map<string, Value>, body: Body): (r: map<string, Value>)
    ensures HeaderInt(r, NumSkins) == |body.skins| && HeaderInt(r, NumVerts) == |body.vertices|
    ensures HeaderInt(r, NumTris) == |body.triangles| && HeaderInt(r, NumFrames) == |body.frames|
    ensures forall k | k in attrs && k !in Counts :: k in r && r[k] == attrs[k]
  {
    attrs[NumSkins := Atom(Int(|body.skins|))][NumVerts := Atom(Int(|body.vertices|))]
      [NumTris := Atom(Int(|body.triangles|))][NumFrames := Atom(Int(|body.frames|))]
  }

  const Counts: set<string> := {NumSkins, NumVerts, NumTris, NumFrames}

  /** The bytes the pack loops write after the header, against the box of all frames. */
  function PackBody(attrs: map<string, Value>, body: Body, box: Box): (r: Result<seq<byte>>)
  {
    var sk :- WriteRun(EncodeSkin, SkinSize(attrs), body.skins);
    var vs :- WriteRun(EncodeVertex, (), body.vertices);
    var ts :- WriteRun(EncodeTriangle, (), body.triangles);
    var fr :- WriteRun(EncodeFrame, FrameLayout(|body.vertices|, box), body.frames);
    Ok(sk + vs + ts + fr)
  }

  /** QMdl.pack onto a stream holding `buf`: fix (whose getbbox of every frame vertex
      raises ValueError when there is none), the header fields, then the body. */
  function PackModel(buf: seq<byte>, attrs: map<string, Value>, body: Body): (r: Result<seq<byte>>)
  {
    PackModelWith(MdlFields(), buf, attrs, body)
  }

  /** PackModel with the header layout `fs` as a parameter. */
  function PackModelWith(fs: seq<Field>, buf: seq<byte>, attrs: map<string, Value>, body: Body): (r: Result<seq<byte>>)
  {
    var box :- BBox(AllVerts(body.frames));
    var a := Fix(attrs, body);
    var h :- PackOnto(buf, fs, a);
    var rest :- PackBody(a, body, Box(box.0, box.1));
    Ok(h + rest)
  }

  // ---------------------------------------------------------------- body round trip

  /** Header counts equal to the list lengths, as fix makes them. */
  predicate CountsMatch(attrs: map<string, Value>, body: Body)
  {
    HeaderInt(attrs, NumSkins) == |body.skins| && HeaderInt(attrs, NumVerts) == |body.vertices| &&
    HeaderInt(attrs, NumTris) == |body.triangles| && HeaderInt(attrs, NumFrames) == |body.frames|
  }

  /** A packed body followed by any bytes reads back as itself, given header counts
      equal to the list lengths, palette-indexed skins, frame names without NUL, and
      positions spanning the full box. */
  lemma {:induction false} BodyRoundTrip(attrs: map<string, Value>, body: Body, box: Box, rest: seq<byte>)
    requires IsFull(box) && forall i | 0 <= i < |body.frames| :: NUL !in body.frames[i].name
    requires forall i | 0 <= i < |body.skins| :: body.skins[i].Indexed?
    requires CountsMatch(attrs, body) && PackBody(attrs, body, box).Ok?
    ensures ReadBody(PackBody(attrs, body, box).value + rest, attrs) == Ok((body, rest))
  {
    var k := FrameLayout(|body.vertices|, box);
    PackBodyParts(attrs, body, box);
    var sk := WriteRun(EncodeSkin, SkinSize(attrs), body.skins).value;
    var vs := WriteRun(EncodeVertex, (), body.vertices).value;
    var ts := WriteRun(EncodeTriangle, (), body.triangles).value;
    var fr := WriteRun(EncodeFrame, k, body.frames).value;
    Assoc4(sk, vs, ts, fr, rest);
    SkinsAt(body.skins, SkinSize(attrs), vs + (ts + (fr + rest)));
    VerticesAt(body.vertices, ts + (fr + rest));
    TrianglesAt(body.triangles, fr + rest);
    FramesAt(body.frames, k, rest);
    ReadBodyOf(attrs, body, sk + (vs + (ts + (fr + rest))), vs + (ts + (fr + rest)), ts + (fr + rest), fr + rest, rest);
  }

  /** The packed body is its four runs, each written without error. */
  lemma {:induction false} PackBodyParts(attrs: map<string, Value>, body: Body, box: Box)
    requires PackBody(attrs, body, box).Ok?
    ensures WriteRun(EncodeSkin, SkinSize(attrs), body.skins).Ok? && WriteRun(EncodeVertex, (), body.vertices).Ok?
    ensures WriteRun(EncodeTriangle, (), body.triangles).Ok? && WriteRun(EncodeFrame, FrameLayout(|body.vertices|, box), body.frames).Ok?
    ensures PackBody(attrs, body, box).value == WriteRun(EncodeSkin, SkinSize(attrs), body.skins).value +
      WriteRun(EncodeVertex, (), body.vertices).value + WriteRun(EncodeTriangle, (), body.triangles).value +
      WriteRun(EncodeFrame, FrameLayout(|body.vertices|, box), body.frames).value
  {
  }

  lemma {:induction false} ReadBodyOf(attrs: map<string, Value>, body: Body, s0: seq<byte>, s1: seq<byte>, s2: seq<byte>, s3: seq<byte>, s4: seq<byte>)
    requires CountsMatch(attrs, body)
    requires ReadRun(ReadSkin, SkinSize(attrs), s0, |body.skins|) == Ok((body.skins, s1))
    requires ReadRun(ReadVertex, (), s1, |body.vertices|) == Ok((body.vertices, s2))
    requires ReadRun(ReadTriangle, (), s2, |body.triangles|) == Ok((body.triangles, s3))
    requires ReadRun<int, Frame>(ReadFrame, |body.vertices|, s3, |body.frames|) == Ok((body.frames, s4))
    ensures ReadBody(s0, attrs) == Ok((body, s4))
  {
  }

  // ---------------------------------------------------------------- whole model

  /** Two headers with the same counts and skin size. */
  predicate SameBodyKeys(a: map<string, Value>, b: map<string, Value>)
  {
    HeaderInt(a, NumSkins) == HeaderInt(b, NumSkins) && HeaderInt(a, SkinWidth) == HeaderInt(b, SkinWidth) &&
    HeaderInt(a, SkinHeight) == HeaderInt(b, SkinHeight) && HeaderInt(a, NumVerts) == HeaderInt(b, NumVerts) &&
    HeaderInt(a, NumTris) == HeaderInt(b, NumTris) && HeaderInt(a, NumFrames) == HeaderInt(b, NumFrames)
  }

  /** Reading the body depends on the header only through the counts and skin size. */
  lemma {:induction false} ReadBodyCongruent(s: seq<byte>, a: map<string, Value>, b: map<string, Value>)
    requires SameBodyKeys(a, b)
    ensures ReadBody(s, a) == ReadBody(s, b)
  {
  }

  /** QMdl.unpack on the bytes of a model: the header fields (a failure among them
      ends the decode), then the body read with the decoded header; whatever bytes
      are left after the last frame are ignored. */
  function DecodeModel(bytes: seq<byte>): (r: Result<(map<string, Value>, Body)>)
  {
    var u := UnpackWith(MdlFields(), bytes, 0, map[]);
    match u.1
    case Ok(b) => Ok((u.0, b.0))
    case Err(e) => Err(e)
  }

  /** QMdl.unpack from cursor `pos` of `buf`, with the header layout `fs` and with
      `attrs` already in `__dict__`: the attributes it leaves, and the body with the
      bytes after it or the failure that ended the decode. */
  function UnpackWith(fs: seq<Field>, buf: seq<byte>, pos: nat, attrs: map<string, Value>): (r: (map<string, Value>, Result<(Body, seq<byte>)>))
  {
    var d := ReadFields(fs, buf, pos);
    var a := Assign(attrs, fs, d.values);
    if d.failure.Some? then (a, Err(d.failure.value)) else (a, ReadBody(After(buf, d.pos), a))
  }

  /** A model packed into a fresh stream decodes back: the header fields come back as
      fix left them, and the body is the body that was packed.  This needs the header
      values to be representable, palette-indexed skins, NUL-free frame names and
      frame positions that span 0..255 on every axis (so re-quantising changes
      nothing). */
  lemma {:induction false} ModelRoundTrip(attrs: map<string, Value>, body: Body)
    requires PackModel([], attrs, body).Ok?
    requires AllNamed(MdlFields(), attrs) && ValuesOk(MdlFields(), Fix(attrs, body))
    requires IsFull(FullBox(body))
    requires forall i | 0 <= i < |body.frames| :: NUL !in body.frames[i].name
    requires forall i | 0 <= i < |body.skins| :: body.skins[i].Indexed?
    ensures DecodeModel(PackModel([], attrs, body).value) ==
      Ok((Assign(map[], MdlFields(), Vals(MdlFields(), Fix(attrs, body))), body))
  {
    var a := Fix(attrs, body);
    FixNamed(attrs, body);
    var h, rest := PackModelParts(attrs, body);
    HeaderDecode(MdlFields(), a, rest);
    BodyRoundTrip(a, body, FullBox(body), []);
    assert rest + [] == rest;
    DecodeModelOf(h, rest, a, body);
  }

  /** The box of every frame position (the origin when there is none). */
  function FullBox(body: Body): (r: Box)
  {
    var bb := BBox(AllVerts(body.frames));
    if bb.Ok? then Box(bb.value.0, bb.value.1) else Box(Point(0, 0, 0), Point(0, 0, 0))
  }

  /** A packed model is its packed header, then its packed body. */
  lemma {:induction false} PackModelParts(attrs: map<string, Value>, body: Body) returns (h: seq<byte>, rest: seq<byte>)
    requires PackModel([], attrs, body).Ok?
    ensures Encode(MdlFields(), Fix(attrs, body)) == Ok(h)
    ensures PackBody(Fix(attrs, body), body, FullBox(body)) == Ok(rest)
    ensures PackModel([], attrs, body).value == h + rest
  {
    h := Encode(MdlFields(), Fix(attrs, body)).value;
    rest := PackBody(Fix(attrs, body), body, FullBox(body)).value;
  }

  /** Decoding a header that reads back as `a`, followed by a body that reads back. */
  lemma {:induction false} DecodeModelOf(h: seq<byte>, rest: seq<byte>, a: map<string, Value>, body: Body)
    requires AllNamed(MdlFields(), a)
    requires ReadFields(MdlFields(), h + rest, 0) == Decoded(Vals(MdlFields(), a), |h|, None)
    requires ReadBody(rest, a) == Ok((body, []))
    ensures DecodeModel(h + rest) == Ok((Assign(map[], MdlFields(), Vals(MdlFields(), a)), body))
  {
    var decoded := Assign(map[], MdlFields(), Vals(MdlFields(), a));
    KeptKeys(a, decoded);
    ReadBodyCongruent(rest, decoded, a);
    assert After(h + rest, |h|) == rest;
  }

  /** fix keeps every field named. */
  lemma {:induction false} FixNamed(attrs: map<string, Value>, body: Body)
    requires AllNamed(MdlFields(), attrs)
    ensures AllNamed(MdlFields(), Fix(attrs, body))
  {
  }

  /** The header decoded from `a`'s values keeps `a`'s counts and skin size. */
  lemma {:induction false} KeptKeys(a: map<string, Value>, decoded: map<string, Value>)
    requires AllNamed(MdlFields(), a)
    requires decoded == Assign(map[], MdlFields(), Vals(MdlFields(), a))
    ensures SameBodyKeys(decoded, a)
  {
    KeptKey(a, decoded, 6);
    KeptKey(a, decoded, 7);
    KeptKey(a, decoded, 8);
    KeptKey(a, decoded, 9);
    KeptKey(a, decoded, 10);
    KeptKey(a, decoded, 11);
  }

  lemma {:induction false} KeptKey(a: map<string, Value>, decoded: map<string, Value>, j: nat)
    requires AllNamed(MdlFields(), a) && j < 15
    requires decoded == Assign(map[], MdlFields(), Vals(MdlFields(), a))
    ensures HeaderInt(decoded, MdlNames[j]) == HeaderInt(a, MdlNames[j])
  {
    AssignVals(map[], MdlFields(), a, j);
  }
}
