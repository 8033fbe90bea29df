/** The point arithmetic of Server/maploader.py: the axis swap into the client's frame
    (`map_vertex`), squared distances (`_dist2`), the sky fan (`triangulate`) and the
    midpoint subdivision of sky triangles (`explode_into_smaller_faces`).
    Coordinates are exact reals; the source computes with doubles. */
module Geometry {
  import opened Results

  datatype Vec3 = Vec3(x: real, y: real, z: real)

  /** A triangle `[v1, v2, v3]`. */
  datatype Tri = Tri(a: Vec3, b: Vec3, c: Vec3)

  /** `map_vertex((x, y, z))`: Quake's z is up, the client's y is. */
  function MapVertex(v: Vec3): (r: Vec3)
  {
    Vec3(v.x, v.z, v.y)
  }

  /** Swapping the two axes twice gives the point back. */
  lemma MapVertexInvolution(v: Vec3)
    ensures MapVertex(MapVertex(v)) == v
  {
  }

  function Sq(d: real): (r: real)
    ensures r >= 0.0
  {
    d * d
  }

  /** `_dist2(p, q)`: the squared length of `q - p`. */
  function Dist2(p: Vec3, q: Vec3): (r: real)
    ensures r >= 0.0
    ensures p == q ==> r == 0.0
  {
    Sq(q.x - p.x) + Sq(q.y - p.y) + Sq(q.z - p.z)
  }

  /** The squared distance does not depend on the order of the points, nor on the
      axis swap of `map_vertex`. */
  lemma Dist2Symmetric(p: Vec3, q: Vec3)
    ensures Dist2(p, q) == Dist2(q, p)
    ensures Dist2(MapVertex(p), MapVertex(q)) == Dist2(p, q)
  {
    assert Sq(q.x - p.x) == Sq(p.x - q.x);
    assert Sq(q.y - p.y) == Sq(p.y - q.y);
    assert Sq(q.z - p.z) == Sq(p.z - q.z);
  }

  // ---------------------------------------------------------------- triangulate

  /** The sum of the points, the last one added last. */
  function Sum(vs: seq<Vec3>): (r: Vec3)
    decreases |vs|
  {
    if vs == [] then Vec3(0.0, 0.0, 0.0)
    else
      var s := Sum(vs[..|vs| - 1]);
      var v := vs[|vs| - 1];
      Vec3(s.x + v.x, s.y + v.y, s.z + v.z)
  }

  /** `center`: the mean of the points. */
  function Centroid(vs: seq<Vec3>): (r: Vec3)
    requires vs != []
  {
    var s := Sum(vs);
    var n := |vs| as real;
    Vec3(s.x / n, s.y / n, s.z / n)
  }

  /** The position before `i` in a cycle of `n`. */
  function Before(i: nat, n: nat): (r: nat)
    requires i < n
  {
    if i == 0 then n - 1 else i - 1
  }

  /** The i-th triangle `triangulate` yields: the center, the point before the i-th
      (the last one for i = 0), and the i-th point. */
  function Fan(vs: seq<Vec3>): (r: seq<Tri>)
    requires vs != []
  {
    var n := |vs|;
    seq(n, i requires 0 <= i < n => Tri(Centroid(vs), vs[Before(i, n)], vs[i]))
  }

  /** The fan covers the polygon: every triangle has its apex at the center, exactly
      one triangle ends at each point, and each triangle starts where the one before
      it (cyclically) ended, so the rims run round the polygon's boundary once. */
  lemma FanCloses(vs: seq<Vec3>)
    requires vs != []
    ensures var f := Fan(vs);
      |f| == |vs| &&
      (forall i | 0 <= i < |f| :: f[i].a == Centroid(vs) && f[i].c == vs[i]) &&
      (forall i | 0 <= i < |f| :: f[i].b == f[Before(i, |f|)].c)
  {
  }

  /** `triangulate(vlist)` run to the end: the center is the mean of the points (a
      division by zero for no points, raised at the first step), then one triangle
      per point, carrying the previous point along. */
  method Triangulate(vlist: seq<Vec3>) returns (r: Result<seq<Tri>>)
    ensures vlist == [] ==> r == Err(ZeroDivision)
    ensures vlist != [] ==> r == Ok(Fan(vlist))
  {
    var cx, cy, cz := 0.0, 0.0, 0.0;
    for i := 0 to |vlist|
      invariant Vec3(cx, cy, cz) == Sum(vlist[..i])
    {
      assert vlist[..i + 1][..i] == vlist[..i];
      cx, cy, cz := cx + vlist[i].x, cy + vlist[i].y, cz + vlist[i].z;
    }
    assert vlist[..|vlist|] == vlist;
    if |vlist| == 0 {
      return Err(ZeroDivision);
    }
    var n := |vlist|;
    var center := Vec3(cx / n as real, cy / n as real, cz / n as real);
    var prev := vlist[n - 1];
    var tris: seq<Tri> := [];
    for i := 0 to n
      invariant |tris| == i && prev == if i == 0 then vlist[n - 1] else vlist[i - 1]
      invariant forall j | 0 <= j < i :: tris[j] == Fan(vlist)[j]
    {
      tris := tris + [Tri(center, prev, vlist[i])];
      prev := vlist[i];
    }
    assert center == Centroid(vlist);
    assert tris == Fan(vlist);
    return Ok(tris);
  }

  // ---------------------------------------------------------------- explode

  /** The limit on a sky triangle's squared edge lengths. */
  const MaxDist2: real := 5000.0

  /** The squared edge lengths the source compares with MAX, in its order. */
  function Max3(p: real, q: real, r: real): (res: real)
  {
    if p >= q && p >= r then p else if q >= r then q else r
  }

  function Longest(t: Tri): (r: real)
    ensures r >= 0.0
  {
    Max3(Dist2(t.a, t.b), Dist2(t.b, t.c), Dist2(t.a, t.c))
  }

  /** No edge longer than the limit: the triangle is appended as it is. */
  predicate Small(t: Tri)
  {
    Dist2(t.a, t.b) <= MaxDist2 && Dist2(t.b, t.c) <= MaxDist2 && Dist2(t.a, t.c) <= MaxDist2
  }

  lemma SmallIsLongest(t: Tri)
    ensures Small(t) <==> Longest(t) <= MaxDist2
  {
  }

  /** `((p[0]+q[0])*0.5, ...)`. */
  function Mid(p: Vec3, q: Vec3): (r: Vec3)
  {
    Vec3((p.x + q.x) * 0.5, (p.y + q.y) * 0.5, (p.z + q.z) * 0.5)
  }

  /** The four triangles a triangle is split into: one at each corner, with the
      edge midpoints `c3`, `c2`, `c1` opposite the corners, and the middle one. */
  function Split(t: Tri): (r: seq<Tri>)
    ensures |r| == 4
  {
    var c1, c2, c3 := Mid(t.b, t.c), Mid(t.a, t.c), Mid(t.a, t.b);
    [Tri(t.a, c3, c2), Tri(t.b, c1, c3), Tri(t.c, c2, c1), Tri(c1, c2, c3)]
  }

  lemma {:induction false} MidMid(p: Vec3, q: Vec3, r: Vec3)
    ensures Dist2(Mid(p, q), Mid(p, r)) == Dist2(q, r) / 4.0
  {
    assert Sq((p.x + r.x) * 0.5 - (p.x + q.x) * 0.5) == Sq(r.x - q.x) / 4.0;
    assert Sq((p.y + r.y) * 0.5 - (p.y + q.y) * 0.5) == Sq(r.y - q.y) / 4.0;
    assert Sq((p.z + r.z) * 0.5 - (p.z + q.z) * 0.5) == Sq(r.z - q.z) / 4.0;
  }

  lemma MidSame(p: Vec3, q: Vec3)
    ensures Mid(p, p) == p && Mid(p, q) == Mid(q, p)
  {
  }

  /** Every edge of each of the four triangles is half an edge of the original. */
  lemma {:induction false} SplitQuarters(t: Tri, i: nat)
    requires i < 4
    ensures Longest(Split(t)[i]) == Longest(t) / 4.0
  {
    var c1, c2, c3 := Mid(t.b, t.c), Mid(t.a, t.c), Mid(t.a, t.b);
    var d12, d23, d13 := Dist2(t.a, t.b), Dist2(t.b, t.c), Dist2(t.a, t.c);
    MidSame(t.a, t.b); MidSame(t.b, t.c); MidSame(t.a, t.c);
    MidSame(t.b, t.a); MidSame(t.c, t.b); MidSame(t.c, t.a);
    Dist2Symmetric(t.a, t.b); Dist2Symmetric(t.b, t.c); Dist2Symmetric(t.a, t.c);
    var u := Split(t)[i];
    if i == 0 {
      MidMid(t.a, t.a, t.b); MidMid(t.a, t.b, t.c); MidMid(t.a, t.a, t.c);
      assert Dist2(u.a, u.b) == d12 / 4.0 && Dist2(u.b, u.c) == d23 / 4.0 && Dist2(u.a, u.c) == d13 / 4.0;
    } else if i == 1 {
      MidMid(t.b, t.b, t.c); MidMid(t.b, t.c, t.a); MidMid(t.b, t.b, t.a);
      Dist2Symmetric(c1, c3);
      assert Dist2(u.a, u.b) == d23 / 4.0 && Dist2(u.b, u.c) == d13 / 4.0 && Dist2(u.a, u.c) == d12 / 4.0;
    } else if i == 2 {
      MidMid(t.c, t.c, t.a); MidMid(t.c, t.a, t.b); MidMid(t.c, t.c, t.b);
      assert Dist2(u.a, u.b) == d13 / 4.0 && Dist2(u.b, u.c) == d12 / 4.0 && Dist2(u.a, u.c) == d23 / 4.0;
    } else {
      MidMid(t.c, t.b, t.a); MidMid(t.a, t.c, t.b); MidMid(t.b, t.c, t.a);
      Dist2Symmetric(c1, c3);
      assert Dist2(u.a, u.b) == d12 / 4.0 && Dist2(u.b, u.c) == d23 / 4.0 && Dist2(u.a, u.c) == d13 / 4.0;
    }
  }

  /** A child `u` of `t`: its longest squared edge is a quarter of `t`'s, so it needs
      one quartering fewer to be within the limit and ends at the same size. */
  predicate Shrinks(t: Tri, u: Tri)
  {
    Longest(u) == Longest(t) / 4.0 && Levels(Longest(u)) + 1 == Levels(Longest(t))
    && Shrunk(Longest(u)) == Shrunk(Longest(t))
  }

  lemma {:induction false} ChildShrinks(t: Tri, i: nat)
    requires !Small(t) && i < 4
    ensures Shrinks(t, Split(t)[i])
  {
    SplitQuarters(t, i);
    SmallIsLongest(t);
    var m := Longest(t);
    assert Levels(m) == 1 + Levels(m / 4.0);
    assert Shrunk(m) == Shrunk(m / 4.0);
  }

  /** A triangle over the limit splits into four, each with fewer quarterings left;
      this is what makes the subdivision end. */
  lemma {:induction false} SplitShrinks(t: Tri)
    requires !Small(t)
    ensures Shrinks(t, Split(t)[0]) && Shrinks(t, Split(t)[1])
    ensures Shrinks(t, Split(t)[2]) && Shrinks(t, Split(t)[3])
  {
    ChildShrinks(t, 0);
    ChildShrinks(t, 1);
    ChildShrinks(t, 2);
    ChildShrinks(t, 3);
  }

  /** What `explode_into_smaller_faces` appends for one triangle: the triangle itself
      when no edge is over the limit, otherwise what it appends for each of the four
      halves in turn. */
  function Exploded(t: Tri): (r: seq<Tri>)
    decreases Levels(Longest(t))
  {
    if Small(t) then [t]
    else
      var s := Split(t);
      SplitShrinks(t);
      Exploded(s[0]) + Exploded(s[1]) + Exploded(s[2]) + Exploded(s[3])
  }

  /** Everything appended is within the limit, and a triangle within it is appended
      as it is. */
  lemma {:induction false} ExplodedSmall(t: Tri)
    ensures forall u | u in Exploded(t) :: Small(u)
    ensures Small(t) ==> Exploded(t) == [t]
    decreases Levels(Longest(t))
  {
    if !Small(t) {
      var s := Split(t);
      SplitShrinks(t);
      var e0, e1, e2, e3 := Exploded(s[0]), Exploded(s[1]), Exploded(s[2]), Exploded(s[3]);
      ExplodedSmall(s[0]);
      ExplodedSmall(s[1]);
      ExplodedSmall(s[2]);
      ExplodedSmall(s[3]);
      assert Exploded(t) == e0 + e1 + e2 + e3;
      forall u | u in Exploded(t)
        ensures Small(u)
      {
        assert u in e0 || u in e1 || u in e2 || u in e3;
      }
    }
  }

  /** `explode_into_smaller_faces(vlist, vlistlist)`: appends to the accumulator. */
  method ExplodeInto(t: Tri, acc: seq<Tri>) returns (r: seq<Tri>)
    ensures r == acc + Exploded(t)
    decreases Levels(Longest(t))
  {
    var v1, v2, v3 := t.a, t.b, t.c;
    if Dist2(v1, v2) > MaxDist2 || Dist2(v2, v3) > MaxDist2 || Dist2(v1, v3) > MaxDist2 {
      var c1 := Vec3((v2.x + v3.x) * 0.5, (v2.y + v3.y) * 0.5, (v2.z + v3.z) * 0.5);
      var c2 := Vec3((v1.x + v3.x) * 0.5, (v1.y + v3.y) * 0.5, (v1.z + v3.z) * 0.5);
      var c3 := Vec3((v1.x + v2.x) * 0.5, (v1.y + v2.y) * 0.5, (v1.z + v2.z) * 0.5);
      var s := Split(t);
      SplitShrinks(t);
      assert Tri(v1, c3, c2) == s[0];
      assert Tri(v2, c1, c3) == s[1];
      assert Tri(v3, c2, c1) == s[2];
      assert Tri(c1, c2, c3) == s[3];
      r := ExplodeInto(Tri(v1, c3, c2), acc);
      r := ExplodeInto(Tri(v2, c1, c3), r);
      r := ExplodeInto(Tri(v3, c2, c1), r);
      r := ExplodeInto(Tri(c1, c2, c3), r);
      AppendFour(acc, Exploded(s[0]), Exploded(s[1]), Exploded(s[2]), Exploded(s[3]));
    } else {
      r := acc + [t];
    }
  }

  lemma {:induction false} AppendFour(acc: seq<Tri>, p: seq<Tri>, q: seq<Tri>, u: seq<Tri>, w: seq<Tri>)
    ensures acc + p + q + u + w == acc + (p + q + u + w)
  {
  }

  function Pow4(k: nat): (r: nat)
    ensures r >= 1
  {
    if k == 0 then 1 else 4 * Pow4(k - 1)
  }

  /** How many times a squared length must be quartered to be within the limit. */
  function Levels(m: real): (r: nat)
    decreases m.Floor
  {
    if m <= MaxDist2 then 0
    else
      assert (m / 4.0).Floor as real <= m / 4.0 < m - 1.0 < m.Floor as real;
      1 + Levels(m / 4.0)
  }

  /** The longest squared edge after quartering it until it is within the limit. */
  function Shrunk(m: real): (r: real)
    decreases m.Floor
  {
    if m <= MaxDist2 then m
    else
      assert (m / 4.0).Floor as real <= m / 4.0 < m - 1.0 < m.Floor as real;
      Shrunk(m / 4.0)
  }

  /** Quartering stops as soon as it can: the result is within the limit, and above a
      quarter of it when any quartering took place. */
  lemma {:induction false} ShrunkBounds(m: real)
    ensures Shrunk(m) <= MaxDist2
    ensures m > MaxDist2 ==> Shrunk(m) > MaxDist2 / 4.0
    decreases m.Floor
  {
    if m > MaxDist2 {
      assert (m / 4.0).Floor as real <= m / 4.0 < m - 1.0 < m.Floor as real;
      ShrunkBounds(m / 4.0);
    }
  }

  /** The subdivision is uniform: a triangle whose longest edge needs k quarterings
      of its square to be within the limit becomes 4^k triangles. */
  lemma {:induction false} ExplodedCount(t: Tri)
    ensures |Exploded(t)| == Pow4(Levels(Longest(t)))
    decreases Levels(Longest(t))
  {
    SmallIsLongest(t);
    if !Small(t) {
      var s := Split(t);
      SplitShrinks(t);
      var e0, e1, e2, e3 := Exploded(s[0]), Exploded(s[1]), Exploded(s[2]), Exploded(s[3]);
      ExplodedCount(s[0]);
      ExplodedCount(s[1]);
      ExplodedCount(s[2]);
      ExplodedCount(s[3]);
      assert Exploded(t) == e0 + e1 + e2 + e3;
      var k := Levels(Longest(s[0]));
      assert Levels(Longest(s[1])) == k && Levels(Longest(s[2])) == k && Levels(Longest(s[3])) == k;
      FourPow4(|e0|, |e1|, |e2|, |e3|, k, Levels(Longest(t)));
    } else {
      assert Levels(Longest(t)) == 0;
    }
  }

  lemma FourPow4(n0: nat, n1: nat, n2: nat, n3: nat, k: nat, l: nat)
    requires n0 == Pow4(k) && n1 == Pow4(k) && n2 == Pow4(k) && n3 == Pow4(k)
    requires l == k + 1
    ensures n0 + n1 + n2 + n3 == Pow4(l)
  {
  }

  /** Each of those triangles has the quartered longest edge. */
  lemma {:induction false} ExplodedLongest(t: Tri)
    ensures forall u | u in Exploded(t) :: Longest(u) == Shrunk(Longest(t))
    decreases Levels(Longest(t))
  {
    SmallIsLongest(t);
    if !Small(t) {
      var s := Split(t);
      SplitShrinks(t);
      var e0, e1, e2, e3 := Exploded(s[0]), Exploded(s[1]), Exploded(s[2]), Exploded(s[3]);
      ExplodedLongest(s[0]);
      ExplodedLongest(s[1]);
      ExplodedLongest(s[2]);
      ExplodedLongest(s[3]);
      assert Exploded(t) == e0 + e1 + e2 + e3;
      forall u | u in Exploded(t)
        ensures Longest(u) == Shrunk(Longest(t))
      {
        assert u in e0 || u in e1 || u in e2 || u in e3;
      }
    }
  }
}
