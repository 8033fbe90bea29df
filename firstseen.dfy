/** Dictionary numbering in first-seen order, the pattern behind `used_textures.setdefault`
    and `_vertex_cache` in `load_bsp_model` and `expanded` in `load_model`: the first time
    a key is met it is given the number of keys met before it, and later meetings find
    that number again. */
module Compaction {
  import opened PyLists

  /** The distinct elements of `s`, in the order of their first occurrence. */
  function FirstSeen<T(==)>(s: seq<T>): (r: seq<T>)
    decreases |s|
  {
    if s == [] then []
    else
      var prev := FirstSeen(s[..|s| - 1]);
      if s[|s| - 1] in prev then prev else prev + [s[|s| - 1]]
  }

  lemma FirstSeenStep<T>(s: seq<T>, x: T)
    ensures FirstSeen(s + [x]) == if x in FirstSeen(s) then FirstSeen(s) else FirstSeen(s) + [x]
  {
    assert (s + [x])[..|s|] == s;
  }

  /** Every element occurs once in the numbering, and exactly the elements of `s` do. */
  lemma {:induction false} FirstSeenDistinct<T>(s: seq<T>)
    ensures Distinct(FirstSeen(s))
    ensures forall x :: x in FirstSeen(s) <==> x in s
    decreases |s|
  {
    if s != [] {
      var p := s[..|s| - 1];
      FirstSeenDistinct(p);
      assert s == p + [s[|s| - 1]];
    }
  }

  /** A number, once given, never changes: numbering a prefix numbers a prefix. */
  lemma {:induction false} FirstSeenPrefix<T>(s: seq<T>, i: nat)
    requires i <= |s|
    ensures FirstSeen(s[..i]) <= FirstSeen(s)
    decreases |s| - i
  {
    if i < |s| {
      FirstSeenPrefix(s, i + 1);
      assert s[..i + 1][..i] == s[..i];
    } else {
      assert s[..i] == s;
    }
  }

  /** The dictionary `m` holds the numbering `order`: its keys are the elements of
      `order`, and each is mapped to its position. */
  ghost predicate Numbers<T(!new)>(m: map<T, nat>, order: seq<T>)
  {
    Distinct(order) && (forall x :: x in m <==> x in order) &&
    (forall i | 0 <= i < |order| :: m[order[i]] == i)
  }

  /** Looking a key up finds its position in the numbering. */
  lemma NumbersLookup<T(!new)>(m: map<T, nat>, order: seq<T>, x: T)
    requires Numbers(m, order) && x in m
    ensures m[x] < |order| && order[m[x]] == x
  {
    var i :| 0 <= i < |order| && order[i] == x;
  }

  /** `len(d)` is the length of the numbering. */
  lemma {:induction false} NumbersSize<T(!new)>(m: map<T, nat>, order: seq<T>)
    requires Numbers(m, order)
    ensures |m| == |order|
    decreases |order|
  {
    if order == [] {
      assert m.Keys == {};
    } else {
      var last := order[|order| - 1];
      NumbersDrop(m, order);
      NumbersSize(m - {last}, order[..|order| - 1]);
      assert m.Keys == (m - {last}).Keys + {last};
    }
  }

  /** Dropping the last key of the numbering from the dictionary numbers the rest. */
  lemma NumbersDrop<T(!new)>(m: map<T, nat>, order: seq<T>)
    requires Numbers(m, order) && order != []
    ensures Numbers(m - {order[|order| - 1]}, order[..|order| - 1])
  {
    var last := order[|order| - 1];
    var p := order[..|order| - 1];
    var m' := m - {last};
    forall x
      ensures x in m' <==> x in p
    {
      if x in p {
        var i :| 0 <= i < |p| && p[i] == x;
        assert order[i] == x;
      }
      if x in order && x != last {
        var i :| 0 <= i < |order| && order[i] == x;
        assert i < |p| && p[i] == x;
      }
    }
    forall i | 0 <= i < |p|
      ensures m'[p[i]] == i
    {
      assert order[i] == p[i];
    }
  }

  /** `d.setdefault(x, len(d))` keeps the numbering of the keys met so far: a known key
      finds its number, a new one gets the next number. */
  lemma {:induction false} SetDefault<T(!new)>(m: map<T, nat>, s: seq<T>, x: T)
    requires Numbers(m, FirstSeen(s))
    ensures x in m ==> Numbers(m, FirstSeen(s + [x]))
    ensures x !in m ==> Numbers(m[x := |m|], FirstSeen(s + [x]))
    ensures x !in m ==> |m| == |FirstSeen(s)|
  {
    FirstSeenStep(s, x);
    var order := FirstSeen(s);
    if x !in m {
      NumbersSize(m, order);
      var order' := order + [x];
      var m' := m[x := |m|];
      forall i | 0 <= i < |order'|
        ensures m'[order'[i]] == i
      {
        if i < |order| {
          assert order'[i] == order[i];
        }
      }
    }
  }
}
