/** Python list indexing and slicing, which the source relies on with indices read
    straight from the files (and therefore possibly negative or out of range). */
module PyLists {
  import opened Results

  /** `s[i]`: a negative index counts from the end; anything else out of range raises. */
  function PyIndex<T>(s: seq<T>, i: int): (r: Result<T>)
    ensures r.Ok? <==> -|s| <= i < |s|
    ensures 0 <= i < |s| ==> r == Ok(s[i])
    ensures -|s| <= i < 0 ==> r == Ok(s[|s| + i])
    ensures r.Err? ==> r.error == IndexError
  {
    if 0 <= i < |s| then Ok(s[i])
    else if -|s| <= i < 0 then Ok(s[|s| + i])
    else Err(IndexError)
  }

  /** A slice bound after Python's normalisation: negative counts from the end, and
      the result is clamped into `0..len`. */
  function SliceBound(len: nat, x: int): (r: nat)
    ensures r <= len
  {
    if x < 0 then (if x + len < 0 then 0 else x + len) else if x > len then len else x
  }

  /** `s[a:b]`. */
  function PySlice<T>(s: seq<T>, a: int, b: int): (r: seq<T>)
    ensures 0 <= a <= b <= |s| ==> r == s[a..b]
    ensures |r| <= |s|
  {
    var lo, hi := SliceBound(|s|, a), SliceBound(|s|, b);
    if hi <= lo then [] else s[lo..hi]
  }

  /** `s.index(v)`: the first position holding `v`. */
  function IndexOf<T(==)>(s: seq<T>, v: T): (r: nat)
    requires v in s
    ensures r < |s| && s[r] == v
    ensures forall j | 0 <= j < r :: s[j] != v
  {
    if s[0] == v then 0 else 1 + IndexOf(s[1..], v)
  }

  predicate Distinct<T(==)>(s: seq<T>)
  {
    forall i, j | 0 <= i < j < |s| :: s[i] != s[j]
  }

  /** Taking one more element of `s` appends it. */
  lemma TakeOneMore<T>(a: seq<T>, s: seq<T>, k: nat)
    requires k < |s|
    ensures s[..k] + [s[k]] == s[..k + 1]
    ensures a + s[..k] + [s[k]] == a + s[..k + 1]
  {
    assert s[..k + 1] == s[..k] + [s[k]];
  }

  /** A prefix of a prefix is a prefix. */
  lemma PrefixTrans<T>(a: seq<T>, b: seq<T>, c: seq<T>)
    requires a <= b && b <= c
    ensures a <= c
  {
    assert a == b[..|a|] && b == c[..|b|];
    assert c[..|b|][..|a|] == c[..|a|];
  }
}
