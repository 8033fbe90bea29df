/** Bytes, little-endian integers and the in-memory file semantics
    (`cStringIO`) that every codec of Server/qdata.py reads and writes through. */
module Bytes {

  type byte = x: int | 0 <= x < 256

  const NUL: byte := 0

  function Pow256(n: nat): (r: nat)
    ensures r >= 1
  {
    if n == 0 then 1 else 256 * Pow256(n - 1)
  }

  function Zeros(n: nat): (r: seq<byte>)
    ensures |r| == n && forall i | 0 <= i < n :: r[i] == NUL
  {
    seq(n, _ => NUL)
  }

  /** The `n` low-order bytes of `x`, least significant first (`struct.pack('<…')`). */
  function LE(x: nat, n: nat): (r: seq<byte>)
    ensures |r| == n
  {
    if n == 0 then [] else [x % 256] + LE(x / 256, n - 1)
  }

  /** The unsigned value of little-endian bytes (`struct.unpack('<…')` of an unsigned code). */
  function FromLE(b: seq<byte>): (r: nat)
    ensures r < Pow256(|b|)
  {
    if b == [] then 0 else b[0] + 256 * FromLE(b[1..])
  }

  lemma {:induction false} FromLEOfLE(x: nat, n: nat)
    requires x < Pow256(n)
    ensures FromLE(LE(x, n)) == x
  {
    if n > 0 {
      FromLEOfLE(x / 256, n - 1);
      assert LE(x, n)[1..] == LE(x / 256, n - 1);
    }
  }

  lemma {:induction false} LEOfFromLE(b: seq<byte>)
    ensures LE(FromLE(b), |b|) == b
  {
    if b != [] {
      LEOfFromLE(b[1..]);
      assert (b[0] + 256 * FromLE(b[1..])) / 256 == FromLE(b[1..]);
    }
  }

  /** Little-endian bytes of `x` reduced modulo 256^n are the bytes of `x` itself. */
  lemma {:induction false} LEMod(x: nat, n: nat)
    ensures LE(x % Pow256(n), n) == LE(x, n)
  {
    if n > 0 {
      var p := Pow256(n - 1);
      assert Pow256(n) == 256 * p;
      assert (x % (256 * p)) % 256 == x % 256 by { ModOfMul(x, 256, p); }
      assert (x % (256 * p)) / 256 == (x / 256) % p by { DivOfMod(x, 256, p); }
      LEMod(x / 256, n - 1);
    }
  }

  lemma ModOfMul(x: nat, a: nat, b: nat)
    requires a > 0 && b > 0
    ensures (x % (a * b)) % a == x % a
  {
    var q := x / (a * b);
    assert x == (a * b) * q + x % (a * b);
    assert x == a * (b * q) + x % (a * b);
    ModShift(x % (a * b), a, b * q);
  }

  lemma ModShift(r: nat, a: nat, k: nat)
    requires a > 0
    ensures (a * k + r) % a == r % a
    ensures (a * k + r) / a == k + r / a
  {
    var t := a * k + r;
    assert t == a * (k + r / a) + r % a;
    DivModUnique(t, a, k + r / a, r % a);
  }

  lemma DivModUnique(t: int, a: int, q: int, r: int)
    requires a > 0 && 0 <= r < a && t == a * q + r
    ensures t / a == q && t % a == r
  {
    var q0, r0 := t / a, t % a;
    assert t == a * q0 + r0;
    if q0 > q {
      assert a * q0 >= a * (q + 1) by { MulMono(a, q + 1, q0); }
    } else if q0 < q {
      assert a * q >= a * (q0 + 1) by { MulMono(a, q0 + 1, q); }
    }
  }

  lemma MulMono(a: int, x: int, y: int)
    requires a > 0 && x <= y
    ensures a * x <= a * y
  {
  }

  lemma DivOfMod(x: nat, a: nat, b: nat)
    requires a > 0 && b > 0
    ensures (x % (a * b)) / a == (x / a) % b
  {
    var m := x % (a * b);
    var q := x / (a * b);
    assert x == (a * b) * q + m;
    assert m < a * b;
    var mq := m / a;
    assert m == a * mq + m % a;
    assert mq < b by {
      if mq >= b { assert a * mq >= a * b by { MulMono(a, b, mq); } }
    }
    assert x == a * (b * q + mq) + m % a;
    DivModUnique(x, a, b * q + mq, m % a);
    DivModUnique(x / a, b, q, mq);
  }

  /** Two's complement reading of `n` unsigned bytes (`struct.unpack('<i' / '<h' / '<b')`). */
  function Signed(u: nat, n: nat): (r: int)
  {
    if 2 * u >= Pow256(n) then u - Pow256(n) else u
  }

  /** Whether `x` fits the signed format code of width `n` (`struct.pack` raises otherwise). */
  predicate SignedFits(x: int, n: nat)
  {
    0 - Pow256(n) <= 2 * x < Pow256(n)
  }

  /** Bytes of the signed integer `x` in two's complement over `n` bytes. */
  function SignedLE(x: int, n: nat): (r: seq<byte>)
    ensures |r| == n
  {
    LE(x % Pow256(n), n)
  }

  lemma SignedRoundTrip(x: int, n: nat)
    requires SignedFits(x, n)
    ensures Signed(FromLE(SignedLE(x, n)), n) == x
  {
    var p := Pow256(n);
    FromLEOfLE(x % p, n);
    if x < 0 {
      assert x % p == x + p by { DivModUnique(x, p, -1, x + p); }
    } else {
      assert x % p == x by { DivModUnique(x, p, 0, x); }
    }
  }

  lemma SignedBytesRoundTrip(b: seq<byte>)
    ensures SignedFits(Signed(FromLE(b), |b|), |b|)
    ensures SignedLE(Signed(FromLE(b), |b|), |b|) == b
  {
    var p := Pow256(|b|);
    var u := FromLE(b);
    var x := Signed(u, |b|);
    if 2 * u >= p {
      assert x % p == u by { DivModUnique(x, p, -1, u); }
    } else {
      assert x % p == u by { DivModUnique(x, p, 0, u); }
    }
    LEOfFromLE(b);
  }

  /** The pad that brings a blob of `len` bytes up to a multiple of `align`:
      Python's `(align - len) % align`, whose remainder is never negative. */
  function PadLen(align: nat, len: nat): (r: nat)
    requires align > 0
    ensures r < align && (len + r) % align == 0
  {
    var r := (align - len) % align;
    assert (len + r) % align == 0 by {
      var q := (align - len) / align;
      assert align - len == align * q + r;
      assert len + r == align * (1 - q);
      DivModUnique(len + r, align, 1 - q, 0);
    }
    r
  }

  /** The position a `seek(p)` moves to: a negative target stops at 0. */
  function Clamp(p: int): (r: nat)
  {
    if p < 0 then 0 else p
  }

  /** The bytes after the cursor: what a `read()` with no size returns. */
  function After(buf: seq<byte>, pos: nat): (r: seq<byte>)
    ensures pos <= |buf| ==> r == buf[pos..]
    ensures pos > |buf| ==> r == []
  {
    if pos <= |buf| then buf[pos..] else []
  }

  /** What `read(n)` returns at position `pos`: at most `n` bytes, and the whole
      rest of the buffer when `n` is negative or runs past the end. */
  function Chunk(buf: seq<byte>, pos: nat, n: int): (r: seq<byte>)
    ensures |r| <= |buf|
    ensures pos <= |buf| && 0 <= n && pos + n <= |buf| ==> r == buf[pos..pos + n]
    ensures pos <= |buf| && (n < 0 || pos + n > |buf|) ==> r == buf[pos..]
    ensures pos >= |buf| ==> r == []
  {
    if pos >= |buf| then []
    else if n < 0 || n > |buf| - pos then buf[pos..]
    else buf[pos..pos + n]
  }

  /** What `write(data)` at `pos` leaves in the buffer: the bytes at `pos..pos+|data|`
      are replaced, the buffer grows if needed, and a gap left by an earlier seek past
      the end is filled with NUL bytes. */
  function Overwrite(buf: seq<byte>, pos: nat, data: seq<byte>): (r: seq<byte>)
    ensures |r| == if pos + |data| > |buf| then pos + |data| else |buf|
    ensures r[pos..pos + |data|] == data
    ensures pos <= |buf| ==> r[..pos] == buf[..pos]
    ensures pos + |data| <= |buf| ==> r[pos + |data|..] == buf[pos + |data|..]
  {
    var head := if pos <= |buf| then buf[..pos] else buf + Zeros(pos - |buf|);
    var tail := if pos + |data| < |buf| then buf[pos + |data|..] else [];
    assert (head + data + tail)[pos..pos + |data|] == data;
    head + data + tail
  }

  lemma OverwriteAtEnd(buf: seq<byte>, data: seq<byte>)
    ensures Overwrite(buf, |buf|, data) == buf + data
  {
  }

  // Sequence identities, each in a lemma of its own so that proofs using them do
  // not have to rediscover them in a large context.

  lemma {:induction false} Assoc(a: seq<byte>, b: seq<byte>, c: seq<byte>)
    ensures (a + b) + c == a + (b + c)
  {
  }

  lemma {:induction false} Assoc4(a: seq<byte>, b: seq<byte>, c: seq<byte>, d: seq<byte>, e: seq<byte>)
    ensures (a + b + c + d) + e == a + (b + (c + (d + e)))
  {
  }

  lemma {:induction false} Cons<T>(xs: seq<T>)
    requires xs != []
    ensures [xs[0]] + xs[1..] == xs
  {
  }

  lemma {:induction false} DropAppend(a: seq<byte>, b: seq<byte>, n: nat)
    requires n <= |a|
    ensures (a + b)[n..] == a[n..] + b
  {
  }

  lemma {:induction false} DropFurther(a: seq<byte>, b: seq<byte>, k: nat, n: nat)
    requires k <= n <= |a| == |b| && a[k..] == b[k..]
    ensures a[n..] == b[n..]
  {
    assert a[n..] == a[k..][n - k..];
    assert b[n..] == b[k..][n - k..];
  }

  lemma {:induction false} DropDrop(s: seq<byte>, k: nat, n: nat)
    requires k + n <= |s|
    ensures s[k..][n..] == s[k + n..]
  {
  }

  lemma {:induction false} SliceWithin(s: seq<byte>, at: nat, t: seq<byte>, o: nat, k: nat)
    requires at + |t| <= |s| && s[at..at + |t|] == t && o + k <= |t|
    ensures s[at + o..at + o + k] == t[o..o + k]
  {
    var a, b := s[at + o..at + o + k], t[o..o + k];
    forall j | 0 <= j < k
      ensures a[j] == b[j]
    {
      assert s[at..at + |t|][o + j] == t[o + j];
    }
  }

  /** The bytes before the first NUL, or all of them (FCharPtr.read). */
  function UpToNul(s: seq<byte>): (r: seq<byte>)
  {
    if s == [] then []
    else if s[0] == NUL then []
    else [s[0]] + UpToNul(s[1..])
  }

  /** What UpToNul keeps: a NUL-free prefix, ended by a NUL or by the end. */
  lemma {:induction false} UpToNulPrefix(s: seq<byte>)
    ensures var r := UpToNul(s); |r| <= |s| && r == s[..|r|] && NUL !in r && (|r| < |s| ==> s[|r|] == NUL)
  {
    if s != [] && s[0] != NUL {
      UpToNulPrefix(s[1..]);
    }
  }

  lemma {:induction false} UpToNulOfPadded(s: seq<byte>, n: nat)
    requires NUL !in s && n > 0
    ensures UpToNul(s + Zeros(n)) == s
  {
    if s != [] {
      assert (s + Zeros(n))[1..] == s[1..] + Zeros(n);
      UpToNulOfPadded(s[1..], n);
    } else {
      assert (s + Zeros(n))[0] == NUL;
    }
  }
}
