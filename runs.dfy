/** Runs of items read one after the other from the bytes left in a stream, and runs
    of items written one after the other: the `for i in range(n)` read loops and the
    `for x in xs: f.write(...)` write loops of Server/qdata.py share these, together
    with the lemmas that carry a stream loop one item further. */
module Runs {
  import opened Results
  import opened Bytes
  import opened Streams

  /** A reader of one item from the bytes left in the stream, given what it needs from
      the header (`c`): the item and the bytes after it. */
  type Reader<!C, T> = (C, seq<byte>) -> Result<(T, seq<byte>)>

  /** An encoder of one item, given what it needs from the header. */
  type Writer<!C, !T> = (C, T) -> Result<seq<byte>>

  // ---------------------------------------------------------------- counted runs

  /** `f.read(n)` on the bytes left: at most `n` bytes, all of them when `n` is
      negative or larger. */
  function Read(s: seq<byte>, n: int): (r: seq<byte>)
    ensures 0 <= n <= |s| ==> r == s[..n]
    ensures n < 0 || n > |s| ==> r == s
  {
    Chunk(s, 0, n)
  }

  /** `for i in range(n): items.append(read(f))`: n items in a row, the first failure
      ending the run. */
  function ReadRun<C, T>(rd: Reader<C, T>, c: C, s: seq<byte>, n: nat): (r: Result<(seq<T>, seq<byte>)>)
    ensures r.Ok? ==> |r.value.0| == n
    decreases n
  {
    if n == 0 then Ok(([], s))
    else
      var a :- rd(c, s);
      var rest :- ReadRun(rd, c, a.1, n - 1);
      Ok(([a.0] + rest.0, rest.1))
  }

  /** The bytes of `for x in xs: f.write(enc(x))`, or the first failure. */
  function WriteRun<C, T>(enc: Writer<C, T>, c: C, xs: seq<T>): (r: Result<seq<byte>>)
  {
    if xs == [] then Ok([])
    else
      var e :- enc(c, xs[0]);
      var rest :- WriteRun(enc, c, xs[1..]);
      Ok(e + rest)
  }

  /** A run that was written is its first item's bytes, each written without error,
      followed by the rest of the run's bytes. */
  lemma {:induction false} WriteRunCons<C, T>(enc: Writer<C, T>, c: C, xs: seq<T>)
    requires WriteRun(enc, c, xs).Ok? && xs != []
    ensures enc(c, xs[0]).Ok? && WriteRun(enc, c, xs[1..]).Ok?
    ensures WriteRun(enc, c, xs).value == enc(c, xs[0]).value + WriteRun(enc, c, xs[1..]).value
  {
  }

  /** Reading a run is reading its first item, then the rest after it. */
  lemma {:induction false} ReadRunCons<C, T>(rd: Reader<C, T>, c: C, s: seq<byte>, n: nat, x: T, s1: seq<byte>, rest: seq<T>, s2: seq<byte>)
    requires n > 0 && rd(c, s) == Ok((x, s1)) && ReadRun(rd, c, s1, n - 1) == Ok((rest, s2))
    ensures ReadRun(rd, c, s, n) == Ok(([x] + rest, s2))
  {
  }

  // ---------------------------------------------------------------- stream loops

  /** A stream read returned what `spec` says and left the cursor where the rest of
      `spec` begins. */
  predicate Follows<T(==)>(r: Result<T>, spec: Result<(T, seq<byte>)>, rest: seq<byte>)
  {
    match spec
    case Ok(p) => r == Ok(p.0) && rest == p.1
    case Err(e) => r == Err(e)
  }

  /** A run read with `xs` already read in front of it. */
  function PrependRun<T>(xs: seq<T>, r: Result<(seq<T>, seq<byte>)>): (res: Result<(seq<T>, seq<byte>)>)
  {
    match r
    case Ok(p) => Ok((xs + p.0, p.1))
    case Err(e) => Err(e)
  }

  /** Bytes still to be written, behind the `p` already written. */
  function AppendTo(p: seq<byte>, r: Result<seq<byte>>): (res: Result<seq<byte>>)
  {
    match r
    case Ok(b) => Ok(p + b)
    case Err(e) => Err(e)
  }

  /** `f.read(n)` at the cursor reads what Read reads from the bytes left, and
      the bytes left afterwards are those behind the chunk. */
  lemma {:induction false} ChunkAfter(buf: seq<byte>, pos: nat, n: int)
    ensures Chunk(buf, pos, n) == Read(After(buf, pos), n)
    ensures After(buf, pos + |Chunk(buf, pos, n)|) == After(buf, pos)[|Chunk(buf, pos, n)|..]
  {
  }

  /** One step of a counted read. */
  lemma {:induction false} ReadRunUnfold<C, T>(rd: Reader<C, T>, c: C, s: seq<byte>, n: nat)
    requires n > 0
    ensures ReadRun(rd, c, s, n) ==
      match rd(c, s)
      case Err(e) => Err(e)
      case Ok(a) => PrependRun([a.0], ReadRun(rd, c, a.1, n - 1))
  {
  }

  /** One item of a run read through a stream method that follows the reader:
      a failure ends the run with that failure, a success moves the item over to
      the values already read. */
  lemma {:induction false} RunStep<C, T>(rd: Reader<C, T>, c: C, spec: Result<(seq<T>, seq<byte>)>, n: nat, i: nat,
    xs: seq<T>, s: seq<byte>, x: Result<T>, s': seq<byte>)
    requires i < n && spec == PrependRun(xs, ReadRun(rd, c, s, n - i)) && Follows(x, rd(c, s), s')
    ensures x.Err? ==> spec == Err(x.error)
    ensures x.Ok? ==> spec == PrependRun(xs + [x.value], ReadRun(rd, c, s', n - (i + 1)))
  {
    ReadRunUnfold(rd, c, s, n - i);
    if x.Ok? {
      PrependRunStep(xs, x.value, ReadRun(rd, c, s', n - (i + 1)));
    }
  }

  lemma {:induction false} PrependRunStep<T>(xs: seq<T>, x: T, r: Result<(seq<T>, seq<byte>)>)
    ensures PrependRun(xs, PrependRun([x], r)) == PrependRun(xs + [x], r)
  {
    if r.Ok? {
      assert xs + ([x] + r.value.0) == xs + [x] + r.value.0;
    }
  }

  lemma {:induction false} PrependRunDone<T>(xs: seq<T>, rest: seq<byte>)
    ensures PrependRun(xs, Ok(([], rest))) == Ok((xs, rest))
  {
    assert xs + [] == xs;
  }

  /** One step of a counted write. */
  lemma {:induction false} WriteRunUnfold<C, T>(enc: Writer<C, T>, c: C, xs: seq<T>, i: nat)
    requires i < |xs|
    ensures WriteRun(enc, c, xs[i..]) ==
      match enc(c, xs[i])
      case Err(e) => Err(e)
      case Ok(e) => AppendTo(e, WriteRun(enc, c, xs[i + 1..]))
  {
    assert xs[i..][0] == xs[i] && xs[i..][1..] == xs[i + 1..];
  }

  lemma {:induction false} AppendToStep(p: seq<byte>, e: seq<byte>, r: Result<seq<byte>>)
    ensures AppendTo(p, AppendTo(e, r)) == AppendTo(p + e, r)
  {
    if r.Ok? {
      Assoc(p, e, r.value);
    }
  }

  lemma {:induction false} AppendToDone(p: seq<byte>)
    ensures AppendTo(p, Ok([])) == Ok(p)
  {
    assert p + [] == p;
  }

  lemma {:induction false} PrependRunNil<T>(r: Result<(seq<T>, seq<byte>)>)
    ensures PrependRun([], r) == r
  {
    if r.Ok? {
      assert [] + r.value.0 == r.value.0;
    }
  }

  /** One item of a run written through a stream method that follows the encoder:
      a failure ends the run with that failure, a success moves the item's bytes
      over to the bytes already written. */
  lemma {:induction false} WriteStep<C, T>(enc: Writer<C, T>, c: C, spec: Result<seq<byte>>, xs: seq<T>, i: nat,
    w: seq<byte>, e: Result<seq<byte>>)
    requires i < |xs| && spec == AppendTo(w, WriteRun(enc, c, xs[i..])) && e == enc(c, xs[i])
    ensures e.Err? ==> spec == Err(e.error)
    ensures e.Ok? ==> spec == AppendTo(w + e.value, WriteRun(enc, c, xs[i + 1..]))
  {
    WriteRunUnfold(enc, c, xs, i);
    if e.Ok? {
      AppendToStep(w, e.value, WriteRun(enc, c, xs[i + 1..]));
    }
  }

  /** A run with nothing left to write. */
  lemma {:induction false} WriteDone<C, T>(enc: Writer<C, T>, c: C, spec: Result<seq<byte>>, xs: seq<T>, w: seq<byte>)
    requires spec == AppendTo(w, WriteRun(enc, c, xs[|xs|..]))
    ensures spec == Ok(w)
  {
    assert xs[|xs|..] == [];
    AppendToDone(w);
  }

  lemma {:induction false} AppendToNil(r: Result<seq<byte>>)
    ensures AppendTo([], r) == r
  {
    if r.Ok? {
      assert [] + r.value == r.value;
    }
  }

  /** `f.write(data)` at the end of the stream appends. */
  method Append(f: Stream, data: seq<byte>)
    requires f.pos == |f.buf|
    modifies f
    ensures f.buf == old(f.buf) + data && f.pos == |f.buf|
  {
    OverwriteAtEnd(f.buf, data);
    f.Write(data);
  }
}
