/** What the record layout of Server/qdata.py guarantees: a record packed by
    `QData.pack` decodes by `QData.unpack` to the values it was packed from, provided
    the schema keeps its open-ended fields (FOfsArray, FArray, FArrayOf) last and, when
    it has one, carries no FLump (whose data would be appended behind it), and the
    values are ones the scalar codecs reproduce. */
module FieldsRoundTrip {
  import opened Results
  import opened Bytes
  import opened Scalars
  import opened Fields

  /** A field that reads up to the end of the buffer (or, for FOfsArray, whose last
      element does). */
  predicate IsTail(k: FieldKind)
  {
    k.OfsArray? || k.Array? || k.ArrayOf?
  }

  predicate Tailed(fs: seq<Field>)
  {
    |fs| > 0 && IsTail(fs[|fs| - 1].kind)
  }

  predicate NoLumps(fs: seq<Field>)
  {
    forall i | 0 <= i < |fs| :: !fs[i].kind.Lump?
  }

  predicate WellLaid(fs: seq<Field>)
  {
    (forall i | 0 <= i < |fs| - 1 :: !IsTail(fs[i].kind)) &&
    (Tailed(fs) ==> NoLumps(fs))
  }

  function RowWidth(item: seq<ScalarKind>): (r: nat)
  {
    if item == [] then 0 else Width(item[0]) + RowWidth(item[1..])
  }

  predicate ScalarOk(k: ScalarKind, v: ScalarValue)
  {
    Canonical(k, v) && (k.Enum? ==> |k.choices| < 0x8000_0000)
  }

  predicate RowOk(item: seq<ScalarKind>, row: seq<ScalarValue>)
  {
    |row| == |item| && forall j | 0 <= j < |item| :: ScalarOk(item[j], row[j])
  }

  predicate RowsOk(item: seq<ScalarKind>, rows: seq<seq<ScalarValue>>)
  {
    (forall r | r in rows :: RowOk(item, r)) && (rows != [] ==> RowWidth(item) > 0)
  }

  predicate ValueOk(kind: FieldKind, v: Value)
  {
    match kind
    case Scalar(k) => v.Atom? ==> ScalarOk(k, v.v)
    case Array(item) => v.Rows? ==> RowsOk(item, v.rows)
    case _ => true
  }

  predicate ValuesOk(fs: seq<Field>, attrs: map<string, Value>)
  {
    forall i | 0 <= i < |fs| && fs[i].name in attrs :: ValueOk(fs[i].kind, attrs[fs[i].name])
  }

  predicate AllNamed(fs: seq<Field>, attrs: map<string, Value>)
  {
    forall i | 0 <= i < |fs| :: fs[i].name in attrs
  }

  /** The attribute values in field order. */
  function Vals(fs: seq<Field>, attrs: map<string, Value>): (r: seq<Value>)
    requires AllNamed(fs, attrs)
    ensures |r| == |fs|
  {
    if fs == [] then [] else [attrs[fs[0].name]] + Vals(fs[1..], attrs)
  }

  // ---------------------------------------------------------------- FArray

  lemma {:induction false} RowRoundTrip(item: seq<ScalarKind>, row: seq<ScalarValue>, buf: seq<byte>, post: seq<byte>)
    requires RowOk(item, row) && WriteRow(buf, item, row).Ok?
    ensures var w := WriteRow(buf, item, row).value;
      |w| == |buf| + RowWidth(item) && ReadRow(item, w + post, |buf|) == Ok((row, |w|))
    decreases |item|
  {
    if item != [] {
      RowOkTail(item, row);
      RowWriteStep(buf, item, row);
      var e := EncodeScalar(item[0], row[0]).value;
      var w := WriteRow(buf + e, item[1..], row[1..]).value;
      RowRoundTrip(item[1..], row[1..], buf + e, post);
      var tail := w[|buf| + |e|..] + post;
      Rejoin(buf + e, w, post);
      ScalarRoundTrip(item[0], row[0], buf, tail);
      RowReadStep(item, row, w + post, |buf|, |buf| + |e|, |w|);
    }
  }

  lemma {:induction false} RowWriteStep(buf: seq<byte>, item: seq<ScalarKind>, row: seq<ScalarValue>)
    requires item != [] && row != [] && WriteRow(buf, item, row).Ok?
    ensures EncodeScalar(item[0], row[0]).Ok?
    ensures WriteRow(buf + EncodeScalar(item[0], row[0]).value, item[1..], row[1..]) == WriteRow(buf, item, row)
  {
  }

  /** Bytes `w` that extend `pre`, followed by `post`, split back at the end of `pre`. */
  lemma {:induction false} Rejoin(pre: seq<byte>, w: seq<byte>, post: seq<byte>)
    requires |pre| <= |w| && w[..|pre|] == pre
    ensures w + post == pre + (w[|pre|..] + post)
  {
    assert w == w[..|pre|] + w[|pre|..];
  }

  lemma {:induction false} RowOkTail(item: seq<ScalarKind>, row: seq<ScalarValue>)
    requires item != [] && RowOk(item, row)
    ensures row != [] && ScalarOk(item[0], row[0]) && RowOk(item[1..], row[1..])
  {
    forall j | 0 <= j < |item| - 1 ensures ScalarOk(item[1..][j], row[1..][j]) {
      assert item[1..][j] == item[j + 1] && row[1..][j] == row[j + 1];
    }
  }

  lemma {:induction false} RowReadStep(item: seq<ScalarKind>, row: seq<ScalarValue>, b: seq<byte>, p: nat, q: nat, z: nat)
    requires item != [] && row != []
    requires ReadScalar(item[0], b, p) == Ok((row[0], q))
    requires ReadRow(item[1..], b, q) == Ok((row[1..], z))
    ensures ReadRow(item, b, p) == Ok((row, z))
  {
    assert [row[0]] + row[1..] == row;
  }

  lemma {:induction false} RowsRoundTrip(item: seq<ScalarKind>, rows: seq<seq<ScalarValue>>, buf: seq<byte>)
    requires RowsOk(item, rows) && WriteRows(buf, item, rows).Ok?
    ensures ReadRows(item, WriteRows(buf, item, rows).value, |buf|)
      == Ok((rows, |WriteRows(buf, item, rows).value|))
    decreases |rows|
  {
    if rows != [] {
      var b := WriteRow(buf, item, rows[0]).value;
      var w := WriteRows(b, item, rows[1..]).value;
      RowsOkTail(item, rows);
      RowsRoundTrip(item, rows[1..], b);
      FirstRowRead(item, rows[0], buf, b, w);
      assert WriteRows(buf, item, rows) == Ok(w);
      RowsReadStep(item, rows, |buf|, |b|, w);
    }
  }

  lemma {:induction false} RowsOkTail(item: seq<ScalarKind>, rows: seq<seq<ScalarValue>>)
    requires rows != [] && RowsOk(item, rows)
    ensures RowOk(item, rows[0]) && RowsOk(item, rows[1..])
  {
    forall r | r in rows[1..] ensures RowOk(item, r) { assert r in rows; }
  }

  /** The first row of an FArray, written at the end of `buf`, reads back from the whole. */
  lemma {:induction false} FirstRowRead(item: seq<ScalarKind>, row: seq<ScalarValue>, buf: seq<byte>, b: seq<byte>, w: seq<byte>)
    requires RowOk(item, row) && WriteRow(buf, item, row) == Ok(b)
    requires |b| <= |w| && w[..|b|] == b
    ensures |b| == |buf| + RowWidth(item) && ReadRow(item, w, |buf|) == Ok((row, |b|))
  {
    PrefixRest(b, w);
    RowRoundTrip(item, row, buf, w[|b|..]);
  }

  lemma {:induction false} PrefixRest(b: seq<byte>, w: seq<byte>)
    requires |b| <= |w| && w[..|b|] == b
    ensures b + w[|b|..] == w
  {
    assert w == w[..|b|] + w[|b|..];
  }

  lemma {:induction false} RowsReadStep(item: seq<ScalarKind>, rows: seq<seq<ScalarValue>>, pos: nat, next: nat, w: seq<byte>)
    requires rows != [] && pos < next <= |w|
    requires ReadRow(item, w, pos) == Ok((rows[0], next))
    requires ReadRows(item, w, next) == Ok((rows[1..], |w|))
    ensures ReadRows(item, w, pos) == Ok((rows, |w|))
  {
    assert [rows[0]] + rows[1..] == rows;
  }

  // ---------------------------------------------------------------- FOfsArray

  lemma {:induction false} IntsRoundTrip(xs: seq<int>)
    requires AllFit(xs)
    ensures DecodeInts(Ints(xs), |xs|) == xs
  {
    if xs != [] {
      var b := Ints(xs);
      assert b[..4] == SignedLE(xs[0], 4);
      assert b[4..] == Ints(xs[1..]);
      SignedRoundTrip(xs[0], 4);
      assert AllFit(xs[1..]) by {
        forall i | 0 <= i < |xs| - 1 ensures SignedFits(xs[1..][i], 4) { assert xs[1..][i] == xs[i + 1]; }
      }
      IntsRoundTrip(xs[1..]);
    }
  }

  /** Blobs written back to back behind `pre` sit at the offsets `Offsets` computes. */
  lemma {:induction false} OffsetAt(pre: seq<byte>, items: seq<seq<byte>>, i: nat)
    requires i < |items|
    ensures var offs := Offsets(|pre|, items); var r := pre + Concat(items);
      |pre| <= offs[i] && offs[i] + |items[i]| <= |r| && r[offs[i]..offs[i] + |items[i]|] == items[i] &&
      (i + 1 < |items| ==> offs[i + 1] == offs[i] + |items[i]|) &&
      (i + 1 == |items| ==> offs[i] + |items[i]| == |r|)
    decreases i
  {
    var pre' := pre + items[0];
    Assoc(pre, items[0], Concat(items[1..]));
    assert Offsets(|pre|, items) == [|pre|] + Offsets(|pre'|, items[1..]);
    if i == 0 {
      MiddleOf(pre, items[0], Concat(items[1..]));
      if |items| == 1 {
        assert Concat(items[1..]) == [];
      }
    } else {
      OffsetAt(pre', items[1..], i - 1);
      assert items[1..][i - 1] == items[i];
      if i + 1 < |items| {
        assert items[1..][i] == items[i + 1];
      }
    }
  }

  lemma {:induction false} MiddleOf(a: seq<byte>, b: seq<byte>, c: seq<byte>)
    ensures (a + b + c)[|a|..|a| + |b|] == b
  {
  }

  lemma {:induction false} OfsArrayRoundTrip(buf: seq<byte>, fixed: Option<int>, items: seq<seq<byte>>)
    requires WriteOfsArray(buf, fixed, items).Ok?
    ensures ReadOfsArray(WriteOfsArray(buf, fixed, items).value, |buf|, fixed)
      == Ok((Blobs(items), |WriteOfsArray(buf, fixed, items).value|))
  {
    var head, offs := WriteOfsArrayShape(buf, fixed, items);
    LaidOfsArrayRead(buf, fixed, items, head, offs);
  }

  /** The head, the offset table and the blobs, laid back to back, read back. */
  lemma {:induction false} LaidOfsArrayRead(buf: seq<byte>, fixed: Option<int>, items: seq<seq<byte>>, head: seq<byte>, offs: seq<int>)
    requires fixed.None? ==> SignedFits(|items|, 4)
    requires fixed.Some? ==> fixed.value == |items|
    requires head == OfsHead(buf, fixed, |items|) && offs == Offsets(|head| + 4 * |items|, items) && AllFit(offs)
    ensures ReadOfsArray(head + Ints(offs) + Concat(items), |buf|, fixed)
      == Ok((Blobs(items), |head + Ints(offs) + Concat(items)|))
  {
    var table := Ints(offs);
    var w := head + table + Concat(items);
    CountRead(buf, fixed, |items|, table, Concat(items));
    TableRead(head, offs, Concat(items));
    ElementsLocate(head + table, items, w, offs);
    ReadOfsArrayOf(w, |buf|, fixed, |head|, offs, items);
  }

  /** What FOfsArray.write puts before the offset table: the count, unless fixed. */
  function OfsHead(buf: seq<byte>, fixed: Option<int>, n: nat): (r: seq<byte>)
  {
    if fixed.None? then buf + SignedLE(n, 4) else buf
  }

  lemma {:induction false} WriteOfsArrayShape(buf: seq<byte>, fixed: Option<int>, items: seq<seq<byte>>) returns (head: seq<byte>, offs: seq<int>)
    requires WriteOfsArray(buf, fixed, items).Ok?
    ensures fixed.None? ==> SignedFits(|items|, 4)
    ensures fixed.Some? ==> fixed.value == |items|
    ensures head == OfsHead(buf, fixed, |items|) && offs == Offsets(|head| + 4 * |items|, items)
    ensures AllFit(offs) && WriteOfsArray(buf, fixed, items).value == head + Ints(offs) + Concat(items)
  {
    head := OfsHead(buf, fixed, |items|);
    offs := Offsets(|head| + 4 * |items|, items);
  }

  lemma {:induction false} CountRead(buf: seq<byte>, fixed: Option<int>, n: nat, table: seq<byte>, rest: seq<byte>)
    requires fixed.None? ==> SignedFits(n, 4)
    requires fixed.Some? ==> fixed.value == n
    ensures var head := OfsHead(buf, fixed, n);
      ReadCount(head + table + rest, |buf|, fixed) == Ok((n, |head|))
  {
    if fixed.None? {
      var w := buf + SignedLE(n, 4) + table + rest;
      assert Chunk(w, |buf|, 4) == SignedLE(n, 4) by {
        assert w[|buf|..|buf| + 4] == SignedLE(n, 4);
      }
      SignedRoundTrip(n, 4);
    }
  }

  lemma {:induction false} TableRead(head: seq<byte>, offs: seq<int>, rest: seq<byte>)
    requires AllFit(offs)
    ensures var w := head + Ints(offs) + rest;
      |Chunk(w, |head|, 4 * |offs|)| == 4 * |offs| && DecodeInts(Chunk(w, |head|, 4 * |offs|), |offs|) == offs
  {
    var w := head + Ints(offs) + rest;
    assert Chunk(w, |head|, 4 * |offs|) == Ints(offs) by {
      assert w[|head|..|head| + 4 * |offs|] == Ints(offs);
    }
    IntsRoundTrip(offs);
  }

  /** The elements an offset table of back-to-back blobs points at are those blobs. */
  lemma {:induction false} ElementsLocate(pre: seq<byte>, items: seq<seq<byte>>, w: seq<byte>, offs: seq<int>)
    requires w == pre + Concat(items) && offs == Offsets(|pre|, items)
    ensures Elements(w, offs + [|w|]) == items
    ensures |items| > 0 ==> 0 <= offs[|items| - 1] && offs[|items| - 1] + |items[|items| - 1]| == |w|
  {
    var elems := Elements(w, offs + [|w|]);
    forall i | 0 <= i < |items| ensures elems[i] == items[i] {
      ElementLocate(pre, items, w, offs, i);
    }
    if |items| > 0 {
      OffsetAt(pre, items, |items| - 1);
    }
  }

  lemma {:induction false} ElementLocate(pre: seq<byte>, items: seq<seq<byte>>, w: seq<byte>, offs: seq<int>, i: nat)
    requires w == pre + Concat(items) && offs == Offsets(|pre|, items) && i < |items|
    ensures Elements(w, offs + [|w|])[i] == items[i]
  {
    var ends := offs + [|w|];
    OffsetAt(pre, items, i);
    assert ends[i] == offs[i] && ends[i + 1] == offs[i] + |items[i]|;
    ElementIs(w, ends, i, items[i]);
  }

  lemma {:induction false} ElementIs(w: seq<byte>, ends: seq<int>, i: nat, x: seq<byte>)
    requires i + 1 < |ends| && 0 <= ends[i] && ends[i] + |x| == ends[i + 1] <= |w|
    requires w[ends[i]..ends[i + 1]] == x
    ensures Elements(w, ends)[i] == x
  {
    ElementAt(w, ends, i);
  }

  lemma {:induction false} ReadOfsArrayOf(w: seq<byte>, pos: nat, fixed: Option<int>, p: nat, offs: seq<int>, items: seq<seq<byte>>)
    requires |offs| == |items|
    requires ReadCount(w, pos, fixed) == Ok((|items|, p))
    requires |Chunk(w, p, 4 * |items|)| == 4 * |items| && DecodeInts(Chunk(w, p, 4 * |items|), |items|) == offs
    requires Elements(w, offs + [|w|]) == items
    requires |items| > 0 ==> 0 <= offs[|items| - 1] && offs[|items| - 1] + |items[|items| - 1]| == |w|
    ensures ReadOfsArray(w, pos, fixed) == Ok((Blobs(items), |w|))
  {
    ReadOfsTableOf(w, p, offs, items);
    assert ReadOfsArray(w, pos, fixed) == ReadOfsTable(w, |items|, p);
  }

  lemma {:induction false} ReadOfsTableOf(w: seq<byte>, p: nat, offs: seq<int>, items: seq<seq<byte>>)
    requires |offs| == |items|
    requires |Chunk(w, p, 4 * |items|)| == 4 * |items| && DecodeInts(Chunk(w, p, 4 * |items|), |items|) == offs
    requires Elements(w, offs + [|w|]) == items
    requires |items| > 0 ==> 0 <= offs[|items| - 1] && offs[|items| - 1] + |items[|items| - 1]| == |w|
    ensures ReadOfsTable(w, |items|, p) == Ok((Blobs(items), |w|))
  {
    var n := |items|;
    var table := Chunk(w, p, 4 * n);
    assert |table| == 4 * Clamp(n);
    var elems := Elements(w, DecodeInts(table, n) + [|w|]);
    assert elems == items;
    var end := if n <= 0 then |w| else Clamp(DecodeInts(table, n)[n - 1]) + |elems[n - 1]|;
    assert end == |w|;
  }

  // ---------------------------------------------------------------- FLump patches

  /** A patch's data with its alignment padding, as the second loop of QData.pack lays it. */
  function Laid(p: Pending): (r: seq<byte>)
  {
    p.data + Zeros(if p.align == 0 then 0 else PadLen(p.align, |p.data|))
  }

  function LaidAll(ps: seq<Pending>): (r: seq<seq<byte>>)
    ensures |r| == |ps|
  {
    if ps == [] then [] else [Laid(ps[0])] + LaidAll(ps[1..])
  }

  predicate InSlot(p: Pending, i: int)
  {
    p.at <= i < p.at + 8
  }

  predicate InSlots(ps: seq<Pending>, i: int)
  {
    exists j | 0 <= j < |ps| :: InSlot(ps[j], i)
  }

  /** The 8-byte placeholders lie in order, without overlap, inside [lo, hi). */
  predicate Slotted(ps: seq<Pending>, lo: nat, hi: nat)
  {
    (forall j | 0 <= j < |ps| :: lo <= ps[j].at && ps[j].at + 8 <= hi) &&
    (forall j, k | 0 <= j < k < |ps| :: ps[j].at + 8 <= ps[k].at)
  }

  lemma {:induction false} PatchOne(b: seq<byte>, p: Pending)
    requires p.at + 8 <= |b| && RunPatch(b, p).Ok?
    ensures p.align > 0 && SignedFits(|b|, 4) && SignedFits(|p.data|, 4)
    ensures RunPatch(b, p).value == Overwrite(b, p.at, SignedLE(|b|, 4) + SignedLE(|p.data|, 4)) + Laid(p)
  {
    var b1 := Overwrite(b, p.at, SignedLE(|b|, 4) + SignedLE(|p.data|, 4));
    OverwriteAtEnd(b1, p.data);
    OverwriteAtEnd(b1 + p.data, Zeros(PadLen(p.align, |p.data|)));
  }

  lemma {:induction false} OverwriteOutside(b: seq<byte>, at: nat, hdr: seq<byte>, i: nat)
    requires at + |hdr| <= |b| && i < |b|
    ensures |Overwrite(b, at, hdr)| == |b|
    ensures !(at <= i < at + |hdr|) ==> Overwrite(b, at, hdr)[i] == b[i]
    ensures at <= i < at + |hdr| ==> Overwrite(b, at, hdr)[i] == hdr[i - at]
  {
    var o := Overwrite(b, at, hdr);
    if i < at {
      assert o[..at][i] == b[..at][i];
    } else if i >= at + |hdr| {
      assert o[at + |hdr|..][i - at - |hdr|] == b[at + |hdr|..][i - at - |hdr|];
    } else {
      assert o[at..at + |hdr|][i - at] == hdr[i - at];
    }
  }

  /** What the patch loop leaves behind in `r`, run on `b` whose first `n` bytes are the
      header: the header bytes outside the placeholders untouched, each placeholder
      holding (offset, size) of its data, the padded data appended in order. */
  predicate LaidOut(b: seq<byte>, n: nat, qs: seq<Pending>, r: seq<byte>)
    requires n <= |b|
  {
    LaidTail(b, n, qs, r) && LaidHeader(b, n, qs, r) && LaidSlots(b, qs, r)
  }

  predicate LaidTail(b: seq<byte>, n: nat, qs: seq<Pending>, r: seq<byte>)
    requires n <= |b|
  {
    |r| == |b| + |Concat(LaidAll(qs))| && r[n..] == b[n..] + Concat(LaidAll(qs))
  }

  predicate LaidHeader(b: seq<byte>, n: nat, qs: seq<Pending>, r: seq<byte>)
    requires n <= |b| <= |r|
  {
    forall i | 0 <= i < n && !InSlots(qs, i) :: r[i] == b[i]
  }

  predicate LaidSlots(b: seq<byte>, qs: seq<Pending>, r: seq<byte>)
  {
    var offs := Offsets(|b|, LaidAll(qs));
    forall j | 0 <= j < |qs| ::
      SignedFits(offs[j], 4) && SignedFits(|qs[j].data|, 4) && qs[j].at + 8 <= |r| &&
      r[qs[j].at..qs[j].at + 8] == SignedLE(offs[j], 4) + SignedLE(|qs[j].data|, 4)
  }

  lemma {:induction false} PatchesLayout(b: seq<byte>, n: nat, qs: seq<Pending>)
    requires n <= |b| && Slotted(qs, 0, n) && RunPatches(b, qs).Ok?
    ensures LaidOut(b, n, qs, RunPatches(b, qs).value)
    decreases |qs|
  {
    if qs != [] {
      var b1 := RunPatch(b, qs[0]).value;
      var rest := qs[1..];
      assert RunPatches(b, qs) == RunPatches(b1, rest);
      PatchOne(b, qs[0]);
      assert Slotted(rest, 0, n) by {
        forall j, k | 0 <= j < k < |rest| ensures rest[j].at + 8 <= rest[k].at {
          assert rest[j] == qs[j + 1] && rest[k] == qs[k + 1];
        }
        forall j | 0 <= j < |rest| ensures rest[j].at + 8 <= n { assert rest[j] == qs[j + 1]; }
      }
      PatchesLayout(b1, n, rest);
      PatchJoin(b, n, qs, RunPatches(b, qs).value);
    } else {
      var r := RunPatches(b, qs).value;
      assert r == b;
      assert LaidAll(qs) == [];
      assert r[n..] == b[n..] + Concat(LaidAll(qs));
    }
  }

  lemma {:induction false} LaidAllCons(qs: seq<Pending>)
    requires qs != []
    ensures LaidAll(qs) == [Laid(qs[0])] + LaidAll(qs[1..])
  {
  }

  lemma {:induction false} ConcatLaid(qs: seq<Pending>)
    requires qs != []
    ensures Concat(LaidAll(qs)) == Laid(qs[0]) + Concat(LaidAll(qs[1..]))
  {
    LaidAllCons(qs);
    ConsUnfold(0, Laid(qs[0]), LaidAll(qs[1..]));
  }

  lemma {:induction false} OffsetsLaid(base: nat, qs: seq<Pending>)
    requires qs != []
    ensures Offsets(base, LaidAll(qs)) == [base] + Offsets(base + |Laid(qs[0])|, LaidAll(qs[1..]))
  {
    LaidAllCons(qs);
    ConsUnfold(base, Laid(qs[0]), LaidAll(qs[1..]));
  }

  lemma {:induction false} ConsUnfold(base: nat, x: seq<byte>, ys: seq<seq<byte>>)
    ensures Concat([x] + ys) == x + Concat(ys)
    ensures Offsets(base, [x] + ys) == [base] + Offsets(base + |x|, ys)
  {
    assert ([x] + ys)[1..] == ys;
  }

  /** One patch followed by the rest lays out the whole list. */
  lemma {:induction false} PatchJoin(b: seq<byte>, n: nat, qs: seq<Pending>, r: seq<byte>)
    requires qs != [] && n <= |b| && Slotted(qs, 0, n) && RunPatch(b, qs[0]).Ok?
    requires LaidOut(RunPatch(b, qs[0]).value, n, qs[1..], r)
    ensures LaidOut(b, n, qs, r)
  {
    var q := qs[0];
    var hdr := SignedLE(|b|, 4) + SignedLE(|q.data|, 4);
    PatchOne(b, q);
    var o := Overwrite(b, q.at, hdr);
    assert RunPatch(b, q).value == o + Laid(q);
    JoinTail(b, n, qs, r, o);
    JoinHeader(b, n, qs, r, o);
    JoinSlots(b, n, qs, r, o);
  }

  lemma {:induction false} JoinTail(b: seq<byte>, n: nat, qs: seq<Pending>, r: seq<byte>, o: seq<byte>)
    requires qs != [] && n <= |b| && qs[0].at + 8 <= n
    requires o == Overwrite(b, qs[0].at, SignedLE(|b|, 4) + SignedLE(|qs[0].data|, 4))
    requires LaidTail(o + Laid(qs[0]), n, qs[1..], r)
    ensures LaidTail(b, n, qs, r)
  {
    var q := qs[0];
    var rest := Concat(LaidAll(qs[1..]));
    DropFurther(o, b, q.at + 8, n);
    DropAppend(o, Laid(q), n);
    ConcatLaid(qs);
    Assoc(b[n..], Laid(q), rest);
  }

  lemma {:induction false} JoinHeader(b: seq<byte>, n: nat, qs: seq<Pending>, r: seq<byte>, o: seq<byte>)
    requires qs != [] && n <= |b| && Slotted(qs, 0, n)
    requires o == Overwrite(b, qs[0].at, SignedLE(|b|, 4) + SignedLE(|qs[0].data|, 4))
    requires LaidTail(o + Laid(qs[0]), n, qs[1..], r) && LaidHeader(o + Laid(qs[0]), n, qs[1..], r)
    ensures |b| <= |r| && LaidHeader(b, n, qs, r)
  {
    var q := qs[0];
    var hdr := SignedLE(|b|, 4) + SignedLE(|q.data|, 4);
    forall i | 0 <= i < n && !InSlots(qs, i) ensures r[i] == b[i] {
      assert !InSlot(q, i);
      NotInRest(qs, i);
      OverwriteOutside(b, q.at, hdr, i);
    }
  }

  lemma {:induction false} JoinSlots(b: seq<byte>, n: nat, qs: seq<Pending>, r: seq<byte>, o: seq<byte>)
    requires qs != [] && n <= |b| && Slotted(qs, 0, n)
    requires SignedFits(|b|, 4) && SignedFits(|qs[0].data|, 4)
    requires o == Overwrite(b, qs[0].at, SignedLE(|b|, 4) + SignedLE(|qs[0].data|, 4))
    requires |o| == |b|
    requires LaidTail(o + Laid(qs[0]), n, qs[1..], r) && LaidHeader(o + Laid(qs[0]), n, qs[1..], r)
    requires LaidSlots(o + Laid(qs[0]), qs[1..], r)
    ensures LaidSlots(b, qs, r)
  {
    var rest := qs[1..];
    var b1 := o + Laid(qs[0]);
    OffsetsLaid(|b|, qs);
    var offs := Offsets(|b|, LaidAll(qs));
    var offs1 := Offsets(|b1|, LaidAll(rest));
    assert offs == [|b|] + offs1;
    FirstSlot(b, n, qs, r, o);
    forall j | 0 <= j < |qs|
      ensures SignedFits(offs[j], 4) && SignedFits(|qs[j].data|, 4) && qs[j].at + 8 <= |r| &&
        r[qs[j].at..qs[j].at + 8] == SignedLE(offs[j], 4) + SignedLE(|qs[j].data|, 4)
    {
      if j > 0 {
        assert qs[j] == rest[j - 1] && offs[j] == offs1[j - 1];
      }
    }
  }

  /** The first placeholder holds the offset and size its patch wrote there. */
  lemma {:induction false} FirstSlot(b: seq<byte>, n: nat, qs: seq<Pending>, r: seq<byte>, o: seq<byte>)
    requires qs != [] && n <= |b| && Slotted(qs, 0, n)
    requires o == Overwrite(b, qs[0].at, SignedLE(|b|, 4) + SignedLE(|qs[0].data|, 4))
    requires |o| == |b|
    requires LaidTail(o + Laid(qs[0]), n, qs[1..], r) && LaidHeader(o + Laid(qs[0]), n, qs[1..], r)
    ensures qs[0].at + 8 <= |r| && r[qs[0].at..qs[0].at + 8] == SignedLE(|b|, 4) + SignedLE(|qs[0].data|, 4)
  {
    var q := qs[0];
    var hdr := SignedLE(|b|, 4) + SignedLE(|q.data|, 4);
    forall i | q.at <= i < q.at + 8 ensures r[i] == hdr[i - q.at] {
      SlotNotInRest(qs, i);
      OverwriteOutside(b, q.at, hdr, i);
    }
  }

  lemma {:induction false} NotInRest(qs: seq<Pending>, i: int)
    requires qs != [] && !InSlots(qs, i)
    ensures !InSlots(qs[1..], i)
  {
    forall j | 0 <= j < |qs| - 1 ensures !InSlot(qs[1..][j], i) { assert qs[1..][j] == qs[j + 1]; }
  }

  lemma {:induction false} SlotNotInRest(qs: seq<Pending>, i: int)
    requires qs != [] && forall j, k | 0 <= j < k < |qs| :: qs[j].at + 8 <= qs[k].at
    requires InSlot(qs[0], i)
    ensures !InSlots(qs[1..], i)
  {
    forall j | 0 <= j < |qs| - 1 ensures !InSlot(qs[1..][j], i) { assert qs[1..][j] == qs[j + 1]; }
  }

  /** FLump.read of a placeholder that holds (ofs, size) of data stored at `ofs`. */
  lemma {:induction false} LumpRead(r: seq<byte>, at: nat, ofs: nat, data: seq<byte>, laid: seq<byte>)
    requires at + 8 <= |r| && SignedFits(ofs, 4) && SignedFits(|data|, 4)
    requires r[at..at + 8] == SignedLE(ofs, 4) + SignedLE(|data|, 4)
    requires ofs + |laid| <= |r| && r[ofs..ofs + |laid|] == laid && data <= laid
    ensures ReadLump(r, at) == Ok((Blob(data), at + 8))
  {
    var hdr := Chunk(r, at, 8);
    assert hdr == r[at..at + 8];
    HeaderFields(hdr, ofs, |data|);
    assert r[ofs..ofs + |data|] == data by {
      assert r[ofs..ofs + |data|] == r[ofs..ofs + |laid|][..|data|];
    }
    ReadLumpOf(r, at, ofs, data);
  }

  lemma {:induction false} HeaderFields(hdr: seq<byte>, ofs: int, size: int)
    requires SignedFits(ofs, 4) && SignedFits(size, 4)
    requires hdr == SignedLE(ofs, 4) + SignedLE(size, 4)
    ensures Signed(FromLE(hdr[..4]), 4) == ofs && Signed(FromLE(hdr[4..]), 4) == size
  {
    assert hdr[..4] == SignedLE(ofs, 4);
    assert hdr[4..] == SignedLE(size, 4);
    SignedRoundTrip(ofs, 4);
    SignedRoundTrip(size, 4);
  }

  lemma {:induction false} ReadLumpOf(r: seq<byte>, at: nat, ofs: nat, data: seq<byte>)
    requires at + 8 <= |r|
    requires Signed(FromLE(Chunk(r, at, 8)[..4]), 4) == ofs
    requires Signed(FromLE(Chunk(r, at, 8)[4..]), 4) == |data|
    requires ofs + |data| <= |r| && r[ofs..ofs + |data|] == data
    ensures ReadLump(r, at) == Ok((Blob(data), at + 8))
  {
  }

  // ---------------------------------------------------------------- the record

  lemma {:induction false} WriteFieldsStep(buf: seq<byte>, fs: seq<Field>, attrs: map<string, Value>)
    requires fs != [] && WriteFields(buf, fs, attrs).Ok?
    ensures fs[0].name in attrs && WriteField(buf, fs[0].kind, attrs[fs[0].name]).Ok?
    ensures var a := WriteField(buf, fs[0].kind, attrs[fs[0].name]).value;
      WriteFields(a.0, fs[1..], attrs).Ok? &&
      var rest := WriteFields(a.0, fs[1..], attrs).value;
      WriteFields(buf, fs, attrs).value == (rest.0, a.1 + rest.1)
  {
  }

  /** The placeholders QData.pack leaves lie in order inside what it wrote, and there
      are none without an FLump. */
  lemma {:induction false} WriteFieldsShape(buf: seq<byte>, fs: seq<Field>, attrs: map<string, Value>)
    requires WriteFields(buf, fs, attrs).Ok?
    ensures var w := WriteFields(buf, fs, attrs).value;
      Slotted(w.1, |buf|, |w.0|) && (NoLumps(fs) ==> w.1 == [])
    decreases |fs|
  {
    if fs != [] {
      WriteFieldsStep(buf, fs, attrs);
      var a := WriteField(buf, fs[0].kind, attrs[fs[0].name]).value;
      WriteFieldsShape(a.0, fs[1..], attrs);
      var rest := WriteFields(a.0, fs[1..], attrs).value;
      assert NoLumps(fs) ==> NoLumps(fs[1..]) by {
        if NoLumps(fs) {
          forall i | 0 <= i < |fs| - 1 ensures !fs[1..][i].kind.Lump? { assert fs[1..][i] == fs[i + 1]; }
        }
      }
      SlottedCons(a.1, rest.1, |buf|, |a.0|, |rest.0|);
    }
  }

  lemma {:induction false} SlottedCons(first: seq<Pending>, rest: seq<Pending>, lo: nat, mid: nat, hi: nat)
    requires lo <= mid <= hi && Slotted(rest, mid, hi)
    requires first == [] || (|first| == 1 && first[0].at == lo && lo + 8 == mid)
    ensures Slotted(first + rest, lo, hi)
  {
    var ps := first + rest;
    if first != [] {
      assert forall j | 1 <= j < |ps| :: ps[j] == rest[j - 1];
    } else {
      assert ps == rest;
    }
  }

  lemma {:induction false} WellLaidSuffix(fs: seq<Field>)
    requires |fs| > 0 && WellLaid(fs)
    ensures WellLaid(fs[1..])
    ensures Tailed(fs[1..]) ==> Tailed(fs)
    ensures IsTail(fs[0].kind) ==> |fs| == 1
  {
    var t := fs[1..];
    forall i | 0 <= i < |t| - 1 ensures !IsTail(t[i].kind) { assert t[i] == fs[i + 1]; }
    if Tailed(t) {
      assert t[|t| - 1] == fs[|fs| - 1];
      forall i | 0 <= i < |t| ensures !t[i].kind.Lump? { assert t[i] == fs[i + 1]; }
    }
  }

  /** `r` holds the header `h` from `base` on, except in the placeholders. */
  predicate Agrees(r: seq<byte>, base: nat, h: seq<byte>, ps: seq<Pending>)
  {
    |h| <= |r| && forall i | base <= i < |h| && !InSlots(ps, i) :: r[i] == h[i]
  }

  /** Every placeholder of `ps` reads back, through FLump.read, as its own data. */
  predicate LumpsResolved(r: seq<byte>, ps: seq<Pending>)
  {
    forall j | 0 <= j < |ps| :: ReadLump(r, ps[j].at) == Ok((Blob(ps[j].data), ps[j].at + 8))
  }

  /** The induction behind EncodeDecode: decoding from where a suffix of the fields was
      packed yields that suffix's values. */
  lemma {:induction false} FieldsRoundTrip(base: nat, buf: seq<byte>, fs: seq<Field>, attrs: map<string, Value>, r: seq<byte>)
    requires WellLaid(fs) && ValuesOk(fs, attrs) && AllNamed(fs, attrs)
    requires base <= |buf| && WriteFields(buf, fs, attrs).Ok?
    requires var w := WriteFields(buf, fs, attrs).value;
      Agrees(r, base, w.0, w.1) && LumpsResolved(r, w.1) &&
      (Tailed(fs) ==> base == 0 && |r| == |w.0|)
    ensures ReadFields(fs, r, |buf|) == Decoded(Vals(fs, attrs), |WriteFields(buf, fs, attrs).value.0|, None)
    decreases |fs|, 1
  {
    if fs != [] {
      match fs[0].kind
      case Scalar(_) => ScalarFieldRoundTrip(base, buf, fs, attrs, r);
      case Lump(_) => LumpFieldRoundTrip(base, buf, fs, attrs, r);
      case _ => TailFieldRoundTrip(base, buf, fs, attrs, r);
    }
  }

  lemma {:induction false} ScalarFieldRoundTrip(base: nat, buf: seq<byte>, fs: seq<Field>, attrs: map<string, Value>, r: seq<byte>)
    requires fs != [] && fs[0].kind.Scalar?
    requires WellLaid(fs) && ValuesOk(fs, attrs) && AllNamed(fs, attrs)
    requires base <= |buf| && WriteFields(buf, fs, attrs).Ok?
    requires var w := WriteFields(buf, fs, attrs).value;
      Agrees(r, base, w.0, w.1) && LumpsResolved(r, w.1) &&
      (Tailed(fs) ==> base == 0 && |r| == |w.0|)
    ensures ReadFields(fs, r, |buf|) == Decoded(Vals(fs, attrs), |WriteFields(buf, fs, attrs).value.0|, None)
    decreases |fs|, 0
  {
    var f := fs[0];
    var v := attrs[f.name];
    WriteFieldsStep(buf, fs, attrs);
    var a := WriteField(buf, f.kind, v).value;
    var tl := fs[1..];
    var rest := WriteFields(a.0, tl, attrs).value;
    var w := WriteFields(buf, fs, attrs).value;
    assert w == (rest.0, a.1 + rest.1);
    WellLaidSuffix(fs);
    SuffixOk(fs, attrs);
    WriteFieldsShape(a.0, tl, attrs);
    ScalarHead(buf, f.kind, v, a);
    assert w.1 == rest.1;
    ScalarStep(f.kind, v, buf, a.0, r, base, rest.0, rest.1);
    FieldsRoundTrip(base, a.0, tl, attrs, r);
    ReadFieldsStep(fs, r, |buf|, v, |a.0|, ReadFields(tl, r, |a.0|));
  }

  lemma {:induction false} LumpFieldRoundTrip(base: nat, buf: seq<byte>, fs: seq<Field>, attrs: map<string, Value>, r: seq<byte>)
    requires fs != [] && fs[0].kind.Lump?
    requires WellLaid(fs) && ValuesOk(fs, attrs) && AllNamed(fs, attrs)
    requires base <= |buf| && WriteFields(buf, fs, attrs).Ok?
    requires var w := WriteFields(buf, fs, attrs).value;
      Agrees(r, base, w.0, w.1) && LumpsResolved(r, w.1) &&
      (Tailed(fs) ==> base == 0 && |r| == |w.0|)
    ensures ReadFields(fs, r, |buf|) == Decoded(Vals(fs, attrs), |WriteFields(buf, fs, attrs).value.0|, None)
    decreases |fs|, 0
  {
    var f := fs[0];
    var v := attrs[f.name];
    WriteFieldsStep(buf, fs, attrs);
    var a := WriteField(buf, f.kind, v).value;
    var tl := fs[1..];
    var rest := WriteFields(a.0, tl, attrs).value;
    var w := WriteFields(buf, fs, attrs).value;
    assert w == (rest.0, a.1 + rest.1);
    WellLaidSuffix(fs);
    SuffixOk(fs, attrs);
    assert w.1[0] == Pending(|buf|, v.raw, f.kind.align) && w.1[1..] == rest.1;
    LumpHead(r, buf, f.kind, v, w.1, |a.0|);
    assert !Tailed(tl) by { assert !NoLumps(fs); }
    DropSlot(r, base, |a.0|, w.0, w.1);
    FieldsRoundTrip(|a.0|, a.0, tl, attrs, r);
    ReadFieldsStep(fs, r, |buf|, v, |a.0|, ReadFields(tl, r, |a.0|));
  }

  lemma {:induction false} LumpHead(r: seq<byte>, buf: seq<byte>, kind: FieldKind, v: Value, ps: seq<Pending>, next: nat)
    requires kind.Lump? && v.Blob? && ps != [] && ps[0] == Pending(|buf|, v.raw, kind.align)
    requires LumpsResolved(r, ps) && next == |buf| + 8
    ensures ReadField(kind, r, |buf|) == Ok((v, next))
  {
    assert ReadLump(r, ps[0].at) == Ok((Blob(ps[0].data), ps[0].at + 8));
  }

  lemma {:induction false} TailFieldRoundTrip(base: nat, buf: seq<byte>, fs: seq<Field>, attrs: map<string, Value>, r: seq<byte>)
    requires fs != [] && IsTail(fs[0].kind)
    requires WellLaid(fs) && ValuesOk(fs, attrs) && AllNamed(fs, attrs)
    requires base <= |buf| && WriteFields(buf, fs, attrs).Ok?
    requires var w := WriteFields(buf, fs, attrs).value;
      Agrees(r, base, w.0, w.1) && LumpsResolved(r, w.1) &&
      (Tailed(fs) ==> base == 0 && |r| == |w.0|)
    ensures ReadFields(fs, r, |buf|) == Decoded(Vals(fs, attrs), |WriteFields(buf, fs, attrs).value.0|, None)
    decreases |fs|, 0
  {
    var f := fs[0];
    var v := attrs[f.name];
    WriteFieldsStep(buf, fs, attrs);
    var a := WriteField(buf, f.kind, v).value;
    var tl := fs[1..];
    var rest := WriteFields(a.0, tl, attrs).value;
    var w := WriteFields(buf, fs, attrs).value;
    assert w == (rest.0, a.1 + rest.1);
    WellLaidSuffix(fs);
    SuffixOk(fs, attrs);
    assert tl == [] && w.1 == [];
    AgreesAll(r, w.0);
    match f.kind
    case OfsArray(fixed) =>
      OfsArrayRoundTrip(buf, fixed, v.items);
      ReadFieldsStep(fs, r, |buf|, v, |r|, ReadFields(tl, r, |r|));
    case Array(item) =>
      RowsRoundTrip(item, v.rows, buf);
      ReadFieldsStep(fs, r, |buf|, v, |r|, ReadFields(tl, r, |r|));
  }

  lemma {:induction false} SuffixOk(fs: seq<Field>, attrs: map<string, Value>)
    requires fs != [] && ValuesOk(fs, attrs) && AllNamed(fs, attrs)
    ensures ValuesOk(fs[1..], attrs) && AllNamed(fs[1..], attrs)
    ensures ValueOk(fs[0].kind, attrs[fs[0].name])
    ensures Vals(fs, attrs) == [attrs[fs[0].name]] + Vals(fs[1..], attrs)
  {
    var tl := fs[1..];
    forall i | 0 <= i < |tl| && tl[i].name in attrs ensures ValueOk(tl[i].kind, attrs[tl[i].name]) {
      assert tl[i] == fs[i + 1];
    }
    forall i | 0 <= i < |tl| ensures tl[i].name in attrs { assert tl[i] == fs[i + 1]; }
  }

  lemma {:induction false} ReadFieldsStep(fs: seq<Field>, r: seq<byte>, p: nat, v: Value, p': nat, rest: Decoded)
    requires fs != [] && ReadField(fs[0].kind, r, p) == Ok((v, p'))
    requires ReadFields(fs[1..], r, p') == rest
    ensures ReadFields(fs, r, p) == Decoded([v] + rest.values, rest.pos, rest.failure)
  {
  }

  lemma {:induction false} ScalarHead(buf: seq<byte>, kind: FieldKind, v: Value, a: (seq<byte>, seq<Pending>))
    requires kind.Scalar? && WriteField(buf, kind, v) == Ok(a)
    ensures v.Atom? && EncodeScalar(kind.k, v.v).Ok? && a == (buf + EncodeScalar(kind.k, v.v).value, [])
  {
  }

  lemma {:induction false} ScalarStep(kind: FieldKind, v: Value, buf: seq<byte>, b: seq<byte>, r: seq<byte>, base: nat, h: seq<byte>, ps: seq<Pending>)
    requires kind.Scalar? && v.Atom? && ScalarOk(kind.k, v.v)
    requires EncodeScalar(kind.k, v.v).Ok? && b == buf + EncodeScalar(kind.k, v.v).value
    requires base <= |buf| && |b| <= |h| && h[..|b|] == b
    requires Agrees(r, base, h, ps) && Slotted(ps, |b|, |h|)
    ensures ReadField(kind, r, |buf|) == Ok((v, |b|))
  {
    var e := EncodeScalar(kind.k, v.v).value;
    var m := |b|;
    BelowSlots(r, base, h, ps, |buf|, m);
    assert h[|buf|..m] == e by {
      assert h[|buf|..m] == h[..m][|buf|..];
    }
    Split3(r, |buf|, m);
    ScalarRoundTrip(kind.k, v.v, r[..|buf|], r[m..]);
  }

  /** Below the first placeholder the bytes are the ones first written. */
  lemma {:induction false} BelowSlots(r: seq<byte>, base: nat, h: seq<byte>, ps: seq<Pending>, lo: nat, m: nat)
    requires Agrees(r, base, h, ps) && Slotted(ps, m, |h|) && base <= lo <= m <= |h|
    ensures r[lo..m] == h[lo..m]
  {
    forall i | lo <= i < m ensures r[i] == h[i] {
      forall j | 0 <= j < |ps| ensures !InSlot(ps[j], i) {
      }
    }
  }

  lemma {:induction false} Split3(r: seq<byte>, a: nat, b: nat)
    requires a <= b <= |r|
    ensures r == r[..a] + r[a..b] + r[b..]
  {
  }

  lemma {:induction false} DropSlot(r: seq<byte>, base: nat, lo: nat, h: seq<byte>, ps: seq<Pending>)
    requires ps != [] && base <= lo && ps[0].at + 8 <= lo
    requires Agrees(r, base, h, ps) && LumpsResolved(r, ps)
    ensures Agrees(r, lo, h, ps[1..]) && LumpsResolved(r, ps[1..])
  {
    DropSlotAgrees(r, base, lo, h, ps);
    DropSlotResolved(r, ps);
  }

  lemma {:induction false} DropSlotAgrees(r: seq<byte>, base: nat, lo: nat, h: seq<byte>, ps: seq<Pending>)
    requires ps != [] && base <= lo && ps[0].at + 8 <= lo
    requires Agrees(r, base, h, ps)
    ensures Agrees(r, lo, h, ps[1..])
  {
    forall i | lo <= i < |h| && !InSlots(ps[1..], i) ensures r[i] == h[i] {
      forall j | 0 <= j < |ps| ensures !InSlot(ps[j], i) {
        if j > 0 { assert ps[j] == ps[1..][j - 1]; }
      }
    }
  }

  lemma {:induction false} DropSlotResolved(r: seq<byte>, ps: seq<Pending>)
    requires ps != [] && LumpsResolved(r, ps)
    ensures LumpsResolved(r, ps[1..])
  {
    forall j | 0 <= j < |ps| - 1
      ensures ReadLump(r, ps[1..][j].at) == Ok((Blob(ps[1..][j].data), ps[1..][j].at + 8))
    {
      assert ps[1..][j] == ps[j + 1];
    }
  }

  lemma {:induction false} AgreesAll(r: seq<byte>, h: seq<byte>)
    requires Agrees(r, 0, h, []) && |r| == |h|
    ensures r == h
  {
    forall i | 0 <= i < |r| ensures r[i] == h[i] { assert !InSlots([], i); }
  }

  /** `Decode(Encode(x)) == x`: the attributes a well-laid record was packed from are
      exactly the ones its bytes decode to. */
  lemma {:induction false} EncodeDecode(fs: seq<Field>, attrs: map<string, Value>)
    requires WellLaid(fs) && ValuesOk(fs, attrs) && AllNamed(fs, attrs)
    requires Encode(fs, attrs).Ok?
    ensures Decode(fs, Encode(fs, attrs).value) == Ok(Vals(fs, attrs))
  {
    var w := WriteFields([], fs, attrs).value;
    var h, ps := w.0, w.1;
    WriteFieldsShape([], fs, attrs);
    var r := RunPatches(h, ps).value;
    assert Encode(fs, attrs) == Ok(r);
    PatchesLayout(h, |h|, ps);
    PatchesResolve(h, ps, r);
    if Tailed(fs) {
      assert ps == [] && r == h;
    }
    FieldsRoundTrip(0, [], fs, attrs, r);
  }

  /** A record without lumps or a tail decodes from the front of a longer buffer as
      well, the cursor stopping just after its own bytes: QMdl's header before its
      body. */
  lemma {:induction false} HeaderDecode(fs: seq<Field>, attrs: map<string, Value>, post: seq<byte>)
    requires WellLaid(fs) && NoLumps(fs) && !Tailed(fs) && ValuesOk(fs, attrs) && AllNamed(fs, attrs)
    requires Encode(fs, attrs).Ok?
    ensures var h := Encode(fs, attrs).value;
      ReadFields(fs, h + post, 0) == Decoded(Vals(fs, attrs), |h|, None)
  {
    var w := WriteFields([], fs, attrs).value;
    WriteFieldsShape([], fs, attrs);
    assert Encode(fs, attrs) == Ok(w.0);
    var r := w.0 + post;
    assert Agrees(r, 0, w.0, []);
    FieldsRoundTrip(0, [], fs, attrs, r);
  }

  /** After the patch loop every placeholder reads back as its data. */
  lemma {:induction false} PatchesResolve(h: seq<byte>, ps: seq<Pending>, r: seq<byte>)
    requires Slotted(ps, 0, |h|) && LaidOut(h, |h|, ps, r)
    ensures Agrees(r, 0, h, ps) && LumpsResolved(r, ps)
  {
    LaidSplit(h, ps, r);
    SlotsResolve(h, ps, r);
  }

  lemma {:induction false} SlotsResolve(h: seq<byte>, ps: seq<Pending>, r: seq<byte>)
    requires LaidSlots(h, ps, r) && |h| <= |r| && r[|h|..] == Concat(LaidAll(ps))
    ensures LumpsResolved(r, ps)
  {
    var offs := Offsets(|h|, LaidAll(ps));
    forall j | 0 <= j < |ps| ensures ReadLump(r, ps[j].at) == Ok((Blob(ps[j].data), ps[j].at + 8)) {
      SlotAt(h, ps, r, offs, j);
      PaddedBlobAt(h, ps, r, offs, j);
      LumpRead(r, ps[j].at, offs[j], ps[j].data, Laid(ps[j]));
    }
  }

  lemma {:induction false} LaidSplit(h: seq<byte>, ps: seq<Pending>, r: seq<byte>)
    requires LaidTail(h, |h|, ps, r)
    ensures |h| <= |r| && r[|h|..] == Concat(LaidAll(ps))
  {
    assert h[|h|..] == [];
  }

  /** Blob `i` of blobs laid back to back from `base` sits at its offset. */
  lemma {:induction false} LaidBlobAt(r: seq<byte>, base: nat, items: seq<seq<byte>>, offs: seq<nat>, i: nat)
    requires base <= |r| && r[base..] == Concat(items) && offs == Offsets(base, items) && i < |items|
    ensures offs[i] + |items[i]| <= |r| && r[offs[i]..offs[i] + |items[i]|] == items[i]
  {
    assert r == r[..base] + Concat(items);
    OffsetAt(r[..base], items, i);
  }

  /** The data of placeholder `j`, with its padding, sits at its offset. */
  lemma {:induction false} PaddedBlobAt(h: seq<byte>, ps: seq<Pending>, r: seq<byte>, offs: seq<nat>, j: nat)
    requires |h| <= |r| && r[|h|..] == Concat(LaidAll(ps)) && offs == Offsets(|h|, LaidAll(ps)) && j < |ps|
    ensures offs[j] + |Laid(ps[j])| <= |r| && r[offs[j]..offs[j] + |Laid(ps[j])|] == Laid(ps[j])
    ensures ps[j].data <= Laid(ps[j])
  {
    LaidBlobAt(r, |h|, LaidAll(ps), offs, j);
    LaidAllAt(ps, j);
  }

  lemma {:induction false} SlotAt(h: seq<byte>, ps: seq<Pending>, r: seq<byte>, offs: seq<nat>, j: nat)
    requires LaidSlots(h, ps, r) && offs == Offsets(|h|, LaidAll(ps)) && j < |ps|
    ensures SignedFits(offs[j], 4) && SignedFits(|ps[j].data|, 4) && ps[j].at + 8 <= |r|
    ensures r[ps[j].at..ps[j].at + 8] == SignedLE(offs[j], 4) + SignedLE(|ps[j].data|, 4)
  {
  }

  lemma {:induction false} LaidAllAt(ps: seq<Pending>, j: nat)
    requires j < |ps|
    ensures LaidAll(ps)[j] == Laid(ps[j]) && ps[j].data <= Laid(ps[j])
    decreases j
  {
    LaidAllCons(ps);
    if j > 0 {
      LaidAllAt(ps[1..], j - 1);
    }
  }
}
