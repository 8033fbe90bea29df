/** The structural field types of Server/qdata.py (FLump, FOfsArray, FArray, FArrayOf)
    and the default field-by-field record layout (`QData.unpack` / `QData.pack`), as
    functions of the buffer.  The methods of module Packing perform the same reads and
    writes on a Stream and are proved to leave exactly these results. */
module Fields {
  import opened Results
  import opened Bytes
  import opened Scalars

  datatype FieldKind =
    | Scalar(k: ScalarKind)
    | Lump(align: nat)               // FLump(cls, align): an (offset, size) pair; value = the sub-record's bytes
    | OfsArray(fixed: Option<int>)   // FOfsArray(cls, fixedlength): value = each element record's bytes
    | Array(item: seq<ScalarKind>)   // FArray(cls): records of cls's (scalar) FIELDS up to the end
    | ArrayOf(elem: ScalarKind)      // FArrayOf(fitem): scalars up to the end

  datatype Field = Field(name: string, kind: FieldKind)

  datatype Value =
    | Atom(v: ScalarValue)
    | Blob(raw: seq<byte>)
    | Blobs(items: seq<seq<byte>>)
    | Rows(rows: seq<seq<ScalarValue>>)
    | List(elems: seq<ScalarValue>)

  /** Outcome of the field-by-field decode: `QData.unpack` sets each attribute as soon
      as it is read, so a failure leaves the fields read before it in place. */
  datatype Decoded = Decoded(values: seq<Value>, pos: nat, failure: Option<Error>)

  // ---------------------------------------------------------------- reading

  /** The signed little-endian ints of a table read with '<' + 'i' * count. */
  function DecodeInts(chunk: seq<byte>, count: nat): (r: seq<int>)
    requires |chunk| == 4 * count
    ensures |r| == count
  {
    if count == 0 then [] else [Signed(FromLE(chunk[..4]), 4)] + DecodeInts(chunk[4..], count - 1)
  }

  /** FLump.read: read (ofs, size), take `size` bytes at `ofs`, come back behind the pair. */
  function ReadLump(buf: seq<byte>, pos: nat): (r: Result<(Value, nat)>)
  {
    var hdr := Chunk(buf, pos, 8);
    if |hdr| != 8 then Err(StructError)
    else
      var ofs := Signed(FromLE(hdr[..4]), 4);
      var size := Signed(FromLE(hdr[4..]), 4);
      var data := Chunk(buf, Clamp(ofs), size);
      if |data| != size then Err(PrematureEnd) else Ok((Blob(data), pos + 8))
  }

  /** Element i runs from ofs[i] to ofs[i+1]; the caller appends the end of the buffer. */
  function Elements(buf: seq<byte>, ofs: seq<int>): (r: seq<seq<byte>>)
    requires |ofs| >= 1
    ensures |r| == |ofs| - 1
  {
    if |ofs| == 1 then [] else [Chunk(buf, Clamp(ofs[0]), ofs[1] - ofs[0])] + Elements(buf, ofs[1..])
  }

  /** Element i is what `f.read` returns after `f.seek(ofs[i])`, asked for the distance
      to the next offset. */
  lemma {:induction false} ElementAt(buf: seq<byte>, ofs: seq<int>, i: nat)
    requires i + 1 < |ofs|
    ensures Elements(buf, ofs)[i] == Chunk(buf, Clamp(ofs[i]), ofs[i + 1] - ofs[i])
    decreases i
  {
    if i > 0 {
      ElementAt(buf, ofs[1..], i - 1);
      assert ofs[1..][i - 1] == ofs[i] && ofs[1..][i] == ofs[i + 1];
    }
  }

  /** The element count of an FOfsArray: the fixed length, or an int read first. */
  function ReadCount(buf: seq<byte>, pos: nat, fixed: Option<int>): (r: Result<(int, nat)>)
  {
    match fixed
    case Some(n) => Ok((n, pos))
    case None =>
      var r :- ReadScalar(Int32, buf, pos);
      Ok((r.0.i, r.1))
  }

  /** FOfsArray.read.  The cursor is not restored: it stays behind the last element
      read, or at the end of the buffer when there is none. */
  function ReadOfsArray(buf: seq<byte>, pos: nat, fixed: Option<int>): (r: Result<(Value, nat)>)
  {
    var c :- ReadCount(buf, pos, fixed);
    ReadOfsTable(buf, c.0, c.1)
  }

  /** The rest of FOfsArray.read once the count is known: the table of `count` offsets
      at `pos`, then the elements they point at. */
  function ReadOfsTable(buf: seq<byte>, count: int, pos: nat): (r: Result<(Value, nat)>)
  {
    var table := Chunk(buf, pos, 4 * count);
    if |table| != 4 * Clamp(count) then Err(StructError)
    else
      var ofs := DecodeInts(table, Clamp(count));
      var elems := Elements(buf, ofs + [|buf|]);
      var end := if count <= 0 then |buf| else Clamp(ofs[count - 1]) + |elems[count - 1]|;
      Ok((Blobs(elems), end))
  }

  /** One FArray element: the item record's scalar fields in order. */
  function ReadRow(item: seq<ScalarKind>, buf: seq<byte>, pos: nat): (r: Result<(seq<ScalarValue>, nat)>)
    ensures r.Ok? ==> |r.value.0| == |item| && pos <= r.value.1
    ensures r.Ok? && pos <= |buf| ==> r.value.1 <= |buf|
  {
    if item == [] then Ok(([], pos))
    else
      var a :- ReadScalar(item[0], buf, pos);
      var b :- ReadRow(item[1..], buf, a.1);
      Ok(([a.0] + b.0, b.1))
  }

  /** FArray.read: elements until the cursor reaches the end of the buffer. */
  function ReadRows(item: seq<ScalarKind>, buf: seq<byte>, pos: nat): (r: Result<(seq<seq<ScalarValue>>, nat)>)
    decreases |buf| - pos
  {
    if pos >= |buf| then Ok(([], pos))
    else
      var r :- ReadRow(item, buf, pos);
      if r.1 <= pos then Err(NoProgress)
      else
        var rest :- ReadRows(item, buf, r.1);
        Ok(([r.0] + rest.0, rest.1))
  }

  /** FArrayOf.read: scalars until the cursor reaches the end of the buffer. */
  function ReadElems(elem: ScalarKind, buf: seq<byte>, pos: nat): (r: Result<(seq<ScalarValue>, nat)>)
    decreases |buf| - pos
  {
    if pos >= |buf| then Ok(([], pos))
    else
      var r :- ReadScalar(elem, buf, pos);
      if r.1 <= pos then Err(NoProgress)
      else
        var rest :- ReadElems(elem, buf, r.1);
        Ok(([r.0] + rest.0, rest.1))
  }

  function ReadField(kind: FieldKind, buf: seq<byte>, pos: nat): (r: Result<(Value, nat)>)
  {
    match kind
    case Scalar(k) =>
      var r :- ReadScalar(k, buf, pos);
      Ok((Atom(r.0), r.1))
    case Lump(_) => ReadLump(buf, pos)
    case OfsArray(fixed) => ReadOfsArray(buf, pos, fixed)
    case Array(item) =>
      var r :- ReadRows(item, buf, pos);
      Ok((Rows(r.0), r.1))
    case ArrayOf(elem) =>
      var r :- ReadElems(elem, buf, pos);
      Ok((List(r.0), r.1))
  }

  /** QData.unpack: every field in order, stopping at the first failure. */
  function ReadFields(fs: seq<Field>, buf: seq<byte>, pos: nat): (d: Decoded)
    ensures d.failure.None? <==> |d.values| == |fs|
    ensures |d.values| <= |fs|
  {
    if fs == [] then Decoded([], pos, None)
    else
      match ReadField(fs[0].kind, buf, pos)
      case Err(e) => Decoded([], pos, Some(e))
      case Ok(r) =>
        var rest := ReadFields(fs[1..], buf, r.1);
        Decoded([r.0] + rest.values, rest.pos, rest.failure)
  }

  /** The values a record's bytes decode to, or the first failure. */
  function Decode(fs: seq<Field>, raw: seq<byte>): (r: Result<seq<Value>>)
  {
    var d := ReadFields(fs, raw, 0);
    if d.failure.Some? then Err(d.failure.value) else Ok(d.values)
  }

  // ---------------------------------------------------------------- writing

  /** The patch FLump.write hands back: fill the placeholder at `at`, append `data`, pad. */
  datatype Pending = Pending(at: nat, data: seq<byte>, align: nat)

  function Concat(items: seq<seq<byte>>): (r: seq<byte>)
  {
    if items == [] then [] else items[0] + Concat(items[1..])
  }

  /** Where each element lands when the elements are written one after the other from `base`. */
  function Offsets(base: nat, items: seq<seq<byte>>): (r: seq<nat>)
    ensures |r| == |items|
    decreases |items|
  {
    if items == [] then [] else [base] + Offsets(base + |items[0]|, items[1..])
  }

  /** The bytes of `struct.pack('<' + 'i' * n, *xs)`. */
  function Ints(xs: seq<int>): (r: seq<byte>)
    ensures |r| == 4 * |xs|
  {
    if xs == [] then [] else SignedLE(xs[0], 4) + Ints(xs[1..])
  }

  predicate AllFit(xs: seq<int>)
  {
    forall i | 0 <= i < |xs| :: SignedFits(xs[i], 4)
  }

  /** FOfsArray.write on a buffer whose cursor is at its end: the count (unless fixed),
      the offset table patched with each element's actual start, then the elements. */
  function WriteOfsArray(buf: seq<byte>, fixed: Option<int>, items: seq<seq<byte>>): (r: Result<seq<byte>>)
    ensures r.Ok? ==> |buf| <= |r.value| && r.value[..|buf|] == buf
  {
    var head :- WriteCount(buf, fixed, |items|);
    WriteTable(head, items)
  }

  /** The count in front of the table (a 4-byte signed int), or the check of a fixed count. */
  function WriteCount(buf: seq<byte>, fixed: Option<int>, n: nat): (r: Result<seq<byte>>)
    ensures r.Ok? <==> (fixed.None? ==> SignedFits(n, 4)) && (fixed.Some? ==> fixed.value == n)
  {
    match fixed
    case None => if SignedFits(n, 4) then Ok(buf + SignedLE(n, 4)) else Err(StructError)
    case Some(m) => if n == m then Ok(buf) else Err(AssertionFailed)
  }

  /** The offset table, then the elements, after `head`; an offset that does not fit in a
      signed 4-byte int is a struct.error. */
  function WriteTable(head: seq<byte>, items: seq<seq<byte>>): (r: Result<seq<byte>>)
    ensures r.Ok? ==> |head| <= |r.value| && r.value[..|head|] == head
  {
    var offs := Offsets(|head| + 4 * |items|, items);
    if AllFit(offs) then Ok(head + Ints(offs) + Concat(items)) else Err(StructError)
  }

  /** One FArray element: `item.pack(f)` of a record with scalar fields only; a field
      the row has no value for is an AttributeError when its turn comes. */
  function WriteRow(buf: seq<byte>, item: seq<ScalarKind>, row: seq<ScalarValue>): (r: Result<seq<byte>>)
    ensures r.Ok? ==> |buf| <= |r.value| && r.value[..|buf|] == buf
    decreases |item|
  {
    if item == [] then Ok(buf)
    else if row == [] then Err(AttributeError)
    else
      var e :- EncodeScalar(item[0], row[0]);
      WriteRow(buf + e, item[1..], row[1..])
  }

  function WriteRows(buf: seq<byte>, item: seq<ScalarKind>, rows: seq<seq<ScalarValue>>): (r: Result<seq<byte>>)
    ensures r.Ok? ==> |buf| <= |r.value| && r.value[..|buf|] == buf
    decreases |rows|
  {
    if rows == [] then Ok(buf)
    else
      var b :- WriteRow(buf, item, rows[0]);
      WriteRows(b, item, rows[1..])
  }

  /** `fld.write(f, x)` with the cursor at the end of `buf`: the new contents and, for
      an FLump, the deferred patch. */
  function WriteField(buf: seq<byte>, kind: FieldKind, v: Value): (r: Result<(seq<byte>, seq<Pending>)>)
    ensures r.Ok? ==> |buf| <= |r.value.0| && r.value.0[..|buf|] == buf
    ensures r.Ok? && !kind.Lump? ==> r.value.1 == []
    ensures r.Ok? && kind.Lump? ==>
      v.Blob? && r.value == (buf + Zeros(8), [Pending(|buf|, v.raw, kind.align)])
  {
    match kind
    case Scalar(k) =>
      if !v.Atom? then Err(TypeError)
      else
        var e :- EncodeScalar(k, v.v);
        Ok((buf + e, []))
    case Lump(align) =>
      if !v.Blob? then Err(AttributeError) else Ok((buf + Zeros(8), [Pending(|buf|, v.raw, align)]))
    case OfsArray(fixed) =>
      if !v.Blobs? then Err(TypeError)
      else
        var b :- WriteOfsArray(buf, fixed, v.items);
        Ok((b, []))
    case Array(item) =>
      if !v.Rows? then Err(TypeError)
      else
        var b :- WriteRows(buf, item, v.rows);
        Ok((b, []))
    case ArrayOf(_) => Err(AttributeError) // FArrayOf has no `write`
  }

  /** The first loop of QData.pack: `getattr` then `write` for each field in order. */
  function WriteFields(buf: seq<byte>, fs: seq<Field>, attrs: map<string, Value>): (r: Result<(seq<byte>, seq<Pending>)>)
    ensures r.Ok? ==> |buf| <= |r.value.0| && r.value.0[..|buf|] == buf
    decreases |fs|
  {
    if fs == [] then Ok((buf, []))
    else if fs[0].name !in attrs then Err(AttributeError)
    else
      var a :- WriteField(buf, fs[0].kind, attrs[fs[0].name]);
      var b :- WriteFields(a.0, fs[1..], attrs);
      Ok((b.0, a.1 + b.1))
  }

  /** One deferred FLump patch, run with the cursor at the end of `buf`. */
  function RunPatch(buf: seq<byte>, p: Pending): (r: Result<seq<byte>>)
    ensures r.Ok? ==> |buf| <= |r.value|
  {
    if !SignedFits(|buf|, 4) || !SignedFits(|p.data|, 4) then Err(StructError)
    else
      var b1 := Overwrite(buf, p.at, SignedLE(|buf|, 4) + SignedLE(|p.data|, 4));
      var b2 := Overwrite(b1, |buf|, p.data);
      if p.align == 0 then Err(ZeroDivision)
      else Ok(Overwrite(b2, |buf| + |p.data|, Zeros(PadLen(p.align, |p.data|))))
  }

  /** The second loop of QData.pack: the patches, in field order. */
  function RunPatches(buf: seq<byte>, ps: seq<Pending>): (r: Result<seq<byte>>)
    decreases |ps|
  {
    if ps == [] then Ok(buf)
    else
      var b :- RunPatch(buf, ps[0]);
      RunPatches(b, ps[1..])
  }

  /** QData.pack onto a stream whose cursor is at its end. */
  function PackOnto(buf: seq<byte>, fs: seq<Field>, attrs: map<string, Value>): (r: Result<seq<byte>>)
  {
    var w :- WriteFields(buf, fs, attrs);
    RunPatches(w.0, w.1)
  }

  /** The bytes `rawdata` re-packs a decoded field-based record into. */
  function Encode(fs: seq<Field>, attrs: map<string, Value>): (r: Result<seq<byte>>)
  {
    PackOnto([], fs, attrs)
  }
}
