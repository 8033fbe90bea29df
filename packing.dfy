/** The stream side of Server/qdata.py: each field type's `read` and `write` and the
    patch loop of `QData.pack`, moving the cursor of a Stream exactly as the source
    does.  Each method is proved to return, and to leave in the stream, what the
    functions of module Fields describe; the round trip proved about those functions
    therefore holds of these methods too. */
module Packing {
  import opened Results
  import opened Bytes
  import opened Scalars
  import opened Streams
  import opened Fields
  import opened FieldsRoundTrip

  /** The value part of a read's (value, cursor) result. */
  function ValueOf<T>(spec: Result<(T, nat)>): (r: Result<T>)
  {
    match spec
    case Ok(p) => Ok(p.0)
    case Err(e) => Err(e)
  }

  /** Success or failure of a write whose resulting buffer is `spec`. */
  function Done(spec: Result<seq<byte>>): (r: Result<()>)
  {
    match spec
    case Ok(_) => Ok(())
    case Err(e) => Err(e)
  }

  /** A read result with `xs` put in front of its values: what is left to read after
      `xs` were read. */
  function Prepend<T>(xs: seq<T>, r: Result<(seq<T>, nat)>): (res: Result<(seq<T>, nat)>)
  {
    match r
    case Ok(p) => Ok((xs + p.0, p.1))
    case Err(e) => Err(e)
  }

  // ---------------------------------------------------------------- reading

  /** `fld.read(f, ctx)` of a scalar field. */
  method ReadScalarFrom(f: Stream, k: ScalarKind) returns (r: Result<ScalarValue>)
    modifies f
    ensures f.buf == old(f.buf)
    ensures var spec := ReadScalar(k, old(f.buf), old(f.pos));
      r == ValueOf(spec) && (spec.Ok? ==> f.pos == spec.value.1)
  {
    var chunk := f.Read(Width(k));
    r := DecodeScalar(k, chunk);
  }

  /** FLump.read: the cursor comes back behind the (ofs, size) pair before the size
      check, so it is restored even when the lump runs past the end. */
  method ReadLumpFrom(f: Stream) returns (r: Result<Value>)
    modifies f
    ensures f.buf == old(f.buf)
    ensures var spec := ReadLump(old(f.buf), old(f.pos));
      r == ValueOf(spec) && (spec.Ok? ==> f.pos == spec.value.1)
  {
    var hdr := f.Read(8);
    if |hdr| != 8 {
      return Err(StructError);
    }
    var ofs := Signed(FromLE(hdr[..4]), 4);
    var size := Signed(FromLE(hdr[4..]), 4);
    var cur := f.Tell();
    f.Seek(ofs);
    var data := f.Read(size);
    f.Seek(cur);
    if |data| != size {
      return Err(PrematureEnd);
    }
    return Ok(Blob(data));
  }

  /** The element count of FOfsArray.read: the fixed length, or an int read first. */
  method ReadCountFrom(f: Stream, fixed: Option<int>) returns (r: Result<int>)
    modifies f
    ensures f.buf == old(f.buf)
    ensures var spec := ReadCount(old(f.buf), old(f.pos), fixed);
      r == ValueOf(spec) && f.pos == (if spec.Ok? then spec.value.1 else f.pos)
  {
    match fixed {
      case Some(n) =>
        r := Ok(n);
      case None =>
        var c := ReadScalarFrom(f, Int32);
        r := if c.Ok? then Ok(c.value.i) else Err(c.error);
    }
  }

  /** The element loop of FOfsArray.read, over the offsets with the end of the buffer
      appended: seek to each offset and read up to the next one. */
  method ReadElementsFrom(f: Stream, ofslist: seq<int>) returns (result: seq<seq<byte>>)
    requires |ofslist| >= 1 && f.pos == |f.buf|
    modifies f
    ensures f.buf == old(f.buf) && result == Elements(f.buf, ofslist)
    ensures |ofslist| == 1 ==> f.pos == |f.buf|
    ensures |ofslist| > 1 ==> f.pos == Clamp(ofslist[|ofslist| - 2]) + |result[|ofslist| - 2]|
  {
    ghost var elems := Elements(f.buf, ofslist);
    result := [];
    var i := 0;
    while i < |ofslist| - 1
      invariant 0 <= i <= |elems| && f.buf == old(f.buf)
      invariant result == elems[..i]
      invariant i == 0 ==> f.pos == |f.buf|
      invariant i > 0 ==> f.pos == Clamp(ofslist[i - 1]) + |elems[i - 1]|
    {
      var data := ReadElementFrom(f, ofslist, i);
      assert elems[..i + 1] == elems[..i] + [data];
      result := result + [data];
      i := i + 1;
    }
    assert elems[..i] == elems;
  }

  /** One turn of that loop: `f.seek(ofslist[i])` and read up to the next offset. */
  method ReadElementFrom(f: Stream, ofslist: seq<int>, i: nat) returns (data: seq<byte>)
    requires i + 1 < |ofslist|
    modifies f
    ensures f.buf == old(f.buf) && data == Elements(f.buf, ofslist)[i]
    ensures f.pos == Clamp(ofslist[i]) + |data|
  {
    f.Seek(ofslist[i]);
    data := f.Read(ofslist[i + 1] - ofslist[i]);
    ElementAt(f.buf, ofslist, i);
  }

  /** FOfsArray.read: the count, the offset table, then each element from its offset
      to the next one (the last one to the end of the buffer).  The cursor is left
      where the last element ends. */
  method ReadOfsArrayFrom(f: Stream, fixed: Option<int>) returns (r: Result<Value>)
    modifies f
    ensures f.buf == old(f.buf)
    ensures var spec := ReadOfsArray(old(f.buf), old(f.pos), fixed);
      r == ValueOf(spec) && (spec.Ok? ==> f.pos == spec.value.1)
  {
    var c := ReadCountFrom(f, fixed);
    if c.Err? {
      return Err(c.error);
    }
    var count := c.value;
    var table := f.Read(4 * count);
    if |table| != 4 * Clamp(count) {
      return Err(StructError);
    }
    var ofslist := DecodeInts(table, Clamp(count));
    f.SeekEnd();
    ofslist := ofslist + [f.Tell()];
    var result := ReadElementsFrom(f, ofslist);
    assert count > 0 ==> ofslist[count - 1] == DecodeInts(table, Clamp(count))[count - 1];
    return Ok(Blobs(result));
  }

  /** `item.unpack(f)` of an FArray element: its scalar fields in order. */
  method ReadRowFrom(f: Stream, item: seq<ScalarKind>) returns (r: Result<seq<ScalarValue>>)
    modifies f
    ensures f.buf == old(f.buf)
    ensures var spec := ReadRow(item, old(f.buf), old(f.pos));
      r == ValueOf(spec) && (spec.Ok? ==> f.pos == spec.value.1)
  {
    var row: seq<ScalarValue> := [];
    var j := 0;
    assert item[0..] == item;
    PrependNil(ReadRow(item, f.buf, f.pos));
    while j < |item|
      invariant 0 <= j <= |item| && f.buf == old(f.buf)
      invariant Prepend(row, ReadRow(item[j..], f.buf, f.pos)) == ReadRow(item, f.buf, old(f.pos))
    {
      assert item[j..][0] == item[j] && item[j..][1..] == item[j + 1..];
      ghost var before := f.pos;
      var x := ReadScalarFrom(f, item[j]);
      if x.Err? {
        return Err(x.error);
      }
      assert ReadRow(item[j..], f.buf, before) == Prepend([x.value], ReadRow(item[j + 1..], f.buf, f.pos));
      PrependStep(row, x.value, ReadRow(item[j + 1..], f.buf, f.pos));
      row := row + [x.value];
      j := j + 1;
    }
    PrependDone(row, f.pos);
    return Ok(row);
  }

  /** FArray.read: elements while the cursor is before the end.  An element that
      consumes nothing would make the source loop forever; here it is NoProgress. */
  method ReadRowsFrom(f: Stream, item: seq<ScalarKind>) returns (r: Result<seq<seq<ScalarValue>>>)
    modifies f
    ensures f.buf == old(f.buf)
    ensures var spec := ReadRows(item, old(f.buf), old(f.pos));
      r == ValueOf(spec) && (spec.Ok? ==> f.pos == spec.value.1)
  {
    var p := f.Tell();
    f.SeekEnd();
    var end := f.Tell();
    f.Seek(p);
    var rows: seq<seq<ScalarValue>> := [];
    PrependNil(ReadRows(item, f.buf, f.pos));
    while f.Tell() < end
      invariant f.buf == old(f.buf) && end == |f.buf|
      invariant Prepend(rows, ReadRows(item, f.buf, f.pos)) == ReadRows(item, f.buf, old(f.pos))
      decreases end - f.pos
    {
      var start := f.Tell();
      var x := ReadRowFrom(f, item);
      if x.Err? {
        return Err(x.error);
      }
      if f.Tell() <= start {
        return Err(NoProgress);
      }
      assert ReadRows(item, f.buf, start) == Prepend([x.value], ReadRows(item, f.buf, f.pos));
      PrependStep(rows, x.value, ReadRows(item, f.buf, f.pos));
      rows := rows + [x.value];
    }
    PrependDone(rows, f.pos);
    return Ok(rows);
  }

  /** FArrayOf.read: scalars while the cursor is before the end. */
  method ReadElemsFrom(f: Stream, elem: ScalarKind) returns (r: Result<seq<ScalarValue>>)
    modifies f
    ensures f.buf == old(f.buf)
    ensures var spec := ReadElems(elem, old(f.buf), old(f.pos));
      r == ValueOf(spec) && (spec.Ok? ==> f.pos == spec.value.1)
  {
    var p := f.Tell();
    f.SeekEnd();
    var end := f.Tell();
    f.Seek(p);
    var elems: seq<ScalarValue> := [];
    PrependNil(ReadElems(elem, f.buf, f.pos));
    while f.Tell() < end
      invariant f.buf == old(f.buf) && end == |f.buf|
      invariant Prepend(elems, ReadElems(elem, f.buf, f.pos)) == ReadElems(elem, f.buf, old(f.pos))
      decreases end - f.pos
    {
      var start := f.Tell();
      var x := ReadScalarFrom(f, elem);
      if x.Err? {
        return Err(x.error);
      }
      if f.Tell() <= start {
        return Err(NoProgress);
      }
      assert ReadElems(elem, f.buf, start) == Prepend([x.value], ReadElems(elem, f.buf, f.pos));
      PrependStep(elems, x.value, ReadElems(elem, f.buf, f.pos));
      elems := elems + [x.value];
    }
    PrependDone(elems, f.pos);
    return Ok(elems);
  }

  /** `fld.read(f, ctx)` for any field. */
  method ReadFieldFrom(f: Stream, kind: FieldKind) returns (r: Result<Value>)
    modifies f
    ensures f.buf == old(f.buf)
    ensures var spec := ReadField(kind, old(f.buf), old(f.pos));
      r == ValueOf(spec) && (spec.Ok? ==> f.pos == spec.value.1)
  {
    match kind
    case Scalar(k) =>
      var x := ReadScalarFrom(f, k);
      r := if x.Ok? then Ok(Atom(x.value)) else Err(x.error);
    case Lump(_) =>
      r := ReadLumpFrom(f);
    case OfsArray(fixed) =>
      r := ReadOfsArrayFrom(f, fixed);
    case Array(item) =>
      var x := ReadRowsFrom(f, item);
      r := if x.Ok? then Ok(Rows(x.value)) else Err(x.error);
    case ArrayOf(elem) =>
      var x := ReadElemsFrom(f, elem);
      r := if x.Ok? then Ok(List(x.value)) else Err(x.error);
  }

  // ---------------------------------------------------------------- writing
  // Every write below happens with the cursor at the end of the buffer, which is
  // where QData.pack always leaves it.

  /** `fld.write(f, v)` of a scalar field. */
  method WriteScalarTo(f: Stream, k: ScalarKind, v: ScalarValue) returns (r: Result<()>)
    requires f.pos == |f.buf|
    modifies f
    ensures var spec := EncodeScalar(k, v);
      (r.Ok? <==> spec.Ok?) && (r.Err? ==> r.error == spec.error) &&
      (spec.Ok? ==> f.buf == old(f.buf) + spec.value && f.pos == |f.buf|)
  {
    var e := EncodeScalar(k, v);
    if e.Err? {
      return Err(e.error);
    }
    OverwriteAtEnd(f.buf, e.value);
    f.Write(e.value);
    return Ok(());
  }

  /** FOfsArray.write: the count, a table of zeros, the elements one after the other
      while noting where each starts, then back to the table to fill it in. */
  method WriteOfsArrayTo(f: Stream, fixed: Option<int>, items: seq<seq<byte>>) returns (r: Result<()>)
    requires f.pos == |f.buf|
    modifies f
    ensures var spec := WriteOfsArray(old(f.buf), fixed, items);
      r == Done(spec) && (spec.Ok? ==> f.buf == spec.value && f.pos == |f.buf|)
  {
    r := WriteCountTo(f, fixed, items);
    if r.Err? {
      return;
    }
    var hdrpos := f.Tell();
    ghost var head := f.buf;
    OverwriteAtEnd(f.buf, Zeros(4 * |items|));
    f.Write(Zeros(4 * |items|));
    var ofslist := WriteElementsTo(f, items);
    var endpos := f.Tell();
    f.Seek(hdrpos);
    WriteOfsArrayIs(old(f.buf), fixed, items, head, ofslist);
    if !AllFit(ofslist) {
      return Err(StructError);
    }
    OverwriteMiddle(head, Zeros(4 * |items|), Concat(items), Ints(ofslist));
    f.Write(Ints(ofslist));
    f.Seek(endpos);
    return Ok(());
  }

  /** The count in front of an FOfsArray, or the check of a fixed count. */
  method WriteCountTo(f: Stream, fixed: Option<int>, items: seq<seq<byte>>) returns (r: Result<()>)
    requires f.pos == |f.buf|
    modifies f
    ensures r.Err? ==> r == Done(WriteOfsArray(old(f.buf), fixed, items))
    ensures r.Ok? ==> (fixed.None? ==> SignedFits(|items|, 4)) && (fixed.Some? ==> fixed.value == |items|)
    ensures r.Ok? ==> f.buf == OfsHead(old(f.buf), fixed, |items|) && f.pos == |f.buf|
  {
    match fixed {
      case None =>
        if !SignedFits(|items|, 4) {
          return Err(StructError);
        }
        OverwriteAtEnd(f.buf, SignedLE(|items|, 4));
        f.Write(SignedLE(|items|, 4));
      case Some(n) =>
        if |items| != n {
          return Err(AssertionFailed);
        }
    }
    return Ok(());
  }

  lemma WriteOfsArrayIs(buf: seq<byte>, fixed: Option<int>, items: seq<seq<byte>>, head: seq<byte>, offs: seq<nat>)
    requires fixed.None? ==> SignedFits(|items|, 4)
    requires fixed.Some? ==> fixed.value == |items|
    requires head == OfsHead(buf, fixed, |items|) && offs == Offsets(|head| + 4 * |items|, items)
    ensures WriteOfsArray(buf, fixed, items)
      == if AllFit(offs) then Ok(head + Ints(offs) + Concat(items)) else Err(StructError)
  {
    assert WriteCount(buf, fixed, |items|) == Ok(head);
    assert WriteOfsArray(buf, fixed, items) == WriteTable(head, items);
    WriteTableIs(head, items, offs);
  }

  lemma WriteTableIs(head: seq<byte>, items: seq<seq<byte>>, offs: seq<nat>)
    requires offs == Offsets(|head| + 4 * |items|, items)
    ensures WriteTable(head, items)
      == if AllFit(offs) then Ok(head + Ints(offs) + Concat(items)) else Err(StructError)
  {
  }

  /** The element loop of FOfsArray.write: each element's start, then its bytes. */
  method WriteElementsTo(f: Stream, items: seq<seq<byte>>) returns (ofslist: seq<int>)
    requires f.pos == |f.buf|
    modifies f
    ensures f.buf == old(f.buf) + Concat(items) && f.pos == |f.buf|
    ensures ofslist == Offsets(|old(f.buf)|, items)
  {
    ghost var offs := Offsets(|f.buf|, items);
    ofslist := [];
    var i := 0;
    while i < |items|
      invariant 0 <= i <= |items| && f.pos == |f.buf|
      invariant f.buf == old(f.buf) + Concat(items[..i])
      invariant ofslist == offs[..i]
    {
      OffsetIs(|old(f.buf)|, items, i);
      ConcatSnoc(items, i);
      ofslist := ofslist + [f.Tell()];
      OverwriteAtEnd(f.buf, items[i]);
      f.Write(items[i]);
      i := i + 1;
    }
    assert items[..i] == items && ofslist == offs;
  }

  /** `x.pack(f)` of an FArray element: its scalar fields in order; a field without a
      value fails when its turn comes. */
  method WriteRowTo(f: Stream, item: seq<ScalarKind>, row: seq<ScalarValue>) returns (r: Result<()>)
    requires f.pos == |f.buf|
    modifies f
    ensures var spec := WriteRow(old(f.buf), item, row);
      r == Done(spec) && (spec.Ok? ==> f.buf == spec.value && f.pos == |f.buf|)
  {
    var j := 0;
    while j < |item|
      invariant 0 <= j <= |item| && j <= |row| && f.pos == |f.buf|
      invariant WriteRow(f.buf, item[j..], row[j..]) == WriteRow(old(f.buf), item, row)
    {
      assert item[j..][1..] == item[j + 1..];
      if j == |row| {
        return Err(AttributeError);
      }
      assert row[j..][1..] == row[j + 1..];
      var x := WriteScalarTo(f, item[j], row[j]);
      if x.Err? {
        return Err(x.error);
      }
      j := j + 1;
    }
    return Ok(());
  }

  /** FArray.write: each element in turn. */
  method WriteRowsTo(f: Stream, item: seq<ScalarKind>, rows: seq<seq<ScalarValue>>) returns (r: Result<()>)
    requires f.pos == |f.buf|
    modifies f
    ensures var spec := WriteRows(old(f.buf), item, rows);
      r == Done(spec) && (spec.Ok? ==> f.buf == spec.value && f.pos == |f.buf|)
  {
    var i := 0;
    while i < |rows|
      invariant 0 <= i <= |rows| && f.pos == |f.buf|
      invariant WriteRows(f.buf, item, rows[i..]) == WriteRows(old(f.buf), item, rows)
    {
      assert rows[i..][1..] == rows[i + 1..];
      var x := WriteRowTo(f, item, rows[i]);
      if x.Err? {
        return Err(x.error);
      }
      i := i + 1;
    }
    return Ok(());
  }

  /** `fld.write(f, v)`: an FLump writes an 8-byte placeholder and hands back the
      patch that fills it; the other fields write their bytes and hand back nothing. */
  method WriteFieldTo(f: Stream, kind: FieldKind, v: Value) returns (r: Result<seq<Pending>>)
    requires f.pos == |f.buf|
    modifies f
    ensures var spec := WriteField(old(f.buf), kind, v);
      (r.Ok? <==> spec.Ok?) && (r.Err? ==> r.error == spec.error) &&
      (spec.Ok? ==> r.value == spec.value.1 && f.buf == spec.value.0 && f.pos == |f.buf|)
  {
    match kind
    case Scalar(k) =>
      if !v.Atom? {
        return Err(TypeError);
      }
      var x := WriteScalarTo(f, k, v.v);
      r := if x.Ok? then Ok([]) else Err(x.error);
    case Lump(align) =>
      if !v.Blob? {
        return Err(AttributeError);
      }
      var p := f.Tell();
      OverwriteAtEnd(f.buf, Zeros(8));
      f.Write(Zeros(8));
      r := Ok([Pending(p, v.raw, align)]);
    case OfsArray(fixed) =>
      if !v.Blobs? {
        return Err(TypeError);
      }
      var x := WriteOfsArrayTo(f, fixed, v.items);
      r := if x.Ok? then Ok([]) else Err(x.error);
    case Array(item) =>
      if !v.Rows? {
        return Err(TypeError);
      }
      var x := WriteRowsTo(f, item, v.rows);
      r := if x.Ok? then Ok([]) else Err(x.error);
    case ArrayOf(_) =>
      r := Err(AttributeError);
  }

  /** The `patch` closure of FLump.write: the (offset, size) pair into the placeholder,
      then the data and its padding at the end. */
  method RunPatchOn(f: Stream, p: Pending) returns (r: Result<()>)
    requires f.pos == |f.buf| && p.at + 8 <= |f.buf|
    modifies f
    ensures var spec := RunPatch(old(f.buf), p);
      r == Done(spec) && (spec.Ok? ==> f.buf == spec.value && f.pos == |f.buf|)
  {
    var cur := f.Tell();
    if !SignedFits(cur, 4) || !SignedFits(|p.data|, 4) {
      return Err(StructError);
    }
    f.Seek(p.at);
    f.Write(SignedLE(cur, 4) + SignedLE(|p.data|, 4));
    f.Seek(cur);
    f.Write(p.data);
    if p.align == 0 {
      return Err(ZeroDivision);
    }
    f.Write(Zeros(PadLen(p.align, |p.data|)));
    return Ok(());
  }

  /** The first loop of QData.pack: `getattr` then `fld.write` for each field in
      order (an absent attribute is an AttributeError), collecting the patches. */
  method WriteFieldsTo(f: Stream, fs: seq<Field>, attrs: map<string, Value>) returns (r: Result<seq<Pending>>)
    requires f.pos == |f.buf|
    modifies f
    ensures var spec := WriteFields(old(f.buf), fs, attrs);
      (r.Ok? <==> spec.Ok?) && (r.Err? ==> r.error == spec.error) &&
      (spec.Ok? ==> r.value == spec.value.1 && f.buf == spec.value.0 && f.pos == |f.buf|)
  {
    var temp: seq<Pending> := [];
    var i := 0;
    AddPendingNil(WriteFields(f.buf, fs, attrs));
    while i < |fs|
      invariant 0 <= i <= |fs| && f.pos == |f.buf|
      invariant AddPending(temp, WriteFields(f.buf, fs[i..], attrs)) == WriteFields(old(f.buf), fs, attrs)
    {
      assert fs[i..][0] == fs[i] && fs[i..][1..] == fs[i + 1..];
      if fs[i].name !in attrs {
        return Err(AttributeError);
      }
      ghost var before := f.buf;
      var x := WriteFieldTo(f, fs[i].kind, attrs[fs[i].name]);
      if x.Err? {
        return Err(x.error);
      }
      assert WriteFields(before, fs[i..], attrs) == AddPending(x.value, WriteFields(f.buf, fs[i + 1..], attrs));
      AddPendingStep(temp, x.value, WriteFields(f.buf, fs[i + 1..], attrs));
      temp := temp + x.value;
      i := i + 1;
    }
    assert fs[i..] == [] && temp + [] == temp;
    return Ok(temp);
  }

  /** The second loop of QData.pack: the patches in field order, each placeholder
      lying inside what was already written. */
  method RunPatchesOn(f: Stream, ps: seq<Pending>) returns (r: Result<()>)
    requires f.pos == |f.buf| && forall j | 0 <= j < |ps| :: ps[j].at + 8 <= |f.buf|
    modifies f
    ensures var spec := RunPatches(old(f.buf), ps);
      r == Done(spec) && (spec.Ok? ==> f.buf == spec.value && f.pos == |f.buf|)
  {
    var j := 0;
    while j < |ps|
      invariant 0 <= j <= |ps| && f.pos == |f.buf| && |old(f.buf)| <= |f.buf|
      invariant RunPatches(f.buf, ps[j..]) == RunPatches(old(f.buf), ps)
    {
      assert ps[j..][0] == ps[j] && ps[j..][1..] == ps[j + 1..];
      ghost var before := f.buf;
      var x := RunPatchOn(f, ps[j]);
      if x.Err? {
        assert RunPatches(before, ps[j..]) == Err(x.error);
        return Err(x.error);
      }
      assert RunPatches(before, ps[j..]) == RunPatches(f.buf, ps[j + 1..]);
      j := j + 1;
    }
    assert ps[j..] == [];
    return Ok(());
  }

  /** QData.pack: every field written in order, then every deferred patch. */
  method PackInto(f: Stream, fs: seq<Field>, attrs: map<string, Value>) returns (r: Result<()>)
    requires f.pos == |f.buf|
    modifies f
    ensures var spec := PackOnto(old(f.buf), fs, attrs);
      r == Done(spec) && (spec.Ok? ==> f.buf == spec.value && f.pos == |f.buf|)
  {
    var temp := WriteFieldsTo(f, fs, attrs);
    if temp.Err? {
      return Err(temp.error);
    }
    WriteFieldsShape(old(f.buf), fs, attrs);
    r := RunPatchesOn(f, temp.value);
  }

  /** What is left to write after `temp` was collected. */
  function AddPending(temp: seq<Pending>, r: Result<(seq<byte>, seq<Pending>)>): (res: Result<(seq<byte>, seq<Pending>)>)
  {
    match r
    case Ok(p) => Ok((p.0, temp + p.1))
    case Err(e) => Err(e)
  }

  // ---------------------------------------------------------------- helpers

  lemma PrependNil<T>(r: Result<(seq<T>, nat)>)
    ensures Prepend([], r) == r
  {
    if r.Ok? {
      assert [] + r.value.0 == r.value.0;
    }
  }

  lemma PrependDone<T>(xs: seq<T>, pos: nat)
    ensures Prepend(xs, Ok(([], pos))) == Ok((xs, pos))
  {
    assert xs + [] == xs;
  }

  lemma PrependStep<T>(xs: seq<T>, x: T, r: Result<(seq<T>, nat)>)
    ensures Prepend(xs + [x], r) == Prepend(xs, Prepend([x], r))
  {
    if r.Ok? {
      assert xs + [x] + r.value.0 == xs + ([x] + r.value.0);
    }
  }

  lemma AddPendingNil(r: Result<(seq<byte>, seq<Pending>)>)
    ensures AddPending([], r) == r
  {
    if r.Ok? {
      assert [] + r.value.1 == r.value.1;
    }
  }

  lemma AddPendingStep(temp: seq<Pending>, ps: seq<Pending>, r: Result<(seq<byte>, seq<Pending>)>)
    ensures AddPending(temp + ps, r) == AddPending(temp, AddPending(ps, r))
  {
    if r.Ok? {
      assert temp + ps + r.value.1 == temp + (ps + r.value.1);
    }
  }

  lemma {:induction false} OffsetIs(base: nat, items: seq<seq<byte>>, i: nat)
    requires i < |items|
    ensures Offsets(base, items)[i] == base + |Concat(items[..i])|
    decreases i
  {
    if i > 0 {
      OffsetIs(base + |items[0]|, items[1..], i - 1);
      assert items[..i] == [items[0]] + items[1..][..i - 1];
    } else {
      assert items[..0] == [];
    }
  }

  lemma {:induction false} ConcatSnoc(items: seq<seq<byte>>, i: nat)
    requires i < |items|
    ensures Concat(items[..i + 1]) == Concat(items[..i]) + items[i]
    decreases i
  {
    if i == 0 {
      assert items[..1] == [items[0]];
      assert Concat(items[..1]) == items[0] + Concat([]);
    } else {
      ConcatSnoc(items[1..], i - 1);
      assert items[..i + 1] == [items[0]] + items[1..][..i];
      assert items[..i] == [items[0]] + items[1..][..i - 1];
      assert items[1..][i - 1] == items[i];
    }
  }

  lemma OverwriteMiddle(a: seq<byte>, z: seq<byte>, c: seq<byte>, d: seq<byte>)
    requires |z| == |d|
    ensures Overwrite(a + z + c, |a|, d) == a + d + c
  {
    var o := Overwrite(a + z + c, |a|, d);
    assert o[..|a|] == a;
    assert o[|a|..|a| + |d|] == d;
    assert o[|a| + |d|..] == c;
    assert o == o[..|a|] + o[|a|..|a| + |d|] + o[|a| + |d|..];
  }
}
