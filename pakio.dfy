/** QPak of Server/qdata.py on a stream: the loops of `unpack` that read the directory
    and the members, the loops of `pack` that order the names and write the blobs and
    the directory, and the object that holds `signature`, `_names` and `content`.
    Every method is proved against the functions of module Paks, so the round trip
    proved there (Paks.PackUnpack) is what these loops do. */
module PakStreams {
  import opened Results
  import opened Bytes
  import opened PyLists
  import opened Scalars
  import opened Streams
  import opened Packing
  import opened Runs
  import opened Paks

  // ---------------------------------------------------------------- unpack

  /** `QPakEntry(f.read(64))`: the raw bytes of one directory entry. */
  method ReadRawEntryFrom(f: Stream) returns (raw: seq<byte>)
    modifies f
    ensures f.buf == old(f.buf)
    ensures Follows(Ok(raw), ReadRawEntry((), After(old(f.buf), old(f.pos))), After(f.buf, f.pos))
  {
    ChunkAfter(f.buf, f.pos, EntrySize);
    raw := f.Read(EntrySize);
  }

  /** `[QPakEntry(f.read(64)) for i in range(dirlen)]`: never fails. */
  method ReadRawEntriesFrom(f: Stream, n: nat) returns (raws: seq<seq<byte>>)
    modifies f
    ensures f.buf == old(f.buf)
    ensures Follows(Ok(raws), ReadRun(ReadRawEntry, (), After(old(f.buf), old(f.pos)), n), After(f.buf, f.pos))
  {
    raws := [];
    var i := 0;
    ghost var spec := ReadRun(ReadRawEntry, (), After(f.buf, f.pos), n);
    PrependRunNil(spec);
    while i < n
      invariant 0 <= i <= n && f.buf == old(f.buf)
      invariant spec == PrependRun(raws, ReadRun(ReadRawEntry, (), After(f.buf, f.pos), n - i))
    {
      ghost var s := After(f.buf, f.pos);
      var raw := ReadRawEntryFrom(f);
      RunStep(ReadRawEntry, (), spec, n, i, raws, s, Ok(raw), After(f.buf, f.pos));
      raws := raws + [raw];
      i := i + 1;
    }
    PrependRunDone(raws, After(f.buf, f.pos));
  }

  /** `[entry.name for entry in entries]`: each entry decodes lazily here, in order. */
  method DecodeAll(raws: seq<seq<byte>>) returns (r: Result<seq<Entry>>)
    ensures r == DecodeEntries(raws)
  {
    var es: seq<Entry> := [];
    var i := 0;
    while i < |raws|
      invariant 0 <= i <= |raws| && |es| == i
      invariant forall j | 0 <= j < i :: DecodeEntry(raws[j]) == Ok(es[j])
    {
      var e := DecodeEntry(raws[i]);
      if e.Err? {
        return Err(e.error);
      }
      es := es + [e.value];
      i := i + 1;
    }
    assert DecodeEntries(raws).value == es;
    return Ok(es);
  }

  /** The last loop of QPak.unpack: seek to each entry, read its bytes, and store them
      under its name with the class its extension picks. */
  method LoadMembers(f: Stream, es: seq<Entry>) returns (content: map<Name, Member>)
    modifies f
    ensures f.buf == old(f.buf)
    ensures content == Contents(f.buf, es)
  {
    content := map[];
    var i := 0;
    while i < |es|
      invariant 0 <= i <= |es| && f.buf == old(f.buf)
      invariant content == Contents(f.buf, es[..i])
    {
      var e := es[i];
      var cls := GuessClass(Ext(e.name));
      f.Seek(e.ofs);
      var data := f.Read(e.size);
      assert es[..i + 1][..i] == es[..i];
      content := content[e.name := Member(cls, data)];
      i := i + 1;
    }
    assert es[..|es|] == es;
  }

  // ---------------------------------------------------------------- pack

  /** The first loop of QPak.pack: the names of `_names` that `content` still holds,
      each deleted from the copy `new`, and the members left in `new`.  A name met a
      second time is no longer in `new`: KeyError. */
  method KeepNames(before: seq<Name>, content: map<Name, Member>) returns (r: Result<seq<Name>>, rest: map<Name, Member>)
    ensures r == Kept(before, content)
    ensures r.Ok? ==> rest == content - (set n | n in r.value)
  {
    var names: seq<Name> := [];
    rest := content;
    var i := 0;
    while i < |before|
      invariant 0 <= i <= |before|
      invariant names == KeptNames(before[..i], content) && Distinct(names)
      invariant rest == content - (set n | n in names)
    {
      var name := before[i];
      KeptNamesStep(before, content, i);
      if name in content {
        if name !in rest {
          KeptRepeats(before, content, i);
          return Err(KeyError), rest;
        }
        DeleteOne(content, names, name);
        rest := rest - {name};
        names := names + [name];
      }
      i := i + 1;
    }
    assert before[..|before|] == before;
    return Ok(names), rest;
  }

  /** `del new[name]` for a name not yet deleted: one more name deleted, and the
      deleted names stay distinct. */
  lemma DeleteOne(content: map<Name, Member>, names: seq<Name>, name: Name)
    requires Distinct(names) && name in content - (set n | n in names)
    ensures content - (set n | n in names + [name]) == content - (set n | n in names) - {name}
    ensures Distinct(names + [name])
  {
    assert (set n | n in names + [name]) == (set n | n in names) + {name};
  }

  /** `names += new.keys()`: the members left in `new`, in the dictionary's own
      order, which any order may be. */
  method AppendNew(kept: seq<Name>, rest: map<Name, Member>) returns (names: seq<Name>)
    requires Distinct(kept) && forall n | n in kept :: n !in rest
    ensures |kept| <= |names| && names[..|kept|] == kept && Distinct(names)
    ensures forall n :: n in names <==> n in kept || n in rest
  {
    names := kept;
    var left := rest.Keys;
    while left != {}
      invariant left <= rest.Keys
      invariant |kept| <= |names| && names[..|kept|] == kept && Distinct(names)
      invariant forall n :: n in names <==> n in kept || (n in rest && n !in left)
      decreases |left|
    {
      var k :| k in left;
      assert (names + [k])[..|kept|] == names[..|kept|];
      names := names + [k];
      left := left - {k};
    }
  }

  /** The second loop of QPak.pack: each member's `rawdata` written at the end of the
      stream, padded to 4, with the entry recording its name, offset and size. */
  method WriteBlobs(f: Stream, names: seq<Name>, content: map<Name, Member>) returns (entries: seq<Entry>)
    requires f.pos == |f.buf| && forall n | n in names :: n in content
    modifies f
    ensures var l := Layout(|old(f.buf)|, names, content);
      entries == l.1 && f.buf == old(f.buf) + l.0 && f.pos == |f.buf|
  {
    ghost var base := |f.buf|;
    entries := [];
    var i := 0;
    assert old(f.buf) + [] == old(f.buf);
    while i < |names|
      invariant 0 <= i <= |names| && f.pos == |f.buf|
      invariant var l := Layout(base, names[..i], content);
        entries == l.1 && f.buf == old(f.buf) + l.0
    {
      ghost var l := Layout(base, names[..i], content);
      var name := names[i];
      var data := content[name].data;
      assert names[..i + 1][..i] == names[..i] && names[..i + 1][i] == name;
      entries := entries + [Entry(name, f.Tell(), |data|)];
      Append(f, data);
      Append(f, Zeros(PadLen(Align, |data|)));
      Assoc(old(f.buf) + l.0, data, Zeros(PadLen(Align, |data|)));
      Assoc(old(f.buf), l.0, Padded(data));
      i := i + 1;
    }
    assert names[..|names|] == names;
  }

  /** `f.write(entry.rawdata)` for one entry of the directory. */
  method WriteEntryTo(f: Stream, e: Entry) returns (r: Result<()>)
    requires f.pos == |f.buf|
    modifies f
    ensures f.pos == |f.buf|
    ensures r == Done(EncodeEntry((), e))
    ensures r.Ok? ==> f.buf == old(f.buf) + EncodeEntry((), e).value
  {
    var x := EncodeEntry((), e);
    if x.Err? {
      return Err(x.error);
    }
    Append(f, x.value);
    return Ok(());
  }

  /** The third loop of QPak.pack: the directory, entry after entry. */
  method WriteEntriesTo(f: Stream, es: seq<Entry>) returns (r: Result<()>)
    requires f.pos == |f.buf|
    modifies f
    ensures f.pos == |f.buf|
    ensures r == Done(WriteRun(EncodeEntry, (), es))
    ensures r.Ok? ==> f.buf == old(f.buf) + WriteRun(EncodeEntry, (), es).value
  {
    ghost var spec := WriteRun(EncodeEntry, (), es);
    ghost var w: seq<byte> := [];
    var i := 0;
    AppendToNil(spec);
    assert es[0..] == es;
    assert old(f.buf) + [] == old(f.buf);
    while i < |es|
      invariant 0 <= i <= |es| && f.pos == |f.buf| && f.buf == old(f.buf) + w
      invariant spec == AppendTo(w, WriteRun(EncodeEntry, (), es[i..]))
    {
      ghost var e := EncodeEntry((), es[i]);
      WriteStep(EncodeEntry, (), spec, es, i, w, e);
      var x := WriteEntryTo(f, es[i]);
      if x.Err? {
        return x;
      }
      Assoc(old(f.buf), w, e.value);
      w := w + e.value;
      i := i + 1;
    }
    WriteDone(EncodeEntry, (), spec, es, w);
    return Ok(());
  }

  /** `f.seek(hdrpos)` and `f.write(struct.pack("<ii", ...))` over the zeros written
      there first. */
  lemma {:induction false} PatchHeader(a: seq<byte>, z: seq<byte>, h: seq<byte>, rest: seq<byte>)
    requires |z| == |h|
    ensures Overwrite(a + z + rest, |a|, h) == a + h + rest
  {
    var r := Overwrite(a + z + rest, |a|, h);
    assert r[..|a|] == a && r[|a|..|a| + |h|] == h && r[|a| + |h|..] == rest;
    assert r == r[..|a|] + r[|a|..|a| + |h|] + r[|a| + |h|..];
  }

  /** QPak.pack after the signature: a zero header, the padded blobs, the directory,
      then the header patched to the directory's position and size. */
  method WritePak(f: Stream, names: seq<Name>, content: map<Name, Member>, ghost buf: seq<byte>) returns (r: Result<()>)
    requires f.buf == buf + PackSig && f.pos == |f.buf| && forall n | n in names :: n in content
    modifies f
    ensures r == Done(PakBytes(buf, names, content))
    ensures r.Ok? ==> f.buf == PakBytes(buf, names, content).value && f.pos == |buf| + 12
  {
    var hdrpos := f.Tell();
    Append(f, Zeros(8));
    ghost var mid := f.buf;
    assert |mid| == |buf| + 12;
    var entries := WriteBlobs(f, names, content);
    ghost var l := Layout(|mid|, names, content);
    var dirpos := f.Tell();
    r := WriteEntriesTo(f, entries);
    if r.Err? {
      return;
    }
    ghost var dir := WriteRun(EncodeEntry, (), l.1).value;
    var size := EntrySize * |entries|;
    if !SignedFits(dirpos, 4) || !SignedFits(size, 4) {
      return Err(StructError);
    }
    assert |entries| == |names| && dirpos == |buf| + 12 + |l.0|;
    ghost var pre := f.buf;
    assert pre == buf + PackSig + Zeros(8) + l.0 + dir;
    f.Seek(hdrpos);
    var h := SignedLE(dirpos, 4) + SignedLE(size, 4);
    f.Write(h);
    PatchedPak(buf, names, content, l.0, dir, dirpos, size);
  }

  /** The stream once the header is patched holds PakBytes. */
  lemma {:induction false} PatchedPak(buf: seq<byte>, names: seq<Name>, content: map<Name, Member>,
    blobs: seq<byte>, dir: seq<byte>, dirpos: int, size: int)
    requires forall n | n in names :: n in content
    requires Layout(|buf| + 12, names, content).0 == blobs
    requires WriteRun(EncodeEntry, (), Layout(|buf| + 12, names, content).1) == Ok(dir)
    requires dirpos == |buf| + 12 + |blobs| && size == EntrySize * |names|
    requires SignedFits(dirpos, 4) && SignedFits(size, 4)
    ensures PakBytes(buf, names, content) ==
      Ok(Overwrite(buf + PackSig + Zeros(8) + blobs + dir, |buf| + 4, SignedLE(dirpos, 4) + SignedLE(size, 4)))
  {
    PakBytesOf(buf, names, content, blobs, dir);
    PatchHeaderFlat(buf + PackSig, Zeros(8), SignedLE(dirpos, 4), SignedLE(size, 4), blobs, dir);
  }

  lemma PatchHeaderFlat(a: seq<byte>, z: seq<byte>, s1: seq<byte>, s2: seq<byte>, blobs: seq<byte>, dir: seq<byte>)
    requires |z| == |s1| + |s2|
    ensures Overwrite(a + z + blobs + dir, |a|, s1 + s2) == a + s1 + s2 + blobs + dir
  {
    var h := s1 + s2;
    Assoc(a + z, blobs, dir);
    PatchHeader(a, z, h, blobs + dir);
    Assoc4(a, s1, s2, blobs, dir);
    Assoc(a, h, blobs + dir);
  }

  /** The result of the directory's `unpack`, without its entries. */
  function Outcome(u: Result<seq<Entry>>): (r: Result<()>)
  {
    match u
    case Ok(_) => Ok(())
    case Err(e) => Err(e)
  }

  class Pak {
    /** The `signature` attribute (None before it is read or given). */
    var signature: Option<seq<byte>>
    /** `_names`: the directory's names in file order. */
    var names: seq<Name>
    /** `content`: each member by name. */
    var content: map<Name, Member>

    /** `QPak(signature=..., _names=..., content=...)`. */
    constructor (signature: Option<seq<byte>>, names: seq<Name>, content: map<Name, Member>)
      ensures this.signature == signature && this.names == names && this.content == content
    {
      this.signature := signature;
      this.names := names;
      this.content := content;
    }

    /** QPak.unpack: the signature, the header, the raw directory at `dirpos`, the
        names, then every member.  On success the names and the content are those
        UnpackPak and Contents describe; `_names` changes only then, and `content`
        is emptied as soon as the header has been read. */
    method Unpack(f: Stream) returns (r: Result<()>)
      modifies this, f
      ensures f.buf == old(f.buf)
      ensures var u := UnpackPak(f.buf, old(f.pos));
        r == Outcome(u) && (u.Ok? ==> names == Names(u.value) && content == Contents(f.buf, u.value))
      ensures r.Err? ==> names == old(names)
      ensures Chunk(f.buf, old(f.pos), 4) != PackSig ==> signature == old(signature) && content == old(content)
      ensures Chunk(f.buf, old(f.pos), 4) == PackSig ==> signature == Some(PackSig)
      ensures ReadHeader(f.buf, old(f.pos)).Ok? && r.Err? ==> content == map[]
    {
      ghost var start := f.pos;
      var sig := f.Read(4);
      if sig != PackSig {
        return Err(BadSignature);
      }
      signature := Some(sig);
      var hdr := f.Read(8);
      if |hdr| != 8 {
        return Err(StructError);
      }
      var dirpos, dirsize := Signed(FromLE(hdr[..4]), 4), Signed(FromLE(hdr[4..]), 4);
      assert ReadHeader(f.buf, start) == Ok((dirpos, dirsize));
      f.Seek(dirpos);
      content := map[];
      var raws := ReadRawEntriesFrom(f, DirLen(dirsize));
      var es := DecodeAll(raws);
      if es.Err? {
        return Err(es.error);
      }
      names := Names(es.value);
      content := LoadMembers(f, es.value);
      return Ok(());
    }

    /** QPak.pack at the end of the stream: the signature (which must be 'PACK'),
        the names of `_names` still in `content` followed by the new ones, a zero
        header, the padded blobs, the directory, and the header patched to the
        directory's position and size.  The stream then holds PakBytes of the new
        `_names`, and its cursor is just behind the header. */
    method Pack(f: Stream) returns (r: Result<()>)
      requires f.pos == |f.buf|
      modifies this, f
      ensures signature == old(signature) && content == old(content)
      ensures signature.None? ==> r == Err(AttributeError) && names == old(names) && f.buf == old(f.buf)
      ensures signature.Some? && signature.value != PackSig ==>
        r == Err(AssertionFailed) && names == old(names) && f.buf == old(f.buf)
      ensures signature == Some(PackSig) && Kept(old(names), content).Err? ==>
        r == Err(KeyError) && names == old(names)
      ensures signature == Some(PackSig) && Kept(old(names), content).Ok? ==>
        var kept := Kept(old(names), content).value;
        |kept| <= |names| && names[..|kept|] == kept && Distinct(names) &&
        (forall n :: n in names <==> n in content) &&
        r == Done(PakBytes(old(f.buf), names, content)) &&
        (r.Ok? ==> f.buf == PakBytes(old(f.buf), names, content).value && f.pos == |old(f.buf)| + 12)
    {
      if signature.None? {
        return Err(AttributeError);
      }
      if signature.value != PackSig {
        return Err(AssertionFailed);
      }
      Append(f, PackSig);
      var kept, rest := KeepNames(names, content);
      if kept.Err? {
        return Err(kept.error);
      }
      var all := AppendNew(kept.value, rest);
      names := all;
      r := WritePak(f, names, content, old(f.buf));
    }
  }
}
