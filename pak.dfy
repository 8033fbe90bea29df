/** The PAK archive of Server/qdata.py (QPak, QPakEntry, GUESS_CLASS) as functions of
    the bytes: the 'PACK' signature, a (dirpos, dirsize) header, the member blobs, and
    a directory of 64-byte entries (a 56-byte NUL-padded name, then the member's offset
    and size).  The methods of module PakStreams perform the same reads and writes on a
    Stream and are proved to follow these functions. */
module Paks {
  import opened Results
  import opened Bytes
  import opened PyLists
  import opened Scalars
  import Fields
  import opened Runs
  import Schemas

  /** Member names are byte strings. */
  type Name = seq<byte>

  /** The record classes of GUESS_CLASS: QPak, QBsp, QMdl, and plain QData. */
  datatype DataClass = PakData | BspData | MdlData | PlainData

  /** An archive member as QPak.unpack creates it: `cls(data)`, a record of the class
      that still holds its bytes. */
  datatype Member = Member(cls: DataClass, data: seq<byte>)

  /** A decoded QPakEntry. */
  datatype Entry = Entry(name: Name, ofs: int, size: int)

  const Dot: byte := 46
  /** 'PACK'. */
  const PackSig: seq<byte> := [80, 65, 67, 75]
  /** '.pak', '.bsp' and '.mdl'. */
  const PakExt: seq<byte> := [46, 112, 97, 107]
  const BspExt: seq<byte> := [46, 98, 115, 112]
  const MdlExt: seq<byte> := [46, 109, 100, 108]

  const EntrySize := 64
  const NameSize := 56
  /** QPak.align. */
  const Align := 4

  lemma PackSigIsSchema()
    ensures Schemas.Ascii("PACK") == PackSig
  {
  }

  // ---------------------------------------------------------------- GUESS_CLASS

  /** `s.rfind(b)`: the last position holding `b`, or -1. */
  function RFind(s: seq<byte>, b: byte): (r: int)
    ensures -1 <= r < |s|
    ensures r >= 0 ==> s[r] == b
    ensures forall j | r < j < |s| :: s[j] != b
  {
    if s == [] then -1
    else if s[|s| - 1] == b then |s| - 1
    else RFind(s[..|s| - 1], b)
  }

  /** `name[name.rfind('.'):]`.  Without a dot the start is -1, which Python counts
      from the end: the last character. */
  function Ext(name: Name): (r: seq<byte>)
  {
    PySlice(name, RFind(name, Dot), |name|)
  }

  /** `GUESS_CLASS.get(ext, QData)`. */
  function GuessClass(ext: seq<byte>): (r: DataClass)
  {
    if ext == PakExt then PakData
    else if ext == BspExt then BspData
    else if ext == MdlExt then MdlData
    else PlainData
  }

  predicate EndsWith(s: seq<byte>, suffix: seq<byte>)
  {
    |suffix| <= |s| && s[|s| - |suffix|..] == suffix
  }

  /** A suffix made of a dot and dot-free text is the extension exactly of the names
      that end with it. */
  lemma {:induction false} ExtIs(name: Name, suffix: seq<byte>)
    requires |suffix| >= 2 && suffix[0] == Dot && Dot !in suffix[1..]
    ensures Ext(name) == suffix <==> EndsWith(name, suffix)
  {
    var r := RFind(name, Dot);
    if EndsWith(name, suffix) {
      var k := |name| - |suffix|;
      assert name[k] == Dot;
      assert name[k + 1..] == suffix[1..];
      assert forall j | k < j < |name| :: name[j] == suffix[j - k];
    }
    if Ext(name) == suffix {
      assert r >= 0;
      assert name[r..] == suffix;
    }
  }

  /** GUESS_CLASS picks QPak, QBsp or QMdl exactly for the names ending in '.pak',
      '.bsp' or '.mdl', and plain QData for every other name. */
  lemma GuessClassOfName(name: Name)
    ensures GuessClass(Ext(name)) == PakData <==> EndsWith(name, PakExt)
    ensures GuessClass(Ext(name)) == BspData <==> EndsWith(name, BspExt)
    ensures GuessClass(Ext(name)) == MdlData <==> EndsWith(name, MdlExt)
    ensures GuessClass(Ext(name)) == PlainData <==>
      !EndsWith(name, PakExt) && !EndsWith(name, BspExt) && !EndsWith(name, MdlExt)
  {
    ExtIs(name, PakExt);
    ExtIs(name, BspExt);
    ExtIs(name, MdlExt);
  }

  // ---------------------------------------------------------------- QPakEntry

  /** QPakEntry(raw).name/.ofs/.size: FCharPtr(56) then two FInt.  A raw entry of
      fewer than 64 bytes leaves an FInt short: struct.error. */
  function DecodeEntry(raw: seq<byte>): (r: Result<Entry>)
  {
    if |raw| < EntrySize then Err(StructError)
    else Ok(Entry(UpToNul(raw[..NameSize]), Signed(FromLE(raw[56..60]), 4), Signed(FromLE(raw[60..64]), 4)))
  }

  /** QPakEntry(name=..., ofs=..., size=...).rawdata. */
  function EncodeEntry(none: (), e: Entry): (r: Result<seq<byte>>)
    ensures r.Ok? ==> |r.value| == EntrySize
  {
    if |e.name| >= NameSize then Err(AssertionFailed)
    else if !SignedFits(e.ofs, 4) || !SignedFits(e.size, 4) then Err(StructError)
    else Ok(e.name + Zeros(NameSize - |e.name|) + SignedLE(e.ofs, 4) + SignedLE(e.size, 4))
  }

  /** An entry is written exactly when its name is shorter than 56 bytes and its
      offset and size fit '<i'; a NUL-free name then reads back unchanged. */
  lemma EntryRoundTrip(e: Entry)
    requires NUL !in e.name
    ensures EncodeEntry((), e).Ok? <==> |e.name| < NameSize && SignedFits(e.ofs, 4) && SignedFits(e.size, 4)
    ensures EncodeEntry((), e).Ok? ==> DecodeEntry(EncodeEntry((), e).value) == Ok(e)
  {
    if EncodeEntry((), e).Ok? {
      var w := EncodeEntry((), e).value;
      var pad := e.name + Zeros(NameSize - |e.name|);
      assert w[..NameSize] == pad;
      assert w[56..60] == SignedLE(e.ofs, 4);
      assert w[60..64] == SignedLE(e.size, 4);
      UpToNulOfPadded(e.name, NameSize - |e.name|);
      SignedRoundTrip(e.ofs, 4);
      SignedRoundTrip(e.size, 4);
    }
  }

  /** The attribute values QData.unpack sets on a decoded QPakEntry. */
  function EntryValues(e: Entry): (r: seq<Fields.Value>)
  {
    [Fields.Atom(Str(e.name)), Fields.Atom(Int(e.ofs)), Fields.Atom(Int(e.size))]
  }

  /** DecodeEntry is QData's field-by-field decode of QPakEntry.FIELDS, for the at
      most 64 bytes `f.read(64)` hands it. */
  lemma DecodeEntryIsDecode(raw: seq<byte>)
    requires |raw| <= EntrySize
    ensures Fields.Decode(Schemas.PakEntryFields(), raw) ==
      match DecodeEntry(raw) case Ok(e) => Ok(EntryValues(e)) case Err(x) => Err(x)
  {
    var fs := Schemas.PakEntryFields();
    var n := Chunk(raw, 0, 56);
    assert fs[0].kind == Fields.Scalar(CharPtr(56));
    assert Fields.ReadField(fs[0].kind, raw, 0) == Ok((Fields.Atom(Str(UpToNul(n))), |n|));
    var d := ReadEntryTail(raw, |n|);
    assert Fields.ReadFields(fs, raw, 0) == Fields.Decoded([Fields.Atom(Str(UpToNul(n)))] + d.values, d.pos, d.failure);
    if |raw| >= EntrySize {
      assert n == raw[..NameSize];
      assert [Fields.Atom(Str(UpToNul(n)))] + d.values == EntryValues(DecodeEntry(raw).value);
    }
  }

  /** The two FInt fields of QPakEntry, read from `p1`, just behind the name. */
  lemma ReadEntryTail(raw: seq<byte>, p1: nat) returns (d: Fields.Decoded)
    requires |raw| <= EntrySize && p1 == |Chunk(raw, 0, 56)|
    ensures d == Fields.ReadFields(Schemas.PakEntryFields()[1..], raw, p1)
    ensures |raw| < EntrySize ==> d.failure == Some(StructError)
    ensures |raw| >= EntrySize ==> (d.failure == None &&
      d.values == [Fields.Atom(Int(Signed(FromLE(raw[56..60]), 4))), Fields.Atom(Int(Signed(FromLE(raw[60..64]), 4)))])
  {
    var fs := Schemas.PakEntryFields()[1..];
    assert fs[0].kind == Fields.Scalar(Int32) && fs[1..][0].kind == Fields.Scalar(Int32) && fs[1..][1..] == [];
    d := Fields.ReadFields(fs, raw, p1);
    var c1 := Chunk(raw, p1, 4);
    if |c1| < 4 {
      assert Fields.ReadField(fs[0].kind, raw, p1) == Err(StructError);
      return;
    }
    assert p1 == 56 && c1 == raw[56..60];
    var v1 := Signed(FromLE(c1), 4);
    assert Fields.ReadField(fs[0].kind, raw, p1) == Ok((Fields.Atom(Int(v1)), 60));
    var c2 := Chunk(raw, 60, 4);
    if |c2| < 4 {
      assert Fields.ReadField(fs[1..][0].kind, raw, 60) == Err(StructError);
      assert Fields.ReadFields(fs[1..], raw, 60).failure == Some(StructError);
      return;
    }
    assert c2 == raw[60..64];
    var v2 := Signed(FromLE(c2), 4);
    assert Fields.ReadField(fs[1..][0].kind, raw, 60) == Ok((Fields.Atom(Int(v2)), 64));
    assert Fields.ReadFields(fs[1..][1..], raw, 64) == Fields.Decoded([], 64, None);
    assert Fields.ReadFields(fs[1..], raw, 60) == Fields.Decoded([Fields.Atom(Int(v2))], 64, None);
  }

  /** The keyword arguments of `QPakEntry(name=name, ofs=..., size=...)`. */
  function EntryAttrs(e: Entry): (r: map<string, Fields.Value>)
  {
    map["name" := Fields.Atom(Str(e.name)), "ofs" := Fields.Atom(Int(e.ofs)), "size" := Fields.Atom(Int(e.size))]
  }

  /** EncodeEntry is QData.pack of QPakEntry.FIELDS over those attributes, which is
      what `entry.rawdata` re-packs. */
  lemma EncodeEntryIsEncode(e: Entry)
    ensures Fields.Encode(Schemas.PakEntryFields(), EntryAttrs(e)) == EncodeEntry((), e)
  {
    var fs := Schemas.PakEntryFields();
    var a := EntryAttrs(e);
    assert fs[0] == Fields.Field("name", Fields.Scalar(CharPtr(56)));
    assert fs[1..][0] == Fields.Field("ofs", Fields.Scalar(Int32));
    assert fs[1..][1..][0] == Fields.Field("size", Fields.Scalar(Int32)) && fs[1..][1..][1..] == [];
    assert "name" in a && "ofs" in a && "size" in a;
    var none: seq<Fields.Pending> := [];
    assert none + none == none;
    assert a["name"] == Fields.Atom(Str(e.name)) && a["ofs"] == Fields.Atom(Int(e.ofs)) && a["size"] == Fields.Atom(Int(e.size));
    if |e.name| < NameSize && SignedFits(e.ofs, 4) {
      var b1 := e.name + Zeros(NameSize - |e.name|);
      var b2 := b1 + SignedLE(e.ofs, 4);
      assert Fields.WriteField([], fs[0].kind, a["name"]) == Ok((b1, []));
      assert Fields.WriteField(b1, fs[1..][0].kind, a["ofs"]) == Ok((b2, []));
      if SignedFits(e.size, 4) {
        var b3 := b2 + SignedLE(e.size, 4);
        assert Fields.WriteField(b2, fs[1..][1..][0].kind, a["size"]) == Ok((b3, []));
        assert Fields.WriteFields(b3, fs[1..][1..][1..], a) == Ok((b3, []));
        assert Fields.WriteFields(b2, fs[1..][1..], a) == Ok((b3, []));
        assert Fields.WriteFields(b1, fs[1..], a) == Ok((b3, []));
        assert Fields.WriteFields([], fs, a) == Ok((b3, []));
      } else {
        assert Fields.WriteField(b2, fs[1..][1..][0].kind, a["size"]) == Err(StructError);
        assert Fields.WriteFields(b1, fs[1..], a) == Err(StructError);
      }
    } else if |e.name| < NameSize {
      var b1 := e.name + Zeros(NameSize - |e.name|);
      assert Fields.WriteField([], fs[0].kind, a["name"]) == Ok((b1, []));
      assert Fields.WriteField(b1, fs[1..][0].kind, a["ofs"]) == Err(StructError);
    } else {
      assert Fields.WriteField([], fs[0].kind, a["name"]) == Err(AssertionFailed);
    }
  }

  // ---------------------------------------------------------------- QPak.unpack

  /** QData.unpack's FSignature('PACK'), then `struct.unpack("<ii", f.read(8))`:
      the directory's position and size. */
  function ReadHeader(buf: seq<byte>, pos: nat): (r: Result<(int, int)>)
  {
    if Chunk(buf, pos, 4) != PackSig then Err(BadSignature)
    else
      var hdr := Chunk(buf, pos + 4, 8);
      if |hdr| != 8 then Err(StructError)
      else Ok((Signed(FromLE(hdr[..4]), 4), Signed(FromLE(hdr[4..]), 4)))
  }

  /** `range(dirsize / 64)`: Python 2 floors the quotient (as Dafny's `/` does for a
      positive divisor), and a negative count gives no entries. */
  function DirLen(dirsize: int): (n: nat)
    ensures dirsize >= 0 ==> EntrySize * n <= dirsize < EntrySize * (n + 1)
    ensures dirsize < EntrySize ==> n == 0
  {
    Clamp(dirsize / EntrySize)
  }

  /** `QPakEntry(f.read(64))` holds the raw bytes only; reading them never fails. */
  function ReadRawEntry(none: (), s: seq<byte>): (r: Result<(seq<byte>, seq<byte>)>)
  {
    var c := Read(s, EntrySize);
    Ok((c, s[|c|..]))
  }

  /** `[entry.name for entry in entries]`: every entry decoded in turn, the first
      short one raising struct.error. */
  function DecodeEntries(raws: seq<seq<byte>>): (r: Result<seq<Entry>>)
    ensures r.Ok? <==> forall i | 0 <= i < |raws| :: DecodeEntry(raws[i]).Ok?
    ensures r.Ok? ==> |r.value| == |raws| && forall i | 0 <= i < |raws| :: DecodeEntry(raws[i]) == Ok(r.value[i])
    ensures r.Err? ==> r.error == StructError
  {
    if forall i | 0 <= i < |raws| :: |raws[i]| >= EntrySize then
      Ok(seq(|raws|, i requires 0 <= i < |raws| => DecodeEntry(raws[i]).value))
    else Err(StructError)
  }

  /** The directory QPak.unpack reads from a stream at `pos`, in file order. */
  function UnpackPak(buf: seq<byte>, pos: nat): (r: Result<seq<Entry>>)
  {
    var h :- ReadHeader(buf, pos);
    var raws :- ReadRun(ReadRawEntry, (), After(buf, Clamp(h.0)), DirLen(h.1));
    DecodeEntries(raws.0)
  }

  function Names(es: seq<Entry>): (r: seq<Name>)
    ensures |r| == |es| && forall i | 0 <= i < |es| :: r[i] == es[i].name
  {
    seq(|es|, i requires 0 <= i < |es| => es[i].name)
  }

  /** `cls(data)` after `f.seek(entry.ofs)` and `data = f.read(entry.size)`. */
  function MemberAt(buf: seq<byte>, e: Entry): (r: Member)
  {
    Member(GuessClass(Ext(e.name)), Chunk(buf, Clamp(e.ofs), e.size))
  }

  /** `self.content` after the loop over `entries`: a later entry of the same name
      replaces an earlier one. */
  function Contents(buf: seq<byte>, es: seq<Entry>): (r: map<Name, Member>)
    decreases |es|
  {
    if es == [] then map[]
    else Contents(buf, es[..|es| - 1])[es[|es| - 1].name := MemberAt(buf, es[|es| - 1])]
  }

  /** The content has a member for every name of the directory and for no other. */
  lemma {:induction false} ContentsKeys(buf: seq<byte>, es: seq<Entry>)
    ensures forall n :: n in Contents(buf, es) <==> n in Names(es)
    decreases |es|
  {
    if es != [] {
      var k := |es| - 1;
      ContentsKeys(buf, es[..k]);
      assert Names(es) == Names(es[..k]) + [es[k].name];
    }
  }

  /** A name's member is the one of its last entry. */
  lemma {:induction false} ContentsLast(buf: seq<byte>, es: seq<Entry>, i: nat)
    requires i < |es| && forall j | i < j < |es| :: es[j].name != es[i].name
    ensures es[i].name in Contents(buf, es) && Contents(buf, es)[es[i].name] == MemberAt(buf, es[i])
    decreases |es|
  {
    var k := |es| - 1;
    if i < k {
      ContentsLast(buf, es[..k], i);
    }
  }

  // ---------------------------------------------------------------- QPak.pack

  /** The names of `_names` still in `content`, in their order, each time it occurs. */
  function KeptNames(before: seq<Name>, content: map<Name, Member>): (r: seq<Name>)
    ensures forall n :: n in r <==> n in before && n in content
    decreases |before|
  {
    if before == [] then []
    else
      var k := |before| - 1;
      var r := KeptNames(before[..k], content);
      assert before == before[..k] + [before[k]];
      if before[k] in content then r + [before[k]] else r
  }

  /** One more name of `_names` is kept exactly when `content` holds it. */
  lemma KeptNamesStep(before: seq<Name>, content: map<Name, Member>, i: nat)
    requires i < |before|
    ensures KeptNames(before[..i + 1], content) ==
      if before[i] in content then KeptNames(before[..i], content) + [before[i]] else KeptNames(before[..i], content)
  {
    assert before[..i + 1][..i] == before[..i] && before[..i + 1][i] == before[i];
  }

  /** The first loop of QPak.pack: `del new[name]` for a name `_names` holds twice
      (and `content` holds) finds it already deleted, a KeyError. */
  function Kept(before: seq<Name>, content: map<Name, Member>): (r: Result<seq<Name>>)
  {
    var r := KeptNames(before, content);
    if Distinct(r) then Ok(r) else Err(KeyError)
  }

  /** The names kept from a prefix of `_names` begin the names kept from all of it. */
  lemma {:induction false} KeptPrefix(before: seq<Name>, content: map<Name, Member>, j: nat)
    requires j <= |before|
    ensures var a, b := KeptNames(before[..j], content), KeptNames(before, content);
      |a| <= |b| && b[..|a|] == a
    decreases |before|
  {
    if j < |before| {
      var k := |before| - 1;
      KeptPrefix(before[..k], content, j);
      assert before[..k][..j] == before[..j];
    } else {
      assert before[..j] == before;
    }
  }

  /** A kept name that `_names` holds again further on makes the first loop fail. */
  lemma {:induction false} KeptRepeats(before: seq<Name>, content: map<Name, Member>, i: nat)
    requires i < |before| && before[i] in content && before[i] in KeptNames(before[..i], content)
    ensures Kept(before, content) == Err(KeyError)
  {
    var a := KeptNames(before[..i], content);
    var a' := KeptNames(before[..i + 1], content);
    assert before[..i + 1][..i] == before[..i] && before[..i + 1][i] == before[i];
    assert a' == a + [before[i]];
    KeptPrefix(before, content, i + 1);
    var j :| 0 <= j < |a| && a[j] == before[i];
    var b := KeptNames(before, content);
    assert b[j] == a'[j] && b[|a|] == a'[|a|];
  }

  /** A member blob followed by the `(align - len) % align` zero bytes that bring the
      next one to a multiple of 4. */
  function Padded(d: seq<byte>): (r: seq<byte>)
    ensures |d| <= |r| && |r| % Align == 0 && r[..|d|] == d
  {
    d + Zeros(PadLen(Align, |d|))
  }

  /** The second loop of QPak.pack from offset `base`: the blobs written one after the
      other, and the entry recorded for each (its name, `f.tell()` before it, and its
      unpadded size). */
  function Layout(base: nat, names: seq<Name>, content: map<Name, Member>): (r: (seq<byte>, seq<Entry>))
    requires forall n | n in names :: n in content
    ensures |r.1| == |names|
    decreases |names|
  {
    if names == [] then ([], [])
    else
      var k := |names| - 1;
      var l := Layout(base, names[..k], content);
      var data := content[names[k]].data;
      (l.0 + Padded(data), l.1 + [Entry(names[k], base + |l.0|, |data|)])
  }

  /** The bytes QPak.pack leaves behind `buf` for the names in `names` (in that
      order): the signature, the patched header (dirpos, 64 * entries), the padded
      blobs, then the directory; or the first exception of the entries' `rawdata`
      or of the header's '<ii'. */
  function PakBytes(buf: seq<byte>, names: seq<Name>, content: map<Name, Member>): (r: Result<seq<byte>>)
    requires forall n | n in names :: n in content
  {
    var base := |buf| + 12;
    var l := Layout(base, names, content);
    var dir :- WriteRun(EncodeEntry, (), l.1);
    var dirpos := base + |l.0|;
    if !SignedFits(dirpos, 4) || !SignedFits(EntrySize * |names|, 4) then Err(StructError)
    else Ok(buf + PackSig + SignedLE(dirpos, 4) + SignedLE(EntrySize * |names|, 4) + l.0 + dir)
  }

  /** PakBytes for a layout and a directory already at hand. */
  lemma {:induction false} PakBytesOf(buf: seq<byte>, names: seq<Name>, content: map<Name, Member>, blobs: seq<byte>, dir: seq<byte>)
    requires forall n | n in names :: n in content
    requires Layout(|buf| + 12, names, content).0 == blobs
    requires WriteRun(EncodeEntry, (), Layout(|buf| + 12, names, content).1) == Ok(dir)
    requires SignedFits(|buf| + 12 + |blobs|, 4) && SignedFits(EntrySize * |names|, 4)
    ensures PakBytes(buf, names, content) ==
      Ok(buf + PackSig + SignedLE(|buf| + 12 + |blobs|, 4) + SignedLE(EntrySize * |names|, 4) + blobs + dir)
  {
  }

  /** What unpacking gives for each member: its bytes, under the class its name picks. */
  function Reclassed(content: map<Name, Member>): (r: map<Name, Member>)
  {
    map n | n in content :: Member(GuessClass(Ext(n)), content[n].data)
  }

  // ---------------------------------------------------------------- the round trip

  /** Entry i of the layout starts where the blobs of the names before it end, and its
      bytes are there. */
  lemma {:induction false} LayoutAt(base: nat, names: seq<Name>, content: map<Name, Member>, i: nat)
    requires (forall n | n in names :: n in content) && i < |names|
    ensures var l := Layout(base, names, content);
      var o := |Layout(base, names[..i], content).0|;
      var d := content[names[i]].data;
      l.1[i] == Entry(names[i], base + o, |d|) && o + |d| <= |l.0| && l.0[o..o + |d|] == d
    decreases |names|
  {
    var k := |names| - 1;
    var front := Layout(base, names[..k], content);
    var l := Layout(base, names, content);
    var pad := Padded(content[names[k]].data);
    assert l.0 == front.0 + pad;
    if i < k {
      LayoutAt(base, names[..k], content, i);
      assert names[..k][..i] == names[..i];
      var o := |Layout(base, names[..i], content).0|;
      var d := content[names[i]].data;
      SliceOfFront(front.0, pad, o, o + |d|);
      assert l.1[i] == front.1[i];
    } else {
      assert names[..i] == names[..k];
      var d := content[names[i]].data;
      assert (front.0 + Padded(d))[|front.0|..|front.0| + |d|] == Padded(d)[..|d|];
    }
  }

  lemma SliceOfFront(a: seq<byte>, b: seq<byte>, lo: nat, hi: nat)
    requires lo <= hi <= |a|
    ensures (a + b)[lo..hi] == a[lo..hi]
  {
  }

  /** A written directory is 64 bytes per entry. */
  lemma {:induction false} DirectorySize(es: seq<Entry>)
    requires WriteRun(EncodeEntry, (), es).Ok?
    ensures |WriteRun(EncodeEntry, (), es).value| == EntrySize * |es|
    decreases |es|
  {
    if es != [] {
      WriteRunCons(EncodeEntry, (), es);
      DirectorySize(es[1..]);
    }
  }

  /** Entry i of a written directory is at 64 * i. */
  lemma {:induction false} DirectoryAt(es: seq<Entry>, i: nat)
    requires WriteRun(EncodeEntry, (), es).Ok? && i < |es|
    ensures var w := WriteRun(EncodeEntry, (), es).value;
      EncodeEntry((), es[i]).Ok? && EntrySize * i + EntrySize <= |w| &&
      w[EntrySize * i..EntrySize * i + EntrySize] == EncodeEntry((), es[i]).value
    decreases i
  {
    WriteRunCons(EncodeEntry, (), es);
    DirectorySize(es[1..]);
    var head := EncodeEntry((), es[0]).value;
    var tail := WriteRun(EncodeEntry, (), es[1..]).value;
    if i > 0 {
      DirectoryAt(es[1..], i - 1);
      assert (head + tail)[EntrySize * i..EntrySize * i + EntrySize] ==
        tail[EntrySize * (i - 1)..EntrySize * (i - 1) + EntrySize];
    } else {
      assert (head + tail)[..EntrySize] == head;
    }
  }

  /** `n` reads of 64 bytes over exactly `64 * n` bytes take them 64 at a time. */
  lemma {:induction false} RawEntriesOf(d: seq<byte>, n: nat)
    requires |d| == EntrySize * n
    ensures var r := ReadRun(ReadRawEntry, (), d, n);
      r.Ok? && r.value.1 == [] && |r.value.0| == n &&
      forall i | 0 <= i < n :: r.value.0[i] == d[EntrySize * i..EntrySize * i + EntrySize]
    decreases n
  {
    if n > 0 {
      RawEntriesOf(d[EntrySize..], n - 1);
      var rest := ReadRun(ReadRawEntry, (), d[EntrySize..], n - 1).value.0;
      ReadRunCons(ReadRawEntry, (), d, n, d[..EntrySize], d[EntrySize..], rest, []);
      forall i | 0 <= i < n
        ensures ([d[..EntrySize]] + rest)[i] == d[EntrySize * i..EntrySize * i + EntrySize]
      {
        if i > 0 {
          assert d[EntrySize..][EntrySize * (i - 1)..EntrySize * (i - 1) + EntrySize] ==
            d[EntrySize * i..EntrySize * i + EntrySize];
        }
      }
    }
  }

  /** The header QPak.pack patches in reads back. */
  lemma {:induction false} HeaderOf(buf: seq<byte>, dirpos: int, size: int, rest: seq<byte>)
    requires SignedFits(dirpos, 4) && SignedFits(size, 4)
    ensures ReadHeader(buf + PackSig + SignedLE(dirpos, 4) + SignedLE(size, 4) + rest, |buf|) == Ok((dirpos, size))
  {
    var p := buf + PackSig + SignedLE(dirpos, 4) + SignedLE(size, 4) + rest;
    assert p[|buf|..|buf| + 4] == PackSig;
    var hdr := p[|buf| + 4..|buf| + 12];
    assert hdr[..4] == SignedLE(dirpos, 4) && hdr[4..] == SignedLE(size, 4);
    SignedRoundTrip(dirpos, 4);
    SignedRoundTrip(size, 4);
  }

  /** Raw entries that are the written entries decode to them, when no name holds a
      NUL. */
  lemma {:induction false} DirectoryDecodes(raws: seq<seq<byte>>, es: seq<Entry>)
    requires |raws| == |es|
    requires forall i | 0 <= i < |es| :: NUL !in es[i].name && EncodeEntry((), es[i]) == Ok(raws[i])
    ensures DecodeEntries(raws) == Ok(es)
  {
    forall i | 0 <= i < |es|
      ensures DecodeEntry(raws[i]) == Ok(es[i])
    {
      EntryRoundTrip(es[i]);
    }
    assert DecodeEntries(raws).value == es;
  }

  /** Entry i of the layout reads back member i from packed bytes `p`. */
  lemma MemberOfLayout(p: seq<byte>, base: nat, names: seq<Name>, content: map<Name, Member>, i: nat)
    requires (forall n | n in names :: n in content) && i < |names|
    requires base + |Layout(base, names, content).0| <= |p| &&
      p[base..base + |Layout(base, names, content).0|] == Layout(base, names, content).0
    ensures Layout(base, names, content).1[i].name == names[i]
    ensures MemberAt(p, Layout(base, names, content).1[i]) ==
      Member(GuessClass(Ext(names[i])), content[names[i]].data)
  {
    var l := Layout(base, names, content);
    LayoutAt(base, names, content, i);
    var o := |Layout(base, names[..i], content).0|;
    var d := content[names[i]].data;
    SliceWithin(p, base, l.0, o, |d|);
    var e := l.1[i];
    assert e == Entry(names[i], base + o, |d|);
    assert Chunk(p, Clamp(e.ofs), e.size) == p[base + o..base + o + |d|];
  }

  /** The members read back from packed bytes `p`, whose blobs start at `base`. */
  lemma {:induction false} MembersOf(p: seq<byte>, base: nat, names: seq<Name>, content: map<Name, Member>, es: seq<Entry>)
    requires Distinct(names) && (forall n :: n in names <==> n in content)
    requires es == Layout(base, names, content).1
    requires base + |Layout(base, names, content).0| <= |p| &&
      p[base..base + |Layout(base, names, content).0|] == Layout(base, names, content).0
    ensures Names(es) == names
    ensures Contents(p, es) == Reclassed(content)
  {
    forall i | 0 <= i < |names|
      ensures es[i].name == names[i]
      ensures MemberAt(p, es[i]) == Member(GuessClass(Ext(names[i])), content[names[i]].data)
    {
      MemberOfLayout(p, base, names, content, i);
    }
    assert Names(es) == names;
    ContentsOfDistinct(p, es, content);
  }

  /** Entries of distinct names, each reading back the member of its name, read back
      the whole content. */
  lemma ContentsOfDistinct(p: seq<byte>, es: seq<Entry>, content: map<Name, Member>)
    requires Distinct(Names(es)) && (forall n :: n in Names(es) <==> n in content)
    requires forall i | 0 <= i < |es| ::
      MemberAt(p, es[i]) == Member(GuessClass(Ext(es[i].name)), content[es[i].name].data)
    ensures Contents(p, es) == Reclassed(content)
  {
    ContentsKeys(p, es);
    forall n | n in content
      ensures Contents(p, es)[n] == Reclassed(content)[n]
    {
      var i :| 0 <= i < |es| && Names(es)[i] == n;
      ContentsLast(p, es, i);
    }
  }

  /** A directory written behind blobs, with the header pointing at it, unpacks to
      the entries it was written from. */
  lemma {:induction false} DirectoryReads(p: seq<byte>, buf: seq<byte>, blobs: seq<byte>, dir: seq<byte>, es: seq<Entry>)
    requires WriteRun(EncodeEntry, (), es) == Ok(dir)
    requires forall i | 0 <= i < |es| :: NUL !in es[i].name
    requires SignedFits(|buf| + 12 + |blobs|, 4) && SignedFits(EntrySize * |es|, 4)
    requires p == buf + PackSig + SignedLE(|buf| + 12 + |blobs|, 4) + SignedLE(EntrySize * |es|, 4) + blobs + dir
    ensures UnpackPak(p, |buf|) == Ok(es)
  {
    var dirpos := |buf| + 12 + |blobs|;
    var n := |es|;
    var h1, h2 := SignedLE(dirpos, 4), SignedLE(EntrySize * n, 4);
    assert p == buf + PackSig + h1 + h2 + (blobs + dir);
    HeaderOf(buf, dirpos, EntrySize * n, blobs + dir);
    assert DirLen(EntrySize * n) == n;
    assert |buf + PackSig + h1 + h2 + blobs| == dirpos;
    assert After(p, Clamp(dirpos)) == dir;
    DirectorySize(es);
    RawEntriesOf(dir, n);
    var raws := ReadRun(ReadRawEntry, (), dir, n).value.0;
    forall i | 0 <= i < n
      ensures NUL !in es[i].name && EncodeEntry((), es[i]) == Ok(raws[i])
    {
      DirectoryAt(es, i);
    }
    DirectoryDecodes(raws, es);
  }

  /** QPak.unpack of what QPak.pack wrote gives back the names in the order they were
      written and every member's bytes, each under the class GUESS_CLASS picks for its
      name (the member's own class when that is the one its name picks). */
  lemma {:induction false} PackUnpack(buf: seq<byte>, names: seq<Name>, content: map<Name, Member>)
    requires Distinct(names) && (forall n :: n in names <==> n in content)
    requires forall n | n in content :: NUL !in n
    requires PakBytes(buf, names, content).Ok?
    ensures var p := PakBytes(buf, names, content).value;
      var r := UnpackPak(p, |buf|);
      r.Ok? && Names(r.value) == names && Contents(p, r.value) == Reclassed(content)
  {
    var base := |buf| + 12;
    var l := Layout(base, names, content);
    var dir := WriteRun(EncodeEntry, (), l.1).value;
    var dirpos := base + |l.0|;
    var p := PakBytes(buf, names, content).value;
    assert |l.1| == |names|;
    assert p == buf + PackSig + SignedLE(|buf| + 12 + |l.0|, 4) + SignedLE(EntrySize * |l.1|, 4) + l.0 + dir;
    forall i | 0 <= i < |l.1|
      ensures NUL !in l.1[i].name
    {
      LayoutAt(base, names, content, i);
    }
    DirectoryReads(p, buf, l.0, dir, l.1);
    assert p[base..base + |l.0|] == l.0;
    MembersOf(p, base, names, content, l.1);
  }
}
