/** The lazy record of Server/qdata.py (class QData).  A record made from bytes keeps
    them in `_rawdata` and decodes its FIELDS the first time a public attribute it does
    not hold is asked for; `rawdata` gives the bytes back while the record is still
    undecoded, and re-packs the attributes once it has been decoded. */
module Records {
  import opened Results
  import opened Bytes
  import opened Streams
  import opened Fields
  import opened FieldsRoundTrip
  import opened Packing

  /** The part of a record that `__getattr__` looks at and changes: `_rawdata` (present
      or not) and the public attributes of `__dict__`. */
  datatype State = State(raw: Option<seq<byte>>, attrs: map<string, Value>)

  /** Names starting with an underscore never trigger a decode. */
  predicate IsPrivate(name: string)
  {
    |name| > 0 && name[0] == '_'
  }

  /** `setattr(self, name, x)` for the values read so far, in field order. */
  function Assign(m: map<string, Value>, fs: seq<Field>, vals: seq<Value>): (r: map<string, Value>)
    requires |vals| <= |fs|
    decreases |vals|
  {
    if vals == [] then m else Assign(m[fs[0].name := vals[0]], fs[1..], vals[1..])
  }

  /** `self.rawdata`: the bytes kept, or else the attributes packed into a fresh
      stream (a class without FIELDS cannot pack). */
  function RawBytes(layout: Option<seq<Field>>, s: State): (r: Result<seq<byte>>)
  {
    if s.raw.Some? then Ok(s.raw.value)
    else if layout.None? then Err(AttributeError)
    else Encode(layout.value, s.attrs)
  }

  /** `getattr(record, name)`: the attribute if `__dict__` has it; otherwise
      `__getattr__`, which answers `rawdata`, refuses private names and decoded
      records, and else decodes, drops `_rawdata` and looks again.  A decode that
      fails keeps the attributes it had set and keeps `_rawdata`. */
  function Access(layout: Option<seq<Field>>, s: State, name: string): (r: (Result<Value>, State))
    // a decoded record never decodes again, and a private name never decodes
    ensures s.raw.None? || IsPrivate(name) ==> r.1 == s
    // `_rawdata` is only ever deleted
    ensures r.1.raw == s.raw || r.1.raw.None?
    // while undecoded, `rawdata` is the bytes the record was made from
    ensures s.raw.Some? && name == "rawdata" && name !in s.attrs ==> r == (Ok(Blob(s.raw.value)), s)
    // an attribute already held is returned as it is
    ensures name in s.attrs ==> r == (Ok(s.attrs[name]), s)
  {
    if name in s.attrs then (Ok(s.attrs[name]), s)
    else if name == "rawdata" then
      (match RawBytes(layout, s) case Ok(b) => Ok(Blob(b)) case Err(e) => Err(e), s)
    else if IsPrivate(name) || s.raw.None? || layout.None? then (Err(AttributeError), s)
    else
      var d := ReadFields(layout.value, s.raw.value, 0);
      var attrs := Assign(s.attrs, layout.value, d.values);
      if d.failure.Some? then (Err(d.failure.value), State(s.raw, attrs))
      else (if name in attrs then Ok(attrs[name]) else Err(AttributeError), State(None, attrs))
  }

  class Record {
    /** The class's FIELDS; None for a class without them, such as plain QData. */
    const layout: Option<seq<Field>>
    /** `_rawdata`. */
    var raw: Option<seq<byte>>
    /** The public attributes in `__dict__`. */
    var attrs: map<string, Value>

    /** `cls(data)`. */
    constructor FromBytes(layout: Option<seq<Field>>, data: seq<byte>)
      ensures this.layout == layout && raw == Some(data) && attrs == map[]
    {
      this.layout := layout;
      raw := Some(data);
      attrs := map[];
    }

    /** `cls(**kwds)`. */
    constructor FromAttrs(layout: Option<seq<Field>>, kwds: map<string, Value>)
      ensures this.layout == layout && raw == None && attrs == kwds
    {
      this.layout := layout;
      raw := None;
      attrs := kwds;
    }

    /** QData.unpack: each field read from the stream and set at once, in order; the
        first failure ends the loop. */
    method Unpack(f: Stream) returns (failure: Option<Error>)
      requires layout.Some?
      modifies this, f
      ensures f.buf == old(f.buf) && raw == old(raw)
      ensures var d := ReadFields(layout.value, old(f.buf), old(f.pos));
        failure == d.failure && attrs == Assign(old(attrs), layout.value, d.values) &&
        (failure.None? ==> f.pos == d.pos)
    {
      var fs := layout.value;
      ghost var vals: seq<Value> := [];
      var i := 0;
      assert fs[0..] == fs;
      while i < |fs|
        invariant 0 <= i <= |fs| && |vals| == i && f.buf == old(f.buf) && raw == old(raw)
        invariant Extend(vals, ReadFields(fs[i..], f.buf, f.pos)) == ReadFields(fs, old(f.buf), old(f.pos))
        invariant attrs == Assign(old(attrs), fs, vals)
      {
        ghost var p := f.pos;
        var x := ReadFieldFrom(f, fs[i].kind);
        ReadFieldsAt(fs, i, f.buf, p);
        if x.Err? {
          assert vals + [] == vals;
          return Some(x.error);
        }
        ExtendStep(vals, x.value, ReadFields(fs[i + 1..], f.buf, f.pos));
        AssignSnoc(old(attrs), fs, vals, x.value);
        attrs := attrs[fs[i].name := x.value];
        vals := vals + [x.value];
        i := i + 1;
      }
      assert vals + [] == vals;
      return None;
    }

    /** `self.rawdata`. */
    method RawData() returns (r: Result<seq<byte>>)
      ensures r == RawBytes(layout, State(raw, attrs))
    {
      if raw.Some? {
        return Ok(raw.value);
      }
      if layout.None? {
        return Err(AttributeError);
      }
      var f := new Stream([]);
      var x := PackInto(f, layout.value, attrs);
      if x.Err? {
        return Err(x.error);
      }
      return Ok(f.buf);
    }

    /** `getattr(self, name)`, with QData.__getattr__ behind it. */
    method GetAttr(name: string) returns (r: Result<Value>)
      modifies this
      ensures (r, State(raw, attrs)) == Access(layout, State(old(raw), old(attrs)), name)
    {
      if name in attrs {
        return Ok(attrs[name]);
      }
      if name == "rawdata" {
        var b := RawData();
        r := if b.Ok? then Ok(Blob(b.value)) else Err(b.error);
        return;
      }
      if IsPrivate(name) || raw.None? || layout.None? {
        return Err(AttributeError);
      }
      var f := new Stream(raw.value);
      var failure := Unpack(f);
      if failure.Some? {
        return Err(failure.value);
      }
      raw := None;
      r := if name in attrs then Ok(attrs[name]) else Err(AttributeError);
    }
  }

  /** A decode outcome with `vals` put in front of its values. */
  function Extend(vals: seq<Value>, d: Decoded): (r: Decoded)
  {
    Decoded(vals + d.values, d.pos, d.failure)
  }

  lemma ExtendStep(vals: seq<Value>, v: Value, d: Decoded)
    ensures Extend(vals, Decoded([v] + d.values, d.pos, d.failure)) == Extend(vals + [v], d)
  {
    assert vals + ([v] + d.values) == vals + [v] + d.values;
  }

  /** One step of ReadFields at field `i`. */
  lemma ReadFieldsAt(fs: seq<Field>, i: nat, buf: seq<byte>, pos: nat)
    requires i < |fs|
    ensures ReadFields(fs[i..], buf, pos) ==
      match ReadField(fs[i].kind, buf, pos)
      case Err(e) => Decoded([], pos, Some(e))
      case Ok(r) =>
        var rest := ReadFields(fs[i + 1..], buf, r.1);
        Decoded([r.0] + rest.values, rest.pos, rest.failure)
  {
    assert fs[i..][0] == fs[i] && fs[i..][1..] == fs[i + 1..];
  }

  lemma {:induction false} AssignSnoc(m: map<string, Value>, fs: seq<Field>, vals: seq<Value>, v: Value)
    requires |vals| < |fs|
    ensures Assign(m, fs, vals + [v]) == Assign(m, fs, vals)[fs[|vals|].name := v]
    decreases |vals|
  {
    if vals != [] {
      assert (vals + [v])[0] == vals[0] && (vals + [v])[1..] == vals[1..] + [v];
      AssignSnoc(m[fs[0].name := vals[0]], fs[1..], vals[1..], v);
    } else {
      assert Assign(m[fs[0].name := v], fs[1..], []) == m[fs[0].name := v];
    }
  }

  /** An attribute no field of `fs` names is left as it was. */
  lemma {:induction false} AssignOther(m: map<string, Value>, fs: seq<Field>, vals: seq<Value>, name: string)
    requires |vals| <= |fs| && forall j | 0 <= j < |vals| :: fs[j].name != name
    ensures var r := Assign(m, fs, vals); (name in r <==> name in m) && (name in m ==> r[name] == m[name])
    decreases |vals|
  {
    if vals != [] {
      forall j | 0 <= j < |vals| - 1 ensures fs[1..][j].name != name { assert fs[1..][j] == fs[j + 1]; }
      AssignOther(m[fs[0].name := vals[0]], fs[1..], vals[1..], name);
    }
  }

  /** Setting every field from `attrs` leaves each field name bound to its value in
      `attrs`, whatever was there before. */
  lemma {:induction false} AssignVals(m: map<string, Value>, fs: seq<Field>, attrs: map<string, Value>, j: nat)
    requires AllNamed(fs, attrs) && j < |fs|
    ensures var r := Assign(m, fs, Vals(fs, attrs)); fs[j].name in r && r[fs[j].name] == attrs[fs[j].name]
    decreases |fs|
  {
    var vs := Vals(fs, attrs);
    var m' := m[fs[0].name := attrs[fs[0].name]];
    assert vs[0] == attrs[fs[0].name] && vs[1..] == Vals(fs[1..], attrs);
    assert AllNamed(fs[1..], attrs) by {
      forall i | 0 <= i < |fs| - 1 ensures fs[1..][i].name in attrs { assert fs[1..][i] == fs[i + 1]; }
    }
    if exists k | 1 <= k < |fs| :: fs[k].name == fs[j].name {
      var k :| 1 <= k < |fs| && fs[k].name == fs[j].name;
      assert fs[1..][k - 1] == fs[k];
      AssignVals(m', fs[1..], attrs, k - 1);
    } else {
      assert j == 0;
      forall i | 0 <= i < |vs[1..]| ensures fs[1..][i].name != fs[0].name { assert fs[1..][i] == fs[i + 1]; }
      AssignOther(m', fs[1..], vs[1..], fs[0].name);
    }
  }

  /** The first access to a field of a record made from the bytes that `attrs` packs
      into decodes it: the field's value comes back, and `_rawdata` is gone. */
  lemma FirstAccess(fs: seq<Field>, attrs: map<string, Value>, j: nat)
    requires WellLaid(fs) && ValuesOk(fs, attrs) && AllNamed(fs, attrs) && Encode(fs, attrs).Ok?
    requires j < |fs| && !IsPrivate(fs[j].name) && fs[j].name != "rawdata"
    ensures Access(Some(fs), State(Some(Encode(fs, attrs).value), map[]), fs[j].name)
      == (Ok(attrs[fs[j].name]), State(None, Assign(map[], fs, Vals(fs, attrs))))
  {
    EncodeDecode(fs, attrs);
    AssignVals(map[], fs, attrs, j);
  }

  /** Once decoded, such a record's `rawdata` re-packs to the very bytes it was made from. */
  lemma RepackAfterAccess(fs: seq<Field>, attrs: map<string, Value>)
    requires AllNamed(fs, attrs) && Encode(fs, attrs).Ok?
    ensures RawBytes(Some(fs), State(None, Assign(map[], fs, Vals(fs, attrs)))) == Encode(fs, attrs)
  {
    var a := Assign(map[], fs, Vals(fs, attrs));
    forall j | 0 <= j < |fs| ensures fs[j].name in a && a[fs[j].name] == attrs[fs[j].name] {
      AssignVals(map[], fs, attrs, j);
    }
    WriteFieldsCongruent([], fs, a, attrs);
  }

  /** QData.pack only looks at the attributes its FIELDS name. */
  lemma {:induction false} WriteFieldsCongruent(buf: seq<byte>, fs: seq<Field>, a: map<string, Value>, b: map<string, Value>)
    requires forall j | 0 <= j < |fs| :: fs[j].name in a && fs[j].name in b && a[fs[j].name] == b[fs[j].name]
    ensures WriteFields(buf, fs, a) == WriteFields(buf, fs, b)
    decreases |fs|
  {
    if fs != [] {
      assert fs[0].name in a;
      forall j | 0 <= j < |fs| - 1
        ensures fs[1..][j].name in a && fs[1..][j].name in b && a[fs[1..][j].name] == b[fs[1..][j].name]
      {
        assert fs[1..][j] == fs[j + 1];
      }
      var w := WriteField(buf, fs[0].kind, a[fs[0].name]);
      if w.Ok? {
        WriteFieldsCongruent(w.value.0, fs[1..], a, b);
      }
    }
  }
}
