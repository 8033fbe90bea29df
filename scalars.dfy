/** The scalar field codecs of Server/qdata.py: FCharPtr, FInt, FInt3b, FInt2b,
    FInt1b, FUShort, FUChar, FSignature, FEnum, and FFloat/FVec3/FVec4 kept as
    opaque 4/12/16-byte fields.  Each reads exactly `Width` bytes with `f.read`
    and decodes them; each writes the bytes `EncodeScalar` gives. */
module Scalars {
  import opened Results
  import opened Bytes
  import opened PyLists

  datatype ScalarValue = Int(i: int) | Str(s: seq<byte>)

  datatype ScalarKind =
    | CharPtr(size: nat)              // FCharPtr(size): NUL-padded fixed-length string
    | Int32                           // FInt:    '<i'
    | Int24                           // FInt3b:  three bytes, zero-extended
    | Int16                           // FInt2b:  '<h'
    | Int8                            // FInt1b:  '<b'
    | UInt16                          // FUShort: '<H'
    | UInt8                           // FUChar:  '<B'
    | Opaque(width: nat)              // FFloat (4), FVec3 (12), FVec4 (16): bit patterns kept as bytes
    | Signature(expected: seq<byte>)  // FSignature
    | Enum(choices: seq<ScalarValue>) // FEnum

  /** FSignature(expected) with an int `expected` compares against its '<i' bytes. */
  function SignatureOfInt(x: int): (k: ScalarKind)
    requires SignedFits(x, 4)
    ensures k.Signature? && |k.expected| == 4
    ensures Signed(FromLE(k.expected), 4) == x
  {
    SignedRoundTrip(x, 4);
    Signature(SignedLE(x, 4))
  }

  /** How many bytes a read of this field asks `f.read` for. */
  function Width(k: ScalarKind): (r: nat)
  {
    match k
    case CharPtr(size) => size
    case Int32 => 4
    case Int24 => 3
    case Int16 => 2
    case Int8 => 1
    case UInt16 => 2
    case UInt8 => 1
    case Opaque(w) => w
    case Signature(e) => |e|
    case Enum(_) => 4
  }

  /** The value of the bytes `f.read(Width(k))` returned (possibly fewer at end of data). */
  function DecodeScalar(k: ScalarKind, chunk: seq<byte>): (r: Result<ScalarValue>)
  {
    match k
    case CharPtr(_) => Ok(Str(UpToNul(chunk)))
    case Int32 => if |chunk| == 4 then Ok(Int(Signed(FromLE(chunk), 4))) else Err(StructError)
    case Int24 => if |chunk| == 3 then Ok(Int(Signed(FromLE(chunk + [NUL]), 4))) else Err(StructError)
    case Int16 => if |chunk| == 2 then Ok(Int(Signed(FromLE(chunk), 2))) else Err(StructError)
    case Int8 => if |chunk| == 1 then Ok(Int(Signed(FromLE(chunk), 1))) else Err(StructError)
    case UInt16 => if |chunk| == 2 then Ok(Int(FromLE(chunk))) else Err(StructError)
    case UInt8 => if |chunk| == 1 then Ok(Int(FromLE(chunk))) else Err(StructError)
    case Opaque(w) => if |chunk| == w then Ok(Str(chunk)) else Err(StructError)
    case Signature(e) => if chunk == e then Ok(Str(chunk)) else Err(BadSignature)
    case Enum(choices) =>
      if |chunk| == 4 then PyIndex(choices, Signed(FromLE(chunk), 4)) else Err(StructError)
  }

  /** `fld.read(f, ctx)` at cursor `pos`: the value and the cursor after it. */
  function ReadScalar(k: ScalarKind, buf: seq<byte>, pos: nat): (r: Result<(ScalarValue, nat)>)
  {
    var chunk := Chunk(buf, pos, Width(k));
    var v :- DecodeScalar(k, chunk);
    Ok((v, pos + |chunk|))
  }

  /** Whether an integer value fits the format code of the kind (`struct.pack` raises otherwise). */
  predicate IntFits(k: ScalarKind, x: int)
  {
    match k
    case Int32 => SignedFits(x, 4)
    case Int24 => SignedFits(x, 4)
    case Int16 => SignedFits(x, 2)
    case Int8 => SignedFits(x, 1)
    case UInt16 => 0 <= x < 65536
    case UInt8 => 0 <= x < 256
    case _ => false
  }

  predicate IsIntKind(k: ScalarKind)
  {
    k.Int32? || k.Int24? || k.Int16? || k.Int8? || k.UInt16? || k.UInt8?
  }

  /** The bytes `fld.write(f, v)` emits, or the exception it raises. */
  function EncodeScalar(k: ScalarKind, v: ScalarValue): (r: Result<seq<byte>>)
  {
    match k
    case CharPtr(size) =>
      if !v.Str? then Err(TypeError)
      else if |v.s| < size then Ok(v.s + Zeros(size - |v.s|))
      else Err(AssertionFailed)
    case Int32 =>
      if !v.Int? then Err(StructError) else if IntFits(k, v.i) then Ok(SignedLE(v.i, 4)) else Err(StructError)
    case Int24 =>
      if !v.Int? then Err(StructError) else if IntFits(k, v.i) then Ok(SignedLE(v.i, 4)[..3]) else Err(StructError)
    case Int16 =>
      if !v.Int? then Err(StructError) else if IntFits(k, v.i) then Ok(SignedLE(v.i, 2)) else Err(StructError)
    case Int8 =>
      if !v.Int? then Err(StructError) else if IntFits(k, v.i) then Ok(SignedLE(v.i, 1)) else Err(StructError)
    case UInt16 =>
      if !v.Int? then Err(StructError) else if IntFits(k, v.i) then Ok(LE(v.i, 2)) else Err(StructError)
    case UInt8 =>
      if !v.Int? then Err(StructError) else if IntFits(k, v.i) then Ok(LE(v.i, 1)) else Err(StructError)
    case Opaque(w) =>
      if v.Str? && |v.s| == w then Ok(v.s) else Err(StructError)
    case Signature(e) =>
      if v == Str(e) then Ok(e) else Err(AssertionFailed)
    case Enum(choices) =>
      if v !in choices then Err(ValueError)
      else if SignedFits(IndexOf(choices, v), 4) then Ok(SignedLE(IndexOf(choices, v), 4))
      else Err(StructError)
  }

  /** A value that reads back as itself once written: FCharPtr truncates at the first
      NUL, and FInt3b keeps only the low 24 bits. */
  predicate Canonical(k: ScalarKind, v: ScalarValue)
  {
    match k
    case CharPtr(_) => v.Str? && NUL !in v.s
    case Int24 => v.Int? && 0 <= v.i < 0x100_0000
    case _ => true
  }

  /** FCharPtr.write succeeds exactly for strings shorter than the field, and emits
      exactly `size` bytes: the string, then NUL padding. */
  lemma CharPtrWrite(size: nat, s: seq<byte>)
    ensures EncodeScalar(CharPtr(size), Str(s)).Ok? <==> |s| < size
    ensures |s| < size ==> var w := EncodeScalar(CharPtr(size), Str(s)).value;
      |w| == size && w[..|s|] == s && forall i | |s| <= i < size :: w[i] == NUL
  {
  }

  /** FCharPtr.read(write(s)) == s for every NUL-free string that fits. */
  lemma CharPtrRoundTrip(size: nat, s: seq<byte>)
    requires |s| < size && NUL !in s
    ensures DecodeScalar(CharPtr(size), EncodeScalar(CharPtr(size), Str(s)).value) == Ok(Str(s))
  {
    UpToNulOfPadded(s, size - |s|);
  }

  /** FInt3b reads three bytes zero-extended, so it always yields 0 <= x < 2^24. */
  lemma Int24Range(chunk: seq<byte>)
    requires |chunk| == 3
    ensures DecodeScalar(Int24, chunk) == Ok(Int(FromLE(chunk)))
    ensures 0 <= FromLE(chunk) < 0x100_0000
  {
    FromLEAppendZero(chunk);
  }

  lemma {:induction false} FromLEAppendZero(b: seq<byte>)
    ensures FromLE(b + [NUL]) == FromLE(b)
  {
    if b != [] {
      assert (b + [NUL])[1..] == b[1..] + [NUL];
      FromLEAppendZero(b[1..]);
    } else {
      assert [NUL][1..] == [];
    }
  }

  /** FInt3b writes the low three bytes of the '<i' encoding, so it round-trips
      exactly the values 0 <= x < 2^24 and reduces any other int32 modulo 2^24. */
  lemma Int24RoundTrip(x: int)
    requires SignedFits(x, 4)
    ensures EncodeScalar(Int24, Int(x)).Ok?
    ensures DecodeScalar(Int24, EncodeScalar(Int24, Int(x)).value) == Ok(Int(x % 0x100_0000))
  {
    var b := SignedLE(x, 4);
    var low := b[..3];
    assert Pow256(4) == 0x1_0000_0000 && Pow256(3) == 0x100_0000;
    Int24Range(low);
    assert b == LE(x % 0x1_0000_0000, 4);
    assert low == LE(x % 0x1_0000_0000, 3) by { LEPrefix(x % 0x1_0000_0000, 3); }
    assert low == LE(x % 0x100_0000, 3) by {
      LEMod(x % 0x1_0000_0000, 3);
      assert (x % 0x1_0000_0000) % 0x100_0000 == x % 0x100_0000 by {
        ModOfModMultiple(x, 0x100_0000, 256);
      }
    }
    FromLEOfLE(x % 0x100_0000, 3);
  }

  lemma ModOfModMultiple(x: int, a: nat, b: nat)
    requires a > 0 && b > 0
    ensures (x % (a * b)) % a == x % a
  {
    var q := x / (a * b);
    var m := x % (a * b);
    assert x == a * (b * q) + m;
    var r := m % a;
    assert m == a * (m / a) + r;
    assert x == a * (b * q + m / a) + r;
    DivModUnique(x, a, b * q + m / a, r);
  }

  lemma {:induction false} LEPrefix(x: nat, n: nat)
    ensures LE(x, n + 1)[..n] == LE(x, n)
  {
    if n > 0 {
      LEPrefix(x / 256, n - 1);
    }
  }

  /** Every integer codec writes exactly the values its format code admits, and
      reads back what it wrote: signed for FInt/FInt2b/FInt1b, unsigned for
      FUShort/FUChar, low 24 bits for FInt3b. */
  lemma IntRoundTrip(k: ScalarKind, x: int)
    requires IsIntKind(k)
    ensures EncodeScalar(k, Int(x)).Ok? <==> IntFits(k, x)
    ensures IntFits(k, x) ==> |EncodeScalar(k, Int(x)).value| == Width(k)
    ensures IntFits(k, x) && Canonical(k, Int(x)) ==>
      DecodeScalar(k, EncodeScalar(k, Int(x)).value) == Ok(Int(x))
  {
    if IntFits(k, x) {
      match k
      case Int32 => SignedRoundTrip(x, 4);
      case Int16 => assert Pow256(2) == 65536; SignedRoundTrip(x, 2);
      case Int8 => assert Pow256(1) == 256; SignedRoundTrip(x, 1);
      case UInt16 => assert Pow256(2) == 65536; FromLEOfLE(x, 2);
      case UInt8 => assert Pow256(1) == 256; FromLEOfLE(x, 1);
      case Int24 =>
        Int24RoundTrip(x);
        if Canonical(k, Int(x)) {
          assert x % 0x100_0000 == x by { DivModUnique(x, 0x100_0000, 0, x); }
        }
    }
  }

  /** Reading then writing an integer field reproduces the bytes read (FInt3b only
      when the three bytes are re-read, as its write emits three bytes). */
  lemma IntBytesRoundTrip(k: ScalarKind, chunk: seq<byte>)
    requires IsIntKind(k) && |chunk| == Width(k)
    ensures DecodeScalar(k, chunk).Ok?
    ensures EncodeScalar(k, DecodeScalar(k, chunk).value) == Ok(chunk)
  {
    match k
    case Int32 => SignedBytesRoundTrip(chunk);
    case Int16 => SignedBytesRoundTrip(chunk);
    case Int8 => SignedBytesRoundTrip(chunk);
    case UInt16 => assert Pow256(2) == 65536; LEOfFromLE(chunk);
    case UInt8 => assert Pow256(1) == 256; LEOfFromLE(chunk);
    case Int24 =>
      Int24Range(chunk);
      var x := FromLE(chunk);
      assert Pow256(4) == 0x1_0000_0000 && Pow256(3) == 0x100_0000;
      assert x % 0x1_0000_0000 == x by { DivModUnique(x, 0x1_0000_0000, 0, x); }
      LEPrefix(x, 3);
      LEOfFromLE(chunk);
  }

  /** FSignature.read succeeds exactly when the bytes read are the expected ones. */
  lemma SignatureCheck(e: seq<byte>, buf: seq<byte>, pos: nat)
    ensures ReadScalar(Signature(e), buf, pos).Ok? <==>
      (pos + |e| <= |buf| && buf[pos..pos + |e|] == e) || e == []
    ensures ReadScalar(Signature(e), buf, pos).Ok? ==>
      ReadScalar(Signature(e), buf, pos).value == (Str(e), pos + |e|)
  {
    var chunk := Chunk(buf, pos, |e|);
    if chunk == e && pos + |e| > |buf| {
      assert |chunk| <= |buf| - pos || pos >= |buf|;
    }
  }

  /** FEnum writes `choices.index(value)`, so reading back gives the same choice;
      when the choices are distinct, writing a read value reproduces the bytes. */
  lemma EnumRoundTrip(choices: seq<ScalarValue>, v: ScalarValue)
    requires v in choices && |choices| < 0x8000_0000
    ensures EncodeScalar(Enum(choices), v).Ok?
    ensures DecodeScalar(Enum(choices), EncodeScalar(Enum(choices), v).value) == Ok(v)
  {
    var i := IndexOf(choices, v);
    assert Pow256(4) == 0x1_0000_0000;
    assert SignedFits(i, 4);
    SignedRoundTrip(i, 4);
  }

  lemma EnumBytesRoundTrip(choices: seq<ScalarValue>, chunk: seq<byte>)
    requires Distinct(choices) && |chunk| == 4
    requires 0 <= Signed(FromLE(chunk), 4) < |choices|
    ensures DecodeScalar(Enum(choices), chunk).Ok?
    ensures EncodeScalar(Enum(choices), DecodeScalar(Enum(choices), chunk).value) == Ok(chunk)
  {
    var x := Signed(FromLE(chunk), 4);
    var v := choices[x];
    assert DecodeScalar(Enum(choices), chunk) == Ok(v);
    var i := IndexOf(choices, v);
    assert i == x;
    SignedBytesRoundTrip(chunk);
    assert SignedFits(x, 4);
    assert EncodeScalar(Enum(choices), v) == Ok(SignedLE(x, 4));
  }

  /** The round trip every field relies on: a canonical value that encodes reads back
      as itself from the `Width` bytes it was written to, whatever surrounds them. */
  lemma ScalarRoundTrip(k: ScalarKind, v: ScalarValue, pre: seq<byte>, post: seq<byte>)
    requires Canonical(k, v) && EncodeScalar(k, v).Ok?
    requires k.Enum? ==> |k.choices| < 0x8000_0000
    ensures |EncodeScalar(k, v).value| == Width(k)
    ensures ReadScalar(k, pre + EncodeScalar(k, v).value + post, |pre|)
      == Ok((v, |pre| + Width(k)))
  {
    var b := EncodeScalar(k, v).value;
    var buf := pre + b + post;
    match k
    case CharPtr(size) => CharPtrRoundTrip(size, v.s);
    case Opaque(_) =>
    case Signature(_) =>
    case Enum(choices) =>
      EnumRoundTrip(choices, v);
    case _ =>
      IntRoundTrip(k, v.i);
    assert |b| == Width(k);
    assert buf[|pre|..|pre| + |b|] == b;
    assert Chunk(buf, |pre|, Width(k)) == b;
  }
}
