/** QMipmap of Server/qdata.py: the pixels of one mip level of a texture.  Its
    `unpack` gets the element bytes of the texture's FOfsArray, the texture (for its
    width and height) and the level index; `pack` writes the pixels back. */
module Mipmaps {
  import opened Results
  import opened Bytes

  /** A decoded mipmap: 24-bit pixels (`data24`) or palette indices (`data`). */
  datatype Mipmap =
    | Rgb(w: int, h: int, data24: seq<byte>)
    | Indexed(w: int, h: int, data: seq<byte>)

  /** `1 << index`. */
  function Pow2(index: nat): (r: nat)
    ensures r >= 1
  {
    if index == 0 then 1 else 2 * Pow2(index - 1)
  }

  /** QMipmap.unpack: no bytes give an empty mipmap; level 0 with three bytes per
      pixel is 24-bit; otherwise both dimensions must divide by 2^index, are shifted
      right by `index`, and must account for every byte. */
  function Unpack(data: seq<byte>, width: int, height: int, index: nat): (r: Result<Mipmap>)
    ensures data == [] ==> r == Ok(Rgb(0, 0, []))
    ensures r.Ok? && r.value.Indexed? ==>
      width == r.value.w * Pow2(index) && height == r.value.h * Pow2(index) &&
      r.value.w * r.value.h == |data| && r.value.data == data
    ensures r.Ok? && r.value.Rgb? && data != [] ==>
      index == 0 && r.value == Rgb(width, height, data) && 3 * width * height == |data|
    ensures r.Err? ==> r.error == AssertionFailed
  {
    if data == [] then Ok(Rgb(0, 0, []))
    else if index == 0 && |data| == 3 * width * height then Ok(Rgb(width, height, data))
    else if width % Pow2(index) != 0 || height % Pow2(index) != 0 then Err(AssertionFailed)
    else
      var w, h := width / Pow2(index), height / Pow2(index);
      if w * h != |data| then Err(AssertionFailed) else Ok(Indexed(w, h, data))
  }

  /** QMipmap.pack: the pixels, after re-checking that they fill w x h. */
  function Pack(m: Mipmap): (r: Result<seq<byte>>)
    ensures r.Ok? <==> (m.Rgb? && m.w * m.h * 3 == |m.data24|) || (m.Indexed? && m.w * m.h == |m.data|)
    ensures r.Ok? ==> r.value == if m.Rgb? then m.data24 else m.data
    ensures r.Err? ==> r.error == AssertionFailed
  {
    match m
    case Rgb(w, h, d) => if w * h * 3 == |d| then Ok(d) else Err(AssertionFailed)
    case Indexed(w, h, d) => if w * h == |d| then Ok(d) else Err(AssertionFailed)
  }

  /** Unpacking then packing gives the bytes back. */
  lemma UnpackPack(data: seq<byte>, width: int, height: int, index: nat)
    requires Unpack(data, width, height, index).Ok?
    ensures Pack(Unpack(data, width, height, index).value) == Ok(data)
  {
    var m := Unpack(data, width, height, index).value;
    if m.Rgb? && data != [] {
      assert m.w * m.h * 3 == 3 * width * height;
    }
  }

  /** A mip level of w x h palette indices, inside a texture of (w << index) x
      (h << index), unpacks to itself from the bytes it packs to. */
  lemma PackUnpack(m: Mipmap, index: nat)
    requires m.Indexed? && Pack(m).Ok? && m.data != []
    ensures Unpack(Pack(m).value, m.w * Pow2(index), m.h * Pow2(index), index) == Ok(m)
  {
    var p := Pow2(index);
    var W, H := m.w * p, m.h * p;
    assert W % p == 0 && W / p == m.w by { DivMulExact(m.w, p); }
    assert H % p == 0 && H / p == m.h by { DivMulExact(m.h, p); }
    if index == 0 {
      assert W == m.w && H == m.h;
      assert |m.data| != 3 * W * H;
    }
  }

  /** A 24-bit level-0 mipmap unpacks to itself from its bytes. */
  lemma PackUnpackRgb(m: Mipmap)
    requires m.Rgb? && Pack(m).Ok? && m.data24 != []
    ensures Unpack(Pack(m).value, m.w, m.h, 0) == Ok(m)
  {
    assert 3 * m.w * m.h == m.w * m.h * 3;
  }

  lemma DivMulExact(a: int, p: nat)
    requires p > 0
    ensures (a * p) % p == 0 && (a * p) / p == a
  {
    DivModUnique(a * p, p, a, 0);
  }

  /** The four mip levels of a QTexture: element i of its FOfsArray unpacked with
      (texture, i). */
  function UnpackLevels(items: seq<seq<byte>>, width: int, height: int): (r: Result<seq<Mipmap>>)
    ensures r.Ok? ==> |r.value| == |items|
    ensures r.Ok? ==> forall i | 0 <= i < |items| :: Unpack(items[i], width, height, i) == Ok(r.value[i])
  {
    LevelsFrom(items, width, height, 0)
  }

  function LevelsFrom(items: seq<seq<byte>>, width: int, height: int, i: nat): (r: Result<seq<Mipmap>>)
    requires i <= |items|
    ensures r.Ok? ==> |r.value| == |items| - i
    ensures r.Ok? ==> forall k | i <= k < |items| :: Unpack(items[k], width, height, k) == Ok(r.value[k - i])
    decreases |items| - i
  {
    if i == |items| then Ok([])
    else
      var m :- Unpack(items[i], width, height, i);
      var rest :- LevelsFrom(items, width, height, i + 1);
      Ok([m] + rest)
  }
}
