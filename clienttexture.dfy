/** `ImportSingleTexture` and the sky split of `ImportTexture` in
    Unity/Assets/Scripts/NetworkImporter.cs: the indexed pixels of a texture are
    expanded through a palette, row by row, into a Unity texture, and the mean colour
    of the result is accumulated on the way.

    A sky texture holds two square halves side by side; each becomes a texture of
    half the width, read with the full width as the scanline. The left half is the
    cloud layer, and its colour 0 is replaced by the mean colour of the right half,
    with alpha 0. */
module ClientTexture {
  import opened Results
  import opened Bytes

  /** A `Color32`. */
  datatype Color = Color(r: byte, g: byte, b: byte, a: byte)

  /** `default(Color32)`, the value of every slot of a new `Color32[]`. */
  const Clear := Color(0, 0, 0, 0)

  /** A `Texture2D` as `SetPixels32` fills it: rows of `width` pixels, bottom row
      first. */
  datatype Texture = Texture(width: int, height: int, pixels: seq<Color>)

  /** The colour channels that are averaged. */
  datatype Channel = Red | Green | Blue

  function Chan(c: Color, ch: Channel): (r: byte)
  {
    match ch
    case Red => c.r
    case Green => c.g
    case Blue => c.b
  }

  /** Where pixel `(x, y)` is read from: row `y` starts `y * scanline` bytes after
      `offset`. */
  function Src(scanline: int, offset: int, x: int, y: int): (r: int)
  {
    offset + y * scanline + x
  }

  /** Pixel `(x, y)` can be read: its byte exists and indexes the palette. */
  predicate PixelReadable(palette: seq<Color>, input: seq<byte>, scanline: int, offset: int,
                          x: int, y: int)
  {
    0 <= Src(scanline, offset, x, y) < |input| && input[Src(scanline, offset, x, y)] < |palette|
  }

  /** The colour of pixel `(x, y)`. */
  function Pixel(palette: seq<Color>, input: seq<byte>, scanline: int, offset: int,
                 x: int, y: int): (r: Color)
    requires PixelReadable(palette, input, scanline, offset, x, y)
  {
    palette[input[Src(scanline, offset, x, y)]]
  }

  /** All pixels of the first `h` rows can be read. */
  predicate RowsReadable(palette: seq<Color>, input: seq<byte>, width: int, h: int,
                         scanline: int, offset: int)
  {
    forall y, x | 0 <= y < h && 0 <= x < width :: PixelReadable(palette, input, scanline, offset, x, y)
  }

  /** Row `y` of the expanded texture. */
  function Row(palette: seq<Color>, input: seq<byte>, width: nat, scanline: int, offset: int,
               y: int): (r: seq<Color>)
    requires forall x | 0 <= x < width :: PixelReadable(palette, input, scanline, offset, x, y)
    ensures |r| == width
  {
    seq(width, x requires 0 <= x < width => Pixel(palette, input, scanline, offset, x, y))
  }

  /** The first `h` rows of the expanded texture, one after the other. */
  function Rows(palette: seq<Color>, input: seq<byte>, width: nat, h: nat, scanline: int,
                offset: int): (r: seq<Color>)
    requires RowsReadable(palette, input, width, h, scanline, offset)
    ensures |r| == h * width
  {
    if h == 0 then []
    else Rows(palette, input, width, h - 1, scanline, offset) +
         Row(palette, input, width, scanline, offset, h - 1)
  }

  /** The sum of one channel over some pixels. */
  function Sum(cs: seq<Color>, ch: Channel): (s: nat)
    ensures s <= 255 * |cs|
    decreases |cs|
  {
    if cs == [] then 0 else Sum(cs[..|cs| - 1], ch) + Chan(cs[|cs| - 1], ch)
  }

  /** `a * w <= b * w` for `a <= b` and a non-negative `w`. */
  lemma {:induction false} MulMono(a: int, b: int, w: int)
    requires a <= b && 0 <= w
    ensures a * w <= b * w
    decreases b - a
  {
    if a < b {
      MulMono(a + 1, b, w);
      assert (a + 1) * w == a * w + w;
    }
  }

  /** The channel mean of `n` pixels never exceeds 255. */
  lemma MeanFits(s: nat, n: nat)
    requires 0 < n && s <= 255 * n
    ensures s / n <= 255
  {
  }

  /** Dividing `n * v` by `n` gives `v` back. */
  lemma DivCancel(n: int, v: int)
    requires n > 0
    ensures (n * v) / n == v
  {
    var q := (n * v) / n;
    assert n * v == n * q + (n * v) % n;
    if q < v {
      MulMono(q + 1, v, n);
    } else if q > v {
      MulMono(v + 1, q, n);
    }
  }

  /** The colour `ImportSingleTexture` reports: each channel is the integer quotient of
      its sum by the number of pixels, and alpha is 0. */
  function Mean(cs: seq<Color>): (m: Color)
    requires |cs| > 0
    ensures m.a == 0
  {
    MeanFits(Sum(cs, Red), |cs|);
    MeanFits(Sum(cs, Green), |cs|);
    MeanFits(Sum(cs, Blue), |cs|);
    Color(Sum(cs, Red) / |cs|, Sum(cs, Green) / |cs|, Sum(cs, Blue) / |cs|, 0)
  }

  /** `ImportSingleTexture(palette, input_data, width, height, scanline, offset)`:
      the texture and the mean colour. The failures are C#'s: an array of negative
      size, an index out of range while reading a pixel, and a division by a zero
      size. When both dimensions are negative the loops do not run and every pixel
      stays `Clear`. */
  function TextureOf(palette: seq<Color>, input: seq<byte>, width: int, height: int,
                     scanline: int, offset: int): (r: Result<(Texture, Color)>)
  {
    var size := width * height;
    if size < 0 then Err(Overflow)
    else if width > 0 && height > 0 && !RowsReadable(palette, input, width, height, scanline, offset) then
      Err(IndexError)
    else if size == 0 then Err(ZeroDivision)
    else
      var pixels := if width > 0 && height > 0 then Rows(palette, input, width, height, scanline, offset)
                    else seq(size, _ => Clear);
      Ok((Texture(width, height, pixels), Mean(pixels)))
  }

  /** Pixel `(x, y)` of the expanded texture, at `y * width + x`, is the palette entry
      of the byte at `offset + y * scanline + x`. */
  lemma {:induction false} PixelAt(palette: seq<Color>, input: seq<byte>, width: nat, h: nat,
                                   scanline: int, offset: int, x: int, y: int)
    requires RowsReadable(palette, input, width, h, scanline, offset)
    requires 0 <= y < h && 0 <= x < width
    ensures PixelReadable(palette, input, scanline, offset, x, y)
    ensures 0 <= y * width + x < |Rows(palette, input, width, h, scanline, offset)|
    ensures Rows(palette, input, width, h, scanline, offset)[y * width + x] ==
            palette[input[Src(scanline, offset, x, y)]]
    decreases h
  {
    MulMono(y + 1, h, width);
    if y < h - 1 {
      PixelAt(palette, input, width, h - 1, scanline, offset, x, y);
    }
  }

  /** Sums add up over concatenated pixels. */
  lemma {:induction false} SumAppend(a: seq<Color>, b: seq<Color>, ch: Channel)
    ensures Sum(a + b, ch) == Sum(a, ch) + Sum(b, ch)
    decreases |b|
  {
    if b != [] {
      var p := b[..|b| - 1];
      SumAppend(a, p, ch);
      assert (a + b)[..|a + b| - 1] == a + p;
      assert (a + b)[|a + b| - 1] == b[|b| - 1];
    } else {
      assert a + b == a;
    }
  }

  /** The sum of `n` pixels of one colour. */
  lemma {:induction false} SumUniform(cs: seq<Color>, c: Color, ch: Channel)
    requires forall i | 0 <= i < |cs| :: cs[i] == c
    ensures Sum(cs, ch) == |cs| * Chan(c, ch)
    decreases |cs|
  {
    if cs != [] {
      SumUniform(cs[..|cs| - 1], c, ch);
    }
  }

  /** A texture of one colour has that colour as its mean, with alpha 0. */
  lemma UniformMean(cs: seq<Color>, c: Color)
    requires |cs| > 0 && forall i | 0 <= i < |cs| :: cs[i] == c
    ensures Mean(cs) == Color(c.r, c.g, c.b, 0)
  {
    SumUniform(cs, c, Red);
    SumUniform(cs, c, Green);
    SumUniform(cs, c, Blue);
    DivCancel(|cs|, c.r);
    DivCancel(|cs|, c.g);
    DivCancel(|cs|, c.b);
  }

  /** One more readable row extends the expanded rows and their sums. */
  lemma RowsStep(palette: seq<Color>, input: seq<byte>, w: nat, y: nat, scanline: int, offset: int)
    requires RowsReadable(palette, input, w, y, scanline, offset)
    requires forall x | 0 <= x < w :: PixelReadable(palette, input, scanline, offset, x, y)
    ensures RowsReadable(palette, input, w, y + 1, scanline, offset)
    ensures Rows(palette, input, w, y + 1, scanline, offset) ==
            Rows(palette, input, w, y, scanline, offset) + Row(palette, input, w, scanline, offset, y)
    ensures forall ch :: (Sum(Rows(palette, input, w, y + 1, scanline, offset), ch) ==
                          Sum(Rows(palette, input, w, y, scanline, offset), ch) +
                          Sum(Row(palette, input, w, scanline, offset, y), ch))
  {
    forall ch {
      SumAppend(Rows(palette, input, w, y, scanline, offset), Row(palette, input, w, scanline, offset, y), ch);
    }
  }

  /** One row of the pixel loop: row `y` is expanded into `colors` from `base_dst` on,
      and its channel sums are returned; an unreadable pixel stops it. */
  method ImportRow(colors: array<Color>, palette: seq<Color>, input: seq<byte>, width: nat,
                   scanline: int, offset: int, y: int, base_dst: nat)
    returns (ok: bool, rr: nat, gg: nat, bb: nat)
    requires base_dst + width <= colors.Length
    modifies colors
    ensures ok <==> forall x | 0 <= x < width :: PixelReadable(palette, input, scanline, offset, x, y)
    ensures ok ==> colors[..base_dst + width] == old(colors[..base_dst]) +
                                              Row(palette, input, width, scanline, offset, y)
    ensures ok ==> colors[base_dst + width..] == old(colors[base_dst + width..])
    ensures ok ==> var row := Row(palette, input, width, scanline, offset, y);
                   rr == Sum(row, Red) && gg == Sum(row, Green) && bb == Sum(row, Blue)
  {
    var base_src := offset + y * scanline;
    rr, gg, bb := 0, 0, 0;
    var x := 0;
    while x < width
      invariant 0 <= x <= width
      invariant forall x' | 0 <= x' < x :: PixelReadable(palette, input, scanline, offset, x', y)
      invariant colors[..base_dst] == old(colors[..base_dst])
      invariant colors[base_dst + width..] == old(colors[base_dst + width..])
      invariant colors[base_dst..base_dst + x] ==
                seq(x, x' requires 0 <= x' < x => Pixel(palette, input, scanline, offset, x', y))
      invariant var done := colors[base_dst..base_dst + x];
                rr == Sum(done, Red) && gg == Sum(done, Green) && bb == Sum(done, Blue)
    {
      assert base_src + x == Src(scanline, offset, x, y);
      if !(0 <= base_src + x < |input| && input[base_src + x] < |palette|) {
        assert !PixelReadable(palette, input, scanline, offset, x, y);
        return false, rr, gg, bb;
      }
      var c := palette[input[base_src + x]];
      colors[base_dst + x] := c;
      assert colors[base_dst..base_dst + x + 1][..x] == colors[base_dst..base_dst + x];
      rr, gg, bb := rr + c.r, gg + c.g, bb + c.b;
      x := x + 1;
    }
    assert colors[..base_dst + width] == colors[..base_dst] + colors[base_dst..base_dst + width];
    ok := true;
  }

  /** The pixel loop of `ImportSingleTexture` over `h` rows of `w` pixels: the rows
      are expanded into `colors` one after the other and their channel sums
      accumulated; an unreadable pixel stops it. */
  method ExpandRows(colors: array<Color>, palette: seq<Color>, input: seq<byte>, w: nat, h: nat,
                    scanline: int, offset: int) returns (ok: bool, rr: nat, gg: nat, bb: nat)
    requires h * w <= colors.Length
    modifies colors
    ensures ok <==> RowsReadable(palette, input, w, h, scanline, offset)
    ensures ok ==> colors[..h * w] == Rows(palette, input, w, h, scanline, offset)
    ensures ok ==> colors[h * w..] == old(colors[h * w..])
    ensures ok ==> var done := colors[..h * w];
                   rr == Sum(done, Red) && gg == Sum(done, Green) && bb == Sum(done, Blue)
  {
    rr, gg, bb := 0, 0, 0;
    var y := 0;
    var base_dst: nat := 0;
    while y < h
      invariant 0 <= y <= h && base_dst == y * w
      invariant base_dst <= h * w
      invariant RowsReadable(palette, input, w, y, scanline, offset)
      invariant colors[..base_dst] == Rows(palette, input, w, y, scanline, offset)
      invariant colors[base_dst..] == old(colors[base_dst..])
      invariant var done := Rows(palette, input, w, y, scanline, offset);
                rr == Sum(done, Red) && gg == Sum(done, Green) && bb == Sum(done, Blue)
    {
      MulMono(y + 1, h, w);
      ghost var before := colors[..];
      var rowOk, dr, dg, db := ImportRow(colors, palette, input, w, scanline, offset, y, base_dst);
      if !rowOk {
        return false, rr, gg, bb;
      }
      RowsStep(palette, input, w, y, scanline, offset);
      assert colors[base_dst + w..] == before[base_dst + w..];
      rr, gg, bb := rr + dr, gg + dg, bb + db;
      y := y + 1;
      base_dst := base_dst + w;
    }
    ok := true;
  }

  /** With both dimensions positive, the pixel loop leaves behind the expanded rows,
      which are the texture `TextureOf` describes, and the running sums are the sums
      of its channels. */
  lemma ExpandedRows(palette: seq<Color>, input: seq<byte>, width: int, height: int,
                     scanline: int, offset: int, cs: seq<Color>, rr: nat, gg: nat, bb: nat)
    requires width > 0 && height > 0 && |cs| == width * height
    requires RowsReadable(palette, input, width, height, scanline, offset)
    requires cs[..width * height] == Rows(palette, input, width, height, scanline, offset)
    requires var done := cs[..width * height];
             rr == Sum(done, Red) && gg == Sum(done, Green) && bb == Sum(done, Blue)
    ensures rr == Sum(cs, Red) && gg == Sum(cs, Green) && bb == Sum(cs, Blue)
    ensures TextureOf(palette, input, width, height, scanline, offset) ==
            Ok((Texture(width, height, cs), Mean(cs)))
  {
    assert cs[..width * height] == cs;
  }

  /** Otherwise the loops do not run: every pixel is still `Clear`, and every sum 0. */
  lemma ExpandedNone(palette: seq<Color>, input: seq<byte>, width: int, height: int,
                     scanline: int, offset: int, cs: seq<Color>)
    requires !(width > 0 && height > 0) && 0 < width * height == |cs|
    requires forall i | 0 <= i < |cs| :: cs[i] == Clear
    ensures Sum(cs, Red) == 0 && Sum(cs, Green) == 0 && Sum(cs, Blue) == 0
    ensures TextureOf(palette, input, width, height, scanline, offset) ==
            Ok((Texture(width, height, cs), Mean(cs)))
  {
    assert cs == seq(|cs|, _ => Clear);
    SumUniform(cs, Clear, Red);
    SumUniform(cs, Clear, Green);
    SumUniform(cs, Clear, Blue);
  }

  /** `ImportSingleTexture(palette, input_data, width, height, scanline, offset)`. */
  method ImportSingleTexture(palette: seq<Color>, input: seq<byte>, width: int, height: int,
                             scanline: int, offset: int) returns (r: Result<(Texture, Color)>)
    ensures r == TextureOf(palette, input, width, height, scanline, offset)
  {
    var size := width * height;
    if size < 0 {
      return Err(Overflow);
    }
    if height > 0 && width < 0 {
      MulMono(width, 0, height);
      assert false;
    }
    var colors := new Color[size](_ => Clear);
    var h: nat := if height > 0 then height else 0;
    var w: nat := if height > 0 then width else 0;
    var ok, rr, gg, bb := ExpandRows(colors, palette, input, w, h, scanline, offset);
    if !ok {
      return Err(IndexError);
    }
    if size == 0 {
      return Err(ZeroDivision);
    }
    if width > 0 && height > 0 {
      ExpandedRows(palette, input, width, height, scanline, offset, colors[..], rr, gg, bb);
    } else {
      assert h * w == 0;
      assert rr == 0 && gg == 0 && bb == 0;
      ExpandedNone(palette, input, width, height, scanline, offset, colors[..]);
    }
    MeanFits(rr, size);
    MeanFits(gg, size);
    MeanFits(bb, size);
    var mean := Color(rr / size, gg / size, bb / size, 0);
    return Ok((Texture(width, height, colors[..]), mean));
  }

  /** C#'s `width / 2`, which truncates toward zero. */
  function Half(width: int): (r: int)
  {
    if width >= 0 then width / 2 else -((-width) / 2)
  }

  /** `palette_with_alpha` of a sky: entry 0 is the mean colour of the right half, and
      entries 1 to 255 are the palette's; a palette of fewer than 256 entries cannot
      be copied. */
  function SkyPalette(palette: seq<Color>, mean: Color): (r: Result<seq<Color>>)
  {
    if |palette| < 256 then Err(IndexError) else Ok([mean] + palette[1..256])
  }

  /** The two halves of a sky texture `width` pixels wide: the right half, read from
      column `width / 2` on, and the left half, read from column 0 through the palette
      whose colour 0 is the right half's mean. */
  function SkyOf(palette: seq<Color>, input: seq<byte>, width: int, height: int)
    : (r: Result<(Texture, Texture)>)
  {
    var w2 := Half(width);
    var right :- TextureOf(palette, input, w2, height, width, w2);
    var alpha :- SkyPalette(palette, right.1);
    var left :- TextureOf(alpha, input, w2, height, width, 0);
    Ok((right.0, left.0))
  }

  /** A sky splits into two textures of half the width. The right half shows the
      palette colour of the byte `width / 2` columns to the right; the left half shows
      the palette colour of its own byte, except that colour 0 becomes the right
      half's mean colour with alpha 0, so the clouds are see-through there. */
  lemma SkyHalves(palette: seq<Color>, input: seq<byte>, width: int, height: int, x: int, y: int)
    requires SkyOf(palette, input, width, height).Ok?
    requires 0 <= x < width / 2 && 0 <= y < height
    ensures |palette| >= 256
    ensures var (right, left) := SkyOf(palette, input, width, height).value;
            right.width == left.width == width / 2 && right.height == left.height == height
    ensures var (right, left) := SkyOf(palette, input, width, height).value;
            var i := y * (width / 2) + x;
            0 <= i < |right.pixels| && 0 <= i < |left.pixels| &&
            0 <= y * width + width / 2 + x < |input| && 0 <= y * width + x < |input| &&
            right.pixels[i] == palette[input[y * width + width / 2 + x]] &&
            left.pixels[i] == (if input[y * width + x] == 0
                               then Mean(right.pixels) else palette[input[y * width + x]])
  {
    var w2 := width / 2;
    var right := TextureOf(palette, input, w2, height, width, w2).value;
    var alpha := SkyPalette(palette, right.1).value;
    PixelAt(palette, input, w2, height, width, w2, x, y);
    PixelAt(alpha, input, w2, height, width, 0, x, y);
  }

  /** The copying loop of the sky branch: `palette_with_alpha[0]` is the mean colour and
      `palette_with_alpha[i] = palette[i]` for `i` from 1 to 255. */
  method SkyPaletteOf(palette: seq<Color>, mean: Color) returns (r: Result<seq<Color>>)
    ensures r == SkyPalette(palette, mean)
  {
    var withAlpha := new Color[256](_ => Clear);
    withAlpha[0] := mean;
    var i := 1;
    while i < 256
      invariant 1 <= i <= 256
      invariant withAlpha[0] == mean
      invariant i == 1 || i <= |palette|
      invariant forall j | 1 <= j < i :: j < |palette| && withAlpha[j] == palette[j]
    {
      if i >= |palette| {
        return Err(IndexError);
      }
      withAlpha[i] := palette[i];
      i := i + 1;
    }
    assert forall j | 1 <= j < 256 :: withAlpha[..][j] == ([mean] + palette[1..256])[j];
    assert withAlpha[..] == [mean] + palette[1..256];
    return Ok(withAlpha[..]);
  }

  /** The sky branch of `ImportTexture`: the right half, then the palette with alpha,
      then the left half. */
  method ImportSky(palette: seq<Color>, input: seq<byte>, width: int, height: int)
    returns (r: Result<(Texture, Texture)>)
    ensures r == SkyOf(palette, input, width, height)
  {
    var w2 := if width >= 0 then width / 2 else -((-width) / 2);
    var right := ImportSingleTexture(palette, input, w2, height, width, w2);
    if right.Err? {
      return Err(right.error);
    }
    var alpha := SkyPaletteOf(palette, right.value.1);
    if alpha.Err? {
      return Err(alpha.error);
    }
    var left := ImportSingleTexture(alpha.value, input, w2, height, width, 0);
    if left.Err? {
      return Err(left.error);
    }
    return Ok((right.value.0, left.value.0));
  }
}
