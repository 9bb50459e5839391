/**
 BGRA to NV12 (capture.rs): the full conversion with its reused output buffer, in the
 fixed-point form of the limited-range equations of section 2.5 of ITU-R BT.601-7, and the
 size the encoder demands of the result.
 */
module Nv12 {
  import opened Bytes
  import opened Normaliser

  /** Odd sizes lose a row or column, but nothing gets smaller than 2. */
  function Evened(n: nat): (e: nat)
    ensures e >= 2 && e % 2 == 0
  {
    if n < 2 then 2 else n / 2 * 2
  }

  function Nv12Size(width: nat, height: nat): nat {
    var w, h := Evened(width), Evened(height);
    w * h + w / 2 * (h / 2) * 2
  }

  function Clamp(v: int, lo: int, hi: int): int {
    if v < lo then lo else if v > hi then hi else v
  }

  /** Index of a sample's blue byte; coordinates beyond the picture fall on its last row or column. */
  function SampleIndex(width: nat, height: nat, x: nat, y: nat): (i: nat)
    requires width >= 1 && height >= 1
    ensures i + 4 <= width * height * 4
  {
    var px, py := if x < width then x else width - 1, if y < height then y else height - 1;
    assert py * width + px <= (height - 1) * width + (width - 1) < height * width by {
      MulMonotone(py, height - 1, width);
      assert (height - 1) * width == height * width - width;
    }
    (py * width + px) * 4
  }

  lemma MulMonotone(a: nat, b: nat, c: nat)
    requires a <= b
    ensures a * c <= b * c
  {
  }

  /** The fixed-point luma is within 1.12 below and 0.21 above the equation with three decimals, and in range. */
  function Luma(r: int, g: int, b: int): (v: int)
    requires 0 <= r <= 255 && 0 <= g <= 255 && 0 <= b <= 255
    ensures 16 <= v <= 235
    ensures -1112 < 1000 * (v - 16) - (257 * r + 504 * g + 98 * b) < 208
  {
    (66 * r + 129 * g + 25 * b) / 256 + 16
  }

  function ChromaU(r: int, g: int, b: int): (v: int)
    requires 0 <= r <= 255 && 0 <= g <= 255 && 0 <= b <= 255
    ensures 16 <= v <= 240
    ensures -1495 < 1000 * (v - 128) - (-148 * r - 291 * g + 439 * b) < 495
    ensures r == g == b ==> v == 128
  {
    (-38 * r - 74 * g + 112 * b) / 256 + 128
  }

  function ChromaV(r: int, g: int, b: int): (v: int)
    requires 0 <= r <= 255 && 0 <= g <= 255 && 0 <= b <= 255
    ensures 16 <= v <= 240
    ensures -1383 < 1000 * (v - 128) - (439 * r - 368 * g - 71 * b) < 383
    ensures r == g == b ==> v == 128
  {
    (112 * r - 94 * g - 18 * b) / 256 + 128
  }

  function Row(k: nat, w: nat): nat
    requires w > 0
  {
    k / w
  }

  function Col(k: nat, w: nat): (c: nat)
    requires w > 0
    ensures c < w
  {
    k % w
  }

  datatype Picture = Picture(bgra: seq<byte>, width: nat, height: nat) {
    predicate Valid() {
      width >= 1 && height >= 1 && |bgra| >= width * height * 4
    }

    /** Channel 0 is blue, 1 green, 2 red. */
    function Channel(x: nat, y: nat, c: nat): (v: int)
      requires Valid() && c < 3
      ensures 0 <= v <= 255
    {
      bgra[SampleIndex(width, height, x, y) + c] as int
    }

    /** Mean of the 2 x 2 block at (x, y), rounded down. */
    function BlockMean(x: nat, y: nat, c: nat): (v: int)
      requires Valid() && c < 3
      ensures 0 <= v <= 255
    {
      (Channel(x, y, c) + Channel(x + 1, y, c) + Channel(x, y + 1, c) + Channel(x + 1, y + 1, c)) / 4
    }

    function LumaAt(x: nat, y: nat): (v: int)
      requires Valid()
      ensures 16 <= v <= 235
    {
      Luma(Channel(x, y, 2), Channel(x, y, 1), Channel(x, y, 0))
    }

    /** Byte `k` of the luma plane. */
    function LumaByte(k: nat): byte
      requires Valid()
    {
      LumaAt(Col(k, Evened(width)), Row(k, Evened(width))) as byte
    }

    function UAt(x: nat, y: nat): (v: int)
      requires Valid()
      ensures 16 <= v <= 240
    {
      ChromaU(BlockMean(x, y, 2), BlockMean(x, y, 1), BlockMean(x, y, 0))
    }

    function VAt(x: nat, y: nat): (v: int)
      requires Valid()
      ensures 16 <= v <= 240
    {
      ChromaV(BlockMean(x, y, 2), BlockMean(x, y, 1), BlockMean(x, y, 0))
    }

    /** Byte `m` of the chroma plane: U and V of a block side by side; a row stands for two picture rows. */
    function ChromaByte(m: nat): byte
      requires Valid()
    {
      var x, y := Col(m, Evened(width)), 2 * Row(m, Evened(width));
      (if x % 2 == 0 then UAt(x, y) else VAt(x - 1, y)) as byte
    }

    ghost predicate ChromaMatches(out: seq<byte>, n: nat, m: nat)
      requires Valid() && n + m < |out|
    {
      out[n + m] == ChromaByte(m)
    }

    ghost predicate Converted(out: seq<byte>)
      requires Valid()
    {
      var n := Evened(width) * Evened(height);
      && |out| == Nv12Size(width, height) && n <= |out|
      && (forall k | 0 <= k < n :: out[k] == LumaByte(k))
      && (forall m | 0 <= m < |out| - n :: ChromaMatches(out, n, m))
    }

    ghost predicate Grey()
      requires Valid()
    {
      forall x: nat, y: nat :: Channel(x, y, 0) == Channel(x, y, 1) == Channel(x, y, 2)
    }
  }

  lemma RowColUnique(q: nat, r: nat, w: nat)
    requires r < w
    ensures Row(q * w + r, w) == q && Col(q * w + r, w) == r
  {
    var k := q * w + r;
    var d := k / w - q;
    assert k == w * (k / w) + k % w;
    assert w * (k / w) == w * q + w * d;
    assert w * d == r - k % w;
    assert d >= 1 ==> w * d >= w;
    assert d <= -1 ==> w * d + w <= 0;
  }

  /** Grey input has neutral chroma everywhere. */
  lemma GreyIsNeutral(p: Picture, out: seq<byte>)
    requires p.Valid() && p.Grey() && p.Converted(out)
    ensures forall k | Evened(p.width) * Evened(p.height) <= k < |out| :: out[k] == 128
  {
    GreyFrom(p, out, Evened(p.width) * Evened(p.height));
  }

  lemma GreyFrom(p: Picture, out: seq<byte>, n: nat)
    requires p.Valid() && p.Grey() && n <= |out| && forall m | 0 <= m < |out| - n :: p.ChromaMatches(out, n, m)
    ensures forall k | n <= k < |out| :: out[k] == 128
  {
    forall k | n <= k < |out| ensures out[k] == 128 {
      GreyAt(p, out, n, k - n);
    }
  }

  lemma GreyAt(p: Picture, out: seq<byte>, n: nat, m: nat)
    requires p.Valid() && p.Grey() && n + m < |out| && p.ChromaMatches(out, n, m)
    ensures out[n + m] == 128
  {
    GreyByte(p, m);
  }

  lemma GreyByte(p: Picture, m: nat)
    requires p.Valid() && p.Grey()
    ensures p.ChromaByte(m) == 128
  {
    var x, y := Col(m, Evened(p.width)), 2 * Row(m, Evened(p.width));
    GreyBlock(p, if x % 2 == 0 then x else x - 1, y);
  }

  lemma GreyBlock(p: Picture, x: nat, y: nat)
    requires p.Valid() && p.Grey()
    ensures p.UAt(x, y) == 128 && p.VAt(x, y) == 128
  {
    assert p.Channel(x, y, 0) == p.Channel(x, y, 1) == p.Channel(x, y, 2);
    assert p.Channel(x + 1, y, 0) == p.Channel(x + 1, y, 1) == p.Channel(x + 1, y, 2);
    assert p.Channel(x, y + 1, 0) == p.Channel(x, y + 1, 1) == p.Channel(x, y + 1, 2);
    assert p.Channel(x + 1, y + 1, 0) == p.Channel(x + 1, y + 1, 1) == p.Channel(x + 1, y + 1, 2);
  }

  /** The two conversions agree: the bytes of the buffer depend on the picture alone. */
  lemma ConvertedIsUnique(p: Picture, a: seq<byte>, b: seq<byte>)
    requires p.Valid() && p.Converted(a) && p.Converted(b)
    ensures a == b
  {
    var n := Evened(p.width) * Evened(p.height);
    forall k | 0 <= k < |a| ensures a[k] == b[k] {
      if k >= n {
        var m := k - n;
        assert p.ChromaMatches(a, n, m) && p.ChromaMatches(b, n, m);
      }
    }
  }

  // ---------- The size the encoder demands ----------

  /** The encoder is created with odd sizes rounded down (not up to 2). */
  function EncoderSide(n: nat): nat {
    if n % 2 == 0 then n else n - 1
  }

  lemma HalvesProduct(w: nat, h: nat)
    requires w % 2 == 0 && h % 2 == 0
    ensures w / 2 * (h / 2) * 2 == w * h / 2 && w * h % 4 == 0
  {
    var a, b := w / 2, h / 2;
    assert w * h == 4 * (a * b) by {
      assert w == 2 * a && h == 2 * b;
      assert (2 * a) * (2 * b) == 4 * (a * b);
    }
  }

  lemma WrapExactly(x: nat)
    requires x % 4 == 0
    ensures x % 0x1_0000_0000 * 3 % 0x1_0000_0000 / 2 == x + x / 2 <==> x * 3 < 0x1_0000_0000
  {
  }

  /** The buffer has the length `encode` checks for exactly when both sides are at least 2 and the 32-bit product does not wrap. */
  lemma SizeAgreement(width: nat, height: nat)
    requires width >= 1 && height >= 1
    ensures Nv12Size(width, height) == ExpectedSize(EncoderSide(width), EncoderSide(height))
       <==> width >= 2 && height >= 2 && EncoderSide(width) * EncoderSide(height) * 3 < 0x1_0000_0000
  {
    var w, h := Evened(width), Evened(height);
    HalvesProduct(w, h);
    assert Nv12Size(width, height) == w * h + w * h / 2;
    if width >= 2 && height >= 2 {
      assert w == EncoderSide(width) && h == EncoderSide(height);
      WrapExactly(w * h);
    } else {
      ZeroSide(EncoderSide(width), EncoderSide(height));
      MulMonotone(2, w, h);
    }
  }

  lemma ZeroSide(w: nat, h: nat)
    requires w == 0 || h == 0
    ensures ExpectedSize(w, h) == 0
  {
    assert w * h == 0;
  }

  // ---------- The conversion ----------

  /** `Vec::resize`: keeps what was there, fills up with zeros. */
  method Resize(buffer: array<byte>, n: nat) returns (out: array<byte>)
    ensures out.Length == n && (out == buffer || fresh(out))
    ensures forall i | 0 <= i < n :: out[i] == if i < buffer.Length then buffer[i] else 0
  {
    if buffer.Length == n {
      return buffer;
    }
    var was := buffer[..];
    out := new byte[n](i => if 0 <= i < |was| then was[i] else 0);
  }

  method LumaOf(p: Picture, x: nat, y: nat) returns (v: byte)
    requires p.Valid()
    ensures v as int == p.LumaAt(x, y)
  {
    var i := SampleIndex(p.width, p.height, x, y);
    var b, g, r := p.bgra[i] as int, p.bgra[i + 1] as int, p.bgra[i + 2] as int;
    var yv := (66 * r + 129 * g + 25 * b) / 256 + 16;
    assert yv == Luma(r, g, b);
    v := Clamp(yv, 16, 235) as byte;
  }

  /** Row `y` of the luma plane, at `from` in `t`. */
  ghost predicate LumaRow(p: Picture, t: seq<byte>, from: nat, y: nat)
    requires p.Valid()
  {
    from + Evened(p.width) <= |t| && forall x | 0 <= x < Evened(p.width) :: t[from + x] as int == p.LumaAt(x, y)
  }

  method FillLumaRow(p: Picture, out: array<byte>, row: nat, y: nat)
    requires p.Valid() && row + Evened(p.width) <= out.Length
    modifies out
    ensures LumaRow(p, out[..], row, y)
    ensures forall k | 0 <= k < out.Length && !(row <= k < row + Evened(p.width)) :: out[k] == old(out[k])
  {
    for x := 0 to Evened(p.width)
      invariant forall i | 0 <= i < x :: out[row + i] as int == p.LumaAt(i, y)
      invariant forall k | 0 <= k < out.Length && !(row <= k < row + x) :: out[k] == old(out[k])
    {
      var v := LumaOf(p, x, y);
      out[row + x] := v;
    }
  }

  ghost predicate LumaDone(p: Picture, t: seq<byte>, n: nat)
    requires p.Valid()
  {
    n <= |t| && forall k | 0 <= k < n :: t[k] == p.LumaByte(k)
  }

  lemma NextRow(y: nat, h: nat, w: nat)
    requires y < h
    ensures y * w + w == (y + 1) * w <= h * w
  {
    MulMonotone(y + 1, h, w);
  }

  method ConvertLuma(p: Picture, out: array<byte>)
    requires p.Valid() && out.Length == Nv12Size(p.width, p.height)
    modifies out
    ensures LumaDone(p, out[..], Evened(p.width) * Evened(p.height))
  {
    var w, h := Evened(p.width), Evened(p.height);
    var row := 0;
    for y := 0 to h
      invariant row == y * w
      invariant LumaDone(p, out[..], row)
    {
      NextRow(y, h, w);
      ghost var was := out[..];
      FillLumaRow(p, out, row, y);
      LumaRowBytes(p, was, out[..], row, y);
      row := row + w;
    }
  }

  lemma LumaRowBytes(p: Picture, was: seq<byte>, t: seq<byte>, row: nat, y: nat)
    requires p.Valid() && LumaDone(p, was, row) && |was| == |t| && row == y * Evened(p.width)
    requires LumaRow(p, t, row, y)
    requires forall k | 0 <= k < row :: t[k] == was[k]
    ensures LumaDone(p, t, row + Evened(p.width))
  {
    forall k | row <= k < row + Evened(p.width) ensures t[k] == p.LumaByte(k) {
      var x := k - row;
      RowColUnique(y, x, Evened(p.width));
      assert t[row + x] as int == p.LumaAt(x, y);
    }
  }

  method BlockSum(p: Picture, x: nat, y: nat) returns (r: int, g: int, b: int)
    requires p.Valid()
    ensures r / 4 == p.BlockMean(x, y, 2) && g / 4 == p.BlockMean(x, y, 1) && b / 4 == p.BlockMean(x, y, 0)
  {
    r, g, b := 0, 0, 0;
    for dy := 0 to 2
      invariant dy == 0 ==> r == g == b == 0
      invariant dy >= 1 ==> b == p.Channel(x, y, 0) + p.Channel(x + 1, y, 0) + (if dy == 1 then 0 else p.Channel(x, y + 1, 0) + p.Channel(x + 1, y + 1, 0))
      invariant dy >= 1 ==> g == p.Channel(x, y, 1) + p.Channel(x + 1, y, 1) + (if dy == 1 then 0 else p.Channel(x, y + 1, 1) + p.Channel(x + 1, y + 1, 1))
      invariant dy >= 1 ==> r == p.Channel(x, y, 2) + p.Channel(x + 1, y, 2) + (if dy == 1 then 0 else p.Channel(x, y + 1, 2) + p.Channel(x + 1, y + 1, 2))
    {
      var r0, g0, b0 := r, g, b;
      for dx := 0 to 2
        invariant b == b0 + (if dx >= 1 then p.Channel(x, y + dy, 0) else 0) + (if dx == 2 then p.Channel(x + 1, y + dy, 0) else 0)
        invariant g == g0 + (if dx >= 1 then p.Channel(x, y + dy, 1) else 0) + (if dx == 2 then p.Channel(x + 1, y + dy, 1) else 0)
        invariant r == r0 + (if dx >= 1 then p.Channel(x, y + dy, 2) else 0) + (if dx == 2 then p.Channel(x + 1, y + dy, 2) else 0)
      {
        var i := SampleIndex(p.width, p.height, x + dx, y + dy);
        b := b + p.bgra[i] as int;
        g := g + p.bgra[i + 1] as int;
        r := r + p.bgra[i + 2] as int;
      }
    }
  }

  method ChromaOf(p: Picture, x: nat, y: nat) returns (u: byte, v: byte)
    requires p.Valid()
    ensures u as int == p.UAt(x, y) && v as int == p.VAt(x, y)
  {
    var rs, gs, bs := BlockSum(p, x, y);
    var r, g, b := rs / 4, gs / 4, bs / 4;
    var uv := (-38 * r - 74 * g + 112 * b) / 256 + 128;
    var vv := (112 * r - 94 * g - 18 * b) / 256 + 128;
    assert uv == ChromaU(r, g, b) && vv == ChromaV(r, g, b);
    u, v := Clamp(uv, 16, 240) as byte, Clamp(vv, 16, 240) as byte;
  }

  /** The first `pairs` U, V pairs of a chroma row, at `from` in `t`. */
  ghost predicate ChromaPairs(p: Picture, t: seq<byte>, from: nat, y: nat, pairs: nat)
    requires p.Valid()
  {
    && from + 2 * pairs <= |t|
    && (forall c | 0 <= c < pairs :: t[from + 2 * c] as int == p.UAt(2 * c, y))
    && (forall c | 0 <= c < pairs :: t[from + 2 * c + 1] as int == p.VAt(2 * c, y))
  }

  method FillChromaRow(p: Picture, out: array<byte>, row: nat, y: nat)
    requires p.Valid() && row + Evened(p.width) <= out.Length
    modifies out
    ensures ChromaPairs(p, out[..], row, y, Evened(p.width) / 2)
    ensures forall k | 0 <= k < out.Length && !(row <= k < row + Evened(p.width)) :: out[k] == old(out[k])
  {
    for c := 0 to Evened(p.width) / 2
      invariant ChromaPairs(p, out[..], row, y, c)
      invariant forall k | 0 <= k < out.Length && !(row <= k < row + 2 * c) :: out[k] == old(out[k])
    {
      var u, v := ChromaOf(p, 2 * c, y);
      ghost var was := out[..];
      out[row + 2 * c] := u;
      out[row + 2 * c + 1] := v;
      assert out[..] == was[row + 2 * c := u][row + 2 * c + 1 := v];
      ChromaExtends(p, was, row, y, c, u, v);
    }
  }

  lemma ChromaExtends(p: Picture, t: seq<byte>, from: nat, y: nat, c: nat, u: byte, v: byte)
    requires p.Valid() && ChromaPairs(p, t, from, y, c) && from + 2 * c + 1 < |t|
    requires u as int == p.UAt(2 * c, y) && v as int == p.VAt(2 * c, y)
    ensures ChromaPairs(p, t[from + 2 * c := u][from + 2 * c + 1 := v], from, y, c + 1)
  {
    var t' := t[from + 2 * c := u][from + 2 * c + 1 := v];
    assert forall k | 0 <= k < from + 2 * c :: t'[k] == t[k];
    forall d | 0 <= d < c + 1 ensures t'[from + 2 * d] as int == p.UAt(2 * d, y) && t'[from + 2 * d + 1] as int == p.VAt(2 * d, y) {
      if d < c { assert t'[from + 2 * d] == t[from + 2 * d] && t'[from + 2 * d + 1] == t[from + 2 * d + 1]; }
    }
  }

  ghost predicate ChromaDone(p: Picture, t: seq<byte>, n: nat, count: nat)
    requires p.Valid()
  {
    n + count <= |t| && forall m | 0 <= m < count :: p.ChromaMatches(t, n, m)
  }

  method ConvertChroma(p: Picture, out: array<byte>)
    requires p.Valid() && out.Length == Nv12Size(p.width, p.height)
    modifies out
    ensures forall k | 0 <= k < Evened(p.width) * Evened(p.height) :: out[k] == old(out[k])
    ensures ChromaDone(p, out[..], Evened(p.width) * Evened(p.height), out.Length - Evened(p.width) * Evened(p.height))
  {
    var w, h := Evened(p.width), Evened(p.height);
    var n := w * h;
    ChromaPlaneSize(w, h);
    var row := 0;
    for q := 0 to h / 2
      invariant row == q * w
      invariant forall k | 0 <= k < n :: out[k] == old(out[k])
      invariant ChromaDone(p, out[..], n, row)
    {
      NextRow(q, h / 2, w);
      ghost var was := out[..];
      FillChromaRow(p, out, n + row, 2 * q);
      ChromaRowBytes(p, was, out[..], n, row, q);
      row := row + w;
    }
  }

  lemma ChromaByteIs(p: Picture, b: byte, m: nat, q: nat, x: nat)
    requires p.Valid() && Row(m, Evened(p.width)) == q && Col(m, Evened(p.width)) == x
    requires b as int == if x % 2 == 0 then p.UAt(x, 2 * q) else p.VAt(x - 1, 2 * q)
    ensures b == p.ChromaByte(m)
  {
  }

  lemma ChromaRowByte(p: Picture, t: seq<byte>, n: nat, row: nat, q: nat, x: nat)
    requires p.Valid() && Row(row + x, Evened(p.width)) == q && Col(row + x, Evened(p.width)) == x
    requires ChromaPairs(p, t, n + row, 2 * q, Evened(p.width) / 2)
    ensures n + (row + x) < |t| && p.ChromaMatches(t, n, row + x)
  {
    var c := x / 2;
    assert t[n + row + 2 * c] as int == p.UAt(2 * c, 2 * q);
    assert t[n + row + 2 * c + 1] as int == p.VAt(2 * c, 2 * q);
    assert x == 2 * c || x == 2 * c + 1;
    ChromaByteIs(p, t[n + row + x], row + x, q, x);
  }

  lemma ByteKept(p: Picture, was: seq<byte>, t: seq<byte>, n: nat, m: nat)
    requires p.Valid() && n + m < |was| && n + m < |t| && p.ChromaMatches(was, n, m) && t[n + m] == was[n + m]
    ensures p.ChromaMatches(t, n, m)
  {
  }

  lemma ChromaRowBytes(p: Picture, was: seq<byte>, t: seq<byte>, n: nat, row: nat, q: nat)
    requires p.Valid() && ChromaDone(p, was, n, row) && |was| == |t| && row == q * Evened(p.width)
    requires ChromaPairs(p, t, n + row, 2 * q, Evened(p.width) / 2)
    requires forall k | 0 <= k < n + row :: t[k] == was[k]
    ensures ChromaDone(p, t, n, row + Evened(p.width))
  {
    forall m | 0 <= m < row + Evened(p.width) ensures p.ChromaMatches(t, n, m) {
      if m < row {
        ByteKept(p, was, t, n, m);
      } else {
        RowColUnique(q, m - row, Evened(p.width));
        ChromaRowByte(p, t, n, row, q, m - row);
      }
    }
  }

  lemma ChromaPlaneSize(w: nat, h: nat)
    requires w % 2 == 0 && h % 2 == 0
    ensures w / 2 * (h / 2) * 2 == h / 2 * w
  {
    var a := w / 2;
    assert w == 2 * a;
  }

  lemma PlanesTogether(p: Picture, luma: seq<byte>, out: seq<byte>)
    requires p.Valid() && |luma| == |out| == Nv12Size(p.width, p.height)
    requires LumaDone(p, luma, Evened(p.width) * Evened(p.height))
    requires forall k | 0 <= k < Evened(p.width) * Evened(p.height) :: out[k] == luma[k]
    requires ChromaDone(p, out, Evened(p.width) * Evened(p.height), |out| - Evened(p.width) * Evened(p.height))
    ensures p.Converted(out)
  {
  }

  /** Whatever the reused buffer held, every byte of the result is the converted one. */
  method BgraToNv12(p: Picture, buffer: array<byte>) returns (out: array<byte>)
    requires p.Valid()
    modifies buffer
    ensures out == buffer || fresh(out)
    ensures p.Converted(out[..])
  {
    out := Resize(buffer, Nv12Size(p.width, p.height));
    ConvertLuma(p, out);
    ghost var luma := out[..];
    ConvertChroma(p, out);
    ChromaPlaneSize(Evened(p.width), Evened(p.height));
    PlanesTogether(p, luma, out[..]);
  }

  // ---------- Which bytes of the picture decide ----------

  /** Rows lie one after the other, four bytes a pixel; beyond the edge the last row or column is repeated. */
  lemma ChannelIsByte(p: Picture, x: nat, y: nat, c: nat)
    requires p.Valid() && c < 3
    ensures var px, py := if x < p.width then x else p.width - 1, if y < p.height then y else p.height - 1;
            (py * p.width + px) * 4 + c < |p.bgra| && p.Channel(x, y, c) == p.bgra[(py * p.width + px) * 4 + c] as int
  {
    assert SampleIndex(p.width, p.height, x, y) + 4 <= p.width * p.height * 4;
  }

  lemma LumaByteAt(p: Picture, out: seq<byte>, x: nat, y: nat)
    requires p.Valid() && p.Converted(out) && x < Evened(p.width) && y < Evened(p.height)
    ensures y * Evened(p.width) + x < |out| && out[y * Evened(p.width) + x] as int == p.LumaAt(x, y)
  {
    RowColUnique(y, x, Evened(p.width));
    NextRow(y, Evened(p.height), Evened(p.width));
  }

  lemma ChromaByteValue(p: Picture, m: nat, q: nat, x: nat)
    requires p.Valid() && Row(m, Evened(p.width)) == q && Col(m, Evened(p.width)) == x
    ensures p.ChromaByte(m) as int == if x % 2 == 0 then p.UAt(x, 2 * q) else p.VAt(x - 1, 2 * q)
  {
  }

  lemma UByteAt(p: Picture, b: byte, m: nat, q: nat, x: nat)
    requires p.Valid() && b == p.ChromaByte(m)
    requires Row(m, Evened(p.width)) == q && Col(m, Evened(p.width)) == x && x % 2 == 0
    ensures b as int == p.UAt(x, 2 * q)
  {
    ChromaByteValue(p, m, q, x);
  }

  lemma VByteAt(p: Picture, b: byte, m: nat, q: nat, x: nat, left: nat)
    requires p.Valid() && b == p.ChromaByte(m) && x == left + 1
    requires Row(m, Evened(p.width)) == q && Col(m, Evened(p.width)) == x && x % 2 == 1
    ensures b as int == p.VAt(left, 2 * q)
  {
    assert x - 1 == left;
    ChromaByteValue(p, m, q, x);
  }

  lemma InChromaPlane(p: Picture, out: seq<byte>, n: nat, m: nat)
    requires p.Valid() && p.Converted(out) && n == Evened(p.width) * Evened(p.height)
    requires m < Evened(p.width) / 2 * (Evened(p.height) / 2) * 2
    ensures n + m < |out| && p.ChromaMatches(out, n, m) && out[n + m] == p.ChromaByte(m)
  {
  }

  lemma PairInPlane(w: nat, h: nat, x: nat, q: nat, m: nat)
    requires w % 2 == 0 && h % 2 == 0 && x % 2 == 0 && x < w && 2 * q < h && m == q * w + x
    ensures m + 1 < w / 2 * (h / 2) * 2
    ensures Row(m, w) == q == Row(m + 1, w) && Col(m, w) == x && Col(m + 1, w) == x + 1 && (x + 1) % 2 == 1
  {
    ChromaPlaneSize(w, h);
    NextRow(q, h / 2, w);
    RowColUnique(q, x, w);
    RowColUnique(q, x + 1, w);
  }

  lemma ChromaBytesAt(p: Picture, out: seq<byte>, n: nat, m: nat, x: nat, q: nat)
    requires p.Valid() && p.Converted(out) && x % 2 == 0 && x < Evened(p.width) && 2 * q < Evened(p.height)
    requires n == Evened(p.width) * Evened(p.height) && m == q * Evened(p.width) + x
    ensures n + m + 1 < |out| && out[n + m] as int == p.UAt(x, 2 * q) && out[n + m + 1] as int == p.VAt(x, 2 * q)
  {
    PairInPlane(Evened(p.width), Evened(p.height), x, q, m);
    InChromaPlane(p, out, n, m);
    InChromaPlane(p, out, n, m + 1);
    UByteAt(p, out[n + m], m, q, x);
    VByteAt(p, out[n + m + 1], m + 1, q, x + 1, x);
  }

  /** Odd sides are rounded down, but to no less than 2. */
  lemma EvenedIs(n: nat)
    ensures Evened(n) == if n < 2 then 2 else n - n % 2
  {
  }

  /** Each luma byte comes from the red, green and blue byte of its pixel, which stand in the order blue, green, red. */
  lemma LumaFromBytes(bgra: seq<byte>, width: nat, height: nat, out: seq<byte>, x: nat, y: nat)
    requires width >= 1 && height >= 1 && |bgra| >= width * height * 4 && Picture(bgra, width, height).Converted(out)
    requires x < Evened(width) && y < Evened(height)
    ensures var w := Evened(width);
            var px, py := if x < width then x else width - 1, if y < height then y else height - 1;
            var i := (py * width + px) * 4;
            && i + 2 < |bgra| && y * w + x < |out|
            && out[y * w + x] as int == (66 * bgra[i + 2] as int + 129 * bgra[i + 1] as int + 25 * bgra[i] as int) / 256 + 16
  {
    var p := Picture(bgra, width, height);
    LumaByteAt(p, out, x, y);
    ChannelIsByte(p, x, y, 0);
    ChannelIsByte(p, x, y, 1);
    ChannelIsByte(p, x, y, 2);
  }

  /** A channel's mean over the 2 x 2 block at (x, y), rounded down, from its four bytes. */
  lemma MeanOfBytes(p: Picture, x: nat, y: nat, c: nat, x0: nat, x1: nat, y0: nat, y1: nat)
    requires p.Valid() && c < 3
    requires x0 == (if x < p.width then x else p.width - 1) && x1 == (if x + 1 < p.width then x + 1 else p.width - 1)
    requires y0 == (if y < p.height then y else p.height - 1) && y1 == (if y + 1 < p.height then y + 1 else p.height - 1)
    ensures (y0 * p.width + x0) * 4 + c < |p.bgra| && (y0 * p.width + x1) * 4 + c < |p.bgra|
    ensures (y1 * p.width + x0) * 4 + c < |p.bgra| && (y1 * p.width + x1) * 4 + c < |p.bgra|
    ensures p.BlockMean(x, y, c)
         == (p.bgra[(y0 * p.width + x0) * 4 + c] as int + p.bgra[(y0 * p.width + x1) * 4 + c] as int
             + p.bgra[(y1 * p.width + x0) * 4 + c] as int + p.bgra[(y1 * p.width + x1) * 4 + c] as int) / 4
  {
    var b00 := ByteOf(p, x, y, c, x0, y0);
    var b10 := ByteOf(p, x + 1, y, c, x1, y0);
    var b01 := ByteOf(p, x, y + 1, c, x0, y1);
    var b11 := ByteOf(p, x + 1, y + 1, c, x1, y1);
    MeanOfFour(p, x, y, c, b00, b10, b01, b11);
  }

  lemma ByteOf(p: Picture, x: nat, y: nat, c: nat, px: nat, py: nat) returns (b: int)
    requires p.Valid() && c < 3
    requires px == (if x < p.width then x else p.width - 1) && py == (if y < p.height then y else p.height - 1)
    ensures (py * p.width + px) * 4 + c < |p.bgra| && b == p.bgra[(py * p.width + px) * 4 + c] as int && b == p.Channel(x, y, c)
  {
    ChannelIsByte(p, x, y, c);
    b := p.Channel(x, y, c);
  }

  lemma MeanOfFour(p: Picture, x: nat, y: nat, c: nat, b00: int, b10: int, b01: int, b11: int)
    requires p.Valid() && c < 3
    requires b00 == p.Channel(x, y, c) && b10 == p.Channel(x + 1, y, c) && b01 == p.Channel(x, y + 1, c) && b11 == p.Channel(x + 1, y + 1, c)
    ensures p.BlockMean(x, y, c) == (b00 + b10 + b01 + b11) / 4
  {
  }

  /** Each pair of chroma bytes, U first, comes from the means of blue, green and red over its four pixels. */
  lemma ChromaFromMeans(p: Picture, out: seq<byte>, n: nat, m: nat, x: nat, q: nat)
    requires p.Valid() && p.Converted(out) && x % 2 == 0 && x < Evened(p.width) && 2 * q < Evened(p.height)
    requires n == Evened(p.width) * Evened(p.height) && m == q * Evened(p.width) + x
    ensures var b, g, r := p.BlockMean(x, 2 * q, 0), p.BlockMean(x, 2 * q, 1), p.BlockMean(x, 2 * q, 2);
            && n + m + 1 < |out|
            && out[n + m] as int == (112 * b - 74 * g - 38 * r) / 256 + 128
            && out[n + m + 1] as int == (112 * r - 94 * g - 18 * b) / 256 + 128
  {
    ChromaBytesAt(p, out, n, m, x, q);
  }
}
