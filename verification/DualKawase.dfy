/** The idle daemon's wallpaper blur (aetheridle/main.c:1232-1444): two halvings and two
    doublings of a four-byte-per-pixel image. The C code samples with floats whose fractions are
    0 or 1/2, so every sum is exact in a float; arithmetic is over reals here. */
module DualKawase {
  import opened Bytes
  import opened Images

  /** Both C functions clamp coordinates to the image. */
  function Clamp(v: int, n: nat): (c: nat)
    requires n >= 1
    ensures c < n && (0 <= v < n ==> c == v)
  {
    if v < 0 then 0 else if v >= n then n - 1 else v
  }

  function Tap(p: Picture, w: nat, h: nat, x: int, y: int): Px
    requires IsPicture(p, w, h) && w >= 1 && h >= 1
  {
    p[Clamp(y, h)][Clamp(x, w)]
  }

  lemma TapWithin(p: Picture, w: nat, h: nat, x: int, y: int, k: nat, lo: nat, hi: nat)
    requires IsPicture(p, w, h) && w >= 1 && h >= 1 && k < 4 && Within(p, k, lo, hi)
    ensures lo <= Tap(p, w, h, x, y).At(k) <= hi
  {
    assert RowWithin(p[Clamp(y, h)], k, lo, hi);
  }

  /** A tap of the picture a buffer holds. */
  method ReadTap(src: array<byte>, m: Shape, x: nat, y: nat) returns (px: Px)
    requires Holds(src.Length, m) && x < m.w && y < m.h
    ensures px == PictureOf(src[..], m)[y][x]
  {
    RowFits(src.Length, m, y);
    var p := Offset(Offset(0, m.stride, y), 4, x);
    assert p == RowAt(m, y)[x];
    px := Px(src[p], src[p + 1], src[p + 2], src[p + 3]);
    assert PictureOf(src[..], m)[y] == RowOf(src[..], m, y);
  }

  // ---- halving

  function DownCoords(x: nat, y: nat, o: int): (cs: seq<(int, int)>)
    ensures |cs| == 5
  {
    var cx, cy := x * 2, y * 2;
    [(cx, cy), (cx - o, cy - o), (cx + o, cy - o), (cx - o, cy + o), (cx + o, cy + o)]
  }

  function SumTaps(p: Picture, w: nat, h: nat, cs: seq<(int, int)>, k: nat): nat
    requires IsPicture(p, w, h) && w >= 1 && h >= 1 && k < 4
  {
    if cs == [] then 0
    else SumTaps(p, w, h, cs[..|cs| - 1], k) + Tap(p, w, h, cs[|cs| - 1].0, cs[|cs| - 1].1).At(k)
  }

  lemma {:induction false} SumTapsWithin(p: Picture, w: nat, h: nat, cs: seq<(int, int)>, k: nat, lo: nat, hi: nat)
    requires IsPicture(p, w, h) && w >= 1 && h >= 1 && k < 4 && Within(p, k, lo, hi)
    ensures lo * |cs| <= SumTaps(p, w, h, cs, k) <= hi * |cs|
  {
    if cs != [] {
      SumTapsWithin(p, w, h, cs[..|cs| - 1], k, lo, hi);
      TapWithin(p, w, h, cs[|cs| - 1].0, cs[|cs| - 1].1, k, lo, hi);
      assert lo * |cs| == lo * (|cs| - 1) + lo && hi * |cs| == hi * (|cs| - 1) + hi;
    }
  }

  /** Every byte is a byte. */
  lemma ByteRange(p: Picture, k: nat)
    requires k < 4
    ensures Within(p, k, 0, 255)
  {
  }

  /** The mean of a pixel of the doubled grid and its four diagonal neighbours. */
  function DownAt(p: Picture, w: nat, h: nat, x: nat, y: nat, o: int, k: nat): byte
    requires IsPicture(p, w, h) && w >= 1 && h >= 1 && k < 4
  {
    ByteRange(p, k);
    SumTapsWithin(p, w, h, DownCoords(x, y, o), k, 0, 255);
    SumTaps(p, w, h, DownCoords(x, y, o), k) / 5
  }

  function DownPx(p: Picture, w: nat, h: nat, x: nat, y: nat, o: int): Px
    requires IsPicture(p, w, h) && w >= 1 && h >= 1
  {
    Px(DownAt(p, w, h, x, y, o, 0), DownAt(p, w, h, x, y, o, 1),
       DownAt(p, w, h, x, y, o, 2), DownAt(p, w, h, x, y, o, 3))
  }

  function Down(p: Picture, w: nat, h: nat, w': nat, h': nat, o: int): (q: Picture)
    requires IsPicture(p, w, h) && w >= 1 && h >= 1
    ensures IsPicture(q, w', h')
    ensures forall x, y :: 0 <= x < w' && 0 <= y < h' ==> q[y][x] == DownPx(p, w, h, x, y, o)
  {
    seq(h', y requires 0 <= y < h' => seq(w', x requires 0 <= x < w' => DownPx(p, w, h, x, y, o)))
  }

  function DownMean(ghost p: Picture, m: Shape, x: nat, y: nat, o: int, k: nat, sum: nat): (b: byte)
    requires IsPicture(p, m.w, m.h) && m.w >= 1 && m.h >= 1 && k < 4
    requires sum == SumTaps(p, m.w, m.h, DownCoords(x, y, o), k)
    ensures b == DownAt(p, m.w, m.h, x, y, o, k)
  {
    ByteRange(p, k);
    SumTapsWithin(p, m.w, m.h, DownCoords(x, y, o), k, 0, 255);
    sum / 5
  }

  method DownPixel(src: array<byte>, m: Shape, x: nat, y: nat, o: int) returns (px: Px)
    requires Holds(src.Length, m) && m.w >= 1 && m.h >= 1
    ensures px == DownPx(PictureOf(src[..], m), m.w, m.h, x, y, o)
  {
    ghost var p := PictureOf(src[..], m);
    var coords := DownCoords(x, y, o);
    var s0, s1, s2, s3, count := 0, 0, 0, 0, 0;
    var i := 0;
    while i < 5
      invariant 0 <= i <= 5 && count == i
      invariant s0 == SumTaps(p, m.w, m.h, coords[..i], 0) && s1 == SumTaps(p, m.w, m.h, coords[..i], 1)
      invariant s2 == SumTaps(p, m.w, m.h, coords[..i], 2) && s3 == SumTaps(p, m.w, m.h, coords[..i], 3)
    {
      var px := ReadTap(src, m, Clamp(coords[i].0, m.w), Clamp(coords[i].1, m.h));
      s0, s1, s2, s3, count := s0 + px.c0, s1 + px.c1, s2 + px.c2, s3 + px.c3, count + 1;
      assert coords[..i + 1][..i] == coords[..i];
      i := i + 1;
    }
    assert coords[..5] == coords;
    px := Px(DownMean(p, m, x, y, o, 0, s0), DownMean(p, m, x, y, o, 1, s1),
             DownMean(p, m, x, y, o, 2, s2), DownMean(p, m, x, y, o, 3, s3));
  }

  // ---- doubling

  /** Offset of a sample from the half-scale position, and whether its weight is 2 or 1. */
  datatype Sample = Sample(dx: int, dy: int, heavy: bool)

  function Weight(s: Sample): nat { if s.heavy then 2 else 1 }

  function Scaled(v: nat, s: Sample): nat { if s.heavy then 2 * v else v }

  /** The sum of the samples' weights, each times `c`. */
  function WeightedSum(ss: seq<Sample>, c: nat): nat {
    if ss == [] then 0 else WeightedSum(ss[..|ss| - 1], c) + Scaled(c, ss[|ss| - 1])
  }

  lemma OneWeight(ss: seq<Sample>, i: nat, c: nat)
    requires i < |ss|
    ensures WeightedSum(ss[..i + 1], c) == WeightedSum(ss[..i], c) + Scaled(c, ss[i])
  {
    assert ss[..i + 1][..i] == ss[..i];
  }

  lemma EightWeights(ss: seq<Sample>, c: nat)
    requires |ss| == 8
    ensures WeightedSum(ss, c) == Scaled(c, ss[0]) + Scaled(c, ss[1]) + Scaled(c, ss[2]) + Scaled(c, ss[3])
                                + Scaled(c, ss[4]) + Scaled(c, ss[5]) + Scaled(c, ss[6]) + Scaled(c, ss[7])
  {
    assert ss[..0] == [] && ss[..8] == ss;
    OneWeight(ss, 0, c); OneWeight(ss, 1, c); OneWeight(ss, 2, c); OneWeight(ss, 3, c);
    OneWeight(ss, 4, c); OneWeight(ss, 5, c); OneWeight(ss, 6, c); OneWeight(ss, 7, c);
  }

  function UpSamples(o: int): (ss: seq<Sample>)
    ensures |ss| == 8
    ensures forall c: nat :: WeightedSum(ss, c) == 12 * c
  {
    var ss := [Sample(-2 * o, 0, false), Sample(2 * o, 0, false), Sample(0, -2 * o, false), Sample(0, 2 * o, false),
               Sample(-o, -o, true), Sample(o, -o, true), Sample(-o, o, true), Sample(o, o, true)];
    assert forall c: nat :: WeightedSum(ss, c) == 12 * c by {
      forall c: nat {
        EightWeights(ss, c);
      }
    }
    ss
  }

  /** Four times the bilinear mean of four taps whose fractions are 0 or 1/2. */
  function Blend4(p00: byte, p10: byte, p01: byte, p11: byte, halfX: bool, halfY: bool): nat {
    if !halfX && !halfY then 4 * p00 as int
    else if !halfX then 2 * p00 as int + 2 * p01 as int
    else if !halfY then 2 * p00 as int + 2 * p10 as int
    else p00 as int + p10 as int + p01 as int + p11 as int
  }

  function Times(v: real, s: Sample): real { if s.heavy then v * 2.0 else v * 1.0 }

  /** One number per channel. */
  datatype Sum4 = Sum4(n0: nat, n1: nat, n2: nat, n3: nat) {
    function At(k: nat): nat
      requires k < 4
    {
      if k == 0 then n0 else if k == 1 then n1 else if k == 2 then n2 else n3
    }

    function Plus(e: Sum4): Sum4 { Sum4(n0 + e.n0, n1 + e.n1, n2 + e.n2, n3 + e.n3) }

    function Times(s: Sample): Sum4 { Sum4(Scaled(n0, s), Scaled(n1, s), Scaled(n2, s), Scaled(n3, s)) }

    lemma Channel(e: Sum4, k: nat)
      requires k < 4
      ensures Plus(e).At(k) == At(k) + e.At(k)
    {
    }
  }

  function BlendPx(p00: Px, p10: Px, p01: Px, p11: Px, halfX: bool, halfY: bool): Sum4 {
    Sum4(Blend4(p00.c0, p10.c0, p01.c0, p11.c0, halfX, halfY), Blend4(p00.c1, p10.c1, p01.c1, p11.c1, halfX, halfY),
         Blend4(p00.c2, p10.c2, p01.c2, p11.c2, halfX, halfY), Blend4(p00.c3, p10.c3, p01.c3, p11.c3, halfX, halfY))
  }

  /** Four times the bilinear sample at (a/2, b/2). */
  function Quad(p: Picture, w: nat, h: nat, a: int, b: int): Sum4
    requires IsPicture(p, w, h) && w >= 1 && h >= 1
  {
    var x0, y0 := a / 2, b / 2;
    BlendPx(Tap(p, w, h, x0, y0), Tap(p, w, h, x0 + 1, y0), Tap(p, w, h, x0, y0 + 1), Tap(p, w, h, x0 + 1, y0 + 1),
            a % 2 == 1, b % 2 == 1)
  }

  lemma QuadWithin(p: Picture, w: nat, h: nat, a: int, b: int, k: nat, lo: nat, hi: nat)
    requires IsPicture(p, w, h) && w >= 1 && h >= 1 && k < 4 && Within(p, k, lo, hi)
    ensures 4 * lo <= Quad(p, w, h, a, b).At(k) <= 4 * hi
  {
    TapWithin(p, w, h, a / 2, b / 2, k, lo, hi);
    TapWithin(p, w, h, a / 2 + 1, b / 2, k, lo, hi);
    TapWithin(p, w, h, a / 2, b / 2 + 1, k, lo, hi);
    TapWithin(p, w, h, a / 2 + 1, b / 2 + 1, k, lo, hi);
  }

  lemma TimesWithin(q: Sum4, s: Sample, k: nat, lo: nat, hi: nat)
    requires k < 4 && lo <= q.At(k) <= hi
    ensures Scaled(lo, s) <= q.Times(s).At(k) <= Scaled(hi, s)
  {
  }

  /** A sample with its weight. */
  function Heavy(p: Picture, w: nat, h: nat, x: nat, y: nat, s: Sample): Sum4
    requires IsPicture(p, w, h) && w >= 1 && h >= 1
  {
    Quad(p, w, h, x + 2 * s.dx, y + 2 * s.dy).Times(s)
  }

  lemma HeavyWithin(p: Picture, w: nat, h: nat, x: nat, y: nat, s: Sample, k: nat, lo: nat, hi: nat)
    requires IsPicture(p, w, h) && w >= 1 && h >= 1 && k < 4 && Within(p, k, lo, hi)
    ensures Scaled(4 * lo, s) <= Heavy(p, w, h, x, y, s).At(k) <= Scaled(4 * hi, s)
  {
    var a, b := x + 2 * s.dx, y + 2 * s.dy;
    var q := Quad(p, w, h, a, b);
    assert Heavy(p, w, h, x, y, s) == q.Times(s);
    assert 4 * lo <= q.At(k) <= 4 * hi by {
      QuadWithin(p, w, h, a, b, k, lo, hi);
    }
    TimesWithin(q, s, k, 4 * lo, 4 * hi);
  }

  /** Four times the weighted sum of the samples around (x/2, y/2). */
  function SumQuads(p: Picture, w: nat, h: nat, x: nat, y: nat, ss: seq<Sample>): Sum4
    requires IsPicture(p, w, h) && w >= 1 && h >= 1
  {
    if ss == [] then Sum4(0, 0, 0, 0)
    else SumQuads(p, w, h, x, y, ss[..|ss| - 1]).Plus(Heavy(p, w, h, x, y, ss[|ss| - 1]))
  }

  lemma {:induction false} SumQuadsWithin(p: Picture, w: nat, h: nat, x: nat, y: nat, ss: seq<Sample>, k: nat,
                                         lo: nat, hi: nat)
    requires IsPicture(p, w, h) && w >= 1 && h >= 1 && k < 4 && Within(p, k, lo, hi)
    ensures WeightedSum(ss, 4 * lo) <= SumQuads(p, w, h, x, y, ss).At(k) <= WeightedSum(ss, 4 * hi)
  {
    if ss != [] {
      SumQuadsWithin(p, w, h, x, y, ss[..|ss| - 1], k, lo, hi);
      HeavyWithin(p, w, h, x, y, ss[|ss| - 1], k, lo, hi);
      SumQuads(p, w, h, x, y, ss[..|ss| - 1]).Channel(Heavy(p, w, h, x, y, ss[|ss| - 1]), k);
    }
  }

  lemma SumQuadsAppend(p: Picture, w: nat, h: nat, x: nat, y: nat, before: seq<Sample>, s: Sample)
    requires IsPicture(p, w, h) && w >= 1 && h >= 1
    ensures SumQuads(p, w, h, x, y, before + [s]) == SumQuads(p, w, h, x, y, before).Plus(Heavy(p, w, h, x, y, s))
    ensures WeightedSum(before + [s], 1) == WeightedSum(before, 1) + Weight(s)
  {
    assert (before + [s])[..|before|] == before;
  }

  /** The doubled picture's bytes as exact integer quotients. */
  function UpAt(p: Picture, w: nat, h: nat, x: nat, y: nat, o: int, k: nat): byte
    requires IsPicture(p, w, h) && w >= 1 && h >= 1 && k < 4
  {
    ByteRange(p, k);
    SumQuadsWithin(p, w, h, x, y, UpSamples(o), k, 0, 255);
    SumQuads(p, w, h, x, y, UpSamples(o)).At(k) / 48
  }

  function UpPx(p: Picture, w: nat, h: nat, x: nat, y: nat, o: int): Px
    requires IsPicture(p, w, h) && w >= 1 && h >= 1
  {
    Px(UpAt(p, w, h, x, y, o, 0), UpAt(p, w, h, x, y, o, 1), UpAt(p, w, h, x, y, o, 2), UpAt(p, w, h, x, y, o, 3))
  }

  function Up(p: Picture, w: nat, h: nat, w': nat, h': nat, o: int): (q: Picture)
    requires IsPicture(p, w, h) && w >= 1 && h >= 1
    ensures IsPicture(q, w', h')
    ensures forall x, y :: 0 <= x < w' && 0 <= y < h' ==> q[y][x] == UpPx(p, w, h, x, y, o)
  {
    seq(h', y requires 0 <= y < h' => seq(w', x requires 0 <= x < w' => UpPx(p, w, h, x, y, o)))
  }

  // ---- the real arithmetic of the C code

  /** The blend of four taps as the C code writes it. */
  method Blend(p00: byte, p10: byte, p01: byte, p11: byte, tx: real, ty: real) returns (v: real)
    requires (tx == 0.0 || tx == 0.5) && (ty == 0.0 || ty == 0.5)
    ensures v * 4.0 == Blend4(p00, p10, p01, p11, tx == 0.5, ty == 0.5) as real
  {
    var w00, w10, w01, w11 := (1.0 - tx) * (1.0 - ty), tx * (1.0 - ty), (1.0 - tx) * ty, tx * ty;
    if tx == 0.0 && ty == 0.0 {
      assert w00 == 1.0 && w10 == 0.0 && w01 == 0.0 && w11 == 0.0;
    } else if tx == 0.0 {
      assert w00 == 0.5 && w10 == 0.0 && w01 == 0.5 && w11 == 0.0;
    } else if ty == 0.0 {
      assert w00 == 0.5 && w10 == 0.5 && w01 == 0.0 && w11 == 0.0;
    } else {
      assert w00 == 0.25 && w10 == 0.25 && w01 == 0.25 && w11 == 0.25;
    }
    v := p00 as real * w00 + p10 as real * w10 + p01 as real * w01 + p11 as real * w11;
  }

  /** The integer part and fraction of a sample coordinate `x * 0.5 + d`. */
  method Split(x: nat, d: int) returns (x0: int, t: real)
    ensures x0 == (x + 2 * d) / 2
    ensures t == if (x + 2 * d) % 2 == 1 then 0.5 else 0.0
  {
    var sx := x as real * 0.5 + d as real;
    x0 := sx.Floor;
    var a := x + 2 * d;
    assert sx == a as real * 0.5;
    assert a == 2 * (a / 2) + a % 2;
    assert a as real == 2.0 * (a / 2) as real + (a % 2) as real;
    assert x0 == a / 2;
    t := sx - x0 as real;
  }

  /** The weighted sums of the four channels so far. */
  datatype Sums = Sums(s0: real, s1: real, s2: real, s3: real, weight: nat)

  ghost predicate Quarters(a: Sums, e: Sum4) {
    && a.s0 * 4.0 == e.n0 as real && a.s1 * 4.0 == e.n1 as real
    && a.s2 * 4.0 == e.n2 as real && a.s3 * 4.0 == e.n3 as real
  }

  /** The four taps around a sample and its fractions. */
  datatype Taps = Taps(p00: Px, p10: Px, p01: Px, p11: Px, tx: real, ty: real)

  ghost predicate Halves(t: Taps) { (t.tx == 0.0 || t.tx == 0.5) && (t.ty == 0.0 || t.ty == 0.5) }

  ghost function BlendOf(t: Taps): Sum4 { BlendPx(t.p00, t.p10, t.p01, t.p11, t.tx == 0.5, t.ty == 0.5) }

  method ReadTaps(src: array<byte>, m: Shape, x: nat, y: nat, s: Sample) returns (t: Taps)
    requires Holds(src.Length, m) && m.w >= 1 && m.h >= 1
    ensures Halves(t) && BlendOf(t) == Quad(PictureOf(src[..], m), m.w, m.h, x + 2 * s.dx, y + 2 * s.dy)
  {
    var x0, tx := Split(x, s.dx);
    var y0, ty := Split(y, s.dy);
    var x1, y1 := x0 + 1, y0 + 1;
    var p00 := ReadTap(src, m, Clamp(x0, m.w), Clamp(y0, m.h));
    var p10 := ReadTap(src, m, Clamp(x1, m.w), Clamp(y0, m.h));
    var p01 := ReadTap(src, m, Clamp(x0, m.w), Clamp(y1, m.h));
    var p11 := ReadTap(src, m, Clamp(x1, m.w), Clamp(y1, m.h));
    t := Taps(p00, p10, p01, p11, tx, ty);
  }

  /** One channel of one sample. */
  method AddChannel(sum: real, v: real, s: Sample, ghost n: nat, ghost quad: nat) returns (r: real)
    requires sum * 4.0 == n as real && v * 4.0 == quad as real
    ensures r * 4.0 == (n + Scaled(quad, s)) as real
  {
    r := sum + Times(v, s);
  }

  method AddTaps(t: Taps, s: Sample, a: Sums, ghost e: Sum4) returns (b: Sums)
    requires Halves(t) && Quarters(a, e)
    ensures Quarters(b, e.Plus(BlendOf(t).Times(s))) && b.weight == a.weight + Weight(s)
  {
    var v0 := Blend(t.p00.c0, t.p10.c0, t.p01.c0, t.p11.c0, t.tx, t.ty);
    var v1 := Blend(t.p00.c1, t.p10.c1, t.p01.c1, t.p11.c1, t.tx, t.ty);
    var v2 := Blend(t.p00.c2, t.p10.c2, t.p01.c2, t.p11.c2, t.tx, t.ty);
    var v3 := Blend(t.p00.c3, t.p10.c3, t.p01.c3, t.p11.c3, t.tx, t.ty);
    ghost var q := BlendOf(t);
    var s0 := AddChannel(a.s0, v0, s, e.n0, q.n0);
    var s1 := AddChannel(a.s1, v1, s, e.n1, q.n1);
    var s2 := AddChannel(a.s2, v2, s, e.n2, q.n2);
    var s3 := AddChannel(a.s3, v3, s, e.n3, q.n3);
    b := Sums(s0, s1, s2, s3, a.weight + Weight(s));
  }

  /** One sample, blended from four clamped taps and added with its weight. */
  method AddSample(src: array<byte>, m: Shape, x: nat, y: nat, s: Sample, a: Sums, ghost e: Sum4) returns (b: Sums)
    requires Holds(src.Length, m) && m.w >= 1 && m.h >= 1 && Quarters(a, e)
    ensures Quarters(b, e.Plus(Heavy(PictureOf(src[..], m), m.w, m.h, x, y, s))) && b.weight == a.weight + Weight(s)
  {
    var t := ReadTaps(src, m, x, y, s);
    b := AddTaps(t, s, a, e);
  }

  /** The clamp to a byte never acts: the stored value is the exact integer quotient. */
  method Store(sum: real, weight: nat, ghost quads: nat) returns (b: byte)
    requires weight == 12 && sum * 4.0 == quads as real && quads <= 48 * 255
    ensures b == quads / 48
  {
    var v := sum / 12.0;
    if v < 0.0 {
      v := 0.0;
    } else if v > 255.0 {
      v := 255.0;
    }
    assert quads == 48 * (quads / 48) + quads % 48;
    assert quads as real == 48.0 * (quads / 48) as real + (quads % 48) as real;
    b := v.Floor;
  }

  method StoreAll(a: Sums, ghost e: Sum4) returns (px: Px)
    requires Quarters(a, e) && a.weight == 12
    requires e.n0 <= 48 * 255 && e.n1 <= 48 * 255 && e.n2 <= 48 * 255 && e.n3 <= 48 * 255
    ensures px == Px(e.n0 / 48, e.n1 / 48, e.n2 / 48, e.n3 / 48)
  {
    var b0 := Store(a.s0, a.weight, e.n0);
    var b1 := Store(a.s1, a.weight, e.n1);
    var b2 := Store(a.s2, a.weight, e.n2);
    var b3 := Store(a.s3, a.weight, e.n3);
    px := Px(b0, b1, b2, b3);
  }

  method AddSamples(src: array<byte>, m: Shape, x: nat, y: nat, ss: seq<Sample>) returns (a: Sums)
    requires Holds(src.Length, m) && m.w >= 1 && m.h >= 1
    ensures Quarters(a, SumQuads(PictureOf(src[..], m), m.w, m.h, x, y, ss)) && a.weight == WeightedSum(ss, 1)
  {
    ghost var p := PictureOf(src[..], m);
    ghost var done: seq<Sample> := [];
    ghost var e := SumQuads(p, m.w, m.h, x, y, done);
    a := Sums(0.0, 0.0, 0.0, 0.0, 0);
    var i := 0;
    while i < |ss|
      invariant 0 <= i <= |ss| && done == ss[..i] && a.weight == WeightedSum(done, 1)
      invariant e == SumQuads(p, m.w, m.h, x, y, done) && Quarters(a, e)
    {
      a := AddSample(src, m, x, y, ss[i], a, e);
      SumQuadsAppend(p, m.w, m.h, x, y, done, ss[i]);
      e := e.Plus(Heavy(p, m.w, m.h, x, y, ss[i]));
      done := done + [ss[i]];
      i := i + 1;
    }
    assert done == ss;
  }

  lemma SumsFit(p: Picture, w: nat, h: nat, x: nat, y: nat, o: int)
    requires IsPicture(p, w, h) && w >= 1 && h >= 1
    ensures var e := SumQuads(p, w, h, x, y, UpSamples(o));
            e.n0 <= 48 * 255 && e.n1 <= 48 * 255 && e.n2 <= 48 * 255 && e.n3 <= 48 * 255
  {
    ByteRange(p, 0);
    ByteRange(p, 1);
    ByteRange(p, 2);
    ByteRange(p, 3);
    SumQuadsWithin(p, w, h, x, y, UpSamples(o), 0, 0, 255);
    SumQuadsWithin(p, w, h, x, y, UpSamples(o), 1, 0, 255);
    SumQuadsWithin(p, w, h, x, y, UpSamples(o), 2, 0, 255);
    SumQuadsWithin(p, w, h, x, y, UpSamples(o), 3, 0, 255);
  }

  method UpPixel(src: array<byte>, m: Shape, x: nat, y: nat, o: int) returns (px: Px)
    requires Holds(src.Length, m) && m.w >= 1 && m.h >= 1
    ensures px == UpPx(PictureOf(src[..], m), m.w, m.h, x, y, o)
  {
    ghost var p := PictureOf(src[..], m);
    var a := AddSamples(src, m, x, y, UpSamples(o));
    SumsFit(p, m.w, m.h, x, y, o);
    px := StoreAll(a, SumQuads(p, m.w, m.h, x, y, UpSamples(o)));
  }

  // ---- whole pictures

  lemma DownWithin(p: Picture, w: nat, h: nat, w': nat, h': nat, o: int, k: nat, lo: nat, hi: nat)
    requires IsPicture(p, w, h) && w >= 1 && h >= 1 && k < 4 && Within(p, k, lo, hi)
    ensures Within(Down(p, w, h, w', h', o), k, lo, hi)
  {
    var q: Picture := Down(p, w, h, w', h', o);
    forall y: int, x: int | 0 <= y < h' && 0 <= x < w'
      ensures lo <= q[y][x].At(k) <= hi
    {
      SumTapsWithin(p, w, h, DownCoords(x, y, o), k, lo, hi);
      assert q[y][x].At(k) == DownAt(p, w, h, x, y, o, k);
    }
    assert forall y :: 0 <= y < |q| ==> RowWithin(q[y], k, lo, hi);
  }

  lemma UpWithin(p: Picture, w: nat, h: nat, w': nat, h': nat, o: int, k: nat, lo: nat, hi: nat)
    requires IsPicture(p, w, h) && w >= 1 && h >= 1 && k < 4 && Within(p, k, lo, hi)
    ensures Within(Up(p, w, h, w', h', o), k, lo, hi)
  {
    var q: Picture := Up(p, w, h, w', h', o);
    forall y: int, x: int | 0 <= y < h' && 0 <= x < w'
      ensures lo <= q[y][x].At(k) <= hi
    {
      SumQuadsWithin(p, w, h, x, y, UpSamples(o), k, lo, hi);
      assert q[y][x].At(k) == UpAt(p, w, h, x, y, o, k);
    }
    assert forall y :: 0 <= y < |q| ==> RowWithin(q[y], k, lo, hi);
  }

  /** A side of the next smaller level. */
  function Half(n: nat): nat { if n / 2 < 1 then 1 else n / 2 }

  /** The whole pyramid. */
  function Kawase(p: Picture, w: nat, h: nat): (q: Picture)
    requires IsPicture(p, w, h) && w >= 1 && h >= 1
    ensures IsPicture(q, w, h)
  {
    var w1, h1, w2, h2 := Half(w), Half(h), Half(Half(w)), Half(Half(h));
    var l1 := Down(p, w, h, w1, h1, 1);
    var l2 := Down(l1, w1, h1, w2, h2, 1);
    var u1 := Up(l2, w2, h2, w1, h1, 1);
    Up(u1, w1, h1, w, h, 1)
  }

  /** The blur keeps every channel within the range of the input, for every size. */
  lemma KawaseWithin(p: Picture, w: nat, h: nat, k: nat, lo: nat, hi: nat)
    requires IsPicture(p, w, h) && w >= 1 && h >= 1 && k < 4 && Within(p, k, lo, hi)
    ensures Within(Kawase(p, w, h), k, lo, hi)
  {
    var w1, h1, w2, h2 := Half(w), Half(h), Half(Half(w)), Half(Half(h));
    var l1 := Down(p, w, h, w1, h1, 1);
    var l2 := Down(l1, w1, h1, w2, h2, 1);
    DownWithin(p, w, h, w1, h1, 1, k, lo, hi);
    DownWithin(l1, w1, h1, w2, h2, 1, k, lo, hi);
    UpWithin(l2, w2, h2, w1, h1, 1, k, lo, hi);
    UpWithin(Up(l2, w2, h2, w1, h1, 1), w1, h1, w, h, 1, k, lo, hi);
  }

  lemma KawaseConstant(p: Picture, w: nat, h: nat, c: Px)
    requires IsPicture(p, w, h) && w >= 1 && h >= 1 && Constant(p, c)
    ensures Kawase(p, w, h) == p
  {
    FixedIsConstant(p, c);
    forall k | 0 <= k < 4
      ensures Within(Kawase(p, w, h), k, c.At(k), c.At(k))
    {
      KawaseWithin(p, w, h, k, c.At(k), c.At(k));
    }
    FixedIsConstant(Kawase(p, w, h), c);
    assert forall y :: 0 <= y < h ==> Kawase(p, w, h)[y] == p[y];
  }

  // ---- the loops over the buffers

  method Downsample(src: array<byte>, m: Shape, dst: array<byte>, n: Shape, o: int)
    requires src != dst && Holds(src.Length, m) && Holds(dst.Length, n) && m.w >= 1 && m.h >= 1
    modifies dst
    ensures PictureOf(dst[..], n) == Down(PictureOf(src[..], m), m.w, m.h, n.w, n.h, o)
    ensures PaddingKept(old(dst[..]), dst[..], n)
  {
    ghost var p, start := PictureOf(src[..], m), dst[..];
    ghost var want := Down(p, m.w, m.h, n.w, n.h, o);
    for y := 0 to n.h
      invariant PictureOf(src[..], m) == p
      invariant RowsAre(dst[..], n, want, y) && PaddingKept(start, dst[..], n)
    {
      ghost var was := dst[..];
      RowFits(dst.Length, n, y);
      for x := 0 to n.w
        invariant PictureOf(src[..], m) == p
        invariant Written(dst[..], RowAt(n, y), want[y], x) && SameOutside(was, dst[..], RowAt(n, y))
      {
        var px := DownPixel(src, m, x, y, o);
        PutPixel(dst, Offset(Offset(0, n.stride, y), 4, x), px, was, RowAt(n, y), want[y], x);
      }
      RowsStep(was, dst[..], n, want, y);
      PaddingStep(start, was, dst[..], n, y);
    }
    RowsArePicture(dst[..], n, want);
  }

  method Upsample(src: array<byte>, m: Shape, dst: array<byte>, n: Shape, o: int)
    requires src != dst && Holds(src.Length, m) && Holds(dst.Length, n) && m.w >= 1 && m.h >= 1
    modifies dst
    ensures PictureOf(dst[..], n) == Up(PictureOf(src[..], m), m.w, m.h, n.w, n.h, o)
    ensures PaddingKept(old(dst[..]), dst[..], n)
  {
    ghost var p, start := PictureOf(src[..], m), dst[..];
    ghost var want := Up(p, m.w, m.h, n.w, n.h, o);
    for y := 0 to n.h
      invariant PictureOf(src[..], m) == p
      invariant RowsAre(dst[..], n, want, y) && PaddingKept(start, dst[..], n)
    {
      ghost var was := dst[..];
      RowFits(dst.Length, n, y);
      for x := 0 to n.w
        invariant PictureOf(src[..], m) == p
        invariant Written(dst[..], RowAt(n, y), want[y], x) && SameOutside(was, dst[..], RowAt(n, y))
      {
        var px := UpPixel(src, m, x, y, o);
        PutPixel(dst, Offset(Offset(0, n.stride, y), 4, x), px, was, RowAt(n, y), want[y], x);
      }
      RowsStep(was, dst[..], n, want, y);
      PaddingStep(start, was, dst[..], n, y);
    }
    RowsArePicture(dst[..], n, want);
  }

  /** A buffer for a level, without row padding. */
  method NewLevel(w: nat, h: nat) returns (data: array<byte>, m: Shape)
    ensures m == Shape(w, h, 4 * w) && Holds(data.Length, m) && fresh(data)
  {
    m := Shape(w, h, 4 * w);
    MulMonotone(0, h, 4 * w);
    data := new byte[m.stride * m.h];
    if h > 0 {
      assert (h - 1) * m.stride + m.stride == m.stride * h;
    }
  }

  /** apply_dual_kawase_blur, after the alpha channel has been added: the result has the size of
      the input and its own buffer. */
  method ApplyDualKawaseBlur(rgba: array<byte>, m: Shape) returns (out: array<byte>, n: Shape)
    requires m.w >= 1 && m.h >= 1 && Holds(rgba.Length, m)
    ensures n == Shape(m.w, m.h, 4 * m.w) && Holds(out.Length, n) && fresh(out)
    ensures PictureOf(out[..], n) == Kawase(PictureOf(rgba[..], m), m.w, m.h)
  {
    var d1, m1 := NewLevel(Half(m.w), Half(m.h));
    Downsample(rgba, m, d1, m1, 1);
    var d2, m2 := NewLevel(Half(m1.w), Half(m1.h));
    Downsample(d1, m1, d2, m2, 1);
    var u1, k1 := NewLevel(m1.w, m1.h);
    Upsample(d2, m2, u1, k1, 1);
    out, n := NewLevel(m.w, m.h);
    Upsample(u1, k1, out, n, 1);
  }
}
