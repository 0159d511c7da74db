/** The conversion of a pixbuf with alpha to a premultiplied cairo image (aetherlock/src/cairo.c:80-121),
    on a little-endian machine. */
module Premultiply {
  import opened Bytes
  import opened Images

  /** `color * alpha / 255`, rounded to the nearest integer. */
  function Rounded(product: nat): nat { (2 * product + 255) / 510 }

  lemma Nearest(product: nat)
    ensures 2 * product - 255 <= 510 * Rounded(product) <= 2 * product + 255
  {
  }

  /** The macro: an addition and two shifts. */
  function Shifted(product: nat): nat {
    var z := product + 0x80;
    (z + z / 0x100) / 0x100
  }

  /** The shifts round every product of two bytes, and one more, correctly. */
  lemma ShiftedIsRounded(product: nat)
    requires product <= 0xfe02
    ensures Shifted(product) == Rounded(product) <= 255
  {
    var q := Rounded(product);
    Nearest(product);
    var s := product + 128 - 255 * q;
    assert 1 <= s <= 255;
    var z := product + 128;
    assert z == 256 * q + s - q;
    if s >= q {
      assert z / 256 == q;
    } else {
      assert z / 256 == q - 1;
    }
  }

  lemma ByteProduct(color: byte, alpha: byte)
    ensures 0 <= color * alpha <= 255 * alpha && color * alpha <= 0xfe01 && Rounded(color * alpha) <= alpha
  {
    MulMonotone(0, color, alpha);
    MulMonotone(color, 255, alpha);
  }

  function Premul(color: byte, alpha: byte): (x: byte)
    ensures x <= alpha
  {
    ByteProduct(color, alpha);
    ShiftedIsRounded(color * alpha);
    Rounded(color * alpha)
  }

  /** 255 times how far `v` is from the exact quotient. */
  function Distance(v: int, product: nat): nat {
    var d := 255 * v - product;
    if d < 0 then -d else d
  }

  lemma NoneNearer(product: nat, v: int)
    ensures Distance(Rounded(product), product) <= Distance(v, product)
  {
    Nearest(product);
    var x := Rounded(product);
    if v > x {
      assert 255 * v >= 255 * x + 255;
    } else if v < x {
      assert 255 * v + 255 <= 255 * x;
    }
  }

  /** No integer is nearer to `color * alpha / 255`, no channel exceeds alpha, and opaque pixels
      keep their colour. */
  lemma PremulMeaning(color: byte, alpha: byte, v: int)
    ensures 0 <= color * alpha && Distance(Premul(color, alpha), color * alpha) <= Distance(v, color * alpha)
    ensures Premul(color, alpha) <= alpha && (alpha == 255 ==> Premul(color, alpha) == color)
  {
    ByteProduct(color, alpha);
    NoneNearer(color * alpha, v);
  }

  /** Red, green, blue, alpha to premultiplied blue, green, red, alpha. */
  function PremulPx(p: Px): Px {
    Px(Premul(p.c2, p.c3), Premul(p.c1, p.c3), Premul(p.c0, p.c3), p.c3)
  }

  function Premultiplied(p: Picture): (q: Picture)
    ensures |q| == |p| && forall y :: 0 <= y < |p| ==>
      |q[y]| == |p[y]| && forall x :: 0 <= x < |p[y]| ==> q[y][x] == PremulPx(p[y][x])
  {
    seq(|p|, y requires 0 <= y < |p| => seq(|p[y]|, x requires 0 <= x < |p[y]| => PremulPx(p[y][x])))
  }

  method PremulAlpha(a: byte, b: byte) returns (x: byte)
    ensures x == Premul(a, b)
  {
    ByteProduct(a, b);
    ShiftedIsRounded(a * b);
    var z := a as int * b as int + 0x80;
    x := (z + z / 0x100) / 0x100;
  }

  method ConvertRow(gdkpix: array<byte>, m: Shape, cpix: array<byte>, n: Shape, y: nat, ghost want: seq<Px>)
    requires gdkpix != cpix && Holds(gdkpix.Length, m) && Holds(cpix.Length, n) && m.w == n.w && y < m.h && y < n.h
    requires |want| == n.w
    requires forall x :: 0 <= x < n.w ==> want[x] == PremulPx(PictureOf(gdkpix[..], m)[y][x])
    modifies cpix
    ensures Written(cpix[..], RowAt(n, y), want, n.w) && SameOutside(old(cpix[..]), cpix[..], RowAt(n, y))
  {
    ghost var was := cpix[..];
    RowFits(gdkpix.Length, m, y);
    RowFits(cpix.Length, n, y);
    var gp, cp := Offset(0, m.stride, y), Offset(0, n.stride, y);
    var end := gp + 4 * m.w;
    ghost var x := 0;
    while gp < end
      invariant x <= n.w && gp == Offset(0, m.stride, y) + 4 * x && cp == Offset(0, n.stride, y) + 4 * x
      invariant Written(cpix[..], RowAt(n, y), want, x) && SameOutside(was, cpix[..], RowAt(n, y))
    {
      assert gp == RowAt(m, y)[x] && cp == RowAt(n, y)[x];
      assert PictureOf(gdkpix[..], m)[y][x] == PxAt(gdkpix[..], gp);
      var z1 := PremulAlpha(gdkpix[gp + 2], gdkpix[gp + 3]);
      var z2 := PremulAlpha(gdkpix[gp + 1], gdkpix[gp + 3]);
      var z3 := PremulAlpha(gdkpix[gp], gdkpix[gp + 3]);
      PutPixel(cpix, cp, Px(z1, z2, z3, gdkpix[gp + 3]), was, RowAt(n, y), want, x);
      gp, cp, x := gp + 4, cp + 4, x + 1;
    }
  }

  /** The loop over the rows of two buffers with strides of their own. */
  method Convert(gdkpix: array<byte>, m: Shape, cpix: array<byte>, n: Shape)
    requires gdkpix != cpix && Holds(gdkpix.Length, m) && Holds(cpix.Length, n) && m.w == n.w && m.h == n.h
    modifies cpix
    ensures PictureOf(cpix[..], n) == Premultiplied(PictureOf(gdkpix[..], m))
    ensures PaddingKept(old(cpix[..]), cpix[..], n)
  {
    ghost var p, start := PictureOf(gdkpix[..], m), cpix[..];
    ghost var want := Premultiplied(p);
    for y := 0 to n.h
      invariant PictureOf(gdkpix[..], m) == p
      invariant RowsAre(cpix[..], n, want, y) && PaddingKept(start, cpix[..], n)
    {
      ghost var was := cpix[..];
      ConvertRow(gdkpix, m, cpix, n, y, want[y]);
      RowsStep(was, cpix[..], n, want, y);
      PaddingStep(start, was, cpix[..], n, y);
    }
    RowsArePicture(cpix[..], n, want);
  }

  /** The result is a premultiplied image, blue first: each colour is within half a unit of
      color * alpha / 255, none exceeds its alpha, and the alphas are those of the pixbuf. */
  lemma ConvertedIsPremultiplied(p: Picture, y: nat, x: nat)
    requires y < |p| && x < |p[y]|
    ensures var q := Premultiplied(p)[y][x];
      q.c0 <= q.c3 && q.c1 <= q.c3 && q.c2 <= q.c3 && q.c3 == p[y][x].c3
    ensures var a, q := p[y][x], Premultiplied(p)[y][x];
      && -255 <= 2 * (255 * q.c0 - a.c2 * a.c3) <= 255
      && -255 <= 2 * (255 * q.c1 - a.c1 * a.c3) <= 255
      && -255 <= 2 * (255 * q.c2 - a.c0 * a.c3) <= 255
    ensures p[y][x].c3 == 255 ==> Premultiplied(p)[y][x] == Px(p[y][x].c2, p[y][x].c1, p[y][x].c0, 255)
  {
    PremulMeaning(p[y][x].c0, p[y][x].c3, 0);
    PremulMeaning(p[y][x].c1, p[y][x].c3, 0);
    PremulMeaning(p[y][x].c2, p[y][x].c3, 0);
    Nearest(p[y][x].c0 * p[y][x].c3);
    Nearest(p[y][x].c1 * p[y][x].c3);
    Nearest(p[y][x].c2 * p[y][x].c3);
  }
}
