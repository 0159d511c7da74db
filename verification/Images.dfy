/** Buffers of four-byte pixels and the pictures they hold. */
module Images {
  import opened Bytes

  /** A pixel's four bytes in memory order. */
  datatype Px = Px(c0: byte, c1: byte, c2: byte, c3: byte) {
    function At(k: nat): byte
      requires k < 4
    {
      if k == 0 then c0 else if k == 1 then c1 else if k == 2 then c2 else c3
    }
  }

  /** The channels are numbered in memory order. */
  lemma ChannelOrder(px: Px)
    ensures px == Px(px.At(0), px.At(1), px.At(2), px.At(3))
  {
  }

  /** Rows of pixels. */
  type Picture = seq<seq<Px>>

  ghost predicate IsPicture(p: Picture, w: nat, h: nat) {
    |p| == h && forall y :: 0 <= y < h ==> |p[y]| == w
  }

  // ---- pixels of one line

  function Offset(base: nat, step: nat, i: nat): nat {
    MulMonotone(0, i, step);
    base + i * step
  }

  /** Where the `n` pixels of a line start, `step` bytes apart from `base`. */
  function Offsets(base: nat, step: nat, n: nat): (at: seq<nat>)
    ensures |at| == n
    ensures forall i :: 0 <= i < n ==> at[i] == Offset(base, step, i)
  {
    seq(n, i requires 0 <= i < n => Offset(base, step, i))
  }

  /** The pixels lie in a buffer of `length` bytes and do not overlap. */
  ghost predicate Fits(length: nat, at: seq<nat>) {
    && (forall i :: 0 <= i < |at| ==> at[i] + 4 <= length)
    && (forall i, j :: 0 <= i < j < |at| ==> at[i] + 4 <= at[j])
  }

  lemma OffsetsFit(length: nat, base: nat, step: nat, n: nat)
    requires step >= 4 && (n > 0 ==> base + (n - 1) * step + 4 <= length)
    ensures Fits(length, Offsets(base, step, n))
  {
    var at := Offsets(base, step, n);
    forall i | 0 <= i < n
      ensures at[i] + 4 <= length
    {
      MulMonotone(i, n - 1, step);
    }
    forall i, j | 0 <= i < j < n
      ensures at[i] + 4 <= at[j]
    {
      MulMonotone(i + 1, j, step);
      assert (i + 1) * step == i * step + step;
    }
  }

  function PxAt(data: seq<byte>, p: nat): Px
    requires p + 4 <= |data|
  {
    Px(data[p], data[p + 1], data[p + 2], data[p + 3])
  }

  /** The pixels of a line. */
  function Line(data: seq<byte>, at: seq<nat>): (s: seq<Px>)
    requires forall i :: 0 <= i < |at| ==> at[i] + 4 <= |data|
    ensures |s| == |at|
    ensures forall i :: 0 <= i < |at| ==> s[i] == PxAt(data, at[i])
  {
    seq(|at|, i requires 0 <= i < |at| => PxAt(data, at[i]))
  }

  /** The first `x` pixels of a line are those of `want`. */
  ghost predicate Written(data: seq<byte>, at: seq<nat>, want: seq<Px>, x: nat) {
    && Fits(|data|, at) && |want| == |at| && x <= |at|
    && forall i :: 0 <= i < x ==> PxAt(data, at[i]) == want[i]
  }

  predicate InPixel(j: int, p: int) { p <= j < p + 4 }

  ghost predicate InLine(j: int, at: seq<nat>) {
    exists i :: 0 <= i < |at| && InPixel(j, at[i])
  }

  /** Bytes outside the line are as they were. */
  ghost predicate SameOutside(was: seq<byte>, data: seq<byte>, at: seq<nat>) {
    && |was| == |data|
    && forall j :: 0 <= j < |data| && data[j] != was[j] ==> InLine(j, at)
  }

  /** Write pixel `x` of a line. */
  method PutPixel(dst: array<byte>, p: nat, px: Px, ghost was: seq<byte>, ghost at: seq<nat>,
                  ghost want: seq<Px>, ghost x: nat)
    requires Written(dst[..], at, want, x) && SameOutside(was, dst[..], at)
    requires x < |at| && p == at[x] && px == want[x]
    modifies dst
    ensures Written(dst[..], at, want, x + 1) && SameOutside(was, dst[..], at)
  {
    ghost var before := dst[..];
    dst[p], dst[p + 1], dst[p + 2], dst[p + 3] := px.c0, px.c1, px.c2, px.c3;
    forall i | 0 <= i < x
      ensures PxAt(dst[..], at[i]) == want[i]
    {
      assert PxAt(before, at[i]) == want[i];
    }
    forall j | 0 <= j < dst.Length && dst[j] != was[j]
      ensures InLine(j, at)
    {
      if before[j] == was[j] {
        assert InPixel(j, at[x]);
      }
    }
  }

  // ---- the image in a buffer

  /** An image of `w` by `h` pixels with rows `stride` bytes apart. */
  datatype Shape = Shape(w: nat, h: nat, stride: nat)

  /** The last row may end with its last pixel. */
  ghost predicate Holds(length: nat, m: Shape) {
    && m.stride >= 4 * m.w
    && (m.w > 0 && m.h > 0 ==> (m.h - 1) * m.stride + 4 * m.w <= length)
  }

  function RowAt(m: Shape, y: nat): seq<nat> { Offsets(Offset(0, m.stride, y), 4, m.w) }

  lemma RowFits(length: nat, m: Shape, y: nat)
    requires Holds(length, m) && y < m.h
    ensures Fits(length, RowAt(m, y))
  {
    MulMonotone(y, m.h - 1, m.stride);
    OffsetsFit(length, Offset(0, m.stride, y), 4, m.w);
  }

  ghost predicate Disjoint(a: seq<nat>, b: seq<nat>) {
    forall i, j :: 0 <= i < |a| && 0 <= j < |b| ==> a[i] + 4 <= b[j] || b[j] + 4 <= a[i]
  }

  lemma PixelsApart(m: Shape, x: nat, y: nat, x': nat, y': nat)
    requires x < m.w && x' < m.w && m.stride >= 4 * m.w && (y < y' || (y == y' && x < x'))
    ensures 4 * x + y * m.stride + 4 <= 4 * x' + y' * m.stride
  {
    if y < y' {
      MulMonotone(y + 1, y', m.stride);
      assert (y + 1) * m.stride == y * m.stride + m.stride;
    }
  }

  lemma RowsDisjoint(m: Shape, y: nat, y': nat)
    requires m.stride >= 4 * m.w && y != y'
    ensures Disjoint(RowAt(m, y), RowAt(m, y'))
  {
    forall i, j | 0 <= i < m.w && 0 <= j < m.w
      ensures RowAt(m, y)[i] + 4 <= RowAt(m, y')[j] || RowAt(m, y')[j] + 4 <= RowAt(m, y)[i]
    {
      if y < y' { PixelsApart(m, i, y, j, y'); } else { PixelsApart(m, j, y', i, y); }
    }
  }

  lemma NotInLine(at: seq<nat>, other: seq<nat>, i: nat, k: nat)
    requires Disjoint(at, other) && i < |other| && k < 4
    ensures !InLine(other[i] + k, at)
  {
    forall j | 0 <= j < |at|
      ensures !InPixel(other[i] + k, at[j])
    {
    }
  }

  lemma OtherLineKept(was: seq<byte>, data: seq<byte>, at: seq<nat>, other: seq<nat>, want: seq<Px>)
    requires SameOutside(was, data, at) && Disjoint(at, other) && Written(was, other, want, |other|)
    ensures Written(data, other, want, |other|)
  {
    forall i | 0 <= i < |other|
      ensures PxAt(data, other[i]) == want[i]
    {
      assert PxAt(was, other[i]) == want[i];
      NotInLine(at, other, i, 0);
      NotInLine(at, other, i, 1);
      NotInLine(at, other, i, 2);
      NotInLine(at, other, i, 3);
      assert data[other[i] + 0] == was[other[i] + 0] && data[other[i] + 1] == was[other[i] + 1];
      assert data[other[i] + 2] == was[other[i] + 2] && data[other[i] + 3] == was[other[i] + 3];
    }
  }

  /** The first `n` rows of the image are those of `want`. */
  ghost predicate RowsAre(data: seq<byte>, m: Shape, want: Picture, n: nat) {
    n <= m.h == |want| && forall y :: 0 <= y < n ==> Written(data, RowAt(m, y), want[y], m.w)
  }

  lemma RowsStep(was: seq<byte>, data: seq<byte>, m: Shape, want: Picture, y: nat)
    requires Holds(|data|, m) && y < m.h == |want|
    requires RowsAre(was, m, want, y) && SameOutside(was, data, RowAt(m, y))
    requires Written(data, RowAt(m, y), want[y], m.w)
    ensures RowsAre(data, m, want, y + 1)
  {
    forall v | 0 <= v < y
      ensures Written(data, RowAt(m, v), want[v], m.w)
    {
      RowsDisjoint(m, y, v);
      OtherLineKept(was, data, RowAt(m, y), RowAt(m, v), want[v]);
    }
  }

  ghost function RowOf(data: seq<byte>, m: Shape, y: nat): (s: seq<Px>)
    requires Holds(|data|, m) && y < m.h
    ensures Fits(|data|, RowAt(m, y)) && |s| == m.w
  {
    RowFits(|data|, m, y);
    Line(data, RowAt(m, y))
  }

  /** The picture a buffer holds. */
  ghost function PictureOf(data: seq<byte>, m: Shape): (p: Picture)
    requires Holds(|data|, m)
    ensures IsPicture(p, m.w, m.h)
    ensures forall y :: 0 <= y < m.h ==> p[y] == RowOf(data, m, y)
  {
    seq(m.h, y requires 0 <= y < m.h => RowOf(data, m, y))
  }

  /** Pixel (x, y) is the four bytes at y * stride + 4 * x. */
  lemma PixelAt(data: seq<byte>, m: Shape, x: nat, y: nat)
    requires Holds(|data|, m) && x < m.w && y < m.h
    ensures var p := y * m.stride + 4 * x;
      && 0 <= p && p + 4 <= |data|
      && PictureOf(data, m)[y][x] == Px(data[p], data[p + 1], data[p + 2], data[p + 3])
  {
    MulMonotone(0, y, m.stride);
    RowFits(|data|, m, y);
    assert RowAt(m, y)[x] == Offset(Offset(0, m.stride, y), 4, x) == y * m.stride + 4 * x;
    assert PictureOf(data, m)[y] == RowOf(data, m, y);
  }

  lemma RowsArePicture(data: seq<byte>, m: Shape, want: Picture)
    requires Holds(|data|, m) && RowsAre(data, m, want, m.h)
    ensures PictureOf(data, m) == want
  {
    forall y | 0 <= y < m.h
      ensures PictureOf(data, m)[y] == want[y]
    {
      assert Written(data, RowAt(m, y), want[y], m.w);
      assert RowOf(data, m, y) == want[y];
    }
  }

  ghost predicate InImage(j: int, m: Shape) {
    exists y: nat :: y < m.h && InLine(j, RowAt(m, y))
  }

  /** Bytes that belong to no pixel, such as row padding, are as they were. */
  ghost predicate PaddingKept(was: seq<byte>, data: seq<byte>, m: Shape) {
    |was| == |data| && forall j :: 0 <= j < |data| && data[j] != was[j] ==> InImage(j, m)
  }

  lemma PaddingStep(start: seq<byte>, was: seq<byte>, data: seq<byte>, m: Shape, y: nat)
    requires PaddingKept(start, was, m) && SameOutside(was, data, RowAt(m, y)) && y < m.h
    ensures PaddingKept(start, data, m)
  {
  }

  lemma PaddingTrans(a: seq<byte>, b: seq<byte>, c: seq<byte>, m: Shape)
    requires PaddingKept(a, b, m) && PaddingKept(b, c, m)
    ensures PaddingKept(a, c, m)
  {
  }

  // ---- ranges

  ghost predicate RowWithin(s: seq<Px>, k: nat, lo: nat, hi: nat)
    requires k < 4
  {
    forall x :: 0 <= x < |s| ==> lo <= s[x].At(k) <= hi
  }

  /** Channel `k` of every pixel lies between `lo` and `hi`. */
  ghost predicate Within(p: Picture, k: nat, lo: nat, hi: nat)
    requires k < 4
  {
    forall y :: 0 <= y < |p| ==> RowWithin(p[y], k, lo, hi)
  }

  ghost predicate Constant(p: Picture, c: Px) {
    forall y :: 0 <= y < |p| ==> forall x :: 0 <= x < |p[y]| ==> p[y][x] == c
  }

  /** A picture whose four channels are each fixed has one colour. */
  lemma FixedIsConstant(p: Picture, c: Px)
    ensures Constant(p, c) <==> forall k :: 0 <= k < 4 ==> Within(p, k, c.At(k), c.At(k))
  {
    if forall k :: 0 <= k < 4 ==> Within(p, k, c.At(k), c.At(k)) {
      forall y, x | 0 <= y < |p| && 0 <= x < |p[y]|
        ensures p[y][x] == c
      {
        assert Within(p, 0, c.At(0), c.At(0)) && RowWithin(p[y], 0, c.At(0), c.At(0));
        assert Within(p, 1, c.At(1), c.At(1)) && RowWithin(p[y], 1, c.At(1), c.At(1));
        assert Within(p, 2, c.At(2), c.At(2)) && RowWithin(p[y], 2, c.At(2), c.At(2));
        assert Within(p, 3, c.At(3), c.At(3)) && RowWithin(p[y], 3, c.At(3), c.At(3));
        assert p[y][x].At(0) == c.At(0) && p[y][x].At(1) == c.At(1);
        assert p[y][x].At(2) == c.At(2) && p[y][x].At(3) == c.At(3);
      }
    }
  }
}
