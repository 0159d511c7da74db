/** The lock screen's background blur (aetherlock/src/main.c:41-109): three passes of a running
    mean over rows and then columns, in place on four-byte pixels. */
module BoxBlur {
  import opened Bytes
  import opened Images

  /** The largest side of an image surface. */
  const MAX_SIDE := 32767

  // ---- the running mean of one line

  function Sum(s: seq<Px>, k: nat): nat
    requires k < 4
  {
    if s == [] then 0 else Sum(s[..|s| - 1], k) + s[|s| - 1].At(k)
  }

  function Lo(x: int, r: nat): nat { if x - r < 0 then 0 else x - r }
  function Hi(x: int, r: nat, n: nat): nat
    requires x >= 0
  {
    if x + r + 2 > n then n else x + r + 2
  }

  lemma {:induction false} SumRange(s: seq<Px>, k: nat, lo: nat, hi: nat)
    requires k < 4 && forall i :: 0 <= i < |s| ==> lo <= s[i].At(k) <= hi
    ensures lo * |s| <= Sum(s, k) <= hi * |s|
  {
    if s != [] {
      SumRange(s[..|s| - 1], k, lo, hi);
      assert lo * |s| == lo * (|s| - 1) + lo;
      assert hi * |s| == hi * (|s| - 1) + hi;
    }
  }

  lemma DivRange(total: nat, n: nat, lo: nat, hi: nat)
    requires n > 0 && lo * n <= total <= hi * n
    ensures lo <= total / n <= hi
  {
    var q := total / n;
    assert total == q * n + total % n;
    if q < lo {
      MulMonotone(q + 1, lo, n);
    } else if q > hi {
      MulMonotone(hi + 1, q, n);
    }
  }

  /** The floored mean of the samples from `x - r` to `x + r + 1`, as far as they exist. The
      window reaches one farther to the right: the next sample enters before the output is
      written. */
  function Mean(s: seq<Px>, k: nat, r: nat, x: nat): (m: byte)
    requires x < |s| && k < 4
  {
    var w := s[Lo(x, r)..Hi(x, r, |s|)];
    SumRange(w, k, 0, 255);
    DivRange(Sum(w, k), |w|, 0, 255);
    Sum(w, k) / |w|
  }

  lemma {:induction false} SumTail(s: seq<Px>, k: nat)
    requires s != [] && k < 4
    ensures Sum(s, k) == s[0].At(k) + Sum(s[1..], k)
  {
    if |s| > 1 {
      SumTail(s[..|s| - 1], k);
      assert s[..|s| - 1][1..] == s[1..][..|s| - 2];
    }
  }

  /** The mean stays between any bounds of the line. */
  lemma MeanRange(s: seq<Px>, k: nat, r: nat, x: nat, lo: nat, hi: nat)
    requires x < |s| && k < 4 && RowWithin(s, k, lo, hi)
    ensures lo <= Mean(s, k, r, x) <= hi
  {
    var w := s[Lo(x, r)..Hi(x, r, |s|)];
    SumRange(w, k, lo, hi);
    DivRange(Sum(w, k), |w|, lo, hi);
  }

  /** The output of a pass over one line: means of the colours, an opaque fourth channel. */
  function BlurSeq(s: seq<Px>, r: nat): (m: seq<Px>)
    ensures |m| == |s|
    ensures forall x :: 0 <= x < |s| ==> m[x] == Px(Mean(s, 0, r, x), Mean(s, 1, r, x), Mean(s, 2, r, x), 255)
  {
    seq(|s|, x requires 0 <= x < |s| => Px(Mean(s, 0, r, x), Mean(s, 1, r, x), Mean(s, 2, r, x), 255))
  }

  // ---- the window, sample by sample

  /** The sum and the number of those of the first `n` samples whose index lies between `a` and `b`. */
  function WindowTotal(s: seq<Px>, k: nat, n: nat, a: int, b: int): nat
    requires n <= |s| && k < 4
  {
    if n == 0 then 0 else WindowTotal(s, k, n - 1, a, b) + if a <= n - 1 <= b then s[n - 1].At(k) else 0
  }

  function WindowCount(n: nat, a: int, b: int): nat {
    if n == 0 then 0 else WindowCount(n - 1, a, b) + if a <= n - 1 <= b then 1 else 0
  }

  lemma {:induction false} WindowIsSlice(s: seq<Px>, k: nat, n: nat, a: int, b: int)
    requires n <= |s| && k < 4 && a <= b + 1 && 0 <= b + 1
    ensures var lo, hi := if a < 0 then 0 else if a < n then a else n, if b + 1 < n then b + 1 else n;
            lo <= hi && WindowTotal(s, k, n, a, b) == Sum(s[lo..hi], k) && WindowCount(n, a, b) == hi - lo
  {
    if n > 0 {
      WindowIsSlice(s, k, n - 1, a, b);
      if a <= n - 1 <= b {
        var lo := if a < 0 then 0 else a;
        assert s[lo..n][..n - 1 - lo] == s[lo..n - 1];
      }
    }
  }

  lemma MeanIsWindow(s: seq<Px>, k: nat, r: nat, x: nat)
    requires x < |s| && k < 4
    ensures var n, a, b := |s|, x - r, x + r + 1;
            WindowCount(n, a, b) > 0 && Mean(s, k, r, x) == WindowTotal(s, k, n, a, b) / WindowCount(n, a, b)
  {
    WindowIsSlice(s, k, |s|, x - r, x + r + 1);
  }

  /** Each colour of an output is the floored mean of the samples from x - r to x + r + 1 that
      exist, of which there is at least one, and the output is opaque. */
  lemma BlurIsMean(s: seq<Px>, r: nat, x: nat)
    requires x < |s|
    ensures var n, a, b := |s|, x - r, x + r + 1; var count := WindowCount(n, a, b);
      && count > 0
      && BlurSeq(s, r)[x].c0 == WindowTotal(s, 0, n, a, b) / count
      && BlurSeq(s, r)[x].c1 == WindowTotal(s, 1, n, a, b) / count
      && BlurSeq(s, r)[x].c2 == WindowTotal(s, 2, n, a, b) / count
      && BlurSeq(s, r)[x].c3 == 255
  {
    MeanIsWindow(s, 0, r, x);
    MeanIsWindow(s, 1, r, x);
    MeanIsWindow(s, 2, r, x);
  }

  // ---- running sums

  /** The running sums of a window and the number of its samples. */
  datatype Acc = Acc(b: u32, g: u32, r: u32, count: nat)

  ghost predicate Covers(s: seq<Px>, lo: nat, hi: nat, a: Acc) {
    && lo <= hi <= |s| && a.count == hi - lo
    && a.b == Sum(s[lo..hi], 0) && a.g == Sum(s[lo..hi], 1) && a.r == Sum(s[lo..hi], 2)
  }

  lemma Enter(s: seq<Px>, k: nat, lo: nat, hi: nat)
    requires lo <= hi < |s| && k < 4
    ensures Sum(s[lo..hi + 1], k) == Sum(s[lo..hi], k) + s[hi].At(k)
    ensures Sum(s[lo..hi + 1], k) <= 255 * |s|
  {
    assert s[lo..hi + 1][..hi - lo] == s[lo..hi];
    SumRange(s[lo..hi + 1], k, 0, 255);
  }

  lemma Leave(s: seq<Px>, k: nat, lo: nat, hi: nat)
    requires lo < hi <= |s| && k < 4
    ensures Sum(s[lo..hi], k) == s[lo].At(k) + Sum(s[lo + 1..hi], k)
  {
    SumTail(s[lo..hi], k);
    assert s[lo..hi][1..] == s[lo + 1..hi];
  }

  /** Add the pixel at `p`, the next one to the right of the window: the sums stay below 2^32. */
  method EnterPixel(src: array<byte>, p: nat, a0: Acc, ghost at: seq<nat>, ghost lo: nat, ghost hi: nat)
    returns (a: Acc)
    requires Fits(src.Length, at) && |at| <= MAX_SIDE && hi < |at| && p == at[hi]
    requires Covers(Line(src[..], at), lo, hi, a0)
    ensures Covers(Line(src[..], at), lo, hi + 1, a)
  {
    ghost var s := Line(src[..], at);
    Enter(s, 0, lo, hi); Enter(s, 1, lo, hi); Enter(s, 2, lo, hi);
    a := Acc(a0.b + src[p], a0.g + src[p + 1], a0.r + src[p + 2], a0.count + 1);
  }

  /** Subtract the pixel at `p`, the leftmost one of the window. */
  method LeavePixel(src: array<byte>, p: nat, a0: Acc, ghost at: seq<nat>, ghost lo: nat, ghost hi: nat)
    returns (a: Acc)
    requires Fits(src.Length, at) && lo < hi <= |at| && p == at[lo]
    requires Covers(Line(src[..], at), lo, hi, a0)
    ensures Covers(Line(src[..], at), lo + 1, hi, a)
  {
    ghost var s := Line(src[..], at);
    Leave(s, 0, lo, hi); Leave(s, 1, lo, hi); Leave(s, 2, lo, hi);
    a := Acc(a0.b - src[p], a0.g - src[p + 1], a0.r - src[p + 2], a0.count - 1);
  }

  /** Where the window before pixel `x` ends. */
  function Right(x: int, r: nat, n: nat): nat
    requires x + r + 1 >= 0
  {
    if x + r + 1 > n then n else x + r + 1
  }

  /** The sums of the window before the first pixel. */
  method Prime(src: array<byte>, base: nat, step: nat, n: nat, radius: nat) returns (a: Acc)
    requires n <= MAX_SIDE && Fits(src.Length, Offsets(base, step, n))
    ensures Covers(Line(src[..], Offsets(base, step, n)), 0, Right(0, radius, n), a)
  {
    ghost var at := Offsets(base, step, n);
    a := Acc(0, 0, 0, 0);
    var x := 0;
    while x <= radius && x < n
      invariant 0 <= x <= n && x <= radius + 1
      invariant Covers(Line(src[..], at), 0, x, a)
    {
      a := EnterPixel(src, Offset(base, step, x), a, at, 0, x);
      x := x + 1;
    }
  }

  /** Let the next pixel to the right into the window before pixel `x`, if there is one. */
  method SlideRight(src: array<byte>, base: nat, step: nat, n: nat, radius: nat, x: nat, a0: Acc)
    returns (a: Acc)
    requires n <= MAX_SIDE && Fits(src.Length, Offsets(base, step, n)) && x < n
    requires Covers(Line(src[..], Offsets(base, step, n)), Lo(x - 1, radius), Right(x, radius, n), a0)
    ensures Covers(Line(src[..], Offsets(base, step, n)), Lo(x - 1, radius), Hi(x, radius, n), a)
  {
    var right := x + radius + 1;
    if right < n {
      assert Right(x, radius, n) == right && Hi(x, radius, n) == right + 1;
      a := EnterPixel(src, Offset(base, step, right), a0, Offsets(base, step, n), Lo(x - 1, radius), right);
    } else {
      assert Right(x, radius, n) == Hi(x, radius, n);
      a := a0;
    }
  }

  /** Let the pixel that is now too far to the left out of the window, if there is one. */
  method SlideLeft(src: array<byte>, base: nat, step: nat, n: nat, radius: nat, x: nat, a0: Acc)
    returns (a: Acc)
    requires n <= MAX_SIDE && Fits(src.Length, Offsets(base, step, n)) && x < n
    requires Covers(Line(src[..], Offsets(base, step, n)), Lo(x - 1, radius), Hi(x, radius, n), a0)
    ensures Covers(Line(src[..], Offsets(base, step, n)), Lo(x, radius), Hi(x, radius, n), a)
  {
    var left := x - radius - 1;
    if left >= 0 {
      assert Lo(x - 1, radius) == left && Lo(x, radius) == left + 1;
      a := LeavePixel(src, Offset(base, step, left), a0, Offsets(base, step, n), left, Hi(x, radius, n));
    } else {
      assert Lo(x - 1, radius) == Lo(x, radius);
      a := a0;
    }
  }

  /** The window around `x` has a sample, and its sums divided by their number are the means. */
  lemma WindowMean(s: seq<Px>, r: nat, x: nat, a: Acc)
    requires x < |s| && Covers(s, Lo(x, r), Hi(x, r, |s|), a)
    ensures a.count > 0
    ensures a.b / a.count == Mean(s, 0, r, x)
    ensures a.g / a.count == Mean(s, 1, r, x)
    ensures a.r / a.count == Mean(s, 2, r, x)
    ensures Hi(x, r, |s|) == Right(x + 1, r, |s|)
  {
  }

  /** One line of a pass. */
  method BlurLine(src: array<byte>, dst: array<byte>, base: nat, step: nat, n: nat, radius: nat)
    requires src != dst && n <= MAX_SIDE
    requires Fits(src.Length, Offsets(base, step, n)) && Fits(dst.Length, Offsets(base, step, n))
    modifies dst
    ensures Written(dst[..], Offsets(base, step, n), BlurSeq(Line(src[..], Offsets(base, step, n)), radius), n)
    ensures SameOutside(old(dst[..]), dst[..], Offsets(base, step, n))
  {
    ghost var at, was := Offsets(base, step, n), dst[..];
    ghost var s := Line(src[..], at);
    ghost var want := BlurSeq(s, radius);
    var a := Prime(src, base, step, n, radius);
    var x := 0;
    while x < n
      invariant 0 <= x <= n && s == Line(src[..], at)
      invariant Covers(s, Lo(x - 1, radius), Right(x, radius, n), a)
      invariant Written(dst[..], at, want, x) && SameOutside(was, dst[..], at)
    {
      a := SlideRight(src, base, step, n, radius, x, a);
      a := SlideLeft(src, base, step, n, radius, x, a);
      WindowMean(s, radius, x, a);
      PutPixel(dst, Offset(base, step, x), Px(a.b / a.count, a.g / a.count, a.r / a.count, 255), was, at, want, x);
      x := x + 1;
    }
  }

  // ---- whole pictures

  function Column(p: Picture, w: nat, x: nat): (s: seq<Px>)
    requires IsPicture(p, w, |p|) && x < w
    ensures |s| == |p| && forall y :: 0 <= y < |p| ==> s[y] == p[y][x]
  {
    seq(|p|, y requires 0 <= y < |p| => p[y][x])
  }

  function BlurRows(p: Picture, w: nat, r: nat): (q: Picture)
    requires IsPicture(p, w, |p|)
    ensures IsPicture(q, w, |p|)
    ensures forall y :: 0 <= y < |p| ==> q[y] == BlurSeq(p[y], r)
  {
    seq(|p|, y requires 0 <= y < |p| => BlurSeq(p[y], r))
  }

  function BlurColumns(p: Picture, w: nat, r: nat): (q: Picture)
    requires IsPicture(p, w, |p|)
    ensures IsPicture(q, w, |p|)
    ensures forall x, y :: 0 <= x < w && 0 <= y < |p| ==> q[y][x] == BlurSeq(Column(p, w, x), r)[y]
  {
    seq(|p|, y requires 0 <= y < |p| => seq(w, x requires 0 <= x < w => BlurSeq(Column(p, w, x), r)[y]))
  }

  /** One pass. */
  function Pass(p: Picture, w: nat, r: nat): (q: Picture)
    requires IsPicture(p, w, |p|)
    ensures IsPicture(q, w, |p|)
  {
    BlurColumns(BlurRows(p, w, r), w, r)
  }

  function Blur(p: Picture, w: nat, r: nat, n: nat): (q: Picture)
    requires IsPicture(p, w, |p|)
    ensures IsPicture(q, w, |p|)
  {
    if n == 0 then p else Pass(Blur(p, w, r, n - 1), w, r)
  }

  lemma LineWithin(s: seq<Px>, r: nat, k: nat, lo: nat, hi: nat)
    requires k < 3 && RowWithin(s, k, lo, hi)
    ensures RowWithin(BlurSeq(s, r), k, lo, hi)
  {
    forall x | 0 <= x < |s|
      ensures lo <= BlurSeq(s, r)[x].At(k) <= hi
    {
      MeanRange(s, k, r, x, lo, hi);
    }
  }

  lemma RowsWithin(p: Picture, w: nat, r: nat, k: nat, lo: nat, hi: nat)
    requires IsPicture(p, w, |p|) && k < 3 && Within(p, k, lo, hi)
    ensures Within(BlurRows(p, w, r), k, lo, hi)
  {
    forall y | 0 <= y < |p|
      ensures RowWithin(BlurRows(p, w, r)[y], k, lo, hi)
    {
      LineWithin(p[y], r, k, lo, hi);
    }
  }

  lemma ColumnsWithin(p: Picture, w: nat, r: nat, k: nat, lo: nat, hi: nat)
    requires IsPicture(p, w, |p|) && k < 3 && Within(p, k, lo, hi)
    ensures Within(BlurColumns(p, w, r), k, lo, hi)
  {
    forall y | 0 <= y < |p|
      ensures RowWithin(BlurColumns(p, w, r)[y], k, lo, hi)
    {
      forall x | 0 <= x < w
        ensures lo <= BlurColumns(p, w, r)[y][x].At(k) <= hi
      {
        assert forall i :: 0 <= i < |p| ==> RowWithin(p[i], k, lo, hi);
        LineWithin(Column(p, w, x), r, k, lo, hi);
      }
    }
  }

  lemma PassWithin(p: Picture, w: nat, r: nat, k: nat, lo: nat, hi: nat)
    requires IsPicture(p, w, |p|) && k < 3 && Within(p, k, lo, hi)
    ensures Within(Pass(p, w, r), k, lo, hi)
  {
    RowsWithin(p, w, r, k, lo, hi);
    ColumnsWithin(BlurRows(p, w, r), w, r, k, lo, hi);
  }

  lemma NextPassWithin(p: Picture, q: Picture, w: nat, r: nat, n: nat, k: nat, lo: nat, hi: nat)
    requires IsPicture(p, w, |p|) && IsPicture(q, w, |p|) && n > 0 && q == Blur(p, w, r, n - 1)
    requires k < 3 && Within(q, k, lo, hi)
    ensures Within(Blur(p, w, r, n), k, lo, hi)
  {
    PassWithin(q, w, r, k, lo, hi);
  }

  /** Blurring never takes a colour out of the range of the input, whatever the size, the radius
      and the number of passes. */
  lemma {:induction false} BlurWithin(p: Picture, w: nat, r: nat, n: nat, k: nat, lo: nat, hi: nat)
    requires IsPicture(p, w, |p|) && k < 3 && Within(p, k, lo, hi)
    ensures Within(Blur(p, w, r, n), k, lo, hi)
  {
    if n > 0 {
      BlurWithin(p, w, r, n - 1, k, lo, hi);
      NextPassWithin(p, Blur(p, w, r, n - 1), w, r, n, k, lo, hi);
    }
  }

  lemma OpaquePass(p: Picture, w: nat, r: nat)
    requires IsPicture(p, w, |p|)
    ensures Within(Pass(p, w, r), 3, 255, 255)
  {
  }

  /** A picture of one opaque colour is not changed. */
  lemma ConstantFixed(p: Picture, w: nat, r: nat, n: nat, c: Px)
    requires IsPicture(p, w, |p|) && Constant(p, c) && c.c3 == 255
    ensures Blur(p, w, r, n) == p
  {
    FixedIsConstant(p, c);
    var q := Blur(p, w, r, n);
    forall k | 0 <= k < 4
      ensures Within(q, k, c.At(k), c.At(k))
    {
      if k < 3 {
        BlurWithin(p, w, r, n, k, c.At(k), c.At(k));
      } else if n > 0 {
        OpaquePass(Blur(p, w, r, n - 1), w, r);
        assert q == Pass(Blur(p, w, r, n - 1), w, r);
      }
    }
    FixedIsConstant(q, c);
    assert forall y :: 0 <= y < |p| ==> q[y] == p[y];
  }

  // ---- passes over the buffers

  function ColumnAt(m: Shape, x: nat): seq<nat> { Offsets(4 * x, m.stride, m.h) }

  lemma ColumnFits(length: nat, m: Shape, x: nat)
    requires Holds(length, m) && x < m.w
    ensures Fits(length, ColumnAt(m, x))
  {
    OffsetsFit(length, 4 * x, m.stride, m.h);
  }

  lemma ColumnsDisjoint(m: Shape, x: nat, x': nat)
    requires m.stride >= 4 * m.w && x < m.w && x' < m.w && x != x'
    ensures Disjoint(ColumnAt(m, x), ColumnAt(m, x'))
  {
    forall i, j | 0 <= i < m.h && 0 <= j < m.h
      ensures ColumnAt(m, x)[i] + 4 <= ColumnAt(m, x')[j] || ColumnAt(m, x')[j] + 4 <= ColumnAt(m, x)[i]
    {
      if i < j || (i == j && x < x') { PixelsApart(m, x, i, x', j); } else { PixelsApart(m, x', j, x, i); }
    }
  }

  /** The horizontal half of a pass. */
  method BlurAllRows(src: array<byte>, dst: array<byte>, m: Shape, radius: nat)
    requires src != dst && m.w <= MAX_SIDE && Holds(src.Length, m) && Holds(dst.Length, m)
    modifies dst
    ensures PictureOf(dst[..], m) == BlurRows(PictureOf(src[..], m), m.w, radius)
    ensures PaddingKept(old(dst[..]), dst[..], m)
  {
    ghost var p, start := PictureOf(src[..], m), dst[..];
    ghost var want := BlurRows(p, m.w, radius);
    var y := 0;
    while y < m.h
      invariant 0 <= y <= m.h && PictureOf(src[..], m) == p
      invariant RowsAre(dst[..], m, want, y)
      invariant PaddingKept(start, dst[..], m)
    {
      ghost var was := dst[..];
      RowFits(src.Length, m, y);
      RowFits(dst.Length, m, y);
      assert Line(src[..], RowAt(m, y)) == p[y];
      BlurLine(src, dst, Offset(0, m.stride, y), 4, m.w, radius);
      RowsStep(was, dst[..], m, want, y);
      PaddingStep(start, was, dst[..], m, y);
      y := y + 1;
    }
    RowsArePicture(dst[..], m, want);
  }

  /** The first `n` columns are written. */
  ghost predicate ColumnsAre(data: seq<byte>, m: Shape, want: Picture, n: nat)
    requires IsPicture(want, m.w, m.h) && n <= m.w
  {
    forall x :: 0 <= x < n ==> Written(data, ColumnAt(m, x), Column(want, m.w, x), m.h)
  }

  lemma ColumnsStep(was: seq<byte>, data: seq<byte>, m: Shape, want: Picture, x: nat)
    requires Holds(|data|, m) && x < m.w && IsPicture(want, m.w, m.h)
    requires ColumnsAre(was, m, want, x) && SameOutside(was, data, ColumnAt(m, x))
    requires Written(data, ColumnAt(m, x), Column(want, m.w, x), m.h)
    ensures ColumnsAre(data, m, want, x + 1)
  {
    forall v | 0 <= v < x
      ensures Written(data, ColumnAt(m, v), Column(want, m.w, v), m.h)
    {
      ColumnsDisjoint(m, x, v);
      OtherLineKept(was, data, ColumnAt(m, x), ColumnAt(m, v), Column(want, m.w, v));
    }
  }

  /** A column of the buffer is a column of its picture. */
  lemma ColumnOfPicture(data: seq<byte>, m: Shape, x: nat)
    requires Holds(|data|, m) && x < m.w
    ensures Fits(|data|, ColumnAt(m, x))
    ensures Column(PictureOf(data, m), m.w, x) == Line(data, ColumnAt(m, x))
  {
    ColumnFits(|data|, m, x);
    forall y | 0 <= y < m.h
      ensures Column(PictureOf(data, m), m.w, x)[y] == Line(data, ColumnAt(m, x))[y]
    {
      assert PictureOf(data, m)[y] == RowOf(data, m, y);
      assert RowAt(m, y)[x] == ColumnAt(m, x)[y];
    }
  }

  lemma ColumnsArePicture(data: seq<byte>, m: Shape, want: Picture)
    requires Holds(|data|, m) && IsPicture(want, m.w, m.h) && ColumnsAre(data, m, want, m.w)
    ensures PictureOf(data, m) == want
  {
    var p := PictureOf(data, m);
    forall y | 0 <= y < m.h
      ensures p[y] == want[y]
    {
      forall x | 0 <= x < m.w
        ensures p[y][x] == want[y][x]
      {
        ColumnOfPicture(data, m, x);
        assert Written(data, ColumnAt(m, x), Column(want, m.w, x), m.h);
        assert p[y][x] == Column(p, m.w, x)[y] == Column(want, m.w, x)[y];
      }
    }
  }

  lemma InColumnInImage(m: Shape, x: nat, j: int)
    requires x < m.w && InLine(j, ColumnAt(m, x))
    ensures InImage(j, m)
  {
    var y :| 0 <= y < m.h && InPixel(j, ColumnAt(m, x)[y]);
    assert RowAt(m, y)[x] == ColumnAt(m, x)[y];
    assert InLine(j, RowAt(m, y));
  }

  lemma ColumnPadding(start: seq<byte>, was: seq<byte>, data: seq<byte>, m: Shape, x: nat)
    requires PaddingKept(start, was, m) && SameOutside(was, data, ColumnAt(m, x)) && x < m.w
    ensures PaddingKept(start, data, m)
  {
    forall j | 0 <= j < |data| && data[j] != start[j]
      ensures InImage(j, m)
    {
      if data[j] != was[j] {
        InColumnInImage(m, x, j);
      }
    }
  }

  /** The vertical half of a pass. */
  method BlurAllColumns(src: array<byte>, dst: array<byte>, m: Shape, radius: nat)
    requires src != dst && m.h <= MAX_SIDE && Holds(src.Length, m) && Holds(dst.Length, m)
    modifies dst
    ensures PictureOf(dst[..], m) == BlurColumns(PictureOf(src[..], m), m.w, radius)
    ensures PaddingKept(old(dst[..]), dst[..], m)
  {
    ghost var p, start := PictureOf(src[..], m), dst[..];
    ghost var want := BlurColumns(p, m.w, radius);
    var x := 0;
    while x < m.w
      invariant 0 <= x <= m.w && PictureOf(src[..], m) == p
      invariant ColumnsAre(dst[..], m, want, x)
      invariant PaddingKept(start, dst[..], m)
    {
      ghost var was := dst[..];
      ColumnFits(dst.Length, m, x);
      ColumnOfPicture(src[..], m, x);
      assert Column(want, m.w, x) == BlurSeq(Column(p, m.w, x), radius);
      BlurLine(src, dst, 4 * x, m.stride, m.h, radius);
      ColumnsStep(was, dst[..], m, want, x);
      ColumnPadding(start, was, dst[..], m, x);
      x := x + 1;
    }
    ColumnsArePicture(dst[..], m, want);
  }

  /** One pass over the image, through a second buffer. */
  method BlurPass(data: array<byte>, tmp: array<byte>, m: Shape, radius: nat)
    requires data != tmp && m.w <= MAX_SIDE && m.h <= MAX_SIDE && Holds(data.Length, m) && Holds(tmp.Length, m)
    modifies data, tmp
    ensures PictureOf(data[..], m) == Pass(PictureOf(old(data[..]), m), m.w, radius)
    ensures PaddingKept(old(data[..]), data[..], m)
  {
    BlurAllRows(data, tmp, m, radius);
    BlurAllColumns(tmp, data, m, radius);
  }

  lemma WholeRowsHold(length: nat, m: Shape)
    requires m.stride >= 4 * m.w && length >= m.stride * m.h
    ensures Holds(length, m)
  {
    if m.h > 0 {
      assert (m.h - 1) * m.stride + m.stride == m.stride * m.h;
    }
  }

  lemma ThreePasses(p0: Picture, w: nat, r: nat)
    requires IsPicture(p0, w, |p0|)
    ensures var p1 := BlurColumns(BlurRows(p0, w, r), w, r);
            var p2 := BlurColumns(BlurRows(p1, w, r), w, r);
            Blur(p0, w, r, 3) == BlurColumns(BlurRows(p2, w, r), w, r)
  {
    assert Blur(p0, w, r, 1) == Pass(Blur(p0, w, r, 0), w, r);
    assert Blur(p0, w, r, 2) == Pass(Blur(p0, w, r, 1), w, r);
    assert Blur(p0, w, r, 3) == Pass(Blur(p0, w, r, 2), w, r);
  }

  /** apply_blur: three passes, each over the rows and then over the columns. */
  method ApplyBlur(data: array<byte>, m: Shape, radius: int)
    requires m.w <= MAX_SIDE && m.h <= MAX_SIDE && m.stride >= 4 * m.w && data.Length >= m.stride * m.h
    modifies data
    ensures Holds(data.Length, m)
    ensures PictureOf(data[..], m) == if radius <= 0 then PictureOf(old(data[..]), m)
                                      else Blur(PictureOf(old(data[..]), m), m.w, radius, 3)
    ensures radius > 0 ==>
      var p0 := PictureOf(old(data[..]), m);
      var p1 := BlurColumns(BlurRows(p0, m.w, radius), m.w, radius);
      var p2 := BlurColumns(BlurRows(p1, m.w, radius), m.w, radius);
      PictureOf(data[..], m) == BlurColumns(BlurRows(p2, m.w, radius), m.w, radius)
    ensures PaddingKept(old(data[..]), data[..], m)
  {
    WholeRowsHold(data.Length, m);
    if radius <= 0 {
      return;
    }
    MulMonotone(0, m.h, m.stride);
    var tmp := new byte[m.stride * m.h];
    WholeRowsHold(tmp.Length, m);
    ghost var start := data[..];
    var pass := 0;
    while pass < 3
      invariant 0 <= pass <= 3
      invariant PictureOf(data[..], m) == Blur(PictureOf(start, m), m.w, radius, pass)
      invariant PaddingKept(start, data[..], m)
    {
      ghost var was := data[..];
      BlurPass(data, tmp, m, radius);
      PaddingTrans(start, was, data[..], m);
      pass := pass + 1;
    }
    ThreePasses(PictureOf(start, m), m.w, radius);
  }
}
