/** What each pixel of the idle daemon's blur is (aetheridle/main.c:1238-1423), and that the blur keeps
    equal rows and equal columns equal. */
module KawasePixels {
  import opened Bytes
  import opened Images
  import opened DualKawase

  // ---- one channel, clamped at the border

  type Plane = (int, int) -> nat

  /** A tap outside the picture reads the nearest pixel of its border. */
  lemma TapIsClamped(p: Picture, w: nat, h: nat, x: int, y: int)
    requires IsPicture(p, w, h) && w >= 1 && h >= 1
    ensures Tap(p, w, h, x, y) == p[if y < 0 then 0 else if y >= h then h - 1 else y]
                                   [if x < 0 then 0 else if x >= w then w - 1 else x]
  {
  }

  /** Channel `k` at every point (x, y). */
  ghost function PlaneOf(p: Picture, w: nat, h: nat, k: nat): (f: Plane)
    requires IsPicture(p, w, h) && w >= 1 && h >= 1 && k < 4
    ensures forall x, y :: f(x, y) == Tap(p, w, h, x, y).At(k)
  {
    (x, y) => Tap(p, w, h, x, y).At(k)
  }

  // ---- halving

  lemma OneTap(p: Picture, w: nat, h: nat, cs: seq<(int, int)>, k: nat, i: nat)
    requires IsPicture(p, w, h) && w >= 1 && h >= 1 && k < 4 && i < |cs|
    ensures SumTaps(p, w, h, cs[..i + 1], k)
         == SumTaps(p, w, h, cs[..i], k) + PlaneOf(p, w, h, k)(cs[i].0, cs[i].1)
  {
    assert cs[..i + 1][..i] == cs[..i];
  }

  lemma FiveTaps(p: Picture, w: nat, h: nat, cs: seq<(int, int)>, k: nat)
    requires IsPicture(p, w, h) && w >= 1 && h >= 1 && k < 4 && |cs| == 5
    ensures var f := PlaneOf(p, w, h, k);
      SumTaps(p, w, h, cs, k) == f(cs[0].0, cs[0].1) + f(cs[1].0, cs[1].1) + f(cs[2].0, cs[2].1)
                                 + f(cs[3].0, cs[3].1) + f(cs[4].0, cs[4].1)
  {
    assert cs[..0] == [] && cs[..5] == cs;
    OneTap(p, w, h, cs, k, 0); OneTap(p, w, h, cs, k, 1); OneTap(p, w, h, cs, k, 2);
    OneTap(p, w, h, cs, k, 3); OneTap(p, w, h, cs, k, 4);
  }

  ghost function DownSum(f: Plane, x: int, y: int, o: int): nat {
    f(2 * x, 2 * y) + f(2 * x - o, 2 * y - o) + f(2 * x + o, 2 * y - o) + f(2 * x - o, 2 * y + o)
    + f(2 * x + o, 2 * y + o)
  }

  lemma DownTaps(f: Plane, x: nat, y: nat, o: int)
    ensures var cs := DownCoords(x, y, o);
      f(cs[0].0, cs[0].1) + f(cs[1].0, cs[1].1) + f(cs[2].0, cs[2].1) + f(cs[3].0, cs[3].1) + f(cs[4].0, cs[4].1)
      == DownSum(f, x, y, o)
  {
  }

  lemma DownIsSum(p: Picture, w: nat, h: nat, w': nat, h': nat, o: int, x: nat, y: nat, k: nat)
    requires IsPicture(p, w, h) && w >= 1 && h >= 1 && k < 4 && x < w' && y < h'
    ensures Down(p, w, h, w', h', o)[y][x].At(k) == DownSum(PlaneOf(p, w, h, k), x, y, o) / 5
  {
    FiveTaps(p, w, h, DownCoords(x, y, o), k);
    DownTaps(PlaneOf(p, w, h, k), x, y, o);
    assert Down(p, w, h, w', h', o)[y][x].At(k) == DownAt(p, w, h, x, y, o, k);
  }

  /** A pixel of the halved picture is a fifth of the pixel at twice its place and its four
      diagonal neighbours at distance `o`. */
  lemma DownIsMean(p: Picture, w: nat, h: nat, w': nat, h': nat, o: int, x: nat, y: nat, k: nat)
    requires IsPicture(p, w, h) && w >= 1 && h >= 1 && k < 4 && x < w' && y < h'
    ensures var f := PlaneOf(p, w, h, k);
      Down(p, w, h, w', h', o)[y][x].At(k) ==
        (f(2 * x, 2 * y) + f(2 * x - o, 2 * y - o) + f(2 * x + o, 2 * y - o) + f(2 * x - o, 2 * y + o)
         + f(2 * x + o, 2 * y + o)) / 5
  {
    DownIsSum(p, w, h, w', h', o, x, y, k);
  }

  // ---- doubling

  /** Four times the bilinear value at (a/2, b/2): the sum over the pixels around the point, each
      counted twice for every direction in which the point falls on it. */
  ghost function Bilinear(f: Plane, a: int, b: int): nat {
    f(a / 2, b / 2) + f((a + 1) / 2, b / 2) + f(a / 2, (b + 1) / 2) + f((a + 1) / 2, (b + 1) / 2)
  }

  lemma QuadIsBilinear(p: Picture, w: nat, h: nat, k: nat, a: int, b: int)
    requires IsPicture(p, w, h) && w >= 1 && h >= 1 && k < 4
    ensures Quad(p, w, h, a, b).At(k) == Bilinear(PlaneOf(p, w, h, k), a, b)
  {
  }

  /** One sample, weighted. */
  ghost function Term(f: Plane, x: int, y: int, s: Sample): nat {
    Scaled(Bilinear(f, x + 2 * s.dx, y + 2 * s.dy), s)
  }

  function Total(vs: seq<nat>): nat {
    if vs == [] then 0 else Total(vs[..|vs| - 1]) + vs[|vs| - 1]
  }

  lemma TotalOfOne(vs: seq<nat>, i: nat)
    requires i < |vs|
    ensures Total(vs[..i + 1]) == Total(vs[..i]) + vs[i]
  {
    assert vs[..i + 1][..i] == vs[..i];
  }

  lemma TotalOfFour(vs: seq<nat>, i: nat)
    requires i + 4 <= |vs|
    ensures Total(vs[..i + 4]) == Total(vs[..i]) + (vs[i] + vs[i + 1] + vs[i + 2] + vs[i + 3])
  {
    TotalOfOne(vs, i);
    TotalOfOne(vs, i + 1);
    TotalOfOne(vs, i + 2);
    TotalOfOne(vs, i + 3);
  }

  lemma TotalOfHalves(vs: seq<nat>, a: nat, b: nat)
    requires |vs| == 8 && vs[0] + vs[1] + vs[2] + vs[3] == a && vs[4] + vs[5] + vs[6] + vs[7] == b
    ensures Total(vs) == a + b
  {
    assert vs[..0] == [] && vs[..8] == vs;
    TotalOfFour(vs, 0);
    TotalOfFour(vs, 4);
  }

  ghost function Terms(f: Plane, x: int, y: int, ss: seq<Sample>): (vs: seq<nat>)
    ensures |vs| == |ss| && forall i :: 0 <= i < |ss| ==> vs[i] == Term(f, x, y, ss[i])
  {
    seq(|ss|, i requires 0 <= i < |ss| => Term(f, x, y, ss[i]))
  }

  lemma HeavyIsTerm(p: Picture, w: nat, h: nat, k: nat, x: nat, y: nat, s: Sample)
    requires IsPicture(p, w, h) && w >= 1 && h >= 1 && k < 4
    ensures Heavy(p, w, h, x, y, s).At(k) == Term(PlaneOf(p, w, h, k), x, y, s)
  {
    var q := Quad(p, w, h, x + 2 * s.dx, y + 2 * s.dy);
    QuadIsBilinear(p, w, h, k, x + 2 * s.dx, y + 2 * s.dy);
    TimesWithin(q, s, k, q.At(k), q.At(k));
  }

  lemma {:induction false} QuadsAreTerms(p: Picture, w: nat, h: nat, k: nat, x: nat, y: nat, ss: seq<Sample>)
    requires IsPicture(p, w, h) && w >= 1 && h >= 1 && k < 4
    ensures SumQuads(p, w, h, x, y, ss).At(k) == Total(Terms(PlaneOf(p, w, h, k), x, y, ss))
  {
    if ss != [] {
      var before, last := ss[..|ss| - 1], ss[|ss| - 1];
      QuadsAreTerms(p, w, h, k, x, y, before);
      HeavyIsTerm(p, w, h, k, x, y, last);
      SumQuads(p, w, h, x, y, before).Channel(Heavy(p, w, h, x, y, last), k);
      var f := PlaneOf(p, w, h, k);
      assert Terms(f, x, y, ss)[..|ss| - 1] == Terms(f, x, y, before);
    }
  }

  /** The samples along the axes, and those on the diagonals. */
  ghost function Cross(f: Plane, x: int, y: int, o: int): nat {
    Bilinear(f, x - 4 * o, y) + Bilinear(f, x + 4 * o, y) + Bilinear(f, x, y - 4 * o) + Bilinear(f, x, y + 4 * o)
  }

  ghost function Diagonal(f: Plane, x: int, y: int, o: int): nat {
    Bilinear(f, x - 2 * o, y - 2 * o) + Bilinear(f, x + 2 * o, y - 2 * o)
    + Bilinear(f, x - 2 * o, y + 2 * o) + Bilinear(f, x + 2 * o, y + 2 * o)
  }

  lemma TermIs(f: Plane, x: int, y: int, s: Sample, a: int, b: int)
    requires a == x + 2 * s.dx && b == y + 2 * s.dy
    ensures Term(f, x, y, s) == if s.heavy then 2 * Bilinear(f, a, b) else Bilinear(f, a, b)
  {
  }

  lemma CrossTerms(f: Plane, x: int, y: int, o: int)
    ensures var vs := Terms(f, x, y, UpSamples(o)); vs[0] + vs[1] + vs[2] + vs[3] == Cross(f, x, y, o)
  {
    var ss := UpSamples(o);
    TermIs(f, x, y, ss[0], x - 4 * o, y);
    TermIs(f, x, y, ss[1], x + 4 * o, y);
    TermIs(f, x, y, ss[2], x, y - 4 * o);
    TermIs(f, x, y, ss[3], x, y + 4 * o);
  }

  lemma DiagonalTerms(f: Plane, x: int, y: int, o: int)
    ensures var vs := Terms(f, x, y, UpSamples(o)); vs[4] + vs[5] + vs[6] + vs[7] == 2 * Diagonal(f, x, y, o)
  {
    var ss := UpSamples(o);
    TermIs(f, x, y, ss[4], x - 2 * o, y - 2 * o);
    TermIs(f, x, y, ss[5], x + 2 * o, y - 2 * o);
    TermIs(f, x, y, ss[6], x - 2 * o, y + 2 * o);
    TermIs(f, x, y, ss[7], x + 2 * o, y + 2 * o);
  }

  lemma AllTerms(f: Plane, x: int, y: int, o: int)
    ensures Total(Terms(f, x, y, UpSamples(o))) == Cross(f, x, y, o) + 2 * Diagonal(f, x, y, o)
  {
    CrossTerms(f, x, y, o);
    DiagonalTerms(f, x, y, o);
    TotalOfHalves(Terms(f, x, y, UpSamples(o)), Cross(f, x, y, o), 2 * Diagonal(f, x, y, o));
  }

  lemma UpIsSum(p: Picture, w: nat, h: nat, w': nat, h': nat, o: int, x: nat, y: nat, k: nat)
    requires IsPicture(p, w, h) && w >= 1 && h >= 1 && k < 4 && x < w' && y < h'
    ensures var f := PlaneOf(p, w, h, k);
      Up(p, w, h, w', h', o)[y][x].At(k) == (Cross(f, x, y, o) + 2 * Diagonal(f, x, y, o)) / 48
  {
    AllTerms(PlaneOf(p, w, h, k), x, y, o);
    QuadsAreTerms(p, w, h, k, x, y, UpSamples(o));
    assert Up(p, w, h, w', h', o)[y][x].At(k) == UpAt(p, w, h, x, y, o, k);
  }

  /** A pixel of the doubled picture: around (x/2, y/2) the four samples at distance 2 `o` along
      the axes once and the four diagonal ones at distance `o` twice, a twelfth of them all. */
  lemma UpIsMean(p: Picture, w: nat, h: nat, w': nat, h': nat, o: int, x: nat, y: nat, k: nat)
    requires IsPicture(p, w, h) && w >= 1 && h >= 1 && k < 4 && x < w' && y < h'
    ensures var f := PlaneOf(p, w, h, k);
      Up(p, w, h, w', h', o)[y][x].At(k) ==
        (Bilinear(f, x - 4 * o, y) + Bilinear(f, x + 4 * o, y)
         + Bilinear(f, x, y - 4 * o) + Bilinear(f, x, y + 4 * o)
         + 2 * (Bilinear(f, x - 2 * o, y - 2 * o) + Bilinear(f, x + 2 * o, y - 2 * o)
                + Bilinear(f, x - 2 * o, y + 2 * o) + Bilinear(f, x + 2 * o, y + 2 * o))) / 48
  {
    UpIsSum(p, w, h, w', h', o, x, y, k);
  }

  // ---- pictures that vary in one direction

  /** Every row is the first. */
  ghost predicate SameRows(p: Picture) {
    forall y, y' :: 0 <= y < |p| && 0 <= y' < |p| ==> p[y] == p[y']
  }

  /** Every column is the first. */
  ghost predicate SameColumns(p: Picture, w: nat)
    requires IsPicture(p, w, |p|)
  {
    forall y, x, x' :: 0 <= y < |p| && 0 <= x < w && 0 <= x' < w ==> p[y][x] == p[y][x']
  }

  ghost predicate FlatDown(f: Plane) { forall x, y, y' :: f(x, y) == f(x, y') }

  ghost predicate FlatAcross(f: Plane) { forall x, x', y :: f(x, y) == f(x', y) }

  lemma RowsPlane(p: Picture, w: nat, h: nat, k: nat)
    requires IsPicture(p, w, h) && w >= 1 && h >= 1 && k < 4 && SameRows(p)
    ensures FlatDown(PlaneOf(p, w, h, k))
  {
    forall x, y, y'
      ensures PlaneOf(p, w, h, k)(x, y) == PlaneOf(p, w, h, k)(x, y')
    {
      assert p[Clamp(y, h)] == p[Clamp(y', h)];
    }
  }

  lemma ColumnsPlane(p: Picture, w: nat, h: nat, k: nat)
    requires IsPicture(p, w, h) && w >= 1 && h >= 1 && k < 4 && SameColumns(p, w)
    ensures FlatAcross(PlaneOf(p, w, h, k))
  {
    forall x, x', y
      ensures PlaneOf(p, w, h, k)(x, y) == PlaneOf(p, w, h, k)(x', y)
    {
      assert p[Clamp(y, h)][Clamp(x, w)] == p[Clamp(y, h)][Clamp(x', w)];
    }
  }

  lemma FlatDownSums(f: Plane, x: int, y: int, y': int, o: int)
    requires FlatDown(f)
    ensures DownSum(f, x, y, o) == DownSum(f, x, y', o)
    ensures Bilinear(f, x, y) == Bilinear(f, x, y')
  {
    assert f(x / 2, y / 2) == f(x / 2, y' / 2) && f(x / 2, (y + 1) / 2) == f(x / 2, (y' + 1) / 2);
  }

  lemma FlatAcrossSums(f: Plane, x: int, x': int, y: int, o: int)
    requires FlatAcross(f)
    ensures DownSum(f, x, y, o) == DownSum(f, x', y, o)
    ensures Bilinear(f, x, y) == Bilinear(f, x', y)
  {
    assert f(x / 2, y / 2) == f(x' / 2, y / 2) && f((x + 1) / 2, y / 2) == f((x' + 1) / 2, y / 2);
  }

  lemma FlatDownUp(f: Plane, x: int, y: int, y': int, o: int)
    requires FlatDown(f)
    ensures Cross(f, x, y, o) == Cross(f, x, y', o) && Diagonal(f, x, y, o) == Diagonal(f, x, y', o)
  {
    forall a, b, b'
      ensures Bilinear(f, a, b) == Bilinear(f, a, b')
    {
      FlatDownSums(f, a, b, b', o);
    }
  }

  lemma FlatAcrossUp(f: Plane, x: int, x': int, y: int, o: int)
    requires FlatAcross(f)
    ensures Cross(f, x, y, o) == Cross(f, x', y, o) && Diagonal(f, x, y, o) == Diagonal(f, x', y, o)
  {
    forall a, a', b
      ensures Bilinear(f, a, b) == Bilinear(f, a', b)
    {
      FlatAcrossSums(f, a, a', b, o);
    }
  }

  lemma SamePx(a: Px, b: Px)
    requires forall k: nat :: k < 4 ==> a.At(k) == b.At(k)
    ensures a == b
  {
    assert a.At(0) == b.At(0) && a.At(1) == b.At(1) && a.At(2) == b.At(2) && a.At(3) == b.At(3);
  }

  lemma RowsDown(p: Picture, w: nat, h: nat, w': nat, h': nat, o: int, x: nat, y: nat, y': nat)
    requires IsPicture(p, w, h) && w >= 1 && h >= 1 && SameRows(p) && x < w' && y < h' && y' < h'
    ensures Down(p, w, h, w', h', o)[y][x] == Down(p, w, h, w', h', o)[y'][x]
  {
    var q: Picture := Down(p, w, h, w', h', o);
    forall k: nat | k < 4
      ensures q[y][x].At(k) == q[y'][x].At(k)
    {
      RowsPlane(p, w, h, k);
      FlatDownSums(PlaneOf(p, w, h, k), x, y, y', o);
      DownIsSum(p, w, h, w', h', o, x, y, k);
      DownIsSum(p, w, h, w', h', o, x, y', k);
    }
    SamePx(q[y][x], q[y'][x]);
  }

  lemma RowsUp(p: Picture, w: nat, h: nat, w': nat, h': nat, o: int, x: nat, y: nat, y': nat)
    requires IsPicture(p, w, h) && w >= 1 && h >= 1 && SameRows(p) && x < w' && y < h' && y' < h'
    ensures Up(p, w, h, w', h', o)[y][x] == Up(p, w, h, w', h', o)[y'][x]
  {
    var q: Picture := Up(p, w, h, w', h', o);
    forall k: nat | k < 4
      ensures q[y][x].At(k) == q[y'][x].At(k)
    {
      RowsPlane(p, w, h, k);
      FlatDownUp(PlaneOf(p, w, h, k), x, y, y', o);
      UpIsSum(p, w, h, w', h', o, x, y, k);
      UpIsSum(p, w, h, w', h', o, x, y', k);
    }
    SamePx(q[y][x], q[y'][x]);
  }

  lemma ColumnsDown(p: Picture, w: nat, h: nat, w': nat, h': nat, o: int, x: nat, x': nat, y: nat)
    requires IsPicture(p, w, h) && w >= 1 && h >= 1 && SameColumns(p, w) && x < w' && x' < w' && y < h'
    ensures Down(p, w, h, w', h', o)[y][x] == Down(p, w, h, w', h', o)[y][x']
  {
    var q: Picture := Down(p, w, h, w', h', o);
    forall k: nat | k < 4
      ensures q[y][x].At(k) == q[y][x'].At(k)
    {
      ColumnsPlane(p, w, h, k);
      FlatAcrossSums(PlaneOf(p, w, h, k), x, x', y, o);
      DownIsSum(p, w, h, w', h', o, x, y, k);
      DownIsSum(p, w, h, w', h', o, x', y, k);
    }
    SamePx(q[y][x], q[y][x']);
  }

  lemma ColumnsUp(p: Picture, w: nat, h: nat, w': nat, h': nat, o: int, x: nat, x': nat, y: nat)
    requires IsPicture(p, w, h) && w >= 1 && h >= 1 && SameColumns(p, w) && x < w' && x' < w' && y < h'
    ensures Up(p, w, h, w', h', o)[y][x] == Up(p, w, h, w', h', o)[y][x']
  {
    var q: Picture := Up(p, w, h, w', h', o);
    forall k: nat | k < 4
      ensures q[y][x].At(k) == q[y][x'].At(k)
    {
      ColumnsPlane(p, w, h, k);
      FlatAcrossUp(PlaneOf(p, w, h, k), x, x', y, o);
      UpIsSum(p, w, h, w', h', o, x, y, k);
      UpIsSum(p, w, h, w', h', o, x', y, k);
    }
    SamePx(q[y][x], q[y][x']);
  }

  lemma RowsKept(p: Picture, w: nat, h: nat, w': nat, h': nat, o: int)
    requires IsPicture(p, w, h) && w >= 1 && h >= 1 && SameRows(p)
    ensures SameRows(Down(p, w, h, w', h', o)) && SameRows(Up(p, w, h, w', h', o))
  {
    var d: Picture, u: Picture := Down(p, w, h, w', h', o), Up(p, w, h, w', h', o);
    forall y, y' | 0 <= y < h' && 0 <= y' < h'
      ensures d[y] == d[y'] && u[y] == u[y']
    {
      forall x | 0 <= x < w'
        ensures d[y][x] == d[y'][x] && u[y][x] == u[y'][x]
      {
        RowsDown(p, w, h, w', h', o, x, y, y');
        RowsUp(p, w, h, w', h', o, x, y, y');
      }
    }
  }

  lemma ColumnsKept(p: Picture, w: nat, h: nat, w': nat, h': nat, o: int)
    requires IsPicture(p, w, h) && w >= 1 && h >= 1 && SameColumns(p, w)
    ensures SameColumns(Down(p, w, h, w', h', o), w') && SameColumns(Up(p, w, h, w', h', o), w')
  {
    var d: Picture, u: Picture := Down(p, w, h, w', h', o), Up(p, w, h, w', h', o);
    forall y, x, x' | 0 <= y < h' && 0 <= x < w' && 0 <= x' < w'
      ensures d[y][x] == d[y][x'] && u[y][x] == u[y][x']
    {
      ColumnsDown(p, w, h, w', h', o, x, x', y);
      ColumnsUp(p, w, h, w', h', o, x, x', y);
    }
  }

  // ---- the whole blur

  /** Two halvings and two doublings at distance 1, no side smaller than one pixel. */
  lemma KawaseIsPyramid(p: Picture, w: nat, h: nat)
    requires IsPicture(p, w, h) && w >= 1 && h >= 1
    ensures var w1, h1 := if w == 1 then 1 else w / 2, if h == 1 then 1 else h / 2;
            var w2, h2 := if w1 == 1 then 1 else w1 / 2, if h1 == 1 then 1 else h1 / 2;
            var l2 := Down(Down(p, w, h, w1, h1, 1), w1, h1, w2, h2, 1);
            Kawase(p, w, h) == Up(Up(l2, w2, h2, w1, h1, 1), w1, h1, w, h, 1)
  {
    assert Half(w) == (if w == 1 then 1 else w / 2) && Half(h) == (if h == 1 then 1 else h / 2);
  }

  /** The blur never mixes directions: a picture that varies only from left to right stays so. */
  lemma KawaseKeepsRows(p: Picture, w: nat, h: nat)
    requires IsPicture(p, w, h) && w >= 1 && h >= 1 && SameRows(p)
    ensures SameRows(Kawase(p, w, h))
  {
    var w1, h1, w2, h2 := Half(w), Half(h), Half(Half(w)), Half(Half(h));
    var l1 := Down(p, w, h, w1, h1, 1);
    var l2 := Down(l1, w1, h1, w2, h2, 1);
    RowsKept(p, w, h, w1, h1, 1);
    RowsKept(l1, w1, h1, w2, h2, 1);
    RowsKept(l2, w2, h2, w1, h1, 1);
    RowsKept(Up(l2, w2, h2, w1, h1, 1), w1, h1, w, h, 1);
  }

  /** So does one that varies only from top to bottom. */
  lemma KawaseKeepsColumns(p: Picture, w: nat, h: nat)
    requires IsPicture(p, w, h) && w >= 1 && h >= 1 && SameColumns(p, w)
    ensures SameColumns(Kawase(p, w, h), w)
  {
    var w1, h1, w2, h2 := Half(w), Half(h), Half(Half(w)), Half(Half(h));
    var l1 := Down(p, w, h, w1, h1, 1);
    var l2 := Down(l1, w1, h1, w2, h2, 1);
    ColumnsKept(p, w, h, w1, h1, 1);
    ColumnsKept(l1, w1, h1, w2, h2, 1);
    ColumnsKept(l2, w2, h2, w1, h1, 1);
    ColumnsKept(Up(l2, w2, h2, w1, h1, 1), w1, h1, w, h, 1);
  }
}
