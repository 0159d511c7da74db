/** Placement of desktop icons by `refresh_icons` (desktop/src/icons.c:371-449): icons with a
    saved position first, then every other icon on the first grid cell that overlaps nothing. */
module IconGrid {
  import opened Bytes

  datatype Rect = Rect(x: int, y: int, w: int, h: int)

  datatype Saved = NoPosition | At(x: int, y: int)

  /** A desktop file in sorted order, with the position saved for it, if any. */
  datatype Entry = Entry(name: string, saved: Saved)

  const ITEM_WIDTH := 120
  const ITEM_HEIGHT := 128
  const GRID_X := 20
  const GRID_Y := 20
  const PITCH_X := 130
  const PITCH_Y := 138
  const BAR := 40

  function Max(a: int, b: int): int { if a > b then a else b }
  function Min(a: int, b: int): int { if a < b then a else b }

  /** gdk_rectangle_intersect: the common area is not empty. */
  predicate Meets(a: Rect, b: Rect) {
    && Max(a.x, b.x) < Min(a.x + a.w, b.x + b.w)
    && Max(a.y, b.y) < Min(a.y + a.h, b.y + b.h)
  }

  predicate Inside(x: int, y: int, r: Rect) { r.x <= x < r.x + r.w && r.y <= y < r.y + r.h }

  /** They share a pixel. */
  lemma MeetsIsShared(a: Rect, b: Rect)
    ensures Meets(a, b) <==> exists x, y :: Inside(x, y, a) && Inside(x, y, b)
  {
    if Meets(a, b) {
      assert Inside(Max(a.x, b.x), Max(a.y, b.y), a) && Inside(Max(a.x, b.x), Max(a.y, b.y), b);
    }
  }

  function Item(x: int, y: int): Rect { Rect(x, y, ITEM_WIDTH, ITEM_HEIGHT) }

  ghost predicate Items(rs: seq<Rect>) {
    forall r :: r in rs ==> r.w == ITEM_WIDTH && r.h == ITEM_HEIGHT
  }

  ghost predicate Collides(c: Rect, occupied: seq<Rect>) {
    exists r :: r in occupied && Meets(c, r)
  }

  // ---- the grid

  /** First row and lowest allowed row of the grid; `bars` is set in the modes that keep the
      panels clear. */
  function StartY(bars: bool): int { if bars && GRID_Y < BAR then BAR else GRID_Y }
  function MaxY(bars: bool, screenH: int): int {
    if bars then screenH - ITEM_HEIGHT - BAR else screenH - ITEM_HEIGHT
  }

  /** Rows per column: the first row always counts, however small the screen. */
  function Rows(startY: int, maxY: int): (n: nat)
    ensures n >= 1
    ensures forall r: nat :: r >= 1 ==> (r < n <==> startY + PITCH_Y * r <= maxY)
  {
    if maxY < startY + PITCH_Y then 1 else 1 + (maxY - startY) / PITCH_Y
  }

  datatype Grid = Grid(startY: int, rows: nat)

  /** The `i`-th cell, top to bottom and then left to right. */
  function Cell(g: Grid, i: nat): Rect
    requires g.rows >= 1
  {
    Item(GRID_X + PITCH_X * (i / g.rows), g.startY + PITCH_Y * (i % g.rows))
  }

  ghost predicate FirstFree(g: Grid, occupied: seq<Rect>, i: nat)
    requires g.rows >= 1
  {
    && !Collides(Cell(g, i), occupied)
    && forall j: nat :: j < i ==> Collides(Cell(g, j), occupied)
  }

  lemma NextCell(g: Grid, i: nat)
    requires g.rows >= 1
    ensures if i % g.rows + 1 == g.rows
            then (i + 1) / g.rows == i / g.rows + 1 && (i + 1) % g.rows == 0
            else (i + 1) / g.rows == i / g.rows && (i + 1) % g.rows == i % g.rows + 1
  {
    var q, r := i / g.rows, i % g.rows;
    if r + 1 == g.rows {
      DivUnique(i + 1, g.rows, q + 1, 0);
    } else {
      DivUnique(i + 1, g.rows, q, r + 1);
    }
  }

  // ---- how much of the grid a set of rectangles can cover

  ghost function Hits(g: Grid, r: Rect, n: nat): set<int>
    requires g.rows >= 1
  {
    set j | 0 <= j < n && Meets(Cell(g, j), r)
  }

  lemma HitInBlock(g: Grid, r: Rect, j: nat, c: int, p: int)
    requires g.rows >= 1 && r.w == ITEM_WIDTH && r.h == ITEM_HEIGHT && Meets(Cell(g, j), r)
    requires PITCH_X * (c - 1) <= r.x - GRID_X - ITEM_WIDTH < PITCH_X * c
    requires PITCH_Y * (p - 1) <= r.y - g.startY - ITEM_HEIGHT < PITCH_Y * p
    ensures j - (c * g.rows + p) in {0, 1, g.rows as int, g.rows + 1}
  {
    var q, m := j / g.rows, j % g.rows;
    assert q == c || q == c + 1;
    assert m == p || m == p + 1;
    assert j == q * g.rows + m;
    assert (c + 1) * g.rows == c * g.rows + g.rows;
  }

  lemma {:induction false} SubsetSize<T>(a: set<T>, b: set<T>)
    requires a <= b
    ensures |a| <= |b|
  {
    if x :| x in a {
      SubsetSize(a - {x}, b - {x});
    }
  }

  /** An icon-sized rectangle overlaps at most two columns and two rows of the grid. */
  lemma AtMostFourCells(g: Grid, r: Rect, n: nat)
    requires g.rows >= 1 && r.w == ITEM_WIDTH && r.h == ITEM_HEIGHT
    ensures |Hits(g, r, n)| <= 4
  {
    var c := (r.x - GRID_X - ITEM_WIDTH) / PITCH_X + 1;
    var p := (r.y - g.startY - ITEM_HEIGHT) / PITCH_Y + 1;
    var base := c * g.rows + p;
    var four := {base, base + 1, base + g.rows, base + g.rows + 1};
    forall j | j in Hits(g, r, n)
      ensures j in four
    {
      HitInBlock(g, r, j, c, p);
    }
    SubsetSize(Hits(g, r, n), four);
  }

  /** A grid cell overlaps no cell but itself. */
  lemma CellMeetsOnlyItself(g: Grid, i: nat, j: nat)
    requires g.rows >= 1 && Meets(Cell(g, i), Cell(g, j))
    ensures i == j
  {
    assert i / g.rows == j / g.rows;
    assert i % g.rows == j % g.rows;
    assert i == (i / g.rows) * g.rows + i % g.rows;
    assert j == (j / g.rows) * g.rows + j % g.rows;
  }

  lemma CellHitsOnce(g: Grid, i: nat, n: nat)
    requires g.rows >= 1
    ensures |Hits(g, Cell(g, i), n)| <= 1
  {
    forall j | j in Hits(g, Cell(g, i), n)
      ensures j == i
    {
      CellMeetsOnlyItself(g, j, i);
    }
    assert Hits(g, Cell(g, i), n) <= {i};
    SubsetSize(Hits(g, Cell(g, i), n), {i});
  }

  ghost function Cover(g: Grid, occupied: seq<Rect>, n: nat): set<int>
    requires g.rows >= 1
  {
    if occupied == [] then {} else Cover(g, occupied[..|occupied| - 1], n) + Hits(g, occupied[|occupied| - 1], n)
  }

  lemma {:induction false} InCover(g: Grid, occupied: seq<Rect>, n: nat, j: nat)
    requires g.rows >= 1 && j < n && Collides(Cell(g, j), occupied)
    ensures j in Cover(g, occupied, n)
  {
    var last := occupied[|occupied| - 1];
    if !Meets(Cell(g, j), last) {
      var r :| r in occupied && Meets(Cell(g, j), r);
      assert r in occupied[..|occupied| - 1];
      InCover(g, occupied[..|occupied| - 1], n, j);
    }
  }

  ghost predicate OnCells(g: Grid, auto: seq<Rect>, idx: seq<nat>)
    requires g.rows >= 1
  {
    && |idx| == |auto|
    && forall k :: 0 <= k < |auto| ==> auto[k] == Cell(g, idx[k])
  }

  lemma {:induction false} CoverSize(g: Grid, manual: seq<Rect>, auto: seq<Rect>, idx: seq<nat>, n: nat)
    requires g.rows >= 1 && Items(manual) && OnCells(g, auto, idx)
    ensures |Cover(g, manual + auto, n)| <= 4 * |manual| + |auto|
    decreases |manual| + |auto|
  {
    var all := manual + auto;
    if auto != [] {
      var k := |auto| - 1;
      assert all[..|all| - 1] == manual + auto[..k];
      CoverSize(g, manual, auto[..k], idx[..k], n);
      CellHitsOnce(g, idx[k], n);
    } else if manual != [] {
      assert all == manual;
      var m := |manual| - 1;
      assert manual[..m] + auto == manual[..m];
      CoverSize(g, manual[..m], auto, idx, n);
      assert manual[m] in manual;
      AtMostFourCells(g, manual[m], n);
    }
  }

  ghost function Below(n: nat): (s: set<int>)
    ensures forall j :: j in s <==> 0 <= j < n
    ensures |s| == n
  {
    if n == 0 then {} else Below(n - 1) + {n - 1}
  }

  /** If the first `n` cells all collide, there are at most `4 * manual + auto` of them. */
  lemma FullPrefixBound(g: Grid, manual: seq<Rect>, auto: seq<Rect>, idx: seq<nat>, n: nat)
    requires g.rows >= 1 && Items(manual) && OnCells(g, auto, idx)
    requires forall j: nat :: j < n ==> Collides(Cell(g, j), manual + auto)
    ensures n <= 4 * |manual| + |auto|
  {
    forall j: nat | j < n
      ensures j in Cover(g, manual + auto, n)
    {
      InCover(g, manual + auto, n, j);
    }
    CoverSize(g, manual, auto, idx, n);
    SubsetSize(Below(n), Cover(g, manual + auto, n));
  }

  // ---- placement

  /** Whether a candidate overlaps an occupied rectangle. */
  method MeetsAny(candidate: Rect, occupied: seq<Rect>) returns (collision: bool)
    ensures collision <==> Collides(candidate, occupied)
  {
    collision := false;
    for i := 0 to |occupied|
      invariant !Collides(candidate, occupied[..i])
    {
      if Meets(candidate, occupied[i]) {
        return true;
      }
      assert occupied[..i + 1] == occupied[..i] + [occupied[i]];
    }
    assert occupied[..|occupied|] == occupied;
  }

  /** The cursor's move to the next cell: down the column, then to the top of the next. */
  method Advance(g: Grid, maxY: int, x: int, y: int, ghost at: nat) returns (gridX: int, gridY: int)
    requires g.rows == Rows(g.startY, maxY) && Cell(g, at) == Item(x, y)
    ensures Cell(g, at + 1) == Item(gridX, gridY)
  {
    NextCell(g, at);
    gridX, gridY := x, y + ITEM_HEIGHT + 10;
    if gridY > maxY {
      gridY := g.startY;
      gridX := gridX + ITEM_WIDTH + 10;
    }
  }

  /** The `while (TRUE)` search: move the cursor on from cell `at` to the next one that overlaps
      nothing. It ends because the occupied rectangles cover only so many cells. */
  method NextFree(g: Grid, maxY: int, manual: seq<Rect>, auto: seq<Rect>, ghost idx: seq<nat>,
                  x: int, y: int, ghost from: nat)
    returns (gridX: int, gridY: int, ghost at: nat)
    requires Items(manual) && g.rows == Rows(g.startY, maxY) && OnCells(g, auto, idx)
    requires Cell(g, from) == Item(x, y)
    requires forall j: nat :: j < from ==> Collides(Cell(g, j), manual + auto)
    ensures Cell(g, at) == Item(gridX, gridY)
    ensures FirstFree(g, manual + auto, at) && at <= 4 * |manual| + |auto|
  {
    gridX, gridY, at := x, y, from;
    FullPrefixBound(g, manual, auto, idx, at);
    var collision := MeetsAny(Item(gridX, gridY), manual + auto);
    while collision
      invariant collision <==> Collides(Item(gridX, gridY), manual + auto)
      invariant Cell(g, at) == Item(gridX, gridY)
      invariant forall j: nat :: j < at ==> Collides(Cell(g, j), manual + auto)
      invariant at <= 4 * |manual| + |auto|
      decreases 4 * |manual| + |auto| - at
    {
      FullPrefixBound(g, manual, auto, idx, at + 1);
      gridX, gridY := Advance(g, maxY, gridX, gridY, at);
      at := at + 1;
      collision := MeetsAny(Item(gridX, gridY), manual + auto);
    }
  }

  function GridFor(bars: bool, screenH: int): (g: Grid)
    ensures g.rows >= 1
  {
    Grid(StartY(bars), Rows(StartY(bars), MaxY(bars, screenH)))
  }

  /** Every automatic icon sits on the first cell that was free when its turn came, within the
      bound. */
  ghost predicate AutoPlaced(g: Grid, manual: seq<Rect>, auto: seq<Rect>, idx: seq<nat>)
    requires g.rows >= 1
  {
    && OnCells(g, auto, idx)
    && forall k :: 0 <= k < |auto| ==> FirstFree(g, manual + auto[..k], idx[k]) && idx[k] <= 4 * |manual| + k
  }

  lemma Extend(g: Grid, manual: seq<Rect>, auto: seq<Rect>, idx: seq<nat>, at: nat)
    requires g.rows >= 1 && AutoPlaced(g, manual, auto, idx)
    requires FirstFree(g, manual + auto, at) && at <= 4 * |manual| + |auto|
    ensures AutoPlaced(g, manual, auto + [Cell(g, at)], idx + [at])
    ensures forall j: nat :: j < at ==> Collides(Cell(g, j), manual + (auto + [Cell(g, at)]))
  {
    var longer := auto + [Cell(g, at)];
    forall k | 0 <= k < |longer|
      ensures longer[..k] == if k < |auto| then auto[..k] else auto
    {
    }
    assert forall r :: r in manual + auto ==> r in manual + longer;
  }

  /** The second loop of `refresh_icons`: put `n` icons on the grid next to the rectangles
      already occupied. The cursor is never reset, yet each icon gets the first free cell of
      the whole grid, no farther than `4 * |manual| + k` for the `k`-th icon. */
  method PlaceAuto(manual: seq<Rect>, n: nat, bars: bool, screenH: int)
    returns (auto: seq<Rect>, ghost idx: seq<nat>)
    requires Items(manual)
    ensures |auto| == n && AutoPlaced(GridFor(bars, screenH), manual, auto, idx)
  {
    var maxY := MaxY(bars, screenH);
    var g := GridFor(bars, screenH);
    var gridX, gridY := GRID_X, g.startY;
    auto, idx := [], [];
    ghost var at: nat := 0;
    assert Cell(g, 0) == Item(gridX, gridY);
    while |auto| < n
      invariant |auto| <= n && AutoPlaced(g, manual, auto, idx)
      invariant Cell(g, at) == Item(gridX, gridY)
      invariant forall j: nat :: j < at ==> Collides(Cell(g, j), manual + auto)
    {
      gridX, gridY, at := NextFree(g, maxY, manual, auto, idx, gridX, gridY, at);
      ghost var before := auto;
      auto, idx := auto + [Item(gridX, gridY)], idx + [at];
      Extend(g, manual, before, idx[..|before|], at);
      assert idx == idx[..|before|] + [at];
    }
  }

  // ---- what the placement means

  lemma Apart(g: Grid, manual: seq<Rect>, auto: seq<Rect>, idx: seq<nat>, j: nat, k: nat)
    requires g.rows >= 1 && AutoPlaced(g, manual, auto, idx) && j < k < |auto|
    ensures !Meets(auto[j], auto[k]) && !Meets(auto[k], auto[j]) && idx[j] < idx[k]
  {
    assert FirstFree(g, manual + auto[..k], idx[k]);
    assert auto[..k][j] in manual + auto[..k];
    assert FirstFree(g, manual + auto[..j], idx[j]);
    assert forall r :: r in manual + auto[..j] ==> r in manual + auto[..k];
  }

  /** No automatic icon overlaps another icon, automatic or manual. */
  lemma AutoOverlapsNothing(g: Grid, manual: seq<Rect>, auto: seq<Rect>, idx: seq<nat>, k: nat)
    requires g.rows >= 1 && AutoPlaced(g, manual, auto, idx) && k < |auto|
    ensures forall r :: r in manual ==> !Meets(auto[k], r)
    ensures forall j :: 0 <= j < |auto| && j != k ==> !Meets(auto[k], auto[j])
    ensures forall j :: k < j < |auto| ==> idx[k] < idx[j]
  {
    assert FirstFree(g, manual + auto[..k], idx[k]);
    forall r | r in manual
      ensures !Meets(auto[k], r)
    {
      assert r in manual + auto[..k];
    }
    forall j | 0 <= j < |auto| && j != k
      ensures !Meets(auto[k], auto[j])
      ensures k < j ==> idx[k] < idx[j]
    {
      Apart(g, manual, auto, idx, if j < k then j else k, if j < k then k else j);
    }
  }

  // ---- the grid in numbers

  /** The first row, and every row that fits. */
  predicate Usable(bars: bool, screenH: int, r: int) {
    r == 0 || (if bars then 40 else 20) + 138 * r + 128 <= screenH - if bars then 40 else 0
  }

  /** Cells are 120 by 128, 130 and 138 apart, from (20, 20), or from (20, 40) below a panel; a row
      after the first counts if and only if it ends above the lower edge, or the panel there. */
  lemma GridInNumbers(bars: bool, screenH: int, i: nat)
    ensures var g := GridFor(bars, screenH); var top := if bars then 40 else 20;
      && Cell(g, i) == Rect(20 + 130 * (i / g.rows), top + 138 * (i % g.rows), 120, 128)
      && 0 <= i % g.rows < g.rows
    ensures var g := GridFor(bars, screenH); var top := if bars then 40 else 20;
      forall r: nat :: r < g.rows <==> Usable(bars, screenH, r)
  {
    var g := GridFor(bars, screenH);
    assert forall r: nat :: r >= 1 ==> (r < g.rows <==> g.startY + 138 * r <= MaxY(bars, screenH));
  }

  /** The cell in column `c` and row `r` has a number, smaller for cells farther to the left or
      higher in the same column. */
  lemma CellNumber(bars: bool, screenH: int, c: nat, r: nat) returns (i: nat)
    requires Usable(bars, screenH, r)
    ensures Cell(GridFor(bars, screenH), i) == Rect(20 + 130 * c, (if bars then 40 else 20) + 138 * r, 120, 128)
    ensures i / GridFor(bars, screenH).rows == c && i % GridFor(bars, screenH).rows == r
  {
    var g := GridFor(bars, screenH);
    MulMonotone(0, c, g.rows);
    i := c * g.rows + r;
    GridInNumbers(bars, screenH, i);
    DivUnique(i, g.rows, c, r);
  }

  lemma BeforeIsSmaller(g: Grid, i: nat, j: nat)
    requires g.rows >= 1
    requires i / g.rows < j / g.rows || (i / g.rows == j / g.rows && i % g.rows < j % g.rows)
    ensures i < j
  {
    assert i == (i / g.rows) * g.rows + i % g.rows && j == (j / g.rows) * g.rows + j % g.rows;
    if i / g.rows < j / g.rows {
      MulMonotone(i / g.rows + 1, j / g.rows, g.rows);
      assert (i / g.rows + 1) * g.rows == (i / g.rows) * g.rows + g.rows;
    }
  }

  lemma SmallerIsBefore(g: Grid, i: nat, j: nat)
    requires g.rows >= 1 && i < j
    ensures i / g.rows < j / g.rows || (i / g.rows == j / g.rows && i % g.rows < j % g.rows)
  {
    if i / g.rows > j / g.rows || (i / g.rows == j / g.rows && i % g.rows > j % g.rows) {
      BeforeIsSmaller(g, j, i);
    }
    assert i == (i / g.rows) * g.rows + i % g.rows && j == (j / g.rows) * g.rows + j % g.rows;
  }

  lemma PlacedInNumbers(bars: bool, screenH: int, manual: seq<Rect>, auto: seq<Rect>, idx: seq<nat>, k: nat)
    requires AutoPlaced(GridFor(bars, screenH), manual, auto, idx) && k < |auto|
    ensures var r, top := auto[k], if bars then 40 else 20;
      && r.w == 120 && r.h == 128 && r.x >= 20 && (r.x - 20) % 130 == 0 && r.y >= top && (r.y - top) % 138 == 0
      && (r.y == top || r.y + 128 <= screenH - if bars then 40 else 0)
  {
    GridInNumbers(bars, screenH, idx[k]);
    assert Usable(bars, screenH, idx[k] % GridFor(bars, screenH).rows);
  }

  /** An earlier cell was taken when the icon was placed. */
  lemma EarlierTaken(bars: bool, screenH: int, manual: seq<Rect>, auto: seq<Rect>, idx: seq<nat>, k: nat,
                     c: nat, r: nat)
    requires AutoPlaced(GridFor(bars, screenH), manual, auto, idx) && k < |auto| && Usable(bars, screenH, r)
    requires var y := (if bars then 40 else 20) + 138 * r;
      20 + 130 * c < auto[k].x || (20 + 130 * c == auto[k].x && y < auto[k].y)
    ensures exists q :: q in manual + auto[..k]
              && Meets(Rect(20 + 130 * c, (if bars then 40 else 20) + 138 * r, 120, 128), q)
  {
    var g := GridFor(bars, screenH);
    var i := CellNumber(bars, screenH, c, r);
    GridInNumbers(bars, screenH, idx[k]);
    BeforeIsSmaller(g, i, idx[k]);
    assert FirstFree(g, manual + auto[..k], idx[k]);
    assert Collides(Cell(g, i), manual + auto[..k]);
  }

  lemma PlacedInOrder(bars: bool, screenH: int, manual: seq<Rect>, auto: seq<Rect>, idx: seq<nat>, j: nat, k: nat)
    requires AutoPlaced(GridFor(bars, screenH), manual, auto, idx) && j < k < |auto|
    ensures auto[j].x < auto[k].x || (auto[j].x == auto[k].x && auto[j].y < auto[k].y)
  {
    Apart(GridFor(bars, screenH), manual, auto, idx, j, k);
    SmallerIsBefore(GridFor(bars, screenH), idx[j], idx[k]);
  }

  // ---- the whole refresh

  predicate IsManual(e: Entry, manualMode: bool) {
    manualMode && e.saved.At?
  }

  /** A saved height is kept between the panels; a screen too low for that wins over the top. */
  function ClampY(y: int, bars: bool, screenH: int): (c: int)
    ensures bars ==> c <= screenH - ITEM_HEIGHT - BAR
    ensures bars && screenH >= ITEM_HEIGHT + 2 * BAR ==> c >= BAR
    ensures !bars || BAR <= y <= screenH - ITEM_HEIGHT - BAR ==> c == y
  {
    if !bars then y else Min(Max(y, BAR), screenH - ITEM_HEIGHT - BAR)
  }

  function ManualRect(e: Entry, bars: bool, screenH: int): Rect
    requires e.saved.At?
  {
    Item(e.saved.x, ClampY(e.saved.y, bars, screenH))
  }

  /** The first loop of `refresh_icons`: icons with a saved position are put there, the others
      wait. Returns the rectangles put down and the indices of the files that wait. */
  method PlaceManual(files: seq<Entry>, manualMode: bool, bars: bool, screenH: int)
    returns (pos: seq<Rect>, occupied: seq<Rect>, waiting: seq<nat>)
    ensures |pos| == |files| && Items(occupied)
    ensures forall i :: 0 <= i < |files| && IsManual(files[i], manualMode) ==>
              pos[i] == ManualRect(files[i], bars, screenH) && pos[i] in occupied
    ensures forall i :: i in waiting <==> 0 <= i < |files| && !IsManual(files[i], manualMode)
    ensures forall j :: 0 <= j < |waiting| ==> waiting[j] < |files|
    ensures forall j, k :: 0 <= j < k < |waiting| ==> waiting[j] < waiting[k]
    ensures |occupied| + |waiting| == |files|
    ensures forall r :: r in occupied ==> exists i :: 0 <= i < |files| && i !in waiting && pos[i] == r
  {
    occupied, waiting := [], [];
    pos := seq(|files|, _ => Item(0, 0));
    for i := 0 to |files|
      invariant |pos| == |files| && Items(occupied)
      invariant forall j :: 0 <= j < i && IsManual(files[j], manualMode) ==>
                  pos[j] == ManualRect(files[j], bars, screenH) && pos[j] in occupied
      invariant forall j :: j in waiting <==> 0 <= j < i && !IsManual(files[j], manualMode)
      invariant forall j :: 0 <= j < |waiting| ==> waiting[j] < i
      invariant forall j, k :: 0 <= j < k < |waiting| ==> waiting[j] < waiting[k]
      invariant |occupied| + |waiting| == i
      invariant forall r :: r in occupied ==> exists j :: 0 <= j < i && j !in waiting && pos[j] == r
    {
      if manualMode && files[i].saved.At? {
        var y := files[i].saved.y;
        if bars {
          if y < BAR { y := BAR; }
          if y > screenH - ITEM_HEIGHT - BAR { y := screenH - ITEM_HEIGHT - BAR; }
        }
        var r := Item(files[i].saved.x, y);
        ghost var before := pos;
        pos := pos[i := r];
        occupied := [r] + occupied;
        assert pos[i] == r;
        forall q | q in occupied
          ensures exists j :: 0 <= j < i + 1 && j !in waiting && pos[j] == q
        {
          if q != r {
            var j :| 0 <= j < i && j !in waiting && before[j] == q;
            assert pos[j] == q;
          }
        }
      } else {
        waiting := waiting + [i];
      }
    }
  }

  /** Hand the grid cells to the waiting files in their order. */
  method Spread(before: seq<Rect>, waiting: seq<nat>, placed: seq<Rect>) returns (pos: seq<Rect>)
    requires |waiting| == |placed|
    requires forall j :: 0 <= j < |waiting| ==> waiting[j] < |before|
    requires forall j, k :: 0 <= j < k < |waiting| ==> waiting[j] < waiting[k]
    ensures |pos| == |before|
    ensures forall j :: 0 <= j < |before| && j !in waiting ==> pos[j] == before[j]
    ensures forall j :: 0 <= j < |waiting| ==> pos[waiting[j]] == placed[j]
  {
    pos := before;
    for k := 0 to |waiting|
      invariant |pos| == |before|
      invariant forall j :: 0 <= j < |before| && j !in waiting ==> pos[j] == before[j]
      invariant forall j :: 0 <= j < k ==> pos[waiting[j]] == placed[j]
    {
      pos := pos[waiting[k] := placed[k]];
    }
  }

  /** The cell in column `c` and row `r` overlaps a saved icon or an earlier file. */
  ghost predicate Taken(pos: seq<Rect>, pending: seq<nat>, i: nat, bars: bool, c: nat, r: nat) {
    exists j :: 0 <= j < |pos| && j != i && (j !in pending || j < i)
                && Meets(Rect(20 + 130 * c, (if bars then 40 else 20) + 138 * r, 120, 128), pos[j])
  }

  /** What a refresh leaves: the saved icons at their places and the `pending` ones, in the order of
      the files, each on the first free cell of the grid. */
  ghost predicate Refreshed(files: seq<Entry>, manualMode: bool, bars: bool, screenH: int, pos: seq<Rect>,
                            pending: seq<nat>, manual: seq<Rect>, auto: seq<Rect>, idx: seq<nat>) {
    && |pos| == |files|
    && (forall i :: 0 <= i < |files| && IsManual(files[i], manualMode) ==>
          pos[i] == ManualRect(files[i], bars, screenH))
    && (forall i :: i in pending <==> 0 <= i < |files| && !IsManual(files[i], manualMode))
    && (forall i, j :: 0 <= i < j < |pending| ==> pending[i] < pending[j])
    && |manual| + |pending| == |files|
    && (forall r :: r in manual ==> exists i :: 0 <= i < |files| && i !in pending && pos[i] == r)
    && (forall i :: 0 <= i < |files| && i !in pending ==> pos[i] in manual)
    && |auto| == |pending| && AutoPlaced(GridFor(bars, screenH), manual, auto, idx)
    && (forall k :: 0 <= k < |pending| ==> pending[k] < |files| && pos[pending[k]] == auto[k])
  }

  lemma NothingOverlapped(files: seq<Entry>, manualMode: bool, bars: bool, screenH: int, pos: seq<Rect>,
                          pending: seq<nat>, manual: seq<Rect>, auto: seq<Rect>, idx: seq<nat>, i: nat, j: nat)
    requires Refreshed(files, manualMode, bars, screenH, pos, pending, manual, auto, idx)
    requires i < |files| && j < |files| && i in pending && i != j
    ensures !Meets(pos[i], pos[j])
  {
    var k :| 0 <= k < |pending| && pending[k] == i;
    AutoOverlapsNothing(GridFor(bars, screenH), manual, auto, idx, k);
    if j in pending {
      var l :| 0 <= l < |pending| && pending[l] == j;
    }
  }

  lemma OnScreen(files: seq<Entry>, manualMode: bool, bars: bool, screenH: int, pos: seq<Rect>,
                 pending: seq<nat>, manual: seq<Rect>, auto: seq<Rect>, idx: seq<nat>, i: nat)
    requires Refreshed(files, manualMode, bars, screenH, pos, pending, manual, auto, idx) && i in pending
    ensures i < |files| && pos[i].w == 120 && pos[i].h == 128 && pos[i].x >= 20 && (pos[i].x - 20) % 130 == 0
    ensures pos[i].y >= (if bars then 40 else 20) && (pos[i].y - if bars then 40 else 20) % 138 == 0
    ensures pos[i].y == (if bars then 40 else 20) || pos[i].y + 128 <= screenH - if bars then 40 else 0
  {
    var k :| 0 <= k < |pending| && pending[k] == i;
    PlacedInNumbers(bars, screenH, manual, auto, idx, k);
  }

  lemma InOrder(files: seq<Entry>, manualMode: bool, bars: bool, screenH: int, pos: seq<Rect>,
                pending: seq<nat>, manual: seq<Rect>, auto: seq<Rect>, idx: seq<nat>, i: nat, j: nat)
    requires Refreshed(files, manualMode, bars, screenH, pos, pending, manual, auto, idx)
    requires i in pending && j in pending && i < j
    ensures i < j < |pos| && (pos[i].x < pos[j].x || (pos[i].x == pos[j].x && pos[i].y < pos[j].y))
  {
    var k :| 0 <= k < |pending| && pending[k] == i;
    var l :| 0 <= l < |pending| && pending[l] == j;
    PlacedInOrder(bars, screenH, manual, auto, idx, k, l);
  }

  lemma StillTaken(files: seq<Entry>, manualMode: bool, bars: bool, screenH: int, pos: seq<Rect>,
                   pending: seq<nat>, manual: seq<Rect>, auto: seq<Rect>, idx: seq<nat>, k: nat, c: nat, r: nat)
    requires Refreshed(files, manualMode, bars, screenH, pos, pending, manual, auto, idx) && k < |pending|
    requires exists q :: q in manual + auto[..k]
               && Meets(Rect(20 + 130 * c, (if bars then 40 else 20) + 138 * r, 120, 128), q)
    ensures Taken(pos, pending, pending[k], bars, c, r)
  {
    var cell := Rect(20 + 130 * c, (if bars then 40 else 20) + 138 * r, 120, 128);
    var q :| q in manual + auto[..k] && Meets(cell, q);
    if q in manual {
      var i :| 0 <= i < |files| && i !in pending && pos[i] == q;
      assert Meets(cell, pos[i]);
    } else {
      var j :| 0 <= j < k && auto[..k][j] == q;
      assert Meets(cell, pos[pending[j]]);
    }
  }

  lemma FirstUntaken(files: seq<Entry>, manualMode: bool, bars: bool, screenH: int, pos: seq<Rect>,
                     pending: seq<nat>, manual: seq<Rect>, auto: seq<Rect>, idx: seq<nat>, i: nat, c: nat, r: nat)
    requires Refreshed(files, manualMode, bars, screenH, pos, pending, manual, auto, idx)
    requires i in pending && !Taken(pos, pending, i, bars, c, r)
    ensures i < |files| && var y := (if bars then 40 else 20) + 138 * r;
      || 20 + 130 * c > pos[i].x || (20 + 130 * c == pos[i].x && y >= pos[i].y)
      || (r > 0 && y + 128 > screenH - if bars then 40 else 0)
  {
    var k :| 0 <= k < |pending| && pending[k] == i;
    var y := (if bars then 40 else 20) + 138 * r;
    if Usable(bars, screenH, r) && (20 + 130 * c < pos[i].x || (20 + 130 * c == pos[i].x && y < pos[i].y)) {
      EarlierTaken(bars, screenH, manual, auto, idx, k, c, r);
      StillTaken(files, manualMode, bars, screenH, pos, pending, manual, auto, idx, k, c, r);
    }
  }

  lemma Overlapless(files: seq<Entry>, manualMode: bool, bars: bool, screenH: int, pos: seq<Rect>,
                    pending: seq<nat>, manual: seq<Rect>, auto: seq<Rect>, idx: seq<nat>)
    requires Refreshed(files, manualMode, bars, screenH, pos, pending, manual, auto, idx)
    ensures forall i, j :: 0 <= i < |files| && 0 <= j < |files| && i in pending && i != j ==> !Meets(pos[i], pos[j])
  {
    forall i, j | 0 <= i < |files| && 0 <= j < |files| && i in pending && i != j
      ensures !Meets(pos[i], pos[j])
    {
      NothingOverlapped(files, manualMode, bars, screenH, pos, pending, manual, auto, idx, i, j);
    }
  }

  lemma InNumbers(files: seq<Entry>, manualMode: bool, bars: bool, screenH: int, pos: seq<Rect>,
                  pending: seq<nat>, manual: seq<Rect>, auto: seq<Rect>, idx: seq<nat>)
    requires Refreshed(files, manualMode, bars, screenH, pos, pending, manual, auto, idx)
    ensures forall i :: i in pending <==> 0 <= i < |files| && !(manualMode && files[i].saved.At?)
    ensures forall i :: 0 <= i < |files| && manualMode && files[i].saved.At? ==>
      && pos[i].x == files[i].saved.x && pos[i].w == 120 && pos[i].h == 128
      && pos[i].y == if !bars then files[i].saved.y
                     else if files[i].saved.y > screenH - 168 then screenH - 168
                     else if files[i].saved.y >= 40 then files[i].saved.y
                     else if screenH < 208 then screenH - 168 else 40
    ensures forall i :: 0 <= i < |files| && i in pending ==>
      && pos[i].w == 120 && pos[i].h == 128 && pos[i].x >= 20 && (pos[i].x - 20) % 130 == 0
      && pos[i].y >= (if bars then 40 else 20) && (pos[i].y - if bars then 40 else 20) % 138 == 0
      && (pos[i].y == (if bars then 40 else 20) || pos[i].y + 128 <= screenH - if bars then 40 else 0)
    ensures forall i, j :: 0 <= i < j < |files| && i in pending && j in pending ==>
      pos[i].x < pos[j].x || (pos[i].x == pos[j].x && pos[i].y < pos[j].y)
    ensures forall i: nat, c: nat, r: nat :: i < |files| && i in pending && !Taken(pos, pending, i, bars, c, r) ==>
      var y := (if bars then 40 else 20) + 138 * r;
      || 20 + 130 * c > pos[i].x || (20 + 130 * c == pos[i].x && y >= pos[i].y)
      || (r > 0 && y + 128 > screenH - if bars then 40 else 0)
  {
    forall i | 0 <= i < |files| && i in pending
      ensures pos[i].w == 120 && pos[i].h == 128 && pos[i].x >= 20 && (pos[i].x - 20) % 130 == 0
      ensures pos[i].y >= (if bars then 40 else 20) && (pos[i].y - if bars then 40 else 20) % 138 == 0
      ensures pos[i].y == (if bars then 40 else 20) || pos[i].y + 128 <= screenH - if bars then 40 else 0
    {
      OnScreen(files, manualMode, bars, screenH, pos, pending, manual, auto, idx, i);
    }
    forall i, j | 0 <= i < j < |files| && i in pending && j in pending
      ensures pos[i].x < pos[j].x || (pos[i].x == pos[j].x && pos[i].y < pos[j].y)
    {
      InOrder(files, manualMode, bars, screenH, pos, pending, manual, auto, idx, i, j);
    }
    forall i: nat, c: nat, r: nat | i < |files| && i in pending && !Taken(pos, pending, i, bars, c, r)
      ensures var y := (if bars then 40 else 20) + 138 * r;
        || 20 + 130 * c > pos[i].x || (20 + 130 * c == pos[i].x && y >= pos[i].y)
        || (r > 0 && y + 128 > screenH - if bars then 40 else 0)
    {
      FirstUntaken(files, manualMode, bars, screenH, pos, pending, manual, auto, idx, i, c, r);
    }
  }

  /** Positions of all icons, in the sorted order of the files. `pending` are the files without
      a usable saved position, `idx` the grid cells they get: no automatic icon overlaps any
      other icon, whatever positions were saved. */
  method Refresh(files: seq<Entry>, manualMode: bool, bars: bool, screenH: int)
    returns (pos: seq<Rect>, ghost pending: seq<nat>, ghost manual: seq<Rect>,
             ghost auto: seq<Rect>, ghost idx: seq<nat>)
    ensures Refreshed(files, manualMode, bars, screenH, pos, pending, manual, auto, idx)
    ensures forall i, j :: 0 <= i < |files| && 0 <= j < |files| && i in pending && i != j ==> !Meets(pos[i], pos[j])
    // the same in numbers: who waits, and saved icons between the panels
    ensures forall i :: i in pending <==> 0 <= i < |files| && !(manualMode && files[i].saved.At?)
    ensures forall i :: 0 <= i < |files| && manualMode && files[i].saved.At? ==>
      && pos[i].x == files[i].saved.x && pos[i].w == 120 && pos[i].h == 128
      && pos[i].y == if !bars then files[i].saved.y
                     else if files[i].saved.y > screenH - 168 then screenH - 168
                     else if files[i].saved.y >= 40 then files[i].saved.y
                     else if screenH < 208 then screenH - 168 else 40
    // the others on the grid and on the screen
    ensures forall i :: 0 <= i < |files| && i in pending ==>
      && pos[i].w == 120 && pos[i].h == 128 && pos[i].x >= 20 && (pos[i].x - 20) % 130 == 0
      && pos[i].y >= (if bars then 40 else 20) && (pos[i].y - if bars then 40 else 20) % 138 == 0
      && (pos[i].y == (if bars then 40 else 20) || pos[i].y + 128 <= screenH - if bars then 40 else 0)
    // in columns, in their order, and with no usable cell left out
    ensures forall i, j :: 0 <= i < j < |files| && i in pending && j in pending ==>
      pos[i].x < pos[j].x || (pos[i].x == pos[j].x && pos[i].y < pos[j].y)
    ensures forall i: nat, c: nat, r: nat :: i < |files| && i in pending && !Taken(pos, pending, i, bars, c, r) ==>
      var y := (if bars then 40 else 20) + 138 * r;
      || 20 + 130 * c > pos[i].x || (20 + 130 * c == pos[i].x && y >= pos[i].y)
      || (r > 0 && y + 128 > screenH - if bars then 40 else 0)
  {
    var occupied, waiting;
    pos, occupied, waiting := PlaceManual(files, manualMode, bars, screenH);
    var placed;
    placed, idx := PlaceAuto(occupied, |waiting|, bars, screenH);
    pos := Spread(pos, waiting, placed);
    pending, manual, auto := waiting, occupied, placed;
    Overlapless(files, manualMode, bars, screenH, pos, pending, manual, auto, idx);
    InNumbers(files, manualMode, bars, screenH, pos, pending, manual, auto, idx);
  }
}
