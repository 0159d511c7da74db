/** The desktop's recursive copy and move (desktop/src/filesystem.c:21-76) over a file system
    without symbolic links. */
module FileTree {
  import opened Collections

  datatype Entry = File(data: string) | Directory

  /** File names from the root down. */
  type Path = seq<string>

  type Fs = map<Path, Entry>

  function Lookup(fs: Fs, p: Path): Maybe<Entry> { if p in fs then Some(fs[p]) else None }

  predicate IsDirectory(fs: Fs, p: Path) { p in fs && fs[p].Directory? }

  function Parent(p: Path): Path
    requires p != []
  {
    p[..|p| - 1]
  }

  /** Everything lies in a directory, up to the root. */
  ghost predicate Tree(fs: Fs) {
    && IsDirectory(fs, [])
    && forall p :: p in fs && p != [] ==> IsDirectory(fs, Parent(p))
  }

  lemma {:induction false} Ancestors(fs: Fs, p: Path, k: nat)
    requires Tree(fs) && p in fs && k < |p|
    ensures IsDirectory(fs, p[..k])
    decreases |p|
  {
    assert IsDirectory(fs, Parent(p));
    if k < |p| - 1 {
      Ancestors(fs, Parent(p), k);
      assert Parent(p)[..k] == p[..k];
    }
  }

  predicate Apart(p: Path, q: Path) { !(p <= q) && !(q <= p) }

  /** The source of what lands at `p`. */
  function Origin(src: Path, dest: Path, p: Path): Path
    requires dest <= p
  {
    src + p[|dest|..]
  }

  function Target(src: Path, dest: Path, p: Path): Path
    requires src <= p
  {
    dest + p[|src|..]
  }

  // ---- what a copy or move leaves

  /** A directory of the source facing a file of the destination. */
  predicate Clash(fs: Fs, src: Path, dest: Path, p: Path) {
    dest <= p && IsDirectory(fs, Origin(src, dest, p)) && p in fs && fs[p].File?
  }

  /** A path after a successful call. */
  function Final(fs: Fs, src: Path, dest: Path, move: bool, p: Path): Maybe<Entry> {
    if dest <= p && Origin(src, dest, p) in fs && !Clash(fs, src, dest, p) then Some(fs[Origin(src, dest, p)])
    else if move && src <= p then None
    else Lookup(fs, p)
  }

  ghost predicate Done(fs: Fs, now: Fs, src: Path, dest: Path, move: bool) {
    forall p :: Lookup(now, p) == Final(fs, src, dest, move, p)
  }

  /** The old tree overlaid by the source, without the source after a move. */
  function Overlaid(fs: Fs, src: Path, dest: Path, move: bool, p: Path): Maybe<Entry> {
    if dest <= p && Origin(src, dest, p) in fs then Some(fs[Origin(src, dest, p)])
    else if move && src <= p then None
    else Lookup(fs, p)
  }

  ghost predicate Children(fs: Fs, p: Path, names: set<string>) {
    forall n :: n in names <==> p + [n] in fs
  }

  /** A call that succeeds has found nothing in such a directory. */
  lemma ClashIsEmpty(fs: Fs, now: Fs, src: Path, dest: Path, move: bool, p: Path)
    requires Done(fs, now, src, dest, move) && Tree(now) && Clash(fs, src, dest, p) && Apart(src, dest)
    ensures Children(fs, Origin(src, dest, p), {})
  {
    forall n: string
      ensures Origin(src, dest, p) + [n] !in fs
    {
      var q := p + [n];
      assert Origin(src, dest, q) == Origin(src, dest, p) + [n] && Parent(q) == p;
      assert Lookup(now, p) == Final(fs, src, dest, move, p) && Lookup(now, q) == Final(fs, src, dest, move, q);
      assert q !in now;
      assert !Clash(fs, src, dest, q) || q in fs;
    }
  }

  /** A successful call overlays the destination by the source exactly when no empty directory of
      the source faces a file of the destination. */
  lemma OverlaidUnlessClash(fs: Fs, now: Fs, src: Path, dest: Path, move: bool)
    requires Done(fs, now, src, dest, move) && Tree(now) && Apart(src, dest)
    ensures (forall p :: Lookup(now, p) == Overlaid(fs, src, dest, move, p))
       <==> !exists p :: Clash(fs, src, dest, p) && Children(fs, Origin(src, dest, p), {})
  {
    forall p | Clash(fs, src, dest, p)
      ensures Lookup(now, p) != Overlaid(fs, src, dest, move, p) && Children(fs, Origin(src, dest, p), {})
    {
      assert Lookup(now, p) == Final(fs, src, dest, move, p);
      ClashIsEmpty(fs, now, src, dest, move, p);
    }
    forall p | !Clash(fs, src, dest, p)
      ensures Lookup(now, p) == Overlaid(fs, src, dest, move, p)
    {
      assert Lookup(now, p) == Final(fs, src, dest, move, p);
    }
  }

  // ---- what even a failed call keeps

  ghost predicate TargetKept(fs: Fs, now: Fs, src: Path, dest: Path, p: Path)
    requires dest <= p
  {
    || Lookup(now, p) == Lookup(fs, p)
    || (Origin(src, dest, p) in fs && !Clash(fs, src, dest, p) && Lookup(now, p) == Some(fs[Origin(src, dest, p)]))
  }

  /** A path of the source is still there, or was moved, a file to its target. */
  ghost predicate SourceKept(fs: Fs, now: Fs, src: Path, dest: Path, move: bool, p: Path)
    requires src <= p
  {
    || Lookup(now, p) == Lookup(fs, p)
    || (move && p in fs && p !in now && (fs[p].File? ==> Lookup(now, Target(src, dest, p)) == Lookup(fs, p)))
  }

  ghost predicate KeptAt(fs: Fs, now: Fs, src: Path, dest: Path, move: bool, p: Path) {
    if dest <= p then TargetKept(fs, now, src, dest, p)
    else if src <= p then SourceKept(fs, now, src, dest, move, p)
    else Lookup(now, p) == Lookup(fs, p)
  }

  /** Nothing is lost, invented, or changed elsewhere. */
  ghost predicate Kept(fs: Fs, now: Fs, src: Path, dest: Path, move: bool) {
    forall p :: KeptAt(fs, now, src, dest, move, p)
  }

  lemma DoneKept(fs: Fs, now: Fs, src: Path, dest: Path, move: bool)
    requires Done(fs, now, src, dest, move) && Apart(src, dest) && Tree(fs)
    ensures Kept(fs, now, src, dest, move)
  {
    forall p: Path
      ensures KeptAt(fs, now, src, dest, move, p)
    {
      assert Lookup(now, p) == Final(fs, src, dest, move, p);
      if src <= p {
        var t := Target(src, dest, p);
        assert Lookup(now, t) == Final(fs, src, dest, move, t);
        assert Origin(src, dest, t) == p;
      }
    }
  }

  // ---- the loop over the children

  /** A path below a child already handled, or the destination itself. */
  predicate Touched(src: Path, dest: Path, names: set<string>, p: Path) {
    || p == dest
    || (dest <= p && p != dest && p[|dest|] in names)
    || (src <= p && p != src && p[|src|] in names)
  }

  /** A path while the children `names` have been handled. */
  function PartAt(fs: Fs, src: Path, dest: Path, move: bool, names: set<string>, p: Path): Maybe<Entry> {
    if Touched(src, dest, names, p) then Final(fs, src, dest, move, p) else Lookup(fs, p)
  }

  ghost predicate Partly(fs: Fs, now: Fs, src: Path, dest: Path, move: bool, names: set<string>) {
    forall p :: Lookup(now, p) == PartAt(fs, src, dest, move, names, p)
  }

  lemma ApartChildren(src: Path, dest: Path, n: string)
    requires Apart(src, dest)
    ensures Apart(src + [n], dest + [n])
  {
    if |src| <= |dest| {
      assert src == (src + [n])[..|src|] && (dest + [n])[..|src|] == dest[..|src|];
    } else {
      assert dest == (dest + [n])[..|dest|] && (src + [n])[..|dest|] == src[..|dest|];
    }
  }

  /** A child's result, seen from the parent's start. */
  lemma ChildStep(fs: Fs, was: Fs, now: Fs, src: Path, dest: Path, move: bool, names: set<string>, n: string)
    requires Apart(src, dest) && n !in names
    requires Partly(fs, was, src, dest, move, names) && Done(was, now, src + [n], dest + [n], move)
    ensures Partly(fs, now, src, dest, move, names + {n})
  {
    ApartChildren(src, dest, n);
    forall p: Path
      ensures Lookup(now, p) == PartAt(fs, src, dest, move, names + {n}, p)
    {
      assert Lookup(now, p) == Final(was, src + [n], dest + [n], move, p);
      assert Lookup(was, p) == PartAt(fs, src, dest, move, names, p);
      if dest + [n] <= p {
        var o := Origin(src + [n], dest + [n], p);
        assert p == dest + [n] + p[|dest| + 1..];
        assert o == Origin(src, dest, p);
        assert Lookup(was, o) == PartAt(fs, src, dest, move, names, o);
        assert o[..|src|] == src && o[|src|] == n;
      }
    }
  }

  lemma PartlyKept(fs: Fs, was: Fs, src: Path, dest: Path, move: bool, names: set<string>)
    requires Apart(src, dest) && Tree(fs) && Partly(fs, was, src, dest, move, names)
    ensures Kept(fs, was, src, dest, move)
  {
    forall p: Path
      ensures KeptAt(fs, was, src, dest, move, p)
    {
      assert Lookup(was, p) == PartAt(fs, src, dest, move, names, p);
      if src <= p {
        var t := Target(src, dest, p);
        assert Lookup(was, t) == PartAt(fs, src, dest, move, names, t);
        assert t[..|dest|] == dest && Origin(src, dest, t) == p;
      }
    }
  }

  lemma InChild(src: Path, dest: Path, n: string, p: Path)
    requires src + [n] <= p
    ensures src <= p && dest + [n] <= Target(src, dest, p) && Target(src + [n], dest + [n], p) == Target(src, dest, p)
  {
    assert p == src + [n] + p[|src| + 1..];
    assert Target(src, dest, p) == dest + [n] + p[|src| + 1..];
  }

  lemma FromChild(src: Path, dest: Path, n: string, p: Path)
    requires src <= p && dest + [n] <= Target(src, dest, p)
    ensures src + [n] <= p
  {
    var t := Target(src, dest, p);
    assert t[|dest|] == n && p[|src|] == n;
    assert p == src + [n] + p[|src| + 1..];
  }

  lemma FailAtSource(fs: Fs, was: Fs, now: Fs, src: Path, dest: Path, move: bool, names: set<string>, n: string,
                     p: Path)
    requires Apart(src, dest) && Apart(src + [n], dest + [n]) && n !in names && src <= p
    requires Partly(fs, was, src, dest, move, names)
    requires Kept(fs, was, src, dest, move) && Kept(was, now, src + [n], dest + [n], move)
    ensures SourceKept(fs, now, src, dest, move, p)
  {
    var t := Target(src, dest, p);
    assert KeptAt(fs, was, src, dest, move, p) && KeptAt(was, now, src + [n], dest + [n], move, p);
    if src + [n] <= p {
      InChild(src, dest, n, p);
      assert Lookup(was, p) == PartAt(fs, src, dest, move, names, p);
      assert Lookup(was, p) == Lookup(fs, p);
    } else {
      assert Lookup(now, p) == Lookup(was, p);
      if dest + [n] <= t {
        FromChild(src, dest, n, p);
      }
      assert KeptAt(was, now, src + [n], dest + [n], move, t);
    }
  }

  lemma ChildOrigin(fs: Fs, was: Fs, src: Path, dest: Path, move: bool, names: set<string>, n: string, p: Path)
    requires Apart(src, dest) && n !in names && dest + [n] <= p && Partly(fs, was, src, dest, move, names)
    ensures Origin(src + [n], dest + [n], p) == Origin(src, dest, p)
    ensures Lookup(was, Origin(src, dest, p)) == Lookup(fs, Origin(src, dest, p)) && Lookup(was, p) == Lookup(fs, p)
  {
    var o := Origin(src + [n], dest + [n], p);
    assert p == dest + [n] + p[|dest| + 1..];
    assert o == Origin(src, dest, p) && o[..|src|] == src && o[|src|] == n;
    assert Lookup(was, o) == PartAt(fs, src, dest, move, names, o);
    assert Lookup(was, p) == PartAt(fs, src, dest, move, names, p);
  }

  /** A child's failure leaves the parent's files kept. */
  lemma FailStep(fs: Fs, was: Fs, now: Fs, src: Path, dest: Path, move: bool, names: set<string>, n: string)
    requires Apart(src, dest) && Tree(fs) && n !in names
    requires Partly(fs, was, src, dest, move, names) && Kept(was, now, src + [n], dest + [n], move)
    ensures Kept(fs, now, src, dest, move)
  {
    ApartChildren(src, dest, n);
    PartlyKept(fs, was, src, dest, move, names);
    forall p: Path
      ensures KeptAt(fs, now, src, dest, move, p)
    {
      assert KeptAt(fs, was, src, dest, move, p) && KeptAt(was, now, src + [n], dest + [n], move, p);
      if dest <= p {
        if dest + [n] <= p {
          ChildOrigin(fs, was, src, dest, move, names, n, p);
        }
      } else if src <= p {
        FailAtSource(fs, was, now, src, dest, move, names, n, p);
      }
    }
  }

  /** make_directory, whether or not something was there. */
  lemma DirectoryMade(fs: Fs, now: Fs, src: Path, dest: Path, move: bool)
    requires Apart(src, dest) && IsDirectory(fs, src)
    requires now == if dest in fs then fs else fs[dest := Directory]
    ensures Partly(fs, now, src, dest, move, {})
  {
    assert Origin(src, dest, dest) == src;
  }

  lemma BelowChild(fs: Fs, src: Path, p: Path)
    requires Tree(fs) && src <= p && p != src && p in fs
    ensures src + [p[|src|]] in fs
  {
    assert p[..|src| + 1] == src + [p[|src|]];
    if |src| + 1 < |p| {
      Ancestors(fs, p, |src| + 1);
    } else {
      assert p[..|p|] == p;
    }
  }

  /** With every child handled only the source directory itself is left. */
  lemma ChildrenDone(fs: Fs, now: Fs, src: Path, dest: Path, move: bool, names: set<string>)
    requires Apart(src, dest) && Tree(fs) && Children(fs, src, names) && Partly(fs, now, src, dest, move, names)
    ensures Done(fs, if move then now - {src} else now, src, dest, move)
    ensures move ==> Children(now, src, {})
  {
    forall p: Path
      ensures Lookup(if move then now - {src} else now, p) == Final(fs, src, dest, move, p)
    {
      assert Lookup(now, p) == PartAt(fs, src, dest, move, names, p);
      if dest <= p && p != dest && Origin(src, dest, p) in fs {
        BelowChild(fs, src, Origin(src, dest, p));
      } else if src <= p && p != src && p in fs {
        BelowChild(fs, src, p);
      }
    }
    if move {
      forall n: string
        ensures src + [n] !in now
      {
        var p := src + [n];
        assert Lookup(now, p) == PartAt(fs, src, dest, move, names, p);
      }
    }
  }

  function Names(names: seq<string>): set<string> { set i | 0 <= i < |names| :: names[i] }

  // ---- a source onto itself

  /** No file changes and nothing appears; a move may delete directories of the source. */
  ghost predicate SelfKept(fs: Fs, now: Fs, src: Path, move: bool) {
    forall p :: Lookup(now, p) == Lookup(fs, p) || (move && src <= p && IsDirectory(fs, p) && p !in now)
  }

  lemma SelfKeptTrans(a: Fs, b: Fs, c: Fs, src: Path, n: string, move: bool)
    requires SelfKept(a, b, src, move) && SelfKept(b, c, src + [n], move)
    ensures SelfKept(a, c, src, move)
  {
    forall p: Path
      ensures Lookup(c, p) == Lookup(a, p) || (move && src <= p && IsDirectory(a, p) && p !in c)
    {
      assert Lookup(b, p) == Lookup(a, p) || (move && src <= p && IsDirectory(a, p) && p !in b);
      assert Lookup(c, p) == Lookup(b, p) || (move && src + [n] <= p && IsDirectory(b, p) && p !in c);
    }
  }

  /** No file at or below the path. */
  ghost predicate Fileless(fs: Fs, src: Path) {
    forall q :: q in fs && src <= q ==> fs[q].Directory?
  }

  ghost predicate SelfMove(fs: Fs, src: Path, dest: Path, move: bool) {
    move && src == dest != [] && IsDirectory(fs, src)
  }

  /** A directory moved onto itself: the call succeeds exactly if there is no file in it, and then
      the whole directory is gone. */
  ghost predicate SelfMoved(fs: Fs, now: Fs, src: Path, ok: bool) {
    && (ok <==> Fileless(fs, src))
    && (ok ==> forall q :: Lookup(now, q) == if src <= q then None else Lookup(fs, q))
  }

  lemma GoneWhole(fs: Fs, now: Fs, src: Path)
    requires Tree(now) && SelfKept(fs, now, src, true) && src !in now
    ensures SelfMoved(fs, now, src, true)
  {
    forall q | src <= q
      ensures q !in now
    {
      assert q[..|src|] == src;
      if q in now && q != src {
        Ancestors(now, q, |src|);
      }
    }
    forall q | q in fs && src <= q
      ensures fs[q].Directory?
    {
      assert Lookup(now, q) == Lookup(fs, q) || (src <= q && IsDirectory(fs, q) && q !in now);
    }
    forall q: Path
      ensures Lookup(now, q) == if src <= q then None else Lookup(fs, q)
    {
      assert Lookup(now, q) == Lookup(fs, q) || (src <= q && IsDirectory(fs, q) && q !in now);
    }
  }

  /** A move of a directory without files onto itself. */
  ghost predicate Vanishing(fs: Fs, src: Path, dest: Path, move: bool) {
    SelfMove(fs, src, dest, move) && Fileless(fs, src)
  }

  /** While the children of a directory without files are moved onto themselves, those before `i`
      are gone and those from `i` on are as they were. */
  ghost predicate Emptying(fs: Fs, now: Fs, src: Path, names: seq<string>, i: nat) {
    && SelfKept(fs, now, src, true) && i <= |names| && src in now
    && (forall j :: 0 <= j < i ==> src + [names[j]] !in now)
    && (forall j :: i <= j < |names| ==> src + [names[j]] in now)
  }

  lemma EmptyingChild(fs: Fs, was: Fs, src: Path, names: seq<string>, i: nat)
    requires Fileless(fs, src) && Emptying(fs, was, src, names, i) && i < |names|
    ensures Vanishing(was, src + [names[i]], src + [names[i]], true)
  {
    forall q | q in was && src + [names[i]] <= q
      ensures was[q].Directory?
    {
      assert src <= src + [names[i]] <= q;
      assert Lookup(was, q) == Lookup(fs, q) || (src <= q && IsDirectory(fs, q) && q !in was);
    }
    assert src + [names[i]] in was;
  }

  lemma EmptyingStep(fs: Fs, was: Fs, now: Fs, src: Path, names: seq<string>, i: nat)
    requires Emptying(fs, was, src, names, i) && i < |names| && Distinct(names)
    requires SelfMoved(was, now, src + [names[i]], true) && SelfKept(was, now, src + [names[i]], true)
    ensures Emptying(fs, now, src, names, i + 1)
  {
    SelfKeptTrans(fs, was, now, src, names[i], true);
    assert Lookup(now, src) == if src + [names[i]] <= src then None else Lookup(was, src);
    forall j | 0 <= j < |names|
      ensures j <= i ==> src + [names[j]] !in now
      ensures j > i ==> src + [names[j]] in now
    {
      var q := src + [names[j]];
      assert q[|src|] == names[j];
      assert Lookup(now, q) == if src + [names[i]] <= q then None else Lookup(was, q);
    }
  }

  lemma Emptied(fs: Fs, now: Fs, src: Path, names: seq<string>)
    requires Emptying(fs, now, src, names, |names|) && forall n :: n in names <==> src + [n] in fs
    ensures Children(now, src, {})
  {
    forall n: string
      ensures src + [n] !in now
    {
      var q := src + [n];
      assert Lookup(now, q) == Lookup(fs, q) || (src <= q && IsDirectory(fs, q) && q !in now);
      if n in names {
        var j :| 0 <= j < |names| && names[j] == n;
        assert src + [names[j]] !in now;
      }
    }
  }

  // ---- a destination above the source

  /** Where a path can get to: to its target, and on from there while that is in the source too. */
  ghost predicate OnWay(src: Path, dest: Path, q: Path, p: Path)
    decreases |q|
  {
    q == p || (src <= q && |dest| < |src| && OnWay(src, dest, Target(src, dest, q), p))
  }

  lemma {:induction false} OnWayTrans(src: Path, dest: Path, a: Path, b: Path, c: Path)
    requires OnWay(src, dest, a, b) && OnWay(src, dest, b, c)
    ensures OnWay(src, dest, a, c)
    decreases |a|
  {
    if a != b {
      OnWayTrans(src, dest, Target(src, dest, a), b, c);
    }
  }

  lemma {:induction false} OnWayChild(src: Path, dest: Path, n: string, q: Path, p: Path)
    requires OnWay(src + [n], dest + [n], q, p)
    ensures OnWay(src, dest, q, p)
    decreases |q|
  {
    if q != p {
      InChild(src, dest, n, q);
      OnWayChild(src, dest, n, Target(src, dest, q), p);
    }
  }

  ghost predicate CameFrom(fs: Fs, src: Path, dest: Path, p: Path, e: Entry) {
    exists q :: q in fs && fs[q] == e && OnWay(src, dest, q, p)
  }

  ghost predicate Landed(now: Fs, src: Path, dest: Path, q: Path) {
    exists p :: p in now && now[p].File? && OnWay(src, dest, q, p)
  }

  /** Nothing outside the destination changes, nor do the directories the source lies in; every
      file holds what a file on its way here held; every file that was there has one on its way
      now, so that it can vanish only by being overwritten; and a copy removes nothing. */
  ghost predicate Local(fs: Fs, now: Fs, src: Path, dest: Path, move: bool) {
    && (forall p :: !(dest <= p) || p < src ==> Lookup(now, p) == Lookup(fs, p))
    && (forall p :: p in now && now[p].File? ==> CameFrom(fs, src, dest, p, now[p]))
    && (forall q :: q in fs && fs[q].File? ==> Landed(now, src, dest, q))
    && (!move ==> forall p :: p in fs ==> p in now)
  }

  lemma LocalTrans(a: Fs, b: Fs, c: Fs, src: Path, dest: Path, move: bool)
    requires Local(a, b, src, dest, move) && Local(b, c, src, dest, move)
    ensures Local(a, c, src, dest, move)
  {
    forall p | p in c && c[p].File?
      ensures CameFrom(a, src, dest, p, c[p])
    {
      assert CameFrom(b, src, dest, p, c[p]);
      var q :| q in b && b[q] == c[p] && OnWay(src, dest, q, p);
      assert CameFrom(a, src, dest, q, b[q]);
      var r :| r in a && a[r] == b[q] && OnWay(src, dest, r, q);
      OnWayTrans(src, dest, r, q, p);
    }
    forall r | r in a && a[r].File?
      ensures Landed(c, src, dest, r)
    {
      assert Landed(b, src, dest, r);
      var q :| q in b && b[q].File? && OnWay(src, dest, r, q);
      assert Landed(c, src, dest, q);
      var p :| p in c && c[p].File? && OnWay(src, dest, q, p);
      OnWayTrans(src, dest, r, q, p);
    }
    forall p | !(dest <= p) || p < src
      ensures Lookup(c, p) == Lookup(a, p)
    {
      assert Lookup(b, p) == Lookup(a, p);
    }
  }

  lemma LocalHigher(fs: Fs, now: Fs, src: Path, dest: Path, n: string, move: bool)
    requires Local(fs, now, src + [n], dest + [n], move)
    ensures Local(fs, now, src, dest, move) && Lookup(now, src) == Lookup(fs, src)
  {
    assert src < src + [n];
    assert dest <= dest + [n];
    forall p | p in now && now[p].File?
      ensures CameFrom(fs, src, dest, p, now[p])
    {
      assert CameFrom(fs, src + [n], dest + [n], p, now[p]);
      var q :| q in fs && fs[q] == now[p] && OnWay(src + [n], dest + [n], q, p);
      OnWayChild(src, dest, n, q, p);
    }
    forall q | q in fs && fs[q].File?
      ensures Landed(now, src, dest, q)
    {
      assert Landed(now, src + [n], dest + [n], q);
      var p :| p in now && now[p].File? && OnWay(src + [n], dest + [n], q, p);
      OnWayChild(src, dest, n, q, p);
    }
    forall p | !(dest <= p) || p < src
      ensures Lookup(now, p) == Lookup(fs, p)
    {
      assert !(dest + [n] <= p) || p < src + [n];
    }
  }

  lemma TargetOnWay(src: Path, dest: Path, n: string, q: Path)
    requires dest < src && src + [n] <= q
    ensures OnWay(src, dest, q, Target(src + [n], dest + [n], q))
  {
    InChild(src, dest, n, q);
    assert OnWay(src, dest, Target(src, dest, q), Target(src, dest, q));
  }

  lemma KeptLocal(fs: Fs, now: Fs, src: Path, dest: Path, n: string, move: bool)
    requires Kept(fs, now, src + [n], dest + [n], move) && dest < src && Apart(src + [n], dest + [n])
    ensures Local(fs, now, src, dest, move) && Lookup(now, src) == Lookup(fs, src)
  {
    var s, d := src + [n], dest + [n];
    assert dest <= d && dest <= src < s;
    assert KeptAt(fs, now, s, d, move, src);
    forall p: Path
      ensures !(dest <= p) || p < src ==> Lookup(now, p) == Lookup(fs, p)
      ensures p in now && now[p].File? ==> CameFrom(fs, src, dest, p, now[p])
      ensures p in fs && fs[p].File? ==> Landed(now, src, dest, p)
      ensures !move && p in fs ==> p in now
    {
      assert KeptAt(fs, now, s, d, move, p) && OnWay(src, dest, p, p);
      if d <= p {
        var o := Origin(s, d, p);
        assert s <= o && Target(s, d, o) == p;
        TargetOnWay(src, dest, n, o);
      } else if s <= p {
        TargetOnWay(src, dest, n, p);
      }
    }
  }

  /** Everything in the source, or in these children of it, has something at its target. */
  ghost predicate Arrived(fs: Fs, now: Fs, src: Path, dest: Path, names: set<string>) {
    forall q :: q in fs && src <= q && (q == src || q[|src|] in names) ==> Target(src, dest, q) in now
  }

  ghost predicate AllArrived(fs: Fs, now: Fs, src: Path, dest: Path) {
    forall q :: q in fs && src <= q ==> Target(src, dest, q) in now
  }

  // ---- depth, for termination

  ghost predicate Shallow(fs: Fs, p: Path, bound: nat) {
    forall q :: q in fs && p <= q ==> |q| <= bound
  }

  /** How deep a call can go: below the source, and when source and destination are nested,
      anywhere. */
  ghost predicate Bounded(fs: Fs, src: Path, dest: Path, bound: nat) {
    Shallow(fs, src, bound) && (Apart(src, dest) || src < dest || (|dest| <= |src| && Shallow(fs, [], bound)))
  }

  ghost predicate StaysShallow(fs: Fs, src: Path, dest: Path, bound: nat) {
    |dest| <= |src| && Shallow(fs, [], bound)
  }

  lemma ChildBounded(before: Fs, start: Fs, now: Fs, src: Path, dest: Path, move: bool, names: set<string>, n: string,
                     bound: nat)
    requires !(src < dest) && Bounded(before, src, dest, bound) && n !in names && src + [n] in before
    requires Apart(src, dest) ==>
      Partly(start, now, src, dest, move, names) && Partly(start, before, src, dest, move, {})
    requires StaysShallow(before, src, dest, bound) ==> Shallow(now, [], bound)
    ensures Bounded(now, src + [n], dest + [n], bound) && |src| < bound
    ensures StaysShallow(before, src, dest, bound) ==> StaysShallow(now, src + [n], dest + [n], bound)
  {
    assert src <= src + [n];
    if Apart(src, dest) {
      ApartChildren(src, dest, n);
      forall q | q in now && src + [n] <= q
        ensures |q| <= bound
      {
        assert q[|src|] == n && src <= q;
        assert Lookup(now, q) == PartAt(start, src, dest, move, names, q);
        assert Lookup(before, q) == PartAt(start, src, dest, move, {}, q);
      }
    } else {
      assert forall q :: q in now && src + [n] <= q ==> [] <= q;
    }
  }

  lemma NothingBelow(fs: Fs, src: Path, p: Path)
    requires Tree(fs) && src in fs && fs[src].File? && src <= p && p != src
    ensures p !in fs
  {
    assert p[..|src|] == src;
    if p in fs {
      Ancestors(fs, p, |src|);
    }
  }

  lemma FilePlaced(fs: Fs, src: Path, dest: Path, move: bool)
    requires Apart(src, dest) && Tree(fs) && src in fs && fs[src].File?
    ensures var copy := fs[dest := fs[src]];
            Done(fs, if move then copy - {src} else copy, src, dest, move) && Kept(fs, copy, src, dest, move)
  {
    var copy := fs[dest := fs[src]];
    forall p: Path
      ensures Lookup(if move then copy - {src} else copy, p) == Final(fs, src, dest, move, p)
      ensures KeptAt(fs, copy, src, dest, move, p)
    {
      if src <= p && p != src {
        NothingBelow(fs, src, p);
      } else if dest <= p && p != dest {
        assert |Origin(src, dest, p)| > |src| && Origin(src, dest, p)[..|src|] == src;
        NothingBelow(fs, src, Origin(src, dest, p));
      } else if p == dest {
        assert Origin(src, dest, p) == src;
      }
    }
  }

  // ---- the cases of one call

  ghost predicate Progress(start: Fs, now: Fs, src: Path, dest: Path, move: bool, names: set<string>) {
    && (Apart(src, dest) ==> Partly(start, now, src, dest, move, names))
    && (src == dest ==> SelfKept(start, now, src, move))
    && (dest < src ==> Local(start, now, src, dest, move) && Lookup(now, src) == Lookup(start, src))
    && (dest < src && !move ==> Arrived(start, now, src, dest, names))
  }

  /** What a call promises, by how source and destination lie. */
  ghost predicate Result(start: Fs, now: Fs, src: Path, dest: Path, move: bool, ok: bool) {
    && (src < dest ==> !ok && now == start)
    && (Apart(src, dest) ==> Kept(start, now, src, dest, move) && (ok ==> Done(start, now, src, dest, move)))
    && (src == dest ==> SelfKept(start, now, src, move))
    && (dest < src ==> Local(start, now, src, dest, move))
    && (dest < src && ok ==> if move then src !in now else AllArrived(start, now, src, dest))
  }

  lemma UnchangedLocal(fs: Fs, src: Path, dest: Path, move: bool)
    ensures Local(fs, fs, src, dest, move)
  {
    assert forall p :: OnWay(src, dest, p, p);
    assert forall p :: p in fs && fs[p].File? ==> CameFrom(fs, src, dest, p, fs[p]) && Landed(fs, src, dest, p);
  }

  lemma Unchanged(fs: Fs, src: Path, dest: Path, move: bool)
    ensures Result(fs, fs, src, dest, move, false)
  {
    UnchangedLocal(fs, src, dest, move);
  }

  lemma AboveIsDirectory(fs: Fs, src: Path, dest: Path)
    requires Tree(fs) && src in fs && dest < src
    ensures IsDirectory(fs, dest)
  {
    assert src[..|dest|] == dest;
    Ancestors(fs, src, |dest|);
  }

  lemma BelowBoth(src: Path, dest: Path, p: Path)
    requires src <= p && dest <= p
    ensures !Apart(src, dest)
  {
    if |src| <= |dest| {
      assert dest[..|src|] == p[..|dest|][..|src|] == src;
    } else {
      assert src[..|dest|] == p[..|src|][..|dest|] == dest;
    }
  }

  /** One path below the source. */
  lemma SourcePath(start: Fs, now: Fs, src: Path, dest: Path, move: bool, ok: bool, p: Path)
    requires Result(start, now, src, dest, move, ok) && Apart(src, dest) && src <= p
    ensures var t := dest + p[|src|..];
      p in start && start[p].File? ==> (p in now && now[p] == start[p]) || (t in now && now[t] == start[p])
    ensures var t := dest + p[|src|..]; ok && p in start && start[p].File? ==> t in now && now[t] == start[p]
    ensures var t := dest + p[|src|..]; ok && p in start && start[p].Directory? ==>
      t in now && now[t] == if t in start && start[t].File? then start[t] else Directory
    ensures ok && move ==> p !in now
    ensures !move && p in start ==> p in now && now[p] == start[p]
  {
    var t := Target(src, dest, p);
    assert Origin(src, dest, t) == p;
    assert KeptAt(start, now, src, dest, move, p);
    if dest <= p {
      BelowBoth(src, dest, p);
    }
    if ok {
      assert Lookup(now, t) == Final(start, src, dest, move, t);
      assert Lookup(now, p) == Final(start, src, dest, move, p);
    }
  }

  lemma DestPath(start: Fs, now: Fs, src: Path, dest: Path, move: bool, ok: bool, p: Path)
    requires Result(start, now, src, dest, move, ok) && Apart(src, dest) && dest <= p
    ensures ok && p in start && src + p[|dest|..] !in start ==> p in now && now[p] == start[p]
    ensures ok && p in now ==> p in start || src + p[|dest|..] in start
  {
    if src <= p {
      BelowBoth(src, dest, p);
    }
    if ok {
      assert Lookup(now, p) == Final(start, src, dest, move, p);
    }
  }

  lemma OtherPath(start: Fs, now: Fs, src: Path, dest: Path, move: bool, ok: bool, p: Path)
    requires Result(start, now, src, dest, move, ok) && Apart(src, dest) && !(src <= p) && !(dest <= p)
    ensures (p in now <==> p in start) && (p in start ==> now[p] == start[p])
  {
    assert KeptAt(start, now, src, dest, move, p);
  }

  /** What a call promises, path by path. */
  lemma ResultByPath(start: Fs, now: Fs, src: Path, dest: Path, move: bool, ok: bool)
    requires Result(start, now, src, dest, move, ok) && Tree(start)
    ensures src < dest ==> !ok && now == start
    ensures !(src <= dest) && !(dest <= src) ==>
      // elsewhere nothing changes
      && (forall p :: !(src <= p) && !(dest <= p) ==> (p in now <==> p in start) && (p in start ==> now[p] == start[p]))
      // a success has every file at its place below the destination, over what was there
      && (ok ==> forall p :: p in start && src <= p && start[p].File? ==>
            var t := dest + p[|src|..]; t in now && now[t] == start[p])
      && (ok ==> forall p :: p in start && src <= p && start[p].Directory? ==>
            var t := dest + p[|src|..];
            t in now && now[t] == if t in start && start[t].File? then start[t] else Directory)
      && (ok ==> forall p :: p in start && dest <= p && src + p[|dest|..] !in start ==> p in now && now[p] == start[p])
      && (ok ==> forall p :: p in now && dest <= p ==> p in start || src + p[|dest|..] in start)
      // after a move the source is gone, after a copy it is as it was
      && (ok && move ==> forall p :: src <= p ==> p !in now)
      && (!move ==> forall p :: p in start && src <= p ==> p in now && now[p] == start[p])
      // a failure loses no file of the source
      && (forall p :: p in start && src <= p && start[p].File? ==>
            var t := dest + p[|src|..]; (p in now && now[p] == start[p]) || (t in now && now[t] == start[p]))
  {
    if Apart(src, dest) {
      forall p | !(src <= p) && !(dest <= p)
        ensures (p in now <==> p in start) && (p in start ==> now[p] == start[p])
      {
        OtherPath(start, now, src, dest, move, ok, p);
      }
      forall p | dest <= p
        ensures ok && p in start && src + p[|dest|..] !in start ==> p in now && now[p] == start[p]
        ensures ok && p in now ==> p in start || src + p[|dest|..] in start
      {
        DestPath(start, now, src, dest, move, ok, p);
      }
      forall p | src <= p
        ensures var t := dest + p[|src|..];
          p in start && start[p].File? ==> (p in now && now[p] == start[p]) || (t in now && now[t] == start[p])
        ensures var t := dest + p[|src|..]; ok && p in start && start[p].File? ==> t in now && now[t] == start[p]
        ensures var t := dest + p[|src|..]; ok && p in start && start[p].Directory? ==>
          t in now && now[t] == if t in start && start[t].File? then start[t] else Directory
        ensures ok && move ==> p !in now
        ensures !move && p in start ==> p in now && now[p] == start[p]
      {
        SourcePath(start, now, src, dest, move, ok, p);
      }
    }
  }

  lemma FileResult(fs: Fs, src: Path, dest: Path, move: bool)
    requires Tree(fs) && src in fs && fs[src].File? && (src == dest || Apart(src, dest))
    ensures var copy := fs[dest := fs[src]];
      && Result(fs, copy, src, dest, move, false)
      && Result(fs, if move && src != dest then copy - {src} else copy, src, dest, move, true)
  {
    if Apart(src, dest) {
      FilePlaced(fs, src, dest, move);
      DoneKept(fs, if move then fs[dest := fs[src]] - {src} else fs[dest := fs[src]], src, dest, move);
    }
  }

  lemma ChildLocal(was: Fs, now: Fs, src: Path, dest: Path, move: bool, n: string, ok: bool)
    requires dest < src && Result(was, now, src + [n], dest + [n], move, ok)
    ensures Local(was, now, src, dest, move) && Lookup(now, src) == Lookup(was, src)
  {
    if Apart(src + [n], dest + [n]) {
      KeptLocal(was, now, src, dest, n, move);
    } else {
      LocalHigher(was, now, src, dest, n, move);
    }
  }

  lemma CopyArrives(was: Fs, now: Fs, src: Path, dest: Path, q: Path)
    requires Result(was, now, src, dest, false, true) && |dest| < |src| && q in was && src <= q
    ensures Target(src, dest, q) in now
  {
    var t := Target(src, dest, q);
    if Apart(src, dest) {
      assert Origin(src, dest, t) == q;
      assert Lookup(now, t) == Final(was, src, dest, false, t);
    }
  }

  lemma ChildArrives(start: Fs, was: Fs, now: Fs, src: Path, dest: Path, names: set<string>, n: string)
    requires dest < src && Arrived(start, was, src, dest, names)
    requires forall p :: (p in start ==> p in was) && (p in was ==> p in now)
    requires Result(was, now, src + [n], dest + [n], false, true)
    ensures Arrived(start, now, src, dest, names + {n})
  {
    forall q | q in start && src <= q && q != src && q[|src|] == n
      ensures Target(src, dest, q) in now
    {
      assert q == src + [n] + q[|src| + 1..];
      InChild(src, dest, n, q);
      CopyArrives(was, now, src + [n], dest + [n], q);
    }
  }

  lemma ChildResult(start: Fs, was: Fs, now: Fs, src: Path, dest: Path, move: bool, names: set<string>, n: string,
                    ok: bool)
    requires Tree(start) && !(src < dest) && n !in names
    requires Progress(start, was, src, dest, move, names) && Result(was, now, src + [n], dest + [n], move, ok)
    ensures ok ==> Progress(start, now, src, dest, move, names + {n})
    ensures !ok ==> Result(start, now, src, dest, move, false)
  {
    if Apart(src, dest) {
      ApartChildren(src, dest, n);
      if ok {
        ChildStep(start, was, now, src, dest, move, names, n);
      } else {
        FailStep(start, was, now, src, dest, move, names, n);
      }
    } else if src == dest {
      SelfKeptTrans(start, was, now, src, n, move);
    } else {
      ChildLocal(was, now, src, dest, move, n, ok);
      LocalTrans(start, was, now, src, dest, move);
      if ok && !move {
        ChildArrives(start, was, now, src, dest, names, n);
      }
    }
  }

  lemma NewName(names: seq<string>, i: nat)
    requires i < |names| && Distinct(names)
    ensures names[i] !in Names(names[..i]) && Names(names[..i + 1]) == Names(names[..i]) + {names[i]}
  {
    assert names[..i + 1] == names[..i] + [names[i]];
    forall n | n in Names(names[..i]) + {names[i]}
      ensures n in Names(names[..i + 1])
    {
      var j :| 0 <= j <= i && names[j] == n;
      assert names[..i + 1][j] == n;
    }
  }

  lemma NestedStarts(start: Fs, src: Path, dest: Path, move: bool)
    requires Tree(start) && src in start && dest < src
    ensures dest in start && Local(start, start, src, dest, move) && Arrived(start, start, src, dest, {})
  {
    AboveIsDirectory(start, src, dest);
    UnchangedLocal(start, src, dest, move);
    assert forall q :: q == src ==> Target(src, dest, q) == dest;
  }

  /** With every child handled a copy is complete. */
  lemma NestedCopied(start: Fs, now: Fs, src: Path, dest: Path, names: set<string>)
    requires Tree(start) && Children(start, src, names) && Arrived(start, now, src, dest, names)
    ensures AllArrived(start, now, src, dest)
  {
    forall q | q in start && src <= q
      ensures Target(src, dest, q) in now
    {
      if q != src {
        BelowChild(start, src, q);
      }
    }
  }

  /** Deleting the source directory loses no file. */
  lemma NestedDeleted(start: Fs, now: Fs, src: Path, dest: Path)
    requires Local(start, now, src, dest, true) && dest < src && IsDirectory(now, src)
    ensures Local(start, now - {src}, src, dest, true)
  {
    var left := now - {src};
    forall q | q in start && start[q].File?
      ensures Landed(left, src, dest, q)
    {
      assert Landed(now, src, dest, q);
      var p :| p in now && now[p].File? && OnWay(src, dest, q, p);
      assert p in left && left[p] == now[p];
    }
    forall p | p in left && left[p].File?
      ensures CameFrom(start, src, dest, p, left[p])
    {
      assert CameFrom(start, src, dest, p, now[p]);
    }
    assert forall p :: !(dest <= p) || p < src ==> Lookup(left, p) == Lookup(now, p);
  }

  lemma NestedEnds(start: Fs, now: Fs, src: Path, dest: Path, move: bool, names: set<string>)
    requires Tree(start) && dest < src && IsDirectory(start, src) && Children(start, src, names)
    requires Progress(start, now, src, dest, move, names)
    ensures Result(start, now, src, dest, move, !move)
    ensures move ==> Result(start, now - {src}, src, dest, move, true)
  {
    if move {
      assert IsDirectory(now, src);
      NestedDeleted(start, now, src, dest);
    } else {
      NestedCopied(start, now, src, dest, names);
    }
  }

  lemma DirectoryStarts(start: Fs, now: Fs, src: Path, dest: Path, move: bool, bound: nat)
    requires Tree(start) && IsDirectory(start, src) && !(src < dest) && Bounded(start, src, dest, bound)
    requires now == if dest in start then start else start[dest := Directory]
    ensures Progress(start, now, src, dest, move, {}) && Bounded(now, src, dest, bound)
    ensures StaysShallow(start, src, dest, bound) ==> StaysShallow(now, src, dest, bound)
    ensures Apart(src, dest) ==> forall n :: src + [n] in start <==> src + [n] in now
  {
    if Apart(src, dest) {
      assert forall n :: src <= src + [n];
      DirectoryMade(start, now, src, dest, move);
    } else if dest < src {
      NestedStarts(start, src, dest, move);
    }
  }

  lemma DirectoryEnds(start: Fs, before: Fs, now: Fs, src: Path, dest: Path, move: bool, names: set<string>)
    requires Tree(start) && IsDirectory(start, src) && !(src < dest) && Children(before, src, names)
    requires before == if dest in start then start else start[dest := Directory]
    requires Progress(start, now, src, dest, move, names)
    ensures Result(start, now, src, dest, move, !move)
    ensures move ==> Result(start, now - {src}, src, dest, move, true)
    ensures Apart(src, dest) ==> Children(start, src, names) && (move ==> src in now && Children(now, src, {}))
  {
    if Apart(src, dest) {
      assert forall n :: src <= src + [n];
      PartlyKept(start, now, src, dest, move, names);
      assert Lookup(now, src) == PartAt(start, src, dest, move, names, src);
      ChildrenDone(start, now, src, dest, move, names);
      DoneKept(start, if move then now - {src} else now, src, dest, move);
    } else if dest < src {
      AboveIsDirectory(start, src, dest);
      NestedEnds(start, now, src, dest, move, names);
    }
  }

  // ---- when a call succeeds

  /** A file facing a directory, or a directory with something in it facing a file. */
  ghost predicate Blocked(fs: Fs, src: Path, dest: Path, p: Path) {
    && dest <= p && p in fs && Origin(src, dest, p) in fs
    && (if fs[p].Directory? then fs[Origin(src, dest, p)].File?
        else fs[Origin(src, dest, p)].Directory? && !Children(fs, Origin(src, dest, p), {}))
  }

  ghost predicate Feasible(fs: Fs, src: Path, dest: Path) {
    src in fs && dest != [] && IsDirectory(fs, Parent(dest)) && forall p :: !Blocked(fs, src, dest, p)
  }

  /** Without input or output errors a call succeeds exactly when it is feasible. */
  ghost predicate Verdict(fs: Fs, src: Path, dest: Path, healthy: bool, ok: bool) {
    healthy && Apart(src, dest) ==> (ok <==> Feasible(fs, src, dest))
  }

  lemma ChildOnWay(fs: Fs, p: Path, q: Path)
    requires Tree(fs) && q in fs && p < q
    ensures p + [q[|p|]] in fs
  {
    assert q[..|p| + 1] == p + [q[|p|]];
    if |p| + 1 < |q| {
      Ancestors(fs, q, |p| + 1);
    } else {
      assert q[..|p| + 1] == q;
    }
  }

  lemma NothingInside(fs: Fs, p: Path)
    requires Tree(fs)
    ensures Children(fs, p, {}) <==> forall q :: q in fs ==> !(p < q)
  {
    forall q | q in fs && p < q
      ensures !Children(fs, p, {})
    {
      ChildOnWay(fs, p, q);
      assert q[|p|] !in {};
    }
    forall n | p + [n] in fs
      ensures exists q :: q in fs && p < q
    {
      assert p < p + [n];
    }
  }

  /** What stops a call, path by path. */
  lemma FeasibleByPath(fs: Fs, src: Path, dest: Path)
    requires Tree(fs)
    ensures !(src <= dest) && !(dest <= src) ==>
      (Feasible(fs, src, dest) <==>
        && src in fs && dest[..|dest| - 1] in fs && fs[dest[..|dest| - 1]].Directory?
        && forall p :: p in fs && dest <= p && src + p[|dest|..] in fs ==>
             var o := src + p[|dest|..];
             if fs[p].Directory? then fs[o].Directory?
             else fs[o].Directory? ==> forall q :: q in fs ==> !(o < q))
  {
    forall p | p in fs && dest <= p && src + p[|dest|..] in fs
      ensures var o := src + p[|dest|..];
        Blocked(fs, src, dest, p) <==>
          if fs[p].Directory? then !fs[o].Directory?
          else fs[o].Directory? && !(forall q :: q in fs ==> !(o < q))
    {
      NothingInside(fs, src + p[|dest|..]);
    }
  }

  /** Such a directory need not stop a call: copying an empty directory onto a file is feasible,
      and by OverlaidUnlessClash a success leaves the file. */
  lemma EmptyOntoFile(data: string) returns (fs: Fs, src: Path, dest: Path)
    ensures Tree(fs) && Apart(src, dest) && Feasible(fs, src, dest) && Lookup(fs, dest) == Some(File(data))
    ensures Clash(fs, src, dest, dest) && Children(fs, Origin(src, dest, dest), {})
  {
    src, dest := ["a"], ["b"];
    fs := map[[] := Directory, src := Directory, dest := File(data)];
    assert src[0] != dest[0] && Parent(src) == [] == Parent(dest) && Origin(src, dest, dest) == src;
    forall p | dest <= p && Origin(src, dest, p) in fs
      ensures p == dest
    {
      assert |Origin(src, dest, p)| == |p|;
    }
  }

  lemma FileVerdict(fs: Fs, src: Path, dest: Path)
    requires Tree(fs) && src in fs && fs[src].File? && Apart(src, dest)
    ensures Feasible(fs, src, dest) <==> !IsDirectory(fs, dest) && IsDirectory(fs, Parent(dest))
  {
    assert Origin(src, dest, dest) == src;
    assert IsDirectory(fs, dest) ==> Blocked(fs, src, dest, dest);
    forall p | Blocked(fs, src, dest, p)
      ensures p == dest
    {
      if p != dest {
        NothingBelow(fs, src, Origin(src, dest, p));
      }
    }
  }

  lemma BlockedInChild(start: Fs, was: Fs, src: Path, dest: Path, move: bool, names: set<string>, n: string, p: Path)
    requires Apart(src, dest) && Partly(start, was, src, dest, move, names) && n !in names && dest + [n] <= p
    ensures dest <= p && (Blocked(start, src, dest, p) <==> Blocked(was, src + [n], dest + [n], p))
  {
    ChildOrigin(start, was, src, dest, move, names, n, p);
    var o := Origin(src, dest, p);
    assert p == dest + [n] + p[|dest| + 1..] && o == src + [n] + p[|dest| + 1..];
    forall m: string
      ensures o + [m] in start <==> o + [m] in was
    {
      var q := p + [m];
      assert Origin(src, dest, q) == o + [m];
      ChildOrigin(start, was, src, dest, move, names, n, q);
    }
  }

  /** Nothing blocks the children handled so far. */
  ghost predicate Clear(start: Fs, src: Path, dest: Path, names: set<string>) {
    && (names != {} ==> !(dest in start && start[dest].File?))
    && forall p :: dest <= p && p != dest && p[|dest|] in names ==> !Blocked(start, src, dest, p)
  }

  lemma DestinationMade(start: Fs, was: Fs, src: Path, dest: Path, move: bool, names: set<string>)
    requires Apart(src, dest) && IsDirectory(start, src) && Partly(start, was, src, dest, move, names)
    ensures IsDirectory(was, dest) <==> !(dest in start && start[dest].File?)
  {
    assert Origin(src, dest, dest) == src;
    assert Lookup(was, dest) == PartAt(start, src, dest, move, names, dest);
  }

  lemma ChildClear(start: Fs, was: Fs, src: Path, dest: Path, move: bool, names: set<string>, n: string)
    requires Apart(src, dest) && IsDirectory(start, src) && Partly(start, was, src, dest, move, names) && n !in names
    requires Clear(start, src, dest, names) && Feasible(was, src + [n], dest + [n])
    ensures Clear(start, src, dest, names + {n})
  {
    assert Parent(dest + [n]) == dest;
    DestinationMade(start, was, src, dest, move, names);
    forall p | dest <= p && p != dest && p[|dest|] == n
      ensures !Blocked(start, src, dest, p)
    {
      assert p == dest + [n] + p[|dest| + 1..];
      BlockedInChild(start, was, src, dest, move, names, n, p);
    }
  }

  lemma ChildBlocks(start: Fs, was: Fs, src: Path, dest: Path, move: bool, names: set<string>, n: string)
    requires Apart(src, dest) && IsDirectory(start, src) && Partly(start, was, src, dest, move, names) && n !in names
    requires src + [n] in start && !Feasible(was, src + [n], dest + [n])
    ensures !Feasible(start, src, dest)
  {
    assert Parent(dest + [n]) == dest && Origin(src, dest, dest) == src;
    DestinationMade(start, was, src, dest, move, names);
    ApartChildren(src, dest, n);
    assert Lookup(was, src + [n]) == PartAt(start, src, dest, move, names, src + [n]);
    if dest in start && start[dest].File? {
      assert Blocked(start, src, dest, dest);
    } else {
      var p :| Blocked(was, src + [n], dest + [n], p);
      BlockedInChild(start, was, src, dest, move, names, n, p);
    }
  }

  lemma ChildVerdict(start: Fs, was: Fs, src: Path, dest: Path, move: bool, names: set<string>, n: string)
    requires Apart(src, dest) && IsDirectory(start, src) && Partly(start, was, src, dest, move, names) && n !in names
    requires src + [n] in start && Clear(start, src, dest, names)
    ensures if Feasible(was, src + [n], dest + [n]) then Clear(start, src, dest, names + {n})
            else !Feasible(start, src, dest)
  {
    if Feasible(was, src + [n], dest + [n]) {
      ChildClear(start, was, src, dest, move, names, n);
    } else {
      ChildBlocks(start, was, src, dest, move, names, n);
    }
  }

  // ---- the loop

  /** What holds after `i` children, from the state `start` of the call and `first` of the loop. */
  ghost predicate OnTrack(start: Fs, first: Fs, now: Fs, src: Path, dest: Path, move: bool, healthy: bool,
                          names: seq<string>, i: nat) {
    && i <= |names| && Progress(start, now, src, dest, move, Names(names[..i]))
    && (healthy && Apart(src, dest) ==> Clear(start, src, dest, Names(names[..i])))
    && (healthy && Vanishing(first, src, dest, move) ==> Emptying(first, now, src, names, i))
  }

  lemma TrackStart(start: Fs, now: Fs, src: Path, dest: Path, move: bool, healthy: bool, names: seq<string>)
    requires Progress(start, now, src, dest, move, {}) && src in now && forall n :: n in names <==> src + [n] in now
    ensures OnTrack(start, now, now, src, dest, move, healthy, names, 0)
  {
    assert Names(names[..0]) == {};
    assert forall j :: 0 <= j < |names| ==> names[j] in names;
  }

  lemma TrackEnd(start: Fs, first: Fs, now: Fs, src: Path, dest: Path, move: bool, healthy: bool, names: seq<string>)
    requires OnTrack(start, first, now, src, dest, move, healthy, names, |names|)
    requires forall n :: n in names <==> src + [n] in first
    ensures Progress(start, now, src, dest, move, Names(names)) && Children(first, src, Names(names))
    ensures healthy && Apart(src, dest) ==> Clear(start, src, dest, Names(names))
    ensures healthy && Vanishing(first, src, dest, move) ==> src in now && Children(now, src, {})
  {
    assert names[..|names|] == names;
    assert forall n :: n in Names(names) <==> n in names;
    if healthy && Vanishing(first, src, dest, move) {
      Emptied(first, now, src, names);
    }
  }

  lemma TrackStep(start: Fs, first: Fs, was: Fs, now: Fs, src: Path, dest: Path, move: bool, healthy: bool,
                  names: seq<string>, i: nat, ok: bool)
    requires Tree(start) && IsDirectory(start, src) && !(src < dest) && i < |names|
    requires Distinct(names)
    requires Apart(src, dest) ==> src + [names[i]] in start
    requires OnTrack(start, first, was, src, dest, move, healthy, names, i)
    requires Result(was, now, src + [names[i]], dest + [names[i]], move, ok)
    requires Verdict(was, src + [names[i]], dest + [names[i]], healthy, ok)
    requires healthy && SelfMove(was, src + [names[i]], dest + [names[i]], move)
         ==> SelfMoved(was, now, src + [names[i]], ok)
    ensures ok ==> OnTrack(start, first, now, src, dest, move, healthy, names, i + 1)
    ensures !ok ==> Result(start, now, src, dest, move, false)
    ensures !ok && healthy ==> !Vanishing(first, src, dest, move) && (Apart(src, dest) ==> !Feasible(start, src, dest))
  {
    NewName(names, i);
    ChildResult(start, was, now, src, dest, move, Names(names[..i]), names[i], ok);
    if healthy && Apart(src, dest) {
      ApartChildren(src, dest, names[i]);
      ChildVerdict(start, was, src, dest, move, Names(names[..i]), names[i]);
    }
    if healthy && Vanishing(first, src, dest, move) {
      EmptyingChild(first, was, src, names, i);
      if ok {
        EmptyingStep(first, was, now, src, names, i);
      }
    }
  }

  lemma AllClear(start: Fs, src: Path, dest: Path, names: set<string>)
    requires Apart(src, dest) && Tree(start) && IsDirectory(start, src) && Children(start, src, names)
    requires Clear(start, src, dest, names) && (dest in start || IsDirectory(start, Parent(dest)))
    ensures Feasible(start, src, dest)
  {
    assert Origin(src, dest, dest) == src;
    assert names == {} ==> Children(start, src, {});
    forall p: Path
      ensures !Blocked(start, src, dest, p)
    {
      if dest <= p && p != dest && Origin(src, dest, p) in start {
        BelowChild(start, src, Origin(src, dest, p));
      }
    }
  }

  // ---- the program

  datatype Outcome = Ok | Exists | Failed

  function Inside(fs: Fs, p: Path): set<Path> {
    set q | q in fs && q != [] && Parent(q) == p
  }

  lemma InsideIsChildren(fs: Fs, p: Path)
    ensures Inside(fs, p) == {} <==> Children(fs, p, {})
  {
    forall n: string
      ensures p + [n] in fs <==> p + [n] in Inside(fs, p)
    {
      assert Parent(p + [n]) == p;
    }
    forall q | q in Inside(fs, p)
      ensures q == p + [q[|p|]]
    {
    }
  }

  lemma EmptyRemoved(fs: Fs, p: Path)
    requires Tree(fs) && p != [] && Children(fs, p, {})
    ensures Tree(fs - {p})
  {
    var now := fs - {p};
    forall q | q in now && q != []
      ensures IsDirectory(now, Parent(q))
    {
      assert q == Parent(q) + [q[|q| - 1]];
      assert IsDirectory(fs, Parent(q));
    }
  }

  lemma {:induction false} Depth(fs: Fs) returns (bound: nat)
    ensures forall p: Path :: Shallow(fs, p, bound)
    decreases |fs|
  {
    if fs == map[] {
      bound := 0;
    } else {
      var p :| p in fs;
      var rest := Depth(fs - {p});
      assert Shallow(fs - {p}, [], rest);
      bound := if |p| > rest then |p| else rest;
      forall q | q in fs
        ensures |q| <= bound
      {
        assert [] <= q && (q == p || q in fs - {p});
      }
    }
  }

  /** The file system behind GIO. Besides the errors its state forces, any call may fail unless
      it is `healthy`. */
  class FileSystem {
    const healthy: bool
    var fs: Fs

    constructor (healthy: bool)
      ensures Tree(fs) && this.healthy == healthy
    {
      this.healthy := healthy;
      fs := map[[] := Directory];
    }

    method MakeDirectory(p: Path) returns (r: Outcome)
      requires Tree(fs)
      modifies this
      ensures Tree(fs) && (r == Exists <==> p in old(fs))
      ensures if r == Ok then fs == old(fs)[p := Directory] && IsDirectory(old(fs), Parent(p)) else fs == old(fs)
      ensures healthy && r == Failed ==> !IsDirectory(fs, Parent(p))
    {
      if p in fs {
        return Exists;
      }
      var broken: bool := *;
      if (broken && !healthy) || !IsDirectory(fs, Parent(p)) {
        return Failed;
      }
      fs := fs[p := Directory];
      r := Ok;
    }

    /** g_file_copy with OVERWRITE, of a file. */
    method CopyFile(src: Path, dest: Path) returns (ok: bool)
      requires Tree(fs) && src in fs && fs[src].File?
      modifies this
      ensures Tree(fs)
      ensures if ok then fs == old(fs)[dest := old(fs)[src]] && !IsDirectory(old(fs), dest) else fs == old(fs)
      ensures healthy ==> (ok <==> !IsDirectory(old(fs), dest) && IsDirectory(old(fs), Parent(dest)))
    {
      var broken: bool := *;
      if (broken && !healthy) || IsDirectory(fs, dest) || !IsDirectory(fs, Parent(dest)) {
        return false;
      }
      fs := fs[dest := fs[src]];
      ok := true;
    }

    /** g_file_move with OVERWRITE, of a file: across devices it copies and then deletes. */
    method MoveFile(src: Path, dest: Path) returns (ok: bool)
      requires Tree(fs) && src in fs && fs[src].File?
      modifies this
      ensures Tree(fs) && (ok ==> !IsDirectory(old(fs), dest))
      ensures ok ==> fs == if src == dest then old(fs) else old(fs)[dest := old(fs)[src]] - {src}
      ensures !ok ==> fs == old(fs) || (fs == old(fs)[dest := old(fs)[src]] && !IsDirectory(old(fs), dest))
      ensures healthy ==> (ok <==> !IsDirectory(old(fs), dest) && IsDirectory(old(fs), Parent(dest)))
    {
      ok := CopyFile(src, dest);
      if ok && src != dest {
        var stuck: bool := *;
        if stuck && !healthy {
          return false;
        }
        fs := fs - {src};
      }
    }

    method DeleteDirectory(p: Path) returns (ok: bool)
      requires Tree(fs)
      modifies this
      ensures Tree(fs)
      ensures if ok then Children(old(fs), p, {}) && fs == old(fs) - {p} else fs == old(fs)
      ensures healthy && p != [] && p in old(fs) && Children(old(fs), p, {}) ==> ok
    {
      var broken: bool := *;
      InsideIsChildren(fs, p);
      if (broken && !healthy) || p == [] || p !in fs || Inside(fs, p) != {} {
        return false;
      }
      EmptyRemoved(fs, p);
      fs := fs - {p};
      ok := true;
    }

    /** The names an enumerator yields, in an order of its own. */
    method ChildNames(p: Path) returns (names: seq<string>)
      ensures forall n :: n in names <==> p + [n] in fs
      ensures Distinct(names)
    {
      var left := set q | q in fs && |q| == |p| + 1 && p <= q :: q[|p|];
      ghost var all := left;
      names := [];
      while left != {}
        invariant forall n :: n in all <==> n in left || n in names
        invariant forall n :: n in left ==> n !in names
        invariant Distinct(names)
        decreases |left|
      {
        var n :| n in left;
        left := left - {n};
        names := names + [n];
      }
      forall n: string
        ensures n in all <==> p + [n] in fs
      {
        if n in all {
          var q :| q in fs && |q| == |p| + 1 && p <= q && q[|p|] == n;
          assert q == p + [n];
        }
        if p + [n] in fs {
          assert (p + [n])[|p|] == n;
        }
      }
    }

    /** The part of recursive_copy_move for a file. */
    method PlaceFile(src: Path, dest: Path, move: bool) returns (ok: bool)
      requires Tree(fs) && src in fs && fs[src].File? && !(src < dest)
      modifies this
      ensures Tree(fs) && Result(old(fs), fs, src, dest, move, ok) && Verdict(old(fs), src, dest, healthy, ok)
      ensures forall p :: p in fs ==> p in old(fs) || p == dest
    {
      Unchanged(fs, src, dest, move);
      if dest < src {
        AboveIsDirectory(fs, src, dest);
      } else {
        FileResult(fs, src, dest, move);
        if src != dest {
          FileVerdict(fs, src, dest);
        }
      }
      if move {
        ok := MoveFile(src, dest);
      } else {
        ok := CopyFile(src, dest);
      }
    }

    /** The loop over a directory's children, from the state `start` the call began in. */
    method CopyChildren(src: Path, dest: Path, move: bool, ghost start: Fs, ghost bound: nat)
      returns (ok: bool, ghost handled: set<string>)
      requires Tree(fs) && Tree(start) && src in fs && !(src < dest) && Bounded(fs, src, dest, bound)
      requires Progress(start, fs, src, dest, move, {}) && IsDirectory(start, src)
      requires Apart(src, dest) ==> forall n :: src + [n] in start <==> src + [n] in fs
      modifies this
      ensures Tree(fs) && (StaysShallow(old(fs), src, dest, bound) ==> Shallow(fs, [], bound))
      ensures ok ==> Progress(start, fs, src, dest, move, handled) && Children(old(fs), src, handled)
      ensures !ok ==> Result(start, fs, src, dest, move, false)
      ensures healthy && Apart(src, dest) ==>
        if ok then Clear(start, src, dest, handled) else !Feasible(start, src, dest)
      ensures healthy && Vanishing(old(fs), src, dest, move) ==> ok && src in fs && Children(fs, src, {})
      decreases bound - |src|, 0
    {
      var names := ChildNames(src);
      ghost var first := fs;
      TrackStart(start, fs, src, dest, move, healthy, names);
      for i := 0 to |names|
        invariant Tree(fs) && (StaysShallow(first, src, dest, bound) ==> Shallow(fs, [], bound))
        invariant OnTrack(start, first, fs, src, dest, move, healthy, names, i)
      {
        ghost var was := fs;
        NewName(names, i);
        ChildBounded(first, start, fs, src, dest, move, Names(names[..i]), names[i], bound);
        ok := CopyMoveWithin(src + [names[i]], dest + [names[i]], move, bound);
        TrackStep(start, first, was, fs, src, dest, move, healthy, names, i, ok);
        if !ok {
          return false, Names(names[..i]);
        }
      }
      ok, handled := true, Names(names);
      TrackEnd(start, first, fs, src, dest, move, healthy, names);
    }

    /** recursive_copy_move, with a bound on the depth it can reach. */
    method CopyMoveWithin(src: Path, dest: Path, move: bool, ghost bound: nat) returns (ok: bool)
      requires Tree(fs) && Bounded(fs, src, dest, bound)
      modifies this
      ensures Tree(fs) && (StaysShallow(old(fs), src, dest, bound) ==> Shallow(fs, [], bound))
      ensures Result(old(fs), fs, src, dest, move, ok) && Verdict(old(fs), src, dest, healthy, ok)
      ensures healthy && SelfMove(old(fs), src, dest, move) ==> SelfMoved(old(fs), fs, src, ok)
      decreases bound - |src|, 1
    {
      Unchanged(fs, src, dest, move);
      if src < dest {
        return false;
      }
      if src !in fs {
        return false;
      }
      if fs[src].File? {
        ok := PlaceFile(src, dest, move);
        return;
      }
      ghost var start := fs;
      var made := MakeDirectory(dest);
      if made == Failed {
        return false;
      }
      DirectoryStarts(start, fs, src, dest, move, bound);
      ghost var before, handled := fs, {};
      ok, handled := CopyChildren(src, dest, move, start, bound);
      if !ok {
        return;
      }
      DirectoryEnds(start, before, fs, src, dest, move, handled);
      if healthy && Apart(src, dest) {
        AllClear(start, src, dest, handled);
      }
      if move {
        ok := DeleteDirectory(src);
        if ok && src == dest {
          GoneWhole(start, fs, src);
        }
      }
    }

    /** recursive_copy_move ends for every source and destination. */
    method RecursiveCopyMove(src: Path, dest: Path, move: bool) returns (ok: bool)
      requires Tree(fs)
      modifies this
      ensures Tree(fs) && Result(old(fs), fs, src, dest, move, ok) && Verdict(old(fs), src, dest, healthy, ok)
      ensures healthy && SelfMove(old(fs), src, dest, move) ==> SelfMoved(old(fs), fs, src, ok)
      ensures src < dest ==> !ok && fs == old(fs)
      ensures !(src <= dest) && !(dest <= src) ==>
        // elsewhere nothing changes
        && (forall p :: !(src <= p) && !(dest <= p) ==>
              (p in fs <==> p in old(fs)) && (p in old(fs) ==> fs[p] == old(fs)[p]))
        // a success has every file at its place below the destination, over what was there
        && (ok ==> forall p :: p in old(fs) && src <= p && old(fs)[p].File? ==>
              var t := dest + p[|src|..]; t in fs && fs[t] == old(fs)[p])
        // so has it every directory, but leaves a file an empty one meets
        && (ok ==> forall p :: p in old(fs) && src <= p && old(fs)[p].Directory? ==>
              var t := dest + p[|src|..];
              t in fs && fs[t] == if t in old(fs) && old(fs)[t].File? then old(fs)[t] else Directory)
        && (ok ==> forall p :: p in old(fs) && dest <= p && src + p[|dest|..] !in old(fs) ==>
              p in fs && fs[p] == old(fs)[p])
        && (ok ==> forall p :: p in fs && dest <= p ==> p in old(fs) || src + p[|dest|..] in old(fs))
        // after a move the source is gone, after a copy it is as it was
        && (ok && move ==> forall p :: src <= p ==> p !in fs)
        && (!move ==> forall p :: p in old(fs) && src <= p ==> p in fs && fs[p] == old(fs)[p])
        // a failure loses no file of the source
        && (forall p :: p in old(fs) && src <= p && old(fs)[p].File? ==>
              var t := dest + p[|src|..]; (p in fs && fs[p] == old(fs)[p]) || (t in fs && fs[t] == old(fs)[p]))
        // without input or output errors only these stop it: no source, no directory to put it in, a
        // file facing a directory, and a directory with something in it facing a file
        && (healthy ==> (ok <==>
              && src in old(fs) && dest[..|dest| - 1] in old(fs) && old(fs)[dest[..|dest| - 1]].Directory?
              && forall p :: p in old(fs) && dest <= p && src + p[|dest|..] in old(fs) ==>
                   var o := src + p[|dest|..];
                   if old(fs)[p].Directory? then old(fs)[o].Directory?
                   else old(fs)[o].Directory? ==> forall q :: q in old(fs) ==> !(o < q)))
    {
      ghost var bound := Depth(fs);
      assert Shallow(fs, [], bound);
      ok := CopyMoveWithin(src, dest, move, bound);
      ResultByPath(old(fs), fs, src, dest, move, ok);
      FeasibleByPath(old(fs), src, dest);
    }
  }
}
