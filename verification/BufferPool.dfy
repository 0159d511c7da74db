/** The recorder's growing ring of frame buffers (aether-recorder/src/buffer-pool.hpp).
    `Ring` is the value the two threads agree on; `Pool` is the class that updates an
    array in place and is proved to compute the functions on `Ring`. */
module BufferPool {
  import opened Collections

  /** `slots` are the live buffers, `cap` the largest number of them, `cur` the slot being
      captured into and `enc` the slot being encoded from. */
  datatype Ring<B> = Ring(slots: seq<B>, cap: nat, cur: nat, enc: nat)

  ghost predicate WellFormed<B>(r: Ring<B>) {
    && 2 <= |r.slots| <= r.cap
    && r.cur < |r.slots|
    && r.enc < |r.slots|
    && Distinct(r.slots)
  }

  /** The index after `i` in a ring of `n` slots. */
  function Successor(i: nat, n: nat): (j: nat)
    requires i < n
    ensures j == if i + 1 == n then 0 else i + 1
  {
    (i + 1) % n
  }

  function NextSlot<B>(r: Ring<B>): nat
    requires r.cur < |r.slots|
  {
    Successor(r.cur, |r.slots|)
  }

  /** The ring after `next_capture`, given whether the buffer after the current one may be
      captured into and the buffer that growth would allocate. */
  function AdvanceCapture<B>(r: Ring<B>, nextReleased: bool, added: B): Ring<B>
    requires r.cur < |r.slots|
  {
    if !nextReleased && |r.slots| < r.cap then
      r.(slots := r.slots[..r.cur + 1] + [added] + r.slots[r.cur + 1..],
         cur := r.cur + 1,
         enc := if r.enc > r.cur then r.enc + 1 else r.enc)
    else
      r.(cur := NextSlot(r))
  }

  /** The ring after `next_encode`. */
  function AdvanceEncode<B>(r: Ring<B>): Ring<B>
    requires r.enc < |r.slots|
  {
    r.(enc := Successor(r.enc, |r.slots|))
  }

  /** The buffers in encoding order, the one being encoded first. */
  ghost function Order<B>(r: Ring<B>): seq<B>
    requires r.enc < |r.slots|
  {
    r.slots[r.enc..] + r.slots[..r.enc]
  }

  /** The capture slot is the `k`-th in encoding order; with `k == |slots|` the ring is full
      and both indices meet. */
  ghost predicate CaptureAt<B>(r: Ring<B>, k: nat)
    requires WellFormed(r)
  {
    && k <= |r.slots|
    && r.cur == if r.enc + k < |r.slots| then r.enc + k else r.enc + k - |r.slots|
  }

  lemma OrderDistinct<B>(r: Ring<B>)
    requires WellFormed(r)
    ensures Distinct(Order(r))
    ensures |Order(r)| == |r.slots|
    ensures forall b :: b in Order(r) <==> b in r.slots
  {
    assert r.slots == r.slots[..r.enc] + r.slots[r.enc..];
  }

  lemma CaptureSlot<B>(r: Ring<B>, k: nat)
    requires WellFormed(r) && CaptureAt(r, k)
    ensures r.slots[r.cur] == Order(r)[if k == |r.slots| then 0 else k]
    ensures r.slots[r.enc] == Order(r)[0]
  {
  }

  lemma InsertDistinct<B>(s: seq<B>, i: nat, b: B)
    requires i <= |s| && Distinct(s) && b !in s
    ensures Distinct(s[..i] + [b] + s[i..])
  {
  }

  /** Growing a ring in which every other buffer is pending puts the new buffer last in
      encoding order, that is just before the oldest pending one, and loses none. */
  lemma GrowthAppends<B>(r: Ring<B>, k: nat, added: B)
    requires WellFormed(r) && CaptureAt(r, k) && k + 1 == |r.slots| < r.cap
    requires added !in r.slots
    ensures var g := AdvanceCapture(r, false, added);
            WellFormed(g) && Order(g) == Order(r) + [added] && CaptureAt(g, k + 1)
  {
    var g := AdvanceCapture(r, false, added);
    var c := r.cur + 1;
    assert g.slots == r.slots[..c] + [added] + r.slots[c..];
    InsertDistinct(r.slots, c, added);
    if r.enc > r.cur {
      assert r.enc == c;
      assert g.slots[c + 1..] == r.slots[c..];
      assert g.slots[..c + 1] == r.slots[..c] + [added];
    } else {
      assert r.enc == 0 && c == |r.slots|;
      assert g.slots == r.slots + [added];
    }
  }

  /** Wherever the indices stand, growth moves the encode index with its buffer and captures into
      the new one. */
  lemma GrowthHolds<B>(r: Ring<B>, added: B)
    requires WellFormed(r) && |r.slots| < r.cap
    ensures var g := AdvanceCapture(r, false, added);
            g.enc < |g.slots| && g.slots[g.enc] == r.slots[r.enc] && g.cur < |g.slots| && g.slots[g.cur] == added
  {
    var g := AdvanceCapture(r, false, added);
    assert g.slots[r.cur + 2..] == r.slots[r.cur + 1..];
  }

  /** Without growth the encoding order does not change. */
  lemma AdvanceKeepsOrder<B>(r: Ring<B>, k: nat, nextReleased: bool, added: B)
    requires WellFormed(r) && CaptureAt(r, k) && k < |r.slots|
    requires nextReleased || |r.slots| == r.cap
    ensures var g := AdvanceCapture(r, nextReleased, added);
            WellFormed(g) && Order(g) == Order(r) && CaptureAt(g, k + 1)
    ensures r.slots[NextSlot(r)] == Order(r)[if k + 1 == |r.slots| then 0 else k + 1]
  {
  }

  lemma NextInOrder<B>(r: Ring<B>, k: nat)
    requires WellFormed(r) && CaptureAt(r, k) && k < |r.slots|
    ensures r.slots[NextSlot(r)] == Order(r)[if k + 1 == |r.slots| then 0 else k + 1]
  {
    AdvanceKeepsOrder(r, k, true, r.slots[0]);
  }

  /** Releasing the encoded buffer moves it to the end of the encoding order. */
  lemma EncodeRotates<B>(r: Ring<B>, k: nat)
    requires WellFormed(r) && CaptureAt(r, k) && k > 0
    ensures var g := AdvanceEncode(r);
            WellFormed(g) && Order(g) == Order(r)[1..] + [Order(r)[0]] && CaptureAt(g, k - 1)
  {
    var g := AdvanceEncode(r);
    if r.enc + 1 == |r.slots| {
      assert g.enc == 0;
    } else {
      assert g.enc == r.enc + 1;
      assert r.slots[r.enc..][1..] == r.slots[g.enc..];
      assert r.slots[..g.enc] == r.slots[..r.enc] + [r.slots[r.enc]];
    }
  }

  /** buffer_pool_buf: the two flags a frame buffer inherits. */
  class Buffer {
    var released: bool
    var available: bool

    constructor ()
      ensures released && !available
    {
      released := true;
      available := false;
    }
  }

  class Pool {
    const bufs: array<Buffer?>
    var size: nat
    var captureIdx: nat
    var encodeIdx: nat

    ghost predicate Valid()
      reads this, bufs
    {
      && 2 <= size <= bufs.Length
      && captureIdx < size
      && encodeIdx < size
      && (forall i :: 0 <= i < size ==> bufs[i] != null)
      && (forall i :: size <= i < bufs.Length ==> bufs[i] == null)
      && Distinct(bufs[..size])
    }

    ghost function State(): (r: Ring<Buffer?>)
      requires Valid()
      reads this, bufs
      ensures WellFormed(r)
    {
      Ring(bufs[..size], bufs.Length, captureIdx, encodeIdx)
    }

    constructor (n: nat)
      requires n >= 2
      ensures Valid() && fresh(bufs) && bufs.Length == n
      ensures size == 2 && captureIdx == 0 && encodeIdx == 0
      ensures forall i :: 0 <= i < size ==> fresh(bufs[i]) && bufs[i].released && !bufs[i].available
    {
      var a: array<Buffer?> := new Buffer?[n](_ => null);
      var b0 := new Buffer();
      var b1 := new Buffer();
      a[0], a[1] := b0, b1;
      bufs := a;
      size, captureIdx, encodeIdx := 2, 0, 0;
    }

    method Capture() returns (b: Buffer)
      requires Valid()
      ensures b == State().slots[State().cur]
    {
      b := bufs[captureIdx];
    }

    method Encode() returns (b: Buffer)
      requires Valid()
      ensures b == State().slots[State().enc]
    {
      b := bufs[encodeIdx];
    }

    /** The growth branch of `next_capture`: everything after the capture slot moves up by one,
        the encoding index with its buffer, and a new buffer fills the gap. */
    method Grow() returns (added: Buffer)
      requires Valid() && size < bufs.Length
      modifies this, bufs
      ensures Valid()
      ensures fresh(added) && added.released && !added.available
      ensures State() == AdvanceCapture(old(State()), false, added)
    {
      ghost var was := State();
      size := size + 1;
      var next := Successor(captureIdx, size);
      assert next == was.cur + 1;
      var i := bufs.Length - 1;
      while i > next
        invariant next <= i < bufs.Length
        invariant size == old(size) + 1 && captureIdx == was.cur
        invariant forall j :: 0 <= j <= i ==> bufs[j] == old(bufs[j])
        invariant forall j :: i < j < bufs.Length ==> bufs[j] == old(bufs[j - 1])
        invariant encodeIdx == if was.enc >= i then was.enc + 1 else was.enc
      {
        bufs[i] := bufs[i - 1];
        if encodeIdx == i - 1 {
          encodeIdx := i;
        }
        i := i - 1;
      }
      added := new Buffer();
      bufs[next] := added;
      captureIdx := next;
      assert bufs[..size] == was.slots[..next] + [added] + was.slots[next..];
      assert added !in was.slots;
      InsertDistinct(was.slots, next, added);
    }

    method NextCapture() returns (b: Buffer, ghost added: Buffer?)
      requires Valid()
      modifies this, bufs, bufs[captureIdx]
      ensures Valid()
      ensures State() == AdvanceCapture(old(State()), old(bufs[NextSlot(State())].released), added)
      ensures added != null ==> fresh(added) && added.released && !added.available
      ensures added != null <==> !old(bufs[NextSlot(State())].released) && old(size) < bufs.Length
      ensures b == State().slots[State().cur]
      ensures var filled := old(bufs[captureIdx]); !filled.released && filled.available
    {
      bufs[captureIdx].released := false;
      bufs[captureIdx].available := true;
      var next := Successor(captureIdx, size);
      assert bufs[..size][next] != bufs[..size][captureIdx];
      if !bufs[next].released && size < bufs.Length {
        added := Grow();
      } else {
        added := null;
        captureIdx := next;
      }
      b := bufs[captureIdx];
    }

    method NextEncode() returns (b: Buffer)
      requires Valid()
      modifies this`encodeIdx, bufs[encodeIdx]
      ensures Valid()
      ensures State() == AdvanceEncode(old(State()))
      ensures b == State().slots[State().enc]
      ensures var done := old(bufs[encodeIdx]); done.released && !done.available
    {
      bufs[encodeIdx].available := false;
      bufs[encodeIdx].released := true;
      encodeIdx := Successor(encodeIdx, size);
      b := bufs[encodeIdx];
    }
  }
}
