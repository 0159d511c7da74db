/** The capture loop of `main` and the encoder thread `write_loop` running against one
    buffer pool (aether-recorder/src/main.cpp:1535-1567 and 617-736). Every lock
    acquisition, flag store and unlocked flag test is a step of its own, so the steps
    below are what any scheduler may interleave. Buffers are numbered. */
module FramePipeline {
  import opened BufferPool
  import opened Collections

  /** The contents of a captured picture; the pool never looks inside. */
  type Frame = int

  datatype Owner = Free | Capturer | Encoder

  /** Where the capture loop is. The three `Publish` points are `next_capture`. */
  datatype CapturePc =
    | CTop                    // while (!exit_main_loop)
    | CWait                   // about to lock in capture()
    | CTest(cand: nat)        // about to read released of the buffer just obtained
    | CCopy                   // the compositor copies into the capture buffer
    | CCopied(frame: Frame)       // the copy is complete
    | CPublish0(frame: Frame)     // about to lock in next_capture
    | CPublish1(frame: Frame)     // released stored, available not yet
    | CPublish2               // both stored, index not yet advanced
    | CDone

  /** Where the encoder thread is. The three `Release` points are `next_encode`. */
  datatype EncodePc =
    | EOff                    // thread not spawned
    | ETop
    | EWait                   // about to lock in encode()
    | ETest(cand: nat)        // about to read available of the buffer just obtained
    | EFetch                  // about to lock in the second encode()
    | EAdd(buf: nat)          // add_frame reads this buffer
    | ERelease0
    | ERelease1
    | ERelease2
    | EDone

  /** `held` is what each buffer contains. The last three fields are history: the frames
      published by the capturer, those `write_loop` has taken out, and the number of
      completed `next_encode` calls. */
  datatype State = State(
    ring: Ring<nat>, released: set<nat>, available: set<nat>, held: map<nat, Frame>,
    lock: Owner, c: CapturePc, e: EncodePc, exit: bool,
    captured: seq<Frame>, taken: seq<Frame>, done: nat)

  predicate Init(s: State, cap: nat) {
    && 2 <= cap
    && |s.ring.slots| == 2 && s.ring.slots[0] != s.ring.slots[1]
    && s.ring.cap == cap && s.ring.cur == 0 && s.ring.enc == 0
    && s.released == {s.ring.slots[0], s.ring.slots[1]}
    && s.available == {} && s.held == map[]
    && s.lock == Free && s.c == CTop && s.e == EOff && !s.exit
    && s.captured == [] && s.taken == [] && s.done == 0
  }

  predicate InRange(s: State) {
    s.ring.cur < |s.ring.slots| && s.ring.enc < |s.ring.slots|
  }

  function Cur(s: State): nat
    requires InRange(s)
  {
    s.ring.slots[s.ring.cur]
  }

  function Enc(s: State): nat
    requires InRange(s)
  {
    s.ring.slots[s.ring.enc]
  }

  predicate CaptureStep(s: State, t: State, frame: Frame, added: nat)
    requires InRange(s)
  {
    match s.c
    case CTop => t == s.(c := if s.exit then CDone else CWait)
    case CWait => s.lock == Free && t == s.(c := CTest(Cur(s)))
    case CTest(b) => t == s.(c := if b in s.released then CCopy else CWait)
    case CCopy =>
      || t == s.(held := s.held[Cur(s) := frame], c := CCopied(frame))
      || (s.exit && t == s.(c := CDone))
    case CCopied(f) =>
      || t == s.(held := s.held[Cur(s) := frame], c := CCopied(frame))
      || t == (if s.exit then s.(c := CDone)
               else s.(c := CPublish0(f), e := if s.e == EOff then ETop else s.e))
    case CPublish0(f) =>
      s.lock == Free && t == s.(lock := Capturer, released := s.released - {Cur(s)}, c := CPublish1(f))
    case CPublish1(f) =>
      t == s.(available := s.available + {Cur(s)}, captured := s.captured + [f], c := CPublish2)
    case CPublish2 =>
      var next := NextSlot(s.ring);
      var r := AdvanceCapture(s.ring, s.ring.slots[next] in s.released, added);
      && added !in s.ring.slots
      && t == s.(ring := r, lock := Free, c := CTop,
                 released := if |r.slots| > |s.ring.slots| then s.released + {added} else s.released)
    case CDone => false
  }

  predicate EncodeStep(s: State, t: State)
    requires InRange(s)
  {
    match s.e
    case EOff => false
    case ETop => t == s.(e := if s.exit then EDone else EWait)
    case EWait => s.lock == Free && t == s.(e := ETest(Enc(s)))
    case ETest(b) => t == s.(e := if s.exit then EDone else if b in s.available then EFetch else EWait)
    case EFetch => s.lock == Free && t == s.(e := EAdd(Enc(s)))
    case EAdd(b) =>
      // add_frame decides whether to continue; a failed map leaves before it
      || (b in s.held && t == s.(taken := s.taken + [s.held[b]], e := ERelease0))
      || (b in s.held && t == s.(taken := s.taken + [s.held[b]], e := EDone))
      || t == s.(e := EDone)
    case ERelease0 => s.lock == Free && t == s.(lock := Encoder, available := s.available - {Enc(s)}, e := ERelease1)
    case ERelease1 => t == s.(released := s.released + {Enc(s)}, e := ERelease2)
    case ERelease2 => t == s.(ring := AdvanceEncode(s.ring), lock := Free, done := s.done + 1, e := ETop)
    case EDone => false
  }

  datatype Action = Capture(frame: Frame, added: nat) | Encode | SetExit

  predicate Step(s: State, a: Action, t: State) {
    && InRange(s)
    && match a
       case Capture(frame, added) => CaptureStep(s, t, frame, added)
       case Encode => EncodeStep(s, t)
       case SetExit => t == s.(exit := true)
  }

  ghost predicate Next(s: State, t: State) {
    exists a :: Step(s, a, t)
  }

  ghost predicate Steps(run: seq<State>) {
    forall i :: 0 <= i < |run| - 1 ==> Next(run[i], run[i + 1])
  }

  ghost predicate Run(run: seq<State>, cap: nat) {
    |run| > 0 && Init(run[0], cap) && Steps(run)
  }

  // ---- the invariant

  /** Number of buffers in the ring's pending run: published, index advanced, not yet passed
      by the encoding index. */
  ghost function Pending(s: State): int {
    |s.captured| - s.done - if s.c == CPublish2 then 1 else 0
  }

  ghost predicate InRelease(e: EncodePc) { e.ERelease1? || e.ERelease2? }

  ghost predicate InPublish(c: CapturePc) { c.CPublish1? || c.CPublish2? }

  /** The two flags of the `i`-th buffer in encoding order, given `k` pending ones. */
  ghost predicate FlagsAt(s: State, k: nat, i: nat, b: nat) {
    && (b in s.available <==> ((i < k && !(i == 0 && InRelease(s.e))) || (i == k && s.c.CPublish2?)))
    && (b in s.released <==> ((i == 0 && s.e.ERelease2?) || (i >= k && !(i == k && InPublish(s.c)))))
  }

  ghost predicate RingOk(s: State) {
    && WellFormed(s.ring)
    && Pending(s) >= 0 && CaptureAt(s.ring, Pending(s))
    && (s.lock == Capturer <==> InPublish(s.c))
    && (s.lock == Encoder <==> InRelease(s.e))
    && (InPublish(s.c) ==> Pending(s) < |s.ring.slots|)
    && (s.e.EAdd? || s.e.ERelease0? || InRelease(s.e) ==> Pending(s) > 0)
  }

  ghost predicate FlagsOk(s: State)
    requires RingOk(s)
  {
    var order := Order(s.ring);
    && (forall i :: 0 <= i < |order| ==> FlagsAt(s, Pending(s), i, order[i]))
    && (forall b :: b in s.available ==> b in s.ring.slots)
  }

  /** The pending run holds the published frames in order. A buffer already marked released
      may be refilled even before the encoding index has moved past it. */
  ghost predicate HeldOk(s: State)
    requires RingOk(s)
  {
    var order := Order(s.ring);
    forall i :: (if s.e.ERelease2? then 1 else 0) <= i < Pending(s) ==>
      order[i] in s.held && s.held[order[i]] == s.captured[s.done + i]
  }

  ghost predicate HistoryOk(s: State)
  {
    && s.done <= |s.taken| <= s.done + 1
    && |s.taken| <= s.done + Pending(s) <= |s.captured|
    && s.taken == s.captured[..|s.taken|]
    && (s.e.ERelease0? || InRelease(s.e) ==> |s.taken| == s.done + 1)
    && (s.e.EOff? || s.e.ETop? || s.e.EWait? || s.e.ETest? || s.e.EFetch? || s.e.EAdd? ==> |s.taken| == s.done)
  }

  /** What each thread knows at its program point. */
  ghost predicate LocalOk(s: State)
    requires InRange(s)
  {
    && (s.c.CTest? ==> s.c.cand == Cur(s))
    && (s.c.CCopy? || s.c.CCopied? || s.c.CPublish0? ==> Cur(s) in s.released)
    && (s.c.CCopied? || s.c.CPublish0? || s.c.CPublish1? ==> Cur(s) in s.held && s.held[Cur(s)] == s.c.frame)
    && (s.c.CPublish2? ==> s.captured != [] && Cur(s) in s.held && s.held[Cur(s)] == s.captured[|s.captured| - 1])
    && (s.e.ETest? ==> s.e.cand == Enc(s))
    && (s.e.EFetch? ==> Enc(s) in s.available)
    && (s.e.EAdd? ==> s.e.buf == Enc(s))
  }

  ghost predicate Inv(s: State) {
    RingOk(s) && FlagsOk(s) && HeldOk(s) && HistoryOk(s) && LocalOk(s)
  }

  lemma InitInv(s: State, cap: nat)
    requires Init(s, cap)
    ensures Inv(s)
  {
  }

  // ---- how each step keeps the invariant

  /** A move that touches neither flags, indices nor contents, outside both critical sections. */
  lemma MoveKeeps(s: State, t: State)
    requires Inv(s)
    requires t == s.(c := t.c, e := t.e)
    requires t.c == s.c || (!InPublish(s.c) && !InPublish(t.c))
    requires t.e == s.e || (!InRelease(s.e) && !InRelease(t.e))
    requires HistoryOk(t) && LocalOk(t)
    requires t.e.EAdd? || t.e.ERelease0? ==> Pending(s) > 0
    ensures Inv(t)
  {
    var order := Order(s.ring);
    assert forall i :: 0 <= i < |order| ==> FlagsAt(s, Pending(s), i, order[i]);
  }

  lemma WaitPreserves(s: State, t: State, frame: Frame, added: nat)
    requires Inv(s) && CaptureStep(s, t, frame, added) && (s.c.CTop? || s.c.CWait? || s.c.CTest?)
    ensures Inv(t)
  {
    MoveKeeps(s, t);
  }

  /** Membership and flags of every buffer the two threads point at. */
  lemma Facts(s: State)
    requires Inv(s)
    ensures var k := Pending(s); var order := Order(s.ring); var n := |s.ring.slots|;
            && |order| == n && Distinct(order)
            && Enc(s) == order[0] && Cur(s) == order[if k == n then 0 else k]
            && FlagsAt(s, k, 0, Enc(s))
            && FlagsAt(s, k, if k == n then 0 else k, Cur(s))
  {
    OrderDistinct(s.ring);
    CaptureSlot(s.ring, Pending(s));
  }

  lemma CopyPreserves(s: State, t: State, frame: Frame)
    requires Inv(s) && (s.c.CCopy? || s.c.CCopied?)
    requires t == s.(held := s.held[Cur(s) := frame], c := CCopied(frame))
    ensures Inv(t)
  {
    Facts(s);
  }

  lemma CopyStepPreserves(s: State, t: State, frame: Frame, added: nat)
    requires Inv(s) && CaptureStep(s, t, frame, added) && (s.c.CCopy? || s.c.CCopied?)
    ensures Inv(t)
  {
    if t == s.(held := s.held[Cur(s) := frame], c := CCopied(frame)) {
      CopyPreserves(s, t, frame);
    } else {
      MoveKeeps(s, t);
    }
  }

  lemma StoreReleasedPreserves(s: State, t: State, f: Frame)
    requires Inv(s) && s.c == CPublish0(f) && s.lock == Free
    requires t == s.(lock := Capturer, released := s.released - {Cur(s)}, c := CPublish1(f))
    ensures Inv(t)
  {
    Facts(s);
  }

  lemma StoreAvailablePreserves(s: State, t: State, f: Frame)
    requires Inv(s) && s.c == CPublish1(f)
    requires t == s.(available := s.available + {Cur(s)}, captured := s.captured + [f], c := CPublish2)
    ensures Inv(t)
  {
    Facts(s);
  }

  /** `t` follows the third store of `next_capture` in `s`, with or without a new buffer. */
  ghost predicate Advanced(s: State, t: State) {
    && Inv(s) && s.c == CPublish2 && t.c == CTop && t.e == s.e
    && RingOk(t) && Pending(t) == Pending(s) + 1
    && t.available == s.available && t.held == s.held && t.captured == s.captured && t.done == s.done
    && Order(s.ring) <= Order(t.ring)
    && (forall b :: b in s.ring.slots ==> b in t.ring.slots && (b in s.released <==> b in t.released))
    && (forall b :: b in Order(t.ring)[|Order(s.ring)|..] ==> b !in s.ring.slots && b in t.released)
  }

  /** Once the index has moved past it, the buffer just published is the last pending one. */
  lemma AdvanceFlags(s: State, t: State)
    requires Advanced(s, t)
    ensures FlagsOk(t)
  {
    OrderDistinct(s.ring);
    var k, order, longer := Pending(s), Order(s.ring), Order(t.ring);
    forall i | 0 <= i < |longer|
      ensures FlagsAt(t, k + 1, i, longer[i])
    {
      if i < |order| {
        assert longer[i] == order[i];
        assert FlagsAt(s, k, i, order[i]);
      } else {
        assert longer[i] == longer[|order|..][i - |order|];
      }
    }
  }

  lemma AdvanceHeld(s: State, t: State)
    requires Advanced(s, t)
    ensures HeldOk(t)
  {
    Facts(s);
    var k, order, longer := Pending(s), Order(s.ring), Order(t.ring);
    forall i | (if t.e.ERelease2? then 1 else 0) <= i < k + 1
      ensures longer[i] in t.held && t.held[longer[i]] == t.captured[t.done + i]
    {
      assert longer[i] == order[i];
    }
  }

  lemma AdvanceOnlyPreserves(s: State, t: State)
    requires Inv(s) && s.c == CPublish2
    requires t == s.(ring := s.ring.(cur := t.ring.cur), lock := Free, c := CTop)
    requires WellFormed(t.ring) && CaptureAt(t.ring, Pending(s) + 1)
    ensures Inv(t)
  {
    Facts(s);
    AdvanceFlags(s, t);
    AdvanceHeld(s, t);
  }

  lemma GrowPreserves(s: State, t: State, added: nat)
    requires Inv(s) && s.c == CPublish2 && added !in s.ring.slots
    requires Pending(s) + 1 == |s.ring.slots| < s.ring.cap
    requires t == s.(ring := AdvanceCapture(s.ring, false, added), lock := Free, c := CTop,
                     released := s.released + {added})
    ensures Inv(t)
  {
    Facts(s);
    GrowthAppends(s.ring, Pending(s), added);
    OrderDistinct(t.ring);
    OrderDistinct(s.ring);
    AdvanceFlags(s, t);
    AdvanceHeld(s, t);
  }

  lemma AdvancePreserves(s: State, t: State, frame: Frame, added: nat)
    requires Inv(s) && s.c == CPublish2 && CaptureStep(s, t, frame, added)
    ensures Inv(t)
  {
    var k := Pending(s);
    Facts(s);
    NextInOrder(s.ring, k);
    var order := Order(s.ring);
    if k + 1 == |order| {
      if |s.ring.slots| < s.ring.cap {
        GrowPreserves(s, t, added);
      } else {
        AdvanceKeepsOrder(s.ring, k, false, added);
        AdvanceOnlyPreserves(s, t);
      }
    } else {
      assert FlagsAt(s, k, k + 1, order[k + 1]);
      AdvanceKeepsOrder(s.ring, k, true, added);
      AdvanceOnlyPreserves(s, t);
    }
  }

  lemma CapturePreserves(s: State, t: State, frame: Frame, added: nat)
    requires Inv(s) && CaptureStep(s, t, frame, added)
    ensures Inv(t)
  {
    match s.c {
      case CPublish2 => AdvancePreserves(s, t, frame, added);
      case CPublish1(f) => StoreAvailablePreserves(s, t, f);
      case CPublish0(f) => StoreReleasedPreserves(s, t, f);
      case CCopy => CopyStepPreserves(s, t, frame, added);
      case CCopied(f) => CopyStepPreserves(s, t, frame, added);
      case _ => WaitPreserves(s, t, frame, added);
    }
  }

  lemma PollPreserves(s: State, t: State)
    requires Inv(s) && EncodeStep(s, t) && (s.e.ETop? || s.e.EWait? || s.e.ETest?)
    ensures Inv(t)
  {
    MoveKeeps(s, t);
  }

  lemma FetchPreserves(s: State, t: State)
    requires Inv(s) && EncodeStep(s, t) && s.e.EFetch?
    ensures Inv(t)
  {
    Facts(s);
    MoveKeeps(s, t);
  }

  /** The frame `add_frame` reads is the next one due. */
  lemma AddTakesNext(s: State)
    requires Inv(s) && s.e.EAdd?
    ensures s.e.buf in s.held && |s.taken| == s.done < |s.captured| && Pending(s) > 0
    ensures s.held[s.e.buf] == s.captured[|s.taken|]
  {
    Facts(s);
    assert s.held[Order(s.ring)[0]] == s.captured[s.done + 0];
  }

  lemma TakeKeeps(s: State, a: State, t: State)
    requires Inv(a) && s.e.EAdd? && a == s.(e := EDone) && Pending(s) > 0
    requires t == a.(taken := t.taken, e := t.e) && (t.e == EDone || t.e == ERelease0)
    requires |s.taken| == s.done < |s.captured| && t.taken == s.taken + [s.captured[|s.taken|]]
    ensures Inv(t)
  {
    var order := Order(s.ring);
    assert forall i :: 0 <= i < |order| ==> FlagsAt(a, Pending(s), i, order[i]);
  }

  lemma AddPreserves(s: State, t: State)
    requires Inv(s) && s.e.EAdd? && EncodeStep(s, t)
    ensures Inv(t)
  {
    var a := s.(e := EDone);
    MoveKeeps(s, a);
    if t != a {
      AddTakesNext(s);
      TakeKeeps(s, a, t);
    }
  }

  lemma ClearAvailablePreserves(s: State, t: State)
    requires Inv(s) && s.e == ERelease0 && EncodeStep(s, t)
    ensures Inv(t)
  {
    Facts(s);
  }

  lemma SetReleasedPreserves(s: State, t: State)
    requires Inv(s) && s.e == ERelease1 && EncodeStep(s, t)
    ensures Inv(t)
  {
    Facts(s);
  }

  lemma RotatePreserves(s: State, t: State)
    requires Inv(s) && s.e == ERelease2 && EncodeStep(s, t)
    ensures Inv(t)
  {
    Facts(s);
    EncodeRotates(s.ring, Pending(s));
    var order, rotated := Order(s.ring), Order(t.ring);
    var k, n := Pending(s), |s.ring.slots|;
    assert Pending(t) == k - 1;
    forall i | 0 <= i < n
      ensures FlagsAt(t, k - 1, i, rotated[i])
    {
      assert FlagsAt(s, k, if i + 1 == n then 0 else i + 1, rotated[i]);
    }
    forall i | 0 <= i < k - 1
      ensures rotated[i] in t.held && t.held[rotated[i]] == t.captured[t.done + i]
    {
      assert rotated[i] == order[i + 1];
    }
  }

  lemma EncodePreserves(s: State, t: State)
    requires Inv(s) && EncodeStep(s, t)
    ensures Inv(t)
  {
    match s.e {
      case ERelease0 => ClearAvailablePreserves(s, t);
      case ERelease1 => SetReleasedPreserves(s, t);
      case ERelease2 => RotatePreserves(s, t);
      case EAdd(b) => AddPreserves(s, t);
      case EFetch => FetchPreserves(s, t);
      case _ => PollPreserves(s, t);
    }
  }

  lemma ExitPreserves(s: State, t: State)
    requires Inv(s) && t == s.(exit := true)
    ensures Inv(t)
  {
    var order := Order(s.ring);
    assert forall i :: 0 <= i < |order| ==> FlagsAt(s, Pending(s), i, order[i]);
  }

  lemma StepPreserves(s: State, a: Action, t: State)
    requires Inv(s) && Step(s, a, t)
    ensures Inv(t) && t.ring.cap == s.ring.cap
  {
    match a {
      case Capture(frame, added) => CapturePreserves(s, t, frame, added);
      case Encode => EncodePreserves(s, t);
      case SetExit => ExitPreserves(s, t);
    }
  }

  // ---- runs

  lemma {:induction false} RunInv(run: seq<State>, cap: nat, i: nat)
    requires Run(run, cap) && i < |run|
    ensures Inv(run[i]) && run[i].ring.cap == cap
  {
    if i == 0 {
      InitInv(run[0], cap);
    } else {
      RunInv(run, cap, i - 1);
      assert Next(run[i - 1], run[i - 1 + 1]);
      var a :| Step(run[i - 1], a, run[i]);
      StepPreserves(run[i - 1], a, run[i]);
    }
  }

  /** What holds at every moment of every run: the encoder has taken a prefix of the published
      frames and is at most `cap` behind, no buffer is both released and available, the ring
      never holds a buffer twice or more than `cap` of them, and the buffer being encoded is
      intact: the frame in it is the next one due and the compositor writes elsewhere. */
  ghost predicate Safe(s: State, cap: nat) {
    && s.taken <= s.captured && |s.captured| - |s.taken| <= cap
    && s.released !! s.available
    && 2 <= |s.ring.slots| <= cap && Distinct(s.ring.slots) && InRange(s)
    && (s.e.EAdd? ==>
          && s.e.buf == Enc(s) && |s.taken| < |s.captured|
          && s.e.buf in s.held && s.held[s.e.buf] == s.captured[|s.taken|])
    && (s.e.EAdd? && (s.c.CCopy? || s.c.CCopied?) ==> s.e.buf != Cur(s))
    && (s.e.ETest? ==> s.e.cand == Enc(s))
    && (s.c.CTest? ==> s.c.cand == Cur(s))
  }

  lemma InvSafe(s: State)
    requires Inv(s)
    ensures Safe(s, s.ring.cap)
  {
    Facts(s);
    OrderDistinct(s.ring);
    var order := Order(s.ring);
    forall b | b in s.available
      ensures b !in s.released
    {
      assert b in order;
      var i :| 0 <= i < |order| && order[i] == b;
      assert FlagsAt(s, Pending(s), i, order[i]);
    }
    if s.e.EAdd? {
      assert s.held[order[0]] == s.captured[s.done + 0];
    }
  }

  lemma EveryRunSafe(run: seq<State>, cap: nat)
    requires Run(run, cap)
    ensures forall i :: 0 <= i < |run| ==> Safe(run[i], cap)
  {
    forall i | 0 <= i < |run|
      ensures Safe(run[i], cap)
    {
      RunInv(run, cap, i);
      InvSafe(run[i]);
    }
  }

  /** While no one is between two flag stores, the available buffers are exactly the first
      `Pending` in encoding order and every other one is released. */
  lemma QuiescentFlags(s: State)
    requires Inv(s) && s.lock == Free
    ensures 0 <= Pending(s) <= |Order(s.ring)|
    ensures forall b :: b in s.available <==> b in Order(s.ring)[..Pending(s)]
    ensures forall b :: b in Order(s.ring)[Pending(s)..] ==> b in s.released
  {
    OrderDistinct(s.ring);
    var order, k := Order(s.ring), Pending(s);
    assert forall i :: 0 <= i < |order| ==> FlagsAt(s, k, i, order[i]);
    forall b
      ensures b in s.available <==> b in order[..k]
    {
      if b in s.available {
        assert b in order;
        var i :| 0 <= i < |order| && order[i] == b;
        assert FlagsAt(s, k, i, order[i]);
        assert order[..k][i] == b;
      }
    }
  }

  // ---- refinement of a bounded FIFO queue

  ghost function Queue(s: State): seq<Frame>
    requires s.done <= |s.captured|
  {
    s.captured[s.done..]
  }

  /** A step of a queue bounded by `cap`: nothing, one frame joins, or the oldest leaves. */
  ghost predicate FifoStep(q: seq<Frame>, q': seq<Frame>, cap: nat) {
    || q' == q
    || (|q| < cap && exists f :: q' == q + [f])
    || (|q| > 0 && q' == q[1..])
  }

  lemma CaptureRefines(s: State, t: State, frame: Frame, added: nat)
    requires Inv(s) && CaptureStep(s, t, frame, added)
    ensures s.done <= |s.captured| && t.done <= |t.captured| && t.taken == s.taken
    ensures FifoStep(Queue(s), Queue(t), s.ring.cap)
  {
    if s.c.CPublish1? {
      assert (s.captured + [s.c.frame])[s.done..] == s.captured[s.done..] + [s.c.frame];
    }
  }

  lemma EncodeRefines(s: State, t: State)
    requires Inv(s) && EncodeStep(s, t)
    ensures s.done <= |s.captured| && t.done <= |t.captured|
    ensures FifoStep(Queue(s), Queue(t), s.ring.cap)
    ensures t.taken != s.taken ==> |Queue(s)| > 0 && t.taken == s.taken + [Queue(s)[0]] && Queue(t) == Queue(s)
  {
    if s.e.ERelease2? {
      assert s.captured[s.done..][1..] == s.captured[s.done + 1..];
    } else if s.e.EAdd? {
      Facts(s);
      assert s.held[Order(s.ring)[0]] == s.captured[s.done + 0];
    }
  }

  lemma RefinesFifo(s: State, a: Action, t: State)
    requires Inv(s) && Step(s, a, t)
    ensures s.done <= |s.captured| && t.done <= |t.captured|
    ensures FifoStep(Queue(s), Queue(t), s.ring.cap)
    ensures |Queue(t)| <= s.ring.cap
    ensures t.taken != s.taken ==> |Queue(s)| > 0 && t.taken == s.taken + [Queue(s)[0]] && Queue(t) == Queue(s)
  {
    StepPreserves(s, a, t);
    match a {
      case Capture(frame, added) => CaptureRefines(s, t, frame, added);
      case Encode => EncodeRefines(s, t);
      case SetExit =>
    }
  }
}
