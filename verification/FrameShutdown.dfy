/** Shutting the recorder down: the capture loop of `main` need not end
    (aether-recorder/src/main.cpp:1535-1541). */
module FrameShutdown {
  import opened BufferPool
  import opened FramePipeline
  import opened FrameReach

  // ---- when the capture loop can still end

  /** The encoder will not get to releasing another buffer once it has been asked to exit. */
  predicate NoRelease(e: EncodePc) { e.EOff? || e.ETop? || e.EWait? || e.ETest? || e.EDone? }

  /** Asked to exit, the capture loop polls a flag that nobody will set. */
  ghost predicate Doomed(s: State) {
    Inv(s) && s.exit && (s.c.CWait? || s.c.CTest?) && Cur(s) !in s.released && NoRelease(s.e)
  }

  lemma DoomedStep(s: State, a: Action, t: State)
    requires Doomed(s) && Step(s, a, t)
    ensures Doomed(t)
  {
    StepPreserves(s, a, t);
  }

  lemma {:induction false} DoomedPath(run: seq<State>, s: State, t: State)
    requires Path(run, s, t) && Doomed(s)
    ensures Doomed(t)
    decreases |run|
  {
    if |run| > 1 {
      assert Next(run[0], run[0 + 1]);
      var a :| Step(s, a, run[1]);
      DoomedStep(s, a, run[1]);
      assert Path(run[1..], run[1], t);
      DoomedPath(run[1..], run[1], t);
    }
  }

  lemma DoomedForever(s: State, t: State)
    requires Leads(s, t) && Doomed(s)
    ensures Doomed(t)
  {
    var run :| Path(run, s, t);
    DoomedPath(run, s, t);
  }

  /** Some continuation leaves the capture loop. */
  ghost predicate CanEnd(s: State) {
    exists t :: Leads(s, t) && t.c == CDone
  }

  lemma EndNow(s: State)
    requires s.c == CDone
    ensures CanEnd(s)
  {
    LeadsSelf(s);
  }

  lemma EndLater(s: State, a: Action, t: State)
    requires Step(s, a, t) && CanEnd(t)
    ensures CanEnd(s)
  {
    var u :| Leads(t, u) && u.c == CDone;
    LeadsFirst(s, a, t, u);
  }

  /** A capture step after which the loop can end. */
  lemma EndCapture(s: State, t: State, added: nat)
    requires InRange(s) && CaptureStep(s, t, 0, added) && (t.c == CDone || CanEnd(t))
    ensures CanEnd(s)
  {
    if t.c == CDone {
      EndNow(t);
    }
    EndLater(s, Capture(0, added), t);
  }

  /** Outside the wait and the publication the exit flag is looked at next. */
  lemma EndsAtOnce(s: State)
    requires Inv(s) && s.exit && (s.c.CTop? || s.c.CCopy? || s.c.CCopied? || s.c.CDone?)
    ensures CanEnd(s)
  {
    if s.c.CDone? {
      EndNow(s);
    } else {
      EndCapture(s, s.(c := CDone), 0);
    }
  }

  /** With the next buffer free, the wait is over. */
  lemma EndsFromWait(s: State)
    requires Inv(s) && s.exit && (s.c.CWait? || s.c.CTest?) && Cur(s) in s.released && s.lock == Free
    ensures CanEnd(s)
  {
    var u := s.(c := CTest(Cur(s)));
    EndCapture(u.(c := CCopy), u.(c := CDone), 0);
    EndCapture(u, u.(c := CCopy), 0);
    if s.c.CWait? {
      EndCapture(s, u, 0);
    }
  }

  lemma EndsFromPublish(s: State)
    requires Inv(s) && s.exit && (s.c.CPublish0? || s.c.CPublish1? || s.c.CPublish2?)
    requires s.c.CPublish0? ==> s.lock == Free
    ensures CanEnd(s)
    decreases if s.c.CPublish0? then 2 else if s.c.CPublish1? then 1 else 0
  {
    if s.c.CPublish2? {
      var added := Unused(s.ring.slots);
      var r := AdvanceCapture(s.ring, s.ring.slots[NextSlot(s.ring)] in s.released, added);
      var t := s.(ring := r, lock := Free, c := CTop,
                  released := if |r.slots| > |s.ring.slots| then s.released + {added} else s.released);
      StepPreserves(s, Capture(0, added), t);
      EndsAtOnce(t);
      EndCapture(s, t, added);
    } else {
      var t := if s.c.CPublish0?
               then s.(lock := Capturer, released := s.released - {Cur(s)}, c := CPublish1(s.c.frame))
               else s.(available := s.available + {Cur(s)}, captured := s.captured + [s.c.frame], c := CPublish2);
      StepPreserves(s, Capture(0, 0), t);
      EndsFromPublish(t);
      EndCapture(s, t, 0);
    }
  }

  function ToRelease(e: EncodePc): nat {
    match e
    case EFetch => 5
    case EAdd(_) => 4
    case ERelease0 => 3
    case ERelease1 => 2
    case ERelease2 => 1
    case _ => 0
  }

  /** One step of an encoder on its way through next_encode. */
  lemma EncoderMoves(s: State) returns (t: State)
    requires Inv(s) && !NoRelease(s.e) && !InPublish(s.c)
    ensures Step(s, Encode, t) && Inv(t) && t.c == s.c && t.exit == s.exit && Cur(t) == Cur(s)
    ensures s.released <= t.released && ToRelease(t.e) < ToRelease(s.e)
    ensures t.e == ETop ==> t.lock == Free && Enc(s) in t.released
    ensures NoRelease(t.e) ==> t.e == ETop
    ensures t.e != ETop ==> Enc(t) == Enc(s)
  {
    Facts(s);
    match s.e {
      case EFetch => t := s.(e := EAdd(Enc(s)));
      case EAdd(b) =>
        AddTakesNext(s);
        t := s.(taken := s.taken + [s.held[b]], e := ERelease0);
      case ERelease0 => t := s.(lock := Encoder, available := s.available - {Enc(s)}, e := ERelease1);
      case ERelease1 => t := s.(released := s.released + {Enc(s)}, e := ERelease2);
      case ERelease2 => t := s.(ring := AdvanceEncode(s.ring), lock := Free, done := s.done + 1, e := ETop);
    }
    StepPreserves(s, Encode, t);
  }

  /** The encoder's release frees the buffer a waiting capturer needs, since then the ring is full. */
  lemma EndsAfterRelease(s: State)
    requires Inv(s) && s.exit && !NoRelease(s.e) && (s.c.CWait? || s.c.CTest? || s.c.CPublish0?)
    requires s.c.CPublish0? || Cur(s) in s.released || Cur(s) == Enc(s)
    ensures CanEnd(s)
    decreases ToRelease(s.e)
  {
    var t := EncoderMoves(s);
    if t.e == ETop {
      if t.c.CPublish0? {
        EndsFromPublish(t);
      } else {
        EndsFromWait(t);
      }
    } else {
      EndsAfterRelease(t);
    }
    EndLater(s, Encode, t);
  }

  /** The flag the capture loop waits for is either set or belongs to the oldest pending buffer. */
  lemma FreeOrOldest(s: State)
    requires Inv(s) && (s.c.CWait? || s.c.CTest?)
    ensures Cur(s) in s.released || Cur(s) == Enc(s)
  {
    Facts(s);
  }

  /** Once asked to exit, the capture loop can still end exactly if it is not doomed: it waits for
      a buffer that is not free, and the encoder is past its last release. */
  lemma EndsUnlessDoomed(s: State)
    requires Inv(s) && s.exit
    ensures CanEnd(s) <==> !Doomed(s)
  {
    if Doomed(s) {
      forall t | Leads(s, t)
        ensures t.c != CDone
      {
        DoomedForever(s, t);
      }
    } else if s.c.CWait? || s.c.CTest? {
      FreeOrOldest(s);
      if NoRelease(s.e) {
        EndsFromWait(s);
      } else {
        EndsAfterRelease(s);
      }
    } else if s.c.CPublish0? && !NoRelease(s.e) {
      EndsAfterRelease(s);
    } else if s.c.CPublish0? || InPublish(s.c) {
      EndsFromPublish(s);
    } else {
      EndsAtOnce(s);
    }
  }

  // ---- when it is bound to

  /** Asked to exit, the capture loop waits for a buffer that is not free, and nothing obliges the
      encoder to release another one. */
  ghost predicate AtRisk(s: State) {
    && Inv(s) && s.exit && (s.c.CWait? || s.c.CTest?) && Cur(s) !in s.released
    && !(s.e.ERelease0? || InRelease(s.e))
  }

  /** Some continuation after which the loop cannot end. */
  ghost predicate CanHang(s: State) {
    exists t :: Leads(s, t) && Doomed(t)
  }

  /** Nothing brings a state into it once the exit flag is set. */
  lemma RiskStep(s: State, a: Action, t: State)
    requires Inv(s) && s.exit && Step(s, a, t) && AtRisk(t)
    ensures AtRisk(s)
  {
    Facts(s);
  }

  lemma {:induction false} RiskPath(run: seq<State>, s: State, t: State)
    requires Path(run, s, t) && Inv(s) && s.exit && AtRisk(t)
    ensures AtRisk(s)
    decreases |run|
  {
    if |run| > 1 {
      assert Next(run[0], run[0 + 1]);
      var a :| Step(s, a, run[1]);
      StepPreserves(s, a, run[1]);
      assert Path(run[1..], run[1], t);
      RiskPath(run[1..], run[1], t);
      RiskStep(s, a, run[1]);
    }
  }

  /** The encoder may fetch a frame and give up on it. */
  lemma RiskHangs(s: State)
    requires AtRisk(s)
    ensures CanHang(s)
    decreases s.e.EFetch?
  {
    if s.e.EFetch? {
      var t := s.(e := EAdd(Enc(s)));
      StepPreserves(s, Encode, t);
      RiskHangs(t);
      var u :| Leads(t, u) && Doomed(u);
      LeadsFirst(s, Encode, t, u);
    } else if s.e.EAdd? {
      var t := s.(e := EDone);
      StepPreserves(s, Encode, t);
      LeadsStep(s, Encode, t);
    } else {
      LeadsSelf(s);
    }
  }

  /** Once asked to exit, the capture loop can be kept from ending exactly if it is at risk;
      otherwise it can still end whatever has happened since. */
  lemma HangsIfAtRisk(s: State)
    requires Inv(s) && s.exit
    ensures CanHang(s) <==> AtRisk(s)
    ensures (forall t :: Leads(s, t) ==> CanEnd(t)) <==> !AtRisk(s)
  {
    if AtRisk(s) {
      RiskHangs(s);
    } else {
      forall t | Leads(s, t)
        ensures !Doomed(t)
      {
        if Doomed(t) {
          var run :| Path(run, s, t);
          RiskPath(run, s, t);
        }
      }
    }
    forall t | Leads(s, t)
      ensures CanEnd(t) <==> !Doomed(t)
    {
      LeadsKeeps(s, t);
      EndsUnlessDoomed(t);
    }
  }

  // ---- a run into it

  ghost predicate Hung(s: State, cap: nat) {
    Reachable(s, cap) && Doomed(s)
  }

  /** The buffer to capture into next is free. */
  ghost predicate CurFree(s: State) { InRange(s) && Cur(s) in s.released }

  lemma CopyOne(s: State, cap: nat) returns (t: State)
    requires Reachable(s, cap)
    requires s.c == CTop && s.lock == Free && !s.exit
    requires CurFree(s)
    ensures Reachable(t, cap)
    ensures t == s.(c := CPublish0(0), held := t.held, e := if s.e == EOff then ETop else s.e)
  {
    ReachInv(s, cap);
    var s1 := s.(c := CWait);
    ReachNext(s, Capture(0, 0), s1, cap);
    var s2 := s1.(c := CTest(Cur(s1)));
    ReachNext(s1, Capture(0, 0), s2, cap);
    var s3 := s2.(c := CCopy);
    ReachNext(s2, Capture(0, 0), s3, cap);
    var s4 := s3.(held := s3.held[Cur(s3) := 0], c := CCopied(0));
    ReachNext(s3, Capture(0, 0), s4, cap);
    t := s4.(c := CPublish0(0), e := if s.e == EOff then ETop else s.e);
    ReachNext(s4, Capture(0, 0), t, cap);
  }

  lemma FinishPublish(s: State, cap: nat) returns (t: State)
    requires Reachable(s, cap) && s.c == CPublish2
    ensures Reachable(t, cap)
    ensures t.c == CTop && t.e == s.e && t.lock == Free && t.exit == s.exit
    ensures t.captured == s.captured && t.done == s.done
  {
    ReachInv(s, cap);
    var added := Unused(s.ring.slots);
    var r := AdvanceCapture(s.ring, s.ring.slots[NextSlot(s.ring)] in s.released, added);
    t := s.(ring := r, lock := Free, c := CTop,
            released := if |r.slots| > |s.ring.slots| then s.released + {added} else s.released);
    ReachNext(s, Capture(0, added), t, cap);
  }

  lemma PublishOne(s: State, cap: nat) returns (t: State)
    requires Reachable(s, cap)
    requires s.c == CPublish0(0) && s.lock == Free && !s.exit
    ensures Reachable(t, cap)
    ensures t.c == CTop && t.e == s.e && t.lock == Free && !t.exit
    ensures Pending(t) == Pending(s) + 1
  {
    ReachInv(s, cap);
    var s1 := s.(lock := Capturer, released := s.released - {Cur(s)}, c := CPublish1(0));
    ReachNext(s, Capture(0, 0), s1, cap);
    var s2 := s1.(available := s1.available + {Cur(s1)}, captured := s1.captured + [0], c := CPublish2);
    ReachNext(s1, Capture(0, 0), s2, cap);
    t := FinishPublish(s2, cap);
  }

  lemma CaptureOne(s: State, cap: nat) returns (t: State)
    requires Reachable(s, cap)
    requires s.c == CTop && s.e == EDone && s.lock == Free && !s.exit
    requires Pending(s) < |s.ring.slots|
    ensures Reachable(t, cap)
    ensures t.c == CTop && t.e == EDone && t.lock == Free && !t.exit
    ensures Pending(t) == Pending(s) + 1
  {
    ReachInv(s, cap);
    Facts(s);
    t := CopyOne(s, cap);
    t := PublishOne(t, cap);
  }

  /** With the encoder gone, each capture adds one pending buffer until none is left. */
  lemma {:induction false} FillUp(s: State, cap: nat) returns (t: State)
    requires Reachable(s, cap)
    requires s.c == CTop && s.e == EDone && s.lock == Free && !s.exit
    ensures Reachable(t, cap)
    ensures t.c == CTop && t.e == EDone && t.lock == Free && !t.exit
    ensures Pending(t) == |t.ring.slots|
    decreases cap - Pending(s)
  {
    ReachInv(s, cap);
    if Pending(s) == |s.ring.slots| {
      t := s;
    } else {
      t := CaptureOne(s, cap);
      t := FillUp(t, cap);
    }
  }

  lemma Start(cap: nat) returns (s: State)
    requires cap >= 2
    ensures Reachable(s, cap)
    ensures s.c == CTop && s.e == EOff && s.lock == Free && !s.exit && Pending(s) == 0
    ensures CurFree(s)
  {
    s := State(Ring([0, 1], cap, 0, 0), {0, 1}, {}, map[], Free, CTop, EOff, false, [], [], 0);
    LeadsSelf(s);
    assert Init(s, cap);
    InitInv(s, cap);
  }

  lemma AskToExit(s: State, cap: nat) returns (t: State)
    requires Reachable(s, cap)
    requires s.c == CTop && s.e == EDone && s.lock == Free && !s.exit
    requires Pending(s) == |s.ring.slots|
    ensures Reachable(t, cap) && Doomed(t)
  {
    ReachInv(s, cap);
    var s1 := s.(c := CWait);
    ReachNext(s, Capture(0, 0), s1, cap);
    t := s1.(exit := true);
    ReachNext(s1, SetExit, t, cap);
    ReachInv(t, cap);
    Facts(t);
  }

  /** The encoder thread takes one frame and returns because `add_frame` said so. */
  lemma EncoderGivesUp(s: State, cap: nat) returns (t: State)
    requires Reachable(s, cap)
    requires s.c == CTop && s.e == ETop && s.lock == Free && !s.exit && Pending(s) > 0
    ensures Reachable(t, cap)
    ensures t == s.(e := EDone, taken := t.taken)
  {
    ReachInv(s, cap);
    Facts(s);
    var s1 := s.(e := EWait);
    ReachNext(s, Encode, s1, cap);
    var s2 := s1.(e := ETest(Enc(s1)));
    ReachNext(s1, Encode, s2, cap);
    var s3 := s2.(e := EFetch);
    ReachNext(s2, Encode, s3, cap);
    var s4 := s3.(e := EAdd(Enc(s3)));
    ReachNext(s3, Encode, s4, cap);
    ReachInv(s4, cap);
    assert s4.held[Order(s4.ring)[0]] == s4.captured[s4.done + 0];
    t := s4.(taken := s4.taken + [s4.held[Enc(s4)]], e := EDone);
    ReachNext(s4, Encode, t, cap);
  }

  lemma HangRun(cap: nat) returns (s: State)
    requires cap >= 2
    ensures Hung(s, cap)
  {
    s := Start(cap);
    s := CopyOne(s, cap);
    s := PublishOne(s, cap);
    s := EncoderGivesUp(s, cap);
    s := FillUp(s, cap);
    s := AskToExit(s, cap);
  }

  /** The capture loop does not always end when asked to: for every capacity there is a run
      after which the capturer is doomed, and by EndsUnlessDoomed no continuation leaves the wait. */
  lemma HangIsReachable(cap: nat)
    requires cap >= 2
    ensures exists s :: Hung(s, cap)
  {
    var s := HangRun(cap);
    assert Hung(s, cap);
  }
}
