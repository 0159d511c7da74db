/** The recorder's two threads cannot block each other: as long as neither has been told to stop,
    the next frame can still be taken (aether-recorder/src/main.cpp:617-736). */
module FrameProgress {
  import opened BufferPool
  import opened FramePipeline
  import opened FrameReach
  import opened FrameShutdown

  /** The encoder thread is spawned before the first frame is published, and the capture loop is
      left only when told to. */
  ghost predicate Started(s: State) {
    && (s.e.EOff? ==> s.captured == [] && !s.c.CPublish0? && !InPublish(s.c))
    && (s.c.CDone? ==> s.exit)
  }

  lemma StartedStep(s: State, a: Action, t: State)
    requires Started(s) && Step(s, a, t)
    ensures Started(t)
  {
  }

  lemma {:induction false} StartedPath(run: seq<State>, s: State, t: State)
    requires Path(run, s, t) && Started(s)
    ensures Started(t)
    decreases |run|
  {
    if |run| > 1 {
      assert Next(run[0], run[0 + 1]);
      var a :| Step(s, a, run[1]);
      StartedStep(s, a, run[1]);
      assert Path(run[1..], run[1], t);
      StartedPath(run[1..], run[1], t);
    }
  }

  lemma ReachStarted(s: State, cap: nat)
    requires Reachable(s, cap)
    ensures Started(s)
  {
    var r :| Init(r, cap) && Leads(r, s);
    var run :| Path(run, r, s);
    StartedPath(run, r, s);
  }

  /** Neither thread has been told to stop, and the encoder has not given up. */
  ghost predicate Live(s: State) {
    Inv(s) && Started(s) && !s.exit && s.e != EDone
  }

  /** Every published frame has been taken. */
  predicate Drained(s: State) { |s.captured| <= |s.taken| }

  function EncoderRank(e: EncodePc): nat {
    match e
    case ERelease0 => 9
    case ERelease1 => 8
    case ERelease2 => 7
    case EOff | ETop => 6
    case EWait => 5
    case ETest(_) => 4
    case EFetch => 3
    case EAdd(_) => 2
    case EDone => 0
  }

  function CaptureRank(c: CapturePc, drained: bool): nat {
    match c
    case CPublish1(_) => 2
    case CPublish2 => 1
    case CTop => if drained then 8 else 0
    case CWait => if drained then 7 else 0
    case CTest(_) => if drained then 6 else 0
    case CCopy => if drained then 5 else 0
    case CCopied(_) => if drained then 4 else 0
    case CPublish0(_) => if drained then 3 else 0
    case CDone => 0
  }

  /** How far the next frame is from being taken, if the threads are scheduled to that end. */
  function Distance(s: State): nat {
    (if Drained(s) then 100 else 0) + EncoderRank(s.e) + CaptureRank(s.c, Drained(s))
  }

  /** One step on the way: it takes the frame, or comes nearer to that. */
  ghost predicate Nearer(s: State, t: State) {
    && Live(t) && s.captured <= t.captured
    && (t.taken == s.taken ==> Distance(t) < Distance(s))
    && (t.taken != s.taken ==> |s.taken| < |t.captured| && t.taken == s.taken + [t.captured[|s.taken|]])
  }

  lemma Publishing(s: State) returns (a: Action, t: State)
    requires Live(s) && InPublish(s.c)
    ensures Step(s, a, t) && Nearer(s, t)
  {
    if s.c.CPublish1? {
      a := Capture(0, 0);
      t := s.(available := s.available + {Cur(s)}, captured := s.captured + [s.c.frame], c := CPublish2);
    } else {
      var added := Unused(s.ring.slots);
      var r := AdvanceCapture(s.ring, s.ring.slots[NextSlot(s.ring)] in s.released, added);
      a := Capture(0, added);
      t := s.(ring := r, lock := Free, c := CTop,
              released := if |r.slots| > |s.ring.slots| then s.released + {added} else s.released);
    }
    StepPreserves(s, a, t);
  }

  lemma Releasing(s: State) returns (a: Action, t: State)
    requires Live(s) && !InPublish(s.c) && (s.e.ERelease0? || InRelease(s.e))
    ensures Step(s, a, t) && Nearer(s, t)
  {
    a := Encode;
    t := match s.e
      case ERelease0 => s.(lock := Encoder, available := s.available - {Enc(s)}, e := ERelease1)
      case ERelease1 => s.(released := s.released + {Enc(s)}, e := ERelease2)
      case ERelease2 => s.(ring := AdvanceEncode(s.ring), lock := Free, done := s.done + 1, e := ETop);
    StepPreserves(s, a, t);
  }

  lemma Fetching(s: State) returns (a: Action, t: State)
    requires Live(s) && !InPublish(s.c) && !Drained(s) && !s.e.EAdd? && !s.e.ERelease0? && !InRelease(s.e)
    ensures Step(s, a, t) && Nearer(s, t)
  {
    Facts(s);
    a := Encode;
    t := match s.e
      case ETop => s.(e := EWait)
      case EWait => s.(e := ETest(Enc(s)))
      case ETest(_) => s.(e := EFetch)
      case EFetch => s.(e := EAdd(Enc(s)));
    StepPreserves(s, a, t);
  }

  lemma Taking(s: State) returns (a: Action, t: State)
    requires Live(s) && s.e.EAdd?
    ensures Step(s, a, t) && Nearer(s, t)
  {
    Facts(s);
    AddTakesNext(s);
    a := Encode;
    t := s.(taken := s.taken + [s.held[s.e.buf]], e := ERelease0);
    StepPreserves(s, a, t);
  }

  lemma Capturing(s: State) returns (a: Action, t: State)
    requires Live(s) && !InPublish(s.c) && Drained(s) && !s.e.EAdd? && !s.e.ERelease0? && !InRelease(s.e)
    ensures Step(s, a, t) && Nearer(s, t)
  {
    Facts(s);
    a := Capture(0, 0);
    t := match s.c
      case CTop => s.(c := CWait)
      case CWait => s.(c := CTest(Cur(s)))
      case CTest(_) => s.(c := CCopy)
      case CCopy => s.(held := s.held[Cur(s) := 0], c := CCopied(0))
      case CCopied(f) => s.(c := CPublish0(f), e := if s.e == EOff then ETop else s.e)
      case CPublish0(f) => s.(lock := Capturer, released := s.released - {Cur(s)}, c := CPublish1(f));
    StepPreserves(s, a, t);
  }

  lemma OneStep(s: State) returns (a: Action, t: State)
    requires Live(s)
    ensures Step(s, a, t) && Nearer(s, t)
  {
    if InPublish(s.c) {
      a, t := Publishing(s);
    } else if s.e.ERelease0? || InRelease(s.e) {
      a, t := Releasing(s);
    } else if s.e.EAdd? {
      a, t := Taking(s);
    } else if Drained(s) {
      a, t := Capturing(s);
    } else {
      a, t := Fetching(s);
    }
  }

  /** Some continuation takes exactly one more frame, the oldest one not taken yet. */
  ghost predicate TakesNext(s: State) {
    exists t :: Leads(s, t) && s.captured <= t.captured && |s.taken| < |t.captured|
                && t.taken == s.taken + [t.captured[|s.taken|]]
  }

  lemma {:induction false} LiveTakesNext(s: State)
    requires Live(s)
    ensures TakesNext(s)
    decreases Distance(s)
  {
    var a, t := OneStep(s);
    LeadsStep(s, a, t);
    if t.taken == s.taken {
      LiveTakesNext(t);
      var u :| Leads(t, u) && t.captured <= u.captured && |t.taken| < |u.captured|
               && u.taken == t.taken + [u.captured[|t.taken|]];
      LeadsTrans(s, t, u);
    }
  }

  /** In no run do the threads block each other: from every reachable state, unless one of them is
      to stop or has given up, the next frame can be taken. */
  lemma NeverBlocked(s: State, cap: nat)
    requires Reachable(s, cap) && !s.exit && s.e != EDone
    ensures TakesNext(s)
  {
    ReachInv(s, cap);
    ReachStarted(s, cap);
    LiveTakesNext(s);
  }
}
