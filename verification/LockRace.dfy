/** When the lock screen can have two requests unanswered (aetherlock/src/password.c:56-61, 110-129). */
module LockRace {
  import opened TimerLoop
  import opened LockScreen
  import opened LockMarks
  import opened Bytes
  import PasswordBuffer

  // ---- without the timer of a failure mark

  /** Waiting for a reply, with no timer pending that would overwrite VALIDATING. */
  ghost predicate Waiting(s: State) {
    Ok(s.tm, {}) && s.talk.auth == Validating && AuthIdle !in s.tm.armed
  }

  ghost predicate SameTalk(s: State, u: State) {
    u.talk == s.talk.(replies := u.talk.replies)
  }

  /** Calls about other timers. */
  ghost predicate Elsewhere(ops: seq<Op>) {
    forall i :: 0 <= i < |ops| ==> ops[i].cb != AuthIdle
  }

  lemma {:induction false} KeysElsewhere(keys: set<Callback>, ops: seq<Op>)
    requires Elsewhere(ops)
    ensures AuthIdle in KeysAfter(keys, ops) <==> AuthIdle in keys
    decreases |ops|
  {
    if ops != [] {
      KeysElsewhere(KeyAfter(keys, ops[0]), ops[1..]);
    }
  }

  lemma OpsMark(t: Timing, ops: seq<Op>)
    requires Elsewhere(ops)
    ensures AuthIdle in ApplyAll(t, ops).armed <==> AuthIdle in t.armed
  {
    ApplyAllKeys(t, ops);
    KeysElsewhere(t.armed.Keys, ops);
    assert AuthIdle in ApplyAll(t, ops).armed.Keys <==> AuthIdle in t.armed.Keys;
  }

  lemma KeyElsewhere(s: State, key: Key, cp: u32)
    requires s.talk.auth == Validating
    ensures Elsewhere(KeyOps(s, key, cp)) && HandleKey(s, key, cp).talk == s.talk
  {
  }

  lemma KeyWaits(s: State, key: Key, cp: u32)
    requires s.talk.auth == Validating && AuthIdle !in s.tm.armed
    ensures var u := HandleKey(s, key, cp); u.talk == s.talk && AuthIdle !in u.tm.armed
  {
    KeyIsOps(s, key, cp);
    KeyElsewhere(s, key, cp);
    OpsMark(s.tm, KeyOps(s, key, cp));
  }

  lemma CallWaits(s: State, cb: Callback)
    requires s.talk.auth == Validating && AuthIdle !in s.tm.armed && cb != AuthIdle
    ensures var u := Call(s, cb); u.talk == s.talk && AuthIdle !in u.tm.armed
  {
    match cb {
      case Repeat(k) =>
        var seat := SeatOf(s, k);
        KeyWaits(s.(tm := Arm(s.tm, cb, seat.period)), seat.key, seat.codepoint);
      case _ =>
    }
  }

  lemma VisitWaits(s: State, ids: seq<nat>, now: Timespec)
    requires Waiting(s) && ids != [] && EndsWith(s.tm.list, ids)
    ensures var u := Visit(s, ids[0], now); Waiting(u) && u.talk == s.talk && EndsWith(u.tm.list, ids[1..])
  {
    VisitKeeps(s, ids, now);
    var id := ids[0];
    if id in s.tm.timers && !s.tm.timers[id].removed {
      CallWaits(s.(tm := Fire(s.tm, id)), s.tm.timers[id].callback);
    }
  }

  lemma {:induction false} DispatchWaits(s: State, ids: seq<nat>, now: Timespec)
    requires Waiting(s) && EndsWith(s.tm.list, ids)
    ensures var u := Dispatch(s, ids, now); Waiting(u) && u.talk == s.talk
    decreases |ids|
  {
    if ids != [] {
      VisitWaits(s, ids, now);
      DispatchWaits(Visit(s, ids[0], now), ids[1..], now);
    }
  }

  lemma KeyEventWaits(s: State, k: nat, key: Key, cp: u32, pressed: bool)
    requires Waiting(s)
    ensures var u := KeyEvent(s, k, key, cp, pressed); u.talk == s.talk && AuthIdle !in u.tm.armed
  {
    KeyWaits(s, key, cp);
  }

  lemma StepWaits(s: State, e: Event)
    requires Waiting(s) && e != Reply
    ensures Waiting(Step(s, e)) && SameTalk(s, Step(s, e))
  {
    StepTimers(s, e);
    match e {
      case KeyPress(k, key, cp, pressed) => KeyEventWaits(s, k, key, cp, pressed);
      case Timers => DispatchWaits(s, s.tm.list, s.tm.now);
      case _ =>
    }
  }

  ghost predicate Unread(es: seq<Event>) {
    forall i :: 0 <= i < |es| ==> es[i] != Reply
  }

  lemma {:induction false} RunWaits(s: State, es: seq<Event>)
    requires Waiting(s) && Unread(es)
    ensures SameTalk(s, Run(s, es))
    decreases |es|
  {
    if es != [] {
      assert es[0] != Reply && Unread(es[1..]);
      StepWaits(s, es[0]);
      RunWaits(Step(s, es[0]), es[1..]);
    }
  }

  // ---- with it

  /** Since `s` no reply has been read and no request lost, and the pipe works. */
  ghost predicate Since(s: State, u: State) {
    u.pipeOk && u.talk.answered == s.talk.answered && |u.talk.sent| >= |s.talk.sent| && u.room == s.room
  }

  /** Another request has gone out, or none is being validated any more. */
  ghost predicate Freed(s: State, u: State) {
    |u.talk.sent| > |s.talk.sent| || u.talk.auth != Validating
  }

  /** The timer of the failure mark, if it is pending, stays the same. */
  ghost predicate SameMark(t: Timing, u: Timing) {
    AuthIdle in t.armed ==> AuthIdle in u.armed && u.armed[AuthIdle] == t.armed[AuthIdle]
  }

  lemma {:induction false} OpsElsewhere(t: Timing, ops: seq<Op>)
    requires Elsewhere(ops)
    ensures SameMark(t, ApplyAll(t, ops))
    decreases |ops|
  {
    if ops != [] {
      assert SameMark(t, Apply(t, ops[0]));
      OpsElsewhere(Apply(t, ops[0]), ops[1..]);
    }
  }

  lemma KeyFrees(s: State, u: State, key: Key, cp: u32)
    requires Since(s, u)
    ensures var v := HandleKey(u, key, cp);
            Since(s, v) && SameMark(u.tm, v.tm) && (Freed(s, u) ==> Freed(s, v))
  {
    OpsElsewhere(u.tm, QUIET_OPS);
    OpsElsewhere(u.tm, CLEAR_OPS);
    OpsElsewhere(u.tm, BUSY_OPS);
  }

  lemma CallFrees(s: State, u: State, cb: Callback)
    requires Since(s, u)
    ensures var v := Call(u, cb);
            && Since(s, v) && (Freed(s, u) || cb == AuthIdle ==> Freed(s, v))
            && (cb != AuthIdle ==> SameMark(u.tm, v.tm))
  {
    match cb {
      case Repeat(k) =>
        var seat := SeatOf(u, k);
        KeyFrees(s, u.(tm := Arm(u.tm, cb, seat.period)), seat.key, seat.codepoint);
      case _ =>
    }
  }

  lemma VisitFrees(s: State, u: State, ids: seq<nat>, now: Timespec)
    requires Since(s, u) && Ok(u.tm, {}) && ids != [] && EndsWith(u.tm.list, ids)
    requires Freed(s, u) || MarkDue(u.tm, AuthIdle, ids, now)
    ensures var v := Visit(u, ids[0], now);
            && Since(s, v) && Ok(v.tm, {}) && EndsWith(v.tm.list, ids[1..])
            && (Freed(s, v) || MarkDue(v.tm, AuthIdle, ids[1..], now))
  {
    VisitKeeps(u, ids, now);
    var id := ids[0];
    if id in u.tm.timers && !u.tm.timers[id].removed && Before(u.tm.timers[id].expiry, now) {
      CallFrees(s, u.(tm := Fire(u.tm, id)), u.tm.timers[id].callback);
    }
    if !Freed(s, u) && u.tm.armed[AuthIdle] != id {
      StillDue(u.tm, Visit(u, id, now).tm, AuthIdle, ids, now);
    }
  }

  lemma {:induction false} DispatchFrees(s: State, u: State, ids: seq<nat>, now: Timespec)
    requires Since(s, u) && Ok(u.tm, {}) && EndsWith(u.tm.list, ids)
    requires Freed(s, u) || MarkDue(u.tm, AuthIdle, ids, now)
    ensures var v := Dispatch(u, ids, now); Since(s, v) && Freed(s, v)
    decreases |ids|
  {
    if ids != [] {
      VisitFrees(s, u, ids, now);
      DispatchFrees(s, Visit(u, ids[0], now), ids[1..], now);
    }
  }

  lemma RunTwo(s: State, a: Event, b: Event)
    ensures Run(s, [a, b]) == Step(Step(s, a), b)
  {
    assert [a, b][1..] == [b] && [b][1..] == [];
    assert Run(Step(s, a), [b]) == Run(Step(Step(s, a), b), []);
  }

  lemma {:induction false} RunSplit(s: State, a: seq<Event>, b: seq<Event>)
    ensures Run(s, a + b) == Run(Run(s, a), b)
    decreases |a|
  {
    if a == [] {
      assert a + b == b;
    } else {
      assert (a + b)[1..] == a[1..] + b;
      RunSplit(Step(s, a[0]), a[1..], b);
    }
  }

  lemma RunThree(s: State, a: Event, b: Event, c: Event)
    ensures Run(s, [a, b, c]) == Step(Step(Step(s, a), b), c)
  {
    assert [a, b, c][1..] == [b, c] && [b, c][1..] == [c] && [c][1..] == [];
    assert Run(s, [a, b, c]) == Run(Step(s, a), [b, c]) == Run(Step(Step(s, a), b), [c]);
    assert Run(Step(Step(s, a), b), [c]) == Run(Step(Step(Step(s, a), b), c), []);
  }

  /** Events after which the timer of the failure mark has had its turn. */
  lemma MarkEvents(s: State) returns (es: seq<Event>, u: State)
    requires Ok(s.tm, {}) && AuthIdle in s.tm.armed
    ensures Unread(es) && u == Run(s, es) && Since(s, u) && Freed(s, u)
  {
    var id := s.tm.armed[AuthIdle];
    var now := Timespec(s.tm.timers[id].expiry.sec + 1, 0);
    es := [SetPipe(true), Clocks(now), Timers];
    RunThree(s, SetPipe(true), Clocks(now), Timers);
    u := Run(s, es);
    var v := s.(pipeOk := true, tm := s.tm.(now := now));
    ClockKeeps(s.tm, now);
    DispatchFrees(s, v, v.tm.list, now);
  }

  const LETTER: Event := KeyPress(0, Other, 65, true)
  const ENTER: Event := KeyPress(0, Enter, 0, true)

  /** A letter and Enter send a request when none is being validated. */
  lemma TypeAndEnter(s: State)
    requires s.pipeOk && s.talk.auth != Validating && s.room >= 3
    ensures var u := Step(Step(s, LETTER), ENTER);
            u.talk.answered == s.talk.answered && |u.talk.sent| == |s.talk.sent| + 1
  {
    var v := Step(s, LETTER);
    assert v.talk == s.talk && v.pipeOk;
    assert v.typed == PasswordBuffer.Typed(s.typed, 65, s.room) != [];
  }

  lemma PressSince(s: State, u: State, key: Key, cp: u32)
    requires Since(s, u)
    ensures Since(s, KeyEvent(u, 0, key, cp, true))
  {
    KeyFrees(s, u, key, cp);
  }

  lemma TypeAndWait(s: State)
    requires s.pipeOk
    ensures Since(s, Step(Step(s, LETTER), ENTER))
  {
    PressSince(s, s, Other, 65);
    PressSince(s, Step(s, LETTER), Enter, 0);
  }

  // ---- the condition

  /** Without a reply being read, another request can go out. */
  ghost predicate CanDouble(s: State) {
    exists es :: Unread(es) && Outstanding(Run(s, es).talk) > Outstanding(s.talk)
  }

  lemma DoubleEvents(s: State) returns (es: seq<Event>)
    requires Ok(s.tm, {}) && AuthIdle in s.tm.armed && s.room >= 3
    ensures Unread(es) && Outstanding(Run(s, es).talk) > Outstanding(s.talk)
  {
    var first, u := MarkEvents(s);
    es := first + [LETTER, ENTER];
    RunSplit(s, first, [LETTER, ENTER]);
    RunTwo(u, LETTER, ENTER);
    TypeAndWait(u);
    if u.talk.auth != Validating {
      TypeAndEnter(u);
    }
  }

  /** While a reply is awaited, another request can go out before it is read if and only if the
      timer of the failure mark is pending. */
  lemma DoubledWhileWaiting(s: State)
    requires Ok(s.tm, {}) && s.talk.auth == Validating && s.room >= 3
    ensures CanDouble(s) <==> AuthIdle in s.tm.armed
  {
    if AuthIdle in s.tm.armed {
      var es := DoubleEvents(s);
    } else {
      forall es | Unread(es)
        ensures Outstanding(Run(s, es).talk) == Outstanding(s.talk)
      {
        RunWaits(s, es);
      }
    }
  }

  lemma OpsKeepMark(t: Timing, ops: seq<Op>)
    requires Ok(t, {}) && Elsewhere(ops)
    ensures Ok(ApplyAll(t, ops), {})
    ensures AuthIdle in ApplyAll(t, ops).armed <==> AuthIdle in t.armed
  {
    ApplyAllKeeps(t, ops, {});
    OpsMark(t, ops);
  }

  lemma Submitted(s: State)
    requires Ok(s.tm, {}) && !Ignored(s) && s.pipeOk
    ensures var u := Submit(s);
            && Ok(u.tm, {}) && u.talk.auth == Validating && u.room == s.room
            && (AuthIdle in u.tm.armed <==> AuthIdle in s.tm.armed)
            && Outstanding(u.talk) == Outstanding(s.talk) + 1
  {
    assert Submit(s).tm == ApplyAll(s.tm, QUIET_OPS);
    OpsKeepMark(s.tm, QUIET_OPS);
  }

  /** So a submission shares the pipe with a later one exactly when it is made while the timer of
      an earlier failure mark is pending: submit_password does not cancel that timer. */
  lemma SubmitBesideAnother(s: State)
    requires Inv(s) && !Ignored(s) && s.pipeOk && s.room >= 3
    ensures CanDouble(Submit(s)) <==> AuthIdle in s.tm.armed
    ensures s.talk.run && !s.talk.raced ==> Outstanding(Submit(s).talk) == 1
  {
    Submitted(s);
    DoubledWhileWaiting(Submit(s));
  }

  // ---- a run with two

  /** The self-arming callbacks leave the conversation alone. */
  lemma QuietVisit(s: State, id: nat, now: Timespec)
    requires id in s.tm.timers ==> s.tm.timers[id].callback in {Clock, Marquee, Pump, Stats}
    ensures Visit(s, id, now).talk == s.talk && Visit(s, id, now).pipeOk == s.pipeOk
    ensures Visit(s, id, now).typed == s.typed && Visit(s, id, now).ignoreEmpty == s.ignoreEmpty
  {
  }

  /** Submitting with nothing armed touches no timer. */
  lemma QuietSubmit(s: State)
    requires !s.ignoreEmpty && s.talk.auth != Validating && s.pipeOk
    requires ClearPassword !in s.tm.armed && InputIdle !in s.tm.armed && Repeat(0) !in s.tm.armed
    requires SeatOf(s, 0).period == 0
    ensures Step(s, KeyPress(0, Enter, 0, true))
         == s.(input := InputNone, typed := [], talk := s.talk.(auth := Validating, sent := s.talk.sent + [s.typed]))
  {
    ApplyTwo(s.tm, DoCancel(ClearPassword), DoCancel(InputIdle));
  }

  ghost predicate AfterRefusal(s: State) {
    && s.tm.list == [2, 1, 0] && s.tm.now == Timespec(0, 0)
    && s.tm.timers.Keys == {0, 1, 2} && s.tm.next == 3
    && s.tm.timers[2] == Timer(AuthIdle, Timespec(3, 0), false)
    && s.tm.timers[1].callback == Stats && s.tm.timers[0].callback == Pump
    && s.tm.armed.Keys == {Pump, Stats, AuthIdle} && s.seats == map[]
    && s.talk.auth == Invalid && Outstanding(s.talk) == 0 && !s.ignoreEmpty && s.pipeOk
  }

  lemma Refused(room: nat) returns (s: State)
    ensures AfterRefusal(s)
    ensures s == Run(Start(Timespec(0, 0), false, false, room),
                     [KeyPress(0, Enter, 0, true), ChildAnswers(false), Reply])
  {
    var s0 := Start(Timespec(0, 0), false, false, room);
    QuietSubmit(s0);
    s := Step(Step(Step(s0, KeyPress(0, Enter, 0, true)), ChildAnswers(false)), Reply);
    RunThree(s0, KeyPress(0, Enter, 0, true), ChildAnswers(false), Reply);
  }

  lemma RacePass(s: State)
    requires s.tm.list == [2, 1, 0] && s.tm.now == Timespec(4, 0) && s.tm.timers.Keys == {0, 1, 2} && s.tm.next == 3
    requires s.tm.timers[2] == Timer(AuthIdle, Timespec(3, 0), false)
    requires s.tm.timers[1].callback == Stats && s.tm.timers[0].callback == Pump
    ensures var u := Step(s, Timers); u.talk == GoIdle(s.talk) && u.pipeOk == s.pipeOk && u.ignoreEmpty == s.ignoreEmpty
  {
    var now := s.tm.now;
    var v2 := Visit(s, 2, now);
    assert v2.talk == GoIdle(s.talk) && v2.tm.timers == s.tm.timers - {2};
    QuietVisit(v2, 1, now);
    var v1 := Visit(v2, 1, now);
    assert 0 in v1.tm.timers && v1.tm.timers[0] == s.tm.timers[0];
    QuietVisit(v1, 0, now);
    var v0 := Visit(v1, 0, now);
    assert [2, 1, 0][1..] == [1, 0] && [1, 0][1..] == [0] && [0][1..] == [];
    assert Dispatch(s, [2, 1, 0], now) == Dispatch(v2, [1, 0], now) == Dispatch(v1, [0], now) == Dispatch(v0, [], now);
  }

  lemma Race(s: State) returns (u: State)
    requires AfterRefusal(s)
    ensures u == Run(s, [KeyPress(0, Enter, 0, true), Clocks(Timespec(4, 0)), Timers])
    ensures u.talk.auth == AuthNone && u.talk.raced && Outstanding(u.talk) == 1 && !u.ignoreEmpty && u.pipeOk
  {
    QuietSubmit(s);
    var now := Timespec(4, 0);
    var s1 := Step(s, KeyPress(0, Enter, 0, true));
    var s2 := Step(s1, Clocks(now));
    u := Step(s2, Timers);
    RunThree(s, KeyPress(0, Enter, 0, true), Clocks(now), Timers);
    RacePass(s2);
  }

  lemma SecondRequest(s: State)
    requires s.talk.auth == AuthNone && Outstanding(s.talk) == 1 && !s.ignoreEmpty && s.pipeOk
    ensures Outstanding(Run(s, [KeyPress(0, Enter, 0, true)]).talk) == 2
  {
    var e := KeyPress(0, Enter, 0, true);
    assert [e][1..] == [];
    assert Run(s, [e]) == Run(Step(s, e), []);
  }

  lemma RaceEvents(room: nat) returns (es: seq<Event>)
    ensures Outstanding(Run(Start(Timespec(0, 0), false, false, room), es).talk) == 2
  {
    var start, enter := Start(Timespec(0, 0), false, false, room), KeyPress(0, Enter, 0, true);
    var refusal, race := [enter, ChildAnswers(false), Reply], [enter, Clocks(Timespec(4, 0)), Timers];
    var refused := Refused(room);
    var raced := Race(refused);
    SecondRequest(raced);
    RunSplit(start, refusal, race);
    RunSplit(start, refusal + race, [enter]);
    es := refusal + race + [enter];
  }

  /** Two requests can be outstanding at once. `refused` is the screen after one refusal: its idle
      timer runs. A password submitted now is still unanswered when that timer fires, and the
      screen then accepts another. */
  lemma TwoOutstanding(room: nat)
    ensures exists es :: Outstanding(Run(Start(Timespec(0, 0), false, false, room), es).talk) == 2
  {
    var es := RaceEvents(room);
  }
}
