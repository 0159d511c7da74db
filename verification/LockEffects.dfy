/** What every key, callback and reply does to the lock screen, in numbers (aetherlock/src/password.c:49-217,
    aetherlock/src/seat.c:62-98, aetherlock/src/main.c:1208-1222), and that it stays locked. */
module LockEffects {
  import opened TimerLoop
  import opened LockScreen
  import opened Bytes
  import Utf8

  // ---- only the right password unlocks

  /** The screen is locked exactly while no reply read was a success. */
  ghost predicate Locked(t: Talk) {
    t.answered <= |t.replies| && (t.run <==> true !in t.replies[..t.answered])
  }

  /** A step that reads no reply. */
  ghost predicate Unread(t: Talk, u: Talk) {
    u.run == t.run && u.answered == t.answered && u.failed == t.failed && |t.replies| <= |u.replies|
    && u.replies[..|t.replies|] == t.replies
  }

  lemma UnreadTrans(t: Talk, u: Talk, v: Talk)
    requires Unread(t, u) && Unread(u, v)
    ensures Unread(t, v)
  {
    assert v.replies[..|t.replies|] == v.replies[..|u.replies|][..|t.replies|];
  }

  lemma KeyUnread(s: State, key: Key, cp: u32)
    ensures Unread(s.talk, HandleKey(s, key, cp).talk)
  {
    assert HandleKey(s, key, cp).talk == s.talk || HandleKey(s, key, cp).talk == Submit(s).talk;
  }

  lemma CallUnread(s: State, cb: Callback)
    ensures Unread(s.talk, Call(s, cb).talk)
  {
    if cb.Repeat? {
      var seat := SeatOf(s, cb.seat);
      KeyUnread(s.(tm := Arm(s.tm, cb, seat.period)), seat.key, seat.codepoint);
    }
  }

  lemma VisitUnread(s: State, id: nat, now: Timespec)
    ensures Unread(s.talk, Visit(s, id, now).talk)
  {
    if id in s.tm.timers {
      CallUnread(s.(tm := Fire(s.tm, id)), s.tm.timers[id].callback);
    }
  }

  lemma {:induction false} DispatchUnread(s: State, ids: seq<nat>, now: Timespec)
    ensures Unread(s.talk, Dispatch(s, ids, now).talk)
    decreases |ids|
  {
    if ids != [] {
      var u := Visit(s, ids[0], now);
      VisitUnread(s, ids[0], now);
      DispatchUnread(u, ids[1..], now);
      UnreadTrans(s.talk, u.talk, Dispatch(u, ids[1..], now).talk);
    }
  }

  /** No other event reads a reply. */
  lemma OthersUnread(s: State, e: Event)
    requires e != Reply
    ensures Unread(s.talk, Step(s, e).talk)
  {
    match e {
      case KeyPress(k, key, cp, pressed) => KeyUnread(s, key, cp);
      case Timers => DispatchUnread(s, s.tm.list, s.tm.now);
      case _ =>
    }
  }

  /** A live timer with this callback will expire exactly `ms` milliseconds from now. */
  ghost predicate Pending(t: Timing, cb: Callback, ms: int) {
    && cb in t.armed && t.armed[cb] in t.timers
    && t.timers[t.armed[cb]].callback == cb && !t.timers[t.armed[cb]].removed
    && Nanos(t.timers[t.armed[cb]].expiry) == Nanos(t.now) + ms * 1_000_000
  }

  lemma ScheduledNow(t: Timing, cb: Callback, ms: int)
    requires Normal(t.now)
    ensures Pending(Schedule(t, cb, ms), cb, ms)
  {
    ExpiryExact(t.now, ms);
  }

  /** The checker answers one request at a time, none after a success, and its answer waits to be
      read. */
  lemma AnswerWaits(s: State, verdict: bool)
    ensures var t, u := s.talk, Step(s, ChildAnswers(verdict)).talk;
      && u == t.(replies := u.replies)
      && u.replies == if |t.replies| < |t.sent| && (forall i :: 0 <= i < |t.replies| ==> !t.replies[i])
                      then t.replies + [verdict] else t.replies
  {
  }

  /** Reading a reply: a refusal leaves the screen as locked as it was, shows the failure and
      counts it, and the mark goes away 3 seconds later; only a success unlocks. */
  lemma ReplyRead(s: State)
    requires Normal(s.tm.now) && s.talk.answered < |s.talk.replies|
    ensures var t, u := s.talk, Step(s, Reply).talk;
      && u.answered == t.answered + 1 && u.replies == t.replies && u.sent == t.sent && u.raced == t.raced
      && (t.replies[t.answered] ==> !u.run && u.failed == t.failed && u.auth == t.auth)
      && (!t.replies[t.answered] ==> u.run == t.run && u.failed == t.failed + 1 && u.auth == Invalid)
    ensures !s.talk.replies[s.talk.answered] ==> Pending(Step(s, Reply).tm, AuthIdle, 3000)
    ensures Step(s, Reply).typed == s.typed && Step(s, Reply).input == s.input
  {
    ScheduledNow(s.tm, AuthIdle, 3000);
  }

  lemma UnreadLocked(t: Talk, u: Talk)
    requires Locked(t) && Unread(t, u)
    ensures Locked(u)
  {
    assert u.replies[..u.answered] == u.replies[..|t.replies|][..t.answered];
  }

  lemma ReplyLocked(s: State)
    requires Locked(s.talk)
    ensures Locked(ReplyIn(s).talk)
  {
    var t := s.talk;
    if t.answered < |t.replies| {
      assert t.replies[..t.answered + 1] == t.replies[..t.answered] + [t.replies[t.answered]];
    }
  }

  lemma StepLocked(s: State, e: Event)
    requires Locked(s.talk)
    ensures Locked(Step(s, e).talk)
  {
    if e == Reply {
      ReplyLocked(s);
    } else {
      OthersUnread(s, e);
      UnreadLocked(s.talk, Step(s, e).talk);
    }
  }

  lemma {:induction false} RunLocked(s: State, es: seq<Event>)
    requires Locked(s.talk)
    ensures Locked(Run(s, es).talk)
    decreases |es|
  {
    if es != [] {
      StepLocked(s, es[0]);
      RunLocked(Step(s, es[0]), es[1..]);
    }
  }

  /** In every run the screen is locked exactly while no reply read was a success. */
  lemma StaysLocked(now: Timespec, showClock: bool, ignoreEmpty: bool, room: nat, es: seq<Event>)
    ensures var t := Run(Start(now, showClock, ignoreEmpty, room), es).talk;
      t.answered <= |t.replies| && (t.run <==> true !in t.replies[..t.answered])
  {
    RunLocked(Start(now, showClock, ignoreEmpty, room), es);
  }

  /** One event unlocks it: the reading of a success. */
  lemma OnlySuccessUnlocks(s: State, e: Event)
    requires Normal(s.tm.now)
    ensures s.talk.run && !Step(s, e).talk.run
       <==> s.talk.run && e == Reply && s.talk.answered < |s.talk.replies| && s.talk.replies[s.talk.answered]
    ensures !s.talk.run ==> !Step(s, e).talk.run
  {
    if e != Reply {
      OthersUnread(s, e);
    } else if s.talk.answered < |s.talk.replies| {
      ReplyRead(s);
    }
  }

  // ---- timers

  lemma ArmedNow(t: Timing, cb: Callback, ms: int)
    requires Normal(t.now)
    ensures Pending(Arm(t, cb, ms), cb, ms)
  {
    ExpiryExact(t.now, ms);
  }

  lemma OtherPending(t: Timing, op: Op, cb: Callback, ms: int, firing: set<nat>)
    requires Ok(t, firing) && Pending(t, cb, ms) && op.cb != cb
    ensures Pending(Apply(t, op), cb, ms)
  {
    if op.cb in t.armed {
      assert t.timers[t.armed[op.cb]].callback == op.cb;
    }
  }

  /** Both timers of a keystroke: the password goes 10 seconds after it, the input mark 1.5. */
  lemma BusyPending(t: Timing, firing: set<nat>)
    requires Ok(t, firing) && Normal(t.now)
    ensures var u := ApplyAll(t, BUSY_OPS); Pending(u, ClearPassword, 10_000) && Pending(u, InputIdle, 1500)
  {
    var u := Apply(t, BUSY_OPS[0]);
    ApplyTwo(t, BUSY_OPS[0], BUSY_OPS[1]);
    ScheduledNow(t, ClearPassword, 10_000);
    ApplyKeeps(t, BUSY_OPS[0], firing);
    OtherPending(u, BUSY_OPS[1], ClearPassword, 10_000, firing);
    ScheduledNow(u, InputIdle, 1500);
  }

  lemma ClearPending(t: Timing)
    requires Normal(t.now)
    ensures var u := ApplyAll(t, CLEAR_OPS); ClearPassword !in u.armed && Pending(u, InputIdle, 1500)
  {
    ApplyTwo(t, CLEAR_OPS[0], CLEAR_OPS[1]);
    ScheduledNow(Apply(t, CLEAR_OPS[0]), InputIdle, 1500);
  }

  lemma QuietPending(t: Timing)
    ensures var u := ApplyAll(t, QUIET_OPS); ClearPassword !in u.armed && InputIdle !in u.armed && u.now == t.now
  {
    ApplyTwo(t, QUIET_OPS[0], QUIET_OPS[1]);
  }

  lemma FailedPending(t: Timing)
    requires Normal(t.now)
    ensures var u := ApplyAll(t, FAILED_OPS);
            ClearPassword !in u.armed && InputIdle !in u.armed && Pending(u, AuthIdle, 3000)
  {
    var last := [DoSchedule(AuthIdle, AUTH_IDLE_MS)];
    assert FAILED_OPS == QUIET_OPS + last && last[1..] == [];
    ApplyAllSplit(t, QUIET_OPS, last);
    var u := ApplyAll(t, QUIET_OPS);
    assert ApplyAll(u, last) == ApplyAll(Apply(u, last[0]), []);
    QuietPending(t);
    ScheduledNow(u, AuthIdle, 3000);
  }

  // ---- keys

  /** Keys that clear what is typed. */
  predicate Clears(key: Key, control: bool) { key == Escape || (control && key in {Erase, LetterCU}) }

  predicate Submits(key: Key, control: bool) { key == Enter || (control && key == LetterMDJ) }

  predicate Types(key: Key, control: bool) { key == Other || (!control && key in {LetterMDJ, LetterCU}) }

  lemma PressIsHandled(s: State, k: nat, key: Key, cp: u32)
    ensures var u, v := Step(s, KeyPress(k, key, cp, true)), HandleKey(s, key, cp);
            u.typed == v.typed && u.input == v.input && u.talk == v.talk
  {
  }

  /** Escape, and Control with backspace, c or u, empty what is typed; backspace removes the last
      character; a modifier changes nothing. */
  lemma KeyErases(s: State, k: nat, key: Key, cp: u32)
    ensures var u := Step(s, KeyPress(k, key, cp, true));
      && (Clears(key, s.control) ==> u.typed == [] && u.input == Cleared)
      && (key == Erase && !s.control ==>
            if |s.typed| <= 1 then u.typed == [] && u.input == Cleared
            else u.typed == s.typed[..|s.typed| - 1] && u.input == Backspaced)
      && (key == Modifier ==> u.typed == s.typed && u.input == Neutral)
  {
    PressIsHandled(s, k, key, cp);
  }

  /** A key with a character appends it if its bytes, a terminator and a spare byte fit, and one
      without does nothing. */
  lemma KeyTypes(s: State, k: nat, key: Key, cp: u32)
    requires Types(key, s.control)
    ensures var u := Step(s, KeyPress(k, key, cp, true));
      && (cp == 0 ==> u.typed == s.typed && u.input == s.input)
      && (cp != 0 ==> u.input == Letter)
      && (cp != 0 ==>
            var size := if cp < 0x80 then 1 else if cp < 0x800 then 2 else if cp < 0x10000 then 3 else 4;
            u.typed == if |Utf8.EncodeAll(s.typed)| + size + 2 <= s.room then s.typed + [cp] else s.typed)
  {
    PressIsHandled(s, k, key, cp);
  }

  /** No key but a submission says anything to the password checker. */
  lemma KeySilent(s: State, k: nat, key: Key, cp: u32)
    requires !Submits(key, s.control)
    ensures Step(s, KeyPress(k, key, cp, true)).talk == s.talk
  {
    PressIsHandled(s, k, key, cp);
  }

  /** A submission sends exactly what is typed and wipes it, unless a reply is awaited or there is
      nothing to send. */
  lemma KeySubmits(s: State, k: nat, key: Key, cp: u32)
    requires Submits(key, s.control)
    ensures var u := Step(s, KeyPress(k, key, cp, true));
      if (s.ignoreEmpty && s.typed == []) || s.talk.auth == Validating
      then u.talk == s.talk && u.typed == s.typed && u.input == s.input
      else
        && u.typed == [] && u.input == InputNone
        && u.talk == if s.pipeOk then s.talk.(auth := Validating, sent := s.talk.sent + [s.typed])
                     else s.talk.(auth := Invalid)
  {
    PressIsHandled(s, k, key, cp);
  }

  /** Letting a key go types, sends and shows nothing, and ends its repetition. */
  lemma KeyReleased(s: State, k: nat, key: Key, cp: u32)
    ensures var u := Step(s, KeyPress(k, key, cp, false));
      && u.typed == s.typed && u.input == s.input && u.talk == s.talk && Repeat(k) !in u.tm.armed
      && forall cb :: cb != Repeat(k) ==> (cb in u.tm.armed <==> cb in s.tm.armed)
  {
  }

  /** The repeat timer of a seat: none, or one that fires after the delay. */
  function RepeatOp(s: State, k: nat): Op {
    if SeatOf(s, k).period > 0 then DoSchedule(Repeat(k), SeatOf(s, k).delay) else DoCancel(Repeat(k))
  }

  lemma PressIsOps(s: State, k: nat, key: Key, cp: u32)
    ensures var u := HandleKey(s, key, cp);
            u.seats == s.seats && Step(s, KeyPress(k, key, cp, true)).tm == Apply(u.tm, RepeatOp(s, k))
  {
    CancelThenArm(HandleKey(s, key, cp).tm, Repeat(k), SeatOf(s, k).delay);
  }

  lemma {:induction false} OpsNow(t: Timing, ops: seq<Op>)
    ensures ApplyAll(t, ops).now == t.now
    decreases |ops|
  {
    if ops != [] {
      OpsNow(Apply(t, ops[0]), ops[1..]);
    }
  }

  lemma KeyNow(s: State, key: Key, cp: u32)
    ensures HandleKey(s, key, cp).tm.now == s.tm.now
  {
    OpsNow(s.tm, KeyOps(s, key, cp));
    KeyIsOps(s, key, cp);
  }

  /** A held key repeats after the delay of its seat, and no other does. */
  lemma KeyRepeats(s: State, k: nat, key: Key, cp: u32)
    requires Normal(s.tm.now)
    ensures var u, seat := Step(s, KeyPress(k, key, cp, true)), SeatOf(s, k);
      if seat.period > 0 then Pending(u.tm, Repeat(k), seat.delay) && k in u.seats
                              && u.seats[k] == Seat(seat.period, seat.delay, key, cp)
      else Repeat(k) !in u.tm.armed && u.seats == s.seats
  {
    KeyIsOps(s, key, cp);
    KeyNow(s, key, cp);
    PressIsOps(s, k, key, cp);
    ScheduledNow(HandleKey(s, key, cp).tm, Repeat(k), SeatOf(s, k).delay);
  }

  /** The Control key as last reported decides between clearing and typing. */
  lemma ControlDecides(s: State, down: bool, k: nat, cp: u32)
    requires cp != 0
    ensures var u := Step(Step(s, SetControl(down)), KeyPress(k, LetterCU, cp, true));
            u.control == down && u.input == (if down then Cleared else Letter) && (down ==> u.typed == [])
  {
    var t := Step(s, SetControl(down));
    if down {
      KeyErases(t, k, LetterCU, cp);
    } else {
      KeyTypes(t, k, LetterCU, cp);
    }
  }

  /** The repetition last set for a seat is that of its keys. */
  lemma SeatDecides(s: State, k: nat, period: int, delay: int, key: Key, cp: u32)
    requires Normal(s.tm.now)
    ensures var u := Step(Step(s, SetSeat(k, period, delay)), KeyPress(k, key, cp, true));
      && (forall j: nat :: j != k ==> SeatOf(u, j) == SeatOf(s, j))
      && if period > 0 then Pending(u.tm, Repeat(k), delay) && SeatOf(u, k) == Seat(period, delay, key, cp)
         else Repeat(k) !in u.tm.armed
  {
    var t := Step(s, SetSeat(k, period, delay));
    KeyRepeats(t, k, key, cp);
    PressIsOps(t, k, key, cp);
  }

  /** A submission reaches the password checker or counts as failed, as writing succeeds. */
  lemma PipeDecides(s: State, ok: bool, k: nat, key: Key, cp: u32)
    requires Submits(key, s.control) && !(s.ignoreEmpty && s.typed == []) && s.talk.auth != Validating
    ensures var u := Step(Step(s, SetPipe(ok)), KeyPress(k, key, cp, true));
            u.typed == [] && u.talk.auth == (if ok then Validating else Invalid)
            && u.talk.sent == if ok then s.talk.sent + [s.typed] else s.talk.sent
  {
    KeySubmits(Step(s, SetPipe(ok)), k, key, cp);
  }

  lemma ClearThen(t: Timing, op: Op)
    requires Ok(t, {}) && Normal(t.now) && op.cb.Repeat?
    ensures var u := Apply(ApplyAll(t, CLEAR_OPS), op); ClearPassword !in u.armed && Pending(u, InputIdle, 1500)
  {
    ClearPending(t);
    ApplyAllKeeps(t, CLEAR_OPS, {});
    OtherPending(ApplyAll(t, CLEAR_OPS), op, InputIdle, 1500, {});
  }

  lemma BusyThen(t: Timing, op: Op)
    requires Ok(t, {}) && Normal(t.now) && op.cb.Repeat?
    ensures var u := Apply(ApplyAll(t, BUSY_OPS), op);
            Pending(u, ClearPassword, 10_000) && Pending(u, InputIdle, 1500)
  {
    BusyPending(t, {});
    ApplyAllKeeps(t, BUSY_OPS, {});
    OtherPending(ApplyAll(t, BUSY_OPS), op, ClearPassword, 10_000, {});
    OtherPending(ApplyAll(t, BUSY_OPS), op, InputIdle, 1500, {});
  }

  lemma SubmitThen(t: Timing, op: Op, pipeOk: bool)
    requires Ok(t, {}) && Normal(t.now) && op.cb.Repeat?
    ensures var u := Apply(ApplyAll(t, if pipeOk then QUIET_OPS else FAILED_OPS), op);
            ClearPassword !in u.armed && InputIdle !in u.armed && (!pipeOk ==> Pending(u, AuthIdle, 3000))
  {
    if pipeOk {
      QuietPending(t);
    } else {
      FailedPending(t);
      ApplyAllKeeps(t, FAILED_OPS, {});
      OtherPending(ApplyAll(t, FAILED_OPS), op, AuthIdle, 3000, {});
    }
  }

  lemma PressTimers(s: State, k: nat, key: Key, cp: u32)
    ensures Step(s, KeyPress(k, key, cp, true)).tm == Apply(ApplyAll(s.tm, KeyOps(s, key, cp)), RepeatOp(s, k))
    ensures RepeatOp(s, k).cb.Repeat?
  {
    PressIsOps(s, k, key, cp);
    KeyIsOps(s, key, cp);
  }

  /** A key that clears leaves the wipe cancelled and the mark 1.5 seconds to go. */
  lemma ClearTimers(s: State, k: nat, key: Key, cp: u32)
    requires Ok(s.tm, {}) && Normal(s.tm.now)
    requires Clears(key, s.control) || (key == Erase && |s.typed| <= 1)
    ensures var u := Step(s, KeyPress(k, key, cp, true)).tm; ClearPassword !in u.armed && Pending(u, InputIdle, 1500)
  {
    PressTimers(s, k, key, cp);
    assert KeyOps(s, key, cp) == CLEAR_OPS;
    ClearThen(s.tm, RepeatOp(s, k));
  }

  /** A key that leaves something typed starts the 10 seconds after which it is wiped again. */
  lemma BusyTimers(s: State, k: nat, key: Key, cp: u32)
    requires Ok(s.tm, {}) && Normal(s.tm.now)
    requires key == Modifier || (Types(key, s.control) && cp != 0) || (key == Erase && !s.control && |s.typed| > 1)
    ensures var u := Step(s, KeyPress(k, key, cp, true)).tm;
            Pending(u, ClearPassword, 10_000) && Pending(u, InputIdle, 1500)
  {
    PressTimers(s, k, key, cp);
    assert KeyOps(s, key, cp) == BUSY_OPS;
    BusyThen(s.tm, RepeatOp(s, k));
  }

  /** A submission cancels both, and shows a failed one for 3 seconds. */
  lemma SubmitTimers(s: State, k: nat, key: Key, cp: u32)
    requires Ok(s.tm, {}) && Normal(s.tm.now)
    requires Submits(key, s.control) && !(s.ignoreEmpty && s.typed == []) && s.talk.auth != Validating
    ensures var u := Step(s, KeyPress(k, key, cp, true)).tm;
            ClearPassword !in u.armed && InputIdle !in u.armed && (!s.pipeOk ==> Pending(u, AuthIdle, 3000))
  {
    PressTimers(s, k, key, cp);
    assert KeyOps(s, key, cp) == if s.pipeOk then QUIET_OPS else FAILED_OPS;
    SubmitThen(s.tm, RepeatOp(s, k), s.pipeOk);
  }

  // ---- callbacks

  lemma KeyTimeless(s: State, t: State, key: Key, cp: u32)
    requires t == s.(tm := t.tm)
    ensures var u, v := HandleKey(s, key, cp), HandleKey(t, key, cp);
            u.typed == v.typed && u.input == v.input && u.talk == v.talk
  {
  }

  lemma KeyAvoids(s: State, key: Key, cp: u32, k: nat)
    ensures forall i :: 0 <= i < |KeyOps(s, key, cp)| ==> !KeyOps(s, key, cp)[i].cb.Repeat?
  {
  }

  lemma PendingStep(t: Timing, op: Op, cb: Callback, ms: int, firing: set<nat>)
    requires Ok(t, firing) && Pending(t, cb, ms) && op.cb != cb
    ensures Ok(Apply(t, op), firing) && Pending(Apply(t, op), cb, ms)
  {
    OtherPending(t, op, cb, ms, firing);
    ApplyKeeps(t, op, firing);
  }

  ghost predicate Safe(t: Timing, cb: Callback, ms: int, firing: set<nat>) { Ok(t, firing) && Pending(t, cb, ms) }

  lemma {:induction false} OthersPending(t: Timing, ops: seq<Op>, k: nat, ms: int, firing: set<nat>)
    requires Safe(t, Repeat(k), ms, firing) && forall op :: op in ops ==> !op.cb.Repeat?
    ensures Pending(ApplyAll(t, ops), Repeat(k), ms)
    decreases |ops|
  {
    if ops != [] {
      PendingStep(t, ops[0], Repeat(k), ms, firing);
      OthersPending(Apply(t, ops[0]), ops[1..], k, ms, firing);
    }
  }

  /** A repetition does what pressing the key again does, and the next one comes a period later. */
  lemma RepeatCall(s: State, k: nat, firing: set<nat>)
    requires Ok(Disarm(s.tm, Repeat(k)), firing) && Normal(s.tm.now)
    ensures var seat := SeatOf(s, k);
      var u, v := Call(s, Repeat(k)), Step(s, KeyPress(k, seat.key, seat.codepoint, true));
      u.typed == v.typed && u.input == v.input && u.talk == v.talk && Pending(u.tm, Repeat(k), seat.period)
  {
    var seat := SeatOf(s, k);
    var t := s.(tm := Arm(s.tm, Repeat(k), seat.period));
    KeyTimeless(s, t, seat.key, seat.codepoint);
    ArmKeeps(s.tm, Repeat(k), seat.period, firing);
    ArmedNow(s.tm, Repeat(k), seat.period);
    KeyIsOps(t, seat.key, seat.codepoint);
    KeyAvoids(t, seat.key, seat.codepoint, k);
    OthersPending(t.tm, KeyOps(t, seat.key, seat.codepoint), k, seat.period, firing);
  }

  /** What the other callbacks do, and when those that arm themselves come back. */
  lemma CallbackEffects(s: State, cb: Callback)
    requires Normal(s.tm.now) && !cb.Repeat?
    ensures var u := Call(s, cb);
      && u.typed == (if cb == ClearPassword then [] else s.typed)
      && u.input == (if cb == ClearPassword then Cleared else if cb == InputIdle then InputNone else s.input)
      && u.talk.auth == (if cb == AuthIdle then AuthNone else s.talk.auth)
      && u.talk.sent == s.talk.sent && u.talk.answered == s.talk.answered && u.talk.run == s.talk.run
      && (u.talk.raced <==> s.talk.raced || (cb == AuthIdle && s.talk.auth == Validating))
      && (cb in {InputIdle, AuthIdle, ClearPassword} ==> cb !in u.tm.armed)
      && (cb == ClearPassword ==> Pending(u.tm, InputIdle, 1500))
      && (cb == Clock ==> Pending(u.tm, Clock, 1000))
      && (cb == Stats ==> Pending(u.tm, Stats, 1500))
      && (cb in {Marquee, Pump} ==> Pending(u.tm, cb, 50))
  {
    if cb == ClearPassword {
      ScheduledNow(Disarm(s.tm, cb), InputIdle, 1500);
    } else if cb in {Clock, Stats, Marquee, Pump} {
      ArmedNow(s.tm, cb, Period(cb));
    }
  }

  /** The timers at the start. */
  lemma StartPending(now: Timespec, showClock: bool, ignoreEmpty: bool, room: nat)
    requires Normal(now)
    ensures var u := Start(now, showClock, ignoreEmpty, room);
      && Pending(u.tm, Pump, 50) && Pending(u.tm, Stats, 1500)
      && (if showClock then Pending(u.tm, Clock, 1000) && Pending(u.tm, Marquee, 50)
          else Clock !in u.tm.armed && Marquee !in u.tm.armed)
      && u.typed == [] && u.input == InputNone && u.room == room && u.ignoreEmpty == ignoreEmpty
      && !u.control && u.seats == map[] && u.pipeOk
      && u.talk.auth == AuthNone && u.talk.run && !u.talk.raced && u.talk.sent == [] && u.talk.replies == []
  {
    ExpiryExact(now, 50);
    ExpiryExact(now, 1000);
    ExpiryExact(now, 1500);
  }
}
