/** What the lock screen shows or holds goes away by itself: every mark has its timer
    (aetherlock/src/password.c:49-129). */
module LockMarks {
  import opened TimerLoop
  import opened LockScreen
  import opened Bytes

  /** A typed password, an input mark and a failure mark each have the timer that ends them. */
  ghost predicate Watched(s: State) {
    && (s.typed != [] ==> ClearPassword in s.tm.armed)
    && (s.input != InputNone ==> InputIdle in s.tm.armed)
    && (s.talk.auth == Invalid ==> AuthIdle in s.tm.armed)
  }

  function KeyAfter(keys: set<Callback>, op: Op): set<Callback> {
    match op
    case DoCancel(cb) => keys - {cb}
    case DoSchedule(cb, _) => keys + {cb}
  }

  function KeysAfter(keys: set<Callback>, ops: seq<Op>): set<Callback>
    decreases |ops|
  {
    if ops == [] then keys else KeysAfter(KeyAfter(keys, ops[0]), ops[1..])
  }

  lemma {:induction false} ApplyAllKeys(t: Timing, ops: seq<Op>)
    ensures ApplyAll(t, ops).armed.Keys == KeysAfter(t.armed.Keys, ops)
    decreases |ops|
  {
    if ops != [] {
      assert Apply(t, ops[0]).armed.Keys == KeyAfter(t.armed.Keys, ops[0]);
      ApplyAllKeys(Apply(t, ops[0]), ops[1..]);
    }
  }

  lemma ThreeKeys(keys: set<Callback>, a: Op, b: Op, c: Op)
    ensures KeysAfter(keys, [a, b]) == KeyAfter(KeyAfter(keys, a), b)
    ensures KeysAfter(keys, [a, b, c]) == KeyAfter(KeyAfter(KeyAfter(keys, a), b), c)
  {
    assert [a, b, c][1..] == [b, c] && [b, c][1..] == [c] && [a, b][1..] == [b];
    assert [c][1..] == [] && [b][1..] == [];
    assert KeysAfter(KeyAfter(KeyAfter(keys, a), b), [c]) == KeyAfter(KeyAfter(KeyAfter(keys, a), b), c);
    assert KeysAfter(KeyAfter(keys, a), [b]) == KeyAfter(KeyAfter(keys, a), b);
  }

  /** The fields the handlers' timer calls leave set. */
  lemma OpsKeys(t: Timing)
    ensures ApplyAll(t, QUIET_OPS).armed.Keys == t.armed.Keys - {ClearPassword, InputIdle}
    ensures ApplyAll(t, FAILED_OPS).armed.Keys == t.armed.Keys - {ClearPassword, InputIdle} + {AuthIdle}
    ensures ApplyAll(t, CLEAR_OPS).armed.Keys == t.armed.Keys - {ClearPassword} + {InputIdle}
    ensures ApplyAll(t, BUSY_OPS).armed.Keys == t.armed.Keys + {ClearPassword, InputIdle}
  {
    ApplyAllKeys(t, QUIET_OPS);
    ApplyAllKeys(t, FAILED_OPS);
    ApplyAllKeys(t, CLEAR_OPS);
    ApplyAllKeys(t, BUSY_OPS);
    ThreeKeys(t.armed.Keys, DoCancel(ClearPassword), DoCancel(InputIdle), DoSchedule(AuthIdle, AUTH_IDLE_MS));
    ThreeKeys(t.armed.Keys, DoCancel(ClearPassword), DoSchedule(InputIdle, INPUT_IDLE_MS), DoCancel(Clock));
    ThreeKeys(t.armed.Keys, DoSchedule(ClearPassword, CLEAR_MS), DoSchedule(InputIdle, INPUT_IDLE_MS), DoCancel(Clock));
  }

  lemma KeyWatched(s: State, key: Key, cp: u32)
    requires Watched(s)
    ensures Watched(HandleKey(s, key, cp))
  {
    OpsKeys(s.tm);
  }

  lemma CallWatched(s: State, cb: Callback)
    requires Watched(s)
    ensures Watched(Call(s, cb))
  {
    match cb {
      case Repeat(k) =>
        var seat := SeatOf(s, k);
        KeyWatched(s.(tm := Arm(s.tm, cb, seat.period)), seat.key, seat.codepoint);
      case _ =>
    }
  }

  lemma VisitWatched(s: State, id: nat, now: Timespec)
    requires Watched(s)
    ensures Watched(Visit(s, id, now))
  {
    if id in s.tm.timers {
      CallWatched(s.(tm := Fire(s.tm, id)), s.tm.timers[id].callback);
    }
  }

  lemma {:induction false} DispatchWatched(s: State, ids: seq<nat>, now: Timespec)
    requires Watched(s)
    ensures Watched(Dispatch(s, ids, now))
    decreases |ids|
  {
    if ids != [] {
      VisitWatched(s, ids[0], now);
      DispatchWatched(Visit(s, ids[0], now), ids[1..], now);
    }
  }

  lemma RepeatWatched(u: State, s: State, k: nat, key: Key, cp: u32, pressed: bool)
    requires Watched(u) && u == if pressed then HandleKey(s, key, cp) else s
    ensures Watched(KeyEvent(s, k, key, cp, pressed))
  {
    var v := u.(tm := Cancel(u.tm, Repeat(k)));
    assert v.tm.armed.Keys == u.tm.armed.Keys - {Repeat(k)};
  }

  lemma StepWatched(s: State, e: Event)
    requires Watched(s)
    ensures Watched(Step(s, e))
  {
    match e {
      case KeyPress(k, key, cp, pressed) =>
        KeyWatched(s, key, cp);
        RepeatWatched(if pressed then HandleKey(s, key, cp) else s, s, k, key, cp, pressed);
      case Timers => DispatchWatched(s, s.tm.list, s.tm.now);
      case _ =>
    }
  }

  lemma {:induction false} RunWatched(s: State, es: seq<Event>)
    requires Watched(s)
    ensures Watched(Run(s, es))
    decreases |es|
  {
    if es != [] {
      StepWatched(s, es[0]);
      RunWatched(Step(s, es[0]), es[1..]);
    }
  }

  /** One timer with this callback is in the list and has not been removed. */
  ghost predicate Scheduled(t: Timing, cb: Callback) {
    exists id :: id in t.list && id in t.timers && t.timers[id].callback == cb && !t.timers[id].removed
  }

  /** In every run a typed password, an input mark and a failure mark each have a pending timer
      that will end them: the handle is set, and by the timer invariant it is a live timer with
      the right callback. */
  lemma AlwaysWatched(now: Timespec, showClock: bool, ignoreEmpty: bool, room: nat, es: seq<Event>)
    ensures var s := Run(Start(now, showClock, ignoreEmpty, room), es);
      && (s.typed != [] ==> Scheduled(s.tm, ClearPassword))
      && (s.input != InputNone ==> Scheduled(s.tm, InputIdle))
      && (s.talk.auth == Invalid ==> Scheduled(s.tm, AuthIdle))
  {
    RunWatched(Start(now, showClock, ignoreEmpty, room), es);
    EveryRun(now, showClock, ignoreEmpty, room, es);
  }

  // ---- a pass that comes late enough

  /** The timer with this callback is among those still to be visited, and its time has come. */
  ghost predicate MarkDue(t: Timing, cb: Callback, ids: seq<nat>, now: Timespec) {
    && cb in t.armed && t.armed[cb] in ids && t.armed[cb] in t.timers && Before(t.timers[t.armed[cb]].expiry, now)
  }

  /** No key repeats. */
  ghost predicate Keyless(t: Timing) {
    forall k :: Repeat(k) !in t.armed
  }

  /** What the timer with this callback is there to end has ended. */
  ghost predicate Ended(s: State, cb: Callback) {
    match cb
    case ClearPassword => s.typed == []
    case InputIdle => s.input == InputNone
    case AuthIdle => s.talk.auth != Invalid
    case _ => false
  }

  /** The input mark comes back when the password is cleared, so it takes a pass after that. */
  ghost predicate Lasting(s: State, cb: Callback) {
    cb in {ClearPassword, InputIdle, AuthIdle} && (cb == InputIdle ==> ClearPassword !in s.tm.armed)
  }

  lemma CallEnds(s: State, cb: Callback, other: Callback)
    requires Lasting(s, cb) && Keyless(s.tm) && !other.Repeat? && (cb == InputIdle ==> other != ClearPassword)
    ensures var u := Call(s, other);
            && Lasting(u, cb) && Keyless(u.tm) && (Ended(s, cb) || other == cb ==> Ended(u, cb))
            && (other != cb && cb in s.tm.armed ==> cb in u.tm.armed && u.tm.armed[cb] == s.tm.armed[cb])
  {
  }

  /** A visit to another timer leaves this one due. */
  lemma StillDue(t: Timing, u: Timing, cb: Callback, ids: seq<nat>, now: Timespec)
    requires ids != [] && MarkDue(t, cb, ids, now) && Passed(t, u, [ids[0]], now) && Ok(u, {})
    requires t.armed[cb] != ids[0] && cb in u.armed && u.armed[cb] == t.armed[cb]
    ensures MarkDue(u, cb, ids[1..], now)
  {
    assert t.armed[cb] in u.timers;
    assert u.timers[t.armed[cb]].expiry == t.timers[t.armed[cb]].expiry;
  }

  /** An unremoved timer has the field of its callback. */
  lemma NoKeyFires(s: State, cb: Callback, id: nat)
    requires Lasting(s, cb) && Keyless(s.tm) && Ok(s.tm, {}) && id in s.tm.timers && !s.tm.timers[id].removed
    ensures var other := s.tm.timers[id].callback;
            && !other.Repeat? && (cb == InputIdle ==> other != ClearPassword)
            && other in s.tm.armed && s.tm.armed[other] == id
  {
  }

  /** One turn, as far as the mark is concerned. */
  lemma TurnEnds(s: State, cb: Callback, id: nat, now: Timespec)
    requires Lasting(s, cb) && Keyless(s.tm) && id in s.tm.timers
    requires var other := s.tm.timers[id].callback;
      !s.tm.timers[id].removed ==> !other.Repeat? && (cb == InputIdle ==> other != ClearPassword)
    requires !s.tm.timers[id].removed && s.tm.timers[id].callback == cb ==> cb in s.tm.armed && s.tm.armed[cb] == id
    requires cb in s.tm.armed && s.tm.armed[cb] == id ==> !s.tm.timers[id].removed && s.tm.timers[id].callback == cb
    ensures var u := Visit(s, id, now);
            && Lasting(u, cb) && Keyless(u.tm) && (Ended(s, cb) ==> Ended(u, cb))
            && (cb in s.tm.armed && s.tm.armed[cb] == id && Before(s.tm.timers[id].expiry, now) ==> Ended(u, cb))
            && (cb in s.tm.armed && s.tm.armed[cb] != id ==> cb in u.tm.armed && u.tm.armed[cb] == s.tm.armed[cb])
  {
    if !s.tm.timers[id].removed && Before(s.tm.timers[id].expiry, now) {
      CallEnds(s.(tm := Fire(s.tm, id)), cb, s.tm.timers[id].callback);
    }
  }

  lemma VisitEnds(s: State, cb: Callback, ids: seq<nat>, now: Timespec)
    requires Lasting(s, cb) && Keyless(s.tm) && Ok(s.tm, {}) && ids != [] && EndsWith(s.tm.list, ids)
    requires Ended(s, cb) || MarkDue(s.tm, cb, ids, now)
    ensures var u := Visit(s, ids[0], now);
            && Lasting(u, cb) && Keyless(u.tm) && Ok(u.tm, {}) && EndsWith(u.tm.list, ids[1..])
            && (Ended(u, cb) || MarkDue(u.tm, cb, ids[1..], now))
  {
    VisitKeeps(s, ids, now);
    var id := ids[0];
    if !s.tm.timers[id].removed {
      NoKeyFires(s, cb, id);
    }
    TurnEnds(s, cb, id, now);
    if !Ended(s, cb) && s.tm.armed[cb] != id {
      StillDue(s.tm, Visit(s, id, now).tm, cb, ids, now);
    }
  }

  lemma {:induction false} DispatchEnds(s: State, cb: Callback, ids: seq<nat>, now: Timespec)
    requires Lasting(s, cb) && Keyless(s.tm) && Ok(s.tm, {}) && EndsWith(s.tm.list, ids)
    requires Ended(s, cb) || MarkDue(s.tm, cb, ids, now)
    ensures Ended(Dispatch(s, ids, now), cb)
    decreases |ids|
  {
    if ids != [] {
      VisitEnds(s, cb, ids, now);
      DispatchEnds(Visit(s, ids[0], now), cb, ids[1..], now);
    }
  }

  /** Once no key is held, a pass later than its timer ends each mark: the password is wiped, the
      failure mark taken back, and the input mark cleared unless a wipe is still to come. */
  lemma LatePassEnds(s: State, cb: Callback)
    requires Ok(s.tm, {}) && Watched(s) && Lasting(s, cb) && Keyless(s.tm)
    requires cb in s.tm.armed && s.tm.armed[cb] in s.tm.timers ==> Before(s.tm.timers[s.tm.armed[cb]].expiry, s.tm.now)
    ensures Ended(Step(s, Timers), cb)
  {
    DispatchEnds(s, cb, s.tm.list, s.tm.now);
  }
}
