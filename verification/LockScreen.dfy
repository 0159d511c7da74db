/** The lock screen: keys (aetherlock/src/password.c:49-217, aetherlock/src/seat.c:62-98), timer
    callbacks, timer passes (aetherlock/src/loop.c:105-126) and the replies of the password
    checker (aetherlock/src/main.c:1208-1222), as functions on the whole state. */
module LockScreen {
  import opened TimerLoop
  import opened Bytes
  import opened Collections
  import PasswordBuffer

  datatype Auth = AuthNone | Validating | Invalid
  datatype Input = InputNone | Cleared | Letter | Backspaced | Neutral

  /** Key symbols, grouped as the switch of aetherlock_handle_key groups them. */
  datatype Key = Enter | Erase | Escape | Modifier | LetterMDJ | LetterCU | Other

  datatype Seat = Seat(period: int, delay: int, key: Key, codepoint: u32)

  /** The conversation with the password checker: `sent` and `replies` are the histories of the
      two pipes, `answered` the number of replies read, `run` whether the screen is still
      locked. `raced` records that an idle timer has overwritten VALIDATING. */
  datatype Talk = Talk(auth: Auth, sent: seq<seq<u32>>, replies: seq<bool>, answered: nat, failed: nat,
                       run: bool, raced: bool)

  /** `typed` is the password as characters and `room` the size of its buffer. */
  datatype State = State(
    tm: Timing, talk: Talk, seats: map<nat, Seat>, control: bool, ignoreEmpty: bool,
    input: Input, room: nat, typed: seq<u32>, pipeOk: bool)

  const INPUT_IDLE_MS := 1500
  const AUTH_IDLE_MS := 3000
  const CLEAR_MS := 10000

  // ---- keys

  // The timer calls the handlers make, in order.
  const QUIET_OPS := [DoCancel(ClearPassword), DoCancel(InputIdle)]
  const FAILED_OPS := [DoCancel(ClearPassword), DoCancel(InputIdle), DoSchedule(AuthIdle, AUTH_IDLE_MS)]
  const CLEAR_OPS := [DoCancel(ClearPassword), DoSchedule(InputIdle, INPUT_IDLE_MS)]
  const BUSY_OPS := [DoSchedule(ClearPassword, CLEAR_MS), DoSchedule(InputIdle, INPUT_IDLE_MS)]

  predicate Ignored(s: State) {
    (s.ignoreEmpty && s.typed == []) || s.talk.auth == Validating
  }

  function Submit(s: State): State {
    if Ignored(s) then s
    else if s.pipeOk then
      s.(tm := ApplyAll(s.tm, QUIET_OPS), input := InputNone, typed := [],
         talk := s.talk.(auth := Validating, sent := s.talk.sent + [s.typed]))
    else
      s.(tm := ApplyAll(s.tm, FAILED_OPS), input := InputNone, typed := [],
         talk := s.talk.(auth := Invalid))
  }

  function ClearAll(s: State): State {
    s.(typed := [], input := Cleared, tm := ApplyAll(s.tm, CLEAR_OPS))
  }

  function KeepBusy(s: State, input: Input): State {
    s.(input := input, tm := ApplyAll(s.tm, BUSY_OPS))
  }

  function EraseOne(s: State): State {
    if |s.typed| > 1 then KeepBusy(s.(typed := s.typed[..|s.typed| - 1]), Backspaced) else ClearAll(s)
  }

  function TypeChar(s: State, cp: u32): State {
    if cp == 0 then s
    else KeepBusy(s.(typed := PasswordBuffer.Typed(s.typed, cp, s.room)), Letter)
  }

  /** aetherlock_handle_key. */
  function HandleKey(s: State, key: Key, cp: u32): State {
    match key
    case Enter => Submit(s)
    case Erase => if s.control then ClearAll(s) else EraseOne(s)
    case Escape => ClearAll(s)
    case Modifier => KeepBusy(s, Neutral)
    case LetterMDJ => if s.control then Submit(s) else TypeChar(s, cp)
    case LetterCU => if s.control then ClearAll(s) else TypeChar(s, cp)
    case Other => TypeChar(s, cp)
  }

  /** A seat starts zeroed. */
  function SeatOf(s: State, k: nat): Seat {
    if k in s.seats then s.seats[k] else Seat(0, 0, Other, 0)
  }

  /** keyboard_key. */
  function KeyEvent(s: State, k: nat, key: Key, cp: u32, pressed: bool): State {
    var u := if pressed then HandleKey(s, key, cp) else s;
    var v := u.(tm := Cancel(u.tm, Repeat(k)));
    if pressed && SeatOf(v, k).period > 0 then
      v.(seats := v.seats[k := SeatOf(v, k).(key := key, codepoint := cp)],
         tm := Arm(v.tm, Repeat(k), SeatOf(v, k).delay))
    else v
  }

  // ---- timer callbacks

  function Period(cb: Callback): int {
    match cb
    case Clock => 1000
    case Stats => 1500
    case _ => 50
  }

  function GoIdle(t: Talk): Talk {
    t.(raced := t.raced || t.auth == Validating, auth := AuthNone)
  }

  /** Running the callback of a timer. */
  function Call(s: State, cb: Callback): State {
    match cb
    case InputIdle => s.(tm := Disarm(s.tm, cb), input := InputNone)
    case AuthIdle => s.(tm := Disarm(s.tm, cb), talk := GoIdle(s.talk))
    case ClearPassword =>
      s.(tm := Schedule(Disarm(s.tm, cb), InputIdle, INPUT_IDLE_MS), input := Cleared, typed := [])
    case Repeat(k) =>
      var seat := SeatOf(s, k);
      HandleKey(s.(tm := Arm(s.tm, cb, seat.period)), seat.key, seat.codepoint)
    case _ => s.(tm := Arm(s.tm, cb, Period(cb)))
  }

  /** One turn of the timer loop of loop_poll, for the timer `id`, against the time read at the
      start of the pass. */
  function Visit(s: State, id: nat, now: Timespec): State {
    if id !in s.tm.timers then s
    else if s.tm.timers[id].removed then s.(tm := Free(s.tm, id))
    else if Before(s.tm.timers[id].expiry, now) then
      var u := Call(s.(tm := Fire(s.tm, id)), s.tm.timers[id].callback);
      u.(tm := Free(u.tm, id))
    else s
  }

  function Dispatch(s: State, ids: seq<nat>, now: Timespec): State
    decreases |ids|
  {
    if ids == [] then s else Dispatch(Visit(s, ids[0], now), ids[1..], now)
  }

  // ---- replies

  /** comm_in, with a reply in the pipe. */
  function ReplyIn(s: State): State {
    var t := s.talk;
    if t.answered >= |t.replies| then s
    else if t.replies[t.answered] then s.(talk := t.(answered := t.answered + 1, run := false))
    else s.(talk := t.(answered := t.answered + 1, auth := Invalid, failed := t.failed + 1),
            tm := Schedule(s.tm, AuthIdle, AUTH_IDLE_MS))
  }

  /** The child answers its requests in order and stops after a success. */
  function ChildReply(t: Talk, verdict: bool): Talk {
    if |t.replies| < |t.sent| && true !in t.replies then t.(replies := t.replies + [verdict]) else t
  }

  // ---- runs

  datatype Event =
    | KeyPress(seat: nat, key: Key, cp: u32, pressed: bool)
    | Reply
    | ChildAnswers(verdict: bool)
    | Timers
    | Clocks(now: Timespec)
    | SetControl(down: bool)
    | SetSeat(seat: nat, period: int, delay: int)
    | SetPipe(ok: bool)

  function Step(s: State, e: Event): State {
    match e
    case KeyPress(k, key, cp, pressed) => KeyEvent(s, k, key, cp, pressed)
    case Reply => ReplyIn(s)
    case ChildAnswers(v) => s.(talk := ChildReply(s.talk, v))
    case Timers => Dispatch(s, s.tm.list, s.tm.now)
    case Clocks(now) => s.(tm := s.tm.(now := now))
    case SetControl(down) => s.(control := down)
    case SetSeat(k, period, delay) => s.(seats := s.seats[k := SeatOf(s, k).(period := period, delay := delay)])
    case SetPipe(ok) => s.(pipeOk := ok)
  }

  function Run(s: State, es: seq<Event>): State
    decreases |es|
  {
    if es == [] then s else Run(Step(s, es[0]), es[1..])
  }

  /** main: the clock and the marquee only if shown, the pump and the statistics always. */
  function StartTimers(now: Timespec, showClock: bool): Timing {
    var t0 := Timing([], map[], 0, now, map[], [], {});
    var t1 := if showClock then Arm(Arm(t0, Clock, 1000), Marquee, 50) else t0;
    Arm(Arm(t1, Pump, 50), Stats, 1500)
  }

  function Start(now: Timespec, showClock: bool, ignoreEmpty: bool, room: nat): State {
    State(StartTimers(now, showClock), Talk(AuthNone, [], [], 0, 0, true, false),
          map[], false, ignoreEmpty, InputNone, room, [], true)
  }

  // ---- timers over every run

  function SubmitOps(s: State): seq<Op> {
    if Ignored(s) then [] else if s.pipeOk then QUIET_OPS else FAILED_OPS
  }

  /** What a key does to the timers. */
  function KeyOps(s: State, key: Key, cp: u32): seq<Op> {
    match key
    case Enter => SubmitOps(s)
    case Erase => if s.control || |s.typed| <= 1 then CLEAR_OPS else BUSY_OPS
    case Escape => CLEAR_OPS
    case Modifier => BUSY_OPS
    case LetterMDJ => if s.control then SubmitOps(s) else if cp == 0 then [] else BUSY_OPS
    case LetterCU => if s.control then CLEAR_OPS else if cp == 0 then [] else BUSY_OPS
    case Other => if cp == 0 then [] else BUSY_OPS
  }

  lemma KeyIsOps(s: State, key: Key, cp: u32)
    ensures HandleKey(s, key, cp).tm == ApplyAll(s.tm, KeyOps(s, key, cp))
  {
  }

  lemma KeyKeeps(s: State, key: Key, cp: u32, firing: set<nat>)
    requires Ok(s.tm, firing)
    ensures Ok(HandleKey(s, key, cp).tm, firing) && Grows(s.tm, HandleKey(s, key, cp).tm)
  {
    KeyIsOps(s, key, cp);
    ApplyAllKeeps(s.tm, KeyOps(s, key, cp), firing);
  }

  lemma RepeatKeeps(t: Timing, k: nat, ms: int)
    requires Ok(t, {})
    ensures Ok(Cancel(t, Repeat(k)), {}) && Ok(Arm(Cancel(t, Repeat(k)), Repeat(k), ms), {})
  {
    CancelThenArm(t, Repeat(k), ms);
    CancelKeeps(t, Repeat(k), {});
    ScheduleKeeps(t, Repeat(k), ms, {});
  }

  lemma KeyEventKeeps(s: State, k: nat, key: Key, cp: u32, pressed: bool)
    requires Ok(s.tm, {})
    ensures Ok(KeyEvent(s, k, key, cp, pressed).tm, {})
  {
    if pressed {
      KeyKeeps(s, key, cp, {});
      RepeatKeeps(HandleKey(s, key, cp).tm, k, SeatOf(HandleKey(s, key, cp), k).delay);
    } else {
      CancelKeeps(s.tm, Repeat(k), {});
    }
  }

  lemma DisarmGrows(t: Timing, cb: Callback)
    ensures Grows(t, Disarm(t, cb))
  {
  }

  lemma ClearCallKeeps(t: Timing, id: nat)
    requires Ok(Disarm(t, ClearPassword), {id})
    ensures var u := Schedule(Disarm(t, ClearPassword), InputIdle, INPUT_IDLE_MS); Ok(u, {id}) && Grows(t, u)
  {
    var d := Disarm(t, ClearPassword);
    DisarmGrows(t, ClearPassword);
    ScheduleKeeps(d, InputIdle, INPUT_IDLE_MS, {id});
    GrowsTrans(t, d, Schedule(d, InputIdle, INPUT_IDLE_MS));
  }

  lemma RepeatIsOps(f: State, k: nat) returns (ops: seq<Op>)
    ensures Call(f, Repeat(k)).tm == ApplyAll(Arm(f.tm, Repeat(k), SeatOf(f, k).period), ops)
  {
    var seat := SeatOf(f, k);
    var g := f.(tm := Arm(f.tm, Repeat(k), seat.period));
    KeyIsOps(g, seat.key, seat.codepoint);
    ops := KeyOps(g, seat.key, seat.codepoint);
  }

  lemma ArmOpsKeep(t: Timing, cb: Callback, ms: int, ops: seq<Op>, id: nat)
    requires Ok(Disarm(t, cb), {id})
    ensures var u := ApplyAll(Arm(t, cb, ms), ops); Ok(u, {id}) && Grows(t, u)
  {
    ArmKeeps(t, cb, ms, {id});
    ApplyAllKeeps(Arm(t, cb, ms), ops, {id});
    GrowsTrans(t, Arm(t, cb, ms), ApplyAll(Arm(t, cb, ms), ops));
  }

  lemma RepeatCallKeeps(f: State, k: nat, id: nat)
    requires Ok(Disarm(f.tm, Repeat(k)), {id})
    ensures Ok(Call(f, Repeat(k)).tm, {id}) && Grows(f.tm, Call(f, Repeat(k)).tm)
  {
    var ops := RepeatIsOps(f, k);
    ArmOpsKeep(f.tm, Repeat(k), SeatOf(f, k).period, ops, id);
  }

  lemma CallTimers(f: State, cb: Callback, id: nat)
    requires Ok(Disarm(f.tm, cb), {id})
    ensures Ok(Call(f, cb).tm, {id}) && Grows(f.tm, Call(f, cb).tm)
  {
    if cb == InputIdle || cb == AuthIdle {
      DisarmGrows(f.tm, cb);
    } else if cb == ClearPassword {
      ClearCallKeeps(f.tm, id);
    } else if cb.Repeat? {
      RepeatCallKeeps(f, cb.seat, id);
    } else {
      ArmKeeps(f.tm, cb, Period(cb), {id});
    }
  }

  ghost predicate Started(s: State, id: nat) {
    Ok(s.tm, {}) && id in s.tm.timers && !s.tm.timers[id].removed
  }

  /** A callback that just started leaves the loop in order, with its own timer the only
      exception, and only adds timers in front of those that were there. */
  lemma CallKeeps(s: State, id: nat)
    requires Started(s, id)
    ensures var f := s.(tm := Fire(s.tm, id)); var u := Call(f, s.tm.timers[id].callback);
            Ok(u.tm, {id}) && Grows(f.tm, u.tm)
  {
    FireKeeps(s.tm, id);
    CallTimers(s.(tm := Fire(s.tm, id)), s.tm.timers[id].callback, id);
  }

  // ---- one pass of the timer loop

  ghost predicate EndsWith(list: seq<nat>, ids: seq<nat>) {
    |ids| <= |list| && list[|list| - |ids|..] == ids
  }

  ghost predicate FiredOnly(t: Timing, u: Timing, ids: seq<nat>, now: Timespec) {
    && t.fired <= u.fired && t.cancelled <= u.cancelled
    && forall id :: id in u.fired && id !in t.fired ==>
         id in ids && id in t.timers && !t.timers[id].removed && Before(t.timers[id].expiry, now)
  }

  ghost predicate Survivors(t: Timing, u: Timing, ids: seq<nat>) {
    && t.next <= u.next
    && (forall id :: id in t.timers && id in u.timers ==>
          u.timers[id] == t.timers[id].(removed := u.timers[id].removed)
          && (t.timers[id].removed ==> u.timers[id].removed))
    && (forall id :: id in u.timers && id !in t.timers ==> id >= t.next)
    && (forall id :: id in t.timers && id !in ids ==> id in u.timers)
  }

  ghost predicate Settled(t: Timing, u: Timing, id: nat, now: Timespec)
    requires id in t.timers
  {
    var timer := t.timers[id];
    && (timer.removed || Before(timer.expiry, now) ==> id !in u.timers)
    && (!timer.removed && Before(timer.expiry, now) ==> id in u.fired || id in u.cancelled)
  }

  /** What visiting `ids` in a pass at `now` does to the loop `t`: it runs only callbacks of
      expired, unremoved timers among `ids`, and frees what it runs or finds removed. */
  ghost predicate Passed(t: Timing, u: Timing, ids: seq<nat>, now: Timespec) {
    && (forall id :: id in ids ==> id in t.timers)
    && FiredOnly(t, u, ids, now)
    && Survivors(t, u, ids)
    && (forall id :: id in ids ==> Settled(t, u, id, now))
  }

  lemma {:induction false} WithoutEnd(list: seq<nat>, ids: seq<nat>)
    requires Distinct(list) && ids != [] && EndsWith(list, ids)
    ensures EndsWith(Without(list, ids[0]), ids[1..])
  {
    if |list| > |ids| {
      assert list[0] != list[|list| - |ids|] == ids[0];
      assert forall i :: 0 <= i < |list[1..]| ==> list[1..][i] == list[i + 1];
      assert list[1..][|list| - 1 - |ids|..] == ids;
      WithoutEnd(list[1..], ids);
    } else {
      assert list == ids;
    }
  }

  lemma FreeVisit(t: Timing, ids: seq<nat>, now: Timespec)
    requires Ok(t, {}) && ids != [] && EndsWith(t.list, ids)
    requires ids[0] in t.timers && t.timers[ids[0]].removed
    ensures var u := Free(t, ids[0]); Ok(u, {}) && EndsWith(u.list, ids[1..]) && Passed(t, u, [ids[0]], now)
  {
    FreeKeeps(t, ids[0], {});
    WithoutEnd(t.list, ids);
  }

  lemma FreeAfterList(t: Timing, g: Timing, ids: seq<nat>)
    requires Distinct(g.list) && ids != [] && EndsWith(t.list, ids) && Grows(Fire(t, ids[0]), g)
    ensures EndsWith(Free(g, ids[0]).list, ids[1..])
  {
    assert g.list[|g.list| - |ids|..] == g.list[|g.list| - |t.list|..][|t.list| - |ids|..];
    WithoutEnd(g.list, ids);
  }

  lemma FreeAfterPassed(t: Timing, g: Timing, id: nat, now: Timespec)
    requires id in t.timers && !t.timers[id].removed && Before(t.timers[id].expiry, now)
    requires Grows(Fire(t, id), g)
    ensures Passed(t, Free(g, id), [id], now)
  {
    assert g.fired == t.fired + [id];
  }

  lemma FreeAfter(t: Timing, g: Timing, ids: seq<nat>, now: Timespec)
    requires Ok(t, {}) && ids != [] && EndsWith(t.list, ids)
    requires ids[0] in t.timers && !t.timers[ids[0]].removed && Before(t.timers[ids[0]].expiry, now)
    requires Ok(g, {ids[0]}) && Grows(Fire(t, ids[0]), g)
    ensures var u := Free(g, ids[0]); Ok(u, {}) && EndsWith(u.list, ids[1..]) && Passed(t, u, [ids[0]], now)
  {
    FreeKeeps(g, ids[0], {ids[0]});
    FreeAfterList(t, g, ids);
    FreeAfterPassed(t, g, ids[0], now);
  }

  lemma FireVisit(s: State, ids: seq<nat>, now: Timespec)
    requires ids != [] && EndsWith(s.tm.list, ids) && Started(s, ids[0])
    requires Before(s.tm.timers[ids[0]].expiry, now)
    ensures var u := Free(Call(s.(tm := Fire(s.tm, ids[0])), s.tm.timers[ids[0]].callback).tm, ids[0]);
            Ok(u, {}) && EndsWith(u.list, ids[1..]) && Passed(s.tm, u, [ids[0]], now)
  {
    var id := ids[0];
    var g := Call(s.(tm := Fire(s.tm, id)), s.tm.timers[id].callback).tm;
    CallKeeps(s, id);
    FreeAfter(s.tm, g, ids, now);
  }

  lemma VisitKeeps(s: State, ids: seq<nat>, now: Timespec)
    requires Ok(s.tm, {}) && ids != [] && EndsWith(s.tm.list, ids)
    ensures var u := Visit(s, ids[0], now).tm;
            Ok(u, {}) && EndsWith(u.list, ids[1..]) && Passed(s.tm, u, [ids[0]], now)
  {
    assert s.tm.list[|s.tm.list| - |ids|] == ids[0];
    if s.tm.timers[ids[0]].removed {
      FreeVisit(s.tm, ids, now);
    } else if Before(s.tm.timers[ids[0]].expiry, now) {
      FireVisit(s, ids, now);
    }
  }

  lemma SettledOn(t: Timing, u: Timing, v: Timing, id: nat, now: Timespec)
    requires id in t.timers && id in u.timers && Settled(u, v, id, now)
    requires u.timers[id] == t.timers[id].(removed := u.timers[id].removed)
    requires t.timers[id].removed ==> u.timers[id].removed
    requires u.timers[id].removed ==> id in u.cancelled
    requires u.cancelled <= v.cancelled
    ensures Settled(t, v, id, now)
  {
  }

  lemma PassedSettled(t: Timing, u: Timing, v: Timing, ids: seq<nat>, id: nat, now: Timespec)
    requires ids != [] && id in ids && id in t.timers && id < t.next
    requires Passed(t, u, [ids[0]], now) && Passed(u, v, ids[1..], now)
    requires forall x :: x in u.timers && u.timers[x].removed ==> x in u.cancelled
    ensures Settled(t, v, id, now)
  {
    if id == ids[0] {
      assert Settled(t, u, id, now);
    } else {
      assert ids == [ids[0]] + ids[1..];
      assert id in ids[1..] && Settled(u, v, id, now);
      SettledOn(t, u, v, id, now);
    }
  }

  lemma PassedFired(t: Timing, u: Timing, v: Timing, ids: seq<nat>, now: Timespec)
    requires ids != [] && forall id :: id in ids ==> id in t.timers
    requires forall id :: id in t.timers ==> id < t.next
    requires FiredOnly(t, u, [ids[0]], now) && FiredOnly(u, v, ids[1..], now)
    requires Survivors(t, u, [ids[0]]) && Survivors(u, v, ids[1..])
    ensures FiredOnly(t, v, ids, now) && Survivors(t, v, ids)
  {
    assert ids == [ids[0]] + ids[1..];
  }

  lemma PassedOn(t: Timing, u: Timing, v: Timing, ids: seq<nat>, now: Timespec)
    requires Ok(t, {}) && Ok(u, {}) && EndsWith(t.list, ids) && ids != []
    requires Passed(t, u, [ids[0]], now) && Passed(u, v, ids[1..], now)
    ensures Passed(t, v, ids, now)
  {
    assert ids == [ids[0]] + ids[1..];
    assert forall id :: id in ids ==> id in t.list;
    PassedFired(t, u, v, ids, now);
    forall id | id in ids
      ensures Settled(t, v, id, now)
    {
      PassedSettled(t, u, v, ids, id, now);
    }
  }

  lemma {:induction false} DispatchKeeps(s: State, ids: seq<nat>, now: Timespec)
    requires Ok(s.tm, {}) && EndsWith(s.tm.list, ids)
    ensures Ok(Dispatch(s, ids, now).tm, {}) && Passed(s.tm, Dispatch(s, ids, now).tm, ids, now)
    decreases |ids|
  {
    if ids != [] {
      var u := Visit(s, ids[0], now);
      VisitKeeps(s, ids, now);
      DispatchKeeps(u, ids[1..], now);
      PassedOn(s.tm, u.tm, Dispatch(s, ids, now).tm, ids, now);
    }
  }

  // ---- every run

  /** Requests not answered yet, as the lock screen sees them. */
  function Outstanding(t: Talk): int { |t.sent| - t.answered }

  function CountFalse(rs: seq<bool>): nat {
    if rs == [] then 0 else CountFalse(rs[..|rs| - 1]) + if rs[|rs| - 1] then 0 else 1
  }

  /** The protocol with the child. Unless an idle timer has overwritten VALIDATING, that state
      means exactly that one request is outstanding. */
  ghost predicate Protocol(t: Talk) {
    && t.answered <= |t.replies| <= |t.sent|
    && t.failed == CountFalse(t.replies[..t.answered])
    && (forall i :: 0 <= i < |t.replies| - 1 ==> !t.replies[i])
    && (t.run ==> forall i :: 0 <= i < t.answered ==> !t.replies[i])
    && (t.run && t.auth == Validating ==> Outstanding(t) >= 1)
    && (t.run && !t.raced ==> Outstanding(t) == if t.auth == Validating then 1 else 0)
  }

  ghost predicate Inv(s: State) {
    Ok(s.tm, {}) && Protocol(s.talk)
  }

  lemma SubmitTalk(s: State)
    requires Protocol(s.talk)
    ensures Protocol(Submit(s).talk)
  {
  }

  lemma KeyTalk(s: State, key: Key, cp: u32)
    requires Protocol(s.talk)
    ensures Protocol(HandleKey(s, key, cp).talk)
  {
    SubmitTalk(s);
    assert HandleKey(s, key, cp).talk == s.talk || HandleKey(s, key, cp).talk == Submit(s).talk;
  }

  lemma IdleTalk(t: Talk)
    requires Protocol(t)
    ensures Protocol(GoIdle(t))
  {
  }

  lemma CallTalk(s: State, cb: Callback)
    requires Protocol(s.talk)
    ensures Protocol(Call(s, cb).talk)
  {
    if cb.Repeat? {
      var seat := SeatOf(s, cb.seat);
      KeyTalk(s.(tm := Arm(s.tm, cb, seat.period)), seat.key, seat.codepoint);
    } else if cb == AuthIdle {
      IdleTalk(s.talk);
    }
  }

  lemma VisitTalk(s: State, id: nat, now: Timespec)
    requires Protocol(s.talk)
    ensures Protocol(Visit(s, id, now).talk)
  {
    if id in s.tm.timers {
      CallTalk(s.(tm := Fire(s.tm, id)), s.tm.timers[id].callback);
    }
  }

  lemma {:induction false} DispatchTalk(s: State, ids: seq<nat>, now: Timespec)
    requires Protocol(s.talk)
    ensures Protocol(Dispatch(s, ids, now).talk)
    decreases |ids|
  {
    if ids != [] {
      VisitTalk(s, ids[0], now);
      DispatchTalk(Visit(s, ids[0], now), ids[1..], now);
    }
  }

  lemma CountOne(rs: seq<bool>, k: nat)
    requires k < |rs|
    ensures CountFalse(rs[..k + 1]) == CountFalse(rs[..k]) + if rs[k] then 0 else 1
  {
    assert rs[..k + 1][..k] == rs[..k];
  }

  lemma ReplyTalk(s: State)
    requires Protocol(s.talk)
    ensures Protocol(ReplyIn(s).talk)
  {
    var t := s.talk;
    if t.answered < |t.replies| {
      CountOne(t.replies, t.answered);
    }
  }

  lemma ChildTalk(t: Talk, verdict: bool)
    requires Protocol(t)
    ensures Protocol(ChildReply(t, verdict))
  {
    assert ChildReply(t, verdict).replies[..t.answered] == t.replies[..t.answered];
  }

  lemma StepTalk(s: State, e: Event)
    requires Protocol(s.talk)
    ensures Protocol(Step(s, e).talk)
  {
    match e {
      case KeyPress(k, key, cp, pressed) => KeyTalk(s, key, cp);
      case Reply => ReplyTalk(s);
      case Timers => DispatchTalk(s, s.tm.list, s.tm.now);
      case ChildAnswers(v) => ChildTalk(s.talk, v);
      case _ =>
    }
  }

  lemma ReplyTimers(s: State)
    requires Ok(s.tm, {})
    ensures Ok(ReplyIn(s).tm, {})
  {
    var t := s.talk;
    if t.answered < |t.replies| && !t.replies[t.answered] {
      ScheduleKeeps(s.tm, AuthIdle, AUTH_IDLE_MS, {});
      assert ReplyIn(s).tm == Schedule(s.tm, AuthIdle, AUTH_IDLE_MS);
    } else {
      assert ReplyIn(s).tm == s.tm;
    }
  }

  lemma ClockKeeps(t: Timing, now: Timespec)
    requires Ok(t, {})
    ensures Ok(t.(now := now), {})
  {
  }

  /** A pass of the timer loop ends having run only expired timers that were in the list when
      it began, each once, and no cancelled one; what callbacks armed meanwhile waits. */
  lemma PassKeeps(s: State)
    requires Ok(s.tm, {})
    ensures var u := Step(s, Timers).tm; Ok(u, {}) && Passed(s.tm, u, s.tm.list, s.tm.now)
  {
    DispatchKeeps(s, s.tm.list, s.tm.now);
  }

  lemma StepTimers(s: State, e: Event)
    requires Ok(s.tm, {})
    ensures Ok(Step(s, e).tm, {})
  {
    match e {
      case KeyPress(k, key, cp, pressed) => KeyEventKeeps(s, k, key, cp, pressed);
      case Reply => ReplyTimers(s);
      case Timers => PassKeeps(s);
      case Clocks(now) => ClockKeeps(s.tm, now);
      case ChildAnswers(v) => assert Step(s, e).tm == s.tm;
      case SetControl(down) => assert Step(s, e).tm == s.tm;
      case SetSeat(k, period, delay) => assert Step(s, e).tm == s.tm;
      case SetPipe(ok) => assert Step(s, e).tm == s.tm;
    }
  }

  lemma {:induction false} RunKeeps(s: State, es: seq<Event>)
    requires Inv(s)
    ensures Inv(Run(s, es))
    decreases |es|
  {
    if es != [] {
      StepTimers(s, es[0]);
      StepTalk(s, es[0]);
      RunKeeps(Step(s, es[0]), es[1..]);
    }
  }

  lemma ArmNew(t: Timing, cb: Callback, ms: int)
    requires Ok(t, {}) && cb !in t.armed
    ensures Ok(Arm(t, cb, ms), {}) && Arm(t, cb, ms).armed.Keys == t.armed.Keys + {cb}
  {
    assert Disarm(t, cb) == t;
    ArmKeeps(t, cb, ms, {});
  }

  lemma ArmTwo(t: Timing, a: Callback, m: int, b: Callback, n: int)
    requires Ok(t, {}) && a !in t.armed && b !in t.armed && a != b
    ensures var u := Arm(Arm(t, a, m), b, n); Ok(u, {}) && u.armed.Keys == t.armed.Keys + {a, b}
  {
    ArmNew(t, a, m);
    ArmNew(Arm(t, a, m), b, n);
  }

  lemma StartTimersOk(now: Timespec, showClock: bool)
    ensures Ok(StartTimers(now, showClock), {})
  {
    var t0 := Timing([], map[], 0, now, map[], [], {});
    if showClock {
      ArmTwo(t0, Clock, 1000, Marquee, 50);
      ArmTwo(Arm(Arm(t0, Clock, 1000), Marquee, 50), Pump, 50, Stats, 1500);
    } else {
      ArmTwo(t0, Pump, 50, Stats, 1500);
    }
  }

  lemma StartInv(now: Timespec, showClock: bool, ignoreEmpty: bool, room: nat)
    ensures Inv(Start(now, showClock, ignoreEmpty, room))
  {
    StartTimersOk(now, showClock);
  }

  /** Every run of the lock screen from its start. */
  lemma EveryRun(now: Timespec, showClock: bool, ignoreEmpty: bool, room: nat, es: seq<Event>)
    ensures Inv(Run(Start(now, showClock, ignoreEmpty, room), es))
  {
    StartInv(now, showClock, ignoreEmpty, room);
    RunKeeps(Start(now, showClock, ignoreEmpty, room), es);
  }

  lemma {:induction false} CountAll(rs: seq<bool>)
    ensures CountFalse(rs) <= |rs|
    ensures (forall i :: 0 <= i < |rs| ==> !rs[i]) ==> CountFalse(rs) == |rs|
  {
    if rs != [] {
      CountAll(rs[..|rs| - 1]);
    }
  }

  /** While the screen is locked every reply read so far was a refusal, so the failure counter
      is the number of replies read. */
  lemma FailuresCounted(t: Talk)
    requires Protocol(t)
    ensures t.run ==> t.failed == t.answered
    ensures t.failed <= t.answered
  {
    CountAll(t.replies[..t.answered]);
  }
}
