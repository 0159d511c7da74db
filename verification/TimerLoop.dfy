/** Timers of the lock screen's event loop (aetherlock/src/loop.c:105-126 and 151-203) and the
    fields that point to them. `Timing` is everything they touch. A timer's address is a number
    that is never reused; `list` is the linked list and `timers` the objects it links. */
module TimerLoop {
  import opened Collections

  // ---- time

  const NANO := 1_000_000_000

  datatype Timespec = Timespec(sec: int, nsec: int)

  function Nanos(t: Timespec): int { t.sec * NANO + t.nsec }
  predicate Normal(t: Timespec) { 0 <= t.nsec < NANO }

  function TruncDiv(a: int, b: int): int
    requires b > 0
  {
    if a >= 0 then a / b else -((-a) / b)
  }

  /** The expiry loop_add_timer computes. C division truncates toward zero. */
  function Expiry(now: Timespec, ms: int): Timespec {
    var rest := (ms - TruncDiv(ms, 1000) * 1000) * 1_000_000;
    var sec := now.sec + TruncDiv(ms, 1000);
    if now.nsec + rest >= NANO then Timespec(sec + 1, now.nsec + rest - NANO)
    else Timespec(sec, now.nsec + rest)
  }

  /** The expiry is always exactly `ms` away; it is a normal timespec unless a negative delay
      borrows from the seconds, which the code does not handle. */
  lemma ExpiryExact(now: Timespec, ms: int)
    requires Normal(now)
    ensures Nanos(Expiry(now, ms)) == Nanos(now) + ms * 1_000_000
    ensures Normal(Expiry(now, ms)) <==> now.nsec + (ms - TruncDiv(ms, 1000) * 1000) * 1_000_000 >= 0
    ensures ms >= 0 ==> Normal(Expiry(now, ms))
  {
  }

  /** The test in loop_poll. */
  predicate Before(a: Timespec, b: Timespec) {
    a.sec < b.sec || (a.sec == b.sec && a.nsec < b.nsec)
  }

  lemma BeforeIsOrder(a: Timespec, b: Timespec)
    requires Normal(a) && Normal(b)
    ensures Before(a, b) <==> Nanos(a) < Nanos(b)
  {
  }

  // ---- timers

  /** A timer's callback with its data. The last three re-arm themselves and store no handle. */
  datatype Callback = InputIdle | AuthIdle | ClearPassword | Repeat(seat: nat) | Clock | Marquee | Pump | Stats

  datatype Timer = Timer(callback: Callback, expiry: Timespec, removed: bool)

  /** `armed` holds the timer fields of the C structs: no entry is a null pointer. For the
      callbacks without a field it holds the timer of their last run. `fired` and `cancelled`
      record timers whose callback was started and timers given to loop_remove_timer. */
  datatype Timing = Timing(
    list: seq<nat>, timers: map<nat, Timer>, next: nat, now: Timespec,
    armed: map<Callback, nat>, fired: seq<nat>, cancelled: set<nat>)

  /** loop_add_timer, with its result stored: the new timer becomes the head of the list. */
  function Arm(t: Timing, cb: Callback, ms: int): Timing {
    t.(list := [t.next] + t.list,
       timers := t.timers[t.next := Timer(cb, Expiry(t.now, ms), false)],
       next := t.next + 1,
       armed := t.armed[cb := t.next])
  }

  /** loop_remove_timer: only marks. */
  function Mark(t: Timing, id: nat): Timing {
    if id in t.timers then
      t.(timers := t.timers[id := t.timers[id].(removed := true)], cancelled := t.cancelled + {id})
    else t
  }

  function Without(list: seq<nat>, id: nat): seq<nat> {
    if list == [] then [] else if list[0] == id then list[1..] else [list[0]] + Without(list[1..], id)
  }

  /** wl_list_remove and free. */
  function Free(t: Timing, id: nat): Timing {
    t.(list := Without(t.list, id), timers := t.timers - {id})
  }

  /** The cancel functions of password.c, and of the repeat timer in seat.c. */
  function Cancel(t: Timing, cb: Callback): Timing {
    if cb in t.armed then Mark(t, t.armed[cb]).(armed := t.armed - {cb}) else t
  }

  /** The schedule functions of password.c. */
  function Schedule(t: Timing, cb: Callback, ms: int): Timing {
    Arm(if cb in t.armed then Mark(t, t.armed[cb]) else t, cb, ms)
  }

  /** The field of a one-shot callback is cleared first thing. */
  function Disarm(t: Timing, cb: Callback): Timing {
    t.(armed := t.armed - {cb})
  }

  function Fire(t: Timing, id: nat): Timing {
    t.(fired := t.fired + [id])
  }

  // ---- invariant

  /** `firing` holds the timer whose callback is running, if any. Every unremoved timer other
      than that one is the timer its field points to, and every field points to an unremoved
      timer with its own callback. */
  ghost predicate Handles(t: Timing, firing: set<nat>) {
    && (forall id :: id in t.timers && !t.timers[id].removed && id !in firing ==>
          t.timers[id].callback in t.armed && t.armed[t.timers[id].callback] == id)
    && (forall cb :: cb in t.armed ==>
          && t.armed[cb] in t.timers && t.armed[cb] !in firing
          && t.timers[t.armed[cb]].callback == cb && !t.timers[t.armed[cb]].removed)
  }

  /** The list links each live object once; a timer that was cancelled did not and will not
      fire, and a timer that fired is gone. */
  ghost predicate Memory(t: Timing, firing: set<nat>) {
    && Distinct(t.list)
    && (forall id :: id in t.list <==> id in t.timers)
    && (forall id :: id in t.timers ==> id < t.next && (t.timers[id].removed <==> id in t.cancelled))
    && (forall id :: id in t.cancelled ==> id < t.next && id !in t.fired)
    && Distinct(t.fired)
    && (forall id :: id in t.fired ==> id < t.next && (id in t.timers ==> id in firing))
    && (forall id :: id in firing ==> id in t.timers && id in t.fired)
  }

  ghost predicate Ok(t: Timing, firing: set<nat>) {
    Handles(t, firing) && Memory(t, firing)
  }

  /** What a callback may do to the loop: prepend new timers and mark old ones. */
  ghost predicate Grows(t: Timing, u: Timing) {
    && |t.list| <= |u.list| && u.list[|u.list| - |t.list|..] == t.list
    && t.next <= u.next && u.now == t.now && u.fired == t.fired && t.cancelled <= u.cancelled
    && (forall id :: id in t.timers ==>
          id in u.timers && u.timers[id] == t.timers[id].(removed := u.timers[id].removed)
          && (t.timers[id].removed ==> u.timers[id].removed))
    && (forall id :: id in u.timers && id !in t.timers ==> id >= t.next)
    && (forall id :: id in u.cancelled ==> id in t.cancelled || id in t.timers || id >= t.next)
  }

  lemma GrowsTrans(t: Timing, u: Timing, v: Timing)
    requires Grows(t, u) && Grows(u, v)
    ensures Grows(t, v)
  {
    assert v.list[|v.list| - |t.list|..] == v.list[|v.list| - |u.list|..][|u.list| - |t.list|..];
  }

  lemma ArmMemory(t: Timing, cb: Callback, ms: int, firing: set<nat>)
    requires Memory(t, firing)
    ensures Memory(Arm(t, cb, ms), firing)
  {
    assert t.next !in t.list;
  }

  lemma ArmHandles(t: Timing, cb: Callback, ms: int, firing: set<nat>)
    requires Memory(t, firing) && Handles(Disarm(t, cb), firing)
    ensures Handles(Arm(t, cb, ms), firing)
  {
    var d, u := Disarm(t, cb), Arm(t, cb, ms);
    assert t.next !in t.timers && t.next !in firing;
    forall c | c in u.armed
      ensures u.armed[c] in u.timers && u.armed[c] !in firing
      ensures u.timers[u.armed[c]].callback == c && !u.timers[u.armed[c]].removed
    {
      if c != cb {
        assert c in d.armed && d.armed[c] == u.armed[c];
      }
    }
  }

  lemma ArmKeeps(t: Timing, cb: Callback, ms: int, firing: set<nat>)
    requires Ok(Disarm(t, cb), firing)
    ensures Ok(Arm(t, cb, ms), firing) && Grows(t, Arm(t, cb, ms))
  {
    ArmMemory(t, cb, ms, firing);
    ArmHandles(t, cb, ms, firing);
    assert Arm(t, cb, ms).list[1..] == t.list;
  }

  lemma CancelMemory(t: Timing, cb: Callback, firing: set<nat>)
    requires Ok(t, firing) && cb in t.armed
    ensures Memory(Cancel(t, cb), firing)
  {
    assert t.armed[cb] !in t.fired;
  }

  lemma CancelHandles(t: Timing, cb: Callback, firing: set<nat>)
    requires Ok(t, firing) && cb in t.armed
    ensures Handles(Cancel(t, cb), firing)
  {
    var u := Cancel(t, cb);
    forall c | c in u.armed
      ensures u.armed[c] in u.timers && u.armed[c] !in firing
      ensures u.timers[u.armed[c]].callback == c && !u.timers[u.armed[c]].removed
    {
      assert u.armed[c] == t.armed[c] && c != cb;
    }
  }

  lemma CancelKeeps(t: Timing, cb: Callback, firing: set<nat>)
    requires Ok(t, firing)
    ensures Ok(Cancel(t, cb), firing) && Grows(t, Cancel(t, cb)) && cb !in Cancel(t, cb).armed
  {
    if cb in t.armed {
      CancelMemory(t, cb, firing);
      CancelHandles(t, cb, firing);
    }
  }

  lemma CancelThenArm(t: Timing, cb: Callback, ms: int)
    ensures Schedule(t, cb, ms) == Arm(Cancel(t, cb), cb, ms)
    ensures Disarm(Cancel(t, cb), cb) == Cancel(t, cb)
  {
    assert (t.armed - {cb})[cb := t.next] == t.armed[cb := t.next];
    if cb in t.armed {
      assert (t.armed - {cb}) - {cb} == t.armed - {cb};
    } else {
      assert t.armed - {cb} == t.armed;
    }
  }

  lemma ScheduleKeeps(t: Timing, cb: Callback, ms: int, firing: set<nat>)
    requires Ok(t, firing)
    ensures Ok(Schedule(t, cb, ms), firing) && Grows(t, Schedule(t, cb, ms))
  {
    var c := Cancel(t, cb);
    CancelKeeps(t, cb, firing);
    CancelThenArm(t, cb, ms);
    ArmKeeps(c, cb, ms, firing);
    GrowsTrans(t, c, Arm(c, cb, ms));
  }

  lemma {:induction false} WithoutRemoves(list: seq<nat>, id: nat)
    requires Distinct(list)
    ensures forall x :: x in Without(list, id) <==> x in list && x != id
    ensures Distinct(Without(list, id))
  {
    if list != [] {
      assert list == [list[0]] + list[1..];
      assert forall x :: x in list <==> x == list[0] || x in list[1..];
      if list[0] == id {
        assert forall i :: 0 <= i < |list[1..]| ==> list[1..][i] == list[i + 1];
      } else {
        WithoutRemoves(list[1..], id);
        assert list[0] !in list[1..];
      }
    }
  }

  lemma FreeKeeps(t: Timing, id: nat, firing: set<nat>)
    requires Ok(t, firing) && id in t.timers && firing <= {id} && (t.timers[id].removed || id in firing)
    ensures Ok(Free(t, id), {})
  {
    WithoutRemoves(t.list, id);
  }

  /** Starting a live timer's callback: once its field is cleared, only that timer is not
      pointed to. */
  lemma FireKeeps(t: Timing, id: nat)
    requires Ok(t, {}) && id in t.timers && !t.timers[id].removed
    ensures t.timers[id].callback in t.armed && t.armed[t.timers[id].callback] == id
    ensures Ok(Disarm(Fire(t, id), t.timers[id].callback), {id})
  {
  }

  // ---- sequences of operations

  datatype Op = DoCancel(cb: Callback) | DoSchedule(cb: Callback, ms: int)

  function Apply(t: Timing, op: Op): Timing {
    match op
    case DoCancel(cb) => Cancel(t, cb)
    case DoSchedule(cb, ms) => Schedule(t, cb, ms)
  }

  function ApplyAll(t: Timing, ops: seq<Op>): Timing
    decreases |ops|
  {
    if ops == [] then t else ApplyAll(Apply(t, ops[0]), ops[1..])
  }

  lemma ApplyTwo(t: Timing, a: Op, b: Op)
    ensures ApplyAll(t, [a, b]) == Apply(Apply(t, a), b)
  {
    assert [a, b][1..] == [b];
    assert [b][1..] == [];
    assert ApplyAll(Apply(t, a), [b]) == ApplyAll(Apply(Apply(t, a), b), []);
  }

  lemma ApplyKeeps(t: Timing, op: Op, firing: set<nat>)
    requires Ok(t, firing)
    ensures Ok(Apply(t, op), firing) && Grows(t, Apply(t, op))
  {
    match op {
      case DoCancel(cb) => CancelKeeps(t, cb, firing);
      case DoSchedule(cb, ms) => ScheduleKeeps(t, cb, ms, firing);
    }
  }

  lemma {:induction false} ApplyAllKeeps(t: Timing, ops: seq<Op>, firing: set<nat>)
    requires Ok(t, firing)
    ensures Ok(ApplyAll(t, ops), firing) && Grows(t, ApplyAll(t, ops))
    decreases |ops|
  {
    if ops != [] {
      var u := Apply(t, ops[0]);
      ApplyKeeps(t, ops[0], firing);
      ApplyAllKeeps(u, ops[1..], firing);
      GrowsTrans(t, u, ApplyAll(u, ops[1..]));
    }
  }

  lemma {:induction false} ApplyAllSplit(t: Timing, a: seq<Op>, b: seq<Op>)
    ensures ApplyAll(t, a + b) == ApplyAll(ApplyAll(t, a), b)
    decreases |a|
  {
    if a == [] {
      assert a + b == b;
    } else {
      assert (a + b)[1..] == a[1..] + b;
      ApplyAllSplit(Apply(t, a[0]), a[1..], b);
    }
  }
}
