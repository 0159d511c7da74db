/** The lock screen as the object the C code updates. Every method is proved to compute the
    function of LockScreen that stands for it. */
module LockObject {
  import opened TimerLoop
  import opened LockScreen
  import opened Bytes
  import opened Collections
  import PasswordBuffer

  /** A link of the timer list. */
  datatype Link = End | At(id: nat)

  function Head(ids: seq<nat>): Link {
    if ids == [] then End else At(ids[0])
  }

  function LinkAfter(list: seq<nat>, id: nat): Link {
    if list == [] then End
    else if list[0] == id then Head(list[1..])
    else LinkAfter(list[1..], id)
  }

  lemma {:induction false} AfterIsNext(list: seq<nat>, rest: seq<nat>)
    requires Distinct(list) && rest != [] && EndsWith(list, rest)
    ensures LinkAfter(list, rest[0]) == Head(rest[1..])
  {
    if |list| > |rest| {
      assert list[0] != list[|list| - |rest|] == rest[0];
      assert forall i :: 0 <= i < |list[1..]| ==> list[1..][i] == list[i + 1];
      assert list[1..][|list| - 1 - |rest|..] == rest;
      AfterIsNext(list[1..], rest);
    } else {
      assert list == rest;
    }
  }

  lemma FailedOps(t: Timing)
    ensures ApplyAll(t, FAILED_OPS) == Schedule(ApplyAll(t, QUIET_OPS), AuthIdle, AUTH_IDLE_MS)
  {
    var last := [DoSchedule(AuthIdle, AUTH_IDLE_MS)];
    assert FAILED_OPS == QUIET_OPS + last && last[1..] == [];
    ApplyAllSplit(t, QUIET_OPS, last);
    assert ApplyAll(ApplyAll(t, QUIET_OPS), last) == ApplyAll(Apply(ApplyAll(t, QUIET_OPS), last[0]), []);
  }

  /** A pass with `rest` still to visit, standing at `cur`. */
  ghost predicate Walking(s: State, rest: seq<nat>, cur: Link) {
    Ok(s.tm, {}) && EndsWith(s.tm.list, rest) && cur == Head(rest)
  }

  /** The link saved before a visit is still the next one after it. */
  lemma NextVisit(s: State, rest: seq<nat>, cur: Link, time: Timespec)
    requires Walking(s, rest, cur) && cur.At?
    ensures cur.id in s.tm.timers && (forall id :: id in s.tm.list <==> id in s.tm.timers)
    ensures Walking(Visit(s, cur.id, time), rest[1..], LinkAfter(s.tm.list, cur.id))
    ensures Dispatch(s, rest, time) == Dispatch(Visit(s, cur.id, time), rest[1..], time)
  {
    AfterIsNext(s.tm.list, rest);
    assert s.tm.list[|s.tm.list| - |rest|] == rest[0];
    VisitKeeps(s, rest, time);
  }

  class Screen {
    var list: seq<nat>
    var timers: map<nat, Timer>
    var next: nat
    var now: Timespec
    var armed: map<Callback, nat>
    var auth: Auth
    var input: Input
    var control: bool
    var seats: map<nat, Seat>
    var typed: seq<u32>
    var run: bool
    var failed: nat
    const ignoreEmpty: bool
    const room: nat
    // the two pipes, and history
    var pipeOk: bool
    ghost var sent: seq<seq<u32>>
    var replies: seq<bool>
    var answered: nat
    ghost var fired: seq<nat>
    ghost var cancelled: set<nat>
    ghost var raced: bool

    ghost function Tm(): Timing
      reads this
    {
      Timing(list, timers, next, now, armed, fired, cancelled)
    }

    ghost function Whole(): State
      reads this
    {
      State(Tm(), Talk(auth, sent, replies, answered, failed, run, raced), seats, control, ignoreEmpty,
            input, room, typed, pipeOk)
    }

    ghost predicate Linked()
      reads this
    {
      forall id :: id in list <==> id in timers
    }

    /** main, before the event loop. */
    constructor (start: Timespec, showClock: bool, ignore: bool, size: nat)
      ensures Whole() == Start(start, showClock, ignore, size) && Inv(Whole())
    {
      list, timers, next, now, armed := [], map[], 0, start, map[];
      auth, input, control, seats, typed := AuthNone, InputNone, false, map[], [];
      run, failed, ignoreEmpty, room := true, 0, ignore, size;
      pipeOk, sent, replies, answered := true, [], [], 0;
      fired, cancelled, raced := [], {}, false;
      new;
      if showClock {
        AddTimer(1000, Clock);
        AddTimer(50, Marquee);
      }
      AddTimer(50, Pump);
      AddTimer(1500, Stats);
      StartInv(start, showClock, ignore, size);
    }

    /** loop_add_timer, its result stored in the field of `cb`. */
    method AddTimer(ms: int, cb: Callback)
      requires Linked()
      modifies this
      ensures Linked() && Whole() == old(Whole()).(tm := Arm(old(Tm()), cb, ms))
    {
      timers := timers[next := Timer(cb, Expiry(now, ms), false)];
      list := [next] + list;
      armed := armed[cb := next];
      next := next + 1;
    }

    /** loop_remove_timer: search the list, mark the timer. */
    method RemoveTimer(id: nat) returns (found: bool)
      requires Linked()
      modifies this
      ensures Linked() && Whole() == old(Whole()).(tm := Mark(old(Tm()), id))
      ensures found <==> id in old(timers)
    {
      for i := 0 to |list|
        invariant id !in list[..i]
        invariant Whole() == old(Whole())
      {
        if list[i] == id {
          timers := timers[id := timers[id].(removed := true)];
          cancelled := cancelled + {id};
          return true;
        }
        assert list[..i + 1] == list[..i] + [list[i]];
      }
      assert list[..|list|] == list;
      return false;
    }

    /** The cancel functions. */
    method CancelTimer(cb: Callback)
      requires Linked()
      modifies this
      ensures Linked() && Whole() == old(Whole()).(tm := Cancel(old(Tm()), cb))
    {
      if cb in armed {
        var _ := RemoveTimer(armed[cb]);
        armed := armed - {cb};
      }
    }

    /** The schedule functions. */
    method ScheduleTimer(cb: Callback, ms: int)
      requires Linked()
      modifies this
      ensures Linked() && Whole() == old(Whole()).(tm := Schedule(old(Tm()), cb, ms))
    {
      if cb in armed {
        var _ := RemoveTimer(armed[cb]);
      }
      AddTimer(ms, cb);
    }

    method CancelBoth()
      requires Linked()
      modifies this
      ensures Linked() && Whole() == old(Whole()).(tm := ApplyAll(old(Tm()), QUIET_OPS))
    {
      ApplyTwo(Tm(), QUIET_OPS[0], QUIET_OPS[1]);
      CancelTimer(ClearPassword);
      CancelTimer(InputIdle);
    }

    method RestartIdle(keepPassword: bool)
      requires Linked()
      modifies this
      ensures Linked()
      ensures Whole() == old(Whole()).(tm := ApplyAll(old(Tm()), if keepPassword then BUSY_OPS else CLEAR_OPS))
    {
      ApplyTwo(Tm(), BUSY_OPS[0], BUSY_OPS[1]);
      ApplyTwo(Tm(), CLEAR_OPS[0], CLEAR_OPS[1]);
      if keepPassword {
        ScheduleTimer(ClearPassword, CLEAR_MS);
      } else {
        CancelTimer(ClearPassword);
      }
      ScheduleTimer(InputIdle, INPUT_IDLE_MS);
    }

    /** submit_password. */
    method SubmitPassword()
      requires Linked()
      modifies this
      ensures Linked() && Whole() == Submit(old(Whole()))
    {
      if ignoreEmpty && typed == [] {
        return;
      }
      if auth == Validating {
        return;
      }
      input := InputNone;
      auth := Validating;
      CancelBoth();
      SendRequest();
      FailedOps(old(Tm()));
    }

    /** write_comm_request clears the buffer whether or not it succeeds. */
    method SendRequest()
      requires Linked()
      modifies this
      ensures Linked()
      ensures var s := old(Whole());
              Whole() == if s.pipeOk then s.(typed := [], talk := s.talk.(sent := s.talk.sent + [s.typed]))
                         else s.(typed := [], talk := s.talk.(auth := Invalid),
                                 tm := Schedule(s.tm, AuthIdle, AUTH_IDLE_MS))
    {
      if pipeOk {
        sent := sent + [typed];
        typed := [];
      } else {
        typed := [];
        auth := Invalid;
        ScheduleTimer(AuthIdle, AUTH_IDLE_MS);
      }
    }

    /** aetherlock_handle_key. */
    method Handle(key: Key, cp: u32)
      requires Linked()
      modifies this
      ensures Linked() && Whole() == HandleKey(old(Whole()), key, cp)
    {
      match key {
        case Enter =>
          SubmitPassword();
        case Erase =>
          if control {
            typed := [];
            input := Cleared;
            RestartIdle(false);
          } else {
            if typed != [] {
              typed := typed[..|typed| - 1];
            }
            if typed != [] {
              input := Backspaced;
              RestartIdle(true);
            } else {
              input := Cleared;
              RestartIdle(false);
            }
          }
        case Escape =>
          typed := [];
          input := Cleared;
          RestartIdle(false);
        case Modifier =>
          input := Neutral;
          RestartIdle(true);
        case LetterMDJ =>
          if control {
            SubmitPassword();
          } else {
            Insert(cp);
          }
        case LetterCU =>
          if control {
            typed := [];
            input := Cleared;
            RestartIdle(false);
          } else {
            Insert(cp);
          }
        case Other =>
          Insert(cp);
      }
    }

    method Insert(cp: u32)
      requires Linked()
      modifies this
      ensures Linked() && Whole() == TypeChar(old(Whole()), cp)
    {
      if cp != 0 {
        typed := PasswordBuffer.Typed(typed, cp, room);
        input := Letter;
        RestartIdle(true);
      }
    }

    /** keyboard_key. */
    method KeyboardKey(seat: nat, key: Key, cp: u32, pressed: bool)
      requires Linked()
      modifies this
      ensures Linked() && Whole() == KeyEvent(old(Whole()), seat, key, cp, pressed)
    {
      if pressed {
        Handle(key, cp);
      }
      CancelTimer(Repeat(seat));
      var s := if seat in seats then seats[seat] else Seat(0, 0, Other, 0);
      if pressed && s.period > 0 {
        seats := seats[seat := s.(key := key, codepoint := cp)];
        AddTimer(s.delay, Repeat(seat));
      }
    }

    /** keyboard_repeat: the key is handled again with a new timer already armed. */
    method KeyboardRepeat(k: nat)
      requires Linked()
      modifies this
      ensures Linked() && Whole() == Call(old(Whole()), Repeat(k))
    {
      var s := if k in seats then seats[k] else Seat(0, 0, Other, 0);
      AddTimer(s.period, Repeat(k));
      Handle(s.key, s.codepoint);
    }

    /** clear_password. */
    method ClearTyped()
      requires Linked()
      modifies this
      ensures Linked() && Whole() == Call(old(Whole()), ClearPassword)
    {
      armed := armed - {ClearPassword};
      input := Cleared;
      ScheduleTimer(InputIdle, INPUT_IDLE_MS);
      typed := [];
    }

    /** set_input_idle and set_auth_idle. */
    method GoneIdle(cb: Callback)
      requires Linked() && (cb == InputIdle || cb == AuthIdle)
      modifies this
      ensures Linked() && Whole() == Call(old(Whole()), cb)
    {
      armed := armed - {cb};
      if cb == InputIdle {
        input := InputNone;
      } else {
        raced := raced || auth == Validating;
        auth := AuthNone;
      }
    }

    /** The callback of a timer. */
    method RunCallback(cb: Callback)
      requires Linked()
      modifies this
      ensures Linked() && Whole() == Call(old(Whole()), cb)
    {
      if cb == InputIdle || cb == AuthIdle {
        GoneIdle(cb);
      } else if cb == ClearPassword {
        ClearTyped();
      } else if cb.Repeat? {
        KeyboardRepeat(cb.seat);
      } else {
        AddTimer(Period(cb), cb);
      }
    }

    /** One turn of the timer loop. */
    method VisitTimer(id: nat, time: Timespec)
      requires Linked() && id in timers
      modifies this
      ensures Whole() == Visit(old(Whole()), id, time)
    {
      if timers[id].removed {
        Unlink(id);
      } else if Before(timers[id].expiry, time) {
        fired := fired + [id];
        RunCallback(timers[id].callback);
        Unlink(id);
      }
    }

    /** The timer loop of loop_poll. The next link is saved before a timer's callback runs, so
        what the callback puts in front of the list is not visited. */
    method PollTimers()
      requires Ok(Tm(), {})
      modifies this
      ensures Whole() == Step(old(Whole()), Timers)
    {
      var time := now;
      var cur := Head(list);
      ghost var rest, s, all := list, Whole(), Dispatch(Whole(), list, now);
      assert Walking(s, rest, cur);
      while cur.At?
        invariant s == Whole() && Walking(s, rest, cur)
        invariant Dispatch(s, rest, time) == all
        decreases |rest|
      {
        NextVisit(s, rest, cur, time);
        var saved := LinkAfter(list, cur.id);
        VisitTimer(cur.id, time);
        s := Visit(s, cur.id, time);
        rest := rest[1..];
        cur := saved;
      }
    }

    /** wl_list_remove and free. */
    method Unlink(id: nat)
      modifies this
      ensures Whole() == old(Whole()).(tm := Free(old(Tm()), id))
    {
      list := Without(list, id);
      timers := timers - {id};
    }

    /** The part of comm_in for a refusal. */
    method Refused()
      requires Linked()
      modifies this
      ensures Linked()
      ensures var s := old(Whole());
              Whole() == s.(talk := s.talk.(auth := Invalid, failed := s.talk.failed + 1),
                            tm := Schedule(s.tm, AuthIdle, AUTH_IDLE_MS))
    {
      auth := Invalid;
      ScheduleTimer(AuthIdle, AUTH_IDLE_MS);
      failed := failed + 1;
    }

    /** comm_in, with a reply in the pipe. */
    method ReadReply()
      requires Linked()
      modifies this
      ensures Linked() && Whole() == ReplyIn(old(Whole()))
    {
      if answered < |replies| {
        var success := replies[answered];
        answered := answered + 1;
        if success {
          run := false;
        } else {
          Refused();
        }
      }
    }
  }
}
