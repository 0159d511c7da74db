/** The idle daemon's timeout lifecycle (aetheridle/main.c:617-712, 941-962): commands, the
    notification objects they hold at the compositor, and the commands run for them. */
module IdleDaemon {
  import Collections
  import IdleArgs

  datatype Handle = NoObject | Object(id: nat)

  type Hook = Collections.Maybe<string>

  /** One timeout or idlehint clause. */
  datatype Cmd = Cmd(timeout: int, registered: int, handle: Handle, idleCmd: Hook, resumeCmd: Hook,
                     idlehint: bool, pending: bool)

  /** A live notification object: whose it is, its timeout, whether it ignores inhibitors, and
      whether the compositor has sent idled without resumed since. */
  datatype Notification = Notification(owner: nat, timeout: int, inputOnly: bool, idled: bool)

  datatype Effect = Nothing | SetHint(on: bool) | Exec(command: string)

  /** A handler call. */
  datatype Call = Idled(c: nat, effect: Effect) | Resumed(c: nat, effect: Effect)

  /** `hint` is the last idle hint sent to logind. */
  datatype State = State(cmds: seq<Cmd>, live: map<nat, Notification>, created: nat, enabled: bool, running: bool,
                         hint: bool, calls: seq<Call>)

  /** What the environment fixes: whether the notifier offers input-only notifications, and
      whether an idlehint clause was given. */
  datatype Setup = Setup(inputIdle: bool, hint: bool)

  function Destroy(s: State, c: nat): (t: State)
    requires c < |s.cmds|
    ensures |t.cmds| == |s.cmds|
  {
    match s.cmds[c].handle
    case NoObject => s
    case Object(n) => s.(live := s.live - {n}, cmds := s.cmds[c := s.cmds[c].(handle := NoObject)])
  }

  function Register(s: State, c: nat, timeout: int, obeyInhibitors: bool, setup: Setup): (t: State)
    requires c < |s.cmds|
    ensures |t.cmds| == |s.cmds|
  {
    var d := Destroy(s, c);
    if timeout < 0 then d
    else
      d.(live := d.live[d.created := Notification(c, timeout, !obeyInhibitors && setup.inputIdle, false)],
         cmds := d.cmds[c := d.cmds[c].(handle := Object(d.created), registered := timeout)],
         created := d.created + 1)
  }

  function IdleEffect(m: Cmd): Effect {
    if m.idlehint then SetHint(true) else if m.idleCmd.Some? then Exec(m.idleCmd.value) else Nothing
  }

  function ResumeEffect(m: Cmd): Effect {
    if m.idlehint then SetHint(false) else if m.resumeCmd.Some? then Exec(m.resumeCmd.value) else Nothing
  }

  function HandleIdled(s: State, c: nat): (t: State)
    requires c < |s.cmds|
    ensures |t.cmds| == |s.cmds|
  {
    s.(cmds := s.cmds[c := s.cmds[c].(pending := true)], hint := s.cmds[c].idlehint || s.hint,
       calls := s.calls + [Idled(c, IdleEffect(s.cmds[c]))])
  }

  function Forget(s: State, c: nat): (t: State)
    requires c < |s.cmds|
    ensures |t.cmds| == |s.cmds|
  {
    s.(cmds := s.cmds[c := s.cmds[c].(pending := false)])
  }

  /** The command run on resume. */
  function Report(s: State, c: nat): (t: State)
    requires c < |s.cmds|
    ensures |t.cmds| == |s.cmds|
  {
    s.(hint := !s.cmds[c].idlehint && s.hint, calls := s.calls + [Resumed(c, ResumeEffect(s.cmds[c]))])
  }

  function Settle(s: State, c: nat): (t: State)
    requires c < |s.cmds|
    ensures |t.cmds| == |s.cmds|
  {
    Report(Forget(s, c), c)
  }

  /** A command registered at another timeout goes back to its own. */
  function Restore(s: State, c: nat, setup: Setup): (t: State)
    requires c < |s.cmds|
    ensures |t.cmds| == |s.cmds|
  {
    if s.cmds[c].registered != s.cmds[c].timeout then Register(s, c, s.cmds[c].timeout, true, setup) else s
  }

  function HandleResumed(s: State, c: nat, setup: Setup): (t: State)
    requires c < |s.cmds|
    ensures |t.cmds| == |s.cmds|
  {
    Restore(Settle(s, c), c, setup)
  }

  // ---- loops over the command list

  function EnableFrom(s: State, c: nat, setup: Setup): (t: State)
    requires c <= |s.cmds|
    ensures |t.cmds| == |s.cmds|
    decreases |s.cmds| - c
  {
    if c == |s.cmds| then s else EnableFrom(Register(s, c, s.cmds[c].timeout, true, setup), c + 1, setup)
  }

  function DisableFrom(s: State, c: nat): (t: State)
    requires c <= |s.cmds|
    ensures |t.cmds| == |s.cmds|
    decreases |s.cmds| - c
  {
    if c == |s.cmds| then s else DisableFrom(Destroy(s, c), c + 1)
  }

  function ForceFrom(s: State, c: nat, setup: Setup): (t: State)
    requires c <= |s.cmds|
    ensures |t.cmds| == |s.cmds|
    decreases |s.cmds| - c
  {
    if c == |s.cmds| then s else ForceFrom(Register(s, c, 0, false, setup), c + 1, setup)
  }

  function FlushFrom(s: State, c: nat, setup: Setup): (t: State)
    requires c <= |s.cmds|
    ensures |t.cmds| == |s.cmds|
    decreases |s.cmds| - c
  {
    if c == |s.cmds| then s
    else FlushFrom(if s.cmds[c].pending then HandleResumed(s, c, setup) else s, c + 1, setup)
  }

  // ---- events

  /** What reaches the daemon. The compositor alternates idled and resumed on one object and says
      nothing about destroyed ones. */
  datatype Event =
    | Enable(inhibited: bool)
    | Disable
    | CompositorIdled(n: nat)
    | CompositorResumed(n: nat)
    | Usr1
    | Terminate

  predicate Possible(s: State, e: Event) {
    && s.running
    && match e
       case CompositorIdled(n) => n in s.live && !s.live[n].idled && s.live[n].owner < |s.cmds|
       case CompositorResumed(n) => n in s.live && s.live[n].idled && s.live[n].owner < |s.cmds|
       case _ => true
  }

  function Step(s: State, e: Event, setup: Setup): (t: State)
    requires Possible(s, e)
    ensures |t.cmds| == |s.cmds|
  {
    match e
    case Enable(inhibited) => if s.enabled || inhibited then s else EnableFrom(s.(enabled := true), 0, setup)
    case Disable =>
      if !s.enabled then s
      else DisableFrom(s.(enabled := false), 0).(hint := s.hint && !setup.hint)
    case CompositorIdled(n) => HandleIdled(s.(live := s.live[n := s.live[n].(idled := true)]), s.live[n].owner)
    case CompositorResumed(n) =>
      HandleResumed(s.(live := s.live[n := s.live[n].(idled := false)]), s.live[n].owner, setup)
    case Usr1 => ForceFrom(s, 0, setup)
    case Terminate => FlushFrom(s, 0, setup).(running := false)
  }

  // ---- the invariant

  ghost predicate Holds(s: State, c: int, n: nat) {
    0 <= c < |s.cmds| && s.cmds[c].handle == Object(n)
  }

  ghost predicate Kept(s: State, n: nat)
    requires n in s.live
  {
    && n < s.created && Holds(s, s.live[n].owner, n)
    && s.live[n].timeout == s.cmds[s.live[n].owner].registered >= 0
  }

  /** The live objects are exactly those the commands hold, each at the timeout its command
      remembers. */
  ghost predicate Held(s: State) {
    && (forall n :: n in s.live ==> Kept(s, n))
    && (forall c, n :: Holds(s, c, n) ==> n in s.live && s.live[n].owner == c)
  }

  /** An object the compositor considers idle belongs to a command waiting for its resume. */
  ghost predicate Waits(s: State) {
    forall n :: n in s.live && s.live[n].idled ==> s.live[n].owner < |s.cmds| && s.cmds[s.live[n].owner].pending
  }

  /** The last handler call of a command was idled. */
  predicate Unresumed(calls: seq<Call>, c: nat) {
    if calls == [] then false
    else if calls[|calls| - 1].c == c then calls[|calls| - 1].Idled?
    else Unresumed(calls[..|calls| - 1], c)
  }

  /** Every resume follows an unresumed idle of the same command. */
  ghost predicate Paired(calls: seq<Call>) {
    forall i :: 0 <= i < |calls| && calls[i].Resumed? ==> Unresumed(calls[..i], calls[i].c)
  }

  /** The call ran what its command is configured to run. */
  ghost predicate Ran(s: State, call: Call) {
    && call.c < |s.cmds|
    && var m := s.cmds[call.c];
       var hook := if call.Idled? then m.idleCmd else m.resumeCmd;
       call.effect == if m.idlehint then SetHint(call.Idled?) else if hook.Some? then Exec(hook.value) else Nothing
  }

  ghost predicate Hinting(s: State, c: int) {
    0 <= c < |s.cmds| && s.cmds[c].idlehint && s.cmds[c].pending
  }

  /** The calls so far, and an idle hint only while an idlehint command waits for its resume. */
  ghost predicate Pending(s: State) {
    && Paired(s.calls)
    && (forall c: nat :: c < |s.cmds| ==> s.cmds[c].pending == Unresumed(s.calls, c))
    && (forall i :: 0 <= i < |s.calls| ==> Ran(s, s.calls[i]))
    && (s.hint ==> exists c :: Hinting(s, c))
  }

  ghost predicate SameButObject(m: Cmd, k: Cmd) {
    m.(handle := NoObject, registered := 0) == k.(handle := NoObject, registered := 0)
  }

  /** Two states whose commands are configured and wait alike. */
  ghost predicate Alike(s: State, t: State) {
    && |s.cmds| == |t.cmds| && s.calls == t.calls && (t.hint ==> s.hint)
    && forall c :: 0 <= c < |s.cmds| ==> SameButObject(s.cmds[c], t.cmds[c])
  }

  lemma PendingKept(s: State, t: State)
    requires Pending(s) && Alike(s, t)
    ensures Pending(t)
  {
    assert forall c :: 0 <= c < |s.cmds| ==> SameButObject(s.cmds[c], t.cmds[c]);
    forall i | 0 <= i < |t.calls|
      ensures Ran(t, t.calls[i])
    {
      assert Ran(s, s.calls[i]);
    }
    if t.hint {
      var c :| Hinting(s, c);
      assert Hinting(t, c);
    }
  }

  ghost predicate Core(s: State) { Held(s) && Pending(s) }

  /** While the daemon runs. The flush at exit leaves objects idle whose commands have resumed. */
  ghost predicate Inv(s: State) { Core(s) && (s.running ==> Waits(s)) }

  // ---- one object at a time

  lemma DestroyKeeps(s: State, c: nat)
    requires Core(s) && c < |s.cmds|
    ensures Core(Destroy(s, c)) && Destroy(s, c).cmds[c].handle == NoObject
    ensures Waits(s) ==> Waits(Destroy(s, c))
  {
    match s.cmds[c].handle
    case NoObject =>
    case Object(n) =>
      assert Holds(s, c, n);
      var t := Destroy(s, c);
      forall d: int, m: nat | Holds(t, d, m)
        ensures m in t.live && t.live[m].owner == d
      {
        assert Holds(s, d, m);
      }
      forall m: nat | m in t.live
        ensures Kept(t, m)
      {
        assert Kept(s, m);
      }
      PendingKept(s, t);
  }

  lemma RegisterKeeps(s: State, c: nat, timeout: int, obeyInhibitors: bool, setup: Setup)
    requires Core(s) && c < |s.cmds|
    ensures Core(Register(s, c, timeout, obeyInhibitors, setup))
    ensures Waits(s) ==> Waits(Register(s, c, timeout, obeyInhibitors, setup))
  {
    DestroyKeeps(s, c);
    var d := Destroy(s, c);
    if timeout >= 0 {
      var t := Register(s, c, timeout, obeyInhibitors, setup);
      forall b: int, m: nat | Holds(t, b, m)
        ensures m in t.live && t.live[m].owner == b
      {
        if b != c {
          assert Holds(d, b, m);
        }
      }
      forall m: nat | m in t.live
        ensures Kept(t, m)
      {
        if m != d.created {
          assert Kept(d, m);
        }
      }
      PendingKept(d, t);
    }
  }

  /** Registering leaves the other commands alone and gives this one the new object. */
  lemma RegisterResult(s: State, c: nat, timeout: int, obeyInhibitors: bool, setup: Setup)
    requires c < |s.cmds|
    ensures var t := Register(s, c, timeout, obeyInhibitors, setup);
      && t.calls == s.calls && t.hint == s.hint && t.running == s.running && t.enabled == s.enabled
      && (forall d :: 0 <= d < |s.cmds| && d != c ==> t.cmds[d] == s.cmds[d])
      && t.cmds[c].(handle := NoObject, registered := 0) == s.cmds[c].(handle := NoObject, registered := 0)
      && (if timeout < 0 then t.cmds[c].handle == NoObject
          else t.cmds[c].registered == timeout && t.cmds[c].handle == Object(s.created)
               && s.created in t.live
               && t.live[s.created] == Notification(c, timeout, !obeyInhibitors && setup.inputIdle, false))
  {
  }

  lemma RegisterApart(s: State, c: nat, timeout: int, obeyInhibitors: bool, setup: Setup, hint: bool, calls: seq<Call>)
    requires c < |s.cmds|
    ensures Register(s.(hint := hint, calls := calls), c, timeout, obeyInhibitors, setup)
         == Register(s, c, timeout, obeyInhibitors, setup).(hint := hint, calls := calls)
  {
  }

  lemma ReportRestored(a: State, b: State, c: nat)
    requires c < |a.cmds| == |b.cmds| && a.calls == b.calls && a.hint == b.hint && SameButObject(a.cmds[c], b.cmds[c])
    ensures Report(b, c) == b.(hint := Report(a, c).hint, calls := Report(a, c).calls)
  {
  }

  /** The daemon registers before it runs the command; the order does not show. */
  lemma ReportLast(s: State, c: nat, setup: Setup)
    requires c < |s.cmds|
    ensures Report(Restore(Forget(s, c), c, setup), c) == HandleResumed(s, c, setup)
  {
    var a := Forget(s, c);
    var r := Report(a, c);
    RegisterApart(a, c, a.cmds[c].timeout, true, setup, r.hint, r.calls);
    RegisterResult(a, c, a.cmds[c].timeout, true, setup);
    ReportRestored(a, Restore(a, c, setup), c);
  }

  lemma UnresumedAppend(calls: seq<Call>, call: Call, c: nat)
    ensures Unresumed(calls + [call], c) == if call.c == c then call.Idled? else Unresumed(calls, c)
  {
    assert (calls + [call])[..|calls|] == calls;
  }

  lemma CallKeeps(s: State, c: nat, call: Call, t: State)
    requires Pending(s) && c < |s.cmds| && call.c == c && (call.Resumed? ==> s.cmds[c].pending) && Ran(s, call)
    requires t.calls == s.calls + [call] && t.cmds == s.cmds[c := s.cmds[c].(pending := call.Idled?)]
    requires t.hint == if s.cmds[c].idlehint then call.Idled? else s.hint
    ensures Pending(t)
  {
    forall d: nat | d < |t.cmds|
      ensures t.cmds[d].pending == Unresumed(t.calls, d)
    {
      UnresumedAppend(s.calls, call, d);
    }
    forall i | 0 <= i < |t.calls| && t.calls[i].Resumed?
      ensures Unresumed(t.calls[..i], t.calls[i].c)
    {
      assert i < |s.calls| ==> t.calls[..i] == s.calls[..i];
      assert i == |s.calls| ==> t.calls[..i] == s.calls;
    }
    forall i | 0 <= i < |t.calls|
      ensures Ran(t, t.calls[i])
    {
      assert i < |s.calls| ==> Ran(s, s.calls[i]);
    }
    if t.hint {
      if s.cmds[c].idlehint {
        assert Hinting(t, c);
      } else {
        var d :| Hinting(s, d);
        assert Hinting(t, d);
      }
    }
  }

  // ---- events

  lemma MarkKeeps(s: State, n: nat, idled: bool)
    requires Core(s) && n in s.live
    ensures Core(s.(live := s.live[n := s.live[n].(idled := idled)]))
    ensures !idled && Waits(s) ==> Waits(s.(live := s.live[n := s.live[n].(idled := idled)]))
  {
    var t := s.(live := s.live[n := s.live[n].(idled := idled)]);
    forall m: nat | m in t.live
      ensures Kept(t, m)
    {
      assert Kept(s, m);
    }
    forall b: int, m: nat | Holds(t, b, m)
      ensures m in t.live && t.live[m].owner == b
    {
      assert Holds(s, b, m);
    }
    PendingKept(s, t);
  }

  lemma FlagKeeps(s: State, t: State, c: nat)
    requires Held(s) && c < |s.cmds| && t.live == s.live && t.created == s.created
    requires |t.cmds| == |s.cmds| && t.cmds == s.cmds[c := s.cmds[c].(pending := t.cmds[c].pending)]
    ensures Held(t)
  {
    forall m: nat | m in t.live
      ensures Kept(t, m)
    {
      assert Kept(s, m);
    }
    forall b: int, m: nat | Holds(t, b, m)
      ensures m in t.live && t.live[m].owner == b
    {
      assert Holds(s, b, m);
    }
  }

  lemma IdledKeeps(s: State, n: nat, setup: Setup)
    requires Inv(s) && Possible(s, CompositorIdled(n))
    ensures Inv(Step(s, CompositorIdled(n), setup))
  {
    var c := s.live[n].owner;
    var a := s.(live := s.live[n := s.live[n].(idled := true)]);
    MarkKeeps(s, n, true);
    var t := HandleIdled(a, c);
    CallKeeps(a, c, Idled(c, IdleEffect(a.cmds[c])), t);
    FlagKeeps(a, t, c);
  }

  /** handle_resumed, whoever calls it, for a command that waits for its resume. */
  lemma ResumedKeeps(s: State, c: nat, setup: Setup)
    requires Core(s) && c < |s.cmds| && s.cmds[c].pending
    ensures var t := HandleResumed(s, c, setup);
      && Core(t) && !t.cmds[c].pending && t.running == s.running
      && (forall d :: 0 <= d < |s.cmds| && d != c ==> t.cmds[d] == s.cmds[d])
      && |t.calls| == |s.calls| + 1 && t.calls[..|s.calls|] == s.calls
  {
    var a := Settle(s, c);
    FlagKeeps(s, a, c);
    CallKeeps(s, c, Resumed(c, ResumeEffect(s.cmds[c])), a);
    RegisterKeeps(a, c, a.cmds[c].timeout, true, setup);
    RegisterResult(a, c, a.cmds[c].timeout, true, setup);
  }

  /** A resume that the compositor sends leaves the command at its configured timeout, or without
      an object when that is negative. A command that is there already keeps its object; another
      gets a new one that respects inhibitors. */
  lemma BackAtTimeout(s: State, n: nat, setup: Setup)
    requires Inv(s) && Possible(s, CompositorResumed(n))
    ensures var t := Step(s, CompositorResumed(n), setup);
            var m := t.cmds[s.live[n].owner];
      && m.timeout == s.cmds[s.live[n].owner].timeout
      && (m.timeout < 0 ==> m.handle == NoObject)
      && (m.timeout >= 0 ==> m.handle.Object? && m.handle.id in t.live && t.live[m.handle.id].timeout == m.timeout)
      && t.live == if s.live[n].timeout == m.timeout then s.live[n := s.live[n].(idled := false)]
                   else if m.timeout < 0 then s.live - {n}
                   else (s.live - {n})[s.created := Notification(s.live[n].owner, m.timeout, false, false)]
  {
    var c := s.live[n].owner;
    var a := Settle(s.(live := s.live[n := s.live[n].(idled := false)]), c);
    assert Kept(s, n);
    RegisterResult(a, c, a.cmds[c].timeout, true, setup);
  }

  lemma CompositorResumedKeeps(s: State, n: nat, setup: Setup)
    requires Inv(s) && Possible(s, CompositorResumed(n))
    ensures Inv(Step(s, CompositorResumed(n), setup))
  {
    var c := s.live[n].owner;
    assert Kept(s, n);
    MarkKeeps(s, n, false);
    var a := s.(live := s.live[n := s.live[n].(idled := false)]);
    ResumedKeeps(a, c, setup);
    var b := Settle(a, c);
    assert Waits(b) by {
      forall m: nat | m in b.live && b.live[m].idled
        ensures b.live[m].owner < |b.cmds| && b.cmds[b.live[m].owner].pending
      {
        assert Kept(s, m);
      }
    }
    FlagKeeps(a, b, c);
    CallKeeps(a, c, Resumed(c, ResumeEffect(a.cmds[c])), b);
    RegisterKeeps(b, c, b.cmds[c].timeout, true, setup);
  }

  lemma {:induction false} EnableKeeps(s: State, c: nat, setup: Setup)
    requires Core(s) && Waits(s) && c <= |s.cmds|
    ensures Core(EnableFrom(s, c, setup)) && Waits(EnableFrom(s, c, setup))
    decreases |s.cmds| - c
  {
    if c < |s.cmds| {
      RegisterKeeps(s, c, s.cmds[c].timeout, true, setup);
      EnableKeeps(Register(s, c, s.cmds[c].timeout, true, setup), c + 1, setup);
    }
  }

  lemma {:induction false} DisableKeeps(s: State, c: nat)
    requires Core(s) && Waits(s) && c <= |s.cmds|
    ensures Core(DisableFrom(s, c)) && Waits(DisableFrom(s, c))
    decreases |s.cmds| - c
  {
    if c < |s.cmds| {
      DestroyKeeps(s, c);
      DisableKeeps(Destroy(s, c), c + 1);
    }
  }

  lemma {:induction false} ForceKeeps(s: State, c: nat, setup: Setup)
    requires Core(s) && Waits(s) && c <= |s.cmds|
    ensures Core(ForceFrom(s, c, setup)) && Waits(ForceFrom(s, c, setup))
    decreases |s.cmds| - c
  {
    if c < |s.cmds| {
      RegisterKeeps(s, c, 0, false, setup);
      ForceKeeps(Register(s, c, 0, false, setup), c + 1, setup);
    }
  }

  ghost predicate Quiet(s: State, c: nat) {
    forall d :: 0 <= d < c && d < |s.cmds| ==> !s.cmds[d].pending
  }

  /** The flush resumes every waiting command and forgets no earlier call. */
  lemma {:induction false} FlushKeeps(s: State, c: nat, setup: Setup)
    requires Core(s) && c <= |s.cmds| && Quiet(s, c)
    ensures var t := FlushFrom(s, c, setup);
      && Core(t) && Quiet(t, |t.cmds|) && |s.calls| <= |t.calls| && t.calls[..|s.calls|] == s.calls
    decreases |s.cmds| - c
  {
    if c < |s.cmds| {
      var a := if s.cmds[c].pending then HandleResumed(s, c, setup) else s;
      if s.cmds[c].pending {
        ResumedKeeps(s, c, setup);
      }
      FlushKeeps(a, c + 1, setup);
      var t := FlushFrom(a, c + 1, setup);
      assert t.calls[..|s.calls|] == t.calls[..|a.calls|][..|s.calls|];
    }
  }

  lemma {:induction false} DisableCalls(s: State, c: nat)
    requires c <= |s.cmds|
    ensures DisableFrom(s, c).hint == s.hint && DisableFrom(s, c).enabled == s.enabled
    ensures DisableFrom(s, c).running == s.running
    decreases |s.cmds| - c
  {
    if c < |s.cmds| {
      DisableCalls(Destroy(s, c), c + 1);
    }
  }

  lemma EnabledKeeps(s: State, b: bool, hint: bool)
    requires Core(s) && Waits(s) && (hint ==> s.hint)
    ensures Core(s.(enabled := b, hint := hint)) && Waits(s.(enabled := b, hint := hint))
  {
    var t := s.(enabled := b, hint := hint);
    assert forall n :: n in s.live ==> (Kept(s, n) <==> Kept(t, n));
    assert forall c, n :: Holds(s, c, n) <==> Holds(t, c, n);
    PendingKept(s, t);
  }

  lemma StoppedKeeps(s: State)
    requires Core(s)
    ensures Core(s.(running := false))
  {
    var t := s.(running := false);
    assert forall n :: n in s.live ==> (Kept(s, n) <==> Kept(t, n));
    assert forall c, n :: Holds(s, c, n) <==> Holds(t, c, n);
    PendingKept(s, t);
  }

  lemma StepKeeps(s: State, e: Event, setup: Setup)
    requires Inv(s) && Possible(s, e)
    ensures Inv(Step(s, e, setup))
  {
    match e
    case Enable(inhibited) => EnabledKeeps(s, true, s.hint); EnableKeeps(s.(enabled := true), 0, setup);
    case Disable =>
      EnabledKeeps(s, false, s.hint);
      DisableKeeps(s.(enabled := false), 0);
      var t := DisableFrom(s.(enabled := false), 0);
      EnabledKeeps(t, t.enabled, t.hint && !setup.hint);
      DisableCalls(s.(enabled := false), 0);
    case CompositorIdled(n) => IdledKeeps(s, n, setup);
    case CompositorResumed(n) => CompositorResumedKeeps(s, n, setup);
    case Usr1 => ForceKeeps(s, 0, setup);
    case Terminate =>
      FlushKeeps(s, 0, setup);
      StoppedKeeps(FlushFrom(s, 0, setup));
  }

  // ---- what the loops achieve

  /** The command holds a new object at this timeout, or none for a negative one. */
  ghost predicate RegisteredAt(s: State, c: nat, timeout: int, inputOnly: bool)
    requires c < |s.cmds|
  {
    if timeout < 0 then s.cmds[c].handle == NoObject
    else
      && s.cmds[c].handle.Object? && s.cmds[c].handle.id in s.live
      && s.live[s.cmds[c].handle.id] == Notification(c, timeout, inputOnly, false)
  }

  lemma RegisterApartKeeps(s: State, c: nat, timeout: int, obeyInhibitors: bool, setup: Setup, d: nat, at: int,
                           inputOnly: bool)
    requires Core(s) && c < |s.cmds| && d < |s.cmds| && d != c && RegisteredAt(s, d, at, inputOnly)
    ensures RegisteredAt(Register(s, c, timeout, obeyInhibitors, setup), d, at, inputOnly)
  {
    if s.cmds[c].handle.Object? {
      assert Holds(s, c, s.cmds[c].handle.id);
    }
    if at >= 0 {
      assert Kept(s, s.cmds[d].handle.id);
    }
  }

  lemma FreshlyRegistered(s: State, c: nat, timeout: int, obeyInhibitors: bool, setup: Setup)
    requires Core(s) && c < |s.cmds|
    ensures var u := Register(s, c, timeout, obeyInhibitors, setup);
      && RegisteredAt(u, c, timeout, !obeyInhibitors && setup.inputIdle)
      && forall d: nat :: d < |s.cmds| ==> u.cmds[d].timeout == s.cmds[d].timeout
  {
    DestroyKeeps(s, c);
    RegisterResult(s, c, timeout, obeyInhibitors, setup);
  }

  /** Enabling registers every command at its timeout, inhibitors respected. */
  lemma {:induction false} EnableRegisters(s: State, c: nat, setup: Setup)
    requires Core(s) && c <= |s.cmds| && forall d: nat :: d < c ==> RegisteredAt(s, d, s.cmds[d].timeout, false)
    ensures var t := EnableFrom(s, c, setup);
            forall d: nat :: d < |s.cmds| ==>
              t.cmds[d].timeout == s.cmds[d].timeout && RegisteredAt(t, d, s.cmds[d].timeout, false)
    decreases |s.cmds| - c
  {
    if c < |s.cmds| {
      var u := Register(s, c, s.cmds[c].timeout, true, setup);
      RegisterKeeps(s, c, s.cmds[c].timeout, true, setup);
      FreshlyRegistered(s, c, s.cmds[c].timeout, true, setup);
      forall d: nat | d < c
        ensures RegisteredAt(u, d, s.cmds[d].timeout, false)
      {
        RegisterApartKeeps(s, c, s.cmds[c].timeout, true, setup, d, s.cmds[d].timeout, false);
      }
      EnableRegisters(u, c + 1, setup);
    }
  }

  /** SIGUSR1 registers every command at timeout 0, whatever its own, on input alone where the
      compositor can. */
  lemma {:induction false} ForceRegisters(s: State, c: nat, setup: Setup)
    requires Core(s) && c <= |s.cmds| && forall d: nat :: d < c ==> RegisteredAt(s, d, 0, setup.inputIdle)
    ensures var t := ForceFrom(s, c, setup);
            forall d: nat :: d < |s.cmds| ==>
              t.cmds[d].timeout == s.cmds[d].timeout && RegisteredAt(t, d, 0, setup.inputIdle)
    decreases |s.cmds| - c
  {
    if c < |s.cmds| {
      var u := Register(s, c, 0, false, setup);
      RegisterKeeps(s, c, 0, false, setup);
      FreshlyRegistered(s, c, 0, false, setup);
      forall d: nat | d < c
        ensures RegisteredAt(u, d, 0, setup.inputIdle)
      {
        RegisterApartKeeps(s, c, 0, false, setup, d, 0, setup.inputIdle);
      }
      ForceRegisters(u, c + 1, setup);
    }
  }

  /** Disabling leaves no live object. */
  lemma {:induction false} DisableDestroys(s: State, c: nat)
    requires Core(s) && c <= |s.cmds| && forall d: nat :: d < c ==> s.cmds[d].handle == NoObject
    ensures DisableFrom(s, c).live == map[]
    decreases |s.cmds| - c
  {
    if c < |s.cmds| {
      DestroyKeeps(s, c);
      DisableDestroys(Destroy(s, c), c + 1);
    } else {
      assert s.live.Keys == {};
    }
  }

  lemma {:induction false} EnableCalls(s: State, c: nat, setup: Setup)
    requires c <= |s.cmds|
    ensures EnableFrom(s, c, setup).enabled == s.enabled
    decreases |s.cmds| - c
  {
    if c < |s.cmds| {
      RegisterResult(s, c, s.cmds[c].timeout, true, setup);
      EnableCalls(Register(s, c, s.cmds[c].timeout, true, setup), c + 1, setup);
    }
  }

  /** What one event leaves registered. */
  lemma EventEffects(s: State, inhibited: bool, setup: Setup)
    requires Inv(s) && s.running
    ensures var t := Step(s, Enable(inhibited), setup);
            if s.enabled || inhibited then t == s
            else t.enabled && forall d: nat :: d < |s.cmds| ==> RegisteredAt(t, d, s.cmds[d].timeout, false)
    ensures var t := Step(s, Disable, setup); if s.enabled then t.live == map[] && !t.enabled else t == s
    ensures var t := Step(s, Usr1, setup); forall d: nat :: d < |s.cmds| ==> RegisteredAt(t, d, 0, setup.inputIdle)
  {
    EnabledKeeps(s, true, s.hint);
    EnabledKeeps(s, false, s.hint);
    EnableRegisters(s.(enabled := true), 0, setup);
    EnableCalls(s.(enabled := true), 0, setup);
    DisableDestroys(s.(enabled := false), 0);
    DisableCalls(s.(enabled := false), 0);
    ForceRegisters(s, 0, setup);
  }

  // ---- runs

  /** After the arguments are parsed: nothing registered, nothing pending. */
  ghost predicate Start(s: State) {
    && s.live == map[] && s.created == 0 && !s.enabled && s.running && !s.hint && s.calls == []
    && forall c :: 0 <= c < |s.cmds| ==> s.cmds[c].handle == NoObject && !s.cmds[c].pending && s.cmds[c].registered == 0
  }

  ghost predicate Next(s: State, e: Event, t: State, setup: Setup) {
    Possible(s, e) && t == Step(s, e, setup)
  }

  ghost predicate Run(ss: seq<State>, es: seq<Event>, setup: Setup) {
    && |ss| == |es| + 1 && Start(ss[0])
    && forall i :: 0 <= i < |es| ==> Next(ss[i], es[i], ss[i + 1], setup)
  }

  lemma StartInv(s: State)
    requires Start(s)
    ensures Inv(s)
  {
  }

  lemma {:induction false} EveryRun(ss: seq<State>, es: seq<Event>, setup: Setup, k: nat)
    requires Run(ss, es, setup) && k < |ss|
    ensures Inv(ss[k])
  {
    if k == 0 {
      StartInv(ss[0]);
    } else {
      EveryRun(ss, es, setup, k - 1);
      assert Next(ss[k - 1], es[k - 1], ss[k], setup);
      StepKeeps(ss[k - 1], es[k - 1], setup);
    }
  }

  ghost predicate ResumedAfter(calls: seq<Call>, i: nat, c: nat) {
    exists j :: i < j < |calls| && calls[j].Resumed? && calls[j].c == c
  }

  lemma {:induction false} SettledIdles(calls: seq<Call>, i: nat)
    requires i < |calls| && calls[i].Idled? && !Unresumed(calls, calls[i].c)
    ensures ResumedAfter(calls, i, calls[i].c)
    decreases |calls|
  {
    var last := |calls| - 1;
    if calls[last].c != calls[i].c {
      SettledIdles(calls[..last], i);
      var j :| i < j < last && calls[..last][j].Resumed? && calls[..last][j].c == calls[i].c;
      assert calls[j].Resumed?;
    } else {
      assert calls[last].Resumed?;
    }
  }

  /** A run that ends with SIGINT or SIGTERM has resumed every command after its last idle, and
      no resume came without an idle before it. */
  lemma ExitResumesAll(ss: seq<State>, es: seq<Event>, setup: Setup)
    requires Run(ss, es, setup) && |es| > 0 && es[|es| - 1] == Terminate
    ensures var calls := ss[|es|].calls;
      && Paired(calls) && !ss[|es|].hint
      && (forall i :: 0 <= i < |calls| ==> Ran(ss[|es|], calls[i]))
      && (forall i :: 0 <= i < |calls| && calls[i].Idled? ==> ResumedAfter(calls, i, calls[i].c))
  {
    var k := |es| - 1;
    EveryRun(ss, es, setup, k);
    EveryRun(ss, es, setup, k + 1);
    assert Next(ss[k], es[k], ss[k + 1], setup);
    FlushKeeps(ss[k], 0, setup);
    var calls := ss[|es|].calls;
    forall i | 0 <= i < |calls| && calls[i].Idled?
      ensures ResumedAfter(calls, i, calls[i].c)
    {
      SettledIdles(calls, i);
    }
  }

  /** In every run every call sets the idle hint if its command is an idle hint, and otherwise runs
      what is configured for it: the command on idle, the resume command on resume, if there is one. */
  lemma CallsConfigured(ss: seq<State>, es: seq<Event>, setup: Setup, k: nat, i: nat)
    requires Run(ss, es, setup) && k < |ss| && i < |ss[k].calls|
    ensures ss[k].calls[i].c < |ss[k].cmds|
    ensures var call := ss[k].calls[i]; var m := ss[k].cmds[call.c];
      && (m.idlehint ==> call.effect == SetHint(call.Idled?))
      && (!m.idlehint && call.Idled? ==>
            call.effect == match m.idleCmd case Some(x) => Exec(x) case None => Nothing)
      && (!m.idlehint && call.Resumed? ==>
            call.effect == match m.resumeCmd case Some(x) => Exec(x) case None => Nothing)
  {
    EveryRun(ss, es, setup, k);
    assert Ran(ss[k], ss[k].calls[i]);
  }

  lemma {:induction false} EnableSilent(s: State, c: nat, setup: Setup)
    requires c <= |s.cmds|
    ensures var t := EnableFrom(s, c, setup);
            t.calls == s.calls && t.hint == s.hint && t.enabled == s.enabled && t.running == s.running
    decreases |s.cmds| - c
  {
    if c < |s.cmds| {
      RegisterResult(s, c, s.cmds[c].timeout, true, setup);
      EnableSilent(Register(s, c, s.cmds[c].timeout, true, setup), c + 1, setup);
    }
  }

  lemma {:induction false} DisableSilent(s: State, c: nat)
    requires c <= |s.cmds|
    ensures var t := DisableFrom(s, c);
            t.calls == s.calls && t.hint == s.hint && t.enabled == s.enabled && t.running == s.running
    decreases |s.cmds| - c
  {
    if c < |s.cmds| {
      DisableSilent(Destroy(s, c), c + 1);
    }
  }

  lemma {:induction false} ForceSilent(s: State, c: nat, setup: Setup)
    requires c <= |s.cmds|
    ensures var t := ForceFrom(s, c, setup);
            t.calls == s.calls && t.hint == s.hint && t.enabled == s.enabled && t.running == s.running
    decreases |s.cmds| - c
  {
    if c < |s.cmds| {
      RegisterResult(s, c, 0, false, setup);
      ForceSilent(Register(s, c, 0, false, setup), c + 1, setup);
    }
  }

  /** One event calls at most one handler: that of the command whose object the compositor names.
      The idle hint follows the idlehint commands, and disabling the timeouts of such a daemon
      takes it back. */
  lemma EventCalls(s: State, e: Event, setup: Setup)
    requires Possible(s, e) && e != Terminate
    ensures var t := Step(s, e, setup);
      match e
      case CompositorIdled(n) =>
        && |t.calls| == |s.calls| + 1 && t.calls[..|s.calls|] == s.calls
        && t.calls[|s.calls|].Idled? && t.calls[|s.calls|].c == s.live[n].owner
      case CompositorResumed(n) =>
        && |t.calls| == |s.calls| + 1 && t.calls[..|s.calls|] == s.calls
        && t.calls[|s.calls|].Resumed? && t.calls[|s.calls|].c == s.live[n].owner
      case _ => t.calls == s.calls
    ensures var t := Step(s, e, setup);
      && t.running
      && t.enabled == (match e
                       case Enable(inhibited) => s.enabled || !inhibited
                       case Disable => false
                       case _ => s.enabled)
      && t.hint == match e
                   case CompositorIdled(n) => s.hint || s.cmds[s.live[n].owner].idlehint
                   case CompositorResumed(n) => s.hint && !s.cmds[s.live[n].owner].idlehint
                   case Disable => s.hint && !(s.enabled && setup.hint)
                   case _ => s.hint
  {
    match e
    case Enable(inhibited) => EnableSilent(s.(enabled := true), 0, setup);
    case Disable => DisableSilent(s.(enabled := false), 0);
    case Usr1 => ForceSilent(s, 0, setup);
    case CompositorIdled(n) =>
    case CompositorResumed(n) =>
      var a := Settle(s.(live := s.live[n := s.live[n].(idled := false)]), s.live[n].owner);
      RegisterResult(a, s.live[n].owner, a.cmds[s.live[n].owner].timeout, true, setup);
  }

  // ---- the program's objects

  /** struct aetheridle_timeout_cmd. */
  class Command {
    const timeout: int
    const idleCmd: Hook
    const resumeCmd: Hook
    const idlehint: bool
    var registered: int
    var handle: Handle
    var pending: bool

    /** A clause the command line has given. */
    constructor (clause: IdleArgs.Timeout)
      ensures Value() == Cmd(clause.ms, 0, NoObject, clause.idleCmd, clause.resumeCmd, clause.idlehint, false)
    {
      timeout, idleCmd, resumeCmd, idlehint := clause.ms, clause.idleCmd, clause.resumeCmd, clause.idlehint;
      registered, handle, pending := 0, NoObject, false;
    }

    function Value(): Cmd
      reads this
    {
      Cmd(timeout, registered, handle, idleCmd, resumeCmd, idlehint, pending)
    }
  }

  /** The daemon's globals and what the compositor and logind hold for it. */
  class Daemon {
    const cmds: seq<Command>
    const setup: Setup
    var live: map<nat, Notification>
    var created: nat
    var enabled: bool
    var running: bool
    var hint: bool
    var calls: seq<Call>

    ghost predicate Valid() {
      forall i, j :: 0 <= i < j < |cmds| ==> cmds[i] != cmds[j]
    }

    ghost function Values(): (vs: seq<Cmd>)
      reads cmds
      ensures |vs| == |cmds| && forall c :: 0 <= c < |vs| ==> vs[c] == cmds[c].Value()
    {
      seq(|cmds|, c requires 0 <= c < |cmds| reads cmds => cmds[c].Value())
    }

    ghost function Abs(): State
      reads this, cmds
    {
      State(Values(), live, created, enabled, running, hint, calls)
    }

    constructor (cmds: seq<Command>, setup: Setup)
      requires forall i, j :: 0 <= i < j < |cmds| ==> cmds[i] != cmds[j]
      requires forall c :: 0 <= c < |cmds| ==>
        cmds[c].handle == NoObject && !cmds[c].pending && cmds[c].registered == 0
      ensures Valid() && this.cmds == cmds && this.setup == setup && Start(Abs())
    {
      this.cmds, this.setup := cmds, setup;
      live, created, enabled, running, hint, calls := map[], 0, false, true, false, [];
    }

    method DestroyTimer(c: nat)
      requires Valid() && c < |cmds|
      modifies this`live, cmds[c]
      ensures Abs() == Destroy(old(Abs()), c)
    {
      if cmds[c].handle.Object? {
        live := live - {cmds[c].handle.id};
        cmds[c].handle := NoObject;
      }
      assert Values() == Destroy(old(Abs()), c).cmds;
    }

    method RegisterTimeout(c: nat, timeout: int, obeyInhibitors: bool)
      requires Valid() && c < |cmds|
      modifies this`live, this`created, cmds[c]
      ensures Abs() == Register(old(Abs()), c, timeout, obeyInhibitors, setup)
    {
      DestroyTimer(c);
      if timeout >= 0 {
        live := live[created := Notification(c, timeout, !obeyInhibitors && setup.inputIdle, false)];
        cmds[c].handle := Object(created);
        created := created + 1;
        cmds[c].registered := timeout;
      }
      assert Values() == Register(old(Abs()), c, timeout, obeyInhibitors, setup).cmds;
    }

    method EnableTimeouts(inhibited: bool)
      requires Valid() && running
      modifies this, cmds
      ensures Abs() == Step(old(Abs()), Enable(inhibited), setup)
    {
      if enabled || inhibited {
        return;
      }
      enabled := true;
      ghost var s := old(Abs()).(enabled := true);
      ghost var t := s;
      assert Values() == t.cmds;
      for c := 0 to |cmds|
        invariant Abs() == t && EnableFrom(t, c, setup) == EnableFrom(s, 0, setup)
      {
        RegisterTimeout(c, cmds[c].timeout, true);
        t := Register(t, c, t.cmds[c].timeout, true, setup);
      }
    }

    method DisableTimeouts()
      requires Valid() && running
      modifies this, cmds
      ensures Abs() == Step(old(Abs()), Disable, setup)
    {
      if !enabled {
        return;
      }
      enabled := false;
      ghost var s := old(Abs()).(enabled := false);
      ghost var t := s;
      assert Values() == t.cmds;
      for c := 0 to |cmds|
        invariant Abs() == t && DisableFrom(t, c) == DisableFrom(s, 0)
      {
        DestroyTimer(c);
        t := Destroy(t, c);
      }
      DisableCalls(s, 0);
      if setup.hint {
        hint := false;
      }
      assert Values() == t.cmds;
    }

    method OnIdled(n: nat)
      requires Valid() && Possible(Abs(), CompositorIdled(n))
      modifies this, cmds
      ensures Abs() == Step(old(Abs()), CompositorIdled(n), setup)
    {
      var c := live[n].owner;
      live := live[n := live[n].(idled := true)];
      cmds[c].pending := true;
      if cmds[c].idlehint {
        hint := true;
        calls := calls + [Idled(c, SetHint(true))];
      } else if cmds[c].idleCmd.Some? {
        calls := calls + [Idled(c, Exec(cmds[c].idleCmd.value))];
      } else {
        calls := calls + [Idled(c, Nothing)];
      }
      assert Values() == Step(old(Abs()), CompositorIdled(n), setup).cmds;
    }

    method OnResumed(n: nat)
      requires Valid() && Possible(Abs(), CompositorResumed(n))
      modifies this, cmds
      ensures Abs() == Step(old(Abs()), CompositorResumed(n), setup)
    {
      var c := live[n].owner;
      live := live[n := live[n].(idled := false)];
      assert Values() == old(Values());
      Resume(c);
    }

    method RestoreTimeout(c: nat)
      requires Valid() && c < |cmds|
      modifies this`live, this`created, cmds[c]
      ensures Abs() == Restore(old(Abs()), c, setup)
    {
      if cmds[c].registered != cmds[c].timeout {
        RegisterTimeout(c, cmds[c].timeout, true);
      }
    }

    method RunResume(c: nat)
      requires Valid() && c < |cmds|
      modifies this`hint, this`calls
      ensures Abs() == Report(old(Abs()), c)
    {
      if cmds[c].idlehint {
        hint := false;
        calls := calls + [Resumed(c, SetHint(false))];
      } else if cmds[c].resumeCmd.Some? {
        calls := calls + [Resumed(c, Exec(cmds[c].resumeCmd.value))];
      } else {
        calls := calls + [Resumed(c, Nothing)];
      }
      assert Values() == old(Values());
    }

    /** handle_resumed. */
    method Resume(c: nat)
      requires Valid() && c < |cmds|
      modifies this, cmds
      ensures Abs() == HandleResumed(old(Abs()), c, setup)
    {
      ReportLast(Abs(), c, setup);
      cmds[c].pending := false;
      assert Values() == Forget(old(Abs()), c).cmds;
      RestoreTimeout(c);
      RunResume(c);
    }

    method OnUsr1()
      requires Valid() && running
      modifies this, cmds
      ensures Abs() == Step(old(Abs()), Usr1, setup)
    {
      ghost var t := Abs();
      for c := 0 to |cmds|
        invariant Abs() == t && ForceFrom(t, c, setup) == ForceFrom(old(Abs()), 0, setup)
      {
        RegisterTimeout(c, 0, false);
        t := Register(t, c, 0, false, setup);
      }
    }

    method OnTerminate()
      requires Valid() && running
      modifies this, cmds
      ensures Abs() == Step(old(Abs()), Terminate, setup)
    {
      ghost var t := Abs();
      for c := 0 to |cmds|
        invariant Abs() == t && FlushFrom(t, c, setup) == FlushFrom(old(Abs()), 0, setup)
      {
        if cmds[c].pending {
          Resume(c);
          t := HandleResumed(t, c, setup);
        }
      }
      running := false;
      assert Values() == t.cmds;
    }
  }
}
