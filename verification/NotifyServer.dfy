/** The notification server (osd-notify/src/notify.c:88-149, 242-270, 364-470): the list of
    notifications on screen, the history, and the expiry timers, under every sequence of bus
    calls, user actions and timeouts. */
module NotifyServer {

  const DEFAULT_TIMEOUT := 5000
  const MAX_HISTORY := 50
  const ID_RANGE := 0x1_0000_0000

  /** The texts of a notification; the server only stores them. */
  datatype Content = Content(app: string, icon: string, summary: string, body: string, desktop: string)

  /** A notification on screen. `source` is its timer, 0 for none. */
  datatype Note = Note(id: nat, timeout: int, source: nat)

  datatype Item = Item(id: nat, content: Content, value: int)

  /** `sources` are the live timeouts and the id each will close; `nextSource` is positive.
      `shown`, `closed` and `created` are history: the ids put on screen, the NotificationClosed
      signals, and the number of ids issued. */
  datatype State = State(
    active: seq<Note>, history: seq<Item>, counter: nat, dnd: bool,
    sources: map<nat, nat>, nextSource: nat,
    shown: seq<nat>, closed: seq<(nat, nat)>, created: nat)

  function Init(): State {
    State([], [], 1, false, map[], 1, [], [], 0)
  }

  function FindActive(ns: seq<Note>, id: nat): (i: nat)
    ensures i <= |ns|
    ensures i < |ns| ==> ns[i].id == id
    ensures forall j :: 0 <= j < i ==> ns[j].id != id
  {
    if ns == [] || ns[0].id == id then 0 else 1 + FindActive(ns[1..], id)
  }

  function FindItem(h: seq<Item>, id: nat): (i: nat)
    ensures i <= |h|
    ensures i < |h| ==> h[i].id == id
    ensures forall j :: 0 <= j < i ==> h[j].id != id
  {
    if h == [] || h[0].id == id then 0 else 1 + FindItem(h[1..], id)
  }

  function AddItem(h: seq<Item>, item: Item): seq<Item> {
    var longer := [item] + h;
    if |longer| > MAX_HISTORY then longer[..|longer| - 1] else longer
  }

  function Rewrite(h: seq<Item>, id: nat, content: Content): seq<Item> {
    var i := FindItem(h, id);
    if i < |h| then h[i := h[i].(content := content)] else h
  }

  /** g_source_remove of a notification's timer, if it has one. */
  function StopTimer(sources: map<nat, nat>, source: nat): map<nat, nat> {
    if source > 0 then sources - {source} else sources
  }

  function EffectiveTimeout(timeout: int): (t: int)
    ensures t > 0
  {
    if timeout <= 0 then DEFAULT_TIMEOUT else timeout
  }

  /** `id_counter++` on an unsigned 32-bit counter. */
  function TakeId(s: State): State {
    s.(counter := (s.counter + 1) % ID_RANGE, created := s.created + 1)
  }

  /** create_new_notification; the id it returns is the second component. */
  function Create(s: State, replacing: nat, c: Content, value: int, timeout: int): (State, nat) {
    if s.dnd then
      if replacing != 0 && FindItem(s.history, replacing) < |s.history| then
        (s.(history := Rewrite(s.history, replacing, c)), replacing)
      else
        (TakeId(s).(history := AddItem(s.history, Item(s.counter, c, value))), s.counter)
    else
      var i := FindActive(s.active, replacing);
      if replacing != 0 && i < |s.active| then
        var n := s.active[i];
        (s.(history := Rewrite(s.history, n.id, c),
            active := s.active[i := Note(n.id, EffectiveTimeout(timeout), s.nextSource)],
            sources := StopTimer(s.sources, n.source)[s.nextSource := n.id],
            nextSource := s.nextSource + 1), n.id)
      else
        (TakeId(s).(active := s.active + [Note(s.counter, EffectiveTimeout(timeout), s.nextSource)],
                    history := AddItem(s.history, Item(s.counter, c, value)),
                    sources := s.sources[s.nextSource := s.counter],
                    nextSource := s.nextSource + 1,
                    shown := s.shown + [s.counter]), s.counter)
  }

  /** close_notification. */
  function Close(s: State, id: nat, reason: nat): State {
    var i := FindActive(s.active, id);
    if i < |s.active| then
      s.(active := s.active[..i] + s.active[i + 1..],
         sources := StopTimer(s.sources, s.active[i].source),
         closed := s.closed + [(id, reason)])
    else s
  }

  /** notify_pause_timeout. */
  function Pause(s: State, id: nat): State {
    var i := FindActive(s.active, id);
    if i < |s.active| && s.active[i].source > 0 then
      s.(active := s.active[i := s.active[i].(source := 0)], sources := s.sources - {s.active[i].source})
    else s
  }

  /** notify_resume_timeout. */
  function Resume(s: State, id: nat): State {
    var i := FindActive(s.active, id);
    if i < |s.active| && s.active[i].source == 0 then
      s.(active := s.active[i := s.active[i].(source := s.nextSource)],
         sources := s.sources[s.nextSource := id], nextSource := s.nextSource + 1)
    else s
  }

  /** A timeout runs on_timeout, which returns FALSE: the source is gone afterwards. */
  function Timeout(s: State, source: nat): State {
    if source in s.sources then
      var u := Close(s, s.sources[source], 1);
      u.(sources := u.sources - {source})
    else s
  }

  datatype Event =
    | Notify(replacing: nat, content: Content, value: int, timeout: int)
    | CloseCall(id: nat)
    | UserAction(id: nat)
    | Expire(source: nat)
    | Hover(id: nat)
    | Unhover(id: nat)
    | ClearHistory
    | SetDnd(on: bool)

  function Step(s: State, e: Event): State {
    match e
    case Notify(replacing, c, value, timeout) => Create(s, replacing, c, value, timeout).0
    case CloseCall(id) => Close(s, id, 3)
    case UserAction(id) => Close(s, id, 2)
    case Expire(source) => Timeout(s, source)
    case Hover(id) => Pause(s, id)
    case Unhover(id) => Resume(s, id)
    case ClearHistory => s.(history := [])
    case SetDnd(on) => s.(dnd := on)
  }

  function Run(s: State, es: seq<Event>): State
    decreases |es|
  {
    if es == [] then s else Run(Step(s, es[0]), es[1..])
  }

  // ---- the invariant

  ghost predicate Lists(s: State) {
    && s.counter == s.created + 1
    && (forall i, j :: 0 <= i < j < |s.active| ==> s.active[i].id < s.active[j].id)
    && (forall i :: 0 <= i < |s.active| ==> 0 < s.active[i].id < s.counter && s.active[i].timeout > 0)
    && |s.history| <= MAX_HISTORY
    && (forall i, j :: 0 <= i < j < |s.history| ==> s.history[i].id > s.history[j].id)
    && (forall i :: 0 <= i < |s.history| ==> 0 < s.history[i].id < s.counter)
  }

  ghost predicate Owned(active: seq<Note>, src: nat) {
    exists i :: 0 <= i < |active| && active[i].source == src
  }

  /** Live timers and notifications that are not paused correspond one to one. */
  ghost predicate Timers(active: seq<Note>, sources: map<nat, nat>, nextSource: nat) {
    && nextSource > 0
    && (forall i :: 0 <= i < |active| && active[i].source > 0 ==>
          active[i].source in sources && sources[active[i].source] == active[i].id)
    && (forall src :: src in sources ==> 0 < src < nextSource && Owned(active, src))
    && (forall i, j :: 0 <= i < j < |active| && active[i].source > 0 ==> active[i].source != active[j].source)
  }

  ghost predicate IsActive(active: seq<Note>, id: nat) {
    exists i :: 0 <= i < |active| && active[i].id == id
  }

  ghost predicate IsClosed(closed: seq<(nat, nat)>, id: nat) {
    exists i :: 0 <= i < |closed| && closed[i].0 == id
  }

  /** The ids put on screen, in increasing order, are split between the active and the closed;
      none is closed twice. */
  ghost predicate Signals(active: seq<Note>, shown: seq<nat>, closed: seq<(nat, nat)>) {
    && (forall i, j :: 0 <= i < j < |shown| ==> shown[i] < shown[j])
    && (forall i :: 0 <= i < |active| ==> active[i].id in shown)
    && (forall i :: 0 <= i < |closed| ==> closed[i].0 in shown && !IsActive(active, closed[i].0))
    && (forall id :: id in shown ==> IsActive(active, id) || IsClosed(closed, id))
    && (forall i, j :: 0 <= i < j < |closed| ==> closed[i].0 != closed[j].0)
  }

  ghost predicate Inv(s: State) {
    && Lists(s)
    && Timers(s.active, s.sources, s.nextSource)
    && Signals(s.active, s.shown, s.closed)
    && (forall id :: id in s.shown ==> id < s.counter)
  }

  // ---- how the operations keep it

  lemma AddItemKeeps(h: seq<Item>, item: Item)
    requires |h| <= MAX_HISTORY
    requires forall i, j :: 0 <= i < j < |h| ==> h[i].id > h[j].id
    requires forall i :: 0 <= i < |h| ==> item.id > h[i].id
    ensures var g := AddItem(h, item);
            && 0 < |g| <= MAX_HISTORY && g[0] == item
            && (forall i, j :: 0 <= i < j < |g| ==> g[i].id > g[j].id)
            && (forall i :: 1 <= i < |g| ==> g[i] == h[i - 1])
  {
  }

  lemma CloseLists(s: State, id: nat, reason: nat)
    requires Lists(s)
    ensures Lists(Close(s, id, reason))
  {
  }

  lemma OwnedBesides(active: seq<Note>, i: nat, src: nat)
    requires i < |active| && Owned(active, src) && active[i].source != src
    ensures Owned(active[..i] + active[i + 1..], src)
  {
    var j :| 0 <= j < |active| && active[j].source == src;
    assert (active[..i] + active[i + 1..])[if j < i then j else j - 1].source == src;
  }

  lemma CloseTimers(active: seq<Note>, sources: map<nat, nat>, next: nat, i: nat)
    requires Timers(active, sources, next) && i < |active|
    ensures Timers(active[..i] + active[i + 1..], StopTimer(sources, active[i].source), next)
  {
    var rest, left := active[..i] + active[i + 1..], StopTimer(sources, active[i].source);
    forall j | 0 <= j < |rest| && rest[j].source > 0
      ensures rest[j].source in left && left[rest[j].source] == rest[j].id
    {
      assert rest[j] == active[if j < i then j else j + 1];
    }
    forall src | src in left
      ensures 0 < src < next && Owned(rest, src)
    {
      assert Owned(active, src);
      OwnedBesides(active, i, src);
    }
  }

  lemma CloseSignals(active: seq<Note>, shown: seq<nat>, closed: seq<(nat, nat)>, i: nat, reason: nat)
    requires Signals(active, shown, closed) && i < |active|
    requires forall j, k :: 0 <= j < k < |active| ==> active[j].id < active[k].id
    ensures Signals(active[..i] + active[i + 1..], shown, closed + [(active[i].id, reason)])
  {
    var rest, more := active[..i] + active[i + 1..], closed + [(active[i].id, reason)];
    assert IsActive(active, active[i].id);
    assert forall j :: 0 <= j < |rest| ==> rest[j] == active[if j < i then j else j + 1];
    assert !IsActive(rest, active[i].id);
    forall j | 0 <= j < |more|
      ensures more[j].0 in shown && !IsActive(rest, more[j].0)
    {
      if j < |closed| {
        assert more[j] == closed[j] && !IsActive(active, closed[j].0);
      }
    }
    forall id | id in shown
      ensures IsActive(rest, id) || IsClosed(more, id)
    {
      if IsActive(active, id) {
        var j :| 0 <= j < |active| && active[j].id == id;
        if j == i {
          assert more[|closed|].0 == id;
        } else {
          assert rest[if j < i then j else j - 1].id == id;
        }
      } else {
        var j :| 0 <= j < |closed| && closed[j].0 == id;
        assert more[j].0 == id;
      }
    }
  }

  lemma CloseKeeps(s: State, id: nat, reason: nat)
    requires Inv(s)
    ensures Inv(Close(s, id, reason))
  {
    var i := FindActive(s.active, id);
    if i < |s.active| {
      CloseLists(s, id, reason);
      CloseTimers(s.active, s.sources, s.nextSource, i);
      CloseSignals(s.active, s.shown, s.closed, i, reason);
    }
  }

  lemma OwnerFound(active: seq<Note>, sources: map<nat, nat>, next: nat, source: nat)
    requires Timers(active, sources, next) && source in sources
    requires forall i, j :: 0 <= i < j < |active| ==> active[i].id < active[j].id
    ensures var i := FindActive(active, sources[source]); i < |active| && active[i].source == source
  {
    assert Owned(active, source);
    var j :| 0 <= j < |active| && active[j].source == source;
    var i := FindActive(active, active[j].id);
    assert i <= j;
    assert active[i].id == active[j].id;
  }

  lemma TimeoutCloses(s: State, source: nat)
    requires Lists(s) && Timers(s.active, s.sources, s.nextSource) && source in s.sources
    ensures Timeout(s, source) == Close(s, s.sources[source], 1)
    ensures |Timeout(s, source).closed| == |s.closed| + 1
  {
    OwnerFound(s.active, s.sources, s.nextSource, source);
    var u := Close(s, s.sources[source], 1);
    assert u.sources - {source} == u.sources;
  }

  /** A live timer always finds its notification on screen, so its callback closes it. */
  lemma TimeoutKeeps(s: State, source: nat)
    requires Inv(s) && source in s.sources
    ensures Timeout(s, source) == Close(s, s.sources[source], 1) && Inv(Timeout(s, source))
    ensures |Timeout(s, source).closed| == |s.closed| + 1
  {
    TimeoutCloses(s, source);
    CloseKeeps(s, s.sources[source], 1);
  }

  /** Giving the `i`-th notification a new timer, whatever it had. */
  lemma RestartTimers(active: seq<Note>, sources: map<nat, nat>, next: nat, i: nat, timeout: int)
    requires Timers(active, sources, next) && i < |active|
    ensures Timers(active[i := Note(active[i].id, timeout, next)],
                   StopTimer(sources, active[i].source)[next := active[i].id], next + 1)
  {
    var now := active[i := Note(active[i].id, timeout, next)];
    var live := StopTimer(sources, active[i].source)[next := active[i].id];
    forall src | src in live
      ensures 0 < src < next + 1 && Owned(now, src)
    {
      if src == next {
        assert now[i].source == next;
      } else {
        assert Owned(active, src);
        var j :| 0 <= j < |active| && active[j].source == src;
        assert now[j].source == src;
      }
    }
  }

  lemma PauseTimers(active: seq<Note>, sources: map<nat, nat>, next: nat, i: nat)
    requires Timers(active, sources, next) && i < |active| && active[i].source > 0
    ensures Timers(active[i := active[i].(source := 0)], sources - {active[i].source}, next)
  {
    var now := active[i := active[i].(source := 0)];
    forall src | src in sources && src != active[i].source
      ensures Owned(now, src)
    {
      assert Owned(active, src);
      var j :| 0 <= j < |active| && active[j].source == src;
      assert now[j].source == src;
    }
  }

  /** Signals depend on the ids of the active notifications only. */
  lemma SameIds(active: seq<Note>, now: seq<Note>, shown: seq<nat>, closed: seq<(nat, nat)>)
    requires Signals(active, shown, closed) && |now| == |active|
    requires forall i :: 0 <= i < |now| ==> now[i].id == active[i].id
    ensures Signals(now, shown, closed)
  {
    forall id
      ensures IsActive(active, id) <==> IsActive(now, id)
    {
      if IsActive(active, id) {
        var i :| 0 <= i < |active| && active[i].id == id;
        assert now[i].id == id;
      }
      if IsActive(now, id) {
        var i :| 0 <= i < |now| && now[i].id == id;
        assert active[i].id == id;
      }
    }
  }

  /** So does the order of the lists. */
  lemma SameLists(s: State, t: State)
    requires Lists(s) && t.counter == s.counter && t.created == s.created
    requires |t.active| == |s.active| && |t.history| == |s.history|
    requires forall i :: 0 <= i < |s.active| ==> t.active[i].id == s.active[i].id && t.active[i].timeout > 0
    requires forall i :: 0 <= i < |s.history| ==> t.history[i].id == s.history[i].id
    ensures Lists(t)
  {
  }

  /** A change of timers alone. */
  lemma RetimedKeeps(s: State, active: seq<Note>, sources: map<nat, nat>, next: nat)
    requires Inv(s) && Timers(active, sources, next) && |active| == |s.active|
    requires forall i :: 0 <= i < |active| ==>
      active[i].id == s.active[i].id && active[i].timeout == s.active[i].timeout
    ensures Inv(s.(active := active, sources := sources, nextSource := next))
  {
    SameIds(s.active, active, s.shown, s.closed);
    SameLists(s, s.(active := active, sources := sources, nextSource := next));
  }

  lemma PauseKeeps(s: State, id: nat)
    requires Inv(s)
    ensures Inv(Pause(s, id))
  {
    var i := FindActive(s.active, id);
    if i < |s.active| && s.active[i].source > 0 {
      PauseTimers(s.active, s.sources, s.nextSource, i);
      RetimedKeeps(s, s.active[i := s.active[i].(source := 0)], s.sources - {s.active[i].source}, s.nextSource);
    }
  }

  lemma ResumeTimers(active: seq<Note>, sources: map<nat, nat>, next: nat, i: nat)
    requires Timers(active, sources, next) && i < |active| && active[i].source == 0
    ensures Timers(active[i := active[i].(source := next)], sources[next := active[i].id], next + 1)
  {
    RestartTimers(active, sources, next, i, active[i].timeout);
  }

  lemma ResumedAt(s: State, i: nat, active: seq<Note>, sources: map<nat, nat>)
    requires Inv(s) && i < |s.active| && s.active[i].source == 0
    requires active == s.active[i := s.active[i].(source := s.nextSource)]
    requires sources == s.sources[s.nextSource := s.active[i].id]
    ensures Inv(s.(active := active, sources := sources, nextSource := s.nextSource + 1))
  {
    ResumeTimers(s.active, s.sources, s.nextSource, i);
    RetimedKeeps(s, active, sources, s.nextSource + 1);
  }

  lemma ResumeKeeps(s: State, id: nat)
    requires Inv(s)
    ensures Inv(Resume(s, id))
  {
    var i := FindActive(s.active, id);
    if i < |s.active| && s.active[i].source == 0 {
      ResumedAt(s, i, Resume(s, id).active, Resume(s, id).sources);
    }
  }

  lemma RewriteKeeps(h: seq<Item>, id: nat, c: Content)
    ensures var g := Rewrite(h, id, c);
            |g| == |h| && forall i :: 0 <= i < |h| ==> g[i].id == h[i].id && g[i].value == h[i].value
  {
  }

  lemma ReplaceKeeps(s: State, replacing: nat, c: Content, value: int, timeout: int)
    requires Inv(s) && !s.dnd && replacing != 0 && FindActive(s.active, replacing) < |s.active|
    ensures Inv(Create(s, replacing, c, value, timeout).0)
  {
    var i := FindActive(s.active, replacing);
    RewriteKeeps(s.history, s.active[i].id, c);
    RestartTimers(s.active, s.sources, s.nextSource, i, EffectiveTimeout(timeout));
    var t := Create(s, replacing, c, value, timeout).0;
    assert t.active == s.active[i := Note(s.active[i].id, EffectiveTimeout(timeout), s.nextSource)];
    SameIds(s.active, t.active, s.shown, s.closed);
    SameLists(s, t);
  }

  lemma AppendTimers(active: seq<Note>, sources: map<nat, nat>, next: nat, id: nat, timeout: int)
    requires Timers(active, sources, next)
    ensures Timers(active + [Note(id, timeout, next)], sources[next := id], next + 1)
  {
    var now, live := active + [Note(id, timeout, next)], sources[next := id];
    forall src | src in live
      ensures 0 < src < next + 1 && Owned(now, src)
    {
      if src == next {
        assert now[|active|].source == next;
      } else {
        assert Owned(active, src);
        var j :| 0 <= j < |active| && active[j].source == src;
        assert now[j].source == src;
      }
    }
  }

  lemma AppendSignals(active: seq<Note>, shown: seq<nat>, closed: seq<(nat, nat)>, n: Note)
    requires Signals(active, shown, closed) && forall id :: id in shown ==> id < n.id
    ensures Signals(active + [n], shown + [n.id], closed)
  {
    var now := active + [n];
    assert forall i :: 0 <= i < |shown| ==> shown[i] in shown;
    forall id
      ensures IsActive(now, id) <==> IsActive(active, id) || id == n.id
    {
      if IsActive(active, id) {
        var i :| 0 <= i < |active| && active[i].id == id;
        assert now[i].id == id;
      }
      assert now[|active|].id == n.id;
    }
  }

  lemma NewLists(s: State, n: Note, item: Item)
    requires Lists(s) && n.id == item.id == s.counter && n.timeout > 0 && s.created + 2 < ID_RANGE
    ensures Lists(TakeId(s).(active := s.active + [n], history := AddItem(s.history, item)))
  {
    AddItemKeeps(s.history, item);
  }

  lemma NewKeeps(s: State, replacing: nat, c: Content, value: int, timeout: int)
    requires Inv(s) && !s.dnd && !(replacing != 0 && FindActive(s.active, replacing) < |s.active|)
    requires s.created + 2 < ID_RANGE
    ensures Inv(Create(s, replacing, c, value, timeout).0)
  {
    var n := Note(s.counter, EffectiveTimeout(timeout), s.nextSource);
    NewLists(s, n, Item(s.counter, c, value));
    AppendTimers(s.active, s.sources, s.nextSource, n.id, n.timeout);
    AppendSignals(s.active, s.shown, s.closed, n);
    assert forall id :: id in s.shown + [n.id] ==> id in s.shown || id == n.id;
  }

  lemma SilentKeeps(s: State, replacing: nat, c: Content, value: int, timeout: int)
    requires Inv(s) && s.dnd && Create(s, replacing, c, value, timeout).0.created + 1 < ID_RANGE
    ensures Inv(Create(s, replacing, c, value, timeout).0)
  {
    RewriteKeeps(s.history, replacing, c);
    AddItemKeeps(s.history, Item(s.counter, c, value));
  }

  lemma ClearKeeps(s: State)
    requires Inv(s)
    ensures Inv(s.(history := []))
  {
  }

  lemma DndKeeps(s: State, on: bool)
    requires Inv(s)
    ensures Inv(s.(dnd := on))
  {
  }

  lemma NotifyKeeps(s: State, replacing: nat, c: Content, value: int, timeout: int)
    requires Inv(s) && Create(s, replacing, c, value, timeout).0.created + 1 < ID_RANGE
    ensures Inv(Create(s, replacing, c, value, timeout).0)
  {
    if s.dnd {
      SilentKeeps(s, replacing, c, value, timeout);
    } else if replacing != 0 && FindActive(s.active, replacing) < |s.active| {
      ReplaceKeeps(s, replacing, c, value, timeout);
    } else {
      NewKeeps(s, replacing, c, value, timeout);
    }
  }

  lemma StepKeeps(s: State, e: Event)
    requires Inv(s) && Step(s, e).created + 1 < ID_RANGE
    ensures Inv(Step(s, e))
  {
    match e {
      case Notify(replacing, c, value, timeout) => NotifyKeeps(s, replacing, c, value, timeout);
      case CloseCall(id) => CloseKeeps(s, id, 3);
      case UserAction(id) => CloseKeeps(s, id, 2);
      case Expire(source) => if source in s.sources { TimeoutKeeps(s, source); }
      case Hover(id) => PauseKeeps(s, id);
      case Unhover(id) => ResumeKeeps(s, id);
      case ClearHistory => ClearKeeps(s);
      case SetDnd(on) => DndKeeps(s, on);
    }
  }

  lemma {:induction false} CreatedGrows(s: State, es: seq<Event>)
    ensures s.created <= Run(s, es).created
    decreases |es|
  {
    if es != [] {
      CreatedGrows(Step(s, es[0]), es[1..]);
    }
  }

  lemma {:induction false} RunKeeps(s: State, es: seq<Event>)
    requires Inv(s) && Run(s, es).created + 1 < ID_RANGE
    ensures Inv(Run(s, es))
    decreases |es|
  {
    if es != [] {
      CreatedGrows(Step(s, es[0]), es[1..]);
      CreatedGrows(s, es);
      StepKeeps(s, es[0]);
      RunKeeps(Step(s, es[0]), es[1..]);
    }
  }

  lemma EmptyInv(s: State)
    requires |s.active| == 0 && |s.history| == 0 && |s.shown| == 0 && |s.closed| == 0 && s.sources == map[]
    requires s.nextSource > 0 && s.counter == s.created + 1
    ensures Inv(s)
  {
  }

  lemma InitInv(s: State)
    requires s == Init()
    ensures Inv(s)
  {
    EmptyInv(s);
  }

  /** Every run that does not use up the 32-bit ids. */
  lemma EveryRun(s: State, es: seq<Event>)
    requires s == Init() && Run(s, es).created + 1 < 0x1_0000_0000
    ensures Inv(Run(s, es))
  {
    InitInv(s);
    RunKeeps(s, es);
  }

  // ---- what the operations achieve

  /** A live timer will close the notification. */
  ghost predicate Ticking(s: State, id: nat) {
    exists src :: src in s.sources && s.sources[src] == id
  }

  ghost predicate Armed(active: seq<Note>, id: nat) {
    exists i :: 0 <= i < |active| && active[i].id == id && active[i].source > 0
  }

  lemma TickingIsArmed(s: State, id: nat)
    requires Timers(s.active, s.sources, s.nextSource)
    ensures Ticking(s, id) <==> Armed(s.active, id)
  {
    if Ticking(s, id) {
      var src :| src in s.sources && s.sources[src] == id;
      assert Owned(s.active, src);
      var i :| 0 <= i < |s.active| && s.active[i].source == src;
      assert s.active[i].id == id;
    }
  }

  ghost predicate Ordered(active: seq<Note>) {
    forall i, j :: 0 <= i < j < |active| ==> active[i].id < active[j].id
  }

  /** Setting the timer field of the one notification `id`. */
  lemma SetSource(active: seq<Note>, i: nat, n: Note, x: nat)
    requires Ordered(active) && i < |active| && n.id == active[i].id
    ensures Armed(active[i := n], x) <==> if x == n.id then n.source > 0 else Armed(active, x)
    ensures IsActive(active[i := n], x) <==> IsActive(active, x)
  {
    var now := active[i := n];
    assert now[i].id == n.id && active[i].id == n.id;
    if j :| 0 <= j < |active| && active[j].id == x && active[j].source > 0 && j != i {
      assert now[j] == active[j];
    }
    if j :| 0 <= j < |active| && active[j].id == x {
      assert now[j].id == x;
    }
    if j :| 0 <= j < |active| && now[j].id == x {
      assert active[j].id == x;
    }
  }

  lemma RemovedOther(active: seq<Note>, i: nat, x: nat)
    requires i < |active| && x != active[i].id
    ensures var rest := active[..i] + active[i + 1..];
      (Armed(active, x) ==> Armed(rest, x)) && (IsActive(active, x) ==> IsActive(rest, x))
  {
    var rest := active[..i] + active[i + 1..];
    if j :| 0 <= j < |active| && active[j].id == x && active[j].source > 0 {
      assert rest[if j < i then j else j - 1] == active[j];
    }
    if j :| 0 <= j < |active| && active[j].id == x {
      assert rest[if j < i then j else j - 1] == active[j];
    }
  }

  lemma Removed(active: seq<Note>, i: nat, x: nat)
    requires Ordered(active) && i < |active|
    ensures var rest := active[..i] + active[i + 1..];
      && (Armed(rest, x) <==> Armed(active, x) && x != active[i].id)
      && (IsActive(rest, x) <==> IsActive(active, x) && x != active[i].id)
  {
    if x != active[i].id {
      RemovedOther(active, i, x);
    }
    assert forall j :: 0 <= j < |active| && j != i ==> active[j].id != active[i].id;
    var rest := active[..i] + active[i + 1..];
    assert forall j :: 0 <= j < |rest| ==> rest[j] == active[if j < i then j else j + 1];
  }

  lemma Found(active: seq<Note>, id: nat)
    ensures IsActive(active, id) <==> FindActive(active, id) < |active|
  {
  }

  lemma PauseActive(s: State, id: nat, x: nat)
    requires Ordered(s.active)
    ensures Armed(Pause(s, id).active, x) <==> Armed(s.active, x) && x != id
    ensures IsActive(Pause(s, id).active, x) <==> IsActive(s.active, x)
  {
    var i := FindActive(s.active, id);
    if i < |s.active| {
      SetSource(s.active, i, s.active[i].(source := 0), x);
      SetSource(s.active, i, s.active[i], x);
      assert s.active[i := s.active[i]] == s.active;
    } else {
      Found(s.active, id);
    }
  }

  /** Hovering stops exactly the timer of this notification, and leaves it on screen. */
  lemma PauseStops(s: State, id: nat, x: nat)
    requires Inv(s)
    ensures Ticking(Pause(s, id), x) <==> Ticking(s, x) && x != id
    ensures IsActive(Pause(s, id).active, x) <==> IsActive(s.active, x)
  {
    PauseKeeps(s, id);
    TickingIsArmed(s, x);
    TickingIsArmed(Pause(s, id), x);
    PauseActive(s, id, x);
  }

  /** Leaving it starts a timer exactly if it is on screen without one. */
  lemma ResumeStarts(s: State, id: nat, x: nat)
    requires Inv(s)
    ensures Ticking(Resume(s, id), x) <==> Ticking(s, x) || (x == id && IsActive(s.active, id))
    ensures IsActive(Resume(s, id).active, x) <==> IsActive(s.active, x)
  {
    ResumeKeeps(s, id);
    TickingIsArmed(s, x);
    TickingIsArmed(Resume(s, id), x);
    Found(s.active, id);
    var i := FindActive(s.active, id);
    if i < |s.active| {
      SetSource(s.active, i, s.active[i].(source := s.nextSource), x);
      SetSource(s.active, i, s.active[i], x);
      assert s.active[i := s.active[i]] == s.active;
    }
  }

  lemma CloseActive(s: State, id: nat, reason: nat, x: nat)
    requires Ordered(s.active)
    ensures var t := Close(s, id, reason);
      && (IsActive(t.active, x) <==> IsActive(s.active, x) && x != id)
      && (Armed(t.active, x) <==> Armed(s.active, x) && x != id)
  {
    Found(s.active, id);
    var i := FindActive(s.active, id);
    if i < |s.active| {
      Removed(s.active, i, x);
    }
  }

  /** Closing takes exactly this notification and its timer away and signals it once, or does
      nothing. */
  lemma CloseRemoves(s: State, id: nat, reason: nat, x: nat)
    requires Inv(s)
    ensures var t := Close(s, id, reason);
      && (IsActive(t.active, x) <==> IsActive(s.active, x) && x != id)
      && (Ticking(t, x) <==> Ticking(s, x) && x != id)
      && t.closed == (if IsActive(s.active, id) then s.closed + [(id, reason)] else s.closed)
      && t.history == s.history && t.shown == s.shown
  {
    CloseKeeps(s, id, reason);
    TickingIsArmed(s, x);
    TickingIsArmed(Close(s, id, reason), x);
    Found(s.active, id);
    CloseActive(s, id, reason, x);
  }

  lemma Appended(active: seq<Note>, n: Note, x: nat)
    requires n.source > 0
    ensures Armed(active + [n], x) <==> Armed(active, x) || x == n.id
    ensures IsActive(active + [n], x) <==> IsActive(active, x) || x == n.id
  {
    var now := active + [n];
    assert now[|active|] == n;
    if j :| 0 <= j < |active| && active[j].id == x && active[j].source > 0 {
      assert now[j] == active[j];
    }
    if j :| 0 <= j < |active| && active[j].id == x {
      assert now[j] == active[j];
    }
  }

  /** A request is on screen with a running timer, replacing the notification it names if that
      is on screen and otherwise under a new id; with do-not-disturb nothing on screen changes. */
  lemma CreateShows(s: State, replacing: nat, c: Content, value: int, timeout: int, x: nat)
    requires Inv(s) && s.created + 2 < ID_RANGE
    ensures var (t, id) := Create(s, replacing, c, value, timeout);
      if s.dnd then t.active == s.active && t.sources == s.sources && t.shown == s.shown && t.closed == s.closed
      else
        && (IsActive(t.active, x) <==> IsActive(s.active, x) || x == id)
        && (Ticking(t, x) <==> Ticking(s, x) || x == id)
        && t.closed == s.closed
        && (if replacing != 0 && IsActive(s.active, replacing) then id == replacing && t.shown == s.shown
            else id !in s.shown && t.shown == s.shown + [id])
  {
    if !s.dnd {
      var (t, id) := Create(s, replacing, c, value, timeout);
      Found(s.active, replacing);
      TickingIsArmed(s, x);
      var i := FindActive(s.active, replacing);
      if replacing != 0 && i < |s.active| {
        ReplaceKeeps(s, replacing, c, value, timeout);
        TickingIsArmed(t, x);
        SetSource(s.active, i, Note(s.active[i].id, EffectiveTimeout(timeout), s.nextSource), x);
      } else {
        NewKeeps(s, replacing, c, value, timeout);
        TickingIsArmed(t, x);
        Appended(s.active, Note(s.counter, EffectiveTimeout(timeout), s.nextSource), x);
      }
    }
  }

  ghost predicate Recorded(h: seq<Item>, id: nat) {
    exists i :: 0 <= i < |h| && h[i].id == id
  }

  /** The history keeps the newest text of the request: a replaced item in its place, a new one
      in front of all those before it, of which only a 51st is dropped. */
  lemma CreateRecords(s: State, replacing: nat, c: Content, value: int, timeout: int)
    requires Inv(s)
    ensures var (t, id) := Create(s, replacing, c, value, timeout);
      && (forall i :: 0 <= i < |t.history| && t.history[i].id == id ==> t.history[i].content == c)
      && (t.created > s.created ==> t.history != [] && t.history[0] == Item(id, c, value) && id == s.counter)
      && (t.created == s.created ==> |t.history| == |s.history|)
      && (t.created == s.created ==>
            forall i :: 0 <= i < |s.history| ==>
              t.history[i] == if s.history[i].id == id then s.history[i].(content := c) else s.history[i])
      && (t.created > s.created ==> |t.history| == if |s.history| < 50 then |s.history| + 1 else 50)
      && (t.created > s.created ==> forall i :: 0 <= i && i + 1 < |t.history| ==> t.history[i + 1] == s.history[i])
      && t.created == s.created + (if s.dnd then if replacing != 0 && Recorded(s.history, replacing) then 0 else 1
                                   else if replacing != 0 && IsActive(s.active, replacing) then 0 else 1)
  {
    Found(s.active, replacing);
    AddItemKeeps(s.history, Item(s.counter, c, value));
  }

  /** A request is shown for the time it asks for, or for 5 seconds if it asks for none; it keeps
      the place of the notification it replaces, or comes last. */
  lemma CreatePlaces(s: State, replacing: nat, c: Content, value: int, timeout: int)
    requires !s.dnd
    ensures var (t, id) := Create(s, replacing, c, value, timeout);
      var note := Note(id, if timeout > 0 then timeout else 5000, s.nextSource);
      && s.nextSource in t.sources && t.sources[s.nextSource] == id
      && if replacing != 0 && IsActive(s.active, replacing)
         then exists i :: 0 <= i < |s.active| && s.active[i].id == replacing && t.active == s.active[i := note]
         else t.active == s.active + [note]
  {
    Found(s.active, replacing);
    var i := FindActive(s.active, replacing);
    if replacing != 0 && i < |s.active| {
      var (t, id) := Create(s, replacing, c, value, timeout);
      assert t.active == s.active[i := Note(id, if timeout > 0 then timeout else 5000, s.nextSource)];
    }
  }

  /** Who closes a notification shows in the signal: 1 for its timer, 2 for the user, 3 for a call. */
  lemma CloseReasons(s: State, id: nat, source: nat)
    ensures Step(s, CloseCall(id)).closed == if IsActive(s.active, id) then s.closed + [(id, 3)] else s.closed
    ensures Step(s, UserAction(id)).closed == if IsActive(s.active, id) then s.closed + [(id, 2)] else s.closed
    ensures Step(s, Expire(source)).closed ==
      if source in s.sources && IsActive(s.active, s.sources[source]) then s.closed + [(s.sources[source], 1)]
      else s.closed
    ensures Step(s, Hover(id)).closed == Step(s, Unhover(id)).closed == s.closed
    ensures Step(s, ClearHistory) == s.(history := [])
  {
    Found(s.active, id);
    if source in s.sources {
      Found(s.active, s.sources[source]);
    }
  }

  // ---- the server object

  lemma {:induction false} FoundAt(ns: seq<Note>, id: nat, i: nat)
    requires i <= |ns| && (forall j :: 0 <= j < i ==> ns[j].id != id) && (i < |ns| ==> ns[i].id == id)
    ensures FindActive(ns, id) == i
  {
    var k := FindActive(ns, id);
    assert !(k < i) && !(i < k);
  }

  lemma ItemFoundAt(h: seq<Item>, id: nat, i: nat)
    requires i <= |h| && (forall j :: 0 <= j < i ==> h[j].id != id) && (i < |h| ==> h[i].id == id)
    ensures FindItem(h, id) == i
  {
    var k := FindItem(h, id);
    assert !(k < i) && !(i < k);
  }

  /** The globals of the C file. Every method computes the function above that stands for it. */
  class Server {
    var active: seq<Note>
    var history: seq<Item>
    var counter: nat
    var dnd: bool
    var sources: map<nat, nat>
    var nextSource: nat
    ghost var shown: seq<nat>
    var closed: seq<(nat, nat)>
    ghost var created: nat

    ghost function Whole(): State
      reads this
    {
      State(active, history, counter, dnd, sources, nextSource, shown, closed, created)
    }

    constructor ()
      ensures Whole() == Init() && Inv(Whole())
    {
      active, history, counter, dnd := [], [], 1, false;
      sources, nextSource, shown, closed, created := map[], 1, [], [], 0;
      new;
      InitInv(Whole());
    }

    /** find_active_notification_by_id, as an index. */
    method LookUpActive(id: nat) returns (i: nat)
      ensures i == FindActive(active, id)
    {
      i := 0;
      while i < |active| && active[i].id != id
        invariant i <= |active| && forall j :: 0 <= j < i ==> active[j].id != id
      {
        i := i + 1;
      }
      FoundAt(active, id, i);
    }

    /** find_history_item_by_id, as an index. */
    method LookUpItem(id: nat) returns (i: nat)
      ensures i == FindItem(history, id)
    {
      i := 0;
      while i < |history| && history[i].id != id
        invariant i <= |history| && forall j :: 0 <= j < i ==> history[j].id != id
      {
        i := i + 1;
      }
      ItemFoundAt(history, id, i);
    }

    /** add_to_history. */
    method AddToHistory(item: Item)
      modifies this`history
      ensures history == AddItem(old(history), item)
    {
      history := [item] + history;
      if |history| > MAX_HISTORY {
        history := history[..|history| - 1];
      }
    }

    /** create_new_notification in do-not-disturb mode. */
    method CreateSilently(replacing: nat, c: Content, value: int) returns (id: nat)
      requires dnd
      modifies this
      ensures (Whole(), id) == Create(old(Whole()), replacing, c, value, 0)
    {
      if replacing != 0 {
        var i := LookUpItem(replacing);
        if i < |history| {
          history := history[i := history[i].(content := c)];
          return replacing;
        }
      }
      id := counter;
      counter, created := (counter + 1) % ID_RANGE, created + 1;
      AddToHistory(Item(id, c, value));
    }

    /** create_new_notification for a notification that is on screen. */
    method Refresh(i: nat, c: Content, timeout: int) returns (id: nat)
      requires i < |active|
      modifies this
      ensures id == old(active[i].id)
      ensures Whole() == old(Whole()).(
                history := Rewrite(old(history), id, c),
                active := old(active)[i := Note(id, EffectiveTimeout(timeout), old(nextSource))],
                sources := StopTimer(old(sources), old(active[i].source))[old(nextSource) := id],
                nextSource := old(nextSource) + 1)
    {
      id := active[i].id;
      var k := LookUpItem(id);
      if k < |history| {
        history := history[k := history[k].(content := c)];
      }
      if active[i].source > 0 {
        sources := sources - {active[i].source};
      }
      sources := sources[nextSource := id];
      active := active[i := Note(id, if timeout <= 0 then DEFAULT_TIMEOUT else timeout, nextSource)];
      nextSource := nextSource + 1;
    }

    /** create_new_notification for a new one. */
    method Show(c: Content, value: int, timeout: int) returns (id: nat)
      modifies this
      ensures id == old(counter)
      ensures Whole() == TakeId(old(Whole())).(
                active := old(active) + [Note(id, EffectiveTimeout(timeout), old(nextSource))],
                history := AddItem(old(history), Item(id, c, value)),
                sources := old(sources)[old(nextSource) := id],
                nextSource := old(nextSource) + 1,
                shown := old(shown) + [id])
    {
      id := counter;
      counter, created := (counter + 1) % ID_RANGE, created + 1;
      AddToHistory(Item(id, c, value));
      active := active + [Note(id, if timeout <= 0 then DEFAULT_TIMEOUT else timeout, nextSource)];
      sources := sources[nextSource := id];
      nextSource := nextSource + 1;
      shown := shown + [id];
    }

    /** create_new_notification. */
    method CreateNotification(replacing: nat, c: Content, value: int, timeout: int) returns (id: nat)
      modifies this
      ensures (Whole(), id) == Create(old(Whole()), replacing, c, value, timeout)
    {
      if dnd {
        id := CreateSilently(replacing, c, value);
        return;
      }
      if replacing != 0 {
        var i := LookUpActive(replacing);
        if i < |active| {
          id := Refresh(i, c, timeout);
          return;
        }
      }
      id := Show(c, value, timeout);
    }

    /** close_notification. */
    method CloseNotification(id: nat, reason: nat)
      modifies this
      ensures Whole() == Close(old(Whole()), id, reason)
    {
      var i := LookUpActive(id);
      if i < |active| {
        if active[i].source > 0 {
          sources := sources - {active[i].source};
        }
        active := active[..i] + active[i + 1..];
        closed := closed + [(id, reason)];
      }
    }

    method PauseTimeout(id: nat)
      modifies this
      ensures Whole() == Pause(old(Whole()), id)
    {
      var i := LookUpActive(id);
      if i < |active| && active[i].source > 0 {
        sources := sources - {active[i].source};
        active := active[i := active[i].(source := 0)];
      }
    }

    method ResumeTimeout(id: nat)
      modifies this
      ensures Whole() == Resume(old(Whole()), id)
    {
      var i := LookUpActive(id);
      if i < |active| && active[i].source == 0 {
        active := active[i := active[i].(source := nextSource)];
        sources := sources[nextSource := id];
        nextSource := nextSource + 1;
      }
    }

    /** on_timeout, called for the live source `source`. */
    method OnTimeout(source: nat)
      requires source in sources
      modifies this
      ensures Whole() == Timeout(old(Whole()), source)
    {
      CloseNotification(sources[source], 1);
      sources := sources - {source};
    }
  }
}
