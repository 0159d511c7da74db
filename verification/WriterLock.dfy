/** The two-lock entry to the muxer's write section (aether-recorder/src/frame-writer.cpp:997-1013),
    for any number of threads. */
module WriterLock {

  /** Where a thread stands: outside, blocked on pending_mutex, holding it and blocked on fmt_mutex,
      holding both, or writing. */
  datatype Pc = Outside | Asking | Waiting | Both | Writing

  datatype Lock = Unlocked | By(thread: nat)

  datatype State = State(pcs: seq<Pc>, pending: Lock, fmt: Lock)

  datatype Step = Ask(t: nat) | LockPending(t: nat) | LockFmt(t: nat) | UnlockPending(t: nat) | UnlockFmt(t: nat)

  predicate Enabled(s: State, e: Step) {
    && e.t < |s.pcs|
    && match e
       case Ask(t) => s.pcs[t] == Outside
       case LockPending(t) => s.pcs[t] == Asking && s.pending == Unlocked
       case LockFmt(t) => s.pcs[t] == Waiting && s.fmt == Unlocked
       case UnlockPending(t) => s.pcs[t] == Both
       case UnlockFmt(t) => s.pcs[t] == Writing
  }

  function Apply(s: State, e: Step): State
    requires Enabled(s, e)
  {
    match e
    case Ask(t) => s.(pcs := s.pcs[t := Asking])
    case LockPending(t) => s.(pcs := s.pcs[t := Waiting], pending := By(t))
    case LockFmt(t) => s.(pcs := s.pcs[t := Both], fmt := By(t))
    case UnlockPending(t) => s.(pcs := s.pcs[t := Writing], pending := Unlocked)
    case UnlockFmt(t) => s.(pcs := s.pcs[t := Outside], fmt := Unlocked)
  }

  /** Each mutex is held by exactly the thread whose place says so. */
  ghost predicate Inv(s: State) {
    && (forall t: nat :: s.pending == By(t) <==> t < |s.pcs| && s.pcs[t] in {Waiting, Both})
    && (forall t: nat :: s.fmt == By(t) <==> t < |s.pcs| && s.pcs[t] in {Both, Writing})
  }

  ghost predicate Start(s: State) {
    s.pending == Unlocked && s.fmt == Unlocked && forall t :: 0 <= t < |s.pcs| ==> s.pcs[t] == Outside
  }

  ghost predicate Next(s: State, e: Step, n: State) { Enabled(s, e) && n == Apply(s, e) }

  ghost predicate Run(ss: seq<State>, es: seq<Step>) {
    && |ss| == |es| + 1 && Start(ss[0])
    && forall i :: 0 <= i < |es| ==> Next(ss[i], es[i], ss[i + 1])
  }

  lemma StepKeeps(s: State, e: Step)
    requires Inv(s) && Enabled(s, e)
    ensures Inv(Apply(s, e))
  {
  }

  lemma {:induction false} RunInv(ss: seq<State>, es: seq<Step>, k: nat)
    requires Run(ss, es) && k < |ss|
    ensures Inv(ss[k])
  {
    if k > 0 {
      RunInv(ss, es, k - 1);
      assert Next(ss[k - 1], es[k - 1], ss[k]);
      StepKeeps(ss[k - 1], es[k - 1]);
    }
  }

  /** The thread may write: it has taken fmt_mutex and not given it back. */
  predicate Inside(s: State, t: nat) {
    t < |s.pcs| && s.pcs[t] in {Both, Writing}
  }

  /** In every run at most one thread is in the write section. */
  lemma MutualExclusion(ss: seq<State>, es: seq<Step>, k: nat, t: nat, u: nat)
    requires Run(ss, es) && k < |ss| && Inside(ss[k], t) && Inside(ss[k], u)
    ensures t == u
  {
    RunInv(ss, es, k);
    assert ss[k].fmt == By(t) && ss[k].fmt == By(u);
  }

  predicate AtFmt(s: State, t: nat) { t < |s.pcs| && s.pcs[t] == Waiting }

  /** Steps `i` up to `j` in which `t` does not move on. */
  ghost predicate StaysAt(es: seq<Step>, i: nat, j: nat, t: nat) {
    i <= j <= |es| && forall k :: i <= k < j ==> es[k] != LockFmt(t)
  }

  lemma {:induction false} Waits(ss: seq<State>, es: seq<Step>, i: nat, j: nat, t: nat)
    requires Run(ss, es) && StaysAt(es, i, j, t) && AtFmt(ss[i], t)
    ensures AtFmt(ss[j], t)
    decreases j
  {
    if i < j {
      Waits(ss, es, i, j - 1, t);
      assert Next(ss[j - 1], es[j - 1], ss[j]);
    }
  }

  /** While a thread holds pending_mutex and waits, nobody enters before it: the thread that
      releases fmt_mutex can neither take it again nor even ask for it. */
  lemma NotOvertaken(ss: seq<State>, es: seq<Step>, i: nat, j: nat, t: nat)
    requires Run(ss, es) && StaysAt(es, i, j, t) && AtFmt(ss[i], t)
    ensures forall k :: i <= k < j ==> !es[k].LockFmt? && !es[k].LockPending?
  {
    forall k | i <= k < j
      ensures !es[k].LockFmt? && !es[k].LockPending?
    {
      Waits(ss, es, i, k, t);
      RunInv(ss, es, k);
      assert Next(ss[k], es[k], ss[k + 1]);
      assert ss[k].pending == By(t);
      var u := es[k].t;
      assert u < |ss[k].pcs| && ss[k].pcs[u] == Waiting ==> ss[k].pending == By(u);
    }
  }

  lemma {:induction false} Unentered(ss: seq<State>, es: seq<Step>, a: nat, b: nat)
    requires Run(ss, es) && a <= b <= |es| && ss[a].fmt == Unlocked
    requires forall k :: a <= k < b ==> !es[k].LockFmt?
    ensures ss[b].fmt == Unlocked
    decreases b
  {
    if a < b {
      Unentered(ss, es, a, b - 1);
      assert Next(ss[b - 1], es[b - 1], ss[b]);
    }
  }

  /** It waits for at most one thread to leave. */
  lemma OneLeaves(ss: seq<State>, es: seq<Step>, i: nat, j: nat, t: nat, a: nat, b: nat)
    requires Run(ss, es) && StaysAt(es, i, j, t) && AtFmt(ss[i], t) && i <= a < b < j && es[a].UnlockFmt?
    ensures !es[b].UnlockFmt?
  {
    NotOvertaken(ss, es, i, j, t);
    assert Next(ss[a], es[a], ss[a + 1]);
    Unentered(ss, es, a + 1, b);
    RunInv(ss, es, b);
    assert Next(ss[b], es[b], ss[b + 1]);
    assert forall u: nat :: ss[b].fmt != By(u);
  }

  /** Nobody is stuck: as long as a thread is not outside, some thread that is not can move. */
  lemma NoDeadlock(ss: seq<State>, es: seq<Step>, k: nat, t: nat)
    requires Run(ss, es) && k < |ss| && t < |ss[k].pcs| && ss[k].pcs[t] != Outside
    ensures exists e: Step :: !e.Ask? && Enabled(ss[k], e)
  {
    var s := ss[k];
    RunInv(ss, es, k);
    if s.fmt.By? {
      var u := s.fmt.thread;
      assert Enabled(s, UnlockPending(u)) || Enabled(s, UnlockFmt(u));
    } else if s.pending.By? {
      assert Enabled(s, LockFmt(s.pending.thread));
    } else {
      assert s.pending != By(t) && s.fmt != By(t);
      assert Enabled(s, LockPending(t));
    }
  }

  // ---- everyone gets in

  /** These steps lead from `s` to `n`. */
  ghost predicate Leads(s: State, es: seq<Step>, n: State)
    decreases |es|
  {
    if es == [] then s == n else Enabled(s, es[0]) && Leads(Apply(s, es[0]), es[1..], n)
  }

  lemma {:induction false} LeadsOn(s: State, es: seq<Step>, n: State, e: Step)
    requires Inv(s) && Leads(s, es, n) && Enabled(n, e)
    ensures Leads(s, es + [e], Apply(n, e)) && Inv(Apply(n, e)) && |Apply(n, e).pcs| == |s.pcs|
    decreases |es|
  {
    if es == [] {
      StepKeeps(s, e);
    } else {
      assert (es + [e])[1..] == es[1..] + [e];
      StepKeeps(s, es[0]);
      LeadsOn(Apply(s, es[0]), es[1..], n, e);
    }
  }

  /** The thread in the section leaves it, if there is one. */
  lemma Leaves(s: State) returns (es: seq<Step>, n: State)
    requires Inv(s)
    ensures Leads(s, es, n) && Inv(n) && |n.pcs| == |s.pcs| && n.fmt == Unlocked
    ensures |es| <= if s.fmt == s.pending then 2 else 1
    ensures n.pending == if s.fmt == s.pending then Unlocked else s.pending
  {
    es, n := [], s;
    if s.fmt.By? {
      var u := s.fmt.thread;
      if s.pcs[u] == Both {
        LeadsOn(s, es, n, UnlockPending(u));
        es, n := es + [UnlockPending(u)], Apply(n, UnlockPending(u));
      } else {
        assert s.pending != By(u);
      }
      LeadsOn(s, es, n, UnlockFmt(u));
      es, n := es + [UnlockFmt(u)], Apply(n, UnlockFmt(u));
    }
  }

  /** So does the one waiting for it, if there is one. */
  lemma BothLeave(s: State) returns (es: seq<Step>, n: State)
    requires Inv(s)
    ensures Leads(s, es, n) && Inv(n) && |n.pcs| == |s.pcs| && n.pending == n.fmt == Unlocked && |es| <= 4
  {
    es, n := Leaves(s);
    if n.pending.By? {
      var v := n.pending.thread;
      LeadsOn(s, es, n, LockFmt(v));
      es, n := es + [LockFmt(v)], Apply(n, LockFmt(v));
      LeadsOn(s, es, n, UnlockPending(v));
      es, n := es + [UnlockPending(v)], Apply(n, UnlockPending(v));
      LeadsOn(s, es, n, UnlockFmt(v));
      es, n := es + [UnlockFmt(v)], Apply(n, UnlockFmt(v));
    }
  }

  /** At every moment of every run every thread can be the one that writes, eight steps later at
      most. */
  lemma EveryoneWrites(ss: seq<State>, es: seq<Step>, k: nat, t: nat) returns (more: seq<Step>, n: State)
    requires Run(ss, es) && k < |ss| && t < |ss[k].pcs|
    ensures Leads(ss[k], more, n) && t < |n.pcs| && n.pcs[t] == Writing && |more| <= 8
  {
    RunInv(ss, es, k);
    more, n := BothLeave(ss[k]);
    assert n.pending != By(t) && n.fmt != By(t);
    if n.pcs[t] == Outside {
      LeadsOn(ss[k], more, n, Ask(t));
      more, n := more + [Ask(t)], Apply(n, Ask(t));
    }
    LeadsOn(ss[k], more, n, LockPending(t));
    more, n := more + [LockPending(t)], Apply(n, LockPending(t));
    LeadsOn(ss[k], more, n, LockFmt(t));
    more, n := more + [LockFmt(t)], Apply(n, LockFmt(t));
    LeadsOn(ss[k], more, n, UnlockPending(t));
    more, n := more + [UnlockPending(t)], Apply(n, UnlockPending(t));
  }
}
