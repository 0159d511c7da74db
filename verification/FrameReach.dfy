/** Runs of the recorder's two threads from one state to another. */
module FrameReach {
  import opened FramePipeline

  ghost predicate Path(run: seq<State>, s: State, t: State) {
    run != [] && run[0] == s && run[|run| - 1] == t && Steps(run)
  }

  /** Some schedule takes the one state to the other. */
  ghost predicate Leads(s: State, t: State) {
    exists run :: Path(run, s, t)
  }

  lemma LeadsSelf(s: State)
    ensures Leads(s, s)
  {
    assert Path([s], s, s);
  }

  lemma {:induction false} LeadsTrans(s: State, t: State, u: State)
    requires Leads(s, t) && Leads(t, u)
    ensures Leads(s, u)
  {
    var a :| Path(a, s, t);
    var b :| Path(b, t, u);
    var run := a + b[1..];
    forall i | 0 <= i < |run| - 1
      ensures Next(run[i], run[i + 1])
    {
      if i < |a| - 1 {
        assert Next(a[i], a[i + 1]);
      } else {
        assert Next(b[i - |a| + 1], b[i - |a| + 1 + 1]);
      }
    }
    assert Path(run, s, u);
  }

  lemma LeadsStep(s: State, a: Action, t: State)
    requires Step(s, a, t)
    ensures Leads(s, t)
  {
    assert Next(s, t);
    assert Path([s, t], s, t);
  }

  /** A step in front of a run. */
  lemma LeadsFirst(s: State, a: Action, t: State, u: State)
    requires Step(s, a, t) && Leads(t, u)
    ensures Leads(s, u)
  {
    LeadsStep(s, a, t);
    LeadsTrans(s, t, u);
  }

  /** A step behind it. */
  lemma LeadsLast(s: State, t: State, a: Action, u: State)
    requires Leads(s, t) && Step(t, a, u)
    ensures Leads(s, u)
  {
    LeadsStep(t, a, u);
    LeadsTrans(s, t, u);
  }

  lemma {:induction false} PathKeeps(run: seq<State>, s: State, t: State)
    requires Path(run, s, t) && Inv(s)
    ensures Inv(t) && t.ring.cap == s.ring.cap && (s.exit ==> t.exit)
    decreases |run|
  {
    if |run| > 1 {
      assert Next(run[0], run[0 + 1]);
      var a :| Step(s, a, run[1]);
      StepPreserves(s, a, run[1]);
      assert Path(run[1..], run[1], t);
      PathKeeps(run[1..], run[1], t);
    }
  }

  lemma LeadsKeeps(s: State, t: State)
    requires Leads(s, t) && Inv(s)
    ensures Inv(t) && t.ring.cap == s.ring.cap && (s.exit ==> t.exit)
  {
    var run :| Path(run, s, t);
    PathKeeps(run, s, t);
  }

  ghost predicate Reachable(s: State, cap: nat) {
    exists r :: Init(r, cap) && Leads(r, s)
  }

  lemma ReachInv(s: State, cap: nat)
    requires Reachable(s, cap)
    ensures Inv(s) && s.ring.cap == cap
  {
    var r :| Init(r, cap) && Leads(r, s);
    InitInv(r, cap);
    LeadsKeeps(r, s);
  }

  lemma ReachNext(s: State, a: Action, t: State, cap: nat)
    requires Reachable(s, cap) && Step(s, a, t)
    ensures Reachable(t, cap)
  {
    var r :| Init(r, cap) && Leads(r, s);
    LeadsLast(r, s, a, t);
  }

  lemma {:induction false} Unused(slots: seq<nat>) returns (n: nat)
    ensures forall b :: b in slots ==> b < n
  {
    if slots == [] {
      n := 0;
    } else {
      var m := Unused(slots[1..]);
      n := if slots[0] < m then m else slots[0] + 1;
      assert slots == [slots[0]] + slots[1..];
    }
  }
}
