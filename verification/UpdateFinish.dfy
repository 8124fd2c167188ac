/** No interleaving of the update flag's users gets stuck: from every state that can be reached, all of them can
    still come to their end. */
module UpdateFinish {
  import opened Wrappers
  import opened UpdateFlag

  /** Steps to the end along the shortest way. */
  function Left(pc: Pc): nat {
    match pc
    case Done => 0
    case Cleared => 1
    case Refusing => 1
    case Clearing => 2
    case Leaving => 3
    case EarlyCleared => 4
    case EarlyClearing => 5
    case Unsupported => 6
    case Inside => 4
    case Recording => 5
    case Claimed => 7
    case Claiming => 8
    case Testing => 9
    case Start => 10
  }

  function AllLeft(pcs: seq<Pc>): nat {
    if pcs == [] then 0 else Left(pcs[0]) + AllLeft(pcs[1..])
  }

  lemma {:induction false} LessLeft(pcs: seq<Pc>, p: nat, pc: Pc)
    requires p < |pcs| && Left(pc) < Left(pcs[p])
    ensures AllLeft(pcs[p := pc]) < AllLeft(pcs)
  {
    hide Left;
    if p > 0 {
      assert pcs[p := pc][1..] == pcs[1..][p - 1 := pc];
      LessLeft(pcs[1..], p - 1, pc);
    } else {
      assert pcs[p := pc][1..] == pcs[1..];
    }
  }

  /** The holder of the mutex can go on; without one, whoever is not done can. */
  lemma SomeStep(kinds: seq<Kind>, s: State, q: nat) returns (p: nat, t: State)
    requires MutexInv(kinds, s) && q < |s.pcs| && !s.pcs[q].Done?
    ensures Step(kinds, s, p, t) && t.pcs == s.pcs[p := t.pcs[p]] && Left(t.pcs[p]) < Left(s.pcs[p])
  {
    p := if s.mu.Some? then s.mu.value else q;
    var pc := s.pcs[p];
    if s.mu.None? {
      t := if AfterLock(pc).Some? && !pc.Inside? then State(s.running, Some(p), s.pcs[p := AfterLock(pc).value])
           else if pc.Claimed? then s.(pcs := s.pcs[p := if LeavesEarly(kinds[p]) then Unsupported else Inside])
           else s.(pcs := s.pcs[p := Leaving]);
    } else if AfterUnlock(pc).Some? {
      t := State(s.running, None, s.pcs[p := AfterUnlock(pc).value]);
    } else if pc.Testing? {
      t := if s.running then s.(pcs := s.pcs[p := Refusing]) else State(true, s.mu, s.pcs[p := Claiming]);
    } else {
      t := State(false, s.mu, s.pcs[p := if pc.Clearing? then Cleared else EarlyCleared]);
    }
  }

  /** A run that starts in a given state. */
  ghost predicate RunFrom(kinds: seq<Kind>, s: State, states: seq<State>) {
    && states != [] && states[0] == s
    && forall i :: 0 <= i < |states| - 1 ==> Next(kinds, states[i], states[i + 1])
  }

  predicate AllDone(s: State) {
    forall i :: 0 <= i < |s.pcs| ==> s.pcs[i].Done?
  }

  lemma LongerRun(kinds: seq<Kind>, s: State, p: nat, t: State, states: seq<State>)
    requires Step(kinds, s, p, t) && RunFrom(kinds, t, states)
    ensures RunFrom(kinds, s, [s] + states)
  {
    hide Step;
    var longer := [s] + states;
    forall i | 0 <= i < |longer| - 1 ensures Next(kinds, longer[i], longer[i + 1]) {
      if i > 0 {
        assert Next(kinds, states[i - 1], states[i - 1 + 1]);
      }
    }
  }

  lemma {:induction false} Finish(kinds: seq<Kind>, s: State) returns (states: seq<State>)
    requires MutexInv(kinds, s)
    ensures RunFrom(kinds, s, states) && AllDone(states[|states| - 1])
    decreases AllLeft(s.pcs)
  {
    hide MutexInv, Step, Next, Left;
    if AllDone(s) {
      states := [s];
    } else {
      var q :| 0 <= q < |s.pcs| && !s.pcs[q].Done?;
      var p, t := SomeStep(kinds, s, q);
      StepInRange(kinds, s, p, t);
      LessLeft(s.pcs, p, t.pcs[p]);
      MutexKept(kinds, s, p, t);
      states := Finish(kinds, t);
      LongerRun(kinds, s, p, t, states);
      states := [s] + states;
    }
  }

  lemma StepInRange(kinds: seq<Kind>, s: State, p: nat, t: State)
    requires Step(kinds, s, p, t)
    ensures p < |s.pcs|
  {
  }

  /** Whatever the writers, every reachable state has a run to the end of all processes; the flag is clear there. */
  lemma CanFinish(kinds: seq<Kind>, s: State) returns (states: seq<State>)
    requires Reachable(kinds, s)
    ensures RunFrom(kinds, s, states) && AllDone(states[|states| - 1]) && !states[|states| - 1].running
  {
    hide Step, Next, MutexInv, PathInv, NotStuck;
    var before :| before != [] && Run(kinds, before) && before[|before| - 1] == s;
    RunKeepsPaths(kinds, before, |before| - 1);
    states := Finish(kinds, s);
    RunReaches(kinds, s, states, |states| - 1);
    DoneIsClear(kinds, states[|states| - 1]);
  }

  lemma {:induction false} RunReaches(kinds: seq<Kind>, s: State, states: seq<State>, i: nat)
    requires Reachable(kinds, s) && RunFrom(kinds, s, states) && i < |states|
    ensures Reachable(kinds, states[i])
    decreases i
  {
    hide Step, Reachable;
    if i > 0 {
      RunReaches(kinds, s, states, i - 1);
      assert Next(kinds, states[i - 1], states[i - 1 + 1]);
      var p :| Step(kinds, states[i - 1], p, states[i]);
      ReachNext(kinds, states[i - 1], p, states[i]);
    }
  }
}
