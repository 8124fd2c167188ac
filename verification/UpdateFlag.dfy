/** The shared pserver-update flag under every interleaving of its users (internal/api/server.go,
    handlers.go, handlers_pserver_selfservice.go). Each process is a background job, a manual update or a
    self-upgrade; a manual update whose response writer cannot flush leaves early and clears the flag twice. */
module UpdateFlag {
  import opened Wrappers

  datatype Kind = Background | Manual(canFlush: bool) | SelfUpgrade

  /** Where a process stands. The states from Testing to Clearing name the statement about to run; the
      ones marked locked run with the mutex held. */
  datatype Pc =
    | Start          // before the lock
    | Testing        // locked: about to test running
    | Refusing       // locked: found it set, about to unlock and report the conflict
    | Claiming       // locked: set it, about to unlock
    | Claimed        // unlocked; about to look for a flushing writer, or to update
    | Inside         // running the update script or archiving
    | Recording      // locked, from Inside: writing lastErr or lastVersion
    | Unsupported    // the writer cannot flush; about to lock
    | EarlyClearing  // locked: about to clear the flag on the early exit
    | EarlyCleared   // locked: cleared it, about to unlock
    | Leaving        // the deferred function, about to lock
    | Clearing       // locked: about to clear the flag
    | Cleared        // locked: cleared it, about to unlock
    | Done

  predicate Locked(pc: Pc) {
    pc.Testing? || pc.Refusing? || pc.Claiming? || pc.Recording? || pc.EarlyClearing? || pc.EarlyCleared?
    || pc.Clearing? || pc.Cleared?
  }

  datatype State = State(running: bool, mu: Option<nat>, pcs: seq<Pc>)

  function Init(kinds: seq<Kind>): State {
    State(false, None, seq(|kinds|, i => Start))
  }

  /** Only a manual update without a flushing writer takes the early exit. */
  predicate LeavesEarly(k: Kind) {
    k.Manual? && !k.canFlush
  }

  // ---------- Steps ----------

  /** Taking the mutex. */
  function AfterLock(pc: Pc): Option<Pc> {
    match pc
    case Start => Some(Testing)
    case Inside => Some(Recording)
    case Unsupported => Some(EarlyClearing)
    case Leaving => Some(Clearing)
    case _ => None
  }

  /** Releasing the mutex. */
  function AfterUnlock(pc: Pc): Option<Pc> {
    match pc
    case Refusing => Some(Done)
    case Claiming => Some(Claimed)
    case Recording => Some(Inside)
    case EarlyCleared => Some(Leaving)
    case Cleared => Some(Done)
    case _ => None
  }

  predicate LockStep(s: State, p: nat, t: State)
    requires p < |s.pcs|
  {
    s.mu == None && AfterLock(s.pcs[p]).Some? && t == State(s.running, Some(p), s.pcs[p := AfterLock(s.pcs[p]).value])
  }

  predicate UnlockStep(s: State, p: nat, t: State)
    requires p < |s.pcs|
  {
    s.mu == Some(p) && AfterUnlock(s.pcs[p]).Some? && t == State(s.running, None, s.pcs[p := AfterUnlock(s.pcs[p]).value])
  }

  /** Testing and setting the flag, and clearing it, all under the mutex. */
  predicate FlagStep(s: State, p: nat, t: State)
    requires p < |s.pcs|
  {
    s.mu == Some(p) &&
    match s.pcs[p]
    case Testing => t == if s.running then s.(pcs := s.pcs[p := Refusing]) else State(true, s.mu, s.pcs[p := Claiming])
    case EarlyClearing => t == State(false, s.mu, s.pcs[p := EarlyCleared])
    case Clearing => t == State(false, s.mu, s.pcs[p := Cleared])
    case _ => false
  }

  /** Moves without the mutex: into the update, to the early exit, out of the update. */
  predicate FreeStep(kinds: seq<Kind>, s: State, p: nat, t: State)
    requires p < |s.pcs| == |kinds|
  {
    match s.pcs[p]
    case Claimed => t == s.(pcs := s.pcs[p := if LeavesEarly(kinds[p]) then Unsupported else Inside])
    case Inside => t == s.(pcs := s.pcs[p := Leaving])
    case _ => false
  }

  predicate Step(kinds: seq<Kind>, s: State, p: nat, t: State) {
    && p < |s.pcs| == |kinds|
    && (LockStep(s, p, t) || UnlockStep(s, p, t) || FlagStep(s, p, t) || FreeStep(kinds, s, p, t))
  }

  ghost predicate Next(kinds: seq<Kind>, s: State, t: State) {
    exists p :: Step(kinds, s, p, t)
  }

  ghost predicate Run(kinds: seq<Kind>, states: seq<State>) {
    && states != [] && states[0] == Init(kinds)
    && forall i :: 0 <= i < |states| - 1 ==> Next(kinds, states[i], states[i + 1])
  }

  ghost predicate Reachable(kinds: seq<Kind>, s: State) {
    exists states :: states != [] && Run(kinds, states) && states[|states| - 1] == s
  }

  // ---------- Claims ----------

  /** In the update section: the update script may be running. */
  predicate InUpdate(pc: Pc) {
    pc.Inside? || pc.Recording?
  }

  predicate Exclusive(s: State) {
    forall i, j :: 0 <= i < |s.pcs| && 0 <= j < |s.pcs| && InUpdate(s.pcs[i]) && InUpdate(s.pcs[j]) ==> i == j
  }

  predicate FlagShows(s: State) {
    forall i :: 0 <= i < |s.pcs| && InUpdate(s.pcs[i]) ==> s.running
  }

  /** Between setting the flag and the deferred clearing of it. */
  predicate Holding(pc: Pc) {
    pc.Claiming? || pc.Claimed? || pc.Inside? || pc.Recording? || pc.Unsupported? || pc.EarlyClearing?
    || pc.EarlyCleared? || pc.Leaving? || pc.Clearing?
  }

  predicate AllFlush(kinds: seq<Kind>) {
    forall i :: 0 <= i < |kinds| ==> !LeavesEarly(kinds[i])
  }

  // ---------- The mutex ----------

  predicate MutexInv(kinds: seq<Kind>, s: State) {
    && |s.pcs| == |kinds|
    && (forall i :: 0 <= i < |s.pcs| ==> (Locked(s.pcs[i]) <==> s.mu == Some(i)))
    && (s.mu.Some? ==> s.mu.value < |s.pcs|)
  }

  lemma MutexKept(kinds: seq<Kind>, s: State, p: nat, t: State)
    requires MutexInv(kinds, s) && Step(kinds, s, p, t)
    ensures MutexInv(kinds, t)
  {
  }

  /** Processes that leave early never get into the update section, and the others never leave early. */
  predicate PathInv(kinds: seq<Kind>, s: State) {
    && |s.pcs| == |kinds|
    && forall i :: 0 <= i < |kinds| ==>
         && (LeavesEarly(kinds[i]) ==> !InUpdate(s.pcs[i]))
         && (!LeavesEarly(kinds[i]) ==> !s.pcs[i].Unsupported? && !s.pcs[i].EarlyClearing? && !s.pcs[i].EarlyCleared?)
  }

  lemma PathKept(kinds: seq<Kind>, s: State, p: nat, t: State)
    requires PathInv(kinds, s) && Step(kinds, s, p, t)
    ensures PathInv(kinds, t)
  {
  }

  // ---------- With flushing writers ----------

  /** At most one process holds the flag, and the flag is set exactly when one does. */
  ghost predicate FlagInv(s: State) {
    && (forall i, j :: 0 <= i < |s.pcs| && 0 <= j < |s.pcs| && Holding(s.pcs[i]) && Holding(s.pcs[j]) ==> i == j)
    && (s.running <==> exists i :: 0 <= i < |s.pcs| && Holding(s.pcs[i]))
  }

  lemma FlagKept(kinds: seq<Kind>, s: State, p: nat, t: State)
    requires AllFlush(kinds) && MutexInv(kinds, s) && PathInv(kinds, s) && FlagInv(s) && Step(kinds, s, p, t)
    ensures FlagInv(t)
  {
    assert forall i :: 0 <= i < |s.pcs| && i != p ==> t.pcs[i] == s.pcs[i];
    assert !s.pcs[p].EarlyClearing? && !s.pcs[p].EarlyCleared?;
    if Holding(t.pcs[p]) && t.running {
    } else if i :| 0 <= i < |s.pcs| && Holding(s.pcs[i]) {
      assert i == p || Holding(t.pcs[i]);
    }
  }

  lemma {:induction false} RunKeepsFlag(kinds: seq<Kind>, states: seq<State>, i: nat)
    requires AllFlush(kinds) && Run(kinds, states) && i < |states|
    ensures MutexInv(kinds, states[i]) && PathInv(kinds, states[i]) && FlagInv(states[i])
    decreases i
  {
    hide MutexInv, PathInv, FlagInv, Step, AllFlush;
    if i == 0 {
      InitInv(kinds);
    } else {
      RunKeepsFlag(kinds, states, i - 1);
      assert Next(kinds, states[i - 1], states[i - 1 + 1]);
      var p :| Step(kinds, states[i - 1], p, states[i]);
      MutexKept(kinds, states[i - 1], p, states[i]);
      PathKept(kinds, states[i - 1], p, states[i]);
      FlagKept(kinds, states[i - 1], p, states[i]);
    }
  }

  lemma InitInv(kinds: seq<Kind>)
    ensures MutexInv(kinds, Init(kinds)) && PathInv(kinds, Init(kinds)) && FlagInv(Init(kinds))
  {
  }

  /** With flushing writers, in every interleaving of any number of processes at most one is in the update
      section, and running is set exactly while one holds the flag. */
  lemma FlushingIsSafe(kinds: seq<Kind>, s: State)
    requires AllFlush(kinds) && Reachable(kinds, s)
    ensures Exclusive(s) && FlagShows(s)
    ensures s.running <==> exists i :: 0 <= i < |s.pcs| && Holding(s.pcs[i])
  {
    hide MutexInv, PathInv, Step, Run, AllFlush;
    var states :| states != [] && Run(kinds, states) && states[|states| - 1] == s;
    RunKeepsFlag(kinds, states, |states| - 1);
    assert forall i :: 0 <= i < |s.pcs| && InUpdate(s.pcs[i]) ==> Holding(s.pcs[i]);
  }

  // ---------- With any writers ----------

  /** Whoever set the flag last is still to clear it. */
  ghost predicate NotStuck(s: State) {
    s.running ==> exists i :: 0 <= i < |s.pcs| && Holding(s.pcs[i])
  }

  lemma NotStuckKept(kinds: seq<Kind>, s: State, p: nat, t: State)
    requires MutexInv(kinds, s) && NotStuck(s) && Step(kinds, s, p, t)
    ensures NotStuck(t)
  {
    assert forall i :: 0 <= i < |s.pcs| && i != p ==> t.pcs[i] == s.pcs[i];
    if t.running {
      if s.running {
        var i :| 0 <= i < |s.pcs| && Holding(s.pcs[i]);
        assert Holding(t.pcs[i]);
      } else {
        assert Holding(t.pcs[p]);
      }
    }
  }

  lemma {:induction false} RunKeepsPaths(kinds: seq<Kind>, states: seq<State>, i: nat)
    requires Run(kinds, states) && i < |states|
    ensures MutexInv(kinds, states[i]) && PathInv(kinds, states[i]) && NotStuck(states[i])
    decreases i
  {
    hide MutexInv, PathInv, NotStuck, Step;
    if i == 0 {
      InitInv(kinds);
      assert NotStuck(Init(kinds)) by {
        InitNotStuck(kinds);
      }
    } else {
      RunKeepsPaths(kinds, states, i - 1);
      assert Next(kinds, states[i - 1], states[i - 1 + 1]);
      var p :| Step(kinds, states[i - 1], p, states[i]);
      MutexKept(kinds, states[i - 1], p, states[i]);
      PathKept(kinds, states[i - 1], p, states[i]);
      NotStuckKept(kinds, states[i - 1], p, states[i]);
    }
  }

  lemma InitNotStuck(kinds: seq<Kind>)
    ensures NotStuck(Init(kinds))
  {
  }

  /** Whatever the writers, once every process is done the flag is clear again, so no update is locked out. */
  lemma DoneIsClear(kinds: seq<Kind>, s: State)
    requires Reachable(kinds, s) && forall i :: 0 <= i < |s.pcs| ==> s.pcs[i].Done?
    ensures !s.running && s.mu == None
  {
    hide Step, Run;
    var states :| states != [] && Run(kinds, states) && states[|states| - 1] == s;
    RunKeepsPaths(kinds, states, |states| - 1);
  }

  /** At most one process that does not leave early. */
  predicate OneEnters(kinds: seq<Kind>) {
    forall i, j :: 0 <= i < |kinds| && 0 <= j < |kinds| && !LeavesEarly(kinds[i]) && !LeavesEarly(kinds[j]) ==> i == j
  }

  predicate NoneEnters(kinds: seq<Kind>) {
    forall i :: 0 <= i < |kinds| ==> LeavesEarly(kinds[i])
  }

  lemma ReachablePaths(kinds: seq<Kind>, s: State)
    requires Reachable(kinds, s)
    ensures PathInv(kinds, s)
  {
    hide Step, Run, PathInv;
    var states :| states != [] && Run(kinds, states) && states[|states| - 1] == s;
    RunKeepsPaths(kinds, states, |states| - 1);
  }

  // ---------- Runs that break the claims ----------

  lemma InitReachable(kinds: seq<Kind>)
    ensures Reachable(kinds, Init(kinds))
  {
    assert Run(kinds, [Init(kinds)]);
  }

  lemma ReachNext(kinds: seq<Kind>, s: State, p: nat, t: State)
    requires Reachable(kinds, s) && Step(kinds, s, p, t)
    ensures Reachable(kinds, t)
  {
    hide Step;
    var states :| states != [] && Run(kinds, states) && states[|states| - 1] == s;
    var longer := states + [t];
    assert forall i :: 0 <= i < |states| ==> longer[i] == states[i];
    forall i | 0 <= i < |longer| - 1 ensures Next(kinds, longer[i], longer[i + 1]) {
      if i < |states| - 1 {
        assert Next(kinds, states[i], states[i + 1]);
      }
    }
    assert longer[|longer| - 1] == t;
  }

  /** A process that finds the flag clear claims it. */
  lemma ClaimFlag(kinds: seq<Kind>, s: State, p: nat) returns (t: State)
    requires Reachable(kinds, s) && p < |s.pcs| == |kinds| && s.pcs[p].Start? && s.mu == None && !s.running
    ensures Reachable(kinds, t) && t == State(true, None, s.pcs[p := Claimed])
  {
    hide Reachable;
    var a := State(false, Some(p), s.pcs[p := Testing]);
    ReachNext(kinds, s, p, a);
    var b := State(true, Some(p), s.pcs[p := Claiming]);
    assert b.pcs == a.pcs[p := Claiming];
    ReachNext(kinds, a, p, b);
    t := State(true, None, s.pcs[p := Claimed]);
    assert t.pcs == b.pcs[p := Claimed];
    ReachNext(kinds, b, p, t);
  }

  lemma EnterUpdate(kinds: seq<Kind>, s: State, p: nat) returns (t: State)
    requires Reachable(kinds, s) && p < |s.pcs| == |kinds| && s.pcs[p].Claimed? && !LeavesEarly(kinds[p])
    ensures Reachable(kinds, t) && t == s.(pcs := s.pcs[p := Inside])
  {
    hide Reachable;
    t := s.(pcs := s.pcs[p := Inside]);
    ReachNext(kinds, s, p, t);
  }

  /** The early exit clears the flag and leaves the deferred clearing still to come. */
  lemma ClearEarly(kinds: seq<Kind>, s: State, p: nat) returns (t: State)
    requires Reachable(kinds, s) && p < |s.pcs| == |kinds| && s.pcs[p].Claimed? && LeavesEarly(kinds[p]) && s.mu == None
    ensures Reachable(kinds, t) && t == State(false, None, s.pcs[p := Leaving])
  {
    hide Reachable;
    var a := s.(pcs := s.pcs[p := Unsupported]);
    ReachNext(kinds, s, p, a);
    var b := State(s.running, Some(p), s.pcs[p := EarlyClearing]);
    assert b.pcs == a.pcs[p := EarlyClearing];
    ReachNext(kinds, a, p, b);
    var c := State(false, Some(p), s.pcs[p := EarlyCleared]);
    assert c.pcs == b.pcs[p := EarlyCleared];
    ReachNext(kinds, b, p, c);
    t := State(false, None, s.pcs[p := Leaving]);
    assert t.pcs == c.pcs[p := Leaving];
    ReachNext(kinds, c, p, t);
  }

  lemma ClearLate(kinds: seq<Kind>, s: State, p: nat) returns (t: State)
    requires Reachable(kinds, s) && p < |s.pcs| == |kinds| && s.pcs[p].Leaving? && s.mu == None
    ensures Reachable(kinds, t) && t == State(false, None, s.pcs[p := Done])
  {
    hide Reachable;
    var a := State(s.running, Some(p), s.pcs[p := Clearing]);
    ReachNext(kinds, s, p, a);
    var b := State(false, Some(p), s.pcs[p := Cleared]);
    assert b.pcs == a.pcs[p := Cleared];
    ReachNext(kinds, a, p, b);
    t := State(false, None, s.pcs[p := Done]);
    assert t.pcs == b.pcs[p := Done];
    ReachNext(kinds, b, p, t);
  }

  /** The run that clears another process's flag: x claims and clears early, a claims and enters, and x's
      deferred clearing clears a's flag. */
  lemma FlagStolen(kinds: seq<Kind>, x: nat, a: nat) returns (s: State)
    requires x < |kinds| && a < |kinds| && LeavesEarly(kinds[x]) && !LeavesEarly(kinds[a])
    ensures Reachable(kinds, s) && s.mu == None && !s.running && |s.pcs| == |kinds| && s.pcs[a].Inside?
    ensures forall i :: 0 <= i < |kinds| && i != x && i != a ==> s.pcs[i].Start?
  {
    hide Reachable, LeavesEarly;
    InitReachable(kinds);
    s := Init(kinds);
    s := ClaimFlag(kinds, s, x);
    s := ClearEarly(kinds, s, x);
    s := ClaimFlag(kinds, s, a);
    s := EnterUpdate(kinds, s, a);
    s := ClearLate(kinds, s, x);
  }

  /** And then a third process enters beside the second. */
  lemma TwoInside(kinds: seq<Kind>, x: nat, a: nat, b: nat) returns (s: State)
    requires x < |kinds| && a < |kinds| && b < |kinds| && a != b
    requires LeavesEarly(kinds[x]) && !LeavesEarly(kinds[a]) && !LeavesEarly(kinds[b])
    ensures Reachable(kinds, s) && !Exclusive(s)
  {
    hide Reachable, LeavesEarly;
    s := FlagStolen(kinds, x, a);
    s := ClaimFlag(kinds, s, b);
    s := EnterUpdate(kinds, s, b);
    assert InUpdate(s.pcs[a]) && InUpdate(s.pcs[b]);
  }

  /** Mutual exclusion holds in every interleaving exactly when every writer flushes or at most one
      process can get as far as the update. */
  lemma ExclusiveIff(kinds: seq<Kind>)
    ensures (forall s :: Reachable(kinds, s) ==> Exclusive(s)) <==> AllFlush(kinds) || OneEnters(kinds)
  {
    hide Reachable, Exclusive, LeavesEarly;
    if AllFlush(kinds) {
      forall s | Reachable(kinds, s) ensures Exclusive(s) {
        FlushingIsSafe(kinds, s);
      }
    } else if OneEnters(kinds) {
      forall s | Reachable(kinds, s) ensures Exclusive(s) {
        ReachablePaths(kinds, s);
        OneIsExclusive(kinds, s);
      }
    } else {
      var x :| 0 <= x < |kinds| && LeavesEarly(kinds[x]);
      var a, b :| 0 <= a < |kinds| && 0 <= b < |kinds| && !LeavesEarly(kinds[a]) && !LeavesEarly(kinds[b]) && a != b;
      var s := TwoInside(kinds, x, a, b);
    }
  }

  lemma OneIsExclusive(kinds: seq<Kind>, s: State)
    requires PathInv(kinds, s) && OneEnters(kinds)
    ensures Exclusive(s)
  {
  }

  /** The flag is set whenever a process is in the update section, in every interleaving, exactly when
      every writer flushes or no process can get there at all. */
  lemma FlagShowsIff(kinds: seq<Kind>)
    ensures (forall s :: Reachable(kinds, s) ==> FlagShows(s)) <==> AllFlush(kinds) || NoneEnters(kinds)
  {
    hide Reachable, LeavesEarly;
    if AllFlush(kinds) {
      forall s | Reachable(kinds, s) ensures FlagShows(s) {
        FlushingIsSafe(kinds, s);
      }
    } else if NoneEnters(kinds) {
      forall s | Reachable(kinds, s) ensures FlagShows(s) {
        ReachablePaths(kinds, s);
      }
    } else {
      var x :| 0 <= x < |kinds| && LeavesEarly(kinds[x]);
      var a :| 0 <= a < |kinds| && !LeavesEarly(kinds[a]);
      var s := FlagStolen(kinds, x, a);
      assert InUpdate(s.pcs[a]) && !s.running;
    }
  }
}
