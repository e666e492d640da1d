/**
  When a launcher throws: exactly if, between its failed attempt to create `lock` and its look at it, the file was
  removed by the owner.
*/
module LaunchRace {
  import opened LaunchProtocol

  /** The state before event number `n`. */
  function At(events: seq<Event>, n: nat): State
    requires n <= |events|
  {
    Run(INIT, events[..n])
  }

  predicate Moves(e: Event, l: nat) { e.LauncherMoves? && e.l == l }

  predicate PcAt(events: seq<Event>, n: nat, l: nat, pc: LauncherPc)
    requires n <= |events|
  {
    l < |At(events, n).launchers| && At(events, n).launchers[l].pc == pc
  }

  lemma Next(events: seq<Event>, n: nat)
    requires n < |events|
    ensures At(events, n + 1) == Step(At(events, n), events[n])
  {
    assert events[..n + 1] == events[..n] + [events[n]];
    RunAppend(INIT, events[..n], [events[n]]);
    assert Run(At(events, n), [events[n]]) == Step(At(events, n), events[n]) by { assert [events[n]][1..] == []; }
  }

  /** The steps of others do not move a launcher. */
  lemma OthersDoNotMove(st: State, e: Event, l: nat)
    requires !Moves(e, l)
    ensures l < |st.launchers| ==> l < |Step(st, e).launchers| && Step(st, e).launchers[l].pc == st.launchers[l].pc
    ensures l >= |st.launchers| && l < |Step(st, e).launchers| ==> Step(st, e).launchers[l].pc == CheckDone(false)
  {
  }

  /** Launcher `l` failed to create `lock` at event `i` and has not moved since. */
  predicate FailedAt(events: seq<Event>, l: nat, i: nat, n: nat) {
    && i < n <= |events| && Moves(events[i], l) && PcAt(events, i, l, TryLock) && At(events, i).files.lock
    && forall j :: i < j < n ==> !Moves(events[j], l)
  }

  /** And it looked at it at event `k`, when it was gone. */
  predicate RacedAt(events: seq<Event>, l: nat, i: nat, k: nat) {
    FailedAt(events, l, i, k) && k < |events| && Moves(events[k], l) && !At(events, k).files.lock
  }

  lemma {:induction false} FailedIsBusy(events: seq<Event>, l: nat, i: nat, n: nat)
    requires FailedAt(events, l, i, n)
    ensures PcAt(events, n, l, LockBusy)
    decreases n
  {
    Next(events, n - 1);
    if i < n - 1 {
      FailedIsBusy(events, l, i, n - 1);
      OthersDoNotMove(At(events, n - 1), events[n - 1], l);
    }
  }

  lemma {:induction false} ThrownStays(events: seq<Event>, l: nat, m: nat, n: nat)
    requires m <= n <= |events| && PcAt(events, m, l, Threw)
    ensures PcAt(events, n, l, Threw)
    decreases n
  {
    if m < n {
      ThrownStays(events, l, m, n - 1);
      Next(events, n - 1);
      if !Moves(events[n - 1], l) { OthersDoNotMove(At(events, n - 1), events[n - 1], l); }
    }
  }

  /** In a state of the protocol one step makes a launcher throw exactly if it looks at a lock file that is gone. */
  lemma LookThrowsIff(st: State, l: nat, c: Choice)
    requires Inv(st) && l < |st.launchers| && !st.launchers[l].pc.Threw?
    ensures LauncherStep(st, l, c).launchers[l].pc.Threw? <==> st.launchers[l].pc.LockBusy? && !st.files.lock
  {
    assert LauncherOk(st, st.launchers[l]);
  }

  lemma BusyComesFromFailure(st: State, l: nat, c: Choice)
    requires Inv(st) && l < |st.launchers| && LauncherStep(st, l, c).launchers[l].pc.LockBusy?
    ensures st.launchers[l].pc.TryLock? && st.files.lock
  {
    assert LauncherOk(st, st.launchers[l]);
  }

  lemma {:induction false} BusyHasFailed(events: seq<Event>, l: nat, n: nat) returns (i: nat)
    requires n <= |events| && PcAt(events, n, l, LockBusy)
    ensures FailedAt(events, l, i, n)
    decreases n
  {
    if n == 0 {
      assert false;
    } else {
      var st, e := At(events, n - 1), events[n - 1];
      Next(events, n - 1);
      InitInv();
      RunKeepsInv(INIT, events[..n - 1]);
      if Moves(e, l) {
        BusyComesFromFailure(st, l, e.choice);
        i := n - 1;
      } else {
        OthersDoNotMove(st, e, l);
        i := BusyHasFailed(events, l, n - 1);
      }
    }
  }

  lemma {:induction false} ThrownHasRaced(events: seq<Event>, l: nat, n: nat) returns (i: nat, k: nat)
    requires n <= |events| && PcAt(events, n, l, Threw)
    ensures RacedAt(events, l, i, k)
    decreases n
  {
    if n == 0 {
      assert false;
    } else {
      var st, e := At(events, n - 1), events[n - 1];
      Next(events, n - 1);
      InitInv();
      RunKeepsInv(INIT, events[..n - 1]);
      if Moves(e, l) && !st.launchers[l].pc.Threw? {
        LookThrowsIff(st, l, e.choice);
        i := BusyHasFailed(events, l, n - 1);
        k := n - 1;
      } else {
        if !Moves(e, l) { OthersDoNotMove(st, e, l); }
        i, k := ThrownHasRaced(events, l, n - 1);
      }
    }
  }

  /**
    In every run a launcher has thrown if and only if at some point it found `lock` taken and, when it made its next
    step, `lock` was gone.
  */
  lemma ThrowsIffRaced(events: seq<Event>, l: nat)
    requires l < |Run(INIT, events).launchers|
    ensures Run(INIT, events).launchers[l].pc.Threw? <==> exists i: nat, k: nat :: RacedAt(events, l, i, k)
  {
    assert events[..|events|] == events;
    if Run(INIT, events).launchers[l].pc.Threw? {
      var i, k := ThrownHasRaced(events, l, |events|);
    }
    if i: nat, k: nat :| RacedAt(events, l, i, k) {
      FailedIsBusy(events, l, i, k);
      Next(events, k);
      ThrownStays(events, l, k + 1, |events|);
    }
  }

  /** The agent that an event lets move. */
  predicate MovedBy(e: Event, a: Agent) {
    match a
    case L(l) => e.LauncherMoves? && e.l == l
    case S(s) => e.ScriptMoves? && e.s == s
  }

  lemma RemovedByOwner(st: State, e: Event)
    requires Inv(st) && st.files.lock && !Step(st, e).files.lock
    ensures exists a :: Owns(st, a) && MovedBy(e, a)
  {
    match e
    case LauncherMoves(l, c) => assert Owns(st, L(l)) && MovedBy(e, L(l));
    case ScriptMoves(s, x) => assert Owns(st, S(s)) && MovedBy(e, S(s));
    case Arrive =>
  }

  predicate RemovedAt(events: seq<Event>, j: nat) {
    j < |events| && At(events, j).files.lock && !At(events, j + 1).files.lock
  }

  lemma {:induction false} LockWasRemoved(events: seq<Event>, i: nat, k: nat) returns (j: nat)
    requires i < k <= |events| && At(events, i).files.lock && !At(events, k).files.lock
    ensures i <= j < k && RemovedAt(events, j)
    decreases k
  {
    j := k - 1;
    if !At(events, k - 1).files.lock { j := LockWasRemoved(events, i, k - 1); }
  }

  /** Between the failure and the look the owner of the lock, somebody else, has removed it. */
  lemma RaceIsARemoval(events: seq<Event>, l: nat, i: nat, k: nat) returns (j: nat)
    requires RacedAt(events, l, i, k)
    ensures i < j < k && RemovedAt(events, j) && !Moves(events[j], l)
    ensures exists a :: Owns(At(events, j), a) && MovedBy(events[j], a)
  {
    j := LockWasRemoved(events, i, k);
    Next(events, i);
    Next(events, j);
    InitInv();
    RunKeepsInv(INIT, events[..j]);
    RemovedByOwner(At(events, j), events[j]);
  }

  // ---------------------------------------------------------------- it happens

  // A run with two launchers in which the second finds `lock` taken and then gone.

  const WAITING := Launcher(LockBusy, NoHandle, NoHandle, Unset)
  const OWNING := Launcher(CheckDone(true), Held(false), NoHandle, Unset)
  const FORKED := Launcher(DetachStart(0), Held(false), Held(false), Running)

  lemma RaceBegins(c: Choice)
    ensures Reachable(State(Files(true, false, None, None, false), [OWNING, WAITING], []))
  {
    assert Run(INIT, []) == INIT;
    var st := Advance(INIT, Arrive);
    st := Advance(st, LauncherMoves(0, c));
    st := Advance(st, LauncherMoves(0, c));
    st := Advance(st, LauncherMoves(0, c));
    assert st == State(Files(true, false, None, None, false), [OWNING], []);
    st := Advance(st, Arrive);
    st := Advance(st, LauncherMoves(1, c));
    st := Advance(st, LauncherMoves(1, c));
    st := Advance(st, LauncherMoves(1, c));
    assert st == State(Files(true, false, None, None, false), [OWNING, WAITING], []);
  }

  lemma RaceForks(c: Choice)
    ensures Reachable(State(Files(true, true, None, None, false), [FORKED, WAITING], [Script(TestLock, None)]))
  {
    RaceBegins(c);
    var st := Advance(State(Files(true, false, None, None, false), [OWNING, WAITING], []), LauncherMoves(0, c));
    st := Advance(st, LauncherMoves(0, c));
    st := Advance(st, LauncherMoves(0, c));
    st := Advance(st, LauncherMoves(0, c));
    assert st == State(Files(true, true, None, None, false), [FORKED, WAITING], [Script(TestLock, None)]);
  }

  lemma RaceRuns(c: Choice)
    ensures Reachable(State(Files(true, false, Some(0), None, false), [FORKED, WAITING], [Script(InBody, None)]))
  {
    RaceForks(c);
    var st := Advance(State(Files(true, true, None, None, false), [FORKED, WAITING], [Script(TestLock, None)]),
                      ScriptMoves(0, 1));
    st := Advance(st, ScriptMoves(0, 1));
    st := Advance(st, ScriptMoves(0, 1));
    st := Advance(st, ScriptMoves(0, 1));
    st := Advance(st, ScriptMoves(0, 1));
    st := Advance(st, ScriptMoves(0, 1));
    assert st == State(Files(true, false, Some(0), None, false), [FORKED, WAITING], [Script(InBody, None)]);
  }

  /** A run in which a launcher throws. */
  lemma RaceThrows(c: Choice)
    ensures exists bad, k :: Reachable(bad) && 0 <= k < |bad.launchers| && bad.launchers[k].pc.Threw?
  {
    RaceRuns(c);
    var st := Advance(State(Files(true, false, Some(0), None, false), [FORKED, WAITING], [Script(InBody, None)]),
                      ScriptMoves(0, 1));
    st := Advance(st, ScriptMoves(0, 1));
    st := Advance(st, ScriptMoves(0, 1));
    st := Advance(st, ScriptMoves(0, 1));
    st := Advance(st, LauncherMoves(1, c));
    assert st.launchers[1].pc.Threw?;
  }
}
