/**
  What a launcher reports: DONE, ERROR or nothing, by the way it left the protocol, in every run; and a run of one
  launcher and its script for every exit code of the command.
*/
module LaunchVerdict {
  import opened LaunchProtocol
  import opened LaunchRace

  // ---------------------------------------------------------------- the child is the launcher's own

  predicate Waits(x: Launcher) { x.pc.DetachStart? || x.pc.DetachLock? || x.pc.WaitChild? }

  /** At event `i` launcher `l` started script `s`. */
  predicate ForkedAt(events: seq<Event>, l: nat, i: nat, s: nat) {
    && i < |events| && Moves(events[i], l) && PcAt(events, i, l, StartProcess)
    && |At(events, i).scripts| == s && |At(events, i + 1).scripts| == s + 1
  }

  lemma StepForks(st: State, l: nat, c: Choice)
    requires l < |st.launchers| && Waits(LauncherStep(st, l, c).launchers[l])
    ensures var x, y := st.launchers[l], LauncherStep(st, l, c).launchers[l];
            if x.pc.StartProcess? then y.pc.child == |st.scripts|
                    && |LauncherStep(st, l, c).scripts| == |st.scripts| + 1
            else Waits(x) && x.pc.child == y.pc.child
  {
  }

  /** The child that a launcher waits for is the script it started itself. */
  lemma {:induction false} ChildIsOwn(events: seq<Event>, l: nat, n: nat) returns (i: nat)
    requires n <= |events| && l < |At(events, n).launchers| && Waits(At(events, n).launchers[l])
    ensures i < n && ForkedAt(events, l, i, At(events, n).launchers[l].pc.child)
    decreases n
  {
    i := 0;
    if n == 0 {
      assert false;
    } else {
      var st, e := At(events, n - 1), events[n - 1];
      Next(events, n - 1);
      if Moves(e, l) {
        StepForks(st, l, e.choice);
        if st.launchers[l].pc.StartProcess? { i := n - 1; } else { i := ChildIsOwn(events, l, n - 1); }
      } else {
        OthersDoNotMove(st, e, l);
        i := ChildIsOwn(events, l, n - 1);
      }
    }
  }

  // ---------------------------------------------------------------- the verdict of one step

  /** The ways in which `run` can be left without an exception. */
  datatype Leave =
    | SawDone                   // the `done` file exists
    | Answered(child: nat)      // waiting for its own script gave the script's status
    | WaitFailed                // waiting failed
    | CodeRead                  // the exit code was taken from the `code` file
    | TimedOut                  // the lock could not be had in time

  predicate Left(x: Launcher) { x.pc.UnwindStart? || x.pc.UnwindLock? || x.pc.Returned? }

  /** How event `e` makes launcher `l` leave, in terms of where it is and what the environment answers. */
  function LeaveOf(x: Launcher, c: Choice): Leave {
    if x.pc.CheckDone? then SawDone
    else if x.pc.ReadCode? then CodeRead
    else if x.pc.WaitChild? then (if c.wait.Status? then Answered(x.pc.child) else WaitFailed)
    else TimedOut
  }

  /** What a launcher that leaves in this way reports. */
  predicate Reports(st: State, how: Leave, before: Verdict, v: Verdict) {
    match how
    case SawDone => st.files.done && v == Done
    case Answered(s) =>
      s < |st.scripts| && st.scripts[s].bodyCode.Some? && v == if st.scripts[s].bodyCode.value == 0 then Done else Error
    case WaitFailed => v == Error
    case CodeRead => st.files.code.Some? && v == if st.files.code.value == 0 then Done else Error
    case TimedOut => v == before
  }

  lemma LeavingReports(st: State, l: nat, c: Choice)
    requires Inv(st) && l < |st.launchers| && !Left(st.launchers[l]) && Left(LauncherStep(st, l, c).launchers[l])
    ensures Reports(st, LeaveOf(st.launchers[l], c), st.launchers[l].verdict,
                    LauncherStep(st, l, c).launchers[l].verdict)
    ensures LeaveOf(st.launchers[l], c).TimedOut? ==> st.launchers[l].pc.LockWait? && c.timeout
  {
    var x := st.launchers[l];
    assert LauncherOk(st, x);
    if x.pc.WaitChild? { assert ScriptOk(st, x.pc.child); }
  }

  /** A launcher that waits leaves only by the answer to its wait. */
  lemma WaitingGoesOn(st: State, l: nat, c: Choice)
    requires Inv(st) && l < |st.launchers| && st.launchers[l].pc.WaitChild?
    ensures var s, y := st.launchers[l].pc.child, LauncherStep(st, l, c).launchers[l];
            && s < |st.scripts|
            && (if st.scripts[s].bodyCode.None? || !Gone(st.scripts[s].pc) then y == st.launchers[l]
                else if c.wait.NoChild? then y.pc == ReadCode
                else y.pc == UnwindStart)
  {
    assert LauncherOk(st, st.launchers[l]);
    assert ScriptOk(st, st.launchers[l].pc.child);
  }

  /** Nobody reports anything but RUNNING before leaving, and RUNNING only while it waits for its own script. */
  predicate VerdictOk(x: Launcher) {
    Left(x) || x.pc.Threw? || x.verdict == if Waits(x) || (x.pc.ReadCode? && x.verdict.Running?) then Running else Unset
  }

  lemma StepKeepsVerdict(st: State, l: nat, c: Choice)
    requires Inv(st) && l < |st.launchers| && VerdictOk(st.launchers[l])
    ensures VerdictOk(LauncherStep(st, l, c).launchers[l])
  {
    assert LauncherOk(st, st.launchers[l]);
  }

  lemma {:induction false} VerdictsAreOk(events: seq<Event>, l: nat, n: nat)
    requires n <= |events| && l < |At(events, n).launchers|
    ensures VerdictOk(At(events, n).launchers[l])
    decreases n
  {
    if n != 0 {
      var st, e := At(events, n - 1), events[n - 1];
      Next(events, n - 1);
      InitInv();
      RunKeepsInv(INIT, events[..n - 1]);
      if l < |st.launchers| {
        VerdictsAreOk(events, l, n - 1);
        if Moves(e, l) { StepKeepsVerdict(st, l, e.choice); } else { OthersKeepLauncher(st, e, l); }
      }
    }
  }

  lemma OthersKeepLauncher(st: State, e: Event, l: nat)
    requires !Moves(e, l) && l < |st.launchers|
    ensures l < |Step(st, e).launchers| && Step(st, e).launchers[l] == st.launchers[l]
  {
  }

  // ---------------------------------------------------------------- the verdict of a run

  /** Launcher `l` left at event `n`. */
  predicate LeftAt(events: seq<Event>, l: nat, n: nat) {
    && n < |events| && Moves(events[n], l) && l < |At(events, n).launchers| && !Left(At(events, n).launchers[l])
    && l < |At(events, n + 1).launchers| && Left(At(events, n + 1).launchers[l])
  }

  function HowAt(events: seq<Event>, l: nat, n: nat): Leave
    requires LeftAt(events, l, n)
  {
    LeaveOf(At(events, n).launchers[l], events[n].choice)
  }

  lemma AfterLeaving(st: State, e: Event, l: nat)
    requires l < |st.launchers| && Left(st.launchers[l])
    ensures l < |Step(st, e).launchers| && Left(Step(st, e).launchers[l])
    ensures Step(st, e).launchers[l].verdict == st.launchers[l].verdict
  {
    if !Moves(e, l) { OthersKeepLauncher(st, e, l); }
  }

  lemma {:induction false} LeftHasLeft(events: seq<Event>, l: nat, m: nat) returns (n: nat)
    requires m <= |events| && l < |At(events, m).launchers| && Left(At(events, m).launchers[l])
    ensures n < m && LeftAt(events, l, n)
    ensures At(events, m).launchers[l].verdict == At(events, n + 1).launchers[l].verdict
    decreases m
  {
    n := 0;
    if m == 0 {
      assert false;
    } else {
      var st, e := At(events, m - 1), events[m - 1];
      Next(events, m - 1);
      if l < |st.launchers| && Left(st.launchers[l]) {
        n := LeftHasLeft(events, l, m - 1);
        AfterLeaving(st, e, l);
      } else {
        if !Moves(e, l) { OthersDoNotMove(st, e, l); }
        n := m - 1;
      }
    }
  }

  /**
    In every run a launcher that has left `run` left it at one event, and reports for good what that event says: DONE
    if it saw `done`; DONE or ERROR by the exit code of the command of its own script if it was told the script's
    status; ERROR if its wait failed; DONE or ERROR by the number in `code` if it read that; nothing if it timed out.
  */
  lemma VerdictIsReported(events: seq<Event>, l: nat) returns (n: nat)
    requires l < |Run(INIT, events).launchers| && Left(Run(INIT, events).launchers[l])
    ensures LeftAt(events, l, n)
    ensures Reports(At(events, n), HowAt(events, l, n), Unset, Run(INIT, events).launchers[l].verdict)
    ensures HowAt(events, l, n).Answered? ==>
              exists i: nat :: i < n && ForkedAt(events, l, i, HowAt(events, l, n).child)
    ensures HowAt(events, l, n).TimedOut? ==> PcAt(events, n, l, LockWait) && events[n].choice.timeout
  {
    assert events[..|events|] == events;
    n := LeftHasLeft(events, l, |events|);
    Next(events, n);
    InitInv();
    RunKeepsInv(INIT, events[..n]);
    var st := At(events, n);
    LeavingReports(st, l, events[n].choice);
    VerdictsAreOk(events, l, n);
    if HowAt(events, l, n).Answered? { var i := ChildIsOwn(events, l, n); }
  }

  /** So an answered wait is a report of success exactly if the launcher's own command exited with 0. */
  lemma SuccessIsReported(events: seq<Event>, l: nat, n: nat)
    requires LeftAt(events, l, n) && At(events, n).launchers[l].pc.WaitChild? && events[n].choice.wait.Status?
    ensures var st, s := At(events, n), At(events, n).launchers[l].pc.child;
            && s < |st.scripts| && st.scripts[s].bodyCode.Some?
            && At(events, n + 1).launchers[l].verdict == if st.scripts[s].bodyCode == Some(0) then Done else Error
    ensures exists i: nat :: i < n && ForkedAt(events, l, i, At(events, n).launchers[l].pc.child)
  {
    Next(events, n);
    InitInv();
    RunKeepsInv(INIT, events[..n]);
    LeavingReports(At(events, n), l, events[n].choice);
    var i := ChildIsOwn(events, l, n);
  }

  // ---------------------------------------------------------------- one launch from beginning to end

  const WAITS := Launcher(WaitChild(0), Held(true), Held(true), Running)

  lemma LaunchForks(c: Choice)
    ensures Reachable(State(Files(true, true, None, None, false),
                            [Launcher(DetachStart(0), Held(false), Held(false), Running)], [Script(TestLock, None)]))
  {
    assert Run(INIT, []) == INIT;
    var st := Advance(INIT, Arrive);
    st := Advance(st, LauncherMoves(0, c));
    st := Advance(st, LauncherMoves(0, c));
    st := Advance(st, LauncherMoves(0, c));
    assert st == State(Files(true, false, None, None, false),
                       [Launcher(CheckDone(true), Held(false), NoHandle, Unset)], []);
    st := Advance(st, LauncherMoves(0, c));
    st := Advance(st, LauncherMoves(0, c));
    st := Advance(st, LauncherMoves(0, c));
    st := Advance(st, LauncherMoves(0, c));
    assert st == State(Files(true, true, None, None, false),
                       [Launcher(DetachStart(0), Held(false), Held(false), Running)], [Script(TestLock, None)]);
  }

  lemma LaunchWaits(c: Choice)
    ensures Reachable(State(Files(true, false, Some(0), None, false), [WAITS], [Script(InBody, None)]))
  {
    LaunchForks(c);
    var st := State(Files(true, true, None, None, false),
                    [Launcher(DetachStart(0), Held(false), Held(false), Running)], [Script(TestLock, None)]);
    st := Advance(st, LauncherMoves(0, c));
    st := Advance(st, LauncherMoves(0, c));
    assert st == State(Files(true, true, None, None, false), [WAITS], [Script(TestLock, None)]);
    st := Advance(st, ScriptMoves(0, 0));
    st := Advance(st, ScriptMoves(0, 0));
    st := Advance(st, ScriptMoves(0, 0));
    st := Advance(st, ScriptMoves(0, 0));
    st := Advance(st, ScriptMoves(0, 0));
    st := Advance(st, ScriptMoves(0, 0));
    assert st == State(Files(true, false, Some(0), None, false), [WAITS], [Script(InBody, None)]);
  }

  lemma LaunchEnds(c: Choice, x: int)
    ensures Reachable(State(Files(false, false, None, Some(x), x == 0), [WAITS], [Script(Exited, Some(x))]))
  {
    LaunchWaits(c);
    var st := State(Files(true, false, Some(0), None, false), [WAITS], [Script(InBody, None)]);
    st := Advance(st, ScriptMoves(0, x));
    st := Advance(st, ScriptMoves(0, x));
    if x == 0 { st := Advance(st, ScriptMoves(0, x)); }
    assert st == State(Files(true, false, Some(0), Some(x), x == 0), [WAITS], [Script(CleanPid, Some(x))]);
    st := Advance(st, ScriptMoves(0, x));
    st := Advance(st, ScriptMoves(0, x));
    st := Advance(st, ScriptMoves(0, x));
    assert st == State(Files(false, false, None, Some(x), x == 0), [WAITS], [Script(Exited, Some(x))]);
  }

  /**
    For every exit code there is a run of one launcher and its script to the end: the code is recorded, `done` exists
    exactly for code 0, nothing else is left behind, and the launcher reports DONE or ERROR accordingly.
  */
  lemma LaunchCompletes(x: int)
    ensures Reachable(State(Files(false, false, None, Some(x), x == 0),
                            [Launcher(Returned, NoHandle, NoHandle, if x == 0 then Done else Error)],
                            [Script(Exited, Some(x))]))
  {
    var c := Choice(false, 0, Status);
    LaunchEnds(c, x);
    var st := State(Files(false, false, None, Some(x), x == 0), [WAITS], [Script(Exited, Some(x))]);
    st := Advance(st, LauncherMoves(0, c));
    st := Advance(st, LauncherMoves(0, c));
    st := Advance(st, LauncherMoves(0, c));
    assert st == State(Files(false, false, None, Some(x), x == 0),
                       [Launcher(Returned, NoHandle, NoHandle, if x == 0 then Done else Error)],
                       [Script(Exited, Some(x))]);
  }

  const WATCHES := Launcher(WatchProcess(Some(0)), NoHandle, NoHandle, Unset)

  lemma SecondWatches(c: Choice)
    ensures Reachable(State(Files(true, false, Some(0), None, false), [WAITS, WATCHES], [Script(InBody, None)]))
  {
    LaunchWaits(c);
    var st := State(Files(true, false, Some(0), None, false), [WAITS], [Script(InBody, None)]);
    st := Advance(st, Arrive);
    st := Advance(st, LauncherMoves(1, c));
    st := Advance(st, LauncherMoves(1, c));
    st := Advance(st, LauncherMoves(1, c));
    assert st == State(Files(true, false, Some(0), None, false), [WAITS, WATCHES], [Script(InBody, None)]);
  }

  lemma WatchedEnds(c: Choice, x: int)
    ensures Reachable(State(Files(false, false, None, Some(x), x == 0), [WAITS, WATCHES], [Script(Exited, Some(x))]))
  {
    SecondWatches(c);
    var st := State(Files(true, false, Some(0), None, false), [WAITS, WATCHES], [Script(InBody, None)]);
    st := Advance(st, ScriptMoves(0, x));
    st := Advance(st, ScriptMoves(0, x));
    if x == 0 { st := Advance(st, ScriptMoves(0, x)); }
    assert st == State(Files(true, false, Some(0), Some(x), x == 0), [WAITS, WATCHES], [Script(CleanPid, Some(x))]);
    st := Advance(st, ScriptMoves(0, x));
    st := Advance(st, ScriptMoves(0, x));
    st := Advance(st, ScriptMoves(0, x));
    assert st == State(Files(false, false, None, Some(x), x == 0), [WAITS, WATCHES], [Script(Exited, Some(x))]);
  }

  /** A second launcher that watches the script of the first one reports the same, for every exit code. */
  lemma WatcherReportsTheSame(x: int)
    ensures var v := if x == 0 then Done else Error;
            Reachable(State(Files(false, false, None, Some(x), x == 0),
                            [WAITS, Launcher(Returned, NoHandle, NoHandle, v)], [Script(Exited, Some(x))]))
  {
    var c := Choice(false, 0, Status);
    WatchedEnds(c, x);
    var st := State(Files(false, false, None, Some(x), x == 0), [WAITS, WATCHES], [Script(Exited, Some(x))]);
    st := Advance(st, LauncherMoves(1, c));
    st := Advance(st, LauncherMoves(1, c));
    st := Advance(st, LauncherMoves(1, c));
    st := Advance(st, LauncherMoves(1, c));
    assert st == State(Files(false, false, None, Some(x), x == 0),
                       [WAITS, Launcher(Returned, NoHandle, NoHandle, if x == 0 then Done else Error)],
                       [Script(Exited, Some(x))]);
  }

  // ---------------------------------------------------------------- who can be stuck

  /** The launcher waits for a process that is still there. */
  predicate WaitsForLiving(st: State, x: Launcher) {
    || (x.pc.WatchProcess? && x.pc.target.Some? && x.pc.target.value < |st.scripts|
        && !Gone(st.scripts[x.pc.target.value].pc))
    || (x.pc.WaitChild? && x.pc.child < |st.scripts| && !Gone(st.scripts[x.pc.child].pc))
  }

  /** In every run a step of a launcher moves it, unless it has returned or thrown, or waits for a living process. */
  lemma LauncherMovesUnlessWaiting(events: seq<Event>, l: nat, c: Choice)
    requires l < |Run(INIT, events).launchers|
    ensures var st := Run(INIT, events);
            LauncherStep(st, l, c).launchers[l].pc == st.launchers[l].pc <==>
              st.launchers[l].pc.Returned? || st.launchers[l].pc.Threw? || WaitsForLiving(st, st.launchers[l])
  {
    InitInv();
    RunKeepsInv(INIT, events);
    MovesUnlessWaiting(Run(INIT, events), l, c);
  }

  lemma MovesUnlessWaiting(st: State, l: nat, c: Choice)
    requires Inv(st) && l < |st.launchers|
    ensures LauncherStep(st, l, c).launchers[l].pc == st.launchers[l].pc <==>
              st.launchers[l].pc.Returned? || st.launchers[l].pc.Threw? || WaitsForLiving(st, st.launchers[l])
  {
    assert LauncherOk(st, st.launchers[l]);
  }

  /** How many steps a script has at most before it. */
  function StepsLeft(pc: ScriptPc): nat {
    match pc
    case TestLock => 12
    case TestStart => 11
    case RemoveStart => 10
    case WritePid => 9
    case SetTrap => 8
    case StartBody => 7
    case InBody => 6
    case WriteCode => 5
    case TouchDone => 4
    case CleanPid => 3
    case CleanLock => 2
    case CleanRest => 1
    case Exited => 0
    case Refused => 0
  }

  /** Every step of a script that is not gone brings it nearer to its end. */
  lemma ScriptsEnd(st: State, s: nat, x: int)
    requires s < |st.scripts|
    ensures if Gone(st.scripts[s].pc) then ScriptStep(st, s, x) == st
            else StepsLeft(ScriptStep(st, s, x).scripts[s].pc) < StepsLeft(st.scripts[s].pc)
  {
  }
}
