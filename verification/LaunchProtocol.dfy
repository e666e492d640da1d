/**
  The launch protocol of one job directory.

  Any number of launchers (threads, workspaces, processes) execute the command-line job's `run`, and the
  shell scripts they start execute concurrently with them. They share nothing but five marker files. Every
  file operation is one atomic step, and a run of the system is an arbitrary sequence of events.
*/
module LaunchProtocol {

  datatype Option<+T> = None | Some(value: T)

  /** The marker files. A file that only matters by its presence is a Boolean. */
  datatype Files = Files(lock: bool, startLock: bool, pid: Option<nat>, code: Option<int>, done: bool)

  /** A file-lock object: its destructor removes the file unless the object was detached. */
  datatype Handle = NoHandle | Held(detached: bool)

  /** What the job's state was set to by this execution of `run`. */
  datatype Verdict = Unset | Running | Done | Error

  /** Program points of `run`. `second` tells the check made under the lock from the first one. */
  datatype LauncherPc =
    | CheckDone(second: bool)                // does `done` exist?
    | CheckPid(second: bool)                 // does `pid` exist?
    | ReadPid(second: bool)                  // open `pid` and read a number
    | WatchProcess(target: Option<nat>)      // poll until the process is gone; None: the number read is arbitrary
    | ReadCode                               // read the exit code from `code`
    | TryLock | LockBusy | LockWait          // create `lock` exclusively; look at it; wait for its removal
    | TryStart | StartBusy | StartWait       // the same for `lock.start`
    | StartProcess                           // fork the script
    | DetachStart(child: nat) | DetachLock(child: nat)
    | WaitChild(child: nat)                  // waitpid
    | UnwindStart | UnwindLock               // destructors of the two lock objects
    | Returned | Threw

  datatype Launcher = Launcher(pc: LauncherPc, lock: Handle, startLock: Handle, verdict: Verdict)

  /** Program points of the generated script, in the order its lines execute. */
  datatype ScriptPc =
    | TestLock | TestStart | RemoveStart | WritePid | SetTrap
    | StartBody | InBody | WriteCode | TouchDone
    | CleanPid | CleanLock | CleanRest | Exited
    | Refused                                // left by `exit 017` before writing anything

  datatype Script = Script(pc: ScriptPc, bodyCode: Option<int>)

  /** Launchers and scripts are numbered by arrival; a script's number is its process id. */
  datatype State = State(files: Files, launchers: seq<Launcher>, scripts: seq<Script>)

  /** What the environment decides: a timeout, an arbitrary number, the way waiting ends. */
  datatype WaitResult = Status | NoChild | Failure
  datatype Choice = Choice(timeout: bool, number: int, wait: WaitResult)

  datatype Event =
    | Arrive
    | LauncherMoves(l: nat, choice: Choice)
    | ScriptMoves(s: nat, bodyExit: int)

  const NEW_LAUNCHER := Launcher(CheckDone(false), NoHandle, NoHandle, Unset)
  const INIT := State(Files(false, false, None, None, false), [], [])

  predicate Gone(pc: ScriptPc) { pc.Exited? || pc.Refused? }

  function VerdictOf(code: int): Verdict { if code == 0 then Done else Error }

  /** The exit status of a script that is gone; its guards leave with a status other than 0. */
  function ExitStatus(s: Script): int {
    if s.pc.Refused? || s.bodyCode.None? then 17 else s.bodyCode.value
  }

  // ---------------------------------------------------------------- the steps

  function WithLauncher(st: State, l: nat, x: Launcher): State
    requires l < |st.launchers|
  {
    st.(launchers := st.launchers[l := x])
  }

  function WithScript(st: State, s: nat, x: Script): State
    requires s < |st.scripts|
  {
    st.(scripts := st.scripts[s := x])
  }

  function AfterCheck(second: bool): LauncherPc { if second then TryStart else TryLock }

  /** One step of launcher `l`; a step that is not enabled leaves the state as it is. */
  function LauncherStep(st: State, l: nat, c: Choice): State
    requires l < |st.launchers|
  {
    var x := st.launchers[l];
    var f := st.files;
    match x.pc
    case CheckDone(second) =>
      if f.done then WithLauncher(st, l, x.(pc := UnwindStart, verdict := Done))
      else WithLauncher(st, l, x.(pc := CheckPid(second)))
    case CheckPid(second) =>
      WithLauncher(st, l, x.(pc := if f.pid.Some? then ReadPid(second) else AfterCheck(second)))
    case ReadPid(second) =>
      WithLauncher(st, l, x.(pc := WatchProcess(f.pid)))
    case WatchProcess(target) =>
      if target.Some? && target.value < |st.scripts| && !Gone(st.scripts[target.value].pc) then st
      else WithLauncher(st, l, x.(pc := ReadCode))
    case ReadCode =>
      var code := if f.code.Some? then f.code.value else c.number;
      WithLauncher(st, l, x.(pc := UnwindStart, verdict := VerdictOf(code)))
    case TryLock =>
      if f.lock then WithLauncher(st, l, x.(pc := LockBusy))
      else WithLauncher(st.(files := f.(lock := true)), l, x.(pc := CheckDone(true), lock := Held(false)))
    case LockBusy =>
      WithLauncher(st, l, x.(pc := if f.lock then LockWait else Threw))
    case LockWait =>
      WithLauncher(st, l, x.(pc := if c.timeout then UnwindStart else TryLock))
    case TryStart =>
      if f.startLock then WithLauncher(st, l, x.(pc := StartBusy))
      else WithLauncher(st.(files := f.(startLock := true)), l, x.(pc := StartProcess, startLock := Held(false)))
    case StartBusy =>
      WithLauncher(st, l, x.(pc := if f.startLock then StartWait else Threw))
    case StartWait =>
      WithLauncher(st, l, x.(pc := if c.timeout then UnwindStart else TryStart))
    case StartProcess =>
      WithLauncher(st.(scripts := st.scripts + [Script(TestLock, None)]), l,
                   x.(pc := DetachStart(|st.scripts|), verdict := Running))
    case DetachStart(child) =>
      WithLauncher(st, l, x.(pc := DetachLock(child), startLock := Held(true)))
    case DetachLock(child) =>
      WithLauncher(st, l, x.(pc := WaitChild(child), lock := Held(true)))
    case WaitChild(child) =>
      if child < |st.scripts| && !Gone(st.scripts[child].pc) then st
      else if c.wait.NoChild? then WithLauncher(st, l, x.(pc := ReadCode))
      else
        var code := if c.wait.Status? && child < |st.scripts| then ExitStatus(st.scripts[child]) else -1;
        WithLauncher(st, l, x.(pc := UnwindStart, verdict := VerdictOf(code)))
    case UnwindStart =>
      var removes := x.startLock == Held(false);
      WithLauncher(st.(files := f.(startLock := f.startLock && !removes)), l,
                   x.(pc := UnwindLock, startLock := NoHandle))
    case UnwindLock =>
      var removes := x.lock == Held(false);
      WithLauncher(st.(files := f.(lock := f.lock && !removes)), l, x.(pc := Returned, lock := NoHandle))
    case Returned => st
    case Threw => st
  }

  /** One step of script `s`; `bodyExit` is the status its command ends with. */
  function ScriptStep(st: State, s: nat, bodyExit: int): State
    requires s < |st.scripts|
  {
    var x := st.scripts[s];
    var f := st.files;
    match x.pc
    case TestLock => WithScript(st, s, x.(pc := if f.lock then TestStart else Refused))
    case TestStart => WithScript(st, s, x.(pc := if f.startLock then RemoveStart else Refused))
    case RemoveStart => WithScript(st.(files := f.(startLock := false)), s, x.(pc := WritePid))
    case WritePid => WithScript(st.(files := f.(pid := Some(s))), s, x.(pc := SetTrap))
    case SetTrap => WithScript(st, s, x.(pc := StartBody))
    case StartBody => WithScript(st, s, x.(pc := InBody))
    case InBody => WithScript(st, s, x.(pc := WriteCode, bodyCode := Some(bodyExit)))
    case WriteCode =>
      WithScript(st.(files := f.(code := x.bodyCode)), s,
                 x.(pc := if x.bodyCode == Some(0) then TouchDone else CleanPid))
    case TouchDone => WithScript(st.(files := f.(done := true)), s, x.(pc := CleanPid))
    case CleanPid => WithScript(st.(files := f.(pid := None)), s, x.(pc := CleanLock))
    case CleanLock => WithScript(st.(files := f.(lock := false)), s, x.(pc := CleanRest))
    case CleanRest => WithScript(st, s, x.(pc := Exited))
    case Exited => st
    case Refused => st
  }

  function Step(st: State, e: Event): State {
    match e
    case Arrive => st.(launchers := st.launchers + [NEW_LAUNCHER])
    case LauncherMoves(l, c) => if l < |st.launchers| then LauncherStep(st, l, c) else st
    case ScriptMoves(s, x) => if s < |st.scripts| then ScriptStep(st, s, x) else st
  }

  function Run(st: State, events: seq<Event>): State
    decreases |events|
  {
    if events == [] then st else Run(Step(st, events[0]), events[1..])
  }

  // ---------------------------------------------------------------- who owns the lock

  datatype Agent = L(l: nat) | S(s: nat)

  /** Past the removal of `lock` in the cleanup function (or never past the guards). */
  predicate Released(pc: ScriptPc) { pc.CleanRest? || pc.Exited? || pc.Refused? }

  /** From the moment the process is forked the lock belongs to the script, not to its launcher. */
  predicate HandedOver(pc: LauncherPc) { pc.DetachStart? || pc.DetachLock? }

  predicate Owns(st: State, a: Agent) {
    match a
    case L(l) => l < |st.launchers| && st.launchers[l].lock == Held(false) && !HandedOver(st.launchers[l].pc)
    case S(s) => s < |st.scripts| && !Released(st.scripts[s].pc)
  }

  predicate Succeeded(st: State, s: nat) { s < |st.scripts| && st.scripts[s].bodyCode == Some(0) }

  /** The script's own number is in the `pid` file at these points. */
  predicate PidPhase(pc: ScriptPc) {
    pc.SetTrap? || pc.StartBody? || pc.InBody? || pc.WriteCode? || pc.TouchDone? || pc.CleanPid?
  }

  predicate BeforeStartRemoved(pc: ScriptPc) { pc.TestLock? || pc.TestStart? || pc.RemoveStart? }

  /** The script has recorded its body's exit code in the `code` file. */
  predicate CodeWritten(pc: ScriptPc) {
    pc.TouchDone? || pc.CleanPid? || pc.CleanLock? || pc.CleanRest? || pc.Exited?
  }

  // ---------------------------------------------------------------- the invariant

  ghost predicate LockInv(st: State) {
    && (forall a, b :: Owns(st, a) && Owns(st, b) ==> a == b)
    && (forall a :: Owns(st, a) ==> st.files.lock)
    && (st.files.lock ==> exists a :: Owns(st, a))
  }

  /** The lock objects a launcher holds are determined by where it is. */
  predicate HandlesOk(x: Launcher) {
    match x.pc
    case CheckDone(second) => x.startLock == NoHandle && x.lock == if second then Held(false) else NoHandle
    case CheckPid(second) => x.startLock == NoHandle && x.lock == if second then Held(false) else NoHandle
    case ReadPid(second) => !second && x.startLock == NoHandle && x.lock == NoHandle
    case WatchProcess(_) => x.startLock == NoHandle && x.lock == NoHandle
    case ReadCode => x.lock == x.startLock && x.lock != Held(false)
    case TryLock => x.startLock == NoHandle && x.lock == NoHandle
    case LockBusy => x.startLock == NoHandle && x.lock == NoHandle
    case LockWait => x.startLock == NoHandle && x.lock == NoHandle
    case TryStart => x.startLock == NoHandle && x.lock == Held(false)
    case StartBusy => false
    case StartWait => false
    case StartProcess => x.startLock == Held(false) && x.lock == Held(false)
    case DetachStart(_) => x.startLock == Held(false) && x.lock == Held(false)
    case DetachLock(_) => x.startLock == Held(true) && x.lock == Held(false)
    case WaitChild(_) => x.startLock == Held(true) && x.lock == Held(true)
    case UnwindStart => x.startLock != Held(false)
    case UnwindLock => x.startLock == NoHandle
    case Returned => x.startLock == NoHandle && x.lock == NoHandle
    case Threw => x.startLock == NoHandle && x.lock == NoHandle
  }

  /** What a launcher may rely on at its program point. */
  predicate LauncherOk(st: State, x: Launcher) {
    && HandlesOk(x)
    && (x.pc == CheckPid(true) || x.pc.TryStart? || x.pc.StartProcess? ==> !st.files.done)
    && (x.pc.StartProcess? ==> st.files.startLock)
    && (x.pc.ReadPid? ==> st.files.pid.Some? || st.files.code.Some?)
    && (x.pc.WatchProcess? ==>
          match x.pc.target
          case Some(p) => p < |st.scripts| && (PidPhase(st.scripts[p].pc) || CodeWritten(st.scripts[p].pc))
          case None => st.files.code.Some?)
    && (x.pc.ReadCode? ==> st.files.code.Some?)
    && (x.pc.DetachStart? || x.pc.DetachLock? || x.pc.WaitChild? ==> x.pc.child < |st.scripts|)
  }

  predicate ScriptOk(st: State, s: nat)
    requires s < |st.scripts|
  {
    var x := st.scripts[s];
    && !x.pc.Refused?
    && (x.bodyCode.Some? <==> x.pc.WriteCode? || CodeWritten(x.pc))
    && (x.pc.TouchDone? ==> x.bodyCode == Some(0))
    && (BeforeStartRemoved(x.pc) ==> st.files.startLock)
    && (PidPhase(x.pc) ==> st.files.pid == Some(s))
    && (CodeWritten(x.pc) ==> st.files.code.Some?)
    && (!Released(x.pc) && CodeWritten(x.pc) ==> st.files.code == x.bodyCode)
    && (st.files.done ==> CodeWritten(x.pc) && !x.pc.TouchDone?)
  }

  /** `lock.start` exists only while its creator is about to fork or the script has not removed it yet. */
  ghost predicate StartLockOk(st: State) {
    st.files.startLock ==>
      || (exists l :: 0 <= l < |st.launchers| && st.launchers[l].pc.StartProcess?)
      || (exists s :: 0 <= s < |st.scripts| && BeforeStartRemoved(st.scripts[s].pc))
  }

  ghost predicate FilesOk(st: State) {
    && (st.files.pid.Some? ==> st.files.pid.value < |st.scripts| && PidPhase(st.scripts[st.files.pid.value].pc))
    && StartLockOk(st)
    && (st.files.code == Some(0) ==> exists s :: Succeeded(st, s))
    && (st.files.done ==> st.files.code == Some(0))
    && (forall l :: 0 <= l < |st.launchers| && st.launchers[l].verdict.Done? ==> exists s :: Succeeded(st, s))
  }

  ghost predicate Inv(st: State) {
    && LockInv(st)
    && (forall l :: 0 <= l < |st.launchers| ==> LauncherOk(st, st.launchers[l]))
    && (forall s :: 0 <= s < |st.scripts| ==> ScriptOk(st, s))
    && FilesOk(st)
  }

  // ---------------------------------------------------------------- every step keeps the invariant

  /** Bodies that ended with 0 stay recorded. */
  lemma SuccessStays(st: State, e: Event)
    requires Inv(st)
    ensures forall s :: Succeeded(st, s) ==> Succeeded(Step(st, e), s)
  {
    forall s | Succeeded(st, s) ensures Succeeded(Step(st, e), s) {
      assert ScriptOk(st, s);
    }
  }

  /** Creating `lock` makes the launcher its only owner. */
  lemma LockIsTaken(st: State, l: nat, c: Choice)
    requires Inv(st) && l < |st.launchers| && st.launchers[l].pc.TryLock? && !st.files.lock
    ensures forall a :: Owns(LauncherStep(st, l, c), a) <==> a == L(l)
  {
    var st' := LauncherStep(st, l, c);
    forall a ensures Owns(st', a) <==> a == L(l) {
      assert !Owns(st, a);
    }
  }

  /** Forking the script passes the lock on to it. */
  lemma LockIsPassedOn(st: State, l: nat, c: Choice)
    requires Inv(st) && l < |st.launchers| && st.launchers[l].pc.StartProcess?
    ensures forall a :: Owns(LauncherStep(st, l, c), a) <==> a == S(|st.scripts|)
  {
    var st' := LauncherStep(st, l, c);
    assert LauncherOk(st, st.launchers[l]);
    forall a ensures Owns(st', a) <==> a == S(|st.scripts|) {
      assert Owns(st, L(l));
      assert Owns(st, a) ==> a == L(l);
    }
  }

  /** No other step makes anyone an owner, and only the destructor of the lock object ends an ownership. */
  lemma LockIsKept(st: State, l: nat, c: Choice, a: Agent)
    requires Inv(st) && l < |st.launchers|
    requires !st.launchers[l].pc.StartProcess? && !(st.launchers[l].pc.TryLock? && !st.files.lock)
    ensures Owns(LauncherStep(st, l, c), a) <==>
            Owns(st, a) && !(a == L(l) && st.launchers[l].pc.UnwindLock?)
  {
    assert LauncherOk(st, st.launchers[l]);
  }

  lemma LauncherKeepsLock(st: State, l: nat, c: Choice)
    requires Inv(st) && l < |st.launchers|
    ensures LockInv(LauncherStep(st, l, c))
  {
    var st' := LauncherStep(st, l, c);
    var x := st.launchers[l];
    if x.pc.StartProcess? {
      LockIsPassedOn(st, l, c);
      assert LauncherOk(st, x) && Owns(st, L(l)) && Owns(st', S(|st.scripts|));
    } else if x.pc.TryLock? && !st.files.lock {
      LockIsTaken(st, l, c);
      assert Owns(st', L(l));
    } else {
      forall a ensures Owns(st', a) <==> Owns(st, a) && !(a == L(l) && x.pc.UnwindLock?) {
        LockIsKept(st, l, c, a);
      }
      assert Owns(st, L(l)) <==> x.lock == Held(false) && !HandedOver(x.pc);
    }
  }

  lemma LauncherKeepsStartLock(st: State, l: nat, c: Choice)
    requires Inv(st) && l < |st.launchers|
    ensures StartLockOk(LauncherStep(st, l, c))
  {
    assert LauncherOk(st, st.launchers[l]);
    var st' := LauncherStep(st, l, c);
    var x := st.launchers[l];
    if x.pc.StartProcess? {
      assert BeforeStartRemoved(st'.scripts[|st.scripts|].pc);
    } else if x.pc.TryStart? {
      assert Owns(st, L(l));
      if st.files.startLock { StartLockHasOwner(st); }
      assert st'.launchers[l].pc.StartProcess?;
    } else if st'.files.startLock {
      if k :| 0 <= k < |st.launchers| && st.launchers[k].pc.StartProcess? {
        assert st'.launchers[k].pc.StartProcess?;
      } else {
        var s :| 0 <= s < |st.scripts| && BeforeStartRemoved(st.scripts[s].pc);
        assert BeforeStartRemoved(st'.scripts[s].pc);
      }
    }
  }

  lemma LauncherKeepsFiles(st: State, l: nat, c: Choice)
    requires Inv(st) && l < |st.launchers|
    ensures FilesOk(LauncherStep(st, l, c))
  {
    assert LauncherOk(st, st.launchers[l]);
    var st' := LauncherStep(st, l, c);
    LauncherKeepsStartLock(st, l, c);
    SuccessStays(st, LauncherMoves(l, c));
    var x := st.launchers[l];
    if x.pc.WaitChild? && st'.launchers[l].verdict.Done? && !x.verdict.Done? {
      assert Succeeded(st, x.pc.child);
    }
  }

  /** While `lock.start` exists its creator, or the script it started, owns the lock. */
  lemma StartLockHasOwner(st: State)
    requires Inv(st) && st.files.startLock
    ensures exists a :: Owns(st, a) && (a.L? ==> st.launchers[a.l].pc.StartProcess?)
                                    && (a.S? ==> BeforeStartRemoved(st.scripts[a.s].pc))
  {
    if l :| 0 <= l < |st.launchers| && st.launchers[l].pc.StartProcess? {
      assert Owns(st, L(l));
    } else {
      var s :| 0 <= s < |st.scripts| && BeforeStartRemoved(st.scripts[s].pc);
      assert Owns(st, S(s));
    }
  }

  /** While `pid` exists its script owns the lock. */
  lemma PidHasOwner(st: State)
    requires Inv(st) && st.files.pid.Some?
    ensures Owns(st, S(st.files.pid.value))
  {
  }

  /** A script that is gone has recorded its exit code. */
  predicate GoneWithCode(st: State, p: nat) {
    p < |st.scripts| && Gone(st.scripts[p].pc) ==> st.files.code.Some?
  }

  /** What a launcher finds at its next step. */
  predicate Finds(st: State, x: Launcher) {
    && (x.pc == CheckPid(true) ==> st.files.pid.None?)
    && (st.files.pid.Some? ==> st.files.pid.value < |st.scripts| && PidPhase(st.scripts[st.files.pid.value].pc))
    && (x.pc.TryStart? ==> !st.files.startLock)
    && (x.pc.WatchProcess? && x.pc.target.Some? ==> GoneWithCode(st, x.pc.target.value))
    && (x.pc.WaitChild? ==> GoneWithCode(st, x.pc.child))
  }

  lemma LauncherFinds(st: State, l: nat)
    requires Inv(st) && l < |st.launchers|
    ensures LauncherOk(st, st.launchers[l]) && Finds(st, st.launchers[l])
  {
    var x := st.launchers[l];
    assert LauncherOk(st, x);
    if x.pc == CheckPid(true) && st.files.pid.Some? {
      PidHasOwner(st);
      assert Owns(st, L(l));
    }
    if x.pc.TryStart? && st.files.startLock {
      StartLockHasOwner(st);
      assert Owns(st, L(l));
    }
    forall p: nat ensures GoneWithCode(st, p) {
      if p < |st.scripts| { assert ScriptOk(st, p); }
    }
  }

  lemma LauncherMovesOn(st: State, l: nat, c: Choice)
    requires l < |st.launchers| && LauncherOk(st, st.launchers[l]) && Finds(st, st.launchers[l])
    ensures LauncherOk(LauncherStep(st, l, c), LauncherStep(st, l, c).launchers[l])
  {
  }

  lemma LauncherKeepsItself(st: State, l: nat, c: Choice)
    requires Inv(st) && l < |st.launchers|
    ensures LauncherOk(LauncherStep(st, l, c), LauncherStep(st, l, c).launchers[l])
  {
    LauncherFinds(st, l);
    LauncherMovesOn(st, l, c);
  }

  lemma LauncherKeepsLauncher(st: State, l: nat, c: Choice, k: nat)
    requires Inv(st) && l < |st.launchers| && k < |st.launchers| && k != l
    ensures LauncherOk(LauncherStep(st, l, c), st.launchers[k])
  {
    var x := st.launchers[l];
    assert LauncherOk(st, x) && LauncherOk(st, st.launchers[k]);
    assert Owns(st, L(l)) <==> x.lock == Held(false) && !HandedOver(x.pc);
    assert Owns(st, L(k)) <==> st.launchers[k].lock == Held(false) && !HandedOver(st.launchers[k].pc);
  }

  lemma LauncherKeepsScript(st: State, l: nat, c: Choice, s: nat)
    requires Inv(st) && l < |st.launchers| && s < |LauncherStep(st, l, c).scripts|
    ensures ScriptOk(LauncherStep(st, l, c), s)
  {
    var x := st.launchers[l];
    assert LauncherOk(st, x);
    assert Owns(st, L(l)) <==> x.lock == Held(false) && !HandedOver(x.pc);
    if s < |st.scripts| {
      assert ScriptOk(st, s);
      assert Owns(st, S(s)) <==> !Released(st.scripts[s].pc);
    }
  }

  lemma LauncherKeepsInv(st: State, l: nat, c: Choice)
    requires Inv(st) && l < |st.launchers|
    ensures Inv(LauncherStep(st, l, c))
  {
    LauncherKeepsLock(st, l, c);
    LauncherKeepsFiles(st, l, c);
    var st' := LauncherStep(st, l, c);
    forall k | 0 <= k < |st'.launchers| ensures LauncherOk(st', st'.launchers[k]) {
      if k == l { LauncherKeepsItself(st, l, c); } else { LauncherKeepsLauncher(st, l, c, k); }
    }
    forall s | 0 <= s < |st'.scripts| ensures ScriptOk(st', s) {
      LauncherKeepsScript(st, l, c, s);
    }
  }

  lemma ScriptKeepsLock(st: State, s: nat, x: int)
    requires Inv(st) && s < |st.scripts|
    ensures LockInv(ScriptStep(st, s, x))
  {
    var st' := ScriptStep(st, s, x);
    assert ScriptOk(st, s);
    assert forall a :: Owns(st', a) ==> Owns(st, a);
    if !Released(st.scripts[s].pc) {
      assert Owns(st, S(s));
      assert st.scripts[s].pc.CleanLock? <==> !Owns(st', S(s));
    } else if st.files.lock {
      var a :| Owns(st, a);
      assert Owns(st', a);
    }
  }

  lemma ScriptKeepsFiles(st: State, s: nat, x: int)
    requires Inv(st) && s < |st.scripts|
    ensures FilesOk(ScriptStep(st, s, x))
  {
    assert ScriptOk(st, s);
    var st' := ScriptStep(st, s, x);
    SuccessStays(st, ScriptMoves(s, x));
    if !Released(st.scripts[s].pc) { assert Owns(st, S(s)); }
    if st.scripts[s].pc.WriteCode? && st.scripts[s].bodyCode == Some(0) { assert Succeeded(st, s); }
    if st'.files.startLock {
      if k :| 0 <= k < |st.launchers| && st.launchers[k].pc.StartProcess? {
        assert st'.launchers[k].pc.StartProcess?;
      } else {
        var j :| 0 <= j < |st.scripts| && BeforeStartRemoved(st.scripts[j].pc);
        assert Owns(st, S(j));
        assert BeforeStartRemoved(st'.scripts[j].pc);
      }
    }
  }

  lemma ScriptKeepsItself(st: State, s: nat, x: int)
    requires Inv(st) && s < |st.scripts|
    ensures ScriptOk(ScriptStep(st, s, x), s)
  {
    assert ScriptOk(st, s);
    assert Owns(st, S(s)) <==> !Released(st.scripts[s].pc);
  }

  lemma ScriptKeepsScript(st: State, s: nat, x: int, j: nat)
    requires Inv(st) && s < |st.scripts| && j < |st.scripts|
    ensures ScriptOk(ScriptStep(st, s, x), j)
  {
    if j == s {
      ScriptKeepsItself(st, s, x);
    } else {
      assert ScriptOk(st, s) && ScriptOk(st, j);
      assert Owns(st, S(s)) <==> !Released(st.scripts[s].pc);
      assert Owns(st, S(j)) <==> !Released(st.scripts[j].pc);
    }
  }

  lemma ScriptKeepsLauncher(st: State, s: nat, x: int, k: nat)
    requires Inv(st) && s < |st.scripts| && k < |st.launchers|
    ensures LauncherOk(ScriptStep(st, s, x), st.launchers[k])
  {
    assert ScriptOk(st, s) && LauncherOk(st, st.launchers[k]);
    assert Owns(st, S(s)) <==> !Released(st.scripts[s].pc);
    assert Owns(st, L(k)) <==> st.launchers[k].lock == Held(false) && !HandedOver(st.launchers[k].pc);
  }

  lemma ScriptKeepsInv(st: State, s: nat, x: int)
    requires Inv(st) && s < |st.scripts|
    ensures Inv(ScriptStep(st, s, x))
  {
    ScriptKeepsLock(st, s, x);
    ScriptKeepsFiles(st, s, x);
    var st' := ScriptStep(st, s, x);
    forall k | 0 <= k < |st'.launchers| ensures LauncherOk(st', st'.launchers[k]) {
      ScriptKeepsLauncher(st, s, x, k);
    }
    forall j | 0 <= j < |st'.scripts| ensures ScriptOk(st', j) {
      ScriptKeepsScript(st, s, x, j);
    }
  }

  lemma StepKeepsInv(st: State, e: Event)
    requires Inv(st)
    ensures Inv(Step(st, e))
  {
    match e
    case Arrive =>
      var st' := Step(st, e);
      forall a ensures Owns(st', a) <==> Owns(st, a) {}
      forall l | 0 <= l < |st'.launchers| ensures LauncherOk(st', st'.launchers[l]) {
        if l < |st.launchers| { assert LauncherOk(st, st.launchers[l]); }
      }
      forall s | 0 <= s < |st'.scripts| ensures ScriptOk(st', s) { assert ScriptOk(st, s); }
      assert forall s :: Succeeded(st', s) <==> Succeeded(st, s);
      if st.files.startLock {
        StartLockHasOwner(st);
        if l :| 0 <= l < |st.launchers| && st.launchers[l].pc.StartProcess? {
          assert st'.launchers[l].pc.StartProcess?;
        }
      }
    case LauncherMoves(l, c) =>
      if l < |st.launchers| { LauncherKeepsInv(st, l, c); }
    case ScriptMoves(s, x) =>
      if s < |st.scripts| { ScriptKeepsInv(st, s, x); }
  }

  lemma {:induction false} RunKeepsInv(st: State, events: seq<Event>)
    requires Inv(st)
    ensures Inv(Run(st, events))
    decreases |events|
  {
    if events != [] {
      StepKeepsInv(st, events[0]);
      RunKeepsInv(Step(st, events[0]), events[1..]);
    }
  }

  lemma InitInv()
    ensures Inv(INIT)
  {
    assert forall a :: !Owns(INIT, a);
  }

  // ---------------------------------------------------------------- main results

  predicate BodyRuns(st: State, s: nat) { s < |st.scripts| && st.scripts[s].pc.InBody? }

  /** The scripts whose command body has been started. */
  function Started(st: State): set<nat> {
    set s | 0 <= s < |st.scripts| && (st.scripts[s].pc.InBody? || st.scripts[s].bodyCode.Some?)
  }

  /**
    In every run: `lock` exists exactly when somebody owns it, that owner is unique, `pid` names a script that
    owns the lock, no launcher is in its critical section while a body runs, and at most one body runs.
  */
  lemma MutualExclusion(events: seq<Event>)
    ensures var st := Run(INIT, events);
            && (st.files.lock <==> exists a :: Owns(st, a))
            && (forall a, b :: Owns(st, a) && Owns(st, b) ==> a == b)
            && (forall p :: st.files.pid == Some(p) ==> Owns(st, S(p)))
            && (forall s, l :: BodyRuns(st, s) ==> !Owns(st, L(l)))
            && (forall s, t :: BodyRuns(st, s) && BodyRuns(st, t) ==> s == t)
  {
    InitInv();
    RunKeepsInv(INIT, events);
    var st := Run(INIT, events);
    forall p | st.files.pid == Some(p) ensures Owns(st, S(p)) { PidHasOwner(st); }
    assert forall s :: BodyRuns(st, s) ==> Owns(st, S(s));
  }

  lemma NoneStartsAfterDone(st: State, e: Event)
    requires Inv(st) && st.files.done
    ensures Step(st, e).files.done
    ensures Started(Step(st, e)) == Started(st)
    ensures forall s :: !BodyRuns(st, s)
  {
    forall s | 0 <= s < |st.scripts| ensures s in Started(Step(st, e)) <==> s in Started(st) {
      assert ScriptOk(st, s);
    }
    assert forall s :: BodyRuns(st, s) ==> ScriptOk(st, s);
  }

  /** Once `done` exists it stays, with exit code 0 beside it, and no body is running or ever started again. */
  lemma {:induction false} DoneStays(st: State, events: seq<Event>)
    requires Inv(st) && st.files.done
    ensures var st' := Run(st, events);
            && st'.files.done && st'.files.code == Some(0)
            && Started(st') == Started(st)
            && forall s :: !BodyRuns(st', s)
    decreases |events|
  {
    if events == [] {
      NoneStartsAfterDone(st, Arrive);
    } else {
      NoneStartsAfterDone(st, events[0]);
      StepKeepsInv(st, events[0]);
      DoneStays(Step(st, events[0]), events[1..]);
    }
  }

  lemma DoneIsFinal(before: seq<Event>, after: seq<Event>)
    requires Run(INIT, before).files.done
    ensures var st := Run(INIT, before);
            var st' := Run(st, after);
            && st'.files.done && st'.files.code == Some(0)
            && Started(st') == Started(st)
            && forall s :: !BodyRuns(st', s)
  {
    InitInv();
    RunKeepsInv(INIT, before);
    DoneStays(Run(INIT, before), after);
  }

  /** A job is declared DONE, the `done` file exists or `code` says 0 only if some body of the job exited with 0. */
  lemma DoneIsSound(events: seq<Event>)
    ensures var st := Run(INIT, events);
            && (forall l :: 0 <= l < |st.launchers| && st.launchers[l].verdict.Done? ==> exists s :: Succeeded(st, s))
            && (st.files.done || st.files.code == Some(0) ==> exists s :: Succeeded(st, s))
  {
    InitInv();
    RunKeepsInv(INIT, events);
  }

  /**
    Nothing in a run is left to chance: the script's guards never refuse, the start lock is never found taken,
    the destructor of the lock object always finds its file, and no verdict depends on a number read from a
    missing file. After `done` a verdict read from the files is DONE.
  */
  lemma HandOverIsClean(events: seq<Event>, l: nat, c: Choice, d: Choice)
    requires l < |Run(INIT, events).launchers|
    ensures var st := Run(INIT, events);
            var x := st.launchers[l];
            && (forall s :: 0 <= s < |st.scripts| ==> !st.scripts[s].pc.Refused?)
            && !x.pc.StartBusy?
            && (x.pc.UnwindStart? ==> x.startLock != Held(false))
            && (x.pc.UnwindLock? && x.lock == Held(false) ==> st.files.lock)
            && (x.pc.ReadCode? ==> LauncherStep(st, l, c) == LauncherStep(st, l, d))
            && (st.files.done && (x.pc.ReadCode? || x.pc.CheckDone?) ==>
                  LauncherStep(st, l, c).launchers[l].verdict.Done?)
  {
    InitInv();
    RunKeepsInv(INIT, events);
    var st := Run(INIT, events);
    assert LauncherOk(st, st.launchers[l]);
    forall s | 0 <= s < |st.scripts| ensures !st.scripts[s].pc.Refused? { assert ScriptOk(st, s); }
    if st.launchers[l].pc.UnwindLock? && st.launchers[l].lock == Held(false) { assert Owns(st, L(l)); }
  }

  lemma {:induction false} RunAppend(st: State, a: seq<Event>, b: seq<Event>)
    ensures Run(st, a + b) == Run(Run(st, a), b)
    decreases |a|
  {
    if a == [] {
      assert a + b == b;
    } else {
      assert (a + b)[0] == a[0] && (a + b)[1..] == a[1..] + b;
      RunAppend(Step(st, a[0]), a[1..], b);
    }
  }

  ghost predicate Reachable(st: State) { exists events :: Run(INIT, events) == st }

  lemma Advance(st: State, e: Event) returns (st': State)
    requires Reachable(st)
    ensures Reachable(st') && st' == Step(st, e)
  {
    var events :| Run(INIT, events) == st;
    RunAppend(INIT, events, [e]);
    st' := Step(st, e);
    assert Run(INIT, events + [e]) == st';
  }
}
