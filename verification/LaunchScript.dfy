/**
  The script that the builder writes, as a list of shell lines, and what executing it does to the marker files:
  line by line it behaves as the script of the launch protocol.
*/
module LaunchScript {
  import P = LaunchProtocol

  datatype File = LockFile | StartLockFile | PidFile | CodeFile | DoneFile | OtherFile(name: string)

  /** The lines that matter to the protocol; `Plain` is any other line (settings, variables, `cd`, temporary files). */
  datatype Line =
    | Guard(file: File)              // if ! test -f ...; then exit 017; fi
    | Remove(file: File)
    | EchoPid
    | Cleanup(body: seq<Line>)       // definition of the cleanup function
    | Trap                           // trap cleanup 0
    | Background                     // ( command ) &
    | Wait                           // wait $PID; code=$?
    | IfFailed                       // if test $code -ne 0; then echo $code > code file; exit $code; fi
    | EchoZero                       // echo 0 > code file
    | Touch                          // touch the done file
    | Plain

  // ---------------------------------------------------------------- writing

  function Significant(lines: seq<Line>): seq<Line>
    decreases |lines|
  {
    if lines == [] then [] else (if lines[0].Plain? then [] else [lines[0]]) + Significant(lines[1..])
  }

  lemma {:induction false} SignificantAppend(a: seq<Line>, b: seq<Line>)
    ensures Significant(a + b) == Significant(a) + Significant(b)
    decreases |a|
  {
    if a == [] {
      assert a + b == b;
    } else {
      assert (a + b)[1..] == a[1..] + b;
      SignificantAppend(a[1..], b);
    }
  }

  function Guards(files: seq<File>): seq<Line>
    decreases |files|
  {
    if files == [] then [] else [Guard(files[0])] + Guards(files[1..])
  }

  function Removes(files: seq<File>): seq<Line>
    decreases |files|
  {
    if files == [] then [] else [Remove(files[0])] + Removes(files[1..])
  }

  /** The lines of a script that guards one lock file, from number k on. */
  function LineAt(k: nat, body: seq<Line>): Line {
    if k == 0 then Guard(LockFile) else if k == 1 then Guard(StartLockFile) else if k == 2 then Remove(StartLockFile)
    else if k == 3 then EchoPid else if k == 4 then Cleanup(body) else if k == 5 then Trap else if k == 6 then Background
    else if k == 7 then Wait else if k == 8 then IfFailed else if k == 9 then EchoZero else Touch
  }

  function MainFrom(k: nat, body: seq<Line>): seq<Line>
    decreases 11 - k
  {
    if k >= 11 then [] else [LineAt(k, body)] + MainFrom(k + 1, body)
  }

  /** What the written lines amount to: guards first, cleanup trapped before the command, `done` touched last. */
  ghost predicate IsScript(lines: seq<Line>, lockFiles: seq<File>) {
    exists body :: Significant(body) == [Remove(PidFile)] + Removes(lockFiles)
      && Significant(lines) == Guards(lockFiles) + MainFrom(1, body)
  }

  function Kept(line: Line): seq<Line> { if line.Plain? then [] else [line] }

  lemma SignificantSnoc(lines: seq<Line>, line: Line)
    ensures Significant(lines + [line]) == Significant(lines) + Kept(line)
  {
    SignificantAppend(lines, [line]);
    assert [line][1..] == [];
  }

  class ShScriptBuilder {
    var lockFiles: seq<File>
    var environment: seq<(string, string)>
    var notification: bool
    var preprocess: nat
    var temporaries: nat
    var out: seq<Line>

    constructor (lockFiles: seq<File>, environment: seq<(string, string)>, notification: bool,
                 preprocess: nat, temporaries: nat)
      ensures this.lockFiles == lockFiles && out == []
    {
      this.lockFiles, this.environment, this.notification := lockFiles, environment, notification;
      this.preprocess, this.temporaries, this.out := preprocess, temporaries, [];
    }

    method Emit(line: Line)
      modifies this`out
      ensures Significant(out) == Significant(old(out)) + Kept(line)
    {
      SignificantSnoc(out, line);
      out := out + [line];
    }

    /** Lines that do not touch the marker files. */
    method EmitPlain(count: nat)
      modifies this`out
      ensures Significant(out) == Significant(old(out))
    {
      var i := 0;
      while i < count
        invariant i <= count && Significant(out) == Significant(old(out))
      {
        Emit(Plain);
        i := i + 1;
      }
    }

    method EmitGuards()
      modifies this`out
      ensures Significant(out) == Significant(old(out)) + Guards(lockFiles)
    {
      var i := 0;
      assert lockFiles[0..] == lockFiles;
      while i < |lockFiles|
        invariant 0 <= i <= |lockFiles|
        invariant Significant(out) + Guards(lockFiles[i..]) == Significant(old(out)) + Guards(lockFiles)
      {
        assert lockFiles[i..][1..] == lockFiles[i + 1..];
        Emit(Guard(lockFiles[i]));
        i := i + 1;
      }
    }

    method EmitRemoves()
      modifies this`out
      ensures Significant(out) == Significant(old(out)) + Removes(lockFiles)
    {
      var i := 0;
      assert lockFiles[0..] == lockFiles;
      while i < |lockFiles|
        invariant 0 <= i <= |lockFiles|
        invariant Significant(out) + Removes(lockFiles[i..]) == Significant(old(out)) + Removes(lockFiles)
      {
        assert lockFiles[i..][1..] == lockFiles[i + 1..];
        Emit(Remove(lockFiles[i]));
        i := i + 1;
      }
    }

    /** The cleanup function: written into the same stream, kept here as one line with a body. */
    method EmitCleanup() returns (body: seq<Line>)
      modifies this`out
      ensures Significant(body) == [Remove(PidFile)] + Removes(lockFiles)
      ensures Significant(out) == Significant(old(out)) + [Cleanup(body)]
    {
      var before := out;
      out := [];
      EmitPlain(2);
      Emit(Remove(PidFile));
      EmitRemoves();
      EmitPlain(temporaries);
      EmitPlain(if notification then 1 else 0);
      EmitPlain(1);
      body, out := out, before;
      Emit(Cleanup(body));
    }

    method Write() returns (lines: seq<Line>)
      modifies this`out
      ensures IsScript(lines, lockFiles)
    {
      out := [];
      EmitHead();
      EmitPlain(|environment|);
      EmitPlain(if notification then 1 else 0);
      EmitPlain(1);
      EmitPlain(preprocess);
      var body := EmitCleanup();
      Emit(Trap);
      EmitPlain(1);
      EmitCommand();
      lines := out;
      WrittenInOrder(Guards(lockFiles), body);
      assert Significant(lines) == Guards(lockFiles) + MainFrom(1, body);
    }

    /** Check the locks, remove the start lock, write the process number. */
    method EmitHead()
      modifies this`out
      ensures Significant(out) == Significant(old(out)) + Guards(lockFiles) + [Guard(StartLockFile)]
                                  + [Remove(StartLockFile)] + [EchoPid]
    {
      EmitGuards();
      Emit(Guard(StartLockFile));
      Emit(Remove(StartLockFile));
      EmitPlain(1);
      Emit(EchoPid);
    }

    /** Run the command, record its status, and say that it is done. */
    method EmitCommand()
      modifies this`out
      ensures Significant(out) == Significant(old(out)) + [Background] + [Wait] + [IfFailed] + [EchoZero] + [Touch]
    {
      Emit(Background);
      Emit(Wait);
      Emit(IfFailed);
      Emit(EchoZero);
      Emit(Touch);
    }
  }

  lemma Shift(s: seq<Line>, k: nat, body: seq<Line>)
    requires k < 11
    ensures (s + [LineAt(k, body)]) + MainFrom(k + 1, body) == s + MainFrom(k, body)
  {
  }

  lemma WrittenInOrder(g: seq<Line>, body: seq<Line>)
    ensures [] + g + [Guard(StartLockFile)] + [Remove(StartLockFile)] + [EchoPid] + [Cleanup(body)] + [Trap]
            + [Background] + [Wait] + [IfFailed] + [EchoZero] + [Touch] == g + MainFrom(1, body)
  {
    assert [] + g == g;
    var head := g + [Guard(StartLockFile)] + [Remove(StartLockFile)] + [EchoPid];
    Shift(g, 1, body);
    Shift(g + [Guard(StartLockFile)], 2, body);
    Shift(g + [Guard(StartLockFile)] + [Remove(StartLockFile)], 3, body);
    var middle := head + [Cleanup(body)] + [Trap] + [Background];
    Shift(head, 4, body);
    Shift(head + [Cleanup(body)], 5, body);
    Shift(head + [Cleanup(body)] + [Trap], 6, body);
    Shift(middle, 7, body);
    Shift(middle + [Wait], 8, body);
    Shift(middle + [Wait] + [IfFailed], 9, body);
    var all := middle + [Wait] + [IfFailed] + [EchoZero] + [Touch];
    Shift(middle + [Wait] + [IfFailed] + [EchoZero], 10, body);
    assert all + MainFrom(11, body) == all;
  }

  // ---------------------------------------------------------------- executing

  /** A shell: the lines left, the cleanup function, whether it is trapped, the command's status, and how it ended. */
  datatype Shell = Shell(rest: seq<Line>, cleanup: seq<Line>, trapped: bool, code: P.Option<int>, cleaning: bool, ended: End)
  datatype End = No | Normally | ByGuard

  function StartShell(lines: seq<Line>): Shell { Shell(lines, [], false, P.None, false, No) }

  function Exists(f: P.Files, x: File): bool {
    match x
    case LockFile => f.lock
    case StartLockFile => f.startLock
    case PidFile => f.pid.Some?
    case CodeFile => f.code.Some?
    case DoneFile => f.done
    case OtherFile(_) => false
  }

  function Delete(f: P.Files, x: File): P.Files {
    match x
    case LockFile => f.(lock := false)
    case StartLockFile => f.(startLock := false)
    case PidFile => f.(pid := P.None)
    case CodeFile => f.(code := P.None)
    case DoneFile => f.(done := false)
    case OtherFile(_) => f
  }

  /** Leaving the shell runs the trapped function first. */
  function Exit(sh: Shell): Shell {
    if sh.trapped then sh.(rest := sh.cleanup, trapped := false, cleaning := true)
    else sh.(rest := [], ended := Normally)
  }

  /** One line; `bodyExit` is the status the command ends with, `pid` the shell's own number. */
  function ShellStep(f: P.Files, sh: Shell, pid: nat, bodyExit: int): (P.Files, Shell) {
    if !sh.ended.No? then (f, sh)
    else if sh.rest == [] then (f, Exit(sh))
    else
      var next := sh.(rest := sh.rest[1..]);
      match sh.rest[0]
      case Guard(x) => (f, if Exists(f, x) then next else sh.(rest := [], ended := ByGuard))
      case Remove(x) => (Delete(f, x), next)
      case EchoPid => (f.(pid := P.Some(pid)), next)
      case Cleanup(body) => (f, next.(cleanup := body))
      case Trap => (f, next.(trapped := true))
      case Background => (f, next)
      case Wait => (f, next.(code := P.Some(bodyExit)))
      case IfFailed => if sh.code == P.Some(0) then (f, next) else (f.(code := sh.code), Exit(sh))
      case EchoZero => (f.(code := P.Some(0)), next)
      case Touch => (f.(done := true), next)
      case Plain => (f, next)
  }

  // ---------------------------------------------------------------- the script of the protocol

  /** The lines of the cleanup function, and of the script, from one on. */
  function BodyFrom(j: nat): seq<Line>
    decreases 2 - j
  {
    if j == 0 then [Remove(PidFile)] + BodyFrom(1) else if j == 1 then [Remove(LockFile)] + BodyFrom(2) else []
  }

  /** The protocol's program point when the significant lines from number k on are left. */
  function PcOf(k: nat): P.ScriptPc {
    if k == 0 then P.TestLock else if k == 1 then P.TestStart else if k == 2 then P.RemoveStart
    else if k == 3 then P.WritePid else if k <= 5 then P.SetTrap else if k == 6 then P.StartBody
    else if k == 7 then P.InBody else if k <= 9 then P.WriteCode else if k == 10 then P.TouchDone else P.CleanPid
  }

  function CleanPcOf(j: nat): P.ScriptPc { if j == 0 then P.CleanPid else if j == 1 then P.CleanLock else P.CleanRest }

  ghost predicate CleaningAt(sh: Shell, s: P.Script, j: nat) {
    && j <= 2 && sh.cleaning && sh.ended.No? && !sh.trapped && sh.code.Some?
    && Significant(sh.rest) == BodyFrom(j) && s == P.Script(CleanPcOf(j), sh.code)
  }

  ghost predicate RunningAt(sh: Shell, s: P.Script, k: nat, body: seq<Line>) {
    && k <= 11 && !sh.cleaning && sh.ended.No?
    && Significant(body) == BodyFrom(0) && Significant(sh.rest) == MainFrom(k, body)
    && (k > 4 ==> sh.cleanup == body) && sh.trapped == (k > 5) && sh.code.Some? == (k > 7)
    && (k > 8 ==> sh.code == P.Some(0))
    && s == P.Script(PcOf(k), sh.code)
  }

  ghost predicate EndedAs(sh: Shell, s: P.Script) {
    match sh.ended
    case No => false
    case ByGuard => s == P.Script(P.Refused, P.None)
    case Normally => s.pc == P.Exited && s.bodyCode == sh.code && sh.code.Some?
  }

  /** The shell is where the protocol's script is. */
  ghost predicate Corresponds(sh: Shell, s: P.Script) {
    EndedAs(sh, s) || (exists j :: CleaningAt(sh, s, j)) || (exists k, body :: RunningAt(sh, s, k, body))
  }

  /** A written script starts where the protocol's script starts. */
  lemma WrittenScriptStarts(lines: seq<Line>)
    requires IsScript(lines, [LockFile])
    ensures Corresponds(StartShell(lines), P.Script(P.TestLock, P.None))
  {
    var body :| Significant(body) == [Remove(PidFile)] + Removes([LockFile])
      && Significant(lines) == Guards([LockFile]) + MainFrom(1, body);
    assert [LockFile][1..] == [];
    assert Guards([LockFile]) == [Guard(LockFile)] && Removes([LockFile]) == [Remove(LockFile)];
    assert BodyFrom(1) == [Remove(LockFile)] by { assert BodyFrom(2) == []; }
    assert MainFrom(0, body) == [Guard(LockFile)] + MainFrom(1, body);
    assert RunningAt(StartShell(lines), P.Script(P.TestLock, P.None), 0, body);
  }

  lemma FirstIsSignificant(lines: seq<Line>)
    requires lines != []
    ensures lines[0].Plain? ==> Significant(lines[1..]) == Significant(lines)
    ensures !lines[0].Plain? ==> Significant(lines) != [] && Significant(lines)[0] == lines[0]
                                 && Significant(lines)[1..] == Significant(lines[1..])
  {
    if !lines[0].Plain? {
      assert ([lines[0]] + Significant(lines[1..]))[1..] == Significant(lines[1..]);
    }
  }

  /** Nothing the protocol sees happened, or one step of its script. */
  ghost predicate Follows(st: P.State, pid: nat, x: int, files: P.Files, sh: Shell)
    requires pid < |st.scripts|
  {
    (files == st.files && Corresponds(sh, st.scripts[pid]))
    || (files == P.ScriptStep(st, pid, x).files && Corresponds(sh, P.ScriptStep(st, pid, x).scripts[pid]))
  }

  /** Executing a line of the script is a step of the protocol's script, or none. */
  lemma LineIsProtocolStep(st: P.State, sh: Shell, pid: nat, x: int)
    requires pid < |st.scripts| && Corresponds(sh, st.scripts[pid])
    ensures Follows(st, pid, x, ShellStep(st.files, sh, pid, x).0, ShellStep(st.files, sh, pid, x).1)
  {
    var s := st.scripts[pid];
    if sh.ended.No? {
      if j :| CleaningAt(sh, s, j) {
        if sh.rest != [] && !sh.rest[0].Plain? { CleaningStep(st, sh, pid, x, j); } else { CleaningIdle(st, sh, pid, x, j); }
      } else {
        var k, body :| RunningAt(sh, s, k, body);
        if sh.rest == [] || sh.rest[0].Plain? {
          RunningIdle(st, sh, pid, x, k, body);
        } else {
          RunningStep(st, sh, pid, x, k, body);
        }
      }
    }
  }

  lemma CleaningStep(st: P.State, sh: Shell, pid: nat, x: int, j: nat)
    requires pid < |st.scripts| && CleaningAt(sh, st.scripts[pid], j) && sh.rest != [] && !sh.rest[0].Plain?
    ensures Follows(st, pid, x, ShellStep(st.files, sh, pid, x).0, ShellStep(st.files, sh, pid, x).1)
  {
    FirstIsSignificant(sh.rest);
    var sh' := ShellStep(st.files, sh, pid, x).1;
    assert j < 2;
    assert BodyFrom(j)[1..] == BodyFrom(j + 1);
    assert CleaningAt(sh', P.ScriptStep(st, pid, x).scripts[pid], j + 1);
  }

  lemma CleaningIdle(st: P.State, sh: Shell, pid: nat, x: int, j: nat)
    requires pid < |st.scripts| && CleaningAt(sh, st.scripts[pid], j) && (sh.rest == [] || sh.rest[0].Plain?)
    ensures Follows(st, pid, x, ShellStep(st.files, sh, pid, x).0, ShellStep(st.files, sh, pid, x).1)
  {
    var sh' := ShellStep(st.files, sh, pid, x).1;
    if sh.rest == [] {
      assert j == 2;
      assert EndedAs(sh', P.ScriptStep(st, pid, x).scripts[pid]);
    } else {
      FirstIsSignificant(sh.rest);
      assert CleaningAt(sh', st.scripts[pid], j);
    }
  }

  lemma RunningIdle(st: P.State, sh: Shell, pid: nat, x: int, k: nat, body: seq<Line>)
    requires pid < |st.scripts| && RunningAt(sh, st.scripts[pid], k, body) && (sh.rest == [] || sh.rest[0].Plain?)
    ensures Follows(st, pid, x, ShellStep(st.files, sh, pid, x).0, ShellStep(st.files, sh, pid, x).1)
  {
    var sh' := ShellStep(st.files, sh, pid, x).1;
    if sh.rest == [] {
      assert k == 11;
      assert CleaningAt(sh', st.scripts[pid], 0);
    } else {
      FirstIsSignificant(sh.rest);
      assert RunningAt(sh', st.scripts[pid], k, body);
    }
  }

  lemma RunningStep(st: P.State, sh: Shell, pid: nat, x: int, k: nat, body: seq<Line>)
    requires pid < |st.scripts| && RunningAt(sh, st.scripts[pid], k, body) && sh.rest != [] && !sh.rest[0].Plain?
    ensures Follows(st, pid, x, ShellStep(st.files, sh, pid, x).0, ShellStep(st.files, sh, pid, x).1)
  {
    FirstIsSignificant(sh.rest);
    assert k < 11 && sh.rest[0] == LineAt(k, body);
    assert MainFrom(k, body)[1..] == MainFrom(k + 1, body);
    if k < 4 { GuardStep(st, sh, pid, x, k, body); } else { CommandStep(st, sh, pid, x, k, body); }
  }

  lemma GuardStep(st: P.State, sh: Shell, pid: nat, x: int, k: nat, body: seq<Line>)
    requires pid < |st.scripts| && RunningAt(sh, st.scripts[pid], k, body) && sh.rest != [] && k < 4
    requires sh.rest[0] == LineAt(k, body) && Significant(sh.rest[1..]) == MainFrom(k + 1, body)
    ensures Follows(st, pid, x, ShellStep(st.files, sh, pid, x).0, ShellStep(st.files, sh, pid, x).1)
  {
    var sh', s' := ShellStep(st.files, sh, pid, x).1, P.ScriptStep(st, pid, x).scripts[pid];
    if sh'.ended.ByGuard? {
      assert EndedAs(sh', s');
    } else {
      assert RunningAt(sh', s', k + 1, body);
    }
  }

  lemma CommandStep(st: P.State, sh: Shell, pid: nat, x: int, k: nat, body: seq<Line>)
    requires pid < |st.scripts| && RunningAt(sh, st.scripts[pid], k, body) && sh.rest != [] && 4 <= k < 11
    requires sh.rest[0] == LineAt(k, body) && Significant(sh.rest[1..]) == MainFrom(k + 1, body)
    ensures Follows(st, pid, x, ShellStep(st.files, sh, pid, x).0, ShellStep(st.files, sh, pid, x).1)
  {
    var sh', s' := ShellStep(st.files, sh, pid, x).1, P.ScriptStep(st, pid, x).scripts[pid];
    if k == 8 && sh.code != P.Some(0) {
      assert CleaningAt(sh', s', 0);
    } else if k == 4 || k == 8 {
      assert RunningAt(sh', st.scripts[pid], k + 1, body);
    } else {
      assert RunningAt(sh', s', k + 1, body);
    }
  }

  // ---------------------------------------------------------------- launchers and real scripts together

  datatype System = System(files: P.Files, launchers: seq<P.Launcher>, shells: seq<Shell>)

  const START := System(P.INIT.files, [], [])

  /** What a launcher can observe of a shell: whether it is gone, and then its exit status. */
  function Seen(sh: Shell): P.Script {
    match sh.ended
    case No => P.Script(P.TestLock, P.None)
    case ByGuard => P.Script(P.Refused, P.None)
    case Normally => P.Script(P.Exited, sh.code)
  }

  function View(c: System): P.State {
    P.State(c.files, c.launchers, seq(|c.shells|, i requires 0 <= i < |c.shells| => Seen(c.shells[i])))
  }

  /** Launchers move as in the protocol; a started process executes the written lines. */
  function SystemStep(c: System, e: P.Event, lines: seq<Line>): System {
    match e
    case Arrive => c.(launchers := c.launchers + [P.NEW_LAUNCHER])
    case LauncherMoves(l, choice) =>
      if l < |c.launchers| then
        var r := P.LauncherStep(View(c), l, choice);
        System(r.files, r.launchers, c.shells + if |r.scripts| > |c.shells| then [StartShell(lines)] else [])
      else c
    case ScriptMoves(s, x) =>
      if s < |c.shells| then
        var (files, shell) := ShellStep(c.files, c.shells[s], s, x);
        System(files, c.launchers, c.shells[s := shell])
      else c
  }

  function SystemRun(c: System, events: seq<P.Event>, lines: seq<Line>): System
    decreases |events|
  {
    if events == [] then c else SystemRun(SystemStep(c, events[0], lines), events[1..], lines)
  }

  ghost predicate Refines(c: System, st: P.State) {
    && c.files == st.files && c.launchers == st.launchers && |c.shells| == |st.scripts|
    && forall i :: 0 <= i < |c.shells| ==> Corresponds(c.shells[i], st.scripts[i])
  }

  lemma SeenIsEnough(sh: Shell, s: P.Script)
    requires Corresponds(sh, s)
    ensures P.Gone(Seen(sh).pc) == P.Gone(s.pc)
    ensures P.Gone(s.pc) ==> P.ExitStatus(Seen(sh)) == P.ExitStatus(s)
  {
    if sh.ended.No? {
      if j :| CleaningAt(sh, s, j) {
      } else {
        var k, body :| RunningAt(sh, s, k, body);
      }
    }
  }

  lemma LauncherSeesTheSame(c: System, st: P.State, l: nat, choice: P.Choice)
    requires Refines(c, st) && l < |c.launchers|
    ensures var a, b := P.LauncherStep(View(c), l, choice), P.LauncherStep(st, l, choice);
            && a.files == b.files && a.launchers == b.launchers
            && (|a.scripts| > |c.shells| <==> b.scripts == st.scripts + [P.Script(P.TestLock, P.None)])
            && (|a.scripts| <= |c.shells| <==> b.scripts == st.scripts)
  {
    forall i | 0 <= i < |c.shells| ensures P.Gone(Seen(c.shells[i]).pc) == P.Gone(st.scripts[i].pc)
      ensures P.Gone(st.scripts[i].pc) ==> P.ExitStatus(Seen(c.shells[i])) == P.ExitStatus(st.scripts[i])
    {
      SeenIsEnough(c.shells[i], st.scripts[i]);
    }
    LauncherSeesLittle(View(c), st, l, choice);
  }

  /** A launcher sees the files, and of a script only whether it is gone and with which status. */
  lemma LauncherSeesLittle(a: P.State, b: P.State, l: nat, choice: P.Choice)
    requires l < |a.launchers| && a.files == b.files && a.launchers == b.launchers && |a.scripts| == |b.scripts|
    requires forall i :: 0 <= i < |a.scripts| ==> P.Gone(a.scripts[i].pc) == P.Gone(b.scripts[i].pc)
    requires forall i :: 0 <= i < |a.scripts| && P.Gone(b.scripts[i].pc) ==>
               P.ExitStatus(a.scripts[i]) == P.ExitStatus(b.scripts[i])
    ensures var x, y := P.LauncherStep(a, l, choice), P.LauncherStep(b, l, choice);
            && x.files == y.files && x.launchers == y.launchers
            && (|x.scripts| > |a.scripts| <==> y.scripts == b.scripts + [P.Script(P.TestLock, P.None)])
            && (|x.scripts| <= |a.scripts| <==> y.scripts == b.scripts)
  {
  }

  lemma LauncherFollows(c: System, st: P.State, l: nat, choice: P.Choice, lines: seq<Line>)
    requires Refines(c, st) && IsScript(lines, [LockFile])
    ensures Refines(SystemStep(c, P.LauncherMoves(l, choice), lines), P.Step(st, P.LauncherMoves(l, choice)))
  {
    if l < |c.launchers| {
      LauncherSeesTheSame(c, st, l, choice);
      WrittenScriptStarts(lines);
    }
  }

  lemma OnlyOneScriptMoves(st: P.State, pid: nat, x: int)
    requires pid < |st.scripts|
    ensures var r := P.ScriptStep(st, pid, x);
            && r.launchers == st.launchers && |r.scripts| == |st.scripts|
            && forall i :: 0 <= i < |st.scripts| && i != pid ==> r.scripts[i] == st.scripts[i]
  {
  }

  lemma ShellFollows(c: System, st: P.State, s: nat, x: int, lines: seq<Line>)
    requires Refines(c, st) && s < |c.shells|
    ensures var c' := SystemStep(c, P.ScriptMoves(s, x), lines);
            Refines(c', st) || Refines(c', P.Step(st, P.ScriptMoves(s, x)))
  {
    LineIsProtocolStep(st, c.shells[s], s, x);
    OnlyOneScriptMoves(st, s, x);
    var c', r := SystemStep(c, P.ScriptMoves(s, x), lines), P.ScriptStep(st, s, x);
    assert forall i :: 0 <= i < |c.shells| && i != s ==> c'.shells[i] == c.shells[i];
    if c'.files == st.files && Corresponds(c'.shells[s], st.scripts[s]) {
      assert Refines(c', st);
    } else {
      assert Refines(c', r);
    }
  }

  /** Every step of the system is a step of the protocol, or invisible to it. */
  lemma SystemStepFollows(c: System, st: P.State, e: P.Event, lines: seq<Line>)
    requires Refines(c, st) && IsScript(lines, [LockFile])
    ensures Refines(SystemStep(c, e, lines), st) || Refines(SystemStep(c, e, lines), P.Step(st, e))
  {
    match e
    case Arrive =>
    case LauncherMoves(l, choice) => LauncherFollows(c, st, l, choice, lines);
    case ScriptMoves(s, x) => if s < |c.shells| { ShellFollows(c, st, s, x, lines); }
  }

  lemma {:induction false} SystemRunFollows(c: System, st: P.State, events: seq<P.Event>, lines: seq<Line>)
    requires Refines(c, st) && IsScript(lines, [LockFile])
    ensures exists trace: seq<P.Event> :: Refines(SystemRun(c, events, lines), P.Run(st, trace))
    decreases |events|
  {
    if events == [] {
      assert P.Run(st, []) == st;
    } else {
      var c' := SystemStep(c, events[0], lines);
      SystemStepFollows(c, st, events[0], lines);
      if Refines(c', st) {
        SystemRunFollows(c', st, events[1..], lines);
      } else {
        SystemRunFollows(c', P.Step(st, events[0]), events[1..], lines);
        var trace: seq<P.Event> :| Refines(SystemRun(c', events[1..], lines), P.Run(P.Step(st, events[0]), trace));
        RunFirst(st, events[0], trace);
      }
    }
  }

  lemma RunFirst(st: P.State, e: P.Event, trace: seq<P.Event>)
    ensures P.Run(st, [e] + trace) == P.Run(P.Step(st, e), trace)
  {
    assert ([e] + trace)[1..] == trace;
  }

  /** The shell waits for its command. */
  predicate CommandRuns(sh: Shell) {
    sh.ended.No? && !sh.cleaning && Significant(sh.rest) != [] && Significant(sh.rest)[0].Wait?
  }

  predicate RunsIn(c: System, i: int) { 0 <= i < |c.shells| && CommandRuns(c.shells[i]) }

  lemma RunningCommandIsBody(sh: Shell, s: P.Script)
    requires Corresponds(sh, s) && CommandRuns(sh)
    ensures s.pc.InBody?
  {
    var k, body :| RunningAt(sh, s, k, body);
    assert k < 11 && Significant(sh.rest)[0] == LineAt(k, body);
  }

  /**
    The protocol's guarantees hold of the script as it is written: however launchers and shells interleave, at most
    one command runs, none runs once `done` exists, and `done` means that a command succeeded.
  */
  lemma WrittenScriptsAreSafe(events: seq<P.Event>, lines: seq<Line>)
    requires IsScript(lines, [LockFile])
    ensures var c := SystemRun(START, events, lines);
            && (forall i, j :: RunsIn(c, i) && RunsIn(c, j) ==> i == j)
            && (c.files.done ==> forall i :: !RunsIn(c, i))
            && (c.files.done ==> exists i :: 0 <= i < |c.shells| && c.shells[i].code == P.Some(0))
            && (forall i :: RunsIn(c, i) ==> c.files.lock)
  {
    assert Refines(START, P.INIT);
    SystemRunFollows(START, P.INIT, events, lines);
    var trace: seq<P.Event> :| Refines(SystemRun(START, events, lines), P.Run(P.INIT, trace));
    SafeBehind(SystemRun(START, events, lines), P.Run(P.INIT, trace), trace);
  }

  lemma SafeBehind(c: System, st: P.State, trace: seq<P.Event>)
    requires st == P.Run(P.INIT, trace) && Refines(c, st)
    ensures forall i, j :: RunsIn(c, i) && RunsIn(c, j) ==> i == j
    ensures c.files.done ==> forall i :: !RunsIn(c, i)
    ensures c.files.done ==> exists i :: 0 <= i < |c.shells| && c.shells[i].code == P.Some(0)
    ensures forall i :: RunsIn(c, i) ==> c.files.lock
  {
    P.MutualExclusion(trace);
    P.DoneIsSound(trace);
    P.InitInv();
    P.RunKeepsInv(P.INIT, trace);
    if st.files.done { P.NoneStartsAfterDone(st, P.Arrive); }
    forall i | RunsIn(c, i) ensures P.BodyRuns(st, i) && st.files.lock {
      RunningCommandIsBody(c.shells[i], st.scripts[i]);
      assert P.Owns(st, P.S(i));
    }
    if c.files.done {
      var i: nat :| P.Succeeded(st, i);
      CodeIsShared(c.shells[i], st.scripts[i]);
    }
  }

  lemma CodeIsShared(sh: Shell, s: P.Script)
    requires Corresponds(sh, s) && s.bodyCode.Some?
    ensures sh.code == s.bodyCode
  {
  }
}
