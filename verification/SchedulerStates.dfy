/**
  Which state a job is in: the one its last section or verdict gave it. Nothing else changes the state of a job, however
  many checks and completions a section goes through.
*/
module SchedulerStates {
  import opened SchedulerSpec
  import opened SchedulerCounters
  import opened SchedulerRuns
  import opened SchedulerTheorems
  import opened SchedulerWitnesses

  datatype Change = Unchanged | Becomes(state: JobState)

  function ByVerdict(ok: bool): JobState { if ok then Done else Error }

  /** What a start does to its job, by the phase its thread is in afterwards. */
  function ByStart(mode: RunMode, after: Phase): Change {
    match after
    case Releasing => Becomes(Ready)
    case InRun => if mode.Launched? then Becomes(Running) else Unchanged
    case Completing =>
      (match mode
       case FoundDone => Becomes(Done)
       case Watched(ok) => Becomes(ByVerdict(ok))
       case _ => Unchanged)
    case _ => Unchanged
  }

  /** What an event does to job `j`. */
  function ByEvent(st: State, e: Event, j: nat): Change
    requires Structure(st)
  {
    match e
    case CreateJob(_, s) => if j == |st.jobs| then Becomes(s) else Unchanged
    case EnterStart(i, mode) =>
      if i < |st.threads| && st.threads[i].phase.Requested? && st.threads[i].job == j && i < |Step(st, e).threads| then
        ByStart(mode, Step(st, e).threads[i].phase)
      else Unchanged
    case LeaveRun(i, verdict) =>
      if i < |st.threads| && st.threads[i].phase.InRun? && st.threads[i].job == j && verdict.Set? then
        Becomes(ByVerdict(verdict.ok))
      else Unchanged
    case _ => Unchanged
  }

  // ---------------------------------------------------------------- one step

  /** Job states, jobs and the other threads are as they were. */
  ghost predicate SameStates(st: State, r: State) {
    |r.jobs| == |st.jobs| && forall j :: 0 <= j < |st.jobs| ==> r.jobs[j].state == st.jobs[j].state
  }

  lemma {:induction false} RegisterKeepsStates(st: State, ds: seq<nat>, places: seq<nat>)
    requires Structure(st) && |places| == |ds| && forall d :: d in ds ==> d < |st.deps|
    ensures SameStates(st, RegisterAll(st, ds, places))
    decreases |ds|
  {
    if ds != [] {
      assert ds[0] in ds && DepOk(st, ds[0]);
      var st1 := AddDependent(st, ds[0], places[0]);
      assert SameStates(st, st1) && SameStates(st1, Check(st1, ds[0]));
      assert forall d :: d in ds[1..] ==> d in ds;
      RegisterKeepsStates(Check(st1, ds[0]), ds[1..], places[1..]);
    }
  }

  lemma SubmitKeepsStates(st: State, j: nat, places: seq<nat>)
    requires Structure(st) && j < |st.jobs| && |places| == |st.jobs[j].dependencies|
    ensures SameStates(st, Submit(st, j, places))
  {
    if st.jobs[j].id !in st.byId { RegisterKeepsStates(SubmitBegins(st, j), st.jobs[j].dependencies, places); }
  }

  lemma ReleaseKeepsStates(st: State, i: nat)
    requires Structure(st) && i < |st.threads| && st.threads[i].held != []
    ensures SameStates(st, Release(st, i))
  {
    var d := st.threads[i].held[0];
    var st1 := WithThread(st, i, st.threads[i].(held := st.threads[i].held[1..]));
    UpdateKeepsStructure(st, st1);
    assert DepOk(st, d);
    if !Live(st1, d) {
      var t := st.deps[d].origin.token;
      var st2 := WithUsed(st1, t, Sub32(st1.tokens[t].used, st.deps[d].origin.value));
      UpdateKeepsStructure(st1, st2);
      assert forall e :: e in st2.tokens[t].dependents ==> e < |st2.deps| && DepOk(st2, e);
      assert Checked(st2, CheckAll(st2, st2.tokens[t].dependents, -1));
    }
  }

  lemma {:induction false} ReleaseAllKeepsStates(st: State, i: nat)
    requires Structure(st) && i < |st.threads|
    ensures SameStates(st, ReleaseAll(st, i))
    decreases |st.threads[i].held|
  {
    if st.threads[i].held != [] {
      ReleaseKeepsStates(st, i);
      ReleaseAllKeepsStates(Release(st, i), i);
    }
  }

  lemma CompleteKeepsStates(st: State, i: nat)
    requires Structure(st) && i < |st.threads|
    ensures SameStates(st, CompleteSection(st, i))
  {
    var st1 := JobCompleted(st, st.threads[i].job);
    assert SameStates(st, st1);
    var st2 := SetPhase(st1, i, Releasing);
    UpdateKeepsStructure(st1, st2);
    ReleaseAllKeepsStates(st2, i);
  }

  /** State `s` after `x` happened to it. */
  function After(x: Change, s: JobState): JobState { if x.Becomes? then x.state else s }

  ghost predicate OnlyJob(st: State, r: State, k: nat, x: Change) {
    && |r.jobs| == |st.jobs|
    && forall j :: 0 <= j < |st.jobs| ==>
         r.jobs[j].state == if j == k then After(x, st.jobs[j].state) else st.jobs[j].state
  }

  lemma BeginSetsState(st: State, i: nat, mode: RunMode)
    requires Structure(st) && i < |st.threads|
    ensures i < |BeginRun(st, i, mode).threads|
    ensures OnlyJob(st, BeginRun(st, i, mode), st.threads[i].job, ByStart(mode, BeginRun(st, i, mode).threads[i].phase))
    ensures BeginRun(st, i, mode).threads[i].phase == if mode.Launched? || mode.Silent? then InRun else Completing
  {
    if mode.FoundDone? {
      var st1 := WithState(st, st.threads[i].job, Done);
      UpdateKeepsStructure(st, st1);
      assert Checked(st1, JobCompleted(st1, st.threads[i].job));
    }
  }

  lemma AbortSetsState(st: State, i: nat, d: nat)
    requires Structure(st) && i < |st.threads| && d < |st.deps|
    ensures i < |AbortStart(st, i, d).threads| && AbortStart(st, i, d).threads[i].phase == Releasing
    ensures OnlyJob(st, AbortStart(st, i, d), st.threads[i].job, Becomes(Ready))
  {
    assert Checked(st, Check(st, d));
  }

  lemma StartSetsState(st: State, i: nat, mode: RunMode)
    requires Structure(st) && i < |st.threads| && st.threads[i].phase.Requested?
    ensures i < |StartSection(st, i, mode).threads|
    ensures OnlyJob(st, StartSection(st, i, mode), st.threads[i].job,
                    ByStart(mode, StartSection(st, i, mode).threads[i].phase))
  {
    var ds := st.jobs[st.threads[i].job].dependencies;
    assert forall d :: d in ds ==> HoldsAreStructural(st, i, d);
    match AcquireAll(st, i, ds)
    case Abort(st1, d) => AbortSetsState(st1, i, d);
    case All(st1) => BeginSetsState(st1, i, mode);
  }

  /** An event changes the state of one job at most, and as ByEvent says. */
  lemma StepSetsState(st: State, e: Event, j: nat)
    requires Structure(st) && j < |Step(st, e).jobs|
    ensures j < |st.jobs| ==> Step(st, e).jobs[j].state == After(ByEvent(st, e, j), st.jobs[j].state)
    ensures j >= |st.jobs| ==> ByEvent(st, e, j) == Becomes(Step(st, e).jobs[j].state)
  {
    match e
    case EnterStart(i, mode) =>
      if i < |st.threads| && st.threads[i].phase.Requested? { StartSetsState(st, i, mode); }
    case SubmitJob(_, _) => SilentStep(st, e);
    case Finish(_) => SilentStep(st, e);
    case ReleaseNext(_) => SilentStep(st, e);
    case _ =>
  }

  lemma SilentStep(st: State, e: Event)
    requires Structure(st) && (e.SubmitJob? || e.Finish? || e.ReleaseNext?)
    ensures SameStates(st, Step(st, e))
  {
    match e
    case SubmitJob(k, places) => SilentSubmit(st, k, places);
    case Finish(i) => SilentFinish(st, i);
    case ReleaseNext(i) => SilentRelease(st, i);
  }

  lemma SilentSubmit(st: State, k: nat, places: seq<nat>)
    requires Structure(st)
    ensures SameStates(st, Step(st, SubmitJob(k, places)))
  {
    if k < |st.jobs| && |places| == |st.jobs[k].dependencies| { SubmitKeepsStates(st, k, places); }
  }

  lemma SilentFinish(st: State, i: nat)
    requires Structure(st)
    ensures SameStates(st, Step(st, Finish(i)))
  {
    if i < |st.threads| && st.threads[i].phase.Completing? { CompleteKeepsStates(st, i); }
  }

  lemma SilentRelease(st: State, i: nat)
    requires Structure(st)
    ensures SameStates(st, Step(st, ReleaseNext(i)))
  {
    if i < |st.threads| && st.threads[i].phase.Releasing? && st.threads[i].held != [] { ReleaseKeepsStates(st, i); }
  }

  // ---------------------------------------------------------------- whether a start runs

  lemma {:induction false} AbortIsToken(st: State, i: nat, ds: seq<nat>)
    requires Structure(st) && i < |st.threads| && forall d :: d in ds ==> HoldsAreStructural(st, i, d)
    requires AcquireAll(st, i, ds).Abort?
    ensures var a := AcquireAll(st, i, ds); a.dep in ds && a.dep < |st.deps| && st.deps[a.dep].origin.OnToken?
    decreases |ds|
  {
    assert ds[0] in ds && HoldsAreStructural(st, i, ds[0]) && DepOk(st, ds[0]);
    var x := Lock(st, i, ds[0]);
    if x.Taken? {
      LockKeepsStructure(st, i, ds[0]);
      assert forall d :: d in ds[1..] ==> d in ds;
      assert forall d :: HoldsAreStructural(st, i, d) ==> HoldsAreStructural(x.st, i, d);
      AbortIsToken(x.st, i, ds[1..]);
    }
  }

  /** A start runs its job if and only if its thread then holds the lock of every token the job depends on. */
  lemma StartRunsIff(st: State, i: nat, mode: RunMode)
    requires Structure(st) && Inv(st) && i < |st.threads| && st.threads[i].phase.Requested?
    ensures var r := StartSection(st, i, mode);
            && i < |r.threads|
            && r.threads[i].phase ==
                 if !HoldsAll(r, i) then Releasing else if mode.Launched? || mode.Silent? then InRun else Completing
  {
    var ds := st.jobs[st.threads[i].job].dependencies;
    assert forall d :: d in ds ==> HoldsAreStructural(st, i, d);
    AcquireHolds(st, i, ds);
    match AcquireAll(st, i, ds)
    case Abort(st1, d) =>
      AbortIsToken(st, i, ds);
      AbortHoldsNotAll(st1, i, d);
    case All(st1) =>
      BeginSetsState(st1, i, mode);
      BeginKeepsLocks(st1, i, mode);
  }

  lemma AbortHoldsNotAll(st: State, i: nat, d: nat)
    requires Structure(st) && i < |st.threads| && d in st.jobs[st.threads[i].job].dependencies
    requires d < |st.deps| && st.deps[d].origin.OnToken? && !Live(st, d)
    ensures var r := AbortStart(st, i, d); i < |r.threads| && r.threads[i].phase.Releasing? && !HoldsAll(r, i)
  {
    var st1 := Check(st, d);
    var r := AbortStart(st, i, d);
    assert st1.threads[i] == st.threads[i] && st1.deps[d].origin == st.deps[d].origin;
    assert r.jobs[r.threads[i].job].dependencies == st.jobs[st.threads[i].job].dependencies;
    assert d !in r.threads[i].held;
  }

  lemma BeginKeepsLocks(st: State, i: nat, mode: RunMode)
    requires Structure(st) && i < |st.threads| && HoldsAll(st, i)
    ensures i < |BeginRun(st, i, mode).threads| && HoldsAll(BeginRun(st, i, mode), i)
  {
    var r, j := BeginRun(st, i, mode), st.threads[i].job;
    if mode.FoundDone? {
      var st1 := WithState(st, j, Done);
      UpdateKeepsStructure(st, st1);
      var st2 := JobCompleted(st1, j);
      assert st2.threads[i] == st1.threads[i] && st2.jobs[j].dependencies == st1.jobs[j].dependencies;
    }
    assert r.jobs[j].dependencies == st.jobs[j].dependencies && r.threads[i].held == st.threads[i].held;
    forall d | d in r.jobs[j].dependencies && r.deps[d].origin.OnToken? ensures d in r.threads[i].held {
      assert r.deps[d].origin == st.deps[d].origin;
    }
  }

  // ---------------------------------------------------------------- runs

  function At(events: seq<Event>, n: nat): (st: State)
    requires n <= |events|
    ensures Structure(st)
  {
    Run(INIT, events[..n])
  }

  lemma Next(events: seq<Event>, n: nat)
    requires n < |events|
    ensures At(events, n + 1) == Step(At(events, n), events[n])
  {
    assert events[..n + 1] == events[..n] + [events[n]];
    RunSnoc(INIT, events[..n], events[n]);
  }

  /** What each event of a run does to job `j`. */
  ghost function History(events: seq<Event>, j: nat): nat -> Change {
    (k: nat) => if k < |events| then ByEvent(At(events, k), events[k], j) else Unchanged
  }

  /** Of the first `m` changes number `n` was the last real one, and led to `s`. */
  ghost predicate LastSaid(changes: nat -> Change, n: nat, m: nat, s: JobState) {
    n < m && changes(n) == Becomes(s) && forall k: nat :: n < k < m ==> changes(k) == Unchanged
  }

  lemma SaidNow(events: seq<Event>, j: nat, m: nat)
    requires m < |events| && j < |At(events, m + 1).jobs|
    ensures ByEvent(At(events, m), events[m], j).Becomes? ==>
              History(events, j)(m) == Becomes(At(events, m + 1).jobs[j].state)
    ensures ByEvent(At(events, m), events[m], j).Unchanged? ==>
              j < |At(events, m).jobs| && At(events, m + 1).jobs[j].state == At(events, m).jobs[j].state
  {
    Next(events, m);
    StepSetsState(At(events, m), events[m], j);
  }

  lemma StillSaid(changes: nat -> Change, n: nat, m: nat, s: JobState)
    requires LastSaid(changes, n, m, s) && changes(m) == Unchanged
    ensures LastSaid(changes, n, m + 1, s)
  {
  }

  lemma {:induction false} StateWasSaid(events: seq<Event>, j: nat, m: nat) returns (n: nat)
    requires m <= |events| && j < |At(events, m).jobs|
    ensures LastSaid(History(events, j), n, m, At(events, m).jobs[j].state)
    decreases m, 0
  {
    NoJobsAtFirst(events);
    n := 0;
    if m > 0 { n := SaidBefore(events, j, m - 1); }
  }

  lemma NoJobsAtFirst(events: seq<Event>)
    ensures At(events, 0).jobs == []
  {
    assert events[..0] == [];
  }

  lemma {:induction false} SaidBefore(events: seq<Event>, j: nat, m: nat) returns (n: nat)
    requires m < |events| && j < |At(events, m + 1).jobs|
    ensures LastSaid(History(events, j), n, m + 1, At(events, m + 1).jobs[j].state)
    decreases m, 1
  {
    SaidNow(events, j, m);
    n := m;
    if ByEvent(At(events, m), events[m], j).Unchanged? {
      n := StateWasSaid(events, j, m);
      StillSaid(History(events, j), n, m, At(events, m).jobs[j].state);
    }
  }

  /**
    In every run a job is in the state that the last event about it gave it: its creation, an aborted or running start,
    a start that found it finished, or the verdict of its run.
  */
  lemma JobStateIsTheLastSaid(events: seq<Event>, j: nat)
    requires j < |Run(INIT, events).jobs|
    ensures exists n: nat :: LastSaid(History(events, j), n, |events|, Run(INIT, events).jobs[j].state)
  {
    assert events[..|events|] == events;
    var n := StateWasSaid(events, j, |events|);
  }
}
