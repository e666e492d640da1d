/**
  What a dependency on a job says about that job, in terms of the job's own state: what a completion records, that a
  failure takes the dependents out of the set of unfinished jobs, and that no completion of a job is ever missed, in
  any run, whatever becomes of tokens and their limits.
*/
module SchedulerOrigins {
  import opened SchedulerSpec
  import opened SchedulerCounters
  import opened SchedulerRuns
  import opened SchedulerTokens
  import opened SchedulerWakeups
  import opened SchedulerTheorems

  // ---------------------------------------------------------------- what a check records

  /** The record shows the state of the origin job: OK if it is DONE, FAIL if it is ERROR, WAIT otherwise. */
  predicate Shows(recorded: Status, origin: JobState) {
    && (recorded.OK? <==> origin.Done?)
    && (recorded.FAIL? <==> origin.Error?)
  }

  lemma StatusShowsOrigin(st: State, d: nat)
    requires Structure(st) && d < |st.deps| && st.deps[d].origin.OnJob?
    ensures st.deps[d].origin.job < |st.jobs| && !Live(st, d)
    ensures Shows(StatusOf(st, d), st.jobs[st.deps[d].origin.job].state)
  {
    assert DepOk(st, d);
    if Live(st, d) { LiveIsToken(st, d); }
  }

  /** A check of a dependency on a job records the state that job is in. */
  lemma CheckShowsOrigin(st: State, d: nat)
    requires Structure(st) && d < |st.deps| && st.deps[d].origin.OnJob?
    ensures st.deps[d].origin.job < |st.jobs|
    ensures Shows(Check(st, d).deps[d].recorded, st.jobs[st.deps[d].origin.job].state)
  {
    StatusShowsOrigin(st, d);
    CheckSettles(st, d);
  }

  /** A dependency on a token that is not locked is recorded OK exactly if its value fits below the limit. */
  lemma CheckShowsToken(st: State, d: nat, t: nat, v: uint32)
    requires Structure(st) && d < |st.deps| && st.deps[d].origin == OnToken(t, v) && !Live(st, d)
    ensures t < |st.tokens|
    ensures Check(st, d).deps[d].recorded == if (st.tokens[t].used + v) % UINT32 <= st.tokens[t].limit then OK else WAIT
  {
    assert DepOk(st, d);
    CheckSettles(st, d);
  }

  // ---------------------------------------------------------------- failures

  /** Whatever is recorded as failed has taken its target out of the unfinished jobs. */
  ghost predicate FailedOut(st: State)
    requires Structure(st)
  {
    forall d :: 0 <= d < |st.deps| && st.deps[d].recorded.FAIL? ==> st.deps[d].target !in st.waiting
  }

  lemma CompletedLeaves(st: State, j: nat)
    requires Structure(st) && j < |st.jobs|
    ensures j !in JobCompleted(st, j).waiting
  {
    var st1 := st.(waiting := st.waiting - {j});
    CheckedKeeps(st, st1);
    assert forall d :: d in st1.jobs[j].dependents ==> d < |st1.deps| && DepOk(st1, d);
    assert Checked(st1, JobCompleted(st, j));
  }

  lemma {:induction false} CheckKeepsFailedOut(st: State, d: nat)
    requires Structure(st) && FailedOut(st) && d < |st.deps|
    ensures FailedOut(Check(st, d))
    decreases |st.jobs| - st.deps[d].target, 3, 0
  {
    assert DepOk(st, d);
    var s, old_, j := StatusOf(st, d), st.deps[d].recorded, st.deps[d].target;
    if !Live(st, d) && s != old_ {
      ChangedKeepsFailedOut(st, j, old_, s);
      CheckedKeepsStructure(st, Record(DependencyChanged(st, j, old_, s), d, s));
      RecordKeepsFailedOut(DependencyChanged(st, j, old_, s), d, s);
    }
  }

  lemma RecordKeepsFailedOut(st: State, d: nat, s: Status)
    requires Structure(st) && FailedOut(st) && d < |st.deps| && Structure(Record(st, d, s))
    requires s.FAIL? ==> st.deps[d].target !in st.waiting
    ensures FailedOut(Record(st, d, s))
  {
  }

  lemma {:induction false} ChangedKeepsFailedOut(st: State, j: nat, from: Status, to: Status)
    requires Structure(st) && FailedOut(st) && j < |st.jobs|
    ensures FailedOut(DependencyChanged(st, j, from, to))
    ensures to.FAIL? ==> j !in DependencyChanged(st, j, from, to).waiting
    decreases |st.jobs| - j, 2, 0
  {
    var x := st.jobs[j];
    var st1 := WithJob(st, j, x.(unsatisfied := SubtractSize(x.unsatisfied, ValueOf(to) - ValueOf(from))));
    ChangedIs(st, j, from, to, st1);
    if to.FAIL? {
      CompletedKeepsFailedOut(st1, j);
      CompletedLeaves(st1, j);
    }
  }

  lemma {:induction false} CompletedKeepsFailedOut(st: State, j: nat)
    requires Structure(st) && FailedOut(st) && j < |st.jobs|
    ensures FailedOut(JobCompleted(st, j))
    decreases |st.jobs| - j, 1, 0
  {
    var st1 := st.(waiting := st.waiting - {j});
    CheckedKeeps(st, st1);
    assert forall d :: d in st1.jobs[j].dependents ==> d < |st1.deps| && DepOk(st1, d);
    CheckAllKeepsFailedOut(st1, st1.jobs[j].dependents, j);
  }

  lemma {:induction false} CheckAllKeepsFailedOut(st: State, ds: seq<nat>, floor: int)
    requires Structure(st) && FailedOut(st) && -1 <= floor
    requires forall d :: d in ds ==> d < |st.deps| && floor < st.deps[d].target
    ensures FailedOut(CheckAll(st, ds, floor))
    decreases |st.jobs| - floor, 0, |ds|
  {
    if ds != [] {
      assert ds[0] in ds && DepOk(st, ds[0]);
      var st1 := Check(st, ds[0]);
      assert forall d :: d in ds[1..] ==> d in ds && st1.deps[d].target == st.deps[d].target;
      CheckKeepsFailedOut(st, ds[0]);
      CheckAllKeepsFailedOut(st1, ds[1..], floor);
    }
  }

  /**
    Announcing a completion records, for every dependency registered with the job, the state the job is in; if the job
    failed, every job that depends on it has then left the unfinished ones.
  */
  lemma CompletionRecords(st: State, k: nat, d: nat)
    requires Structure(st) && FailedOut(st) && k < |st.jobs| && d in st.jobs[k].dependents
    ensures var r := JobCompleted(st, k);
            && d < |r.deps| && Shows(r.deps[d].recorded, st.jobs[k].state)
            && (st.jobs[k].state.Error? ==> r.deps[d].target !in r.waiting)
  {
    CompletedSettles(st, k);
    CompletedKeepsFailedOut(st, k);
    var i :| 0 <= i < |st.jobs[k].dependents| && st.jobs[k].dependents[i] == d;
    StatusShowsOrigin(st, d);
  }

  lemma SameFailedOut(st: State, r: State)
    requires Structure(st) && Structure(r) && FailedOut(st) && r.deps == st.deps && r.waiting <= st.waiting
    ensures FailedOut(r)
  {
  }

  lemma {:induction false} RegisterKeepsFailedOut(st: State, ds: seq<nat>, places: seq<nat>)
    requires Structure(st) && FailedOut(st) && |places| == |ds| && forall d :: d in ds ==> d < |st.deps|
    ensures FailedOut(RegisterAll(st, ds, places))
    decreases |ds|
  {
    if ds != [] {
      assert ds[0] in ds && DepOk(st, ds[0]);
      var st1 := AddDependent(st, ds[0], places[0]);
      SameFailedOut(st, st1);
      CheckKeepsFailedOut(st1, ds[0]);
      assert forall d :: d in ds[1..] ==> d in ds;
      RegisterKeepsFailedOut(Check(st1, ds[0]), ds[1..], places[1..]);
    }
  }

  lemma SubmitKeepsFailedOut(st: State, j: nat, places: seq<nat>)
    requires Structure(st) && Inv(st) && FailedOut(st) && j < |st.jobs| && |places| == |st.jobs[j].dependencies|
    ensures FailedOut(Submit(st, j, places))
  {
    if st.jobs[j].id !in st.byId {
      var st1 := SubmitBegins(st, j);
      SubmitBeginsFacts(st, j);
      forall d | 0 <= d < |st1.deps| && st1.deps[d].recorded.FAIL? ensures st1.deps[d].target !in st1.waiting {
        assert Registered(st, d);
      }
      RegisterKeepsFailedOut(st1, st.jobs[j].dependencies, places);
      var st2 := RegisterAll(st1, st.jobs[j].dependencies, places);
      if st.jobs[j].dependencies == [] {
        StartKeepsStructure(st2, j);
        SameFailedOut(st2, Start(st2, j));
      }
    }
  }

  lemma ReleaseKeepsFailedOut(st: State, i: nat)
    requires Structure(st) && FailedOut(st) && i < |st.threads| && st.threads[i].held != []
    ensures FailedOut(Release(st, i))
  {
    var d := st.threads[i].held[0];
    var st1 := Dropped(st, i);
    UpdateKeepsStructure(st, st1);
    assert DepOk(st, d);
    if !Live(st1, d) {
      var t := st.deps[d].origin.token;
      var st2 := WithUsed(st1, t, Sub32(st1.tokens[t].used, st.deps[d].origin.value));
      UpdateKeepsStructure(st1, st2);
      assert forall e :: e in st2.tokens[t].dependents ==> e < |st2.deps| && DepOk(st2, e);
      CheckAllKeepsFailedOut(st2, st2.tokens[t].dependents, -1);
    }
  }

  lemma {:induction false} ReleaseAllKeepsFailedOut(st: State, i: nat)
    requires Structure(st) && FailedOut(st) && i < |st.threads|
    ensures FailedOut(ReleaseAll(st, i))
    decreases |st.threads[i].held|
  {
    if st.threads[i].held != [] {
      ReleaseKeepsFailedOut(st, i);
      ReleaseAllKeepsFailedOut(Release(st, i), i);
    }
  }

  lemma CompleteKeepsFailedOut(st: State, i: nat)
    requires Structure(st) && FailedOut(st) && i < |st.threads|
    ensures FailedOut(CompleteSection(st, i))
  {
    var st1 := JobCompleted(st, st.threads[i].job);
    CompletedKeepsFailedOut(st, st.threads[i].job);
    var st2 := SetPhase(st1, i, Releasing);
    UpdateKeepsStructure(st1, st2);
    SameFailedOut(st1, st2);
    ReleaseAllKeepsFailedOut(st2, i);
  }

  lemma StartKeepsFailedOut(st: State, i: nat, mode: RunMode)
    requires Structure(st) && FailedOut(st) && i < |st.threads| && st.threads[i].phase.Requested?
    ensures FailedOut(StartSection(st, i, mode))
  {
    var ds, j := st.jobs[st.threads[i].job].dependencies, st.threads[i].job;
    assert forall d :: d in ds ==> HoldsAreStructural(st, i, d);
    match AcquireAll(st, i, ds)
    case Abort(st1, d) => CheckKeepsFailedOut(st1, d);
    case All(st1) =>
      if mode.FoundDone? {
        var st2 := WithState(st1, j, Done);
        UpdateKeepsStructure(st1, st2);
        SameFailedOut(st1, st2);
        CompletedKeepsFailedOut(st2, j);
      }
  }

  lemma StepKeepsFailedOut(st: State, e: Event)
    requires Structure(st) && Inv(st) && FailedOut(st)
    ensures FailedOut(Step(st, e))
  {
    match e
    case SubmitJob(j, places) =>
      if j < |st.jobs| && |places| == |st.jobs[j].dependencies| { SubmitKeepsFailedOut(st, j, places); }
    case EnterStart(i, mode) =>
      if i < |st.threads| && st.threads[i].phase.Requested? { StartKeepsFailedOut(st, i, mode); }
    case Finish(i) =>
      if i < |st.threads| && st.threads[i].phase.Completing? { CompleteKeepsFailedOut(st, i); }
    case ReleaseNext(i) =>
      if i < |st.threads| && st.threads[i].phase.Releasing? && st.threads[i].held != [] {
        ReleaseKeepsFailedOut(st, i);
      }
    case _ =>
  }

  // ---------------------------------------------------------------- no completion is missed

  /** A registered dependency on a job that is not recorded OK: the job is not DONE, or about to announce it. */
  predicate JobAwake(st: State, d: nat)
    requires d < |st.deps|
  {
    Registered(st, d) && !st.deps[d].recorded.OK? && st.deps[d].origin.OnJob? ==>
      !st.jobs[st.deps[d].origin.job].state.Done? || Pending(st, st.deps[d].origin.job)
  }

  ghost predicate JobsAwake(st: State) { forall d :: 0 <= d < |st.deps| ==> JobAwake(st, d) }

  /** Rounds of checks. */
  lemma ChecksKeepJobsAwake(st: State, r: State)
    requires Structure(st) && JobsAwake(st) && Checked(st, r)
    ensures JobsAwake(r)
  {
    CheckedKeepsRegistry(st, r);
    forall d | 0 <= d < |r.deps| ensures JobAwake(r, d) {
      assert JobAwake(st, d) && r.deps[d].origin == st.deps[d].origin;
      if st.deps[d].origin.OnJob? {
        StatusShowsOrigin(st, d);
        var k := st.deps[d].origin.job;
        assert r.jobs[k].state == st.jobs[k].state;
        if Pending(st, k) { PendingStays(st, r, k); }
      }
    }
  }

  /** Updates that change no job's state and take nobody's announcement away. */
  lemma UpdateKeepsJobsAwake(st: State, r: State)
    requires Structure(st) && JobsAwake(st) && r.deps == st.deps && |r.jobs| == |st.jobs| && |r.tokens| == |st.tokens|
    requires forall k :: 0 <= k < |st.jobs| ==>
               r.jobs[k].state == st.jobs[k].state && r.jobs[k].dependents == st.jobs[k].dependents
    requires forall t :: 0 <= t < |st.tokens| ==> r.tokens[t].dependents == st.tokens[t].dependents
    requires forall k: nat :: Pending(st, k) ==> Pending(r, k)
    ensures JobsAwake(r)
  {
    forall d | 0 <= d < |r.deps| ensures JobAwake(r, d) {
      assert JobAwake(st, d) && DepOk(st, d);
      assert Registered(r, d) <==> Registered(st, d);
    }
  }

  lemma SamePhases(st: State, r: State)
    requires |r.threads| == |st.threads|
    requires forall i :: 0 <= i < |st.threads| ==>
               r.threads[i].job == st.threads[i].job && r.threads[i].phase == st.threads[i].phase
    ensures forall k: nat :: Pending(st, k) ==> Pending(r, k)
  {
    forall k: nat | Pending(st, k) ensures Pending(r, k) {
      var i :| 0 <= i < |st.threads| && st.threads[i].job == k && st.threads[i].phase.Completing?;
      assert r.threads[i].job == k && r.threads[i].phase.Completing?;
    }
  }

  /** A state set by a thread that is about to announce it, or to something other than DONE. */
  lemma PhaseKeepsJobsAwake(st: State, i: nat, s: JobState, p: Phase)
    requires Structure(st) && JobsAwake(st) && i < |st.threads|
    requires !s.Done? || p.Completing? || s == st.jobs[st.threads[i].job].state
    requires p.Completing? || !st.threads[i].phase.Completing?
    ensures JobsAwake(SetPhase(WithState(st, st.threads[i].job, s), i, p))
  {
    var j := st.threads[i].job;
    var r := SetPhase(WithState(st, j, s), i, p);
    forall d | 0 <= d < |r.deps| ensures JobAwake(r, d) {
      assert JobAwake(st, d) && DepOk(st, d);
      assert Registered(r, d) <==> Registered(st, d);
      if st.deps[d].origin.OnJob? {
        SamePending(st, r, i, st.deps[d].origin.job);
        if p.Completing? { assert r.threads[i].job == j && Pending(r, j); }
      }
    }
  }

  /** Announcing a completion settles the dependencies on the job, even if its state has just been changed. */
  lemma CompletedWakesJobs(st: State, j: nat)
    requires Structure(st) && j < |st.jobs|
    requires forall d :: 0 <= d < |st.deps| && st.deps[d].origin != OnJob(j) ==> JobAwake(st, d)
    ensures var r := JobCompleted(st, j);
            JobsAwake(r) && forall d :: 0 <= d < |r.deps| && Registered(r, d) && r.deps[d].origin == OnJob(j) ==>
                              r.deps[d].recorded.OK? || !r.jobs[j].state.Done?
  {
    var r := JobCompleted(st, j);
    CompletedSettles(st, j);
    CheckedKeepsRegistry(st, r);
    assert r.jobs[j].state == st.jobs[j].state;
    forall d | 0 <= d < |r.deps|
      ensures JobAwake(r, d)
      ensures Registered(r, d) && r.deps[d].origin == OnJob(j) ==> r.deps[d].recorded.OK? || !r.jobs[j].state.Done?
    {
      assert r.deps[d].origin == st.deps[d].origin;
      if st.deps[d].origin.OnJob? {
        StatusShowsOrigin(st, d);
        var k := st.deps[d].origin.job;
        assert r.jobs[k].state == st.jobs[k].state;
        if k == j {
          assert Registered(r, d) ==> d in st.jobs[j].dependents;
        } else {
          assert JobAwake(st, d);
          if Pending(st, k) { PendingStays(st, r, k); }
        }
      }
    }
  }

  lemma BeginRunKeepsJobsAwake(st: State, i: nat, mode: RunMode)
    requires Structure(st) && JobsAwake(st) && i < |st.threads| && st.threads[i].phase.Requested?
    ensures JobsAwake(BeginRun(st, i, mode))
  {
    var j := st.threads[i].job;
    SameStateUpdate(st, j);
    match mode
    case Launched => PhaseKeepsJobsAwake(st, i, Running, InRun);
    case Silent => PhaseKeepsJobsAwake(st, i, st.jobs[j].state, InRun);
    case Watched(ok) => PhaseKeepsJobsAwake(st, i, if ok then Done else Error, Completing);
    case NoRun => PhaseKeepsJobsAwake(st, i, st.jobs[j].state, Completing);
    case FoundDone => FoundKeepsJobsAwake(st, i, j);
  }

  lemma FoundKeepsJobsAwake(st: State, i: nat, j: nat)
    requires Structure(st) && JobsAwake(st) && i < |st.threads| && j == st.threads[i].job
    ensures JobsAwake(BeginRun(st, i, FoundDone))
  {
    var st1 := WithState(st, j, Done);
    UpdateKeepsStructure(st, st1);
    SamePhases(st, st1);
    forall d | 0 <= d < |st1.deps| && st1.deps[d].origin != OnJob(j) ensures JobAwake(st1, d) {
      assert JobAwake(st, d) && DepOk(st, d);
      assert Registered(st1, d) <==> Registered(st, d);
    }
    CompletedWakesJobs(st1, j);
    var st2 := JobCompleted(st1, j);
    SameStateUpdate(st2, j);
    assert st2.threads[i] == st1.threads[i];
    PhaseKeepsJobsAwake(st2, i, st2.jobs[j].state, Completing);
  }

  lemma StartKeepsJobsAwake(st: State, i: nat, mode: RunMode)
    requires Structure(st) && JobsAwake(st) && i < |st.threads| && st.threads[i].phase.Requested?
    ensures JobsAwake(StartSection(st, i, mode))
  {
    var ds := st.jobs[st.threads[i].job].dependencies;
    assert forall d :: d in ds ==> HoldsAreStructural(st, i, d);
    var a := AcquireAll(st, i, ds);
    SamePhases(st, a.st);
    UpdateKeepsJobsAwake(st, a.st);
    match a
    case Abort(st1, d) =>
      var st2 := Check(st1, d);
      ChecksKeepJobsAwake(st1, st2);
      assert st2.threads[i] == st1.threads[i];
      PhaseKeepsJobsAwake(st2, i, Ready, Releasing);
    case All(st1) => BeginRunKeepsJobsAwake(st1, i, mode);
  }

  lemma EndRunKeepsJobsAwake(st: State, i: nat, verdict: Verdict)
    requires Structure(st) && JobsAwake(st) && i < |st.threads|
    ensures JobsAwake(EndRun(st, i, verdict))
  {
    SameStateUpdate(st, st.threads[i].job);
    match verdict
    case Keep => PhaseKeepsJobsAwake(st, i, st.jobs[st.threads[i].job].state, Completing);
    case Set(ok) => PhaseKeepsJobsAwake(st, i, if ok then Done else Error, Completing);
  }

  lemma ReleaseKeepsJobsAwake(st: State, i: nat)
    requires Structure(st) && JobsAwake(st) && i < |st.threads| && st.threads[i].held != []
    ensures JobsAwake(Release(st, i))
  {
    var d := st.threads[i].held[0];
    var st1 := Dropped(st, i);
    UpdateKeepsStructure(st, st1);
    SamePhases(st, st1);
    UpdateKeepsJobsAwake(st, st1);
    assert DepOk(st, d);
    if !Live(st1, d) {
      var t := st.deps[d].origin.token;
      var st2 := WithUsed(st1, t, Sub32(st1.tokens[t].used, st.deps[d].origin.value));
      UpdateKeepsStructure(st1, st2);
      SamePhases(st1, st2);
      UpdateKeepsJobsAwake(st1, st2);
      assert forall e :: e in st2.tokens[t].dependents ==> e < |st2.deps| && DepOk(st2, e);
      ChecksKeepJobsAwake(st2, CheckAll(st2, st2.tokens[t].dependents, -1));
    }
  }

  lemma {:induction false} ReleaseAllKeepsJobsAwake(st: State, i: nat)
    requires Structure(st) && JobsAwake(st) && i < |st.threads|
    ensures JobsAwake(ReleaseAll(st, i))
    decreases |st.threads[i].held|
  {
    if st.threads[i].held != [] {
      ReleaseKeepsJobsAwake(st, i);
      ReleaseAllKeepsJobsAwake(Release(st, i), i);
    }
  }

  lemma CompleteKeepsJobsAwake(st: State, i: nat)
    requires Structure(st) && JobsAwake(st) && i < |st.threads|
    ensures JobsAwake(CompleteSection(st, i))
  {
    var j := st.threads[i].job;
    CompletedWakesJobs(st, j);
    var st1 := JobCompleted(st, j);
    assert st1.threads[i] == st.threads[i];
    var st2 := SetPhase(st1, i, Releasing);
    UpdateKeepsStructure(st1, st2);
    forall d | 0 <= d < |st2.deps| ensures JobAwake(st2, d) {
      assert JobAwake(st1, d) && DepOk(st1, d);
      assert Registered(st2, d) <==> Registered(st1, d);
      if st1.deps[d].origin.OnJob? && st1.deps[d].origin.job != j { SamePending(st1, st2, i, st1.deps[d].origin.job); }
    }
    ReleaseAllKeepsJobsAwake(st2, i);
    EndKeepsJobsAwake(ReleaseAll(st2, i), i);
  }

  lemma EndKeepsJobsAwake(st: State, i: nat)
    requires Structure(st) && JobsAwake(st) && i < |st.threads| && !st.threads[i].phase.Completing?
    ensures JobsAwake(SetPhase(st, i, Ended))
  {
    SameStateUpdate(st, st.threads[i].job);
    PhaseKeepsJobsAwake(st, i, st.jobs[st.threads[i].job].state, Ended);
  }

  /** A dependency is checked as soon as it is registered. */
  lemma RegisterKeepsJobsAwake(st: State, d: nat, place: nat)
    requires Structure(st) && JobsAwake(st) && d < |st.deps|
    ensures JobsAwake(Check(AddDependent(st, d, place), d))
  {
    var st1 := AddDependent(st, d, place);
    var r := Check(st1, d);
    assert DepOk(st, d);
    SamePhases(st, st1);
    CheckedKeepsRegistry(st1, r);
    forall e | 0 <= e < |r.deps| ensures JobAwake(r, e) {
      assert JobAwake(st, e) && DepOk(st, e) && r.deps[e].origin == st.deps[e].origin;
      if st.deps[e].origin.OnJob? {
        var k := st.deps[e].origin.job;
        StatusShowsOrigin(st1, e);
        assert r.jobs[k].state == st1.jobs[k].state == st.jobs[k].state;
        if e == d {
          CheckShowsOrigin(st1, d);
        } else {
          assert Registered(st1, e) <==> Registered(st, e);
          if Pending(st, k) { PendingStays(st, r, k); }
        }
      }
    }
  }

  lemma {:induction false} RegisterAllKeepsJobsAwake(st: State, ds: seq<nat>, places: seq<nat>)
    requires Structure(st) && JobsAwake(st) && |places| == |ds| && forall d :: d in ds ==> d < |st.deps|
    ensures JobsAwake(RegisterAll(st, ds, places))
    decreases |ds|
  {
    if ds != [] {
      assert ds[0] in ds;
      RegisterKeepsJobsAwake(st, ds[0], places[0]);
      assert forall d :: d in ds[1..] ==> d in ds;
      RegisterAllKeepsJobsAwake(Check(AddDependent(st, ds[0], places[0]), ds[0]), ds[1..], places[1..]);
    }
  }

  lemma SubmitKeepsJobsAwake(st: State, j: nat, places: seq<nat>)
    requires Structure(st) && JobsAwake(st) && j < |st.jobs| && |places| == |st.jobs[j].dependencies|
    ensures JobsAwake(Submit(st, j, places))
  {
    if st.jobs[j].id !in st.byId {
      var st1 := SubmitBegins(st, j);
      SamePhases(st, st1);
      UpdateKeepsJobsAwake(st, st1);
      RegisterAllKeepsJobsAwake(st1, st.jobs[j].dependencies, places);
      var st2 := RegisterAll(st1, st.jobs[j].dependencies, places);
      if st.jobs[j].dependencies == [] {
        StartKeepsStructure(st2, j);
        ChecksKeepJobsAwake(st2, Start(st2, j));
      }
    }
  }

  /** New objects are registered nowhere. */
  lemma BuildKeepsJobsAwake(st: State, r: State)
    requires Structure(st) && JobsAwake(st) && r.threads == st.threads
    requires |st.deps| <= |r.deps| && |st.jobs| <= |r.jobs| && |st.tokens| <= |r.tokens|
    requires forall d :: 0 <= d < |st.deps| ==> r.deps[d] == st.deps[d]
    requires forall d :: |st.deps| <= d < |r.deps| ==> !Registered(r, d)
    requires forall k :: 0 <= k < |st.jobs| ==>
               r.jobs[k].state == st.jobs[k].state && r.jobs[k].dependents == st.jobs[k].dependents
    ensures JobsAwake(r)
  {
    forall d | 0 <= d < |r.deps| ensures JobAwake(r, d) {
      if d < |st.deps| {
        assert JobAwake(st, d) && DepOk(st, d);
        if st.deps[d].origin.OnJob? && Pending(st, st.deps[d].origin.job) {
          PendingStays(st, r, st.deps[d].origin.job);
        }
      }
    }
  }

  lemma StepKeepsJobsAwake(st: State, e: Event)
    requires Structure(st) && JobsAwake(st)
    ensures JobsAwake(Step(st, e))
  {
    match e
    case CreateJob(id, s) => BuildKeepsJobsAwake(st, NewJob(st, id, s));
    case CreateToken(limit) => BuildKeepsJobsAwake(st, NewToken(st, limit));
    case ChangeLimit(t, limit) =>
      SamePhases(st, Step(st, e));
      UpdateKeepsJobsAwake(st, Step(st, e));
    case Depend(j, o) =>
      if j < |st.jobs| && !Submitted(st, j) && OriginOk(st, o, j) && |st.deps| + 1 < SIZE {
        NewIsUnregistered(st, j, o);
        BuildKeepsJobsAwake(st, AddDependency(st, j, o));
      }
    case SubmitJob(j, places) =>
      if j < |st.jobs| && |places| == |st.jobs[j].dependencies| { SubmitKeepsJobsAwake(st, j, places); }
    case _ => ThreadStepKeepsJobsAwake(st, e);
  }

  lemma ThreadStepKeepsJobsAwake(st: State, e: Event)
    requires Structure(st) && JobsAwake(st)
    requires e.EnterStart? || e.LeaveRun? || e.Finish? || e.ReleaseNext?
    ensures JobsAwake(Step(st, e))
  {
    match e
    case EnterStart(i, mode) => EnterKeepsJobsAwake(st, i, mode);
    case LeaveRun(i, verdict) => LeaveKeepsJobsAwake(st, i, verdict);
    case Finish(i) => FinishKeepsJobsAwake(st, i);
    case ReleaseNext(i) => NextKeepsJobsAwake(st, i);
  }

  lemma EnterKeepsJobsAwake(st: State, i: nat, mode: RunMode)
    requires Structure(st) && JobsAwake(st)
    ensures JobsAwake(Step(st, EnterStart(i, mode)))
  {
    if i < |st.threads| && st.threads[i].phase.Requested? { StartKeepsJobsAwake(st, i, mode); }
  }

  lemma LeaveKeepsJobsAwake(st: State, i: nat, verdict: Verdict)
    requires Structure(st) && JobsAwake(st)
    ensures JobsAwake(Step(st, LeaveRun(i, verdict)))
  {
    if i < |st.threads| && st.threads[i].phase.InRun? { EndRunKeepsJobsAwake(st, i, verdict); }
  }

  lemma FinishKeepsJobsAwake(st: State, i: nat)
    requires Structure(st) && JobsAwake(st)
    ensures JobsAwake(Step(st, Finish(i)))
  {
    if i < |st.threads| && st.threads[i].phase.Completing? { CompleteKeepsJobsAwake(st, i); }
  }

  lemma NextKeepsJobsAwake(st: State, i: nat)
    requires Structure(st) && JobsAwake(st)
    ensures JobsAwake(Step(st, ReleaseNext(i)))
  {
    if i < |st.threads| && st.threads[i].phase.Releasing? {
      if st.threads[i].held != [] { ReleaseKeepsJobsAwake(st, i); } else { EndKeepsJobsAwake(st, i); }
    }
  }

  lemma NewIsUnregistered(st: State, j: nat, o: Origin)
    requires Structure(st) && j < |st.jobs| && OriginOk(st, o, j)
    ensures !Registered(AddDependency(st, j, o), |st.deps|)
  {
    var r := AddDependency(st, j, o);
    assert forall k :: 0 <= k < |st.jobs| ==> r.jobs[k].dependents == st.jobs[k].dependents;
  }

  // ---------------------------------------------------------------- runs

  lemma {:induction false} RunKeepsOrigins(st: State, events: seq<Event>)
    requires Structure(st) && Inv(st) && FailedOut(st) && JobsAwake(st)
    ensures Inv(Run(st, events)) && FailedOut(Run(st, events)) && JobsAwake(Run(st, events))
    decreases |events|
  {
    if events != [] {
      StepKeepsInv(st, events[0]);
      StepKeepsFailedOut(st, events[0]);
      StepKeepsJobsAwake(st, events[0]);
      RunKeepsOrigins(Step(st, events[0]), events[1..]);
    }
  }

  lemma RunOrigins(events: seq<Event>)
    ensures var st := Run(INIT, events); Inv(st) && FailedOut(st) && JobsAwake(st)
  {
    InitInv();
    RunKeepsOrigins(INIT, events);
  }

  /** In every run announcing a completion does what CompletionRecords says. */
  lemma CompletionIsRecorded(events: seq<Event>, k: nat, d: nat)
    requires k < |Run(INIT, events).jobs| && d in Run(INIT, events).jobs[k].dependents
    ensures var st := Run(INIT, events);
            var r := JobCompleted(st, k);
            && d < |r.deps| && Shows(r.deps[d].recorded, st.jobs[k].state)
            && (st.jobs[k].state.Error? ==> r.deps[d].target !in r.waiting)
  {
    RunOrigins(events);
    CompletionRecords(Run(INIT, events), k, d);
  }

  /** The dependency is on a job that is DONE and has no announcement to come. */
  predicate Announced(st: State, d: nat) {
    && d < |st.deps| && st.deps[d].origin.OnJob? && st.deps[d].origin.job < |st.jobs|
    && st.jobs[st.deps[d].origin.job].state.Done? && !Pending(st, st.deps[d].origin.job)
  }

  /**
    In every run, whatever happens to tokens, a submitted job that has not been announced as finished and depends only
    on jobs that are DONE and announced has a start under way.
  */
  lemma DoneOriginsStartTheJob(events: seq<Event>, j: nat)
    requires j < |Run(INIT, events).jobs| && Submitted(Run(INIT, events), j) && j in Run(INIT, events).waiting
    requires forall d :: d in Run(INIT, events).jobs[j].dependencies ==> Announced(Run(INIT, events), d)
    ensures Active(Run(INIT, events), j)
  {
    RunOrigins(events);
    AnnouncedAreOk(Run(INIT, events), j);
  }

  lemma AnnouncedAreOk(st: State, j: nat)
    requires Structure(st) && Inv(st) && JobsAwake(st) && j < |st.jobs| && Submitted(st, j) && j in st.waiting
    requires forall d :: d in st.jobs[j].dependencies ==> Announced(st, d)
    ensures Active(st, j)
  {
    forall d | d in st.jobs[j].dependencies ensures st.deps[d].recorded.OK? {
      assert Announced(st, d) && JobAwake(st, d) && st.deps[d].target == j;
      assert Registered(st, d);
    }
    assert CounterOk(st, j) && ProgressOk(st, j);
  }
}
