/**
  The invariant of all runs: counters agree, every unfinished job that has everything it needs is under way,
  threads hold the locks their phase says, exactly the submitted jobs are registered with their origins.
*/
module SchedulerRuns {
  import opened SchedulerSpec
  import opened SchedulerCounters

  predicate Registered(st: State, d: nat) {
    d < |st.deps| &&
    match st.deps[d].origin
    case OnJob(k) => k < |st.jobs| && d in st.jobs[k].dependents
    case OnToken(t, _) => t < |st.tokens| && d in st.tokens[t].dependents
  }

  ghost predicate RegistryOk(st: State)
    requires Structure(st)
  {
    && (forall id :: id in st.byId ==> st.byId[id] < |st.jobs| && st.jobs[st.byId[id]].id == id)
    && (forall d :: 0 <= d < |st.deps| ==> (Registered(st, d) <==> Submitted(st, st.deps[d].target)))
    && (forall d :: 0 <= d < |st.deps| && !Registered(st, d) ==> st.deps[d].recorded.WAIT?)
  }

  /** The thread holds the lock of every token dependency of its job. */
  predicate HoldsAll(st: State, i: nat)
    requires Structure(st) && i < |st.threads|
  {
    forall d :: d in st.jobs[st.threads[i].job].dependencies && st.deps[d].origin.OnToken? ==> d in st.threads[i].held
  }

  predicate ThreadOk(st: State, i: nat)
    requires Structure(st) && i < |st.threads|
  {
    && Submitted(st, st.threads[i].job)
    && (st.threads[i].phase.Ended? ==> st.threads[i].held == [])
    && (st.threads[i].phase.InRun? || st.threads[i].phase.Completing? ==> HoldsAll(st, i))
  }

  ghost predicate ThreadsOk(st: State)
    requires Structure(st)
  {
    forall i :: 0 <= i < |st.threads| ==> ThreadOk(st, i)
  }

  ghost predicate Inv(st: State)
    requires Structure(st)
  {
    Lists(st) && GoodFrom(st, 0) && RegistryOk(st) && ThreadsOk(st) && WaitingOk(st)
  }

  ghost predicate WaitingOk(st: State) {
    forall k :: k in st.waiting ==> k < |st.jobs|
  }

  // ---------------------------------------------------------------- rounds of checks

  /** New starts are requested for submitted jobs from `low` on only. */
  ghost predicate StartsOk(st: State, r: State, low: int) {
    forall i :: |st.threads| <= i < |r.threads| ==> low <= r.threads[i].job && Submitted(st, r.threads[i].job)
  }

  ghost predicate RegisteredOnly(st: State)
    requires Structure(st)
  {
    forall d :: 0 <= d < |st.deps| && Registered(st, d) ==> Submitted(st, st.deps[d].target)
  }

  lemma CheckedKeepsRegistry(st: State, r: State)
    requires Structure(st) && Checked(st, r)
    ensures Structure(r)
    ensures forall d: nat :: Registered(r, d) <==> Registered(st, d)
    ensures forall j: nat :: Submitted(r, j) <==> Submitted(st, j)
    ensures RegisteredOnly(st) ==> RegisteredOnly(r)
    ensures RegistryOk(st) && UnregisteredSame(st, r) ==> RegistryOk(r)
  {
    CheckedKeepsStructure(st, r);
    assert forall j :: 0 <= j < |st.jobs| ==> r.jobs[j].dependents == st.jobs[j].dependents && r.jobs[j].id == st.jobs[j].id;
    forall d: nat ensures Registered(r, d) <==> Registered(st, d) {
      if d < |st.deps| { assert r.deps[d].origin == st.deps[d].origin; }
    }
  }

  ghost predicate UnregisteredSame(st: State, r: State) {
    |r.deps| == |st.deps| && forall d :: 0 <= d < |st.deps| && !Registered(st, d) ==> r.deps[d] == st.deps[d]
  }

  lemma {:induction false} CheckStarts(st: State, d: nat)
    requires Structure(st) && RegisteredOnly(st) && Registered(st, d)
    ensures StartsOk(st, Check(st, d), st.deps[d].target) && UnregisteredSame(st, Check(st, d))
    decreases |st.jobs| - st.deps[d].target, 3, 0
  {
    assert DepOk(st, d);
    if !Live(st, d) && StatusOf(st, d) != st.deps[d].recorded {
      ChangedStarts(st, st.deps[d].target, st.deps[d].recorded, StatusOf(st, d));
    }
  }

  lemma {:induction false} ChangedStarts(st: State, j: nat, from: Status, to: Status)
    requires Structure(st) && RegisteredOnly(st) && j < |st.jobs| && Submitted(st, j)
    ensures var r := DependencyChanged(st, j, from, to);
            && StartsOk(st, r, if to.FAIL? then j + 1 else j) && UnregisteredSame(st, r)
    decreases |st.jobs| - j, 2, 0
  {
    var x := st.jobs[j];
    var st1 := WithJob(st, j, x.(unsatisfied := SubtractSize(x.unsatisfied, ValueOf(to) - ValueOf(from))));
    CheckedKeepsRegistry(st, st1);
    if to.FAIL? { CompletedStarts(st1, j); }
  }

  lemma {:induction false} CompletedStarts(st: State, j: nat)
    requires Structure(st) && RegisteredOnly(st) && j < |st.jobs|
    ensures StartsOk(st, JobCompleted(st, j), j + 1) && UnregisteredSame(st, JobCompleted(st, j))
    decreases |st.jobs| - j, 1, 0
  {
    var st1 := st.(waiting := st.waiting - {j});
    CheckedKeepsRegistry(st, st1);
    assert forall d :: d in st1.jobs[j].dependents ==> d < |st1.deps| && DepOk(st1, d) && Registered(st1, d);
    CheckAllStarts(st1, st1.jobs[j].dependents, j);
  }

  lemma {:induction false} CheckAllStarts(st: State, ds: seq<nat>, floor: int)
    requires Structure(st) && RegisteredOnly(st) && -1 <= floor
    requires forall d :: d in ds ==> d < |st.deps| && floor < st.deps[d].target && Registered(st, d)
    ensures StartsOk(st, CheckAll(st, ds, floor), floor + 1) && UnregisteredSame(st, CheckAll(st, ds, floor))
    decreases |st.jobs| - floor, 0, |ds|
  {
    if ds != [] {
      assert ds[0] in ds;
      var st1 := Check(st, ds[0]);
      CheckStarts(st, ds[0]);
      CheckedKeepsRegistry(st, st1);
      assert forall d :: d in ds[1..] ==> d in ds && st1.deps[d].target == st.deps[d].target;
      CheckAllStarts(st1, ds[1..], floor);
      var r := CheckAll(st1, ds[1..], floor);
      forall i | |st.threads| <= i < |r.threads|
        ensures floor + 1 <= r.threads[i].job && Submitted(st, r.threads[i].job)
      {
        if i < |st1.threads| { assert r.threads[i] == st1.threads[i]; }
      }
    }
  }

  /** A round of checks that is good for counters keeps the whole invariant. */
  lemma CheckedKeepsInv(st: State, r: State)
    requires Structure(st) && Inv(st) && Checked(st, r) && Structure(r)
    requires GoodFrom(r, 0) && StartsOk(st, r, 0) && UnregisteredSame(st, r)
    ensures Inv(r)
  {
    CheckedKeepsRegistry(st, r);
    ListsStay(st, r);
    ChecksKeepThreads(st, r);
  }

  lemma ChecksKeepThreads(st: State, r: State)
    requires Structure(st) && ThreadsOk(st) && Checked(st, r) && Structure(r) && StartsOk(st, r, 0)
    ensures ThreadsOk(r)
  {
    CheckedKeepsRegistry(st, r);
    forall i | 0 <= i < |r.threads| ensures ThreadOk(r, i) {
      if i < |st.threads| {
        assert r.threads[i] == st.threads[i] && ThreadOk(st, i);
        assert r.jobs[r.threads[i].job].dependencies == st.jobs[r.threads[i].job].dependencies;
        assert forall d :: d in st.jobs[r.threads[i].job].dependencies ==> r.deps[d].origin == st.deps[d].origin;
      }
    }
  }

  lemma CheckKeepsInv(st: State, d: nat)
    requires Structure(st) && Inv(st) && Registered(st, d)
    ensures Inv(Check(st, d))
  {
    var r := Check(st, d);
    CheckIsGood(st, d);
    GoodExtends(st, r, 0, st.deps[d].target);
    CheckStarts(st, d);
    CheckedKeepsInv(st, r);
  }

  lemma CompletedKeepsInv(st: State, j: nat)
    requires Structure(st) && Inv(st) && j < |st.jobs|
    ensures Inv(JobCompleted(st, j)) && j !in JobCompleted(st, j).waiting
  {
    var r := JobCompleted(st, j);
    CompletedIsGood(st, j);
    CompletedStarts(st, j);
    GoodExtends(st, r, 0, j + 1);
    CheckedKeepsInv(st, r);
  }

  lemma CheckAllKeepsInv(st: State, ds: seq<nat>)
    requires Structure(st) && Inv(st)
    requires forall d :: d in ds ==> d < |st.deps| && Registered(st, d)
    ensures (forall d :: d in ds ==> d < |st.deps| && -1 < st.deps[d].target) && Inv(CheckAll(st, ds, -1))
  {
    CheckAllIsGood(st, ds, -1);
    CheckAllStarts(st, ds, -1);
    CheckedKeepsInv(st, CheckAll(st, ds, -1));
  }

  // ---------------------------------------------------------------- single updates

  /** Updates of job states, token counts, phases and locks keep the invariant if threads and progress stay right. */
  lemma UpdateKeepsInv(st: State, r: State)
    requires Structure(st) && Inv(st) && Structure(r)
    requires r.deps == st.deps && r.byId == st.byId && r.waiting <= st.waiting
    requires |r.jobs| == |st.jobs| && |r.tokens| == |st.tokens| && |r.threads| == |st.threads|
    requires forall j :: 0 <= j < |st.jobs| ==> r.jobs[j] == st.jobs[j].(state := r.jobs[j].state)
    requires forall t :: 0 <= t < |st.tokens| ==> r.tokens[t].dependents == st.tokens[t].dependents
    requires ThreadsOk(r)
    requires forall k :: 0 <= k < |st.jobs| && ProgressOk(st, k) ==> ProgressOk(r, k)
    ensures Inv(r)
  {
    forall k | 0 <= k < |r.jobs| ensures CounterOk(r, k) && ProgressOk(r, k) {
      assert CounterOk(st, k) && ProgressOk(st, k);
    }
    forall d | 0 <= d < |r.deps| ensures Listed(r, d) { assert Listed(st, d); }
    assert forall j: nat :: Submitted(r, j) <==> Submitted(st, j);
    forall d | 0 <= d < |r.deps| ensures Registered(r, d) <==> Registered(st, d) { assert DepOk(st, d); }
  }

  predicate Going(p: Phase) { p.Requested? || p.InRun? || p.Completing? }

  /** Changing one thread without ending its activity keeps every job's progress. */
  lemma ThreadKeepsProgress(st: State, r: State, i: nat)
    requires i < |st.threads| == |r.threads| && |r.jobs| == |st.jobs| && r.waiting <= st.waiting
    requires forall k :: 0 <= k < |st.threads| && k != i ==> r.threads[k] == st.threads[k]
    requires r.threads[i].job == st.threads[i].job && r.threads[i].job < |st.jobs|
    requires forall j :: 0 <= j < |st.jobs| ==> r.jobs[j].unsatisfied == st.jobs[j].unsatisfied
    requires Going(r.threads[i].phase) || !Going(st.threads[i].phase)
          || st.threads[i].job !in r.waiting || r.jobs[st.threads[i].job].unsatisfied != 0
    ensures forall k :: 0 <= k < |st.jobs| && ProgressOk(st, k) ==> ProgressOk(r, k)
  {
    forall k | 0 <= k < |st.jobs| && ProgressOk(st, k) ensures ProgressOk(r, k) {
      if k in r.waiting && r.jobs[k].unsatisfied == 0 {
        var n :| 0 <= n < |st.threads| && st.threads[n].job == k && Going(st.threads[n].phase);
        assert r.threads[n].job == k && Going(r.threads[n].phase);
      }
    }
  }

  // ---------------------------------------------------------------- the critical sections of a start

  lemma {:induction false} AcquireHolds(st: State, i: nat, ds: seq<nat>)
    requires Structure(st) && i < |st.threads| && forall d :: d in ds ==> HoldsAreStructural(st, i, d)
    ensures var r := AcquireAll(st, i, ds);
            && (forall d :: d in st.threads[i].held ==> d in r.st.threads[i].held)
            && (r.All? ==> forall d :: d in ds && st.deps[d].origin.OnToken? ==> d in r.st.threads[i].held)
            && (r.Abort? ==> !Live(r.st, r.dep) && StatusOf(r.st, r.dep).WAIT?)
    decreases |ds|
  {
    if ds != [] {
      assert ds[0] in ds && HoldsAreStructural(st, i, ds[0]) && DepOk(st, ds[0]);
      var x := Lock(st, i, ds[0]);
      if x.Taken? {
        LockKeepsStructure(st, i, ds[0]);
        assert forall d :: d in ds[1..] ==> d in ds;
        assert forall d :: HoldsAreStructural(st, i, d) ==> HoldsAreStructural(x.st, i, d);
        assert st.deps[ds[0]].origin.OnToken? ==> ds[0] in x.st.threads[i].held by {
          if st.deps[ds[0]].origin.OnToken? {
            assert x.st.threads[i].held == st.threads[i].held + [ds[0]];
          }
        }
        AcquireHolds(x.st, i, ds[1..]);
        assert forall d :: d in ds ==> d == ds[0] || d in ds[1..];
      }
    }
  }

  lemma AcquireKeepsInv(st: State, i: nat)
    requires Structure(st) && Inv(st) && i < |st.threads| && st.threads[i].phase.Requested?
    requires forall d :: d in st.jobs[st.threads[i].job].dependencies ==> HoldsAreStructural(st, i, d)
    ensures Inv(AcquireAll(st, i, st.jobs[st.threads[i].job].dependencies).st)
  {
    var r := AcquireAll(st, i, st.jobs[st.threads[i].job].dependencies).st;
    forall k | 0 <= k < |r.threads| ensures ThreadOk(r, k) {
      assert ThreadOk(st, k);
    }
    ThreadKeepsProgress(st, r, i);
    UpdateKeepsInv(st, r);
  }

  /** Setting the job's state and the phase of thread `i`. */
  lemma PhaseKeepsInv(st: State, i: nat, s: JobState, p: Phase)
    requires Structure(st) && Inv(st) && i < |st.threads|
    requires p.InRun? || p.Completing? ==> HoldsAll(st, i)
    requires p.Ended? ==> st.threads[i].held == []
    requires Going(p) || !Going(st.threads[i].phase)
          || st.threads[i].job !in st.waiting || st.jobs[st.threads[i].job].unsatisfied != 0
    ensures var r := SetPhase(WithState(st, st.threads[i].job, s), i, p);
            Structure(r) && Inv(r)
  {
    var r := SetPhase(WithState(st, st.threads[i].job, s), i, p);
    UpdateKeepsStructure(st, r);
    forall k | 0 <= k < |r.threads| ensures ThreadOk(r, k) {
      assert ThreadOk(st, k);
      assert Submitted(r, r.threads[k].job) <==> Submitted(st, st.threads[k].job);
    }
    ThreadKeepsProgress(st, r, i);
    UpdateKeepsInv(st, r);
  }

  lemma SameStateUpdate(st: State, j: nat)
    requires j < |st.jobs|
    ensures WithState(st, j, st.jobs[j].state) == st
  {
  }

  lemma BeginRunKeepsInv(st: State, i: nat, mode: RunMode)
    requires Structure(st) && Inv(st) && i < |st.threads| && HoldsAll(st, i)
    ensures Inv(BeginRun(st, i, mode))
  {
    var j := st.threads[i].job;
    SameStateUpdate(st, j);
    match mode
    case Launched => PhaseKeepsInv(st, i, Running, InRun);
    case Silent => PhaseKeepsInv(st, i, st.jobs[j].state, InRun);
    case Watched(ok) => PhaseKeepsInv(st, i, if ok then Done else Error, Completing);
    case NoRun => PhaseKeepsInv(st, i, st.jobs[j].state, Completing);
    case FoundDone =>
      StateKeepsInv(st, j, Done);
      var st1 := WithState(st, j, Done);
      CompletedKeepsInv(st1, j);
      var st2 := JobCompleted(st1, j);
      SameStateUpdate(st2, j);
      assert st2.threads[i] == st.threads[i];
      assert st2.jobs[j].dependencies == st.jobs[j].dependencies;
      assert HoldsAll(st2, i) by {
        forall d | d in st2.jobs[j].dependencies && st2.deps[d].origin.OnToken? ensures d in st2.threads[i].held {
          assert st2.deps[d].origin == st.deps[d].origin;
        }
      }
      PhaseKeepsInv(st2, i, st2.jobs[j].state, Completing);
  }

  lemma StateKeepsInv(st: State, j: nat, s: JobState)
    requires Structure(st) && Inv(st) && j < |st.jobs|
    ensures Structure(WithState(st, j, s)) && Inv(WithState(st, j, s))
  {
    var r := WithState(st, j, s);
    UpdateKeepsStructure(st, r);
    forall k | 0 <= k < |r.threads| ensures ThreadOk(r, k) {
      assert ThreadOk(st, k);
      assert Submitted(r, r.threads[k].job) <==> Submitted(st, st.threads[k].job);
    }
    assert forall k :: 0 <= k < |st.jobs| ==> (Active(st, k) <==> Active(r, k));
    UpdateKeepsInv(st, r);
  }

  /** An aborted start leaves its job with a dependency that is not recorded OK. */
  lemma AbortKeepsInv(st: State, i: nat, d: nat)
    requires Structure(st) && Inv(st) && i < |st.threads| && d in st.jobs[st.threads[i].job].dependencies
    requires d < |st.deps| && !Live(st, d) && StatusOf(st, d).WAIT?
    ensures Inv(AbortStart(st, i, d))
  {
    var j := st.threads[i].job;
    assert ThreadOk(st, i) && Submitted(st, j);
    var n :| 0 <= n < |st.jobs[j].dependencies| && st.jobs[j].dependencies[n] == d;
    assert st.deps[d].target == j && Registered(st, d);
    CheckIsGood(st, d);
    CheckKeepsInv(st, d);
    var st1 := Check(st, d);
    assert st1.deps[d].recorded.WAIT? && d in st1.jobs[j].dependencies && CounterOk(st1, j);
    PhaseKeepsInv(st1, i, Ready, Releasing);
  }

  lemma StartSectionKeepsInv(st: State, i: nat, mode: RunMode)
    requires Structure(st) && Inv(st) && i < |st.threads| && st.threads[i].phase.Requested?
    ensures Inv(StartSection(st, i, mode))
  {
    var j := st.threads[i].job;
    var ds := st.jobs[j].dependencies;
    assert forall d :: d in ds ==> HoldsAreStructural(st, i, d);
    AcquireKeepsInv(st, i);
    AcquireHolds(st, i, ds);
    match AcquireAll(st, i, ds)
    case Abort(st1, d) => AbortKeepsInv(st1, i, d);
    case All(st1) => BeginRunKeepsInv(st1, i, mode);
  }

  lemma EndRunKeepsInv(st: State, i: nat, verdict: Verdict)
    requires Structure(st) && Inv(st) && i < |st.threads| && st.threads[i].phase.InRun?
    ensures Inv(EndRun(st, i, verdict))
  {
    var j := st.threads[i].job;
    assert ThreadOk(st, i);
    SameStateUpdate(st, j);
    match verdict
    case Keep => PhaseKeepsInv(st, i, st.jobs[j].state, Completing);
    case Set(ok) => PhaseKeepsInv(st, i, if ok then Done else Error, Completing);
  }

  lemma DropKeepsInv(st: State, i: nat)
    requires Structure(st) && Inv(st) && i < |st.threads| && st.threads[i].held != []
    requires st.threads[i].phase.Releasing?
    ensures var st1 := WithThread(st, i, st.threads[i].(held := st.threads[i].held[1..]));
            Structure(st1) && Inv(st1)
  {
    var st1 := WithThread(st, i, st.threads[i].(held := st.threads[i].held[1..]));
    UpdateKeepsStructure(st, st1);
    forall k | 0 <= k < |st1.threads| ensures ThreadOk(st1, k) { assert ThreadOk(st, k); }
    ThreadKeepsProgress(st, st1, i);
    UpdateKeepsInv(st, st1);
  }

  lemma UseKeepsInv(st: State, t: nat, used: uint32)
    requires Structure(st) && Inv(st) && t < |st.tokens|
    ensures Structure(WithUsed(st, t, used)) && Inv(WithUsed(st, t, used))
  {
    var r := WithUsed(st, t, used);
    UpdateKeepsStructure(st, r);
    forall k | 0 <= k < |r.threads| ensures ThreadOk(r, k) { assert ThreadOk(st, k); }
    assert forall k :: 0 <= k < |st.jobs| ==> (Active(st, k) <==> Active(r, k));
    UpdateKeepsInv(st, r);
  }

  lemma ReleaseKeepsInv(st: State, i: nat)
    requires Structure(st) && Inv(st) && i < |st.threads| && st.threads[i].held != []
    requires st.threads[i].phase.Releasing?
    ensures Inv(Release(st, i))
  {
    var d := st.threads[i].held[0];
    var st1 := WithThread(st, i, st.threads[i].(held := st.threads[i].held[1..]));
    DropKeepsInv(st, i);
    assert DepOk(st, d);
    if !Live(st1, d) {
      var t := st.deps[d].origin.token;
      var st2 := WithUsed(st1, t, Sub32(st1.tokens[t].used, st.deps[d].origin.value));
      UseKeepsInv(st1, t, Sub32(st1.tokens[t].used, st.deps[d].origin.value));
      forall e | e in st2.tokens[t].dependents ensures e < |st2.deps| && Registered(st2, e) && DepOk(st2, e) {}
      CheckAllKeepsInv(st2, st2.tokens[t].dependents);
    }
  }

  lemma {:induction false} ReleaseAllKeepsInv(st: State, i: nat)
    requires Structure(st) && Inv(st) && i < |st.threads| && st.threads[i].phase.Releasing?
    ensures Inv(ReleaseAll(st, i))
    decreases |st.threads[i].held|
  {
    if st.threads[i].held != [] {
      ReleaseKeepsInv(st, i);
      ReleaseAllKeepsInv(Release(st, i), i);
    }
  }

  lemma ReleasingKeepsInv(st: State, i: nat, p: Phase)
    requires Structure(st) && Inv(st) && i < |st.threads|
    requires p.Releasing? || (p.Ended? && st.threads[i].held == [])
    requires !Going(st.threads[i].phase) || st.threads[i].job !in st.waiting
    ensures Structure(SetPhase(st, i, p)) && Inv(SetPhase(st, i, p))
  {
    SameStateUpdate(st, st.threads[i].job);
    PhaseKeepsInv(st, i, st.jobs[st.threads[i].job].state, p);
  }

  lemma CompleteSectionKeepsInv(st: State, i: nat)
    requires Structure(st) && Inv(st) && i < |st.threads|
    ensures Inv(CompleteSection(st, i))
  {
    var st1 := JobCompleted(st, st.threads[i].job);
    CompletedKeepsInv(st, st.threads[i].job);
    assert st1.threads[i] == st.threads[i];
    ReleasingKeepsInv(st1, i, Releasing);
    var st2 := SetPhase(st1, i, Releasing);
    ReleaseAllKeepsInv(st2, i);
    ReleasingKeepsInv(ReleaseAll(st2, i), i, Ended);
  }

  // ---------------------------------------------------------------- building and submitting

  lemma NewJobKeepsInv(st: State, id: string, state: JobState)
    requires Structure(st) && Inv(st)
    ensures Inv(NewJob(st, id, state))
  {
    var r := NewJob(st, id, state);
    forall k | 0 <= k < |r.jobs| ensures CounterOk(r, k) && ProgressOk(r, k) {
      if k < |st.jobs| {
        assert CounterOk(st, k) && ProgressOk(st, k);
        assert Active(st, k) <==> Active(r, k);
      } else {
        assert k !in r.waiting by { assert WaitingOk(st); }
      }
    }
    forall d | 0 <= d < |r.deps| ensures Listed(r, d) { assert Listed(st, d); }
    forall d | 0 <= d < |r.deps| ensures Registered(r, d) <==> Submitted(r, r.deps[d].target) { assert DepOk(st, d); }
    forall d | 0 <= d < |r.deps| && !Registered(r, d) ensures r.deps[d].recorded.WAIT? {
      assert DepOk(st, d);
      assert !Registered(st, d);
    }
    forall i | 0 <= i < |r.threads| ensures ThreadOk(r, i) { assert ThreadOk(st, i); }
  }

  lemma NewTokenKeepsInv(st: State, limit: uint32)
    requires Structure(st) && Inv(st)
    ensures Inv(NewToken(st, limit))
  {
    var r := NewToken(st, limit);
    forall k | 0 <= k < |r.jobs| ensures CounterOk(r, k) && ProgressOk(r, k) {
      assert CounterOk(st, k) && ProgressOk(st, k);
      assert Active(st, k) <==> Active(r, k);
    }
    forall d | 0 <= d < |r.deps| ensures Listed(r, d) { assert Listed(st, d); }
    forall d | 0 <= d < |r.deps| ensures Registered(r, d) <==> Registered(st, d) { assert DepOk(st, d); }
    assert forall j: nat :: Submitted(r, j) <==> Submitted(st, j);
    forall i | 0 <= i < |r.threads| ensures ThreadOk(r, i) { assert ThreadOk(st, i); }
  }

  lemma SetLimitKeepsInv(st: State, t: nat, limit: uint32)
    requires Structure(st) && Inv(st) && t < |st.tokens|
    ensures Inv(SetLimit(st, t, limit))
  {
    var r := SetLimit(st, t, limit);
    forall i | 0 <= i < |r.threads| ensures ThreadOk(r, i) { assert ThreadOk(st, i); }
    assert forall k :: 0 <= k < |st.jobs| ==> (Active(st, k) <==> Active(r, k));
    UpdateKeepsInv(st, r);
  }

  lemma {:induction false} OpenSnoc(deps: seq<Dependency>, ds: seq<nat>, d: nat)
    requires d < |deps| && forall e :: e in ds ==> e < |deps|
    ensures Open(deps, ds + [d]) == Open(deps, ds) + if deps[d].recorded.OK? then 0 else 1
  {
    if ds == [] {
      assert ds + [d] == [d];
    } else {
      assert ds[0] in ds && forall e :: e in ds[1..] ==> e in ds;
      assert (ds + [d])[0] == ds[0] && (ds + [d])[1..] == ds[1..] + [d];
      OpenSnoc(deps, ds[1..], d);
    }
  }

  lemma OpenGrows(deps: seq<Dependency>, ds: seq<nat>, x: Dependency)
    requires (forall e :: e in ds ==> e < |deps|) && !x.recorded.OK?
    ensures forall e :: e in ds + [|deps|] ==> e < |deps + [x]|
    ensures Open(deps + [x], ds + [|deps|]) == Open(deps, ds) + 1
  {
    OpenAgrees(deps, deps + [x], ds);
    OpenSnoc(deps + [x], ds, |deps|);
  }

  lemma OneMore(u: size_t)
    requires u + 1 < SIZE
    ensures SubtractSize(u, -1) == u + 1
  {
  }

  lemma AddDependencyCounts(st: State, j: nat, o: Origin)
    requires Structure(st) && Lists(st) && j < |st.jobs| && OriginOk(st, o, j) && CounterOk(st, j)
    requires |st.deps| + 1 < SIZE
    ensures var r := AddDependency(st, j, o); CounterOk(r, j) && r.jobs[j].unsatisfied != 0
  {
    var x := st.jobs[j];
    assert forall e :: e in x.dependencies ==> e < |st.deps|;
    OpenGrows(st.deps, x.dependencies, Dependency(o, j, WAIT));
    OneMore(x.unsatisfied);
  }

  lemma AddDependencyCounters(st: State, j: nat, o: Origin, k: nat)
    requires Structure(st) && Lists(st) && GoodFrom(st, 0) && j < |st.jobs| && OriginOk(st, o, j) && k < |st.jobs|
    requires |st.deps| + 1 < SIZE
    ensures var r := AddDependency(st, j, o); CounterOk(r, k) && ProgressOk(r, k)
  {
    assert CounterOk(st, k) && ProgressOk(st, k);
    if k == j {
      AddDependencyCounts(st, j, o);
    } else {
      var r := AddDependency(st, j, o);
      assert r.jobs[k] == st.jobs[k] && r.threads == st.threads && r.waiting == st.waiting;
      assert Active(st, k) <==> Active(r, k);
      CountersOutside(st, r, k);
    }
  }

  lemma AddDependencyLists(st: State, j: nat, o: Origin)
    requires Structure(st) && Lists(st) && j < |st.jobs| && OriginOk(st, o, j) && |st.deps| + 1 < SIZE
    ensures Lists(AddDependency(st, j, o))
  {
    var r, d := AddDependency(st, j, o), |st.deps|;
    forall e | 0 <= e < |r.deps| ensures Listed(r, e) {
      if e < d { assert Listed(st, e); }
      else { assert r.jobs[j].dependencies[|st.jobs[j].dependencies|] == d; }
    }
  }

  lemma AddDependencyKeepsInv(st: State, j: nat, o: Origin)
    requires Structure(st) && Inv(st) && j < |st.jobs| && OriginOk(st, o, j) && !Submitted(st, j)
    requires |st.deps| + 1 < SIZE
    ensures Inv(AddDependency(st, j, o))
  {
    var r, d := AddDependency(st, j, o), |st.deps|;
    AddDependencyLists(st, j, o);
    forall k | 0 <= k < |r.jobs| ensures CounterOk(r, k) && ProgressOk(r, k) { AddDependencyCounters(st, j, o, k); }
    assert forall k: nat :: Submitted(r, k) <==> Submitted(st, k);
    forall e | 0 <= e < d ensures Registered(r, e) <==> Registered(st, e) { assert DepOk(st, e); }
    assert !Registered(r, d);
    forall i | 0 <= i < |r.threads| ensures ThreadOk(r, i) {
      assert ThreadOk(st, i);
      assert r.jobs[r.threads[i].job].dependencies == st.jobs[st.threads[i].job].dependencies;
    }
  }

  /** While a job is being submitted, exactly the dependencies still in `rest` lack their registration. */
  ghost predicate Submitting(st: State, rest: seq<nat>)
    requires Structure(st)
  {
    && Lists(st) && GoodFrom(st, 0) && ThreadsOk(st) && Distinct(rest) && WaitingOk(st)
    && (forall id :: id in st.byId ==> st.byId[id] < |st.jobs| && st.jobs[st.byId[id]].id == id)
    && (forall d :: d in rest ==> d < |st.deps| && Submitted(st, st.deps[d].target))
    && (forall d :: 0 <= d < |st.deps| ==>
          (Registered(st, d) <==> Submitted(st, st.deps[d].target) && d !in rest))
    && (forall d :: 0 <= d < |st.deps| && !Registered(st, d) ==> st.deps[d].recorded.WAIT?)
  }

  lemma AddDependentKeeps(st: State, d: nat, place: nat)
    requires Structure(st) && d < |st.deps| && Lists(st) && GoodFrom(st, 0) && ThreadsOk(st)
    ensures var r := AddDependent(st, d, place);
            && Lists(r) && GoodFrom(r, 0) && ThreadsOk(r)
            && r.byId == st.byId && r.waiting == st.waiting && r.threads == st.threads
            && (forall k :: 0 <= k < |st.jobs| ==> r.jobs[k] == st.jobs[k].(dependents := r.jobs[k].dependents))
            && (forall e :: 0 <= e < |st.deps| ==> (Registered(r, e) <==> Registered(st, e) || e == d))
  {
    var r := AddDependent(st, d, place);
    assert DepOk(st, d);
    forall k | 0 <= k < |r.jobs| ensures CounterOk(r, k) && ProgressOk(r, k) {
      assert CounterOk(st, k) && ProgressOk(st, k);
      assert Active(st, k) <==> Active(r, k);
    }
    forall e | 0 <= e < |r.deps| ensures Listed(r, e) { assert Listed(st, e); }
    forall e | 0 <= e < |r.deps| ensures Registered(r, e) <==> Registered(st, e) || e == d { assert DepOk(st, e); }
    forall i | 0 <= i < |r.threads| ensures ThreadOk(r, i) { assert ThreadOk(st, i); }
  }

  lemma RegisterKeeps(st: State, rest: seq<nat>, place: nat)
    requires Structure(st) && rest != [] && rest[0] < |st.deps| && Submitting(st, rest)
    ensures Submitting(AddDependent(st, rest[0], place), rest[1..])
  {
    var d := rest[0];
    var r := AddDependent(st, d, place);
    AddDependentKeeps(st, d, place);
    assert forall k: nat :: Submitted(r, k) <==> Submitted(st, k);
    assert d in rest && forall e :: e in rest <==> e == d || e in rest[1..];
    assert d !in rest[1..];
  }

  lemma CheckKeepsSubmitting(st: State, rest: seq<nat>, d: nat)
    requires Structure(st) && Submitting(st, rest) && Registered(st, d)
    ensures Submitting(Check(st, d), rest)
  {
    var r := Check(st, d);
    CheckIsGood(st, d);
    GoodExtends(st, r, 0, st.deps[d].target);
    CheckStarts(st, d);
    CheckedKeepsRegistry(st, r);
    ListsStay(st, r);
    ChecksKeepThreads(st, r);
  }

  lemma {:induction false} RegisterAllKeeps(st: State, rest: seq<nat>, places: seq<nat>)
    requires Structure(st) && Submitting(st, rest) && |places| == |rest|
    requires forall d :: d in rest ==> d < |st.deps|
    ensures Submitting(RegisterAll(st, rest, places), [])
    decreases |rest|
  {
    if rest != [] {
      assert rest[0] in rest && rest[0] !in rest[1..];
      var st1 := AddDependent(st, rest[0], places[0]);
      RegisterKeeps(st, rest, places[0]);
      assert st1.deps == st.deps && Submitted(st1, st1.deps[rest[0]].target) by {
        assert Submitted(st, st.deps[rest[0]].target);
        assert forall k: nat :: Submitted(st1, k) <==> Submitted(st, k) by { AddDependentKeepsIds(st, rest[0], places[0]); }
      }
      CheckKeepsSubmitting(st1, rest[1..], rest[0]);
      RegisterAllKeeps(Check(st1, rest[0]), rest[1..], places[1..]);
    }
  }

  lemma AddDependentKeepsIds(st: State, d: nat, place: nat)
    requires Structure(st) && d < |st.deps|
    ensures forall k: nat :: Submitted(AddDependent(st, d, place), k) <==> Submitted(st, k)
  {
    assert DepOk(st, d);
  }

  /** The state in which the registration loop of `submit` starts. */
  function SubmitBegins(st: State, j: nat): (r: State)
    requires Structure(st) && j < |st.jobs|
    ensures Structure(r)
  {
    var r := st.(waiting := st.waiting + {j}, byId := st.byId[st.jobs[j].id := j]);
    UpdateKeepsStructure(st, r);
    r
  }

  lemma SubmitBeginsFacts(st: State, j: nat)
    requires Structure(st) && Inv(st) && j < |st.jobs| && st.jobs[j].id !in st.byId
    ensures var st1 := SubmitBegins(st, j);
            && (forall k: nat :: Submitted(st1, k) <==> Submitted(st, k) || k == j)
            && (forall d :: 0 <= d < |st.deps| ==> (Registered(st1, d) <==> Registered(st, d)))
            && Lists(st1) && ThreadsOk(st1) && !Submitted(st, j)
            && (forall d :: 0 <= d < |st.deps| ==> (d in st.jobs[j].dependencies <==> st.deps[d].target == j))
  {
    var st1 := SubmitBegins(st, j);
    forall d | 0 <= d < |st.deps| ensures Registered(st1, d) <==> Registered(st, d) { assert DepOk(st, d); }
    forall d | 0 <= d < |st.deps| ensures d in st.jobs[j].dependencies <==> st.deps[d].target == j { assert Listed(st, d); }
    forall d | 0 <= d < |st1.deps| ensures Listed(st1, d) { assert Listed(st, d); }
    assert forall k: nat :: Submitted(st1, k) <==> Submitted(st, k) || k == j;
    forall i | 0 <= i < |st1.threads| ensures ThreadOk(st1, i) { assert ThreadOk(st, i); }
  }

  lemma SubmitBeginsSubmitting(st: State, j: nat)
    requires Structure(st) && Inv(st) && j < |st.jobs| && st.jobs[j].id !in st.byId
    requires st.jobs[j].dependencies != []
    ensures Submitting(SubmitBegins(st, j), st.jobs[j].dependencies)
  {
    var st1, ds := SubmitBegins(st, j), st.jobs[j].dependencies;
    SubmitBeginsFacts(st, j);
    assert ds[0] in ds && st.deps[ds[0]].recorded.WAIT? by { assert st.deps[ds[0]].target == j; }
    forall k | 0 <= k < |st1.jobs| ensures CounterOk(st1, k) && ProgressOk(st1, k) {
      assert CounterOk(st, k) && ProgressOk(st, k);
      assert Active(st, k) <==> Active(st1, k);
    }
    forall d | d in ds ensures d < |st1.deps| && Submitted(st1, st1.deps[d].target) {
      assert st.deps[d].target == j;
    }
  }

  lemma SubmitKeepsInv(st: State, j: nat, places: seq<nat>)
    requires Structure(st) && Inv(st) && j < |st.jobs| && |places| == |st.jobs[j].dependencies|
    ensures Inv(Submit(st, j, places))
  {
    if st.jobs[j].id !in st.byId {
      if st.jobs[j].dependencies == [] {
        SubmitBeginsFacts(st, j);
        StartKeepsStructure(SubmitBegins(st, j), j);
        EmptySubmit(st, j, SubmitBegins(st, j));
      } else {
        SubmitBeginsSubmitting(st, j);
        RegisterAllKeeps(SubmitBegins(st, j), st.jobs[j].dependencies, places);
      }
    }
  }

  lemma EmptySubmit(st: State, j: nat, st1: State)
    requires Structure(st) && Inv(st) && j < |st.jobs| && st.jobs[j].dependencies == [] && st.jobs[j].id !in st.byId
    requires st1 == st.(waiting := st.waiting + {j}, byId := st.byId[st.jobs[j].id := j])
    requires Structure(st1) && Structure(Start(st1, j)) && Lists(st1)
    requires forall i :: 0 <= i < |st1.threads| ==> ThreadOk(st1, i)
    requires forall k: nat :: Submitted(st1, k) <==> Submitted(st, k) || k == j
    requires forall d :: 0 <= d < |st.deps| ==> (Registered(st1, d) <==> Registered(st, d))
    requires forall d :: 0 <= d < |st.deps| ==> st.deps[d].target != j
    ensures st.jobs[j].unsatisfied == 0 && Inv(Start(st1, j))
  {
    var r := Start(st1, j);
    assert CounterOk(st, j);
    assert r.threads[|st.threads|] == Thread(j, Requested, []);
    forall k | 0 <= k < |r.jobs| ensures CounterOk(r, k) && ProgressOk(r, k) {
      assert CounterOk(st, k) && ProgressOk(st, k);
      if k == j {
        assert Active(r, k);
      } else if Active(st, k) {
        var i :| 0 <= i < |st.threads| && st.threads[i].job == k && Going(st.threads[i].phase);
        assert r.threads[i].job == k && Going(r.threads[i].phase);
        assert Active(r, k);
      }
    }
    forall d | 0 <= d < |r.deps| ensures Listed(r, d) { assert Listed(st1, d); }
    forall d | 0 <= d < |r.deps| ensures Registered(r, d) <==> Registered(st1, d) { assert DepOk(st1, d); }
    assert forall k: nat :: Submitted(r, k) <==> Submitted(st1, k);
    forall i | 0 <= i < |r.threads| ensures ThreadOk(r, i) {
      if i < |st.threads| { assert r.threads[i] == st1.threads[i] && ThreadOk(st1, i); }
    }
  }

  // ---------------------------------------------------------------- runs

  lemma StepKeepsInv(st: State, e: Event)
    requires Structure(st) && Inv(st)
    ensures Inv(Step(st, e))
  {
    match e
    case CreateJob(id, s) => NewJobKeepsInv(st, id, s);
    case CreateToken(limit) => NewTokenKeepsInv(st, limit);
    case ChangeLimit(t, limit) => if t < |st.tokens| { SetLimitKeepsInv(st, t, limit); }
    case Depend(j, o) =>
      if j < |st.jobs| && !Submitted(st, j) && OriginOk(st, o, j) && |st.deps| + 1 < SIZE {
        AddDependencyKeepsInv(st, j, o);
      }
    case SubmitJob(j, places) =>
      if j < |st.jobs| && |places| == |st.jobs[j].dependencies| { SubmitKeepsInv(st, j, places); }
    case _ => ThreadStepKeepsInv(st, e);
  }

  lemma ThreadStepKeepsInv(st: State, e: Event)
    requires Structure(st) && Inv(st)
    requires e.EnterStart? || e.LeaveRun? || e.Finish? || e.ReleaseNext?
    ensures Inv(Step(st, e))
  {
    match e
    case EnterStart(i, mode) =>
      if i < |st.threads| && st.threads[i].phase.Requested? { StartSectionKeepsInv(st, i, mode); }
    case LeaveRun(i, verdict) =>
      if i < |st.threads| && st.threads[i].phase.InRun? { EndRunKeepsInv(st, i, verdict); }
    case Finish(i) =>
      if i < |st.threads| && st.threads[i].phase.Completing? { CompleteSectionKeepsInv(st, i); }
    case ReleaseNext(i) =>
      if i < |st.threads| && st.threads[i].phase.Releasing? {
        if st.threads[i].held != [] { ReleaseKeepsInv(st, i); } else { ReleasingKeepsInv(st, i, Ended); }
      }
  }

  lemma {:induction false} RunKeepsInv(st: State, events: seq<Event>)
    requires Structure(st) && Inv(st)
    ensures Inv(Run(st, events))
    decreases |events|
  {
    if events != [] {
      StepKeepsInv(st, events[0]);
      RunKeepsInv(Step(st, events[0]), events[1..]);
    }
  }
}
