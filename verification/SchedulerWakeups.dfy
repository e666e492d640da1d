/**
  No lost wake-up: as long as sums fit the counter and no change of a limit lets in a dependency that waits, a
  dependency that keeps a job waiting is really unsatisfied, or the completion that satisfies it is about to be
  announced.
*/
module SchedulerWakeups {
  import opened SchedulerSpec
  import opened SchedulerCounters
  import opened SchedulerRuns
  import opened SchedulerTokens
  import opened SchedulerLimits

  /** Some thread has finished running job `k` and not announced it yet. */
  predicate Pending(st: State, k: nat) {
    exists i :: 0 <= i < |st.threads| && st.threads[i].job == k && st.threads[i].phase.Completing?
  }

  predicate Awake(st: State, d: nat)
    requires Structure(st) && d < |st.deps|
  {
    Registered(st, d) && !st.deps[d].recorded.OK? ==>
      && !Live(st, d)
      && (!StatusOf(st, d).OK? || (st.deps[d].origin.OnJob? && Pending(st, st.deps[d].origin.job)))
  }

  ghost predicate AllAwake(st: State)
    requires Structure(st)
  {
    forall d :: 0 <= d < |st.deps| ==> Awake(st, d)
  }

  ghost predicate Calm(st: State)
    requires Structure(st)
  {
    SumsFit(st) && AllAwake(st)
  }

  // ---------------------------------------------------------------- rounds of checks

  lemma PendingStays(st: State, r: State, k: nat)
    requires st.threads <= r.threads && Pending(st, k)
    ensures Pending(r, k)
  {
    var i :| 0 <= i < |st.threads| && st.threads[i].job == k && st.threads[i].phase.Completing?;
    assert r.threads[i] == st.threads[i];
  }

  lemma ChecksKeepAwake(st: State, r: State, d: nat)
    requires Structure(st) && Checked(st, r) && Structure(r) && d < |st.deps| && Awake(st, d)
    ensures Awake(r, d)
  {
    CheckedKeeps(st, r);
    CheckedKeepsRegistry(st, r);
    assert DepOk(st, d);
    if st.deps[d].origin.OnJob? && Pending(st, st.deps[d].origin.job) { PendingStays(st, r, st.deps[d].origin.job); }
    assert r.deps[d].origin == st.deps[d].origin;
  }

  lemma ChecksKeepCalm(st: State, r: State)
    requires Structure(st) && Checked(st, r) && Structure(r) && Calm(st)
    ensures Calm(r)
  {
    ChecksKeepFit(st, r);
    forall d | 0 <= d < |r.deps| ensures Awake(r, d) { ChecksKeepAwake(st, r, d); }
  }

  /** After a round every checked dependency is recorded as it is, unless it is locked. */
  lemma {:induction false} CheckAllSettles(st: State, ds: seq<nat>, floor: int)
    requires Structure(st) && -1 <= floor
    requires forall d :: d in ds ==> d < |st.deps| && floor < st.deps[d].target
    ensures var r := CheckAll(st, ds, floor);
            forall d :: d in ds ==> Live(st, d) || r.deps[d].recorded == StatusOf(st, d)
    decreases |ds|
  {
    if ds != [] {
      assert ds[0] in ds;
      var st1 := Check(st, ds[0]);
      CheckSettles(st, ds[0]);
      CheckedKeeps(st, st1);
      assert forall d :: d in ds[1..] ==> d in ds && st1.deps[d].target == st.deps[d].target;
      CheckAllSettles(st1, ds[1..], floor);
      var r := CheckAll(st1, ds[1..], floor);
      forall d | d in ds ensures Live(st, d) || r.deps[d].recorded == StatusOf(st, d) {
        if d !in ds[1..] { assert d == ds[0]; }
        assert StatusOf(st1, d) == StatusOf(st, d);
      }
    }
  }

  lemma CheckSettles(st: State, d: nat)
    requires Structure(st) && d < |st.deps|
    ensures Live(st, d) || Check(st, d).deps[d].recorded == StatusOf(st, d)
  {
    assert DepOk(st, d);
  }

  /** Announcing a completion settles every dependency on the job, whatever it was recorded as. */
  lemma CompletedSettles(st: State, j: nat)
    requires Structure(st) && j < |st.jobs|
    ensures var r := JobCompleted(st, j);
            forall d :: d in st.jobs[j].dependents ==> d < |st.deps| && r.deps[d].recorded == StatusOf(st, d)
  {
    var st1 := st.(waiting := st.waiting - {j});
    CheckedKeeps(st, st1);
    assert forall d :: d in st1.jobs[j].dependents ==> d < |st1.deps| && DepOk(st1, d);
    CheckAllSettles(st1, st1.jobs[j].dependents, j);
    var r := JobCompleted(st, j);
    forall d | d in st.jobs[j].dependents ensures d < |st.deps| && r.deps[d].recorded == StatusOf(st, d) {
      if Live(st1, d) { LiveIsToken(st1, d); }
      assert StatusOf(st1, d) == StatusOf(st, d);
    }
  }

  /** So a completion makes the dependencies on its job awake even if their job's state has just been changed. */
  lemma CompletedWakes(st: State, j: nat)
    requires Structure(st) && j < |st.jobs| && SumsFit(st)
    requires forall d :: 0 <= d < |st.deps| && st.deps[d].origin != OnJob(j) ==> Awake(st, d)
    ensures var r := JobCompleted(st, j);
            Calm(r) && forall d :: 0 <= d < |st.deps| && Registered(r, d) && r.deps[d].origin == OnJob(j) ==>
                         r.deps[d].recorded == StatusOf(r, d) && !Live(r, d)
  {
    var r := JobCompleted(st, j);
    ChecksKeepFit(st, r);
    CompletedSettles(st, j);
    CheckedKeeps(st, r);
    CheckedKeepsRegistry(st, r);
    forall d | 0 <= d < |st.deps|
      ensures Awake(r, d)
      ensures Registered(r, d) && r.deps[d].origin == OnJob(j) ==> r.deps[d].recorded == StatusOf(r, d) && !Live(r, d)
    {
      assert r.deps[d].origin == st.deps[d].origin;
      if st.deps[d].origin != OnJob(j) {
        ChecksKeepAwake(st, r, d);
      } else {
        if Live(r, d) { LiveIsToken(r, d); }
        assert Registered(r, d) ==> d in st.jobs[j].dependents;
      }
    }
  }

  // ---------------------------------------------------------------- locks

  lemma LockKeepsCalm(st: State, i: nat, d: nat)
    requires Structure(st) && Calm(st) && HoldsAreStructural(st, i, d) && Lock(st, i, d).Taken?
    requires Registered(st, d) && !st.threads[i].phase.Completing?
    ensures Structure(Lock(st, i, d).st) && Calm(Lock(st, i, d).st)
    ensures st.deps[d].origin.OnToken? ==> st.deps[d].recorded.OK?
  {
    var r := Lock(st, i, d).st;
    LockKeepsStructure(st, i, d);
    assert DepOk(st, d) && Awake(st, d);
    if st.deps[d].origin.OnToken? {
      var t, v := st.deps[d].origin.token, st.deps[d].origin.value;
      ExactSums(st, d);
      LockKeepsFit(st, i, d);
      HoldMakesLive(st, i, d);
      HeldSame(Hold(st, i, d), r);
      forall e | 0 <= e < |r.deps| ensures Awake(r, e) {
        assert Awake(st, e) && DepOk(st, e);
        assert Registered(r, e) <==> Registered(st, e);
        if st.deps[e].origin.OnToken? {
          ExactSums(st, e);
          ExactSums(r, e);
        } else {
          SamePending(st, r, i, st.deps[e].origin.job);
        }
      }
    }
  }

  lemma SamePending(st: State, r: State, i: nat, k: nat)
    requires i < |st.threads| == |r.threads|
    requires forall n :: 0 <= n < |st.threads| && n != i ==> r.threads[n] == st.threads[n]
    requires r.threads[i].job == st.threads[i].job
    requires r.threads[i].phase.Completing? || !st.threads[i].phase.Completing? || st.threads[i].job != k
    ensures Pending(st, k) ==> Pending(r, k)
  {
    if Pending(st, k) {
      var n :| 0 <= n < |st.threads| && st.threads[n].job == k && st.threads[n].phase.Completing?;
      assert r.threads[n].job == k && r.threads[n].phase.Completing?;
    }
  }

  lemma {:induction false} AcquireKeepsCalm(st: State, i: nat, ds: seq<nat>)
    requires Structure(st) && Calm(st) && i < |st.threads| && st.threads[i].phase.Requested?
    requires forall d :: d in ds ==> HoldsAreStructural(st, i, d) && Registered(st, d)
    ensures Calm(AcquireAll(st, i, ds).st)
    decreases |ds|
  {
    if ds != [] {
      assert ds[0] in ds && HoldsAreStructural(st, i, ds[0]);
      var x := Lock(st, i, ds[0]);
      if x.Taken? {
        LockKeepsStructure(st, i, ds[0]);
        LockKeepsCalm(st, i, ds[0]);
        assert forall d :: d in ds[1..] ==> d in ds;
        assert forall d :: HoldsAreStructural(st, i, d) ==> HoldsAreStructural(x.st, i, d);
        assert forall d: nat :: Registered(st, d) ==> Registered(x.st, d);
        AcquireKeepsCalm(x.st, i, ds[1..]);
      }
    }
  }

  /** The last release of a lock and the round of checks after it. */
  lemma ReleaseKeepsCalm(st: State, i: nat)
    requires Structure(st) && Calm(st) && i < |st.threads| && st.threads[i].held != []
    ensures Calm(Release(st, i))
  {
    ReleaseKeepsFit(st, i);
    ReleaseKeepsAwake(st, i);
  }

  lemma ReleaseKeepsAwake(st: State, i: nat)
    requires Structure(st) && Calm(st) && i < |st.threads| && st.threads[i].held != []
    ensures AllAwake(Release(st, i))
  {
    var d := st.threads[i].held[0];
    var st1 := Dropped(st, i);
    UpdateKeepsStructure(st, st1);
    assert DepOk(st, d);
    DropKeepsAwake(st, i);
    if !Live(st1, d) {
      var t := st.deps[d].origin.token;
      var st2 := WithUsed(st1, t, Sub32(st1.tokens[t].used, st.deps[d].origin.value));
      UpdateKeepsStructure(st1, st2);
      assert forall e :: e in st2.tokens[t].dependents ==> e < |st2.deps| && DepOk(st2, e);
      var r := CheckAll(st2, st2.tokens[t].dependents, -1);
      CheckAllSettles(st2, st2.tokens[t].dependents, -1);
      WakeAfterRelease(st1, st2, r, t);
    }
  }

  lemma DropKeepsAwake(st: State, i: nat)
    requires Structure(st) && Calm(st) && i < |st.threads| && st.threads[i].held != []
    ensures Structure(Dropped(st, i)) && AllAwake(Dropped(st, i))
  {
    var r := Dropped(st, i);
    UpdateKeepsStructure(st, r);
    DropEndsOnlyIts(st, i);
    forall e | 0 <= e < |r.deps| ensures Awake(r, e) {
      assert Awake(st, e) && DepOk(st, e);
      if st.deps[e].origin.OnJob? { SamePending(st, r, i, st.deps[e].origin.job); }
    }
  }

  lemma WakeAfterRelease(st1: State, st2: State, r: State, t: nat)
    requires Structure(st1) && Structure(st2) && AllAwake(st1) && t < |st1.tokens|
    requires st2 == st1.(tokens := st2.tokens) && |st2.tokens| == |st1.tokens|
    requires forall u :: 0 <= u < |st1.tokens| && u != t ==> st2.tokens[u] == st1.tokens[u]
    requires st2.tokens[t].dependents == st1.tokens[t].dependents
    requires Checked(st2, r) && Structure(r)
    requires forall e :: e in st2.tokens[t].dependents ==>
               e < |st2.deps| && (Live(st2, e) || r.deps[e].recorded == StatusOf(st2, e))
    ensures AllAwake(r)
  {
    CheckedKeeps(st2, r);
    CheckedKeepsRegistry(st2, r);
    HeldSame(st1, st2);
    forall e | 0 <= e < |r.deps| ensures Awake(r, e) {
      assert Awake(st1, e) && DepOk(st1, e) && r.deps[e].origin == st1.deps[e].origin;
      assert Registered(st2, e) <==> Registered(st1, e);
      if !(st1.deps[e].origin.OnToken? && st1.deps[e].origin.token == t) {
        assert Awake(st2, e);
        ChecksKeepAwake(st2, r, e);
      }
    }
  }

  // ---------------------------------------------------------------- events

  /** A state set by a thread that is about to announce it, or to something other than DONE, wakes nobody up. */
  lemma PhaseKeepsCalm(st: State, i: nat, s: JobState, p: Phase)
    requires Structure(st) && Calm(st) && i < |st.threads|
    requires !s.Done? || p.Completing? || s == st.jobs[st.threads[i].job].state
    requires p.Completing? || !st.threads[i].phase.Completing?
    ensures var r := SetPhase(WithState(st, st.threads[i].job, s), i, p);
            Structure(r) && Calm(r)
  {
    var j := st.threads[i].job;
    var r := SetPhase(WithState(st, j, s), i, p);
    UpdateKeepsStructure(st, r);
    HeldSame(st, r);
    SameSums(st, r);
    assert r.tokens == st.tokens;
    forall e | 0 <= e < |r.deps| ensures Awake(r, e) {
      assert Awake(st, e) && DepOk(st, e);
      assert Registered(r, e) <==> Registered(st, e);
      if st.deps[e].origin.OnJob? {
        SamePending(st, r, i, st.deps[e].origin.job);
        if p.Completing? { assert Pending(r, j); }
      }
    }
  }

  /** A thread whose job's dependents are all recorded as they are may stop being the one that will announce it. */
  lemma SettledPhaseKeepsCalm(st: State, i: nat, p: Phase)
    requires Structure(st) && Calm(st) && i < |st.threads|
    requires forall d :: 0 <= d < |st.deps| && Registered(st, d) && st.deps[d].origin == OnJob(st.threads[i].job) ==>
               st.deps[d].recorded == StatusOf(st, d) && !Live(st, d)
    ensures Structure(SetPhase(st, i, p)) && Calm(SetPhase(st, i, p))
  {
    var r := SetPhase(st, i, p);
    UpdateKeepsStructure(st, r);
    HeldSame(st, r);
    SameSums(st, r);
    forall e | 0 <= e < |r.deps| ensures Awake(r, e) {
      assert Awake(st, e) && DepOk(st, e);
      assert Registered(r, e) <==> Registered(st, e);
      if st.deps[e].origin.OnJob? && st.deps[e].origin.job != st.threads[i].job {
        SamePending(st, r, i, st.deps[e].origin.job);
      }
    }
  }

  lemma BeginRunKeepsCalm(st: State, i: nat, mode: RunMode)
    requires Structure(st) && Calm(st) && i < |st.threads| && st.threads[i].phase.Requested?
    ensures Calm(BeginRun(st, i, mode))
  {
    var j := st.threads[i].job;
    SameStateUpdate(st, j);
    match mode
    case Launched => PhaseKeepsCalm(st, i, Running, InRun);
    case Silent => PhaseKeepsCalm(st, i, st.jobs[j].state, InRun);
    case Watched(ok) => PhaseKeepsCalm(st, i, if ok then Done else Error, Completing);
    case NoRun => PhaseKeepsCalm(st, i, st.jobs[j].state, Completing);
    case FoundDone =>
      var st1 := WithState(st, j, Done);
      UpdateKeepsStructure(st, st1);
      HeldSame(st, st1);
      SameSums(st, st1);
      forall e | 0 <= e < |st1.deps| && st1.deps[e].origin != OnJob(j) ensures Awake(st1, e) {
        assert Awake(st, e) && DepOk(st, e);
        assert Registered(st1, e) <==> Registered(st, e);
        if st.deps[e].origin.OnJob? { SamePending(st, st1, i, st.deps[e].origin.job); }
      }
      CompletedWakes(st1, j);
      var st2 := JobCompleted(st1, j);
      SameStateUpdate(st2, j);
      assert st2.threads[i] == st.threads[i];
      PhaseKeepsCalm(st2, i, st2.jobs[j].state, Completing);
  }

  lemma StartSectionKeepsCalm(st: State, i: nat, mode: RunMode)
    requires Structure(st) && Inv(st) && Calm(st) && i < |st.threads| && st.threads[i].phase.Requested?
    ensures Calm(StartSection(st, i, mode))
  {
    var ds := st.jobs[st.threads[i].job].dependencies;
    assert ThreadOk(st, i);
    assert forall d :: d in ds ==> HoldsAreStructural(st, i, d) && Registered(st, d);
    AcquireKeepsCalm(st, i, ds);
    match AcquireAll(st, i, ds)
    case Abort(st1, d) =>
      var st2 := Check(st1, d);
      ChecksKeepCalm(st1, st2);
      assert st2.threads[i] == st1.threads[i];
      PhaseKeepsCalm(st2, i, Ready, Releasing);
    case All(st1) => BeginRunKeepsCalm(st1, i, mode);
  }

  lemma EndRunKeepsCalm(st: State, i: nat, verdict: Verdict)
    requires Structure(st) && Calm(st) && i < |st.threads|
    ensures Calm(EndRun(st, i, verdict))
  {
    SameStateUpdate(st, st.threads[i].job);
    match verdict
    case Keep => PhaseKeepsCalm(st, i, st.jobs[st.threads[i].job].state, Completing);
    case Set(ok) => PhaseKeepsCalm(st, i, if ok then Done else Error, Completing);
  }

  lemma {:induction false} ReleaseAllKeepsCalm(st: State, i: nat)
    requires Structure(st) && Calm(st) && i < |st.threads|
    ensures Calm(ReleaseAll(st, i))
    decreases |st.threads[i].held|
  {
    if st.threads[i].held != [] {
      ReleaseKeepsCalm(st, i);
      ReleaseAllKeepsCalm(Release(st, i), i);
    }
  }

  lemma CompleteSectionKeepsCalm(st: State, i: nat)
    requires Structure(st) && Calm(st) && i < |st.threads|
    ensures Calm(CompleteSection(st, i))
  {
    var j := st.threads[i].job;
    var st1 := JobCompleted(st, j);
    CompletedWakes(st, j);
    assert st1.threads[i] == st.threads[i];
    SettledPhaseKeepsCalm(st1, i, Releasing);
    var st2 := SetPhase(st1, i, Releasing);
    ReleaseAllKeepsCalm(st2, i);
    var st3 := ReleaseAll(st2, i);
    assert st3.threads[i].phase.Releasing?;
    SameStateUpdate(st3, st3.threads[i].job);
    PhaseKeepsCalm(st3, i, st3.jobs[st3.threads[i].job].state, Ended);
  }

  lemma {:induction false} RegisterAllKeepsCalm(st: State, ds: seq<nat>, places: seq<nat>)
    requires Structure(st) && Calm(st) && |places| == |ds|
    requires forall d :: d in ds ==> d < |st.deps| && !Live(st, d)
    ensures Calm(RegisterAll(st, ds, places))
    decreases |ds|
  {
    if ds != [] {
      assert ds[0] in ds;
      var st1 := AddDependent(st, ds[0], places[0]);
      var st2 := Check(st1, ds[0]);
      RegisterKeepsCalm(st, ds[0], places[0]);
      CheckedKeeps(st1, st2);
      HeldSame(st, st1);
      assert forall d :: d in ds[1..] ==> d in ds;
      RegisterAllKeepsCalm(st2, ds[1..], places[1..]);
    }
  }

  lemma RegisterKeepsCalm(st: State, d: nat, place: nat)
    requires Structure(st) && Calm(st) && d < |st.deps| && !Live(st, d)
    ensures var st1 := AddDependent(st, d, place);
            st1.threads == st.threads && Calm(Check(st1, d))
  {
    var st1 := AddDependent(st, d, place);
    var r := Check(st1, d);
    assert DepOk(st, d) && DepOk(st1, d);
    HeldSame(st, st1);
    SameSums(st, st1);
    assert forall t :: 0 <= t < |st.tokens| ==>
             st1.tokens[t].used == st.tokens[t].used && st1.tokens[t].limit == st.tokens[t].limit;
    assert SumsFit(st1);
    ChecksKeepFit(st1, r);
    CheckSettles(st1, d);
    CheckedKeeps(st1, r);
    forall e | 0 <= e < |r.deps| ensures Awake(r, e) {
      assert Awake(st, e) && DepOk(st, e) && DepOk(st1, e);
      assert r.deps[e].origin == st.deps[e].origin;
      if e != d {
        assert Registered(st1, e) <==> Registered(st, e);
        assert forall k :: 0 <= k < |st.jobs| ==> st1.jobs[k].state == st.jobs[k].state;
        assert StatusOf(st1, e) == StatusOf(st, e);
        if st.deps[e].origin.OnJob? && Pending(st, st.deps[e].origin.job) {
          PendingStays(st, st1, st.deps[e].origin.job);
        }
        assert Awake(st1, e);
        ChecksKeepAwake(st1, r, e);
      }
    }
  }

  lemma LiveIsSubmitted(st: State, d: nat)
    requires Structure(st) && ThreadsOk(st) && Live(st, d)
    ensures d < |st.deps| && Submitted(st, st.deps[d].target)
  {
    LiveIsToken(st, d);
    var k :| 0 <= k < |st.threads| && d in st.threads[k].held && st.threads[k].job == st.deps[d].target;
    assert ThreadOk(st, k);
  }

  lemma SubmitKeepsCalm(st: State, j: nat, places: seq<nat>)
    requires Structure(st) && Inv(st) && Calm(st) && j < |st.jobs| && |places| == |st.jobs[j].dependencies|
    ensures Calm(Submit(st, j, places))
  {
    if st.jobs[j].id !in st.byId {
      var st1 := SubmitBegins(st, j);
      var ds := st.jobs[j].dependencies;
      HeldSame(st, st1);
      SameSums(st, st1);
      forall e | 0 <= e < |st1.deps| ensures Awake(st1, e) {
        assert Awake(st, e) && DepOk(st, e);
        assert Registered(st1, e) <==> Registered(st, e);
        if st.deps[e].origin.OnJob? && Pending(st, st.deps[e].origin.job) {
          PendingStays(st, st1, st.deps[e].origin.job);
        }
      }
      forall d: nat | Live(st, d) ensures d < |st.deps| && Submitted(st, st.deps[d].target) { LiveIsSubmitted(st, d); }
      assert !Submitted(st, j);
      assert forall d :: d in ds ==> d < |st1.deps| && st.deps[d].target == j;
      RegisterAllKeepsCalm(st1, ds, places);
      var st2 := RegisterAll(st1, ds, places);
      if ds == [] {
        StartKeepsStructure(st2, j);
        ChecksKeepCalm(st2, Start(st2, j));
      }
    }
  }

  /** Creating objects wakes nobody up; a new dependency must fit beside the limit of its token. */
  lemma BuildKeepsCalm(st: State, r: State)
    requires Structure(st) && Structure(r) && Calm(st)
    requires r.threads == st.threads && |st.deps| <= |r.deps| && |st.tokens| <= |r.tokens| && |st.jobs| <= |r.jobs|
    requires forall d :: 0 <= d < |st.deps| ==> r.deps[d] == st.deps[d]
    requires forall d :: |st.deps| <= d < |r.deps| ==> !Registered(r, d)
    requires forall t :: 0 <= t < |st.tokens| ==> r.tokens[t] == st.tokens[t]
    requires forall t :: |st.tokens| <= t < |r.tokens| ==> r.tokens[t].used == 0
    requires forall j :: 0 <= j < |st.jobs| ==>
               r.jobs[j].state == st.jobs[j].state && r.jobs[j].dependents == st.jobs[j].dependents
    requires forall d :: 0 <= d < |r.deps| && r.deps[d].origin.OnToken? && r.deps[d].origin.token < |r.tokens| ==>
               Fits(r.tokens[r.deps[d].origin.token], r.deps[d].origin.value)
    ensures Calm(r)
  {
    BuildSums(st, r);
    forall e | 0 <= e < |r.deps| ensures Awake(r, e) {
      if e < |st.deps| {
        assert Awake(st, e) && DepOk(st, e);
        if st.deps[e].origin.OnJob? && Pending(st, st.deps[e].origin.job) {
          PendingStays(st, r, st.deps[e].origin.job);
        }
      }
    }
  }

  // ---------------------------------------------------------------- quiet runs

  /** No dependency that waits for the token fits under the limit. */
  predicate NoneFits(st: State, t: nat, limit: uint32)
    requires Structure(st) && t < |st.tokens|
  {
    forall d :: d in st.tokens[t].dependents && !st.deps[d].recorded.OK? ==>
                  st.deps[d].origin.value + st.tokens[t].used > limit
  }

  /** Besides fitting, a new limit must not let in a dependency that waits: nothing is checked when it is set. */
  predicate QuietEvent(st: State, e: Event)
    requires Structure(st)
  {
    && FitEvent(st, e)
    && (e.ChangeLimit? && e.t < |st.tokens| ==> NoneFits(st, e.t, e.limit))
  }

  /** Runs that change limits only in these ways. */
  ghost predicate Quiet(st: State, events: seq<Event>)
    requires Structure(st)
    decreases |events|
  {
    events == [] || (QuietEvent(st, events[0]) && Quiet(Step(st, events[0]), events[1..]))
  }

  /**
    Changing a limit does not re-check anything: it keeps every dependency awake if and only if no dependency
    that waits for the token fits under the new limit.
  */
  lemma LimitKeepsAwakeIff(st: State, t: nat, limit: uint32)
    requires Structure(st) && Calm(st) && t < |st.tokens|
    ensures AllAwake(SetLimit(st, t, limit)) <==> NoneFits(st, t, limit)
  {
    var r := SetLimit(st, t, limit);
    HeldSame(st, r);
    forall d | 0 <= d < |st.deps|
      ensures Awake(r, d) <==> (d in st.tokens[t].dependents && !st.deps[d].recorded.OK? ==>
                                  st.deps[d].origin.value + st.tokens[t].used > limit)
    {
      assert Awake(st, d) && DepOk(st, d);
      assert Registered(r, d) <==> Registered(st, d);
      if d in st.tokens[t].dependents {
        var k :| 0 <= k < |st.tokens[t].dependents| && st.tokens[t].dependents[k] == d;
      }
      if st.deps[d].origin.OnJob? && Pending(st, st.deps[d].origin.job) { PendingStays(st, r, st.deps[d].origin.job); }
      if st.deps[d].origin.OnJob? && Pending(r, st.deps[d].origin.job) { PendingStays(r, st, st.deps[d].origin.job); }
    }
  }

  lemma LimitKeepsCalm(st: State, t: nat, limit: uint32)
    requires Structure(st) && Calm(st) && t < |st.tokens| && QuietEvent(st, ChangeLimit(t, limit))
    ensures Calm(SetLimit(st, t, limit))
  {
    LimitIsKeptIff(st, t, limit);
    LimitKeepsAwakeIff(st, t, limit);
  }

  lemma StepKeepsCalm(st: State, e: Event)
    requires Structure(st) && Inv(st) && Calm(st) && QuietEvent(st, e)
    ensures Calm(Step(st, e))
  {
    match e
    case CreateJob(id, s) => BuildKeepsCalm(st, NewJob(st, id, s));
    case CreateToken(limit) => NewTokenKeepsCalm(st, limit);
    case ChangeLimit(t, limit) => if t < |st.tokens| { LimitKeepsCalm(st, t, limit); }
    case Depend(j, o) =>
      if j < |st.jobs| && !Submitted(st, j) && OriginOk(st, o, j) && |st.deps| + 1 < SIZE {
        AddDependencyKeepsInv(st, j, o);
        BuildKeepsCalm(st, AddDependency(st, j, o));
      }
    case SubmitJob(j, places) =>
      if j < |st.jobs| && |places| == |st.jobs[j].dependencies| { SubmitKeepsCalm(st, j, places); }
    case _ => ThreadStepKeepsCalm(st, e);
  }

  lemma ThreadStepKeepsCalm(st: State, e: Event)
    requires Structure(st) && Inv(st) && Calm(st)
    requires e.EnterStart? || e.LeaveRun? || e.Finish? || e.ReleaseNext?
    ensures Calm(Step(st, e))
  {
    match e
    case EnterStart(i, mode) =>
      if i < |st.threads| && st.threads[i].phase.Requested? { StartSectionKeepsCalm(st, i, mode); }
    case LeaveRun(i, verdict) =>
      if i < |st.threads| && st.threads[i].phase.InRun? { EndRunKeepsCalm(st, i, verdict); }
    case Finish(i) =>
      if i < |st.threads| && st.threads[i].phase.Completing? { CompleteSectionKeepsCalm(st, i); }
    case ReleaseNext(i) =>
      if i < |st.threads| && st.threads[i].phase.Releasing? {
        if st.threads[i].held != [] { ReleaseKeepsCalm(st, i); }
        else {
          SameStateUpdate(st, st.threads[i].job);
          PhaseKeepsCalm(st, i, st.jobs[st.threads[i].job].state, Ended);
        }
      }
  }

  lemma NewTokenKeepsCalm(st: State, limit: uint32)
    requires Structure(st) && Calm(st)
    ensures Calm(NewToken(st, limit))
  {
    var r := NewToken(st, limit);
    NewTokenKeepsFit(st, limit);
    BuildKeepsCalm(st, r);
  }

  lemma {:induction false} RunKeepsCalm(st: State, events: seq<Event>)
    requires Structure(st) && Inv(st) && Calm(st) && Quiet(st, events)
    ensures Inv(Run(st, events)) && Calm(Run(st, events))
    decreases |events|
  {
    if events != [] {
      StepKeepsInv(st, events[0]);
      StepKeepsCalm(st, events[0]);
      RunKeepsCalm(Step(st, events[0]), events[1..]);
    }
  }
}
