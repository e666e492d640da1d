/**
  The scheduler as it runs: one object whose methods update the tables of jobs, dependencies, tokens and threads
  in place. Every method is proved to compute the corresponding function of SchedulerSpec.
*/
module WorkspaceModel {
  import S = SchedulerSpec

  /** Dependencies `ds` can be checked on behalf of a resource whose dependents come after job `floor`. */
  predicate Checkable(st: S.State, ds: seq<nat>, floor: int) {
    forall d :: d in ds ==> d < |st.deps| && floor < st.deps[d].target
  }

  lemma CheckAllStep(st: S.State, ds: seq<nat>, i: nat, floor: int)
    requires S.Structure(st) && -1 <= floor && i < |ds| && Checkable(st, ds[i..], floor)
    ensures ds[i] < |st.deps| && floor < st.deps[ds[i]].target
    ensures Checkable(S.Check(st, ds[i]), ds[i + 1..], floor)
    ensures S.CheckAll(st, ds[i..], floor) == S.CheckAll(S.Check(st, ds[i]), ds[i + 1..], floor)
  {
    assert ds[i] in ds[i..] && ds[i..][1..] == ds[i + 1..];
    StillCheckable(st, S.Check(st, ds[i]), ds, i, floor);
  }

  lemma StillCheckable(st: S.State, r: S.State, ds: seq<nat>, i: nat, floor: int)
    requires S.Structure(st) && S.Checked(st, r) && i < |ds| && Checkable(st, ds[i..], floor)
    ensures Checkable(r, ds[i + 1..], floor)
  {
    forall d | d in ds[i + 1..]
      ensures d < |r.deps| && floor < r.deps[d].target
    {
      assert d in ds[i..];
      assert r.deps[d].target == st.deps[d].target;
    }
  }

  predicate Lockable(st: S.State, t: nat, ds: seq<nat>) {
    forall d :: d in ds ==> S.HoldsAreStructural(st, t, d)
  }

  lemma AcquireStep(st: S.State, t: nat, ds: seq<nat>, i: nat)
    requires S.Structure(st) && i < |ds| && Lockable(st, t, ds[i..])
    ensures S.HoldsAreStructural(st, t, ds[i])
    ensures S.Lock(st, t, ds[i]).Short? ==> S.AcquireAll(st, t, ds[i..]) == S.Abort(st, ds[i])
    ensures S.Lock(st, t, ds[i]).Taken? ==>
              && S.Structure(S.Lock(st, t, ds[i]).st)
              && S.SameButLocks(st, S.Lock(st, t, ds[i]).st, t)
              && Lockable(S.Lock(st, t, ds[i]).st, t, ds[i + 1..])
              && S.AcquireAll(st, t, ds[i..]) == S.AcquireAll(S.Lock(st, t, ds[i]).st, t, ds[i + 1..])
  {
    assert ds[i] in ds[i..] && ds[i..][1..] == ds[i + 1..];
    if S.Lock(st, t, ds[i]).Taken? {
      S.LockKeepsStructure(st, t, ds[i]);
      forall d | d in ds[i + 1..] ensures S.HoldsAreStructural(S.Lock(st, t, ds[i]).st, t, d) { assert d in ds[i..]; }
    }
  }

  predicate Registrable(st: S.State, ds: seq<nat>) {
    forall d :: d in ds ==> d < |st.deps|
  }

  function Registered(st: S.State, d: nat, place: nat): (r: S.State)
    requires S.Structure(st) && d < |st.deps|
    ensures S.Structure(r) && |r.deps| == |st.deps|
  {
    S.Check(S.AddDependent(st, d, place), d)
  }

  lemma RegisterStep(st: S.State, ds: seq<nat>, places: seq<nat>, i: nat)
    requires S.Structure(st) && i < |ds| == |places| && Registrable(st, ds[i..])
    ensures ds[i] < |st.deps| && Registrable(Registered(st, ds[i], places[i]), ds[i + 1..])
    ensures S.RegisterAll(st, ds[i..], places[i..])
         == S.RegisterAll(Registered(st, ds[i], places[i]), ds[i + 1..], places[i + 1..])
  {
    assert ds[i] in ds[i..];
    assert forall d :: d in ds[i + 1..] ==> d in ds[i..];
    RegisterCons(st, ds[i..], places[i..]);
    assert ds[i..][1..] == ds[i + 1..] && places[i..][1..] == places[i + 1..];
  }

  lemma RegisterCons(st: S.State, ds: seq<nat>, places: seq<nat>)
    requires S.Structure(st) && 0 < |ds| == |places| && Registrable(st, ds)
    ensures ds[0] in ds && Registrable(Registered(st, ds[0], places[0]), ds[1..])
    ensures S.RegisterAll(st, ds, places) == S.RegisterAll(Registered(st, ds[0], places[0]), ds[1..], places[1..])
  {
    assert ds[0] in ds;
    assert forall d :: d in ds[1..] ==> d in ds;
  }

  class Workspace {
    var jobs: seq<S.Job>
    var deps: seq<S.Dependency>
    var tokens: seq<S.Token>
    var threads: seq<S.Thread>
    var byId: map<string, nat>
    var waiting: set<nat>

    function Snapshot(): S.State
      reads this
    {
      S.State(jobs, deps, tokens, threads, byId, waiting)
    }

    ghost predicate Valid()
      reads this
    {
      S.Structure(Snapshot())
    }

    constructor ()
      ensures Valid() && Snapshot() == S.INIT
    {
      jobs, deps, tokens, threads, byId, waiting := [], [], [], [], map[], {};
    }

    // ---------------------------------------------------------------- dependencies and completion

    method Start(j: nat)
      requires Valid() && j < |jobs|
      modifies this`threads
      ensures Valid() && Snapshot() == S.Start(old(Snapshot()), j)
    {
      S.StartKeepsStructure(Snapshot(), j);
      threads := threads + [S.Thread(j, S.Requested, [])];
    }

    method Check(d: nat)
      requires Valid() && d < |deps|
      modifies this
      ensures Valid() && Snapshot() == S.Check(old(Snapshot()), d)
      decreases |jobs| - deps[d].target, 3
    {
      ghost var r := S.Check(Snapshot(), d);
      assert S.DepOk(Snapshot(), d);
      if S.Live(Snapshot(), d) { return; }
      var s := S.StatusOf(Snapshot(), d);
      if s != deps[d].recorded {
        DependencyChanged(deps[d].target, deps[d].recorded, s);
        deps := deps[d := deps[d].(recorded := s)];
        assert Snapshot() == r;
      }
    }

    method DependencyChanged(j: nat, from: S.Status, to: S.Status)
      requires Valid() && j < |jobs|
      modifies this
      ensures Valid() && Snapshot() == S.DependencyChanged(old(Snapshot()), j, from, to)
      decreases |jobs| - j, 2
    {
      ghost var before := Snapshot();
      var delta := S.ValueOf(to) - S.ValueOf(from);
      jobs := jobs[j := jobs[j].(unsatisfied := S.SubtractSize(jobs[j].unsatisfied, delta))];
      S.CheckedKeeps(before, Snapshot());
      if to.FAIL? {
        JobCompleted(j);
        return;
      }
      if jobs[j].unsatisfied == 0 {
        Start(j);
      }
    }

    method JobCompleted(j: nat)
      requires Valid() && j < |jobs|
      modifies this
      ensures Valid() && Snapshot() == S.JobCompleted(old(Snapshot()), j)
      decreases |jobs| - j, 1
    {
      ghost var before := Snapshot();
      waiting := waiting - {j};
      S.CheckedKeeps(before, Snapshot());
      ghost var st1 := Snapshot();
      assert forall d :: d in jobs[j].dependents ==> d < |deps| && S.DepOk(st1, d);
      CheckEach(jobs[j].dependents, j);
    }

    /** The loop over the dependents of a job that completed or of a token that got values back. */
    method CheckEach(ds: seq<nat>, ghost floor: int)
      requires Valid() && -1 <= floor && Checkable(Snapshot(), ds, floor)
      modifies this
      ensures Valid() && Snapshot() == S.CheckAll(old(Snapshot()), ds, floor)
      decreases |jobs| - floor, 0
    {
      ghost var n := |jobs|;
      assert ds[0..] == ds;
      var i := 0;
      while i < |ds|
        invariant Valid() && 0 <= i <= |ds| && |jobs| == n && Checkable(Snapshot(), ds[i..], floor)
        invariant S.CheckAll(Snapshot(), ds[i..], floor) == S.CheckAll(old(Snapshot()), ds, floor)
      {
        CheckAllStep(Snapshot(), ds, i, floor);
        assert S.DepOk(Snapshot(), ds[i]);
        Check(ds[i]);
        i := i + 1;
      }
    }

    // ---------------------------------------------------------------- locks

    method Lock(i: nat, d: nat) returns (taken: bool)
      requires Valid() && S.HoldsAreStructural(Snapshot(), i, d)
      modifies this`threads, this`tokens
      ensures Valid() && taken == S.Lock(old(Snapshot()), i, d).Taken?
      ensures Snapshot() == if taken then S.Lock(old(Snapshot()), i, d).st else old(Snapshot())
    {
      ghost var before := Snapshot();
      assert S.DepOk(before, d);
      match deps[d].origin
      case OnJob(_) => taken := true;
      case OnToken(t, v) =>
        if !S.Live(Snapshot(), d) {
          if S.Add32(v, tokens[t].used) > tokens[t].limit { return false; }
          tokens := tokens[t := tokens[t].(used := S.Add32(tokens[t].used, v))];
        }
        threads := threads[i := threads[i].(held := threads[i].held + [d])];
        taken := true;
        S.LockKeepsStructure(before, i, d);
    }

    method Release(i: nat)
      requires Valid() && i < |threads| && threads[i].held != []
      modifies this
      ensures Valid() && Snapshot() == S.Release(old(Snapshot()), i)
      ensures i < |threads| && threads[i] == old(threads[i]).(held := old(threads[i].held)[1..])
    {
      ghost var before := Snapshot();
      var d := threads[i].held[0];
      threads := threads[i := threads[i].(held := threads[i].held[1..])];
      ghost var st1 := Snapshot();
      S.UpdateKeepsStructure(before, st1);
      assert S.DepOk(st1, d);
      if !S.Live(Snapshot(), d) {
        var t := deps[d].origin.token;
        tokens := tokens[t := tokens[t].(used := S.Sub32(tokens[t].used, deps[d].origin.value))];
        S.UpdateKeepsStructure(st1, Snapshot());
        assert forall e :: e in tokens[t].dependents ==> e < |deps| && S.DepOk(Snapshot(), e);
        CheckEach(tokens[t].dependents, -1);
      }
    }

    // ---------------------------------------------------------------- the thread spawned by start

    method SetState(j: nat, s: S.JobState)
      requires Valid() && j < |jobs|
      modifies this`jobs
      ensures Valid() && Snapshot() == S.WithState(old(Snapshot()), j, s)
    {
      ghost var before := Snapshot();
      jobs := jobs[j := jobs[j].(state := s)];
      S.UpdateKeepsStructure(before, Snapshot());
    }

    method SetPhase(i: nat, p: S.Phase)
      requires Valid() && i < |threads|
      modifies this`threads
      ensures Valid() && Snapshot() == S.SetPhase(old(Snapshot()), i, p)
    {
      ghost var before := Snapshot();
      threads := threads[i := threads[i].(phase := p)];
      S.UpdateKeepsStructure(before, Snapshot());
    }

    /** Locks dependencies in order, up to the first one that is short of tokens. */
    method AcquireAll(i: nat, ds: seq<nat>) returns (k: nat)
      requires Valid() && i < |threads| && Lockable(Snapshot(), i, ds)
      modifies this`threads, this`tokens
      ensures Valid() && k <= |ds|
      ensures S.AcquireAll(old(Snapshot()), i, ds) == if k == |ds| then S.All(Snapshot()) else S.Abort(Snapshot(), ds[k])
    {
      assert ds[0..] == ds;
      k := 0;
      while k < |ds|
        invariant Valid() && 0 <= k <= |ds| && i < |threads| && Lockable(Snapshot(), i, ds[k..])
        invariant S.AcquireAll(Snapshot(), i, ds[k..]) == S.AcquireAll(old(Snapshot()), i, ds)
      {
        AcquireStep(Snapshot(), i, ds, k);
        var taken := Lock(i, ds[k]);
        if !taken { return; }
        k := k + 1;
      }
    }

    /** First critical section: lock every dependency in order, run, or abort at the first one that is short. */
    method StartSection(i: nat, mode: S.RunMode)
      requires Valid() && i < |threads| && threads[i].phase.Requested?
      modifies this
      ensures Valid() && Snapshot() == S.StartSection(old(Snapshot()), i, mode)
    {
      ghost var before := Snapshot();
      var ds := jobs[threads[i].job].dependencies;
      assert forall d :: d in ds ==> S.HoldsAreStructural(before, i, d);
      var k := AcquireAll(i, ds);
      assert S.SameButLocks(before, S.AcquireAll(before, i, ds).st, i);
      if k < |ds| {
        assert ds[k] in ds;
        Abort(i, ds[k]);
      } else {
        BeginRun(i, mode);
      }
    }

    method Abort(i: nat, d: nat)
      requires Valid() && i < |threads| && d < |deps|
      modifies this
      ensures Valid() && Snapshot() == S.AbortStart(old(Snapshot()), i, d)
    {
      var j := threads[i].job;
      Check(d);
      SetState(j, S.Ready);
      SetPhase(i, S.Releasing);
    }

    method BeginRun(i: nat, mode: S.RunMode)
      requires Valid() && i < |threads|
      modifies this
      ensures Valid() && Snapshot() == S.BeginRun(old(Snapshot()), i, mode)
    {
      var j := threads[i].job;
      match mode
      case Launched =>
        SetState(j, S.Running);
        SetPhase(i, S.InRun);
      case Silent =>
        SetPhase(i, S.InRun);
      case FoundDone =>
        SetState(j, S.Done);
        JobCompleted(j);
        SetPhase(i, S.Completing);
      case Watched(ok) =>
        SetState(j, if ok then S.Done else S.Error);
        SetPhase(i, S.Completing);
      case NoRun =>
        SetPhase(i, S.Completing);
    }

    /** `run` set the state of the job, outside the mutex, and returned. */
    method EndRun(i: nat, verdict: S.Verdict)
      requires Valid() && i < |threads|
      modifies this
      ensures Valid() && Snapshot() == S.EndRun(old(Snapshot()), i, verdict)
    {
      if verdict.Set? {
        SetState(threads[i].job, if verdict.ok then S.Done else S.Error);
      }
      SetPhase(i, S.Completing);
    }

    /** Second critical section: announce the completion, then release every lock. */
    method CompleteSection(i: nat)
      requires Valid() && i < |threads|
      modifies this
      ensures Valid() && Snapshot() == S.CompleteSection(old(Snapshot()), i)
    {
      JobCompleted(threads[i].job);
      SetPhase(i, S.Releasing);
      ghost var st2 := Snapshot();
      while threads[i].held != []
        invariant Valid() && i < |threads|
        invariant S.ReleaseAll(Snapshot(), i) == S.ReleaseAll(st2, i)
        decreases if i < |threads| then |threads[i].held| else 0
      {
        Release(i);
      }
      SetPhase(i, S.Ended);
    }

    // ---------------------------------------------------------------- building and submitting

    method AddDependency(j: nat, o: S.Origin)
      requires Valid() && j < |jobs| && S.OriginOk(Snapshot(), o, j)
      modifies this`jobs, this`deps
      ensures Valid() && Snapshot() == S.AddDependency(old(Snapshot()), j, o)
    {
      ghost var r := S.AddDependency(Snapshot(), j, o);
      jobs := jobs[j := jobs[j].(dependencies := jobs[j].dependencies + [|deps|],
                                 unsatisfied := S.SubtractSize(jobs[j].unsatisfied, -1))];
      deps := deps + [S.Dependency(o, j, S.WAIT)];
      assert Snapshot() == r;
    }

    method AddDependent(d: nat, place: nat)
      requires Valid() && d < |deps|
      modifies this`jobs, this`tokens
      ensures Valid() && Snapshot() == S.AddDependent(old(Snapshot()), d, place)
    {
      ghost var r := S.AddDependent(Snapshot(), d, place);
      assert S.DepOk(Snapshot(), d);
      match deps[d].origin
      case OnJob(k) =>
        jobs := jobs[k := jobs[k].(dependents := S.Insert(jobs[k].dependents, place, d))];
      case OnToken(t, _) =>
        tokens := tokens[t := tokens[t].(dependents := S.Insert(tokens[t].dependents, place, d))];
    }

    method RegisterAll(ds: seq<nat>, places: seq<nat>)
      requires Valid() && |places| == |ds| && Registrable(Snapshot(), ds)
      modifies this
      ensures Valid() && Snapshot() == S.RegisterAll(old(Snapshot()), ds, places)
    {
      assert ds[0..] == ds && places[0..] == places;
      var k := 0;
      while k < |ds|
        invariant Valid() && 0 <= k <= |ds| && Registrable(Snapshot(), ds[k..])
        invariant S.RegisterAll(Snapshot(), ds[k..], places[k..]) == S.RegisterAll(old(Snapshot()), ds, places)
      {
        RegisterStep(Snapshot(), ds, places, k);
        AddDependent(ds[k], places[k]);
        Check(ds[k]);
        k := k + 1;
      }
    }

    method Submit(j: nat, places: seq<nat>)
      requires Valid() && j < |jobs| && |places| == |jobs[j].dependencies|
      modifies this
      ensures Valid() && Snapshot() == S.Submit(old(Snapshot()), j, places)
    {
      ghost var before := Snapshot();
      if jobs[j].id in byId { return; }
      waiting := waiting + {j};
      byId := byId[jobs[j].id := j];
      ghost var st1 := Snapshot();
      S.UpdateKeepsStructure(before, st1);
      var ds := jobs[j].dependencies;
      assert forall d :: d in ds ==> d < |deps|;
      RegisterAll(ds, places);
      if ds == [] && jobs[j].unsatisfied == 0 {
        Start(j);
      }
    }

    // ---------------------------------------------------------------- runs

    method NewJob(id: string, state: S.JobState)
      requires Valid()
      modifies this`jobs
      ensures Valid() && Snapshot() == S.NewJob(old(Snapshot()), id, state)
    {
      ghost var r := S.NewJob(Snapshot(), id, state);
      jobs := jobs + [S.Job(id, state, 0, [], [])];
      assert Snapshot() == r;
    }

    method NewToken(limit: S.uint32)
      requires Valid()
      modifies this`tokens
      ensures Valid() && Snapshot() == S.NewToken(old(Snapshot()), limit)
    {
      ghost var r := S.NewToken(Snapshot(), limit);
      tokens := tokens + [S.Token(limit, 0, [])];
      assert Snapshot() == r;
    }

    method SetLimit(t: nat, limit: S.uint32)
      requires Valid() && t < |tokens|
      modifies this`tokens
      ensures Valid() && Snapshot() == S.SetLimit(old(Snapshot()), t, limit)
    {
      ghost var r := S.SetLimit(Snapshot(), t, limit);
      tokens := tokens[t := tokens[t].(limit := limit)];
      assert Snapshot() == r;
    }

    /** One critical section, or nothing when it is not enabled. */
    method Do(e: S.Event)
      requires Valid()
      modifies this
      ensures Valid() && Snapshot() == S.Step(old(Snapshot()), e)
    {
      match e
      case CreateJob(id, state) => NewJob(id, state);
      case CreateToken(limit) => NewToken(limit);
      case ChangeLimit(t, limit) => if t < |tokens| { SetLimit(t, limit); }
      case Depend(j, o) =>
        if j < |jobs| && !S.Submitted(Snapshot(), j) && S.OriginOk(Snapshot(), o, j) && |deps| + 1 < S.SIZE {
          AddDependency(j, o);
        }
      case SubmitJob(j, places) =>
        if j < |jobs| && |places| == |jobs[j].dependencies| { Submit(j, places); }
      case EnterStart(i, mode) =>
        if i < |threads| && threads[i].phase.Requested? { StartSection(i, mode); }
      case LeaveRun(i, verdict) =>
        if i < |threads| && threads[i].phase.InRun? { EndRun(i, verdict); }
      case Finish(i) =>
        if i < |threads| && threads[i].phase.Completing? { CompleteSection(i); }
      case ReleaseNext(i) =>
        if i < |threads| && threads[i].phase.Releasing? {
          if threads[i].held != [] { Release(i); } else { SetPhase(i, S.Ended); }
        }
    }

    /** Any interleaving of critical sections: what is proved of `Run` holds of the object. */
    method Execute(events: seq<S.Event>)
      requires Valid()
      modifies this
      ensures Valid() && Snapshot() == S.Run(old(Snapshot()), events)
    {
      assert events[0..] == events;
      var n := 0;
      while n < |events|
        invariant Valid() && 0 <= n <= |events|
        invariant S.Run(Snapshot(), events[n..]) == S.Run(old(Snapshot()), events)
      {
        assert events[n..][0] == events[n] && events[n..][1..] == events[n + 1..];
        Do(events[n]);
        n := n + 1;
      }
    }
  }
}
