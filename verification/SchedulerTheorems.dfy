/** What the scheduler guarantees in every run. */
module SchedulerTheorems {
  import opened SchedulerSpec
  import opened SchedulerCounters
  import opened SchedulerRuns
  import opened SchedulerTokens
  import opened SchedulerLimits
  import opened SchedulerWakeups

  lemma InitInv()
    ensures Structure(INIT) && Inv(INIT) && Calm(INIT)
  {
  }

  // ---------------------------------------------------------------- counters

  /** The dependencies of a job that are not recorded OK. */
  function NotOk(st: State, j: nat): set<nat>
    requires Structure(st) && j < |st.jobs|
  {
    Lacking(st.deps, st.jobs[j].dependencies)
  }

  /** Those of the listed dependencies that are not recorded OK. */
  function Lacking(deps: seq<Dependency>, ds: seq<nat>): set<nat>
    requires forall d :: d in ds ==> d < |deps|
  {
    set d | d in ds && !deps[d].recorded.OK?
  }

  lemma LackingSplits(deps: seq<Dependency>, ds: seq<nat>)
    requires ds != [] && Distinct(ds) && forall d :: d in ds ==> d < |deps|
    ensures ds[0] in ds && forall d :: d in ds[1..] ==> d < |deps|
    ensures |Lacking(deps, ds)| == |Lacking(deps, ds[1..])| + if deps[ds[0]].recorded.OK? then 0 else 1
  {
    assert ds[0] in ds && ds[0] !in ds[1..] && forall d :: d in ds <==> d == ds[0] || d in ds[1..];
    var all, rest := Lacking(deps, ds), Lacking(deps, ds[1..]);
    if deps[ds[0]].recorded.OK? { assert all == rest; } else { assert all == rest + {ds[0]}; }
  }

  lemma {:induction false} OpenCounts(deps: seq<Dependency>, ds: seq<nat>)
    requires Distinct(ds) && forall d :: d in ds ==> d < |deps|
    ensures Open(deps, ds) == |Lacking(deps, ds)|
    decreases |ds|
  {
    if ds != [] {
      LackingSplits(deps, ds);
      OpenCounts(deps, ds[1..]);
    }
  }

  /** In every run the counter of a job is the number of its dependencies that are not recorded OK. */
  lemma CounterAgreement(events: seq<Event>, j: nat)
    requires j < |Run(INIT, events).jobs|
    ensures var st := Run(INIT, events); st.jobs[j].unsatisfied == |NotOk(st, j)|
  {
    InitInv();
    RunKeepsInv(INIT, events);
    var st := Run(INIT, events);
    assert CounterOk(st, j);
    OpenCounts(st.deps, st.jobs[j].dependencies);
  }

  lemma SingletonIs(s: set<nat>, d: nat)
    requires |s| == 1 && d in s
    ensures s == {d}
  {
    assert |s - {d}| == 0;
  }

  /** The counter that a change to OK leaves is 0 exactly if the dependency was the last one not recorded OK. */
  lemma LastOneIff(st: State, j: nat, d: nat)
    requires Structure(st) && Lists(st) && j < |st.jobs| && d < |st.deps| && st.deps[d].target == j
    requires CounterOk(st, j) && !st.deps[d].recorded.OK?
    ensures d in NotOk(st, j)
    ensures st.jobs[j].unsatisfied == 1 <==> NotOk(st, j) == {d}
  {
    assert Listed(st, d);
    OpenCounts(st.deps, st.jobs[j].dependencies);
    if |NotOk(st, j)| == 1 { SingletonIs(NotOk(st, j), d); }
  }

  /**
    A check whose dependency did not fail requests a start exactly when it records that dependency OK as the last
    one of its job; failures are passed on by further checks.
  */
  lemma StartsExactlyWhenReady(st: State, d: nat, j: nat)
    requires Structure(st) && Lists(st) && d < |st.deps| && st.deps[d].target == j && j < |st.jobs|
    requires GoodFrom(st, j) && !StatusOf(st, d).FAIL?
    ensures var ready := !Live(st, d) && StatusOf(st, d).OK? && NotOk(st, j) == {d};
            Check(st, d).threads == st.threads + if ready then [Thread(j, Requested, [])] else []
  {
    var s, old_ := StatusOf(st, d), st.deps[d].recorded;
    CheckThreads(st, d);
    if s == old_ {
      assert d in NotOk(st, j) ==> !s.OK?;
    } else if !Live(st, d) {
      CounterAfterChange(st, j, d, s);
      ChangedThreads(st, j, old_, s);
    }
  }

  /** The counter becomes 0 exactly when the last dependency not recorded OK becomes OK. */
  lemma CounterAfterChange(st: State, j: nat, d: nat, s: Status)
    requires Structure(st) && Lists(st) && d < |st.deps| && st.deps[d].target == j && j < |st.jobs|
    requires GoodFrom(st, j) && s != st.deps[d].recorded
    ensures SubtractSize(st.jobs[j].unsatisfied, ValueOf(s) - ValueOf(st.deps[d].recorded)) == 0 <==>
            s.OK? && NotOk(st, j) == {d}
  {
    assert CounterOk(st, j);
    CounterMoves(st, j, d, s);
    if st.deps[d].recorded.OK? {
      assert d !in NotOk(st, j);
    } else {
      LastOneIff(st, j, d);
      assert st.jobs[j].unsatisfied != 0;
    }
  }

  lemma CheckThreads(st: State, d: nat)
    requires Structure(st) && d < |st.deps| && st.deps[d].target < |st.jobs|
    ensures Check(st, d).threads ==
              if Live(st, d) || StatusOf(st, d) == st.deps[d].recorded then st.threads
              else DependencyChanged(st, st.deps[d].target, st.deps[d].recorded, StatusOf(st, d)).threads
  {
  }

  lemma ChangedThreads(st: State, j: nat, from: Status, to: Status)
    requires Structure(st) && j < |st.jobs| && !to.FAIL?
    ensures var u := SubtractSize(st.jobs[j].unsatisfied, ValueOf(to) - ValueOf(from));
            DependencyChanged(st, j, from, to).threads == st.threads + if u == 0 then [Thread(j, Requested, [])] else []
  {
  }

  /** Registering and checking any dependency but the last requests no start for the job that is being submitted. */
  lemma RegisterNotLast(st: State, rest: seq<nat>, place: nat, j: nat)
    requires Structure(st) && Submitting(st, rest) && 2 <= |rest| && rest[0] < |st.deps|
    requires forall d :: d in rest ==> d < |st.deps| && st.deps[d].target == j
    ensures var st2 := Check(AddDependent(st, rest[0], place), rest[0]);
            && Submitting(st2, rest[1..]) && st.threads <= st2.threads
            && (forall e :: 0 <= e < |st.deps| ==> st2.deps[e].target == st.deps[e].target)
            && forall i :: |st.threads| <= i < |st2.threads| ==> st2.threads[i].job != j
  {
    var d, next := rest[0], rest[1];
    assert d in rest && next in rest && rest[1..][0] == next && d !in rest[1..];
    var st1 := AddDependent(st, d, place);
    RegisterKeeps(st, rest, place);
    AddDependentKeeps(st, d, place);
    assert Submitted(st1, j) by { assert Submitted(st, j); }
    assert next in rest[1..] && !Registered(st1, next) && DepOk(st1, d);
    CheckKeepsSubmitting(st1, rest[1..], d);
    NotTheLastStarts(st1, d, next, j);
  }

  /** As long as another dependency is recorded WAIT, a check requests no start of the job. */
  lemma NotTheLastStarts(st: State, d: nat, next: nat, j: nat)
    requires Structure(st) && Lists(st) && GoodFrom(st, 0) && RegisteredOnly(st) && Registered(st, d)
    requires next < |st.deps| && next != d && st.deps[d].target == j == st.deps[next].target && j < |st.jobs|
    requires st.deps[next].recorded.WAIT?
    ensures st.threads <= Check(st, d).threads
    ensures forall i :: |st.threads| <= i < |Check(st, d).threads| ==> Check(st, d).threads[i].job != j
  {
    if StatusOf(st, d).FAIL? {
      CheckFailStarts(st, d);
    } else {
      StartsExactlyWhenReady(st, d, j);
      assert next in NotOk(st, j) by { assert Listed(st, next); }
      assert NotOk(st, j) != {d};
    }
  }

  /** While a job is being submitted, no start is requested for it before its last dependency is checked. */
  lemma {:induction false} SubmitStartsAtLast(st: State, rest: seq<nat>, places: seq<nat>, j: nat, n: nat)
    requires Structure(st) && Submitting(st, rest) && |places| == |rest| && n < |rest|
    requires forall d :: d in rest ==> d < |st.deps| && st.deps[d].target == j
    requires forall d :: d in rest[..n] ==> d < |st.deps|
    ensures var r := RegisterAll(st, rest[..n], places[..n]);
            st.threads <= r.threads && forall i :: |st.threads| <= i < |r.threads| ==> r.threads[i].job != j
    decreases n
  {
    if n != 0 {
      assert rest[0] in rest;
      var st2 := Check(AddDependent(st, rest[0], places[0]), rest[0]);
      RegisterNotLast(st, rest, places[0], j);
      RegisterAllSplits(st, rest, places, n);
      assert forall e :: e in rest[1..] ==> e in rest;
      SubmitStartsAtLast(st2, rest[1..], places[1..], j, n - 1);
      var r := RegisterAll(st2, rest[1..][..n-1], places[1..][..n-1]);
      NewThreadsAddUp(st.threads, st2.threads, r.threads, j);
    }
  }

  lemma NewThreadsAddUp(a: seq<Thread>, b: seq<Thread>, c: seq<Thread>, j: nat)
    requires a <= b <= c
    requires forall i :: |a| <= i < |b| ==> b[i].job != j
    requires forall i :: |b| <= i < |c| ==> c[i].job != j
    ensures a <= c && forall i :: |a| <= i < |c| ==> c[i].job != j
  {
  }

  lemma RegisterAllSplits(st: State, rest: seq<nat>, places: seq<nat>, n: nat)
    requires Structure(st) && |places| == |rest| && 0 < n <= |rest|
    requires forall d :: d in rest ==> d < |st.deps|
    ensures rest[0] < |st.deps|
    ensures var st2 := Check(AddDependent(st, rest[0], places[0]), rest[0]);
            var tail := rest[1..][..n-1];
            && (forall d :: d in rest[..n] ==> d < |st.deps|)
            && (forall d :: d in tail ==> d < |st2.deps|)
            && RegisterAll(st, rest[..n], places[..n]) == RegisterAll(st2, tail, places[1..][..n-1])
  {
    assert rest[0] in rest;
    assert rest[..n][1..] == rest[1..][..n-1] && places[..n][1..] == places[1..][..n-1];
    var tail := rest[1..][..n-1];
    assert forall e :: e in tail ==> e in rest[1..];
    assert forall e :: e in rest[1..] ==> e in rest;
    assert forall e :: e in rest[..n] ==> e in rest;
  }

  lemma CheckFailStarts(st: State, d: nat)
    requires Structure(st) && RegisteredOnly(st) && Registered(st, d) && StatusOf(st, d).FAIL?
    ensures StartsOk(st, Check(st, d), st.deps[d].target + 1)
  {
    assert DepOk(st, d);
    if !Live(st, d) && StatusOf(st, d) != st.deps[d].recorded {
      ChangedStarts(st, st.deps[d].target, st.deps[d].recorded, FAIL);
    }
  }

  // ---------------------------------------------------------------- tokens

  /** The dependencies of jobs that are being run. */
  function RunningDeps(st: State): set<nat> {
    set d: nat | 0 <= d < |st.deps| && exists i :: 0 <= i < |st.threads| && st.threads[i].phase.InRun?
                                                && st.threads[i].job == st.deps[d].target
  }

  /**
    As long as the values asked fit beside uses and limits, the use of a token is exactly the sum of its live locks and
    covers the values asked by all the jobs that are being run, each counted once; if no limit is ever set below the use
    of its token, all this stays within the limit.
  */
  lemma RunningJobsStayWithinLimit(events: seq<Event>, t: nat)
    requires FitRun(INIT, events) && t < |Run(INIT, events).tokens|
    ensures var st := Run(INIT, events);
            && st.tokens[t].used == LiveSum(st, t)
            && Sum(st.deps, t, RunningDeps(st), |st.deps|) <= st.tokens[t].used
            && (LimitRun(INIT, events) ==> st.tokens[t].used <= st.tokens[t].limit)
  {
    InitInv();
    RunKeepsInv(INIT, events);
    RunKeepsFit(INIT, events);
    RunningAreLive(Run(INIT, events), t, |Run(INIT, events).deps|);
  }

  /** Such a run is within the limits all the way if and only if no event sets a limit below the use of its token. */
  lemma LimitsHoldIff(events: seq<Event>)
    requires FitRun(INIT, events)
    ensures AlwaysWithin(INIT, events) <==> LimitRun(INIT, events)
  {
    InitInv();
    RunKeepsFit(INIT, events);
  }

  lemma {:induction false} RunningAreLive(st: State, t: nat, n: nat)
    requires Structure(st) && Inv(st) && n <= |st.deps|
    ensures Sum(st.deps, t, RunningDeps(st), n) <= Sum(st.deps, t, LiveSet(st), n)
    decreases n
  {
    if n != 0 {
      RunningAreLive(st, t, n - 1);
      var d: nat := n - 1;
      if d in RunningDeps(st) && st.deps[d].origin.OnToken? {
        var i :| 0 <= i < |st.threads| && st.threads[i].phase.InRun? && st.threads[i].job == st.deps[d].target;
        assert Listed(st, d) && ThreadOk(st, i);
        assert d in st.threads[i].held;
        assert Live(st, d);
      }
    }
  }

  /** A thread that has ended, after an aborted start as after a run, holds no lock any more. */
  lemma EndedHoldsNothing(events: seq<Event>, i: nat)
    requires i < |Run(INIT, events).threads|
    ensures var x := Run(INIT, events).threads[i];
            x.phase.Ended? ==> x.held == []
  {
    InitInv();
    RunKeepsInv(INIT, events);
    assert ThreadOk(Run(INIT, events), i);
  }

  /**
    The acquisition test decides like the exact sum if and only if the 32-bit sum does not wrap around, or wraps
    to something that is still above the limit.
  */
  lemma AcquisitionIsExactIff(t: Token, v: uint32)
    requires t.used <= t.limit
    ensures (Enough(t, v) <==> v + t.used <= t.limit)
       <==> (v + t.used < UINT32 || v + t.used - UINT32 > t.limit)
  {
  }

  // ---------------------------------------------------------------- wake-ups

  /**
    What blocks a job: a registered dependency on a job that is not DONE or whose notice is pending, or on a token that
    has too little left.
  */
  predicate Blocks(st: State, d: nat)
    requires Structure(st) && d < |st.deps|
  {
    && Registered(st, d) && !st.deps[d].recorded.OK? && !Live(st, d)
    && match st.deps[d].origin
       case OnJob(k) => !st.jobs[k].state.Done? || Pending(st, k)
       case OnToken(t, v) => st.tokens[t].used + v > st.tokens[t].limit
  }

  /**
    As long as the values asked fit and no new limit lets in a dependency that waits, a submitted job that has not been
    announced as finished either has a start under way, or one of its dependencies blocks it.
  */
  lemma NoLostWakeUp(events: seq<Event>, j: nat)
    requires Quiet(INIT, events) && Submitted(Run(INIT, events), j) && j in Run(INIT, events).waiting
    ensures var st := Run(INIT, events);
            Active(st, j) || exists d :: d in st.jobs[j].dependencies && Blocks(st, d)
  {
    InitInv();
    RunKeepsCalm(INIT, events);
    CalmHasNoLostWakeUp(Run(INIT, events), j);
  }

  lemma CalmHasNoLostWakeUp(st: State, j: nat)
    requires Structure(st) && Inv(st) && Calm(st) && Submitted(st, j) && j in st.waiting
    ensures Active(st, j) || exists d :: d in st.jobs[j].dependencies && Blocks(st, d)
  {
    assert CounterOk(st, j) && ProgressOk(st, j);
    if !Active(st, j) {
      var d :| d in st.jobs[j].dependencies && !st.deps[d].recorded.OK?;
      assert st.deps[d].target == j && Awake(st, d) && DepOk(st, d);
      if st.deps[d].origin.OnToken? { ExactSums(st, d); }
    }
  }
}
