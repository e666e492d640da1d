/**
  Starts are requested exactly when a job becomes ready, through nested checks and completions: the visits of a round
  are the calls of `check` it makes, in order, each with the state it finds; one start is requested for every visit
  that finds its dependency satisfied and the only one of its job not recorded OK, and none otherwise.
*/
module SchedulerRequests {
  import opened SchedulerSpec
  import opened SchedulerCounters
  import opened SchedulerRuns
  import opened SchedulerTokens
  import opened SchedulerTheorems

  /** A call of `check` on a dependency and the state it is made in. */
  datatype Visit = Visit(before: State, dep: nat)

  predicate VisitOk(v: Visit) {
    Structure(v.before) && v.dep < |v.before.deps| && DepOk(v.before, v.dep)
  }

  function Target(v: Visit): nat
    requires VisitOk(v)
  {
    v.before.deps[v.dep].target
  }

  /** The dependency is satisfied and not locked, and it is the last one of its job that is not recorded OK. */
  predicate Ready(v: Visit) {
    VisitOk(v) && !Live(v.before, v.dep) && StatusOf(v.before, v.dep).OK? && NotOk(v.before, Target(v)) == {v.dep}
  }

  function StartOf(v: Visit): seq<Thread> { if Ready(v) then [Thread(Target(v), Requested, [])] else [] }

  /** One requested start for every ready visit, in order. */
  function Starts(vs: seq<Visit>): seq<Thread> { FlatMap(StartOf, vs) }

  function FlatMap(f: Visit -> seq<Thread>, vs: seq<Visit>): seq<Thread> {
    if vs == [] then [] else f(vs[0]) + FlatMap(f, vs[1..])
  }

  lemma {:induction false} FlatMapAppend(f: Visit -> seq<Thread>, a: seq<Visit>, b: seq<Visit>)
    ensures FlatMap(f, a + b) == FlatMap(f, a) + FlatMap(f, b)
  {
    if a == [] {
      assert a + b == b;
    } else {
      assert (a + b)[0] == a[0] && (a + b)[1..] == a[1..] + b;
      FlatMapAppend(f, a[1..], b);
    }
  }

  lemma FlatMapOne(f: Visit -> seq<Thread>, v: Visit, rest: seq<Visit>)
    ensures FlatMap(f, [v] + rest) == f(v) + FlatMap(f, rest)
  {
    assert ([v] + rest)[0] == v && ([v] + rest)[1..] == rest;
  }

  lemma FlatMapNone(f: Visit -> seq<Thread>, v: Visit, rest: seq<Visit>)
    requires f(v) == []
    ensures FlatMap(f, [v] + rest) == FlatMap(f, rest)
  {
    FlatMapOne(f, v, rest);
  }

  /** Every element comes from one visit. */
  lemma {:induction false} FlatMapFrom(f: Visit -> seq<Thread>, vs: seq<Visit>, n: nat)
    requires n < |FlatMap(f, vs)|
    ensures exists k :: 0 <= k < |vs| && FlatMap(f, vs)[n] in f(vs[k])
  {
    if n < |f(vs[0])| {
      assert FlatMap(f, vs)[n] == f(vs[0])[n];
    } else {
      FlatMapFrom(f, vs[1..], n - |f(vs[0])|);
      var k :| 0 <= k < |vs[1..]| && FlatMap(f, vs[1..])[n - |f(vs[0])|] in f(vs[1..][k]);
      assert vs[k + 1] == vs[1..][k];
    }
  }

  // ---------------------------------------------------------------- the visits of a round

  function CheckVisits(st: State, d: nat): seq<Visit>
    requires Structure(st) && d < |st.deps|
    decreases |st.jobs| - st.deps[d].target, 3, 0
  {
    assert DepOk(st, d);
    var s, old_ := StatusOf(st, d), st.deps[d].recorded;
    [Visit(st, d)] + if Live(st, d) || s == old_ then [] else ChangedVisits(st, st.deps[d].target, old_, s)
  }

  function ChangedVisits(st: State, j: nat, from: Status, to: Status): seq<Visit>
    requires Structure(st) && j < |st.jobs|
    decreases |st.jobs| - j, 2, 0
  {
    var x := st.jobs[j];
    var st1 := WithJob(st, j, x.(unsatisfied := SubtractSize(x.unsatisfied, ValueOf(to) - ValueOf(from))));
    CheckedKeeps(st, st1);
    if to.FAIL? then CompletedVisits(st1, j) else []
  }

  function CompletedVisits(st: State, j: nat): seq<Visit>
    requires Structure(st) && j < |st.jobs|
    decreases |st.jobs| - j, 1, 0
  {
    var st1 := st.(waiting := st.waiting - {j});
    CheckedKeeps(st, st1);
    assert forall d :: d in st1.jobs[j].dependents ==> d < |st1.deps| && DepOk(st1, d);
    AllVisits(st1, st1.jobs[j].dependents, j)
  }

  function AllVisits(st: State, ds: seq<nat>, floor: int): seq<Visit>
    requires Structure(st) && -1 <= floor
    requires forall d :: d in ds ==> d < |st.deps| && floor < st.deps[d].target
    decreases |st.jobs| - floor, 0, |ds|
  {
    if ds == [] then []
    else
      assert ds[0] in ds && DepOk(st, ds[0]);
      var st1 := Check(st, ds[0]);
      assert forall d :: d in ds[1..] ==> d in ds && st1.deps[d].target == st.deps[d].target;
      CheckVisits(st, ds[0]) + AllVisits(st1, ds[1..], floor)
  }

  /** Every visit finds a state that the round has led to, with the dependency's target at `low` or after. */
  ghost predicate VisitsFrom(st: State, vs: seq<Visit>, low: int)
    requires Structure(st)
  {
    forall k :: 0 <= k < |vs| ==> VisitOk(vs[k]) && Checked(st, vs[k].before) && low <= Target(vs[k])
  }

  lemma VisitsFromEarlier(st: State, st1: State, vs: seq<Visit>, low: int)
    requires Structure(st) && Structure(st1) && Checked(st, st1) && VisitsFrom(st1, vs, low)
    ensures VisitsFrom(st, vs, low)
  {
    forall k | 0 <= k < |vs| ensures VisitOk(vs[k]) && Checked(st, vs[k].before) && low <= Target(vs[k]) {
      CheckedTransitive(st, st1, vs[k].before);
    }
  }

  lemma {:induction false} CheckVisitsAre(st: State, d: nat)
    requires Structure(st) && d < |st.deps|
    ensures VisitsFrom(st, CheckVisits(st, d), st.deps[d].target)
    decreases |st.jobs| - st.deps[d].target, 3, 0
  {
    assert DepOk(st, d);
    var s, old_, j := StatusOf(st, d), st.deps[d].recorded, st.deps[d].target;
    if !Live(st, d) && s != old_ && s.FAIL? {
      ChangedVisitsAre(st, j, old_);
      FirstVisit(st, d, ChangedVisits(st, j, old_, s));
    } else {
      FirstVisit(st, d, []);
    }
  }

  lemma FirstVisit(st: State, d: nat, rest: seq<Visit>)
    requires Structure(st) && d < |st.deps| && DepOk(st, d) && VisitsFrom(st, rest, st.deps[d].target + 1)
    ensures VisitsFrom(st, [Visit(st, d)] + rest, st.deps[d].target)
  {
  }

  lemma {:induction false} ChangedVisitsAre(st: State, j: nat, from: Status)
    requires Structure(st) && j < |st.jobs|
    ensures VisitsFrom(st, ChangedVisits(st, j, from, FAIL), j + 1)
    decreases |st.jobs| - j, 2, 0
  {
    var x := st.jobs[j];
    var st1 := WithJob(st, j, x.(unsatisfied := SubtractSize(x.unsatisfied, ValueOf(FAIL) - ValueOf(from))));
    CheckedKeeps(st, st1);
    CompletedVisitsAre(st1, j);
    VisitsFromEarlier(st, st1, CompletedVisits(st1, j), j + 1);
  }

  lemma {:induction false} CompletedVisitsAre(st: State, j: nat)
    requires Structure(st) && j < |st.jobs|
    ensures VisitsFrom(st, CompletedVisits(st, j), j + 1)
    decreases |st.jobs| - j, 1, 0
  {
    var st1 := st.(waiting := st.waiting - {j});
    CheckedKeeps(st, st1);
    assert forall d :: d in st1.jobs[j].dependents ==> d < |st1.deps| && DepOk(st1, d);
    AllVisitsAre(st1, st1.jobs[j].dependents, j);
    VisitsFromEarlier(st, st1, CompletedVisits(st, j), j + 1);
  }

  lemma {:induction false} AllVisitsAre(st: State, ds: seq<nat>, floor: int)
    requires Structure(st) && -1 <= floor
    requires forall d :: d in ds ==> d < |st.deps| && floor < st.deps[d].target
    ensures VisitsFrom(st, AllVisits(st, ds, floor), floor + 1)
    decreases |st.jobs| - floor, 0, |ds|
  {
    if ds != [] {
      assert ds[0] in ds && DepOk(st, ds[0]);
      var st1 := Check(st, ds[0]);
      assert forall d :: d in ds[1..] ==> d in ds && st1.deps[d].target == st.deps[d].target;
      CheckVisitsAre(st, ds[0]);
      AllVisitsAre(st1, ds[1..], floor);
      VisitsFromEarlier(st, st1, AllVisits(st1, ds[1..], floor), floor + 1);
    }
  }

  // ---------------------------------------------------------------- exactly the ready visits request starts

  lemma {:induction false} CheckRequests(st: State, d: nat)
    requires Structure(st) && Lists(st) && d < |st.deps| && GoodFrom(st, st.deps[d].target)
    ensures Check(st, d).threads == st.threads + Starts(CheckVisits(st, d))
    decreases |st.jobs| - st.deps[d].target, 3, 0
  {
    assert DepOk(st, d);
    var s, old_, j := StatusOf(st, d), st.deps[d].recorded, st.deps[d].target;
    if Live(st, d) || s == old_ || !s.FAIL? {
      CalmCheckRequests(st, d);
    } else {
      ChangedRequests(st, d, j);
      FailedCheckRequests(st, d, j);
    }
  }

  lemma CalmCheckRequests(st: State, d: nat)
    requires Structure(st) && Lists(st) && d < |st.deps| && GoodFrom(st, st.deps[d].target) && DepOk(st, d)
    requires Live(st, d) || StatusOf(st, d) == st.deps[d].recorded || !StatusOf(st, d).FAIL?
    ensures Check(st, d).threads == st.threads + Starts(CheckVisits(st, d))
  {
    if StatusOf(st, d).FAIL? {
      CheckThreads(st, d);
    } else {
      StartsExactlyWhenReady(st, d, st.deps[d].target);
    }
    var v := Visit(st, d);
    assert CheckVisits(st, d) == [v] + [];
    FlatMapOne(StartOf, v, []);
  }

  lemma FailedCheckRequests(st: State, d: nat, j: nat)
    requires Structure(st) && d < |st.deps| && j == st.deps[d].target < |st.jobs|
    requires !Live(st, d) && StatusOf(st, d).FAIL? && !st.deps[d].recorded.FAIL?
    requires DependencyChanged(st, j, st.deps[d].recorded, FAIL).threads ==
               st.threads + Starts(ChangedVisits(st, j, st.deps[d].recorded, FAIL))
    ensures Check(st, d).threads == st.threads + Starts(CheckVisits(st, d))
  {
    FailedThreads(st, d, j);
    FailedVisits(st, d, j);
    FailedIsNotReady(st, d);
    FlatMapNone(StartOf, Visit(st, d), ChangedVisits(st, j, st.deps[d].recorded, FAIL));
  }

  lemma FailedThreads(st: State, d: nat, j: nat)
    requires Structure(st) && d < |st.deps| && j == st.deps[d].target < |st.jobs|
    requires !Live(st, d) && StatusOf(st, d).FAIL? && !st.deps[d].recorded.FAIL?
    ensures Check(st, d).threads == DependencyChanged(st, j, st.deps[d].recorded, FAIL).threads
  {
    CheckThreads(st, d);
  }

  lemma FailedVisits(st: State, d: nat, j: nat)
    requires Structure(st) && d < |st.deps| && j == st.deps[d].target < |st.jobs|
    requires !Live(st, d) && StatusOf(st, d).FAIL? && !st.deps[d].recorded.FAIL?
    ensures CheckVisits(st, d) == [Visit(st, d)] + ChangedVisits(st, j, st.deps[d].recorded, FAIL)
  {
    assert DepOk(st, d);
  }

  lemma FailedIsNotReady(st: State, d: nat)
    requires Structure(st) && d < |st.deps| && StatusOf(st, d).FAIL?
    ensures StartOf(Visit(st, d)) == []
  {
  }

  /** A failure is passed on: the target's counter moves, then the target completes. */
  lemma {:induction false} ChangedRequests(st: State, d: nat, j: nat)
    requires Structure(st) && Lists(st) && d < |st.deps| && j == st.deps[d].target < |st.jobs|
    requires GoodFrom(st, j) && StatusOf(st, d).FAIL? && !st.deps[d].recorded.FAIL?
    ensures DependencyChanged(st, j, st.deps[d].recorded, FAIL).threads ==
              st.threads + Starts(ChangedVisits(st, j, st.deps[d].recorded, FAIL))
    decreases |st.jobs| - j, 2, 0
  {
    CounterMoves(st, j, d, FAIL);
    var st1 := Failing(st, j, st.deps[d].recorded);
    ListsStay(st, st1);
    FailureCompletes(st, j, st.deps[d].recorded);
    CompletedRequests(st1, j);
  }

  /** The counter has moved for a failure. */
  function Failing(st: State, j: nat, from: Status): State
    requires j < |st.jobs|
  {
    WithJob(st, j, st.jobs[j].(unsatisfied := SubtractSize(st.jobs[j].unsatisfied, ValueOf(FAIL) - ValueOf(from))))
  }

  lemma FailureCompletes(st: State, j: nat, from: Status)
    requires Structure(st) && j < |st.jobs|
    ensures Structure(Failing(st, j, from))
    ensures DependencyChanged(st, j, from, FAIL) == JobCompleted(Failing(st, j, from), j)
    ensures ChangedVisits(st, j, from, FAIL) == CompletedVisits(Failing(st, j, from), j)
  {
    ChangedIs(st, j, from, FAIL, Failing(st, j, from));
  }

  lemma {:induction false} CompletedRequests(st: State, j: nat)
    requires Structure(st) && Lists(st) && j < |st.jobs| && GoodFrom(st, j + 1)
    ensures JobCompleted(st, j).threads == st.threads + Starts(CompletedVisits(st, j))
    decreases |st.jobs| - j, 1, 0
  {
    var st1 := st.(waiting := st.waiting - {j});
    CheckedKeeps(st, st1);
    ListsStay(st, st1);
    assert forall d :: d in st1.jobs[j].dependents ==> d < |st1.deps| && DepOk(st1, d);
    forall k | 0 <= k < |st1.jobs| && j + 1 <= k ensures CounterOk(st1, k) && ProgressOk(st1, k) {
      assert CounterOk(st, k) && ProgressOk(st, k);
      assert Active(st, k) <==> Active(st1, k);
    }
    AllRequests(st1, st1.jobs[j].dependents, j);
  }

  lemma {:induction false} AllRequests(st: State, ds: seq<nat>, floor: int)
    requires Structure(st) && Lists(st) && -1 <= floor && GoodFrom(st, floor + 1)
    requires forall d :: d in ds ==> d < |st.deps| && floor < st.deps[d].target
    ensures CheckAll(st, ds, floor).threads == st.threads + Starts(AllVisits(st, ds, floor))
    decreases |st.jobs| - floor, 0, |ds|
  {
    if ds != [] {
      assert ds[0] in ds && DepOk(st, ds[0]);
      var st1 := Check(st, ds[0]);
      FirstRequests(st, ds, floor);
      CheckRequests(st, ds[0]);
      AllRequests(st1, ds[1..], floor);
      StartsAddUp(st, st1, CheckAll(st1, ds[1..], floor), CheckVisits(st, ds[0]), AllVisits(st1, ds[1..], floor));
    }
  }

  lemma StartsAddUp(st: State, st1: State, r: State, x: seq<Visit>, y: seq<Visit>)
    requires st1.threads == st.threads + Starts(x) && r.threads == st1.threads + Starts(y)
    ensures r.threads == st.threads + Starts(x + y)
  {
    FlatMapAppend(StartOf, x, y);
  }

  /** After the first check of a list the others can be checked in the same way. */
  lemma FirstRequests(st: State, ds: seq<nat>, floor: int)
    requires Structure(st) && Lists(st) && -1 <= floor && GoodFrom(st, floor + 1)
    requires forall d :: d in ds ==> d < |st.deps| && floor < st.deps[d].target
    requires ds != [] && ds[0] in ds
    ensures var st1 := Check(st, ds[0]);
            && Lists(st1) && GoodFrom(st1, floor + 1) && GoodFrom(st, st.deps[ds[0]].target)
            && (forall d :: d in ds[1..] ==> d < |st1.deps| && floor < st1.deps[d].target)
            && CheckAll(st, ds, floor) == CheckAll(st1, ds[1..], floor)
            && AllVisits(st, ds, floor) == CheckVisits(st, ds[0]) + AllVisits(st1, ds[1..], floor)
  {
    var st1 := Check(st, ds[0]);
    assert DepOk(st, ds[0]);
    CheckIsGood(st, ds[0]);
    GoodExtends(st, st1, floor + 1, st.deps[ds[0]].target);
    ListsStay(st, st1);
    assert forall d :: d in ds[1..] ==> d in ds && st1.deps[d].target == st.deps[d].target;
  }

  lemma ChangeToOkKeepsRecords(st: State, j: nat, from: Status)
    requires Structure(st) && j < |st.jobs|
    ensures DependencyChanged(st, j, from, OK).deps == st.deps
  {
  }

  /** Right after a ready visit no dependency of its job lacks the record OK. */
  lemma ReadyMakesAllOk(v: Visit)
    requires Ready(v)
    ensures NotOk(Check(v.before, v.dep), Target(v)) == {}
  {
    var st, d := v.before, v.dep;
    var r := Check(st, d);
    assert d in NotOk(st, Target(v));
    ChangeToOkKeepsRecords(st, Target(v), st.deps[d].recorded);
    assert r.deps == st.deps[d := st.deps[d].(recorded := OK)];
    assert forall e :: e in st.jobs[Target(v)].dependencies && e != d ==> e !in NotOk(st, Target(v));
  }

  /** Everything the job depends on was recorded OK, or is satisfied and not locked. */
  predicate Satisfied(st: State, j: nat)
    requires Structure(st)
  {
    j < |st.jobs| && forall e :: e in st.jobs[j].dependencies ==>
                       e < |st.deps| && (st.deps[e].recorded.OK? || (StatusOf(st, e).OK? && !Live(st, e)))
  }

  /** A job that is ready at some point of a round was satisfied before the round. */
  lemma ReadyIsSatisfied(st: State, v: Visit)
    requires Structure(st) && VisitOk(v) && Checked(st, v.before) && Ready(v)
    ensures Satisfied(st, Target(v))
  {
    CheckedKeeps(st, v.before);
    var j := Target(v);
    assert v.before.jobs[j].dependencies == st.jobs[j].dependencies;
    forall e | e in st.jobs[j].dependencies
      ensures e < |st.deps| && (st.deps[e].recorded.OK? || (StatusOf(st, e).OK? && !Live(st, e)))
    {
      if e != v.dep { assert e !in NotOk(v.before, j); }
    }
  }

  /** So a round starts satisfied jobs only. */
  lemma RoundStartsSatisfied(st: State, vs: seq<Visit>, low: int, m: nat)
    requires Structure(st) && VisitsFrom(st, vs, low) && m < |FlatMap(StartOf, vs)|
    ensures Satisfied(st, FlatMap(StartOf, vs)[m].job)
  {
    FlatMapFrom(StartOf, vs, m);
    var k :| 0 <= k < |vs| && FlatMap(StartOf, vs)[m] in StartOf(vs[k]);
    StartIsSatisfied(st, vs[k], FlatMap(StartOf, vs)[m]);
  }

  lemma StartIsSatisfied(st: State, v: Visit, x: Thread)
    requires Structure(st) && VisitOk(v) && Checked(st, v.before) && x in StartOf(v)
    ensures Satisfied(st, x.job)
  {
    ReadyIsSatisfied(st, v);
  }

  /** Announcing a completion, however deep failures are passed on, starts satisfied jobs only. */
  lemma CompletionStartsSatisfied(st: State, j: nat, n: nat)
    requires Structure(st) && Inv(st) && j < |st.jobs| && |st.threads| <= n < |JobCompleted(st, j).threads|
    ensures Satisfied(st, JobCompleted(st, j).threads[n].job)
  {
    CompletedRequests(st, j);
    CompletedVisitsAre(st, j);
    NewThreadIsSatisfied(st, JobCompleted(st, j), CompletedVisits(st, j), j + 1, n);
  }

  lemma NewThreadIsSatisfied(st: State, r: State, vs: seq<Visit>, low: int, n: nat)
    requires Structure(st) && VisitsFrom(st, vs, low) && r.threads == st.threads + Starts(vs)
    requires |st.threads| <= n < |r.threads|
    ensures Satisfied(st, r.threads[n].job)
  {
    RoundStartsSatisfied(st, vs, low, n - |st.threads|);
  }

  // ---------------------------------------------------------------- the visits of a step

  /** One thread may have changed, and the threads in `more` have been added. */
  predicate Adds(st: State, r: State, i: nat, more: seq<Thread>) {
    && |r.threads| == |st.threads| + |more| && r.threads[|st.threads|..] == more
    && forall k :: 0 <= k < |st.threads| && k != i ==> r.threads[k] == st.threads[k]
  }

  lemma AddsThenAdds(a: State, b: State, c: State, i: nat, x: seq<Thread>, y: seq<Thread>)
    requires i < |a.threads| && Adds(a, b, i, x) && Adds(b, c, i, y)
    ensures Adds(a, c, i, x + y)
  {
    forall k | |a.threads| <= k < |b.threads| ensures c.threads[k] == b.threads[k] == x[k - |a.threads|] {
      assert b.threads[k] == b.threads[|a.threads|..][k - |a.threads|];
    }
    forall k | |b.threads| <= k < |c.threads| ensures c.threads[k] == y[k - |b.threads|] {
      assert c.threads[k] == c.threads[|b.threads|..][k - |b.threads|];
    }
    assert c.threads[|a.threads|..] == x + y;
  }

  function ReleaseVisits(st: State, i: nat): seq<Visit>
    requires Structure(st) && i < |st.threads| && st.threads[i].held != []
  {
    var d := st.threads[i].held[0];
    var st1 := Dropped(st, i);
    UpdateKeepsStructure(st, st1);
    assert DepOk(st, d);
    if Live(st1, d) then []
    else
      var t := st.deps[d].origin.token;
      var st2 := WithUsed(st1, t, Sub32(st1.tokens[t].used, st.deps[d].origin.value));
      UpdateKeepsStructure(st1, st2);
      assert forall e :: e in st2.tokens[t].dependents ==> e < |st2.deps| && DepOk(st2, e);
      AllVisits(st2, st2.tokens[t].dependents, -1)
  }

  function ReleaseAllVisits(st: State, i: nat): seq<Visit>
    requires Structure(st) && i < |st.threads|
    decreases |st.threads[i].held|
  {
    if st.threads[i].held == [] then [] else ReleaseVisits(st, i) + ReleaseAllVisits(Release(st, i), i)
  }

  function CompleteVisits(st: State, i: nat): seq<Visit>
    requires Structure(st) && i < |st.threads|
  {
    var st1 := JobCompleted(st, st.threads[i].job);
    var st2 := SetPhase(st1, i, Releasing);
    UpdateKeepsStructure(st1, st2);
    CompletedVisits(st, st.threads[i].job) + ReleaseAllVisits(st2, i)
  }

  function StartVisits(st: State, i: nat, mode: RunMode): seq<Visit>
    requires Structure(st) && i < |st.threads| && st.threads[i].phase.Requested?
  {
    var ds, j := st.jobs[st.threads[i].job].dependencies, st.threads[i].job;
    assert forall d :: d in ds ==> HoldsAreStructural(st, i, d);
    match AcquireAll(st, i, ds)
    case Abort(st1, d) => CheckVisits(st1, d)
    case All(st1) =>
      if mode.FoundDone? then
        UpdateKeepsStructure(st1, WithState(st1, j, Done));
        CompletedVisits(WithState(st1, j, Done), j)
      else []
  }

  function RegisterVisits(st: State, ds: seq<nat>, places: seq<nat>): seq<Visit>
    requires Structure(st) && |places| == |ds| && forall d :: d in ds ==> d < |st.deps|
    decreases |ds|
  {
    if ds == [] then []
    else
      assert ds[0] in ds;
      var st1 := AddDependent(st, ds[0], places[0]);
      assert forall d :: d in ds[1..] ==> d in ds;
      CheckVisits(st1, ds[0]) + RegisterVisits(Check(st1, ds[0]), ds[1..], places[1..])
  }

  function SubmitVisits(st: State, j: nat, places: seq<nat>): seq<Visit>
    requires Structure(st) && j < |st.jobs| && |places| == |st.jobs[j].dependencies|
  {
    if st.jobs[j].id in st.byId then [] else RegisterVisits(SubmitBegins(st, j), st.jobs[j].dependencies, places)
  }

  /** A job that depends on nothing starts when it is first submitted. */
  function FreeStart(st: State, j: nat): seq<Thread>
    requires j < |st.jobs|
  {
    if st.jobs[j].dependencies == [] && st.jobs[j].id !in st.byId then [Thread(j, Requested, [])] else []
  }

  /** All the calls of `check` that a critical section makes. */
  function StepVisits(st: State, e: Event): seq<Visit>
    requires Structure(st)
  {
    match e
    case SubmitJob(j, places) =>
      if j < |st.jobs| && |places| == |st.jobs[j].dependencies| then SubmitVisits(st, j, places) else []
    case EnterStart(i, mode) =>
      if i < |st.threads| && st.threads[i].phase.Requested? then StartVisits(st, i, mode) else []
    case Finish(i) =>
      if i < |st.threads| && st.threads[i].phase.Completing? then CompleteVisits(st, i) else []
    case ReleaseNext(i) =>
      if i < |st.threads| && st.threads[i].phase.Releasing? && st.threads[i].held != [] then ReleaseVisits(st, i)
      else []
    case _ => []
  }

  /** And all the starts it requests. */
  function StepStarts(st: State, e: Event): seq<Thread>
    requires Structure(st)
  {
    if FreeStarts(st, e) != [] then FreeStarts(st, e) else Starts(StepVisits(st, e))
  }

  function FreeStarts(st: State, e: Event): seq<Thread> {
    if e.SubmitJob? && e.j < |st.jobs| && |e.places| == |st.jobs[e.j].dependencies| then FreeStart(st, e.j) else []
  }

  // ---------------------------------------------------------------- and their requests

  /** A round that only adds threads. */
  lemma RoundAdds(st: State, r: State, i: nat, more: seq<Thread>)
    requires r.threads == st.threads + more
    ensures Adds(st, r, i, more)
  {
  }

  lemma ReleaseRequests(st: State, i: nat)
    requires Structure(st) && Inv(st) && i < |st.threads| && st.threads[i].held != [] && st.threads[i].phase.Releasing?
    ensures Adds(st, Release(st, i), i, Starts(ReleaseVisits(st, i)))
  {
    var d := st.threads[i].held[0];
    var st1 := Dropped(st, i);
    DropKeepsInv(st, i);
    assert DepOk(st, d);
    if !Live(st1, d) {
      var t := st.deps[d].origin.token;
      var u := Sub32(st1.tokens[t].used, st.deps[d].origin.value);
      UseKeepsInv(st1, t, u);
      var st2 := WithUsed(st1, t, u);
      assert forall e :: e in st2.tokens[t].dependents ==> e < |st2.deps| && DepOk(st2, e);
      AllRequests(st2, st2.tokens[t].dependents, -1);
      RoundAdds(st2, Release(st, i), i, Starts(ReleaseVisits(st, i)));
    }
  }

  lemma {:induction false} ReleaseAllRequests(st: State, i: nat)
    requires Structure(st) && Inv(st) && i < |st.threads| && st.threads[i].phase.Releasing?
    ensures Adds(st, ReleaseAll(st, i), i, Starts(ReleaseAllVisits(st, i)))
    decreases |st.threads[i].held|
  {
    if st.threads[i].held != [] {
      var st1 := Release(st, i);
      ReleaseRequests(st, i);
      ReleaseKeepsInv(st, i);
      ReleaseAllRequests(st1, i);
      AddsThenAdds(st, st1, ReleaseAll(st1, i), i, Starts(ReleaseVisits(st, i)), Starts(ReleaseAllVisits(st1, i)));
      FlatMapAppend(StartOf, ReleaseVisits(st, i), ReleaseAllVisits(st1, i));
    }
  }

  lemma CompleteRequests(st: State, i: nat)
    requires Structure(st) && Inv(st) && i < |st.threads|
    ensures Adds(st, CompleteSection(st, i), i, Starts(CompleteVisits(st, i)))
  {
    var j := st.threads[i].job;
    var st1 := JobCompleted(st, j);
    CompletedRequests(st, j);
    CompletedKeepsInv(st, j);
    RoundAdds(st, st1, i, Starts(CompletedVisits(st, j)));
    ReleasingKeepsInv(st1, i, Releasing);
    var st2 := SetPhase(st1, i, Releasing);
    ReleaseAllRequests(st2, i);
    AddsThenAdds(st, st2, ReleaseAll(st2, i), i, Starts(CompletedVisits(st, j)), Starts(ReleaseAllVisits(st2, i)));
    FlatMapAppend(StartOf, CompletedVisits(st, j), ReleaseAllVisits(st2, i));
  }

  lemma AbortRequests(st: State, st1: State, i: nat, d: nat)
    requires Structure(st1) && Inv(st1) && i < |st.threads| && d < |st1.deps| && SameButLocks(st, st1, i)
    ensures Adds(st, AbortStart(st1, i, d), i, Starts(CheckVisits(st1, d)))
  {
    assert DepOk(st1, d);
    CheckRequests(st1, d);
    RoundAdds(st1, Check(st1, d), i, Starts(CheckVisits(st1, d)));
    OnlyPhase(st, st1, Check(st1, d), AbortStart(st1, i, d), i, Starts(CheckVisits(st1, d)));
  }

  /** Changes of thread `i` before and after a round. */
  lemma OnlyPhase(st: State, st1: State, st2: State, r: State, i: nat, more: seq<Thread>)
    requires i < |st.threads| == |st1.threads| && |st2.threads| == |r.threads| && Adds(st1, st2, i, more)
    requires forall k :: 0 <= k < |st.threads| && k != i ==> st1.threads[k] == st.threads[k]
    requires forall k :: 0 <= k < |st2.threads| && k != i ==> r.threads[k] == st2.threads[k]
    ensures Adds(st, r, i, more)
  {
    assert st2.threads[|st1.threads|..] == r.threads[|st.threads|..];
  }

  lemma BeginRequests(st: State, st1: State, i: nat, mode: RunMode)
    requires Structure(st1) && Inv(st1) && i < |st.threads| && SameButLocks(st, st1, i)
    ensures var j := st1.threads[i].job;
            Structure(WithState(st1, j, Done)) &&
            Adds(st, BeginRun(st1, i, mode), i,
                 Starts(if mode.FoundDone? then CompletedVisits(WithState(st1, j, Done), j) else []))
  {
    var j := st1.threads[i].job;
    StateKeepsInv(st1, j, Done);
    if mode.FoundDone? {
      DoneRequests(st, st1, i, j);
    } else {
      OnlyMoves(st, BeginRun(st1, i, mode), i);
    }
  }

  lemma DoneRequests(st: State, st1: State, i: nat, j: nat)
    requires Structure(st1) && i < |st.threads| && SameButLocks(st, st1, i) && j == st1.threads[i].job
    requires Structure(WithState(st1, j, Done)) && Inv(WithState(st1, j, Done))
    ensures Adds(st, BeginRun(st1, i, FoundDone), i, Starts(CompletedVisits(WithState(st1, j, Done), j)))
  {
    var st2 := WithState(st1, j, Done);
    CompletedRequests(st2, j);
    var more := Starts(CompletedVisits(st2, j));
    RoundAdds(st2, JobCompleted(st2, j), i, more);
    OnlyPhase(st, st2, JobCompleted(st2, j), BeginRun(st1, i, FoundDone), i, more);
  }

  lemma StartRequests(st: State, i: nat, mode: RunMode)
    requires Structure(st) && Inv(st) && i < |st.threads| && st.threads[i].phase.Requested?
    ensures Adds(st, StartSection(st, i, mode), i, Starts(StartVisits(st, i, mode)))
  {
    var ds := st.jobs[st.threads[i].job].dependencies;
    assert forall d :: d in ds ==> HoldsAreStructural(st, i, d);
    AcquireKeepsInv(st, i);
    match AcquireAll(st, i, ds)
    case Abort(st1, d) => AbortRequests(st, st1, i, d);
    case All(st1) => BeginRequests(st, st1, i, mode);
  }

  lemma {:induction false} RegisterRequests(st: State, ds: seq<nat>, places: seq<nat>)
    requires Structure(st) && Submitting(st, ds) && |places| == |ds|
    requires forall d :: d in ds ==> d < |st.deps|
    ensures RegisterAll(st, ds, places).threads == st.threads + Starts(RegisterVisits(st, ds, places))
    decreases |ds|
  {
    if ds != [] {
      assert ds[0] in ds && ds[0] !in ds[1..];
      var st1 := AddDependent(st, ds[0], places[0]);
      var st2 := Check(st1, ds[0]);
      RegisterKeeps(st, ds, places[0]);
      AddDependentKeeps(st, ds[0], places[0]);
      AddDependentKeepsIds(st, ds[0], places[0]);
      assert Submitted(st1, st1.deps[ds[0]].target) && DepOk(st1, ds[0]);
      CheckKeepsSubmitting(st1, ds[1..], ds[0]);
      CheckRequests(st1, ds[0]);
      assert forall d :: d in ds[1..] ==> d in ds;
      RegisterRequests(st2, ds[1..], places[1..]);
      StartsAddUp(st, st2, RegisterAll(st2, ds[1..], places[1..]),
                  CheckVisits(st1, ds[0]), RegisterVisits(st2, ds[1..], places[1..]));
    }
  }

  lemma FreeRequests(st: State, j: nat)
    requires Structure(st) && Inv(st) && j < |st.jobs| && st.jobs[j].dependencies == []
    ensures Submit(st, j, []).threads == st.threads + FreeStart(st, j)
  {
    assert CounterOk(st, j);
  }

  lemma BoundRequests(st: State, j: nat, places: seq<nat>)
    requires Structure(st) && Inv(st) && j < |st.jobs| && |places| == |st.jobs[j].dependencies| > 0
    requires st.jobs[j].id !in st.byId
    ensures Submit(st, j, places).threads ==
              st.threads + Starts(RegisterVisits(SubmitBegins(st, j), st.jobs[j].dependencies, places))
  {
    SubmitBeginsSubmitting(st, j);
    RegisterRequests(SubmitBegins(st, j), st.jobs[j].dependencies, places);
  }

  lemma SubmitRequests(st: State, j: nat, places: seq<nat>)
    requires Structure(st) && Inv(st) && j < |st.jobs| && |places| == |st.jobs[j].dependencies|
    ensures Submit(st, j, places).threads ==
              st.threads + if FreeStart(st, j) != [] then FreeStart(st, j) else Starts(SubmitVisits(st, j, places))
  {
    if st.jobs[j].dependencies == [] {
      assert places == [] && SubmitVisits(st, j, places) == [];
      FreeRequests(st, j);
    } else if st.jobs[j].id !in st.byId {
      BoundRequests(st, j, places);
    }
  }

  /** The thread whose section an event is. */
  function Mover(e: Event): nat {
    match e
    case EnterStart(i, _) => i
    case LeaveRun(i, _) => i
    case Finish(i) => i
    case ReleaseNext(i) => i
    case _ => 0
  }

  lemma StepRequests(st: State, e: Event)
    requires Structure(st) && Inv(st)
    ensures Adds(st, Step(st, e), Mover(e), StepStarts(st, e))
  {
    match e
    case SubmitJob(j, places) => SubmitStepRequests(st, j, places);
    case EnterStart(i, mode) => EnterStepRequests(st, i, mode);
    case Finish(i) => FinishStepRequests(st, i);
    case ReleaseNext(i) => ReleaseStepRequests(st, i);
    case _ => OtherStepRequests(st, e);
  }

  lemma SubmitStepRequests(st: State, j: nat, places: seq<nat>)
    requires Structure(st) && Inv(st)
    ensures Adds(st, Step(st, SubmitJob(j, places)), 0, StepStarts(st, SubmitJob(j, places)))
  {
    if j < |st.jobs| && |places| == |st.jobs[j].dependencies| {
      SubmitRequests(st, j, places);
      RoundAdds(st, Submit(st, j, places), 0, StepStarts(st, SubmitJob(j, places)));
    }
  }

  lemma EnterStepRequests(st: State, i: nat, mode: RunMode)
    requires Structure(st) && Inv(st)
    ensures Adds(st, Step(st, EnterStart(i, mode)), i, StepStarts(st, EnterStart(i, mode)))
  {
    if i < |st.threads| && st.threads[i].phase.Requested? { StartRequests(st, i, mode); }
  }

  lemma FinishStepRequests(st: State, i: nat)
    requires Structure(st) && Inv(st)
    ensures Adds(st, Step(st, Finish(i)), i, StepStarts(st, Finish(i)))
  {
    if i < |st.threads| && st.threads[i].phase.Completing? {
      FinishIs(st, i);
      CompleteRequests(st, i);
    }
  }

  lemma FinishIs(st: State, i: nat)
    requires Structure(st) && i < |st.threads| && st.threads[i].phase.Completing?
    ensures Step(st, Finish(i)) == CompleteSection(st, i)
    ensures StepStarts(st, Finish(i)) == Starts(CompleteVisits(st, i))
  {
    assert FreeStarts(st, Finish(i)) == [] && StepVisits(st, Finish(i)) == CompleteVisits(st, i);
  }

  lemma ReleaseStepRequests(st: State, i: nat)
    requires Structure(st) && Inv(st)
    ensures Adds(st, Step(st, ReleaseNext(i)), i, StepStarts(st, ReleaseNext(i)))
  {
    if i < |st.threads| && st.threads[i].phase.Releasing? && st.threads[i].held != [] {
      ReleaseIs(st, i);
      ReleaseRequests(st, i);
    } else {
      OnlyMoves(st, Step(st, ReleaseNext(i)), i);
    }
  }

  lemma ReleaseIs(st: State, i: nat)
    requires Structure(st) && i < |st.threads| && st.threads[i].phase.Releasing? && st.threads[i].held != []
    ensures Step(st, ReleaseNext(i)) == Release(st, i)
    ensures StepStarts(st, ReleaseNext(i)) == Starts(ReleaseVisits(st, i))
  {
    assert FreeStarts(st, ReleaseNext(i)) == [] && StepVisits(st, ReleaseNext(i)) == ReleaseVisits(st, i);
  }

  lemma OnlyMoves(st: State, r: State, i: nat)
    requires |r.threads| == |st.threads|
    requires forall k :: 0 <= k < |st.threads| && k != i ==> r.threads[k] == st.threads[k]
    ensures Adds(st, r, i, [])
  {
  }

  lemma OtherStepRequests(st: State, e: Event)
    requires Structure(st) && (e.CreateJob? || e.CreateToken? || e.ChangeLimit? || e.Depend? || e.LeaveRun?)
    ensures Adds(st, Step(st, e), Mover(e), StepStarts(st, e))
  {
  }

  /**
    In every run, the threads that a critical section spawns are exactly these: one for every call of `check` that finds
    its dependency satisfied, not locked and the last one of its job not recorded OK, in the order of the calls, and one
    for a job submitted without dependencies.
  */
  lemma StartsAreRequestedExactlyWhenReady(events: seq<Event>, e: Event)
    ensures var st := Run(INIT, events);
            Adds(st, Step(st, e), Mover(e), StepStarts(st, e))
  {
    InitInv();
    RunKeepsInv(INIT, events);
    StepRequests(Run(INIT, events), e);
  }

  /** So every thread that a critical section spawns starts a job that a check found ready, or that depends on nothing. */
  lemma EveryStartedJobWasReady(events: seq<Event>, e: Event, n: nat)
    requires |Run(INIT, events).threads| <= n < |Step(Run(INIT, events), e).threads|
    ensures var st := Run(INIT, events);
            var x := Step(st, e).threads[n];
            FreeStarts(st, e) == [x] || exists v :: v in StepVisits(st, e) && StartOf(v) == [x]
  {
    InitInv();
    RunKeepsInv(INIT, events);
    StepRequests(Run(INIT, events), e);
    NewThreadComesFrom(Run(INIT, events), Step(Run(INIT, events), e), e, n);
  }

  lemma NewThreadComesFrom(st: State, r: State, e: Event, n: nat)
    requires Structure(st) && |st.threads| <= n < |r.threads| && Adds(st, r, Mover(e), StepStarts(st, e))
    ensures FreeStarts(st, e) == [r.threads[n]] || exists v :: v in StepVisits(st, e) && StartOf(v) == [r.threads[n]]
  {
    assert r.threads[n] == r.threads[|st.threads|..][n - |st.threads|];
    StartComesFrom(st, e, n - |st.threads|);
  }

  lemma StartComesFrom(st: State, e: Event, m: nat)
    requires Structure(st) && m < |StepStarts(st, e)|
    ensures FreeStarts(st, e) == [StepStarts(st, e)[m]]
         || exists v :: v in StepVisits(st, e) && StartOf(v) == [StepStarts(st, e)[m]]
  {
    var vs := StepVisits(st, e);
    if FreeStarts(st, e) == [] {
      FlatMapFrom(StartOf, vs, m);
      var k :| 0 <= k < |vs| && FlatMap(StartOf, vs)[m] in StartOf(vs[k]);
      InStartOf(vs[k], FlatMap(StartOf, vs)[m]);
    }
  }

  lemma InStartOf(v: Visit, x: Thread)
    requires x in StartOf(v)
    ensures StartOf(v) == [x]
  {
  }
}
