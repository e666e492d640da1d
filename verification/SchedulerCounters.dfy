/**
  Counter agreement and progress: `_unsatisfied` always is the number of dependencies not recorded OK, through
  nested checks and completions, and an unfinished job with none of them has a start under way.
*/
module SchedulerCounters {
  import opened SchedulerSpec

  /** How many of the listed dependencies are not recorded OK. */
  function Open(deps: seq<Dependency>, ds: seq<nat>): (n: nat)
    requires forall d :: d in ds ==> d < |deps|
    ensures n <= |ds|
    ensures n == 0 <==> forall d :: d in ds ==> deps[d].recorded.OK?
  {
    if ds == [] then 0
    else
      assert ds[0] in ds && forall d :: d in ds <==> d == ds[0] || d in ds[1..];
      (if deps[ds[0]].recorded.OK? then 0 else 1) + Open(deps, ds[1..])
  }

  predicate Distinct(ds: seq<nat>) { forall a, b :: 0 <= a < b < |ds| ==> ds[a] != ds[b] }

  /** A start of the job is requested, running, or about to announce completion. */
  predicate Active(st: State, k: nat) {
    exists i :: 0 <= i < |st.threads| && st.threads[i].job == k
             && (st.threads[i].phase.Requested? || st.threads[i].phase.InRun? || st.threads[i].phase.Completing?)
  }

  predicate Listed(st: State, d: nat) {
    d < |st.deps| && st.deps[d].target < |st.jobs| && d in st.jobs[st.deps[d].target].dependencies
  }

  /** The dependency objects of a job are distinct, and each one is listed by its target. */
  ghost predicate Lists(st: State)
    requires Structure(st)
  {
    && |st.deps| < SIZE
    && (forall j :: 0 <= j < |st.jobs| ==> Distinct(st.jobs[j].dependencies))
    && (forall j :: 0 <= j < |st.jobs| ==> |st.jobs[j].dependencies| <= |st.deps|)
    && (forall d :: 0 <= d < |st.deps| ==> Listed(st, d))
  }

  predicate CounterOk(st: State, k: nat)
    requires Structure(st) && k < |st.jobs|
  {
    st.jobs[k].unsatisfied == Open(st.deps, st.jobs[k].dependencies)
  }

  predicate ProgressOk(st: State, k: nat)
    requires k < |st.jobs|
  {
    k in st.waiting && st.jobs[k].unsatisfied == 0 ==> Active(st, k)
  }

  ghost predicate GoodFrom(st: State, low: int)
    requires Structure(st)
  {
    forall k :: 0 <= k < |st.jobs| && low <= k ==> CounterOk(st, k) && ProgressOk(st, k)
  }

  /** Jobs before `low` and their dependencies are as they were. */
  ghost predicate SameBelow(st: State, r: State, low: int) {
    && |r.jobs| == |st.jobs| && |r.deps| == |st.deps|
    && (forall k :: 0 <= k < |st.jobs| && k < low ==> r.jobs[k] == st.jobs[k])
    && (forall d :: 0 <= d < |st.deps| && st.deps[d].target < low ==> r.deps[d] == st.deps[d])
  }

  lemma {:induction false} OpenAgrees(a: seq<Dependency>, b: seq<Dependency>, ds: seq<nat>)
    requires |a| <= |b| && forall d :: d in ds ==> d < |a|
    requires forall d :: d in ds ==> a[d].recorded == b[d].recorded
    ensures Open(a, ds) == Open(b, ds)
  {
    if ds != [] {
      assert forall d :: d in ds[1..] ==> d in ds;
      assert ds[0] in ds;
      OpenAgrees(a, b, ds[1..]);
    }
  }

  /** Recording a new status for one dependency moves the count by the difference of their values. */
  lemma {:induction false} OpenMoves(a: seq<Dependency>, ds: seq<nat>, d: nat, s: Status)
    requires Distinct(ds) && d < |a| && forall e :: e in ds ==> e < |a|
    ensures var b := a[d := a[d].(recorded := s)];
            Open(b, ds) == if d in ds then Open(a, ds) - (ValueOf(s) - ValueOf(a[d].recorded)) else Open(a, ds)
  {
    var b := a[d := a[d].(recorded := s)];
    if ds == [] {
    } else if ds[0] == d {
      assert forall e :: e in ds[1..] ==> e in ds && e != d;
      OpenAgrees(a, b, ds[1..]);
    } else {
      assert ds[0] in ds;
      assert forall e :: e in ds[1..] ==> e in ds;
      assert d in ds <==> d in ds[1..];
      OpenMoves(a, ds[1..], d, s);
    }
  }

  lemma CountersOutside(st: State, r: State, k: nat)
    requires Structure(st) && Structure(r) && k < |st.jobs| && |st.jobs| == |r.jobs| && |st.deps| <= |r.deps|
    requires r.jobs[k] == st.jobs[k]
    requires forall d :: 0 <= d < |st.deps| && st.deps[d].target == k ==> r.deps[d].recorded == st.deps[d].recorded
    ensures CounterOk(r, k) <==> CounterOk(st, k)
  {
    OpenAgrees(st.deps, r.deps, st.jobs[k].dependencies);
  }

  lemma ActiveStays(st: State, r: State, k: nat)
    requires Structure(st) && Checked(st, r) && Active(st, k)
    ensures Active(r, k)
  {
    var i :| 0 <= i < |st.threads| && st.threads[i].job == k
             && (st.threads[i].phase.Requested? || st.threads[i].phase.InRun? || st.threads[i].phase.Completing?);
    assert r.threads[i] == st.threads[i];
  }

  lemma ListsStay(st: State, r: State)
    requires Structure(st) && Lists(st) && Checked(st, r)
    ensures Structure(r) && Lists(r)
  {
    CheckedKeepsStructure(st, r);
    assert forall j :: 0 <= j < |st.jobs| ==> r.jobs[j].dependencies == st.jobs[j].dependencies;
    forall d | 0 <= d < |r.deps| ensures Listed(r, d) { assert Listed(st, d); }
  }

  /** A round of checks that leaves everything before `mid` alone keeps what was good before `mid`. */
  lemma GoodExtends(st: State, r: State, low: int, mid: int)
    requires Structure(st) && Checked(st, r) && Structure(r) && low <= mid
    requires GoodFrom(st, low) && GoodFrom(r, mid) && SameBelow(st, r, mid)
    ensures GoodFrom(r, low)
  {
    forall k | 0 <= k < |r.jobs| && low <= k < mid ensures CounterOk(r, k) && ProgressOk(r, k) {
      assert CounterOk(st, k) && ProgressOk(st, k);
      CountersOutside(st, r, k);
      if Active(st, k) { ActiveStays(st, r, k); }
    }
  }

  // ---------------------------------------------------------------- the nested calls

  /** Once the counter has moved, recording the status makes the target's counter right again. */
  lemma RecordIsGood(st: State, d: nat, s: Status)
    requires Structure(st) && Lists(st) && d < |st.deps|
    requires GoodFrom(st, st.deps[d].target + 1) && Structure(Record(st, d, s))
    requires st.deps[d].target < |st.jobs| && ProgressOk(st, st.deps[d].target)
    requires st.jobs[st.deps[d].target].unsatisfied ==
               Open(st.deps, st.jobs[st.deps[d].target].dependencies) - (ValueOf(s) - ValueOf(st.deps[d].recorded))
    ensures GoodFrom(Record(st, d, s), st.deps[d].target)
  {
    var r, j := Record(st, d, s), st.deps[d].target;
    assert Listed(st, d);
    OpenMoves(st.deps, st.jobs[j].dependencies, d, s);
    assert r.jobs == st.jobs && r.threads == st.threads && r.waiting == st.waiting;
    forall k | 0 <= k < |r.jobs| && j <= k ensures CounterOk(r, k) && ProgressOk(r, k) {
      SameThreadsActive(st, r, k);
      if k > j {
        assert CounterOk(st, k) && ProgressOk(st, k);
        CountersOutside(st, r, k);
      }
    }
  }

  lemma SameThreadsActive(st: State, r: State, k: nat)
    requires r.threads == st.threads
    ensures Active(r, k) <==> Active(st, k)
  {
  }

  lemma {:induction false} CheckIsGood(st: State, d: nat)
    requires Structure(st) && Lists(st) && d < |st.deps| && GoodFrom(st, st.deps[d].target)
    ensures GoodFrom(Check(st, d), st.deps[d].target)
    ensures SameBelow(st, Check(st, d), st.deps[d].target)
    ensures Live(st, d) || Check(st, d).deps[d].recorded == StatusOf(st, d)
    decreases |st.jobs| - st.deps[d].target, 3, 0
  {
    assert DepOk(st, d);
    var s, old_, j := StatusOf(st, d), st.deps[d].recorded, st.deps[d].target;
    if !Live(st, d) && s != old_ {
      ChangedIsGood(st, j, d, s);
      var r1 := DependencyChanged(st, j, old_, s);
      CheckEnds(st, r1, d, s);
    }
  }

  lemma CheckEnds(st: State, r1: State, d: nat, s: Status)
    requires Structure(st) && Lists(st) && d < |st.deps| && st.deps[d].target < |st.jobs|
    requires Structure(r1) && Checked(st, r1) && s == StatusOf(st, d) && !Live(st, d)
    requires ChangedWell(st, r1, st.deps[d].target, d, s)
    ensures var r := Record(r1, d, s);
            && Structure(r) && GoodFrom(r, st.deps[d].target) && SameBelow(st, r, st.deps[d].target)
  {
    CheckedKeepsStructure(st, Record(r1, d, s));
    ListsStay(st, r1);
    OpenAgrees(st.deps, r1.deps, st.jobs[st.deps[d].target].dependencies);
    RecordIsGood(r1, d, s);
  }

  lemma SubtractExactly(u: size_t, delta: int)
    requires 0 <= u - delta < SIZE
    ensures SubtractSize(u, delta) == u - delta
  {
  }

  /** Moving the counter of a job neither wraps around nor disturbs other jobs. */
  lemma CounterMoves(st: State, j: nat, d: nat, s: Status)
    requires Structure(st) && Lists(st) && d < |st.deps| && st.deps[d].target == j && j < |st.jobs|
    requires GoodFrom(st, j) && s != st.deps[d].recorded
    ensures var x := st.jobs[j];
            var delta := ValueOf(s) - ValueOf(st.deps[d].recorded);
            var st1 := WithJob(st, j, x.(unsatisfied := SubtractSize(x.unsatisfied, delta)));
            && 0 <= x.unsatisfied - delta < SIZE
            && x.unsatisfied == Open(st.deps, x.dependencies)
            && st1.jobs[j].unsatisfied == x.unsatisfied - delta
            && Structure(st1) && Checked(st, st1) && GoodFrom(st1, j + 1)
  {
    assert CounterOk(st, j);
    CounterFits(st, j, d, s);
    var delta := ValueOf(s) - ValueOf(st.deps[d].recorded);
    SubtractExactly(st.jobs[j].unsatisfied, delta);
    OthersStayGood(st, j, st.jobs[j].unsatisfied - delta);
  }

  lemma CounterFits(st: State, j: nat, d: nat, s: Status)
    requires Structure(st) && Lists(st) && d < |st.deps| && st.deps[d].target == j && j < |st.jobs| && CounterOk(st, j)
    ensures st.jobs[j].unsatisfied == Open(st.deps, st.jobs[j].dependencies)
    ensures 0 <= st.jobs[j].unsatisfied - (ValueOf(s) - ValueOf(st.deps[d].recorded)) < SIZE
  {
    assert Listed(st, d);
    OpenMoves(st.deps, st.jobs[j].dependencies, d, s);
  }

  lemma OthersStayGood(st: State, j: nat, u: size_t)
    requires Structure(st) && j < |st.jobs| && GoodFrom(st, j)
    ensures var st1 := WithJob(st, j, st.jobs[j].(unsatisfied := u));
            Structure(st1) && Checked(st, st1) && GoodFrom(st1, j + 1)
  {
    var st1 := WithJob(st, j, st.jobs[j].(unsatisfied := u));
    CheckedKeeps(st, st1);
    forall k | 0 <= k < |st1.jobs| && j + 1 <= k ensures CounterOk(st1, k) && ProgressOk(st1, k) {
      assert CounterOk(st, k) && ProgressOk(st, k);
      CountersOutside(st, st1, k);
      SameThreadsActive(st, st1, k);
    }
  }

  /** The counter of the target is right for the status about to be recorded. */
  ghost predicate ChangedWell(st: State, r: State, j: nat, d: nat, s: Status)
    requires Structure(st) && Structure(r) && j < |st.jobs| && d < |st.deps| && Checked(st, r)
  {
    && GoodFrom(r, j + 1) && SameBelow(st, r, j)
    && (forall e :: 0 <= e < |st.deps| && st.deps[e].target == j ==> r.deps[e] == st.deps[e])
    && r.jobs[j].unsatisfied ==
         Open(st.deps, st.jobs[j].dependencies) - (ValueOf(s) - ValueOf(st.deps[d].recorded))
    && ProgressOk(r, j)
  }

  lemma ChangedIs(st: State, j: nat, from: Status, to: Status, st1: State)
    requires Structure(st) && j < |st.jobs|
    requires st1 == WithJob(st, j, st.jobs[j].(unsatisfied :=
                              SubtractSize(st.jobs[j].unsatisfied, ValueOf(to) - ValueOf(from))))
    ensures Structure(st1)
    ensures DependencyChanged(st, j, from, to) == if to.FAIL? then JobCompleted(st1, j)
                                                  else if st1.jobs[j].unsatisfied == 0 then Start(st1, j) else st1
  {
    CheckedKeeps(st, st1);
  }

  lemma {:induction false} ChangedIsGood(st: State, j: nat, d: nat, s: Status)
    requires Structure(st) && Lists(st) && d < |st.deps| && st.deps[d].target == j && j < |st.jobs|
    requires GoodFrom(st, j) && s != st.deps[d].recorded
    ensures ChangedWell(st, DependencyChanged(st, j, st.deps[d].recorded, s), j, d, s)
    decreases |st.jobs| - j, 2, 0
  {
    CounterMoves(st, j, d, s);
    var x := st.jobs[j];
    var delta := ValueOf(s) - ValueOf(st.deps[d].recorded);
    var st1 := WithJob(st, j, x.(unsatisfied := SubtractSize(x.unsatisfied, delta)));
    ListsStay(st, st1);
    ChangedIs(st, j, st.deps[d].recorded, s, st1);
    var r := DependencyChanged(st, j, st.deps[d].recorded, s);
    AfterChange(st1, r, j, s.FAIL?);
    ChangedEnds(st, st1, r, j, d, s);
  }

  /** What follows the update of a counter: completion, a start request, or nothing. */
  lemma {:induction false} AfterChange(st1: State, r: State, j: nat, failed: bool)
    requires Structure(st1) && Lists(st1) && j < |st1.jobs| && GoodFrom(st1, j + 1)
    requires r == if failed then JobCompleted(st1, j) else if st1.jobs[j].unsatisfied == 0 then Start(st1, j) else st1
    ensures Structure(r) && GoodFrom(r, j + 1) && SameBelow(st1, r, j + 1)
    ensures j !in r.waiting || Active(r, j) || r.jobs[j].unsatisfied != 0
    decreases |st1.jobs| - j, 1, 1
  {
    if failed {
      CompletedIsGood(st1, j);
    } else if st1.jobs[j].unsatisfied == 0 {
      StartIsGood(st1, j);
    }
  }

  lemma ChangedEnds(st: State, st1: State, r: State, j: nat, d: nat, s: Status)
    requires Structure(st) && Structure(st1) && Structure(r) && j < |st.jobs| && d < |st.deps|
    requires Checked(st, r) && |st1.jobs| == |st.jobs| && st1.deps == st.deps
    requires forall k :: 0 <= k < |st.jobs| && k != j ==> st1.jobs[k] == st.jobs[k]
    requires st1.jobs[j].unsatisfied ==
               Open(st.deps, st.jobs[j].dependencies) - (ValueOf(s) - ValueOf(st.deps[d].recorded))
    requires GoodFrom(r, j + 1) && SameBelow(st1, r, j + 1)
    requires j !in r.waiting || Active(r, j) || r.jobs[j].unsatisfied != 0
    ensures ChangedWell(st, r, j, d, s)
  {
  }

  lemma StartIsGood(st: State, j: nat)
    requires Structure(st) && j < |st.jobs| && GoodFrom(st, j + 1)
    ensures Structure(Start(st, j)) && GoodFrom(Start(st, j), j + 1) && Active(Start(st, j), j)
  {
    var r := Start(st, j);
    CheckedKeeps(st, r);
    assert r.threads[|st.threads|] == Thread(j, Requested, []);
    forall k | 0 <= k < |r.jobs| && j + 1 <= k ensures CounterOk(r, k) && ProgressOk(r, k) {
      assert CounterOk(st, k) && ProgressOk(st, k);
      if Active(st, k) { ActiveStays(st, r, k); }
    }
  }

  lemma {:induction false} CompletedIsGood(st: State, j: nat)
    requires Structure(st) && Lists(st) && j < |st.jobs| && GoodFrom(st, j + 1)
    ensures var r := JobCompleted(st, j);
            GoodFrom(r, j + 1) && SameBelow(st, r, j + 1) && j !in r.waiting
    decreases |st.jobs| - j, 1, 0
  {
    var st1 := st.(waiting := st.waiting - {j});
    CheckedKeeps(st, st1);
    ListsStay(st, st1);
    assert forall d :: d in st1.jobs[j].dependents ==> d < |st1.deps| && DepOk(st1, d);
    forall k | 0 <= k < |st1.jobs| && j + 1 <= k ensures CounterOk(st1, k) && ProgressOk(st1, k) {
      assert CounterOk(st, k) && ProgressOk(st, k);
      assert Active(st, k) <==> Active(st1, k);
    }
    CheckAllIsGood(st1, st1.jobs[j].dependents, j);
  }

  lemma {:induction false} CheckAllIsGood(st: State, ds: seq<nat>, floor: int)
    requires Structure(st) && Lists(st) && -1 <= floor && GoodFrom(st, floor + 1)
    requires forall d :: d in ds ==> d < |st.deps| && floor < st.deps[d].target
    ensures var r := CheckAll(st, ds, floor);
            GoodFrom(r, floor + 1) && SameBelow(st, r, floor + 1)
    decreases |st.jobs| - floor, 0, |ds|
  {
    if ds != [] {
      assert ds[0] in ds && DepOk(st, ds[0]);
      var t := st.deps[ds[0]].target;
      var st1 := Check(st, ds[0]);
      CheckIsGood(st, ds[0]);
      GoodExtends(st, st1, floor + 1, t);
      ListsStay(st, st1);
      assert forall d :: d in ds[1..] ==> d in ds && st1.deps[d].target == st.deps[d].target;
      CheckAllIsGood(st1, ds[1..], floor);
    }
  }
}
