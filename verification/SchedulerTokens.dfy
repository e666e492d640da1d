/**
  Token accounting: the use of a token is the sum of the values of its live locks, modulo the width of the
  counter in every run, and exactly (and below the limit) in runs whose sums fit and whose limits are fixed.
*/
module SchedulerTokens {
  import opened SchedulerSpec

  function Share(x: Dependency, t: nat): nat {
    if x.origin.OnToken? && x.origin.token == t then x.origin.value else 0
  }

  /** The values that the first `n` dependencies ask of token `t`, counting those in `chosen`. */
  function Sum(deps: seq<Dependency>, t: nat, chosen: set<nat>, n: nat): nat
    requires n <= |deps|
  {
    if n == 0 then 0
    else Sum(deps, t, chosen, n - 1) + if n - 1 in chosen then Share(deps[n - 1], t) else 0
  }

  function LiveSet(st: State): set<nat> { set d: nat | 0 <= d < |st.deps| && Live(st, d) }

  function LiveSum(st: State, t: nat): nat { Sum(st.deps, t, LiveSet(st), |st.deps|) }

  ghost predicate Accounted(st: State) {
    forall t :: 0 <= t < |st.tokens| ==> st.tokens[t].used == LiveSum(st, t) % UINT32
  }

  lemma {:induction false} SumAgrees(a: seq<Dependency>, b: seq<Dependency>, t: nat, x: set<nat>, y: set<nat>, n: nat)
    requires n <= |a| && n <= |b|
    requires forall d :: 0 <= d < n ==> a[d].origin == b[d].origin && (d in x <==> d in y)
    ensures Sum(a, t, x, n) == Sum(b, t, y, n)
  {
    if n != 0 { SumAgrees(a, b, t, x, y, n - 1); }
  }

  lemma {:induction false} SumAdds(deps: seq<Dependency>, t: nat, x: set<nat>, d: nat, n: nat)
    requires n <= |deps| && d !in x && d < |deps|
    ensures Sum(deps, t, x + {d}, n) == Sum(deps, t, x, n) + if d < n then Share(deps[d], t) else 0
  {
    if n != 0 {
      SumAdds(deps, t, x, d, n - 1);
    }
  }

  lemma {:induction false} SumMonotone(deps: seq<Dependency>, t: nat, x: set<nat>, y: set<nat>, n: nat)
    requires n <= |deps| && x <= y
    ensures Sum(deps, t, x, n) <= Sum(deps, t, y, n)
  {
    if n != 0 { SumMonotone(deps, t, x, y, n - 1); }
  }

  /** Two states with the same origins and the same live locks have the same sums. */
  lemma SameSums(st: State, r: State)
    requires |st.deps| == |r.deps| && forall d :: 0 <= d < |st.deps| ==> st.deps[d].origin == r.deps[d].origin
    requires forall d: nat :: Live(r, d) <==> Live(st, d)
    ensures forall t: nat :: LiveSum(r, t) == LiveSum(st, t)
  {
    forall t: nat ensures LiveSum(r, t) == LiveSum(st, t) {
      SumAgrees(st.deps, r.deps, t, LiveSet(st), LiveSet(r), |st.deps|);
    }
  }

  lemma ChecksKeepSums(st: State, r: State)
    requires Structure(st) && Checked(st, r)
    ensures forall t: nat :: LiveSum(r, t) == LiveSum(st, t)
    ensures Accounted(st) ==> Accounted(r)
  {
    CheckedKeeps(st, r);
    SameSums(st, r);
  }

  lemma HeldSame(st: State, r: State)
    requires |st.threads| == |r.threads|
    requires forall i :: 0 <= i < |st.threads| ==> r.threads[i].held == st.threads[i].held
    ensures forall d: nat :: Live(r, d) <==> Live(st, d)
  {
    forall d: nat ensures Live(r, d) <==> Live(st, d) {
      if i :| 0 <= i < |st.threads| && d in st.threads[i].held { assert d in r.threads[i].held; }
      if i :| 0 <= i < |r.threads| && d in r.threads[i].held { assert d in st.threads[i].held; }
    }
  }

  // ---------------------------------------------------------------- taking and giving up a lock

  lemma HoldMakesLive(st: State, i: nat, d: nat)
    requires i < |st.threads|
    ensures forall e: nat :: Live(Hold(st, i, d), e) <==> Live(st, e) || e == d
  {
    var r := Hold(st, i, d);
    assert r.threads[i].held == st.threads[i].held + [d];
    forall e: nat ensures Live(r, e) <==> Live(st, e) || e == d {
      if k :| 0 <= k < |st.threads| && e in st.threads[k].held { assert e in r.threads[k].held; }
      if e == d { assert d in r.threads[i].held; }
      if k :| 0 <= k < |r.threads| && e in r.threads[k].held { assert e == d || e in st.threads[k].held; }
    }
  }

  lemma LiveIsToken(st: State, d: nat)
    requires Structure(st) && Live(st, d)
    ensures d < |st.deps| && st.deps[d].origin.OnToken?
    ensures exists k :: 0 <= k < |st.threads| && d in st.threads[k].held && st.threads[k].job == st.deps[d].target
  {
    var k :| 0 <= k < |st.threads| && d in st.threads[k].held;
    var n :| 0 <= n < |st.threads[k].held| && st.threads[k].held[n] == d;
  }

  lemma LiveSumAdds(st: State, r: State, d: nat, t: nat)
    requires d < |st.deps| && r.deps == st.deps && forall e: nat :: Live(r, e) <==> Live(st, e) || e == d
    ensures LiveSum(r, t) == LiveSum(st, t) + if Live(st, d) then 0 else Share(st.deps[d], t)
  {
    if Live(st, d) {
      assert LiveSet(r) == LiveSet(st);
    } else {
      assert LiveSet(r) == LiveSet(st) + {d};
      SumAdds(st.deps, t, LiveSet(st), d, |st.deps|);
    }
  }

  lemma LockAccounts(st: State, i: nat, d: nat)
    requires Structure(st) && i < |st.threads| && d < |st.deps| && Lock(st, i, d).Taken?
    requires Accounted(st)
    ensures Accounted(Lock(st, i, d).st)
    ensures forall t: nat :: LiveSum(Lock(st, i, d).st, t) ==
              LiveSum(st, t) + if Live(st, d) then 0 else Share(st.deps[d], t)
  {
    var r := Lock(st, i, d).st;
    assert DepOk(st, d);
    if st.deps[d].origin.OnToken? {
      HoldMakesLive(st, i, d);
      HeldSame(Hold(st, i, d), r);
      LockSums(st, r, d);
    } else if Live(st, d) {
      LiveIsToken(st, d);
    }
  }

  lemma LockSums(st: State, r: State, d: nat)
    requires d < |st.deps| && r.deps == st.deps && forall e: nat :: Live(r, e) <==> Live(st, e) || e == d
    ensures forall t: nat :: LiveSum(r, t) == LiveSum(st, t) + if Live(st, d) then 0 else Share(st.deps[d], t)
  {
    forall t: nat ensures LiveSum(r, t) == LiveSum(st, t) + if Live(st, d) then 0 else Share(st.deps[d], t) {
      LiveSumAdds(st, r, d, t);
    }
  }

  lemma {:induction false} AcquireAccounts(st: State, i: nat, ds: seq<nat>)
    requires Structure(st) && forall d :: d in ds ==> HoldsAreStructural(st, i, d)
    requires Accounted(st)
    ensures Accounted(AcquireAll(st, i, ds).st)
    decreases |ds|
  {
    if ds != [] {
      assert ds[0] in ds && HoldsAreStructural(st, i, ds[0]);
      if Lock(st, i, ds[0]).Taken? {
        LockKeepsStructure(st, i, ds[0]);
        LockAccounts(st, i, ds[0]);
        assert forall d :: d in ds[1..] ==> d in ds;
        assert forall d :: HoldsAreStructural(st, i, d) ==> HoldsAreStructural(Lock(st, i, ds[0]).st, i, d);
        AcquireAccounts(Lock(st, i, ds[0]).st, i, ds[1..]);
      }
    }
  }

  /** The state after thread `i` dropped its first lock, before the tokens are given back. */
  function Dropped(st: State, i: nat): State
    requires i < |st.threads| && st.threads[i].held != []
  {
    WithThread(st, i, st.threads[i].(held := st.threads[i].held[1..]))
  }

  lemma DropEndsOnlyIts(st: State, i: nat)
    requires i < |st.threads| && st.threads[i].held != []
    ensures forall e: nat :: Live(Dropped(st, i), e) ==> Live(st, e)
    ensures forall e: nat :: Live(st, e) && e != st.threads[i].held[0] ==> Live(Dropped(st, i), e)
    ensures Live(st, st.threads[i].held[0])
  {
    var r := Dropped(st, i);
    forall e: nat ensures Live(r, e) ==> Live(st, e) {
      if k :| 0 <= k < |r.threads| && e in r.threads[k].held { assert e in st.threads[k].held; }
    }
    forall e: nat | Live(st, e) && e != st.threads[i].held[0] ensures Live(r, e) {
      var k :| 0 <= k < |st.threads| && e in st.threads[k].held;
      assert e in r.threads[k].held;
    }
    assert st.threads[i].held[0] in st.threads[i].held;
  }

  /** The last holder's release takes exactly the value of the lock out of the account. */
  lemma ReleaseAccounts(st: State, i: nat)
    requires Structure(st) && i < |st.threads| && st.threads[i].held != [] && Accounted(st)
    ensures Accounted(Release(st, i))
    ensures var d := st.threads[i].held[0];
            d < |st.deps| &&
            forall t: nat :: LiveSum(st, t) ==
              LiveSum(Release(st, i), t) + if Live(Dropped(st, i), d) then 0 else Share(st.deps[d], t)
  {
    var d := st.threads[i].held[0];
    var st1 := Dropped(st, i);
    UpdateKeepsStructure(st, st1);
    DropEndsOnlyIts(st, i);
    assert DepOk(st, d);
    if Live(st1, d) {
      assert forall e: nat :: Live(st1, e) <==> Live(st, e);
      SameSums(st, st1);
    } else {
      forall t: nat ensures LiveSum(st, t) == LiveSum(st1, t) + Share(st.deps[d], t) {
        assert LiveSet(st) == LiveSet(st1) + {d};
        SumAdds(st.deps, t, LiveSet(st1), d, |st.deps|);
      }
      var u := st.deps[d].origin.token;
      var st2 := WithUsed(st1, u, Sub32(st1.tokens[u].used, st.deps[d].origin.value));
      UpdateKeepsStructure(st1, st2);
      HeldSame(st1, st2);
      SameSums(st1, st2);
      SubtractMod(st.tokens[u].used, LiveSum(st1, u), st.deps[d].origin.value);
      assert Accounted(st2);
      assert forall e :: e in st2.tokens[u].dependents ==> e < |st2.deps| && DepOk(st2, e);
      ChecksKeepSums(st2, CheckAll(st2, st2.tokens[u].dependents, -1));
    }
  }

  lemma SubtractMod(used: uint32, rest: nat, v: uint32)
    requires used == (rest + v) % UINT32
    ensures Sub32(used, v) == rest % UINT32
  {
    var q := (rest + v) / UINT32;
    assert rest - (used - v) == q * UINT32;
  }

  lemma {:induction false} ReleaseAllAccounts(st: State, i: nat)
    requires Structure(st) && i < |st.threads| && Accounted(st)
    ensures Accounted(ReleaseAll(st, i))
    decreases |st.threads[i].held|
  {
    if st.threads[i].held != [] {
      ReleaseAccounts(st, i);
      ReleaseAllAccounts(Release(st, i), i);
    }
  }

  // ---------------------------------------------------------------- steps and runs

  lemma PhaseAccounts(st: State, j: nat, s: JobState, i: nat, p: Phase)
    requires j < |st.jobs| && i < |st.threads| && Accounted(st)
    ensures Accounted(SetPhase(WithState(st, j, s), i, p)) && Accounted(SetPhase(st, i, p)) && Accounted(WithState(st, j, s))
  {
    HeldSame(st, SetPhase(st, i, p));
    SameSums(st, SetPhase(st, i, p));
    HeldSame(st, SetPhase(WithState(st, j, s), i, p));
    SameSums(st, SetPhase(WithState(st, j, s), i, p));
    HeldSame(st, WithState(st, j, s));
    SameSums(st, WithState(st, j, s));
  }

  lemma BeginRunAccounts(st: State, i: nat, mode: RunMode)
    requires Structure(st) && i < |st.threads| && Accounted(st)
    ensures Accounted(BeginRun(st, i, mode))
  {
    var j := st.threads[i].job;
    match mode
    case Launched => PhaseAccounts(st, j, Running, i, InRun);
    case Silent => PhaseAccounts(st, j, Running, i, InRun);
    case Watched(ok) => PhaseAccounts(st, j, if ok then Done else Error, i, Completing);
    case NoRun => PhaseAccounts(st, j, Running, i, Completing);
    case FoundDone =>
      var st1 := WithState(st, j, Done);
      PhaseAccounts(st, j, Done, i, InRun);
      UpdateKeepsStructure(st, st1);
      var st2 := JobCompleted(st1, j);
      ChecksKeepSums(st1, st2);
      PhaseAccounts(st2, j, Done, i, Completing);
  }

  lemma StartSectionAccounts(st: State, i: nat, mode: RunMode)
    requires Structure(st) && i < |st.threads| && st.threads[i].phase.Requested? && Accounted(st)
    ensures Accounted(StartSection(st, i, mode))
  {
    var ds := st.jobs[st.threads[i].job].dependencies;
    assert forall d :: d in ds ==> HoldsAreStructural(st, i, d);
    AcquireAccounts(st, i, ds);
    match AcquireAll(st, i, ds)
    case Abort(st1, d) =>
      ChecksKeepSums(st1, Check(st1, d));
      PhaseAccounts(Check(st1, d), st.threads[i].job, Ready, i, Releasing);
    case All(st1) => BeginRunAccounts(st1, i, mode);
  }

  lemma {:induction false} RegisterAllAccounts(st: State, ds: seq<nat>, places: seq<nat>)
    requires Structure(st) && |places| == |ds| && (forall d :: d in ds ==> d < |st.deps|) && Accounted(st)
    ensures Accounted(RegisterAll(st, ds, places))
    decreases |ds|
  {
    if ds != [] {
      assert ds[0] in ds && DepOk(st, ds[0]);
      var st1 := AddDependent(st, ds[0], places[0]);
      HeldSame(st, st1);
      SameSums(st, st1);
      ChecksKeepSums(st1, Check(st1, ds[0]));
      assert forall d :: d in ds[1..] ==> d in ds;
      RegisterAllAccounts(Check(st1, ds[0]), ds[1..], places[1..]);
    }
  }

  lemma SubmitAccounts(st: State, j: nat, places: seq<nat>)
    requires Structure(st) && j < |st.jobs| && |places| == |st.jobs[j].dependencies| && Accounted(st)
    ensures Accounted(Submit(st, j, places))
  {
    if st.jobs[j].id !in st.byId {
      var st1 := st.(waiting := st.waiting + {j}, byId := st.byId[st.jobs[j].id := j]);
      UpdateKeepsStructure(st, st1);
      HeldSame(st, st1);
      SameSums(st, st1);
      RegisterAllAccounts(st1, st.jobs[j].dependencies, places);
      var st2 := RegisterAll(st1, st.jobs[j].dependencies, places);
      if st.jobs[j].dependencies == [] {
        assert st2 == st1;
        ChecksKeepSums(st2, Start(st2, j));
      }
    }
  }

  lemma BuildAccounts(st: State, r: State)
    requires Structure(st) && Structure(r) && Accounted(st)
    requires r.threads == st.threads && |st.deps| <= |r.deps| && |st.tokens| <= |r.tokens|
    requires forall d :: 0 <= d < |st.deps| ==> r.deps[d].origin == st.deps[d].origin
    requires forall t :: 0 <= t < |st.tokens| ==> r.tokens[t].used == st.tokens[t].used
    requires forall t :: |st.tokens| <= t < |r.tokens| ==> r.tokens[t].used == 0
    ensures Accounted(r)
  {
    HeldSame(st, r);
    forall d: nat | Live(st, d) ensures d < |st.deps| { LiveIsToken(st, d); }
    forall t | 0 <= t < |r.tokens| ensures r.tokens[t].used == LiveSum(r, t) % UINT32 {
      SumAgrees(st.deps, r.deps, t, LiveSet(st), LiveSet(r), |st.deps|);
      TailIsZero(r.deps, t, LiveSet(r), |st.deps|, |r.deps|);
      if |st.tokens| <= t { UnusedToken(st, t, |st.deps|); }
    }
  }

  lemma {:induction false} TailIsZero(deps: seq<Dependency>, t: nat, x: set<nat>, m: nat, n: nat)
    requires m <= n <= |deps| && forall d: nat :: m <= d ==> d !in x
    ensures Sum(deps, t, x, n) == Sum(deps, t, x, m)
    decreases n
  {
    if m < n { TailIsZero(deps, t, x, m, n - 1); }
  }

  lemma {:induction false} UnusedToken(st: State, t: nat, n: nat)
    requires Structure(st) && |st.tokens| <= t && n <= |st.deps|
    ensures Sum(st.deps, t, LiveSet(st), n) == 0
    decreases n
  {
    if n != 0 {
      assert DepOk(st, n - 1);
      UnusedToken(st, t, n - 1);
    }
  }

  lemma StepAccounts(st: State, e: Event)
    requires Structure(st) && Accounted(st)
    ensures Accounted(Step(st, e))
  {
    match e
    case CreateJob(id, s) => BuildAccounts(st, NewJob(st, id, s));
    case CreateToken(limit) => BuildAccounts(st, NewToken(st, limit));
    case ChangeLimit(t, limit) => if t < |st.tokens| { BuildAccounts(st, SetLimit(st, t, limit)); }
    case Depend(j, o) =>
      if j < |st.jobs| && !Submitted(st, j) && OriginOk(st, o, j) && |st.deps| + 1 < SIZE {
        BuildAccounts(st, AddDependency(st, j, o));
      }
    case SubmitJob(j, places) =>
      if j < |st.jobs| && |places| == |st.jobs[j].dependencies| { SubmitAccounts(st, j, places); }
    case _ => ThreadStepAccounts(st, e);
  }

  lemma ThreadStepAccounts(st: State, e: Event)
    requires Structure(st) && Accounted(st)
    requires e.EnterStart? || e.LeaveRun? || e.Finish? || e.ReleaseNext?
    ensures Accounted(Step(st, e))
  {
    match e
    case EnterStart(i, mode) =>
      if i < |st.threads| && st.threads[i].phase.Requested? { StartSectionAccounts(st, i, mode); }
    case LeaveRun(i, verdict) =>
      if i < |st.threads| && st.threads[i].phase.InRun? {
        PhaseAccounts(st, st.threads[i].job, if verdict.Set? && verdict.ok then Done else Error, i, Completing);
      }
    case Finish(i) =>
      if i < |st.threads| && st.threads[i].phase.Completing? { CompleteSectionAccounts(st, i); }
    case ReleaseNext(i) =>
      if i < |st.threads| && st.threads[i].phase.Releasing? {
        if st.threads[i].held != [] { ReleaseAccounts(st, i); }
        else { PhaseAccounts(st, st.threads[i].job, Ready, i, Ended); }
      }
  }

  lemma CompleteSectionAccounts(st: State, i: nat)
    requires Structure(st) && i < |st.threads| && Accounted(st)
    ensures Accounted(CompleteSection(st, i))
  {
    var j := st.threads[i].job;
    var st1 := JobCompleted(st, j);
    ChecksKeepSums(st, st1);
    PhaseAccounts(st1, j, Ready, i, Releasing);
    var st2 := SetPhase(st1, i, Releasing);
    UpdateKeepsStructure(st1, st2);
    ReleaseAllAccounts(st2, i);
    PhaseAccounts(ReleaseAll(st2, i), j, Ready, i, Ended);
  }

  lemma {:induction false} RunAccounts(st: State, events: seq<Event>)
    requires Structure(st) && Accounted(st)
    ensures Accounted(Run(st, events))
    decreases |events|
  {
    if events != [] {
      StepAccounts(st, events[0]);
      RunAccounts(Step(st, events[0]), events[1..]);
    }
  }

  /** In every run, whatever the limits and values, the use of a token is the sum of its live locks mod 2^32. */
  lemma TokenConservation(events: seq<Event>, t: nat)
    requires t < |Run(INIT, events).tokens|
    ensures var st := Run(INIT, events); st.tokens[t].used == LiveSum(st, t) % UINT32
  {
    RunAccounts(INIT, events);
  }
}
