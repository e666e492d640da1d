/**
  Token limits: as long as the sums fit the 32-bit counter, the use of a token is exactly the sum of its live locks,
  and it stays within the limit if no limit is set below the current use.
*/
module SchedulerLimits {
  import opened SchedulerSpec
  import opened SchedulerTokens

  /** The value fits beside both the use and the limit of a token. */
  predicate Fits(x: Token, v: uint32) { v + x.used < UINT32 && v + x.limit < UINT32 }

  /** Whatever is asked of a token fits, and its use is the exact sum of its live locks. */
  ghost predicate SumsFit(st: State)
    requires Structure(st)
  {
    && (forall d :: 0 <= d < |st.deps| && st.deps[d].origin.OnToken? && st.deps[d].origin.token < |st.tokens| ==>
          Fits(st.tokens[st.deps[d].origin.token], st.deps[d].origin.value))
    && (forall t :: 0 <= t < |st.tokens| ==> st.tokens[t].used == LiveSum(st, t))
  }

  predicate WithinLimits(st: State) {
    forall t :: 0 <= t < |st.tokens| ==> st.tokens[t].used <= st.tokens[t].limit
  }

  lemma Accounts(st: State)
    requires Structure(st) && SumsFit(st)
    ensures Accounted(st)
  {
  }

  // ---------------------------------------------------------------- sections that take no lock

  /** Origins and limits are as they were, and no lock has come alive. */
  ghost predicate Shrinks(st: State, r: State) {
    && |r.deps| == |st.deps| && |r.tokens| == |st.tokens|
    && (forall d :: 0 <= d < |st.deps| ==> r.deps[d].origin == st.deps[d].origin)
    && (forall t :: 0 <= t < |st.tokens| ==> r.tokens[t].limit == st.tokens[t].limit)
    && (forall d: nat :: Live(r, d) ==> Live(st, d))
  }

  /** The sum over fewer live locks fits as well, and a use that agrees with it modulo 2^32 is that sum. */
  lemma ShrinkKeepsFit(st: State, r: State)
    requires Structure(st) && Structure(r) && SumsFit(st) && Accounted(r) && Shrinks(st, r)
    ensures SumsFit(r) && (WithinLimits(st) ==> WithinLimits(r))
  {
    assert LiveSet(r) <= LiveSet(st);
    forall t | 0 <= t < |r.tokens| ensures r.tokens[t].used == LiveSum(r, t) <= st.tokens[t].used {
      SumAgrees(r.deps, st.deps, t, LiveSet(r), LiveSet(r), |st.deps|);
      SumMonotone(st.deps, t, LiveSet(r), LiveSet(st), |st.deps|);
      SmallRemainder(LiveSum(r, t), st.tokens[t].used);
    }
  }

  lemma SmallRemainder(sum: nat, use: uint32)
    requires sum <= use
    ensures sum % UINT32 == sum
  {
  }

  lemma ChecksShrink(st: State, r: State)
    requires Structure(st) && Checked(st, r)
    ensures Shrinks(st, r)
  {
    CheckedKeeps(st, r);
  }

  lemma ChecksKeepFit(st: State, r: State)
    requires Structure(st) && Checked(st, r) && Structure(r) && SumsFit(st)
    ensures SumsFit(r)
  {
    Accounts(st);
    ChecksShrink(st, r);
    ChecksKeepSums(st, r);
    ShrinkKeepsFit(st, r);
  }

  /** Threads keep their locks. */
  lemma SameHeldShrinks(st: State, r: State)
    requires |r.deps| == |st.deps| && |r.tokens| == |st.tokens| && |r.threads| == |st.threads|
    requires forall d :: 0 <= d < |st.deps| ==> r.deps[d].origin == st.deps[d].origin
    requires forall t :: 0 <= t < |st.tokens| ==> r.tokens[t].limit == st.tokens[t].limit
    requires forall i :: 0 <= i < |st.threads| ==> r.threads[i].held == st.threads[i].held
    ensures Shrinks(st, r)
  {
    HeldSame(st, r);
  }

  lemma BeginRunShrinks(st: State, i: nat, mode: RunMode)
    requires Structure(st) && i < |st.threads|
    ensures Shrinks(st, BeginRun(st, i, mode))
  {
    var r := BeginRun(st, i, mode);
    if mode.FoundDone? {
      var st1 := WithState(st, st.threads[i].job, Done);
      UpdateKeepsStructure(st, st1);
      var st2 := JobCompleted(st1, st.threads[i].job);
      SameHeldShrinks(st, st1);
      ChecksShrink(st1, st2);
      SameHeldShrinks(st2, r);
    } else {
      SameHeldShrinks(st, r);
    }
  }

  lemma AbortShrinks(st: State, i: nat, d: nat)
    requires Structure(st) && i < |st.threads| && d < |st.deps|
    ensures Shrinks(st, AbortStart(st, i, d))
  {
    ChecksShrink(st, Check(st, d));
    SameHeldShrinks(Check(st, d), AbortStart(st, i, d));
  }

  lemma ReleaseShrinks(st: State, i: nat)
    requires Structure(st) && i < |st.threads| && st.threads[i].held != []
    ensures Shrinks(st, Release(st, i))
  {
    var d := st.threads[i].held[0];
    var st1 := Dropped(st, i);
    UpdateKeepsStructure(st, st1);
    DropEndsOnlyIts(st, i);
    assert DepOk(st, d);
    if !Live(st1, d) {
      var t := st.deps[d].origin.token;
      var st2 := WithUsed(st1, t, Sub32(st1.tokens[t].used, st.deps[d].origin.value));
      UpdateKeepsStructure(st1, st2);
      SameHeldShrinks(st1, st2);
      assert forall e :: e in st2.tokens[t].dependents ==> e < |st2.deps| && DepOk(st2, e);
      ChecksShrink(st2, CheckAll(st2, st2.tokens[t].dependents, -1));
    }
  }

  lemma ReleaseKeepsFit(st: State, i: nat)
    requires Structure(st) && SumsFit(st) && i < |st.threads| && st.threads[i].held != []
    ensures SumsFit(Release(st, i))
  {
    Accounts(st);
    ReleaseAccounts(st, i);
    ReleaseShrinks(st, i);
    ShrinkKeepsFit(st, Release(st, i));
  }

  lemma {:induction false} ReleaseAllShrinks(st: State, i: nat)
    requires Structure(st) && i < |st.threads|
    ensures Shrinks(st, ReleaseAll(st, i))
    decreases |st.threads[i].held|
  {
    if st.threads[i].held != [] {
      ReleaseShrinks(st, i);
      ReleaseAllShrinks(Release(st, i), i);
    }
  }

  lemma CompleteSectionShrinks(st: State, i: nat)
    requires Structure(st) && i < |st.threads|
    ensures Shrinks(st, CompleteSection(st, i))
  {
    var st1 := JobCompleted(st, st.threads[i].job);
    ChecksShrink(st, st1);
    var st2 := SetPhase(st1, i, Releasing);
    UpdateKeepsStructure(st1, st2);
    SameHeldShrinks(st1, st2);
    ReleaseAllShrinks(st2, i);
    SameHeldShrinks(ReleaseAll(st2, i), CompleteSection(st, i));
  }

  lemma {:induction false} RegisterAllShrinks(st: State, ds: seq<nat>, places: seq<nat>)
    requires Structure(st) && |places| == |ds| && forall d :: d in ds ==> d < |st.deps|
    ensures Shrinks(st, RegisterAll(st, ds, places))
    decreases |ds|
  {
    if ds != [] {
      assert ds[0] in ds && DepOk(st, ds[0]);
      var st1 := AddDependent(st, ds[0], places[0]);
      SameHeldShrinks(st, st1);
      ChecksShrink(st1, Check(st1, ds[0]));
      assert forall d :: d in ds[1..] ==> d in ds;
      RegisterAllShrinks(Check(st1, ds[0]), ds[1..], places[1..]);
    }
  }

  lemma SubmitShrinks(st: State, j: nat, places: seq<nat>)
    requires Structure(st) && j < |st.jobs| && |places| == |st.jobs[j].dependencies|
    ensures Shrinks(st, Submit(st, j, places))
  {
    if st.jobs[j].id !in st.byId {
      var st1 := st.(waiting := st.waiting + {j}, byId := st.byId[st.jobs[j].id := j]);
      UpdateKeepsStructure(st, st1);
      SameHeldShrinks(st, st1);
      RegisterAllShrinks(st1, st.jobs[j].dependencies, places);
      var st2 := RegisterAll(st1, st.jobs[j].dependencies, places);
      if st.jobs[j].dependencies == [] {
        assert st2 == st1;
        ChecksShrink(st2, Start(st2, j));
      }
    }
  }

  // ---------------------------------------------------------------- taking locks

  /** With sums that fit, status and acquisition test compute with exact sums. */
  lemma ExactSums(st: State, d: nat)
    requires Structure(st) && SumsFit(st) && d < |st.deps| && st.deps[d].origin.OnToken?
    ensures var t, v := st.deps[d].origin.token, st.deps[d].origin.value;
            && t < |st.tokens|
            && (StatusOf(st, d).OK? <==> st.tokens[t].used + v <= st.tokens[t].limit)
            && (Enough(st.tokens[t], v) <==> st.tokens[t].used + v <= st.tokens[t].limit)
            && (StatusOf(st, d).OK? ==> Add32(st.tokens[t].used, v) == st.tokens[t].used + v)
  {
    assert DepOk(st, d);
  }

  lemma LockKeepsFit(st: State, i: nat, d: nat)
    requires Structure(st) && SumsFit(st) && HoldsAreStructural(st, i, d) && Lock(st, i, d).Taken?
    ensures Structure(Lock(st, i, d).st) && SumsFit(Lock(st, i, d).st)
    ensures WithinLimits(st) ==> WithinLimits(Lock(st, i, d).st)
  {
    var r := Lock(st, i, d).st;
    LockKeepsStructure(st, i, d);
    assert DepOk(st, d);
    if st.deps[d].origin.OnToken? {
      ExactSums(st, d);
      Accounts(st);
      LockAccounts(st, i, d);
      assert forall u :: 0 <= u < |st.tokens| ==> r.tokens[u].limit == st.tokens[u].limit;
    }
  }

  lemma {:induction false} AcquireKeepsFit(st: State, i: nat, ds: seq<nat>)
    requires Structure(st) && SumsFit(st) && forall d :: d in ds ==> HoldsAreStructural(st, i, d)
    ensures SumsFit(AcquireAll(st, i, ds).st)
    ensures WithinLimits(st) ==> WithinLimits(AcquireAll(st, i, ds).st)
    decreases |ds|
  {
    if ds != [] {
      assert ds[0] in ds && HoldsAreStructural(st, i, ds[0]);
      var x := Lock(st, i, ds[0]);
      if x.Taken? {
        LockKeepsStructure(st, i, ds[0]);
        LockKeepsFit(st, i, ds[0]);
        assert forall d :: d in ds[1..] ==> d in ds;
        assert forall d :: HoldsAreStructural(st, i, d) ==> HoldsAreStructural(x.st, i, d);
        AcquireKeepsFit(x.st, i, ds[1..]);
      }
    }
  }

  lemma StartSectionKeepsFit(st: State, i: nat, mode: RunMode)
    requires Structure(st) && SumsFit(st) && i < |st.threads| && st.threads[i].phase.Requested?
    ensures SumsFit(StartSection(st, i, mode))
    ensures WithinLimits(st) ==> WithinLimits(StartSection(st, i, mode))
  {
    var ds := st.jobs[st.threads[i].job].dependencies;
    assert forall d :: d in ds ==> HoldsAreStructural(st, i, d);
    Accounts(st);
    StartSectionAccounts(st, i, mode);
    AcquireKeepsFit(st, i, ds);
    match AcquireAll(st, i, ds)
    case Abort(st1, d) =>
      AbortShrinks(st1, i, d);
      ShrinkKeepsFit(st1, AbortStart(st1, i, d));
    case All(st1) =>
      BeginRunShrinks(st1, i, mode);
      ShrinkKeepsFit(st1, BeginRun(st1, i, mode));
  }

  // ---------------------------------------------------------------- creating objects and changing limits

  /** Everything asked of the token fits beside the limit. */
  predicate ValuesFit(st: State, t: nat, limit: uint32) {
    forall d :: 0 <= d < |st.deps| && st.deps[d].origin.OnToken? && st.deps[d].origin.token == t ==>
      st.deps[d].origin.value + limit < UINT32
  }

  lemma BuildSums(st: State, r: State)
    requires Structure(st) && Structure(r) && SumsFit(st)
    requires r.threads == st.threads && |st.deps| <= |r.deps| && |st.tokens| <= |r.tokens|
    requires forall d :: 0 <= d < |st.deps| ==> r.deps[d].origin == st.deps[d].origin
    requires forall t :: 0 <= t < |st.tokens| ==> r.tokens[t] == st.tokens[t]
    requires forall t :: |st.tokens| <= t < |r.tokens| ==> r.tokens[t].used == 0
    ensures forall t :: 0 <= t < |r.tokens| ==> r.tokens[t].used == LiveSum(r, t)
    ensures WithinLimits(st) ==> WithinLimits(r)
  {
    HeldSame(st, r);
    forall d: nat | Live(st, d) ensures d < |st.deps| { LiveIsToken(st, d); }
    forall t | 0 <= t < |r.tokens| ensures r.tokens[t].used == LiveSum(r, t) {
      SumAgrees(st.deps, r.deps, t, LiveSet(st), LiveSet(r), |st.deps|);
      TailIsZero(r.deps, t, LiveSet(r), |st.deps|, |r.deps|);
      if |st.tokens| <= t { UnusedToken(st, t, |st.deps|); }
    }
  }

  lemma NewTokenKeepsFit(st: State, limit: uint32)
    requires Structure(st) && SumsFit(st)
    ensures SumsFit(NewToken(st, limit)) && (WithinLimits(st) ==> WithinLimits(NewToken(st, limit)))
  {
    var r := NewToken(st, limit);
    BuildSums(st, r);
    forall d | 0 <= d < |r.deps| && r.deps[d].origin.OnToken? && r.deps[d].origin.token < |r.tokens|
      ensures Fits(r.tokens[r.deps[d].origin.token], r.deps[d].origin.value)
    {
      assert DepOk(st, d);
    }
  }

  lemma AddDependencyKeepsFit(st: State, j: nat, o: Origin)
    requires Structure(st) && SumsFit(st) && j < |st.jobs| && OriginOk(st, o, j)
    requires o.OnToken? ==> Fits(st.tokens[o.token], o.value)
    ensures SumsFit(AddDependency(st, j, o)) && (WithinLimits(st) ==> WithinLimits(AddDependency(st, j, o)))
  {
    BuildSums(st, AddDependency(st, j, o));
  }

  /**
    `limit()` only assigns. Sums go on fitting if and only if what is asked of the token fits beside the new limit, and
    the live locks go on being within the limit if and only if the new limit is not below the use of the token.
  */
  lemma LimitIsKeptIff(st: State, t: nat, limit: uint32)
    requires Structure(st) && SumsFit(st) && t < |st.tokens|
    ensures var r := SetLimit(st, t, limit);
            && (SumsFit(r) <==> ValuesFit(st, t, limit))
            && (LiveSum(r, t) <= r.tokens[t].limit <==> st.tokens[t].used <= limit)
            && (WithinLimits(st) ==> (WithinLimits(r) <==> st.tokens[t].used <= limit))
  {
    var r := SetLimit(st, t, limit);
    HeldSame(st, r);
    SameSums(st, r);
    assert r.deps == st.deps;
  }

  // ---------------------------------------------------------------- runs

  /** What is asked of a token fits when the dependency is added and when the limit is changed. */
  predicate FitEvent(st: State, e: Event) {
    match e
    case ChangeLimit(t, limit) => t < |st.tokens| ==> ValuesFit(st, t, limit)
    case Depend(_, OnToken(t, v)) => t < |st.tokens| ==> Fits(st.tokens[t], v)
    case _ => true
  }

  /** A limit is not set below the use of its token. */
  predicate LimitEvent(st: State, e: Event) {
    e.ChangeLimit? && e.t < |st.tokens| ==> st.tokens[e.t].used <= e.limit
  }

  ghost predicate FitRun(st: State, events: seq<Event>)
    requires Structure(st)
    decreases |events|
  {
    events == [] || (FitEvent(st, events[0]) && FitRun(Step(st, events[0]), events[1..]))
  }

  ghost predicate LimitRun(st: State, events: seq<Event>)
    requires Structure(st)
    decreases |events|
  {
    events == [] || (LimitEvent(st, events[0]) && LimitRun(Step(st, events[0]), events[1..]))
  }

  lemma StepKeepsFit(st: State, e: Event)
    requires Structure(st) && SumsFit(st) && FitEvent(st, e)
    ensures SumsFit(Step(st, e))
    ensures WithinLimits(st) ==> (WithinLimits(Step(st, e)) <==> LimitEvent(st, e))
  {
    Accounts(st);
    StepAccounts(st, e);
    match e
    case CreateJob(id, s) => BuildSums(st, NewJob(st, id, s));
    case CreateToken(limit) => NewTokenKeepsFit(st, limit);
    case ChangeLimit(t, limit) => if t < |st.tokens| { LimitIsKeptIff(st, t, limit); }
    case Depend(j, o) =>
      if j < |st.jobs| && !Submitted(st, j) && OriginOk(st, o, j) && |st.deps| + 1 < SIZE {
        AddDependencyKeepsFit(st, j, o);
      }
    case EnterStart(i, mode) =>
      if i < |st.threads| && st.threads[i].phase.Requested? { StartSectionKeepsFit(st, i, mode); }
    case _ =>
      StepShrinks(st, e);
      ShrinkKeepsFit(st, Step(st, e));
  }

  lemma StepShrinks(st: State, e: Event)
    requires Structure(st) && (e.SubmitJob? || e.LeaveRun? || e.Finish? || e.ReleaseNext?)
    ensures Shrinks(st, Step(st, e))
  {
    match e
    case SubmitJob(j, places) => SubmitStepShrinks(st, j, places);
    case LeaveRun(i, verdict) => SameHeldShrinks(st, Step(st, e));
    case Finish(i) => FinishStepShrinks(st, i);
    case ReleaseNext(i) => ReleaseStepShrinks(st, i);
  }

  lemma SubmitStepShrinks(st: State, j: nat, places: seq<nat>)
    requires Structure(st)
    ensures Shrinks(st, Step(st, SubmitJob(j, places)))
  {
    if j < |st.jobs| && |places| == |st.jobs[j].dependencies| { SubmitShrinks(st, j, places); }
  }

  lemma FinishStepShrinks(st: State, i: nat)
    requires Structure(st)
    ensures Shrinks(st, Step(st, Finish(i)))
  {
    if i < |st.threads| && st.threads[i].phase.Completing? { CompleteSectionShrinks(st, i); }
  }

  lemma ReleaseStepShrinks(st: State, i: nat)
    requires Structure(st)
    ensures Shrinks(st, Step(st, ReleaseNext(i)))
  {
    if i < |st.threads| && st.threads[i].phase.Releasing? && st.threads[i].held != [] {
      ReleaseShrinks(st, i);
    } else {
      SameHeldShrinks(st, Step(st, ReleaseNext(i)));
    }
  }

  /** The use of every token is within its limit before and after every event. */
  ghost predicate AlwaysWithin(st: State, events: seq<Event>)
    requires Structure(st)
    decreases |events|
  {
    WithinLimits(st) && (events == [] || AlwaysWithin(Step(st, events[0]), events[1..]))
  }

  /** Runs in which everything fits exceed a limit if and only if some limit is set below the use of its token. */
  lemma {:induction false} RunKeepsFit(st: State, events: seq<Event>)
    requires Structure(st) && SumsFit(st) && FitRun(st, events)
    ensures SumsFit(Run(st, events))
    ensures WithinLimits(st) ==> (AlwaysWithin(st, events) <==> LimitRun(st, events))
    ensures AlwaysWithin(st, events) ==> WithinLimits(Run(st, events))
    decreases |events|
  {
    if events != [] {
      StepKeepsFit(st, events[0]);
      RunKeepsFit(Step(st, events[0]), events[1..]);
    }
  }
}
