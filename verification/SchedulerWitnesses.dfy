/**
  Runs from the initial state in which tokens go wrong: raising a limit loses a wake-up, lowering one leaves the jobs
  being run above it, and so does a 32-bit sum that wraps around.
*/
module SchedulerWitnesses {
  import opened SchedulerSpec
  import opened SchedulerCounters
  import opened SchedulerRuns
  import opened SchedulerTokens
  import opened SchedulerTheorems

  const MAX32: uint32 := 0xFFFF_FFFF

  // ---------------------------------------------------------------- reachable states

  predicate NoLimitChanges(events: seq<Event>) { forall e :: e in events ==> !e.ChangeLimit? }

  /** Some run that changes no limit leads here. */
  ghost predicate Reachable(st: State) {
    exists events: seq<Event> :: NoLimitChanges(events) && Run(INIT, events) == st
  }

  lemma InitIsReachable()
    ensures Reachable(INIT)
  {
    assert NoLimitChanges([]) && Run(INIT, []) == INIT;
  }

  lemma {:induction false} RunSnoc(st: State, events: seq<Event>, e: Event)
    requires Structure(st)
    ensures Run(st, events + [e]) == Step(Run(st, events), e)
    decreases |events|
  {
    if events == [] {
      assert [] + [e] == [e] && [e][1..] == [];
      assert Run(Step(st, e), []) == Step(st, e);
    } else {
      assert (events + [e])[0] == events[0] && (events + [e])[1..] == events[1..] + [e];
      RunSnoc(Step(st, events[0]), events[1..], e);
    }
  }

  lemma StepIsReachable(st: State, e: Event)
    requires Structure(st) && Reachable(st) && !e.ChangeLimit?
    ensures Reachable(Step(st, e))
  {
    var events :| NoLimitChanges(events) && Run(INIT, events) == st;
    RunSnoc(INIT, events, e);
    assert NoLimitChanges(events + [e]);
  }

  // ---------------------------------------------------------------- jobs that ask one token

  function Asks(t: nat, v: uint32, j: nat, s: Status): Dependency { Dependency(OnToken(t, v), j, s) }

  /** A new job with one new dependency on a token. */
  lemma JobAppears(st: State, id: string, t: nat, v: uint32)
    requires Structure(st) && Reachable(st) && t < |st.tokens| && id !in st.byId && |st.deps| + 1 < SIZE
    ensures var r := st.(jobs := st.jobs + [Job(id, Waiting, 1, [|st.deps|], [])],
                         deps := st.deps + [Asks(t, v, |st.jobs|, WAIT)]);
            Structure(r) && Reachable(r)
  {
    var j := |st.jobs|;
    var s1 := Step(st, CreateJob(id, Waiting));
    StepIsReachable(st, CreateJob(id, Waiting));
    assert s1 == st.(jobs := st.jobs + [Job(id, Waiting, 0, [], [])]);
    assert OriginOk(s1, OnToken(t, v), j) && !Submitted(s1, j);
    StepIsReachable(s1, Depend(j, OnToken(t, v)));
    var r := AddDependency(s1, j, OnToken(t, v));
    assert s1.jobs[j].dependencies + [|st.deps|] == [|st.deps|];
    assert r.jobs == st.jobs + [Job(id, Waiting, 1, [|st.deps|], [])];
  }

  /** Checking the only missing dependency of a job: if it is satisfied it is recorded so, and a start is requested. */
  lemma OneChecked(st: State, j: nat, d: nat, t: nat, v: uint32)
    requires Structure(st) && j < |st.jobs| && d < |st.deps| && t < |st.tokens|
    requires st.deps[d] == Asks(t, v, j, WAIT) && st.jobs[j].unsatisfied == 1 && !Live(st, d)
    requires Add32(st.tokens[t].used, v) <= st.tokens[t].limit
    ensures Check(st, d) == st.(jobs := st.jobs[j := st.jobs[j].(unsatisfied := 0)],
                                deps := st.deps[d := Asks(t, v, j, OK)],
                                threads := st.threads + [Thread(j, Requested, [])])
  {
    assert DepOk(st, d) && StatusOf(st, d).OK?;
    var st1 := WithJob(st, j, st.jobs[j].(unsatisfied := 0));
    assert SubtractSize(1, 1) == 0;
    ChangedIs(st, j, WAIT, OK, st1);
  }

  lemma OneNotChecked(st: State, d: nat, t: nat, v: uint32)
    requires Structure(st) && d < |st.deps| && t < |st.tokens|
    requires st.deps[d].origin == OnToken(t, v) && st.deps[d].recorded == WAIT
    requires Add32(st.tokens[t].used, v) > st.tokens[t].limit
    ensures Check(st, d) == st
  {
    assert DepOk(st, d) && StatusOf(st, d).WAIT?;
  }

  lemma OneRegistered(st: State, d: nat, place: nat)
    requires Structure(st) && d < |st.deps|
    ensures RegisterAll(st, [d], [place]) == Check(AddDependent(st, d, place), d)
  {
    assert [d][1..] == [] && [place][1..] == [];
    var st2 := Check(AddDependent(st, d, place), d);
    assert RegisterAll(st2, [], []) == st2;
  }

  /** What submitting a job with one dependency, on a token, leads to. */
  function AfterSubmit(st: State, j: nat, d: nat, t: nat, v: uint32): State
    requires j < |st.jobs| && d < |st.deps| && t < |st.tokens|
  {
    var x := st.tokens[t];
    var r := st.(tokens := st.tokens[t := x.(dependents := Insert(x.dependents, 0, d))],
                 waiting := st.waiting + {j}, byId := st.byId[st.jobs[j].id := j]);
    if Add32(x.used, v) <= x.limit then
      r.(jobs := st.jobs[j := st.jobs[j].(unsatisfied := 0)], deps := st.deps[d := Asks(t, v, j, OK)],
         threads := st.threads + [Thread(j, Requested, [])])
    else r
  }

  lemma OneSubmitted(st: State, j: nat, d: nat, t: nat, v: uint32)
    requires Structure(st) && Reachable(st) && j < |st.jobs| && d < |st.deps| && t < |st.tokens|
    requires st.deps[d] == Asks(t, v, j, WAIT) && st.jobs[j].unsatisfied == 1 && !Live(st, d)
    requires st.jobs[j].dependencies == [d] && st.jobs[j].id !in st.byId
    ensures Structure(AfterSubmit(st, j, d, t, v)) && Reachable(AfterSubmit(st, j, d, t, v))
  {
    StepIsReachable(st, SubmitJob(j, [0]));
    SubmittedIs(st, j, d);
    RegisteredIs(st, SubmitBegins(st, j), j, d, t, v);
  }

  lemma RegisteredIs(st: State, s0: State, j: nat, d: nat, t: nat, v: uint32)
    requires Structure(st) && Structure(s0) && j < |st.jobs| && d < |st.deps| && t < |st.tokens|
    requires s0 == st.(waiting := st.waiting + {j}, byId := st.byId[st.jobs[j].id := j])
    requires st.deps[d] == Asks(t, v, j, WAIT) && st.jobs[j].unsatisfied == 1 && !Live(st, d)
    ensures RegisterAll(s0, [d], [0]) == AfterSubmit(st, j, d, t, v)
  {
    OneRegistered(s0, d, 0);
    var s1 := AddDependent(s0, d, 0);
    AddedDependent(st, s0, j, d, t, v);
    HeldSame(st, s1);
    if Add32(st.tokens[t].used, v) <= st.tokens[t].limit {
      OneChecked(s1, j, d, t, v);
    } else {
      OneNotChecked(s1, d, t, v);
    }
  }

  lemma AddedDependent(st: State, s0: State, j: nat, d: nat, t: nat, v: uint32)
    requires Structure(s0) && d < |st.deps| && t < |st.tokens| && st.deps[d].origin == OnToken(t, v)
    requires s0 == st.(waiting := s0.waiting, byId := s0.byId)
    ensures AddDependent(s0, d, 0) ==
              s0.(tokens := st.tokens[t := st.tokens[t].(dependents := Insert(st.tokens[t].dependents, 0, d))])
  {
  }

  lemma SubmittedIs(st: State, j: nat, d: nat)
    requires Structure(st) && j < |st.jobs| && d < |st.deps|
    requires st.jobs[j].dependencies == [d] && st.jobs[j].id !in st.byId
    ensures Step(st, SubmitJob(j, [0])) == RegisterAll(SubmitBegins(st, j), [d], [0])
  {
  }

  /** The thread holds its only lock and has launched the job. */
  function AfterStart(st: State, i: nat, j: nat, d: nat, t: nat, v: uint32): State
    requires i < |st.threads| && j < |st.jobs| && t < |st.tokens|
  {
    st.(tokens := st.tokens[t := st.tokens[t].(used := Add32(st.tokens[t].used, v))],
        threads := st.threads[i := Thread(j, InRun, [d])],
        jobs := st.jobs[j := st.jobs[j].(state := Running)])
  }

  lemma OneStarted(st: State, i: nat, j: nat, d: nat, t: nat, v: uint32)
    requires Structure(st) && Reachable(st) && i < |st.threads| && j < |st.jobs| && d < |st.deps| && t < |st.tokens|
    requires st.threads[i] == Thread(j, Requested, []) && st.deps[d].target == j && st.deps[d].origin == OnToken(t, v)
    requires st.jobs[j].dependencies == [d] && !Live(st, d) && Enough(st.tokens[t], v)
    ensures Structure(AfterStart(st, i, j, d, t, v)) && Reachable(AfterStart(st, i, j, d, t, v))
  {
    OneLocked(st, i, d, t, v);
    OneEntered(st, i, d);
    OneLaunched(st, Lock(st, i, d).st, i, j, d, t, v);
  }

  lemma OneEntered(st: State, i: nat, d: nat)
    requires Structure(st) && Reachable(st) && HoldsAreStructural(st, i, d) && Lock(st, i, d).Taken?
    requires st.threads[i].phase.Requested? && st.jobs[st.threads[i].job].dependencies == [d]
    ensures Structure(Lock(st, i, d).st) && Reachable(BeginRun(Lock(st, i, d).st, i, Launched))
  {
    StepIsReachable(st, EnterStart(i, Launched));
    LockKeepsStructure(st, i, d);
    OneAcquired(st, i, d);
  }

  lemma OneLaunched(st: State, s1: State, i: nat, j: nat, d: nat, t: nat, v: uint32)
    requires Structure(s1) && i < |st.threads| && j < |st.jobs| && t < |st.tokens|
    requires st.threads[i] == Thread(j, Requested, [])
    requires s1 == st.(tokens := st.tokens[t := st.tokens[t].(used := Add32(st.tokens[t].used, v))],
                       threads := st.threads[i := Thread(j, Requested, [d])])
    ensures BeginRun(s1, i, Launched) == AfterStart(st, i, j, d, t, v)
  {
    assert BeginRun(s1, i, Launched).threads == st.threads[i := Thread(j, InRun, [d])];
  }

  lemma OneLocked(st: State, i: nat, d: nat, t: nat, v: uint32)
    requires Structure(st) && HoldsAreStructural(st, i, d) && t < |st.tokens|
    requires st.threads[i].held == [] && st.deps[d].origin == OnToken(t, v) && !Live(st, d) && Enough(st.tokens[t], v)
    ensures Lock(st, i, d) == Taken(st.(tokens := st.tokens[t := st.tokens[t].(used := Add32(st.tokens[t].used, v))],
                                        threads := st.threads[i := st.threads[i].(held := [d])]))
  {
    assert [] + [d] == [d];
  }

  lemma OneAcquired(st: State, i: nat, d: nat)
    requires Structure(st) && HoldsAreStructural(st, i, d) && Lock(st, i, d).Taken?
    ensures AcquireAll(st, i, [d]) == All(Lock(st, i, d).st)
  {
    LockKeepsStructure(st, i, d);
    assert [d][1..] == [] && AcquireAll(Lock(st, i, d).st, i, []) == All(Lock(st, i, d).st);
  }

  // ---------------------------------------------------------------- a wake-up is lost

  /** A submitted job that waits, although nothing it depends on is unsatisfied and no start of it is under way. */
  ghost predicate Stuck(st: State, j: nat)
    requires Structure(st)
  {
    && Submitted(st, j) && j in st.waiting && !Active(st, j)
    && forall d :: d in st.jobs[j].dependencies ==> d < |st.deps| && StatusOf(st, d).OK?
  }

  /** A token and a job that asks it for 1: created, submitted to wait or to start, or running. */
  function LoneCreated(limit: uint32): State {
    State([Job("a", Waiting, 1, [0], [])], [Asks(0, 1, 0, WAIT)], [Token(limit, 0, [])], [], map[], {})
  }
  function LoneWaits(limit: uint32): State {
    State([Job("a", Waiting, 1, [0], [])], [Asks(0, 1, 0, WAIT)], [Token(limit, 0, [0])], [], map["a" := 0], {0})
  }
  function LoneStarts(limit: uint32): State {
    State([Job("a", Waiting, 0, [0], [])], [Asks(0, 1, 0, OK)], [Token(limit, 0, [0])], [Thread(0, Requested, [])],
          map["a" := 0], {0})
  }
  function LoneRuns(limit: uint32): State {
    State([Job("a", Running, 0, [0], [])], [Asks(0, 1, 0, OK)], [Token(limit, 1, [0])], [Thread(0, InRun, [0])],
          map["a" := 0], {0})
  }

  lemma TokenAppears(s0: State, limit: uint32)
    requires s0 == State([], [], [], [], map[], {}) && Reachable(s0)
    ensures var r := State([], [], [Token(limit, 0, [])], [], map[], {}); Structure(r) && Reachable(r)
  {
    StepIsReachable(s0, CreateToken(limit));
    assert Step(s0, CreateToken(limit)).tokens == [Token(limit, 0, [])];
  }

  lemma LoneAppears(s0: State, limit: uint32)
    requires s0 == State([], [], [Token(limit, 0, [])], [], map[], {}) && Structure(s0) && Reachable(s0)
    ensures Structure(LoneCreated(limit)) && Reachable(LoneCreated(limit))
  {
    JobAppears(s0, "a", 0, 1);
    assert LoneCreated(limit).jobs == s0.jobs + [Job("a", Waiting, 1, [|s0.deps|], [])];
    assert LoneCreated(limit).deps == s0.deps + [Asks(0, 1, |s0.jobs|, WAIT)];
  }

  lemma LoneSubmit(st: State, limit: uint32)
    requires st == LoneCreated(limit)
    ensures AfterSubmit(st, 0, 0, 0, 1) == if Add32(0, 1) <= limit then LoneStarts(limit) else LoneWaits(limit)
  {
    assert Insert([], 0, 0) == [0];
    var r := AfterSubmit(st, 0, 0, 0, 1);
    assert r.tokens == [Token(limit, 0, [0])];
    if Add32(0, 1) <= limit {
      assert r.jobs == LoneStarts(limit).jobs && r.deps == LoneStarts(limit).deps;
      assert r.threads == [Thread(0, Requested, [])];
    }
    assert r.waiting == {0} && r.byId == map["a" := 0];
  }

  lemma LoneIsReachable(s0: State, limit: uint32)
    requires s0 == State([], [], [], [], map[], {}) && Reachable(s0)
    ensures var r := if 1 <= limit then LoneStarts(limit) else LoneWaits(limit); Structure(r) && Reachable(r)
  {
    TokenAppears(s0, limit);
    LoneAppears(State([], [], [Token(limit, 0, [])], [], map[], {}), limit);
    OneSubmitted(LoneCreated(limit), 0, 0, 0, 1);
    LoneSubmit(LoneCreated(limit), limit);
    assert Add32(0, 1) == 1;
  }

  lemma RaisedIsStuck(st: State, limit: uint32)
    requires st == LoneWaits(limit) && Structure(st) && limit == 0
    ensures Stuck(Step(st, ChangeLimit(0, 1)), 0)
  {
    var r := Step(st, ChangeLimit(0, 1));
    assert r.tokens == [Token(1, 0, [0])];
  }

  lemma RaisedLoses(s0: State, limit: uint32)
    requires s0 == State([], [], [], [], map[], {}) && Reachable(s0) && limit == 0
    ensures exists events: seq<Event> :: Stuck(Run(INIT, events), 0)
  {
    LoneIsReachable(s0, limit);
    var st := LoneWaits(limit);
    RaisedIsStuck(st, limit);
    StuckAfter(st, ChangeLimit(0, 1));
  }

  lemma StuckAfter(st: State, e: Event)
    requires Structure(st) && Reachable(st) && Stuck(Step(st, e), 0)
    ensures exists events: seq<Event> :: Stuck(Run(INIT, events), 0)
  {
    var events :| NoLimitChanges(events) && Run(INIT, events) == st;
    RunSnoc(INIT, events, e);
  }

  /** A run after which a job waits for nothing and nothing will start it: the limit was raised from 0 to 1. */
  lemma RaisedLimitLosesWakeUp()
    ensures exists events: seq<Event> :: Stuck(Run(INIT, events), 0)
  {
    InitIsReachable();
    RaisedLoses(INIT, 0);
  }

  // ---------------------------------------------------------------- a limit is exceeded

  /** The jobs that are being run ask a token for more than its limit. */
  ghost predicate Exceeded(st: State, t: nat)
    requires Structure(st)
  {
    t < |st.tokens| && Sum(st.deps, t, RunningDeps(st), |st.deps|) > st.tokens[t].limit
  }

  lemma LoneIsStarted(st: State, limit: uint32)
    requires st == LoneStarts(limit) && Structure(st) && Reachable(st) && 1 <= limit
    ensures Structure(LoneRuns(limit)) && Reachable(LoneRuns(limit))
  {
    assert !Live(st, 0) && Enough(st.tokens[0], 1);
    OneStarted(st, 0, 0, 0, 0, 1);
    LoneStart(st, limit);
  }

  lemma LoneStart(st: State, limit: uint32)
    requires st == LoneStarts(limit)
    ensures AfterStart(st, 0, 0, 0, 0, 1) == LoneRuns(limit)
  {
    var r := AfterStart(st, 0, 0, 0, 0, 1);
    assert r.tokens == LoneRuns(limit).tokens && r.threads == LoneRuns(limit).threads && r.jobs == LoneRuns(limit).jobs;
  }

  lemma LoweredIsExceeded(st: State, limit: uint32)
    requires st == LoneRuns(limit) && Structure(st)
    ensures Exceeded(Step(st, ChangeLimit(0, 0)), 0)
  {
    var r := Step(st, ChangeLimit(0, 0));
    assert r.tokens == [Token(0, 1, [0])];
    assert r.threads[0].phase.InRun? && 0 in RunningDeps(r);
    assert Sum(r.deps, 0, RunningDeps(r), 1) == Sum(r.deps, 0, RunningDeps(r), 0) + 1;
  }

  lemma LoweredExceeds(s0: State, limit: uint32)
    requires s0 == State([], [], [], [], map[], {}) && Reachable(s0) && limit == 1
    ensures exists events: seq<Event> :: Exceeded(Run(INIT, events), 0)
  {
    LoneIsReachable(s0, limit);
    LoneIsStarted(LoneStarts(limit), limit);
    var st := LoneRuns(limit);
    LoweredIsExceeded(st, limit);
    ExceededAfter(st, ChangeLimit(0, 0));
  }

  lemma ExceededAfter(st: State, e: Event)
    requires Structure(st) && Reachable(st) && Exceeded(Step(st, e), 0)
    ensures exists events: seq<Event> :: Exceeded(Run(INIT, events), 0)
  {
    var events :| NoLimitChanges(events) && Run(INIT, events) == st;
    RunSnoc(INIT, events, e);
  }

  /** A run after which a job runs with a token whose limit is 0: the limit was lowered under it. */
  lemma LoweredLimitIsExceeded()
    ensures exists events: seq<Event> :: Exceeded(Run(INIT, events), 0)
  {
    InitIsReachable();
    LoweredExceeds(INIT, 1);
  }

  /** Two jobs that ask one token for all of its limit and for 1: created, the first submitted, both submitted. */
  function PairCreated(limit: uint32): State {
    State([Job("a", Waiting, 1, [0], []), Job("b", Waiting, 1, [1], [])],
          [Asks(0, limit, 0, WAIT), Asks(0, 1, 1, WAIT)], [Token(limit, 0, [])], [], map[], {})
  }
  function PairHalf(limit: uint32): State {
    State([Job("a", Waiting, 0, [0], []), Job("b", Waiting, 1, [1], [])],
          [Asks(0, limit, 0, OK), Asks(0, 1, 1, WAIT)], [Token(limit, 0, [0])], [Thread(0, Requested, [])],
          map["a" := 0], {0})
  }

  /** Both are submitted: none, the first or both of them are being run. */
  function Pair(limit: uint32, used: uint32, a: JobState, x: Thread, b: JobState, y: Thread): State {
    State([Job("a", a, 0, [0], []), Job("b", b, 0, [1], [])], [Asks(0, limit, 0, OK), Asks(0, 1, 1, OK)],
          [Token(limit, used, [1, 0])], [x, y], map["a" := 0, "b" := 1], {0, 1})
  }
  function PairStarts(limit: uint32): State {
    Pair(limit, 0, Waiting, Thread(0, Requested, []), Waiting, Thread(1, Requested, []))
  }
  function PairHalfRuns(limit: uint32): State {
    Pair(limit, limit, Running, Thread(0, InRun, [0]), Waiting, Thread(1, Requested, []))
  }
  function PairRuns(limit: uint32): State {
    Pair(limit, 0, Running, Thread(0, InRun, [0]), Running, Thread(1, InRun, [1]))
  }

  lemma PairAppears(s0: State, limit: uint32)
    requires s0 == State([], [], [Token(limit, 0, [])], [], map[], {}) && Structure(s0) && Reachable(s0)
    ensures Structure(PairCreated(limit)) && Reachable(PairCreated(limit))
  {
    JobAppears(s0, "a", 0, limit);
    var s1 := s0.(jobs := s0.jobs + [Job("a", Waiting, 1, [|s0.deps|], [])],
                  deps := s0.deps + [Asks(0, limit, 0, WAIT)]);
    JobAppears(s1, "b", 0, 1);
    PairTables(s0, s1, limit);
  }

  lemma PairTables(s0: State, s1: State, limit: uint32)
    requires s0 == State([], [], [Token(limit, 0, [])], [], map[], {})
    requires s1 == s0.(jobs := s0.jobs + [Job("a", Waiting, 1, [|s0.deps|], [])],
                       deps := s0.deps + [Asks(0, limit, 0, WAIT)])
    ensures PairCreated(limit) == s1.(jobs := s1.jobs + [Job("b", Waiting, 1, [|s1.deps|], [])],
                                      deps := s1.deps + [Asks(0, 1, |s1.jobs|, WAIT)])
  {
    assert PairCreated(limit).jobs == s1.jobs + [Job("b", Waiting, 1, [|s1.deps|], [])];
    assert PairCreated(limit).deps == s1.deps + [Asks(0, 1, |s1.jobs|, WAIT)];
  }

  lemma AddZero(v: uint32)
    ensures Add32(0, v) == v
  {
  }

  lemma FirstSubmit(st: State, limit: uint32)
    requires st == PairCreated(limit)
    ensures AfterSubmit(st, 0, 0, 0, limit) == PairHalf(limit)
  {
    AddZero(limit);
    assert Insert([], 0, 0) == [0];
    var r := AfterSubmit(st, 0, 0, 0, limit);
    assert r.tokens == PairHalf(limit).tokens && r.jobs == PairHalf(limit).jobs && r.deps == PairHalf(limit).deps;
    assert r.threads == [Thread(0, Requested, [])] && r.waiting == {0} && r.byId == map["a" := 0];
  }

  lemma SecondSubmit(st: State, limit: uint32)
    requires st == PairHalf(limit) && 1 <= limit
    ensures AfterSubmit(st, 1, 1, 0, 1) == PairStarts(limit)
  {
    AddZero(1);
    assert Insert([0], 0, 1) == [1, 0];
    var r := AfterSubmit(st, 1, 1, 0, 1);
    assert r.tokens == PairStarts(limit).tokens && r.jobs == PairStarts(limit).jobs && r.deps == PairStarts(limit).deps;
    assert r.threads == PairStarts(limit).threads && r.waiting == {0, 1} && r.byId == map["a" := 0, "b" := 1];
  }

  lemma FirstStart(st: State, limit: uint32)
    requires st == PairStarts(limit)
    ensures AfterStart(st, 0, 0, 0, 0, limit) == PairHalfRuns(limit)
  {
    AddZero(limit);
    var r := AfterStart(st, 0, 0, 0, 0, limit);
    assert r.tokens == PairHalfRuns(limit).tokens && r.jobs == PairHalfRuns(limit).jobs;
    assert r.threads == PairHalfRuns(limit).threads;
  }

  /** Adding 1 to a use of 2^32 - 1 gives 0, which is within any limit. */
  lemma SecondStart(st: State, limit: uint32)
    requires st == PairHalfRuns(limit) && limit == MAX32
    ensures Enough(st.tokens[0], 1) && AfterStart(st, 1, 1, 1, 0, 1) == PairRuns(limit)
  {
    assert Add32(limit, 1) == 0 && Add32(1, limit) == 0;
    var r := AfterStart(st, 1, 1, 1, 0, 1);
    assert r.tokens == PairRuns(limit).tokens && r.jobs == PairRuns(limit).jobs && r.threads == PairRuns(limit).threads;
  }

  lemma PairIsExceeded(st: State, limit: uint32)
    requires st == PairRuns(limit) && Structure(st)
    ensures Exceeded(st, 0)
  {
    assert st.threads[0].phase.InRun? && st.threads[1].phase.InRun?;
    var x := RunningDeps(st);
    assert 0 in x && 1 in x;
    assert Sum(st.deps, 0, x, 1) == Sum(st.deps, 0, x, 0) + limit;
    assert Sum(st.deps, 0, x, 2) == Sum(st.deps, 0, x, 1) + 1;
  }

  lemma FirstIsSubmitted(st: State, limit: uint32)
    requires st == PairCreated(limit) && Structure(st) && Reachable(st)
    ensures Structure(PairHalf(limit)) && Reachable(PairHalf(limit))
  {
    OneSubmitted(st, 0, 0, 0, limit);
    FirstSubmit(st, limit);
  }

  lemma SecondIsSubmitted(st: State, limit: uint32)
    requires st == PairHalf(limit) && Structure(st) && Reachable(st) && 1 <= limit
    ensures Structure(PairStarts(limit)) && Reachable(PairStarts(limit))
  {
    assert !Live(st, 1);
    OneSubmitted(st, 1, 1, 0, 1);
    SecondSubmit(st, limit);
  }

  lemma FirstIsStarted(st: State, limit: uint32)
    requires st == PairStarts(limit) && Structure(st) && Reachable(st)
    ensures Structure(PairHalfRuns(limit)) && Reachable(PairHalfRuns(limit))
  {
    AddZero(limit);
    assert !Live(st, 0) && Enough(st.tokens[0], limit);
    OneStarted(st, 0, 0, 0, 0, limit);
    FirstStart(st, limit);
  }

  lemma SecondIsStarted(st: State, limit: uint32)
    requires st == PairHalfRuns(limit) && Structure(st) && Reachable(st) && limit == MAX32
    ensures Structure(PairRuns(limit)) && Reachable(PairRuns(limit))
  {
    SecondStart(st, limit);
    assert !Live(st, 1);
    OneStarted(st, 1, 1, 1, 0, 1);
  }

  lemma WrappedExceeds(s0: State, limit: uint32)
    requires s0 == State([], [], [], [], map[], {}) && Reachable(s0) && limit == MAX32
    ensures exists events: seq<Event> :: NoLimitChanges(events) && Exceeded(Run(INIT, events), 0)
  {
    TokenAppears(s0, limit);
    PairAppears(State([], [], [Token(limit, 0, [])], [], map[], {}), limit);
    FirstIsSubmitted(PairCreated(limit), limit);
    SecondIsSubmitted(PairHalf(limit), limit);
    FirstIsStarted(PairStarts(limit), limit);
    SecondIsStarted(PairHalfRuns(limit), limit);
    var st := PairRuns(limit);
    PairIsExceeded(st, limit);
    var events :| NoLimitChanges(events) && Run(INIT, events) == st;
  }

  /** A run that changes no limit and in which two running jobs exceed it: the sum of their values is 2^32. */
  lemma WrappedSumIsExceeded()
    ensures exists events: seq<Event> :: NoLimitChanges(events) && Exceeded(Run(INIT, events), 0)
  {
    InitIsReachable();
    WrappedExceeds(INIT, MAX32);
  }
}
