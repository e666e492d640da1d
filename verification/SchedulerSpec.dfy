/**
  The in-process scheduler as a function on its state.

  Jobs, dependencies and tokens are numbered; a job only depends on jobs with smaller numbers (any acyclic
  graph can be numbered this way). Every critical section of the workspace mutex is one step. The threads that
  `start` spawns are kept in the state, with the locks they hold, so that requests and releases that are still
  to come are part of it.
*/
module SchedulerSpec {

  const UINT32 := 0x1_0000_0000
  const SIZE := 0x1_0000_0000_0000_0000

  type uint32 = x: int | 0 <= x < UINT32
  type size_t = x: int | 0 <= x < SIZE

  datatype Status = OK | WAIT | FAIL
  datatype JobState = Waiting | Ready | Running | Error | Done

  datatype Origin = OnJob(job: nat) | OnToken(token: nat, value: uint32)
  datatype Dependency = Dependency(origin: Origin, target: nat, recorded: Status)
  datatype Job = Job(id: string, state: JobState, unsatisfied: size_t, dependencies: seq<nat>, dependents: seq<nat>)
  datatype Token = Token(limit: uint32, used: uint32, dependents: seq<nat>)

  /** Where a thread spawned by `start` is. */
  datatype Phase =
    | Requested    // has not entered its critical section yet
    | InRun        // holds its locks, runs the job
    | Completing   // `run` returned, completion not announced yet
    | Releasing    // the start was aborted, the locks taken so far are still to be released
    | Ended
  datatype Thread = Thread(job: nat, phase: Phase, held: seq<nat>)

  datatype State = State(
    jobs: seq<Job>, deps: seq<Dependency>, tokens: seq<Token>, threads: seq<Thread>,
    byId: map<string, nat>, waiting: set<nat>)

  const INIT := State([], [], [], [], map[], {})

  /** Sums of `uint32` values wrap around. */
  function Add32(a: uint32, b: uint32): uint32 { (a + b) % UINT32 }
  function Sub32(a: uint32, b: uint32): uint32 { (a - b) % UINT32 }

  /** `size_t -= int`: the signed difference is converted to the unsigned type first. */
  function SubtractSize(u: size_t, delta: int): size_t { (u - delta) % SIZE }

  function ValueOf(s: Status): int { if s.OK? then 1 else 0 }

  // ---------------------------------------------------------------- structure

  predicate OriginOk(st: State, o: Origin, target: nat) {
    match o
    case OnJob(k) => k < target
    case OnToken(t, _) => t < |st.tokens|
  }

  predicate DepOk(st: State, d: nat)
    requires d < |st.deps|
  {
    st.deps[d].target < |st.jobs| && OriginOk(st, st.deps[d].origin, st.deps[d].target)
  }

  /** The numbers stored in lists denote objects, and lists of dependents point back. */
  predicate Structure(st: State) {
    && (forall d :: 0 <= d < |st.deps| ==> DepOk(st, d))
    && (forall j, i :: 0 <= j < |st.jobs| && 0 <= i < |st.jobs[j].dependencies| ==>
          && st.jobs[j].dependencies[i] < |st.deps|
          && st.deps[st.jobs[j].dependencies[i]].target == j)
    && (forall j, i :: 0 <= j < |st.jobs| && 0 <= i < |st.jobs[j].dependents| ==>
          && st.jobs[j].dependents[i] < |st.deps|
          && st.deps[st.jobs[j].dependents[i]].origin == OnJob(j))
    && (forall t, i :: 0 <= t < |st.tokens| && 0 <= i < |st.tokens[t].dependents| ==>
          && st.tokens[t].dependents[i] < |st.deps|
          && st.deps[st.tokens[t].dependents[i]].origin.OnToken?
          && st.deps[st.tokens[t].dependents[i]].origin.token == t)
    && (forall i :: 0 <= i < |st.threads| ==> st.threads[i].job < |st.jobs|)
    && (forall i, k :: 0 <= i < |st.threads| && 0 <= k < |st.threads[i].held| ==>
          && st.threads[i].held[k] < |st.deps|
          && st.deps[st.threads[i].held[k]].origin.OnToken?
          && st.deps[st.threads[i].held[k]].target == st.threads[i].job)
  }

  // ---------------------------------------------------------------- statuses and locks

  /** The lock of a dependency is alive as long as some thread holds it. */
  predicate Live(st: State, d: nat) {
    exists i :: 0 <= i < |st.threads| && d in st.threads[i].held
  }

  function JobStatus(s: JobState): Status {
    match s
    case Error => FAIL
    case Done => OK
    case _ => WAIT
  }

  function TokenStatus(t: Token, value: uint32): Status {
    if Add32(t.used, value) <= t.limit then OK else WAIT
  }

  function StatusOf(st: State, d: nat): Status
    requires Structure(st) && d < |st.deps|
  {
    assert DepOk(st, d);
    match st.deps[d].origin
    case OnJob(k) => JobStatus(st.jobs[k].state)
    case OnToken(t, v) => TokenStatus(st.tokens[t], v)
  }

  function WithJob(st: State, j: nat, x: Job): State
    requires j < |st.jobs|
  {
    st.(jobs := st.jobs[j := x])
  }

  function Record(st: State, d: nat, s: Status): State
    requires d < |st.deps|
  {
    st.(deps := st.deps[d := st.deps[d].(recorded := s)])
  }

  /**
    What a round of checks may change: counters, recorded statuses (which become the actual status),
    the set of unfinished jobs (which shrinks), and new requested starts.
  */
  ghost predicate Checked(st: State, r: State)
    requires Structure(st)
  {
    && r.tokens == st.tokens && r.byId == st.byId && r.waiting <= st.waiting
    && |r.jobs| == |st.jobs| && |r.deps| == |st.deps|
    && (forall j :: 0 <= j < |st.jobs| ==> r.jobs[j] == st.jobs[j].(unsatisfied := r.jobs[j].unsatisfied))
    && (forall d :: 0 <= d < |st.deps| ==>
          && r.deps[d] == st.deps[d].(recorded := r.deps[d].recorded)
          && (r.deps[d].recorded == st.deps[d].recorded || (r.deps[d].recorded == StatusOf(st, d) && !Live(st, d))))
    && st.threads <= r.threads
    && (forall i :: |st.threads| <= i < |r.threads| ==>
          r.threads[i].job < |st.jobs| && r.threads[i] == Thread(r.threads[i].job, Requested, []))
  }

  lemma CheckedKeeps(st: State, r: State)
    requires Structure(st) && Checked(st, r)
    ensures Structure(r)
    ensures forall d :: 0 <= d < |st.deps| ==> StatusOf(r, d) == StatusOf(st, d)
    ensures forall d :: Live(r, d) <==> Live(st, d)
  {
    CheckedKeepsStructure(st, r);
    forall d | 0 <= d < |st.deps| ensures StatusOf(r, d) == StatusOf(st, d) { assert DepOk(st, d); }
    forall d ensures Live(r, d) <==> Live(st, d) {
      if i :| 0 <= i < |st.threads| && d in st.threads[i].held { assert d in r.threads[i].held; }
      if i :| 0 <= i < |r.threads| && d in r.threads[i].held { assert i < |st.threads|; }
    }
  }

  lemma CheckedKeepsStructure(st: State, r: State)
    requires Structure(st) && Checked(st, r)
    ensures Structure(r)
  {
    forall d | 0 <= d < |r.deps| ensures DepOk(r, d) { assert DepOk(st, d); }
    assert forall j :: 0 <= j < |st.jobs| ==> r.jobs[j].state == st.jobs[j].state;
    forall j, i | 0 <= j < |r.jobs| && 0 <= i < |r.jobs[j].dependencies|
      ensures r.jobs[j].dependencies[i] < |r.deps| && r.deps[r.jobs[j].dependencies[i]].target == j
    {
      assert r.jobs[j].dependencies == st.jobs[j].dependencies;
    }
    forall j, i | 0 <= j < |r.jobs| && 0 <= i < |r.jobs[j].dependents|
      ensures r.jobs[j].dependents[i] < |r.deps| && r.deps[r.jobs[j].dependents[i]].origin == OnJob(j)
    {
      assert r.jobs[j].dependents == st.jobs[j].dependents;
    }
  }

  lemma CheckedTransitive(a: State, b: State, c: State)
    requires Structure(a) && Checked(a, b) && Structure(b) && Checked(b, c)
    ensures Checked(a, c)
  {
    CheckedKeeps(a, b);
  }

  // ---------------------------------------------------------------- check, dependencyChanged, jobCompleted

  function Start(st: State, j: nat): State {
    st.(threads := st.threads + [Thread(j, Requested, [])])
  }

  function Check(st: State, d: nat): (r: State)
    requires Structure(st) && d < |st.deps|
    ensures Checked(st, r) && Structure(r)
    decreases |st.jobs| - st.deps[d].target, 3, 0
  {
    assert DepOk(st, d);
    var s, old_ := StatusOf(st, d), st.deps[d].recorded;
    if Live(st, d) || s == old_ then st
    else
      var r := Record(DependencyChanged(st, st.deps[d].target, old_, s), d, s);
      CheckedKeeps(st, r);
      r
  }

  function DependencyChanged(st: State, j: nat, from: Status, to: Status): (r: State)
    requires Structure(st) && j < |st.jobs|
    ensures Checked(st, r) && Structure(r)
    decreases |st.jobs| - j, 2, 0
  {
    var x := st.jobs[j];
    var st1 := WithJob(st, j, x.(unsatisfied := SubtractSize(x.unsatisfied, ValueOf(to) - ValueOf(from))));
    CheckedKeeps(st, st1);
    var r :=
      if to.FAIL? then JobCompleted(st1, j)
      else if st1.jobs[j].unsatisfied == 0 then Start(st1, j)
      else st1;
    CheckedTransitive(st, st1, r);
    CheckedKeeps(st, r);
    r
  }

  function JobCompleted(st: State, j: nat): (r: State)
    requires Structure(st) && j < |st.jobs|
    ensures Checked(st, r) && Structure(r)
    decreases |st.jobs| - j, 1, 0
  {
    var st1 := st.(waiting := st.waiting - {j});
    CheckedKeeps(st, st1);
    assert forall d :: d in st1.jobs[j].dependents ==> d < |st1.deps| && DepOk(st1, d);
    var r := CheckAll(st1, st1.jobs[j].dependents, j);
    CheckedTransitive(st, st1, r);
    r
  }

  /** Checks a list of dependencies whose targets all come after job `floor`. */
  function CheckAll(st: State, ds: seq<nat>, floor: int): (r: State)
    requires Structure(st) && -1 <= floor
    requires forall d :: d in ds ==> d < |st.deps| && floor < st.deps[d].target
    ensures Checked(st, r) && Structure(r)
    decreases |st.jobs| - floor, 0, |ds|
  {
    if ds == [] then st
    else
      assert ds[0] in ds && DepOk(st, ds[0]);
      var st1 := Check(st, ds[0]);
      assert forall d :: d in ds[1..] ==> d in ds && st1.deps[d].target == st.deps[d].target;
      var r := CheckAll(st1, ds[1..], floor);
      CheckedTransitive(st, st1, r);
      r
  }

  // ---------------------------------------------------------------- acquiring and releasing locks

  function WithThread(st: State, i: nat, x: Thread): State
    requires i < |st.threads|
  {
    st.(threads := st.threads[i := x])
  }

  function Hold(st: State, i: nat, d: nat): State
    requires i < |st.threads|
  {
    WithThread(st, i, st.threads[i].(held := st.threads[i].held + [d]))
  }

  function WithUsed(st: State, t: nat, used: uint32): State
    requires t < |st.tokens|
  {
    st.(tokens := st.tokens[t := st.tokens[t].(used := used)])
  }

  function WithState(st: State, j: nat, s: JobState): State
    requires j < |st.jobs|
  {
    WithJob(st, j, st.jobs[j].(state := s))
  }

  predicate Enough(t: Token, value: uint32) { !(Add32(value, t.used) > t.limit) }

  /** `Dependency::lock` for a thread: nothing for a job, a share in a live lock, or a new lock. None: no token left. */
  datatype Taken = Taken(st: State) | Short

  function Lock(st: State, i: nat, d: nat): Taken
    requires Structure(st) && i < |st.threads| && d < |st.deps|
  {
    assert DepOk(st, d);
    match st.deps[d].origin
    case OnJob(_) => Taken(st)
    case OnToken(t, v) =>
      if Live(st, d) then Taken(Hold(st, i, d))
      else if Enough(st.tokens[t], v) then
        Taken(Hold(WithUsed(st, t, Add32(st.tokens[t].used, v)), i, d))
      else Short
  }

  /** Nothing but the locks of thread `i` and the use of tokens may differ. */
  predicate SameButLocks(st: State, r: State, i: nat) {
    && r.jobs == st.jobs && r.deps == st.deps && r.byId == st.byId && r.waiting == st.waiting
    && |r.tokens| == |st.tokens| && |r.threads| == |st.threads|
    && (forall t :: 0 <= t < |st.tokens| ==> r.tokens[t] == st.tokens[t].(used := r.tokens[t].used))
    && (forall k :: 0 <= k < |st.threads| && k != i ==> r.threads[k] == st.threads[k])
    && (i < |st.threads| ==> r.threads[i] == st.threads[i].(held := r.threads[i].held))
  }

  predicate HoldsAreStructural(st: State, i: nat, d: nat) {
    i < |st.threads| && d < |st.deps| && st.deps[d].target == st.threads[i].job
  }

  lemma LockKeepsStructure(st: State, i: nat, d: nat)
    requires Structure(st) && HoldsAreStructural(st, i, d) && Lock(st, i, d).Taken?
    ensures Structure(Lock(st, i, d).st) && SameButLocks(st, Lock(st, i, d).st, i)
  {
    var r := Lock(st, i, d).st;
    assert DepOk(st, d);
    forall e | 0 <= e < |r.deps| ensures DepOk(r, e) { assert DepOk(st, e); }
    if st.deps[d].origin.OnToken? {
      forall k, n | 0 <= k < |r.threads| && 0 <= n < |r.threads[k].held|
        ensures r.threads[k].held[n] < |r.deps| && r.deps[r.threads[k].held[n]].origin.OnToken?
        ensures r.deps[r.threads[k].held[n]].target == r.threads[k].job
      {
        if k != i || n < |st.threads[i].held| { assert r.threads[k].held[n] == st.threads[k].held[n]; }
      }
      forall u, n | 0 <= u < |r.tokens| && 0 <= n < |r.tokens[u].dependents|
        ensures r.tokens[u].dependents[n] < |r.deps|
        ensures r.deps[r.tokens[u].dependents[n]].origin.OnToken?
        ensures r.deps[r.tokens[u].dependents[n]].origin.token == u
      {
        assert r.tokens[u].dependents == st.tokens[u].dependents;
      }
    }
  }

  /** Locks a list of dependencies one after the other, up to the first one that is short of tokens. */
  datatype Acquired = All(st: State) | Abort(st: State, dep: nat)

  function AcquireAll(st: State, i: nat, ds: seq<nat>): (r: Acquired)
    requires Structure(st) && forall d :: d in ds ==> HoldsAreStructural(st, i, d)
    ensures Structure(r.st) && SameButLocks(st, r.st, i)
    ensures r.Abort? ==> r.dep in ds
    decreases |ds|
  {
    if ds == [] then All(st)
    else
      assert ds[0] in ds && HoldsAreStructural(st, i, ds[0]);
      match Lock(st, i, ds[0])
      case Short => Abort(st, ds[0])
      case Taken(st1) =>
        LockKeepsStructure(st, i, ds[0]);
        assert forall d :: d in ds[1..] ==> d in ds;
        assert forall d :: HoldsAreStructural(st, i, d) ==> HoldsAreStructural(st1, i, d);
        AcquireAll(st1, i, ds[1..])
  }

  lemma UpdateKeepsStructure(st: State, r: State)
    requires Structure(st)
    requires r.deps == st.deps && |r.jobs| == |st.jobs| && |r.tokens| == |st.tokens| && |r.threads| == |st.threads|
    requires forall j :: 0 <= j < |st.jobs| ==>
               r.jobs[j].dependencies == st.jobs[j].dependencies && r.jobs[j].dependents == st.jobs[j].dependents
    requires forall t :: 0 <= t < |st.tokens| ==> r.tokens[t].dependents == st.tokens[t].dependents
    requires forall i :: 0 <= i < |st.threads| ==> r.threads[i].job == st.threads[i].job
    requires forall i, d :: 0 <= i < |st.threads| && d in r.threads[i].held ==> d in st.threads[i].held
    ensures Structure(r)
  {
    forall d | 0 <= d < |r.deps| ensures DepOk(r, d) { assert DepOk(st, d); }
    forall i, k | 0 <= i < |r.threads| && 0 <= k < |r.threads[i].held|
      ensures r.threads[i].held[k] < |r.deps| && r.deps[r.threads[i].held[k]].origin.OnToken?
      ensures r.deps[r.threads[i].held[k]].target == r.threads[i].job
    {
      assert r.threads[i].held[k] in st.threads[i].held;
    }
  }

  /** What the execution of `run` amounts to inside the critical section of `start`. */
  datatype RunMode =
    | Launched            // a process was started: the state is RUNNING
    | Silent              // the job runs without setting its state
    | FoundDone           // the `done` file exists: state DONE, completion announced at once
    | Watched(ok: bool)   // somebody else's process was waited for
    | NoRun               // `run` returned without doing anything

  function SetPhase(st: State, i: nat, p: Phase): State
    requires i < |st.threads|
  {
    WithThread(st, i, st.threads[i].(phase := p))
  }

  function BeginRun(st: State, i: nat, mode: RunMode): (r: State)
    requires Structure(st) && i < |st.threads|
    ensures Structure(r)
  {
    var j := st.threads[i].job;
    match mode
    case Launched =>
      var r := SetPhase(WithState(st, j, Running), i, InRun);
      UpdateKeepsStructure(st, r); r
    case Silent =>
      var r := SetPhase(st, i, InRun);
      UpdateKeepsStructure(st, r); r
    case FoundDone =>
      var st1 := WithState(st, j, Done);
      UpdateKeepsStructure(st, st1);
      var st2 := JobCompleted(st1, j);
      var r := SetPhase(st2, i, Completing);
      UpdateKeepsStructure(st2, r); r
    case Watched(ok) =>
      var r := SetPhase(WithState(st, j, if ok then Done else Error), i, Completing);
      UpdateKeepsStructure(st, r); r
    case NoRun =>
      var r := SetPhase(st, i, Completing);
      UpdateKeepsStructure(st, r); r
  }

  /** The start is aborted: the dependency that was short is checked, the job becomes READY. */
  function AbortStart(st: State, i: nat, d: nat): (r: State)
    requires Structure(st) && i < |st.threads| && d < |st.deps|
    ensures Structure(r)
  {
    var st1 := Check(st, d);
    var r := SetPhase(WithState(st1, st.threads[i].job, Ready), i, Releasing);
    UpdateKeepsStructure(st1, r);
    r
  }

  /** The first critical section of the thread that `start` spawns. */
  function StartSection(st: State, i: nat, mode: RunMode): (r: State)
    requires Structure(st) && i < |st.threads| && st.threads[i].phase.Requested?
    ensures Structure(r)
  {
    var ds := st.jobs[st.threads[i].job].dependencies;
    assert forall d :: d in ds ==> HoldsAreStructural(st, i, d);
    match AcquireAll(st, i, ds)
    case Abort(st1, d) => AbortStart(st1, i, d)
    case All(st1) => BeginRun(st1, i, mode)
  }

  /** `run` sets the job's state outside the mutex and returns. */
  function EndRun(st: State, i: nat, verdict: Verdict): (r: State)
    requires Structure(st) && i < |st.threads|
    ensures Structure(r)
  {
    var st1 := match verdict
      case Keep => st
      case Set(ok) => WithState(st, st.threads[i].job, if ok then Done else Error);
    var r := SetPhase(st1, i, Completing);
    UpdateKeepsStructure(st, r);
    r
  }
  datatype Verdict = Keep | Set(ok: bool)

  /** The thread gives up its first lock; the last holder's release returns the tokens and wakes dependents. */
  function Release(st: State, i: nat): (r: State)
    requires Structure(st) && i < |st.threads| && st.threads[i].held != []
    ensures Structure(r) && i < |r.threads|
    ensures r.threads[i] == st.threads[i].(held := st.threads[i].held[1..])
  {
    var d := st.threads[i].held[0];
    var st1 := WithThread(st, i, st.threads[i].(held := st.threads[i].held[1..]));
    UpdateKeepsStructure(st, st1);
    assert DepOk(st, d);
    if Live(st1, d) then st1
    else
      var t := st.deps[d].origin.token;
      var st2 := WithUsed(st1, t, Sub32(st1.tokens[t].used, st.deps[d].origin.value));
      UpdateKeepsStructure(st1, st2);
      assert forall e :: e in st2.tokens[t].dependents ==> e < |st2.deps| && DepOk(st2, e);
      CheckAll(st2, st2.tokens[t].dependents, -1)
  }

  function ReleaseAll(st: State, i: nat): (r: State)
    requires Structure(st) && i < |st.threads|
    ensures Structure(r) && i < |r.threads|
    ensures r.threads[i] == st.threads[i].(held := [])
    decreases |st.threads[i].held|
  {
    if st.threads[i].held == [] then st else ReleaseAll(Release(st, i), i)
  }

  /** The second critical section of the thread: completion is announced, then the locks are released. */
  function CompleteSection(st: State, i: nat): (r: State)
    requires Structure(st) && i < |st.threads|
    ensures Structure(r)
  {
    var st1 := JobCompleted(st, st.threads[i].job);
    var st2 := SetPhase(st1, i, Releasing);
    UpdateKeepsStructure(st1, st2);
    var st3 := ReleaseAll(st2, i);
    var r := SetPhase(st3, i, Ended);
    UpdateKeepsStructure(st3, r);
    r
  }

  // ---------------------------------------------------------------- building and submitting

  predicate Submitted(st: State, j: nat) {
    j < |st.jobs| && st.jobs[j].id in st.byId && st.byId[st.jobs[j].id] == j
  }

  function NewJob(st: State, id: string, state: JobState): (r: State)
    requires Structure(st)
    ensures Structure(r)
  {
    var r := st.(jobs := st.jobs + [Job(id, state, 0, [], [])]);
    assert forall d :: 0 <= d < |r.deps| ==> (DepOk(st, d) ==> DepOk(r, d));
    r
  }

  function NewToken(st: State, limit: uint32): (r: State)
    requires Structure(st)
    ensures Structure(r)
  {
    var r := st.(tokens := st.tokens + [Token(limit, 0, [])]);
    assert forall d :: 0 <= d < |r.deps| ==> (DepOk(st, d) ==> DepOk(r, d));
    r
  }

  function SetLimit(st: State, t: nat, limit: uint32): (r: State)
    requires Structure(st) && t < |st.tokens|
    ensures Structure(r)
  {
    var r := st.(tokens := st.tokens[t := st.tokens[t].(limit := limit)]);
    UpdateKeepsStructure(st, r);
    r
  }

  /** `Job::addDependency`: the new dependency counts as unsatisfied. */
  function AddDependency(st: State, j: nat, o: Origin): (r: State)
    requires Structure(st) && j < |st.jobs| && OriginOk(st, o, j)
    ensures Structure(r)
  {
    var x := st.jobs[j];
    var r := WithJob(st, j, x.(dependencies := x.dependencies + [|st.deps|],
                               unsatisfied := SubtractSize(x.unsatisfied, -1)))
             .(deps := st.deps + [Dependency(o, j, WAIT)]);
    AddDependencyKeepsStructure(st, j, o, r);
    r
  }

  lemma AddDependencyKeepsStructure(st: State, j: nat, o: Origin, r: State)
    requires Structure(st) && j < |st.jobs| && OriginOk(st, o, j)
    requires r.tokens == st.tokens && r.threads == st.threads && |r.jobs| == |st.jobs|
    requires r.deps == st.deps + [Dependency(o, j, WAIT)]
    requires forall k :: 0 <= k < |st.jobs| ==> r.jobs[k].dependents == st.jobs[k].dependents
    requires forall k :: 0 <= k < |st.jobs| && k != j ==> r.jobs[k].dependencies == st.jobs[k].dependencies
    requires r.jobs[j].dependencies == st.jobs[j].dependencies + [|st.deps|]
    ensures Structure(r)
  {
    forall d | 0 <= d < |r.deps| ensures DepOk(r, d) { if d < |st.deps| { assert DepOk(st, d); } }
  }

  /** The map of dependents is ordered by address: a new entry may come anywhere. */
  function Insert(s: seq<nat>, place: nat, d: nat): (r: seq<nat>)
    ensures forall x :: x in r <==> x in s || x == d
    ensures |r| == |s| + 1
  {
    var p := place % (|s| + 1);
    assert s == s[..p] + s[p..];
    s[..p] + [d] + s[p..]
  }

  function AddDependent(st: State, d: nat, place: nat): (r: State)
    requires Structure(st) && d < |st.deps|
    ensures Structure(r) && r.deps == st.deps && |r.jobs| == |st.jobs|
  {
    assert DepOk(st, d);
    match st.deps[d].origin
    case OnJob(k) =>
      var r := WithJob(st, k, st.jobs[k].(dependents := Insert(st.jobs[k].dependents, place, d)));
      AddDependentKeepsStructure(st, d, r); r
    case OnToken(t, _) =>
      var r := st.(tokens := st.tokens[t := st.tokens[t].(dependents := Insert(st.tokens[t].dependents, place, d))]);
      AddDependentKeepsStructure(st, d, r); r
  }

  lemma AddDependentKeepsStructure(st: State, d: nat, r: State)
    requires Structure(st) && d < |st.deps|
    requires r.deps == st.deps && r.threads == st.threads
    requires |r.jobs| == |st.jobs| && |r.tokens| == |st.tokens|
    requires forall k :: 0 <= k < |st.jobs| ==> r.jobs[k].dependencies == st.jobs[k].dependencies
    requires forall k, e :: 0 <= k < |st.jobs| && e in r.jobs[k].dependents ==>
               e in st.jobs[k].dependents || (e == d && st.deps[d].origin == OnJob(k))
    requires forall t, e :: 0 <= t < |st.tokens| && e in r.tokens[t].dependents ==>
               e in st.tokens[t].dependents || (e == d && st.deps[d].origin.OnToken? && st.deps[d].origin.token == t)
    ensures Structure(r)
  {
    forall e | 0 <= e < |r.deps| ensures DepOk(r, e) { assert DepOk(st, e); }
    forall j, i | 0 <= j < |r.jobs| && 0 <= i < |r.jobs[j].dependents|
      ensures r.jobs[j].dependents[i] < |r.deps| && r.deps[r.jobs[j].dependents[i]].origin == OnJob(j)
    {
      assert r.jobs[j].dependents[i] in r.jobs[j].dependents;
    }
    forall t, i | 0 <= t < |r.tokens| && 0 <= i < |r.tokens[t].dependents|
      ensures r.tokens[t].dependents[i] < |r.deps|
      ensures r.deps[r.tokens[t].dependents[i]].origin.OnToken?
      ensures r.deps[r.tokens[t].dependents[i]].origin.token == t
    {
      assert r.tokens[t].dependents[i] in r.tokens[t].dependents;
    }
  }

  /** The loop of `submit`: each dependency is registered with its origin, then checked. */
  function RegisterAll(st: State, ds: seq<nat>, places: seq<nat>): (r: State)
    requires Structure(st) && |places| == |ds| && forall d :: d in ds ==> d < |st.deps|
    ensures Structure(r)
    decreases |ds|
  {
    if ds == [] then st
    else
      assert ds[0] in ds;
      var st1 := Check(AddDependent(st, ds[0], places[0]), ds[0]);
      assert forall d :: d in ds[1..] ==> d in ds;
      RegisterAll(st1, ds[1..], places[1..])
  }

  function Submit(st: State, j: nat, places: seq<nat>): (r: State)
    requires Structure(st) && j < |st.jobs| && |places| == |st.jobs[j].dependencies|
    ensures Structure(r)
  {
    if st.jobs[j].id in st.byId then st
    else
      var st1 := st.(waiting := st.waiting + {j}, byId := st.byId[st.jobs[j].id := j]);
      UpdateKeepsStructure(st, st1);
      var st2 := RegisterAll(st1, st.jobs[j].dependencies, places);
      if st.jobs[j].dependencies == [] && st.jobs[j].unsatisfied == 0 then
        StartKeepsStructure(st2, j);
        Start(st2, j)
      else st2
  }

  lemma StartKeepsStructure(st: State, j: nat)
    requires Structure(st) && j < |st.jobs|
    ensures Structure(Start(st, j))
  {
    CheckedKeeps(st, Start(st, j));
  }

  // ---------------------------------------------------------------- events and runs

  datatype Event =
    | CreateJob(id: string, state: JobState)     // the constructor leaves the state uninitialised
    | CreateToken(limit: uint32)
    | ChangeLimit(t: nat, limit: uint32)
    | Depend(j: nat, origin: Origin)
    | SubmitJob(j: nat, places: seq<nat>)
    | EnterStart(i: nat, mode: RunMode)
    | LeaveRun(i: nat, verdict: Verdict)
    | Finish(i: nat)
    | ReleaseNext(i: nat)

  /**
    An event that is not enabled leaves the state as it is. Dependencies are added before submission, and
    fewer of them exist than a `size_t` can count.
  */
  function Step(st: State, e: Event): (r: State)
    requires Structure(st)
    ensures Structure(r)
  {
    match e
    case CreateJob(id, s) => NewJob(st, id, s)
    case CreateToken(limit) => NewToken(st, limit)
    case ChangeLimit(t, limit) => if t < |st.tokens| then SetLimit(st, t, limit) else st
    case Depend(j, o) =>
      if j < |st.jobs| && !Submitted(st, j) && OriginOk(st, o, j) && |st.deps| + 1 < SIZE then AddDependency(st, j, o)
      else st
    case SubmitJob(j, places) =>
      if j < |st.jobs| && |places| == |st.jobs[j].dependencies| then Submit(st, j, places) else st
    case EnterStart(i, mode) =>
      if i < |st.threads| && st.threads[i].phase.Requested? then StartSection(st, i, mode) else st
    case LeaveRun(i, verdict) =>
      if i < |st.threads| && st.threads[i].phase.InRun? then EndRun(st, i, verdict) else st
    case Finish(i) =>
      if i < |st.threads| && st.threads[i].phase.Completing? then CompleteSection(st, i) else st
    case ReleaseNext(i) =>
      if i < |st.threads| && st.threads[i].phase.Releasing? then
        if st.threads[i].held != [] then Release(st, i)
        else
          var r := SetPhase(st, i, Ended);
          UpdateKeepsStructure(st, r);
          r
      else st
  }

  function Run(st: State, events: seq<Event>): (r: State)
    requires Structure(st)
    ensures Structure(r)
    decreases |events|
  {
    if events == [] then st else Run(Step(st, events[0]), events[1..])
  }
}
