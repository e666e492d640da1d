/**
  The job index of the user interface: jobs by identifier, and the list of identifiers sorted for display.
  Identifiers are hexadecimal digests, on which `localeCompare` is the byte-wise order.
*/
module JobIndex {
  import V = Values

  datatype Status = Running | Error | Waiting | Ready | Done | Unknown
  /** The fields that play no role here are kept as a map. */
  datatype Job = Job(jobId: string, status: Status, details: map<string, string>)
  datatype Patch = Patch(jobId: string, status: V.Option<Status>, details: map<string, string>)

  datatype Jobs = Jobs(byId: map<string, Job>, ids: seq<string>)
  const EMPTY := Jobs(map[], [])

  datatype Action = Clean | Add(job: Job) | Update(patch: Patch) | Other

  function StatusRank(s: Status): int {
    match s
    case Running => 5
    case Error => 2
    case Waiting => 2
    case Ready => 1
    case Done => 0
    case Unknown => 0
  }

  /** `jobComparator`: higher ranks first, then identifiers in order. */
  predicate Before(byId: map<string, Job>, a: string, b: string)
    requires a in byId && b in byId
  {
    var z := StatusRank(byId[b].status) - StatusRank(byId[a].status);
    z < 0 || (z == 0 && V.Less(a, b))
  }

  lemma BeforeIsTotal(byId: map<string, Job>, a: string, b: string)
    requires a in byId && b in byId
    ensures a == b || Before(byId, a, b) || Before(byId, b, a)
    ensures !(Before(byId, a, b) && Before(byId, b, a)) && !Before(byId, a, a)
  {
    V.LessIsTotal(a, b);
    V.LessIsTotal(a, a);
  }

  lemma BeforeIsTransitive(byId: map<string, Job>, a: string, b: string, c: string)
    requires a in byId && b in byId && c in byId && Before(byId, a, b) && Before(byId, b, c)
    ensures Before(byId, a, c)
  {
    if V.Less(a, b) && V.Less(b, c) { V.LessIsTransitive(a, b, c); }
  }

  predicate Known(byId: map<string, Job>, ids: seq<string>) { forall i :: 0 <= i < |ids| ==> ids[i] in byId }

  /** Strictly sorted, hence without duplicates. */
  predicate Ordered(byId: map<string, Job>, ids: seq<string>) {
    Known(byId, ids) && forall i, j :: 0 <= i < j < |ids| ==> Before(byId, ids[i], ids[j])
  }

  predicate Distinct(ids: seq<string>) { forall i, j :: 0 <= i < j < |ids| ==> ids[i] != ids[j] }

  /** The list enumerates the keys, each once, in display order. */
  ghost predicate Valid(s: Jobs) {
    Ordered(s.byId, s.ids) && forall id :: id in s.ids <==> id in s.byId
  }

  // ---------------------------------------------------------------- sorting

  function Place(byId: map<string, Job>, ids: seq<string>, id: string): (r: seq<string>)
    requires Known(byId, ids) && id in byId
    ensures Known(byId, r) && forall x :: x in r <==> x in ids || x == id
    decreases |ids|
  {
    if ids == [] then [id]
    else if Before(byId, id, ids[0]) then [id] + ids
    else
      var r := [ids[0]] + Place(byId, ids[1..], id);
      assert forall x :: x in ids <==> x == ids[0] || x in ids[1..];
      r
  }

  function Sort(byId: map<string, Job>, ids: seq<string>): (r: seq<string>)
    requires Known(byId, ids)
    ensures Known(byId, r) && forall x :: x in r <==> x in ids
    decreases |ids|
  {
    if ids == [] then [] else
      assert forall x :: x in ids <==> x == ids[0] || x in ids[1..];
      Place(byId, Sort(byId, ids[1..]), ids[0])
  }

  lemma {:induction false} PlaceKeepsOrder(byId: map<string, Job>, ids: seq<string>, id: string)
    requires Ordered(byId, ids) && id in byId && id !in ids
    ensures Ordered(byId, Place(byId, ids, id))
    decreases |ids|
  {
    if ids != [] {
      BeforeIsTotal(byId, id, ids[0]);
      if Before(byId, id, ids[0]) {
        forall j | 0 < j < |ids| ensures Before(byId, id, ids[j]) { BeforeIsTransitive(byId, id, ids[0], ids[j]); }
      } else {
        var rest := Place(byId, ids[1..], id);
        PlaceKeepsOrder(byId, ids[1..], id);
        forall j | 0 <= j < |rest| ensures Before(byId, ids[0], rest[j]) {
          assert rest[j] in rest;
          if rest[j] != id { var k :| 0 <= k < |ids[1..]| && ids[1..][k] == rest[j]; assert ids[k + 1] == rest[j]; }
        }
      }
    }
  }

  lemma {:induction false} SortOrders(byId: map<string, Job>, ids: seq<string>)
    requires Known(byId, ids) && Distinct(ids)
    ensures Ordered(byId, Sort(byId, ids))
    decreases |ids|
  {
    if ids != [] {
      SortOrders(byId, ids[1..]);
      PlaceKeepsOrder(byId, Sort(byId, ids[1..]), ids[0]);
    }
  }

  lemma FirstIsIn(ids: seq<string>)
    ensures ids != [] ==> ids[0] in ids
  {
  }

  /** Whatever the algorithm, there is one sorted list of given identifiers. */
  lemma {:induction false} OrderedIsUnique(byId: map<string, Job>, a: seq<string>, b: seq<string>)
    requires Ordered(byId, a) && Ordered(byId, b) && forall x :: x in a <==> x in b
    ensures a == b
    decreases |a|
  {
    FirstIsIn(b);
    if a != [] {
      assert a[0] in b;
      var j :| 0 <= j < |b| && b[j] == a[0];
      assert b[0] in a;
      var i :| 0 <= i < |a| && a[i] == b[0];
      BeforeIsTotal(byId, a[0], b[0]);
      assert a[0] == b[0];
      forall x ensures x in a[1..] <==> x in b[1..] {
        BeforeIsTotal(byId, a[0], a[0]);
        assert x in a <==> x == a[0] || x in a[1..];
        assert x in b <==> x == b[0] || x in b[1..];
      }
      OrderedIsUnique(byId, a[1..], b[1..]);
    }
  }

  // ---------------------------------------------------------------- the reducer

  /** `_.merge` of a patch into a job. */
  function Merge(j: Job, p: Patch): Job {
    Job(p.jobId, if p.status.Some? then p.status.value else j.status, j.details + p.details)
  }

  function Reduce(s: Jobs, a: Action): (r: Jobs)
    requires Known(s.byId, s.ids)
    ensures Known(r.byId, r.ids)
  {
    match a
    case Clean => EMPTY
    case Add(job) =>
      var ids := if job.jobId in s.byId then s.ids else s.ids + [job.jobId];
      var byId := s.byId[job.jobId := job];
      Jobs(byId, Sort(byId, ids))
    case Update(p) =>
      var byId := if p.jobId in s.byId then s.byId[p.jobId := Merge(s.byId[p.jobId], p)] else s.byId;
      Jobs(byId, Sort(byId, s.ids))
    case Other => s
  }

  /** Every action keeps the index in agreement with the jobs. */
  lemma ReduceKeepsValid(s: Jobs, a: Action)
    requires Valid(s)
    ensures Valid(Reduce(s, a))
  {
    OrderedIsDistinct(s.byId, s.ids);
    match a
    case Add(job) =>
      var ids := if job.jobId in s.byId then s.ids else s.ids + [job.jobId];
      SortOrders(s.byId[job.jobId := job], ids);
    case Update(p) => SortOrders(Reduce(s, a).byId, s.ids);
    case _ =>
  }

  lemma OrderedIsDistinct(byId: map<string, Job>, ids: seq<string>)
    requires Ordered(byId, ids)
    ensures Distinct(ids)
  {
    forall i, j | 0 <= i < j < |ids| ensures ids[i] != ids[j] { BeforeIsTotal(byId, ids[i], ids[j]); }
  }

  /** The display list is a function of the jobs. */
  lemma IndexIsDetermined(s: Jobs, t: Jobs)
    requires Valid(s) && Valid(t) && s.byId == t.byId
    ensures s == t
  {
    OrderedIsUnique(s.byId, s.ids, t.ids);
  }

  ghost function Run(s: Jobs, actions: seq<Action>): (r: Jobs)
    requires Valid(s)
    ensures Valid(r)
    decreases |actions|
  {
    if actions == [] then s
    else
      ReduceKeepsValid(s, actions[0]);
      Run(Reduce(s, actions[0]), actions[1..])
  }

  /** Runs that end with the same jobs end in the same state. */
  lemma SameJobsSameState(s: Jobs, a: seq<Action>, t: Jobs, b: seq<Action>)
    requires Valid(s) && Valid(t) && Run(s, a).byId == Run(t, b).byId
    ensures Run(s, a) == Run(t, b)
  {
    IndexIsDetermined(Run(s, a), Run(t, b));
  }

  lemma UpdatesCommute(m: map<string, Job>, j: Job, k: Job)
    requires j.jobId != k.jobId
    ensures m[j.jobId := j][k.jobId := k] == m[k.jobId := k][j.jobId := j]
  {
  }

  lemma AddsCommute(s: Jobs, j: Job, k: Job)
    requires Valid(s) && j.jobId != k.jobId
    ensures Run(s, [Add(j), Add(k)]) == Run(s, [Add(k), Add(j)])
  {
    TwoAdds(s, j, k);
    TwoAdds(s, k, j);
    UpdatesCommute(s.byId, j, k);
    SameJobsSameState(s, [Add(j), Add(k)], s, [Add(k), Add(j)]);
  }

  lemma TwoAdds(s: Jobs, j: Job, k: Job)
    requires Valid(s)
    ensures Run(s, [Add(j), Add(k)]).byId == s.byId[j.jobId := j][k.jobId := k]
  {
    AddIs(s, j);
    var x := Reduce(s, Add(j));
    AddIs(x, k);
    OneAction(s, [Add(j), Add(k)]);
    assert [Add(j), Add(k)][1..] == [Add(k)];
    OneAction(x, [Add(k)]);
    assert [Add(k)][1..] == [];
  }

  lemma OneAction(s: Jobs, actions: seq<Action>)
    requires Valid(s) && actions != []
    ensures Valid(Reduce(s, actions[0])) && Run(s, actions) == Run(Reduce(s, actions[0]), actions[1..])
  {
    ReduceKeepsValid(s, actions[0]);
  }

  lemma AddIs(s: Jobs, j: Job)
    requires Valid(s)
    ensures Valid(Reduce(s, Add(j))) && Reduce(s, Add(j)).byId == s.byId[j.jobId := j]
  {
    ReduceKeepsValid(s, Add(j));
  }

  // ---------------------------------------------------------------- what is shown

  /** An update gives a known job the patched status and details, keeps what the patch is silent about, and adds no job. */
  lemma UpdateShows(s: Jobs, p: Patch)
    requires Valid(s)
    ensures var r := Reduce(s, Update(p));
            && r.byId.Keys == s.byId.Keys
            && (forall id :: id in s.byId && id != p.jobId ==> r.byId[id] == s.byId[id])
            && (p.jobId in s.byId ==>
                  var x, y := s.byId[p.jobId], r.byId[p.jobId];
                  && y.jobId == p.jobId
                  && (p.status.Some? ==> y.status == p.status.value) && (p.status.None? ==> y.status == x.status)
                  && y.details.Keys == x.details.Keys + p.details.Keys
                  && forall k :: k in y.details ==>
                                   y.details[k] == if k in p.details then p.details[k] else x.details[k])
  {
  }

  /** The job added is the one shown under its identifier. */
  lemma AddShows(s: Jobs, j: Job)
    requires Valid(s)
    ensures var r := Reduce(s, Add(j));
            && j.jobId in r.byId && r.byId[j.jobId] == j && j.jobId in r.ids
            && forall id :: id != j.jobId ==> (id in r.byId <==> id in s.byId) && (id in s.byId ==> r.byId[id] == s.byId[id])
  {
    ReduceKeepsValid(s, Add(j));
  }

  predicate Over(s: Status) { s.Done? || s.Unknown? }
  predicate Stuck(s: Status) { s.Error? || s.Waiting? }

  /**
    Running jobs come first, then those in error and those waiting, then the ready ones, and finished ones come last;
    within each of these groups identifiers are in order.
  */
  lemma DisplayOrder(s: Jobs, i: nat, j: nat)
    requires Valid(s) && i < j < |s.ids|
    ensures s.ids[i] in s.byId && s.ids[j] in s.byId
    ensures var x, y := s.byId[s.ids[i]].status, s.byId[s.ids[j]].status;
            && (y.Running? ==> x.Running?)
            && (Stuck(y) ==> x.Running? || Stuck(x))
            && (y.Ready? ==> !Over(x))
            && (x == y || (Stuck(x) && Stuck(y)) || (Over(x) && Over(y)) ==> V.Less(s.ids[i], s.ids[j]))
  {
    assert Before(s.byId, s.ids[i], s.ids[j]);
  }

  // ---------------------------------------------------------------- refresh

  predicate OneEach(jobs: seq<Job>) { forall i, j :: 0 <= i < j < |jobs| ==> jobs[i].jobId != jobs[j].jobId }

  function Adds(jobs: seq<Job>): (r: seq<Action>)
    ensures |r| == |jobs| && forall i :: 0 <= i < |r| ==> r[i] == Add(jobs[i])
  {
    seq(|jobs|, i requires 0 <= i < |jobs| => Add(jobs[i]))
  }

  lemma {:induction false} AddsBind(s: Jobs, jobs: seq<Job>, id: string)
    requires Valid(s) && OneEach(jobs)
    ensures id in Run(s, Adds(jobs)).byId <==> id in s.byId || exists j :: j in jobs && j.jobId == id
    ensures forall j :: j in jobs && j.jobId == id ==> id in Run(s, Adds(jobs)).byId && Run(s, Adds(jobs)).byId[id] == j
    ensures id in s.byId && (forall j :: j in jobs ==> j.jobId != id) ==>
              id in Run(s, Adds(jobs)).byId && Run(s, Adds(jobs)).byId[id] == s.byId[id]
    decreases |jobs|
  {
    if jobs != [] {
      ReduceKeepsValid(s, Add(jobs[0]));
      assert Adds(jobs)[1..] == Adds(jobs[1..]);
      AddsBind(Reduce(s, Add(jobs[0])), jobs[1..], id);
      assert forall j :: j in jobs <==> j == jobs[0] || j in jobs[1..];
    }
  }

  /** A refresh gives one state, whatever was shown before and in whatever order the jobs are sent. */
  lemma RefreshIsConfluent(s: Jobs, t: Jobs, a: seq<Job>, b: seq<Job>)
    requires Valid(s) && Valid(t) && OneEach(a) && OneEach(b) && forall j :: j in a <==> j in b
    ensures Run(s, [Clean] + Adds(a)) == Run(t, [Clean] + Adds(b))
  {
    assert ([Clean] + Adds(a))[1..] == Adds(a) && ([Clean] + Adds(b))[1..] == Adds(b);
    assert Valid(EMPTY);
    var x, y := Run(EMPTY, Adds(a)), Run(EMPTY, Adds(b));
    forall id ensures id in x.byId <==> id in y.byId
      ensures id in x.byId ==> x.byId[id] == y.byId[id]
    {
      AddsBind(EMPTY, a, id);
      AddsBind(EMPTY, b, id);
    }
    assert x.byId == y.byId;
    IndexIsDetermined(x, y);
  }

  // ---------------------------------------------------------------- the draft, updated in place

  class Store {
    var byId: map<string, Job>
    var ids: seq<string>

    ghost predicate Agrees()
      reads this
    {
      Valid(Jobs(byId, ids))
    }

    constructor ()
      ensures Agrees() && Jobs(byId, ids) == EMPTY
    {
      byId, ids := map[], [];
    }

    /** The sort that ends every change of the jobs. */
    method SortIds()
      requires Known(byId, ids)
      modifies this`ids
      ensures ids == Sort(byId, old(ids))
    {
      ids := Sort(byId, ids);
    }

    method Dispatch(a: Action)
      requires Agrees()
      modifies this
      ensures Agrees() && Jobs(byId, ids) == Reduce(old(Jobs(byId, ids)), a)
    {
      ReduceKeepsValid(Jobs(byId, ids), a);
      match a
      case Clean =>
        byId, ids := map[], [];
      case Add(job) =>
        if job.jobId !in byId {
          ids := ids + [job.jobId];
        }
        byId := byId[job.jobId := job];
        SortIds();
      case Update(p) =>
        if p.jobId in byId {
          byId := byId[p.jobId := Merge(byId[p.jobId], p)];
        }
        SortIds();
      case Other =>
    }

    method DispatchAll(actions: seq<Action>)
      requires Agrees()
      modifies this
      ensures Agrees() && Jobs(byId, ids) == Run(old(Jobs(byId, ids)), actions)
    {
      assert actions[0..] == actions;
      var i := 0;
      while i < |actions|
        invariant 0 <= i <= |actions| && Agrees()
        invariant Run(Jobs(byId, ids), actions[i..]) == Run(old(Jobs(byId, ids)), actions)
      {
        assert actions[i..][0] == actions[i] && actions[i..][1..] == actions[i + 1..];
        Dispatch(actions[i]);
        i := i + 1;
      }
    }
  }
}
