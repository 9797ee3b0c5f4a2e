/**
  The background job queue (jobs.rs), shared by any number of workers.

  Each SQL statement is one atomic step, and steps of different workers interleave in any
  order.  A worker may try to claim any id it once saw, however long ago, and may finish
  a job long after it was taken away from it.
 */
module Jobs {
  import opened Wrappers

  type JobId = nat
  type Shard = (nat, nat)

  const GC_MAX_ATTEMPTS: nat := 5
  const GC_RETRY_BASE_SECS: nat := 300
  const STALE_RUNNING_SECS: nat := 3600
  const RETAIN_SECS: nat := 30 * 24 * 3600

  datatype Kind = GcRemote(shards: seq<Shard>, attempt: nat) | Rebalance | Coalesced(name: nat)

  datatype Status = Pending | Running | Done | Failed

  datatype Job = Job(kind: Kind, status: Status, attempts: nat, createdAt: nat, runAfter: nat)

  datatype Event = Claimed(id: JobId) | Requeued(id: JobId) | Purged(id: JobId, last: Status)

  /** The table, and beside it what happened: the events in order, every kind ever queued
      and which job queued which retry. */
  datatype State = State(jobs: map<JobId, Job>, nextId: JobId, log: seq<Event>, kinds: map<JobId, Kind>, parent: map<JobId, JobId>)

  datatype Step =
    | Enqueue(kind: Kind, now: nat)
    | Claim(id: JobId)
    | Finish(id: JobId, ok: bool)
    | Requeue(ids: seq<JobId>, now: nat)
    | Purge(ids: seq<JobId>, now: nat)
    | Retry(of: JobId, failed: seq<Shard>, now: nat)

  const Init: State := State(map[], 0, [], map[], map[])

  // ── Statements ─────────────────────────────────────────────────────────────

  predicate IsStale(j: Job, now: nat) {
    j.status == Running && j.createdAt + STALE_RUNNING_SECS < now
  }

  predicate IsOld(j: Job, now: nat) {
    j.status in {Done, Failed} && j.createdAt + RETAIN_SECS < now
  }

  /** A pass that is already waiting is not queued twice. */
  predicate AlreadyWaiting(jobs: map<JobId, Job>, kind: Kind) {
    kind.Coalesced? && exists id :: id in jobs && jobs[id].kind == kind && jobs[id].status == Pending
  }

  function Insert(st: State, kind: Kind, now: nat, runAfter: nat): State {
    st.(jobs := st.jobs[st.nextId := Job(kind, Pending, 0, now, runAfter)], nextId := st.nextId + 1, kinds := st.kinds[st.nextId := kind])
  }

  /** The ids a bulk statement touches, in the order it touches them. */
  ghost predicate Lists(ids: seq<JobId>, jobs: map<JobId, Job>, p: Job -> bool) {
    && (forall a, b :: 0 <= a < b < |ids| ==> ids[a] != ids[b])
    && (forall id :: id in ids <==> id in jobs && p(jobs[id]))
  }

  ghost predicate Enabled(st: State, s: Step) {
    match s
    case Enqueue(kind, _) => kind.GcRemote? ==> kind.attempt == 0
    case Requeue(ids, now) => Lists(ids, st.jobs, j => IsStale(j, now))
    case Purge(ids, now) => Lists(ids, st.jobs, j => IsOld(j, now))
    case Retry(of, failed, _) =>
      of in st.kinds && st.kinds[of].GcRemote? && st.kinds[of].attempt + 1 < GC_MAX_ATTEMPTS
      && failed != [] && forall f :: f in failed ==> f in st.kinds[of].shards
    case _ => true
  }

  ghost function Next(st: State, s: Step): State {
    match s
    case Enqueue(kind, now) => if AlreadyWaiting(st.jobs, kind) then st else Insert(st, kind, now, now)
    case Claim(id) =>
      if id in st.jobs && st.jobs[id].status == Pending
      then st.(jobs := st.jobs[id := st.jobs[id].(status := Running, attempts := st.jobs[id].attempts + 1)], log := st.log + [Claimed(id)])
      else st
    case Finish(id, ok) =>
      if id in st.jobs then st.(jobs := st.jobs[id := st.jobs[id].(status := if ok then Done else Failed)]) else st
    case Requeue(ids, now) =>
      st.(jobs := map id | id in st.jobs :: if IsStale(st.jobs[id], now) then st.jobs[id].(status := Pending, runAfter := now) else st.jobs[id],
          log := st.log + seq(|ids|, k requires 0 <= k < |ids| => Requeued(ids[k])))
    case Purge(ids, now) =>
      st.(jobs := map id | id in st.jobs && !IsOld(st.jobs[id], now) :: st.jobs[id],
          log := st.log + seq(|ids|, k requires 0 <= k < |ids| => Purged(ids[k], if ids[k] in st.jobs then st.jobs[ids[k]].status else Done)))
    case Retry(of, failed, now) =>
      if of in st.kinds && st.kinds[of].GcRemote? then
        var attempt := st.kinds[of].attempt + 1;
        Insert(st, GcRemote(failed, attempt), now, now + GC_RETRY_BASE_SECS * attempt).(parent := st.parent[st.nextId := of])
      else st
  }

  // ── Claims ─────────────────────────────────────────────────────────────────

  ghost function Claims(log: seq<Event>, id: JobId): nat {
    if log == [] then 0 else Claims(log[..|log| - 1], id) + if log[|log| - 1] == Claimed(id) then 1 else 0
  }

  /** The latest claim of `id` has not been followed by a requeue. */
  ghost predicate OpenClaim(log: seq<Event>, id: JobId) {
    exists i :: 0 <= i < |log| && log[i] == Claimed(id) && forall k :: i < k < |log| ==> log[k] != Requeued(id)
  }

  /** Between any two claims of one job it was requeued. */
  ghost predicate Separated(log: seq<Event>) {
    forall i, j :: 0 <= i < j < |log| && log[i].Claimed? && log[j] == log[i] ==>
      exists k :: i < k < j && log[k] == Requeued(log[i].id)
  }

  ghost predicate PurgesFinished(log: seq<Event>) {
    forall i :: 0 <= i < |log| && log[i].Purged? ==> log[i].last in {Done, Failed}
  }

  lemma ClaimsSnoc(log: seq<Event>, e: Event, id: JobId)
    ensures Claims(log + [e], id) == Claims(log, id) + if e == Claimed(id) then 1 else 0
  {
    assert (log + [e])[..|log|] == log;
  }

  lemma {:induction false} ClaimsSkip(log: seq<Event>, more: seq<Event>, id: JobId)
    requires forall k :: 0 <= k < |more| ==> !more[k].Claimed?
    ensures Claims(log + more, id) == Claims(log, id)
  {
    if more == [] {
      assert log + more == log;
    } else {
      var m := |more| - 1;
      ClaimsSkip(log, more[..m], id);
      ClaimsSnoc(log + more[..m], more[m], id);
      assert log + more == (log + more[..m]) + [more[m]];
    }
  }

  /** A claim may be added once the previous one was requeued. */
  lemma SeparatedClaim(log: seq<Event>, id: JobId)
    requires Separated(log) && !OpenClaim(log, id)
    ensures Separated(log + [Claimed(id)])
  {
    var after := log + [Claimed(id)];
    forall i, j | 0 <= i < j < |after| && after[i].Claimed? && after[j] == after[i]
      ensures exists k :: i < k < j && after[k] == Requeued(after[i].id)
    {
      if j < |log| {
        assert log[j] == log[i];
        var k :| i < k < j && log[k] == Requeued(log[i].id);
        assert after[k] == Requeued(after[i].id);
      } else {
        assert log[i] == Claimed(id);
        var k :| i < k < |log| && log[k] == Requeued(id);
        assert after[k] == Requeued(after[i].id);
      }
    }
  }

  lemma ClaimsAreInLog(log: seq<Event>, more: seq<Event>, i: nat)
    requires i < |log + more| && (log + more)[i].Claimed? && forall k :: 0 <= k < |more| ==> !more[k].Claimed?
    ensures i < |log| && log[i] == (log + more)[i]
  {
  }

  lemma SeparatedSkip(log: seq<Event>, more: seq<Event>)
    requires Separated(log) && forall k :: 0 <= k < |more| ==> !more[k].Claimed?
    ensures Separated(log + more)
  {
    var after := log + more;
    forall i, j | 0 <= i < j < |after| && after[i].Claimed? && after[j] == after[i]
      ensures exists k :: i < k < j && after[k] == Requeued(after[i].id)
    {
      ClaimsAreInLog(log, more, i);
      ClaimsAreInLog(log, more, j);
      var k :| i < k < j && log[k] == Requeued(log[i].id);
      assert after[k] == Requeued(after[i].id);
    }
  }

  /** More events never reopen a claim, and a requeue among them closes it. */
  lemma OpenClaimSkip(log: seq<Event>, more: seq<Event>, id: JobId)
    requires forall k :: 0 <= k < |more| ==> !more[k].Claimed?
    ensures OpenClaim(log + more, id) ==> OpenClaim(log, id) && Requeued(id) !in more
  {
    var after := log + more;
    if OpenClaim(after, id) {
      var i :| 0 <= i < |after| && after[i] == Claimed(id) && forall k :: i < k < |after| ==> after[k] != Requeued(id);
      ClaimsAreInLog(log, more, i);
      forall k | i < k < |log| ensures log[k] != Requeued(id) {
        assert after[k] == log[k];
      }
      forall k | 0 <= k < |more| ensures more[k] != Requeued(id) {
        assert after[|log| + k] == more[k];
      }
    }
  }

  // ── Every interleaving ─────────────────────────────────────────────────────

  ghost predicate LogOk(st: State) {
    && Separated(st.log)
    && PurgesFinished(st.log)
    && (forall i :: 0 <= i < |st.log| ==> st.log[i].id < st.nextId)
    && (forall id :: id in st.jobs && st.jobs[id].status == Pending ==> !OpenClaim(st.log, id))
  }

  ghost predicate AttemptsOk(st: State) {
    && (forall id :: id in st.jobs ==> id < st.nextId && st.jobs[id].attempts == Claims(st.log, id))
  }

  ghost predicate KindsOk(st: State) {
    && (forall id :: id in st.kinds ==> id < st.nextId)
    && (forall id :: id in st.jobs ==> id in st.kinds && st.kinds[id] == st.jobs[id].kind)
  }

  /** A retry continues its parent: one attempt more, no shard the parent did not have. */
  ghost predicate Continues(child: Kind, parent: Kind) {
    && child.GcRemote? && parent.GcRemote?
    && child.attempt == parent.attempt + 1
    && forall f :: f in child.shards ==> f in parent.shards
  }

  ghost predicate ChainsOk(st: State) {
    && (forall id :: id in st.kinds && st.kinds[id].GcRemote? ==> st.kinds[id].attempt < GC_MAX_ATTEMPTS)
    && (forall id :: id in st.kinds && st.kinds[id].GcRemote? && id !in st.parent ==> st.kinds[id].attempt == 0)
    && (forall id :: id in st.parent ==>
          id in st.kinds && st.parent[id] in st.kinds && st.parent[id] < id && Continues(st.kinds[id], st.kinds[st.parent[id]]))
  }

  ghost predicate Inv(st: State) {
    LogOk(st) && AttemptsOk(st) && KindsOk(st) && ChainsOk(st)
  }

  lemma {:induction false} NoClaimsYet(log: seq<Event>, id: JobId)
    requires forall i :: 0 <= i < |log| ==> log[i].id != id
    ensures Claims(log, id) == 0 && !OpenClaim(log, id)
  {
    if log != [] {
      NoClaimsYet(log[..|log| - 1], id);
    }
  }

  lemma InsertKeepsLog(st: State, kind: Kind, now: nat, runAfter: nat)
    requires LogOk(st) && AttemptsOk(st)
    ensures LogOk(Insert(st, kind, now, runAfter)) && AttemptsOk(Insert(st, kind, now, runAfter))
  {
    NoClaimsYet(st.log, st.nextId);
  }

  lemma ClaimKeepsLog(st: State, id: JobId)
    requires LogOk(st) && AttemptsOk(st) && id in st.jobs && st.jobs[id].status == Pending
    ensures LogOk(Next(st, Claim(id))) && AttemptsOk(Next(st, Claim(id)))
  {
    var n := Next(st, Claim(id));
    SeparatedClaim(st.log, id);
    forall i | i in n.jobs ensures n.jobs[i].attempts == Claims(n.log, i) {
      ClaimsSnoc(st.log, Claimed(id), i);
    }
    forall i | i in n.jobs && n.jobs[i].status == Pending ensures !OpenClaim(n.log, i) {
      OpenClaimOther(st.log, id, i);
    }
  }

  lemma OpenClaimOther(log: seq<Event>, id: JobId, other: JobId)
    requires other != id
    ensures OpenClaim(log + [Claimed(id)], other) ==> OpenClaim(log, other)
  {
    var after := log + [Claimed(id)];
    if OpenClaim(after, other) {
      var i :| 0 <= i < |after| && after[i] == Claimed(other) && forall k :: i < k < |after| ==> after[k] != Requeued(other);
      assert log[i] == Claimed(other);
      forall k | i < k < |log| ensures log[k] != Requeued(other) {
        assert after[k] == log[k];
      }
    }
  }

  /** A bulk statement that logs no claim and makes pending only what it requeues. */
  lemma BulkKeepsLog(st: State, n: State, more: seq<Event>)
    requires LogOk(st) && AttemptsOk(st) && n.log == st.log + more && n.nextId == st.nextId
    requires forall k :: 0 <= k < |more| ==> !more[k].Claimed? && more[k].id < st.nextId && (more[k].Purged? ==> more[k].last in {Done, Failed})
    requires forall id :: id in n.jobs ==> id in st.jobs && n.jobs[id].attempts == st.jobs[id].attempts
    requires forall id :: id in n.jobs && n.jobs[id].status == Pending && st.jobs[id].status != Pending ==> Requeued(id) in more
    ensures LogOk(n) && AttemptsOk(n)
  {
    SeparatedSkip(st.log, more);
    forall id | id in n.jobs ensures n.jobs[id].attempts == Claims(n.log, id) {
      ClaimsSkip(st.log, more, id);
    }
    forall id | id in n.jobs && n.jobs[id].status == Pending ensures !OpenClaim(n.log, id) {
      OpenClaimSkip(st.log, more, id);
    }
    forall i | 0 <= i < |n.log| && n.log[i].Purged? ensures n.log[i].last in {Done, Failed} {
      if i >= |st.log| {
        assert n.log[i] == more[i - |st.log|];
      }
    }
  }

  lemma RequeueKeepsLog(st: State, ids: seq<JobId>, now: nat)
    requires LogOk(st) && AttemptsOk(st) && Enabled(st, Requeue(ids, now))
    ensures LogOk(Next(st, Requeue(ids, now))) && AttemptsOk(Next(st, Requeue(ids, now)))
  {
    var n := Next(st, Requeue(ids, now));
    var more := seq(|ids|, k requires 0 <= k < |ids| => Requeued(ids[k]));
    forall k | 0 <= k < |more| ensures more[k].id < st.nextId {
      assert ids[k] in ids;
    }
    forall id | id in n.jobs && n.jobs[id].status == Pending && st.jobs[id].status != Pending ensures Requeued(id) in more {
      assert id in ids;
      var k :| 0 <= k < |ids| && ids[k] == id;
      assert more[k] == Requeued(id);
    }
    BulkKeepsLog(st, n, more);
  }

  lemma PurgeKeepsLog(st: State, ids: seq<JobId>, now: nat)
    requires LogOk(st) && AttemptsOk(st) && Enabled(st, Purge(ids, now))
    ensures LogOk(Next(st, Purge(ids, now))) && AttemptsOk(Next(st, Purge(ids, now)))
  {
    var n := Next(st, Purge(ids, now));
    var more := seq(|ids|, k requires 0 <= k < |ids| => Purged(ids[k], if ids[k] in st.jobs then st.jobs[ids[k]].status else Done));
    forall k | 0 <= k < |more| ensures more[k].id < st.nextId && more[k].last in {Done, Failed} {
      assert ids[k] in ids;
    }
    BulkKeepsLog(st, n, more);
  }

  lemma FinishKeepsLog(st: State, id: JobId, ok: bool)
    requires LogOk(st) && AttemptsOk(st)
    ensures LogOk(Next(st, Finish(id, ok))) && AttemptsOk(Next(st, Finish(id, ok)))
  {
  }

  lemma KindsStep(st: State, s: Step)
    requires KindsOk(st)
    ensures KindsOk(Next(st, s))
  {
  }

  lemma RetryChains(st: State, of: JobId, failed: seq<Shard>, now: nat)
    requires KindsOk(st) && ChainsOk(st) && Enabled(st, Retry(of, failed, now))
    ensures ChainsOk(Next(st, Retry(of, failed, now)))
  {
    var n := Next(st, Retry(of, failed, now));
    assert Continues(n.kinds[st.nextId], n.kinds[of]);
    forall id | id in n.parent
      ensures id in n.kinds && n.parent[id] in n.kinds && n.parent[id] < id && Continues(n.kinds[id], n.kinds[n.parent[id]])
    {
      assert id != st.nextId ==> id in st.parent;
    }
  }

  lemma EnqueueChains(st: State, kind: Kind, now: nat)
    requires KindsOk(st) && ChainsOk(st) && Enabled(st, Enqueue(kind, now))
    ensures ChainsOk(Next(st, Enqueue(kind, now)))
  {
  }

  lemma ChainsStep(st: State, s: Step)
    requires KindsOk(st) && ChainsOk(st) && Enabled(st, s)
    ensures ChainsOk(Next(st, s))
  {
    match s
    case Retry(of, failed, now) => RetryChains(st, of, failed, now);
    case Enqueue(kind, now) => EnqueueChains(st, kind, now);
    case _ => assert Next(st, s).kinds == st.kinds && Next(st, s).parent == st.parent;
  }

  lemma LogStep(st: State, s: Step)
    requires LogOk(st) && AttemptsOk(st) && Enabled(st, s)
    ensures LogOk(Next(st, s)) && AttemptsOk(Next(st, s))
  {
    match s
    case Enqueue(kind, now) => InsertKeepsLog(st, kind, now, now);
    case Claim(id) =>
      if id in st.jobs && st.jobs[id].status == Pending {
        ClaimKeepsLog(st, id);
      }
    case Finish(id, ok) => FinishKeepsLog(st, id, ok);
    case Requeue(ids, now) => RequeueKeepsLog(st, ids, now);
    case Purge(ids, now) => PurgeKeepsLog(st, ids, now);
    case Retry(of, failed, now) =>
      var attempt := st.kinds[of].attempt + 1;
      InsertKeepsLog(st, GcRemote(failed, attempt), now, now + GC_RETRY_BASE_SECS * attempt);
  }

  lemma StepKeeps(st: State, s: Step)
    requires Inv(st) && Enabled(st, s)
    ensures Inv(Next(st, s))
  {
    LogStep(st, s);
    KindsStep(st, s);
    ChainsStep(st, s);
  }

  ghost predicate Runnable(st: State, steps: seq<Step>)
    decreases |steps|
  {
    steps == [] || (Enabled(st, steps[0]) && Runnable(Next(st, steps[0]), steps[1..]))
  }

  ghost function Run(st: State, steps: seq<Step>): State
    decreases |steps|
  {
    if steps == [] then st else Run(Next(st, steps[0]), steps[1..])
  }

  lemma {:induction false} RunKeeps(st: State, steps: seq<Step>)
    requires Inv(st) && Runnable(st, steps)
    ensures Inv(Run(st, steps))
    decreases |steps|
  {
    if steps != [] {
      StepKeeps(st, steps[0]);
      RunKeeps(Next(st, steps[0]), steps[1..]);
    }
  }

  /** Whatever the workers do and however they interleave: two claims of a job have a
      requeue between them, `attempts` counts the claims, and only finished jobs were
      ever purged. */
  lemma EveryRunIsFair(steps: seq<Step>)
    requires Runnable(Init, steps)
    ensures var st := Run(Init, steps);
      && Separated(st.log)
      && PurgesFinished(st.log)
      && forall id :: id in st.jobs ==> st.jobs[id].attempts == Claims(st.log, id)
  {
    RunKeeps(Init, steps);
  }

  /** Whatever a bulk statement selects can be listed, so it can always run. */
  lemma {:induction false} SomeListing(jobs: map<JobId, Job>, p: Job -> bool) returns (ids: seq<JobId>)
    ensures Lists(ids, jobs, p)
    decreases |jobs|
  {
    ids := [];
    if jobs != map[] {
      var id :| id in jobs;
      assert |jobs - {id}| < |jobs|;
      var rest := SomeListing(jobs - {id}, p);
      ids := if p(jobs[id]) then rest + [id] else rest;
    }
  }

  // ── What waits, what goes ──────────────────────────────────────────────────

  /** The jobs of this kind that wait to be claimed. */
  ghost function Waiting(st: State, kind: Kind): set<JobId> {
    set id | id in st.jobs && st.jobs[id].kind == kind && st.jobs[id].status == Pending
  }

  lemma WaitingIff(st: State, kind: Kind)
    ensures AlreadyWaiting(st.jobs, kind) <==> kind.Coalesced? && Waiting(st, kind) != {}
  {
    if AlreadyWaiting(st.jobs, kind) {
      var id :| id in st.jobs && st.jobs[id].kind == kind && st.jobs[id].status == Pending;
      assert id in Waiting(st, kind);
    } else if kind.Coalesced? {
      assert Waiting(st, kind) == {};
    }
  }

  /** Queueing a pass that already waits adds nothing; anything else waits once more. */
  lemma EnqueueCoalesces(st: State, kind: Kind, now: nat)
    requires forall id :: id in st.jobs ==> id < st.nextId
    ensures |Waiting(Next(st, Enqueue(kind, now)), kind)|
         == if kind.Coalesced? && Waiting(st, kind) != {} then |Waiting(st, kind)| else |Waiting(st, kind)| + 1
  {
    var before, after := Waiting(st, kind), Waiting(Next(st, Enqueue(kind, now)), kind);
    WaitingIff(st, kind);
    if !AlreadyWaiting(st.jobs, kind) {
      assert st.nextId !in st.jobs;
      assert after == before + {st.nextId};
    }
  }

  /** A queued job is new, waits, has never been tried and is due at once; a finished one is
      done if it went well and failed if not, and nothing else about it changes. */
  lemma QueuedAndFinished(st: State, kind: Kind, now: nat, id: JobId, ok: bool)
    requires forall i :: i in st.jobs ==> i < st.nextId
    ensures !(kind.Coalesced? && Waiting(st, kind) != {}) ==>
      st.nextId !in st.jobs && Next(st, Enqueue(kind, now)).jobs == st.jobs[st.nextId := Job(kind, Pending, 0, now, now)]
    ensures id in st.jobs ==>
      Next(st, Finish(id, ok)).jobs == st.jobs[id := st.jobs[id].(status := if ok then Done else Failed)]
  {
    WaitingIff(st, kind);
  }

  /** A job is forgotten if and only if it finished and was created more than thirty days
      ago; one taken back had been running and was created more than an hour ago. */
  lemma AgesDecide(st: State, id: JobId, ids: seq<JobId>, now: nat)
    requires id in st.jobs
    ensures id in Next(st, Purge(ids, now)).jobs <==>
              !(st.jobs[id].status in {Done, Failed} && now - st.jobs[id].createdAt > 2_592_000)
    ensures Next(st, Requeue(ids, now)).jobs[id] ==
              if st.jobs[id].status == Running && now - st.jobs[id].createdAt > 3_600
              then st.jobs[id].(status := Pending, runAfter := now) else st.jobs[id]
  {
  }

  /** Every retry waits five minutes longer than the one before it. */
  lemma RetryWaitsLonger(st: State, of: JobId, failed: seq<Shard>, now: nat)
    requires Enabled(st, Retry(of, failed, now)) && forall id :: id in st.jobs ==> id < st.nextId
    ensures var n := Next(st, Retry(of, failed, now));
      && n.jobs.Keys == st.jobs.Keys + {st.nextId} && st.nextId !in st.jobs
      && n.jobs[st.nextId].status == Pending && n.jobs[st.nextId].kind == GcRemote(failed, st.kinds[of].attempt + 1)
      && n.jobs[st.nextId].runAfter - now == 300 * st.kinds[of].attempt + 300
  {
  }

  // ── Retry chains ───────────────────────────────────────────────────────────

  /** How many jobs led to `id`, itself included. */
  ghost function ChainLength(st: State, id: JobId): nat
    requires ChainsOk(st)
    decreases id
  {
    if id in st.parent then 1 + ChainLength(st, st.parent[id]) else 1
  }

  lemma {:induction false} ChainIsAttempts(st: State, id: JobId)
    requires ChainsOk(st) && id in st.kinds && st.kinds[id].GcRemote?
    ensures ChainLength(st, id) == st.kinds[id].attempt + 1 <= GC_MAX_ATTEMPTS
    decreases id
  {
    if id in st.parent {
      ChainIsAttempts(st, st.parent[id]);
    }
  }

  /** No chain of remote-deletion retries is longer than `GC_MAX_ATTEMPTS`. */
  lemma EveryChainEnds(steps: seq<Step>, id: JobId)
    requires Runnable(Init, steps) && id in Run(Init, steps).kinds && Run(Init, steps).kinds[id].GcRemote?
    ensures ChainsOk(Run(Init, steps)) && ChainLength(Run(Init, steps), id) <= GC_MAX_ATTEMPTS
  {
    RunKeeps(Init, steps);
    ChainIsAttempts(Run(Init, steps), id);
  }

  /** The shards a peer is known to host and did not confirm deleting. */
  function Unconfirmed(shards: seq<Shard>, known: set<nat>, acks: Shard -> bool): (r: seq<Shard>)
    ensures forall f :: f in r <==> f in shards && f.1 in known && !acks(f)
  {
    if shards == [] then []
    else
      var n := |shards| - 1;
      var r := Unconfirmed(shards[..n], known, acks);
      assert forall f :: f in shards <==> f in shards[..n] || f == shards[n];
      if shards[n].1 in known && !acks(shards[n]) then r + [shards[n]] else r
  }

  method CollectUnconfirmed(shards: seq<Shard>, known: set<nat>, acks: Shard -> bool) returns (failed: seq<Shard>)
    ensures failed == Unconfirmed(shards, known, acks)
  {
    failed := [];
    for k := 0 to |shards|
      invariant failed == Unconfirmed(shards[..k], known, acks)
    {
      assert shards[..k + 1][..k] == shards[..k];
      if shards[k].1 in known && !acks(shards[k]) {
        failed := failed + [shards[k]];
      }
    }
    assert shards[..|shards|] == shards;
  }

  // ── The queue object ───────────────────────────────────────────────────────

  class JobQueue {
    var jobs: map<JobId, Job>
    var nextId: JobId
    ghost var q: State

    ghost predicate Valid() reads this {
      jobs == q.jobs && nextId == q.nextId && forall id :: id in jobs ==> id < nextId
    }

    constructor ()
      ensures Valid() && q == Init
    {
      jobs, nextId := map[], 0;
      q := Init;
    }

    method Add(kind: Kind, now: nat)
      requires Valid()
      modifies this
      ensures Valid() && q == Next(old(q), Enqueue(kind, now))
    {
      if !AlreadyWaiting(jobs, kind) {
        jobs := jobs[nextId := Job(kind, Pending, 0, now, now)];
        nextId := nextId + 1;
      }
      q := Next(q, Enqueue(kind, now));
    }

    /** The runnable job with the smallest id. */
    method SelectCandidate(now: nat) returns (c: Option<JobId>)
      requires Valid()
      ensures c.Some? ==> c.value in jobs && jobs[c.value].status == Pending && jobs[c.value].runAfter <= now
      ensures forall id :: id in jobs && jobs[id].status == Pending && jobs[id].runAfter <= now ==> c.Some? && c.value <= id
    {
      for i := 0 to nextId
        invariant forall id :: id in jobs && id < i ==> !(jobs[id].status == Pending && jobs[id].runAfter <= now)
      {
        if i in jobs && jobs[i].status == Pending && jobs[i].runAfter <= now {
          return Some(i);
        }
      }
      c := None;
    }

    /** The conditional update that decides a race: true for one claimer only. */
    method TryClaim(id: JobId) returns (won: bool)
      requires Valid()
      modifies this
      ensures Valid() && q == Next(old(q), Claim(id))
      ensures won <==> q.log == old(q).log + [Claimed(id)]
    {
      won := id in jobs && jobs[id].status == Pending;
      if won {
        jobs := jobs[id := jobs[id].(status := Running, attempts := jobs[id].attempts + 1)];
      }
      q := Next(q, Claim(id));
    }

    method MarkFinished(id: JobId, ok: bool)
      requires Valid()
      modifies this
      ensures Valid() && q == Next(old(q), Finish(id, ok))
    {
      if id in jobs {
        jobs := jobs[id := jobs[id].(status := if ok then Done else Failed)];
      }
      q := Next(q, Finish(id, ok));
    }

    method RequeueStale(now: nat, ghost ids: seq<JobId>)
      requires Valid() && Enabled(q, Requeue(ids, now))
      modifies this
      ensures Valid() && q == Next(old(q), Requeue(ids, now))
    {
      jobs := map id | id in jobs :: if IsStale(jobs[id], now) then jobs[id].(status := Pending, runAfter := now) else jobs[id];
      q := Next(q, Requeue(ids, now));
    }

    method PurgeOld(now: nat, ghost ids: seq<JobId>)
      requires Valid() && Enabled(q, Purge(ids, now))
      modifies this
      ensures Valid() && q == Next(old(q), Purge(ids, now))
    {
      jobs := map id | id in jobs && !IsOld(jobs[id], now) :: jobs[id];
      q := Next(q, Purge(ids, now));
    }

    /** One pass over the shards of a deleted file: what could not be confirmed is queued
        again with a growing delay, until the attempts run out. */
    method RunGcRemote(id: JobId, shards: seq<Shard>, attempt: nat, known: set<nat>, acks: Shard -> bool, now: nat)
      requires Valid() && id in q.kinds && q.kinds[id] == GcRemote(shards, attempt)
      modifies this
      ensures Valid()
      ensures var failed := Unconfirmed(shards, known, acks);
        q == if failed != [] && attempt + 1 < GC_MAX_ATTEMPTS then Next(old(q), Retry(id, failed, now)) else old(q)
      ensures q != old(q) ==> Enabled(old(q), Retry(id, Unconfirmed(shards, known, acks), now))
    {
      var failed := CollectUnconfirmed(shards, known, acks);
      if failed != [] && attempt + 1 < GC_MAX_ATTEMPTS {
        jobs := jobs[nextId := Job(GcRemote(failed, attempt + 1), Pending, 0, now, now + GC_RETRY_BASE_SECS * (attempt + 1))];
        nextId := nextId + 1;
        q := Next(q, Retry(id, failed, now));
      }
    }
  }
}